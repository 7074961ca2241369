/**
 Byte strings, little-endian integers and positioned writes: the part of the C
 environment that the FDI rule cache is laid out in.
 */
module Bytes {
  type byte = x: int | 0 <= x < 256
  type Text = seq<byte>

  /** The bytes of an ASCII literal. */
  function Ascii(s: string): (t: Text)
    ensures |t| == |s|
  {
    seq(|s|, i requires 0 <= i < |s| => s[i] as int % 256)
  }

  function Zeros(n: nat): (z: Text)
    ensures |z| == n
    ensures forall i :: 0 <= i < n ==> z[i] == 0
  {
    seq(n, _ => 0)
  }

  // ROUND(len, align) for the two alignments the cache uses.

  function Round4(n: nat): (r: nat)
    ensures n <= r < n + 4 && r % 4 == 0
  {
    (n + 3) / 4 * 4
  }

  function Round8(n: nat): (r: nat)
    ensures n <= r < n + 8 && r % 8 == 0
  {
    (n + 7) / 8 * 8
  }

  /** Pads a byte string with NULs to a multiple of four. */
  function Pad4(t: Text): (r: Text)
    ensures |r| == Round4(|t|)
    ensures t <= r
  {
    t + Zeros(Round4(|t|) - |t|)
  }

  /** `lseek` to `off` followed by `write`: a hole left by seeking past the end reads as zeros. */
  function WriteAt(f: Text, off: nat, d: Text): (r: Text)
    ensures |r| == if |f| < off + |d| then off + |d| else |f|
    ensures off <= |f| ==> r[..off] == f[..off]
  {
    var g := if |f| < off + |d| then f + Zeros(off + |d| - |f|) else f;
    g[..off] + d + g[off + |d|..]
  }

  /** A write that starts at or after the end only extends the file. */
  lemma WritePastEnd(f: Text, off: nat, d: Text)
    requires |f| <= off
    ensures WriteAt(f, off, d) == f + Zeros(off - |f|) + d
  {
    var g := f + Zeros(off + |d| - |f|);
    assert g[..off] == f + Zeros(off - |f|);
  }

  /** A write over a known middle part replaces exactly that part. */
  lemma WriteInside(a: Text, b: Text, c: Text, d: Text)
    requires |b| == |d|
    ensures WriteAt(a + b + c, |a|, d) == a + d + c
  {
    var f := a + b + c;
    assert f[..|a|] == a;
    assert f[|a| + |d|..] == c;
  }

  /** A write over the tail of the file replaces the tail and extends the file. */
  lemma WriteOverTail(a: Text, b: Text, d: Text)
    requires |b| <= |d|
    ensures WriteAt(a + b, |a|, d) == a + d
  {
    var f := a + b;
    assert f[..|a|] == a;
  }

  // Little-endian integers, `n` bytes wide; wider values are truncated, as a C store does.

  function Pow256(n: nat): (r: nat)
    ensures r > 0
  {
    if n == 0 then 1 else 256 * Pow256(n - 1)
  }

  function Digit(x: nat, i: nat): byte
    decreases i
  {
    if i == 0 then x % 256 else Digit(x / 256, i - 1)
  }

  function Le(n: nat, x: nat): (r: Text)
    ensures |r| == n
  {
    seq(n, i requires 0 <= i < n => Digit(x, i))
  }

  function FromLe(s: Text): nat {
    if s == [] then 0 else s[0] + 256 * FromLe(s[1..])
  }

  lemma {:induction false} LeRoundTrip(n: nat, x: nat)
    ensures x < Pow256(n) ==> FromLe(Le(n, x)) == x
  {
    if n > 0 {
      LeRoundTrip(n - 1, x / 256);
      var s := Le(n, x);
      assert s[1..] == Le(n - 1, x / 256);
      assert x == x % 256 + 256 * (x / 256);
    }
  }

  lemma Pow256Values()
    ensures Pow256(4) == 0x1_0000_0000
    ensures Pow256(8) == 0x1_0000_0000_0000_0000
  {
    assert Pow256(2) == 0x1_0000;
    assert Pow256(4) == 256 * (256 * Pow256(2));
    assert Pow256(6) == 256 * (256 * Pow256(4));
    assert Pow256(8) == 256 * (256 * Pow256(6));
  }

  predicate NulFree(t: Text) {
    forall i :: 0 <= i < |t| ==> t[i] != 0
  }

  /** The C string that starts at the head of `s`: everything before the first NUL. */
  function CString(s: Text): Text {
    if s == [] || s[0] == 0 then [] else [s[0]] + CString(s[1..])
  }

  lemma {:induction false} CStringReads(t: Text, rest: Text)
    requires NulFree(t)
    requires rest != [] && rest[0] == 0
    ensures CString(t + rest) == t
  {
    if t == [] {
      assert t + rest == rest;
    } else {
      CStringReads(t[1..], rest);
      assert (t + rest)[1..] == t[1..] + rest;
      assert t == [t[0]] + t[1..];
    }
  }
}
