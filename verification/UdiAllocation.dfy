/** Finding an unused device name (hald/hald.c:257-286, hald/util.c:386-405): a base name and the first free decimal suffix. */
module UdiAllocation {
  import Lists

  type Udi = string

  function Decimal(i: nat): (s: string)
    ensures s != [] && forall k :: 0 <= k < |s| ==> '0' <= s[k] <= '9'
  {
    var d := [('0' as int + i % 10) as char];
    if i < 10 then d else Decimal(i / 10) + d
  }

  /** What a C buffer of `size` bytes keeps of a string. */
  function Truncated(s: string, size: nat): string
    requires size > 0
  {
    if |s| < size then s else s[..size - 1]
  }

  /** `g_snprintf (buf, size, "%s_%d", base, i)` */
  function Candidate(base: Udi, size: nat, i: nat): Udi
    requires size > 0
  {
    Truncated(base + "_" + Decimal(i), size)
  }

  ghost predicate Free(base: Udi, size: nat, taken: seq<Udi>, i: nat)
    requires size > 0
  {
    Candidate(base, size, i) !in taken
  }

  /** The search ends. */
  ghost predicate Ends(base: Udi, size: nat, taken: seq<Udi>)
    requires size > 0
  {
    exists i: nat :: Free(base, size, taken, i)
  }

  /** A candidate that fits is the base name, an underscore and the suffix. */
  lemma CandidateIs(base: Udi, size: nat, i: nat)
    requires Fits(base, size, i)
    ensures var c := Candidate(base, size, i); |c| > |base| && c[..|base|] == base && c[|base|] == '_' && Value(c[|base| + 1..]) == i
  {
    var c := Candidate(base, size, i);
    assert c == base + "_" + Decimal(i);
    assert c[|base| + 1..] == Decimal(i);
    DecimalMeans(i);
  }

  // Decimal suffixes.

  lemma {:induction false} DecimalInjective(i: nat, j: nat)
    requires Decimal(i) == Decimal(j)
    ensures i == j
  {
    var s, t := Decimal(i), Decimal(j);
    assert s[|s| - 1] == ('0' as int + i % 10) as char;
    assert t[|t| - 1] == ('0' as int + j % 10) as char;
    assert i % 10 == j % 10;
    if i >= 10 && j >= 10 {
      assert Decimal(i / 10) == s[..|s| - 1] && Decimal(j / 10) == t[..|t| - 1];
      DecimalInjective(i / 10, j / 10);
    } else {
      assert i < 10 <==> |s| == 1;
      assert j < 10 <==> |t| == 1;
    }
  }

  /** The number a numeral stands for. */
  function Value(s: string): int {
    if s == [] then 0 else 10 * Value(s[..|s| - 1]) + (s[|s| - 1] as int - '0' as int)
  }

  /** The suffix is the decimal numeral of its number, without leading zeros. */
  lemma {:induction false} DecimalMeans(i: nat)
    ensures Value(Decimal(i)) == i
    ensures i > 0 ==> Decimal(i)[0] != '0'
  {
    var s := Decimal(i);
    assert s[|s| - 1] as int - '0' as int == i % 10;
    if i < 10 {
      assert s[..0] == [];
    } else {
      assert s[..|s| - 1] == Decimal(i / 10);
      DecimalMeans(i / 10);
    }
  }

  lemma {:induction false} DecimalMonotone(i: nat, j: nat)
    requires i <= j
    ensures |Decimal(i)| <= |Decimal(j)|
  {
    if i >= 10 {
      DecimalMonotone(i / 10, j / 10);
    }
  }

  /** Cutting a numeral short leaves the numeral of a smaller number. */
  lemma {:induction false} CutNumeral(i: nat, r: nat) returns (j: nat)
    requires 1 <= r <= |Decimal(i)|
    ensures Decimal(j) == Decimal(i)[..r]
  {
    if |Decimal(i)| == r {
      j := i;
      assert Decimal(i)[..r] == Decimal(i);
    } else {
      assert i >= 10;
      j := CutNumeral(i / 10, r);
      assert Decimal(i)[..r] == Decimal(i / 10)[..r];
    }
  }

  /** The suffix `i` fits the buffer. */
  predicate Fits(base: Udi, size: nat, i: nat) {
    |base| + 1 + |Decimal(i)| < size
  }

  lemma CandidatesDiffer(base: Udi, size: nat, i: nat, j: nat)
    requires size > 0 && Fits(base, size, i) && Fits(base, size, j) && Candidate(base, size, i) == Candidate(base, size, j)
    ensures i == j
  {
    var p := |base| + 1;
    var s, t := base + "_" + Decimal(i), base + "_" + Decimal(j);
    assert s[p..] == Decimal(i) && t[p..] == Decimal(j);
    DecimalInjective(i, j);
  }

  // The pigeonhole argument.

  ghost function Candidates(base: Udi, size: nat, k: nat): set<Udi>
    requires size > 0
  {
    if k == 0 then {} else Candidates(base, size, k - 1) + {Candidate(base, size, k - 1)}
  }

  lemma {:induction false} CandidatesAre(base: Udi, size: nat, k: nat, u: Udi)
    requires size > 0 && u in Candidates(base, size, k)
    ensures exists i: nat :: i < k && Candidate(base, size, i) == u
  {
    if u != Candidate(base, size, k - 1) {
      CandidatesAre(base, size, k - 1, u);
    }
  }

  lemma {:induction false} CandidatesCount(base: Udi, size: nat, k: nat)
    requires size > 0 && (k > 0 ==> Fits(base, size, k - 1))
    ensures |Candidates(base, size, k)| == k
  {
    hide Candidate;
    if k > 0 {
      if k > 1 {
        DecimalMonotone(k - 2, k - 1);
      }
      CandidatesCount(base, size, k - 1);
      var c := Candidate(base, size, k - 1);
      if c in Candidates(base, size, k - 1) {
        CandidatesAre(base, size, k - 1, c);
        var i: nat :| i < k - 1 && Candidate(base, size, i) == c;
        DecimalMonotone(i, k - 1);
        CandidatesDiffer(base, size, i, k - 1);
        assert false;
      }
    }
  }

  lemma {:induction false} FewElements(s: seq<Udi>)
    ensures |set u | u in s| <= |s|
  {
    var all := set u | u in s;
    if s == [] {
      assert all == {};
    } else {
      FewElements(s[1..]);
      assert all == {s[0]} + (set u | u in s[1..]);
    }
  }

  /** Among as many suffixes as there are devices, and one more, one is free, as long as they fit the buffer. */
  lemma SomeSuffixIsFree(base: Udi, size: nat, taken: seq<Udi>) returns (i: nat)
    requires size > 0 && Fits(base, size, |taken|)
    ensures i <= |taken| && Free(base, size, taken, i)
  {
    hide Candidate;
    var n := |taken|;
    var all := set u | u in taken;
    FewElements(taken);
    CandidatesCount(base, size, n + 1);
    var names := Candidates(base, size, n + 1);
    if names <= all {
      Lists.SubsetCount(names, all);
      assert false;
    }
    var u :| u in names && u !in all;
    CandidatesAre(base, size, n + 1, u);
    i :| i < n + 1 && Candidate(base, size, i) == u;
  }

  /**
   When the search ends: with room for at least one digit, exactly if some suffix that fits is free; with less room,
   exactly if the one name all suffixes are cut down to is free.
   */
  lemma EndsIff(base: Udi, size: nat, taken: seq<Udi>)
    requires size > 0
    ensures Ends(base, size, taken)
            <==> if |base| + 2 < size then exists i: nat :: Fits(base, size, i) && Free(base, size, taken, i)
                 else Truncated(base + "_", size) !in taken
  {
    if |base| + 2 < size {
      forall i: nat | Free(base, size, taken, i)
        ensures exists j: nat :: Fits(base, size, j) && Free(base, size, taken, j)
      {
        if !Fits(base, size, i) {
          var r := size - 2 - |base|;
          var j := CutNumeral(i, r);
          CutCandidate(base, size, i, j);
          assert Fits(base, size, j) && Free(base, size, taken, j);
        }
      }
    } else {
      forall i: nat
        ensures Candidate(base, size, i) == Truncated(base + "_", size)
      {
        NoRoom(base, size, i);
      }
      assert Free(base, size, taken, 0) <==> Truncated(base + "_", size) !in taken;
    }
  }

  lemma CutCandidate(base: Udi, size: nat, i: nat, j: nat)
    requires |base| + 2 < size && !Fits(base, size, i)
    requires Decimal(j) == Decimal(i)[..size - 2 - |base|]
    ensures Candidate(base, size, j) == Candidate(base, size, i)
  {
    hide Decimal;
    var r := size - 2 - |base|;
    assert (base + "_" + Decimal(i))[..size - 1] == base + "_" + Decimal(i)[..r];
  }

  lemma NoRoom(base: Udi, size: nat, i: nat)
    requires size > 0 && |base| + 2 >= size
    ensures Candidate(base, size, i) == Truncated(base + "_", size)
  {
    assert |base + "_" + Decimal(i)| >= size - 1;
    assert (base + "_" + Decimal(i))[..size - 1] == (base + "_")[..size - 1];
  }

  /** A base name as long as the buffer that is taken makes the search endless. */
  lemma LongNamesNeverEnd(base: Udi, size: nat, taken: seq<Udi>)
    requires size > 0 && |base| == size - 1 && base in taken
    ensures !Ends(base, size, taken)
  {
    EndsIff(base, size, taken);
    assert (base + "_")[..size - 1] == base;
  }

  // Copying the found name out to a destination of another size.

  function Min(a: nat, b: nat): nat {
    if a < b then a else b
  }

  lemma TruncatedTwice(s: string, a: nat, b: nat)
    requires a > 0 && b > 0
    ensures Truncated(Truncated(s, a), b) == Truncated(s, Min(a, b))
  {
    if |s| >= a && a > b {
      assert s[..a - 1][..b - 1] == s[..b - 1];
    }
  }

  lemma TruncatedFits(s: string, size: nat)
    requires size > 0
    ensures |Truncated(s, size)| < size
  {
  }

  lemma EndsSomewhere(base: Udi, size: nat, taken: seq<Udi>)
    requires size > 0
    ensures Ends(base, size, taken) ==> exists i: nat :: Free(base, size, taken, i)
  {
  }

  /** `i` is the first suffix that is free in a buffer of `size` bytes. */
  ghost predicate FirstFree(base: Udi, size: nat, taken: seq<Udi>, i: nat)
    requires size > 0
  {
    Free(base, size, taken, i) && forall k: nat :: k < i ==> !Free(base, size, taken, k)
  }

  lemma FittingCandidates(base: Udi, size: nat, small: nat, i: nat)
    requires 0 < small <= size && Fits(base, small, i)
    ensures Candidate(base, small, i) == Candidate(base, size, i)
  {
    hide Decimal;
  }

  /** The first free name is still unused after it is cut to the destination, exactly if a search in the smaller buffer would end. */
  lemma CopiedNameIsUnusedIff(base: Udi, size: nat, dstsize: nat, taken: seq<Udi>, i: nat)
    requires size > 0 && dstsize > 0 && FirstFree(base, size, taken, i)
    ensures Truncated(Candidate(base, size, i), dstsize) !in taken <==> Ends(base, Min(size, dstsize), taken)
  {
    hide Decimal, Truncated;
    var m := Min(size, dstsize);
    TruncatedTwice(base + "_" + Decimal(i), size, dstsize);
    assert Truncated(Candidate(base, size, i), dstsize) == Candidate(base, m, i);
    if Ends(base, m, taken) {
      EndsIff(base, m, taken);
      if |base| + 2 < m {
        var j: nat :| Fits(base, m, j) && Free(base, m, taken, j);
        FittingCandidates(base, size, m, j);
        assert Free(base, size, taken, j);
        DecimalMonotone(i, j);
        FittingCandidates(base, size, m, i);
      } else {
        NoRoom(base, m, i);
      }
    } else {
      assert !Free(base, m, taken, i);
    }
  }

  /** A taken name that fills the destination: whatever suffix is found, that very name is copied out. */
  lemma CutBackToTaken(dst: Udi, dstsize: nat, taken: seq<Udi>, i: nat)
    requires |dst| == dstsize - 1 && dstsize <= 256 && dst in taken
    ensures !Ends(dst, Min(256, dstsize), taken)
    ensures Truncated(Candidate(dst, 256, i), dstsize) == dst
  {
    LongNamesNeverEnd(dst, dstsize, taken);
    hide Decimal;
    TruncatedTwice(dst + "_" + Decimal(i), 256, dstsize);
    NoRoom(dst, dstsize, i);
    assert (dst + "_")[..dstsize - 1] == dst;
  }

  /** For one: with "a" taken, the search in 256 bytes ends, but a destination of two bytes gets "a" again. */
  lemma TakenNameComesBack()
    ensures Ends("a", 256, ["a"]) && !Ends("a", Min(256, 2), ["a"])
  {
    assert |Candidate("a", 256, 0)| > 1;
    assert Free("a", 256, ["a"], 0);
    CutBackToTaken("a", 2, ["a"], 0);
  }

  // The code.

  /** `hal_device_store_find`, as to whether there is such a device. */
  method Find(store: seq<Udi>, udi: Udi) returns (found: bool)
    ensures found <==> udi in store
  {
    var i := 0;
    while i < |store|
      invariant 0 <= i <= |store| && udi !in store[..i]
    {
      if store[i] == udi {
        return true;
      }
      i := i + 1;
    }
    return false;
  }

  /** `hald_compute_udi` on the name already formatted in `dst`, with its local buffer of 256 bytes. */
  method ComputeUdi(gdl: seq<Udi>, tdl: seq<Udi>, dst: Udi, dstsize: nat) returns (r: Udi, ghost tries: nat)
    requires |dst| < dstsize
    requires dst in gdl + tdl ==> Ends(dst, 256, gdl + tdl)
    ensures dst !in gdl + tdl ==> r == dst && tries == 0
    ensures dst in gdl + tdl ==>
              && tries > 0 && r == Truncated(Candidate(dst, 256, tries - 1), dstsize)
              && Free(dst, 256, gdl + tdl, tries - 1)
              && (forall i: nat :: i < tries - 1 ==> !Free(dst, 256, gdl + tdl, i))
    ensures dst in gdl + tdl && Fits(dst, 256, |gdl + tdl|) ==> tries <= |gdl + tdl| + 1
    ensures |r| < dstsize
    ensures r !in gdl + tdl <==> dst !in gdl + tdl || Ends(dst, Min(256, dstsize), gdl + tdl)
    ensures dstsize >= 256 ==> r !in gdl && r !in tdl
  {
    hide Decimal, Candidate, Truncated, Ends, Fits;
    ghost var taken := gdl + tdl;
    EndsSomewhere(dst, 256, taken);
    var inGdl := Find(gdl, dst);
    var inTdl := Find(tdl, dst);
    tries := 0;
    if !inGdl && !inTdl {
      return dst, 0;
    }
    ghost var free: nat :| Free(dst, 256, taken, free);
    if Fits(dst, 256, |taken|) {
      free := SomeSuffixIsFree(dst, 256, taken);
    }
    var i := 0;
    while true
      invariant i <= free
      invariant forall k: nat :: k < i ==> !Free(dst, 256, taken, k)
      decreases free - i
    {
      var buf := Candidate(dst, 256, i);
      inGdl := Find(gdl, buf);
      inTdl := Find(tdl, buf);
      if !inGdl && !inTdl {
        tries := i + 1;
        assert Free(dst, 256, taken, i);
        CopiedNameIsUnusedIff(dst, 256, dstsize, taken, i);
        TruncatedFits(buf, dstsize);
        return Truncated(buf, dstsize), tries;
      }
      assert !Free(dst, 256, taken, i);
      i := i + 1;
    }
  }

  /** `hal_util_make_udi_unique`, which formats straight into the caller's buffer. */
  method MakeUdiUnique(store: seq<Udi>, udisize: nat, original: Udi) returns (r: Udi, ghost tries: nat)
    requires udisize > 0
    requires original in store ==> Ends(original, udisize, store)
    ensures original !in store ==> r == Truncated(original, udisize) && tries == 0
    ensures original in store ==>
              && tries > 0 && r == Candidate(original, udisize, tries - 1) && r !in store
              && (forall i: nat :: i < tries - 1 ==> !Free(original, udisize, store, i))
    ensures original in store && Fits(original, udisize, |store|) ==> tries <= |store| + 1
    ensures r !in store <==> original in store || Truncated(original, udisize) !in store
  {
    hide Decimal;
    tries := 0;
    var found := Find(store, original);
    if !found {
      return Truncated(original, udisize), 0;
    }
    ghost var free: nat :| Free(original, udisize, store, free);
    if Fits(original, udisize, |store|) {
      free := SomeSuffixIsFree(original, udisize, store);
    }
    var i := 0;
    while true
      invariant i <= free
      invariant forall k: nat :: k < i ==> !Free(original, udisize, store, k)
      decreases free - i
    {
      r := Candidate(original, udisize, i);
      found := Find(store, r);
      if !found {
        tries := i + 1;
        return;
      }
      assert !Free(original, udisize, store, i);
      i := i + 1;
    }
  }
}
