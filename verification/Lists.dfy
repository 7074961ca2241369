/** Sequences and sets: GLib's lists without a link, regrouping of concatenations, sizes of subsets. */
module Lists {
  ghost predicate NoDup<T(!new)>(s: seq<T>) {
    forall i, j :: 0 <= i < j < |s| ==> s[i] != s[j]
  }

  /** `g_list_remove`, `g_slist_remove`: drop the first occurrence. */
  function Remove<T(==)>(s: seq<T>, x: T): seq<T> {
    if s == [] then [] else if s[0] == x then s[1..] else [s[0]] + Remove(s[1..], x)
  }

  lemma {:induction false} RemoveMembers<T(!new)>(s: seq<T>, x: T)
    requires NoDup(s)
    ensures NoDup(Remove(s, x))
    ensures forall y :: y in Remove(s, x) <==> y in s && y != x
    ensures |Remove(s, x)| == |s| - if x in s then 1 else 0
  {
    if s != [] {
      assert s == [s[0]] + s[1..];
      RemoveMembers(s[1..], x);
      assert s[0] !in s[1..];
    }
  }

  lemma {:induction false} RemoveAbsent<T>(s: seq<T>, x: T)
    requires x !in s
    ensures Remove(s, x) == s
  {
    if s != [] {
      RemoveAbsent(s[1..], x);
    }
  }

  /** The loop that finds the link and takes it out. */
  method RemoveLink<T(==)>(s: seq<T>, x: T) returns (r: seq<T>)
    ensures r == Remove(s, x)
  {
    var i := 0;
    while i < |s|
      invariant 0 <= i <= |s| && Remove(s, x) == s[..i] + Remove(s[i..], x)
    {
      if s[i] == x {
        return s[..i] + s[i + 1..];
      }
      assert s[..i] + [s[i]] == s[..i + 1];
      i := i + 1;
    }
    return s;
  }

  lemma Associate<T>(a: seq<T>, b: seq<T>, c: seq<T>)
    ensures a + (b + c) == (a + b) + c
  {
  }

  lemma Associate4<T>(a: seq<T>, b: seq<T>, c: seq<T>, d: seq<T>)
    ensures a + (b + c + d) == a + b + c + d
  {
  }

  lemma {:induction false} SubsetCount<T>(a: set<T>, b: set<T>)
    requires a <= b
    ensures |a| <= |b|
    ensures a != b ==> |a| < |b|
  {
    if a != {} {
      var x :| x in a;
      SubsetCount(a - {x}, b - {x});
    }
  }
}
