/**
 Bottom-up merge sort on sequences: what the in-place list sort of libhal/uthash.h computes,
 and that it is a stable sort.
 */
module MergeSort {
  /** A comparison is used only through "not after", and only on the elements that are sorted. */
  ghost predicate TotalPreorder<T>(le: (T, T) -> bool, all: seq<T>) {
    && (forall x, y :: x in all && y in all ==> le(x, y) || le(y, x))
    && (forall x, y, z :: x in all && y in all && z in all && le(x, y) && le(y, z) ==> le(x, z))
  }

  ghost predicate Among<T>(s: seq<T>, all: seq<T>) {
    forall x :: x in s ==> x in all
  }

  function Merge<T>(le: (T, T) -> bool, a: seq<T>, b: seq<T>): (r: seq<T>)
    ensures |r| == |a| + |b|
    decreases |a| + |b|
  {
    if a == [] then b
    else if b == [] then a
    else if le(a[0], b[0]) then [a[0]] + Merge(le, a[1..], b)
    else [b[0]] + Merge(le, a, b[1..])
  }

  function Min(a: nat, b: nat): nat {
    if a < b then a else b
  }

  /** One pass: neighbouring runs of length `k` are merged in pairs. */
  function Pass<T>(le: (T, T) -> bool, s: seq<T>, k: nat): (r: seq<T>)
    requires k > 0
    ensures |r| == |s|
    decreases |s|
  {
    if s == [] then []
    else
      var i := Min(k, |s|);
      var j := Min(2 * k, |s|);
      Merge(le, s[..i], s[i..j]) + Pass(le, s[j..], k)
  }

  /** The number of merges a pass makes. */
  function Merges(n: nat, k: nat): nat
    requires k > 0
    decreases n
  {
    if n == 0 then 0 else 1 + Merges(n - Min(2 * k, n), k)
  }

  function Sort<T>(le: (T, T) -> bool, s: seq<T>, k: nat): (r: seq<T>)
    requires k > 0
    ensures |r| == |s|
    decreases |s| - k
  {
    if Merges(|s|, k) <= 1 then Pass(le, s, k) else MergesMeans(|s|, k); Sort(le, Pass(le, s, k), 2 * k)
  }

  lemma MergesMeans(n: nat, k: nat)
    requires k > 0
    ensures Merges(n, k) <= 1 <==> n <= 2 * k
  {
    if n > 2 * k {
      assert Merges(n - 2 * k, k) > 0;
    } else if n > 0 {
      assert Merges(0, k) == 0;
    }
  }

  lemma SliceSplit<T>(s: seq<T>, i: nat, j: nat)
    requires i <= j <= |s|
    ensures s == s[..j] + s[j..] && s[..j] == s[..i] + s[i..j]
    ensures s[i..][..j - i] == s[i..j] && s[i..][j - i..] == s[j..]
  {
  }

  // Permutation.

  lemma {:induction false} MergePermutes<T>(le: (T, T) -> bool, a: seq<T>, b: seq<T>)
    ensures multiset(Merge(le, a, b)) == multiset(a) + multiset(b)
    decreases |a| + |b|
  {
    if a != [] && b != [] {
      assert a == [a[0]] + a[1..] && b == [b[0]] + b[1..];
      if le(a[0], b[0]) {
        MergePermutes(le, a[1..], b);
      } else {
        MergePermutes(le, a, b[1..]);
      }
    }
  }

  lemma {:induction false} PassPermutes<T>(le: (T, T) -> bool, s: seq<T>, k: nat)
    requires k > 0
    ensures multiset(Pass(le, s, k)) == multiset(s)
    decreases |s|
  {
    if s != [] {
      var i, j := Min(k, |s|), Min(2 * k, |s|);
      hide Merge;
      MergePermutes(le, s[..i], s[i..j]);
      PassPermutes(le, s[j..], k);
      SliceSplit(s, i, j);
      assert multiset(s[..j] + s[j..]) == multiset(s[..i] + s[i..j]) + multiset(s[j..]);
    }
  }

  lemma {:induction false} SortPermutes<T>(le: (T, T) -> bool, s: seq<T>, k: nat)
    requires k > 0
    ensures multiset(Sort(le, s, k)) == multiset(s)
    decreases |s| - k
  {
    PassPermutes(le, s, k);
    if Merges(|s|, k) > 1 {
      MergesMeans(|s|, k);
      SortPermutes(le, Pass(le, s, k), 2 * k);
    }
  }

  // Order.

  ghost predicate Sorted<T>(le: (T, T) -> bool, s: seq<T>) {
    forall i, j :: 0 <= i < j < |s| ==> le(s[i], s[j])
  }

  ghost predicate AllBelow<T>(le: (T, T) -> bool, x: T, s: seq<T>) {
    forall y :: y in s ==> le(x, y)
  }

  lemma SortedTail<T>(le: (T, T) -> bool, s: seq<T>)
    requires s != [] && Sorted(le, s)
    ensures Sorted(le, s[1..]) && AllBelow(le, s[0], s[1..])
  {
  }

  lemma SortedCons<T>(le: (T, T) -> bool, x: T, s: seq<T>)
    requires Sorted(le, s) && AllBelow(le, x, s)
    ensures Sorted(le, [x] + s)
  {
  }

  lemma MergeMembers<T>(le: (T, T) -> bool, a: seq<T>, b: seq<T>, y: T)
    requires y in Merge(le, a, b)
    ensures y in a || y in b
  {
    MergePermutes(le, a, b);
    assert y in multiset(Merge(le, a, b));
  }

  lemma {:induction false} MergeSorts<T>(le: (T, T) -> bool, all: seq<T>, a: seq<T>, b: seq<T>)
    requires TotalPreorder(le, all) && Among(a, all) && Among(b, all) && Sorted(le, a) && Sorted(le, b)
    ensures Sorted(le, Merge(le, a, b))
    decreases |a| + |b|
  {
    hide TotalPreorder, Sorted;
    if a != [] && b != [] {
      SortedTail(le, a);
      SortedTail(le, b);
      var first := le(a[0], b[0]);
      var x := if first then a[0] else b[0];
      var a', b' := if first then a[1..] else a, if first then b else b[1..];
      MergeSorts(le, all, a', b');
      forall y | y in Merge(le, a', b')
        ensures le(x, y)
      {
        MergeMembers(le, a', b', y);
        HeadIsBelow(le, all, a, b, x, y);
      }
      SortedCons(le, x, Merge(le, a', b'));
    }
  }

  lemma HeadIsBelow<T>(le: (T, T) -> bool, all: seq<T>, a: seq<T>, b: seq<T>, x: T, y: T)
    requires TotalPreorder(le, all) && Among(a, all) && Among(b, all) && a != [] && b != []
    requires AllBelow(le, a[0], a[1..]) && AllBelow(le, b[0], b[1..])
    requires x == if le(a[0], b[0]) then a[0] else b[0]
    requires y in a || y in b
    ensures le(x, y)
  {
    assert a[0] in all && b[0] in all && y in all;
    assert y in a ==> y == a[0] || y in a[1..];
    assert y in b ==> y == b[0] || y in b[1..];
    assert le(a[0], a[0]) && le(b[0], b[0]);
  }

  /** Every run of length `k` is sorted. */
  ghost predicate RunsSorted<T>(le: (T, T) -> bool, s: seq<T>, k: nat)
    requires k > 0
    decreases |s|
  {
    s == [] || (Sorted(le, s[..Min(k, |s|)]) && RunsSorted(le, s[Min(k, |s|)..], k))
  }

  lemma RunsAppend<T>(le: (T, T) -> bool, a: seq<T>, b: seq<T>, k: nat)
    requires k > 0 && Sorted(le, a) && RunsSorted(le, b, k)
    requires |a| == k || (|a| <= k && b == [])
    ensures RunsSorted(le, a + b, k)
  {
    var s := a + b;
    if s != [] {
      assert s[..Min(k, |s|)] == a && s[Min(k, |s|)..] == b;
    }
  }

  lemma EmptyIsSorted<T>(le: (T, T) -> bool)
    ensures Sorted(le, [])
  {
  }

  lemma RunsUnfold<T>(le: (T, T) -> bool, s: seq<T>, k: nat)
    requires k > 0 && s != [] && RunsSorted(le, s, k)
    ensures Sorted(le, s[..Min(k, |s|)]) && RunsSorted(le, s[Min(k, |s|)..], k)
  {
    hide Sorted;
  }

  lemma FirstRuns<T>(le: (T, T) -> bool, s: seq<T>, k: nat)
    requires k > 0 && s != [] && RunsSorted(le, s, k)
    ensures var i, j := Min(k, |s|), Min(2 * k, |s|);
            Sorted(le, s[..i]) && Sorted(le, s[i..j]) && RunsSorted(le, s[j..], k)
  {
    hide Sorted, RunsSorted;
    var i, j := Min(k, |s|), Min(2 * k, |s|);
    RunsUnfold(le, s, k);
    SliceSplit(s, i, j);
    var rest := s[i..];
    if rest != [] {
      RunsUnfold(le, rest, k);
      assert j - i == Min(k, |rest|);
    } else {
      assert s[i..j] == [] && s[j..] == rest;
      EmptyIsSorted(le);
    }
  }

  lemma {:induction false} PassDoublesRuns<T>(le: (T, T) -> bool, all: seq<T>, s: seq<T>, k: nat)
    requires k > 0 && TotalPreorder(le, all) && Among(s, all) && RunsSorted(le, s, k)
    ensures RunsSorted(le, Pass(le, s, k), 2 * k)
    decreases |s|
  {
    hide TotalPreorder, Sorted, RunsSorted, Merge;
    if s == [] {
      NoRuns(le, 2 * k);
    } else {
      var i, j := Min(k, |s|), Min(2 * k, |s|);
      FirstRuns(le, s, k);
      MergeSorts(le, all, s[..i], s[i..j]);
      PassDoublesRuns(le, all, s[j..], k);
      RunsAppend(le, Merge(le, s[..i], s[i..j]), Pass(le, s[j..], k), 2 * k);
    }
  }

  lemma NoRuns<T>(le: (T, T) -> bool, k: nat)
    requires k > 0
    ensures RunsSorted(le, [], k)
  {
  }

  lemma PassAmong<T>(le: (T, T) -> bool, all: seq<T>, s: seq<T>, k: nat)
    requires k > 0 && Among(s, all)
    ensures Among(Pass(le, s, k), all)
  {
    hide Pass;
    PassPermutes(le, s, k);
    forall x | x in Pass(le, s, k)
      ensures x in all
    {
      assert x in multiset(Pass(le, s, k));
    }
  }

  lemma {:induction false} SingletonRuns<T>(le: (T, T) -> bool, s: seq<T>)
    ensures RunsSorted(le, s, 1)
    decreases |s|
  {
    if s != [] {
      SingletonRuns(le, s[1..]);
    }
  }

  lemma {:induction false} SortSorts<T>(le: (T, T) -> bool, all: seq<T>, s: seq<T>, k: nat)
    requires k > 0 && TotalPreorder(le, all) && Among(s, all) && RunsSorted(le, s, k)
    ensures Sorted(le, Sort(le, s, k))
    decreases |s| - k
  {
    hide TotalPreorder, Sorted, RunsSorted, Pass, Among;
    PassDoublesRuns(le, all, s, k);
    PassAmong(le, all, s, k);
    MergesMeans(|s|, k);
    var p := Pass(le, s, k);
    if Merges(|s|, k) > 1 {
      SortSorts(le, all, p, 2 * k);
    } else if p == [] {
      EmptyIsSorted(le);
    } else {
      RunsUnfold(le, p, 2 * k);
      assert p[..Min(2 * k, |p|)] == p;
    }
  }

  // Stability.

  ghost predicate Equal<T>(le: (T, T) -> bool, x: T, y: T) {
    le(x, y) && le(y, x)
  }

  /** The elements that compare equal to `x`, in order. */
  ghost function Class<T>(le: (T, T) -> bool, x: T, s: seq<T>): seq<T> {
    if s == [] then [] else OfClass(le, x, s[0]) + Class(le, x, s[1..])
  }

  ghost function OfClass<T>(le: (T, T) -> bool, x: T, y: T): seq<T> {
    if Equal(le, x, y) then [y] else []
  }

  lemma ClassCons<T>(le: (T, T) -> bool, x: T, y: T, s: seq<T>)
    ensures Class(le, x, [y] + s) == OfClass(le, x, y) + Class(le, x, s)
  {
    assert ([y] + s)[1..] == s;
  }

  lemma ClassUnfold<T>(le: (T, T) -> bool, x: T, s: seq<T>)
    requires s != []
    ensures Class(le, x, s) == OfClass(le, x, s[0]) + Class(le, x, s[1..])
  {
  }

  lemma ClassOfNone<T>(le: (T, T) -> bool, x: T)
    ensures Class(le, x, []) == []
  {
  }

  lemma {:induction false} ClassAppend<T>(le: (T, T) -> bool, x: T, a: seq<T>, b: seq<T>)
    ensures Class(le, x, a + b) == Class(le, x, a) + Class(le, x, b)
    decreases |a|
  {
    if a == [] {
      assert a + b == b;
    } else {
      assert (a + b)[1..] == a[1..] + b;
      ClassAppend(le, x, a[1..], b);
    }
  }

  /** Nothing in a sorted run equals an element that goes before its head. */
  lemma {:induction false} ClassOfEarlier<T>(le: (T, T) -> bool, all: seq<T>, x: T, y: T, a: seq<T>)
    requires TotalPreorder(le, all) && Among(a, all) && x in all && y in all && Equal(le, x, y)
    requires forall z :: z in a ==> !le(z, y)
    ensures Class(le, x, a) == []
    decreases |a|
  {
    if a != [] {
      ClassOfEarlier(le, all, x, y, a[1..]);
      assert a[0] in all && !le(a[0], y);
    }
  }

  lemma HeadRulesOut<T>(le: (T, T) -> bool, all: seq<T>, a: seq<T>, y: T)
    requires TotalPreorder(le, all) && Among(a, all) && y in all && Sorted(le, a) && a != [] && !le(a[0], y)
    ensures forall z :: z in a ==> !le(z, y)
  {
    SortedTail(le, a);
    forall z | z in a
      ensures !le(z, y)
    {
      assert a[0] in all && z in all;
      assert z == a[0] || z in a[1..];
    }
  }

  lemma {:induction false} MergeIsStable<T>(le: (T, T) -> bool, all: seq<T>, x: T, a: seq<T>, b: seq<T>)
    requires TotalPreorder(le, all) && Among(a, all) && Among(b, all) && x in all && Sorted(le, a)
    ensures Class(le, x, Merge(le, a, b)) == Class(le, x, a) + Class(le, x, b)
    decreases |a| + |b|
  {
    hide TotalPreorder, Sorted, Class, Equal;
    ClassOfNone(le, x);
    if a != [] && b != [] {
      if le(a[0], b[0]) {
        SortedTail(le, a);
        MergeIsStable(le, all, x, a[1..], b);
        ClassCons(le, x, a[0], Merge(le, a[1..], b));
        ClassUnfold(le, x, a);
      } else {
        MergeIsStable(le, all, x, a, b[1..]);
        ClassCons(le, x, b[0], Merge(le, a, b[1..]));
        ClassUnfold(le, x, b);
        if Equal(le, x, b[0]) {
          HeadRulesOut(le, all, a, b[0]);
          ClassOfEarlier(le, all, x, b[0], a);
        }
      }
    }
  }

  lemma {:induction false} PassIsStable<T>(le: (T, T) -> bool, all: seq<T>, x: T, s: seq<T>, k: nat)
    requires k > 0 && TotalPreorder(le, all) && Among(s, all) && x in all && RunsSorted(le, s, k)
    ensures Class(le, x, Pass(le, s, k)) == Class(le, x, s)
    decreases |s|
  {
    if s != [] {
      hide Class, Merge, Sorted, RunsSorted, TotalPreorder;
      var i, j := Min(k, |s|), Min(2 * k, |s|);
      FirstRuns(le, s, k);
      MergeIsStable(le, all, x, s[..i], s[i..j]);
      PassIsStable(le, all, x, s[j..], k);
      ClassAppend(le, x, Merge(le, s[..i], s[i..j]), Pass(le, s[j..], k));
      SliceSplit(s, i, j);
      ClassAppend(le, x, s[..j], s[j..]);
      ClassAppend(le, x, s[..i], s[i..j]);
    }
  }

  lemma {:induction false} SortIsStable<T>(le: (T, T) -> bool, all: seq<T>, x: T, s: seq<T>, k: nat)
    requires k > 0 && TotalPreorder(le, all) && Among(s, all) && x in all && RunsSorted(le, s, k)
    ensures Class(le, x, Sort(le, s, k)) == Class(le, x, s)
    decreases |s| - k
  {
    hide TotalPreorder, RunsSorted, Pass, Among, Class;
    PassIsStable(le, all, x, s, k);
    if Merges(|s|, k) > 1 {
      MergesMeans(|s|, k);
      PassDoublesRuns(le, all, s, k);
      PassAmong(le, all, s, k);
      SortIsStable(le, all, x, Pass(le, s, k), 2 * k);
    }
  }

  /** A sorted permutation that keeps elements that compare equal in their order. */
  ghost predicate IsStableSort<T>(le: (T, T) -> bool, s: seq<T>, r: seq<T>) {
    && Sorted(le, r)
    && multiset(r) == multiset(s)
    && forall x :: x in s ==> Class(le, x, r) == Class(le, x, s)
  }

  /** The sort is a stable sort of whatever elements the comparison orders, objects included. */
  lemma SortIsCorrect<T>(le: (T, T) -> bool, s: seq<T>)
    requires TotalPreorder(le, s)
    ensures IsStableSort(le, s, Sort(le, s, 1))
  {
    hide Sort, Class, Sorted;
    SingletonRuns(le, s);
    SortSorts(le, s, s, 1);
    SortPermutes(le, s, 1);
    forall x | x in s
      ensures Class(le, x, Sort(le, s, 1)) == Class(le, x, s)
    {
      SortIsStable(le, s, x, s, 1);
    }
  }
}
