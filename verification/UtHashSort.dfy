/**
 HASH_SORT of libhal/uthash.h: Simon Tatham's bottom-up merge sort, in place on the
 application-order links of the hash items.
 */
module UtHashSort {
  import Seqs = Lists
  import opened MergeSort

  /** An element with its hash handle: links in application order and in its bucket's chain. */
  class Item<E> {
    const elem: E
    var prev: Item?<E>
    var next: Item?<E>
    var hhPrev: Item?<E>
    var hhNext: Item?<E>

    constructor (elem: E)
      ensures this.elem == elem
    {
      this.elem := elem;
    }
  }

  /** The comparison function of the caller, on items. */
  function OnItems<E>(le: (E, E) -> bool): (Item<E>, Item<E>) -> bool {
    (x: Item<E>, y: Item<E>) => le(x.elem, y.elem)
  }

  ghost function First<E>(s: seq<Item<E>>): Item?<E> {
    if s == [] then null else s[0]
  }

  ghost function Last<E>(s: seq<Item<E>>): Item?<E> {
    if s == [] then null else s[|s| - 1]
  }

  /** `next` leads along `s`; what the last item's `next` holds is left open. */
  ghost predicate Chained<E>(s: seq<Item<E>>)
    reads s`next
  {
    forall i :: 0 <= i < |s| - 1 ==> s[i].next == s[i + 1]
  }

  ghost predicate BackChained<E>(s: seq<Item<E>>)
    reads s`prev
  {
    (s != [] ==> s[0].prev == null) && forall i :: 0 <= i < |s| - 1 ==> s[i + 1].prev == s[i]
  }

  ghost predicate Ended<E>(s: seq<Item<E>>)
    reads s`next
  {
    s != [] ==> s[|s| - 1].next == null
  }

  ghost predicate Distinct<E>(s: seq<Item<E>>) {
    forall i, j :: 0 <= i < j < |s| ==> s[i] != s[j]
  }

  ghost predicate Apart<E>(a: seq<Item<E>>, b: seq<Item<E>>) {
    forall x :: x in a ==> x !in b
  }

  /** The list built so far, the rest of the first run and the rest of the list are separate and linked. */
  ghost predicate Threads<E>(out: seq<Item<E>>, ps: seq<Item<E>>, rest: seq<Item<E>>)
    reads out, ps, rest
  {
    && Distinct(out) && Distinct(ps) && Distinct(rest)
    && Apart(out, ps) && Apart(out, rest) && Apart(ps, rest)
    && Chained(out) && BackChained(out) && Chained(ps) && Chained(rest) && Ended(rest)
  }

  /** Links `e` behind `tale0`. */
  method Append<E>(list0: Item?<E>, tale0: Item?<E>, e: Item<E>, ghost out: seq<Item<E>>)
    returns (list: Item?<E>, tale: Item<E>)
    requires list0 == First(out) && tale0 == Last(out) && Distinct(out) && e !in out
    requires Chained(out) && BackChained(out)
    modifies (if tale0 == null then {} else {tale0})`next, e`prev
    ensures list == First(out + [e]) && tale == e
    ensures Chained(out + [e]) && BackChained(out + [e])
  {
    list := list0;
    if tale0 != null {
      tale0.next := e;
    } else {
      list := e;
    }
    e.prev := tale0;
    tale := e;
    ghost var s := out + [e];
    forall i | 0 <= i < |s| - 1
      ensures s[i + 1].prev == s[i]
    {
      if i < |out| - 1 {
        assert old(out[i + 1].prev) == out[i];
        assert out[i + 1] != e;
      }
    }
    assert BackChained(s);
  }

  lemma MoveFirst<E>(out: seq<Item<E>>, ps: seq<Item<E>>, rest: seq<Item<E>>)
    requires Distinct(out) && Distinct(ps) && Distinct(rest)
    requires Apart(out, ps) && Apart(out, rest) && Apart(ps, rest)
    ensures ps != [] ==>
              && ps[0] !in out && ps[0] !in ps[1..] && ps[0] !in rest
              && Distinct(out + [ps[0]]) && Distinct(ps[1..])
              && Apart(out + [ps[0]], ps[1..]) && Apart(out + [ps[0]], rest) && Apart(ps[1..], rest)
    ensures rest != [] ==>
              && rest[0] !in out && rest[0] !in ps && rest[0] !in rest[1..]
              && Distinct(out + [rest[0]]) && Distinct(rest[1..])
              && Apart(out + [rest[0]], ps) && Apart(out + [rest[0]], rest[1..]) && Apart(ps, rest[1..])
  {
  }

  lemma Advance<E>(s: seq<Item<E>>)
    requires s != [] && Chained(s)
    ensures Chained(s[1..]) && (|s| > 1 ==> s[0].next == s[1])
    ensures Ended(s) ==> Ended(s[1..]) && s[0].next == First(s[1..])
  {
  }

  lemma MergeTakesLeft<T>(le: (T, T) -> bool, out: seq<T>, ps: seq<T>, qs: seq<T>)
    requires ps != [] && (qs == [] || le(ps[0], qs[0]))
    ensures out + Merge(le, ps, qs) == (out + [ps[0]]) + Merge(le, ps[1..], qs)
  {
    Seqs.Associate(out, [ps[0]], Merge(le, ps[1..], qs));
    assert Merge(le, ps, qs) == [ps[0]] + Merge(le, ps[1..], qs);
  }

  lemma MergeTakesRight<T>(le: (T, T) -> bool, out: seq<T>, ps: seq<T>, qs: seq<T>)
    requires qs != [] && (ps == [] || !le(ps[0], qs[0]))
    ensures out + Merge(le, ps, qs) == (out + [qs[0]]) + Merge(le, ps, qs[1..])
  {
    Seqs.Associate(out, [qs[0]], Merge(le, ps, qs[1..]));
    assert Merge(le, ps, qs) == [qs[0]] + Merge(le, ps, qs[1..]);
  }

  lemma BudgetStep<T>(rest: seq<T>, n: nat)
    requires rest != [] && n > 0
    ensures rest[..Min(n, |rest|)] != [] && rest[..Min(n, |rest|)][0] == rest[0]
    ensures rest[..Min(n, |rest|)][1..] == rest[1..][..Min(n - 1, |rest| - 1)]
  {
  }

  /** The scratch fields of the merge, and the item sequences they stand for. */
  datatype Cursor<E> = Cursor(p: Item?<E>, q: Item?<E>, psize: nat, qsize: nat, list: Item?<E>, tale: Item?<E>)
  datatype Lists<E> = Lists(out: seq<Item<E>>, ps: seq<Item<E>>, rest: seq<Item<E>>)

  /** The part of the remaining list that belongs to the second run. */
  ghost function SecondRun<E>(rest: seq<Item<E>>, qsize: nat): seq<Item<E>> {
    rest[..Min(qsize, |rest|)]
  }

  ghost predicate Placed<E>(c: Cursor<E>, l: Lists<E>)
    reads l.out, l.ps, l.rest
  {
    && Threads(l.out, l.ps, l.rest)
    && c.psize == |l.ps| && (c.psize > 0 ==> c.p == l.ps[0]) && c.q == First(l.rest)
    && c.list == First(l.out) && c.tale == Last(l.out)
  }

  ghost predicate Within<E>(a: seq<Item<E>>, all: set<Item<E>>) {
    forall x :: x in a ==> x in all
  }

  /** One round of the merge: the smaller head, or the only one, goes to the end of the output list. */
  method TakeOne<E>(le: (E, E) -> bool, c: Cursor<E>, ghost l: Lists<E>, ghost all: set<Item<E>>)
    returns (c': Cursor<E>, ghost l': Lists<E>)
    requires Placed(c, l) && Within(l.out, all) && Within(l.ps, all) && Within(l.rest, all)
    requires c.psize > 0 || (c.qsize > 0 && c.q != null)
    modifies all`next, all`prev
    ensures Placed(c', l')
    ensures || (l.ps != [] && l' == Lists(l.out + [l.ps[0]], l.ps[1..], l.rest) && c'.qsize == c.qsize)
            || (l.rest != [] && l' == Lists(l.out + [l.rest[0]], l.ps, l.rest[1..]) && c'.qsize == c.qsize - 1)
    ensures l.out + Merge(OnItems(le), l.ps, SecondRun(l.rest, c.qsize))
            == l'.out + Merge(OnItems(le), l'.ps, SecondRun(l'.rest, c'.qsize))
    ensures c'.psize + c'.qsize < c.psize + c.qsize
  {
    hide Distinct, Chained, BackChained, Ended, Merge;
    MoveFirst(l.out, l.ps, l.rest);
    assert c.tale != null ==> c.tale in l.out;
    var e: Item<E>;
    if c.psize > 0 && (c.qsize == 0 || c.q == null || le(c.p.elem, c.q.elem)) {
      Advance(l.ps);
      MergeTakesLeft(OnItems(le), l.out, l.ps, SecondRun(l.rest, c.qsize));
      e := c.p;
      c' := c.(p := c.p.next, psize := c.psize - 1);
      l' := Lists(l.out + [e], l.ps[1..], l.rest);
    } else {
      Advance(l.rest);
      BudgetStep(l.rest, c.qsize);
      MergeTakesRight(OnItems(le), l.out, l.ps, SecondRun(l.rest, c.qsize));
      e := c.q;
      c' := c.(q := c.q.next, qsize := c.qsize - 1);
      l' := Lists(l.out + [e], l.ps, l.rest[1..]);
    }
    var list, tale := Append(c.list, c.tale, e, l.out);
    c' := c'.(list := list, tale := tale);
    assert Chained(l'.ps) && Chained(l'.rest) && Ended(l'.rest);
  }

  /** Merges the run at `c.p` with the run at `c.q` onto the end of the output list. */
  method MergeRuns<E>(le: (E, E) -> bool, c0: Cursor<E>, ghost l0: Lists<E>, ghost all: set<Item<E>>)
    returns (c: Cursor<E>, ghost out: seq<Item<E>>, ghost rest: seq<Item<E>>)
    requires Placed(c0, l0) && Within(l0.out, all) && Within(l0.ps, all) && Within(l0.rest, all)
    modifies all`next, all`prev
    ensures rest == l0.rest[Min(c0.qsize, |l0.rest|)..]
    ensures out == l0.out + Merge(OnItems(le), l0.ps, SecondRun(l0.rest, c0.qsize))
    ensures Threads(out, [], rest) && Within(out, all) && Within(rest, all)
    ensures c.q == First(rest) && c.list == First(out) && c.tale == Last(out)
  {
    hide Threads, Merge, OnItems;
    c := c0;
    ghost var l := l0;
    ghost var done := 0;
    while c.psize > 0 || (c.qsize > 0 && c.q != null)
      invariant Placed(c, l) && Within(l.out, all) && Within(l.ps, all) && Within(l.rest, all)
      invariant 0 <= done <= |l0.rest| && l.rest == l0.rest[done..] && c.qsize == c0.qsize - done
      invariant l0.out + Merge(OnItems(le), l0.ps, SecondRun(l0.rest, c0.qsize))
                == l.out + Merge(OnItems(le), l.ps, SecondRun(l.rest, c.qsize))
      decreases c.psize + c.qsize
    {
      ghost var before := |l.rest|;
      c, l := TakeOne(le, c, l, all);
      done := done + (before - |l.rest|);
    }
    out, rest := l.out, l.rest;
    MergeOfNone(OnItems(le));
  }

  lemma LastIsIn<E>(s: seq<Item<E>>)
    ensures s != [] ==> Last(s) != null && Last(s) in s
  {
  }

  lemma MergeOfNone<T>(le: (T, T) -> bool)
    ensures Merge(le, [], []) == []
  {
  }

  /** Steps over the first run: up to `insize` items. */
  method FindSecondRun<E>(p: Item<E>, insize: nat, ghost rest: seq<Item<E>>) returns (q: Item?<E>, psize: nat)
    requires insize > 0 && rest != [] && p == rest[0] && Chained(rest) && Ended(rest)
    ensures psize == Min(insize, |rest|) && q == First(rest[psize..])
  {
    q, psize := p, 0;
    var i := 0;
    while i < insize
      invariant i <= insize && psize == i && psize <= |rest|
      invariant q == First(rest[psize..]) && (i < insize ==> q != null)
    {
      assert q == rest[psize];
      psize := psize + 1;
      q := q.next;
      assert q == First(rest[psize..]);
      if q == null {
        break;
      }
      i := i + 1;
    }
  }

  lemma SplitThreads<E>(out: seq<Item<E>>, rest: seq<Item<E>>, n: nat)
    requires Threads(out, [], rest) && n <= |rest|
    ensures Threads(out, rest[..n], rest[n..])
  {
    forall x | x in rest[..n]
      ensures x !in rest[n..]
    {
      var i :| 0 <= i < n && rest[i] == x;
    }
    forall i | 0 <= i < |rest[n..]| - 1
      ensures rest[n..][i].next == rest[n..][i + 1]
    {
      assert rest[n + i].next == rest[n + i + 1];
    }
  }

  lemma PassStep<T>(le: (T, T) -> bool, out: seq<T>, rest: seq<T>, k: nat)
    requires k > 0 && rest != []
    ensures var i := Min(k, |rest|);
            var b := rest[i..];
            var n := Min(k, |b|);
            && out + Pass(le, rest, k) == (out + Merge(le, rest[..i], b[..n])) + Pass(le, b[n..], k)
            && Merges(|rest|, k) == 1 + Merges(|b[n..]|, k)
  {
    hide Merge, Pass, Merges;
    var i, j := Min(k, |rest|), Min(2 * k, |rest|);
    SliceSplit(rest, i, j);
    assert Min(k, |rest[i..]|) == j - i;
    PassUnfolds(le, rest, k);
    Seqs.Associate(out, Merge(le, rest[..i], rest[i..j]), Pass(le, rest[j..], k));
  }

  lemma PassUnfolds<T>(le: (T, T) -> bool, s: seq<T>, k: nat)
    requires k > 0 && s != []
    ensures var i, j := Min(k, |s|), Min(2 * k, |s|);
            && Pass(le, s, k) == Merge(le, s[..i], s[i..j]) + Pass(le, s[j..], k)
            && Merges(|s|, k) == 1 + Merges(|s| - j, k)
  {
    hide Merge;
  }

  lemma PassOfNone<T>(le: (T, T) -> bool, k: nat)
    requires k > 0
    ensures Pass(le, [], k) == [] && Merges(0, k) == 0
  {
  }

  lemma PassIsEmpty<T>(le: (T, T) -> bool, s: seq<T>, k: nat)
    requires k > 0 && s != []
    ensures Pass(le, s, k) != []
  {
  }

  lemma NothingLinked<E>(rest: seq<Item<E>>)
    requires Distinct(rest) && Chained(rest) && Ended(rest)
    ensures Threads([], [], rest)
  {
  }

  /** `tale->next = NULL` closes the merged list. */
  method Close<E>(tale: Item<E>, ghost out: seq<Item<E>>)
    requires out != [] && tale == out[|out| - 1] && Distinct(out) && Chained(out) && BackChained(out)
    modifies tale`next
    ensures Chained(out) && BackChained(out) && Ended(out)
  {
    tale.next := null;
  }

  /** One pass over the list with runs of `insize`. */
  method MergePass<E>(le: (E, E) -> bool, list0: Item<E>, insize: nat, ghost cur: seq<Item<E>>, ghost all: set<Item<E>>)
    returns (list: Item<E>, tale: Item<E>, nmerges: nat, ghost out: seq<Item<E>>)
    requires insize > 0 && cur != [] && list0 == cur[0]
    requires Distinct(cur) && Chained(cur) && Ended(cur) && Within(cur, all)
    modifies all`next, all`prev
    ensures out == Pass(OnItems(le), cur, insize) && nmerges == Merges(|cur|, insize)
    ensures list == First(out) && tale == Last(out)
    ensures Distinct(out) && Chained(out) && BackChained(out) && Ended(out) && Within(out, all)
  {
    hide Merge, OnItems, Pass, Merges, Distinct, Chained, BackChained, Ended, Apart;
    NothingLinked(cur);
    var p: Item?<E>, l: Item?<E>, t: Item?<E> := list0, null, null;
    nmerges, out := 0, [];
    ghost var rest := cur;
    while p != null
      invariant p == First(rest) && l == First(out) && t == Last(out)
      invariant Threads(out, [], rest) && Within(out, all) && Within(rest, all)
      invariant Pass(OnItems(le), cur, insize) == out + Pass(OnItems(le), rest, insize)
      invariant nmerges + Merges(|rest|, insize) == Merges(|cur|, insize)
      decreases |rest|
    {
      nmerges := nmerges + 1;
      var q, psize := FindSecondRun(p, insize, rest);
      SplitThreads(out, rest, psize);
      PassStep(OnItems(le), out, rest, insize);
      var c := Cursor(p, q, psize, insize, l, t);
      c, out, rest := MergeRuns(le, c, Lists(out, rest[..psize], rest[psize..]), all);
      p, l, t := c.q, c.list, c.tale;
    }
    PassOfNone(OnItems(le), insize);
    PassIsEmpty(OnItems(le), cur, insize);
    LastIsIn(out);
    list, tale := l, t;
    Close(tale, out);
  }

  /** HASH_SORT on a non-empty list: returns the new head and tail. */
  method HashSort<E>(le: (E, E) -> bool, head: Item<E>, ghost items: seq<Item<E>>)
    returns (head': Item<E>, tail': Item<E>, ghost items': seq<Item<E>>)
    requires items != [] && head == items[0]
    requires Distinct(items) && Chained(items) && Ended(items)
    modifies items`next, items`prev
    ensures items' == Sort(OnItems(le), items, 1)
    ensures TotalPreorder(OnItems(le), items) ==> IsStableSort(OnItems(le), items, items')
    ensures head' == items'[0] && tail' == items'[|items'| - 1]
    ensures Distinct(items') && Chained(items') && BackChained(items') && Ended(items')
  {
    hide Pass, OnItems, Distinct, Chained, BackChained, Ended, TotalPreorder, IsStableSort;
    ghost var all := set x | x in items;
    if TotalPreorder(OnItems(le), items) {
      SortIsCorrect(OnItems(le), items);
    }
    var insize := 1;
    head', items' := head, items;
    while true
      invariant insize > 0 && items' != [] && head' == items'[0] && Within(items', all)
      invariant Distinct(items') && Chained(items') && Ended(items')
      invariant Sort(OnItems(le), items, 1) == Sort(OnItems(le), items', insize)
      decreases |items'| - insize
    {
      var nmerges;
      ghost var cur := items';
      MergesMeans(|cur|, insize);
      head', tail', nmerges, items' := MergePass(le, head', insize, cur, all);
      if nmerges <= 1 {
        return;
      }
      insize := insize * 2;
    }
  }
}
