/**
 The hash table of libhal/uthash.h: every element sits in a bucket chain and in one doubly
 linked list in application order; buckets double when a chain grows too long.
 */
module UtHash {
  import opened MergeSort
  import opened UtHashSort

  const HASH_INITIAL_NUM_BUCKETS: nat := 32
  const HASH_BKT_CAPACITY_THRESH: nat := 10

  datatype Bucket<E> = Bucket(hhHead: Item?<E>, count: nat, expandMult: nat)

  // A bucket's chain.

  /** `hh_next` leads along `s` and ends in NULL. */
  ghost predicate HhChained<E>(s: seq<Item<E>>)
    reads s`hhNext
  {
    && (forall i :: 0 <= i < |s| - 1 ==> s[i].hhNext == s[i + 1])
    && (s != [] ==> s[|s| - 1].hhNext == null)
  }

  ghost predicate HhBackChained<E>(s: seq<Item<E>>)
    reads s`hhPrev
  {
    (s != [] ==> s[0].hhPrev == null) && forall i :: 0 <= i < |s| - 1 ==> s[i + 1].hhPrev == s[i]
  }

  ghost predicate ChainOk<E>(b: Bucket<E>, s: seq<Item<E>>)
    reads s`hhNext, s`hhPrev
  {
    b.hhHead == First(s) && b.count == |s| && Distinct(s) && HhChained(s) && HhBackChained(s)
  }

  /** Puts an item at the head of a chain. */
  method PushFront<E>(b: Bucket<E>, x: Item<E>, ghost s: seq<Item<E>>) returns (b': Bucket<E>)
    requires ChainOk(b, s) && x !in s
    modifies x`hhNext, x`hhPrev, (if b.hhHead == null then {} else {b.hhHead})`hhPrev
    ensures ChainOk(b', [x] + s) && b'.expandMult == b.expandMult
  {
    x.hhNext := b.hhHead;
    x.hhPrev := null;
    if b.hhHead != null {
      b.hhHead.hhPrev := x;
    }
    b' := b.(hhHead := x, count := b.count + 1);
    ghost var t := [x] + s;
    forall i | 0 <= i < |t| - 1
      ensures t[i].hhNext == t[i + 1] && t[i + 1].hhPrev == t[i]
    {
      if i > 0 {
        assert old(s[i - 1].hhNext) == s[i] && old(s[i].hhPrev) == s[i - 1];
      }
    }
  }

  ghost function Without<T>(s: seq<T>, k: nat): seq<T>
    requires k < |s|
  {
    s[..k] + s[k + 1..]
  }

  /** HASH_DEL_IN_BKT. */
  method Unchain<E>(b: Bucket<E>, x: Item<E>, ghost s: seq<Item<E>>, ghost k: nat) returns (b': Bucket<E>)
    requires ChainOk(b, s) && k < |s| && s[k] == x
    modifies (if x.hhPrev == null then {} else {x.hhPrev})`hhNext, (if x.hhNext == null then {} else {x.hhNext})`hhPrev
    ensures ChainOk(b', Without(s, k)) && b'.expandMult == b.expandMult
  {
    b' := b.(count := b.count - 1);
    if b'.hhHead == x {
      b' := b'.(hhHead := x.hhNext);
    }
    assert k > 0 ==> s[k - 1].hhNext == s[k] && s[k - 1 + 1].hhPrev == s[k - 1];
    assert k < |s| - 1 ==> s[k].hhNext == s[k + 1] && s[k + 1].hhPrev == s[k];
    if x.hhPrev != null {
      x.hhPrev.hhNext := x.hhNext;
    }
    if x.hhNext != null {
      x.hhNext.hhPrev := x.hhPrev;
    }
    ghost var t := Without(s, k);
    forall i | 0 <= i < |t| - 1
      ensures t[i].hhNext == t[i + 1] && t[i + 1].hhPrev == t[i]
    {
      if i < k - 1 {
        assert old(s[i].hhNext) == s[i + 1] && old(s[i + 1].hhPrev) == s[i];
      } else if i > k - 1 {
        assert old(s[i + 1].hhNext) == s[i + 2] && old(s[i + 2].hhPrev) == s[i + 1];
      }
    }
  }

  // The list in application order.

  ghost predicate ListOk<E>(head: Item?<E>, tail: Item?<E>, s: seq<Item<E>>)
    reads s`next, s`prev
  {
    head == First(s) && tail == Last(s) && Distinct(s) && Chained(s) && BackChained(s) && Ended(s)
  }

  /** The head of HASH_ADD: links a new item behind the tail. */
  method AppendToList<E>(head: Item?<E>, tail: Item?<E>, x: Item<E>, ghost s: seq<Item<E>>)
    returns (head': Item<E>, tail': Item<E>)
    requires ListOk(head, tail, s) && x !in s
    modifies s`next, x`next, x`prev
    ensures ListOk(head', tail', s + [x])
  {
    x.next := null;
    if head == null {
      head' := x;
      x.prev := null;
    } else {
      head' := head;
      tail.next := x;
      x.prev := tail;
    }
    tail' := x;
    ghost var t := s + [x];
    forall i | 0 <= i < |t| - 1
      ensures t[i].next == t[i + 1] && t[i + 1].prev == t[i]
    {
      if i < |s| - 1 {
        assert old(s[i].next) == s[i + 1] && old(s[i + 1].prev) == s[i];
      }
    }
  }

  /** The list part of HASH_DELETE. */
  method RemoveFromList<E>(head: Item?<E>, tail: Item?<E>, x: Item<E>, ghost s: seq<Item<E>>, ghost k: nat)
    returns (head': Item?<E>, tail': Item?<E>)
    requires ListOk(head, tail, s) && k < |s| && s[k] == x
    modifies s`next, s`prev
    ensures ListOk(head', tail', Without(s, k))
  {
    head', tail' := head, tail;
    assert k > 0 ==> s[k - 1].next == s[k] && s[k - 1 + 1].prev == s[k - 1];
    assert k < |s| - 1 ==> s[k].next == s[k + 1] && s[k + 1].prev == s[k];
    if x == tail {
      tail' := x.prev;
    }
    if x.prev != null {
      x.prev.next := x.next;
    } else {
      head' := x.next;
    }
    if x.next != null {
      x.next.prev := x.prev;
    }
    ghost var t := Without(s, k);
    forall i | 0 <= i < |t| - 1
      ensures t[i].next == t[i + 1] && t[i + 1].prev == t[i]
    {
      if i < k - 1 {
        assert old(s[i].next) == s[i + 1] && old(s[i + 1].prev) == s[i];
      } else if i > k - 1 {
        assert old(s[i + 1].next) == s[i + 2] && old(s[i + 2].prev) == s[i + 1];
      }
    }
  }

  /** The ideal chain length after an expansion is never zero, so the divisions by it are defined. */
  lemma IdealIsPositive(items: nat, buckets: nat)
    requires items > 0 && buckets > 0
    ensures items / buckets * 2 + (if items % (buckets * 2) != 0 then 1 else 0) > 0
  {
    if items < buckets {
      SmallRemainder(items, buckets * 2);
    } else {
      LargeQuotient(items, buckets);
    }
  }

  lemma SmallRemainder(a: nat, n: nat)
    requires a < n
    ensures a % n == a
  {
  }

  lemma LargeQuotient(a: nat, n: nat)
    requires 0 < n <= a
    ensures a / n >= 1
  {
  }

  function Ideal(items: nat, buckets: nat): (r: nat)
    requires items > 0 && buckets > 0
    ensures r > 0
  {
    IdealIsPositive(items, buckets);
    items / buckets * 2 + if items % (buckets * 2) != 0 then 1 else 0
  }

  // Buckets.

  /** A number of buckets: 32, doubled any number of times. */
  predicate PowerOfTwo(n: nat) {
    n == 1 || (n > 1 && n % 2 == 0 && PowerOfTwo(n / 2))
  }

  /** The bitwise `&` of two naturals. */
  function And(a: nat, b: nat): nat {
    if a == 0 || b == 0 then 0 else 2 * And(a / 2, b / 2) + a % 2 * (b % 2)
  }

  /** The mask `num_bkts - 1` the hash functions end with is a remainder. */
  lemma {:induction false} MaskIsRemainder(a: nat, n: nat)
    requires PowerOfTwo(n)
    ensures And(a, n - 1) == a % n
  {
    if n > 1 {
      var m := n / 2;
      assert (n - 1) / 2 == m - 1 && (n - 1) % 2 == 1;
      if a == 0 {
        assert 0 % n == 0;
      } else {
        MaskIsRemainder(a / 2, m);
        HalvedRemainder(a, m);
      }
    }
  }

  lemma HalvedRemainder(a: nat, m: nat)
    requires m > 0
    ensures a % (2 * m) == 2 * (a / 2 % m) + a % 2
  {
    var q, r := a / 2 / m, a / 2 % m;
    assert a / 2 == m * q + r;
    assert a == (2 * m) * q + (2 * r + a % 2);
    UniqueRemainder(a, 2 * m, q, 2 * r + a % 2);
  }

  lemma UniqueRemainder(a: nat, n: nat, q: nat, r: nat)
    requires 0 <= r < n && a == n * q + r
    ensures a % n == r
  {
    var d := a / n - q;
    assert n * d == r - a % n;
    assert d > 0 ==> n * d >= n;
    assert d < 0 ==> n * d <= 0 - n;
  }

  /** `bkt &= num_bkts - 1`, which ends every hash function. */
  function Mask(hash: nat, n: nat): (r: nat)
    requires PowerOfTwo(n)
    ensures r == hash % n && r < n
  {
    MaskIsRemainder(hash, n);
    And(hash, n - 1)
  }

  lemma PowerIsPositive(n: nat)
    requires PowerOfTwo(n)
    ensures n > 0
  {
  }

  lemma Doubled(n: nat)
    requires PowerOfTwo(n)
    ensures PowerOfTwo(2 * n)
  {
    assert 2 * n / 2 == n;
  }

  /** The bucket an item's hash selects among `n`. */
  function Slot<E>(hash: E -> nat, x: Item<E>, n: nat): (r: nat)
    requires PowerOfTwo(n)
    ensures r < n
  {
    Mask(hash(x.elem), n)
  }

  /** Every item is in the chain its hash selects, and the chains hold nothing else. */
  ghost predicate Filed<E>(hash: E -> nat, n: nat, chains: seq<seq<Item<E>>>, items: seq<Item<E>>) {
    && PowerOfTwo(n) && |chains| == n
    && (forall b, x :: 0 <= b < n && x in chains[b] ==> x in items && Slot(hash, x, n) == b)
    && (forall x :: x in items ==> x in chains[Slot(hash, x, n)])
  }

  ghost function Members<E>(chains: seq<seq<Item<E>>>): set<Item<E>> {
    set b, i | 0 <= b < |chains| && 0 <= i < |chains[b]| :: chains[b][i]
  }

  ghost predicate BucketsOk<E>(buckets: array<Bucket<E>>, chains: seq<seq<Item<E>>>, items: seq<Item<E>>)
    reads buckets, Members(chains)`hhNext, Members(chains)`hhPrev
  {
    && buckets.Length == |chains|
    && (forall b, x :: 0 <= b < |chains| && x in chains[b] ==> x in items)
    && (forall b :: 0 <= b < |chains| ==> ChainOk(buckets[b], chains[b]))
  }

  /** Progress of an expansion: the items of buckets below `i`, and those of bucket `i` not in `cur`, have moved. */
  ghost predicate Moved<E>(hash: E -> nat, n: nat, i: nat, cur: seq<Item<E>>, x: Item<E>)
    requires PowerOfTwo(n)
  {
    Slot(hash, x, n) < i || (Slot(hash, x, n) == i && x !in cur)
  }

  ghost predicate Moving<E>(hash: E -> nat, n: nat, i: nat, cur: seq<Item<E>>, chains: seq<seq<Item<E>>>, items: seq<Item<E>>)
  {
    && PowerOfTwo(n) && PowerOfTwo(2 * n) && |chains| == 2 * n
    && (forall b, x :: 0 <= b < 2 * n && x in chains[b] ==> x in items && Slot(hash, x, 2 * n) == b && Moved(hash, n, i, cur, x))
    && (forall x :: x in items && Moved(hash, n, i, cur, x) ==> x in chains[Slot(hash, x, 2 * n)])
  }

  lemma MoveOne<E>(hash: E -> nat, n: nat, i: nat, cur: seq<Item<E>>, chains: seq<seq<Item<E>>>, items: seq<Item<E>>)
    requires Moving(hash, n, i, cur, chains, items) && Distinct(cur)
    requires cur != [] && cur[0] in items && Slot(hash, cur[0], n) == i
    ensures var x := cur[0];
            var d := Slot(hash, x, 2 * n);
            && (forall b :: 0 <= b < 2 * n ==> x !in chains[b])
            && Moving(hash, n, i, cur[1..], chains[d := [x] + chains[d]], items)
  {
    var x := cur[0];
    var d := Slot(hash, x, 2 * n);
    var chains' := chains[d := [x] + chains[d]];
    forall y
      ensures Moved(hash, n, i, cur[1..], y) <==> Moved(hash, n, i, cur, y) || y == x
    {
      assert y in cur <==> y == x || y in cur[1..];
    }
    forall b, y | 0 <= b < 2 * n && y in chains'[b]
      ensures y in items && Slot(hash, y, 2 * n) == b && Moved(hash, n, i, cur[1..], y)
    {
      assert y == x || y in chains[b];
    }
  }

  ghost predicate Disjoint<E>(chains: seq<seq<Item<E>>>) {
    forall b, c, y :: 0 <= b < |chains| && 0 <= c < |chains| && y in chains[b] && y in chains[c] ==> b == c
  }

  /** HASH_ADD_TO_BKT without the growth test: puts an item at the head of bucket `d`. */
  method FileItem<E>(x: Item<E>, buckets: array<Bucket<E>>, d: nat, mult: nat,
                     ghost chains: seq<seq<Item<E>>>, ghost items: seq<Item<E>>)
    requires BucketsOk(buckets, chains, items) && d < buckets.Length && x in items && Disjoint(chains)
    requires forall b :: 0 <= b < |chains| ==> x !in chains[b]
    modifies buckets, x`hhNext, x`hhPrev, items`hhPrev
    ensures BucketsOk(buckets, chains[d := [x] + chains[d]], items)
    ensures buckets[d].count == old(buckets[d].count) + 1 && buckets[d].expandMult == mult
    ensures forall b :: 0 <= b < buckets.Length && b != d ==> buckets[b] == old(buckets[b])
  {
    var b := buckets[d].(expandMult := mult);
    ghost var top := b.hhHead;
    assert top != null ==> top in chains[d] && top in items;
    b := PushFront(b, x, chains[d]);
    buckets[d] := b;
    ghost var chains' := chains[d := [x] + chains[d]];
    forall c | 0 <= c < |chains'|
      ensures ChainOk(buckets[c], chains'[c])
      ensures forall y :: y in chains'[c] ==> y in items
    {
      if c != d {
        assert old(ChainOk(buckets[c], chains[c]));
        assert x !in chains[c] && (top != null ==> top !in chains[c]);
      }
    }
  }

  lemma DisjointChains<E>(hash: E -> nat, n: nat, i: nat, cur: seq<Item<E>>, chains: seq<seq<Item<E>>>, items: seq<Item<E>>)
    requires Moving(hash, n, i, cur, chains, items)
    ensures Disjoint(chains)
  {
    forall b, c, y | 0 <= b < |chains| && 0 <= c < |chains| && y in chains[b] && y in chains[c]
      ensures b == c
    {
      assert b == Slot(hash, y, 2 * n) == c;
    }
  }

  lemma AdvanceChain<E>(s: seq<Item<E>>)
    requires s != [] && HhChained(s) && Distinct(s)
    ensures HhChained(s[1..]) && Distinct(s[1..]) && s[0].hhNext == First(s[1..]) && s[0] !in s[1..]
  {
  }

  // How uneven the buckets are.

  function Over<E>(b: Bucket<E>, ideal: nat): nat {
    if b.count > ideal then b.count - ideal else 0
  }

  /** The number of items beyond the ideal chain length, over all buckets. */
  ghost function Excess<E>(bs: seq<Bucket<E>>, ideal: nat): nat {
    if bs == [] then 0 else Over(bs[0], ideal) + Excess(bs[1..], ideal)
  }

  /** Each bucket's `expand_mult` is how many ideal chains it holds, if it is over one. */
  ghost predicate Rated<E>(bs: seq<Bucket<E>>, ideal: nat)
    requires ideal > 0
  {
    forall b :: 0 <= b < |bs| ==> bs[b].expandMult == if bs[b].count > ideal then bs[b].count / ideal else 0
  }

  lemma {:induction false} ExcessUpdate<E>(bs: seq<Bucket<E>>, d: nat, b: Bucket<E>, ideal: nat)
    requires d < |bs|
    ensures Excess(bs[d := b], ideal) + Over(bs[d], ideal) == Excess(bs, ideal) + Over(b, ideal)
    decreases d
  {
    if d == 0 {
      assert bs[d := b][1..] == bs[1..];
    } else {
      assert bs[d := b][1..] == bs[1..][d - 1 := b];
      ExcessUpdate(bs[1..], d - 1, b, ideal);
    }
  }

  lemma {:induction false} NoExcess<E>(bs: seq<Bucket<E>>, ideal: nat)
    requires ideal > 0 && forall b :: 0 <= b < |bs| ==> bs[b].count == 0 && bs[b].expandMult == 0
    ensures Excess(bs, ideal) == 0 && Rated(bs, ideal)
  {
    if bs != [] {
      NoExcess(bs[1..], ideal);
    }
  }

  /** One more item in bucket `d`. */
  lemma OneMore<E>(bs0: seq<Bucket<E>>, bs: seq<Bucket<E>>, d: nat, ideal: nat)
    requires ideal > 0 && d < |bs0| == |bs| && Rated(bs0, ideal)
    requires forall b :: 0 <= b < |bs| && b != d ==> bs[b] == bs0[b]
    requires bs[d].count == bs0[d].count + 1
    requires bs[d].expandMult == if bs[d].count > ideal then bs[d].count / ideal else bs0[d].expandMult
    ensures Rated(bs, ideal)
    ensures Excess(bs, ideal) == Excess(bs0, ideal) + if bs[d].count > ideal then 1 else 0
  {
    assert bs == bs0[d := bs[d]];
    ExcessUpdate(bs0, d, bs[d], ideal);
  }

  /** The inner loop of HASH_EXPAND_BUCKETS: empties one old chain into the new buckets. */
  method MoveChain<E>(hash: E -> nat, top: Item?<E>, newBuckets: array<Bucket<E>>, ideal: nat,
                      ghost n: nat, ghost i: nat, ghost chain: seq<Item<E>>, ghost chains0: seq<seq<Item<E>>>,
                      ghost items: seq<Item<E>>)
    returns (deltas: nat, ghost chains: seq<seq<Item<E>>>)
    requires ideal > 0 && newBuckets.Length == 2 * n
    requires top == First(chain) && HhChained(chain) && Distinct(chain)
    requires PowerOfTwo(n) && forall x :: x in chain ==> x in items && Slot(hash, x, n) == i
    requires Moving(hash, n, i, chain, chains0, items) && BucketsOk(newBuckets, chains0, items)
    requires Rated(newBuckets[..], ideal)
    modifies newBuckets, items`hhNext, items`hhPrev
    ensures Moving(hash, n, i, [], chains, items) && BucketsOk(newBuckets, chains, items)
    ensures Rated(newBuckets[..], ideal) && Excess(newBuckets[..], ideal) == old(Excess(newBuckets[..], ideal)) + deltas
    ensures forall y :: y in items && y !in chain ==> y.hhNext == old(y.hhNext)
  {
    hide BucketsOk, Moving, HhChained, Distinct, Slot, Rated, Excess;
    var hh := top;
    deltas, chains := 0, chains0;
    ghost var cur := chain;
    while hh != null
      invariant hh == First(cur) && HhChained(cur) && Distinct(cur)
      invariant forall x :: x in cur ==> x in chain
      invariant Moving(hash, n, i, cur, chains, items) && BucketsOk(newBuckets, chains, items)
      invariant Rated(newBuckets[..], ideal) && Excess(newBuckets[..], ideal) == old(Excess(newBuckets[..], ideal)) + deltas
      invariant forall y :: y in items && y !in chain ==> y.hhNext == old(y.hhNext)
      decreases |cur|
    {
      AdvanceChain(cur);
      MoveOne(hash, n, i, cur, chains, items);
      DisjointChains(hash, n, i, cur, chains, items);
      SizeOfMoving(hash, n, i, cur, chains, items);
      var next := hh.hhNext;
      var d := Slot(hash, hh, newBuckets.Length);
      var count, mult := newBuckets[d].count + 1, newBuckets[d].expandMult;
      if count > ideal {
        deltas := deltas + 1;
        mult := count / ideal;
      }
      ghost var before := newBuckets[..];
      FileItem(hh, newBuckets, d, mult, chains, items);
      OneMore(before, newBuckets[..], d, ideal);
      chains := chains[d := [hh] + chains[d]];
      cur := cur[1..];
      hh := next;
    }
  }

  lemma SizeOfMoving<E>(hash: E -> nat, n: nat, i: nat, cur: seq<Item<E>>, chains: seq<seq<Item<E>>>, items: seq<Item<E>>)
    requires Moving(hash, n, i, cur, chains, items)
    ensures PowerOfTwo(2 * n) && |chains| == 2 * n
    ensures forall x :: 0 <= Slot(hash, x, 2 * n) < 2 * n
  {
  }

  lemma StartMoving<E>(hash: E -> nat, n: nat, chain: seq<Item<E>>, items: seq<Item<E>>, chains: seq<seq<Item<E>>>)
    requires PowerOfTwo(n) && chains == seq(2 * n, _ => [])
    requires forall x :: x in items && Slot(hash, x, n) == 0 ==> x in chain
    ensures Moving(hash, n, 0, chain, chains, items)
  {
    Doubled(n);
  }

  lemma NextChain<E>(hash: E -> nat, n: nat, i: nat, next: seq<Item<E>>, chains: seq<seq<Item<E>>>, items: seq<Item<E>>)
    requires Moving(hash, n, i, [], chains, items)
    requires forall x :: x in items && Slot(hash, x, n) == i + 1 ==> x in next
    ensures Moving(hash, n, i + 1, next, chains, items)
  {
    forall b, x | 0 <= b < 2 * n && x in chains[b]
      ensures x in items && Slot(hash, x, 2 * n) == b && Moved(hash, n, i + 1, next, x)
    {
      assert Moved(hash, n, i, [], x);
    }
    forall x | x in items && Moved(hash, n, i + 1, next, x)
      ensures x in chains[Slot(hash, x, 2 * n)]
    {
      assert Moved(hash, n, i, [], x);
    }
  }

  lemma AllMoved<E>(hash: E -> nat, n: nat, chains: seq<seq<Item<E>>>, items: seq<Item<E>>)
    requires Moving(hash, n, n, [], chains, items)
    ensures Filed(hash, 2 * n, chains, items)
  {
    forall x | x in items
      ensures x in chains[Slot(hash, x, 2 * n)]
    {
      assert Moved(hash, n, n, [], x);
    }
  }

  ghost function ChainAt<E>(chains: seq<seq<Item<E>>>, i: nat): seq<Item<E>> {
    if i < |chains| then chains[i] else []
  }

  lemma ChainAtHolds<E>(hash: E -> nat, n: nat, chains: seq<seq<Item<E>>>, items: seq<Item<E>>, i: nat)
    requires Filed(hash, n, chains, items)
    ensures forall x :: x in items && Slot(hash, x, n) == i ==> x in ChainAt(chains, i)
    ensures forall x :: x in ChainAt(chains, i) ==> x in items && Slot(hash, x, n) == i
  {
  }

  /** The old chains from bucket `i` on are still as they were. */
  ghost predicate Ready<E>(buckets: array<Bucket<E>>, chains: seq<seq<Item<E>>>, i: nat)
    reads buckets, Members(chains)`hhNext
  {
    && buckets.Length == |chains|
    && forall b :: i <= b < |chains| ==> buckets[b].hhHead == First(chains[b]) && HhChained(chains[b]) && Distinct(chains[b])
  }

  lemma AllReady<E>(buckets: array<Bucket<E>>, chains: seq<seq<Item<E>>>, items: seq<Item<E>>)
    requires BucketsOk(buckets, chains, items)
    ensures Ready(buckets, chains, 0)
  {
  }

  /** One old bucket of HASH_EXPAND_BUCKETS. */
  method MoveBucket<E>(hash: E -> nat, buckets: array<Bucket<E>>, newBuckets: array<Bucket<E>>, ideal: nat, i: nat,
                       ghost chains: seq<seq<Item<E>>>, ghost chains0: seq<seq<Item<E>>>, ghost items: seq<Item<E>>)
    returns (deltas: nat, ghost newChains: seq<seq<Item<E>>>)
    requires i < buckets.Length && buckets != newBuckets && newBuckets.Length == 2 * buckets.Length && ideal > 0
    requires Filed(hash, buckets.Length, chains, items) && Ready(buckets, chains, i)
    requires Moving(hash, buckets.Length, i, ChainAt(chains, i), chains0, items) && BucketsOk(newBuckets, chains0, items)
    requires Rated(newBuckets[..], ideal)
    modifies newBuckets, items`hhNext, items`hhPrev
    ensures Moving(hash, buckets.Length, i + 1, ChainAt(chains, i + 1), newChains, items) && BucketsOk(newBuckets, newChains, items)
    ensures Rated(newBuckets[..], ideal) && Excess(newBuckets[..], ideal) == old(Excess(newBuckets[..], ideal)) + deltas
    ensures Ready(buckets, chains, i + 1)
  {
    hide Moving, Distinct, Slot, PowerOfTwo, Rated, Excess, BucketsOk;
    ChainAtHolds(hash, buckets.Length, chains, items, i);
    ChainAtHolds(hash, buckets.Length, chains, items, i + 1);
    deltas, newChains := MoveChain(hash, buckets[i].hhHead, newBuckets, ideal, buckets.Length, i, chains[i], chains0, items);
    NextChain(hash, buckets.Length, i, ChainAt(chains, i + 1), newChains, items);
    forall b | i + 1 <= b < |chains|
      ensures HhChained(chains[b])
    {
      assert old(HhChained(chains[b]));
      assert forall y :: y in chains[b] ==> y in items && y !in chains[i];
    }
  }

  /** Twice as many buckets, all empty. */
  method DoubledBuckets<E>(ghost hash: E -> nat, n: nat, ghost ideal: nat, ghost buckets: array<Bucket<E>>,
                           ghost chains: seq<seq<Item<E>>>, ghost items: seq<Item<E>>)
    returns (newBuckets: array<Bucket<E>>, ghost newChains: seq<seq<Item<E>>>)
    requires Ready(buckets, chains, 0)
    requires PowerOfTwo(n) && ideal > 0 && forall x :: x in items && Slot(hash, x, n) == 0 ==> x in ChainAt(chains, 0)
    ensures fresh(newBuckets) && newBuckets.Length == 2 * n
    ensures Moving(hash, n, 0, ChainAt(chains, 0), newChains, items) && BucketsOk(newBuckets, newChains, items)
    ensures Rated(newBuckets[..], ideal) && Excess(newBuckets[..], ideal) == 0
    ensures Ready(buckets, chains, 0)
  {
    hide Moving, Slot, PowerOfTwo, Rated, Excess, BucketsOk, ChainAt, Distinct;
    newBuckets := new Bucket<E>[2 * n](_ => Bucket(null, 0, 0));
    newChains := seq(2 * n, _ => []);
    StartMoving(hash, n, ChainAt(chains, 0), items, newChains);
    EmptyBuckets(newBuckets, newChains, items);
    NoExcess(newBuckets[..], ideal);
    forall b | 0 <= b < |chains|
      ensures buckets[b].hhHead == First(chains[b]) && HhChained(chains[b])
    {
      assert old(buckets[b].hhHead == First(chains[b]) && HhChained(chains[b]));
    }
  }

  /** The outer loop of HASH_EXPAND_BUCKETS. */
  method MoveBuckets<E>(hash: E -> nat, buckets: array<Bucket<E>>, newBuckets: array<Bucket<E>>, ideal: nat,
                        ghost chains: seq<seq<Item<E>>>, ghost chains0: seq<seq<Item<E>>>, ghost items: seq<Item<E>>)
    returns (deltas: nat, ghost newChains: seq<seq<Item<E>>>)
    requires buckets != newBuckets && newBuckets.Length == 2 * buckets.Length && ideal > 0
    requires Filed(hash, buckets.Length, chains, items) && Ready(buckets, chains, 0)
    requires Moving(hash, buckets.Length, 0, ChainAt(chains, 0), chains0, items) && BucketsOk(newBuckets, chains0, items)
    requires Rated(newBuckets[..], ideal) && Excess(newBuckets[..], ideal) == 0
    modifies newBuckets, items`hhNext, items`hhPrev
    ensures Filed(hash, newBuckets.Length, newChains, items) && BucketsOk(newBuckets, newChains, items)
    ensures Rated(newBuckets[..], ideal) && deltas == Excess(newBuckets[..], ideal)
  {
    NoMoreChains(buckets, chains);
    hide Moving, Distinct, Slot, HhChained, PowerOfTwo, Rated, Excess, BucketsOk, Filed, Ready, ChainAt, Members;
    newChains, deltas := chains0, 0;
    var i := 0;
    while i < buckets.Length
      invariant i <= buckets.Length
      invariant Moving(hash, buckets.Length, i, ChainAt(chains, i), newChains, items) && BucketsOk(newBuckets, newChains, items)
      invariant Rated(newBuckets[..], ideal) && deltas == Excess(newBuckets[..], ideal)
      invariant Ready(buckets, chains, i)
    {
      var more;
      more, newChains := MoveBucket(hash, buckets, newBuckets, ideal, i, chains, newChains, items);
      deltas := deltas + more;
      i := i + 1;
    }
    AllMoved(hash, buckets.Length, newChains, items);
  }

  lemma NoMoreChains<E>(buckets: array<Bucket<E>>, chains: seq<seq<Item<E>>>)
    requires Ready(buckets, chains, 0)
    ensures ChainAt(chains, buckets.Length) == []
  {
  }

  /** HASH_EXPAND_BUCKETS: twice the buckets, every item rehashed, nothing lost, and how uneven the result is. */
  method ExpandBuckets<E>(hash: E -> nat, buckets: array<Bucket<E>>, numItems: nat,
                          ghost chains: seq<seq<Item<E>>>, ghost items: seq<Item<E>>)
    returns (newBuckets: array<Bucket<E>>, deltas: nat, ghost newChains: seq<seq<Item<E>>>)
    requires numItems > 0
    requires Filed(hash, buckets.Length, chains, items) && BucketsOk(buckets, chains, items)
    modifies items`hhNext, items`hhPrev
    ensures fresh(newBuckets) && newBuckets.Length == 2 * buckets.Length
    ensures Filed(hash, newBuckets.Length, newChains, items) && BucketsOk(newBuckets, newChains, items)
    ensures buckets.Length > 0 && Rated(newBuckets[..], Ideal(numItems, buckets.Length))
    ensures deltas == Excess(newBuckets[..], Ideal(numItems, buckets.Length))
  {
    PowerIsPositive(buckets.Length);
    AllReady(buckets, chains, items);
    ChainAtHolds(hash, buckets.Length, chains, items, 0);
    assert PowerOfTwo(buckets.Length);
    hide Moving, Distinct, Slot, HhChained, Ideal, PowerOfTwo, Rated, Excess, BucketsOk, Filed, Ready, ChainAt, Members;
    var ideal := Ideal(numItems, buckets.Length);
    ghost var chains0;
    newBuckets, chains0 := DoubledBuckets(hash, buckets.Length, ideal, buckets, chains, items);
    deltas, newChains := MoveBuckets(hash, buckets, newBuckets, ideal, chains, chains0, items);
  }

  lemma EmptyBuckets<E>(buckets: array<Bucket<E>>, chains: seq<seq<Item<E>>>, items: seq<Item<E>>)
    requires buckets.Length == |chains|
    requires forall b :: 0 <= b < |chains| ==> chains[b] == [] && buckets[b] == Bucket(null, 0, 0)
    ensures BucketsOk(buckets, chains, items)
  {
  }

  // The table.

  class HashTable<E, K(==)> {
    const key: E -> K
    const hash: K -> nat
    var head: Item?<E>
    var tail: Item?<E>
    var buckets: array<Bucket<E>>
    var numItems: nat
    var noexpand: bool
    var hashQ: int

    /** The elements in application order, and each bucket's chain. */
    ghost var items: seq<Item<E>>
    ghost var chains: seq<seq<Item<E>>>

    constructor (key: E -> K, hash: K -> nat)
      ensures Valid() && items == [] && this.key == key && this.hash == hash
    {
      this.key, this.hash := key, hash;
      head, tail, numItems := null, null, 0;
      buckets := new Bucket<E>[0];
      noexpand, hashQ := false, 0x1_0000;
      items, chains := [], [];
    }

    function HashOf(): E -> nat
      reads this
    {
      (e: E) => this.hash(this.key(e))
    }

    ghost predicate KeysDiffer() reads this {
      forall i, j :: 0 <= i < j < |items| ==> key(items[i].elem) != key(items[j].elem)
    }

    ghost predicate Valid()
      reads this, buckets, items, Members(chains)
    {
      && ListOk(head, tail, items) && numItems == |items| && KeysDiffer()
      && (items != [] ==>
            && PowerOfTwo(buckets.Length)
            && Filed(HashOf(), buckets.Length, chains, items)
            && BucketsOk(buckets, chains, items))
    }

    /** HASH_FIND: the element with the key, if there is one. */
    method Find(k: K) returns (out: Item?<E>)
      requires Valid()
      ensures out != null ==> out in items && key(out.elem) == k
      ensures out == null ==> forall x :: x in items ==> key(x.elem) != k
    {
      if head == null {
        return null;
      }
      var b := Mask(hash(k), buckets.Length);
      ghost var chain := chains[b];
      out := buckets[b].hhHead;
      ghost var i := 0;
      while out != null
        invariant 0 <= i <= |chain| && out == First(chain[i..])
        invariant forall j :: 0 <= j < i ==> key(chain[j].elem) != k
        decreases |chain| - i
      {
        assert ChainOk(buckets[b], chain);
        assert out == chain[i];
        if key(out.elem) == k {
          return;
        }
        out := out.hhNext;
        i := i + 1;
      }
      forall x | x in items
        ensures key(x.elem) != k
      {
        assert x in chains[Slot(HashOf(), x, buckets.Length)];
      }
    }

    /** HASH_ADD of an element whose key is not in the table. */
    method Add(x: Item<E>)
      requires Valid() && x !in items
      requires forall y :: y in items ==> key(y.elem) != key(x.elem)
      modifies this, items, x, buckets
      ensures Valid() && items == old(items) + [x]
      ensures buckets == old(buckets) || fresh(buckets)
    {
      hide ListOk, Filed, BucketsOk, Members;
      FirstIsHead(head, tail, items);
      if head == null {
        MakeTable();
      }
      var full;
      head, tail, full, chains := AddItem(HashOf(), head, tail, x, buckets, chains, items);
      numItems := numItems + 1;
      items := items + [x];
      if full && !noexpand {
        Expand();
      }
    }

    /** HASH_MAKE_TABLE: fresh, empty buckets. */
    method MakeTable()
      requires Valid() && items == []
      modifies this
      ensures Valid() && items == [] && head == old(head) && tail == old(tail) && fresh(buckets)
      ensures PowerOfTwo(buckets.Length) && buckets.Length == 32 && !noexpand && hashQ == 65536
      ensures Filed(HashOf(), buckets.Length, chains, items) && BucketsOk(buckets, chains, items)
    {
      hide ListOk, Filed, BucketsOk, Members;
      assert PowerOfTwo(2) && PowerOfTwo(4) && PowerOfTwo(8) && PowerOfTwo(16) && PowerOfTwo(32);
      buckets := new Bucket<E>[HASH_INITIAL_NUM_BUCKETS](_ => Bucket(null, 0, 0));
      chains := seq(HASH_INITIAL_NUM_BUCKETS, _ => []);
      noexpand, hashQ, numItems := false, 0x1_0000, 0;
      EmptyBuckets(buckets, chains, items);
      NothingFiled(HashOf(), HASH_INITIAL_NUM_BUCKETS, chains);
    }

    /** The rest of HASH_EXPAND_BUCKETS: the evenness measure that may stop further growth. */
    method Expand()
      requires Valid() && items != []
      modifies this, items`hhNext, items`hhPrev
      ensures Valid() && items == old(items) && fresh(buckets)
      ensures old(buckets.Length) > 0 && numItems > 0
      ensures hashQ == 0x1_0000 - Excess(buckets[..], Ideal(numItems, old(buckets.Length))) * 0x1_0000 % 0x1_0000_0000 / numItems
      ensures noexpand <==> old(noexpand) || (old(hashQ) < 0x8000 && hashQ < 0x8000)
    {
      hide Distinct, Chained, BackChained, Ended, Filed, BucketsOk, Rated, Excess, Ideal;
      var deltas;
      buckets, deltas, chains := ExpandBuckets(HashOf(), buckets, numItems, chains, items);
      var newHashQ := 0x1_0000 - deltas * 0x1_0000 % 0x1_0000_0000 / numItems;
      if hashQ < 0x8000 && newHashQ < 0x8000 {
        noexpand := true;
      }
      hashQ := newHashQ;
    }

    /** HASH_DELETE. */
    method Delete(x: Item<E>, ghost k: nat)
      requires Valid() && k < |items| && items[k] == x
      modifies this, items, buckets
      ensures Valid() && items == Without(old(items), k) && buckets == old(buckets)
    {
      hide ListOk, Filed, BucketsOk, Members;
      if x.prev == null && x.next == null {
        OnlyItem(x, k);
        head, tail, numItems := null, null, 0;
        items := [];
        NoItems<E>();
        return;
      }
      head, tail, chains := DeleteItem(HashOf(), head, tail, x, buckets, chains, items, k);
      items := Without(items, k);
      numItems := numItems - 1;
    }

    /** HASH_SORT: a stable sort of the application order that leaves the buckets alone. */
    method SortItems(le: (E, E) -> bool)
      requires Valid()
      modifies this, items`next, items`prev
      ensures Valid() && items == Sort(OnItems(le), old(items), 1)
      ensures TotalPreorder(OnItems(le), old(items)) ==> IsStableSort(OnItems(le), old(items), items)
      ensures buckets == old(buckets) && chains == old(chains)
    {
      hide ListOk, Filed, BucketsOk, Members, Sort, OnItems, TotalPreorder, IsStableSort;
      FirstIsHead(head, tail, items);
      ghost var before := items;
      if TotalPreorder(OnItems(le), before) {
        SortIsCorrect(OnItems(le), before);
      }
      if head != null {
        head, tail, items := SortList(HashOf(), le, head, tail, buckets, chains, items);
        ListIsDistinct(head, tail, items);
        SortedKeys(le, key, before, items);
      }
    }

    lemma OnlyItem(x: Item<E>, k: nat)
      requires Valid() && k < |items| && items[k] == x && x.prev == null && x.next == null
      ensures Without(items, k) == []
    {
      Neighbours(items, k);
    }
  }

  lemma Neighbours<E>(s: seq<Item<E>>, k: nat)
    requires k < |s| && Chained(s) && BackChained(s)
    ensures k > 0 ==> s[k].prev == s[k - 1]
    ensures k < |s| - 1 ==> s[k].next == s[k + 1]
  {
    assert k > 0 ==> s[k - 1 + 1].prev == s[k - 1];
  }

  lemma FirstIsHead<E>(head: Item?<E>, tail: Item?<E>, s: seq<Item<E>>)
    requires ListOk(head, tail, s)
    ensures head == null <==> s == []
  {
  }

  lemma NothingFiled<E>(hash: E -> nat, n: nat, chains: seq<seq<Item<E>>>)
    requires PowerOfTwo(n) && chains == seq(n, _ => [])
    ensures Filed(hash, n, chains, [])
  {
  }

  /** HASH_ADD_TO_BKT up to the growth test. */
  method AddToBucket<E>(hash: E -> nat, x: Item<E>, buckets: array<Bucket<E>>, ghost chains: seq<seq<Item<E>>>,
                        ghost items: seq<Item<E>>)
    returns (full: bool, ghost chains': seq<seq<Item<E>>>)
    requires Filed(hash, buckets.Length, chains, items) && BucketsOk(buckets, chains, items) && x !in items
    modifies buckets, x`hhNext, x`hhPrev, items`hhPrev
    ensures Filed(hash, buckets.Length, chains', items + [x]) && BucketsOk(buckets, chains', items + [x])
    ensures PowerOfTwo(buckets.Length)
    ensures full <==> var d := Slot(hash, x, buckets.Length); buckets[d].count >= (buckets[d].expandMult + 1) * 10
  {
    hide ChainOk;
    var d := Slot(hash, x, buckets.Length);
    FiledIsDisjoint(hash, buckets.Length, chains, items);
    BucketsGrow(buckets, chains, items, x);
    FiledGrows(hash, buckets.Length, chains, items, x);
    FileItem(x, buckets, d, buckets[d].expandMult, chains, items + [x]);
    chains' := chains[d := [x] + chains[d]];
    full := buckets[d].count >= (buckets[d].expandMult + 1) * HASH_BKT_CAPACITY_THRESH;
  }

  /** The bucket part of HASH_ADD next to the list. */
  method FileLast<E>(hash: E -> nat, x: Item<E>, buckets: array<Bucket<E>>, ghost chains: seq<seq<Item<E>>>,
                     ghost items: seq<Item<E>>, ghost head: Item?<E>, ghost tail: Item?<E>, ghost list: seq<Item<E>>)
    returns (full: bool, ghost chains': seq<seq<Item<E>>>)
    requires Filed(hash, buckets.Length, chains, items) && BucketsOk(buckets, chains, items) && x !in items
    requires ListOk(head, tail, list)
    modifies buckets, x`hhNext, x`hhPrev, items`hhPrev
    ensures Filed(hash, buckets.Length, chains', items + [x]) && BucketsOk(buckets, chains', items + [x])
    ensures ListOk(head, tail, list)
  {
    hide Filed, BucketsOk, ListOk;
    full, chains' := AddToBucket(hash, x, buckets, chains, items);
    assert old(ListOk(head, tail, list));
  }

  /** The list part of HASH_ADD next to the buckets. */
  method LinkLast<E>(head: Item?<E>, tail: Item?<E>, x: Item<E>, ghost buckets: array<Bucket<E>>,
                     ghost chains: seq<seq<Item<E>>>, ghost items: seq<Item<E>>)
    returns (head': Item<E>, tail': Item<E>)
    requires ListOk(head, tail, items) && BucketsOk(buckets, chains, items) && x !in items
    modifies items`next, x`next, x`prev
    ensures ListOk(head', tail', items + [x]) && BucketsOk(buckets, chains, items)
  {
    hide ListOk, ChainOk;
    head', tail' := AppendToList(head, tail, x, items);
    forall b | 0 <= b < |chains|
      ensures ChainOk(buckets[b], chains[b])
    {
      assert old(ChainOk(buckets[b], chains[b]));
    }
  }

  /** The list part of HASH_DELETE next to the buckets. */
  method Unlink<E>(head: Item?<E>, tail: Item?<E>, x: Item<E>, ghost buckets: array<Bucket<E>>,
                   ghost chains: seq<seq<Item<E>>>, ghost items: seq<Item<E>>, ghost k: nat)
    returns (head': Item?<E>, tail': Item?<E>)
    requires ListOk(head, tail, items) && BucketsOk(buckets, chains, items) && k < |items| && items[k] == x
    modifies items`next, items`prev
    ensures ListOk(head', tail', Without(items, k)) && BucketsOk(buckets, chains, items)
  {
    hide ListOk, ChainOk;
    head', tail' := RemoveFromList(head, tail, x, items, k);
    forall b | 0 <= b < |chains|
      ensures ChainOk(buckets[b], chains[b])
    {
      assert old(ChainOk(buckets[b], chains[b]));
    }
  }

  /** HASH_ADD up to the growth test. */
  method AddItem<E>(hash: E -> nat, head: Item?<E>, tail: Item?<E>, x: Item<E>, buckets: array<Bucket<E>>,
                    ghost chains: seq<seq<Item<E>>>, ghost items: seq<Item<E>>)
    returns (head': Item<E>, tail': Item<E>, full: bool, ghost chains': seq<seq<Item<E>>>)
    requires ListOk(head, tail, items) && x !in items
    requires Filed(hash, buckets.Length, chains, items) && BucketsOk(buckets, chains, items)
    modifies items, x, buckets
    ensures ListOk(head', tail', items + [x])
    ensures Filed(hash, buckets.Length, chains', items + [x]) && BucketsOk(buckets, chains', items + [x])
  {
    hide ListOk, Filed, BucketsOk;
    head', tail' := LinkLast(head, tail, x, buckets, chains, items);
    full, chains' := FileLast(hash, x, buckets, chains, items, head', tail', items + [x]);
  }

  /** HASH_DELETE of one element among others. */
  method DeleteItem<E>(hash: E -> nat, head: Item?<E>, tail: Item?<E>, x: Item<E>, buckets: array<Bucket<E>>,
                       ghost chains: seq<seq<Item<E>>>, ghost items: seq<Item<E>>, ghost k: nat)
    returns (head': Item?<E>, tail': Item?<E>, ghost chains': seq<seq<Item<E>>>)
    requires ListOk(head, tail, items) && k < |items| && items[k] == x
    requires Filed(hash, buckets.Length, chains, items) && BucketsOk(buckets, chains, items)
    modifies items, buckets
    ensures ListOk(head', tail', Without(items, k))
    ensures Filed(hash, buckets.Length, chains', Without(items, k)) && BucketsOk(buckets, chains', Without(items, k))
  {
    hide ListOk, BucketsOk, Distinct;
    ghost var chain := chains[Slot(hash, x, buckets.Length)];
    assert x in chain;
    ghost var j :| 0 <= j < |chain| && chain[j] == x;
    ChainIsDistinct(buckets, chains, items, Slot(hash, x, buckets.Length));
    ListIsDistinct(head, tail, items);
    head', tail' := Unlink(head, tail, x, buckets, chains, items, k);
    var d := Slot(hash, x, buckets.Length);
    FiledIsDisjoint(hash, buckets.Length, chains, items);
    UnfileItem(x, buckets, d, chains, items, j, head', tail', Without(items, k));
    chains' := chains[d := Without(chains[d], j)];
    FiledShrinks(hash, buckets.Length, chains, items, k, j);
    BucketsShrink(hash, buckets, chains', items, Without(items, k));
  }

  lemma ChainIsDistinct<E>(buckets: array<Bucket<E>>, chains: seq<seq<Item<E>>>, items: seq<Item<E>>, d: nat)
    requires BucketsOk(buckets, chains, items) && d < |chains|
    ensures Distinct(chains[d]) && buckets.Length == |chains|
  {
    assert ChainOk(buckets[d], chains[d]);
  }

  lemma ListIsDistinct<E>(head: Item?<E>, tail: Item?<E>, s: seq<Item<E>>)
    requires ListOk(head, tail, s)
    ensures Distinct(s)
  {
  }

  lemma BucketsShrink<E>(hash: E -> nat, buckets: array<Bucket<E>>, chains: seq<seq<Item<E>>>, a: seq<Item<E>>, b: seq<Item<E>>)
    requires BucketsOk(buckets, chains, a) && Filed(hash, buckets.Length, chains, b)
    ensures BucketsOk(buckets, chains, b)
  {
  }

  /** HASH_SORT next to the buckets. */
  method SortList<E>(ghost hash: E -> nat, le: (E, E) -> bool, head: Item<E>, ghost tail: Item?<E>,
                     ghost buckets: array<Bucket<E>>, ghost chains: seq<seq<Item<E>>>, ghost items: seq<Item<E>>)
    returns (head': Item<E>, tail': Item<E>, ghost items': seq<Item<E>>)
    requires ListOk(head, tail, items)
    requires Filed(hash, buckets.Length, chains, items) && BucketsOk(buckets, chains, items)
    modifies items`next, items`prev
    ensures items' == Sort(OnItems(le), items, 1) && ListOk(head', tail', items')
    ensures Filed(hash, buckets.Length, chains, items') && BucketsOk(buckets, chains, items')
  {
    hide Chained, BackChained, Ended, Distinct, Filed, ChainOk, Sort, OnItems;
    head', tail', items' := HashSort(le, head, items);
    forall b | 0 <= b < |chains|
      ensures ChainOk(buckets[b], chains[b])
    {
      assert old(ChainOk(buckets[b], chains[b]));
    }
    SortPermutes(OnItems(le), items, 1);
    SameMembers(items, items');
    FiledReorders(hash, buckets.Length, chains, items, items');
    BucketsReorder(buckets, chains, items, items');
  }

  lemma SortedKeys<E, K>(le: (E, E) -> bool, key: E -> K, a: seq<Item<E>>, b: seq<Item<E>>)
    requires b == Sort(OnItems(le), a, 1) && Distinct(b)
    requires forall i, j :: 0 <= i < j < |a| ==> key(a[i].elem) != key(a[j].elem)
    ensures forall i, j :: 0 <= i < j < |b| ==> key(b[i].elem) != key(b[j].elem)
    ensures |a| == |b|
  {
    hide Sort;
    SortPermutes(OnItems(le), a, 1);
    SameMembers(a, b);
    KeysReorder(key, a, b);
  }

  lemma NoItems<E>()
    ensures ListOk<E>(null, null, [])
  {
  }

  lemma FiledIsDisjoint<E>(hash: E -> nat, n: nat, chains: seq<seq<Item<E>>>, items: seq<Item<E>>)
    requires Filed(hash, n, chains, items)
    ensures Disjoint(chains)
  {
    forall b, c, y | 0 <= b < |chains| && 0 <= c < |chains| && y in chains[b] && y in chains[c]
      ensures b == c
    {
      assert b == Slot(hash, y, n) == c;
    }
  }

  lemma FiledGrows<E>(hash: E -> nat, n: nat, chains: seq<seq<Item<E>>>, items: seq<Item<E>>, x: Item<E>)
    requires Filed(hash, n, chains, items)
    ensures var d := Slot(hash, x, n);
            Filed(hash, n, chains[d := [x] + chains[d]], items + [x])
  {
    var d := Slot(hash, x, n);
    var chains' := chains[d := [x] + chains[d]];
    forall b, y | 0 <= b < n && y in chains'[b]
      ensures y in items + [x] && Slot(hash, y, n) == b
    {
      assert y in chains[b] || (b == d && y == x);
    }
    forall y | y in items + [x]
      ensures y in chains'[Slot(hash, y, n)]
    {
      assert y in items || y == x;
    }
  }

  lemma BucketsGrow<E>(buckets: array<Bucket<E>>, chains: seq<seq<Item<E>>>, items: seq<Item<E>>, x: Item<E>)
    requires BucketsOk(buckets, chains, items)
    ensures BucketsOk(buckets, chains, items + [x])
  {
  }

  /** Takes an item out of its bucket. */
  method UnfileItem<E>(x: Item<E>, buckets: array<Bucket<E>>, d: nat, ghost chains: seq<seq<Item<E>>>,
                       ghost items: seq<Item<E>>, ghost j: nat,
                       ghost head: Item?<E>, ghost tail: Item?<E>, ghost list: seq<Item<E>>)
    requires BucketsOk(buckets, chains, items) && d < buckets.Length && Disjoint(chains)
    requires j < |chains[d]| && chains[d][j] == x && ListOk(head, tail, list)
    modifies buckets, items`hhNext, items`hhPrev
    ensures BucketsOk(buckets, chains[d := Without(chains[d], j)], items) && ListOk(head, tail, list)
  {
    ghost var p, q := x.hhPrev, x.hhNext;
    hide ListOk;
    NeighboursInChain(buckets[d], chains[d], j);
    assert (p != null ==> p in chains[d] && p in items) && (q != null ==> q in chains[d] && q in items);
    var b := Unchain(buckets[d], x, chains[d], j);
    buckets[d] := b;
    ghost var chains' := chains[d := Without(chains[d], j)];
    forall c | 0 <= c < |chains'|
      ensures ChainOk(buckets[c], chains'[c])
      ensures forall y :: y in chains'[c] ==> y in items
    {
      if c != d {
        assert old(ChainOk(buckets[c], chains[c]));
        assert (p != null ==> p !in chains[c]) && (q != null ==> q !in chains[c]);
      }
    }
    assert old(ListOk(head, tail, list));
  }

  lemma NeighboursInChain<E>(b: Bucket<E>, s: seq<Item<E>>, j: nat)
    requires ChainOk(b, s) && j < |s|
    ensures s[j].hhPrev != null ==> s[j].hhPrev in s
    ensures s[j].hhNext != null ==> s[j].hhNext in s
  {
    if j > 0 {
      assert s[j - 1 + 1].hhPrev == s[j - 1];
    }
    if j < |s| - 1 {
      assert s[j].hhNext == s[j + 1];
    }
  }

  lemma FiledShrinks<E>(hash: E -> nat, n: nat, chains: seq<seq<Item<E>>>, items: seq<Item<E>>, k: nat, j: nat)
    requires Filed(hash, n, chains, items) && Distinct(items) && k < |items|
    requires var d := Slot(hash, items[k], n);
             j < |chains[d]| && chains[d][j] == items[k] && Distinct(chains[d])
    ensures var d := Slot(hash, items[k], n);
            Filed(hash, n, chains[d := Without(chains[d], j)], Without(items, k))
  {
    var x := items[k];
    var d := Slot(hash, x, n);
    var chains' := chains[d := Without(chains[d], j)];
    WithoutMembers(items, k);
    WithoutMembers(chains[d], j);
    forall b, y | 0 <= b < n && y in chains'[b]
      ensures y in Without(items, k) && Slot(hash, y, n) == b
    {
      assert y in chains[b] && y != x;
    }
    forall y | y in Without(items, k)
      ensures y in chains'[Slot(hash, y, n)]
    {
      assert y in chains[Slot(hash, y, n)] && y != x;
    }
  }

  lemma WithoutMembers<E>(s: seq<Item<E>>, k: nat)
    requires Distinct(s) && k < |s|
    ensures forall y :: y in Without(s, k) <==> y in s && y != s[k]
    ensures Distinct(Without(s, k))
  {
    forall y
      ensures y in Without(s, k) <==> y in s && y != s[k]
    {
      if y in s && y != s[k] {
        var i :| 0 <= i < |s| && s[i] == y;
        assert if i < k then Without(s, k)[i] == y else Without(s, k)[i - 1] == y;
      }
    }
  }

  lemma SameMembers<E>(a: seq<Item<E>>, b: seq<Item<E>>)
    requires multiset(a) == multiset(b)
    ensures forall x :: x in a <==> x in b
    ensures |a| == |b|
  {
    forall x
      ensures x in a <==> x in b
    {
      assert x in a <==> x in multiset(a);
      assert x in b <==> x in multiset(b);
    }
    assert |multiset(a)| == |a| && |multiset(b)| == |b|;
  }

  lemma FiledReorders<E>(hash: E -> nat, n: nat, chains: seq<seq<Item<E>>>, a: seq<Item<E>>, b: seq<Item<E>>)
    requires Filed(hash, n, chains, a) && forall x :: x in a <==> x in b
    ensures Filed(hash, n, chains, b)
  {
  }

  lemma BucketsReorder<E>(buckets: array<Bucket<E>>, chains: seq<seq<Item<E>>>, a: seq<Item<E>>, b: seq<Item<E>>)
    requires BucketsOk(buckets, chains, a) && forall x :: x in a <==> x in b
    ensures BucketsOk(buckets, chains, b)
  {
  }

  lemma KeysReorder<E, K>(key: E -> K, a: seq<Item<E>>, b: seq<Item<E>>)
    requires forall i, j :: 0 <= i < j < |a| ==> key(a[i].elem) != key(a[j].elem)
    requires Distinct(b) && forall x :: x in a <==> x in b
    ensures forall i, j :: 0 <= i < j < |b| ==> key(b[i].elem) != key(b[j].elem)
  {
    forall i, j | 0 <= i < j < |b|
      ensures key(b[i].elem) != key(b[j].elem)
    {
      assert b[i] in a && b[j] in a;
    }
  }
}
