/**
 Interface locks (hald/device.c): holders, exclusiveness and the list of lock names are kept in
 ordinary device properties, and a global list names the devices that are locked at all.
 The property encoding is proved to carry out a plain table of locks.
 */
module DeviceLocks {
  import opened Lists

  type Dev = nat
  type Client = string

  datatype Prop = Boolean(b: bool) | StrList(l: seq<string>) | Scalar
  type Props = map<string, Prop>

  // Property keys.

  const LOCKS: string := "info.named_locks"
  const EXCLUSIVE: string := ".exclusive"
  const HOLDERS: string := ".dbus_name"
  const LOCKED: string := ".locked"

  /** `g_snprintf` into a buffer of 256 bytes. */
  function Key(name: string, suffix: string): string {
    var s := LOCKS + "." + name + suffix;
    if |s| <= 255 then s else s[..255]
  }

  /** A name that leaves room for the prefix and the longest suffix. */
  predicate Short(name: string) {
    |LOCKS| + 1 + |name| + |EXCLUSIVE| <= 255
  }

  predicate IsSuffix(s: string) {
    s == EXCLUSIVE || s == HOLDERS || s == LOCKED
  }

  /** For names short enough not to be truncated, the keys of different locks never collide. */
  lemma KeysNeverCollide(n: string, s: string, m: string, t: string)
    requires Short(n) && Short(m) && IsSuffix(s) && IsSuffix(t) && Key(n, s) == Key(m, t)
    ensures n == m && s == t
  {
    var x, y := LOCKS + "." + n + s, LOCKS + "." + m + t;
    assert x == y;
    assert x[|x| - 1] == s[|s| - 1] && y[|y| - 1] == t[|t| - 1];
    assert x[|x| - 2] == s[|s| - 2] && y[|y| - 2] == t[|t| - 2];
    assert s == t;
    var p := |LOCKS| + 1;
    assert n == x[p..p + |n|] && m == y[p..p + |m|];
  }

  /** The keys, spelled out. */
  lemma KeysAre(n: string)
    requires Short(n)
    ensures LOCKS == "info.named_locks"
    ensures Key(n, EXCLUSIVE) == "info.named_locks." + n + ".exclusive"
    ensures Key(n, HOLDERS) == "info.named_locks." + n + ".dbus_name"
    ensures Key(n, LOCKED) == "info.named_locks." + n + ".locked"
  {
    assert LOCKS + "." == "info.named_locks.";
  }

  lemma KeyIsNotTheList(n: string, s: string)
    requires Short(n) && IsSuffix(s)
    ensures Key(n, s) != LOCKS
  {
  }

  // Typed property access.

  function GetBool(p: Props, k: string): bool {
    k in p && p[k].Boolean? && p[k].b
  }

  function GetList(p: Props, k: string): seq<string> {
    if k in p && p[k].StrList? then p[k].l else []
  }

  function SetBool(p: Props, k: string, b: bool): Props {
    if k in p && !p[k].Boolean? then p else p[k := Boolean(b)]
  }

  function Append(p: Props, k: string, v: string): Props {
    if k in p && !p[k].StrList? then p else p[k := StrList(GetList(p, k) + [v])]
  }

  /** `hal_device_property_strlist_add`: appends unless present. */
  function AddToList(p: Props, k: string, v: string): Props {
    if k in p && (!p[k].StrList? || v in p[k].l) then p else p[k := StrList(GetList(p, k) + [v])]
  }

  function RemoveFromList(p: Props, k: string, v: string): Props {
    if k in p && p[k].StrList? then p[k := StrList(Remove(p[k].l, v))] else p
  }

  // The two operations on one device.

  function Acquire(p: Props, name: string, exclusive: bool, who: Client): (bool, Props) {
    if GetBool(p, Key(name, EXCLUSIVE)) then (false, p)
    else
      var p1 := SetBool(p, Key(name, EXCLUSIVE), exclusive);
      var k := Key(name, HOLDERS);
      if exclusive && k in p1 then (false, p1)
      else if who in GetList(p1, k) then (false, p1)
      else
        var p2 := Append(p1, k, who);
        var p3 := SetBool(p2, Key(name, LOCKED), true);
        (true, AddToList(p3, LOCKS, name))
  }

  function Release(p: Props, name: string, who: Client): (bool, Props) {
    var k := Key(name, HOLDERS);
    if !GetBool(p, Key(name, LOCKED)) || who !in GetList(p, k) then (false, p)
    else if |GetList(p, k)| == 1 then
      var p1 := p - {Key(name, EXCLUSIVE), Key(name, LOCKED), k};
      (true, if |GetList(p1, LOCKS)| == 1 then p1 - {LOCKS} else RemoveFromList(p1, LOCKS, name))
    else (true, RemoveFromList(p, k, who))
  }

  // The table the properties encode.

  datatype Lock = Lock(holders: seq<Client>, exclusive: bool)
  type Table = map<string, Lock>

  /**
   The properties of one lock agree: holder list present (and then non-empty and without repetition),
   `.locked` set, `.exclusive` present and the name listed are all the same.
   */
  ghost predicate Encodes(p: Props, n: string) {
    var listed := n in GetList(p, LOCKS);
    && (listed <==> Key(n, HOLDERS) in p) && (listed <==> Key(n, LOCKED) in p) && (listed <==> Key(n, EXCLUSIVE) in p)
    && (listed ==>
          && p[Key(n, HOLDERS)].StrList? && p[Key(n, HOLDERS)].l != [] && NoDup(p[Key(n, HOLDERS)].l)
          && p[Key(n, LOCKED)] == Boolean(true)
          && p[Key(n, EXCLUSIVE)].Boolean?)
  }

  ghost predicate Encoded(p: Props) {
    && (LOCKS in p ==> p[LOCKS].StrList? && p[LOCKS].l != [] && NoDup(p[LOCKS].l))
    && (forall n :: n in GetList(p, LOCKS) ==> Short(n))
    && (forall n :: Short(n) ==> Encodes(p, n))
  }

  function Abs(p: Props): Table {
    map n | n in GetList(p, LOCKS) :: Lock(GetList(p, Key(n, HOLDERS)), GetBool(p, Key(n, EXCLUSIVE)))
  }

  /** Acquiring a lock in the table; note the flag a refused exclusive request leaves behind. */
  function AcquireSpec(t: Table, n: string, exclusive: bool, who: Client): (bool, Table) {
    if n !in t then (true, t[n := Lock([who], exclusive)])
    else if t[n].exclusive then (false, t)
    else if exclusive then (false, t[n := t[n].(exclusive := true)])
    else if who in t[n].holders then (false, t)
    else (true, t[n := Lock(t[n].holders + [who], false)])
  }

  function ReleaseSpec(t: Table, n: string, who: Client): (bool, Table) {
    if n !in t || who !in t[n].holders then (false, t)
    else if |t[n].holders| == 1 then (true, t - {n})
    else (true, t[n := t[n].(holders := Remove(t[n].holders, who))])
  }

  /** `p'` differs from `p` at most in the properties of lock `n` and the list of names. */
  ghost predicate OnlyLock(p: Props, p': Props, n: string) {
    forall k :: k != LOCKS && k != Key(n, EXCLUSIVE) && k != Key(n, HOLDERS) && k != Key(n, LOCKED) ==>
      (k in p <==> k in p') && (k in p ==> p'[k] == p[k])
  }

  /** Other locks do not notice. */
  lemma OthersKeep(p: Props, p': Props, n: string, m: string)
    requires Short(n) && Short(m) && m != n && OnlyLock(p, p', n)
    requires m in GetList(p, LOCKS) <==> m in GetList(p', LOCKS)
    ensures Encodes(p, m) <==> Encodes(p', m)
    ensures GetList(p', Key(m, HOLDERS)) == GetList(p, Key(m, HOLDERS))
    ensures GetBool(p', Key(m, EXCLUSIVE)) == GetBool(p, Key(m, EXCLUSIVE))
  {
    hide Key;
    forall s | IsSuffix(s)
      ensures Key(m, s) in p <==> Key(m, s) in p'
      ensures Key(m, s) in p ==> p'[Key(m, s)] == p[Key(m, s)]
    {
      KeyIsNotTheList(m, s);
      forall t | IsSuffix(t)
        ensures Key(m, s) != Key(n, t)
      {
        if Key(m, s) == Key(n, t) {
          KeysNeverCollide(m, s, n, t);
        }
      }
      assert IsSuffix(EXCLUSIVE) && IsSuffix(HOLDERS) && IsSuffix(LOCKED);
    }
    assert IsSuffix(EXCLUSIVE) && IsSuffix(HOLDERS) && IsSuffix(LOCKED);
  }

  /** The keys of one lock are four different strings. */
  lemma OwnKeysDiffer(n: string)
    requires Short(n)
    ensures Key(n, EXCLUSIVE) != Key(n, HOLDERS) && Key(n, EXCLUSIVE) != Key(n, LOCKED) && Key(n, HOLDERS) != Key(n, LOCKED)
    ensures Key(n, EXCLUSIVE) != LOCKS && Key(n, HOLDERS) != LOCKS && Key(n, LOCKED) != LOCKS
  {
    hide Key;
    KeyIsNotTheList(n, EXCLUSIVE);
    KeyIsNotTheList(n, HOLDERS);
    KeyIsNotTheList(n, LOCKED);
    if Key(n, EXCLUSIVE) == Key(n, HOLDERS) {
      KeysNeverCollide(n, EXCLUSIVE, n, HOLDERS);
    }
    if Key(n, EXCLUSIVE) == Key(n, LOCKED) {
      KeysNeverCollide(n, EXCLUSIVE, n, LOCKED);
    }
    if Key(n, HOLDERS) == Key(n, LOCKED) {
      KeysNeverCollide(n, HOLDERS, n, LOCKED);
    }
  }

  /** A change to one lock's properties that keeps that lock encoded keeps the whole device encoded. */
  lemma Rebuild(p: Props, p': Props, n: string, t': Table)
    requires Encoded(p) && Short(n) && OnlyLock(p, p', n) && Encodes(p', n)
    requires LOCKS in p' ==> p'[LOCKS].StrList? && p'[LOCKS].l != [] && NoDup(p'[LOCKS].l)
    requires forall m :: m != n ==> (m in GetList(p', LOCKS) <==> m in GetList(p, LOCKS))
    requires t'.Keys == (set m | m in GetList(p', LOCKS))
    requires forall m :: m in t' && m != n ==> t'[m] == Abs(p)[m]
    requires n in t' ==> t'[n] == Lock(GetList(p', Key(n, HOLDERS)), GetBool(p', Key(n, EXCLUSIVE)))
    ensures Encoded(p') && Abs(p') == t'
  {
    hide Key, Short;
    forall m | Short(m)
      ensures Encodes(p', m)
    {
      if m != n {
        OthersKeep(p, p', n, m);
      }
    }
    forall m | m in t'
      ensures Abs(p')[m] == t'[m]
    {
      if m != n {
        OthersKeep(p, p', n, m);
      }
    }
    assert Abs(p').Keys == t'.Keys;
  }

  // Acquire, case by case.

  lemma AcquireListed(p: Props, n: string, exclusive: bool, who: Client)
    requires Short(n) && Encodes(p, n) && n in GetList(p, LOCKS)
    ensures var (ok, p') := Acquire(p, n, exclusive, who);
            var h := GetList(p, Key(n, HOLDERS));
            if GetBool(p, Key(n, EXCLUSIVE)) then (ok, p') == (false, p)
            else if exclusive then (ok, p') == (false, p[Key(n, EXCLUSIVE) := Boolean(true)])
            else if who in h then (ok, p') == (false, p)
            else (ok, p') == (true, p[Key(n, HOLDERS) := StrList(h + [who])])
  {
    hide Key, Short;
    OwnKeysDiffer(n);
    var (ok, p') := Acquire(p, n, exclusive, who);
    if !GetBool(p, Key(n, EXCLUSIVE)) && !exclusive {
      assert SetBool(p, Key(n, EXCLUSIVE), false) == p;
      if who !in GetList(p, Key(n, HOLDERS)) {
        var p2 := p[Key(n, HOLDERS) := StrList(GetList(p, Key(n, HOLDERS)) + [who])];
        assert SetBool(p2, Key(n, LOCKED), true) == p2;
      }
    }
  }

  lemma AcquireUnlisted(p: Props, n: string, exclusive: bool, who: Client)
    requires Short(n) && Encodes(p, n) && n !in GetList(p, LOCKS) && (LOCKS in p ==> p[LOCKS].StrList?)
    ensures Acquire(p, n, exclusive, who)
            == (true, p[Key(n, EXCLUSIVE) := Boolean(exclusive)][Key(n, HOLDERS) := StrList([who])]
                       [Key(n, LOCKED) := Boolean(true)][LOCKS := StrList(GetList(p, LOCKS) + [n])])
  {
    hide Key, Short;
    OwnKeysDiffer(n);
    assert [] + [who] == [who];
  }

  lemma ListedIs(p: Props, n: string)
    requires Encoded(p)
    ensures n in Abs(p) <==> n in GetList(p, LOCKS)
    ensures n in Abs(p) ==> Abs(p)[n] == Lock(GetList(p, Key(n, HOLDERS)), GetBool(p, Key(n, EXCLUSIVE)))
  {
    hide Key;
  }

  lemma FlagRaised(p: Props, n: string)
    requires Encoded(p) && Short(n) && n in GetList(p, LOCKS)
    ensures var p' := p[Key(n, EXCLUSIVE) := Boolean(true)];
            Encoded(p') && Abs(p') == Abs(p)[n := Abs(p)[n].(exclusive := true)]
  {
    hide Key, Short;
    OwnKeysDiffer(n);
    assert Encodes(p, n);
    var p' := p[Key(n, EXCLUSIVE) := Boolean(true)];
    Rebuild(p, p', n, Abs(p)[n := Abs(p)[n].(exclusive := true)]);
  }

  lemma HoldersChanged(p: Props, n: string, h: seq<Client>)
    requires Encoded(p) && Short(n) && n in GetList(p, LOCKS) && h != [] && NoDup(h)
    ensures var p' := p[Key(n, HOLDERS) := StrList(h)];
            Encoded(p') && Abs(p') == Abs(p)[n := Abs(p)[n].(holders := h)]
  {
    hide Key, Short;
    OwnKeysDiffer(n);
    assert Encodes(p, n);
    var p' := p[Key(n, HOLDERS) := StrList(h)];
    Rebuild(p, p', n, Abs(p)[n := Abs(p)[n].(holders := h)]);
  }

  lemma LockCreated(p: Props, n: string, exclusive: bool, who: Client)
    requires Encoded(p) && Short(n) && n !in GetList(p, LOCKS)
    ensures var p' := p[Key(n, EXCLUSIVE) := Boolean(exclusive)][Key(n, HOLDERS) := StrList([who])]
                       [Key(n, LOCKED) := Boolean(true)][LOCKS := StrList(GetList(p, LOCKS) + [n])];
            Encoded(p') && Abs(p') == Abs(p)[n := Lock([who], exclusive)]
  {
    hide Key, Short;
    OwnKeysDiffer(n);
    assert Encodes(p, n);
    var p' := p[Key(n, EXCLUSIVE) := Boolean(exclusive)][Key(n, HOLDERS) := StrList([who])]
               [Key(n, LOCKED) := Boolean(true)][LOCKS := StrList(GetList(p, LOCKS) + [n])];
    Rebuild(p, p', n, Abs(p)[n := Lock([who], exclusive)]);
  }

  lemma LockDropped(p: Props, n: string)
    requires Encoded(p) && Short(n) && n in GetList(p, LOCKS)
    ensures var p1 := p - {Key(n, EXCLUSIVE), Key(n, LOCKED), Key(n, HOLDERS)};
            var p' := if |GetList(p1, LOCKS)| == 1 then p1 - {LOCKS} else RemoveFromList(p1, LOCKS, n);
            Encoded(p') && Abs(p') == Abs(p) - {n}
  {
    hide Key, Short;
    OwnKeysDiffer(n);
    assert Encodes(p, n);
    var l := GetList(p, LOCKS);
    RemoveMembers(l, n);
    var p1 := p - {Key(n, EXCLUSIVE), Key(n, LOCKED), Key(n, HOLDERS)};
    var p' := if |l| == 1 then p1 - {LOCKS} else RemoveFromList(p1, LOCKS, n);
    assert GetList(p1, LOCKS) == l;
    assert |l| == 1 ==> l == [n];
    assert GetList(p', LOCKS) == if |l| == 1 then [] else Remove(l, n);
    Rebuild(p, p', n, Abs(p) - {n});
  }

  /** Acquiring through the properties is acquiring in the table. */
  lemma AcquireRefines(p: Props, n: string, exclusive: bool, who: Client)
    requires Encoded(p) && Short(n)
    ensures var (ok, p') := Acquire(p, n, exclusive, who);
            && Encoded(p')
            && (ok, Abs(p')) == AcquireSpec(Abs(p), n, exclusive, who)
  {
    hide Key, Short, Acquire, Abs, Encodes;
    assert Encodes(p, n);
    ListedIs(p, n);
    if n in GetList(p, LOCKS) {
      AcquireListed(p, n, exclusive, who);
      HoldersAreGood(p, n);
      var h := GetList(p, Key(n, HOLDERS));
      if !GetBool(p, Key(n, EXCLUSIVE)) {
        if exclusive {
          FlagRaised(p, n);
        } else if who !in h {
          HoldersChanged(p, n, h + [who]);
        }
      }
    } else {
      AcquireUnlisted(p, n, exclusive, who);
      LockCreated(p, n, exclusive, who);
    }
  }

  lemma HoldersAreGood(p: Props, n: string)
    requires Encodes(p, n) && n in GetList(p, LOCKS)
    ensures GetList(p, Key(n, HOLDERS)) != [] && NoDup(GetList(p, Key(n, HOLDERS)))
    ensures GetBool(p, Key(n, LOCKED)) && Key(n, HOLDERS) in p && p[Key(n, HOLDERS)].StrList?
  {
    hide Key;
  }

  /** Releasing through the properties is releasing in the table. */
  lemma ReleaseRefines(p: Props, n: string, who: Client)
    requires Encoded(p) && Short(n)
    ensures var (ok, p') := Release(p, n, who);
            && Encoded(p')
            && (ok, Abs(p')) == ReleaseSpec(Abs(p), n, who)
  {
    hide Key, Short, Abs, Encodes;
    assert Encodes(p, n);
    ListedIs(p, n);
    if n in GetList(p, LOCKS) {
      HoldersAreGood(p, n);
      var h := GetList(p, Key(n, HOLDERS));
      if who in h {
        if |h| == 1 {
          LockDropped(p, n);
        } else {
          RemoveMembers(h, who);
          HoldersChanged(p, n, Remove(h, who));
        }
      }
    } else {
      NotListed(p, n);
    }
  }

  lemma NotListed(p: Props, n: string)
    requires Encodes(p, n) && n !in GetList(p, LOCKS)
    ensures !GetBool(p, Key(n, LOCKED))
  {
    hide Key;
  }
}
