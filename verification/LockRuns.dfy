/**
 Locks over whole runs (hald/device.c, hald/hald_dbus.c): the properties of every device together
 with the list of locked devices, driven by requests, disconnects, revalidation and device removal.
 */
module LockRuns {
  import opened Lists
  import opened DeviceLocks

  datatype World = World(props: map<Dev, Props>, locked: seq<Dev>)

  // The list of locked devices.

  function AddToSet(s: seq<Dev>, d: Dev): seq<Dev> {
    if d in s then s else [d] + s
  }

  // Operations on the world.

  function AcquireLock(w: World, d: Dev, n: string, exclusive: bool, who: Client): (bool, World)
    requires d in w.props
  {
    var (ok, p) := Acquire(w.props[d], n, exclusive, who);
    (ok, World(w.props[d := p], if ok then AddToSet(w.locked, d) else w.locked))
  }

  /** The lock has one holder left and is the only lock of the device. */
  predicate OnlyOne(p: Props, n: string) {
    && |GetList(p, Key(n, HOLDERS))| == 1
    && |GetList(p - {Key(n, EXCLUSIVE), Key(n, LOCKED), Key(n, HOLDERS)}, LOCKS)| == 1
  }

  function ReleaseLock(w: World, d: Dev, n: string, who: Client): (r: (bool, World))
    requires d in w.props
    ensures r.1.props.Keys == w.props.Keys
  {
    var (ok, p) := Release(w.props[d], n, who);
    (ok, World(w.props[d := p], if ok && OnlyOne(w.props[d], n) then Remove(w.locked, d) else w.locked))
  }

  function ReleaseNames(w: World, d: Dev, names: seq<string>, who: Client): (r: World)
    requires d in w.props
    ensures r.props.Keys == w.props.Keys
    decreases |names|
  {
    if names == [] then w else ReleaseNames(ReleaseLock(w, d, names[0], who).1, d, names[1..], who)
  }

  /** `hal_device_client_disconnected` over a snapshot of the list of locked devices. */
  function Disconnected(w: World, devs: seq<Dev>, who: Client): (r: World)
    requires forall d :: d in devs ==> d in w.props
    ensures r.props.Keys == w.props.Keys
    decreases |devs|
  {
    if devs == [] then w
    else
      var d := devs[0];
      Disconnected(ReleaseNames(w, d, GetList(w.props[d], LOCKS), who), devs[1..], who)
  }

  function KickHolders(w: World, d: Dev, n: string, holders: seq<Client>, access: (Dev, Client) -> bool): (r: World)
    requires d in w.props
    ensures r.props.Keys == w.props.Keys
    decreases |holders|
  {
    if holders == [] then w
    else
      var w1 := if access(d, holders[0]) then w else ReleaseLock(w, d, n, holders[0]).1;
      KickHolders(w1, d, n, holders[1..], access)
  }

  function ValidateNames(w: World, d: Dev, names: seq<string>, access: (Dev, Client) -> bool): (r: World)
    requires d in w.props
    ensures r.props.Keys == w.props.Keys
    decreases |names|
  {
    if names == [] then w
    else
      var w1 := KickHolders(w, d, names[0], GetList(w.props[d], Key(names[0], HOLDERS)), access);
      ValidateNames(w1, d, names[1..], access)
  }

  /** `validate_locks` over the devices of the temporary and then the global store. */
  function Validated(w: World, devs: seq<Dev>, access: (Dev, Client) -> bool): (r: World)
    requires forall d :: d in devs ==> d in w.props
    ensures r.props.Keys == w.props.Keys
    decreases |devs|
  {
    if devs == [] then w
    else
      var d := devs[0];
      Validated(ValidateNames(w, d, GetList(w.props[d], LOCKS), access), devs[1..], access)
  }

  // The invariant.

  ghost predicate Good(w: World) {
    && (forall d :: d in w.props ==> Encoded(w.props[d]))
    && NoDup(w.locked)
    && (forall d :: d in w.locked <==> d in w.props && LOCKS in w.props[d])
  }

  function Tables(w: World): map<Dev, Table> {
    map d | d in w.props :: Abs(w.props[d])
  }

  lemma LockedIsNonEmpty(w: World, d: Dev)
    requires Good(w) && d in w.props
    ensures d in w.locked <==> Abs(w.props[d]) != map[]
  {
    hide Encodes, Short, Key;
    var p := w.props[d];
    if LOCKS in p {
      assert p[LOCKS].l[0] in Abs(p);
    }
  }

  lemma TableIsEmpty(p: Props)
    requires Encoded(p)
    ensures LOCKS in p <==> Abs(p) != map[]
  {
    hide Encodes, Short, Key;
    if LOCKS in p {
      assert p[LOCKS].l[0] in Abs(p);
    }
  }

  /** Replacing one device's properties and keeping the list in step. */
  lemma GoodAgain(w: World, d: Dev, p: Props, locked: seq<Dev>)
    requires Good(w) && d in w.props && Encoded(p) && NoDup(locked)
    requires forall x :: x in locked <==> if x == d then LOCKS in p else x in w.locked
    ensures Good(World(w.props[d := p], locked))
    ensures Tables(World(w.props[d := p], locked)) == Tables(w)[d := Abs(p)]
  {
    hide Encoded, Abs;
  }

  lemma AcquireIsGood(w: World, d: Dev, n: string, exclusive: bool, who: Client)
    requires Good(w) && d in w.props && Short(n)
    ensures var (ok, w') := AcquireLock(w, d, n, exclusive, who);
            var (ok2, t) := AcquireSpec(Tables(w)[d], n, exclusive, who);
            && Good(w') && ok == ok2 && Tables(w') == Tables(w)[d := t]
  {
    hide Acquire, Encoded, Abs, Short, Key;
    var p := w.props[d];
    var (ok, p') := Acquire(p, n, exclusive, who);
    AcquireRefines(p, n, exclusive, who);
    TableIsEmpty(p);
    TableIsEmpty(p');
    assert ok ==> n in Abs(p');
    assert !ok ==> n in Abs(p) && n in Abs(p');
    GoodAgain(w, d, p', AcquireLock(w, d, n, exclusive, who).1.locked);
  }

  lemma ReleaseAndTheList(p: Props, n: string, who: Client)
    requires Encoded(p) && Short(n)
    ensures var (ok, p') := Release(p, n, who);
            && (!ok ==> p' == p)
            && (ok ==> LOCKS in p && (LOCKS in p' <==> !OnlyOne(p, n)))
  {
    hide Key, Short;
    var (ok, p') := Release(p, n, who);
    if ok {
      OwnKeysDiffer(n);
      assert Encodes(p, n);
      if |GetList(p, Key(n, HOLDERS))| != 1 {
        assert LOCKS in p';
      }
    }
  }

  lemma ReleaseIsGood(w: World, d: Dev, n: string, who: Client)
    requires Good(w) && d in w.props && Short(n)
    ensures var (ok, w') := ReleaseLock(w, d, n, who);
            var (ok2, t) := ReleaseSpec(Tables(w)[d], n, who);
            && Good(w') && ok == ok2 && Tables(w') == Tables(w)[d := t]
  {
    hide Release, Encoded, Abs, Short, Key, OnlyOne;
    var (ok, p') := Release(w.props[d], n, who);
    ReleaseRefines(w.props[d], n, who);
    ReleaseAndTheList(w.props[d], n, who);
    RemoveMembers(w.locked, d);
    GoodAgain(w, d, p', ReleaseLock(w, d, n, who).1.locked);
  }

  // What cleaning up leaves behind.

  ghost function Filter(s: seq<Client>, gone: iset<Client>): seq<Client> {
    if s == [] then [] else (if s[0] in gone then [] else [s[0]]) + Filter(s[1..], gone)
  }

  /** Lock `n` without the holders in `gone`; a lock without holders disappears. */
  ghost function KeepLock(t: Table, n: string, gone: iset<Client>): Table {
    if n !in t then t
    else if Filter(t[n].holders, gone) == [] then t - {n}
    else t[n := t[n].(holders := Filter(t[n].holders, gone))]
  }

  /** The locks in `names` without the holders in `gone`. */
  ghost function KeepNames(t: Table, names: seq<string>, gone: iset<Client>): Table {
    map n | n in t && (n in names ==> Filter(t[n].holders, gone) != []) ::
      if n in names then t[n].(holders := Filter(t[n].holders, gone)) else t[n]
  }

  /** Every lock without the holders in `gone`. */
  ghost function Keep(t: Table, gone: iset<Client>): Table {
    map n | n in t && Filter(t[n].holders, gone) != [] :: t[n].(holders := Filter(t[n].holders, gone))
  }

  lemma {:induction false} FilterTwice(s: seq<Client>, a: iset<Client>, b: iset<Client>)
    ensures Filter(Filter(s, a), b) == Filter(s, a + b)
  {
    if s != [] {
      FilterTwice(s[1..], a, b);
      if s[0] !in a {
        assert Filter(s, a) == [s[0]] + Filter(s[1..], a);
        assert Filter(s, a)[1..] == Filter(s[1..], a);
      } else {
        assert Filter(s, a) == Filter(s[1..], a);
      }
    }
  }

  lemma {:induction false} FilterNothing(s: seq<Client>, a: iset<Client>)
    requires forall c :: c in s ==> c !in a
    ensures Filter(s, a) == s
  {
    if s != [] {
      FilterNothing(s[1..], a);
    }
  }

  lemma {:induction false} FilterSame(s: seq<Client>, a: iset<Client>, b: iset<Client>)
    requires forall c :: c in s ==> (c in a <==> c in b)
    ensures Filter(s, a) == Filter(s, b)
  {
    if s != [] {
      FilterSame(s[1..], a, b);
    }
  }

  lemma {:induction false} FilterMembers(s: seq<Client>, a: iset<Client>)
    ensures forall c :: c in Filter(s, a) <==> c in s && c !in a
  {
    if s != [] {
      assert s == [s[0]] + s[1..];
      FilterMembers(s[1..], a);
    }
  }

  lemma {:induction false} RemoveFilters(s: seq<Client>, c: Client)
    requires NoDup(s)
    ensures Remove(s, c) == Filter(s, iset{c})
  {
    if s != [] {
      if s[0] == c {
        assert c !in s[1..];
        FilterNothing(s[1..], iset{c});
      } else {
        RemoveFilters(s[1..], c);
      }
    }
  }

  lemma ReleaseKeeps(t: Table, n: string, c: Client)
    requires n in t ==> t[n].holders != [] && NoDup(t[n].holders)
    ensures ReleaseSpec(t, n, c).1 == KeepLock(t, n, iset{c})
  {
    if n in t {
      var h := t[n].holders;
      RemoveFilters(h, c);
      RemoveMembers(h, c);
      FilterMembers(h, iset{c});
      if c !in h {
        FilterNothing(h, iset{c});
        assert t[n].(holders := h) == t[n];
        assert t[n := t[n]] == t;
      }
    }
  }

  lemma KeepLockTwice(t: Table, n: string, a: iset<Client>, b: iset<Client>)
    ensures KeepLock(KeepLock(t, n, a), n, b) == KeepLock(t, n, a + b)
  {
    if n in t {
      FilterTwice(t[n].holders, a, b);
      FilterMembers(t[n].holders, a);
      FilterMembers(t[n].holders, a + b);
      if Filter(t[n].holders, a) == [] {
        forall c | c in t[n].holders
          ensures c in a + b
        {
          assert c !in Filter(t[n].holders, a);
        }
        assert Filter(t[n].holders, a + b) == [];
      }
    }
  }

  lemma KeepNamesStep(t: Table, n: string, rest: seq<string>, gone: iset<Client>)
    requires forall m :: m in t ==> t[m].holders != []
    ensures KeepNames(KeepLock(t, n, gone), rest, gone) == KeepNames(t, [n] + rest, gone)
  {
    hide Filter;
    var names := [n] + rest;
    assert n in names && forall m :: m != n ==> (m in names <==> m in rest);
    if n in t {
      FilterTwice(t[n].holders, gone, gone);
      assert gone + gone == gone;
      var h := Filter(t[n].holders, gone);
      if h == [] {
        assert KeepLock(t, n, gone) == t - {n};
      } else {
        assert KeepLock(t, n, gone) == t[n := t[n].(holders := h)];
      }
    }
  }

  lemma HoldersFine(w: World, d: Dev, n: string)
    requires Good(w) && d in w.props && n in Tables(w)[d]
    ensures Tables(w)[d][n].holders != [] && NoDup(Tables(w)[d][n].holders) && Short(n)
    ensures Tables(w)[d][n].holders == GetList(w.props[d], Key(n, HOLDERS))
  {
    hide Key, Short, Encodes;
    assert Encodes(w.props[d], n);
    HoldersAreGood(w.props[d], n);
  }

  lemma AllHoldersFine(w: World, d: Dev)
    requires Good(w) && d in w.props
    ensures forall n :: n in Tables(w)[d] ==> Tables(w)[d][n].holders != [] && NoDup(Tables(w)[d][n].holders) && Short(n)
  {
    forall n | n in Tables(w)[d]
      ensures Tables(w)[d][n].holders != [] && NoDup(Tables(w)[d][n].holders) && Short(n)
    {
      HoldersFine(w, d, n);
    }
  }

  lemma {:induction false} ReleaseNamesKeeps(w: World, d: Dev, names: seq<string>, who: Client)
    requires Good(w) && d in w.props && (forall n :: n in names ==> Short(n))
    ensures var w' := ReleaseNames(w, d, names, who);
            Good(w') && Tables(w') == Tables(w)[d := KeepNames(Tables(w)[d], names, iset{who})]
    decreases |names|
  {
    hide Good, Tables, ReleaseLock, Short, KeepLock, KeepNames, ReleaseSpec;
    TablesHas(w, d);
    var t := Tables(w)[d];
    if names == [] {
      KeepNoNames(t, iset{who});
    } else {
      var n := names[0];
      ReleaseIsGood(w, d, n, who);
      AllHoldersFine(w, d);
      ReleaseKeeps(t, n, who);
      var w1 := ReleaseLock(w, d, n, who).1;
      ReleaseNamesKeeps(w1, d, names[1..], who);
      KeepNamesStep(t, n, names[1..], iset{who});
      assert [n] + names[1..] == names;
    }
  }

  lemma TablesHas(w: World, d: Dev)
    requires d in w.props
    ensures d in Tables(w) && Tables(w)[d] == Abs(w.props[d])
  {
  }

  lemma KeepNoNames(t: Table, gone: iset<Client>)
    ensures KeepNames(t, [], gone) == t
  {
  }

  lemma KeepAllNames(t: Table, names: seq<string>, gone: iset<Client>)
    requires forall n :: n in t ==> n in names
    ensures KeepNames(t, names, gone) == Keep(t, gone)
  {
  }

  lemma {:induction false} KickHoldersKeeps(w: World, d: Dev, n: string, holders: seq<Client>, access: (Dev, Client) -> bool)
    requires Good(w) && d in w.props && Short(n)
    ensures var w' := KickHolders(w, d, n, holders, access);
            Good(w') && Tables(w') == Tables(w)[d := KeepLock(Tables(w)[d], n, iset c | c in holders && !access(d, c))]
    decreases |holders|
  {
    hide Good, Tables, ReleaseLock, Short, KeepLock, ReleaseSpec;
    TablesHas(w, d);
    var t := Tables(w)[d];
    var gone := iset c | c in holders && !access(d, c);
    AllHoldersFine(w, d);
    if holders == [] {
      KeepLockNothing(t, n, gone);
    } else {
      var h := holders[0];
      var rest := iset c | c in holders[1..] && !access(d, c);
      assert forall c :: c in holders <==> c == h || c in holders[1..];
      if access(d, h) {
        assert gone == rest;
        KickHoldersKeeps(w, d, n, holders[1..], access);
      } else {
        ReleaseIsGood(w, d, n, h);
        ReleaseKeeps(t, n, h);
        KickHoldersKeeps(ReleaseLock(w, d, n, h).1, d, n, holders[1..], access);
        assert gone == iset{h} + rest;
        KeepLockTwice(t, n, iset{h}, rest);
      }
    }
  }

  lemma KeepLockNothing(t: Table, n: string, gone: iset<Client>)
    requires gone == iset{} && (n in t ==> t[n].holders != [])
    ensures KeepLock(t, n, gone) == t
  {
    if n in t {
      FilterNothing(t[n].holders, gone);
      assert t[n].(holders := t[n].holders) == t[n];
      assert t[n := t[n]] == t;
    }
  }

  ghost function Denied(access: (Dev, Client) -> bool, d: Dev): iset<Client> {
    iset c | !access(d, c)
  }

  lemma KeepLockSame(t: Table, n: string, a: iset<Client>, b: iset<Client>)
    requires n in t ==> forall c :: c in t[n].holders ==> (c in a <==> c in b)
    ensures KeepLock(t, n, a) == KeepLock(t, n, b)
  {
    if n in t {
      FilterSame(t[n].holders, a, b);
    }
  }

  /** All holders of one lock are looked at. */
  lemma KickingIsExact(w: World, d: Dev, n: string, access: (Dev, Client) -> bool)
    requires Good(w) && d in w.props && Short(n)
    ensures var w' := KickHolders(w, d, n, GetList(w.props[d], Key(n, HOLDERS)), access);
            Good(w') && Tables(w') == Tables(w)[d := KeepLock(Tables(w)[d], n, Denied(access, d))]
  {
    hide Good, Tables, KeepLock, Short, Key, KickHolders;
    TablesHas(w, d);
    var h := GetList(w.props[d], Key(n, HOLDERS));
    KickHoldersKeeps(w, d, n, h, access);
    if n in Tables(w)[d] {
      HoldersFine(w, d, n);
    }
    KeepLockSame(Tables(w)[d], n, (iset c | c in h && !access(d, c)), Denied(access, d));
  }

  lemma {:induction false} ValidateNamesKeeps(w: World, d: Dev, names: seq<string>, access: (Dev, Client) -> bool)
    requires Good(w) && d in w.props && (forall n :: n in names ==> Short(n))
    ensures var w' := ValidateNames(w, d, names, access);
            Good(w') && Tables(w') == Tables(w)[d := KeepNames(Tables(w)[d], names, Denied(access, d))]
    decreases |names|
  {
    hide Good, Tables, Short, Key, KeepLock, KeepNames, KickHolders;
    TablesHas(w, d);
    var t := Tables(w)[d];
    if names == [] {
      KeepNoNames(t, Denied(access, d));
    } else {
      var n := names[0];
      KickingIsExact(w, d, n, access);
      AllHoldersFine(w, d);
      var w1 := KickHolders(w, d, n, GetList(w.props[d], Key(n, HOLDERS)), access);
      ValidateNamesKeeps(w1, d, names[1..], access);
      KeepNamesStep(t, n, names[1..], Denied(access, d));
      assert [n] + names[1..] == names;
    }
  }

  lemma NamesAreKeys(w: World, d: Dev)
    requires Good(w) && d in w.props
    ensures forall n :: n in GetList(w.props[d], LOCKS) ==> Short(n)
    ensures forall n :: n in Tables(w)[d] ==> n in GetList(w.props[d], LOCKS)
  {
    hide Key, Short, Encodes;
  }

  /** The tables of the devices in `devs`, each without its own `gone` holders. */
  ghost function KeepDevices(ts: map<Dev, Table>, devs: seq<Dev>, gone: Dev -> iset<Client>): map<Dev, Table> {
    map d | d in ts :: if d in devs then Keep(ts[d], gone(d)) else ts[d]
  }

  /** Every device's table without the holders in `gone`. */
  ghost function KeepAll(ts: map<Dev, Table>, gone: iset<Client>): map<Dev, Table> {
    map d | d in ts :: Keep(ts[d], gone)
  }

  lemma KeepTwice(t: Table, gone: iset<Client>)
    ensures Keep(Keep(t, gone), gone) == Keep(t, gone)
  {
    forall n | n in t
      ensures Filter(Filter(t[n].holders, gone), gone) == Filter(t[n].holders, gone)
    {
      FilterTwice(t[n].holders, gone, gone);
      assert gone + gone == gone;
    }
  }

  lemma KeepDevicesStep(ts: map<Dev, Table>, d: Dev, rest: seq<Dev>, gone: Dev -> iset<Client>)
    requires d in ts
    ensures KeepDevices(ts[d := Keep(ts[d], gone(d))], rest, gone) == KeepDevices(ts, [d] + rest, gone)
  {
    hide Keep;
    KeepTwice(ts[d], gone(d));
  }

  lemma KeepDevicesAppend(ts: map<Dev, Table>, a: seq<Dev>, b: seq<Dev>, gone: Dev -> iset<Client>)
    ensures KeepDevices(KeepDevices(ts, a, gone), b, gone) == KeepDevices(ts, a + b, gone)
  {
    hide Keep;
    forall d | d in ts
      ensures Keep(Keep(ts[d], gone(d)), gone(d)) == Keep(ts[d], gone(d))
    {
      KeepTwice(ts[d], gone(d));
    }
  }

  lemma {:induction false} DisconnectedKeeps(w: World, devs: seq<Dev>, who: Client)
    requires Good(w) && forall d :: d in devs ==> d in w.props
    ensures var w' := Disconnected(w, devs, who);
            Good(w') && Tables(w') == KeepDevices(Tables(w), devs, (d: Dev) => iset{who})
    decreases |devs|
  {
    hide Good, Tables, Short, ReleaseNames, KeepNames, Keep;
    if devs != [] {
      var d := devs[0];
      TablesHas(w, d);
      NamesAreKeys(w, d);
      var names := GetList(w.props[d], LOCKS);
      ReleaseNamesKeeps(w, d, names, who);
      KeepAllNames(Tables(w)[d], names, iset{who});
      DisconnectedKeeps(ReleaseNames(w, d, names, who), devs[1..], who);
      KeepDevicesStep(Tables(w), d, devs[1..], (d: Dev) => iset{who});
      assert [d] + devs[1..] == devs;
    }
  }

  lemma {:induction false} ValidatedKeeps(w: World, devs: seq<Dev>, access: (Dev, Client) -> bool)
    requires Good(w) && forall d :: d in devs ==> d in w.props
    ensures var w' := Validated(w, devs, access);
            Good(w') && Tables(w') == KeepDevices(Tables(w), devs, (d: Dev) => Denied(access, d))
    decreases |devs|
  {
    hide Good, Tables, Short, ValidateNames, KeepNames, Keep;
    if devs != [] {
      var d := devs[0];
      TablesHas(w, d);
      NamesAreKeys(w, d);
      var names := GetList(w.props[d], LOCKS);
      ValidateNamesKeeps(w, d, names, access);
      KeepAllNames(Tables(w)[d], names, Denied(access, d));
      ValidatedKeeps(ValidateNames(w, d, names, access), devs[1..], access);
      KeepDevicesStep(Tables(w), d, devs[1..], (d: Dev) => Denied(access, d));
      assert [d] + devs[1..] == devs;
    }
  }

  /** A disconnecting client loses exactly its own holdings, on every device there is. */
  lemma DisconnectIsExact(w: World, who: Client)
    requires Good(w)
    ensures var w' := Disconnected(w, w.locked, who);
            && Good(w')
            && Tables(w') == KeepAll(Tables(w), iset{who})
  {
    hide Encoded, Keep, Abs, Disconnected;
    DisconnectedKeeps(w, w.locked, who);
    forall d | d in w.props && d !in w.locked
      ensures Keep(Tables(w)[d], iset{who}) == Tables(w)[d]
    {
      LockedIsNonEmpty(w, d);
      KeepEmpty(iset{who});
    }
  }

  lemma KeepEmpty(gone: iset<Client>)
    ensures Keep(map[], gone) == map[]
  {
  }

  // The same in terms of who holds what.

  ghost predicate Holds(ts: map<Dev, Table>, d: Dev, n: string, c: Client) {
    d in ts && n in ts[d] && c in ts[d][n].holders
  }

  lemma KeepHolds(t: Table, gone: iset<Client>, n: string, c: Client)
    ensures n in Keep(t, gone) && c in Keep(t, gone)[n].holders <==> n in t && c in t[n].holders && c !in gone
    ensures n in Keep(t, gone) ==> Keep(t, gone)[n].exclusive == t[n].exclusive
  {
    if n in t {
      FilterMembers(t[n].holders, gone);
    }
  }

  /** After a client disconnects it holds nothing, and nobody else has lost or gained anything. */
  lemma DisconnectedHoldings(w: World, who: Client, d: Dev, n: string, c: Client)
    requires Good(w)
    ensures Holds(Tables(Disconnected(w, w.locked, who)), d, n, c) <==> Holds(Tables(w), d, n, c) && c != who
  {
    hide Disconnected, Keep, Tables;
    DisconnectIsExact(w, who);
    if d in Tables(w) {
      KeepHolds(Tables(w)[d], iset{who}, n, c);
    }
  }

  /** After revalidation the remaining holders are exactly those that pass the access check. */
  lemma ValidatedHoldings(w: World, devs: seq<Dev>, access: (Dev, Client) -> bool, d: Dev, n: string, c: Client)
    requires Good(w) && forall x :: x in devs ==> x in w.props
    ensures Holds(Tables(Validated(w, devs, access)), d, n, c)
            <==> Holds(Tables(w), d, n, c) && (d in devs ==> access(d, c))
  {
    hide Validated, Keep, Tables;
    ValidatedKeeps(w, devs, access);
    if d in Tables(w) {
      KeepHolds(Tables(w)[d], Denied(access, d), n, c);
    }
  }

  // Runs.

  datatype Event =
    | Request(d: Dev, n: string, exclusive: bool, who: Client)
    | Relinquish(d: Dev, n: string, who: Client)
    | Disconnect(who: Client)
    | Validate(devs: seq<Dev>, access: (Dev, Client) -> bool)
    | Appear(d: Dev)
    | Finalize(d: Dev)
    | Write(d: Dev, k: string, v: Prop)
    | Erase(d: Dev, k: string)

  /** A property key the lock code owns. */
  predicate Reserved(k: string) {
    |k| >= |LOCKS| && k[..|LOCKS|] == LOCKS
  }

  /** What a run may contain in a given world: names that fit the key buffer, live devices, no other writer to the lock properties. */
  ghost predicate Allowed(w: World, e: Event) {
    match e
    case Request(d, n, _, _) => d in w.props && Short(n)
    case Relinquish(d, n, _) => d in w.props && Short(n)
    case Disconnect(_) => true
    case Validate(devs, _) => forall d :: d in devs ==> d in w.props
    case Appear(d) => d !in w.props
    case Finalize(d) => d in w.props
    case Write(d, k, _) => d in w.props && !Reserved(k)
    case Erase(d, k) => d in w.props && !Reserved(k)
  }

  /** The answer (FALSE where there is none) and the new world. */
  ghost function Step(w: World, e: Event): (bool, World)
    requires Good(w) && Allowed(w, e)
  {
    match e
    case Request(d, n, exclusive, who) => AcquireLock(w, d, n, exclusive, who)
    case Relinquish(d, n, who) => ReleaseLock(w, d, n, who)
    case Disconnect(who) => (false, Disconnected(w, w.locked, who))
    case Validate(devs, access) => (false, Validated(w, devs, access))
    case Appear(d) => (false, w.(props := w.props[d := map[]]))
    case Finalize(d) => (false, World(w.props - {d}, Remove(w.locked, d)))
    case Write(d, k, v) => (false, w.(props := w.props[d := w.props[d][k := v]]))
    case Erase(d, k) => (false, w.(props := w.props[d := w.props[d] - {k}]))
  }

  /** The same event on plain tables of locks. */
  ghost function Effect(ts: map<Dev, Table>, e: Event): (bool, map<Dev, Table>) {
    match e
    case Request(d, n, exclusive, who) =>
      if d !in ts then (false, ts)
      else var (ok, t) := AcquireSpec(ts[d], n, exclusive, who); (ok, ts[d := t])
    case Relinquish(d, n, who) =>
      if d !in ts then (false, ts)
      else var (ok, t) := ReleaseSpec(ts[d], n, who); (ok, ts[d := t])
    case Disconnect(who) => (false, KeepAll(ts, iset{who}))
    case Validate(devs, access) => (false, KeepDevices(ts, devs, (d: Dev) => Denied(access, d)))
    case Appear(d) => (false, ts[d := map[]])
    case Finalize(d) => (false, ts - {d})
    case Write(_, _, _) => (false, ts)
    case Erase(_, _) => (false, ts)
  }

  lemma LockKeysAreReserved(n: string, s: string)
    requires Short(n) && IsSuffix(s)
    ensures Reserved(Key(n, s)) && Reserved(LOCKS)
  {
    assert Key(n, s)[..|LOCKS|] == LOCKS;
  }

  /** Properties outside the reserved keys do not matter. */
  lemma OthersDoNotMatter(p: Props, p': Props)
    requires Encoded(p) && forall k :: Reserved(k) ==> (k in p <==> k in p') && (k in p ==> p'[k] == p[k])
    ensures Encoded(p') && Abs(p') == Abs(p) && (LOCKS in p' <==> LOCKS in p)
  {
    hide Key, Short, Reserved;
    LocksIsReserved();
    forall n | Short(n)
      ensures Encodes(p', n)
      ensures GetList(p', Key(n, HOLDERS)) == GetList(p, Key(n, HOLDERS))
      ensures GetBool(p', Key(n, EXCLUSIVE)) == GetBool(p, Key(n, EXCLUSIVE))
    {
      LockKeysAreReserved(n, EXCLUSIVE);
      LockKeysAreReserved(n, HOLDERS);
      LockKeysAreReserved(n, LOCKED);
      assert Encodes(p, n);
    }
  }

  lemma LocksIsReserved()
    ensures Reserved(LOCKS)
  {
    assert LOCKS[..|LOCKS|] == LOCKS;
  }

  lemma NothingIsEncoded()
    ensures Encoded(map[]) && Abs(map[]) == map[]
  {
    hide Key, Short;
  }

  /** Every event keeps the encoding and the list of locked devices, and does to the tables what it should. */
  lemma StepRefines(w: World, e: Event)
    requires Good(w) && Allowed(w, e)
    ensures Good(Step(w, e).1)
    ensures (Step(w, e).0, Tables(Step(w, e).1)) == Effect(Tables(w), e)
  {
    hide Good, Tables, Short, AcquireLock, ReleaseLock, Reserved, Disconnected, Validated, Keep, KeepDevices,
         AcquireSpec, ReleaseSpec, Remove;
    TablesDomain(w);
    match e
    case Request(d, n, exclusive, who) => AcquireIsGood(w, d, n, exclusive, who);
    case Relinquish(d, n, who) => ReleaseIsGood(w, d, n, who);
    case Disconnect(who) => DisconnectIsExact(w, who);
    case Validate(devs, access) => ValidatedKeeps(w, devs, access);
    case Appear(d) => AppearIsGood(w, d);
    case Finalize(d) => FinalizeIsGood(w, d);
    case Write(d, k, v) => OtherIsGood(w, d, w.props[d][k := v]);
    case Erase(d, k) => OtherIsGood(w, d, w.props[d] - {k});
  }

  lemma TablesDomain(w: World)
    ensures Tables(w).Keys == w.props.Keys
  {
  }

  lemma AppearIsGood(w: World, d: Dev)
    requires Good(w) && d !in w.props
    ensures var w' := w.(props := w.props[d := map[]]);
            Good(w') && Tables(w') == Tables(w)[d := map[]]
  {
    hide Encoded, Abs;
    NothingIsEncoded();
  }

  lemma FinalizeIsGood(w: World, d: Dev)
    requires Good(w) && d in w.props
    ensures var w' := World(w.props - {d}, Remove(w.locked, d));
            Good(w') && Tables(w') == Tables(w) - {d}
  {
    hide Encoded, Abs;
    RemoveMembers(w.locked, d);
  }

  lemma OtherIsGood(w: World, d: Dev, p: Props)
    requires Good(w) && d in w.props
    requires forall k :: Reserved(k) ==> (k in w.props[d] <==> k in p) && (k in w.props[d] ==> p[k] == w.props[d][k])
    ensures var w' := w.(props := w.props[d := p]);
            Good(w') && Tables(w') == Tables(w)
  {
    hide Encoded, Abs;
    OthersDoNotMatter(w.props[d], p);
  }

  ghost predicate AllAllowed(w: World, es: seq<Event>)
    requires Good(w)
    decreases |es|
  {
    es == [] || (Allowed(w, es[0]) && (StepRefines(w, es[0]); AllAllowed(Step(w, es[0]).1, es[1..])))
  }

  ghost function Run(w: World, es: seq<Event>): (r: World)
    requires Good(w) && AllAllowed(w, es)
    ensures Good(r)
    decreases |es|
  {
    if es == [] then w else StepRefines(w, es[0]); Run(Step(w, es[0]).1, es[1..])
  }

  /** The answers of a run, in order. */
  ghost function Answers(w: World, es: seq<Event>): (r: seq<bool>)
    requires Good(w) && AllAllowed(w, es)
    ensures |r| == |es|
    decreases |es|
  {
    if es == [] then [] else StepRefines(w, es[0]); [Step(w, es[0]).0] + Answers(Step(w, es[0]).1, es[1..])
  }

  ghost function EffectRun(ts: map<Dev, Table>, es: seq<Event>): map<Dev, Table>
    decreases |es|
  {
    if es == [] then ts else EffectRun(Effect(ts, es[0]).1, es[1..])
  }

  /** Over every run the properties and the list of locked devices carry out the tables of locks. */
  lemma {:induction false} RunRefines(w: World, es: seq<Event>)
    requires Good(w) && AllAllowed(w, es)
    ensures Good(Run(w, es)) && Tables(Run(w, es)) == EffectRun(Tables(w), es)
    decreases |es|
  {
    hide Good, Tables, Effect, Step;
    if es != [] {
      StepRefines(w, es[0]);
      RunRefines(Step(w, es[0]).1, es[1..]);
    }
  }

  /** `a` alone holds lock `n` of `d`, and the lock is marked exclusive. */
  ghost predicate Owned(ts: map<Dev, Table>, d: Dev, n: string, a: Client) {
    d in ts && n in ts[d] && ts[d][n] == Lock([a], true)
  }

  /** The events that take lock `n` of `d` away from `a`. */
  ghost predicate Ends(e: Event, d: Dev, n: string, a: Client) {
    match e
    case Relinquish(x, m, who) => x == d && m == n && who == a
    case Disconnect(who) => who == a
    case Validate(devs, access) => d in devs && !access(d, a)
    case Appear(x) => x == d
    case Finalize(x) => x == d
    case _ => false
  }

  lemma KeepsOwner(t: Table, n: string, a: Client, gone: iset<Client>)
    requires n in t && t[n] == Lock([a], true) && a !in gone
    ensures n in Keep(t, gone) && Keep(t, gone)[n] == t[n]
  {
    FilterNothing(t[n].holders, gone);
  }

  lemma OwnedStays(ts: map<Dev, Table>, e: Event, d: Dev, n: string, a: Client)
    requires Owned(ts, d, n, a) && !Ends(e, d, n, a)
    ensures Owned(Effect(ts, e).1, d, n, a)
    ensures e.Request? && e.d == d && e.n == n ==> !Effect(ts, e).0
  {
    hide Keep;
    match e
    case Disconnect(who) => KeepsOwner(ts[d], n, a, iset{who});
    case Validate(devs, access) =>
      if d in devs {
        KeepsOwner(ts[d], n, a, Denied(access, d));
      }
    case _ =>
  }

  lemma {:induction false} OwnedExcludes(w: World, es: seq<Event>, d: Dev, n: string, a: Client)
    requires Good(w) && AllAllowed(w, es) && Owned(Tables(w), d, n, a)
    requires forall i :: 0 <= i < |es| ==> !Ends(es[i], d, n, a)
    ensures Owned(Tables(Run(w, es)), d, n, a)
    ensures forall i :: 0 <= i < |es| && es[i].Request? && es[i].d == d && es[i].n == n ==> !Answers(w, es)[i]
    decreases |es|
  {
    hide Good, Tables, Effect, Step, Ends, Owned, Allowed;
    if es != [] {
      StepRefines(w, es[0]);
      OwnedStays(Tables(w), es[0], d, n, a);
      var w1 := Step(w, es[0]).1;
      assert forall i :: 0 <= i < |es[1..]| ==> es[1..][i] == es[i + 1];
      OwnedExcludes(w1, es[1..], d, n, a);
      assert Answers(w, es) == [Step(w, es[0]).0] + Answers(w1, es[1..]);
      forall i | 0 <= i < |es| && es[i].Request? && es[i].d == d && es[i].n == n
        ensures !Answers(w, es)[i]
      {
        if i > 0 {
          var j := i - 1;
          assert es[1..][j] == es[i];
        }
      }
    }
  }

  /**
   Exclusive grants exclude: once an exclusive request is answered TRUE, its holder stays the only holder
   and every other request for that lock is refused, until one of the events that end the grant.
   */
  lemma ExclusiveGrantExcludes(w: World, d: Dev, n: string, a: Client, es: seq<Event>)
    requires Good(w) && AllAllowed(w, [Request(d, n, true, a)] + es)
    requires Step(w, Request(d, n, true, a)).0
    requires forall i :: 0 <= i < |es| ==> !Ends(es[i], d, n, a)
    ensures var run := [Request(d, n, true, a)] + es;
            && Owned(Tables(Run(w, run)), d, n, a)
            && (forall i :: 0 < i < |run| && run[i].Request? && run[i].d == d && run[i].n == n ==> !Answers(w, run)[i])
  {
    hide Good, Tables, Step, Ends, Allowed;
    var e := Request(d, n, true, a);
    var run := [e] + es;
    assert run[0] == e && run[1..] == es;
    assert Allowed(w, e);
    StepRefines(w, e);
    var w1 := Step(w, e).1;
    assert Owned(Tables(w1), d, n, a);
    OwnedExcludes(w1, es, d, n, a);
    assert Answers(w, run) == [Step(w, e).0] + Answers(w1, es);
    forall i | 0 < i < |run| && run[i].Request? && run[i].d == d && run[i].n == n
      ensures !Answers(w, run)[i]
    {
      var j := i - 1;
      assert es[j] == run[i];
    }
  }

  // Who holds what after a request or a release.

  lemma AcquiredHoldings(t: Table, n: string, exclusive: bool, who: Client, m: string, c: Client)
    ensures var (ok, t') := AcquireSpec(t, n, exclusive, who);
            m in t' && c in t'[m].holders <==> (m in t && c in t[m].holders) || (ok && m == n && c == who)
  {
  }

  lemma GrantsAppend(t: Table, n: string, exclusive: bool, who: Client)
    ensures var (ok, t') := AcquireSpec(t, n, exclusive, who);
            ok ==> n in t' && t'[n].holders == (if n in t then t[n].holders else []) + [who]
  {
  }

  /** A granted request makes the caller the last holder, a refused one changes no holding; nobody else's holdings change. */
  lemma RequestHoldings(w: World, d: Dev, n: string, exclusive: bool, who: Client, x: Dev, m: string, c: Client)
    requires Good(w) && d in w.props && Short(n)
    ensures var (ok, w') := Step(w, Request(d, n, exclusive, who));
            && (Holds(Tables(w'), x, m, c) <==> Holds(Tables(w), x, m, c) || (ok && x == d && m == n && c == who))
            && (ok ==> var before := if d in Tables(w) && n in Tables(w)[d] then Tables(w)[d][n].holders else [];
                       Held(Tables(w'), d, n) && Tables(w')[d][n].holders == before + [who])
  {
    GrantsAppend(Tables(w)[d], n, exclusive, who);
    hide Good, Tables, Step, AcquireSpec, Short;
    RequestAt(w, d, n, exclusive, who);
    StepRefines(w, Request(d, n, exclusive, who));
    AcquiredHoldings(Tables(w)[d], n, exclusive, who, m, c);
  }

  lemma ReleasedHoldings(t: Table, n: string, who: Client, m: string, c: Client)
    requires n in t ==> t[n].holders != [] && NoDup(t[n].holders)
    ensures var (ok, t') := ReleaseSpec(t, n, who);
            && (ok <==> n in t && who in t[n].holders)
            && (m in t' && c in t'[m].holders <==> m in t && c in t[m].holders && !(m == n && c == who))
  {
    if n in t {
      RemoveMembers(t[n].holders, who);
      if |t[n].holders| == 1 && who in t[n].holders {
        assert t[n].holders == [who];
      }
    }
  }

  /** A release succeeds exactly for a holder, and takes away that holding and no other. */
  lemma ReleaseHoldings(w: World, d: Dev, n: string, who: Client, x: Dev, m: string, c: Client)
    requires Good(w) && d in w.props && Short(n)
    ensures var (ok, w') := Step(w, Relinquish(d, n, who));
            && (ok <==> Holds(Tables(w), d, n, who))
            && (Holds(Tables(w'), x, m, c) <==> Holds(Tables(w), x, m, c) && !(x == d && m == n && c == who))
  {
    hide Good, Tables, Step, ReleaseSpec, Short;
    TablesHas(w, d);
    StepRefines(w, Relinquish(d, n, who));
    AllHoldersFine(w, d);
    ReleasedHoldings(Tables(w)[d], n, who, m, c);
  }

  // What the `.exclusive` flag comes to mean, since a refused request raises it too (hald/device.c:1746-1752).

  ghost predicate Held(ts: map<Dev, Table>, d: Dev, n: string) {
    d in ts && n in ts[d]
  }

  predicate AsksExclusively(e: Event, d: Dev, n: string) {
    e.Request? && e.d == d && e.n == n && e.exclusive
  }

  /** An exclusive request for the lock, granted or refused, was made, and the lock has been held ever since. */
  ghost predicate AskedSinceFree(ts: map<Dev, Table>, es: seq<Event>, d: Dev, n: string) {
    exists i :: AskedAt(ts, es, d, n, i)
  }

  ghost predicate AskedAt(ts: map<Dev, Table>, es: seq<Event>, d: Dev, n: string, i: int) {
    && 0 <= i < |es| && AsksExclusively(es[i], d, n)
    && forall k :: i < k <= |es| ==> Held(EffectRun(ts, es[..k]), d, n)
  }

  lemma {:induction false} EffectRunSnoc(ts: map<Dev, Table>, es: seq<Event>, e: Event)
    ensures EffectRun(ts, es + [e]) == Effect(EffectRun(ts, es), e).1
    decreases |es|
  {
    hide Effect;
    if es == [] {
      assert [e][1..] == [];
    } else {
      assert (es + [e])[1..] == es[1..] + [e];
      EffectRunSnoc(Effect(ts, es[0]).1, es[1..], e);
    }
  }

  /** One event: the flag of a lock that stays held is raised by exactly the exclusive requests, all of them refused. */
  lemma FlagIsRaisedIff(ts: map<Dev, Table>, e: Event, d: Dev, n: string)
    requires Held(ts, d, n) && Held(Effect(ts, e).1, d, n)
    ensures Effect(ts, e).1[d][n].exclusive <==> ts[d][n].exclusive || AsksExclusively(e, d, n)
    ensures AsksExclusively(e, d, n) ==> !Effect(ts, e).0
  {
  }

  /** A free lock is taken by a granted request, and then the flag says what was asked for. */
  lemma FreeLockIsTaken(ts: map<Dev, Table>, e: Event, d: Dev, n: string)
    requires !Held(ts, d, n) && Held(Effect(ts, e).1, d, n)
    ensures e.Request? && e.d == d && e.n == n && Effect(ts, e).0
    ensures Effect(ts, e).1[d][n].exclusive == e.exclusive
  {
  }

  /** Being asked for since the lock was free, one event later. */
  lemma AskedSnoc(ts: map<Dev, Table>, es: seq<Event>, e: Event, d: Dev, n: string)
    requires Held(EffectRun(ts, es + [e]), d, n)
    ensures AskedSinceFree(ts, es + [e], d, n)
            <==> AsksExclusively(e, d, n) || (Held(EffectRun(ts, es), d, n) && AskedSinceFree(ts, es, d, n))
  {
    hide Held, EffectRun, AsksExclusively;
    var l := es + [e];
    assert l[..|l|] == l && l[..|es|] == es && es[..|es|] == es;
    assert forall k :: 0 <= k <= |es| ==> l[..k] == es[..k];
    if AsksExclusively(e, d, n) {
      assert AskedAt(ts, l, d, n, |es|);
    } else if Held(EffectRun(ts, es), d, n) && AskedSinceFree(ts, es, d, n) {
      var i :| AskedAt(ts, es, d, n, i);
      assert AskedAt(ts, l, d, n, i);
    }
    if AskedSinceFree(ts, l, d, n) && !AsksExclusively(e, d, n) {
      var i :| AskedAt(ts, l, d, n, i);
      assert Held(EffectRun(ts, l[..|es|]), d, n);
      forall k | i < k <= |es|
        ensures Held(EffectRun(ts, es[..k]), d, n)
      {
        assert Held(EffectRun(ts, l[..k]), d, n);
      }
      assert AskedAt(ts, es, d, n, i);
    }
  }

  /** Over every run: while a lock is held its flag is up iff somebody asked for it exclusively since it was last free. */
  lemma {:induction false} FlagMeansAsked(ts: map<Dev, Table>, es: seq<Event>, d: Dev, n: string)
    requires !Held(ts, d, n)
    ensures Held(EffectRun(ts, es), d, n) ==>
              (EffectRun(ts, es)[d][n].exclusive <==> AskedSinceFree(ts, es, d, n))
    decreases |es|
  {
    if es != [] {
      var m := |es| - 1;
      var before, e := es[..m], es[m];
      assert es == before + [e];
      EffectRunSnoc(ts, before, e);
      FlagMeansAsked(ts, before, d, n);
      hide Effect, EffectRun, AskedSinceFree, AsksExclusively;
      var t := EffectRun(ts, before);
      if Held(Effect(t, e).1, d, n) {
        AskedSnoc(ts, before, e, d, n);
        if Held(t, d, n) {
          FlagIsRaisedIff(t, e, d, n);
        } else {
          FreeLockIsTaken(t, e, d, n);
          TakenAsAsked(e, d, n);
        }
      }
    }
  }

  lemma TakenAsAsked(e: Event, d: Dev, n: string)
    requires e.Request? && e.d == d && e.n == n
    ensures AsksExclusively(e, d, n) <==> e.exclusive
  {
  }

  lemma {:induction false} AnswersSnoc(w: World, es: seq<Event>, e: Event)
    requires Good(w) && AllAllowed(w, es + [e])
    ensures AllAllowed(w, es) && Allowed(Run(w, es), e)
    ensures Answers(w, es + [e])[|es|] == Step(Run(w, es), e).0
    decreases |es|
  {
    hide Good, Step, Allowed;
    if es == [] {
      assert [] + [e] == [e] && [e][1..] == [];
    } else {
      assert (es + [e])[1..] == es[1..] + [e] && (es + [e])[0] == es[0];
      StepRefines(w, es[0]);
      AnswersSnoc(Step(w, es[0]).1, es[1..], e);
    }
  }

  /**
   What requests are answered, over every run from a state in which the lock is free: an exclusive request is refused iff the lock
   is held; a shared one iff the caller holds it already, or somebody (even if refused) asked for it exclusively since it was free.
   */
  lemma RequestRefusedIff(w: World, es: seq<Event>, d: Dev, n: string, exclusive: bool, c: Client)
    requires Good(w) && !Held(Tables(w), d, n) && AllAllowed(w, es + [Request(d, n, exclusive, c)])
    ensures AllAllowed(w, es)
    ensures var ts := Tables(Run(w, es));
            !Answers(w, es + [Request(d, n, exclusive, c)])[|es|]
            <==> if exclusive then Held(ts, d, n)
                 else Holds(ts, d, n, c) || (Held(ts, d, n) && AskedSinceFree(Tables(w), es, d, n))
  {
    hide Good, Tables, Step, AllAllowed, Answers, AskedSinceFree, EffectRun;
    var e := Request(d, n, exclusive, c);
    AnswersSnoc(w, es, e);
    RunRefines(w, es);
    FlagMeansAsked(Tables(w), es, d, n);
    var w1 := Run(w, es);
    TablesHas(w1, d);
    StepRefines(w1, e);
  }

  /** A refused exclusive request keeps others out of a shared lock that they would have got. */
  lemma RefusedExclusiveBlocksSharing(w: World, d: Dev, n: string, a: Client, b: Client, c: Client)
    requires Good(w) && d in w.props && Short(n) && !Held(Tables(w), d, n) && c != a
    ensures var shared, asked, late := Request(d, n, false, a), Request(d, n, true, b), Request(d, n, false, c);
            && AllAllowed(w, [shared, late]) && Answers(w, [shared, late]) == [true, true]
            && AllAllowed(w, [shared, asked, late]) && Answers(w, [shared, asked, late]) == [true, false, false]
  {
    hide Good, Tables, Step, Effect, AcquireSpec, Short, Allowed, Answers, AllAllowed;
    var shared, asked, late := Request(d, n, false, a), Request(d, n, true, b), Request(d, n, false, c);
    RequestAt(w, d, n, false, a);
    var w1 := Step(w, shared).1;
    RequestAt(w1, d, n, true, b);
    RequestAt(w1, d, n, false, c);
    var w2 := Step(w1, asked).1;
    RequestAt(w2, d, n, false, c);
    ThreeRequests(Tables(w)[d], n, a, b, c);
    OneAnswer(w1, late, []);
    OneAnswer(w, shared, [late]);
    OneAnswer(w2, late, []);
    OneAnswer(w1, asked, [late]);
    OneAnswer(w, shared, [asked, late]);
    NoAnswers(Step(w1, late).1);
    NoAnswers(Step(w2, late).1);
    assert [late] + [] == [late] && [shared] + [late] == [shared, late] && [asked] + [late] == [asked, late]
        && [shared] + [asked, late] == [shared, asked, late];
  }

  lemma NoAnswers(w: World)
    requires Good(w)
    ensures AllAllowed(w, []) && Answers(w, []) == []
  {
  }

  lemma ThreeRequests(t: Table, n: string, a: Client, b: Client, c: Client)
    requires n !in t && c != a
    ensures var (ok1, t1) := AcquireSpec(t, n, false, a);
            var (ok2, t2) := AcquireSpec(t1, n, true, b);
            ok1 && !ok2 && AcquireSpec(t1, n, false, c).0 && !AcquireSpec(t2, n, false, c).0
  {
  }

  /** A request to a device that is there. */
  lemma RequestAt(w: World, d: Dev, n: string, exclusive: bool, c: Client)
    requires Good(w) && d in w.props && Short(n)
    ensures var e := Request(d, n, exclusive, c);
            && Allowed(w, e) && d in Tables(w)
            && var (ok, w') := Step(w, e);
               && Good(w') && d in w'.props && d in Tables(w')
               && (ok, Tables(w')[d]) == AcquireSpec(Tables(w)[d], n, exclusive, c)
  {
    hide Good, Tables, AcquireSpec, Short, AcquireLock;
    TablesHas(w, d);
    StepRefines(w, Request(d, n, exclusive, c));
    TablesDomain(Step(w, Request(d, n, exclusive, c)).1);
  }

  lemma OneAnswer(w: World, e: Event, es: seq<Event>)
    requires Good(w) && Allowed(w, e) && Good(Step(w, e).1)
    ensures AllAllowed(w, [e] + es) <==> AllAllowed(Step(w, e).1, es)
    ensures AllAllowed(Step(w, e).1, es) ==> Answers(w, [e] + es) == [Step(w, e).0] + Answers(Step(w, e).1, es)
  {
    hide Good, Step, Allowed;
    assert ([e] + es)[1..] == es;
  }

  /** The empty system. */
  lemma NothingIsGood()
    ensures Good(World(map[], []))
  {
  }
}
