/**
 The device store and its property index (hald/device_store.c), kept current by the signals
 that devices emit around property changes (hald/device.c).
 */
module DeviceStore {
  import opened Options
  import opened Lists

  type Text = string
  type Dev = nat

  /** A property value; everything but a string is the same to the index. */
  datatype Prop = Str(s: Text) | Int32(i: int) | UInt64(u: nat) | Boolean(b: bool) | Double(r: real) | StrList(l: seq<Text>)

  type Props = map<Text, Prop>
  type Index = map<Text, map<Text, seq<Dev>>>

  predicate SameType(p: Prop, q: Prop) {
    || (p.Str? && q.Str?) || (p.Int32? && q.Int32?) || (p.UInt64? && q.UInt64?)
    || (p.Boolean? && q.Boolean?) || (p.Double? && q.Double?) || (p.StrList? && q.StrList?)
  }

  /** All devices, stored or not. */
  datatype Devices = Devices(udi: map<Dev, Text>, props: map<Dev, Props>)

  /** A store: its device list, its index, and how often it listens to each device. */
  datatype Store = Store(devices: seq<Dev>, index: Index, connections: multiset<Dev>)

  function StringOf(ds: Devices, d: Dev, k: Text): Option<Text> {
    if d in ds.props && k in ds.props[d] && ds.props[d][k].Str? then Some(ds.props[d][k].s) else None
  }

  function Lookup(ix: Index, k: Text, v: Text): seq<Dev> {
    if k in ix && v in ix[k] then ix[k][v] else []
  }

  function RemoveAll(s: seq<Dev>, d: Dev): (r: seq<Dev>)
    ensures forall x :: x in r <==> x in s && x != d
  {
    if s == [] then [] else (if s[0] == d then [] else [s[0]]) + RemoveAll(s[1..], d)
  }

  /** `property_index_modify_string`: adds or removes a device under its present value. */
  function ModifyString(ix: Index, ds: Devices, d: Dev, k: Text, added: bool): Index {
    if k !in ix || StringOf(ds, d, k) == None then ix
    else
      var v := StringOf(ds, d, k).value;
      var list := Lookup(ix, k, v);
      ix[k := ix[k][v := if added then [d] + list else RemoveAll(list, d)]]
  }

  /** `property_index_check_all`: the same for every indexed key. */
  function CheckAll(ix: Index, ds: Devices, d: Dev, added: bool): (r: Index)
    ensures r.Keys == ix.Keys
  {
    map k | k in ix :: ModifyString(ix, ds, d, k, added)[k]
  }

  predicate ValidUdi(ds: Devices, d: Dev) {
    d in ds.udi && "/org/freedesktop/Hal/devices/" <= ds.udi[d]
  }

  function AddDevice(st: Store, ds: Devices, d: Dev): Store {
    if !ValidUdi(ds, d) then st
    else Store([d] + st.devices, CheckAll(st.index, ds, d, true), st.connections + multiset{d})
  }

  function RemoveDevice(st: Store, ds: Devices, d: Dev): Store {
    if d !in st.devices then st
    else Store(Lists.Remove(st.devices, d), CheckAll(st.index, ds, d, false), st.connections[d := 0])
  }

  function IndexProperty(st: Store, k: Text): Store {
    if k in st.index then st else st.(index := st.index[k := map[]])
  }

  /** The `pre_property_changed` handler, once per connection. */
  function PreChange(st: Store, ds: Devices, d: Dev, k: Text, times: nat): Store
    decreases times
  {
    if times == 0 then st
    else PreChange(st.(index := ModifyString(st.index, ds, d, k, false)), ds, d, k, times - 1)
  }

  /** The `property_changed` handler, once per connection. */
  function PostChange(st: Store, ds: Devices, d: Dev, k: Text, times: nat): Store
    decreases times
  {
    if times == 0 then st
    else PostChange(st.(index := ModifyString(st.index, ds, d, k, true)), ds, d, k, times - 1)
  }

  datatype World = World(devices: Devices, gdl: Store, tdl: Store)

  function EmitPre(w: World, d: Dev, k: Text): World {
    w.(gdl := PreChange(w.gdl, w.devices, d, k, w.gdl.connections[d]),
       tdl := PreChange(w.tdl, w.devices, d, k, w.tdl.connections[d]))
  }

  function EmitPost(w: World, d: Dev, k: Text): World {
    w.(gdl := PostChange(w.gdl, w.devices, d, k, w.gdl.connections[d]),
       tdl := PostChange(w.tdl, w.devices, d, k, w.tdl.connections[d]))
  }

  function Put(ds: Devices, d: Dev, k: Text, p: Prop): Devices
    requires d in ds.props
  {
    ds.(props := ds.props[d := ds.props[d][k := p]])
  }

  /**
   The typed setters `hal_device_property_set_...`: refuse another type, ignore an equal value,
   signal before and after a change. `asked` is the caller's value and `stored` what is kept of it
   (a string is made valid UTF-8 on the way in).
   */
  function SetProperty(w: World, d: Dev, k: Text, asked: Prop, stored: Prop): World {
    if d !in w.devices.props || !SameType(asked, stored) then w
    else if k in w.devices.props[d] then
      var had := w.devices.props[d][k];
      if !SameType(had, asked) || had == asked then w
      else
        var w1 := EmitPre(w, d, k);
        EmitPost(w1.(devices := Put(w1.devices, d, k, stored)), d, k)
    else EmitPost(w.(devices := Put(w.devices, d, k, stored)), d, k)
  }

  /** The string list operations change a list in place and signal only afterwards. */
  function EditStrList(w: World, d: Dev, k: Text, l: seq<Text>): World {
    if d !in w.devices.props || (k in w.devices.props[d] && !w.devices.props[d][k].StrList?) then w
    else EmitPost(w.(devices := Put(w.devices, d, k, StrList(l))), d, k)
  }

  function RemoveProperty(w: World, d: Dev, k: Text): World {
    if d !in w.devices.props || k !in w.devices.props[d] then w
    else
      var w1 := EmitPre(w, d, k);
      var ds := w1.devices.(props := w1.devices.props[d := w1.devices.props[d] - {k}]);
      EmitPost(w1.(devices := ds), d, k)
  }

  datatype Event =
    | Index(global: bool, key: Text)
    | Add(global: bool, d: Dev)
    | Remove(global: bool, d: Dev)
    | SetValue(d: Dev, key: Text, asked: Prop, stored: Prop)
    | SetList(d: Dev, key: Text, list: seq<Text>)
    | Drop(d: Dev, key: Text)

  function OnStore(w: World, global: bool, f: Store -> Store): World {
    if global then w.(gdl := f(w.gdl)) else w.(tdl := f(w.tdl))
  }

  function Step(w: World, e: Event): World {
    match e
    case Index(g, k) => OnStore(w, g, (st: Store) => IndexProperty(st, k))
    case Add(g, d) => OnStore(w, g, (st: Store) => AddDevice(st, w.devices, d))
    case Remove(g, d) => OnStore(w, g, (st: Store) => RemoveDevice(st, w.devices, d))
    case SetValue(d, k, asked, stored) => SetProperty(w, d, k, asked, stored)
    case SetList(d, k, l) => EditStrList(w, d, k, l)
    case Drop(d, k) => RemoveProperty(w, d, k)
  }

  // Coherence.

  /** What the index lists under a key and value: every stored device with that string, once. */
  ghost predicate Listed(st: Store, ds: Devices, k: Text, v: Text) {
    && NoDup(Lookup(st.index, k, v))
    && forall d :: d in Lookup(st.index, k, v) <==> d in st.devices && StringOf(ds, d, k) == Some(v)
  }

  ghost predicate Coherent(st: Store, ds: Devices) {
    && NoDup(st.devices)
    && (forall d :: st.connections[d] == if d in st.devices then 1 else 0)
    && (forall k, v :: k in st.index ==> Listed(st, ds, k, v))
  }

  lemma RemoveAllKeepsNoDup(s: seq<Dev>, d: Dev)
    requires NoDup(s)
    ensures NoDup(RemoveAll(s, d))
  {
    if s != [] {
      RemoveAllKeepsNoDup(s[1..], d);
      assert s[0] !in s[1..];
    }
  }

  /** In the middle of a change of `d`'s property `k`: coherent, but `d` is listed nowhere under `k`. */
  ghost predicate CoherentBut(st: Store, ds: Devices, d: Dev, k: Text) {
    && NoDup(st.devices)
    && (forall x :: st.connections[x] == if x in st.devices then 1 else 0)
    && (forall k', v :: k' in st.index ==> ListedBut(st, ds, k', v, d, k))
  }

  ghost predicate ListedBut(st: Store, ds: Devices, k: Text, v: Text, d0: Dev, k0: Text) {
    && NoDup(Lookup(st.index, k, v))
    && forall d :: d in Lookup(st.index, k, v) <==>
                   d in st.devices && StringOf(ds, d, k) == Some(v) && !(d == d0 && k == k0)
  }

  /** Removing a device from the list it is on. */
  lemma ModifyRemoves(st: Store, ds: Devices, d: Dev, k: Text)
    requires Coherent(st, ds)
    ensures CoherentBut(st.(index := ModifyString(st.index, ds, d, k, false)), ds, d, k)
  {
    var ix := ModifyString(st.index, ds, d, k, false);
    var st' := st.(index := ix);
    forall k', v | k' in ix
      ensures ListedBut(st', ds, k', v, d, k)
    {
      assert Listed(st, ds, k', v);
      RemoveAllKeepsNoDup(Lookup(st.index, k', v), d);
    }
  }

  /** Listing a device under its new value. */
  lemma ModifyAdds(st: Store, ds: Devices, d: Dev, k: Text)
    requires CoherentBut(st, ds, d, k) && d in st.devices
    ensures Coherent(st.(index := ModifyString(st.index, ds, d, k, true)), ds)
  {
    var ix := ModifyString(st.index, ds, d, k, true);
    var st' := st.(index := ix);
    forall k', v | k' in ix
      ensures Listed(st', ds, k', v)
    {
      assert ListedBut(st, ds, k', v, d, k);
      var list := Lookup(st.index, k', v);
      if k' == k && StringOf(ds, d, k) == Some(v) {
        assert Lookup(ix, k', v) == [d] + list;
      } else {
        assert Lookup(ix, k', v) == list;
      }
    }
  }

  lemma PreHandled(st: Store, ds: Devices, d: Dev, k: Text)
    requires Coherent(st, ds)
    ensures CoherentBut(PreChange(st, ds, d, k, st.connections[d]), ds, d, k)
  {
    ModifyRemoves(st, ds, d, k);
    if d !in st.devices {
      Elsewhere(st, ds, d, k);
    } else {
      assert PreChange(st, ds, d, k, 1) == PreChange(st.(index := ModifyString(st.index, ds, d, k, false)), ds, d, k, 0);
    }
  }

  lemma Elsewhere(st: Store, ds: Devices, d: Dev, k: Text)
    requires d !in st.devices || StringOf(ds, d, k) == None
    ensures Coherent(st, ds) <==> CoherentBut(st, ds, d, k)
  {
    if Coherent(st, ds) {
      forall k', v | k' in st.index
        ensures ListedBut(st, ds, k', v, d, k)
      {
        assert Listed(st, ds, k', v);
      }
    }
    if CoherentBut(st, ds, d, k) {
      forall k', v | k' in st.index
        ensures Listed(st, ds, k', v)
      {
        assert ListedBut(st, ds, k', v, d, k);
      }
    }
  }

  lemma PostHandled(st: Store, ds: Devices, d: Dev, k: Text)
    requires CoherentBut(st, ds, d, k)
    ensures Coherent(PostChange(st, ds, d, k, st.connections[d]), ds)
  {
    if d in st.devices {
      ModifyAdds(st, ds, d, k);
      assert PostChange(st, ds, d, k, 1) == PostChange(st.(index := ModifyString(st.index, ds, d, k, true)), ds, d, k, 0);
    } else {
      Elsewhere(st, ds, d, k);
    }
  }

  /** The devices differ at most in property `k` of device `d`. */
  ghost predicate SameBut(ds: Devices, ds': Devices, d: Dev, k: Text) {
    forall x, k' :: x != d || k' != k ==> StringOf(ds, x, k') == StringOf(ds', x, k')
  }

  lemma ChangeKeeps(st: Store, ds: Devices, ds': Devices, d: Dev, k: Text)
    requires CoherentBut(st, ds, d, k) && SameBut(ds, ds', d, k)
    ensures CoherentBut(st, ds', d, k)
  {
    forall k', v | k' in st.index
      ensures ListedBut(st, ds', k', v, d, k)
    {
      assert ListedBut(st, ds, k', v, d, k);
    }
  }

  /** Both handlers around a change, for one store. */
  lemma ChangeHandled(st: Store, ds: Devices, ds': Devices, d: Dev, k: Text)
    requires Coherent(st, ds) && SameBut(ds, ds', d, k)
    ensures var st1 := PreChange(st, ds, d, k, st.connections[d]);
            && st1.connections == st.connections
            && Coherent(PostChange(st1, ds', d, k, st.connections[d]), ds')
  {
    var st1 := PreChange(st, ds, d, k, st.connections[d]);
    PreHandled(st, ds, d, k);
    PreKeepsConnections(st, ds, d, k, st.connections[d]);
    ChangeKeeps(st1, ds, ds', d, k);
    PostHandled(st1, ds', d, k);
  }

  lemma {:induction false} PreKeepsConnections(st: Store, ds: Devices, d: Dev, k: Text, times: nat)
    ensures PreChange(st, ds, d, k, times).connections == st.connections
    decreases times
  {
    if times > 0 {
      PreKeepsConnections(st.(index := ModifyString(st.index, ds, d, k, false)), ds, d, k, times - 1);
    }
  }

  /** A value that was no string before needs no handling beforehand. */
  lemma FirstValueHandled(st: Store, ds: Devices, ds': Devices, d: Dev, k: Text)
    requires Coherent(st, ds) && SameBut(ds, ds', d, k) && StringOf(ds, d, k) == None
    ensures Coherent(PostChange(st, ds', d, k, st.connections[d]), ds')
  {
    Elsewhere(st, ds, d, k);
    ChangeKeeps(st, ds, ds', d, k);
    PostHandled(st, ds', d, k);
  }

  ghost predicate AllCoherent(w: World) {
    Coherent(w.gdl, w.devices) && Coherent(w.tdl, w.devices)
  }

  lemma CheckAllAt(ix: Index, ds: Devices, d: Dev, added: bool, k: Text, v: Text)
    requires k in ix
    ensures Lookup(CheckAll(ix, ds, d, added), k, v)
            == if StringOf(ds, d, k) == Some(v)
               then (if added then [d] + Lookup(ix, k, v) else RemoveAll(Lookup(ix, k, v), d))
               else Lookup(ix, k, v)
  {
  }

  lemma AddIsCoherent(st: Store, ds: Devices, d: Dev)
    requires Coherent(st, ds) && d !in st.devices
    ensures Coherent(AddDevice(st, ds, d), ds)
  {
    hide CheckAll, Lookup;
    var st' := AddDevice(st, ds, d);
    if ValidUdi(ds, d) {
      forall k, v | k in st'.index
        ensures Listed(st', ds, k, v)
      {
        assert Listed(st, ds, k, v);
        CheckAllAt(st.index, ds, d, true, k, v);
      }
    }
  }

  lemma RemoveIsCoherent(st: Store, ds: Devices, d: Dev)
    requires Coherent(st, ds)
    ensures Coherent(RemoveDevice(st, ds, d), ds)
  {
    hide CheckAll, Lookup;
    var st' := RemoveDevice(st, ds, d);
    if d in st.devices {
      RemoveMembers(st.devices, d);
      forall k, v | k in st'.index
        ensures Listed(st', ds, k, v)
      {
        assert Listed(st, ds, k, v);
        CheckAllAt(st.index, ds, d, false, k, v);
        RemoveAllKeepsNoDup(Lookup(st.index, k, v), d);
      }
    }
  }

  /** Starting to index a key keeps the index right exactly when no stored device has that key as a string yet. */
  lemma IndexingIsCoherentIff(st: Store, ds: Devices, k: Text)
    requires Coherent(st, ds)
    ensures Coherent(IndexProperty(st, k), ds) <==> (k in st.index || forall d :: d in st.devices ==> StringOf(ds, d, k) == None)
  {
    var st' := IndexProperty(st, k);
    if k !in st.index {
      assert forall v :: Lookup(st'.index, k, v) == [];
      forall k', v | k' in st'.index && k' != k
        ensures Listed(st', ds, k', v)
      {
        assert Listed(st, ds, k', v);
        assert Lookup(st'.index, k', v) == Lookup(st.index, k', v);
      }
      if Coherent(st', ds) {
        forall d | d in st.devices
          ensures StringOf(ds, d, k) == None
        {
          var s := StringOf(ds, d, k);
          assert s.Some? ==> Listed(st', ds, k, s.value);
        }
      }
    }
  }

  /** Adding a device keeps the index right exactly when the add is refused or the device is new to the store. */
  lemma AddingIsCoherentIff(st: Store, ds: Devices, d: Dev)
    requires Coherent(st, ds)
    ensures Coherent(AddDevice(st, ds, d), ds) <==> (!ValidUdi(ds, d) || d !in st.devices)
  {
    if d !in st.devices {
      AddIsCoherent(st, ds, d);
    } else if ValidUdi(ds, d) {
      var st' := AddDevice(st, ds, d);
      var i :| 0 <= i < |st.devices| && st.devices[i] == d;
      assert st'.devices[0] == d && st'.devices[i + 1] == d;
    }
  }

  ghost predicate Allowed(w: World, e: Event) {
    match e
    case Index(g, k) =>
      var st := if g then w.gdl else w.tdl;
      k in st.index || forall d :: d in st.devices ==> StringOf(w.devices, d, k) == None
    case Add(g, d) => d !in (if g then w.gdl else w.tdl).devices
    case _ => true
  }

  lemma StepIsCoherent(w: World, e: Event)
    requires AllCoherent(w) && Allowed(w, e)
    ensures AllCoherent(Step(w, e))
  {
    hide Coherent, PreChange, PostChange;
    match e
    case Index(g, k) =>
      IndexingIsCoherentIff(if g then w.gdl else w.tdl, w.devices, k);
    case Add(g, d) =>
      AddIsCoherent(if g then w.gdl else w.tdl, w.devices, d);
    case Remove(g, d) =>
      RemoveIsCoherent(if g then w.gdl else w.tdl, w.devices, d);
    case SetValue(d, k, asked, stored) =>
      if d in w.devices.props {
        var ds' := Put(w.devices, d, k, stored);
        assert SameBut(w.devices, ds', d, k);
        BothStores(w, ds', d, k);
      }
    case SetList(d, k, l) =>
      if d in w.devices.props {
        var ds' := Put(w.devices, d, k, StrList(l));
        assert SameBut(w.devices, ds', d, k);
        BothStores(w, ds', d, k);
      }
    case Drop(d, k) =>
      if d in w.devices.props && k in w.devices.props[d] {
        var ds' := w.devices.(props := w.devices.props[d := w.devices.props[d] - {k}]);
        assert SameBut(w.devices, ds', d, k);
        BothStores(w, ds', d, k);
      }
  }

  lemma BothStores(w: World, ds': Devices, d: Dev, k: Text)
    requires AllCoherent(w) && SameBut(w.devices, ds', d, k)
    ensures AllCoherent(EmitPost(EmitPre(w, d, k).(devices := ds'), d, k))
    ensures StringOf(w.devices, d, k) == None ==> AllCoherent(EmitPost(w.(devices := ds'), d, k))
  {
    hide Coherent, PreChange, PostChange;
    ChangeHandled(w.gdl, w.devices, ds', d, k);
    ChangeHandled(w.tdl, w.devices, ds', d, k);
    if StringOf(w.devices, d, k) == None {
      FirstValueHandled(w.gdl, w.devices, ds', d, k);
      FirstValueHandled(w.tdl, w.devices, ds', d, k);
    }
  }

  // Runs.

  function Run(w: World, events: seq<Event>): World
    decreases |events|
  {
    if events == [] then w else Run(Step(w, events[0]), events[1..])
  }

  ghost predicate RunAllowed(w: World, events: seq<Event>)
    decreases |events|
  {
    events == [] || (Allowed(w, events[0]) && RunAllowed(Step(w, events[0]), events[1..]))
  }

  /** Through every run that indexes keys in time and adds no device twice, both indexes stay right. */
  lemma {:induction false} RunIsCoherent(w: World, events: seq<Event>)
    requires AllCoherent(w) && RunAllowed(w, events)
    ensures AllCoherent(Run(w, events))
    decreases |events|
  {
    hide AllCoherent, Allowed, Step;
    if events != [] {
      StepIsCoherent(w, events[0]);
      RunIsCoherent(Step(w, events[0]), events[1..]);
    }
  }

  lemma FreshStoreIsCoherent(ds: Devices)
    ensures Coherent(Store([], map[], multiset{}), ds)
  {
  }

  // Queries.

  /** The linear scan, newest match first. */
  function Scan(ds: Devices, devices: seq<Dev>, k: Text, v: Text, matches: seq<Dev>): seq<Dev>
    decreases |devices|
  {
    if devices == [] then matches
    else Scan(ds, devices[1..], k, v, if StringOf(ds, devices[0], k) == Some(v) then [devices[0]] + matches else matches)
  }

  function MatchMultiple(st: Store, ds: Devices, k: Text, v: Text): seq<Dev> {
    if k in st.index then Lookup(st.index, k, v) else Scan(ds, st.devices, k, v, [])
  }

  function FirstMatch(ds: Devices, devices: seq<Dev>, k: Text, v: Text): Option<Dev> {
    if devices == [] then None
    else if StringOf(ds, devices[0], k) == Some(v) then Some(devices[0])
    else FirstMatch(ds, devices[1..], k, v)
  }

  function MatchOne(st: Store, ds: Devices, k: Text, v: Text): Option<Dev> {
    if k in st.index then (var l := Lookup(st.index, k, v); if l == [] then None else Some(l[0]))
    else FirstMatch(ds, st.devices, k, v)
  }

  lemma {:induction false} ScanCounts(ds: Devices, devices: seq<Dev>, k: Text, v: Text, matches: seq<Dev>, d: Dev)
    ensures multiset(Scan(ds, devices, k, v, matches))[d]
            == multiset(matches)[d] + if StringOf(ds, d, k) == Some(v) then multiset(devices)[d] else 0
    decreases |devices|
  {
    if devices != [] {
      assert devices == [devices[0]] + devices[1..];
      ScanCounts(ds, devices[1..], k, v,
                 if StringOf(ds, devices[0], k) == Some(v) then [devices[0]] + matches else matches, d);
    }
  }

  lemma {:induction false} NoDupCounts(s: seq<Dev>, d: Dev)
    requires NoDup(s)
    ensures multiset(s)[d] == if d in s then 1 else 0
  {
    if s != [] {
      assert s == [s[0]] + s[1..];
      NoDupCounts(s[1..], d);
      assert s[0] !in s[1..];
    }
  }

  /** The indexed answer is a permutation of the linear scan. */
  lemma IndexedMatchIsScan(st: Store, ds: Devices, k: Text, v: Text)
    requires Coherent(st, ds)
    ensures multiset(MatchMultiple(st, ds, k, v)) == multiset(Scan(ds, st.devices, k, v, []))
  {
    if k in st.index {
      assert Listed(st, ds, k, v);
      forall d
        ensures multiset(Lookup(st.index, k, v))[d] == multiset(Scan(ds, st.devices, k, v, []))[d]
      {
        ScanCounts(ds, st.devices, k, v, [], d);
        NoDupCounts(Lookup(st.index, k, v), d);
        NoDupCounts(st.devices, d);
      }
    }
  }

  lemma {:induction false} FirstMatchFinds(ds: Devices, devices: seq<Dev>, k: Text, v: Text)
    ensures FirstMatch(ds, devices, k, v).Some? <==> exists d :: d in devices && StringOf(ds, d, k) == Some(v)
    ensures FirstMatch(ds, devices, k, v).Some? ==>
              FirstMatch(ds, devices, k, v).value in devices && StringOf(ds, FirstMatch(ds, devices, k, v).value, k) == Some(v)
  {
    if devices != [] {
      FirstMatchFinds(ds, devices[1..], k, v);
      assert forall d :: d in devices <==> d == devices[0] || d in devices[1..];
    }
  }

  /** The single match finds a stored device with the value, and finds one iff the scan does. */
  lemma IndexedSingleMatch(st: Store, ds: Devices, k: Text, v: Text)
    requires Coherent(st, ds)
    ensures MatchOne(st, ds, k, v).Some? <==> FirstMatch(ds, st.devices, k, v).Some?
    ensures MatchOne(st, ds, k, v).Some? ==>
              MatchOne(st, ds, k, v).value in st.devices && StringOf(ds, MatchOne(st, ds, k, v).value, k) == Some(v)
  {
    FirstMatchFinds(ds, st.devices, k, v);
    if k in st.index {
      assert Listed(st, ds, k, v);
      if Lookup(st.index, k, v) != [] {
        assert Lookup(st.index, k, v)[0] in Lookup(st.index, k, v);
      }
    }
  }

  // The store as an object.

  class HalDeviceStore {
    var devices: seq<Dev>
    var index: Index
    var connections: multiset<Dev>

    constructor ()
      ensures State() == Store([], map[], multiset{})
    {
      devices, index, connections := [], map[], multiset{};
    }

    ghost function State(): Store
      reads this
    {
      Store(devices, index, connections)
    }

    method ModifyIndex(ds: Devices, d: Dev, k: Text, added: bool)
      modifies `index
      ensures index == ModifyString(old(index), ds, d, k, added)
    {
      var value := StringOf(ds, d, k);
      if value == None || k !in index {
        return;
      }
      var list := Lookup(index, k, value.value);
      list := if added then [d] + list else RemoveAll(list, d);
      index := index[k := index[k][value.value := list]];
    }

    /** The loop over the indexed keys, in whatever order the hash table lists them. */
    method CheckAllKeys(ds: Devices, d: Dev, added: bool)
      modifies `index
      ensures index == CheckAll(old(index), ds, d, added)
    {
      var keys := index.Keys;
      while keys != {}
        invariant keys <= index.Keys == old(index).Keys
        invariant forall k :: k in keys ==> index[k] == old(index)[k]
        invariant forall k :: k in index && k !in keys ==> index[k] == ModifyString(old(index), ds, d, k, added)[k]
        decreases keys
      {
        var k :| k in keys;
        if StringOf(ds, d, k).Some? {
          ModifyIndex(ds, d, k, added);
        }
        keys := keys - {k};
      }
    }

    /** `hal_device_store_add`. */
    method Add(ds: Devices, d: Dev)
      modifies this
      ensures State() == AddDevice(old(State()), ds, d)
    {
      if !ValidUdi(ds, d) {
        return;
      }
      devices := [d] + devices;
      connections := connections + multiset{d};
      CheckAllKeys(ds, d, true);
    }

    /** `hal_device_store_remove`. */
    method Remove(ds: Devices, d: Dev) returns (found: bool)
      modifies this
      ensures State() == RemoveDevice(old(State()), ds, d)
      ensures found <==> d in old(devices)
    {
      if d !in devices {
        return false;
      }
      devices := RemoveLink(devices, d);
      connections := connections[d := 0];
      CheckAllKeys(ds, d, false);
      return true;
    }

    /** `hal_device_store_index_property`. */
    method IndexKey(k: Text)
      modifies `index
      ensures State() == IndexProperty(old(State()), k)
    {
      if k !in index {
        index := index[k := map[]];
      }
    }

    /** `hal_device_store_match_key_value_string`. */
    method MatchKeyValueString(ds: Devices, k: Text, v: Text) returns (r: Option<Dev>)
      ensures r == MatchOne(State(), ds, k, v)
    {
      if k in index {
        var list := Lookup(index, k, v);
        return if list == [] then None else Some(list[0]);
      }
      var i := 0;
      while i < |devices|
        invariant i <= |devices|
        invariant FirstMatch(ds, devices, k, v) == FirstMatch(ds, devices[i..], k, v)
      {
        if StringOf(ds, devices[i], k) == Some(v) {
          return Some(devices[i]);
        }
        i := i + 1;
      }
      return None;
    }

    /** `hal_device_store_match_multiple_key_value_string`. */
    method MatchMultipleKeyValueString(ds: Devices, k: Text, v: Text) returns (matches: seq<Dev>)
      ensures matches == MatchMultiple(State(), ds, k, v)
    {
      if k in index {
        return Lookup(index, k, v);
      }
      matches := [];
      var i := 0;
      while i < |devices|
        invariant i <= |devices|
        invariant Scan(ds, devices, k, v, []) == Scan(ds, devices[i..], k, v, matches)
      {
        assert devices[i..][1..] == devices[i + 1..];
        if StringOf(ds, devices[i], k) == Some(v) {
          matches := [devices[i]] + matches;
        }
        i := i + 1;
      }
    }
  }
}
