/** What the device store's operations do: which properties they change, which devices they list, and what a later match finds. */
module DeviceEffects {
  import opened Options
  import opened Lists
  import opened DeviceStore

  function PropOf(ds: Devices, d: Dev, k: Text): Option<Prop> {
    if d in ds.props && k in ds.props[d] then Some(ds.props[d][k]) else None
  }

  /**
   The event changes property `k` of `d`: a set of a new key, or of the same type and another value; a list where there is none
   or a list; a removal of what is there.
   */
  predicate Writes(ds: Devices, e: Event, d: Dev, k: Text) {
    match e
    case SetValue(x, key, asked, stored) =>
      && x == d && key == k && d in ds.props && SameType(asked, stored)
      && (k in ds.props[d] ==> SameType(ds.props[d][k], asked) && ds.props[d][k] != asked)
    case SetList(x, key, _) => x == d && key == k && d in ds.props && (k in ds.props[d] ==> ds.props[d][k].StrList?)
    case Drop(x, key) => x == d && key == k && d in ds.props && k in ds.props[d]
    case _ => false
  }

  /** What it leaves there. */
  function Written(e: Event): Option<Prop> {
    match e
    case SetValue(_, _, _, stored) => Some(stored)
    case SetList(_, _, l) => Some(StrList(l))
    case _ => None
  }

  /** An event changes exactly the property it is about, if it is accepted, and no other property of any device. */
  lemma StepProperties(w: World, e: Event, d: Dev, k: Text)
    ensures var w' := Step(w, e);
            && w'.devices.udi == w.devices.udi && w'.devices.props.Keys == w.devices.props.Keys
            && PropOf(w'.devices, d, k) == if Writes(w.devices, e, d, k) then Written(e) else PropOf(w.devices, d, k)
  {
    hide PreChange, PostChange, CheckAll;
  }

  /** The devices a store lists after an event: a new one in front, all but the removed one, or the same. */
  lemma StepMembers(w: World, e: Event)
    ensures var w' := Step(w, e);
            && w'.gdl.devices == Members(w.gdl.devices, w.devices, e, true)
            && w'.tdl.devices == Members(w.tdl.devices, w.devices, e, false)
  {
    hide CheckAll, ModifyString;
    match e
    case Remove(g, d) =>
      if d !in w.gdl.devices {
        RemoveAbsent(w.gdl.devices, d);
      }
      if d !in w.tdl.devices {
        RemoveAbsent(w.tdl.devices, d);
      }
    case SetValue(d, k, asked, stored) =>
      SignalsKeepMembers(w, d, k);
      var w1 := EmitPre(w, d, k);
      if d in w.devices.props {
        SignalsKeepMembers(w1.(devices := Put(w1.devices, d, k, stored)), d, k);
        SignalsKeepMembers(w.(devices := Put(w.devices, d, k, stored)), d, k);
      }
    case SetList(d, k, l) =>
      if d in w.devices.props {
        SignalsKeepMembers(w.(devices := Put(w.devices, d, k, StrList(l))), d, k);
      }
    case Drop(d, k) =>
      SignalsKeepMembers(w, d, k);
      var w1 := EmitPre(w, d, k);
      if d in w.devices.props {
        SignalsKeepMembers(w1.(devices := w1.devices.(props := w1.devices.props[d := w1.devices.props[d] - {k}])), d, k);
      }
    case _ =>
  }

  function Members(l: seq<Dev>, ds: Devices, e: Event, global: bool): seq<Dev> {
    match e
    case Add(g, d) => if g == global && d in ds.udi && "/org/freedesktop/Hal/devices/" <= ds.udi[d] then [d] + l else l
    case Remove(g, d) => if g == global then Lists.Remove(l, d) else l
    case _ => l
  }

  lemma SignalsKeepMembers(w: World, d: Dev, k: Text)
    ensures EmitPre(w, d, k).gdl.devices == w.gdl.devices && EmitPre(w, d, k).tdl.devices == w.tdl.devices
    ensures EmitPost(w, d, k).gdl.devices == w.gdl.devices && EmitPost(w, d, k).tdl.devices == w.tdl.devices
    ensures EmitPre(w, d, k).devices == w.devices && EmitPost(w, d, k).devices == w.devices
  {
    hide ModifyString;
    PreKeeps(w.gdl, w.devices, d, k, w.gdl.connections[d]);
    PreKeeps(w.tdl, w.devices, d, k, w.tdl.connections[d]);
    PostKeeps(w.gdl, w.devices, d, k, w.gdl.connections[d]);
    PostKeeps(w.tdl, w.devices, d, k, w.tdl.connections[d]);
  }

  lemma {:induction false} PreKeeps(st: Store, ds: Devices, d: Dev, k: Text, times: nat)
    ensures PreChange(st, ds, d, k, times).devices == st.devices
    decreases times
  {
    hide ModifyString;
    if times > 0 {
      PreKeeps(st.(index := ModifyString(st.index, ds, d, k, false)), ds, d, k, times - 1);
    }
  }

  lemma {:induction false} PostKeeps(st: Store, ds: Devices, d: Dev, k: Text, times: nat)
    ensures PostChange(st, ds, d, k, times).devices == st.devices
    decreases times
  {
    hide ModifyString;
    if times > 0 {
      PostKeeps(st.(index := ModifyString(st.index, ds, d, k, true)), ds, d, k, times - 1);
    }
  }

  // Over runs.

  lemma {:induction false} RunSnoc(w: World, es: seq<Event>, e: Event)
    ensures Run(w, es + [e]) == Step(Run(w, es), e)
    decreases |es|
  {
    hide Step;
    if es == [] {
      assert [] + [e] == [e] && [e][1..] == [];
    } else {
      assert (es + [e])[1..] == es[1..] + [e] && (es + [e])[0] == es[0];
      RunSnoc(Step(w, es[0]), es[1..], e);
    }
  }

  /** Event `i` of a run is the last that changes property `k` of `d`. */
  ghost predicate LastWrite(w: World, es: seq<Event>, d: Dev, k: Text, i: int) {
    && 0 <= i < |es| && Writes(Run(w, es[..i]).devices, es[i], d, k)
    && forall j :: i < j < |es| ==> !Writes(Run(w, es[..j]).devices, es[j], d, k)
  }

  /** After any run a property is what the last accepted write left there. */
  lemma {:induction false} LastWriteHolds(w: World, es: seq<Event>, d: Dev, k: Text, i: nat)
    requires LastWrite(w, es, d, k, i)
    ensures PropOf(Run(w, es).devices, d, k) == Written(es[i])
    decreases |es|
  {
    hide Step, Run, Writes, Written, PropOf;
    var m := |es| - 1;
    var before, e := es[..m], es[m];
    assert es == before + [e];
    RunSnoc(w, before, e);
    StepProperties(Run(w, before), e, d, k);
    if i < m {
      assert forall j :: 0 <= j < m ==> before[..j] == es[..j] && before[j] == es[j];
      LastWriteHolds(w, before, d, k, i);
    }
  }

  /** And what it was before the run if there is none. */
  lemma {:induction false} UnwrittenStays(w: World, es: seq<Event>, d: Dev, k: Text)
    requires forall j :: 0 <= j < |es| ==> !Writes(Run(w, es[..j]).devices, es[j], d, k)
    ensures PropOf(Run(w, es).devices, d, k) == PropOf(w.devices, d, k)
    decreases |es|
  {
    if es != [] {
      hide Step, Run, Writes, Written, PropOf;
      var m := |es| - 1;
      var before, e := es[..m], es[m];
      assert es == before + [e];
      RunSnoc(w, before, e);
      StepProperties(Run(w, before), e, d, k);
      assert forall j :: 0 <= j < m ==> before[..j] == es[..j] && before[j] == es[j];
      UnwrittenStays(w, before, d, k);
    }
  }

  /** A string set last is what matches find: after any allowed run the indexed and the single match for it find the stored device. */
  lemma WrittenIsFound(w: World, es: seq<Event>, d: Dev, k: Text, i: nat)
    requires AllCoherent(w) && RunAllowed(w, es) && LastWrite(w, es, d, k, i)
    requires es[i].SetValue? && es[i].stored.Str? && d in Run(w, es).gdl.devices
    ensures var r := Run(w, es);
            && d in MatchMultiple(r.gdl, r.devices, k, es[i].stored.s)
            && MatchOne(r.gdl, r.devices, k, es[i].stored.s).Some?
            && forall v :: v != es[i].stored.s ==> d !in MatchMultiple(r.gdl, r.devices, k, v)
  {
    hide Run, RunAllowed, MatchMultiple, MatchOne, Writes;
    LastWriteHolds(w, es, d, k, i);
    RunIsCoherent(w, es);
    var r := Run(w, es);
    var v := es[i].stored.s;
    assert StringOf(r.devices, d, k) == Some(v);
    forall u
      ensures d in MatchMultiple(r.gdl, r.devices, k, u) <==> u == v
    {
      MatchFinds(r.gdl, r.devices, k, u, d);
    }
    SingleFinds(r.gdl, r.devices, k, v, d);
  }

  lemma MatchFinds(st: Store, ds: Devices, k: Text, v: Text, d: Dev)
    requires Coherent(st, ds)
    ensures d in MatchMultiple(st, ds, k, v) <==> d in st.devices && StringOf(ds, d, k) == Some(v)
  {
    hide Lookup;
    IndexedMatchIsScan(st, ds, k, v);
    ScanCounts(ds, st.devices, k, v, [], d);
    assert d in MatchMultiple(st, ds, k, v) <==> multiset(MatchMultiple(st, ds, k, v))[d] > 0;
    assert d in st.devices <==> multiset(st.devices)[d] > 0;
  }

  lemma SingleFinds(st: Store, ds: Devices, k: Text, v: Text, d: Dev)
    requires Coherent(st, ds) && d in st.devices && StringOf(ds, d, k) == Some(v)
    ensures MatchOne(st, ds, k, v).Some?
  {
    IndexedSingleMatch(st, ds, k, v);
    FirstMatchFinds(ds, st.devices, k, v);
  }
}
