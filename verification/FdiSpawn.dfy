/**
 Spawning: when the interpreter's recursion through `<spawn>` ends, and what it creates.
 */
module FdiSpawn {
  import opened Options
  import Lists
  import opened Bytes
  import opened RuleLayout
  import opened FdiDocument
  import opened FdiCache
  import opened FdiInterpreter
  import opened FdiMachineProof

  /** Every UDI some `<spawn>` of the document names. */
  function DocSpawns(doc: Doc): set<Text> {
    match doc
    case Nil => {}
    case Chars(_, rest) => DocSpawns(rest)
    case Element(name, attrs, kids, rest) =>
      var t := GetRuleType(name);
      (if t.Spawn? then {LeafContent(t, attrs, kids).key}
       else if t.Unknown? || t.Match? then DocSpawns(kids)
       else {}) + DocSpawns(rest)
  }

  function FileSpawns(ss: seq<Source>): set<Text> {
    if ss == [] then {} else DocSpawns(ss[0].doc) + FileSpawns(ss[1..])
  }

  /** The UDIs a run for a spawned device can meet, plus those of the section it starts in. */
  function Spawns(rs: RuleSet, s: Section): set<Text> {
    FileSpawns(SectionOf(rs, s)) + FileSpawns(rs.information) + FileSpawns(rs.policy)
  }

  predicate Wf<P>(w: World<P>) {
    && (forall d :: d in w.devs ==> d < w.next)
    && (forall d :: d in w.gdl + w.tdl ==> d in w.devs)
  }

  predicate Stored<P>(w: World<P>, d: Id) {
    d in w.gdl || d in w.tdl
  }

  lemma PresentMeans<P>(w: World<P>, udi: Text)
    ensures Present(w, udi) <==> exists d :: Stored(w, d) && Udi(w, d) == udi
  {
    if FindIn(w, w.gdl, udi).Some? {
      assert Stored(w, FindIn(w, w.gdl, udi).value);
    } else if FindIn(w, w.tdl, udi).Some? {
      assert Stored(w, FindIn(w, w.tdl, udi).value);
    }
  }

  /** How often a device is listed in the two stores. */
  function Listed<P>(w: World<P>, d: Id): nat {
    multiset(w.gdl)[d] + multiset(w.tdl)[d]
  }

  lemma ListedMeansStored<P>(w: World<P>, d: Id)
    ensures Listed(w, d) > 0 <==> Stored(w, d)
  {
    assert d in multiset(w.gdl) <==> d in w.gdl;
    assert d in multiset(w.tdl) <==> d in w.tdl;
  }

  ghost predicate KeepsOld<P>(w: World<P>, w': World<P>) {
    && w.next <= w'.next
    && (forall d :: d in w.devs ==> d in w'.devs && w'.devs[d].udi == w.devs[d].udi)
    && (forall d: Id :: d < w.next ==> multiset(w'.gdl)[d] == multiset(w.gdl)[d])
    && (forall d: Id :: d < w.next ==> multiset(w'.tdl)[d] == multiset(w.tdl)[d])
  }

  ghost predicate AddsOnly<P>(w: World<P>, w': World<P>, us: set<Text>) {
    && (forall d: Id :: w.next <= d ==> Listed(w', d) <= 1)
    && (forall d: Id :: w.next <= d && Stored(w', d) ==> NewName(w, Udi(w', d), us))
    && (forall d: Id, e: Id ::
          w.next <= d && w.next <= e && Stored(w', d) && Stored(w', e) && Udi(w', d) == Udi(w', e) ==> d == e)
  }

  ghost predicate NewName<P>(w: World<P>, udi: Text, us: set<Text>) {
    udi in us && HasPrefix(udi) && !Present(w, udi)
  }

  /**
   `w'` is a later state of a run that may spawn only UDIs in `us`: known devices keep their UDIs and
   their places in the stores; every other stored device is listed once and has a UDI from `us` that
   was absent before, no two of them the same.
   */
  ghost predicate Evolves<P>(w: World<P>, w': World<P>, us: set<Text>) {
    Wf(w) && Wf(w') && KeepsOld(w, w') && AddsOnly(w, w', us)
  }

  lemma OldStays<P>(w: World<P>, w': World<P>, d: Id)
    requires Wf(w) && KeepsOld(w, w') && d < w.next
    ensures Stored(w', d) <==> Stored(w, d)
    ensures Stored(w, d) ==> Udi(w', d) == Udi(w, d)
  {
    ListedMeansStored(w, d);
    ListedMeansStored(w', d);
    assert Stored(w, d) ==> d in w.gdl + w.tdl;
  }

  lemma PresentStays<P>(w: World<P>, w': World<P>, udi: Text)
    requires Wf(w) && KeepsOld(w, w') && Present(w, udi)
    ensures Present(w', udi)
  {
    hide Present;
    PresentMeans(w, udi);
    var d :| Stored(w, d) && Udi(w, d) == udi;
    assert d in w.gdl + w.tdl;
    OldStays(w, w', d);
    PresentMeans(w', udi);
  }

  lemma EvolvesTransitive<P>(w: World<P>, w1: World<P>, w2: World<P>, us: set<Text>)
    requires Evolves(w, w1, us) && Evolves(w1, w2, us)
    ensures Evolves(w, w2, us)
  {
    hide Present, HasPrefix, Listed, Udi, Stored, Wf;
    assert KeepsOld(w, w2);
    forall d: Id | w.next <= d
      ensures Listed(w2, d) <= 1
      ensures Stored(w2, d) ==> NewName(w, Udi(w2, d), us)
    {
      if d < w1.next {
        ListedStays(w1, w2, d);
        OldStays(w1, w2, d);
      } else if Stored(w2, d) && Present(w, Udi(w2, d)) {
        PresentStays(w, w1, Udi(w2, d));
      }
    }
    forall d: Id, e: Id | w.next <= d && w.next <= e && Stored(w2, d) && Stored(w2, e) && Udi(w2, d) == Udi(w2, e)
      ensures d == e
    {
      SameNameAcross(w1, w2, us, d, e);
      SameNameAcross(w1, w2, us, e, d);
      if d < w1.next && e < w1.next {
        OldStays(w1, w2, d);
        OldStays(w1, w2, e);
      }
    }
  }

  lemma ListedStays<P>(w: World<P>, w': World<P>, d: Id)
    requires KeepsOld(w, w') && d < w.next
    ensures Listed(w', d) == Listed(w, d)
  {
  }

  lemma SameNameAcross<P>(w1: World<P>, w2: World<P>, us: set<Text>, d: Id, e: Id)
    requires Evolves(w1, w2, us) && Stored(w2, d) && Stored(w2, e) && Udi(w2, d) == Udi(w2, e)
    ensures !(d < w1.next <= e)
  {
    hide Present, HasPrefix, Listed, Udi, Stored;
    if d < w1.next <= e {
      OldStays(w1, w2, d);
      PresentMeans(w1, Udi(w1, d));
    }
  }

  lemma NothingBeyond<P>(w: World<P>, d: Id)
    requires Wf(w) && w.next <= d
    ensures !Stored(w, d) && Listed(w, d) == 0
  {
    ListedMeansStored(w, d);
    assert Stored(w, d) ==> d in w.gdl + w.tdl;
  }

  lemma MergeEvolves<P>(w: World<P>, m: map<Id, P>, us: set<Text>)
    requires Wf(w)
    ensures Evolves(w, ApplyMerge(w, m), us)
  {
    hide Present, HasPrefix;
    var w' := ApplyMerge(w, m);
    assert Wf(w');
    forall d: Id | w.next <= d
      ensures !Stored(w', d) && Listed(w', d) == 0
    {
      NothingBeyond(w', d);
    }
  }

  lemma EvolvesReflexive<P>(w: World<P>, us: set<Text>)
    requires Wf(w)
    ensures Evolves(w, w, us)
  {
    hide Present, HasPrefix;
    forall d: Id | w.next <= d
      ensures !Stored(w, d) && Listed(w, d) == 0
    {
      NothingBeyond(w, d);
    }
  }

  lemma CreateEvolves<P>(h: Handlers<P>, w: World<P>, parent: Id, udi: Text, us: set<Text>)
    requires Wf(w) && udi in us && !Present(w, udi)
    ensures var w' := Create(h, w, parent, udi);
            && Evolves(w, w', us) && w'.next == w.next + 1 && Udi(w', w.next) == udi
            && multiset(w'.gdl)[w.next] == 0
            && multiset(w'.tdl)[w.next] == if HasPrefix(udi) then 1 else 0
  {
    hide Present, HasPrefix;
    var w' := Create(h, w, parent, udi);
    EvolvesReflexive(w, us);
    assert w.next !in w.gdl && w.next !in w.tdl by {
      assert w.next in w.gdl + w.tdl ==> w.next in w.devs;
    }
    assert Wf(w');
    forall d: Id | w.next <= d
      ensures Listed(w', d) <= 1
      ensures Stored(w', d) ==> d == w.next && HasPrefix(udi)
    {
      ListedMeansStored(w, d);
    }
  }

  lemma {:induction false} RemoveCounts(s: seq<Id>, x: Id)
    ensures multiset(Lists.Remove(s, x)) == multiset(s) - multiset{x}
  {
    if s != [] {
      assert s == [s[0]] + s[1..];
      if s[0] != x {
        RemoveCounts(s[1..], x);
      }
    }
  }

  /** Settling moves a device between the stores and touches no other. */
  lemma SettleStock<P>(h: Handlers<P>, w: World<P>, d: Id)
    requires Wf(w) && d in w.devs
    requires multiset(w.gdl)[d] == 0 && multiset(w.tdl)[d] == if HasPrefix(Udi(w, d)) then 1 else 0
    ensures var w' := Settle(h, w, d);
            && w'.devs == w.devs && w'.next == w.next && Wf(w')
            && (forall e: Id :: Listed(w', e) == Listed(w, e) && (Stored(w', e) <==> Stored(w, e)))
            && (forall e: Id :: e != d ==> multiset(w'.gdl)[e] == multiset(w.gdl)[e])
            && (forall e: Id :: e != d ==> multiset(w'.tdl)[e] == multiset(w.tdl)[e])
  {
    hide HasPrefix, Lists.Remove;
    var w' := Settle(h, w, d);
    RemoveCounts(w.tdl, d);
    SettledCounts(h, w, d);
    forall e: Id
      ensures Stored(w', e) <==> Stored(w, e)
    {
      ListedMeansStored(w', e);
      ListedMeansStored(w, e);
    }
    forall e | e in w'.gdl + w'.tdl
      ensures e in w'.devs
    {
      assert Stored(w', e);
    }
  }

  lemma SettledCounts<P>(h: Handlers<P>, w: World<P>, d: Id)
    requires multiset(w.gdl)[d] == 0 && multiset(w.tdl)[d] == if HasPrefix(Udi(w, d)) then 1 else 0
    ensures var w' := Settle(h, w, d);
            && (forall e: Id :: Listed(w', e) == Listed(w, e))
            && (forall e: Id :: e != d ==> multiset(w'.gdl)[e] == multiset(w.gdl)[e])
            && (forall e: Id :: e != d ==> multiset(w'.tdl)[e] == multiset(w.tdl)[e])
  {
    hide HasPrefix, Lists.Remove;
    RemoveCounts(w.tdl, d);
    assert multiset([d] + w.gdl) == multiset{d} + multiset(w.gdl);
  }

  lemma SettleEvolves<P>(h: Handlers<P>, w: World<P>, w': World<P>, d: Id, us: set<Text>)
    requires Evolves(w, w', us) && w.next <= d < w'.next && d in w'.devs
    requires multiset(w'.gdl)[d] == 0 && multiset(w'.tdl)[d] == if HasPrefix(Udi(w', d)) then 1 else 0
    ensures Evolves(w, Settle(h, w', d), us)
  {
    hide Settle, Present, HasPrefix, Stored, Listed;
    SettleStock(h, w', d);
    var w2 := Settle(h, w', d);
    assert forall e: Id :: Udi(w2, e) == Udi(w', e);
  }

  // Runs.

  ghost predicate CoversDevice(rs: RuleSet, us: set<Text>) {
    FileSpawns(rs.information) <= us && FileSpawns(rs.policy) <= us
  }

  ghost predicate Sound<P>(r: Result<P>, w: World<P>, us: set<Text>) {
    !r.Fault? && (r.Done? ==> Evolves(w, r.world, us))
  }

  lemma SoundThen<P>(w: World<P>, w1: World<P>, r: Result<P>, us: set<Text>)
    requires Evolves(w, w1, us) && Sound(r, w1, us)
    ensures Sound(r, w, us)
  {
    hide Evolves;
    if r.Done? {
      EvolvesTransitive(w, w1, r.world, us);
    }
  }

  /** Whatever the rules do, a run only adds devices as `Evolves` says, and never faults. */
  lemma {:induction false} WalkEvolves<P>(h: Handlers<P>, rs: RuleSet, n: nat, doc: Doc, d: Id, w: World<P>, us: set<Text>)
    requires Wf(w) && CoversDevice(rs, us) && DocSpawns(doc) <= us
    ensures Sound(Walk(h, rs, n, doc, d, w), w, us)
    decreases n, 1, doc
  {
    hide Evolves, ApplyTree, GetRuleType, ScanAttrs, GatherText, Wf, CoversDevice;
    match doc
    case Nil => EvolvesReflexive(w, us);
    case Chars(_, rest) => WalkEvolves(h, rs, n, rest, d, w, us);
    case Element(name, attrs, kids, rest) =>
      var t := GetRuleType(name);
      EvolvesReflexive(w, us);
      var v := View(t, LeafContent(t, attrs, kids));
      var r :=
        if t.Unknown? then Walk(h, rs, n, kids, d, w)
        else if t.Match? then
          if h.holds(View(t, AttrContent(t, attrs)), d, w) then Walk(h, rs, n, kids, d, w) else Done(w)
        else ApplyTree(h, rs, n, v, d, w);
      if t.Unknown? || t.Match? {
        WalkEvolves(h, rs, n, kids, d, w, us);
      } else {
        ApplyEvolves(h, rs, n, v, d, w, us);
      }
      if r.Done? {
        EvolvedIsWf(w, r.world, us);
        WalkEvolves(h, rs, n, rest, d, r.world, us);
        SoundThen(w, r.world, Walk(h, rs, n, rest, d, r.world), us);
      }
  }

  lemma EvolvedIsWf<P>(w: World<P>, w': World<P>, us: set<Text>)
    requires Evolves(w, w', us)
    ensures Wf(w')
  {
  }

  lemma {:induction false} FilesEvolve<P>(h: Handlers<P>, rs: RuleSet, n: nat, ss: seq<Source>, d: Id, w: World<P>, us: set<Text>)
    requires Wf(w) && CoversDevice(rs, us) && FileSpawns(ss) <= us
    ensures Sound(WalkFiles(h, rs, n, ss, d, w), w, us)
    decreases n, 2, |ss|
  {
    hide Evolves, Walk, Wf, CoversDevice, DocSpawns;
    if ss == [] {
      EvolvesReflexive(w, us);
    } else {
      WalkEvolves(h, rs, n, ss[0].doc, d, w, us);
      var r := Walk(h, rs, n, ss[0].doc, d, w);
      if r.Done? {
        EvolvedIsWf(w, r.world, us);
        FilesEvolve(h, rs, n, ss[1..], d, r.world, us);
        SoundThen(w, r.world, WalkFiles(h, rs, n, ss[1..], d, r.world), us);
      }
    }
  }

  lemma SpawnUnfolds<P>(h: Handlers<P>, rs: RuleSet, n: nat, v: RuleView, d: Id, w: World<P>)
    requires v.rtype.Spawn? && !Present(w, v.key) && n > 0
    ensures var r1 := WalkFiles(h, rs, n - 1, rs.information, w.next, Create(h, w, d, v.key));
            ApplyTree(h, rs, n, v, d, w) ==
            if !r1.Done? then r1
            else
              var r2 := WalkFiles(h, rs, n - 1, rs.policy, w.next, r1.world);
              if r2.Done? then Done(Settle(h, r2.world, w.next)) else r2
  {
    hide WalkFiles, Create, Settle, Present;
    assert SectionOf(rs, Information) == rs.information && SectionOf(rs, Policy) == rs.policy;
  }

  lemma {:induction false} ApplyEvolves<P>(h: Handlers<P>, rs: RuleSet, n: nat, v: RuleView, d: Id, w: World<P>, us: set<Text>)
    requires Wf(w) && CoversDevice(rs, us) && (v.rtype.Spawn? ==> v.key in us)
    ensures Sound(ApplyTree(h, rs, n, v, d, w), w, us)
    decreases n, 0
  {
    hide Evolves, WalkFiles, Create, Settle, Present, Wf, FileSpawns, ApplyMerge;
    if !v.rtype.Spawn? {
      MergeEvolves(w, h.merge(v, d, w), us);
    } else if Present(w, v.key) {
      EvolvesReflexive(w, us);
    } else if n > 0 {
      SpawnUnfolds(h, rs, n, v, d, w);
      var c := Create(h, w, d, v.key);
      CreateEvolves(h, w, d, v.key, us);
      EvolvedIsWf(w, c, us);
      FilesEvolve(h, rs, n - 1, rs.information, w.next, c, us);
      var r1 := WalkFiles(h, rs, n - 1, rs.information, w.next, c);
      if r1.Done? {
        EvolvedIsWf(c, r1.world, us);
        FilesEvolve(h, rs, n - 1, rs.policy, w.next, r1.world, us);
        var r2 := WalkFiles(h, rs, n - 1, rs.policy, w.next, r1.world);
        if r2.Done? {
          EvolvesTransitive(c, r1.world, r2.world, us);
          SpawnedSettles(h, w, d, v.key, r2.world, us);
        }
      }
    }
  }

  lemma SpawnedSettles<P>(h: Handlers<P>, w: World<P>, d: Id, udi: Text, w2: World<P>, us: set<Text>)
    requires Wf(w) && udi in us && !Present(w, udi)
    requires Evolves(Create(h, w, d, udi), w2, us)
    ensures Evolves(w, Settle(h, w2, w.next), us)
  {
    hide Present, HasPrefix, Settle, AddsOnly;
    CreateEvolves(h, w, d, udi, us);
    var c := Create(h, w, d, udi);
    EvolvesTransitive(w, c, w2, us);
    SettleEvolves(h, w, w2, w.next, us);
  }

  // Termination.

  function Absent<P>(w: World<P>, us: set<Text>): set<Text> {
    set u | u in us && !Present(w, u)
  }

  lemma AbsentShrinks<P>(w: World<P>, w': World<P>, us: set<Text>)
    requires Wf(w) && KeepsOld(w, w')
    ensures Absent(w', us) <= Absent(w, us)
    ensures |Absent(w', us)| <= |Absent(w, us)|
  {
    hide Present;
    forall u | u in Absent(w', us)
      ensures u in Absent(w, us)
    {
      if Present(w, u) {
        PresentStays(w, w', u);
      }
    }
    Lists.SubsetCount(Absent(w', us), Absent(w, us));
  }

  lemma CreateFills<P>(h: Handlers<P>, w: World<P>, d: Id, udi: Text, us: set<Text>)
    requires Wf(w) && udi in us && !Present(w, udi) && HasPrefix(udi)
    ensures |Absent(Create(h, w, d, udi), us)| < |Absent(w, us)|
  {
    hide Present, HasPrefix;
    var c := Create(h, w, d, udi);
    CreateEvolves(h, w, d, udi, us);
    AbsentShrinks(w, c, us);
    assert Stored(c, w.next);
    PresentMeans(c, udi);
    assert udi in Absent(w, us) && udi !in Absent(c, us);
    Lists.SubsetCount(Absent(c, us), Absent(w, us));
  }

  ghost predicate Prefixed(us: set<Text>) {
    forall u :: u in us ==> HasPrefix(u)
  }

  /** With only valid spawn UDIs, one level of nesting per absent UDI is enough. */
  lemma {:induction false} WalkEnds<P>(h: Handlers<P>, rs: RuleSet, n: nat, doc: Doc, d: Id, w: World<P>, us: set<Text>)
    requires Wf(w) && CoversDevice(rs, us) && DocSpawns(doc) <= us && Prefixed(us) && |Absent(w, us)| <= n
    ensures Walk(h, rs, n, doc, d, w).Done?
    decreases n, 1, doc
  {
    hide Evolves, ApplyTree, GetRuleType, ScanAttrs, GatherText, Wf, CoversDevice, Absent, Prefixed;
    match doc
    case Nil =>
    case Chars(_, rest) => WalkEnds(h, rs, n, rest, d, w, us);
    case Element(name, attrs, kids, rest) =>
      var t := GetRuleType(name);
      EvolvesReflexive(w, us);
      var v := View(t, LeafContent(t, attrs, kids));
      var r :=
        if t.Unknown? then Walk(h, rs, n, kids, d, w)
        else if t.Match? then
          if h.holds(View(t, AttrContent(t, attrs)), d, w) then Walk(h, rs, n, kids, d, w) else Done(w)
        else ApplyTree(h, rs, n, v, d, w);
      if t.Unknown? || t.Match? {
        WalkEnds(h, rs, n, kids, d, w, us);
        WalkEvolves(h, rs, n, kids, d, w, us);
      } else {
        ApplyEnds(h, rs, n, v, d, w, us);
        ApplyEvolves(h, rs, n, v, d, w, us);
      }
      EvolvedIsWf(w, r.world, us);
      EvolvedKeeps(w, r.world, us);
      AbsentShrinks(w, r.world, us);
      WalkEnds(h, rs, n, rest, d, r.world, us);
  }

  lemma {:induction false} FilesEnd<P>(h: Handlers<P>, rs: RuleSet, n: nat, ss: seq<Source>, d: Id, w: World<P>, us: set<Text>)
    requires Wf(w) && CoversDevice(rs, us) && FileSpawns(ss) <= us && Prefixed(us) && |Absent(w, us)| <= n
    ensures WalkFiles(h, rs, n, ss, d, w).Done?
    decreases n, 2, |ss|
  {
    hide Evolves, Walk, Wf, CoversDevice, DocSpawns, Absent, Prefixed;
    if ss != [] {
      WalkEnds(h, rs, n, ss[0].doc, d, w, us);
      WalkEvolves(h, rs, n, ss[0].doc, d, w, us);
      var w' := Walk(h, rs, n, ss[0].doc, d, w).world;
      EvolvedIsWf(w, w', us);
      EvolvedKeeps(w, w', us);
      AbsentShrinks(w, w', us);
      FilesEnd(h, rs, n, ss[1..], d, w', us);
    }
  }

  lemma {:induction false} ApplyEnds<P>(h: Handlers<P>, rs: RuleSet, n: nat, v: RuleView, d: Id, w: World<P>, us: set<Text>)
    requires Wf(w) && CoversDevice(rs, us) && (v.rtype.Spawn? ==> v.key in us) && Prefixed(us) && |Absent(w, us)| <= n
    ensures ApplyTree(h, rs, n, v, d, w).Done?
    decreases n, 0
  {
    hide Evolves, WalkFiles, Create, Settle, Present, Wf, FileSpawns, ApplyMerge, HasPrefix, Absent;
    if v.rtype.Spawn? && !Present(w, v.key) {
      var c := Create(h, w, d, v.key);
      CreateFills(h, w, d, v.key, us);
      SpawnUnfolds(h, rs, n, v, d, w);
      CreateEvolves(h, w, d, v.key, us);
      EvolvedIsWf(w, c, us);
      FilesEnd(h, rs, n - 1, rs.information, w.next, c, us);
      FilesEvolve(h, rs, n - 1, rs.information, w.next, c, us);
      var w1 := WalkFiles(h, rs, n - 1, rs.information, w.next, c).world;
      EvolvedIsWf(c, w1, us);
      EvolvedKeeps(c, w1, us);
      AbsentShrinks(c, w1, us);
      FilesEnd(h, rs, n - 1, rs.policy, w.next, w1, us);
    }
  }

  /** The UDIs a spawned device's own rules spawn. */
  function DeviceSpawns(rs: RuleSet): set<Text> {
    FileSpawns(rs.information) + FileSpawns(rs.policy)
  }

  /** What decides whether spawning ends: the section spawns nothing, or what every device spawns carries the prefix. */
  ghost predicate Safe(rs: RuleSet, s: Section) {
    FileSpawns(SectionOf(rs, s)) == {} || Prefixed(DeviceSpawns(rs))
  }

  /** A document's own spawns may lack the prefix: each costs one level more than the rules of the spawned device. */
  lemma {:induction false} OuterWalkEnds<P>(h: Handlers<P>, rs: RuleSet, n: nat, doc: Doc, d: Id, w: World<P>, all: set<Text>)
    requires Wf(w) && CoversDevice(rs, all) && DocSpawns(doc) <= all
    requires DocSpawns(doc) == {} || (Prefixed(DeviceSpawns(rs)) && |Absent(w, DeviceSpawns(rs))| < n)
    ensures Walk(h, rs, n, doc, d, w).Done?
    decreases doc
  {
    hide Evolves, ApplyTree, GetRuleType, ScanAttrs, GatherText, Wf, CoversDevice, Absent, Prefixed, DeviceSpawns;
    match doc
    case Nil =>
    case Chars(_, rest) => OuterWalkEnds(h, rs, n, rest, d, w, all);
    case Element(name, attrs, kids, rest) =>
      var t := GetRuleType(name);
      EvolvesReflexive(w, all);
      var v := View(t, LeafContent(t, attrs, kids));
      var r :=
        if t.Unknown? then Walk(h, rs, n, kids, d, w)
        else if t.Match? then
          if h.holds(View(t, AttrContent(t, attrs)), d, w) then Walk(h, rs, n, kids, d, w) else Done(w)
        else ApplyTree(h, rs, n, v, d, w);
      if t.Unknown? || t.Match? {
        OuterWalkEnds(h, rs, n, kids, d, w, all);
        WalkEvolves(h, rs, n, kids, d, w, all);
      } else {
        OuterApplyEnds(h, rs, n, v, d, w);
        ApplyEvolves(h, rs, n, v, d, w, all);
      }
      EvolvedIsWf(w, r.world, all);
      EvolvedKeeps(w, r.world, all);
      AbsentShrinks(w, r.world, DeviceSpawns(rs));
      OuterWalkEnds(h, rs, n, rest, d, r.world, all);
  }

  lemma EvolvedKeeps<P>(w: World<P>, w': World<P>, us: set<Text>)
    requires Evolves(w, w', us)
    ensures KeepsOld(w, w')
  {
  }

  lemma CreateKeeps<P>(h: Handlers<P>, w: World<P>, d: Id, udi: Text)
    requires Wf(w)
    ensures var c := Create(h, w, d, udi); Wf(c) && KeepsOld(w, c)
  {
    hide HasPrefix;
  }

  lemma OuterApplyEnds<P>(h: Handlers<P>, rs: RuleSet, n: nat, v: RuleView, d: Id, w: World<P>)
    requires Wf(w)
    requires v.rtype.Spawn? ==> Prefixed(DeviceSpawns(rs)) && |Absent(w, DeviceSpawns(rs))| < n
    ensures ApplyTree(h, rs, n, v, d, w).Done?
  {
    hide Evolves, WalkFiles, Create, Settle, Present, Wf, FileSpawns, ApplyMerge, HasPrefix, Absent, KeepsOld;
    if v.rtype.Spawn? && !Present(w, v.key) {
      var us := DeviceSpawns(rs);
      var c := Create(h, w, d, v.key);
      CreateKeeps(h, w, d, v.key);
      AbsentShrinks(w, c, us);
      SpawnUnfolds(h, rs, n, v, d, w);
      FilesEnd(h, rs, n - 1, rs.information, w.next, c, us);
      FilesEvolve(h, rs, n - 1, rs.information, w.next, c, us);
      var w1 := WalkFiles(h, rs, n - 1, rs.information, w.next, c).world;
      EvolvedIsWf(c, w1, us);
      EvolvedKeeps(c, w1, us);
      AbsentShrinks(c, w1, us);
      FilesEnd(h, rs, n - 1, rs.policy, w.next, w1, us);
    }
  }

  lemma {:induction false} OuterFilesEnd<P>(h: Handlers<P>, rs: RuleSet, n: nat, ss: seq<Source>, d: Id, w: World<P>, all: set<Text>)
    requires Wf(w) && CoversDevice(rs, all) && FileSpawns(ss) <= all
    requires FileSpawns(ss) == {} || (Prefixed(DeviceSpawns(rs)) && |Absent(w, DeviceSpawns(rs))| < n)
    ensures WalkFiles(h, rs, n, ss, d, w).Done?
    decreases |ss|
  {
    hide Evolves, Walk, Wf, CoversDevice, DocSpawns, Absent, Prefixed, DeviceSpawns;
    if ss != [] {
      OuterWalkEnds(h, rs, n, ss[0].doc, d, w, all);
      WalkEvolves(h, rs, n, ss[0].doc, d, w, all);
      var w' := Walk(h, rs, n, ss[0].doc, d, w).world;
      EvolvedIsWf(w, w', all);
      EvolvedKeeps(w, w', all);
      AbsentShrinks(w, w', DeviceSpawns(rs));
      OuterFilesEnd(h, rs, n, ss[1..], d, w', all);
    }
  }

  /**
   On every compiled cache in a safe section `di_search_and_merge` finishes with at most one level of nesting for each
   UDI that devices spawn and no store has, plus one, and creates at most one device per UDI.
   */
  lemma SpawningEnds<P(!new)>(h: Handlers<P>, rs: RuleSet, n: nat, s: Section, d: Id, w: World<P>)
    requires CleanRules(rs) && ImageFits(rs) && Wf(w)
    requires Safe(rs, s) && |Absent(w, DeviceSpawns(rs))| < n
    ensures SearchAndMerge(h, Image(rs), n, s, d, w).Done?
    ensures Evolves(w, SearchAndMerge(h, Image(rs), n, s, d, w).world, Spawns(rs, s))
  {
    hide Evolves, WalkFiles, SearchAndMerge, Image, FileSpawns, Wf, Absent, CleanRules, DeviceSpawns;
    var us := Spawns(rs, s);
    MachineMeetsWalk(h, rs, n, s, d, w);
    OuterFilesEnd(h, rs, n, SectionOf(rs, s), d, w, us);
    FilesEvolve(h, rs, n, SectionOf(rs, s), d, w, us);
  }

  // Conversely, when every match holds, one bad UDI that devices spawn keeps any spawn from finishing.

  ghost predicate AllHold<P(!new)>(h: Handlers<P>) {
    forall v, d, w :: h.holds(v, d, w)
  }

  ghost predicate Bad(rs: RuleSet, udi: Text) {
    udi in DeviceSpawns(rs) && !HasPrefix(udi)
  }

  /** The stores and all names are the same. */
  ghost predicate SameNames<P>(w: World<P>, w': World<P>) {
    && w'.gdl == w.gdl && w'.tdl == w.tdl && w'.next == w.next
    && w'.devs.Keys == w.devs.Keys && forall d :: d in w.devs ==> w'.devs[d].udi == w.devs[d].udi
  }

  lemma SameNamesSamePresence<P>(w: World<P>, w': World<P>, udi: Text)
    requires SameNames(w, w')
    ensures Present(w', udi) <==> Present(w, udi)
    ensures Wf(w) ==> Wf(w')
  {
    PresentMeans(w, udi);
    PresentMeans(w', udi);
    assert forall d :: Stored(w', d) <==> Stored(w, d);
    assert forall d :: Udi(w', d) == Udi(w, d);
  }

  lemma CreateKeepsAbsent<P>(h: Handlers<P>, w: World<P>, d: Id, key: Text, udi: Text)
    requires Wf(w) && !Present(w, udi) && !HasPrefix(udi)
    ensures !Present(Create(h, w, d, key), udi)
  {
    hide HasPrefix, Present;
    var c := Create(h, w, d, key);
    PresentMeans(w, udi);
    PresentMeans(c, udi);
    forall e | Stored(c, e)
      ensures Udi(c, e) != udi
    {
      if e != w.next {
        assert Stored(w, e) && e in w.gdl + w.tdl;
      } else if e in w.gdl + w.tdl {
        assert e in w.devs;
      }
    }
  }

  /** Walking a document: it gets nowhere if some spawn in it is absent, and otherwise spawns nothing. */
  lemma {:induction false} WalkIsStuck<P(!new)>(h: Handlers<P>, rs: RuleSet, n: nat, doc: Doc, d: Id, w: World<P>, udi: Text, x: Text)
    requires AllHold(h) && Bad(rs, udi) && Wf(w) && !Present(w, udi) && !Present(w, x)
    ensures var r := Walk(h, rs, n, doc, d, w);
            && (x in DocSpawns(doc) ==> r.TooDeep?)
            && (r.TooDeep? || (r.Done? && SameNames(w, r.world)))
    decreases n, 1, doc
  {
    hide ApplyTree, GetRuleType, ScanAttrs, GatherText, Wf, Present, Bad;
    match doc
    case Nil =>
    case Chars(_, rest) => WalkIsStuck(h, rs, n, rest, d, w, udi, x);
    case Element(name, attrs, kids, rest) =>
      var t := GetRuleType(name);
      var v := View(t, LeafContent(t, attrs, kids));
      var inner := t.Unknown? || t.Match?;
      var r := if inner then Walk(h, rs, n, kids, d, w) else ApplyTree(h, rs, n, v, d, w);
      assert t.Match? ==> h.holds(View(t, AttrContent(t, attrs)), d, w);
      if inner {
        WalkIsStuck(h, rs, n, kids, d, w, udi, x);
      } else {
        ApplyIsStuck(h, rs, n, v, d, w, udi);
      }
      if r.Done? {
        SameNamesSamePresence(w, r.world, udi);
        SameNamesSamePresence(w, r.world, x);
        WalkIsStuck(h, rs, n, rest, d, r.world, udi, x);
      }
  }

  lemma {:induction false} ApplyIsStuck<P(!new)>(h: Handlers<P>, rs: RuleSet, n: nat, v: RuleView, d: Id, w: World<P>, udi: Text)
    requires AllHold(h) && Bad(rs, udi) && Wf(w) && !Present(w, udi)
    ensures var r := ApplyTree(h, rs, n, v, d, w);
            && (v.rtype.Spawn? && !Present(w, v.key) ==> r.TooDeep?)
            && (r.TooDeep? || (r.Done? && SameNames(w, r.world)))
    decreases n, 0
  {
    hide WalkFiles, Create, Settle, Wf, Present, HasPrefix, FileSpawns;
    if v.rtype.Spawn? && !Present(w, v.key) && n > 0 {
      var c := Create(h, w, d, v.key);
      SpawnUnfolds(h, rs, n, v, d, w);
      CreateKeeps(h, w, d, v.key);
      CreateKeepsAbsent(h, w, d, v.key, udi);
      FilesAreStuck(h, rs, n - 1, rs.information, w.next, c, udi, udi);
      var r1 := WalkFiles(h, rs, n - 1, rs.information, w.next, c);
      if r1.Done? {
        SameNamesSamePresence(c, r1.world, udi);
        FilesAreStuck(h, rs, n - 1, rs.policy, w.next, r1.world, udi, udi);
      }
    }
  }

  lemma {:induction false} FilesAreStuck<P(!new)>(h: Handlers<P>, rs: RuleSet, n: nat, ss: seq<Source>, d: Id, w: World<P>, udi: Text, x: Text)
    requires AllHold(h) && Bad(rs, udi) && Wf(w) && !Present(w, udi) && !Present(w, x)
    ensures var r := WalkFiles(h, rs, n, ss, d, w);
            && (x in FileSpawns(ss) ==> r.TooDeep?)
            && (r.TooDeep? || (r.Done? && SameNames(w, r.world)))
    decreases n, 2, |ss|
  {
    hide Walk, Wf, Present, Bad, DocSpawns;
    if ss != [] {
      WalkIsStuck(h, rs, n, ss[0].doc, d, w, udi, x);
      var r := Walk(h, rs, n, ss[0].doc, d, w);
      if r.Done? {
        SameNamesSamePresence(w, r.world, udi);
        SameNamesSamePresence(w, r.world, x);
        FilesAreStuck(h, rs, n, ss[1..], d, r.world, udi, x);
      }
    }
  }

  /** Some nesting bound is enough for this device, state and behaviour of the handlers. */
  ghost predicate Finishes<P(!new)>(h: Handlers<P>, rs: RuleSet, s: Section, d: Id, w: World<P>) {
    exists n: nat :: SearchAndMerge(h, Image(rs), n, s, d, w).Done?
  }

  /** Handlers for which every match holds and no merge changes anything. */
  ghost function Eager<P(!new)>(p: P): Handlers<P> {
    Handlers((v, d, w) => true, (v, d, w) => map[], (parent, udi) => p, q => false)
  }

  lemma UnsafeNeverEnds<P(!new)>(rs: RuleSet, n: nat, s: Section, p: P)
    requires CleanRules(rs) && ImageFits(rs) && !Safe(rs, s)
    ensures SearchAndMerge(Eager(p), Image(rs), n, s, 0, World(map[], 0, [], [])).TooDeep?
  {
    hide WalkFiles, SearchAndMerge, Image, FileSpawns, CleanRules, HasPrefix, ImageFits;
    var w: World<P> := World(map[], 0, [], []);
    MachineMeetsWalk(Eager(p), rs, n, s, 0, w);
    var udi :| udi in DeviceSpawns(rs) && !HasPrefix(udi);
    var x :| x in FileSpawns(SectionOf(rs, s));
    FilesAreStuck(Eager(p), rs, n, SectionOf(rs, s), 0, w, udi, x);
  }

  /** One information file, `<spawn udi="x"/>`. */
  function SpawnX(): RuleSet {
    RuleSet([], [Source(Ascii("f"), Element(Ascii("spawn"), [Attr(Ascii("udi"), Ascii("x"))], Nil, Nil))], [])
  }

  lemma SpawnXContent()
    ensures var doc := SpawnX().information[0].doc;
            && GetRuleType(doc.name).Spawn?
            && ScanAttrs(Spawn, doc.attrs, NoContent()) == (Running, NoContent().(key := Ascii("x")))
  {
    var doc := SpawnX().information[0].doc;
    assert |Ascii("spawn")| == 5 && Ascii("spawn")[0] == 's' as int && Ascii("spawn")[1] == 'p' as int;
    assert |Ascii("udi")| == 3 && |Ascii("key")| == 3 && Ascii("udi")[0] != Ascii("key")[0];
    assert doc.attrs[1..] == [];
    assert ScanAttr(Spawn, doc.attrs[0], NoContent()) == (Running, NoContent().(key := Ascii("x")));
    assert ScanAttrs(Spawn, [], NoContent().(key := Ascii("x"))) == (Running, NoContent().(key := Ascii("x")));
  }

  lemma SmallRule(b: nat, t: RuleType, c: Content)
    requires |c.key| == 1 && c.value == []
    ensures |EmitRule(b, t, c, 0)| <= 100
  {
    hide RuleBytes;
  }

  lemma SpawnXFile(b: nat)
    ensures |EmitFile(b, SpawnX().information[0])| <= 200
  {
    SpawnXContent();
    hide GetRuleType, ScanAttrs, EmitRule, RuleEnd;
    var src := SpawnX().information[0];
    var c := LeafContent(Spawn, src.doc.attrs, src.doc.kids);
    assert c == NoContent().(key := Ascii("x"));
    SmallRule(b, Spawn, c);
    assert Emit(RuleEnd(b, c), Nil) == [];
    var e := Emit(b, src.doc);
    SmallRule(b + |e|, Eof, EofContent(src.path));
  }

  lemma SpawnXFits()
    ensures ImageFits(SpawnX())
  {
    hide HeaderBytes, EmitFile;
    var rs := SpawnX();
    NoFiles(SIZEOF_HEADER);
    SpawnXFile(SIZEOF_HEADER);
    assert rs.information[1..] == [];
    var e := EmitFile(SIZEOF_HEADER, rs.information[0]);
    NoFiles(SIZEOF_HEADER + |e|);
    assert EmitFiles(SIZEOF_HEADER, rs.information) == e + EmitFiles(SIZEOF_HEADER + |e|, rs.information[1..]);
  }

  /** The condition can fail: this accepted rule set is not safe in its information section. */
  lemma SpawnXIsUnsafe()
    ensures CleanRules(SpawnX()) && ImageFits(SpawnX()) && !Safe(SpawnX(), Information)
    ensures Check(SpawnX().information[0].doc, 0) == Running
  {
    hide GetRuleType, ScanAttrs, ImageFits;
    SpawnXContent();
    SpawnXFits();
    var rs := SpawnX();
    assert rs.information[1..] == [];
    assert FileSpawns(rs.information) == {Ascii("x")};
    assert !HasPrefix(Ascii("x")) by {
      assert |Prefix()| > 1;
    }
    assert Ascii("x") in DeviceSpawns(rs);
  }

  /**
   Exactly when spawning ends: a section can be searched to the end for every device, state and behaviour of matches and
   merges if and only if it spawns nothing or every UDI that devices spawn carries the prefix.
   */
  lemma SpawningEndsIff<P(!new)>(rs: RuleSet, s: Section, p: P)
    requires CleanRules(rs) && ImageFits(rs)
    ensures (forall h: Handlers<P>, d: Id, w: World<P> :: Wf(w) ==> Finishes(h, rs, s, d, w)) <==> Safe(rs, s)
  {
    hide SearchAndMerge, Image, CleanRules, Safe, Absent, DeviceSpawns, ImageFits;
    if Safe(rs, s) {
      forall h: Handlers<P>, d: Id, w: World<P> | Wf(w)
        ensures Finishes(h, rs, s, d, w)
      {
        SpawningEnds(h, rs, |Absent(w, DeviceSpawns(rs))| + 1, s, d, w);
      }
    } else {
      var w: World<P> := World(map[], 0, [], []);
      forall n: nat
        ensures !SearchAndMerge(Eager(p), Image(rs), n, s, 0, w).Done?
      {
        UnsafeNeverEnds(rs, n, s, p);
      }
      assert Wf(w) && !Finishes(Eager(p), rs, s, 0, w);
    }
  }

  // The nesting bound is only a device of definition: once it suffices, it does not matter.

  lemma {:induction false} WalkDepthIrrelevant<P>(h: Handlers<P>, rs: RuleSet, n: nat, doc: Doc, d: Id, w: World<P>)
    requires Walk(h, rs, n, doc, d, w).Done?
    ensures Walk(h, rs, n + 1, doc, d, w) == Walk(h, rs, n, doc, d, w)
    decreases n, 1, doc
  {
    hide ApplyTree, GetRuleType, ScanAttrs, GatherText;
    match doc
    case Nil =>
    case Chars(_, rest) => WalkDepthIrrelevant(h, rs, n, rest, d, w);
    case Element(name, attrs, kids, rest) =>
      var t := GetRuleType(name);
      var v := View(t, LeafContent(t, attrs, kids));
      var r :=
        if t.Unknown? then Walk(h, rs, n, kids, d, w)
        else if t.Match? then
          if h.holds(View(t, AttrContent(t, attrs)), d, w) then Walk(h, rs, n, kids, d, w) else Done(w)
        else ApplyTree(h, rs, n, v, d, w);
      if t.Unknown? || (t.Match? && h.holds(View(t, AttrContent(t, attrs)), d, w)) {
        WalkDepthIrrelevant(h, rs, n, kids, d, w);
      } else if !t.Match? {
        ApplyDepthIrrelevant(h, rs, n, v, d, w);
      }
      WalkDepthIrrelevant(h, rs, n, rest, d, r.world);
  }

  lemma {:induction false} ApplyDepthIrrelevant<P>(h: Handlers<P>, rs: RuleSet, n: nat, v: RuleView, d: Id, w: World<P>)
    requires ApplyTree(h, rs, n, v, d, w).Done?
    ensures ApplyTree(h, rs, n + 1, v, d, w) == ApplyTree(h, rs, n, v, d, w)
    decreases n, 0
  {
    hide WalkFiles, Create, Settle, Present, ApplyMerge;
    if v.rtype.Spawn? && !Present(w, v.key) {
      SpawnUnfolds(h, rs, n, v, d, w);
      SpawnUnfolds(h, rs, n + 1, v, d, w);
      var c := Create(h, w, d, v.key);
      FilesDepthIrrelevant(h, rs, n - 1, rs.information, w.next, c);
      FilesDepthIrrelevant(h, rs, n - 1, rs.policy, w.next, WalkFiles(h, rs, n - 1, rs.information, w.next, c).world);
    }
  }

  lemma {:induction false} FilesDepthIrrelevant<P>(h: Handlers<P>, rs: RuleSet, n: nat, ss: seq<Source>, d: Id, w: World<P>)
    requires WalkFiles(h, rs, n, ss, d, w).Done?
    ensures WalkFiles(h, rs, n + 1, ss, d, w) == WalkFiles(h, rs, n, ss, d, w)
    decreases n, 2, |ss|
  {
    hide Walk;
    if ss != [] {
      WalkDepthIrrelevant(h, rs, n, ss[0].doc, d, w);
      FilesDepthIrrelevant(h, rs, n, ss[1..], d, Walk(h, rs, n, ss[0].doc, d, w).world);
    }
  }

  // Without the prefix the device is never stored, so its own rules spawn it again.

  /** Some `<spawn>` of `udi` is met on every walk of the document. */
  predicate AlwaysSpawns(doc: Doc, udi: Text) {
    match doc
    case Nil => false
    case Chars(_, rest) => AlwaysSpawns(rest, udi)
    case Element(name, attrs, kids, rest) =>
      var t := GetRuleType(name);
      || (t.Spawn? && LeafContent(t, attrs, kids).key == udi)
      || (t.Unknown? && AlwaysSpawns(kids, udi))
      || AlwaysSpawns(rest, udi)
  }

  predicate AlwaysSpawned(ss: seq<Source>, udi: Text) {
    exists i :: 0 <= i < |ss| && AlwaysSpawns(ss[i].doc, udi)
  }

  lemma StaysAbsent<P>(w: World<P>, w': World<P>, us: set<Text>, udi: Text)
    requires Evolves(w, w', us) && !Present(w, udi) && !HasPrefix(udi)
    ensures !Present(w', udi)
  {
    hide Present, HasPrefix;
    if Present(w', udi) {
      PresentMeans(w', udi);
      var d: Id :| Stored(w', d) && Udi(w', d) == udi;
      if d < w.next {
        OldStays(w, w', d);
        PresentMeans(w, udi);
      }
    }
  }

  ghost predicate Loops(rs: RuleSet, udi: Text) {
    (AlwaysSpawned(rs.information, udi) || AlwaysSpawned(rs.policy, udi)) && !HasPrefix(udi)
  }

  lemma {:induction false} WalkLoops<P>(h: Handlers<P>, rs: RuleSet, n: nat, doc: Doc, d: Id, w: World<P>, us: set<Text>, udi: Text)
    requires Wf(w) && CoversDevice(rs, us) && DocSpawns(doc) <= us
    requires Loops(rs, udi) && !Present(w, udi) && AlwaysSpawns(doc, udi)
    ensures Walk(h, rs, n, doc, d, w).TooDeep?
    decreases n, 1, doc
  {
    hide Evolves, ApplyTree, GetRuleType, ScanAttrs, GatherText, Wf, CoversDevice, Present, HasPrefix;
    match doc
    case Chars(_, rest) => WalkLoops(h, rs, n, rest, d, w, us, udi);
    case Element(name, attrs, kids, rest) =>
      var t := GetRuleType(name);
      var v := View(t, LeafContent(t, attrs, kids));
      EvolvesReflexive(w, us);
      var r :=
        if t.Unknown? then Walk(h, rs, n, kids, d, w)
        else if t.Match? then
          if h.holds(View(t, AttrContent(t, attrs)), d, w) then Walk(h, rs, n, kids, d, w) else Done(w)
        else ApplyTree(h, rs, n, v, d, w);
      if t.Unknown? || t.Match? {
        WalkEvolves(h, rs, n, kids, d, w, us);
        if t.Unknown? && AlwaysSpawns(kids, udi) {
          WalkLoops(h, rs, n, kids, d, w, us, udi);
        }
      } else {
        ApplyEvolves(h, rs, n, v, d, w, us);
        if t.Spawn? && v.key == udi {
          SpawnLoops(h, rs, n, v, d, w, us, udi);
        }
      }
      if r.Done? {
        EvolvedIsWf(w, r.world, us);
        StaysAbsent(w, r.world, us, udi);
        WalkLoops(h, rs, n, rest, d, r.world, us, udi);
      }
  }

  lemma {:induction false} SpawnLoops<P>(h: Handlers<P>, rs: RuleSet, n: nat, v: RuleView, d: Id, w: World<P>, us: set<Text>, udi: Text)
    requires Wf(w) && CoversDevice(rs, us) && v.rtype.Spawn? && v.key == udi && udi in us
    requires Loops(rs, udi) && !Present(w, udi)
    ensures ApplyTree(h, rs, n, v, d, w).TooDeep?
    decreases n, 0
  {
    hide Evolves, WalkFiles, Create, Settle, Wf, Present, HasPrefix, FileSpawns;
    if n > 0 {
      var c := Create(h, w, d, udi);
      SpawnUnfolds(h, rs, n, v, d, w);
      CreateEvolves(h, w, d, udi, us);
      EvolvedIsWf(w, c, us);
      StaysAbsent(w, c, us, udi);
      FilesEvolve(h, rs, n - 1, rs.information, w.next, c, us);
      var r1 := WalkFiles(h, rs, n - 1, rs.information, w.next, c);
      if AlwaysSpawned(rs.information, udi) {
        FilesLoop(h, rs, n - 1, rs.information, w.next, c, us, udi);
      } else if r1.Done? {
        EvolvedIsWf(c, r1.world, us);
        StaysAbsent(c, r1.world, us, udi);
        FilesLoop(h, rs, n - 1, rs.policy, w.next, r1.world, us, udi);
      }
    }
  }

  lemma {:induction false} FilesLoop<P>(h: Handlers<P>, rs: RuleSet, n: nat, ss: seq<Source>, d: Id, w: World<P>, us: set<Text>, udi: Text)
    requires Wf(w) && CoversDevice(rs, us) && FileSpawns(ss) <= us
    requires Loops(rs, udi) && !Present(w, udi) && AlwaysSpawned(ss, udi)
    ensures WalkFiles(h, rs, n, ss, d, w).TooDeep?
    decreases n, 2, |ss|
  {
    hide Evolves, Walk, Wf, CoversDevice, DocSpawns, Present, HasPrefix;
    var i :| 0 <= i < |ss| && AlwaysSpawns(ss[i].doc, udi);
    WalkEvolves(h, rs, n, ss[0].doc, d, w, us);
    if i == 0 {
      WalkLoops(h, rs, n, ss[0].doc, d, w, us, udi);
    } else {
      var r := Walk(h, rs, n, ss[0].doc, d, w);
      if r.Done? {
        EvolvedIsWf(w, r.world, us);
        StaysAbsent(w, r.world, us, udi);
        assert ss[1..][i - 1] == ss[i];
        FilesLoop(h, rs, n, ss[1..], d, r.world, us, udi);
      }
    }
  }

  /**
   For some rules it is not even a matter of the handlers: if a section and the rules of every device spawn, outside
   every match, a UDI without the prefix that no store holds, then no number of nested spawns is ever enough.
   */
  lemma BadPrefixNeverEnds<P(!new)>(h: Handlers<P>, rs: RuleSet, n: nat, s: Section, d: Id, w: World<P>, udi: Text)
    requires CleanRules(rs) && ImageFits(rs) && Wf(w)
    requires AlwaysSpawned(SectionOf(rs, s), udi) && Loops(rs, udi) && !Present(w, udi)
    ensures SearchAndMerge(h, Image(rs), n, s, d, w).TooDeep?
  {
    hide WalkFiles, SearchAndMerge, Image, FileSpawns, Wf, CleanRules, Present, HasPrefix, AlwaysSpawned;
    MachineMeetsWalk(h, rs, n, s, d, w);
    FilesLoop(h, rs, n, SectionOf(rs, s), d, w, Spawns(rs, s), udi);
  }
}
