/** What running rules does to devices: merges take effect, matches guard, spawned devices are searched and stored. */
module FdiEffects {
  import Lists
  import opened Options
  import opened Bytes
  import opened RuleLayout
  import opened FdiDocument
  import opened FdiCache
  import opened FdiInterpreter
  import opened FdiMachineProof
  import opened FdiSpawn
  import opened FdiMeaning

  /** `w'` is `w` with the properties `m` given to the devices in it, and nothing else changed. */
  ghost predicate Merged<P>(w: World<P>, w': World<P>, m: map<Id, P>) {
    && w'.next == w.next && w'.gdl == w.gdl && w'.tdl == w.tdl && w'.devs.Keys == w.devs.Keys
    && (forall x :: x in w.devs ==> w'.devs[x].udi == w.devs[x].udi)
    && (forall x :: x in w.devs ==> w'.devs[x].props == if x in m then m[x] else w.devs[x].props)
  }

  /** A rule other than a spawn always ends, and gives every device the properties the rule says. */
  lemma MergeTakesEffect<P>(h: Handlers<P>, img: Text, n: nat, v: RuleView, d: Id, w: World<P>)
    requires !v.rtype.Spawn?
    ensures var r := ApplyImage(h, img, n, v, d, w);
            r == Done(ApplyMerge(w, h.merge(v, d, w))) && Merged(w, r.world, h.merge(v, d, w))
  {
  }

  /** A spawn does nothing if a store has the UDI; otherwise the new device is searched for information, then for policy, then stored. */
  lemma SpawnSearches<P>(h: Handlers<P>, img: Text, n: nat, v: RuleView, d: Id, w: World<P>)
    requires v.rtype.Spawn?
    ensures var r := ApplyImage(h, img, n, v, d, w);
            if Present(w, v.key) then r == Done(w)
            else if n == 0 then r.TooDeep?
            else
              var r1 := SearchAndMerge(h, img, n - 1, Information, w.next, Create(h, w, d, v.key));
              if !r1.Done? then r == r1
              else
                var r2 := SearchAndMerge(h, img, n - 1, Policy, w.next, r1.world);
                if !r2.Done? then r == r2 else r == Done(Settle(h, r2.world, w.next))
  {
    hide SearchAndMerge, Create, Settle, Present;
  }

  // Sections of one rule, from the bytes of the cache to the final state.

  /** A file that consists of one element. */
  ghost predicate OneElement(rs: RuleSet, s: Section, e: Doc) {
    e.Element? && e.rest == Nil && |SectionOf(rs, s)| == 1 && SectionOf(rs, s)[0].doc == e
  }

  lemma OneFileWalk<P>(h: Handlers<P>, rs: RuleSet, n: nat, s: Section, e: Doc, d: Id, w: World<P>)
    requires OneElement(rs, s, e)
    ensures WalkFiles(h, rs, n, SectionOf(rs, s), d, w) == Walk(h, rs, n, e, d, w)
  {
    hide Walk;
    var ss := SectionOf(rs, s);
    assert ss[1..] == [];
    assert forall w' :: WalkFiles(h, rs, n, [], d, w') == Done(w');
  }

  lemma LeafWalk<P>(h: Handlers<P>, rs: RuleSet, n: nat, e: Doc, d: Id, w: World<P>)
    requires e.Element? && e.rest == Nil && OnlyText(e.kids)
    requires GetRuleType(e.name) in {Merge, Append, Prepend, AddSet, Remove, Clear}
    ensures var (t, c) := LeafRule(e.name, e.attrs, e.kids);
            var r := Walk(h, rs, n, e, d, w);
            r.Done? && Merged(w, r.world, h.merge(RuleView(t, c.typeMatch, c.typeMerge, c.key, c.value), d, w))
  {
    hide GetRuleType, ScanAttrs, GatherText, Chunks;
    var t := GetRuleType(e.name);
    LeafValue(t, e.attrs, e.kids);
    var v := View(t, LeafContent(t, e.attrs, e.kids));
    var r := ApplyTree(h, rs, n, v, d, w);
    assert r == Done(ApplyMerge(w, h.merge(v, d, w)));
    assert Walk(h, rs, n, Nil, d, r.world) == r;
  }

  /** A section of one merge, append, prepend, addset, remove or clear does to the devices what that rule, with its text, says. */
  lemma OneLeafSection<P(!new)>(h: Handlers<P>, rs: RuleSet, n: nat, s: Section, e: Doc, d: Id, w: World<P>)
    requires CleanRules(rs) && ImageFits(rs) && OneElement(rs, s, e) && OnlyText(e.kids)
    requires GetRuleType(e.name) in {Merge, Append, Prepend, AddSet, Remove, Clear}
    ensures var (t, c) := LeafRule(e.name, e.attrs, e.kids);
            var r := SearchAndMerge(h, Image(rs), n, s, d, w);
            r.Done? && Merged(w, r.world, h.merge(RuleView(t, c.typeMatch, c.typeMerge, c.key, c.value), d, w))
  {
    hide SearchAndMerge, Image, WalkFiles, Walk, Merged, CleanRules, ImageFits, GetRuleType, LeafRule;
    MachineMeetsWalk(h, rs, n, s, d, w);
    OneFileWalk(h, rs, n, s, e, d, w);
    LeafWalk(h, rs, n, e, d, w);
  }

  /** A match around such a rule guards it. */
  lemma OneMatchSection<P(!new)>(h: Handlers<P>, rs: RuleSet, n: nat, s: Section, e: Doc, d: Id, w: World<P>)
    requires CleanRules(rs) && ImageFits(rs) && OneElement(rs, s, e) && GetRuleType(e.name).Match?
    requires e.kids.Element? && e.kids.rest == Nil && OnlyText(e.kids.kids)
    requires GetRuleType(e.kids.name) in {Merge, Append, Prepend, AddSet, Remove, Clear}
    ensures var a := AttrContent(Match, e.attrs);
            var (t, c) := LeafRule(e.kids.name, e.kids.attrs, e.kids.kids);
            var r := SearchAndMerge(h, Image(rs), n, s, d, w);
            && r.Done?
            && if h.holds(RuleView(Match, a.typeMatch, a.typeMerge, a.key, a.value), d, w)
               then Merged(w, r.world, h.merge(RuleView(t, c.typeMatch, c.typeMerge, c.key, c.value), d, w))
               else r.world == w
  {
    hide SearchAndMerge, Image, WalkFiles, Merged, CleanRules, ImageFits, GetRuleType, LeafRule, AttrContent, ApplyTree, LeafContent;
    MachineMeetsWalk(h, rs, n, s, d, w);
    OneFileWalk(h, rs, n, s, e, d, w);
    LeafWalk(h, rs, n, e.kids, d, w);
    assert Walk(h, rs, n, Nil, d, w) == Done(w);
  }

  // Spawned devices.

  /** Where a spawned device ends up: in the global store, in the temporary one while it has callouts, and in none without the prefix. */
  lemma SpawnAlone<P>(h: Handlers<P>, rs: RuleSet, n: nat, v: RuleView, d: Id, w: World<P>)
    requires Wf(w) && rs.information == [] && rs.policy == [] && v.rtype.Spawn? && !Present(w, v.key) && n > 0
    ensures var p := h.spawned(Udi(w, d), v.key);
            var good := Ascii("/org/freedesktop/Hal/devices/") <= v.key;
            ApplyTree(h, rs, n, v, d, w)
            == Done(World(w.devs[w.next := Device(v.key, p)], w.next + 1,
                          if good && !h.hasCallouts(p) then [w.next] + w.gdl else w.gdl,
                          if good && h.hasCallouts(p) then [w.next] + w.tdl else w.tdl))
  {
    SpawnUnfolds(h, rs, n, v, d, w);
    hide Present, Ascii;
    var c := Create(h, w, d, v.key);
    assert WalkFiles(h, rs, n - 1, [], w.next, c) == Done(c);
    assert w.next !in w.tdl by {
      assert w.next in w.gdl + w.tdl ==> w.next in w.devs;
    }
    Lists.RemoveAbsent(w.tdl, w.next);
    assert ([w.next] + w.tdl)[1..] == w.tdl;
    assert Udi(c, w.next) == v.key;
  }

  /** Whatever its own rules do, a device spawned with the prefix is afterwards in exactly one store, once, under its UDI. */
  lemma SpawnedIsStored<P>(h: Handlers<P>, rs: RuleSet, n: nat, v: RuleView, d: Id, w: World<P>)
    requires Wf(w) && v.rtype.Spawn? && !Present(w, v.key) && HasPrefix(v.key) && ApplyTree(h, rs, n, v, d, w).Done?
    ensures var w' := ApplyTree(h, rs, n, v, d, w).world;
            && w.next in w'.devs && w'.devs[w.next].udi == v.key
            && multiset(w'.gdl)[w.next] == (if h.hasCallouts(w'.devs[w.next].props) then 0 else 1)
            && multiset(w'.tdl)[w.next] == (if h.hasCallouts(w'.devs[w.next].props) then 1 else 0)
  {
    hide Present, HasPrefix, WalkFiles, Create, Settle, Evolves, FileSpawns, Wf;
    SpawnUnfolds(h, rs, n, v, d, w);
    var us := DeviceSpawns(rs) + {v.key};
    var c := Create(h, w, d, v.key);
    CreateEvolves(h, w, d, v.key, us);
    EvolvedIsWf(w, c, us);
    FilesEvolve(h, rs, n - 1, rs.information, w.next, c, us);
    var w1 := WalkFiles(h, rs, n - 1, rs.information, w.next, c).world;
    EvolvedIsWf(c, w1, us);
    FilesEvolve(h, rs, n - 1, rs.policy, w.next, w1, us);
    var w2 := WalkFiles(h, rs, n - 1, rs.policy, w.next, w1).world;
    EvolvesTransitive(c, w1, w2, us);
    EvolvedKeeps(c, w2, us);
    CreatedIs(h, w, d, v.key);
    SettlesInStore(h, w2, w.next);
  }

  lemma CreatedIs<P>(h: Handlers<P>, w: World<P>, d: Id, udi: Text)
    ensures var c := Create(h, w, d, udi); w.next in c.devs && c.devs[w.next].udi == udi && c.next == w.next + 1
  {
    hide HasPrefix;
  }

  lemma SettlesInStore<P>(h: Handlers<P>, w: World<P>, d: Id)
    requires d in w.devs && HasPrefix(w.devs[d].udi) && multiset(w.gdl)[d] == 0 && multiset(w.tdl)[d] == 1
    ensures var w' := Settle(h, w, d);
            && w'.devs == w.devs
            && multiset(w'.gdl)[d] == (if h.hasCallouts(w.devs[d].props) then 0 else 1)
            && multiset(w'.tdl)[d] == (if h.hasCallouts(w.devs[d].props) then 1 else 0)
  {
    hide HasPrefix, Lists.Remove;
    RemoveCounts(w.tdl, d);
    assert multiset([d] + w.gdl) == multiset{d} + multiset(w.gdl);
  }
}
