/**
 The rule interpreter (hald/device_info.c): a loop over the mapped cache that either steps
 to the next rule or takes a match rule's jump, and that re-enters itself for `<spawn>`.
 `Walk` is the meaning of the same rules as trees.
 */
module FdiInterpreter {
  import opened Options
  import Lists
  import opened Bytes
  import opened RuleLayout
  import opened FdiDocument
  import opened FdiCache

  // Devices and the two device stores.

  type Id = nat
  datatype Device<P> = Device(udi: Text, props: P)
  datatype World<P> = World(devs: map<Id, Device<P>>, next: Id, gdl: seq<Id>, tdl: seq<Id>)

  /**
   What the theorem is parametric in: `handle_match`, the non-spawn branches of `handle_merge`
   (new properties for any devices), a spawned device's first properties, and whether a device
   has add-callouts to wait for.
   */
  datatype Handlers<!P> = Handlers(
    holds: (RuleView, Id, World<P>) -> bool,
    merge: (RuleView, Id, World<P>) -> map<Id, P>,
    spawned: (Text, Text) -> P,
    hasCallouts: P -> bool)

  datatype Result<P> =
    | Done(world: World<P>)
    | TooDeep  // more nested spawns than allowed for
    | Fault    // left the rules: a read outside the image, "Rule is NULL on jump", or a move backwards

  datatype Section = Preprobe | Information | Policy

  function Udi<P>(w: World<P>, d: Id): Text {
    if d in w.devs then w.devs[d].udi else []
  }

  /** `hal_device_store_find` on one store. */
  function FindIn<P>(w: World<P>, store: seq<Id>, udi: Text): (r: Option<Id>)
    ensures r.Some? ==> r.value in store && Udi(w, r.value) == udi
    ensures r.None? ==> forall d :: d in store ==> Udi(w, d) != udi
  {
    if store == [] then None
    else if Udi(w, store[0]) == udi then Some(store[0])
    else FindIn(w, store[1..], udi)
  }

  predicate Present<P>(w: World<P>, udi: Text) {
    FindIn(w, w.gdl, udi).Some? || FindIn(w, w.tdl, udi).Some?
  }

  function Prefix(): Text {
    Ascii("/org/freedesktop/Hal/devices/")
  }

  predicate HasPrefix(udi: Text) {
    Prefix() <= udi
  }

  function ApplyMerge<P>(w: World<P>, m: map<Id, P>): World<P> {
    w.(devs := map d | d in w.devs :: w.devs[d].(props := if d in m then m[d] else w.devs[d].props))
  }

  /** A new device, put in the temporary store if that store accepts its UDI. */
  function Create<P>(h: Handlers<P>, w: World<P>, parent: Id, udi: Text): World<P> {
    w.(devs := w.devs[w.next := Device(udi, h.spawned(Udi(w, parent), udi))],
       next := w.next + 1,
       tdl := if HasPrefix(udi) then [w.next] + w.tdl else w.tdl)
  }

  /** `hal_util_callout_device_add`: without callouts the device moves to the global store at once. */
  function Settle<P>(h: Handlers<P>, w: World<P>, d: Id): World<P> {
    if d in w.devs && h.hasCallouts(w.devs[d].props) then w
    else
      var w' := w.(tdl := Lists.Remove(w.tdl, d));
      if HasPrefix(Udi(w, d)) then w'.(gdl := [d] + w'.gdl) else w'
  }

  type Search<!P> = (Section, Id, World<P>) -> Result<P>

  /** A rule other than a match; `search` runs one section for a newly spawned device. */
  function Apply<P>(h: Handlers<P>, n: nat, v: RuleView, d: Id, w: World<P>, search: Search<P>): Result<P> {
    if !v.rtype.Spawn? then Done(ApplyMerge(w, h.merge(v, d, w)))
    else if Present(w, v.key) then Done(w)
    else if n == 0 then TooDeep
    else
      match search(Information, w.next, Create(h, w, d, v.key))
      case Done(w1) =>
        (match search(Policy, w.next, w1)
         case Done(w2) => Done(Settle(h, w2, w.next))
         case r => r)
      case r => r
  }

  // The reference walk.

  function View(t: RuleType, c: Content): RuleView {
    RuleView(t, c.typeMatch, c.typeMerge, c.key, c.value)
  }

  function SectionOf(rs: RuleSet, s: Section): seq<Source> {
    match s
    case Preprobe => rs.preprobe
    case Information => rs.information
    case Policy => rs.policy
  }

  /** If the match holds now, walk its children, else skip them; apply every other rule in order. */
  function Walk<P>(h: Handlers<P>, rs: RuleSet, n: nat, doc: Doc, d: Id, w: World<P>): Result<P>
    decreases n, 1, doc
  {
    match doc
    case Nil => Done(w)
    case Chars(_, rest) => Walk(h, rs, n, rest, d, w)
    case Element(name, attrs, kids, rest) =>
      var t := GetRuleType(name);
      var r :=
        if t.Unknown? then Walk(h, rs, n, kids, d, w)
        else if t.Match? then
          if h.holds(View(t, AttrContent(t, attrs)), d, w) then Walk(h, rs, n, kids, d, w) else Done(w)
        else ApplyTree(h, rs, n, View(t, LeafContent(t, attrs, kids)), d, w);
      if r.Done? then Walk(h, rs, n, rest, d, r.world) else r
  }

  function ApplyTree<P>(h: Handlers<P>, rs: RuleSet, n: nat, v: RuleView, d: Id, w: World<P>): Result<P>
    decreases n, 0
  {
    if n == 0 then Apply(h, n, v, d, w, (s: Section, d': Id, w': World<P>) => TooDeep)
    else Apply(h, n, v, d, w, (s: Section, d': Id, w': World<P>) => WalkFiles(h, rs, n - 1, SectionOf(rs, s), d', w'))
  }

  function WalkFiles<P>(h: Handlers<P>, rs: RuleSet, n: nat, ss: seq<Source>, d: Id, w: World<P>): Result<P>
    decreases n, 2, |ss|
  {
    if ss == [] then Done(w)
    else
      match Walk(h, rs, n, ss[0].doc, d, w)
      case Done(w') => WalkFiles(h, rs, n, ss[1..], d, w')
      case r => r
  }

  // The machine.

  function Low(hd: Header, s: Section): nat {
    match s case Preprobe => hd.preprobe case Information => hd.information case Policy => hd.policy
  }

  function High(hd: Header, s: Section): nat {
    match s case Preprobe => hd.information case Information => hd.policy case Policy => hd.allRulesSize
  }

  /** The range test shared by `di_next` and `di_jump`. */
  predicate Within(hd: Header, offset: nat, next: nat) {
    || (offset >= hd.preprobe && next < hd.information)
    || (offset >= hd.information && next < hd.policy)
    || (offset >= hd.policy && next < hd.allRulesSize)
  }

  function DiNext(img: Text, p: nat): Option<nat>
    requires SIZEOF_HEADER <= |img| && p + SIZEOF_RULE <= |img|
  {
    var next := p + ReadRule(img, p).ruleSize;
    if Within(ReadHeader(img), p, next) then Some(next) else None
  }

  function DiJump(img: Text, p: nat): Option<nat>
    requires SIZEOF_HEADER <= |img| && p + SIZEOF_RULE <= |img|
  {
    var next := ReadRule(img, p).jumpPosition;
    if next != 0 && Within(ReadHeader(img), p, next) then Some(next) else None
  }

  function ViewAt(img: Text, p: nat): RuleView
    requires p + SIZEOF_RULE <= |img|
  {
    var r := ReadRule(img, p);
    RuleView(r.rtype, r.typeMatch, r.typeMerge, CString(img[p + SIZEOF_RULE..]),
             if r.valueOffset <= |img| then CString(img[r.valueOffset..]) else [])
  }

  /** `rules_match_and_merge_device` from the rule at `p` on. */
  function Exec<P>(h: Handlers<P>, img: Text, n: nat, p: nat, d: Id, w: World<P>): Result<P>
    decreases n, 1, |img| - p
  {
    if |img| < SIZEOF_HEADER || |img| < p + SIZEOF_RULE then Fault
    else
      var v := ViewAt(img, p);
      if v.rtype.Match? && !h.holds(v, d, w) then
        match DiJump(img, p)
        case None => Fault
        case Some(q) => if q <= p then Fault else Exec(h, img, n, q, d, w)
      else if v.rtype.Unknown? then
        match DiJump(img, p)
        case None => Done(w)
        case Some(q) =>
          if |img| < q + SIZEOF_RULE then Fault else ExecAt(h, img, n, p, DiNext(img, q), d, w)
      else
        var r := if v.rtype.Match? || v.rtype.Eof? then Done(w) else ApplyImage(h, img, n, v, d, w);
        if r.Done? then ExecAt(h, img, n, p, DiNext(img, p), d, r.world) else r
  }

  function ExecAt<P>(h: Handlers<P>, img: Text, n: nat, p: nat, q: Option<nat>, d: Id, w: World<P>): Result<P>
    requires p < |img|
    decreases n, 1, |img| - p, 0
  {
    if q.None? then Done(w)
    else if q.value <= p then Fault
    else Exec(h, img, n, q.value, d, w)
  }

  function ApplyImage<P>(h: Handlers<P>, img: Text, n: nat, v: RuleView, d: Id, w: World<P>): Result<P>
    decreases n, 0
  {
    if n == 0 then Apply(h, n, v, d, w, (s: Section, d': Id, w': World<P>) => TooDeep)
    else Apply(h, n, v, d, w, (s: Section, d': Id, w': World<P>) => SearchAndMerge(h, img, n - 1, s, d', w'))
  }

  /** `di_search_and_merge`. */
  function SearchAndMerge<P>(h: Handlers<P>, img: Text, n: nat, s: Section, d: Id, w: World<P>): Result<P>
    decreases n, 2
  {
    if |img| < SIZEOF_HEADER then Fault
    else
      var hd := ReadHeader(img);
      if High(hd, s) > Low(hd, s) then Exec(h, img, n, Low(hd, s), d, w) else Done(w)
  }
}
