/**
 Compiler correctness end to end: interpreting the bytes of a compiled cache is walking the
 rule trees it was compiled from, whatever the handlers do.
 */
module FdiMachineProof {
  import opened Options
  import opened Bytes
  import opened RuleLayout
  import opened FdiDocument
  import opened FdiCache
  import opened FdiInterpreter

  /** The image holds `t` at offset `b`. */
  predicate At(img: Text, b: nat, t: Text) {
    b + |t| <= |img| && img[b..b + |t|] == t
  }

  lemma AtSplit(img: Text, b: nat, x: Text, y: Text)
    requires At(img, b, x + y)
    ensures At(img, b, x) && At(img, b + |x|, y)
  {
    var z := x + y;
    SubSlice(img, b, b + |z|, z, 0, |x|);
    SubSlice(img, b, b + |z|, z, |x|, |z|);
  }

  // XML text has no NUL characters.

  predicate CleanAttrs(attrs: seq<Attr>) {
    forall i :: 0 <= i < |attrs| ==> NulFree(attrs[i].value)
  }

  predicate CleanDoc(d: Doc) {
    match d
    case Nil => true
    case Chars(text, rest) => NulFree(text) && CleanDoc(rest)
    case Element(_, attrs, kids, rest) => CleanAttrs(attrs) && CleanDoc(kids) && CleanDoc(rest)
  }

  predicate CleanContent(c: Content) {
    NulFree(c.key) && NulFree(c.value) && c.typeMatch < U32 && c.typeMerge < U32
  }

  lemma {:induction false} ScanIsClean(t: RuleType, attrs: seq<Attr>, c: Content)
    requires CleanAttrs(attrs) && CleanContent(c)
    ensures CleanContent(ScanAttrs(t, attrs, c).1)
    decreases |attrs|
  {
    hide GetMatchType, GetMergeType;
    if attrs != [] {
      assert NulFree(attrs[0].value);
      ScanIsClean(t, attrs[1..], ScanAttr(t, attrs[0], c).1);
    }
  }

  lemma {:induction false} TextIsClean(t: RuleType, value: Text, d: Doc)
    requires NulFree(value) && CleanDoc(d)
    ensures NulFree(GatherText(t, value, d))
    decreases d
  {
    if d.Chars? {
      TextIsClean(t, if TakesText(t) then AddChunk(value, d.text) else value, d.rest);
    }
  }

  // One rule.

  lemma CStringAt(img: Text, p: nat, t: Text, k: nat)
    requires NulFree(t) && At(img, p, t + Zeros(k)) && k > 0
    ensures CString(img[p..]) == t
  {
    AtSplit(img, p, t, Zeros(k));
    var rest := img[p + |t|..];
    assert img[p + |t|..p + |t| + k][0] == 0;
    assert img[p..] == img[p..p + |t|] + rest;
    CStringReads(t, rest);
  }

  lemma StoredString(t: Text)
    ensures Pad4(t + [0]) == t + Zeros(Round4(|t| + 1) - |t|)
  {
  }

  lemma RuleSplits(img: Text, b: nat, t: RuleType, c: Content, jump: nat)
    requires At(img, b, EmitRule(b, t, c, jump))
    ensures At(img, Round8(b), RuleBytes(RuleAt(Round8(b), t, c, jump)))
    ensures At(img, Round8(b) + SIZEOF_RULE, Body(c.key, c.value))
  {
    hide RuleBytes, RuleAt, Body, At, Round8;
    var r := RuleBytes(RuleAt(Round8(b), t, c, jump));
    var z := Zeros(Round8(b) - b);
    AtSplit(img, b, z + r, Body(c.key, c.value));
    AtSplit(img, b, z, r);
  }

  lemma StoredRuleIsRepresentable(p: nat, t: RuleType, c: Content, jump: nat)
    requires p + SIZEOF_RULE + |Body(c.key, c.value)| < U32 && jump < U32 && CleanContent(c)
    ensures Representable(RuleAt(p, t, c, jump))
  {
    hide Body, NulFree;
  }

  /** A rule reads back as it was emitted: struct, key and value. */
  lemma RuleReadsBack(img: Text, b: nat, t: RuleType, c: Content, jump: nat)
    requires At(img, b, EmitRule(b, t, c, jump)) && |img| < U32 && jump < U32
    requires CleanContent(c)
    requires EMPTY_STRING <= |img| && CString(img[EMPTY_STRING..]) == []
    ensures Round8(b) + SIZEOF_RULE <= |img|
    ensures ReadRule(img, Round8(b)) == RuleAt(Round8(b), t, c, jump)
    ensures ViewAt(img, Round8(b)) == View(t, c)
  {
    hide RuleBytes, ReadRule, Body, Round4, Round8, NulFree, EmitRule, Representable, CString, RuleSize;
    var p := Round8(b);
    RuleSplits(img, b, t, c, jump);
    StoredRuleIsRepresentable(p, t, c, jump);
    ReadStoredRule(img, p, RuleAt(p, t, c, jump));
    StringsReadBack(img, p + SIZEOF_RULE, c.key, c.value);
  }

  lemma StoredStringReads(img: Text, o: nat, t: Text)
    requires At(img, o, Pad4(t + [0])) && NulFree(t)
    ensures CString(img[o..]) == t
  {
    hide NulFree, Pad4, At, CString;
    StoredString(t);
    CStringAt(img, o, t, Round4(|t| + 1) - |t|);
  }

  lemma StringsReadBack(img: Text, o: nat, key: Text, value: Text)
    requires At(img, o, Body(key, value)) && NulFree(key) && NulFree(value)
    ensures CString(img[o..]) == key
    ensures value != [] ==> CString(img[o + Round4(|key| + 1)..]) == value
  {
    hide NulFree, Pad4, Round4, CString, At;
    var x, y := Pad4(key + [0]), if value == [] then [] else Pad4(value + [0]);
    AtSplit(img, o, x, y);
    StoredStringReads(img, o, key);
    if value != [] {
      StoredStringReads(img, o + |x|, value);
    }
  }

  // Single machine steps.

  predicate Mapped(img: Text, hd: Header) {
    && SIZEOF_HEADER <= |img| < U32
    && ReadHeader(img) == hd
    && CString(img[EMPTY_STRING..]) == []
    && hd.preprobe <= hd.information <= hd.policy
  }

  /** Moves that stay below the section's end are allowed. */
  lemma InsideSection(hd: Header, s: Section, p: nat, q: nat)
    requires Low(hd, s) <= p && q < High(hd, s)
    ensures Within(hd, p, q)
  {
  }

  /** Moves from a section to or past its end are refused. */
  lemma PastSection(hd: Header, s: Section, p: nat, q: nat)
    requires hd.preprobe <= hd.information <= hd.policy
    requires Low(hd, s) <= p < High(hd, s) <= q
    ensures !Within(hd, p, q)
  {
  }

  lemma RuleAdvances(b: nat, c: Content)
    ensures Round8(b) < Round8(RuleEnd(b, c))
  {
  }

  lemma NextRule(img: Text, hd: Header, s: Section, b: nat, t: RuleType, c: Content, jump: nat)
    requires Mapped(img, hd) && At(img, b, EmitRule(b, t, c, jump)) && CleanContent(c) && jump < U32
    requires Low(hd, s) <= Round8(b) < High(hd, s)
    ensures Round8(b) + SIZEOF_RULE <= |img|
    ensures ViewAt(img, Round8(b)) == View(t, c)
    ensures var q := Round8(RuleEnd(b, c));
            && Round8(b) < q
            && DiNext(img, Round8(b)) == if q < High(hd, s) then Some(q) else None
    ensures jump != 0 && jump < High(hd, s) ==> DiJump(img, Round8(b)) == Some(jump)
  {
    hide EmitRule, ReadRule, ReadHeader, Within, Low, High, ViewAt, View, CString, RuleSize;
    var p, q := Round8(b), Round8(RuleEnd(b, c));
    RuleReadsBack(img, b, t, c, jump);
    RuleAdvances(b, c);
    RuleSizeTiles(b, c);
    if q < High(hd, s) {
      InsideSection(hd, s, p, q);
    } else {
      PastSection(hd, s, p, q);
    }
    if jump < High(hd, s) {
      InsideSection(hd, s, p, jump);
    }
  }

  /** A match rule: fall through to its first child, or jump strictly forward. */
  lemma ExecMatch<P>(h: Handlers<P>, img: Text, hd: Header, s: Section, n: nat, b: nat, c: Content, jump: nat, d: Id, w: World<P>)
    requires Mapped(img, hd) && At(img, b, EmitRule(b, Match, c, jump)) && CleanContent(c) && jump < U32
    requires Low(hd, s) <= Round8(b) && Round8(RuleEnd(b, c)) <= jump < High(hd, s)
    ensures Exec(h, img, n, Round8(b), d, w)
            == Exec(h, img, n, if h.holds(View(Match, c), d, w) then Round8(RuleEnd(b, c)) else jump, d, w)
  {
    hide EmitRule, ReadHeader, Low, High, ViewAt, DiNext, DiJump, CString, RuleEnd, Round8, Mapped;
    RuleAdvances(b, c);
    NextRule(img, hd, s, b, Match, c, jump);
  }

  /** Any other rule is applied and the machine steps to the next one. */
  lemma ExecLeaf<P>(h: Handlers<P>, img: Text, hd: Header, s: Section, n: nat, b: nat, t: RuleType, c: Content, d: Id, w: World<P>)
    requires !t.Match? && !t.Unknown? && !t.Eof?
    requires Mapped(img, hd) && At(img, b, EmitRule(b, t, c, 0)) && CleanContent(c)
    requires Low(hd, s) <= Round8(b) && Round8(RuleEnd(b, c)) < High(hd, s)
    ensures var r := ApplyImage(h, img, n, View(t, c), d, w);
            Exec(h, img, n, Round8(b), d, w)
            == if r.Done? then Exec(h, img, n, Round8(RuleEnd(b, c)), d, r.world) else r
  {
    hide EmitRule, ReadHeader, Low, High, ViewAt, DiNext, DiJump, CString, RuleEnd, Round8, ApplyImage;
    RuleAdvances(b, c);
    NextRule(img, hd, s, b, t, c, 0);
  }

  /** The rule that closes a file does nothing, and ends the run when it closes the section. */
  lemma ExecEof<P>(h: Handlers<P>, img: Text, hd: Header, s: Section, n: nat, b: nat, path: Text, d: Id, w: World<P>)
    requires Mapped(img, hd) && At(img, b, EmitRule(b, Eof, EofContent(path), 0)) && NulFree(path)
    requires Low(hd, s) <= Round8(b) < High(hd, s)
    ensures var q := Round8(RuleEnd(b, EofContent(path)));
            Exec(h, img, n, Round8(b), d, w) == if q < High(hd, s) then Exec(h, img, n, q, d, w) else Done(w)
  {
    hide EmitRule, ReadHeader, Low, High, ViewAt, DiNext, DiJump, CString, RuleEnd, Round8;
    NextRule(img, hd, s, b, Eof, EofContent(path), 0);
  }

  // Simulation.

  /** One level of spawn nesting down, searching the image is walking the rule set. */
  ghost predicate SearchesAgree<P(!new)>(h: Handlers<P>, img: Text, rs: RuleSet, m: int) {
    m >= 0 ==>
      forall s, d, w :: SearchAndMerge(h, img, m, s, d, w) == WalkFiles(h, rs, m, SectionOf(rs, s), d, w)
  }

  lemma ApplyAgrees<P(!new)>(h: Handlers<P>, img: Text, rs: RuleSet, n: nat, v: RuleView, d: Id, w: World<P>)
    requires SearchesAgree(h, img, rs, n - 1)
    ensures ApplyImage(h, img, n, v, d, w) == ApplyTree(h, rs, n, v, d, w)
  {
    hide WalkFiles, SearchAndMerge, Create, Settle, Present;
  }

  /** Going on at offset `b` from a result. */
  function Resume<P>(h: Handlers<P>, img: Text, n: nat, b: nat, d: Id, r: Result<P>): Result<P> {
    if r.Done? then Exec(h, img, n, Round8(b), d, r.world) else r
  }

  /** Running the bytes of a document is walking the document and going on behind it. */
  lemma {:induction false} Simulates<P(!new)>(h: Handlers<P>, img: Text, hd: Header, rs: RuleSet, s: Section, n: nat,
                                   doc: Doc, b: nat, d: Id, w: World<P>)
    requires Mapped(img, hd) && SearchesAgree(h, img, rs, n - 1)
    requires CleanDoc(doc) && At(img, b, Emit(b, doc))
    requires Low(hd, s) <= Round8(b) && Round8(b + |Emit(b, doc)|) < High(hd, s) <= U32
    ensures Exec(h, img, n, Round8(b), d, w)
            == Resume(h, img, n, b + |Emit(b, doc)|, d, Walk(h, rs, n, doc, d, w))
    decreases doc
  {
    hide Exec, ApplyTree, EmitRule, Low, High, Mapped, SearchesAgree, GetRuleType;
    match doc
    case Nil =>
    case Chars(_, rest) =>
      Simulates(h, img, hd, rs, s, n, rest, b, d, w);
    case Element(name, attrs, kids, rest) =>
      var t := GetRuleType(name);
      if t.Unknown? {
        SimulatesUnknown(h, img, hd, rs, s, n, doc, b, d, w);
      } else if t.Match? {
        SimulatesMatch(h, img, hd, rs, s, n, doc, b, d, w);
      } else {
        SimulatesLeaf(h, img, hd, rs, s, n, doc, b, d, w);
      }
  }

  lemma RoundMonotone(a: nat, b: nat)
    requires a <= b
    ensures Round8(a) <= Round8(b)
  {
  }

  lemma UnknownParts<P>(h: Handlers<P>, rs: RuleSet, n: nat, doc: Doc, b: nat, d: Id, w: World<P>)
    requires doc.Element? && GetRuleType(doc.name).Unknown?
    ensures Emit(b, doc) == Emit(b, doc.kids) + Emit(b + |Emit(b, doc.kids)|, doc.rest)
    ensures var x := Walk(h, rs, n, doc.kids, d, w);
            Walk(h, rs, n, doc, d, w) == if x.Done? then Walk(h, rs, n, doc.rest, d, x.world) else x
  {
    hide GetRuleType, EmitRule, ApplyTree, RuleEnd;
  }

  lemma MatchParts<P>(h: Handlers<P>, rs: RuleSet, n: nat, doc: Doc, b: nat, d: Id, w: World<P>)
    requires doc.Element? && GetRuleType(doc.name).Match?
    ensures var c := AttrContent(Match, doc.attrs);
            var e := RuleEnd(b, c);
            var k := Emit(e, doc.kids);
            Emit(b, doc) == EmitRule(b, Match, c, Round8(e + |k|)) + k + Emit(e + |k|, doc.rest)
    ensures var v := View(Match, AttrContent(Match, doc.attrs));
            var x := if h.holds(v, d, w) then Walk(h, rs, n, doc.kids, d, w) else Done(w);
            Walk(h, rs, n, doc, d, w) == if x.Done? then Walk(h, rs, n, doc.rest, d, x.world) else x
  {
    hide GetRuleType, EmitRule, ApplyTree, RuleEnd, ScanAttrs, Round8;
  }

  lemma {:induction false} SimulatesUnknown<P(!new)>(h: Handlers<P>, img: Text, hd: Header, rs: RuleSet, s: Section, n: nat,
                                          doc: Doc, b: nat, d: Id, w: World<P>)
    requires doc.Element? && GetRuleType(doc.name).Unknown?
    requires Mapped(img, hd) && SearchesAgree(h, img, rs, n - 1)
    requires CleanDoc(doc) && At(img, b, Emit(b, doc))
    requires Low(hd, s) <= Round8(b) && Round8(b + |Emit(b, doc)|) < High(hd, s) <= U32
    ensures Exec(h, img, n, Round8(b), d, w)
            == Resume(h, img, n, b + |Emit(b, doc)|, d, Walk(h, rs, n, doc, d, w))
    decreases doc, 0
  {
    hide Exec, Walk, Emit, EmitRule, Low, High, Mapped, SearchesAgree, GetRuleType, At, Round8;
    UnknownParts(h, rs, n, doc, b, d, w);
    var k := Emit(b, doc.kids);
    var r := Emit(b + |k|, doc.rest);
    AtSplit(img, b, k, r);
    RoundMonotone(b, b + |k|);
    RoundMonotone(b + |k|, b + |k| + |r|);
    Simulates(h, img, hd, rs, s, n, doc.kids, b, d, w);
    var x := Walk(h, rs, n, doc.kids, d, w);
    if x.Done? {
      Simulates(h, img, hd, rs, s, n, doc.rest, b + |k|, d, x.world);
    }
  }

  lemma {:induction false} SimulatesLeaf<P(!new)>(h: Handlers<P>, img: Text, hd: Header, rs: RuleSet, s: Section, n: nat,
                                       doc: Doc, b: nat, d: Id, w: World<P>)
    requires doc.Element? && !GetRuleType(doc.name).Unknown? && !GetRuleType(doc.name).Match?
    requires Mapped(img, hd) && SearchesAgree(h, img, rs, n - 1)
    requires CleanDoc(doc) && At(img, b, Emit(b, doc))
    requires Low(hd, s) <= Round8(b) && Round8(b + |Emit(b, doc)|) < High(hd, s) <= U32
    ensures Exec(h, img, n, Round8(b), d, w)
            == Resume(h, img, n, b + |Emit(b, doc)|, d, Walk(h, rs, n, doc, d, w))
    decreases doc, 0
  {
    hide Exec, ApplyTree, ApplyImage, EmitRule, Low, High, Mapped, SearchesAgree, GetRuleType, At, Round8, RuleEnd,
         ScanAttrs, GatherText;
    var t := GetRuleType(doc.name);
    var c := LeafContent(t, doc.attrs, doc.kids);
    ScanIsClean(t, doc.attrs, NoContent());
    TextIsClean(t, AttrContent(t, doc.attrs).value, doc.kids);
    var e := RuleEnd(b, c);
    var r := Emit(e, doc.rest);
    AtSplit(img, b, EmitRule(b, t, c, 0), r);
    RuleAdvances(b, c);
    RoundMonotone(e, e + |r|);
    ExecLeaf(h, img, hd, s, n, b, t, c, d, w);
    ApplyAgrees(h, img, rs, n, View(t, c), d, w);
    var x := ApplyTree(h, rs, n, View(t, c), d, w);
    if x.Done? {
      Simulates(h, img, hd, rs, s, n, doc.rest, e, d, x.world);
    }
  }

  lemma {:induction false} SimulatesMatch<P(!new)>(h: Handlers<P>, img: Text, hd: Header, rs: RuleSet, s: Section, n: nat,
                                        doc: Doc, b: nat, d: Id, w: World<P>)
    requires doc.Element? && GetRuleType(doc.name).Match?
    requires Mapped(img, hd) && SearchesAgree(h, img, rs, n - 1)
    requires CleanDoc(doc) && At(img, b, Emit(b, doc))
    requires Low(hd, s) <= Round8(b) && Round8(b + |Emit(b, doc)|) < High(hd, s) <= U32
    ensures Exec(h, img, n, Round8(b), d, w)
            == Resume(h, img, n, b + |Emit(b, doc)|, d, Walk(h, rs, n, doc, d, w))
    decreases doc, 0
  {
    hide Exec, Walk, Emit, EmitRule, Low, High, SearchesAgree, GetRuleType, At, Round8, RuleEnd, ScanAttrs, ReadHeader,
         CString;
    MatchParts(h, rs, n, doc, b, d, w);
    var c := AttrContent(Match, doc.attrs);
    ScanIsClean(Match, doc.attrs, NoContent());
    var e := RuleEnd(b, c);
    var k := Emit(e, doc.kids);
    var r := Emit(e + |k|, doc.rest);
    var jump := Round8(e + |k|);
    AtSplit(img, b, EmitRule(b, Match, c, jump) + k, r);
    AtSplit(img, b, EmitRule(b, Match, c, jump), k);
    RuleAdvances(b, c);
    RoundMonotone(e, e + |k|);
    RoundMonotone(e + |k|, e + |k| + |r|);
    ExecMatch(h, img, hd, s, n, b, c, jump, d, w);
    var x := if h.holds(View(Match, c), d, w) then Walk(h, rs, n, doc.kids, d, w) else Done(w);
    if h.holds(View(Match, c), d, w) {
      Simulates(h, img, hd, rs, s, n, doc.kids, e, d, w);
    }
    if x.Done? {
      Simulates(h, img, hd, rs, s, n, doc.rest, e + |k|, d, x.world);
    }
  }

  // Sections and the whole cache.

  predicate CleanSources(ss: seq<Source>) {
    forall i :: 0 <= i < |ss| ==> NulFree(ss[i].path) && CleanDoc(ss[i].doc)
  }

  predicate CleanRules(rs: RuleSet) {
    CleanSources(rs.preprobe) && CleanSources(rs.information) && CleanSources(rs.policy)
  }

  lemma FilesParts(b: nat, ss: seq<Source>)
    requires ss != []
    ensures var e := Emit(b, ss[0].doc);
            var z := EmitRule(b + |e|, Eof, EofContent(ss[0].path), 0);
            EmitFiles(b, ss) == e + z + EmitFiles(RuleEnd(b + |e|, EofContent(ss[0].path)), ss[1..])
    ensures |EmitFiles(b, ss)| > 0 && Round8(b) < b + |EmitFiles(b, ss)|
  {
    hide EmitRule, Emit;
    RoundMonotone(b, b + |Emit(b, ss[0].doc)|);
  }

  lemma {:induction false} SimulatesFiles<P(!new)>(h: Handlers<P>, img: Text, hd: Header, rs: RuleSet, s: Section, n: nat,
                                        ss: seq<Source>, b: nat, d: Id, w: World<P>)
    requires Mapped(img, hd) && SearchesAgree(h, img, rs, n - 1)
    requires ss != [] && CleanSources(ss) && At(img, b, EmitFiles(b, ss))
    requires Low(hd, s) <= Round8(b)
    requires b + |EmitFiles(b, ss)| <= High(hd, s) <= Round8(b + |EmitFiles(b, ss)|) && High(hd, s) <= U32
    ensures Exec(h, img, n, Round8(b), d, w) == WalkFiles(h, rs, n, ss, d, w)
    decreases |ss|
  {
    hide Exec, Walk, Emit, EmitRule, EmitFiles, Low, High, Mapped, SearchesAgree, At, Round8, RuleEnd, NulFree, CleanDoc;
    var path := ss[0].path;
    var e := Emit(b, ss[0].doc);
    var b1 := b + |e|;
    var z := EmitRule(b1, Eof, EofContent(path), 0);
    var b2 := RuleEnd(b1, EofContent(path));
    var r := EmitFiles(b2, ss[1..]);
    FilesParts(b, ss);
    AtSplit(img, b, e + z, r);
    AtSplit(img, b, e, z);
    EofAfter(b1, path);
    RoundMonotone(b, b1);
    Simulates(h, img, hd, rs, s, n, ss[0].doc, b, d, w);
    var x := Walk(h, rs, n, ss[0].doc, d, w);
    if x.Done? {
      ExecEof(h, img, hd, s, n, b1, path, d, x.world);
      if ss[1..] == [] {
        NoFiles(b2);
      } else {
        FilesParts(b2, ss[1..]);
        SimulatesFiles(h, img, hd, rs, s, n, ss[1..], b2, d, x.world);
      }
    }
  }

  lemma EofAfter(b: nat, path: Text)
    ensures Round8(b) < RuleEnd(b, EofContent(path))
    ensures Round8(b) <= Round8(RuleEnd(b, EofContent(path)))
  {
    RuleAdvances(b, EofContent(path));
  }

  lemma NoFiles(b: nat)
    ensures EmitFiles(b, []) == []
  {
  }

  function SectionBase(rs: RuleSet, s: Section): nat {
    var (s1, s2, s3) := SectionBytes(rs);
    match s
    case Preprobe => SIZEOF_HEADER
    case Information => SIZEOF_HEADER + |s1|
    case Policy => SIZEOF_HEADER + |s1| + |s2|
  }

  predicate ImageFits(rs: RuleSet) {
    |Image(rs)| + 8 <= U32
  }

  lemma ImageIsMapped(rs: RuleSet)
    requires ImageFits(rs)
    ensures Mapped(Image(rs), ImageHeader(rs))
  {
    hide EmitFiles, ReadHeader, CString, HeaderBytes;
    var (s1, s2, s3) := SectionBytes(rs);
    var hd := ImageHeader(rs);
    RoundMonotone(SIZEOF_HEADER, SIZEOF_HEADER + |s1|);
    RoundMonotone(SIZEOF_HEADER + |s1|, SIZEOF_HEADER + |s1| + |s2|);
    assert Image(rs) == HeaderBytes(hd) + (s1 + s2 + s3);
    ReadStoredHeader(Image(rs), hd);
  }

  lemma SectionIsPlaced(rs: RuleSet, s: Section)
    requires ImageFits(rs)
    ensures var b := SectionBase(rs, s);
            var e := EmitFiles(b, SectionOf(rs, s));
            && At(Image(rs), b, e)
            && Low(ImageHeader(rs), s) == Round8(b)
            && b + |e| <= High(ImageHeader(rs), s) <= Round8(b + |e|)
            && High(ImageHeader(rs), s) <= U32
  {
    hide EmitFiles, HeaderBytes, At;
    var (s1, s2, s3) := SectionBytes(rs);
    var hb := HeaderBytes(ImageHeader(rs));
    var img := Image(rs);
    assert At(img, 0, hb + s1 + s2 + s3) by {
      WholeImage(img);
    }
    AtSplit(img, 0, hb + s1 + s2, s3);
    AtSplit(img, 0, hb + s1, s2);
    AtSplit(img, 0, hb, s1);
  }

  lemma WholeImage(img: Text)
    ensures At(img, 0, img)
  {
    assert img[0..|img|] == img;
  }

  /**
   Compiler correctness: on every compiled cache, for every section, handlers, device and state,
   and for every bound on spawn nesting, the interpreter ends as the walk of the rule trees does.
   In particular it never faults: no jump leads nowhere, backwards or out of the section.
   */
  lemma {:induction false} MachineMeetsWalk<P(!new)>(h: Handlers<P>, rs: RuleSet, n: nat, s: Section, d: Id, w: World<P>)
    requires CleanRules(rs) && ImageFits(rs)
    ensures SearchAndMerge(h, Image(rs), n, s, d, w) == WalkFiles(h, rs, n, SectionOf(rs, s), d, w)
    decreases n
  {
    hide Image, ImageHeader, ImageFits, Exec, EmitFiles, At, Low, High, Round8, SectionBase, NulFree, CleanDoc, ReadHeader,
         CString;
    var img, hd := Image(rs), ImageHeader(rs);
    if n > 0 {
      var m := n - 1;
      forall s', d', w'
        ensures SearchAndMerge(h, img, m, s', d', w') == WalkFiles(h, rs, m, SectionOf(rs, s'), d', w')
      {
        MachineMeetsWalk(h, rs, m, s', d', w');
      }
    }
    assert SearchesAgree(h, img, rs, n - 1);
    ImageIsMapped(rs);
    SectionIsPlaced(rs, s);
    var b, ss := SectionBase(rs, s), SectionOf(rs, s);
    if ss == [] {
      NoFiles(b);
    } else {
      FilesParts(b, ss);
      SimulatesFiles(h, img, hd, rs, s, n, ss, b, d, w);
    }
  }

  /** The same for the cache that `BuildCache` produces from files on disk. */
  lemma CompiledCacheMeetsWalk<P(!new)>(h: Handlers<P>, preprobe: seq<File>, information: seq<File>, policy: seq<File>,
                               n: nat, s: Section, d: Id, w: World<P>)
    requires InputFits(preprobe, information, policy) && BuildCache(preprobe, information, policy).Some?
    requires var rs := RuleSet(Sources(preprobe), Sources(information), Sources(policy));
             CleanRules(rs) && ImageFits(rs)
    ensures var rs := RuleSet(Sources(preprobe), Sources(information), Sources(policy));
            SearchAndMerge(h, BuildCache(preprobe, information, policy).value, n, s, d, w)
            == WalkFiles(h, rs, n, SectionOf(rs, s), d, w)
  {
    hide BuildCache, InputFits, Image, Sources, CleanRules, SearchAndMerge, WalkFiles;
    CacheIsImageOfAccepted(preprobe, information, policy);
    MachineMeetsWalk(h, RuleSet(Sources(preprobe), Sources(information), Sources(policy)), n, s, d, w);
  }

  // No run of a compiled cache goes wrong.

  lemma {:induction false} WalkNeverFaults<P(!new)>(h: Handlers<P>, rs: RuleSet, n: nat, doc: Doc, d: Id, w: World<P>)
    ensures !Walk(h, rs, n, doc, d, w).Fault?
    decreases n, 1, doc
  {
    hide GetRuleType, View, AttrContent, LeafContent, ApplyTree;
    match doc
    case Nil =>
    case Chars(_, rest) => WalkNeverFaults(h, rs, n, rest, d, w);
    case Element(name, attrs, kids, rest) =>
      WalkNeverFaults(h, rs, n, kids, d, w);
      var t := GetRuleType(name);
      var v := View(t, LeafContent(t, attrs, kids));
      ApplyNeverFaults(h, rs, n, v, d, w);
      var matched := h.holds(View(t, AttrContent(t, attrs)), d, w);
      var r := if t.Unknown? || (t.Match? && matched) then Walk(h, rs, n, kids, d, w)
               else if t.Match? then Done(w) else ApplyTree(h, rs, n, v, d, w);
      if r.Done? {
        WalkNeverFaults(h, rs, n, rest, d, r.world);
      }
  }

  lemma {:induction false} ApplyNeverFaults<P(!new)>(h: Handlers<P>, rs: RuleSet, n: nat, v: RuleView, d: Id, w: World<P>)
    ensures !ApplyTree(h, rs, n, v, d, w).Fault?
    decreases n, 0
  {
    hide Create, Settle, ApplyMerge, Present;
    if n > 0 {
      var m := n - 1;
      forall s: Section, d': Id, w': World<P>
        ensures !WalkFiles(h, rs, m, SectionOf(rs, s), d', w').Fault?
      {
        FilesNeverFault(h, rs, m, SectionOf(rs, s), d', w');
      }
    }
  }

  lemma {:induction false} FilesNeverFault<P(!new)>(h: Handlers<P>, rs: RuleSet, n: nat, ss: seq<Source>, d: Id, w: World<P>)
    ensures !WalkFiles(h, rs, n, ss, d, w).Fault?
    decreases n, 2, |ss|
  {
    hide Walk;
    if ss != [] {
      WalkNeverFaults(h, rs, n, ss[0].doc, d, w);
      var r := Walk(h, rs, n, ss[0].doc, d, w);
      if r.Done? {
        FilesNeverFault(h, rs, n, ss[1..], d, r.world);
      }
    }
  }

  /**
   On a compiled cache a match that does not hold always has a rule to jump to, further on and in the same section;
   the only other way for a run not to finish is spawning nested deeper than `n`.
   */
  lemma CacheNeverFaults<P(!new)>(h: Handlers<P>, rs: RuleSet, n: nat, s: Section, d: Id, w: World<P>)
    requires CleanRules(rs) && ImageFits(rs)
    ensures !SearchAndMerge(h, Image(rs), n, s, d, w).Fault?
  {
    hide SearchAndMerge, WalkFiles, Image, CleanRules, ImageFits;
    MachineMeetsWalk(h, rs, n, s, d, w);
    FilesNeverFault(h, rs, n, SectionOf(rs, s), d, w);
  }
}
