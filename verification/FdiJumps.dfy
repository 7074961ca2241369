/**
 The jumps of a finished cache: the rules of each file, laid out one behind the other, and where every match
 among them leads.
 */
module FdiJumps {
  import Lists
  import opened Bytes
  import opened RuleLayout
  import opened FdiDocument
  import opened FdiCompilerProof
  import opened FdiCache
  import opened FdiInterpreter
  import opened FdiMachineProof
  import opened FdiTiling

  function EndAll(b: nat, ls: seq<Placed>): nat {
    EndOf(b, ls, |ls|)
  }

  /** The rules of a document from offset `b` on; a match leads behind the last rule among its children. */
  function Place(b: nat, d: Doc): seq<Placed>
    decreases d
  {
    match d
    case Nil => []
    case Chars(_, rest) => Place(b, rest)
    case Element(name, attrs, kids, rest) =>
      var t := GetRuleType(name);
      if t.Unknown? then
        var k := Place(b, kids);
        k + Place(EndAll(b, k), rest)
      else if t.Match? then
        var c := AttrContent(t, attrs);
        var k := Place(RuleEnd(b, c), kids);
        var e := EndAll(RuleEnd(b, c), k);
        [Placed(t, c, Round8(e))] + k + Place(e, rest)
      else
        var c := LeafContent(t, attrs, kids);
        [Placed(t, c, 0)] + Place(RuleEnd(b, c), rest)
  }

  /** The rules of a file end with its EOF rule. */
  function FileRules(b: nat, s: Source): (r: seq<Placed>)
    ensures r != [] && r[|r| - 1].rtype == Eof
  {
    Place(b, s.doc) + [Placed(Eof, EofContent(s.path), 0)]
  }

  // They are the bytes of the cache.

  lemma {:induction false} PlaceIsEmit(b: nat, d: Doc)
    ensures Laid(b, Place(b, d)) == Emit(b, d)
    decreases d
  {
    hide EmitRule, RuleEnd, Laid, EndOf, AttrContent, LeafContent, GetRuleType, Round8;
    match d
    case Nil => LaidNone(b);
    case Chars(_, rest) => PlaceIsEmit(b, rest);
    case Element(name, attrs, kids, rest) =>
      var t := GetRuleType(name);
      if t.Unknown? {
        var k := Place(b, kids);
        PlaceIsEmit(b, kids);
        LaidLength(b, k);
        PlaceIsEmit(EndAll(b, k), rest);
        LaidAppend(b, k, Place(EndAll(b, k), rest));
      } else if t.Match? {
        var c := AttrContent(t, attrs);
        var e0 := RuleEnd(b, c);
        var k := Place(e0, kids);
        var e := EndAll(e0, k);
        PlaceIsEmit(e0, kids);
        LaidLength(e0, k);
        PlaceIsEmit(e, rest);
        LaidRun(b, Placed(t, c, Round8(e)), k, Place(e, rest));
      } else {
        var c := LeafContent(t, attrs, kids);
        PlaceIsEmit(RuleEnd(b, c), rest);
        LaidCons(b, Placed(t, c, 0), Place(RuleEnd(b, c), rest));
      }
  }

  lemma LaidNone(b: nat)
    ensures Laid(b, []) == []
  {
  }

  lemma LaidRun(b: nat, p: Placed, k: seq<Placed>, rest: seq<Placed>)
    ensures var e0 := RuleEnd(b, p.content);
            Laid(b, [p] + k + rest)
            == EmitRule(b, p.rtype, p.content, p.jump) + Laid(e0, k) + Laid(EndAll(e0, k), rest)
  {
    hide EmitRule, RuleEnd, Laid, EndOf;
    var e0 := RuleEnd(b, p.content);
    Lists.Associate([p], k, rest);
    LaidCons(b, p, k + rest);
    LaidAppend(e0, k, rest);
    LaidLength(e0, k);
    Lists.Associate(EmitRule(b, p.rtype, p.content, p.jump), Laid(e0, k), Laid(EndAll(e0, k), rest));
  }

  lemma FileIsLaid(b: nat, s: Source)
    ensures Laid(b, FileRules(b, s)) == EmitFile(b, s)
  {
    hide EmitRule, Laid, Emit, Place;
    var ls, p := Place(b, s.doc), Placed(Eof, EofContent(s.path), 0);
    PlaceIsEmit(b, s.doc);
    LaidAppend(b, ls, [p]);
    LaidOne(b + |Laid(b, ls)|, p);
  }

  // Jumps.

  lemma {:induction false} EndJoin(b: nat, xs: seq<Placed>, ys: seq<Placed>, j: nat)
    requires j <= |ys|
    ensures EndOf(b, xs + ys, |xs| + j) == EndOf(EndAll(b, xs), ys, j)
    decreases j
  {
    hide RuleEnd;
    if j == 0 {
      EndAppend(b, xs, ys, |xs|);
    } else {
      EndJoin(b, xs, ys, j - 1);
    }
  }

  /** Rule `i` is a match that leads to the start of a later rule, or of the one right behind the list. */
  ghost predicate LeadsAhead(b: nat, ls: seq<Placed>, i: nat)
    requires i < |ls|
  {
    exists j :: i < j <= |ls| && ls[i].jump == StartOf(b, ls, j)
  }

  ghost predicate JumpsAhead(b: nat, ls: seq<Placed>) {
    forall i :: 0 <= i < |ls| ==> if ls[i].rtype.Match? then LeadsAhead(b, ls, i) else ls[i].jump == 0
  }

  lemma JumpsBefore(b: nat, xs: seq<Placed>, ys: seq<Placed>, i: nat)
    requires i < |xs| && LeadsAhead(b, xs, i)
    ensures LeadsAhead(b, xs + ys, i)
  {
    hide EndOf;
    var j :| i < j <= |xs| && xs[i].jump == StartOf(b, xs, j);
    EndAppend(b, xs, ys, j);
    assert (xs + ys)[i].jump == StartOf(b, xs + ys, j);
  }

  lemma JumpsBehind(b: nat, xs: seq<Placed>, ys: seq<Placed>, i: nat)
    requires i < |ys| && LeadsAhead(EndAll(b, xs), ys, i)
    ensures LeadsAhead(b, xs + ys, |xs| + i)
  {
    hide EndOf;
    var j :| i < j <= |ys| && ys[i].jump == StartOf(EndAll(b, xs), ys, j);
    EndJoin(b, xs, ys, j);
    assert (xs + ys)[|xs| + i].jump == StartOf(b, xs + ys, |xs| + j);
  }

  lemma JumpsJoin(b: nat, xs: seq<Placed>, ys: seq<Placed>)
    requires JumpsAhead(b, xs) && JumpsAhead(EndAll(b, xs), ys)
    ensures JumpsAhead(b, xs + ys)
  {
    hide LeadsAhead, EndOf;
    forall i | 0 <= i < |xs + ys|
      ensures if (xs + ys)[i].rtype.Match? then LeadsAhead(b, xs + ys, i) else (xs + ys)[i].jump == 0
    {
      if i < |xs| {
        if xs[i].rtype.Match? {
          JumpsBefore(b, xs, ys, i);
        }
      } else {
        var m := i - |xs|;
        assert (xs + ys)[i] == ys[m];
        if ys[m].rtype.Match? {
          JumpsBehind(b, xs, ys, m);
        }
      }
    }
  }

  lemma EndOfOne(b: nat, p: Placed)
    ensures EndAll(b, [p]) == RuleEnd(b, p.content)
  {
    hide RuleEnd;
    assert EndOf(b, [p], 0) == b;
  }

  /** A match in front of its children. */
  lemma MatchLeads(b: nat, p: Placed, k: seq<Placed>)
    requires p.rtype.Match? && p.jump == Round8(EndAll(RuleEnd(b, p.content), k)) && JumpsAhead(RuleEnd(b, p.content), k)
    ensures JumpsAhead(b, [p] + k)
  {
    hide LeadsAhead, EndOf, RuleEnd, Round8;
    EndOfOne(b, p);
    EndJoin(b, [p], k, |k|);
    MatchSkips(b, p, k);
    forall i | 0 <= i < |[p] + k|
      ensures if ([p] + k)[i].rtype.Match? then LeadsAhead(b, [p] + k, i) else ([p] + k)[i].jump == 0
    {
      if i > 0 {
        var m := i - 1;
        assert ([p] + k)[i] == k[m];
        if k[m].rtype.Match? {
          JumpsBehind(b, [p], k, m);
        }
      }
    }
  }

  lemma MatchSkips(b: nat, p: Placed, k: seq<Placed>)
    requires EndOf(b, [p] + k, 1 + |k|) == EndAll(RuleEnd(b, p.content), k)
    requires p.jump == Round8(EndAll(RuleEnd(b, p.content), k))
    ensures LeadsAhead(b, [p] + k, 0)
  {
    hide EndOf, RuleEnd;
    assert ([p] + k)[0].jump == StartOf(b, [p] + k, 1 + |k|);
  }

  lemma {:induction false} PlaceJumps(b: nat, d: Doc)
    ensures JumpsAhead(b, Place(b, d))
    decreases d
  {
    hide JumpsAhead, RuleEnd, EndOf, AttrContent, LeafContent, GetRuleType, Round8;
    match d
    case Nil => NoJumps(b);
    case Chars(_, rest) => PlaceJumps(b, rest);
    case Element(name, attrs, kids, rest) =>
      var t := GetRuleType(name);
      if t.Unknown? {
        var k := Place(b, kids);
        PlaceJumps(b, kids);
        PlaceJumps(EndAll(b, k), rest);
        JumpsJoin(b, k, Place(EndAll(b, k), rest));
      } else if t.Match? {
        var c := AttrContent(t, attrs);
        var e0 := RuleEnd(b, c);
        var k := Place(e0, kids);
        var e := EndAll(e0, k);
        var p := Placed(t, c, Round8(e));
        PlaceJumps(e0, kids);
        PlaceJumps(e, rest);
        MatchLeads(b, p, k);
        EndOfOne(b, p);
        EndJoin(b, [p], k, |k|);
        JumpsJoin(b, [p] + k, Place(e, rest));
      } else {
        var c := LeafContent(t, attrs, kids);
        var p := Placed(t, c, 0);
        PlaceJumps(RuleEnd(b, c), rest);
        OneLeaf(b, p);
        EndOfOne(b, p);
        JumpsJoin(b, [p], Place(RuleEnd(b, c), rest));
      }
  }

  lemma NoJumps(b: nat)
    ensures JumpsAhead(b, [])
  {
  }

  lemma OneLeaf(b: nat, p: Placed)
    requires !p.rtype.Match? && p.jump == 0
    ensures JumpsAhead(b, [p])
  {
  }

  /** In a file every match leads to a later rule of that file, at the latest to its EOF rule. */
  lemma FileJumps(b: nat, s: Source, i: nat)
    requires i < |FileRules(b, s)| && FileRules(b, s)[i].rtype.Match?
    ensures exists j :: i < j < |FileRules(b, s)| && FileRules(b, s)[i].jump == StartOf(b, FileRules(b, s), j)
  {
    hide Place, EndOf;
    var ls := Place(b, s.doc);
    PlaceJumps(b, s.doc);
    assert LeadsAhead(b, ls, i);
    var j :| i < j <= |ls| && ls[i].jump == StartOf(b, ls, j);
    EndAppend(b, ls, [Placed(Eof, EofContent(s.path), 0)], j);
    assert FileRules(b, s)[i].jump == StartOf(b, FileRules(b, s), j);
  }

  // In the finished cache.

  /** Where file `k` of a list of files begins. */
  function FileBase(b: nat, ss: seq<Source>, k: nat): nat
    requires k < |ss|
    decreases k
  {
    if k == 0 then b else FileBase(b + |EmitFile(b, ss[0])|, ss[1..], k - 1)
  }

  lemma {:induction false} FileIsPlaced(img: Text, b: nat, ss: seq<Source>, k: nat)
    requires k < |ss| && At(img, b, EmitFiles(b, ss))
    ensures At(img, FileBase(b, ss, k), EmitFile(FileBase(b, ss, k), ss[k]))
    decreases k
  {
    hide At, EmitFile;
    var e := EmitFile(b, ss[0]);
    AtSplit(img, b, e, EmitFiles(b + |e|, ss[1..]));
    if k > 0 {
      FileIsPlaced(img, b + |e|, ss[1..], k - 1);
    }
  }

  ghost predicate AllClean(ls: seq<Placed>) {
    forall i :: 0 <= i < |ls| ==> CleanContent(ls[i].content)
  }

  lemma {:induction false} PlaceIsClean(b: nat, d: Doc)
    requires CleanDoc(d)
    ensures AllClean(Place(b, d))
    decreases d
  {
    hide RuleEnd, EndOf, GetRuleType, ScanAttrs, GatherText, CleanContent, NulFree, CleanAttrs, Round8;
    match d
    case Nil =>
    case Chars(_, rest) => PlaceIsClean(b, rest);
    case Element(name, attrs, kids, rest) =>
      var t := GetRuleType(name);
      NoContentIsClean();
      ScanIsClean(t, attrs, NoContent());
      if t.Unknown? {
        PlaceIsClean(b, kids);
        PlaceIsClean(EndAll(b, Place(b, kids)), rest);
      } else if t.Match? {
        var e0 := RuleEnd(b, AttrContent(t, attrs));
        PlaceIsClean(e0, kids);
        PlaceIsClean(EndAll(e0, Place(e0, kids)), rest);
      } else {
        LeafIsClean(t, attrs, kids);
        PlaceIsClean(RuleEnd(b, LeafContent(t, attrs, kids)), rest);
      }
  }

  lemma NoContentIsClean()
    ensures CleanContent(NoContent())
  {
  }

  lemma LeafIsClean(t: RuleType, attrs: seq<Attr>, kids: Doc)
    requires CleanContent(AttrContent(t, attrs)) && CleanDoc(kids)
    ensures CleanContent(LeafContent(t, attrs, kids))
  {
    hide ScanAttrs;
    TextIsClean(t, AttrContent(t, attrs).value, kids);
  }

  /** A rule of a file of the finished cache, read back. */
  lemma FileRuleReads(img: Text, b: nat, s: Source, i: nat)
    requires At(img, b, EmitFile(b, s)) && |img| + 8 <= U32 && CleanDoc(s.doc) && NulFree(s.path)
    requires EMPTY_STRING <= |img| && CString(img[EMPTY_STRING..]) == []
    requires i < |FileRules(b, s)|
    ensures var ls := FileRules(b, s);
            && ReadsAs(img, StartOf(b, ls, i), (ls[i].rtype, ls[i].content))
            && ReadRule(img, StartOf(b, ls, i)).jumpPosition == ls[i].jump
  {
    var ls := FileRules(b, s);
    FileIsLaid(b, s);
    PrefixHolds(img, b, Laid(b, ls));
    PlaceIsClean(b, s.doc);
    JumpIsSmall(img, b, s, i);
    hide Laid, Place, EndOf, At, EmitFile, ViewAt, ReadRule, View, CString, Round8;
    TileReads(img, img[..b], ls, i);
  }

  lemma PrefixHolds(img: Text, b: nat, t: Text)
    requires At(img, b, t)
    ensures |img[..b]| == b && img[..b] + t <= img
  {
    assert img[..b] + img[b..b + |t|] == img[..b + |t|];
  }

  lemma JumpIsSmall(img: Text, b: nat, s: Source, i: nat)
    requires At(img, b, EmitFile(b, s)) && |img| + 8 <= U32 && i < |FileRules(b, s)|
    ensures FileRules(b, s)[i].jump < U32
  {
    hide Place, EndOf, EmitFile, Laid;
    var ls := FileRules(b, s);
    PlaceJumps(b, s.doc);
    if ls[i].rtype.Match? {
      FileJumps(b, s, i);
      var j :| i < j < |ls| && ls[i].jump == StartOf(b, ls, j);
      EndsAscend(b, ls, j, |ls|);
      LaidLength(b, ls);
      FileIsLaid(b, s);
    }
  }

  /**
   In every finished cache: the rules of each file of each section are where `FileRules` lays them, ending with the file's EOF
   rule, and the stored jump of every match is the start of a later one of them.
   */
  lemma ImageJumps(rs: RuleSet, s: Section, k: nat, i: nat)
    requires CleanRules(rs) && ImageFits(rs) && k < |SectionOf(rs, s)|
    requires var b := FileBase(SectionBase(rs, s), SectionOf(rs, s), k);
             i < |FileRules(b, SectionOf(rs, s)[k])|
    ensures var b := FileBase(SectionBase(rs, s), SectionOf(rs, s), k);
            var ls := FileRules(b, SectionOf(rs, s)[k]);
            && ReadsAs(Image(rs), StartOf(b, ls, i), (ls[i].rtype, ls[i].content))
            && (ls[i].rtype.Match? ==>
                  exists j :: i < j < |ls| && ReadRule(Image(rs), StartOf(b, ls, i)).jumpPosition == StartOf(b, ls, j))
  {
    hide Image, EmitFiles, FileRules, ReadsAs, ReadRule, StartOf, SectionBytes, Low, High, CString, At, EmitFile;
    var ss := SectionOf(rs, s);
    var b := FileBase(SectionBase(rs, s), ss, k);
    ImageIsMapped(rs);
    SectionIsPlaced(rs, s);
    FileIsPlaced(Image(rs), SectionBase(rs, s), ss, k);
    assert CleanDoc(ss[k].doc) && NulFree(ss[k].path);
    FileRuleReads(Image(rs), b, ss[k], i);
    if FileRules(b, ss[k])[i].rtype.Match? {
      FileJumps(b, ss[k], i);
    }
  }
}
