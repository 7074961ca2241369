/**
 What FDI elements mean, told from the enumerations and the element names alone: which name has which code, what the
 attributes of an element give, and whose text is stored.
 */
module FdiMeaning {
  import Lists
  import opened Bytes
  import opened RuleLayout
  import opened FdiDocument
  import opened FdiCompiler
  import opened FdiCompilerProof
  import opened FdiCache
  import opened FdiInterpreter
  import opened FdiMachineProof
  import opened FdiTiling

  // Names, by the enumerators of hald/rule.h in their order.

  function RuleName(t: RuleType): string {
    match t
    case Match => "match"
    case Merge => "merge"
    case Append => "append"
    case Prepend => "prepend"
    case Remove => "remove"
    case Clear => "clear"
    case Spawn => "spawn"
    case AddSet => "addset"
    case Unknown => ""
    case Eof => ""
  }

  /** The attribute name of each match enumerator by its value; `MATCH_DOUBLE` (22) has none. */
  function MatchName(code: nat): string {
    match code
    case 1 => "string"
    case 2 => "int"
    case 3 => "uint64"
    case 4 => "bool"
    case 5 => "exists"
    case 6 => "empty"
    case 7 => "is_ascii"
    case 8 => "is_absolute_path"
    case 9 => "contains"
    case 10 => "contains_ncase"
    case 11 => "prefix"
    case 12 => "prefix_ncase"
    case 13 => "suffix"
    case 14 => "suffix_ncase"
    case 15 => "compare_lt"
    case 16 => "compare_le"
    case 17 => "compare_gt"
    case 18 => "compare_ge"
    case 19 => "sibling_contains"
    case 20 => "compare_ne"
    case 21 => "contains_not"
    case 23 => "contains_outof"
    case 24 => "int_outof"
    case 25 => "prefix_outof"
    case 26 => "string_outof"
    case _ => ""
  }

  function MergeName(code: nat): string {
    match code
    case 1 => "string"
    case 2 => "bool"
    case 3 => "int"
    case 4 => "uint64"
    case 5 => "double"
    case 6 => "copy_property"
    case 7 => "strlist"
    case 8 => "remove"
    case _ => ""
  }

  /** An element has a rule type exactly if it has that type's name. */
  lemma ElementTypes(el: Text, t: RuleType)
    ensures !GetRuleType(el).Unknown? ==> el == Ascii(RuleName(GetRuleType(el)))
    ensures RuleName(t) != "" ==> !GetRuleType(Ascii(RuleName(t))).Unknown?
  {
  }

  /** A match attribute with a type has that enumerator's name. */
  lemma MatchTypes(t: Text)
    ensures GetMatchType(t) != 0 ==> t == Ascii(MatchName(GetMatchType(t)))
  {
    hide Ascii;
    if GetMatchType(t) <= 13 {
      LowMatchTypes(t);
    } else {
      HighMatchTypes(t);
    }
  }

  lemma LowMatchTypes(t: Text)
    requires GetMatchType(t) <= 13
    ensures GetMatchType(t) != 0 ==> t == Ascii(MatchName(GetMatchType(t)))
  {
    hide Ascii;
  }

  lemma HighMatchTypes(t: Text)
    requires GetMatchType(t) > 13
    ensures t == Ascii(MatchName(GetMatchType(t)))
  {
    hide Ascii;
  }

  /** And every enumerator's name has a type. */
  lemma MatchNames(code: nat)
    requires MatchName(code) != ""
    ensures GetMatchType(Ascii(MatchName(code))) != 0
  {
    hide Ascii;
  }

  /** And so for the `type` of a merge. */
  lemma MergeTypes(t: Text, code: nat)
    ensures GetMergeType(t) != 0 ==> t == Ascii(MergeName(GetMergeType(t)))
    ensures MergeName(code) != "" ==> GetMergeType(Ascii(MergeName(code))) != 0
  {
    hide Ascii;
  }

  // Text.

  /** The text of an element: its chunks one after the other, without the empty ones. */
  function Chunks(d: Doc): Text {
    match d
    case Nil => []
    case Chars(text, rest) => (if text != [] && text[0] != 0 then text else []) + Chunks(rest)
    case Element(_, _, _, rest) => Chunks(rest)
  }

  /** All the text there is. */
  function AllText(d: Doc): Text {
    match d
    case Nil => []
    case Chars(text, rest) => text + AllText(rest)
    case Element(_, _, _, rest) => AllText(rest)
  }

  lemma {:induction false} CleanChunks(d: Doc)
    requires CleanDoc(d)
    ensures Chunks(d) == AllText(d)
  {
    match d
    case Nil =>
    case Chars(text, rest) => CleanChunks(rest);
    case Element(_, _, _, rest) => CleanChunks(rest);
  }

  /** Attributes give a value to match rules only. */
  lemma {:induction false} LeafAttrsHaveNoValue(t: RuleType, attrs: seq<Attr>, c: Content)
    requires !t.Match?
    ensures ScanAttrs(t, attrs, c).1.value == c.value
    decreases |attrs|
  {
    hide GetMergeType, GetMatchType;
    if attrs != [] {
      LeafAttrsHaveNoValue(t, attrs[1..], ScanAttr(t, attrs[0], c).1);
    }
  }

  lemma {:induction false} TextIsGathered(t: RuleType, value: Text, kids: Doc)
    requires OnlyText(kids) && t in {Merge, Append, Prepend, AddSet, Remove, Spawn}
    ensures GatherText(t, value, kids) == value + Chunks(kids)
    decreases kids
  {
    match kids
    case Nil =>
    case Chars(text, rest) => TextIsGathered(t, AddChunk(value, text), rest);
  }

  lemma {:induction false} TextIsIgnored(t: RuleType, value: Text, kids: Doc)
    requires t in {Clear, Match}
    ensures GatherText(t, value, kids) == value
    decreases kids
  {
    match kids
    case Chars(_, rest) => TextIsIgnored(t, value, rest);
    case _ =>
  }

  /** The value of a leaf rule is the text between its tags, except for `clear`, which has none. */
  lemma LeafValue(t: RuleType, attrs: seq<Attr>, kids: Doc)
    requires OnlyText(kids)
    ensures t in {Merge, Append, Prepend, AddSet, Remove, Spawn} ==> LeafContent(t, attrs, kids).value == Chunks(kids)
    ensures t == Clear ==> LeafContent(t, attrs, kids).value == []
  {
    hide ScanAttrs;
    if t in {Merge, Append, Prepend, AddSet, Remove, Spawn} {
      LeafAttrsHaveNoValue(t, attrs, NoContent());
      TextIsGathered(t, AttrContent(t, attrs).value, kids);
    } else if t == Clear {
      LeafAttrsHaveNoValue(t, attrs, NoContent());
      TextIsIgnored(t, AttrContent(t, attrs).value, kids);
    }
  }

  // What attributes give.

  /** `<match key="k" n="v">` */
  lemma MatchElement(k: Text, n: Text, v: Text)
    requires k != [] && n != Ascii("key") && GetMatchType(n) != 0
    ensures ScanAttrs(Match, [Attr(Ascii("key"), k), Attr(n, v)], NoContent())
            == (Running, Content(k, GetMatchType(n), 0, if v != [] && v[0] != 0 then v else []))
  {
    hide GetMatchType, Ascii;
    assert [] + v == v;
    TwoAttrs(Match, Attr(Ascii("key"), k), Attr(n, v));
  }

  lemma TwoAttrs(t: RuleType, a: Attr, b: Attr)
    ensures var (st, c) := ScanAttr(t, a, NoContent());
            ScanAttrs(t, [a, b], NoContent()) == if st == Running then ScanAttr(t, b, c) else (st, c)
  {
    hide ScanAttr;
    var (st, c) := ScanAttr(t, a, NoContent());
    assert [a, b][1..] == [b] && [b][1..] == [];
    if st == Running {
      var (st2, c2) := ScanAttr(t, b, c);
      assert ScanAttrs(t, [b], c) == if st2 != Running then (st2, c2) else ScanAttrs(t, [], c2);
    }
  }

  /** `<merge key="k" type="ty">` and the like. */
  lemma LeafElement(t: RuleType, k: Text, ty: Text)
    requires t in {Merge, Append, Prepend, AddSet, Remove, Clear} && k != [] && GetMergeType(ty) != 0
    ensures ScanAttrs(t, [Attr(Ascii("key"), k), Attr(Ascii("type"), ty)], NoContent())
            == (Running, Content(k, 0, GetMergeType(ty), []))
  {
    hide GetMergeType;
    assert |Ascii("key")| == 3 && |Ascii("type")| == 4;
    TwoAttrs(t, Attr(Ascii("key"), k), Attr(Ascii("type"), ty));
  }

  /** `<spawn udi="u"/>` */
  lemma SpawnElement(u: Text)
    requires u != []
    ensures ScanAttrs(Spawn, [Attr(Ascii("udi"), u)], NoContent()) == (Running, Content(u, 0, 0, []))
  {
    var a := Attr(Ascii("udi"), u);
    assert [a][1..] == [];
    assert ScanAttrs(Spawn, [], NoContent().(key := u)) == (Running, NoContent().(key := u));
  }

  /** Matches nest 64 deep and no deeper. */
  lemma NestingLimit(attrs: seq<Attr>, depth: nat)
    requires ScanAttrs(Match, attrs, NoContent()).0 == Running && AttrContent(Match, attrs).key != []
    ensures OpenStatus(Match, attrs, depth) == if depth < 64 then Running else Died
  {
  }

  // The rules of a whole document.

  /** A leaf element's rule: its attributes, and its text unless it is `clear`. */
  function LeafRule(name: Text, attrs: seq<Attr>, kids: Doc): (RuleType, Content) {
    var t := GetRuleType(name);
    (t, AttrContent(t, attrs).(value := if t == Clear then [] else Chunks(kids)))
  }

  /** The rules of a document in the order of their start tags. */
  function DocRules(d: Doc): seq<(RuleType, Content)> {
    match d
    case Nil => []
    case Chars(_, rest) => DocRules(rest)
    case Element(name, attrs, kids, rest) =>
      var t := GetRuleType(name);
      (if t.Unknown? then DocRules(kids)
       else if t.Match? then [(t, AttrContent(t, attrs))] + DocRules(kids)
       else [LeafRule(name, attrs, kids)]) + DocRules(rest)
  }

  /** Text between the tags of a leaf rule. */
  lemma {:induction false} GatherLeafText(g: Gathered, kids: Doc)
    requires OnlyText(kids) && g.rtype in {Merge, Append, Prepend, AddSet, Remove, Spawn}
    ensures GatherAll(g, Events(kids)) == g.(content := g.content.(value := g.content.value + Chunks(kids)))
    decreases kids
  {
    hide Gather;
    match kids
    case Nil =>
      assert g.content.value + [] == g.content.value;
    case Chars(text, rest) =>
      assert Events(kids)[1..] == Events(rest);
      GatherChunk(g, text);
      GatherLeafText(Gather(g, CharsEvent(text)), rest);
      Lists.Associate(g.content.value, if text != [] && text[0] != 0 then text else [], Chunks(rest));
  }

  lemma GatherChunk(g: Gathered, text: Text)
    requires g.rtype in {Merge, Append, Prepend, AddSet, Remove, Spawn}
    ensures var chunk := if text != [] && text[0] != 0 then text else [];
            Gather(g, CharsEvent(text)) == g.(content := g.content.(value := g.content.value + chunk))
  {
    assert g.content.value + [] == g.content.value;
  }

  lemma {:induction false} GatherClearText(g: Gathered, kids: Doc)
    requires OnlyText(kids) && g.rtype == Clear
    ensures GatherAll(g, Events(kids)) == g
    decreases kids
  {
    match kids
    case Nil =>
    case Chars(text, rest) =>
      assert Events(kids)[1..] == Events(rest);
      GatherClearText(g, rest);
  }

  lemma {:induction false} GatherAppend(g: Gathered, a: seq<Event>, b: seq<Event>)
    ensures GatherAll(g, a + b) == GatherAll(GatherAll(g, a), b)
    decreases |a|
  {
    hide Gather;
    if a == [] {
      assert a + b == b;
    } else {
      assert (a + b)[1..] == a[1..] + b;
      GatherAppend(Gather(g, a[0]), a[1..], b);
    }
  }

  lemma GatherElement(g: Gathered, d: Doc)
    requires d.Element?
    ensures GatherAll(g, Events(d))
            == GatherAll(Gather(GatherAll(Gather(g, StartEvent(d.name, d.attrs)), Events(d.kids)), EndEvent(d.name)), Events(d.rest))
  {
    hide Gather;
    var tail := [EndEvent(d.name)] + Events(d.rest);
    assert Events(d)[1..] == Events(d.kids) + tail;
    GatherAppend(Gather(g, StartEvent(d.name, d.attrs)), Events(d.kids), tail);
    assert tail[1..] == Events(d.rest);
  }

  /** No leaf rule is open. */
  predicate Between(g: Gathered) {
    g.rtype.Unknown? || g.rtype.Match?
  }

  lemma GatherLeaf(g: Gathered, d: Doc)
    requires d.Element? && OnlyText(d.kids) && Between(g)
    requires GetRuleType(d.name) in {Merge, Append, Prepend, AddSet, Remove, Clear, Spawn}
    ensures var g1 := GatherAll(Gather(g, StartEvent(d.name, d.attrs)), Events(d.kids));
            Gather(g1, EndEvent(d.name))
            == Gathered(Completed(g).stored + [LeafRule(d.name, d.attrs, d.kids)], Unknown, NoContent())
  {
    hide GetRuleType, ScanAttrs;
    var t := GetRuleType(d.name);
    LeafAttrsHaveNoValue(t, d.attrs, NoContent());
    var g0 := Gather(g, StartEvent(d.name, d.attrs));
    if t == Clear {
      GatherClearText(g0, d.kids);
    } else {
      GatherLeafText(g0, d.kids);
    }
    assert [] + Chunks(d.kids) == Chunks(d.kids);
  }

  /** An accepted document describes exactly its rules: every key and value comes from that element's own attributes and text. */
  lemma {:induction false} GatheredIsRules(g: Gathered, d: Doc, depth: nat)
    requires Check(d, depth) == Running && Between(g)
    ensures var r := GatherAll(g, Events(d));
            && Completed(r).stored == Completed(g).stored + DocRules(d)
            && r.rtype == (if OnlyText(d) then g.rtype else Unknown)
            && (OnlyText(d) ==> r == g)
    decreases d
  {
    hide GetRuleType, ScanAttrs, OpenStatus, Chunks;
    match d
    case Nil =>
      assert Completed(g).stored + [] == Completed(g).stored;
    case Chars(text, rest) =>
      assert Events(d)[1..] == Events(rest);
      assert Gather(g, CharsEvent(text)) == g;
      GatheredIsRules(g, rest, depth);
    case Element(name, attrs, kids, rest) =>
      GatherElement(g, d);
      var t := GetRuleType(name);
      if t.Unknown? {
        GatherUnknown(g, d, depth);
      } else if t.Match? {
        GatherMatch(g, d, depth);
      } else {
        LeafTypes(name);
        GatherLeaf(g, d);
        var g2 := Gathered(Completed(g).stored + [LeafRule(name, attrs, kids)], Unknown, NoContent());
        GatheredIsRules(g2, rest, depth);
      }
  }

  lemma LeafTypes(name: Text)
    requires !GetRuleType(name).Unknown? && !GetRuleType(name).Match?
    ensures GetRuleType(name) in {Merge, Append, Prepend, AddSet, Remove, Clear, Spawn}
  {
  }

  lemma {:induction false} GatherUnknown(g: Gathered, d: Doc, depth: nat)
    requires d.Element? && GetRuleType(d.name).Unknown? && Check(d, depth) == Running && Between(g)
    ensures var r := GatherAll(g, Events(d));
            Completed(r).stored == Completed(g).stored + DocRules(d) && r.rtype == Unknown
    decreases d, 0
  {
    hide GetRuleType, ScanAttrs, OpenStatus, Chunks;
    GatherElement(g, d);
    var g1 := Completed(g);
    GatheredIsRules(g1, d.kids, depth);
    var g2 := GatherAll(g1, Events(d.kids));
    GatheredIsRules(g2, d.rest, depth);
  }

  lemma {:induction false} GatherMatch(g: Gathered, d: Doc, depth: nat)
    requires d.Element? && GetRuleType(d.name).Match? && Check(d, depth) == Running && Between(g)
    ensures var r := GatherAll(g, Events(d));
            Completed(r).stored == Completed(g).stored + DocRules(d) && r.rtype == Unknown
    decreases d, 0
  {
    hide GetRuleType, ScanAttrs, OpenStatus, Chunks;
    GatherElement(g, d);
    var g1 := Gather(g, StartEvent(d.name, d.attrs));
    GatheredIsRules(g1, d.kids, depth + 1);
    var g2 := GatherAll(g1, Events(d.kids));
    var g3 := Gather(g2, EndEvent(d.name));
    GatheredIsRules(g3, d.rest, depth);
  }

  /** Compiling an accepted document leaves its rules in the file, and they read back, in order, each with its own key and text. */
  lemma DocumentReadsBack(file: Text, doc: Doc) returns (starts: seq<nat>)
    requires CleanDoc(doc) && HasHeader(file) && Check(doc, 0) == Running
    requires |Run(NewContext(file), Events(doc)).1.file| + 8 <= U32
    ensures ReadsBack(Run(NewContext(file), Events(doc)).1.file, |file|, DocRules(doc), starts)
  {
    hide Run, GatherAll, CleanDoc, Check, ReadsBack, DocRules, NewContext;
    assert Events(doc)[..|Events(doc)|] == Events(doc);
    RunStatus(NewContext(file), doc);
    NewContextIsValid(file);
    GatheredIsRules(NothingGathered(), doc, 0);
    assert [] + DocRules(doc) == DocRules(doc);
    starts := CompilingReadsBack(file, doc, |Events(doc)|);
  }

  lemma NewContextIsValid(file: Text)
    ensures Valid(NewContext(file)) && NewContext(file).depth == 0
  {
  }
}
