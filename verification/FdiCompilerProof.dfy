/**
 What the SAX callbacks of the rule compiler achieve over whole documents: the verdict is
 `Check`, the bytes are `Emit`, and nothing below the file's start is ever touched.
 */
module FdiCompilerProof {
  import Lists
  import opened Bytes
  import opened RuleLayout
  import opened FdiDocument
  import opened FdiCompiler

  // An open rule: its key and value are in the file, its struct is still a hole.

  function OpenRule(p: nat, t: RuleType, k: Content): Rule {
    RuleAt(p, t, k, 0).(ruleSize := SIZEOF_RULE, keyLen := StoredLen(k.key))
  }

  function OpenFile(f: Text, k: Content): Text {
    if k.key == [] then f
    else f + Zeros(Round8(|f|) - |f|) + Zeros(SIZEOF_RULE) + Body(k.key, k.value)
  }

  predicate IsOpen(c: Ctx, f: Text, t: RuleType, k: Content) {
    && !t.Unknown?
    && (k.key == [] ==> k.value == [])
    && c.position == Round8(|f|)
    && c.rule == OpenRule(c.position, t, k)
    && c.file == OpenFile(f, k)
  }

  lemma OpenKey(c: Ctx, f: Text, t: RuleType, k: Content, key: Text)
    requires IsOpen(c, f, t, k) && k.key == [] && key != []
    ensures StoreKey(c, key).0 == Running
    ensures IsOpen(StoreKey(c, key).1, f, t, k.(key := key))
  {
    var off := c.position + SIZEOF_RULE;
    var d := key + [0];
    assert d + Zeros(Padding(off + |d|)) == Pad4(d);
    WritePastEnd(f, off, Pad4(d));
    assert Zeros(off - |f|) == Zeros(Round8(|f|) - |f|) + Zeros(SIZEOF_RULE);
    assert Body(key, []) == Pad4(d);
    assert f + Zeros(off - |f|) + Pad4(d) == OpenFile(f, k.(key := key));
  }

  function ValueBytes(v: Text): Text {
    if v == [] then [] else Pad4(v + [0])
  }

  lemma PaddingIsRound(g: nat, n: nat)
    requires g % 4 == 0
    ensures Padding(g + n) == Round4(n) - n
  {
    hide Padding, Round4;
    var p, r := Padding(g + n), Round4(n);
    var a, b, c := g / 4, (g + n + p) / 4, r / 4;
    assert g == 4 * a && g + n + p == 4 * b && r == 4 * c;
    assert n + p - r == 4 * (b - a - c);
  }

  /** A padded write that covers the whole tail of the file. */
  lemma PadWriteOverTail(a: Text, tail: Text, d: Text)
    requires |tail| <= |d| + Padding(|a| + |d|)
    ensures Pad32Write(a + tail, |a|, d) == a + d + Zeros(Padding(|a| + |d|))
  {
    var z := Zeros(Padding(|a| + |d|));
    WriteOverTail(a, tail, d + z);
    assert a + (d + z) == a + d + z;
  }

  lemma ValueTailFits(g: Text, v: Text, chunk: Text, tail: Text)
    requires |g| % 4 == 0 && chunk != []
    requires |tail| == (if v == [] then 0 else Round4(|v| + 1) - |v|)
    ensures |tail| <= |chunk| + Padding(|g| + |v| + |chunk|)
  {
    PaddingIsRound(|g|, |v| + |chunk|);
  }

  lemma ValueSplits(v: Text, tail: Text)
    requires tail == if v == [] then [] else [0] + Zeros(Round4(|v| + 1) - |v| - 1)
    ensures ValueBytes(v) == v + tail
  {
  }

  lemma ChunkWrite(g: Text, v: Text, chunk: Text)
    requires |g| % 4 == 0 && chunk != []
    ensures Pad32Write(g + ValueBytes(v), |g| + |v|, chunk)
            == g + (v + chunk) + Zeros(Padding(|g| + |v + chunk|))
  {
    hide Pad32Write, ValueBytes;
    var tail := if v == [] then [] else [0] + Zeros(Round4(|v| + 1) - |v| - 1);
    ValueSplits(v, tail);
    assert g + (v + tail) == (g + v) + tail;
    ValueTailFits(g, v, chunk, tail);
    PadWriteOverTail(g + v, tail, chunk);
    assert g + v + chunk == g + (v + chunk);
  }

  lemma NulWrite(f: Text, g: Text, w: Text)
    requires |g| % 4 == 0 && f == g + w + Zeros(Padding(|g| + |w|))
    ensures Pad32Write(f, |g| + |w|, [0]) == g + Pad4(w + [0])
  {
    hide Pad32Write;
    PadWriteOverTail(g + w, Zeros(Padding(|g| + |w|)), [0]);
    PaddingIsRound(|g|, |w| + 1);
    var z := Zeros(Padding(|g| + |w| + 1));
    assert g + w + [0] + z == g + (w + [0] + z);
  }

  /** Appending a chunk to a stored value, however the value was split before. */
  lemma AppendChunk(g: Text, v: Text, chunk: Text)
    requires |g| % 4 == 0 && chunk != []
    ensures Pad32Write(Pad32Write(g + ValueBytes(v), |g| + |v|, chunk), |g| + |v| + |chunk|, [0])
            == g + Pad4((v + chunk) + [0])
  {
    var f := Pad32Write(g + ValueBytes(v), |g| + |v|, chunk);
    ChunkWrite(g, v, chunk);
    NulWrite(f, g, v + chunk);
  }

  lemma ValueIsAligned(n: nat, k: nat)
    ensures (Round8(n) + SIZEOF_RULE + Round4(k)) % 4 == 0
  {
    var a, b := Round8(n) / 8, Round4(k) / 4;
    assert Round8(n) == 8 * a && Round4(k) == 4 * b;
    hide Round8, Round4;
    assert 8 * a + SIZEOF_RULE + 4 * b == 4 * (2 * a + 12 + b);
  }

  lemma JumpIsAligned(n: nat)
    ensures Padding(Round8(n) + JUMP_FIELD + 4) == 0
  {
    var a := Round8(n) / 8;
    assert Round8(n) == 8 * a;
    hide Round8;
    assert 8 * a + JUMP_FIELD + 4 == 4 * (2 * a + 3);
  }

  /** The part of an open file before the value. */
  function BeforeValue(f: Text, key: Text): (g: Text)
    ensures |g| == Round8(|f|) + SIZEOF_RULE + Round4(|key| + 1)
  {
    f + Zeros(Round8(|f|) - |f|) + Zeros(SIZEOF_RULE) + Pad4(key + [0])
  }

  lemma OpenFileSplits(f: Text, k: Content)
    requires k.key != []
    ensures OpenFile(f, k) == BeforeValue(f, k.key) + ValueBytes(k.value)
  {
    assert Body(k.key, k.value) == Pad4(k.key + [0]) + ValueBytes(k.value);
  }

  lemma OpenValue(c: Ctx, f: Text, t: RuleType, k: Content, chunk: Text)
    requires IsOpen(c, f, t, k) && k.key != []
    ensures StoreValue(c, chunk).0 == Running
    ensures IsOpen(StoreValue(c, chunk).1, f, t, k.(value := AddChunk(k.value, chunk)))
  {
    hide Pad32Write, Round4, Round8, Body, BeforeValue;
    if chunk != [] && chunk[0] != 0 {
      var k' := k.(value := k.value + chunk);
      OpenFileSplits(f, k);
      OpenFileSplits(f, k');
      var g := BeforeValue(f, k.key);
      ValueIsAligned(|f|, |k.key| + 1);
      AppendChunk(g, k.value, chunk);
      assert StoreValue(c, chunk).1.file == OpenFile(f, k');
    }
  }

  lemma FillHole(f: Text, t: RuleType, k: Content, hole: Text)
    requires |hole| == SIZEOF_RULE
    ensures var a := f + Zeros(Round8(|f|) - |f|);
            Pad32Write(a + hole + Body(k.key, k.value), Round8(|f|), RuleBytes(RuleAt(Round8(|f|), t, k, 0)))
            == f + EmitRule(|f|, t, k, 0)
  {
    hide Body, Round4, RuleAt, BeforeJump, AfterJump, RuleBytes;
    var a := f + Zeros(Round8(|f|) - |f|);
    var b := Body(k.key, k.value);
    var rb := RuleBytes(RuleAt(Round8(|f|), t, k, 0));
    assert rb + Zeros(Padding(Round8(|f|) + SIZEOF_RULE)) == rb;
    WriteInside(a, hole, b, rb);
    assert a + rb + b == f + (Zeros(Round8(|f|) - |f|) + rb + b);
  }

  /** Storing the rule fills its hole. */
  lemma OpenStore(c: Ctx, f: Text, t: RuleType, k: Content)
    requires IsOpen(c, f, t, k) && k.key != []
    ensures StoreRule(c).0 == Running
    ensures StoreRule(c).1 == c.(rule := InitRule(), file := f + EmitRule(|f|, t, k, 0))
  {
    FillHole(f, t, k, Zeros(SIZEOF_RULE));
  }

  lemma OpenAttr(c: Ctx, f: Text, t: RuleType, k: Content, a: Attr)
    requires IsOpen(c, f, t, k)
    ensures StartAttr(c, a).0 == ScanAttr(t, a, k).0
    ensures StartAttr(c, a).0 == Running ==> IsOpen(StartAttr(c, a).1, f, t, ScanAttr(t, a, k).1)
  {
    if IsKeyAttr(t, a.name) {
      if k.key == [] && a.value != [] {
        OpenKey(c, f, t, k, a.value);
      }
    } else if t.Match? && k.key != [] && GetMatchType(a.name) != MATCH_UNKNOWN {
      var k' := k.(typeMatch := GetMatchType(a.name));
      OpenValue(c.(rule := c.rule.(typeMatch := GetMatchType(a.name))), f, t, k', a.value);
    }
  }

  lemma {:induction false} OpenAttrs(c: Ctx, f: Text, t: RuleType, k: Content, attrs: seq<Attr>)
    requires IsOpen(c, f, t, k)
    ensures StartAttrs(c, attrs).0 == ScanAttrs(t, attrs, k).0
    ensures StartAttrs(c, attrs).0 == Running ==>
              IsOpen(StartAttrs(c, attrs).1, f, t, ScanAttrs(t, attrs, k).1)
    decreases |attrs|
  {
    if attrs != [] {
      OpenAttr(c, f, t, k, attrs[0]);
      if StartAttr(c, attrs[0]).0 == Running {
        OpenAttrs(StartAttr(c, attrs[0]).1, f, t, ScanAttr(t, attrs[0], k).1, attrs[1..]);
      }
    }
  }

  /** The start tag of a rule element. */
  lemma StartOpens(c: Ctx, name: Text, attrs: seq<Attr>)
    requires Valid(c) && !GetRuleType(name).Unknown?
    ensures var t := GetRuleType(name);
            var (st, c') := Start(c, name, attrs);
            && st == OpenStatus(t, attrs, c.depth)
            && (st == Running ==>
                  && IsOpen(c', Flush(c).file, t, AttrContent(t, attrs))
                  && AttrContent(t, attrs).key != []
                  && (!t.Match? ==> c'.depth == c.depth && c'.matchAtDepth == c.matchAtDepth)
                  && (t.Match? ==> c'.depth == c.depth + 1)
                  && (t.Match? ==> c'.matchAtDepth == c.matchAtDepth[c.depth := c'.position % U32]))
  {
    var t := GetRuleType(name);
    var f := Flush(c).file;
    var c1 := Opened(c, name);
    assert IsOpen(c1, f, t, NoContent());
    OpenAttrs(c1, f, t, NoContent(), attrs);
  }

  // Whole documents.

  /** An element's events, run one part after the other. */
  lemma RunElement(c: Ctx, d: Doc)
    requires Valid(c) && d.Element?
    ensures var (st1, c1) := Step(c, StartEvent(d.name, d.attrs));
            if st1 != Running then Run(c, Events(d)) == (st1, c1)
            else
              && Valid(c1)
              && var (st2, c2) := Run(c1, Events(d.kids));
                 if st2 != Running then Run(c, Events(d)) == (st2, c2)
                 else
                   && Valid(c2)
                   && var (st3, c3) := Step(c2, EndEvent(d.name));
                      if st3 != Running then Run(c, Events(d)) == (st3, c3)
                      else Valid(c3) && Run(c, Events(d)) == Run(c3, Events(d.rest))
  {
    var tail := [EndEvent(d.name)] + Events(d.rest);
    RunOne(c, StartEvent(d.name, d.attrs), Events(d.kids) + tail);
    var (st1, c1) := Step(c, StartEvent(d.name, d.attrs));
    if st1 == Running {
      RunAppend(c1, Events(d.kids), tail);
      var (st2, c2) := Run(c1, Events(d.kids));
      if st2 == Running {
        RunOne(c2, EndEvent(d.name), Events(d.rest));
      }
    }
  }

  lemma {:induction false} TextIsAccepted(d: Doc, depth: nat)
    requires OnlyText(d)
    ensures Check(d, depth) == Running
  {
    if d.Chars? {
      TextIsAccepted(d.rest, depth);
    }
  }

  /** The callbacks accept, stop or die exactly as `Check` says. */
  /** What each callback decides, without the bytes. */
  lemma StartVerdict(c: Ctx, name: Text, attrs: seq<Attr>)
    requires Valid(c)
    ensures var t := GetRuleType(name);
            var (st, c') := Start(c, name, attrs);
            && st == (if t.Unknown? then Running else OpenStatus(t, attrs, c.depth))
            && (st == Running ==> c'.rule.rtype == t && c'.depth == if t.Match? then c.depth + 1 else c.depth)
  {
    if !GetRuleType(name).Unknown? {
      hide OpenStatus, GetRuleType, StartAttrs, AttrContent, OpenFile, StoreRule, Start;
      StartOpens(c, name, attrs);
    }
  }

  lemma CharsVerdict(c: Ctx, text: Text)
    requires Valid(c)
    ensures CharData(c, text).0 == Running
    ensures CharData(c, text).1.depth == c.depth && CharData(c, text).1.rule.rtype == c.rule.rtype
  {
    hide Pad32Write;
  }

  lemma EndVerdict(c: Ctx, name: Text)
    requires Valid(c)
    ensures var t := GetRuleType(name);
            var (st, c') := End(c, name);
            && st == (if t.Unknown? then Running
                      else if t.Match? then (if c.depth == 0 then Died else Running)
                      else if c.rule.rtype == t then Running else Stopped)
            && (st == Running ==>
                  && c'.depth == (if t.Match? then c.depth - 1 else c.depth)
                  && c'.rule.rtype == (if t.Unknown? || (t.Match? && !c.rule.rtype.Match?) then c.rule.rtype else Unknown))
  {
    hide Pad32Write, GetRuleType, RuleBytes;
  }

  lemma {:induction false} RunStatus(c: Ctx, d: Doc)
    requires Valid(c)
    ensures Run(c, Events(d)).0 == Check(d, c.depth)
    ensures Run(c, Events(d)).0 == Running ==> Run(c, Events(d)).1.depth == c.depth
    ensures Run(c, Events(d)).0 == Running ==>
              Run(c, Events(d)).1.rule.rtype == if OnlyText(d) then c.rule.rtype else Unknown
    decreases d
  {
    hide Pad32Write, RuleBytes, IsOpen, ScanAttrs, OpenStatus, GetRuleType, StartAttrs, RuleSize, Round4, Round8, OpenFile, WriteAt, End, CharData, Start;
    match d
    case Nil =>
    case Chars(text, rest) =>
      RunOne(c, CharsEvent(text), Events(rest));
      CharsVerdict(c, text);
      RunStatus(CharData(c, text).1, rest);
    case Element(name, attrs, kids, rest) =>
      RunElement(c, d);
      if OnlyText(kids) {
        TextIsAccepted(kids, c.depth);
      }
      var t := GetRuleType(name);
      StartVerdict(c, name, attrs);
      var (st1, c1) := Start(c, name, attrs);
      if st1 == Running {
        RunStatus(c1, kids);
        var (st2, c2) := Run(c1, Events(kids));
        if st2 == Running {
          EndVerdict(c2, name);
          var (st3, c3) := End(c2, name);
          if st3 == Running {
            RunStatus(c3, rest);
          }
        }
      }
  }

  /** Text inside an open leaf rule is appended to its value. */
  lemma {:induction false} RunText(c: Ctx, f: Text, t: RuleType, k: Content, d: Doc)
    requires Valid(c) && IsOpen(c, f, t, k) && k.key != [] && OnlyText(d)
    ensures var (st, c') := Run(c, Events(d));
            && st == Running
            && IsOpen(c', f, t, k.(value := GatherText(t, k.value, d)))
            && c'.depth == c.depth && c'.matchAtDepth == c.matchAtDepth
    decreases d
  {
    match d
    case Nil =>
    case Chars(text, rest) =>
      RunOne(c, CharsEvent(text), Events(rest));
      if TakesText(t) {
        OpenValue(c, f, t, k, text);
        RunText(CharData(c, text).1, f, t, k.(value := AddChunk(k.value, text)), rest);
      } else {
        RunText(c, f, t, k, rest);
      }
  }

  lemma RulePartsAt(b: nat, t: RuleType, k: Content, jump: nat)
    ensures var r := RuleAt(Round8(b), t, k, 0);
            EmitRule(b, t, k, jump)
            == Zeros(Round8(b) - b) + BeforeJump(r) + Le(4, jump) + AfterJump(r) + Body(k.key, k.value)
  {
    var r := RuleAt(Round8(b), t, k, jump);
    assert RuleBytes(r) == BeforeJump(r) + Le(4, jump) + AfterJump(r);
    var z := Zeros(Round8(b) - b);
    assert z + (BeforeJump(r) + Le(4, jump) + AfterJump(r)) == z + BeforeJump(r) + Le(4, jump) + AfterJump(r);
  }

  lemma AroundJump(f: Text, z: Text, b: Text, j: Text, a: Text, y: Text, k: Text)
    ensures f + (z + b + j + a + y) + k == (f + z + b) + j + (a + y + k)
  {
    assert f + (z + b + j + a + y) == (f + z + b) + j + (a + y);
  }

  lemma PatchAt(a: Text, b: Text, c: Text, d: Text)
    requires |b| == |d| && Padding(|a| + |d|) == 0
    ensures Pad32Write(a + b + c, |a|, d) == a + d + c
  {
    hide WriteAt;
    assert d + Zeros(0) == d;
    WriteInside(a, b, c, d);
  }

  /** Back-patching changes the jump field of the patched rule and nothing else. */
  lemma PatchJump(f: Text, k: Content, rest: Text, jump: nat)
    ensures Pad32Write(f + EmitRule(|f|, Match, k, 0) + rest, Round8(|f|) + JUMP_FIELD, Le(4, jump))
            == f + EmitRule(|f|, Match, k, jump) + rest
  {
    JumpIsAligned(|f|);
    hide EmitRule, Body, BeforeJump, AfterJump, RuleAt, Padding, Round8, Pad32Write, Le, Zeros;
    var r := RuleAt(Round8(|f|), Match, k, 0);
    var z, y := Zeros(Round8(|f|) - |f|), Body(k.key, k.value);
    RulePartsAt(|f|, Match, k, 0);
    RulePartsAt(|f|, Match, k, jump);
    AroundJump(f, z, BeforeJump(r), Le(4, 0), AfterJump(r), y, rest);
    AroundJump(f, z, BeforeJump(r), Le(4, jump), AfterJump(r), y, rest);
    assert |f + z + BeforeJump(r)| == Round8(|f|) + JUMP_FIELD;
    PatchAt(f + z + BeforeJump(r), Le(4, 0), AfterJump(r) + y + rest, Le(4, jump));
  }

  /** The end tag of a `<match>` whose rule sits right after `f` and whose children emitted `rest`. */
  lemma EndPatches(c: Ctx, name: Text, f: Text, k: Content, rest: Text)
    requires Valid(c) && GetRuleType(name).Match? && c.depth > 0
    requires c.rule.rtype.Unknown? || c.rule.rtype.Match?
    requires c.matchAtDepth[c.depth - 1] == Round8(|f|)
    requires Flush(c).file == f + EmitRule(|f|, Match, k, 0) + rest
    ensures var (st, c') := End(c, name);
            && st == Running && c'.rule.rtype.Unknown?
            && c'.depth == c.depth - 1 && c'.matchAtDepth == c.matchAtDepth
            && c'.file == f + EmitRule(|f|, Match, k, Round8(RuleEnd(|f|, k) + |rest|)) + rest
  {
    hide EmitRule, Pad32Write, Round8, RuleEnd;
    PatchJump(f, k, rest, Round8(RuleEnd(|f|, k) + |rest|));
    var c' := Flush(c);
    assert |c'.file| == RuleEnd(|f|, k) + |rest|;
    assert End(c, name) == SetJumpPosition(c');
  }

  predicate Idle(c: Ctx) {
    Valid(c) && (c.rule.rtype.Unknown? || c.rule.rtype.Match?)
  }

  /** The claim of `RunEmits` about one context and document. */
  predicate Emits(c: Ctx, d: Doc)
    requires Valid(c)
  {
    var c' := Run(c, Events(d)).1;
    && Flush(c').file == Flush(c).file + Emit(|Flush(c).file|, d)
    && |c'.matchAtDepth| == |c.matchAtDepth| && c.depth <= |c.matchAtDepth|
    && c'.matchAtDepth[..c.depth] == c.matchAtDepth[..c.depth]
  }

  /** Compiling a document appends exactly `Emit`, jump targets included. */
  lemma {:induction false} RunEmits(c: Ctx, d: Doc)
    requires Idle(c) && Check(d, c.depth) == Running
    requires |Flush(c).file| + |Emit(|Flush(c).file|, d)| < U32
    ensures Emits(c, d)
    decreases d
  {
    match d
    case Nil =>
    case Chars(text, rest) =>
      RunOne(c, CharsEvent(text), Events(rest));
      RunEmits(c, rest);
    case Element(name, attrs, kids, rest) =>
      var t := GetRuleType(name);
      if t.Unknown? {
        EmitsUnknown(c, d);
      } else if t.Match? {
        EmitsMatch(c, d);
      } else {
        EmitsLeaf(c, d);
      }
  }

  lemma {:induction false} EmitsUnknown(c: Ctx, d: Doc)
    requires d.Element? && GetRuleType(d.name).Unknown?
    requires Idle(c) && Check(d, c.depth) == Running
    requires |Flush(c).file| + |Emit(|Flush(c).file|, d)| < U32
    ensures Emits(c, d)
    decreases d, 0
  {
    hide Pad32Write, EmitRule, RuleEnd, Round8, IsOpen, StartAttrs, ScanAttrs, OpenStatus, GetRuleType, RuleBytes;
    var f := Flush(c).file;
    RunElement(c, d);
    var c1 := Start(c, d.name, d.attrs).1;
    RunStatus(c1, d.kids);
    RunEmits(c1, d.kids);
    var c2 := Run(c1, Events(d.kids)).1;
    var k := Emit(|f|, d.kids);
    assert c2.file == f + k;
    RunEmits(c2, d.rest);
    assert f + k + Emit(|f| + |k|, d.rest) == f + (k + Emit(|f| + |k|, d.rest));
  }

  lemma {:induction false} EmitsLeaf(c: Ctx, d: Doc)
    requires d.Element? && !GetRuleType(d.name).Unknown? && !GetRuleType(d.name).Match?
    requires Idle(c) && Check(d, c.depth) == Running
    requires |Flush(c).file| + |Emit(|Flush(c).file|, d)| < U32
    ensures Emits(c, d)
    decreases d, 0
  {
    hide Pad32Write, EmitRule, RuleEnd, Round8, IsOpen, StoreRule, ScanAttrs, OpenStatus, GetRuleType;
    var t := GetRuleType(d.name);
    var f := Flush(c).file;
    RunElement(c, d);
    StartOpens(c, d.name, d.attrs);
    RunStatus(c, d);
    var c1 := Start(c, d.name, d.attrs).1;
    var k := AttrContent(t, d.attrs);
    assert OnlyText(d.kids);
    RunText(c1, f, t, k, d.kids);
    var c2 := Run(c1, Events(d.kids)).1;
    var k' := LeafContent(t, d.attrs, d.kids);
    OpenStore(c2, f, t, k');
    var c3 := End(c2, d.name).1;
    var e := EmitRule(|f|, t, k', 0);
    assert c3.file == f + e;
    RunEmits(c3, d.rest);
    assert f + e + Emit(RuleEnd(|f|, k'), d.rest) == f + (e + Emit(RuleEnd(|f|, k'), d.rest));
  }

  /** A `<match>` start tag pushes its own position and leaves a rule without a jump. */
  lemma MatchOpens(c: Ctx, d: Doc)
    requires d.Element? && GetRuleType(d.name).Match?
    requires Idle(c) && Check(d, c.depth) == Running && RuleEnd(|Flush(c).file|, AttrContent(Match, d.attrs)) < U32
    ensures var f, k := Flush(c).file, AttrContent(Match, d.attrs);
            var (st, c1) := Start(c, d.name, d.attrs);
            && st == Running && Idle(c1) && c1.depth == c.depth + 1
            && c1.matchAtDepth == c.matchAtDepth[c.depth := Round8(|f|)]
            && Flush(c1).file == f + EmitRule(|f|, Match, k, 0)
            && Check(d.kids, c1.depth) == Running && Check(d.rest, c.depth) == Running
  {
    hide Start, StoreRule, OpenFile, EmitRule, ScanAttrs, GetRuleType, Body, RuleSize;
    var f, k := Flush(c).file, AttrContent(Match, d.attrs);
    StartOpens(c, d.name, d.attrs);
    RunOne(c, StartEvent(d.name, d.attrs), []);
    var c1 := Start(c, d.name, d.attrs).1;
    OpenStore(c1, f, Match, k);
  }

  lemma {:induction false} EmitsMatch(c: Ctx, d: Doc)
    requires d.Element? && GetRuleType(d.name).Match?
    requires Idle(c) && Check(d, c.depth) == Running
    requires |Flush(c).file| + |Emit(|Flush(c).file|, d)| < U32
    ensures Emits(c, d)
    decreases d, 0
  {
    hide Pad32Write, EmitRule, RuleEnd, Round8, StartAttrs, StoreRule, OpenStatus, GetRuleType, RuleBytes, Start, End, Check, AttrContent;
    var f := Flush(c).file;
    RunElement(c, d);
    MatchOpens(c, d);
    var c1 := Start(c, d.name, d.attrs).1;
    var k := AttrContent(Match, d.attrs);
    var e := RuleEnd(|f|, k);
    var kb := Emit(e, d.kids);
    RunStatus(c1, d.kids);
    RunEmits(c1, d.kids);
    var c2 := Run(c1, Events(d.kids)).1;
    StackKept(c.matchAtDepth, c1.matchAtDepth, c2.matchAtDepth, c.depth, Round8(|f|));
    EndPatches(c2, d.name, f, k, kb);
    var c3 := End(c2, d.name).1;
    RunEmits(c3, d.rest);
    var r := EmitRule(|f|, Match, k, Round8(e + |kb|));
    Lists.Associate4(f, r, kb, Emit(e + |kb|, d.rest));
  }

  lemma StackKept(s: seq<nat>, s1: seq<nat>, s2: seq<nat>, n: nat, p: nat)
    requires n < |s| && s1 == s[n := p] && |s2| == |s| && s2[..n + 1] == s1[..n + 1]
    ensures s2[n] == p && s2[..n] == s[..n]
  {
    assert s2[n] == s2[..n + 1][n];
    assert s2[..n] == s2[..n + 1][..n];
  }

  // A file's compilation stays above its start.

  /** Every position the context may still write to is at or above `base`. */
  predicate Above(c: Ctx, base: nat) {
    && Valid(c) && base <= |c.file|
    && (!c.rule.rtype.Unknown? ==> base <= c.position)
    && forall i :: 0 <= i < c.depth ==> base <= c.matchAtDepth[i]
  }

  lemma PadWriteKeeps(f: Text, off: nat, d: Text, base: nat)
    requires base <= off && base <= |f|
    ensures |f| <= |Pad32Write(f, off, d)|
    ensures Pad32Write(f, off, d)[..base] == f[..base]
  {
    if |f| < off {
      WritePastEnd(f, off, d + Zeros(Padding(off + |d|)));
    } else {
      var g := Pad32Write(f, off, d);
      assert g[..base] == g[..off][..base] == f[..off][..base];
    }
  }

  /** The file only grew, and kept its first `base` bytes. */
  predicate Grew(f: Text, g: Text, base: nat) {
    base <= |f| <= |g| && g[..base] == f[..base]
  }

  lemma StoreKeeps(c: Ctx, base: nat)
    requires Above(c, base)
    ensures Grew(c.file, Flush(c).file, base) && Above(Flush(c), base)
  {
    hide Pad32Write;
    if !c.rule.rtype.Unknown? {
      PadWriteKeeps(c.file, c.position, RuleBytes(c.rule.(ruleSize := RuleSize(c.rule.keyLen, c.rule.valueLen))), base);
    }
  }

  lemma StoreValueKeeps(c: Ctx, value: Text, base: nat)
    requires base <= |c.file| && base <= c.position
    ensures Grew(c.file, StoreValue(c, value).1.file, base)
    ensures StoreValue(c, value).1.position == c.position
  {
    hide Pad32Write;
    if !c.rule.rtype.Unknown? && c.rule.keyLen >= 2 && value != [] && value[0] != 0 {
      var start := c.position + SIZEOF_RULE + Round4(c.rule.keyLen);
      var off := if c.rule.valueLen == 0 then start else start + c.rule.valueLen - 1;
      PadWriteKeeps(c.file, off, value, base);
      PadWriteKeeps(Pad32Write(c.file, off, value), off + |value|, [0], base);
    }
  }

  lemma {:induction false} AttrsKeep(c: Ctx, attrs: seq<Attr>, base: nat)
    requires base <= |c.file| && base <= c.position
    requires c.rule.keyLen > 0 ==> c.position + SIZEOF_RULE < |c.file|
    ensures var r := StartAttrs(c, attrs).1;
            Grew(c.file, r.file, base) && (r.rule.keyLen > 0 ==> r.position + SIZEOF_RULE < |r.file|)
    decreases |attrs|
  {
    hide Pad32Write, Round4, GetMatchType, GetMergeType;
    if attrs != [] {
      var a := attrs[0];
      if IsKeyAttr(c.rule.rtype, a.name) {
        PadWriteKeeps(c.file, c.position + SIZEOF_RULE, a.value + [0], base);
        PadWriteReaches(c.file, c.position + SIZEOF_RULE, a.value + [0]);
      } else if c.rule.rtype.Match? {
        StoreValueKeeps(c.(rule := c.rule.(typeMatch := GetMatchType(a.name))), a.value, base);
      }
      AttrsKeep(StartAttr(c, a).1, attrs[1..], base);
    }
  }

  lemma PadWriteReaches(f: Text, off: nat, d: Text)
    ensures off + |d| <= |Pad32Write(f, off, d)|
  {
  }

  lemma StartKeeps(c: Ctx, name: Text, attrs: seq<Attr>, base: nat)
    requires Above(c, base)
    requires |Start(c, name, attrs).1.file| < U32
    ensures var (st, c') := Start(c, name, attrs);
            Grew(c.file, c'.file, base) && (st == Running ==> Above(c', base))
  {
    hide Pad32Write, GetRuleType, StoreRule, StartAttr;
    StoreKeeps(c, base);
    StepKeepsValid(c, StartEvent(name, attrs));
    var c1 := Opened(c, name);
    AttrsKeep(c1, attrs, base);
  }

  lemma EndKeeps(c: Ctx, name: Text, base: nat)
    requires Above(c, base)
    ensures var (st, c') := End(c, name);
            Grew(c.file, c'.file, base) && (st == Running ==> Above(c', base))
  {
    hide Pad32Write, GetRuleType;
    StoreKeeps(c, base);
    StepKeepsValid(c, EndEvent(name));
    var c1 := if c.rule.rtype.Match? then StoreRule(c).1 else c;
    if c1.depth > 0 {
      PadWriteKeeps(c1.file, c1.matchAtDepth[c1.depth - 1] + JUMP_FIELD, Le(4, Round8(|c1.file|)), base);
    }
  }

  lemma CharsKeep(c: Ctx, s: Text, base: nat)
    requires Above(c, base)
    ensures var (st, c') := CharData(c, s);
            Grew(c.file, c'.file, base) && (st == Running ==> Above(c', base))
  {
    hide Pad32Write, Round4;
    if TakesText(c.rule.rtype) {
      StoreValueKeeps(c, s, base);
      StepKeepsValid(c, CharsEvent(s));
    }
  }

  /** Whatever the events, and however they end, compiling a file leaves the bytes before it alone. */
  lemma {:induction false} RunKeepsPrefix(c: Ctx, events: seq<Event>, base: nat)
    requires Above(c, base)
    requires |Run(c, events).1.file| < U32
    ensures Grew(c.file, Run(c, events).1.file, base)
    decreases |events|
  {
    hide Start, CharData, End;
    if events != [] {
      StepKeepsValid(c, events[0]);
      var (st, c') := Step(c, events[0]);
      RunGrows(c, events);
      match events[0] {
        case StartEvent(name, attrs) => StartKeeps(c, name, attrs, base);
        case CharsEvent(text) => CharsKeep(c, text, base);
        case EndEvent(name) => EndKeeps(c, name, base);
      }
      if st == Running {
        RunKeepsPrefix(c', events[1..], base);
      }
    }
  }

  lemma StepGrows(c: Ctx, e: Event)
    requires Valid(c)
    ensures |c.file| <= |Step(c, e).1.file|
  {
    if e.StartEvent? {
      AttrsKeep(Opened(c, e.name), e.attrs, 0);
    }
  }

  lemma {:induction false} RunGrows(c: Ctx, events: seq<Event>)
    requires Valid(c)
    ensures |c.file| <= |Run(c, events).1.file|
    ensures events != [] ==> |Step(c, events[0]).1.file| <= |Run(c, events).1.file|
    decreases |events|
  {
    hide Step;
    if events != [] {
      StepGrows(c, events[0]);
      StepKeepsValid(c, events[0]);
      if Step(c, events[0]).0 == Running {
        RunGrows(Step(c, events[0]).1, events[1..]);
      }
    }
  }
}
