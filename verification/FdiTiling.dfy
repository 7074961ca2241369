/**
 The shape of the cache while it is being written: after every SAX event of a properly nested stream
 the stored rules tile the file, every patched jump points at a later rule boundary, and every key and value
 reads back as the events so far gave it.
 */
module FdiTiling {
  import Lists
  import opened Options
  import opened Bytes
  import opened RuleLayout
  import opened FdiDocument
  import opened FdiCompiler
  import opened FdiCompilerProof
  import opened FdiCache
  import opened FdiInterpreter
  import opened FdiMachineProof

  datatype Placed = Placed(rtype: RuleType, content: Content, jump: nat)

  /** The bytes of a list of rules laid one after the other from offset `b`. */
  function Laid(b: nat, ls: seq<Placed>): Text
    decreases |ls|
  {
    if ls == [] then []
    else EmitRule(b, ls[0].rtype, ls[0].content, ls[0].jump) + Laid(RuleEnd(b, ls[0].content), ls[1..])
  }

  /** The offset right behind the first `i` rules. */
  function EndOf(b: nat, ls: seq<Placed>, i: nat): nat
    requires i <= |ls|
    decreases i
  {
    if i == 0 then b else RuleEnd(EndOf(b, ls, i - 1), ls[i - 1].content)
  }

  /** Where rule `i` starts, or would start. */
  function StartOf(b: nat, ls: seq<Placed>, i: nat): nat
    requires i <= |ls|
  {
    Round8(EndOf(b, ls, i))
  }

  lemma {:induction false} EndShift(b: nat, ls: seq<Placed>, i: nat)
    requires 0 < i <= |ls|
    ensures EndOf(b, ls, i) == EndOf(RuleEnd(b, ls[0].content), ls[1..], i - 1)
    decreases i
  {
    hide RuleEnd;
    if i > 1 {
      EndShift(b, ls, i - 1);
    }
  }

  lemma {:induction false} LaidLength(b: nat, ls: seq<Placed>)
    ensures b + |Laid(b, ls)| == EndOf(b, ls, |ls|)
    decreases |ls|
  {
    hide EmitRule, RuleEnd;
    if ls != [] {
      LaidLength(RuleEnd(b, ls[0].content), ls[1..]);
      EndShift(b, ls, |ls|);
    }
  }

  lemma {:induction false} LaidAppend(b: nat, xs: seq<Placed>, ys: seq<Placed>)
    ensures Laid(b, xs + ys) == Laid(b, xs) + Laid(b + |Laid(b, xs)|, ys)
    decreases |xs|
  {
    hide EmitRule, RuleEnd;
    if xs == [] {
      assert xs + ys == ys;
    } else {
      var e := RuleEnd(b, xs[0].content);
      LaidAppend(e, xs[1..], ys);
      assert (xs + ys)[1..] == xs[1..] + ys;
      var r := EmitRule(b, xs[0].rtype, xs[0].content, xs[0].jump);
      Lists.Associate(r, Laid(e, xs[1..]), Laid(e + |Laid(e, xs[1..])|, ys));
    }
  }

  lemma {:induction false} EndAppend(b: nat, xs: seq<Placed>, ys: seq<Placed>, i: nat)
    requires i <= |xs|
    ensures EndOf(b, xs + ys, i) == EndOf(b, xs, i)
    decreases i
  {
    hide RuleEnd;
    if i > 0 {
      EndAppend(b, xs, ys, i - 1);
    }
  }

  lemma LaidOne(b: nat, p: Placed)
    ensures Laid(b, [p]) == EmitRule(b, p.rtype, p.content, p.jump)
  {
    hide EmitRule, RuleEnd;
    assert Laid(RuleEnd(b, p.content), [p][1..]) == [];
  }

  /** Replacing the jump of one rule. */
  function Patched(ls: seq<Placed>, i: nat, jump: nat): seq<Placed>
    requires i < |ls|
  {
    ls[i := ls[i].(jump := jump)]
  }

  lemma {:induction false} EndIgnoresJumps(b: nat, ls: seq<Placed>, j: nat, jump: nat, i: nat)
    requires j < |ls| && i <= |ls|
    ensures EndOf(b, Patched(ls, j, jump), i) == EndOf(b, ls, i)
    decreases i
  {
    hide RuleEnd;
    if i > 0 {
      EndIgnoresJumps(b, ls, j, jump, i - 1);
    }
  }

  /** Back-patching one rule of a tiled file changes that rule's jump and nothing else. */
  lemma {:induction false} PatchTile(f: Text, ls: seq<Placed>, i: nat, jump: nat)
    requires i < |ls| && ls[i].rtype.Match? && ls[i].jump == 0
    ensures Pad32Write(f + Laid(|f|, ls), StartOf(|f|, ls, i) + JUMP_FIELD, Le(4, jump))
            == f + Laid(|f|, Patched(ls, i, jump))
  {
    hide EmitRule, RuleEnd, Pad32Write, Laid, EndOf;
    var xs, ys := ls[..i], ls[i + 1..];
    var g := f + Laid(|f|, xs);
    assert ls == xs + ([ls[i]] + ys);
    SplitTile(f, xs, ls[i], ys);
    EndAppend(|f|, xs, [ls[i]] + ys, i);
    LaidLength(|f|, xs);
    var p := ls[i].(jump := jump);
    assert Patched(ls, i, jump) == xs + ([p] + ys);
    SplitTile(f, xs, p, ys);
    PatchJump(g, ls[i].content, Laid(RuleEnd(|g|, ls[i].content), ys), jump);
  }

  lemma SplitTile(f: Text, xs: seq<Placed>, p: Placed, ys: seq<Placed>)
    ensures var g := f + Laid(|f|, xs);
            f + Laid(|f|, xs + ([p] + ys))
            == g + EmitRule(|g|, p.rtype, p.content, p.jump) + Laid(RuleEnd(|g|, p.content), ys)
  {
    hide EmitRule, RuleEnd, Laid;
    var l := Laid(|f|, xs);
    var b := |f| + |l|;
    LaidAppend(|f|, xs, [p] + ys);
    LaidCons(b, p, ys);
    var e, r := EmitRule(b, p.rtype, p.content, p.jump), Laid(RuleEnd(b, p.content), ys);
    Lists.Associate(f, l, e + r);
    Lists.Associate(f + l, e, r);
  }

  lemma LaidCons(b: nat, p: Placed, ys: seq<Placed>)
    ensures Laid(b, [p] + ys) == EmitRule(b, p.rtype, p.content, p.jump) + Laid(RuleEnd(b, p.content), ys)
  {
    hide EmitRule, RuleEnd;
    assert ([p] + ys)[1..] == ys;
  }

  // The invariant.

  /**
   What the compiler state stands for: the stored rules, the content of the open rule if there is one,
   for each entry of the match stack the rule it points at, and the names of the open elements.
   */
  datatype Tile = Tile(ls: seq<Placed>, content: Content, matches: seq<nat>, names: seq<Text>)

  ghost predicate FileIsTiled(c: Ctx, f: Text, t: Tile) {
    if c.rule.rtype.Unknown? then c.file == f + Laid(|f|, t.ls)
    else IsOpen(c, f + Laid(|f|, t.ls), c.rule.rtype, t.content) && t.content.key != []
  }

  ghost predicate StackIsTiled(c: Ctx, f: Text, t: Tile) {
    && |t.matches| == c.depth <= |c.matchAtDepth|
    && (forall i :: 0 <= i < c.depth ==> t.matches[i] <= |t.ls| && c.matchAtDepth[i] == StartOf(|f|, t.ls, t.matches[i]))
    && (forall i :: 0 <= i < c.depth && t.matches[i] < |t.ls| ==> t.ls[t.matches[i]].rtype.Match? && t.ls[t.matches[i]].jump == 0)
    && (forall i :: 0 <= i < c.depth && t.matches[i] == |t.ls| ==> c.rule.rtype.Match?)
    && (forall i, j :: 0 <= i < j < c.depth ==> t.matches[i] < t.matches[j])
  }

  /** A rule that has been patched is a match whose jump is the start of a later rule, or of the next one to come. */
  ghost predicate JumpsAreTiled(f: Text, ls: seq<Placed>) {
    forall i :: 0 <= i < |ls| && ls[i].jump != 0 ==>
      ls[i].rtype.Match? && exists j :: i < j <= |ls| && ls[i].jump == StartOf(|f|, ls, j)
  }

  ghost predicate Tiled(c: Ctx, f: Text, t: Tile) {
    && Valid(c) && FileIsTiled(c, f, t) && StackIsTiled(c, f, t) && JumpsAreTiled(f, t.ls)
    && (!c.rule.rtype.Unknown? ==> t.names != [] && GetRuleType(t.names[|t.names| - 1]) == c.rule.rtype)
  }

  // The rules a stream of events describes, without any bytes.

  /** The rules that are complete, and the one still open (`rtype` is Unknown when there is none). */
  datatype Gathered = Gathered(stored: seq<(RuleType, Content)>, rtype: RuleType, content: Content)

  function Completed(g: Gathered): Gathered {
    if g.rtype.Unknown? then g else Gathered(g.stored + [(g.rtype, g.content)], Unknown, NoContent())
  }

  /** A start tag completes the open rule and opens its own; text goes to the open rule; an end tag completes it. */
  function Gather(g: Gathered, e: Event): Gathered {
    match e
    case StartEvent(name, attrs) =>
      var t := GetRuleType(name);
      if t.Unknown? then Completed(g) else Completed(g).(rtype := t, content := AttrContent(t, attrs))
    case CharsEvent(text) =>
      if TakesText(g.rtype) then g.(content := g.content.(value := AddChunk(g.content.value, text))) else g
    case EndEvent(name) => if GetRuleType(name).Unknown? then g else Completed(g)
  }

  function GatherAll(g: Gathered, events: seq<Event>): Gathered
    decreases |events|
  {
    if events == [] then g else GatherAll(Gather(g, events[0]), events[1..])
  }

  function Rules(ls: seq<Placed>): seq<(RuleType, Content)> {
    seq(|ls|, i requires 0 <= i < |ls| => (ls[i].rtype, ls[i].content))
  }

  /** The tile holds exactly the rules gathered from the events. */
  ghost predicate Holds(c: Ctx, t: Tile, g: Gathered) {
    && Rules(t.ls) == g.stored && c.rule.rtype == g.rtype
    && (!g.rtype.Unknown? ==> t.content == g.content)
  }

  lemma FlushHolds(c: Ctx, t: Tile, g: Gathered, c': Ctx, t': Tile)
    requires Holds(c, t, g) && c'.rule.rtype.Unknown?
    requires Rules(t'.ls) == Rules(if c.rule.rtype.Unknown? then t.ls else t.ls + [Placed(c.rule.rtype, t.content, 0)])
    ensures Holds(c', t', Completed(g))
  {
    if !c.rule.rtype.Unknown? {
      assert Rules(t.ls + [Placed(c.rule.rtype, t.content, 0)]) == Rules(t.ls) + [(c.rule.rtype, t.content)];
    }
  }

  lemma NewRuleKeepsJumps(f: Text, ls: seq<Placed>, p: Placed)
    requires JumpsAreTiled(f, ls) && p.jump == 0
    ensures JumpsAreTiled(f, ls + [p])
  {
    hide EndOf;
    forall i | 0 <= i < |ls + [p]| && (ls + [p])[i].jump != 0
      ensures (ls + [p])[i].rtype.Match?
      ensures exists j :: i < j <= |ls + [p]| && (ls + [p])[i].jump == StartOf(|f|, ls + [p], j)
    {
      var j :| i < j <= |ls| && ls[i].jump == StartOf(|f|, ls, j);
      EndAppend(|f|, ls, [p], j);
      assert StartOf(|f|, ls + [p], j) == ls[i].jump;
    }
  }

  /** Flushing the open rule appends it to the stored ones. */
  lemma FlushTiles(c: Ctx, f: Text, t: Tile) returns (t': Tile)
    requires Tiled(c, f, t)
    ensures Tiled(Flush(c), f, t') && Flush(c).rule.rtype.Unknown?
    ensures t'.matches == t.matches && t'.names == t.names
    ensures t'.ls == if c.rule.rtype.Unknown? then t.ls else t.ls + [Placed(c.rule.rtype, t.content, 0)]
    ensures forall i :: 0 <= i < c.depth ==> t'.matches[i] < |t'.ls|
  {
    hide EmitRule, RuleEnd, StoreRule, Laid, EndOf, GetRuleType, IsOpen;
    if c.rule.rtype.Unknown? {
      t' := t;
    } else {
      var p := Placed(c.rule.rtype, t.content, 0);
      t' := t.(ls := t.ls + [p]);
      var g := f + Laid(|f|, t.ls);
      OpenStore(c, g, c.rule.rtype, t.content);
      LaidAppend(|f|, t.ls, [p]);
      LaidOne(|g|, p);
      Lists.Associate(f, Laid(|f|, t.ls), EmitRule(|g|, p.rtype, p.content, 0));
      NewRuleKeepsJumps(f, t.ls, p);
      forall i | 0 <= i < c.depth
        ensures StartOf(|f|, t'.ls, t.matches[i]) == StartOf(|f|, t.ls, t.matches[i])
      {
        EndAppend(|f|, t.ls, [p], t.matches[i]);
      }
    }
  }

  lemma StartTiles(c: Ctx, f: Text, t: Tile, name: Text, attrs: seq<Attr>, g: Gathered) returns (t': Tile)
    requires Tiled(c, f, t) && Holds(c, t, g)
    requires Start(c, name, attrs).0 == Running && |Start(c, name, attrs).1.file| < U32
    ensures Tiled(Start(c, name, attrs).1, f, t') && Holds(Start(c, name, attrs).1, t', Gather(g, StartEvent(name, attrs)))
    ensures t'.names == t.names + [name]
  {
    hide GetRuleType, FileIsTiled, StackIsTiled, JumpsAreTiled, Start, AttrContent;
    var t1 := FlushTiles(c, f, t);
    FlushHolds(c, t, g, Flush(c), t1);
    t' := t1.(names := t.names + [name]);
    if GetRuleType(name).Unknown? {
      StartUnknownTiles(c, f, t1, name, attrs, t');
    } else {
      StartOpens(c, name, attrs);
      StepKeepsValid(c, StartEvent(name, attrs));
      t' := t'.(content := AttrContent(GetRuleType(name), attrs));
      var c1 := Start(c, name, attrs).1;
      if GetRuleType(name).Match? {
        t' := t'.(matches := t1.matches + [|t1.ls|]);
        OpenMatchTiles(Flush(c), f, t1, c1, t');
      } else {
        OpenLeafTiles(Flush(c), f, t1, c1, t');
      }
    }
  }

  lemma StartUnknownTiles(c: Ctx, f: Text, t: Tile, name: Text, attrs: seq<Attr>, t': Tile)
    requires Valid(c) && Tiled(Flush(c), f, t) && Flush(c).rule.rtype.Unknown? && GetRuleType(name).Unknown?
    requires t' == t.(names := t'.names)
    ensures Tiled(Start(c, name, attrs).1, f, t') && Start(c, name, attrs).1.rule.rtype.Unknown?
  {
    hide Laid, EndOf, GetRuleType, StoreRule, JumpsAreTiled, Round8;
    StepKeepsValid(c, StartEvent(name, attrs));
  }

  /** A leaf rule opened on a flushed context. */
  lemma OpenLeafTiles(c: Ctx, f: Text, t: Tile, c': Ctx, t': Tile)
    requires Tiled(c, f, t) && c.rule.rtype.Unknown? && Valid(c')
    requires forall i :: 0 <= i < c.depth ==> t.matches[i] < |t.ls|
    requires t' == t.(content := t'.content, names := t'.names) && t'.names != [] && t'.content.key != []
    requires IsOpen(c', c.file, GetRuleType(t'.names[|t'.names| - 1]), t'.content)
    requires c'.depth == c.depth && c'.matchAtDepth == c.matchAtDepth
    ensures Tiled(c', f, t')
  {
    hide Laid, EndOf, GetRuleType, JumpsAreTiled, Round8, OpenFile;
  }

  /** A match rule opened on a flushed context: the new stack entry points at it. */
  lemma OpenMatchTiles(c: Ctx, f: Text, t: Tile, c': Ctx, t': Tile)
    requires Tiled(c, f, t) && c.rule.rtype.Unknown? && Valid(c')
    requires forall i :: 0 <= i < c.depth ==> t.matches[i] < |t.ls|
    requires t' == t.(content := t'.content, names := t'.names, matches := t.matches + [|t.ls|])
    requires t'.names != [] && t'.content.key != [] && GetRuleType(t'.names[|t'.names| - 1]).Match?
    requires IsOpen(c', c.file, Match, t'.content) && |c'.file| < U32
    requires c.depth < HAL_MAX_INDENT_DEPTH
    requires c'.depth == c.depth + 1 && c'.matchAtDepth == c.matchAtDepth[c.depth := c'.position % U32]
    ensures Tiled(c', f, t')
  {
    hide Laid, EndOf, GetRuleType, JumpsAreTiled, Round8, OpenFile;
    LaidLength(|f|, t.ls);
    assert c'.rule.rtype == Match;
    OpenIsInFile(c', c.file, t'.content);
  }

  lemma OpenIsInFile(c: Ctx, f: Text, k: Content)
    requires IsOpen(c, f, c.rule.rtype, k) && k.key != []
    ensures c.position < |c.file|
  {
  }

  lemma CharsTile(c: Ctx, f: Text, t: Tile, s: Text, g: Gathered) returns (t': Tile)
    requires Tiled(c, f, t) && Holds(c, t, g)
    ensures CharData(c, s).0 == Running
    ensures Tiled(CharData(c, s).1, f, t') && Holds(CharData(c, s).1, t', Gather(g, CharsEvent(s)))
    ensures t'.names == t.names
  {
    hide Laid, EndOf, GetRuleType, IsOpen, JumpsAreTiled, StoreValue;
    t' := t;
    if TakesText(c.rule.rtype) {
      var g := f + Laid(|f|, t.ls);
      OpenValue(c, g, c.rule.rtype, t.content, s);
      StoreValueFrame(c, s);
      StepKeepsValid(c, CharsEvent(s));
      t' := t.(content := t.content.(value := AddChunk(t.content.value, s)));
    }
  }

  lemma StoreValueFrame(c: Ctx, s: Text)
    ensures var c' := StoreValue(c, s).1;
            c'.depth == c.depth && c'.matchAtDepth == c.matchAtDepth && c'.rule.rtype == c.rule.rtype
  {
  }

  lemma JumpTiles(f: Text, ls: seq<Placed>, i: nat)
    requires JumpsAreTiled(f, ls) && i < |ls| && ls[i].rtype.Match?
    ensures JumpsAreTiled(f, Patched(ls, i, StartOf(|f|, ls, |ls|)))
  {
    hide EndOf;
    var jump := StartOf(|f|, ls, |ls|);
    var ls' := Patched(ls, i, jump);
    forall m | 0 <= m < |ls'| && ls'[m].jump != 0
      ensures ls'[m].rtype.Match?
      ensures exists j :: m < j <= |ls'| && ls'[m].jump == StartOf(|f|, ls', j)
    {
      if m == i {
        EndIgnoresJumps(|f|, ls, i, jump, |ls|);
        assert ls'[m].jump == StartOf(|f|, ls', |ls|);
      } else {
        var j :| m < j <= |ls| && ls[m].jump == StartOf(|f|, ls, j);
        EndIgnoresJumps(|f|, ls, i, jump, j);
        assert ls'[m].jump == StartOf(|f|, ls', j);
      }
    }
  }

  /** The end tag of a match patches the rule on top of the stack. */
  lemma EndMatchTiles(c: Ctx, f: Text, t: Tile) returns (t': Tile)
    requires Tiled(c, f, t) && c.rule.rtype.Unknown? && c.depth > 0
    requires forall i :: 0 <= i < c.depth ==> t.matches[i] < |t.ls|
    ensures Tiled(SetJumpPosition(c).1, f, t') && SetJumpPosition(c).1.rule == c.rule
    ensures t'.names == t.names && Rules(t'.ls) == Rules(t.ls)
  {
    hide Laid, EndOf, Pad32Write, GetRuleType;
    var i := t.matches[c.depth - 1];
    var jump := StartOf(|f|, t.ls, |t.ls|);
    LaidLength(|f|, t.ls);
    PatchTile(f, t.ls, i, jump);
    JumpTiles(f, t.ls, i);
    t' := t.(ls := Patched(t.ls, i, jump), matches := t.matches[..c.depth - 1]);
    var c' := SetJumpPosition(c).1;
    forall m | 0 <= m < c'.depth
      ensures StartOf(|f|, t'.ls, t.matches[m]) == StartOf(|f|, t.ls, t.matches[m])
    {
      EndIgnoresJumps(|f|, t.ls, i, jump, t.matches[m]);
    }
  }

  lemma EndTiles(c: Ctx, f: Text, t: Tile, name: Text, g: Gathered) returns (t': Tile)
    requires Tiled(c, f, t) && Holds(c, t, g) && t.names != [] && t.names[|t.names| - 1] == name
    requires End(c, name).0 == Running
    ensures Tiled(End(c, name).1, f, t') && Holds(End(c, name).1, t', Gather(g, EndEvent(name)))
    ensures t'.names == t.names[..|t.names| - 1]
  {
    hide Laid, EndOf, GetRuleType, StoreRule, FileIsTiled, StackIsTiled, JumpsAreTiled, SetJumpPosition, Rules;
    var shorter := t.names[..|t.names| - 1];
    if GetRuleType(name).Unknown? {
      Renamed(c, f, t, shorter);
      t' := t.(names := shorter);
    } else {
      var t1 := FlushTiles(c, f, t);
      var c1 := Flush(c);
      FlushFrame(c);
      Renamed(c1, f, t1, shorter);
      t1 := t1.(names := shorter);
      if GetRuleType(name).Match? {
        DepthPositive(c1);
        t' := EndMatchTiles(c1, f, t1);
      } else {
        t' := t1;
      }
      FlushHolds(c, t, g, End(c, name).1, t');
    }
  }

  lemma Renamed(c: Ctx, f: Text, t: Tile, names: seq<Text>)
    requires Tiled(c, f, t) && c.rule.rtype.Unknown?
    ensures Tiled(c, f, t.(names := names))
  {
    hide Laid, EndOf;
  }

  lemma FlushFrame(c: Ctx)
    ensures Flush(c).depth == c.depth
  {
  }

  lemma DepthPositive(c: Ctx)
    requires Valid(c) && SetJumpPosition(c).0 == Running
    ensures c.depth > 0
  {
  }

  /** The end tags close the elements the parser has open. */
  predicate Nested(names: seq<Text>, events: seq<Event>)
    decreases |events|
  {
    events == [] ||
    match events[0]
    case StartEvent(name, _) => Nested(names + [name], events[1..])
    case CharsEvent(_) => Nested(names, events[1..])
    case EndEvent(name) => names != [] && names[|names| - 1] == name && Nested(names[..|names| - 1], events[1..])
  }

  /** After any run of properly nested callbacks the file is tiled by the rules those callbacks describe. */
  lemma {:induction false} RunTiles(c: Ctx, f: Text, t: Tile, events: seq<Event>, g: Gathered) returns (t': Tile)
    requires Tiled(c, f, t) && Holds(c, t, g) && Nested(t.names, events)
    requires Run(c, events).0 == Running && |Run(c, events).1.file| < U32
    ensures Tiled(Run(c, events).1, f, t') && Holds(Run(c, events).1, t', GatherAll(g, events))
    decreases |events|
  {
    hide Start, CharData, End, FileIsTiled, StackIsTiled, JumpsAreTiled, GetRuleType, Holds, Gather;
    if events == [] {
      t' := t;
    } else {
      var e := events[0];
      StepKeepsValid(c, e);
      RunGrows(c, events);
      var t1;
      match e {
        case StartEvent(name, attrs) => t1 := StartTiles(c, f, t, name, attrs, g);
        case CharsEvent(text) => t1 := CharsTile(c, f, t, text, g);
        case EndEvent(name) => t1 := EndTiles(c, f, t, name, g);
      }
      t' := RunTiles(Step(c, e).1, f, t1, events[1..], Gather(g, e));
    }
  }

  lemma {:induction false} DocumentIsNested(names: seq<Text>, d: Doc, tail: seq<Event>)
    requires Nested(names, tail)
    ensures Nested(names, Events(d) + tail)
    decreases d
  {
    hide Nested;
    match d
    case Nil =>
      assert Events(d) + tail == tail;
    case Chars(text, rest) =>
      DocumentIsNested(names, rest, tail);
      NestedText(names, text, Events(rest) + tail);
      assert Events(d) + tail == [CharsEvent(text)] + (Events(rest) + tail);
    case Element(name, attrs, kids, rest) =>
      var after := Events(rest) + tail;
      DocumentIsNested(names, rest, tail);
      NestedEnd(names, name, after);
      var inner := Events(kids) + ([EndEvent(name)] + after);
      DocumentIsNested(names + [name], kids, [EndEvent(name)] + after);
      NestedStart(names, name, attrs, inner);
      assert Events(d) + tail == [StartEvent(name, attrs)] + inner;
  }

  lemma NestedText(names: seq<Text>, text: Text, events: seq<Event>)
    requires Nested(names, events)
    ensures Nested(names, [CharsEvent(text)] + events)
  {
    assert ([CharsEvent(text)] + events)[1..] == events;
  }

  lemma NestedEnd(names: seq<Text>, name: Text, events: seq<Event>)
    requires Nested(names, events)
    ensures Nested(names + [name], [EndEvent(name)] + events)
  {
    assert ([EndEvent(name)] + events)[1..] == events;
    assert (names + [name])[..|names|] == names;
  }

  lemma NestedStart(names: seq<Text>, name: Text, attrs: seq<Attr>, events: seq<Event>)
    requires Nested(names + [name], events)
    ensures Nested(names, [StartEvent(name, attrs)] + events)
  {
    assert ([StartEvent(name, attrs)] + events)[1..] == events;
  }

  lemma {:induction false} PrefixIsNested(names: seq<Text>, events: seq<Event>, m: nat)
    requires Nested(names, events) && m <= |events|
    ensures Nested(names, events[..m])
    decreases m
  {
    if m > 0 {
      assert events[..m][1..] == events[1..][..m - 1];
      match events[0] {
        case StartEvent(name, _) => PrefixIsNested(names + [name], events[1..], m - 1);
        case CharsEvent(_) => PrefixIsNested(names, events[1..], m - 1);
        case EndEvent(_) => PrefixIsNested(names[..|names| - 1], events[1..], m - 1);
      }
    }
  }

  function NothingGathered(): Gathered {
    Gathered([], Unknown, NoContent())
  }

  /** While any document is compiled behind any file, after every event the new part is tiled by the rules of the events so far. */
  lemma CompilingTiles(file: Text, doc: Doc, m: nat) returns (t: Tile)
    requires m <= |Events(doc)|
    requires Run(NewContext(file), Events(doc)[..m]).0 == Running
    requires |Run(NewContext(file), Events(doc)[..m]).1.file| < U32
    ensures var c := Run(NewContext(file), Events(doc)[..m]).1;
            Tiled(c, file, t) && Holds(c, t, GatherAll(NothingGathered(), Events(doc)[..m]))
  {
    hide Run;
    DocumentIsNested([], doc, []);
    assert Events(doc) + [] == Events(doc);
    PrefixIsNested([], Events(doc), m);
    t := Tile([], NoContent(), [], []);
    assert file + Laid(|file|, []) == file;
    assert Tiled(NewContext(file), file, t) && Holds(NewContext(file), t, NothingGathered());
    t := RunTiles(NewContext(file), file, t, Events(doc)[..m], NothingGathered());
  }

  lemma LaidSplits(b: nat, ls: seq<Placed>, i: nat)
    requires i < |ls|
    ensures Laid(b, ls) == Laid(b, ls[..i]) + (EmitRule(EndOf(b, ls, i), ls[i].rtype, ls[i].content, ls[i].jump)
                           + Laid(EndOf(b, ls, i + 1), ls[i + 1..]))
    ensures b + |Laid(b, ls[..i])| == EndOf(b, ls, i)
  {
    hide EmitRule, RuleEnd, Laid;
    assert ls == ls[..i] + ([ls[i]] + ls[i + 1..]);
    LaidAppend(b, ls[..i], [ls[i]] + ls[i + 1..]);
    LaidLength(b, ls[..i]);
    EndAppend(b, ls[..i], [ls[i]] + ls[i + 1..], i);
    var e := EndOf(b, ls, i);
    LaidAppend(e, [ls[i]], ls[i + 1..]);
    LaidOne(e, ls[i]);
  }

  lemma TileIsAt(img: Text, f: Text, ls: seq<Placed>, i: nat)
    requires i < |ls| && f + Laid(|f|, ls) <= img
    ensures At(img, EndOf(|f|, ls, i), EmitRule(EndOf(|f|, ls, i), ls[i].rtype, ls[i].content, ls[i].jump))
  {
    hide EmitRule, Laid, EndOf, At;
    var b := EndOf(|f|, ls, i);
    LaidSplits(|f|, ls, i);
    MiddleIsAt(img, b, f, Laid(|f|, ls[..i]), EmitRule(b, ls[i].rtype, ls[i].content, ls[i].jump),
               Laid(EndOf(|f|, ls, i + 1), ls[i + 1..]));
  }

  lemma MiddleIsAt(img: Text, b: nat, f: Text, l: Text, e: Text, r: Text)
    requires f + (l + (e + r)) <= img && b == |f| + |l|
    ensures At(img, b, e)
  {
    var t := f + (l + (e + r));
    assert At(img, 0, t);
    AtSplit(img, 0, f, l + (e + r));
    AtSplit(img, |f|, l, e + r);
    AtSplit(img, |f| + |l|, e, r);
  }

  /** Each rule of a tiled image starts aligned, reads back, and its `rule_size` leads to the next one. */
  lemma TileReads(img: Text, f: Text, ls: seq<Placed>, i: nat)
    requires i < |ls| && f + Laid(|f|, ls) <= img && |img| < U32
    requires CleanContent(ls[i].content) && ls[i].jump < U32
    requires EMPTY_STRING <= |img| && CString(img[EMPTY_STRING..]) == []
    ensures StartOf(|f|, ls, i) % 8 == 0 && StartOf(|f|, ls, i) + SIZEOF_RULE <= |img|
    ensures ViewAt(img, StartOf(|f|, ls, i)) == View(ls[i].rtype, ls[i].content)
    ensures ReadRule(img, StartOf(|f|, ls, i)).jumpPosition == ls[i].jump
    ensures StartOf(|f|, ls, i) + ReadRule(img, StartOf(|f|, ls, i)).ruleSize == StartOf(|f|, ls, i + 1)
  {
    hide EmitRule, Laid, CString, ViewAt, ReadRule, RuleSize, At, RuleEnd;
    var b := EndOf(|f|, ls, i);
    TileIsAt(img, f, ls, i);
    RuleReadsBack(img, b, ls[i].rtype, ls[i].content, ls[i].jump);
    RuleSizeTiles(b, ls[i].content);
  }

  // Reading back.

  predicate CleanEvent(e: Event) {
    match e
    case StartEvent(_, attrs) => CleanAttrs(attrs)
    case CharsEvent(text) => NulFree(text)
    case EndEvent(_) => true
  }

  ghost predicate CleanEvents(events: seq<Event>) {
    forall i :: 0 <= i < |events| ==> CleanEvent(events[i])
  }

  lemma {:induction false} CleanDocCleanEvents(d: Doc)
    requires CleanDoc(d)
    ensures CleanEvents(Events(d))
  {
    hide CleanAttrs, NulFree;
    match d
    case Nil =>
    case Chars(_, rest) => CleanDocCleanEvents(rest);
    case Element(_, _, kids, rest) =>
      CleanDocCleanEvents(kids);
      CleanDocCleanEvents(rest);
  }

  ghost predicate CleanGathered(g: Gathered) {
    CleanContent(g.content) && forall i :: 0 <= i < |g.stored| ==> CleanContent(g.stored[i].1)
  }

  lemma GatherIsClean(g: Gathered, e: Event)
    requires CleanGathered(g) && CleanEvent(e)
    ensures CleanGathered(Gather(g, e))
  {
    hide GetRuleType, ScanAttrs;
    if e.StartEvent? {
      ScanIsClean(GetRuleType(e.name), e.attrs, NoContent());
    }
  }

  lemma {:induction false} GatherAllIsClean(g: Gathered, events: seq<Event>)
    requires CleanGathered(g) && CleanEvents(events)
    ensures CleanGathered(GatherAll(g, events))
    decreases |events|
  {
    hide Gather, CleanGathered, CleanEvent;
    if events != [] {
      GatherIsClean(g, events[0]);
      GatherAllIsClean(Gather(g, events[0]), events[1..]);
    }
  }

  lemma NothingIsClean()
    ensures CleanGathered(NothingGathered())
  {
  }

  /** The stored rules are all in the file, whether or not a rule is open. */
  lemma StoredIsInFile(c: Ctx, f: Text, t: Tile)
    requires Tiled(c, f, t)
    ensures f + Laid(|f|, t.ls) <= c.file
  {
    hide Laid, StackIsTiled, JumpsAreTiled, Body;
  }

  lemma TilesEndInFile(c: Ctx, f: Text, t: Tile, j: nat)
    requires Tiled(c, f, t) && j <= |t.ls|
    ensures EndOf(|f|, t.ls, j) <= |c.file|
  {
    hide Laid, EndOf, RuleEnd, Tiled;
    StoredIsInFile(c, f, t);
    LaidLength(|f|, t.ls);
    EndsAscend(|f|, t.ls, j, |t.ls|);
  }

  lemma {:induction false} EndsAscend(b: nat, ls: seq<Placed>, i: nat, j: nat)
    requires i <= j <= |ls|
    ensures EndOf(b, ls, i) <= EndOf(b, ls, j)
    decreases j
  {
    if i < j {
      EndsAscend(b, ls, i, j - 1);
    }
  }

  lemma JumpFits(c: Ctx, f: Text, t: Tile, i: nat)
    requires Tiled(c, f, t) && i < |t.ls| && |c.file| + 8 <= U32
    ensures t.ls[i].jump < U32
  {
    hide FileIsTiled, StackIsTiled, EndOf, Laid;
    if t.ls[i].jump != 0 {
      var j :| i < j <= |t.ls| && t.ls[i].jump == StartOf(|f|, t.ls, j);
      TilesEndInFile(c, f, t, j);
    }
  }

  /** Where the empty value of a cache is: a NUL in the header. */
  predicate HasHeader(file: Text) {
    EMPTY_STRING < |file| && file[EMPTY_STRING] == 0
  }

  lemma EmptyStringReads(file: Text, img: Text)
    requires HasHeader(file) && file <= img
    ensures CString(img[EMPTY_STRING..]) == []
  {
    assert img[EMPTY_STRING..][0] == file[EMPTY_STRING];
  }

  /** Rule `i` of a tiled file, read back. */
  lemma GatheredReads(c: Ctx, file: Text, t: Tile, g: Gathered, i: nat)
    requires Tiled(c, file, t) && Holds(c, t, g) && CleanGathered(g) && i < |g.stored|
    requires HasHeader(file) && |c.file| + 8 <= U32
    ensures ReadsAs(c.file, StartOf(|file|, t.ls, i), g.stored[i])
    ensures StartOf(|file|, t.ls, i + 1) == StartOf(|file|, t.ls, i) + SizeAt(c.file, StartOf(|file|, t.ls, i))
  {
    StoredIsInFile(c, file, t);
    JumpFits(c, file, t, i);
    PrefixOfPrefix(file, Laid(|file|, t.ls), c.file);
    EmptyStringReads(file, c.file);
    TileHolds(c, t, g, i);
    hide Laid, ViewAt, ReadRule, View, Tiled, EndOf, CString, Round8;
    TileReads(c.file, file, t.ls, i);
  }

  /** An aligned rule of this type with this key and value is at `p`. */
  predicate ReadsAs(img: Text, p: nat, rule: (RuleType, Content)) {
    p % 8 == 0 && p + SIZEOF_RULE <= |img| && ViewAt(img, p) == View(rule.0, rule.1)
  }

  /** The rules are in the image one behind the other from offset `b`, each at the start that the one before leads to. */
  ghost predicate ReadsBack(img: Text, b: nat, rules: seq<(RuleType, Content)>, starts: seq<nat>) {
    && |starts| == |rules| + 1 && starts[0] == Round8(b)
    && (forall i :: 0 <= i < |rules| ==> ReadsAs(img, starts[i], rules[i]))
    && (forall i :: 0 <= i < |rules| ==> starts[i + 1] == starts[i] + SizeAt(img, starts[i]))
  }

  /**
   After every SAX event every complete rule reads back: one aligned rule behind the other, with the type, key and value
   that the events so far gave it, however the text was split.
   */
  lemma CompilingReadsBack(file: Text, doc: Doc, m: nat) returns (starts: seq<nat>)
    requires m <= |Events(doc)| && CleanDoc(doc) && HasHeader(file)
    requires Run(NewContext(file), Events(doc)[..m]).0 == Running
    requires |Run(NewContext(file), Events(doc)[..m]).1.file| + 8 <= U32
    ensures ReadsBack(Run(NewContext(file), Events(doc)[..m]).1.file, |file|,
                      GatherAll(NothingGathered(), Events(doc)[..m]).stored, starts)
  {
    hide Run, GatherAll, Tiled, CleanDoc, Holds, CleanGathered, ReadsBack, Events, NewContext;
    var events := Events(doc)[..m];
    var t := CompilingTiles(file, doc, m);
    EventsGatherCleanly(doc, m);
    starts := TilesReadBack(Run(NewContext(file), events).1, file, t, GatherAll(NothingGathered(), events));
  }

  lemma EventsGatherCleanly(doc: Doc, m: nat)
    requires CleanDoc(doc) && m <= |Events(doc)|
    ensures CleanGathered(GatherAll(NothingGathered(), Events(doc)[..m]))
  {
    hide CleanDoc, CleanGathered, GatherAll, CleanEvent, Events;
    CleanDocCleanEvents(doc);
    NothingIsClean();
    GatherAllIsClean(NothingGathered(), Events(doc)[..m]);
  }

  lemma TilesReadBack(c: Ctx, file: Text, t: Tile, g: Gathered) returns (starts: seq<nat>)
    requires Tiled(c, file, t) && Holds(c, t, g) && CleanGathered(g) && HasHeader(file) && |c.file| + 8 <= U32
    ensures ReadsBack(c.file, |file|, g.stored, starts)
  {
    assert |t.ls| == |g.stored|;
    hide ReadsAs, ReadRule, Tiled, Round8, Holds, CleanGathered, StartOf, Starts, HasHeader, SizeAt;
    starts := Starts(|file|, t.ls);
    FirstStart(|file|, t.ls);
    forall i | 0 <= i < |g.stored|
      ensures ReadsAs(c.file, starts[i], g.stored[i])
      ensures starts[i + 1] == starts[i] + SizeAt(c.file, starts[i])
    {
      GatheredReads(c, file, t, g, i);
    }
  }

  function Starts(b: nat, ls: seq<Placed>): (r: seq<nat>)
    ensures |r| == |ls| + 1 && forall j :: 0 <= j <= |ls| ==> r[j] == StartOf(b, ls, j)
  {
    seq(|ls| + 1, j requires 0 <= j < |ls| + 1 => StartOf(b, ls, j))
  }

  /** The `rule_size` of the rule at `p`. */
  function SizeAt(img: Text, p: nat): nat {
    if p + SIZEOF_RULE <= |img| then ReadRule(img, p).ruleSize else 0
  }

  lemma TileHolds(c: Ctx, t: Tile, g: Gathered, i: nat)
    requires Holds(c, t, g) && i < |g.stored| && CleanGathered(g)
    ensures i < |t.ls| && (t.ls[i].rtype, t.ls[i].content) == g.stored[i] && CleanContent(t.ls[i].content)
  {
  }

  lemma PrefixOfPrefix(a: Text, b: Text, c: Text)
    requires a + b <= c
    ensures a <= c
  {
  }

  lemma FirstStart(b: nat, ls: seq<Placed>)
    ensures StartOf(b, ls, 0) == Round8(b)
  {
  }
}
