/**
 The FDI rule compiler (hald/create_cache.c): SAX callbacks that append rules to the
 cache file and back-patch the jump of each `<match>` when it closes.
 */
module FdiCompiler {
  import opened Bytes
  import opened RuleLayout
  import opened FdiDocument

  /** A snapshot of `struct fdi_context` together with the file behind `cache_fd`. */
  datatype Ctx = Ctx(depth: nat, matchAtDepth: seq<nat>, rule: Rule, position: nat, file: Text)

  predicate Valid(c: Ctx) {
    && |c.matchAtDepth| == HAL_MAX_INDENT_DEPTH
    && c.depth <= HAL_MAX_INDENT_DEPTH
    && (!c.rule.rtype.Unknown? ==> c.rule.keyLen >= 2)
  }

  function Padding(end: nat): (n: nat)
    ensures n < 4 && (end + n) % 4 == 0
  {
    if end % 4 == 0 then 0 else 4 - end % 4
  }

  function Pad32Write(f: Text, off: nat, d: Text): Text {
    WriteAt(f, off, d + Zeros(Padding(off + |d|)))
  }

  function StoreKey(c: Ctx, key: Text): (Status, Ctx) {
    if c.rule.rtype.Unknown? || key == [] then (Died, c)
    else
      (Running, c.(rule := c.rule.(keyLen := |key| + 1),
                   file := Pad32Write(c.file, c.position + SIZEOF_RULE, key + [0])))
  }

  function StoreValue(c: Ctx, value: Text): (Status, Ctx) {
    if c.rule.rtype.Unknown? || c.rule.keyLen < 2 then (Died, c)
    else if value == [] || value[0] == 0 then (Running, c)
    else
      var start := c.position + SIZEOF_RULE + Round4(c.rule.keyLen);
      var first := c.rule.valueLen == 0;
      var off := if first then start else start + c.rule.valueLen - 1;
      var rule := if first then c.rule.(valueOffset := start, valueLen := |value| + 1)
                  else c.rule.(valueLen := c.rule.valueLen + |value|);
      var f := Pad32Write(c.file, off, value);
      (Running, c.(rule := rule, file := Pad32Write(f, off + |value|, [0])))
  }

  function StoreRule(c: Ctx): (Status, Ctx) {
    if c.rule.rtype.Unknown? then (Died, c)
    else
      var rule := c.rule.(ruleSize := RuleSize(c.rule.keyLen, c.rule.valueLen));
      (Running, c.(rule := InitRule(), file := Pad32Write(c.file, c.position, RuleBytes(rule))))
  }

  function RememberJumpPosition(c: Ctx): (Status, Ctx)
    requires |c.matchAtDepth| == HAL_MAX_INDENT_DEPTH
  {
    if c.depth >= HAL_MAX_INDENT_DEPTH then (Died, c)
    else (Running, c.(matchAtDepth := c.matchAtDepth[c.depth := c.position % U32], depth := c.depth + 1))
  }

  function SetJumpPosition(c: Ctx): (Status, Ctx)
    requires Valid(c)
  {
    if c.depth <= 0 then (Died, c)
    else
      var at := c.matchAtDepth[c.depth - 1];
      (Running, c.(depth := c.depth - 1,
                   file := Pad32Write(c.file, at + JUMP_FIELD, Le(4, Round8(|c.file|)))))
  }

  function StartAttr(c: Ctx, a: Attr): (Status, Ctx) {
    var t := c.rule.rtype;
    if IsKeyAttr(t, a.name) then
      if c.rule.keyLen > 0 then (Stopped, c) else StoreKey(c, a.value)
    else if t.Spawn? then (Running, c)
    else if t.Match? then
      if c.rule.keyLen == 0 then (Stopped, c)
      else
        var c' := c.(rule := c.rule.(typeMatch := GetMatchType(a.name)));
        if c'.rule.typeMatch == MATCH_UNKNOWN then (Stopped, c') else StoreValue(c', a.value)
    else if a.name != Ascii("type") then (Running, c)
    else
      var c' := c.(rule := c.rule.(typeMerge := GetMergeType(a.value)));
      if c'.rule.typeMerge == MERGE_UNKNOWN then (Stopped, c') else (Running, c')
  }

  function StartAttrs(c: Ctx, attrs: seq<Attr>): (r: (Status, Ctx))
    ensures r.1.matchAtDepth == c.matchAtDepth && r.1.depth == c.depth && r.1.position == c.position
    ensures r.1.rule.rtype == c.rule.rtype
    decreases |attrs|
  {
    if attrs == [] then (Running, c)
    else
      var (st, c') := StartAttr(c, attrs[0]);
      if st != Running then (st, c') else StartAttrs(c', attrs[1..])
  }

  /** Writes out the open rule, if there is one. */
  function Flush(c: Ctx): Ctx {
    if c.rule.rtype.Unknown? then c else StoreRule(c).1
  }

  /** The context after the flush and reset at the head of `start`. */
  function Opened(c: Ctx, name: Text): Ctx {
    var c' := Flush(c);
    c'.(rule := InitRule().(rtype := GetRuleType(name)), position := Round8(|c'.file|))
  }

  function Start(c: Ctx, name: Text, attrs: seq<Attr>): (Status, Ctx)
    requires Valid(c)
  {
    var c1 := Opened(c, name);
    if c1.rule.rtype.Unknown? then (Running, c1)
    else
      var (st, c2) := StartAttrs(c1, attrs);
      if st != Running then (st, c2)
      else if c2.rule.keyLen == 0 then (Stopped, c2)
      else if c2.rule.rtype.Match? then RememberJumpPosition(c2)
      else (Running, c2)
  }

  function CharData(c: Ctx, s: Text): (Status, Ctx) {
    if !TakesText(c.rule.rtype) then (Running, c) else StoreValue(c, s)
  }

  function End(c: Ctx, name: Text): (Status, Ctx)
    requires Valid(c)
  {
    var t := GetRuleType(name);
    if t.Unknown? then (Running, c)
    else if t.Match? then
      SetJumpPosition(if c.rule.rtype.Match? then StoreRule(c).1 else c)
    else if c.rule.rtype != t then (Stopped, c)
    else StoreRule(c)
  }

  function Step(c: Ctx, e: Event): (Status, Ctx)
    requires Valid(c)
  {
    match e
    case StartEvent(name, attrs) => Start(c, name, attrs)
    case CharsEvent(text) => CharData(c, text)
    case EndEvent(name) => End(c, name)
  }

  lemma {:induction false} AttrsKeepKey(c: Ctx, attrs: seq<Attr>)
    requires c.rule.keyLen == 0 || c.rule.keyLen >= 2
    ensures StartAttrs(c, attrs).1.rule.keyLen == 0 || StartAttrs(c, attrs).1.rule.keyLen >= 2
    decreases |attrs|
  {
    if attrs != [] {
      AttrsKeepKey(StartAttr(c, attrs[0]).1, attrs[1..]);
    }
  }

  lemma StepKeepsValid(c: Ctx, e: Event)
    requires Valid(c)
    ensures Step(c, e).0 == Running ==> Valid(Step(c, e).1)
  {
    if e.StartEvent? {
      AttrsKeepKey(Opened(c, e.name), e.attrs);
    }
  }

  /** The parser runs the callbacks until one stops it or dies. */
  function Run(c: Ctx, events: seq<Event>): (r: (Status, Ctx))
    requires Valid(c)
    ensures r.0 == Running ==> Valid(r.1)
    decreases |events|
  {
    if events == [] then (Running, c)
    else
      StepKeepsValid(c, events[0]);
      var (st, c') := Step(c, events[0]);
      if st != Running then (st, c') else Run(c', events[1..])
  }

  lemma {:induction false} RunAppend(c: Ctx, a: seq<Event>, b: seq<Event>)
    requires Valid(c)
    ensures Run(c, a + b) == if Run(c, a).0 == Running then Run(Run(c, a).1, b) else Run(c, a)
    decreases |a|
  {
    if a == [] {
      assert a + b == b;
    } else {
      assert (a + b)[1..] == a[1..] + b;
      StepKeepsValid(c, a[0]);
      var (st, c') := Step(c, a[0]);
      if st == Running {
        RunAppend(c', a[1..], b);
      }
    }
  }

  lemma RunOne(c: Ctx, e: Event, rest: seq<Event>)
    requires Valid(c)
    ensures Step(c, e).0 == Running ==> Valid(Step(c, e).1)
    ensures Run(c, [e] + rest) == if Step(c, e).0 == Running then Run(Step(c, e).1, rest) else Step(c, e)
  {
    StepKeepsValid(c, e);
    assert ([e] + rest)[1..] == rest;
  }
}
