/**
 FDI files as documents, the SAX event stream a document produces, and the reference
 meaning of a document for the rule compiler: whether it is accepted (`Check`) and the
 bytes it stands for (`Emit`, a one-pass layout that knows every jump target up front).
 */
module FdiDocument {
  import opened Bytes
  import opened RuleLayout

  datatype Attr = Attr(name: Text, value: Text)

  /** A list of siblings: text chunks and elements. */
  datatype Doc =
    | Nil
    | Chars(text: Text, rest: Doc)
    | Element(name: Text, attrs: seq<Attr>, kids: Doc, rest: Doc)

  datatype Event = StartEvent(name: Text, attrs: seq<Attr>) | CharsEvent(text: Text) | EndEvent(name: Text)

  /** The callbacks an XML parser makes for a well-formed document. */
  function Events(d: Doc): seq<Event> {
    match d
    case Nil => []
    case Chars(text, rest) => [CharsEvent(text)] + Events(rest)
    case Element(name, attrs, kids, rest) =>
      [StartEvent(name, attrs)] + (Events(kids) + ([EndEvent(name)] + Events(rest)))
  }

  // Names (get_rule_type, get_match_type, get_merge_type).

  function GetRuleType(el: Text): (t: RuleType)
    ensures !t.Eof?
  {
    if el == Ascii("match") then Match
    else if el == Ascii("merge") then Merge
    else if el == Ascii("append") then Append
    else if el == Ascii("prepend") then Prepend
    else if el == Ascii("addset") then AddSet
    else if el == Ascii("remove") then Remove
    else if el == Ascii("clear") then Clear
    else if el == Ascii("spawn") then Spawn
    else Unknown
  }

  function GetMatchType(t: Text): (c: nat)
    ensures c < U32
  {
    if t == Ascii("string") then 1
    else if t == Ascii("int") then 2
    else if t == Ascii("uint64") then 3
    else if t == Ascii("bool") then 4
    else if t == Ascii("exists") then 5
    else if t == Ascii("empty") then 6
    else if t == Ascii("is_ascii") then 7
    else if t == Ascii("is_absolute_path") then 8
    else if t == Ascii("sibling_contains") then 19
    else if t == Ascii("contains") then 9
    else if t == Ascii("contains_ncase") then 10
    else if t == Ascii("prefix") then 11
    else if t == Ascii("prefix_ncase") then 12
    else if t == Ascii("suffix") then 13
    else if t == Ascii("suffix_ncase") then 14
    else if t == Ascii("compare_lt") then 15
    else if t == Ascii("compare_le") then 16
    else if t == Ascii("compare_gt") then 17
    else if t == Ascii("compare_ge") then 18
    else if t == Ascii("compare_ne") then 20
    else if t == Ascii("contains_not") then 21
    else if t == Ascii("contains_outof") then 23
    else if t == Ascii("int_outof") then 24
    else if t == Ascii("prefix_outof") then 25
    else if t == Ascii("string_outof") then 26
    else 0
  }

  function GetMergeType(t: Text): (c: nat)
    ensures c < U32
  {
    if t == Ascii("string") then 1
    else if t == Ascii("bool") then 2
    else if t == Ascii("int") then 3
    else if t == Ascii("uint64") then 4
    else if t == Ascii("double") then 5
    else if t == Ascii("strlist") then 7
    else if t == Ascii("copy_property") then 6
    else if t == Ascii("remove") then 8
    else 0
  }

  // The content of one rule element.

  datatype Status = Running | Stopped | Died

  /** What has been gathered for the open rule; an empty key stands for "no key yet". */
  datatype Content = Content(key: Text, typeMatch: nat, typeMerge: nat, value: Text)

  function NoContent(): Content {
    Content([], MATCH_UNKNOWN, MERGE_UNKNOWN, [])
  }

  /** The chunks the compiler stores; it drops empty ones. */
  function AddChunk(value: Text, chunk: Text): (r: Text)
    ensures value <= r
  {
    if chunk == [] || chunk[0] == 0 then value else value + chunk
  }

  predicate IsKeyAttr(t: RuleType, name: Text) {
    name == Ascii("key") || (t.Spawn? && name == Ascii("udi"))
  }

  /** One attribute of a rule element of type `t`. */
  function ScanAttr(t: RuleType, a: Attr, c: Content): (Status, Content) {
    if IsKeyAttr(t, a.name) then
      if c.key != [] then (Stopped, c)
      else if a.value == [] then (Died, c)
      else (Running, c.(key := a.value))
    else if t.Spawn? then (Running, c)
    else if t.Match? then
      if c.key == [] || GetMatchType(a.name) == MATCH_UNKNOWN then (Stopped, c)
      else (Running, c.(typeMatch := GetMatchType(a.name), value := AddChunk(c.value, a.value)))
    else if a.name != Ascii("type") then (Running, c)
    else if GetMergeType(a.value) == MERGE_UNKNOWN then (Stopped, c)
    else (Running, c.(typeMerge := GetMergeType(a.value)))
  }

  function ScanAttrs(t: RuleType, attrs: seq<Attr>, c: Content): (Status, Content) {
    if attrs == [] then (Running, c)
    else
      var (st, c') := ScanAttr(t, attrs[0], c);
      if st != Running then (st, c') else ScanAttrs(t, attrs[1..], c')
  }

  /** The verdict on a rule element's start tag at a nesting depth. */
  function OpenStatus(t: RuleType, attrs: seq<Attr>, depth: nat): Status {
    var (st, c) := ScanAttrs(t, attrs, NoContent());
    if st != Running then st
    else if c.key == [] then Stopped
    else if t.Match? && depth >= HAL_MAX_INDENT_DEPTH then Died
    else Running
  }

  function AttrContent(t: RuleType, attrs: seq<Attr>): Content {
    ScanAttrs(t, attrs, NoContent()).1
  }

  /** The rule types whose text is their value; `clear` ignores text. */
  predicate TakesText(t: RuleType) {
    t.Merge? || t.Prepend? || t.AddSet? || t.Append? || t.Remove? || t.Spawn?
  }

  function GatherText(t: RuleType, value: Text, kids: Doc): Text
    decreases kids
  {
    match kids
    case Chars(text, rest) => GatherText(t, if TakesText(t) then AddChunk(value, text) else value, rest)
    case _ => value
  }

  /** A leaf rule's content: its attributes, and the concatenation of its text chunks. */
  function LeafContent(t: RuleType, attrs: seq<Attr>, kids: Doc): Content {
    var c := AttrContent(t, attrs);
    c.(value := GatherText(t, c.value, kids))
  }

  predicate OnlyText(d: Doc) {
    match d
    case Nil => true
    case Chars(_, rest) => OnlyText(rest)
    case Element(_, _, _, _) => false
  }

  function AndThen(a: Status, b: Status): Status {
    if a == Running then b else a
  }

  /** The compiler's verdict on a document that starts at nesting `depth`. */
  function Check(d: Doc, depth: nat): Status {
    match d
    case Nil => Running
    case Chars(_, rest) => Check(rest, depth)
    case Element(name, attrs, kids, rest) =>
      var t := GetRuleType(name);
      if t.Unknown? then AndThen(Check(kids, depth), Check(rest, depth))
      else
        var st := OpenStatus(t, attrs, depth);
        if st != Running then st
        else if t.Match? then AndThen(Check(kids, depth + 1), Check(rest, depth))
        else if OnlyText(kids) then Check(rest, depth)
        else AndThen(Check(kids, depth), Stopped)
  }

  // Layout.

  function StoredLen(t: Text): nat {
    if t == [] then 0 else |t| + 1
  }

  function Body(key: Text, value: Text): (b: Text)
    ensures |b| == Round4(|key| + 1) + Round4(StoredLen(value))
  {
    Pad4(key + [0]) + if value == [] then [] else Pad4(value + [0])
  }

  /** The struct stored for a rule at position `p`. */
  function RuleAt(p: nat, t: RuleType, c: Content, jump: nat): Rule {
    Rule(RuleSize(|c.key| + 1, StoredLen(c.value)), jump, t, c.typeMatch, c.typeMerge,
         if c.value == [] then EMPTY_STRING else p + SIZEOF_RULE + Round4(|c.key| + 1),
         StoredLen(c.value), |c.key| + 1)
  }

  function RuleEnd(b: nat, c: Content): nat {
    Round8(b) + SIZEOF_RULE + Round4(|c.key| + 1) + Round4(StoredLen(c.value))
  }

  function EmitRule(b: nat, t: RuleType, c: Content, jump: nat): (e: Text)
    ensures b + |e| == RuleEnd(b, c)
  {
    Zeros(Round8(b) - b) + RuleBytes(RuleAt(Round8(b), t, c, jump)) + Body(c.key, c.value)
  }

  /** The rule that follows starts where `rule_size` says. */
  lemma RuleSizeTiles(b: nat, c: Content)
    ensures Round8(RuleEnd(b, c)) == Round8(b) + RuleSize(|c.key| + 1, StoredLen(c.value))
  {
  }

  function Emit(b: nat, d: Doc): Text
    decreases d
  {
    match d
    case Nil => []
    case Chars(_, rest) => Emit(b, rest)
    case Element(name, attrs, kids, rest) =>
      var t := GetRuleType(name);
      if t.Unknown? then
        var k := Emit(b, kids);
        k + Emit(b + |k|, rest)
      else if t.Match? then
        var c := AttrContent(t, attrs);
        var e := RuleEnd(b, c);
        var k := Emit(e, kids);
        EmitRule(b, t, c, Round8(e + |k|)) + k + Emit(e + |k|, rest)
      else
        var c := LeafContent(t, attrs, kids);
        EmitRule(b, t, c, 0) + Emit(RuleEnd(b, c), rest)
  }
}
