/**
 `struct rule` and `struct cache_header` (hald/rule.h) as they lie in the cache file
 on an LP64 little-endian machine: 48-byte rules aligned to 8, a 20-byte header.
 */
module RuleLayout {
  import opened Bytes

  const SIZEOF_RULE: nat := 48
  const JUMP_FIELD: nat := 8
  const SIZEOF_HEADER: nat := 20
  const EMPTY_STRING: nat := 16
  const HAL_MAX_INDENT_DEPTH: nat := 64
  const U32: nat := 0x1_0000_0000
  const U64: nat := 0x1_0000_0000_0000_0000

  datatype RuleType =
    | Unknown | Match | Merge | Append | Prepend | Remove | Clear | Spawn | Eof | AddSet

  /** The enumerator values of `rule_type`. */
  function Code(t: RuleType): (c: nat)
    ensures c < 10
  {
    match t
    case Unknown => 0
    case Match => 1
    case Merge => 2
    case Append => 3
    case Prepend => 4
    case Remove => 5
    case Clear => 6
    case Spawn => 7
    case Eof => 8
    case AddSet => 9
  }

  /** A stored type code outside the enumeration lands in the interpreter's `default` branch. */
  function FromCode(c: nat): (t: RuleType)
    ensures Code(t) == if c < 10 then c else 0
  {
    match c
    case 1 => Match
    case 2 => Merge
    case 3 => Append
    case 4 => Prepend
    case 5 => Remove
    case 6 => Clear
    case 7 => Spawn
    case 8 => Eof
    case 9 => AddSet
    case _ => Unknown
  }

  /** The codes are the positions of the enumerators in hald/rule.h, and decode to them. */
  lemma CodeRoundTrip(t: RuleType)
    ensures FromCode(Code(t)) == t
    ensures [Unknown, Match, Merge, Append, Prepend, Remove, Clear, Spawn, Eof, AddSet][Code(t)] == t
  {
  }

  const MATCH_UNKNOWN: nat := 0
  const MERGE_UNKNOWN: nat := 0

  datatype Rule = Rule(
    ruleSize: nat, jumpPosition: nat, rtype: RuleType, typeMatch: nat, typeMerge: nat,
    valueOffset: nat, valueLen: nat, keyLen: nat)

  /** What the rule handlers see of a rule once its strings are resolved. */
  datatype RuleView = RuleView(rtype: RuleType, typeMatch: nat, typeMerge: nat, key: Text, value: Text)

  /** `init_rule_struct`. */
  function InitRule(): Rule {
    Rule(SIZEOF_RULE, 0, Unknown, MATCH_UNKNOWN, MERGE_UNKNOWN, EMPTY_STRING, 0, 0)
  }

  /** RULES_ROUND of a rule's extent: the distance to the next rule. */
  function RuleSize(keyLen: nat, valueLen: nat): nat {
    Round8(SIZEOF_RULE + Round4(keyLen) + Round4(valueLen))
  }

  // A rule is written as the fields before the jump, the jump, and the fields after it.

  function BeforeJump(r: Rule): (b: Text)
    ensures |b| == JUMP_FIELD
  {
    Le(8, r.ruleSize)
  }

  function AfterJump(r: Rule): (b: Text)
    ensures |b| == SIZEOF_RULE - JUMP_FIELD - 4
  {
    Le(4, Code(r.rtype)) + Le(4, r.typeMatch) + Le(4, r.typeMerge) + Le(4, r.valueOffset) +
    Zeros(4) + Le(8, r.valueLen) + Le(8, r.keyLen)
  }

  function RuleBytes(r: Rule): (b: Text)
    ensures |b| == SIZEOF_RULE
  {
    BeforeJump(r) + Le(4, r.jumpPosition) + AfterJump(r)
  }

  function Field(img: Text, off: nat, n: nat): nat
    requires off + n <= |img|
  {
    FromLe(img[off..off + n])
  }

  function ReadRule(img: Text, p: nat): Rule
    requires p + SIZEOF_RULE <= |img|
  {
    Rule(Field(img, p, 8), Field(img, p + 8, 4), FromCode(Field(img, p + 12, 4)),
         Field(img, p + 16, 4), Field(img, p + 20, 4), Field(img, p + 24, 4),
         Field(img, p + 32, 8), Field(img, p + 40, 8))
  }

  predicate Representable(r: Rule) {
    && r.ruleSize < U64 && r.jumpPosition < U32 && r.typeMatch < U32 && r.typeMerge < U32
    && r.valueOffset < U32 && r.valueLen < U64 && r.keyLen < U64
  }

  lemma FieldReads(img: Text, n: nat, x: nat, off: nat)
    requires off + n <= |img|
    requires img[off..off + n] == Le(n, x)
    requires (n == 4 && x < U32) || (n == 8 && x < U64)
    ensures Field(img, off, n) == x
  {
    Pow256Values();
    LeRoundTrip(n, x);
  }

  lemma AfterJumpSlices(r: Rule, b: Text)
    requires b == AfterJump(r)
    ensures b[0..4] == Le(4, Code(r.rtype))
    ensures b[4..8] == Le(4, r.typeMatch)
    ensures b[8..12] == Le(4, r.typeMerge)
    ensures b[12..16] == Le(4, r.valueOffset)
    ensures b[20..28] == Le(8, r.valueLen)
    ensures b[28..36] == Le(8, r.keyLen)
  {
  }

  lemma SubSlice(img: Text, lo: nat, hi: nat, part: Text, i: nat, j: nat)
    requires lo <= hi <= |img| && img[lo..hi] == part && i <= j <= hi - lo
    ensures img[lo + i..lo + j] == part[i..j]
  {
    forall k | 0 <= k < j - i
      ensures img[lo + i..lo + j][k] == part[i..j][k]
    {
      assert img[lo..hi][i + k] == img[lo + i + k];
    }
  }

  /** Reading back a stored rule gives the rule that was stored. */
  lemma ReadStoredRule(img: Text, p: nat, r: Rule)
    requires p + SIZEOF_RULE <= |img|
    requires img[p..p + SIZEOF_RULE] == RuleBytes(r)
    requires Representable(r)
    ensures ReadRule(img, p) == r
    ensures Field(img, p, 8) == r.ruleSize && Field(img, p + 8, 4) == r.jumpPosition && Field(img, p + 12, 4) == Code(r.rtype)
    ensures Field(img, p + 16, 4) == r.typeMatch && Field(img, p + 20, 4) == r.typeMerge && Field(img, p + 24, 4) == r.valueOffset
    ensures Field(img, p + 32, 8) == r.valueLen && Field(img, p + 40, 8) == r.keyLen
  {
    var b := RuleBytes(r);
    var t := AfterJump(r);
    assert b[0..8] == BeforeJump(r);
    assert b[8..12] == Le(4, r.jumpPosition);
    assert b[12..48] == t;
    SubSlice(img, p, p + 48, b, 0, 8);
    SubSlice(img, p, p + 48, b, 8, 12);
    SubSlice(img, p, p + 48, b, 12, 48);
    assert img[p + 12..p + 48] == t;
    AfterJumpSlices(r, t);
    SubSlice(img, p + 12, p + 48, t, 0, 4);
    SubSlice(img, p + 12, p + 48, t, 4, 8);
    SubSlice(img, p + 12, p + 48, t, 8, 12);
    SubSlice(img, p + 12, p + 48, t, 12, 16);
    SubSlice(img, p + 12, p + 48, t, 20, 28);
    SubSlice(img, p + 12, p + 48, t, 28, 36);
    FieldReads(img, 8, r.ruleSize, p);
    FieldReads(img, 4, r.jumpPosition, p + 8);
    FieldReads(img, 4, Code(r.rtype), p + 12);
    FieldReads(img, 4, r.typeMatch, p + 16);
    FieldReads(img, 4, r.typeMerge, p + 20);
    FieldReads(img, 4, r.valueOffset, p + 24);
    FieldReads(img, 8, r.valueLen, p + 32);
    FieldReads(img, 8, r.keyLen, p + 40);
    CodeRoundTrip(r.rtype);
  }

  // The cache header.

  datatype Header = Header(preprobe: nat, information: nat, policy: nat, allRulesSize: nat)

  function HeaderBytes(h: Header): (b: Text)
    ensures |b| == SIZEOF_HEADER
  {
    Le(4, h.preprobe) + Le(4, h.information) + Le(4, h.policy) + Le(4, h.allRulesSize) + Zeros(4)
  }

  function ReadHeader(img: Text): Header
    requires SIZEOF_HEADER <= |img|
  {
    Header(Field(img, 0, 4), Field(img, 4, 4), Field(img, 8, 4), Field(img, 12, 4))
  }

  lemma ReadStoredHeader(img: Text, h: Header)
    requires HeaderBytes(h) <= img
    requires h.preprobe < U32 && h.information < U32 && h.policy < U32 && h.allRulesSize < U32
    ensures ReadHeader(img) == h
    ensures Field(img, 0, 4) == h.preprobe && Field(img, 4, 4) == h.information && Field(img, 8, 4) == h.policy
    ensures Field(img, 12, 4) == h.allRulesSize
    ensures CString(img[EMPTY_STRING..]) == [] && CString(img[16..]) == []
  {
    var b := HeaderBytes(h);
    assert img[0..20] == b;
    assert b[0..4] == Le(4, h.preprobe);
    assert b[4..8] == Le(4, h.information);
    assert b[8..12] == Le(4, h.policy);
    assert b[12..16] == Le(4, h.allRulesSize);
    assert b[16] == 0;
    SubSlice(img, 0, 20, b, 0, 4);
    SubSlice(img, 0, 20, b, 4, 8);
    SubSlice(img, 0, 20, b, 8, 12);
    SubSlice(img, 0, 20, b, 12, 16);
    FieldReads(img, 4, h.preprobe, 0);
    FieldReads(img, 4, h.information, 4);
    FieldReads(img, 4, h.policy, 8);
    FieldReads(img, 4, h.allRulesSize, 12);
    assert img[16] == b[16];
  }
}
