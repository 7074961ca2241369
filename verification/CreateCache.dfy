/**
 hald/create_cache.c as it runs: a context object whose callbacks write through a file
 descriptor with a cursor. Every method is tied to the function that specifies it.
 */
module CreateCache {
  import opened Options
  import opened Bytes
  import opened RuleLayout
  import opened FdiDocument
  import opened FdiCache
  import Spec = FdiCompiler

  /** An open file: its bytes and the position the next write starts at. */
  class CacheFile {
    var data: Text
    var cursor: nat

    constructor ()
      ensures data == [] && cursor == 0
    {
      data, cursor := [], 0;
    }

    method SeekSet(offset: nat)
      modifies this
      ensures data == old(data) && cursor == offset
    {
      cursor := offset;
    }

    method SeekEnd() returns (offset: nat)
      modifies this
      ensures data == old(data) && cursor == |data| && offset == |data|
    {
      cursor := |data|;
      offset := cursor;
    }

    method Write(bytes: Text)
      modifies this
      ensures data == WriteAt(old(data), old(cursor), bytes) && cursor == old(cursor) + |bytes|
    {
      data := WriteAt(data, cursor, bytes);
      cursor := cursor + |bytes|;
    }

    /** `ftruncate`: cuts or zero-extends, and leaves the cursor alone. */
    method Truncate(size: nat)
      modifies this
      ensures data == if size <= |old(data)| then old(data)[..size] else old(data) + Zeros(size - |old(data)|)
      ensures cursor == old(cursor)
    {
      data := if size <= |data| then data[..size] else data + Zeros(size - |data|);
    }
  }

  lemma WriteAtIndex(f: Text, off: nat, d: Text, k: nat)
    requires k < |WriteAt(f, off, d)|
    ensures WriteAt(f, off, d)[k] == if off <= k < off + |d| then d[k - off] else if k < |f| then f[k] else 0
  {
  }

  /** Two writes in a row are one write. */
  lemma SecondWrite(f: Text, off: nat, d: Text, pad: Text)
    ensures WriteAt(WriteAt(f, off, d), off + |d|, pad) == WriteAt(f, off, d + pad)
  {
    hide WriteAt;
    var g := WriteAt(f, off, d);
    var x, y := WriteAt(g, off + |d|, pad), WriteAt(f, off, d + pad);
    assert |x| == |y|;
    forall k | 0 <= k < |x|
      ensures x[k] == y[k]
    {
      WriteAtIndex(g, off + |d|, pad, k);
      WriteAtIndex(f, off, d + pad, k);
      if k < |g| {
        WriteAtIndex(f, off, d, k);
      }
    }
  }

  method Pad32Write(fd: CacheFile, offset: nat, bytes: Text)
    modifies fd
    ensures fd.data == Spec.Pad32Write(old(fd.data), offset, bytes)
  {
    fd.SeekSet(offset);
    fd.Write(bytes);
    if (offset + |bytes|) % 4 != 0 {
      var pad := Zeros(4 - (offset + |bytes|) % 4);
      fd.Write(pad);
      SecondWrite(old(fd.data), offset, bytes, pad);
    } else {
      assert bytes + Zeros(0) == bytes;
    }
  }

  class FdiContext {
    var depth: nat
    const matchAtDepth: array<nat>
    var rule: Rule
    var position: nat
    const fd: CacheFile

    constructor (fd: CacheFile)
      ensures this.fd == fd && fd.data == old(fd.data) && fresh(matchAtDepth)
      ensures State() == NewContext(fd.data)
    {
      depth := 0;
      matchAtDepth := new nat[HAL_MAX_INDENT_DEPTH](_ => 0);
      rule := InitRule();
      position := 0;
      this.fd := fd;
      new;
      assert matchAtDepth[..] == seq(HAL_MAX_INDENT_DEPTH, _ => 0);
    }

    ghost function State(): Spec.Ctx
      reads this, matchAtDepth, fd
    {
      Spec.Ctx(depth, matchAtDepth[..], rule, position, fd.data)
    }

    method StoreKey(key: Text) returns (st: Status)
      modifies this, fd
      ensures (st, State()) == Spec.StoreKey(old(State()), key)
    {
      if rule.rtype.Unknown? || key == [] {
        return Died;
      }
      rule := rule.(keyLen := |key| + 1);
      Pad32Write(fd, position + SIZEOF_RULE, key + [0]);
      return Running;
    }

    method StoreValue(value: Text) returns (st: Status)
      modifies this, fd
      ensures (st, State()) == Spec.StoreValue(old(State()), value)
    {
      hide Spec.Pad32Write, Round4;
      if rule.rtype.Unknown? || rule.keyLen < 2 {
        return Died;
      }
      if value == [] || value[0] == 0 {
        return Running;
      }
      var offset := position + SIZEOF_RULE + Round4(rule.keyLen);
      if rule.valueLen == 0 {
        rule := rule.(valueOffset := offset, valueLen := |value| + 1);
      } else {
        offset := offset + rule.valueLen - 1;
        rule := rule.(valueLen := rule.valueLen + |value|);
      }
      Pad32Write(fd, offset, value);
      Pad32Write(fd, offset + |value|, [0]);
      return Running;
    }

    method StoreRule() returns (st: Status)
      modifies this, fd
      ensures (st, State()) == Spec.StoreRule(old(State()))
    {
      if rule.rtype.Unknown? {
        return Died;
      }
      rule := rule.(ruleSize := RuleSize(rule.keyLen, rule.valueLen));
      Pad32Write(fd, position, RuleBytes(rule));
      rule := InitRule();
      return Running;
    }

    method RememberJumpPosition() returns (st: Status)
      requires matchAtDepth.Length == HAL_MAX_INDENT_DEPTH
      modifies this, matchAtDepth
      ensures (st, State()) == Spec.RememberJumpPosition(old(State()))
    {
      if depth >= HAL_MAX_INDENT_DEPTH {
        return Died;
      }
      matchAtDepth[depth] := position % U32;
      depth := depth + 1;
      return Running;
    }

    method SetJumpPosition() returns (st: Status)
      requires Spec.Valid(State())
      modifies this, fd
      ensures (st, State()) == Spec.SetJumpPosition(old(State()))
    {
      if depth <= 0 {
        return Died;
      }
      depth := depth - 1;
      var end := fd.SeekEnd();
      var offset := Round8(end);
      Pad32Write(fd, matchAtDepth[depth] + JUMP_FIELD, Le(4, offset));
      return Running;
    }

    method StartAttr(a: Attr) returns (st: Status)
      modifies this, fd
      ensures (st, State()) == Spec.StartAttr(old(State()), a)
    {
      if IsKeyAttr(rule.rtype, a.name) {
        if rule.keyLen > 0 {
          return Stopped;
        }
        st := StoreKey(a.value);
      } else if rule.rtype.Spawn? {
        return Running;
      } else if rule.rtype.Match? {
        if rule.keyLen == 0 {
          return Stopped;
        }
        rule := rule.(typeMatch := GetMatchType(a.name));
        if rule.typeMatch == MATCH_UNKNOWN {
          return Stopped;
        }
        st := StoreValue(a.value);
      } else if a.name != Ascii("type") {
        return Running;
      } else {
        rule := rule.(typeMerge := GetMergeType(a.value));
        return if rule.typeMerge == MERGE_UNKNOWN then Stopped else Running;
      }
    }

    /** The expat callback for a start tag. */
    method Start(el: Text, attrs: seq<Attr>) returns (st: Status)
      requires Spec.Valid(State())
      modifies this, matchAtDepth, fd
      ensures (st, State()) == Spec.Start(old(State()), el, attrs)
    {
      if !rule.rtype.Unknown? {
        var _ := StoreRule();
      }
      rule := InitRule().(rtype := GetRuleType(el));
      var end := fd.SeekEnd();
      position := Round8(end);
      ghost var c1 := State();
      assert c1 == Spec.Opened(old(State()), el);
      if rule.rtype.Unknown? {
        return Running;
      }
      var i := 0;
      while i < |attrs|
        invariant i <= |attrs|
        invariant matchAtDepth[..] == old(matchAtDepth[..])
        invariant Spec.StartAttrs(c1, attrs) == Spec.StartAttrs(State(), attrs[i..])
      {
        assert attrs[i..][0] == attrs[i] && attrs[i..][1..] == attrs[i + 1..];
        st := StartAttr(attrs[i]);
        if st != Running {
          return;
        }
        i := i + 1;
      }
      assert Spec.StartAttrs(c1, attrs) == (Running, State());
      if rule.keyLen == 0 {
        return Stopped;
      }
      if rule.rtype.Match? {
        st := RememberJumpPosition();
      } else {
        st := Running;
      }
    }

    /** The expat callback for text. */
    method CharData(s: Text) returns (st: Status)
      modifies this, fd
      ensures (st, State()) == Spec.CharData(old(State()), s)
    {
      if !TakesText(rule.rtype) {
        return Running;
      }
      st := StoreValue(s);
    }

    /** The expat callback for an end tag. */
    method End(el: Text) returns (st: Status)
      requires Spec.Valid(State())
      modifies this, fd
      ensures (st, State()) == Spec.End(old(State()), el)
    {
      var t := GetRuleType(el);
      if t.Unknown? {
        return Running;
      }
      if t.Match? {
        if rule.rtype.Match? {
          var _ := StoreRule();
        }
        st := SetJumpPosition();
        return;
      }
      if rule.rtype != t {
        return Stopped;
      }
      st := StoreRule();
    }

    /** `XML_Parse`: the callbacks in document order until one of them ends the parse. */
    method Parse(events: seq<Event>) returns (st: Status)
      requires Spec.Valid(State())
      modifies this, matchAtDepth, fd
      ensures (st, State()) == Spec.Run(old(State()), events)
    {
      var i := 0;
      st := Running;
      while i < |events|
        invariant i <= |events|
        invariant Spec.Valid(State())
        invariant Spec.Run(old(State()), events) == Spec.Run(State(), events[i..])
      {
        var e := events[i];
        Spec.StepKeepsValid(State(), e);
        assert events[i..][0] == e && events[i..][1..] == events[i + 1..];
        match e {
          case StartEvent(name, attrs) => st := Start(name, attrs);
          case CharsEvent(text) => st := CharData(text);
          case EndEvent(name) => st := End(name);
        }
        if st != Running {
          return;
        }
        i := i + 1;
      }
      assert events[i..] == [];
      return Running;
    }

    /** The dummy rule behind the last rule of a file. */
    method AppendEof(path: Text) returns (st: Status)
      modifies this, fd
      ensures (st, State()) == EofSpec(old(State()), path)
    {
      rule := InitRule().(rtype := Eof);
      var end := fd.SeekEnd();
      position := Round8(end);
      st := StoreKey(path);
      if st != Running {
        return;
      }
      st := StoreValue([]);
      if st != Running {
        return;
      }
      st := StoreRule();
    }
  }

  // The method of the same name hides it inside the class.
  ghost function EofSpec(c: Spec.Ctx, path: Text): (Status, Spec.Ctx) {
    AppendEof(c, path)
  }

  // Files and sections.

  /** `rules_add_fdi_file`: the new file size squeezed into an `int`, or -1; `None` when the process dies. */
  method RulesAddFdiFile(fd: CacheFile, f: File) returns (ret: Option<int>)
    modifies fd
    ensures fd.data == AddFile(old(fd.data), f).1
    ensures ret == match AddFile(old(fd.data), f).0
                   case Died => None
                   case Stopped => Some(-1)
                   case Running => Some(AsInt32(|fd.data|))
    ensures AddFile(old(fd.data), f).0 == Running ==> fd.cursor == |fd.data|
  {
    if f.input.Unreadable? {
      return Some(-1);
    }
    var ctx := new FdiContext(fd);
    var st := ctx.Parse(if f.input.Broken? then f.input.events else Events(f.input.doc));
    if st == Died {
      return None;
    }
    if st == Stopped || f.input.Broken? {
      return Some(-1);
    }
    st := ctx.AppendEof(f.path);
    if st != Running {
      EofNeverStops(f.path);
      return None;
    }
    var size := fd.SeekEnd();
    return Some(AsInt32(size));
  }

  lemma EofNeverStops(path: Text)
    ensures forall c :: AppendEof(c, path).0 != Stopped
  {
  }

  /** One file of the directory loop: compile it, or truncate to where it began. */
  method KeepOrSkip(fd: CacheFile, f: File) returns (skipped: Option<bool>)
    requires fd.cursor == |fd.data|
    modifies fd
    ensures skipped.Some? <==> AddOrSkip(old(fd.data), f).Some?
    ensures skipped.Some? ==> fd.data == AddOrSkip(old(fd.data), f).value && fd.cursor == |fd.data|
    ensures skipped.Some? ==> (skipped.value <==> Skips(old(fd.data), f))
  {
    hide AddFile;
    var offsetBefore := fd.cursor;
    var size := RulesAddFdiFile(fd, f);
    if size == None {
      return None;
    }
    if size.value < 0 {
      fd.Truncate(offsetBefore);
      var _ := fd.SeekEnd();
      return Some(true);
    }
    return Some(false);
  }

  /** The directory loop; counts the skipped files. */
  method RulesSearchAndAdd(fd: CacheFile, files: seq<File>) returns (skipped: Option<nat>)
    requires fd.cursor == |fd.data|
    modifies fd
    ensures skipped.Some? <==> AddFiles(old(fd.data), files).Some?
    ensures skipped.Some? ==> fd.data == AddFiles(old(fd.data), files).value && fd.cursor == |fd.data|
    ensures skipped.Some? ==> skipped.value == SkipCount(old(fd.data), files)
  {
    hide AddOrSkip, Skips;
    var n := 0;
    var i := 0;
    while i < |files|
      invariant i <= |files|
      invariant fd.cursor == |fd.data|
      invariant AddFiles(old(fd.data), files) == AddFiles(fd.data, files[i..])
      invariant SkipCount(old(fd.data), files) == n + SkipCount(fd.data, files[i..])
    {
      assert files[i..][0] == files[i] && files[i..][1..] == files[i + 1..];
      var skip := KeepOrSkip(fd, files[i]);
      if skip == None {
        return None;
      }
      n := if skip.value then n + 1 else n;
      i := i + 1;
    }
    assert files[i..] == [];
    return Some(n);
  }

  /** `di_rules_init`: the cache file, or `None` when the process dies, and how many files were skipped. */
  method DiRulesInit(preprobe: seq<File>, information: seq<File>, policy: seq<File>)
    returns (cache: Option<Text>, skips: nat)
    ensures cache == BuildCache(preprobe, information, policy)
    ensures cache.Some? && InputFits(preprobe, information, policy) ==>
              skips + |Sources(preprobe)| + |Sources(information)| + |Sources(policy)| == |preprobe| + |information| + |policy|
  {
    hide AddFiles, HeaderBytes, Spec.Pad32Write, AllFit, SkipCount, Sources;
    skips := 0;
    var fd := new CacheFile();
    Pad32Write(fd, 0, Zeros(SIZEOF_HEADER));
    EmptyFileWrite(Zeros(SIZEOF_HEADER));
    var n := fd.SeekEnd();
    var preprobeAt := Round8(n);
    var skipped := RulesSearchAndAdd(fd, preprobe);
    if skipped == None {
      return None, skips;
    }
    skips := skips + skipped.value;
    if InputFits(preprobe, information, policy) {
      SkipCountIs(Zeros(SIZEOF_HEADER), preprobe);
    }
    ghost var f1 := fd.data;
    n := fd.SeekEnd();
    var informationAt := Round8(n);
    skipped := RulesSearchAndAdd(fd, information);
    if skipped == None {
      return None, skips;
    }
    skips := skips + skipped.value;
    if InputFits(preprobe, information, policy) {
      SkipCountIs(f1, information);
    }
    ghost var f2 := fd.data;
    n := fd.SeekEnd();
    var policyAt := Round8(n);
    skipped := RulesSearchAndAdd(fd, policy);
    if skipped == None {
      return None, skips;
    }
    skips := skips + skipped.value;
    if InputFits(preprobe, information, policy) {
      SkipCountIs(f2, policy);
    }
    n := fd.SeekEnd();
    Pad32Write(fd, 0, HeaderBytes(Header(preprobeAt, informationAt, policyAt, n)));
    return Some(fd.data), skips;
  }
}
