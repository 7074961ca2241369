/**
 Building the whole cache: files are compiled one after the other, a file that does not
 parse is cut off again, and the header records where the three sections start.
 */
module FdiCache {
  import Lists
  import opened Options
  import opened Bytes
  import opened RuleLayout
  import opened FdiDocument
  import opened FdiCompiler
  import opened FdiCompilerProof

  /** What reading an FDI file gives: nothing, callbacks that end in an XML error, or a document. */
  datatype Input = Unreadable | Broken(events: seq<Event>) | Document(doc: Doc)
  datatype File = File(path: Text, input: Input)

  function NewContext(file: Text): (c: Ctx)
    ensures Valid(c)
  {
    Ctx(0, seq(HAL_MAX_INDENT_DEPTH, _ => 0), InitRule(), 0, file)
  }

  /** The dummy rule that closes every file. */
  function AppendEof(c: Ctx, path: Text): (Status, Ctx) {
    var c1 := c.(rule := InitRule().(rtype := Eof), position := Round8(|c.file|));
    var (st, c2) := StoreKey(c1, path);
    if st != Running then (st, c2)
    else
      var (st', c3) := StoreValue(c2, []);
      if st' != Running then (st', c3) else StoreRule(c3)
  }

  /** `rules_add_fdi_file`: the verdict and the file as it was left. */
  function AddFile(file: Text, f: File): (Status, Text) {
    match f.input
    case Unreadable => (Stopped, file)
    case Broken(events) =>
      var (st, c) := Run(NewContext(file), events);
      (if st == Running then Stopped else st, c.file)
    case Document(doc) =>
      var (st, c) := Run(NewContext(file), Events(doc));
      if st != Running then (st, c.file)
      else
        var (st', c') := AppendEof(c, f.path);
        (st', c'.file)
  }

  /** The file size squeezed into the `int` that `rules_add_fdi_file` returns. */
  function AsInt32(n: nat): (r: int)
    ensures -0x8000_0000 <= r < 0x8000_0000 && (n - r) % 0x1_0000_0000 == 0
  {
    var m := n % U32;
    if m < U32 / 2 then m else m - U32
  }

  /** Compile a file, or truncate to where it began; `None` when the process dies. */
  function AddOrSkip(file: Text, f: File): Option<Text> {
    var (st, file') := AddFile(file, f);
    if st == Died then None
    else if st == Running && AsInt32(|file'|) >= 0 then Some(file')
    else if |file| <= |file'| then Some(file'[..|file|])
    else Some(file' + Zeros(|file| - |file'|))
  }

  function AddFiles(file: Text, files: seq<File>): Option<Text>
    decreases |files|
  {
    if files == [] then Some(file)
    else
      match AddOrSkip(file, files[0])
      case None => None
      case Some(file') => AddFiles(file', files[1..])
  }

  /** The file is counted as skipped. */
  predicate Skips(file: Text, f: File) {
    var (st, file') := AddFile(file, f);
    st != Running || AsInt32(|file'|) < 0
  }

  function SkipCount(file: Text, files: seq<File>): nat
    decreases |files|
  {
    if files == [] || AddOrSkip(file, files[0]).None? then 0
    else (if Skips(file, files[0]) then 1 else 0) + SkipCount(AddOrSkip(file, files[0]).value, files[1..])
  }

  // The reference image.

  datatype Source = Source(path: Text, doc: Doc)

  function EofContent(path: Text): Content {
    Content(path, MATCH_UNKNOWN, MERGE_UNKNOWN, [])
  }

  function EmitFile(b: nat, s: Source): Text {
    var e := Emit(b, s.doc);
    e + EmitRule(b + |e|, Eof, EofContent(s.path), 0)
  }

  function EmitFiles(b: nat, sources: seq<Source>): Text
    decreases |sources|
  {
    if sources == [] then []
    else
      var e := EmitFile(b, sources[0]);
      e + EmitFiles(b + |e|, sources[1..])
  }

  predicate Accepted(f: File) {
    f.input.Document? && Check(f.input.doc, 0) == Running && f.path != []
  }

  /** The accepted files, in order. */
  function Sources(files: seq<File>): seq<Source>
    decreases |files|
  {
    if files == [] then []
    else (if Accepted(files[0]) then [Source(files[0].path, files[0].input.doc)] else []) + Sources(files[1..])
  }

  lemma EofEmits(c: Ctx, path: Text)
    requires path != []
    ensures AppendEof(c, path).0 == Running
    ensures AppendEof(c, path).1.file == c.file + EmitRule(|c.file|, Eof, EofContent(path), 0)
  {
    hide Pad32Write, EmitRule;
    var c1 := c.(rule := InitRule().(rtype := Eof), position := Round8(|c.file|));
    assert IsOpen(c1, c.file, Eof, EofContent([]));
    OpenKey(c1, c.file, Eof, EofContent([]), path);
    var c2 := StoreKey(c1, path).1;
    OpenStore(c2, c.file, Eof, EofContent(path));
  }

  /** The file as compiled stays below the size that fits a signed 32-bit integer. */
  predicate Fits(file: Text, f: File) {
    if Accepted(f) then |file| + |EmitFile(|file|, Source(f.path, f.input.doc))| < U32 / 2
    else |AddFile(file, f).1| < U32
  }

  predicate AllFit(file: Text, files: seq<File>)
    decreases |files|
  {
    files == [] ||
    (&& Fits(file, files[0])
     && (AddOrSkip(file, files[0]).Some? ==> AllFit(AddOrSkip(file, files[0]).value, files[1..])))
  }

  lemma DocumentEmits(file: Text, doc: Doc)
    requires Check(doc, 0) == Running && |file| + |Emit(|file|, doc)| < U32
    ensures Run(NewContext(file), Events(doc)).0 == Running
    ensures Run(NewContext(file), Events(doc)).1.file == file + Emit(|file|, doc)
  {
    hide Pad32Write, Emit, Check, Events, StoreRule;
    var c := NewContext(file);
    RunStatus(c, doc);
    RunEmits(c, doc);
  }

  /** An accepted file appends exactly its reference bytes. */
  lemma AcceptedEmits(file: Text, f: File)
    requires Accepted(f) && Fits(file, f)
    ensures AddFile(file, f) == (Running, file + EmitFile(|file|, Source(f.path, f.input.doc)))
  {
    hide Pad32Write, EmitRule, Emit, Check, Events, AppendEof, Run;
    var doc := f.input.doc;
    DocumentEmits(file, doc);
    var c := Run(NewContext(file), Events(doc)).1;
    EofEmits(c, f.path);
    var e, z := Emit(|file|, doc), EmitRule(|c.file|, Eof, EofContent(f.path), 0);
    assert file + e + z == file + (e + z);
  }

  lemma AcceptedIsKept(file: Text, f: File)
    requires Accepted(f) && Fits(file, f)
    ensures AddOrSkip(file, f) == Some(file + EmitFile(|file|, Source(f.path, f.input.doc)))
  {
    hide AddFile, EmitFile, Check;
    AcceptedEmits(file, f);
  }

  /** A file that is not accepted leaves no trace: after truncation the image is as before it was read. */
  lemma RejectedLeavesNoTrace(file: Text, f: File)
    requires !Accepted(f) && Fits(file, f) && AddOrSkip(file, f).Some?
    ensures AddOrSkip(file, f) == Some(file)
  {
    hide Pad32Write, Emit, Check, Events, Run, StoreRule;
    assert file[..|file|] == file;
    var c := NewContext(file);
    match f.input
    case Unreadable =>
    case Broken(events) =>
      RunKeepsPrefix(c, events, |file|);
    case Document(doc) =>
      RunStatus(c, doc);
      if Check(doc, 0) != Running {
        RejectedDocument(file, f);
      }
  }

  lemma RejectedDocument(file: Text, f: File)
    requires f.input.Document? && Check(f.input.doc, 0) != Running && |AddFile(file, f).1| < U32
    ensures AddFile(file, f).0 != Running
    ensures Grew(file, AddFile(file, f).1, |file|)
  {
    hide Pad32Write, Emit, Check, Events, Run, StoreRule, AppendEof;
    var c := NewContext(file);
    RunStatus(c, f.input.doc);
    RunKeepsPrefix(c, Events(f.input.doc), |file|);
  }

  lemma SourcesStep(files: seq<File>)
    requires files != []
    ensures Accepted(files[0]) ==>
              Sources(files) != [] && Sources(files)[0] == Source(files[0].path, files[0].input.doc) &&
              Sources(files)[1..] == Sources(files[1..])
    ensures !Accepted(files[0]) ==> Sources(files) == Sources(files[1..])
  {
    hide Check;
  }

  /** The image holds the accepted files, in order, and nothing else. */
  lemma {:induction false} AddFilesEmits(file: Text, files: seq<File>)
    requires AllFit(file, files) && AddFiles(file, files).Some?
    ensures AddFiles(file, files) == Some(file + EmitFiles(|file|, Sources(files)))
    decreases |files|
  {
    hide AddOrSkip, EmitFile, Fits, Accepted, Sources, Emit, AddFile;
    if files == [] {
      NoSources();
      assert file + [] == file;
    } else {
      var f := files[0];
      SourcesStep(files);
      if Accepted(f) {
        AcceptedIsKept(file, f);
        var e := EmitFile(|file|, Sources(files)[0]);
        AddFilesEmits(file + e, files[1..]);
        var r := EmitFiles(|file| + |e|, Sources(files)[1..]);
        assert file + e + r == file + (e + r);
      } else {
        RejectedLeavesNoTrace(file, f);
        AddFilesEmits(file, files[1..]);
      }
    }
  }

  lemma SkippedIsRejected(file: Text, f: File)
    requires Fits(file, f) && AddOrSkip(file, f).Some?
    ensures Skips(file, f) <==> !Accepted(f)
  {
    hide EmitFile, Emit, Check, Run, AppendEof;
    if Accepted(f) {
      hide AddFile;
      AcceptedEmits(file, f);
    } else {
      RejectedStops(file, f);
    }
  }

  lemma RejectedStops(file: Text, f: File)
    requires !Accepted(f) && Fits(file, f)
    ensures AddFile(file, f).0 != Running
  {
    hide Emit, Check, Events, Run, StoreRule;
    match f.input
    case Unreadable =>
    case Broken(_) =>
    case Document(doc) =>
      if Check(doc, 0) != Running {
        hide AddFile;
        RejectedDocument(file, f);
      }
  }

  /** The files counted as skipped are the rejected ones. */
  lemma {:induction false} SkipCountIs(file: Text, files: seq<File>)
    requires AllFit(file, files) && AddFiles(file, files).Some?
    ensures SkipCount(file, files) + |Sources(files)| == |files|
    decreases |files|
  {
    hide AddOrSkip, Fits, Accepted, Sources, Skips;
    if files == [] {
      NoSources();
    } else {
      SourcesStep(files);
      SkippedIsRejected(file, files[0]);
      SkipCountIs(AddOrSkip(file, files[0]).value, files[1..]);
    }
  }

  lemma NoSources()
    ensures Sources([]) == []
  {
  }

  // The cache as a whole.

  datatype RuleSet = RuleSet(preprobe: seq<Source>, information: seq<Source>, policy: seq<Source>)

  /** `di_rules_init` over the files found for each section. */
  function BuildCache(preprobe: seq<File>, information: seq<File>, policy: seq<File>): Option<Text> {
    var f0 := Pad32Write([], 0, Zeros(SIZEOF_HEADER));
    match AddFiles(f0, preprobe)
    case None => None
    case Some(f1) =>
      match AddFiles(f1, information)
      case None => None
      case Some(f2) =>
        match AddFiles(f2, policy)
        case None => None
        case Some(f3) =>
          Some(Pad32Write(f3, 0, HeaderBytes(Header(Round8(|f0|), Round8(|f1|), Round8(|f2|), |f3|))))
  }

  function SectionBytes(rs: RuleSet): (Text, Text, Text) {
    var s1 := EmitFiles(SIZEOF_HEADER, rs.preprobe);
    var s2 := EmitFiles(SIZEOF_HEADER + |s1|, rs.information);
    var s3 := EmitFiles(SIZEOF_HEADER + |s1| + |s2|, rs.policy);
    (s1, s2, s3)
  }

  function ImageHeader(rs: RuleSet): Header {
    var (s1, s2, s3) := SectionBytes(rs);
    Header(Round8(SIZEOF_HEADER), Round8(SIZEOF_HEADER + |s1|), Round8(SIZEOF_HEADER + |s1| + |s2|),
           SIZEOF_HEADER + |s1| + |s2| + |s3|)
  }

  /** The reference cache of a rule set. */
  function Image(rs: RuleSet): Text {
    var (s1, s2, s3) := SectionBytes(rs);
    HeaderBytes(ImageHeader(rs)) + s1 + s2 + s3
  }

  predicate InputFits(preprobe: seq<File>, information: seq<File>, policy: seq<File>) {
    var f0 := Zeros(SIZEOF_HEADER);
    && AllFit(f0, preprobe)
    && (AddFiles(f0, preprobe).Some? ==>
          var f1 := AddFiles(f0, preprobe).value;
          && AllFit(f1, information)
          && (AddFiles(f1, information).Some? ==> AllFit(AddFiles(f1, information).value, policy)))
  }

  /** The built cache is the reference cache of the accepted files: rejected files change no byte. */
  lemma CacheIsImageOfAccepted(preprobe: seq<File>, information: seq<File>, policy: seq<File>)
    requires InputFits(preprobe, information, policy)
    requires BuildCache(preprobe, information, policy).Some?
    ensures BuildCache(preprobe, information, policy)
            == Some(Image(RuleSet(Sources(preprobe), Sources(information), Sources(policy))))
  {
    hide AddFiles, EmitFiles, AllFit, Sources, HeaderBytes, Pad32Write, Round8, Zeros;
    var rs := RuleSet(Sources(preprobe), Sources(information), Sources(policy));
    var f0 := Zeros(SIZEOF_HEADER);
    EmptyFileWrite(f0);
    AddFilesEmits(f0, preprobe);
    var f1 := AddFiles(f0, preprobe).value;
    AddFilesEmits(f1, information);
    var f2 := AddFiles(f1, information).value;
    AddFilesEmits(f2, policy);
    var (s1, s2, s3) := SectionBytes(rs);
    HeaderWrite(f0, s1 + s2 + s3, HeaderBytes(ImageHeader(rs)));
    Lists.Associate4(f0, s1, s2, s3);
    Lists.Associate4(HeaderBytes(ImageHeader(rs)), s1, s2, s3);
  }

  lemma EmptyFileWrite(h: Text)
    requires |h| == SIZEOF_HEADER
    ensures Pad32Write([], 0, h) == h
  {
    WritePastEnd([], 0, h + Zeros(Padding(|h|)));
  }

  lemma HeaderWrite(h0: Text, rest: Text, h: Text)
    requires |h0| == |h| == SIZEOF_HEADER
    ensures Pad32Write(h0 + rest, 0, h) == h + rest
  {
    assert h + Zeros(Padding(|h|)) == h;
    assert [] + h0 + rest == h0 + rest;
    WriteInside([], h0, rest, h);
  }
}
