/** The archive loader and runtime compiler front end (`core` version): classifies the
    entries of a class or source archive, skips compilation when there are no sources,
    tallies the compiler's diagnostics and links compiled classes to their sources. The
    archive reader, the JSON decoder, the charset detection, the Java compiler and the
    bytecode reader are supplied as a `Toolchain`. */
module RuntimeJarLoader {
  import opened Wrappers
  import opened Strings
  import opened CompiledClasses

  /** One archive entry: its path, whether it is a directory, and its bytes. */
  datatype JarEntry = JarEntry(name: string, isDirectory: bool, bytes: seq<Byte>)

  /** The parsed `submission-info.json`. */
  datatype SubmissionInfo = SubmissionInfo(assignmentId: string, studentId: string, firstName: string, lastName: string)

  /** A diagnostic severity as the Java compiler reports it. */
  datatype DiagnosticKind = ERROR | WARNING | MANDATORY_WARNING | NOTE | OTHER

  /** A compiler diagnostic: the name of its source file (absent for diagnostics that are
      not about a file), its line, its kind and its message. */
  datatype Diagnostic = Diagnostic(source: Option<string>, lineNumber: int, kind: DiagnosticKind, message: string)

  /** What one compiler invocation gives back: its success flag, the bytes it wrote for
      each class and its diagnostics, in order. */
  datatype CompilerRun = CompilerRun(success: bool, outputs: map<string, seq<Byte>>, diagnostics: seq<Diagnostic>)

  /** What the bytecode reader finds in a class file: its internal (slash-separated) name
      and its `SourceFile` attribute. */
  datatype ClassFileInfo = ClassFileInfo(internalName: string, sourceAttribute: Option<string>)

  /** The external collaborators: the JSON decoder (`None` when it throws), the source text
      decoder, the compiler (given the sources and the runtime class path) and the bytecode
      reader. */
  datatype Toolchain = Toolchain(
    decodeInfo: seq<Byte> -> Option<SubmissionInfo>,
    readEncoded: seq<Byte> -> string,
    compile: (map<string, JavaSourceFile>, map<string, CompiledClass>) -> CompilerRun,
    inspect: seq<Byte> -> ClassFileInfo)

  /** `JavaCompileResult`; arguments left out in the source take their empty defaults. */
  datatype JavaCompileResult = JavaCompileResult(
    file: string,
    submissionInfo: Option<SubmissionInfo>,
    compiledClasses: map<string, CompiledClass>,
    sourceFiles: map<string, JavaSourceFile>,
    resources: map<string, seq<Byte>>,
    messages: seq<string>,
    warnings: int,
    errors: int,
    other: int)

  /** `JavaCompileResult(file, submissionInfo)`: nothing but the file and the info. */
  function BareResult(file: string, info: Option<SubmissionInfo>): JavaCompileResult {
    JavaCompileResult(file, info, map[], map[], map[], [], 0, 0, 0)
  }

  const InfoFileName: string := "submission-info.json"

  /** `name.replace('/', '.').substring(0, name.length - suffixLength)`: the dotted class
      name of an entry path with its suffix dropped. */
  function ClassNameOf(name: string, suffixLength: nat): (r: string)
    requires suffixLength <= |name|
    ensures |r| == |name| - suffixLength
  {
    ReplaceChar(name, '/', '.')[..|name| - suffixLength]
  }

  /** The class name keeps the path's characters up to the suffix, with every `/` turned
      into `.`, so no `/` is left. */
  lemma ClassNameOfSpec(name: string, suffixLength: nat)
    requires suffixLength <= |name|
    ensures var r := ClassNameOf(name, suffixLength);
      && (forall i :: 0 <= i < |r| ==> r[i] == (if name[i] == '/' then '.' else name[i]))
      && '/' !in r
  {
  }

  // ---------------------------------------------------------------- loadCompiledJar

  /** How `loadCompiledJar` treats an entry, first matching rule first. */
  datatype CompiledEntryKind = SkippedDirectory | ClassFile | ManifestFile | ResourceFile

  function ClassifyCompiled(e: JarEntry): CompiledEntryKind {
    if e.isDirectory then SkippedDirectory
    else if EndsWith(e.name, ".class") then ClassFile
    else if EndsWith(e.name, "MANIFEST.MF") then ManifestFile
    else ResourceFile
  }

  /** The classes `loadCompiledJar` stores, by class name; a later entry with the same
      class name replaces an earlier one. */
  function ClassBytes(entries: seq<JarEntry>): map<string, seq<Byte>> {
    if |entries| == 0 then map[]
    else
      var e := entries[|entries| - 1];
      var m := ClassBytes(entries[..|entries| - 1]);
      if ClassifyCompiled(e) == ClassFile then m[ClassNameOf(e.name, 6) := e.bytes] else m
  }

  /** The resources `loadCompiledJar` stores, by full entry path. */
  function ResourceBytes(entries: seq<JarEntry>): map<string, seq<Byte>> {
    if |entries| == 0 then map[]
    else
      var e := entries[|entries| - 1];
      var m := ResourceBytes(entries[..|entries| - 1]);
      if ClassifyCompiled(e) == ResourceFile then m[e.name := e.bytes] else m
  }

  predicate IsClassEntryFor(e: JarEntry, className: string) {
    ClassifyCompiled(e) == ClassFile && ClassNameOf(e.name, 6) == className
  }

  /** One step of `ClassBytes`: the last entry either stores `className` with its bytes
      or leaves that key as the earlier entries left it. */
  lemma ClassBytesStep(entries: seq<JarEntry>, className: string)
    requires |entries| > 0
    ensures var e, m := entries[|entries| - 1], ClassBytes(entries[..|entries| - 1]);
      if IsClassEntryFor(e, className) then
        className in ClassBytes(entries) && ClassBytes(entries)[className] == e.bytes
      else
        (className in ClassBytes(entries) <==> className in m)
        && (className in m ==> ClassBytes(entries)[className] == m[className])
  {
  }

  /** A class name is stored exactly when some non-directory `.class` entry has it as its
      dotted name. */
  lemma {:induction false} ClassBytesKeys(entries: seq<JarEntry>, className: string)
    ensures className in ClassBytes(entries) <==>
      exists i :: 0 <= i < |entries| && IsClassEntryFor(entries[i], className)
  {
    if |entries| > 0 {
      var n := |entries| - 1;
      var init := entries[..n];
      ClassBytesKeys(init, className);
      ClassBytesStep(entries, className);
      assert forall i :: 0 <= i < n ==> init[i] == entries[i];
    }
  }

  /** The position of the last entry with a stored class's dotted name. */
  lemma {:induction false} LatestClassEntry(entries: seq<JarEntry>, className: string) returns (i: nat)
    requires className in ClassBytes(entries)
    ensures i < |entries| && IsClassEntryFor(entries[i], className)
    ensures ClassBytes(entries)[className] == entries[i].bytes
    ensures forall j :: i < j < |entries| ==> !IsClassEntryFor(entries[j], className)
  {
    var n := |entries| - 1;
    ClassBytesStep(entries, className);
    if IsClassEntryFor(entries[n], className) {
      i := n;
    } else {
      var init := entries[..n];
      i := LatestClassEntry(init, className);
      assert init[i] == entries[i];
      forall j | i < j < |entries|
        ensures !IsClassEntryFor(entries[j], className)
      {
        if j < n {
          assert init[j] == entries[j];
        }
      }
    }
  }

  /** A stored class holds the bytes of the last entry with its dotted name. */
  lemma ClassBytesLatest(entries: seq<JarEntry>, className: string)
    requires className in ClassBytes(entries)
    ensures exists i ::
      && 0 <= i < |entries| && IsClassEntryFor(entries[i], className)
      && ClassBytes(entries)[className] == entries[i].bytes
      && (forall j :: i < j < |entries| ==> !IsClassEntryFor(entries[j], className))
  {
    var i := LatestClassEntry(entries, className);
  }

  /** A path is stored as a resource exactly when some entry with that path is neither a
      directory, nor a class file, nor a manifest. */
  lemma {:induction false} ResourceBytesSpec(entries: seq<JarEntry>, path: string)
    ensures path in ResourceBytes(entries) <==>
      exists i :: 0 <= i < |entries| && entries[i].name == path && ClassifyCompiled(entries[i]) == ResourceFile
  {
    if |entries| > 0 {
      var n := |entries| - 1;
      ResourceBytesSpec(entries[..n], path);
      assert forall i :: 0 <= i < n ==> entries[..n][i] == entries[i];
    }
  }

  /** The entries that are neither directories, class files nor manifests, in order. */
  function ResourceEntries(entries: seq<JarEntry>): seq<JarEntry> {
    if |entries| == 0 then []
    else
      var e := entries[|entries| - 1];
      ResourceEntries(entries[..|entries| - 1]) + (if ClassifyCompiled(e) == ResourceFile then [e] else [])
  }

  /** An entry is listed exactly when it is in the archive and is a resource entry. */
  lemma {:induction false} ResourceEntriesSpec(entries: seq<JarEntry>)
    ensures forall e :: e in ResourceEntries(entries) <==> e in entries && ClassifyCompiled(e) == ResourceFile
  {
    if |entries| > 0 {
      var n := |entries| - 1;
      ResourceEntriesSpec(entries[..n]);
      assert entries == entries[..n] + [entries[n]];
    }
  }

  /** `loadCompiledJar`: one `Existing` class per class entry and one resource per other
      entry that is not a directory or a manifest. */
  method LoadCompiledJar(file: string, entries: seq<JarEntry>) returns (r: JavaCompileResult)
    ensures r.file == file && r.submissionInfo.None? && r.sourceFiles == map[]
    ensures r.messages == [] && r.warnings == 0 && r.errors == 0 && r.other == 0
    ensures r.resources == ResourceBytes(entries)
    ensures r.compiledClasses.Keys == ClassBytes(entries).Keys
    ensures forall k :: k in r.compiledClasses ==>
      var c := r.compiledClasses[k];
      && fresh(c) && c.Valid() && c.variant == ExistingClass && c.className == k
      && c.existingBytes == ClassBytes(entries)[k] && c.source.None?
  {
    var classStorage: map<string, CompiledClass> := map[];
    var resources: map<string, seq<Byte>> := map[];
    for i := 0 to |entries|
      invariant resources == ResourceBytes(entries[..i])
      invariant classStorage.Keys == ClassBytes(entries[..i]).Keys
      invariant forall k :: k in classStorage ==>
        var c := classStorage[k];
        && fresh(c) && c.Valid() && c.variant == ExistingClass && c.className == k
        && c.existingBytes == ClassBytes(entries[..i])[k] && c.source.None?
    {
      var entry := entries[i];
      assert entries[..i + 1][..i] == entries[..i];
      var kind := ClassifyCompiled(entry);
      if kind == ClassFile {
        var className := ClassNameOf(entry.name, 6);
        var c := new CompiledClass.Existing(className, entry.bytes);
        classStorage := classStorage[className := c];
      } else if kind == ResourceFile {
        resources := resources[entry.name := entry.bytes];
      }
    }
    assert entries[..|entries|] == entries;
    r := JavaCompileResult(file, None, classStorage, map[], resources, [], 0, 0, 0);
  }

  // ---------------------------------------------------------------- loadSourcesJar: the entry scan

  /** How `loadSourcesJar` treats an entry, first matching rule first. */
  datatype SourceEntryKind = SourceDirectory | InfoFile | SourceFile | SourceManifest | OtherFile

  function ClassifySource(e: JarEntry): SourceEntryKind {
    if e.isDirectory then SourceDirectory
    else if e.name == InfoFileName then InfoFile
    else if EndsWith(e.name, ".java") then SourceFile
    else if EndsWith(e.name, "MANIFEST.MF") then SourceManifest
    else OtherFile
  }

  /** The source file record of a `.java` entry. */
  function SourceFileOf(e: JarEntry, tool: Toolchain): (f: JavaSourceFile)
    requires ClassifySource(e) == SourceFile
    ensures f.fileName == e.name && f.className == ClassNameOf(e.name, 5)
  {
    JavaSourceFile(ClassNameOf(e.name, 5), e.name, tool.readEncoded(e.bytes))
  }

  /** The outcome of the entry loop of `loadSourcesJar`: stopped at an unparsable info file
      (with the other entries met before it), or the submission info (the last one read),
      the source files by path, and the other entries in order. Each version of the loader
      does its own thing with the other entries. */
  datatype SourceScan =
    | InvalidInfo(others: seq<JarEntry>)
    | Scanned(info: Option<SubmissionInfo>, sourceFiles: map<string, JavaSourceFile>, others: seq<JarEntry>)

  function ScanSources(entries: seq<JarEntry>, tool: Toolchain): SourceScan {
    if |entries| == 0 then Scanned(None, map[], [])
    else
      var e := entries[|entries| - 1];
      match ScanSources(entries[..|entries| - 1], tool)
      case InvalidInfo(others) => InvalidInfo(others)
      case Scanned(info, sources, others) =>
        match ClassifySource(e)
        case SourceDirectory => Scanned(info, sources, others)
        case InfoFile =>
          var decoded := tool.decodeInfo(e.bytes);
          if decoded.None? then InvalidInfo(others) else Scanned(decoded, sources, others)
        case SourceFile => Scanned(info, sources[e.name := SourceFileOf(e, tool)], others)
        case SourceManifest => Scanned(info, sources, others)
        case OtherFile => Scanned(info, sources, others + [e])
  }

  predicate BadInfoEntry(e: JarEntry, tool: Toolchain) {
    ClassifySource(e) == InfoFile && tool.decodeInfo(e.bytes).None?
  }

  /** The scan stops exactly when some `submission-info.json` entry does not decode. */
  lemma {:induction false} ScanInvalidSpec(entries: seq<JarEntry>, tool: Toolchain)
    ensures ScanSources(entries, tool).InvalidInfo? <==>
      exists i :: 0 <= i < |entries| && BadInfoEntry(entries[i], tool)
  {
    if |entries| > 0 {
      var n := |entries| - 1;
      ScanInvalidSpec(entries[..n], tool);
      assert forall i :: 0 <= i < n ==> entries[..n][i] == entries[i];
    }
  }

  /** After a complete scan, the source files are keyed by the paths of exactly the
      `.java` entries, each named after its dotted path. */
  lemma {:induction false} ScannedSourcesSpec(entries: seq<JarEntry>, tool: Toolchain, path: string)
    requires ScanSources(entries, tool).Scanned?
    ensures var sources := ScanSources(entries, tool).sourceFiles;
      && (path in sources <==>
          exists i :: 0 <= i < |entries| && entries[i].name == path && ClassifySource(entries[i]) == SourceFile)
      && (path in sources ==> sources[path].fileName == path && sources[path].className == ClassNameOf(path, 5))
  {
    if |entries| > 0 {
      var n := |entries| - 1;
      ScanSourcesStep(entries, tool);
      ScannedSourcesSpec(entries[..n], tool, path);
      assert forall i :: 0 <= i < n ==> entries[..n][i] == entries[i];
    }
  }

  /** One step of a scan that has not stopped: the scan of the earlier entries had not
      stopped either, and the last entry adds itself to the sources only if it is a
      `.java` file. */
  lemma ScanSourcesStep(entries: seq<JarEntry>, tool: Toolchain)
    requires |entries| > 0 && ScanSources(entries, tool).Scanned?
    ensures var e, before := entries[|entries| - 1], ScanSources(entries[..|entries| - 1], tool);
      && before.Scanned?
      && ScanSources(entries, tool).sourceFiles ==
        if ClassifySource(e) == SourceFile then before.sourceFiles[e.name := SourceFileOf(e, tool)]
        else before.sourceFiles
  {
  }

  /** The other entries the scan collects are, in archive order, exactly the entries that
      are not directories, info files, sources or manifests (up to the stop, if any). */
  lemma {:induction false} ScannedOthersSpec(entries: seq<JarEntry>, tool: Toolchain)
    ensures ScanSources(entries, tool).Scanned? ==>
      ScanSources(entries, tool).others == OtherSourceEntries(entries)
    ensures forall e :: e in OtherSourceEntries(entries) <==> e in entries && ClassifySource(e) == OtherFile
  {
    if |entries| > 0 {
      var n := |entries| - 1;
      ScannedOthersSpec(entries[..n], tool);
      assert entries == entries[..n] + [entries[n]];
    }
  }

  /** The entries that are not directories, info files, sources or manifests, in order. */
  function OtherSourceEntries(entries: seq<JarEntry>): seq<JarEntry> {
    if |entries| == 0 then []
    else
      var e := entries[|entries| - 1];
      OtherSourceEntries(entries[..|entries| - 1]) + (if ClassifySource(e) == OtherFile then [e] else [])
  }

  /** Once the scan has stopped, later entries change nothing. */
  lemma {:induction false} InvalidPersists(entries: seq<JarEntry>, tool: Toolchain, i: nat)
    requires i <= |entries| && ScanSources(entries[..i], tool).InvalidInfo?
    ensures ScanSources(entries, tool) == ScanSources(entries[..i], tool)
    decreases |entries| - i
  {
    if i < |entries| {
      assert entries[..i + 1][..i] == entries[..i];
      InvalidPersists(entries, tool, i + 1);
    } else {
      assert entries[..i] == entries;
    }
  }

  /** The entry loop of `loadSourcesJar`, returning at once at an unparsable info file. */
  method ScanSourcesJar(entries: seq<JarEntry>, tool: Toolchain) returns (scan: SourceScan)
    ensures scan == ScanSources(entries, tool)
  {
    var info: Option<SubmissionInfo> := None;
    var sourceFiles: map<string, JavaSourceFile> := map[];
    var others: seq<JarEntry> := [];
    for i := 0 to |entries|
      invariant ScanSources(entries[..i], tool) == Scanned(info, sourceFiles, others)
    {
      var entry := entries[i];
      assert entries[..i + 1][..i] == entries[..i];
      match ClassifySource(entry)
      case SourceDirectory =>
      case InfoFile =>
        var decoded := tool.decodeInfo(entry.bytes);
        if decoded.None? {
          InvalidPersists(entries, tool, i + 1);
          return InvalidInfo(others);
        }
        info := decoded;
      case SourceFile =>
        sourceFiles := sourceFiles[entry.name := SourceFileOf(entry, tool)];
      case SourceManifest =>
      case OtherFile =>
        others := others + [entry];
    }
    assert entries[..|entries|] == entries;
    scan := Scanned(info, sourceFiles, others);
  }

  // ---------------------------------------------------------------- compilation and diagnostics

  /** The compiler run: one `Runtime` class per class the compiler emitted, holding exactly
      the bytes it wrote. */
  method RunCompiler(sourceFiles: map<string, JavaSourceFile>, runtimeClassPath: map<string, CompiledClass>, tool: Toolchain)
    returns (classes: map<string, CompiledClass>, run: CompilerRun)
    ensures run == tool.compile(sourceFiles, runtimeClassPath)
    ensures classes.Keys == run.outputs.Keys
    ensures forall k :: k in classes ==>
      var c := classes[k];
      && fresh(c) && c.Valid() && c.variant == RuntimeClass && c.className == k
      && fresh(c.outputStream) && c.ByteArray() == run.outputs[k] && c.source.None?
  {
    run := tool.compile(sourceFiles, runtimeClassPath);
    classes := map[];
    var todo := run.outputs.Keys;
    while todo != {}
      invariant todo <= run.outputs.Keys
      invariant classes.Keys == run.outputs.Keys - todo
      invariant forall k :: k in classes ==>
        var c := classes[k];
        && fresh(c) && c.Valid() && c.variant == RuntimeClass && c.className == k
        && fresh(c.outputStream) && c.ByteArray() == run.outputs[k] && c.source.None?
      decreases todo
    {
      var k :| k in todo;
      var c := new CompiledClass.Runtime(k);
      var out := c.OpenOutputStream();
      out.value.Write(run.outputs[k]);
      classes := classes[k := c];
      todo := todo - {k};
    }
  }

  /** How a diagnostic kind is counted. */
  datatype Severity = Warning | Error | Other

  function SeverityOf(k: DiagnosticKind): Severity {
    match k
    case NOTE => Warning
    case MANDATORY_WARNING => Warning
    case WARNING => Warning
    case ERROR => Error
    case OTHER => Other
  }

  /** The number of diagnostics of a severity. */
  function Count(diagnostics: seq<Diagnostic>, severity: Severity): nat {
    if |diagnostics| == 0 then 0
    else Count(diagnostics[..|diagnostics| - 1], severity)
         + (if SeverityOf(diagnostics[|diagnostics| - 1].kind) == severity then 1 else 0)
  }

  /** Every diagnostic is counted exactly once. */
  lemma {:induction false} CountsPartition(diagnostics: seq<Diagnostic>)
    ensures Count(diagnostics, Warning) + Count(diagnostics, Error) + Count(diagnostics, Other) == |diagnostics|
  {
    if |diagnostics| > 0 {
      CountsPartition(diagnostics[..|diagnostics| - 1]);
    }
  }

  /** Counting one more diagnostic adds one to its own severity only. */
  lemma CountStep(diagnostics: seq<Diagnostic>, i: nat)
    requires i < |diagnostics|
    ensures forall sev :: (Count(diagnostics[..i + 1], sev)
      == Count(diagnostics[..i], sev) + (if SeverityOf(diagnostics[i].kind) == sev then 1 else 0))
  {
    assert diagnostics[..i + 1][..i] == diagnostics[..i];
  }

  function KindName(k: DiagnosticKind): string {
    match k
    case ERROR => "ERROR"
    case WARNING => "WARNING"
    case MANDATORY_WARNING => "MANDATORY_WARNING"
    case NOTE => "NOTE"
    case OTHER => "OTHER"
  }

  /** A diagnostic's line: source name, colon, line number, space, kind, ` :: `, message; a
      missing source shows as `null`. */
  function FormatDiagnostic(d: Diagnostic): string {
    d.source.GetOr("null") + ":" + IntToString(d.lineNumber) + " " + KindName(d.kind) + " :: " + d.message
  }

  /** `f` applied to each item, in order. */
  function MapEach<A, B>(f: A -> B, xs: seq<A>): (r: seq<B>)
    ensures |r| == |xs|
  {
    if |xs| == 0 then [] else MapEach(f, xs[..|xs| - 1]) + [f(xs[|xs| - 1])]
  }

  /** Item `i` of the result is `f` of item `i`. */
  lemma {:induction false} MapEachSpec<A, B>(f: A -> B, xs: seq<A>, i: nat)
    requires i < |xs|
    ensures MapEach(f, xs)[i] == f(xs[i])
  {
    var n := |xs| - 1;
    if i < n {
      MapEachSpec(f, xs[..n], i);
    }
  }

  /** The compile result's messages: one formatted line per diagnostic, in order. */
  function Messages(diagnostics: seq<Diagnostic>): (r: seq<string>)
    ensures |r| == |diagnostics|
  {
    MapEach(FormatDiagnostic, diagnostics)
  }

  /** Line `i` of the messages is the formatted diagnostic `i`. */
  lemma MessagesSpec(diagnostics: seq<Diagnostic>, i: nat)
    requires i < |diagnostics|
    ensures Messages(diagnostics)[i] == FormatDiagnostic(diagnostics[i])
  {
    MapEachSpec(FormatDiagnostic, diagnostics, i);
  }

  /** The messages and counters of a compile result. */
  datatype DiagnosticTally = DiagnosticTally(messages: seq<string>, warnings: int, errors: int, other: int)

  /** The tally after the given diagnostics. */
  function Tallied(diagnostics: seq<Diagnostic>): DiagnosticTally {
    DiagnosticTally(Messages(diagnostics),
      Count(diagnostics, Warning), Count(diagnostics, Error), Count(diagnostics, Other))
  }

  /** A tally with one more diagnostic: its line appended and its severity counted. */
  function Added(t: DiagnosticTally, d: Diagnostic): DiagnosticTally {
    DiagnosticTally(t.messages + [FormatDiagnostic(d)],
      t.warnings + (if SeverityOf(d.kind) == Warning then 1 else 0),
      t.errors + (if SeverityOf(d.kind) == Error then 1 else 0),
      t.other + (if SeverityOf(d.kind) == Other then 1 else 0))
  }

  /** Tallying diagnostic by diagnostic gives the tally of the whole prefix. */
  lemma TalliedStep(diagnostics: seq<Diagnostic>, i: nat)
    requires i < |diagnostics|
    ensures Tallied(diagnostics[..i + 1]) == Added(Tallied(diagnostics[..i]), diagnostics[i])
  {
    CountStep(diagnostics, i);
    assert diagnostics[..i + 1][..i] == diagnostics[..i];
  }

  /** The diagnostic loop: one formatted message per diagnostic, in order, and each counted
      under its severity, so that the three counts add up to the number of messages. */
  method TallyDiagnostics(diagnostics: seq<Diagnostic>) returns (t: DiagnosticTally)
    ensures t == Tallied(diagnostics)
    ensures t.warnings + t.errors + t.other == |t.messages|
  {
    var messages: seq<string> := [];
    var warnings, errors, other := 0, 0, 0;
    for i := 0 to |diagnostics|
      invariant messages == Messages(diagnostics[..i])
      invariant warnings == Count(diagnostics[..i], Warning)
      invariant errors == Count(diagnostics[..i], Error)
      invariant other == Count(diagnostics[..i], Other)
    {
      var diag := diagnostics[i];
      CountStep(diagnostics, i);
      assert diagnostics[..i + 1][..i] == diagnostics[..i];
      match SeverityOf(diag.kind) {
        case Warning => warnings := warnings + 1;
        case Error => errors := errors + 1;
        case Other => other := other + 1;
      }
      messages := messages + [FormatDiagnostic(diag)];
    }
    assert diagnostics[..|diagnostics|] == diagnostics;
    CountsPartition(diagnostics);
    t := DiagnosticTally(messages, warnings, errors, other);
  }

  // ---------------------------------------------------------------- linkSource

  /** The package of an internal class name: everything before its last `/`, if any. */
  function PackageOf(internalName: string): (r: Option<string>)
    ensures r.None? <==> '/' !in internalName
    ensures r.Some? ==>
      && |r.value| < |internalName|
      && internalName == r.value + "/" + internalName[|r.value| + 1..]
      && '/' !in internalName[|r.value| + 1..]
  {
    var i := LastIndexOf(internalName, '/');
    if i == -1 then None
    else
      assert internalName == internalName[..i] + "/" + internalName[i + 1..];
      Some(internalName[..i])
  }

  /** The source-file path a class's `SourceFile` attribute refers to: the bare name for a
      class in the default package, otherwise the name under the package's directory. */
  function SourceKey(internalName: string, source: string): (r: string)
    ensures '/' !in internalName ==> r == source
    ensures '/' in internalName ==>
      exists k :: 0 <= k < |internalName| && internalName[k] == '/' && '/' !in internalName[k + 1..]
                  && r == internalName[..k] + "/" + source
  {
    match PackageOf(internalName)
    case None => source
    case Some(pkg) => pkg + "/" + source
  }

  /** The source link after visiting a class: unchanged without a `SourceFile` attribute,
      otherwise the source file at the attribute's path, or null if there is none there. */
  function LinkedSource(info: ClassFileInfo, sourceFiles: map<string, JavaSourceFile>, current: Option<JavaSourceFile>): Option<JavaSourceFile> {
    match info.sourceAttribute
    case None => current
    case Some(source) =>
      var key := SourceKey(info.internalName, source);
      if key in sourceFiles then Some(sourceFiles[key]) else None
  }

  /** `linkSource`: every class's source link is set from its `SourceFile` attribute. */
  method LinkSource(classes: map<string, CompiledClass>, sourceFiles: map<string, JavaSourceFile>, inspect: seq<Byte> -> ClassFileInfo)
    requires forall c :: c in classes.Values ==> c.Valid()
    modifies classes.Values
    ensures forall c :: c in classes.Values ==>
      c.source == LinkedSource(inspect(c.ByteArray()), sourceFiles, old(c.source))
  {
    var todo := classes.Values;
    while todo != {}
      invariant todo <= classes.Values
      invariant forall c :: c in classes.Values && c !in todo ==>
        c.source == LinkedSource(inspect(c.ByteArray()), sourceFiles, old(c.source))
      invariant forall c :: c in todo ==> c.source == old(c.source)
      decreases todo
    {
      var c :| c in todo;
      var info := inspect(c.ByteArray());
      if info.sourceAttribute.Some? {
        var key := SourceKey(info.internalName, info.sourceAttribute.value);
        c.SetSource(if key in sourceFiles then Some(sourceFiles[key]) else None);
      }
      todo := todo - {c};
    }
  }

  // ---------------------------------------------------------------- loadSourcesJar

  /** `loadSourcesJar`: an unparsable info file gives a bare result; no source files give a
      result with only the file and the info, without invoking the compiler; otherwise the
      sources are compiled, the classes linked to their sources and the diagnostics tallied.
      The returned resources are the caller's `resources`: the map the loop fills from the
      archive's other entries is never returned, so it is not built here. */
  method LoadSourcesJar(
    file: string,
    entries: seq<JarEntry>,
    runtimeClassPath: map<string, CompiledClass>,
    resources: map<string, seq<Byte>>,
    tool: Toolchain)
    returns (r: JavaCompileResult)
    ensures ScanSources(entries, tool).InvalidInfo? ==> r == BareResult(file, None)
    ensures ScanSources(entries, tool).Scanned? && ScanSources(entries, tool).sourceFiles == map[] ==>
      r == BareResult(file, ScanSources(entries, tool).info)
    ensures ScanSources(entries, tool).Scanned? && ScanSources(entries, tool).sourceFiles != map[] ==>
      var scan := ScanSources(entries, tool);
      var run := tool.compile(scan.sourceFiles, runtimeClassPath);
      && r.file == file && r.submissionInfo == scan.info
      && r.sourceFiles == scan.sourceFiles && r.resources == resources
      && r.compiledClasses.Keys == run.outputs.Keys
      && (forall k :: k in r.compiledClasses ==>
            var c := r.compiledClasses[k];
            && fresh(c) && c.Valid() && c.variant == RuntimeClass && c.className == k
            && c.ByteArray() == run.outputs[k]
            && c.source == LinkedSource(tool.inspect(run.outputs[k]), scan.sourceFiles, None))
      && r.messages == Messages(run.diagnostics)
      && r.warnings == Count(run.diagnostics, Warning)
      && r.errors == Count(run.diagnostics, Error)
      && r.other == Count(run.diagnostics, Other)
  {
    var scan := ScanSourcesJar(entries, tool);
    if scan.InvalidInfo? {
      return BareResult(file, None);
    }
    if scan.sourceFiles == map[] {
      // no source files, skip compilation task
      return BareResult(file, scan.info);
    }
    var compiledClasses, run := RunCompiler(scan.sourceFiles, runtimeClassPath, tool);
    LinkSource(compiledClasses, scan.sourceFiles, tool.inspect);
    var tally := TallyDiagnostics(run.diagnostics);
    if !run.success || |run.diagnostics| > 0 {
      r := JavaCompileResult(file, scan.info, compiledClasses, scan.sourceFiles, resources,
                             tally.messages, tally.warnings, tally.errors, tally.other);
    } else {
      r := JavaCompileResult(file, scan.info, compiledClasses, scan.sourceFiles, resources, [], 0, 0, 0);
    }
  }
}
