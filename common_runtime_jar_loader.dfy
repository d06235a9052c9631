/** The `common` version of the archive loader: it returns the compiled classes of a class
    archive without resources, logs a warning for every entry it does not use, and formats
    diagnostics with a non-null source file. The entry classification, the scan, the
    compiler run and the source linking are those of `RuntimeJarLoader`. */
module CommonRuntimeJarLoader {
  import opened Wrappers
  import opened Strings
  import opened Logging
  import opened CompiledClasses
  import opened RuntimeJarLoader

  /** An exception that escapes a loader call. */
  datatype Thrown = NullPointerException | StringIndexOutOfBoundsException

  /** `CompileJarResult`; arguments left out in the source take their defaults. */
  datatype CompileJarResult = CompileJarResult(
    file: string,
    submissionInfo: Option<SubmissionInfo>,
    compiledClasses: map<string, CompiledClass>,
    sourceFiles: map<string, JavaSourceFile>,
    messages: seq<string>,
    warnings: int,
    errors: int,
    other: int)

  /** `CompileJarResult(file, submissionInfo)`. */
  function BareJarResult(file: string, info: Option<SubmissionInfo>): CompileJarResult {
    CompileJarResult(file, info, map[], map[], [], 0, 0, 0)
  }

  /** The warning for an entry of the wrong kind, e.g. `"f.jar jar entry a.txt is not a
      java class file!"`. */
  function NotJavaFileWarning(file: string, entry: JarEntry, what: string): LogLine {
    WarnLine(file + " jar entry " + entry.name + " is not a java " + what + " file!")
  }

  /** The error logged when the archive's `submission-info.json` does not decode. */
  function InvalidInfoLine(file: string): LogLine {
    ErrorLine(file + " has invalid submission-info.json")
  }

  /** One warning per unused entry, in order. */
  function NotJavaFileWarnings(file: string, entries: seq<JarEntry>, what: string): (r: seq<LogLine>)
    ensures |r| == |entries|
    ensures forall i :: 0 <= i < |entries| ==> r[i] == NotJavaFileWarning(file, entries[i], what)
  {
    seq(|entries|, i requires 0 <= i < |entries| => NotJavaFileWarning(file, entries[i], what))
  }

  /** `loadCompiledJar`: the classes of the archive, as in `RuntimeJarLoader`, and a warning
      for every entry that is not a directory, a class file or a manifest, instead of
      keeping it as a resource. */
  method LoadCompiledJar(file: string, entries: seq<JarEntry>) returns (classStorage: map<string, CompiledClass>, log: seq<LogLine>)
    ensures classStorage.Keys == ClassBytes(entries).Keys
    ensures forall k :: k in classStorage ==>
      var c := classStorage[k];
      && fresh(c) && c.Valid() && c.variant == ExistingClass && c.className == k
      && c.existingBytes == ClassBytes(entries)[k] && c.source.None?
    ensures log == NotJavaFileWarnings(file, ResourceEntries(entries), "class")
  {
    classStorage := map[];
    log := [];
    for i := 0 to |entries|
      invariant log == NotJavaFileWarnings(file, ResourceEntries(entries[..i]), "class")
      invariant classStorage.Keys == ClassBytes(entries[..i]).Keys
      invariant forall k :: k in classStorage ==>
        var c := classStorage[k];
        && fresh(c) && c.Valid() && c.variant == ExistingClass && c.className == k
        && c.existingBytes == ClassBytes(entries[..i])[k] && c.source.None?
    {
      var entry := entries[i];
      assert entries[..i + 1][..i] == entries[..i];
      var kind := ClassifyCompiled(entry);
      if kind == ClassFile {
        var className := ClassNameOf(entry.name, 6);
        var c := new CompiledClass.Existing(className, entry.bytes);
        classStorage := classStorage[className := c];
      } else if kind == ResourceFile {
        log := log + [NotJavaFileWarning(file, entry, "class")];
      }
    }
    assert entries[..|entries|] == entries;
  }

  /** The diagnostic line, formatted by dereferencing the source without a null check: a
      null-pointer exception when the diagnostic has no source file (javac reports some notes without one). */
  function FormatDiagnosticStrict(d: Diagnostic): (r: Result<string, Thrown>)
    ensures r.Failure? <==> d.source.None?
    ensures r.Success? ==> r.value == FormatDiagnostic(d)
  {
    match d.source
    case None => Failure(NullPointerException)
    case Some(name) => Success(name + ":" + IntToString(d.lineNumber) + " " + KindName(d.kind) + " :: " + d.message)
  }

  /** One turn of this version's diagnostic loop: the diagnostic is counted under its
      severity and its line appended, or a null-pointer exception escapes when it has no
      source file. */
  method TallyOne(t: DiagnosticTally, diag: Diagnostic) returns (r: Result<DiagnosticTally, Thrown>)
    ensures r.Failure? <==> diag.source.None?
    ensures r.Failure? ==> r.error == NullPointerException
    ensures r.Success? ==> r.value == Added(t, diag)
  {
    var warnings, errors, other := t.warnings, t.errors, t.other;
    match SeverityOf(diag.kind) {
      case Warning => warnings := warnings + 1;
      case Error => errors := errors + 1;
      case Other => other := other + 1;
    }
    var line := FormatDiagnosticStrict(diag);
    if line.Failure? {
      return Failure(line.error);
    }
    r := Success(DiagnosticTally(t.messages + [line.value], warnings, errors, other));
  }

  /** Whether some diagnostic has no source file. */
  predicate SomeSourceless(diagnostics: seq<Diagnostic>) {
    exists i :: 0 <= i < |diagnostics| && diagnostics[i].source.None?
  }

  /** A longer prefix has a diagnostic without a source file when the shorter one has or
      the added diagnostic has none. */
  lemma SomeSourcelessStep(diagnostics: seq<Diagnostic>, i: nat)
    requires i < |diagnostics|
    ensures SomeSourceless(diagnostics[..i + 1]) <==> SomeSourceless(diagnostics[..i]) || diagnostics[i].source.None?
  {
    var before, after := diagnostics[..i], diagnostics[..i + 1];
    assert forall j :: 0 <= j < i ==> after[j] == before[j];
    if diagnostics[i].source.None? {
      assert after[i].source.None?;
    }
  }

  /** The diagnostic loop of this version: it throws at the first diagnostic without a
      source file; otherwise its result is that of `RuntimeJarLoader`'s loop. */
  method TallyDiagnosticsStrict(diagnostics: seq<Diagnostic>) returns (r: Result<DiagnosticTally, Thrown>)
    ensures r.Failure? <==> SomeSourceless(diagnostics)
    ensures r.Failure? ==> r.error == NullPointerException
    ensures r.Success? ==> r.value == Tallied(diagnostics)
  {
    var t := DiagnosticTally([], 0, 0, 0);
    for i := 0 to |diagnostics|
      invariant t == Tallied(diagnostics[..i])
      invariant !SomeSourceless(diagnostics[..i])
    {
      TalliedStep(diagnostics, i);
      SomeSourcelessStep(diagnostics, i);
      var next := TallyOne(t, diagnostics[i]);
      if next.Failure? {
        assert SomeSourceless(diagnostics) by {
          assert diagnostics[i].source.None?;
        }
        return next;
      }
      t := next.value;
    }
    assert diagnostics[..|diagnostics|] == diagnostics;
    r := Success(t);
  }

  /** A diagnostic without a source file, e.g. javac's note about unchecked operations,
      makes the strict loop throw, while `RuntimeJarLoader`'s loop formats it with `null`. */
  lemma SourcelessDiagnosticThrows(message: string)
    ensures var d := Diagnostic(None, -1, NOTE, message);
      && FormatDiagnosticStrict(d) == Failure(NullPointerException)
      && FormatDiagnostic(d) == "null:-1 NOTE :: " + message
  {
    var d := Diagnostic(None, -1, NOTE, message);
    assert IntToString(-1) == "-1";
  }

  /** `loadSourcesJar`: as in `RuntimeJarLoader`, except that unused entries are logged
      rather than collected, the result carries no resources, and a diagnostic without a
      source file makes the call throw. */
  method LoadSourcesJar(
    file: string,
    entries: seq<JarEntry>,
    runtimeClassPath: map<string, CompiledClass>,
    tool: Toolchain)
    returns (r: Result<CompileJarResult, Thrown>, log: seq<LogLine>)
    ensures log == NotJavaFileWarnings(file, ScanSources(entries, tool).others, "source")
      + (if ScanSources(entries, tool).InvalidInfo? then [InvalidInfoLine(file)] else [])
    ensures ScanSources(entries, tool).InvalidInfo? ==> r == Success(BareJarResult(file, None))
    ensures ScanSources(entries, tool).Scanned? && ScanSources(entries, tool).sourceFiles == map[] ==>
      r == Success(BareJarResult(file, ScanSources(entries, tool).info))
    ensures ScanSources(entries, tool).Scanned? && ScanSources(entries, tool).sourceFiles != map[] ==>
      var scan := ScanSources(entries, tool);
      var run := tool.compile(scan.sourceFiles, runtimeClassPath);
      && (r.Failure? <==> SomeSourceless(run.diagnostics))
      && (r.Failure? ==> r.error == NullPointerException)
      && (r.Success? ==>
        && r.value.file == file && r.value.submissionInfo == scan.info
        && r.value.sourceFiles == scan.sourceFiles
        && r.value.compiledClasses.Keys == run.outputs.Keys
        && (forall k :: k in r.value.compiledClasses ==>
              var c := r.value.compiledClasses[k];
              && fresh(c) && c.Valid() && c.variant == RuntimeClass && c.className == k
              && c.ByteArray() == run.outputs[k]
              && c.source == LinkedSource(tool.inspect(run.outputs[k]), scan.sourceFiles, None))
        && r.value.messages == Messages(run.diagnostics)
        && r.value.warnings == Count(run.diagnostics, Warning)
        && r.value.errors == Count(run.diagnostics, Error)
        && r.value.other == Count(run.diagnostics, Other))
  {
    var scan := ScanSourcesJar(entries, tool);
    log := NotJavaFileWarnings(file, scan.others, "source");
    if scan.InvalidInfo? {
      log := log + [InvalidInfoLine(file)];
      return Success(BareJarResult(file, None)), log;
    }
    if scan.sourceFiles == map[] {
      // no source files, skip compilation task
      return Success(BareJarResult(file, scan.info)), log;
    }
    var compiledClasses, run := RunCompiler(scan.sourceFiles, runtimeClassPath, tool);
    LinkSource(compiledClasses, scan.sourceFiles, tool.inspect);
    if !run.success || |run.diagnostics| > 0 {
      var tally := TallyDiagnosticsStrict(run.diagnostics);
      if tally.Failure? {
        return Failure(tally.error), log;
      }
      r := Success(CompileJarResult(file, scan.info, compiledClasses, scan.sourceFiles,
                                    tally.value.messages, tally.value.warnings, tally.value.errors, tally.value.other));
    } else {
      r := Success(CompileJarResult(file, scan.info, compiledClasses, scan.sourceFiles, [], 0, 0, 0));
    }
  }

  /** `printMessages`: with errors, the error header and then every message at error level;
      otherwise, with warnings, the warning header and every message at warning level;
      otherwise nothing. The headers are the values of the lazily built strings. */
  function PrintMessages(r: CompileJarResult, lazyError: string, lazyWarning: string): (log: seq<LogLine>)
    ensures r.errors > 0 ==> log == [ErrorLine(lazyError)] + AllError(r.messages)
    ensures r.errors <= 0 && r.warnings > 0 ==> log == [WarnLine(lazyWarning)] + AllWarn(r.messages)
    ensures r.errors <= 0 && r.warnings <= 0 ==> log == []
    ensures |log| == 0 || |log| == |r.messages| + 1
  {
    if r.errors > 0 then [ErrorLine(lazyError)] + AllError(r.messages)
    else if r.warnings > 0 then [WarnLine(lazyWarning)] + AllWarn(r.messages)
    else []
  }

  /** `copyWith`: each given argument replaces its field, each omitted (null) one keeps it. */
  function CopyWith(
    r: CompileJarResult,
    file: Option<string> := None,
    submissionInfo: Option<SubmissionInfo> := None,
    compiledClasses: Option<map<string, CompiledClass>> := None,
    sourceFiles: Option<map<string, JavaSourceFile>> := None,
    messages: Option<seq<string>> := None,
    warnings: Option<int> := None,
    errors: Option<int> := None,
    other: Option<int> := None): (c: CompileJarResult)
    ensures (&& file.None? && submissionInfo.None? && compiledClasses.None? && sourceFiles.None?
             && messages.None? && warnings.None? && errors.None? && other.None?) ==> c == r
    ensures file.Some? ==> c.file == file.value
    ensures file.None? ==> c.file == r.file
    ensures submissionInfo.Some? ==> c.submissionInfo == submissionInfo
    ensures submissionInfo.None? ==> c.submissionInfo == r.submissionInfo
    ensures compiledClasses.Some? ==> c.compiledClasses == compiledClasses.value
    ensures compiledClasses.None? ==> c.compiledClasses == r.compiledClasses
    ensures sourceFiles.Some? ==> c.sourceFiles == sourceFiles.value
    ensures sourceFiles.None? ==> c.sourceFiles == r.sourceFiles
    ensures messages.Some? ==> c.messages == messages.value
    ensures messages.None? ==> c.messages == r.messages
    ensures warnings.Some? ==> c.warnings == warnings.value
    ensures warnings.None? ==> c.warnings == r.warnings
    ensures errors.Some? ==> c.errors == errors.value
    ensures errors.None? ==> c.errors == r.errors
    ensures other.Some? ==> c.other == other.value
    ensures other.None? ==> c.other == r.other
    ensures r.submissionInfo.Some? ==> c.submissionInfo.Some?
  {
    CompileJarResult(
      file.GetOr(r.file),
      if submissionInfo.Some? then submissionInfo else r.submissionInfo,
      compiledClasses.GetOr(r.compiledClasses),
      sourceFiles.GetOr(r.sourceFiles),
      messages.GetOr(r.messages),
      warnings.GetOr(r.warnings),
      errors.GetOr(r.errors),
      other.GetOr(r.other))
  }
}
