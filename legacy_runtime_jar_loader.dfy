/** The older `jagrkt` version of the archive loader. Its class-archive loading, entry
    scan, compiler run and diagnostic loop are those of the `common` version; it differs in
    how the entry scan turns a source entry's bytes into text (the source file is built from
    the raw input stream, not through `readEncoded`), in how it finds a class's package when
    linking sources, and in logging only the header when there are warnings but no errors. */
module LegacyRuntimeJarLoader {
  import opened Wrappers
  import opened Logging
  import opened CompiledClasses
  import opened RuntimeJarLoader
  import opened CommonRuntimeJarLoader

  /** The package as this version computes it, cutting the internal name at its last `/`
      without checking that there is one: a string-index exception for a class in the
      default package. */
  function PackageNameOf(internalName: string): (r: Result<string, Thrown>)
    ensures r.Failure? <==> '/' !in internalName
    ensures r.Failure? ==> r.error == StringIndexOutOfBoundsException
    ensures r.Success? ==> PackageOf(internalName) == Some(r.value)
  {
    var i := Strings.LastIndexOf(internalName, '/');
    if i < 0 then Failure(StringIndexOutOfBoundsException) else Success(internalName[..i])
  }

  /** The source link this version sets for a class whose package it could compute. */
  function LegacyLinkedSource(info: ClassFileInfo, sourceFiles: map<string, JavaSourceFile>, current: Option<JavaSourceFile>): Option<JavaSourceFile>
    requires PackageNameOf(info.internalName).Success?
  {
    match info.sourceAttribute
    case None => current
    case Some(source) =>
      var key := PackageNameOf(info.internalName).value + "/" + source;
      if key in sourceFiles then Some(sourceFiles[key]) else None
  }

  /** For a class in a named package both versions link the same source. */
  lemma LegacyLinkAgrees(info: ClassFileInfo, sourceFiles: map<string, JavaSourceFile>, current: Option<JavaSourceFile>)
    requires '/' in info.internalName
    ensures LegacyLinkedSource(info, sourceFiles, current) == LinkedSource(info, sourceFiles, current)
  {
    var pkg := PackageNameOf(info.internalName).value;
    assert PackageOf(info.internalName) == Some(pkg);
  }

  /** A class `Main` in the default package with `SourceFile` attribute `Main.java`: this
      version throws while computing its package, whereas `RuntimeJarLoader` looks the
      source up under `Main.java`. */
  lemma DefaultPackageClassThrows()
    ensures PackageNameOf("Main") == Failure(StringIndexOutOfBoundsException)
    ensures SourceKey("Main", "Main.java") == "Main.java"
  {
    assert '/' !in "Main";
  }

  /** `linkSource` of this version: classes are visited in some order; the first class in
      the default package makes it throw, leaving the classes visited before it linked and
      the others untouched. */
  method LinkSource(classes: map<string, CompiledClass>, sourceFiles: map<string, JavaSourceFile>, inspect: seq<Byte> -> ClassFileInfo)
    returns (thrown: Option<Thrown>)
    requires forall c :: c in classes.Values ==> c.Valid()
    modifies classes.Values
    ensures thrown.None? <==> forall c :: c in classes.Values ==> '/' in inspect(c.ByteArray()).internalName
    ensures thrown.Some? ==> thrown.value == StringIndexOutOfBoundsException
    ensures thrown.None? ==> forall c :: c in classes.Values ==>
      c.source == LinkedSource(inspect(c.ByteArray()), sourceFiles, old(c.source))
    ensures forall c :: c in classes.Values ==>
      c.source == old(c.source) || c.source == LinkedSource(inspect(c.ByteArray()), sourceFiles, old(c.source))
  {
    var todo := classes.Values;
    while todo != {}
      invariant todo <= classes.Values
      invariant forall c :: c in classes.Values && c !in todo ==>
        && '/' in inspect(c.ByteArray()).internalName
        && c.source == LinkedSource(inspect(c.ByteArray()), sourceFiles, old(c.source))
      invariant forall c :: c in todo ==> c.source == old(c.source)
      decreases todo
    {
      var c :| c in todo;
      var info := inspect(c.ByteArray());
      var packageName := PackageNameOf(info.internalName);
      if packageName.Failure? {
        assert c in classes.Values && '/' !in inspect(c.ByteArray()).internalName;
        return Some(packageName.error);
      }
      ghost var before := c.source;
      if info.sourceAttribute.Some? {
        var key := packageName.value + "/" + info.sourceAttribute.value;
        c.SetSource(if key in sourceFiles then Some(sourceFiles[key]) else None);
      }
      assert c.source == LinkedSource(info, sourceFiles, before) by {
        LegacyLinkAgrees(info, sourceFiles, before);
      }
      todo := todo - {c};
    }
    thrown := None;
  }

  /** Some class, by value, is in the default package exactly when the bytes of some
      class, by key, describe a class in the default package. */
  lemma DefaultPackageByKey(classes: map<string, CompiledClass>, outputs: map<string, seq<Byte>>, inspect: seq<Byte> -> ClassFileInfo)
    requires classes.Keys == outputs.Keys
    requires forall k :: k in classes ==> classes[k].Valid() && classes[k].ByteArray() == outputs[k]
    ensures (forall c :: c in classes.Values ==> '/' in inspect(c.ByteArray()).internalName)
      <==> !exists k :: k in outputs && '/' !in inspect(outputs[k]).internalName
  {
    if exists k :: k in outputs && '/' !in inspect(outputs[k]).internalName {
      var k :| k in outputs && '/' !in inspect(outputs[k]).internalName;
      assert classes[k] in classes.Values;
    }
  }

  /** `linkSource` on freshly compiled classes, stated class name by class name: it throws
      exactly when some compiled class is in the default package, and otherwise links
      every class to the source its package and `SourceFile` attribute name. */
  method LinkCompiled(
    classes: map<string, CompiledClass>,
    outputs: map<string, seq<Byte>>,
    sourceFiles: map<string, JavaSourceFile>,
    inspect: seq<Byte> -> ClassFileInfo)
    returns (thrown: Option<Thrown>)
    requires classes.Keys == outputs.Keys
    requires forall k :: k in classes ==>
      classes[k].Valid() && classes[k].ByteArray() == outputs[k] && classes[k].source.None?
    modifies classes.Values
    ensures thrown.None? <==> !exists k :: k in outputs && '/' !in inspect(outputs[k]).internalName
    ensures thrown.Some? ==> thrown.value == StringIndexOutOfBoundsException
    ensures thrown.None? ==> forall k :: k in classes ==>
      classes[k].source == LinkedSource(inspect(outputs[k]), sourceFiles, None)
  {
    thrown := LinkSource(classes, sourceFiles, inspect);
    DefaultPackageByKey(classes, outputs, inspect);
    if thrown.None? {
      forall k | k in classes
        ensures classes[k].source == LinkedSource(inspect(outputs[k]), sourceFiles, None)
      {
        assert classes[k] in classes.Values;
      }
    }
  }

  /** The entry scan of this version: that of the `common` version with the source texts
      decoded by `readStream`. */
  function LegacyScan(entries: seq<JarEntry>, tool: Toolchain, readStream: seq<Byte> -> string): SourceScan {
    ScanSources(entries, tool.(readEncoded := readStream))
  }

  /** The two scans differ only in the source texts: they stop at the same entry, keep the
      same submission info and other entries, and key and name the same source files. */
  lemma {:induction false} LegacyScanAgrees(entries: seq<JarEntry>, tool: Toolchain, readStream: seq<Byte> -> string)
    ensures var legacy, common := LegacyScan(entries, tool, readStream), ScanSources(entries, tool);
      && legacy.InvalidInfo? == common.InvalidInfo?
      && legacy.others == common.others
      && (legacy.Scanned? ==>
        && legacy.info == common.info
        && legacy.sourceFiles.Keys == common.sourceFiles.Keys
        && forall k :: k in legacy.sourceFiles ==>
             && legacy.sourceFiles[k].className == common.sourceFiles[k].className
             && legacy.sourceFiles[k].fileName == common.sourceFiles[k].fileName)
  {
    if |entries| > 0 {
      LegacyScanAgrees(entries[..|entries| - 1], tool, readStream);
    }
  }

  /** `loadSourcesJar` of this version: that of the `common` version, except that source
      texts are decoded by `readStream`, the source file's own reading of the entry's input
      stream (supplied), and that a compiled class in the default package makes the call
      throw before any diagnostic is looked at. */
  method LoadSourcesJar(
    file: string,
    entries: seq<JarEntry>,
    runtimeClassPath: map<string, CompiledClass>,
    tool: Toolchain,
    readStream: seq<Byte> -> string)
    returns (r: Result<CompileJarResult, Thrown>, log: seq<LogLine>)
    ensures log == NotJavaFileWarnings(file, LegacyScan(entries, tool, readStream).others, "source")
      + (if LegacyScan(entries, tool, readStream).InvalidInfo? then [InvalidInfoLine(file)] else [])
    ensures LegacyScan(entries, tool, readStream).InvalidInfo? ==> r == Success(BareJarResult(file, None))
    ensures LegacyScan(entries, tool, readStream).Scanned? && LegacyScan(entries, tool, readStream).sourceFiles == map[] ==>
      r == Success(BareJarResult(file, LegacyScan(entries, tool, readStream).info))
    ensures LegacyScan(entries, tool, readStream).Scanned? && LegacyScan(entries, tool, readStream).sourceFiles != map[] ==>
      var info, sourceFiles := LegacyScan(entries, tool, readStream).info, LegacyScan(entries, tool, readStream).sourceFiles;
      var run := tool.compile(sourceFiles, runtimeClassPath);
      var defaultPackageClass := exists k :: k in run.outputs && '/' !in tool.inspect(run.outputs[k]).internalName;
      var sourcelessDiagnostic := SomeSourceless(run.diagnostics);
      && (r.Failure? <==> defaultPackageClass || sourcelessDiagnostic)
      && (r.Failure? ==> r.error == if defaultPackageClass then StringIndexOutOfBoundsException else NullPointerException)
      && (r.Success? ==>
        && r.value.file == file && r.value.submissionInfo == info
        && r.value.sourceFiles == sourceFiles
        && r.value.compiledClasses.Keys == run.outputs.Keys
        && (forall k :: k in r.value.compiledClasses ==>
              var c := r.value.compiledClasses[k];
              && fresh(c) && c.Valid() && c.variant == RuntimeClass && c.className == k
              && c.ByteArray() == run.outputs[k]
              && c.source == LinkedSource(tool.inspect(run.outputs[k]), sourceFiles, None))
        && r.value.messages == Messages(run.diagnostics)
        && r.value.warnings == Count(run.diagnostics, Warning)
        && r.value.errors == Count(run.diagnostics, Error)
        && r.value.other == Count(run.diagnostics, Other))
  {
    var scan := ScanSourcesJar(entries, tool.(readEncoded := readStream));
    log := NotJavaFileWarnings(file, scan.others, "source");
    if scan.InvalidInfo? {
      log := log + [InvalidInfoLine(file)];
      return Success(BareJarResult(file, None)), log;
    }
    if scan.sourceFiles == map[] {
      // no source files, skip compilation task
      return Success(BareJarResult(file, scan.info)), log;
    }
    r := CompileSources(file, scan.info, scan.sourceFiles, runtimeClassPath, tool);
  }

  /** The compile step of `loadSourcesJar`: compile, link the classes to their sources,
      then tally the diagnostics. */
  method CompileSources(
    file: string,
    info: Option<SubmissionInfo>,
    sourceFiles: map<string, JavaSourceFile>,
    runtimeClassPath: map<string, CompiledClass>,
    tool: Toolchain)
    returns (r: Result<CompileJarResult, Thrown>)
    ensures
      var run := tool.compile(sourceFiles, runtimeClassPath);
      var defaultPackageClass := exists k :: k in run.outputs && '/' !in tool.inspect(run.outputs[k]).internalName;
      var sourcelessDiagnostic := SomeSourceless(run.diagnostics);
      && (r.Failure? <==> defaultPackageClass || sourcelessDiagnostic)
      && (r.Failure? ==> r.error == if defaultPackageClass then StringIndexOutOfBoundsException else NullPointerException)
      && (r.Success? ==>
        && r.value.file == file && r.value.submissionInfo == info
        && r.value.sourceFiles == sourceFiles
        && r.value.compiledClasses.Keys == run.outputs.Keys
        && (forall k :: k in r.value.compiledClasses ==>
              var c := r.value.compiledClasses[k];
              && fresh(c) && c.Valid() && c.variant == RuntimeClass && c.className == k
              && c.ByteArray() == run.outputs[k]
              && c.source == LinkedSource(tool.inspect(run.outputs[k]), sourceFiles, None))
        && r.value.messages == Messages(run.diagnostics)
        && r.value.warnings == Count(run.diagnostics, Warning)
        && r.value.errors == Count(run.diagnostics, Error)
        && r.value.other == Count(run.diagnostics, Other))
  {
    var compiledClasses, run := RunCompiler(sourceFiles, runtimeClassPath, tool);
    var thrown := LinkCompiled(compiledClasses, run.outputs, sourceFiles, tool.inspect);
    if thrown.Some? {
      return Failure(thrown.value);
    }
    if !run.success || |run.diagnostics| > 0 {
      var tally := TallyDiagnosticsStrict(run.diagnostics);
      if tally.Failure? {
        return Failure(tally.error);
      }
      r := Success(CompileJarResult(file, info, compiledClasses, sourceFiles,
                                    tally.value.messages, tally.value.warnings, tally.value.errors, tally.value.other));
    } else {
      r := Success(CompileJarResult(file, info, compiledClasses, sourceFiles, [], 0, 0, 0));
    }
  }

  /** `printMessages` of this version: with errors, the error header and every message at
      error level; otherwise, with warnings, only the warning header; otherwise nothing. */
  function PrintMessages(r: CompileJarResult, lazyError: string, lazyWarning: string): (log: seq<LogLine>)
    ensures r.errors > 0 ==> log == CommonRuntimeJarLoader.PrintMessages(r, lazyError, lazyWarning)
    ensures r.errors <= 0 && r.warnings > 0 ==> log == [WarnLine(lazyWarning)]
    ensures r.errors <= 0 && r.warnings <= 0 ==> log == []
    ensures |log| <= |CommonRuntimeJarLoader.PrintMessages(r, lazyError, lazyWarning)|
  {
    if r.errors > 0 then [ErrorLine(lazyError)] + AllError(r.messages)
    else if r.warnings > 0 then [WarnLine(lazyWarning)]
    else []
  }
}
