# Jagr grading pipeline — a verified model of its core

Jagr grades student Java submissions. Graders are bundles of rubric providers and JUnit
tests. Submissions and graders arrive as archives. These are compiled at run time,
graded criterion by criterion, and exported as HTML or CSV reports. This project models
the sequential core of that pipeline in Dafny and proves what each part promises:

- **The grading queue** (`grading_queue.dfy`, module `GradingQueue`).
  - Construction drops graders with compile errors and submissions without submission info.
  - A submission's transformer chain holds verification, then the common transformer,
    then the transformers of every grader that has a rubric provider for the submission's
    assignment.
  - `next()` hands out each kept submission once, in list order. After that the queue is
    finished once and for all.
  - The class `GradingQueue` holds the cursor, `remaining` and `finishedUtc`. `Next` is
    proved against a step function, and `RunFromInitial` states what any number of calls
    does.
- **The test-aware grader** (`test_aware_grader.dfy`).
  - The must-pass requirements are checked first, then the must-fail ones. The first
    check that fails returns the fallback grader's result, with the mismatch comments in
    requirement order and the general comment last. Only when both checks hold is the
    passed grader's result returned, unchanged.
  - Throwables are rendered as comments by the source's rules.
  - The local `must` loop is the method `Must`.
- **Grader bundles** (`grader_jar.dfy`, module `GraderJars`).
  - Construction fails without grader info, or when a source file is declared neither as
    a grader file nor as a solution file.
  - The copy of the bundle without solution files is modelled.
  - The assignment-id indexes of rubric providers and test classes are built by the class
    loop (`putIfRubric`, `putIfTest`). Reflection is replaced by one `ClassDescriptor` per
    class.
- **Compiled classes** (`compiled_class.dfy`).
  - An `Existing` class has fixed bytes.
  - A `Runtime` class has an append-only output buffer that every `openOutputStream()`
    call hands out again.
  - Each has a mutable source link.
- **The three archive loaders.**
  - `runtime_jar_loader.dfy` is the `core` version, `common_runtime_jar_loader.dfy` the
    `common` one and `legacy_runtime_jar_loader.dfy` the `jagrkt-common` one.
  - Entries are classified and class names derived.
  - An unparsable `submission-info.json` returns early, and so does an archive with no
    sources.
  - Compiler diagnostics are tallied into warnings, errors and other, and each is
    formatted as a message.
  - `linkSource` looks up each compiled class's source by package and `SourceFile`
    attribute.
  - The archive reader, JSON decoder, charset detection, `javac` and the bytecode reader
    are a `Toolchain` of supplied functions.
- **The report exporters.**
  - `html_exporter.dfy` models the `StringBuilder`, the escaping rules, the row colours,
    the comment cells, and the cell and criterion counters, which persist across exports.
  - `csv_exporter.dfy` models the `BufferedWriter`, the tab-separated row layout, and a
    read-back lemma showing the file parses into exactly the intended rows.
- Shared helpers: `wrappers.dfy` (Option/Result), `strings.dfy` (replace, index, join,
  split, number formatting), `logging.dfy` (log lines), `sequences.dfy` (regrouping of
  appends) and `rubric.dfy` (graded rubric tree, `GradeResult`).

Log output is modelled as the sequence of lines a call writes. Clocks are parameters.

## Model

Source paths are relative to the repository root.

| member | source | states |
|---|---|---|
| GradingQueue.KeptGraders | core/src/main/kotlin/org/sourcegrade/jagr/core/executor/GradingQueueImpl.kt:69-73 | a grader is kept exactly when its compile result has no errors; never more graders than candidates |
| GradingQueue.KeptSubmissions | core/src/main/kotlin/org/sourcegrade/jagr/core/executor/GradingQueueImpl.kt:87-97 | a submission is kept exactly when it has submission info, paired with that info; never more than candidates |
| GradingQueue.KeptGradersAppend | core/src/main/kotlin/org/sourcegrade/jagr/core/executor/GradingQueueImpl.kt:69-73 | the kept graders of two runs of candidates are those of the first run followed by those of the second, and one candidate is kept, as its bundle, exactly when it compiled without errors: each error-free candidate is kept once, in candidate order |
| GradingQueue.KeptSubmissionsAppend | core/src/main/kotlin/org/sourcegrade/jagr/core/executor/GradingQueueImpl.kt:87-97 | the kept submissions of two runs of candidates are those of the first run followed by those of the second, and one candidate is kept, paired with its info, exactly when it has submission info: each such candidate is kept once, in candidate order |
| GradingQueue.SkippedLogAppend | core/src/main/kotlin/org/sourcegrade/jagr/core/executor/GradingQueueImpl.kt:90-94 | a candidate without submission info logs the error line "`<name>` does not have a submission-info.json! Skipping...", a candidate with info logs nothing, and the lines of a run of candidates come in candidate order |
| GradingQueue.KeptOrSkipped | core/src/main/kotlin/org/sourcegrade/jagr/core/executor/GradingQueueImpl.kt:87-97 | every submission candidate is either kept or logged as skipped, never both |
| GradingQueue.SubmissionTransformers | core/src/main/kotlin/org/sourcegrade/jagr/core/executor/GradingQueueImpl.kt:75-85 | the chain begins with submission verification, then the common transformer |
| GradingQueue.GraderTransformersEmpty | core/src/main/kotlin/org/sourcegrade/jagr/core/executor/GradingQueueImpl.kt:81-85 | graders that do not apply contribute no transformer |
| GradingQueue.NoApplicableGrader | core/src/main/kotlin/org/sourcegrade/jagr/core/executor/GradingQueueImpl.kt:75-85 | a submission no grader applies to gets only verification and the common transformer |
| GradingQueue.ApplicableGraderIncluded | core/src/main/kotlin/org/sourcegrade/jagr/core/executor/GradingQueueImpl.kt:81-85 | every transformer of a grader with a rubric provider for the submission's assignment id is in the chain |
| GradingQueue.OnlyApplicableGraders | core/src/main/kotlin/org/sourcegrade/jagr/core/executor/GradingQueueImpl.kt:81-85 | every grader-contributed transformer in the chain comes from a grader with a rubric provider for that assignment id |
| GradingQueue.RunFromInitial | core/src/main/kotlin/org/sourcegrade/jagr/core/executor/GradingQueueImpl.kt:99-125 | after any number of calls on a fresh queue: call k returns submission k while there is one, then null, so each goes out once in list order; `remaining` = total − handed out, never negative, zero after `total` requests; finished exactly when a call found the list exhausted, with the time of the first such call, never reassigned |
| GradingQueue.GradingQueue.constructor | core/src/main/kotlin/org/sourcegrade/jagr/core/executor/GradingQueueImpl.kt:60-112 | graders and submissions are the kept ones; grader libraries are the base ones plus the libraries only graders get; `total` is the number of kept submissions; `remaining == total`; not finished; the construction log is the skip line of each submission candidate without info, in order |
| GradingQueue.GradingQueue.Next | core/src/main/kotlin/org/sourcegrade/jagr/core/executor/GradingQueueImpl.kt:114-128 | one step: a request for the next submission (with the graders and both libraries) and `remaining` one lower; at the end of the list the finish time is set and null returned; once finished, null and nothing changes; the queue invariant is kept |
| TestAwareGrader.Message | jagrkt-common/src/main/kotlin/org/jagrkt/common/rubric/grader/TestAwareGraderImpl.kt:63-74 | a result has a message exactly when it has a throwable |
| TestAwareGrader.MessageSpec | jagrkt-common/src/main/kotlin/org/jagrkt/common/rubric/grader/TestAwareGraderImpl.kt:63-74 | an assertion failure's message has every `<` made `[` and every `>` made `]`, so it has no angle bracket; a null-pointer exception renders as `Name: msg @ frame`; anything else as `Name: msg` (null parts shown as `null`) |
| TestAwareGrader.MustStep | jagrkt-common/src/main/kotlin/org/jagrkt/common/rubric/grader/TestAwareGraderImpl.kt:44-51 | one more requirement appends its comment and adds its mismatch, if any |
| TestAwareGrader.Must | jagrkt-common/src/main/kotlin/org/jagrkt/common/rubric/grader/TestAwareGraderImpl.kt:41-57 | a result exactly when some requirement's test is absent or has the wrong status; it is then the failed grader's result with the mismatch comments in requirement order, followed by `commentIfFailed` if set |
| TestAwareGrader.Grade | jagrkt-common/src/main/kotlin/org/jagrkt/common/rubric/grader/TestAwareGraderImpl.kt:39-61 | no JUnit result gives `ofNone()`; a must-pass mismatch gives the failed grader's result with the must-pass comments (must-fail is not looked at); otherwise a must-fail mismatch gives it with the must-fail comments; otherwise exactly the passed grader's result |
| TestAwareGrader.MismatchCommentsAppend | jagrkt-common/src/main/kotlin/org/jagrkt/common/rubric/grader/TestAwareGraderImpl.kt:44-50 | the comments of consecutive requirement lists concatenate, so they follow iteration order |
| TestAwareGrader.NoMismatchNoComments | jagrkt-common/src/main/kotlin/org/jagrkt/common/rubric/grader/TestAwareGraderImpl.kt:44-51 | requirements that all hold contribute no comment |
| TestAwareGrader.ConfiguredCommentsOverride | jagrkt-common/src/main/kotlin/org/jagrkt/common/rubric/grader/TestAwareGraderImpl.kt:48-49 | when every requirement has a configured comment: one comment per violated requirement, and every comment is the configured comment of a violated requirement, whatever the throwable says |
| Rubric.WithComments | jagrkt-common/src/main/kotlin/org/jagrkt/common/rubric/grader/TestAwareGraderImpl.kt:55 | the same points, the grade's own comments and then the given ones |
| GraderJars.WithoutSolution | core/src/main/kotlin/org/sourcegrade/jagr/core/testing/GraderJarImpl.kt:65-75 | the copy keeps the container's name and grader info and never gains a source file or class |
| GraderJars.WithoutSolutionSpec | core/src/main/kotlin/org/sourcegrade/jagr/core/testing/GraderJarImpl.kt:65-75 | exactly the source files, source resources and runtime resources keyed by a grader file are kept; exactly the classes whose linked source's file name is a grader file are kept (no link, dropped); each with its original value |
| GraderJars.SolutionFilesRemoved | core/src/main/kotlin/org/sourcegrade/jagr/core/testing/GraderJarImpl.kt:62-75 | a file declared only as a solution file is in none of the copy's maps and is the source of none of its classes |
| GraderJars.IndexSpec | core/src/main/kotlin/org/sourcegrade/jagr/core/testing/GraderJarImpl.kt:86-90 | an id is a key of an index exactly when some class is recorded under it, and then maps to the non-empty list of those classes' names in class order |
| GraderJars.NamesForSpec | core/src/main/kotlin/org/sourcegrade/jagr/core/testing/GraderJarImpl.kt:114-119 | a name is listed under an id exactly when a class of that name is recorded under that id |
| GraderJars.RubricProvidersInstantiable | core/src/main/kotlin/org/sourcegrade/jagr/core/testing/GraderJarImpl.kt:95-115 | every listed rubric provider is annotated for that id, implements `RubricProvider` and has a no-args constructor |
| GraderJars.PutIfRubric | core/src/main/kotlin/org/sourcegrade/jagr/core/testing/GraderJarImpl.kt:95-115 | an annotated provider with a no-args constructor is appended under its id with a discovery line logged; a class not implementing the interface, or one without that constructor, is skipped with its error line; a throwing constructor is signalled to the caller; unannotated classes change nothing and log nothing |
| GraderJars.RubricLog | core/src/main/kotlin/org/sourcegrade/jagr/core/testing/GraderJarImpl.kt:95-115 | `putIfRubric` logs at most one line for a class, and none exactly when the class is not annotated or its provider constructor throws |
| GraderJars.ClassesLogAnnounces | core/src/main/kotlin/org/sourcegrade/jagr/core/testing/GraderJarImpl.kt:86-115 | the class loop's log holds the discovery line of every rubric provider it records, and the error line of every annotated class that is not a rubric provider or has no no-args constructor |
| GraderJars.ClassesLogFrom | core/src/main/kotlin/org/sourcegrade/jagr/core/testing/GraderJarImpl.kt:86-115 | every line of the class loop's log is the line `putIfRubric` logs for one of the classes |
| GraderJars.PutIfTest | core/src/main/kotlin/org/sourcegrade/jagr/core/testing/GraderJarImpl.kt:117-120 | a test-annotated class is appended under its id; others change nothing |
| GraderJars.PutClass | core/src/main/kotlin/org/sourcegrade/jagr/core/testing/GraderJarImpl.kt:86-90 | one loop turn: `putIfRubric`, then `putIfTest` unless the provider's constructor threw; the lines logged are those of `putIfRubric` for that class |
| GraderJars.FindUndeclared | core/src/main/kotlin/org/sourcegrade/jagr/core/testing/GraderJarImpl.kt:78-82 | finds an undeclared source file exactly when there is one; what it finds is a source file declared neither as grader nor as solution file |
| GraderJars.IndexClasses | core/src/main/kotlin/org/sourcegrade/jagr/core/testing/GraderJarImpl.kt:83-92 | without a throwing provider constructor, the two indexes are `Index` over all classes by rubric key and by test key; otherwise it stops at the first throwing class; the log is the lines of the classes before the stop, in class order |
| GraderJars.NewGraderJar | core/src/main/kotlin/org/sourcegrade/jagr/core/testing/GraderJarImpl.kt:41-93 | missing grader info fails; an undeclared source file fails naming such a file; a throwing provider constructor fails naming that class; otherwise the bundle holds the container, its info, both indexes and the copy without solution files; the classes are exactly the container's, each once; nothing is logged on the first two failures, and otherwise the log is the lines of the classes up to the throwing one or of all of them |
| CompiledClasses.ByteBuffer.constructor | core/src/main/kotlin/org/sourcegrade/jagr/core/compiler/java/CompiledClass.kt:38 | a new output buffer is empty |
| CompiledClasses.ByteBuffer.Write | core/src/main/kotlin/org/sourcegrade/jagr/core/compiler/java/CompiledClass.kt:38-40 | a write appends to what was written before |
| CompiledClasses.CompiledClass.Runtime | core/src/main/kotlin/org/sourcegrade/jagr/core/compiler/java/CompiledClass.kt:31-41 | the given class name, a fresh empty buffer, no source link |
| CompiledClasses.CompiledClass.Existing | core/src/main/kotlin/org/sourcegrade/jagr/core/compiler/java/CompiledClass.kt:31-44 | the given class name and exactly the given bytes, no source link |
| CompiledClasses.CompiledClass.ByteArray | core/src/main/kotlin/org/sourcegrade/jagr/core/compiler/java/CompiledClass.kt:33-43 | an existing class's bytes are those it was given; a runtime class's bytes are everything written to its buffer |
| CompiledClasses.CompiledClass.OpenOutputStream | core/src/main/kotlin/org/sourcegrade/jagr/core/compiler/java/CompiledClass.kt:38-40 | a runtime class hands out its one buffer on every call; an existing class has none |
| CompiledClasses.CompiledClass.OpenInputStream | core/src/main/kotlin/org/sourcegrade/jagr/core/compiler/java/CompiledClass.kt:43-44 | an existing class yields exactly its bytes; a runtime class has none |
| CompiledClasses.CompiledClass.SetSource | core/src/main/kotlin/org/sourcegrade/jagr/core/compiler/java/CompiledClass.kt:35 | the source link is reassigned and nothing else changes |
| CompiledClasses.WriteTwice | core/src/main/kotlin/org/sourcegrade/jagr/core/compiler/java/CompiledClass.kt:37-40 | writes through two `openOutputStream()` calls accumulate |
| RuntimeJarLoader.ClassNameOf | core/src/main/kotlin/org/sourcegrade/jagr/core/compiler/java/RuntimeJarLoader.kt:52 | the class name is as long as the path minus the suffix |
| RuntimeJarLoader.ClassNameOfSpec | core/src/main/kotlin/org/sourcegrade/jagr/core/compiler/java/RuntimeJarLoader.kt:52 | character by character the path with `/` made `.`, up to the suffix; no `/` is left |
| RuntimeJarLoader.ClassBytesStep | core/src/main/kotlin/org/sourcegrade/jagr/core/compiler/java/RuntimeJarLoader.kt:51-53 | a class entry stores its bytes under its class name; any other entry leaves that key as it was |
| RuntimeJarLoader.ClassBytesKeys | core/src/main/kotlin/org/sourcegrade/jagr/core/compiler/java/RuntimeJarLoader.kt:48-54 | a class name is stored exactly when some non-directory `.class` entry has it as dotted name |
| RuntimeJarLoader.LatestClassEntry | core/src/main/kotlin/org/sourcegrade/jagr/core/compiler/java/RuntimeJarLoader.kt:48-54 | gives the position of the last entry for a stored class, whose bytes are stored |
| RuntimeJarLoader.ClassBytesLatest | core/src/main/kotlin/org/sourcegrade/jagr/core/compiler/java/RuntimeJarLoader.kt:48-54 | a stored class holds the bytes of the last entry with its dotted name |
| RuntimeJarLoader.ResourceBytesSpec | core/src/main/kotlin/org/sourcegrade/jagr/core/compiler/java/RuntimeJarLoader.kt:55-57 | a path is a resource exactly when some entry with that path is neither directory, class file nor manifest |
| RuntimeJarLoader.ResourceEntriesSpec | common/src/main/kotlin/org/sourcegrade/jagr/common/compiler/java/RuntimeJarLoader.kt:48-57 | the entries warned about are exactly the archive's non-directory, non-class, non-manifest entries |
| RuntimeJarLoader.LoadCompiledJar | core/src/main/kotlin/org/sourcegrade/jagr/core/compiler/java/RuntimeJarLoader.kt:44-61 | one fresh `Existing` class per stored class name, with that name, the bytes of its last entry and no source link; resources keyed by full path; nothing else in the result |
| RuntimeJarLoader.SourceFileOf | core/src/main/kotlin/org/sourcegrade/jagr/core/compiler/java/RuntimeJarLoader.kt:79-83 | a source file has the entry's path as file name and its dotted path minus `.java` as class name |
| RuntimeJarLoader.ScanInvalidSpec | core/src/main/kotlin/org/sourcegrade/jagr/core/compiler/java/RuntimeJarLoader.kt:71-77 | the scan stops early exactly when some non-directory `submission-info.json` entry does not decode |
| RuntimeJarLoader.ScannedSourcesSpec | core/src/main/kotlin/org/sourcegrade/jagr/core/compiler/java/RuntimeJarLoader.kt:79-84 | after a complete scan a path is a source file exactly when some `.java` entry has it, and it holds that entry's source file |
| RuntimeJarLoader.ScanSourcesStep | core/src/main/kotlin/org/sourcegrade/jagr/core/compiler/java/RuntimeJarLoader.kt:68-89 | when the scan of all entries completes, so does the scan of all but the last, and the last entry adds its source file if it is one |
| RuntimeJarLoader.ScannedOthersSpec | common/src/main/kotlin/org/sourcegrade/jagr/common/compiler/java/RuntimeJarLoader.kt:84-86 | the entries collected as unused are, in order, exactly those that are not directories, info files, sources or manifests |
| RuntimeJarLoader.InvalidPersists | core/src/main/kotlin/org/sourcegrade/jagr/core/compiler/java/RuntimeJarLoader.kt:71-77 | once the info file failed to decode, later entries change nothing (the early return) |
| RuntimeJarLoader.ScanSourcesJar | core/src/main/kotlin/org/sourcegrade/jagr/core/compiler/java/RuntimeJarLoader.kt:68-89 | the entry loop computes the scan, returning at an unparsable info file |
| RuntimeJarLoader.RunCompiler | core/src/main/kotlin/org/sourcegrade/jagr/core/compiler/java/RuntimeJarLoader.kt:94-102 | one fresh `Runtime` class per class the compiler emitted, named by its key, holding exactly its bytes, with no source link yet |
| RuntimeJarLoader.CountsPartition | core/src/main/kotlin/org/sourcegrade/jagr/core/compiler/java/RuntimeJarLoader.kt:104-118 | warnings + errors + other = number of diagnostics |
| RuntimeJarLoader.CountStep | core/src/main/kotlin/org/sourcegrade/jagr/core/compiler/java/RuntimeJarLoader.kt:109-118 | one more diagnostic adds one to its own severity's count only (NOTE, MANDATORY_WARNING, WARNING are warnings; ERROR errors; the rest other) |
| RuntimeJarLoader.MessagesSpec | core/src/main/kotlin/org/sourcegrade/jagr/core/compiler/java/RuntimeJarLoader.kt:119 | one message per diagnostic, in order, each `source:line KIND :: message` |
| RuntimeJarLoader.TalliedStep | core/src/main/kotlin/org/sourcegrade/jagr/core/compiler/java/RuntimeJarLoader.kt:109-120 | the tally of one more diagnostic adds its message and counts it |
| RuntimeJarLoader.TallyDiagnostics | core/src/main/kotlin/org/sourcegrade/jagr/core/compiler/java/RuntimeJarLoader.kt:104-121 | the loop's messages and counters are those of all diagnostics, and the counts sum to the number of messages |
| RuntimeJarLoader.PackageOf | core/src/main/kotlin/org/sourcegrade/jagr/core/compiler/java/RuntimeJarLoader.kt:129-133 | no package exactly when the internal name has no `/`; otherwise the prefix before the last `/`, which is followed by a `/`-free rest |
| RuntimeJarLoader.SourceKey | core/src/main/kotlin/org/sourcegrade/jagr/core/compiler/java/RuntimeJarLoader.kt:136-141 | the bare source name in the default package, `pkg/source` otherwise |
| RuntimeJarLoader.LinkSource | core/src/main/kotlin/org/sourcegrade/jagr/core/compiler/java/RuntimeJarLoader.kt:126-146 | every class's link becomes the source file under its key; a class without `SourceFile` attribute keeps its link |
| RuntimeJarLoader.LoadSourcesJar | core/src/main/kotlin/org/sourcegrade/jagr/core/compiler/java/RuntimeJarLoader.kt:63-124 | an unparsable info file gives a bare result; no sources gives the file and the info only, without compiling; otherwise the compiled classes linked to their sources, the scanned sources, the caller's resources, and the messages and counts of the diagnostics |
| CommonRuntimeJarLoader.NotJavaFileWarnings | common/src/main/kotlin/org/sourcegrade/jagr/common/compiler/java/RuntimeJarLoader.kt:57 | one warning per unused entry, in order |
| CommonRuntimeJarLoader.LoadCompiledJar | common/src/main/kotlin/org/sourcegrade/jagr/common/compiler/java/RuntimeJarLoader.kt:45-61 | the same classes as the `core` version, and a warning for each entry that `core` would keep as a resource |
| CommonRuntimeJarLoader.FormatDiagnosticStrict | common/src/main/kotlin/org/sourcegrade/jagr/common/compiler/java/RuntimeJarLoader.kt:118 | throws exactly for a diagnostic without source; otherwise the `core` message |
| CommonRuntimeJarLoader.TallyOne | common/src/main/kotlin/org/sourcegrade/jagr/common/compiler/java/RuntimeJarLoader.kt:108-119 | one turn: counts and formats the diagnostic, or throws a null-pointer exception when it has no source |
| CommonRuntimeJarLoader.SomeSourcelessStep | common/src/main/kotlin/org/sourcegrade/jagr/common/compiler/java/RuntimeJarLoader.kt:108-119 | a longer prefix has a sourceless diagnostic exactly when the shorter one has or the new one is |
| CommonRuntimeJarLoader.TallyDiagnosticsStrict | common/src/main/kotlin/org/sourcegrade/jagr/common/compiler/java/RuntimeJarLoader.kt:103-121 | throws exactly when some diagnostic has no source; otherwise the same tally as `core` |
| CommonRuntimeJarLoader.SourcelessDiagnosticThrows | common/src/main/kotlin/org/sourcegrade/jagr/common/compiler/java/RuntimeJarLoader.kt:118 | a sourceless NOTE makes this version throw where `core` writes `null:-1 NOTE :: …` |
| CommonRuntimeJarLoader.LoadSourcesJar | common/src/main/kotlin/org/sourcegrade/jagr/common/compiler/java/RuntimeJarLoader.kt:63-123 | as `core`, with a warning per unused entry and an error line for an unparsable info file, and a throw, a null-pointer exception, exactly when a diagnostic has no source |
| CommonRuntimeJarLoader.PrintMessages | common/src/main/kotlin/org/sourcegrade/jagr/common/compiler/java/RuntimeJarLoader.kt:162-177 | with errors, the error header and every message at error level; else with warnings, the warning header and every message at warning level; else nothing |
| CommonRuntimeJarLoader.CopyWith | common/src/main/kotlin/org/sourcegrade/jagr/common/compiler/java/RuntimeJarLoader.kt:179-197 | with no argument the copy is the original; every given argument (file, submission info, compiled classes, sources, messages, warning, error and other counts) replaces its field and every omitted one keeps the original's value; submission info, once set, cannot be cleared |
| Logging.AllWarn | common/src/main/kotlin/org/sourcegrade/jagr/common/compiler/java/RuntimeJarLoader.kt:172-174 | every message at warning level, in order |
| Logging.AllError | common/src/main/kotlin/org/sourcegrade/jagr/common/compiler/java/RuntimeJarLoader.kt:166-168 | every message at error level, in order |
| LegacyRuntimeJarLoader.PackageNameOf | jagrkt-common/src/main/kotlin/org/jagrkt/common/compiler/java/RuntimeJarLoader.kt:125 | throws exactly when the internal name has no `/`; otherwise the `core` package |
| LegacyRuntimeJarLoader.LegacyLinkAgrees | jagrkt-common/src/main/kotlin/org/jagrkt/common/compiler/java/RuntimeJarLoader.kt:122-134 | for a class in a named package this version links the same source as `core` |
| LegacyRuntimeJarLoader.DefaultPackageClassThrows | jagrkt-common/src/main/kotlin/org/jagrkt/common/compiler/java/RuntimeJarLoader.kt:125 | a default-package class `Main` throws here, while `core` looks up `Main.java` |
| LegacyRuntimeJarLoader.LinkSource | jagrkt-common/src/main/kotlin/org/jagrkt/common/compiler/java/RuntimeJarLoader.kt:122-134 | throws exactly when some class is in the default package; otherwise every class is linked as in `core`; a class never gets a link `core` would not give it |
| LegacyRuntimeJarLoader.DefaultPackageByKey | jagrkt-common/src/main/kotlin/org/jagrkt/common/compiler/java/RuntimeJarLoader.kt:122-134 | some compiled class is in the default package exactly when the bytes under some key name one |
| LegacyRuntimeJarLoader.LinkCompiled | jagrkt-common/src/main/kotlin/org/jagrkt/common/compiler/java/RuntimeJarLoader.kt:122-134 | on freshly compiled classes: throws exactly when one is in the default package; otherwise each class name's link is that of `core` |
| LegacyRuntimeJarLoader.CompileSources | jagrkt-common/src/main/kotlin/org/jagrkt/common/compiler/java/RuntimeJarLoader.kt:90-119 | compile, link and tally: throws for a default-package class or a sourceless diagnostic; otherwise the `common` result |
| LegacyRuntimeJarLoader.LoadSourcesJar | jagrkt-common/src/main/kotlin/org/jagrkt/common/compiler/java/RuntimeJarLoader.kt:61-120 | as `common`, except that source texts are read by the supplied stream decoding, and it also throws when a compiled class is in the default package |
| LegacyRuntimeJarLoader.LegacyScanAgrees | jagrkt-common/src/main/kotlin/org/jagrkt/common/compiler/java/RuntimeJarLoader.kt:61-84 | this version's entry scan differs from the `common` one only in the source texts: it stops at the same entry and keeps the same submission info, other entries, and source file keys and names |
| LegacyRuntimeJarLoader.PrintMessages | jagrkt-common/src/main/kotlin/org/jagrkt/common/compiler/java/RuntimeJarLoader.kt:146-156 | with errors as `common`; with warnings only the header; else nothing; never more lines than `common` |
| BasicHtmlExporter.ReplaceUnescapedPlain | core/src/main/kotlin/org/sourcegrade/jagr/core/export/rubric/BasicHTMLExporter.kt:150-151 | without backslashes the lookbehind replacement replaces every occurrence |
| BasicHtmlExporter.ThreeSubstitutions | core/src/main/kotlin/org/sourcegrade/jagr/core/export/rubric/BasicHTMLExporter.kt:150-154 | replacing `<`, `>` and newline in turn is plain HTML escaping character by character |
| BasicHtmlExporter.EscapedWithoutBackslash | core/src/main/kotlin/org/sourcegrade/jagr/core/export/rubric/BasicHTMLExporter.kt:148-155 | text without backslashes is escaped exactly as plain HTML escaping would (`&lt;`, `&gt;`, `<br>`) |
| BasicHtmlExporter.PiecesSpec | core/src/main/kotlin/org/sourcegrade/jagr/core/export/rubric/BasicHTMLExporter.kt:148-155 | a text without doubled or trailing backslashes reads as plain characters, backslash-escaped brackets and other backslash pairs that write it back unchanged |
| BasicHtmlExporter.EscapedAfterPlain | core/src/main/kotlin/org/sourcegrade/jagr/core/export/rubric/BasicHTMLExporter.kt:148-155 | a text without backslashes shows HTML-escaped in front of whatever follows it |
| BasicHtmlExporter.EscapedAfterBackslash | core/src/main/kotlin/org/sourcegrade/jagr/core/export/rubric/BasicHTMLExporter.kt:148-155 | a backslash before `<` or `>` shows as that literal bracket; a backslash before any other character (not itself a backslash) is kept before that character's HTML escape; the rest of the text is escaped on its own |
| BasicHtmlExporter.EscapedPiece | core/src/main/kotlin/org/sourcegrade/jagr/core/export/rubric/BasicHTMLExporter.kt:148-155 | one piece, followed by any text, shows as that piece's display followed by the text escaped |
| BasicHtmlExporter.EscapedPieces | core/src/main/kotlin/org/sourcegrade/jagr/core/export/rubric/BasicHTMLExporter.kt:148-155 | a run of pieces is shown piece by piece: a bracket not after a backslash becomes its entity, a backslash-escaped bracket the literal bracket, a line break `<br>` |
| BasicHtmlExporter.EscapedSpec | core/src/main/kotlin/org/sourcegrade/jagr/core/export/rubric/BasicHTMLExporter.kt:148-155 | `escaped()` of any text without doubled or trailing backslashes is the display of its pieces |
| BasicHtmlExporter.EscapedTag | core/src/main/kotlin/org/sourcegrade/jagr/core/export/rubric/BasicHTMLExporter.kt:148-155 | a tag written with backslash-escaped brackets around backslash-free text shows as a literal tag around that text HTML-escaped |
| BasicHtmlExporter.HtmlEscapeNoBrackets | core/src/main/kotlin/org/sourcegrade/jagr/core/export/rubric/BasicHTMLExporter.kt:148-155 | escaping a single line leaves no angle bracket |
| BasicHtmlExporter.HtmlFormat | core/src/main/kotlin/org/sourcegrade/jagr/core/export/rubric/BasicHTMLExporter.kt:108-112 | the exporter's conversions are the supplied point range, `escaped()` and decimal numbers |
| BasicHtmlExporter.RowClassesSpec | core/src/main/kotlin/org/sourcegrade/jagr/core/export/rubric/BasicHTMLExporter.kt:134-144 | exactly one class: success iff the grade's minimum is the criterion's maximum; warning iff not that and the grade's minimum differs from the criterion's minimum; danger otherwise (the empty branch is unreachable) |
| BasicHtmlExporter.NonBlankSpec | core/src/main/kotlin/org/sourcegrade/jagr/core/export/rubric/BasicHTMLExporter.kt:115 | the kept comments are exactly the non-blank ones, and no more than there were |
| BasicHtmlExporter.NonBlankAppend | core/src/main/kotlin/org/sourcegrade/jagr/core/export/rubric/BasicHTMLExporter.kt:115 | the comments kept from two runs are those of the first run followed by those of the second, and one comment is kept exactly when it is not blank: order and repeats are kept |
| BasicHtmlExporter.EscapedAll | core/src/main/kotlin/org/sourcegrade/jagr/core/export/rubric/BasicHTMLExporter.kt:115 | each comment escaped, in order |
| BasicHtmlExporter.AllBlankDropped | core/src/main/kotlin/org/sourcegrade/jagr/core/export/rubric/BasicHTMLExporter.kt:115 | all-blank comments leave nothing |
| BasicHtmlExporter.BlankCommentsEmpty | core/src/main/kotlin/org/sourcegrade/jagr/core/export/rubric/BasicHTMLExporter.kt:114-116 | a criterion whose comments are all blank has an empty comment cell |
| BasicHtmlExporter.DescriptionIsPlainText | core/src/main/kotlin/org/sourcegrade/jagr/core/export/rubric/BasicHTMLExporter.kt:112 | a one-line description without backslashes reaches the page HTML-escaped, with no angle bracket |
| BasicHtmlExporter.TextAppend | core/src/main/kotlin/org/sourcegrade/jagr/core/export/rubric/BasicHTMLExporter.kt:18-27 | the builder's text of two runs of appends is the two texts concatenated |
| BasicHtmlExporter.TextEnds | core/src/main/kotlin/org/sourcegrade/jagr/core/export/rubric/BasicHTMLExporter.kt:57-72 | a text starts with its first fragment's text and ends with its last one's |
| BasicHtmlExporter.CellIdsAppend | core/src/main/kotlin/org/sourcegrade/jagr/core/export/rubric/BasicHTMLExporter.kt:126-132 | the cell ids of two runs are the ids of each, in order |
| BasicHtmlExporter.IdsSpec | core/src/main/kotlin/org/sourcegrade/jagr/core/export/rubric/BasicHTMLExporter.kt:126-132 | consecutive ids are strictly increasing by one |
| BasicHtmlExporter.IdsAppend | core/src/main/kotlin/org/sourcegrade/jagr/core/export/rubric/BasicHTMLExporter.kt:126-132 | consecutive ids split into consecutive ids |
| BasicHtmlExporter.EntriesStep | core/src/main/kotlin/org/sourcegrade/jagr/core/export/rubric/BasicHTMLExporter.kt:74-76 | one more criterion appends its rows, cells and leaves after those of the earlier ones |
| BasicHtmlExporter.RowIds | core/src/main/kotlin/org/sourcegrade/jagr/core/export/rubric/BasicHTMLExporter.kt:118-132 | a row of four cells uses four consecutive ids |
| BasicHtmlExporter.MarkupIds | core/src/main/kotlin/org/sourcegrade/jagr/core/export/rubric/BasicHTMLExporter.kt:78-88 | table markup holds no cell |
| BasicHtmlExporter.EntryIds | core/src/main/kotlin/org/sourcegrade/jagr/core/export/rubric/BasicHTMLExporter.kt:90-106 | a criterion's rows use the ids from the counter on, one per cell, four per criterion row |
| BasicHtmlExporter.EntriesIds | core/src/main/kotlin/org/sourcegrade/jagr/core/export/rubric/BasicHTMLExporter.kt:74-76 | several criteria's rows use consecutive ids, numbering on from one to the next |
| BasicHtmlExporter.HeadIds | core/src/main/kotlin/org/sourcegrade/jagr/core/export/rubric/BasicHTMLExporter.kt:30-38 | the title row uses four consecutive ids |
| BasicHtmlExporter.FootIds | core/src/main/kotlin/org/sourcegrade/jagr/core/export/rubric/BasicHTMLExporter.kt:47-54 | the total row uses four consecutive ids |
| BasicHtmlExporter.TableIds | core/src/main/kotlin/org/sourcegrade/jagr/core/export/rubric/BasicHTMLExporter.kt:29-55 | the table's cell ids are consecutive from the counter's value: twelve fixed cells and four per criterion |
| BasicHtmlExporter.FourRunsIds | core/src/main/kotlin/org/sourcegrade/jagr/core/export/rubric/BasicHTMLExporter.kt:29-55 | four runs whose ids follow on have consecutive ids together |
| BasicHtmlExporter.TwoRunsIds | core/src/main/kotlin/org/sourcegrade/jagr/core/export/rubric/BasicHTMLExporter.kt:29-55 | two runs whose ids follow on have consecutive ids together |
| BasicHtmlExporter.DocumentIds | core/src/main/kotlin/org/sourcegrade/jagr/core/export/rubric/BasicHTMLExporter.kt:18-27 | the page's cell ids are the table's, consecutive and strictly increasing |
| BasicHtmlExporter.DocumentIsHtml | core/src/main/kotlin/org/sourcegrade/jagr/core/export/rubric/BasicHTMLExporter.kt:57-72 | every document starts with `<html>` and ends with `</html>` |
| BasicHtmlExporter.StringBuilder.constructor | core/src/main/kotlin/org/sourcegrade/jagr/core/export/rubric/BasicHTMLExporter.kt:19 | a new builder is empty |
| BasicHtmlExporter.StringBuilder.Append | core/src/main/kotlin/org/sourcegrade/jagr/core/export/rubric/BasicHTMLExporter.kt:57-72 | an append adds one fragment at the end |
| BasicHtmlExporter.Exporter.constructor | core/src/main/kotlin/org/sourcegrade/jagr/core/export/rubric/BasicHTMLExporter.kt:13-16 | both counters start at zero |
| BasicHtmlExporter.Exporter.Export | core/src/main/kotlin/org/sourcegrade/jagr/core/export/rubric/BasicHTMLExporter.kt:18-27 | `result.html` holding the document; the cell counter advances by the table's cells and the criterion counter by its leaves, so a second export numbers on |
| BasicHtmlExporter.Exporter.PageStartTo | core/src/main/kotlin/org/sourcegrade/jagr/core/export/rubric/BasicHTMLExporter.kt:57-66 | appends the page head with the escaped title |
| BasicHtmlExporter.Exporter.PageEndTo | core/src/main/kotlin/org/sourcegrade/jagr/core/export/rubric/BasicHTMLExporter.kt:68-72 | appends the closing tags |
| BasicHtmlExporter.Exporter.TableTo | core/src/main/kotlin/org/sourcegrade/jagr/core/export/rubric/BasicHTMLExporter.kt:29-55 | appends the table; counters advance by its cells and leaves |
| BasicHtmlExporter.Exporter.TableHeadTo | core/src/main/kotlin/org/sourcegrade/jagr/core/export/rubric/BasicHTMLExporter.kt:30-38 | appends the head with the title row; four cells |
| BasicHtmlExporter.Exporter.TableFootTo | core/src/main/kotlin/org/sourcegrade/jagr/core/export/rubric/BasicHTMLExporter.kt:47-54 | appends the total row and closing tags; four cells |
| BasicHtmlExporter.Exporter.TitleEntryTo | core/src/main/kotlin/org/sourcegrade/jagr/core/export/rubric/BasicHTMLExporter.kt:126-128 | a header cell with the current id; the counter goes up by one |
| BasicHtmlExporter.Exporter.EntryTo | core/src/main/kotlin/org/sourcegrade/jagr/core/export/rubric/BasicHTMLExporter.kt:130-132 | a data cell with the current id and classes; the counter goes up by one |
| BasicHtmlExporter.Exporter.TitleRowTo | core/src/main/kotlin/org/sourcegrade/jagr/core/export/rubric/BasicHTMLExporter.kt:40-45 | a row of four header cells with consecutive ids |
| BasicHtmlExporter.Exporter.LeafRowTo | core/src/main/kotlin/org/sourcegrade/jagr/core/export/rubric/BasicHTMLExporter.kt:99-105 | a leaf's row: badge with the incremented criterion counter and description, range, grade with the row class, comments; four cells, one criterion |
| BasicHtmlExporter.Exporter.TableEntryTo | core/src/main/kotlin/org/sourcegrade/jagr/core/export/rubric/BasicHTMLExporter.kt:90-106 | a criterion's rows (a parent's header row, then its children); counters advance by its cells and leaves |
| BasicHtmlExporter.Exporter.TableEntriesTo | core/src/main/kotlin/org/sourcegrade/jagr/core/export/rubric/BasicHTMLExporter.kt:74-76 | the criteria's rows in order; counters advance by their cells and leaves |
| GermanCsvExporter.CsvConversions | core/src/main/kotlin/org/sourcegrade/jagr/core/export/rubric/GermanCSVExporter.kt:62-64 | the exporter's conversions are the supplied `minMax`, `getInRange` and decimal numbers |
| GermanCsvExporter.CommentRows | core/src/main/kotlin/org/sourcegrade/jagr/core/export/rubric/GermanCSVExporter.kt:68-70 | one row per further comment, three empty fields then the comment |
| GermanCsvExporter.FileName | core/src/main/kotlin/org/sourcegrade/jagr/core/export/rubric/GermanCSVExporter.kt:73 | the title, `_`, the submission info, `.csv` |
| GermanCsvExporter.ParseRender | core/src/main/kotlin/org/sourcegrade/jagr/core/export/rubric/GermanCSVExporter.kt:36-55 | reading the written rows back (split at line breaks and tabs) gives the rows, when no field holds a tab or line break |
| GermanCsvExporter.CsvLayout | core/src/main/kotlin/org/sourcegrade/jagr/core/export/rubric/GermanCSVExporter.kt:43-71 | the file reads back as `sep=` line, title, header, criteria rows, total row, then one row per further comment |
| GermanCsvExporter.CriterionRowsLayout | core/src/main/kotlin/org/sourcegrade/jagr/core/export/rubric/GermanCSVExporter.kt:78-107 | a criterion's first row is its leaf row (five fields) or parent row; a parent's rows end with a blank line |
| GermanCsvExporter.CriteriaRowCount | core/src/main/kotlin/org/sourcegrade/jagr/core/export/rubric/GermanCSVExporter.kt:101-103 | the children's rows number one per leaf and two more per parent |
| GermanCsvExporter.ParentLine | core/src/main/kotlin/org/sourcegrade/jagr/core/export/rubric/GermanCSVExporter.kt:94-100 | description, three tabs, comments with the notes run on, and a line break are the text of the row `[description, "", "", comments + notes]` |
| GermanCsvExporter.ParentText | core/src/main/kotlin/org/sourcegrade/jagr/core/export/rubric/GermanCSVExporter.kt:94-100 | a parent's pieces are its row's line |
| GermanCsvExporter.CommentText | core/src/main/kotlin/org/sourcegrade/jagr/core/export/rubric/GermanCSVExporter.kt:69 | a further comment's line is its row's line |
| GermanCsvExporter.CriterionText | core/src/main/kotlin/org/sourcegrade/jagr/core/export/rubric/GermanCSVExporter.kt:78-107 | what `appendCriterion` writes is the text of the criterion's rows |
| GermanCsvExporter.ChildrenText | core/src/main/kotlin/org/sourcegrade/jagr/core/export/rubric/GermanCSVExporter.kt:101-103 | what the child loop writes is the text of the children's rows |
| GermanCsvExporter.TopText | core/src/main/kotlin/org/sourcegrade/jagr/core/export/rubric/GermanCSVExporter.kt:56-59 | what the top-level loop writes is the text of the top rows |
| GermanCsvExporter.LaterCommentsText | core/src/main/kotlin/org/sourcegrade/jagr/core/export/rubric/GermanCSVExporter.kt:68-70 | what the further-comments loop writes is the text of their rows |
| GermanCsvExporter.SepText | core/src/main/kotlin/org/sourcegrade/jagr/core/export/rubric/GermanCSVExporter.kt:44 | the `sep=` line is the line of its row |
| GermanCsvExporter.HeadText | core/src/main/kotlin/org/sourcegrade/jagr/core/export/rubric/GermanCSVExporter.kt:44-55 | the opening lines are the text of the `sep=`, title and header rows |
| GermanCsvExporter.FileText | core/src/main/kotlin/org/sourcegrade/jagr/core/export/rubric/GermanCSVExporter.kt:43-71 | everything `export` writes is the text of the file's rows |
| GermanCsvExporter.BufferedWriter.constructor | core/src/main/kotlin/org/sourcegrade/jagr/core/export/rubric/GermanCSVExporter.kt:74 | a new writer is empty |
| GermanCsvExporter.BufferedWriter.Append | core/src/main/kotlin/org/sourcegrade/jagr/core/export/rubric/GermanCSVExporter.kt:46-54 | `append` adds the string at the end |
| GermanCsvExporter.BufferedWriter.AppendLine | core/src/main/kotlin/org/sourcegrade/jagr/core/export/rubric/GermanCSVExporter.kt:44-45 | `appendLine(s)` adds the string and a line break |
| GermanCsvExporter.BufferedWriter.EndLine | core/src/main/kotlin/org/sourcegrade/jagr/core/export/rubric/GermanCSVExporter.kt:55 | `appendLine()` adds a line break |
| GermanCsvExporter.Export | core/src/main/kotlin/org/sourcegrade/jagr/core/export/rubric/GermanCSVExporter.kt:40-76 | a resource named after title and submission info holding the text of the file's rows, numbers written in decimal |
| GermanCsvExporter.WriteTo | core/src/main/kotlin/org/sourcegrade/jagr/core/export/rubric/GermanCSVExporter.kt:43-71 | appends the opening, the criteria, the total and the further comments |
| GermanCsvExporter.HeadTo | core/src/main/kotlin/org/sourcegrade/jagr/core/export/rubric/GermanCSVExporter.kt:44-55 | appends `sep=<tab>`, the title and the header row |
| GermanCsvExporter.HeaderTo | core/src/main/kotlin/org/sourcegrade/jagr/core/export/rubric/GermanCSVExporter.kt:46-55 | appends `Kriterium`, `Möglich`, `Erzielt`, `Kommentar`, `Extra`, tab-separated |
| GermanCsvExporter.TopTo | core/src/main/kotlin/org/sourcegrade/jagr/core/export/rubric/GermanCSVExporter.kt:56-59 | appends each top-level criterion's rows and a line break |
| GermanCsvExporter.TotalTo | core/src/main/kotlin/org/sourcegrade/jagr/core/export/rubric/GermanCSVExporter.kt:60-67 | appends `Gesamt`, the maximum, the grade in range and the first comment or `""` |
| GermanCsvExporter.LaterCommentsTo | core/src/main/kotlin/org/sourcegrade/jagr/core/export/rubric/GermanCSVExporter.kt:68-70 | appends each comment after the first on its own line after three tabs |
| GermanCsvExporter.LeafRowTo | core/src/main/kotlin/org/sourcegrade/jagr/core/export/rubric/GermanCSVExporter.kt:83-92 | appends description, min–max, grade in range, comments joined by `; `, notes or `""` |
| GermanCsvExporter.ParentRowTo | core/src/main/kotlin/org/sourcegrade/jagr/core/export/rubric/GermanCSVExporter.kt:94-100 | appends description, three tabs, comments immediately followed by notes |
| GermanCsvExporter.AppendCriterion | core/src/main/kotlin/org/sourcegrade/jagr/core/export/rubric/GermanCSVExporter.kt:78-107 | appends a leaf's row, or a parent's row, its children's rows and a blank line |

## Left out

- The coroutine mutex, `@Volatile`, the atomic counter and the UTC clock of the grading queue. `next()` calls are taken one at a time, and the time is a parameter.
- Compiling the graders and submissions (`compile`, `applierOf`, `useWhen`, `plus`, `extractorOf`). These are not part of this model. Their outcome is given as compiled candidates, and transformers are compared by identity.
- Archive reading, JSON decoding, `readEncoded`, the `javac` call and the bytecode reader. They are the supplied `Toolchain`. The `jagrkt-common` version reads source files from the raw input stream; that decoding is a separate supplied function. Directory entries carry no bytes that matter.
- Class loading, reflection and `RubricProvider.configure` in grader bundles. Each class is a `ClassDescriptor`. A throwing constructor aborts the construction, and the rubric configuration it would fill is not modelled.
- `PointRange.toString`, `Criterion.minMax` and `GradeResult.getInRange`. They are not part of this model and are supplied functions.
- Rubric.WithComments: `GradeResult.withComments` is not part of this model; it is taken to append the given comments after the grade's own.
- The `Resource` builder and output stream of both exporters. A resource is a name and a text. Character encoding is not modelled.
- BasicHtmlExporter.EscapedSpec: text with a doubled or trailing backslash is covered only by the definition of `Escaped`. Pieces cannot describe it.
- RuntimeJarLoader.LoadSourcesJar: the error line the `core` version logs for an unparsable info file is not modelled. The `common` and `jagrkt-common` versions model it.
- RuntimeJarLoader.LoadCompiledJar: the result is stated for the `core` version's maps. The order of the archive's entries matters only through "the last entry wins".
- The `toString` and serializer factory of grader bundles, and the `reader` lazy property of compiled classes (stood in for by the supplied bytecode reader).
- Kotlin's `Char.isWhitespace` is modelled as a fixed list of the Java whitespace and Unicode space-separator characters. This decides which comments count as blank.
- The map iteration order of the source is modelled as a sequence of requirements, classes or entries given by the caller.

## Findings

| source | as written | input that shows it | evidently intended | confidence | as-written member | corrected member |
|---|---|---|---|---|---|---|
| jagrkt-common/src/main/kotlin/org/jagrkt/common/compiler/java/RuntimeJarLoader.kt:125 | `className.substring(0, className.lastIndexOf('/'))` computes the package | a compiled class in the default package, internal name `Main`, `SourceFile` `Main.java`: `lastIndexOf` is -1, `substring(0, -1)` throws and `loadSourcesJar` fails | look up the bare source name for default-package classes, as the later versions do | high; not executed | LegacyRuntimeJarLoader.DefaultPackageClassThrows | RuntimeJarLoader.SourceKey |
| common/src/main/kotlin/org/sourcegrade/jagr/common/compiler/java/RuntimeJarLoader.kt:118 | `${diag.source.name}` dereferences the diagnostic's source | a diagnostic without a source file, such as javac's note about unchecked operations: a null-pointer exception escapes `loadSourcesJar` (the same expression is at line 115 of the `jagrkt-common` version) | format a missing source as `null`, as the `core` version does with `diag.source?.name` | medium; not executed | CommonRuntimeJarLoader.SourcelessDiagnosticThrows | RuntimeJarLoader.TallyDiagnostics |
