/** A grader bundle: the declaration check on its source files, the copy of the bundle
    without solution files, and the indexes from assignment id to rubric providers and to
    test classes. Class loading and reflection are replaced by one descriptor per class. */
module GraderJars {
  import opened Wrappers
  import opened Logging
  import opened CompiledClasses

  /** The parsed `grader-info.json`: a grader's name and the files it declares. */
  datatype GraderInfo = GraderInfo(name: string, graderFiles: seq<string>, solutionFiles: seq<string>)

  /** The compiled contents of a grader bundle: its name, its grader info if it has one, its
      source files and source resources, its compiled classes and its runtime resources. */
  datatype Container = Container(
    name: string,
    graderInfo: Option<GraderInfo>,
    sourceFiles: map<string, JavaSourceFile>,
    sourceResources: map<string, seq<Byte>>,
    classes: map<string, CompiledClass>,
    runtimeResources: map<string, seq<Byte>>)

  /** What reflection tells about a loaded class: its name, the assignment ids of its
      `@RubricForSubmission` and `@TestForSubmission` annotations, whether it implements
      `RubricProvider`, whether it has a public no-args constructor, and whether that
      constructor throws. */
  datatype ClassDescriptor = ClassDescriptor(
    name: string,
    rubricFor: Option<string>,
    testFor: Option<string>,
    isRubricProvider: bool,
    hasNoArgsConstructor: bool,
    constructorThrows: bool)

  /** Why a bundle cannot be constructed. */
  datatype ConstructionError =
    | MissingGraderInfo(containerName: string)
    | UndeclaredFile(containerName: string, fileName: string)
    | ProviderConstructorThrew(className: string)

  /** A constructed grader bundle. */
  datatype GraderJar = GraderJar(
    container: Container,
    info: GraderInfo,
    rubricProviders: map<string, seq<string>>,
    testProviders: map<string, seq<string>>,
    containerWithoutSolution: Container)

  /** The set of the class objects of a container. */
  function ClassObjects(c: Container): set<CompiledClass> {
    c.classes.Values
  }

  /** `containerWithoutSolution`: the container with its source files, source resources,
      runtime resources and classes filtered down to its grader files. */
  function WithoutSolution(c: Container, graderFiles: set<string>): (r: Container)
    reads ClassObjects(c)
    ensures r.name == c.name && r.graderInfo == c.graderInfo
    ensures r.sourceFiles.Keys <= c.sourceFiles.Keys && r.classes.Keys <= c.classes.Keys
  {
    c.(
      sourceFiles := map k | k in c.sourceFiles && k in graderFiles :: c.sourceFiles[k],
      sourceResources := map k | k in c.sourceResources && k in graderFiles :: c.sourceResources[k],
      classes := map k | k in c.classes && c.classes[k].source.Some? && c.classes[k].source.value.fileName in graderFiles
                         :: c.classes[k],
      runtimeResources := map k | k in c.runtimeResources && k in graderFiles :: c.runtimeResources[k])
  }

  /** The copy keeps exactly the source files, source resources and runtime resources whose
      keys are grader files, and exactly the classes whose linked source is a grader file (a
      class without a linked source is dropped), each with its original value. */
  lemma WithoutSolutionSpec(c: Container, graderFiles: set<string>)
    ensures var r := WithoutSolution(c, graderFiles);
      && (forall k :: k in r.sourceFiles <==> k in c.sourceFiles && k in graderFiles)
      && (forall k :: k in r.sourceResources <==> k in c.sourceResources && k in graderFiles)
      && (forall k :: k in r.runtimeResources <==> k in c.runtimeResources && k in graderFiles)
      && (forall k :: k in r.classes <==>
            k in c.classes && c.classes[k].source.Some? && c.classes[k].source.value.fileName in graderFiles)
      && (forall k :: k in r.sourceFiles ==> r.sourceFiles[k] == c.sourceFiles[k])
      && (forall k :: k in r.sourceResources ==> r.sourceResources[k] == c.sourceResources[k])
      && (forall k :: k in r.runtimeResources ==> r.runtimeResources[k] == c.runtimeResources[k])
      && (forall k :: k in r.classes ==> r.classes[k] == c.classes[k])
  {
  }

  /** A file declared only as a solution file leaves no trace in the copy without solution:
      neither as a source file, nor as a resource, nor as the source of a kept class. */
  lemma SolutionFilesRemoved(c: Container, info: GraderInfo, file: string)
    requires file in info.solutionFiles && file !in info.graderFiles
    ensures var r := WithoutSolution(c, set f | f in info.graderFiles);
      && file !in r.sourceFiles && file !in r.sourceResources && file !in r.runtimeResources
      && forall k :: k in r.classes ==> r.classes[k].source.value.fileName != file
  {
    WithoutSolutionSpec(c, set f | f in info.graderFiles);
  }

  /** Whether a file is declared by a grader info, as a grader or as a solution file. */
  predicate Declared(info: GraderInfo, file: string) {
    file in info.graderFiles || file in info.solutionFiles
  }

  /** The assignment id under which a class is recorded as a rubric provider: that of its
      annotation, provided it implements `RubricProvider` and has a no-args constructor. */
  function RubricKey(c: ClassDescriptor): Option<string> {
    if c.rubricFor.Some? && c.isRubricProvider && c.hasNoArgsConstructor then c.rubricFor else None
  }

  /** The assignment id under which a class is recorded as a test class: that of its
      annotation. */
  function TestKey(c: ClassDescriptor): Option<string> {
    c.testFor
  }

  /** Whether instantiating the class as a rubric provider throws out of the construction. */
  predicate ProviderThrows(c: ClassDescriptor) {
    RubricKey(c).Some? && c.constructorThrows
  }

  /** The names of the classes recorded under `id`, in class order. */
  function NamesFor(classes: seq<ClassDescriptor>, keyOf: ClassDescriptor -> Option<string>, id: string): seq<string> {
    if |classes| == 0 then []
    else
      var c := classes[|classes| - 1];
      NamesFor(classes[..|classes| - 1], keyOf, id) + (if keyOf(c) == Some(id) then [c.name] else [])
  }

  /** The index the class loop builds: each class whose key is some id has its name appended
      to the list under that id, the list being created on first use. */
  function Index(classes: seq<ClassDescriptor>, keyOf: ClassDescriptor -> Option<string>): map<string, seq<string>> {
    if |classes| == 0 then map[]
    else
      var c := classes[|classes| - 1];
      var m := Index(classes[..|classes| - 1], keyOf);
      match keyOf(c)
      case None => m
      case Some(id) => m[id := (if id in m then m[id] else []) + [c.name]]
  }

  /** An id is a key of the index exactly when some class is recorded under it; its entry
      is then the non-empty list of those classes' names, in class order. */
  lemma {:induction false} IndexSpec(classes: seq<ClassDescriptor>, keyOf: ClassDescriptor -> Option<string>, id: string)
    ensures id in Index(classes, keyOf) <==> NamesFor(classes, keyOf, id) != []
    ensures id in Index(classes, keyOf) ==> Index(classes, keyOf)[id] == NamesFor(classes, keyOf, id)
  {
    if |classes| > 0 {
      IndexSpec(classes[..|classes| - 1], keyOf, id);
    }
  }

  /** A name is listed under `id` exactly when some class with that name is recorded under
      `id`. */
  lemma {:induction false} NamesForSpec(classes: seq<ClassDescriptor>, keyOf: ClassDescriptor -> Option<string>, id: string, name: string)
    ensures name in NamesFor(classes, keyOf, id) <==>
      exists i :: 0 <= i < |classes| && classes[i].name == name && keyOf(classes[i]) == Some(id)
  {
    if |classes| > 0 {
      var n := |classes| - 1;
      NamesForSpec(classes[..n], keyOf, id, name);
      assert forall i :: 0 <= i < n ==> classes[..n][i] == classes[i];
    }
  }

  /** Every class listed as a rubric provider carries the annotation for that id,
      implements `RubricProvider` and has a no-args constructor. */
  lemma RubricProvidersInstantiable(classes: seq<ClassDescriptor>, id: string, name: string)
    requires id in Index(classes, RubricKey) && name in Index(classes, RubricKey)[id]
    ensures exists i :: (&& 0 <= i < |classes| && classes[i].name == name
      && classes[i].rubricFor == Some(id) && classes[i].isRubricProvider && classes[i].hasNoArgsConstructor)
  {
    IndexSpec(classes, RubricKey, id);
    NamesForSpec(classes, RubricKey, id, name);
  }

  const NotRubricProviderMessage := "Class annotated with @RubricForSubmission does not implement RubricProvider! Ignoring..."

  function NoArgsConstructorMessage(className: string, graderName: string): string {
    "Rubric provider " + className + " in grader " + graderName + " must have a no-args public constructor!"
  }

  function DiscoveredMessage(graderName: string, className: string, id: string): string {
    graderName + " Discovered rubric provider " + className + " for assignment " + id
  }

  /** The lines `putIfRubric` logs for one class: none for a class without the annotation
      or whose constructor throws, an error for a class that is not a rubric provider or has
      no no-args constructor, and the discovery otherwise. */
  function RubricLog(graderName: string, c: ClassDescriptor): (r: seq<LogLine>)
    ensures |r| <= 1
    ensures r == [] <==> c.rubricFor.None? || ProviderThrows(c)
  {
    if c.rubricFor.None? then []
    else if !c.isRubricProvider then [ErrorLine(NotRubricProviderMessage)]
    else if !c.hasNoArgsConstructor then [ErrorLine(NoArgsConstructorMessage(c.name, graderName))]
    else if c.constructorThrows then []
    else [InfoLine(DiscoveredMessage(graderName, c.name, c.rubricFor.value))]
  }

  /** The lines the class loop logs over `classes`, when none of them throws. */
  function ClassesLog(graderName: string, classes: seq<ClassDescriptor>): seq<LogLine> {
    if |classes| == 0 then []
    else ClassesLog(graderName, classes[..|classes| - 1]) + RubricLog(graderName, classes[|classes| - 1])
  }

  /** The class loop's log announces every rubric provider it records, and reports every
      annotated class that is not a rubric provider or has no no-args constructor. */
  lemma {:induction false} ClassesLogAnnounces(graderName: string, classes: seq<ClassDescriptor>, i: nat)
    requires i < |classes|
    ensures RubricKey(classes[i]).Some? && !ProviderThrows(classes[i]) ==>
      InfoLine(DiscoveredMessage(graderName, classes[i].name, RubricKey(classes[i]).value)) in ClassesLog(graderName, classes)
    ensures classes[i].rubricFor.Some? && !classes[i].isRubricProvider ==>
      ErrorLine(NotRubricProviderMessage) in ClassesLog(graderName, classes)
    ensures classes[i].rubricFor.Some? && classes[i].isRubricProvider && !classes[i].hasNoArgsConstructor ==>
      ErrorLine(NoArgsConstructorMessage(classes[i].name, graderName)) in ClassesLog(graderName, classes)
  {
    var n := |classes| - 1;
    if i < n {
      ClassesLogAnnounces(graderName, classes[..n], i);
      assert classes[..n][i] == classes[i];
    }
  }

  /** Every line of the class loop's log comes from one of the classes. */
  lemma {:induction false} ClassesLogFrom(graderName: string, classes: seq<ClassDescriptor>, line: LogLine)
    requires line in ClassesLog(graderName, classes)
    ensures exists i :: 0 <= i < |classes| && RubricLog(graderName, classes[i]) == [line]
  {
    var n := |classes| - 1;
    var c := classes[n];
    if line in ClassesLog(graderName, classes[..n]) {
      ClassesLogFrom(graderName, classes[..n], line);
      var i :| 0 <= i < n && RubricLog(graderName, classes[..n][i]) == [line];
      assert classes[..n][i] == classes[i];
    } else {
      assert RubricLog(graderName, classes[n]) == [line];
    }
  }

  /** `putIfRubric`: records an instantiable rubric provider under its assignment id, logs
      why an annotated class is ignored, and reports a throwing constructor. */
  method PutIfRubric(graderName: string, rubric: map<string, seq<string>>, c: ClassDescriptor)
    returns (thrown: bool, rubric': map<string, seq<string>>, log: seq<LogLine>)
    ensures thrown == ProviderThrows(c)
    ensures !thrown ==> rubric' == (match RubricKey(c)
      case None => rubric
      case Some(id) => rubric[id := (if id in rubric then rubric[id] else []) + [c.name]])
    ensures c.rubricFor.None? || thrown ==> log == []
    ensures c.rubricFor.Some? && !c.isRubricProvider ==> log == [ErrorLine(NotRubricProviderMessage)]
    ensures c.rubricFor.Some? && c.isRubricProvider && !c.hasNoArgsConstructor ==>
      log == [ErrorLine(NoArgsConstructorMessage(c.name, graderName))]
    ensures RubricKey(c).Some? && !thrown ==>
      log == [InfoLine(DiscoveredMessage(graderName, c.name, RubricKey(c).value))]
  {
    rubric', log := rubric, [];
    thrown := false;
    if c.rubricFor.Some? {
      if !c.isRubricProvider {
        log := [ErrorLine(NotRubricProviderMessage)];
      } else if !c.hasNoArgsConstructor {
        log := [ErrorLine(NoArgsConstructorMessage(c.name, graderName))];
      } else if c.constructorThrows {
        thrown := true;
      } else {
        var id := c.rubricFor.value;
        log := [InfoLine(DiscoveredMessage(graderName, c.name, id))];
        rubric' := rubric[id := (if id in rubric then rubric[id] else []) + [c.name]];
      }
    }
  }

  /** `putIfTest`: records a test class under its assignment id. */
  method PutIfTest(tests: map<string, seq<string>>, c: ClassDescriptor) returns (tests': map<string, seq<string>>)
    ensures tests' == (match TestKey(c)
      case None => tests
      case Some(id) => tests[id := (if id in tests then tests[id] else []) + [c.name]])
  {
    tests' := tests;
    if c.testFor.Some? {
      var id := c.testFor.value;
      tests' := tests[id := (if id in tests then tests[id] else []) + [c.name]];
    }
  }

  /** One turn of the class loop: `putIfRubric` then `putIfTest`, with the lines logged. */
  method PutClass(graderName: string, rubric: map<string, seq<string>>, tests: map<string, seq<string>>, c: ClassDescriptor)
    returns (thrown: bool, rubric': map<string, seq<string>>, tests': map<string, seq<string>>, log: seq<LogLine>)
    ensures thrown == ProviderThrows(c)
    ensures !thrown ==> rubric' == (match RubricKey(c)
      case None => rubric
      case Some(id) => rubric[id := (if id in rubric then rubric[id] else []) + [c.name]])
    ensures log == RubricLog(graderName, c)
    ensures !thrown ==> tests' == (match TestKey(c)
      case None => tests
      case Some(id) => tests[id := (if id in tests then tests[id] else []) + [c.name]])
  {
    thrown, rubric', log := PutIfRubric(graderName, rubric, c);
    tests' := tests;
    if thrown {
      return;
    }
    tests' := PutIfTest(tests, c);
  }

  /** Whether `classes` describes the classes of the container's runtime resources: one
      descriptor per class, under the class's own name. */
  predicate DescribesClasses(container: Container, classes: seq<ClassDescriptor>) {
    && (forall i :: 0 <= i < |classes| ==> classes[i].name in container.classes)
    && (forall name :: name in container.classes ==> exists i :: 0 <= i < |classes| && classes[i].name == name)
    && (forall i, j :: 0 <= i < j < |classes| ==> classes[i].name != classes[j].name)
  }

  /** The `init` declaration check: some source file declared neither as a grader nor as a
      solution file, if there is one. */
  method FindUndeclared(info: GraderInfo, fileNames: set<string>) returns (undeclared: Option<string>)
    ensures undeclared.None? <==> forall f :: f in fileNames ==> Declared(info, f)
    ensures undeclared.Some? ==> undeclared.value in fileNames && !Declared(info, undeclared.value)
  {
    var todo := fileNames;
    while todo != {}
      invariant todo <= fileNames
      invariant forall f :: f in fileNames - todo ==> Declared(info, f)
      decreases todo
    {
      var fileName :| fileName in todo;
      if !Declared(info, fileName) {
        return Some(fileName);
      }
      todo := todo - {fileName};
    }
    undeclared := None;
  }

  /** The `init` class loop: the two indexes over all classes, or the index of the first
      class whose rubric-provider constructor throws. */
  method IndexClasses(graderName: string, classes: seq<ClassDescriptor>)
    returns (thrownAt: Option<nat>, rubricProviders: map<string, seq<string>>, testProviders: map<string, seq<string>>, log: seq<LogLine>)
    ensures thrownAt.None? <==> forall i :: 0 <= i < |classes| ==> !ProviderThrows(classes[i])
    ensures thrownAt.Some? ==> (&& thrownAt.value < |classes| && ProviderThrows(classes[thrownAt.value])
                                && forall j :: 0 <= j < thrownAt.value ==> !ProviderThrows(classes[j]))
    ensures thrownAt.None? ==> rubricProviders == Index(classes, RubricKey) && testProviders == Index(classes, TestKey)
    ensures log == ClassesLog(graderName, classes[..if thrownAt.Some? then thrownAt.value else |classes|])
  {
    rubricProviders, testProviders, log := map[], map[], [];
    for i := 0 to |classes|
      invariant rubricProviders == Index(classes[..i], RubricKey)
      invariant testProviders == Index(classes[..i], TestKey)
      invariant forall j :: 0 <= j < i ==> !ProviderThrows(classes[j])
      invariant log == ClassesLog(graderName, classes[..i])
    {
      assert classes[..i + 1][..i] == classes[..i];
      var thrown, rubric', tests', lines := PutClass(graderName, rubricProviders, testProviders, classes[i]);
      log := log + lines;
      if thrown {
        return Some(i), rubricProviders, testProviders, log;
      }
      rubricProviders, testProviders := rubric', tests';
    }
    assert classes[..|classes|] == classes;
    thrownAt := None;
  }

  /** The bundle's construction: grader info must be present, every source file must be
      declared, and no rubric provider's constructor may throw; the indexes then record
      every test class and every instantiable rubric provider under its assignment id. The
      classes are those of the container's runtime resources, in iteration order. */
  method NewGraderJar(container: Container, classes: seq<ClassDescriptor>)
    returns (r: Result<GraderJar, ConstructionError>, log: seq<LogLine>)
    requires DescribesClasses(container, classes)
    ensures container.graderInfo.None? ==> r == Failure(MissingGraderInfo(container.name)) && log == []
    ensures container.graderInfo.Some? && (exists f :: f in container.sourceFiles && !Declared(container.graderInfo.value, f)) ==>
      && r.Failure? && r.error.UndeclaredFile? && r.error.containerName == container.name
      && r.error.fileName in container.sourceFiles && !Declared(container.graderInfo.value, r.error.fileName)
      && log == []
    ensures container.graderInfo.Some? && (forall f :: f in container.sourceFiles ==> Declared(container.graderInfo.value, f)) ==>
      && (r.Failure? <==> exists i :: 0 <= i < |classes| && ProviderThrows(classes[i]))
      && (r.Failure? ==> exists i :: (&& 0 <= i < |classes| && ProviderThrows(classes[i])
                                      && r.error == ProviderConstructorThrew(classes[i].name)
                                      && (forall j :: 0 <= j < i ==> !ProviderThrows(classes[j]))
                                      && log == ClassesLog(container.graderInfo.value.name, classes[..i])))
    ensures r.Success? ==>
      var info := container.graderInfo.value;
      && r.value.container == container && r.value.info == info
      && r.value.rubricProviders == Index(classes, RubricKey)
      && r.value.testProviders == Index(classes, TestKey)
      && r.value.containerWithoutSolution == WithoutSolution(container, set f | f in info.graderFiles)
      && log == ClassesLog(info.name, classes)
  {
    log := [];
    if container.graderInfo.None? {
      return Failure(MissingGraderInfo(container.name)), log;
    }
    var info := container.graderInfo.value;
    var undeclared := FindUndeclared(info, container.sourceFiles.Keys);
    if undeclared.Some? {
      assert !Declared(info, undeclared.value) && undeclared.value in container.sourceFiles;
      return Failure(UndeclaredFile(container.name, undeclared.value)), log;
    }
    var thrownAt, rubricProviders, testProviders, lines := IndexClasses(info.name, classes);
    log := lines;
    if thrownAt.Some? {
      var i := thrownAt.value;
      r := Failure(ProviderConstructorThrew(classes[i].name));
      assert 0 <= i < |classes| && ProviderThrows(classes[i]) && r.error == ProviderConstructorThrew(classes[i].name);
      assert log == ClassesLog(info.name, classes[..i]);
      return r, log;
    }
    assert classes[..|classes|] == classes;
    var withoutSolution := WithoutSolution(container, set f | f in info.graderFiles);
    r := Success(GraderJar(container, info, rubricProviders, testProviders, withoutSolution));
  }
}
