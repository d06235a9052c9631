/** The test-aware grading strategy: a criterion is graded by the "passed" grader only if
    every required test reported the required status; otherwise by the "failed" grader,
    with comments that explain the mismatches. */
module TestAwareGrader {
  import opened Wrappers
  import opened Strings
  import opened Rubric

  /** The status a JUnit test execution reports. */
  datatype Status = Successful | Aborted | Failed

  /** The kinds of throwable that the comment rendering tells apart. */
  datatype ThrowableKind = AssertionFailedError | NullPointerException | OtherThrowable

  /** A throwable as far as comments need it: its kind, its class's simple name (absent for
      anonymous classes), its message and the text of its first stack frame. */
  datatype Throwable = Throwable(
    kind: ThrowableKind,
    simpleName: Option<string>,
    message: Option<string>,
    firstStackFrame: Option<string>)

  /** The outcome of one test: its status and the throwable it failed with, if any. */
  datatype TestExecutionResult = TestExecutionResult(status: Status, throwable: Option<Throwable>)

  /** A reference to a JUnit test; results are looked up by it. */
  type TestRef = string

  /** One entry of `requirePass` or `requireFail`: a test and its optional override comment. */
  datatype Requirement = Requirement(test: TestRef, comment: Option<string>)

  /** A grader that this strategy delegates to; what it returns for the current test cycle
      and criterion is supplied by the caller. */
  datatype Grader = Grader(name: string)

  /** The configuration of a test-aware grader; the requirement lists are in the iteration
      order of the maps they come from. */
  datatype Config = Config(
    graderPassed: Grader,
    graderFailed: Grader,
    requirePass: seq<Requirement>,
    requireFail: seq<Requirement>,
    commentIfFailed: Option<string>)

  /** Kotlin's rendering of a nullable value in a string template. */
  function Shown(s: Option<string>): string {
    s.GetOr("null")
  }

  /** Assertion messages show comparison brackets as square brackets. */
  function Bracket(c: char): char {
    if c == '>' then ']' else if c == '<' then '[' else c
  }

  /** The comment a test result contributes by default, derived from its throwable. */
  function Message(r: TestExecutionResult): (m: Option<string>)
    ensures m.None? <==> r.throwable.None?
  {
    match r.throwable
    case None => None
    case Some(t) =>
      match t.kind
      case AssertionFailedError =>
        Some(ReplaceChar(ReplaceChar(Shown(t.message), '>', ']'), '<', '['))
      case NullPointerException =>
        Some(Shown(t.simpleName) + ": " + Shown(t.message) + " @ " + Shown(t.firstStackFrame))
      case OtherThrowable =>
        Some(Shown(t.simpleName) + ": " + Shown(t.message))
  }

  /** An assertion failure's message with its angle brackets made square, so that it
      cannot open markup; a null-pointer exception's name, message and first stack frame;
      any other throwable's name and message. */
  lemma MessageSpec(r: TestExecutionResult)
    requires r.throwable.Some?
    ensures var m, t := Message(r).value, r.throwable.value;
      && (t.kind == AssertionFailedError ==>
        && |m| == |Shown(t.message)|
        && (forall i :: 0 <= i < |m| ==> m[i] == Bracket(Shown(t.message)[i]))
        && '<' !in m && '>' !in m)
      && (t.kind == NullPointerException ==>
        m == Shown(t.simpleName) + ": " + Shown(t.message) + " @ " + Shown(t.firstStackFrame))
      && (t.kind == OtherThrowable ==> m == Shown(t.simpleName) + ": " + Shown(t.message))
  {
  }

  /** A requirement is violated when its test has no result or a status other than the one
      required. */
  predicate Mismatch(req: Requirement, results: map<TestRef, TestExecutionResult>, expected: Status) {
    req.test !in results || results[req.test].status != expected
  }

  predicate AnyMismatch(reqs: seq<Requirement>, results: map<TestRef, TestExecutionResult>, expected: Status) {
    exists k :: 0 <= k < |reqs| && Mismatch(reqs[k], results, expected)
  }

  /** The comment one violated requirement contributes: its own comment if configured,
      else the message of its test result; nothing if both are absent. */
  function CommentFor(req: Requirement, results: map<TestRef, TestExecutionResult>, expected: Status): seq<string> {
    if !Mismatch(req, results, expected) then []
    else if req.comment.Some? then [req.comment.value]
    else if req.test in results && Message(results[req.test]).Some? then [Message(results[req.test]).value]
    else []
  }

  /** The mismatch comments of a requirement list, in list order. */
  function MismatchComments(reqs: seq<Requirement>, results: map<TestRef, TestExecutionResult>, expected: Status): seq<string>
  {
    if |reqs| == 0 then []
    else MismatchComments(reqs[..|reqs| - 1], results, expected) + CommentFor(reqs[|reqs| - 1], results, expected)
  }

  function OptionToSeq(s: Option<string>): seq<string> {
    if s.Some? then [s.value] else []
  }

  /** One more requirement adds its comment and may add a mismatch. */
  lemma MustStep(reqs: seq<Requirement>, results: map<TestRef, TestExecutionResult>, expected: Status, i: nat)
    requires i < |reqs|
    ensures MismatchComments(reqs[..i + 1], results, expected)
      == MismatchComments(reqs[..i], results, expected) + CommentFor(reqs[i], results, expected)
    ensures AnyMismatch(reqs[..i + 1], results, expected)
      <==> AnyMismatch(reqs[..i], results, expected) || Mismatch(reqs[i], results, expected)
  {
    var before, after := reqs[..i], reqs[..i + 1];
    assert after[..i] == before;
    assert forall k :: 0 <= k < i ==> after[k] == before[k];
    assert after[i] == reqs[i];
  }

  /** The local `must`: walks the requirements in order, collecting mismatch comments; if
      any requirement is violated, the failed grader's result is returned with those
      comments followed by `commentIfFailed`, otherwise nothing. */
  method Must(
    config: Config,
    reqs: seq<Requirement>,
    results: map<TestRef, TestExecutionResult>,
    expected: Status,
    gradeWith: Grader -> GradeResult)
    returns (r: Option<GradeResult>)
    ensures r.Some? <==> AnyMismatch(reqs, results, expected)
    ensures r.Some? ==>
      r.value == WithComments(gradeWith(config.graderFailed),
                              MismatchComments(reqs, results, expected) + OptionToSeq(config.commentIfFailed))
  {
    var comments: seq<string> := [];
    var failed := false;
    for i := 0 to |reqs|
      invariant comments == MismatchComments(reqs[..i], results, expected)
      invariant failed <==> AnyMismatch(reqs[..i], results, expected)
    {
      MustStep(reqs, results, expected, i);
      var req := reqs[i];
      var result := if req.test in results then Some(results[req.test]) else None;
      if result.None? || result.value.status != expected {
        failed := true;
        var comment := if req.comment.Some? then req.comment
                       else if result.Some? then Message(result.value)
                       else None;
        if comment.Some? {
          comments := comments + [comment.value];
        }
      }
    }
    assert reqs[..|reqs|] == reqs;
    if failed {
      if config.commentIfFailed.Some? {
        comments := comments + [config.commentIfFailed.value];
      }
      r := Some(WithComments(gradeWith(config.graderFailed), comments));
    } else {
      r := None;
    }
  }

  /** `grade`: no JUnit result gives no points and consults no grader; then the must-pass
      requirements decide, then the must-fail ones, and only when both hold is the
      passed grader's result returned, unchanged. */
  method Grade(
    config: Config,
    jUnitResults: Option<map<TestRef, TestExecutionResult>>,
    gradeWith: Grader -> GradeResult)
    returns (r: GradeResult)
    ensures jUnitResults.None? ==> r == OfNone()
    ensures jUnitResults.Some? && AnyMismatch(config.requirePass, jUnitResults.value, Successful) ==>
      r == WithComments(gradeWith(config.graderFailed),
                        MismatchComments(config.requirePass, jUnitResults.value, Successful)
                        + OptionToSeq(config.commentIfFailed))
    ensures jUnitResults.Some? && !AnyMismatch(config.requirePass, jUnitResults.value, Successful)
            && AnyMismatch(config.requireFail, jUnitResults.value, Failed) ==>
      r == WithComments(gradeWith(config.graderFailed),
                        MismatchComments(config.requireFail, jUnitResults.value, Failed)
                        + OptionToSeq(config.commentIfFailed))
    ensures jUnitResults.Some? && !AnyMismatch(config.requirePass, jUnitResults.value, Successful)
            && !AnyMismatch(config.requireFail, jUnitResults.value, Failed) ==>
      r == gradeWith(config.graderPassed)
  {
    if jUnitResults.None? {
      return OfNone();
    }
    var results := jUnitResults.value;
    var passCheck := Must(config, config.requirePass, results, Successful, gradeWith);
    if passCheck.Some? {
      return passCheck.value;
    }
    var failCheck := Must(config, config.requireFail, results, Failed, gradeWith);
    if failCheck.Some? {
      return failCheck.value;
    }
    r := gradeWith(config.graderPassed);
  }

  /** Mismatch comments of consecutive requirement lists concatenate: the comments follow
      the requirements' iteration order. */
  lemma {:induction false} MismatchCommentsAppend(
    a: seq<Requirement>, b: seq<Requirement>,
    results: map<TestRef, TestExecutionResult>, expected: Status)
    ensures MismatchComments(a + b, results, expected)
         == MismatchComments(a, results, expected) + MismatchComments(b, results, expected)
    decreases |b|
  {
    if |b| == 0 {
      assert a + b == a;
    } else {
      var b' := b[..|b| - 1];
      assert (a + b)[..|a + b| - 1] == a + b';
      assert (a + b)[|a + b| - 1] == b[|b| - 1];
      MismatchCommentsAppend(a, b', results, expected);
    }
  }

  /** Requirements that all hold contribute no comment. */
  lemma {:induction false} NoMismatchNoComments(
    reqs: seq<Requirement>, results: map<TestRef, TestExecutionResult>, expected: Status)
    requires !AnyMismatch(reqs, results, expected)
    ensures MismatchComments(reqs, results, expected) == []
  {
    if |reqs| > 0 {
      var init := reqs[..|reqs| - 1];
      assert !AnyMismatch(init, results, expected) by {
        forall k | 0 <= k < |init| ensures !Mismatch(init[k], results, expected) {
          assert init[k] == reqs[k];
        }
      }
      NoMismatchNoComments(init, results, expected);
      assert !Mismatch(reqs[|reqs| - 1], results, expected);
    }
  }

  /** When every requirement carries its own comment, each violated requirement contributes
      exactly its configured comment, whatever its test's throwable says. */
  lemma {:induction false} ConfiguredCommentsOverride(
    reqs: seq<Requirement>, results: map<TestRef, TestExecutionResult>, expected: Status)
    requires forall k :: 0 <= k < |reqs| ==> reqs[k].comment.Some?
    ensures |MismatchComments(reqs, results, expected)| == MismatchCount(reqs, results, expected)
    ensures forall c :: c in MismatchComments(reqs, results, expected) ==>
      exists k :: 0 <= k < |reqs| && Mismatch(reqs[k], results, expected) && reqs[k].comment == Some(c)
  {
    if |reqs| > 0 {
      var init := reqs[..|reqs| - 1];
      var last := reqs[|reqs| - 1];
      ConfiguredCommentsOverride(init, results, expected);
      forall c | c in MismatchComments(reqs, results, expected)
        ensures exists k :: 0 <= k < |reqs| && Mismatch(reqs[k], results, expected) && reqs[k].comment == Some(c)
      {
        if c in MismatchComments(init, results, expected) {
          var k :| 0 <= k < |init| && Mismatch(init[k], results, expected) && init[k].comment == Some(c);
          assert reqs[k] == init[k];
        } else {
          assert c in CommentFor(last, results, expected);
          assert reqs[|reqs| - 1] == last;
        }
      }
    }
  }

  /** The number of violated requirements. */
  function MismatchCount(reqs: seq<Requirement>, results: map<TestRef, TestExecutionResult>, expected: Status): nat
  {
    if |reqs| == 0 then 0
    else MismatchCount(reqs[..|reqs| - 1], results, expected)
         + (if Mismatch(reqs[|reqs| - 1], results, expected) then 1 else 0)
  }
}
