/** The grading queue of one batch: it keeps the graders without compile errors and the
    submissions that carry submission info, and hands out one grading request per
    submission, in list order, until the list is exhausted; from then on it is finished. */
module GradingQueue {
  import opened Wrappers
  import opened Logging

  /** A UTC timestamp read from the clock; only its identity matters here. */
  type Instant = int

  /** Compiled classes of a library, by class name. */
  type Libraries = map<string, seq<bv8>>

  /** The parsed `submission-info.json` of a submission. */
  datatype SubmissionInfo = SubmissionInfo(assignmentId: string, studentId: string)

  /** A class transformer, by identity: the built-in submission verification, or a named
      one (the caller's common transformer or one configured by a grader). */
  datatype Transformer = SubmissionVerification | Named(name: string)

  /** A compiled grader container: its error count and, when it is loaded, the assignment
      ids it has rubric providers for and the transformers its rubric providers configured. */
  datatype CompiledGrader = CompiledGrader(
    name: string,
    errors: int,
    rubricAssignments: set<string>,
    transformers: seq<Transformer>)

  /** A grader admitted to the batch. */
  datatype GraderJar = GraderJar(name: string, rubricAssignments: set<string>, transformers: seq<Transformer>)

  /** A compiled submission container and its submission info, absent when the container
      had no parsable `submission-info.json`. */
  datatype CompiledSubmission = CompiledSubmission(name: string, submissionInfo: Option<SubmissionInfo>)

  /** A submission admitted to the batch. */
  datatype Submission = Submission(name: string, info: SubmissionInfo)

  /** One unit of work handed to a worker. */
  datatype GradingRequest = GradingRequest(
    submission: Submission,
    graders: seq<GraderJar>,
    baseLibraries: Libraries,
    graderLibraries: Libraries)

  function JarOf(c: CompiledGrader): GraderJar {
    GraderJar(c.name, c.rubricAssignments, c.transformers)
  }

  /** The graders kept at construction: those whose compile result has no errors, in order. */
  function KeptGraders(candidates: seq<CompiledGrader>): (r: seq<GraderJar>)
    ensures |r| <= |candidates|
    ensures forall g :: g in r <==> exists c :: c in candidates && c.errors == 0 && g == JarOf(c)
  {
    if |candidates| == 0 then []
    else
      var c := candidates[0];
      var rest := KeptGraders(candidates[1..]);
      assert forall x :: x in candidates <==> x == c || x in candidates[1..];
      if c.errors == 0 then [JarOf(c)] + rest else rest
  }

  /** The submissions kept at construction: those with submission info, in order. */
  function KeptSubmissions(candidates: seq<CompiledSubmission>): (r: seq<Submission>)
    ensures |r| <= |candidates|
    ensures forall s :: s in r <==>
      exists c :: c in candidates && c.submissionInfo == Some(s.info) && c.name == s.name
  {
    if |candidates| == 0 then []
    else
      var c := candidates[0];
      var rest := KeptSubmissions(candidates[1..]);
      assert forall x :: x in candidates <==> x == c || x in candidates[1..];
      if c.submissionInfo.Some? then [Submission(c.name, c.submissionInfo.value)] + rest else rest
  }

  /** Keeping graders distributes over concatenation, and one candidate is kept exactly
      when it compiled without errors: so the kept graders are the error-free candidates,
      each once, in candidate order. */
  lemma {:induction false} KeptGradersAppend(a: seq<CompiledGrader>, b: seq<CompiledGrader>)
    ensures KeptGraders(a + b) == KeptGraders(a) + KeptGraders(b)
    ensures |a| == 1 ==> KeptGraders(a) == if a[0].errors == 0 then [JarOf(a[0])] else []
  {
    if |a| > 0 {
      assert (a + b)[0] == a[0] && (a + b)[1..] == a[1..] + b;
      KeptGradersAppend(a[1..], b);
    } else {
      assert a + b == b;
    }
  }

  /** The line logged for a submission candidate without submission info. */
  function SkippedMessage(containerName: string): string {
    containerName + " does not have a submission-info.json! Skipping..."
  }

  /** The lines logged while keeping submissions: one error per candidate without
      submission info, in candidate order. */
  function SkippedLog(candidates: seq<CompiledSubmission>): (r: seq<LogLine>)
    ensures |r| <= |candidates|
  {
    if |candidates| == 0 then []
    else
      var c := candidates[0];
      (if c.submissionInfo.None? then [ErrorLine(SkippedMessage(c.name))] else []) + SkippedLog(candidates[1..])
  }

  /** Keeping submissions distributes over concatenation, and one candidate is kept exactly
      when it has submission info: so the kept submissions are the candidates with info,
      each once, in candidate order. */
  lemma {:induction false} KeptSubmissionsAppend(a: seq<CompiledSubmission>, b: seq<CompiledSubmission>)
    ensures KeptSubmissions(a + b) == KeptSubmissions(a) + KeptSubmissions(b)
    ensures |a| == 1 ==> KeptSubmissions(a) == match a[0].submissionInfo
      case Some(info) => [Submission(a[0].name, info)]
      case None => []
  {
    if |a| > 0 {
      assert (a + b)[0] == a[0] && (a + b)[1..] == a[1..] + b;
      KeptSubmissionsAppend(a[1..], b);
    } else {
      assert a + b == b;
    }
  }

  /** The skip log distributes over concatenation, and one candidate is logged exactly when
      it has no submission info: so every candidate without info gets its error line, in
      candidate order. */
  lemma {:induction false} SkippedLogAppend(a: seq<CompiledSubmission>, b: seq<CompiledSubmission>)
    ensures SkippedLog(a + b) == SkippedLog(a) + SkippedLog(b)
    ensures |a| == 1 ==> SkippedLog(a) == match a[0].submissionInfo
      case Some(_) => []
      case None => [ErrorLine(SkippedMessage(a[0].name))]
  {
    if |a| > 0 {
      assert (a + b)[0] == a[0] && (a + b)[1..] == a[1..] + b;
      SkippedLogAppend(a[1..], b);
    } else {
      assert a + b == b;
    }
  }

  /** Every submission candidate is either kept or logged as skipped, never both. */
  lemma {:induction false} KeptOrSkipped(candidates: seq<CompiledSubmission>)
    ensures |KeptSubmissions(candidates)| + |SkippedLog(candidates)| == |candidates|
  {
    if |candidates| > 0 {
      KeptOrSkipped(candidates[1..]);
    }
  }

  /** A grader's transformers apply to a submission only if the submission's assignment id
      is one that grader has a rubric provider for. */
  predicate Applies(g: GraderJar, info: Option<SubmissionInfo>) {
    info.Some? && info.value.assignmentId in g.rubricAssignments
  }

  /** The transformers contributed by the graders, in grader order. */
  function GraderTransformers(graders: seq<GraderJar>, info: Option<SubmissionInfo>): seq<Transformer> {
    if |graders| == 0 then []
    else (if Applies(graders[0], info) then graders[0].transformers else [])
         + GraderTransformers(graders[1..], info)
  }

  /** The transformer chain a submission is compiled with: verification first, then the
      common transformer, then the applicable graders' transformers. */
  function SubmissionTransformers(graders: seq<GraderJar>, common: Transformer, info: Option<SubmissionInfo>): (r: seq<Transformer>)
    ensures |r| >= 2 && r[0] == SubmissionVerification && r[1] == common
  {
    [SubmissionVerification, common] + GraderTransformers(graders, info)
  }

  /** A submission whose assignment id matches no grader (or that has no info) gets only
      the verification and common transformers. */
  lemma {:induction false} NoApplicableGrader(graders: seq<GraderJar>, common: Transformer, info: Option<SubmissionInfo>)
    requires forall k :: 0 <= k < |graders| ==> !Applies(graders[k], info)
    ensures SubmissionTransformers(graders, common, info) == [SubmissionVerification, common]
  {
    GraderTransformersEmpty(graders, info);
  }

  lemma {:induction false} GraderTransformersEmpty(graders: seq<GraderJar>, info: Option<SubmissionInfo>)
    requires forall k :: 0 <= k < |graders| ==> !Applies(graders[k], info)
    ensures GraderTransformers(graders, info) == []
  {
    if |graders| > 0 {
      assert !Applies(graders[0], info);
      GraderTransformersEmpty(graders[1..], info);
    }
  }

  /** Every transformer of an applicable grader is in the chain, and the chain holds
      nothing but the two fixed transformers and those of applicable graders. */
  lemma {:induction false} ApplicableGraderIncluded(graders: seq<GraderJar>, info: Option<SubmissionInfo>, i: nat)
    requires i < |graders| && Applies(graders[i], info)
    ensures forall t :: t in graders[i].transformers ==> t in GraderTransformers(graders, info)
  {
    if i > 0 {
      ApplicableGraderIncluded(graders[1..], info, i - 1);
    }
  }

  lemma {:induction false} OnlyApplicableGraders(graders: seq<GraderJar>, info: Option<SubmissionInfo>, t: Transformer)
    requires t in GraderTransformers(graders, info)
    ensures exists k :: 0 <= k < |graders| && Applies(graders[k], info) && t in graders[k].transformers
  {
    if t in (if Applies(graders[0], info) then graders[0].transformers else []) {
    } else {
      OnlyApplicableGraders(graders[1..], info, t);
      var k :| 0 <= k < |graders[1..]| && Applies(graders[1..][k], info) && t in graders[1..][k].transformers;
      assert graders[k + 1] == graders[1..][k];
    }
  }

  /** The dispensing state: the iterator position, the remaining count and the finish time. */
  datatype QueueState = QueueState(cursor: nat, remaining: int, finishedUtc: Option<Instant>)

  /** The state of a fresh queue over `submissions`. */
  function Initial(submissions: seq<Submission>): QueueState {
    QueueState(0, |submissions|, None)
  }

  /** One `next()` call at time `now`: the new state and the submission handed out. */
  function Step(submissions: seq<Submission>, s: QueueState, now: Instant): (QueueState, Option<Submission>) {
    if s.finishedUtc.Some? then (s, None)
    else if s.cursor < |submissions| then
      (QueueState(s.cursor + 1, s.remaining - 1, None), Some(submissions[s.cursor]))
    else (QueueState(s.cursor, s.remaining, Some(now)), None)
  }

  /** `|nows|` successive `next()` calls, the k-th at time `nows[k]`: the final state and
      what each call returned. */
  function Run(submissions: seq<Submission>, s: QueueState, nows: seq<Instant>): (QueueState, seq<Option<Submission>>)
  {
    if |nows| == 0 then (s, [])
    else
      var (s', out) := Run(submissions, s, nows[..|nows| - 1]);
      var (s'', r) := Step(submissions, s', nows[|nows| - 1]);
      (s'', out + [r])
  }

  function Min(a: nat, b: nat): nat {
    if a < b then a else b
  }

  /** The number of requests handed out among `out`. */
  function Dispensed(out: seq<Option<Submission>>): nat {
    if |out| == 0 then 0 else Dispensed(out[..|out| - 1]) + (if out[|out| - 1].Some? then 1 else 0)
  }

  /** Any number of `next()` calls on a fresh queue: the k-th call hands out the k-th
      submission while there is one and nothing afterwards, so each submission goes out once
      and in list order; `remaining` drops by one per request handed out and ends at zero,
      never below; the queue is finished exactly when a call found the list exhausted, and
      its finish time is that of the first such call, never reassigned later. */
  lemma {:induction false} RunFromInitial(submissions: seq<Submission>, nows: seq<Instant>)
    ensures var (s, out) := Run(submissions, Initial(submissions), nows);
      && |out| == |nows|
      && (forall k :: 0 <= k < |out| ==> out[k] == if k < |submissions| then Some(submissions[k]) else None)
      && s.cursor == Min(|nows|, |submissions|)
      && Dispensed(out) == Min(|nows|, |submissions|)
      && s.remaining == |submissions| - Dispensed(out) >= 0
      && (s.finishedUtc.Some? <==> |nows| > |submissions|)
      && (|nows| > |submissions| ==> s.finishedUtc == Some(nows[|submissions|]))
  {
    if |nows| > 0 {
      var init := nows[..|nows| - 1];
      RunFromInitial(submissions, init);
      var (s', out) := Run(submissions, Initial(submissions), init);
      if |nows| - 1 > |submissions| {
        assert init[|submissions|] == nows[|submissions|];
      }
      var (s'', r) := Step(submissions, s', nows[|nows| - 1]);
      assert (out + [r])[..|out|] == out;
    }
  }

  /** The grading queue object; the mutex that serialises `next()` is not modelled, so
      calls are taken one at a time. */
  class GradingQueue {
    const graders: seq<GraderJar>
    const submissions: seq<Submission>
    const baseRuntimeLibraries: Libraries
    const graderRuntimeLibraries: Libraries
    const total: int
    const startedUtc: Instant
    /** The lines logged during construction about skipped submissions. */
    const constructionLog: seq<LogLine>
    var cursor: nat
    var remaining: int
    var finishedUtc: Option<Instant>

    ghost predicate Valid()
      reads this
    {
      && total == |submissions|
      && cursor <= |submissions|
      && remaining == total - cursor
      && (finishedUtc.Some? ==> cursor == |submissions|)
    }

    function State(): QueueState
      reads this
    {
      QueueState(cursor, remaining, finishedUtc)
    }

    /** Construction: keeps the error-free graders and the submissions with info; the
        grader libraries are the base libraries overridden by those only for graders. */
    constructor(
      graderCandidates: seq<CompiledGrader>,
      submissionCandidates: seq<CompiledSubmission>,
      submissionLibraries: Libraries,
      graderLibraries: Libraries,
      now: Instant)
      ensures Valid()
      ensures graders == KeptGraders(graderCandidates)
      ensures submissions == KeptSubmissions(submissionCandidates)
      ensures baseRuntimeLibraries == submissionLibraries
      ensures graderRuntimeLibraries == submissionLibraries + graderLibraries
      ensures total == |submissions| && State() == Initial(submissions)
      ensures startedUtc == now
      ensures constructionLog == SkippedLog(submissionCandidates)
    {
      graders := KeptGraders(graderCandidates);
      submissions := KeptSubmissions(submissionCandidates);
      baseRuntimeLibraries := submissionLibraries;
      graderRuntimeLibraries := submissionLibraries + graderLibraries;
      total := |KeptSubmissions(submissionCandidates)|;
      startedUtc := now;
      constructionLog := SkippedLog(submissionCandidates);
      cursor := 0;
      remaining := |KeptSubmissions(submissionCandidates)|;
      finishedUtc := None;
    }

    /** `next()` at time `now`: a request for the next submission while there is one;
        otherwise the queue becomes finished (once) and nothing is returned. */
    method Next(now: Instant) returns (r: Option<GradingRequest>)
      requires Valid()
      modifies this
      ensures Valid()
      ensures var (s, sub) := Step(submissions, old(State()), now);
        && State() == s
        && r.Some? == sub.Some?
        && (r.Some? ==> r.value == GradingRequest(sub.value, graders, baseRuntimeLibraries, graderRuntimeLibraries))
      ensures old(finishedUtc).Some? ==> r.None? && State() == old(State())
      ensures r.Some? ==> remaining == old(remaining) - 1
    {
      if finishedUtc.Some? {
        return None;
      }
      if cursor < |submissions| {
        remaining := remaining - 1;
        r := Some(GradingRequest(submissions[cursor], graders, baseRuntimeLibraries, graderRuntimeLibraries));
        cursor := cursor + 1;
      } else {
        finishedUtc := Some(now);
        r := None;
      }
    }
  }
}
