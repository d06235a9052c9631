/** The graded-rubric data the grading pipeline produces and the exporters read. */
module Rubric {
  import opened Wrappers

  /** A criterion of a rubric: its short description, its point bounds and hidden notes. */
  datatype Criterion = Criterion(
    shortDescription: string,
    minPoints: int,
    maxPoints: int,
    hiddenNotes: Option<string>)

  /** The grade given to a criterion: the achieved point range and its comments. */
  datatype GradeResult = GradeResult(minPoints: int, maxPoints: int, comments: seq<string>)

  /** A criterion together with its grade and its graded sub-criteria. */
  datatype GradedCriterion = GradedCriterion(
    criterion: Criterion,
    grade: GradeResult,
    childCriteria: seq<GradedCriterion>)

  /** A whole graded rubric: the rubric's title and points, the overall grade and the
      top-level graded criteria. */
  datatype GradedRubric = GradedRubric(
    title: string,
    rubricMinPoints: int,
    rubricMaxPoints: int,
    grade: GradeResult,
    childCriteria: seq<GradedCriterion>)

  /** `GradeResult.ofNone()`: no points and no comments. */
  function OfNone(): GradeResult {
    GradeResult(0, 0, [])
  }

  /** `GradeResult.withComments(grade, comments)`: the same points, the given comments
      after the grade's own. */
  function WithComments(grade: GradeResult, comments: seq<string>): (r: GradeResult)
    ensures r.minPoints == grade.minPoints && r.maxPoints == grade.maxPoints
    ensures |r.comments| == |grade.comments| + |comments|
    ensures r.comments[..|grade.comments|] == grade.comments
    ensures r.comments[|grade.comments|..] == comments
  {
    GradeResult(grade.minPoints, grade.maxPoints, grade.comments + comments)
  }

  /** A produced file: its name and its text. */
  datatype Resource = Resource(name: string, content: string)
}
