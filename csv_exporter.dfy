/** The tab-separated report of a graded rubric, in German: a `sep=` line for spreadsheet
    programs, the title, a header row, one row per criterion (a parent's children below
    it and a blank line after it), a blank line after every top-level criterion, and the
    total with the overall comments. `Criterion.minMax` and `GradeResult.getInRange` are
    defined elsewhere and are supplied as functions. */
module GermanCsvExporter {
  import opened Wrappers
  import opened Strings
  import opened Rubric
  import opened Sequences

  /** `DEL`, the field delimiter, as the string `append(DEL)` writes. */
  const Del: string := "\t"

  /** What `appendLine()` writes after a line. */
  const LineBreak: string := "\n"

  /** The conversions field text goes through: `Criterion.minMax`, `getInRange` of a grade
      within given point bounds, and `Int.toString()`. */
  datatype Conversions = Conversions(
    minMax: (int, int) -> string,
    inRange: (GradeResult, int, int) -> string,
    number: int -> string)

  /** The conversions of the source: the supplied point ranges and `Int.toString()`. */
  function CsvConversions(minMax: (int, int) -> string, inRange: (GradeResult, int, int) -> string): (cv: Conversions)
    ensures cv.minMax == minMax && cv.inRange == inRange && cv.number == IntToString
  {
    Conversions(minMax, inRange, IntToString)
  }

  // ---------------------------------------------------------------- the file as rows

  /** The fields of one line. */
  type Row = seq<string>

  /** `hiddenNotes ?: ""`. */
  function Notes(c: Criterion): string {
    match c.hiddenNotes
    case Some(notes) => notes
    case None => ""
  }

  /** `comments.joinToString("; ")`. */
  function CommentsText(g: GradeResult): string {
    Join(g.comments, "; ")
  }

  /** A leaf's row: description, possible points, achieved points, comments and notes. */
  function LeafRow(r: GradedCriterion, cv: Conversions): Row {
    [r.criterion.shortDescription,
     cv.minMax(r.criterion.minPoints, r.criterion.maxPoints),
     cv.inRange(r.grade, r.criterion.minPoints, r.criterion.maxPoints),
     CommentsText(r.grade),
     Notes(r.criterion)]
  }

  /** A parent's row: the description, two empty fields, and the comments run together
      with the notes in the fourth field. */
  function ParentRow(r: GradedCriterion): Row {
    [r.criterion.shortDescription, "", "", CommentsText(r.grade) + Notes(r.criterion)]
  }

  /** An empty line. */
  const BlankRow: Row := [""]

  /** The rows of a criterion: a leaf's one row, or a parent's row, its children's rows
      and a blank line. */
  function CriterionRows(r: GradedCriterion, cv: Conversions): seq<Row>
    decreases r, 1
  {
    if |r.childCriteria| == 0 then [LeafRow(r, cv)]
    else [ParentRow(r)] + CriteriaRows(r.childCriteria, cv) + [BlankRow]
  }

  function CriteriaRows(rs: seq<GradedCriterion>, cv: Conversions): seq<Row>
    decreases rs, 0
  {
    if |rs| == 0 then [] else CriteriaRows(rs[..|rs| - 1], cv) + CriterionRows(rs[|rs| - 1], cv)
  }

  /** The rows of the top-level criteria, each followed by a blank line. */
  function TopRows(rs: seq<GradedCriterion>, cv: Conversions): seq<Row> {
    if |rs| == 0 then [] else TopRows(rs[..|rs| - 1], cv) + CriterionRows(rs[|rs| - 1], cv) + [BlankRow]
  }

  /** `sep=<tab>`: an empty field after `sep=`. */
  const SepRow: Row := ["sep=", ""]

  const HeaderRow: Row := ["Kriterium", "Möglich", "Erzielt", "Kommentar", "Extra"]

  /** `firstOrNull() ?: ""`. */
  function FirstOrEmpty(comments: seq<string>): string {
    if |comments| == 0 then "" else comments[0]
  }

  /** The comments after the first (`1 until size`). */
  function Later(comments: seq<string>): seq<string> {
    if |comments| == 0 then [] else comments[1..]
  }

  /** The total: `Gesamt`, the rubric's maximum, the grade within the rubric's bounds and
      the first overall comment. */
  function TotalRow(rubric: GradedRubric, cv: Conversions): Row {
    ["Gesamt", cv.number(rubric.rubricMaxPoints),
     cv.inRange(rubric.grade, rubric.rubricMinPoints, rubric.rubricMaxPoints),
     FirstOrEmpty(rubric.grade.comments)]
  }

  /** Each of the given comments in the fourth field of a row of its own. */
  function CommentRows(comments: seq<string>): (rows: seq<Row>)
    ensures |rows| == |comments|
    ensures forall j :: 0 <= j < |comments| ==> rows[j] == ["", "", "", comments[j]]
  {
    if |comments| == 0 then []
    else CommentRows(comments[..|comments| - 1]) + [["", "", "", comments[|comments| - 1]]]
  }

  /** All rows of the file. */
  function Rows(rubric: GradedRubric, cv: Conversions): seq<Row> {
    [SepRow, [rubric.title], HeaderRow]
    + TopRows(rubric.childCriteria, cv)
    + [TotalRow(rubric, cv)]
    + CommentRows(Later(rubric.grade.comments))
  }

  /** Rows as text: each row's fields joined by the delimiter, each line ended by a line
      break. */
  function Render(rows: seq<Row>): string {
    if |rows| == 0 then "" else Render(rows[..|rows| - 1]) + Join(rows[|rows| - 1], Del) + LineBreak
  }

  /** The text of the file `export` writes. */
  function CsvText(rubric: GradedRubric, cv: Conversions): string {
    Render(Rows(rubric, cv))
  }

  /** The name of the file: the rubric's title and the submission's info. */
  function FileName(title: string, submissionInfo: string): (name: string)
    ensures |name| == |title| + |submissionInfo| + 5
    ensures name[..|title|] == title && name[|title|] == '_'
    ensures name[|title| + 1..|name| - 4] == submissionInfo && EndsWith(name, ".csv")
  {
    title + "_" + submissionInfo + ".csv"
  }

  // ---------------------------------------------------------------- reading it back

  /** The reader the `sep=` line asks for: the text up to its last line break, split into
      lines and each line into fields at the delimiter. */
  function Parse(text: string): seq<Row> {
    var lines := Split(text, '\n');
    seq(|lines| - 1, i requires 0 <= i < |lines| - 1 => Split(lines[i], '\t'))
  }

  /** Rows fit for the format: none is without fields, and no field holds the delimiter or
      a line break. */
  predicate Plain(rows: seq<Row>) {
    forall i :: 0 <= i < |rows| ==>
      |rows[i]| >= 1 && forall k :: 0 <= k < |rows[i]| ==> '\t' !in rows[i][k] && '\n' !in rows[i][k]
  }

  /** The lines of rendered rows. */
  function Lines(rows: seq<Row>): (lines: seq<string>)
    ensures |lines| == |rows|
    ensures forall i :: 0 <= i < |rows| ==> lines[i] == Join(rows[i], Del)
  {
    seq(|rows|, i requires 0 <= i < |rows| => Join(rows[i], Del))
  }

  /** Rendering joins the lines with line breaks and ends the last one. */
  lemma {:induction false} RenderJoin(rows: seq<Row>)
    ensures Render(rows) == Join(Lines(rows) + [""], LineBreak)
  {
    if |rows| > 0 {
      var init := rows[..|rows| - 1];
      var line := Join(rows[|rows| - 1], Del);
      RenderJoin(init);
      assert Lines(rows) == Lines(init) + [line];
      JoinSnoc(Lines(rows), "", LineBreak);
      if |init| > 0 {
        JoinSnoc(Lines(init), line, LineBreak);
        JoinSnoc(Lines(init), "", LineBreak);
      } else {
        assert Lines(rows) == [line];
        assert Render(init) == "";
      }
    }
  }

  /** Reading rendered rows gives the rows back, as long as they are plain. */
  lemma ParseRender(rows: seq<Row>)
    requires Plain(rows)
    ensures Parse(Render(rows)) == rows
  {
    var lines := Lines(rows);
    assert Split(Render(rows), '\n') == lines + [""] by {
      forall i | 0 <= i < |lines|
        ensures '\n' !in lines[i]
      {
        JoinKeepsOut(rows[i], Del, '\n');
      }
      RenderJoin(rows);
      assert ['\n'] == LineBreak;
      SplitJoin(lines + [""], '\n');
    }
    forall i | 0 <= i < |rows|
      ensures Split(lines[i], '\t') == rows[i]
    {
      SplitJoin(rows[i], '\t');
    }
  }

  /** The file read back: the `sep=` line, the title, the header, the criteria, the total
      and then one row per further overall comment, in its fourth field. */
  lemma CsvLayout(rubric: GradedRubric, cv: Conversions)
    requires Plain(Rows(rubric, cv))
    ensures var p, top, later := Parse(CsvText(rubric, cv)), TopRows(rubric.childCriteria, cv), Later(rubric.grade.comments);
      && |p| == 4 + |top| + |later|
      && p[..3] == [SepRow, [rubric.title], HeaderRow]
      && p[3..3 + |top|] == top
      && p[3 + |top|] == TotalRow(rubric, cv)
      && p[4 + |top|..] == CommentRows(later)
  {
    var rows := Rows(rubric, cv);
    assert Parse(CsvText(rubric, cv)) == rows by {
      ParseRender(rows);
    }
    var head, top := [SepRow, [rubric.title], HeaderRow], TopRows(rubric.childCriteria, cv);
    var total, more := [TotalRow(rubric, cv)], CommentRows(Later(rubric.grade.comments));
    assert rows == head + top + total + more;
    Slices4(head, top, total, more);
  }

  /** The number of rows a criterion takes: a leaf one, a parent two more than its
      children. */
  function RowCount(r: GradedCriterion): nat
    decreases r, 1
  {
    if |r.childCriteria| == 0 then 1 else 2 + RowCountAll(r.childCriteria)
  }

  function RowCountAll(rs: seq<GradedCriterion>): nat
    decreases rs, 0
  {
    if |rs| == 0 then 0 else RowCountAll(rs[..|rs| - 1]) + RowCount(rs[|rs| - 1])
  }

  /** A criterion's rows: its own row first (a leaf's with five fields, a parent's with
      four), and a parent's end with a blank line. */
  lemma {:induction false} CriterionRowsLayout(r: GradedCriterion, cv: Conversions)
    ensures |CriterionRows(r, cv)| == RowCount(r)
    ensures CriterionRows(r, cv)[0] == if |r.childCriteria| == 0 then LeafRow(r, cv) else ParentRow(r)
    ensures |r.childCriteria| > 0 ==> CriterionRows(r, cv)[RowCount(r) - 1] == BlankRow
    decreases r, 1
  {
    if |r.childCriteria| > 0 {
      CriteriaRowCount(r.childCriteria, cv);
    }
  }

  lemma {:induction false} CriteriaRowCount(rs: seq<GradedCriterion>, cv: Conversions)
    ensures |CriteriaRows(rs, cv)| == RowCountAll(rs)
    decreases rs, 0
  {
    if |rs| > 0 {
      CriteriaRowCount(rs[..|rs| - 1], cv);
      CriterionRowsLayout(rs[|rs| - 1], cv);
    }
  }

  // ---------------------------------------------------------------- what the writer receives

  /** The strings `append` receives for a row's fields: the fields with the delimiter
      between them. */
  function Fields(row: Row): seq<string> {
    if |row| == 0 then []
    else if |row| == 1 then [row[0]]
    else [row[0], Del] + Fields(row[1..])
  }

  /** A row's fields and then `appendLine()`. */
  function RowPieces(row: Row): seq<string> {
    Fields(row) + [LineBreak]
  }

  /** What `appendCriterion` appends for a parent before its children. */
  function ParentPieces(r: GradedCriterion): seq<string> {
    [r.criterion.shortDescription, Del, Del, Del, CommentsText(r.grade), Notes(r.criterion), LineBreak]
  }

  /** What `appendCriterion` appends: a leaf's row, or a parent's row, its children and a
      line break. */
  function CriterionPieces(r: GradedCriterion, cv: Conversions): seq<string>
    decreases r, 1
  {
    if |r.childCriteria| == 0 then RowPieces(LeafRow(r, cv))
    else ParentPieces(r) + ChildPieces(r.childCriteria, cv) + [LineBreak]
  }

  function ChildPieces(rs: seq<GradedCriterion>, cv: Conversions): seq<string>
    decreases rs, 0
  {
    if |rs| == 0 then [] else ChildPieces(rs[..|rs| - 1], cv) + CriterionPieces(rs[|rs| - 1], cv)
  }

  /** What the loop over the top-level criteria appends. */
  function TopPieces(rs: seq<GradedCriterion>, cv: Conversions): seq<string> {
    if |rs| == 0 then [] else TopPieces(rs[..|rs| - 1], cv) + CriterionPieces(rs[|rs| - 1], cv) + [LineBreak]
  }

  /** What the opening of `export` appends: the `sep=` line, the title and the header. */
  function HeadPieces(title: string): seq<string> {
    ["sep=\t", LineBreak] + RowPieces([title]) + RowPieces(HeaderRow)
  }

  /** What the loop over the further comments appends. */
  function CommentPieces(comments: seq<string>): seq<string> {
    if |comments| == 0 then []
    else CommentPieces(comments[..|comments| - 1]) + ["\t\t\t" + comments[|comments| - 1], LineBreak]
  }

  /** Everything `export` appends. */
  function FilePieces(rubric: GradedRubric, cv: Conversions): seq<string> {
    HeadPieces(rubric.title)
    + TopPieces(rubric.childCriteria, cv)
    + RowPieces(TotalRow(rubric, cv))
    + CommentPieces(Later(rubric.grade.comments))
  }

  // ---------------------------------------------------------------- the pieces are the rows

  /** Four fields with the delimiter between them. */
  lemma Fields4(a: string, b: string, c: string, d: string)
    ensures Fields([a, b, c, d]) == [a, Del, b, Del, c, Del, d]
  {
    assert [c, d][1..] == [d];
    assert Fields([c, d]) == [c, Del, d];
    assert [b, c, d][1..] == [c, d];
    assert Fields([b, c, d]) == [b, Del, c, Del, d];
    assert [a, b, c, d][1..] == [b, c, d];
  }

  /** Five fields with the delimiter between them. */
  lemma Fields5(a: string, b: string, c: string, d: string, e: string)
    ensures Fields([a, b, c, d, e]) == [a, Del, b, Del, c, Del, d, Del, e]
  {
    Fields4(b, c, d, e);
    assert [a, b, c, d, e][1..] == [b, c, d, e];
  }

  /** The delimited fields are the joined row. */
  lemma {:induction false} FieldsText(row: Row)
    ensures Concat(Fields(row)) == Join(row, Del)
  {
    if |row| == 1 {
      Concat2("", row[0]);
      assert Concat([row[0]]) == row[0] by {
        assert [row[0]][..0] == [];
      }
    } else if |row| > 1 {
      FieldsText(row[1..]);
      ConcatAppend([row[0], Del], Fields(row[1..]));
      Concat2(row[0], Del);
    }
  }

  /** Two strings one after the other. */
  lemma Concat2(a: string, b: string)
    ensures Concat([a, b]) == a + b
  {
    assert [a, b][..1] == [a];
    assert Concat([a]) == a by {
      assert [a][..0] == [];
      assert "" + a == a;
    }
  }

  /** One row is its line. */
  lemma RenderOne(row: Row)
    ensures Render([row]) == Join(row, Del) + LineBreak
  {
    assert [row][..0] == [];
  }

  /** An empty first field leaves just the delimiter before the rest. */
  lemma JoinEmptyHead(rest: seq<string>)
    requires |rest| >= 1
    ensures Join([""] + rest, Del) == Del + Join(rest, Del)
  {
    assert ([""] + rest)[1..] == rest;
  }

  /** A row's pieces are its line. */
  lemma RowText(row: Row)
    ensures Concat(RowPieces(row)) == Render([row])
  {
    FieldsText(row);
    ConcatAppend(Fields(row), [LineBreak]);
    assert Concat([LineBreak]) == LineBreak by {
      assert [LineBreak][..0] == [];
    }
    RenderOne(row);
  }

  /** Seven pieces concatenate, left to right. */
  lemma Concat7(p: seq<string>)
    requires |p| == 7
    ensures Concat(p) == p[0] + p[1] + p[2] + p[3] + p[4] + p[5] + p[6]
  {
    assert Concat(p[..1]) == p[0] by {
      assert p[..1][..0] == [];
    }
    assert Concat(p[..2]) == p[0] + p[1] by {
      assert p[..2][..1] == p[..1];
    }
    assert Concat(p[..3]) == p[0] + p[1] + p[2] by {
      assert p[..3][..2] == p[..2];
    }
    assert Concat(p[..4]) == p[0] + p[1] + p[2] + p[3] by {
      assert p[..4][..3] == p[..3];
    }
    assert Concat(p[..5]) == p[0] + p[1] + p[2] + p[3] + p[4] by {
      assert p[..5][..4] == p[..4];
    }
    assert Concat(p[..6]) == p[0] + p[1] + p[2] + p[3] + p[4] + p[5] by {
      assert p[..6][..5] == p[..5];
    }
    assert p[..7] == p;
  }

  /** The line of a row of four fields whose middle two are empty. */
  lemma HollowRowText(d: string, x: string)
    ensures Render([[d, "", "", x]]) == d + Del + Del + Del + x + LineBreak
  {
    var row := [d, "", "", x];
    assert Join(["", x], Del) == Del + x by {
      JoinEmptyHead([x]);
    }
    assert Join(["", "", x], Del) == Del + (Del + x) by {
      JoinEmptyHead(["", x]);
    }
    assert Join(row, Del) == d + Del + (Del + (Del + x)) by {
      assert row[1..] == ["", "", x];
    }
    Regroup4(d, Del, Del, Del, x);
    RenderOne(row);
  }

  /** The pieces of a parent line, for any description `d`, comments `c` and notes `n`,
      make the line of the row `[d, "", "", c + n]`. */
  lemma ParentLine(d: string, c: string, n: string)
    ensures Concat([d, Del, Del, Del, c, n, LineBreak]) == Render([[d, "", "", c + n]])
  {
    Concat7([d, Del, Del, Del, c, n, LineBreak]);
    HollowRowText(d, c + n);
    assert d + Del + Del + Del + c + n == d + Del + Del + Del + (c + n);
  }

  /** A parent's pieces are its row's line. */
  lemma ParentText(r: GradedCriterion)
    ensures Concat(ParentPieces(r)) == Render([ParentRow(r)])
  {
    ParentLine(r.criterion.shortDescription, CommentsText(r.grade), Notes(r.criterion));
  }

  /** A further comment's pieces are its row's line. */
  lemma CommentText(comment: string)
    ensures Concat(["\t\t\t" + comment, LineBreak]) == Render([["", "", "", comment]])
  {
    Concat2("\t\t\t" + comment, LineBreak);
    assert Join(["", comment], Del) == Del + comment by {
      JoinEmptyHead([comment]);
    }
    assert Join(["", "", comment], Del) == Del + (Del + comment) by {
      JoinEmptyHead(["", comment]);
    }
    assert Join(["", "", "", comment], Del) == Del + (Del + (Del + comment)) by {
      JoinEmptyHead(["", "", comment]);
    }
    assert "\t\t\t" == Del + Del + Del;
    RenderOne(["", "", "", comment]);
  }

  /** Rendering two runs of rows appends their texts. */
  lemma {:induction false} RenderAppend(a: seq<Row>, b: seq<Row>)
    ensures Render(a + b) == Render(a) + Render(b)
    decreases |b|
  {
    if |b| > 0 {
      var b' := b[..|b| - 1];
      assert (a + b)[..|a + b| - 1] == a + b';
      RenderAppend(a, b');
    } else {
      assert a + b == a;
    }
  }

  /** What `appendCriterion` appends is the text of the criterion's rows. */
  lemma {:induction false} CriterionText(r: GradedCriterion, cv: Conversions)
    ensures Concat(CriterionPieces(r, cv)) == Render(CriterionRows(r, cv))
    decreases r, 1
  {
    if |r.childCriteria| == 0 {
      RowText(LeafRow(r, cv));
    } else {
      var head, children := ParentPieces(r), ChildPieces(r.childCriteria, cv);
      var rows := CriteriaRows(r.childCriteria, cv);
      assert Concat(head + children + [LineBreak]) == Concat(head) + Concat(children) + LineBreak by {
        ConcatAppend(head + children, [LineBreak]);
        ConcatAppend(head, children);
        assert [LineBreak][..0] == [];
      }
      assert Render([ParentRow(r)] + rows + [BlankRow]) == Render([ParentRow(r)]) + Render(rows) + LineBreak by {
        RenderAppend([ParentRow(r)] + rows, [BlankRow]);
        RenderAppend([ParentRow(r)], rows);
        assert [BlankRow][..0] == [];
      }
      ParentText(r);
      ChildrenText(r.childCriteria, cv);
    }
  }

  lemma {:induction false} ChildrenText(rs: seq<GradedCriterion>, cv: Conversions)
    ensures Concat(ChildPieces(rs, cv)) == Render(CriteriaRows(rs, cv))
    decreases rs, 0
  {
    if |rs| > 0 {
      var init, last := rs[..|rs| - 1], rs[|rs| - 1];
      ConcatAppend(ChildPieces(init, cv), CriterionPieces(last, cv));
      RenderAppend(CriteriaRows(init, cv), CriterionRows(last, cv));
      ChildrenText(init, cv);
      CriterionText(last, cv);
    }
  }

  /** What the loop over the top-level criteria appends is the text of their rows. */
  lemma {:induction false} TopText(rs: seq<GradedCriterion>, cv: Conversions)
    ensures Concat(TopPieces(rs, cv)) == Render(TopRows(rs, cv))
  {
    if |rs| > 0 {
      var init, last := rs[..|rs| - 1], rs[|rs| - 1];
      var before, entry := TopPieces(init, cv), CriterionPieces(last, cv);
      assert Concat(before + entry + [LineBreak]) == Concat(before) + Concat(entry) + LineBreak by {
        ConcatAppend(before + entry, [LineBreak]);
        ConcatAppend(before, entry);
        assert [LineBreak][..0] == [];
      }
      var rowsBefore, rows := TopRows(init, cv), CriterionRows(last, cv);
      assert Render(rowsBefore + rows + [BlankRow]) == Render(rowsBefore) + Render(rows) + LineBreak by {
        RenderAppend(rowsBefore + rows, [BlankRow]);
        RenderAppend(rowsBefore, rows);
        assert [BlankRow][..0] == [];
      }
      TopText(init, cv);
      CriterionText(last, cv);
    }
  }

  /** What the loop over the further comments appends is the text of their rows. */
  lemma {:induction false} LaterCommentsText(comments: seq<string>)
    ensures Concat(CommentPieces(comments)) == Render(CommentRows(comments))
  {
    if |comments| > 0 {
      var init, last := comments[..|comments| - 1], comments[|comments| - 1];
      ConcatAppend(CommentPieces(init), ["\t\t\t" + last, LineBreak]);
      RenderAppend(CommentRows(init), [["", "", "", last]]);
      LaterCommentsText(init);
      CommentText(last);
    }
  }

  /** The `sep=` line's pieces are its row's text. */
  lemma SepText()
    ensures Concat(["sep=\t", LineBreak]) == Render([SepRow])
  {
    Concat2("sep=\t", LineBreak);
    RenderOne(SepRow);
    assert SepRow[1..] == [""];
    assert "sep=\t" == "sep=" + Del + "";
  }

  /** Three lines' pieces, one after the other, are the three rows' text. */
  lemma ThreeRowsText(pa: seq<string>, pb: seq<string>, pc: seq<string>, ra: Row, rb: Row, rc: Row)
    requires Concat(pa) == Render([ra]) && Concat(pb) == Render([rb]) && Concat(pc) == Render([rc])
    ensures Concat(pa + pb + pc) == Render([ra, rb, rc])
  {
    ConcatAppend(pa + pb, pc);
    ConcatAppend(pa, pb);
    assert [ra, rb, rc] == [ra, rb] + [rc];
    assert [ra, rb] == [ra] + [rb];
    RenderAppend([ra, rb], [rc]);
    RenderAppend([ra], [rb]);
  }

  /** The opening lines' pieces are their rows' text. */
  lemma HeadText(title: string)
    ensures Concat(HeadPieces(title)) == Render([SepRow, [title], HeaderRow])
  {
    assert Concat(["sep=\t", LineBreak]) == Render([SepRow]) by {
      SepText();
    }
    assert Concat(RowPieces([title])) == Render([[title]]) by {
      RowText([title]);
    }
    assert Concat(RowPieces(HeaderRow)) == Render([HeaderRow]) by {
      RowText(HeaderRow);
    }
    ThreeRowsText(["sep=\t", LineBreak], RowPieces([title]), RowPieces(HeaderRow), SepRow, [title], HeaderRow);
  }

  /** Everything `export` appends is the text of the file's rows. */
  lemma FileText(rubric: GradedRubric, cv: Conversions)
    ensures Concat(FilePieces(rubric, cv)) == CsvText(rubric, cv)
  {
    var head, top := HeadPieces(rubric.title), TopPieces(rubric.childCriteria, cv);
    var total, more := RowPieces(TotalRow(rubric, cv)), CommentPieces(Later(rubric.grade.comments));
    ConcatAppend(head + top + total, more);
    ConcatAppend(head + top, total);
    ConcatAppend(head, top);
    var headRows, topRows := [SepRow, [rubric.title], HeaderRow], TopRows(rubric.childCriteria, cv);
    var totalRows, moreRows := [TotalRow(rubric, cv)], CommentRows(Later(rubric.grade.comments));
    RenderAppend(headRows + topRows + totalRows, moreRows);
    RenderAppend(headRows + topRows, totalRows);
    RenderAppend(headRows, topRows);
    HeadText(rubric.title);
    TopText(rubric.childCriteria, cv);
    RowText(TotalRow(rubric, cv));
    LaterCommentsText(Later(rubric.grade.comments));
  }

  // ---------------------------------------------------------------- the writer and the exporter

  /** `BufferedWriter`: the strings appended so far; its text is their concatenation. */
  class BufferedWriter {
    var pieces: seq<string>

    constructor()
      ensures pieces == []
    {
      pieces := [];
    }

    /** The text written so far. */
    function Text(): string
      reads this
    {
      Concat(pieces)
    }

    /** `append(s)`. */
    method Append(s: string)
      modifies this
      ensures pieces == old(pieces) + [s]
    {
      pieces := pieces + [s];
    }

    /** `appendLine(s)`: the string, then a line break. */
    method AppendLine(s: string)
      modifies this
      ensures pieces == old(pieces) + [s, LineBreak]
    {
      pieces := pieces + [s];
      pieces := pieces + [LineBreak];
    }

    /** `appendLine()`. */
    method EndLine()
      modifies this
      ensures pieces == old(pieces) + [LineBreak]
    {
      pieces := pieces + [LineBreak];
    }
  }

  /** `export(gradedRubric)`: the file of the rubric's rows, named after its title and the
      submission's info, with numbers written in decimal. */
  method Export(
    rubric: GradedRubric,
    submissionInfo: string,
    minMax: (int, int) -> string,
    inRange: (GradeResult, int, int) -> string)
    returns (res: Resource)
    ensures res == Resource(FileName(rubric.title, submissionInfo), CsvText(rubric, CsvConversions(minMax, inRange)))
  {
    var cv := CsvConversions(minMax, inRange);
    var w := new BufferedWriter();
    WriteTo(w, rubric, cv);
    assert w.pieces == FilePieces(rubric, cv);
    FileText(rubric, cv);
    res := Resource(FileName(rubric.title, submissionInfo), w.Text());
  }

  /** The local `BufferedWriter.export()`: the opening lines, the criteria, the total and
      the further comments. */
  method WriteTo(w: BufferedWriter, rubric: GradedRubric, cv: Conversions)
    modifies w
    ensures w.pieces == old(w.pieces) + FilePieces(rubric, cv)
  {
    HeadTo(w, rubric.title);
    TopTo(w, rubric.childCriteria, cv);
    TotalTo(w, rubric, cv);
    LaterCommentsTo(w, rubric.grade.comments);
    ghost var h, t := HeadPieces(rubric.title), TopPieces(rubric.childCriteria, cv);
    ghost var r, c := RowPieces(TotalRow(rubric, cv)), CommentPieces(Later(rubric.grade.comments));
    Regroup4(old(w.pieces), h, t, r, c);
  }

  /** The opening of `export`: the `sep=` line, the title line and the header row. */
  method HeadTo(w: BufferedWriter, title: string)
    modifies w
    ensures w.pieces == old(w.pieces) + HeadPieces(title)
  {
    w.AppendLine("sep=\t");
    w.AppendLine(title);
    HeaderTo(w);
    assert Fields([title]) == [title];
    Regroup2(old(w.pieces), ["sep=\t", LineBreak], [title, LineBreak]);
    Regroup2(old(w.pieces), ["sep=\t", LineBreak] + [title, LineBreak], RowPieces(HeaderRow));
  }

  /** The header row of `export`. */
  method HeaderTo(w: BufferedWriter)
    modifies w
    ensures w.pieces == old(w.pieces) + RowPieces(HeaderRow)
  {
    w.Append("Kriterium");
    w.Append(Del);
    w.Append("Möglich");
    w.Append(Del);
    w.Append("Erzielt");
    w.Append(Del);
    w.Append("Kommentar");
    w.Append(Del);
    w.Append("Extra");
    w.EndLine();
    assert w.pieces == old(w.pieces) + ["Kriterium", Del, "Möglich", Del, "Erzielt", Del, "Kommentar", Del, "Extra", LineBreak] by {
      Pushed10(old(w.pieces), "Kriterium", Del, "Möglich", Del, "Erzielt", Del, "Kommentar", Del, "Extra", LineBreak);
    }
    Fields5("Kriterium", "Möglich", "Erzielt", "Kommentar", "Extra");
  }

  /** The loop over the top-level criteria: each one's rows and a line break. */
  method TopTo(w: BufferedWriter, rs: seq<GradedCriterion>, cv: Conversions)
    modifies w
    ensures w.pieces == old(w.pieces) + TopPieces(rs, cv)
  {
    for i := 0 to |rs|
      invariant w.pieces == old(w.pieces) + TopPieces(rs[..i], cv)
    {
      ghost var done := TopPieces(rs[..i], cv);
      AppendCriterion(w, rs[i], cv);
      w.EndLine();
      assert rs[..i + 1][..i] == rs[..i];
      Regroup2(old(w.pieces) + done, CriterionPieces(rs[i], cv), [LineBreak]);
      Regroup2(old(w.pieces), done, CriterionPieces(rs[i], cv) + [LineBreak]);
    }
    assert rs[..|rs|] == rs;
  }

  /** The total row of `export`. */
  method TotalTo(w: BufferedWriter, rubric: GradedRubric, cv: Conversions)
    modifies w
    ensures w.pieces == old(w.pieces) + RowPieces(TotalRow(rubric, cv))
  {
    var comments := rubric.grade.comments;
    var maxPoints := cv.number(rubric.rubricMaxPoints);
    var inRange := cv.inRange(rubric.grade, rubric.rubricMinPoints, rubric.rubricMaxPoints);
    var first := if |comments| > 0 then comments[0] else "";
    w.Append("Gesamt");
    w.Append(Del);
    w.Append(maxPoints);
    w.Append(Del);
    w.Append(inRange);
    w.Append(Del);
    w.Append(first);
    w.EndLine();
    assert w.pieces == old(w.pieces) + RowPieces(["Gesamt", maxPoints, inRange, first]) by {
      Fields4("Gesamt", maxPoints, inRange, first);
      Pushed8(old(w.pieces), "Gesamt", Del, maxPoints, Del, inRange, Del, first, LineBreak);
    }
  }

  /** The loop over the overall comments after the first: each on a line of its own,
      after three delimiters. */
  method LaterCommentsTo(w: BufferedWriter, comments: seq<string>)
    modifies w
    ensures w.pieces == old(w.pieces) + CommentPieces(Later(comments))
  {
    var i := 1;
    while i < |comments|
      invariant 1 <= i && (|comments| == 0 || i <= |comments|)
      invariant |comments| > 0 ==> w.pieces == old(w.pieces) + CommentPieces(comments[1..i])
      invariant |comments| == 0 ==> w.pieces == old(w.pieces)
    {
      w.AppendLine("\t\t\t" + comments[i]);
      assert comments[1..i + 1][..i - 1] == comments[1..i];
      i := i + 1;
    }
    if |comments| > 0 {
      assert comments[1..i] == Later(comments);
    }
  }

  /** A leaf's row in `appendCriterion`. */
  method LeafRowTo(w: BufferedWriter, r: GradedCriterion, cv: Conversions)
    modifies w
    ensures w.pieces == old(w.pieces) + RowPieces(LeafRow(r, cv))
  {
    var criterion, grade := r.criterion, r.grade;
    var minMax := cv.minMax(criterion.minPoints, criterion.maxPoints);
    var inRange := cv.inRange(grade, criterion.minPoints, criterion.maxPoints);
    var comments := CommentsText(grade);
    var notes := Notes(criterion);
    w.Append(criterion.shortDescription);
    w.Append(Del);
    w.Append(minMax);
    w.Append(Del);
    w.Append(inRange);
    w.Append(Del);
    w.Append(comments);
    w.Append(Del);
    w.Append(notes);
    w.EndLine();
    assert w.pieces == old(w.pieces) + RowPieces([criterion.shortDescription, minMax, inRange, comments, notes]) by {
      Fields5(criterion.shortDescription, minMax, inRange, comments, notes);
      Pushed10(old(w.pieces), criterion.shortDescription, Del, minMax, Del, inRange, Del, comments, Del, notes, LineBreak);
    }
  }

  /** A parent's row in `appendCriterion`. */
  method ParentRowTo(w: BufferedWriter, r: GradedCriterion)
    modifies w
    ensures w.pieces == old(w.pieces) + ParentPieces(r)
  {
    var criterion, grade := r.criterion, r.grade;
    var comments := Join(grade.comments, "; ");
    w.Append(criterion.shortDescription);
    w.Append(Del);
    w.Append(Del);
    w.Append(Del);
    w.Append(comments);
    w.Append(Notes(criterion));
    w.EndLine();
  }

  /** `appendCriterion(gradedCriterion)`: a leaf's row, or a parent's row followed by its
      children and a line break. */
  method AppendCriterion(w: BufferedWriter, r: GradedCriterion, cv: Conversions)
    modifies w
    ensures w.pieces == old(w.pieces) + CriterionPieces(r, cv)
    decreases r
  {
    if |r.childCriteria| == 0 {
      LeafRowTo(w, r, cv);
    } else {
      ParentRowTo(w, r);
      ghost var head := w.pieces;
      var children := r.childCriteria;
      for i := 0 to |children|
        invariant w.pieces == head + ChildPieces(children[..i], cv)
      {
        ghost var done := ChildPieces(children[..i], cv);
        AppendCriterion(w, children[i], cv);
        assert children[..i + 1][..i] == children[..i];
        Regroup2(head, done, CriterionPieces(children[i], cv));
      }
      assert children[..|children|] == children;
      w.EndLine();
      Regroup2(old(w.pieces), ParentPieces(r), ChildPieces(children, cv));
    }
  }
}
