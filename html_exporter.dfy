/** The HTML report of a graded rubric: a Bootstrap table with one row per criterion,
    escaped text, a colour class on each leaf's grade cell, and document-wide cell ids and
    leaf numbers kept by the exporter instance. `PointRange.toString` is defined elsewhere
    and is supplied as a function. */
module BasicHtmlExporter {
  import opened Strings
  import opened Rubric
  import opened Sequences

  // ---------------------------------------------------------------- escaping

  /** `replace(Regex("(?<!\\\\)c"), entity)`: every `c` not directly preceded by a
      backslash becomes `entity`; this is the part from position `i` on. */
  function ReplaceUnescaped(s: string, c: char, entity: string, i: nat): string
    requires i <= |s|
    decreases |s| - i
  {
    if i == |s| then []
    else
      (if s[i] == c && !(i > 0 && s[i - 1] == '\\') then entity else [s[i]])
      + ReplaceUnescaped(s, c, entity, i + 1)
  }

  /** `escaped()`: unescaped angle brackets become entities, the backslash escapes `\<`
      and `\>` become plain brackets, and line breaks become `<br>`. */
  function Escaped(s: string): string {
    var t := ReplaceUnescaped(s, '<', "&lt;", 0);
    var t := ReplaceUnescaped(t, '>', "&gt;", 0);
    var t := ReplaceAll(t, "\\<", "<");
    var t := ReplaceAll(t, "\\>", ">");
    ReplaceAll(t, "\n", "<br>")
  }

  /** Plain HTML escaping of one character, the reference for text without backslashes. */
  function EscapeChar(c: char): string {
    if c == '<' then "&lt;" else if c == '>' then "&gt;" else if c == '\n' then "<br>" else [c]
  }

  /** Plain HTML escaping, character by character. */
  function HtmlEscape(s: string): string {
    if |s| == 0 then [] else EscapeChar(s[0]) + HtmlEscape(s[1..])
  }

  /** Without backslashes the lookbehind never applies: the regex replacement is plain
      substitution. */
  lemma {:induction false} ReplaceUnescapedPlain(s: string, c: char, entity: string, i: nat)
    requires i <= |s| && '\\' !in s
    ensures ReplaceUnescaped(s, c, entity, i) == Subst(s[i..], c, entity)
    decreases |s| - i
  {
    if i < |s| {
      ReplaceUnescapedPlain(s, c, entity, i + 1);
      assert s[i..][1..] == s[i + 1..];
    }
  }

  /** Substitution in a one-character string. */
  lemma SubstChar(c: char, x: char, r: string)
    ensures Subst([c], x, r) == if c == x then r else [c]
  {
    assert [c][1..] == [];
  }

  /** The three substitutions in a row escape one character as `EscapeChar` does. */
  lemma ThreeSubstitutionsChar(c: char)
    ensures Subst(Subst(Subst([c], '<', "&lt;"), '>', "&gt;"), '\n', "<br>") == EscapeChar(c)
  {
    SubstChar(c, '<', "&lt;");
    if c == '<' {
      SubstAbsent("&lt;", '>', "&gt;");
      SubstAbsent("&lt;", '\n', "<br>");
    } else {
      SubstChar(c, '>', "&gt;");
      if c == '>' {
        SubstAbsent("&gt;", '\n', "<br>");
      } else {
        SubstChar(c, '\n', "<br>");
      }
    }
  }

  /** The three substitutions in a row are plain HTML escaping. */
  lemma {:induction false} ThreeSubstitutions(s: string)
    ensures Subst(Subst(Subst(s, '<', "&lt;"), '>', "&gt;"), '\n', "<br>") == HtmlEscape(s)
  {
    if |s| > 0 {
      var a, b := [s[0]], s[1..];
      assert s == a + b;
      SubstConcat(a, b, '<', "&lt;");
      var a1, b1 := Subst(a, '<', "&lt;"), Subst(b, '<', "&lt;");
      SubstConcat(a1, b1, '>', "&gt;");
      var a2, b2 := Subst(a1, '>', "&gt;"), Subst(b1, '>', "&gt;");
      SubstConcat(a2, b2, '\n', "<br>");
      ThreeSubstitutionsChar(s[0]);
      ThreeSubstitutions(b);
    }
  }

  /** Text without backslashes is escaped exactly as plain HTML escaping would. */
  lemma EscapedWithoutBackslash(s: string)
    requires '\\' !in s
    ensures Escaped(s) == HtmlEscape(s)
  {
    var t1 := ReplaceUnescaped(s, '<', "&lt;", 0);
    ReplaceUnescapedPlain(s, '<', "&lt;", 0);
    assert s[0..] == s;
    SubstKeepsOut(s, '<', "&lt;", '\\');
    var t2 := ReplaceUnescaped(t1, '>', "&gt;", 0);
    ReplaceUnescapedPlain(t1, '>', "&gt;", 0);
    assert t1[0..] == t1;
    SubstKeepsOut(t1, '>', "&gt;", '\\');
    ReplaceAllAbsent(t2, "\\<", "<");
    ReplaceAllAbsent(t2, "\\>", ">");
    ReplaceAllSingle(t2, '\n', "<br>");
    assert "\n" == ['\n'];
    ThreeSubstitutions(s);
  }

  /** Plain HTML escaping of a single line leaves no angle bracket in the text. */
  lemma {:induction false} HtmlEscapeNoBrackets(s: string)
    requires '\n' !in s
    ensures '<' !in HtmlEscape(s) && '>' !in HtmlEscape(s)
  {
    if |s| > 0 {
      assert '\n' !in s[1..];
      HtmlEscapeNoBrackets(s[1..]);
    }
  }

  // ---------------------------------------------------------------- escaping with backslashes

  /** One unit of text as `escaped()` reads it: a character other than a backslash, a
      backslash before an angle bracket, or a backslash before any other character that is
      not itself a backslash. */
  datatype Piece = Plain(c: char) | EscapedBracket(bracket: char) | Backslash(next: char)

  predicate ValidPiece(p: Piece) {
    match p
    case Plain(c) => c != '\\'
    case EscapedBracket(b) => b == '<' || b == '>'
    case Backslash(n) => n != '<' && n != '>' && n != '\\'
  }

  /** The characters a piece is written with. */
  function PieceText(p: Piece): string {
    match p
    case Plain(c) => [c]
    case EscapedBracket(b) => ['\\', b]
    case Backslash(n) => ['\\', n]
  }

  /** What the page shows for a piece: a plain character HTML-escaped, an escaped bracket
      as a literal bracket, and any other backslash kept before its escaped character. */
  function PieceShown(p: Piece): string {
    match p
    case Plain(c) => EscapeChar(c)
    case EscapedBracket(b) => [b]
    case Backslash(n) => ['\\'] + EscapeChar(n)
  }

  /** The text written by a run of pieces. */
  function PiecesText(ps: seq<Piece>): string {
    if |ps| == 0 then [] else PieceText(ps[0]) + PiecesText(ps[1..])
  }

  /** What the page shows for a run of pieces. */
  function PiecesShown(ps: seq<Piece>): string {
    if |ps| == 0 then [] else PieceShown(ps[0]) + PiecesShown(ps[1..])
  }

  /** Whether a text has no doubled backslash and does not end with one: exactly the texts
      that split into pieces. */
  predicate SingleBackslashes(s: string) {
    && (|s| == 0 || s[|s| - 1] != '\\')
    && forall i :: 0 <= i < |s| - 1 && s[i] == '\\' ==> s[i + 1] != '\\'
  }

  /** The pieces of a text, read from the left. */
  function Pieces(s: string): seq<Piece>
    decreases |s|
  {
    if |s| == 0 then []
    else if s[0] != '\\' || |s| == 1 then [Plain(s[0])] + Pieces(s[1..])
    else if s[1] == '<' || s[1] == '>' then [EscapedBracket(s[1])] + Pieces(s[2..])
    else [Backslash(s[1])] + Pieces(s[2..])
  }

  /** A text without doubled or trailing backslashes is read as valid pieces that write it
      back unchanged. */
  lemma {:induction false} PiecesSpec(s: string)
    requires SingleBackslashes(s)
    ensures forall i :: 0 <= i < |Pieces(s)| ==> ValidPiece(Pieces(s)[i])
    ensures PiecesText(Pieces(s)) == s
    decreases |s|
  {
    if |s| > 0 {
      var k := if s[0] != '\\' then 1 else 2;
      var p := if k == 1 then Plain(s[0]) else if s[1] == '<' || s[1] == '>' then EscapedBracket(s[1]) else Backslash(s[1]);
      if k == 2 {
        assert s[1] != '\\' by {
          if |s| > 2 {
            assert 0 <= 0 < |s| - 1 && s[0] == '\\';
          }
        }
      }
      assert ValidPiece(p) && PieceText(p) == s[..k];
      var rest := s[k..];
      assert SingleBackslashes(rest) by {
        forall i | 0 <= i < |rest| - 1 && rest[i] == '\\'
          ensures rest[i + 1] != '\\'
        {
          assert rest[i] == s[i + k] && rest[i + 1] == s[i + k + 1];
        }
      }
      PiecesSpec(rest);
      var ps := [p] + Pieces(rest);
      assert Pieces(s) == ps;
      assert ps[1..] == Pieces(rest);
      assert PiecesText(ps) == PieceText(p) + PiecesText(Pieces(rest));
      assert s == s[..k] + rest;
      forall i | 0 <= i < |ps|
        ensures ValidPiece(ps[i])
      {
        if i > 0 {
          assert ps[i] == Pieces(rest)[i - 1];
        }
      }
    }
  }

  /** Whether a text does not end with a backslash, so that nothing after it can be read
      as escaped by it. */
  predicate EndsClean(s: string) {
    |s| == 0 || s[|s| - 1] != '\\'
  }

  lemma {:induction false} ReplaceUnescapedShift(x: string, y: string, c: char, entity: string, j: nat)
    requires j <= |y| && (j > 0 || EndsClean(x))
    ensures ReplaceUnescaped(x + y, c, entity, |x| + j) == ReplaceUnescaped(y, c, entity, j)
    decreases |y| - j
  {
    if j < |y| {
      var xy := x + y;
      assert xy[|x| + j] == y[j];
      var afterBackslash := j > 0 && y[j - 1] == '\\';
      assert (|x| + j > 0 && xy[|x| + j - 1] == '\\') == afterBackslash by {
        if j > 0 {
          assert xy[|x| + j - 1] == y[j - 1];
        } else if |x| > 0 {
          assert xy[|x| - 1] == x[|x| - 1];
        }
      }
      var piece := if y[j] == c && !afterBackslash then entity else [y[j]];
      assert ReplaceUnescaped(xy, c, entity, |x| + j) == piece + ReplaceUnescaped(xy, c, entity, |x| + j + 1);
      assert ReplaceUnescaped(y, c, entity, j) == piece + ReplaceUnescaped(y, c, entity, j + 1);
      ReplaceUnescapedShift(x, y, c, entity, j + 1);
    }
  }

  /** The lookbehind replacement splits at a point not preceded by a backslash. */
  lemma {:induction false} ReplaceUnescapedSplit(x: string, y: string, c: char, entity: string, i: nat)
    requires i <= |x| && EndsClean(x)
    ensures ReplaceUnescaped(x + y, c, entity, i) == ReplaceUnescaped(x, c, entity, i) + ReplaceUnescaped(y, c, entity, 0)
    decreases |x| - i
  {
    if i == |x| {
      ReplaceUnescapedShift(x, y, c, entity, 0);
    } else {
      assert (x + y)[i] == x[i];
      if i > 0 {
        assert (x + y)[i - 1] == x[i - 1];
      }
      ReplaceUnescapedSplit(x, y, c, entity, i + 1);
    }
  }

  /** Replacing a pattern of one or two characters splits at a point where no occurrence
      can straddle. */
  lemma {:induction false} ReplaceAllSplit(x: string, y: string, pattern: string, replacement: string)
    requires 1 <= |pattern| <= 2
    requires |pattern| == 1 || |x| == 0 || x[|x| - 1] != pattern[0]
    ensures ReplaceAll(x + y, pattern, replacement) == ReplaceAll(x, pattern, replacement) + ReplaceAll(y, pattern, replacement)
    decreases |x|
  {
    var n := |pattern|;
    if |x| == 0 {
      assert x + y == y;
    } else if |x| < n {
      ReplaceAllSplitShort(x, y, pattern, replacement);
    } else {
      var xy := x + y;
      var matched := x[..n] == pattern;
      var k := if matched then n else 1;
      var head := if matched then replacement else [x[0]];
      var rest := x[k..];
      assert xy[..n] == x[..n];
      if matched {
        assert xy[n..] == x[n..] + y;
      } else {
        assert xy[0] == x[0] && xy[1..] == x[1..] + y;
      }
      assert |rest| == 0 || rest[|rest| - 1] == x[|x| - 1];
      ReplaceAllStep(xy, pattern, replacement);
      ReplaceAllStep(x, pattern, replacement);
      assert ReplaceAll(xy, pattern, replacement) == head + ReplaceAll(rest + y, pattern, replacement);
      assert ReplaceAll(x, pattern, replacement) == head + ReplaceAll(rest, pattern, replacement);
      ReplaceAllSplit(rest, y, pattern, replacement);
      Regroup2(head, ReplaceAll(rest, pattern, replacement), ReplaceAll(y, pattern, replacement));
    }
  }

  /** One step of `ReplaceAll` on a text at least as long as the pattern. */
  lemma ReplaceAllStep(s: string, pattern: string, replacement: string)
    requires 0 < |pattern| <= |s|
    ensures ReplaceAll(s, pattern, replacement) ==
      if s[..|pattern|] == pattern then replacement + ReplaceAll(s[|pattern|..], pattern, replacement)
      else [s[0]] + ReplaceAll(s[1..], pattern, replacement)
  {
  }

  /** The split of `ReplaceAllSplit` when the first part is one character shorter than a
      two-character pattern and is not its first character. */
  lemma ReplaceAllSplitShort(x: string, y: string, pattern: string, replacement: string)
    requires |pattern| == 2 && |x| == 1 && x[0] != pattern[0]
    ensures ReplaceAll(x + y, pattern, replacement) == ReplaceAll(x, pattern, replacement) + ReplaceAll(y, pattern, replacement)
  {
    var xy := x + y;
    if |xy| >= 2 {
      assert xy[..2][0] == x[0];
      assert xy[1..] == y;
      assert ReplaceAll(xy, pattern, replacement) == [x[0]] + ReplaceAll(y, pattern, replacement);
    } else {
      assert y == [] && xy == x;
    }
  }

  /** `escaped()` splits after a text whose first three intermediate forms do not end with
      a backslash. */
  lemma EscapedSplit(x: string, y: string)
    requires EndsClean(x)
    requires EndsClean(ReplaceUnescaped(x, '<', "&lt;", 0))
    requires EndsClean(ReplaceUnescaped(ReplaceUnescaped(x, '<', "&lt;", 0), '>', "&gt;", 0))
    requires EndsClean(ReplaceAll(ReplaceUnescaped(ReplaceUnescaped(x, '<', "&lt;", 0), '>', "&gt;", 0), "\\<", "<"))
    ensures Escaped(x + y) == Escaped(x) + Escaped(y)
  {
    var a1, b1 := ReplaceUnescaped(x, '<', "&lt;", 0), ReplaceUnescaped(y, '<', "&lt;", 0);
    ReplaceUnescapedSplit(x, y, '<', "&lt;", 0);
    var a2, b2 := ReplaceUnescaped(a1, '>', "&gt;", 0), ReplaceUnescaped(b1, '>', "&gt;", 0);
    ReplaceUnescapedSplit(a1, b1, '>', "&gt;", 0);
    var a3, b3 := ReplaceAll(a2, "\\<", "<"), ReplaceAll(b2, "\\<", "<");
    ReplaceAllSplit(a2, b2, "\\<", "<");
    var a4, b4 := ReplaceAll(a3, "\\>", ">"), ReplaceAll(b3, "\\>", ">");
    ReplaceAllSplit(a3, b3, "\\>", ">");
    ReplaceAllSplit(a4, b4, "\n", "<br>");
  }

  lemma ReplaceUnescapedAfterBackslash(d: char, c: char, entity: string)
    requires c != '\\'
    ensures ReplaceUnescaped(['\\', d], c, entity, 0) == ['\\', d]
  {
    assert ReplaceUnescaped(['\\', d], c, entity, 2) == [];
  }

  lemma ReplaceAllPair(d: char, q: char, replacement: string)
    ensures ReplaceAll(['\\', d], ['\\', q], replacement) == if d == q then replacement else ['\\', d]
  {
    var s := ['\\', d];
    assert s[2..] == [] && s[1..] == [d];
    assert ReplaceAll([d], ['\\', q], replacement) == [d];
    assert s[..2] == ['\\', q] <==> d == q by {
      assert s[..2][1] == d;
    }
  }

  /** `escaped()` of a backslash and the character after it, followed by any text. */
  lemma EscapedAfterBackslash(d: char, y: string)
    requires d != '\\'
    ensures Escaped(['\\', d] + y) ==
      (if d == '<' || d == '>' then [d] else ['\\'] + EscapeChar(d)) + Escaped(y)
  {
    var x := ['\\', d];
    ReplaceUnescapedAfterBackslash(d, '<', "&lt;");
    ReplaceUnescapedAfterBackslash(d, '>', "&gt;");
    assert "\\<" == ['\\', '<'] && "\\>" == ['\\', '>'] && "\n" == ['\n'];
    ReplaceAllPair(d, '<', "<");
    var a3 := ReplaceAll(x, "\\<", "<");
    if d == '<' {
      ReplaceAllAbsent("<", "\\>", ">");
    } else {
      ReplaceAllPair(d, '>', ">");
    }
    var a4 := ReplaceAll(a3, "\\>", ">");
    ReplaceAllSingle(a4, '\n', "<br>");
    if d == '<' || d == '>' {
      SubstAbsent([d], '\n', "<br>");
    } else {
      SubstConcat(['\\'], [d], '\n', "<br>");
      SubstChar('\\', '\n', "<br>");
      SubstChar(d, '\n', "<br>");
    }
    EscapedSplit(x, y);
  }

  /** `escaped()` of a text without backslashes, followed by any text. */
  lemma EscapedAfterPlain(x: string, y: string)
    requires '\\' !in x
    ensures Escaped(x + y) == HtmlEscape(x) + Escaped(y)
  {
    var a1 := ReplaceUnescaped(x, '<', "&lt;", 0);
    ReplaceUnescapedPlain(x, '<', "&lt;", 0);
    assert x[0..] == x;
    SubstKeepsOut(x, '<', "&lt;", '\\');
    var a2 := ReplaceUnescaped(a1, '>', "&gt;", 0);
    ReplaceUnescapedPlain(a1, '>', "&gt;", 0);
    assert a1[0..] == a1;
    SubstKeepsOut(a1, '>', "&gt;", '\\');
    ReplaceAllAbsent(a2, "\\<", "<");
    assert |x| == 0 || x[|x| - 1] in x;
    assert |a1| == 0 || a1[|a1| - 1] in a1;
    assert |a2| == 0 || a2[|a2| - 1] in a2;
    EscapedWithoutBackslash(x);
    EscapedSplit(x, y);
  }

  /** `escaped()` of a piece followed by any text shows the piece, then the text. */
  lemma EscapedPiece(p: Piece, y: string)
    requires ValidPiece(p)
    ensures Escaped(PieceText(p) + y) == PieceShown(p) + Escaped(y)
  {
    match p
    case Plain(c) =>
      EscapedAfterPlain([c], y);
      assert [c][1..] == [];
    case EscapedBracket(b) =>
      EscapedAfterBackslash(b, y);
    case Backslash(n) =>
      EscapedAfterBackslash(n, y);
  }

  /** `escaped()` shows a run of pieces piece by piece: plain characters HTML-escaped,
      backslash-escaped brackets as literal brackets, and other backslashes kept. */
  lemma {:induction false} EscapedPieces(ps: seq<Piece>)
    requires forall i :: 0 <= i < |ps| ==> ValidPiece(ps[i])
    ensures Escaped(PiecesText(ps)) == PiecesShown(ps)
  {
    if |ps| == 0 {
      assert ReplaceAll([], "\\<", "<") == [];
    } else {
      EscapedPiece(ps[0], PiecesText(ps[1..]));
      EscapedPieces(ps[1..]);
    }
  }

  /** `escaped()` of any text without doubled or trailing backslashes: an angle bracket
      not preceded by a backslash becomes its entity, a backslash-escaped bracket becomes
      the literal bracket, and line breaks become `<br>`. */
  lemma EscapedSpec(s: string)
    requires SingleBackslashes(s)
    ensures Escaped(s) == PiecesShown(Pieces(s))
  {
    PiecesSpec(s);
    EscapedPieces(Pieces(s));
  }

  /** A tag written with backslash-escaped brackets shows as a literal tag around its
      escaped content. */
  lemma EscapedTag(t: string)
    requires '\\' !in t
    ensures Escaped("\\<" + t + "\\>") == "<" + HtmlEscape(t) + ">"
  {
    assert "\\<" + t + "\\>" == ['\\', '<'] + (t + ['\\', '>']);
    EscapedAfterBackslash('<', t + ['\\', '>']);
    EscapedAfterPlain(t, ['\\', '>']);
    EscapedAfterBackslash('>', []);
    assert ['\\', '>'] + [] == ['\\', '>'];
    assert ReplaceAll([], "\\<", "<") == [];
  }

  // ---------------------------------------------------------------- formatting

  /** The three conversions cell text goes through: `PointRange.toString` (defined
      elsewhere, so supplied), `escaped()` and the decimal form of a leaf number. The
      layout below is stated for any of them; `HtmlFormat` is the one the exporter is
      built with. */
  datatype Format = Format(range: (int, int) -> string, escape: string -> string, number: int -> string)

  /** The conversions of the source: the supplied point ranges, `escaped()` and
      `Int.toString()`. */
  function HtmlFormat(showRange: (int, int) -> string): (f: Format)
    ensures f.range == showRange && f.escape == Escaped && f.number == IntToString
  {
    Format(showRange, Escaped, IntToString)
  }

  // ---------------------------------------------------------------- cell contents

  /** `rowClasses()`: success when the grade's minimum reaches the criterion's maximum,
      otherwise warning when it is above the criterion's minimum, otherwise danger; the
      source's last, empty, branch cannot be reached. */
  function RowClasses(r: GradedCriterion): seq<string> {
    if r.grade.minPoints == r.criterion.maxPoints then ["table-success"]
    else if r.grade.minPoints != r.criterion.minPoints then ["table-warning"]
    else if r.grade.minPoints == r.criterion.minPoints then ["table-danger"]
    else assert false; []
  }

  /** Exactly one colour class, chosen by where the grade's minimum lies. */
  lemma RowClassesSpec(r: GradedCriterion)
    ensures |RowClasses(r)| == 1
    ensures RowClasses(r) == ["table-success"] <==> r.grade.minPoints == r.criterion.maxPoints
    ensures RowClasses(r) == ["table-warning"] <==>
      r.grade.minPoints != r.criterion.maxPoints && r.grade.minPoints != r.criterion.minPoints
    ensures RowClasses(r) == ["table-danger"] <==>
      r.grade.minPoints != r.criterion.maxPoints && r.grade.minPoints == r.criterion.minPoints
  {
  }

  /** The non-blank comments, in order. */
  function NonBlank(comments: seq<string>): seq<string> {
    if |comments| == 0 then []
    else (if IsBlank(comments[0]) then [] else [comments[0]]) + NonBlank(comments[1..])
  }

  /** The kept comments are exactly the non-blank ones, and no more than there were. */
  lemma {:induction false} NonBlankSpec(comments: seq<string>)
    ensures |NonBlank(comments)| <= |comments|
    ensures forall c :: c in NonBlank(comments) <==> c in comments && !IsBlank(c)
  {
    if |comments| > 0 {
      var head, rest := comments[0], comments[1..];
      var kept := if IsBlank(head) then [] else [head];
      NonBlankSpec(rest);
      assert NonBlank(comments) == kept + NonBlank(rest);
      assert comments == [head] + rest;
      forall c
        ensures c in NonBlank(comments) <==> c in comments && !IsBlank(c)
      {
        assert c in kept <==> c == head && !IsBlank(head);
      }
    }
  }

  /** Filtering distributes over concatenation, and one comment is kept exactly when it is
      not blank: so the kept comments are the non-blank ones, each occurrence once, in the
      original order. */
  lemma {:induction false} NonBlankAppend(a: seq<string>, b: seq<string>)
    ensures NonBlank(a + b) == NonBlank(a) + NonBlank(b)
    ensures |a| == 1 ==> NonBlank(a) == if IsBlank(a[0]) then [] else [a[0]]
  {
    if |a| > 0 {
      assert (a + b)[0] == a[0] && (a + b)[1..] == a[1..] + b;
      NonBlankAppend(a[1..], b);
    } else {
      assert a + b == b;
    }
  }

  /** Each text escaped, in order. */
  function EscapedAll(texts: seq<string>, escape: string -> string): (r: seq<string>)
    ensures |r| == |texts| && forall i :: 0 <= i < |texts| ==> r[i] == escape(texts[i])
  {
    seq(|texts|, i requires 0 <= i < |texts| => escape(texts[i]))
  }

  /** `comments()`: the non-blank comments, escaped, joined by `<br>`. */
  function Comments(r: GradedCriterion, fmt: Format): string {
    Join(EscapedAll(NonBlank(r.grade.comments), fmt.escape), "<br>")
  }

  /** A criterion whose comments are all blank has an empty comment cell. */
  lemma BlankCommentsEmpty(r: GradedCriterion, fmt: Format)
    requires forall i :: 0 <= i < |r.grade.comments| ==> IsBlank(r.grade.comments[i])
    ensures Comments(r, fmt) == ""
  {
    AllBlankDropped(r.grade.comments);
  }

  lemma {:induction false} AllBlankDropped(comments: seq<string>)
    requires forall i :: 0 <= i < |comments| ==> IsBlank(comments[i])
    ensures NonBlank(comments) == []
  {
    if |comments| > 0 {
      AllBlankDropped(comments[1..]);
    }
  }

  /** `description()`: the escaped short description. */
  function Description(r: GradedCriterion, fmt: Format): string {
    fmt.escape(r.criterion.shortDescription)
  }

  /** A one-line description without backslashes reaches the page as plain escaped text:
      no angle bracket of it can open or close a tag. */
  lemma DescriptionIsPlainText(r: GradedCriterion, showRange: (int, int) -> string)
    requires '\\' !in r.criterion.shortDescription && '\n' !in r.criterion.shortDescription
    ensures Description(r, HtmlFormat(showRange)) == HtmlEscape(r.criterion.shortDescription)
    ensures '<' !in Description(r, HtmlFormat(showRange)) && '>' !in Description(r, HtmlFormat(showRange))
  {
    EscapedWithoutBackslash(r.criterion.shortDescription);
    HtmlEscapeNoBrackets(r.criterion.shortDescription);
  }

  function Badge(text: string): string {
    "<span class=\"badge\">" + text + "</span>"
  }

  // ---------------------------------------------------------------- fragments

  /** What one `append` writes: fixed markup, a header cell (`titleEntry`) or a data cell
      (`entry`), each cell with its id. */
  datatype Fragment =
    | Markup(text: string)
    | TitleCell(entry: string, id: int)
    | DataCell(entry: string, classes: seq<string>, id: int)

  /** The text a fragment stands for. */
  function FragmentText(f: Fragment): string {
    match f
    case Markup(text) => text
    case TitleCell(entry, id) =>
      "<th scope=\"col\" class=\"\" id=\"cell-" + IntToString(id) + "\">" + entry + "</th>"
    case DataCell(entry, classes, id) =>
      "<td class=\"" + Join(classes, " ") + "\" id=\"cell-" + IntToString(id) + "\">" + entry + "</td>"
  }

  /** The text of fragments appended in order: their texts one after the other. */
  function Text(fs: seq<Fragment>): string {
    if |fs| == 0 then "" else Text(fs[..|fs| - 1]) + FragmentText(fs[|fs| - 1])
  }

  /** Appending two runs of fragments appends their texts. */
  lemma {:induction false} TextAppend(a: seq<Fragment>, b: seq<Fragment>)
    ensures Text(a + b) == Text(a) + Text(b)
    decreases |b|
  {
    if |b| > 0 {
      var b' := b[..|b| - 1];
      assert (a + b)[..|a + b| - 1] == a + b';
      TextAppend(a, b');
    } else {
      assert a + b == a;
    }
  }

  /** A text starts with the text of its first fragment and ends with that of its last. */
  lemma {:induction false} TextEnds(fs: seq<Fragment>)
    requires |fs| > 0
    ensures var t := Text(fs);
      var first, last := FragmentText(fs[0]), FragmentText(fs[|fs| - 1]);
      |first| <= |t| && |last| <= |t| && t[..|first|] == first && t[|t| - |last|..] == last
  {
    if |fs| > 1 {
      var init := fs[..|fs| - 1];
      TextEnds(init);
      assert init[0] == fs[0];
    }
  }

  /** The ids of the cells among some fragments, in order. */
  function CellIds(fs: seq<Fragment>): seq<int> {
    if |fs| == 0 then []
    else CellIds(fs[..|fs| - 1]) + (if fs[|fs| - 1].Markup? then [] else [fs[|fs| - 1].id])
  }

  lemma {:induction false} CellIdsAppend(a: seq<Fragment>, b: seq<Fragment>)
    ensures CellIds(a + b) == CellIds(a) + CellIds(b)
    decreases |b|
  {
    if |b| > 0 {
      var b' := b[..|b| - 1];
      assert (a + b)[..|a + b| - 1] == a + b';
      CellIdsAppend(a, b');
    } else {
      assert a + b == a;
    }
  }

  /** The `n` consecutive ids from `from`. */
  function Ids(from: int, n: nat): (r: seq<int>)
    ensures |r| == n
  {
    if n == 0 then [] else Ids(from, n - 1) + [from + n - 1]
  }

  /** Consecutive ids are strictly increasing: the id at position `i` is `from + i`. */
  lemma {:induction false} IdsSpec(from: int, n: nat)
    ensures forall i :: 0 <= i < n ==> Ids(from, n)[i] == from + i
  {
    if n > 0 {
      IdsSpec(from, n - 1);
    }
  }

  /** Consecutive ids split into consecutive ids. */
  lemma {:induction false} IdsAppend(from: int, m: nat, n: nat)
    ensures Ids(from, m + n) == Ids(from, m) + Ids(from + m, n)
    decreases n
  {
    if n > 0 {
      IdsAppend(from, m, n - 1);
    }
  }

  // ---------------------------------------------------------------- rows and table

  /** `rowStart()` with no classes. */
  const RowStart: string := "<tr class=\"\">"
  const RowEnd: string := "</tr>"

  /** The fragments `rowStart()`, four `titleEntry` cells with consecutive ids from `cell`
      and `rowEnd()` append. */
  function TitleRow(a: string, b: string, c: string, d: string, cell: int): seq<Fragment> {
    [Markup(RowStart), TitleCell(a, cell), TitleCell(b, cell + 1), TitleCell(c, cell + 2),
     TitleCell(d, cell + 3), Markup(RowEnd)]
  }

  /** The fragments of a leaf's row: its number badge and description, its range, its
      grade with the colour class, and its comments. */
  function LeafRow(r: GradedCriterion, fmt: Format, cell: int, leaf: int): seq<Fragment> {
    [Markup(RowStart),
     DataCell(Badge(fmt.number(leaf + 1)) + " " + Description(r, fmt), [], cell),
     DataCell(fmt.range(r.criterion.minPoints, r.criterion.maxPoints), [], cell + 1),
     DataCell(fmt.range(r.grade.minPoints, r.grade.maxPoints), RowClasses(r), cell + 2),
     DataCell(Comments(r, fmt), [], cell + 3),
     Markup(RowEnd)]
  }

  /** The number of cells a criterion's rows hold: four per row, one row per criterion. */
  function Cells(r: GradedCriterion): nat {
    4 + CellsAll(r.childCriteria)
  }

  function CellsAll(rs: seq<GradedCriterion>): nat {
    if |rs| == 0 then 0 else CellsAll(rs[..|rs| - 1]) + Cells(rs[|rs| - 1])
  }

  /** The number of leaf criteria under (or at) a criterion. */
  function Leaves(r: GradedCriterion): nat {
    if |r.childCriteria| == 0 then 1 else LeavesAll(r.childCriteria)
  }

  function LeavesAll(rs: seq<GradedCriterion>): nat {
    if |rs| == 0 then 0 else LeavesAll(rs[..|rs| - 1]) + Leaves(rs[|rs| - 1])
  }

  /** The fragments `tableEntry` appends for a criterion whose first cell gets id `cell`
      and whose first leaf gets number `leaf + 1`: a parent's header row and then its
      children, or a leaf's numbered row with the colour class on its grade cell. */
  function TableEntry(r: GradedCriterion, fmt: Format, cell: int, leaf: int): seq<Fragment>
    decreases r, 1
  {
    if |r.childCriteria| > 0 then
      TitleRow(Description(r, fmt), fmt.range(r.criterion.minPoints, r.criterion.maxPoints),
               fmt.range(r.grade.minPoints, r.grade.maxPoints), Comments(r, fmt), cell)
      + TableEntries(r.childCriteria, fmt, cell + 4, leaf)
    else
      LeafRow(r, fmt, cell, leaf)
  }

  /** The fragments of several criteria, numbering on from one to the next. */
  function TableEntries(rs: seq<GradedCriterion>, fmt: Format, cell: int, leaf: int): seq<Fragment>
    decreases rs, 0
  {
    if |rs| == 0 then []
    else
      var init := rs[..|rs| - 1];
      TableEntries(init, fmt, cell, leaf)
      + TableEntry(rs[|rs| - 1], fmt, cell + CellsAll(init), leaf + LeavesAll(init))
  }

  /** One more criterion adds its fragments, cells and leaves after those of the ones
      before. */
  lemma EntriesStep(rs: seq<GradedCriterion>, i: nat, fmt: Format, cell: int, leaf: int)
    requires i < |rs|
    ensures TableEntries(rs[..i + 1], fmt, cell, leaf)
      == TableEntries(rs[..i], fmt, cell, leaf)
         + TableEntry(rs[i], fmt, cell + CellsAll(rs[..i]), leaf + LeavesAll(rs[..i]))
    ensures CellsAll(rs[..i + 1]) == CellsAll(rs[..i]) + Cells(rs[i])
    ensures LeavesAll(rs[..i + 1]) == LeavesAll(rs[..i]) + Leaves(rs[i])
  {
    assert rs[..i + 1][..i] == rs[..i];
  }

  /** A criterion's rows use the ids from `cell` on, one after the other, as many as it
      has cells. */
  lemma {:induction false} EntryIds(r: GradedCriterion, fmt: Format, cell: int, leaf: int)
    ensures CellIds(TableEntry(r, fmt, cell, leaf)) == Ids(cell, Cells(r))
    decreases r, 1
  {
    if |r.childCriteria| > 0 {
      var row := TitleRow(Description(r, fmt), fmt.range(r.criterion.minPoints, r.criterion.maxPoints),
                          fmt.range(r.grade.minPoints, r.grade.maxPoints), Comments(r, fmt), cell);
      var children := TableEntries(r.childCriteria, fmt, cell + 4, leaf);
      assert TableEntry(r, fmt, cell, leaf) == row + children;
      assert CellIds(row + children) == CellIds(row) + CellIds(children) by {
        CellIdsAppend(row, children);
      }
      assert CellIds(row) == Ids(cell, 4) by {
        RowIds(row, cell);
      }
      assert CellIds(children) == Ids(cell + 4, CellsAll(r.childCriteria)) by {
        EntriesIds(r.childCriteria, fmt, cell + 4, leaf);
      }
      IdsAppend(cell, 4, CellsAll(r.childCriteria));
    } else {
      assert CellIds(LeafRow(r, fmt, cell, leaf)) == Ids(cell, 4) by {
        RowIds(LeafRow(r, fmt, cell, leaf), cell);
      }
      assert CellsAll(r.childCriteria) == 0;
    }
  }

  lemma {:induction false} EntriesIds(rs: seq<GradedCriterion>, fmt: Format, cell: int, leaf: int)
    ensures CellIds(TableEntries(rs, fmt, cell, leaf)) == Ids(cell, CellsAll(rs))
    decreases rs, 0
  {
    if |rs| > 0 {
      var init, last := rs[..|rs| - 1], rs[|rs| - 1];
      var before, entry := TableEntries(init, fmt, cell, leaf),
        TableEntry(last, fmt, cell + CellsAll(init), leaf + LeavesAll(init));
      assert TableEntries(rs, fmt, cell, leaf) == before + entry;
      assert CellIds(before + entry) == CellIds(before) + CellIds(entry) by {
        CellIdsAppend(before, entry);
      }
      assert CellIds(before) == Ids(cell, CellsAll(init)) by {
        EntriesIds(init, fmt, cell, leaf);
      }
      assert CellIds(entry) == Ids(cell + CellsAll(init), Cells(last)) by {
        EntryIds(last, fmt, cell + CellsAll(init), leaf + LeavesAll(init));
      }
      IdsAppend(cell, CellsAll(init), Cells(last));
    }
  }

  /** A row of six fragments, markup around four cells with consecutive ids. */
  lemma RowIds(row: seq<Fragment>, cell: int)
    requires |row| == 6 && row[0].Markup? && row[5].Markup?
    requires forall k :: 1 <= k <= 4 ==> !row[k].Markup? && row[k].id == cell + k - 1
    ensures CellIds(row) == Ids(cell, 4)
  {
    assert CellIds(row[..1]) == [] by {
      assert row[..1][..0] == [];
    }
    assert row[..2][..1] == row[..1];
    assert CellIds(row[..2]) == Ids(cell, 1);
    assert row[..3][..2] == row[..2];
    assert CellIds(row[..3]) == Ids(cell, 2);
    assert row[..4][..3] == row[..3];
    assert CellIds(row[..4]) == Ids(cell, 3);
    assert row[..5][..4] == row[..4];
    assert CellIds(row[..5]) == Ids(cell, 4);
    assert row[..6][..5] == row[..5];
    assert row[..6] == row;
  }

  /** Markup alone holds no cells. */
  lemma {:induction false} MarkupIds(fs: seq<Fragment>)
    requires forall i :: 0 <= i < |fs| ==> fs[i].Markup?
    ensures CellIds(fs) == []
  {
    if |fs| > 0 {
      MarkupIds(fs[..|fs| - 1]);
    }
  }

  /** The number of cells of the whole table: three fixed rows of four cells and the rows
      of the criteria. */
  function TableCells(rubric: GradedRubric): nat {
    12 + CellsAll(rubric.childCriteria)
  }

  const TableStart: string := "<table class=\"table table-hover\">"

  /** The head of `table(rubric)`: the table opening and the row with the (unescaped)
      rubric title, then the body opening. */
  function TableHead(rubric: GradedRubric, cell: int): seq<Fragment> {
    [Markup(TableStart), Markup("<thead>")]
    + TitleRow(rubric.title, "", "", "", cell)
    + [Markup("</thead>"), Markup("<tbody>")]
  }

  /** The foot of `table(rubric)`: the total row and the closing tags. */
  function TableFoot(rubric: GradedRubric, fmt: Format, cell: int): seq<Fragment> {
    TitleRow("Gesamt", fmt.range(rubric.rubricMinPoints, rubric.rubricMaxPoints),
             fmt.range(rubric.grade.minPoints, rubric.grade.maxPoints), "", cell)
    + [Markup("</tbody>"), Markup("</table>")]
  }

  /** The fragments `table(rubric)` appends: the head, the column titles, the criteria rows
      and the foot. */
  function Table(rubric: GradedRubric, fmt: Format, cell: int, leaf: int): seq<Fragment> {
    TableHead(rubric, cell)
    + TitleRow("Kriterium", "Möglich", "Erzielt", "Kommentar", cell + 4)
    + TableEntries(rubric.childCriteria, fmt, cell + 8, leaf)
    + TableFoot(rubric, fmt, cell + 8 + CellsAll(rubric.childCriteria))
  }

  const Stylesheet: string :=
    "<link rel=\"stylesheet\" href=\"https://cdn.jsdelivr.net/npm/bootstrap@4.0.0/dist/css/bootstrap.min.css\" integrity=\"sha384-Gn5384xqQ1aoWXA+058RXPxPg6fy4IWvTNh0E263XmFcJlSAwiGgFAW/dAiS6JXm\" crossorigin=\"anonymous\">"

  /** The fragments `pageStart(title)` appends: the document head, with the escaped title,
      and the container opening. */
  function PageStart(title: string, fmt: Format): seq<Fragment> {
    [Markup("<html>"), Markup("<head>"), Markup("<meta charset=\"utf-8\">"), Markup(Stylesheet),
     Markup("<title>" + fmt.escape(title) + "</title>"), Markup("</head>"), Markup("<body>"),
     Markup("<div class=\"container\">")]
  }

  /** The fragments `pageEnd()` appends. */
  const PageEnd: seq<Fragment> := [Markup("</div>"), Markup("</body>"), Markup("</html>")]

  /** The title of every exported page. */
  const PageTitle: string := "Grading Result"

  /** The fragments of the whole document `export` writes. */
  function DocumentFragments(rubric: GradedRubric, fmt: Format, cell: int, leaf: int): seq<Fragment> {
    PageStart(PageTitle, fmt) + Table(rubric, fmt, cell, leaf) + PageEnd
  }

  /** The text of the whole document. */
  function Document(rubric: GradedRubric, fmt: Format, cell: int, leaf: int): string {
    Text(DocumentFragments(rubric, fmt, cell, leaf))
  }

  /** Whatever the rubric, the document is one HTML element: it opens with `<html>` and
      closes with `</html>`. */
  lemma DocumentIsHtml(rubric: GradedRubric, fmt: Format, cell: int, leaf: int)
    ensures var d := Document(rubric, fmt, cell, leaf);
      |d| >= 13 && d[..6] == "<html>" && d[|d| - 7..] == "</html>"
  {
    var fs := DocumentFragments(rubric, fmt, cell, leaf);
    assert fs[0] == Markup("<html>");
    assert fs[|fs| - 1] == Markup("</html>");
    TextEnds(fs);
  }

  /** The head's cells: the title row's four, from `cell`. */
  lemma HeadIds(rubric: GradedRubric, cell: int)
    ensures CellIds(TableHead(rubric, cell)) == Ids(cell, 4)
  {
    var title := TitleRow(rubric.title, "", "", "", cell);
    var open, close := [Markup(TableStart), Markup("<thead>")], [Markup("</thead>"), Markup("<tbody>")];
    CellIdsAppend(open + title, close);
    CellIdsAppend(open, title);
    MarkupIds(open);
    MarkupIds(close);
    RowIds(title, cell);
  }

  /** The foot's cells: the total row's four, from `cell`. */
  lemma FootIds(rubric: GradedRubric, fmt: Format, cell: int)
    ensures CellIds(TableFoot(rubric, fmt, cell)) == Ids(cell, 4)
  {
    var total := TitleRow("Gesamt", fmt.range(rubric.rubricMinPoints, rubric.rubricMaxPoints),
                          fmt.range(rubric.grade.minPoints, rubric.grade.maxPoints), "", cell);
    var close := [Markup("</tbody>"), Markup("</table>")];
    CellIdsAppend(total, close);
    MarkupIds(close);
    RowIds(total, cell);
  }

  /** The table's cells have the ids from `cell` on, one after the other, twelve for the
      three fixed rows and four per criterion. */
  lemma TableIds(rubric: GradedRubric, fmt: Format, cell: int, leaf: int)
    ensures CellIds(Table(rubric, fmt, cell, leaf)) == Ids(cell, TableCells(rubric))
  {
    var head := TableHead(rubric, cell);
    var columns := TitleRow("Kriterium", "Möglich", "Erzielt", "Kommentar", cell + 4);
    var n := CellsAll(rubric.childCriteria);
    var entries := TableEntries(rubric.childCriteria, fmt, cell + 8, leaf);
    var foot := TableFoot(rubric, fmt, cell + 8 + n);
    assert CellIds(head) == Ids(cell, 4) by {
      HeadIds(rubric, cell);
    }
    assert CellIds(columns) == Ids(cell + 4, 4) by {
      RowIds(columns, cell + 4);
    }
    assert CellIds(entries) == Ids(cell + 8, n) by {
      EntriesIds(rubric.childCriteria, fmt, cell + 8, leaf);
    }
    assert CellIds(foot) == Ids(cell + 8 + n, 4) by {
      FootIds(rubric, fmt, cell + 8 + n);
    }
    FourRunsIds(head, columns, entries, foot, cell, 4, 4, n, 4);
  }

  /** Four runs of fragments whose ids follow on from each other have the ids of their
      total length. */
  lemma FourRunsIds(a: seq<Fragment>, b: seq<Fragment>, c: seq<Fragment>, d: seq<Fragment>,
                    cell: int, na: nat, nb: nat, nc: nat, nd: nat)
    requires CellIds(a) == Ids(cell, na) && CellIds(b) == Ids(cell + na, nb)
    requires CellIds(c) == Ids(cell + na + nb, nc) && CellIds(d) == Ids(cell + na + nb + nc, nd)
    ensures CellIds(a + b + c + d) == Ids(cell, na + nb + nc + nd)
  {
    TwoRunsIds(a, b, cell, na, nb);
    TwoRunsIds(a + b, c, cell, na + nb, nc);
    TwoRunsIds(a + b + c, d, cell, na + nb + nc, nd);
  }

  /** Two runs of fragments whose ids follow on from each other. */
  lemma TwoRunsIds(a: seq<Fragment>, b: seq<Fragment>, cell: int, na: nat, nb: nat)
    requires CellIds(a) == Ids(cell, na) && CellIds(b) == Ids(cell + na, nb)
    ensures CellIds(a + b) == Ids(cell, na + nb)
  {
    CellIdsAppend(a, b);
    IdsAppend(cell, na, nb);
  }

  /** The page's cells are the table's. */
  lemma DocumentIds(rubric: GradedRubric, fmt: Format, cell: int, leaf: int)
    ensures CellIds(DocumentFragments(rubric, fmt, cell, leaf)) == Ids(cell, TableCells(rubric))
  {
    var start := PageStart(PageTitle, fmt);
    var table := Table(rubric, fmt, cell, leaf);
    CellIdsAppend(start + table, PageEnd);
    CellIdsAppend(start, table);
    MarkupIds(start);
    MarkupIds(PageEnd);
    TableIds(rubric, fmt, cell, leaf);
  }

  // ---------------------------------------------------------------- the builder and the exporter

  /** `StringBuilder`: what was appended, fragment by fragment; its text is their
      concatenation. */
  class StringBuilder {
    var fragments: seq<Fragment>

    constructor()
      ensures fragments == []
    {
      fragments := [];
    }

    /** `toString()`. */
    function ToString(): string
      reads this
    {
      Text(fragments)
    }

    method Append(f: Fragment)
      modifies this
      ensures fragments == old(fragments) + [f]
    {
      fragments := fragments + [f];
    }
  }

  /** The exporter instance: its cell and leaf counters persist across `export` calls. */
  class Exporter {
    /** The conversions the instance's text goes through; `HtmlFormat` for every exporter
        (see the constructor). */
    const fmt: Format
    var cellCounter: int
    var criterionCounter: int

    constructor(showRange: (int, int) -> string)
      ensures fmt == HtmlFormat(showRange)
      ensures cellCounter == 0 && criterionCounter == 0
    {
      fmt := HtmlFormat(showRange);
      cellCounter := 0;
      criterionCounter := 0;
    }

    /** `export(gradedRubric)`: the page with the rubric's table, as `result.html`; the
        counters go on from where the previous export left them, so the page's cell ids
        (see `DocumentIds`) follow those of every earlier page. */
    method Export(rubric: GradedRubric) returns (res: Resource)
      modifies this
      ensures res == Resource("result.html", Document(rubric, fmt, old(cellCounter), old(criterionCounter)))
      ensures cellCounter == old(cellCounter) + TableCells(rubric)
      ensures criterionCounter == old(criterionCounter) + LeavesAll(rubric.childCriteria)
    {
      var b := new StringBuilder();
      PageStartTo(b, PageTitle);
      TableTo(b, rubric);
      PageEndTo(b);
      assert [] + PageStart(PageTitle, fmt) == PageStart(PageTitle, fmt);
      res := Resource("result.html", b.ToString());
    }

    /** `pageStart(title)`. */
    method PageStartTo(b: StringBuilder, title: string)
      modifies b
      ensures b.fragments == old(b.fragments) + PageStart(title, fmt)
    {
      b.Append(Markup("<html>"));
      b.Append(Markup("<head>"));
      b.Append(Markup("<meta charset=\"utf-8\">"));
      b.Append(Markup(Stylesheet));
      b.Append(Markup("<title>" + fmt.escape(title) + "</title>"));
      b.Append(Markup("</head>"));
      b.Append(Markup("<body>"));
      b.Append(Markup("<div class=\"container\">"));
    }

    /** `pageEnd()`. */
    method PageEndTo(b: StringBuilder)
      modifies b
      ensures b.fragments == old(b.fragments) + PageEnd
    {
      b.Append(Markup("</div>"));
      b.Append(Markup("</body>"));
      b.Append(Markup("</html>"));
    }

    /** `table(rubric)`. */
    method TableTo(b: StringBuilder, rubric: GradedRubric)
      modifies this, b
      ensures b.fragments == old(b.fragments) + Table(rubric, fmt, old(cellCounter), old(criterionCounter))
      ensures cellCounter == old(cellCounter) + TableCells(rubric)
      ensures criterionCounter == old(criterionCounter) + LeavesAll(rubric.childCriteria)
    {
      ghost var t0 := b.fragments;
      TableHeadTo(b, rubric);
      TitleRowTo(b, "Kriterium", "Möglich", "Erzielt", "Kommentar");
      ghost var t1 := b.fragments;
      TableEntriesTo(b, rubric.childCriteria);
      TableFootTo(b, rubric);
      Regroup3(t0, TableHead(rubric, old(cellCounter)),
               TitleRow("Kriterium", "Möglich", "Erzielt", "Kommentar", old(cellCounter) + 4),
               TableEntries(rubric.childCriteria, fmt, old(cellCounter) + 8, old(criterionCounter)));
    }

    /** The head of `table(rubric)`. */
    method TableHeadTo(b: StringBuilder, rubric: GradedRubric)
      modifies this, b
      ensures b.fragments == old(b.fragments) + TableHead(rubric, old(cellCounter))
      ensures cellCounter == old(cellCounter) + 4 && criterionCounter == old(criterionCounter)
    {
      b.Append(Markup(TableStart));
      b.Append(Markup("<thead>"));
      TitleRowTo(b, rubric.title, "", "", "");
      b.Append(Markup("</thead>"));
      b.Append(Markup("<tbody>"));
    }

    /** The foot of `table(rubric)`. */
    method TableFootTo(b: StringBuilder, rubric: GradedRubric)
      modifies this, b
      ensures b.fragments == old(b.fragments) + TableFoot(rubric, fmt, old(cellCounter))
      ensures cellCounter == old(cellCounter) + 4 && criterionCounter == old(criterionCounter)
    {
      TitleRowTo(b, "Gesamt", fmt.range(rubric.rubricMinPoints, rubric.rubricMaxPoints),
                 fmt.range(rubric.grade.minPoints, rubric.grade.maxPoints), "");
      b.Append(Markup("</tbody>"));
      b.Append(Markup("</table>"));
    }

    /** `titleEntry(entry)`: appends a header cell with the next id. */
    method TitleEntryTo(b: StringBuilder, entry: string)
      modifies this, b
      ensures b.fragments == old(b.fragments) + [TitleCell(entry, old(cellCounter))]
      ensures cellCounter == old(cellCounter) + 1 && criterionCounter == old(criterionCounter)
    {
      b.Append(TitleCell(entry, cellCounter));
      cellCounter := cellCounter + 1;
    }

    /** `entry(entry, classes)`: appends a data cell with the next id. */
    method EntryTo(b: StringBuilder, entry: string, classes: seq<string>)
      modifies this, b
      ensures b.fragments == old(b.fragments) + [DataCell(entry, classes, old(cellCounter))]
      ensures cellCounter == old(cellCounter) + 1 && criterionCounter == old(criterionCounter)
    {
      b.Append(DataCell(entry, classes, cellCounter));
      cellCounter := cellCounter + 1;
    }

    /** `rowStart()`, four `titleEntry` cells and `rowEnd()`. */
    method TitleRowTo(b: StringBuilder, c0: string, c1: string, c2: string, c3: string)
      modifies this, b
      ensures b.fragments == old(b.fragments) + TitleRow(c0, c1, c2, c3, old(cellCounter))
      ensures cellCounter == old(cellCounter) + 4 && criterionCounter == old(criterionCounter)
    {
      b.Append(Markup(RowStart));
      TitleEntryTo(b, c0);
      TitleEntryTo(b, c1);
      TitleEntryTo(b, c2);
      TitleEntryTo(b, c3);
      b.Append(Markup(RowEnd));
    }

    /** A leaf's row: the leaf counter is advanced first and its new value is the badge. */
    method LeafRowTo(b: StringBuilder, r: GradedCriterion)
      modifies this, b
      ensures b.fragments == old(b.fragments) + LeafRow(r, fmt, old(cellCounter), old(criterionCounter))
      ensures cellCounter == old(cellCounter) + 4 && criterionCounter == old(criterionCounter) + 1
    {
      var cell := cellCounter;
      b.Append(Markup(RowStart));
      criterionCounter := criterionCounter + 1;
      var first := Badge(fmt.number(criterionCounter)) + " " + Description(r, fmt);
      var possible := fmt.range(r.criterion.minPoints, r.criterion.maxPoints);
      var achieved := fmt.range(r.grade.minPoints, r.grade.maxPoints);
      var comments := Comments(r, fmt);
      EntryTo(b, first, []);
      EntryTo(b, possible, []);
      EntryTo(b, achieved, RowClasses(r));
      EntryTo(b, comments, []);
      b.Append(Markup(RowEnd));
      assert b.fragments == old(b.fragments) + [Markup(RowStart), DataCell(first, [], cell), DataCell(possible, [], cell + 1),
        DataCell(achieved, RowClasses(r), cell + 2), DataCell(comments, [], cell + 3), Markup(RowEnd)] by {
        Pushed6(old(b.fragments), Markup(RowStart), DataCell(first, [], cell), DataCell(possible, [], cell + 1),
          DataCell(achieved, RowClasses(r), cell + 2), DataCell(comments, [], cell + 3), Markup(RowEnd));
      }
    }

    /** `tableEntry(r)`: appends the criterion's rows; one cell id per cell and one leaf
        number per leaf are used up. */
    method TableEntryTo(b: StringBuilder, r: GradedCriterion)
      modifies this, b
      ensures b.fragments == old(b.fragments) + TableEntry(r, fmt, old(cellCounter), old(criterionCounter))
      ensures cellCounter == old(cellCounter) + Cells(r)
      ensures criterionCounter == old(criterionCounter) + Leaves(r)
      decreases r, 1
    {
      if |r.childCriteria| > 0 {
        TitleRowTo(b, Description(r, fmt), fmt.range(r.criterion.minPoints, r.criterion.maxPoints),
                   fmt.range(r.grade.minPoints, r.grade.maxPoints), Comments(r, fmt));
        TableEntriesTo(b, r.childCriteria);
      } else {
        LeafRowTo(b, r);
      }
    }

    /** `forEach { tableEntry(it) }` over several criteria. */
    method TableEntriesTo(b: StringBuilder, rs: seq<GradedCriterion>)
      modifies this, b
      ensures b.fragments == old(b.fragments) + TableEntries(rs, fmt, old(cellCounter), old(criterionCounter))
      ensures cellCounter == old(cellCounter) + CellsAll(rs)
      ensures criterionCounter == old(criterionCounter) + LeavesAll(rs)
      decreases rs, 0
    {
      for i := 0 to |rs|
        invariant b.fragments == old(b.fragments) + TableEntries(rs[..i], fmt, old(cellCounter), old(criterionCounter))
        invariant cellCounter == old(cellCounter) + CellsAll(rs[..i])
        invariant criterionCounter == old(criterionCounter) + LeavesAll(rs[..i])
      {
        ghost var done := TableEntries(rs[..i], fmt, old(cellCounter), old(criterionCounter));
        ghost var entry := TableEntry(rs[i], fmt, cellCounter, criterionCounter);
        TableEntryTo(b, rs[i]);
        assert b.fragments == old(b.fragments) + TableEntries(rs[..i + 1], fmt, old(cellCounter), old(criterionCounter)) by {
          EntriesStep(rs, i, fmt, old(cellCounter), old(criterionCounter));
          Regroup2(old(b.fragments), done, entry);
        }
        EntriesStep(rs, i, fmt, old(cellCounter), old(criterionCounter));
      }
      assert rs[..|rs|] == rs;
    }
  }
}
