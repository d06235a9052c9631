/** The few `kotlin.text` operations the modelled code relies on, over `string = seq<char>`. */
module Strings {

  /** `s.endsWith(suffix)`. */
  predicate EndsWith(s: string, suffix: string) {
    |suffix| <= |s| && s[|s| - |suffix|..] == suffix
  }

  /** `s.replace(from, to)` for single characters: every occurrence is replaced. */
  function ReplaceChar(s: string, from: char, to: char): (r: string)
    ensures |r| == |s|
    ensures forall i :: 0 <= i < |s| ==> r[i] == (if s[i] == from then to else s[i])
  {
    seq(|s|, i requires 0 <= i < |s| => if s[i] == from then to else s[i])
  }

  /** `s.lastIndexOf(c)`: the position of the last `c`, or -1 when there is none. */
  function LastIndexOf(s: string, c: char): (r: int)
    ensures -1 <= r < |s|
    ensures r == -1 <==> c !in s
    ensures r >= 0 ==> s[r] == c && c !in s[r + 1..]
  {
    if |s| == 0 then -1
    else if s[|s| - 1] == c then |s| - 1
    else
      var r := LastIndexOf(s[..|s| - 1], c);
      assert s[..|s| - 1] + [s[|s| - 1]] == s;
      r
  }

  /** `s.indexOf(c)`: the position of the first `c`, or -1 when there is none. */
  function IndexOf(s: string, c: char): (r: int)
    ensures -1 <= r < |s|
    ensures r == -1 <==> c !in s
    ensures r >= 0 ==> s[r] == c && c !in s[..r]
  {
    if |s| == 0 then -1
    else if s[0] == c then 0
    else
      var r := IndexOf(s[1..], c);
      assert s == [s[0]] + s[1..];
      if r == -1 then -1 else r + 1
  }

  /** `s.replace(pattern, replacement)` for a non-empty literal pattern: occurrences are
      found left to right and do not overlap. */
  function ReplaceAll(s: string, pattern: string, replacement: string): string
    requires |pattern| > 0
    decreases |s|
  {
    if |s| < |pattern| then s
    else if s[..|pattern|] == pattern then replacement + ReplaceAll(s[|pattern|..], pattern, replacement)
    else [s[0]] + ReplaceAll(s[1..], pattern, replacement)
  }

  /** Every `c` in `s` replaced by `r`, every other character kept: the reference meaning
      of replacing a one-character pattern. */
  function Subst(s: string, c: char, r: string): string {
    if |s| == 0 then [] else (if s[0] == c then r else [s[0]]) + Subst(s[1..], c, r)
  }

  /** Substitution distributes over concatenation. */
  lemma {:induction false} SubstConcat(a: string, b: string, c: char, r: string)
    ensures Subst(a + b, c, r) == Subst(a, c, r) + Subst(b, c, r)
  {
    if |a| > 0 {
      assert (a + b)[1..] == a[1..] + b;
      SubstConcat(a[1..], b, c, r);
    } else {
      assert a + b == b;
    }
  }

  /** Substituting a character that does not occur changes nothing. */
  lemma {:induction false} SubstAbsent(s: string, c: char, r: string)
    requires c !in s
    ensures Subst(s, c, r) == s
  {
    if |s| > 0 {
      assert c !in s[1..];
      SubstAbsent(s[1..], c, r);
    }
  }

  /** A character in neither the string nor the replacement is not in the result. */
  lemma {:induction false} SubstKeepsOut(s: string, c: char, r: string, x: char)
    requires x !in s && x !in r
    ensures x !in Subst(s, c, r)
  {
    if |s| > 0 {
      assert x !in s[1..];
      SubstKeepsOut(s[1..], c, r, x);
    }
  }

  /** A pattern whose first character does not occur is never found. */
  lemma {:induction false} ReplaceAllAbsent(s: string, pattern: string, replacement: string)
    requires |pattern| > 0 && pattern[0] !in s
    ensures ReplaceAll(s, pattern, replacement) == s
    decreases |s|
  {
    if |s| >= |pattern| {
      assert s[..|pattern|][0] == s[0];
      assert s[0] in s;
      assert pattern[0] !in s[1..];
      ReplaceAllAbsent(s[1..], pattern, replacement);
      assert s == [s[0]] + s[1..];
    }
  }

  /** Replacing a one-character pattern is substitution of that character. */
  lemma {:induction false} ReplaceAllSingle(s: string, c: char, r: string)
    ensures ReplaceAll(s, [c], r) == Subst(s, c, r)
    decreases |s|
  {
    if |s| >= 1 {
      ReplaceAllSingle(s[1..], c, r);
      if s[0] == c {
        assert s[..1] == [c];
      } else {
        assert s[..1] != [c];
      }
    }
  }

  /** `parts.joinToString(separator)`. */
  function Join(parts: seq<string>, separator: string): string {
    if |parts| == 0 then ""
    else if |parts| == 1 then parts[0]
    else parts[0] + separator + Join(parts[1..], separator)
  }

  /** The strings one after the other: what a writer holds after they were appended. */
  function Concat(parts: seq<string>): string {
    if |parts| == 0 then "" else Concat(parts[..|parts| - 1]) + parts[|parts| - 1]
  }

  /** Appending two runs of strings appends their concatenations. */
  lemma {:induction false} ConcatAppend(a: seq<string>, b: seq<string>)
    ensures Concat(a + b) == Concat(a) + Concat(b)
    decreases |b|
  {
    if |b| > 0 {
      var b' := b[..|b| - 1];
      assert (a + b)[..|a + b| - 1] == a + b';
      ConcatAppend(a, b');
    } else {
      assert a + b == a;
    }
  }

  /** Joining one more part adds the separator and the part. */
  lemma {:induction false} JoinSnoc(parts: seq<string>, last: string, separator: string)
    requires |parts| >= 1
    ensures Join(parts + [last], separator) == Join(parts, separator) + separator + last
  {
    if |parts| > 1 {
      assert (parts + [last])[1..] == parts[1..] + [last];
      JoinSnoc(parts[1..], last, separator);
    } else {
      assert (parts + [last])[1..] == [last];
    }
  }

  /** A character in no part and not in the separator is not in the joined string. */
  lemma {:induction false} JoinKeepsOut(parts: seq<string>, separator: string, x: char)
    requires x !in separator
    requires forall k :: 0 <= k < |parts| ==> x !in parts[k]
    ensures x !in Join(parts, separator)
  {
    if |parts| > 1 {
      JoinKeepsOut(parts[1..], separator, x);
    }
  }

  /** `s.split(separator)` for a one-character separator: the pieces between separators,
      so a string without the separator is one piece. */
  function Split(s: string, separator: char): (r: seq<string>)
    ensures |r| >= 1
    decreases |s|
  {
    var i := IndexOf(s, separator);
    if i == -1 then [s] else [s[..i]] + Split(s[i + 1..], separator)
  }

  /** Splitting a joined row gives back its fields, as long as no field holds the separator. */
  lemma {:induction false} SplitJoin(parts: seq<string>, separator: char)
    requires |parts| >= 1
    requires forall k :: 0 <= k < |parts| ==> separator !in parts[k]
    ensures Split(Join(parts, [separator]), separator) == parts
  {
    if |parts| > 1 {
      var first, rest := parts[0], Join(parts[1..], [separator]);
      assert Join(parts, [separator]) == first + [separator] + rest;
      assert Split(first + [separator] + rest, separator) == [first] + Split(rest, separator) by {
        SplitAfter(first, separator, rest);
      }
      assert Split(rest, separator) == parts[1..] by {
        SplitJoin(parts[1..], separator);
      }
      assert parts == [first] + parts[1..];
    } else {
      assert Join(parts, [separator]) == parts[0];
    }
  }

  /** The first piece of `a + [c] + b` is `a` when `a` has no `c`; the rest are `b`'s. */
  lemma SplitAfter(a: string, c: char, b: string)
    requires c !in a
    ensures Split(a + [c] + b, c) == [a] + Split(b, c)
  {
    var s := a + [c] + b;
    assert IndexOf(s, c) == |a| by {
      IndexOfAfter(a, c, b);
    }
    assert s[..|a|] == a && s[|a| + 1..] == b;
  }

  /** The first separator of `a + [c] + b` is the one right after `a` when `a` has none. */
  lemma IndexOfAfter(a: string, c: char, b: string)
    requires c !in a
    ensures IndexOf(a + [c] + b, c) == |a|
  {
    var s := a + [c] + b;
    assert s[|a|] == c;
    assert s[..|a|] == a;
  }

  /** `Char.isWhitespace()` in Kotlin: Java whitespace or a Unicode space separator. */
  predicate IsWhitespace(c: char) {
    c == ' ' || c == '\t' || c == '\n' || c == '\r' || c == '\U{0B}' || c == '\U{0C}'
    || ('\U{1C}' <= c <= '\U{1F}') || c == '\U{A0}' || c == '\U{1680}'
    || ('\U{2000}' <= c <= '\U{200A}') || c == '\U{2028}' || c == '\U{2029}'
    || c == '\U{202F}' || c == '\U{205F}' || c == '\U{3000}'
  }

  /** `s.isBlank()`: empty or whitespace only. */
  predicate IsBlank(s: string) {
    forall i :: 0 <= i < |s| ==> IsWhitespace(s[i])
  }

  /** The decimal digit for `d`. */
  function Digit(d: nat): char
    requires d < 10
  {
    "0123456789"[d]
  }

  /** `n.toString()` for a non-negative number: the digits of `n / 10`, then the last
      digit. */
  function NatToString(n: nat): (r: string)
    ensures |r| >= 1
    ensures forall i :: 0 <= i < |r| ==> '0' <= r[i] <= '9'
  {
    if n < 10 then [Digit(n)] else NatToString(n / 10) + [Digit(n % 10)]
  }

  /** `n.toString()` for any integer. */
  function IntToString(n: int): string {
    if n < 0 then "-" + NatToString(-n) else NatToString(n)
  }
}
