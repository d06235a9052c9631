/** Regrouping facts about sequences that the exporters use to restate what a buffer
    holds after several appends. */
module Sequences {
  /** Two runs appended one after another are the two appended together. */
  lemma Regroup2<T>(t: seq<T>, a: seq<T>, b: seq<T>)
    ensures t + a + b == t + (a + b)
  {
  }

  /** Three runs appended one after another are the three appended together. */
  lemma Regroup3<T>(t: seq<T>, a: seq<T>, b: seq<T>, c: seq<T>)
    ensures t + a + b + c == t + (a + b + c)
  {
  }

  /** Four runs appended one after another are the four appended together. */
  lemma Regroup4<T>(s: seq<T>, a: seq<T>, b: seq<T>, c: seq<T>, d: seq<T>)
    ensures s + a + b + c + d == s + (a + b + c + d)
  {
  }

  /** Six fragments appended one at a time are the six appended at once. */
  lemma Pushed6<T>(t: seq<T>, a: T, b: T, c: T, d: T, e: T, f: T)
    ensures t + [a] + [b] + [c] + [d] + [e] + [f] == t + [a, b, c, d, e, f]
  {
  }

  /** Eight items appended one at a time are the eight appended at once. */
  lemma Pushed8<T>(s: seq<T>, a: T, b: T, c: T, d: T, e: T, f: T, g: T, h: T)
    ensures s + [a] + [b] + [c] + [d] + [e] + [f] + [g] + [h] == s + [a, b, c, d, e, f, g, h]
  {
  }

  /** Ten items appended one at a time are the ten appended at once. */
  lemma Pushed10<T>(s: seq<T>, a: T, b: T, c: T, d: T, e: T, f: T, g: T, h: T, i: T, j: T)
    ensures s + [a] + [b] + [c] + [d] + [e] + [f] + [g] + [h] + [i] + [j] == s + [a, b, c, d, e, f, g, h, i, j]
  {
  }

  /** Four runs appended together can be read back by position. */
  lemma Slices4<T>(a: seq<T>, b: seq<T>, c: seq<T>, d: seq<T>)
    ensures var s := a + b + c + d;
      && |s| == |a| + |b| + |c| + |d|
      && s[..|a|] == a
      && s[|a|..|a| + |b|] == b
      && s[|a| + |b|..|a| + |b| + |c|] == c
      && s[|a| + |b| + |c|..] == d
  {
  }
}
