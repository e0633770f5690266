/** Strings cut at their first separator character. */
module Separators {

  lemma CutNotShorter(sep: char, a: string, r: string, b: string, s: string)
    requires sep !in b
    requires a + [sep] + r == b + [sep] + s
    ensures |a| >= |b|
  {
    assert (a + [sep] + r)[|a|] == sep;
    assert forall i :: 0 <= i < |b| ==> (b + [sep] + s)[i] == b[i];
  }

  /** Two concatenations around the first separator are equal only if their parts are. */
  lemma CutIsUnique(sep: char, a: string, r: string, b: string, s: string)
    requires sep !in a && sep !in b
    requires a + [sep] + r == b + [sep] + s
    ensures a == b && r == s
  {
    CutNotShorter(sep, a, r, b, s);
    CutNotShorter(sep, b, s, a, r);
    assert a == (a + [sep] + r)[..|a|] && b == (b + [sep] + s)[..|b|];
    assert r == (a + [sep] + r)[|a| + 1..] && s == (b + [sep] + s)[|b| + 1..];
  }
}
