// Facts about lists and strings that several components need.

module Sequences {
  predicate Distinct<T(==)>(s: seq<T>) { forall i, j :: 0 <= i < j < |s| ==> s[i] != s[j] }

  /** `rsplit(sep).next()`: what follows the last `sep`, or everything. */
  function LastPart(s: string, sep: char): string {
    if s == "" || s[|s| - 1] == sep then "" else LastPart(s[..|s| - 1], sep) + [s[|s| - 1]]
  }

  /** What was put behind a separator is what follows the last one. */
  lemma {:induction false} LastPartAppended(a: string, sep: char, c: string)
    requires sep !in c
    ensures LastPart(a + [sep] + c, sep) == c
  {
    var s := a + [sep] + c;
    if c != "" {
      var init := c[..|c| - 1];
      assert s[..|s| - 1] == a + [sep] + init && s[|s| - 1] == c[|c| - 1];
      LastPartAppended(a, sep, init);
    }
  }

  /** The part behind the last separator is determined by the string. */
  lemma LastSegment(a: string, b: string, sep: char, c: string, d: string)
    requires sep !in c && sep !in d && a + [sep] + c == b + [sep] + d
    ensures a == b && c == d
  {
    LastPartAppended(a, sep, c);
    LastPartAppended(b, sep, d);
    assert a == (a + [sep] + c)[..|a|] && b == (b + [sep] + d)[..|b|];
  }
}
