/** `System.IO.Path.Combine` on a Unix host, where the separator is `/`. */
module Paths {

  const Separator: char := '/'

  /** A path is rooted when it starts with the separator. */
  predicate IsRooted(p: string) {
    |p| > 0 && p[0] == Separator
  }

  /**
   * `Path.Combine(a, b)`: a rooted `b` replaces `a`; an empty part is dropped;
   * otherwise the two are joined with one separator unless `a` already ends in one.
   */
  function Combine(a: string, b: string): (r: string)
    ensures IsRooted(b) ==> r == b
    ensures b != [] ==> |r| >= |b| && r[|r| - |b|..] == b
    ensures a == [] ==> r == b
  {
    if IsRooted(b) || a == [] then b
    else if b == [] then a
    else if a[|a| - 1] == Separator then a + b
    else a + [Separator] + b
  }

  /** Two non-empty parts, `b` relative and `a` not ending in a separator, are joined by one separator. */
  lemma CombineJoins(a: string, b: string)
    requires a != [] && a[|a| - 1] != Separator
    requires b != [] && !IsRooted(b)
    ensures Combine(a, b) == a + [Separator] + b
  {
  }

  /** `Path.Combine(a, b, c)`: the parts are combined from left to right. */
  function Combine3(a: string, b: string, c: string): (r: string)
    ensures c != [] ==> |r| >= |c| && r[|r| - |c|..] == c
  {
    Combine(Combine(a, b), c)
  }

  /** With no part rooted and `a` ending in a separator, the parts are joined by one separator each. */
  lemma Combine3Joins(a: string, b: string, c: string)
    requires |a| > 0 && a[|a| - 1] == Separator
    requires b != [] && c != [] && !IsRooted(b) && !IsRooted(c)
    requires b[|b| - 1] != Separator
    ensures Combine3(a, b, c) == a + b + [Separator] + c
  {
    var ab := Combine(a, b);
    assert ab == a + b;
    assert ab[|ab| - 1] == b[|b| - 1];
  }
}
