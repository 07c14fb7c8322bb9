/**
 Facts about sequences that the rest of the model uses to regroup what has
 been written: concatenation is associative, a sequence splits at any index,
 and a contiguous run of a sequence stays a run of anything it is part of.
 */
module Sequences {

  lemma Assoc<T>(a: seq<T>, b: seq<T>, c: seq<T>)
    ensures a + (b + c) == a + b + c
  {
  }

  lemma SplitAt<T>(s: seq<T>, i: nat)
    requires i <= |s|
    ensures s == s[..i] + s[i..]
  {
  }

  lemma TakeSnoc<T>(s: seq<T>, i: nat)
    requires i < |s|
    ensures s[..i + 1] == s[..i] + [s[i]]
  {
  }

  lemma SnocSplit<T>(a: seq<T>, b: seq<T>)
    requires |b| > 0
    ensures a + b == (a + b[..|b| - 1]) + [b[|b| - 1]]
  {
  }

  /** `part` occurs in `whole` as a contiguous run. */
  ghost predicate Contains<T>(whole: seq<T>, part: seq<T>) {
    exists i, j :: 0 <= i <= j <= |whole| && whole[i..j] == part
  }

  lemma ContainsWhole<T>(s: seq<T>)
    ensures Contains(s, s)
  {
    assert s[0..|s|] == s;
  }

  /** A run of a prefix is a run of the whole. */
  lemma ContainsPrefix<T>(a: seq<T>, c: seq<T>, part: seq<T>)
    requires a <= c && Contains(a, part)
    ensures Contains(c, part)
  {
    var i, j :| 0 <= i <= j <= |a| && a[i..j] == part;
    assert c[i..j] == part;
  }

  /** A run of `b` is a run of `a + b`. */
  lemma ContainsSuffix<T>(a: seq<T>, b: seq<T>, part: seq<T>)
    requires Contains(b, part)
    ensures Contains(a + b, part)
  {
    var i, j :| 0 <= i <= j <= |b| && b[i..j] == part;
    assert (a + b)[|a| + i..|a| + j] == part;
  }
}
