/**
 `[...new Set(xs)].sort()` on strings: removing repeats in first-occurrence
 order, then sorting by the lexicographic order `Text.Below`.
 */
module Sorting {
  import opened Text

  /** No string occurs twice. */
  predicate Distinct(xs: seq<string>)
  {
    forall i, j :: 0 <= i < j < |xs| ==> xs[i] != xs[j]
  }

  /** Every earlier string is strictly below every later one. */
  predicate StrictlySorted(xs: seq<string>)
  {
    forall i, j :: 0 <= i < j < |xs| ==> Below(xs[i], xs[j])
  }

  /** A strictly sorted sequence holds no string twice. */
  lemma StrictlySortedIsDistinct(xs: seq<string>)
    requires StrictlySorted(xs)
    ensures Distinct(xs)
  {
    forall i, j | 0 <= i < j < |xs| ensures xs[i] != xs[j] {
      BelowIrreflexive(xs[i]);
    }
  }

  /**
   `[...new Set(xs)]`: the strings of `xs`, each once, in the order of their
   first occurrence.
   */
  function Dedup(xs: seq<string>): (r: seq<string>)
    ensures Distinct(r)
    ensures forall y :: y in r <==> y in xs
  {
    if xs == [] then []
    else
      var rest := Dedup(xs[..|xs| - 1]);
      var last := xs[|xs| - 1];
      assert xs == xs[..|xs| - 1] + [last];
      if last in rest then rest else rest + [last]
  }

  /** `x` is strictly below every string of `xs`. */
  lemma BelowAll(x: string, xs: seq<string>)
    requires StrictlySorted(xs) && xs != [] && Below(x, xs[0])
    ensures forall k :: 0 <= k < |xs| ==> Below(x, xs[k])
  {
    forall k | 0 < k < |xs| ensures Below(x, xs[k]) {
      BelowTransitive(x, xs[0], xs[k]);
    }
  }

  /** Inserting a new string into a strictly sorted sequence at its place. */
  function Insert(x: string, xs: seq<string>): (r: seq<string>)
    requires StrictlySorted(xs) && x !in xs
    ensures StrictlySorted(r)
    ensures |r| == |xs| + 1
    ensures forall y :: y in r <==> y == x || y in xs
  {
    if xs == [] then [x]
    else if Below(xs[0], x) then
      var tail := Insert(x, xs[1..]);
      assert forall k :: 0 <= k < |tail| ==> tail[k] == x || tail[k] in xs[1..];
      assert forall y :: y in xs[1..] ==> Below(xs[0], y);
      [xs[0]] + tail
    else
      BelowTotal(x, xs[0]);
      BelowAll(x, xs);
      [x] + xs
  }

  /** Insertion sort of a sequence without repeats. */
  function Sort(xs: seq<string>): (r: seq<string>)
    requires Distinct(xs)
    ensures StrictlySorted(r)
    ensures |r| == |xs|
    ensures forall y :: y in r <==> y in xs
  {
    if xs == [] then []
    else
      assert xs[0] !in xs[1..];
      Insert(xs[0], Sort(xs[1..]))
  }

  /** Only one strictly sorted sequence holds a given set of strings. */
  lemma {:induction false} StrictlySortedUnique(xs: seq<string>, ys: seq<string>)
    requires StrictlySorted(xs) && StrictlySorted(ys)
    requires forall y :: y in xs <==> y in ys
    ensures xs == ys
  {
    FirstIn(xs);
    FirstIn(ys);
    if xs != [] && ys != [] {
      LeastFirst(xs, ys[0]);
      LeastFirst(ys, xs[0]);
      BelowAsymmetric(xs[0], ys[0]);
      assert xs == [xs[0]] + xs[1..] && ys == [ys[0]] + ys[1..];
      forall y ensures y in xs[1..] <==> y in ys[1..] {
        if y in xs[1..] {
          FirstIsLeast(xs, y);
          assert y in ys && y != ys[0];
        }
        if y in ys[1..] {
          FirstIsLeast(ys, y);
          assert y in xs && y != xs[0];
        }
      }
      StrictlySortedUnique(xs[1..], ys[1..]);
    }
  }

  /**
   Brings `xs[0] in xs` into scope without a case split on `xs == []`, so
   that no branch of the caller is known to be impossible.
   */
  lemma FirstIn(xs: seq<string>)
    ensures xs != [] ==> xs[0] in xs
  {
  }

  /** The first element of a strictly sorted sequence is its least. */
  lemma LeastFirst(xs: seq<string>, y: string)
    requires StrictlySorted(xs) && y in xs
    ensures y == xs[0] || Below(xs[0], y)
  {
    var k :| 0 <= k < |xs| && xs[k] == y;
  }

  /** Every later element of a strictly sorted sequence is above its first. */
  lemma FirstIsLeast(xs: seq<string>, y: string)
    requires StrictlySorted(xs) && xs != [] && y in xs[1..]
    ensures Below(xs[0], y) && y != xs[0]
  {
    var k :| 0 <= k < |xs[1..]| && xs[1..][k] == y;
    assert xs[k + 1] == y;
    BelowIrreflexive(y);
  }
}
