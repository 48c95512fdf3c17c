/**
 * Sums over sequences.
 *
 * A total is taken of a function of the elements: the weights of the paths on a
 * stack, the sizes of what has been found, the backslashes of a list of
 * strings, the amounts of the operations in a log, or what threads hold. It
 * splits where the sequence is split, and one element more or other changes it
 * by what that element counts for.
 */
module Totals {

  function Total<T>(f: T -> int, xs: seq<T>): int {
    if xs == [] then 0 else f(xs[0]) + Total(f, xs[1..])
  }

  lemma {:induction false} TotalConcat<T>(f: T -> int, a: seq<T>, b: seq<T>)
    ensures Total(f, a + b) == Total(f, a) + Total(f, b)
  {
    if a == [] {
      assert a + b == b;
    } else {
      assert (a + b)[1..] == a[1..] + b;
      TotalConcat(f, a[1..], b);
    }
  }

  lemma TotalOne<T>(f: T -> int, x: T)
    ensures Total(f, [x]) == f(x)
  {
    assert [x][1..] == [];
  }

  lemma TotalSnoc<T>(f: T -> int, a: seq<T>, x: T)
    ensures Total(f, a + [x]) == Total(f, a) + f(x)
  {
    TotalConcat(f, a, [x]);
  }

  lemma TotalUpdate<T>(f: T -> int, xs: seq<T>, i: nat, x: T)
    requires i < |xs|
    ensures Total(f, xs[i := x]) == Total(f, xs) - f(xs[i]) + f(x)
  {
    TotalConcat(f, xs[..i], xs[i..]);
    TotalConcat(f, xs[..i], [x] + xs[i + 1..]);
    assert xs[..i] + xs[i..] == xs;
    assert xs[..i] + ([x] + xs[i + 1..]) == xs[i := x];
    assert xs[i..][1..] == xs[i + 1..];
    assert ([x] + xs[i + 1..])[1..] == xs[i + 1..];
  }

  lemma {:induction false} TotalNonNegative<T>(f: T -> int, xs: seq<T>)
    requires forall x :: f(x) >= 0
    ensures Total(f, xs) >= 0
  {
    if xs == [] {
    } else {
      TotalNonNegative(f, xs[1..]);
    }
  }

  /** A part is at most the whole. */
  lemma TotalAtLeast<T>(f: T -> int, xs: seq<T>, i: nat)
    requires i < |xs| && forall x :: f(x) >= 0
    ensures f(xs[i]) <= Total(f, xs)
  {
    TotalConcat(f, xs[..i], xs[i..]);
    assert xs[..i] + xs[i..] == xs;
    TotalNonNegative(f, xs[..i]);
    TotalNonNegative(f, xs[i..][1..]);
  }

  lemma {:induction false} TotalZero<T>(f: T -> int, xs: seq<T>)
    requires forall i :: 0 <= i < |xs| ==> f(xs[i]) == 0
    ensures Total(f, xs) == 0
  {
    if xs == [] {
    } else {
      TotalZero(f, xs[1..]);
    }
  }
}
