/** Sums over sequences. */
module Tally {

  ghost function Total<T>(xs: seq<T>, f: T -> int): int {
    if xs == [] then 0 else Total(xs[..|xs| - 1], f) + f(xs[|xs| - 1])
  }

  lemma TotalAppend<T>(xs: seq<T>, x: T, f: T -> int)
    ensures Total(xs + [x], f) == Total(xs, f) + f(x)
  {
    assert (xs + [x])[..|xs|] == xs;
  }

  lemma {:induction false} TotalConcat<T>(xs: seq<T>, ys: seq<T>, f: T -> int)
    ensures Total(xs + ys, f) == Total(xs, f) + Total(ys, f)
  {
    if ys == [] {
      assert xs + ys == xs;
    } else {
      TotalConcat(xs, ys[..|ys| - 1], f);
      assert (xs + ys)[..|xs + ys| - 1] == xs + ys[..|ys| - 1];
    }
  }

  lemma TotalHead<T>(xs: seq<T>, f: T -> int)
    requires xs != []
    ensures Total(xs, f) == f(xs[0]) + Total(xs[1..], f)
  {
    TotalConcat([xs[0]], xs[1..], f);
    assert [xs[0]] + xs[1..] == xs;
    assert Total([xs[0]], f) == Total<T>([], f) + f(xs[0]);
  }

  lemma {:induction false} TotalUpdate<T>(xs: seq<T>, i: nat, y: T, f: T -> int)
    requires i < |xs|
    ensures Total(xs[i := y], f) == Total(xs, f) - f(xs[i]) + f(y)
  {
    var n := |xs| - 1;
    if i == n {
      assert xs[i := y][..n] == xs[..n];
    } else {
      TotalUpdate(xs[..n], i, y, f);
      assert xs[i := y][..n] == xs[..n][i := y];
    }
  }

  lemma {:induction false} TotalNonNegative<T>(xs: seq<T>, f: T -> int)
    requires forall x :: x in xs ==> f(x) >= 0
    ensures Total(xs, f) >= 0
  {
    if xs != [] { TotalNonNegative(xs[..|xs| - 1], f); }
  }

  /** A member of a sum of non-negative numbers is at most the sum. */
  lemma {:induction false} TotalMember<T>(xs: seq<T>, i: nat, f: T -> int)
    requires i < |xs| && forall x :: x in xs ==> f(x) >= 0
    ensures f(xs[i]) <= Total(xs, f)
  {
    TotalNonNegative(xs[..|xs| - 1], f);
    if i < |xs| - 1 { TotalMember(xs[..|xs| - 1], i, f); }
  }
}
