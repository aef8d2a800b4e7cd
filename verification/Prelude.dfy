/** The types shared by every component, and the few sequence facts that several
    of them need. */
module Prelude {

  datatype Option<+T> = None | Some(value: T)

  /** The kinds of failure the services distinguish: a malformed request, a
      conflict with committed state, a missing row, and a database constraint. */
  datatype Error = Invalid | Conflict | NotFound | Constraint

  datatype Result<+T> = Ok(value: T) | Err(error: Error)

  datatype Side = Buy | Sell
  datatype OrderKind = Limit | Market

  /** The sum of `f` over a sequence. */
  ghost function Sum<T>(f: T -> real, xs: seq<T>): real {
    if xs == [] then 0.0 else Sum(f, xs[..|xs| - 1]) + f(xs[|xs| - 1])
  }

  lemma {:induction false} SumAppend<T>(f: T -> real, xs: seq<T>, ys: seq<T>)
    ensures Sum(f, xs + ys) == Sum(f, xs) + Sum(f, ys)
  {
    if ys == [] {
      assert xs + ys == xs;
    } else {
      var n := |ys| - 1;
      assert (xs + ys)[..|xs + ys| - 1] == xs + ys[..n];
      SumAppend(f, xs, ys[..n]);
    }
  }

  /** Replacing one element moves the sum by the difference of the two values. */
  lemma {:induction false} SumUpdate<T>(f: T -> real, xs: seq<T>, i: nat, x: T)
    requires i < |xs|
    ensures Sum(f, xs[i := x]) == Sum(f, xs) - f(xs[i]) + f(x)
  {
    var n := |xs| - 1;
    if i < n {
      assert xs[i := x][..n] == xs[..n][i := x];
      SumUpdate(f, xs[..n], i, x);
    } else {
      assert xs[i := x][..n] == xs[..n];
    }
  }

  /** A sum depends on the elements and not on their order. */
  lemma {:induction false} SumPermutation<T>(f: T -> real, xs: seq<T>, ys: seq<T>)
    requires multiset(xs) == multiset(ys)
    ensures Sum(f, xs) == Sum(f, ys)
    decreases |xs|
  {
    if xs == [] {
      assert |multiset(ys)| == 0;
    } else {
      var n := |xs| - 1;
      var x := xs[n];
      assert xs == xs[..n] + [x];
      assert x in multiset(ys);
      var j :| 0 <= j < |ys| && ys[j] == x;
      var rest := ys[..j] + ys[j + 1..];
      assert ys == ys[..j] + [x] + ys[j + 1..];
      assert multiset(rest) == multiset(ys) - multiset{x};
      assert multiset(xs[..n]) == multiset(xs) - multiset{x};
      SumPermutation(f, xs[..n], rest);
      SumAppend(f, ys[..j], ys[j + 1..]);
      SumAppend(f, ys[..j], [x]);
      SumAppend(f, ys[..j] + [x], ys[j + 1..]);
      assert Sum(f, [x]) == f(x) by { assert [x][..0] == []; }
    }
  }

  /** Two functions that agree on every element have the same sum. */
  lemma {:induction false} SumCongruence<T>(f: T -> real, g: T -> real, xs: seq<T>)
    requires forall i :: 0 <= i < |xs| ==> f(xs[i]) == g(xs[i])
    ensures Sum(f, xs) == Sum(g, xs)
  {
    if xs != [] {
      SumCongruence(f, g, xs[..|xs| - 1]);
    }
  }

  /** A sum of non-negative terms is at least any one of them. */
  lemma {:induction false} SumBound<T>(f: T -> real, xs: seq<T>, i: nat)
    requires i < |xs|
    requires forall k :: 0 <= k < |xs| ==> f(xs[k]) >= 0.0
    ensures Sum(f, xs) >= f(xs[i])
    ensures Sum(f, xs[..|xs| - 1]) >= 0.0
  {
    var n := |xs| - 1;
    if n > 0 {
      SumBound(f, xs[..n], if i < n then i else 0);
    } else {
      assert xs[..0] == [];
    }
  }
}
