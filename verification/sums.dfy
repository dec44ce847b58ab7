/** Folds over sequences that the score computations are built from: a sum
    (JavaScript `reduce` with `+` from 0), a maximum seeded with 0
    (`reduce` with `Math.max` from 0) and an argmax (the head of a
    descending sort). Reals stand in for JavaScript numbers. */
module Sums {

  /** No element occurs twice, as for the keys of a JavaScript object. */
  predicate Distinct<T(==)>(xs: seq<T>) {
    forall i, j :: 0 <= i < j < |xs| ==> xs[i] != xs[j]
  }

  /** Dropping the head keeps the rest distinct, and the head is not in it. */
  lemma DistinctTail<T>(xs: seq<T>)
    requires |xs| > 0
    ensures Distinct(xs) ==> Distinct(xs[1..]) && xs[0] !in xs[1..]
  {
  }

  function Max(a: real, b: real): real {
    if a >= b then a else b
  }

  /** The sum of f over xs. */
  function Sum<T>(xs: seq<T>, f: T -> real): real
    decreases |xs|
  {
    if |xs| == 0 then 0.0 else f(xs[0]) + Sum(xs[1..], f)
  }

  /** The largest of 0 and every f(x) for x in xs. */
  function Max0<T>(xs: seq<T>, f: T -> real): (r: real)
    ensures r >= 0.0
    ensures forall i :: 0 <= i < |xs| ==> f(xs[i]) <= r
    ensures r == 0.0 || exists i :: 0 <= i < |xs| && r == f(xs[i])
    decreases |xs|
  {
    if |xs| == 0 then 0.0 else Max(f(xs[0]), Max0(xs[1..], f))
  }

  /** An element of xs with the highest score; which one wins a tie is
      left open by the contract. */
  function ArgMax<T>(xs: seq<T>, score: T -> real): (r: T)
    requires |xs| > 0
    ensures r in xs
    ensures forall i :: 0 <= i < |xs| ==> score(xs[i]) <= score(r)
    decreases |xs|
  {
    if |xs| == 1 then xs[0]
    else
      var best := ArgMax(xs[1..], score);
      if score(xs[0]) >= score(best) then xs[0] else best
  }

  /** f with the term at y removed. */
  function Without<T(==)>(f: T -> real, y: T): T -> real {
    x => if x == y then 0.0 else f(x)
  }

  lemma {:induction false} SumNonNegative<T>(xs: seq<T>, f: T -> real)
    requires forall i :: 0 <= i < |xs| ==> f(xs[i]) >= 0.0
    ensures Sum(xs, f) >= 0.0
    decreases |xs|
  {
    if |xs| > 0 {
      SumNonNegative(xs[1..], f);
    }
  }

  lemma {:induction false} SumMonotone<T>(xs: seq<T>, f: T -> real, g: T -> real)
    requires forall i :: 0 <= i < |xs| ==> f(xs[i]) <= g(xs[i])
    ensures Sum(xs, f) <= Sum(xs, g)
    decreases |xs|
  {
    if |xs| > 0 {
      SumMonotone(xs[1..], f, g);
    }
  }

  lemma {:induction false} SumCongruent<T>(xs: seq<T>, f: T -> real, g: T -> real)
    requires forall i :: 0 <= i < |xs| ==> f(xs[i]) == g(xs[i])
    ensures Sum(xs, f) == Sum(xs, g)
    decreases |xs|
  {
    if |xs| > 0 {
      SumCongruent(xs[1..], f, g);
    }
  }

  /** A sum of zeros is zero. */
  lemma {:induction false} SumZero<T>(xs: seq<T>, f: T -> real)
    requires forall i :: 0 <= i < |xs| ==> f(xs[i]) == 0.0
    ensures Sum(xs, f) == 0.0
    decreases |xs|
  {
    if |xs| > 0 {
      SumZero(xs[1..], f);
    }
  }

  /** A sum of non-negative terms is at least each of its terms. */
  lemma {:induction false} SumAtLeastTerm<T>(xs: seq<T>, f: T -> real, k: nat)
    requires k < |xs|
    requires forall i :: 0 <= i < |xs| ==> f(xs[i]) >= 0.0
    ensures Sum(xs, f) >= f(xs[k])
    decreases |xs|
  {
    if k == 0 {
      SumNonNegative(xs[1..], f);
    } else {
      SumAtLeastTerm(xs[1..], f, k - 1);
    }
  }

  /** A sum of non-negative terms is zero exactly when every term is. */
  lemma SumZeroExactly<T>(xs: seq<T>, f: T -> real)
    requires forall i :: 0 <= i < |xs| ==> f(xs[i]) >= 0.0
    ensures Sum(xs, f) == 0.0 <==> forall i :: 0 <= i < |xs| ==> f(xs[i]) == 0.0
  {
    if forall i :: 0 <= i < |xs| ==> f(xs[i]) == 0.0 {
      SumZero(xs, f);
    } else {
      var i :| 0 <= i < |xs| && f(xs[i]) != 0.0;
      SumAtLeastTerm(xs, f, i);
    }
  }

  /** Appending one element adds its term: the step of a left fold. */
  lemma {:induction false} SumAppend<T>(xs: seq<T>, y: T, f: T -> real)
    ensures Sum(xs + [y], f) == Sum(xs, f) + f(y)
    decreases |xs|
  {
    if |xs| == 0 {
      assert xs + [y] == [y];
    } else {
      assert (xs + [y])[1..] == xs[1..] + [y];
      SumAppend(xs[1..], y, f);
    }
  }

  /** A term that does not occur contributes nothing. */
  lemma {:induction false} SumWithoutAbsent<T>(xs: seq<T>, y: T, f: T -> real)
    requires y !in xs
    ensures Sum(xs, Without(f, y)) == Sum(xs, f)
  {
    SumCongruent(xs, Without(f, y), f);
  }

  /** Over distinct elements, a sum is the term at one element plus the sum
      of all the others. */
  lemma {:induction false} SumSplit<T>(xs: seq<T>, y: T, f: T -> real)
    requires Distinct(xs)
    requires y in xs
    ensures Sum(xs, f) == f(y) + Sum(xs, Without(f, y))
    decreases |xs|
  {
    if xs[0] == y {
      assert y !in xs[1..];
      SumWithoutAbsent(xs[1..], y, f);
    } else {
      SumSplit(xs[1..], y, f);
    }
  }

  /** A sum over distinct xs is at most the sum over distinct ys when every
      x contributing something also occurs in ys and the terms over ys are
      non-negative. */
  lemma {:induction false} SumSubset<T>(xs: seq<T>, ys: seq<T>, f: T -> real)
    requires Distinct(xs) && Distinct(ys)
    requires forall i :: 0 <= i < |ys| ==> f(ys[i]) >= 0.0
    requires forall i :: 0 <= i < |xs| ==> xs[i] in ys || f(xs[i]) == 0.0
    ensures Sum(xs, f) <= Sum(ys, f)
    decreases |xs|
  {
    if |xs| == 0 {
      SumNonNegative(ys, f);
    } else {
      var x := xs[0];
      if x in ys {
        var g := Without(f, x);
        assert x !in xs[1..];
        SumWithoutAbsent(xs[1..], x, f);
        SumSubset(xs[1..], ys, g);
        SumSplit(ys, x, f);
      } else {
        SumSubset(xs[1..], ys, f);
      }
    }
  }

  /** A sum of non-negative terms is at least their maximum. */
  lemma {:induction false} SumAtLeastMax<T>(xs: seq<T>, f: T -> real)
    requires forall i :: 0 <= i < |xs| ==> f(xs[i]) >= 0.0
    ensures Sum(xs, f) >= Max0(xs, f)
    decreases |xs|
  {
    if |xs| > 0 {
      SumAtLeastMax(xs[1..], f);
      SumNonNegative(xs[1..], f);
    }
  }
}
