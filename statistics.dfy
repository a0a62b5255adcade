/**
 * The arithmetic behind the monitors' reports: Python's sum over a list,
 * true division (which raises ZeroDivisionError on a zero count), and the
 * sum of squared differences from a mean that the variance getters build
 * with a list comprehension.
 */
module Statistics {
  import opened Optional

  /** Python's sum over a list of numbers. */
  function Sum(xs: seq<real>): real
  {
    if xs == [] then 0.0 else Sum(xs[..|xs| - 1]) + xs[|xs| - 1]
  }

  /** A list of counts read as numbers. */
  function AsReals(xs: seq<nat>): (ys: seq<real>)
    ensures |ys| == |xs|
    ensures forall i :: 0 <= i < |xs| ==> ys[i] == xs[i] as real
  {
    seq(|xs|, i requires 0 <= i < |xs| => xs[i] as real)
  }

  /** x**2: never negative. */
  function Square(x: real): (s: real)
    ensures s >= 0.0
  {
    x * x
  }

  /** sum([(x - mean)**2 for x in xs]): never negative. */
  function SquaredDeviations(xs: seq<real>, mean: real): (s: real)
    ensures s >= 0.0
  {
    if xs == [] then 0.0
    else SquaredDeviations(xs[..|xs| - 1], mean) + Square(xs[|xs| - 1] - mean)
  }

  /**
   * Python's true division total / n. None stands for the ZeroDivisionError
   * raised when n is 0.
   */
  function Quotient(total: real, n: nat): (q: Option<real>)
    ensures q.Some? <==> n != 0
    ensures q.Some? ==> q.value * (n as real) == total
  {
    if n == 0 then None else Some(total / (n as real))
  }

  /** n copies of v. */
  function Repeat(v: real, n: nat): (s: seq<real>)
    ensures |s| == n
    ensures forall i :: 0 <= i < n ==> s[i] == v
  {
    seq(n, i => v)
  }

  /** A sum of non-negative numbers is non-negative. */
  lemma {:induction false} SumNonNegative(xs: seq<real>)
    requires forall i :: 0 <= i < |xs| ==> 0.0 <= xs[i]
    ensures 0.0 <= Sum(xs)
  {
    if xs != [] {
      SumNonNegative(xs[..|xs| - 1]);
    }
  }

  /** Summing preserves a pointwise order. */
  lemma {:induction false} SumMonotone(xs: seq<real>, ys: seq<real>)
    requires |xs| == |ys|
    requires forall i :: 0 <= i < |xs| ==> xs[i] <= ys[i]
    ensures Sum(xs) <= Sum(ys)
  {
    if xs != [] {
      SumMonotone(xs[..|xs| - 1], ys[..|ys| - 1]);
    }
  }

  /** If each ys[i] lies between xs[i] and xs[i] + 1, the sums differ by at most the length. */
  lemma {:induction false} SumWithinOne(xs: seq<real>, ys: seq<real>)
    requires |xs| == |ys|
    requires forall i :: 0 <= i < |xs| ==> xs[i] <= ys[i] <= xs[i] + 1.0
    ensures Sum(xs) <= Sum(ys) <= Sum(xs) + |xs| as real
  {
    if xs != [] {
      SumWithinOne(xs[..|xs| - 1], ys[..|ys| - 1]);
    }
  }

  lemma {:induction false} SumAppend(xs: seq<real>, ys: seq<real>)
    ensures Sum(xs + ys) == Sum(xs) + Sum(ys)
    decreases |ys|
  {
    if ys != [] {
      var ys' := ys[..|ys| - 1];
      assert (xs + ys)[..|xs + ys| - 1] == xs + ys';
      SumAppend(xs, ys');
    } else {
      assert xs + ys == xs;
    }
  }

  lemma {:induction false} SumRepeat(v: real, n: nat)
    ensures Sum(Repeat(v, n)) == (n as real) * v
  {
    if n > 0 {
      assert Repeat(v, n)[..n - 1] == Repeat(v, n - 1);
      SumRepeat(v, n - 1);
    }
  }

  lemma {:induction false} SquaredDeviationsAppend(xs: seq<real>, ys: seq<real>, mean: real)
    ensures SquaredDeviations(xs + ys, mean) == SquaredDeviations(xs, mean) + SquaredDeviations(ys, mean)
    decreases |ys|
  {
    if ys != [] {
      var ys' := ys[..|ys| - 1];
      assert (xs + ys)[..|xs + ys| - 1] == xs + ys';
      SquaredDeviationsAppend(xs, ys', mean);
    } else {
      assert xs + ys == xs;
    }
  }

  lemma {:induction false} SquaredDeviationsRepeat(v: real, n: nat, mean: real)
    ensures SquaredDeviations(Repeat(v, n), mean) == (n as real) * Square(v - mean)
  {
    if n > 0 {
      assert Repeat(v, n)[..n - 1] == Repeat(v, n - 1);
      SquaredDeviationsRepeat(v, n - 1, mean);
    }
  }

  /** Dividing two ordered totals by the same positive count keeps their order. */
  lemma QuotientMonotone(a: real, b: real, n: nat)
    requires n != 0
    requires a <= b
    ensures Quotient(a, n).value <= Quotient(b, n).value
  {
    var k := n as real;
    assert a / k <= b / k by {
      assert b / k - a / k == (b - a) / k;
    }
  }

  /** Adding n to a total of n samples adds one to their mean. */
  lemma QuotientShift(a: real, n: nat)
    requires n != 0
    ensures Quotient(a + n as real, n).value == Quotient(a, n).value + 1.0
  {
    var k := n as real;
    assert (a + k) / k == a / k + k / k;
  }

  /** n samples that each equal v have mean v. */
  lemma MeanOfRepeat(v: real, n: nat)
    requires n != 0
    ensures Quotient(Sum(Repeat(v, n)), n).value == v
  {
    SumRepeat(v, n);
    var k := n as real;
    assert (k * v) / k == v;
  }

  /** The mean of samples that all lie at or below a bound lies at or below it too. */
  lemma MeanAtMost(xs: seq<real>, bound: real)
    requires xs != []
    requires forall i :: 0 <= i < |xs| ==> xs[i] <= bound
    ensures Quotient(Sum(xs), |xs|).value <= bound
  {
    SumMonotone(xs, Repeat(bound, |xs|));
    QuotientMonotone(Sum(xs), Sum(Repeat(bound, |xs|)), |xs|);
    MeanOfRepeat(bound, |xs|);
  }

  /** The mean of samples that are all non-negative is non-negative. */
  lemma MeanNonNegative(xs: seq<real>, n: nat)
    requires n != 0
    requires forall i :: 0 <= i < |xs| ==> 0.0 <= xs[i]
    ensures Quotient(Sum(xs), n).value >= 0.0
  {
    SumNonNegative(xs);
  }
}
