/** The cluster imbalance measure: the population variance of node utilization. */
module Imbalance {
  import opened Arithmetic
  import opened Sums

  ghost function Squares(util: map<string, real>): map<string, real> {
    map n | n in util :: Sq(util[n])
  }

  ghost function Deviations(util: map<string, real>, c: real): map<string, real> {
    map n | n in util :: Sq(util[n] - c)
  }

  ghost function Mean(util: map<string, real>): real
    requires |util| > 0
  {
    Average(Sum(util), |util|)
  }

  ghost function Variance(util: map<string, real>): real {
    if |util| == 0 then 0.0 else Average(Sum(Deviations(util, Mean(util))), |util|)
  }

  /** Two passes over the map, each in an arbitrary order of its own. */
  method ComputeVariance(util: map<string, real>) returns (variance: real)
    ensures variance == Variance(util)
  {
    hide Sum, Average, Deviations, Sq;
    if |util| == 0 {
      return 0.0;
    }
    var sum := 0.0;
    var rest := util;
    while rest.Keys != {}
      invariant sum + Sum(rest) == Sum(util)
      decreases rest.Keys
    {
      var n :| n in rest;
      SumPick(rest, n);
      sum, rest := sum + rest[n], rest - {n};
    }
    SumEmpty(rest);
    var mean := Average(sum, |util|);
    variance, rest := 0.0, util;
    while rest.Keys != {}
      invariant variance + Sum(Deviations(rest, mean)) == Sum(Deviations(util, mean))
      decreases rest.Keys
    {
      var n :| n in rest;
      var diff := rest[n] - mean;
      DeviationsPick(rest, n, mean);
      variance, rest := variance + Sq(diff), rest - {n};
    }
    DeviationsEmpty(rest, mean);
    variance := Average(variance, |util|);
  }

  lemma DeviationsEmpty(util: map<string, real>, c: real)
    requires util.Keys == {}
    ensures Sum(Deviations(util, c)) == 0.0
  {
    SumEmpty(Deviations(util, c));
  }

  lemma SquaresEmpty(util: map<string, real>)
    requires util.Keys == {}
    ensures Sum(Squares(util)) == 0.0
  {
    SumEmpty(Squares(util));
  }

  lemma DeviationsPick(util: map<string, real>, n: string, c: real)
    requires n in util
    ensures Sum(Deviations(util, c)) == Sq(util[n] - c) + Sum(Deviations(util - {n}, c))
  {
    hide Sum, Sq;
    SumPick(Deviations(util, c), n);
    assert Deviations(util, c) - {n} == Deviations(util - {n}, c);
  }

  lemma SquaresPick(util: map<string, real>, n: string)
    requires n in util
    ensures Sum(Squares(util)) == Sq(util[n]) + Sum(Squares(util - {n}))
  {
    hide Sum, Sq;
    SumPick(Squares(util), n);
    assert Squares(util) - {n} == Squares(util - {n});
  }

  // The deviations from any centre c, by the totals: squares - 2 * c * sum + n * c * c.
  ghost predicate Expands(deviations: real, squares: real, sum: real, n: real, c: real) {
    deviations == squares - 2.0 * Mul(c, sum) + Mul(n, Sq(c))
  }

  lemma {:induction false} DeviationsExpand(util: map<string, real>, c: real)
    ensures Expands(Sum(Deviations(util, c)), Sum(Squares(util)), Sum(util), |util| as real, c)
    decreases |util|
  {
    hide *;
    if util.Keys == {} {
      SumEmpty(util);
      DeviationsEmpty(util, c);
      SquaresEmpty(util);
      ExpandEmpty(|util| as real, c);
    } else {
      var n :| n in util;
      var rest := util - {n};
      SumPick(util, n);
      DeviationsPick(util, n, c);
      SquaresPick(util, n);
      DeviationsExpand(rest, c);
      assert util.Keys == rest.Keys + {n};
      ExpandStep(Sum(Deviations(rest, c)), Sum(Squares(rest)), Sum(rest), |rest| as real, util[n], c);
    }
  }

  lemma ExpandEmpty(n: real, c: real)
    requires n == 0.0
    ensures Expands(0.0, 0.0, 0.0, n, c)
  {
  }

  lemma ExpandStep(deviations: real, squares: real, sum: real, n: real, x: real, c: real)
    requires Expands(deviations, squares, sum, n, c)
    ensures Expands(Sq(x - c) + deviations, Sq(x) + squares, x + sum, n + 1.0, c)
  {
  }

  // The count times the variance is the total deviation from the mean.
  lemma CountTimesVariance(util: map<string, real>)
    requires |util| > 0
    ensures Mul(|util| as real, Mean(util)) == Sum(util)
    ensures Mul(|util| as real, Variance(util)) == Sum(Squares(util)) - Mul(Mean(util), Sum(util))
  {
    hide Sum, Squares, Deviations;
    var n, mean := |util| as real, Mean(util);
    MeanTimesCount(n, Sum(util));
    MeanTimesCount(n, Sum(Deviations(util, mean)));
    DeviationsExpand(util, mean);
    ExpandAtMean(Sum(Deviations(util, mean)), Sum(Squares(util)), Sum(util), n, mean);
  }

  lemma ExpandAtMean(deviations: real, squares: real, sum: real, n: real, mean: real)
    requires Expands(deviations, squares, sum, n, mean) && Mul(n, mean) == sum
    ensures deviations == squares - Mul(mean, sum)
  {
    assert Mul(n, Sq(mean)) == Mul(mean, Mul(n, mean));
  }

  // Mean of squares minus squared mean.
  lemma MeanOfSquares(util: map<string, real>)
    requires |util| > 0
    ensures Variance(util) == Sum(Squares(util)) / |util| as real - Sq(Mean(util))
  {
    hide Sum, Squares, Variance, Sq;
    CountTimesVariance(util);
    DivideThrough(|util| as real, Variance(util), Sum(Squares(util)), Mean(util), Sum(util));
  }

  // The running sums may be taken along any listing of the nodes.
  lemma OrderDoesNotMatter(util: map<string, real>, order: seq<string>)
    requires |util| > 0
    requires Distinct(order)
    requires forall n :: n in order <==> n in util
    ensures |order| == |util|
    ensures Mean(util) == Average(Total(Lookup(util), order), |order|)
    ensures Variance(util) == Average(Total(Lookup(Deviations(util, Mean(util))), order), |order|)
  {
    hide Sum;
    CountKeys(util, order);
    SumInOrder(util, order);
    SumInOrder(Deviations(util, Mean(util)), order);
  }

  lemma {:induction false} CountKeys(util: map<string, real>, order: seq<string>)
    requires Distinct(order)
    requires forall n :: n in order <==> n in util
    ensures |order| == |util|
    decreases |order|
  {
    if order == [] {
      assert util.Keys == {};
    } else {
      var last := order[|order| - 1];
      var rest := order[..|order| - 1];
      forall n ensures n in rest <==> n in util - {last} {
        if n in util - {last} {
          var i :| 0 <= i < |order| && order[i] == n;
          assert rest[i] == n;
        }
      }
      CountKeys(util - {last}, rest);
      assert last in order;
      assert util.Keys == (util - {last}).Keys + {last};
    }
  }

  lemma VarianceNonNegative(util: map<string, real>)
    ensures Variance(util) >= 0.0
    ensures Variance(util) == 0.0 <==> forall a, b | a in util && b in util :: util[a] == util[b]
  {
    if |util| > 0 {
      hide Sum, Sq;
      var n, mean := |util| as real, Mean(util);
      var d := Deviations(util, mean);
      forall a | a in util ensures d[a] >= 0.0 && (d[a] == 0.0 <==> util[a] == mean) {
        SqNonNegative(util[a] - mean);
      }
      SumNonNegative(d);
      QuotientSign(Sum(d), n);
      if forall a, b | a in util && b in util :: util[a] == util[b] {
        var a :| a in util;
        ConstantSum(util, util[a]);
        QuotientOfMultiple(n, util[a]);
      }
    }
  }

  lemma {:induction false} ConstantSum(util: map<string, real>, c: real)
    requires forall n | n in util :: util[n] == c
    ensures Sum(util) == Mul(|util| as real, c)
    decreases |util|
  {
    if util.Keys == {} {
      assert |util| == 0;
    } else {
      hide *;
      var n :| n in util;
      var rest := util - {n};
      SumPick(util, n);
      ConstantSum(rest, c);
      assert util.Keys == rest.Keys + {n};
      AddOne(|rest|, |util|, c);
    }
  }

  // A range of width w holds a variance of at most w * w / 4.
  lemma VarianceBounded(util: map<string, real>, lo: real, hi: real)
    requires |util| > 0
    requires forall n | n in util :: lo <= util[n] <= hi
    ensures Variance(util) <= Sq(hi - lo) / 4.0
  {
    hide Sum, Sq, Variance, Mean, Squares, Expands;
    var n, mid, r := |util| as real, (lo + hi) / 2.0, (hi - lo) / 2.0;
    var bound := map k | k in util :: Sq(r);
    forall k | k in util ensures Deviations(util, mid)[k] <= bound[k] {
      SqWithin(util[k] - mid, r);
    }
    SumMonotone(Deviations(util, mid), bound);
    ConstantSum(bound, Sq(r));
    assert bound.Keys == util.Keys;
    DeviationsExpand(util, mid);
    CountTimesVariance(util);
    MidpointBound(n, Mean(util), mid, Variance(util), Sum(Squares(util)), Sum(util), Sum(Deviations(util, mid)), Sq(r));
    SqHalf(hi - lo);
  }

  // The mean is the centre with the least total deviation.
  lemma MidpointBound(n: real, mean: real, mid: real, variance: real, squares: real, sum: real, deviations: real,
                      bound: real)
    requires n > 0.0 && Mul(n, mean) == sum
    requires Mul(n, variance) == squares - Mul(mean, sum)
    requires Expands(deviations, squares, sum, n, mid) && deviations <= Mul(n, bound)
    ensures variance <= bound
  {
    hide Mul, Sq;
    CentreShift(n, mean, mid);
    SqNonNegative(mid - mean);
    ScaledOrder(n, 0.0, Sq(mid - mean));
    ScaledOrder(n, variance, bound);
    MulZero(n);
  }

  /** Takes utilization off one node and puts some on another. On nodes of different sizes the two differ. */
  function Carry(util: map<string, real>, from: string, to: string, off: real, on: real): (r: map<string, real>)
    requires from in util && to in util
    ensures r.Keys == util.Keys
  {
    var lighter := util[from := util[from] - off];
    lighter[to := lighter[to] + on]
  }

  /** Moves d units of utilization from one node to another. */
  function Shift(util: map<string, real>, from: string, to: string, d: real): (r: map<string, real>)
    requires from in util && to in util
    ensures r.Keys == util.Keys
  {
    Carry(util, from, to, d, d)
  }

  // A transfer keeps the mean, so only the gap between the two nodes decides its effect.
  lemma VarianceOfShift(util: map<string, real>, from: string, to: string, d: real)
    requires from in util && to in util && from != to
    ensures Mul(|util| as real, Variance(Shift(util, from, to, d)) - Variance(util))
         == 2.0 * Mul(d, util[to] + d - util[from])
  {
    hide Sum, Sq, Variance;
    var r := Shift(util, from, to, d);
    SumUpdate(util, from, util[from] - d);
    SumUpdate(util[from := util[from] - d], to, util[to] + d);
    var s := Squares(util);
    var a, b := Sq(util[from] - d), Sq(util[to] + d);
    SumUpdate(s, from, a);
    SumUpdate(s[from := a], to, b);
    assert Squares(r) == s[from := a][to := b];
    assert r.Keys == util.Keys;
    assert |r| == |util|;
    CountTimesVariance(util);
    CountTimesVariance(r);
    ShiftArithmetic(|util| as real, Variance(util), Variance(r), Mean(util), Mean(r), Sum(util), Sum(Squares(util)),
                    Sum(Squares(r)), util[from], util[to], d);
  }

  lemma ShiftArithmetic(n: real, before: real, after: real, mean: real, mean': real, sum: real, squares: real,
                        squares': real, x: real, y: real, d: real)
    requires n > 0.0 && Mul(n, mean) == sum == Mul(n, mean')
    requires Mul(n, before) == squares - Mul(mean, sum)
    requires Mul(n, after) == squares' - Mul(mean', sum)
    requires squares' == squares - Sq(x) + Sq(x - d) - Sq(y) + Sq(y + d)
    ensures Mul(n, after - before) == 2.0 * Mul(d, y + d - x)
  {
    hide Mul, Sq;
    ScaledOrder(n, mean, mean');
    ScaledOrder(n, mean', mean);
    MulDifference(n, after, before);
    SquareGap(x, y, d);
  }

  // ---------------------------------------------------------------- transfers between nodes of any size

  lemma VarianceByTotals(util: map<string, real>)
    requires |util| > 0
    ensures Mul(Sq(|util| as real), Variance(util)) == Mul(|util| as real, Sum(Squares(util))) - Sq(Sum(util))
  {
    hide Sum, Variance, Mean, Squares;
    CountTimesVariance(util);
    TotalsArithmetic(|util| as real, Variance(util), Mean(util), Sum(Squares(util)), Sum(util));
  }

  lemma TotalsArithmetic(n: real, v: real, mean: real, squares: real, sum: real)
    requires Mul(n, mean) == sum && Mul(n, v) == squares - Mul(mean, sum)
    ensures Mul(Sq(n), v) == Mul(n, squares) - Sq(sum)
  {
    assert Mul(Sq(n), v) == Mul(n, Mul(n, v));
    assert Mul(n, Mul(mean, sum)) == Mul(Mul(n, mean), sum);
  }

  /** How strongly a transfer pulls the variance up from where the utilization stands: half its linear effect. */
  ghost function Lean(util: map<string, real>, from: string, to: string, off: real, on: real): real
    requires from in util && to in util
  {
    Mul(|util| as real, Mul(on, util[to]) - Mul(off, util[from])) - Mul(on - off, Sum(util))
  }

  // The effect of any transfer on the variance, in units of one over the squared number of nodes.
  lemma VarianceOfCarry(util: map<string, real>, from: string, to: string, off: real, on: real)
    requires from in util && to in util && from != to
    ensures var n := |util| as real;
            Mul(Sq(n), Variance(Carry(util, from, to, off, on)) - Variance(util))
            == 2.0 * Lean(util, from, to, off, on) + Mul(n, Sq(off) + Sq(on)) - Sq(on - off)
  {
    hide Sum, Sq, Variance, Mul;
    var r, n := Carry(util, from, to, off, on), |util| as real;
    SumUpdate(util, from, util[from] - off);
    SumUpdate(util[from := util[from] - off], to, util[to] + on);
    var s := Squares(util);
    var a, b := Sq(util[from] - off), Sq(util[to] + on);
    SumUpdate(s, from, a);
    SumUpdate(s[from := a], to, b);
    assert Squares(r) == s[from := a][to := b];
    assert r.Keys == util.Keys && |r| == |r.Keys| == |util|;
    VarianceByTotals(util);
    VarianceByTotals(r);
    MulDifference(Sq(n), Variance(r), Variance(util));
    CarryArithmetic(n, Sum(util), Sum(Squares(util)), Sum(Squares(r)), util[from], util[to], off, on);
  }

  lemma CarryArithmetic(n: real, sum: real, squares: real, squares': real, x: real, y: real, off: real, on: real)
    requires squares' == squares - Sq(x) + Sq(x - off) - Sq(y) + Sq(y + on)
    ensures Mul(n, squares') - Sq(sum - off + on) - (Mul(n, squares) - Sq(sum))
         == 2.0 * (Mul(n, Mul(on, y) - Mul(off, x)) - Mul(on - off, sum)) + Mul(n, Sq(off) + Sq(on)) - Sq(on - off)
  {
    var change := 2.0 * (Mul(on, y) - Mul(off, x)) + Sq(off) + Sq(on);
    assert squares' == squares + change;
    assert Mul(n, squares') == Mul(n, squares) + Mul(n, change);
    assert Sq(sum - off + on) == Sq(sum) + 2.0 * Mul(on - off, sum) + Sq(on - off);
  }
}
