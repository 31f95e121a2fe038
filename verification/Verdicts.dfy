// When the statistical detectors fire, told in sums over the record: no mean, variance or root.
module Verdicts {
  import opened Prelude
  import opened Arith
  import opened Detectors

  // How far an outcome falls short of par, and the square of that.
  ghost function Gap(par: real): real -> real {
    x => par - x
  }

  ghost function GapSquared(par: real): real -> real {
    x => (par - x) * (par - x)
  }

  // n shortfalls that add up to `total`, and their squares to `squares`, reach z in the one-sided
  // test. The spread is n (n - 1) times the sample variance.
  ghost predicate Evident(total: real, squares: real, n: real, z: real) {
    var spread := n * squares - total * total;
    if z > 0.0 then total > 0.0 && (n - 1.0) * (total * total) >= z * z * spread
    else spread == 0.0 || total >= 0.0 || (n - 1.0) * (total * total) <= z * z * spread
  }

  ghost predicate FallsShort(xs: seq<real>, par: real, z: real) {
    Evident(SumBy(xs, Gap(par)), SumBy(xs, GapSquared(par)), |xs| as real, z)
  }

  // ---- moments ------------------------------------------------------------------------------

  lemma {:induction false} GapSum(xs: seq<real>, par: real)
    ensures SumBy(xs, Gap(par)) == |xs| as real * par - Sum(xs)
  {
    if xs != [] {
      GapSum(xs[..|xs| - 1], par);
      OneMore((|xs| - 1) as real, par);
    }
  }

  lemma DeviationStep(x: real, m: real, par: real, g: real)
    requires g == par - m
    ensures (x - m) * (x - m) == (par - x) * (par - x) - 2.0 * g * (par - x) + g * g
  {
    var y := par - x;
    assert x - m == g - y;
    assert (g - y) * (g - y) == g * g - 2.0 * g * y + y * y;
  }

  // Squared deviations v from the mean, told by n shortfalls of mean g from par.
  ghost predicate Shifted(v: real, squares: real, total: real, n: real, g: real) {
    v >= 0.0 && v == squares - 2.0 * g * total + n * (g * g)
  }

  lemma {:induction false} DeviationSum(xs: seq<real>, m: real, par: real, g: real)
    requires g == par - m
    ensures Shifted(SumBy(xs, SquaredDeviation(m)), SumBy(xs, GapSquared(par)), SumBy(xs, Gap(par)), |xs| as real, g)
  {
    hide Shifted, SquaredDeviation, Gap, GapSquared;
    if xs == [] {
      NothingShifted(g);
    } else {
      var n := |xs| - 1;
      DeviationSum(xs[..n], m, par, g);
      LastTerms(xs, m, par);
      hide SumBy;
      DeviationsAdd(SumBy(xs[..n], SquaredDeviation(m)), SumBy(xs[..n], GapSquared(par)), SumBy(xs[..n], Gap(par)),
                    n as real, g, xs[n], m, par, SumBy(xs, SquaredDeviation(m)), SumBy(xs, GapSquared(par)),
                    SumBy(xs, Gap(par)), |xs| as real);
    }
  }

  lemma NothingShifted(g: real)
    ensures Shifted(0.0, 0.0, 0.0, 0.0, g)
  {
  }

  lemma LastTerms(xs: seq<real>, m: real, par: real)
    requires xs != []
    ensures var front, x := xs[..|xs| - 1], xs[|xs| - 1];
            && SumBy(xs, SquaredDeviation(m)) == SumBy(front, SquaredDeviation(m)) + SquaredDeviation(m)(x)
            && SumBy(xs, GapSquared(par)) == SumBy(front, GapSquared(par)) + GapSquared(par)(x)
            && SumBy(xs, Gap(par)) == SumBy(front, Gap(par)) + Gap(par)(x)
  {
  }

  lemma DeviationsAdd(v: real, squares: real, total: real, n: real, g: real, x: real, m: real, par: real,
                      v': real, squares': real, total': real, n': real)
    requires g == par - m && Shifted(v, squares, total, n, g)
    requires v' == v + SquaredDeviation(m)(x) && squares' == squares + GapSquared(par)(x)
    requires total' == total + Gap(par)(x) && n' == n + 1.0
    ensures Shifted(v', squares', total', n', g)
  {
    DeviationStep(x, m, par, g);
    SquareNonNegative(x - m, (x - m) * (x - m));
    Distribute(2.0 * g, total, par - x);
    OneMore(n, g * g);
  }

  // With g the mean shortfall, n g is the total and n times the squared deviations the spread.
  lemma Moments(xs: seq<real>, par: real, g: real, total: real, squares: real, v: real)
    requires xs != [] && g == par - Mean(xs)
    requires total == SumBy(xs, Gap(par)) && squares == SumBy(xs, GapSquared(par))
    requires v == SumBy(xs, SquaredDeviation(Mean(xs)))
    ensures g * |xs| as real == total && v * |xs| as real == |xs| as real * squares - total * total && v >= 0.0
  {
    hide SumBy, Mean, Sum, SquaredDeviation, Gap, GapSquared;
    var n, m := |xs| as real, Mean(xs);
    GapSum(xs, par);
    MeanTotals(xs);
    Averaged(n, par, m, g);
    DeviationSum(xs, m, par, g);
    Spread(n, g, total, squares, v);
  }

  lemma MeanTotals(xs: seq<real>)
    requires xs != []
    ensures Mean(xs) * |xs| as real == Sum(xs)
  {
    QuotientTimes(Sum(xs), |xs| as real);
  }

  lemma Averaged(n: real, par: real, m: real, g: real)
    requires g == par - m
    ensures g * n == n * par - m * n
  {
  }

  lemma Spread(n: real, g: real, total: real, squares: real, v: real)
    requires g * n == total && v == squares - 2.0 * g * total + n * (g * g)
    ensures v * n == n * squares - total * total
  {
    var gt := g * total;
    assert n * (g * g) == gt by {
      Associate(n, g, g);
    }
    assert v == squares - gt;
    assert gt * n == total * total by {
      Associate(total, g, n);
    }
    Distribute(n, squares, -gt);
  }

  // Clearing the quotients from the test.
  lemma Cleared(gap: real, variance: real, n: real, z: real, total: real, squares: real, v: real)
    requires n >= 2.0 && gap * n == total && variance * (n - 1.0) == v
    requires v * n == n * squares - total * total && v >= 0.0
    ensures ZReaches(gap, variance, n, z) <==> Evident(total, squares, n, z)
  {
    var spread := n * squares - total * total;
    ProductSigns(gap, n);
    ProductSigns(variance, n - 1.0);
    ProductSigns(v, n);
    var a, b, k := gap * gap * n, z * z * variance, n * (n - 1.0);
    PositiveProductIs(n, n - 1.0, k);
    assert a * k == (n - 1.0) * (total * total) by {
      SquaredTotal(gap, n, total);
      assert a * k == (a * n) * (n - 1.0);
    }
    assert b * k == z * z * spread by {
      ScaledSpread(z * z, variance, n, v, spread);
    }
    assert (a - b) * k == a * k - b * k;
    ProductSigns(a - b, k);
    ProductSigns(b - a, k);
    assert (b - a) * k == b * k - a * k;
    TotalSquare(total, n);
  }

  lemma TotalSquare(total: real, n: real)
    requires n >= 2.0
    ensures (n - 1.0) * (total * total) >= 0.0
  {
    SquareNonNegative(total, total * total);
    NonNegativeProduct(n - 1.0, total * total);
  }

  lemma SquaredTotal(gap: real, n: real, total: real)
    requires gap * n == total
    ensures gap * gap * n * n == total * total
  {
    assert gap * gap * n == gap * total;
    assert gap * total * n == total * total;
  }

  lemma ScaledSpread(zz: real, variance: real, n: real, v: real, spread: real)
    requires variance * (n - 1.0) == v && v * n == spread
    ensures zz * variance * (n * (n - 1.0)) == zz * spread
  {
    assert variance * (n * (n - 1.0)) == spread by {
      assert variance * (n * (n - 1.0)) == variance * (n - 1.0) * n;
    }
    Associate(zz, variance, n * (n - 1.0));
  }

  lemma VarianceTotals(xs: seq<real>)
    requires |xs| >= 2
    ensures SampleVariance(xs) * (|xs| as real - 1.0) == SumBy(xs, SquaredDeviation(Mean(xs)))
  {
    hide SumBy, Mean;
    assert (|xs| - 1) as real == |xs| as real - 1.0;
    QuotientTimes(SumBy(xs, SquaredDeviation(Mean(xs))), |xs| as real - 1.0);
  }

  // The test as the detectors make it is the test on the sums.
  lemma TestIsFallsShort(xs: seq<real>, par: real, gap: real, z: real)
    requires |xs| >= 2 && gap == par - Mean(xs)
    ensures ZReaches(gap, SampleVariance(xs), |xs| as real, z) <==> FallsShort(xs, par, z)
    ensures gap * |xs| as real == SumBy(xs, Gap(par))
  {
    hide SumBy, Mean, ZReaches, Evident, SampleVariance;
    var v := SumBy(xs, SquaredDeviation(Mean(xs)));
    Moments(xs, par, gap, SumBy(xs, Gap(par)), SumBy(xs, GapSquared(par)), v);
    VarianceTotals(xs);
    Cleared(gap, SampleVariance(xs), |xs| as real, z, SumBy(xs, Gap(par)), SumBy(xs, GapSquared(par)), v);
  }

  // ---- the verdicts ---------------------------------------------------------------------------

  // n values that add up to `total` average to m.
  ghost predicate Averages(m: real, n: nat, total: real) {
    m * n as real == total
  }

  // Enough trades for a verdict and for a sample variance.
  ghost predicate Enough(xs: seq<real>, least: nat) {
    |xs| >= least && |xs| >= 2
  }

  // Decay is declared exactly when enough outcomes fall short of zero at the decay level, and it
  // demotes on the mean outcome.
  lemma DecayIff(xs: seq<real>, t: Thresholds)
    ensures DetectDecay(xs, t).Some? <==> Enough(xs, t.decayMinTrades) && FallsShort(xs, 0.0, t.decayZ)
    ensures var d := DetectDecay(xs, t);
            d.Some? ==> Averages(d.value.metricValue, |xs|, Sum(xs)) && d.value.threshold == 0.0
                        && d.value.action == Demote
  {
    if Enough(xs, t.decayMinTrades) {
      hide SumBy, FallsShort, ZReaches, SampleVariance, Mean, Averages;
      TestIsFallsShort(xs, 0.0, -Mean(xs), t.decayZ);
      MeanAverages(xs);
    }
  }

  lemma MeanAverages(xs: seq<real>)
    requires xs != []
    ensures Averages(Mean(xs), |xs|, Sum(xs))
  {
    MeanTotals(xs);
  }

  // The shortfall against the backtest is also at least `step` on average.
  ghost predicate Diverges(xs: seq<real>, oos: real, z: real, step: real) {
    FallsShort(xs, oos, z) && AtLeastEach(SumBy(xs, Gap(oos)), |xs|, step)
  }

  lemma DivergesIff(xs: seq<real>, oos: real, gap: real, z: real, step: real)
    requires |xs| >= 2 && gap == oos - Mean(xs)
    ensures Diverges(xs, oos, z, step) <==> ZReaches(gap, SampleVariance(xs), |xs| as real, z) && gap >= step
    ensures Averages(gap, |xs|, SumBy(xs, Gap(oos)))
  {
    hide SumBy, FallsShort, ZReaches, SampleVariance, Mean, Gap;
    TestIsFallsShort(xs, oos, gap, z);
    hide AtLeastEach, Averages;
    GapEach(gap, |xs|, SumBy(xs, Gap(oos)), step);
  }

  lemma AverageAtLeast(gap: real, n: real, total: real, step: real)
    requires n > 0.0 && gap * n == total
    ensures gap >= step <==> total >= step * n
  {
    ProductSigns(gap - step, n);
    assert (gap - step) * n == gap * n - step * n;
  }

  // A quarantine is called exactly for a divergence at its level, a smaller size exactly for one
  // at the shrinking level only; either way on the mean shortfall against the level's step.
  lemma DivergenceIff(xs: seq<real>, oos: real, t: Thresholds)
    ensures var d := DetectDivergence(xs, oos, t);
            var grave := Diverges(xs, oos, t.divergenceZQuarantine, t.divergenceQuarantineR);
            var light := Diverges(xs, oos, t.divergenceZShrink, t.divergenceShrinkR);
            && (d.Some? <==> Enough(xs, t.divergenceMinTrades) && (grave || light))
            && (d.Some? ==>
                  && Averages(d.value.metricValue, |xs|, SumBy(xs, Gap(oos)))
                  && d.value.action == (if grave then Quarantine else ShrinkSize)
                  && d.value.threshold == (if grave then t.divergenceQuarantineR else t.divergenceShrinkR))
  {
    if Enough(xs, t.divergenceMinTrades) {
      hide SumBy, Diverges, ZReaches, SampleVariance, Mean, Gap, Averages;
      DivergesIff(xs, oos, oos - Mean(xs), t.divergenceZQuarantine, t.divergenceQuarantineR);
      DivergesIff(xs, oos, oos - Mean(xs), t.divergenceZShrink, t.divergenceShrinkR);
    }
  }

  // The positions of the first n outcomes that were wins.
  ghost function WinsAt(wins: seq<bool>, n: nat): set<int>
    requires n <= |wins|
  {
    set i | 0 <= i < n && wins[i]
  }

  lemma {:induction false} WinsCounted(wins: seq<bool>, n: nat)
    requires n <= |wins|
    ensures CountWins(wins[..n]) == |WinsAt(wins, n)|
  {
    if n > 0 {
      WinsCounted(wins, n - 1);
      assert wins[..n][..n - 1] == wins[..n - 1];
      var fewer, all := WinsAt(wins, n - 1), WinsAt(wins, n);
      assert n - 1 !in fewer;
      if wins[n - 1] {
        assert all == fewer + {n - 1};
      } else {
        assert all == fewer;
      }
    } else {
      assert WinsAt(wins, 0) == {};
    }
  }

  // Calibration breaks exactly when, over the trades both lists cover, the convictions' total
  // and the number of wins are apart by the allowed gap per trade or more.
  lemma CalibrationIff(convictions: seq<real>, wins: seq<bool>, t: Thresholds)
    ensures var n := MinNat(|convictions|, |wins|);
            var apart := Abs(Sum(convictions[..n]) - |WinsAt(wins, n)| as real);
            var d := DetectCalibration(convictions, wins, t);
            && (d.Some? <==> n >= t.calibrationMinTrades && n > 0 && AtLeastEach(apart, n, t.calibrationGap))
            && (d.Some? ==> Averages(d.value.metricValue, n, apart) && d.value.threshold == t.calibrationGap
                            && d.value.action == Recalibrate)
  {
    var n := MinNat(|convictions|, |wins|);
    if n > 0 {
      WinsCounted(wins, n);
      hide Sum, CountWins, WinsAt, Abs, AtLeastEach, Averages;
      var total, hits, count := Sum(convictions[..n]), CountWins(wins[..n]) as real, n as real;
      var gap := Abs(total / count - hits / count);
      MeansApart(total, hits, count);
      GapEach(gap, n, Abs(total - hits), t.calibrationGap);
    }
  }

  // A total of `each` or more for every one of n.
  ghost predicate AtLeastEach(total: real, n: nat, each: real) {
    total >= each * n as real
  }

  lemma GapEach(gap: real, n: nat, total: real, each: real)
    requires n > 0 && gap * n as real == total
    ensures Averages(gap, n, total) && (gap >= each <==> AtLeastEach(total, n, each))
  {
    AverageAtLeast(gap, n as real, total, each);
  }

  lemma MeansApart(x: real, y: real, n: real)
    requires n > 0.0
    ensures Abs(x / n - y / n) * n == Abs(x - y)
  {
    QuotientTimes(x, n);
    QuotientTimes(y, n);
    var d := x / n - y / n;
    assert d * n == x - y;
    ProductSigns(d, n);
  }

  // The tail is the least whole number of outcomes, one or more, that makes up the share asked for,
  // and all of them for a share of one or more.
  lemma TailSizeIs(n: nat, alpha: real)
    requires n > 0
    ensures var k := TailSize(n, alpha);
            && 1 <= k <= n
            && (k > 1 ==> (k - 1) as real < n as real * alpha)
            && (alpha <= 1.0 ==> k as real >= n as real * alpha)
            && (alpha >= 1.0 ==> k == n)
  {
    var x := n as real * alpha;
    CountForIs(Share(n, alpha), n);
    ShareIs(n, alpha, x);
    hide Share, CountFor;
  }

  lemma CountForIs(x: real, n: nat)
    requires n > 0
    ensures var k := CountFor(x, n);
            (k > 1 ==> (k - 1) as real < x) && (x <= n as real ==> k as real >= x) && (x >= n as real ==> k == n)
  {
  }

  lemma ShareIs(n: nat, alpha: real, x: real)
    requires x == n as real * alpha
    ensures 0.0 <= alpha <= 1.0 ==> Share(n, alpha) == x <= n as real
    ensures alpha <= 0.0 ==> Share(n, alpha) == 0.0 && x <= 0.0
    ensures alpha >= 1.0 ==> Share(n, alpha) == n as real <= x
  {
    if alpha >= 1.0 {
      ScaleMonotone(n as real, 1.0, alpha);
    } else if alpha <= 0.0 {
      ScaleMonotone(n as real, alpha, 0.0);
    } else {
      ScaleMonotone(n as real, alpha, 1.0);
    }
  }

  // No tail-sized choice of outcomes has a lower mean, and one has it.
  ghost predicate IsTailMean(xs: seq<real>, m: real)
    requires xs != []
  {
    var k := TailSize(|xs|, 0.05);
    && (forall chosen: set<int> :: Choice(chosen, k, |xs|) ==> m <= MeanAt(xs, chosen))
    && exists chosen: set<int> :: Choice(chosen, k, |xs|) && m == MeanAt(xs, chosen)
  }

  // A drawdown verdict always disables: on the tail mean when that is at its floor, and otherwise on
  // the deepest fall, against the floor it reached.
  lemma DrawdownTells(xs: seq<real>, t: Thresholds)
    requires DetectDrawdown(xs, t).Some?
    ensures |xs| >= t.drawdownMinTrades && xs != [] && DetectDrawdown(xs, t).value.action == Disable
    ensures var d := DetectDrawdown(xs, t).value;
            if exists m :: IsTailMean(xs, m) && m <= t.drawdownCvarFloorR then
              IsTailMean(xs, d.metricValue) && d.threshold == t.drawdownCvarFloorR
            else
              IsMaxDrawdown(xs, d.metricValue) && d.threshold == t.drawdownMaxddFloorR
              && d.metricValue <= d.threshold
  {
    var cv := Cvar(xs, 0.05).value;
    CvarIsTailMean(xs);
    DrawdownIsExtremal(xs);
    hide TailSize, MeanAt, IsTailMean, IsMaxDrawdown, CurveOf, Cvar;
    if m :| IsTailMean(xs, m) && m <= t.drawdownCvarFloorR {
      OneTailMean(xs, m, cv);
    }
  }

  lemma CvarIsTailMean(xs: seq<real>)
    requires xs != []
    ensures IsTailMean(xs, Cvar(xs, 0.05).value)
  {
    hide TailSize, MeanAt, Cvar;
    CvarIsLeastMean(xs, 0.05);
  }

  lemma OneTailMean(xs: seq<real>, a: real, b: real)
    requires xs != [] && IsTailMean(xs, a) && IsTailMean(xs, b)
    ensures a == b
  {
    hide TailSize, MeanAt;
    var k := TailSize(|xs|, 0.05);
    var x: set<int> :| Choice(x, k, |xs|) && a == MeanAt(xs, x);
    var y: set<int> :| Choice(y, k, |xs|) && b == MeanAt(xs, y);
  }

  // ---- the levels shipped with the monitor ------------------------------------------------------

  // The levels the monitor runs with: a decay needs fifteen trades at 1.64 standard errors below
  // zero, a quarantine ten at 2.33 and half a unit, a recalibration twenty trades and fifteen
  // points, a degraded source two days, a suppression three observations.
  lemma DefaultLevels(xs: seq<real>, oos: real, convictions: seq<real>, wins: seq<bool>, age: real, ood: int)
    ensures DetectStaleness(age, DEFAULT_THRESHOLDS).Some? <==> age > 48.0
    ensures DetectRegimeOod(ood, DEFAULT_THRESHOLDS).Some? <==> ood >= 3
    ensures DetectDecay(xs, DEFAULT_THRESHOLDS).Some? <==> |xs| >= 15 && FallsShort(xs, 0.0, 1.64)
    ensures DetectDivergence(xs, oos, DEFAULT_THRESHOLDS).Some?
       <==> |xs| >= 10 && (Diverges(xs, oos, 2.33, 0.5) || Diverges(xs, oos, 1.64, 0.25))
    ensures var n := MinNat(|convictions|, |wins|);
            (DetectCalibration(convictions, wins, DEFAULT_THRESHOLDS).Some?
             <==> n >= 20 && Abs(Sum(convictions[..n]) - |WinsAt(wins, n)| as real) >= 0.15 * n as real)
    ensures DetectDrawdown(xs, DEFAULT_THRESHOLDS).Some?
       <==> |xs| >= 10 && (Cvar(xs, 0.05).value <= -2.0 || MaxDrawdown(xs).value <= -6.0)
  {
    DecayIff(xs, DEFAULT_THRESHOLDS);
    DivergenceIff(xs, oos, DEFAULT_THRESHOLDS);
    CalibrationIff(convictions, wins, DEFAULT_THRESHOLDS);
    hide FallsShort, Diverges, DetectDecay, DetectDivergence, DetectCalibration, Cvar, MaxDrawdown, Sum;
  }
}
