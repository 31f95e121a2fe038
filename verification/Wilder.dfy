// What the smoothed indicators weigh: closed forms for Wilder's averages and the readings on them.
module Wilder {
  import opened Prelude
  import opened Arith
  import opened Market
  import opened Momentum

  // ---- geometric weights ---------------------------------------------------------------------

  function Power(b: real, n: nat): real {
    if n == 0 then 1.0 else b * Power(b, n - 1)
  }

  // Each value with a power of the weight for every value after it.
  function Weights(xs: seq<real>, keep: real): (r: seq<real>)
    ensures |r| == |xs|
  {
    seq(|xs|, i requires 0 <= i < |xs| => Power(keep, |xs| - 1 - i) * xs[i])
  }

  function Weighed(xs: seq<real>, keep: real): real {
    Sum(Weights(xs, keep))
  }

  lemma WeightsSnoc(xs: seq<real>, keep: real)
    requires xs != []
    ensures Weights(xs, keep)[..|xs| - 1] == Scaled(keep, Weights(xs[..|xs| - 1], keep))
    ensures Weights(xs, keep)[|xs| - 1] == xs[|xs| - 1]
  {
    var n := |xs| - 1;
    assert Power(keep, 0) == 1.0;
    assert Weights(xs, keep)[n] == Power(keep, 0) * xs[n];
    forall i | 0 <= i < n ensures Weights(xs, keep)[i] == Scaled(keep, Weights(xs[..n], keep))[i] {
      WeightAt(xs, keep, i);
    }
  }

  lemma WeightAt(xs: seq<real>, keep: real, i: nat)
    requires i < |xs| - 1
    ensures Weights(xs, keep)[i] == keep * Weights(xs[..|xs| - 1], keep)[i]
  {
    var k := |xs| - 2 - i;
    assert Power(keep, k + 1) == keep * Power(keep, k);
    hide Power;
    Associate(keep, Power(keep, k), xs[i]);
    assert Weights(xs, keep)[i] == Power(keep, k + 1) * xs[i];
    assert Weights(xs[..|xs| - 1], keep)[i] == Power(keep, k) * xs[i];
  }

  lemma WeighedSnoc(xs: seq<real>, keep: real)
    requires xs != []
    ensures Weighed(xs, keep) == keep * Weighed(xs[..|xs| - 1], keep) + xs[|xs| - 1]
  {
    hide Weights, Scaled;
    WeightsSnoc(xs, keep);
    SumScaled(keep, Weights(xs[..|xs| - 1], keep));
  }

  // Seeded after p values, then each later one added to what is kept.
  function Recur(xs: seq<real>, p: nat, seed: real, keep: real, c: real): real
    requires p <= |xs|
  {
    if |xs| == p then seed else keep * Recur(xs[..|xs| - 1], p, seed, keep, c) + c * xs[|xs| - 1]
  }

  // What is kept of the seed, and of each later value.
  function Closed(xs: seq<real>, p: nat, seed: real, keep: real, c: real): real
    requires p <= |xs|
  {
    Power(keep, |xs| - p) * seed + c * Weighed(xs[p..], keep)
  }

  lemma {:induction false} RecurClosed(xs: seq<real>, p: nat, seed: real, keep: real, c: real)
    requires p <= |xs|
    ensures Recur(xs, p, seed, keep, c) == Closed(xs, p, seed, keep, c)
    decreases |xs|
  {
    hide Recur, Closed;
    if |xs| == p {
      RecurSeed(xs, seed, keep, c);
      ClosedSeed(xs, seed, keep, c);
    } else {
      RecurClosed(xs[..|xs| - 1], p, seed, keep, c);
      RecurGrows(xs, p, seed, keep, c);
      ClosedGrows(xs, p, seed, keep, c);
    }
  }

  lemma ClosedSeed(xs: seq<real>, seed: real, keep: real, c: real)
    ensures Closed(xs, |xs|, seed, keep, c) == seed
  {
    assert xs[|xs|..] == [];
    NothingWeighed(keep);
  }

  lemma ClosedGrows(xs: seq<real>, p: nat, seed: real, keep: real, c: real)
    requires p < |xs|
    ensures Closed(xs, p, seed, keep, c) == keep * Closed(xs[..|xs| - 1], p, seed, keep, c) + c * xs[|xs| - 1]
  {
    var n := |xs| - 1;
    assert Power(keep, n - p + 1) == keep * Power(keep, n - p);
    hide Power, Weighed;
    WeighedSnoc(xs[p..], keep);
    assert xs[p..][..n - p] == xs[..n][p..] && xs[p..][n - p] == xs[n];
    RecurStep(keep, Power(keep, n - p), Power(keep, n - p + 1), seed, c, Weighed(xs[..n][p..], keep),
              Weighed(xs[p..], keep), xs[n], Closed(xs[..n], p, seed, keep, c), Closed(xs, p, seed, keep, c));
  }

  lemma RecurSeed(xs: seq<real>, seed: real, keep: real, c: real)
    ensures Recur(xs, |xs|, seed, keep, c) == seed
  {
  }

  lemma RecurGrows(xs: seq<real>, p: nat, seed: real, keep: real, c: real)
    requires p < |xs|
    ensures Recur(xs, p, seed, keep, c) == keep * Recur(xs[..|xs| - 1], p, seed, keep, c) + c * xs[|xs| - 1]
  {
  }

  lemma PrefixOfFront(xs: seq<real>, n: nat, k: nat)
    requires k <= n <= |xs|
    ensures xs[..n][..k] == xs[..k]
  {
  }

  lemma NothingWeighed(keep: real)
    ensures Weighed([], keep) == 0.0
  {
  }

  lemma RecurStep(keep: real, power: real, power': real, seed: real, c: real, w: real, w': real, x: real,
                  r: real, r': real)
    requires r == power * seed + c * w && r' == keep * r + c * x && power' == keep * power && w' == keep * w + x
    ensures r' == power' * seed + c * w'
  {
    Distribute(keep, power * seed, c * w);
    Associate(keep, power, seed);
    Associate(keep, c, w);
    Distribute(c, keep * w, x);
  }

  // ---- Wilder's recurrences ------------------------------------------------------------------

  function Keep(period: nat): real
    requires period > 0
  {
    1.0 - 1.0 / period as real
  }

  lemma SmoothIs(avg: real, x: real, period: nat)
    requires period > 0
    ensures Smooth(avg, x, period) == Keep(period) * avg + (1.0 / period as real) * x
  {
    var p := period as real;
    SmoothArithmetic(avg, x, p, 1.0 / p, (avg * (p - 1.0) + x) / p);
  }

  lemma SmoothArithmetic(avg: real, x: real, p: real, q: real, s: real)
    requires p > 0.0 && q == 1.0 / p && s == (avg * (p - 1.0) + x) / p
    ensures s == (1.0 - q) * avg + q * x
  {
    QuotientTimes(1.0, p);
    QuotientTimes(avg * (p - 1.0) + x, p);
    var t := (1.0 - q) * avg + q * x;
    assert t * p == avg * (p - 1.0) + x by {
      TimesP(avg, x, p, q, t);
    }
    assert (s - t) * p == 0.0;
    ProductSigns(s - t, p);
  }

  lemma TimesP(avg: real, x: real, p: real, q: real, t: real)
    requires q * p == 1.0 && t == (1.0 - q) * avg + q * x
    ensures t * p == avg * (p - 1.0) + x
  {
    Associate(avg, q, p);
    Associate(x, q, p);
    assert t == avg - q * avg + q * x;
    assert (q * avg) * p == avg * (q * p);
    assert (q * x) * p == x * (q * p);
  }

  lemma {:induction false} SmoothedMeanRecurs(dxs: seq<real>, period: nat)
    requires 0 < period <= |dxs|
    ensures SmoothedMean(dxs, period)
         == Recur(dxs, period, Mean(dxs[..period]), Keep(period), 1.0 / period as real)
    decreases |dxs|
  {
    hide Smooth, Mean, Keep;
    if |dxs| == period {
      assert dxs[..period] == dxs;
    } else {
      var n := |dxs| - 1;
      SmoothedMeanRecurs(dxs[..n], period);
      assert dxs[..n][..period] == dxs[..period];
      SmoothIs(SmoothedMean(dxs[..n], period), dxs[n], period);
    }
  }

  // The smoothed mean is the seed mean decayed once per later value, and a period's share of each
  // later value decayed once per value after it.
  lemma SmoothedMeanWeighs(dxs: seq<real>, period: nat)
    requires 0 < period <= |dxs|
    ensures var keep := 1.0 - 1.0 / period as real;
            SmoothedMean(dxs, period)
            == Power(keep, |dxs| - period) * Mean(dxs[..period]) + (1.0 / period as real) * Weighed(dxs[period..], keep)
  {
    hide SmoothedMean, Mean, Power, Weighed;
    SmoothedMeanRecurs(dxs, period);
    RecurClosed(dxs, period, Mean(dxs[..period]), Keep(period), 1.0 / period as real);
  }

  // ---- the relative strength index -------------------------------------------------------------

  // The upward parts of a series of changes, or the downward ones.
  function Excursions(deltas: seq<real>, up: bool): (r: seq<real>)
    ensures |r| == |deltas|
  {
    seq(|deltas|, i requires 0 <= i < |deltas| => MaxReal(if up then deltas[i] else -deltas[i], 0.0))
  }

  function Side(a: Averages, up: bool): real {
    if up then a.gain else a.loss
  }

  // The Wilder average of a series, in closed form.
  function WilderMean(xs: seq<real>, period: nat): real
    requires 0 < period <= |xs|
  {
    var keep := 1.0 - 1.0 / period as real;
    Power(keep, |xs| - period) * Mean(xs[..period]) + (1.0 / period as real) * Weighed(xs[period..], keep)
  }

  lemma ExcursionsFront(deltas: seq<real>, up: bool, n: nat)
    requires n <= |deltas|
    ensures Excursions(deltas, up)[..n] == Excursions(deltas[..n], up)
  {
  }

  lemma {:induction false} ExcursionsSum(deltas: seq<real>, up: bool)
    ensures Sum(Excursions(deltas, up)) == SumBy(deltas, if up then Gain() else Loss())
  {
    if deltas != [] {
      ExcursionsSum(deltas[..|deltas| - 1], up);
      ExcursionsFront(deltas, up, |deltas| - 1);
    }
  }

  lemma SeedIsMean(deltas: seq<real>, up: bool)
    requires deltas != []
    ensures Side(WilderAverages(deltas, |deltas|), up) == Mean(Excursions(deltas, up)[..|deltas|])
  {
    ExcursionsSum(deltas, up);
    assert Excursions(deltas, up)[..|deltas|] == Excursions(deltas, up);
  }

  lemma AverageSteps(deltas: seq<real>, period: nat, up: bool)
    requires 0 < period < |deltas|
    ensures var n := |deltas| - 1;
            Side(WilderAverages(deltas, period), up)
            == Smooth(Side(WilderAverages(deltas[..n], period), up), Excursions(deltas, up)[n], period)
  {
    hide Smooth, MaxReal, WilderAverages;
    AverageUnfolds(deltas, period);
  }

  lemma AverageUnfolds(deltas: seq<real>, period: nat)
    requires 0 < period < |deltas|
    ensures var n := |deltas| - 1;
            var before := WilderAverages(deltas[..n], period);
            WilderAverages(deltas, period)
            == Averages(Smooth(before.gain, MaxReal(deltas[n], 0.0), period),
                        Smooth(before.loss, MaxReal(-deltas[n], 0.0), period))
  {
    hide Smooth, MaxReal;
  }

  lemma {:induction false} AverageRecurs(deltas: seq<real>, period: nat, up: bool)
    requires 0 < period <= |deltas|
    ensures Side(WilderAverages(deltas, period), up)
         == Recur(Excursions(deltas, up), period, Mean(Excursions(deltas, up)[..period]), Keep(period),
                  1.0 / period as real)
    decreases |deltas|
  {
    hide Smooth, Keep, Mean, WilderAverages, Excursions, Side, Recur;
    var xs := Excursions(deltas, up);
    if |deltas| == period {
      SeedIsMean(deltas, up);
      RecurSeed(xs, Mean(xs[..period]), Keep(period), 1.0 / period as real);
    } else {
      var n := |deltas| - 1;
      AverageRecurs(deltas[..n], period, up);
      AverageSteps(deltas, period, up);
      ExcursionsFront(deltas, up, n);
      PrefixOfFront(xs, n, period);
      SmoothIs(Side(WilderAverages(deltas[..n], period), up), xs[n], period);
      RecurGrows(xs, period, Mean(xs[..period]), Keep(period), 1.0 / period as real);
    }
  }

  lemma AveragesAre(deltas: seq<real>, period: nat, up: bool)
    requires 0 < period <= |deltas|
    ensures Side(WilderAverages(deltas, period), up) == WilderMean(Excursions(deltas, up), period)
  {
    hide WilderAverages, Mean, Power, Weighed, Excursions, Side, Recur;
    var xs := Excursions(deltas, up);
    AverageRecurs(deltas, period, up);
    RecurClosed(xs, period, Mean(xs[..period]), Keep(period), 1.0 / period as real);
  }

  // The index is the percentage share of the averaged gains in the averaged gains and losses, a
  // hundred without losses.
  lemma RsiIsShare(closes: seq<real>, period: nat)
    requires 0 < period < |closes|
    ensures var deltas := seq(|closes| - 1, i requires 0 <= i < |closes| - 1 => closes[i + 1] - closes[i]);
            var gain := WilderMean(Excursions(deltas, true), period);
            var loss := WilderMean(Excursions(deltas, false), period);
            && gain >= 0.0 && loss >= 0.0 && Rsi(closes, period).Some?
            && if loss == 0.0 then Rsi(closes, period).value == 100.0
               else Rsi(closes, period).value * (gain + loss) == 100.0 * gain
  {
    hide WilderMean, WilderAverages, Excursions;
    var deltas := seq(|closes| - 1, i requires 0 <= i < |closes| - 1 => closes[i + 1] - closes[i]);
    assert Deltas(closes) == deltas;
    AveragesAre(deltas, period, true);
    AveragesAre(deltas, period, false);
    AveragesNonNegative(deltas, period);
    var a := WilderAverages(deltas, period);
    if a.loss > 0.0 {
      RsiOfShare(a);
    }
  }

  // ---- the directional index -------------------------------------------------------------------

  // The index of smoothed sums with range and movement is a hundred times the difference of the
  // movements over their total; nothing without range, zero without movement.
  lemma DxIsShare(s: Move)
    ensures s.tr <= 0.0 ==> DxAt(s) == None
    ensures s.tr > 0.0 && s.plus + s.minus <= 0.0 ==> DxAt(s) == Some(0.0)
    ensures s.tr > 0.0 && s.plus + s.minus > 0.0 ==>
              DxAt(s).Some? && DxAt(s).value * (s.plus + s.minus) == 100.0 * Abs(s.plus - s.minus)
  {
    if s.tr > 0.0 {
      var p, m := 100.0 * s.plus / s.tr, 100.0 * s.minus / s.tr;
      QuotientTimes(100.0 * s.plus, s.tr);
      QuotientTimes(100.0 * s.minus, s.tr);
      Distribute(s.tr, p, m);
      ProductSigns(p + m, s.tr);
      if p + m > 0.0 {
        DxCross(s.plus, s.minus, s.tr, p, m, 100.0 * Abs(p - m) / (p + m));
      }
    }
  }

  lemma DxCross(plus: real, minus: real, tr: real, p: real, m: real, d: real)
    requires tr > 0.0 && p * tr == 100.0 * plus && m * tr == 100.0 * minus && p + m > 0.0
    requires d == 100.0 * Abs(p - m) / (p + m)
    ensures d * (plus + minus) == 100.0 * Abs(plus - minus)
  {
    QuotientTimes(100.0 * Abs(p - m), p + m);
    assert d * (p + m) == 100.0 * Abs(p - m);
    Distribute(tr, p, m);
    Distribute(tr, p, -m);
    assert Abs(p - m) * tr == 100.0 * Abs(plus - minus) by {
      ProductSigns(p - m, tr);
      ProductSigns(m - p, tr);
    }
    ScaledShare(d, p + m, tr, plus + minus, Abs(p - m), Abs(plus - minus));
  }

  lemma ScaledShare(d: real, total: real, tr: real, moved: real, gap: real, difference: real)
    requires d * total == 100.0 * gap && total * tr == 100.0 * moved && gap * tr == 100.0 * difference
    ensures d * moved == 100.0 * difference
  {
    Associate(d, total, tr);
    assert d * (total * tr) == 100.0 * (d * moved);
    assert (d * total) * tr == 100.0 * (gap * tr);
  }

  // At most the larger positive excursion counts, and to its own side.
  lemma MoveReads(prev: Bar, cur: Bar)
    ensures var m, up, down := MoveOf(prev, cur), cur.high - prev.high, prev.low - cur.low;
            && m.plus == (if up > 0.0 && up > down then up else 0.0)
            && m.minus == (if down > 0.0 && down > up then down else 0.0)
            && m.tr >= cur.high - cur.low && m.tr >= Abs(cur.high - prev.close) && m.tr >= Abs(cur.low - prev.close)
            && m.tr in {cur.high - cur.low, Abs(cur.high - prev.close), Abs(cur.low - prev.close)}
  {
  }

  // The three running sums.
  datatype Part = OfRange | OfPlus | OfMinus

  function Of(m: Move, part: Part): real {
    match part
    case OfRange => m.tr
    case OfPlus => m.plus
    case OfMinus => m.minus
  }

  function Parts(moves: seq<Move>, part: Part): (r: seq<real>)
    ensures |r| == |moves|
  {
    seq(|moves|, i requires 0 <= i < |moves| => Of(moves[i], part))
  }

  // The Wilder sum of a series, in closed form.
  function WilderSum(xs: seq<real>, period: nat): real
    requires 0 < period <= |xs|
  {
    var keep := 1.0 - 1.0 / period as real;
    Power(keep, |xs| - period) * Sum(xs[..period]) + Weighed(xs[period..], keep)
  }

  lemma PartsFront(moves: seq<Move>, part: Part, n: nat)
    requires n <= |moves|
    ensures Parts(moves, part)[..n] == Parts(moves[..n], part)
  {
  }

  lemma {:induction false} PartsSum(moves: seq<Move>, part: Part)
    ensures Of(SumMoves(moves), part) == Sum(Parts(moves, part))
  {
    if moves != [] {
      PartsSum(moves[..|moves| - 1], part);
      PartsFront(moves, part, |moves| - 1);
    }
  }

  lemma SeedIsSum(moves: seq<Move>, part: Part)
    requires moves != []
    ensures Of(Rolling(moves, |moves|), part) == Sum(Parts(moves, part)[..|moves|])
  {
    PartsSum(moves, part);
    assert Parts(moves, part)[..|moves|] == Parts(moves, part);
  }

  lemma RollingSteps(moves: seq<Move>, period: nat, part: Part)
    requires 0 < period < |moves|
    ensures var n := |moves| - 1;
            var before := Of(Rolling(moves[..n], period), part);
            Of(Rolling(moves, period), part) == before - before / period as real + Parts(moves, part)[n]
  {
  }

  lemma {:induction false} RollingRecurs(moves: seq<Move>, period: nat, part: Part)
    requires 0 < period <= |moves|
    ensures Of(Rolling(moves, period), part)
         == Recur(Parts(moves, part), period, Sum(Parts(moves, part)[..period]), Keep(period), 1.0)
    decreases |moves|
  {
    hide Keep, Sum, Rolling, Parts, Of, Recur;
    var xs := Parts(moves, part);
    if |moves| == period {
      SeedIsSum(moves, part);
      RecurSeed(xs, Sum(xs[..period]), Keep(period), 1.0);
    } else {
      var n := |moves| - 1;
      RollingRecurs(moves[..n], period, part);
      RollingSteps(moves, period, part);
      PartsFront(moves, part, n);
      PrefixOfFront(xs, n, period);
      RollIs(Of(Rolling(moves[..n], period), part), xs[n], period);
      RecurGrows(xs, period, Sum(xs[..period]), Keep(period), 1.0);
    }
  }

  lemma RollIs(s: real, x: real, period: nat)
    requires period > 0
    ensures s - s / period as real + x == Keep(period) * s + 1.0 * x
  {
    Decay(s, period as real);
  }

  // Each running sum is the seed sum decayed once per later bar, and each later move decayed once
  // per bar after it.
  lemma RollingWeighs(moves: seq<Move>, period: nat, part: Part)
    requires 0 < period <= |moves|
    ensures Of(Rolling(moves, period), part) == WilderSum(Parts(moves, part), period)
  {
    hide Rolling, Sum, Power, Weighed, Of, Parts, Recur;
    var xs := Parts(moves, part);
    RollingRecurs(moves, period, part);
    RecurClosed(xs, period, Sum(xs[..period]), Keep(period), 1.0);
  }

  // ---- a steady trend ----------------------------------------------------------------------------

  ghost predicate Climbing(bars: seq<Bar>) {
    AllConsistent(bars) && forall i :: 0 <= i < |bars| - 1 ==> Climbs(bars[i], bars[i + 1])
  }

  ghost predicate Climbs(a: Bar, b: Bar) {
    a.high < b.high && a.low < b.low
  }

  // Movement up and none down.
  ghost predicate Upward(m: Move) {
    m.tr > 0.0 && m.plus > 0.0 && m.minus == 0.0
  }

  lemma ClimbIsUpward(prev: Bar, cur: Bar)
    requires prev.Consistent() && cur.Consistent() && Climbs(prev, cur)
    ensures Upward(MoveOf(prev, cur))
  {
  }

  lemma {:induction false} SumUpward(moves: seq<Move>)
    requires moves != [] && forall i :: 0 <= i < |moves| ==> Upward(moves[i])
    ensures Upward(SumMoves(moves))
  {
    var n := |moves| - 1;
    if n > 0 {
      SumUpward(moves[..n]);
    } else {
      assert moves[..0] == [];
    }
  }

  lemma RollUpward(s: Move, m: Move, period: nat)
    requires period > 0 && Upward(s) && Upward(m)
    ensures Upward(Roll(s, m, period))
  {
    DecayKeepsOrder(s.tr, s.tr, 0.0, period as real);
    DecayKeepsOrder(s.plus, s.plus, 0.0, period as real);
  }

  lemma {:induction false} RollingUpward(moves: seq<Move>, period: nat)
    requires 0 < period <= |moves| && forall i :: 0 <= i < |moves| ==> Upward(moves[i])
    ensures Upward(Rolling(moves, period))
    decreases |moves|
  {
    if |moves| == period {
      SumUpward(moves);
    } else {
      RollingUpward(moves[..|moves| - 1], period);
      RollUpward(Rolling(moves[..|moves| - 1], period), moves[|moves| - 1], period);
    }
  }

  lemma UpwardReads(s: Move)
    requires Upward(s)
    ensures DxAt(s) == Some(100.0)
  {
    DxIsShare(s);
    var d := DxAt(s).value;
    assert (d - 100.0) * s.plus == 0.0;
    ProductSigns(d - 100.0, s.plus);
  }

  ghost predicate Hundreds(xs: seq<real>) {
    forall i :: 0 <= i < |xs| ==> xs[i] == 100.0
  }

  lemma {:induction false} DxsHundred(moves: seq<Move>, period: nat)
    requires 0 < period <= |moves| && forall i :: 0 <= i < |moves| ==> Upward(moves[i])
    ensures Hundreds(Dxs(moves, period)) && |Dxs(moves, period)| == |moves| - period + 1
    decreases |moves|
  {
    hide DxAt, Rolling;
    RollingUpward(moves, period);
    UpwardReads(Rolling(moves, period));
    if |moves| > period {
      DxsHundred(moves[..|moves| - 1], period);
    }
  }

  lemma {:induction false} SumHundred(xs: seq<real>)
    requires Hundreds(xs)
    ensures Sum(xs) == 100.0 * |xs| as real
  {
    if xs != [] {
      SumHundred(xs[..|xs| - 1]);
    }
  }

  lemma {:induction false} SmoothedHundred(xs: seq<real>, period: nat)
    requires 0 < period <= |xs| && Hundreds(xs)
    ensures SmoothedMean(xs, period) == 100.0
    decreases |xs|
  {
    if |xs| == period {
      SumHundred(xs);
    } else {
      SmoothedHundred(xs[..|xs| - 1], period);
      SmoothBetween(100.0, 100.0, period, 100.0, 100.0);
    }
  }

  // Highs and lows that only rise read exactly a hundred.
  lemma AdxOfClimb(bars: seq<Bar>, period: nat)
    requires Climbing(bars) && period > 0 && |bars| >= 2 * period + 1
    ensures Adx(bars, period) == Some(100.0)
  {
    hide Dxs, SmoothedMean;
    var moves := Moves(bars);
    forall i | 0 <= i < |moves| ensures Upward(moves[i]) {
      assert Climbs(bars[i], bars[i + 1]);
      ClimbIsUpward(bars[i], bars[i + 1]);
    }
    DxsHundred(moves, period);
    SmoothedHundred(Dxs(moves, period), period);
  }

  // The running sums over the first i moves have a positive range.
  ghost predicate Ranged(moves: seq<Move>, period: nat, i: int)
    requires 0 < period <= i <= |moves|
  {
    Rolling(moves[..i], period).tr > 0.0
  }

  // The numbers of moves below k over which they do.
  ghost function RangedBefore(moves: seq<Move>, period: nat, k: nat): set<int>
    requires 0 < period && k <= |moves| + 1
  {
    set i | period <= i < k && Ranged(moves, period, i)
  }

  lemma RangedPrefix(moves: seq<Move>, period: nat, k: nat)
    requires 0 < period <= |moves| - 1 && k <= |moves|
    ensures RangedBefore(moves[..|moves| - 1], period, k) == RangedBefore(moves, period, k)
  {
    hide Rolling;
    forall i | period <= i < k ensures Ranged(moves[..|moves| - 1], period, i) <==> Ranged(moves, period, i) {
      assert moves[..|moves| - 1][..i] == moves[..i];
    }
  }

  lemma RangedLast(moves: seq<Move>, period: nat)
    requires 0 < period <= |moves|
    ensures var n := |moves|;
            && |RangedBefore(moves, period, n + 1)|
               == |RangedBefore(moves, period, n)| + (if Ranged(moves, period, n) then 1 else 0)
  {
    hide Ranged;
    var n := |moves|;
    var before, all := RangedBefore(moves, period, n), RangedBefore(moves, period, n + 1);
    assert n !in before;
    if Ranged(moves, period, n) {
      assert all == before + {n};
    } else {
      assert all == before;
    }
  }

  lemma NothingRanged(moves: seq<Move>)
    requires moves != []
    ensures RangedBefore(moves, |moves|, |moves|) == {}
  {
  }

  // There is one reading for each running sum with a positive range, from the period-th move on,
  // in order.
  lemma {:induction false} DxsAre(moves: seq<Move>, period: nat, k: nat)
    requires 0 < period <= k <= |moves|
    ensures |Dxs(moves, period)| == |RangedBefore(moves, period, |moves| + 1)|
    ensures Ranged(moves, period, k) ==>
              var j := |RangedBefore(moves, period, k)|;
              j < |Dxs(moves, period)| && DxAt(Rolling(moves[..k], period)) == Some(Dxs(moves, period)[j])
    decreases |moves|
  {
    hide DxAt, Rolling, RangedBefore;
    var n := |moves| - 1;
    assert moves[..|moves|] == moves;
    DxIsShare(Rolling(moves, period));
    RangedLast(moves, period);
    if |moves| > period {
      DxsAre(moves[..n], period, if k <= n then k else n);
      RangedPrefix(moves, period, n + 1);
      RangedPrefix(moves, period, k);
      if k <= n {
        assert moves[..n][..k] == moves[..k];
      }
    } else {
      NothingRanged(moves);
    }
  }

  // The index needs two periods and a bar; it is the smoothed mean of the readings once there are
  // a period of them, their mean while there are fewer, and nothing when there are none.
  lemma AdxReads(bars: seq<Bar>, period: nat)
    ensures Adx(bars, period).Some? ==> period > 0 && |bars| >= 2 * period + 1
    ensures period > 0 && |bars| >= 2 * period + 1 ==>
              var dxs, adx := Dxs(Moves(bars), period), Adx(bars, period);
              && (adx.Some? <==> dxs != [])
              && (0 < |dxs| < period ==> adx.value * |dxs| as real == Sum(dxs))
              && (|dxs| >= period ==> adx.value == WilderMean(dxs, period))
  {
    hide Dxs, SmoothedMean, Moves, Sum, Power, Weighed;
    if period > 0 && |bars| >= 2 * period + 1 {
      var dxs := Dxs(Moves(bars), period);
      if |dxs| >= period {
        SmoothedMeanWeighs(dxs, period);
      } else if dxs != [] {
        QuotientTimes(Sum(dxs), |dxs| as real);
      }
    }
  }

  // ---- on-balance volume -------------------------------------------------------------------------

  // It starts at zero and moves by each bar's volume, with the sign of the close's change.
  lemma {:induction false} ObvSteps(bars: seq<Bar>, i: nat)
    requires i < |bars|
    ensures i == 0 ==> Obv(bars)[0] == 0.0
    ensures i > 0 ==>
              Obv(bars)[i] - Obv(bars)[i - 1]
              == if bars[i].close > bars[i - 1].close then bars[i].volume
                 else if bars[i].close < bars[i - 1].close then -bars[i].volume
                 else 0.0
    decreases |bars|
  {
    var n := |bars| - 1;
    if i < n {
      ObvSteps(bars[..n], i);
    }
  }
}
