// On-balance volume, Wilder's RSI and Wilder's ADX.
module Momentum {
  import opened Prelude
  import opened Arith
  import opened Market
  import opened Indicators

  // ---- on-balance volume -----------------------------------------------------

  function SignedVolume(prev: Bar, cur: Bar): real {
    if cur.close > prev.close then cur.volume
    else if cur.close < prev.close then -cur.volume
    else 0.0
  }

  function Obv(bars: seq<Bar>): (r: seq<real>)
    ensures |r| == |bars|
  {
    if bars == [] then []
    else if |bars| == 1 then [0.0]
    else
      var n := |bars| - 1;
      var rest := Obv(bars[..n]);
      rest + [rest[n - 1] + SignedVolume(bars[n - 1], bars[n])]
  }

  method ComputeObv(bars: seq<Bar>) returns (out: seq<real>)
    ensures out == Obv(bars)
  {
    out := [];
    var acc := 0.0;
    for i := 0 to |bars|
      invariant out == Obv(bars[..i])
      invariant i == 0 ==> acc == 0.0
      invariant i > 0 ==> acc == out[i - 1]
    {
      assert bars[..i + 1][..i] == bars[..i];
      if i > 0 {
        var prev := bars[i - 1].close;
        if bars[i].close > prev {
          acc := acc + bars[i].volume;
        } else if bars[i].close < prev {
          acc := acc - bars[i].volume;
        }
      }
      out := out + [acc];
    }
    assert bars[..|bars|] == bars;
  }

  ghost predicate RisingCloses(bars: seq<Bar>) {
    forall i, j :: 0 <= i < j < |bars| ==> bars[i].close < bars[j].close
  }

  ghost predicate PositiveVolumes(bars: seq<Bar>) {
    forall i :: 0 <= i < |bars| ==> bars[i].volume > 0.0
  }

  lemma {:induction false} ObvRises(bars: seq<Bar>)
    requires RisingCloses(bars) && PositiveVolumes(bars)
    ensures Rising(Obv(bars))
  {
    if |bars| > 1 {
      var n := |bars| - 1;
      ObvRises(bars[..n]);
      assert Obv(bars)[n] > Obv(bars)[n - 1];
    }
  }

  // Strictly rising closes on positive volume always read as rising volume flow.
  lemma ObvSlopeOfUptrend(bars: seq<Bar>)
    requires |bars| >= 2 && RisingCloses(bars) && PositiveVolumes(bars)
    ensures SlopeSign(Obv(bars)) == 1.0
  {
    ObvRises(bars);
    RisingSlope(Obv(bars));
  }

  // ---- Wilder smoothing --------------------------------------------------------

  function Smooth(avg: real, x: real, period: nat): real
    requires period > 0
  {
    (avg * (period as real - 1.0) + x) / period as real
  }

  lemma SmoothBetween(avg: real, x: real, period: nat, lo: real, hi: real)
    requires period > 0 && lo <= avg <= hi && lo <= x <= hi
    ensures lo <= Smooth(avg, x, period) <= hi
  {
    var p := period as real;
    ScaleMonotone(p - 1.0, lo, avg);
    ScaleMonotone(p - 1.0, avg, hi);
    Distribute(lo, p - 1.0, 1.0);
    Distribute(hi, p - 1.0, 1.0);
    QuotientAbove(avg * (p - 1.0) + x, p, lo);
    QuotientBelow(avg * (p - 1.0) + x, p, hi);
  }

  // A smoothed value of non-negative parts vanishes only with both of them;
  // a one-bar period forgets the average.
  lemma SmoothZero(avg: real, x: real, period: nat)
    requires period > 0 && avg >= 0.0 && x >= 0.0
    ensures Smooth(avg, x, period) == 0.0 <==> x == 0.0 && (period == 1 || avg == 0.0)
  {
    var p := period as real;
    var weighted := avg * (p - 1.0);
    NonNegativeProduct(avg, p - 1.0);
    QuotientTimes(weighted + x, p);
    if period > 1 && avg > 0.0 {
      PositiveProductIs(avg, p - 1.0, weighted);
    }
  }

  // ---- RSI -----------------------------------------------------------------------

  datatype Averages = Averages(gain: real, loss: real)

  function Gain(): real -> real {
    d => MaxReal(d, 0.0)
  }

  function Loss(): real -> real {
    d => MaxReal(-d, 0.0)
  }

  function Deltas(closes: seq<real>): (r: seq<real>)
    requires closes != []
    ensures |r| == |closes| - 1
  {
    seq(|closes| - 1, i requires 0 <= i < |closes| - 1 => closes[i + 1] - closes[i])
  }

  function SeedAverages(seed: seq<real>): Averages
    requires seed != []
  {
    Averages(SumBy(seed, Gain()) / |seed| as real, SumBy(seed, Loss()) / |seed| as real)
  }

  function WilderAverages(deltas: seq<real>, period: nat): Averages
    requires 0 < period <= |deltas|
  {
    if |deltas| == period then SeedAverages(deltas)
    else
      var n := |deltas| - 1;
      var before := WilderAverages(deltas[..n], period);
      Averages(Smooth(before.gain, MaxReal(deltas[n], 0.0), period),
               Smooth(before.loss, MaxReal(-deltas[n], 0.0), period))
  }

  function RsiOf(a: Averages): real
    requires a.gain >= 0.0 && a.loss >= 0.0
  {
    if a.loss == 0.0 then 100.0
    else
      NonNegativeQuotient(a.gain, a.loss);
      100.0 - 100.0 / (1.0 + a.gain / a.loss)
  }

  lemma NonNegativeQuotient(x: real, k: real)
    requires x >= 0.0 && k > 0.0
    ensures x / k >= 0.0
  {
    QuotientAbove(x, k, 0.0);
  }

  function Rsi(closes: seq<real>, period: nat): Option<real> {
    if period == 0 || |closes| <= period then None
    else
      AveragesNonNegative(Deltas(closes), period);
      Some(RsiOf(WilderAverages(Deltas(closes), period)))
  }

  method ComputeRsi(closes: seq<real>, period: nat) returns (r: Option<real>)
    ensures r == Rsi(closes, period)
    ensures r.Some? <==> 0 < period < |closes|
    ensures r.Some? ==> 0.0 <= r.value <= 100.0
  {
    hide Smooth, SeedAverages;
    if period == 0 || |closes| <= period {
      return None;
    }
    var deltas := Deltas(closes);
    var seed := SeedAverages(deltas[..period]);
    var avgGain, avgLoss := seed.gain, seed.loss;
    for i := period to |deltas|
      invariant Averages(avgGain, avgLoss) == WilderAverages(deltas[..i], period)
    {
      assert deltas[..i + 1][..i] == deltas[..i];
      avgGain := Smooth(avgGain, MaxReal(deltas[i], 0.0), period);
      avgLoss := Smooth(avgLoss, MaxReal(-deltas[i], 0.0), period);
    }
    assert deltas[..|deltas|] == deltas;
    AveragesNonNegative(deltas, period);
    RsiOfInRange(Averages(avgGain, avgLoss));
    r := Some(RsiOf(Averages(avgGain, avgLoss)));
  }

  lemma {:induction false} GainSumsNonNegative(ds: seq<real>)
    ensures SumBy(ds, Gain()) >= 0.0 && SumBy(ds, Loss()) >= 0.0
    ensures SumBy(ds, Gain()) == 0.0 && SumBy(ds, Loss()) == 0.0
       <==> forall i :: 0 <= i < |ds| ==> ds[i] == 0.0
  {
    if ds != [] {
      var n := |ds| - 1;
      GainSumsNonNegative(ds[..n]);
      assert forall i :: 0 <= i < n ==> ds[..n][i] == ds[i];
    }
  }

  lemma {:induction false} AveragesNonNegative(deltas: seq<real>, period: nat)
    requires 0 < period <= |deltas|
    ensures WilderAverages(deltas, period).gain >= 0.0
    ensures WilderAverages(deltas, period).loss >= 0.0
  {
    var n := |deltas| - 1;
    if |deltas| == period {
      GainSumsNonNegative(deltas);
      NonNegativeQuotient(SumBy(deltas, Gain()), period as real);
      NonNegativeQuotient(SumBy(deltas, Loss()), period as real);
    } else {
      AveragesNonNegative(deltas[..n], period);
      var before := WilderAverages(deltas[..n], period);
      SmoothNonNegative(before.gain, MaxReal(deltas[n], 0.0), period);
      SmoothNonNegative(before.loss, MaxReal(-deltas[n], 0.0), period);
    }
  }

  lemma SmoothNonNegative(avg: real, x: real, period: nat)
    requires period > 0 && avg >= 0.0 && x >= 0.0
    ensures Smooth(avg, x, period) >= 0.0
  {
    SmoothBetween(avg, x, period, 0.0, MaxReal(avg, x));
  }

  // The oscillator is the gain's percentage share of the whole movement.
  lemma RsiOfShare(a: Averages)
    requires a.gain >= 0.0 && a.loss > 0.0
    ensures RsiOf(a) * (a.gain + a.loss) == 100.0 * a.gain
  {
    var g, l := a.gain, a.loss;
    var rs := g / l;
    NonNegativeQuotient(g, l);
    QuotientTimes(g, l);
    var q := 100.0 / (1.0 + rs);
    QuotientTimes(100.0, 1.0 + rs);
    assert g + l == (1.0 + rs) * l by {
      Distribute(l, 1.0, rs);
    }
    assert q * (g + l) == 100.0 * l by {
      Associate(q, 1.0 + rs, l);
    }
    assert (100.0 - q) * (g + l) == 100.0 * (g + l) - q * (g + l);
  }

  lemma RsiOfInRange(a: Averages)
    requires a.gain >= 0.0 && a.loss >= 0.0
    ensures 0.0 <= RsiOf(a) <= 100.0
  {
    if a.loss > 0.0 {
      var rs := a.gain / a.loss;
      NonNegativeQuotient(a.gain, a.loss);
      NonNegativeQuotient(100.0, 1.0 + rs);
      QuotientBelow(100.0, 1.0 + rs, 100.0);
    }
  }

  // Swapping gains and losses mirrors the reading, except when nothing moved.
  lemma RsiOfMirror(a: Averages)
    requires a.gain >= 0.0 && a.loss >= 0.0
    ensures RsiOf(Averages(a.loss, a.gain)) == 100.0 - RsiOf(a) <==> !(a.gain == 0.0 && a.loss == 0.0)
  {
    if a.loss > 0.0 && a.gain > 0.0 {
      RsiOfShare(a);
      RsiOfShare(Averages(a.loss, a.gain));
      SharesAddUp(RsiOf(a), RsiOf(Averages(a.loss, a.gain)), a.gain, a.loss);
    } else {
      assert 0.0 / MaxReal(a.gain + a.loss, 1.0) == 0.0;
    }
  }

  lemma SharesAddUp(x: real, y: real, g: real, l: real)
    requires g > 0.0 && l > 0.0
    requires x * (g + l) == 100.0 * g && y * (l + g) == 100.0 * l
    ensures x + y == 100.0
  {
    Distribute(g + l, x, y);
    EqualFactors(x + y, 100.0, g + l);
  }

  lemma EqualFactors(x: real, y: real, k: real)
    requires k > 0.0 && x * k == y * k
    ensures x == y
  {
    ProductSigns(x - y, k);
    Distribute(k, x - y, y);
  }

  function Negated(xs: seq<real>): (r: seq<real>)
    ensures |r| == |xs|
  {
    seq(|xs|, i requires 0 <= i < |xs| => -xs[i])
  }

  lemma {:induction false} NegatedGains(ds: seq<real>)
    ensures SumBy(Negated(ds), Gain()) == SumBy(ds, Loss())
    ensures SumBy(Negated(ds), Loss()) == SumBy(ds, Gain())
  {
    if ds != [] {
      var n := |ds| - 1;
      NegatedGains(ds[..n]);
      assert Negated(ds)[..n] == Negated(ds[..n]);
    }
  }

  lemma {:induction false} NegatedAverages(deltas: seq<real>, period: nat)
    requires 0 < period <= |deltas|
    ensures var a := WilderAverages(deltas, period);
            WilderAverages(Negated(deltas), period) == Averages(a.loss, a.gain)
  {
    if |deltas| == period {
      NegatedGains(deltas);
    } else {
      var n := |deltas| - 1;
      NegatedAverages(deltas[..n], period);
      assert Negated(deltas)[..n] == Negated(deltas[..n]);
    }
  }

  // Nothing has moved that the averages still remember.
  predicate Flat(closes: seq<real>, period: nat)
    requires 0 < period < |closes|
  {
    if period == 1 then closes[|closes| - 1] == closes[|closes| - 2]
    else forall i :: 0 <= i < |closes| ==> closes[i] == closes[0]
  }

  lemma {:induction false} AveragesVanish(deltas: seq<real>, period: nat)
    requires 0 < period <= |deltas|
    ensures WilderAverages(deltas, period) == Averages(0.0, 0.0)
       <==> if period == 1 then deltas[|deltas| - 1] == 0.0
            else forall i :: 0 <= i < |deltas| ==> deltas[i] == 0.0
  {
    var n := |deltas| - 1;
    if |deltas| == period {
      GainSumsNonNegative(deltas);
      QuotientTimes(SumBy(deltas, Gain()), period as real);
      QuotientTimes(SumBy(deltas, Loss()), period as real);
    } else {
      AveragesVanish(deltas[..n], period);
      AveragesNonNegative(deltas[..n], period);
      var before := WilderAverages(deltas[..n], period);
      SmoothZero(before.gain, MaxReal(deltas[n], 0.0), period);
      SmoothZero(before.loss, MaxReal(-deltas[n], 0.0), period);
      assert forall i :: 0 <= i < n ==> deltas[..n][i] == deltas[i];
    }
  }

  lemma {:induction false} NoDeltasMeansConstant(closes: seq<real>, i: nat)
    requires i < |closes|
    requires forall k :: 0 <= k < |closes| - 1 ==> Deltas(closes)[k] == 0.0
    ensures closes[i] == closes[0]
  {
    if i > 0 {
      NoDeltasMeansConstant(closes, i - 1);
      assert Deltas(closes)[i - 1] == 0.0;
    }
  }

  lemma FlatIffNoAverages(closes: seq<real>, period: nat)
    requires 0 < period < |closes|
    ensures Flat(closes, period) <==> WilderAverages(Deltas(closes), period) == Averages(0.0, 0.0)
  {
    var deltas := Deltas(closes);
    AveragesVanish(deltas, period);
    if period > 1 {
      if forall k :: 0 <= k < |deltas| ==> deltas[k] == 0.0 {
        forall i | 0 <= i < |closes| ensures closes[i] == closes[0] {
          NoDeltasMeansConstant(closes, i);
        }
      }
      if Flat(closes, period) {
        forall k | 0 <= k < |deltas| ensures deltas[k] == 0.0 {
          assert closes[k] == closes[0] && closes[k + 1] == closes[0];
        }
      }
    }
  }

  // Turning the price series upside down reads 100 minus the reading, exactly when the
  // series is not flat.
  lemma RsiMirror(closes: seq<real>, period: nat)
    requires 0 < period < |closes|
    ensures Rsi(Negated(closes), period) == Some(100.0 - Rsi(closes, period).value)
       <==> !Flat(closes, period)
  {
    assert Deltas(Negated(closes)) == Negated(Deltas(closes));
    NegatedAverages(Deltas(closes), period);
    AveragesNonNegative(Deltas(closes), period);
    RsiOfMirror(WilderAverages(Deltas(closes), period));
    FlatIffNoAverages(closes, period);
  }

  // A flat series reads a hundred both ways up, so there the mirror fails; two equal closes are
  // such a series.
  lemma FlatReadsHundred(closes: seq<real>, period: nat)
    requires 0 < period < |closes| && Flat(closes, period)
    ensures Rsi(closes, period) == Some(100.0) == Rsi(Negated(closes), period)
  {
    FlatIffNoAverages(closes, period);
    assert Flat(Negated(closes), period);
    FlatIffNoAverages(Negated(closes), period);
  }

  lemma RsiMirrorCanFail()
    ensures Rsi([1.0, 1.0], 1) == Some(100.0) == Rsi(Negated([1.0, 1.0]), 1)
  {
    FlatReadsHundred([1.0, 1.0], 1);
  }

  // ---- ADX -------------------------------------------------------------------------

  function PlusDm(prev: Bar, cur: Bar): real {
    var up, down := cur.high - prev.high, prev.low - cur.low;
    if up > down && up > 0.0 then up else 0.0
  }

  function MinusDm(prev: Bar, cur: Bar): real {
    var up, down := cur.high - prev.high, prev.low - cur.low;
    if down > up && down > 0.0 then down else 0.0
  }

  // True range and directional movement of each bar against the one before it.
  datatype Move = Move(tr: real, plus: real, minus: real)

  function MoveOf(prev: Bar, cur: Bar): Move {
    Move(cur.TrueRange(prev.close), PlusDm(prev, cur), MinusDm(prev, cur))
  }

  function Moves(bars: seq<Bar>): (r: seq<Move>)
    requires bars != []
    ensures |r| == |bars| - 1
  {
    seq(|bars| - 1, i requires 0 <= i < |bars| - 1 => MoveOf(bars[i], bars[i + 1]))
  }

  function AddMove(s: Move, m: Move): Move {
    Move(s.tr + m.tr, s.plus + m.plus, s.minus + m.minus)
  }

  function SumMoves(moves: seq<Move>): Move {
    if moves == [] then Move(0.0, 0.0, 0.0)
    else AddMove(SumMoves(moves[..|moves| - 1]), moves[|moves| - 1])
  }

  // One step of the running Wilder sums.
  function Roll(s: Move, m: Move, period: nat): Move
    requires period > 0
  {
    var p := period as real;
    Move(s.tr - s.tr / p + m.tr, s.plus - s.plus / p + m.plus, s.minus - s.minus / p + m.minus)
  }

  function Rolling(moves: seq<Move>, period: nat): Move
    requires 0 < period <= |moves|
  {
    if |moves| == period then SumMoves(moves)
    else Roll(Rolling(moves[..|moves| - 1], period), moves[|moves| - 1], period)
  }

  function DxAt(s: Move): Option<real> {
    if s.tr <= 0.0 then None
    else
      var plusDi, minusDi := 100.0 * s.plus / s.tr, 100.0 * s.minus / s.tr;
      var denom := plusDi + minusDi;
      if denom <= 0.0 then Some(0.0) else Some(100.0 * Abs(plusDi - minusDi) / denom)
  }

  function ToSeq(o: Option<real>): seq<real> {
    if o.Some? then [o.value] else []
  }

  function Dxs(moves: seq<Move>, period: nat): seq<real>
    requires 0 < period <= |moves|
  {
    (if |moves| == period then [] else Dxs(moves[..|moves| - 1], period)) + ToSeq(DxAt(Rolling(moves, period)))
  }

  function SmoothedMean(dxs: seq<real>, period: nat): real
    requires 0 < period <= |dxs|
  {
    if |dxs| == period then Mean(dxs)
    else Smooth(SmoothedMean(dxs[..|dxs| - 1], period), dxs[|dxs| - 1], period)
  }

  function AdxOf(dxs: seq<real>, period: nat): Option<real>
    requires period > 0
  {
    if dxs == [] then None
    else if |dxs| < period then Some(Mean(dxs))
    else Some(SmoothedMean(dxs, period))
  }

  function Adx(bars: seq<Bar>, period: nat): Option<real> {
    if period == 0 || |bars| < 2 * period + 1 then None
    else AdxOf(Dxs(Moves(bars), period), period)
  }

  lemma DxsStep(moves: seq<Move>, period: nat, i: nat)
    requires 0 < period <= i < |moves|
    ensures Rolling(moves[..i + 1], period) == Roll(Rolling(moves[..i], period), moves[i], period)
    ensures Dxs(moves[..i + 1], period)
         == Dxs(moves[..i], period) + ToSeq(DxAt(Rolling(moves[..i + 1], period)))
  {
    assert moves[..i + 1][..i] == moves[..i];
  }

  lemma DxsSeed(moves: seq<Move>)
    requires moves != []
    ensures Dxs(moves, |moves|) == ToSeq(DxAt(SumMoves(moves)))
    ensures Rolling(moves, |moves|) == SumMoves(moves)
  {
  }

  // The running sums, and the index they give at each bar.
  method ComputeDxs(moves: seq<Move>, period: nat) returns (dxs: seq<real>)
    requires 0 < period <= |moves|
    ensures dxs == Dxs(moves, period)
  {
    hide Roll, DxAt, Rolling, Dxs, ToSeq, SumMoves;
    var s := SumMoves(moves[..period]);
    dxs := ToSeq(DxAt(s));
    DxsSeed(moves[..period]);
    for i := period to |moves|
      invariant s == Rolling(moves[..i], period)
      invariant dxs == Dxs(moves[..i], period)
    {
      DxsStep(moves, period, i);
      s := Roll(s, moves[i], period);
      dxs := dxs + ToSeq(DxAt(s));
    }
    assert moves[..|moves|] == moves;
  }

  method ComputeAdx(bars: seq<Bar>, period: nat) returns (r: Option<real>)
    ensures r == Adx(bars, period)
    ensures r.Some? && AllConsistent(bars) ==> 0.0 <= r.value <= 100.0
  {
    hide Smooth, Moves, Mean, Dxs;
    if AllConsistent(bars) {
      AdxInRange(bars, period);
    }
    if period == 0 || |bars| < 2 * period + 1 {
      return None;
    }
    var dxs := ComputeDxs(Moves(bars), period);
    if |dxs| < period {
      return if dxs == [] then None else Some(Mean(dxs));
    }
    var adx := Mean(dxs[..period]);
    for i := period to |dxs|
      invariant adx == SmoothedMean(dxs[..i], period)
    {
      assert dxs[..i + 1][..i] == dxs[..i];
      adx := Smooth(adx, dxs[i], period);
    }
    assert dxs[..|dxs|] == dxs;
    r := Some(adx);
  }

  // No more directional movement than range.
  ghost predicate Bounded(m: Move) {
    m.plus >= 0.0 && m.minus >= 0.0 && m.plus + m.minus <= m.tr
  }

  lemma MoveBounded(prev: Bar, cur: Bar)
    requires prev.Consistent() && cur.Consistent()
    ensures Bounded(MoveOf(prev, cur))
  {
  }

  lemma {:induction false} SumMovesBounded(moves: seq<Move>)
    requires forall i :: 0 <= i < |moves| ==> Bounded(moves[i])
    ensures Bounded(SumMoves(moves))
  {
    if moves != [] {
      SumMovesBounded(moves[..|moves| - 1]);
    }
  }

  lemma Decay(x: real, p: real)
    requires p >= 1.0
    ensures x - x / p == x * (1.0 - 1.0 / p)
    ensures 0.0 <= 1.0 - 1.0 / p
  {
    var q := 1.0 / p;
    QuotientTimes(1.0, p);
    assert x / p == x * q;
    QuotientBelow(1.0, p, 1.0);
  }

  lemma DecayKeepsOrder(whole: real, x: real, y: real, p: real)
    requires p >= 1.0 && x >= 0.0 && y >= 0.0 && x + y <= whole
    ensures 0.0 <= x - x / p && 0.0 <= y - y / p
    ensures (x - x / p) + (y - y / p) <= whole - whole / p
  {
    var keep := 1.0 - 1.0 / p;
    Decay(whole, p);
    Decay(x, p);
    Decay(y, p);
    KeepOrder(keep, whole, x, y);
  }

  lemma KeepOrder(keep: real, whole: real, x: real, y: real)
    requires keep >= 0.0 && x >= 0.0 && y >= 0.0 && x + y <= whole
    ensures 0.0 <= x * keep && 0.0 <= y * keep && x * keep + y * keep <= whole * keep
  {
    NonNegativeProduct(x, keep);
    NonNegativeProduct(y, keep);
    ScaleMonotone(keep, x + y, whole);
    Distribute(keep, x, y);
  }

  lemma RollBounded(s: Move, m: Move, period: nat)
    requires period > 0 && Bounded(s) && Bounded(m)
    ensures Bounded(Roll(s, m, period))
  {
    DecayKeepsOrder(s.tr, s.plus, s.minus, period as real);
  }

  // At every step the smoothed directional movements together stay within the smoothed range.
  lemma {:induction false} RollingBounded(moves: seq<Move>, period: nat)
    requires 0 < period <= |moves|
    requires forall i :: 0 <= i < |moves| ==> Bounded(moves[i])
    ensures Bounded(Rolling(moves, period))
  {
    if |moves| == period {
      SumMovesBounded(moves);
    } else {
      RollingBounded(moves[..|moves| - 1], period);
      RollBounded(Rolling(moves[..|moves| - 1], period), moves[|moves| - 1], period);
    }
  }

  lemma SmoothedMovementWithinRange(bars: seq<Bar>, period: nat, k: nat)
    requires 0 < period <= k < |bars| && AllConsistent(bars)
    ensures Bounded(Rolling(Moves(bars)[..k], period))
  {
    var moves := Moves(bars);
    forall i | 0 <= i < |moves| ensures Bounded(moves[i]) {
      MoveBounded(bars[i], bars[i + 1]);
    }
    RollingBounded(moves[..k], period);
  }

  lemma DxInRange(s: Move)
    requires Bounded(s)
    ensures DxAt(s).Some? ==> 0.0 <= DxAt(s).value <= 100.0
  {
    if s.tr > 0.0 {
      var p, m := 100.0 * s.plus / s.tr, 100.0 * s.minus / s.tr;
      NonNegativeQuotient(100.0 * s.plus, s.tr);
      NonNegativeQuotient(100.0 * s.minus, s.tr);
      if p + m > 0.0 {
        NonNegativeQuotient(100.0 * Abs(p - m), p + m);
        QuotientBelow(100.0 * Abs(p - m), p + m, 100.0);
      }
    }
  }

  ghost predicate Percentages(xs: seq<real>) {
    forall i :: 0 <= i < |xs| ==> 0.0 <= xs[i] <= 100.0
  }

  lemma {:induction false} DxsInRange(moves: seq<Move>, period: nat)
    requires 0 < period <= |moves|
    requires forall i :: 0 <= i < |moves| ==> Bounded(moves[i])
    ensures Percentages(Dxs(moves, period))
  {
    RollingBounded(moves, period);
    DxInRange(Rolling(moves, period));
    if |moves| > period {
      DxsInRange(moves[..|moves| - 1], period);
    }
  }

  lemma {:induction false} SumOfPercentages(xs: seq<real>)
    requires Percentages(xs)
    ensures 0.0 <= Sum(xs) <= 100.0 * |xs| as real
  {
    if xs != [] {
      SumOfPercentages(xs[..|xs| - 1]);
    }
  }

  lemma MeanOfPercentages(xs: seq<real>)
    requires xs != [] && Percentages(xs)
    ensures 0.0 <= Mean(xs) <= 100.0
  {
    SumOfPercentages(xs);
    NonNegativeQuotient(Sum(xs), |xs| as real);
    QuotientBelow(Sum(xs), |xs| as real, 100.0);
  }

  lemma {:induction false} SmoothedMeanInRange(dxs: seq<real>, period: nat)
    requires 0 < period <= |dxs| && Percentages(dxs)
    ensures 0.0 <= SmoothedMean(dxs, period) <= 100.0
  {
    if |dxs| == period {
      MeanOfPercentages(dxs);
    } else {
      SmoothedMeanInRange(dxs[..|dxs| - 1], period);
      SmoothBetween(SmoothedMean(dxs[..|dxs| - 1], period), dxs[|dxs| - 1], period, 0.0, 100.0);
    }
  }

  lemma AdxInRange(bars: seq<Bar>, period: nat)
    requires AllConsistent(bars)
    ensures Adx(bars, period).Some? ==> 0.0 <= Adx(bars, period).value <= 100.0
  {
    if period > 0 && |bars| >= 2 * period + 1 {
      var moves := Moves(bars);
      forall i | 0 <= i < |moves| ensures Bounded(moves[i]) {
        MoveBounded(bars[i], bars[i + 1]);
      }
      DxsInRange(moves, period);
      var dxs := Dxs(moves, period);
      if |dxs| >= period {
        SmoothedMeanInRange(dxs, period);
      } else if dxs != [] {
        MeanOfPercentages(dxs);
      }
    }
  }

  function Flipped(b: Bar): Bar {
    Bar(b.ts, -b.open, -b.low, -b.high, -b.close, b.volume)
  }

  function FlippedBars(bars: seq<Bar>): (r: seq<Bar>)
    ensures |r| == |bars|
  {
    seq(|bars|, i requires 0 <= i < |bars| => Flipped(bars[i]))
  }

  // The same moves with plus and minus exchanged.
  ghost predicate Exchanged(a: Move, b: Move) {
    a.tr == b.tr && a.plus == b.minus && a.minus == b.plus
  }

  lemma MoveFlips(prev: Bar, cur: Bar)
    ensures Exchanged(MoveOf(Flipped(prev), Flipped(cur)), MoveOf(prev, cur))
  {
  }

  lemma DxExchange(a: Move, b: Move)
    requires Exchanged(a, b)
    ensures DxAt(a) == DxAt(b)
  {
  }

  lemma {:induction false} SumMovesExchange(a: seq<Move>, b: seq<Move>)
    requires |a| == |b| && forall i :: 0 <= i < |a| ==> Exchanged(a[i], b[i])
    ensures Exchanged(SumMoves(a), SumMoves(b))
  {
    if a != [] {
      SumMovesExchange(a[..|a| - 1], b[..|b| - 1]);
    }
  }

  lemma {:induction false} DxsExchange(a: seq<Move>, b: seq<Move>, period: nat)
    requires |a| == |b| && forall i :: 0 <= i < |a| ==> Exchanged(a[i], b[i])
    requires 0 < period <= |a|
    ensures Exchanged(Rolling(a, period), Rolling(b, period))
    ensures Dxs(a, period) == Dxs(b, period)
  {
    if |a| == period {
      SumMovesExchange(a, b);
    } else {
      DxsExchange(a[..|a| - 1], b[..|b| - 1], period);
    }
    DxExchange(Rolling(a, period), Rolling(b, period));
  }

  // The index is unsigned: an upside-down market has the same trend strength.
  lemma AdxUnsigned(bars: seq<Bar>, period: nat)
    ensures Adx(FlippedBars(bars), period) == Adx(bars, period)
  {
    if period > 0 && |bars| >= 2 * period + 1 {
      var a, b := Moves(FlippedBars(bars)), Moves(bars);
      forall i | 0 <= i < |a| ensures Exchanged(a[i], b[i]) {
        MoveFlips(bars[i], bars[i + 1]);
      }
      DxsExchange(a, b, period);
    }
  }
}
