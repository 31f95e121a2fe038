// Reading trades back: exit prices from labels, the running tally, and realized statistics.
module Trades {
  import opened Prelude
  import opened Arith
  import opened Sorting
  import opened Market
  import opened Risk
  import opened Labeler
  import opened Detectors

  // ---- exit prices -----------------------------------------------------------

  function ReconstructExitPx(outcome: Outcome, entryPx: real, stopPx: real, targetPx: real, retR: real,
                             side: Side): real
  {
    match outcome
    case Target => targetPx
    case Stop => stopPx
    case Time => entryPx + side.Sign() * retR * Abs(entryPx - stopPx)
  }

  function ExitPxOf(ev: LabelEvent): real {
    ReconstructExitPx(ev.outcome, ev.entryPx, ev.stopPx, ev.targetPx, ev.retR, ev.side)
  }

  // The reconstructed price inverts the labeler's return: its signed move over the entry-stop
  // distance is exactly the label's return, and a time exit comes back at the exit close.
  lemma ExitPriceInvertsReturn(bars: seq<Bar>, entry: nat, side: Side, atr: real, risk: RiskModel, maxHold: nat)
    requires GeometryError(bars, entry, atr, risk, maxHold) == None
    ensures var ev := Label(bars, entry, side, atr, risk, maxHold).value;
            Abs(ev.entryPx - ev.stopPx) > 0.0
            && side.Sign() * (ExitPxOf(ev) - ev.entryPx) / Abs(ev.entryPx - ev.stopPx) == ev.retR
    ensures var ev := Label(bars, entry, side, atr, risk, maxHold).value;
            ev.outcome == Time ==>
              ExitPxOf(ev) == bars[ExitIndex(bars, entry, side, atr, risk, maxHold)].close
  {
    var ev := Label(bars, entry, side, atr, risk, maxHold).value;
    var exit := ExitIndex(bars, entry, side, atr, risk, maxHold);
    var e := bars[entry].close;
    var riskDist := risk.RiskDistance(e, atr);
    assert IsLabel(bars, entry, side, atr, risk, maxHold, ev, exit) by {
      LabelMeetsSpec(bars, entry, side, atr, risk, maxHold);
    }
    BarrierInverts(ev, riskDist, risk.target1.Distance(e, atr, riskDist), bars[exit].close);
  }

  lemma BarrierInverts(ev: LabelEvent, d: real, targetDist: real, exitClose: real)
    requires d > 0.0
    requires ev.targetPx == ev.entryPx + ev.side.Sign() * targetDist && ev.stopPx == ev.entryPx - ev.side.Sign() * d
    requires ev.retR == match ev.outcome
                        case Stop => -1.0
                        case Target => targetDist / d
                        case Time => ev.side.Sign() * (exitClose - ev.entryPx) / d
    ensures Abs(ev.entryPx - ev.stopPx) == d
    ensures ev.side.Sign() * (ExitPxOf(ev) - ev.entryPx) / d == ev.retR
    ensures ev.outcome == Time ==> ExitPxOf(ev) == exitClose
  {
    var gap := Abs(ev.entryPx - ev.stopPx);
    var move := ev.side.Sign() * (ExitPxOf(ev) - ev.entryPx);
    assert gap == d;
    match ev.outcome
    case Target => assert move == targetDist;
    case Stop =>
      assert move == -d;
      QuotientIs(move, d, -1.0);
    case Time =>
      TimeExit(ev.side, ev.entryPx, exitClose, gap, ev.retR);
      assert move == ev.side.Sign() * (exitClose - ev.entryPx);
  }

  lemma QuotientIs(x: real, k: real, q: real)
    requires k > 0.0 && x == q * k
    ensures x / k == q
  {
    QuotientBelow(x, k, q);
    QuotientAbove(x, k, q);
  }

  lemma TimeExit(side: Side, entry: real, exit: real, d: real, r: real)
    requires d > 0.0 && r == side.Sign() * (exit - entry) / d
    ensures entry + side.Sign() * r * d == exit
  {
    QuotientTimes(side.Sign() * (exit - entry), d);
    if side.Long? {
      assert r * d == exit - entry;
    } else {
      assert r * d == entry - exit;
      assert (-1.0 * r) * d == exit - entry;
    }
  }

  // ---- the running tally -------------------------------------------------------

  class TradeStats {
    var total: nat
    var wins: nat
    var grossWin: real
    var grossLoss: real
    var sumR: real
    // The outcomes pushed so far.
    ghost var history: seq<real>

    ghost predicate Valid()
      reads this
    {
      && total == |history|
      && wins == |Sorting.Filter(history, IsWin())|
      && grossWin == SumBy(history, WinPart())
      && grossLoss == SumBy(history, LossPart())
      && sumR == Sum(history)
      && wins <= total
    }

    constructor ()
      ensures Valid() && history == []
    {
      total, wins := 0, 0;
      grossWin, grossLoss, sumR := 0.0, 0.0, 0.0;
      history := [];
    }

    method Push(retR: real)
      requires Valid()
      modifies this
      ensures Valid() && history == old(history) + [retR]
    {
      FilterSnoc(history, retR, IsWin());
      SumBySnoc(history, retR, WinPart());
      SumBySnoc(history, retR, LossPart());
      SumConcatOne(history, retR);
      total := total + 1;
      sumR := sumR + retR;
      if retR > 0.0 {
        wins := wins + 1;
        grossWin := grossWin + retR;
      } else {
        grossLoss := grossLoss + -retR;
      }
      history := history + [retR];
    }

    // None stands for an unbounded factor.
    method ProfitFactor() returns (f: Option<real>)
      requires Valid()
      ensures f == TallyProfitFactor(history)
    {
      f := if grossLoss > 0.0 then Some(grossWin / grossLoss) else None;
    }
  }

  function IsWin(): real -> bool {
    r => r > 0.0
  }

  function WinPart(): real -> real {
    r => if r > 0.0 then r else 0.0
  }

  function LossPart(): real -> real {
    r => if r > 0.0 then 0.0 else -r
  }

  lemma SumConcatOne(xs: seq<real>, x: real)
    ensures Sum(xs + [x]) == Sum(xs) + x
  {
    assert (xs + [x])[..|xs|] == xs;
  }

  // Gross wins less gross losses is the net result.
  lemma {:induction false} WinsLessLosses(xs: seq<real>)
    ensures Sum(xs) == SumBy(xs, WinPart()) - SumBy(xs, LossPart())
    ensures SumBy(xs, WinPart()) >= 0.0 && SumBy(xs, LossPart()) >= 0.0
  {
    if xs != [] {
      WinsLessLosses(xs[..|xs| - 1]);
    }
  }

  function TallyProfitFactor(xs: seq<real>): Option<real> {
    var loss := SumBy(xs, LossPart());
    if loss > 0.0 then Some(SumBy(xs, WinPart()) / loss) else None
  }

  // ---- realized statistics --------------------------------------------------------

  // None for the profit factor stands for an unbounded one.
  datatype RealizedStats = RealizedStats(n: nat, expectancyR: real, profitFactor: Option<real>, cvar5: real)

  function StrictLoss(): real -> real {
    r => if r < 0.0 then Abs(r) else 0.0
  }

  function ComputeStats(pnls: seq<real>): RealizedStats {
    if pnls == [] then RealizedStats(0, 0.0, Some(0.0), 0.0)
    else
      var wins, losses := SumBy(pnls, WinPart()), SumBy(pnls, StrictLoss());
      var profitFactor := if losses > 0.0 then Some(wins / losses) else if wins > 0.0 then None else Some(0.0);
      var rounded := Ceil(|pnls| as real * 0.05);
      var tail := MinNat(if rounded < 1 then 1 else rounded, |pnls|);
      RealizedStats(|pnls|, Sum(pnls) / |pnls| as real, profitFactor,
                    Sum(SortAscending(pnls)[..tail]) / tail as real)
  }

  // The journal's tail mean is the monitor's expected shortfall at five percent: the least
  // mean over all choices of that many outcomes.
  lemma JournalAgreesWithMonitor(pnls: seq<real>)
    requires pnls != []
    ensures Cvar(pnls, 0.05) == Some(ComputeStats(pnls).cvar5)
    ensures forall chosen: set<int> :: Choice(chosen, TailSize(|pnls|, 0.05), |pnls|) ==>
              ComputeStats(pnls).cvar5 <= MeanAt(pnls, chosen)
    ensures ComputeStats(pnls).cvar5 <= ComputeStats(pnls).expectancyR
  {
    CvarIsLeastMean(pnls, 0.05);
    CvarAtMostMean(pnls, 0.05);
  }

  lemma {:induction false} LossesAgree(xs: seq<real>)
    ensures SumBy(xs, LossPart()) == SumBy(xs, StrictLoss())
  {
    if xs != [] {
      LossesAgree(xs[..|xs| - 1]);
    }
  }

  lemma {:induction false} NoMovement(xs: seq<real>)
    ensures SumBy(xs, WinPart()) == 0.0 && SumBy(xs, LossPart()) == 0.0
       <==> forall i :: 0 <= i < |xs| ==> xs[i] == 0.0
  {
    if xs != [] {
      var n := |xs| - 1;
      NoMovement(xs[..n]);
      WinsLessLosses(xs[..n]);
      assert forall i :: 0 <= i < n ==> xs[..n][i] == xs[i];
    }
  }

  // The two profit factors differ only on records in which nothing was won or lost: the
  // tally calls those unbounded, the journal calls them zero.
  lemma ProfitFactorsAgreeIff(pnls: seq<real>)
    ensures TallyProfitFactor(pnls) == ComputeStats(pnls).profitFactor
       <==> exists i :: 0 <= i < |pnls| && pnls[i] != 0.0
  {
    LossesAgree(pnls);
    NoMovement(pnls);
    WinsLessLosses(pnls);
  }

  // One scratch trade shows the difference.
  lemma ProfitFactorsCanDiffer()
    ensures TallyProfitFactor([0.0]) == None && ComputeStats([0.0]).profitFactor == Some(0.0)
  {
    assert [0.0][..0] == [];
    assert SumBy([0.0], LossPart()) == SumBy([0.0], WinPart()) == SumBy([0.0], StrictLoss()) == 0.0;
  }

  // ---- what the statistics are ------------------------------------------------------------------

  ghost function WinningAt(xs: seq<real>): set<int> {
    set i | 0 <= i < |xs| && xs[i] > 0.0
  }

  ghost function LosingAt(xs: seq<real>): set<int> {
    set i | 0 <= i < |xs| && xs[i] < 0.0
  }

  ghost function GainOf(xs: seq<real>): real {
    SumAt(xs, WinningAt(xs))
  }

  ghost function LossOf(xs: seq<real>): real {
    -SumAt(xs, LosingAt(xs))
  }

  lemma GrossGrows(xs: seq<real>)
    requires xs != []
    ensures var n := |xs| - 1;
            && GainOf(xs) == GainOf(xs[..n]) + (if xs[n] > 0.0 then xs[n] else 0.0)
            && LossOf(xs) == LossOf(xs[..n]) + (if xs[n] < 0.0 then -xs[n] else 0.0)
  {
    var n := |xs| - 1;
    assert WinningAt(xs) - {n} == WinningAt(xs[..n]);
    assert LosingAt(xs) - {n} == LosingAt(xs[..n]);
    assert n in WinningAt(xs) <==> xs[n] > 0.0;
    assert n in LosingAt(xs) <==> xs[n] < 0.0;
  }

  // The tally's running sums are the outcomes won and lost, added up, and it counts the winning ones.
  lemma {:induction false} GrossIs(xs: seq<real>)
    ensures SumBy(xs, WinPart()) == GainOf(xs) && SumBy(xs, LossPart()) == LossOf(xs)
    ensures |Filter(xs, IsWin())| == |WinningAt(xs)|
  {
    FilterCounts(xs, IsWin());
    assert KeptAt(xs, IsWin()) == WinningAt(xs);
    if xs == [] {
      assert WinningAt(xs) == {} && LosingAt(xs) == {};
    } else {
      GrossIs(xs[..|xs| - 1]);
      GrossGrows(xs);
      hide GainOf, LossOf, Filter;
    }
  }

  // The tally's factor times the losses is the gains, and is unbounded exactly without losses.
  lemma TallyTells(xs: seq<real>)
    ensures var f := TallyProfitFactor(xs);
            && (f.Some? <==> LossOf(xs) > 0.0)
            && (f.Some? ==> f.value * LossOf(xs) == GainOf(xs))
  {
    GrossIs(xs);
    hide GainOf, LossOf, SumBy;
    if LossOf(xs) > 0.0 {
      QuotientTimes(GainOf(xs), LossOf(xs));
    }
  }

  // So is the journal's while there are losses; without them it is unbounded if anything was won and
  // zero otherwise. The expectancy is the total per trade.
  lemma JournalTells(pnls: seq<real>)
    requires pnls != []
    ensures var s := ComputeStats(pnls);
            && s.n == |pnls| && s.expectancyR * |pnls| as real == Sum(pnls)
            && (LossOf(pnls) > 0.0 ==> s.profitFactor.Some? && s.profitFactor.value * LossOf(pnls) == GainOf(pnls))
            && (LossOf(pnls) <= 0.0 ==> s.profitFactor == if GainOf(pnls) > 0.0 then None else Some(0.0))
  {
    hide GainOf, LossOf, SumBy, Sum, ComputeStats;
    GrossIs(pnls);
    LossesAgree(pnls);
    JournalUnfolds(pnls, SumBy(pnls, WinPart()), SumBy(pnls, StrictLoss()));
    QuotientTimes(Sum(pnls), |pnls| as real);
    if LossOf(pnls) > 0.0 {
      QuotientTimes(GainOf(pnls), LossOf(pnls));
    }
  }

  lemma JournalUnfolds(pnls: seq<real>, wins: real, losses: real)
    requires pnls != [] && wins == SumBy(pnls, WinPart()) && losses == SumBy(pnls, StrictLoss())
    ensures var s := ComputeStats(pnls);
            && s.n == |pnls| && s.expectancyR == Sum(pnls) / |pnls| as real
            && s.profitFactor == if losses > 0.0 then Some(wins / losses) else if wins > 0.0 then None else Some(0.0)
  {
  }
}
