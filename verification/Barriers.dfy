// A label told by the prices each bar traded at, between its low and its high.
module Barriers {
  import opened Prelude
  import opened Arith
  import opened Market
  import opened Risk
  import opened Labeler

  ghost predicate Traded(b: Bar, x: real) {
    b.low <= x <= b.high
  }

  // How far a price is to the good of another, for the side.
  function Gained(x: real, from: real, side: Side): real {
    if side.Long? then x - from else from - x
  }

  // The bar traded at the stop or worse; at the target or better.
  ghost predicate StopsOut(b: Bar, stopPx: real, side: Side) {
    exists x :: Traded(b, x) && Gained(x, stopPx, side) <= 0.0
  }

  ghost predicate Reaches(b: Bar, targetPx: real, side: Side) {
    exists x :: Traded(b, x) && Gained(x, targetPx, side) >= 0.0
  }

  lemma StopsOutIff(b: Bar, stopPx: real, side: Side)
    requires b.low <= b.high
    ensures HitsStop(b, stopPx, side) <==> StopsOut(b, stopPx, side)
  {
    var worst := if side.Long? then b.low else b.high;
    assert Traded(b, worst);
    assert HitsStop(b, stopPx, side) ==> Gained(worst, stopPx, side) <= 0.0;
  }

  lemma ReachesIff(b: Bar, targetPx: real, side: Side)
    requires b.low <= b.high
    ensures HitsTarget(b, targetPx, side) <==> Reaches(b, targetPx, side)
  {
    var best := if side.Long? then b.high else b.low;
    assert Traded(b, best);
    assert HitsTarget(b, targetPx, side) ==> Gained(best, targetPx, side) >= 0.0;
  }

  // The bar traded at neither barrier nor past one.
  ghost predicate Between(b: Bar, ev: LabelEvent) {
    !StopsOut(b, ev.stopPx, ev.side) && !Reaches(b, ev.targetPx, ev.side)
  }

  ghost predicate StayedBetween(bars: seq<Bar>, from: nat, to: nat, ev: LabelEvent)
    requires to <= |bars|
  {
    forall j :: from <= j < to ==> Between(bars[j], ev)
  }

  // What a label says happened: up to its end every bar traded between the barriers; it ends at a
  // bar that stopped out, or one that reached the target and did not, or the last it may be held to.
  ghost predicate Happened(bars: seq<Bar>, entry: nat, last: nat, ev: LabelEvent, exit: nat)
    requires entry <= exit <= last < |bars|
  {
    && StayedBetween(bars, entry + 1, exit, ev)
    && (ev.outcome == Stop ==> exit > entry && StopsOut(bars[exit], ev.stopPx, ev.side))
    && (ev.outcome == Target ==>
          exit > entry && Reaches(bars[exit], ev.targetPx, ev.side) && !StopsOut(bars[exit], ev.stopPx, ev.side))
    && (ev.outcome == Time ==> exit == last && (exit > entry ==> Between(bars[exit], ev)))
  }

  // The return in units of risk: minus one, the target's distance, or where the last bar closed.
  ghost predicate Earned(bars: seq<Bar>, ev: LabelEvent, exit: nat, risk: real)
    requires exit < |bars|
  {
    match ev.outcome
    case Stop => ev.retR * risk == Gained(ev.stopPx, ev.entryPx, ev.side)
    case Target => ev.retR * risk == Gained(ev.targetPx, ev.entryPx, ev.side)
    case Time => ev.retR * risk == Gained(bars[exit].close, ev.entryPx, ev.side)
  }

  // The label of an entry on consistent bars happened, over the bars it may be held for and the
  // record has, and its return is the gain at its exit price in units of the stop's distance.
  lemma LabelHappened(bars: seq<Bar>, entry: nat, side: Side, atr: real, risk: RiskModel, maxHold: nat)
    requires GeometryError(bars, entry, atr, risk, maxHold) == None && AllConsistent(bars)
    ensures var ev := Label(bars, entry, side, atr, risk, maxHold).value;
            var exit := ExitIndex(bars, entry, side, atr, risk, maxHold);
            var last := if entry + maxHold < |bars| then entry + maxHold else |bars| - 1;
            && ev.side == side && ev.entryTs == bars[entry].ts && ev.t1 == bars[exit].ts
            && ev.entryPx == bars[entry].close && exit <= last
            && Gained(ev.entryPx, ev.stopPx, side) > 0.0 && Gained(ev.targetPx, ev.entryPx, side) >= 0.0
            && Happened(bars, entry, last, ev, exit)
            && Earned(bars, ev, exit, Gained(ev.entryPx, ev.stopPx, side))
  {
    hide Label, ExitIndex, GeometryError, IsLabel, AllConsistent, Happened, Earned;
    LabelMeetsSpec(bars, entry, side, atr, risk, maxHold);
    var ev := Label(bars, entry, side, atr, risk, maxHold).value;
    var exit := ExitIndex(bars, entry, side, atr, risk, maxHold);
    SpecPlaces(bars, entry, side, atr, risk, maxHold, ev, exit);
    SpecHappened(bars, entry, side, atr, risk, maxHold, ev, exit);
  }

  lemma SpecPlaces(bars: seq<Bar>, entry: nat, side: Side, atr: real, risk: RiskModel, maxHold: nat,
                   ev: LabelEvent, exit: nat)
    requires IsLabel(bars, entry, side, atr, risk, maxHold, ev, exit)
    ensures entry < |bars| && exit < |bars|
    ensures ev.side == side && ev.entryTs == bars[entry].ts && ev.t1 == bars[exit].ts && ev.entryPx == bars[entry].close
    ensures Gained(ev.entryPx, ev.stopPx, side) > 0.0 && Gained(ev.targetPx, ev.entryPx, side) >= 0.0
    ensures Earned(bars, ev, exit, Gained(ev.entryPx, ev.stopPx, side))
  {
    hide Earned, HitsStop, HitsTarget, Touches;
    EarnedAt(bars, ev, exit, risk.RiskDistance(ev.entryPx, atr),
             risk.target1.Distance(ev.entryPx, atr, risk.RiskDistance(ev.entryPx, atr)));
  }

  lemma BetweenIff(b: Bar, ev: LabelEvent)
    requires b.low <= b.high
    ensures Between(b, ev) <==> !Touches(b, ev.targetPx, ev.stopPx, ev.side)
  {
    StopsOutIff(b, ev.stopPx, ev.side);
    ReachesIff(b, ev.targetPx, ev.side);
    hide StopsOut, Reaches, HitsStop, HitsTarget;
  }

  lemma SpecHappened(bars: seq<Bar>, entry: nat, side: Side, atr: real, risk: RiskModel, maxHold: nat,
                     ev: LabelEvent, exit: nat)
    requires IsLabel(bars, entry, side, atr, risk, maxHold, ev, exit) && AllConsistent(bars)
    ensures var last := if entry + maxHold < |bars| then entry + maxHold else |bars| - 1;
            entry < |bars| && exit <= last && Happened(bars, entry, last, ev, exit)
  {
    hide StopsOut, Reaches, HitsStop, HitsTarget, Touches, Between;
    assert bars[exit].Consistent();
    StopsOutIff(bars[exit], ev.stopPx, side);
    ReachesIff(bars[exit], ev.targetPx, side);
    forall j | entry < j < exit ensures Between(bars[j], ev) {
      assert bars[j].Consistent();
      BetweenIff(bars[j], ev);
    }
    BetweenIff(bars[exit], ev);
  }

  lemma EarnedAt(bars: seq<Bar>, ev: LabelEvent, exit: nat, d: real, target: real)
    requires d > 0.0 && exit < |bars|
    requires ev.targetPx == ev.entryPx + ev.side.Sign() * target && ev.stopPx == ev.entryPx - ev.side.Sign() * d
    requires match ev.outcome
             case Stop => ev.retR == -1.0
             case Target => ev.retR == target / d
             case Time => ev.retR == ev.side.Sign() * (bars[exit].close - ev.entryPx) / d
    ensures Earned(bars, ev, exit, d) && Gained(ev.entryPx, ev.stopPx, ev.side) == d
  {
    QuotientTimes(target, d);
    QuotientTimes(ev.side.Sign() * (bars[exit].close - ev.entryPx), d);
  }

  // ---- where the barriers stand ----------------------------------------------------------------

  // A stop's distance: its multiple of the average range, its dollars, or its percentage of the
  // entry price, of either sign.
  lemma StopStands(stop: StopSpec, entry: real, atr: real)
    requires entry > 0.0 && atr > 0.0
    ensures match stop
            case StopAtr(mult) => stop.Distance(entry, atr) == Abs(mult) * atr
            case StopFixed(dollars) => stop.Distance(entry, atr) == Abs(dollars)
            case StopPercent(pct) => 100.0 * stop.Distance(entry, atr) == Abs(pct) * entry
  {
    match stop
    case StopAtr(mult) => AbsScaled(mult, atr);
    case StopFixed(dollars) =>
    case StopPercent(pct) => AbsScaled(pct / 100.0, entry); Hundredth(pct, entry);
  }

  lemma AbsScaled(x: real, y: real)
    requires y > 0.0
    ensures Abs(x * y) == Abs(x) * y
  {
    AbsProduct(x, y);
  }

  lemma Hundredth(pct: real, entry: real)
    ensures 100.0 * (Abs(pct / 100.0) * entry) == Abs(pct) * entry
  {
    assert 100.0 * Abs(pct / 100.0) == Abs(pct);
    Associate(100.0, Abs(pct / 100.0), entry);
  }

  // A target's distance, likewise, or its multiple of the stop's.
  lemma TargetStands(target: TargetSpec, entry: real, atr: real, risk: real)
    requires entry > 0.0 && atr > 0.0 && risk > 0.0
    ensures match target
            case TargetAtr(mult) => target.Distance(entry, atr, risk) == Abs(mult) * atr
            case TargetFixed(dollars) => target.Distance(entry, atr, risk) == Abs(dollars)
            case TargetPercent(pct) => 100.0 * target.Distance(entry, atr, risk) == Abs(pct) * entry
            case RMultiple(r) => target.Distance(entry, atr, risk) == Abs(r) * risk
  {
    match target
    case TargetAtr(mult) => AbsScaled(mult, atr);
    case TargetFixed(dollars) =>
    case TargetPercent(pct) => AbsScaled(pct / 100.0, entry); Hundredth(pct, entry);
    case RMultiple(r) => AbsScaled(r, risk);
  }

  // What stands in the way of a label, and in which order it is found.
  lemma ErrorIs(bars: seq<Bar>, entry: nat, side: Side, atr: real, risk: RiskModel, maxHold: nat)
    ensures var r := Label(bars, entry, side, atr, risk, maxHold);
            && (r == Err(ZeroMaxHold) <==> maxHold == 0)
            && (r == Err(EntryOutOfRange) <==> maxHold > 0 && entry >= |bars|)
            && (r == Err(NonPositiveAtr) <==> maxHold > 0 && entry < |bars| && atr <= 0.0)
            && (r == Err(NonPositiveRisk) <==>
                  maxHold > 0 && entry < |bars| && atr > 0.0 && risk.stop.Distance(bars[entry].close, atr) == 0.0)
            && r != Err(NonPositiveStop)
  {
    hide EventOf, TouchOf;
  }
}
