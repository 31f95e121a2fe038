// The triple-barrier labeler: first touch of target, stop or time, in units of risk.
module Labeler {
  import opened Prelude
  import opened Arith
  import opened Market
  import opened Risk

  datatype Outcome = Target | Stop | Time

  datatype LabelEvent = LabelEvent(
    entryTs: int, t1: int, side: Side, entryPx: real, targetPx: real, stopPx: real,
    outcome: Outcome, retR: real)

  datatype LabelError = EntryOutOfRange | NonPositiveAtr | NonPositiveStop | NonPositiveRisk | ZeroMaxHold

  predicate HitsTarget(b: Bar, targetPx: real, side: Side) {
    if side.Long? then b.high >= targetPx else b.low <= targetPx
  }

  predicate HitsStop(b: Bar, stopPx: real, side: Side) {
    if side.Long? then b.low <= stopPx else b.high >= stopPx
  }

  // The adverse barrier wins a bar that reaches both.
  function ResolveBar(b: Bar, targetPx: real, stopPx: real, side: Side): Option<Outcome> {
    if HitsStop(b, stopPx, side) then Some(Stop)
    else if HitsTarget(b, targetPx, side) then Some(Target)
    else None
  }

  datatype Touch = Touch(at: nat, outcome: Outcome)

  function FirstTouch(bars: seq<Bar>, j: nat, last: nat, targetPx: real, stopPx: real, side: Side): Option<Touch>
    requires last < |bars|
    decreases last + 1 - j
  {
    if j > last then None
    else
      match ResolveBar(bars[j], targetPx, stopPx, side)
      case Some(o) => Some(Touch(j, o))
      case None => FirstTouch(bars, j + 1, last, targetPx, stopPx, side)
  }

  // The last bar the time barrier lets a position live to.
  function LastIndex(n: nat, entry: nat, maxHold: nat): (last: nat)
    requires entry < n
    ensures entry <= last < n && last <= entry + maxHold
  {
    MinNat(entry + maxHold, n - 1)
  }

  function GeometryError(bars: seq<Bar>, entry: nat, atr: real, risk: RiskModel, maxHold: nat): Option<LabelError> {
    if maxHold < 1 then Some(ZeroMaxHold)
    else if entry >= |bars| then Some(EntryOutOfRange)
    else if atr <= 0.0 then Some(NonPositiveAtr)
    else if risk.RiskDistance(bars[entry].close, atr) <= 0.0 then Some(NonPositiveRisk)
    else None
  }

  // What an entry resolves to, as a function of the first touch.
  function EventOf(bars: seq<Bar>, entry: nat, side: Side, atr: real, risk: RiskModel, maxHold: nat,
                   touch: Option<Touch>): LabelEvent
    requires GeometryError(bars, entry, atr, risk, maxHold) == None
    requires touch.Some? ==> touch.value.at < |bars|
  {
    var e := bars[entry].close;
    var riskDist := risk.RiskDistance(e, atr);
    var targetDist := risk.target1.Distance(e, atr, riskDist);
    var last := LastIndex(|bars|, entry, maxHold);
    var exit := if touch.Some? then touch.value.at else last;
    var outcome := if touch.Some? then touch.value.outcome else Time;
    var retR := match outcome
      case Time => side.Sign() * (bars[last].close - e) / riskDist
      case Target => targetDist / riskDist
      case Stop => -1.0;
    LabelEvent(bars[entry].ts, bars[exit].ts, side, e, e + side.Sign() * targetDist,
               risk.StopPrice(e, atr, side), outcome, retR)
  }

  function TouchOf(bars: seq<Bar>, entry: nat, side: Side, atr: real, risk: RiskModel, maxHold: nat): Option<Touch>
    requires GeometryError(bars, entry, atr, risk, maxHold) == None
  {
    var e := bars[entry].close;
    var targetPx := e + side.Sign() * risk.target1.Distance(e, atr, risk.RiskDistance(e, atr));
    FirstTouch(bars, entry + 1, LastIndex(|bars|, entry, maxHold), targetPx, risk.StopPrice(e, atr, side), side)
  }

  function Label(bars: seq<Bar>, entry: nat, side: Side, atr: real, risk: RiskModel, maxHold: nat)
    : Result<LabelEvent, LabelError>
  {
    match GeometryError(bars, entry, atr, risk, maxHold)
    case Some(error) => Err(error)
    case None =>
      var touch := TouchOf(bars, entry, side, atr, risk, maxHold);
      TouchIsFirst(bars, entry, side, atr, risk, maxHold);
      Ok(EventOf(bars, entry, side, atr, risk, maxHold, touch))
  }

  method LabelOneWithRisk(bars: seq<Bar>, entry: nat, side: Side, atr: real, risk: RiskModel, maxHold: nat)
    returns (r: Result<LabelEvent, LabelError>)
    ensures r == Label(bars, entry, side, atr, risk, maxHold)
    ensures r.Ok? ==> exists exit :: IsLabel(bars, entry, side, atr, risk, maxHold, r.value, exit)
  {
    if maxHold < 1 {
      return Err(ZeroMaxHold);
    }
    if entry >= |bars| {
      return Err(EntryOutOfRange);
    }
    if atr <= 0.0 {
      return Err(NonPositiveAtr);
    }
    var s := side.Sign();
    var entryPx := bars[entry].close;
    var riskDist := risk.RiskDistance(entryPx, atr);
    if riskDist <= 0.0 {
      return Err(NonPositiveRisk);
    }
    var stopPx := risk.StopPrice(entryPx, atr, side);
    var targetPx := entryPx + s * risk.target1.Distance(entryPx, atr, riskDist);
    var last := LastIndex(|bars|, entry, maxHold);
    var resolved: Option<Touch> := None;
    for j := entry + 1 to last + 1
      invariant resolved == None
      invariant FirstTouch(bars, entry + 1, last, targetPx, stopPx, side)
             == FirstTouch(bars, j, last, targetPx, stopPx, side)
    {
      var o := ResolveBar(bars[j], targetPx, stopPx, side);
      if o.Some? {
        resolved := Some(Touch(j, o.value));
        break;
      }
    }
    assert resolved == TouchOf(bars, entry, side, atr, risk, maxHold);
    LabelMeetsSpec(bars, entry, side, atr, risk, maxHold);
    r := Ok(EventOf(bars, entry, side, atr, risk, maxHold, resolved));
  }

  // The legacy path: the profile's own geometry, with its own check of the stop multiple.
  function LabelOne(bars: seq<Bar>, entry: nat, side: Side, atr: real, profile: HorizonProfile)
    : Result<LabelEvent, LabelError>
  {
    if profile.stopAtrMult <= 0.0 then Err(NonPositiveStop)
    else Label(bars, entry, side, atr, FromProfile(profile), profile.maxHoldBars)
  }

  // ---- the declarative reading -----------------------------------------------

  ghost predicate Touches(b: Bar, targetPx: real, stopPx: real, side: Side) {
    HitsTarget(b, targetPx, side) || HitsStop(b, stopPx, side)
  }

  // The earliest bar after entry touching a barrier, the stop winning ties, else the time exit.
  ghost predicate IsLabel(bars: seq<Bar>, entry: nat, side: Side, atr: real, risk: RiskModel, maxHold: nat,
                          ev: LabelEvent, exit: nat)
  {
    && 1 <= maxHold && entry < |bars| && atr > 0.0
    && var e := bars[entry].close;
       var riskDist := risk.RiskDistance(e, atr);
       var targetDist := risk.target1.Distance(e, atr, riskDist);
       var last := LastIndex(|bars|, entry, maxHold);
    && riskDist > 0.0 && entry <= exit <= last
    && ev.entryTs == bars[entry].ts && ev.t1 == bars[exit].ts && ev.side == side && ev.entryPx == e
    && ev.targetPx == e + side.Sign() * targetDist && ev.stopPx == e - side.Sign() * riskDist
    && (forall j :: entry < j < exit ==> !Touches(bars[j], ev.targetPx, ev.stopPx, side))
    && (match ev.outcome
        case Stop => exit > entry && HitsStop(bars[exit], ev.stopPx, side) && ev.retR == -1.0
        case Target => exit > entry && HitsTarget(bars[exit], ev.targetPx, side)
                       && !HitsStop(bars[exit], ev.stopPx, side) && ev.retR == targetDist / riskDist
        case Time => exit == last && (exit > entry ==> !Touches(bars[exit], ev.targetPx, ev.stopPx, side))
                     && ev.retR == side.Sign() * (bars[exit].close - e) / riskDist)
  }

  lemma {:induction false} FirstTouchIsFirst(bars: seq<Bar>, j: nat, last: nat, targetPx: real, stopPx: real,
                                             side: Side)
    requires last < |bars|
    ensures var t := FirstTouch(bars, j, last, targetPx, stopPx, side);
            t.Some? ==>
              && j <= t.value.at <= last
              && t.value.outcome == (if HitsStop(bars[t.value.at], stopPx, side) then Stop else Target)
              && Touches(bars[t.value.at], targetPx, stopPx, side)
    ensures var t := FirstTouch(bars, j, last, targetPx, stopPx, side);
            var end := if t.Some? then t.value.at else last + 1;
            forall k :: j <= k < end ==> !Touches(bars[k], targetPx, stopPx, side)
    decreases last + 1 - j
  {
    if j <= last && ResolveBar(bars[j], targetPx, stopPx, side).None? {
      FirstTouchIsFirst(bars, j + 1, last, targetPx, stopPx, side);
    }
  }

  lemma TouchIsFirst(bars: seq<Bar>, entry: nat, side: Side, atr: real, risk: RiskModel, maxHold: nat)
    requires GeometryError(bars, entry, atr, risk, maxHold) == None
    ensures var t := TouchOf(bars, entry, side, atr, risk, maxHold);
            t.Some? ==> entry < t.value.at <= LastIndex(|bars|, entry, maxHold) && t.value.outcome != Time
  {
    var e := bars[entry].close;
    var targetPx := e + side.Sign() * risk.target1.Distance(e, atr, risk.RiskDistance(e, atr));
    FirstTouchIsFirst(bars, entry + 1, LastIndex(|bars|, entry, maxHold), targetPx,
                      risk.StopPrice(e, atr, side), side);
  }

  // Where the label ends.
  function ExitIndex(bars: seq<Bar>, entry: nat, side: Side, atr: real, risk: RiskModel, maxHold: nat): (exit: nat)
    requires GeometryError(bars, entry, atr, risk, maxHold) == None
    ensures entry <= exit <= LastIndex(|bars|, entry, maxHold)
  {
    var t := TouchOf(bars, entry, side, atr, risk, maxHold);
    TouchIsFirst(bars, entry, side, atr, risk, maxHold);
    if t.Some? then t.value.at else LastIndex(|bars|, entry, maxHold)
  }

  lemma LabelMeetsSpec(bars: seq<Bar>, entry: nat, side: Side, atr: real, risk: RiskModel, maxHold: nat)
    requires GeometryError(bars, entry, atr, risk, maxHold) == None
    ensures Label(bars, entry, side, atr, risk, maxHold).Ok?
    ensures IsLabel(bars, entry, side, atr, risk, maxHold,
                    Label(bars, entry, side, atr, risk, maxHold).value,
                    ExitIndex(bars, entry, side, atr, risk, maxHold))
  {
    var e := bars[entry].close;
    var targetPx := e + side.Sign() * risk.target1.Distance(e, atr, risk.RiskDistance(e, atr));
    FirstTouchIsFirst(bars, entry + 1, LastIndex(|bars|, entry, maxHold), targetPx,
                      risk.StopPrice(e, atr, side), side);
  }

  // The declarative reading has at most one solution, so it pins the label down completely.
  lemma SpecDeterminesLabel(bars: seq<Bar>, entry: nat, side: Side, atr: real, risk: RiskModel, maxHold: nat,
                            ev: LabelEvent, exit: nat)
    requires IsLabel(bars, entry, side, atr, risk, maxHold, ev, exit)
    ensures Label(bars, entry, side, atr, risk, maxHold) == Ok(ev)
  {
    LabelMeetsSpec(bars, entry, side, atr, risk, maxHold);
    SpecUnique(bars, entry, side, atr, risk, maxHold, ev, exit,
               Label(bars, entry, side, atr, risk, maxHold).value,
               ExitIndex(bars, entry, side, atr, risk, maxHold));
  }

  lemma SpecUnique(bars: seq<Bar>, entry: nat, side: Side, atr: real, risk: RiskModel, maxHold: nat,
                   ev: LabelEvent, exit: nat, ev': LabelEvent, exit': nat)
    requires IsLabel(bars, entry, side, atr, risk, maxHold, ev, exit)
    requires IsLabel(bars, entry, side, atr, risk, maxHold, ev', exit')
    ensures ev == ev'
  {
    var e := bars[entry].close;
    if exit < exit' {
      assert exit > entry ==> Touches(bars[exit], ev.targetPx, ev.stopPx, side);
    } else if exit' < exit {
      assert exit' > entry ==> Touches(bars[exit'], ev.targetPx, ev.stopPx, side);
    }
  }

  // With consistent quotes a label loses at most one unit of risk and gains at most the target's.
  lemma ReturnWithinBarriers(bars: seq<Bar>, entry: nat, side: Side, atr: real, risk: RiskModel, maxHold: nat)
    requires GeometryError(bars, entry, atr, risk, maxHold) == None && AllConsistent(bars)
    ensures var riskDist := risk.RiskDistance(bars[entry].close, atr);
            var r := Label(bars, entry, side, atr, risk, maxHold).value.retR;
            -1.0 <= r <= risk.target1.Distance(bars[entry].close, atr, riskDist) / riskDist
  {
    var e := bars[entry].close;
    var riskDist := risk.RiskDistance(e, atr);
    var targetDist := risk.target1.Distance(e, atr, riskDist);
    var ev := Label(bars, entry, side, atr, risk, maxHold).value;
    var exit := ExitIndex(bars, entry, side, atr, risk, maxHold);
    LabelMeetsSpec(bars, entry, side, atr, risk, maxHold);
    QuotientAbove(targetDist, riskDist, 0.0);
    if ev.outcome == Time {
      var move := side.Sign() * (bars[exit].close - e);
      assert -riskDist <= move <= targetDist by {
        assert bars[exit].Consistent();
      }
      QuotientRange(move, targetDist, riskDist);
    }
  }

  lemma QuotientRange(x: real, y: real, k: real)
    requires -k <= x <= y && k > 0.0
    ensures -1.0 <= x / k <= y / k
  {
    QuotientAbove(x, k, -1.0);
    QuotientOrder(x, y, k);
  }

  lemma QuotientOrder(x: real, y: real, k: real)
    requires x <= y && k > 0.0
    ensures x / k <= y / k
  {
    QuotientTimes(y, k);
    QuotientBelow(x, k, y / k);
  }

  // ---- reflection ---------------------------------------------------------------

  function Mirror(b: Bar, about: real): Bar {
    var m := 2.0 * about;
    Bar(b.ts, m - b.open, m - b.low, m - b.high, m - b.close, b.volume)
  }

  function MirrorBars(bars: seq<Bar>, about: real): (r: seq<Bar>)
    ensures |r| == |bars|
  {
    seq(|bars|, i requires 0 <= i < |bars| => Mirror(bars[i], about))
  }

  lemma {:induction false} FirstTouchMirrors(bars: seq<Bar>, about: real, j: nat, last: nat,
                                             targetPx: real, stopPx: real, side: Side)
    requires last < |bars|
    ensures FirstTouch(MirrorBars(bars, about), j, last, 2.0 * about - targetPx, 2.0 * about - stopPx, side.Opposite())
         == FirstTouch(bars, j, last, targetPx, stopPx, side)
    decreases last + 1 - j
  {
    if j <= last {
      FirstTouchMirrors(bars, about, j + 1, last, targetPx, stopPx, side);
    }
  }

  // Long on a price path and short on its reflection about the entry close are the same trade.
  lemma ReflectionSwapsSides(bars: seq<Bar>, entry: nat, side: Side, atr: real, risk: RiskModel, maxHold: nat)
    requires GeometryError(bars, entry, atr, risk, maxHold) == None
    ensures var e := bars[entry].close;
            var a := Label(bars, entry, side, atr, risk, maxHold).value;
            var mirrored := a.(side := side.Opposite(), targetPx := 2.0 * e - a.targetPx, stopPx := 2.0 * e - a.stopPx);
            Label(MirrorBars(bars, e), entry, side.Opposite(), atr, risk, maxHold) == Ok(mirrored)
  {
    var e := bars[entry].close;
    var riskDist := risk.RiskDistance(e, atr);
    var targetPx := e + side.Sign() * risk.target1.Distance(e, atr, riskDist);
    var last := LastIndex(|bars|, entry, maxHold);
    FirstTouchMirrors(bars, e, entry + 1, last, targetPx, risk.StopPrice(e, atr, side), side);
    TouchIsFirst(bars, entry, side, atr, risk, maxHold);
  }

  // ---- dependence on later bars ----------------------------------------------------

  // The two series share every bar before k, and all their timestamps.
  ghost predicate AgreeBefore(a: seq<Bar>, b: seq<Bar>, k: nat) {
    && |a| == |b|
    && (forall i :: 0 <= i < |a| ==> a[i].ts == b[i].ts)
    && forall i :: 0 <= i < |a| && i < k ==> a[i] == b[i]
  }

  lemma {:induction false} FirstTouchLocal(a: seq<Bar>, b: seq<Bar>, k: nat, j: nat, last: nat,
                                           targetPx: real, stopPx: real, side: Side)
    requires AgreeBefore(a, b, k) && last < |a|
    ensures var t := FirstTouch(a, j, last, targetPx, stopPx, side);
            var end := if t.Some? then t.value.at else last;
            end < k ==> FirstTouch(b, j, last, targetPx, stopPx, side) == t
    decreases last + 1 - j
  {
    if j <= last {
      FirstTouchLocal(a, b, k, j + 1, last, targetPx, stopPx, side);
      FirstTouchIsFirst(a, j + 1, last, targetPx, stopPx, side);
    }
  }

  lemma GeometryLocal(a: seq<Bar>, b: seq<Bar>, k: nat, entry: nat, atr: real, risk: RiskModel, maxHold: nat)
    requires AgreeBefore(a, b, k) && entry < k
    ensures GeometryError(a, entry, atr, risk, maxHold) == GeometryError(b, entry, atr, risk, maxHold)
  {
  }

  // A label that ends before bar k is decided by the bars before k.
  lemma LabelLocal(a: seq<Bar>, b: seq<Bar>, k: nat, entry: nat, side: Side, atr: real, risk: RiskModel, maxHold: nat)
    requires AgreeBefore(a, b, k) && entry < k
    requires GeometryError(a, entry, atr, risk, maxHold) == None
    requires ExitIndex(a, entry, side, atr, risk, maxHold) < k
    ensures Label(b, entry, side, atr, risk, maxHold) == Label(a, entry, side, atr, risk, maxHold)
    ensures ExitIndex(b, entry, side, atr, risk, maxHold) == ExitIndex(a, entry, side, atr, risk, maxHold)
  {
    var e := a[entry].close;
    var targetPx := e + side.Sign() * risk.target1.Distance(e, atr, risk.RiskDistance(e, atr));
    GeometryLocal(a, b, k, entry, atr, risk, maxHold);
    TouchIsFirst(a, entry, side, atr, risk, maxHold);
    FirstTouchLocal(a, b, k, entry + 1, LastIndex(|a|, entry, maxHold), targetPx, risk.StopPrice(e, atr, side), side);
  }

  lemma {:induction false} FirstTouchForward(a: seq<Bar>, b: seq<Bar>, j: nat, last: nat,
                                             targetPx: real, stopPx: real, side: Side)
    requires last < |a| == |b| && forall i :: j <= i < |a| ==> a[i] == b[i]
    ensures FirstTouch(a, j, last, targetPx, stopPx, side) == FirstTouch(b, j, last, targetPx, stopPx, side)
    decreases last + 1 - j
  {
    if j <= last {
      FirstTouchForward(a, b, j + 1, last, targetPx, stopPx, side);
    }
  }

  // A label looks only forward: it depends on the bars from its entry on.
  lemma LabelForward(a: seq<Bar>, b: seq<Bar>, entry: nat, side: Side, atr: real, risk: RiskModel, maxHold: nat)
    requires |a| == |b| && forall i :: entry <= i < |a| ==> a[i] == b[i]
    ensures Label(a, entry, side, atr, risk, maxHold) == Label(b, entry, side, atr, risk, maxHold)
  {
    if GeometryError(a, entry, atr, risk, maxHold) == None {
      var e := a[entry].close;
      var targetPx := e + side.Sign() * risk.target1.Distance(e, atr, risk.RiskDistance(e, atr));
      FirstTouchForward(a, b, entry + 1, LastIndex(|a|, entry, maxHold), targetPx, risk.StopPrice(e, atr, side), side);
      TouchIsFirst(a, entry, side, atr, risk, maxHold);
    }
  }

  // ---- the legacy path ---------------------------------------------------------------

  // The legacy path rejects exactly the profiles without a positive stop multiple as such, and
  // when it labels a touched target the return is the profile's target-to-stop ratio, whatever
  // the price and volatility.
  lemma LegacyLabels(bars: seq<Bar>, entry: nat, side: Side, atr: real, profile: HorizonProfile)
    ensures LabelOne(bars, entry, side, atr, profile) == Err(NonPositiveStop) <==> profile.stopAtrMult <= 0.0
    ensures var r := LabelOne(bars, entry, side, atr, profile);
            r.Ok? && r.value.outcome == Target ==> r.value.retR == Abs(profile.targetAtrMult) / profile.stopAtrMult
  {
    hide FromProfile, TouchOf;
    var r := LabelOne(bars, entry, side, atr, profile);
    if r.Ok? && r.value.outcome == Target {
      LegacyRatio(profile, bars[entry].close, atr);
    }
  }

  lemma LegacyRatio(profile: HorizonProfile, e: real, atr: real)
    requires profile.stopAtrMult > 0.0 && atr > 0.0
    ensures var risk := FromProfile(profile);
            var d := risk.RiskDistance(e, atr);
            d > 0.0 && risk.target1.Distance(e, atr, d) / d == Abs(profile.targetAtrMult) / profile.stopAtrMult
  {
    AbsProduct(profile.targetAtrMult, atr);
    AbsProduct(profile.stopAtrMult, atr);
    CancelVolatility(Abs(profile.targetAtrMult), profile.stopAtrMult, atr);
  }

  lemma CancelVolatility(t: real, s: real, a: real)
    requires s > 0.0 && a > 0.0
    ensures s * a > 0.0 && (t * a) / (s * a) == t / s
  {
    PositiveProduct(s, a);
    var q := t / s;
    QuotientTimes(t, s);
    assert t * a == (q * s) * a;
    assert (q * s) * a == (s * a) * q;
    QuotientBelow(t * a, s * a, q);
    QuotientAbove(t * a, s * a, q);
  }
}
