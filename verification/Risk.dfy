// Stop and target geometry, and the horizon profiles it defaults to.
module Risk {
  import opened Prelude
  import opened Arith
  import opened Market

  datatype StopSpec = StopAtr(mult: real) | StopFixed(dollars: real) | StopPercent(pct: real) {
    // Distance from the entry in price units.
    function Distance(entry: real, atr: real): (d: real)
      ensures d >= 0.0
    {
      match this
      case StopAtr(mult) => Abs(mult * atr)
      case StopFixed(dollars) => Abs(dollars)
      case StopPercent(pct) => Abs(pct / 100.0 * entry)
    }

    function Magnitude(): real {
      match this
      case StopAtr(mult) => mult
      case StopFixed(dollars) => dollars
      case StopPercent(pct) => pct
    }
  }

  datatype TargetSpec =
    | TargetAtr(mult: real) | TargetFixed(dollars: real) | TargetPercent(pct: real) | RMultiple(r: real)
  {
    function Distance(entry: real, atr: real, riskDist: real): (d: real)
      ensures d >= 0.0
    {
      match this
      case TargetAtr(mult) => Abs(mult * atr)
      case TargetFixed(dollars) => Abs(dollars)
      case TargetPercent(pct) => Abs(pct / 100.0 * entry)
      case RMultiple(r) => Abs(r * riskDist)
    }
  }

  datatype RiskModel = RiskModel(stop: StopSpec, target1: TargetSpec, target2: Option<TargetSpec>) {
    function RiskDistance(entry: real, atr: real): (d: real)
      ensures d >= 0.0
    {
      stop.Distance(entry, atr)
    }

    function StopPrice(entry: real, atr: real, side: Side): real {
      entry - side.Sign() * stop.Distance(entry, atr)
    }

    function TargetPrices(entry: real, atr: real, side: Side): (real, Option<real>) {
      var risk := RiskDistance(entry, atr);
      (entry + side.Sign() * target1.Distance(entry, atr, risk),
       match target2
       case None => None
       case Some(t) => Some(entry + side.Sign() * t.Distance(entry, atr, risk)))
    }

    // A stop of positive magnitude.
    predicate StopPositive() {
      stop.Magnitude() > 0.0
    }
  }

  // A stop defines a unit of risk exactly when its magnitude, of either sign, is not zero.
  lemma PositiveStopDistance(risk: RiskModel, entry: real, atr: real)
    requires entry > 0.0 && atr > 0.0
    ensures risk.RiskDistance(entry, atr) > 0.0 <==> risk.stop.Magnitude() != 0.0
  {
    match risk.stop
    case StopAtr(mult) => NonZeroScaled(mult, atr);
    case StopFixed(dollars) =>
    case StopPercent(pct) => NonZeroScaled(pct / 100.0, entry);
  }

  lemma NonZeroScaled(x: real, y: real)
    requires y > 0.0
    ensures Abs(x * y) > 0.0 <==> x != 0.0
  {
    AbsProduct(x, y);
    if x != 0.0 {
      PositiveProduct(Abs(x), y);
    }
  }

  datatype HorizonProfile = HorizonProfile(
    horizon: Horizon, minHoldBars: nat, maxHoldBars: nat,
    targetAtrMult: real, stopAtrMult: real)
  {
    // The cross-validation purge length is the label horizon.
    function PurgeBars(): nat {
      maxHoldBars
    }
  }

  function ProfileFor(h: Horizon): HorizonProfile {
    match h
    case Swing => HorizonProfile(Swing, 2, 15, 2.0, 1.0)
    case ShortSwing => HorizonProfile(ShortSwing, 2, 8, 1.5, 0.8)
    case Day => HorizonProfile(Day, 2, 13, 1.2, 0.7)
    case ZeroDte => HorizonProfile(ZeroDte, 1, 12, 1.0, 0.6)
    case Scalp => HorizonProfile(Scalp, 1, 10, 0.8, 0.5)
  }

  function FromProfile(p: HorizonProfile): RiskModel {
    var r1 := if p.stopAtrMult > 0.0 then p.targetAtrMult / p.stopAtrMult else 2.0;
    RiskModel(StopAtr(p.stopAtrMult), TargetAtr(p.targetAtrMult), Some(RMultiple(r1 * 1.6)))
  }

  // An R-multiple target is worth the same number of R whatever the price or volatility.
  lemma RMultipleIsVolatilityFree(risk: RiskModel, entry: real, atr: real)
    requires risk.target1.RMultiple? && risk.target1.r >= 0.0
    requires risk.RiskDistance(entry, atr) > 0.0
    ensures risk.target1.Distance(entry, atr, risk.RiskDistance(entry, atr)) / risk.RiskDistance(entry, atr)
         == risk.target1.r
  {
    var d, r := risk.RiskDistance(entry, atr), risk.target1.r;
    NonNegativeProduct(r, d);
    QuotientOfProduct(r, d);
  }

  lemma QuotientOfProduct(r: real, d: real)
    requires d > 0.0
    ensures (r * d) / d == r
  {
  }

  lemma AbsProduct(x: real, y: real)
    ensures Abs(x * y) == Abs(x) * Abs(y)
  {
    if x >= 0.0 && y >= 0.0 {
      NonNegativeProduct(x, y);
    } else if x >= 0.0 {
      NonNegativeProduct(x, -y);
    } else if y >= 0.0 {
      NonNegativeProduct(-x, y);
    } else {
      SameSignProduct(x, y);
    }
  }

  // On a profile's own geometry the second target lies 1.6 times as far out as the first, on the
  // same side.
  lemma LegacySecondTarget(p: HorizonProfile, entry: real, atr: real, side: Side)
    requires p.stopAtrMult > 0.0
    ensures var t := FromProfile(p).TargetPrices(entry, atr, side);
            t.1 == Some(entry + 1.6 * (t.0 - entry))
  {
    hide FromProfile, TargetSpec.Distance;
    var rm := FromProfile(p);
    var d := rm.RiskDistance(entry, atr);
    LegacyDistances(p, entry, atr);
    SignedMultiple(side, entry, rm.target1.Distance(entry, atr, d), rm.target2.value.Distance(entry, atr, d));
  }

  lemma LegacyDistances(p: HorizonProfile, entry: real, atr: real)
    requires p.stopAtrMult > 0.0
    ensures var rm := FromProfile(p);
            var d := rm.RiskDistance(entry, atr);
            rm.target2.Some? && rm.target2.value.Distance(entry, atr, d) == 1.6 * rm.target1.Distance(entry, atr, d)
  {
    var t, s, a := p.targetAtrMult, p.stopAtrMult, Abs(atr);
    var q := t / s * 1.6;
    var product := q * (s * a);
    assert FromProfile(p).RiskDistance(entry, atr) == s * a by {
      AbsProduct(s, atr);
    }
    assert FromProfile(p).target2 == Some(RMultiple(q));
    LegacyDistance(t, s, a, q);
    AbsProduct(t, atr);
    ScaledAbs(t, a, product);
  }

  lemma ScaledAbs(t: real, a: real, product: real)
    requires a >= 0.0 && product == 1.6 * t * a
    ensures Abs(product) == 1.6 * (Abs(t) * a)
  {
    var x := t * a;
    AbsProduct(t, a);
    assert product == 1.6 * x;
  }

  lemma LegacyDistance(t: real, s: real, a: real, q: real)
    requires s > 0.0 && q == t / s * 1.6
    ensures q * (s * a) == 1.6 * t * a
  {
    var r := t / s;
    QuotientTimes(t, s);
    Associate(q, s, a);
    assert q * s == 1.6 * (r * s);
  }

  lemma SignedMultiple(side: Side, entry: real, near: real, far: real)
    requires far == 1.6 * near
    ensures entry + side.Sign() * far == entry + 1.6 * (entry + side.Sign() * near - entry)
  {
  }
}
