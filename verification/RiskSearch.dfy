// Exploring the stop and target geometry alongside the entry conditions.
module RiskSearch {
  import opened Prelude
  import opened Arith
  import opened Risk
  import opened Rng

  const STOP_ATR_MULTS: seq<real> := [0.5, 0.75, 1.0, 1.5, 2.0]
  const TARGET_R_MULTS: seq<real> := [1.5, 2.0, 2.5, 3.0]

  // A magnitude within a quarter of the given one, kept strictly positive.
  function Jittered(v: real, u: real): real {
    MaxReal(Abs(v) * (0.75 + 0.5 * u), 0.000001)
  }

  function Jitter(v: real, s: Word): (d: Draw<real>)
    ensures d.value > 0.0
  {
    var u := DrawUnit(s);
    Draw(Jittered(v, u.value), u.next)
  }

  function ChooseStop(s: Word): (d: Draw<StopSpec>)
    ensures d.value.Magnitude() > 0.0
  {
    var i := DrawIndex(s, 5);
    Draw(StopAtr(STOP_ATR_MULTS[i.value]), i.next)
  }

  // The same kind of stop with a fresh magnitude.
  function Restop(stop: StopSpec, s: Word): (d: Draw<StopSpec>)
    ensures d.value.Magnitude() > 0.0
    ensures d.value.StopAtr? == stop.StopAtr? && d.value.StopFixed? == stop.StopFixed?
  {
    match stop
    case StopAtr(_) => ChooseStop(s)
    case StopFixed(dollars) => var j := Jitter(dollars, s); Draw(StopFixed(j.value), j.next)
    case StopPercent(pct) => var j := Jitter(pct, s); Draw(StopPercent(j.value), j.next)
  }

  // A draw over the three kinds; only a stop in ATRs can change to another kind both ways.
  function SwappedKind(stop: StopSpec, s: Word): (d: Draw<StopSpec>)
    ensures d.value.Magnitude() > 0.0
  {
    var roll := DrawIndex(s, 3);
    if roll.value == 0 then Restop(stop, roll.next)
    else if !stop.StopAtr? then ChooseStop(roll.next)
    else
      var u := DrawUnit(roll.next);
      if roll.value == 1 then Draw(StopPercent(1.0 + 2.0 * u.value), u.next)
      else Draw(StopFixed(2.0 + 6.0 * u.value), u.next)
  }

  // A first target in R and a second one step beyond it, below the ceiling.
  function ChooseTargetR(s: Word): (d: Draw<real>)
    ensures d.value in TARGET_R_MULTS
    ensures 1.5 <= d.value <= 3.0
  {
    var i := DrawIndex(s, 4);
    Draw(TARGET_R_MULTS[i.value], i.next)
  }

  function BeyondFirst(r: real): TargetSpec {
    RMultiple(MinReal(r + 1.0, 5.0))
  }

  function Sampled(operator: RiskModel, s: Word): Draw<RiskModel> {
    var stop := Restop(operator.stop, s);
    var r := ChooseTargetR(stop.next);
    Draw(RiskModel(stop.value, RMultiple(r.value), Some(BeyondFirst(r.value))), r.next)
  }

  function MutatedRisk(rm: RiskModel, s: Word): Draw<RiskModel> {
    var roll := DrawIndex(s, 3);
    if roll.value == 0 then
      var stop := Restop(rm.stop, roll.next);
      Draw(rm.(stop := stop.value), stop.next)
    else if roll.value == 1 then
      var r := ChooseTargetR(roll.next);
      Draw(rm.(target1 := RMultiple(r.value),
               target2 := if rm.target2.Some? then Some(BeyondFirst(r.value)) else None), r.next)
    else
      var stop := SwappedKind(rm.stop, roll.next);
      Draw(rm.(stop := stop.value), stop.next)
  }

  function CrossedRisk(a: RiskModel, b: RiskModel, s: Word): Draw<RiskModel> {
    var c1 := DrawChance(s, 0.5);
    var c2 := DrawChance(c1.next, 0.5);
    var c3 := DrawChance(c2.next, 0.5);
    Draw(RiskModel(if c1.value then a.stop else b.stop,
                   if c2.value then a.target1 else b.target1,
                   if c3.value then a.target2 else b.target2), c3.next)
  }

  function SeedRisk(operator: RiskModel, lock: bool, s: Word): Draw<RiskModel> {
    if lock then Draw(operator, s) else Sampled(operator, s)
  }

  // ---- as the source runs them ------------------------------------------------------

  method JitterWith(v: real, rng: Generator) returns (r: real)
    modifies rng
    ensures Draw(r, rng.state) == Jitter(v, old(rng.state))
  {
    hide DrawUnit, Jittered;
    var u := rng.Uniform();
    r := Jittered(v, u);
  }

  method MutateStop(stop: StopSpec, rng: Generator) returns (r: StopSpec)
    modifies rng
    ensures Draw(r, rng.state) == Restop(stop, old(rng.state))
  {
    hide DrawIndex, Jitter;
    match stop {
      case StopAtr(_) =>
        var i := rng.Below(5);
        r := StopAtr(STOP_ATR_MULTS[i]);
      case StopFixed(dollars) =>
        var j := JitterWith(dollars, rng);
        r := StopFixed(j);
      case StopPercent(pct) =>
        var j := JitterWith(pct, rng);
        r := StopPercent(j);
    }
  }

  method SwapStopKind(stop: StopSpec, rng: Generator) returns (r: StopSpec)
    modifies rng
    ensures Draw(r, rng.state) == SwappedKind(stop, old(rng.state))
  {
    hide DrawIndex, DrawUnit, Restop;
    var roll := rng.Below(3);
    if roll == 0 {
      r := MutateStop(stop, rng);
    } else if !stop.StopAtr? {
      var i := rng.Below(5);
      r := StopAtr(STOP_ATR_MULTS[i]);
    } else {
      var u := rng.Uniform();
      r := if roll == 1 then StopPercent(1.0 + 2.0 * u) else StopFixed(2.0 + 6.0 * u);
    }
  }

  method SampleRisk(operator: RiskModel, rng: Generator) returns (rm: RiskModel)
    modifies rng
    ensures Draw(rm, rng.state) == Sampled(operator, old(rng.state))
  {
    hide DrawIndex, Restop;
    var stop := MutateStop(operator.stop, rng);
    var i := rng.Below(4);
    var r1 := TARGET_R_MULTS[i];
    rm := RiskModel(stop, RMultiple(r1), Some(BeyondFirst(r1)));
  }

  method MutateRisk(rm: RiskModel, rng: Generator) returns (out: RiskModel)
    modifies rng
    ensures Draw(out, rng.state) == MutatedRisk(rm, old(rng.state))
  {
    hide DrawIndex, Restop, SwappedKind;
    out := rm;
    var roll := rng.Below(3);
    if roll == 0 {
      var stop := MutateStop(out.stop, rng);
      out := out.(stop := stop);
    } else if roll == 1 {
      var i := rng.Below(4);
      var r1 := TARGET_R_MULTS[i];
      out := out.(target1 := RMultiple(r1));
      if out.target2.Some? {
        out := out.(target2 := Some(BeyondFirst(r1)));
      }
    } else {
      var stop := SwapStopKind(out.stop, rng);
      out := out.(stop := stop);
    }
  }

  method CrossoverRisk(a: RiskModel, b: RiskModel, rng: Generator) returns (rm: RiskModel)
    modifies rng
    ensures Draw(rm, rng.state) == CrossedRisk(a, b, old(rng.state))
  {
    hide DrawChance;
    var c1 := rng.Chance(0.5);
    var c2 := rng.Chance(0.5);
    var c3 := rng.Chance(0.5);
    rm := RiskModel(if c1 then a.stop else b.stop, if c2 then a.target1 else b.target1,
                    if c3 then a.target2 else b.target2);
  }

  // ---- what the geometry keeps -----------------------------------------------------

  // Every explored geometry has a usable stop: sampling and mutating always give one, whatever
  // they start from, and crossover keeps its parents'.
  lemma StopsStayPositive(a: RiskModel, b: RiskModel, s: Word)
    ensures Sampled(a, s).value.StopPositive()
    ensures a.StopPositive() ==> MutatedRisk(a, s).value.StopPositive()
    ensures a.StopPositive() && b.StopPositive() ==> CrossedRisk(a, b, s).value.StopPositive()
  {
    hide DrawIndex, DrawChance, DrawUnit;
  }
}
