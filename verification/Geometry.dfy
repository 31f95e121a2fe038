// Which stops and targets the search explores: the geometry each draw spells, and what a mutant or
// a cross takes over.
module Geometry {
  import opened Prelude
  import opened Risk
  import opened Genomes
  import opened Rng
  import opened GenomeOps
  import opened RiskSearch
  import opened Generation
  import opened Draws

  // The five multiples of the average range, and the four multiples of risk, a position picks.
  ghost predicate RangeMultiple(x: real, i: nat) {
    || (i == 0 && x == 0.5) || (i == 1 && x == 0.75) || (i == 2 && x == 1.0)
    || (i == 3 && x == 1.5) || (i == 4 && x == 2.0)
  }

  ghost predicate RiskMultiple(x: real, i: nat) {
    (i == 0 && x == 1.5) || (i == 1 && x == 2.0) || (i == 2 && x == 2.5) || (i == 3 && x == 3.0)
  }

  // A magnitude between three and five quarters of |v|, at the fraction the word gives; at least
  // one millionth.
  ghost predicate WithinQuarter(x: real, v: real, w: Word) {
    var u := (w / 2048) as real / UNITS;
    x == MaxReal(0.000001, 0.75 * Abs(v) + 0.5 * u * Abs(v))
  }

  // A stop of the same kind: in ranges at a listed multiple, otherwise near the old magnitude.
  ghost predicate Refreshed(x: StopSpec, stop: StopSpec, w: Word) {
    match stop
    case StopAtr(_) => x.StopAtr? && RangeMultiple(x.mult, w % 5)
    case StopFixed(v) => x.StopFixed? && WithinQuarter(x.dollars, v, w)
    case StopPercent(v) => x.StopPercent? && WithinQuarter(x.pct, v, w)
  }

  lemma JitterReads(v: real, s: Word)
    ensures WithinQuarter(Jitter(v, s).value, v, NextWord(s)) && Jitter(v, s).next == Advance(s, 1)
  {
    hide NextWord, DrawUnit;
    UnitReads(s);
    var u := DrawUnit(s).value;
    FractionOf(u, (NextWord(s) / 2048) as real);
    assert Abs(v) * (0.75 + 0.5 * u) == 0.75 * Abs(v) + 0.5 * u * Abs(v);
  }

  lemma RestopReads(stop: StopSpec, s: Word)
    ensures Refreshed(Restop(stop, s).value, stop, NextWord(s)) && Restop(stop, s).next == Advance(s, 1)
  {
    hide NextWord, DrawIndex, Jitter, WithinQuarter;
    match stop
    case StopAtr(_) => IndexReads(s, 5);
    case StopFixed(v) => JitterReads(v, s);
    case StopPercent(v) => JitterReads(v, s);
  }

  // One roll in three keeps the kind; otherwise a stop in ranges becomes one of one to three
  // percent, or of two to eight dollars, and any other becomes one in ranges.
  ghost predicate Rekinded(x: StopSpec, stop: StopSpec, roll: nat, w: Word) {
    var u := (w / 2048) as real / UNITS;
    if roll == 0 then Refreshed(x, stop, w)
    else if !stop.StopAtr? then x.StopAtr? && RangeMultiple(x.mult, w % 5)
    else if roll == 1 then x.StopPercent? && x.pct == 1.0 + 2.0 * u
    else x.StopFixed? && x.dollars == 2.0 + 6.0 * u
  }

  lemma SwapReads(stop: StopSpec, s: Word)
    ensures Rekinded(SwappedKind(stop, s).value, stop, Output(s, 0) % 3, Output(s, 1))
    ensures SwappedKind(stop, s).next == Advance(s, 2)
  {
    hide NextWord, DrawIndex, DrawUnit, Restop, Refreshed;
    ThreeOn(s);
    IndexReads(s, 3);
    var s1 := Advance(s, 1);
    RestopReads(stop, s1);
    IndexReads(s1, 5);
    UnitReads(s1);
    FractionOf(DrawUnit(s1).value, (NextWord(s1) / 2048) as real);
  }

  // A first target in multiples of risk, and a second, if any, one unit further but no further
  // than five.
  ghost predicate Aims(t1: TargetSpec, t2: Option<TargetSpec>, w: Word) {
    && t1.RMultiple? && RiskMultiple(t1.r, w % 4)
    && (t2.Some? ==> t2.value == RMultiple(MinReal(5.0, t1.r + 1.0)))
  }

  // A sampled geometry has the operator's kind of stop and both targets.
  lemma SampleReads(operator: RiskModel, s: Word)
    ensures var rm := Sampled(operator, s).value;
            && Refreshed(rm.stop, operator.stop, Output(s, 0))
            && rm.target2.Some? && Aims(rm.target1, rm.target2, Output(s, 1))
    ensures Sampled(operator, s).next == Advance(s, 2)
  {
    hide NextWord, DrawIndex, Restop, Refreshed;
    ThreeOn(s);
    RestopReads(operator.stop, s);
    IndexReads(Advance(s, 1), 4);
  }

  // A mutated geometry differs in one respect: a roll of zero refreshes the stop, one aims anew,
  // keeping a second target exactly where there was one, and two may change the stop's kind.
  ghost predicate Remade(x: RiskModel, rm: RiskModel, w0: Word, w1: Word, w2: Word) {
    if w0 % 3 == 0 then x == rm.(stop := x.stop) && Refreshed(x.stop, rm.stop, w1)
    else if w0 % 3 == 1 then
      x.stop == rm.stop && Aims(x.target1, x.target2, w1) && (x.target2.Some? <==> rm.target2.Some?)
    else x == rm.(stop := x.stop) && Rekinded(x.stop, rm.stop, w1 % 3, w2)
  }

  lemma MutationReads(rm: RiskModel, s: Word)
    ensures Remade(MutatedRisk(rm, s).value, rm, Output(s, 0), Output(s, 1), Output(s, 2))
  {
    hide NextWord, DrawIndex, Restop, SwappedKind, Refreshed, Rekinded;
    ThreeOn(s);
    IndexReads(s, 3);
    var s1 := Advance(s, 1);
    RestopReads(rm.stop, s1);
    IndexReads(s1, 4);
    ThreeOn(s1);
    SwapReads(rm.stop, s1);
    assert Advance(s1, 1) == Advance(s, 2);
  }

  // A crossed geometry takes its stop, its first and its second target each from one parent, the
  // first's on the lower half of a word of its own.
  lemma CrossReads(a: RiskModel, b: RiskModel, s: Word)
    ensures var x := CrossedRisk(a, b, s).value;
            && x.stop == (if Output(s, 0) < HALF then a else b).stop
            && x.target1 == (if Output(s, 1) < HALF then a else b).target1
            && x.target2 == (if Output(s, 2) < HALF then a else b).target2
  {
    hide NextWord, DrawChance;
    ThreeOn(s);
    EvenChanceIs(s);
    EvenChanceIs(Advance(s, 1));
    EvenChanceIs(Advance(s, 2));
  }

  // ---- offspring and seeds -----------------------------------------------------------------------

  // A mutant's conditions are mutated and, unless the geometry is locked, so is its parent's
  // geometry, from the words that follow.
  lemma MutantGeometry(plan: Plan, g: Genome, s: Word)
    ensures var m, x := Mutated(g, plan.catalog, s), Mutant(plan, g, s).value;
            && x == m.value.(risk := x.risk)
            && (plan.lockRisk ==> x.risk == m.value.risk)
            && (!plan.lockRisk ==>
                  Remade(x.risk, g.risk, Output(m.next, 0), Output(m.next, 1), Output(m.next, 2)))
  {
    hide Mutated, MutatedRisk, Remade, Output;
    MutationReads(g.risk, Mutated(g, plan.catalog, s).next);
  }

  // A cross carries the operator's geometry when it is locked, and otherwise its parents' crossed.
  lemma ChildGeometry(plan: Plan, a: Genome, b: Genome, s: Word)
    ensures var c, x := Crossed(a, b, s), Child(plan, a, b, s).value;
            && x == c.value.(risk := x.risk)
            && (plan.lockRisk ==> x.risk == plan.risk)
            && (!plan.lockRisk ==>
                  && x.risk.stop == (if Output(c.next, 0) < HALF then a else b).risk.stop
                  && x.risk.target1 == (if Output(c.next, 1) < HALF then a else b).risk.target1
                  && x.risk.target2 == (if Output(c.next, 2) < HALF then a else b).risk.target2)
  {
    hide Crossed, CrossedRisk, Output;
    CrossReads(a.risk, b.risk, Crossed(a, b, s).next);
  }

  // A fresh seed's geometry is the operator's when it is locked and a sample around it otherwise.
  lemma SeedGeometry(operator: RiskModel, lock: bool, s: Word)
    ensures var rm := SeedRisk(operator, lock, s).value;
            && (lock ==> rm == operator && SeedRisk(operator, lock, s).next == s)
            && (!lock ==> Refreshed(rm.stop, operator.stop, Output(s, 0)) && rm.target2.Some?
                          && Aims(rm.target1, rm.target2, Output(s, 1)))
  {
    hide Sampled, Refreshed, Aims, Output;
    SampleReads(operator, s);
  }
}
