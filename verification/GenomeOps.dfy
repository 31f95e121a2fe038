// Mutation and crossover of genomes over the observed catalog.
module GenomeOps {
  import opened Prelude
  import opened Arith
  import opened Sorting
  import opened Market
  import opened Risk
  import opened Genomes
  import opened Rng
  import opened Catalog
  import opened Drawing

  const ALL_LAYERS: seq<Layer> := [Tradeability, Regime, Location, Trigger, Event]

  predicate KeyElsewhere(ps: seq<Predicate>, i: nat, key: string) {
    exists j :: 0 <= j < |ps| && j != i && ps[j].key == key
  }

  // How many leading values lie below the threshold.
  function RankOf(values: seq<real>, threshold: real): (r: nat)
    ensures r <= |values|
  {
    if values == [] || values[0] >= threshold then 0 else 1 + RankOf(values[1..], threshold)
  }

  // ---- the eight operators, on the conditions --------------------------------------

  // The current rank as a fraction, moved by at most half the span either way.
  function NudgedQuantile(p: Predicate, stat: FeatureStat, span: real, u: real): real
    requires |stat.values| >= 2
  {
    var rank := RankOf(stat.values, p.threshold) as real / (|stat.values| as real - 1.0);
    Clamp(rank + (u - 0.5) * span, 0.0, 1.0)
  }

  // The nudge lands on an observed value.
  function Perturbed(p: Predicate, stat: FeatureStat, span: real, s: Word): (d: Draw<Predicate>)
    ensures d.value == p || (d.value.threshold in stat.values && d.value == p.(threshold := d.value.threshold))
  {
    if |stat.values| < 2 then Draw(p, s)
    else
      var u := DrawUnit(s);
      match stat.Quantile(NudgedQuantile(p, stat, span, u.value))
      case Some(t) => Draw(p.(threshold := t), u.next)
      case None => Draw(p, u.next)
  }

  function PerturbOne(ps: seq<Predicate>, cat: seq<FeatureStat>, span: real, s: Word): Draw<seq<Predicate>> {
    if ps == [] then Draw(ps, s)
    else
      var i := DrawIndex(s, |ps|);
      match StatFor(cat, ps[i.value].key)
      case None => Draw(ps, i.next)
      case Some(stat) =>
        var d := Perturbed(ps[i.value], stat, span, i.next);
        Draw(ps[i.value := d.value], d.next)
  }

  function FlipOne(ps: seq<Predicate>, s: Word): Draw<seq<Predicate>> {
    if ps == [] then Draw(ps, s)
    else
      var i := DrawIndex(s, |ps|);
      Draw(ps[i.value := ps[i.value].(op := ps[i.value].op.Flip())], i.next)
  }

  // Put a drawn condition in place of the i-th unless its feature is already used elsewhere.
  function Replaced(ps: seq<Predicate>, i: nat, p: Option<Predicate>): seq<Predicate>
    requires i < |ps|
  {
    if p.Some? && !KeyElsewhere(ps, i, p.value.key) then ps[i := p.value] else ps
  }

  function Appended(ps: seq<Predicate>, p: Option<Predicate>): seq<Predicate> {
    if p.Some? && !KeyUsed(ps, p.value.key) then ps + [p.value] else ps
  }

  function SwapOne(ps: seq<Predicate>, cat: seq<FeatureStat>, s: Word): Draw<seq<Predicate>> {
    if ps == [] then Draw(ps, s)
    else
      var i := DrawIndex(s, |ps|);
      var d := DrawFrom(cat, i.next);
      Draw(Replaced(ps, i.value, d.value), d.next)
  }

  function AddOne(ps: seq<Predicate>, cat: seq<FeatureStat>, s: Word): Draw<seq<Predicate>> {
    if |ps| >= MAX_PREDICATES then Draw(ps, s)
    else
      var d := DrawFrom(cat, s);
      Draw(Appended(ps, d.value), d.next)
  }

  function RemoveOne(ps: seq<Predicate>, s: Word): Draw<seq<Predicate>> {
    if |ps| <= 1 then Draw(ps, s)
    else
      var i := DrawIndex(s, |ps|);
      Draw(Without(ps, i.value), i.next)
  }

  predicate HasLayer(ps: seq<Predicate>, layer: Layer) {
    exists i :: 0 <= i < |ps| && ps[i].layer == layer
  }

  // Layers with observed features that satisfy the test, in the fixed order.
  function SuppliedLayers(cat: seq<FeatureStat>, wanted: Layer -> bool): seq<Layer> {
    Filter(ALL_LAYERS, (l: Layer) => wanted(l) && StatsIn(cat, {l}) != [])
  }

  function AddMissingLayer(ps: seq<Predicate>, cat: seq<FeatureStat>, s: Word): Draw<seq<Predicate>> {
    if |ps| >= MAX_PREDICATES then Draw(ps, s)
    else
      var missing := SuppliedLayers(cat, (l: Layer) => !HasLayer(ps, l));
      if missing == [] then Draw(ps, s)
      else
        var l := DrawIndex(s, |missing|);
        var d := DrawFrom(StatsIn(cat, {missing[l.value]}), l.next);
        Draw(Appended(ps, d.value), d.next)
  }

  function SwapToOtherLayer(ps: seq<Predicate>, cat: seq<FeatureStat>, s: Word): Draw<seq<Predicate>> {
    if ps == [] then Draw(ps, s)
    else
      var i := DrawIndex(s, |ps|);
      var current := ps[i.value].layer;
      var targets := SuppliedLayers(cat, (l: Layer) => l != current);
      if targets == [] then Draw(ps, i.next)
      else
        var l := DrawIndex(i.next, |targets|);
        var d := DrawFrom(StatsIn(cat, {targets[l.value]}), l.next);
        Draw(Replaced(ps, i.value, d.value), d.next)
  }

  const FINE_SPAN := 0.30
  const BOLD_SPAN := 0.80

  function Operated(roll: nat, ps: seq<Predicate>, cat: seq<FeatureStat>, s: Word): Draw<seq<Predicate>> {
    if roll == 0 then PerturbOne(ps, cat, FINE_SPAN, s)
    else if roll == 1 then FlipOne(ps, s)
    else if roll == 2 then SwapOne(ps, cat, s)
    else if roll == 3 then AddOne(ps, cat, s)
    else if roll == 4 then RemoveOne(ps, s)
    else if roll == 5 then AddMissingLayer(ps, cat, s)
    else if roll == 6 then SwapToOtherLayer(ps, cat, s)
    else PerturbOne(ps, cat, BOLD_SPAN, s)
  }

  function Mutated(g: Genome, cat: seq<FeatureStat>, s: Word): Draw<Genome> {
    if cat == [] then Draw(g, s)
    else
      var roll := DrawIndex(s, 8);
      var d := Operated(roll.value, g.predicates, cat, roll.next);
      Draw(if d.value == [] then g else g.(predicates := d.value), d.next)
  }

  // ---- the operators as the source runs them ---------------------------------------

  method PerturbThreshold(p: Predicate, stat: FeatureStat, span: real, rng: Generator) returns (r: Predicate)
    modifies rng
    ensures Draw(r, rng.state) == Perturbed(p, stat, span, old(rng.state))
  {
    hide DrawUnit, NudgedQuantile;
    r := p;
    if |stat.values| < 2 {
      return;
    }
    var u := rng.Uniform();
    var t := stat.Quantile(NudgedQuantile(p, stat, span, u));
    if t.Some? {
      r := r.(threshold := t.value);
    }
  }

  method Mutate(g: Genome, cat: seq<FeatureStat>, rng: Generator) returns (m: Genome)
    modifies rng
    ensures Draw(m, rng.state) == Mutated(g, cat, old(rng.state))
  {
    hide DrawIndex, DrawFrom, Perturbed;
    if cat == [] {
      return g;
    }
    var roll := rng.Below(8);
    var ps := Operate(roll, g.predicates, cat, rng);
    m := if ps == [] then g else g.(predicates := ps);
  }

  method Operate(roll: nat, predicates: seq<Predicate>, cat: seq<FeatureStat>, rng: Generator)
    returns (ps: seq<Predicate>)
    modifies rng
    ensures Draw(ps, rng.state) == Operated(roll, predicates, cat, old(rng.state))
  {
    hide DrawIndex, DrawFrom, Perturbed, SuppliedLayers;
    ps := predicates;
    match roll {
      case 0 =>
        ps := PerturbAt(ps, cat, FINE_SPAN, rng);
      case 1 =>
        if ps != [] {
          var i := rng.Below(|ps|);
          ps := ps[i := ps[i].(op := ps[i].op.Flip())];
        }
      case 2 =>
        if ps != [] {
          var i := rng.Below(|ps|);
          var p := DrawPredicate(cat, rng);
          ps := Replaced(ps, i, p);
        }
      case 3 =>
        if |ps| < MAX_PREDICATES {
          var p := DrawPredicate(cat, rng);
          ps := Appended(ps, p);
        }
      case 4 =>
        if |ps| > 1 {
          var i := rng.Below(|ps|);
          ps := Without(ps, i);
        }
      case 5 =>
        if |ps| < MAX_PREDICATES {
          var missing := SuppliedLayers(cat, (l: Layer) => !HasLayer(predicates, l));
          if missing != [] {
            var l := rng.Below(|missing|);
            var p := DrawPredicate(StatsIn(cat, {missing[l]}), rng);
            ps := Appended(ps, p);
          }
        }
      case 6 =>
        if ps != [] {
          var i := rng.Below(|ps|);
          var current := ps[i].layer;
          var targets := SuppliedLayers(cat, (l: Layer) => l != current);
          if targets != [] {
            var l := rng.Below(|targets|);
            var p := DrawPredicate(StatsIn(cat, {targets[l]}), rng);
            ps := Replaced(ps, i, p);
          }
        }
      case _ =>
        ps := PerturbAt(ps, cat, BOLD_SPAN, rng);
    }
  }

  method PerturbAt(ps: seq<Predicate>, cat: seq<FeatureStat>, span: real, rng: Generator)
    returns (r: seq<Predicate>)
    modifies rng
    ensures Draw(r, rng.state) == PerturbOne(ps, cat, span, old(rng.state))
  {
    hide DrawIndex, Perturbed;
    r := ps;
    if ps != [] {
      var i := rng.Below(|ps|);
      var stat := StatFor(cat, ps[i].key);
      if stat.Some? {
        var p := PerturbThreshold(ps[i], stat.value, span, rng);
        r := ps[i := p];
      }
    }
  }

  // ---- crossover ----------------------------------------------------------------------

  function Admit(acc: seq<Predicate>, p: Predicate): seq<Predicate> {
    if KeyUsed(acc, p.key) then acc else acc + [p]
  }

  // Take conditions over new features in order, until there are `cap` of them.
  function Gathered(src: seq<Predicate>, acc: seq<Predicate>, cap: nat): seq<Predicate> {
    if src == [] || |acc| >= cap then acc else Gathered(src[1..], Admit(acc, src[0]), cap)
  }

  // A drawn prefix of the first parent, then the second parent's conditions while there is room.
  function Crossed(a: Genome, b: Genome, s: Word): Draw<Genome> {
    var cut := if a.predicates == [] then Draw(0, s)
               else var i := DrawIndex(s, |a.predicates|); Draw(1 + i.value, i.next);
    var ps := Gathered(b.predicates, Gathered(a.predicates[..cut.value], [], cut.value), MAX_PREDICATES);
    Draw(if ps == [] then a else NewGenome(a.side, a.horizon, ps), cut.next)
  }

  method Gather(src: seq<Predicate>, start: seq<Predicate>, cap: nat) returns (acc: seq<Predicate>)
    ensures acc == Gathered(src, start, cap)
  {
    acc := start;
    var used := set p | p in start :: p.key;
    for i := 0 to |src|
      invariant Gathered(src, start, cap) == Gathered(src[i..], acc, cap)
      invariant forall k :: k in used <==> KeyUsed(acc, k)
    {
      if |acc| >= cap {
        return;
      }
      if src[i].key !in used {
        AdmitKeys(acc, src[i]);
        used := used + {src[i].key};
        acc := acc + [src[i]];
      }
    }
  }

  lemma AdmitKeys(acc: seq<Predicate>, p: Predicate)
    ensures forall k :: KeyUsed(acc + [p], k) <==> KeyUsed(acc, k) || k == p.key
  {
    forall k ensures KeyUsed(acc + [p], k) <==> KeyUsed(acc, k) || k == p.key {
      if KeyUsed(acc, k) {
        var i :| 0 <= i < |acc| && acc[i].key == k;
        assert (acc + [p])[i].key == k;
      }
      assert (acc + [p])[|acc|] == p;
    }
  }

  method Crossover(a: Genome, b: Genome, rng: Generator) returns (c: Genome)
    modifies rng
    ensures Draw(c, rng.state) == Crossed(a, b, old(rng.state))
  {
    hide DrawIndex, Gathered, NewGenome;
    var cut := 0;
    if a.predicates != [] {
      var i := rng.Below(|a.predicates|);
      cut := 1 + i;
    }
    var ps := Gather(a.predicates[..cut], [], cut);
    ps := Gather(b.predicates, ps, MAX_PREDICATES);
    c := if ps == [] then a else NewGenome(a.side, a.horizon, ps);
  }

  // ---- what the operators keep ----------------------------------------------------------

  lemma ReplacedIsValid(ps: seq<Predicate>, i: nat, p: Option<Predicate>, cat: seq<FeatureStat>)
    requires ValidPredicates(ps, cat) && i < |ps| && (p.Some? ==> Observed(p.value, cat))
    ensures ValidPredicates(Replaced(ps, i, p), cat)
  {
    hide Observed;
    if p.Some? && !KeyElsewhere(ps, i, p.value.key) {
      var qs := ps[i := p.value];
      assert forall j :: 0 <= j < |ps| && j != i ==> ps[j].key != p.value.key;
      assert forall j :: 0 <= j < |qs| ==> qs[j] == if j == i then p.value else ps[j];
    }
  }

  lemma AppendedIsValid(ps: seq<Predicate>, p: Option<Predicate>, cat: seq<FeatureStat>)
    requires ValidPredicates(ps, cat) && (p.Some? ==> Observed(p.value, cat))
    ensures ValidPredicates(Appended(ps, p), cat)
  {
    hide Observed;
    if p.Some? && !KeyUsed(ps, p.value.key) {
      assert forall j :: 0 <= j < |ps| ==> ps[j].key != p.value.key;
    }
  }

  lemma WithoutIsValid(ps: seq<Predicate>, i: nat, cat: seq<FeatureStat>)
    requires ValidPredicates(ps, cat) && i < |ps|
    ensures ValidPredicates(Without(ps, i), cat)
  {
    hide Observed;
    assert forall j :: 0 <= j < |ps| - 1 ==> Without(ps, i)[j] == ps[if j < i then j else j + 1];
  }

  // A change that keeps the key keeps a condition's place in the genome.
  lemma RekeyedIsValid(ps: seq<Predicate>, i: nat, p: Predicate, cat: seq<FeatureStat>)
    requires ValidPredicates(ps, cat) && i < |ps| && p.key == ps[i].key && Observed(p, cat)
    ensures ValidPredicates(ps[i := p], cat)
  {
    hide Observed;
    assert forall j :: 0 <= j < |ps| ==> ps[i := p][j].key == ps[j].key;
  }

  lemma PerturbedIsObserved(p: Predicate, cat: seq<FeatureStat>, stat: FeatureStat, span: real, s: Word)
    requires ValidCatalog(cat) && Observed(p, cat) && stat in cat && stat.key == p.key
    ensures Observed(Perturbed(p, stat, span, s).value, cat)
  {
    var i :| 0 <= i < |cat| && cat[i].key == p.key && cat[i].layer == p.layer && p.threshold in cat[i].values;
    var j :| 0 <= j < |cat| && cat[j] == stat;
    assert ValidStat(cat[i]) && ValidStat(cat[j]);
    hide Perturbed, LayerOfKey;
  }

  lemma PerturbKeepsValid(ps: seq<Predicate>, cat: seq<FeatureStat>, span: real, s: Word)
    requires ValidCatalog(cat) && ValidPredicates(ps, cat)
    ensures ValidPredicates(PerturbOne(ps, cat, span, s).value, cat)
  {
    hide DrawIndex, Perturbed, Observed, ValidCatalog;
    if ps != [] {
      var i := DrawIndex(s, |ps|);
      var stat := StatFor(cat, ps[i.value].key);
      if stat.Some? {
        PerturbedIsObserved(ps[i.value], cat, stat.value, span, i.next);
        RekeyedIsValid(ps, i.value, Perturbed(ps[i.value], stat.value, span, i.next).value, cat);
      }
    }
  }

  lemma FlipKeepsValid(ps: seq<Predicate>, cat: seq<FeatureStat>, s: Word)
    requires ValidPredicates(ps, cat)
    ensures ValidPredicates(FlipOne(ps, s).value, cat)
  {
    hide DrawIndex;
    if ps != [] {
      var i := DrawIndex(s, |ps|).value;
      var flipped := ps[i].(op := ps[i].op.Flip());
      assert Observed(ps[i], cat);
      assert Observed(flipped, cat);
      RekeyedIsValid(ps, i, flipped, cat);
    }
  }

  lemma OperatedIsValid(roll: nat, ps: seq<Predicate>, cat: seq<FeatureStat>, s: Word)
    requires ValidCatalog(cat) && ValidPredicates(ps, cat)
    ensures ValidPredicates(Operated(roll, ps, cat, s).value, cat)
  {
    hide DrawIndex, DrawFrom, Observed, ValidCatalog, SuppliedLayers, ValidPredicates, StatsIn;
    match roll
    case 0 => PerturbKeepsValid(ps, cat, FINE_SPAN, s);
    case 1 => FlipKeepsValid(ps, cat, s);
    case 2 =>
      if ps != [] {
        var i := DrawIndex(s, |ps|);
        DrawIsObserved(cat, i.next);
        ReplacedIsValid(ps, i.value, DrawFrom(cat, i.next).value, cat);
      }
    case 3 =>
      DrawIsObserved(cat, s);
      AppendedIsValid(ps, DrawFrom(cat, s).value, cat);
    case 4 =>
      if |ps| > 1 {
        WithoutIsValid(ps, DrawIndex(s, |ps|).value, cat);
      }
    case 5 => AddMissingKeepsValid(ps, cat, s);
    case 6 => SwapLayerKeepsValid(ps, cat, s);
    case _ => PerturbKeepsValid(ps, cat, BOLD_SPAN, s);
  }

  lemma AddMissingKeepsValid(ps: seq<Predicate>, cat: seq<FeatureStat>, s: Word)
    requires ValidPredicates(ps, cat)
    ensures ValidPredicates(AddMissingLayer(ps, cat, s).value, cat)
  {
    hide DrawIndex, DrawFrom, Observed, SuppliedLayers, ValidPredicates, StatsIn;
    var missing := SuppliedLayers(cat, (l: Layer) => !HasLayer(ps, l));
    if missing != [] {
      var l := DrawIndex(s, |missing|);
      LayeredDraw(cat, {missing[l.value]}, l.next);
      AppendedIsValid(ps, DrawFrom(StatsIn(cat, {missing[l.value]}), l.next).value, cat);
    }
  }

  lemma SwapLayerKeepsValid(ps: seq<Predicate>, cat: seq<FeatureStat>, s: Word)
    requires ValidPredicates(ps, cat)
    ensures ValidPredicates(SwapToOtherLayer(ps, cat, s).value, cat)
  {
    hide DrawIndex, DrawFrom, Observed, SuppliedLayers, ValidPredicates, StatsIn;
    if ps != [] {
      var i := DrawIndex(s, |ps|);
      var current := ps[i.value].layer;
      var targets := SuppliedLayers(cat, (l: Layer) => l != current);
      if targets != [] {
        var l := DrawIndex(i.next, |targets|);
        LayeredDraw(cat, {targets[l.value]}, l.next);
        ReplacedIsValid(ps, i.value, DrawFrom(StatsIn(cat, {targets[l.value]}), l.next).value, cat);
      }
    }
  }

  lemma OperatedSize(roll: nat, ps: seq<Predicate>, cat: seq<FeatureStat>, s: Word)
    requires 1 <= |ps|
    ensures 1 <= |Operated(roll, ps, cat, s).value| <= MaxNat(|ps|, MAX_PREDICATES)
  {
    hide DrawIndex, DrawFrom, Perturbed, SuppliedLayers, StatsIn, KeyUsed, KeyElsewhere;
  }

  // Whatever is drawn, a mutant of a valid genome is valid and trades the same way. It never has
  // more conditions than four or than its parent.
  lemma MutantIsValid(g: Genome, cat: seq<FeatureStat>, cap: nat, s: Word)
    requires ValidCatalog(cat) && ValidGenome(g, cat, cap) && cap >= MAX_PREDICATES
    ensures ValidGenome(Mutated(g, cat, s).value, cat, cap)
    ensures var m := Mutated(g, cat, s).value; m.side == g.side && m.horizon == g.horizon && m.risk == g.risk
  {
    hide DrawIndex, Operated;
    if cat != [] {
      var roll := DrawIndex(s, 8);
      OperatedIsValid(roll.value, g.predicates, cat, roll.next);
      OperatedSize(roll.value, g.predicates, cat, roll.next);
    }
  }

  // All mutants of a genome stay within four conditions exactly when the genome does.
  lemma MutantsWithinFourIff(g: Genome)
    requires g.predicates != []
    ensures (forall cat, s :: |Mutated(g, cat, s).value.predicates| <= MAX_PREDICATES)
       <==> |g.predicates| <= MAX_PREDICATES
  {
    hide DrawIndex, Operated;
    if |g.predicates| <= MAX_PREDICATES {
      forall cat, s ensures |Mutated(g, cat, s).value.predicates| <= MAX_PREDICATES {
        MutantSize(g, cat, s);
      }
    } else {
      assert Mutated(g, [], 0).value == g;
    }
  }

  lemma MutantSize(g: Genome, cat: seq<FeatureStat>, s: Word)
    requires g.predicates != []
    ensures 1 <= |Mutated(g, cat, s).value.predicates| <= MaxNat(|g.predicates|, MAX_PREDICATES)
  {
    hide DrawIndex, Operated;
    if cat != [] {
      var roll := DrawIndex(s, 8);
      OperatedSize(roll.value, g.predicates, cat, roll.next);
    }
  }

  lemma {:induction false} GatheredIsValid(src: seq<Predicate>, acc: seq<Predicate>, cap: nat, cat: seq<FeatureStat>)
    requires ValidPredicates(acc, cat) && AllObserved(src, cat)
    ensures ValidPredicates(Gathered(src, acc, cap), cat)
    ensures |acc| <= |Gathered(src, acc, cap)| <= MaxNat(|acc|, cap)
    ensures |Gathered(src, acc, cap)| <= |acc| + |src|
    ensures src != [] && cap > 0 ==> Gathered(src, acc, cap) != []
  {
    hide Observed;
    if src != [] && |acc| < cap {
      assert Observed(src[0], cat);
      assert Admit(acc, src[0]) == Appended(acc, Some(src[0]));
      AppendedIsValid(acc, Some(src[0]), cat);
      assert KeyUsed(acc, src[0].key) ==> acc != [];
      GatheredIsValid(src[1..], Admit(acc, src[0]), cap, cat);
    }
  }

  lemma CrossIsValid(a: Genome, b: Genome, cat: seq<FeatureStat>, cap: nat, s: Word)
    requires ValidGenome(a, cat, cap) && ValidGenome(b, cat, cap) && cap >= MAX_PREDICATES
    ensures ValidGenome(Crossed(a, b, s).value, cat, cap)
    ensures Crossed(a, b, s).value.side == a.side && Crossed(a, b, s).value.horizon == a.horizon
  {
    hide DrawIndex, Gathered, Observed;
    var cut := 1 + DrawIndex(s, |a.predicates|).value;
    var front := a.predicates[..cut];
    GatheredIsValid(front, [], cut, cat);
    GatheredIsValid(b.predicates, Gathered(front, [], cut), MAX_PREDICATES, cat);
  }

  // A nudge lands on an observed quantile no further than half the span from the threshold's
  // current rank.
  lemma NudgeStaysNear(p: Predicate, stat: FeatureStat, span: real, s: Word)
    requires |stat.values| >= 2 && span >= 0.0
    ensures var rank := RankOf(stat.values, p.threshold) as real / (|stat.values| as real - 1.0);
            exists q: real :: 0.0 <= q <= 1.0 && Abs(q - Clamp(rank, 0.0, 1.0)) <= span / 2.0
              && Perturbed(p, stat, span, s).value == p.(threshold := stat.Quantile(q).value)
  {
    hide DrawUnit, RankOf;
    var u := DrawUnit(s).value;
    var rank := RankOf(stat.values, p.threshold) as real / (|stat.values| as real - 1.0);
    var q := NudgedQuantile(p, stat, span, u);
    var step := (u - 0.5) * span;
    StepWithin(u, span, step);
    assert q == Clamp(rank + step, 0.0, 1.0);
    assert Abs(q - Clamp(rank, 0.0, 1.0)) <= span / 2.0;
    assert Perturbed(p, stat, span, s).value == p.(threshold := stat.Quantile(q).value);
  }

  lemma StepWithin(u: real, span: real, step: real)
    requires 0.0 <= u < 1.0 && span >= 0.0 && step == (u - 0.5) * span
    ensures -(span / 2.0) <= step <= span / 2.0
  {
    ScaleMonotone(span, -0.5, u - 0.5);
    ScaleMonotone(span, u - 0.5, 0.5);
  }

  // ---- what each operator changes ----------------------------------------------------

  ghost predicate EditedAt(ps: seq<Predicate>, qs: seq<Predicate>, i: nat) {
    |qs| == |ps| && i < |ps| && forall j :: 0 <= j < |ps| && j != i ==> qs[j] == ps[j]
  }

  ghost predicate Extended(ps: seq<Predicate>, qs: seq<Predicate>) {
    |qs| == |ps| + 1 && |ps| < MAX_PREDICATES && qs[..|ps|] == ps
  }

  // The effect the operator of each roll may have on a genome's conditions.
  ghost predicate Effect(roll: nat, ps: seq<Predicate>, qs: seq<Predicate>) {
    if roll == 1 then
      exists i: nat :: EditedAt(ps, qs, i) && qs[i] == ps[i].(op := ps[i].op.Flip())
    else if roll == 2 then
      exists i: nat :: EditedAt(ps, qs, i)
    else if roll == 3 then
      qs == ps || Extended(ps, qs)
    else if roll == 4 then
      if |ps| == 1 then qs == ps else exists i :: 0 <= i < |ps| && qs == Without(ps, i)
    else if roll == 5 then
      qs == ps || (Extended(ps, qs) && !HasLayer(ps, qs[|ps|].layer))
    else if roll == 6 then
      exists i: nat :: EditedAt(ps, qs, i) && (qs[i] == ps[i] || qs[i].layer != ps[i].layer)
    else
      exists i: nat :: EditedAt(ps, qs, i) && qs[i] == ps[i].(threshold := qs[i].threshold)
  }

  lemma SuppliedAreWanted(cat: seq<FeatureStat>, wanted: Layer -> bool, k: nat)
    requires k < |SuppliedLayers(cat, wanted)|
    ensures wanted(SuppliedLayers(cat, wanted)[k])
  {
    FilterMember(ALL_LAYERS, (l: Layer) => wanted(l) && StatsIn(cat, {l}) != [], k);
  }

  lemma OperatorEffect(roll: nat, ps: seq<Predicate>, cat: seq<FeatureStat>, s: Word)
    requires 1 <= |ps|
    ensures Effect(roll, ps, Operated(roll, ps, cat, s).value)
  {
    hide DrawIndex, DrawFrom, SuppliedLayers, StatsIn, KeyUsed, KeyElsewhere;
    var qs := Operated(roll, ps, cat, s).value;
    var i := DrawIndex(s, |ps|).value;
    if roll == 3 || roll == 4 {
    } else if roll == 5 {
      AddedLayerIsNew(ps, cat, s);
    } else if roll == 6 {
      SwappedLayerDiffers(ps, cat, s);
    } else {
      assert EditedAt(ps, qs, i);
    }
  }

  lemma AddedLayerIsNew(ps: seq<Predicate>, cat: seq<FeatureStat>, s: Word)
    ensures var qs := AddMissingLayer(ps, cat, s).value;
            qs == ps || (Extended(ps, qs) && !HasLayer(ps, qs[|ps|].layer))
  {
    hide DrawIndex, DrawFrom, SuppliedLayers, StatsIn, KeyUsed;
    var missing := SuppliedLayers(cat, (l: Layer) => !HasLayer(ps, l));
    if missing != [] {
      var l := DrawIndex(s, |missing|);
      SuppliedAreWanted(cat, (l: Layer) => !HasLayer(ps, l), l.value);
      LayeredDraw(cat, {missing[l.value]}, l.next);
    }
  }

  lemma SwappedLayerDiffers(ps: seq<Predicate>, cat: seq<FeatureStat>, s: Word)
    requires ps != []
    ensures var qs, i := SwapToOtherLayer(ps, cat, s).value, DrawIndex(s, |ps|).value;
            EditedAt(ps, qs, i) && (qs[i] == ps[i] || qs[i].layer != ps[i].layer)
  {
    hide DrawIndex, DrawFrom, SuppliedLayers, StatsIn, KeyElsewhere;
    var i := DrawIndex(s, |ps|);
    var current := ps[i.value].layer;
    var targets := SuppliedLayers(cat, (l: Layer) => l != current);
    if targets != [] {
      var l := DrawIndex(i.next, |targets|);
      SuppliedAreWanted(cat, (l: Layer) => l != current, l.value);
      LayeredDraw(cat, {targets[l.value]}, l.next);
    }
  }
}
