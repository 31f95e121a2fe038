// What offspring take from their parents: a cross condition by condition, a mutant roll by roll.
module Offspring {
  import opened Prelude
  import opened Sorting
  import opened Market
  import opened Genomes
  import opened Rng
  import opened Catalog
  import opened Drawing
  import opened GenomeOps

  // ---- crosses -----------------------------------------------------------------------------

  // Conditions over features the others do not use.
  function NewTo(ps: seq<Predicate>): Predicate -> bool {
    (p: Predicate) => forall i :: 0 <= i < |ps| ==> ps[i].key != p.key
  }

  function FirstOf(ps: seq<Predicate>, n: int): seq<Predicate> {
    if n <= 0 then [] else if |ps| <= n then ps else ps[..n]
  }

  // Taking conditions over new features in order, up to a cap, takes the first of those that are
  // new to what is already there.
  lemma {:induction false} GatheredIs(src: seq<Predicate>, acc: seq<Predicate>, cap: nat)
    requires DistinctKeys(src)
    ensures Gathered(src, acc, cap) == acc + FirstOf(Filter(src, NewTo(acc)), cap - |acc|)
    decreases |src|
  {
    if src == [] || |acc| >= cap {
      assert acc + [] == acc;
    } else {
      TailDistinct(src);
      GatheredIs(src[1..], Admit(acc, src[0]), cap);
      HeadFiltered(src, acc);
      GatherStep(src, acc, cap);
      hide Filter, DistinctKeys, Gathered, Admit, FirstOf, NewTo;
      if NewTo(acc)(src[0]) {
        FirstWithHead(acc, src[0], Filter(src[1..], NewTo(acc)), cap - |acc|);
      } else {
        assert [] + Filter(src[1..], NewTo(acc)) == Filter(src[1..], NewTo(acc));
      }
    }
  }

  lemma TailDistinct(src: seq<Predicate>)
    requires src != [] && DistinctKeys(src)
    ensures DistinctKeys(src[1..])
  {
  }

  lemma GatherStep(src: seq<Predicate>, acc: seq<Predicate>, cap: nat)
    requires src != [] && |acc| < cap
    ensures Gathered(src, acc, cap) == Gathered(src[1..], Admit(acc, src[0]), cap)
  {
    hide Admit;
  }

  lemma FirstWithHead(acc: seq<Predicate>, p: Predicate, ps: seq<Predicate>, n: int)
    requires n > 0
    ensures acc + FirstOf([p] + ps, n) == acc + [p] + FirstOf(ps, n - 1)
  {
    if |ps| > n - 1 {
      assert ([p] + ps)[..n] == [p] + ps[..n - 1];
    }
  }

  // A head that is new comes first, and hides nothing after it.
  lemma HeadFiltered(src: seq<Predicate>, acc: seq<Predicate>)
    requires src != [] && DistinctKeys(src)
    ensures Filter(src, NewTo(acc)) == (if NewTo(acc)(src[0]) then [src[0]] else []) + Filter(src[1..], NewTo(acc))
    ensures Admit(acc, src[0]) == if NewTo(acc)(src[0]) then acc + [src[0]] else acc
    ensures Filter(src[1..], NewTo(Admit(acc, src[0]))) == Filter(src[1..], NewTo(acc))
  {
    var p, rest := src[0], src[1..];
    FilterConcat([p], rest, NewTo(acc));
    assert src == [p] + rest;
    assert [p][..0] == [];
    assert Filter([p], NewTo(acc)) == if NewTo(acc)(p) then [p] else [];
    assert NewTo(acc)(p) <==> !KeyUsed(acc, p.key);
    hide Filter;
    forall i | 0 <= i < |rest| ensures NewTo(Admit(acc, p))(rest[i]) <==> NewTo(acc)(rest[i]) {
      assert src[i + 1] == rest[i] && p.key != rest[i].key;
      NewToAdmitted(acc, p, rest[i]);
    }
    FilterAlike(rest, NewTo(Admit(acc, p)), NewTo(acc));
  }

  lemma NewToAdmitted(acc: seq<Predicate>, p: Predicate, q: Predicate)
    requires p.key != q.key
    ensures NewTo(Admit(acc, p))(q) <==> NewTo(acc)(q)
  {
    if NewTo(acc + [p])(q) {
      forall i | 0 <= i < |acc| ensures acc[i].key != q.key {
        assert (acc + [p])[i] == acc[i];
      }
    }
  }

  lemma GatheredWhole(front: seq<Predicate>)
    requires DistinctKeys(front)
    ensures Gathered(front, [], |front|) == front
  {
    GatheredIs(front, [], |front|);
    FilterAll(front, NewTo([]));
    hide Gathered, Filter, DistinctKeys;
    assert [] + front == front;
  }

  // A cross of parents with distinct features keeps a drawn prefix of the first parent, of at
  // least one condition, and adds the second parent's conditions over other features, in order,
  // while there are fewer than four.
  lemma CrossIs(a: Genome, b: Genome, s: Word)
    requires a.predicates != [] && DistinctKeys(a.predicates) && DistinctKeys(b.predicates)
    ensures var cut := 1 + NextWord(s) % |a.predicates|;
            && 1 <= cut <= |a.predicates|
            && Crossed(a, b, s).value.predicates
               == a.predicates[..cut] + FirstOf(Filter(b.predicates, NewTo(a.predicates[..cut])), 4 - cut)
  {
    hide NextWord, Filter, Gathered;
    var cut := 1 + NextWord(s) % |a.predicates|;
    var front := a.predicates[..cut];
    GatheredWhole(front);
    GatheredIs(b.predicates, front, MAX_PREDICATES);
  }

  // So every condition of the second parent over a feature the prefix lacks is in the child, unless
  // the child is full.
  lemma CrossMisses(a: Genome, b: Genome, s: Word, j: nat)
    requires a.predicates != [] && DistinctKeys(a.predicates) && DistinctKeys(b.predicates) && j < |b.predicates|
    ensures var child := Crossed(a, b, s).value.predicates;
            var cut := 1 + NextWord(s) % |a.predicates|;
            && 1 <= cut <= |a.predicates|
            && (NewTo(a.predicates[..cut])(b.predicates[j]) ==> b.predicates[j] in child || |child| >= 4)
  {
    hide NextWord, Crossed;
    CrossIs(a, b, s);
    var front := a.predicates[..1 + NextWord(s) % |a.predicates|];
    if NewTo(front)(b.predicates[j]) {
      FilterHolds(b.predicates, NewTo(front), j);
    }
  }

  // ---- mutants ---------------------------------------------------------------------------------

  // The state a word is drawn from leaves this one behind.
  function After(s: Word): Word {
    Add(s, GOLDEN)
  }

  // The place one draw picks among n, and the fraction one draw gives.
  function Picked(s: Word, n: nat): nat
    requires n > 0
  {
    NextWord(s) % n
  }

  ghost predicate OnlyAt(ps: seq<Predicate>, qs: seq<Predicate>, i: nat) {
    |qs| == |ps| && i < |ps| && forall j :: 0 <= j < |ps| && j != i ==> qs[j] == ps[j]
  }

  // How many observed values lie below the threshold.
  function CountBelow(values: seq<real>, t: real): nat {
    if values == [] then 0
    else CountBelow(values[..|values| - 1], t) + if values[|values| - 1] < t then 1 else 0
  }

  // The threshold moved from its rank among the observed values by part of the span, onto the
  // observed value nearest there.
  ghost predicate Nudged(p: Predicate, q: Predicate, values: seq<real>, span: real, u: real)
    requires |values| >= 2
  {
    var n := |values| as real - 1.0;
    exists i: nat :: i < |values| && q == p.(threshold := values[i])
      && Nearest(Clamp(CountBelow(values, p.threshold) as real / n + (u - 0.5) * span, 0.0, 1.0) * n, i)
  }

  ghost predicate Nudges(ps: seq<Predicate>, qs: seq<Predicate>, cat: seq<FeatureStat>, span: real, s: Word)
    requires ps != []
  {
    var i := Picked(s, |ps|);
    && OnlyAt(ps, qs, i)
    && (forall k :: 0 <= k < |cat| && cat[k].key == ps[i].key ==>
          if |cat[k].values| < 2 then qs[i] == ps[i]
          else Nudged(ps[i], qs[i], cat[k].values, span, UnitOf(NextWord(After(s)))))
    && ((forall k :: 0 <= k < |cat| ==> cat[k].key != ps[i].key) ==> qs == ps)
  }

  ghost predicate Opposed(a: CmpOp, b: CmpOp) {
    (a == Gt && b == Lt) || (a == Lt && b == Gt) || (a == Gte && b == Lte) || (a == Lte && b == Gte)
  }

  // A drawn condition is appended, or put in a place, unless its feature is in use.
  ghost predicate Extends(ps: seq<Predicate>, qs: seq<Predicate>, d: Option<Predicate>) {
    qs == if d.Some? && NewTo(ps)(d.value) then ps + [d.value] else ps
  }

  ghost predicate Replaces(ps: seq<Predicate>, qs: seq<Predicate>, i: nat, d: Option<Predicate>)
    requires i < |ps|
  {
    if d.Some? && forall j :: 0 <= j < |ps| && j != i ==> ps[j].key != d.value.key
    then OnlyAt(ps, qs, i) && qs[i] == d.value
    else qs == ps
  }

  ghost predicate LayerUsed(ps: seq<Predicate>, l: Layer) {
    exists i :: 0 <= i < |ps| && ps[i].layer == l
  }

  ghost predicate LayerObserved(cat: seq<FeatureStat>, l: Layer) {
    exists i :: 0 <= i < |cat| && cat[i].layer == l
  }

  ghost function LayersWhere(cat: seq<FeatureStat>, wanted: Layer -> bool): seq<Layer> {
    Filter([Tradeability, Regime, Location, Trigger, Event], (l: Layer) => wanted(l) && LayerObserved(cat, l))
  }

  ghost predicate AddsLayer(ps: seq<Predicate>, qs: seq<Predicate>, cat: seq<FeatureStat>, s: Word) {
    var missing := LayersWhere(cat, (l: Layer) => !LayerUsed(ps, l));
    if missing == [] then qs == ps
    else
      var l := missing[Picked(s, |missing|)];
      Extends(ps, qs, DrawFrom(StatsIn(cat, {l}), After(s)).value)
  }

  ghost predicate SwapsLayer(ps: seq<Predicate>, qs: seq<Predicate>, cat: seq<FeatureStat>, s: Word)
    requires ps != []
  {
    var i := Picked(s, |ps|);
    var others := LayersWhere(cat, (l: Layer) => l != ps[i].layer);
    if others == [] then qs == ps
    else
      var l := others[Picked(After(s), |others|)];
      Replaces(ps, qs, i, DrawFrom(StatsIn(cat, {l}), After(After(s))).value)
  }

  // What each roll of eight does to a genome's conditions.
  ghost predicate Does(roll: nat, ps: seq<Predicate>, qs: seq<Predicate>, cat: seq<FeatureStat>, s: Word)
    requires ps != []
  {
    if roll == 0 then Nudges(ps, qs, cat, 0.3, s)
    else if roll == 1 then
      var i := Picked(s, |ps|);
      OnlyAt(ps, qs, i) && qs[i] == ps[i].(op := qs[i].op) && Opposed(ps[i].op, qs[i].op)
    else if roll == 2 then Replaces(ps, qs, Picked(s, |ps|), DrawFrom(cat, After(s)).value)
    else if roll == 3 then if |ps| >= 4 then qs == ps else Extends(ps, qs, DrawFrom(cat, s).value)
    else if roll == 4 then
      if |ps| == 1 then qs == ps else qs == ps[..Picked(s, |ps|)] + ps[Picked(s, |ps|) + 1..]
    else if roll == 5 then if |ps| >= 4 then qs == ps else AddsLayer(ps, qs, cat, s)
    else if roll == 6 then SwapsLayer(ps, qs, cat, s)
    else Nudges(ps, qs, cat, 0.8, s)
  }

  // ---- and each does it ------------------------------------------------------------------------

  lemma IndexIsPicked(s: Word, n: nat)
    requires n > 0
    ensures DrawIndex(s, n) == Draw(Picked(s, n), After(s))
    ensures DrawUnit(s).value == UnitOf(NextWord(s))
  {
    hide NextWord, UnitOf;
  }

  lemma {:induction false} CountBelowZero(values: seq<real>, t: real)
    requires forall i :: 0 <= i < |values| ==> values[i] >= t
    ensures CountBelow(values, t) == 0
  {
    if values != [] {
      CountBelowZero(values[..|values| - 1], t);
    }
  }

  lemma {:induction false} CountBelowHead(values: seq<real>, t: real)
    requires values != [] && values[0] < t
    ensures CountBelow(values, t) == 1 + CountBelow(values[1..], t)
    decreases |values|
  {
    var n := |values| - 1;
    if n > 0 {
      CountBelowHead(values[..n], t);
      assert values[..n][1..] == values[1..][..n - 1];
    }
  }

  // Among sorted values the rank is the number below.
  lemma {:induction false} RankCounts(values: seq<real>, t: real)
    requires Ascending(values)
    ensures RankOf(values, t) == CountBelow(values, t)
    decreases |values|
  {
    if values != [] {
      if values[0] >= t {
        CountBelowZero(values, t);
      } else {
        assert Ascending(values[1..]);
        RankCounts(values[1..], t);
        CountBelowHead(values, t);
      }
    }
  }

  lemma PerturbNudges(p: Predicate, stat: FeatureStat, span: real, s: Word)
    requires ValidStat(stat) && |stat.values| >= 2
    ensures Nudged(p, Perturbed(p, stat, span, s).value, stat.values, span, UnitOf(NextWord(s)))
  {
    hide NextWord, UnitOf, LayerOfKey, CountBelow, RankOf;
    var n := |stat.values| as real - 1.0;
    RankCounts(stat.values, p.threshold);
    var q := NudgedQuantile(p, stat, span, UnitOf(NextWord(s)));
    NearestRankIs(q, |stat.values|);
    var i := NearestRank(q, |stat.values|);
    assert Clamp(q, 0.0, 1.0) == q;
    assert Perturbed(p, stat, span, s).value == p.(threshold := stat.values[i]);
  }

  lemma PerturbOneNudges(ps: seq<Predicate>, cat: seq<FeatureStat>, span: real, s: Word)
    requires ValidCatalog(cat) && ps != []
    ensures Nudges(ps, PerturbOne(ps, cat, span, s).value, cat, span, s)
  {
    hide NextWord, UnitOf, Nudged, Perturbed, ValidStat, DrawIndex;
    IndexIsPicked(s, |ps|);
    var i := Picked(s, |ps|);
    var stat := StatFor(cat, ps[i].key);
    var qs := PerturbOne(ps, cat, span, s).value;
    if stat.Some? {
      var k :| 0 <= k < |cat| && cat[k] == stat.value;
      assert qs == ps[i := Perturbed(ps[i], stat.value, span, After(s)).value];
      if |cat[k].values| >= 2 {
        PerturbNudges(ps[i], cat[k], span, After(s));
      } else {
        ShortUnmoved(ps[i], cat[k], span, After(s));
      }
    }
  }

  lemma ShortUnmoved(p: Predicate, stat: FeatureStat, span: real, s: Word)
    requires |stat.values| < 2
    ensures Perturbed(p, stat, span, s).value == p
  {
  }

  lemma AppendedExtends(ps: seq<Predicate>, d: Option<Predicate>)
    ensures Extends(ps, Appended(ps, d), d)
  {
  }

  lemma ReplacedReplaces(ps: seq<Predicate>, i: nat, d: Option<Predicate>)
    requires i < |ps|
    ensures Replaces(ps, Replaced(ps, i, d), i, d)
  {
  }

  lemma LayersSupplied(cat: seq<FeatureStat>, wanted: Layer -> bool)
    ensures SuppliedLayers(cat, wanted) == LayersWhere(cat, wanted)
  {
    hide Filter, StatsIn;
    forall i | 0 <= i < 5
      ensures (wanted(ALL_LAYERS[i]) && StatsIn(cat, {ALL_LAYERS[i]}) != [])
         <==> (wanted(ALL_LAYERS[i]) && LayerObserved(cat, ALL_LAYERS[i]))
    {
      LayerHasStats(cat, ALL_LAYERS[i]);
    }
    FilterAlike(ALL_LAYERS, (l: Layer) => wanted(l) && StatsIn(cat, {l}) != [],
                (l: Layer) => wanted(l) && LayerObserved(cat, l));
  }

  lemma LayerHasStats(cat: seq<FeatureStat>, l: Layer)
    ensures StatsIn(cat, {l}) != [] <==> LayerObserved(cat, l)
  {
    hide Filter;
    if StatsIn(cat, {l}) != [] {
      FilterMember(cat, InLayers({l}), 0);
      var j :| 0 <= j < |cat| && cat[j] == StatsIn(cat, {l})[0];
    }
    if i :| 0 <= i < |cat| && cat[i].layer == l {
      FilterHolds(cat, InLayers({l}), i);
    }
  }

  lemma WantedAlike(cat: seq<FeatureStat>, p: Layer -> bool, q: Layer -> bool)
    requires forall l :: p(l) == q(l)
    ensures LayersWhere(cat, p) == LayersWhere(cat, q)
  {
    FilterAlike([Tradeability, Regime, Location, Trigger, Event], (l: Layer) => p(l) && LayerObserved(cat, l),
                (l: Layer) => q(l) && LayerObserved(cat, l));
  }

  lemma AddMissingAdds(ps: seq<Predicate>, cat: seq<FeatureStat>, s: Word)
    requires |ps| < MAX_PREDICATES
    ensures AddsLayer(ps, AddMissingLayer(ps, cat, s).value, cat, s)
  {
    hide DrawFrom, StatsIn, Filter, NextWord, LayersWhere, SuppliedLayers, DrawIndex;
    LayersSupplied(cat, (l: Layer) => !HasLayer(ps, l));
    WantedAlike(cat, (l: Layer) => !HasLayer(ps, l), (l: Layer) => !LayerUsed(ps, l));
    var missing := LayersWhere(cat, (l: Layer) => !LayerUsed(ps, l));
    if missing != [] {
      IndexIsPicked(s, |missing|);
      AppendedExtends(ps, DrawFrom(StatsIn(cat, {missing[Picked(s, |missing|)]}), After(s)).value);
    }
  }

  lemma SwapLayerSwaps(ps: seq<Predicate>, cat: seq<FeatureStat>, s: Word)
    requires ps != []
    ensures SwapsLayer(ps, SwapToOtherLayer(ps, cat, s).value, cat, s)
  {
    hide DrawFrom, StatsIn, Filter, NextWord, LayersWhere, SuppliedLayers, DrawIndex, Replaces, Replaced;
    IndexIsPicked(s, |ps|);
    var i := Picked(s, |ps|);
    var current := ps[i].layer;
    LayersSupplied(cat, (l: Layer) => l != current);
    WantedAlike(cat, (l: Layer) => l != current, (l: Layer) => l != ps[i].layer);
    var others := LayersWhere(cat, (l: Layer) => l != ps[i].layer);
    if others != [] {
      IndexIsPicked(After(s), |others|);
      ReplacedReplaces(ps, i, DrawFrom(StatsIn(cat, {others[Picked(After(s), |others|)]}), After(After(s))).value);
    }
  }

  lemma OperatedDoes(roll: nat, ps: seq<Predicate>, cat: seq<FeatureStat>, s: Word)
    requires ValidCatalog(cat) && ps != []
    ensures Does(roll, ps, Operated(roll, ps, cat, s).value, cat, s)
  {
    hide DrawFrom, NextWord, Nudges, PerturbOne, AddsLayer, AddMissingLayer, SwapsLayer, SwapToOtherLayer, ValidCatalog;
    hide DrawIndex, Replaces, Replaced, Extends, Appended;
    IndexIsPicked(s, |ps|);
    match roll
    case 0 => PerturbOneNudges(ps, cat, 0.3, s);
    case 1 =>
    case 2 => ReplacedReplaces(ps, Picked(s, |ps|), DrawFrom(cat, After(s)).value);
    case 3 => AppendedExtends(ps, DrawFrom(cat, s).value);
    case 4 =>
    case 5 => if |ps| < 4 { AddMissingAdds(ps, cat, s); } else { FullStays(ps, cat, s); }
    case 6 => SwapLayerSwaps(ps, cat, s);
    case _ => PerturbOneNudges(ps, cat, 0.8, s);
  }

  lemma FullStays(ps: seq<Predicate>, cat: seq<FeatureStat>, s: Word)
    requires |ps| >= 4
    ensures AddMissingLayer(ps, cat, s).value == ps
  {
  }

  // A mutant's conditions are its parent's as the drawn roll of eight changes them.
  lemma MutantDoes(g: Genome, cat: seq<FeatureStat>, s: Word)
    requires ValidCatalog(cat) && cat != [] && g.predicates != []
    ensures var m := Mutated(g, cat, s).value;
            m == g.(predicates := m.predicates) && Does(NextWord(s) % 8, g.predicates, m.predicates, cat, After(s))
  {
    hide Operated, Does, NextWord, DrawIndex, ValidCatalog;
    IndexIsPicked(s, 8);
    OperatedDoes(Picked(s, 8), g.predicates, cat, After(s));
    OperatedSize(Picked(s, 8), g.predicates, cat, After(s));
  }
}
