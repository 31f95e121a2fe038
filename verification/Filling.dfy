// What a generation must hold: everything the search offers it is in the pool, was seen before, or
// came when the pool was full.
module Filling {
  import opened Prelude
  import opened Arith
  import opened Sorting
  import opened Market
  import opened Genomes
  import opened Rng
  import opened Catalog
  import opened Drawing
  import opened GenomeOps
  import opened Seeding
  import opened RiskSearch
  import opened Score
  import opened Signature
  import opened Generation
  import opened Strategies
  import opened Evolve

  // A pool that only grew.
  ghost predicate Grows(before: Pool, after: Pool) {
    before.genomes <= after.genomes && before.seen <= after.seen
  }

  lemma OfferGrows(pool: Pool, g: Genome)
    ensures Grows(pool, pool.Offered(g)) && SignatureOf(g) in pool.Offered(g).seen
  {
    hide SignatureOf;
  }

  // ---- how much is gathered ------------------------------------------------------------------

  // The pool's target is the least whole number that is no less than the generation's size and
  // no less than that many times the multiple asked for.
  lemma PoolTargetIs(plan: Plan, n: nat)
    ensures n >= plan.PoolTarget() <==> n >= plan.perGen && n as real >= plan.perGen as real * plan.poolMult
  {
    if plan.poolMult < 1.0 {
      ScaleMonotone(plan.perGen as real, plan.poolMult, 1.0);
    }
    NoLessThan(n, plan.perGen as real * MaxReal(plan.poolMult, 1.0));
    ScaleMonotone(plan.perGen as real, 1.0, MaxReal(plan.poolMult, 1.0));
  }

  lemma NoLessThan(n: nat, x: real)
    ensures n >= Ceil(x) <==> n as real >= x
  {
  }

  // Mutants fill half of what the pool takes beyond the generation's size, rounded down, and are
  // tried four times the pool's target, at least eight times.
  lemma MutationBudgetIs(plan: Plan)
    ensures plan.perGen <= plan.MutationTarget() <= plan.PoolTarget()
    ensures 0 <= plan.PoolTarget() + plan.perGen - 2 * plan.MutationTarget() <= 1
    ensures MaxAttempts(plan) == if plan.PoolTarget() <= 2 then 8 else 4 * plan.PoolTarget()
  {
    var p, n := plan.PoolTarget(), plan.perGen;
    assert p * 4 == 4 * p;
  }

  // ---- offspring ---------------------------------------------------------------------------

  // The generator's state when the i-th parent is mutated, and when the i-th pair is crossed.
  function MutantState(plan: Plan, parents: seq<Genome>, i: nat, s: Word): Word
    requires i <= |parents|
  {
    if i == 0 then s else MutantState(plan, parents[1..], i - 1, Mutant(plan, parents[0], s).next)
  }

  function CrossState(plan: Plan, parents: seq<Genome>, i: nat, s: Word): Word
    requires i < |parents|
  {
    if i == 0 then s else CrossState(plan, parents[1..], i - 1, Child(plan, parents[0], parents[1], s).next)
  }

  ghost predicate MutantSeen(plan: Plan, parents: seq<Genome>, s: Word, pool: Pool, i: nat)
    requires i < |parents|
  {
    SignatureOf(Mutant(plan, parents[i], MutantState(plan, parents, i, s)).value) in pool.seen
  }

  ghost predicate ChildSeen(plan: Plan, parents: seq<Genome>, s: Word, pool: Pool, i: nat)
    requires i + 1 < |parents|
  {
    SignatureOf(Child(plan, parents[i], parents[i + 1], CrossState(plan, parents, i, s)).value) in pool.seen
  }

  ghost predicate AllMutantsSeen(plan: Plan, parents: seq<Genome>, s: Word, pool: Pool) {
    forall i :: 0 <= i < |parents| ==> MutantSeen(plan, parents, s, pool, i)
  }

  ghost predicate AllChildrenSeen(plan: Plan, parents: seq<Genome>, s: Word, pool: Pool) {
    forall i :: 0 <= i < |parents| - 1 ==> ChildSeen(plan, parents, s, pool, i)
  }

  // Below the generation size every survivor has had its mutant offered.
  lemma {:induction false} MutantsOffered(plan: Plan, parents: seq<Genome>, pool: Pool, s: Word)
    ensures var after := FirstMutants(plan, parents, pool, s).value;
            && Grows(pool, after)
            && (|after.genomes| >= plan.perGen || AllMutantsSeen(plan, parents, s, after))
    decreases |parents|
  {
    hide Mutant, SignatureOf;
    if parents != [] && |pool.genomes| < plan.perGen {
      var m := Mutant(plan, parents[0], s);
      var after := FirstMutants(plan, parents, pool, s).value;
      OfferGrows(pool, m.value);
      MutantsOffered(plan, parents[1..], pool.Offered(m.value), m.next);
      if |after.genomes| < plan.perGen {
        forall i | 0 <= i < |parents| ensures MutantSeen(plan, parents, s, after, i) {
          if i > 0 {
            assert MutantSeen(plan, parents[1..], m.next, after, i - 1);
          }
        }
      }
    }
  }

  // And every neighbouring pair its cross.
  lemma {:induction false} ChildrenOffered(plan: Plan, parents: seq<Genome>, pool: Pool, s: Word)
    ensures var after := Children(plan, parents, pool, s).value;
            && Grows(pool, after)
            && (|after.genomes| >= plan.perGen || AllChildrenSeen(plan, parents, s, after))
    decreases |parents|
  {
    hide Child, SignatureOf;
    if |parents| >= 2 && |pool.genomes| < plan.perGen {
      var c := Child(plan, parents[0], parents[1], s);
      var after := Children(plan, parents, pool, s).value;
      OfferGrows(pool, c.value);
      ChildrenOffered(plan, parents[1..], pool.Offered(c.value), c.next);
      if |after.genomes| < plan.perGen {
        forall i | 0 <= i < |parents| - 1 ensures ChildSeen(plan, parents, s, after, i) {
          if i > 0 {
            assert ChildSeen(plan, parents[1..], c.next, after, i - 1);
          }
        }
      }
    }
  }

  // The parent the i-th extra attempt mutates, and the generator's state before that attempt.
  function AttemptState(plan: Plan, parents: seq<Genome>, i: nat, s: Word): Word
    requires parents != []
  {
    if i == 0 then s else AttemptState(plan, parents, i - 1, Attempt(plan, parents, s).next)
  }

  function Attempt(plan: Plan, parents: seq<Genome>, s: Word): Draw<Genome>
    requires parents != []
  {
    var i := DrawIndex(s, |parents|);
    Mutant(plan, parents[i.value], i.next)
  }

  ghost predicate AttemptSeen(plan: Plan, parents: seq<Genome>, s: Word, pool: Pool, i: nat)
    requires parents != []
  {
    SignatureOf(Attempt(plan, parents, AttemptState(plan, parents, i, s)).value) in pool.seen
  }

  ghost predicate AllAttemptsSeen(plan: Plan, parents: seq<Genome>, attempts: nat, s: Word, pool: Pool)
    requires parents != []
  {
    forall i :: 0 <= i < attempts ==> AttemptSeen(plan, parents, s, pool, i)
  }

  // Extra mutants are offered until the mutation target is met or the attempts run out.
  lemma {:induction false} AttemptsOffered(plan: Plan, parents: seq<Genome>, attempts: nat, pool: Pool, s: Word)
    requires parents != []
    ensures var after := MoreMutants(plan, parents, attempts, pool, s).value;
            && Grows(pool, after)
            && (|after.genomes| >= plan.MutationTarget() || AllAttemptsSeen(plan, parents, attempts, s, after))
    decreases attempts
  {
    hide Mutant, SignatureOf, DrawIndex;
    if attempts > 0 && |pool.genomes| < plan.MutationTarget() {
      var m := Attempt(plan, parents, s);
      var after := MoreMutants(plan, parents, attempts, pool, s).value;
      OfferGrows(pool, m.value);
      AttemptsOffered(plan, parents, attempts - 1, pool.Offered(m.value), m.next);
      if |after.genomes| < plan.MutationTarget() {
        forall i | 0 <= i < attempts ensures AttemptSeen(plan, parents, s, after, i) {
          if i > 0 {
            assert AttemptSeen(plan, parents, m.next, after, i - 1);
          }
        }
      }
    }
  }

  // ---- fresh seeds -----------------------------------------------------------------------------

  // The generator's state when the i-th fresh seed is given its geometry.
  function GeometryState(plan: Plan, i: nat, s: Word): Word {
    if i == 0 then s else GeometryState(plan, i - 1, SeedRisk(plan.risk, plan.lockRisk, s).next)
  }

  ghost predicate SeedSeen(plan: Plan, seeds: seq<Genome>, s: Word, pool: Pool, i: nat)
    requires i < |seeds|
  {
    SignatureOf(seeds[i].(risk := SeedRisk(plan.risk, plan.lockRisk, GeometryState(plan, i, s)).value)) in pool.seen
  }

  ghost predicate AllSeedsSeen(plan: Plan, seeds: seq<Genome>, s: Word, pool: Pool) {
    forall i :: 0 <= i < |seeds| ==> SeedSeen(plan, seeds, s, pool, i)
  }

  lemma {:induction false} SeedsOffered(plan: Plan, seeds: seq<Genome>, pool: Pool, s: Word)
    ensures var after := FreshSeeds(plan, seeds, pool, s).value;
            && Grows(pool, after) && (|after.genomes| >= plan.PoolTarget() || AllSeedsSeen(plan, seeds, s, after))
    decreases |seeds|
  {
    hide SeedRisk, SignatureOf;
    if seeds != [] && |pool.genomes| < plan.PoolTarget() {
      var r := SeedRisk(plan.risk, plan.lockRisk, s);
      var after := FreshSeeds(plan, seeds, pool, s).value;
      var g := seeds[0].(risk := r.value);
      OfferGrows(pool, g);
      SeedsOffered(plan, seeds[1..], pool.Offered(g), r.next);
      if |after.genomes| < plan.PoolTarget() {
        forall i | 0 <= i < |seeds| ensures SeedSeen(plan, seeds, s, after, i) {
          if i > 0 {
            assert SeedSeen(plan, seeds[1..], r.next, after, i - 1);
          }
        }
      }
    }
  }

  // ---- the whole pool ----------------------------------------------------------------------------

  // The pool reached its target, or a population seeded for twice what was missing is all in it or
  // was seen before.
  ghost predicate Topped(plan: Plan, before: Pool, s: Word, after: Pool) {
    && Grows(before, after)
    && (|after.genomes| >= plan.PoolTarget() ||
        (var missing := plan.PoolTarget() - |before.genomes|;
         var seeds := Seeded(plan.catalog, plan.horizon, 2 * missing, plan.maxPredicates, 0.6, s);
         AllSeedsSeen(plan, seeds.value, seeds.next, after)))
  }

  lemma DiversifiedTops(plan: Plan, pool: Pool, s: Word)
    ensures Topped(plan, pool, s, Diversified(plan, pool, s).value)
  {
    hide Seeded, FreshSeeds, AllSeedsSeen;
    if |pool.genomes| < plan.PoolTarget() {
      var need := plan.PoolTarget() - |pool.genomes|;
      assert need * 2 == 2 * need;
      var seeds := Seeded(plan.catalog, plan.horizon, need * 2, plan.maxPredicates, DEFAULT_PROMOTABLE_BIAS, s);
      SeedsOffered(plan, seeds.value, pool, seeds.next);
    }
  }

  lemma SeenStays(plan: Plan, parents: seq<Genome>, s: Word, before: Pool, after: Pool)
    requires Grows(before, after)
    ensures AllMutantsSeen(plan, parents, s, before) ==> AllMutantsSeen(plan, parents, s, after)
    ensures AllChildrenSeen(plan, parents, s, before) ==> AllChildrenSeen(plan, parents, s, after)
  {
    hide Mutant, Child, SignatureOf, MutantState, CrossState;
    if AllMutantsSeen(plan, parents, s, before) {
      forall i | 0 <= i < |parents| ensures MutantSeen(plan, parents, s, after, i) {
        assert MutantSeen(plan, parents, s, before, i);
      }
    }
    if AllChildrenSeen(plan, parents, s, before) {
      forall i | 0 <= i < |parents| - 1 ensures ChildSeen(plan, parents, s, after, i) {
        assert ChildSeen(plan, parents, s, before, i);
      }
    }
  }

  lemma GrowsOn(a: Pool, b: Pool, c: Pool)
    requires Grows(a, b) && Grows(b, c)
    ensures Grows(a, c)
  {
  }

  // What the stages of a generation leave: each met its target, or offered all it had to offer.
  ghost predicate Stages(plan: Plan, survivors: seq<Genome>, s: Word, p1: Draw<Pool>, p2: Draw<Pool>, p3: Draw<Pool>,
                         all: Pool)
  {
    && (|p1.value.genomes| >= plan.perGen || AllMutantsSeen(plan, survivors, s, all))
    && (|p2.value.genomes| >= plan.perGen || AllChildrenSeen(plan, survivors, p1.next, all))
    && (survivors != [] ==>
          || |p3.value.genomes| >= plan.MutationTarget()
          || AllAttemptsSeen(plan, survivors, MaxAttempts(plan), p2.next, p3.value))
    && Topped(plan, p3.value, p3.next, all)
    && Grows(p1.value, p2.value) && Grows(p2.value, p3.value) && Grows(p3.value, all)
  }

  // Everything offered is in the assembled pool or its signature was seen before, unless the
  // stage's target was met; the survivors head it.
  lemma AssembledIsFull(plan: Plan, survivors: seq<Genome>, seen: set<string>, s: Word)
    ensures var p1 := FirstMutants(plan, survivors, Elites(survivors, seen), s);
            var p2 := Children(plan, survivors, p1.value, p1.next);
            var p3 := Intensified(plan, survivors, p2.value, p2.next);
            var all := Assembled(plan, survivors, seen, s).value;
            survivors <= all.genomes && seen <= all.seen && Stages(plan, survivors, s, p1, p2, p3, all)
  {
    var p0 := Elites(survivors, seen);
    assert p0.genomes == survivors && seen <= p0.seen;
    hide FirstMutants, Children, MoreMutants, Diversified, AllMutantsSeen, AllChildrenSeen, AllAttemptsSeen, Topped;
    hide Elites, Grows;
    var p1 := FirstMutants(plan, survivors, p0, s);
    MutantsOffered(plan, survivors, p0, s);
    var p2 := Children(plan, survivors, p1.value, p1.next);
    ChildrenOffered(plan, survivors, p1.value, p1.next);
    var p3 := Intensified(plan, survivors, p2.value, p2.next);
    IntensifiedGrows(plan, survivors, p2.value, p2.next);
    var all := Diversified(plan, p3.value, p3.next).value;
    DiversifiedTops(plan, p3.value, p3.next);
    ToppedGrows(plan, p3.value, p3.next, all);
    GrowsOn(p2.value, p3.value, all);
    GrowsOn(p1.value, p2.value, all);
    GrowsOn(p0, p1.value, all);
    GrowsKeeps(p0, all);
    SeenStays(plan, survivors, s, p1.value, all);
    SeenStays(plan, survivors, p1.next, p2.value, all);
    assert Stages(plan, survivors, s, p1, p2, p3, all);
  }

  lemma GrowsKeeps(a: Pool, b: Pool)
    requires Grows(a, b)
    ensures a.genomes <= b.genomes && a.seen <= b.seen
  {
  }

  lemma IntensifiedGrows(plan: Plan, survivors: seq<Genome>, pool: Pool, s: Word)
    ensures var after := Intensified(plan, survivors, pool, s).value;
            && Grows(pool, after)
            && (survivors != [] ==>
                  || |after.genomes| >= plan.MutationTarget()
                  || AllAttemptsSeen(plan, survivors, MaxAttempts(plan), s, after))
  {
    hide MoreMutants, AllAttemptsSeen;
    if survivors != [] {
      AttemptsOffered(plan, survivors, MaxAttempts(plan), pool, s);
    }
  }

  lemma ToppedGrows(plan: Plan, before: Pool, s: Word, after: Pool)
    requires Topped(plan, before, s, after)
    ensures Grows(before, after)
  {
  }

  // ---- a generation is never empty for want of seeds -----------------------------------------

  lemma SubsetValid(cat: seq<FeatureStat>, layers: set<Layer>)
    requires ValidCatalog(cat)
    ensures forall i :: 0 <= i < |StatsIn(cat, layers)| ==> ValidStat(StatsIn(cat, layers)[i])
  {
    hide Filter;
    var pool := StatsIn(cat, layers);
    forall i | 0 <= i < |pool| ensures ValidStat(pool[i]) {
      FilterMember(cat, InLayers(layers), i);
      var j :| 0 <= j < |cat| && cat[j] == pool[i];
    }
  }

  lemma {:induction false} PaddedKeeps(cat: seq<FeatureStat>, target: nat, attempts: nat, acc: seq<Predicate>, s: Word)
    ensures acc <= Padded(cat, target, attempts, acc, s).value
    decreases attempts
  {
    hide DrawFrom;
    if attempts > 0 && |acc| < target {
      var d := DrawFrom(cat, s);
      PaddedKeeps(cat, target, attempts - 1, if d.value.Some? then Admit(acc, d.value.value) else acc, d.next);
    }
  }

  // On a valid catalog that is not empty every random draw of a genome succeeds.
  lemma RandomGenomeDrawn(cat: seq<FeatureStat>, horizon: Horizon, maxPredicates: nat, s: Word)
    requires ValidCatalog(cat) && cat != []
    ensures RandomGenome(cat, horizon, maxPredicates, s).value.Some?
  {
    hide DrawIndex, DrawFrom, DrawChance, NewGenome;
    var n := DrawIndex(s, MaxNat(maxPredicates, 1));
    DrawIsObserved(cat, n.next);
    var d := DrawFrom(cat, n.next);
    var count := 1 + n.value;
    PaddedKeeps(cat, count, count * 4 - 1, Admit([], d.value.value), d.next);
  }

  lemma PromotableGenomeDrawn(cat: seq<FeatureStat>, horizon: Horizon, maxPredicates: nat, s: Word)
    requires ValidCatalog(cat) && StatsIn(cat, ACTIONABLE_LAYERS) != []
    ensures PromotableGenome(cat, horizon, maxPredicates, s).value.Some?
  {
    hide DrawIndex, DrawFrom, DrawChance, NewGenome, StatsIn, Padded;
    SubsetValid(cat, ACTIONABLE_LAYERS);
    DrawIsObserved(StatsIn(cat, ACTIONABLE_LAYERS), s);
  }

  lemma RandomSeedDrawn(cat: seq<FeatureStat>, horizon: Horizon, maxPredicates: nat, bias: real, s: Word)
    requires ValidCatalog(cat) && cat != []
    ensures RandomSeed(cat, horizon, maxPredicates, bias, s).value.Some?
  {
    hide RandomGenome, PromotableGenome, DrawChance, StatsIn;
    if StatsIn(cat, ACTIONABLE_LAYERS) != [] {
      var c := DrawChance(s, bias);
      PromotableGenomeDrawn(cat, horizon, maxPredicates, c.next);
      RandomGenomeDrawn(cat, horizon, maxPredicates, c.next);
    } else {
      RandomGenomeDrawn(cat, horizon, maxPredicates, s);
    }
  }

  lemma {:induction false} FilledKeeps(cat: seq<FeatureStat>, horizon: Horizon, maxPredicates: nat, bias: real,
                                       size: nat, attempts: nat, out: seq<Genome>, s: Word)
    ensures out <= Filled(cat, horizon, maxPredicates, bias, size, attempts, out, s).value
    decreases attempts
  {
    hide RandomSeed, Described;
    if attempts > 0 && |out| < size {
      var d := RandomSeed(cat, horizon, maxPredicates, bias, s);
      FilledKeeps(cat, horizon, maxPredicates, bias, size, attempts - 1,
                  if d.value.Some? then Offer(out, d.value.value) else out, d.next);
    }
  }

  // A population seeded from such a catalog holds somebody.
  lemma SeededNotEmpty(cat: seq<FeatureStat>, horizon: Horizon, size: nat, maxPredicates: nat, bias: real, s: Word)
    requires ValidCatalog(cat) && cat != [] && size > 0
    ensures Seeded(cat, horizon, size, maxPredicates, bias, s).value != []
  {
    hide RandomSeed, ArchetypeSeeds, Leading, ValidCatalog;
    var start := Leading(ArchetypeSeeds(cat, horizon, ARCHETYPES), size, []);
    var clamped := Clamp(bias, 0.0, 1.0);
    if start != [] {
      FilledKeeps(cat, horizon, maxPredicates, clamped, size, size * 8, start, s);
    } else {
      RandomSeedDrawn(cat, horizon, maxPredicates, clamped, s);
      var d := RandomSeed(cat, horizon, maxPredicates, clamped, s);
      assert Offer([], d.value.value) == [d.value.value];
      FilledKeeps(cat, horizon, maxPredicates, clamped, size, size * 8 - 1, [d.value.value], d.next);
    }
  }

  // The first generation of a search over a valid catalog that is not empty evaluates somebody.
  lemma FirstGenerationNotEmpty(plan: Plan, s: Word)
    requires ValidCatalog(plan.catalog) && plan.catalog != [] && plan.perGen >= 1
    ensures Next(plan, [], {}, s).value != []
  {
    hide Seeded, FreshSeeds, ValidCatalog, SignatureOf, SeedRisk;
    NobodyYet(plan, s);
    var need := plan.PoolTarget();
    var seeds := Seeded(plan.catalog, plan.horizon, need * 2, plan.maxPredicates, DEFAULT_PROMOTABLE_BIAS, s);
    SeededNotEmpty(plan.catalog, plan.horizon, need * 2, plan.maxPredicates, DEFAULT_PROMOTABLE_BIAS, s);
    FirstSeedStays(plan, seeds.value, seeds.next);
  }

  // With no survivors and nothing seen, the pool is made of fresh seeds alone.
  lemma NobodyYet(plan: Plan, s: Word)
    ensures Assembled(plan, [], {}, s) == Diversified(plan, Pool([], {}), s)
  {
    hide Diversified;
    assert Signatures([]) == {};
    assert Elites([], {}) == Pool([], {});
  }

  lemma FirstSeedStays(plan: Plan, seeds: seq<Genome>, s: Word)
    requires seeds != [] && plan.PoolTarget() > 0
    ensures FreshSeeds(plan, seeds, Pool([], {}), s).value.genomes != []
  {
    hide SeedRisk, SignatureOf;
    var r := SeedRisk(plan.risk, plan.lockRisk, s);
    var pool := Pool([], {}).Offered(seeds[0].(risk := r.value));
    assert pool.genomes == [seeds[0].(risk := r.value)];
    SeedsOffered(plan, seeds[1..], pool, r.next);
  }

  // So every search with room for one genome records evaluations, however few generations it runs.
  lemma {:induction false} RunEvaluates(env: Env, rows0: Rows, first: Id, k: nat)
    requires 0 < k <= TWO_TO_THE_32
    requires ValidCatalog(env.plan.catalog) && env.plan.catalog != [] && env.plan.perGen >= 1
    ensures RunOf(env, rows0, first, k).history != []
    decreases k
  {
    hide ValidCatalog, RunOf, Generate;
    if k == 1 {
      hide Next;
      FirstGenerationNotEmpty(env.plan, SeedState(env.baseSeed, 0));
      FirstEvaluates(env, rows0, first);
    } else {
      RunEvaluates(env, rows0, first, k - 1);
      RunUnfolds(env, rows0, first, k);
      GenerateExtends(env, k - 1, RunOf(env, rows0, first, k - 1));
    }
  }

  lemma FirstEvaluates(env: Env, rows0: Rows, first: Id)
    requires Next(env.plan, [], {}, SeedState(env.baseSeed, 0)).value != []
    ensures RunOf(env, rows0, first, 1).history != []
  {
    hide Steps, Next, RowsAfter, SurvivorsOf, SeedState;
    var r := Start(rows0, first);
    assert RunOf(env, rows0, first, 0) == r;
    var gs := GenomesOf(env, 0, r);
    StepsExtend(env, 0, Ready(r, gs), gs);
  }

  lemma GenerateExtends(env: Env, generation: nat, r: Run)
    requires generation < TWO_TO_THE_32
    ensures r.history <= Generate(env, generation, r).history
  {
    hide Steps, GenomesOf, RowsAfter, SurvivorsOf;
    var gs := GenomesOf(env, generation, r);
    StepsExtend(env, generation, Ready(r, gs), gs);
  }
}
