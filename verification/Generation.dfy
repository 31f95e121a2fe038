// Assembling one generation of genomes: elites, mutants, crosses and fresh seeds, deduplicated.
module Generation {
  import opened Prelude
  import opened Market
  import opened Risk
  import opened Genomes
  import opened Rng
  import opened Catalog
  import opened Drawing
  import opened GenomeOps
  import opened Seeding
  import opened RiskSearch
  import opened Signature

  datatype Plan = Plan(
    catalog: seq<FeatureStat>, horizon: Horizon, maxPredicates: nat,
    risk: RiskModel, lockRisk: bool, poolMult: real, perGen: nat)
  {
    // How many candidates to gather before keeping `perGen`.
    function PoolTarget(): (n: nat)
      ensures n >= perGen
    {
      var scaled := Ceil(perGen as real * MaxReal(poolMult, 1.0));
      if scaled < perGen then perGen else scaled
    }

    function MutationTarget(): nat {
      perGen + (PoolTarget() - perGen) / 2
    }
  }

  // ---- the deduplicated pool -------------------------------------------------------------

  datatype Pool = Pool(genomes: seq<Genome>, seen: set<string>) {
    // Keep the first genome of each signature.
    function Offered(g: Genome): Pool {
      if SignatureOf(g) in seen then this else Pool(genomes + [g], seen + {SignatureOf(g)})
    }
  }

  method AdmitUnique(g: Genome, pool: Pool) returns (admitted: bool, after: Pool)
    ensures after == pool.Offered(g)
    ensures admitted <==> SignatureOf(g) !in pool.seen
  {
    var sig := GenomeSignature(g);
    admitted := sig !in pool.seen;
    after := if admitted then Pool(pool.genomes + [g], pool.seen + {sig}) else pool;
  }

  function Signatures(gs: seq<Genome>): set<string> {
    set i | 0 <= i < |gs| :: SignatureOf(gs[i])
  }

  // ---- offspring -------------------------------------------------------------------------

  function Mutant(plan: Plan, g: Genome, s: Word): Draw<Genome> {
    var m := Mutated(g, plan.catalog, s);
    if plan.lockRisk then m
    else
      var r := MutatedRisk(g.risk, m.next);
      Draw(m.value.(risk := r.value), r.next)
  }

  function Child(plan: Plan, a: Genome, b: Genome, s: Word): Draw<Genome> {
    var c := Crossed(a, b, s);
    if plan.lockRisk then Draw(c.value.(risk := plan.risk), c.next)
    else
      var r := CrossedRisk(a.risk, b.risk, c.next);
      Draw(c.value.(risk := r.value), r.next)
  }

  function FirstMutants(plan: Plan, parents: seq<Genome>, pool: Pool, s: Word): Draw<Pool> {
    if parents == [] || |pool.genomes| >= plan.perGen then Draw(pool, s)
    else
      var m := Mutant(plan, parents[0], s);
      FirstMutants(plan, parents[1..], pool.Offered(m.value), m.next)
  }

  // Each pair of neighbouring survivors.
  function Children(plan: Plan, parents: seq<Genome>, pool: Pool, s: Word): Draw<Pool> {
    if |parents| < 2 || |pool.genomes| >= plan.perGen then Draw(pool, s)
    else
      var c := Child(plan, parents[0], parents[1], s);
      Children(plan, parents[1..], pool.Offered(c.value), c.next)
  }

  function MoreMutants(plan: Plan, parents: seq<Genome>, attempts: nat, pool: Pool, s: Word): Draw<Pool>
    requires parents != []
    decreases attempts
  {
    if attempts == 0 || |pool.genomes| >= plan.MutationTarget() then Draw(pool, s)
    else
      var i := DrawIndex(s, |parents|);
      var m := Mutant(plan, parents[i.value], i.next);
      MoreMutants(plan, parents, attempts - 1, pool.Offered(m.value), m.next)
  }

  function FreshSeeds(plan: Plan, seeds: seq<Genome>, pool: Pool, s: Word): Draw<Pool> {
    if seeds == [] || |pool.genomes| >= plan.PoolTarget() then Draw(pool, s)
    else
      var r := SeedRisk(plan.risk, plan.lockRisk, s);
      FreshSeeds(plan, seeds[1..], pool.Offered(seeds[0].(risk := r.value)), r.next)
  }

  function Elites(survivors: seq<Genome>, seen: set<string>): Pool {
    Pool(survivors, seen + Signatures(survivors))
  }

  function MaxAttempts(plan: Plan): nat {
    MaxNat(plan.PoolTarget() * 4, 8)
  }

  function Intensified(plan: Plan, survivors: seq<Genome>, pool: Pool, s: Word): Draw<Pool> {
    if survivors == [] then Draw(pool, s) else MoreMutants(plan, survivors, MaxAttempts(plan), pool, s)
  }

  function Diversified(plan: Plan, pool: Pool, s: Word): Draw<Pool> {
    if |pool.genomes| >= plan.PoolTarget() then Draw(pool, s)
    else
      var need := plan.PoolTarget() - |pool.genomes|;
      var seeds := Seeded(plan.catalog, plan.horizon, need * 2, plan.maxPredicates, DEFAULT_PROMOTABLE_BIAS, s);
      FreshSeeds(plan, seeds.value, pool, seeds.next)
  }

  // The whole candidate pool, before truncation.
  function Assembled(plan: Plan, survivors: seq<Genome>, seen: set<string>, s: Word): Draw<Pool> {
    var p1 := FirstMutants(plan, survivors, Elites(survivors, seen), s);
    var p2 := Children(plan, survivors, p1.value, p1.next);
    var p3 := Intensified(plan, survivors, p2.value, p2.next);
    Diversified(plan, p3.value, p3.next)
  }

  function Truncated(gs: seq<Genome>, n: nat): (r: seq<Genome>)
    ensures |r| <= n && r <= gs
  {
    if |gs| <= n then gs else gs[..n]
  }

  function Next(plan: Plan, survivors: seq<Genome>, seen: set<string>, s: Word): Draw<seq<Genome>> {
    var d := Assembled(plan, survivors, seen, s);
    Draw(Truncated(d.value.genomes, plan.perGen), d.next)
  }

  // ---- the same, as the source runs it --------------------------------------------------

  method MakeMutant(plan: Plan, g: Genome, rng: Generator) returns (m: Genome)
    modifies rng
    ensures Draw(m, rng.state) == Mutant(plan, g, old(rng.state))
  {
    hide Mutated, MutatedRisk;
    m := Mutate(g, plan.catalog, rng);
    if !plan.lockRisk {
      var risk := MutateRisk(g.risk, rng);
      m := m.(risk := risk);
    }
  }

  method MakeChild(plan: Plan, a: Genome, b: Genome, rng: Generator) returns (c: Genome)
    modifies rng
    ensures Draw(c, rng.state) == Child(plan, a, b, old(rng.state))
  {
    hide Crossed, CrossedRisk;
    c := Crossover(a, b, rng);
    if plan.lockRisk {
      c := c.(risk := plan.risk);
    } else {
      var risk := CrossoverRisk(a.risk, b.risk, rng);
      c := c.(risk := risk);
    }
  }

  method BreedSurvivors(plan: Plan, survivors: seq<Genome>, start: Pool, rng: Generator) returns (pool: Pool)
    modifies rng
    ensures var p1 := FirstMutants(plan, survivors, start, old(rng.state));
            Draw(pool, rng.state) == Children(plan, survivors, p1.value, p1.next)
  {
    hide Mutant, Child, SignatureOf;
    pool := start;
    for i := 0 to |survivors|
      invariant FirstMutants(plan, survivors, start, old(rng.state))
             == FirstMutants(plan, survivors[i..], pool, rng.state)
    {
      if |pool.genomes| >= plan.perGen {
        break;
      }
      var m := MakeMutant(plan, survivors[i], rng);
      var admitted;
      admitted, pool := AdmitUnique(m, pool);
    }
    pool := CrossSurvivors(plan, survivors, pool, rng);
  }

  method CrossSurvivors(plan: Plan, survivors: seq<Genome>, start: Pool, rng: Generator) returns (pool: Pool)
    modifies rng
    ensures Draw(pool, rng.state) == Children(plan, survivors, start, old(rng.state))
  {
    hide Child, SignatureOf;
    pool := start;
    if |survivors| >= 2 {
      for i := 0 to |survivors| - 1
        invariant Children(plan, survivors, start, old(rng.state))
               == Children(plan, survivors[i..], pool, rng.state)
      {
        if |pool.genomes| >= plan.perGen {
          return;
        }
        var c := MakeChild(plan, survivors[i], survivors[i + 1], rng);
        var admitted;
        admitted, pool := AdmitUnique(c, pool);
      }
    }
  }

  method Intensify(plan: Plan, survivors: seq<Genome>, start: Pool, rng: Generator) returns (pool: Pool)
    modifies rng
    ensures Draw(pool, rng.state) == Intensified(plan, survivors, start, old(rng.state))
  {
    hide Mutant, SignatureOf, DrawIndex;
    pool := start;
    if survivors != [] {
      var guard, maxAttempts := 0, MaxAttempts(plan);
      while |pool.genomes| < plan.MutationTarget() && guard < maxAttempts
        invariant guard <= maxAttempts
        invariant MoreMutants(plan, survivors, maxAttempts, start, old(rng.state))
               == MoreMutants(plan, survivors, maxAttempts - guard, pool, rng.state)
        decreases maxAttempts - guard
      {
        guard := guard + 1;
        var i := rng.Below(|survivors|);
        var m := MakeMutant(plan, survivors[i], rng);
        var admitted;
        admitted, pool := AdmitUnique(m, pool);
      }
    }
  }

  method Diversify(plan: Plan, start: Pool, rng: Generator) returns (pool: Pool)
    modifies rng
    ensures Draw(pool, rng.state) == Diversified(plan, start, old(rng.state))
  {
    hide Seeded, SeedRisk, SignatureOf;
    pool := start;
    if |pool.genomes| < plan.PoolTarget() {
      var need := plan.PoolTarget() - |pool.genomes|;
      var seeds := SeedPopulation(plan.catalog, plan.horizon, need * 2, plan.maxPredicates,
                                  DEFAULT_PROMOTABLE_BIAS, rng);
      pool := AddFresh(plan, seeds, pool, rng);
    }
  }

  method AddFresh(plan: Plan, seeds: seq<Genome>, start: Pool, rng: Generator) returns (pool: Pool)
    modifies rng
    ensures Draw(pool, rng.state) == FreshSeeds(plan, seeds, start, old(rng.state))
  {
    hide SeedRisk, SignatureOf;
    pool := start;
    for i := 0 to |seeds|
      invariant FreshSeeds(plan, seeds, start, old(rng.state)) == FreshSeeds(plan, seeds[i..], pool, rng.state)
    {
      if |pool.genomes| >= plan.PoolTarget() {
        return;
      }
      var risk := AssignSeedRisk(plan, rng);
      var admitted;
      admitted, pool := AdmitUnique(seeds[i].(risk := risk), pool);
    }
  }

  method AssignSeedRisk(plan: Plan, rng: Generator) returns (risk: RiskModel)
    modifies rng
    ensures Draw(risk, rng.state) == SeedRisk(plan.risk, plan.lockRisk, old(rng.state))
  {
    hide Sampled;
    if plan.lockRisk {
      risk := plan.risk;
    } else {
      risk := SampleRisk(plan.risk, rng);
    }
  }

  method NextGeneration(plan: Plan, survivors: seq<Genome>, globalSeen: set<string>, rng: Generator)
    returns (genomes: seq<Genome>, seen: set<string>)
    modifies rng
    ensures Draw(genomes, rng.state) == Next(plan, survivors, globalSeen, old(rng.state))
    ensures seen == globalSeen + Signatures(genomes)
  {
    hide SignatureOf, FirstMutants, Children, Intensified, Diversified;
    var pool := Pool([], globalSeen);
    for i := 0 to |survivors|
      invariant pool.genomes == survivors[..i] && rng.state == old(rng.state)
      invariant pool.seen == globalSeen + Signatures(survivors[..i])
    {
      SignaturesSnoc(survivors[..i], survivors[i]);
      assert survivors[..i + 1] == survivors[..i] + [survivors[i]];
      var sig := GenomeSignature(survivors[i]);
      pool := Pool(pool.genomes + [survivors[i]], pool.seen + {sig});
    }
    assert survivors[..|survivors|] == survivors;
    assert pool == Elites(survivors, globalSeen);
    pool := BreedSurvivors(plan, survivors, pool, rng);
    pool := Intensify(plan, survivors, pool, rng);
    pool := Diversify(plan, pool, rng);
    genomes := Truncated(pool.genomes, plan.perGen);
    seen := globalSeen;
    for i := 0 to |genomes|
      invariant seen == globalSeen + Signatures(genomes[..i])
      invariant Draw(genomes, rng.state) == Next(plan, survivors, globalSeen, old(rng.state))
    {
      SignaturesSnoc(genomes[..i], genomes[i]);
      assert genomes[..i + 1] == genomes[..i] + [genomes[i]];
      var sig := GenomeSignature(genomes[i]);
      seen := seen + {sig};
    }
    assert genomes[..|genomes|] == genomes;
  }

  lemma SignaturesSnoc(gs: seq<Genome>, g: Genome)
    ensures Signatures(gs + [g]) == Signatures(gs) + {SignatureOf(g)}
  {
    hide SignatureOf;
    var all := gs + [g];
    forall sig ensures sig in Signatures(all) <==> sig in Signatures(gs) || sig == SignatureOf(g) {
      if sig in Signatures(gs) {
        var i :| 0 <= i < |gs| && SignatureOf(gs[i]) == sig;
        assert all[i] == gs[i];
      }
      assert all[|gs|] == g;
    }
  }

  // ---- what a generation keeps -------------------------------------------------------------

  ghost predicate DistinctSignatures(gs: seq<Genome>) {
    forall i, j :: 0 <= i < j < |gs| ==> SignatureOf(gs[i]) != SignatureOf(gs[j])
  }

  // The pool starts with the survivors, repeats no signature, and past the survivors holds
  // only genomes whose signatures no earlier generation used.
  ghost predicate GoodPool(survivors: seq<Genome>, seen: set<string>, pool: Pool) {
    && survivors <= pool.genomes
    && DistinctSignatures(pool.genomes)
    && seen <= pool.seen
    && (forall i :: 0 <= i < |pool.genomes| ==> SignatureOf(pool.genomes[i]) in pool.seen)
    && forall i :: |survivors| <= i < |pool.genomes| ==> SignatureOf(pool.genomes[i]) !in seen
  }

  lemma OfferKeepsGood(survivors: seq<Genome>, seen: set<string>, pool: Pool, g: Genome)
    requires GoodPool(survivors, seen, pool)
    ensures GoodPool(survivors, seen, pool.Offered(g))
  {
    hide SignatureOf;
  }

  lemma {:induction false} FirstMutantsKeep(plan: Plan, parents: seq<Genome>, pool: Pool, s: Word,
                                            survivors: seq<Genome>, seen: set<string>)
    requires GoodPool(survivors, seen, pool)
    ensures GoodPool(survivors, seen, FirstMutants(plan, parents, pool, s).value)
  {
    hide Mutant, SignatureOf, GoodPool;
    if parents != [] && |pool.genomes| < plan.perGen {
      var m := Mutant(plan, parents[0], s);
      OfferKeepsGood(survivors, seen, pool, m.value);
      FirstMutantsKeep(plan, parents[1..], pool.Offered(m.value), m.next, survivors, seen);
    }
  }

  lemma {:induction false} ChildrenKeep(plan: Plan, parents: seq<Genome>, pool: Pool, s: Word,
                                        survivors: seq<Genome>, seen: set<string>)
    requires GoodPool(survivors, seen, pool)
    ensures GoodPool(survivors, seen, Children(plan, parents, pool, s).value)
  {
    hide Child, SignatureOf, GoodPool;
    if |parents| >= 2 && |pool.genomes| < plan.perGen {
      var c := Child(plan, parents[0], parents[1], s);
      OfferKeepsGood(survivors, seen, pool, c.value);
      ChildrenKeep(plan, parents[1..], pool.Offered(c.value), c.next, survivors, seen);
    }
  }

  lemma {:induction false} MoreMutantsKeep(plan: Plan, parents: seq<Genome>, attempts: nat, pool: Pool, s: Word,
                                           survivors: seq<Genome>, seen: set<string>)
    requires parents != [] && GoodPool(survivors, seen, pool)
    ensures GoodPool(survivors, seen, MoreMutants(plan, parents, attempts, pool, s).value)
    decreases attempts
  {
    hide Mutant, SignatureOf, GoodPool, DrawIndex;
    if attempts > 0 && |pool.genomes| < plan.MutationTarget() {
      var i := DrawIndex(s, |parents|);
      var m := Mutant(plan, parents[i.value], i.next);
      OfferKeepsGood(survivors, seen, pool, m.value);
      MoreMutantsKeep(plan, parents, attempts - 1, pool.Offered(m.value), m.next, survivors, seen);
    }
  }

  lemma {:induction false} FreshSeedsKeep(plan: Plan, seeds: seq<Genome>, pool: Pool, s: Word,
                                          survivors: seq<Genome>, seen: set<string>)
    requires GoodPool(survivors, seen, pool)
    ensures GoodPool(survivors, seen, FreshSeeds(plan, seeds, pool, s).value)
  {
    hide SeedRisk, SignatureOf, GoodPool;
    if seeds != [] && |pool.genomes| < plan.PoolTarget() {
      var r := SeedRisk(plan.risk, plan.lockRisk, s);
      OfferKeepsGood(survivors, seen, pool, seeds[0].(risk := r.value));
      FreshSeedsKeep(plan, seeds[1..], pool.Offered(seeds[0].(risk := r.value)), r.next, survivors, seen);
    }
  }

  lemma AssembledIsGood(plan: Plan, survivors: seq<Genome>, seen: set<string>, s: Word)
    requires DistinctSignatures(survivors)
    ensures GoodPool(survivors, seen, Assembled(plan, survivors, seen, s).value)
  {
    hide SignatureOf, FirstMutants, Children, MoreMutants, FreshSeeds, Seeded, GoodPool;
    var p0 := Elites(survivors, seen);
    assert GoodPool(survivors, seen, p0) by {
      ElitesAreGood(survivors, seen);
    }
    var p1 := FirstMutants(plan, survivors, p0, s);
    FirstMutantsKeep(plan, survivors, p0, s, survivors, seen);
    var p2 := Children(plan, survivors, p1.value, p1.next);
    ChildrenKeep(plan, survivors, p1.value, p1.next, survivors, seen);
    var p3 := Intensified(plan, survivors, p2.value, p2.next);
    if survivors != [] {
      MoreMutantsKeep(plan, survivors, MaxAttempts(plan), p2.value, p2.next, survivors, seen);
    }
    DiversifiedKeeps(plan, p3.value, p3.next, survivors, seen);
  }

  lemma ElitesAreGood(survivors: seq<Genome>, seen: set<string>)
    requires DistinctSignatures(survivors)
    ensures GoodPool(survivors, seen, Elites(survivors, seen))
  {
    hide SignatureOf;
  }

  lemma DiversifiedKeeps(plan: Plan, pool: Pool, s: Word, survivors: seq<Genome>, seen: set<string>)
    requires GoodPool(survivors, seen, pool)
    ensures GoodPool(survivors, seen, Diversified(plan, pool, s).value)
  {
    hide FreshSeeds, Seeded, GoodPool;
    if |pool.genomes| < plan.PoolTarget() {
      var need := plan.PoolTarget() - |pool.genomes|;
      var seeds := Seeded(plan.catalog, plan.horizon, need * 2, plan.maxPredicates, DEFAULT_PROMOTABLE_BIAS, s);
      FreshSeedsKeep(plan, seeds.value, pool, seeds.next, survivors, seen);
    }
  }

  // Survivors that fit in the generation are all carried forward, first; the rest of it is new to
  // the run; and no signature repeats. Truncation can drop no survivor.
  lemma NextIsGood(plan: Plan, survivors: seq<Genome>, seen: set<string>, s: Word)
    requires DistinctSignatures(survivors) && |survivors| <= plan.perGen
    ensures var gs := Next(plan, survivors, seen, s).value;
            && |gs| <= plan.perGen && survivors <= gs && DistinctSignatures(gs)
            && (forall i :: |survivors| <= i < |gs| ==> SignatureOf(gs[i]) !in seen)
  {
    hide SignatureOf, Assembled;
    AssembledIsGood(plan, survivors, seen, s);
  }

  // ---- fitness -------------------------------------------------------------------------------

  // A genome the search may hold: valid over the catalog, of the plan's horizon, and on the
  // operator's exact geometry when that is locked, on one with a positive stop when it is not.
  ghost predicate Fit(plan: Plan, g: Genome) {
    && ValidGenome(g, plan.catalog, SizeCap(plan.maxPredicates)) && g.horizon == plan.horizon
    && if plan.lockRisk then g.risk == plan.risk else g.risk.StopPositive()
  }

  ghost predicate AllFit(plan: Plan, gs: seq<Genome>) {
    forall i :: 0 <= i < |gs| ==> Fit(plan, gs[i])
  }

  lemma OfferKeepsFit(plan: Plan, pool: Pool, g: Genome)
    requires AllFit(plan, pool.genomes) && Fit(plan, g)
    ensures AllFit(plan, pool.Offered(g).genomes)
  {
    hide SignatureOf, Fit;
  }

  lemma MutantIsFit(plan: Plan, g: Genome, s: Word)
    requires ValidCatalog(plan.catalog) && Fit(plan, g)
    ensures Fit(plan, Mutant(plan, g, s).value)
  {
    hide Mutated, MutatedRisk, ValidCatalog;
    MutantIsValid(g, plan.catalog, SizeCap(plan.maxPredicates), s);
    StopsStayPositive(g.risk, g.risk, Mutated(g, plan.catalog, s).next);
  }

  lemma ChildIsFit(plan: Plan, a: Genome, b: Genome, s: Word)
    requires Fit(plan, a) && Fit(plan, b)
    ensures Fit(plan, Child(plan, a, b, s).value)
  {
    hide Crossed, CrossedRisk;
    CrossIsValid(a, b, plan.catalog, SizeCap(plan.maxPredicates), s);
    StopsStayPositive(a.risk, b.risk, Crossed(a, b, s).next);
  }

  lemma FreshIsFit(plan: Plan, g: Genome, s: Word)
    requires ValidGenome(g, plan.catalog, SizeCap(plan.maxPredicates)) && g.horizon == plan.horizon
    ensures Fit(plan, g.(risk := SeedRisk(plan.risk, plan.lockRisk, s).value))
  {
    hide Sampled, ValidPredicates;
    StopsStayPositive(plan.risk, plan.risk, s);
  }

  lemma {:induction false} FirstMutantsFit(plan: Plan, parents: seq<Genome>, pool: Pool, s: Word)
    requires ValidCatalog(plan.catalog) && AllFit(plan, parents) && AllFit(plan, pool.genomes)
    ensures AllFit(plan, FirstMutants(plan, parents, pool, s).value.genomes)
  {
    hide Mutant, SignatureOf, Fit, ValidCatalog;
    if parents != [] && |pool.genomes| < plan.perGen {
      var m := Mutant(plan, parents[0], s);
      MutantIsFit(plan, parents[0], s);
      OfferKeepsFit(plan, pool, m.value);
      FirstMutantsFit(plan, parents[1..], pool.Offered(m.value), m.next);
    }
  }

  lemma {:induction false} ChildrenFit(plan: Plan, parents: seq<Genome>, pool: Pool, s: Word)
    requires AllFit(plan, parents) && AllFit(plan, pool.genomes)
    ensures AllFit(plan, Children(plan, parents, pool, s).value.genomes)
  {
    hide Child, SignatureOf, Fit;
    if |parents| >= 2 && |pool.genomes| < plan.perGen {
      var c := Child(plan, parents[0], parents[1], s);
      ChildIsFit(plan, parents[0], parents[1], s);
      OfferKeepsFit(plan, pool, c.value);
      ChildrenFit(plan, parents[1..], pool.Offered(c.value), c.next);
    }
  }

  lemma {:induction false} MoreMutantsFit(plan: Plan, parents: seq<Genome>, attempts: nat, pool: Pool, s: Word)
    requires ValidCatalog(plan.catalog) && AllFit(plan, parents) && parents != [] && AllFit(plan, pool.genomes)
    ensures AllFit(plan, MoreMutants(plan, parents, attempts, pool, s).value.genomes)
    decreases attempts
  {
    hide Mutant, SignatureOf, Fit, ValidCatalog, DrawIndex;
    if attempts > 0 && |pool.genomes| < plan.MutationTarget() {
      var i := DrawIndex(s, |parents|);
      var m := Mutant(plan, parents[i.value], i.next);
      MutantIsFit(plan, parents[i.value], i.next);
      OfferKeepsFit(plan, pool, m.value);
      MoreMutantsFit(plan, parents, attempts - 1, pool.Offered(m.value), m.next);
    }
  }

  lemma {:induction false} FreshSeedsFit(plan: Plan, seeds: seq<Genome>, pool: Pool, s: Word)
    requires AllValid(seeds, plan.catalog, SizeCap(plan.maxPredicates), plan.horizon) && AllFit(plan, pool.genomes)
    ensures AllFit(plan, FreshSeeds(plan, seeds, pool, s).value.genomes)
  {
    hide SeedRisk, SignatureOf, Fit, ValidGenome;
    if seeds != [] && |pool.genomes| < plan.PoolTarget() {
      var r := SeedRisk(plan.risk, plan.lockRisk, s);
      FreshIsFit(plan, seeds[0], s);
      OfferKeepsFit(plan, pool, seeds[0].(risk := r.value));
      FreshSeedsFit(plan, seeds[1..], pool.Offered(seeds[0].(risk := r.value)), r.next);
    }
  }

  lemma DiversifiedFit(plan: Plan, pool: Pool, s: Word)
    requires ValidCatalog(plan.catalog) && AllFit(plan, pool.genomes)
    ensures AllFit(plan, Diversified(plan, pool, s).value.genomes)
  {
    hide FreshSeeds, Seeded, AllFit, AllValid, ValidCatalog;
    if |pool.genomes| < plan.PoolTarget() {
      var need := plan.PoolTarget() - |pool.genomes|;
      var seeds := Seeded(plan.catalog, plan.horizon, need * 2, plan.maxPredicates, DEFAULT_PROMOTABLE_BIAS, s);
      SeededIsValid(plan.catalog, plan.horizon, need * 2, plan.maxPredicates, DEFAULT_PROMOTABLE_BIAS, s);
      FreshSeedsFit(plan, seeds.value, pool, seeds.next);
    }
  }

  // Fit survivors have a fit next generation, whatever is drawn.
  lemma NextIsFit(plan: Plan, survivors: seq<Genome>, seen: set<string>, s: Word)
    requires ValidCatalog(plan.catalog) && AllFit(plan, survivors)
    ensures AllFit(plan, Next(plan, survivors, seen, s).value)
  {
    hide SignatureOf, FirstMutants, Children, MoreMutants, Diversified, ValidCatalog, Fit;
    var p0 := Elites(survivors, seen);
    var p1 := FirstMutants(plan, survivors, p0, s);
    FirstMutantsFit(plan, survivors, p0, s);
    var p2 := Children(plan, survivors, p1.value, p1.next);
    ChildrenFit(plan, survivors, p1.value, p1.next);
    var p3 := Intensified(plan, survivors, p2.value, p2.next);
    if survivors != [] {
      MoreMutantsFit(plan, survivors, MaxAttempts(plan), p2.value, p2.next);
    }
    DiversifiedFit(plan, p3.value, p3.next);
  }
}
