// The search run: generations of genomes evaluated, persisted, and decided on.
module Evolve {
  import opened Prelude
  import opened Sorting
  import opened Market
  import opened Risk
  import opened Genomes
  import opened Backtest
  import opened Firewall
  import opened Score
  import opened Signature
  import opened Rng
  import opened Catalog
  import opened Generation
  import opened Strategies

  // Everything a run is configured with. The worker's score is an arbitrary function of the
  // genome, its dataset, the trial count it is told and the generation; `root` stands for the
  // square root in the promotion bound.
  datatype Env = Env(
    plan: Plan, profile: HorizonProfile, windows: seq<Window>, minObservations: nat, era: Option<Era>, baseSeed: Word,
    classify: Features -> RegimeCall, columns: Features -> Features,
    scorer: (Genome, seq<DatasetRow>, nat, nat) -> Option<OosScore>, root: OosScore -> real)

  datatype Evaluated = Evaluated(id: Id, genome: Genome, score: Option<OosScore>, nEntries: nat, trials: nat) {
    predicate Survives() {
      score.Some? && score.value.IsSurvivor()
    }

    predicate IsPromotable(root: OosScore -> real) {
      score.Some? && Promotable(genome, score.value, root(score.value))
    }

    // The status a member's row is left with.
    function Decided(root: OosScore -> real): Status {
      if IsPromotable(root) then Promoted
      else if score.None? || Survives() then Candidate
      else Retired
    }
  }

  // The state of a run between steps. `history` is every evaluation so far, `latest` those of
  // the current generation.
  datatype Run = Run(
    rows: Rows, scores: seq<ScoreEntry>, idFor: map<string, Id>, nextId: Id, seen: set<string>,
    survivors: seq<Genome>, latest: seq<Evaluated>, history: seq<Evaluated>)

  function StudyOf(env: Env, g: Genome): Study {
    Study(g, env.profile, env.classify, env.columns)
  }

  function DatasetFor(env: Env, g: Genome): seq<DatasetRow> {
    Dataset(StudyOf(env, g), env.windows, env.era)
  }

  // A count passed as a 32-bit word.
  function AsU32(n: nat): nat {
    n % TWO_TO_THE_32
  }

  // Too few labeled entries are not scored at all.
  function ScoreFor(env: Env, g: Genome, trials: nat, generation: nat): Option<OosScore> {
    var rows := DatasetFor(env, g);
    if |rows| < MIN_ENTRIES_TO_VALIDATE then None
    else env.scorer(g, rows, MaxNat(trials, 1), generation)
  }

  function IdOf(r: Run, g: Genome): Id {
    if SignatureOf(g) in r.idFor then r.idFor[SignatureOf(g)] else r.nextId
  }

  function EvaluationOf(env: Env, generation: nat, r: Run, g: Genome): Evaluated {
    var known := |r.idFor[SignatureOf(g) := IdOf(r, g)]|;
    Evaluated(IdOf(r, g), g, ScoreFor(env, g, AsU32(known), generation), |DatasetFor(env, g)|, AsU32(known))
  }

  function ScoreRows(ev: Evaluated): seq<ScoreEntry> {
    if ev.score.Some? then [ScoreEntry(ev.id, ev.score.value)] else []
  }

  // Evaluate and persist one genome.
  function Step(env: Env, generation: nat, r: Run, g: Genome): Run {
    var sig := SignatureOf(g);
    var ev := EvaluationOf(env, generation, r, g);
    Run(r.rows[ev.id := Row(g, Candidate, generation)], r.scores + ScoreRows(ev),
        r.idFor[sig := ev.id], if sig in r.idFor then r.nextId else r.nextId + 1, r.seen,
        r.survivors, r.latest + [ev], r.history + [ev])
  }

  function Steps(env: Env, generation: nat, r: Run, gs: seq<Genome>): Run {
    if gs == [] then r else Step(env, generation, Steps(env, generation, r, gs[..|gs| - 1]), gs[|gs| - 1])
  }

  // The row updates of the survivor rule.
  function RowsAfter(env: Env, rows: Rows, evs: seq<Evaluated>): Rows {
    if evs == [] then rows
    else
      var before := RowsAfter(env, rows, evs[..|evs| - 1]);
      var ev := evs[|evs| - 1];
      if ev.IsPromotable(env.root) then Restatused(before, ev.id, Promoted)
      else if ev.Survives() || ev.score.None? then before
      else Restatused(before, ev.id, Retired)
  }

  function SurvivorsOf(env: Env, evs: seq<Evaluated>): (r: seq<Genome>)
    ensures |r| <= |evs|
  {
    if evs == [] then []
    else
      var before := SurvivorsOf(env, evs[..|evs| - 1]);
      var ev := evs[|evs| - 1];
      if ev.IsPromotable(env.root) || ev.Survives() then before + [ev.genome] else before
  }

  function GenomesOf(env: Env, generation: nat, r: Run): seq<Genome>
    requires generation < TWO_TO_THE_32
  {
    Next(env.plan, r.survivors, r.seen, SeedState(env.baseSeed, generation)).value
  }

  // The run just before the generation's genomes are evaluated, and just after.
  function Ready(r: Run, gs: seq<Genome>): Run {
    r.(seen := r.seen + Signatures(gs), latest := [])
  }

  function Evaluations(env: Env, generation: nat, r: Run, gs: seq<Genome>): Run {
    Steps(env, generation, Ready(r, gs), gs)
  }

  function Closed(env: Env, r: Run): Run {
    r.(rows := RowsAfter(env, r.rows, r.latest), survivors := SurvivorsOf(env, r.latest))
  }

  function Generate(env: Env, generation: nat, r: Run): Run
    requires generation < TWO_TO_THE_32
  {
    Closed(env, Evaluations(env, generation, r, GenomesOf(env, generation, r)))
  }

  // A run over a table whose ids all lie below the first one the run will mint.
  function Start(rows: Rows, nextId: Id): Run {
    Run(rows, [], map[], nextId, {}, [], [], [])
  }

  function RunOf(env: Env, rows: Rows, nextId: Id, generations: nat): Run
    requires generations <= TWO_TO_THE_32
  {
    if generations == 0 then Start(rows, nextId)
    else Generate(env, generations - 1, RunOf(env, rows, nextId, generations - 1))
  }

  lemma RunUnfolds(env: Env, rows0: Rows, first: Id, k: nat)
    requires 0 < k <= TWO_TO_THE_32
    ensures RunOf(env, rows0, first, k) == Generate(env, k - 1, RunOf(env, rows0, first, k - 1))
  {
    hide Generate;
  }

  // ---- the run, as the source executes it ------------------------------------------------

  // The search draws on the catalog of its own windows.
  ghost predicate OwnCatalog(env: Env) {
    CatalogOf(env.plan.catalog, env.windows, env.minObservations)
  }

  function HasPoints(): Window -> bool {
    (w: Window) => w.points != []
  }

  // Windows without decision bars are dropped and the catalog is built from the rest.
  method NewManager(env: Env, built: seq<Window>) returns (manager: Env)
    ensures manager.windows == Filter(built, HasPoints()) && OwnCatalog(manager)
    ensures manager == env.(windows := manager.windows, plan := manager.plan)
    ensures manager.plan == env.plan.(catalog := manager.plan.catalog)
    ensures ValidCatalog(manager.plan.catalog)
  {
    var windows := [];
    for i := 0 to |built|
      invariant windows == Filter(built[..i], HasPoints())
    {
      assert built[..i + 1][..i] == built[..i];
      if built[i].points != [] {
        windows := windows + [built[i]];
      }
    }
    assert built[..|built|] == built;
    var catalog := FromWindows(windows, env.minObservations);
    CatalogIsValid(catalog, windows, env.minObservations);
    manager := env.(windows := windows, plan := env.plan.(catalog := catalog));
  }

  datatype SearchError = EmptyCatalog

  method EvaluateGenome(env: Env, g: Genome, id: Id, trials: nat, generation: nat) returns (ev: Evaluated)
    ensures ev == Evaluated(id, g, ScoreFor(env, g, trials, generation), |DatasetFor(env, g)|, trials)
  {
    hide Dataset;
    var rows, n := BuildDataset(StudyOf(env, g), env.windows, env.era);
    if n < MIN_ENTRIES_TO_VALIDATE {
      return Evaluated(id, g, None, n, trials);
    }
    ev := Evaluated(id, g, env.scorer(g, rows, MaxNat(trials, 1), generation), n, trials);
  }

  method Persist(store: Store, ev: Evaluated, generation: nat)
    modifies store
    ensures store.rows == old(store.rows)[ev.id := Row(ev.genome, Candidate, generation)]
    ensures store.scores == old(store.scores) + ScoreRows(ev)
  {
    store.UpsertStrategy(ev.id, Row(ev.genome, Candidate, generation));
    if ev.score.Some? {
      store.InsertScore(ev.id, ev.score.value);
    }
  }

  // Evaluates a generation in order, reusing the id of a known signature and minting one otherwise.
  method EvaluateAll(env: Env, generation: nat, genomes: seq<Genome>, store: Store,
                     known: map<string, Id>, firstFree: Id, ghost before: Run)
    returns (idFor: map<string, Id>, nextId: Id, evaluated: seq<Evaluated>)
    requires before.rows == store.rows && before.scores == store.scores
    requires before.idFor == known && before.nextId == firstFree && before.latest == []
    modifies store
    ensures var r := Steps(env, generation, before, genomes);
            && store.rows == r.rows && store.scores == r.scores
            && idFor == r.idFor && nextId == r.nextId && evaluated == r.latest
  {
    hide SignatureOf, ScoreFor, DatasetFor;
    idFor, nextId, evaluated := known, firstFree, [];
    for i := 0 to |genomes|
      invariant var r := Steps(env, generation, before, genomes[..i]);
                && store.rows == r.rows && store.scores == r.scores
                && idFor == r.idFor && nextId == r.nextId && evaluated == r.latest
    {
      assert genomes[..i + 1][..i] == genomes[..i];
      var sig := GenomeSignature(genomes[i]);
      var id := nextId;
      if sig in idFor {
        id := idFor[sig];
      } else {
        nextId := nextId + 1;
      }
      idFor := idFor[sig := id];
      var ev := EvaluateGenome(env, genomes[i], id, AsU32(|idFor|), generation);
      Persist(store, ev, generation);
      evaluated := evaluated + [ev];
    }
    assert genomes[..|genomes|] == genomes;
  }

  method SelectSurvivors(env: Env, evaluated: seq<Evaluated>, store: Store) returns (survivors: seq<Genome>)
    modifies store`rows
    ensures store.rows == RowsAfter(env, old(store.rows), evaluated)
    ensures survivors == SurvivorsOf(env, evaluated)
  {
    hide Promotable;
    survivors := [];
    for i := 0 to |evaluated|
      invariant store.rows == RowsAfter(env, old(store.rows), evaluated[..i])
      invariant survivors == SurvivorsOf(env, evaluated[..i])
    {
      assert evaluated[..i + 1][..i] == evaluated[..i];
      var ev := evaluated[i];
      if ev.IsPromotable(env.root) {
        store.UpdateStatus(ev.id, Promoted);
        survivors := survivors + [ev.genome];
      } else if ev.Survives() {
        survivors := survivors + [ev.genome];
      } else if ev.score.Some? {
        store.UpdateStatus(ev.id, Retired);
      }
    }
    assert evaluated[..|evaluated|] == evaluated;
  }

  method RunSearch(env: Env, generations: nat, store: Store, firstId: Id)
    returns (result: Result<seq<Evaluated>, SearchError>)
    requires generations <= TWO_TO_THE_32
    modifies store
    ensures env.plan.catalog == [] ==>
              result == Err(EmptyCatalog) && store.rows == old(store.rows) && store.scores == old(store.scores)
    ensures env.plan.catalog != [] ==>
              var r := RunOf(env, old(store.rows), firstId, generations);
              result == Ok(r.history) && store.rows == r.rows && store.scores == old(store.scores) + r.scores
  {
    hide Generate, Steps, Next, RowsAfter, SurvivorsOf;
    if env.plan.catalog == [] {
      return Err(EmptyCatalog);
    }
    ghost var log := store.scores;
    var all: seq<Evaluated>, survivors: seq<Genome>, seen: set<string> := [], [], {};
    var idFor: map<string, Id>, nextId := map[], firstId;
    for generation := 0 to generations
      invariant var r := RunOf(env, old(store.rows), firstId, generation);
                && store.rows == r.rows && store.scores == log + r.scores && idFor == r.idFor
                && nextId == r.nextId && seen == r.seen && survivors == r.survivors && all == r.history
    {
      ghost var r := RunOf(env, old(store.rows), firstId, generation);
      var rng := new Generator.Seeded(env.baseSeed, generation);
      var genomes;
      genomes, seen := NextGeneration(env.plan, survivors, seen, rng);
      ghost var ready := Ready(r, genomes);
      var evaluated;
      idFor, nextId, evaluated := EvaluateAll(env, generation, genomes, store, idFor, nextId, Logged(ready, log));
      StepsLogged(env, generation, ready, log, genomes);
      StepsExtend(env, generation, ready, genomes);
      survivors := SelectSurvivors(env, evaluated, store);
      all := all + evaluated;
      assert RunOf(env, old(store.rows), firstId, generation + 1) == Generate(env, generation, r);
      GenerateUnfolds(env, generation, r, genomes);
    }
    result := Ok(all);
  }

  // A run state whose score log continues an earlier one.
  function Logged(r: Run, log: seq<ScoreEntry>): Run {
    r.(scores := log + r.scores)
  }

  // Evaluating only ever appends to the score log.
  lemma {:induction false} StepsLogged(env: Env, generation: nat, r: Run, log: seq<ScoreEntry>, gs: seq<Genome>)
    ensures Steps(env, generation, Logged(r, log), gs) == Logged(Steps(env, generation, r, gs), log)
  {
    hide SignatureOf, ScoreFor, DatasetFor, ScoreRows;
    if gs != [] {
      StepsLogged(env, generation, r, log, gs[..|gs| - 1]);
    }
  }

  lemma GenerateUnfolds(env: Env, generation: nat, r: Run, gs: seq<Genome>)
    requires generation < TWO_TO_THE_32 && gs == GenomesOf(env, generation, r)
    ensures Generate(env, generation, r) == Closed(env, Steps(env, generation, Ready(r, gs), gs))
  {
  }

  // Evaluating leaves the seen signatures and survivors alone and extends the record in step.
  lemma {:induction false} StepsExtend(env: Env, generation: nat, r: Run, gs: seq<Genome>)
    requires r.latest == []
    ensures var after := Steps(env, generation, r, gs);
            && after.seen == r.seen && after.survivors == r.survivors
            && after.history == r.history + after.latest && |after.latest| == |gs|
  {
    hide EvaluationOf, SignatureOf, ScoreRows;
    if gs != [] {
      StepsExtend(env, generation, r, gs[..|gs| - 1]);
    }
  }

  // ---- what a run sees of its windows -------------------------------------------------------

  // The same search, catalog included, over windows that give every genome the same dataset.
  ghost predicate SameDatasets(a: Env, b: Env) {
    a == b.(windows := a.windows) && forall g :: DatasetFor(a, g) == DatasetFor(b, g)
  }

  lemma SameStep(a: Env, b: Env, generation: nat, r: Run, g: Genome)
    requires SameDatasets(a, b)
    ensures Step(a, generation, r, g) == Step(b, generation, r, g)
  {
    hide DatasetFor, SignatureOf;
    assert DatasetFor(a, g) == DatasetFor(b, g);
  }

  lemma {:induction false} SameSteps(a: Env, b: Env, generation: nat, r: Run, gs: seq<Genome>)
    requires SameDatasets(a, b)
    ensures Steps(a, generation, r, gs) == Steps(b, generation, r, gs)
  {
    hide SameDatasets, Step;
    if gs != [] {
      var n := |gs| - 1;
      SameSteps(a, b, generation, r, gs[..n]);
      SameStep(a, b, generation, Steps(a, generation, r, gs[..n]), gs[n]);
    }
  }

  lemma {:induction false} SameDecisions(a: Env, b: Env, rows: Rows, evs: seq<Evaluated>)
    requires a.root == b.root
    ensures RowsAfter(a, rows, evs) == RowsAfter(b, rows, evs)
    ensures SurvivorsOf(a, evs) == SurvivorsOf(b, evs)
  {
    hide Promotable;
    if evs != [] {
      SameDecisions(a, b, rows, evs[..|evs| - 1]);
    }
  }

  lemma SameGeneration(a: Env, b: Env, generation: nat, r: Run)
    requires SameDatasets(a, b) && generation < TWO_TO_THE_32
    ensures Generate(a, generation, r) == Generate(b, generation, r)
  {
    hide Steps, RowsAfter, SurvivorsOf, Next, DatasetFor;
    var gs := GenomesOf(a, generation, r);
    assert GenomesOf(b, generation, r) == gs;
    SameSteps(a, b, generation, Ready(r, gs), gs);
    var after := Evaluations(a, generation, r, gs);
    SameDecisions(a, b, after.rows, after.latest);
  }

  // A run sees its windows only through its catalog and the datasets they give.
  lemma {:induction false} SameRun(a: Env, b: Env, rows: Rows, first: Id, generations: nat)
    requires SameDatasets(a, b) && generations <= TWO_TO_THE_32
    ensures RunOf(a, rows, first, generations) == RunOf(b, rows, first, generations)
  {
    hide SameDatasets, Generate;
    if generations > 0 {
      SameRun(a, b, rows, first, generations - 1);
      SameGeneration(a, b, generations - 1, RunOf(a, rows, first, generations - 1));
    }
  }
}
