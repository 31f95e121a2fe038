// What a run records of each evaluation: what the worker was asked and what became of its answer.
module RunRecord {
  import opened Prelude
  import opened Genomes
  import opened Backtest
  import opened Firewall
  import opened Score
  import opened Signature
  import opened Strategies
  import opened Evolve
  import opened RunSafety
  import opened RunInvariant

  // The j-th evaluation of a record was scored on the genome's own dataset: not at all below forty
  // rows, else by the worker, told how many distinct signatures had been evaluated by then, this
  // one included, as a 32-bit word of at least one, and the generation.
  ghost predicate ScoredAs(env: Env, h: seq<Evaluated>, j: nat, generation: nat)
    requires j < |h|
  {
    var g := h[j].genome;
    var rows := Dataset(Study(g, env.profile, env.classify, env.columns), env.windows, env.era);
    var trials := |SignaturesIn(h[..j + 1])| % 0x1_0000_0000;
    && h[j].nEntries == |rows|
    && h[j].score == if |rows| < 40 then None
                     else env.scorer(g, rows, if trials == 0 then 1 else trials, generation)
  }

  ghost predicate ScoredFrom(env: Env, h: seq<Evaluated>, from: nat, generation: nat) {
    forall j :: from <= j < |h| ==> ScoredAs(env, h, j, generation)
  }

  lemma EvaluationScored(env: Env, generation: nat, r: Run, g: Genome)
    requires Recorded(r)
    ensures ScoredAs(env, r.history + [EvaluationOf(env, generation, r, g)], |r.history|, generation)
  {
    hide SignatureOf, SignaturesIn, Dataset, EvaluationOf, Recorded;
    var all := r.history + [EvaluationOf(env, generation, r, g)];
    assert all[..|r.history| + 1] == all;
    EvaluationReads(env, generation, r, g);
    EvaluationCounts(env, generation, r, g);
  }

  lemma EvaluationReads(env: Env, generation: nat, r: Run, g: Genome)
    ensures var ev := EvaluationOf(env, generation, r, g);
            var rows := Dataset(Study(g, env.profile, env.classify, env.columns), env.windows, env.era);
            var trials := |r.idFor[SignatureOf(g) := IdOf(r, g)]| % 0x1_0000_0000;
            && ev.genome == g && ev.nEntries == |rows|
            && ev.score == if |rows| < 40 then None
                           else env.scorer(g, rows, if trials == 0 then 1 else trials, generation)
  {
    hide SignatureOf, Dataset, IdOf;
  }

  lemma EvaluationCounts(env: Env, generation: nat, r: Run, g: Genome)
    requires Recorded(r)
    ensures |r.idFor[SignatureOf(g) := IdOf(r, g)]| == |SignaturesIn(r.history + [EvaluationOf(env, generation, r, g)])|
  {
    hide SignatureOf, SignaturesIn, RecordedAt, IdOf, ScoreFor, DatasetFor;
    SignaturesInSnoc(r.history, EvaluationOf(env, generation, r, g));
    var known := r.idFor[SignatureOf(g) := IdOf(r, g)];
    assert known.Keys == r.idFor.Keys + {SignatureOf(g)};
    KeysCount(known);
  }

  lemma EarlierScored(env: Env, h: seq<Evaluated>, more: seq<Evaluated>, j: nat, generation: nat)
    requires j < |h|
    ensures ScoredAs(env, h + more, j, generation) <==> ScoredAs(env, h, j, generation)
  {
    hide SignaturesIn, Dataset;
    assert (h + more)[..j + 1] == h[..j + 1];
  }

  lemma {:induction false} StepsScored(env: Env, generation: nat, r: Run, gs: seq<Genome>)
    requires Recorded(r)
    ensures ScoredFrom(env, Steps(env, generation, r, gs).history, |r.history|, generation)
    ensures r.history <= Steps(env, generation, r, gs).history
  {
    hide Recorded, Step, ScoredAs;
    if gs != [] {
      var n := |gs| - 1;
      var mid := Steps(env, generation, r, gs[..n]);
      StepsScored(env, generation, r, gs[..n]);
      StepsRecorded(env, generation, r, gs[..n]);
      StepScores(env, generation, |r.history|, mid, gs[n]);
    }
  }

  lemma StepScores(env: Env, generation: nat, from: nat, r: Run, g: Genome)
    requires Recorded(r) && from <= |r.history| && ScoredFrom(env, r.history, from, generation)
    ensures var after := Step(env, generation, r, g);
            ScoredFrom(env, after.history, from, generation) && r.history <= after.history
  {
    hide Recorded, Step, ScoredAs, EvaluationOf;
    StepHistory(env, generation, r, g);
    EvaluationScored(env, generation, r, g);
    var ev := EvaluationOf(env, generation, r, g);
    forall j: nat | from <= j < |r.history| ensures ScoredAs(env, r.history + [ev], j, generation) {
      EarlierScored(env, r.history, [ev], j, generation);
    }
  }

  lemma GenerationScored(env: Env, generation: nat, r: Run, rows0: Rows, first: Id)
    requires generation < TWO_TO_THE_32 && Invariant(env, r, rows0, first)
    ensures var next := Generate(env, generation, r);
            r.history <= next.history && ScoredFrom(env, next.history, |r.history|, generation)
  {
    hide Steps, GenomesOf, Invariant, ScoredFrom, RowsAfter, SurvivorsOf, Recorded;
    var gs := GenomesOf(env, generation, r);
    ReadyKeeps(env, r, gs, rows0, first);
    StepsScored(env, generation, Ready(r, gs), gs);
  }

  // Every evaluation of every run was scored as its generation, and the evaluations before it,
  // determine.
  lemma {:induction false} EachScored(env: Env, rows0: Rows, first: Id, k: nat, j: nat) returns (g: nat)
    requires k <= TWO_TO_THE_32 && Below(rows0, first) && j < |RunOf(env, rows0, first, k).history|
    ensures g < k && |RunOf(env, rows0, first, g).history| <= j < |RunOf(env, rows0, first, g + 1).history|
    ensures ScoredAs(env, RunOf(env, rows0, first, k).history, j, g)
    decreases k
  {
    StartsEmpty(rows0, first);
    hide Generate, Invariant, ScoredAs, Start;
    if k > 0 {
      var r := RunOf(env, rows0, first, k - 1);
      RunKeepsInvariant(env, rows0, first, k - 1);
      GenerationScored(env, k - 1, r, rows0, first);
      if j < |r.history| {
        g := EachScored(env, rows0, first, k - 1, j);
        var h := RunOf(env, rows0, first, k).history;
        assert h == r.history + h[|r.history|..];
        EarlierScored(env, r.history, h[|r.history|..], j, g);
      } else {
        g := k - 1;
      }
    }
  }

  lemma StartsEmpty(rows0: Rows, first: Id)
    ensures Start(rows0, first).history == [] && Start(rows0, first).scores == []
  {
  }

  // ---- the score log -------------------------------------------------------------------------

  // One entry, under its id, for each evaluation that was scored, in order.
  function LogOf(h: seq<Evaluated>): seq<ScoreEntry> {
    if h == [] then []
    else
      var last := h[|h| - 1];
      LogOf(h[..|h| - 1]) + (match last.score case None => [] case Some(s) => [ScoreEntry(last.id, s)])
  }

  lemma {:induction false} StepsLog(env: Env, generation: nat, r: Run, gs: seq<Genome>)
    requires r.scores == LogOf(r.history)
    ensures Steps(env, generation, r, gs).scores == LogOf(Steps(env, generation, r, gs).history)
  {
    hide EvaluationOf, SignatureOf;
    if gs != [] {
      var n := |gs| - 1;
      StepsLog(env, generation, r, gs[..n]);
      StepLogs(env, generation, Steps(env, generation, r, gs[..n]), gs[n]);
    }
  }

  lemma StepLogs(env: Env, generation: nat, r: Run, g: Genome)
    requires r.scores == LogOf(r.history)
    ensures Step(env, generation, r, g).scores == LogOf(Step(env, generation, r, g).history)
  {
    hide EvaluationOf, SignatureOf;
    var ev := EvaluationOf(env, generation, r, g);
    assert (r.history + [ev])[..|r.history|] == r.history;
  }

  lemma GenerationLogs(env: Env, generation: nat, r: Run)
    requires generation < TWO_TO_THE_32 && r.scores == LogOf(r.history)
    ensures Generate(env, generation, r).scores == LogOf(Generate(env, generation, r).history)
  {
    hide Steps, GenomesOf, RowsAfter, SurvivorsOf, LogOf;
    var gs := GenomesOf(env, generation, r);
    StepsLog(env, generation, Ready(r, gs), gs);
  }

  // The score log holds exactly the answers the run was given.
  lemma {:induction false} RunLogs(env: Env, rows0: Rows, first: Id, k: nat)
    requires k <= TWO_TO_THE_32
    ensures RunOf(env, rows0, first, k).scores == LogOf(RunOf(env, rows0, first, k).history)
    decreases k
  {
    StartsEmpty(rows0, first);
    hide Generate, Start;
    if k > 0 {
      RunLogs(env, rows0, first, k - 1);
      GenerationLogs(env, k - 1, RunOf(env, rows0, first, k - 1));
    }
  }

  // ---- the rows of the latest generation -------------------------------------------------------

  // What a score is worth to the search: kept when the gate passed, or when expectancy and the
  // deflated Sharpe ratio are positive and the overfit probability is below one half.
  ghost predicate Worthwhile(s: OosScore) {
    s.passedGate || (s.expectancy > 0.0 && s.dsr > 0.0 && s.pbo < 0.5)
  }

  // The status an evaluation leaves its row with, spelled out.
  ghost predicate Statused(env: Env, ev: Evaluated, status: Status) {
    && (status == Promoted <==> ev.score.Some? && Promotable(ev.genome, ev.score.value, env.root(ev.score.value)))
    && (status == Retired <==> ev.score.Some? && !Worthwhile(ev.score.value))
    && (status == Candidate || status == Promoted || status == Retired)
  }

  lemma DecidedStatus(env: Env, ev: Evaluated)
    ensures Statused(env, ev, ev.Decided(env.root))
  {
    hide WilsonLowerBound;
    if ev.score.Some? && Promotable(ev.genome, ev.score.value, env.root(ev.score.value)) {
      PromotableSurvives(ev.genome, ev.score.value, env.root(ev.score.value));
    }
  }

  // The row of a latest evaluation holds its genome, the generation and the status its score earns.
  ghost predicate RowLeft(env: Env, r: Run, i: nat, generation: nat)
    requires i < |r.latest|
  {
    var ev := r.latest[i];
    && ev.id in r.rows && r.rows[ev.id].genome == ev.genome && r.rows[ev.id].generation == generation
    && Statused(env, ev, r.rows[ev.id].status)
  }

  // After each generation the row of each genome it evaluated holds that genome, that generation
  // and the status its score earns.
  lemma LatestRows(env: Env, rows0: Rows, first: Id, k: nat, i: nat)
    requires 0 < k <= TWO_TO_THE_32 && Below(rows0, first) && i < |RunOf(env, rows0, first, k).latest|
    ensures RowLeft(env, RunOf(env, rows0, first, k), i, k - 1)
  {
    hide RunOf, Invariant, RowLeft, Generate;
    RunKeepsInvariant(env, rows0, first, k - 1);
    RunUnfolds(env, rows0, first, k);
    LatestRow(env, k - 1, RunOf(env, rows0, first, k - 1), rows0, first, i);
  }

  lemma LatestRow(env: Env, generation: nat, r: Run, rows0: Rows, first: Id, i: nat)
    requires generation < TWO_TO_THE_32 && Below(rows0, first) && Invariant(env, r, rows0, first)
    requires i < |Generate(env, generation, r).latest|
    ensures RowLeft(env, Generate(env, generation, r), i, generation)
  {
    hide Evaluations, Invariant, GenomesOf, RowsAfter, SurvivorsOf, Statused, Evaluated.Decided, GoodGenomes;
    var gs := GenomesOf(env, generation, r);
    var after := Evaluations(env, generation, r, gs);
    GenomesAreGood(env, generation, r, rows0, first);
    GenomesDistinct(env, r, gs);
    GenerationPrepared(env, generation, r, gs, rows0, first);
    PreparedIds(env, generation, r, after, gs, rows0, first);
    PreparedDecides(env, generation, r, after, gs, rows0, first);
    DecidedAt(env, after.rows, RowsAfter(env, after.rows, after.latest), after.latest, i);
    DecidedStatus(env, after.latest[i]);
    PreparedGenome(env, generation, r, after, gs, rows0, first, i);
  }

  lemma PreparedGenome(env: Env, generation: nat, r: Run, after: Run, gs: seq<Genome>, rows0: Rows, first: Id, i: nat)
    requires Prepared(env, generation, r, after, gs, rows0, first) && i < |after.latest|
    ensures |gs| == |after.latest| && after.latest[i].genome == gs[i]
  {
    hide SignatureOf, Identified, Recorded, Resets;
  }
}
