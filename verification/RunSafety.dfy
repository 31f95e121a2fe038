// Invariants of every search run: identities, statuses, finality and the trial count.
module RunSafety {
  import opened Prelude
  import opened Genomes
  import opened Score
  import opened Signature
  import opened Rng
  import opened Generation
  import opened Strategies
  import opened Evolve

  // ---- identities ---------------------------------------------------------------------

  function SigAt(r: Run, id: Id): string
    requires id in r.rows
  {
    SignatureOf(r.rows[id].genome)
  }

  // The ids minted so far and the signatures seen so far correspond one to one through the
  // rows, and rows that were there before the run are as they were.
  ghost predicate Identified(r: Run, rows0: Rows, first: Id) {
    && first <= r.nextId
    && (forall id :: first <= id < r.nextId ==> id in r.rows && SigAt(r, id) in r.idFor && r.idFor[SigAt(r, id)] == id)
    && (forall sig :: sig in r.idFor ==>
          first <= r.idFor[sig] < r.nextId && r.idFor[sig] in r.rows && SigAt(r, r.idFor[sig]) == sig)
    && (forall id :: id in rows0 ==> id in r.rows && r.rows[id] == rows0[id])
    && forall id :: id in r.rows ==> id in rows0 || first <= id < r.nextId
  }

  ghost predicate Below(rows0: Rows, first: Id) {
    forall id :: id in rows0 ==> id < first
  }

  lemma StepIdentified(env: Env, generation: nat, r: Run, g: Genome, rows0: Rows, first: Id)
    requires Identified(r, rows0, first) && Below(rows0, first)
    ensures Identified(Step(env, generation, r, g), rows0, first)
  {
    hide SignatureOf, Step, EvaluationOf, Identified;
    var after, row := Step(env, generation, r, g), Row(g, Candidate, generation);
    StepShape(env, generation, r, g);
    if SignatureOf(g) in r.idFor {
      KnownIdentified(r, after, rows0, first, row, r.idFor[SignatureOf(g)]);
    } else {
      NewIdentified(r, after, rows0, first, row);
    }
  }

  lemma StepShape(env: Env, generation: nat, r: Run, g: Genome)
    ensures var after, id := Step(env, generation, r, g), IdOf(r, g);
            && after.rows == r.rows[id := Row(g, Candidate, generation)]
            && after.idFor == r.idFor[SignatureOf(g) := id]
            && after.nextId == (if SignatureOf(g) in r.idFor then r.nextId else r.nextId + 1)
            && after.latest == r.latest + [EvaluationOf(env, generation, r, g)]
            && EvaluationOf(env, generation, r, g).id == id && EvaluationOf(env, generation, r, g).genome == g
  {
    hide SignatureOf, ScoreFor, DatasetFor;
  }

  lemma KnownIdentified(r: Run, after: Run, rows0: Rows, first: Id, row: Row, id: Id)
    requires Identified(r, rows0, first) && Below(rows0, first)
    requires SignatureOf(row.genome) in r.idFor && id == r.idFor[SignatureOf(row.genome)]
    requires after.rows == r.rows[id := row] && after.idFor == r.idFor && after.nextId == r.nextId
    ensures Identified(after, rows0, first)
  {
    hide SignatureOf;
    assert forall i :: i in r.rows ==> i in after.rows && SigAt(after, i) == SigAt(r, i);
  }

  lemma NewIdentified(r: Run, after: Run, rows0: Rows, first: Id, row: Row)
    requires Identified(r, rows0, first) && Below(rows0, first) && SignatureOf(row.genome) !in r.idFor
    requires after.rows == r.rows[r.nextId := row] && after.nextId == r.nextId + 1
    requires after.idFor == r.idFor[SignatureOf(row.genome) := r.nextId]
    ensures Identified(after, rows0, first)
  {
    hide SignatureOf;
    assert SigAt(after, r.nextId) == SignatureOf(row.genome);
    assert forall i :: i in r.rows && i != r.nextId ==> i in after.rows && SigAt(after, i) == SigAt(r, i);
  }

  lemma {:induction false} StepsIdentified(env: Env, generation: nat, r: Run, gs: seq<Genome>, rows0: Rows, first: Id)
    requires Identified(r, rows0, first) && Below(rows0, first)
    ensures Identified(Steps(env, generation, r, gs), rows0, first)
  {
    hide Identified, Step;
    if gs != [] {
      var n := |gs| - 1;
      StepsIdentified(env, generation, r, gs[..n], rows0, first);
      StepIdentified(env, generation, Steps(env, generation, r, gs[..n]), gs[n], rows0, first);
    }
  }

  // Two ids name the same row exactly when they carry the same signature.
  lemma OneIdPerSignature(r: Run, rows0: Rows, first: Id, a: Id, b: Id)
    requires Identified(r, rows0, first) && first <= a < r.nextId && first <= b < r.nextId
    ensures SigAt(r, a) == SigAt(r, b) <==> a == b
  {
    hide SignatureOf;
  }

  // ---- the record of evaluations ----------------------------------------------------------

  function SignaturesIn(evs: seq<Evaluated>): set<string> {
    set i | 0 <= i < |evs| :: SignatureOf(evs[i].genome)
  }

  lemma SignaturesInSnoc(evs: seq<Evaluated>, ev: Evaluated)
    ensures SignaturesIn(evs + [ev]) == SignaturesIn(evs) + {SignatureOf(ev.genome)}
  {
    hide SignatureOf;
    var all := evs + [ev];
    forall sig ensures sig in SignaturesIn(all) <==> sig in SignaturesIn(evs) || sig == SignatureOf(ev.genome) {
      if sig in SignaturesIn(evs) {
        var i :| 0 <= i < |evs| && SignatureOf(evs[i].genome) == sig;
        assert all[i] == evs[i];
      }
      assert all[|evs|] == ev;
    }
  }

  // Each evaluation bears the id of its signature and was told how many distinct signatures
  // had been evaluated by then, itself included.
  ghost predicate Recorded(r: Run) {
    && r.idFor.Keys == SignaturesIn(r.history)
    && forall j :: 0 <= j < |r.history| ==> RecordedAt(r.idFor, r.history, j)
  }

  ghost predicate RecordedAt(idFor: map<string, Id>, history: seq<Evaluated>, j: nat)
    requires j < |history|
  {
    && SignatureOf(history[j].genome) in idFor
    && history[j].id == idFor[SignatureOf(history[j].genome)]
    && history[j].trials == AsU32(|SignaturesIn(history[..j + 1])|)
  }

  lemma StepRecorded(env: Env, generation: nat, r: Run, g: Genome)
    requires Recorded(r)
    ensures Recorded(Step(env, generation, r, g))
  {
    hide SignatureOf, Step, EvaluationOf, SignaturesIn;
    var after := Step(env, generation, r, g);
    var ev := EvaluationOf(env, generation, r, g);
    StepShape(env, generation, r, g);
    StepHistory(env, generation, r, g);
    SignaturesInSnoc(r.history, ev);
    assert after.idFor.Keys == SignaturesIn(after.history);
    KeysCount(after.idFor);
    forall j | 0 <= j < |after.history| ensures RecordedAt(after.idFor, after.history, j) {
      if j < |r.history| {
        assert RecordedAt(r.idFor, r.history, j);
        EarlierRecorded(r.idFor, r.history, j, SignatureOf(g), IdOf(r, g), ev);
      } else {
        assert after.history[..j + 1] == after.history;
      }
    }
  }

  lemma StepHistory(env: Env, generation: nat, r: Run, g: Genome)
    ensures var after, ev := Step(env, generation, r, g), EvaluationOf(env, generation, r, g);
            after.history == r.history + [ev] && ev.trials == AsU32(|after.idFor|)
  {
    hide SignatureOf, ScoreFor, DatasetFor;
  }

  lemma EarlierRecorded(idFor: map<string, Id>, history: seq<Evaluated>, j: nat, sig: string, id: Id, ev: Evaluated)
    requires j < |history| && RecordedAt(idFor, history, j) && (sig in idFor ==> idFor[sig] == id)
    ensures RecordedAt(idFor[sig := id], history + [ev], j)
  {
    hide SignatureOf, SignaturesIn;
    assert (history + [ev])[..j + 1] == history[..j + 1];
  }

  lemma KeysCount(m: map<string, Id>)
    ensures |m| == |m.Keys|
  {
  }

  lemma {:induction false} StepsRecorded(env: Env, generation: nat, r: Run, gs: seq<Genome>)
    requires Recorded(r)
    ensures Recorded(Steps(env, generation, r, gs))
  {
    hide Recorded, Step;
    if gs != [] {
      var n := |gs| - 1;
      StepsRecorded(env, generation, r, gs[..n]);
      StepRecorded(env, generation, Steps(env, generation, r, gs[..n]), gs[n]);
    }
  }

  lemma {:induction false} StepsKeys(env: Env, generation: nat, r: Run, gs: seq<Genome>)
    ensures Steps(env, generation, r, gs).idFor.Keys == r.idFor.Keys + Signatures(gs)
  {
    hide SignatureOf, EvaluationOf, ScoreRows, Signatures;
    if gs == [] {
      assert Signatures([]) == {} by {
        NoSignatures();
      }
    } else {
      var n := |gs| - 1;
      StepsKeys(env, generation, r, gs[..n]);
      SignaturesSnoc(gs[..n], gs[n]);
      assert gs == gs[..n] + [gs[n]];
    }
  }

  lemma NoSignatures()
    ensures Signatures([]) == {}
  {
  }

  // ---- what one generation does to the rows ----------------------------------------------

  // The evaluations of a generation, in order: genome and id of each, and rows reset.
  ghost predicate Evaluates(env: Env, generation: nat, before: Run, after: Run, gs: seq<Genome>) {
    && |after.latest| == |gs|
    && (forall i :: 0 <= i < |gs| ==> after.latest[i].genome == gs[i])
    && (forall i :: 0 <= i < |gs| ==>
          SignatureOf(gs[i]) in after.idFor && after.latest[i].id == after.idFor[SignatureOf(gs[i])])
    && (forall sig :: sig in before.idFor ==> sig in after.idFor && after.idFor[sig] == before.idFor[sig])
    && (forall sig :: sig in after.idFor && sig !in before.idFor ==> before.nextId <= after.idFor[sig])
    && before.nextId <= after.nextId
  }

  lemma {:induction false} StepsEvaluate(env: Env, generation: nat, r: Run, gs: seq<Genome>)
    requires r.latest == []
    ensures Evaluates(env, generation, r, Steps(env, generation, r, gs), gs)
  {
    hide SignatureOf, ScoreFor, DatasetFor, ScoreRows;
    if gs != [] {
      var n := |gs| - 1;
      StepsEvaluate(env, generation, r, gs[..n]);
      StepEvaluates(env, generation, r, Steps(env, generation, r, gs[..n]), gs[..n], gs[n]);
      assert gs == gs[..n] + [gs[n]];
    }
  }

  lemma StepEvaluates(env: Env, generation: nat, start: Run, r: Run, gs: seq<Genome>, g: Genome)
    requires Evaluates(env, generation, start, r, gs)
    ensures Evaluates(env, generation, start, Step(env, generation, r, g), gs + [g])
  {
    hide SignatureOf, ScoreFor, DatasetFor, ScoreRows;
  }

  // Evaluated rows are fresh candidates; every other row is untouched.
  ghost predicate Resets(generation: nat, before: Run, after: Run, gs: seq<Genome>) {
    && (forall i :: 0 <= i < |gs| && i < |after.latest| ==>
          after.latest[i].id in after.rows && after.rows[after.latest[i].id] == Row(gs[i], Candidate, generation))
    && forall id :: id in before.rows && (forall i :: 0 <= i < |after.latest| ==> after.latest[i].id != id) ==>
          id in after.rows && after.rows[id] == before.rows[id]
  }

  lemma {:induction false} StepsReset(env: Env, generation: nat, r: Run, gs: seq<Genome>, rows0: Rows, first: Id)
    requires r.latest == [] && Identified(r, rows0, first) && Below(rows0, first) && DistinctSignatures(gs)
    ensures Resets(generation, r, Steps(env, generation, r, gs), gs)
  {
    hide SignatureOf, Identified, Step;
    if gs != [] {
      var n := |gs| - 1;
      var mid := Steps(env, generation, r, gs[..n]);
      StepsReset(env, generation, r, gs[..n], rows0, first);
      StepsEvaluate(env, generation, r, gs[..n]);
      StepsIdentified(env, generation, r, gs[..n], rows0, first);
      StepResets(env, generation, r, mid, gs[..n], gs[n], rows0, first);
      assert gs == gs[..n] + [gs[n]];
    }
  }

  lemma StepResets(env: Env, generation: nat, start: Run, r: Run, gs: seq<Genome>, g: Genome, rows0: Rows, first: Id)
    requires Evaluates(env, generation, start, r, gs) && Resets(generation, start, r, gs)
    requires Identified(r, rows0, first)
    requires forall i :: 0 <= i < |gs| ==> SignatureOf(gs[i]) != SignatureOf(g)
    ensures Resets(generation, start, Step(env, generation, r, g), gs + [g])
  {
    hide SignatureOf, Step, EvaluationOf, IdOf, Evaluates;
    var id := IdOf(r, g);
    var after := Step(env, generation, r, g);
    StepShape(env, generation, r, g);
    FreshIdAmong(env, generation, start, r, gs, g, rows0, first);
    hide Identified;
    assert |r.latest| == |gs| by {
      EvaluatesLength(env, generation, start, r, gs);
    }
    assert after.latest[|gs|].id == id;
    assert forall i :: 0 <= i < |gs| ==> after.latest[i] == r.latest[i];
  }

  lemma FreshIdAmong(env: Env, generation: nat, start: Run, r: Run, gs: seq<Genome>, g: Genome, rows0: Rows, first: Id)
    requires Evaluates(env, generation, start, r, gs) && Identified(r, rows0, first)
    requires forall i :: 0 <= i < |gs| ==> SignatureOf(gs[i]) != SignatureOf(g)
    ensures forall i :: 0 <= i < |r.latest| ==> r.latest[i].id != IdOf(r, g)
  {
    hide SignatureOf;
    forall i | 0 <= i < |gs| ensures r.latest[i].id != IdOf(r, g) {
      assert SigAt(r, r.idFor[SignatureOf(gs[i])]) == SignatureOf(gs[i]);
    }
  }

  lemma EvaluatesLength(env: Env, generation: nat, start: Run, r: Run, gs: seq<Genome>)
    requires Evaluates(env, generation, start, r, gs)
    ensures |r.latest| == |gs|
  {
  }
}
