// The invariant every generation keeps, and what follows for whole runs.
module RunInvariant {
  import opened Prelude
  import opened Risk
  import opened Genomes
  import opened Labeler
  import Cooldown
  import opened Catalog
  import opened Drawing
  import opened Backtest
  import opened Score
  import opened Signature
  import opened Rng
  import opened Generation
  import opened Strategies
  import opened Evolve
  import opened RunSafety

  // ---- the survivor rule -------------------------------------------------------------

  ghost predicate DistinctIds(evs: seq<Evaluated>) {
    forall i, j :: 0 <= i < j < |evs| ==> evs[i].id != evs[j].id
  }

  ghost predicate Absent(evs: seq<Evaluated>, id: Id) {
    forall i :: 0 <= i < |evs| ==> evs[i].id != id
  }

  ghost predicate DecidedAll(env: Env, rows: Rows, out: Rows, evs: seq<Evaluated>) {
    && out.Keys == rows.Keys
    && (forall i :: 0 <= i < |evs| ==>
          && evs[i].id in rows && evs[i].id in out
          && out[evs[i].id] == rows[evs[i].id].(status := evs[i].Decided(env.root)))
    && forall id :: id in rows && Absent(evs, id) ==> out[id] == rows[id]
  }

  // Deciding gives each evaluated candidate's row its decided status and leaves the rest alone.
  lemma {:induction false} RowsAfterDecide(env: Env, rows: Rows, evs: seq<Evaluated>)
    requires DistinctIds(evs)
    requires forall i :: 0 <= i < |evs| ==> evs[i].id in rows && rows[evs[i].id].status == Candidate
    ensures DecidedAll(env, rows, RowsAfter(env, rows, evs), evs)
  {
    hide Promotable;
    if evs != [] {
      var n := |evs| - 1;
      var ev, before := evs[n], RowsAfter(env, rows, evs[..n]);
      RowsAfterDecide(env, rows, evs[..n]);
      assert evs == evs[..n] + [ev];
      assert Absent(evs[..n], ev.id);
      LastDecides(env, rows, before, evs[..n], ev);
      LastRow(env, rows, before, ev);
    }
  }

  lemma LastRow(env: Env, rows: Rows, before: Rows, ev: Evaluated)
    requires ev.id in rows && ev.id in before && before[ev.id] == rows[ev.id] && rows[ev.id].status == Candidate
    ensures before[ev.id := rows[ev.id].(status := ev.Decided(env.root))]
         == if ev.IsPromotable(env.root) then Restatused(before, ev.id, Promoted)
            else if ev.Survives() || ev.score.None? then before
            else Restatused(before, ev.id, Retired)
  {
    hide Promotable;
  }

  lemma LastDecides(env: Env, rows: Rows, before: Rows, evs: seq<Evaluated>, ev: Evaluated)
    requires DecidedAll(env, rows, before, evs) && Absent(evs, ev.id)
    requires ev.id in rows && rows[ev.id].status == Candidate
    ensures DecidedAll(env, rows, before[ev.id := rows[ev.id].(status := ev.Decided(env.root))], evs + [ev])
  {
    hide Promotable;
    var out := before[ev.id := rows[ev.id].(status := ev.Decided(env.root))];
    forall id | id in rows && Absent(evs + [ev], id) ensures out[id] == rows[id] {
      assert (evs + [ev])[|evs|].id != id;
      AbsentEarlier(evs, ev, id);
    }
  }

  lemma AbsentEarlier(evs: seq<Evaluated>, ev: Evaluated, id: Id)
    requires Absent(evs + [ev], id)
    ensures Absent(evs, id)
  {
    assert forall i :: 0 <= i < |evs| ==> (evs + [ev])[i] == evs[i];
  }

  ghost predicate DistinctIn(evs: seq<Evaluated>) {
    forall i, j :: 0 <= i < j < |evs| ==> SignatureOf(evs[i].genome) != SignatureOf(evs[j].genome)
  }

  // Survivors come from evaluations that survive, keep their order and their distinctness.
  lemma {:induction false} SurvivorsAreGood(env: Env, evs: seq<Evaluated>)
    requires DistinctIn(evs)
    ensures var gs := SurvivorsOf(env, evs);
            && |gs| <= |evs| && DistinctSignatures(gs)
            && forall k :: 0 <= k < |gs| ==> FromSurvivor(env, evs, gs[k])
  {
    hide SignatureOf, Promotable;
    if evs != [] {
      var n := |evs| - 1;
      SurvivorsAreGood(env, evs[..n]);
      var before, gs := SurvivorsOf(env, evs[..n]), SurvivorsOf(env, evs);
      forall k | 0 <= k < |before|
        ensures FromSurvivor(env, evs, before[k]) && SignatureOf(before[k]) != SignatureOf(evs[n].genome)
      {
        assert FromSurvivor(env, evs[..n], before[k]);
        var i: nat :| i < n && evs[..n][i].genome == before[k] && Carried(env, evs[..n][i]);
        assert evs[i].genome == before[k];
      }
      if Carried(env, evs[n]) {
        assert gs == before + [evs[n].genome];
        assert FromSurvivor(env, evs, evs[n].genome);
      }
    }
  }

  ghost predicate Carried(env: Env, ev: Evaluated) {
    ev.IsPromotable(env.root) || ev.Survives()
  }

  ghost predicate FromSurvivor(env: Env, evs: seq<Evaluated>, g: Genome) {
    exists i: nat :: i < |evs| && evs[i].genome == g && Carried(env, evs[i])
  }

  // Nothing that survives is dropped on the way to the next generation.
  lemma {:induction false} CarriedIsKept(env: Env, evs: seq<Evaluated>, i: nat) returns (k: nat)
    requires i < |evs| && Carried(env, evs[i])
    ensures k < |SurvivorsOf(env, evs)| && SurvivorsOf(env, evs)[k] == evs[i].genome
  {
    hide Promotable;
    var n := |evs| - 1;
    if i == n {
      k := |SurvivorsOf(env, evs[..n])|;
    } else {
      k := CarriedIsKept(env, evs[..n], i);
    }
  }

  // ---- the invariant ------------------------------------------------------------------

  // Each evaluation of the latest generation holds the id of its signature, and its row was
  // left as the survivor rule decided.
  ghost predicate Settled(env: Env, r: Run) {
    forall i :: 0 <= i < |r.latest| ==>
      && SignatureOf(r.latest[i].genome) in r.idFor
      && r.latest[i].id == r.idFor[SignatureOf(r.latest[i].genome)]
      && r.latest[i].id in r.rows
      && r.rows[r.latest[i].id].genome == r.latest[i].genome
      && r.rows[r.latest[i].id].status == r.latest[i].Decided(env.root)
  }

  // No row of the run is promoted but those of the latest generation.
  ghost predicate OnlyLatestPromoted(r: Run, first: Id) {
    forall id :: first <= id < r.nextId && id in r.rows && r.rows[id].status == Promoted ==> !Absent(r.latest, id)
  }

  ghost predicate Invariant(env: Env, r: Run, rows0: Rows, first: Id) {
    && Identified(r, rows0, first)
    && Recorded(r)
    && r.seen == r.idFor.Keys
    && r.survivors == SurvivorsOf(env, r.latest)
    && |r.latest| <= env.plan.perGen
    && DistinctIn(r.latest)
    && Settled(env, r)
    && OnlyLatestPromoted(r, first)
  }

  lemma StartInvariant(env: Env, rows0: Rows, first: Id)
    requires Below(rows0, first)
    ensures Invariant(env, Start(rows0, first), rows0, first)
  {
    hide SignatureOf;
    assert SignaturesIn([]) == {} by {
      NothingRecorded();
    }
  }

  lemma NothingRecorded()
    ensures SignaturesIn([]) == {}
  {
  }

  // The generation's genomes: all survivors first, then genomes new to the run.
  ghost predicate GoodGenomes(env: Env, r: Run, gs: seq<Genome>) {
    && |gs| <= env.plan.perGen && r.survivors <= gs
    && DistinctSignatures(gs)
    && forall i :: |r.survivors| <= i < |gs| ==> SignatureOf(gs[i]) !in r.seen
  }

  lemma GenomesAreGood(env: Env, generation: nat, r: Run, rows0: Rows, first: Id)
    requires generation < TWO_TO_THE_32 && Below(rows0, first) && Invariant(env, r, rows0, first)
    ensures GoodGenomes(env, r, GenomesOf(env, generation, r))
  {
    hide SignatureOf, Next, SeedState, SurvivorsOf, Identified, Recorded, Settled;
    SurvivorsAreGood(env, r.latest);
    NextIsGood(env.plan, r.survivors, r.seen, SeedState(env.baseSeed, generation));
  }

  // What evaluating a generation's genomes comes to, before anything is decided.
  ghost predicate Prepared(env: Env, generation: nat, r: Run, after: Run, gs: seq<Genome>, rows0: Rows, first: Id) {
    && Identified(after, rows0, first) && Recorded(after)
    && Evaluates(env, generation, Ready(r, gs), after, gs) && Resets(generation, Ready(r, gs), after, gs)
    && after.seen == after.idFor.Keys && after.history == r.history + after.latest
  }

  lemma GenerationPrepared(env: Env, generation: nat, r: Run, gs: seq<Genome>, rows0: Rows, first: Id)
    requires Below(rows0, first) && Invariant(env, r, rows0, first) && DistinctSignatures(gs)
    ensures Prepared(env, generation, r, Evaluations(env, generation, r, gs), gs, rows0, first)
  {
    hide SignatureOf, Steps, Signatures, Identified, Recorded, Evaluates, Resets;
    var ready := Ready(r, gs);
    var after := Evaluations(env, generation, r, gs);
    ReadyKeeps(env, r, gs, rows0, first);
    hide Invariant;
    StepsIdentified(env, generation, ready, gs, rows0, first);
    StepsRecorded(env, generation, ready, gs);
    StepsKeys(env, generation, ready, gs);
    StepsEvaluate(env, generation, ready, gs);
    StepsReset(env, generation, ready, gs, rows0, first);
    StepsExtend(env, generation, ready, gs);
  }

  lemma ReadyKeeps(env: Env, r: Run, gs: seq<Genome>, rows0: Rows, first: Id)
    requires Invariant(env, r, rows0, first)
    ensures Identified(Ready(r, gs), rows0, first) && Recorded(Ready(r, gs))
    ensures Ready(r, gs).seen == r.idFor.Keys + Signatures(gs)
  {
    hide SignatureOf, Settled, OnlyLatestPromoted, DistinctIn, SurvivorsOf, Signatures;
  }

  // ---- closing a generation ------------------------------------------------------------

  lemma PreparedIds(env: Env, generation: nat, r: Run, after: Run, gs: seq<Genome>, rows0: Rows, first: Id)
    requires Prepared(env, generation, r, after, gs, rows0, first) && DistinctSignatures(gs)
    ensures DistinctIds(after.latest)
    ensures forall i :: 0 <= i < |after.latest| ==>
              && first <= after.latest[i].id < after.nextId
              && after.latest[i].id in after.rows
              && after.rows[after.latest[i].id] == Row(gs[i], Candidate, generation)
  {
    hide SignatureOf, Recorded;
    forall i, j | 0 <= i < j < |after.latest| ensures after.latest[i].id != after.latest[j].id {
      assert SigAt(after, after.idFor[SignatureOf(gs[i])]) == SignatureOf(gs[i]);
      assert SigAt(after, after.idFor[SignatureOf(gs[j])]) == SignatureOf(gs[j]);
    }
  }

  lemma PreparedDecides(env: Env, generation: nat, r: Run, after: Run, gs: seq<Genome>, rows0: Rows, first: Id)
    requires Prepared(env, generation, r, after, gs, rows0, first) && DistinctSignatures(gs)
    ensures DecidedAll(env, after.rows, RowsAfter(env, after.rows, after.latest), after.latest)
  {
    PreparedIds(env, generation, r, after, gs, rows0, first);
    hide Prepared, RowsAfter, DecidedAll, DistinctSignatures;
    RowsAfterDecide(env, after.rows, after.latest);
  }

  // Deciding changes statuses only, so identities stand.
  lemma DecidedIdentified(env: Env, r: Run, out: Rows, rows0: Rows, first: Id)
    requires Identified(r, rows0, first) && Below(rows0, first)
    requires DecidedAll(env, r.rows, out, r.latest)
    requires forall i :: 0 <= i < |r.latest| ==> first <= r.latest[i].id
    ensures Identified(r.(rows := out), rows0, first)
    ensures forall id :: id in r.rows ==> id in out && out[id].genome == r.rows[id].genome
  {
    hide SignatureOf, Promotable;
    forall id | id in r.rows ensures id in out && out[id].genome == r.rows[id].genome {
      assert id in out.Keys;
      if !Absent(r.latest, id) {
        var i :| 0 <= i < |r.latest| && r.latest[i].id == id;
      }
    }
    forall id | id in rows0 ensures out[id] == rows0[id] {
      assert Absent(r.latest, id);
    }
    hide DecidedAll;
    assert forall id :: id in r.rows ==> SigAt(r.(rows := out), id) == SigAt(r, id);
    assert forall id :: id in out ==> id in r.rows by {
      DecidedKeys(env, r.rows, out, r.latest);
    }
  }

  lemma DecidedKeys(env: Env, rows: Rows, out: Rows, evs: seq<Evaluated>)
    requires DecidedAll(env, rows, out, evs)
    ensures out.Keys == rows.Keys
  {
  }

  lemma ClosedSettled(env: Env, generation: nat, r: Run, after: Run, gs: seq<Genome>, rows0: Rows, first: Id)
    requires Prepared(env, generation, r, after, gs, rows0, first) && DistinctSignatures(gs)
    ensures Settled(env, Closed(env, after))
    ensures DistinctIn(after.latest)
  {
    hide SignatureOf, RowsAfter, SurvivorsOf, Identified, Recorded, Resets;
    var evs, out := after.latest, RowsAfter(env, after.rows, after.latest);
    PreparedIds(env, generation, r, after, gs, rows0, first);
    PreparedDecides(env, generation, r, after, gs, rows0, first);
    hide DecidedAll;
    forall i | 0 <= i < |evs|
      ensures evs[i].id in out && out[evs[i].id].genome == evs[i].genome
      ensures out[evs[i].id].status == evs[i].Decided(env.root)
    {
      hide Prepared;
      DecidedAt(env, after.rows, out, evs, i);
    }
  }

  lemma DecidedAt(env: Env, rows: Rows, out: Rows, evs: seq<Evaluated>, i: nat)
    requires DecidedAll(env, rows, out, evs) && i < |evs|
    ensures evs[i].id in rows && evs[i].id in out
    ensures out[evs[i].id] == rows[evs[i].id].(status := evs[i].Decided(env.root))
  {
  }

  // A survivor's row is evaluated again; the row of an earlier genome that did not survive is not.
  lemma EvaluatedAgain(env: Env, generation: nat, r: Run, after: Run, gs: seq<Genome>, rows0: Rows, first: Id, i: nat)
    requires Invariant(env, r, rows0, first) && GoodGenomes(env, r, gs)
    requires Prepared(env, generation, r, after, gs, rows0, first)
    requires i < |r.latest| && Carried(env, r.latest[i])
    ensures !Absent(after.latest, r.latest[i].id)
  {
    hide SignatureOf, Promotable, SurvivorsOf, Identified, Recorded, Resets;
    var k := CarriedIsKept(env, r.latest, i);
    assert gs[k] == r.latest[i].genome;
    assert after.latest[k].id == r.latest[i].id;
  }

  // No survivor carries the signature.
  ghost predicate Extinct(r: Run, sig: string) {
    forall k :: 0 <= k < |r.survivors| ==> SignatureOf(r.survivors[k]) != sig
  }

  lemma NotEvaluatedAgain(env: Env, generation: nat, r: Run, after: Run, gs: seq<Genome>, rows0: Rows,
                          first: Id, id: Id)
    requires Invariant(env, r, rows0, first) && GoodGenomes(env, r, gs)
    requires Prepared(env, generation, r, after, gs, rows0, first)
    requires first <= id < r.nextId && id in r.rows && Extinct(r, SigAt(r, id))
    ensures Absent(after.latest, id)
    ensures id in after.rows && after.rows[id] == r.rows[id]
  {
    hide SignatureOf, SurvivorsOf, Recorded, Settled, OnlyLatestPromoted;
    var sig := SigAt(r, id);
    forall i | 0 <= i < |gs| ensures after.latest[i].id != id {
      assert SignatureOf(gs[i]) != sig by {
        if i < |r.survivors| {
          assert gs[i] == r.survivors[i];
        }
      }
      assert SigAt(after, after.idFor[SignatureOf(gs[i])]) == SignatureOf(gs[i]);
      assert SigAt(after, after.idFor[sig]) == sig;
    }
  }

  // A created row outside the latest evaluations existed before them and is as it was.
  lemma UntouchedIsOld(env: Env, generation: nat, r: Run, after: Run, gs: seq<Genome>, rows0: Rows, first: Id, id: Id)
    requires Identified(r, rows0, first) && Prepared(env, generation, r, after, gs, rows0, first)
    requires after.idFor.Keys == r.idFor.Keys + Signatures(gs)
    requires first <= id < after.nextId && Absent(after.latest, id)
    ensures id < r.nextId && id in r.rows && id in after.rows && after.rows[id] == r.rows[id]
  {
    hide SignatureOf, Recorded;
    var sig := SigAt(after, id);
    assert sig in after.idFor.Keys;
    forall i | 0 <= i < |gs| ensures SignatureOf(gs[i]) != sig {
      assert after.latest[i].id != id;
    }
    assert sig in r.idFor.Keys;
  }

  lemma ClosedOnlyLatest(env: Env, generation: nat, r: Run, after: Run, gs: seq<Genome>, rows0: Rows, first: Id)
    requires Invariant(env, r, rows0, first) && GoodGenomes(env, r, gs)
    requires Prepared(env, generation, r, after, gs, rows0, first)
    requires after.idFor.Keys == r.idFor.Keys + Signatures(gs)
    ensures OnlyLatestPromoted(Closed(env, after), first)
  {
    PreparedDecides(env, generation, r, after, gs, rows0, first);
    var closed := Closed(env, after);
    forall id | first <= id < closed.nextId && id in closed.rows && closed.rows[id].status == Promoted
      ensures !Absent(after.latest, id)
    {
      if Absent(after.latest, id) {
        AbsentIsNotPromoted(env, generation, r, after, gs, rows0, first, id);
        assert false;
      }
    }
  }

  lemma AbsentIsNotPromoted(env: Env, generation: nat, r: Run, after: Run, gs: seq<Genome>, rows0: Rows,
                            first: Id, id: Id)
    requires Invariant(env, r, rows0, first) && GoodGenomes(env, r, gs)
    requires Prepared(env, generation, r, after, gs, rows0, first)
    requires after.idFor.Keys == r.idFor.Keys + Signatures(gs)
    requires DecidedAll(env, after.rows, RowsAfter(env, after.rows, after.latest), after.latest)
    requires first <= id < after.nextId && Absent(after.latest, id)
    ensures id in RowsAfter(env, after.rows, after.latest)
    ensures RowsAfter(env, after.rows, after.latest)[id].status != Promoted
  {
    hide SignatureOf, Promotable, RowsAfter, Recorded, Resets, SurvivorsOf, GoodGenomes, DistinctIn;
    UntouchedIsOld(env, generation, r, after, gs, rows0, first, id);
    hide Identified, Prepared;
    if r.rows[id].status == Promoted {
      var i :| 0 <= i < |r.latest| && r.latest[i].id == id;
      assert Carried(env, r.latest[i]);
      EvaluatedAgain(env, generation, r, after, gs, rows0, first, i);
      assert false;
    }
  }

  // ---- whole runs --------------------------------------------------------------------------

  lemma GenerateKeeps(env: Env, generation: nat, r: Run, rows0: Rows, first: Id)
    requires generation < TWO_TO_THE_32 && Below(rows0, first) && Invariant(env, r, rows0, first)
    ensures Invariant(env, Generate(env, generation, r), rows0, first)
  {
    hide Evaluations, Invariant, GoodGenomes, Prepared, GenomesOf, OnlyLatestPromoted, Settled;
    var gs := GenomesOf(env, generation, r);
    var after := Evaluations(env, generation, r, gs);
    GenomesAreGood(env, generation, r, rows0, first);
    GenomesDistinct(env, r, gs);
    GenerationPrepared(env, generation, r, gs, rows0, first);
    ClosedSettled(env, generation, r, after, gs, rows0, first);
    assert after.idFor.Keys == r.idFor.Keys + Signatures(gs) by {
      StepsKeys(env, generation, Ready(r, gs), gs);
      EvaluationsAre(env, generation, r, gs);
    }
    ClosedOnlyLatest(env, generation, r, after, gs, rows0, first);
    PreparedDecides(env, generation, r, after, gs, rows0, first);
    PreparedIds(env, generation, r, after, gs, rows0, first);
    ClosedInvariant(env, generation, r, after, gs, rows0, first);
  }

  lemma EvaluationsAre(env: Env, generation: nat, r: Run, gs: seq<Genome>)
    ensures Evaluations(env, generation, r, gs) == Steps(env, generation, Ready(r, gs), gs)
    ensures Ready(r, gs).idFor == r.idFor
  {
  }

  lemma GenomesDistinct(env: Env, r: Run, gs: seq<Genome>)
    requires GoodGenomes(env, r, gs)
    ensures DistinctSignatures(gs)
  {
  }

  lemma ClosedInvariant(env: Env, generation: nat, r: Run, after: Run, gs: seq<Genome>, rows0: Rows, first: Id)
    requires Below(rows0, first) && Invariant(env, r, rows0, first) && GoodGenomes(env, r, gs)
    requires Prepared(env, generation, r, after, gs, rows0, first)
    requires Settled(env, Closed(env, after)) && OnlyLatestPromoted(Closed(env, after), first)
    requires DistinctIn(after.latest)
    requires DecidedAll(env, after.rows, RowsAfter(env, after.rows, after.latest), after.latest)
    requires forall i :: 0 <= i < |after.latest| ==> first <= after.latest[i].id < after.nextId
    ensures Invariant(env, Closed(env, after), rows0, first)
  {
    hide SignatureOf, RowsAfter, SurvivorsOf, Settled, OnlyLatestPromoted, DistinctIn, DecidedAll, Identified;
    hide Recorded, Resets, DistinctSignatures;
    DecidedIdentified(env, after, RowsAfter(env, after.rows, after.latest), rows0, first);
    IdentifiedBy(after.(rows := RowsAfter(env, after.rows, after.latest)), Closed(env, after), rows0, first);
    ClosedRecorded(env, after);
  }

  lemma IdentifiedBy(a: Run, b: Run, rows0: Rows, first: Id)
    requires Identified(a, rows0, first) && a.rows == b.rows && a.idFor == b.idFor && a.nextId == b.nextId
    ensures Identified(b, rows0, first)
  {
    hide SignatureOf;
    assert forall id :: id in a.rows ==> SigAt(a, id) == SigAt(b, id);
  }

  lemma ClosedRecorded(env: Env, after: Run)
    requires Recorded(after)
    ensures Recorded(Closed(env, after))
  {
    hide SignatureOf, RecordedAt;
  }

  // Every generation of every run keeps the invariant.
  lemma {:induction false} RunKeepsInvariant(env: Env, rows0: Rows, first: Id, k: nat)
    requires k <= TWO_TO_THE_32 && Below(rows0, first)
    ensures Invariant(env, RunOf(env, rows0, first, k), rows0, first)
  {
    hide Invariant, Generate, Start;
    if k == 0 {
      StartInvariant(env, rows0, first);
    } else {
      RunKeepsInvariant(env, rows0, first, k - 1);
      GenerateKeeps(env, k - 1, RunOf(env, rows0, first, k - 1), rows0, first);
    }
  }

  // After each generation the promoted rows the run created are exactly that generation's
  // promotable members, and rows the run did not create are as they were.
  lemma PromotedExactly(env: Env, rows0: Rows, first: Id, k: nat, id: Id)
    requires k <= TWO_TO_THE_32 && Below(rows0, first)
    requires id in RunOf(env, rows0, first, k).rows
    ensures var r := RunOf(env, rows0, first, k);
            && (id < first ==> id in rows0 && r.rows[id] == rows0[id])
            && (id >= first ==> (r.rows[id].status == Promoted <==> HasPromotable(env, r.latest, id)))
  {
    hide RunOf, Invariant, HasPromotable;
    RunKeepsInvariant(env, rows0, first, k);
    PromotedInState(env, RunOf(env, rows0, first, k), rows0, first, id);
  }

  lemma PromotedInState(env: Env, r: Run, rows0: Rows, first: Id, id: Id)
    requires Below(rows0, first) && Invariant(env, r, rows0, first) && id in r.rows
    ensures id < first ==> id in rows0 && r.rows[id] == rows0[id]
    ensures id >= first ==> (r.rows[id].status == Promoted <==> HasPromotable(env, r.latest, id))
  {
    hide SignatureOf, Promotable, Recorded, DistinctIn, SurvivorsOf, Evaluated.Decided;
    if id >= first && r.rows[id].status == Promoted {
      var i: nat :| i < |r.latest| && r.latest[i].id == id;
      DecidedPromoted(env, r.latest[i]);
    }
    if HasPromotable(env, r.latest, id) {
      var i: nat :| i < |r.latest| && r.latest[i].id == id && r.latest[i].IsPromotable(env.root);
      DecidedPromoted(env, r.latest[i]);
    }
  }

  ghost predicate HasPromotable(env: Env, evs: seq<Evaluated>, id: Id) {
    exists i: nat :: i < |evs| && evs[i].id == id && evs[i].IsPromotable(env.root)
  }

  lemma DecidedPromoted(env: Env, ev: Evaluated)
    ensures ev.Decided(env.root) == Promoted <==> ev.IsPromotable(env.root)
  {
    hide Promotable;
  }

  // One row per canonical genome: ids minted by the run and signatures seen match one to one
  // through the rows, and the id map knows exactly the signatures seen.
  lemma OneRowPerSignature(env: Env, rows0: Rows, first: Id, k: nat, a: Id, b: Id)
    requires k <= TWO_TO_THE_32 && Below(rows0, first)
    requires first <= a < RunOf(env, rows0, first, k).nextId && first <= b < RunOf(env, rows0, first, k).nextId
    ensures var r := RunOf(env, rows0, first, k);
            && a in r.rows && b in r.rows
            && (SigAt(r, a) == SigAt(r, b) <==> a == b)
            && SigAt(r, a) in r.seen && r.seen == r.idFor.Keys
  {
    hide SignatureOf, RunOf, Recorded, DistinctIn, SurvivorsOf, Settled, OnlyLatestPromoted;
    RunKeepsInvariant(env, rows0, first, k);
    OneIdPerSignature(RunOf(env, rows0, first, k), rows0, first, a, b);
  }

  // The worker is told, as a 32-bit word, how many distinct signatures the run has evaluated so
  // far; the count itself never falls. Equal ids and equal signatures go together.
  lemma TrialsCountDistinct(env: Env, rows0: Rows, first: Id, k: nat, i: nat, j: nat)
    requires k <= TWO_TO_THE_32 && Below(rows0, first)
    requires i <= j < |RunOf(env, rows0, first, k).history|
    ensures var h := RunOf(env, rows0, first, k).history;
            && h[j].trials == AsU32(|SignaturesIn(h[..j + 1])|)
            && |SignaturesIn(h[..i + 1])| <= |SignaturesIn(h[..j + 1])|
            && (|SignaturesIn(h[..j + 1])| < TWO_TO_THE_32 ==> 1 <= h[i].trials <= h[j].trials)
  {
    hide SignatureOf, RunOf, Identified, Settled, OnlyLatestPromoted, SurvivorsOf;
    RunKeepsInvariant(env, rows0, first, k);
    var r := RunOf(env, rows0, first, k);
    hide Invariant;
    assert RecordedAt(r.idFor, r.history, i) && RecordedAt(r.idFor, r.history, j);
    PrefixSignatures(r.history, i, j);
  }

  lemma PrefixSignatures(evs: seq<Evaluated>, i: nat, j: nat)
    requires i <= j < |evs|
    ensures 1 <= |SignaturesIn(evs[..i + 1])| <= |SignaturesIn(evs[..j + 1])|
  {
    hide SignatureOf;
    var a, b := SignaturesIn(evs[..i + 1]), SignaturesIn(evs[..j + 1]);
    forall sig | sig in a ensures sig in b {
      var t :| 0 <= t < i + 1 && SignatureOf(evs[..i + 1][t].genome) == sig;
      assert evs[..j + 1][t] == evs[..i + 1][t];
    }
    assert SignatureOf(evs[..i + 1][0].genome) in a;
    SubsetSize(a, b);
  }

  lemma {:induction false} SubsetSize(a: set<string>, b: set<string>)
    requires a <= b
    ensures |a| <= |b|
    decreases a
  {
    if a != {} {
      var x :| x in a;
      SubsetSize(a - {x}, b - {x});
    }
  }

  // The next generation evaluates every survivor again, in order and first; every other genome
  // it evaluates has a signature the run had not seen; and none repeats within it.
  lemma OnlySurvivorsRepeat(env: Env, rows0: Rows, first: Id, k: nat)
    requires k < TWO_TO_THE_32 && Below(rows0, first)
    ensures var r, next := RunOf(env, rows0, first, k), RunOf(env, rows0, first, k + 1);
            && |next.latest| <= env.plan.perGen
            && RepeatsOnlySurvivors(r, next.latest)
            && next.history == r.history + next.latest
  {
    hide Evaluations, Start, GenomesOf, Invariant, GoodGenomes, Prepared, RepeatsOnlySurvivors;
    var r := RunOf(env, rows0, first, k);
    RunKeepsInvariant(env, rows0, first, k);
    assert RunOf(env, rows0, first, k + 1) == Generate(env, k, r);
    hide RunOf;
    var gs := GenomesOf(env, k, r);
    GenomesAreGood(env, k, r, rows0, first);
    GenomesDistinct(env, r, gs);
    GenerationPrepared(env, k, r, gs, rows0, first);
    PreparedRepeats(env, k, r, Evaluations(env, k, r, gs), gs, rows0, first);
  }

  // Survivors first and in order, then only new signatures, none twice.
  ghost predicate RepeatsOnlySurvivors(r: Run, evs: seq<Evaluated>) {
    && |r.survivors| <= |evs|
    && (forall i :: 0 <= i < |r.survivors| ==> evs[i].genome == r.survivors[i])
    && (forall i :: |r.survivors| <= i < |evs| ==> SignatureOf(evs[i].genome) !in r.seen)
    && DistinctIn(evs)
  }

  lemma PreparedRepeats(env: Env, generation: nat, r: Run, after: Run, gs: seq<Genome>, rows0: Rows, first: Id)
    requires GoodGenomes(env, r, gs) && Prepared(env, generation, r, after, gs, rows0, first)
    ensures RepeatsOnlySurvivors(r, after.latest) && |after.latest| <= env.plan.perGen
    ensures after.history == r.history + after.latest
  {
    hide SignatureOf, Identified, Recorded, Resets;
  }

  // ---- finality ---------------------------------------------------------------------------

  // A row whose signature no survivor carries is never evaluated or changed by the generation.
  lemma ExtinctRowFrozen(env: Env, generation: nat, r: Run, rows0: Rows, first: Id, id: Id)
    requires generation < TWO_TO_THE_32 && Below(rows0, first) && Invariant(env, r, rows0, first)
    requires first <= id < r.nextId && id in r.rows && Extinct(r, SigAt(r, id))
    ensures var next := Generate(env, generation, r);
            && id < next.nextId && id in next.rows && next.rows[id] == r.rows[id] && Absent(next.latest, id)
            && next.history == r.history + next.latest
  {
    hide Evaluations, Invariant, GenomesOf, SignatureOf, Extinct, Recorded, Resets, SigAt;
    hide RowsAfter, Identified;
    var gs := GenomesOf(env, generation, r);
    var after := Evaluations(env, generation, r, gs);
    GenomesAreGood(env, generation, r, rows0, first);
    hide GoodGenomes;
    GenomesDistinct(env, r, gs);
    GenerationPrepared(env, generation, r, gs, rows0, first);
    NotEvaluatedAgain(env, generation, r, after, gs, rows0, first, id);
    PreparedDecides(env, generation, r, after, gs, rows0, first);
  }

  lemma RetiredIsExtinct(env: Env, r: Run, rows0: Rows, first: Id, id: Id)
    requires Invariant(env, r, rows0, first) && first <= id < r.nextId && id in r.rows && r.rows[id].status == Retired
    ensures Extinct(r, SigAt(r, id))
  {
    hide SignatureOf, Promotable, Recorded, OnlyLatestPromoted, SurvivorsOf;
    SurvivorsAreGood(env, r.latest);
    forall k | 0 <= k < |r.survivors| ensures SignatureOf(r.survivors[k]) != SigAt(r, id) {
      assert FromSurvivor(env, r.latest, r.survivors[k]);
      var i: nat :| i < |r.latest| && r.latest[i].genome == r.survivors[k] && Carried(env, r.latest[i]);
      CarriedNotRetired(env, r.latest[i]);
      assert SigAt(r, r.latest[i].id) == SignatureOf(r.latest[i].genome);
    }
  }

  lemma CarriedNotRetired(env: Env, ev: Evaluated)
    requires Carried(env, ev)
    ensures ev.Decided(env.root) != Retired
  {
    hide Promotable;
  }

  // A row the run retired is final: later generations neither evaluate nor change it.
  lemma {:induction false} RetiredIsFinal(env: Env, rows0: Rows, first: Id, k: nat, later: nat, id: Id)
    requires k <= later <= TWO_TO_THE_32 && Below(rows0, first)
    requires var r := RunOf(env, rows0, first, k);
             first <= id < r.nextId && id in r.rows && r.rows[id].status == Retired
    ensures var r, next := RunOf(env, rows0, first, k), RunOf(env, rows0, first, later);
            && id < next.nextId && id in next.rows && next.rows[id] == r.rows[id]
            && r.history <= next.history
            && forall j :: |r.history| <= j < |next.history| ==> next.history[j].id != id
    decreases later
  {
    hide Invariant, Generate, Start, SigAt, Extinct;
    if k < later {
      RetiredIsFinal(env, rows0, first, k, later - 1, id);
      var mid := RunOf(env, rows0, first, later - 1);
      RunKeepsInvariant(env, rows0, first, later - 1);
      RetiredIsExtinct(env, mid, rows0, first, id);
      ExtinctRowFrozen(env, later - 1, mid, rows0, first, id);
    }
  }

  // ---- fitness ------------------------------------------------------------------------------

  ghost predicate EvaluatedFit(plan: Plan, evs: seq<Evaluated>) {
    forall i :: 0 <= i < |evs| ==> Fit(plan, evs[i].genome)
  }

  lemma {:induction false} SurvivorsAreFit(env: Env, evs: seq<Evaluated>)
    requires EvaluatedFit(env.plan, evs)
    ensures AllFit(env.plan, SurvivorsOf(env, evs))
  {
    hide Fit, Promotable;
    if evs != [] {
      SurvivorsAreFit(env, evs[..|evs| - 1]);
    }
  }

  lemma GenerateKeepsFit(env: Env, generation: nat, r: Run, rows0: Rows, first: Id)
    requires generation < TWO_TO_THE_32 && Below(rows0, first) && Invariant(env, r, rows0, first)
    requires ValidCatalog(env.plan.catalog) && EvaluatedFit(env.plan, r.latest) && EvaluatedFit(env.plan, r.history)
    ensures var next := Generate(env, generation, r);
            EvaluatedFit(env.plan, next.latest) && EvaluatedFit(env.plan, next.history)
  {
    hide Evaluations, Invariant, Prepared, GoodGenomes, ValidCatalog, SignatureOf, EvaluatedFit, AllFit, Next;
    hide SurvivorsOf;
    var gs := GenomesOf(env, generation, r);
    var after := Evaluations(env, generation, r, gs);
    GenomesAreGood(env, generation, r, rows0, first);
    GenomesDistinct(env, r, gs);
    GenerationPrepared(env, generation, r, gs, rows0, first);
    SurvivorsAre(env, r, rows0, first);
    SurvivorsAreFit(env, r.latest);
    NextIsFit(env.plan, r.survivors, r.seen, SeedState(env.baseSeed, generation));
    EvaluatedAreFit(env, generation, r, after, gs, rows0, first);
  }

  lemma SurvivorsAre(env: Env, r: Run, rows0: Rows, first: Id)
    requires Invariant(env, r, rows0, first)
    ensures r.survivors == SurvivorsOf(env, r.latest)
  {
    hide SignatureOf, SurvivorsOf, Settled, Identified, Recorded, OnlyLatestPromoted, DistinctIn;
  }

  lemma EvaluatedAreFit(env: Env, generation: nat, r: Run, after: Run, gs: seq<Genome>, rows0: Rows, first: Id)
    requires Prepared(env, generation, r, after, gs, rows0, first)
    requires AllFit(env.plan, gs) && EvaluatedFit(env.plan, r.history)
    ensures EvaluatedFit(env.plan, after.latest) && EvaluatedFit(env.plan, after.history)
  {
    hide Fit, SignatureOf, Identified, Recorded, Resets;
  }

  lemma {:induction false} RunIsFit(env: Env, rows0: Rows, first: Id, k: nat)
    requires k <= TWO_TO_THE_32 && Below(rows0, first) && ValidCatalog(env.plan.catalog)
    ensures var r := RunOf(env, rows0, first, k); EvaluatedFit(env.plan, r.latest) && EvaluatedFit(env.plan, r.history)
  {
    hide Invariant, Generate, ValidCatalog, Fit;
    if k > 0 {
      RunIsFit(env, rows0, first, k - 1);
      RunKeepsInvariant(env, rows0, first, k - 1);
      GenerateKeepsFit(env, k - 1, RunOf(env, rows0, first, k - 1), rows0, first);
    }
  }

  // Every genome ever evaluated is valid, of the plan's horizon, and on exactly the operator's
  // geometry when that is locked, on one with a positive stop when it is not.
  lemma EveryGenomeIsFit(env: Env, rows0: Rows, first: Id, k: nat, j: nat)
    requires k <= TWO_TO_THE_32 && Below(rows0, first) && ValidCatalog(env.plan.catalog)
    requires j < |RunOf(env, rows0, first, k).history|
    ensures Fit(env.plan, RunOf(env, rows0, first, k).history[j].genome)
  {
    hide Fit, RunOf, ValidCatalog;
    RunIsFit(env, rows0, first, k);
  }

  // A stop of no magnitude leaves every locked genome without a unit of risk; nothing else about
  // its geometry keeps a genome of a run from being labeled. At a positive price a point it fires
  // on in a tradeable regime is unlabelable exactly then, or when the volatility is missing or
  // not positive, or no bar follows.
  lemma UnlabelableIff(env: Env, rows0: Rows, first: Id, k: nat, j: nat, w: Window, p: BarPoint)
    requires k <= TWO_TO_THE_32 && Below(rows0, first) && ValidCatalog(env.plan.catalog)
    requires j < |RunOf(env, rows0, first, k).history|
    requires env.profile.maxHoldBars >= 1 && p.idx < |w.bars| && w.bars[p.idx].close > 0.0
    ensures var g := RunOf(env, rows0, first, k).history[j].genome;
            Judge(StudyOf(env, g), w, p) == Cooldown.Unlabelable <==>
              && g.Fires(p.features) && env.classify(p.features).tradeable
              && (|| p.atr.None? || p.atr.value <= 0.0 || p.idx + 1 >= |w.bars|
                  || (env.plan.lockRisk && env.plan.risk.stop.Magnitude() == 0.0))
  {
    hide RunOf, Genome.Fires, ValidCatalog;
    EveryGenomeIsFit(env, rows0, first, k, j);
    var g := RunOf(env, rows0, first, k).history[j].genome;
    hide ValidGenome;
    if p.atr.Some? && p.atr.value > 0.0 {
      PositiveStopDistance(g.risk, w.bars[p.idx].close, p.atr.value);
      LabeledIff(StudyOf(env, g), w, p);
    }
  }

  lemma LabeledIff(s: Study, w: Window, p: BarPoint)
    requires s.profile.maxHoldBars >= 1 && p.idx < |w.bars| && p.atr.Some? && p.atr.value > 0.0
    ensures LabelAt(s, w, p).Ok? <==> s.genome.risk.RiskDistance(w.bars[p.idx].close, p.atr.value) > 0.0
  {
    if s.genome.risk.RiskDistance(w.bars[p.idx].close, p.atr.value) > 0.0 && p.idx + 1 < |w.bars| {
      LabelMeetsSpec(w.bars, p.idx, s.genome.side, p.atr.value, s.genome.risk, s.profile.maxHoldBars);
    }
  }
}
