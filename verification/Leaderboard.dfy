// The ranking a search ends with: every evaluation, best first, and what is read off it.
module Leaderboard {
  import opened Prelude
  import opened Sorting
  import opened Score
  import opened Strategies
  import opened Evolve
  import opened RunSafety
  import opened RunInvariant

  // Gate passers first, then the higher expectancy, the higher deflated Sharpe ratio, the lower
  // overfit probability.
  predicate Better(a: OosScore, b: OosScore) {
    if a.passedGate != b.passedGate then a.passedGate
    else if a.expectancy != b.expectancy then a.expectancy > b.expectancy
    else if a.dsr != b.dsr then a.dsr > b.dsr
    else a.pbo < b.pbo
  }

  // Unscored members come last, in no order among themselves.
  predicate Above(a: Evaluated, b: Evaluated) {
    a.score.Some? && (b.score.None? || Better(a.score.value, b.score.value))
  }

  // Behind everything it is not above.
  function Placed(x: Evaluated, xs: seq<Evaluated>): (r: seq<Evaluated>)
    ensures multiset(r) == multiset(xs) + multiset{x}
  {
    if xs == [] then [x]
    else
      var n := |xs| - 1;
      assert xs == xs[..n] + [xs[n]];
      if Above(x, xs[n]) then Placed(x, xs[..n]) + [xs[n]] else xs + [x]
  }

  function Standings(xs: seq<Evaluated>): (r: seq<Evaluated>)
    ensures multiset(r) == multiset(xs)
  {
    if xs == [] then []
    else
      var n := |xs| - 1;
      assert xs == xs[..n] + [xs[n]];
      Placed(xs[n], Standings(xs[..n]))
  }

  method RunRanked(env: Env, generations: nat, store: Store, firstId: Id)
    returns (result: Result<seq<Evaluated>, SearchError>)
    requires generations <= TWO_TO_THE_32
    modifies store
    ensures env.plan.catalog == [] ==>
              result == Err(EmptyCatalog) && store.rows == old(store.rows) && store.scores == old(store.scores)
    ensures env.plan.catalog != [] ==>
              var r := RunOf(env, old(store.rows), firstId, generations);
              && result == Ok(Standings(r.history))
              && store.rows == r.rows && store.scores == old(store.scores) + r.scores
  {
    hide RunOf;
    var all := RunSearch(env, generations, store, firstId);
    result := if all.Ok? then Ok(Standings(all.value)) else all;
  }

  function IsScored(): Evaluated -> bool {
    (e: Evaluated) => e.score.Some?
  }

  // The first n scored members.
  function Listed(standings: seq<Evaluated>, n: nat): seq<Evaluated> {
    Truncate(Filter(standings, IsScored()), n)
  }

  function Truncate(xs: seq<Evaluated>, n: nat): (r: seq<Evaluated>)
    ensures |r| == MinNat(|xs|, n) && r <= xs
  {
    if |xs| <= n then xs else xs[..n]
  }

  // The first score found for each strategy.
  function BestScores(standings: seq<Evaluated>): map<Id, OosScore> {
    if standings == [] then map[]
    else
      var n := |standings| - 1;
      var m, e := BestScores(standings[..n]), standings[n];
      if e.score.Some? && e.id !in m then m[e.id := e.score.value] else m
  }

  // ---- the order ---------------------------------------------------------------------------------

  // The earlier of two ranked members is no worse by any clause of the ranking.
  ghost predicate NoWorse(a: Evaluated, b: Evaluated) {
    && (b.score.Some? ==> a.score.Some?)
    && (a.score.Some? && b.score.Some? ==>
          var x, y := a.score.value, b.score.value;
          && (y.passedGate ==> x.passedGate)
          && (x.passedGate == y.passedGate ==> x.expectancy >= y.expectancy)
          && (x.passedGate == y.passedGate && x.expectancy == y.expectancy ==> x.dsr >= y.dsr)
          && (x.passedGate == y.passedGate && x.expectancy == y.expectancy && x.dsr == y.dsr ==> x.pbo <= y.pbo))
  }

  lemma NotAboveIsNoWorse(a: Evaluated, b: Evaluated)
    ensures !Above(b, a) <==> NoWorse(a, b)
  {
  }

  lemma NoWorseChains(a: Evaluated, b: Evaluated, c: Evaluated)
    requires NoWorse(a, b) && NoWorse(b, c)
    ensures NoWorse(a, c)
  {
  }

  lemma NoWorseEitherWay(a: Evaluated, b: Evaluated)
    ensures NoWorse(a, b) || NoWorse(b, a)
  {
  }

  ghost predicate BestFirst(xs: seq<Evaluated>) {
    forall i, j :: 0 <= i < j < |xs| ==> NoWorse(xs[i], xs[j])
  }

  ghost predicate NoneWorse(xs: seq<Evaluated>, x: Evaluated) {
    forall i :: 0 <= i < |xs| ==> NoWorse(xs[i], x)
  }

  lemma {:induction false} PlacedStaysBelow(x: Evaluated, xs: seq<Evaluated>, y: Evaluated)
    requires NoneWorse(xs, y) && NoWorse(x, y)
    ensures NoneWorse(Placed(x, xs), y)
  {
    hide NoWorse, Above;
    if xs != [] {
      PlacedStaysBelow(x, xs[..|xs| - 1], y);
    }
  }

  lemma BestFirstSnoc(xs: seq<Evaluated>, y: Evaluated)
    requires BestFirst(xs) && NoneWorse(xs, y)
    ensures BestFirst(xs + [y])
  {
    hide NoWorse;
  }

  lemma LastBelow(xs: seq<Evaluated>, x: Evaluated)
    requires xs != [] && BestFirst(xs) && NoWorse(xs[|xs| - 1], x)
    ensures NoneWorse(xs, x)
  {
    forall i | 0 <= i < |xs| ensures NoWorse(xs[i], x) {
      if i < |xs| - 1 {
        NoWorseChains(xs[i], xs[|xs| - 1], x);
      }
    }
  }

  lemma {:induction false} PlacedBestFirst(x: Evaluated, xs: seq<Evaluated>)
    requires BestFirst(xs)
    ensures BestFirst(Placed(x, xs))
  {
    hide NoWorse, Above;
    if xs != [] {
      var n := |xs| - 1;
      NotAboveIsNoWorse(xs[n], x);
      if Above(x, xs[n]) {
        PlacedBestFirst(x, xs[..n]);
        NoWorseEitherWay(x, xs[n]);
        PlacedStaysBelow(x, xs[..n], xs[n]);
        BestFirstSnoc(Placed(x, xs[..n]), xs[n]);
      } else {
        LastBelow(xs, x);
        BestFirstSnoc(xs, x);
      }
    }
  }

  // The standings list every evaluation best first.
  lemma {:induction false} StandingsBestFirst(xs: seq<Evaluated>)
    ensures BestFirst(Standings(xs)) && multiset(Standings(xs)) == multiset(xs)
  {
    hide NoWorse;
    if xs != [] {
      StandingsBestFirst(xs[..|xs| - 1]);
      PlacedBestFirst(xs[|xs| - 1], Standings(xs[..|xs| - 1]));
    }
  }

  // Neither is better.
  function TiedWith(e: Evaluated): Evaluated -> bool {
    (x: Evaluated) => !Above(x, e) && !Above(e, x)
  }

  lemma AboveApart(e: Evaluated, x: Evaluated, y: Evaluated)
    requires Above(x, y) && TiedWith(e)(x)
    ensures !TiedWith(e)(y)
  {
    NotAboveIsNoWorse(e, y);
    NotAboveIsNoWorse(y, e);
    NotAboveIsNoWorse(e, x);
    NotAboveIsNoWorse(x, e);
    NotAboveIsNoWorse(y, x);
    if TiedWith(e)(y) {
      NoWorseChains(y, e, x);
    }
  }

  lemma {:induction false} PlacedKeepsTies(x: Evaluated, xs: seq<Evaluated>, e: Evaluated)
    ensures Filter(Placed(x, xs), TiedWith(e)) == Filter(xs + [x], TiedWith(e))
  {
    hide Filter, Above;
    if xs == [] {
      assert xs + [x] == [x];
    } else {
      var n := |xs| - 1;
      assert xs == xs[..n] + [xs[n]];
      if Above(x, xs[n]) {
        PlacedKeepsTies(x, xs[..n], e);
        FilterSnoc(Placed(x, xs[..n]), xs[n], TiedWith(e));
        FilterSnoc(xs[..n], x, TiedWith(e));
        FilterSnoc(xs, x, TiedWith(e));
        FilterSnoc(xs[..n], xs[n], TiedWith(e));
        if TiedWith(e)(x) {
          AboveApart(e, x, xs[n]);
        }
      }
    }
  }

  // Members no better than each other keep the order they were evaluated in.
  lemma {:induction false} StandingsStable(xs: seq<Evaluated>, e: Evaluated)
    ensures Filter(Standings(xs), TiedWith(e)) == Filter(xs, TiedWith(e))
  {
    hide Filter, Above;
    if xs != [] {
      var n := |xs| - 1;
      StandingsStable(xs[..n], e);
      PlacedKeepsTies(xs[n], Standings(xs[..n]), e);
      FilterSnoc(Standings(xs[..n]), xs[n], TiedWith(e));
      FilterSnoc(xs[..n], xs[n], TiedWith(e));
      assert xs == xs[..n] + [xs[n]];
    }
  }

  // ---- what is read off it --------------------------------------------------------------------------

  lemma {:induction false} FilterBestFirst(xs: seq<Evaluated>, keep: Evaluated -> bool)
    requires BestFirst(xs)
    ensures BestFirst(Filter(xs, keep))
  {
    hide NoWorse;
    if xs != [] {
      var n := |xs| - 1;
      FilterBestFirst(xs[..n], keep);
      forall i | 0 <= i < |Filter(xs[..n], keep)| ensures NoWorse(Filter(xs[..n], keep)[i], xs[n]) {
        FilterMember(xs[..n], keep, i);
        var k :| 0 <= k < n && xs[k] == Filter(xs[..n], keep)[i];
      }
      BestFirstAppend(Filter(xs[..n], keep), xs[n]);
    }
  }

  lemma BestFirstAppend(xs: seq<Evaluated>, y: Evaluated)
    requires BestFirst(xs) && NoneWorse(xs, y)
    ensures BestFirst(xs + [y]) && BestFirst(xs + [])
  {
    BestFirstSnoc(xs, y);
    assert xs + [] == xs;
  }

  // A leaderboard of n lists scored members, and as many as there are up to n; no scored member it
  // leaves out is better than one it lists.
  lemma ListedAreBest(xs: seq<Evaluated>, n: nat, e: Evaluated, i: nat)
    requires e in xs && e.score.Some? && i < |Listed(Standings(xs), n)|
    ensures Listed(Standings(xs), n)[i] in xs && Listed(Standings(xs), n)[i].score.Some?
    ensures || e in Listed(Standings(xs), n)
            || (|Listed(Standings(xs), n)| == n && NoWorse(Listed(Standings(xs), n)[i], e))
  {
    hide NoWorse, Above, Standings;
    var s := Standings(xs);
    StandingsBestFirst(xs);
    var scored := Filter(s, IsScored());
    FilterBestFirst(s, IsScored());
    FilterMember(s, IsScored(), i);
    assert scored[i] in multiset(s);
    assert e in multiset(xs);
    var k :| 0 <= k < |s| && s[k] == e;
    FilterHolds(s, IsScored(), k);
    var j :| 0 <= j < |scored| && scored[j] == e;
    assert Listed(s, n)[i] == scored[i];
    if j < n {
      assert Listed(s, n)[j] == e;
    }
  }

  // Each strategy's recorded score is one it was given, and none it was given is better.
  lemma {:induction false} BestScoresAre(s: seq<Evaluated>, e: Evaluated)
    requires BestFirst(s) && e in s && e.score.Some?
    ensures e.id in BestScores(s) && !Better(e.score.value, BestScores(s)[e.id])
    ensures ScoreOf(s, e.id, BestScores(s)[e.id])
  {
    hide NoWorse, Better;
    var n := |s| - 1;
    assert s == s[..n] + [s[n]];
    if e in s[..n] {
      BestScoresAre(s[..n], e);
      ScoreStays(s, e.id, BestScores(s[..n])[e.id]);
    } else if e.id in BestScores(s[..n]) {
      BestScoresFrom(s[..n], e.id);
      var k :| 0 <= k < n && s[..n][k].id == e.id && s[..n][k].score == Some(BestScores(s[..n])[e.id]);
      assert NoWorse(s[k], s[n]);
      NotAboveIsNoWorse(s[k], s[n]);
      ScoreStays(s, e.id, BestScores(s[..n])[e.id]);
    } else {
      assert s[n].id == e.id;
      NotBetterThanItself(e.score.value);
    }
  }

  lemma NotBetterThanItself(x: OosScore)
    ensures !Better(x, x)
  {
  }

  ghost predicate ScoreOf(s: seq<Evaluated>, id: Id, score: OosScore) {
    exists k :: 0 <= k < |s| && s[k].id == id && s[k].score == Some(score)
  }

  lemma ScoreStays(s: seq<Evaluated>, id: Id, score: OosScore)
    requires s != [] && ScoreOf(s[..|s| - 1], id, score)
    ensures ScoreOf(s, id, score)
  {
    var k :| 0 <= k < |s| - 1 && s[..|s| - 1][k].id == id && s[..|s| - 1][k].score == Some(score);
    assert s[k].id == id;
  }

  lemma {:induction false} BestScoresFrom(s: seq<Evaluated>, id: Id)
    requires id in BestScores(s)
    ensures ScoreOf(s, id, BestScores(s)[id])
  {
    var n := |s| - 1;
    if id in BestScores(s[..n]) {
      BestScoresFrom(s[..n], id);
      ScoreStays(s, id, BestScores(s[..n])[id]);
    } else {
      assert s[n].id == id;
    }
  }

  // ---- a strategy can be listed twice ------------------------------------------------------------------

  ghost predicate ListsTwice(xs: seq<Evaluated>, id: Id) {
    exists i, j :: 0 <= i < j < |xs| && xs[i].id == id && xs[j].id == id
  }

  function HasId(id: Id): Evaluated -> bool {
    (e: Evaluated) => e.id == id
  }

  lemma {:induction false} TwiceIffCounted(xs: seq<Evaluated>, id: Id)
    ensures ListsTwice(xs, id) <==> |Filter(xs, HasId(id))| >= 2
    ensures (exists i :: 0 <= i < |xs| && xs[i].id == id) <==> |Filter(xs, HasId(id))| >= 1
  {
    if xs != [] {
      var n := |xs| - 1;
      TwiceIffCounted(xs[..n], id);
      assert forall i :: 0 <= i < n ==> xs[..n][i] == xs[i];
      FilterLast(xs, HasId(id));
      hide Filter;
    }
  }

  // The final sort drops no repetition: a strategy stands in the ranking more than once exactly
  // when it was evaluated more than once.
  lemma StandsTwiceIff(xs: seq<Evaluated>, id: Id)
    ensures ListsTwice(Standings(xs), id) <==> ListsTwice(xs, id)
  {
    hide Filter, Standings, ListsTwice;
    TwiceIffCounted(xs, id);
    TwiceIffCounted(Standings(xs), id);
    FilterPermute(xs, Standings(xs), HasId(id));
    var f, g := Filter(xs, HasId(id)), Filter(Standings(xs), HasId(id));
    assert |f| == |multiset(f)| == |multiset(g)| == |g|;
  }

  // The record of a generation ends with its evaluations, which follow those before it.
  lemma GenerationEndsHistory(env: Env, generation: nat, r: Run)
    requires generation < TWO_TO_THE_32
    ensures var after := Generate(env, generation, r); after.history == r.history + after.latest
  {
    hide Steps, GenomesOf, RowsAfter, SurvivorsOf;
    var gs := GenomesOf(env, generation, r);
    StepsExtend(env, generation, Ready(r, gs), gs);
  }

  lemma CarriedReturns(env: Env, generation: nat, r: Run, rows0: Rows, first: Id, i: nat)
    requires generation < TWO_TO_THE_32 && Below(rows0, first) && Invariant(env, r, rows0, first)
    requires i < |r.latest| && Carried(env, r.latest[i])
    ensures !Absent(Generate(env, generation, r).latest, r.latest[i].id)
  {
    hide Evaluations, Invariant, GenomesOf, RowsAfter, SurvivorsOf, Carried, GoodGenomes;
    var gs := GenomesOf(env, generation, r);
    GenomesAreGood(env, generation, r, rows0, first);
    GenomesDistinct(env, r, gs);
    GenerationPrepared(env, generation, r, gs, rows0, first);
    EvaluatedAgain(env, generation, r, Evaluations(env, generation, r, gs), gs, rows0, first, i);
  }

  lemma SplitTwice(before: seq<Evaluated>, latest: seq<Evaluated>, id: Id)
    requires !Absent(before, id) && !Absent(latest, id)
    ensures ListsTwice(before + latest, id)
  {
    var i :| 0 <= i < |before| && before[i].id == id;
    var j :| 0 <= j < |latest| && latest[j].id == id;
    assert (before + latest)[i].id == id && (before + latest)[|before| + j].id == id;
  }

  // Every strategy a search carries on from one generation to the next stands in its ranking at
  // least twice.
  lemma CarriedStandsTwice(env: Env, rows0: Rows, first: Id, k: nat, i: nat)
    requires 0 < k < TWO_TO_THE_32 && Below(rows0, first)
    requires i < |RunOf(env, rows0, first, k).latest| && Carried(env, RunOf(env, rows0, first, k).latest[i])
    ensures ListsTwice(Standings(RunOf(env, rows0, first, k + 1).history), RunOf(env, rows0, first, k).latest[i].id)
  {
    hide RunOf, Invariant, Generate, Carried, Standings, ListsTwice;
    var r, next := RunOf(env, rows0, first, k), RunOf(env, rows0, first, k + 1);
    var id := r.latest[i].id;
    RunUnfolds(env, rows0, first, k);
    RunUnfolds(env, rows0, first, k + 1);
    GenerationEndsHistory(env, k - 1, RunOf(env, rows0, first, k - 1));
    GenerationEndsHistory(env, k, r);
    RunKeepsInvariant(env, rows0, first, k);
    CarriedReturns(env, k, r, rows0, first, i);
    var before := RunOf(env, rows0, first, k - 1).history;
    assert r.history[|before| + i].id == id;
    SplitTwice(r.history, next.latest, id);
    StandsTwiceIff(next.history, id);
  }
}
