// Choosing the acting threshold: precision first, confirmed on a second fold.
module ActThreshold {
  import opened Prelude
  import opened Sorting

  // One observed row: the predicted probability and the realized outcome in R.
  datatype Case = Case(proba: real, r: real)

  const MIN_ACTED := 8
  const ACTED_SHARE := 0.10
  const MIN_RECALL := 0.10
  const SELECTION_SHARE := 0.70
  const LEGACY_THRESHOLD := 0.5

  // ---- acting statistics ------------------------------------------------------------------

  function Acts(tau: real): Case -> bool {
    (c: Case) => c.proba >= tau
  }

  // Profitable net of the round-trip cost.
  function Profits(cost: real): Case -> bool {
    (c: Case) => c.r > cost
  }

  function NetReturn(cost: real): Case -> real {
    (c: Case) => c.r - cost
  }

  // No expectancy stands for minus infinity.
  datatype Stats = Stats(nActed: nat, precision: real, recall: real, expectancy: Option<real>)

  function ThresholdStats(fold: seq<Case>, tau: real, cost: real): Stats {
    var acted := Filter(fold, Acts(tau));
    if acted == [] then Stats(0, 0.0, 0.0, None)
    else
      var actedProfit, allProfit := |Filter(acted, Profits(cost))|, |Filter(fold, Profits(cost))|;
      Stats(|acted|, actedProfit as real / |acted| as real,
            if allProfit > 0 then actedProfit as real / allProfit as real else 0.0,
            Some(SumBy(acted, NetReturn(cost)) / |acted| as real))
  }

  predicate Earns(s: Stats) {
    s.expectancy.Some? && s.expectancy.value > 0.0
  }

  predicate PassesConstraints(fold: seq<Case>, tau: real, cost: real, minActed: nat, requireRecall: bool) {
    var s := ThresholdStats(fold, tau, cost);
    s.nActed >= minActed && Earns(s) && (requireRecall ==> s.recall >= MIN_RECALL)
  }

  // ---- ranking ------------------------------------------------------------------------------

  datatype Scored = Scored(precision: real, expectancy: real, tau: real)

  // Higher precision, then higher expectancy, then the lower threshold.
  predicate Before(a: Scored, b: Scored) {
    || a.precision > b.precision
    || (a.precision == b.precision && a.expectancy > b.expectancy)
    || (a.precision == b.precision && a.expectancy == b.expectancy && a.tau <= b.tau)
  }

  function ScoredAt(fold: seq<Case>, tau: real, cost: real): Scored
    requires Earns(ThresholdStats(fold, tau, cost))
  {
    var s := ThresholdStats(fold, tau, cost);
    Scored(s.precision, s.expectancy.value, tau)
  }

  function Qualified(fold: seq<Case>, grid: seq<real>, cost: real, minActed: nat): seq<Scored> {
    if grid == [] then []
    else
      var n := |grid| - 1;
      Qualified(fold, grid[..n], cost, minActed)
        + if PassesConstraints(fold, grid[n], cost, minActed, true) then [ScoredAt(fold, grid[n], cost)] else []
  }

  function InsertScored(x: Scored, xs: seq<Scored>): (r: seq<Scored>)
    ensures multiset(r) == multiset{x} + multiset(xs)
  {
    if xs == [] then [x]
    else if Before(x, xs[0]) then [x] + xs
    else
      assert xs == [xs[0]] + xs[1..];
      [xs[0]] + InsertScored(x, xs[1..])
  }

  function SortScored(xs: seq<Scored>): (r: seq<Scored>)
    ensures multiset(r) == multiset(xs)
  {
    if xs == [] then []
    else
      assert xs == xs[..|xs| - 1] + [xs[|xs| - 1]];
      InsertScored(xs[|xs| - 1], SortScored(xs[..|xs| - 1]))
  }

  function Ranked(fold: seq<Case>, grid: seq<real>, cost: real, minActed: nat): seq<Scored> {
    SortScored(Qualified(fold, grid, cost, minActed))
  }

  method RankPrecisionFirst(fold: seq<Case>, grid: seq<real>, cost: real, minActed: nat) returns (ranked: seq<Scored>)
    ensures ranked == Ranked(fold, grid, cost, minActed)
  {
    hide ThresholdStats;
    var scored := [];
    for i := 0 to |grid|
      invariant scored == Qualified(fold, grid[..i], cost, minActed)
    {
      assert grid[..i + 1][..i] == grid[..i];
      var s := ThresholdStats(fold, grid[i], cost);
      if s.nActed >= minActed && Earns(s) && s.recall >= MIN_RECALL {
        scored := scored + [Scored(s.precision, s.expectancy.value, grid[i])];
      }
    }
    assert grid[..|grid|] == grid;
    ranked := SortScored(scored);
  }

  // ---- selection -----------------------------------------------------------------------------

  // The selection fold is the first seventy percent of the rows.
  function Cut(n: nat): (c: nat)
    ensures c <= n
  {
    (SELECTION_SHARE * n as real).Floor
  }

  function MinActed(n: nat): (m: nat)
    ensures m >= MIN_ACTED
  {
    var share := Ceil(ACTED_SHARE * n as real);
    if share < MIN_ACTED then MIN_ACTED else share
  }

  // The first ranked threshold that also holds on the confirmation fold.
  function FirstConfirmed(ranked: seq<Scored>, fold: seq<Case>, cost: real, minActed: nat): Option<real> {
    if ranked == [] then None
    else if PassesConstraints(fold, ranked[0].tau, cost, minActed, false) then Some(ranked[0].tau)
    else FirstConfirmed(ranked[1..], fold, cost, minActed)
  }

  function Selected(rows: seq<Case>, grid: seq<real>, cost: real): real {
    var n := |rows|;
    var cut := Cut(n);
    if n == 0 then LEGACY_THRESHOLD
    else if cut == 0 || cut == n then
      var ranked := Ranked(rows, grid, cost, MinActed(n));
      if ranked == [] then LEGACY_THRESHOLD else ranked[0].tau
    else
      match FirstConfirmed(Ranked(rows[..cut], grid, cost, MinActed(cut)), rows[cut..], cost, MinActed(n - cut))
      case Some(tau) => tau
      case None => LEGACY_THRESHOLD
  }

  // The candidate grid is computed from the probabilities by library quantiles and may be any.
  method SelectActThreshold(rows: seq<Case>, grid: seq<real>, cost: real) returns (tau: real)
    ensures tau == Selected(rows, grid, cost)
  {
    hide PassesConstraints, Ranked;
    var n := |rows|;
    if n == 0 {
      return LEGACY_THRESHOLD;
    }
    var cut := Cut(n);
    if cut == 0 || n - cut == 0 {
      var ranked := RankPrecisionFirst(rows, grid, cost, MinActed(n));
      return if ranked == [] then LEGACY_THRESHOLD else ranked[0].tau;
    }
    var ranked := RankPrecisionFirst(rows[..cut], grid, cost, MinActed(cut));
    for i := 0 to |ranked|
      invariant FirstConfirmed(ranked, rows[cut..], cost, MinActed(n - cut))
             == FirstConfirmed(ranked[i..], rows[cut..], cost, MinActed(n - cut))
    {
      if PassesConstraints(rows[cut..], ranked[i].tau, cost, MinActed(n - cut), false) {
        return ranked[i].tau;
      }
    }
    tau := LEGACY_THRESHOLD;
  }

  // ---- what is selected -----------------------------------------------------------------------

  lemma BeforeTotal(a: Scored, b: Scored)
    ensures Before(a, b) || Before(b, a)
  {
  }

  ghost predicate RankedBefore(x: Scored, xs: seq<Scored>) {
    forall i :: 0 <= i < |xs| ==> Before(x, xs[i])
  }

  // Each entry ranks no lower than all that follow it.
  ghost predicate InRankOrder(xs: seq<Scored>) {
    xs == [] || (RankedBefore(xs[0], xs[1..]) && InRankOrder(xs[1..]))
  }

  lemma {:induction false} InsertKeepsOrder(x: Scored, xs: seq<Scored>)
    requires InRankOrder(xs)
    ensures InRankOrder(InsertScored(x, xs))
  {
    if xs != [] {
      if Before(x, xs[0]) {
        forall i | 0 <= i < |xs| ensures Before(x, xs[i]) {
          if i > 0 {
            assert xs[1..][i - 1] == xs[i];
          }
        }
        assert ([x] + xs)[1..] == xs;
      } else {
        InsertKeepsOrder(x, xs[1..]);
        BeforeTotal(x, xs[0]);
        var rest := InsertScored(x, xs[1..]);
        InsertBelow(xs[0], x, xs[1..]);
        assert ([xs[0]] + rest)[1..] == rest;
      }
    }
  }

  lemma {:induction false} InsertBelow(head: Scored, x: Scored, xs: seq<Scored>)
    requires Before(head, x) && RankedBefore(head, xs)
    ensures RankedBefore(head, InsertScored(x, xs))
  {
    if xs != [] && !Before(x, xs[0]) {
      InsertBelow(head, x, xs[1..]);
    }
  }

  lemma {:induction false} SortedInRankOrder(xs: seq<Scored>)
    ensures InRankOrder(SortScored(xs))
  {
    if xs != [] {
      SortedInRankOrder(xs[..|xs| - 1]);
      InsertKeepsOrder(xs[|xs| - 1], SortScored(xs[..|xs| - 1]));
    }
  }

  // Exactly the grid's thresholds that clear the constraints are scored.
  lemma {:induction false} QualifiedAre(fold: seq<Case>, grid: seq<real>, cost: real, minActed: nat, x: Scored)
    ensures x in Qualified(fold, grid, cost, minActed) <==>
              x.tau in grid && PassesConstraints(fold, x.tau, cost, minActed, true) && x == ScoredAt(fold, x.tau, cost)
  {
    hide ThresholdStats;
    if grid != [] {
      var n := |grid| - 1;
      QualifiedAre(fold, grid[..n], cost, minActed, x);
      assert grid == grid[..n] + [grid[n]];
    }
  }

  // A threshold that clears every constraint on the selection fold and holds on confirmation.
  predicate Holds(rows: seq<Case>, tau: real, cost: real) {
    var cut := Cut(|rows|);
    && PassesConstraints(rows[..cut], tau, cost, MinActed(cut), true)
    && PassesConstraints(rows[cut..], tau, cost, MinActed(|rows| - cut), false)
  }

  lemma {:induction false} FirstConfirmedIsBest(ranked: seq<Scored>, fold: seq<Case>, cost: real, minActed: nat)
    requires InRankOrder(ranked)
    ensures var c := FirstConfirmed(ranked, fold, cost, minActed);
            if c.None? then NoneConfirmed(ranked, fold, cost, minActed)
            else exists i :: 0 <= i < |ranked| && BestConfirmed(ranked, fold, cost, minActed, i, c.value)
  {
    hide PassesConstraints, Before;
    if ranked != [] {
      if PassesConstraints(fold, ranked[0].tau, cost, minActed, false) {
        assert BestConfirmed(ranked, fold, cost, minActed, 0, ranked[0].tau) by {
          HeadIsBest(ranked, fold, cost, minActed);
        }
      } else {
        FirstConfirmedIsBest(ranked[1..], fold, cost, minActed);
        var c := FirstConfirmed(ranked[1..], fold, cost, minActed);
        if c.Some? {
          var i :| 0 <= i < |ranked[1..]| && BestConfirmed(ranked[1..], fold, cost, minActed, i, c.value);
          TailBest(ranked, fold, cost, minActed, i, c.value);
        } else {
          TailNone(ranked, fold, cost, minActed);
        }
      }
    }
  }

  ghost predicate NoneConfirmed(ranked: seq<Scored>, fold: seq<Case>, cost: real, minActed: nat) {
    forall i :: 0 <= i < |ranked| ==> !PassesConstraints(fold, ranked[i].tau, cost, minActed, false)
  }

  ghost predicate BestConfirmed(ranked: seq<Scored>, fold: seq<Case>, cost: real, minActed: nat, i: nat, tau: real)
    requires i < |ranked|
  {
    && ranked[i].tau == tau && PassesConstraints(fold, tau, cost, minActed, false)
    && forall j :: 0 <= j < |ranked| && PassesConstraints(fold, ranked[j].tau, cost, minActed, false) ==>
         Before(ranked[i], ranked[j])
  }

  lemma HeadIsBest(ranked: seq<Scored>, fold: seq<Case>, cost: real, minActed: nat)
    requires InRankOrder(ranked) && ranked != []
    requires PassesConstraints(fold, ranked[0].tau, cost, minActed, false)
    ensures BestConfirmed(ranked, fold, cost, minActed, 0, ranked[0].tau)
  {
    hide PassesConstraints;
    forall j | 0 <= j < |ranked| ensures Before(ranked[0], ranked[j]) {
      if j > 0 {
        assert ranked[1..][j - 1] == ranked[j];
      }
    }
  }

  lemma TailBest(ranked: seq<Scored>, fold: seq<Case>, cost: real, minActed: nat, i: nat, tau: real)
    requires ranked != [] && i < |ranked[1..]| && BestConfirmed(ranked[1..], fold, cost, minActed, i, tau)
    requires !PassesConstraints(fold, ranked[0].tau, cost, minActed, false)
    ensures BestConfirmed(ranked, fold, cost, minActed, i + 1, tau)
  {
    hide PassesConstraints, Before;
    forall j | 0 <= j < |ranked| && PassesConstraints(fold, ranked[j].tau, cost, minActed, false)
      ensures Before(ranked[i + 1], ranked[j])
    {
      assert ranked[1..][j - 1] == ranked[j];
    }
  }

  lemma NoneAt(ranked: seq<Scored>, fold: seq<Case>, cost: real, minActed: nat, i: nat)
    requires NoneConfirmed(ranked, fold, cost, minActed) && i < |ranked|
    ensures !PassesConstraints(fold, ranked[i].tau, cost, minActed, false)
  {
  }

  lemma TailNone(ranked: seq<Scored>, fold: seq<Case>, cost: real, minActed: nat)
    requires ranked != [] && NoneConfirmed(ranked[1..], fold, cost, minActed)
    requires !PassesConstraints(fold, ranked[0].tau, cost, minActed, false)
    ensures NoneConfirmed(ranked, fold, cost, minActed)
  {
    hide PassesConstraints;
    forall j | 0 <= j < |ranked| ensures !PassesConstraints(fold, ranked[j].tau, cost, minActed, false) {
      if j > 0 {
        assert ranked[1..][j - 1] == ranked[j];
      }
    }
  }

  lemma HoldsEarns(rows: seq<Case>, tau: real, cost: real)
    requires Holds(rows, tau, cost)
    ensures Earns(ThresholdStats(rows[..Cut(|rows|)], tau, cost))
  {
  }

  // With two folds to work on, the selection is a threshold of the grid that holds on both and
  // that no other such threshold outranks on the selection fold; or the legacy one half, when
  // the grid has none that holds.
  lemma SelectionIsBest(rows: seq<Case>, grid: seq<real>, cost: real)
    requires 0 < Cut(|rows|) < |rows|
    ensures var tau, front := Selected(rows, grid, cost), rows[..Cut(|rows|)];
            if SomeHolds(rows, grid, cost) then
              && tau in grid && Holds(rows, tau, cost) && Earns(ThresholdStats(front, tau, cost))
              && NoneOutranks(rows, grid, cost, tau)
            else tau == LEGACY_THRESHOLD
  {
    hide PassesConstraints, Ranked, Before, InRankOrder;
    var cut := Cut(|rows|);
    var front, back, minActed := rows[..cut], rows[cut..], MinActed(|rows| - cut);
    var ranked := Ranked(front, grid, cost, MinActed(cut));
    RankedOrder(front, grid, cost, MinActed(cut));
    FirstConfirmedIsBest(ranked, back, cost, minActed);
    var c := FirstConfirmed(ranked, back, cost, minActed);
    if c.None? {
      forall k | 0 <= k < |grid| ensures !Holds(rows, grid[k], cost) {
        if Holds(rows, grid[k], cost) {
          var i := RankedHas(front, grid, cost, MinActed(cut), grid[k]);
          NoneAt(ranked, back, cost, minActed, i);
        }
      }
    } else {
      var i :| 0 <= i < |ranked| && BestConfirmed(ranked, back, cost, minActed, i, c.value);
      RankedFrom(front, grid, cost, MinActed(cut), i);
      var k :| 0 <= k < |grid| && grid[k] == c.value;
      assert Holds(rows, grid[k], cost);
      HoldsEarns(rows, c.value, cost);
      forall k | 0 <= k < |grid| && Holds(rows, grid[k], cost)
        ensures Outranks(rows, cost, c.value, grid[k])
      {
        var j := RankedHas(front, grid, cost, MinActed(cut), grid[k]);
        HoldsEarns(rows, grid[k], cost);
      }
    }
  }

  ghost predicate SomeHolds(rows: seq<Case>, grid: seq<real>, cost: real) {
    exists k :: 0 <= k < |grid| && Holds(rows, grid[k], cost)
  }

  // The first threshold ranks no lower than the second on the selection fold.
  ghost predicate Outranks(rows: seq<Case>, cost: real, tau: real, other: real) {
    var front := rows[..Cut(|rows|)];
    && Earns(ThresholdStats(front, tau, cost)) && Earns(ThresholdStats(front, other, cost))
    && Before(ScoredAt(front, tau, cost), ScoredAt(front, other, cost))
  }

  ghost predicate NoneOutranks(rows: seq<Case>, grid: seq<real>, cost: real, tau: real) {
    forall k :: 0 <= k < |grid| && Holds(rows, grid[k], cost) ==> Outranks(rows, cost, tau, grid[k])
  }

  lemma RankedOrder(fold: seq<Case>, grid: seq<real>, cost: real, minActed: nat)
    ensures InRankOrder(Ranked(fold, grid, cost, minActed))
  {
    SortedInRankOrder(Qualified(fold, grid, cost, minActed));
  }

  lemma RankedFrom(fold: seq<Case>, grid: seq<real>, cost: real, minActed: nat, i: nat)
    requires i < |Ranked(fold, grid, cost, minActed)|
    ensures var x := Ranked(fold, grid, cost, minActed)[i];
            x.tau in grid && PassesConstraints(fold, x.tau, cost, minActed, true) && x == ScoredAt(fold, x.tau, cost)
  {
    hide PassesConstraints;
    var ranked := Ranked(fold, grid, cost, minActed);
    assert ranked[i] in multiset(ranked);
    QualifiedAre(fold, grid, cost, minActed, ranked[i]);
  }

  lemma RankedHas(fold: seq<Case>, grid: seq<real>, cost: real, minActed: nat, tau: real) returns (i: nat)
    requires tau in grid && PassesConstraints(fold, tau, cost, minActed, true)
    ensures i < |Ranked(fold, grid, cost, minActed)|
    ensures Ranked(fold, grid, cost, minActed)[i] == ScoredAt(fold, tau, cost)
  {
    hide ThresholdStats;
    var x := ScoredAt(fold, tau, cost);
    QualifiedAre(fold, grid, cost, minActed, x);
    assert x in multiset(Ranked(fold, grid, cost, minActed));
    i :| 0 <= i < |Ranked(fold, grid, cost, minActed)| && Ranked(fold, grid, cost, minActed)[i] == x;
  }

  // Two folds exist for every sample of two rows or more; below that the floor on acted rows
  // leaves nothing to select.
  lemma FoldsExistIff(rows: seq<Case>, grid: seq<real>, cost: real)
    ensures 0 < Cut(|rows|) < |rows| <==> |rows| >= 2
    ensures |rows| < 2 ==> Selected(rows, grid, cost) == LEGACY_THRESHOLD
  {
    if |rows| == 1 {
      assert Cut(1) == 0;
      if Ranked(rows, grid, cost, MinActed(1)) != [] {
        RankedFrom(rows, grid, cost, MinActed(1), 0);
        TooFewAct(rows, Ranked(rows, grid, cost, MinActed(1))[0].tau, cost);
        assert false;
      }
    }
  }

  lemma TooFewAct(rows: seq<Case>, tau: real, cost: real)
    requires |rows| < MIN_ACTED
    ensures !PassesConstraints(rows, tau, cost, MinActed(|rows|), true)
  {
    FilterNoLonger(rows, Acts(tau));
  }

  lemma {:induction false} FilterNoLonger<T>(xs: seq<T>, keep: T -> bool)
    ensures |Filter(xs, keep)| <= |xs|
  {
    if xs != [] {
      FilterNoLonger(xs[..|xs| - 1], keep);
    }
  }

  // ---- splitting by calendar ---------------------------------------------------------------

  const MIN_CALENDAR_SIDE := 20

  function Identity(): int -> int {
    (x: int) => x
  }

  function IsBefore(boundary: int): int -> bool {
    (x: int) => x < boundary
  }

  // The timestamp at the middle of the sorted column.
  function Boundary(ts: seq<int>): int
    requires ts != []
  {
    StableSort(ts, Identity())[|ts| / 2]
  }

  predicate CalendarUsable(ts: seq<int>) {
    ts != []
    && var early := |Filter(ts, IsBefore(Boundary(ts)))|;
       early >= MIN_CALENDAR_SIDE && |ts| - early >= MIN_CALENDAR_SIDE
  }

  // Which rows are in sample: those before the boundary, or the first half when a side would be
  // too thin.
  function InSample(ts: seq<int>): (mask: seq<bool>)
    ensures |mask| == |ts|
  {
    if CalendarUsable(ts) then seq(|ts|, i requires 0 <= i < |ts| => ts[i] < Boundary(ts))
    else seq(|ts|, i => i < |ts| / 2)
  }

  // On strictly increasing timestamps the split is the row split at the midpoint, and it is
  // chronological; on any timestamps it is chronological whenever the boundary is usable.
  lemma CalendarSplit(ts: seq<int>, i: nat, j: nat)
    requires i < |ts| && j < |ts| && InSample(ts)[i] && !InSample(ts)[j]
    ensures CalendarUsable(ts) ==> ts[i] < ts[j]
    ensures StrictlyIncreasing(ts) ==> i < |ts| / 2 <= j && ts[i] < ts[j]
  {
    hide Filter, StableSort, Boundary;
    if StrictlyIncreasing(ts) {
      BoundaryIsMiddle(ts);
      MiddleSplits(ts, |ts| / 2, i);
      MiddleSplits(ts, |ts| / 2, j);
    }
  }

  lemma BoundaryIsMiddle(ts: seq<int>)
    requires StrictlyIncreasing(ts) && ts != []
    ensures Boundary(ts) == ts[|ts| / 2]
  {
    hide StableSort;
    StableSortIdentity(ts, Identity());
  }

  lemma MiddleSplits(ts: seq<int>, mid: nat, i: nat)
    requires StrictlyIncreasing(ts) && mid < |ts| && i < |ts|
    ensures ts[i] < ts[mid] <==> i < mid
  {
  }

  ghost predicate StrictlyIncreasing(ts: seq<int>) {
    forall i, j :: 0 <= i < j < |ts| ==> ts[i] < ts[j]
  }
}
