// What the acting statistics count: the acting threshold's constraints and ranking, told by sets
// of rows and totals instead of quotients.
module Acting {
  import opened Prelude
  import opened Arith
  import opened Sorting
  import opened Detectors
  import opened ActThreshold

  // The rows acted on at a threshold, and those that beat the cost.
  ghost function ActedAt(fold: seq<Case>, tau: real): set<int> {
    set i | 0 <= i < |fold| && fold[i].proba >= tau
  }

  ghost function ProfitableAt(fold: seq<Case>, cost: real): set<int> {
    set i | 0 <= i < |fold| && fold[i].r > cost
  }

  function Returns(fold: seq<Case>): (r: seq<real>)
    ensures |r| == |fold|
  {
    MapSeq(fold, (c: Case) => c.r)
  }

  // What the rows acted on return together, each paying the cost once.
  ghost function NetOf(fold: seq<Case>, tau: real, cost: real): real {
    SumAt(Returns(fold), ActedAt(fold, tau)) - Times(|ActedAt(fold, tau)|, cost)
  }

  // ---- counting -------------------------------------------------------------------------------

  lemma ActedCounts(fold: seq<Case>, tau: real, cost: real)
    ensures |Filter(fold, Acts(tau))| == |ActedAt(fold, tau)|
    ensures |Filter(fold, Profits(cost))| == |ProfitableAt(fold, cost)|
    ensures |Filter(Filter(fold, Acts(tau)), Profits(cost))| == |ActedAt(fold, tau) * ProfitableAt(fold, cost)|
  {
    FilterCounts(fold, Acts(tau));
    FilterCounts(fold, Profits(cost));
    var both := (c: Case) => c.proba >= tau && c.r > cost;
    FilterTwice(fold, Acts(tau), Profits(cost), both);
    FilterCounts(fold, both);
    assert KeptAt(fold, Acts(tau)) == ActedAt(fold, tau);
    assert KeptAt(fold, Profits(cost)) == ProfitableAt(fold, cost);
    assert KeptAt(fold, both) == ActedAt(fold, tau) * ProfitableAt(fold, cost);
  }

  lemma ReturnsPrefix(fold: seq<Case>)
    requires fold != []
    ensures Returns(fold)[..|fold| - 1] == Returns(fold[..|fold| - 1])
  {
  }

  lemma NetGrows(fold: seq<Case>, tau: real, cost: real)
    requires fold != []
    ensures var n := |fold| - 1;
            && NetOf(fold, tau, cost)
               == NetOf(fold[..n], tau, cost) + (if fold[n].proba >= tau then fold[n].r - cost else 0.0)
  {
    var n := |fold| - 1;
    assert ActedAt(fold, tau) == KeptAt(fold, Acts(tau)) && ActedAt(fold[..n], tau) == KeptAt(fold[..n], Acts(tau));
    KeptGrows(fold, Acts(tau));
    ReturnsPrefix(fold);
    assert n in ActedAt(fold, tau) <==> fold[n].proba >= tau;
  }

  lemma {:induction false} NetTotals(fold: seq<Case>, tau: real, cost: real)
    ensures SumBy(Filter(fold, Acts(tau)), NetReturn(cost)) == NetOf(fold, tau, cost)
  {
    if fold != [] {
      var n := |fold| - 1;
      NetTotals(fold[..n], tau, cost);
      NetGrows(fold, tau, cost);
      FilterLast(fold, Acts(tau));
      hide NetOf, Filter;
      if fold[n].proba >= tau {
        SumBySnoc(Filter(fold[..n], Acts(tau)), fold[n], NetReturn(cost));
      } else {
        assert Filter(fold, Acts(tau)) == Filter(fold[..n], Acts(tau));
      }
    } else {
      assert ActedAt(fold, tau) == {};
    }
  }

  // ---- what the statistics are -------------------------------------------------------------------

  // The rows acted on are counted; precision is the share of them, and recall the share of the
  // profitable rows, that are both; expectancy is the net result per row acted on.
  lemma StatsAre(fold: seq<Case>, tau: real, cost: real)
    ensures var s := ThresholdStats(fold, tau, cost);
            var acted, profitable := ActedAt(fold, tau), ProfitableAt(fold, cost);
            && s.nActed == |acted|
            && s.precision * |acted| as real == |acted * profitable| as real
            && s.recall * |profitable| as real == |acted * profitable| as real
            && (s.expectancy.Some? <==> acted != {})
            && (acted != {} ==> s.expectancy.value * |acted| as real == NetOf(fold, tau, cost))
            && (acted == {} ==> s.precision == 0.0) && (profitable == {} ==> s.recall == 0.0)
  {
    var acted, profitable := ActedAt(fold, tau), ProfitableAt(fold, cost);
    ActedCounts(fold, tau, cost);
    NetTotals(fold, tau, cost);
    hide Filter, SumBy, NetOf, ActedAt, ProfitableAt;
    if acted == {} {
      assert acted * profitable == {};
    } else {
      QuotientTimes(|acted * profitable| as real, |acted| as real);
      QuotientTimes(NetOf(fold, tau, cost), |acted| as real);
      if profitable == {} {
        assert acted * profitable == {};
      } else {
        QuotientTimes(|acted * profitable| as real, |profitable| as real);
      }
    }
  }

  // A threshold clears the constraints exactly when it acts on enough rows, they return more
  // than they cost, and, where recall counts, they hold a tenth of the profitable rows.
  lemma PassesIff(fold: seq<Case>, tau: real, cost: real, minActed: nat, requireRecall: bool)
    ensures var acted, profitable := ActedAt(fold, tau), ProfitableAt(fold, cost);
            (PassesConstraints(fold, tau, cost, minActed, requireRecall)
             <==> && |acted| >= minActed && acted != {} && NetOf(fold, tau, cost) > 0.0
                  && (requireRecall ==> profitable != {} && 10 * |acted * profitable| >= |profitable|))
  {
    StatsAre(fold, tau, cost);
    hide ThresholdStats, NetOf, ActedAt, ProfitableAt;
    var s, acted, profitable := ThresholdStats(fold, tau, cost), ActedAt(fold, tau), ProfitableAt(fold, cost);
    if acted != {} {
      ProductSigns(s.expectancy.value, |acted| as real);
    }
    if profitable != {} {
      AtLeastTenth(s.recall, |profitable|, |acted * profitable|);
    }
  }

  lemma AtLeastTenth(share: real, whole: nat, part: nat)
    requires whole > 0 && share * whole as real == part as real
    ensures share >= 0.10 <==> 10 * part >= whole
  {
    ProductSigns(share - 0.10, whole as real);
    assert (share - 0.10) * whole as real == part as real - 0.10 * whole as real;
  }

  // One share is larger than another, or equal to it, as the cross products are.
  lemma SharesCompare(x: real, n: real, a: real, y: real, m: real, b: real)
    requires n > 0.0 && m > 0.0 && x * n == a && y * m == b
    ensures x > y <==> a * m > b * n
    ensures x == y <==> a * m == b * n
  {
    var k := n * m;
    PositiveProductIs(n, m, k);
    assert x * k == a * m;
    assert y * k == b * n;
    ProductSigns(x - y, k);
    ProductSigns(y - x, k);
    assert (x - y) * k == x * k - y * k;
    assert (y - x) * k == y * k - x * k;
  }

  // a of n against b of m, as shares.
  ghost predicate Ahead(a: real, n: nat, b: real, m: nat) {
    a * m as real > b * n as real
  }

  ghost predicate Level(a: real, n: nat, b: real, m: nat) {
    a * m as real == b * n as real
  }

  // One threshold outranks another by the larger profitable share of the rows it acts on, then by
  // the larger net result per such row, then by being no higher.
  lemma OutranksIff(rows: seq<Case>, cost: real, tau: real, other: real)
    requires ActedAt(rows[..Cut(|rows|)], tau) != {} && ActedAt(rows[..Cut(|rows|)], other) != {}
    requires NetOf(rows[..Cut(|rows|)], tau, cost) > 0.0 && NetOf(rows[..Cut(|rows|)], other, cost) > 0.0
    ensures var front := rows[..Cut(|rows|)];
            var a, b, p := ActedAt(front, tau), ActedAt(front, other), ProfitableAt(front, cost);
            var x, y := |a * p| as real, |b * p| as real;
            var net, net' := NetOf(front, tau, cost), NetOf(front, other, cost);
            (Outranks(rows, cost, tau, other)
             <==> || Ahead(x, |a|, y, |b|)
                  || (Level(x, |a|, y, |b|) && Ahead(net, |a|, net', |b|))
                  || (Level(x, |a|, y, |b|) && Level(net, |a|, net', |b|) && tau <= other))
  {
    hide Ahead, Level, ThresholdStats, ActedAt, ProfitableAt, NetOf, Cut;
    var front := rows[..Cut(|rows|)];
    var a, b, p := ActedAt(front, tau), ActedAt(front, other), ProfitableAt(front, cost);
    var s, s' := ThresholdStats(front, tau, cost), ThresholdStats(front, other, cost);
    StatsAre(front, tau, cost);
    StatsAre(front, other, cost);
    ProductSigns(s.expectancy.value, |a| as real);
    ProductSigns(s'.expectancy.value, |b| as real);
    SharesRank(s.precision, |a|, |a * p| as real, s'.precision, |b|, |b * p| as real);
    SharesRank(s.expectancy.value, |a|, NetOf(front, tau, cost), s'.expectancy.value, |b|, NetOf(front, other, cost));
  }

  lemma SharesRank(x: real, n: nat, a: real, y: real, m: nat, b: real)
    requires n > 0 && m > 0 && x * n as real == a && y * m as real == b
    ensures x > y <==> Ahead(a, n, b, m)
    ensures x == y <==> Level(a, n, b, m)
  {
    SharesCompare(x, n as real, a, y, m as real, b);
  }

  // ---- the folds and the floor -------------------------------------------------------------------

  // The selection fold is seventy percent of the rows, rounded down; the floor on rows acted on is
  // a tenth of the fold, rounded up, and never under eight.
  lemma FoldSizes(n: nat)
    ensures 10 * Cut(n) <= 7 * n < 10 * Cut(n) + 10
    ensures 10 * MinActed(n) >= n && MinActed(n) >= 8
    ensures MinActed(n) > 8 ==> 10 * (MinActed(n) - 1) < n
  {
  }

  // ---- the calendar boundary -----------------------------------------------------------------------

  ghost function EarlierAt(ts: seq<int>, b: int): set<int> {
    set i | 0 <= i < |ts| && ts[i] < b
  }

  ghost function LaterAt(ts: seq<int>, b: int): set<int> {
    set i | 0 <= i < |ts| && ts[i] > b
  }

  lemma CountsPermute(xs: seq<int>, ys: seq<int>, keep: int -> bool)
    requires multiset(xs) == multiset(ys)
    ensures |KeptAt(xs, keep)| == |KeptAt(ys, keep)|
  {
    FilterPermute(xs, ys, keep);
    FilterCounts(xs, keep);
    FilterCounts(ys, keep);
    var f, g := Filter(xs, keep), Filter(ys, keep);
    assert |f| == |multiset(f)| == |multiset(g)| == |g|;
  }

  lemma {:induction false} PlacesBetween(places: set<int>, lo: int, hi: int)
    requires lo <= hi && forall i :: i in places ==> lo <= i < hi
    ensures |places| <= hi - lo
    decreases hi - lo
  {
    if lo == hi {
      assert forall i :: i !in places;
    } else {
      PlacesBetween(places - {lo}, lo + 1, hi);
      ChoiceSize(places, lo);
    }
  }

  // The boundary is a median: at most half the rows come before it, fewer than half after it, and a
  // row lies on it.
  lemma BoundaryIsMedian(ts: seq<int>)
    requires ts != []
    ensures Boundary(ts) in ts
    ensures |EarlierAt(ts, Boundary(ts))| <= |ts| / 2
    ensures |LaterAt(ts, Boundary(ts))| <= |ts| - 1 - |ts| / 2
  {
    var s, b, mid := StableSort(ts, ActThreshold.Identity()), Boundary(ts), |ts| / 2;
    StableSortSorted(ts, ActThreshold.Identity());
    assert s[mid] in multiset(ts);
    var later := (x: int) => x > b;
    CountsPermute(ts, s, IsBefore(b));
    CountsPermute(ts, s, later);
    assert KeptAt(ts, IsBefore(b)) == EarlierAt(ts, b) && KeptAt(ts, later) == LaterAt(ts, b);
    SortedMiddle(s, mid);
    PlacesBetween(KeptAt(s, IsBefore(b)), 0, mid);
    PlacesBetween(KeptAt(s, later), mid + 1, |s|);
  }

  lemma SortedMiddle(s: seq<int>, mid: nat)
    requires SortedBy(s, ActThreshold.Identity()) && mid < |s|
    ensures forall i :: 0 <= i < |s| && s[i] < s[mid] ==> i < mid
    ensures forall i :: 0 <= i < |s| && s[i] > s[mid] ==> i > mid
  {
    forall i | 0 <= i < |s| ensures i < mid ==> s[i] <= s[mid] {
      assert i < mid ==> ActThreshold.Identity()(s[i]) <= ActThreshold.Identity()(s[mid]);
    }
    forall i | 0 <= i < |s| ensures mid < i ==> s[mid] <= s[i] {
      assert mid < i ==> ActThreshold.Identity()(s[mid]) <= ActThreshold.Identity()(s[i]);
    }
  }

  // The calendar decides when it leaves at least twenty rows on either side, and then a row is in
  // sample exactly when it comes before the boundary.
  lemma CalendarDecides(ts: seq<int>, i: nat)
    requires i < |ts|
    ensures var early := EarlierAt(ts, Boundary(ts));
            if |early| >= 20 && |ts| - |early| >= 20 then InSample(ts)[i] <==> ts[i] < Boundary(ts)
            else InSample(ts)[i] <==> i < |ts| / 2
  {
    FilterCounts(ts, IsBefore(Boundary(ts)));
    assert KeptAt(ts, IsBefore(Boundary(ts))) == EarlierAt(ts, Boundary(ts));
    hide Boundary, Filter;
  }
}
