// End to end: how far a search can see into its reserved era.
module RunFirewall {
  import opened Prelude
  import opened Sorting
  import opened Market
  import opened Risk
  import opened Genomes
  import opened Backtest
  import opened Firewall
  import opened Aftermath
  import opened Score
  import opened Catalog
  import opened Generation
  import opened Strategies
  import opened Evolve

  // Two searches with one configuration, each over the catalog of its own windows, which differ
  // only inside the era and have no decision point within a cooldown of its end.
  ghost predicate DifferOnlyInEra(a: Env, b: Env, era: Era, cuts: seq<Cut>) {
    && a.plan == b.plan.(catalog := a.plan.catalog)
    && AlikeButWindows(a, b.(plan := a.plan), era, cuts)
    && OwnCatalog(a) && OwnCatalog(b)
  }

  // The same search, catalog included, over such windows.
  ghost predicate AlikeButWindows(a: Env, b: Env, era: Era, cuts: seq<Cut>) {
    && a == b.(windows := a.windows) && a.era == Some(era)
    && AllScreened(a.windows, b.windows, era, cuts, a.profile)
  }

  // Every feature qualifies in both searches or in neither, with the same observations where it
  // does.
  ghost predicate FeaturesSeenAlike(a: Env, b: Env) {
    forall key :: SeenAlike(a.windows, b.windows, a.minObservations, key)
  }

  lemma ScreenedDatasets(a: Env, b: Env, era: Era, cuts: seq<Cut>)
    requires AlikeButWindows(a, b, era, cuts)
    ensures SameDatasets(a, b)
  {
    hide Dataset, AllScreened;
    forall g ensures DatasetFor(a, g) == DatasetFor(b, g) {
      DatasetScreened(StudyOf(a, g), a.windows, b.windows, era, cuts);
    }
  }

  // The catalog is the one way in: it is unmoved exactly when every feature is seen alike.
  lemma CatalogUnmovedIff(a: Env, b: Env, era: Era, cuts: seq<Cut>)
    requires DifferOnlyInEra(a, b, era, cuts)
    ensures a.plan.catalog == b.plan.catalog <==> FeaturesSeenAlike(a, b)
  {
    hide CatalogOf, SeenAlike, AllScreened;
    SameCatalogIff(a.plan.catalog, a.windows, b.plan.catalog, b.windows, a.minObservations);
  }

  // While every feature is seen alike, whatever else the reserved era holds the whole run is the
  // same: the same genomes, scores, ids, promotions and retirements, generation after generation,
  // the rows past the era included.
  lemma RunIgnoresReservedEra(a: Env, b: Env, era: Era, cuts: seq<Cut>, rows: Rows, first: Id, generations: nat)
    requires DifferOnlyInEra(a, b, era, cuts) && FeaturesSeenAlike(a, b) && generations <= TWO_TO_THE_32
    ensures RunOf(a, rows, first, generations) == RunOf(b, rows, first, generations)
  {
    hide RunOf, CatalogOf, FeaturesSeenAlike, AllScreened, SameDatasets;
    CatalogUnmovedIff(a, b, era, cuts);
    assert b.(plan := a.plan) == b;
    ScreenedDatasets(a, b, era, cuts);
    SameRun(a, b, rows, first, generations);
  }

  // ---- the catalog is not behind the firewall ------------------------------------------------

  function QuietBar(ts: int): Bar {
    Bar(ts, 1.0, 1.0, 1.0, 1.0, 1.0)
  }

  // One observation before the era, one inside it.
  function TwoPoints(inside: real): Window {
    Window([QuietBar(0), QuietBar(1)],
           [BarPoint(0, map["trigger.rsi14" := 0.0], None), BarPoint(1, map["trigger.rsi14" := inside], None)])
  }

  const RSI := "trigger.rsi14"

  // What a feature does inside the reserved era can decide whether the search may use it at all:
  // windows alike before the era, one giving an empty catalog, so that the search is refused, and
  // the other a usable one.
  lemma CatalogSeesReservedEra()
    ensures var era, a, b := Era(1, 1), TwoPoints(0.0), TwoPoints(1.0);
            && DifferInside(a, b, era, Cut(1, 1, 2, 2, 2))
            && CatalogOf([], [a], 2) && CatalogOf([StatOf(RSI, [0.0, 1.0])], [b], 2)
  {
    hide CatalogOf, Observations, SharePast, ClosesWithin, DifferInside;
    PairSharesPast(0.0, 1.0);
    ClosingDiffersInside(TwoPoints(0.0), TwoPoints(1.0), Era(1, 1), 1, 1, ProfileFor(Swing));
    PairCatalog(0.0);
    PairCatalog(1.0);
  }

  lemma PairCatalog(x: real)
    requires x >= 0.0
    ensures CatalogOf(if x > EPSILON then [StatOf(RSI, [0.0, x])] else [], [TwoPoints(x)], 2)
  {
    hide Qualifies, Observations;
    ObservedTwice(x);
    PairQualifies(x);
    var cat := if x > EPSILON then [StatOf(RSI, [0.0, x])] else [];
    StatKey(RSI, [0.0, x]);
    assert x > EPSILON ==> cat[0].key == RSI;
    forall key | Qualifies(key, Observations([TwoPoints(x)], key), 2) ensures HasKey(cat, key) {
      if key != RSI {
        OthersUnobserved(x, key);
        EmptyNeverQualifies(2);
      }
    }
  }

  lemma OthersUnobserved(x: real, key: string)
    requires key != RSI
    ensures Observations([TwoPoints(x)], key) == []
  {
    var w := TwoPoints(x);
    var p, q := w.points[0], w.points[1];
    assert w.points[..1] == [p] && [p][..0] == [] && [w][..0] == [];
    assert PointObservations([p], key) == [];
    assert PointObservations(w.points, key) == [];
  }

  lemma PairSharesPast(x: real, y: real)
    ensures SharePast(TwoPoints(x), TwoPoints(y), 1, 1, 1)
    ensures ClosesWithin(TwoPoints(x), Era(1, 1)) && ClosesWithin(TwoPoints(y), Era(1, 1))
  {
  }

  lemma PairQualifies(x: real)
    requires x >= 0.0
    ensures Qualifies(RSI, [0.0, x], 2) <==> x > EPSILON
  {
    hide LayerOfKey;
    SortedPair(x);
  }

  lemma ObservedTwice(inside: real)
    ensures Observations([TwoPoints(inside)], RSI) == [0.0, inside]
  {
    var key, w := RSI, TwoPoints(inside);
    var p, q := w.points[0], w.points[1];
    assert w.points[..1] == [p] && [p][..0] == [] && [w][..0] == [];
    assert PointObservations([p], key) == [] + [0.0];
    assert PointObservations(w.points, key) == PointObservations([p], key) + [inside];
    assert Observations([w], key) == [] + PointObservations(w.points, key);
  }

  lemma SortedPair(x: real)
    requires x >= 0.0
    ensures SortAscending([0.0, x]) == [0.0, x]
  {
    SortAscendingIsAscending([0.0, x]);
    AscendingUnique(SortAscending([0.0, x]), [0.0, x]);
  }
}
