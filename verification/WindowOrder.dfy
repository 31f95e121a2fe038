// The order a search's windows come in, which loading them concurrently leaves open: what it
// can change, and exactly when.
module WindowOrder {
  import opened Prelude
  import opened Sorting
  import opened Market
  import opened Risk
  import opened Genomes
  import opened Cooldown
  import opened Backtest
  import opened Firewall
  import opened Aftermath
  import opened Score
  import opened Rng
  import opened Catalog
  import opened Generation
  import opened Strategies
  import opened Evolve

  ghost predicate SameWindows(ws: seq<Window>, vs: seq<Window>) {
    multiset(ws) == multiset(vs)
  }

  // ---- the catalog ------------------------------------------------------------------------

  function ObservedIn(key: string): Window -> seq<real> {
    (w: Window) => PointObservations(w.points, key)
  }

  lemma {:induction false} ObservationsGather(ws: seq<Window>, key: string)
    ensures Observations(ws, key) == FlatMap(ws, ObservedIn(key))
  {
    if ws != [] {
      ObservationsGather(ws[..|ws| - 1], key);
    }
  }

  lemma ReorderedSeenAlike(ws: seq<Window>, vs: seq<Window>, minObservations: nat, key: string)
    requires SameWindows(ws, vs)
    ensures SeenAlike(ws, vs, minObservations, key)
  {
    hide Observations, ObservedIn, StatOf;
    ObservationsGather(ws, key);
    ObservationsGather(vs, key);
    FlatMapPermute(ws, vs, ObservedIn(key));
    var xs, ys := Observations(ws, key), Observations(vs, key);
    assert |xs| == |multiset(xs)| == |multiset(ys)| == |ys|;
    StatOfAlike(key, xs, ys);
  }

  // The catalog never depends on it.
  lemma CatalogIgnoresOrder(a: seq<FeatureStat>, ws: seq<Window>, b: seq<FeatureStat>, vs: seq<Window>,
                            minObservations: nat)
    requires CatalogOf(a, ws, minObservations) && CatalogOf(b, vs, minObservations) && SameWindows(ws, vs)
    ensures a == b
  {
    hide CatalogOf, SeenAlike, SameWindows;
    forall key ensures SeenAlike(ws, vs, minObservations, key) {
      ReorderedSeenAlike(ws, vs, minObservations, key);
    }
    SameCatalogIff(a, ws, b, vs, minObservations);
  }

  // ---- a dataset ----------------------------------------------------------------------------

  function KeptIn(s: Study, era: Option<Era>): Window -> seq<DatasetRow> {
    (w: Window) => KeptRows(s, w, era)
  }

  lemma {:induction false} CollectedGathers(s: Study, ws: seq<Window>, era: Option<Era>)
    ensures Collected(s, ws, era) == FlatMap(ws, KeptIn(s, era))
  {
    hide KeptRows;
    if ws != [] {
      CollectedGathers(s, ws[..|ws| - 1], era);
    }
  }

  lemma CollectedPermutes(s: Study, ws: seq<Window>, vs: seq<Window>, era: Option<Era>)
    requires SameWindows(ws, vs)
    ensures multiset(Collected(s, ws, era)) == multiset(Collected(s, vs, era))
  {
    hide Collected, KeptIn;
    CollectedGathers(s, ws, era);
    CollectedGathers(s, vs, era);
    FlatMapPermute(ws, vs, KeptIn(s, era));
  }

  // Reordering the windows gives the same rows, again sorted by time.
  lemma DatasetPermutes(s: Study, ws: seq<Window>, vs: seq<Window>, era: Option<Era>)
    requires SameWindows(ws, vs)
    ensures multiset(Dataset(s, ws, era)) == multiset(Dataset(s, vs, era))
    ensures SortedBy(Dataset(s, ws, era), RowTs()) && SortedBy(Dataset(s, vs, era), RowTs())
  {
    hide Collected, StableSort, SortedBy, SameWindows;
    CollectedPermutes(s, ws, vs, era);
    StableSortSorted(Collected(s, ws, era), RowTs());
    StableSortSorted(Collected(s, vs, era), RowTs());
  }

  // The rows collected at one time, in the order the windows come in.
  function CollectedAt(s: Study, ws: seq<Window>, era: Option<Era>, t: int): seq<DatasetRow> {
    Filter(Collected(s, ws, era), AtKey(RowTs(), t))
  }

  // Rows of one time keep the order they were collected in.
  lemma DatasetAtTime(s: Study, ws: seq<Window>, era: Option<Era>, t: int)
    ensures Filter(Dataset(s, ws, era), AtKey(RowTs(), t)) == CollectedAt(s, ws, era, t)
  {
    hide Collected, StableSort;
    var rows := Collected(s, ws, era);
    FilterStableSort(rows, RowTs(), AtKey(RowTs(), t));
    var tied := Filter(rows, AtKey(RowTs(), t));
    forall i, j | 0 <= i < j < |tied| ensures RowTs()(tied[i]) <= RowTs()(tied[j]) {
      FilterMember(rows, AtKey(RowTs(), t), i);
      FilterMember(rows, AtKey(RowTs(), t), j);
    }
    hide Filter;
    StableSortIdentity(tied, RowTs());
  }

  // Two universes give the same dataset exactly when, at every time, they collect the same rows
  // in the same order.
  lemma DatasetSameIff(s: Study, ws: seq<Window>, vs: seq<Window>, era: Option<Era>)
    ensures Dataset(s, ws, era) == Dataset(s, vs, era)
       <==> forall t :: CollectedAt(s, ws, era, t) == CollectedAt(s, vs, era, t)
  {
    hide Dataset, CollectedAt, Filter, SortedBy;
    forall t
      ensures Filter(Dataset(s, ws, era), AtKey(RowTs(), t)) == CollectedAt(s, ws, era, t)
      ensures Filter(Dataset(s, vs, era), AtKey(RowTs(), t)) == CollectedAt(s, vs, era, t)
    {
      DatasetAtTime(s, ws, era, t);
      DatasetAtTime(s, vs, era, t);
    }
    DatasetIsSorted(s, ws, era);
    DatasetIsSorted(s, vs, era);
    if forall t :: CollectedAt(s, ws, era, t) == CollectedAt(s, vs, era, t) {
      SortedByKeys(Dataset(s, ws, era), Dataset(s, vs, era), RowTs());
    }
  }

  lemma DatasetIsSorted(s: Study, ws: seq<Window>, era: Option<Era>)
    ensures SortedBy(Dataset(s, ws, era), RowTs())
  {
    hide Collected, StableSort, SortedBy;
    StableSortSorted(Collected(s, ws, era), RowTs());
  }

  // ---- ties -----------------------------------------------------------------------------------

  // Rows of the two selections at one time are the same row.
  ghost predicate AgreeAtTies(xs: seq<DatasetRow>, ys: seq<DatasetRow>) {
    forall i, j :: 0 <= i < |xs| && 0 <= j < |ys| && xs[i].ts == ys[j].ts ==> xs[i] == ys[j]
  }

  // No two windows keep different rows at one time.
  ghost predicate TieFree(s: Study, ws: seq<Window>, era: Option<Era>) {
    forall i, j :: 0 <= i < j < |ws| ==> AgreeAtTies(KeptRows(s, ws[i], era), KeptRows(s, ws[j], era))
  }

  ghost predicate AllValid(ws: seq<Window>) {
    forall i :: 0 <= i < |ws| ==> ValidWindow(ws[i])
  }

  // One window never keeps two rows at one time.
  lemma KeptRowsStrict(s: Study, w: Window, era: Option<Era>)
    requires ValidWindow(w)
    ensures StrictBy(KeptRows(s, w, era), RowTs())
  {
    hide Judge, WalkOf, ValidWindow, RowAt, Filter;
    AssembleKeepsOrder(s, w);
    var taken := WalkOf(s, w).taken;
    var rows := RowsAt(s, w, taken);
    forall i, j | 0 <= i < j < |rows| ensures RowTs()(rows[i]) < RowTs()(rows[j]) {
      TakenInOrder(s, w, i, j);
      RowStartsAtItsBar(s, w, taken[i]);
      RowStartsAtItsBar(s, w, taken[j]);
      LaterBar(w, w.points[taken[i]].idx, w.points[taken[j]].idx);
    }
    FilterStrict(rows, RowTs(), Keeps(era));
  }

  lemma LaterBar(w: Window, i: nat, j: nat)
    requires ValidWindow(w) && i < j < |w.bars|
    ensures w.bars[i].ts < w.bars[j].ts
  {
  }

  lemma StrictSelf(xs: seq<DatasetRow>)
    requires StrictBy(xs, RowTs())
    ensures AgreeAtTies(xs, xs)
  {
    forall i, j | 0 <= i < |xs| && 0 <= j < |xs| && xs[i].ts == xs[j].ts ensures xs[i] == xs[j] {
      StrictPlace(xs, RowTs(), i, j);
    }
  }

  lemma TiesAgree(s: Study, ws: seq<Window>, era: Option<Era>, i: nat, j: nat)
    requires TieFree(s, ws, era) && AllValid(ws) && i < |ws| && j < |ws|
    ensures AgreeAtTies(KeptRows(s, ws[i], era), KeptRows(s, ws[j], era))
  {
    hide KeptRows, ValidWindow;
    if i == j {
      KeptRowsStrict(s, ws[i], era);
      StrictSelf(KeptRows(s, ws[i], era));
    } else if i > j {
      assert AgreeAtTies(KeptRows(s, ws[j], era), KeptRows(s, ws[i], era));
    }
  }

  // Without ties the rows collected at one time are copies of one row.
  lemma TieFreeConstant(s: Study, ws: seq<Window>, era: Option<Era>, t: int, a: nat, b: nat)
    requires TieFree(s, ws, era) && AllValid(ws)
    requires var tied := CollectedAt(s, ws, era, t); a < |tied| && b < |tied|
    ensures var tied := CollectedAt(s, ws, era, t); tied[a] == tied[b]
  {
    hide Collected, KeptRows, Filter, FlatMap, TieFree, AllValid;
    var rows := Collected(s, ws, era);
    var tied := Filter(rows, AtKey(RowTs(), t));
    FilterMember(rows, AtKey(RowTs(), t), a);
    FilterMember(rows, AtKey(RowTs(), t), b);
    var p :| 0 <= p < |rows| && rows[p] == tied[a];
    var q :| 0 <= q < |rows| && rows[q] == tied[b];
    CollectedGathers(s, ws, era);
    var i, x := FlatMapMember(ws, KeptIn(s, era), p);
    var j, y := FlatMapMember(ws, KeptIn(s, era), q);
    TiesAgree(s, ws, era, i, j);
    assert KeptRows(s, ws[i], era)[x] == tied[a] && KeptRows(s, ws[j], era)[y] == tied[b];
  }

  lemma TieFreeSame(s: Study, ws: seq<Window>, vs: seq<Window>, era: Option<Era>)
    requires TieFree(s, ws, era) && AllValid(ws) && SameWindows(ws, vs)
    ensures Dataset(s, vs, era) == Dataset(s, ws, era)
  {
    hide Collected, Dataset, KeptRows, Filter, TieFree, AllValid, SameWindows;
    forall t ensures CollectedAt(s, ws, era, t) == CollectedAt(s, vs, era, t) {
      var tied := CollectedAt(s, ws, era, t);
      forall a, b | 0 <= a < |tied| && 0 <= b < |tied| ensures tied[a] == tied[b] {
        TieFreeConstant(s, ws, era, t, a, b);
      }
      CollectedPermutes(s, ws, vs, era);
      FilterPermute(Collected(s, ws, era), Collected(s, vs, era), AtKey(RowTs(), t));
      ConstantSame(tied, CollectedAt(s, vs, era, t));
    }
    DatasetSameIff(s, ws, vs, era);
  }

  // ---- a tie shows -------------------------------------------------------------------------

  // The two windows brought to the front, in the order given, before all the others.
  function Fronted(ws: seq<Window>, i: nat, j: nat, first: Window, second: Window): seq<Window>
    requires i < j < |ws|
  {
    [first, second] + (ws[..i] + ws[i + 1..j] + ws[j + 1..])
  }

  lemma FrontedPermutes(ws: seq<Window>, i: nat, j: nat)
    requires i < j < |ws|
    ensures SameWindows(ws, Fronted(ws, i, j, ws[i], ws[j])) && SameWindows(ws, Fronted(ws, i, j, ws[j], ws[i]))
  {
    assert ws == ws[..i] + [ws[i]] + ws[i + 1..j] + [ws[j]] + ws[j + 1..];
    PairFirst(ws[..i], ws[i], ws[i + 1..j], ws[j], ws[j + 1..]);
  }

  lemma PairFirst<T>(xs: seq<T>, a: T, ys: seq<T>, b: T, zs: seq<T>)
    ensures multiset(xs + [a] + ys + [b] + zs) == multiset([a, b] + (xs + ys + zs)) == multiset([b, a] + (xs + ys + zs))
  {
    assert multiset([a, b]) == multiset([b, a]);
  }

  // The first row collected at a time is the first window's, if it keeps one.
  lemma FirstCollected(s: Study, first: Window, second: Window, rest: seq<Window>, era: Option<Era>, x: nat)
    requires ValidWindow(first) && x < |KeptRows(s, first, era)|
    ensures var row := KeptRows(s, first, era)[x];
            var tied := CollectedAt(s, [first, second] + rest, era, row.ts);
            tied != [] && tied[0] == row
  {
    hide KeptRows, Filter, FlatMap, ValidWindow;
    var kept := KeptRows(s, first, era);
    var after := FlatMap([second] + rest, KeptIn(s, era));
    CollectedGathers(s, [first, second] + rest, era);
    assert [first, second] + rest == [first] + ([second] + rest);
    FlatMapConcat([first], [second] + rest, KeptIn(s, era));
    FlatMapOne(first, KeptIn(s, era));
    KeptRowsStrict(s, first, era);
    StrictAtKey(kept, RowTs(), x);
    FilterConcat(kept, after, AtKey(RowTs(), kept[x].ts));
  }

  lemma TieShows(s: Study, ws: seq<Window>, era: Option<Era>, i: nat, j: nat, x: nat, y: nat)
    requires AllValid(ws) && i < j < |ws|
    requires x < |KeptRows(s, ws[i], era)| && y < |KeptRows(s, ws[j], era)|
    requires var r, q := KeptRows(s, ws[i], era)[x], KeptRows(s, ws[j], era)[y]; r.ts == q.ts && r != q
    ensures Dataset(s, Fronted(ws, i, j, ws[i], ws[j]), era) != Dataset(s, Fronted(ws, i, j, ws[j], ws[i]), era)
  {
    hide KeptRows, Filter, Collected, Dataset, ValidWindow;
    var rest := ws[..i] + ws[i + 1..j] + ws[j + 1..];
    FirstCollected(s, ws[i], ws[j], rest, era, x);
    FirstCollected(s, ws[j], ws[i], rest, era, y);
    DatasetSameIff(s, Fronted(ws, i, j, ws[i], ws[j]), Fronted(ws, i, j, ws[j], ws[i]), era);
  }

  // The order the windows come in leaves a genome's dataset alone exactly when no two of them keep
  // different rows at one time.
  lemma OrderIrrelevantIff(s: Study, ws: seq<Window>, era: Option<Era>)
    requires AllValid(ws)
    ensures (forall vs :: SameWindows(ws, vs) ==> Dataset(s, vs, era) == Dataset(s, ws, era)) <==> TieFree(s, ws, era)
  {
    hide KeptRows, Dataset, AllValid, SameWindows, Fronted;
    if TieFree(s, ws, era) {
      forall vs | SameWindows(ws, vs) ensures Dataset(s, vs, era) == Dataset(s, ws, era) {
        TieFreeSame(s, ws, vs, era);
      }
    } else {
      var i, j :| 0 <= i < j < |ws| && !AgreeAtTies(KeptRows(s, ws[i], era), KeptRows(s, ws[j], era));
      var xs, ys := KeptRows(s, ws[i], era), KeptRows(s, ws[j], era);
      var x, y :| 0 <= x < |xs| && 0 <= y < |ys| && xs[x].ts == ys[y].ts && xs[x] != ys[y];
      TieShows(s, ws, era, i, j, x, y);
      FrontedPermutes(ws, i, j);
    }
  }

  // ---- the run ------------------------------------------------------------------------------

  // The same search over the same windows in another order.
  ghost predicate Reordered(a: Env, b: Env) {
    && a == b.(windows := a.windows, plan := a.plan) && a.plan == b.plan.(catalog := a.plan.catalog)
    && SameWindows(a.windows, b.windows) && AllValid(a.windows) && OwnCatalog(a) && OwnCatalog(b)
  }

  // Without ties between windows, whatever the genome, the whole run ignores their order.
  lemma RunIgnoresWindowOrder(a: Env, b: Env, rows: Rows, first: Id, generations: nat)
    requires Reordered(a, b) && generations <= TWO_TO_THE_32
    requires forall g :: TieFree(StudyOf(a, g), a.windows, a.era)
    ensures a.plan.catalog == b.plan.catalog
    ensures RunOf(a, rows, first, generations) == RunOf(b, rows, first, generations)
  {
    hide RunOf, CatalogOf, TieFree, SameWindows, AllValid, Dataset;
    CatalogIgnoresOrder(a.plan.catalog, a.windows, b.plan.catalog, b.windows, a.minObservations);
    forall g ensures DatasetFor(a, g) == DatasetFor(b, g) {
      TieFreeSame(StudyOf(a, g), a.windows, b.windows, a.era);
    }
    SameRun(a, b, rows, first, generations);
  }

  // Decision points of different windows at different times leave no tie to any genome.
  ghost predicate StampsApart(ws: seq<Window>) {
    forall i, j :: 0 <= i < j < |ws| ==> WindowsApart(ws[i], ws[j])
  }

  ghost predicate WindowsApart(w: Window, v: Window) {
    forall x, y :: 0 <= x < |w.points| && 0 <= y < |v.points| ==> PointsApart(w, w.points[x], v, v.points[y])
  }

  ghost predicate PointsApart(w: Window, p: BarPoint, v: Window, q: BarPoint) {
    p.idx < |w.bars| && q.idx < |v.bars| ==> w.bars[p.idx].ts != v.bars[q.idx].ts
  }

  lemma ApartIsTieFree(s: Study, ws: seq<Window>, era: Option<Era>)
    requires StampsApart(ws) && AllValid(ws)
    ensures TieFree(s, ws, era)
  {
    hide KeptRows, ValidWindow, WindowsApart;
    forall i, j | 0 <= i < j < |ws| ensures AgreeAtTies(KeptRows(s, ws[i], era), KeptRows(s, ws[j], era)) {
      ApartAgree(s, ws[i], ws[j], era);
    }
  }

  lemma ApartAgree(s: Study, w: Window, v: Window, era: Option<Era>)
    requires ValidWindow(w) && ValidWindow(v) && WindowsApart(w, v)
    ensures AgreeAtTies(KeptRows(s, w, era), KeptRows(s, v, era))
  {
    hide KeptRows, ValidWindow;
    var xs, ys := KeptRows(s, w, era), KeptRows(s, v, era);
    forall i, j | 0 <= i < |xs| && 0 <= j < |ys| ensures xs[i].ts != ys[j].ts {
      var x := KeptRowHasPoint(s, w, era, i);
      var y := KeptRowHasPoint(s, v, era, j);
      assert PointsApart(w, w.points[x], v, v.points[y]);
    }
  }

  lemma KeptRowHasPoint(s: Study, w: Window, era: Option<Era>, i: nat) returns (x: nat)
    requires ValidWindow(w) && i < |KeptRows(s, w, era)|
    ensures x < |w.points| && w.points[x].idx < |w.bars|
    ensures KeptRows(s, w, era)[i].ts == w.bars[w.points[x].idx].ts
  {
    hide Judge, RowAt, WalkOf, ValidWindow;
    AssembleKeepsOrder(s, w);
    var taken := WalkOf(s, w).taken;
    var rows := RowsAt(s, w, taken);
    FilterMember(rows, Keeps(era), i);
    var j :| 0 <= j < |rows| && rows[j] == KeptRows(s, w, era)[i];
    RowStartsAtItsBar(s, w, taken[j]);
    x := taken[j];
  }

  // ---- it does happen ---------------------------------------------------------------------

  lemma ProbeRow(x: real)
    requires x > 0.5
    ensures var kept := KeptRows(ProbeStudy(), Straddling(x), None);
            kept != [] && kept[0].ts == 1 && kept[0].features == map[PROBE := x]
  {
    hide Judge, WalkOf;
    var s, w := ProbeStudy(), Straddling(x);
    ProbeBrings(x);
    StraddlingValid(x);
    TakenSplits(s, w, 1);
    AssembleKeepsOrder(s, w);
    var rows := RowsAt(s, w, WalkOf(s, w).taken);
    assert WalkOf(s, w).taken[0] == 0;
    FilterAll(rows, Keeps(None));
    RowStartsAtItsBar(s, w, 0);
  }

  lemma StraddlingValid(x: real)
    ensures ValidWindow(Straddling(x))
  {
  }

  // Two windows with bars at the same times give a genome different datasets in different orders.
  lemma OrderCanMatter()
    ensures var ws := [Straddling(1.0), Straddling(2.0)];
            exists vs :: SameWindows(ws, vs) && Dataset(ProbeStudy(), vs, None) != Dataset(ProbeStudy(), ws, None)
  {
    hide KeptRows, Dataset, SameWindows, ProbeStudy, Straddling;
    var ws := [Straddling(1.0), Straddling(2.0)];
    ProbeRow(1.0);
    ProbeRow(2.0);
    StraddlingValid(1.0);
    StraddlingValid(2.0);
    assert map[PROBE := 1.0][PROBE] != map[PROBE := 2.0][PROBE];
    assert !AgreeAtTies(KeptRows(ProbeStudy(), ws[0], None), KeptRows(ProbeStudy(), ws[1], None));
    OrderIrrelevantIff(ProbeStudy(), ws, None);
  }
}
