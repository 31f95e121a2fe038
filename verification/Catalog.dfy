// The feature catalog: what the search may condition on, read off the observed windows.
module Catalog {
  import opened Prelude
  import opened Arith
  import opened Sorting
  import opened Market
  import opened Genomes
  import opened Backtest
  import opened Strings

  const EPSILON := 1.0 / 4503599627370496.0

  // The index nearest to the fraction q of the way through n sorted values.
  function NearestRank(q: real, n: nat): (i: nat)
    requires 0.0 <= q <= 1.0 && n > 0
    ensures i < n
  {
    NonNegativeProduct(q, n as real - 1.0);
    MinNat(RoundHalfAway(q * (n as real - 1.0)), n - 1)
  }

  lemma NearestRankMonotone(q: real, q': real, n: nat)
    requires 0.0 <= q <= q' <= 1.0 && n > 0
    ensures NearestRank(q, n) <= NearestRank(q', n)
    ensures NearestRank(0.0, n) == 0 && NearestRank(1.0, n) == n - 1
  {
    var span := n as real - 1.0;
    var x, y := q * span, q' * span;
    NonNegativeProduct(q, span);
    NonNegativeProduct(q' - q, span);
    assert y - x == (q' - q) * span;
    assert RoundHalfAway(x) <= RoundHalfAway(y);
  }

  // i is the whole number nearest to x, the later one when two are as near.
  predicate Nearest(x: real, i: nat) {
    i as real - 0.5 <= x < i as real + 0.5
  }

  // The nearest rank is the place nearest to the fraction q of the way from the first to the last.
  lemma NearestRankIs(q: real, n: nat)
    requires 0.0 <= q <= 1.0 && n > 0
    ensures Nearest(q * (n as real - 1.0), NearestRank(q, n))
  {
    var span := n as real - 1.0;
    var x := q * span;
    NonNegativeProduct(q, span);
    ScaleMonotone(span, q, 1.0);
    RoundsToNearest(x, n);
  }

  lemma RoundsToNearest(x: real, n: nat)
    requires 0.0 <= x <= n as real - 1.0 && n > 0
    ensures 0 <= RoundHalfAway(x) && Nearest(x, MinNat(RoundHalfAway(x), n - 1))
  {
  }

  datatype FeatureStat = FeatureStat(key: string, layer: Layer, values: seq<real>) {
    // Nearest-rank empirical quantile.
    function Quantile(q: real): (t: Option<real>)
      ensures t.Some? <==> values != []
      ensures t.Some? ==> t.value in values
    {
      if values == [] then None
      else
        Some(values[NearestRank(Clamp(q, 0.0, 1.0), |values|)])
    }

    predicate Informative() {
      values != [] && Abs(values[|values| - 1] - values[0]) > EPSILON
    }
  }

  // A higher quantile of sorted values is never a smaller value.
  lemma QuantileMonotone(stat: FeatureStat, q: real, q': real)
    requires Ascending(stat.values) && stat.values != [] && q <= q'
    ensures stat.Quantile(q).value <= stat.Quantile(q').value
    ensures q <= 0.0 ==> stat.Quantile(q).value == stat.values[0]
    ensures q' >= 1.0 ==> stat.Quantile(q').value == stat.values[|stat.values| - 1]
  {
    var n := |stat.values|;
    var a, b := Clamp(q, 0.0, 1.0), Clamp(q', 0.0, 1.0);
    NearestRankMonotone(a, b, n);
    AscendingAt(stat.values, NearestRank(a, n), NearestRank(b, n));
  }

  lemma AscendingAt(xs: seq<real>, i: nat, j: nat)
    requires Ascending(xs) && i <= j < |xs|
    ensures xs[i] <= xs[j]
  {
  }

  // The layer named by the part of the key before its first dot; unknown prefixes are triggers.
  function LayerOfKey(key: string): Layer {
    if "tradeability." <= key then Tradeability
    else if "regime." <= key then Regime
    else if "location." <= key then Location
    else if "trigger." <= key then Trigger
    else if "event." <= key then Event
    else Trigger
  }

  ghost predicate ValidStat(s: FeatureStat) {
    s.layer == LayerOfKey(s.key) && s.values != [] && Ascending(s.values)
  }

  ghost predicate ValidCatalog(cat: seq<FeatureStat>) {
    && (forall i :: 0 <= i < |cat| ==> ValidStat(cat[i]))
    && forall i, j :: 0 <= i < j < |cat| ==> cat[i].key != cat[j].key
  }

  function StatFor(cat: seq<FeatureStat>, key: string): (s: Option<FeatureStat>)
    ensures s.Some? ==> s.value in cat && s.value.key == key
    ensures s.None? ==> forall i :: 0 <= i < |cat| ==> cat[i].key != key
  {
    if cat == [] then None
    else if cat[0].key == key then Some(cat[0])
    else StatFor(cat[1..], key)
  }

  // A condition on an observed feature, at a value it actually took.
  ghost predicate Observed(p: Predicate, cat: seq<FeatureStat>) {
    exists i :: 0 <= i < |cat| && cat[i].key == p.key && cat[i].layer == p.layer && p.threshold in cat[i].values
  }

  function InLayers(layers: set<Layer>): FeatureStat -> bool {
    (s: FeatureStat) => s.layer in layers
  }

  function StatsIn(cat: seq<FeatureStat>, layers: set<Layer>): seq<FeatureStat> {
    Filter(cat, InLayers(layers))
  }

  const ACTIONABLE_LAYERS: set<Layer> := {Trigger, Location}
  const CONTEXT_LAYERS: set<Layer> := {Regime, Tradeability, Event}

  // ---- building the catalog ------------------------------------------------------------

  function PointObservations(points: seq<BarPoint>, key: string): seq<real> {
    if points == [] then []
    else
      var last := points[|points| - 1].features;
      PointObservations(points[..|points| - 1], key) + if key in last then [last[key]] else []
  }

  // Every value a feature took, in window and point order.
  function Observations(ws: seq<Window>, key: string): seq<real> {
    if ws == [] then []
    else Observations(ws[..|ws| - 1], key) + PointObservations(ws[|ws| - 1].points, key)
  }

  type Buckets = map<string, seq<real>>

  function Bucket(b: Buckets, key: string): seq<real> {
    if key in b then b[key] else []
  }

  ghost predicate NoEmptyBucket(b: Buckets) {
    forall key :: key in b ==> b[key] != []
  }

  method AddPoint(b: Buckets, features: Features) returns (r: Buckets)
    requires NoEmptyBucket(b)
    ensures NoEmptyBucket(r)
    ensures forall key :: Bucket(r, key) == Bucket(b, key) + if key in features then [features[key]] else []
  {
    r := b;
    var rest := features.Keys;
    while rest != {}
      invariant rest <= features.Keys && NoEmptyBucket(r)
      invariant forall key :: key in features && key !in rest ==> Bucket(r, key) == Bucket(b, key) + [features[key]]
      invariant forall key :: key !in features || key in rest ==> Bucket(r, key) == Bucket(b, key)
      decreases rest
    {
      var key :| key in rest;
      r := r[key := Bucket(r, key) + [features[key]]];
      rest := rest - {key};
    }
  }

  lemma PointStep(points: seq<BarPoint>, i: nat, key: string, before: seq<real>)
    requires i < |points|
    ensures before + PointObservations(points[..i], key)
              + (if key in points[i].features then [points[i].features[key]] else [])
         == before + PointObservations(points[..i + 1], key)
  {
    assert points[..i + 1][..i] == points[..i];
  }

  method AddPoints(b: Buckets, points: seq<BarPoint>) returns (r: Buckets)
    requires NoEmptyBucket(b)
    ensures NoEmptyBucket(r)
    ensures forall key :: Bucket(r, key) == Bucket(b, key) + PointObservations(points, key)
  {
    r := b;
    for i := 0 to |points|
      invariant NoEmptyBucket(r)
      invariant forall key :: Bucket(r, key) == Bucket(b, key) + PointObservations(points[..i], key)
    {
      ghost var before := r;
      r := AddPoint(r, points[i].features);
      forall key ensures Bucket(r, key) == Bucket(b, key) + PointObservations(points[..i + 1], key) {
        PointStep(points, i, key, Bucket(b, key));
      }
    }
    assert points[..|points|] == points;
  }

  method Collect(ws: seq<Window>) returns (b: Buckets)
    ensures NoEmptyBucket(b)
    ensures forall key :: Bucket(b, key) == Observations(ws, key)
  {
    b := map[];
    for i := 0 to |ws|
      invariant NoEmptyBucket(b)
      invariant forall key :: Bucket(b, key) == Observations(ws[..i], key)
    {
      b := AddPoints(b, ws[i].points);
      assert ws[..i + 1][..i] == ws[..i];
    }
    assert ws[..|ws|] == ws;
  }

  function StatOf(key: string, values: seq<real>): FeatureStat {
    FeatureStat(key, LayerOfKey(key), SortAscending(values))
  }

  predicate Qualifies(key: string, values: seq<real>, minObservations: nat) {
    |values| >= minObservations && StatOf(key, values).Informative()
  }

  ghost predicate KeysAscend(cat: seq<FeatureStat>) {
    forall i :: 0 < i < |cat| ==> Leq(cat[i - 1].key, cat[i].key) && cat[i - 1].key != cat[i].key
  }

  // The catalog holds exactly the features observed often enough and varying, in key order,
  // each with all its observed values sorted.
  ghost predicate CatalogOf(cat: seq<FeatureStat>, ws: seq<Window>, minObservations: nat) {
    && KeysAscend(cat)
    && (forall i :: 0 <= i < |cat| ==>
          && cat[i] == StatOf(cat[i].key, Observations(ws, cat[i].key))
          && Qualifies(cat[i].key, Observations(ws, cat[i].key), minObservations))
    && forall key :: Qualifies(key, Observations(ws, key), minObservations) ==> HasKey(cat, key)
  }

  ghost predicate HasKey(cat: seq<FeatureStat>, key: string) {
    exists i :: 0 <= i < |cat| && cat[i].key == key
  }

  lemma {:induction false} LeastKey(keys: set<string>) returns (least: string)
    requires keys != {}
    ensures least in keys && forall k :: k in keys ==> Leq(least, k)
    decreases keys
  {
    var k :| k in keys;
    var rest := keys - {k};
    LeqTotal(k, k);
    if rest == {} {
      assert keys == {k};
      least := k;
    } else {
      var m := LeastKey(rest);
      LeqTotal(k, m);
      if Leq(k, m) {
        least := k;
        forall j | j in rest ensures Leq(k, j) {
          LeqTransitive(k, m, j);
        }
      } else {
        least := m;
      }
    }
  }

  // The catalog built so far, with the given keys still to come.
  ghost predicate Ahead(cat: seq<FeatureStat>, rest: set<string>) {
    KeysAscend(cat)
    && (cat != [] ==> forall k :: k in rest ==> Leq(cat[|cat| - 1].key, k) && cat[|cat| - 1].key != k)
  }

  ghost predicate Sound(cat: seq<FeatureStat>, b: Buckets, minObservations: nat) {
    forall i :: 0 <= i < |cat| ==>
      && cat[i] == StatOf(cat[i].key, Bucket(b, cat[i].key))
      && Qualifies(cat[i].key, Bucket(b, cat[i].key), minObservations)
  }

  ghost predicate Complete(cat: seq<FeatureStat>, b: Buckets, rest: set<string>, minObservations: nat) {
    forall k :: k in b && k !in rest && Qualifies(k, Bucket(b, k), minObservations) ==> HasKey(cat, k)
  }

  lemma AppendStat(cat: seq<FeatureStat>, b: Buckets, keys: set<string>, key: string, minObservations: nat)
    requires key in keys && forall k :: k in keys ==> Leq(key, k)
    requires Ahead(cat, keys) && Sound(cat, b, minObservations) && Complete(cat, b, keys, minObservations)
    requires Qualifies(key, Bucket(b, key), minObservations)
    ensures var next := cat + [StatOf(key, Bucket(b, key))];
            && Ahead(next, keys - {key}) && Sound(next, b, minObservations)
            && Complete(next, b, keys - {key}, minObservations)
  {
    hide StatOf, Qualifies, Leq;
    var stat := StatOf(key, Bucket(b, key));
    var next := cat + [stat];
    assert stat.key == key by {
      StatKey(key, Bucket(b, key));
    }
    assert next[|cat|].key == key;
    assert HasKey(next, key);
    forall k | HasKey(cat, k) ensures HasKey(next, k) {
      var i :| 0 <= i < |cat| && cat[i].key == k;
      assert next[i].key == k;
    }
  }

  lemma QualifiesWhen(key: string, values: seq<real>, minObservations: nat)
    ensures Qualifies(key, values, minObservations)
       <==> |values| >= minObservations && StatOf(key, values).Informative()
  {
  }

  lemma StatKey(key: string, values: seq<real>)
    ensures StatOf(key, values).key == key
  {
  }

  method FromWindows(ws: seq<Window>, minObservations: nat) returns (cat: seq<FeatureStat>)
    ensures CatalogOf(cat, ws, minObservations)
  {
    hide Leq, Qualifies, HasKey, Observations;
    var buckets := Collect(ws);
    cat := [];
    var keys := buckets.Keys;
    while keys != {}
      invariant keys <= buckets.Keys
      invariant Ahead(cat, keys) && Sound(cat, buckets, minObservations)
      invariant Complete(cat, buckets, keys, minObservations)
      decreases keys
    {
      ghost var least := LeastKey(keys);
      var key :| key in keys && forall k :: k in keys ==> Leq(key, k);
      var values := buckets[key];
      var stat := StatOf(key, values);
      QualifiesWhen(key, values, minObservations);
      if |values| >= minObservations && stat.Informative() {
        AppendStat(cat, buckets, keys, key, minObservations);
        cat := cat + [stat];
      }
      keys := keys - {key};
    }
    NothingLeft(cat, buckets, ws, minObservations);
  }

  lemma NothingLeft(cat: seq<FeatureStat>, b: Buckets, ws: seq<Window>, minObservations: nat)
    requires forall key :: Bucket(b, key) == Observations(ws, key)
    requires Ahead(cat, {}) && Sound(cat, b, minObservations) && Complete(cat, b, {}, minObservations)
    ensures CatalogOf(cat, ws, minObservations)
  {
    EmptyNeverQualifies(minObservations);
    hide StatOf, Qualifies, Leq, Observations;
  }

  lemma EmptyNeverQualifies(minObservations: nat)
    ensures forall key :: !Qualifies(key, [], minObservations)
  {
  }

  lemma {:induction false} KeysAscendApart(cat: seq<FeatureStat>, i: nat, j: nat)
    requires KeysAscend(cat) && i < j < |cat|
    ensures Leq(cat[i].key, cat[j].key) && cat[i].key != cat[j].key
  {
    if i + 1 < j {
      KeysAscendApart(cat, i, j - 1);
      LeqTransitive(cat[i].key, cat[j - 1].key, cat[j].key);
      if cat[i].key == cat[j].key {
        LeqAntisymmetric(cat[j - 1].key, cat[j].key);
      }
    }
  }

  // What the operators rely on: distinct keys, layers read off the key, sorted observed values.
  lemma CatalogIsValid(cat: seq<FeatureStat>, ws: seq<Window>, minObservations: nat)
    requires CatalogOf(cat, ws, minObservations)
    ensures ValidCatalog(cat)
    ensures forall i :: 0 <= i < |cat| ==>
              multiset(cat[i].values) == multiset(Observations(ws, cat[i].key)) && cat[i].values != []
  {
    forall i | 0 <= i < |cat| ensures ValidStat(cat[i]) {
      SortAscendingIsAscending(Observations(ws, cat[i].key));
    }
    forall i, j | 0 <= i < j < |cat| ensures cat[i].key != cat[j].key {
      KeysAscendApart(cat, i, j);
    }
  }

  // ---- what decides the catalog --------------------------------------------------------

  lemma {:induction false} LastKeyIsGreatest(cat: seq<FeatureStat>, key: string)
    requires KeysAscend(cat) && HasKey(cat, key)
    ensures cat != [] && Leq(key, cat[|cat| - 1].key)
  {
    var i :| 0 <= i < |cat| && cat[i].key == key;
    LeqTotal(key, key);
    if i < |cat| - 1 {
      KeysAscendApart(cat, i, |cat| - 1);
    }
  }

  lemma DropLastKey(cat: seq<FeatureStat>, key: string)
    requires KeysAscend(cat) && cat != []
    ensures HasKey(cat[..|cat| - 1], key) <==> HasKey(cat, key) && key != cat[|cat| - 1].key
  {
    var n := |cat| - 1;
    if HasKey(cat[..n], key) {
      var i :| 0 <= i < n && cat[..n][i].key == key;
      assert cat[i].key == key;
      KeysAscendApart(cat, i, n);
    }
    if HasKey(cat, key) && key != cat[n].key {
      var i :| 0 <= i < |cat| && cat[i].key == key;
      assert cat[..n][i].key == key;
    }
  }

  // Ascending catalogs over the same keys list them identically.
  lemma {:induction false} SameKeysSameOrder(a: seq<FeatureStat>, b: seq<FeatureStat>)
    requires KeysAscend(a) && KeysAscend(b) && forall key :: HasKey(a, key) <==> HasKey(b, key)
    ensures |a| == |b| && forall i :: 0 <= i < |a| ==> a[i].key == b[i].key
  {
    hide Leq;
    if a == [] || b == [] {
      assert a != [] ==> HasKey(a, a[0].key);
      assert b != [] ==> HasKey(b, b[0].key);
    } else {
      var n, m := |a| - 1, |b| - 1;
      SameLastKey(a, b);
      forall key ensures HasKey(a[..n], key) <==> HasKey(b[..m], key) {
        DropLastKey(a, key);
        DropLastKey(b, key);
      }
      SameKeysSameOrder(a[..n], b[..m]);
      assert forall i :: 0 <= i < n ==> a[..n][i].key == b[..m][i].key;
    }
  }

  lemma SameLastKey(a: seq<FeatureStat>, b: seq<FeatureStat>)
    requires KeysAscend(a) && KeysAscend(b) && a != [] && b != []
    requires forall key :: HasKey(a, key) <==> HasKey(b, key)
    ensures a[|a| - 1].key == b[|b| - 1].key
  {
    hide Leq;
    var x, y := a[|a| - 1].key, b[|b| - 1].key;
    assert HasKey(a, x) && HasKey(b, y);
    LastKeyIsGreatest(b, x);
    LastKeyIsGreatest(a, y);
    LeqAntisymmetric(x, y);
  }

  // What a universe of windows shows of one feature, as far as the catalog is concerned: whether
  // it qualifies and, if it does, its observations in any order.
  ghost predicate SeenAlike(ws: seq<Window>, vs: seq<Window>, minObservations: nat, key: string) {
    var xs, ys := Observations(ws, key), Observations(vs, key);
    && (Qualifies(key, xs, minObservations) <==> Qualifies(key, ys, minObservations))
    && (Qualifies(key, xs, minObservations) ==> multiset(xs) == multiset(ys))
  }

  lemma HasKeyIff(cat: seq<FeatureStat>, ws: seq<Window>, minObservations: nat, key: string)
    requires CatalogOf(cat, ws, minObservations)
    ensures HasKey(cat, key) <==> Qualifies(key, Observations(ws, key), minObservations)
  {
    hide Qualifies, Observations, StatOf, KeysAscend;
  }

  lemma StatOfAlike(key: string, xs: seq<real>, ys: seq<real>)
    ensures StatOf(key, xs) == StatOf(key, ys) <==> multiset(xs) == multiset(ys)
  {
    SortAscendingIsAscending(xs);
    SortAscendingIsAscending(ys);
    if multiset(xs) == multiset(ys) {
      AscendingUnique(SortAscending(xs), SortAscending(ys));
    }
  }

  // Two universes give the same catalog exactly when every feature is seen alike in both.
  lemma SameCatalogIff(a: seq<FeatureStat>, ws: seq<Window>, b: seq<FeatureStat>, vs: seq<Window>, minObservations: nat)
    requires CatalogOf(a, ws, minObservations) && CatalogOf(b, vs, minObservations)
    ensures a == b <==> forall key :: SeenAlike(ws, vs, minObservations, key)
  {
    hide CatalogOf, SeenAlike;
    if a == b {
      forall key ensures SeenAlike(ws, vs, minObservations, key) {
        SharedCatalogSeenAlike(a, ws, vs, minObservations, key);
      }
    }
    if forall key :: SeenAlike(ws, vs, minObservations, key) {
      SeenAlikeSharesCatalog(a, ws, b, vs, minObservations);
    }
  }

  lemma SharedCatalogSeenAlike(cat: seq<FeatureStat>, ws: seq<Window>, vs: seq<Window>, minObservations: nat,
                               key: string)
    requires CatalogOf(cat, ws, minObservations) && CatalogOf(cat, vs, minObservations)
    ensures SeenAlike(ws, vs, minObservations, key)
  {
    hide Qualifies, Observations, StatOf, KeysAscend;
    HasKeyIff(cat, ws, minObservations, key);
    HasKeyIff(cat, vs, minObservations, key);
    if HasKey(cat, key) {
      var i :| 0 <= i < |cat| && cat[i].key == key;
      StatOfAlike(key, Observations(ws, key), Observations(vs, key));
    }
  }

  lemma SeenAlikeSharesCatalog(a: seq<FeatureStat>, ws: seq<Window>, b: seq<FeatureStat>, vs: seq<Window>,
                               minObservations: nat)
    requires CatalogOf(a, ws, minObservations) && CatalogOf(b, vs, minObservations)
    requires forall key :: SeenAlike(ws, vs, minObservations, key)
    ensures a == b
  {
    hide Qualifies, Observations, StatOf;
    forall key ensures HasKey(a, key) <==> HasKey(b, key) {
      HasKeyIff(a, ws, minObservations, key);
      HasKeyIff(b, vs, minObservations, key);
      assert SeenAlike(ws, vs, minObservations, key);
    }
    SameKeysSameOrder(a, b);
    hide KeysAscend, HasKey;
    forall i | 0 <= i < |a| ensures a[i] == b[i] {
      var key := a[i].key;
      assert SeenAlike(ws, vs, minObservations, key);
      StatOfAlike(key, Observations(ws, key), Observations(vs, key));
    }
  }

  lemma SpreadIs(values: seq<real>, i: nat, j: nat)
    requires i < |values| && j < |values|
    ensures var s := SortAscending(values);
            values[j] - values[i] <= Abs(s[|s| - 1] - s[0])
  {
    hide SortAscending, Ascending, Abs;
    var s := SortAscending(values);
    SortAscendingIsAscending(values);
    var a := PlaceIn(values, s, i);
    var b := PlaceIn(values, s, j);
    AscendingAt(s, 0, a);
    AscendingAt(s, b, |s| - 1);
    NotBelowAbs(values[j] - values[i], s[|s| - 1] - s[0]);
  }

  lemma PlaceIn(xs: seq<real>, ys: seq<real>, i: nat) returns (k: nat)
    requires multiset(xs) == multiset(ys) && i < |xs|
    ensures k < |ys| && ys[k] == xs[i]
  {
    assert xs[i] in multiset(ys);
    k :| 0 <= k < |ys| && ys[k] == xs[i];
  }

  lemma NotBelowAbs(x: real, y: real)
    requires x <= y
    ensures x <= Abs(y)
  {
  }

  ghost predicate FarApart(values: seq<real>, i: nat, j: nat)
    requires i < |values| && j < |values|
  {
    4503599627370496.0 * (values[j] - values[i]) > 1.0
  }

  lemma SpreadIsTaken(values: seq<real>)
    requires values != []
    ensures var s := SortAscending(values);
            exists i, j :: 0 <= i < |values| && 0 <= j < |values|
                           && values[j] - values[i] == Abs(s[|s| - 1] - s[0])
  {
    hide SortAscending, Ascending;
    var s := SortAscending(values);
    SortAscendingIsAscending(values);
    AscendingAt(s, 0, |s| - 1);
    assert s[0] in multiset(values) && s[|s| - 1] in multiset(values);
    var i :| 0 <= i < |values| && values[i] == s[0];
    var j :| 0 <= j < |values| && values[j] == s[|s| - 1];
    assert values[j] - values[i] == Abs(s[|s| - 1] - s[0]);
  }

  // A feature qualifies exactly when it was observed often enough and two of its values lie more
  // than 2^-52 apart.
  lemma QualifiesIff(key: string, values: seq<real>, minObservations: nat)
    ensures Qualifies(key, values, minObservations)
       <==> && |values| >= minObservations
            && exists i: nat, j: nat :: i < |values| && j < |values| && FarApart(values, i, j)
  {
    hide SortAscending;
    if values != [] {
      SpreadIsTaken(values);
      var s := SortAscending(values);
      var i, j :| 0 <= i < |values| && 0 <= j < |values| && values[j] - values[i] == Abs(s[|s| - 1] - s[0]);
      assert StatOf(key, values).Informative() ==> FarApart(values, i, j);
      if a: nat, b: nat :| a < |values| && b < |values| && FarApart(values, a, b) {
        SpreadIs(values, a, b);
      }
    }
  }
}
