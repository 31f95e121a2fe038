// Drawing conditions over observed features, and the genome validity every operator keeps.
module Drawing {
  import opened Prelude
  import opened Sorting
  import opened Market
  import opened Genomes
  import opened Rng
  import opened Catalog

  const MAX_PREDICATES := 4

  predicate KeyUsed(ps: seq<Predicate>, key: string) {
    exists i :: 0 <= i < |ps| && ps[i].key == key
  }

  ghost predicate DistinctKeys(ps: seq<Predicate>) {
    forall i, j :: 0 <= i < j < |ps| ==> ps[i].key != ps[j].key
  }

  ghost predicate AllObserved(ps: seq<Predicate>, cat: seq<FeatureStat>) {
    forall i :: 0 <= i < |ps| ==> Observed(ps[i], cat)
  }

  // Distinct conditions over observed features at observed values.
  ghost predicate ValidPredicates(ps: seq<Predicate>, cat: seq<FeatureStat>) {
    DistinctKeys(ps) && AllObserved(ps, cat)
  }

  // What every genome of the search satisfies, with the most conditions it may hold.
  ghost predicate ValidGenome(g: Genome, cat: seq<FeatureStat>, cap: nat) {
    1 <= |g.predicates| <= cap && ValidPredicates(g.predicates, cat)
  }

  // The operators stop growing a genome at four conditions; seeds may be configured larger.
  function SizeCap(maxPredicates: nat): nat {
    MaxNat(maxPredicates, MAX_PREDICATES)
  }

  // One condition from a pool: a feature, a threshold at an inner quantile, a direction.
  function DrawFrom(pool: seq<FeatureStat>, s: Word): Draw<Option<Predicate>> {
    if pool == [] then Draw(None, s)
    else
      var i := DrawIndex(s, |pool|);
      var u := DrawUnit(i.next);
      var stat := pool[i.value];
      match stat.Quantile(0.2 + 0.6 * u.value)
      case None => Draw(None, u.next)
      case Some(threshold) =>
        var c := DrawChance(u.next, 0.5);
        Draw(Some(Predicate(stat.layer, stat.key, if c.value then Gt else Lt, threshold)), c.next)
  }

  method DrawPredicate(pool: seq<FeatureStat>, rng: Generator) returns (p: Option<Predicate>)
    modifies rng
    ensures Draw(p, rng.state) == DrawFrom(pool, old(rng.state))
  {
    hide DrawIndex, DrawUnit, DrawChance;
    if pool == [] {
      return None;
    }
    var i := rng.Below(|pool|);
    var stat := pool[i];
    var u := rng.Uniform();
    var threshold := stat.Quantile(0.2 + 0.6 * u);
    if threshold.None? {
      return None;
    }
    var c := rng.Chance(0.5);
    p := Some(Predicate(stat.layer, stat.key, if c then Gt else Lt, threshold.value));
  }

  // A drawn condition is observed, and on a nonempty valid pool a draw succeeds.
  lemma DrawIsObserved(pool: seq<FeatureStat>, s: Word)
    ensures DrawFrom(pool, s).value.Some? ==> Observed(DrawFrom(pool, s).value.value, pool)
    ensures pool != [] && (forall i :: 0 <= i < |pool| ==> ValidStat(pool[i])) ==> DrawFrom(pool, s).value.Some?
  {
    hide DrawIndex, DrawUnit, DrawChance;
    if pool != [] {
      assert ValidStat(pool[DrawIndex(s, |pool|).value]) ==> pool[DrawIndex(s, |pool|).value].values != [];
    }
  }

  // Restricting the pool to some layers draws conditions of those layers, still from the catalog.
  lemma LayeredDraw(cat: seq<FeatureStat>, layers: set<Layer>, s: Word)
    ensures var d := DrawFrom(StatsIn(cat, layers), s).value;
            d.Some? ==> Observed(d.value, cat) && d.value.layer in layers
  {
    hide DrawFrom, Filter;
    var pool := StatsIn(cat, layers);
    DrawIsObserved(pool, s);
    var d := DrawFrom(pool, s).value;
    if d.Some? {
      var i :| 0 <= i < |pool| && pool[i].key == d.value.key && pool[i].layer == d.value.layer
               && d.value.threshold in pool[i].values;
      FilterMember(cat, InLayers(layers), i);
      var j :| 0 <= j < |cat| && cat[j] == pool[i];
    }
  }
}
