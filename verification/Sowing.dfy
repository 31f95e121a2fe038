// What is sown: how archetypes bind to observed values, which random conditions a genome takes, and
// what a seeded population has to hold.
module Sowing {
  import opened Prelude
  import opened Market
  import opened Risk
  import opened Labeler
  import opened Genomes
  import opened Signature
  import opened Rng
  import opened Catalog
  import opened Drawing
  import opened GenomeOps
  import opened Seeding
  import opened Draws

  // ---- archetypes ----------------------------------------------------------------------------

  // The value at the rank nearest to the fraction q of the way through the values.
  ghost predicate AtRank(x: real, values: seq<real>, q: real) {
    exists i :: 0 <= i < |values| && values[i] == x && Nearest(q * (|values| as real - 1.0), i)
  }

  // The template's condition, at the observed value its fraction names.
  ghost predicate Binds(p: Predicate, t: Template, cat: seq<FeatureStat>) {
    && p.layer == t.layer && p.key == t.key && p.op == t.op
    && exists i :: 0 <= i < |cat| && cat[i].key == t.key && AtRank(p.threshold, cat[i].values, t.quantile)
  }

  ghost predicate Seen(t: Template, cat: seq<FeatureStat>) {
    exists i :: 0 <= i < |cat| && cat[i].key == t.key
  }

  // Every feature the templates ask for has been observed.
  ghost predicate Expressible(ts: seq<Template>, cat: seq<FeatureStat>) {
    forall i :: 0 <= i < |ts| ==> Seen(ts[i], cat)
  }

  ghost predicate Proper(ts: seq<Template>) {
    && (forall i, j :: 0 <= i < j < |ts| ==> ts[i].key != ts[j].key)
    && forall i :: 0 <= i < |ts| ==> 0.0 <= ts[i].quantile <= 1.0
  }

  ghost predicate BindsAll(ps: seq<Predicate>, ts: seq<Template>, cat: seq<FeatureStat>) {
    |ps| == |ts| && forall i :: 0 <= i < |ts| ==> Binds(ps[i], ts[i], cat)
  }

  ghost predicate UsesNone(acc: seq<Predicate>, ts: seq<Template>) {
    forall i :: 0 <= i < |ts| ==> !KeyUsed(acc, ts[i].key)
  }

  lemma TemplateBinds(cat: seq<FeatureStat>, t: Template)
    requires ValidCatalog(cat) && 0.0 <= t.quantile <= 1.0
    ensures StatFor(cat, t.key).Some? <==> Seen(t, cat)
    ensures var stat := StatFor(cat, t.key);
            stat.Some? ==>
              && stat.value.Quantile(t.quantile).Some?
              && Binds(Predicate(t.layer, t.key, t.op, stat.value.Quantile(t.quantile).value), t, cat)
  {
    hide AtRank, LayerOfKey;
    var stat := StatFor(cat, t.key);
    if stat.Some? {
      var i :| 0 <= i < |cat| && cat[i] == stat.value;
      assert ValidStat(cat[i]);
      QuantileAtRank(cat[i], t.quantile);
    }
  }

  lemma QuantileAtRank(stat: FeatureStat, q: real)
    requires stat.values != [] && 0.0 <= q <= 1.0
    ensures AtRank(stat.Quantile(q).value, stat.values, q)
  {
    NearestRankIs(q, |stat.values|);
    assert stat.values[NearestRank(q, |stat.values|)] == stat.Quantile(q).value;
  }

  lemma UsesNext(acc: seq<Predicate>, p: Predicate, ts: seq<Template>)
    requires Proper(ts) && ts != [] && UsesNone(acc, ts) && p.key == ts[0].key
    ensures UsesNone(acc + [p], ts[1..]) && Proper(ts[1..])
  {
    forall i | 0 <= i < |ts[1..]| ensures !KeyUsed(acc + [p], ts[1..][i].key) {
      AdmitKeys(acc, p);
      assert ts[1..][i] == ts[i + 1] && !KeyUsed(acc, ts[i + 1].key);
    }
  }

  // Templates over different features bind exactly when all of them were observed, and then each
  // binds its own, in order.
  lemma {:induction false} BoundIs(cat: seq<FeatureStat>, ts: seq<Template>, acc: seq<Predicate>)
    requires ValidCatalog(cat) && Proper(ts) && UsesNone(acc, ts)
    ensures Bound(cat, ts, acc).Some? <==> Expressible(ts, cat)
    ensures var b := Bound(cat, ts, acc);
            b.Some? ==> acc <= b.value && BindsAll(b.value[|acc|..], ts, cat)
  {
    hide ValidCatalog, Seen, Binds;
    if ts != [] {
      var t := ts[0];
      assert !KeyUsed(acc, t.key) && 0.0 <= t.quantile <= 1.0;
      TemplateBinds(cat, t);
      var stat := StatFor(cat, t.key);
      if stat.Some? {
        var p := Predicate(t.layer, t.key, t.op, stat.value.Quantile(t.quantile).value);
        UsesNext(acc, p, ts);
        BoundIs(cat, ts[1..], acc + [p]);
        ExpressibleNext(ts, cat);
        var b := Bound(cat, ts, acc);
        if b.Some? {
          BindsNext(b.value, |acc|, p, ts, cat);
        }
      } else {
        assert !Seen(ts[0], cat);
      }
    }
  }

  lemma ExpressibleNext(ts: seq<Template>, cat: seq<FeatureStat>)
    requires ts != [] && Seen(ts[0], cat)
    ensures Expressible(ts, cat) <==> Expressible(ts[1..], cat)
  {
    hide Seen;
    if Expressible(ts[1..], cat) {
      forall i | 0 <= i < |ts| ensures Seen(ts[i], cat) {
        assert i > 0 ==> ts[1..][i - 1] == ts[i];
      }
    }
    if Expressible(ts, cat) {
      forall i | 0 <= i < |ts[1..]| ensures Seen(ts[1..][i], cat) {
        assert ts[1..][i] == ts[i + 1];
      }
    }
  }

  lemma BindsNext(ps: seq<Predicate>, n: nat, p: Predicate, ts: seq<Template>, cat: seq<FeatureStat>)
    requires ts != [] && n < |ps| && ps[n] == p && Binds(p, ts[0], cat) && BindsAll(ps[n + 1..], ts[1..], cat)
    ensures BindsAll(ps[n..], ts, cat)
  {
    hide Binds;
    forall i | 0 <= i < |ts| ensures Binds(ps[n..][i], ts[i], cat) {
      assert i > 0 ==> ps[n + 1..][i - 1] == ps[n..][i] && ts[1..][i - 1] == ts[i];
    }
  }

  lemma ArchetypesProper(k: nat)
    requires k < |ARCHETYPES|
    ensures Proper(ARCHETYPES[k].templates)
    ensures exists i :: 0 <= i < |ARCHETYPES[k].templates| && ARCHETYPES[k].templates[i].layer == Location
  {
    var ts := ARCHETYPES[k].templates;
    var at := match k case 0 => 1 case 1 => 2 case 2 => 1 case 3 => 0 case 4 => 1 case 5 => 2 case _ => 1;
    assert ts[at].layer == Location;
  }

  // The genome an archetype plants: its side, and its templates bound in order.
  ghost predicate Planted(g: Genome, a: Archetype, cat: seq<FeatureStat>, horizon: Horizon) {
    && g == NewGenome(a.side, horizon, g.predicates) && BindsAll(g.predicates, a.templates, cat)
  }

  // An archetype is planted exactly when all its features were observed.
  lemma ArchetypePlants(cat: seq<FeatureStat>, horizon: Horizon, k: nat)
    requires ValidCatalog(cat) && k < |ARCHETYPES|
    ensures var a := ARCHETYPES[k];
            var b := Bound(cat, a.templates, []);
            && (b.Some? <==> Expressible(a.templates, cat))
            && (b.Some? ==> b.value != [] && HasActionable(b.value)
                            && Planted(NewGenome(a.side, horizon, b.value), a, cat, horizon))
  {
    hide ValidCatalog, Binds, Expressible;
    ArchetypesProper(k);
    var a := ARCHETYPES[k];
    BoundIs(cat, a.templates, []);
    var b := Bound(cat, a.templates, []);
    if b.Some? {
      assert b.value[0..] == b.value;
      var i :| 0 <= i < |a.templates| && a.templates[i].layer == Location;
      assert Binds(b.value[i], a.templates[i], cat);
      BindsLayer(b.value[i], a.templates[i], cat);
    }
  }

  lemma BindsLayer(p: Predicate, t: Template, cat: seq<FeatureStat>)
    requires Binds(p, t, cat)
    ensures p.layer == t.layer
  {
  }

  // The archetype seeds, from the k-th on, are the expressible ones planted in order.
  ghost predicate Plantation(gs: seq<Genome>, cat: seq<FeatureStat>, horizon: Horizon, k: nat)
    requires k <= |ARCHETYPES|
    decreases |ARCHETYPES| - k
  {
    if k == |ARCHETYPES| then gs == []
    else if Expressible(ARCHETYPES[k].templates, cat) then
      gs != [] && Planted(gs[0], ARCHETYPES[k], cat, horizon) && Plantation(gs[1..], cat, horizon, k + 1)
    else Plantation(gs, cat, horizon, k + 1)
  }

  lemma {:induction false} ArchetypesPlanted(cat: seq<FeatureStat>, horizon: Horizon, k: nat)
    requires ValidCatalog(cat) && k <= |ARCHETYPES|
    ensures Plantation(ArchetypeSeeds(cat, horizon, ARCHETYPES[k..]), cat, horizon, k)
    decreases |ARCHETYPES| - k
  {
    hide ValidCatalog, Expressible, Planted, Bound, HasActionable, NewGenome;
    if k < |ARCHETYPES| {
      ArchetypesPlanted(cat, horizon, k + 1);
      ArchetypePlants(cat, horizon, k);
      assert ARCHETYPES[k..][0] == ARCHETYPES[k] && ARCHETYPES[k..][1..] == ARCHETYPES[k + 1..];
      var rest, all := ArchetypeSeeds(cat, horizon, ARCHETYPES[k + 1..]), ArchetypeSeeds(cat, horizon, ARCHETYPES[k..]);
      if Expressible(ARCHETYPES[k].templates, cat) {
        assert all[1..] == rest;
      }
    }
  }

  // A key that opens with a layer's name and a dot is of that layer, and any other is a trigger.
  lemma LayerIsNamed(key: string, l: Layer)
    ensures LayerName(l) + "." <= key ==> LayerOfKey(key) == l
    ensures LayerOfKey(key) == l && l != Trigger ==> LayerName(l) + "." <= key
  {
    match l {
      case Tradeability => assert LayerName(l) + "." == "tradeability.";
      case Regime => assert LayerName(l) + "." == "regime.";
      case Location => assert LayerName(l) + "." == "location.";
      case Trigger => assert LayerName(l) + "." == "trigger.";
      case Event => assert LayerName(l) + "." == "event.";
    }
    if LayerName(l) + "." <= key {
      assert key[0] == (LayerName(l) + ".")[0] && key[1] == (LayerName(l) + ".")[1];
      assert key[2] == (LayerName(l) + ".")[2];
    }
  }

  // A new genome stands on its horizon's own geometry: with the profile's holding period it is
  // labeled as the profile itself is.
  lemma NewGenomeLabelsAsProfile(side: Side, horizon: Horizon, ps: seq<Predicate>, bars: seq<Bar>, entry: nat,
                                 atr: real)
    ensures var g, p := NewGenome(side, horizon, ps), ProfileFor(horizon);
            && p.horizon == horizon && g.side == side && g.horizon == horizon && g.predicates == ps
            && Label(bars, entry, g.side, atr, g.risk, p.maxHoldBars) == LabelOne(bars, entry, side, atr, p)
  {
    hide Label;
  }

  // ---- random conditions ---------------------------------------------------------------------------

  // The generator's state before the k-th condition is drawn.
  function PadState(cat: seq<FeatureStat>, k: nat, s: Word): Word {
    if k == 0 then s else PadState(cat, k - 1, DrawFrom(cat, s).next)
  }

  ghost predicate DrawnAt(ps: seq<Predicate>, cat: seq<FeatureStat>, s: Word, k: nat) {
    var d := DrawFrom(cat, PadState(cat, k, s)).value;
    d.Some? ==> KeyUsed(ps, d.value.key)
  }

  ghost predicate AllDrawn(ps: seq<Predicate>, cat: seq<FeatureStat>, s: Word, attempts: nat) {
    forall k :: 0 <= k < attempts ==> DrawnAt(ps, cat, s, k)
  }

  lemma AdmitUses(acc: seq<Predicate>, p: Predicate)
    ensures KeyUsed(Admit(acc, p), p.key) && acc <= Admit(acc, p)
  {
    if !KeyUsed(acc, p.key) {
      assert Admit(acc, p)[|acc|].key == p.key;
    }
  }

  lemma UsedStays(acc: seq<Predicate>, ps: seq<Predicate>, key: string)
    requires acc <= ps && KeyUsed(acc, key)
    ensures KeyUsed(ps, key)
  {
    var i :| 0 <= i < |acc| && acc[i].key == key;
    assert ps[i].key == key;
  }

  // Padding keeps what it starts from and stops at the target; short of it, every condition drawn
  // is over a feature already used.
  lemma {:induction false} PaddedCovers(cat: seq<FeatureStat>, target: nat, attempts: nat, acc: seq<Predicate>, s: Word)
    ensures var ps := Padded(cat, target, attempts, acc, s).value;
            && acc <= ps && |ps| <= MaxNat(target, |acc|)
            && (|ps| >= target || AllDrawn(ps, cat, s, attempts))
    decreases attempts
  {
    hide DrawFrom, KeyUsed, Admit;
    if attempts > 0 && |acc| < target {
      var d := DrawFrom(cat, s);
      var next := if d.value.Some? then Admit(acc, d.value.value) else acc;
      AdmitGrows(acc, d.value);
      PaddedCovers(cat, target, attempts - 1, next, d.next);
      var ps := Padded(cat, target, attempts, acc, s).value;
      if |ps| < target {
        forall k | 0 <= k < attempts ensures DrawnAt(ps, cat, s, k) {
          if k > 0 {
            assert DrawnAt(ps, cat, d.next, k - 1);
          } else if d.value.Some? {
            AdmitUses(acc, d.value.value);
            UsedStays(next, ps, d.value.value.key);
          }
        }
      }
    }
  }

  lemma AdmitGrows(acc: seq<Predicate>, p: Option<Predicate>)
    ensures var next := if p.Some? then Admit(acc, p.value) else acc; acc <= next && |next| <= |acc| + 1
  {
  }

  // A random genome takes between one and the most conditions allowed, as the first word says,
  // drawn in at most four times as many attempts; the word after them, in its lower half, makes
  // it long.
  lemma RandomGenomeIs(cat: seq<FeatureStat>, horizon: Horizon, maxPredicates: nat, s: Word)
    requires cat != []
    ensures var target := 1 + NextWord(s) % MaxNat(maxPredicates, 1);
            var ps := Padded(cat, target, 4 * target, [], Advance(s, 1));
            var d := RandomGenome(cat, horizon, maxPredicates, s);
            && (d.value.Some? <==> ps.value != [])
            && (d.value.Some? ==>
                  && d.value.value == NewGenome(if NextWord(ps.next) < HALF then Long else Short, horizon, ps.value)
                  && (|ps.value| == target || AllDrawn(ps.value, cat, Advance(s, 1), 4 * target)))
  {
    hide NextWord, DrawIndex, DrawChance, Padded, AllDrawn, NewGenome;
    var most := MaxNat(maxPredicates, 1);
    IndexReads(s, most);
    var target := 1 + NextWord(s) % most;
    assert target * 4 == 4 * target;
    PaddedCovers(cat, target, 4 * target, [], Advance(s, 1));
    EvenChanceIs(Padded(cat, target, 4 * target, [], Advance(s, 1)).next);
  }

  // The conditions a biased genome opens with: one of a trigger or a location, then, when the
  // catalog has context, a drawn condition of context over another feature.
  ghost predicate Opens(ps: seq<Predicate>, cat: seq<FeatureStat>, s: Word) {
    var first := DrawFrom(StatsIn(cat, {Trigger, Location}), s);
    var pool := StatsIn(cat, {Regime, Tradeability, Event});
    var second := DrawFrom(pool, first.next);
    && first.value.Some? && ps != [] && ps[0] == first.value.value
    && (pool == [] ==> |ps| == 1)
    && (pool != [] && second.value.Some? && second.value.value.key != ps[0].key ==> ps == [ps[0], second.value.value])
  }

  // A biased genome opens so and is padded with conditions of any kind, up to two more than the
  // word says, the most allowed, or two.
  lemma PromotableGenomeIs(cat: seq<FeatureStat>, horizon: Horizon, maxPredicates: nat, s: Word)
    requires PromotableGenome(cat, horizon, maxPredicates, s).value.Some?
    ensures exists start, t ::
              && Opens(start, cat, s)
              && var target := MinNat(2 + NextWord(t) % MaxNat(maxPredicates, 1), MaxNat(maxPredicates, 2));
                 var ps := Padded(cat, target, 4 * target, start, Advance(t, 1));
                 && PromotableGenome(cat, horizon, maxPredicates, s).value.value
                    == NewGenome(if NextWord(ps.next) < HALF then Long else Short, horizon, ps.value)
                 && start <= ps.value
                 && (|ps.value| >= target || AllDrawn(ps.value, cat, Advance(t, 1), 4 * target))
  {
    hide NextWord, DrawIndex, DrawChance, DrawFrom, Padded, AllDrawn, NewGenome, StatsIn, Opens;
    var first := DrawFrom(StatsIn(cat, ACTIONABLE_LAYERS), s);
    var both := WithContext(cat, [first.value.value], first.next);
    OpensWith(cat, s);
    var t := both.next;
    IndexReads(t, MaxNat(maxPredicates, 1));
    var target := MinNat(2 + NextWord(t) % MaxNat(maxPredicates, 1), MaxNat(maxPredicates, 2));
    assert target * 4 == 4 * target;
    PaddedCovers(cat, target, 4 * target, both.value, Advance(t, 1));
    EvenChanceIs(Padded(cat, target, 4 * target, both.value, Advance(t, 1)).next);
  }

  lemma OpensWith(cat: seq<FeatureStat>, s: Word)
    requires DrawFrom(StatsIn(cat, ACTIONABLE_LAYERS), s).value.Some?
    ensures var first := DrawFrom(StatsIn(cat, ACTIONABLE_LAYERS), s);
            Opens(WithContext(cat, [first.value.value], first.next).value, cat, s)
  {
    hide DrawFrom, StatsIn;
  }

  // ---- the population --------------------------------------------------------------------------------

  // When the catalog has a trigger or a location the bias decides by the word which draw is made.
  lemma SeedDrawIs(cat: seq<FeatureStat>, horizon: Horizon, maxPredicates: nat, bias: real, s: Word)
    ensures RandomSeed(cat, horizon, maxPredicates, bias, s)
         == if StatsIn(cat, {Trigger, Location}) == [] then RandomGenome(cat, horizon, maxPredicates, s)
            else if (NextWord(s) / 2048) as real < bias * UNITS then
              PromotableGenome(cat, horizon, maxPredicates, Advance(s, 1))
            else RandomGenome(cat, horizon, maxPredicates, Advance(s, 1))
  {
    hide NextWord, DrawChance, StatsIn, PromotableGenome, RandomGenome;
    ChanceIs(s, bias);
  }

  // The generator's state before the k-th random seed.
  function SowState(cat: seq<FeatureStat>, horizon: Horizon, maxPredicates: nat, bias: real, k: nat, s: Word): Word {
    if k == 0 then s
    else SowState(cat, horizon, maxPredicates, bias, k - 1, RandomSeed(cat, horizon, maxPredicates, bias, s).next)
  }

  ghost predicate SownAt(out: seq<Genome>, cat: seq<FeatureStat>, horizon: Horizon, maxPredicates: nat, bias: real,
                         s: Word, k: nat)
  {
    var d := RandomSeed(cat, horizon, maxPredicates, bias, SowState(cat, horizon, maxPredicates, bias, k, s)).value;
    d.Some? ==> Described(out, d.value)
  }

  ghost predicate AllSown(out: seq<Genome>, cat: seq<FeatureStat>, horizon: Horizon, maxPredicates: nat, bias: real,
                          s: Word, attempts: nat)
  {
    forall k :: 0 <= k < attempts ==> SownAt(out, cat, horizon, maxPredicates, bias, s, k)
  }

  ghost predicate AllDescribed(out: seq<Genome>, gs: seq<Genome>) {
    forall i :: 0 <= i < |gs| ==> Described(out, gs[i])
  }

  lemma OfferDescribed(out: seq<Genome>, g: Genome)
    ensures Described(Offer(out, g), g) && out <= Offer(out, g) && |Offer(out, g)| <= |out| + 1
  {
    hide Describe;
    if !Described(out, g) {
      assert Describe(Offer(out, g)[|out|]) == Describe(g);
    }
  }

  lemma DescribedStays(out: seq<Genome>, more: seq<Genome>, g: Genome)
    requires out <= more && Described(out, g)
    ensures Described(more, g)
  {
    hide Describe;
    var i :| 0 <= i < |out| && Describe(out[i]) == Describe(g);
    assert Describe(more[i]) == Describe(g);
  }

  lemma {:induction false} LeadingCovers(gs: seq<Genome>, size: nat, out: seq<Genome>)
    requires |out| <= size
    ensures var r := Leading(gs, size, out);
            out <= r && |r| <= size && (|r| >= size || AllDescribed(r, gs))
  {
    hide Described, Offer;
    if gs != [] && |out| < size {
      OfferDescribed(out, gs[0]);
      LeadingCovers(gs[1..], size, Offer(out, gs[0]));
      var r := Leading(gs, size, out);
      DescribedStays(Offer(out, gs[0]), r, gs[0]);
      if |r| < size {
        forall i | 0 <= i < |gs| ensures Described(r, gs[i]) {
          assert i > 0 ==> gs[1..][i - 1] == gs[i];
        }
      }
    }
  }

  lemma {:induction false} FilledCovers(cat: seq<FeatureStat>, horizon: Horizon, maxPredicates: nat, bias: real,
                                        size: nat, attempts: nat, out: seq<Genome>, s: Word)
    requires |out| <= size
    ensures var r := Filled(cat, horizon, maxPredicates, bias, size, attempts, out, s).value;
            && out <= r && |r| <= size
            && (|r| >= size || AllSown(r, cat, horizon, maxPredicates, bias, s, attempts))
    decreases attempts
  {
    hide Described, Offer, RandomSeed;
    if attempts > 0 && |out| < size {
      var d := RandomSeed(cat, horizon, maxPredicates, bias, s);
      var next := if d.value.Some? then Offer(out, d.value.value) else out;
      if d.value.Some? {
        OfferDescribed(out, d.value.value);
      }
      FilledCovers(cat, horizon, maxPredicates, bias, size, attempts - 1, next, d.next);
      var r := Filled(cat, horizon, maxPredicates, bias, size, attempts, out, s).value;
      if d.value.Some? {
        DescribedStays(next, r, d.value.value);
      }
      if |r| < size {
        forall k | 0 <= k < attempts ensures SownAt(r, cat, horizon, maxPredicates, bias, s, k) {
          assert k > 0 ==> SownAt(r, cat, horizon, maxPredicates, bias, d.next, k - 1);
        }
      }
    }
  }

  // A seeded population opens with the archetypes, each unless described before, and has the size
  // asked for, or else holds, as described, every archetype and every random seed of eight
  // attempts a place.
  lemma SeededCovers(cat: seq<FeatureStat>, horizon: Horizon, size: nat, maxPredicates: nat, bias: real, s: Word)
    ensures var out := Seeded(cat, horizon, size, maxPredicates, bias, s).value;
            var archetypes := ArchetypeSeeds(cat, horizon, ARCHETYPES);
            && Leading(archetypes, size, []) <= out && |out| <= size
            && (|out| == size || (AllDescribed(out, archetypes)
                                  && AllSown(out, cat, horizon, maxPredicates, Clamp(bias, 0.0, 1.0), s, 8 * size)))
  {
    hide ArchetypeSeeds, Leading, Filled, AllSown, Described;
    var archetypes := ArchetypeSeeds(cat, horizon, ARCHETYPES);
    var start := Leading(archetypes, size, []);
    LeadingCovers(archetypes, size, []);
    assert size * 8 == 8 * size;
    FilledCovers(cat, horizon, maxPredicates, Clamp(bias, 0.0, 1.0), size, size * 8, start, s);
    var out := Seeded(cat, horizon, size, maxPredicates, bias, s).value;
    if |out| < size {
      forall i | 0 <= i < |archetypes| ensures Described(out, archetypes[i]) {
        DescribedStays(start, out, archetypes[i]);
      }
    }
  }
}
