// Seeding a population: archetypes bound to observed quantiles, then random genomes.
module Seeding {
  import opened Prelude
  import opened Sorting
  import opened Market
  import opened Genomes
  import opened Score
  import opened Signature
  import opened Rng
  import opened Catalog
  import opened Drawing
  import opened GenomeOps

  // ---- random genomes ------------------------------------------------------------------

  // Draw until there are `target` conditions over distinct features or the attempts run out.
  function Padded(cat: seq<FeatureStat>, target: nat, attempts: nat, acc: seq<Predicate>, s: Word)
    : Draw<seq<Predicate>>
    decreases attempts
  {
    if attempts == 0 || |acc| >= target then Draw(acc, s)
    else
      var d := DrawFrom(cat, s);
      Padded(cat, target, attempts - 1, if d.value.Some? then Admit(acc, d.value.value) else acc, d.next)
  }

  method Pad(cat: seq<FeatureStat>, target: nat, attempts: nat, start: seq<Predicate>, rng: Generator)
    returns (acc: seq<Predicate>)
    modifies rng
    ensures Draw(acc, rng.state) == Padded(cat, target, attempts, start, old(rng.state))
  {
    hide DrawFrom;
    acc := start;
    for k := 0 to attempts
      invariant Padded(cat, target, attempts, start, old(rng.state))
             == Padded(cat, target, attempts - k, acc, rng.state)
    {
      if |acc| >= target {
        return;
      }
      var p := DrawPredicate(cat, rng);
      if p.Some? {
        acc := Admit(acc, p.value);
      }
    }
  }

  function SideOf(long: bool): Side {
    if long then Long else Short
  }

  function RandomGenome(cat: seq<FeatureStat>, horizon: Horizon, maxPredicates: nat, s: Word): Draw<Option<Genome>> {
    if cat == [] then Draw(None, s)
    else
      var n := DrawIndex(s, MaxNat(maxPredicates, 1));
      var count := 1 + n.value;
      var ps := Padded(cat, count, count * 4, [], n.next);
      if ps.value == [] then Draw(None, ps.next)
      else
        var c := DrawChance(ps.next, 0.5);
        Draw(Some(NewGenome(SideOf(c.value), horizon, ps.value)), c.next)
  }

  method DrawRandomGenome(cat: seq<FeatureStat>, horizon: Horizon, maxPredicates: nat, rng: Generator)
    returns (g: Option<Genome>)
    modifies rng
    ensures Draw(g, rng.state) == RandomGenome(cat, horizon, maxPredicates, old(rng.state))
  {
    hide DrawIndex, DrawChance, Padded, NewGenome;
    if cat == [] {
      return None;
    }
    var n := rng.Below(MaxNat(maxPredicates, 1));
    var count := 1 + n;
    var ps := Pad(cat, count, count * 4, [], rng);
    if ps == [] {
      return None;
    }
    var c := rng.Chance(0.5);
    g := Some(NewGenome(SideOf(c), horizon, ps));
  }

  function PromotableTarget(drawn: nat, maxPredicates: nat): nat {
    MinNat(2 + drawn, MaxNat(maxPredicates, 2))
  }

  // A context condition is added when the catalog has any.
  function WithContext(cat: seq<FeatureStat>, acc: seq<Predicate>, s: Word): Draw<seq<Predicate>> {
    if StatsIn(cat, CONTEXT_LAYERS) == [] then Draw(acc, s)
    else
      var d := DrawFrom(StatsIn(cat, CONTEXT_LAYERS), s);
      Draw(if d.value.Some? then Admit(acc, d.value.value) else acc, d.next)
  }

  // At least one trigger or location condition, then context, then anything.
  function PromotableGenome(cat: seq<FeatureStat>, horizon: Horizon, maxPredicates: nat, s: Word)
    : Draw<Option<Genome>>
  {
    var first := DrawFrom(StatsIn(cat, ACTIONABLE_LAYERS), s);
    if first.value.None? then Draw(None, first.next)
    else
      var both := WithContext(cat, [first.value.value], first.next);
      var n := DrawIndex(both.next, MaxNat(maxPredicates, 1));
      var target := PromotableTarget(n.value, maxPredicates);
      var ps := Padded(cat, target, target * 4, both.value, n.next);
      var c := DrawChance(ps.next, 0.5);
      Draw(Some(NewGenome(SideOf(c.value), horizon, ps.value)), c.next)
  }

  method DrawPromotableGenome(cat: seq<FeatureStat>, horizon: Horizon, maxPredicates: nat, rng: Generator)
    returns (g: Option<Genome>)
    modifies rng
    ensures Draw(g, rng.state) == PromotableGenome(cat, horizon, maxPredicates, old(rng.state))
  {
    hide DrawIndex, DrawChance, DrawFrom, Padded, NewGenome, StatsIn;
    var first := DrawPredicate(StatsIn(cat, ACTIONABLE_LAYERS), rng);
    if first.None? {
      return None;
    }
    var acc := [first.value];
    if StatsIn(cat, CONTEXT_LAYERS) != [] {
      var context := DrawPredicate(StatsIn(cat, CONTEXT_LAYERS), rng);
      if context.Some? {
        acc := Admit(acc, context.value);
      }
    }
    var n := rng.Below(MaxNat(maxPredicates, 1));
    var target := PromotableTarget(n, maxPredicates);
    var ps := Pad(cat, target, target * 4, acc, rng);
    var c := rng.Chance(0.5);
    g := Some(NewGenome(SideOf(c), horizon, ps));
  }

  // ---- archetypes -------------------------------------------------------------------------

  datatype Template = Template(layer: Layer, key: string, op: CmpOp, quantile: real)

  datatype Archetype = Archetype(name: string, side: Side, templates: seq<Template>)

  const ARCHETYPES: seq<Archetype> := [
    Archetype("trend_follow_long", Long, [
      Template(Regime, "regime.adx", Gt, 0.65),
      Template(Location, "location.dist_50dma", Gt, 0.60),
      Template(Trigger, "trigger.momentum_roc", Gt, 0.60)]),
    Archetype("rs_breakout_long", Long, [
      Template(Regime, "regime.adx", Gt, 0.55),
      Template(Trigger, "trigger.rs_vs_spy", Gt, 0.70),
      Template(Location, "location.pct_range_position", Gt, 0.70)]),
    Archetype("mean_revert_long", Long, [
      Template(Trigger, "trigger.rsi14", Lt, 0.25),
      Template(Location, "location.dist_200dma", Gt, 0.45),
      Template(Regime, "regime.adx", Lt, 0.50)]),
    Archetype("vwap_reclaim_long", Long, [
      Template(Location, "location.anchored_vwap_dist", Lt, 0.30),
      Template(Trigger, "trigger.rsi14", Lt, 0.35),
      Template(Regime, "regime.rv_percentile", Lt, 0.60)]),
    Archetype("trend_follow_short", Short, [
      Template(Regime, "regime.adx", Gt, 0.65),
      Template(Location, "location.dist_50dma", Lt, 0.40),
      Template(Trigger, "trigger.momentum_roc", Lt, 0.40)]),
    Archetype("rs_breakdown_short", Short, [
      Template(Regime, "regime.adx", Gt, 0.55),
      Template(Trigger, "trigger.rs_vs_spy", Lt, 0.30),
      Template(Location, "location.pct_range_position", Lt, 0.30)]),
    Archetype("mean_revert_short", Short, [
      Template(Trigger, "trigger.rsi14", Gt, 0.75),
      Template(Location, "location.dist_200dma", Gt, 0.70),
      Template(Regime, "regime.adx", Lt, 0.50)])]

  // Bind each template at the observed quantile of its feature; a repeated feature is dropped,
  // an unobserved one makes the archetype inexpressible.
  function Bound(cat: seq<FeatureStat>, templates: seq<Template>, acc: seq<Predicate>): Option<seq<Predicate>> {
    if templates == [] then Some(acc)
    else
      var t := templates[0];
      if KeyUsed(acc, t.key) then Bound(cat, templates[1..], acc)
      else
        match StatFor(cat, t.key)
        case None => None
        case Some(stat) =>
          match stat.Quantile(t.quantile)
          case None => None
          case Some(threshold) =>
            Bound(cat, templates[1..], acc + [Predicate(t.layer, t.key, t.op, threshold)])
  }

  predicate HasActionable(ps: seq<Predicate>) {
    exists i :: 0 <= i < |ps| && (ps[i].layer == Trigger || ps[i].layer == Location)
  }

  function ArchetypeSeeds(cat: seq<FeatureStat>, horizon: Horizon, archetypes: seq<Archetype>): seq<Genome> {
    if archetypes == [] then []
    else
      var rest := ArchetypeSeeds(cat, horizon, archetypes[1..]);
      match Bound(cat, archetypes[0].templates, [])
      case None => rest
      case Some(ps) =>
        if ps != [] && HasActionable(ps) then [NewGenome(archetypes[0].side, horizon, ps)] + rest else rest
  }

  // ---- the population ----------------------------------------------------------------------

  const DEFAULT_PROMOTABLE_BIAS := 0.6

  predicate Described(out: seq<Genome>, g: Genome) {
    exists i :: 0 <= i < |out| && Describe(out[i]) == Describe(g)
  }

  function Offer(out: seq<Genome>, g: Genome): seq<Genome> {
    if Described(out, g) then out else out + [g]
  }

  function Leading(archetypes: seq<Genome>, size: nat, out: seq<Genome>): seq<Genome> {
    if archetypes == [] || |out| >= size then out
    else Leading(archetypes[1..], size, Offer(out, archetypes[0]))
  }

  function RandomSeed(cat: seq<FeatureStat>, horizon: Horizon, maxPredicates: nat, bias: real, s: Word)
    : Draw<Option<Genome>>
  {
    if StatsIn(cat, ACTIONABLE_LAYERS) != [] then
      var c := DrawChance(s, bias);
      if c.value then PromotableGenome(cat, horizon, maxPredicates, c.next)
      else RandomGenome(cat, horizon, maxPredicates, c.next)
    else RandomGenome(cat, horizon, maxPredicates, s)
  }

  function Filled(cat: seq<FeatureStat>, horizon: Horizon, maxPredicates: nat, bias: real,
                  size: nat, attempts: nat, out: seq<Genome>, s: Word): Draw<seq<Genome>>
    decreases attempts
  {
    if attempts == 0 || |out| >= size then Draw(out, s)
    else
      var d := RandomSeed(cat, horizon, maxPredicates, bias, s);
      Filled(cat, horizon, maxPredicates, bias, size, attempts - 1,
             if d.value.Some? then Offer(out, d.value.value) else out, d.next)
  }

  function Seeded(cat: seq<FeatureStat>, horizon: Horizon, size: nat, maxPredicates: nat, bias: real, s: Word)
    : Draw<seq<Genome>>
  {
    Filled(cat, horizon, maxPredicates, Clamp(bias, 0.0, 1.0), size, size * 8,
           Leading(ArchetypeSeeds(cat, horizon, ARCHETYPES), size, []), s)
  }

  // The descriptions seen so far are exactly those of the genomes kept.
  ghost predicate Describes(seen: set<string>, out: seq<Genome>) {
    forall g :: Describe(g) in seen <==> Described(out, g)
  }

  method Keep(g: Genome, seen: set<string>, out: seq<Genome>) returns (seen': set<string>, out': seq<Genome>)
    requires Describes(seen, out)
    ensures out' == Offer(out, g) && Describes(seen', out')
  {
    hide Describe;
    seen', out' := seen, out;
    if Describe(g) !in seen {
      seen' := seen + {Describe(g)};
      out' := out + [g];
      forall h ensures Describe(h) in seen' <==> Described(out', h) {
        OfferDescribes(out, g, h);
      }
    }
  }

  lemma OfferDescribes(out: seq<Genome>, g: Genome, h: Genome)
    ensures Described(out + [g], h) <==> Described(out, h) || Describe(g) == Describe(h)
  {
    hide Describe;
    if Described(out, h) {
      var i :| 0 <= i < |out| && Describe(out[i]) == Describe(h);
      assert (out + [g])[i] == out[i];
    }
    assert (out + [g])[|out|] == g;
  }

  method SeedPopulation(cat: seq<FeatureStat>, horizon: Horizon, size: nat, maxPredicates: nat, bias: real,
                        rng: Generator) returns (out: seq<Genome>)
    modifies rng
    ensures Draw(out, rng.state) == Seeded(cat, horizon, size, maxPredicates, bias, old(rng.state))
  {
    hide RandomGenome, PromotableGenome, DrawChance, StatsIn, Describes, Offer;
    var clamped := Clamp(bias, 0.0, 1.0);
    var seen: set<string> := {};
    var archetypes := ArchetypeSeeds(cat, horizon, ARCHETYPES);
    out := [];
    NothingDescribed();
    for i := 0 to |archetypes|
      invariant Describes(seen, out) && rng.state == old(rng.state)
      invariant Leading(archetypes, size, []) == Leading(archetypes[i..], size, out)
    {
      if |out| >= size {
        break;
      }
      seen, out := Keep(archetypes[i], seen, out);
    }
    assert out == Leading(archetypes, size, []);
    out := FillRandom(cat, horizon, maxPredicates, clamped, size, seen, out, rng);
  }

  lemma NothingDescribed()
    ensures Describes({}, [])
  {
  }

  method FillRandom(cat: seq<FeatureStat>, horizon: Horizon, maxPredicates: nat, bias: real, size: nat,
                    known: set<string>, start: seq<Genome>, rng: Generator) returns (out: seq<Genome>)
    requires Describes(known, start)
    modifies rng
    ensures Draw(out, rng.state)
         == Filled(cat, horizon, maxPredicates, bias, size, size * 8, start, old(rng.state))
  {
    hide RandomGenome, PromotableGenome, DrawChance, StatsIn, Describes, Offer;
    var seen := known;
    out := start;
    var canBias := StatsIn(cat, ACTIONABLE_LAYERS) != [];
    var attempts := size * 8;
    for k := 0 to attempts
      invariant Describes(seen, out)
      invariant Filled(cat, horizon, maxPredicates, bias, size, attempts, start, old(rng.state))
             == Filled(cat, horizon, maxPredicates, bias, size, attempts - k, out, rng.state)
    {
      if |out| >= size {
        return;
      }
      var wantPromotable := false;
      if canBias {
        wantPromotable := rng.Chance(bias);
      }
      var g: Option<Genome>;
      if wantPromotable {
        g := DrawPromotableGenome(cat, horizon, maxPredicates, rng);
      } else {
        g := DrawRandomGenome(cat, horizon, maxPredicates, rng);
      }
      if g.Some? {
        seen, out := Keep(g.value, seen, out);
      }
    }
  }

  // ---- what seeding guarantees ---------------------------------------------------------

  lemma {:induction false} PaddedIsValid(cat: seq<FeatureStat>, target: nat, attempts: nat,
                                         acc: seq<Predicate>, s: Word)
    requires ValidPredicates(acc, cat)
    ensures var ps := Padded(cat, target, attempts, acc, s).value;
            && ValidPredicates(ps, cat) && acc <= ps
            && (|acc| <= target ==> |ps| <= target)
    decreases attempts
  {
    hide DrawFrom, ValidPredicates;
    if attempts > 0 && |acc| < target {
      var d := DrawFrom(cat, s);
      DrawIsObserved(cat, s);
      AppendedIsValid(acc, d.value, cat);
      var next := if d.value.Some? then Admit(acc, d.value.value) else acc;
      assert next == Appended(acc, d.value);
      PaddedIsValid(cat, target, attempts - 1, next, d.next);
    }
  }

  lemma NothingIsValid(cat: seq<FeatureStat>)
    ensures ValidPredicates([], cat)
  {
  }

  lemma RandomGenomeIsValid(cat: seq<FeatureStat>, horizon: Horizon, maxPredicates: nat, s: Word)
    ensures var d := RandomGenome(cat, horizon, maxPredicates, s).value;
            d.Some? ==> ValidGenome(d.value, cat, MaxNat(maxPredicates, 1)) && d.value.horizon == horizon
  {
    hide DrawIndex, DrawChance, Padded, ValidPredicates;
    if cat != [] {
      var n := DrawIndex(s, MaxNat(maxPredicates, 1));
      var count := 1 + n.value;
      NothingIsValid(cat);
      PaddedIsValid(cat, count, count * 4, [], n.next);
    }
  }

  lemma OneIsValid(p: Predicate, cat: seq<FeatureStat>)
    requires Observed(p, cat)
    ensures ValidPredicates([p], cat)
  {
    hide Observed;
  }

  // The biased draw always carries an entry condition, so the promotion guardrail can pass it.
  lemma PromotableGenomeIsValid(cat: seq<FeatureStat>, horizon: Horizon, maxPredicates: nat, s: Word)
    ensures var d := PromotableGenome(cat, horizon, maxPredicates, s).value;
            d.Some? ==>
              && ValidGenome(d.value, cat, MaxNat(maxPredicates, 2)) && d.value.horizon == horizon
              && Actionable(d.value)
  {
    hide DrawIndex, DrawChance, DrawFrom, Padded, StatsIn, ValidPredicates, Observed;
    var first := DrawFrom(StatsIn(cat, ACTIONABLE_LAYERS), s);
    if first.value.Some? {
      LayeredDraw(cat, ACTIONABLE_LAYERS, s);
      var p := first.value.value;
      OneIsValid(p, cat);
      ContextIsValid(cat, [p], first.next);
      var both := WithContext(cat, [p], first.next);
      var n := DrawIndex(both.next, MaxNat(maxPredicates, 1));
      var target := PromotableTarget(n.value, maxPredicates);
      PaddedIsValid(cat, target, target * 4, both.value, n.next);
      var ps := Padded(cat, target, target * 4, both.value, n.next).value;
      assert ps[0] == both.value[0] == p;
      assert p in ps;
    }
  }

  lemma ContextIsValid(cat: seq<FeatureStat>, acc: seq<Predicate>, s: Word)
    requires ValidPredicates(acc, cat)
    ensures ValidPredicates(WithContext(cat, acc, s).value, cat)
    ensures acc <= WithContext(cat, acc, s).value && |WithContext(cat, acc, s).value| <= |acc| + 1
  {
    hide DrawFrom, StatsIn, ValidPredicates;
    if StatsIn(cat, CONTEXT_LAYERS) != [] {
      var d := DrawFrom(StatsIn(cat, CONTEXT_LAYERS), s);
      LayeredDraw(cat, CONTEXT_LAYERS, s);
      AppendedIsValid(acc, d.value, cat);
    }
  }

  // Templates tagged with the layer their key names.
  ghost predicate WellTagged(ts: seq<Template>) {
    forall i :: 0 <= i < |ts| ==> ts[i].layer == LayerOfKey(ts[i].key)
  }

  lemma {:induction false} BoundIsValid(cat: seq<FeatureStat>, ts: seq<Template>, acc: seq<Predicate>)
    requires ValidCatalog(cat) && WellTagged(ts) && ValidPredicates(acc, cat)
    ensures var b := Bound(cat, ts, acc); b.Some? ==> ValidPredicates(b.value, cat) && |b.value| <= |acc| + |ts|
  {
    hide LayerOfKey, ValidPredicates;
    if ts != [] {
      var t := ts[0];
      if KeyUsed(acc, t.key) {
        BoundIsValid(cat, ts[1..], acc);
      } else {
        var stat := StatFor(cat, t.key);
        if stat.Some? {
          var threshold := stat.value.Quantile(t.quantile);
          if threshold.Some? {
            var p := Predicate(t.layer, t.key, t.op, threshold.value);
            TemplateIsObserved(cat, stat.value, p);
            AppendedIsValid(acc, Some(p), cat);
            BoundIsValid(cat, ts[1..], acc + [p]);
          }
        }
      }
    }
  }

  lemma TemplateIsObserved(cat: seq<FeatureStat>, stat: FeatureStat, p: Predicate)
    requires ValidCatalog(cat) && stat in cat && stat.key == p.key && p.layer == LayerOfKey(p.key)
    requires p.threshold in stat.values
    ensures Observed(p, cat)
  {
    var i :| 0 <= i < |cat| && cat[i] == stat;
    assert ValidStat(cat[i]);
    hide LayerOfKey;
  }

  lemma KeyLayer(key: string, prefix: string, layer: Layer)
    requires prefix <= key
    requires (prefix == "regime." && layer == Regime) || (prefix == "location." && layer == Location)
             || (prefix == "trigger." && layer == Trigger)
    ensures LayerOfKey(key) == layer
  {
    assert key[0] == prefix[0] && key[1] == prefix[1] && key[2] == prefix[2];
  }

  ghost predicate AllValid(gs: seq<Genome>, cat: seq<FeatureStat>, cap: nat, horizon: Horizon) {
    forall i :: 0 <= i < |gs| ==> ValidGenome(gs[i], cat, cap) && gs[i].horizon == horizon
  }

  ghost predicate Tagged(t: Template, prefix: string) {
    prefix <= t.key
    && ((prefix == "regime." && t.layer == Regime) || (prefix == "location." && t.layer == Location)
        || (prefix == "trigger." && t.layer == Trigger))
  }

  lemma TagsAgree(ts: seq<Template>, prefixes: seq<string>)
    requires |ts| == |prefixes| && forall i :: 0 <= i < |ts| ==> Tagged(ts[i], prefixes[i])
    ensures WellTagged(ts)
  {
    forall i | 0 <= i < |ts| ensures ts[i].layer == LayerOfKey(ts[i].key) {
      KeyLayer(ts[i].key, prefixes[i], ts[i].layer);
    }
  }

  lemma ArchetypesWellTagged(k: nat)
    requires k < |ARCHETYPES|
    ensures WellTagged(ARCHETYPES[k].templates) && |ARCHETYPES[k].templates| <= MAX_PREDICATES
  {
    var regime, location, trigger := "regime.", "location.", "trigger.";
    var prefixes := match k
      case 0 => [regime, location, trigger]
      case 1 => [regime, trigger, location]
      case 2 => [trigger, location, regime]
      case 3 => [location, trigger, regime]
      case 4 => [regime, location, trigger]
      case 5 => [regime, trigger, location]
      case _ => [trigger, location, regime];
    var ts := ARCHETYPES[k].templates;
    assert Tagged(ts[0], prefixes[0]);
    assert Tagged(ts[1], prefixes[1]);
    assert Tagged(ts[2], prefixes[2]);
    TagsAgree(ts, prefixes);
  }

  lemma {:induction false} ArchetypeSeedsAreValid(cat: seq<FeatureStat>, horizon: Horizon, archetypes: seq<Archetype>)
    requires ValidCatalog(cat)
    requires forall k :: 0 <= k < |archetypes| ==>
               WellTagged(archetypes[k].templates) && |archetypes[k].templates| <= MAX_PREDICATES
    ensures AllValid(ArchetypeSeeds(cat, horizon, archetypes), cat, MAX_PREDICATES, horizon)
  {
    hide ValidCatalog, WellTagged, ValidPredicates, Bound, HasActionable;
    if archetypes != [] {
      ArchetypeSeedsAreValid(cat, horizon, archetypes[1..]);
      NothingIsValid(cat);
      assert WellTagged(archetypes[0].templates);
      BoundIsValid(cat, archetypes[0].templates, []);
    }
  }

  lemma {:induction false} LeadingIsValid(gs: seq<Genome>, size: nat, out: seq<Genome>,
                                          cat: seq<FeatureStat>, cap: nat, h: Horizon)
    requires AllValid(gs, cat, cap, h) && AllValid(out, cat, cap, h) && Distinct(out) && |out| <= size
    ensures var r := Leading(gs, size, out); AllValid(r, cat, cap, h) && Distinct(r) && |r| <= size
  {
    hide ValidGenome, Describe;
    if gs != [] && |out| < size {
      OfferIsDistinct(out, gs[0]);
      LeadingIsValid(gs[1..], size, Offer(out, gs[0]), cat, cap, h);
    }
  }

  ghost predicate Distinct(gs: seq<Genome>) {
    forall i, j :: 0 <= i < j < |gs| ==> Describe(gs[i]) != Describe(gs[j])
  }

  lemma OfferIsDistinct(out: seq<Genome>, g: Genome)
    requires Distinct(out)
    ensures Distinct(Offer(out, g)) && |Offer(out, g)| <= |out| + 1
  {
    hide Describe;
  }

  lemma RandomSeedIsValid(cat: seq<FeatureStat>, horizon: Horizon, maxPredicates: nat, bias: real, s: Word)
    ensures var d := RandomSeed(cat, horizon, maxPredicates, bias, s).value;
            d.Some? ==> ValidGenome(d.value, cat, SizeCap(maxPredicates)) && d.value.horizon == horizon
  {
    hide DrawChance, RandomGenome, PromotableGenome, ValidPredicates, StatsIn;
    var c := DrawChance(s, bias);
    RandomGenomeIsValid(cat, horizon, maxPredicates, s);
    RandomGenomeIsValid(cat, horizon, maxPredicates, c.next);
    PromotableGenomeIsValid(cat, horizon, maxPredicates, c.next);
  }

  lemma {:induction false} FilledIsValid(cat: seq<FeatureStat>, horizon: Horizon, maxPredicates: nat, bias: real,
                                         size: nat, attempts: nat, out: seq<Genome>, s: Word)
    requires AllValid(out, cat, SizeCap(maxPredicates), horizon) && Distinct(out) && |out| <= size
    ensures var r := Filled(cat, horizon, maxPredicates, bias, size, attempts, out, s).value;
            AllValid(r, cat, SizeCap(maxPredicates), horizon) && Distinct(r) && |r| <= size
    decreases attempts
  {
    hide RandomSeed, ValidGenome, Describe, Distinct;
    if attempts > 0 && |out| < size {
      var d := RandomSeed(cat, horizon, maxPredicates, bias, s);
      RandomSeedIsValid(cat, horizon, maxPredicates, bias, s);
      var next := if d.value.Some? then Offer(out, d.value.value) else out;
      if d.value.Some? {
        OfferIsDistinct(out, d.value.value);
      }
      FilledIsValid(cat, horizon, maxPredicates, bias, size, attempts - 1, next, d.next);
    }
  }

  // Whatever is drawn, a seed population holds at most `size` valid genomes of the horizon, no
  // two described alike.
  lemma SeededIsValid(cat: seq<FeatureStat>, horizon: Horizon, size: nat, maxPredicates: nat, bias: real, s: Word)
    requires ValidCatalog(cat)
    ensures var r := Seeded(cat, horizon, size, maxPredicates, bias, s).value;
            AllValid(r, cat, SizeCap(maxPredicates), horizon) && Distinct(r) && |r| <= size
  {
    hide ValidCatalog, WellTagged, ArchetypeSeeds, Leading, Filled, Distinct, AllValid;
    forall k | 0 <= k < |ARCHETYPES|
      ensures WellTagged(ARCHETYPES[k].templates) && |ARCHETYPES[k].templates| <= MAX_PREDICATES
    {
      ArchetypesWellTagged(k);
    }
    ArchetypeSeedsAreValid(cat, horizon, ARCHETYPES);
    var cap := SizeCap(maxPredicates);
    EmptyIsValid(cat, cap, horizon);
    WiderIsValid(ArchetypeSeeds(cat, horizon, ARCHETYPES), cat, MAX_PREDICATES, cap, horizon);
    LeadingIsValid(ArchetypeSeeds(cat, horizon, ARCHETYPES), size, [], cat, cap, horizon);
    FilledIsValid(cat, horizon, maxPredicates, Clamp(bias, 0.0, 1.0), size, size * 8,
                  Leading(ArchetypeSeeds(cat, horizon, ARCHETYPES), size, []), s);
  }

  lemma EmptyIsValid(cat: seq<FeatureStat>, cap: nat, horizon: Horizon)
    ensures AllValid([], cat, cap, horizon) && Distinct([])
  {
  }

  lemma WiderIsValid(gs: seq<Genome>, cat: seq<FeatureStat>, cap: nat, wider: nat, horizon: Horizon)
    requires AllValid(gs, cat, cap, horizon) && cap <= wider
    ensures AllValid(gs, cat, wider, horizon)
  {
    hide ValidPredicates;
  }
}
