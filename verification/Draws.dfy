// What one draw reads off the generator's words: positions, chances, fractions and conditions.
module Draws {
  import opened Arith
  import opened Genomes
  import opened Rng
  import opened Catalog
  import opened Drawing

  const HALF: Word := 0x8000_0000_0000_0000
  const UNITS := 9007199254740992.0

  // A unit draw is the word's upper 53 bits over 2^53.
  lemma UnitReads(s: Word)
    ensures DrawUnit(s).value * UNITS == (NextWord(s) / 2048) as real
    ensures DrawUnit(s).next == Advance(s, 1)
  {
    hide NextWord, Advance;
    OneOn(s);
    QuotientTimes((NextWord(s) / 2048) as real, UNITS);
  }

  // An even chance is the word's upper half.
  lemma EvenChanceIs(s: Word)
    ensures DrawChance(s, 0.5).value <==> NextWord(s) < HALF
    ensures DrawChance(s, 0.5).next == Advance(s, 1)
  {
    hide NextWord, DrawUnit;
    UnitReads(s);
    HalfOf(DrawUnit(s).value, NextWord(s));
  }

  lemma HalfOf(u: real, w: Word)
    requires u * UNITS == (w / 2048) as real
    ensures u < 0.5 <==> w < HALF
  {
    assert w / 2048 < 0x10_0000_0000_0000 <==> w < HALF;
  }

  // A chance p comes up exactly when the upper 53 bits fall short of p in 2^53.
  lemma ChanceIs(s: Word, p: real)
    ensures DrawChance(s, p).value <==> (NextWord(s) / 2048) as real < p * UNITS
    ensures DrawChance(s, p).next == Advance(s, 1)
  {
    hide NextWord, DrawUnit;
    UnitReads(s);
    var u := DrawUnit(s).value;
    ProductSigns(p - u, UNITS);
    assert (p - u) * UNITS == p * UNITS - u * UNITS;
  }

  // A position among n is the word modulo n; among none, no word is drawn.
  lemma IndexReads(s: Word, n: nat)
    ensures n > 0 ==> DrawIndex(s, n) == Draw(NextWord(s) % n, Advance(s, 1))
    ensures n == 0 ==> DrawIndex(s, n) == Draw(0, s)
  {
    assert Advance(s, 0) == s;
  }

  // The condition three words spell: the first picks the feature, the second a rank between the
  // second and the eighth tenth of its values, the third, in its lower half, "above".
  ghost predicate Spelled(p: Predicate, pool: seq<FeatureStat>, w1: Word, w2: Word, w3: Word)
    requires pool != []
  {
    var stat := pool[w1 % |pool|];
    && p.key == stat.key && p.layer == stat.layer
    && p.op == (if w3 < HALF then Gt else Lt)
    && AtTenths(p.threshold, stat.values, (w2 / 2048) as real / UNITS)
  }

  // The value at the rank nearest to the fraction 0.2 + 0.6 u of the way through.
  ghost predicate AtTenths(x: real, values: seq<real>, u: real) {
    exists i :: 0 <= i < |values| && values[i] == x && Nearest((0.2 + 0.6 * u) * (|values| as real - 1.0), i)
  }

  lemma TenthsRead(stat: FeatureStat, u: real)
    requires stat.values != [] && 0.0 <= u < 1.0
    ensures AtTenths(stat.Quantile(0.2 + 0.6 * u).value, stat.values, u)
  {
    var q := 0.2 + 0.6 * u;
    NearestRankIs(q, |stat.values|);
    assert stat.values[NearestRank(q, |stat.values|)] == stat.Quantile(q).value;
  }

  // A condition drawn from a nonempty pool of observed features is the one the next three words
  // spell, and leaves the generator three draws on.
  lemma DrawSpells(pool: seq<FeatureStat>, s: Word)
    requires pool != [] && forall i :: 0 <= i < |pool| ==> ValidStat(pool[i])
    ensures var d := DrawFrom(pool, s);
            && d.value.Some? && d.next == Advance(s, 3)
            && Spelled(d.value.value, pool, Output(s, 0), Output(s, 1), Output(s, 2))
  {
    hide NextWord, DrawIndex, DrawUnit, DrawChance, AtTenths;
    ThreeOn(s);
    IndexReads(s, |pool|);
    var s1, s2 := Advance(s, 1), Advance(s, 2);
    var stat := pool[NextWord(s) % |pool|];
    assert ValidStat(stat) && stat.values != [];
    UnitReads(s1);
    var u := DrawUnit(s1).value;
    FractionOf(u, (NextWord(s1) / 2048) as real);
    TenthsRead(stat, u);
    EvenChanceIs(s2);
  }

  lemma FractionOf(u: real, w: real)
    requires u * UNITS == w
    ensures u == w / UNITS
  {
  }

  lemma ThreeOn(s: Word)
    ensures Advance(s, 0) == s && Output(s, 0) == NextWord(s)
    ensures Advance(Advance(s, 1), 1) == Advance(s, 2) && Output(s, 1) == NextWord(Advance(s, 1))
    ensures Advance(Advance(s, 2), 1) == Advance(s, 3) && Output(s, 2) == NextWord(Advance(s, 2))
  {
    hide NextWord;
    OneOn(s);
    OneOn(Advance(s, 1));
    OneOn(Advance(s, 2));
  }

  lemma OneOn(s: Word)
    ensures Advance(s, 1) == Add(s, GOLDEN)
  {
    assert Advance(s, 0) == s;
  }
}
