// The canonical genome signature the search deduplicates on, and the human descriptions.
module Signature {
  import opened Prelude
  import opened Market
  import opened Risk
  import opened Genomes
  import opened Strings
  import opened Display

  // ---- numbers and names -----------------------------------------------------------

  function HorizonName(h: Horizon): string {
    match h
    case Swing => "swing"
    case ShortSwing => "short_swing"
    case Day => "day"
    case ZeroDte => "zero_dte"
    case Scalp => "scalp"
  }

  function LayerName(l: Layer): string {
    match l
    case Tradeability => "tradeability"
    case Regime => "regime"
    case Location => "location"
    case Trigger => "trigger"
    case Event => "event"
  }

  function OpName(op: CmpOp): string {
    match op
    case Gt => ">"
    case Lt => "<"
    case Gte => ">="
    case Lte => "<="
  }

  function SideName(s: Side): string {
    if s.Long? then "1" else "-1"
  }

  // The order-sensitive description, which the seeding step deduplicates on.
  function DescribeConditions(ps: seq<Predicate>): string {
    if ps == [] then ""
    else
      var head := ps[0].key + " " + OpName(ps[0].op) + " " + Fixed(ps[0].threshold, 10000.0, 4);
      if |ps| == 1 then head else head + " AND " + DescribeConditions(ps[1..])
  }

  function Describe(g: Genome): string {
    (if g.side.Long? then "Long" else "Short") + " " + HorizonName(g.horizon) + " :: "
      + DescribeConditions(g.predicates) + " [" + RiskText(g.risk) + "]"
  }

  // ---- the signature -----------------------------------------------------------------

  // A predicate with its threshold on the four-decimal grid.
  datatype Condition = Condition(layer: Layer, key: string, op: CmpOp, units: int)

  function ConditionOf(p: Predicate): Condition {
    Condition(p.layer, p.key, p.op, RoundHalfAway(p.threshold * 10000.0))
  }

  function Conditions(ps: seq<Predicate>): (r: seq<Condition>)
    ensures |r| == |ps|
  {
    MapSeq(ps, ConditionOf)
  }

  function TokenOf(c: Condition): string {
    LayerName(c.layer) + ['|'] + (c.key + ['|'] + (OpName(c.op) + ['|'] + Signed(c.units, 4)))
  }

  function Tokens(cs: seq<Condition>): (r: seq<string>)
    ensures |r| == |cs|
  {
    MapSeq(cs, TokenOf)
  }

  function BodyText(body: string, risk: string): string {
    body + [']'] + ("::" + risk)
  }

  function HorizonText(horizon: Horizon, body: string, risk: string): string {
    HorizonName(horizon) + [':'] + (":[" + BodyText(body, risk))
  }

  function SignatureText(side: Side, horizon: Horizon, body: string, risk: string): string {
    SideName(side) + [':'] + (":" + HorizonText(horizon, body, risk))
  }

  function SignatureOf(g: Genome): string {
    SignatureText(g.side, g.horizon, Join(Sort(Tokens(Conditions(g.predicates))), '&'), RiskText(g.risk))
  }

  lemma TokenAt(ps: seq<Predicate>, i: nat)
    requires i < |ps|
    ensures Tokens(Conditions(ps))[i] == TokenOf(ConditionOf(ps[i]))
  {
  }

  method GenomeSignature(g: Genome) returns (s: string)
    ensures s == SignatureOf(g)
  {
    hide TokenOf, ConditionOf, Tokens, Conditions, Sort, Join, SignatureText, RiskText;
    var tokens := [];
    ghost var all := Tokens(Conditions(g.predicates));
    for i := 0 to |g.predicates|
      invariant tokens == all[..i]
    {
      TokenAt(g.predicates, i);
      tokens := tokens + [TokenOf(ConditionOf(g.predicates[i]))];
    }
    assert tokens == all;
    tokens := Sort(tokens);
    s := SignatureText(g.side, g.horizon, Join(tokens, '&'), RiskText(g.risk));
  }

  // No condition's key holds the character.
  ghost predicate KeysAvoid(cs: seq<Condition>, c: char) {
    forall i :: 0 <= i < |cs| ==> c !in cs[i].key
  }

  lemma NamesAreDistinct()
    ensures forall a: Layer, b: Layer :: LayerName(a) == LayerName(b) ==> a == b
    ensures forall a: CmpOp, b: CmpOp :: OpName(a) == OpName(b) ==> a == b
    ensures forall a: Horizon, b: Horizon :: HorizonName(a) == HorizonName(b) ==> a == b
  {
    forall a: Layer, b: Layer | LayerName(a) == LayerName(b) ensures a == b {
      assert |LayerName(a)| == |LayerName(b)|;
      assert LayerName(a)[0] == LayerName(b)[0] && LayerName(a)[1] == LayerName(b)[1];
    }
    forall a: CmpOp, b: CmpOp | OpName(a) == OpName(b) ensures a == b {
      assert OpName(a)[0] == OpName(b)[0] && |OpName(a)| == |OpName(b)|;
    }
    forall a: Horizon, b: Horizon | HorizonName(a) == HorizonName(b) ensures a == b {
      assert |HorizonName(a)| == |HorizonName(b)|;
      assert HorizonName(a)[0] == HorizonName(b)[0] && HorizonName(a)[1] == HorizonName(b)[1];
    }
  }

  // The first bar and the last two of a token fence off its parts, whatever its key holds.
  lemma TokenInjective(a: Condition, b: Condition)
    requires TokenOf(a) == TokenOf(b)
    ensures a == b
  {
    NumberClean(a.units);
    NumberClean(b.units);
    NamesArePlain(a.layer, a.op);
    NamesArePlain(b.layer, b.op);
    hide LayerName, OpName, Signed;
    SplitAtFirst(LayerName(a.layer), a.key + ['|'] + (OpName(a.op) + ['|'] + Signed(a.units, 4)),
                 LayerName(b.layer), b.key + ['|'] + (OpName(b.op) + ['|'] + Signed(b.units, 4)), '|');
    SplitLastTwo(a.key, OpName(a.op), Signed(a.units, 4), b.key, OpName(b.op), Signed(b.units, 4));
    SignedInjective(a.units, b.units, 4);
    NamesAreDistinct();
  }

  lemma NamesArePlain(l: Layer, op: CmpOp)
    ensures '|' !in LayerName(l) && '|' !in OpName(op) && '&' !in LayerName(l) && '&' !in OpName(op)
  {
  }

  lemma SplitLastTwo(k: string, o: string, n: string, k': string, o': string, n': string)
    requires '|' !in o && '|' !in o' && '|' !in n && '|' !in n'
    requires k + ['|'] + (o + ['|'] + n) == k' + ['|'] + (o' + ['|'] + n')
    ensures k == k' && o == o' && n == n'
  {
    assert k + ['|'] + o + ['|'] + n == k + ['|'] + (o + ['|'] + n);
    assert k' + ['|'] + o' + ['|'] + n' == k' + ['|'] + (o' + ['|'] + n');
    SplitAtLast(k + ['|'] + o, n, k' + ['|'] + o', n', '|');
    SplitAtLast(k, o, k', o', '|');
  }

  lemma NumberClean(units: int)
    ensures '&' !in Signed(units, 4) && '|' !in Signed(units, 4)
  {
    var n := if units < 0 then -units else units;
    DigitsAreDigits(Whole(n, 4));
    PaddedIsDigits(n, 4);
    assert '&' !in Decimal(n, 4) && '|' !in Decimal(n, 4);
  }

  lemma TokenClean(c: Condition)
    requires '&' !in c.key
    ensures TokenOf(c) != "" && '&' !in TokenOf(c)
  {
    NumberClean(c.units);
    NamesArePlain(c.layer, c.op);
  }

  // Tokens arrange alike exactly when the conditions do.
  lemma TokensMultiset(xs: seq<Condition>, ys: seq<Condition>)
    ensures multiset(Tokens(xs)) == multiset(Tokens(ys)) <==> multiset(xs) == multiset(ys)
  {
    if multiset(xs) == multiset(ys) {
      MapFollows(xs, ys, TokenOf);
    }
    if multiset(Tokens(xs)) == multiset(Tokens(ys)) {
      forall i, j | 0 <= i < |xs| && 0 <= j < |ys| && TokenOf(xs[i]) == TokenOf(ys[j])
        ensures xs[i] == ys[j]
      {
        TokenInjective(xs[i], ys[j]);
      }
      MapReflects(xs, ys, TokenOf);
    }
  }

  // ---- reading the tokens back out of their join ------------------------------------

  // Each text is the token of a condition whose key avoids the character.
  ghost predicate TokensAvoid(ts: seq<string>, c: char) {
    forall i :: 0 <= i < |ts| ==> IsTokenAvoiding(ts[i], c)
  }

  ghost predicate IsTokenAvoiding(t: string, c: char) {
    exists d: Condition :: c !in d.key && TokenOf(d) == t
  }

  lemma SortedTokensAvoid(cs: seq<Condition>, c: char)
    requires KeysAvoid(cs, c)
    ensures TokensAvoid(Sort(Tokens(cs)), c)
  {
    hide TokenOf;
    var ts := Tokens(cs);
    forall i | 0 <= i < |Sort(ts)| ensures IsTokenAvoiding(Sort(ts)[i], c) {
      assert Sort(ts)[i] in multiset(ts);
      var j :| 0 <= j < |ts| && ts[j] == Sort(ts)[i];
      assert TokenOf(cs[j]) == Sort(ts)[i];
    }
  }

  // Keys without the ampersand: it only ever separates tokens.
  lemma AmpersandFreeJoin(xs: seq<string>, ys: seq<string>)
    requires TokensAvoid(xs, '&') && TokensAvoid(ys, '&') && Join(xs, '&') == Join(ys, '&')
    ensures xs == ys
  {
    TokensSeparable(xs);
    TokensSeparable(ys);
    hide TokensAvoid;
    JoinInjective(xs, ys, '&');
  }

  lemma TokensSeparable(ts: seq<string>)
    requires TokensAvoid(ts, '&')
    ensures Separable(ts, '&')
  {
    hide TokenOf;
    forall i | 0 <= i < |ts| ensures ts[i] != "" && '&' !in ts[i] {
      assert IsTokenAvoiding(ts[i], '&');
      var d: Condition :| '&' !in d.key && TokenOf(d) == ts[i];
      TokenClean(d);
    }
  }

  // What follows the first token in a join.
  function AfterFirst(ts: seq<string>): string
    requires ts != []
  {
    if |ts| == 1 then "" else ['&'] + Join(ts[1..], '&')
  }

  lemma JoinStarts(ts: seq<string>)
    requires ts != []
    ensures Join(ts, '&') == ts[0] + AfterFirst(ts)
  {
    if |ts| > 1 {
      assert ts[0] + ['&'] + Join(ts[1..], '&') == ts[0] + (['&'] + Join(ts[1..], '&'));
    }
  }

  // Keys without the bar: three bars fence off the first layer, key and operator, and its number
  // runs to the next ampersand.
  lemma HeadReads(a: Condition, x: string, b: Condition, y: string)
    requires '|' !in a.key && '|' !in b.key && TokenOf(a) + x == TokenOf(b) + y
    ensures a.layer == b.layer && a.key == b.key && a.op == b.op && Signed(a.units, 4) + x == Signed(b.units, 4) + y
  {
    TokenThen(a, x);
    TokenThen(b, y);
    NamesArePlain(a.layer, a.op);
    NamesArePlain(b.layer, b.op);
    hide TokenOf, LayerName, OpName, Signed;
    SplitFirstThree(LayerName(a.layer), a.key, OpName(a.op), Signed(a.units, 4) + x,
                    LayerName(b.layer), b.key, OpName(b.op), Signed(b.units, 4) + y);
    NamesAreDistinct();
  }

  lemma SplitFirstThree(l: string, k: string, o: string, x: string, l': string, k': string, o': string, x': string)
    requires '|' !in l && '|' !in k && '|' !in o && '|' !in l' && '|' !in k' && '|' !in o'
    requires l + ['|'] + (k + ['|'] + (o + ['|'] + x)) == l' + ['|'] + (k' + ['|'] + (o' + ['|'] + x'))
    ensures l == l' && k == k' && o == o' && x == x'
  {
    SplitAtFirst(l, k + ['|'] + (o + ['|'] + x), l', k' + ['|'] + (o' + ['|'] + x'), '|');
    SplitAtFirst(k, o + ['|'] + x, k', o' + ['|'] + x', '|');
    SplitAtFirst(o, x, o', x', '|');
  }

  lemma TokenThen(a: Condition, x: string)
    ensures TokenOf(a) + x
         == LayerName(a.layer) + ['|'] + (a.key + ['|'] + (OpName(a.op) + ['|'] + (Signed(a.units, 4) + x)))
  {
    hide LayerName, OpName, Signed;
  }

  lemma {:induction false} BarFreeJoin(xs: seq<string>, ys: seq<string>)
    requires TokensAvoid(xs, '|') && TokensAvoid(ys, '|') && Join(xs, '&') == Join(ys, '&')
    ensures xs == ys
  {
    hide TokenOf, Join;
    if xs == [] || ys == [] {
      EmptyJoin(xs);
      EmptyJoin(ys);
    } else {
      JoinStarts(xs);
      JoinStarts(ys);
      assert IsTokenAvoiding(xs[0], '|') && IsTokenAvoiding(ys[0], '|');
      var a: Condition :| '|' !in a.key && TokenOf(a) == xs[0];
      var b: Condition :| '|' !in b.key && TokenOf(b) == ys[0];
      HeadReads(a, AfterFirst(xs), b, AfterFirst(ys));
      NumberStops(a.units, b.units, xs, ys);
      SignedInjective(a.units, b.units, 4);
      if |xs| > 1 {
        TailAvoids(xs);
        TailAvoids(ys);
        BarFreeJoin(xs[1..], ys[1..]);
      }
      hide TokensAvoid, AfterFirst;
      SameParts(xs, ys);
    }
  }

  lemma TailAvoids(ts: seq<string>)
    requires ts != [] && TokensAvoid(ts, '|')
    ensures TokensAvoid(ts[1..], '|')
  {
    hide IsTokenAvoiding;
  }

  lemma SameParts(xs: seq<string>, ys: seq<string>)
    requires xs != [] && ys != [] && xs[0] == ys[0] && xs[1..] == ys[1..]
    ensures xs == ys
  {
    assert xs == [xs[0]] + xs[1..] && ys == [ys[0]] + ys[1..];
  }

  lemma EmptyJoin(ts: seq<string>)
    requires TokensAvoid(ts, '|')
    ensures Join(ts, '&') == "" <==> ts == []
  {
    hide TokenOf;
    if ts != [] {
      JoinStarts(ts);
      assert IsTokenAvoiding(ts[0], '|');
      var d: Condition :| '|' !in d.key && TokenOf(d) == ts[0];
      TokenNonEmpty(d);
    }
  }

  lemma TokenNonEmpty(c: Condition)
    ensures TokenOf(c) != ""
  {
  }

  lemma NumberStops(m: int, n: int, xs: seq<string>, ys: seq<string>)
    requires xs != [] && ys != [] && Signed(m, 4) + AfterFirst(xs) == Signed(n, 4) + AfterFirst(ys)
    ensures Signed(m, 4) == Signed(n, 4) && (|xs| > 1 <==> |ys| > 1)
    ensures |xs| > 1 && |ys| > 1 ==> Join(xs[1..], '&') == Join(ys[1..], '&')
  {
    hide Signed, Join;
    NumberClean(m);
    NumberClean(n);
    var s, t := Signed(m, 4), Signed(n, 4);
    if |xs| > 1 && |ys| > 1 {
      var x, y := Join(xs[1..], '&'), Join(ys[1..], '&');
      assert s + ['&'] + x == s + (['&'] + x) && t + ['&'] + y == t + (['&'] + y);
      SplitAtFirst(s, x, t, y, '&');
    } else if |xs| > 1 {
      HoldsAmpersand(s, Join(xs[1..], '&'));
    } else if |ys| > 1 {
      HoldsAmpersand(t, Join(ys[1..], '&'));
    } else {
      assert s + "" == s && t + "" == t;
    }
  }

  lemma HoldsAmpersand(s: string, x: string)
    ensures '&' in s + (['&'] + x)
  {
    assert (s + (['&'] + x))[|s|] == '&';
  }

  // ---- canonicity ---------------------------------------------------------------------

  // The four parts of a signature can be read back from it.
  lemma SignatureParts(side: Side, h: Horizon, body: string, risk: string,
                       side': Side, h': Horizon, body': string, risk': string)
    requires ']' !in "::" + risk && ']' !in "::" + risk'
    requires SignatureText(side, h, body, risk) == SignatureText(side', h', body', risk')
    ensures side == side' && h == h' && body == body' && risk == risk'
  {
    var rest, rest' := HorizonText(h, body, risk), HorizonText(h', body', risk');
    SplitAtFirst(SideName(side), ":" + rest, SideName(side'), ":" + rest', ':');
    assert rest == (":" + rest)[1..] && rest' == (":" + rest')[1..];
    assert |SideName(side)| == |SideName(side')|;
    HorizonParts(h, body, risk, h', body', risk');
  }

  lemma HorizonParts(h: Horizon, body: string, risk: string, h': Horizon, body': string, risk': string)
    requires ']' !in "::" + risk && ']' !in "::" + risk'
    requires HorizonText(h, body, risk) == HorizonText(h', body', risk')
    ensures h == h' && body == body' && risk == risk'
  {
    var rest, rest' := BodyText(body, risk), BodyText(body', risk');
    SplitAtFirst(HorizonName(h), ":[" + rest, HorizonName(h'), ":[" + rest', ':');
    NamesAreDistinct();
    assert rest == (":[" + rest)[2..] && rest' == (":[" + rest')[2..];
    SplitAtLast(body, "::" + risk, body', "::" + risk', ']');
    assert risk == ("::" + risk)[2..] && risk' == ("::" + risk')[2..];
  }

  // What a signature stands for: side, horizon, conditions up to order on the four-decimal grid,
  // and a geometry of the same kinds showing the same magnitudes.
  ghost predicate SameStrategy(g: Genome, h: Genome) {
    && g.side == h.side && g.horizon == h.horizon
    && multiset(Conditions(g.predicates)) == multiset(Conditions(h.predicates))
    && RisksAlike(g.risk, h.risk)
  }

  ghost predicate GenomeAvoids(g: Genome, c: char) {
    forall i :: 0 <= i < |g.predicates| ==> c !in g.predicates[i].key
  }

  lemma ConditionsAvoid(g: Genome, c: char)
    requires GenomeAvoids(g, c)
    ensures KeysAvoid(Conditions(g.predicates), c)
  {
  }

  // Two genomes whose keys hold no ampersand, or no bar, share a signature exactly when they
  // are the same strategy.
  lemma SignatureCanonical(g: Genome, h: Genome)
    requires (GenomeAvoids(g, '&') && GenomeAvoids(h, '&')) || (GenomeAvoids(g, '|') && GenomeAvoids(h, '|'))
    ensures SignatureOf(g) == SignatureOf(h) <==> SameStrategy(g, h)
  {
    hide RiskText, SignatureText, Conditions, Tokens, Join, Sort, GenomeAvoids, RisksAlike;
    var cs, ds := Conditions(g.predicates), Conditions(h.predicates);
    var xs, ys := Sort(Tokens(cs)), Sort(Tokens(ds));
    RiskTextCanonical(g.risk, h.risk);
    RiskTextCanonical(h.risk, g.risk);
    SortCanonical(Tokens(cs), Tokens(ds));
    if SignatureOf(g) == SignatureOf(h) {
      SignatureParts(g.side, g.horizon, Join(xs, '&'), RiskText(g.risk),
                     h.side, h.horizon, Join(ys, '&'), RiskText(h.risk));
      JoinReadsBack(g, h);
    }
    TokensMultiset(cs, ds);
  }

  lemma JoinReadsBack(g: Genome, h: Genome)
    requires (GenomeAvoids(g, '&') && GenomeAvoids(h, '&')) || (GenomeAvoids(g, '|') && GenomeAvoids(h, '|'))
    requires Join(Sort(Tokens(Conditions(g.predicates))), '&') == Join(Sort(Tokens(Conditions(h.predicates))), '&')
    ensures Sort(Tokens(Conditions(g.predicates))) == Sort(Tokens(Conditions(h.predicates)))
  {
    hide Conditions, Tokens, Join, Sort, GenomeAvoids, KeysAvoid, TokensAvoid;
    var cs, ds := Conditions(g.predicates), Conditions(h.predicates);
    var c := if GenomeAvoids(g, '&') && GenomeAvoids(h, '&') then '&' else '|';
    ConditionsAvoid(g, c);
    ConditionsAvoid(h, c);
    SortedTokensAvoid(cs, c);
    SortedTokensAvoid(ds, c);
    if c == '&' {
      AmpersandFreeJoin(Sort(Tokens(cs)), Sort(Tokens(ds)));
    } else {
      BarFreeJoin(Sort(Tokens(cs)), Sort(Tokens(ds)));
    }
  }

  // Reordering a conjunction changes neither its signature nor when it fires, whatever its keys.
  lemma PermutationInvariant(g: Genome, ps: seq<Predicate>, features: Features)
    requires multiset(ps) == multiset(g.predicates)
    ensures SignatureOf(g.(predicates := ps)) == SignatureOf(g)
    ensures g.(predicates := ps).Fires(features) <==> g.Fires(features)
  {
    MapFollows(ps, g.predicates, ConditionOf);
    MapFollows(Conditions(ps), Conditions(g.predicates), TokenOf);
    SortCanonical(Tokens(Conditions(ps)), Tokens(Conditions(g.predicates)));
    forall p ensures p in ps <==> p in g.predicates {
      assert p in multiset(ps) <==> p in multiset(g.predicates);
    }
    assert ps == [] <==> g.predicates == [] by {
      assert |multiset(ps)| == |ps| && |multiset(g.predicates)| == |g.predicates|;
    }
  }

  // A key that spells out one condition and the start of the next.
  function SpellingKey(a: Condition, b: Condition): string {
    a.key + ['|'] + OpName(a.op) + ['|'] + Signed(a.units, 4) + ['&'] + LayerName(b.layer) + ['|'] + b.key
  }

  lemma SpellingKeyReads(a: Condition, b: Condition)
    ensures TokenOf(Condition(a.layer, SpellingKey(a, b), b.op, b.units)) == TokenOf(a) + ['&'] + TokenOf(b)
  {
    hide LayerName, OpName, Signed;
  }

  lemma SortOfPair(x: string, y: string)
    requires Leq(x, y)
    ensures Join(Sort([x, y]), '&') == x + ['&'] + y == Join(Sort([x + ['&'] + y]), '&')
  {
    SortTwo(x, y);
    SortOne(x + ['&'] + y);
  }

  // With both delimiters allowed in keys the signature is not canonical: every genome of two
  // conditions shares its signature with some genome of one.
  lemma DelimiterKeysCollide(g: Genome)
    requires |g.predicates| == 2
    ensures exists h: Genome :: |h.predicates| == 1 && SignatureOf(h) == SignatureOf(g)
  {
    hide SignatureOf, TokenOf, ConditionOf, Leq;
    var p, q := g.predicates[0], g.predicates[1];
    assert g.predicates == [p, q];
    LeqTotal(TokenOf(ConditionOf(p)), TokenOf(ConditionOf(q)));
    if Leq(TokenOf(ConditionOf(p)), TokenOf(ConditionOf(q))) {
      PairCollides(g, p, q);
    } else {
      var swapped := g.(predicates := [q, p]);
      PairCollides(swapped, q, p);
      assert SignatureOf(swapped) == SignatureOf(g) by {
        PermutationInvariant(g, [q, p], map[]);
      }
    }
  }

  lemma PairCollides(g: Genome, p: Predicate, q: Predicate)
    requires g.predicates == [p, q] && Leq(TokenOf(ConditionOf(p)), TokenOf(ConditionOf(q)))
    ensures exists h: Genome :: |h.predicates| == 1 && SignatureOf(h) == SignatureOf(g)
  {
    hide SignatureText, TokenOf, SpellingKey, RiskText, Sort, Join;
    var a, b := ConditionOf(p), ConditionOf(q);
    var r := Predicate(p.layer, SpellingKey(a, b), q.op, q.threshold);
    var h := g.(predicates := [r]);
    SpellingKeyReads(a, b);
    SortOfPair(TokenOf(a), TokenOf(b));
    assert Tokens(Conditions(g.predicates)) == [TokenOf(a), TokenOf(b)];
    assert Tokens(Conditions(h.predicates)) == [TokenOf(a) + ['&'] + TokenOf(b)];
    assert SignatureOf(h) == SignatureOf(g);
  }

  // ---- the boundary ----------------------------------------------------------------------

  ghost predicate GenomeAvoidsAll(g: Genome, avoid: set<char>) {
    forall c :: c in avoid ==> GenomeAvoids(g, c)
  }

  // All genomes whose keys avoid the characters are told apart by their signatures.
  ghost predicate ToldApart(avoid: set<char>) {
    forall g, h :: GenomeAvoidsAll(g, avoid) && GenomeAvoidsAll(h, avoid) && SignatureOf(g) == SignatureOf(h) ==>
      SameStrategy(g, h)
  }

  // Keeping either delimiter out of keys makes the signature canonical; keeping neither does not.
  lemma AvoidingEitherDecides(avoid: set<char>)
    requires avoid <= {'|', '&'}
    ensures ToldApart(avoid) <==> avoid != {}
  {
    hide SignatureOf, SameStrategy, GenomeAvoids;
    if avoid != {} {
      forall g, h | GenomeAvoidsAll(g, avoid) && GenomeAvoidsAll(h, avoid) && SignatureOf(g) == SignatureOf(h)
        ensures SameStrategy(g, h)
      {
        if '&' in avoid {
          assert GenomeAvoids(g, '&') && GenomeAvoids(h, '&');
        } else {
          assert '|' in avoid;
          assert GenomeAvoids(g, '|') && GenomeAvoids(h, '|');
        }
        SignatureCanonical(g, h);
      }
    } else {
      var p := Predicate(Trigger, "", Gt, 0.0);
      var g := Genome(Long, Swing, [p, p], FromProfile(ProfileFor(Swing)));
      DelimiterKeysCollide(g);
      var h: Genome :| |h.predicates| == 1 && SignatureOf(h) == SignatureOf(g);
      SizesDiffer(g, h);
      assert GenomeAvoidsAll(g, {}) && GenomeAvoidsAll(h, {});
    }
  }

  lemma SizesDiffer(g: Genome, h: Genome)
    requires |g.predicates| != |h.predicates|
    ensures !SameStrategy(g, h) && !SameStrategy(h, g)
  {
    assert |multiset(Conditions(g.predicates))| == |g.predicates|;
    assert |multiset(Conditions(h.predicates))| == |h.predicates|;
  }

  // The grid point of a threshold is the whole number of ten-thousandths nearest to it, the one
  // further from zero when two are as near.
  lemma GridIs(p: Predicate)
    ensures var units, x := ConditionOf(p).units as real, 10000.0 * p.threshold;
            && -0.5 <= x - units <= 0.5
            && (x - units == 0.5 ==> x < 0.0) && (x - units == -0.5 ==> x >= 0.0)
  {
    var x := p.threshold * 10000.0;
    assert 10000.0 * p.threshold == x;
  }
}
