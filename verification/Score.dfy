// The out-of-sample scoreboard: survivors, promotability and the Wilson bound behind it.
module Score {
  import opened Prelude
  import opened Arith
  import opened Market
  import opened Genomes

  const MIN_ENTRIES_TO_VALIDATE := 40
  const MIN_ACTED_TO_PROMOTE := 8
  const WILSON_Z_95 := 1.96
  const MIN_PROMOTE_PRECISION_LB := 0.45
  const MIN_LIVE_PRECISION := 0.40

  const DSR_MIN := 0.0
  const PBO_MAX := 0.5
  const OOS_EXPECTANCY_MIN := 0.0
  const MIN_POSITIVE_REGIMES := 2

  // The gate a validation has to pass.
  predicate PromotionGate(dsr: real, pbo: real, expectancy: real, nRegimesPositive: int) {
    dsr > DSR_MIN && pbo < PBO_MAX && expectancy > OOS_EXPECTANCY_MIN && nRegimesPositive >= MIN_POSITIVE_REGIMES
  }

  type I64 = x: int | -0x8000_0000_0000_0000 <= x < 0x8000_0000_0000_0000

  datatype OosScore = OosScore(
    dsr: real, pbo: real, expectancy: real, nRegimesPositive: int, passedGate: bool,
    precision: real, nActed: I64)
  {
    predicate IsSurvivor() {
      passedGate || (expectancy > 0.0 && dsr > 0.0 && pbo < 0.5)
    }
  }

  // ---- the Wilson lower bound ----------------------------------------------------

  // What the bound takes the square root of.
  function Radicand(p: real, n: int, z: real): real
    requires n > 0
  {
    var q := Clamp(p, 0.0, 1.0);
    var count := n as real;
    q * (1.0 - q) / count + z * z / (4.0 * count * count)
  }

  ghost predicate IsRoot(root: real, p: real, n: int, z: real) {
    n > 0 ==> root >= 0.0 && root * root == Radicand(p, n, z)
  }

  // The unclamped bound.
  function WilsonRaw(p: real, n: int, z: real, root: real): real
    requires n > 0
  {
    var q := Clamp(p, 0.0, 1.0);
    var count := n as real;
    (q + z * z / (2.0 * count) - z * root) / (1.0 + z * z / count)
  }

  // `root` stands for the square root of the radicand.
  function WilsonLowerBound(p: real, n: int, z: real, root: real): real {
    if n <= 0 then 0.0 else Clamp(WilsonRaw(p, n, z, root), 0.0, 1.0)
  }

  // How far (p - x)^2 exceeds k x (1 - x): the squared distance from p against k times the
  // variance at x. With k = z^2 / n it is what the score test compares.
  function Excess(p: real, k: real, x: real): real {
    (p - x) * (p - x) - k * (x * (1.0 - x))
  }

  function SquaredErrors(z: real, n: int): real
    requires n > 0
  {
    z * z / n as real
  }

  // The quadratic Excess(p, k, x) == 0 in the form the proofs use: d = 1 + k, c = p + k / 2,
  // and m the half-width, so that its roots are (c - m) / d and (c + m) / d.
  ghost predicate Quadratic(p: real, k: real, c: real, d: real, m: real) {
    && 0.0 <= p <= 1.0 && k >= 0.0 && c == p + k / 2.0 && d == 1.0 + k && m >= 0.0
    && m * m == k * (p * (1.0 - p)) + k * k / 4.0
  }

  lemma Discriminant(p: real, k: real, c: real, d: real, m: real)
    requires Quadratic(p, k, c, d, m)
    ensures m * m == c * c - d * (p * p)
  {
    assert c * c == p * p + p * k + k * k / 4.0;
    assert d * (p * p) == p * p + k * (p * p);
    assert k * (p * (1.0 - p)) == k * p - k * (p * p);
  }

  lemma HalfWidthCoversCentre(p: real, k: real, c: real, d: real, m: real)
    requires Quadratic(p, k, c, d, m)
    ensures m <= c
    ensures -m <= k / 2.0 - k * p <= m
  {
    var kp := k * p;
    NonNegativeProduct(p, p);
    NonNegativeProduct(d, p * p);
    Discriminant(p, k, c, d, m);
    RootOrder(m, c);
    var v := p * (1.0 - p);
    NonNegativeProduct(p, 1.0 - p);
    NonNegativeProduct(k, v);
    NonNegativeProduct(k, k);
    NonNegativeProduct(k * k, v);
    var e := k / 2.0 - kp;
    assert e * e == k * k / 4.0 - k * kp + kp * kp;
    assert (k * k) * v == k * kp - kp * kp;
    RootOrder(Abs(e), m);
  }

  lemma RootOrder(x: real, y: real)
    requires y >= 0.0 && x * x <= y * y
    ensures x <= y
  {
    if x > y {
      SquareShrinks(y, x);
    }
  }

  // The bound solves the quadratic, and no point between it and p satisfies the inequality.
  lemma LowerRoot(p: real, k: real, c: real, d: real, m: real, x: real)
    requires Quadratic(p, k, c, d, m) && x == (c - m) / d
    ensures 0.0 <= x <= p
    ensures Excess(p, k, x) == 0.0
  {
    HalfWidthCoversCentre(p, k, c, d, m);
    QuotientTimes(c - m, d);
    QuotientAbove(c - m, d, 0.0);
    assert d * p == p + k * p;
    QuotientBelow(c - m, d, p);
    LowerRootSolves(p, k, c, d, m, x);
  }

  lemma LowerRootSolves(p: real, k: real, c: real, d: real, m: real, x: real)
    requires Quadratic(p, k, c, d, m) && d * x == c - m
    ensures Excess(p, k, x) == 0.0
  {
    Discriminant(p, k, c, d, m);
    var g := Excess(p, k, x);
    CompletedSquare(p, k, c, d, x, g);
    assert d * x - c == -m;
    NegateBoth(m, m);
    assert d * g == 0.0;
    ProductSigns(g, d);
  }

  // d g = (d x - c)^2 - (c^2 - d p^2), where g is the quadratic's excess at x.
  lemma CompletedSquare(p: real, k: real, c: real, d: real, x: real, g: real)
    requires c == p + k / 2.0 && d == 1.0 + k && g == Excess(p, k, x)
    ensures d * g == (d * x - c) * (d * x - c) - (c * c - d * (p * p))
  {
    var xx, px, pp := x * x, p * x, p * p;
    assert k * (x * (1.0 - x)) == k * x - k * xx;
    assert g == pp - 2.0 * px + xx - k * x + k * xx;
    assert d * xx == xx + k * xx;
    assert 2.0 * (c * x) == 2.0 * px + k * x;
    assert g == d * xx - 2.0 * (c * x) + pp;
    var y := d * x;
    assert d * (d * xx) == y * y;
    assert d * (2.0 * (c * x)) == 2.0 * (c * y);
    Distribute(d, d * xx - 2.0 * (c * x), pp);
    Distribute(d, d * xx, -2.0 * (c * x));
    assert (y - c) * (y - c) == y * y - 2.0 * (c * y) + c * c;
  }

  // Below p, the points at or under the bound are exactly those far enough from p.
  lemma LowerRootSeparates(p: real, k: real, c: real, d: real, m: real, x: real, y: real)
    requires Quadratic(p, k, c, d, m) && x == (c - m) / d && y < p
    ensures y <= x <==> Excess(p, k, y) >= 0.0
  {
    var g, s := Excess(p, k, y), d * y - c;
    SquareGap(p, k, c, d, m, y, s, g);
    BeforeUpperRoot(p, k, c, d, m, y, s);
    BeforeLowerRoot(c, d, m, x, y, s);
    SignOfSquareGap(s, m, d, g);
  }

  lemma SquareGap(p: real, k: real, c: real, d: real, m: real, y: real, s: real, g: real)
    requires Quadratic(p, k, c, d, m) && s == d * y - c && g == Excess(p, k, y)
    ensures s * s - m * m == d * g
  {
    Discriminant(p, k, c, d, m);
    CompletedSquare(p, k, c, d, y, g);
  }

  lemma BeforeUpperRoot(p: real, k: real, c: real, d: real, m: real, y: real, s: real)
    requires Quadratic(p, k, c, d, m) && y < p && s == d * y - c
    ensures s < m
  {
    var dp, dy := d * p, d * y;
    assert dy < dp by {
      Distribute(d, p, -y);
      PositiveProductIs(d, p - y, d * (p - y));
    }
    assert dp == p + k * p;
    HalfWidthCoversCentre(p, k, c, d, m);
  }

  lemma BeforeLowerRoot(c: real, d: real, m: real, x: real, y: real, s: real)
    requires d > 0.0 && x == (c - m) / d && s == d * y - c
    ensures y <= x <==> s <= -m
  {
    QuotientTimes(c - m, d);
    Distribute(d, x, -y);
    ProductSigns(x - y, d);
  }

  lemma SignOfSquareGap(s: real, m: real, d: real, g: real)
    requires d > 0.0 && m >= 0.0 && s < m && s * s - m * m == d * g
    ensures s <= -m <==> g >= 0.0
  {
    ProductSigns(g, d);
    if s <= -m {
      RootGrows(m, -s);
      NegateBoth(s, s);
    } else {
      SquareShrinks(s, m);
    }
  }

  lemma RootGrows(x: real, y: real)
    requires 0.0 <= x <= y
    ensures x * x <= y * y
  {
    SquareMonotone(x, y);
  }

  lemma SquareShrinks(s: real, m: real)
    requires -m < s < m
    ensures s * s < m * m
  {
    PositiveProduct(m - s, m + s);
    assert (m - s) * (m + s) == m * m - s * s;
  }

  // The bound's formula is the lower root of the quadratic with k = z^2 / n.
  lemma FormulaIsQuadratic(q: real, count: real, zz: real, z: real, root: real, k: real)
    requires 0.0 <= q <= 1.0 && count > 0.0 && z >= 0.0 && zz == z * z && root >= 0.0 && k == zz / count
    requires root * root == q * (1.0 - q) / count + zz / (4.0 * count * count)
    ensures Quadratic(q, k, q + zz / (2.0 * count), 1.0 + k, z * root)
  {
    NonNegativeProduct(z, z);
    NonNegativeProduct(z, root);
    QuotientAbove(zz, count, 0.0);
    QuotientTimes(zz, count);
    HalfQuotient(zz, count, k);
    var v := q * (1.0 - q);
    ScaledQuotient(zz, count, k, v);
    QuarterQuotient(zz, count, k);
    var rr := root * root;
    assert (z * root) * (z * root) == zz * rr;
    Distribute(zz, v / count, zz / (4.0 * count * count));
  }

  lemma HalfQuotient(zz: real, count: real, k: real)
    requires count > 0.0 && zz == k * count
    ensures zz / (2.0 * count) == k / 2.0
  {
  }

  lemma ScaledQuotient(zz: real, count: real, k: real, v: real)
    requires count > 0.0 && zz == k * count
    ensures zz * (v / count) == k * v
  {
    var w := v / count;
    QuotientTimes(v, count);
    assert (k * count) * w == k * (count * w);
  }

  lemma QuarterQuotient(zz: real, count: real, k: real)
    requires count > 0.0 && zz == k * count
    ensures zz * (zz / (4.0 * count * count)) == k * k / 4.0
  {
    var cc := 4.0 * count * count;
    var square := count * count;
    assert cc == 4.0 * square;
    PositiveProductIs(count, count, square);
    var w := zz / cc;
    QuotientTimes(zz, cc);
    assert w * count * (4.0 * count) == k * count;
    CancelPositive(4.0 * (w * count), k, count);
    assert zz * w == k * (w * count);
  }

  lemma CancelPositive(a: real, b: real, c: real)
    requires c > 0.0 && a * c == b * c
    ensures a == b
  {
    Distribute(c, a, -b);
    ProductSigns(a - b, c);
    ProductSigns(b - a, c);
  }

  // The bound lies between zero and the observed proportion, solves
  // (p - x)^2 = (z^2 / n) x (1 - x), and its final clamp never bites.
  lemma WilsonIsLowerRoot(p: real, n: int, z: real, root: real)
    requires n > 0 && z >= 0.0 && IsRoot(root, p, n, z)
    ensures var x := WilsonLowerBound(p, n, z, root);
            var q := Clamp(p, 0.0, 1.0);
            && x == WilsonRaw(p, n, z, root)
            && 0.0 <= x <= q
            && Excess(q, SquaredErrors(z, n), x) == 0.0
  {
    var q, count, zz := Clamp(p, 0.0, 1.0), n as real, z * z;
    var k := zz / count;
    FormulaIsQuadratic(q, count, zz, z, root, k);
    LowerRoot(q, k, q + zz / (2.0 * count), 1.0 + k, z * root, WilsonRaw(p, n, z, root));
  }

  // A point below the observed proportion is at or under the bound exactly when it is at least
  // z standard errors away, the error being the point's own.
  lemma WilsonSeparates(p: real, n: int, z: real, root: real, y: real)
    requires n > 0 && z >= 0.0 && IsRoot(root, p, n, z) && y < Clamp(p, 0.0, 1.0)
    ensures y <= WilsonLowerBound(p, n, z, root) <==> Excess(Clamp(p, 0.0, 1.0), SquaredErrors(z, n), y) >= 0.0
  {
    var q, count, zz := Clamp(p, 0.0, 1.0), n as real, z * z;
    var k := zz / count;
    assert WilsonLowerBound(p, n, z, root) == WilsonRaw(p, n, z, root) by {
      WilsonIsLowerRoot(p, n, z, root);
    }
    FormulaIsQuadratic(q, count, zz, z, root, k);
    LowerRootSeparates(q, k, q + zz / (2.0 * count), 1.0 + k, z * root, WilsonRaw(p, n, z, root), y);
  }

  // More evidence and a better proportion never lower the bound.
  lemma WilsonMonotone(p: real, n: int, root: real, p': real, n': int, root': real, z: real)
    requires n <= n' && p <= p' && z >= 0.0 && IsRoot(root, p, n, z) && IsRoot(root', p', n', z)
    ensures WilsonLowerBound(p, n, z, root) <= WilsonLowerBound(p', n', z, root')
  {
    if n <= 0 {
      if n' > 0 {
        WilsonIsLowerRoot(p', n', z, root');
      }
      return;
    }
    var x := WilsonLowerBound(p, n, z, root);
    var q, q' := Clamp(p, 0.0, 1.0), Clamp(p', 0.0, 1.0);
    WilsonIsLowerRoot(p, n, z, root);
    WilsonIsLowerRoot(p', n', z, root');
    if x < q' {
      WilsonSeparates(p', n', z, root', x);
      ShareShrinks(z * z, n as real, n' as real) by {
        NonNegativeProduct(z, z);
      }
      ExcessGrows(q, q', SquaredErrors(z, n), SquaredErrors(z, n'), x);
    } else {
      BoundReachesProportion(p, n, root, n', root', z, p');
    }
  }

  lemma ShareShrinks(a: real, n: real, n': real)
    requires a >= 0.0 && 0.0 < n <= n'
    ensures 0.0 <= a / n' <= a / n
  {
    QuotientAbove(a, n', 0.0);
    QuotientAbove(a, n, 0.0);
    QuotientTimes(a, n);
    ScaleMonotone(a / n, n, n');
    QuotientBelow(a, n', a / n);
  }

  lemma ExcessGrows(p: real, p': real, k: real, k': real, x: real)
    requires 0.0 <= x <= p <= p' <= 1.0 && 0.0 <= k' <= k
    ensures Excess(p, k, x) <= Excess(p', k', x)
  {
    var v := x * (1.0 - x);
    NonNegativeProduct(x, 1.0 - x);
    RootGrows(p - x, p' - x);
    ScaleMonotone(v, k', k);
  }

  // The bound equals the proportion itself only when z or the proportion is zero.
  lemma BoundReachesProportion(p: real, n: int, root: real, n': int, root': real, z: real, p': real)
    requires 0 < n <= n' && z >= 0.0 && IsRoot(root, p, n, z) && IsRoot(root', p', n', z)
    requires Clamp(p, 0.0, 1.0) == Clamp(p', 0.0, 1.0)
    requires WilsonLowerBound(p, n, z, root) == Clamp(p, 0.0, 1.0)
    ensures Clamp(p, 0.0, 1.0) <= WilsonLowerBound(p', n', z, root')
  {
    var q := Clamp(p, 0.0, 1.0);
    WilsonIsLowerRoot(p', n', z, root');
    if q != 0.0 && z != 0.0 {
      ProportionNotReached(p, n, root, z);
      assert false;
    }
  }

  lemma ProportionNotReached(p: real, n: int, root: real, z: real)
    requires n > 0 && z > 0.0 && IsRoot(root, p, n, z) && Clamp(p, 0.0, 1.0) > 0.0
    ensures WilsonLowerBound(p, n, z, root) < Clamp(p, 0.0, 1.0)
  {
    var q, zz, count := Clamp(p, 0.0, 1.0), z * z, n as real;
    var k := zz / count;
    assert WilsonLowerBound(p, n, z, root) == WilsonRaw(p, n, z, root) by {
      WilsonIsLowerRoot(p, n, z, root);
    }
    FormulaIsQuadratic(q, count, zz, z, root, k);
    assert k > 0.0 by {
      NonZeroSquare(z, zz);
      QuotientTimes(zz, count);
      ProductSigns(k, count);
    }
    StrictlyBelow(q, k, q + zz / (2.0 * count), 1.0 + k, z * root, WilsonRaw(p, n, z, root));
  }

  lemma StrictlyBelow(p: real, k: real, c: real, d: real, m: real, x: real)
    requires Quadratic(p, k, c, d, m) && x == (c - m) / d && p > 0.0 && k > 0.0
    ensures x < p
  {
    LowerRoot(p, k, c, d, m, x);
    if p == 1.0 {
      QuotientTimes(c - m, d);
      assert c - m == p + k / 2.0 - m;
    } else {
      var v := p * (1.0 - p);
      PositiveProductIs(p, 1.0 - p, v);
      PositiveProductIs(k, v, k * v);
    }
  }

  // ---- promotion and the live floor -------------------------------------------------

  // A trigger or location condition makes a genome actionable.
  predicate Actionable(g: Genome) {
    exists p :: p in g.predicates && (p.layer == Trigger || p.layer == Location)
  }

  const TWO_TO_THE_31 := 0x8000_0000
  const TWO_TO_THE_32 := 0x1_0000_0000
  const TWO_TO_THE_64 := 0x1_0000_0000_0000_0000

  // A signed count read as an unsigned machine word.
  function AsUsize(n: I64): nat {
    if n < 0 then n + TWO_TO_THE_64 else n
  }

  // A count stored in a 32-bit column keeps its low word, read as signed.
  function StoredCount(n: int): (r: int)
    ensures -TWO_TO_THE_31 <= r < TWO_TO_THE_31
  {
    var low := n % TWO_TO_THE_32;
    if low < TWO_TO_THE_31 then low else low - TWO_TO_THE_32
  }

  // `root` is the square root the bound takes.
  predicate Promotable(g: Genome, s: OosScore, root: real) {
    && s.passedGate
    && Actionable(g)
    && AsUsize(s.nActed) >= MIN_ACTED_TO_PROMOTE
    && WilsonLowerBound(s.precision, s.nActed, WILSON_Z_95, root) >= MIN_PROMOTE_PRECISION_LB
  }

  // What the live signal path refuses: it reads back the stored count.
  predicate LiveRefuses(precision: real, stored: I64, root: real) {
    AsUsize(stored) >= MIN_ACTED_TO_PROMOTE
    && WilsonLowerBound(precision, stored, WILSON_Z_95, root) < MIN_LIVE_PRECISION
  }

  // On a score whose gate was taken on its own numbers the gate adds nothing to survival: it is
  // the two further regimes that promotion asks for.
  lemma GateAddsNothing(s: OosScore)
    requires s.passedGate <==> PromotionGate(s.dsr, s.pbo, s.expectancy, s.nRegimesPositive)
    ensures s.IsSurvivor() <==> s.expectancy > 0.0 && s.dsr > 0.0 && s.pbo < 0.5
    ensures s.passedGate <==> s.IsSurvivor() && s.nRegimesPositive >= 2
  {
  }

  // A promotable member survives, and its evidence is a genuine count of at least eight: a
  // negative count read as a huge word is caught by the bound.
  lemma PromotableSurvives(g: Genome, s: OosScore, root: real)
    requires Promotable(g, s, root)
    ensures s.IsSurvivor()
    ensures s.nActed >= MIN_ACTED_TO_PROMOTE && Actionable(g)
  {
  }

  // When the live path refuses a promotable score. The stored count is the low word of the acted
  // count: read as negative it is always refused, below eight never, and otherwise exactly when
  // the floor lies within z standard errors of the precision at that smaller count, which cannot
  // happen while the count fits 31 bits.
  lemma LiveFloorRefusesIff(g: Genome, s: OosScore, root: real, storedRoot: real)
    requires Promotable(g, s, root)
    requires IsRoot(root, s.precision, s.nActed, WILSON_Z_95)
    requires IsRoot(storedRoot, s.precision, StoredCount(s.nActed), WILSON_Z_95)
    ensures var low := s.nActed % TWO_TO_THE_32;
            LiveRefuses(s.precision, StoredCount(s.nActed), storedRoot) <==>
              || low >= TWO_TO_THE_31
              || (s.nActed >= TWO_TO_THE_32 && low >= MIN_ACTED_TO_PROMOTE
                  && Excess(Clamp(s.precision, 0.0, 1.0), SquaredErrors(WILSON_Z_95, low), MIN_LIVE_PRECISION) < 0.0)
    ensures s.nActed < TWO_TO_THE_31 ==> !LiveRefuses(s.precision, StoredCount(s.nActed), storedRoot)
  {
    hide WilsonLowerBound, Excess, SquaredErrors, IsRoot, Clamp;
    PromotableSurvives(g, s, root);
    var low := s.nActed % TWO_TO_THE_32;
    PromotablePrecision(g, s, root);
    if s.nActed < TWO_TO_THE_31 {
      assert StoredCount(s.nActed) == s.nActed;
      WilsonMonotone(s.precision, s.nActed, root, s.precision, s.nActed, storedRoot, WILSON_Z_95);
    } else if s.nActed < TWO_TO_THE_32 {
      assert low == s.nActed;
      NegativeCountBound(s.precision, StoredCount(s.nActed), storedRoot);
    } else if low < TWO_TO_THE_31 {
      assert StoredCount(s.nActed) == low;
      if low > 0 {
        WilsonSeparates(s.precision, low, WILSON_Z_95, storedRoot, MIN_LIVE_PRECISION);
      }
    } else {
      NegativeCountBound(s.precision, StoredCount(s.nActed), storedRoot);
    }
  }

  lemma PromotablePrecision(g: Genome, s: OosScore, root: real)
    requires Promotable(g, s, root) && IsRoot(root, s.precision, s.nActed, WILSON_Z_95)
    ensures MIN_LIVE_PRECISION < Clamp(s.precision, 0.0, 1.0)
  {
    hide WilsonRaw, IsRoot;
    PromotableSurvives(g, s, root);
    WilsonIsLowerRoot(s.precision, s.nActed, WILSON_Z_95, root);
  }

  lemma NegativeCountBound(p: real, n: int, root: real)
    requires n < 0
    ensures WilsonLowerBound(p, n, WILSON_Z_95, root) == 0.0
  {
  }

  // A perfect record over 2^31 acted trades is promotable and refused.
  lemma LiveFloorCanRefuse(g: Genome)
    requires Actionable(g)
    ensures exists s: OosScore, root: real, storedRoot: real ::
              && IsRoot(root, s.precision, s.nActed, WILSON_Z_95)
              && IsRoot(storedRoot, s.precision, StoredCount(s.nActed), WILSON_Z_95)
              && Promotable(g, s, root) && LiveRefuses(s.precision, StoredCount(s.nActed), storedRoot)
  {
    var s := OosScore(1.0, 0.0, 1.0, 2, true, 1.0, TWO_TO_THE_31);
    var root := WILSON_Z_95 / (2.0 * (TWO_TO_THE_31 as real));
    assert IsRoot(root, 1.0, TWO_TO_THE_31, WILSON_Z_95);
    assert WilsonLowerBound(1.0, TWO_TO_THE_31, WILSON_Z_95, root) >= MIN_PROMOTE_PRECISION_LB;
    assert Promotable(g, s, root);
    assert LiveRefuses(s.precision, StoredCount(s.nActed), 0.0);
  }
}
