// Indicator arithmetic over chronological bars and closes.
module Indicators {
  import opened Prelude
  import opened Market
  import opened Arith

  // ---- slope sign ----------------------------------------------------------

  function MeanIndex(n: nat): real {
    (n as real - 1.0) / 2.0
  }

  // Index deviations i - mx, and their products with height deviations.
  function IndexTerms(n: nat, mx: real): (r: seq<real>)
    ensures |r| == n
  {
    seq(n, i => i as real - mx)
  }

  function CrossTerms(ys: seq<real>, mx: real, my: real): (r: seq<real>)
    ensures |r| == |ys|
  {
    seq(|ys|, i requires 0 <= i < |ys| => (i as real - mx) * (ys[i] - my))
  }

  function SlopeNumerator(ys: seq<real>): real
    requires ys != []
  {
    Sum(CrossTerms(ys, MeanIndex(|ys|), Mean(ys)))
  }

  function SignOf(x: real): real {
    if x > 0.0 then 1.0 else if x < 0.0 then -1.0 else 0.0
  }

  function SlopeSign(ys: seq<real>): real {
    if |ys| < 2 then 0.0 else SignOf(SlopeNumerator(ys))
  }

  method ComputeSlopeSign(ys: seq<real>) returns (r: real)
    ensures r == SlopeSign(ys)
    ensures |ys| >= 2 && Rising(ys) ==> r == 1.0
    ensures |ys| >= 2 && Falling(ys) ==> r == -1.0
  {
    if |ys| < 2 {
      return 0.0;
    }
    var meanX, meanY := MeanIndex(|ys|), Mean(ys);
    ghost var terms := CrossTerms(ys, meanX, meanY);
    var num := 0.0;
    for i := 0 to |ys|
      invariant num == Sum(terms[..i])
    {
      SumSnoc(terms, i);
      num := num + (i as real - meanX) * (ys[i] - meanY);
    }
    assert terms[..|ys|] == terms;
    if Rising(ys) {
      RisingSlope(ys);
    }
    if Falling(ys) {
      FallingSlope(ys);
    }
    r := SignOf(num);
  }

  ghost predicate Rising(ys: seq<real>) {
    forall i, j :: 0 <= i < j < |ys| ==> ys[i] < ys[j]
  }

  ghost predicate Falling(ys: seq<real>) {
    forall i, j :: 0 <= i < j < |ys| ==> ys[i] > ys[j]
  }

  lemma {:induction false} IndexSumClosed(n: nat, mx: real)
    ensures 2.0 * Sum(IndexTerms(n, mx)) == n as real * (n as real - 1.0 - 2.0 * mx)
  {
    if n > 0 {
      IndexSumClosed(n - 1, mx);
      assert IndexTerms(n, mx)[..n - 1] == IndexTerms(n - 1, mx);
      IndexSumStep((n - 1) as real, mx);
    }
  }

  lemma IndexSumStep(c: real, mx: real)
    ensures (c + 1.0) * (c - 2.0 * mx) == c * (c - 1.0 - 2.0 * mx) + 2.0 * (c - mx)
  {
  }

  // Index deviations from their mean cancel.
  lemma IndexSumZero(n: nat)
    ensures Sum(IndexTerms(n, MeanIndex(n))) == 0.0
  {
    IndexSumClosed(n, MeanIndex(n));
    assert n as real - 1.0 - 2.0 * MeanIndex(n) == 0.0;
  }

  lemma CrossTermShift(ys: seq<real>, mx: real, my: real, c: real, i: nat)
    requires i < |ys|
    ensures CrossTerms(ys, mx, my)[i]
         == CrossTerms(ys, mx, c)[i] + Scaled(c - my, IndexTerms(|ys|, mx))[i]
  {
    hide CrossTerms, IndexTerms, Scaled;
    CrossTermAt(ys, mx, my, i);
    CrossTermAt(ys, mx, c, i);
    ScaledAt(c - my, IndexTerms(|ys|, mx), i);
    ShiftProduct(IndexTerms(|ys|, mx)[i], ys[i], my, c);
  }

  lemma ShiftProduct(u: real, y: real, my: real, c: real)
    ensures u * (y - my) == u * (y - c) + (c - my) * u
  {
    Distribute(u, y - c, c - my);
  }

  lemma ScaledAt(c: real, xs: seq<real>, i: nat)
    requires i < |xs|
    ensures Scaled(c, xs)[i] == c * xs[i]
  {
  }

  // The numerator may be taken about any height.
  lemma NumeratorAbout(ys: seq<real>, c: real)
    requires ys != []
    ensures SlopeNumerator(ys) == Sum(CrossTerms(ys, MeanIndex(|ys|), c))
  {
    hide CrossTerms, IndexTerms, Scaled, MeanIndex, Mean;
    var n, mx, my := |ys|, MeanIndex(|ys|), Mean(ys);
    var shift := Scaled(c - my, IndexTerms(n, mx));
    SumScaled(c - my, IndexTerms(n, mx));
    IndexSumZero(n);
    forall i | 0 <= i < n
      ensures CrossTerms(ys, mx, my)[i] == Plus(CrossTerms(ys, mx, c), shift)[i]
    {
      CrossTermShift(ys, mx, my, c, i);
    }
    assert CrossTerms(ys, mx, my) == Plus(CrossTerms(ys, mx, c), shift);
    SumPlus(CrossTerms(ys, mx, c), shift);
  }

  // About the height at the middle index no term is negative, and later ones are positive.
  lemma RisingTerm(ys: seq<real>, i: nat)
    requires Rising(ys) && i < |ys|
    ensures var t := CrossTerms(ys, MeanIndex(|ys|), ys[(|ys| - 1) / 2])[i];
            t >= 0.0 && (i > (|ys| - 1) / 2 ==> t > 0.0)
  {
    MiddleIndex(|ys|, i);
    CrossTermAt(ys, MeanIndex(|ys|), ys[(|ys| - 1) / 2], i);
    assert IndexTerms(|ys|, MeanIndex(|ys|))[i] == i as real - MeanIndex(|ys|);
    hide MeanIndex, IndexTerms, CrossTerms;
    SignedTerm(i as real - MeanIndex(|ys|), ys[i] - ys[(|ys| - 1) / 2],
               CrossTerms(ys, MeanIndex(|ys|), ys[(|ys| - 1) / 2])[i]);
  }

  lemma SignedTerm(u: real, d: real, t: real)
    requires t == u * d && ((u >= 0.0 && d >= 0.0) || (u <= 0.0 && d <= 0.0))
    ensures t >= 0.0 && (u != 0.0 && d != 0.0 ==> t > 0.0)
  {
    SameSignProduct(u, d);
  }

  lemma RisingSlope(ys: seq<real>)
    requires |ys| >= 2 && Rising(ys)
    ensures SlopeNumerator(ys) > 0.0
  {
    var terms := CrossTerms(ys, MeanIndex(|ys|), ys[(|ys| - 1) / 2]);
    NumeratorAbout(ys, ys[(|ys| - 1) / 2]);
    forall i | 0 <= i < |ys| ensures terms[i] >= 0.0 {
      RisingTerm(ys, i);
    }
    SumNonNegative(terms);
    RisingTerm(ys, |ys| - 1);
  }

  lemma MiddleIndex(n: nat, i: nat)
    requires n > 0
    ensures i <= (n - 1) / 2 ==> i as real <= MeanIndex(n)
    ensures i > (n - 1) / 2 ==> i as real > MeanIndex(n)
  {
    assert 2.0 * MeanIndex(n) == n as real - 1.0;
  }

  function Affine(ys: seq<real>, a: real, b: real): (r: seq<real>)
    ensures |r| == |ys|
  {
    seq(|ys|, i requires 0 <= i < |ys| => a * ys[i] + b)
  }

  lemma AffineTerm(a: real, b: real, u: real, y: real, my: real, y': real, my': real, t: real, t': real)
    requires y' == a * y + b && my' == a * my + b && t == u * (y - my) && t' == u * (y' - my')
    ensures t' == a * t
  {
    Distribute(a, y - my, my);
    Associate(u, a, y - my);
  }

  lemma AffineAt(ys: seq<real>, a: real, b: real, i: nat)
    requires i < |ys|
    ensures Affine(ys, a, b)[i] == a * ys[i] + b
  {
  }

  lemma AffineCrossTerm(ys: seq<real>, a: real, b: real, mx: real, my: real, my': real, i: nat)
    requires i < |ys| && my' == a * my + b
    ensures CrossTerms(Affine(ys, a, b), mx, my')[i] == Scaled(a, CrossTerms(ys, mx, my))[i]
  {
    hide CrossTerms, IndexTerms, Scaled, Affine;
    AffineAt(ys, a, b, i);
    CrossTermAt(Affine(ys, a, b), mx, my', i);
    CrossTermAt(ys, mx, my, i);
    ScaledAt(a, CrossTerms(ys, mx, my), i);
    AffineTerm(a, b, IndexTerms(|ys|, mx)[i], ys[i], my, Affine(ys, a, b)[i], my',
               CrossTerms(ys, mx, my)[i], CrossTerms(Affine(ys, a, b), mx, my')[i]);
  }

  lemma NumeratorAffine(ys: seq<real>, a: real, b: real)
    requires ys != []
    ensures SlopeNumerator(Affine(ys, a, b)) == a * SlopeNumerator(ys)
  {
    var mx, my := MeanIndex(|ys|), Mean(ys);
    var my' := a * my + b;
    var moved := CrossTerms(Affine(ys, a, b), mx, my');
    var scaled := Scaled(a, CrossTerms(ys, mx, my));
    NumeratorAbout(Affine(ys, a, b), my');
    hide SlopeNumerator, CrossTerms, Scaled, Affine, Sum, Mean, MeanIndex;
    forall i | 0 <= i < |ys| ensures moved[i] == scaled[i] {
      AffineCrossTerm(ys, a, b, mx, my, my', i);
    }
    assert moved == scaled;
    SumScaled(a, CrossTerms(ys, mx, my));
  }

  // Adding a constant or scaling by a positive factor keeps the sign; reflecting flips it.
  lemma SlopeSignAffine(ys: seq<real>, a: real, b: real)
    ensures a > 0.0 ==> SlopeSign(Affine(ys, a, b)) == SlopeSign(ys)
    ensures a < 0.0 ==> SlopeSign(Affine(ys, a, b)) == -SlopeSign(ys)
  {
    if |ys| >= 2 {
      NumeratorAffine(ys, a, b);
      SignOfProduct(a, SlopeNumerator(ys));
    }
  }

  lemma SignOfProduct(a: real, x: real)
    ensures a > 0.0 ==> SignOf(a * x) == SignOf(x)
    ensures a < 0.0 ==> SignOf(a * x) == -SignOf(x)
  {
    if a > 0.0 {
      ProductSigns(x, a);
    } else if a < 0.0 {
      ProductSigns(x, -a);
    }
  }

  lemma FallingSlope(ys: seq<real>)
    requires |ys| >= 2 && Falling(ys)
    ensures SlopeNumerator(ys) < 0.0
  {
    RisingSlope(Affine(ys, -1.0, 0.0));
    NumeratorAffine(ys, -1.0, 0.0);
  }

  // ---- the slope sign is the sign of the least-squares slope -----------------

  function Residuals(ys: seq<real>, a: real, b: real): (r: seq<real>)
    ensures |r| == |ys|
  {
    seq(|ys|, i requires 0 <= i < |ys| => ys[i] - a - b * i as real)
  }

  function Products(xs: seq<real>, ys: seq<real>): (r: seq<real>)
    requires |xs| == |ys|
    ensures |r| == |xs|
  {
    seq(|xs|, i requires 0 <= i < |xs| => xs[i] * ys[i])
  }

  // Squared error of the line a + b * i.
  function SquaredError(ys: seq<real>, a: real, b: real): real {
    Sum(Products(Residuals(ys, a, b), Residuals(ys, a, b)))
  }

  function IndexSquares(n: nat): real {
    Sum(Products(IndexTerms(n, MeanIndex(n)), IndexTerms(n, MeanIndex(n))))
  }

  lemma IndexSquaresPositive(n: nat)
    requires n >= 2
    ensures IndexSquares(n) > 0.0
  {
    var u := IndexTerms(n, MeanIndex(n));
    var p := Products(u, u);
    forall i | 0 <= i < n ensures p[i] >= 0.0 {
      SquareNonNegative(u[i], p[i]);
    }
    SumNonNegative(p);
    assert u[0] != 0.0;
    NonZeroSquare(u[0], p[0]);
  }

  function BestSlope(ys: seq<real>): real
    requires |ys| >= 2
  {
    IndexSquaresPositive(|ys|);
    SlopeNumerator(ys) / IndexSquares(|ys|)
  }

  function BestIntercept(ys: seq<real>): real
    requires |ys| >= 2
  {
    Mean(ys) - BestSlope(ys) * MeanIndex(|ys|)
  }

  function BestResiduals(ys: seq<real>): (r: seq<real>)
    requires |ys| >= 2
    ensures |r| == |ys|
  {
    Residuals(ys, BestIntercept(ys), BestSlope(ys))
  }

  // About the means the best line has no intercept: r[i] + slope * u[i] == ys[i] - mean.
  lemma BestResidualAt(ys: seq<real>, i: nat)
    requires |ys| >= 2 && i < |ys|
    ensures ys[i] - Mean(ys)
         == BestResiduals(ys)[i] + BestSlope(ys) * IndexTerms(|ys|, MeanIndex(|ys|))[i]
  {
    Distribute(BestSlope(ys), i as real - MeanIndex(|ys|), MeanIndex(|ys|));
  }

  lemma {:induction false} DeviationsCancel(ys: seq<real>, c: real)
    ensures Sum(Affine(ys, 1.0, -c)) == Sum(ys) - |ys| as real * c
  {
    if ys != [] {
      var n := |ys| - 1;
      DeviationsCancel(ys[..n], c);
      assert Affine(ys, 1.0, -c)[..n] == Affine(ys[..n], 1.0, -c);
      Distribute(c, n as real, 1.0);
    }
  }

  lemma DeviationsSplit(ys: seq<real>)
    requires |ys| >= 2
    ensures Affine(ys, 1.0, -Mean(ys))
         == Plus(BestResiduals(ys), Scaled(BestSlope(ys), IndexTerms(|ys|, MeanIndex(|ys|))))
  {
    hide MeanIndex, Mean, BestResiduals, BestSlope;
    var tilt := Scaled(BestSlope(ys), IndexTerms(|ys|, MeanIndex(|ys|)));
    forall i | 0 <= i < |ys|
      ensures Affine(ys, 1.0, -Mean(ys))[i] == Plus(BestResiduals(ys), tilt)[i]
    {
      BestResidualAt(ys, i);
    }
  }

  // The best residuals sum to zero and are orthogonal to the index deviations.
  lemma BestResidualsSum(ys: seq<real>)
    requires |ys| >= 2
    ensures Sum(BestResiduals(ys)) == 0.0
  {
    hide IndexTerms, Scaled, MeanIndex, BestResiduals, BestSlope, Plus, Affine;
    var u := IndexTerms(|ys|, MeanIndex(|ys|));
    DeviationsSplit(ys);
    SumScaled(BestSlope(ys), u);
    SumPlus(BestResiduals(ys), Scaled(BestSlope(ys), u));
    IndexSumZero(|ys|);
    DeviationsCancel(ys, Mean(ys));
    QuotientTimes(Sum(ys), |ys| as real);
  }

  lemma CrossTermSplit(ys: seq<real>, i: nat)
    requires |ys| >= 2 && i < |ys|
    ensures var u := IndexTerms(|ys|, MeanIndex(|ys|));
            CrossTerms(ys, MeanIndex(|ys|), Mean(ys))[i]
            == Products(u, BestResiduals(ys))[i] + Scaled(BestSlope(ys), Products(u, u))[i]
  {
    hide BestResiduals, BestSlope, MeanIndex, Mean, IndexTerms, CrossTerms, Products, Scaled;
    var us := IndexTerms(|ys|, MeanIndex(|ys|));
    BestResidualAt(ys, i);
    CrossTermAt(ys, MeanIndex(|ys|), Mean(ys), i);
    ScaledSquareAt(BestSlope(ys), us, i);
    ProductAt(us, BestResiduals(ys), i);
    SplitProduct(us[i], ys[i] - Mean(ys), BestResiduals(ys)[i], BestSlope(ys));
  }

  lemma CrossTermAt(ys: seq<real>, mx: real, my: real, i: nat)
    requires i < |ys|
    ensures CrossTerms(ys, mx, my)[i] == IndexTerms(|ys|, mx)[i] * (ys[i] - my)
  {
  }

  lemma ProductAt(xs: seq<real>, ys: seq<real>, i: nat)
    requires i < |xs| == |ys|
    ensures Products(xs, ys)[i] == xs[i] * ys[i]
  {
  }

  lemma ScaledSquareAt(c: real, xs: seq<real>, i: nat)
    requires i < |xs|
    ensures Scaled(c, Products(xs, xs))[i] == c * (xs[i] * xs[i])
  {
    ProductAt(xs, xs, i);
    ScaledAt(c, Products(xs, xs), i);
    hide Products, Scaled;
  }

  lemma SplitProduct(u: real, y: real, r: real, b: real)
    requires y == r + b * u
    ensures u * y == u * r + b * (u * u)
  {
    Distribute(u, r, b * u);
    Associate(u, b, u);
  }

  lemma BestResidualsOrthogonal(ys: seq<real>)
    requires |ys| >= 2
    ensures Sum(Products(IndexTerms(|ys|, MeanIndex(|ys|)), BestResiduals(ys))) == 0.0
  {
    hide CrossTerms, IndexTerms, Products, Scaled, MeanIndex, Mean;
    var u, r := IndexTerms(|ys|, MeanIndex(|ys|)), BestResiduals(ys);
    var cross := CrossTerms(ys, MeanIndex(|ys|), Mean(ys));
    var tilt := Scaled(BestSlope(ys), Products(u, u));
    SumScaled(BestSlope(ys), Products(u, u));
    IndexSquaresPositive(|ys|);
    QuotientTimes(SlopeNumerator(ys), IndexSquares(|ys|));
    forall i | 0 <= i < |ys| ensures cross[i] == Plus(Products(u, r), tilt)[i] {
      CrossTermSplit(ys, i);
    }
    assert cross == Plus(Products(u, r), tilt);
    SumPlus(Products(u, r), tilt);
  }

  // How far another line lies from the best one at each index.
  function Gaps(ys: seq<real>, a: real, b: real): (r: seq<real>)
    requires |ys| >= 2
    ensures |r| == |ys|
  {
    seq(|ys|, i requires 0 <= i < |ys| =>
      (b - BestSlope(ys)) * (i as real - MeanIndex(|ys|)) + (a + b * MeanIndex(|ys|) - Mean(ys)))
  }

  lemma GapAt(ys: seq<real>, a: real, b: real, i: nat)
    requires |ys| >= 2 && i < |ys|
    ensures Residuals(ys, a, b)[i] == BestResiduals(ys)[i] - Gaps(ys, a, b)[i]
  {
    hide BestSlope, MeanIndex, Mean;
    GapArithmetic(ys[i], a, b, BestSlope(ys), i as real, MeanIndex(|ys|), Mean(ys));
  }

  // One line's residual is the best one's less the gap between the lines.
  lemma GapArithmetic(y: real, a: real, b: real, best: real, x: real, m: real, mean: real)
    ensures y - a - b * x == y - (mean - best * m) - best * x - ((b - best) * (x - m) + (a + b * m - mean))
  {
    Distribute(b - best, x, -m);
  }

  lemma GapProduct(delta: real, d: real, u: real, r: real)
    ensures (delta * u + d) * r == delta * (u * r) + d * r
  {
  }

  lemma GapTerm(ys: seq<real>, a: real, b: real, i: nat)
    requires |ys| >= 2 && i < |ys|
    ensures var u, r := IndexTerms(|ys|, MeanIndex(|ys|)), BestResiduals(ys);
            Products(Gaps(ys, a, b), r)[i]
            == Scaled(b - BestSlope(ys), Products(u, r))[i] + Scaled(a + b * MeanIndex(|ys|) - Mean(ys), r)[i]
  {
    hide BestResiduals, BestSlope, MeanIndex, Mean;
    GapProduct(b - BestSlope(ys), a + b * MeanIndex(|ys|) - Mean(ys),
               i as real - MeanIndex(|ys|), BestResiduals(ys)[i]);
  }

  lemma GapProductsSplit(ys: seq<real>, a: real, b: real)
    requires |ys| >= 2
    ensures var u, r := IndexTerms(|ys|, MeanIndex(|ys|)), BestResiduals(ys);
            Products(Gaps(ys, a, b), r)
            == Plus(Scaled(b - BestSlope(ys), Products(u, r)), Scaled(a + b * MeanIndex(|ys|) - Mean(ys), r))
  {
    hide Gaps, IndexTerms, Products, Scaled, MeanIndex, Mean, BestResiduals, BestSlope;
    forall i | 0 <= i < |ys| {
      GapTerm(ys, a, b, i);
    }
  }

  lemma GapsOrthogonal(ys: seq<real>, a: real, b: real)
    requires |ys| >= 2
    ensures Sum(Products(Gaps(ys, a, b), BestResiduals(ys))) == 0.0
  {
    hide Gaps, IndexTerms, Products, Scaled, MeanIndex, Mean, BestResiduals, BestSlope, Plus;
    var u, r := IndexTerms(|ys|, MeanIndex(|ys|)), BestResiduals(ys);
    var delta, d := b - BestSlope(ys), a + b * MeanIndex(|ys|) - Mean(ys);
    GapProductsSplit(ys, a, b);
    BestResidualsSum(ys);
    BestResidualsOrthogonal(ys);
    SumScaled(delta, Products(u, r));
    SumScaled(d, r);
    SumPlus(Scaled(delta, Products(u, r)), Scaled(d, r));
  }

  lemma SquareOfDifference(r: real, w: real)
    ensures (r - w) * (r - w) == r * r + (w * w - 2.0 * (w * r))
  {
  }

  lemma SquaredResidual(ys: seq<real>, a: real, b: real, i: nat)
    requires |ys| >= 2 && i < |ys|
    ensures var r, w, e := BestResiduals(ys), Gaps(ys, a, b), Residuals(ys, a, b);
            Products(e, e)[i] == Products(r, r)[i] + (Products(w, w)[i] + Scaled(-2.0, Products(w, r))[i])
  {
    GapAt(ys, a, b, i);
    SquareOfDifference(BestResiduals(ys)[i], Gaps(ys, a, b)[i]);
  }

  // Any other line costs exactly its squared distance from the best one more.
  lemma ErrorExcess(ys: seq<real>, a: real, b: real)
    requires |ys| >= 2
    ensures SquaredError(ys, a, b) == SquaredError(ys, BestIntercept(ys), BestSlope(ys))
                                     + Sum(Products(Gaps(ys, a, b), Gaps(ys, a, b)))
  {
    var r, w, e := BestResiduals(ys), Gaps(ys, a, b), Residuals(ys, a, b);
    var twice := Scaled(-2.0, Products(w, r));
    var excess := Plus(Products(w, w), twice);
    GapsOrthogonal(ys, a, b);
    SumScaled(-2.0, Products(w, r));
    SumPlus(Products(w, w), twice);
    forall i | 0 <= i < |ys| ensures Products(e, e)[i] == Plus(Products(r, r), excess)[i] {
      SquaredResidual(ys, a, b, i);
    }
    assert Products(e, e) == Plus(Products(r, r), excess);
    SumPlus(Products(r, r), excess);
  }

  lemma SquaresSum(w: seq<real>, i: nat)
    requires i < |w|
    ensures Sum(Products(w, w)) >= 0.0
    ensures Sum(Products(w, w)) == 0.0 ==> w[i] == 0.0
  {
    var p := Products(w, w);
    forall j | 0 <= j < |w| ensures p[j] >= 0.0 {
      SquareNonNegative(w[j], p[j]);
    }
    SumNonNegative(p);
    assert p[i] <= Sum(p);
    if w[i] != 0.0 {
      NonZeroSquare(w[i], p[i]);
    }
  }

  lemma GapsVanish(ys: seq<real>, a: real, b: real)
    requires |ys| >= 2
    requires Gaps(ys, a, b)[0] == 0.0 && Gaps(ys, a, b)[1] == 0.0
    ensures b == BestSlope(ys)
  {
    Distribute(b - BestSlope(ys), 0.0 - MeanIndex(|ys|), 1.0);
  }

  // SlopeSign is the sign of the slope of the one line of least squared error.
  lemma SlopeSignIsLeastSquares(ys: seq<real>, a: real, b: real)
    requires |ys| >= 2
    ensures SlopeSign(ys) == SignOf(BestSlope(ys))
    ensures SquaredError(ys, BestIntercept(ys), BestSlope(ys)) <= SquaredError(ys, a, b)
    ensures SquaredError(ys, BestIntercept(ys), BestSlope(ys)) == SquaredError(ys, a, b) ==> b == BestSlope(ys)
  {
    ErrorExcess(ys, a, b);
    SquaresSum(Gaps(ys, a, b), 0);
    SquaresSum(Gaps(ys, a, b), 1);
    if SquaredError(ys, BestIntercept(ys), BestSlope(ys)) == SquaredError(ys, a, b) {
      GapsVanish(ys, a, b);
    }
    IndexSquaresPositive(|ys|);
    QuotientTimes(SlopeNumerator(ys), IndexSquares(|ys|));
    SignOfProduct(IndexSquares(|ys|), BestSlope(ys));
  }
}
