// The pure detector arithmetic of the monitor, over exact reals.
module Detectors {
  import opened Prelude
  import opened Sorting
  import opened Arith

  // ---- expected shortfall ------------------------------------------------

  // How many of the worst outcomes the tail holds.
  function TailSize(n: nat, alpha: real): (k: nat)
    requires n > 0
    ensures 1 <= k <= n
  {
    CountFor(Share(n, alpha), n)
  }

  // The part of n that alpha, kept to [0, 1], comes to.
  function Share(n: nat, alpha: real): real {
    n as real * Clamp(alpha, 0.0, 1.0)
  }

  // x rounded up to a count between 1 and n.
  function CountFor(x: real, n: nat): (k: nat)
    requires n > 0
    ensures 1 <= k <= n
  {
    if Ceil(x) < 1 then 1 else MinNat(Ceil(x), n)
  }

  function Cvar(outcomes: seq<real>, alpha: real): Option<real> {
    if outcomes == [] then None
    else
      var k := TailSize(|outcomes|, alpha);
      Some(Sum(SortAscending(outcomes)[..k]) / k as real)
  }

  // A choice of k positions of an n-long sequence.
  ghost predicate Choice(chosen: set<int>, k: nat, n: nat) {
    |chosen| == k && forall i :: i in chosen ==> 0 <= i < n
  }

  ghost function SumAt(xs: seq<real>, chosen: set<int>): real {
    if xs == [] then 0.0
    else
      var n := |xs| - 1;
      SumAt(xs[..n], chosen - {n}) + (if n in chosen then xs[n] else 0.0)
  }

  // The part of x lying under t, counted negatively.
  ghost function Shortfall(t: real): real -> real {
    x => if x < t then x - t else 0.0
  }

  ghost function Below(t: real): real -> real {
    x => if x < t then 1.0 else 0.0
  }

  ghost function AtMost(t: real): real -> real {
    x => if x <= t then 1.0 else 0.0
  }

  // k copies of t added up.
  ghost function Times(k: nat, t: real): real {
    if k == 0 then 0.0 else Times(k - 1, t) + t
  }

  lemma {:induction false} TimesIsProduct(k: nat, t: real)
    ensures Times(k, t) == k as real * t
  {
    if k > 0 {
      TimesIsProduct(k - 1, t);
      OneMore((k - 1) as real, t);
      assert k as real == (k - 1) as real + 1.0;
    }
  }

  lemma OneMore(c: real, t: real)
    ensures (c + 1.0) * t == c * t + t
  {
  }

  lemma {:induction false} TimesMonotone(k: nat, t: real, u: real)
    requires t <= u
    ensures Times(k, t) <= Times(k, u)
  {
    if k > 0 {
      TimesMonotone(k - 1, t, u);
    }
  }

  lemma ChoiceSize(chosen: set<int>, n: int)
    ensures |chosen| == |chosen - {n}| + (if n in chosen then 1 else 0)
  {
    if n in chosen {
      assert chosen == (chosen - {n}) + {n};
    } else {
      assert chosen - {n} == chosen;
    }
  }

  lemma {:induction false} ChosenAtLeastShortfall(xs: seq<real>, chosen: set<int>, t: real)
    requires Choice(chosen, |chosen|, |xs|)
    ensures SumAt(xs, chosen) - Times(|chosen|, t) >= SumBy(xs, Shortfall(t))
  {
    if xs == [] {
      assert forall i :: i !in chosen;
      assert chosen == {};
    } else {
      var n := |xs| - 1;
      ChosenAtLeastShortfall(xs[..n], chosen - {n}, t);
      ChoiceSize(chosen, n);
    }
  }

  lemma {:induction false} AllBelowSums(xs: seq<real>, t: real)
    requires forall i :: 0 <= i < |xs| ==> xs[i] <= t
    ensures SumBy(xs, Shortfall(t)) == Sum(xs) - Times(|xs|, t)
    ensures SumBy(xs, AtMost(t)) == |xs| as real
  {
    if xs != [] {
      AllBelowSums(xs[..|xs| - 1], t);
    }
  }

  lemma {:induction false} NoneBelowSums(xs: seq<real>, t: real)
    requires forall i :: 0 <= i < |xs| ==> t <= xs[i]
    ensures SumBy(xs, Shortfall(t)) == 0.0
    ensures SumBy(xs, Below(t)) == 0.0
  {
    if xs != [] {
      NoneBelowSums(xs[..|xs| - 1], t);
    }
  }

  lemma {:induction false} BelowCounts(xs: seq<real>, t: real)
    ensures 0.0 <= SumBy(xs, Below(t)) <= SumBy(xs, AtMost(t)) <= |xs| as real
  {
    if xs != [] {
      BelowCounts(xs[..|xs| - 1], t);
    }
  }

  lemma {:induction false} CountAtMost(xs: seq<real>, t: real) returns (m: nat)
    ensures SumBy(xs, AtMost(t)) == m as real
  {
    if xs == [] {
      m := 0;
    } else {
      m := CountAtMost(xs[..|xs| - 1], t);
      m := if xs[|xs| - 1] <= t then m + 1 else m;
    }
  }

  lemma SumBySplit(s: seq<real>, k: nat, f: real -> real)
    requires k <= |s|
    ensures SumBy(s, f) == SumBy(s[..k], f) + SumBy(s[k..], f)
  {
    SumByConcat(s[..k], s[k..], f);
    assert s == s[..k] + s[k..];
  }

  // The k smallest, measured against the k-th smallest value.
  lemma SortedShortfall(s: seq<real>, k: nat, t: real)
    requires Ascending(s) && 1 <= k <= |s| && t == s[k - 1]
    ensures SumBy(s, Shortfall(t)) == Sum(s[..k]) - Times(k, t)
  {
    AllBelowSums(s[..k], t);
    NoneBelowSums(s[k..], t);
    SumBySplit(s, k, Shortfall(t));
  }

  lemma SortedCounts(s: seq<real>, k: nat, t: real)
    requires Ascending(s) && 1 <= k <= |s| && t == s[k - 1]
    ensures SumBy(s, Below(t)) <= k as real <= SumBy(s, AtMost(t))
  {
    AllBelowSums(s[..k], t);
    NoneBelowSums(s[k..], t);
    BelowCounts(s[..k], t);
    BelowCounts(s[k..], t);
    SumBySplit(s, k, Below(t));
    SumBySplit(s, k, AtMost(t));
  }

  // A choice of k positions that attains the shortfall bound.
  lemma {:induction false} PickSmallest(xs: seq<real>, t: real, k: nat) returns (chosen: set<int>)
    requires SumBy(xs, Below(t)) <= k as real <= SumBy(xs, AtMost(t))
    ensures Choice(chosen, k, |xs|)
    ensures SumAt(xs, chosen) - Times(k, t) == SumBy(xs, Shortfall(t))
  {
    if xs == [] {
      chosen := {};
    } else {
      var n := |xs| - 1;
      var rest := xs[..n];
      var m := CountAtMost(rest, t);
      BelowCounts(rest, t);
      hide Choice, SumAt;
      if xs[n] > t || (xs[n] == t && k <= m) {
        chosen := PickSmallest(rest, t, k);
        LeaveLast(xs, chosen, k);
      } else {
        var smaller := PickSmallest(rest, t, k - 1);
        chosen := smaller + {n};
        TakeLast(xs, smaller, k - 1);
      }
    }
  }

  lemma LeaveLast(xs: seq<real>, chosen: set<int>, k: nat)
    requires xs != [] && Choice(chosen, k, |xs| - 1)
    ensures Choice(chosen, k, |xs|) && SumAt(xs, chosen) == SumAt(xs[..|xs| - 1], chosen)
  {
    assert chosen - {|xs| - 1} == chosen;
  }

  lemma TakeLast(xs: seq<real>, chosen: set<int>, k: nat)
    requires xs != [] && Choice(chosen, k, |xs| - 1)
    ensures var n := |xs| - 1;
            && Choice(chosen + {n}, k + 1, |xs|)
            && SumAt(xs, chosen + {n}) == SumAt(xs[..n], chosen) + xs[n]
  {
    var n := |xs| - 1;
    assert chosen + {n} - {n} == chosen;
  }

  ghost predicate CheapestChoice(xs: seq<real>, k: nat, total: real) {
    && (forall chosen: set<int> :: Choice(chosen, k, |xs|) ==> total <= SumAt(xs, chosen))
    && exists chosen: set<int> :: Choice(chosen, k, |xs|) && SumAt(xs, chosen) == total
  }

  // The sorted tail is the cheapest choice, and one choice costs exactly that.
  lemma TailIsCheapest(xs: seq<real>, k: nat)
    requires 1 <= k <= |xs|
    ensures CheapestChoice(xs, k, Sum(SortAscending(xs)[..k]))
  {
    var s := SortAscending(xs);
    var t := s[k - 1];
    SortAscendingIsAscending(xs);
    SortedShortfall(s, k, t);
    SortedCounts(s, k, t);
    SumByPermutation(s, xs, Shortfall(t));
    SumByPermutation(s, xs, Below(t));
    SumByPermutation(s, xs, AtMost(t));
    var total := Sum(s[..k]);
    forall chosen: set<int> | Choice(chosen, k, |xs|)
      ensures total <= SumAt(xs, chosen)
    {
      ChosenAtLeastShortfall(xs, chosen, t);
    }
    var best := PickSmallest(xs, t, k);
    assert SumAt(xs, best) == total;
  }

  ghost function MeanAt(xs: seq<real>, chosen: set<int>): real
    requires chosen != {}
  {
    SumAt(xs, chosen) / |chosen| as real
  }

  // cvar is the least mean over all ways of choosing TailSize of the outcomes.
  lemma CvarIsLeastMean(xs: seq<real>, alpha: real)
    requires xs != []
    ensures forall chosen: set<int> :: Choice(chosen, TailSize(|xs|, alpha), |xs|) ==>
              Cvar(xs, alpha).value <= MeanAt(xs, chosen)
    ensures exists chosen: set<int> :: Choice(chosen, TailSize(|xs|, alpha), |xs|)
              && Cvar(xs, alpha).value == MeanAt(xs, chosen)
  {
    var k := TailSize(|xs|, alpha);
    var total := Sum(SortAscending(xs)[..k]);
    TailIsCheapest(xs, k);
    forall chosen: set<int> | Choice(chosen, k, |xs|)
      ensures Cvar(xs, alpha).value <= MeanAt(xs, chosen)
    {
      DivideMonotone(total, SumAt(xs, chosen), k as real);
    }
    var best: set<int> :| Choice(best, k, |xs|) && SumAt(xs, best) == total;
    assert MeanAt(xs, best) == Cvar(xs, alpha).value;
  }

  lemma DivideMonotone(x: real, y: real, k: real)
    requires x <= y && k > 0.0
    ensures x / k <= y / k
  {
  }

  lemma CvarPermutationInvariant(xs: seq<real>, ys: seq<real>, alpha: real)
    requires multiset(xs) == multiset(ys)
    ensures Cvar(xs, alpha) == Cvar(ys, alpha)
  {
    assert |xs| == |multiset(xs)| == |multiset(ys)| == |ys|;
    SortAscendingIsAscending(xs);
    SortAscendingIsAscending(ys);
    AscendingUnique(SortAscending(xs), SortAscending(ys));
  }

  lemma {:induction false} HeadBelowNext(s: seq<real>, k: nat)
    requires Ascending(s) && k < |s|
    ensures Sum(s[..k]) <= Times(k, s[k])
  {
    if k > 0 {
      HeadBelowNext(s, k - 1);
      SumSnoc(s, k - 1);
      TimesMonotone(k - 1, s[k - 1], s[k]);
    }
  }

  // Means of ever longer heads of an ascending sequence do not fall.
  lemma {:induction false} HeadMeansRise(s: seq<real>, k: nat, m: nat)
    requires Ascending(s) && 1 <= k <= m <= |s|
    ensures Sum(s[..k]) / k as real <= Sum(s[..m]) / m as real
    decreases m - k
  {
    if k < m {
      hide Sum, Times, Ascending;
      HeadBelowNext(s, k);
      SumSnoc(s, k);
      NextMean(Sum(s[..k]), s[k], k);
      HeadMeansRise(s, k + 1, m);
    }
  }

  // A value no smaller than the mean so far does not lower it.
  lemma NextMean(a: real, x: real, k: nat)
    requires k >= 1 && a <= Times(k, x)
    ensures a / k as real <= (a + x) / (k + 1) as real
  {
    TimesIsProduct(k, x);
    CrossDivide(a, k as real, x);
  }

  lemma CrossDivide(a: real, k: real, x: real)
    requires k > 0.0 && a <= k * x
    ensures a / k <= (a + x) / (k + 1.0)
  {
    var q := a / k;
    QuotientBelow(a, k, x);
    assert (k + 1.0) * q == a + q by {
      Distribute(q, k, 1.0);
      QuotientTimes(a, k);
    }
    QuotientAbove(a + x, k + 1.0, q);
  }

  lemma CvarMonotoneInAlpha(xs: seq<real>, alpha: real, beta: real)
    requires xs != [] && alpha <= beta
    ensures Cvar(xs, alpha).value <= Cvar(xs, beta).value
  {
    SortAscendingIsAscending(xs);
    TailSizeMonotone(|xs|, alpha, beta);
    HeadMeansRise(SortAscending(xs), TailSize(|xs|, alpha), TailSize(|xs|, beta));
  }

  lemma TailSizeMonotone(n: nat, alpha: real, beta: real)
    requires n > 0 && alpha <= beta
    ensures TailSize(n, alpha) <= TailSize(n, beta)
  {
    ShareMonotone(n, alpha, beta);
    hide Share, CountFor;
    CountForMonotone(Share(n, alpha), Share(n, beta), n);
  }

  lemma ShareMonotone(n: nat, alpha: real, beta: real)
    requires alpha <= beta
    ensures Share(n, alpha) <= Share(n, beta)
  {
    ClampMonotone(alpha, beta);
    hide Clamp;
    ScaleMonotone(n as real, Clamp(alpha, 0.0, 1.0), Clamp(beta, 0.0, 1.0));
  }

  lemma ClampMonotone(x: real, y: real)
    requires x <= y
    ensures Clamp(x, 0.0, 1.0) <= Clamp(y, 0.0, 1.0)
  {
  }

  lemma CountForMonotone(x: real, y: real, n: nat)
    requires x <= y && n > 0
    ensures CountFor(x, n) <= CountFor(y, n)
  {
  }

  lemma CvarAtMostMean(xs: seq<real>, alpha: real)
    requires xs != []
    ensures Cvar(xs, alpha).value <= Mean(xs)
  {
    var s := SortAscending(xs);
    SortAscendingIsAscending(xs);
    HeadMeansRise(s, TailSize(|xs|, alpha), |xs|);
    assert s[..|xs|] == s;
    SumIsSumBy(s);
    SumIsSumBy(xs);
    SumByPermutation(s, xs, Identity());
  }

  ghost function Identity(): real -> real {
    x => x
  }

  lemma {:induction false} SumIsSumBy(xs: seq<real>)
    ensures Sum(xs) == SumBy(xs, Identity())
  {
    if xs != [] {
      SumIsSumBy(xs[..|xs| - 1]);
    }
  }

  // ---- maximum drawdown --------------------------------------------------

  datatype Curve = Curve(cum: real, peak: real, maxDd: real)

  function Extend(c: Curve, r: real): Curve {
    var cum := c.cum + r;
    var peak := if cum > c.peak then cum else c.peak;
    var dd := cum - peak;
    Curve(cum, peak, if dd < c.maxDd then dd else c.maxDd)
  }

  function CurveOf(xs: seq<real>): Curve {
    if xs == [] then Curve(0.0, 0.0, 0.0)
    else Extend(CurveOf(xs[..|xs| - 1]), xs[|xs| - 1])
  }

  function MaxDrawdown(xs: seq<real>): Option<real> {
    if xs == [] then None else Some(CurveOf(xs).maxDd)
  }

  // Equity after the first i outcomes.
  function Equity(xs: seq<real>, i: nat): real
    requires i <= |xs|
  {
    Sum(xs[..i])
  }

  method ComputeMaxDrawdown(outcomes: seq<real>) returns (r: Option<real>)
    ensures r == MaxDrawdown(outcomes)
    ensures r.Some? <==> outcomes != []
    ensures r.Some? ==> IsMaxDrawdown(outcomes, r.value)
  {
    if outcomes == [] {
      return None;
    }
    var cum, peak, maxDd := 0.0, 0.0, 0.0;
    for i := 0 to |outcomes|
      invariant Curve(cum, peak, maxDd) == CurveOf(outcomes[..i])
    {
      assert outcomes[..i + 1][..i] == outcomes[..i];
      cum := cum + outcomes[i];
      if cum > peak {
        peak := cum;
      }
      var dd := cum - peak;
      if dd < maxDd {
        maxDd := dd;
      }
    }
    assert outcomes[..|outcomes|] == outcomes;
    DrawdownIsExtremal(outcomes);
    r := Some(maxDd);
  }

  // m is the deepest fall of the equity curve from any earlier point.
  ghost predicate IsMaxDrawdown(xs: seq<real>, m: real) {
    && (forall i, j :: 0 <= i <= j <= |xs| ==> Equity(xs, j) - Equity(xs, i) >= m)
    && exists i, j :: 0 <= i <= j <= |xs| && Equity(xs, j) - Equity(xs, i) == m
  }

  ghost predicate IsPeak(xs: seq<real>, p: real) {
    && (forall i :: 0 <= i <= |xs| ==> Equity(xs, i) <= p)
    && exists i :: 0 <= i <= |xs| && Equity(xs, i) == p
  }

  lemma EquityPrefix(xs: seq<real>, i: nat)
    requires xs != [] && i < |xs|
    ensures Equity(xs[..|xs| - 1], i) == Equity(xs, i)
  {
    assert xs[..|xs| - 1][..i] == xs[..i];
  }

  lemma EquityEnd(xs: seq<real>)
    ensures Equity(xs, |xs|) == Sum(xs)
  {
    assert xs[..|xs|] == xs;
  }

  lemma {:induction false} CurvePeak(xs: seq<real>)
    ensures CurveOf(xs).cum == Sum(xs)
    ensures IsPeak(xs, CurveOf(xs).peak)
  {
    EquityEnd(xs);
    if xs == [] {
      assert Equity(xs, 0) == 0.0;
    } else {
      var rest := xs[..|xs| - 1];
      CurvePeak(rest);
      forall i | 0 <= i < |xs| ensures Equity(xs, i) == Equity(rest, i) {
        EquityPrefix(xs, i);
      }
      if CurveOf(xs).peak == CurveOf(rest).peak {
        var i :| 0 <= i <= |rest| && Equity(rest, i) == CurveOf(rest).peak;
        assert Equity(xs, i) == CurveOf(xs).peak;
      } else {
        assert Equity(xs, |xs|) == CurveOf(xs).peak;
      }
    }
  }

  // The single pass finds the minimum over all pairs of prefix sums.
  lemma {:induction false} DrawdownIsExtremal(xs: seq<real>)
    ensures IsMaxDrawdown(xs, CurveOf(xs).maxDd)
  {
    if xs == [] {
      assert Equity(xs, 0) - Equity(xs, 0) == 0.0;
    } else {
      var rest := xs[..|xs| - 1];
      DrawdownIsExtremal(rest);
      CurvePeak(xs);
      EquityEnd(xs);
      var m, old_ := CurveOf(xs).maxDd, CurveOf(rest).maxDd;
      forall i, j | 0 <= i <= j <= |xs| ensures Equity(xs, j) - Equity(xs, i) >= m {
        if j < |xs| {
          EquityPrefix(xs, i);
          EquityPrefix(xs, j);
          assert Equity(rest, j) - Equity(rest, i) >= old_;
        }
      }
      if m == old_ {
        var i, j :| 0 <= i <= j <= |rest| && Equity(rest, j) - Equity(rest, i) == m;
        EquityPrefix(xs, i);
        EquityPrefix(xs, j);
        assert Equity(xs, j) - Equity(xs, i) == m;
      } else {
        var i :| 0 <= i <= |xs| && Equity(xs, i) == CurveOf(xs).peak;
        assert Equity(xs, |xs|) - Equity(xs, i) == m;
      }
    }
  }

  lemma SegmentSum(xs: seq<real>, i: nat, j: nat)
    requires i <= j <= |xs|
    ensures Sum(xs[i..j]) == Equity(xs, j) - Equity(xs, i)
  {
    assert xs[..j] == xs[..i] + xs[i..j];
    SumConcat(xs[..i], xs[i..j]);
  }

  // No drawdown exactly when no run of consecutive outcomes loses.
  lemma NoDrawdownIffNoLosingRun(xs: seq<real>)
    requires xs != []
    ensures MaxDrawdown(xs).value <= 0.0
    ensures MaxDrawdown(xs) == Some(0.0) <==> forall i, j :: 0 <= i <= j <= |xs| ==> Sum(xs[i..j]) >= 0.0
  {
    DrawdownIsExtremal(xs);
    var m := MaxDrawdown(xs).value;
    assert Equity(xs, 0) - Equity(xs, 0) >= m;
    forall i, j | 0 <= i <= j <= |xs| ensures Sum(xs[i..j]) == Equity(xs, j) - Equity(xs, i) {
      SegmentSum(xs, i, j);
    }
    var i, j :| 0 <= i <= j <= |xs| && Equity(xs, j) - Equity(xs, i) == m;
    assert Sum(xs[i..j]) == m;
  }

  // Trading on never makes the worst fall shallower.
  lemma ConcatDrawdown(xs: seq<real>, ys: seq<real>)
    requires xs != [] && ys != []
    ensures MaxDrawdown(xs + ys).value <= MaxDrawdown(xs).value
    ensures MaxDrawdown(xs + ys).value <= MaxDrawdown(ys).value
  {
    DrawdownIsExtremal(xs + ys);
    FallInHead(xs, ys);
    FallInTail(xs, ys);
  }

  lemma FallInHead(xs: seq<real>, ys: seq<real>)
    ensures exists i, j :: 0 <= i <= j <= |xs + ys| && Equity(xs + ys, j) - Equity(xs + ys, i) == CurveOf(xs).maxDd
  {
    DrawdownIsExtremal(xs);
    var i, j :| 0 <= i <= j <= |xs| && Equity(xs, j) - Equity(xs, i) == CurveOf(xs).maxDd;
    assert (xs + ys)[..i] == xs[..i] && (xs + ys)[..j] == xs[..j];
    assert Equity(xs + ys, j) - Equity(xs + ys, i) == CurveOf(xs).maxDd;
  }

  lemma FallInTail(xs: seq<real>, ys: seq<real>)
    ensures exists i, j :: 0 <= i <= j <= |xs + ys| && Equity(xs + ys, j) - Equity(xs + ys, i) == CurveOf(ys).maxDd
  {
    DrawdownIsExtremal(ys);
    var p, q :| 0 <= p <= q <= |ys| && Equity(ys, q) - Equity(ys, p) == CurveOf(ys).maxDd;
    EquityOfTail(xs, ys, p);
    EquityOfTail(xs, ys, q);
    assert Equity(xs + ys, |xs| + q) - Equity(xs + ys, |xs| + p) == CurveOf(ys).maxDd;
  }

  lemma EquityOfTail(xs: seq<real>, ys: seq<real>, p: nat)
    requires p <= |ys|
    ensures Equity(xs + ys, |xs| + p) == Sum(xs) + Equity(ys, p)
  {
    assert (xs + ys)[..|xs| + p] == xs + ys[..p];
    SumConcat(xs, ys[..p]);
  }

  // ---- significance tests ------------------------------------------------

  function SquaredDeviation(m: real): real -> real {
    x => (x - m) * (x - m)
  }

  function SampleVariance(xs: seq<real>): real
    requires |xs| >= 2
  {
    SumBy(xs, SquaredDeviation(Mean(xs))) / (|xs| - 1) as real
  }

  // Whether gap / (s / sqrt(n)) reaches zq, where s * s == variance, decided without roots.
  // A zero spread turns a positive gap into infinite evidence.
  predicate ZReaches(gap: real, variance: real, n: real, zq: real) {
    if variance > 0.0 then
      if zq > 0.0 then gap > 0.0 && gap * gap * n >= zq * zq * variance
      else gap >= 0.0 || gap * gap * n <= zq * zq * variance
    else
      gap > 0.0 || zq <= 0.0
  }

  // The comparison as written with square roots s and r, for whichever roots they are.
  lemma ZReachesWithRoots(gap: real, variance: real, n: real, zq: real, s: real, r: real)
    requires s >= 0.0 && s * s == variance
    requires r > 0.0 && r * r == n
    ensures ZReaches(gap, variance, n, zq)
       <==> if s > 0.0 then gap / (s / r) >= zq else gap > 0.0 || 0.0 >= zq
  {
    if s > 0.0 {
      PositiveProduct(s, s);
      CrossMultiply(gap, s, r, zq);
      ProductSigns(gap, r);
      ProductSigns(zq, s);
      SquareOfProduct(gap, r);
      SquareOfProduct(zq, s);
      SquaresOrder(gap * r, zq * s);
    } else {
      assert variance == 0.0;
    }
  }

  lemma SquareOfProduct(x: real, k: real)
    ensures (x * k) * (x * k) == x * x * (k * k)
  {
  }

  lemma CrossMultiply(gap: real, s: real, r: real, zq: real)
    requires s > 0.0 && r > 0.0
    ensures gap / (s / r) >= zq <==> gap * r >= zq * s
  {
    var d := s / r;
    assert d > 0.0 && d * r == s;
    var z := gap / d;
    assert z * d == gap;
    assert gap * r == z * s by {
      assert z * d * r == z * (d * r);
    }
    ProductSigns(z - zq, s);
    assert (z - zq) * s == z * s - zq * s;
  }

  lemma SquaresOrder(a: real, b: real)
    ensures b > 0.0 ==> (a >= b <==> a > 0.0 && a * a >= b * b)
    ensures b <= 0.0 ==> (a >= b <==> a >= 0.0 || a * a <= b * b)
  {
    assert a * a - b * b == (a - b) * (a + b);
    if a + b > 0.0 {
      ProductSigns(a - b, a + b);
    } else if a + b < 0.0 {
      ProductSigns(b - a, -(a + b));
      assert (b - a) * -(a + b) == (a - b) * (a + b);
    }
  }

  datatype MonitorAction =
    | ShrinkSize | Quarantine | Recalibrate | SkipDegraded | Suppress | Disable
    | Demote | Retire | Alert

  datatype Decision = Decision(metricValue: real, threshold: real, action: MonitorAction)

  datatype Thresholds = Thresholds(
    divergenceShrinkR: real, divergenceQuarantineR: real, divergenceMinTrades: nat,
    divergenceZShrink: real, divergenceZQuarantine: real,
    decayMinTrades: nat, decayZ: real,
    drawdownCvarFloorR: real, drawdownMaxddFloorR: real, drawdownMinTrades: nat,
    calibrationGap: real, calibrationMinTrades: nat,
    stalenessMaxAgeHours: real, oodCount: int)

  const DEFAULT_THRESHOLDS := Thresholds(
    0.25, 0.50, 10, 1.64, 2.33, 15, 1.64, -2.0, -6.0, 10, 0.15, 20, 48.0, 3)

  function DetectDivergence(realized: seq<real>, oosExpectancy: real, t: Thresholds): Option<Decision> {
    if |realized| < t.divergenceMinTrades || |realized| < 2 then None
    else
      var gap := oosExpectancy - Mean(realized);
      var variance, n := SampleVariance(realized), |realized| as real;
      if ZReaches(gap, variance, n, t.divergenceZQuarantine) && gap >= t.divergenceQuarantineR then
        Some(Decision(gap, t.divergenceQuarantineR, Quarantine))
      else if ZReaches(gap, variance, n, t.divergenceZShrink) && gap >= t.divergenceShrinkR then
        Some(Decision(gap, t.divergenceShrinkR, ShrinkSize))
      else
        None
  }

  function DetectDecay(realized: seq<real>, t: Thresholds): Option<Decision> {
    if |realized| < t.decayMinTrades || |realized| < 2 then None
    else
      var m := Mean(realized);
      if ZReaches(-m, SampleVariance(realized), |realized| as real, t.decayZ) then Some(Decision(m, 0.0, Demote))
      else None
  }

  function DetectDrawdown(realized: seq<real>, t: Thresholds): Option<Decision> {
    if |realized| < t.drawdownMinTrades || realized == [] then None
    else
      var cv, mdd := Cvar(realized, 0.05).value, MaxDrawdown(realized).value;
      if cv <= t.drawdownCvarFloorR then Some(Decision(cv, t.drawdownCvarFloorR, Disable))
      else if mdd <= t.drawdownMaxddFloorR then Some(Decision(mdd, t.drawdownMaxddFloorR, Disable))
      else None
  }

  function CountWins(wins: seq<bool>): (c: nat)
    ensures c <= |wins|
  {
    if wins == [] then 0 else CountWins(wins[..|wins| - 1]) + (if wins[|wins| - 1] then 1 else 0)
  }

  function DetectCalibration(convictions: seq<real>, wins: seq<bool>, t: Thresholds): Option<Decision> {
    var n := MinNat(|convictions|, |wins|);
    if n < t.calibrationMinTrades || n == 0 then None
    else
      var gap := Abs(Mean(convictions[..n]) - CountWins(wins[..n]) as real / n as real);
      if gap >= t.calibrationGap then Some(Decision(gap, t.calibrationGap, Recalibrate)) else None
  }

  function DetectStaleness(ageHours: real, t: Thresholds): Option<Decision> {
    if ageHours > t.stalenessMaxAgeHours then Some(Decision(ageHours, t.stalenessMaxAgeHours, SkipDegraded)) else None
  }

  function DetectRegimeOod(oodCount: int, t: Thresholds): Option<Decision> {
    if oodCount >= t.oodCount then Some(Decision(oodCount as real, t.oodCount as real, Suppress)) else None
  }

  // How strongly a divergence verdict acts: nothing, a smaller size, quarantine.
  ghost function Severity(d: Option<Decision>): nat {
    match d
    case None => 0
    case Some(v) => if v.action == Quarantine then 2 else 1
  }

  lemma ZReachesMonotone(gap: real, wider: real, variance: real, n: real, zq: real)
    requires gap <= wider && n >= 0.0
    ensures ZReaches(gap, variance, n, zq) ==> ZReaches(wider, variance, n, zq)
  {
    if 0.0 <= gap {
      SquareMonotone(gap, wider);
      ScaleMonotone(n, gap * gap, wider * wider);
    } else if wider < 0.0 {
      SquareMonotone(-wider, -gap);
      ScaleMonotone(n, wider * wider, gap * gap);
    }
  }

  // A better backtest record makes the same live record no less suspicious.
  lemma DivergenceEscalates(realized: seq<real>, oos: real, better: real, t: Thresholds)
    requires oos <= better
    ensures Severity(DetectDivergence(realized, oos, t)) <= Severity(DetectDivergence(realized, better, t))
  {
    if |realized| >= t.divergenceMinTrades && |realized| >= 2 {
      var gap, wider := oos - Mean(realized), better - Mean(realized);
      ZReachesMonotone(gap, wider, SampleVariance(realized), |realized| as real, t.divergenceZQuarantine);
      ZReachesMonotone(gap, wider, SampleVariance(realized), |realized| as real, t.divergenceZShrink);
    }
  }

  // The drawdown detector fires exactly when some tail-sized choice of outcomes, or some run
  // of consecutive ones, is as bad as its floor.
  lemma DrawdownFiresIff(realized: seq<real>, t: Thresholds)
    requires realized != [] && |realized| >= t.drawdownMinTrades
    ensures DetectDrawdown(realized, t).Some?
       <==> || (exists chosen: set<int> :: Choice(chosen, TailSize(|realized|, 0.05), |realized|)
                  && MeanAt(realized, chosen) <= t.drawdownCvarFloorR)
            || (exists i, j :: 0 <= i <= j <= |realized| && Sum(realized[i..j]) <= t.drawdownMaxddFloorR)
  {
    CvarIsLeastMean(realized, 0.05);
    DrawdownIsExtremal(realized);
    forall i, j | 0 <= i <= j <= |realized|
      ensures Sum(realized[i..j]) == Equity(realized, j) - Equity(realized, i)
    {
      SegmentSum(realized, i, j);
    }
    var i, j :| 0 <= i <= j <= |realized|
             && Equity(realized, j) - Equity(realized, i) == MaxDrawdown(realized).value;
    assert Sum(realized[i..j]) == MaxDrawdown(realized).value;
  }
}
