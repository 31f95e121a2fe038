// Promotion and the live floor decided by counts and squares alone, without the bound's root.
module Grading {
  import opened Prelude
  import opened Arith
  import opened Market
  import opened Genomes
  import opened Score

  // n observations at proportion q put it far enough above x at 95% confidence: the squared
  // distance, n times over, reaches 1.96 squared times x (1 - x).
  ghost predicate ClearlyAbove(q: real, n: int, x: real) {
    q > x && n as real * ((q - x) * (q - x)) >= 3.8416 * (x * (1.0 - x))
  }

  lemma ExcessCleared(q: real, n: int, x: real)
    requires n > 0
    ensures Excess(q, SquaredErrors(WILSON_Z_95, n), x) >= 0.0
       <==> n as real * ((q - x) * (q - x)) >= 3.8416 * (x * (1.0 - x))
  {
    var count, square, v := n as real, (q - x) * (q - x), x * (1.0 - x);
    var k := SquaredErrors(WILSON_Z_95, n);
    assert WILSON_Z_95 * WILSON_Z_95 == 3.8416;
    QuotientTimes(3.8416, count);
    ClearedExcess(square, k, v, count, Excess(q, k, x));
  }

  lemma ClearedExcess(square: real, k: real, v: real, n: real, e: real)
    requires n > 0.0 && k * n == 3.8416 && e == square - k * v
    ensures e >= 0.0 <==> n * square >= 3.8416 * v
  {
    ProductSigns(e, n);
    assert e * n == n * square - k * n * v;
  }

  // The bound reaches x exactly when the proportion is clearly above it.
  lemma BoundReaches(p: real, n: int, root: real, x: real)
    requires n > 0 && 0.0 < x && IsRoot(root, p, n, WILSON_Z_95)
    ensures WilsonLowerBound(p, n, WILSON_Z_95, root) >= x <==> ClearlyAbove(Clamp(p, 0.0, 1.0), n, x)
  {
    var q := Clamp(p, 0.0, 1.0);
    hide IsRoot, WilsonLowerBound, Excess, SquaredErrors, Clamp;
    WilsonIsLowerRoot(p, n, WILSON_Z_95, root);
    ExcessCleared(q, n, x);
    if q > x {
      WilsonSeparates(p, n, WILSON_Z_95, root, x);
    } else if q > 0.0 {
      ProportionNotReached(p, n, root, WILSON_Z_95);
    }
  }

  // A strategy is promotable exactly when its gate passed, it has a condition on a trigger or a
  // location, and at least eight acted trades put its precision clearly above 45 percent.
  lemma PromotableIff(g: Genome, s: OosScore, root: real)
    requires IsRoot(root, s.precision, s.nActed, WILSON_Z_95)
    ensures Promotable(g, s, root)
       <==> && s.passedGate
            && (exists i :: 0 <= i < |g.predicates| && g.predicates[i].layer in {Trigger, Location})
            && s.nActed >= 8 && ClearlyAbove(Clamp(s.precision, 0.0, 1.0), s.nActed, 0.45)
  {
    ActionableIs(g);
    hide IsRoot, ClearlyAbove, Clamp, Actionable;
    if s.nActed > 0 {
      BoundReaches(s.precision, s.nActed, root, 0.45);
      hide WilsonLowerBound;
    }
  }

  lemma ActionableIs(g: Genome)
    ensures Actionable(g)
       <==> exists i :: 0 <= i < |g.predicates| && g.predicates[i].layer in {Trigger, Location}
  {
    if Actionable(g) {
      var p :| p in g.predicates && (p.layer == Trigger || p.layer == Location);
      var i :| 0 <= i < |g.predicates| && g.predicates[i] == p;
    }
  }

  // The live path refuses a stored count that reads negative, and one of eight or more that does
  // not put the precision clearly above 40 percent.
  lemma LiveRefusesIff(p: real, stored: I64, root: real)
    requires IsRoot(root, p, stored, WILSON_Z_95)
    ensures LiveRefuses(p, stored, root)
       <==> stored < 0 || (stored >= 8 && !ClearlyAbove(Clamp(p, 0.0, 1.0), stored, 0.40))
  {
    hide IsRoot, ClearlyAbove, Clamp;
    if stored > 0 {
      BoundReaches(p, stored, root, 0.40);
      hide WilsonLowerBound;
    }
  }
}
