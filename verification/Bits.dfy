// Exclusive or and right shift on natural numbers, bit by bit.
module Bits {
  function Xor(a: nat, b: nat): nat
    decreases a + b
  {
    if a == 0 then b
    else if b == 0 then a
    else (a % 2 + b % 2) % 2 + 2 * Xor(a / 2, b / 2)
  }

  function Shr(a: nat, s: nat): nat {
    if s == 0 then a else Shr(a / 2, s - 1)
  }

  function Pow2(n: nat): nat {
    if n == 0 then 1 else 2 * Pow2(n - 1)
  }

  lemma XorBits(a: nat, b: nat)
    ensures Xor(a, b) == (a % 2 + b % 2) % 2 + 2 * Xor(a / 2, b / 2)
  {
  }

  lemma XorHalf(a: nat, b: nat)
    ensures Xor(a, b) / 2 == Xor(a / 2, b / 2)
    ensures Xor(a, b) % 2 == (a % 2 + b % 2) % 2
  {
    XorBits(a, b);
  }

  lemma {:induction false} XorSelf(a: nat)
    ensures Xor(a, a) == 0
  {
    if a > 0 {
      XorSelf(a / 2);
    }
  }

  lemma BitAssociative(x: nat, y: nat, z: nat)
    requires x < 2 && y < 2 && z < 2
    ensures ((x + y) % 2 + z) % 2 == (x + (y + z) % 2) % 2
  {
  }

  lemma AssociativeFromHalves(a: nat, b: nat, c: nat)
    requires Xor(Xor(a / 2, b / 2), c / 2) == Xor(a / 2, Xor(b / 2, c / 2))
    ensures Xor(Xor(a, b), c) == Xor(a, Xor(b, c))
  {
    hide Xor;
    XorHalf(a, b);
    XorHalf(b, c);
    XorBits(Xor(a, b), c);
    XorBits(a, Xor(b, c));
    BitAssociative(a % 2, b % 2, c % 2);
  }

  lemma {:induction false} XorAssociative(a: nat, b: nat, c: nat)
    ensures Xor(Xor(a, b), c) == Xor(a, Xor(b, c))
    decreases a + b + c
  {
    if a != 0 && b != 0 && c != 0 {
      XorAssociative(a / 2, b / 2, c / 2);
      AssociativeFromHalves(a, b, c);
    }
  }

  // x ^ x ^ y == y.
  lemma XorCancels(x: nat, y: nat)
    ensures Xor(x, Xor(x, y)) == y
  {
    XorAssociative(x, x, y);
    XorSelf(x);
  }

  lemma {:induction false} ShrXor(a: nat, b: nat, s: nat)
    ensures Shr(Xor(a, b), s) == Xor(Shr(a, s), Shr(b, s))
  {
    if s > 0 {
      XorHalf(a, b);
      ShrXor(a / 2, b / 2, s - 1);
    }
  }

  lemma {:induction false} ShrShr(a: nat, s: nat, t: nat)
    ensures Shr(Shr(a, s), t) == Shr(a, s + t)
  {
    if s > 0 {
      ShrShr(a / 2, s - 1, t);
    }
  }

  lemma {:induction false} ShrVanishes(a: nat, n: nat, s: nat)
    requires a < Pow2(n) && n <= s
    ensures Shr(a, s) == 0
    decreases s
  {
    if s > 0 {
      if n == 0 {
        assert a / 2 == 0;
        ShrVanishes(a / 2, 0, s - 1);
      } else {
        ShrVanishes(a / 2, n - 1, s - 1);
      }
    }
  }

  lemma {:induction false} XorBound(a: nat, b: nat, n: nat)
    requires a < Pow2(n) && b < Pow2(n)
    ensures Xor(a, b) < Pow2(n)
  {
    if n > 0 {
      XorBound(a / 2, b / 2, n - 1);
      XorBits(a, b);
    }
  }

  lemma {:induction false} ShrBound(a: nat, s: nat)
    ensures Shr(a, s) <= a
  {
    if s > 0 {
      ShrBound(a / 2, s - 1);
    }
  }

  lemma {:induction false} Pow2Adds(m: nat, n: nat)
    ensures Pow2(m + n) == Pow2(m) * Pow2(n)
  {
    if m > 0 {
      Pow2Adds(m - 1, n);
    }
  }

  lemma Pow2Of64()
    ensures Pow2(64) == 0x1_0000_0000_0000_0000
  {
    assert Pow2(4) == 16 by {
      assert Pow2(2) == 4;
    }
    hide Pow2;
    Pow2Adds(4, 4);
    Pow2Adds(8, 8);
    Pow2Adds(16, 16);
    Pow2Adds(32, 32);
  }

  // z ^ (z >> s), and what undoes it when three shifts clear an n-bit word.
  function XorShift(z: nat, s: nat): nat {
    Xor(z, Shr(z, s))
  }

  function UnXorShift(z: nat, s: nat): nat {
    Xor(XorShift(z, s), Shr(z, s + s))
  }

  lemma XorShiftOfXor(a: nat, b: nat, s: nat)
    ensures XorShift(Xor(a, b), s) == Xor(XorShift(a, s), XorShift(b, s))
  {
    var p, q := Shr(a, s), Shr(b, s);
    ShrXor(a, b, s);
    XorAssociative(a, b, Xor(p, q));
    XorAssociative(b, p, q);
    XorCommutative(b, p);
    XorAssociative(p, b, q);
    XorAssociative(a, p, Xor(b, q));
  }

  lemma {:induction false} XorCommutative(a: nat, b: nat)
    ensures Xor(a, b) == Xor(b, a)
    decreases a + b
  {
    if a != 0 && b != 0 {
      XorCommutative(a / 2, b / 2);
    }
  }

  // Shifting and clearing telescopes: z ^ z>>s ^ z>>s ^ z>>2s ^ z>>2s ^ z>>3s.
  lemma XorShiftTelescope(z: nat, s: nat, n: nat)
    requires z < Pow2(n) && n <= 3 * s
    ensures UnXorShift(XorShift(z, s), s) == z
    ensures XorShift(UnXorShift(z, s), s) == z
  {
    var p, q := Shr(z, s), Shr(z, s + s);
    ShrShr(z, s, s);
    ShrShr(z, s + s, s);
    ShrVanishes(z, n, s + s + s);
    assert Shr(p, s) == q && Shr(q, s) == 0;
    // XorShift(XorShift(z)) == z ^ q, and XorShift(q) == q.
    assert XorShift(XorShift(z, s), s) == Xor(z, q) by {
      XorShiftOfXor(z, p, s);
      XorAssociative(z, p, Xor(p, q));
      XorCancels(p, q);
    }
    assert XorShift(q, s) == q;
    assert Shr(XorShift(z, s), s + s) == q by {
      ShrXor(z, p, s + s);
      ShrShr(z, s, s + s);
    }
    XorAssociative(z, q, q);
    XorSelf(q);
    XorShiftOfXor(XorShift(z, s), q, s);
  }
}
