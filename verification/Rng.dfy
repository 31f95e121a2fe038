// The seeded SplitMix64 generator. A word is a natural number below 2^64 and every
// product and sum wraps, as the source's wrapping operations do.
module Rng {
  import opened Bits

  const MODULUS: nat := 0x1_0000_0000_0000_0000

  type Word = x: nat | x < MODULUS witness 0

  const GOLDEN: Word := 0x9E37_79B9_7F4A_7C15
  const GENERATION_MIX: Word := 0xD1B5_4A32_D192_ED03
  const MIX1: Word := 0xBF58_476D_1CE4_E5B9
  const MIX2: Word := 0x94D0_49BB_1331_11EB

  // The multiplicative inverses of the four odd constants modulo 2^64.
  const GOLDEN_INV: Word := 0xF1DE_83E1_9937_733D
  const GENERATION_MIX_INV: Word := 0x0610_6CCF_A448_E5AB
  const MIX1_INV: Word := 0x96DE_1B17_3F11_9089
  const MIX2_INV: Word := 0x3196_42B2_D24D_8EC3

  function Wrap(x: int): Word {
    x % MODULUS
  }

  function Multiply(z: Word, c: Word): Word {
    Wrap(z * c)
  }

  function Add(x: Word, y: Word): Word {
    Wrap(x + y)
  }

  ghost predicate Inverses(c: Word, d: Word) {
    Multiply(c, d) == 1
  }

  lemma ConstantInverses()
    ensures Inverses(GOLDEN, GOLDEN_INV) && Inverses(GENERATION_MIX, GENERATION_MIX_INV)
    ensures Inverses(MIX1, MIX1_INV) && Inverses(MIX2, MIX2_INV)
  {
  }

  lemma WrapUnique(x: int, w: Word, t: int)
    requires x == w + MODULUS * t
    ensures Wrap(x) == w
  {
  }

  lemma WrapQuotient(x: int) returns (t: int)
    ensures x == Wrap(x) + MODULUS * t
  {
    t := x / MODULUS;
  }

  // Multiplying by c and then by its inverse is the identity.
  lemma MultiplyInverse(z: Word, c: Word, d: Word)
    requires Inverses(c, d)
    ensures Multiply(Multiply(z, c), d) == z
  {
    var q := WrapQuotient(z * c);
    var k := WrapQuotient(c * d);
    var m := Multiply(z, c);
    assert m * d == z + MODULUS * (z * k - q * d) by {
      ProductExpands(z, c, d, m, q, k);
    }
    WrapUnique(m * d, z, z * k - q * d);
  }

  lemma ProductExpands(z: int, c: int, d: int, m: int, q: int, k: int)
    requires z * c == m + MODULUS * q && c * d == 1 + MODULUS * k
    ensures m * d == z + MODULUS * (z * k - q * d)
  {
    assert z * c * d == z * (c * d);
    assert (m + MODULUS * q) * d == m * d + MODULUS * (q * d);
    assert z * (1 + MODULUS * k) == z + MODULUS * (z * k);
  }

  lemma InversesSymmetric(c: Word, d: Word)
    requires Inverses(c, d)
    ensures Inverses(d, c)
  {
  }

  lemma MultiplyInjective(x: Word, y: Word, c: Word, d: Word)
    requires Inverses(c, d) && Multiply(x, c) == Multiply(y, c)
    ensures x == y
  {
    MultiplyInverse(x, c, d);
    MultiplyInverse(y, c, d);
  }

  lemma AddInjective(x: Word, y: Word, c: Word)
    requires Add(x, c) == Add(y, c)
    ensures x == y
  {
  }

  // ---- the finaliser ---------------------------------------------------------

  function Shifted(z: Word, s: nat): Word {
    ShiftedIsWord(z, s);
    XorShift(z, s)
  }

  function Unshifted(z: Word, s: nat): Word {
    ShiftedIsWord(z, s);
    UnXorShift(z, s)
  }

  lemma ShiftedIsWord(z: Word, s: nat)
    ensures XorShift(z, s) < MODULUS && UnXorShift(z, s) < MODULUS
  {
    Pow2Of64();
    ShrBound(z, s);
    ShrBound(z, s + s);
    XorBound(z, Shr(z, s), 64);
    XorBound(XorShift(z, s), Shr(z, s + s), 64);
  }

  lemma ShiftInverse(z: Word, s: nat)
    requires 3 * s >= 64
    ensures Unshifted(Shifted(z, s), s) == z && Shifted(Unshifted(z, s), s) == z
  {
    Pow2Of64();
    XorShiftTelescope(z, s, 64);
  }

  function Finalise(state: Word): Word {
    Shifted(Multiply(Shifted(Multiply(Shifted(state, 30), MIX1), 27), MIX2), 31)
  }

  // Undoes Finalise, stage by stage.
  function Unfinalise(word: Word): Word {
    Unshifted(Multiply(Unshifted(Multiply(Unshifted(word, 31), MIX2_INV), 27), MIX1_INV), 30)
  }

  // The finaliser is a bijection on 64-bit words.
  lemma FinaliseBijection(word: Word)
    ensures Unfinalise(Finalise(word)) == word
    ensures Finalise(Unfinalise(word)) == word
  {
    hide Shifted, Unshifted, Multiply;
    ConstantInverses();
    InversesSymmetric(MIX1, MIX1_INV);
    InversesSymmetric(MIX2, MIX2_INV);
    var a := Shifted(word, 30);
    var b := Multiply(a, MIX1);
    var c := Shifted(b, 27);
    var d := Multiply(c, MIX2);
    ShiftInverse(word, 30);
    MultiplyInverse(a, MIX1, MIX1_INV);
    ShiftInverse(b, 27);
    MultiplyInverse(c, MIX2, MIX2_INV);
    ShiftInverse(d, 31);
    var p := Unshifted(word, 31);
    var q := Multiply(p, MIX2_INV);
    var r := Unshifted(q, 27);
    var t := Multiply(r, MIX1_INV);
    ShiftInverse(word, 31);
    MultiplyInverse(p, MIX2_INV, MIX2);
    ShiftInverse(q, 27);
    MultiplyInverse(r, MIX1_INV, MIX1);
    ShiftInverse(t, 30);
  }

  // ---- the stream --------------------------------------------------------------

  // The word the next draw yields.
  function NextWord(state: Word): Word {
    Finalise(Add(state, GOLDEN))
  }

  // State after k draws, and the k-th word drawn.
  function Advance(state: Word, k: nat): Word {
    if k == 0 then state else Add(Advance(state, k - 1), GOLDEN)
  }

  function Output(state: Word, k: nat): Word {
    NextWord(Advance(state, k))
  }

  lemma {:induction false} AdvanceClosed(state: Word, k: nat)
    ensures Advance(state, k) == Wrap(state + k * GOLDEN)
  {
    if k > 0 {
      AdvanceClosed(state, k - 1);
      var t := WrapQuotient(state + (k - 1) * GOLDEN);
      var u := WrapQuotient(Advance(state, k - 1) + GOLDEN);
      assert state + k * GOLDEN == state + (k - 1) * GOLDEN + GOLDEN;
      WrapUnique(state + k * GOLDEN, Advance(state, k), t + u);
    }
  }

  lemma WrapEqual(x: int, y: int) returns (t: int)
    requires Wrap(x) == Wrap(y)
    ensures x - y == MODULUS * t
  {
    var a := WrapQuotient(x);
    var b := WrapQuotient(y);
    t := a - b;
  }

  // A multiple of GOLDEN wraps to zero only for multiples of 2^64.
  lemma GoldenMultiple(n: int, t: int)
    requires n * GOLDEN == MODULUS * t
    ensures n % MODULUS == 0
  {
    ConstantInverses();
    var k := WrapQuotient(GOLDEN * GOLDEN_INV);
    assert n == MODULUS * (t * GOLDEN_INV - n * k) by {
      GoldenExpands(n, t, k);
    }
    WrapUnique(n, 0, t * GOLDEN_INV - n * k);
  }

  lemma GoldenExpands(n: int, t: int, k: int)
    requires n * GOLDEN == MODULUS * t && GOLDEN * GOLDEN_INV == 1 + MODULUS * k
    ensures n == MODULUS * (t * GOLDEN_INV - n * k)
  {
    assert n * GOLDEN * GOLDEN_INV == n * (GOLDEN * GOLDEN_INV);
    assert n * (1 + MODULUS * k) == n + MODULUS * (n * k);
    assert MODULUS * t * GOLDEN_INV == MODULUS * (t * GOLDEN_INV);
  }

  // Two draws give the same word exactly when they lie a multiple of 2^64 draws apart:
  // the stream's period is 2^64 and any 2^64 consecutive words are pairwise distinct.
  lemma OutputsRepeatWithFullPeriod(state: Word, j: nat, k: nat)
    ensures Output(state, j) == Output(state, k) <==> (j - k) % MODULUS == 0
  {
    hide Finalise, Unfinalise;
    AdvanceClosed(state, j);
    AdvanceClosed(state, k);
    if Output(state, j) == Output(state, k) {
      FinaliseBijection(Add(Advance(state, j), GOLDEN));
      FinaliseBijection(Add(Advance(state, k), GOLDEN));
      AddInjective(Advance(state, j), Advance(state, k), GOLDEN);
      var t := WrapEqual(state + j * GOLDEN, state + k * GOLDEN);
      assert (j - k) * GOLDEN == MODULUS * t;
      GoldenMultiple(j - k, t);
    }
    if (j - k) % MODULUS == 0 {
      var t := WrapQuotient(j - k);
      var u := WrapQuotient(state + k * GOLDEN);
      assert state + j * GOLDEN == state + k * GOLDEN + MODULUS * (t * GOLDEN);
      WrapUnique(state + j * GOLDEN, Advance(state, k), u + t * GOLDEN);
    }
  }

  function SeedState(baseSeed: Word, generation: nat): Word
    requires generation < 0x1_0000_0000
  {
    Add(Add(Multiply(baseSeed, GOLDEN), Multiply(generation, GENERATION_MIX)), GOLDEN)
  }

  // With one base seed, different generations start from different states; and for one
  // generation, different base seeds do.
  lemma SeedInjective(a: Word, b: Word, g: nat, h: nat)
    requires g < 0x1_0000_0000 && h < 0x1_0000_0000
    requires SeedState(a, g) == SeedState(b, h)
    ensures a == b <==> g == h
  {
    hide Multiply;
    var p, q := Multiply(g, GENERATION_MIX), Multiply(h, GENERATION_MIX);
    var x, y := Multiply(a, GOLDEN), Multiply(b, GOLDEN);
    ConstantInverses();
    AddInjective(Add(x, p), Add(y, q), GOLDEN);
    if a == b {
      AddInjective(p, q, x);
      MultiplyInjective(g, h, GENERATION_MIX, GENERATION_MIX_INV);
    }
    if g == h {
      AddInjective(x, y, p);
      MultiplyInjective(a, b, GOLDEN, GOLDEN_INV);
    }
  }

  // ---- draws -----------------------------------------------------------------------

  // A word's top 53 bits as a fraction.
  function UnitOf(word: Word): (u: real)
    ensures 0.0 <= u < 1.0
  {
    (word / 2048) as real / 9007199254740992.0
  }

  function IndexOf(word: Word, n: nat): (i: nat)
    ensures n > 0 ==> i < n
    ensures n == 0 ==> i == 0
  {
    if n == 0 then 0 else word % n
  }

  // A drawn value and the state the stream is left in.
  datatype Draw<+T> = Draw(value: T, next: Word)

  function DrawUnit(s: Word): (d: Draw<real>)
    ensures 0.0 <= d.value < 1.0
  {
    Draw(UnitOf(NextWord(s)), Add(s, GOLDEN))
  }

  // No draw is made for an empty range.
  function DrawIndex(s: Word, n: nat): (d: Draw<nat>)
    ensures n > 0 ==> d.value < n
    ensures n == 0 ==> d.value == 0
  {
    if n == 0 then Draw(0, s) else Draw(IndexOf(NextWord(s), n), Add(s, GOLDEN))
  }

  function DrawChance(s: Word, p: real): Draw<bool> {
    var u := DrawUnit(s);
    Draw(u.value < p, u.next)
  }

  class Generator {
    var state: Word

    constructor Seeded(baseSeed: Word, generation: nat)
      requires generation < 0x1_0000_0000
      ensures state == SeedState(baseSeed, generation)
    {
      var mixed := Add(Multiply(baseSeed, GOLDEN), Multiply(generation, GENERATION_MIX));
      state := Add(mixed, GOLDEN);
    }

    method Next() returns (word: Word)
      modifies this
      ensures state == Add(old(state), GOLDEN)
      ensures word == NextWord(old(state))
    {
      state := Add(state, GOLDEN);
      var z := state;
      z := Multiply(Shifted(z, 30), MIX1);
      z := Multiply(Shifted(z, 27), MIX2);
      word := Shifted(z, 31);
    }

    method Uniform() returns (u: real)
      modifies this
      ensures Draw(u, state) == DrawUnit(old(state))
    {
      var word := Next();
      u := UnitOf(word);
    }

    method Below(n: nat) returns (i: nat)
      modifies this
      ensures Draw(i, state) == DrawIndex(old(state), n)
    {
      if n == 0 {
        return 0;
      }
      var word := Next();
      i := word % n;
    }

    method Chance(p: real) returns (b: bool)
      modifies this
      ensures Draw(b, state) == DrawChance(old(state), p)
    {
      var u := Uniform();
      b := u < p;
    }
  }
}
