// How the streams of different seeds relate: they are all one cycle, entered at different places.
module Streams {
  import opened Rng

  lemma {:induction false} AdvanceAdds(s: Word, n: nat, k: nat)
    ensures Advance(Advance(s, n), k) == Advance(s, n + k)
  {
    if k > 0 {
      AdvanceAdds(s, n, k - 1);
    }
  }

  // Two states give the same words for ever exactly when they are the same state.
  lemma SameWordsIff(s: Word, t: Word)
    ensures (forall k: nat :: Output(s, k) == Output(t, k)) <==> s == t
  {
    if forall k: nat :: Output(s, k) == Output(t, k) {
      hide Finalise, Unfinalise;
      assert Advance(s, 0) == s && Advance(t, 0) == t;
      assert Output(s, 0) == Output(t, 0);
      FinaliseBijection(Add(s, GOLDEN));
      FinaliseBijection(Add(t, GOLDEN));
      AddInjective(s, t, GOLDEN);
    }
  }

  // One stream is another from its n-th word on exactly when n draws lead from the one's state to
  // the other's.
  lemma ShiftedIff(s: Word, t: Word, n: nat)
    ensures (forall k: nat :: Output(t, k) == Output(s, n + k)) <==> t == Advance(s, n)
  {
    hide NextWord;
    forall k: nat ensures Output(Advance(s, n), k) == Output(s, n + k) {
      AdvanceAdds(s, n, k);
    }
    SameWordsIff(t, Advance(s, n));
  }

  // The number of draws that leads from one state to another.
  function Draws(s: Word, t: Word): Word {
    Multiply(Wrap(t - s), GOLDEN_INV)
  }

  lemma GoldenDraws(z: Word)
    ensures Wrap(Multiply(z, GOLDEN_INV) * GOLDEN) == z
  {
    ConstantInverses();
    InversesSymmetric(GOLDEN, GOLDEN_INV);
    MultiplyInverse(z, GOLDEN_INV, GOLDEN);
  }

  // From any state some number of draws below 2^64 leads to any other: every stream, of every base
  // seed and generation, is a later part of every other.
  lemma OneCycle(s: Word, t: Word)
    ensures t == Advance(s, Draws(s, t))
    ensures forall k: nat :: Output(t, k) == Output(s, Draws(s, t) + k)
  {
    hide NextWord, Wrap, Multiply;
    var n := Draws(s, t);
    GoldenDraws(Wrap(t - s));
    AdvanceClosed(s, n);
    WrapsTo(s, t, n * GOLDEN);
    ShiftedIff(s, t, n);
  }

  lemma WrapsTo(s: Word, t: Word, x: int)
    requires Wrap(x) == Wrap(t - s)
    ensures Wrap(s + x) == t
  {
    var q := WrapEqual(x, t - s);
    WrapUnique(s + x, t, q);
  }

  // A generator starts at the base seed and the generation, each times an odd constant.
  lemma SeedStateIs(b: Word, g: nat)
    requires g < 0x1_0000_0000
    ensures SeedState(b, g) == Wrap(b * 0x9E37_79B9_7F4A_7C15 + g * 0xD1B5_4A32_D192_ED03 + 0x9E37_79B9_7F4A_7C15)
  {
    hide Wrap;
    WrapAdds(b * GOLDEN, g * GENERATION_MIX);
    WrapAdds(b * GOLDEN + g * GENERATION_MIX, GOLDEN);
    WrapWord(GOLDEN);
  }

  lemma WrapAdds(x: int, y: int)
    ensures Wrap(Wrap(x) + Wrap(y)) == Wrap(x + y)
  {
    var p := WrapQuotient(x);
    var q := WrapQuotient(y);
    var r := WrapQuotient(Wrap(x) + Wrap(y));
    WrapUnique(x + y, Wrap(Wrap(x) + Wrap(y)), p + q + r);
  }

  lemma WrapWord(w: Word)
    ensures Wrap(w) == w
  {
  }

  lemma NextSeedState(b: Word, g: nat)
    requires b + 1 < MODULUS && g < 0x1_0000_0000
    ensures SeedState(b + 1, g) == Advance(SeedState(b, g), 1)
  {
    hide Wrap, SeedState;
    SeedStateIs(b, g);
    SeedStateIs(b + 1, g);
    StepsOn(b * GOLDEN + g * GENERATION_MIX + GOLDEN, GOLDEN, (b + 1) * GOLDEN + g * GENERATION_MIX + GOLDEN);
    AdvanceClosed(SeedState(b, g), 1);
  }

  lemma StepsOn(x: int, w: Word, y: int)
    requires y == x + w
    ensures Wrap(y) == Wrap(Wrap(x) + w)
  {
    hide Wrap;
    WrapAdds(x, w);
    WrapWord(w);
  }

  // In every generation the stream of the next base seed is that of this one less its first word.
  lemma NextSeedIsNextWord(b: Word, g: nat, k: nat)
    requires b + 1 < MODULUS && g < 0x1_0000_0000
    ensures Output(SeedState(b + 1, g), k) == Output(SeedState(b, g), k + 1)
  {
    hide NextWord, SeedState, Advance, Output;
    NextSeedState(b, g);
    ShiftedIff(SeedState(b, g), SeedState(b + 1, g), 1);
  }

  lemma NextGenerationState(b: Word, g: nat)
    requires g + 1 < 0x1_0000_0000
    ensures SeedState(b, g + 1) == Advance(SeedState(b, g), Multiply(GENERATION_MIX, GOLDEN_INV))
  {
    hide Wrap, SeedState, Multiply;
    var s, n := SeedState(b, g), Multiply(GENERATION_MIX, GOLDEN_INV);
    SeedStateIs(b, g);
    SeedStateIs(b, g + 1);
    StepsOn(b * GOLDEN + g * GENERATION_MIX + GOLDEN, GENERATION_MIX,
            b * GOLDEN + (g + 1) * GENERATION_MIX + GOLDEN);
    GoldenDraws(GENERATION_MIX);
    AdvanceClosed(s, n);
    WrapAdds(s, n * GOLDEN);
    WrapWord(s);
  }

  // From one generation to the next the stream moves on by the same number of draws, whatever the
  // base seed and the generation.
  lemma NextGenerationIsShifted(b: Word, g: nat, k: nat)
    requires g + 1 < 0x1_0000_0000
    ensures Output(SeedState(b, g + 1), k) == Output(SeedState(b, g), Multiply(GENERATION_MIX, GOLDEN_INV) + k)
  {
    hide NextWord, SeedState, Advance, Output, Multiply;
    NextGenerationState(b, g);
    ShiftedIff(SeedState(b, g), SeedState(b, g + 1), Multiply(GENERATION_MIX, GOLDEN_INV));
  }
}
