// Shared vocabulary: options, results, elementary real arithmetic and sums.
module Prelude {
  import opened Arith

  datatype Option<+T> = None | Some(value: T)

  datatype Result<+T, +E> = Ok(value: T) | Err(error: E)

  function Abs(x: real): real {
    if x < 0.0 then -x else x
  }

  function MaxReal(x: real, y: real): real {
    if x < y then y else x
  }

  function MinReal(x: real, y: real): real {
    if y < x then y else x
  }

  function MinNat(x: nat, y: nat): nat {
    if y < x then y else x
  }

  function MaxNat(x: nat, y: nat): nat {
    if x < y then y else x
  }

  function Clamp(x: real, lo: real, hi: real): real {
    if x < lo then lo else if x > hi then hi else x
  }

  // The least integer not below x.
  function Ceil(x: real): (c: int)
    ensures x <= c as real < x + 1.0
  {
    -((-x).Floor)
  }

  // Rounding to the nearest integer, ties away from zero.
  function RoundHalfAway(x: real): int {
    if x >= 0.0 then (x + 0.5).Floor else -((-x + 0.5).Floor)
  }

  // Sums are taken from the left, as the iterators of the source take them.
  function Sum(xs: seq<real>): real {
    if xs == [] then 0.0 else Sum(xs[..|xs| - 1]) + xs[|xs| - 1]
  }

  function Mean(xs: seq<real>): real
    requires xs != []
  {
    Sum(xs) / |xs| as real
  }

  lemma {:induction false} SumConcat(xs: seq<real>, ys: seq<real>)
    ensures Sum(xs + ys) == Sum(xs) + Sum(ys)
  {
    if ys == [] {
      assert xs + ys == xs;
    } else {
      var n := |ys| - 1;
      SumConcat(xs, ys[..n]);
      assert (xs + ys)[..|xs + ys| - 1] == xs + ys[..n];
    }
  }

  lemma SumSnoc(xs: seq<real>, k: nat)
    requires k < |xs|
    ensures Sum(xs[..k + 1]) == Sum(xs[..k]) + xs[k]
  {
    assert xs[..k + 1][..k] == xs[..k];
  }

  function Plus(xs: seq<real>, ys: seq<real>): (r: seq<real>)
    requires |xs| == |ys|
    ensures |r| == |xs|
  {
    seq(|xs|, i requires 0 <= i < |xs| => xs[i] + ys[i])
  }

  function Scaled(a: real, xs: seq<real>): (r: seq<real>)
    ensures |r| == |xs|
  {
    seq(|xs|, i requires 0 <= i < |xs| => a * xs[i])
  }

  // Sums are linear, term by term.
  lemma {:induction false} SumPlus(xs: seq<real>, ys: seq<real>)
    requires |xs| == |ys|
    ensures Sum(Plus(xs, ys)) == Sum(xs) + Sum(ys)
  {
    if xs != [] {
      var n := |xs| - 1;
      SumPlus(xs[..n], ys[..n]);
      assert Plus(xs, ys)[..n] == Plus(xs[..n], ys[..n]);
    }
  }

  lemma ScaledPrefix(a: real, xs: seq<real>)
    requires xs != []
    ensures Scaled(a, xs)[..|xs| - 1] == Scaled(a, xs[..|xs| - 1])
  {
    var short, rest := xs[..|xs| - 1], Scaled(a, xs)[..|xs| - 1];
    forall i | 0 <= i < |short| ensures rest[i] == Scaled(a, short)[i] {
      assert xs[i] == short[i];
    }
  }

  lemma {:induction false} SumScaled(a: real, xs: seq<real>)
    ensures Sum(Scaled(a, xs)) == a * Sum(xs)
  {
    if xs != [] {
      var n := |xs| - 1;
      SumScaled(a, xs[..n]);
      ScaledPrefix(a, xs);
      Distribute(a, Sum(xs[..n]), xs[n]);
    }
  }

  lemma {:induction false} SumNonNegative(xs: seq<real>)
    requires forall i :: 0 <= i < |xs| ==> xs[i] >= 0.0
    ensures forall i :: 0 <= i < |xs| ==> xs[i] <= Sum(xs)
    ensures Sum(xs) >= 0.0
  {
    if xs != [] {
      SumNonNegative(xs[..|xs| - 1]);
    }
  }

  // The sum of f over xs.
  function SumBy<T>(xs: seq<T>, f: T -> real): real {
    if xs == [] then 0.0 else SumBy(xs[..|xs| - 1], f) + f(xs[|xs| - 1])
  }

  lemma {:induction false} SumByConcat<T>(xs: seq<T>, ys: seq<T>, f: T -> real)
    ensures SumBy(xs + ys, f) == SumBy(xs, f) + SumBy(ys, f)
  {
    if ys == [] {
      assert xs + ys == xs;
    } else {
      var n := |ys| - 1;
      SumByConcat(xs, ys[..n], f);
      assert (xs + ys)[..|xs + ys| - 1] == xs + ys[..n];
    }
  }

  function Without<T>(xs: seq<T>, j: nat): seq<T>
    requires j < |xs|
  {
    xs[..j] + xs[j + 1..]
  }

  lemma SplitAt<T>(xs: seq<T>, j: nat)
    requires j < |xs|
    ensures xs[..j] + [xs[j]] + xs[j + 1..] == xs
  {
  }

  lemma WithoutMultiset<T>(xs: seq<T>, j: nat)
    requires j < |xs|
    ensures multiset(xs) == multiset(Without(xs, j)) + multiset{xs[j]}
  {
    SplitAt(xs, j);
  }

  lemma SumBySnoc<T>(xs: seq<T>, x: T, f: T -> real)
    ensures SumBy(xs + [x], f) == SumBy(xs, f) + f(x)
  {
    assert (xs + [x])[..|xs|] == xs;
  }

  lemma SumByMiddle<T>(before: seq<T>, x: T, after: seq<T>, f: T -> real)
    ensures SumBy(before + [x] + after, f) == SumBy(before + after, f) + f(x)
  {
    SumByConcat(before + [x], after, f);
    SumBySnoc(before, x, f);
    SumByConcat(before, after, f);
  }

  lemma SumByWithout<T>(xs: seq<T>, j: nat, f: T -> real)
    requires j < |xs|
    ensures SumBy(xs, f) == SumBy(Without(xs, j), f) + f(xs[j])
  {
    SplitAt(xs, j);
    SumByMiddle(xs[..j], xs[j], xs[j + 1..], f);
  }

  // Two arrangements of one multiset share their last element's removal.
  lemma MatchLast<T>(xs: seq<T>, ys: seq<T>) returns (j: nat)
    requires multiset(xs) == multiset(ys) && xs != []
    ensures j < |ys| && ys[j] == xs[|xs| - 1]
    ensures multiset(xs[..|xs| - 1]) == multiset(Without(ys, j))
  {
    var n := |xs| - 1;
    assert xs == xs[..n] + [xs[n]];
    assert xs[n] in multiset(ys);
    j :| 0 <= j < |ys| && ys[j] == xs[n];
    WithoutMultiset(ys, j);
    assert multiset(xs) == multiset(xs[..n]) + multiset{xs[n]};
    assert multiset(xs) - multiset{xs[n]} == multiset(xs[..n]);
  }

  // Rearranging a sequence does not change any sum over it.
  lemma {:induction false} SumByPermutation<T>(xs: seq<T>, ys: seq<T>, f: T -> real)
    requires multiset(xs) == multiset(ys)
    ensures SumBy(xs, f) == SumBy(ys, f)
    decreases |xs|
  {
    if xs == [] {
      assert |multiset(ys)| == 0;
    } else {
      var j := MatchLast(xs, ys);
      SumByPermutation(xs[..|xs| - 1], Without(ys, j), f);
      SumByWithout(ys, j, f);
    }
  }

  function MapSeq<T, U>(xs: seq<T>, f: T -> U): (r: seq<U>)
    ensures |r| == |xs|
    ensures forall i :: 0 <= i < |xs| ==> r[i] == f(xs[i])
  {
    seq(|xs|, i requires 0 <= i < |xs| => f(xs[i]))
  }

  // Rearranging a sequence rearranges its image.
  lemma {:induction false} MapFollows<T, U>(xs: seq<T>, ys: seq<T>, f: T -> U)
    requires multiset(xs) == multiset(ys)
    ensures multiset(MapSeq(xs, f)) == multiset(MapSeq(ys, f))
    decreases |xs|
  {
    if xs == [] {
      assert |multiset(ys)| == 0;
    } else {
      var n := |xs| - 1;
      var j := MatchLast(xs, ys);
      MapFollows(xs[..n], Without(ys, j), f);
      assert MapSeq(xs, f) == MapSeq(xs[..n], f) + [f(xs[n])];
      assert Without(MapSeq(ys, f), j) == MapSeq(Without(ys, j), f);
      WithoutMultiset(MapSeq(ys, f), j);
    }
  }

  ghost predicate SeparatedBy<T, U>(xs: seq<T>, ys: seq<T>, f: T -> U) {
    forall i, j :: 0 <= i < |xs| && 0 <= j < |ys| && f(xs[i]) == f(ys[j]) ==> xs[i] == ys[j]
  }

  // Where the function tells the elements apart, arrangements of the image come from
  // arrangements of the sequence.
  lemma {:induction false} MapReflects<T, U>(xs: seq<T>, ys: seq<T>, f: T -> U)
    requires SeparatedBy(xs, ys, f) && multiset(MapSeq(xs, f)) == multiset(MapSeq(ys, f))
    ensures multiset(xs) == multiset(ys)
    decreases |xs|
  {
    assert |multiset(MapSeq(xs, f))| == |xs| && |multiset(MapSeq(ys, f))| == |ys|;
    if xs == [] {
      assert ys == [];
    } else {
      var n := |xs| - 1;
      var j := MatchLast(MapSeq(xs, f), MapSeq(ys, f));
      assert MapSeq(xs, f)[..n] == MapSeq(xs[..n], f);
      assert Without(MapSeq(ys, f), j) == MapSeq(Without(ys, j), f);
      MapReflects(xs[..n], Without(ys, j), f);
      WithoutMultiset(ys, j);
      assert xs == xs[..n] + [xs[n]];
    }
  }
}
