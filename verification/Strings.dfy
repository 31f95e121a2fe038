// Lexicographic order, sorting, joining and decimal formatting of strings.
module Strings {

  // ---- the order -----------------------------------------------------------------

  predicate Leq(a: string, b: string) {
    if a == "" then true
    else if b == "" then false
    else if a[0] != b[0] then a[0] < b[0]
    else Leq(a[1..], b[1..])
  }

  lemma {:induction false} LeqTotal(a: string, b: string)
    ensures Leq(a, b) || Leq(b, a)
  {
    if a != "" && b != "" && a[0] == b[0] {
      LeqTotal(a[1..], b[1..]);
    }
  }

  lemma {:induction false} LeqAntisymmetric(a: string, b: string)
    requires Leq(a, b) && Leq(b, a)
    ensures a == b
  {
    if a != "" && b != "" {
      LeqAntisymmetric(a[1..], b[1..]);
      assert a == [a[0]] + a[1..] && b == [b[0]] + b[1..];
    }
  }

  lemma {:induction false} LeqTransitive(a: string, b: string, c: string)
    requires Leq(a, b) && Leq(b, c)
    ensures Leq(a, c)
  {
    if a != "" && b != "" && c != "" && a[0] == b[0] == c[0] {
      LeqTransitive(a[1..], b[1..], c[1..]);
    }
  }

  // ---- sorting -----------------------------------------------------------------------

  ghost predicate Ordered(xs: seq<string>) {
    |xs| >= 2 ==> Leq(xs[0], xs[1]) && Ordered(xs[1..])
  }

  lemma {:induction false} HeadIsLeast(xs: seq<string>, i: nat)
    requires Ordered(xs) && i < |xs|
    ensures Leq(xs[0], xs[i])
  {
    if i == 0 {
      LeqTotal(xs[0], xs[0]);
    } else {
      HeadIsLeast(xs[1..], i - 1);
      LeqTransitive(xs[0], xs[1], xs[i]);
    }
  }

  function Insert(x: string, xs: seq<string>): (r: seq<string>)
    ensures multiset(r) == multiset{x} + multiset(xs)
  {
    if xs == [] then [x]
    else if Leq(x, xs[0]) then [x] + xs
    else
      assert xs == [xs[0]] + xs[1..];
      [xs[0]] + Insert(x, xs[1..])
  }

  lemma {:induction false} InsertOrdered(x: string, xs: seq<string>)
    requires Ordered(xs)
    ensures Ordered(Insert(x, xs))
  {
    if xs != [] {
      if Leq(x, xs[0]) {
        assert ([x] + xs)[1..] == xs;
      } else {
        var rest := Insert(x, xs[1..]);
        InsertOrdered(x, xs[1..]);
        LeqTotal(x, xs[0]);
        assert ([xs[0]] + rest)[1..] == rest;
      }
    }
  }

  function Sort(xs: seq<string>): (r: seq<string>)
    ensures multiset(r) == multiset(xs)
  {
    if xs == [] then []
    else
      assert xs == [xs[0]] + xs[1..];
      Insert(xs[0], Sort(xs[1..]))
  }

  lemma {:induction false} SortIsOrdered(xs: seq<string>)
    ensures Ordered(Sort(xs))
  {
    if xs != [] {
      SortIsOrdered(xs[1..]);
      InsertOrdered(xs[0], Sort(xs[1..]));
    }
  }

  // Ordered sequences with the same elements are equal.
  lemma {:induction false} OrderedUnique(xs: seq<string>, ys: seq<string>)
    requires Ordered(xs) && Ordered(ys) && multiset(xs) == multiset(ys)
    ensures xs == ys
  {
    assert |xs| == |multiset(xs)| == |multiset(ys)| == |ys|;
    if xs != [] {
      HeadsAgree(xs, ys);
      TailCounts(xs);
      TailCounts(ys);
      OrderedUnique(xs[1..], ys[1..]);
      assert xs == [xs[0]] + xs[1..] && ys == [ys[0]] + ys[1..];
    }
  }

  lemma TailCounts(xs: seq<string>)
    requires xs != []
    ensures multiset(xs[1..]) == multiset(xs) - multiset{xs[0]}
  {
    assert xs == [xs[0]] + xs[1..];
  }

  lemma HeadsAgree(xs: seq<string>, ys: seq<string>)
    requires Ordered(xs) && Ordered(ys) && multiset(xs) == multiset(ys) && xs != [] && ys != []
    ensures xs[0] == ys[0]
  {
    assert ys[0] in multiset(xs) && xs[0] in multiset(ys);
    var i :| 0 <= i < |xs| && xs[i] == ys[0];
    var j :| 0 <= j < |ys| && ys[j] == xs[0];
    HeadIsLeast(xs, i);
    HeadIsLeast(ys, j);
    LeqAntisymmetric(xs[0], ys[0]);
  }

  lemma SortCanonical(xs: seq<string>, ys: seq<string>)
    ensures Sort(xs) == Sort(ys) <==> multiset(xs) == multiset(ys)
  {
    SortIsOrdered(xs);
    SortIsOrdered(ys);
    if multiset(xs) == multiset(ys) {
      OrderedUnique(Sort(xs), Sort(ys));
    }
  }

  lemma SortOne(x: string)
    ensures Sort([x]) == [x]
  {
    assert [x][1..] == [];
    assert Sort([]) == [];
  }

  lemma SortTwo(x: string, y: string)
    requires Leq(x, y)
    ensures Sort([x, y]) == [x, y]
  {
    hide Leq;
    SortOne(y);
    assert [x, y][1..] == [y];
    assert Insert(x, [y]) == [x] + [y];
  }

  // ---- splitting and joining --------------------------------------------------------

  // The text before the first separator is determined by the whole.
  lemma SplitAtFirst(a: string, x: string, b: string, y: string, c: char)
    requires c !in a && c !in b
    requires a + [c] + x == b + [c] + y
    ensures a == b && x == y
  {
    FirstNoLater(a, x, b, y, c);
    FirstNoLater(b, y, a, x, c);
    var s := a + [c] + x;
    assert a == s[..|a|] && b == s[..|b|];
    assert x == s[|a| + 1..] && y == s[|b| + 1..];
  }

  lemma FirstNoLater(a: string, x: string, b: string, y: string, c: char)
    requires c !in a && a + [c] + x == b + [c] + y
    ensures |a| <= |b|
  {
    var s := a + [c] + x;
    assert forall i :: 0 <= i < |a| ==> s[i] == a[i];
    assert s[|b|] == c;
  }

  // So is the text after the last one.
  lemma SplitAtLast(x: string, a: string, y: string, b: string, c: char)
    requires c !in a && c !in b
    requires x + [c] + a == y + [c] + b
    ensures a == b && x == y
  {
    LastNoEarlier(x, a, y, b, c);
    LastNoEarlier(y, b, x, a, c);
    var s := x + [c] + a;
    assert x == s[..|x|] && y == s[..|y|];
    assert a == s[|x| + 1..] && b == s[|y| + 1..];
  }

  lemma LastNoEarlier(x: string, a: string, y: string, b: string, c: char)
    requires c !in a && x + [c] + a == y + [c] + b
    ensures |y| <= |x|
  {
    var s := x + [c] + a;
    assert forall i :: |x| < i < |s| ==> s[i] == a[i - |x| - 1];
    assert s[|y|] == c;
  }

  function Join(xs: seq<string>, c: char): string {
    if xs == [] then "" else if |xs| == 1 then xs[0] else xs[0] + [c] + Join(xs[1..], c)
  }

  // No part is empty or holds the separator.
  ghost predicate Separable(xs: seq<string>, c: char) {
    forall i :: 0 <= i < |xs| ==> xs[i] != "" && c !in xs[i]
  }

  lemma {:induction false} JoinInjective(xs: seq<string>, ys: seq<string>, c: char)
    requires Separable(xs, c) && Separable(ys, c) && Join(xs, c) == Join(ys, c)
    ensures xs == ys
  {
    if |xs| <= 1 && |ys| <= 1 {
      if xs == [] || ys == [] {
        assert xs == ys == [];
      } else {
        assert xs == [xs[0]] && ys == [ys[0]];
      }
    } else if |xs| <= 1 {
      JoinHasSeparator(ys, c);
      assert false;
    } else if |ys| <= 1 {
      JoinHasSeparator(xs, c);
      assert false;
    } else {
      SplitAtFirst(xs[0], Join(xs[1..], c), ys[0], Join(ys[1..], c), c);
      JoinInjective(xs[1..], ys[1..], c);
      assert xs == [xs[0]] + xs[1..] && ys == [ys[0]] + ys[1..];
    }
  }

  lemma JoinHasSeparator(xs: seq<string>, c: char)
    requires |xs| >= 2
    ensures c in Join(xs, c)
  {
    assert Join(xs, c)[|xs[0]|] == c;
  }

  // ---- decimals ------------------------------------------------------------------------

  function Digit(d: nat): (c: char)
    requires d < 10
    ensures '0' <= c <= '9'
  {
    ('0' as int + d) as char
  }

  function Digits(n: nat): string {
    if n < 10 then [Digit(n)] else Digits(n / 10) + [Digit(n % 10)]
  }

  function Padded(n: nat, places: nat): (s: string)
    ensures |s| == places
  {
    if places == 0 then "" else Padded(n / 10, places - 1) + [Digit(n % 10)]
  }

  // A count with its last decimal places dropped.
  function Whole(n: nat, places: nat): nat {
    if places == 0 then n else Whole(n / 10, places - 1)
  }

  ghost predicate AllDigits(s: string) {
    forall i :: 0 <= i < |s| ==> '0' <= s[i] <= '9'
  }

  lemma {:induction false} DigitsAreDigits(n: nat)
    ensures AllDigits(Digits(n)) && Digits(n) != ""
  {
    if n >= 10 {
      DigitsAreDigits(n / 10);
    }
  }

  lemma {:induction false} PaddedIsDigits(n: nat, places: nat)
    ensures AllDigits(Padded(n, places))
  {
    if places > 0 {
      PaddedIsDigits(n / 10, places - 1);
    }
  }

  lemma SnocInjective(s: string, c: char, t: string, d: char)
    requires s + [c] == t + [d]
    ensures s == t && c == d
  {
    assert |s| == |t|;
    assert (s + [c])[|s|] == c && (t + [d])[|t|] == d;
    assert s == (s + [c])[..|s|] && t == (t + [d])[..|t|];
  }

  lemma {:induction false} DigitsInjective(m: nat, n: nat)
    requires Digits(m) == Digits(n)
    ensures m == n
  {
    DigitsLength(m);
    DigitsLength(n);
    if m >= 10 && n >= 10 {
      SnocInjective(Digits(m / 10), Digit(m % 10), Digits(n / 10), Digit(n % 10));
      DigitsInjective(m / 10, n / 10);
    }
  }

  lemma DigitsLength(n: nat)
    ensures n < 10 <==> |Digits(n)| == 1
  {
    if n >= 10 {
      DigitsAreDigits(n / 10);
    }
  }

  lemma {:induction false} PaddedInjective(m: nat, n: nat, places: nat)
    requires Whole(m, places) == Whole(n, places) && Padded(m, places) == Padded(n, places)
    ensures m == n
  {
    if places > 0 {
      SnocInjective(Padded(m / 10, places - 1), Digit(m % 10), Padded(n / 10, places - 1), Digit(n % 10));
      PaddedInjective(m / 10, n / 10, places - 1);
    }
  }

  // A non-negative count of units in the last place, written out with that many decimals.
  function Decimal(units: nat, places: nat): string {
    Digits(Whole(units, places)) + ['.'] + Padded(units, places)
  }

  lemma DecimalInjective(m: nat, n: nat, places: nat)
    requires Decimal(m, places) == Decimal(n, places)
    ensures m == n
  {
    var a, b := Whole(m, places), Whole(n, places);
    DigitsAreDigits(a);
    DigitsAreDigits(b);
    SplitAtFirst(Digits(a), Padded(m, places), Digits(b), Padded(n, places), '.');
    DigitsInjective(a, b);
    PaddedInjective(m, n, places);
  }

  function Signed(units: int, places: nat): string {
    if units < 0 then "-" + Decimal(-units, places) else Decimal(units, places)
  }

  lemma DecimalHead(n: nat, places: nat)
    ensures Decimal(n, places) != "" && '0' <= Decimal(n, places)[0] <= '9'
  {
    DigitsAreDigits(Whole(n, places));
  }

  lemma SignedInjective(m: int, n: int, places: nat)
    requires Signed(m, places) == Signed(n, places)
    ensures m == n
  {
    DecimalHead(if m < 0 then -m else m, places);
    DecimalHead(if n < 0 then -n else n, places);
    if m < 0 && n < 0 {
      assert Decimal(-m, places) == Signed(m, places)[1..];
      assert Decimal(-n, places) == Signed(n, places)[1..];
      DecimalInjective(-m, -n, places);
    } else if m >= 0 && n >= 0 {
      DecimalInjective(m, n, places);
    }
  }
}
