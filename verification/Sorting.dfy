// The library sorts the source calls, as functions with the contract the
// library documents: ascending, a permutation, and stable where ties can be told apart.
module Sorting {
  import opened Prelude

  // Stable ascending sort by an integer key.
  ghost predicate SortedBy<T>(xs: seq<T>, key: T -> int) {
    forall i, j :: 0 <= i < j < |xs| ==> key(xs[i]) <= key(xs[j])
  }

  function InsertBy<T>(x: T, xs: seq<T>, key: T -> int): (r: seq<T>)
    ensures multiset(r) == multiset(xs) + multiset{x}
    ensures |r| == |xs| + 1
  {
    if xs == [] then [x]
    else
      var n := |xs| - 1;
      assert xs == xs[..n] + [xs[n]];
      if key(xs[n]) <= key(x) then xs + [x]
      else InsertBy(x, xs[..n], key) + [xs[n]]
  }

  function StableSort<T>(xs: seq<T>, key: T -> int): (r: seq<T>)
    ensures multiset(r) == multiset(xs)
    ensures |r| == |xs|
  {
    if xs == [] then []
    else
      assert xs == xs[..|xs| - 1] + [xs[|xs| - 1]];
      InsertBy(xs[|xs| - 1], StableSort(xs[..|xs| - 1], key), key)
  }

  lemma {:induction false} InsertByBound<T>(x: T, xs: seq<T>, key: T -> int, hi: int)
    requires key(x) <= hi && forall i :: 0 <= i < |xs| ==> key(xs[i]) <= hi
    ensures forall i :: 0 <= i < |InsertBy(x, xs, key)| ==> key(InsertBy(x, xs, key)[i]) <= hi
  {
    if xs != [] && key(xs[|xs| - 1]) > key(x) {
      InsertByBound(x, xs[..|xs| - 1], key, hi);
    }
  }

  lemma {:induction false} InsertBySorted<T>(x: T, xs: seq<T>, key: T -> int)
    requires SortedBy(xs, key)
    ensures SortedBy(InsertBy(x, xs, key), key)
  {
    if xs != [] && key(xs[|xs| - 1]) > key(x) {
      var n := |xs| - 1;
      InsertBySorted(x, xs[..n], key);
      InsertByBound(x, xs[..n], key, key(xs[n]));
      AppendSorted(InsertBy(x, xs[..n], key), xs[n], key);
    } else {
      assert forall i :: 0 <= i < |xs| ==> key(xs[i]) <= key(x);
    }
  }

  lemma AppendSorted<T>(xs: seq<T>, x: T, key: T -> int)
    requires SortedBy(xs, key) && forall i :: 0 <= i < |xs| ==> key(xs[i]) <= key(x)
    ensures SortedBy(xs + [x], key)
  {
  }

  lemma {:induction false} StableSortSorted<T>(xs: seq<T>, key: T -> int)
    ensures SortedBy(StableSort(xs, key), key)
  {
    if xs != [] {
      StableSortSorted(xs[..|xs| - 1], key);
      InsertBySorted(xs[|xs| - 1], StableSort(xs[..|xs| - 1], key), key);
    }
  }

  // Sorting what is already sorted changes nothing.
  lemma {:induction false} StableSortIdentity<T>(xs: seq<T>, key: T -> int)
    requires SortedBy(xs, key)
    ensures StableSort(xs, key) == xs
  {
    if xs != [] {
      var n := |xs| - 1;
      assert SortedBy(xs[..n], key);
      StableSortIdentity(xs[..n], key);
      InsertAtEnd(xs[n], xs[..n], key);
      assert xs == xs[..n] + [xs[n]];
    }
  }

  function Filter<T>(xs: seq<T>, keep: T -> bool): seq<T> {
    if xs == [] then []
    else Filter(xs[..|xs| - 1], keep) + (if keep(xs[|xs| - 1]) then [xs[|xs| - 1]] else [])
  }

  lemma {:induction false} FilterMember<T>(xs: seq<T>, keep: T -> bool, i: nat)
    requires i < |Filter(xs, keep)|
    ensures Filter(xs, keep)[i] in xs && keep(Filter(xs, keep)[i])
  {
    var n := |xs| - 1;
    if i < |Filter(xs[..n], keep)| {
      FilterMember(xs[..n], keep, i);
    }
  }

  lemma {:induction false} FilterHolds<T>(xs: seq<T>, keep: T -> bool, i: nat)
    requires i < |xs| && keep(xs[i])
    ensures xs[i] in Filter(xs, keep)
  {
    var n := |xs| - 1;
    if i < n {
      FilterHolds(xs[..n], keep, i);
    }
  }

  // The places of the elements kept.
  ghost function KeptAt<T>(xs: seq<T>, keep: T -> bool): set<int> {
    set i | 0 <= i < |xs| && keep(xs[i])
  }

  lemma KeptGrows<T>(xs: seq<T>, keep: T -> bool)
    requires xs != []
    ensures var n := |xs| - 1;
            && KeptAt(xs[..n], keep) == KeptAt(xs, keep) - {n}
            && |KeptAt(xs, keep)| == |KeptAt(xs[..n], keep)| + (if keep(xs[n]) then 1 else 0)
  {
    var n := |xs| - 1;
    var before, all := KeptAt(xs[..n], keep), KeptAt(xs, keep);
    assert before == all - {n};
    if keep(xs[n]) {
      assert all == before + {n};
    } else {
      assert all == before;
    }
  }

  lemma {:induction false} FilterCounts<T>(xs: seq<T>, keep: T -> bool)
    ensures |Filter(xs, keep)| == |KeptAt(xs, keep)|
  {
    if xs != [] {
      FilterCounts(xs[..|xs| - 1], keep);
      KeptGrows(xs, keep);
    }
  }

  lemma FilterSnoc<T>(xs: seq<T>, x: T, keep: T -> bool)
    ensures Filter(xs + [x], keep) == Filter(xs, keep) + (if keep(x) then [x] else [])
  {
    assert (xs + [x])[..|xs|] == xs;
  }

  lemma {:induction false} FilterConcat<T>(xs: seq<T>, ys: seq<T>, keep: T -> bool)
    ensures Filter(xs + ys, keep) == Filter(xs, keep) + Filter(ys, keep)
  {
    if ys == [] {
      assert xs + ys == xs;
      assert Filter(xs, keep) + [] == Filter(xs, keep);
    } else {
      var n := |ys| - 1;
      hide Filter;
      FilterConcat(xs, ys[..n], keep);
      FilterSnoc(xs + ys[..n], ys[n], keep);
      FilterLast(ys, keep);
      Regroup(xs, ys[..n], [ys[n]]);
      Regroup(Filter(xs, keep), Filter(ys[..n], keep), if keep(ys[n]) then [ys[n]] else []);
      assert ys == ys[..n] + [ys[n]];
    }
  }

  lemma Regroup<T>(xs: seq<T>, ys: seq<T>, zs: seq<T>)
    ensures xs + ys + zs == xs + (ys + zs)
  {
  }

  lemma InsertAtEnd<T>(x: T, xs: seq<T>, key: T -> int)
    requires xs != [] ==> key(xs[|xs| - 1]) <= key(x)
    ensures InsertBy(x, xs, key) == xs + [x]
  {
  }

  lemma InsertInside<T>(x: T, xs: seq<T>, y: T, key: T -> int)
    requires key(y) > key(x)
    ensures InsertBy(x, xs + [y], key) == InsertBy(x, xs, key) + [y]
  {
    assert (xs + [y])[..|xs|] == xs;
  }

  lemma {:induction false} FilterAll<T>(xs: seq<T>, keep: T -> bool)
    requires forall i :: 0 <= i < |xs| ==> keep(xs[i])
    ensures Filter(xs, keep) == xs
  {
    if xs != [] {
      FilterAll(xs[..|xs| - 1], keep);
      assert xs == xs[..|xs| - 1] + [xs[|xs| - 1]];
    }
  }

  lemma {:induction false} FilterTwice<T>(xs: seq<T>, p: T -> bool, q: T -> bool, both: T -> bool)
    requires forall i :: 0 <= i < |xs| ==> (both(xs[i]) <==> p(xs[i]) && q(xs[i]))
    ensures Filter(Filter(xs, p), q) == Filter(xs, both)
  {
    if xs != [] {
      var n := |xs| - 1;
      FilterTwice(xs[..n], p, q, both);
      if p(xs[n]) {
        FilterSnoc(Filter(xs[..n], p), xs[n], q);
      } else {
        assert Filter(xs, p) == Filter(xs[..n], p);
      }
    }
  }

  lemma {:induction false} FilterNone<T>(xs: seq<T>, keep: T -> bool)
    requires forall i :: 0 <= i < |xs| ==> !keep(xs[i])
    ensures Filter(xs, keep) == []
  {
    if xs != [] {
      FilterNone(xs[..|xs| - 1], keep);
    }
  }

  lemma {:induction false} FilterPointwise<T>(xs: seq<T>, ys: seq<T>, keep: T -> bool)
    requires |xs| == |ys|
    requires forall i :: 0 <= i < |xs| ==> (keep(xs[i]) <==> keep(ys[i])) && (keep(xs[i]) ==> xs[i] == ys[i])
    ensures Filter(xs, keep) == Filter(ys, keep)
  {
    if xs != [] {
      FilterPointwise(xs[..|xs| - 1], ys[..|ys| - 1], keep);
    }
  }

  lemma {:induction false} FilterAlike<T>(xs: seq<T>, p: T -> bool, q: T -> bool)
    requires forall i :: 0 <= i < |xs| ==> (p(xs[i]) <==> q(xs[i]))
    ensures Filter(xs, p) == Filter(xs, q)
  {
    if xs != [] {
      FilterAlike(xs[..|xs| - 1], p, q);
    }
  }

  // What fails the test past a prefix leaves the prefix's selection.
  lemma FilterPrefix<T>(xs: seq<T>, front: seq<T>, keep: T -> bool)
    requires front <= xs && forall i :: |front| <= i < |xs| ==> !keep(xs[i])
    ensures Filter(xs, keep) == Filter(front, keep)
  {
    var rest := xs[|front|..];
    FilterNone(rest, keep);
    FilterConcat(front, rest, keep);
    assert xs == front + rest;
  }

  lemma FilterLast<T>(xs: seq<T>, keep: T -> bool)
    requires xs != []
    ensures Filter(xs, keep) == Filter(xs[..|xs| - 1], keep) + (if keep(xs[|xs| - 1]) then [xs[|xs| - 1]] else [])
  {
  }

  lemma FilterBelow<T>(xs: seq<T>, key: T -> int, keep: T -> bool, bound: int)
    requires SortedBy(xs, key)
    requires xs != [] ==> key(xs[|xs| - 1]) <= bound
    ensures Filter(xs, keep) != [] ==> key(Filter(xs, keep)[|Filter(xs, keep)| - 1]) <= bound
  {
    var f := Filter(xs, keep);
    if f != [] {
      FilterMember(xs, keep, |f| - 1);
    }
  }

  // Filtering after an insertion is inserting after the filter.
  lemma {:induction false} FilterSorted<T>(xs: seq<T>, key: T -> int, keep: T -> bool)
    requires SortedBy(xs, key)
    ensures SortedBy(Filter(xs, keep), key)
  {
    if xs != [] {
      var n := |xs| - 1;
      FilterSorted(xs[..n], key, keep);
      FilterBounded(xs[..n], key, keep, key(xs[n]));
      if keep(xs[n]) {
        AppendSorted(Filter(xs[..n], keep), xs[n], key);
      }
    }
  }

  lemma FilterBounded<T>(xs: seq<T>, key: T -> int, keep: T -> bool, bound: int)
    requires forall i :: 0 <= i < |xs| ==> key(xs[i]) <= bound
    ensures forall i :: 0 <= i < |Filter(xs, keep)| ==> key(Filter(xs, keep)[i]) <= bound
  {
    forall i | 0 <= i < |Filter(xs, keep)| ensures key(Filter(xs, keep)[i]) <= bound {
      FilterMember(xs, keep, i);
    }
  }

  // A sorted sequence of elements each low or high, the low no later than the bound and the high
  // past it, is its low part and then its high part.
  lemma {:induction false} SortedSplits<T>(xs: seq<T>, key: T -> int, low: T -> bool, high: T -> bool, bound: int)
    requires SortedBy(xs, key)
    requires forall i :: 0 <= i < |xs| ==> if key(xs[i]) <= bound then low(xs[i]) && !high(xs[i])
                                            else high(xs[i]) && !low(xs[i])
    ensures xs == Filter(xs, low) + Filter(xs, high)
  {
    if xs != [] {
      var n := |xs| - 1;
      if key(xs[n]) <= bound {
        hide Filter;
        assert forall i :: 0 <= i < |xs| ==> key(xs[i]) <= bound;
        FilterAll(xs, low);
        FilterNone(xs, high);
        assert xs + [] == xs;
      } else {
        SortedSplits(xs[..n], key, low, high, bound);
        FilterLast(xs, low);
        FilterLast(xs, high);
        hide Filter, SortedBy;
        SnocSplit(xs, Filter(xs[..n], low), Filter(xs[..n], high));
      }
    }
  }

  lemma SnocSplit<T>(xs: seq<T>, l: seq<T>, h: seq<T>)
    requires xs != [] && xs[..|xs| - 1] == l + h
    ensures xs == (l + []) + (h + [xs[|xs| - 1]])
  {
    assert l + [] == l;
    Regroup(l, h, [xs[|xs| - 1]]);
    assert xs == xs[..|xs| - 1] + [xs[|xs| - 1]];
  }

  // ---- the elements at one key ----------------------------------------------------------

  function AtKey<T>(key: T -> int, k: int): T -> bool {
    (x: T) => key(x) == k
  }

  // Two sorted sequences alike at every key are the same.
  lemma {:induction false} SortedByKeys<T>(xs: seq<T>, ys: seq<T>, key: T -> int)
    requires SortedBy(xs, key) && SortedBy(ys, key)
    requires forall k :: Filter(xs, AtKey(key, k)) == Filter(ys, AtKey(key, k))
    ensures xs == ys
    decreases |xs|
  {
    hide Filter;
    if xs != [] {
      LastKeyReached(xs, ys, key);
    }
    if ys != [] {
      LastKeyReached(ys, xs, key);
    }
    if xs != [] {
      var n, m := |xs| - 1, |ys| - 1;
      FilterLast(xs, AtKey(key, key(xs[n])));
      FilterLast(ys, AtKey(key, key(xs[n])));
      LastOfEqual(Filter(xs[..n], AtKey(key, key(xs[n]))), xs[n], Filter(ys[..m], AtKey(key, key(xs[n]))), ys[m]);
      forall k ensures Filter(xs[..n], AtKey(key, k)) == Filter(ys[..m], AtKey(key, k)) {
        FrontsAlike(xs, ys, AtKey(key, k));
      }
      SortedByKeys(xs[..n], ys[..m], key);
      assert xs == xs[..n] + [xs[n]] && ys == ys[..m] + [ys[m]];
    }
  }

  lemma LastKeyReached<T>(xs: seq<T>, ys: seq<T>, key: T -> int)
    requires xs != [] && SortedBy(ys, key)
    requires Filter(xs, AtKey(key, key(xs[|xs| - 1]))) == Filter(ys, AtKey(key, key(xs[|xs| - 1])))
    ensures ys != [] && key(xs[|xs| - 1]) <= key(ys[|ys| - 1])
  {
    var keep := AtKey(key, key(xs[|xs| - 1]));
    FilterLast(xs, keep);
    var j := KeptPlace(ys, keep);
    hide Filter;
    LastIsLatest(ys, key, j);
  }

  lemma KeptPlace<T>(xs: seq<T>, keep: T -> bool) returns (i: nat)
    requires Filter(xs, keep) != []
    ensures i < |xs| && keep(xs[i])
  {
    FilterMember(xs, keep, 0);
    i :| 0 <= i < |xs| && xs[i] == Filter(xs, keep)[0];
  }

  lemma LastIsLatest<T>(xs: seq<T>, key: T -> int, i: nat)
    requires SortedBy(xs, key) && i < |xs|
    ensures key(xs[i]) <= key(xs[|xs| - 1])
  {
  }

  lemma FrontsAlike<T>(xs: seq<T>, ys: seq<T>, keep: T -> bool)
    requires xs != [] && ys != [] && xs[|xs| - 1] == ys[|ys| - 1] && Filter(xs, keep) == Filter(ys, keep)
    ensures Filter(xs[..|xs| - 1], keep) == Filter(ys[..|ys| - 1], keep)
  {
    hide Filter;
    FilterLast(xs, keep);
    FilterLast(ys, keep);
    SameFronts(Filter(xs[..|xs| - 1], keep), Filter(ys[..|ys| - 1], keep),
               if keep(xs[|xs| - 1]) then [xs[|xs| - 1]] else []);
  }

  lemma SameFronts<T>(xs: seq<T>, ys: seq<T>, end: seq<T>)
    requires xs + end == ys + end
    ensures xs == ys
  {
    assert |xs + end| == |ys + end|;
    assert xs == (xs + end)[..|xs|] && ys == (ys + end)[..|ys|];
  }

  lemma LastOfEqual<T>(xs: seq<T>, x: T, ys: seq<T>, y: T)
    requires xs + [x] == ys + [y]
    ensures x == y && xs == ys
  {
    var all := xs + [x];
    assert all[|all| - 1] == x && all[..|all| - 1] == xs;
    assert (ys + [y])[|all| - 1] == y && (ys + [y])[..|all| - 1] == ys;
  }

  ghost predicate StrictBy<T>(xs: seq<T>, key: T -> int) {
    forall i, j :: 0 <= i < j < |xs| ==> key(xs[i]) < key(xs[j])
  }

  lemma StrictPlace<T>(xs: seq<T>, key: T -> int, i: nat, j: nat)
    requires StrictBy(xs, key) && i < |xs| && j < |xs| && key(xs[i]) == key(xs[j])
    ensures i == j
  {
  }

  lemma {:induction false} FilterStrict<T>(xs: seq<T>, key: T -> int, keep: T -> bool)
    requires StrictBy(xs, key)
    ensures StrictBy(Filter(xs, keep), key)
  {
    if xs != [] {
      var n := |xs| - 1;
      FilterStrict(xs[..n], key, keep);
      FilterBounded(xs[..n], key, keep, key(xs[n]) - 1);
      FilterLast(xs, keep);
    }
  }

  // A strictly sorted sequence has one element at each of its keys.
  lemma StrictAtKey<T>(xs: seq<T>, key: T -> int, i: nat)
    requires StrictBy(xs, key) && i < |xs|
    ensures Filter(xs, AtKey(key, key(xs[i]))) == [xs[i]]
  {
    var keep, front := AtKey(key, key(xs[i])), xs[..i + 1];
    assert front[..|front| - 1] == xs[..i];
    FilterPrefix(xs, front, keep);
    FilterLast(front, keep);
    FilterNone(xs[..i], keep);
  }

  // Equal elements have only one order.
  lemma ConstantSame<T>(xs: seq<T>, ys: seq<T>)
    requires multiset(xs) == multiset(ys) && forall i, j :: 0 <= i < |xs| && 0 <= j < |xs| ==> xs[i] == xs[j]
    ensures xs == ys
  {
    assert |xs| == |multiset(xs)| == |multiset(ys)| == |ys|;
    forall i | 0 <= i < |xs| ensures xs[i] == ys[i] {
      assert ys[i] in multiset(xs);
    }
  }

  // ---- gathering ------------------------------------------------------------------------

  function FlatMap<T, U>(xs: seq<T>, f: T -> seq<U>): seq<U> {
    if xs == [] then [] else FlatMap(xs[..|xs| - 1], f) + f(xs[|xs| - 1])
  }

  lemma {:induction false} FlatMapConcat<T, U>(xs: seq<T>, ys: seq<T>, f: T -> seq<U>)
    ensures FlatMap(xs + ys, f) == FlatMap(xs, f) + FlatMap(ys, f)
  {
    if ys == [] {
      assert xs + ys == xs;
      assert FlatMap(xs, f) + [] == FlatMap(xs, f);
    } else {
      var n := |ys| - 1;
      FlatMapConcat(xs, ys[..n], f);
      assert (xs + ys)[..|xs + ys| - 1] == xs + ys[..n];
      Regroup(FlatMap(xs, f), FlatMap(ys[..n], f), f(ys[n]));
    }
  }

  lemma FlatMapOne<T, U>(x: T, f: T -> seq<U>)
    ensures FlatMap([x], f) == f(x)
  {
    assert [x][..0] == [];
    assert FlatMap([], f) + f(x) == f(x);
  }

  // Gathering from the same elements in another order gathers the same.
  lemma {:induction false} FlatMapPermute<T, U>(xs: seq<T>, ys: seq<T>, f: T -> seq<U>)
    requires multiset(xs) == multiset(ys)
    ensures multiset(FlatMap(xs, f)) == multiset(FlatMap(ys, f))
    decreases |xs|
  {
    assert |xs| == |multiset(xs)| == |multiset(ys)| == |ys|;
    if xs != [] {
      var n, x := |xs| - 1, xs[|xs| - 1];
      assert x in multiset(ys);
      var j :| 0 <= j < |ys| && ys[j] == x;
      var rest := ys[..j] + ys[j + 1..];
      DropLastMultiset(xs);
      WithoutOne(ys, j);
      assert multiset(rest) == multiset(ys) - multiset{x};
      FlatMapPermute(xs[..n], rest, f);
      FlatMapAround(ys, j, f);
    }
  }

  lemma WithoutOne<T>(ys: seq<T>, j: nat)
    requires j < |ys|
    ensures multiset(ys) == multiset(ys[..j] + ys[j + 1..]) + multiset{ys[j]}
  {
    assert ys == ys[..j] + [ys[j]] + ys[j + 1..];
  }

  lemma FlatMapAround<T, U>(ys: seq<T>, j: nat, f: T -> seq<U>)
    requires j < |ys|
    ensures multiset(FlatMap(ys, f)) == multiset(FlatMap(ys[..j] + ys[j + 1..], f)) + multiset(f(ys[j]))
  {
    hide FlatMap;
    var front, back := ys[..j], ys[j + 1..];
    assert ys == front + [ys[j]] + back;
    FlatMapOne(ys[j], f);
    FlatMapConcat(front + [ys[j]], back, f);
    FlatMapConcat(front, [ys[j]], f);
    FlatMapConcat(front, back, f);
    CountAround(FlatMap(front, f), f(ys[j]), FlatMap(back, f));
  }

  lemma CountAround<T>(xs: seq<T>, ys: seq<T>, zs: seq<T>)
    ensures multiset(xs + ys + zs) == multiset(xs + zs) + multiset(ys)
  {
  }

  lemma {:induction false} FilterIsFlatMap<T>(xs: seq<T>, keep: T -> bool)
    ensures Filter(xs, keep) == FlatMap(xs, (x: T) => if keep(x) then [x] else [])
  {
    if xs != [] {
      FilterIsFlatMap(xs[..|xs| - 1], keep);
    }
  }

  lemma FilterPermute<T>(xs: seq<T>, ys: seq<T>, keep: T -> bool)
    requires multiset(xs) == multiset(ys)
    ensures multiset(Filter(xs, keep)) == multiset(Filter(ys, keep))
  {
    hide Filter, FlatMap;
    FilterIsFlatMap(xs, keep);
    FilterIsFlatMap(ys, keep);
    FlatMapPermute(xs, ys, (x: T) => if keep(x) then [x] else []);
  }

  lemma {:induction false} FlatMapMember<T, U>(xs: seq<T>, f: T -> seq<U>, k: nat) returns (i: nat, x: nat)
    requires k < |FlatMap(xs, f)|
    ensures i < |xs| && x < |f(xs[i])| && FlatMap(xs, f)[k] == f(xs[i])[x]
  {
    var n := |xs| - 1;
    if k < |FlatMap(xs[..n], f)| {
      i, x := FlatMapMember(xs[..n], f, k);
    } else {
      i, x := n, k - |FlatMap(xs[..n], f)|;
    }
  }

  // ---- a filtered stable sort --------------------------------------------------------------

  lemma {:induction false} FilterInsert<T>(x: T, xs: seq<T>, key: T -> int, keep: T -> bool)
    requires SortedBy(xs, key)
    ensures Filter(InsertBy(x, xs, key), keep)
         == if keep(x) then InsertBy(x, Filter(xs, keep), key) else Filter(xs, keep)
    decreases |xs|, 1
  {
    if xs == [] || key(xs[|xs| - 1]) <= key(x) {
      FilterSnoc(xs, x, keep);
      FilterBelow(xs, key, keep, key(x));
      InsertAtEnd(x, Filter(xs, keep), key);
      InsertAtEnd(x, xs, key);
    } else {
      FilterInsertInside(x, xs, key, keep);
    }
  }

  lemma {:induction false} FilterInsertInside<T>(x: T, xs: seq<T>, key: T -> int, keep: T -> bool)
    requires SortedBy(xs, key) && xs != [] && key(xs[|xs| - 1]) > key(x)
    ensures Filter(InsertBy(x, xs, key), keep)
         == if keep(x) then InsertBy(x, Filter(xs, keep), key) else Filter(xs, keep)
    decreases |xs|, 0
  {
    var n := |xs| - 1;
    var rest, last := xs[..n], xs[n];
    var f := Filter(rest, keep);
    FilterInsert(x, rest, key, keep);
    assert InsertBy(x, xs, key) == InsertBy(x, rest, key) + [last];
    FilterSnoc(InsertBy(x, rest, key), last, keep);
    FilterLast(xs, keep);
    if keep(last) {
      InsertInside(x, f, last, key);
    } else {
      assert Filter(xs, keep) == f;
    }
  }

  // A stable sort and a filter commute.
  lemma {:induction false} FilterStableSort<T>(xs: seq<T>, key: T -> int, keep: T -> bool)
    ensures Filter(StableSort(xs, key), keep) == StableSort(Filter(xs, keep), key)
  {
    if xs != [] {
      var n := |xs| - 1;
      FilterStableSort(xs[..n], key, keep);
      StableSortSorted(xs[..n], key);
      FilterInsert(xs[n], StableSort(xs[..n], key), key, keep);
      FilterLast(xs, keep);
      if keep(xs[n]) {
        StableSortSnoc(Filter(xs[..n], keep), xs[n], key);
      } else {
        assert Filter(xs, keep) == Filter(xs[..n], keep);
      }
    }
  }

  lemma StableSortSnoc<T>(xs: seq<T>, x: T, key: T -> int)
    ensures StableSort(xs + [x], key) == InsertBy(x, StableSort(xs, key), key)
  {
    assert (xs + [x])[..|xs|] == xs;
  }

  // Ascending sort of reals.
  ghost predicate Ascending(xs: seq<real>) {
    forall i, j :: 0 <= i < j < |xs| ==> xs[i] <= xs[j]
  }

  function InsertReal(x: real, xs: seq<real>): (r: seq<real>)
    ensures multiset(r) == multiset(xs) + multiset{x}
    ensures |r| == |xs| + 1
  {
    if xs == [] then [x]
    else
      var n := |xs| - 1;
      assert xs == xs[..n] + [xs[n]];
      if xs[n] <= x then xs + [x] else InsertReal(x, xs[..n]) + [xs[n]]
  }

  lemma {:induction false} InsertRealBound(x: real, xs: seq<real>, hi: real)
    requires x <= hi && forall i :: 0 <= i < |xs| ==> xs[i] <= hi
    ensures forall i :: 0 <= i < |InsertReal(x, xs)| ==> InsertReal(x, xs)[i] <= hi
  {
    if xs != [] && xs[|xs| - 1] > x {
      InsertRealBound(x, xs[..|xs| - 1], hi);
    }
  }

  lemma {:induction false} InsertRealAscending(x: real, xs: seq<real>)
    requires Ascending(xs)
    ensures Ascending(InsertReal(x, xs))
  {
    if xs != [] && xs[|xs| - 1] > x {
      var n := |xs| - 1;
      InsertRealAscending(x, xs[..n]);
      InsertRealBound(x, xs[..n], xs[n]);
      AppendAscending(InsertReal(x, xs[..n]), xs[n]);
    } else {
      AppendAscending(xs, x);
    }
  }

  lemma AppendAscending(xs: seq<real>, x: real)
    requires Ascending(xs) && forall i :: 0 <= i < |xs| ==> xs[i] <= x
    ensures Ascending(xs + [x])
  {
  }

  function SortAscending(xs: seq<real>): (r: seq<real>)
    ensures multiset(r) == multiset(xs) && |r| == |xs|
  {
    if xs == [] then []
    else
      assert xs == xs[..|xs| - 1] + [xs[|xs| - 1]];
      InsertReal(xs[|xs| - 1], SortAscending(xs[..|xs| - 1]))
  }

  lemma {:induction false} SortAscendingIsAscending(xs: seq<real>)
    ensures Ascending(SortAscending(xs))
  {
    if xs != [] {
      SortAscendingIsAscending(xs[..|xs| - 1]);
      InsertRealAscending(xs[|xs| - 1], SortAscending(xs[..|xs| - 1]));
    }
  }

  // There is only one ascending arrangement of a multiset.
  lemma {:induction false} AscendingUnique(xs: seq<real>, ys: seq<real>)
    requires Ascending(xs) && Ascending(ys) && multiset(xs) == multiset(ys)
    ensures xs == ys
    decreases |xs|
  {
    assert |xs| == |multiset(xs)| == |multiset(ys)| == |ys|;
    if xs != [] {
      var n, m := |xs| - 1, |ys| - 1;
      LastIsGreatest(xs, ys[m], ys);
      LastIsGreatest(ys, xs[n], xs);
      DropEqualLast(xs, ys);
      AscendingUnique(xs[..n], ys[..m]);
      assert xs == xs[..n] + [xs[n]] && ys == ys[..m] + [ys[m]];
    }
  }

  lemma DropLastMultiset<T>(xs: seq<T>)
    requires xs != []
    ensures multiset(xs[..|xs| - 1]) == multiset(xs) - multiset{xs[|xs| - 1]}
  {
    assert xs == xs[..|xs| - 1] + [xs[|xs| - 1]];
  }

  lemma DropEqualLast<T>(xs: seq<T>, ys: seq<T>)
    requires xs != [] && ys != [] && xs[|xs| - 1] == ys[|ys| - 1]
    requires multiset(xs) == multiset(ys)
    ensures multiset(xs[..|xs| - 1]) == multiset(ys[..|ys| - 1])
  {
    DropLastMultiset(xs);
    DropLastMultiset(ys);
  }

  lemma LastIsGreatest(xs: seq<real>, y: real, ys: seq<real>)
    requires Ascending(xs) && xs != [] && multiset(xs) == multiset(ys) && y in ys
    ensures y <= xs[|xs| - 1]
  {
    assert y in multiset(ys);
    assert y in xs;
  }
}
