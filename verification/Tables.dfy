// Keyed tables: chunked upserts, and picking the newest of a set of instants.
module Tables {
  import opened Prelude

  datatype StoreError = DuplicateKeyInStatement

  datatype Entry<+K, +V> = Entry(key: K, value: V)

  // The table and the reported row count, or the error that stopped the batch.
  datatype Upserted<K, V> = Upserted(table: map<K, V>, outcome: Result<nat, StoreError>)

  // Rows applied one after another: the last one for a key wins.
  function Put<K, V>(t: map<K, V>, rows: seq<Entry<K, V>>): map<K, V> {
    if rows == [] then t else Put(t, rows[..|rows| - 1])[rows[|rows| - 1].key := rows[|rows| - 1].value]
  }

  predicate RepeatsKey<K(==), V>(rows: seq<Entry<K, V>>) {
    exists i, j :: 0 <= i < j < |rows| && rows[i].key == rows[j].key
  }

  // One statement per chunk, each committed on its own. A statement may not touch a key twice.
  function UpsertChunks<K(==), V>(t: map<K, V>, rows: seq<Entry<K, V>>, size: nat): Upserted<K, V>
    requires size > 0
    decreases |rows|
  {
    if rows == [] then Upserted(t, Ok(0))
    else
      var n := MinNat(size, |rows|);
      if RepeatsKey(rows[..n]) then Upserted(t, Err(DuplicateKeyInStatement))
      else
        Counted(n, UpsertChunks(Put(t, rows[..n]), rows[n..], size))
  }

  // A result with some rows already counted.
  function Counted<K, V>(n: nat, u: Upserted<K, V>): Upserted<K, V> {
    if u.outcome.Ok? then Upserted(u.table, Ok(n + u.outcome.value)) else u
  }

  ghost predicate Touches<K, V>(rows: seq<Entry<K, V>>, key: K) {
    exists i :: 0 <= i < |rows| && rows[i].key == key
  }

  lemma {:induction false} PutTouchesOnly<K, V>(t: map<K, V>, rows: seq<Entry<K, V>>, key: K)
    ensures !Touches(rows, key) ==> (key in Put(t, rows) <==> key in t)
    ensures !Touches(rows, key) && key in t ==> Put(t, rows)[key] == t[key]
    ensures Touches(rows, key) ==> key in Put(t, rows)
  {
    if rows != [] {
      var n := |rows| - 1;
      PutTouchesOnly(t, rows[..n], key);
      assert Touches(rows[..n], key) ==> Touches(rows, key);
      assert Touches(rows, key) ==> rows[n].key == key || Touches(rows[..n], key);
      assert rows[n].key == key ==> Touches(rows, key);
    }
  }

  lemma {:induction false} PutConcat<K, V>(t: map<K, V>, xs: seq<Entry<K, V>>, ys: seq<Entry<K, V>>)
    ensures Put(Put(t, xs), ys) == Put(t, xs + ys)
  {
    if ys == [] {
      assert xs + ys == xs;
    } else {
      var n := |ys| - 1;
      PutConcat(t, xs, ys[..n]);
      assert (xs + ys)[..|xs + ys| - 1] == xs + ys[..n];
    }
  }

  // A batch that succeeds writes all its rows, counting each; one that fails has written the
  // chunks before the offending one. Either way no other key changes.
  lemma {:induction false} UpsertWrites<K, V>(t: map<K, V>, rows: seq<Entry<K, V>>, size: nat)
    requires size > 0
    ensures var u := UpsertChunks(t, rows, size);
            && (u.outcome.Ok? ==> u.outcome.value == |rows| && u.table == Put(t, rows))
            && exists n: nat :: n <= |rows| && u.table == Put(t, rows[..n])
    decreases |rows|
  {
    if rows == [] {
      assert rows[..0] == [];
    } else {
      var n := MinNat(size, |rows|);
      if RepeatsKey(rows[..n]) {
        assert rows[..0] == [];
        assert Put(t, rows[..0]) == t;
      } else {
        UpsertWrites(Put(t, rows[..n]), rows[n..], size);
        UpsertPrefix(t, rows, n, UpsertChunks(Put(t, rows[..n]), rows[n..], size).table);
        PutConcat(t, rows[..n], rows[n..]);
        assert rows[..n] + rows[n..] == rows;
      }
    }
  }

  lemma UpsertPrefix<K, V>(t: map<K, V>, rows: seq<Entry<K, V>>, n: nat, after: map<K, V>)
    requires n <= |rows|
    requires exists m: nat :: m <= |rows[n..]| && after == Put(Put(t, rows[..n]), rows[n..][..m])
    ensures exists m: nat :: m <= |rows| && after == Put(t, rows[..m])
  {
    var m: nat :| m <= |rows[n..]| && after == Put(Put(t, rows[..n]), rows[n..][..m]);
    PutConcat(t, rows[..n], rows[n..][..m]);
    TakeOn(rows, n, m);
  }

  lemma TakeOn<T>(xs: seq<T>, n: nat, m: nat)
    requires n + m <= |xs|
    ensures xs[..n] + xs[n..][..m] == xs[..n + m]
  {
  }

  lemma UpsertTouchesOnly<K, V>(t: map<K, V>, rows: seq<Entry<K, V>>, size: nat, key: K)
    requires size > 0 && !Touches(rows, key)
    ensures var after := UpsertChunks(t, rows, size).table;
            (key in after <==> key in t) && (key in t ==> after[key] == t[key])
  {
    UpsertWrites(t, rows, size);
    var after := UpsertChunks(t, rows, size).table;
    var n: nat :| n <= |rows| && after == Put(t, rows[..n]);
    assert !Touches(rows[..n], key);
    PutTouchesOnly(t, rows[..n], key);
  }

  // The value a key is left with is the one in its last row.
  lemma {:induction false} PutLast<K, V>(t: map<K, V>, rows: seq<Entry<K, V>>, i: nat)
    requires i < |rows| && forall j :: i < j < |rows| ==> rows[j].key != rows[i].key
    ensures rows[i].key in Put(t, rows) && Put(t, rows)[rows[i].key] == rows[i].value
  {
    var n := |rows| - 1;
    if i < n {
      PutLast(t, rows[..n], i);
    }
  }

  lemma {:induction false} PutAgain<K, V>(t: map<K, V>, rows: seq<Entry<K, V>>, key: K)
    ensures Touches(rows, key) ==>
              key in Put(t, rows) && key in Put(Put(t, rows), rows) && Put(Put(t, rows), rows)[key] == Put(t, rows)[key]
  {
    if Touches(rows, key) {
      var i := LastTouch(rows, key);
      PutLast(t, rows, i);
      PutLast(Put(t, rows), rows, i);
    }
  }

  lemma {:induction false} LastTouch<K, V>(rows: seq<Entry<K, V>>, key: K) returns (i: nat)
    requires Touches(rows, key)
    ensures i < |rows| && rows[i].key == key && forall j :: i < j < |rows| ==> rows[j].key != key
  {
    var n := |rows| - 1;
    if rows[n].key == key {
      i := n;
    } else {
      var k :| 0 <= k < |rows| && rows[k].key == key;
      assert rows[..n][k].key == key;
      i := LastTouch(rows[..n], key);
    }
  }

  // Whether a batch succeeds depends on its rows alone.
  lemma {:induction false} OutcomeIsTheRows<K, V>(t: map<K, V>, t': map<K, V>, rows: seq<Entry<K, V>>, size: nat)
    requires size > 0
    ensures UpsertChunks(t, rows, size).outcome == UpsertChunks(t', rows, size).outcome
    decreases |rows|
  {
    if rows != [] {
      var n := MinNat(size, |rows|);
      OutcomeIsTheRows(Put(t, rows[..n]), Put(t', rows[..n]), rows[n..], size);
    }
  }

  // Repeating a successful batch changes nothing and succeeds again.
  lemma UpsertIdempotent<K, V>(t: map<K, V>, rows: seq<Entry<K, V>>, size: nat)
    requires size > 0 && UpsertChunks(t, rows, size).outcome.Ok?
    ensures var once := UpsertChunks(t, rows, size);
            UpsertChunks(once.table, rows, size) == once
  {
    var once := UpsertChunks(t, rows, size).table;
    UpsertWrites(t, rows, size);
    UpsertWrites(once, rows, size);
    OutcomeIsTheRows(t, once, rows, size);
    var twice := Put(once, rows);
    forall key | key in twice ensures key in once {
      PutTouchesOnly(once, rows, key);
      PutAgain(t, rows, key);
    }
    forall key | key in once ensures key in twice {
      PutTouchesOnly(once, rows, key);
      PutAgain(t, rows, key);
    }
    forall key | key in once ensures twice[key] == once[key] {
      PutTouchesOnly(once, rows, key);
      PutAgain(t, rows, key);
    }
    assert twice.Keys == once.Keys;
    assert twice == once;
  }

  // ---- newest first --------------------------------------------------------------------

  lemma Inhabitant<T>(s: set<T>) returns (x: T)
    requires s != {}
    ensures x in s
  {
    x :| x in s;
  }

  lemma {:induction false} HasGreatest(s: set<int>) returns (m: int)
    requires s != {}
    ensures m in s && forall x :: x in s ==> x <= m
    decreases s
  {
    var x := Inhabitant(s);
    var rest := s - {x};
    if rest == {} {
      m := x;
      assert s == {x};
    } else {
      var y := HasGreatest(rest);
      m := if x < y then y else x;
      assert forall z :: z in s ==> z == x || z in rest;
    }
  }

  function Greatest(s: set<int>): (m: int)
    requires s != {}
    ensures m in s && forall x :: x in s ==> x <= m
  {
    GreatestExists(s);
    var m :| m in s && forall x :: x in s ==> x <= m;
    m
  }

  lemma GreatestExists(s: set<int>)
    requires s != {}
    ensures exists m :: m in s && forall x :: x in s ==> x <= m
  {
    var m := HasGreatest(s);
  }

  // The n greatest elements, in ascending order.
  function Recent(s: set<int>, n: nat): (r: seq<int>)
    ensures |r| == MinNat(n, |s|)
    decreases n
  {
    if n == 0 || s == {} then []
    else Recent(s - {Greatest(s)}, n - 1) + [Greatest(s)]
  }

  lemma {:induction false} RecentMember(s: set<int>, n: nat, i: nat)
    requires i < |Recent(s, n)|
    ensures Recent(s, n)[i] in s
    decreases n
  {
    var m := Greatest(s);
    if i < |Recent(s - {m}, n - 1)| {
      RecentMember(s - {m}, n - 1, i);
    }
  }

  lemma {:induction false} RecentAscends(s: set<int>, n: nat, i: nat, j: nat)
    requires i < j < |Recent(s, n)|
    ensures Recent(s, n)[i] < Recent(s, n)[j]
    decreases n
  {
    var m := Greatest(s);
    var rest := Recent(s - {m}, n - 1);
    if j < |rest| {
      RecentAscends(s - {m}, n - 1, i, j);
    } else {
      RecentMember(s - {m}, n - 1, i);
    }
  }

  // Whatever was left out is older than everything kept.
  lemma {:induction false} RecentIsNewest(s: set<int>, n: nat, x: int, i: nat)
    requires x in s && x !in Recent(s, n) && i < |Recent(s, n)|
    ensures x < Recent(s, n)[i]
    decreases n
  {
    var m := Greatest(s);
    var rest := Recent(s - {m}, n - 1);
    assert Recent(s, n)[|rest|] == m;
    if i < |rest| {
      assert forall k :: 0 <= k < |rest| ==> rest[k] == Recent(s, n)[k];
      RecentIsNewest(s - {m}, n - 1, x, i);
    }
  }
}
