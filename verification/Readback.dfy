// What goes in comes out: a stored row, read back as of an instant at which it is the newest.
module Readback {
  import opened Prelude
  import opened Tables
  import opened Pit

  // Each bar read carries the stored prices and volume of its own instant, field by field.
  lemma StoredPrices(t: BarTable, ticker: string, cadence: string, lookback: int, cutoff: int, i: nat)
    requires i < |ReadBars(t, ticker, cadence, lookback, cutoff)|
    ensures var bar := ReadBars(t, ticker, cadence, lookback, cutoff)[i];
            var k := BarKey(ticker, cadence, bar.ts);
            && k in t
            && bar.open == t[k].open && bar.high == t[k].high && bar.low == t[k].low
            && bar.close == t[k].close && bar.volume == t[k].volume
  {
    var times, n := BarTimes(t, ticker, cadence, cutoff), AtLeastZero(lookback);
    RecentMember(times, n, i);
    BarTimeStored(t, ticker, cadence, cutoff, Recent(times, n)[i]);
  }

  // A lookback as long as the record reaches all of it.
  lemma {:induction false} RecentHolds(s: set<int>, n: nat, x: int) returns (i: nat)
    requires x in s && n >= |s|
    ensures i < |Recent(s, n)| && Recent(s, n)[i] == x
    decreases n
  {
    assert |s| > 0;
    var m := Greatest(s);
    if x == m {
      i := |Recent(s - {m}, n - 1)|;
    } else {
      i := RecentHolds(s - {m}, n - 1, x);
    }
  }

  // The last row of a batch for its key.
  ghost predicate LastFor<K, V>(rows: seq<Entry<K, V>>, i: nat)
    requires i < |rows|
  {
    forall j :: i < j < |rows| ==> rows[j].key != rows[i].key
  }

  lemma LastForSticks<K, V>(t: map<K, V>, rows: seq<Entry<K, V>>, size: nat, i: nat)
    requires size > 0 && i < |rows| && LastFor(rows, i) && UpsertChunks(t, rows, size).outcome.Ok?
    ensures var after := UpsertChunks(t, rows, size).table;
            rows[i].key in after && after[rows[i].key] == rows[i].value
  {
    UpsertWrites(t, rows, size);
    PutLast(t, rows, i);
  }

  lemma FromBatchOrBefore<K, V>(t: map<K, V>, rows: seq<Entry<K, V>>, size: nat, key: K)
    requires size > 0 && key in UpsertChunks(t, rows, size).table
    ensures key in t || Touches(rows, key)
  {
    if !Touches(rows, key) {
      UpsertTouchesOnly(t, rows, size, key);
    }
  }

  // A batch of bars written and read as of any later instant gives back each of its bars: the one
  // it ended with for that ticker and time, whatever was stored before.
  lemma BarsReadBack(c: Contents, bars: seq<TickerBar>, cadence: string, source: string, i: nat,
                     lookback: int, cutoff: int) returns (j: nat)
    requires UpsertChunks(c.bars, BarEntries(bars, cadence, source), BAR_CHUNK).outcome.Ok?
    requires i < |bars| && forall k :: i < k < |bars| ==>
               bars[k].ticker != bars[i].ticker || bars[k].bar.ts != bars[i].bar.ts
    requires bars[i].bar.ts <= cutoff
    requires lookback >= |BarTimes(Written(c, WriteBars(bars, cadence, source)).bars, bars[i].ticker, cadence, cutoff)|
    ensures var read := ReadBars(Written(c, WriteBars(bars, cadence, source)).bars, bars[i].ticker, cadence,
                                 lookback, cutoff);
            j < |read| && read[j] == bars[i].bar
  {
    var rows := BarEntries(bars, cadence, source);
    var t := UpsertChunks(c.bars, rows, BAR_CHUNK).table;
    var ticker, bar := bars[i].ticker, bars[i].bar;
    assert LastFor(rows, i);
    LastForSticks(c.bars, rows, BAR_CHUNK, i);
    hide UpsertChunks;
    var k := BarKey(ticker, cadence, bar.ts);
    assert k in t && t[k] == BarValue(bar.open, bar.high, bar.low, bar.close, bar.volume, source, bar.ts);
    var times := BarTimes(t, ticker, cadence, cutoff);
    assert bar.ts in times;
    j := RecentHolds(times, lookback, bar.ts);
    StoredPrices(t, ticker, cadence, lookback, cutoff, j);
  }

  // No version of the feature visible at the cutoff is newer than k.
  ghost predicate NoneNewer(keys: iset<FeatureKey>, k: FeatureKey, cutoff: int) {
    forall j :: j in keys && j.ticker == k.ticker && j.key == k.key && j.decisionTs <= cutoff && j.asOf <= cutoff ==>
      j.decisionTs < k.decisionTs || (j.decisionTs == k.decisionTs && j.asOf <= k.asOf)
  }

  ghost function KeysOf<K(!new), V>(t: map<K, V>, rows: seq<Entry<K, V>>): iset<K> {
    iset k | k in t || Touches(rows, k)
  }

  // A feature written, and newest of all stored or written versions visible at the cutoff, is what
  // the read returns, with its value, layer, knowledge time, lead time and source.
  lemma FeatureReadsBack(c: Contents, rows: seq<Entry<FeatureKey, FeatureValue>>, i: nat, cutoff: int)
    requires UpsertChunks(c.features, rows, FEATURE_CHUNK).outcome.Ok? && i < |rows| && LastFor(rows, i)
    requires rows[i].key.decisionTs <= cutoff && rows[i].key.asOf <= cutoff
    requires NoneNewer(KeysOf(c.features, rows), rows[i].key, cutoff)
    ensures var k, v := rows[i].key, rows[i].value;
            && ReadFeature(Written(c, WriteFeatures(rows)).features, k.ticker, k.key, cutoff)
               == Some(Feature(k.key, v.value, v.layer, k.asOf, v.leadTime, v.source))
  {
    var k := rows[i].key;
    LastForSticks(c.features, rows, FEATURE_CHUNK, i);
    var t := UpsertChunks(c.features, rows, FEATURE_CHUNK).table;
    forall j | Matches(t, j, k.ticker, k.key, None, cutoff)
      ensures j.decisionTs < k.decisionTs || (j.decisionTs == k.decisionTs && j.asOf <= k.asOf)
    {
      FromBatchOrBefore(c.features, rows, FEATURE_CHUNK, j);
      assert j in KeysOf(c.features, rows);
    }
    hide UpsertChunks;
    NewestUnique(t, k.ticker, k.key, None, cutoff, k);
  }

  // No vintage of the date visible at the cutoff is newer than k.
  ghost predicate NoneLater(keys: iset<MacroKey>, k: MacroKey, cutoff: int) {
    forall j :: j in keys && j.series == k.series && j.ts == k.ts && j.asOf <= cutoff ==> j.asOf <= k.asOf
  }

  lemma NewestVintageIs(t: MacroTable, k: MacroKey, cutoff: int)
    requires k in t && k.ts <= cutoff && k.asOf <= cutoff
    requires NoneLater((iset j | j in t), k, cutoff)
    ensures k.ts in MacroDates(t, k.series, cutoff)
    ensures VintageValue(t, k.series, cutoff, k.ts) == t[k].value
  {
    assert k.ts in MacroDates(t, k.series, cutoff);
    DateHasVintage(t, k.series, cutoff, k.ts);
    var vintages := MacroVintages(t, k.series, cutoff, k.ts);
    assert k.asOf in vintages;
    MacroVintageStored(t, k.series, cutoff, k.ts, Greatest(vintages));
  }

  // A reference date's vintage written, and newest of those visible at the cutoff, gives the date
  // its value.
  lemma MacroReadsBack(c: Contents, rows: seq<Entry<MacroKey, MacroValue>>, i: nat, cutoff: int)
    requires UpsertChunks(c.macros, rows, MACRO_CHUNK).outcome.Ok? && i < |rows| && LastFor(rows, i)
    requires rows[i].key.ts <= cutoff && rows[i].key.asOf <= cutoff
    requires NoneLater(KeysOf(c.macros, rows), rows[i].key, cutoff)
    ensures var k, t := rows[i].key, Written(c, WriteMacro(rows)).macros;
            k.ts in MacroDates(t, k.series, cutoff) && VintageValue(t, k.series, cutoff, k.ts) == rows[i].value.value
  {
    hide MacroDates, VintageValue;
    var k, t := rows[i].key, UpsertChunks(c.macros, rows, MACRO_CHUNK).table;
    LastForSticks(c.macros, rows, MACRO_CHUNK, i);
    forall j | j in t ensures j in KeysOf(c.macros, rows) {
      FromBatchOrBefore(c.macros, rows, MACRO_CHUNK, j);
    }
    hide UpsertChunks;
    NewestVintageIs(t, k, cutoff);
  }

  // As of an instant after all that is stored, the value of a series is its latest date's.
  lemma LatestDateDecides(t: MacroTable, series: string, cutoff: int)
    requires MacroDates(t, series, cutoff) != {}
    ensures exists ts :: ts in MacroDates(t, series, cutoff)
              && MacroValueAsOf(t, series, cutoff) == Some(VintageValue(t, series, cutoff, ts))
              && forall other :: other in MacroDates(t, series, cutoff) ==> other <= ts
  {
    var ts := Greatest(MacroDates(t, series, cutoff));
    assert MacroValueAsOf(t, series, cutoff) == Some(VintageValue(t, series, cutoff, ts));
  }

  // ---- when a batch fails -------------------------------------------------------------------------

  // Two rows of one statement name the same key.
  ghost predicate RepeatsWithin<K, V>(rows: seq<Entry<K, V>>, size: nat)
    requires size > 0
  {
    exists i: nat, j: nat :: SameStatement(rows, size, i, j)
  }

  ghost predicate SameStatement<K, V>(rows: seq<Entry<K, V>>, size: nat, i: nat, j: nat)
    requires size > 0
  {
    i < j < |rows| && i / size == j / size && rows[i].key == rows[j].key
  }

  lemma QuotientSteps(i: nat, size: nat)
    requires size > 0
    ensures i < size ==> i / size == 0
    ensures i >= size ==> i / size == (i - size) / size + 1
  {
    if i < size {
      DivisionIs(i, size, 0, i);
    } else {
      Division(i - size, size);
      OneStepOn((i - size) / size, size);
      DivisionIs(i, size, (i - size) / size + 1, (i - size) % size);
    }
  }

  lemma Division(i: nat, n: nat)
    requires n > 0
    ensures i == i / n * n + i % n && i % n < n
  {
  }

  lemma DivisionIs(i: nat, n: nat, q: nat, r: nat)
    requires n > 0 && i == q * n + r && r < n
    ensures i / n == q
  {
    Division(i, n);
    QuotientUnique(i, n, q, r, i / n, i % n);
  }

  lemma OneStepOn(q: nat, n: nat)
    ensures (q + 1) * n == q * n + n
  {
  }

  lemma QuotientUnique(i: nat, n: nat, q: nat, r: nat, p: nat, t: nat)
    requires n > 0 && i == q * n + r && r < n && i == p * n + t && t < n
    ensures p == q
  {
    if p > q {
      AtLeastNext(p, q, n);
    } else if p < q {
      AtLeastNext(q, p, n);
    }
  }

  lemma AtLeastNext(p: nat, q: nat, n: nat)
    requires p > q
    ensures p * n >= q * n + n
  {
    var k := p - q - 1;
    assert p * n == q * n + n + k * n;
  }

  lemma FirstStatement<K, V>(rows: seq<Entry<K, V>>, size: nat)
    requires size > 0 && RepeatsKey(rows[..MinNat(size, |rows|)])
    ensures RepeatsWithin(rows, size)
  {
    var first := rows[..MinNat(size, |rows|)];
    var i, j :| 0 <= i < j < |first| && first[i].key == first[j].key;
    QuotientSteps(i, size);
    QuotientSteps(j, size);
    assert SameStatement(rows, size, i, j);
  }

  lemma FirstRepeats<K, V>(rows: seq<Entry<K, V>>, size: nat, i: nat, j: nat)
    requires size > 0 && SameStatement(rows, size, i, j) && i < MinNat(size, |rows|)
    ensures RepeatsKey(rows[..MinNat(size, |rows|)])
  {
    QuotientSteps(i, size);
    QuotientSteps(j, size);
    var first := rows[..MinNat(size, |rows|)];
    assert first[i].key == first[j].key;
  }

  lemma LaterStatements<K, V>(rows: seq<Entry<K, V>>, size: nat)
    requires size > 0 && !RepeatsKey(rows[..MinNat(size, |rows|)])
    ensures RepeatsWithin(rows, size) <==> RepeatsWithin(rows[MinNat(size, |rows|)..], size)
  {
    var n := MinNat(size, |rows|);
    var rest := rows[n..];
    if i: nat, j: nat :| SameStatement(rows, size, i, j) {
      assert i >= n by {
        if i < n {
          FirstRepeats(rows, size, i, j);
        }
      }
      QuotientSteps(i, size);
      QuotientSteps(j, size);
      assert SameStatement(rest, size, i - n, j - n);
    }
    if i: nat, j: nat :| SameStatement(rest, size, i, j) {
      QuotientSteps(i + n, size);
      QuotientSteps(j + n, size);
      assert SameStatement(rows, size, i + n, j + n);
    }
  }

  // A batch fails exactly when two rows of one statement name the same key; it may name a key again
  // in another.
  lemma {:induction false} UpsertFailsIff<K, V>(t: map<K, V>, rows: seq<Entry<K, V>>, size: nat)
    requires size > 0
    ensures UpsertChunks(t, rows, size).outcome.Err? <==> RepeatsWithin(rows, size)
    decreases |rows|
  {
    hide RepeatsKey, Put, RepeatsWithin;
    if rows == [] {
      NothingRepeats<K, V>(size);
    } else {
      var n := MinNat(size, |rows|);
      if RepeatsKey(rows[..n]) {
        FirstStatement(rows, size);
      } else {
        LaterStatements(rows, size);
        UpsertFailsIff(Put(t, rows[..n]), rows[n..], size);
      }
    }
  }

  lemma NothingRepeats<K, V>(size: nat)
    requires size > 0
    ensures !RepeatsWithin<K, V>([], size)
  {
  }

  // Statements hold two thousand bars or features, or five thousand macro points.
  lemma StatementSizes(c: Contents, bars: seq<Entry<BarKey, BarValue>>,
                       features: seq<Entry<FeatureKey, FeatureValue>>, points: seq<Entry<MacroKey, MacroValue>>)
    ensures UpsertChunks(c.bars, bars, BAR_CHUNK).outcome.Err? <==> RepeatsWithin(bars, 2000)
    ensures UpsertChunks(c.features, features, FEATURE_CHUNK).outcome.Err? <==> RepeatsWithin(features, 2000)
    ensures UpsertChunks(c.macros, points, MACRO_CHUNK).outcome.Err? <==> RepeatsWithin(points, 5000)
  {
    hide UpsertChunks, RepeatsWithin;
    UpsertFailsIff(c.bars, bars, BAR_CHUNK);
    UpsertFailsIff(c.features, features, FEATURE_CHUNK);
    UpsertFailsIff(c.macros, points, MACRO_CHUNK);
  }
}
