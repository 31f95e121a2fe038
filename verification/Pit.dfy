// The bitemporal store: chunked writes, and reads as known at one decision instant.
module Pit {
  import opened Prelude
  import opened Market
  import opened Tables

  datatype BarKey = BarKey(ticker: string, cadence: string, ts: int)

  datatype BarValue = BarValue(open: real, high: real, low: real, close: real, volume: real, source: string, asOf: int)

  datatype FeatureKey = FeatureKey(ticker: string, key: string, decisionTs: int, asOf: int)

  datatype FeatureValue = FeatureValue(value: real, layer: Layer, leadTime: string, source: string)

  datatype MacroKey = MacroKey(series: string, ts: int, asOf: int)

  datatype MacroValue = MacroValue(value: real, leadTime: string, source: string)

  datatype Contents = Contents(
    bars: map<BarKey, BarValue>, features: map<FeatureKey, FeatureValue>, macros: map<MacroKey, MacroValue>)

  datatype TickerBar = TickerBar(ticker: string, bar: Bar)

  const BAR_CHUNK := 2000
  const FEATURE_CHUNK := 2000
  const MACRO_CHUNK := 5000

  // ---- writing ---------------------------------------------------------------------------

  // A bar is knowable at its own close.
  function BarEntry(cadence: string, source: string): TickerBar -> Entry<BarKey, BarValue> {
    (b: TickerBar) =>
      Entry(BarKey(b.ticker, cadence, b.bar.ts),
            BarValue(b.bar.open, b.bar.high, b.bar.low, b.bar.close, b.bar.volume, source, b.bar.ts))
  }

  function BarEntries(bars: seq<TickerBar>, cadence: string, source: string): (r: seq<Entry<BarKey, BarValue>>)
    ensures |r| == |bars|
  {
    MapSeq(bars, BarEntry(cadence, source))
  }

  datatype Write =
    | WriteBars(bars: seq<TickerBar>, cadence: string, source: string)
    | WriteFeatures(features: seq<Entry<FeatureKey, FeatureValue>>)
    | WriteMacro(points: seq<Entry<MacroKey, MacroValue>>)

  function Written(c: Contents, w: Write): Contents {
    match w
    case WriteBars(bars, cadence, source) =>
      c.(bars := UpsertChunks(c.bars, BarEntries(bars, cadence, source), BAR_CHUNK).table)
    case WriteFeatures(features) => c.(features := UpsertChunks(c.features, features, FEATURE_CHUNK).table)
    case WriteMacro(points) => c.(macros := UpsertChunks(c.macros, points, MACRO_CHUNK).table)
  }

  function WrittenAll(c: Contents, ws: seq<Write>): Contents {
    if ws == [] then c else Written(WrittenAll(c, ws[..|ws| - 1]), ws[|ws| - 1])
  }

  // One statement: all its rows or, when it names a key twice, none.
  method ExecuteUpsert<K(==), V>(t: map<K, V>, chunk: seq<Entry<K, V>>) returns (r: Upserted<K, V>)
    ensures r == if RepeatsKey(chunk) then Upserted(t, Err(DuplicateKeyInStatement))
                 else Upserted(Put(t, chunk), Ok(|chunk|))
  {
    if RepeatsKey(chunk) {
      return Upserted(t, Err(DuplicateKeyInStatement));
    }
    var after := t;
    for i := 0 to |chunk|
      invariant after == Put(t, chunk[..i])
    {
      assert chunk[..i + 1][..i] == chunk[..i];
      after := after[chunk[i].key := chunk[i].value];
    }
    assert chunk[..|chunk|] == chunk;
    r := Upserted(after, Ok(|chunk|));
  }

  // Chunk after chunk, adding up the affected rows, until one fails.
  method UpsertInChunks<K(==), V>(t: map<K, V>, rows: seq<Entry<K, V>>, size: nat) returns (r: Upserted<K, V>)
    requires size > 0
    ensures r == UpsertChunks(t, rows, size)
  {
    hide UpsertChunks, RepeatsKey, Put;
    var after, total: nat, done: nat := t, 0, 0;
    assert rows[0..] == rows;
    while done < |rows|
      invariant done <= |rows|
      invariant UpsertChunks(t, rows, size) == Counted(total, UpsertChunks(after, rows[done..], size))
    {
      var n: nat := MinNat(size, |rows| - done);
      NextChunk(after, rows, done, n, size);
      var u := ExecuteUpsert(after, rows[done..done + n]);
      if u.outcome.Err? {
        return Upserted(u.table, Err(u.outcome.error));
      }
      after, total, done := u.table, total + u.outcome.value, done + n;
    }
    NoMoreChunks(after, size);
    assert rows[done..] == [];
    r := Upserted(after, Ok(total));
  }

  lemma NextChunk<K, V>(t: map<K, V>, rows: seq<Entry<K, V>>, done: nat, n: nat, size: nat)
    requires size > 0 && done < |rows| && n == MinNat(size, |rows| - done)
    ensures UpsertChunks(t, rows[done..], size)
         == if RepeatsKey(rows[done..done + n]) then Upserted(t, Err(DuplicateKeyInStatement))
            else Counted(n, UpsertChunks(Put(t, rows[done..done + n]), rows[done + n..], size))
  {
    hide RepeatsKey, Put, Counted;
    assert rows[done..][..n] == rows[done..done + n] && rows[done..][n..] == rows[done + n..];
  }

  lemma NoMoreChunks<K, V>(t: map<K, V>, size: nat)
    requires size > 0
    ensures UpsertChunks(t, [], size) == Upserted(t, Ok(0))
  {
  }

  class Database {
    var bars: map<BarKey, BarValue>
    var features: map<FeatureKey, FeatureValue>
    var macros: map<MacroKey, MacroValue>

    function Now(): Contents
      reads this
    {
      Contents(bars, features, macros)
    }

    constructor (c: Contents)
      ensures Now() == c
    {
      bars, features, macros := c.bars, c.features, c.macros;
    }

    method UpsertBars(rows: seq<TickerBar>, cadence: string, source: string) returns (r: Result<nat, StoreError>)
      modifies this
      ensures Now() == Written(old(Now()), WriteBars(rows, cadence, source))
      ensures r == UpsertChunks(old(bars), BarEntries(rows, cadence, source), BAR_CHUNK).outcome
    {
      var u := UpsertInChunks(bars, BarEntries(rows, cadence, source), BAR_CHUNK);
      bars := u.table;
      r := u.outcome;
    }

    method InsertFeatures(rows: seq<Entry<FeatureKey, FeatureValue>>) returns (r: Result<nat, StoreError>)
      modifies this
      ensures Now() == Written(old(Now()), WriteFeatures(rows))
      ensures r == UpsertChunks(old(features), rows, FEATURE_CHUNK).outcome
    {
      var u := UpsertInChunks(features, rows, FEATURE_CHUNK);
      features := u.table;
      r := u.outcome;
    }

    method UpsertMacro(rows: seq<Entry<MacroKey, MacroValue>>) returns (r: Result<nat, StoreError>)
      modifies this
      ensures Now() == Written(old(Now()), WriteMacro(rows))
      ensures r == UpsertChunks(old(macros), rows, MACRO_CHUNK).outcome
    {
      var u := UpsertInChunks(macros, rows, MACRO_CHUNK);
      macros := u.table;
      r := u.outcome;
    }
  }

  // ---- reading ------------------------------------------------------------------------------

  type FeatureTable = map<FeatureKey, FeatureValue>
  type MacroTable = map<MacroKey, MacroValue>
  type BarTable = map<BarKey, BarValue>

  datatype Feature = Feature(key: string, value: real, layer: Layer, asOf: int, leadTime: string, source: string)

  // A version of a feature knowable at the cutoff, of the wanted layer if one is given.
  predicate Matches(t: FeatureTable, k: FeatureKey, ticker: string, key: string, layer: Option<Layer>, cutoff: int) {
    && k in t && k.ticker == ticker && k.key == key && k.decisionTs <= cutoff && k.asOf <= cutoff
    && (layer.Some? ==> t[k].layer == layer.value)
  }

  function DecisionTimes(t: FeatureTable, ticker: string, key: string, layer: Option<Layer>, cutoff: int): set<int> {
    set k | k in t && Matches(t, k, ticker, key, layer, cutoff) :: k.decisionTs
  }

  function Vintages(t: FeatureTable, ticker: string, key: string, layer: Option<Layer>, cutoff: int,
                    at: int): set<int>
  {
    set k | k in t && Matches(t, k, ticker, key, layer, cutoff) && k.decisionTs == at :: k.asOf
  }

  // The newest version: latest decision bar, then latest knowledge time.
  function NewestVersion(t: FeatureTable, ticker: string, key: string, layer: Option<Layer>, cutoff: int)
    : (k: Option<FeatureKey>)
    ensures k.Some? ==> Matches(t, k.value, ticker, key, layer, cutoff)
  {
    var times := DecisionTimes(t, ticker, key, layer, cutoff);
    if times == {} then None
    else
      var at := Greatest(times);
      TimeHasVintage(t, ticker, key, layer, cutoff, at);
      var asOf := Greatest(Vintages(t, ticker, key, layer, cutoff, at));
      VintageMatches(t, ticker, key, layer, cutoff, at, asOf);
      Some(FeatureKey(ticker, key, at, asOf))
  }

  lemma TimeHasVintage(t: FeatureTable, ticker: string, key: string, layer: Option<Layer>, cutoff: int, at: int)
    requires at in DecisionTimes(t, ticker, key, layer, cutoff)
    ensures Vintages(t, ticker, key, layer, cutoff, at) != {}
  {
    var k :| k in t && Matches(t, k, ticker, key, layer, cutoff) && k.decisionTs == at;
    assert k.asOf in Vintages(t, ticker, key, layer, cutoff, at);
  }

  lemma VintageMatches(t: FeatureTable, ticker: string, key: string, layer: Option<Layer>, cutoff: int,
                       at: int, asOf: int)
    requires asOf in Vintages(t, ticker, key, layer, cutoff, at)
    ensures Matches(t, FeatureKey(ticker, key, at, asOf), ticker, key, layer, cutoff)
  {
    var k :| k in t && Matches(t, k, ticker, key, layer, cutoff) && k.decisionTs == at && k.asOf == asOf;
    assert k == FeatureKey(ticker, key, at, asOf);
  }

  function FeatureAt(t: FeatureTable, k: FeatureKey): Feature
    requires k in t
  {
    Feature(k.key, t[k].value, t[k].layer, k.asOf, t[k].leadTime, t[k].source)
  }

  function ReadNewest(t: FeatureTable, ticker: string, key: string, layer: Option<Layer>,
                      cutoff: int): Option<Feature>
  {
    match NewestVersion(t, ticker, key, layer, cutoff)
    case None => None
    case Some(k) => Some(FeatureAt(t, k))
  }

  // A single feature by key.
  function ReadFeature(t: FeatureTable, ticker: string, key: string, cutoff: int): Option<Feature> {
    ReadNewest(t, ticker, key, None, cutoff)
  }

  function KeysKnown(t: FeatureTable, ticker: string, layer: Option<Layer>, cutoff: int): set<string> {
    set k | k in t && Matches(t, k, ticker, k.key, layer, cutoff) :: k.key
  }

  // Every feature knowable, each at its newest version, by key.
  function ReadFeatures(t: FeatureTable, ticker: string, layer: Option<Layer>, cutoff: int): map<string, Feature> {
    map key | key in KeysKnown(t, ticker, layer, cutoff) && ReadNewest(t, ticker, key, layer, cutoff).Some?
      :: ReadNewest(t, ticker, key, layer, cutoff).value
  }

  function MacroDates(t: MacroTable, series: string, cutoff: int): set<int> {
    set k | k in t && k.series == series && k.ts <= cutoff && k.asOf <= cutoff :: k.ts
  }

  function MacroVintages(t: MacroTable, series: string, cutoff: int, ts: int): set<int> {
    set k | k in t && k.series == series && k.ts == ts && k.ts <= cutoff && k.asOf <= cutoff :: k.asOf
  }

  // The newest visible vintage of one reference date.
  function VintageValue(t: MacroTable, series: string, cutoff: int, ts: int): real
    requires ts in MacroDates(t, series, cutoff)
  {
    DateHasVintage(t, series, cutoff, ts);
    var asOf := Greatest(MacroVintages(t, series, cutoff, ts));
    MacroVintageStored(t, series, cutoff, ts, asOf);
    t[MacroKey(series, ts, asOf)].value
  }

  lemma DateHasVintage(t: MacroTable, series: string, cutoff: int, ts: int)
    requires ts in MacroDates(t, series, cutoff)
    ensures MacroVintages(t, series, cutoff, ts) != {}
  {
    var k :| k in t && k.series == series && k.ts == ts && k.ts <= cutoff && k.asOf <= cutoff;
    assert k.asOf in MacroVintages(t, series, cutoff, ts);
  }

  lemma MacroVintageStored(t: MacroTable, series: string, cutoff: int, ts: int, asOf: int)
    requires asOf in MacroVintages(t, series, cutoff, ts)
    ensures MacroKey(series, ts, asOf) in t
  {
    var k :| k in t && k.series == series && k.ts == ts && k.asOf == asOf;
    assert k == MacroKey(series, ts, asOf);
  }

  function MacroValueAsOf(t: MacroTable, series: string, cutoff: int): Option<real> {
    var dates := MacroDates(t, series, cutoff);
    if dates == {} then None else Some(VintageValue(t, series, cutoff, Greatest(dates)))
  }

  datatype Observation = Observation(ts: int, value: real)

  function AtLeastZero(n: int): nat {
    if n < 0 then 0 else n
  }

  // The most recent reference dates, oldest first, each at its newest visible vintage.
  function MacroHistory(t: MacroTable, series: string, lookback: int, cutoff: int): (r: seq<Observation>)
    ensures |r| == MinNat(AtLeastZero(lookback), |MacroDates(t, series, cutoff)|)
  {
    var dates := Recent(MacroDates(t, series, cutoff), AtLeastZero(lookback));
    seq(|dates|, i requires 0 <= i < |dates| =>
      (RecentMember(MacroDates(t, series, cutoff), AtLeastZero(lookback), i);
       Observation(dates[i], VintageValue(t, series, cutoff, dates[i]))))
  }

  function BarTimes(t: BarTable, ticker: string, cadence: string, cutoff: int): set<int> {
    set k | k in t && k.ticker == ticker && k.cadence == cadence && k.ts <= cutoff && t[k].asOf <= cutoff :: k.ts
  }

  function BarAt(t: BarTable, ticker: string, cadence: string, ts: int): Bar
    requires BarKey(ticker, cadence, ts) in t
  {
    var v := t[BarKey(ticker, cadence, ts)];
    Bar(ts, v.open, v.high, v.low, v.close, v.volume)
  }

  lemma BarTimeStored(t: BarTable, ticker: string, cadence: string, cutoff: int, ts: int)
    requires ts in BarTimes(t, ticker, cadence, cutoff)
    ensures BarKey(ticker, cadence, ts) in t && t[BarKey(ticker, cadence, ts)].asOf <= cutoff
  {
    var k :| k in t && k.ticker == ticker && k.cadence == cadence && k.ts == ts && t[k].asOf <= cutoff;
    assert k == BarKey(ticker, cadence, ts);
  }

  // The most recent bars, oldest first, of any ticker.
  function ReadBars(t: BarTable, ticker: string, cadence: string, lookback: int, cutoff: int): (r: seq<Bar>)
    ensures |r| == MinNat(AtLeastZero(lookback), |BarTimes(t, ticker, cadence, cutoff)|)
  {
    var times := Recent(BarTimes(t, ticker, cadence, cutoff), AtLeastZero(lookback));
    seq(|times|, i requires 0 <= i < |times| =>
      (RecentMember(BarTimes(t, ticker, cadence, cutoff), AtLeastZero(lookback), i);
       BarTimeStored(t, ticker, cadence, cutoff, times[i]);
       BarAt(t, ticker, cadence, times[i])))
  }

  // ---- what reads return ---------------------------------------------------------------------

  // The version read is visible and no visible version is later, by decision bar and then by
  // knowledge time; and something is read exactly when something is visible.
  lemma NewestVersionIsNewest(t: FeatureTable, ticker: string, key: string, layer: Option<Layer>,
                              cutoff: int, k: FeatureKey)
    requires Matches(t, k, ticker, key, layer, cutoff)
    ensures var newest := NewestVersion(t, ticker, key, layer, cutoff);
            newest.Some? && (k.decisionTs < newest.value.decisionTs
                             || (k.decisionTs == newest.value.decisionTs && k.asOf <= newest.value.asOf))
  {
    assert k.decisionTs in DecisionTimes(t, ticker, key, layer, cutoff);
    var at := Greatest(DecisionTimes(t, ticker, key, layer, cutoff));
    if k.decisionTs == at {
      assert k.asOf in Vintages(t, ticker, key, layer, cutoff, at);
    }
  }

  // Two versions that are each the newest of the same visible set are the same version.
  lemma NewestUnique(t: FeatureTable, ticker: string, key: string, layer: Option<Layer>, cutoff: int, k: FeatureKey)
    requires Matches(t, k, ticker, key, layer, cutoff)
    requires forall j :: Matches(t, j, ticker, key, layer, cutoff) ==>
               j.decisionTs < k.decisionTs || (j.decisionTs == k.decisionTs && j.asOf <= k.asOf)
    ensures NewestVersion(t, ticker, key, layer, cutoff) == Some(k)
  {
    NewestVersionIsNewest(t, ticker, key, layer, cutoff, k);
  }

  // The bulk read holds for each key exactly what the single read of that key returns.
  lemma BulkReadAgrees(t: FeatureTable, ticker: string, cutoff: int, key: string)
    ensures var all, one := ReadFeatures(t, ticker, None, cutoff), ReadFeature(t, ticker, key, cutoff);
            (key in all <==> one.Some?) && (key in all ==> all[key] == one.value)
  {
    if ReadFeature(t, ticker, key, cutoff).Some? {
      var k := NewestVersion(t, ticker, key, None, cutoff).value;
      assert Matches(t, k, ticker, k.key, None, cutoff);
      assert key in KeysKnown(t, ticker, None, cutoff);
    }
  }

  // Restricted to one layer, the bulk read agrees with the single read exactly when the newest
  // version is of that layer; otherwise what it holds for the key is an older version.
  lemma LayerReadAgreesIff(t: FeatureTable, ticker: string, layer: Layer, cutoff: int, key: string)
    requires key in ReadFeatures(t, ticker, Some(layer), cutoff)
    ensures var one := ReadFeature(t, ticker, key, cutoff);
            && one.Some?
            && (ReadFeatures(t, ticker, Some(layer), cutoff)[key] == one.value <==> one.value.layer == layer)
  {
    var k := NewestVersion(t, ticker, key, Some(layer), cutoff).value;
    assert Matches(t, k, ticker, key, None, cutoff);
    NewestVersionIsNewest(t, ticker, key, None, cutoff, k);
    var newest := NewestVersion(t, ticker, key, None, cutoff).value;
    if t[newest].layer == layer {
      assert Matches(t, newest, ticker, key, Some(layer), cutoff);
      NewestVersionIsNewest(t, ticker, key, Some(layer), cutoff, newest);
      assert newest == k;
    }
  }

  lemma WriteOne(c: Contents, k: FeatureKey, v: FeatureValue)
    ensures Written(c, WriteFeatures([Entry(k, v)])) == c.(features := c.features[k := v])
  {
    var rows := [Entry(k, v)];
    assert !RepeatsKey(rows);
    UpsertWrites(c.features, rows, FEATURE_CHUNK);
    assert rows[..1] == rows && rows[1..] == [] && rows[..0] == [];
  }

  // It does happen: a feature stored again under another layer is read back stale by the layer it
  // left.
  lemma LayerReadCanBeStale()
    ensures var earlier, later := FeatureKey("SPY", "x", 1, 1), FeatureKey("SPY", "x", 2, 2);
            var c := WrittenAll(Contents(map[], map[], map[]),
                                [WriteFeatures([Entry(earlier, FeatureValue(1.0, Trigger, "", ""))]),
                                 WriteFeatures([Entry(later, FeatureValue(2.0, Regime, "", ""))])]);
            var layered := ReadFeatures(c.features, "SPY", Some(Trigger), 2);
            && ReadFeature(c.features, "SPY", "x", 2) == Some(Feature("x", 2.0, Regime, 2, "", ""))
            && "x" in layered && layered["x"] == Feature("x", 1.0, Trigger, 1, "", "")
  {
    var earlier, later := FeatureKey("SPY", "x", 1, 1), FeatureKey("SPY", "x", 2, 2);
    var v1, v2 := FeatureValue(1.0, Trigger, "", ""), FeatureValue(2.0, Regime, "", "");
    var w1, w2 := WriteFeatures([Entry(earlier, v1)]), WriteFeatures([Entry(later, v2)]);
    var c0 := Contents(map[], map[], map[]);
    assert [w1, w2][..1] == [w1] && [w1][..0] == [];
    WriteOne(c0, earlier, v1);
    WriteOne(Written(c0, w1), later, v2);
    var t: FeatureTable := map[earlier := v1][later := v2];
    assert WrittenAll(c0, [w1]) == Written(c0, w1);
    assert WrittenAll(c0, [w1, w2]).features == t;
    NewestUnique(t, "SPY", "x", None, 2, later);
    NewestUnique(t, "SPY", "x", Some(Trigger), 2, earlier);
    assert Matches(t, earlier, "SPY", earlier.key, Some(Trigger), 2);
    assert "x" in KeysKnown(t, "SPY", Some(Trigger), 2);
  }

  // The dates a lookback does not reach.
  function LeftOut(dates: set<int>, n: nat): set<int> {
    set ts | ts in dates && ts !in Recent(dates, n)
  }

  // A macro history runs strictly forward in time, each date at its newest visible vintage, and
  // leaves out only dates older than all it holds.
  lemma MacroHistoryIsRecent(t: MacroTable, series: string, lookback: int, cutoff: int, i: nat)
    requires i < |MacroHistory(t, series, lookback, cutoff)|
    ensures var h := MacroHistory(t, series, lookback, cutoff);
            && h[i].ts in MacroDates(t, series, cutoff)
            && h[i].value == VintageValue(t, series, cutoff, h[i].ts)
            && (i > 0 ==> h[i - 1].ts < h[i].ts)
    ensures forall ts :: ts in LeftOut(MacroDates(t, series, cutoff), AtLeastZero(lookback)) ==>
              ts < MacroHistory(t, series, lookback, cutoff)[i].ts
  {
    var dates, n := MacroDates(t, series, cutoff), AtLeastZero(lookback);
    RecentMember(dates, n, i);
    if i > 0 {
      RecentAscends(dates, n, i - 1, i);
    }
    forall ts | ts in dates && ts !in Recent(dates, n) ensures ts < Recent(dates, n)[i] {
      RecentIsNewest(dates, n, ts, i);
    }
  }

  lemma NewestVintageWins(t: MacroTable, series: string, cutoff: int, k: MacroKey)
    requires k in t && k.series == series && k.ts <= cutoff && k.asOf <= cutoff
    ensures k.ts in MacroDates(t, series, cutoff)
    ensures exists asOf :: asOf >= k.asOf && asOf <= cutoff && MacroKey(series, k.ts, asOf) in t
              && VintageValue(t, series, cutoff, k.ts) == t[MacroKey(series, k.ts, asOf)].value
  {
    assert k.ts in MacroDates(t, series, cutoff);
    DateHasVintage(t, series, cutoff, k.ts);
    var vintages := MacroVintages(t, series, cutoff, k.ts);
    assert k.asOf in vintages;
    var asOf := Greatest(vintages);
    MacroVintageStored(t, series, cutoff, k.ts, asOf);
  }

  // The history's last value is the value as of the cutoff, whenever there is one.
  lemma HistoryEndsAtValue(t: MacroTable, series: string, lookback: int, cutoff: int)
    requires lookback >= 1
    ensures var h, v := MacroHistory(t, series, lookback, cutoff), MacroValueAsOf(t, series, cutoff);
            (h == [] <==> v == None) && (h != [] ==> Some(h[|h| - 1].value) == v)
  {
    var dates := MacroDates(t, series, cutoff);
    if dates != {} {
      var r := Recent(dates, lookback);
      assert r[|r| - 1] == Greatest(dates);
    }
  }

  // Bars come back oldest first, each visible, the last one the latest of all: the same bar for
  // any lookback of at least one.
  lemma BarsEndAtLatest(t: BarTable, ticker: string, cadence: string, lookback: int, cutoff: int, i: nat)
    requires i < |ReadBars(t, ticker, cadence, lookback, cutoff)|
    ensures var bars := ReadBars(t, ticker, cadence, lookback, cutoff);
            && bars[i].ts <= cutoff && BarKey(ticker, cadence, bars[i].ts) in t
            && t[BarKey(ticker, cadence, bars[i].ts)].asOf <= cutoff
            && (i > 0 ==> bars[i - 1].ts < bars[i].ts)
            && [bars[|bars| - 1]] == ReadBars(t, ticker, cadence, 1, cutoff)
  {
    var times, n := BarTimes(t, ticker, cadence, cutoff), AtLeastZero(lookback);
    RecentMember(times, n, i);
    BarTimeStored(t, ticker, cadence, cutoff, Recent(times, n)[i]);
    if i > 0 {
      RecentAscends(times, n, i - 1, i);
    }
    var r := Recent(times, n);
    assert r[|r| - 1] == Greatest(times);
    assert Recent(times - {Greatest(times)}, 0) == [];
    assert Recent(times, 1)[0] == Greatest(times);
  }

  // ---- non-interference ---------------------------------------------------------------------

  // The part of the store knowable at the cutoff.
  function Known(c: Contents, cutoff: int): Contents {
    Contents(map k | k in c.bars && k.ts <= cutoff && c.bars[k].asOf <= cutoff :: c.bars[k],
             map k | k in c.features && k.decisionTs <= cutoff && k.asOf <= cutoff :: c.features[k],
             map k | k in c.macros && k.ts <= cutoff && k.asOf <= cutoff :: c.macros[k])
  }

  lemma FeatureReadsKnown(c: Contents, cutoff: int, ticker: string, key: string, layer: Option<Layer>)
    ensures ReadNewest(c.features, ticker, key, layer, cutoff)
         == ReadNewest(Known(c, cutoff).features, ticker, key, layer, cutoff)
    ensures KeysKnown(c.features, ticker, layer, cutoff) == KeysKnown(Known(c, cutoff).features, ticker, layer, cutoff)
  {
    var t, u := c.features, Known(c, cutoff).features;
    assert forall k: FeatureKey, key: string :: Matches(t, k, ticker, key, layer, cutoff)
             <==> Matches(u, k, ticker, key, layer, cutoff);
    assert DecisionTimes(t, ticker, key, layer, cutoff) == DecisionTimes(u, ticker, key, layer, cutoff);
    forall at ensures Vintages(t, ticker, key, layer, cutoff, at) == Vintages(u, ticker, key, layer, cutoff, at) {
    }
  }

  lemma BulkReadsKnown(c: Contents, cutoff: int, ticker: string, layer: Option<Layer>)
    ensures ReadFeatures(c.features, ticker, layer, cutoff)
         == ReadFeatures(Known(c, cutoff).features, ticker, layer, cutoff)
  {
    hide ReadNewest, KeysKnown, Known;
    forall key ensures ReadNewest(c.features, ticker, key, layer, cutoff)
                    == ReadNewest(Known(c, cutoff).features, ticker, key, layer, cutoff)
    {
      FeatureReadsKnown(c, cutoff, ticker, key, layer);
    }
    FeatureReadsKnown(c, cutoff, ticker, "", layer);
  }

  lemma MacroReadsKnown(c: Contents, cutoff: int, series: string, lookback: int)
    ensures MacroValueAsOf(c.macros, series, cutoff) == MacroValueAsOf(Known(c, cutoff).macros, series, cutoff)
    ensures MacroHistory(c.macros, series, lookback, cutoff)
         == MacroHistory(Known(c, cutoff).macros, series, lookback, cutoff)
  {
    var t, u := c.macros, Known(c, cutoff).macros;
    var dates := MacroDates(t, series, cutoff);
    assert dates == MacroDates(u, series, cutoff);
    forall ts | ts in dates ensures VintageValue(t, series, cutoff, ts) == VintageValue(u, series, cutoff, ts) {
      VintageKnown(c, cutoff, series, ts);
    }
    hide VintageValue, MacroDates;
    forall i | 0 <= i < |Recent(dates, AtLeastZero(lookback))|
      ensures Recent(dates, AtLeastZero(lookback))[i] in dates
    {
      RecentMember(dates, AtLeastZero(lookback), i);
    }
  }

  lemma VintageKnown(c: Contents, cutoff: int, series: string, ts: int)
    requires ts in MacroDates(c.macros, series, cutoff) && ts in MacroDates(Known(c, cutoff).macros, series, cutoff)
    ensures VintageValue(c.macros, series, cutoff, ts) == VintageValue(Known(c, cutoff).macros, series, cutoff, ts)
  {
    var t, u := c.macros, Known(c, cutoff).macros;
    assert MacroVintages(t, series, cutoff, ts) == MacroVintages(u, series, cutoff, ts);
    DateHasVintage(t, series, cutoff, ts);
    var asOf := Greatest(MacroVintages(t, series, cutoff, ts));
    MacroVintageStored(u, series, cutoff, ts, asOf);
  }

  lemma BarReadsKnown(c: Contents, cutoff: int, ticker: string, cadence: string, lookback: int)
    ensures ReadBars(c.bars, ticker, cadence, lookback, cutoff)
         == ReadBars(Known(c, cutoff).bars, ticker, cadence, lookback, cutoff)
  {
    var t, u := c.bars, Known(c, cutoff).bars;
    var times := BarTimes(t, ticker, cadence, cutoff);
    assert times == BarTimes(u, ticker, cadence, cutoff);
    forall ts | ts in times
      ensures BarKey(ticker, cadence, ts) in t && BarKey(ticker, cadence, ts) in u
      ensures t[BarKey(ticker, cadence, ts)] == u[BarKey(ticker, cadence, ts)]
    {
      BarTimeStored(t, ticker, cadence, cutoff, ts);
    }
    hide BarTimes, Known;
    forall i | 0 <= i < |Recent(times, AtLeastZero(lookback))|
      ensures Recent(times, AtLeastZero(lookback))[i] in times
    {
      RecentMember(times, AtLeastZero(lookback), i);
    }
  }

  // A write none of whose rows is knowable at the cutoff: their event or knowledge time is later.
  ghost predicate Later(w: Write, cutoff: int) {
    match w
    case WriteBars(bars, cadence, source) => forall i :: 0 <= i < |bars| ==> bars[i].bar.ts > cutoff
    case WriteFeatures(rows) =>
      forall i :: 0 <= i < |rows| ==> rows[i].key.decisionTs > cutoff || rows[i].key.asOf > cutoff
    case WriteMacro(rows) => forall i :: 0 <= i < |rows| ==> rows[i].key.ts > cutoff || rows[i].key.asOf > cutoff
  }

  lemma LaterWriteInvisible(c: Contents, w: Write, cutoff: int)
    requires Later(w, cutoff)
    ensures Known(Written(c, w), cutoff) == Known(c, cutoff)
  {
    hide UpsertChunks;
    match w
    case WriteBars(bars, cadence, source) =>
      var rows := BarEntries(bars, cadence, source);
      forall k: BarKey | k.ts <= cutoff ensures !Touches(rows, k) {
        assert forall i :: 0 <= i < |rows| ==> rows[i].key.ts == bars[i].bar.ts;
      }
      LaterBars(c, rows, cutoff);
    case WriteFeatures(rows) => LaterFeatures(c, rows, cutoff);
    case WriteMacro(rows) => LaterMacro(c, rows, cutoff);
  }

  lemma LaterBars(c: Contents, rows: seq<Entry<BarKey, BarValue>>, cutoff: int)
    requires forall k: BarKey :: k.ts <= cutoff ==> !Touches(rows, k)
    ensures Known(c.(bars := UpsertChunks(c.bars, rows, BAR_CHUNK).table), cutoff) == Known(c, cutoff)
  {
    hide UpsertChunks, Touches;
    var after := UpsertChunks(c.bars, rows, BAR_CHUNK).table;
    forall k: BarKey | k.ts <= cutoff
      ensures (k in after <==> k in c.bars) && (k in c.bars ==> after[k] == c.bars[k])
    {
      UpsertTouchesOnly(c.bars, rows, BAR_CHUNK, k);
    }
  }

  lemma LaterFeatures(c: Contents, rows: seq<Entry<FeatureKey, FeatureValue>>, cutoff: int)
    requires forall i :: 0 <= i < |rows| ==> rows[i].key.decisionTs > cutoff || rows[i].key.asOf > cutoff
    ensures Known(c.(features := UpsertChunks(c.features, rows, FEATURE_CHUNK).table), cutoff) == Known(c, cutoff)
  {
    hide UpsertChunks;
    var after := UpsertChunks(c.features, rows, FEATURE_CHUNK).table;
    forall k: FeatureKey | k.decisionTs <= cutoff && k.asOf <= cutoff
      ensures (k in after <==> k in c.features) && (k in c.features ==> after[k] == c.features[k])
    {
      UpsertTouchesOnly(c.features, rows, FEATURE_CHUNK, k);
    }
  }

  lemma LaterMacro(c: Contents, rows: seq<Entry<MacroKey, MacroValue>>, cutoff: int)
    requires forall i :: 0 <= i < |rows| ==> rows[i].key.ts > cutoff || rows[i].key.asOf > cutoff
    ensures Known(c.(macros := UpsertChunks(c.macros, rows, MACRO_CHUNK).table), cutoff) == Known(c, cutoff)
  {
    hide UpsertChunks;
    var after := UpsertChunks(c.macros, rows, MACRO_CHUNK).table;
    forall k: MacroKey | k.ts <= cutoff && k.asOf <= cutoff
      ensures (k in after <==> k in c.macros) && (k in c.macros ==> after[k] == c.macros[k])
    {
      UpsertTouchesOnly(c.macros, rows, MACRO_CHUNK, k);
    }
  }

  ghost predicate AllLater(ws: seq<Write>, cutoff: int) {
    forall i :: 0 <= i < |ws| ==> Later(ws[i], cutoff)
  }

  lemma {:induction false} LaterHistoryInvisible(c: Contents, ws: seq<Write>, cutoff: int)
    requires AllLater(ws, cutoff)
    ensures Known(WrittenAll(c, ws), cutoff) == Known(c, cutoff)
  {
    hide Known, Written, Later;
    if ws != [] {
      LaterHistoryInvisible(c, ws[..|ws| - 1], cutoff);
      LaterWriteInvisible(WrittenAll(c, ws[..|ws| - 1]), ws[|ws| - 1], cutoff);
    }
  }

  // Point-in-time reads are blind to the future: after any history of writes none of whose rows
  // is knowable at the cutoff, failed batches included, every read returns what it did before.
  lemma ReadsIgnoreLaterWrites(c: Contents, ws: seq<Write>, cutoff: int, ticker: string, name: string,
                               layer: Option<Layer>, lookback: int)
    requires AllLater(ws, cutoff)
    ensures var d := WrittenAll(c, ws);
            && ReadFeature(d.features, ticker, name, cutoff) == ReadFeature(c.features, ticker, name, cutoff)
            && ReadFeatures(d.features, ticker, layer, cutoff) == ReadFeatures(c.features, ticker, layer, cutoff)
            && ReadBars(d.bars, ticker, name, lookback, cutoff) == ReadBars(c.bars, ticker, name, lookback, cutoff)
            && MacroValueAsOf(d.macros, name, cutoff) == MacroValueAsOf(c.macros, name, cutoff)
            && MacroHistory(d.macros, name, lookback, cutoff) == MacroHistory(c.macros, name, lookback, cutoff)
  {
    hide Known, WrittenAll, ReadNewest, ReadFeatures, ReadBars, MacroValueAsOf, MacroHistory;
    var d := WrittenAll(c, ws);
    LaterHistoryInvisible(c, ws, cutoff);
    FeatureReadsKnown(c, cutoff, ticker, name, None);
    FeatureReadsKnown(d, cutoff, ticker, name, None);
    BulkReadsKnown(c, cutoff, ticker, layer);
    BulkReadsKnown(d, cutoff, ticker, layer);
    BarReadsKnown(c, cutoff, ticker, name, lookback);
    BarReadsKnown(d, cutoff, ticker, name, lookback);
    MacroReadsKnown(c, cutoff, name, lookback);
    MacroReadsKnown(d, cutoff, name, lookback);
  }
}
