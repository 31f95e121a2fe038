// The locked out-of-time test era: purging rows that touch it, and what that buys.
module Firewall {
  import opened Prelude
  import opened Sorting
  import opened Market
  import opened Labeler
  import opened Genomes
  import opened Cooldown
  import opened Backtest

  datatype Era = Era(from: int, to: int)

  // The row's holding span overlaps the era.
  predicate Overlaps(row: DatasetRow, era: Era) {
    row.ts <= era.to && row.t1 >= era.from
  }

  function Keeps(era: Option<Era>): DatasetRow -> bool {
    (row: DatasetRow) => era.None? || !Overlaps(row, era.value)
  }

  method FirewallTestEra(rows: seq<DatasetRow>, era: Option<Era>) returns (kept: seq<DatasetRow>, purged: nat)
    ensures kept == Filter(rows, Keeps(era))
    ensures purged == |rows| - |kept|
  {
    if era.None? {
      FilterAll(rows, Keeps(era));
      return rows, 0;
    }
    kept, purged := [], 0;
    for i := 0 to |rows|
      invariant kept == Filter(rows[..i], Keeps(era))
      invariant purged == i - |kept|
    {
      assert rows[..i + 1][..i] == rows[..i];
      if Overlaps(rows[i], era.value) {
        purged := purged + 1;
      } else {
        kept := kept + [rows[i]];
      }
    }
    assert rows[..|rows|] == rows;
  }

  ghost predicate Within(x: int, lo: int, hi: int) {
    lo <= x <= hi
  }

  // A row is purged exactly when some instant of the era falls inside its holding span.
  lemma PurgedIffSpanMeetsEra(row: DatasetRow, era: Era)
    requires era.from <= era.to && row.ts <= row.t1
    ensures Overlaps(row, era) <==> exists x :: Within(x, era.from, era.to) && Within(x, row.ts, row.t1)
  {
    if Overlaps(row, era) {
      var x := if row.ts <= era.from then era.from else row.ts;
      assert Within(x, era.from, era.to) && Within(x, row.ts, row.t1);
    }
  }

  // ---- the training dataset -----------------------------------------------------

  function AssembledRows(s: Study, w: Window): seq<DatasetRow> {
    WalkAllEnter(s, w, 0);
    Assemble(Entries(s, w, WalkOf(s, w).taken))
  }

  function KeptRows(s: Study, w: Window, era: Option<Era>): seq<DatasetRow> {
    Filter(AssembledRows(s, w), Keeps(era))
  }

  function Collected(s: Study, ws: seq<Window>, era: Option<Era>): seq<DatasetRow> {
    if ws == [] then [] else Collected(s, ws[..|ws| - 1], era) + KeptRows(s, ws[|ws| - 1], era)
  }

  function Dataset(s: Study, ws: seq<Window>, era: Option<Era>): seq<DatasetRow> {
    StableSort(Collected(s, ws, era), RowTs())
  }

  method BuildDataset(s: Study, ws: seq<Window>, era: Option<Era>) returns (all: seq<DatasetRow>, n: nat)
    ensures all == Dataset(s, ws, era) && n == |all|
    ensures SortedBy(all, RowTs())
    ensures forall row :: row in all ==> Keeps(era)(row)
  {
    all := [];
    var purged := 0;
    for i := 0 to |ws|
      invariant all == Collected(s, ws[..i], era)
    {
      assert ws[..i + 1][..i] == ws[..i];
      WalkAllEnter(s, ws[i], 0);
      var res := RunBacktest(s, ws[i]);
      var kept, nPurged := FirewallTestEra(Assemble(res.entries), era);
      purged := purged + nPurged;
      all := all + kept;
    }
    assert ws[..|ws|] == ws;
    DatasetKeepsOnly(s, ws, era);
    StableSortSorted(all, RowTs());
    all := StableSort(all, RowTs());
    n := |all|;
  }

  lemma KeptRowsKeep(s: Study, w: Window, era: Option<Era>, i: nat)
    requires i < |KeptRows(s, w, era)|
    ensures Keeps(era)(KeptRows(s, w, era)[i])
  {
    hide AssembledRows;
    FilterMember(AssembledRows(s, w), Keeps(era), i);
  }

  lemma {:induction false} CollectedKeepsOnly(s: Study, ws: seq<Window>, era: Option<Era>, i: nat)
    requires i < |Collected(s, ws, era)|
    ensures Keeps(era)(Collected(s, ws, era)[i])
  {
    hide KeptRows, Keeps;
    var n := |ws| - 1;
    var rest := Collected(s, ws[..n], era);
    if i < |rest| {
      CollectedKeepsOnly(s, ws[..n], era, i);
    } else {
      KeptRowsKeep(s, ws[n], era, i - |rest|);
    }
  }

  // Nothing that touches the era reaches the dataset.
  lemma DatasetKeepsOnly(s: Study, ws: seq<Window>, era: Option<Era>)
    ensures forall row :: row in Dataset(s, ws, era) ==> Keeps(era)(row)
  {
    var rows := Collected(s, ws, era);
    forall row | row in Dataset(s, ws, era) ensures Keeps(era)(row) {
      assert row in multiset(Dataset(s, ws, era));
      assert row in multiset(rows);
      var i :| 0 <= i < |rows| && rows[i] == row;
      CollectedKeepsOnly(s, ws, era, i);
    }
  }

  // ---- non-interference ------------------------------------------------------------

  // Two windows with the same timestamps that share every bar and point before the instant;
  // k bars and m points lie before it. From it on, prices, points and features differ at will.
  ghost predicate SharePast(a: Window, b: Window, from: int, k: nat, m: nat) {
    && ValidWindow(a) && ValidWindow(b)
    && AgreeBefore(a.bars, b.bars, k)
    && k <= |a.bars| && m <= |a.points| && m <= |b.points|
    && (forall i :: 0 <= i < |a.bars| ==> (a.bars[i].ts < from <==> i < k))
    && (forall i :: 0 <= i < m ==> a.points[i] == b.points[i] && a.points[i].idx < k)
    && (forall i :: m <= i < |a.points| ==> k <= a.points[i].idx)
    && forall i :: m <= i < |b.points| ==> k <= b.points[i].idx
  }

  lemma SharePastSymmetric(a: Window, b: Window, from: int, k: nat, m: nat)
    requires SharePast(a, b, from, k, m)
    ensures SharePast(b, a, from, k, m)
  {
  }

  // A past point gets the same verdict: whether it can be labelled does not depend on how
  // its label resolves.
  lemma SameVerdict(s: Study, a: Window, b: Window, from: int, k: nat, m: nat, t: nat)
    requires SharePast(a, b, from, k, m) && t < m
    ensures Judge(s, a, a.points[t]) == Judge(s, b, b.points[t])
  {
    var p := a.points[t];
    assert p == b.points[t] && p.idx < k;
    if p.atr.Some? {
      GeometryLocal(a.bars, b.bars, k, p.idx, p.atr.value, s.genome.risk, s.profile.maxHoldBars);
    }
  }

  // The walks over the shared past take the same points.
  lemma SamePastWalk(s: Study, a: Window, b: Window, from: int, k: nat, m: nat)
    requires SharePast(a, b, from, k, m)
    ensures WalkOver(CourseOf(s, a), m) == WalkOver(CourseOf(s, b), m)
  {
    var ca, cb := CourseOf(s, a), CourseOf(s, b);
    forall i | 0 <= i < m ensures ca.idx[i] == cb.idx[i] && ca.verdicts[i] == cb.verdicts[i] {
      assert a.points[i] == b.points[i];
      SameVerdict(s, a, b, from, k, m, i);
    }
    WalkLocal(ca, cb, m);
  }

  // Rows decided before the era: entered before it, and resolved before it.
  function PastRow(era: Era): DatasetRow -> bool {
    (row: DatasetRow) => row.ts < era.from && row.ts <= era.to
  }

  function SettledRow(era: Era): DatasetRow -> bool {
    (row: DatasetRow) => row.ts < era.from && row.ts <= era.to && row.t1 < era.from
  }

  // A past point yields the same row in both windows, or a row that neither settles
  // before the era.
  lemma SettledRowSame(s: Study, a: Window, b: Window, era: Era, k: nat, m: nat, t: nat)
    requires SharePast(a, b, era.from, k, m) && t < m
    requires Judge(s, a, a.points[t]) == Enter && Judge(s, b, b.points[t]) == Enter
    ensures SettledRow(era)(RowAt(s, a, t)) ==> RowAt(s, b, t) == RowAt(s, a, t)
  {
    var p := a.points[t];
    assert p == b.points[t] && p.idx < k;
    if SettledRow(era)(RowAt(s, a, t)) {
      var exit := RowExit(s, a, t);
      assert a.bars[exit].ts < era.from;
      LabelLocal(a.bars, b.bars, k, p.idx, s.genome.side, p.atr.value, s.genome.risk, s.profile.maxHoldBars);
    }
  }

  // The settled rows of a window are those of its walk over the past alone.
  lemma OnlyPastSettles(s: Study, a: Window, b: Window, era: Era, k: nat, m: nat)
    requires SharePast(a, b, era.from, k, m)
    ensures AllEnter(s, a, WalkOver(CourseOf(s, a), m).taken)
    ensures Filter(KeptRows(s, a, Some(era)), PastRow(era))
         == if a.bars == [] then [] else Filter(RowsAt(s, a, WalkOver(CourseOf(s, a), m).taken), SettledRow(era))
  {
    WalkAllEnter(s, a, m);
    AssembleKeepsOrder(s, a);
    var taken := WalkOf(s, a).taken;
    var rows := RowsAt(s, a, taken);
    FilterTwice(rows, Keeps(Some(era)), PastRow(era), SettledRow(era));
    if a.bars != [] {
      WalkExtends(CourseOf(s, a), m, |a.points|);
      SplitAtPast(s, a, b, era, k, m, WalkOver(CourseOf(s, a), m).taken, taken);
    }
  }

  lemma RowsPrefix(s: Study, w: Window, early: seq<nat>, taken: seq<nat>)
    requires AllEnter(s, w, taken) && AllEnter(s, w, early) && early <= taken
    ensures RowsAt(s, w, early) <= RowsAt(s, w, taken)
  {
    hide RowAt, AllEnter;
  }

  lemma LaterNeverSettles(s: Study, a: Window, b: Window, era: Era, k: nat, m: nat, t: nat)
    requires SharePast(a, b, era.from, k, m) && m <= t < |a.points|
    requires Judge(s, a, a.points[t]) == Enter
    ensures !SettledRow(era)(RowAt(s, a, t))
  {
    RowStartsAtItsBar(s, a, t);
    var at := a.points[t].idx;
    assert k <= at;
    assert !(a.bars[at].ts < era.from);
    assert !PastRow(era)(RowAt(s, a, t));
  }

  lemma TailNeverSettles(s: Study, a: Window, b: Window, era: Era, k: nat, m: nat, early: seq<nat>, taken: seq<nat>)
    requires SharePast(a, b, era.from, k, m)
    requires AllEnter(s, a, taken) && Continues(early, taken, m)
    ensures |early| <= |RowsAt(s, a, taken)|
    ensures forall i :: |early| <= i < |RowsAt(s, a, taken)| ==> !SettledRow(era)(RowsAt(s, a, taken)[i])
  {
    hide SharePast, Judge, SettledRow, RowAt;
    forall i | |early| <= i < |taken| ensures !SettledRow(era)(RowsAt(s, a, taken)[i]) {
      LaterNeverSettles(s, a, b, era, k, m, taken[i]);
    }
  }

  lemma SplitAtPast(s: Study, a: Window, b: Window, era: Era, k: nat, m: nat, early: seq<nat>, taken: seq<nat>)
    requires SharePast(a, b, era.from, k, m)
    requires AllEnter(s, a, early) && AllEnter(s, a, taken) && Continues(early, taken, m)
    ensures Filter(RowsAt(s, a, taken), SettledRow(era)) == Filter(RowsAt(s, a, early), SettledRow(era))
  {
    RowsPrefix(s, a, early, taken);
    TailNeverSettles(s, a, b, era, k, m, early, taken);
    hide SharePast, AllEnter, RowsAt, Continues, SettledRow, Filter;
    FilterPrefix(RowsAt(s, a, taken), RowsAt(s, a, early), SettledRow(era));
  }

  // Whatever happens from the start of the era on, the kept rows decided before it are the
  // same rows with the same labels in the same order.
  lemma WindowNonInterference(s: Study, a: Window, b: Window, era: Era, k: nat, m: nat)
    requires SharePast(a, b, era.from, k, m)
    ensures Filter(KeptRows(s, a, Some(era)), PastRow(era)) == Filter(KeptRows(s, b, Some(era)), PastRow(era))
  {
    OnlyPastSettles(s, a, b, era, k, m);
    SharePastSymmetric(a, b, era.from, k, m);
    OnlyPastSettles(s, b, a, era, k, m);
    SamePastWalk(s, a, b, era.from, k, m);
    WalkEnters(CourseOf(s, a), m);
    var taken := WalkOver(CourseOf(s, a), m).taken;
    var ra, rb := RowsAt(s, a, taken), RowsAt(s, b, taken);
    forall i | 0 <= i < |taken|
      ensures SettledRow(era)(ra[i]) <==> SettledRow(era)(rb[i])
      ensures SettledRow(era)(ra[i]) ==> ra[i] == rb[i]
    {
      SettledRowSame(s, a, b, era, k, m, taken[i]);
      SettledRowSame(s, b, a, era, k, m, taken[i]);
    }
    FilterPointwise(ra, rb, SettledRow(era));
  }

  // A universe of windows sharing their past, with the number of bars and points in it.
  ghost predicate ShareAllPasts(as_: seq<Window>, bs: seq<Window>, from: int, ks: seq<nat>, ms: seq<nat>) {
    && |as_| == |bs| == |ks| == |ms|
    && forall i :: 0 <= i < |as_| ==> SharePast(as_[i], bs[i], from, ks[i], ms[i])
  }

  lemma {:induction false} CollectedNonInterference(s: Study, as_: seq<Window>, bs: seq<Window>, era: Era,
                                                    ks: seq<nat>, ms: seq<nat>)
    requires ShareAllPasts(as_, bs, era.from, ks, ms)
    ensures Filter(Collected(s, as_, Some(era)), PastRow(era)) == Filter(Collected(s, bs, Some(era)), PastRow(era))
  {
    if as_ != [] {
      var n := |as_| - 1;
      CollectedNonInterference(s, as_[..n], bs[..n], era, ks[..n], ms[..n]);
      WindowNonInterference(s, as_[n], bs[n], era, ks[n], ms[n]);
      FilterConcat(Collected(s, as_[..n], Some(era)), KeptRows(s, as_[n], Some(era)), PastRow(era));
      FilterConcat(Collected(s, bs[..n], Some(era)), KeptRows(s, bs[n], Some(era)), PastRow(era));
    }
  }

  // The training rows before the era carry no information from inside or after it.
  lemma DatasetNonInterference(s: Study, as_: seq<Window>, bs: seq<Window>, era: Era, ks: seq<nat>, ms: seq<nat>)
    requires ShareAllPasts(as_, bs, era.from, ks, ms)
    ensures Filter(Dataset(s, as_, Some(era)), PastRow(era)) == Filter(Dataset(s, bs, Some(era)), PastRow(era))
  {
    CollectedNonInterference(s, as_, bs, era, ks, ms);
    FilterStableSort(Collected(s, as_, Some(era)), RowTs(), PastRow(era));
    FilterStableSort(Collected(s, bs, Some(era)), RowTs(), PastRow(era));
  }
}
