// Past the reserved era: when what a window keeps is free of what happened inside.
module Aftermath {
  import opened Prelude
  import opened Sorting
  import opened Market
  import opened Risk
  import opened Genomes
  import opened Labeler
  import opened Cooldown
  import opened Backtest
  import opened Firewall

  // Two windows with the same timestamps that share every bar from index q on and every point
  // from the m-th and n-th on; the bars past the era's end are those from q on, and no earlier
  // point stands on one. Before that, the era included, they may differ at will.
  ghost predicate ShareFuture(a: Window, b: Window, era: Era, q: nat, m: nat, n: nat) {
    && ValidWindow(a) && ValidWindow(b) && |a.bars| == |b.bars|
    && (forall i :: 0 <= i < |a.bars| ==> a.bars[i].ts == b.bars[i].ts)
    && (forall i :: q <= i < |a.bars| ==> a.bars[i] == b.bars[i])
    && (forall i :: 0 <= i < |a.bars| ==> (a.bars[i].ts > era.to <==> i >= q))
    && m <= |a.points| && n <= |b.points| && |a.points| - m == |b.points| - n
    && EndsBefore(a, m, q) && EndsBefore(b, n, q)
    && forall i :: 0 <= i < |a.points| - m ==> SharedPoint(a, b, m, n, q, i)
  }

  ghost predicate EndsBefore(w: Window, m: nat, q: nat) {
    forall i :: 0 <= i < m && i < |w.points| ==> w.points[i].idx < q
  }

  ghost predicate SharedPoint(a: Window, b: Window, m: nat, n: nat, q: nat, i: nat) {
    && m + i < |a.points| && n + i < |b.points|
    && a.points[m + i] == b.points[n + i] && a.points[m + i].idx >= q
  }

  function LaterRow(era: Era): DatasetRow -> bool {
    (row: DatasetRow) => row.ts > era.to
  }

  // A point past the era is judged, and labeled, by what follows it alone.
  lemma SameVerdictLater(s: Study, a: Window, b: Window, era: Era, q: nat, m: nat, n: nat, i: nat)
    requires ShareFuture(a, b, era, q, m, n) && m + i < |a.points|
    ensures n + i < |b.points| && a.points[m + i].idx < |a.bars|
    ensures Judge(s, a, a.points[m + i]) == Judge(s, b, b.points[n + i])
    ensures Judge(s, a, a.points[m + i]) == Enter ==> RowAt(s, a, m + i) == RowAt(s, b, n + i)
    ensures Judge(s, a, a.points[m + i]) == Enter ==>
              RowAt(s, a, m + i).ts == a.bars[a.points[m + i].idx].ts && LaterRow(era)(RowAt(s, a, m + i))
  {
    hide Label, Genome.Fires;
    assert SharedPoint(a, b, m, n, q, i);
    var p := a.points[m + i];
    if p.atr.Some? {
      LabelForward(a.bars, b.bars, p.idx, s.genome.side, p.atr.value, s.genome.risk, s.profile.maxHoldBars);
    }
    if Judge(s, a, p) == Enter {
      RowStartsAtItsBar(s, a, m + i);
    }
  }

  lemma CoursesShareTail(s: Study, a: Window, b: Window, era: Era, q: nat, m: nat, n: nat)
    requires ShareFuture(a, b, era, q, m, n)
    ensures ShareTail(CourseOf(s, a), CourseOf(s, b), m, n)
  {
    hide Judge;
    CourseIsValid(s, a);
    CourseIsValid(s, b);
    forall i: nat | i < |a.points| - m ensures TailAt(CourseOf(s, a), CourseOf(s, b), m, n, i) {
      assert SharedPoint(a, b, m, n, q, i);
      SameVerdictLater(s, a, b, era, q, m, n, i);
    }
    hide ValidCourse;
  }

  // The entries the walk over a window makes before a point, and past it.
  function Brought(s: Study, w: Window, m: nat): seq<nat>
    requires m <= |w.points|
  {
    WalkOver(CourseOf(s, w), m).taken
  }

  function MadeLater(s: Study, w: Window, m: nat): seq<nat>
    requires m <= |w.points|
  {
    Resumed(CourseOf(s, w), Brought(s, w, m), m, |w.points| - m)
  }

  ghost predicate OffsetsEnter(s: Study, w: Window, m: nat, offsets: seq<nat>) {
    forall t :: 0 <= t < |offsets| ==>
      m + offsets[t] < |w.points| && Judge(s, w, w.points[m + offsets[t]]) == Enter
  }

  function RowsFrom(s: Study, w: Window, m: nat, offsets: seq<nat>): (r: seq<DatasetRow>)
    requires OffsetsEnter(s, w, m, offsets)
    ensures |r| == |offsets|
  {
    seq(|offsets|, t requires 0 <= t < |offsets| => RowAt(s, w, m + offsets[t]))
  }

  lemma TakenSplits(s: Study, w: Window, m: nat)
    requires ValidWindow(w) && m <= |w.points|
    ensures WalkOf(s, w).taken == Brought(s, w, m) + From(m, MadeLater(s, w, m))
    ensures AllEnter(s, w, WalkOf(s, w).taken) && AllEnter(s, w, Brought(s, w, m))
    ensures OffsetsEnter(s, w, m, MadeLater(s, w, m))
    ensures forall t :: 0 <= t < |Brought(s, w, m)| ==> Brought(s, w, m)[t] < m
  {
    hide Judge, WalkOver, Resumed;
    var c := CourseOf(s, w);
    WalkResumes(c, m, |w.points| - m);
    NoBarsNoWalk(s, w);
    WalkAllEnter(s, w, m);
    WalkEnters(c, m);
    OffsetsRead(s, w, m, Brought(s, w, m), MadeLater(s, w, m));
  }

  lemma NoBarsNoWalk(s: Study, w: Window)
    requires ValidWindow(w)
    ensures WalkOf(s, w) == WalkOver(CourseOf(s, w), |w.points|)
  {
    if w.bars == [] && w.points != [] {
      FirstPointStands(w);
    }
  }

  lemma FirstPointStands(w: Window)
    requires ValidWindow(w) && w.points != []
    ensures w.points[0].idx < |w.bars|
  {
  }

  lemma OffsetsRead(s: Study, w: Window, m: nat, before: seq<nat>, offsets: seq<nat>)
    requires AllEnter(s, w, before + From(m, offsets))
    ensures OffsetsEnter(s, w, m, offsets)
  {
    hide Judge;
    var all := before + From(m, offsets);
    forall t | 0 <= t < |offsets|
      ensures m + offsets[t] < |w.points| && Judge(s, w, w.points[m + offsets[t]]) == Enter
    {
      assert all[|before| + t] == m + offsets[t];
    }
  }

  lemma RowsSplit(s: Study, w: Window, m: nat)
    requires ValidWindow(w) && m <= |w.points|
    ensures AllEnter(s, w, Brought(s, w, m)) && OffsetsEnter(s, w, m, MadeLater(s, w, m))
    ensures AssembledRows(s, w) == RowsAt(s, w, Brought(s, w, m)) + RowsFrom(s, w, m, MadeLater(s, w, m))
  {
    hide Judge, Brought, MadeLater, RowAt, WalkOf;
    TakenSplits(s, w, m);
    AssembleKeepsOrder(s, w);
    hide ValidWindow, RowsAt, RowsFrom, AllEnter, OffsetsEnter;
    RowsJoin(s, w, m, Brought(s, w, m), MadeLater(s, w, m));
  }

  lemma RowsJoin(s: Study, w: Window, m: nat, before: seq<nat>, offsets: seq<nat>)
    requires AllEnter(s, w, before + From(m, offsets)) && AllEnter(s, w, before) && OffsetsEnter(s, w, m, offsets)
    ensures RowsAt(s, w, before + From(m, offsets)) == RowsAt(s, w, before) + RowsFrom(s, w, m, offsets)
  {
    hide RowAt, Judge;
    var all, joined := before + From(m, offsets), RowsAt(s, w, before) + RowsFrom(s, w, m, offsets);
    forall i | 0 <= i < |all| ensures RowsAt(s, w, all)[i] == joined[i] {
      assert all[i] == if i < |before| then before[i] else m + offsets[i - |before|];
    }
  }

  // The kept rows past the era are exactly those of the entries made past it.
  lemma LaterRows(s: Study, a: Window, b: Window, era: Era, q: nat, m: nat, n: nat)
    requires ShareFuture(a, b, era, q, m, n)
    ensures OffsetsEnter(s, a, m, MadeLater(s, a, m))
    ensures Filter(KeptRows(s, a, Some(era)), LaterRow(era)) == RowsFrom(s, a, m, MadeLater(s, a, m))
  {
    hide Judge, Brought, MadeLater, RowsAt, RowsFrom, AssembledRows, LaterRow, ValidWindow;
    RowsSplit(s, a, m);
    EarlyNotLater(s, a, b, era, q, m, n);
    LateAreLater(s, a, b, era, q, m, n, MadeLater(s, a, m));
    hide ShareFuture, AllEnter, OffsetsEnter;
    var early, late := RowsAt(s, a, Brought(s, a, m)), RowsFrom(s, a, m, MadeLater(s, a, m));
    LaterKept(AssembledRows(s, a), era);
    FilterConcat(early, late, LaterRow(era));
    FilterNone(early, LaterRow(era));
    FilterAll(late, LaterRow(era));
  }

  lemma LateAreLater(s: Study, a: Window, b: Window, era: Era, q: nat, m: nat, n: nat, offsets: seq<nat>)
    requires ShareFuture(a, b, era, q, m, n) && OffsetsEnter(s, a, m, offsets)
    ensures forall t :: 0 <= t < |offsets| ==> LaterRow(era)(RowsFrom(s, a, m, offsets)[t])
  {
    hide Judge, RowAt;
    forall t | 0 <= t < |offsets| ensures LaterRow(era)(RowsFrom(s, a, m, offsets)[t]) {
      SameVerdictLater(s, a, b, era, q, m, n, offsets[t]);
    }
  }

  // The firewall purges nothing that starts past the era.
  lemma LaterKept(rows: seq<DatasetRow>, era: Era)
    ensures Filter(Filter(rows, Keeps(Some(era))), LaterRow(era)) == Filter(rows, LaterRow(era))
  {
    FilterTwice(rows, Keeps(Some(era)), LaterRow(era), LaterRow(era));
  }

  lemma EarlyNotLater(s: Study, a: Window, b: Window, era: Era, q: nat, m: nat, n: nat)
    requires ShareFuture(a, b, era, q, m, n)
    ensures AllEnter(s, a, Brought(s, a, m))
    ensures forall t :: 0 <= t < |Brought(s, a, m)| ==> !LaterRow(era)(RowsAt(s, a, Brought(s, a, m))[t])
  {
    hide Judge, Brought, RowAt;
    var early := Brought(s, a, m);
    TakenSplits(s, a, m);
    forall t | 0 <= t < |early| ensures !LaterRow(era)(RowsAt(s, a, early)[t]) {
      RowStartsAtItsBar(s, a, early[t]);
      assert a.points[early[t]].idx < q;
    }
  }

  // Distinct entries past the era give distinct rows.
  lemma RowsTellOffsets(s: Study, a: Window, b: Window, era: Era, q: nat, m: nat, n: nat, xs: seq<nat>, ys: seq<nat>)
    requires ShareFuture(a, b, era, q, m, n) && OffsetsEnter(s, a, m, xs) && OffsetsEnter(s, b, n, ys)
    ensures RowsFrom(s, a, m, xs) == RowsFrom(s, b, n, ys) <==> xs == ys
  {
    hide Judge, RowAt;
    if xs == ys {
      forall t | 0 <= t < |xs| ensures RowsFrom(s, a, m, xs)[t] == RowsFrom(s, b, n, ys)[t] {
        SameVerdictLater(s, a, b, era, q, m, n, xs[t]);
      }
    }
    if RowsFrom(s, a, m, xs) == RowsFrom(s, b, n, ys) {
      assert |xs| == |ys|;
      forall t | 0 <= t < |xs| ensures xs[t] == ys[t] {
        assert RowsFrom(s, a, m, xs)[t] == RowsFrom(s, b, n, ys)[t];
        RowTellsOffset(s, a, b, era, q, m, n, xs[t], ys[t]);
      }
    }
  }

  lemma RowTellsOffset(s: Study, a: Window, b: Window, era: Era, q: nat, m: nat, n: nat, x: nat, y: nat)
    requires ShareFuture(a, b, era, q, m, n) && m + x < |a.points| && n + y < |b.points|
    requires Judge(s, a, a.points[m + x]) == Enter && Judge(s, b, b.points[n + y]) == Enter
    requires RowAt(s, a, m + x) == RowAt(s, b, n + y)
    ensures x == y
  {
    hide Judge, RowAt;
    SameVerdictLater(s, a, b, era, q, m, n, x);
    SameVerdictLater(s, a, b, era, q, m, n, y);
    SameStamp(a, a.points[m + x].idx, a.points[m + y].idx);
    SamePoint(a, m + x, m + y);
  }

  lemma SameStamp(w: Window, i: nat, j: nat)
    requires ValidWindow(w) && i < |w.bars| && j < |w.bars| && w.bars[i].ts == w.bars[j].ts
    ensures i == j
  {
  }

  lemma SamePoint(w: Window, i: nat, j: nat)
    requires ValidWindow(w) && i < |w.points| && j < |w.points| && w.points[i].idx == w.points[j].idx
    ensures i == j
  {
  }

  // No point past the era the genome would enter is in the cooldown of the last entry made up to
  // the era's end in one window and not in the other.
  ghost predicate LaterUncontested(s: Study, a: Window, b: Window, m: nat, n: nat)
    requires m <= |a.points| && n <= |b.points| && |a.points| - m == |b.points| - n
  {
    Uncontested(CourseOf(s, a), CourseOf(s, b), Brought(s, a, m), Brought(s, b, n), m, n, |a.points| - m)
  }

  // The rows past the era are the same exactly when no point there is contested: all the era can
  // do to them is to leave an entry whose cooldown reaches past its end.
  lemma LaterRowsSameIff(s: Study, a: Window, b: Window, era: Era, q: nat, m: nat, n: nat)
    requires ShareFuture(a, b, era, q, m, n)
    ensures Filter(KeptRows(s, a, Some(era)), LaterRow(era)) == Filter(KeptRows(s, b, Some(era)), LaterRow(era))
       <==> LaterUncontested(s, a, b, m, n)
  {
    LaterRowsTell(s, a, b, era, q, m, n);
    MadeLaterSameIff(s, a, b, era, q, m, n);
    hide KeptRows, MadeLater, LaterUncontested, LaterRow, Filter;
  }

  // The rows past the era tell the entries made there.
  lemma LaterRowsTell(s: Study, a: Window, b: Window, era: Era, q: nat, m: nat, n: nat)
    requires ShareFuture(a, b, era, q, m, n)
    ensures Filter(KeptRows(s, a, Some(era)), LaterRow(era)) == Filter(KeptRows(s, b, Some(era)), LaterRow(era))
       <==> MadeLater(s, a, m) == MadeLater(s, b, n)
  {
    hide RowAt, KeptRows, MadeLater, Filter, LaterRow, OffsetsEnter;
    ShareFutureSymmetric(a, b, era, q, m, n);
    LaterRows(s, a, b, era, q, m, n);
    LaterRows(s, b, a, era, q, n, m);
    RowsTellOffsets(s, a, b, era, q, m, n, MadeLater(s, a, m), MadeLater(s, b, n));
  }

  lemma MadeLaterSameIff(s: Study, a: Window, b: Window, era: Era, q: nat, m: nat, n: nat)
    requires ShareFuture(a, b, era, q, m, n)
    ensures MadeLater(s, a, m) == MadeLater(s, b, n)
       <==> LaterUncontested(s, a, b, m, n)
  {
    hide Judge, Brought, Uncontested;
    CoursesShareTail(s, a, b, era, q, m, n);
    assert |a.points| - m == |b.points| - n;
    hide ShareFuture, ShareTail, CourseOf, Resumed;
    ResumeSameIff(CourseOf(s, a), CourseOf(s, b), Brought(s, a, m), Brought(s, b, n), m, n, |a.points| - m);
  }

  lemma ShareFutureSymmetric(a: Window, b: Window, era: Era, q: nat, m: nat, n: nat)
    requires ShareFuture(a, b, era, q, m, n)
    ensures ShareFuture(b, a, era, q, n, m)
  {
    hide ValidWindow, EndsBefore;
    forall i: nat | i < |b.points| - n ensures SharedPoint(b, a, n, m, q, i) {
      assert SharedPoint(a, b, m, n, q, i);
    }
  }

  // ---- the whole window --------------------------------------------------------------------

  // Where the era cuts a pair of windows: the bars and points before it, the first bar past it,
  // and the points of each window up to its end.
  datatype Cut = Cut(bars: nat, points: nat, firstPast: nat, upToA: nat, upToB: nat)

  // Two windows with the same timestamps that differ only inside the era.
  ghost predicate DifferInside(a: Window, b: Window, era: Era, c: Cut) {
    SharePast(a, b, era.from, c.bars, c.points) && ShareFuture(a, b, era, c.firstPast, c.upToA, c.upToB)
  }

  lemma RowEndsAfterStart(s: Study, w: Window, t: nat)
    requires ValidWindow(w) && t < |w.points| && Judge(s, w, w.points[t]) == Enter
    ensures RowAt(s, w, t).ts <= RowAt(s, w, t).t1
  {
    hide Judge;
    RowStartsAtItsBar(s, w, t);
    var exit := RowExit(s, w, t);
    assert w.points[t].idx < exit ==> w.bars[w.points[t].idx].ts < w.bars[exit].ts;
  }

  // What is kept was decided before the era or starts past it.
  lemma KeptRowIsClear(s: Study, w: Window, era: Era, i: nat)
    requires ValidWindow(w) && i < |KeptRows(s, w, Some(era))|
    ensures var row := KeptRows(s, w, Some(era))[i];
            if row.ts <= era.to then PastRow(era)(row) && !LaterRow(era)(row)
            else LaterRow(era)(row) && !PastRow(era)(row)
  {
    hide Judge, RowAt, WalkOf, ValidWindow;
    var row := KeptRows(s, w, Some(era))[i];
    AssembleKeepsOrder(s, w);
    var taken := WalkOf(s, w).taken;
    var rows := RowsAt(s, w, taken);
    FilterMember(rows, Keeps(Some(era)), i);
    var j :| 0 <= j < |rows| && rows[j] == row;
    RowEndsAfterStart(s, w, taken[j]);
  }

  lemma KeptRowsSorted(s: Study, w: Window, era: Era)
    ensures SortedBy(KeptRows(s, w, Some(era)), RowTs())
  {
    hide RowsOf, Entries, WalkOf, Filter, Keeps, SortedBy;
    WalkAllEnter(s, w, 0);
    StableSortSorted(RowsOf(Entries(s, w, WalkOf(s, w).taken)), RowTs());
    FilterSorted(AssembledRows(s, w), RowTs(), Keeps(Some(era)));
  }

  lemma KeptRowsSplit(s: Study, w: Window, era: Era)
    requires ValidWindow(w)
    ensures var kept := KeptRows(s, w, Some(era)); kept == Filter(kept, PastRow(era)) + Filter(kept, LaterRow(era))
  {
    hide KeptRows, ValidWindow, PastRow, LaterRow, SortedBy, Filter;
    var kept := KeptRows(s, w, Some(era));
    KeptRowsSorted(s, w, era);
    forall i | 0 <= i < |kept|
      ensures if RowTs()(kept[i]) <= era.to then PastRow(era)(kept[i]) && !LaterRow(era)(kept[i])
              else LaterRow(era)(kept[i]) && !PastRow(era)(kept[i])
    {
      KeptRowIsClear(s, w, era, i);
    }
    SortedSplits(kept, RowTs(), PastRow(era), LaterRow(era), era.to);
  }

  // Windows that differ only inside the era keep the same rows exactly when no point past it is
  // contested.
  lemma KeptRowsSameIff(s: Study, a: Window, b: Window, era: Era, c: Cut)
    requires DifferInside(a, b, era, c)
    ensures KeptRows(s, a, Some(era)) == KeptRows(s, b, Some(era)) <==> LaterUncontested(s, a, b, c.upToA, c.upToB)
  {
    hide KeptRows, LaterUncontested, PastRow, LaterRow, Filter;
    WindowNonInterference(s, a, b, era, c.bars, c.points);
    LaterRowsSameIff(s, a, b, era, c.firstPast, c.upToA, c.upToB);
    KeptRowsSplit(s, a, era);
    KeptRowsSplit(s, b, era);
  }

  // The points past the era come more than the cooldown after its last bar.
  ghost predicate ResumesLate(w: Window, c: Cut, profile: HorizonProfile) {
    forall i :: c.upToA <= i < |w.points| ==> w.points[i].idx >= c.firstPast + MaxNat(profile.minHoldBars, 1)
  }

  // Then no genome's entries inside the era reach past it.
  lemma LateIsUncontested(s: Study, a: Window, b: Window, era: Era, c: Cut)
    requires DifferInside(a, b, era, c) && ResumesLate(a, c, s.profile)
    ensures LaterUncontested(s, a, b, c.upToA, c.upToB)
  {
    hide Judge, Brought;
    var ca, cb, ta, tb := CourseOf(s, a), CourseOf(s, b), Brought(s, a, c.upToA), Brought(s, b, c.upToB);
    forall i: nat | i < |a.points| - c.upToA ensures !Contested(ca, cb, ta, tb, c.upToA, c.upToB, i) {
      assert SharedPoint(a, b, c.upToA, c.upToB, c.firstPast, i);
      NotCooling(s, a, c.firstPast, c.upToA, c.upToA + i);
      NotCooling(s, b, c.firstPast, c.upToB, c.upToB + i);
    }
  }

  lemma NotCooling(s: Study, w: Window, q: nat, m: nat, i: nat)
    requires ValidWindow(w) && m <= i < |w.points| && EndsBefore(w, m, q)
    requires w.points[i].idx >= q + MaxNat(s.profile.minHoldBars, 1)
    ensures !Cooling(CourseOf(s, w), Brought(s, w, m), i)
  {
    hide Judge, Brought;
    TakenSplits(s, w, m);
    var taken := Brought(s, w, m);
    if taken != [] {
      assert w.points[taken[|taken| - 1]].idx < q;
    }
  }

  // No bar lies beyond the era's end.
  ghost predicate ClosesWithin(w: Window, era: Era) {
    ValidWindow(w) && forall i :: 0 <= i < |w.bars| ==> w.bars[i].ts <= era.to
  }

  // Windows that close inside the era and share what comes before it differ only inside it, and
  // have nothing past it.
  lemma ClosingDiffersInside(a: Window, b: Window, era: Era, k: nat, m: nat, profile: HorizonProfile)
    requires SharePast(a, b, era.from, k, m) && ClosesWithin(a, era)
    ensures var c := Cut(k, m, |a.bars|, |a.points|, |b.points|);
            DifferInside(a, b, era, c) && ResumesLate(a, c, profile)
  {
  }

  // ---- the dataset ---------------------------------------------------------------------------

  // Windows differ pair by pair only inside the era, and resume late after it.
  ghost predicate AllScreened(ws: seq<Window>, vs: seq<Window>, era: Era, cuts: seq<Cut>, profile: HorizonProfile) {
    && |ws| == |vs| == |cuts|
    && forall i :: 0 <= i < |ws| ==> DifferInside(ws[i], vs[i], era, cuts[i]) && ResumesLate(ws[i], cuts[i], profile)
  }

  lemma {:induction false} CollectedSame(s: Study, ws: seq<Window>, vs: seq<Window>, era: Option<Era>)
    requires |ws| == |vs|
    requires forall i :: 0 <= i < |ws| ==> KeptRows(s, ws[i], era) == KeptRows(s, vs[i], era)
    ensures Collected(s, ws, era) == Collected(s, vs, era)
  {
    hide KeptRows;
    if ws != [] {
      CollectedSame(s, ws[..|ws| - 1], vs[..|vs| - 1], era);
    }
  }

  // Whatever the era holds, such universes give every genome the same dataset.
  lemma DatasetScreened(s: Study, ws: seq<Window>, vs: seq<Window>, era: Era, cuts: seq<Cut>)
    requires AllScreened(ws, vs, era, cuts, s.profile)
    ensures Dataset(s, ws, Some(era)) == Dataset(s, vs, Some(era))
  {
    hide KeptRows, DifferInside, ResumesLate, LaterUncontested;
    forall i | 0 <= i < |ws| ensures KeptRows(s, ws[i], Some(era)) == KeptRows(s, vs[i], Some(era)) {
      LateIsUncontested(s, ws[i], vs[i], era, cuts[i]);
      KeptRowsSameIff(s, ws[i], vs[i], era, cuts[i]);
    }
    CollectedSame(s, ws, vs, Some(era));
  }

  // ---- and it does reach ------------------------------------------------------------------

  const PROBE := "trigger.x"

  // One point inside an era of one bar and one just past it; only the first point's reading
  // varies, no price does.
  function Straddling(inside: real): Window {
    Window(seq(4, i => Bar(i, 1.0, 1.0, 1.0, 1.0, 1.0)),
           [BarPoint(1, map[PROBE := inside], Some(1.0)), BarPoint(2, map[PROBE := 1.0], Some(1.0))])
  }

  function ProbeStudy(): Study {
    Study(Genome(Long, Swing, [Predicate(Trigger, PROBE, Gt, 0.5)],
                 RiskModel(StopAtr(1.0), RMultiple(2.0), None)),
          ProfileFor(Swing), (f: Features) => RegimeCall("", true), (f: Features) => f)
  }

  lemma ProbeFires(x: real)
    ensures ProbeStudy().genome.Fires(map[PROBE := x]) <==> x > 0.5
  {
    var g := ProbeStudy().genome;
    assert g.predicates[0] in g.predicates;
  }

  lemma ProbeVerdict(x: real, i: nat)
    requires i < 2
    ensures var w := Straddling(x);
            Judge(ProbeStudy(), w, w.points[i]) == if i == 1 || x > 0.5 then Enter else Silent
  {
    hide Genome.Fires;
    var s, w := ProbeStudy(), Straddling(x);
    ProbeFires(x);
    ProbeFires(1.0);
    LabelMeetsSpec(w.bars, w.points[i].idx, Long, 1.0, s.genome.risk, s.profile.maxHoldBars);
    hide Label;
  }

  lemma ProbeBrings(x: real)
    ensures Brought(ProbeStudy(), Straddling(x), 1) == if x > 0.5 then [0] else []
  {
    hide Judge;
    var c := CourseOf(ProbeStudy(), Straddling(x));
    ProbeVerdict(x, 0);
    WalkStarts(c);
    assert WalkOver(c, 1) == Step(c, WalkOver(c, 0), 0);
  }

  // Two windows whose prices agree throughout and whose points differ only inside the era, with
  // different rows past it.
  lemma LaterRowsCanDiffer()
    ensures var s, era, a, b := ProbeStudy(), Era(1, 1), Straddling(1.0), Straddling(0.0);
            && DifferInside(a, b, era, Cut(1, 0, 2, 1, 1))
            && Filter(KeptRows(s, a, Some(era)), LaterRow(era)) != Filter(KeptRows(s, b, Some(era)), LaterRow(era))
  {
    hide Judge, KeptRows;
    var s, era, a, b := ProbeStudy(), Era(1, 1), Straddling(1.0), Straddling(0.0);
    ProbeBrings(1.0);
    ProbeBrings(0.0);
    ProbeVerdict(1.0, 1);
    StraddlingShares();
    LaterRowsSameIff(s, a, b, era, 2, 1, 1);
    hide ShareFuture, SharePast, Brought;
    assert Contested(CourseOf(s, a), CourseOf(s, b), Brought(s, a, 1), Brought(s, b, 1), 1, 1, 0);
  }

  lemma StraddlingShares()
    ensures ShareFuture(Straddling(1.0), Straddling(0.0), Era(1, 1), 2, 1, 1)
    ensures SharePast(Straddling(1.0), Straddling(0.0), 1, 1, 0)
  {
    assert SharedPoint(Straddling(1.0), Straddling(0.0), 1, 1, 2, 0);
  }
}
