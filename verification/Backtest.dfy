// Walking one genome over one window: eligible points, cooldown, labels and rows.
module Backtest {
  import opened Prelude
  import opened Sorting
  import opened Market
  import opened Risk
  import opened Labeler
  import opened Genomes
  import opened Cooldown

  datatype BarPoint = BarPoint(idx: nat, features: Features, atr: Option<real>)

  datatype Window = Window(bars: seq<Bar>, points: seq<BarPoint>)

  // Bars are chronological and points name distinct bars in order.
  ghost predicate ValidWindow(w: Window) {
    && Chronological(w.bars)
    && (forall i :: 0 <= i < |w.points| ==> w.points[i].idx < |w.bars|)
    && forall i, j :: 0 <= i < j < |w.points| ==> w.points[i].idx < w.points[j].idx
  }

  datatype RegimeCall = RegimeCall(name: string, tradeable: bool)

  // Everything a backtest is run with; the regime classifier and the column renaming are
  // arbitrary functions of a point's features.
  datatype Study = Study(
    genome: Genome, profile: HorizonProfile,
    classify: Features -> RegimeCall, columns: Features -> Features)

  function LabelAt(s: Study, w: Window, p: BarPoint): Result<LabelEvent, LabelError>
    requires p.atr.Some?
  {
    Label(w.bars, p.idx, s.genome.side, p.atr.value, s.genome.risk, s.profile.maxHoldBars)
  }

  // What a point outside any cooldown comes to.
  function Judge(s: Study, w: Window, p: BarPoint): Verdict {
    if !s.genome.Fires(p.features) then Silent
    else if !s.classify(p.features).tradeable then WrongRegime
    else if p.atr.None? || p.idx + 1 >= |w.bars| then Unlabelable
    else if LabelAt(s, w, p).Ok? then Enter
    else Unlabelable
  }

  datatype LabeledEntry = LabeledEntry(event: LabelEvent, features: Features, regime: string)

  function EntryFor(s: Study, w: Window, p: BarPoint): LabeledEntry
    requires Judge(s, w, p) == Enter
  {
    LabeledEntry(LabelAt(s, w, p).value, s.columns(p.features), s.classify(p.features).name)
  }

  datatype BacktestResult = BacktestResult(entries: seq<LabeledEntry>, skippedRegime: nat, skippedUnlabelable: nat)

  // The window as the cooldown walk sees it.
  function CourseOf(s: Study, w: Window): (c: Course)
    ensures |c.idx| == |c.verdicts| == |w.points|
  {
    Course(seq(|w.points|, i requires 0 <= i < |w.points| => w.points[i].idx),
           seq(|w.points|, i requires 0 <= i < |w.points| => Judge(s, w, w.points[i])),
           MaxNat(s.profile.minHoldBars, 1))
  }

  lemma CourseIsValid(s: Study, w: Window)
    requires ValidWindow(w)
    ensures ValidCourse(CourseOf(s, w))
  {
  }

  function WalkOf(s: Study, w: Window): Walk {
    if w.bars == [] then START else WalkOver(CourseOf(s, w), |w.points|)
  }

  // The points the walk over the first k of them enters.
  ghost predicate AllEnter(s: Study, w: Window, taken: seq<nat>) {
    forall a :: 0 <= a < |taken| ==> taken[a] < |w.points| && Judge(s, w, w.points[taken[a]]) == Enter
  }

  lemma WalkAllEnter(s: Study, w: Window, k: nat)
    requires k <= |w.points|
    ensures AllEnter(s, w, WalkOver(CourseOf(s, w), k).taken)
    ensures AllEnter(s, w, WalkOf(s, w).taken)
  {
    WalkEnters(CourseOf(s, w), k);
    WalkEnters(CourseOf(s, w), |w.points|);
  }

  function Entries(s: Study, w: Window, taken: seq<nat>): (r: seq<LabeledEntry>)
    requires AllEnter(s, w, taken)
    ensures |r| == |taken|
  {
    seq(|taken|, a requires 0 <= a < |taken| => EntryFor(s, w, w.points[taken[a]]))
  }

  // One point of the walk, as the source's loop body treats it.
  method VisitPoint(s: Study, w: Window, point: BarPoint) returns (verdict: Verdict, entry: Option<LabeledEntry>)
    ensures verdict == Judge(s, w, point)
    ensures entry.Some? <==> verdict == Enter
    ensures verdict == Enter ==> entry == Some(EntryFor(s, w, point))
  {
    if !s.genome.Fires(point.features) {
      return Silent, None;
    }
    var regime := s.classify(point.features);
    if !regime.tradeable {
      return WrongRegime, None;
    }
    if point.atr.None? || point.idx + 1 >= |w.bars| {
      return Unlabelable, None;
    }
    var labelled := LabelOneWithRisk(w.bars, point.idx, s.genome.side, point.atr.value,
                                     s.genome.risk, s.profile.maxHoldBars);
    match labelled
    case Err(_) => return Unlabelable, None;
    case Ok(event) => return Enter, Some(LabeledEntry(event, s.columns(point.features), regime.name));
  }

  // The result so far and the last entered bar, as the walk over the first k points gives them.
  ghost function ResultOf(s: Study, w: Window, walk: Walk): BacktestResult
    requires AllEnter(s, w, walk.taken)
  {
    BacktestResult(Entries(s, w, walk.taken), walk.regime, walk.unlabelable)
  }

  ghost function ResultAfter(s: Study, w: Window, k: nat): BacktestResult
    requires k <= |w.points|
  {
    WalkAllEnter(s, w, k);
    ResultOf(s, w, WalkOver(CourseOf(s, w), k))
  }

  ghost function LastAfter(s: Study, w: Window, k: nat): Option<nat>
    requires k <= |w.points|
  {
    WalkAllEnter(s, w, k);
    var taken := WalkOver(CourseOf(s, w), k).taken;
    if taken == [] then None else Some(w.points[taken[|taken| - 1]].idx)
  }

  // What visiting point k does to the result and the last entered bar.
  lemma AfterPoint(s: Study, w: Window, k: nat)
    requires k < |w.points|
    ensures var r, last, p := ResultAfter(s, w, k), LastAfter(s, w, k), w.points[k];
            var r', last' := ResultAfter(s, w, k + 1), LastAfter(s, w, k + 1);
            if last.Some? && p.idx <= last.value + MaxNat(s.profile.minHoldBars, 1) then r' == r && last' == last
            else match Judge(s, w, p)
              case Silent => r' == r && last' == last
              case WrongRegime => r' == r.(skippedRegime := r.skippedRegime + 1) && last' == last
              case Unlabelable => r' == r.(skippedUnlabelable := r.skippedUnlabelable + 1) && last' == last
              case Enter => r' == r.(entries := r.entries + [EntryFor(s, w, p)]) && last' == Some(p.idx)
  {
    hide Judge, EntryFor, Entries, WalkOver;
    var before, next := WalkOver(CourseOf(s, w), k), WalkOver(CourseOf(s, w), k + 1);
    WalkAllEnter(s, w, k);
    WalkAllEnter(s, w, k + 1);
    StepOf(s, w, k);
    hide CourseOf;
    if next.taken != before.taken {
      EntriesSnoc(s, w, before.taken, k);
    }
  }

  // One step of the walk, read off the window.
  lemma StepOf(s: Study, w: Window, k: nat)
    requires k < |w.points|
    requires AllEnter(s, w, WalkOver(CourseOf(s, w), k).taken)
    ensures var before, next, p := WalkOver(CourseOf(s, w), k), WalkOver(CourseOf(s, w), k + 1), w.points[k];
            var taken := before.taken;
            if taken != [] && p.idx <= w.points[taken[|taken| - 1]].idx + MaxNat(s.profile.minHoldBars, 1)
            then next.taken == taken && next.regime == before.regime && next.unlabelable == before.unlabelable
            else match Judge(s, w, p)
              case Silent => next == before.(silent := before.silent + 1)
              case WrongRegime => next == before.(regime := before.regime + 1)
              case Unlabelable => next == before.(unlabelable := before.unlabelable + 1)
              case Enter => next == before.(taken := taken + [k])
  {
    hide Judge;
    var c := CourseOf(s, w);
    assert WalkOver(c, k + 1) == Step(c, WalkOver(c, k), k);
  }

  lemma EntriesSnoc(s: Study, w: Window, taken: seq<nat>, k: nat)
    requires AllEnter(s, w, taken) && AllEnter(s, w, taken + [k])
    requires k < |w.points| && Judge(s, w, w.points[k]) == Enter
    ensures Entries(s, w, taken + [k]) == Entries(s, w, taken) + [EntryFor(s, w, w.points[k])]
  {
    hide Judge, EntryFor;
  }

  method RunBacktest(s: Study, w: Window) returns (r: BacktestResult)
    ensures AllEnter(s, w, WalkOf(s, w).taken)
    ensures r == ResultOf(s, w, WalkOf(s, w))
  {
    WalkAllEnter(s, w, 0);
    r := BacktestResult([], 0, 0);
    if w.points == [] || w.bars == [] {
      return;
    }
    var gap := MaxNat(s.profile.minHoldBars, 1);
    var last: Option<nat> := None;
    hide Judge, EntryFor;
    for k := 0 to |w.points|
      invariant r == ResultAfter(s, w, k)
      invariant last == LastAfter(s, w, k)
    {
      AfterPoint(s, w, k);
      hide ResultAfter, LastAfter;
      var point := w.points[k];
      if last.None? || point.idx > last.value + gap {
        var verdict, entry := VisitPoint(s, w, point);
        match verdict {
          case Silent =>
          case WrongRegime => r := r.(skippedRegime := r.skippedRegime + 1);
          case Unlabelable => r := r.(skippedUnlabelable := r.skippedUnlabelable + 1);
          case Enter =>
            r := r.(entries := r.entries + [entry.value]);
            last := Some(point.idx);
        }
      }
    }
  }

  // ---- dataset rows ---------------------------------------------------------------

  datatype DatasetRow = DatasetRow(ts: int, t1: int, ret: real, regime: string, features: Features)

  function RowOf(e: LabeledEntry): DatasetRow {
    DatasetRow(e.event.entryTs, e.event.t1, e.event.retR, e.regime, e.features)
  }

  function RowTs(): DatasetRow -> int {
    (row: DatasetRow) => row.ts
  }

  function RowsOf(entries: seq<LabeledEntry>): (r: seq<DatasetRow>)
    ensures |r| == |entries|
  {
    seq(|entries|, i requires 0 <= i < |entries| => RowOf(entries[i]))
  }

  function Assemble(entries: seq<LabeledEntry>): seq<DatasetRow> {
    StableSort(RowsOf(entries), RowTs())
  }

  function RowAt(s: Study, w: Window, t: nat): DatasetRow
    requires t < |w.points| && Judge(s, w, w.points[t]) == Enter
  {
    RowOf(EntryFor(s, w, w.points[t]))
  }

  function RowsAt(s: Study, w: Window, taken: seq<nat>): (r: seq<DatasetRow>)
    requires AllEnter(s, w, taken)
    ensures |r| == |taken|
  {
    seq(|taken|, a requires 0 <= a < |taken| => RowAt(s, w, taken[a]))
  }

  // A row starts at its point's bar.
  lemma RowStartsAtItsBar(s: Study, w: Window, t: nat)
    requires t < |w.points| && Judge(s, w, w.points[t]) == Enter
    ensures w.points[t].idx < |w.bars| && RowAt(s, w, t).ts == w.bars[w.points[t].idx].ts
  {
  }

  // The bar a row's label ends at, no more than the purge length after its entry.
  function RowExit(s: Study, w: Window, t: nat): (exit: nat)
    requires t < |w.points| && Judge(s, w, w.points[t]) == Enter
    ensures exit < |w.bars| && w.points[t].idx <= exit <= w.points[t].idx + s.profile.PurgeBars()
    ensures RowAt(s, w, t).t1 == w.bars[exit].ts
  {
    var p := w.points[t];
    ExitIndex(w.bars, p.idx, s.genome.side, p.atr.value, s.genome.risk, s.profile.maxHoldBars)
  }

  lemma TakenInOrder(s: Study, w: Window, a: nat, b: nat)
    requires ValidWindow(w) && a < b < |WalkOf(s, w).taken|
    ensures AllEnter(s, w, WalkOf(s, w).taken)
    ensures var taken := WalkOf(s, w).taken;
            w.points[taken[a]].idx + MaxNat(s.profile.minHoldBars, 1) < w.points[taken[b]].idx
  {
    WalkAllEnter(s, w, 0);
    CourseIsValid(s, w);
    WalkSpaced(CourseOf(s, w), |w.points|);
    SpacedAt(CourseOf(s, w), WalkOf(s, w).taken, a, b);
  }

  // The walk already yields rows in time order, so assembling leaves them as they are.
  lemma AssembleKeepsOrder(s: Study, w: Window)
    requires ValidWindow(w)
    ensures AllEnter(s, w, WalkOf(s, w).taken)
    ensures Assemble(Entries(s, w, WalkOf(s, w).taken)) == RowsAt(s, w, WalkOf(s, w).taken)
  {
    WalkAllEnter(s, w, 0);
    var taken := WalkOf(s, w).taken;
    var rows := RowsAt(s, w, taken);
    assert RowsOf(Entries(s, w, taken)) == rows;
    forall i, j | 0 <= i < j < |rows| ensures RowTs()(rows[i]) <= RowTs()(rows[j]) {
      TakenInOrder(s, w, i, j);
      RowStartsAtItsBar(s, w, taken[i]);
      RowStartsAtItsBar(s, w, taken[j]);
    }
    StableSortIdentity(rows, RowTs());
  }
}
