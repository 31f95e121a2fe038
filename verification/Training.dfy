// What a training row says: the label, regime and features of one point a genome entered.
module Training {
  import opened Prelude
  import opened Sorting
  import opened Market
  import opened Genomes
  import opened Labeler
  import opened Cooldown
  import opened Backtest
  import opened Firewall

  // ---- which points are entered ----------------------------------------------------------------

  ghost predicate HoldsAt(p: Predicate, f: Features) {
    p.key in f && match p.op
                  case Gt => f[p.key] > p.threshold
                  case Lt => f[p.key] < p.threshold
                  case Gte => f[p.key] >= p.threshold
                  case Lte => f[p.key] <= p.threshold
  }

  // Every condition, and at least one, holds at the point.
  ghost predicate Signals(g: Genome, f: Features) {
    g.predicates != [] && forall i :: 0 <= i < |g.predicates| ==> HoldsAt(g.predicates[i], f)
  }

  ghost predicate HasLabel(s: Study, w: Window, p: BarPoint) {
    p.atr.Some? && exists ev: LabelEvent, exit: nat :: IsLabelAt(s, w, p, ev, exit)
  }

  // The declarative reading of the label at a point.
  ghost predicate IsLabelAt(s: Study, w: Window, p: BarPoint, ev: LabelEvent, exit: nat)
    requires p.atr.Some?
  {
    IsLabel(w.bars, p.idx, s.genome.side, p.atr.value, s.genome.risk, s.profile.maxHoldBars, ev, exit)
  }

  lemma SignalsIffFires(g: Genome, f: Features)
    ensures Signals(g, f) <==> g.Fires(f)
  {
    if Signals(g, f) {
      forall p | p in g.predicates ensures p.HoldsOn(f) {
        var i :| 0 <= i < |g.predicates| && g.predicates[i] == p;
        assert HoldsAt(g.predicates[i], f);
      }
    }
    if g.Fires(f) {
      forall i | 0 <= i < |g.predicates| ensures HoldsAt(g.predicates[i], f) {
        assert g.predicates[i] in g.predicates;
      }
    }
  }

  lemma LabelIff(s: Study, w: Window, p: BarPoint)
    requires p.atr.Some?
    ensures LabelAt(s, w, p).Ok? <==> HasLabel(s, w, p)
    ensures LabelAt(s, w, p).Ok? ==> exists exit: nat :: IsLabelAt(s, w, p, LabelAt(s, w, p).value, exit)
  {
    hide IsLabel;
    var g, hold := s.genome, s.profile.maxHoldBars;
    if LabelAt(s, w, p).Ok? {
      var exit := ExitIndex(w.bars, p.idx, g.side, p.atr.value, g.risk, hold);
      LabelMeetsSpec(w.bars, p.idx, g.side, p.atr.value, g.risk, hold);
      assert IsLabelAt(s, w, p, LabelAt(s, w, p).value, exit);
    }
    if HasLabel(s, w, p) {
      var ev: LabelEvent, exit: nat :| IsLabelAt(s, w, p, ev, exit);
      SpecDeterminesLabel(w.bars, p.idx, g.side, p.atr.value, g.risk, hold, ev, exit);
    }
  }

  // Outside any cooldown a point is silent unless every condition holds; else skipped for its
  // regime unless that is tradeable; else entered exactly when a bar follows and it has a label.
  lemma VerdictIff(s: Study, w: Window, p: BarPoint)
    ensures Judge(s, w, p) == Silent <==> !Signals(s.genome, p.features)
    ensures Judge(s, w, p) == WrongRegime <==> Signals(s.genome, p.features) && !s.classify(p.features).tradeable
    ensures Judge(s, w, p) == Enter
       <==> && Signals(s.genome, p.features) && s.classify(p.features).tradeable
            && p.idx + 1 < |w.bars| && HasLabel(s, w, p)
  {
    SignalsIffFires(s.genome, p.features);
    hide Signals, LabelAt, Genome.Fires;
    if p.atr.Some? {
      LabelIff(s, w, p);
    }
  }

  // An entry made before the point is no more than max(1, min_hold_bars) bars behind it.
  ghost predicate InCooldown(s: Study, w: Window, i: nat)
    requires i < |w.points|
  {
    exists t :: t in WalkOf(s, w).taken && EntryCools(s, w, t, i)
  }

  ghost predicate EntryCools(s: Study, w: Window, t: nat, i: nat)
    requires i < |w.points|
  {
    t < i && w.points[i].idx <= w.points[t].idx + MaxNat(1, s.profile.minHoldBars)
  }

  lemma CooldownIs(s: Study, w: Window, i: nat)
    requires ValidWindow(w) && i < |w.points|
    ensures WalkOf(s, w) == WalkOver(CourseOf(s, w), |w.points|)
    ensures InCooldown(s, w, i) <==> Cooled(CourseOf(s, w), WalkOf(s, w).taken, i)
  {
    hide Judge, WalkOver;
    assert w.points[i].idx < |w.bars|;
    var taken := WalkOf(s, w).taken;
    if t :| t in taken && EntryCools(s, w, t, i) {
      var a :| 0 <= a < |taken| && taken[a] == t;
    }
    if Cooled(CourseOf(s, w), taken, i) {
      var a :| 0 <= a < |taken| && taken[a] < i
                && CourseOf(s, w).idx[i] <= CourseOf(s, w).idx[taken[a]] + CourseOf(s, w).gap;
      assert EntryCools(s, w, taken[a], i);
    }
  }

  // A backtest enters exactly the points that come to an entry outside every earlier entry's
  // cooldown.
  lemma EnteredIff(s: Study, w: Window, i: nat)
    requires ValidWindow(w) && i < |w.points|
    ensures i in WalkOf(s, w).taken <==> Judge(s, w, w.points[i]) == Enter && !InCooldown(s, w, i)
  {
    hide Judge, WalkOver, InCooldown, Cooled, ValidWindow;
    CourseIsValid(s, w);
    CooldownIs(s, w, i);
    TakenIff(CourseOf(s, w), |w.points|, i);
  }

  ghost function SkippedAs(s: Study, w: Window, v: Verdict): set<int> {
    set i | 0 <= i < |w.points| && Judge(s, w, w.points[i]) == v && !InCooldown(s, w, i)
  }

  // And its skip counters count the points outside every cooldown that come to their verdict.
  lemma SkipsAre(s: Study, w: Window)
    requires ValidWindow(w)
    ensures WalkOf(s, w).regime == |SkippedAs(s, w, WrongRegime)|
    ensures WalkOf(s, w).unlabelable == |SkippedAs(s, w, Unlabelable)|
  {
    hide Judge, InCooldown, Cooled, WalkOver;
    CourseIsValid(s, w);
    var c, taken := CourseOf(s, w), WalkOf(s, w).taken;
    if w.points == [] {
      NoWalk(s, w);
    } else {
      CooldownIs(s, w, 0);
      CountersAre(c, |w.points|);
    }
    forall i: nat | i < |w.points| ensures InCooldown(s, w, i) <==> Cooled(c, taken, i) {
      CooldownIs(s, w, i);
    }
    assert SkippedAs(s, w, WrongRegime) == PassedOver(c, taken, |w.points|, WrongRegime);
    assert SkippedAs(s, w, Unlabelable) == PassedOver(c, taken, |w.points|, Unlabelable);
  }

  lemma NoWalk(s: Study, w: Window)
    requires w.points == []
    ensures WalkOf(s, w) == START
    ensures forall v :: PassedOver(CourseOf(s, w), [], 0, v) == {}
  {
    NothingPassedOver(CourseOf(s, w));
  }

  // ---- what a row says ----------------------------------------------------------------------

  // The row a point's label makes.
  ghost predicate Tells(s: Study, w: Window, p: BarPoint, row: DatasetRow) {
    && p.atr.Some?
    && row.regime == s.classify(p.features).name && row.features == s.columns(p.features)
    && exists ev: LabelEvent, exit: nat ::
         IsLabelAt(s, w, p, ev, exit) && row.ts == ev.entryTs && row.t1 == ev.t1 && row.ret == ev.retR
  }

  lemma RowTells(s: Study, w: Window, t: nat)
    requires t < |w.points| && Judge(s, w, w.points[t]) == Enter
    ensures Tells(s, w, w.points[t], RowAt(s, w, t))
  {
    hide LabelAt, IsLabelAt;
    LabelIff(s, w, w.points[t]);
  }

  // A point makes only one row.
  lemma TellsOne(s: Study, w: Window, p: BarPoint, a: DatasetRow, b: DatasetRow)
    requires Tells(s, w, p, a) && Tells(s, w, p, b)
    ensures a == b
  {
    hide IsLabel;
    var g, hold := s.genome, s.profile.maxHoldBars;
    var ev: LabelEvent, exit: nat :|
      IsLabelAt(s, w, p, ev, exit) && a.ts == ev.entryTs && a.t1 == ev.t1 && a.ret == ev.retR;
    var ev': LabelEvent, exit': nat :|
      IsLabelAt(s, w, p, ev', exit') && b.ts == ev'.entryTs && b.t1 == ev'.t1 && b.ret == ev'.retR;
    SpecUnique(w.bars, p.idx, g.side, p.atr.value, g.risk, hold, ev, exit, ev', exit');
  }

  // A window's rows are those of the points its backtest enters, one each and in order.
  lemma AssembledTell(s: Study, w: Window)
    requires ValidWindow(w)
    ensures AllEnter(s, w, WalkOf(s, w).taken) && |AssembledRows(s, w)| == |WalkOf(s, w).taken|
    ensures forall a :: 0 <= a < |WalkOf(s, w).taken| ==>
              Tells(s, w, w.points[WalkOf(s, w).taken[a]], AssembledRows(s, w)[a])
  {
    hide WalkOf, Judge, RowAt, Tells;
    AssembleKeepsOrder(s, w);
    var taken := WalkOf(s, w).taken;
    forall a | 0 <= a < |taken| ensures Tells(s, w, w.points[taken[a]], AssembledRows(s, w)[a]) {
      RowTells(s, w, taken[a]);
    }
  }

  // A row of a point the backtest enters whose holding span is clear of the era.
  ghost predicate RowOfWindow(s: Study, w: Window, era: Option<Era>, row: DatasetRow) {
    && (era.Some? ==> row.t1 < era.value.from || row.ts > era.value.to)
    && exists a :: 0 <= a < |WalkOf(s, w).taken| && EnteredRow(s, w, WalkOf(s, w).taken[a], row)
  }

  ghost predicate EnteredRow(s: Study, w: Window, t: nat, row: DatasetRow) {
    t < |w.points| && Tells(s, w, w.points[t], row)
  }

  lemma KeptRowsIff(s: Study, w: Window, era: Option<Era>, row: DatasetRow)
    requires ValidWindow(w)
    ensures row in KeptRows(s, w, era) <==> RowOfWindow(s, w, era, row)
  {
    hide WalkOf, Judge, Tells, AssembledRows, ValidWindow;
    AssembledTell(s, w);
    var rows, taken := AssembledRows(s, w), WalkOf(s, w).taken;
    if row in KeptRows(s, w, era) {
      var i :| 0 <= i < |KeptRows(s, w, era)| && KeptRows(s, w, era)[i] == row;
      FilterMember(rows, Keeps(era), i);
      var a :| 0 <= a < |rows| && rows[a] == row;
      assert EnteredRow(s, w, taken[a], row);
    }
    if RowOfWindow(s, w, era, row) {
      var a :| 0 <= a < |taken| && EnteredRow(s, w, taken[a], row);
      TellsOne(s, w, w.points[taken[a]], row, rows[a]);
      FilterHolds(rows, Keeps(era), a);
    }
  }

  lemma {:induction false} CollectedIff(s: Study, ws: seq<Window>, era: Option<Era>, row: DatasetRow)
    requires forall i :: 0 <= i < |ws| ==> ValidWindow(ws[i])
    ensures row in Collected(s, ws, era) <==> exists i :: 0 <= i < |ws| && RowOfWindow(s, ws[i], era, row)
  {
    hide KeptRows, RowOfWindow, ValidWindow;
    if ws != [] {
      var n := |ws| - 1;
      CollectedIff(s, ws[..n], era, row);
      KeptRowsIff(s, ws[n], era, row);
      if i :| 0 <= i < |ws| && RowOfWindow(s, ws[i], era, row) {
        if i < n {
          assert RowOfWindow(s, ws[..n][i], era, row);
        }
      }
      if i :| 0 <= i < n && RowOfWindow(s, ws[..n][i], era, row) {
        assert RowOfWindow(s, ws[i], era, row);
      }
    }
  }

  // The training set holds exactly the rows the genome's entries make: each window's entered
  // points, labeled, with their regime and features, but for those whose span meets the era.
  lemma DatasetRowsIff(s: Study, ws: seq<Window>, era: Option<Era>, row: DatasetRow)
    requires forall i :: 0 <= i < |ws| ==> ValidWindow(ws[i])
    ensures row in Dataset(s, ws, era) <==> exists i :: 0 <= i < |ws| && RowOfWindow(s, ws[i], era, row)
  {
    hide RowOfWindow, Collected, ValidWindow, StableSort;
    CollectedIff(s, ws, era, row);
    assert row in Dataset(s, ws, era) <==> row in multiset(Dataset(s, ws, era));
    assert row in Collected(s, ws, era) <==> row in multiset(Collected(s, ws, era));
    SortedCounts(s, ws, era);
  }

  lemma SortedCounts(s: Study, ws: seq<Window>, era: Option<Era>)
    ensures multiset(Dataset(s, ws, era)) == multiset(Collected(s, ws, era))
  {
    hide Collected;
  }
}
