// The monitor's log: replaying a day's events gives the day's statuses, counting them gives its
// report, and each says what fired.
module DayBook {
  import opened Prelude
  import opened Sorting
  import opened Detectors
  import opened Monitor
  import Score
  import Strategies

  // ---- what the detectors are given --------------------------------------------------------------

  function HasPnl(): Trade -> bool {
    (t: Trade) => t.pnlR.Some?
  }

  function HasConviction(): Trade -> bool {
    (t: Trade) => t.conviction.Some?
  }

  function HasBoth(): Trade -> bool {
    (t: Trade) => t.conviction.Some? && t.pnlR.Some?
  }

  function PnlOf(): Trade -> real {
    (t: Trade) => if t.pnlR.Some? then t.pnlR.value else 0.0
  }

  function ConvictionOf(): Trade -> real {
    (t: Trade) => if t.conviction.Some? then t.conviction.value else 0.0
  }

  function Won(): Trade -> bool {
    (t: Trade) => t.pnlR.Some? && t.pnlR.value > 0.0
  }

  lemma MapLast<T, U>(xs: seq<T>, x: T, f: T -> U)
    ensures MapSeq(xs + [x], f) == MapSeq(xs, f) + [f(x)]
  {
  }

  // The outcomes of the closed trades; the convictions of the trades that have one; and, of those,
  // whether each closed one won: all in the order of the trades.
  lemma {:induction false} InputsAre(trades: seq<Trade>)
    ensures Realized(trades) == MapSeq(Filter(trades, HasPnl()), PnlOf())
    ensures Convictions(trades) == MapSeq(Filter(trades, HasConviction()), ConvictionOf())
    ensures Wins(trades) == MapSeq(Filter(trades, HasBoth()), Won())
  {
    if trades != [] {
      var n := |trades| - 1;
      InputsAre(trades[..n]);
      MapLast(Filter(trades[..n], HasPnl()), trades[n], PnlOf());
      MapLast(Filter(trades[..n], HasConviction()), trades[n], ConvictionOf());
      MapLast(Filter(trades[..n], HasBoth()), trades[n], Won());
    }
  }

  // ---- the log replays ------------------------------------------------------------------------------

  // What an action on a strategy leaves it as.
  function Left(action: MonitorAction, before: Status): Status {
    if action == Quarantine then Strategies.Quarantined
    else if action == Disable || action == Retire then Strategies.Retired
    else if action == Demote then Strategies.Demoted
    else before
  }

  function Replayed(s: Statuses, events: seq<Event>): Statuses {
    if events == [] then s
    else
      var before, e := Replayed(s, events[..|events| - 1]), events[|events| - 1];
      if e.strategy.Some? && e.strategy.value in before then
        before[e.strategy.value := Left(e.action, before[e.strategy.value])]
      else before
  }

  lemma ReplaySnoc(s: Statuses, events: seq<Event>, e: Event)
    ensures Replayed(s, events + [e]) == Replayed(Replayed(s, events), [e])
  {
    assert (events + [e])[..|events|] == events;
    assert [e][..0] == [];
  }

  lemma {:induction false} ReplayConcat(s: Statuses, first: seq<Event>, more: seq<Event>)
    ensures Replayed(s, first + more) == Replayed(Replayed(s, first), more)
  {
    if more == [] {
      assert first + more == first;
    } else {
      var n := |more| - 1;
      ReplayConcat(s, first, more[..n]);
      ReplaySnoc(s, first + more[..n], more[n]);
      ReplaySnoc(Replayed(s, first), more[..n], more[n]);
      assert first + more == first + more[..n] + [more[n]] && more == more[..n] + [more[n]];
    }
  }

  // An event of one decision replays as the decision was applied.
  lemma DecisionReplays(s: Statuses, id: Id, detector: string, d: Option<Decision>)
    ensures Replayed(s, EventOf(id, detector, d)) == Applied(s, id, d)
  {
    if d.Some? {
      assert EventOf(id, detector, d)[..0] == [];
    }
  }

  // Events that change nothing: alerts, and those about no strategy.
  ghost predicate Harmless(events: seq<Event>) {
    forall i :: 0 <= i < |events| ==> events[i].strategy.None? || events[i].action == Alert
  }

  lemma {:induction false} HarmlessReplays(s: Statuses, events: seq<Event>)
    requires Harmless(events)
    ensures Replayed(s, events) == s
  {
    if events != [] {
      HarmlessReplays(s, events[..|events| - 1]);
    }
  }

  lemma StrategyReplays(w: World, t: Thresholds, s: Statuses, id: Id)
    ensures Replayed(s, StrategyEvents(w, t, id)) == StrategyStatuses(w, t, s, id)
  {
    hide Divergence, Drawdown, Calibration, Decay, Replayed, EventOf, Applied;
    var e1 := EventOf(id, "backtest_vs_live_divergence", Divergence(w, t, id));
    var e2, alert := EventOf(id, "drawdown_breach", Drawdown(w, t, id)), PairedAlert(id, Drawdown(w, t, id));
    var e3, e4 := EventOf(id, "calibration_break", Calibration(w, t, id)), EventOf(id, "decay", Decay(w, t, id));
    ReplayConcat(s, e1 + e2 + alert + e3, e4);
    ReplayConcat(s, e1 + e2 + alert, e3);
    ReplayConcat(s, e1 + e2, alert);
    ReplayConcat(s, e1, e2);
    var s1 := Applied(s, id, Divergence(w, t, id));
    DecisionReplays(s, id, "backtest_vs_live_divergence", Divergence(w, t, id));
    DecisionReplays(s1, id, "drawdown_breach", Drawdown(w, t, id));
    var s2 := Applied(s1, id, Drawdown(w, t, id));
    HarmlessReplays(s2, alert);
    DecisionReplays(s2, id, "calibration_break", Calibration(w, t, id));
    DecisionReplays(Applied(s2, id, Calibration(w, t, id)), id, "decay", Decay(w, t, id));
  }

  lemma {:induction false} StrategiesReplay(w: World, t: Thresholds, s: Statuses, d: Day, ids: seq<Id>)
    requires Replayed(s, d.events) == d.statuses
    ensures var after := AfterStrategies(w, t, d, ids);
            Replayed(s, after.events) == after.statuses
  {
    hide StrategyStatuses, StrategyEvents, StrategyReport, Replayed;
    if ids != [] {
      var n := |ids| - 1;
      var before := AfterStrategies(w, t, d, ids[..n]);
      StrategiesReplay(w, t, s, d, ids[..n]);
      ReplayConcat(s, before.events, StrategyEvents(w, t, ids[n]));
      StrategyReplays(w, t, before.statuses, ids[n]);
    }
  }

  lemma OneReplays(s: Statuses, e: Event)
    requires e.strategy.Some? && e.action == Demote
    ensures Replayed(s, [e]) == Restatus(s, e.strategy.value, Some(Strategies.Demoted))
  {
    assert [e][..0] == [];
  }

  lemma {:induction false} RegateReplays(w: World, s: Statuses, d: Day, ids: seq<Id>)
    requires Replayed(s, d.events) == d.statuses
    ensures var after := AfterRegate(w, d, ids);
            Replayed(s, after.events) == after.statuses
  {
    hide Replayed;
    if ids != [] {
      var n := |ids| - 1;
      var before := AfterRegate(w, d, ids[..n]);
      RegateReplays(w, s, d, ids[..n]);
      if ids[n] in w.latest && !w.latest[ids[n]].Passes() {
        ReplayConcat(s, before.events, [RegateEvent(w, ids[n])]);
        OneReplays(before.statuses, RegateEvent(w, ids[n]));
      }
    }
  }

  lemma {:induction false} SourcesReplay(t: Thresholds, s: Statuses, d: Day, sources: seq<Source>)
    requires Replayed(s, d.events) == d.statuses
    ensures var after := AfterSources(t, d, sources);
            Replayed(s, after.events) == after.statuses
  {
    hide Replayed;
    if sources != [] {
      var n := |sources| - 1;
      SourcesReplay(t, s, d, sources[..n]);
      ReplayConcat(s, AfterSources(t, d, sources[..n]).events, SourceEvents(t, sources[n]));
      HarmlessReplays(AfterSources(t, d, sources[..n]).statuses, SourceEvents(t, sources[n]));
    }
  }

  lemma OodReplays(w: World, t: Thresholds, s: Statuses, d: Day)
    requires Replayed(s, d.events) == d.statuses
    ensures var after := AfterOod(w, t, d);
            Replayed(s, after.events) == after.statuses
  {
    hide Replayed;
    match DetectRegimeOod(w.oodCount, t)
    case None =>
    case Some(v) =>
      var e := Event(None, "regime_ood", Some(v.metricValue), v.threshold, v.action);
      ReplayConcat(s, d.events, [e]);
      HarmlessReplays(d.statuses, [e]);
  }

  // The log explains the day: replaying its events in order on the statuses before it gives
  // exactly the statuses after it.
  lemma LogReplays(w: World, t: Thresholds, s: Statuses)
    ensures Replayed(s, Daily(w, t, s).events) == Daily(w, t, s).statuses
  {
    var d0 := Day(s, [], NOTHING_FIRED);
    assert Replayed(s, d0.events) == s;
    hide AfterStrategies, AfterRegate, AfterSources, AfterOod, Filter, Replayed;
    var d1 := AfterStrategies(w, t, d0, Filter(w.order, Live(s)));
    var d2 := AfterRegate(w, d1, Filter(w.order, Gated(w, d1.statuses)));
    StrategiesReplay(w, t, s, d0, Filter(w.order, Live(s)));
    RegateReplays(w, s, d1, Filter(w.order, Gated(w, d1.statuses)));
    SourcesReplay(t, s, d2, w.sources);
    OodReplays(w, t, s, AfterSources(t, d2, w.sources));
  }

  // ---- the log adds up to the report -------------------------------------------------------------------

  function About(name: string): Event -> bool {
    (e: Event) => e.detector == name && e.action != Alert
  }

  // The events of one detector, alerts aside.
  function Tally(events: seq<Event>, name: string): nat {
    |Filter(events, About(name))|
  }

  function Counts(events: seq<Event>): Report {
    Report(Tally(events, "backtest_vs_live_divergence"), Tally(events, "drawdown_breach"),
           Tally(events, "calibration_break"), Tally(events, "data_staleness"), Tally(events, "regime_ood"),
           Tally(events, "decay"), Tally(events, "regate_failed"))
  }

  lemma TallyConcat(xs: seq<Event>, ys: seq<Event>, name: string)
    ensures Tally(xs + ys, name) == Tally(xs, name) + Tally(ys, name)
  {
    FilterConcat(xs, ys, About(name));
  }

  lemma TallyOne(e: Event, name: string)
    ensures Tally([e], name) == if e.detector == name && e.action != Alert then 1 else 0
  {
    FilterSnoc([], e, About(name));
    assert [] + [e] == [e];
  }

  lemma TallyEvent(id: Id, detector: string, d: Option<Decision>, name: string)
    requires d.Some? ==> d.value.action != Alert
    ensures Tally(EventOf(id, detector, d), name) == if detector == name then One(d.Some?) else 0
  {
    if d.Some? {
      TallyOne(EventOf(id, detector, d)[0], name);
    }
  }

  lemma TallyAlert(id: Id, d: Option<Decision>, name: string)
    ensures Tally(PairedAlert(id, d), name) == 0
  {
    if d.Some? {
      TallyOne(PairedAlert(id, d)[0], name);
    }
  }

  function IfNamed(detector: string, name: string, fired: bool): nat {
    if detector == name then One(fired) else 0
  }

  lemma StrategyTally(w: World, t: Thresholds, id: Id, name: string)
    ensures Tally(StrategyEvents(w, t, id), name)
         == IfNamed("backtest_vs_live_divergence", name, Divergence(w, t, id).Some?)
            + IfNamed("drawdown_breach", name, Drawdown(w, t, id).Some?)
            + IfNamed("calibration_break", name, Calibration(w, t, id).Some?)
            + IfNamed("decay", name, Decay(w, t, id).Some?)
  {
    DetectorActions(w, t, id);
    hide Divergence, Drawdown, Calibration, Decay, Tally, EventOf, PairedAlert;
    var e1 := EventOf(id, "backtest_vs_live_divergence", Divergence(w, t, id));
    var e2, alert := EventOf(id, "drawdown_breach", Drawdown(w, t, id)), PairedAlert(id, Drawdown(w, t, id));
    var e3, e4 := EventOf(id, "calibration_break", Calibration(w, t, id)), EventOf(id, "decay", Decay(w, t, id));
    TallyConcat(e1 + e2 + alert + e3, e4, name);
    TallyConcat(e1 + e2 + alert, e3, name);
    TallyConcat(e1 + e2, alert, name);
    TallyConcat(e1, e2, name);
    TallyEvent(id, "backtest_vs_live_divergence", Divergence(w, t, id), name);
    TallyEvent(id, "drawdown_breach", Drawdown(w, t, id), name);
    TallyAlert(id, Drawdown(w, t, id), name);
    TallyEvent(id, "calibration_break", Calibration(w, t, id), name);
    TallyEvent(id, "decay", Decay(w, t, id), name);
  }

  function Added(a: Report, b: Report): Report {
    Report(a.divergence + b.divergence, a.drawdown + b.drawdown, a.calibration + b.calibration,
           a.staleness + b.staleness, a.regimeOod + b.regimeOod, a.decay + b.decay, a.regate + b.regate)
  }

  lemma CountsConcat(xs: seq<Event>, ys: seq<Event>)
    ensures Counts(xs + ys) == Added(Counts(xs), Counts(ys))
  {
    hide Tally;
    TallyConcat(xs, ys, "backtest_vs_live_divergence");
    TallyConcat(xs, ys, "drawdown_breach");
    TallyConcat(xs, ys, "calibration_break");
    TallyConcat(xs, ys, "data_staleness");
    TallyConcat(xs, ys, "regime_ood");
    TallyConcat(xs, ys, "decay");
    TallyConcat(xs, ys, "regate_failed");
  }

  lemma StrategyCounts(w: World, t: Thresholds, id: Id)
    ensures Counts(StrategyEvents(w, t, id))
         == Report(One(Divergence(w, t, id).Some?), One(Drawdown(w, t, id).Some?), One(Calibration(w, t, id).Some?),
                   0, 0, One(Decay(w, t, id).Some?), 0)
  {
    hide Tally, StrategyEvents, Divergence, Drawdown, Calibration, Decay;
    StrategyTally(w, t, id, "backtest_vs_live_divergence");
    StrategyTally(w, t, id, "drawdown_breach");
    StrategyTally(w, t, id, "calibration_break");
    StrategyTally(w, t, id, "data_staleness");
    StrategyTally(w, t, id, "regime_ood");
    StrategyTally(w, t, id, "decay");
    StrategyTally(w, t, id, "regate_failed");
  }

  lemma {:induction false} StrategiesCount(w: World, t: Thresholds, d: Day, ids: seq<Id>)
    requires Counts(d.events) == d.report
    ensures var after := AfterStrategies(w, t, d, ids);
            Counts(after.events) == after.report
  {
    hide Counts, StrategyEvents, StrategyStatuses, Divergence, Drawdown, Calibration, Decay;
    if ids != [] {
      var n := |ids| - 1;
      StrategiesCount(w, t, d, ids[..n]);
      CountsConcat(AfterStrategies(w, t, d, ids[..n]).events, StrategyEvents(w, t, ids[n]));
      StrategyCounts(w, t, ids[n]);
    }
  }

  lemma RegateCounts(w: World, id: Id)
    requires id in w.latest
    ensures Counts([RegateEvent(w, id)]) == Report(0, 0, 0, 0, 0, 0, 1)
  {
    hide Tally;
    var e := RegateEvent(w, id);
    TallyOne(e, "backtest_vs_live_divergence");
    TallyOne(e, "drawdown_breach");
    TallyOne(e, "calibration_break");
    TallyOne(e, "data_staleness");
    TallyOne(e, "regime_ood");
    TallyOne(e, "decay");
    TallyOne(e, "regate_failed");
  }

  lemma {:induction false} RegatesCount(w: World, d: Day, ids: seq<Id>)
    requires Counts(d.events) == d.report
    ensures var after := AfterRegate(w, d, ids);
            Counts(after.events) == after.report
  {
    hide Counts, RegateEvent;
    if ids != [] {
      var n := |ids| - 1;
      RegatesCount(w, d, ids[..n]);
      if ids[n] in w.latest && !w.latest[ids[n]].Passes() {
        CountsConcat(AfterRegate(w, d, ids[..n]).events, [RegateEvent(w, ids[n])]);
        RegateCounts(w, ids[n]);
      }
    }
  }

  lemma SourceTally(t: Thresholds, source: Source, name: string)
    ensures Tally(SourceEvents(t, source), name)
         == IfNamed("data_staleness", name, SourceEvents(t, source) != [])
  {
    var events := SourceEvents(t, source);
    if events != [] {
      assert events == [events[0]] + [events[1]];
      TallyOne(events[0], name);
      TallyOne(events[1], name);
      TallyConcat([events[0]], [events[1]], name);
    }
  }

  lemma SourceCounts(t: Thresholds, source: Source)
    ensures Counts(SourceEvents(t, source)) == Report(0, 0, 0, One(SourceEvents(t, source) != []), 0, 0, 0)
  {
    hide Tally, SourceEvents;
    SourceTally(t, source, "backtest_vs_live_divergence");
    SourceTally(t, source, "drawdown_breach");
    SourceTally(t, source, "calibration_break");
    SourceTally(t, source, "data_staleness");
    SourceTally(t, source, "regime_ood");
    SourceTally(t, source, "decay");
    SourceTally(t, source, "regate_failed");
  }

  lemma {:induction false} SourcesCount(t: Thresholds, d: Day, sources: seq<Source>)
    requires Counts(d.events) == d.report
    ensures var after := AfterSources(t, d, sources);
            Counts(after.events) == after.report
  {
    hide Counts, SourceEvents;
    if sources != [] {
      var n := |sources| - 1;
      SourcesCount(t, d, sources[..n]);
      CountsConcat(AfterSources(t, d, sources[..n]).events, SourceEvents(t, sources[n]));
      SourceCounts(t, sources[n]);
    }
  }

  lemma OodTally(e: Event)
    requires e.detector == "regime_ood" && e.action != Alert
    ensures Counts([e]) == Report(0, 0, 0, 0, 1, 0, 0)
  {
    hide Tally;
    TallyOne(e, "backtest_vs_live_divergence");
    TallyOne(e, "drawdown_breach");
    TallyOne(e, "calibration_break");
    TallyOne(e, "data_staleness");
    TallyOne(e, "regime_ood");
    TallyOne(e, "decay");
    TallyOne(e, "regate_failed");
  }

  lemma OodCounts(w: World, t: Thresholds, d: Day)
    requires Counts(d.events) == d.report
    ensures var after := AfterOod(w, t, d);
            Counts(after.events) == after.report
  {
    hide Counts;
    match DetectRegimeOod(w.oodCount, t)
    case None =>
    case Some(v) =>
      var e := Event(None, "regime_ood", Some(v.metricValue), v.threshold, v.action);
      CountsConcat(d.events, [e]);
      OodTally(e);
  }

  // The report is the log counted by detector, alerts aside.
  lemma LogAddsUp(w: World, t: Thresholds, s: Statuses)
    ensures Counts(Daily(w, t, s).events) == Daily(w, t, s).report
  {
    var d0 := Day(s, [], NOTHING_FIRED);
    assert Counts(d0.events) == d0.report;
    hide AfterStrategies, AfterRegate, AfterSources, AfterOod, Filter, Counts;
    var d1 := AfterStrategies(w, t, d0, Filter(w.order, Live(s)));
    var d2 := AfterRegate(w, d1, Filter(w.order, Gated(w, d1.statuses)));
    StrategiesCount(w, t, d0, Filter(w.order, Live(s)));
    RegatesCount(w, d1, Filter(w.order, Gated(w, d1.statuses)));
    SourcesCount(t, d2, w.sources);
    OodCounts(w, t, AfterSources(t, d2, w.sources));
  }

  // ---- what is logged -----------------------------------------------------------------------------------

  // The event a fired detector writes about a strategy, with the action given.
  ghost predicate Tells(e: Event, id: Id, name: string, d: Option<Decision>, action: MonitorAction) {
    d.Some? && e == Event(Some(id), name, Some(d.value.metricValue), d.value.threshold, action)
  }

  // An event about one strategy: what its closed outcomes say against its backtest, their drawdown
  // with its alert, its convictions against its wins, and its decay.
  ghost predicate AboutStrategy(w: World, t: Thresholds, id: Id, e: Event) {
    var outcomes := Realized(w.trades(id));
    || (id in w.latest && w.latest[id].expectancy.Some?
        && var d := DetectDivergence(outcomes, w.latest[id].expectancy.value, t);
           d.Some? && Tells(e, id, "backtest_vs_live_divergence", d, d.value.action))
    || Tells(e, id, "drawdown_breach", DetectDrawdown(outcomes, t), Disable)
    || Tells(e, id, "drawdown_breach", DetectDrawdown(outcomes, t), Alert)
    || Tells(e, id, "calibration_break",
             DetectCalibration(Convictions(w.trades(id)), Wins(w.trades(id)), t), Recalibrate)
    || Tells(e, id, "decay", DetectDecay(outcomes, t), Demote)
  }

  lemma StrategyLogs(w: World, t: Thresholds, id: Id, e: Event)
    ensures e in StrategyEvents(w, t, id) <==> AboutStrategy(w, t, id, e)
  {
    DetectorActions(w, t, id);
    hide DetectDivergence, DetectDrawdown, DetectCalibration, DetectDecay, Realized, Convictions, Wins;
  }

  lemma {:induction false} StrategiesLog(w: World, t: Thresholds, d: Day, ids: seq<Id>, e: Event)
    ensures e in AfterStrategies(w, t, d, ids).events
       <==> e in d.events || exists i :: 0 <= i < |ids| && AboutStrategy(w, t, ids[i], e)
  {
    hide StrategyEvents, StrategyStatuses, StrategyReport, AboutStrategy;
    if ids != [] {
      var n := |ids| - 1;
      StrategiesLog(w, t, d, ids[..n], e);
      StrategyLogs(w, t, ids[n], e);
      assert forall i :: 0 <= i < n ==> ids[..n][i] == ids[i];
    }
  }

  // A failed gate: the demotion carries the expectancy, or none, against zero.
  ghost predicate AboutGate(w: World, id: Id, e: Event) {
    && id in w.latest && !w.latest[id].Passes()
    && e == Event(Some(id), "regate_failed", w.latest[id].expectancy, 0.0, Demote)
  }

  lemma {:induction false} RegatesLog(w: World, d: Day, ids: seq<Id>, e: Event)
    ensures e in AfterRegate(w, d, ids).events
       <==> e in d.events || exists i :: 0 <= i < |ids| && AboutGate(w, ids[i], e)
  {
    if ids != [] {
      var n := |ids| - 1;
      RegatesLog(w, d, ids[..n], e);
      assert forall i :: 0 <= i < n ==> ids[..n][i] == ids[i];
    }
  }

  // A source older than allowed is skipped, with an alert; its age is told in hours.
  ghost predicate AboutSource(t: Thresholds, source: Source, e: Event) {
    && source.ageMinutes as real > 60.0 * t.stalenessMaxAgeHours
    && e.strategy == None && e.detector == "data_staleness" && e.metricValue.Some?
    && 60.0 * e.metricValue.value == source.ageMinutes as real && e.threshold == t.stalenessMaxAgeHours
    && (e.action == SkipDegraded || e.action == Alert)
  }

  lemma SourceLogs(t: Thresholds, source: Source, e: Event)
    ensures e in SourceEvents(t, source) <==> AboutSource(t, source, e)
  {
  }

  lemma {:induction false} SourcesLog(t: Thresholds, d: Day, sources: seq<Source>, e: Event)
    ensures e in AfterSources(t, d, sources).events
       <==> e in d.events || exists i :: 0 <= i < |sources| && AboutSource(t, sources[i], e)
  {
    hide SourceEvents, AboutSource;
    if sources != [] {
      var n := |sources| - 1;
      SourcesLog(t, d, sources[..n], e);
      SourceLogs(t, sources[n], e);
      assert forall i :: 0 <= i < n ==> sources[..n][i] == sources[i];
    }
  }

  // Too many observations out of distribution suppress signals.
  ghost predicate AboutRegime(w: World, t: Thresholds, e: Event) {
    w.oodCount >= t.oodCount && e == Event(None, "regime_ood", Some(w.oodCount as real), t.oodCount as real, Suppress)
  }

  lemma OodLogs(w: World, t: Thresholds, d: Day, e: Event)
    ensures e in AfterOod(w, t, d).events <==> e in d.events || AboutRegime(w, t, e)
  {
  }

  // Everything a day logs and nothing else: an event for each detector that fires on a strategy not
  // retired, a demotion for each strategy the detectors leave promoted whose score fails the gate,
  // two events for each stale source, and one for the regime.
  lemma DayLogs(w: World, t: Thresholds, s: Statuses, e: Event)
    requires Lists(w.order, s.Keys)
    ensures e in Daily(w, t, s).events
       <==> || (exists id :: id in s && s[id] != Strategies.Retired && AboutStrategy(w, t, id, e))
            || (exists id :: id in s && AfterDetectors(w, t, id, s[id]) == Strategies.Promoted && AboutGate(w, id, e))
            || (exists i :: 0 <= i < |w.sources| && AboutSource(t, w.sources[i], e))
            || AboutRegime(w, t, e)
  {
    hide AfterStrategies, AfterRegate, AfterSources, AfterOod, AboutStrategy, AboutGate, AboutSource, AboutRegime;
    hide AfterDetectors, Filter;
    var d0, ids := Day(s, [], NOTHING_FIRED), Filter(w.order, Live(s));
    var d1 := AfterStrategies(w, t, d0, ids);
    var gated := Filter(w.order, Gated(w, d1.statuses));
    var d2 := AfterRegate(w, d1, gated);
    StrategiesLog(w, t, d0, ids, e);
    RegatesLog(w, d1, gated, e);
    SourcesLog(t, d2, w.sources, e);
    OodLogs(w, t, AfterSources(t, d2, w.sources), e);
    ListedOnce(w.order, Live(s));
    LiveLogs(w, t, s, ids, e);
    GatedLogs(w, t, s, d1, ids, gated, e);
  }

  lemma LiveLogs(w: World, t: Thresholds, s: Statuses, ids: seq<Id>, e: Event)
    requires Lists(w.order, s.Keys) && ids == Filter(w.order, Live(s))
    ensures (exists i :: 0 <= i < |ids| && AboutStrategy(w, t, ids[i], e))
       <==> exists id :: id in s && s[id] != Strategies.Retired && AboutStrategy(w, t, id, e)
  {
    hide AboutStrategy, Filter;
    ListedOnce(w.order, Live(s));
    if i :| 0 <= i < |ids| && AboutStrategy(w, t, ids[i], e) {
      assert Live(s)(ids[i]);
    }
    if id :| id in s && s[id] != Strategies.Retired && AboutStrategy(w, t, id, e) {
      assert id in ids;
      var i :| 0 <= i < |ids| && ids[i] == id;
    }
  }

  lemma GatedLogs(w: World, t: Thresholds, s: Statuses, d1: Day, ids: seq<Id>, gated: seq<Id>, e: Event)
    requires Lists(w.order, s.Keys) && ids == Filter(w.order, Live(s))
    requires d1 == AfterStrategies(w, t, Day(s, [], NOTHING_FIRED), ids)
    requires gated == Filter(w.order, Gated(w, d1.statuses))
    ensures (exists i :: 0 <= i < |gated| && AboutGate(w, gated[i], e))
       <==> exists id :: id in s && AfterDetectors(w, t, id, s[id]) == Strategies.Promoted && AboutGate(w, id, e)
  {
    hide Filter, AfterStrategies, AfterDetectors;
    ListedOnce(w.order, Gated(w, d1.statuses));
    forall id | id in s
      ensures id in d1.statuses && d1.statuses[id] == AfterDetectors(w, t, id, s[id])
    {
      DetectedStatus(w, t, s, ids, id);
    }
    if i :| 0 <= i < |gated| && AboutGate(w, gated[i], e) {
      assert Gated(w, d1.statuses)(gated[i]);
      assert gated[i] in w.order;
    }
    if id :| id in s && AfterDetectors(w, t, id, s[id]) == Strategies.Promoted && AboutGate(w, id, e) {
      assert id in gated;
      var i :| 0 <= i < |gated| && gated[i] == id;
    }
  }

  lemma DetectedStatus(w: World, t: Thresholds, s: Statuses, ids: seq<Id>, id: Id)
    requires Lists(w.order, s.Keys) && ids == Filter(w.order, Live(s)) && id in s
    ensures var after := AfterStrategies(w, t, Day(s, [], NOTHING_FIRED), ids).statuses;
            id in after && after[id] == AfterDetectors(w, t, id, s[id])
  {
    hide AfterStrategies, Filter, Divergence, Drawdown, Decay;
    ListedOnce(w.order, Live(s));
    forall i | 0 <= i < |ids| ensures ids[i] in s && s[ids[i]] != Strategies.Retired {
      assert Live(s)(ids[i]);
    }
    AfterStrategiesAt(w, t, Day(s, [], NOTHING_FIRED), ids, id);
  }

  // ---- the gate ------------------------------------------------------------------------------------------

  // The nightly gate is the promotion gate on a full score row, and a row with a missing number
  // never passes it.
  lemma RegateIsPromotionGate(g: GateInputs)
    ensures g.Passes()
       <==> && g.dsr.Some? && g.pbo.Some? && g.expectancy.Some?
            && Score.PromotionGate(g.dsr.value, g.pbo.value, g.expectancy.value, g.nRegimesPositive)
  {
  }
}
