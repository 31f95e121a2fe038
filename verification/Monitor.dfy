// The daily monitor: per-strategy detectors, the re-gate of promoted strategies, data alarms.
module Monitor {
  import opened Prelude
  import opened Sorting
  import opened Detectors
  import Strategies

  type Id = Strategies.Id
  type Status = Strategies.Status

  datatype Trade = Trade(pnlR: Option<real>, conviction: Option<real>)

  // A strategy's latest score row, its columns nullable.
  datatype GateInputs = GateInputs(dsr: Option<real>, pbo: Option<real>, expectancy: Option<real>,
                                   nRegimesPositive: int)
  {
    predicate Passes() {
      && dsr.Some? && pbo.Some? && expectancy.Some?
      && dsr.value > 0.0 && pbo.value < 0.5 && expectancy.value > 0.0
      && nRegimesPositive >= 2
    }
  }

  datatype Source = Source(name: string, ageMinutes: int)

  // What the database says today: strategies in the order queries list them, recent trades,
  // latest scores, source freshness and the recent out-of-distribution count.
  datatype World = World(
    order: seq<Id>, trades: Id -> seq<Trade>, latest: map<Id, GateInputs>, sources: seq<Source>, oodCount: int)

  // Every strategy once.
  ghost predicate Lists(order: seq<Id>, ids: set<Id>) {
    && (forall i, j :: 0 <= i < j < |order| ==> order[i] != order[j])
    && (forall i :: 0 <= i < |order| ==> order[i] in ids)
    && forall id :: id in ids ==> id in order
  }

  datatype Event = Event(
    strategy: Option<Id>, detector: string, metricValue: Option<real>, threshold: real, action: MonitorAction)

  datatype Report = Report(
    divergence: nat, drawdown: nat, calibration: nat, staleness: nat, regimeOod: nat, decay: nat, regate: nat)
  {
    function Total(): nat {
      divergence + drawdown + calibration + staleness + regimeOod + decay + regate
    }
  }

  // ---- what fires -----------------------------------------------------------------------

  function Realized(trades: seq<Trade>): seq<real> {
    if trades == [] then []
    else Realized(trades[..|trades| - 1])
         + if trades[|trades| - 1].pnlR.Some? then [trades[|trades| - 1].pnlR.value] else []
  }

  function Convictions(trades: seq<Trade>): seq<real> {
    if trades == [] then []
    else Convictions(trades[..|trades| - 1])
         + if trades[|trades| - 1].conviction.Some? then [trades[|trades| - 1].conviction.value] else []
  }

  function Wins(trades: seq<Trade>): seq<bool> {
    if trades == [] then []
    else
      var last := trades[|trades| - 1];
      Wins(trades[..|trades| - 1])
        + if last.conviction.Some? && last.pnlR.Some? then [last.pnlR.value > 0.0] else []
  }

  function OosExpectancy(w: World, id: Id): Option<real> {
    if id in w.latest then w.latest[id].expectancy else None
  }

  function Divergence(w: World, t: Thresholds, id: Id): Option<Decision> {
    match OosExpectancy(w, id)
    case None => None
    case Some(oos) => DetectDivergence(Realized(w.trades(id)), oos, t)
  }

  function Drawdown(w: World, t: Thresholds, id: Id): Option<Decision> {
    DetectDrawdown(Realized(w.trades(id)), t)
  }

  function Calibration(w: World, t: Thresholds, id: Id): Option<Decision> {
    DetectCalibration(Convictions(w.trades(id)), Wins(w.trades(id)), t)
  }

  function Decay(w: World, t: Thresholds, id: Id): Option<Decision> {
    DetectDecay(Realized(w.trades(id)), t)
  }

  // The lifecycle status an action calls for, if any.
  function StatusFor(action: MonitorAction): Option<Status> {
    match action
    case Quarantine => Some(Strategies.Quarantined)
    case Disable => Some(Strategies.Retired)
    case Retire => Some(Strategies.Retired)
    case Demote => Some(Strategies.Demoted)
    case _ => None
  }

  // ---- the day, as functions of what the database held ----------------------------------

  type Statuses = map<Id, Status>

  function Restatus(s: Statuses, id: Id, status: Option<Status>): Statuses {
    if status.Some? && id in s then s[id := status.value] else s
  }

  function Applied(s: Statuses, id: Id, d: Option<Decision>): Statuses {
    if d.Some? then Restatus(s, id, StatusFor(d.value.action)) else s
  }

  function EventOf(id: Id, detector: string, d: Option<Decision>): seq<Event> {
    if d.None? then [] else [Event(Some(id), detector, Some(d.value.metricValue), d.value.threshold, d.value.action)]
  }

  function PairedAlert(id: Id, d: Option<Decision>): seq<Event> {
    if d.None? then []
    else [Event(Some(id), "drawdown_breach", Some(d.value.metricValue), d.value.threshold, Alert)]
  }

  function StrategyEvents(w: World, t: Thresholds, id: Id): seq<Event> {
    EventOf(id, "backtest_vs_live_divergence", Divergence(w, t, id))
      + EventOf(id, "drawdown_breach", Drawdown(w, t, id)) + PairedAlert(id, Drawdown(w, t, id))
      + EventOf(id, "calibration_break", Calibration(w, t, id))
      + EventOf(id, "decay", Decay(w, t, id))
  }

  function StrategyStatuses(w: World, t: Thresholds, s: Statuses, id: Id): Statuses {
    Applied(Applied(Applied(Applied(s, id, Divergence(w, t, id)), id, Drawdown(w, t, id)),
                    id, Calibration(w, t, id)), id, Decay(w, t, id))
  }

  function One(fired: bool): nat {
    if fired then 1 else 0
  }

  function StrategyReport(w: World, t: Thresholds, r: Report, id: Id): Report {
    r.(divergence := r.divergence + One(Divergence(w, t, id).Some?),
       drawdown := r.drawdown + One(Drawdown(w, t, id).Some?),
       calibration := r.calibration + One(Calibration(w, t, id).Some?),
       decay := r.decay + One(Decay(w, t, id).Some?))
  }

  // Statuses, events written and counts so far.
  datatype Day = Day(statuses: Statuses, events: seq<Event>, report: Report)

  function AfterStrategies(w: World, t: Thresholds, d: Day, ids: seq<Id>): Day {
    if ids == [] then d
    else
      var n := |ids| - 1;
      var before := AfterStrategies(w, t, d, ids[..n]);
      Day(StrategyStatuses(w, t, before.statuses, ids[n]), before.events + StrategyEvents(w, t, ids[n]),
          StrategyReport(w, t, before.report, ids[n]))
  }

  // A missing expectancy is recorded as no number.
  function RegateEvent(w: World, id: Id): Event
    requires id in w.latest
  {
    Event(Some(id), "regate_failed", w.latest[id].expectancy, 0.0, Demote)
  }

  function AfterRegate(w: World, d: Day, ids: seq<Id>): Day {
    if ids == [] then d
    else
      var n := |ids| - 1;
      var before := AfterRegate(w, d, ids[..n]);
      var id := ids[n];
      if id in w.latest && !w.latest[id].Passes() then
        Day(Restatus(before.statuses, id, Some(Strategies.Demoted)), before.events + [RegateEvent(w, id)],
            before.report.(regate := before.report.regate + 1))
      else before
  }

  function SourceEvents(t: Thresholds, source: Source): seq<Event> {
    match DetectStaleness(source.ageMinutes as real / 60.0, t)
    case None => []
    case Some(d) => [Event(None, "data_staleness", Some(d.metricValue), d.threshold, d.action),
                     Event(None, "data_staleness", Some(d.metricValue), d.threshold, Alert)]
  }

  function AfterSources(t: Thresholds, d: Day, sources: seq<Source>): Day {
    if sources == [] then d
    else
      var n := |sources| - 1;
      var before := AfterSources(t, d, sources[..n]);
      var events := SourceEvents(t, sources[n]);
      before.(events := before.events + events,
              report := before.report.(staleness := before.report.staleness + One(events != [])))
  }

  function AfterOod(w: World, t: Thresholds, d: Day): Day {
    match DetectRegimeOod(w.oodCount, t)
    case None => d
    case Some(v) =>
      d.(events := d.events + [Event(None, "regime_ood", Some(v.metricValue), v.threshold, v.action)],
         report := d.report.(regimeOod := d.report.regimeOod + 1))
  }

  // Every strategy that is not retired.
  function Live(s: Statuses): Id -> bool {
    (id: Id) => id in s && s[id] != Strategies.Retired
  }

  // Promoted strategies that have a score.
  function Gated(w: World, s: Statuses): Id -> bool {
    (id: Id) => id in s && s[id] == Strategies.Promoted && id in w.latest
  }

  const NOTHING_FIRED := Report(0, 0, 0, 0, 0, 0, 0)

  function Daily(w: World, t: Thresholds, s: Statuses): Day {
    var d1 := AfterStrategies(w, t, Day(s, [], NOTHING_FIRED), Filter(w.order, Live(s)));
    var d2 := AfterRegate(w, d1, Filter(w.order, Gated(w, d1.statuses)));
    AfterOod(w, t, AfterSources(t, d2, w.sources))
  }

  // ---- the day, as the source runs it -----------------------------------------------------

  class Desk {
    var statuses: Statuses
    var events: seq<Event>

    constructor (s: Statuses, e: seq<Event>)
      ensures statuses == s && events == e
    {
      statuses, events := s, e;
    }

    method WriteEvent(e: Event)
      modifies this`events
      ensures events == old(events) + [e]
    {
      events := events + [e];
    }

    // The event first, then the lifecycle change its action implies, if any.
    method ApplyDecision(id: Id, detector: string, d: Decision)
      modifies this
      ensures statuses == Applied(old(statuses), id, Some(d))
      ensures events == old(events) + EventOf(id, detector, Some(d))
    {
      WriteEvent(Event(Some(id), detector, Some(d.metricValue), d.threshold, d.action));
      var status := StatusFor(d.action);
      if status.Some? && id in statuses {
        statuses := statuses[id := status.value];
      }
    }

    // Does nothing for a detector that did not fire; counts one that did.
    method ApplyIfFired(id: Id, detector: string, d: Option<Decision>) returns (n: nat)
      modifies this
      ensures statuses == Applied(old(statuses), id, d)
      ensures events == old(events) + EventOf(id, detector, d)
      ensures n == One(d.Some?)
    {
      n := 0;
      if d.Some? {
        ApplyDecision(id, detector, d.value);
        n := 1;
      }
    }

    method CheckStrategy(w: World, t: Thresholds, id: Id, report: Report) returns (r: Report)
      modifies this
      ensures statuses == StrategyStatuses(w, t, old(statuses), id)
      ensures events == old(events) + StrategyEvents(w, t, id)
      ensures r == StrategyReport(w, t, report, id)
    {
      hide DetectDivergence, DetectDrawdown, DetectCalibration, DetectDecay, Realized, Convictions, Wins;
      hide Applied, EventOf;
      var trades := w.trades(id);
      var realized := Realized(trades);
      var oos := OosExpectancy(w, id);
      var divergence := if oos.Some? then DetectDivergence(realized, oos.value, t) else None;
      var n1 := ApplyIfFired(id, "backtest_vs_live_divergence", divergence);
      var drawdown := DetectDrawdown(realized, t);
      var n2 := ApplyIfFired(id, "drawdown_breach", drawdown);
      PairAlert(id, drawdown);
      var n3 := ApplyIfFired(id, "calibration_break", DetectCalibration(Convictions(trades), Wins(trades), t));
      var n4 := ApplyIfFired(id, "decay", DetectDecay(realized, t));
      r := report.(divergence := report.divergence + n1, drawdown := report.drawdown + n2,
                   calibration := report.calibration + n3, decay := report.decay + n4);
    }

    // An operator is alerted alongside the disabling.
    method PairAlert(id: Id, d: Option<Decision>)
      modifies this`events
      ensures events == old(events) + PairedAlert(id, d)
    {
      if d.Some? {
        WriteEvent(Event(Some(id), "drawdown_breach", Some(d.value.metricValue), d.value.threshold, Alert));
      }
    }

    method Regate(w: World, report: Report) returns (r: Report)
      modifies this
      ensures Day(statuses, events, r)
           == AfterRegate(w, Day(old(statuses), old(events), report), Filter(w.order, Gated(w, old(statuses))))
    {
      r := report;
      var ids := Filter(w.order, Gated(w, statuses));
      ghost var start := Day(statuses, events, report);
      for i := 0 to |ids|
        invariant Day(statuses, events, r) == AfterRegate(w, start, ids[..i])
      {
        assert ids[..i + 1][..i] == ids[..i];
        var id := ids[i];
        if id in w.latest && !w.latest[id].Passes() {
          WriteEvent(RegateEvent(w, id));
          if id in statuses {
            statuses := statuses[id := Strategies.Demoted];
          }
          r := r.(regate := r.regate + 1);
        }
      }
      assert ids[..|ids|] == ids;
    }

    method CheckSources(w: World, t: Thresholds, report: Report) returns (r: Report)
      modifies this`events
      ensures Day(statuses, events, r)
           == AfterOod(w, t, AfterSources(t, Day(statuses, old(events), report), w.sources))
    {
      r := report;
      ghost var start := Day(statuses, events, report);
      for i := 0 to |w.sources|
        invariant Day(statuses, events, r) == AfterSources(t, start, w.sources[..i])
      {
        assert w.sources[..i + 1][..i] == w.sources[..i];
        var ageHours := w.sources[i].ageMinutes as real / 60.0;
        var d := DetectStaleness(ageHours, t);
        if d.Some? {
          WriteEvent(Event(None, "data_staleness", Some(d.value.metricValue), d.value.threshold, d.value.action));
          WriteEvent(Event(None, "data_staleness", Some(d.value.metricValue), d.value.threshold, Alert));
          r := r.(staleness := r.staleness + 1);
        }
      }
      assert w.sources[..|w.sources|] == w.sources;
      var d := DetectRegimeOod(w.oodCount, t);
      if d.Some? {
        WriteEvent(Event(None, "regime_ood", Some(d.value.metricValue), d.value.threshold, d.value.action));
        r := r.(regimeOod := r.regimeOod + 1);
      }
    }

    method CheckStrategies(w: World, t: Thresholds) returns (r: Report)
      modifies this
      ensures Day(statuses, events, r)
           == AfterStrategies(w, t, Day(old(statuses), old(events), NOTHING_FIRED),
                              Filter(w.order, Live(old(statuses))))
    {
      hide StrategyStatuses, StrategyEvents, StrategyReport;
      r := NOTHING_FIRED;
      var ids := Filter(w.order, Live(statuses));
      ghost var start := Day(statuses, events, NOTHING_FIRED);
      for i := 0 to |ids|
        invariant Day(statuses, events, r) == AfterStrategies(w, t, start, ids[..i])
      {
        assert ids[..i + 1][..i] == ids[..i];
        r := CheckStrategy(w, t, ids[i], r);
      }
      assert ids[..|ids|] == ids;
    }

    method RunDaily(w: World, t: Thresholds) returns (report: Report)
      modifies this
      ensures Day(statuses, events, report) == Preceded(Daily(w, t, old(statuses)), old(events))
    {
      hide AfterStrategies, AfterRegate, AfterSources, AfterOod, Filter;
      report := CheckStrategies(w, t);
      report := Regate(w, report);
      report := CheckSources(w, t, report);
      DailyAfterEarlier(w, t, old(statuses), old(events));
    }
  }

  // Events are only ever appended, so earlier ones carry through.
  lemma DailyAfterEarlier(w: World, t: Thresholds, s: Statuses, earlier: seq<Event>)
    ensures var ids := Filter(w.order, Live(s));
            var d1 := AfterStrategies(w, t, Day(s, earlier, NOTHING_FIRED), ids);
            var d2 := AfterRegate(w, d1, Filter(w.order, Gated(w, d1.statuses)));
            AfterOod(w, t, AfterSources(t, d2, w.sources)) == Preceded(Daily(w, t, s), earlier)
  {
    hide AfterStrategies, AfterRegate, AfterSources, AfterOod, Filter;
    var start, ids := Day(s, [], NOTHING_FIRED), Filter(w.order, Live(s));
    assert Preceded(start, earlier) == Day(s, earlier, NOTHING_FIRED);
    StrategiesPrefix(w, t, start, earlier, ids);
    var d1 := AfterStrategies(w, t, start, ids);
    var gated := Filter(w.order, Gated(w, d1.statuses));
    RegatePrefix(w, d1, earlier, gated);
    SourcesPrefix(t, AfterRegate(w, d1, gated), earlier, w.sources);
    OodPrefix(w, t, AfterSources(t, AfterRegate(w, d1, gated), w.sources), earlier);
  }

  lemma OodPrefix(w: World, t: Thresholds, d: Day, events: seq<Event>)
    ensures AfterOod(w, t, Preceded(d, events)) == Preceded(AfterOod(w, t, d), events)
  {
  }

  lemma {:induction false} StrategiesPrefix(w: World, t: Thresholds, d: Day, events: seq<Event>, ids: seq<Id>)
    ensures AfterStrategies(w, t, Preceded(d, events), ids) == Preceded(AfterStrategies(w, t, d, ids), events)
  {
    hide StrategyStatuses, StrategyEvents, StrategyReport;
    if ids != [] {
      StrategiesPrefix(w, t, d, events, ids[..|ids| - 1]);
    }
  }

  function Preceded(d: Day, events: seq<Event>): Day {
    d.(events := events + d.events)
  }

  lemma {:induction false} RegatePrefix(w: World, d: Day, events: seq<Event>, ids: seq<Id>)
    ensures AfterRegate(w, Preceded(d, events), ids) == Preceded(AfterRegate(w, d, ids), events)
  {
    if ids != [] {
      RegatePrefix(w, d, events, ids[..|ids| - 1]);
    }
  }

  lemma {:induction false} SourcesPrefix(t: Thresholds, d: Day, events: seq<Event>, sources: seq<Source>)
    ensures AfterSources(t, Preceded(d, events), sources) == Preceded(AfterSources(t, d, sources), events)
  {
    if sources != [] {
      SourcesPrefix(t, d, events, sources[..|sources| - 1]);
    }
  }

  // ---- what a day does to each strategy ----------------------------------------------------

  // The last status-changing detector to fire decides: decay, else drawdown, else a
  // quarantine-level divergence.
  function AfterDetectors(w: World, t: Thresholds, id: Id, before: Status): Status {
    if before == Strategies.Retired then before
    else if Decay(w, t, id).Some? then Strategies.Demoted
    else if Drawdown(w, t, id).Some? then Strategies.Retired
    else if Divergence(w, t, id).Some? && Divergence(w, t, id).value.action == Quarantine then Strategies.Quarantined
    else before
  }

  // Then a strategy still promoted whose latest score fails the gate is demoted.
  function AfterDay(w: World, t: Thresholds, id: Id, before: Status): Status {
    var mid := AfterDetectors(w, t, id, before);
    if mid == Strategies.Promoted && id in w.latest && !w.latest[id].Passes() then Strategies.Demoted else mid
  }

  lemma DetectorActions(w: World, t: Thresholds, id: Id)
    ensures Divergence(w, t, id).Some? ==> Divergence(w, t, id).value.action in {Quarantine, ShrinkSize}
    ensures Drawdown(w, t, id).Some? ==> Drawdown(w, t, id).value.action == Disable
    ensures Calibration(w, t, id).Some? ==> Calibration(w, t, id).value.action == Recalibrate
    ensures Decay(w, t, id).Some? ==> Decay(w, t, id).value.action == Demote
  {
  }

  lemma StrategyStatusAt(w: World, t: Thresholds, s: Statuses, id: Id, other: Id)
    requires id in s && s[id] != Strategies.Retired && other in s
    ensures var after := StrategyStatuses(w, t, s, id);
            && after.Keys == s.Keys
            && after[id] == AfterDetectors(w, t, id, s[id])
            && (other != id ==> after[other] == s[other])
  {
    DetectorActions(w, t, id);
    hide Divergence, Drawdown, Calibration, Decay;
  }

  ghost predicate NoRepeats(ids: seq<Id>) {
    forall i, j :: 0 <= i < j < |ids| ==> ids[i] != ids[j]
  }

  lemma {:induction false} AfterStrategiesAt(w: World, t: Thresholds, d: Day, ids: seq<Id>, id: Id)
    requires NoRepeats(ids) && id in d.statuses
    requires forall i :: 0 <= i < |ids| ==> ids[i] in d.statuses && d.statuses[ids[i]] != Strategies.Retired
    ensures var after := AfterStrategies(w, t, d, ids).statuses;
            && after.Keys == d.statuses.Keys
            && after[id] == if id in ids then AfterDetectors(w, t, id, d.statuses[id]) else d.statuses[id]
  {
    hide StrategyStatuses, StrategyEvents, StrategyReport, AfterDetectors;
    if ids != [] {
      var n := |ids| - 1;
      var before := AfterStrategies(w, t, d, ids[..n]);
      AfterStrategiesAt(w, t, d, ids[..n], id);
      AfterStrategiesAt(w, t, d, ids[..n], ids[n]);
      assert ids[n] !in ids[..n];
      assert id in ids <==> id in ids[..n] || id == ids[n];
      StrategyStatusAt(w, t, before.statuses, ids[n], id);
    }
  }

  lemma {:induction false} AfterRegateAt(w: World, d: Day, ids: seq<Id>, id: Id)
    requires id in d.statuses && forall i :: 0 <= i < |ids| ==> ids[i] in d.statuses
    ensures var after := AfterRegate(w, d, ids).statuses;
            && after.Keys == d.statuses.Keys
            && after[id] == if id in ids && id in w.latest && !w.latest[id].Passes() then Strategies.Demoted
                            else d.statuses[id]
  {
    if ids != [] {
      var n := |ids| - 1;
      AfterRegateAt(w, d, ids[..n], id);
      assert id in ids <==> id in ids[..n] || id == ids[n];
    }
  }

  lemma {:induction false} AfterSourcesStatuses(t: Thresholds, d: Day, sources: seq<Source>)
    ensures AfterSources(t, d, sources).statuses == d.statuses
  {
    hide SourceEvents;
    if sources != [] {
      AfterSourcesStatuses(t, d, sources[..|sources| - 1]);
    }
  }

  lemma {:induction false} ListedOnce(order: seq<Id>, keep: Id -> bool)
    requires NoRepeats(order)
    ensures NoRepeats(Filter(order, keep))
    ensures forall id :: id in Filter(order, keep) <==> id in order && keep(id)
    ensures forall i :: 0 <= i < |Filter(order, keep)| ==> keep(Filter(order, keep)[i])
  {
    if order != [] {
      var n := |order| - 1;
      ListedOnce(order[..n], keep);
      assert order[n] !in order[..n];
      assert order == order[..n] + [order[n]];
    }
  }

  // A day leaves each strategy with exactly the status the detectors and the gate call for.
  lemma DailyStatus(w: World, t: Thresholds, s: Statuses, id: Id)
    requires Lists(w.order, s.Keys) && id in s
    ensures Daily(w, t, s).statuses.Keys == s.Keys
    ensures Daily(w, t, s).statuses[id] == AfterDay(w, t, id, s[id])
  {
    hide Divergence, Drawdown, Decay, AfterStrategies, AfterRegate, AfterSources, Filter, DetectRegimeOod;
    var start := Day(s, [], NOTHING_FIRED);
    var ids := Filter(w.order, Live(s));
    ListedOnce(w.order, Live(s));
    forall i | 0 <= i < |ids| ensures ids[i] in s && s[ids[i]] != Strategies.Retired {
      assert Live(s)(ids[i]);
    }
    AfterStrategiesAt(w, t, start, ids, id);
    var d1 := AfterStrategies(w, t, start, ids);
    var gated := Filter(w.order, Gated(w, d1.statuses));
    ListedOnce(w.order, Gated(w, d1.statuses));
    forall i | 0 <= i < |gated| ensures gated[i] in d1.statuses {
      assert Gated(w, d1.statuses)(gated[i]);
    }
    AfterRegateAt(w, d1, gated, id);
    AfterSourcesStatuses(t, AfterRegate(w, d1, gated), w.sources);
  }

  // The monitor only takes strategies down: it never promotes or reinstates one, never touches
  // one already retired, and leaves promoted only strategies that pass the gate or have no score.
  lemma DayOnlyTakesDown(w: World, t: Thresholds, s: Statuses, id: Id)
    requires Lists(w.order, s.Keys) && id in s
    ensures var after := Daily(w, t, s).statuses;
            && id in after
            && (after[id] == Strategies.Promoted || after[id] == Strategies.Candidate ==> after[id] == s[id])
            && (s[id] == Strategies.Retired ==> after[id] == Strategies.Retired)
            && (after[id] == Strategies.Promoted && id in w.latest ==> w.latest[id].Passes())
  {
    hide Divergence, Drawdown, Decay, Daily;
    DailyStatus(w, t, s, id);
  }

  // Running the day again on the same trades and scores changes no status.
  lemma DayIsIdempotent(w: World, t: Thresholds, s: Statuses)
    requires Lists(w.order, s.Keys)
    ensures Daily(w, t, Daily(w, t, s).statuses).statuses == Daily(w, t, s).statuses
  {
    hide Divergence, Drawdown, Decay, Daily;
    var once := Daily(w, t, s).statuses;
    if s.Keys == {} {
      EmptyDay(w, t, s);
    } else {
      var any :| any in s.Keys;
      DailyStatus(w, t, s, any);
      assert once.Keys == s.Keys;
      DailyStatus(w, t, once, any);
      forall id | id in s ensures Daily(w, t, once).statuses[id] == once[id] {
        DailyStatus(w, t, s, id);
        DailyStatus(w, t, once, id);
      }
    }
  }

  lemma FirstListed(order: seq<Id>, ids: set<Id>)
    requires Lists(order, ids) && order != []
    ensures order[0] in ids
  {
  }

  lemma EmptyDay(w: World, t: Thresholds, s: Statuses)
    requires Lists(w.order, s.Keys) && s.Keys == {}
    ensures Daily(w, t, s).statuses == s
  {
    if w.order != [] {
      FirstListed(w.order, s.Keys);
    }
    AfterSourcesStatuses(t, Day(s, [], NOTHING_FIRED), w.sources);
  }

  // A strategy whose drawdown disables it is nevertheless left demoted, not retired, when decay
  // fires on the same day.
  lemma DecayOverridesDisable(w: World, t: Thresholds, s: Statuses, id: Id)
    requires Lists(w.order, s.Keys) && id in s && s[id] != Strategies.Retired && Drawdown(w, t, id).Some?
    ensures var after := Daily(w, t, s).statuses;
            id in after && (after[id] == Strategies.Retired <==> Decay(w, t, id).None?)
  {
    hide Divergence, Drawdown, Decay, Daily;
    DailyStatus(w, t, s, id);
  }

  // ---- a day on which both fire ----------------------------------------------------------

  function LosingTrades(n: nat): (r: seq<Trade>)
    ensures |r| == n
  {
    if n == 0 then [] else LosingTrades(n - 1) + [Trade(Some(-1.0), None)]
  }

  function UnitLosses(n: nat): (r: seq<real>)
    ensures |r| == n
  {
    if n == 0 then [] else UnitLosses(n - 1) + [-1.0]
  }

  lemma {:induction false} LosingRecord(n: nat)
    ensures Realized(LosingTrades(n)) == UnitLosses(n)
    ensures Sum(UnitLosses(n)) == -(n as real)
    ensures SumBy(UnitLosses(n), SquaredDeviation(-1.0)) == 0.0
  {
    if n > 0 {
      LosingRecord(n - 1);
      assert LosingTrades(n)[..n - 1] == LosingTrades(n - 1);
      assert UnitLosses(n)[..n - 1] == UnitLosses(n - 1);
    }
  }

  // Fifteen full losses are a drawdown to disable for and a decay to demote for.
  lemma FifteenLosses()
    ensures DetectDrawdown(UnitLosses(15), DEFAULT_THRESHOLDS).Some?
    ensures DetectDecay(UnitLosses(15), DEFAULT_THRESHOLDS).Some?
  {
    hide UnitLosses, Cvar, MaxDrawdown, Realized, SumBy;
    var losses := UnitLosses(15);
    LosingRecord(15);
    assert Mean(losses) == -1.0;
    assert SampleVariance(losses) == 0.0;
    DrawdownAtMostTotal(losses);
  }

  lemma DrawdownAtMostTotal(xs: seq<real>)
    requires xs != []
    ensures MaxDrawdown(xs).value <= Sum(xs)
  {
    DrawdownIsExtremal(xs);
    assert xs[0..|xs|] == xs;
    SegmentSum(xs, 0, |xs|);
  }

  // It does happen: a promoted strategy both detectors condemn is left demoted.
  lemma DisabledThenDemoted()
    ensures var w := World([0], (id: Id) => LosingTrades(15), map[], [], 0);
            var after := Daily(w, DEFAULT_THRESHOLDS, map[0 := Strategies.Promoted]).statuses;
            && Drawdown(w, DEFAULT_THRESHOLDS, 0).Some? && Decay(w, DEFAULT_THRESHOLDS, 0).Some?
            && 0 in after && after[0] == Strategies.Demoted
  {
    hide Daily, DetectDrawdown, DetectDecay, LosingTrades, UnitLosses, Realized;
    var w := World([0], (id: Id) => LosingTrades(15), map[], [], 0);
    var s: Statuses := map[0 := Strategies.Promoted];
    LosingRecord(15);
    FifteenLosses();
    assert Lists(w.order, s.Keys);
    DailyStatus(w, DEFAULT_THRESHOLDS, s, 0);
  }

  // ---- what calibration compares ---------------------------------------------------------

  predicate Convicted(t: Trade) {
    t.conviction.Some?
  }

  predicate Closed(t: Trade) {
    t.conviction.Some? && t.pnlR.Some?
  }

  // The trades the convictions come from, and those the wins come from, by position.
  function ConvictedAt(trades: seq<Trade>): seq<nat> {
    if trades == [] then []
    else
      var n := |trades| - 1;
      ConvictedAt(trades[..n]) + if Convicted(trades[n]) then [n] else []
  }

  function ClosedAt(trades: seq<Trade>): seq<nat> {
    if trades == [] then []
    else
      var n := |trades| - 1;
      ClosedAt(trades[..n]) + if Closed(trades[n]) then [n] else []
  }

  lemma {:induction false} ConvictionsRead(trades: seq<Trade>)
    ensures |Convictions(trades)| == |ConvictedAt(trades)|
    ensures forall i :: 0 <= i < |ConvictedAt(trades)| ==>
              && ConvictedAt(trades)[i] < |trades| && Convicted(trades[ConvictedAt(trades)[i]])
              && Convictions(trades)[i] == trades[ConvictedAt(trades)[i]].conviction.value
  {
    if trades != [] {
      ConvictionsRead(trades[..|trades| - 1]);
    }
  }

  lemma {:induction false} WinsRead(trades: seq<Trade>)
    ensures |Wins(trades)| == |ClosedAt(trades)|
    ensures forall i :: 0 <= i < |ClosedAt(trades)| ==>
              && ClosedAt(trades)[i] < |trades| && Closed(trades[ClosedAt(trades)[i]])
              && Wins(trades)[i] == (trades[ClosedAt(trades)[i]].pnlR.value > 0.0)
  {
    if trades != [] {
      WinsRead(trades[..|trades| - 1]);
    }
  }

  lemma {:induction false} ClosedNoMore(trades: seq<Trade>)
    ensures |ClosedAt(trades)| <= |ConvictedAt(trades)|
  {
    if trades != [] {
      ClosedNoMore(trades[..|trades| - 1]);
    }
  }

  // An open trade with a conviction comes before a closed one.
  ghost predicate OpenBeforeClosed(trades: seq<Trade>) {
    exists i, j :: 0 <= i < j < |trades| && Convicted(trades[i]) && !Closed(trades[i]) && Closed(trades[j])
  }

  ghost predicate HasOpen(trades: seq<Trade>) {
    exists i :: 0 <= i < |trades| && Convicted(trades[i]) && !Closed(trades[i])
  }

  lemma {:induction false} AllClosedIff(trades: seq<Trade>)
    ensures ClosedAt(trades) == ConvictedAt(trades) <==> !HasOpen(trades)
    ensures HasOpen(trades) ==> |ClosedAt(trades)| < |ConvictedAt(trades)|
  {
    if trades != [] {
      var n := |trades| - 1;
      AllClosedIff(trades[..n]);
      ConvictionsRead(trades[..n]);
      ClosedNoMore(trades[..n]);
      HasOpenSnoc(trades);
    }
  }

  lemma HasOpenSnoc(trades: seq<Trade>)
    requires trades != []
    ensures var n := |trades| - 1;
            HasOpen(trades) <==> HasOpen(trades[..n]) || (Convicted(trades[n]) && !Closed(trades[n]))
  {
    var n := |trades| - 1;
    if HasOpen(trades[..n]) {
      var i :| 0 <= i < n && Convicted(trades[..n][i]) && !Closed(trades[..n][i]);
      assert trades[i] == trades[..n][i];
    }
    if HasOpen(trades) {
      var i :| 0 <= i < |trades| && Convicted(trades[i]) && !Closed(trades[i]);
      assert i < n ==> trades[..n][i] == trades[i];
    }
  }

  lemma OpenBeforeClosedSnoc(trades: seq<Trade>)
    requires trades != []
    ensures var n := |trades| - 1;
            OpenBeforeClosed(trades) <==> OpenBeforeClosed(trades[..n]) || (HasOpen(trades[..n]) && Closed(trades[n]))
  {
    var n := |trades| - 1;
    var front := trades[..n];
    assert forall i :: 0 <= i < n ==> front[i] == trades[i];
    if HasOpen(front) && Closed(trades[n]) {
      var i :| 0 <= i < n && Convicted(front[i]) && !Closed(front[i]);
      assert Convicted(trades[i]) && !Closed(trades[i]);
    }
    if OpenBeforeClosed(front) {
      var i, j :| 0 <= i < j < n && Convicted(front[i]) && !Closed(front[i]) && Closed(front[j]);
      assert Convicted(trades[i]) && !Closed(trades[i]) && Closed(trades[j]);
    }
    if OpenBeforeClosed(trades) {
      var i, j :| 0 <= i < j < |trades| && Convicted(trades[i]) && !Closed(trades[i]) && Closed(trades[j]);
      assert Convicted(front[i]) && !Closed(front[i]);
      assert j < n ==> Closed(front[j]);
    }
  }

  // The i-th conviction and the i-th outcome calibration compares are the same trade's, for all
  // it compares, exactly when no open trade with a conviction comes before a closed one. The
  // query lists the newest trades first, where the open ones are.
  lemma {:induction false} CalibrationPairsIff(trades: seq<Trade>)
    ensures ClosedAt(trades) <= ConvictedAt(trades) <==> !OpenBeforeClosed(trades)
  {
    if trades != [] {
      var n := |trades| - 1;
      CalibrationPairsIff(trades[..n]);
      AllClosedIff(trades[..n]);
      ConvictionsRead(trades[..n]);
      ClosedNoMore(trades[..n]);
      OpenBeforeClosedSnoc(trades);
      var xs, ys := ClosedAt(trades[..n]), ConvictedAt(trades[..n]);
      PrefixSnoc(xs, ys, n);
      PositionsUnfold(trades);
      hide ClosedAt, ConvictedAt, OpenBeforeClosed, HasOpen;
      assert Closed(trades[n]) ==> Convicted(trades[n]);
    }
  }

  lemma PositionsUnfold(trades: seq<Trade>)
    requires trades != []
    ensures var n := |trades| - 1;
            && ClosedAt(trades) == (if Closed(trades[n]) then ClosedAt(trades[..n]) + [n] else ClosedAt(trades[..n]))
            && ConvictedAt(trades)
               == (if Convicted(trades[n]) then ConvictedAt(trades[..n]) + [n] else ConvictedAt(trades[..n]))
  {
  }

  lemma PrefixSnoc(xs: seq<nat>, ys: seq<nat>, n: nat)
    requires |xs| <= |ys| && forall i :: 0 <= i < |ys| ==> ys[i] < n
    ensures xs <= ys + [n] <==> xs <= ys
    ensures xs + [n] <= ys + [n] <==> xs == ys
  {
    assert (xs + [n])[|xs|] == n;
    if xs + [n] <= ys + [n] {
      assert (ys + [n])[|xs|] == n;
    }
  }

  // An open trade ahead of a closed one: its conviction is held against the other's outcome.
  lemma OpenTradeMispairs()
    ensures var trades := [Trade(None, Some(0.9)), Trade(Some(1.0), Some(0.1))];
            && Convictions(trades)[..1] == [0.9] && Wins(trades) == [true]
            && ConvictedAt(trades)[..1] == [0] && ClosedAt(trades) == [1]
  {
    var x, y := Trade(None, Some(0.9)), Trade(Some(1.0), Some(0.1));
    assert [x, y][..1] == [x] && [x][..0] == [];
    assert Convictions([x]) == [0.9] && Wins([x]) == [] && ConvictedAt([x]) == [0] && ClosedAt([x]) == [];
    assert Convictions([x, y]) == [0.9] + [0.1] && Wins([x, y]) == [] + [true];
    assert ConvictedAt([x, y]) == [0] + [1] && ClosedAt([x, y]) == [] + [1];
  }

  // ---- conservation of events ---------------------------------------------------------------

  // One event for each firing, and an alert besides for each drawdown breach and stale source.
  function Expected(r: Report): nat {
    r.Total() + r.drawdown + r.staleness
  }

  lemma {:induction false} StrategiesWrite(w: World, t: Thresholds, d: Day, ids: seq<Id>)
    requires |d.events| == Expected(d.report)
    ensures |AfterStrategies(w, t, d, ids).events| == Expected(AfterStrategies(w, t, d, ids).report)
  {
    hide Divergence, Drawdown, Calibration, Decay;
    if ids != [] {
      StrategiesWrite(w, t, d, ids[..|ids| - 1]);
    }
  }

  lemma {:induction false} RegateWrites(w: World, d: Day, ids: seq<Id>)
    requires |d.events| == Expected(d.report)
    ensures |AfterRegate(w, d, ids).events| == Expected(AfterRegate(w, d, ids).report)
  {
    if ids != [] {
      RegateWrites(w, d, ids[..|ids| - 1]);
    }
  }

  lemma {:induction false} SourcesWrite(t: Thresholds, d: Day, sources: seq<Source>)
    requires |d.events| == Expected(d.report)
    ensures |AfterSources(t, d, sources).events| == Expected(AfterSources(t, d, sources).report)
  {
    if sources != [] {
      SourcesWrite(t, d, sources[..|sources| - 1]);
    }
  }

  // A day writes exactly the events its report accounts for.
  lemma EventsMatchReport(w: World, t: Thresholds, s: Statuses)
    ensures var day := Daily(w, t, s);
            |day.events| == Expected(day.report)
  {
    hide AfterStrategies, AfterRegate, AfterSources, AfterOod, Filter, Expected;
    var d0 := Day(s, [], NOTHING_FIRED);
    var d1 := AfterStrategies(w, t, d0, Filter(w.order, Live(s)));
    var d2 := AfterRegate(w, d1, Filter(w.order, Gated(w, d1.statuses)));
    NothingExpected();
    StrategiesWrite(w, t, d0, Filter(w.order, Live(s)));
    RegateWrites(w, d1, Filter(w.order, Gated(w, d1.statuses)));
    SourcesWrite(t, d2, w.sources);
    OodWrites(w, t, AfterSources(t, d2, w.sources));
  }

  lemma NothingExpected()
    ensures Expected(NOTHING_FIRED) == 0
  {
  }

  lemma OodWrites(w: World, t: Thresholds, d: Day)
    requires |d.events| == Expected(d.report)
    ensures |AfterOod(w, t, d).events| == Expected(AfterOod(w, t, d).report)
  {
  }
}
