/** Trigger policies over whole runs: edges, once per bar and cooldown. */
module Triggering {
  import opened Model
  import opened Rules
  import opened Routing
  import opened SeriesMachine
  import opened BatchBoundaries
  import opened DefinitionView
  import opened Redelivery

  function Alerts(p: Policy, m: Machine, events: seq<Event>, id: string): seq<Alert> {
    OfDefinition(Run(p, m, events).alerts, id)
  }

  predicate NoResets(events: seq<Event>) {
    forall i :: 0 <= i < |events| && events[i].Input? ==> !events[i].observation.reset
  }

  lemma AlertsSnoc(p: Policy, m: Machine, events: seq<Event>, id: string)
    requires events != []
    ensures var before := events[..|events| - 1];
            Alerts(p, m, events, id)
            == Alerts(p, m, before, id) + OfDefinition(Step(p, Run(p, m, before).machine, events[|events| - 1]).alerts, id)
  {
    var before := events[..|events| - 1];
    OfDefinitionConcat(Run(p, m, before).alerts, Step(p, Run(p, m, before).machine, events[|events| - 1]).alerts, id);
  }

  // ----- Edge triggering -----

  /** The number of maximal blocks of consecutive true values. */
  function TrueRuns(truths: seq<bool>): nat
    decreases |truths|
  {
    if truths == [] then 0
    else if truths[0] then 1 + TrueRuns(SkipTrue(truths))
    else TrueRuns(truths[1..])
  }

  function SkipTrue(truths: seq<bool>): (rest: seq<bool>)
    ensures |rest| <= |truths| && (truths != [] && truths[0] ==> |rest| < |truths|)
  {
    if truths == [] || !truths[0] then truths else SkipTrue(truths[1..])
  }

  predicate EndsTrue(truths: seq<bool>) {
    truths != [] && truths[|truths| - 1]
  }

  lemma {:induction false} SkipTrueSnoc(truths: seq<bool>, t: bool)
    requires truths != []
    ensures SkipTrue(truths + [t]) == if SkipTrue(truths) == [] && t then [] else SkipTrue(truths) + [t]
    ensures SkipTrue(truths) == [] ==> EndsTrue(truths)
    ensures SkipTrue(truths) != [] ==> EndsTrue(SkipTrue(truths)) == EndsTrue(truths)
  {
    if truths[0] && |truths| > 1 {
      SkipTrueSnoc(truths[1..], t);
      assert (truths + [t])[1..] == truths[1..] + [t];
    } else if truths[0] {
      assert (truths + [t])[1..] == [t];
      assert [t][1..] == [];
    }
  }

  lemma {:induction false} TrueRunsSnoc(truths: seq<bool>, t: bool)
    ensures TrueRuns(truths + [t]) == TrueRuns(truths) + (if t && !EndsTrue(truths) then 1 else 0)
    decreases |truths|
  {
    if truths == [] {
      assert [] + [t] == [t] && SkipTrue([t]) == (if t then [] else [t]);
      assert [t][1..] == [];
    } else if truths[0] {
      SkipTrueSnoc(truths, t);
      var rest := SkipTrue(truths);
      if rest == [] {
        assert TrueRuns(truths) == 1 && (truths + [t])[0];
        assert [t][1..] == [] && (!t ==> TrueRuns([t]) == 0);
        assert TrueRuns(truths + [t]) == 1 + TrueRuns(SkipTrue(truths + [t]));
      } else {
        assert (truths + [t])[0] && (rest + [t]) != [];
        TrueRunsSnoc(rest, t);
      }
    } else {
      TrueRunsSnoc(truths[1..], t);
      assert (truths + [t])[1..] == truths[1..] + [t];
    }
  }

  /** The truth values one definition is evaluated to at one cadence along a run. */
  function Truths(p: Policy, m: Machine, events: seq<Event>, c: Compiled, provisional: bool): seq<bool> {
    if events == [] then []
    else
      var before, last := events[..|events| - 1], events[|events| - 1];
      var reached := Run(p, m, before).machine;
      Truths(p, m, before, c, provisional) + TruthsAt(p, reached, last, c, provisional)
  }

  function TruthsAt(p: Policy, m: Machine, e: Event, c: Compiled, provisional: bool): seq<bool> {
    if e.Input? && Accepts(p, m, e.observation) && e.observation.status.Provisional? == provisional
       && Applies(c, Seen(p, m, e.observation))
    then [TruthOn(c, Seen(p, m, e.observation), SeenFeature(p, m, e.observation))]
    else []
  }

  function OfCadence(alerts: seq<Alert>, provisional: bool): seq<Alert> {
    if alerts == [] then []
    else
      var before := OfCadence(alerts[..|alerts| - 1], provisional);
      if alerts[|alerts| - 1].sourceStatus.Provisional? == provisional then before + [alerts[|alerts| - 1]] else before
  }

  predicate EdgeTriggered(d: Definition) {
    d.triggerMode.OnOccurrence? && d.cooldownSeconds <= 0 && !Pulse(d.rule)
  }

  function TruthBit(st: DefinitionState, provisional: bool): bool {
    if provisional then st.lastTruthIntrabar else st.lastTruthConfirmed
  }

  /** At most one alert is appended; it counts for the cadence of its observation. */
  lemma CadenceSnoc(alerts: seq<Alert>, more: seq<Alert>, provisional: bool)
    requires |more| <= 1
    ensures OfCadence(alerts + more, provisional)
            == OfCadence(alerts, provisional)
               + (if more != [] && more[0].sourceStatus.Provisional? == provisional then more else [])
  {
    if more == [] {
      assert alerts + more == alerts;
    } else {
      assert (alerts + more)[..|alerts|] == alerts;
    }
  }

  /** One evaluation of an accepted observation. */
  lemma {:induction false} EdgeEvaluation(c: Compiled, o: Observation, f: Feature, st: DefinitionState, provisional: bool, truths: seq<bool>)
    requires EdgeTriggered(c.definition) && TruthBit(st, provisional) == EndsTrue(truths)
    ensures var alerts := NextAlerts(c, o, f, st);
            var more := if o.status.Provisional? == provisional && Applies(c, o) then [TruthOn(c, o, f)] else [];
            && |alerts| <= 1
            && TruthBit(NextState(c, o, f, st), provisional) == EndsTrue(truths + more)
            && (alerts != [] && alerts[0].sourceStatus.Provisional? == provisional <==> more == [true] && !EndsTrue(truths))
  {
    assert truths + [] == truths;
  }

  lemma {:induction false} EdgeStep(p: Policy, series: Series, m: Machine, e: Event, i: nat, provisional: bool, truths: seq<bool>)
    requires Tidy(m) && (e.Input? ==> e.observation.series == series && !e.observation.reset)
    requires i < |DefinitionsFor(p.routes, series)| && UniqueIds(DefinitionsFor(p.routes, series))
    requires EdgeTriggered(DefinitionsFor(p.routes, series)[i].definition)
    requires TruthBit(StateOf(m, series, DefinitionsFor(p.routes, series)[i].definition.id), provisional) == EndsTrue(truths)
    ensures var c := DefinitionsFor(p.routes, series)[i];
            var next := Step(p, m, e);
            var alerts := OfDefinition(next.alerts, c.definition.id);
            var more := TruthsAt(p, m, e, c, provisional);
            && |alerts| <= 1 && |more| <= 1
            && TruthBit(StateOf(next.machine, series, c.definition.id), provisional) == EndsTrue(truths + more)
            && (alerts != [] && alerts[0].sourceStatus.Provisional? == provisional
                <==> more == [true] && !EndsTrue(truths))
  {
    var c := DefinitionsFor(p.routes, series)[i];
    match e
    case Commit =>
      CommitProjects(p, series, m, c.definition.id);
      assert truths + [] == truths;
    case Input(o) =>
      if Accepts(p, m, o) {
        InputProjects(p, series, m, o, i);
        EdgeEvaluation(c, Seen(p, m, o), SeenFeature(p, m, o), StateOf(m, series, c.definition.id), provisional, truths);
      } else {
        RejectionChangesNothing(p, m, o);
        assert truths + [] == truths;
      }
  }

  /**
   An edge-triggered definition that starts false alerts once per maximal block of true
   evaluations, counted separately at each cadence.
   */
  lemma {:induction false} AlertsCountTrueRuns(p: Policy, series: Series, m: Machine, events: seq<Event>, i: nat, provisional: bool)
    requires Tidy(m) && OnSeries(events, series) && NoResets(events)
    requires i < |DefinitionsFor(p.routes, series)| && UniqueIds(DefinitionsFor(p.routes, series))
    requires EdgeTriggered(DefinitionsFor(p.routes, series)[i].definition)
    requires !TruthBit(StateOf(m, series, DefinitionsFor(p.routes, series)[i].definition.id), provisional)
    ensures var c := DefinitionsFor(p.routes, series)[i];
            var truths := Truths(p, m, events, c, provisional);
            && |OfCadence(Alerts(p, m, events, c.definition.id), provisional)| == TrueRuns(truths)
            && TruthBit(StateOf(Run(p, m, events).machine, series, c.definition.id), provisional) == EndsTrue(truths)
  {
    if events != [] {
      var c := DefinitionsFor(p.routes, series)[i];
      var before, last := events[..|events| - 1], events[|events| - 1];
      AlertsCountTrueRuns(p, series, m, before, i, provisional);
      RunStaysTidy(p, m, before);
      var reached := Run(p, m, before).machine;
      var truths := Truths(p, m, before, c, provisional);
      var more := TruthsAt(p, reached, last, c, provisional);
      EdgeStep(p, series, reached, last, i, provisional, truths);
      AlertsSnoc(p, m, events, c.definition.id);
      CadenceSnoc(Alerts(p, m, before, c.definition.id), OfDefinition(Step(p, reached, last).alerts, c.definition.id), provisional);
      if more == [] {
        assert truths + more == truths;
      } else {
        assert more == [more[0]];
        TrueRunsSnoc(truths, more[0]);
      }
    }
  }

  // ----- Once per bar -----

  predicate IncreasingBars(alerts: seq<Alert>) {
    forall i, j :: 0 <= i < j < |alerts| ==> alerts[i].observation.candle.openTime < alerts[j].observation.candle.openTime
  }

  /** The remembered bar is that of the last alert and not ahead of the cursor. */
  predicate RemembersBar(s: SeriesState, st: DefinitionState, alerts: seq<Alert>) {
    if alerts == [] then st.lastAlertBar == ZERO_TIME
    else
      && HasCursor(s) && st.lastAlertBar == alerts[|alerts| - 1].observation.candle.openTime
      && st.lastAlertBar != ZERO_TIME && st.lastAlertBar <= s.lastOpenTime
  }

  /** One evaluation of an accepted observation. */
  lemma {:induction false} BarEvaluation(c: Compiled, o: Observation, f: Feature, s: SeriesState, t: SeriesState,
                                         st: DefinitionState, alerts: seq<Alert>)
    requires c.definition.triggerMode.OncePerBar? && o.candle.openTime != ZERO_TIME
    requires IncreasingBars(alerts) && RemembersBar(s, st, alerts)
    requires t.lastOpenTime == o.candle.openTime && (HasCursor(s) ==> s.lastOpenTime <= t.lastOpenTime)
    ensures var longer := alerts + NextAlerts(c, o, f, st);
            IncreasingBars(longer) && RemembersBar(t, NextState(c, o, f, st), longer)
  {
    assert alerts + [] == alerts;
  }

  lemma {:induction false} BarStep(p: Policy, series: Series, m: Machine, e: Event, i: nat, alerts: seq<Alert>)
    requires Tidy(m) && (e.Input? ==> e.observation.series == series && !e.observation.reset && Gated(e.observation))
    requires i < |DefinitionsFor(p.routes, series)| && UniqueIds(DefinitionsFor(p.routes, series))
    requires DefinitionsFor(p.routes, series)[i].definition.triggerMode.OncePerBar?
    requires IncreasingBars(alerts)
    requires RemembersBar(Now(p, m), StateOf(m, series, DefinitionsFor(p.routes, series)[i].definition.id), alerts)
    ensures var c := DefinitionsFor(p.routes, series)[i];
            var next := Step(p, m, e);
            var longer := alerts + OfDefinition(next.alerts, c.definition.id);
            && IncreasingBars(longer)
            && RemembersBar(Now(p, next.machine), StateOf(next.machine, series, c.definition.id), longer)
  {
    var c := DefinitionsFor(p.routes, series)[i];
    match e
    case Commit =>
      CommitProjects(p, series, m, c.definition.id);
      CommitKeepsCursors(p, m);
      assert alerts + [] == alerts;
    case Input(o) =>
      if Accepts(p, m, o) {
        AcceptanceMovesForward(p, m, o);
        InputProjects(p, series, m, o, i);
        BarEvaluation(c, Seen(p, m, o), SeenFeature(p, m, o), Now(p, m), Now(p, Step(p, m, e).machine),
                      StateOf(m, series, c.definition.id), alerts);
      } else {
        RejectionChangesNothing(p, m, o);
        assert alerts + [] == alerts;
      }
  }

  /** Without resets a once_per_bar definition alerts at most once per bar, both cadences together. */
  lemma {:induction false} OncePerBarHolds(p: Policy, series: Series, m: Machine, events: seq<Event>, i: nat)
    requires Tidy(m) && OnSeries(events, series) && NoResets(events) && GatedRun(events)
    requires i < |DefinitionsFor(p.routes, series)| && UniqueIds(DefinitionsFor(p.routes, series))
    requires DefinitionsFor(p.routes, series)[i].definition.triggerMode.OncePerBar?
    requires StateOf(m, series, DefinitionsFor(p.routes, series)[i].definition.id).lastAlertBar == ZERO_TIME
    ensures var id := DefinitionsFor(p.routes, series)[i].definition.id;
            var run := Run(p, m, events).machine;
            && IncreasingBars(Alerts(p, m, events, id))
            && RemembersBar(Now(p, run), StateOf(run, series, id), Alerts(p, m, events, id))
  {
    if events != [] {
      var id := DefinitionsFor(p.routes, series)[i].definition.id;
      var before, last := events[..|events| - 1], events[|events| - 1];
      OncePerBarHolds(p, series, m, before, i);
      RunStaysTidy(p, m, before);
      AlertsSnoc(p, m, events, id);
      BarStep(p, series, Run(p, m, before).machine, last, i, Alerts(p, m, before, id));
    }
  }

  // ----- Cooldown -----

  predicate Spaced(alerts: seq<Alert>, gap: int) {
    forall i :: 0 < i < |alerts| ==> gap <= alerts[i].triggeredAt - alerts[i - 1].triggeredAt
  }

  predicate RemembersTrigger(st: DefinitionState, alerts: seq<Alert>) {
    if alerts == [] then st.lastTriggerAt == ZERO_TIME
    else st.lastTriggerAt == alerts[|alerts| - 1].triggeredAt && st.lastTriggerAt != ZERO_TIME
  }

  /** The trigger time survives a reset now: it is committed and the definition takes confirmed bars. */
  predicate TriggerIsSafe(series: Series, m: Machine, d: Definition) {
    !m.fired && AcceptsMode(d.evaluationMode, Status.Confirmed)
    ==> CommittedStateOf(m, series, d.id).lastTriggerAt == StateOf(m, series, d.id).lastTriggerAt
  }

  lemma {:induction false} RemembersSnoc(alerts: seq<Alert>, last: Alert, st: DefinitionState)
    requires st.lastTriggerAt == last.triggeredAt && last.triggeredAt != ZERO_TIME
    ensures RemembersTrigger(st, alerts + [last])
  {
  }

  /** One evaluation: what the definition alerts and what it remembers. */
  lemma {:induction false} CooldownEvaluation(c: Compiled, o: Observation, f: Feature, st: DefinitionState, alerts: seq<Alert>)
    requires 0 < c.definition.cooldownSeconds && o.occurredAt != ZERO_TIME
    requires Spaced(alerts, c.definition.cooldownSeconds * SECOND) && RemembersTrigger(st, alerts)
    ensures var longer := alerts + NextAlerts(c, o, f, st);
            Spaced(longer, c.definition.cooldownSeconds * SECOND) && RemembersTrigger(NextState(c, o, f, st), longer)
    ensures NextAlerts(c, o, f, st) == [] ==> NextState(c, o, f, st).lastTriggerAt == st.lastTriggerAt
  {
    var more := NextAlerts(c, o, f, st);
    if more == [] {
      assert alerts + [] == alerts;
    } else {
      var alert := more[0];
      assert more == [alert] && alert.triggeredAt == o.occurredAt;
      assert !CoolingDown(c.definition, o.occurredAt, st.lastTriggerAt);
      SpacedSnoc(alerts, alert, c.definition.cooldownSeconds * SECOND);
      RemembersSnoc(alerts, alert, NextState(c, o, f, st));
    }
  }

  lemma {:induction false} SpacedAfterInput(p: Policy, series: Series, m: Machine, o: Observation, i: nat, alerts: seq<Alert>)
    requires o.series == series && !o.reset && Gated(o) && Accepts(p, m, o)
    requires i < |DefinitionsFor(p.routes, series)| && UniqueIds(DefinitionsFor(p.routes, series))
    requires 0 < DefinitionsFor(p.routes, series)[i].definition.cooldownSeconds
    requires Spaced(alerts, DefinitionsFor(p.routes, series)[i].definition.cooldownSeconds * SECOND)
    requires RemembersTrigger(StateOf(m, series, DefinitionsFor(p.routes, series)[i].definition.id), alerts)
    requires TriggerIsSafe(series, m, DefinitionsFor(p.routes, series)[i].definition)
    ensures var d := DefinitionsFor(p.routes, series)[i].definition;
            var next := Step(p, m, Input(o));
            var longer := alerts + OfDefinition(next.alerts, d.id);
            && Spaced(longer, d.cooldownSeconds * SECOND)
            && RemembersTrigger(StateOf(next.machine, series, d.id), longer)
            && TriggerIsSafe(series, next.machine, d)
  {
    var c := DefinitionsFor(p.routes, series)[i];
    InputProjects(p, series, m, o, i);
    CooldownEvaluation(c, Seen(p, m, o), SeenFeature(p, m, o), StateOf(m, series, c.definition.id), alerts);
  }

  lemma {:induction false} CooldownStep(p: Policy, series: Series, m: Machine, e: Event, i: nat, alerts: seq<Alert>)
    requires Tidy(m) && (e.Input? ==> e.observation.series == series && Gated(e.observation))
    requires i < |DefinitionsFor(p.routes, series)| && UniqueIds(DefinitionsFor(p.routes, series))
    requires 0 < DefinitionsFor(p.routes, series)[i].definition.cooldownSeconds
    requires e.Input? && e.observation.reset && Accepts(p, m, e.observation)
             ==> !m.fired && AcceptsMode(DefinitionsFor(p.routes, series)[i].definition.evaluationMode, Status.Confirmed)
    requires Spaced(alerts, DefinitionsFor(p.routes, series)[i].definition.cooldownSeconds * SECOND)
    requires RemembersTrigger(StateOf(m, series, DefinitionsFor(p.routes, series)[i].definition.id), alerts)
    requires TriggerIsSafe(series, m, DefinitionsFor(p.routes, series)[i].definition)
    ensures var d := DefinitionsFor(p.routes, series)[i].definition;
            var next := Step(p, m, e);
            var longer := alerts + OfDefinition(next.alerts, d.id);
            && Spaced(longer, d.cooldownSeconds * SECOND)
            && RemembersTrigger(StateOf(next.machine, series, d.id), longer)
            && TriggerIsSafe(series, next.machine, d)
  {
    var d := DefinitionsFor(p.routes, series)[i].definition;
    match e
    case Commit =>
      CommitProjects(p, series, m, d.id);
      assert alerts + [] == alerts;
    case Input(o) =>
      if !Accepts(p, m, o) {
        RejectionChangesNothing(p, m, o);
        assert alerts + [] == alerts;
      } else if o.reset {
        ResetProjects(p, series, m, o, i);
        assert alerts + [] == alerts;
      } else {
        SpacedAfterInput(p, series, m, o, i, alerts);
      }
  }

  /** Every accepted reset of the run keeps the definition's trigger time. */
  ghost predicate ResetsKeepTriggers(p: Policy, m: Machine, events: seq<Event>, d: Definition) {
    Clean(p, m, events) && (AcceptsMode(d.evaluationMode, Status.Confirmed) || NoResets(events))
  }

  /**
   Alerts of a definition with a cooldown are at least the cooldown apart, even when event times go
   backwards and across reset-clean resets.
   */
  lemma {:induction false} CooldownHolds(p: Policy, series: Series, m: Machine, events: seq<Event>, i: nat)
    requires Tidy(m) && OnSeries(events, series) && GatedRun(events)
    requires i < |DefinitionsFor(p.routes, series)| && UniqueIds(DefinitionsFor(p.routes, series))
    requires 0 < DefinitionsFor(p.routes, series)[i].definition.cooldownSeconds
    requires ResetsKeepTriggers(p, m, events, DefinitionsFor(p.routes, series)[i].definition)
    requires StateOf(m, series, DefinitionsFor(p.routes, series)[i].definition.id).lastTriggerAt == ZERO_TIME
    requires TriggerIsSafe(series, m, DefinitionsFor(p.routes, series)[i].definition)
    ensures var d := DefinitionsFor(p.routes, series)[i].definition;
            var run := Run(p, m, events).machine;
            && Spaced(Alerts(p, m, events, d.id), d.cooldownSeconds * SECOND)
            && RemembersTrigger(StateOf(run, series, d.id), Alerts(p, m, events, d.id))
            && TriggerIsSafe(series, run, d)
  {
    if events != [] {
      var d := DefinitionsFor(p.routes, series)[i].definition;
      var before, last := events[..|events| - 1], events[|events| - 1];
      CooldownHolds(p, series, m, before, i);
      RunStaysTidy(p, m, before);
      AlertsSnoc(p, m, events, d.id);
      CooldownStep(p, series, Run(p, m, before).machine, last, i, Alerts(p, m, before, d.id));
    }
  }

  lemma {:induction false} SpacedOverall(alerts: seq<Alert>, gap: int, i: nat, j: nat)
    requires Spaced(alerts, gap) && i <= j < |alerts|
    ensures (j - i) * gap <= alerts[j].triggeredAt - alerts[i].triggeredAt
    decreases j
  {
    if i < j {
      SpacedOverall(alerts, gap, i, j - 1);
      assert (j - i) * gap == (j - 1 - i) * gap + gap;
    }
  }

  /** Any stretch of alerts that fits into a window holds at most window / gap + 1 of them. */
  lemma WindowHoldsFewAlerts(alerts: seq<Alert>, gap: int, i: nat, j: nat, window: nat)
    requires 0 < gap && Spaced(alerts, gap) && i <= j < |alerts|
    requires alerts[j].triggeredAt - alerts[i].triggeredAt <= window
    ensures j - i + 1 <= window / gap + 1
  {
    SpacedOverall(alerts, gap, i, j);
    assert window < (window / gap + 1) * gap;
    MultipliesUp(window / gap + 1, j - i, gap);
  }

  /** The alerts triggered within a window. */
  function InWindow(alerts: seq<Alert>, from: Time, window: nat): seq<Alert> {
    if alerts == [] then []
    else
      var before, last := InWindow(alerts[..|alerts| - 1], from, window), alerts[|alerts| - 1];
      if from <= last.triggeredAt <= from + window then before + [last] else before
  }

  lemma {:induction false} WindowIsSpaced(alerts: seq<Alert>, gap: int, from: Time, window: nat)
    requires 0 < gap && Spaced(alerts, gap)
    ensures var inside := InWindow(alerts, from, window);
            && Spaced(inside, gap)
            && (forall i :: 0 <= i < |inside| ==> from <= inside[i].triggeredAt <= from + window)
            && (inside != [] ==> inside[|inside| - 1].triggeredAt <= alerts[|alerts| - 1].triggeredAt)
  {
    if alerts != [] {
      var front, last := alerts[..|alerts| - 1], alerts[|alerts| - 1];
      WindowIsSpaced(front, gap, from, window);
      if front != [] {
        assert gap <= alerts[|front|].triggeredAt - alerts[|front| - 1].triggeredAt;
      }
      SpacedSnoc(InWindow(front, from, window), last, gap);
    }
  }

  lemma {:induction false} SpacedSnoc(alerts: seq<Alert>, last: Alert, gap: int)
    requires Spaced(alerts, gap)
    ensures alerts == [] || gap <= last.triggeredAt - alerts[|alerts| - 1].triggeredAt ==> Spaced(alerts + [last], gap)
  {
  }

  /** Over any run a window holds at most window / cooldown + 1 alerts of a definition with a cooldown. */
  lemma {:induction false} CooldownBoundsWindows(p: Policy, series: Series, m: Machine, events: seq<Event>, i: nat,
                                                 from: Time, window: nat)
    requires Tidy(m) && OnSeries(events, series) && GatedRun(events)
    requires i < |DefinitionsFor(p.routes, series)| && UniqueIds(DefinitionsFor(p.routes, series))
    requires 0 < DefinitionsFor(p.routes, series)[i].definition.cooldownSeconds
    requires ResetsKeepTriggers(p, m, events, DefinitionsFor(p.routes, series)[i].definition)
    requires StateOf(m, series, DefinitionsFor(p.routes, series)[i].definition.id).lastTriggerAt == ZERO_TIME
    requires TriggerIsSafe(series, m, DefinitionsFor(p.routes, series)[i].definition)
    ensures var d := DefinitionsFor(p.routes, series)[i].definition;
            |InWindow(Alerts(p, m, events, d.id), from, window)| <= window / (d.cooldownSeconds * SECOND) + 1
  {
    var d := DefinitionsFor(p.routes, series)[i].definition;
    CooldownHolds(p, series, m, events, i);
    WindowBound(Alerts(p, m, events, d.id), d.cooldownSeconds * SECOND, from, window);
  }

  lemma {:induction false} WindowBound(alerts: seq<Alert>, gap: int, from: Time, window: nat)
    requires 0 < gap && Spaced(alerts, gap)
    ensures |InWindow(alerts, from, window)| <= window / gap + 1
  {
    var inside := InWindow(alerts, from, window);
    WindowIsSpaced(alerts, gap, from, window);
    if inside != [] {
      WindowHoldsFewAlerts(inside, gap, 0, |inside| - 1, window);
    }
  }

  lemma MultipliesUp(a: int, b: int, gap: int)
    requires 0 < gap
    ensures a <= b ==> a * gap <= b * gap
  {
  }
}
