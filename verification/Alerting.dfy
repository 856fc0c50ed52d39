/**
 Which evaluations of a definition alert, told from the evaluations alone: over any run without
 resets the alerts of a definition are exactly the ones chosen here, with nothing else in them.
 */
module Alerting {
  import opened Model
  import opened Rules
  import opened Routing
  import opened SeriesMachine
  import opened BatchBoundaries
  import opened DefinitionView
  import opened Redelivery
  import opened Triggering

  /** One evaluation of a definition: what it saw and what came out. */
  datatype Judgement = Judgement(observation: Observation, truth: bool, facts: seq<Fact>)

  /** The evaluations of a definition along a run without resets, in order. */
  function Judgements(p: Policy, m: Machine, events: seq<Event>, c: Compiled): seq<Judgement> {
    if events == [] then []
    else
      var before, last := events[..|events| - 1], events[|events| - 1];
      Judgements(p, m, before, c) + JudgementsAt(p, Run(p, m, before).machine, last, c)
  }

  function JudgementsAt(p: Policy, m: Machine, e: Event, c: Compiled): seq<Judgement> {
    if e.Input? && Accepts(p, m, e.observation) then Judged(c, Seen(p, m, e.observation), SeenFeature(p, m, e.observation)) else []
  }

  function Judged(c: Compiled, o: Observation, f: Feature): seq<Judgement> {
    if Applies(c, o)
    then [Judgement(o, Evaluate(c.definition.rule, o, f).Truth(), Evaluate(c.definition.rule, o, f).facts)]
    else []
  }

  // ----- The reference -----

  /** Whether the last evaluation of a cadence came out true. */
  predicate WasTrue(js: seq<Judgement>, provisional: bool) {
    js != [] &&
    var last := js[|js| - 1];
    if last.observation.status.Provisional? == provisional then last.truth else WasTrue(js[..|js| - 1], provisional)
  }

  /** The trigger mode lets one more true evaluation alert, given the evaluations and the alerting ones before. */
  predicate ModeAllows(d: Definition, js: seq<Judgement>, chosen: seq<Judgement>, next: Judgement) {
    match d.triggerMode
    case EveryMatch => true
    case OncePerBar => forall k :: 0 <= k < |chosen| ==>
                                 chosen[k].observation.candle.openTime != next.observation.candle.openTime
    case OnOccurrence => Pulse(d.rule) || !WasTrue(js, next.observation.status.Provisional?)
  }

  /** A cooldown has passed since the last alert. */
  predicate CooledDown(d: Definition, chosen: seq<Judgement>, next: Judgement) {
    || d.cooldownSeconds <= 0 || chosen == []
    || d.cooldownSeconds * 1_000_000_000 <= next.observation.occurredAt - chosen[|chosen| - 1].observation.occurredAt
  }

  predicate Chooses(d: Definition, js: seq<Judgement>, chosen: seq<Judgement>, next: Judgement) {
    next.truth && ModeAllows(d, js, chosen, next) && CooledDown(d, chosen, next)
  }

  /** The evaluations that alert. */
  function Chosen(d: Definition, js: seq<Judgement>): seq<Judgement> {
    if js == [] then []
    else
      var front, last := js[..|js| - 1], js[|js| - 1];
      if Chooses(d, front, Chosen(d, front), last) then Chosen(d, front) + [last] else Chosen(d, front)
  }

  /** The alert of an evaluation, field by field. */
  predicate Reports(alert: Alert, d: Definition, j: Judgement) {
    && alert.id.definitionId == d.id && alert.id.sourceEventId == j.observation.sourceEventId
    && alert.definitionId == d.id && alert.definitionVersion == d.version
    && alert.sourceEventId == j.observation.sourceEventId && alert.sourceCandleId == j.observation.correlationId
    && alert.series == j.observation.series && alert.triggeredAt == j.observation.occurredAt
    && alert.sourceRevision == j.observation.revision && alert.sourceStatus == j.observation.status
    && alert.facts == j.facts && alert.observation == j.observation && !alert.published
  }

  predicate ReportsEach(alerts: seq<Alert>, d: Definition, js: seq<Judgement>) {
    |alerts| == |js| && forall k :: 0 <= k < |js| ==> Reports(alerts[k], d, js[k])
  }

  // ----- The machine meets it -----

  /** What the definition state remembers of its evaluations. */
  predicate Recalls(s: SeriesState, st: DefinitionState, d: Definition, js: seq<Judgement>) {
    && st.lastTruthConfirmed == WasTrue(js, false) && st.lastTruthIntrabar == WasTrue(js, true)
    && BarsInOrder(s, js) && TimesAreSet(js)
    && RecallsAlert(st, Chosen(d, js))
  }

  predicate RecallsAlert(st: DefinitionState, chosen: seq<Judgement>) {
    if chosen == [] then st.lastTriggerAt == ZERO_TIME && st.lastAlertBar == ZERO_TIME
    else
      var last := chosen[|chosen| - 1].observation;
      st.lastTriggerAt == last.occurredAt && st.lastAlertBar == last.candle.openTime
  }

  /** Evaluated bars never go back, and none is ahead of the cursor. */
  predicate BarsInOrder(s: SeriesState, js: seq<Judgement>) {
    && (js != [] ==> HasCursor(s))
    && (forall i, j :: 0 <= i <= j < |js| ==> js[i].observation.candle.openTime <= js[j].observation.candle.openTime)
    && (forall i :: 0 <= i < |js| ==> js[i].observation.candle.openTime <= s.lastOpenTime)
  }

  predicate TimesAreSet(js: seq<Judgement>) {
    forall i :: 0 <= i < |js| ==> js[i].observation.occurredAt != ZERO_TIME && js[i].observation.candle.openTime != ZERO_TIME
  }

  lemma {:induction false} ChosenAreJudged(d: Definition, js: seq<Judgement>)
    ensures forall k :: 0 <= k < |Chosen(d, js)| ==> Chosen(d, js)[k] in js
    ensures (forall i, j :: 0 <= i <= j < |js| ==> js[i].observation.candle.openTime <= js[j].observation.candle.openTime) ==>
              forall i, j :: 0 <= i <= j < |Chosen(d, js)| ==>
                               Chosen(d, js)[i].observation.candle.openTime <= Chosen(d, js)[j].observation.candle.openTime
  {
    if js != [] {
      var front, last := js[..|js| - 1], js[|js| - 1];
      ChosenAreJudged(d, front);
      assert forall j :: j in front ==> j in js;
      assert forall k :: 0 <= k < |Chosen(d, front)| ==> Chosen(d, front)[k] in front;
    }
  }

  lemma {:induction false} ChosenSnoc(d: Definition, js: seq<Judgement>, next: Judgement)
    ensures Chosen(d, js + [next]) == if Chooses(d, js, Chosen(d, js), next) then Chosen(d, js) + [next] else Chosen(d, js)
    ensures forall provisional :: WasTrue(js + [next], provisional)
                                  == if next.observation.status.Provisional? == provisional then next.truth else WasTrue(js, provisional)
  {
    assert (js + [next])[..|js|] == js;
  }

  /** The definition state decides as the reference does. */
  lemma {:induction false} DecidesAlike(d: Definition, s: SeriesState, st: DefinitionState, js: seq<Judgement>, next: Judgement)
    requires Recalls(s, st, d, js) && next.observation.candle.openTime != ZERO_TIME
    requires js != [] ==> s.lastOpenTime <= next.observation.candle.openTime
    ensures Triggers(d, next.observation, next.truth, st) <==> Chooses(d, js, Chosen(d, js), next)
  {
    var chosen := Chosen(d, js);
    ChosenAreJudged(d, js);
    if chosen != [] {
      var last := chosen[|chosen| - 1];
      assert last in js;
      assert forall k :: 0 <= k < |chosen| ==> chosen[k].observation.candle.openTime <= last.observation.candle.openTime;
      assert forall k :: 0 <= k < |chosen| ==> chosen[k] in js;
    }
  }

  lemma {:induction false} OrderSnoc(s: SeriesState, t: SeriesState, js: seq<Judgement>, next: Judgement)
    requires BarsInOrder(s, js) && TimesAreSet(js)
    requires next.observation.occurredAt != ZERO_TIME && next.observation.candle.openTime != ZERO_TIME
    requires t.lastOpenTime == next.observation.candle.openTime && (HasCursor(s) ==> s.lastOpenTime <= t.lastOpenTime)
    ensures BarsInOrder(t, js + [next]) && TimesAreSet(js + [next])
  {
  }

  /** What the definition remembers after one more evaluation. */
  lemma {:induction false} EvaluatedRecalls(d: Definition, s: SeriesState, t: SeriesState, st: DefinitionState, js: seq<Judgement>, next: Judgement)
    requires Recalls(s, st, d, js) && next.observation.occurredAt != ZERO_TIME && next.observation.candle.openTime != ZERO_TIME
    requires t.lastOpenTime == next.observation.candle.openTime && (HasCursor(s) ==> s.lastOpenTime <= t.lastOpenTime)
    ensures Recalls(t, Evaluated(d, next.observation, next.truth, st), d, js + [next])
  {
    DecidesAlike(d, s, st, js, next);
    ChosenSnoc(d, js, next);
    OrderSnoc(s, t, js, next);
    assert WasTrue(js + [next], false) == if next.observation.status.Provisional? then WasTrue(js, false) else next.truth;
    assert WasTrue(js + [next], true) == if next.observation.status.Provisional? then next.truth else WasTrue(js, true);
  }

  /** The alerts of one evaluation: one that reports it when it is chosen, and none otherwise. */
  predicate ReportsOne(alerts: seq<Alert>, d: Definition, next: Judgement, isChosen: bool) {
    if isChosen then |alerts| == 1 && Reports(alerts[0], d, next) else alerts == []
  }

  lemma {:induction false} EvaluatedReports(c: Compiled, o: Observation, f: Feature, s: SeriesState, st: DefinitionState, js: seq<Judgement>,
                                            next: Judgement)
    requires Applies(c, o) && Recalls(s, st, c.definition, js) && o.candle.openTime != ZERO_TIME
    requires js != [] ==> s.lastOpenTime <= o.candle.openTime
    requires next == Judgement(o, Evaluate(c.definition.rule, o, f).Truth(), Evaluate(c.definition.rule, o, f).facts)
    ensures ReportsOne(NextAlerts(c, o, f, st), c.definition, next, Chooses(c.definition, js, Chosen(c.definition, js), next))
    ensures NextState(c, o, f, st) == Evaluated(c.definition, o, next.truth, st)
  {
    DecidesAlike(c.definition, s, st, js, next);
  }

  /** The cursor moves on without an evaluation. */
  lemma {:induction false} UnjudgedRecalls(s: SeriesState, t: SeriesState, st: DefinitionState, d: Definition, js: seq<Judgement>)
    requires Recalls(s, st, d, js) && (HasCursor(s) ==> HasCursor(t) && s.lastOpenTime <= t.lastOpenTime)
    ensures Recalls(t, st, d, js)
  {
  }

  /** One definition on one accepted observation. */
  lemma {:induction false} DefinitionAgrees(c: Compiled, o: Observation, f: Feature, s: SeriesState, t: SeriesState,
                                            st: DefinitionState, js: seq<Judgement>, alerts: seq<Alert>)
    requires Recalls(s, st, c.definition, js) && ReportsEach(alerts, c.definition, Chosen(c.definition, js))
    requires o.candle.openTime != ZERO_TIME && o.occurredAt != ZERO_TIME
    requires t.lastOpenTime == o.candle.openTime && (HasCursor(s) ==> s.lastOpenTime <= t.lastOpenTime)
    ensures Recalls(t, NextState(c, o, f, st), c.definition, js + Judged(c, o, f))
    ensures ReportsEach(alerts + NextAlerts(c, o, f, st), c.definition, Chosen(c.definition, js + Judged(c, o, f)))
  {
    if Applies(c, o) {
      var judged := Judgement(o, Evaluate(c.definition.rule, o, f).Truth(), Evaluate(c.definition.rule, o, f).facts);
      EvaluatedRecalls(c.definition, s, t, st, js, judged);
      EvaluatedReports(c, o, f, s, st, js, judged);
      ReportsMore(alerts, c.definition, js, NextAlerts(c, o, f, st), judged);
    } else {
      UnjudgedRecalls(s, t, st, c.definition, js);
      assert js + [] == js && alerts + [] == alerts;
    }
  }

  /** What one event adds to the alerts and to the evaluations. */
  ghost predicate AlertsAgree(p: Policy, series: Series, m: Machine, c: Compiled, js: seq<Judgement>, alerts: seq<Alert>) {
    && Recalls(Now(p, m), StateOf(m, series, c.definition.id), c.definition, js)
    && ReportsEach(alerts, c.definition, Chosen(c.definition, js))
  }

  lemma {:induction false} InputAgrees(p: Policy, series: Series, m: Machine, o: Observation, i: nat, js: seq<Judgement>, alerts: seq<Alert>)
    requires o.series == series && !o.reset && Gated(o) && Accepts(p, m, o)
    requires i < |DefinitionsFor(p.routes, series)| && UniqueIds(DefinitionsFor(p.routes, series))
    requires AlertsAgree(p, series, m, DefinitionsFor(p.routes, series)[i], js, alerts)
    ensures var c := DefinitionsFor(p.routes, series)[i];
            var next := Step(p, m, Input(o));
            AlertsAgree(p, series, next.machine, c, js + JudgementsAt(p, m, Input(o), c), alerts + OfDefinition(next.alerts, c.definition.id))
  {
    var c := DefinitionsFor(p.routes, series)[i];
    var s, t := Now(p, m), Now(p, Step(p, m, Input(o)).machine);
    AcceptanceMovesForward(p, m, o);
    InputProjects(p, series, m, o, i);
    DefinitionAgrees(c, Seen(p, m, o), SeenFeature(p, m, o), s, t, StateOf(m, series, c.definition.id), js, alerts);
  }

  lemma {:induction false} ReportsMore(alerts: seq<Alert>, d: Definition, js: seq<Judgement>, more: seq<Alert>, next: Judgement)
    requires ReportsEach(alerts, d, Chosen(d, js)) && ReportsOne(more, d, next, Chooses(d, js, Chosen(d, js), next))
    ensures ReportsEach(alerts + more, d, Chosen(d, js + [next]))
  {
    ChosenSnoc(d, js, next);
    assert more == [] ==> alerts + more == alerts;
  }

  lemma {:induction false} EventAgrees(p: Policy, series: Series, m: Machine, e: Event, i: nat, js: seq<Judgement>, alerts: seq<Alert>)
    requires Tidy(m) && (e.Input? ==> e.observation.series == series && !e.observation.reset && Gated(e.observation))
    requires i < |DefinitionsFor(p.routes, series)| && UniqueIds(DefinitionsFor(p.routes, series))
    requires AlertsAgree(p, series, m, DefinitionsFor(p.routes, series)[i], js, alerts)
    ensures var c := DefinitionsFor(p.routes, series)[i];
            var next := Step(p, m, e);
            AlertsAgree(p, series, next.machine, c, js + JudgementsAt(p, m, e, c), alerts + OfDefinition(next.alerts, c.definition.id))
  {
    var c := DefinitionsFor(p.routes, series)[i];
    if e.Input? && Accepts(p, m, e.observation) {
      InputAgrees(p, series, m, e.observation, i, js, alerts);
    } else {
      assert js + [] == js && alerts + [] == alerts;
      if e.Commit? {
        CommitProjects(p, series, m, c.definition.id);
        CommitKeepsCursors(p, m);
        UnjudgedRecalls(Now(p, m), Now(p, Step(p, m, e).machine), StateOf(m, series, c.definition.id), c.definition, js);
      } else {
        RejectionChangesNothing(p, m, e.observation);
      }
    }
  }

  /**
   Over any run without resets the alerts of a definition that starts afresh report exactly the chosen
   evaluations, in order: none is missing and none is added, in whatever mode and with any cooldown.
   */
  lemma {:induction false} AlertsExactly(p: Policy, series: Series, m: Machine, events: seq<Event>, i: nat)
    requires Tidy(m) && OnSeries(events, series) && NoResets(events) && GatedRun(events)
    requires i < |DefinitionsFor(p.routes, series)| && UniqueIds(DefinitionsFor(p.routes, series))
    requires StateOf(m, series, DefinitionsFor(p.routes, series)[i].definition.id) == EMPTY_DEFINITION
    ensures var c := DefinitionsFor(p.routes, series)[i];
            AlertsAgree(p, series, Run(p, m, events).machine, c, Judgements(p, m, events, c), Alerts(p, m, events, c.definition.id))
  {
    var c := DefinitionsFor(p.routes, series)[i];
    if events != [] {
      var before, last := events[..|events| - 1], events[|events| - 1];
      AlertsExactly(p, series, m, before, i);
      RunStaysTidy(p, m, before);
      AlertsSnoc(p, m, events, c.definition.id);
      EventAgrees(p, series, Run(p, m, before).machine, last, i, Judgements(p, m, before, c), Alerts(p, m, before, c.definition.id));
    }
  }

  // ----- Once per bar -----

  /** The n-th evaluation is the first true one of its bar. */
  predicate IsFirstTruth(js: seq<Judgement>, n: int) {
    && 0 <= n < |js| && js[n].truth
    && forall i :: 0 <= i < n && js[i].truth ==> js[i].observation.candle.openTime != js[n].observation.candle.openTime
  }

  predicate TrueOn(js: seq<Judgement>, bar: Time) {
    exists n :: 0 <= n < |js| && js[n].truth && js[n].observation.candle.openTime == bar
  }

  predicate AlertedOn(chosen: seq<Judgement>, bar: Time) {
    exists k :: 0 <= k < |chosen| && chosen[k].observation.candle.openTime == bar
  }

  lemma TrueOnSnoc(js: seq<Judgement>, next: Judgement, bar: Time)
    ensures TrueOn(js + [next], bar) <==> TrueOn(js, bar) || (next.truth && next.observation.candle.openTime == bar)
  {
    var all := js + [next];
    if TrueOn(js, bar) {
      var n :| 0 <= n < |js| && js[n].truth && js[n].observation.candle.openTime == bar;
      assert all[n] == js[n];
    }
    assert all[|js|] == next;
  }

  lemma AlertedOnSnoc(chosen: seq<Judgement>, next: Judgement, bar: Time)
    ensures AlertedOn(chosen + [next], bar) <==> AlertedOn(chosen, bar) || next.observation.candle.openTime == bar
  {
    var all := chosen + [next];
    if AlertedOn(chosen, bar) {
      var k :| 0 <= k < |chosen| && chosen[k].observation.candle.openTime == bar;
      assert all[k] == chosen[k];
    }
    assert all[|chosen|] == next;
  }

  /** Without a cooldown a once_per_bar definition alerts on exactly the bars on which it was true. */
  lemma {:induction false} AlertedWhereTrue(d: Definition, js: seq<Judgement>, bar: Time)
    requires d.triggerMode.OncePerBar? && d.cooldownSeconds <= 0
    ensures AlertedOn(Chosen(d, js), bar) <==> TrueOn(js, bar)
  {
    if js != [] {
      var front, last := js[..|js| - 1], js[|js| - 1];
      assert js == front + [last];
      AlertedWhereTrue(d, front, bar);
      TrueOnSnoc(front, last, bar);
      AlertedOnSnoc(Chosen(d, front), last, bar);
    }
  }

  /** ... each time at the first true evaluation of the bar. */
  lemma {:induction false} ChosenAreFirst(d: Definition, js: seq<Judgement>, k: nat) returns (n: int)
    requires d.triggerMode.OncePerBar? && d.cooldownSeconds <= 0 && k < |Chosen(d, js)|
    ensures IsFirstTruth(js, n) && js[n] == Chosen(d, js)[k]
  {
    var front, last := js[..|js| - 1], js[|js| - 1];
    if k < |Chosen(d, front)| {
      n := ChosenAreFirst(d, front, k);
      assert forall i :: 0 <= i <= n ==> js[i] == front[i];
    } else {
      n := |js| - 1;
      AlertedWhereTrue(d, front, last.observation.candle.openTime);
      assert forall i :: 0 <= i < n ==> js[i] == front[i];
    }
  }

  /**
   Over any run without resets and without a cooldown the bars of a once_per_bar definition's alerts are
   exactly the bars on which it was evaluated to true, and each alert reports the first such evaluation.
   */
  lemma {:induction false} OncePerBarExactly(p: Policy, series: Series, m: Machine, events: seq<Event>, i: nat)
    requires Tidy(m) && OnSeries(events, series) && NoResets(events) && GatedRun(events)
    requires i < |DefinitionsFor(p.routes, series)| && UniqueIds(DefinitionsFor(p.routes, series))
    requires StateOf(m, series, DefinitionsFor(p.routes, series)[i].definition.id) == EMPTY_DEFINITION
    requires var d := DefinitionsFor(p.routes, series)[i].definition; d.triggerMode.OncePerBar? && d.cooldownSeconds <= 0
    ensures var c := DefinitionsFor(p.routes, series)[i];
            var js, alerts := Judgements(p, m, events, c), Alerts(p, m, events, c.definition.id);
            && (forall bar: Time :: TrueOn(js, bar)
                                    <==> exists k :: 0 <= k < |alerts| && alerts[k].observation.candle.openTime == bar)
            && (forall k :: 0 <= k < |alerts| ==> exists n :: IsFirstTruth(js, n) && Reports(alerts[k], c.definition, js[n]))
  {
    var c := DefinitionsFor(p.routes, series)[i];
    var js, alerts := Judgements(p, m, events, c), Alerts(p, m, events, c.definition.id);
    AlertsExactly(p, series, m, events, i);
    BarsOfReports(alerts, c.definition, js);
    forall k | 0 <= k < |alerts| ensures exists n :: IsFirstTruth(js, n) && Reports(alerts[k], c.definition, js[n]) {
      var n := ChosenAreFirst(c.definition, js, k);
    }
  }

  lemma {:induction false} BarsOfReports(alerts: seq<Alert>, d: Definition, js: seq<Judgement>)
    requires d.triggerMode.OncePerBar? && d.cooldownSeconds <= 0 && ReportsEach(alerts, d, Chosen(d, js))
    ensures forall bar: Time :: TrueOn(js, bar)
                                <==> exists k :: 0 <= k < |alerts| && alerts[k].observation.candle.openTime == bar
  {
    forall bar: Time
      ensures TrueOn(js, bar) <==> exists k :: 0 <= k < |alerts| && alerts[k].observation.candle.openTime == bar
    {
      AlertedWhereTrue(d, js, bar);
      var chosen := Chosen(d, js);
      if AlertedOn(chosen, bar) {
        var k :| 0 <= k < |chosen| && chosen[k].observation.candle.openTime == bar;
        assert Reports(alerts[k], d, chosen[k]);
      }
    }
  }

  // ----- Every match, and cooldowns -----

  /**
   After any run without resets the next evaluation of an every_match definition alerts exactly when it
   is true and the definition has no cooldown, no alert yet, or its last alert lies a cooldown back.
   */
  lemma {:induction false} CooldownExactly(p: Policy, series: Series, m: Machine, events: seq<Event>, next: Observation, i: nat)
    requires Tidy(m) && OnSeries(events, series) && NoResets(events) && GatedRun(events)
    requires next.series == series && !next.reset && Gated(next) && Accepts(p, Run(p, m, events).machine, next)
    requires i < |DefinitionsFor(p.routes, series)| && UniqueIds(DefinitionsFor(p.routes, series))
    requires StateOf(m, series, DefinitionsFor(p.routes, series)[i].definition.id) == EMPTY_DEFINITION
    requires DefinitionsFor(p.routes, series)[i].definition.triggerMode.EveryMatch?
    ensures var c := DefinitionsFor(p.routes, series)[i];
            var reached := Run(p, m, events).machine;
            var alerts := Alerts(p, m, events, c.definition.id);
            OfDefinition(Step(p, reached, Input(next)).alerts, c.definition.id) != []
            <==> && Applies(c, Seen(p, reached, next)) && TruthOn(c, Seen(p, reached, next), SeenFeature(p, reached, next))
                 && (c.definition.cooldownSeconds <= 0 || alerts == []
                     || alerts[|alerts| - 1].triggeredAt + c.definition.cooldownSeconds * 1_000_000_000 <= next.occurredAt)
  {
    var c := DefinitionsFor(p.routes, series)[i];
    var reached := Run(p, m, events).machine;
    var seen := Seen(p, reached, next);
    AlertsExactly(p, series, m, events, i);
    InputProjects(p, series, reached, next, i);
    AcceptanceMovesForward(p, reached, next);
    CooledDownExactly(c.definition, Now(p, reached), StateOf(reached, series, c.definition.id), Judgements(p, m, events, c),
                      Alerts(p, m, events, c.definition.id), Judgement(seen, TruthOn(c, seen, SeenFeature(p, reached, next)), []));
  }

  lemma {:induction false} CooledDownExactly(d: Definition, s: SeriesState, st: DefinitionState, js: seq<Judgement>, alerts: seq<Alert>,
                                             next: Judgement)
    requires Recalls(s, st, d, js) && ReportsEach(alerts, d, Chosen(d, js)) && d.triggerMode.EveryMatch?
    requires next.observation.candle.openTime != ZERO_TIME && (js != [] ==> s.lastOpenTime <= next.observation.candle.openTime)
    ensures Triggers(d, next.observation, next.truth, st)
            <==> next.truth && (d.cooldownSeconds <= 0 || alerts == []
                                || alerts[|alerts| - 1].triggeredAt + d.cooldownSeconds * 1_000_000_000 <= next.observation.occurredAt)
  {
    DecidesAlike(d, s, st, js, next);
    if alerts != [] {
      assert Reports(alerts[|alerts| - 1], d, Chosen(d, js)[|alerts| - 1]);
    }
  }
}
