/**
 The evaluation of one series as a pure machine: the specification that Engine.EvaluateBatch
 refines, and the subject of the theorems about whole runs.

 A cell is what a partition keeps for one series. Delivering an observation changes only the
 batch's working copy; committing folds the working copy into the cell.
 */
module SeriesMachine {
  import opened Wrappers
  import opened Model
  import opened Keys
  import opened Rules
  import opened Routing

  /**
   AsWritten is the engine's cloneFeatureState, which loses the indicator baselines.
   AsIntended keeps them and exists only so that theorems can say what the loss costs.
   */
  datatype CloneMode = AsWritten | AsIntended

  datatype Policy = Policy(routes: Routes, clone: CloneMode)

  function Cloned(mode: CloneMode, f: Feature): Feature {
    if mode.AsWritten? then f.(indicators := map[]) else f
  }

  function ClonedSeries(mode: CloneMode, s: SeriesState): SeriesState {
    s.(confirmed := Cloned(mode, s.confirmed), intrabar := Cloned(mode, s.intrabar))
  }

  datatype Cell = Cell(state: Option<SeriesState>, definitions: map<string, DefinitionState>)

  datatype Work = Work(state: Option<SeriesState>, definitions: map<string, DefinitionState>, wasReset: bool)

  const EMPTY_CELL := Cell(None, map[])
  const NO_WORK := Work(None, map[], false)

  // ----- Cursor -----

  function StatusRank(status: Status): nat {
    if status.Confirmed? then 2 else 1
  }

  predicate Stale(o: Observation, s: SeriesState) {
    if s.lastOpenTime == ZERO_TIME then false
    else if o.candle.openTime != s.lastOpenTime then o.candle.openTime < s.lastOpenTime
    else if o.revision != s.lastRevision then o.revision < s.lastRevision
    else StatusRank(o.status) <= StatusRank(s.lastStatus)
  }

  predicate SpentReset(o: Observation, s: SeriesState) {
    || o.sourceEventId == s.lastResetId
    || (s.lastResetAt != ZERO_TIME && o.occurredAt <= s.lastResetAt)
  }

  predicate Rejects(s: SeriesState, o: Observation) {
    if o.reset then SpentReset(o, s) else Stale(o, s)
  }

  // ----- Definitions -----

  function EffectiveAt(d: Definition): Time {
    if d.effectiveAt != ZERO_TIME then d.effectiveAt else d.createdAt
  }

  predicate EnabledAt(d: Definition, eventTime: Time) {
    if d.enabled then EffectiveAt(d) <= eventTime else eventTime < EffectiveAt(d)
  }

  predicate AcceptsMode(mode: EvaluationMode, status: Status) {
    match mode
    case ConfirmedClose => status.Confirmed?
    case Intrabar => status.Provisional?
    case Both => status.Confirmed? || status.Provisional?
  }

  predicate Applies(c: Compiled, o: Observation) {
    && !(o.status.Provisional? && c.dependencies !! {OnCandle, OnIndicator})
    && EnabledAt(c.definition, o.occurredAt)
    && AcceptsMode(c.definition.evaluationMode, o.status)
  }

  function LastTruth(status: Status, st: DefinitionState): bool {
    if status.Provisional? then st.lastTruthIntrabar else st.lastTruthConfirmed
  }

  predicate ShouldTrigger(mode: TriggerMode, truth: bool, pulse: bool, openTime: Time, lastAlertBar: Time, lastTruth: bool) {
    && truth
    && match mode
       case EveryMatch => true
       case OncePerBar => lastAlertBar == ZERO_TIME || lastAlertBar != openTime
       case OnOccurrence => pulse || !lastTruth
  }

  predicate CoolingDown(d: Definition, at: Time, lastTriggerAt: Time) {
    0 < d.cooldownSeconds && lastTriggerAt != ZERO_TIME && at - lastTriggerAt < d.cooldownSeconds * SECOND
  }

  predicate Triggers(d: Definition, o: Observation, truth: bool, st: DefinitionState) {
    && ShouldTrigger(d.triggerMode, truth, Pulse(d.rule), o.candle.openTime, st.lastAlertBar, LastTruth(o.status, st))
    && !CoolingDown(d, o.occurredAt, st.lastTriggerAt)
  }

  function WithTruth(status: Status, truth: bool, st: DefinitionState): DefinitionState {
    if status.Provisional? then st.(lastTruthIntrabar := truth) else st.(lastTruthConfirmed := truth)
  }

  function Evaluated(d: Definition, o: Observation, truth: bool, st: DefinitionState): DefinitionState {
    var next := WithTruth(o.status, truth, st);
    if Triggers(d, o, truth, st)
    then next.(lastTriggerAt := o.occurredAt, lastAlertBar := o.candle.openTime)
    else next
  }

  function AlertOf(d: Definition, o: Observation, facts: seq<Fact>): Alert {
    Alert(AlertId(d.id, o.sourceEventId), d.id, d.version, o.sourceEventId, o.correlationId, o.series,
          o.occurredAt, facts, o.revision, o.status, o, false, 0)
  }

  function Find(definitions: map<string, DefinitionState>, key: string): DefinitionState {
    if key in definitions then definitions[key] else EMPTY_DEFINITION
  }

  /** Overlay first, then the partition's own entry unless the series was reset in this batch. */
  function Lookup(base: map<string, DefinitionState>, overlay: map<string, DefinitionState>, key: string): DefinitionState {
    if key in overlay then overlay[key] else Find(base, key)
  }

  datatype Evaluation = Evaluation(definitions: map<string, DefinitionState>, alerts: seq<Alert>)

  function EvaluateDefinition(c: Compiled, o: Observation, feature: Feature,
                              base: map<string, DefinitionState>, overlay: map<string, DefinitionState>): Evaluation {
    if !Applies(c, o) then Evaluation(overlay, [])
    else
      var d := c.definition;
      var key := DefinitionStateKey(d.id, o.series.Key());
      var st := Lookup(base, overlay, key);
      var verdict := Evaluate(d.rule, o, feature);
      Evaluation(overlay[key := Evaluated(d, o, verdict.Truth(), st)],
                 if Triggers(d, o, verdict.Truth(), st) then [AlertOf(d, o, verdict.facts)] else [])
  }

  function EvaluateDefinitions(cs: seq<Compiled>, o: Observation, feature: Feature,
                               base: map<string, DefinitionState>, overlay: map<string, DefinitionState>): Evaluation
  {
    if cs == [] then Evaluation(overlay, [])
    else
      var before := EvaluateDefinitions(cs[..|cs| - 1], o, feature, base, overlay);
      var last := EvaluateDefinition(cs[|cs| - 1], o, feature, base, before.definitions);
      Evaluation(last.definitions, before.alerts + last.alerts)
  }

  // ----- Resets -----

  function BarObservation(bar: Candle): Observation {
    Observation("", "", "", ZERO_TIME, Status.Confirmed, 0, false, [], Series("", "", ""), None, bar, [], [], [], [])
  }

  /** Features after nothing but the given confirmed bars. */
  function Replayed(bars: seq<Candle>): Feature {
    if bars == [] then EMPTY_FEATURE
    else Advanced(Replayed(bars[..|bars| - 1]), BarObservation(bars[|bars| - 1]))
  }

  function Seeded(c: Compiled, o: Observation, feature: Feature, st: DefinitionState): DefinitionState {
    st.(lastTruthConfirmed := Evaluate(c.definition.rule, o, feature).Truth(), lastTruthIntrabar := false)
  }

  /** Truth edges after a reset; the trigger times come from the partition, not from the batch. */
  function SeedDefinitions(cs: seq<Compiled>, o: Observation, feature: Feature,
                           partition: map<string, DefinitionState>, overlay: map<string, DefinitionState>)
    : map<string, DefinitionState>
  {
    if cs == [] then overlay
    else
      var c := cs[|cs| - 1];
      var before := SeedDefinitions(cs[..|cs| - 1], o, feature, partition, overlay);
      var key := DefinitionStateKey(c.definition.id, o.series.Key());
      if !AcceptsMode(c.definition.evaluationMode, Status.Confirmed) then before
      else before[key := Seeded(c, o, feature, Find(partition, key))]
  }

  function ResetState(mode: CloneMode, o: Observation): SeriesState {
    var confirmed := Advanced(Replayed(o.history), o);
    SeriesState(o.candle.openTime, o.revision, o.status, o.sourceEventId, o.occurredAt,
                confirmed, Cloned(mode, confirmed), o.activeZones)
  }

  // ----- One observation -----

  /** The series state an observation meets. */
  function Current(p: Policy, cell: Cell, work: Work): SeriesState {
    if work.state.Some? then work.state.value else ClonedSeries(p.clone, cell.state.GetOr(EMPTY_SERIES))
  }

  /** The definition entries an observation can fall back on. */
  function Base(cell: Cell, work: Work): map<string, DefinitionState> {
    if work.wasReset then map[] else cell.definitions
  }

  /** A provisional frame without zones inherits the series' zones. */
  function WithZones(o: Observation, s: SeriesState): Observation {
    if o.status.Provisional? && o.activeZones == [] then o.(activeZones := s.activeZones) else o
  }

  function FeatureFor(mode: CloneMode, o: Observation, s: SeriesState): Feature {
    if !o.status.Provisional? then s.confirmed
    else if s.intrabar.lastClose.None? && s.confirmed.lastClose.Some? then Cloned(mode, s.confirmed)
    else s.intrabar
  }

  function ObservedState(mode: CloneMode, o: Observation, feature: Feature, s: SeriesState): SeriesState {
    var advanced := if o.status.Confirmed? then Advanced(s.confirmed, o) else Advanced(feature, o);
    s.(confirmed := if o.status.Confirmed? then advanced else s.confirmed,
       intrabar := if o.status.Confirmed? then Cloned(mode, advanced) else advanced,
       activeZones := if o.activeZones != [] then o.activeZones else s.activeZones,
       lastOpenTime := o.candle.openTime,
       lastRevision := o.revision,
       lastStatus := o.status)
  }

  datatype Delivered = Delivered(work: Work, alerts: seq<Alert>)

  function Deliver(p: Policy, cell: Cell, work: Work, input: Observation): Delivered {
    var s := Current(p, cell, work);
    var cs := DefinitionsFor(p.routes, input.series);
    if Rejects(s, input) then Delivered(work, [])
    else if input.reset then
      var seeded := SeedDefinitions(cs, input, Replayed(input.history), cell.definitions, map[]);
      Delivered(Work(Some(ResetState(p.clone, input)), seeded, true), [])
    else
      var o := WithZones(input, s);
      var feature := FeatureFor(p.clone, o, s);
      var e := EvaluateDefinitions(cs, o, feature, Base(cell, work), work.definitions);
      Delivered(Work(Some(ObservedState(p.clone, o, feature, s)), e.definitions, work.wasReset), e.alerts)
  }

  function Committed(p: Policy, cell: Cell, work: Work): Cell {
    if work.state.None? then cell
    else Cell(Some(ClonedSeries(p.clone, work.state.value)), Base(cell, work) + work.definitions)
  }

  // ----- Runs -----

  datatype Event = Input(observation: Observation) | Commit

  /** fired says whether the open batch has already emitted an alert for this series. */
  datatype Machine = Machine(cell: Cell, work: Work, fired: bool)

  datatype Outcome = Outcome(machine: Machine, alerts: seq<Alert>)

  function Start(cell: Cell): Machine {
    Machine(cell, NO_WORK, false)
  }

  function Step(p: Policy, m: Machine, e: Event): Outcome {
    match e
    case Commit => Outcome(Start(Committed(p, m.cell, m.work)), [])
    case Input(o) =>
      var d := Deliver(p, m.cell, m.work, o);
      Outcome(Machine(m.cell, d.work, m.fired || d.alerts != []), d.alerts)
  }

  function Run(p: Policy, m: Machine, events: seq<Event>): Outcome {
    if events == [] then Outcome(m, [])
    else
      var before := Run(p, m, events[..|events| - 1]);
      var last := Step(p, before.machine, events[|events| - 1]);
      Outcome(last.machine, before.alerts + last.alerts)
  }

  /** The state the next observation of the series will meet, batch boundary or not. */
  function Now(p: Policy, m: Machine): SeriesState {
    Current(p, m.cell, m.work)
  }

  /** The definition states the next observation of the series will meet. */
  function Effective(m: Machine): map<string, DefinitionState> {
    Base(m.cell, m.work) + m.work.definitions
  }

  predicate Accepts(p: Policy, m: Machine, o: Observation) {
    !Rejects(Now(p, m), o)
  }

  lemma {:induction false} RunSnoc(p: Policy, m: Machine, events: seq<Event>, e: Event)
    ensures Run(p, m, events + [e]) ==
            var before := Run(p, m, events);
            var last := Step(p, before.machine, e);
            Outcome(last.machine, before.alerts + last.alerts)
  {
    assert (events + [e])[..|events|] == events;
  }

  lemma {:induction false} RunConcat(p: Policy, m: Machine, xs: seq<Event>, ys: seq<Event>)
    ensures Run(p, m, xs + ys) ==
            var first := Run(p, m, xs);
            var second := Run(p, first.machine, ys);
            Outcome(second.machine, first.alerts + second.alerts)
    decreases |ys|
  {
    if ys == [] {
      NothingAdded(xs, Run(p, m, xs).alerts);
    } else {
      RunConcat(p, m, xs, ys[..|ys| - 1]);
      RunConcatSnoc(p, m, xs, ys[..|ys| - 1], ys[|ys| - 1]);
      LastEvent(ys);
    }
  }

  lemma {:induction false} NothingAdded(events: seq<Event>, alerts: seq<Alert>)
    ensures events + [] == events && alerts + [] == alerts
  {
  }

  lemma {:induction false} LastEvent(events: seq<Event>)
    requires events != []
    ensures events == events[..|events| - 1] + [events[|events| - 1]]
  {
  }

  /** One more event behind both stretches. */
  lemma {:induction false} RunConcatSnoc(p: Policy, m: Machine, xs: seq<Event>, ys: seq<Event>, e: Event)
    requires Run(p, m, xs + ys)
             == Outcome(Run(p, Run(p, m, xs).machine, ys).machine, Run(p, m, xs).alerts + Run(p, Run(p, m, xs).machine, ys).alerts)
    ensures Run(p, m, xs + (ys + [e]))
            == Outcome(Run(p, Run(p, m, xs).machine, ys + [e]).machine,
                       Run(p, m, xs).alerts + Run(p, Run(p, m, xs).machine, ys + [e]).alerts)
  {
    var first := Run(p, m, xs);
    var before := Run(p, first.machine, ys);
    ConcatSnoc(xs, ys, e);
    RunSnoc(p, m, xs + ys, e);
    RunSnoc(p, first.machine, ys, e);
    Associative(first.alerts, before.alerts, Step(p, before.machine, e).alerts);
  }

  lemma {:induction false} ConcatSnoc(xs: seq<Event>, ys: seq<Event>, e: Event)
    ensures xs + (ys + [e]) == (xs + ys) + [e]
  {
  }

  lemma {:induction false} Associative(a: seq<Alert>, b: seq<Alert>, c: seq<Alert>)
    ensures (a + b) + c == a + (b + c)
  {
  }

  /** What the engine's validation gate guarantees about the fields the machine reads. */
  predicate Gated(o: Observation) {
    && o.sourceEventId != "" && o.candle.openTime != ZERO_TIME && o.occurredAt != ZERO_TIME
    && (o.status.Confirmed? || o.status.Provisional?)
    && (o.reset ==> o.status.Confirmed?)
  }
}
