/**
 One batch of the engine (internal/runtime/engine.go): the loop of EvaluateBatch over its overlay
 maps, proved to compute every series' own machine.
 */
module BatchEvaluation {
  import opened Wrappers
  import opened Model
  import opened Keys
  import opened Rules
  import opened Routing
  import opened SeriesMachine
  import opened Features
  import opened MemoryStore
  import opened PartitionCells
  import opened DefinitionView

  class Partition {
    var series: map<string, SeriesRecord>
    var definitions: map<string, DefinitionState>

    constructor ()
      ensures series == map[] && definitions == map[]
    {
      series, definitions := map[], map[];
    }
  }

  // ----- Views of record maps -----

  function StateAt(records: map<string, SeriesRecord>, seriesKey: string): Option<SeriesState>
    reads RecordTables(records)
  {
    if seriesKey in records then Some(records[seriesKey].View()) else None
  }

  /** Which series a table of the overlay belongs to. */
  type Owner = map<IndicatorTable, string>

  /** Every table of the overlay belongs to one series, and the two cadences of a series share none. */
  ghost predicate Owned(records: map<string, SeriesRecord>, owner: Owner) {
    forall k :: k in records ==> OwnedBy(records[k], k, owner)
  }

  ghost predicate OwnedBy(record: SeriesRecord, seriesKey: string, owner: Owner) {
    record.Separated() && forall t :: t in record.Tables() ==> t in owner && owner[t] == seriesKey
  }

  predicate Statuses(observations: seq<Observation>) {
    forall i :: 0 <= i < |observations| ==> observations[i].status.Confirmed? || observations[i].status.Provisional?
  }

  // ----- One observation -----

  /** What the loop body does to the overlay for one accepted input. */
  datatype Overlay = Overlay(
    seriesStates: map<string, SeriesRecord>,
    definitionStates: map<string, DefinitionState>,
    resetSeries: set<string>)

  const NO_OVERLAY := Overlay(map[], map[], {})

  /** Every table reference of a record map. */
  function RecordTables(records: map<string, SeriesRecord>): set<IndicatorTable?> {
    (set k | k in records :: records[k].confirmed.indicators) + (set k | k in records :: records[k].intrabar.indicators)
  }

  /** The partition's records, whose tables no overlay record shares. */
  ghost predicate Shielded(committed: map<string, SeriesRecord>, series: map<string, SeriesState>, owner: Owner)
    reads RecordTables(committed)
  {
    && committed.Keys == series.Keys
    && forall k :: k in committed ==>
         committed[k].View() == series[k] && forall t :: t in committed[k].Tables() ==> t !in owner
  }

  /** The views of the overlay's records. */
  ghost predicate Viewed(records: map<string, SeriesRecord>, views: map<string, SeriesState>)
    reads RecordTables(records)
  {
    records.Keys == views.Keys && forall k :: k in records ==> records[k].View() == views[k]
  }

  /** ... except perhaps one. */
  ghost predicate ViewedBut(records: map<string, SeriesRecord>, views: map<string, SeriesState>, seriesKey: string)
    reads RecordTables(records)
  {
    records.Keys == views.Keys && forall k :: k in records && k != seriesKey ==> records[k].View() == views[k]
  }

  function WorkOf(overlay: Overlay, views: map<string, SeriesState>, seriesKey: string): Work {
    Work(if seriesKey in views then Some(views[seriesKey]) else None,
         DefinitionsOf(overlay.definitionStates, seriesKey), seriesKey in overlay.resetSeries)
  }

  /** A clone of the partition's record, or an empty one. */
  method CloneState(committed: map<string, SeriesRecord>, seriesKey: string) returns (state: SeriesRecord)
    ensures state.View() == ClonedSeries(AsWritten, StateAt(committed, seriesKey).GetOr(EMPTY_SERIES))
    ensures state.Separated() && fresh(state.Tables())
  {
    if seriesKey in committed {
      state := CloneSeries(committed[seriesKey]);
    } else {
      EmptyRecordIsEmpty();
      state := CloneSeries(EMPTY_SERIES_RECORD);
    }
  }

  function StaleRecord(o: Observation, s: SeriesRecord): bool
    reads s.confirmed.indicators, s.intrabar.indicators
  {
    Rejects(s.View(), o)
  }

  /** The truth edges after a reset, written into the overlay. */
  method SeedAll(cs: seq<Compiled>, input: Observation, feature: FeatureRecord, committed: map<string, DefinitionState>,
                 definitionStates: map<string, DefinitionState>) returns (seeded: map<string, DefinitionState>)
    requires BarFreeIds(cs)
    ensures var k := input.series.Key();
            && DefinitionsOf(seeded, k) == SeedDefinitions(cs, input, feature.View(), DefinitionsOf(committed, k),
                                                           DefinitionsOf(definitionStates, k))
            && AgreeOff(definitionStates, seeded, k)
  {
    var k := input.series.Key();
    ghost var own, overlay := DefinitionsOf(committed, k), DefinitionsOf(definitionStates, k);
    seeded := definitionStates;
    for i := 0 to |cs|
      invariant DefinitionsOf(seeded, k) == SeedDefinitions(cs[..i], input, feature.View(), own, overlay)
      invariant AgreeOff(definitionStates, seeded, k)
    {
      assert cs[..i + 1][..i] == cs[..i];
      BarFreeAt(cs, i);
      var definition := cs[i].definition;
      if AcceptsMode(definition.evaluationMode, Status.Confirmed) {
        var stateKey := DefinitionStateKey(definition.id, k);
        var definitionState := Find(committed, stateKey);
        var truth := Evaluate(definition.rule, input, feature.View()).Truth();
        definitionState := definitionState.(lastTruthConfirmed := truth, lastTruthIntrabar := false);
        FindInSeries(committed, k, definition.id);
        UpdateInSeries(seeded, k, definition.id, definitionState);
        seeded := seeded[stateKey := definitionState];
      }
    }
    assert cs[..|cs|] == cs;
  }

  /** Evaluates the applicable definitions against one observation, writing the overlay. */
  method EvaluateAll(cs: seq<Compiled>, o: Observation, feature: FeatureRecord, committed: map<string, DefinitionState>, wasReset: bool,
                     definitionStates: map<string, DefinitionState>)
    returns (evaluated: map<string, DefinitionState>, alerts: seq<Alert>)
    requires BarFreeIds(cs)
    ensures var k := o.series.Key();
            var base := if wasReset then map[] else DefinitionsOf(committed, k);
            var e := EvaluateDefinitions(cs, o, feature.View(), base, DefinitionsOf(definitionStates, k));
            DefinitionsOf(evaluated, k) == e.definitions && alerts == e.alerts && AgreeOff(definitionStates, evaluated, k)
  {
    var k := o.series.Key();
    ghost var base := if wasReset then map[] else DefinitionsOf(committed, k);
    ghost var overlay := DefinitionsOf(definitionStates, k);
    evaluated, alerts := definitionStates, [];
    for i := 0 to |cs|
      invariant DefinitionsOf(evaluated, k) == EvaluateDefinitions(cs[..i], o, feature.View(), base, overlay).definitions
      invariant alerts == EvaluateDefinitions(cs[..i], o, feature.View(), base, overlay).alerts
      invariant AgreeOff(definitionStates, evaluated, k)
    {
      assert cs[..i + 1][..i] == cs[..i];
      BarFreeAt(cs, i);
      var next, more := EvaluateOne(cs[i], o, feature, committed, wasReset, evaluated);
      evaluated, alerts := next, alerts + more;
    }
    assert cs[..|cs|] == cs;
  }

  method EvaluateOne(c: Compiled, o: Observation, feature: FeatureRecord, committed: map<string, DefinitionState>, wasReset: bool,
                     definitionStates: map<string, DefinitionState>)
    returns (evaluated: map<string, DefinitionState>, alerts: seq<Alert>)
    requires BarFree(c.definition.id)
    ensures var k := o.series.Key();
            var base := if wasReset then map[] else DefinitionsOf(committed, k);
            var e := EvaluateDefinition(c, o, feature.View(), base, DefinitionsOf(definitionStates, k));
            DefinitionsOf(evaluated, k) == e.definitions && alerts == e.alerts && AgreeOff(definitionStates, evaluated, k)
  {
    evaluated, alerts := definitionStates, [];
    var definition := c.definition;
    if o.status.Provisional? && c.dependencies !! {OnCandle, OnIndicator} {
      return;
    }
    if !EnabledAt(definition, o.occurredAt) || !AcceptsMode(definition.evaluationMode, o.status) {
      return;
    }
    var k := o.series.Key();
    var stateKey := DefinitionStateKey(definition.id, k);
    FindInSeries(committed, k, definition.id);
    FindInSeries(definitionStates, k, definition.id);
    var definitionState := EMPTY_DEFINITION;
    if stateKey in definitionStates {
      definitionState := definitionStates[stateKey];
    } else if !wasReset {
      definitionState := Find(committed, stateKey);
    }
    var verdict := Evaluate(definition.rule, o, feature.View());
    var truth := verdict.Truth();
    var lastTruth := if o.status.Provisional? then definitionState.lastTruthIntrabar else definitionState.lastTruthConfirmed;
    var trigger := ShouldTrigger(definition.triggerMode, truth, Pulse(definition.rule), o.candle.openTime,
                                 definitionState.lastAlertBar, lastTruth);
    if trigger && CoolingDown(definition, o.occurredAt, definitionState.lastTriggerAt) {
      trigger := false;
    }
    if o.status.Provisional? {
      definitionState := definitionState.(lastTruthIntrabar := truth);
    } else {
      definitionState := definitionState.(lastTruthConfirmed := truth);
    }
    if trigger {
      definitionState := definitionState.(lastTriggerAt := o.occurredAt, lastAlertBar := o.candle.openTime);
      alerts := [AlertOf(definition, o, verdict.facts)];
    }
    UpdateInSeries(definitionStates, k, definition.id, definitionState);
    evaluated := definitionStates[stateKey := definitionState];
  }

  /** Replays the bars of a reset into a new feature record. */
  method ReplayHistory(bars: seq<Candle>) returns (feature: FeatureRecord)
    ensures feature.View() == Replayed(bars) && fresh(feature.Tables())
  {
    feature := EMPTY_RECORD;
    for i := 0 to |bars|
      invariant feature.View() == Replayed(bars[..i]) && fresh(feature.Tables())
    {
      assert bars[..i + 1][..i] == bars[..i];
      feature := Advance(feature, BarObservation(bars[i]));
    }
    assert bars[..|bars|] == bars;
  }

  /** The reset branch: a new series state and new truth edges, no alerts. */
  method TakeReset(committed: map<string, DefinitionState>, cs: seq<Compiled>, input: Observation,
                   definitionStates: map<string, DefinitionState>)
    returns (state: SeriesRecord, seeded: map<string, DefinitionState>)
    requires BarFreeIds(cs)
    ensures state.View() == ResetState(AsWritten, input) && state.Separated() && fresh(state.Tables())
    ensures var k := input.series.Key();
            && DefinitionsOf(seeded, k)
               == SeedDefinitions(cs, input, Replayed(input.history), DefinitionsOf(committed, k), map[])
            && AgreeOff(definitionStates, seeded, k)
  {
    var k := input.series.Key();
    var dropped := DropSeries(definitionStates, k);
    assert DefinitionsOf(dropped, k) == map[];
    assert AgreeOff(definitionStates, dropped, k);
    var feature := ReplayHistory(input.history);
    seeded := SeedAll(cs, input, feature, committed, dropped);
    var confirmed := Advance(feature, input);
    var intrabar := CloneFeature(confirmed);
    state := SeriesRecord(input.candle.openTime, input.revision, input.status, input.sourceEventId, input.occurredAt,
                          confirmed, intrabar, input.activeZones);
  }

  /** The feature record of the observation's cadence; a first provisional frame starts from the confirmed one. */
  method SelectFeature(state: SeriesRecord, o: Observation) returns (feature: FeatureRecord)
    requires o.status.Confirmed? || o.status.Provisional?
    ensures feature.View() == FeatureFor(AsWritten, o, state.View())
    ensures o.status.Confirmed? ==> feature == state.confirmed
    ensures o.status.Provisional? ==> feature == state.intrabar || fresh(feature.Tables())
  {
    feature := state.confirmed;
    if o.status.Provisional? {
      feature := state.intrabar;
      if feature.lastClose.None? && state.confirmed.lastClose.Some? {
        feature := CloneFeature(state.confirmed);
      }
    }
  }

  /** Advances one cadence in place; a confirmed bar also restarts the intrabar features. */
  method AdvanceSeries(state: SeriesRecord, o: Observation, feature: FeatureRecord) returns (next: SeriesRecord)
    requires o.status.Confirmed? || o.status.Provisional?
    requires state.Separated() && (o.status.Provisional? ==> feature.Tables() !! state.confirmed.Tables())
    modifies state.Tables(), feature.Tables()
    ensures next.View() == ObservedState(AsWritten, o, old(feature.View()), old(state.View()))
    ensures next.Separated()
    ensures forall t :: t in next.Tables() ==> t in state.Tables() || t in feature.Tables() || fresh(t)
  {
    next := state;
    if o.status.Confirmed? {
      var confirmed := Advance(state.confirmed, o);
      var intrabar := CloneFeature(confirmed);
      next := next.(confirmed := confirmed, intrabar := intrabar);
    } else {
      var intrabar := Advance(feature, o);
      next := next.(intrabar := intrabar);
    }
    if |o.activeZones| > 0 {
      next := next.(activeZones := o.activeZones);
    }
    next := next.(lastOpenTime := o.candle.openTime, lastRevision := o.revision, lastStatus := o.status);
  }

  /** The ordinary branch: evaluate, then advance the features of the observation's cadence. */
  method TakeInput(committed: map<string, DefinitionState>, cs: seq<Compiled>, input: Observation, state: SeriesRecord, wasReset: bool,
                   definitionStates: map<string, DefinitionState>)
    returns (next: SeriesRecord, evaluated: map<string, DefinitionState>, alerts: seq<Alert>)
    requires BarFreeIds(cs) && state.Separated()
    requires input.status.Confirmed? || input.status.Provisional?
    modifies state.Tables()
    ensures var s := old(state.View());
            var o := WithZones(input, s);
            var feature := FeatureFor(AsWritten, o, s);
            var k := input.series.Key();
            var base := if wasReset then map[] else DefinitionsOf(committed, k);
            var e := EvaluateDefinitions(cs, o, feature, base, DefinitionsOf(definitionStates, k));
            && next.View() == ObservedState(AsWritten, o, feature, s)
            && DefinitionsOf(evaluated, k) == e.definitions && alerts == e.alerts
            && AgreeOff(definitionStates, evaluated, k)
    ensures next.Separated()
    ensures forall t :: t in next.Tables() ==> t in state.Tables() || fresh(t)
  {
    var o := input;
    if o.status.Provisional? && |o.activeZones| == 0 {
      o := o.(activeZones := state.activeZones);
    }
    var feature := SelectFeature(state, o);
    evaluated, alerts := EvaluateAll(cs, o, feature, committed, wasReset, definitionStates);
    next := AdvanceSeries(state, o, feature);
  }

  // ----- One turn of the batch loop -----

  /** The input is about to be taken by its series: its definitions, and the series' share of partition and overlay. */
  ghost predicate Ready(p: Policy, cs: seq<Compiled>, input: Observation, committed: map<string, DefinitionState>,
                        overlay: Overlay, cell: Cell, work: Work) {
    var k := input.series.Key();
    && p.clone == AsWritten && cs == DefinitionsFor(p.routes, input.series) && BarFreeIds(cs)
    && (input.status.Confirmed? || input.status.Provisional?)
    && cell.definitions == DefinitionsOf(committed, k)
    && work.definitions == DefinitionsOf(overlay.definitionStates, k) && work.wasReset == (k in overlay.resetSeries)
  }

  /** The record is the state the input meets, and the input is not stale. */
  ghost predicate Meets(p: Policy, cell: Cell, work: Work, input: Observation, state: SeriesRecord)
    reads state.confirmed.indicators, state.intrabar.indicators
  {
    state.View() == Current(p, cell, work) && !Rejects(state.View(), input)
  }

  /** The results are what the series' machine delivers, and no other series' definition states change. */
  ghost predicate Delivers(p: Policy, cell: Cell, work: Work, input: Observation, overlay: Overlay, record: SeriesRecord,
                           definitionStates: map<string, DefinitionState>, emitted: seq<Alert>)
    reads record.confirmed.indicators, record.intrabar.indicators
  {
    var k := input.series.Key();
    && Deliver(p, cell, work, input)
       == Delivered(Work(Some(record.View()), DefinitionsOf(definitionStates, k), input.reset || work.wasReset), emitted)
    && AgreeOff(overlay.definitionStates, definitionStates, k) && record.Separated()
  }

  /** An accepted input: the new record, the new definition states and the alerts of its series. */
  method Accept(committed: map<string, DefinitionState>, ghost p: Policy, cs: seq<Compiled>, input: Observation, overlay: Overlay,
                state: SeriesRecord, ghost cell: Cell, ghost work: Work)
    returns (record: SeriesRecord, definitionStates: map<string, DefinitionState>, emitted: seq<Alert>)
    requires Ready(p, cs, input, committed, overlay, cell, work) && Meets(p, cell, work, input, state) && state.Separated()
    modifies state.Tables()
    ensures Delivers(p, cell, work, input, overlay, record, definitionStates, emitted)
    ensures forall t :: t in record.Tables() ==> t in state.Tables() || fresh(t)
  {
    if input.reset {
      record, definitionStates := TakeReset(committed, cs, input, overlay.definitionStates);
      emitted := [];
    } else {
      record, definitionStates, emitted :=
        TakeInput(committed, cs, input, state, input.series.Key() in overlay.resetSeries, overlay.definitionStates);
    }
  }

  /** ... without touching the features of any other series, although tables are written in place. */
  method AcceptAmong(committed: map<string, DefinitionState>, ghost p: Policy, cs: seq<Compiled>, input: Observation, overlay: Overlay,
                     state: SeriesRecord, ghost cell: Cell, ghost work: Work, ghost views: map<string, SeriesState>,
                     ghost owner: Owner)
    returns (record: SeriesRecord, definitionStates: map<string, DefinitionState>, emitted: seq<Alert>)
    requires Ready(p, cs, input, committed, overlay, cell, work) && Meets(p, cell, work, input, state)
    requires Owned(overlay.seriesStates, owner) && OwnedBy(state, input.series.Key(), owner)
    requires Viewed(overlay.seriesStates, views)
    modifies state.Tables()
    ensures Delivers(p, cell, work, input, overlay, record, definitionStates, emitted)
    ensures ViewedBut(overlay.seriesStates, views, input.series.Key())
    ensures forall t :: t in record.Tables() ==> t in state.Tables() || fresh(t)
  {
    record, definitionStates, emitted := Accept(committed, p, cs, input, overlay, state, cell, work);
  }

  /** ... nor anything the partition holds. */
  method AcceptApart(committed: map<string, DefinitionState>, ghost p: Policy, cs: seq<Compiled>, input: Observation, overlay: Overlay,
                     state: SeriesRecord, ghost cell: Cell, ghost work: Work, ghost views: map<string, SeriesState>,
                     ghost owner: Owner, ghost records: map<string, SeriesRecord>, ghost series: map<string, SeriesState>)
    returns (record: SeriesRecord, definitionStates: map<string, DefinitionState>, emitted: seq<Alert>)
    requires Ready(p, cs, input, committed, overlay, cell, work) && Meets(p, cell, work, input, state)
    requires Owned(overlay.seriesStates, owner) && OwnedBy(state, input.series.Key(), owner)
    requires Viewed(overlay.seriesStates, views) && Shielded(records, series, owner)
    modifies state.Tables()
    ensures Delivers(p, cell, work, input, overlay, record, definitionStates, emitted)
    ensures ViewedBut(overlay.seriesStates, views, input.series.Key()) && Shielded(records, series, owner)
    ensures forall k, t :: k in records && t in records[k].Tables() ==> t !in record.Tables()
    ensures fresh(record.Tables() - state.Tables())
  {
    record, definitionStates, emitted := AcceptAmong(committed, p, cs, input, overlay, state, cell, work, views, owner);
  }

  /** The overlay after the loop body stored its results for one series. */
  function Stored(overlay: Overlay, seriesKey: string, record: SeriesRecord,
                  definitionStates: map<string, DefinitionState>, reset: bool): Overlay {
    Overlay(overlay.seriesStates[seriesKey := record], definitionStates,
            if reset then overlay.resetSeries + {seriesKey} else overlay.resetSeries)
  }

  lemma StoringMovesOneSeries(overlay: Overlay, views: map<string, SeriesState>, k: string, record: SeriesRecord,
                              view: SeriesState, definitionStates: map<string, DefinitionState>, reset: bool)
    requires AgreeOff(overlay.definitionStates, definitionStates, k)
    ensures var next := Stored(overlay, k, record, definitionStates, reset);
            && WorkOf(next, views[k := view], k)
               == Work(Some(view), DefinitionsOf(definitionStates, k), reset || k in overlay.resetSeries)
            && forall j :: j != k ==> WorkOf(next, views[k := view], j) == WorkOf(overlay, views, j)
  {
    forall j | j != k
      ensures DefinitionsOf(definitionStates, j) == DefinitionsOf(overlay.definitionStates, j)
    {
      OthersKeepTheirStates(overlay.definitionStates, definitionStates, k, j);
    }
  }

  /** Storing a record keeps the owners and the views of the overlay exact. */
  lemma StoringKeepsViews(records: map<string, SeriesRecord>, views: map<string, SeriesState>, owner: Owner,
                          k: string, record: SeriesRecord, owner': Owner)
    requires Owned(records, owner) && ViewedBut(records, views, k)
    requires OwnedBy(record, k, owner') && forall t :: t in owner ==> t in owner' && owner'[t] == owner[t]
    ensures Owned(records[k := record], owner') && Viewed(records[k := record], views[k := record.View()])
  {
    forall j | j in records && j != k
      ensures OwnedBy(records[j], j, owner')
    {
      assert OwnedBy(records[j], j, owner);
    }
  }

  /** The overlay with one more record: the views and the owners stay exact, and one series' share moves. */
  lemma StoringOneRecord(overlay: Overlay, k: string, record: SeriesRecord, definitionStates: map<string, DefinitionState>,
                         reset: bool, views: map<string, SeriesState>, owner: Owner, owner': Owner)
    requires Owned(overlay.seriesStates, owner) && ViewedBut(overlay.seriesStates, views, k)
    requires AgreeOff(overlay.definitionStates, definitionStates, k)
    requires record.Separated() && forall t :: t in record.Tables() && t in owner ==> owner[t] == k
    requires owner' == owner + map t | t in record.Tables() :: k
    ensures var next, views' := Stored(overlay, k, record, definitionStates, reset), views[k := record.View()];
            && Viewed(next.seriesStates, views') && Owned(next.seriesStates, owner')
            && WorkOf(next, views', k)
               == Work(Some(record.View()), DefinitionsOf(definitionStates, k), reset || k in overlay.resetSeries)
            && forall j :: j != k ==> WorkOf(next, views', j) == WorkOf(overlay, views, j)
  {
    StoringKeepsViews(overlay.seriesStates, views, owner, k, record, owner');
    StoringMovesOneSeries(overlay, views, k, record, record.View(), definitionStates, reset);
  }

  /** Stores an accepted input: its own series' share of the overlay moves as its machine moves, no other share does. */
  method AcceptAndStore(committed: map<string, DefinitionState>, ghost p: Policy, cs: seq<Compiled>, input: Observation, overlay: Overlay,
                        state: SeriesRecord, ghost cell: Cell, ghost views: map<string, SeriesState>, ghost owner: Owner,
                        ghost records: map<string, SeriesRecord>, ghost series: map<string, SeriesState>)
    returns (next: Overlay, emitted: seq<Alert>, ghost views': map<string, SeriesState>, ghost owner': Owner)
    requires Ready(p, cs, input, committed, overlay, cell, WorkOf(overlay, views, input.series.Key()))
    requires Meets(p, cell, WorkOf(overlay, views, input.series.Key()), input, state)
    requires Owned(overlay.seriesStates, owner) && OwnedBy(state, input.series.Key(), owner)
    requires Viewed(overlay.seriesStates, views) && Shielded(records, series, owner)
    modifies state.Tables()
    ensures Viewed(next.seriesStates, views') && Owned(next.seriesStates, owner')
    ensures fresh(owner'.Keys - owner.Keys) && Shielded(records, series, owner')
    ensures var k := input.series.Key();
            var d := Deliver(p, cell, WorkOf(overlay, views, k), input);
            WorkOf(next, views', k) == d.work && emitted == d.alerts
    ensures forall j :: j != input.series.Key() ==> WorkOf(next, views', j) == WorkOf(overlay, views, j)
    ensures input.series.Key() in views'
  {
    var k := input.series.Key();
    ghost var work := WorkOf(overlay, views, k);
    var record, definitionStates, alerts := AcceptApart(committed, p, cs, input, overlay, state, cell, work, views, owner, records, series);
    owner' := owner + map t | t in record.Tables() :: k;
    StoringOneRecord(overlay, k, record, definitionStates, input.reset, views, owner, owner');
    next := Stored(overlay, k, record, definitionStates, input.reset);
    emitted, views' := alerts, views[k := record.View()];
  }

  // ----- The batch loop -----

  /** Every series' share of the overlay is what its own machine has worked out so far. */
  ghost predicate Tracks(p: Policy, cells: Cells, overlay: Overlay, views: map<string, SeriesState>,
                         observations: seq<Observation>, n: nat)
    requires n <= |observations|
  {
    forall k {:trigger WorkOf(overlay, views, k)} ::
      WorkOf(overlay, views, k) == Reached(p, cells, k, observations[..n]).work
  }

  lemma ReachedIsTidy(p: Policy, cells: Cells, seriesKey: string, observations: seq<Observation>)
    ensures var m := Reached(p, cells, seriesKey, observations);
            Tidy(m) && m.cell == cells.At(seriesKey)
  {
    RunStaysTidy(p, Start(cells.At(seriesKey)), EventsOf(seriesKey, observations));
    EventsAreInputs(seriesKey, observations);
    RunKeepsCell(p, Start(cells.At(seriesKey)), EventsOf(seriesKey, observations));
  }

  /** The overlay moves by what one input delivers to its own series. */
  ghost predicate Moves(p: Policy, cells: Cells, input: Observation, overlay: Overlay, views: map<string, SeriesState>,
                        next: Overlay, views': map<string, SeriesState>, emitted: seq<Alert>) {
    var k := input.series.Key();
    var d := Deliver(p, cells.At(k), WorkOf(overlay, views, k), input);
    && WorkOf(next, views', k) == d.work && emitted == d.alerts
    && forall j {:trigger WorkOf(next, views', j)} :: j != k ==> WorkOf(next, views', j) == WorkOf(overlay, views, j)
  }

  lemma MovingKeepsTrack(p: Policy, cells: Cells, observations: seq<Observation>, i: nat,
                         overlay: Overlay, views: map<string, SeriesState>,
                         next: Overlay, views': map<string, SeriesState>, emitted: seq<Alert>)
    requires i < |observations| && Tracks(p, cells, overlay, views, observations, i)
    requires Moves(p, cells, observations[i], overlay, views, next, views', emitted)
    ensures Tracks(p, cells, next, views', observations, i + 1)
    ensures Emitted(p, cells, observations[..i + 1]) == Emitted(p, cells, observations[..i]) + emitted
  {
    var k := observations[i].series.Key();
    ReachedIsTidy(p, cells, k, observations[..i]);
    forall j
      ensures WorkOf(next, views', j) == Reached(p, cells, j, observations[..i + 1]).work
    {
      OneMoreInput(p, cells, j, observations, i);
    }
    assert observations[..i + 1][..i] == observations[..i];
  }

  lemma OwnersGrow(records: map<string, SeriesRecord>, owner: Owner, owner': Owner)
    requires Owned(records, owner) && forall t :: t in owner ==> t in owner' && owner'[t] == owner[t]
    ensures Owned(records, owner')
  {
    forall j | j in records
      ensures OwnedBy(records[j], j, owner')
    {
      assert OwnedBy(records[j], j, owner);
    }
  }

  /** The overlay's record of a series, or a clone of the partition's, owned by the series. */
  method OwnState(committed: map<string, SeriesRecord>, seriesStates: map<string, SeriesRecord>, k: string, ghost owner: Owner)
    returns (state: SeriesRecord, ghost owner': Owner)
    requires Owned(seriesStates, owner)
    ensures state.View() == if k in seriesStates then seriesStates[k].View()
                            else ClonedSeries(AsWritten, StateAt(committed, k).GetOr(EMPTY_SERIES))
    ensures Owned(seriesStates, owner') && OwnedBy(state, k, owner') && fresh(owner'.Keys - owner.Keys)
    ensures forall t :: t in state.Tables() ==> t in owner.Keys || fresh(t)
  {
    owner' := owner;
    if k in seriesStates {
      assert OwnedBy(seriesStates[k], k, owner);
      state := seriesStates[k];
    } else {
      state := CloneState(committed, k);
      owner' := owner + map t | t in state.Tables() :: k;
      OwnersGrow(seriesStates, owner, owner');
    }
  }

  /** ... and nothing that exists already changes. */
  method OwnStateApart(committed: map<string, SeriesRecord>, seriesStates: map<string, SeriesRecord>, k: string,
                       ghost views: map<string, SeriesState>, ghost owner: Owner)
    returns (state: SeriesRecord, ghost owner': Owner)
    requires Owned(seriesStates, owner) && Viewed(seriesStates, views)
    ensures state.View() == if k in seriesStates then seriesStates[k].View()
                            else ClonedSeries(AsWritten, StateAt(committed, k).GetOr(EMPTY_SERIES))
    ensures Owned(seriesStates, owner') && OwnedBy(state, k, owner') && fresh(owner'.Keys - owner.Keys)
    ensures forall t :: t in state.Tables() ==> t in owner.Keys || fresh(t)
    ensures Viewed(seriesStates, views)
  {
    state, owner' := OwnState(committed, seriesStates, k, owner);
  }

  /** The state an input meets. */
  method FetchState(committed: map<string, SeriesRecord>, overlay: Overlay, k: string, ghost p: Policy, ghost cell: Cell,
                    ghost views: map<string, SeriesState>, ghost owner: Owner, ghost series: map<string, SeriesState>)
    returns (state: SeriesRecord, ghost owner': Owner)
    requires p.clone == AsWritten && Shielded(committed, series, owner)
    requires cell.state == if k in series then Some(series[k]) else None
    requires Owned(overlay.seriesStates, owner) && Viewed(overlay.seriesStates, views)
    ensures state.View() == Current(p, cell, WorkOf(overlay, views, k))
    ensures Owned(overlay.seriesStates, owner') && OwnedBy(state, k, owner') && fresh(owner'.Keys - owner.Keys)
    ensures forall t :: t in state.Tables() ==> t in owner.Keys || fresh(t)
    ensures Viewed(overlay.seriesStates, views) && Shielded(committed, series, owner')
  {
    state, owner' := OwnStateApart(committed, overlay.seriesStates, k, views, owner);
  }

  /** One turn of the loop. */
  method TakeNext(committed: map<string, SeriesRecord>, definitions: map<string, DefinitionState>, ghost p: Policy,
                  ghost cells: Cells, cs: seq<Compiled>, input: Observation, overlay: Overlay,
                  ghost views: map<string, SeriesState>, ghost owner: Owner)
    returns (next: Overlay, accepted: bool, emitted: seq<Alert>, ghost views': map<string, SeriesState>, ghost owner': Owner)
    requires input.status.Confirmed? || input.status.Provisional?
    requires p.clone == AsWritten && cs == DefinitionsFor(p.routes, input.series) && BarFreeIds(cs)
    requires Shielded(committed, cells.series, owner) && cells.definitions == definitions
    requires Owned(overlay.seriesStates, owner) && Viewed(overlay.seriesStates, views)
    modifies owner.Keys
    ensures Owned(next.seriesStates, owner') && Viewed(next.seriesStates, views')
    ensures Moves(p, cells, input, overlay, views, next, views', emitted)
    ensures fresh(owner'.Keys - owner.Keys) && Shielded(committed, cells.series, owner')
    ensures if accepted then views' != map[] else views' == views && emitted == []
  {
    var k := input.series.Key();
    var state, known := FetchState(committed, overlay, k, p, cells.At(k), views, owner, cells.series);
    if StaleRecord(input, state) {
      next, accepted, emitted, views', owner' := overlay, false, [], views, known;
    } else {
      accepted := true;
      next, emitted, views', owner' := AcceptAndStore(definitions, p, cs, input, overlay, state, cells.At(k), views, known,
                                                              committed, cells.series);
      assert k in views';
    }
  }

  /** The engine's policy: its routes, and clones as the code makes them. */
  function EnginePolicy(routes: Routes): Policy {
    Policy(routes, AsWritten)
  }

  /** ... and the overlay keeps track of every series. */
  method TakeTracked(committed: map<string, SeriesRecord>, routes: Routes, ghost cells: Cells,
                     observations: seq<Observation>, i: nat, overlay: Overlay, taken: seq<Observation>,
                     definitions: map<string, DefinitionState>, ghost views: map<string, SeriesState>, ghost owner: Owner)
    returns (next: Overlay, taken': seq<Observation>, emitted: seq<Alert>, ghost views': map<string, SeriesState>,
             ghost owner': Owner)
    requires i < |observations| && Statuses(observations) && BarFreeRoutes(routes)
    requires Shielded(committed, cells.series, owner) && cells.definitions == definitions
    requires Owned(overlay.seriesStates, owner) && Viewed(overlay.seriesStates, views)
    requires Tracks(EnginePolicy(routes), cells, overlay, views, observations, i)
    requires taken == [] <==> views == map[]
    modifies owner.Keys
    ensures Owned(next.seriesStates, owner') && Viewed(next.seriesStates, views')
    ensures Tracks(EnginePolicy(routes), cells, next, views', observations, i + 1)
    ensures Emitted(EnginePolicy(routes), cells, observations[..i + 1])
            == Emitted(EnginePolicy(routes), cells, observations[..i]) + emitted
    ensures Shielded(committed, cells.series, owner')
    ensures forall t :: t in owner' ==> t in owner || fresh(t)
    ensures taken' == [] <==> views' == map[]
    ensures taken' == [] ==> taken == [] && emitted == []
  {
    ghost var p := EnginePolicy(routes);
    var input := observations[i];
    var cs := DefinitionsFor(routes, input.series);
    RoutedIdsAreBarFree(routes, input.series);
    var accepted;
    next, accepted, emitted, views', owner' := TakeNext(committed, definitions, p, cells, cs, input, overlay, views, owner);
    MovingKeepsTrack(p, cells, observations, i, overlay, views, next, views', emitted);
    taken' := if accepted then taken + [input] else taken;
  }

  /** Every observation hashes to the partition. */
  predicate Routed(layout: Layout, partitionId: int, observations: seq<Observation>) {
    observations == []
    || (Routed(layout, partitionId, observations[..|observations| - 1])
        && layout.Of(observations[|observations| - 1].series) == partitionId)
  }

  lemma {:induction false} RoutedAt(layout: Layout, partitionId: int, observations: seq<Observation>, i: nat)
    requires Routed(layout, partitionId, observations) && i < |observations|
    ensures layout.Of(observations[i].series) == partitionId
  {
    if i < |observations| - 1 {
      RoutedAt(layout, partitionId, observations[..|observations| - 1], i);
    }
  }

  lemma {:induction false} RoutedSnoc(layout: Layout, partitionId: int, observations: seq<Observation>, i: nat)
    requires i < |observations|
    ensures Routed(layout, partitionId, observations[..i + 1])
            <==> Routed(layout, partitionId, observations[..i]) && layout.Of(observations[i].series) == partitionId
  {
    assert observations[..i + 1][..i] == observations[..i];
  }

  /**
   The loop of EvaluateBatch: every series ends where its own inputs take it. A stray observation
   ends it in the middle. Nothing that existed before changes, either way.
   */
  method EvaluateInputs(partition: Partition, layout: Layout, partitionId: int, routes: Routes, observations: seq<Observation>,
                        ghost cells: Cells)
    returns (routed: bool, overlay: Overlay, accepted: seq<Observation>, alerts: seq<Alert>, ghost views: map<string, SeriesState>)
    requires Statuses(observations) && BarFreeRoutes(routes)
    requires Viewed(partition.series, cells.series) && partition.definitions == cells.definitions
    ensures routed <==> Routed(layout, partitionId, observations)
    ensures routed ==> Tracks(EnginePolicy(routes), cells, overlay, views, observations, |observations|)
    ensures routed ==> alerts == Emitted(EnginePolicy(routes), cells, observations)
    ensures routed ==> Viewed(overlay.seriesStates, views) && (accepted == [] <==> views == map[])
    ensures routed && accepted == [] ==> alerts == []
    ensures forall k, t :: k in overlay.seriesStates && t in overlay.seriesStates[k].Tables() ==> fresh(t)
  {
    var committed, definitions := partition.series, partition.definitions;
    overlay, accepted, alerts := NO_OVERLAY, [], [];
    ghost var owner: Owner := map[];
    views := map[];
    for i := 0 to |observations|
      invariant Routed(layout, partitionId, observations[..i])
      invariant Shielded(committed, cells.series, owner)
      invariant forall t :: t in owner ==> fresh(t)
      invariant Owned(overlay.seriesStates, owner)
      invariant Viewed(overlay.seriesStates, views)
      invariant Tracks(EnginePolicy(routes), cells, overlay, views, observations, i)
      invariant alerts == Emitted(EnginePolicy(routes), cells, observations[..i])
      invariant accepted == [] <==> views == map[]
      invariant accepted == [] ==> alerts == []
    {
      RoutedSnoc(layout, partitionId, observations, i);
      if layout.Of(observations[i].series) != partitionId {
        StrayIsFinal(layout, partitionId, observations, i + 1);
        OwnedTables(overlay.seriesStates, owner);
        return false, overlay, accepted, alerts, views;
      }
      var next, nextTaken, emitted, nextSeen, nextOwner :=
        TakeTracked(committed, routes, cells, observations, i, overlay, accepted, definitions, views, owner);
      overlay, accepted, views, owner, alerts := next, nextTaken, nextSeen, nextOwner, alerts + emitted;
    }
    assert observations[..|observations|] == observations;
    OwnedTables(overlay.seriesStates, owner);
    routed := true;
  }

  lemma {:induction false} StrayIsFinal(layout: Layout, partitionId: int, observations: seq<Observation>, i: nat)
    requires i <= |observations| && !Routed(layout, partitionId, observations[..i])
    ensures !Routed(layout, partitionId, observations)
    decreases |observations|
  {
    if i < |observations| {
      assert observations[..|observations| - 1][..i] == observations[..i];
      StrayIsFinal(layout, partitionId, observations[..|observations| - 1], i);
    } else {
      assert observations[..i] == observations;
    }
  }

  lemma OwnedTables(records: map<string, SeriesRecord>, owner: Owner)
    requires Owned(records, owner)
    ensures forall k, t :: k in records && t in records[k].Tables() ==> t in owner
  {
    forall k, t | k in records && t in records[k].Tables() ensures t in owner {
      assert OwnedBy(records[k], k, owner);
    }
  }
}
