/** A partition's maps seen as one cell per series, and a batch seen as one run per series. */
module PartitionCells {
  import opened Wrappers
  import opened Model
  import opened Keys
  import opened Routing
  import opened SeriesMachine

  function DefinitionsOf(definitions: map<string, DefinitionState>, seriesKey: string): map<string, DefinitionState> {
    map key | key in definitions && DefinitionSeriesKey(key) == seriesKey :: definitions[key]
  }

  /** The inputs of one series within a batch, in order. */
  function EventsOf(seriesKey: string, observations: seq<Observation>): seq<Event> {
    if observations == [] then []
    else
      var before, last := EventsOf(seriesKey, observations[..|observations| - 1]), observations[|observations| - 1];
      if last.series.Key() == seriesKey then before + [Input(last)] else before
  }

  /** The committed state of a partition: one cell per series. */
  datatype Cells = Cells(series: map<string, SeriesState>, definitions: map<string, DefinitionState>) {
    function At(seriesKey: string): Cell {
      Cell(if seriesKey in series then Some(series[seriesKey]) else None, DefinitionsOf(definitions, seriesKey))
    }
  }

  /** The series' machine after the inputs of a still open batch. */
  function Reached(p: Policy, cells: Cells, seriesKey: string, observations: seq<Observation>): Machine {
    Run(p, Start(cells.At(seriesKey)), EventsOf(seriesKey, observations)).machine
  }

  /** The alerts of a batch in input order. */
  function Emitted(p: Policy, cells: Cells, observations: seq<Observation>): seq<Alert> {
    if observations == [] then []
    else
      var front, last := observations[..|observations| - 1], observations[|observations| - 1];
      Emitted(p, cells, front) + Step(p, Reached(p, cells, last.series.Key(), front), Input(last)).alerts
  }

  /** The series' cell after the batch commits. */
  function AfterBatch(p: Policy, cells: Cells, seriesKey: string, observations: seq<Observation>): Cell {
    Run(p, Start(cells.At(seriesKey)), EventsOf(seriesKey, observations) + [Commit]).machine.cell
  }

  lemma AfterBatchCommits(p: Policy, cells: Cells, seriesKey: string, observations: seq<Observation>)
    ensures AfterBatch(p, cells, seriesKey, observations)
            == Committed(p, cells.At(seriesKey), Reached(p, cells, seriesKey, observations).work)
  {
    RunSnoc(p, Start(cells.At(seriesKey)), EventsOf(seriesKey, observations), Commit);
    RunKeepsCell(p, Start(cells.At(seriesKey)), EventsOf(seriesKey, observations));
    EventsAreInputs(seriesKey, observations);
  }

  lemma {:induction false} RunKeepsCell(p: Policy, m: Machine, events: seq<Event>)
    ensures (forall i :: 0 <= i < |events| ==> events[i].Input?) ==> Run(p, m, events).machine.cell == m.cell
  {
    if events != [] {
      RunKeepsCell(p, m, events[..|events| - 1]);
    }
  }

  lemma {:induction false} EventsAreInputs(seriesKey: string, observations: seq<Observation>)
    ensures forall i :: 0 <= i < |EventsOf(seriesKey, observations)| ==>
              EventsOf(seriesKey, observations)[i].Input?
              && EventsOf(seriesKey, observations)[i].observation.series.Key() == seriesKey
  {
    if observations != [] {
      EventsAreInputs(seriesKey, observations[..|observations| - 1]);
    }
  }

  // ----- One observation inside the batch -----

  /** The two overlays agree on every definition state outside one series. */
  ghost predicate AgreeOff(a: map<string, DefinitionState>, b: map<string, DefinitionState>, seriesKey: string) {
    forall key :: DefinitionSeriesKey(key) != seriesKey ==> (key in a <==> key in b) && (key in a ==> a[key] == b[key])
  }

  lemma OthersKeepTheirStates(a: map<string, DefinitionState>, b: map<string, DefinitionState>, seriesKey: string, other: string)
    requires AgreeOff(a, b, seriesKey) && other != seriesKey
    ensures DefinitionsOf(a, other) == DefinitionsOf(b, other)
  {
  }

  lemma FindInSeries(definitions: map<string, DefinitionState>, seriesKey: string, id: string)
    requires BarFree(id)
    ensures var key := DefinitionStateKey(id, seriesKey);
            && DefinitionSeriesKey(key) == seriesKey
            && (key in definitions <==> key in DefinitionsOf(definitions, seriesKey))
            && Find(definitions, key) == Find(DefinitionsOf(definitions, seriesKey), key)
  {
    DefinitionKeyRoundTrip(id, seriesKey);
  }

  lemma UpdateInSeries(definitions: map<string, DefinitionState>, seriesKey: string, id: string, st: DefinitionState)
    requires BarFree(id)
    ensures var key := DefinitionStateKey(id, seriesKey);
            && DefinitionsOf(definitions[key := st], seriesKey) == DefinitionsOf(definitions, seriesKey)[key := st]
            && AgreeOff(definitions, definitions[key := st], seriesKey)
  {
    DefinitionKeyRoundTrip(id, seriesKey);
  }

  /** One more input moves its own series and leaves every other where it was. */
  lemma OneMoreInput(p: Policy, cells: Cells, seriesKey: string, observations: seq<Observation>, i: nat)
    requires i < |observations|
    ensures Reached(p, cells, seriesKey, observations[..i + 1])
            == if observations[i].series.Key() == seriesKey
               then Step(p, Reached(p, cells, seriesKey, observations[..i]), Input(observations[i])).machine
               else Reached(p, cells, seriesKey, observations[..i])
  {
    assert observations[..i + 1][..i] == observations[..i];
    if observations[i].series.Key() == seriesKey {
      RunSnoc(p, Start(cells.At(seriesKey)), EventsOf(seriesKey, observations[..i]), Input(observations[i]));
    }
  }

  // ----- Per-series alerts -----

  function OfSeries(alerts: seq<Alert>, seriesKey: string): seq<Alert> {
    if alerts == [] then []
    else
      var before := OfSeries(alerts[..|alerts| - 1], seriesKey);
      if alerts[|alerts| - 1].series.Key() == seriesKey then before + [alerts[|alerts| - 1]] else before
  }

  lemma {:induction false} OfSeriesConcat(xs: seq<Alert>, ys: seq<Alert>, seriesKey: string)
    ensures OfSeries(xs + ys, seriesKey) == OfSeries(xs, seriesKey) + OfSeries(ys, seriesKey)
  {
    if ys == [] {
      assert xs + ys == xs;
    } else {
      assert (xs + ys)[..|xs + ys| - 1] == xs + ys[..|ys| - 1];
      OfSeriesConcat(xs, ys[..|ys| - 1], seriesKey);
    }
  }

  lemma {:induction false} EvaluationAlertsCarryTheSeries(cs: seq<Rules.Compiled>, o: Observation, f: Feature,
                                                          base: map<string, DefinitionState>, overlay: map<string, DefinitionState>)
    ensures forall i :: 0 <= i < |EvaluateDefinitions(cs, o, f, base, overlay).alerts|
              ==> EvaluateDefinitions(cs, o, f, base, overlay).alerts[i].series == o.series
  {
    if cs != [] {
      EvaluationAlertsCarryTheSeries(cs[..|cs| - 1], o, f, base, overlay);
    }
  }

  lemma {:induction false} OwnAlertsAreKept(alerts: seq<Alert>, seriesKey: string)
    ensures (forall i :: 0 <= i < |alerts| ==> alerts[i].series.Key() == seriesKey) ==> OfSeries(alerts, seriesKey) == alerts
    ensures (forall i :: 0 <= i < |alerts| ==> alerts[i].series.Key() != seriesKey) ==> OfSeries(alerts, seriesKey) == []
  {
    if alerts != [] {
      OwnAlertsAreKept(alerts[..|alerts| - 1], seriesKey);
    }
  }

  lemma StepAlertsCarryTheSeries(p: Policy, m: Machine, o: Observation)
    ensures forall i :: 0 <= i < |Step(p, m, Input(o)).alerts| ==> Step(p, m, Input(o)).alerts[i].series == o.series
  {
    if Accepts(p, m, o) && !o.reset {
      var s := Now(p, m);
      var seen := WithZones(o, s);
      EvaluationAlertsCarryTheSeries(DefinitionsFor(p.routes, o.series), seen, FeatureFor(p.clone, seen, s),
                                     Base(m.cell, m.work), m.work.definitions);
    }
  }

  lemma {:induction false} EmittedSnoc(p: Policy, cells: Cells, observations: seq<Observation>)
    requires observations != []
    ensures var front, last := observations[..|observations| - 1], observations[|observations| - 1];
            Emitted(p, cells, observations)
            == Emitted(p, cells, front) + Step(p, Reached(p, cells, last.series.Key(), front), Input(last)).alerts
  {
  }

  /** What one more input adds to a series' share. */
  lemma {:induction false} ShareOfStep(p: Policy, m: Machine, o: Observation, seriesKey: string)
    ensures OfSeries(Step(p, m, Input(o)).alerts, seriesKey)
            == if o.series.Key() == seriesKey then Step(p, m, Input(o)).alerts else []
  {
    StepAlertsCarryTheSeries(p, m, o);
    OwnAlertsAreKept(Step(p, m, Input(o)).alerts, seriesKey);
  }

  /** ... and to its own run. */
  lemma {:induction false} RunOfSnoc(p: Policy, cells: Cells, seriesKey: string, observations: seq<Observation>)
    requires observations != []
    ensures var front, last := observations[..|observations| - 1], observations[|observations| - 1];
            Run(p, Start(cells.At(seriesKey)), EventsOf(seriesKey, observations)).alerts
            == Run(p, Start(cells.At(seriesKey)), EventsOf(seriesKey, front)).alerts
               + if last.series.Key() == seriesKey then Step(p, Reached(p, cells, seriesKey, front), Input(last)).alerts else []
  {
    var front, last := observations[..|observations| - 1], observations[|observations| - 1];
    if last.series.Key() == seriesKey {
      RunSnoc(p, Start(cells.At(seriesKey)), EventsOf(seriesKey, front), Input(last));
    }
  }

  /** Shares add up. */
  lemma {:induction false} ShareAdds(before: seq<Alert>, more: seq<Alert>, own: seq<Alert>, kept: seq<Alert>, seriesKey: string)
    requires OfSeries(before, seriesKey) == own && OfSeries(more, seriesKey) == kept
    ensures OfSeries(before + more, seriesKey) == own + kept
  {
    OfSeriesConcat(before, more, seriesKey);
  }

  /** A series' share of a batch's alerts is what its own inputs alone emit. */
  lemma {:induction false} SeriesShare(p: Policy, cells: Cells, seriesKey: string, observations: seq<Observation>)
    ensures OfSeries(Emitted(p, cells, observations), seriesKey)
            == Run(p, Start(cells.At(seriesKey)), EventsOf(seriesKey, observations)).alerts
  {
    if observations != [] {
      SeriesShare(p, cells, seriesKey, observations[..|observations| - 1]);
      ShareSnoc(p, cells, seriesKey, observations);
    }
  }

  lemma {:induction false} ShareSnoc(p: Policy, cells: Cells, seriesKey: string, observations: seq<Observation>)
    requires observations != []
    requires OfSeries(Emitted(p, cells, observations[..|observations| - 1]), seriesKey)
             == Run(p, Start(cells.At(seriesKey)), EventsOf(seriesKey, observations[..|observations| - 1])).alerts
    ensures OfSeries(Emitted(p, cells, observations), seriesKey)
            == Run(p, Start(cells.At(seriesKey)), EventsOf(seriesKey, observations)).alerts
  {
    var front, last := observations[..|observations| - 1], observations[|observations| - 1];
    var reached := Reached(p, cells, last.series.Key(), front);
    ghost var more := Step(p, reached, Input(last)).alerts;
    EmittedSnoc(p, cells, observations);
    RunOfSnoc(p, cells, seriesKey, observations);
    ShareOfStep(p, reached, last, seriesKey);
    ShareAdds(Emitted(p, cells, front), more, OfSeries(Emitted(p, cells, front), seriesKey), OfSeries(more, seriesKey), seriesKey);
  }
}
