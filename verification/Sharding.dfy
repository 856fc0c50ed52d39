/**
 Whole deployments: batches of many series spread over partitions and workers, against the run of
 each series alone.
 */
module Sharding {
  import opened Model
  import opened Keys
  import opened SeriesMachine
  import opened AlertLog
  import opened PartitionCells
  import opened BatchEvaluation
  import opened BatchBoundaries
  import opened Redelivery
  import opened BatchCommit
  import opened Recovery

  datatype Batch = Batch(partition: nat, observations: seq<Observation>)

  /** The cells of every partition, whichever worker owns it, and all alerts offered to the log. */
  datatype Deployment = Deployment(partitions: seq<Cells>, offered: seq<Alert>) {
    function Log(): seq<Alert> {
      Appended([], offered)
    }
  }

  const NO_CELLS := Cells(map[], map[])

  /** What one successful EvaluateBatch does to a deployment. */
  ghost predicate Evaluates(layout: Layout, p: Policy, before: Deployment, after: Deployment, batch: Batch) {
    var i := batch.partition;
    && i < |before.partitions| == |after.partitions|
    && Routed(layout, i, batch.observations) && SlashFreeInputs(batch.observations)
    && EveryCellAdvances(p, before.partitions[i], after.partitions[i], batch.observations)
    && (forall j :: 0 <= j < |before.partitions| && j != i ==> after.partitions[j] == before.partitions[j])
    && after.offered == before.offered + Emitted(p, before.partitions[i], batch.observations)
  }

  /** The deployment after the batches, in the order of their commits. */
  ghost predicate Reaches(layout: Layout, p: Policy, batches: seq<Batch>, d: Deployment) {
    if batches == [] then
      |d.partitions| == layout.partitions && d.offered == []
      && forall i :: 0 <= i < |d.partitions| ==> d.partitions[i] == NO_CELLS
    else
      var front, last := batches[..|batches| - 1], batches[|batches| - 1];
      exists before :: Reaches(layout, p, front, before) && Evaluates(layout, p, before, d, last)
  }

  /** The deployment the last batch found. */
  lemma {:induction false} Before(layout: Layout, p: Policy, batches: seq<Batch>, d: Deployment) returns (before: Deployment)
    requires batches != [] && Reaches(layout, p, batches, d)
    ensures Reaches(layout, p, batches[..|batches| - 1], before)
    ensures Evaluates(layout, p, before, d, batches[|batches| - 1])
  {
    var front, last := batches[..|batches| - 1], batches[|batches| - 1];
    before :| Reaches(layout, p, front, before) && Evaluates(layout, p, before, d, last);
  }

  /** One more batch. */
  lemma {:induction false} OneMoreBatch(layout: Layout, p: Policy, batches: seq<Batch>, before: Deployment, after: Deployment, batch: Batch)
    requires Reaches(layout, p, batches, before) && Evaluates(layout, p, before, after, batch)
    ensures Reaches(layout, p, batches + [batch], after)
  {
    var all := batches + [batch];
    assert all[..|all| - 1] == batches && all[|all| - 1] == batch;
  }

  // ----- One series of a deployment -----

  /** The events one series sees: its inputs of every batch, and every commit. */
  function SeriesEvents(k: string, batches: seq<Batch>): seq<Event> {
    if batches == [] then []
    else SeriesEvents(k, batches[..|batches| - 1]) + (EventsOf(k, batches[|batches| - 1].observations) + [Commit])
  }

  function Stream(batches: seq<Batch>): seq<Observation> {
    if batches == [] then [] else Stream(batches[..|batches| - 1]) + batches[|batches| - 1].observations
  }

  function ObservationsOf(k: string, observations: seq<Observation>): seq<Observation> {
    if observations == [] then []
    else
      var before, last := ObservationsOf(k, observations[..|observations| - 1]), observations[|observations| - 1];
      if last.series.Key() == k then before + [last] else before
  }

  /** The log of a deployment is the log of its offers, however they were cut into batches. */
  lemma BatchesAppend(log: seq<Alert>, d: Deployment, emitted: seq<Alert>)
    requires log == d.Log()
    ensures Appended(log, emitted) == d.(offered := d.offered + emitted).Log()
  {
    AppendingSplits([], d.offered, emitted);
  }

  /** In the home partition a batch runs the series' own machine. */
  lemma HomeBatch(p: Policy, before: Cells, after: Cells, observations: seq<Observation>, k: string)
    requires EveryCellAdvances(p, before, after, observations)
    ensures var run := Run(p, Start(before.At(k)), EventsOf(k, observations) + [Commit]);
            && run.machine == Start(after.At(k))
            && run.alerts == OfSeries(Emitted(p, before, observations), k)
  {
    assert after.At(k) == AfterBatch(p, before, k, observations);
    RunSnoc(p, Start(before.At(k)), EventsOf(k, observations), Commit);
    SeriesShare(p, before, k, observations);
  }

  /** ... and a batch of another partition is an empty commit to it. */
  lemma ForeignBatch(layout: Layout, p: Policy, cell: Cell, cells: Cells, batch: Batch, k: string)
    requires Routed(layout, batch.partition, batch.observations) && SlashFreeInputs(batch.observations)
    requires layout.Home(k) != batch.partition
    ensures var run := Run(p, Start(cell), EventsOf(k, batch.observations) + [Commit]);
            && run.machine == Start(cell) && run.alerts == []
            && OfSeries(Emitted(p, cells, batch.observations), k) == []
  {
    NoStrayInputs(layout, batch.partition, batch.observations, k);
    SeriesShare(p, cells, k, batch.observations);
    RunSnoc(p, Start(cell), [], Commit);
    assert EventsOf(k, batch.observations) + [Commit] == [] + [Commit];
  }

  /** In any deployment a series' cell and its share of the alerts are those of its own machine. */
  lemma {:induction false} SeriesRunAlone(layout: Layout, p: Policy, batches: seq<Batch>, d: Deployment, k: string)
    requires Reaches(layout, p, batches, d)
    ensures |d.partitions| == layout.partitions
    ensures layout.Home(k) < layout.partitions
    ensures var run := Run(p, Start(EMPTY_CELL), SeriesEvents(k, batches));
            && run.machine == Start(d.partitions[layout.Home(k)].At(k))
            && run.alerts == OfSeries(d.offered, k)
  {
    HomeInRange(layout, k);
    if batches != [] {
      var front, batch := batches[..|batches| - 1], batches[|batches| - 1];
      var before := Before(layout, p, batches, d);
      SeriesRunAlone(layout, p, front, before, k);
      var home := layout.Home(k);
      RunConcat(p, Start(EMPTY_CELL), SeriesEvents(k, front), EventsOf(k, batch.observations) + [Commit]);
      OfSeriesConcat(before.offered, Emitted(p, before.partitions[batch.partition], batch.observations), k);
      if batch.partition == home {
        HomeBatch(p, before.partitions[home], d.partitions[home], batch.observations, k);
      } else {
        ForeignBatch(layout, p, before.partitions[home].At(k), before.partitions[batch.partition], batch, k);
      }
    }
  }

  lemma HomeInRange(layout: Layout, k: string)
    ensures layout.Home(k) < layout.partitions
  {
  }

  // ----- Two deployments -----

  lemma {:induction false} InputsConcat(xs: seq<Event>, ys: seq<Event>)
    ensures Inputs(xs + ys) == Inputs(xs) + Inputs(ys)
  {
    if ys == [] {
      assert xs + ys == xs;
    } else {
      assert (xs + ys)[..|xs + ys| - 1] == xs + ys[..|ys| - 1];
      InputsConcat(xs, ys[..|ys| - 1]);
    }
  }

  lemma {:induction false} ObservationsConcat(k: string, xs: seq<Observation>, ys: seq<Observation>)
    ensures ObservationsOf(k, xs + ys) == ObservationsOf(k, xs) + ObservationsOf(k, ys)
  {
    if ys == [] {
      assert xs + ys == xs;
    } else {
      assert (xs + ys)[..|xs + ys| - 1] == xs + ys[..|ys| - 1];
      ObservationsConcat(k, xs, ys[..|ys| - 1]);
    }
  }

  lemma {:induction false} EventsAreObservations(k: string, observations: seq<Observation>)
    ensures Inputs(EventsOf(k, observations)) == ObservationsOf(k, observations)
  {
    if observations != [] {
      var front, last := observations[..|observations| - 1], observations[|observations| - 1];
      EventsAreObservations(k, front);
      InputsConcat(EventsOf(k, front), [Input(last)]);
    }
  }

  /** The inputs of a series are its observations in the stream, wherever the batches end. */
  lemma {:induction false} InputsOfTheStream(k: string, batches: seq<Batch>)
    ensures Inputs(SeriesEvents(k, batches)) == ObservationsOf(k, Stream(batches))
  {
    if batches != [] {
      var front, last := batches[..|batches| - 1], batches[|batches| - 1].observations;
      InputsOfTheStream(k, front);
      InputsConcat(SeriesEvents(k, front), EventsOf(k, last) + [Commit]);
      InputsConcat(EventsOf(k, last), [Commit]);
      EventsAreObservations(k, last);
      ObservationsConcat(k, Stream(front), last);
    }
  }

  lemma {:induction false} EventsAreOnSeries(layout: Layout, p: Policy, batches: seq<Batch>, d: Deployment, series: Series)
    requires Reaches(layout, p, batches, d) && SlashFree(series)
    ensures OnSeries(SeriesEvents(series.Key(), batches), series)
  {
    if batches != [] {
      var front, batch := batches[..|batches| - 1], batches[|batches| - 1];
      var before := Before(layout, p, batches, d);
      EventsAreOnSeries(layout, p, front, before, series);
      EventsOnSeries(batch.observations, series);
    }
  }

  lemma {:induction false} EventsOnSeries(observations: seq<Observation>, series: Series)
    requires SlashFreeInputs(observations) && SlashFree(series)
    ensures OnSeries(EventsOf(series.Key(), observations), series)
  {
    if observations != [] {
      var last := observations[|observations| - 1];
      EventsOnSeries(observations[..|observations| - 1], series);
      if last.series.Key() == series.Key() {
        SeriesKeyIsInjective(last.series, series);
      }
    }
  }

  /** No batch has an accepted reset of the series behind an alert of the series. */
  ghost predicate ResetClean(p: Policy, k: string, batches: seq<Batch>) {
    Clean(p, Start(EMPTY_CELL), SeriesEvents(k, batches))
  }

  /**
   Any two deployments (hash, partition count, owners, batches) that see the same observations of a
   series in the same order leave it in the same cell and emit the same alerts for it; both are
   what evaluating its observations one by one gives.
   */
  lemma {:induction false} ShardingRefinesOneMachine(a: Layout, b: Layout, p: Policy, series: Series,
                                  xs: seq<Batch>, ys: seq<Batch>, da: Deployment, db: Deployment)
    requires Reaches(a, p, xs, da) && Reaches(b, p, ys, db)
    requires SlashFree(series) && CloneSafe(p, series)
    requires ObservationsOf(series.Key(), Stream(xs)) == ObservationsOf(series.Key(), Stream(ys))
    requires ResetClean(p, series.Key(), xs) && ResetClean(p, series.Key(), ys)
    ensures PartitionOf(a.hash, a.partitions, series) < |da.partitions|
    ensures PartitionOf(b.hash, b.partitions, series) < |db.partitions|
    ensures var k := series.Key();
            var cell := da.partitions[PartitionOf(a.hash, a.partitions, series)].At(k);
            var alerts := OfSeries(da.offered, k);
            var alone := Run(p, Start(EMPTY_CELL), OneByOne(ObservationsOf(k, Stream(xs))) + [Commit]);
            && cell == alone.machine.cell && cell == db.partitions[PartitionOf(b.hash, b.partitions, series)].At(k)
            && alerts == alone.alerts && alerts == OfSeries(db.offered, k)
  {
    var k := series.Key();
    CheckpointPartition(a.hash, a.partitions, series);
    CheckpointPartition(b.hash, b.partitions, series);
    RunsAlone(a, p, series, xs, da);
    RunsAlone(b, p, series, ys, db);
  }

  lemma {:induction false} RunsAlone(layout: Layout, p: Policy, series: Series, batches: seq<Batch>, d: Deployment)
    requires Reaches(layout, p, batches, d)
    requires SlashFree(series) && CloneSafe(p, series) && ResetClean(p, series.Key(), batches)
    ensures layout.Home(series.Key()) < |d.partitions|
    ensures var k := series.Key();
            var alone := Run(p, Start(EMPTY_CELL), OneByOne(ObservationsOf(k, Stream(batches))) + [Commit]);
            && alone.machine.cell == d.partitions[layout.Home(k)].At(k) && alone.alerts == OfSeries(d.offered, k)
  {
    var k := series.Key();
    var events := SeriesEvents(k, batches);
    SeriesRunAlone(layout, p, batches, d, k);
    InputsOfTheStream(k, batches);
    EventsAreOnSeries(layout, p, batches, d, series);
    RunsFoldTheSingleStep(p, series, EMPTY_CELL, events);
    RunSnoc(p, Start(EMPTY_CELL), events, Commit);
  }

  // ----- At-least-once delivery -----

  lemma {:induction false} FirstDeliveriesOnSeries(events: seq<Event>, again: seq<bool>, series: Series)
    requires |again| == |events| && OnSeries(events, series)
    ensures OnSeries(FirstDeliveries(events, again), series)
  {
    if events != [] {
      FirstDeliveriesOnSeries(events[..|events| - 1], again[..|events| - 1], series);
    }
  }

  /** Every input of the series is gated, resets are identified by their IDs and never move the cursor back. */
  ghost predicate WellFed(p: Policy, k: string, batches: seq<Batch>) {
    var events := SeriesEvents(k, batches);
    GatedRun(events) && ResetIdsIdentify(events) && ResetsMoveForward(p, Start(EMPTY_CELL), events)
  }

  /**
   A deployment that is handed some observations of a series again, in any later batch, ends like
   one that is handed each of them once: the same cell and the same alerts.
   */
  lemma {:induction false} AtLeastOnceActsOnce(a: Layout, b: Layout, p: Policy, series: Series,
                                               xs: seq<Batch>, ys: seq<Batch>, da: Deployment, db: Deployment, again: seq<bool>)
    requires Reaches(a, p, xs, da) && Reaches(b, p, ys, db)
    requires SlashFree(series) && CloneSafe(p, series) && ResetClean(p, series.Key(), xs)
    requires WellFed(p, series.Key(), ys) && Repeats(SeriesEvents(series.Key(), ys), again)
    requires Clean(p, Start(EMPTY_CELL), FirstDeliveries(SeriesEvents(series.Key(), ys), again))
    requires ObservationsOf(series.Key(), Stream(xs)) == Inputs(FirstDeliveries(SeriesEvents(series.Key(), ys), again))
    ensures |da.partitions| == a.partitions && |db.partitions| == b.partitions
    ensures var k := series.Key();
            && da.partitions[a.Home(k)].At(k) == db.partitions[b.Home(k)].At(k)
            && OfSeries(da.offered, k) == OfSeries(db.offered, k)
  {
    var k := series.Key();
    SeriesRunAlone(a, p, xs, da, k);
    SeriesRunAlone(b, p, ys, db, k);
    RepeatedRunsAgree(a, b, p, series, xs, ys, da, db, again);
  }

  lemma {:induction false} RepeatedRunsAgree(a: Layout, b: Layout, p: Policy, series: Series,
                                             xs: seq<Batch>, ys: seq<Batch>, da: Deployment, db: Deployment, again: seq<bool>)
    requires Reaches(a, p, xs, da) && Reaches(b, p, ys, db)
    requires SlashFree(series) && CloneSafe(p, series) && ResetClean(p, series.Key(), xs)
    requires WellFed(p, series.Key(), ys) && Repeats(SeriesEvents(series.Key(), ys), again)
    requires Clean(p, Start(EMPTY_CELL), FirstDeliveries(SeriesEvents(series.Key(), ys), again))
    requires ObservationsOf(series.Key(), Stream(xs)) == Inputs(FirstDeliveries(SeriesEvents(series.Key(), ys), again))
    ensures var k := series.Key();
            Run(p, Start(EMPTY_CELL), SeriesEvents(k, xs)) == Run(p, Start(EMPTY_CELL), SeriesEvents(k, ys))
  {
    var k := series.Key();
    var once, events := SeriesEvents(k, xs), SeriesEvents(k, ys);
    var kept := FirstDeliveries(events, again);
    RedeliveryIsHarmless(p, events, again);
    InputsOfTheStream(k, xs);
    EventsAreOnSeries(a, p, xs, da, series);
    EventsAreOnSeries(b, p, ys, db, series);
    FirstDeliveriesOnSeries(events, again, series);
    CommittedRunsEndInTheSameCell(p, series, EMPTY_CELL, once, kept);
    SeriesRunAlone(a, p, xs, da, k);
    SeriesRunAlone(b, p, ys, db, k);
    CommittedAlready(p, once, da.partitions[a.Home(k)].At(k));
    CommittedAlready(p, kept, db.partitions[b.Home(k)].At(k));
  }

  lemma {:induction false} CommittedAlready(p: Policy, events: seq<Event>, cell: Cell)
    requires Run(p, Start(EMPTY_CELL), events).machine == Start(cell)
    ensures Run(p, Start(EMPTY_CELL), events + [Commit]) == Run(p, Start(EMPTY_CELL), events)
  {
    RunSnoc(p, Start(EMPTY_CELL), events, Commit);
  }

  // ----- The log -----

  /** Alerts of different series never share an ID. */
  ghost predicate IdsOwnSeries(alerts: seq<Alert>) {
    forall i, j :: 0 <= i < |alerts| && 0 <= j < |alerts| && alerts[i].id == alerts[j].id
                   ==> alerts[i].series.Key() == alerts[j].series.Key()
  }

  function Uncursored(alerts: seq<Alert>): seq<Alert> {
    if alerts == [] then [] else Uncursored(alerts[..|alerts| - 1]) + [alerts[|alerts| - 1].(cursor := 0)]
  }

  lemma {:induction false} OwnIdsRemain(alerts: seq<Alert>, k: string, id: AlertId)
    requires forall i :: 0 <= i < |alerts| && alerts[i].id == id ==> alerts[i].series.Key() == k
    ensures Contains(OfSeries(alerts, k), id) <==> Contains(alerts, id)
  {
    if alerts != [] {
      var front, last := alerts[..|alerts| - 1], alerts[|alerts| - 1];
      OwnIdsRemain(front, k, id);
      ContainsSnoc(front, last, id);
      assert front + [last] == alerts;
      ContainsSnoc(OfSeries(front, k), last, id);
    }
  }

  lemma ContainsSnoc(alerts: seq<Alert>, last: Alert, id: AlertId)
    ensures Contains(alerts + [last], id) <==> Contains(alerts, id) || last.id == id
  {
    if Contains(alerts, id) {
      var i :| 0 <= i < |alerts| && alerts[i].id == id;
      assert (alerts + [last])[i].id == id;
    }
    assert (alerts + [last])[|alerts|] == last;
  }

  lemma UncursoredSnoc(alerts: seq<Alert>, last: Alert)
    ensures Uncursored(alerts + [last]) == Uncursored(alerts) + [last.(cursor := 0)]
  {
    assert (alerts + [last])[..|alerts|] == alerts;
  }

  /** The log after one more offer. */
  function Offered(log: seq<Alert>, alert: Alert): seq<Alert> {
    if Contains(log, alert.id) then log else log + [alert.(cursor := |log| + 1)]
  }

  lemma {:induction false} AppendedSnoc(offered: seq<Alert>, last: Alert)
    ensures Appended([], offered + [last]) == Offered(Appended([], offered), last)
  {
    assert (offered + [last])[..|offered|] == offered;
  }

  lemma {:induction false} OfSeriesSnoc(alerts: seq<Alert>, last: Alert, k: string)
    ensures OfSeries(alerts + [last], k) == if last.series.Key() == k then OfSeries(alerts, k) + [last] else OfSeries(alerts, k)
  {
    assert (alerts + [last])[..|alerts|] == alerts;
  }

  /** One more offer, given that an alert of the series is new to both logs or to neither. */
  lemma {:induction false} ShareSnoc(log: seq<Alert>, own: seq<Alert>, last: Alert, k: string)
    requires Uncursored(OfSeries(log, k)) == Uncursored(own)
    requires last.series.Key() == k ==> (Contains(log, last.id) <==> Contains(own, last.id))
    ensures Uncursored(OfSeries(Offered(log, last), k)) == Uncursored(if last.series.Key() == k then Offered(own, last) else own)
  {
    if !Contains(log, last.id) {
      OfSeriesSnoc(log, last.(cursor := |log| + 1), k);
      if last.series.Key() == k {
        UncursoredSnoc(OfSeries(log, k), last.(cursor := |log| + 1));
        UncursoredSnoc(own, last.(cursor := |own| + 1));
      }
    }
  }

  /** Both logs know the same IDs of the series. */
  lemma {:induction false} SameIds(front: seq<Alert>, k: string, id: AlertId)
    requires forall i :: 0 <= i < |front| && front[i].id == id ==> front[i].series.Key() == k
    ensures Contains(Appended([], front), id) <==> Contains(Appended([], OfSeries(front, k)), id)
  {
    AppendingKeepsDense([], front);
    AppendingKeepsDense([], OfSeries(front, k));
    OwnIdsRemain(front, k, id);
  }

  /** A series' share of the log is the log of its own alerts, up to the cursors. */
  lemma {:induction false} LogShare(alerts: seq<Alert>, k: string)
    requires IdsOwnSeries(alerts)
    ensures Uncursored(OfSeries(Appended([], alerts), k)) == Uncursored(Appended([], OfSeries(alerts, k)))
  {
    if alerts != [] {
      LogShare(alerts[..|alerts| - 1], k);
      if alerts[|alerts| - 1].series.Key() == k {
        SameIds(alerts[..|alerts| - 1], k, alerts[|alerts| - 1].id);
      }
      ShareSnoc(Appended([], alerts[..|alerts| - 1]), Appended([], OfSeries(alerts[..|alerts| - 1], k)), alerts[|alerts| - 1], k);
      LastOffer(alerts, k);
    }
  }

  lemma {:induction false} LastOffer(alerts: seq<Alert>, k: string)
    requires alerts != []
    ensures var front, last := alerts[..|alerts| - 1], alerts[|alerts| - 1];
            && Appended([], alerts) == Offered(Appended([], front), last)
            && Appended([], OfSeries(alerts, k))
               == if last.series.Key() == k then Offered(Appended([], OfSeries(front, k)), last) else Appended([], OfSeries(front, k))
  {
    var front, last := alerts[..|alerts| - 1], alerts[|alerts| - 1];
    if last.series.Key() == k {
      AppendedSnoc(OfSeries(front, k), last);
    }
  }

  /** The log subsequence of a series is the same in both deployments. */
  lemma {:induction false} ShardingKeepsTheLog(a: Layout, b: Layout, p: Policy, series: Series,
                            xs: seq<Batch>, ys: seq<Batch>, da: Deployment, db: Deployment)
    requires Reaches(a, p, xs, da) && Reaches(b, p, ys, db)
    requires SlashFree(series) && CloneSafe(p, series)
    requires ObservationsOf(series.Key(), Stream(xs)) == ObservationsOf(series.Key(), Stream(ys))
    requires ResetClean(p, series.Key(), xs) && ResetClean(p, series.Key(), ys)
    requires IdsOwnSeries(da.offered) && IdsOwnSeries(db.offered)
    ensures Uncursored(OfSeries(da.Log(), series.Key())) == Uncursored(OfSeries(db.Log(), series.Key()))
  {
    ShardingRefinesOneMachine(a, b, p, series, xs, ys, da, db);
    LogShare(da.offered, series.Key());
    LogShare(db.offered, series.Key());
  }
}
