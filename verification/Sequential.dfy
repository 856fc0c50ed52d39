/**
 Whole deployments against one sequential evaluation of the whole stream: not only what each series
 ends in, but every alert of the log in its place.
 */
module Sequential {
  import opened Model
  import opened Keys
  import opened SeriesMachine
  import opened PartitionCells
  import opened BatchEvaluation
  import opened BatchBoundaries
  import opened BatchCommit
  import opened Recovery
  import opened Sharding

  /** The machine of a series that took the inputs one by one. */
  function AloneAfter(p: Policy, k: string, stream: seq<Observation>): Machine {
    Run(p, Start(EMPTY_CELL), OneByOne(ObservationsOf(k, stream))).machine
  }

  /** The alerts of evaluating the stream one observation at a time, in the order of the stream. */
  function InSequence(p: Policy, stream: seq<Observation>): seq<Alert> {
    if stream == [] then []
    else
      var front, last := stream[..|stream| - 1], stream[|stream| - 1];
      InSequence(p, front) + Step(p, AloneAfter(p, last.series.Key(), front), Input(last)).alerts
  }

  /** The series of every observation is slash-free, and no rule it can meet tells a clone from its original. */
  ghost predicate Fit(p: Policy, stream: seq<Observation>) {
    SlashFreeInputs(stream) && forall i :: 0 <= i < |stream| ==> CloneSafe(p, stream[i].series)
  }

  ghost predicate AllResetClean(p: Policy, batches: seq<Batch>) {
    forall k :: ResetClean(p, k, batches)
  }

  // ----- Clean runs -----

  lemma {:induction false} CleanConcat(p: Policy, m: Machine, xs: seq<Event>, ys: seq<Event>)
    ensures Clean(p, m, xs + ys) <==> Clean(p, m, xs) && Clean(p, Run(p, m, xs).machine, ys)
  {
    if ys == [] {
      assert xs + ys == xs;
    } else {
      var front, last := ys[..|ys| - 1], ys[|ys| - 1];
      assert (xs + ys)[..|xs + ys| - 1] == xs + front && (xs + ys)[|xs + ys| - 1] == last;
      CleanConcat(p, m, xs, front);
      RunConcat(p, m, xs, front);
    }
  }

  lemma {:induction false} EventsConcat(k: string, xs: seq<Observation>, ys: seq<Observation>)
    ensures EventsOf(k, xs + ys) == EventsOf(k, xs) + EventsOf(k, ys)
  {
    if ys == [] {
      assert xs + ys == xs;
    } else {
      assert (xs + ys)[..|xs + ys| - 1] == xs + ys[..|ys| - 1];
      EventsConcat(k, xs, ys[..|ys| - 1]);
    }
  }

  // ----- One input of a batch -----

  /** What the series saw before the n-th observation of a batch. */
  function SeenBefore(k: string, front: seq<Batch>, observations: seq<Observation>, n: nat): seq<Event>
    requires n <= |observations|
  {
    SeriesEvents(k, front) + EventsOf(k, observations[..n])
  }

  lemma {:induction false} ReachedIsSeen(layout: Layout, p: Policy, front: seq<Batch>, before: Deployment, batch: Batch, n: nat)
    requires Reaches(layout, p, front, before) && n < |batch.observations| && batch.partition < |before.partitions|
    requires Routed(layout, batch.partition, batch.observations) && SlashFreeInputs(batch.observations)
    ensures var k := batch.observations[n].series.Key();
            Reached(p, before.partitions[batch.partition], k, batch.observations[..n])
            == Run(p, Start(EMPTY_CELL), SeenBefore(k, front, batch.observations, n)).machine
  {
    var o := batch.observations[n];
    RoutedAt(layout, batch.partition, batch.observations, n);
    CheckpointPartition(layout.hash, layout.partitions, o.series);
    SeriesRunAlone(layout, p, front, before, o.series.Key());
    RunConcat(p, Start(EMPTY_CELL), SeriesEvents(o.series.Key(), front), EventsOf(o.series.Key(), batch.observations[..n]));
  }

  /** The events before an input of a reset-clean schedule are clean, and so is the input. */
  lemma {:induction false} SeenIsClean(p: Policy, front: seq<Batch>, batch: Batch, n: nat)
    requires n < |batch.observations| && AllResetClean(p, front + [batch])
    ensures var k := batch.observations[n].series.Key();
            Clean(p, Start(EMPTY_CELL), SeenBefore(k, front, batch.observations, n) + [Input(batch.observations[n])])
  {
    var os := batch.observations;
    var k := os[n].series.Key();
    var seen := SeenBefore(k, front, os, n) + [Input(os[n])];
    assert ResetClean(p, k, front + [batch]);
    assert (front + [batch])[..|front|] == front;
    assert os == os[..n + 1] + os[n + 1..] && os[..n + 1][..n] == os[..n];
    EventsConcat(k, os[..n + 1], os[n + 1..]);
    var rest := EventsOf(k, os[n + 1..]) + [Commit];
    assert SeriesEvents(k, front + [batch]) == seen + rest;
    CleanConcat(p, Start(EMPTY_CELL), seen, rest);
  }

  /** Two clean ways to the same inputs alert alike on the next one. */
  lemma {:induction false} NextInputAgrees(p: Policy, o: Observation, xs: seq<Event>, ys: seq<Event>)
    requires CloneSafe(p, o.series) && OnSeries(xs, o.series) && OnSeries(ys, o.series) && Inputs(xs) == Inputs(ys)
    requires Clean(p, Start(EMPTY_CELL), xs + [Input(o)]) && Clean(p, Start(EMPTY_CELL), ys)
    requires !Run(p, Start(EMPTY_CELL), ys).machine.fired
    ensures Step(p, Run(p, Start(EMPTY_CELL), xs).machine, Input(o)).alerts
            == Step(p, Run(p, Start(EMPTY_CELL), ys).machine, Input(o)).alerts
  {
    assert (xs + [Input(o)])[..|xs|] == xs;
    BatchBoundariesAreInvisible(p, o.series, Start(EMPTY_CELL), xs, ys);
    RunStaysSound(p, o.series, Start(EMPTY_CELL), xs);
    RunStaysSound(p, o.series, Start(EMPTY_CELL), ys);
    InputsAgree(p, o.series, Run(p, Start(EMPTY_CELL), xs).machine, Run(p, Start(EMPTY_CELL), ys).machine, o);
  }

  lemma {:induction false} SeenOnSeries(layout: Layout, p: Policy, front: seq<Batch>, before: Deployment,
                                        observations: seq<Observation>, n: nat, series: Series)
    requires Reaches(layout, p, front, before) && SlashFree(series) && SlashFreeInputs(observations) && n <= |observations|
    ensures OnSeries(SeenBefore(series.Key(), front, observations, n), series)
  {
    EventsAreOnSeries(layout, p, front, before, series);
    EventsOnSeries(observations[..n], series);
  }

  lemma {:induction false} SeenInputs(k: string, front: seq<Batch>, observations: seq<Observation>, n: nat)
    requires n <= |observations|
    ensures Inputs(SeenBefore(k, front, observations, n)) == ObservationsOf(k, Stream(front) + observations[..n])
  {
    InputsConcat(SeriesEvents(k, front), EventsOf(k, observations[..n]));
    InputsOfTheStream(k, front);
    EventsAreObservations(k, observations[..n]);
    ObservationsConcat(k, Stream(front), observations[..n]);
  }

  lemma {:induction false} ObservationsOnSeries(stream: seq<Observation>, series: Series)
    requires SlashFreeInputs(stream) && SlashFree(series)
    ensures OnSeries(OneByOne(ObservationsOf(series.Key(), stream)), series)
  {
    ObservedSeries(stream, series);
    OneByOneOnSeries(ObservationsOf(series.Key(), stream), series);
  }

  lemma {:induction false} ObservedSeries(stream: seq<Observation>, series: Series)
    requires SlashFreeInputs(stream) && SlashFree(series)
    ensures forall i :: 0 <= i < |ObservationsOf(series.Key(), stream)| ==> ObservationsOf(series.Key(), stream)[i].series == series
  {
    if stream != [] {
      var last := stream[|stream| - 1];
      ObservedSeries(stream[..|stream| - 1], series);
      if last.series.Key() == series.Key() {
        SeriesKeyIsInjective(last.series, series);
      }
    }
  }

  /** One input of a batch alerts as it does in sequence. */
  lemma {:induction false} InputIsSequential(layout: Layout, p: Policy, front: seq<Batch>, before: Deployment, batch: Batch, n: nat)
    requires Reaches(layout, p, front, before) && n < |batch.observations| && batch.partition < |before.partitions|
    requires Routed(layout, batch.partition, batch.observations)
    requires Fit(p, Stream(front) + batch.observations) && AllResetClean(p, front + [batch])
    ensures AlertsAlike(p, Stream(front), before.partitions[batch.partition], batch.observations, n)
  {
    var o, os := batch.observations[n], batch.observations;
    var k, stream := o.series.Key(), Stream(front) + os[..n];
    FitParts(p, Stream(front), os, n);
    ReachedIsSeen(layout, p, front, before, batch, n);
    SeenIsClean(p, front, batch, n);
    SeenOnSeries(layout, p, front, before, os, n, o.series);
    SeenInputs(k, front, os, n);
    OneByOneIsClean(p, EMPTY_CELL, ObservationsOf(k, stream));
    ObservationsOnSeries(stream, o.series);
    NextInputAgrees(p, o, SeenBefore(k, front, os, n), OneByOne(ObservationsOf(k, stream)));
  }

  lemma {:induction false} FitParts(p: Policy, stream: seq<Observation>, os: seq<Observation>, n: nat)
    requires Fit(p, stream + os) && n < |os|
    ensures SlashFreeInputs(os) && SlashFreeInputs(stream + os[..n]) && SlashFree(os[n].series) && CloneSafe(p, os[n].series)
    ensures Fit(p, stream)
  {
    var all := stream + os;
    forall i | 0 <= i < |os| ensures os[i] == all[|stream| + i] {
    }
    assert forall i :: 0 <= i < |stream + os[..n]| ==> (stream + os[..n])[i] == all[i];
    assert forall i :: 0 <= i < |stream| ==> stream[i] == all[i];
  }

  // ----- Whole batches, whole deployments -----

  /** The j-th input of a batch alerts as it does in sequence. */
  predicate AlertsAlike(p: Policy, stream: seq<Observation>, cells: Cells, os: seq<Observation>, j: nat)
    requires j < |os|
  {
    Step(p, Reached(p, cells, os[j].series.Key(), os[..j]), Input(os[j])).alerts
    == Step(p, AloneAfter(p, os[j].series.Key(), stream + os[..j]), Input(os[j])).alerts
  }

  lemma {:induction false} BatchIsSequential(p: Policy, stream: seq<Observation>, cells: Cells, os: seq<Observation>, n: nat)
    requires n <= |os| && forall j :: 0 <= j < n ==> AlertsAlike(p, stream, cells, os, j)
    ensures InSequence(p, stream + os[..n]) == InSequence(p, stream) + Emitted(p, cells, os[..n])
  {
    if n == 0 {
      NothingEmitted(p, stream, cells, os);
    } else {
      BatchIsSequential(p, stream, cells, os, n - 1);
      ExtendSequence(p, stream, cells, os, n);
    }
  }

  lemma {:induction false} NothingEmitted(p: Policy, stream: seq<Observation>, cells: Cells, os: seq<Observation>)
    ensures InSequence(p, stream + os[..0]) == InSequence(p, stream) + Emitted(p, cells, os[..0])
  {
    assert stream + os[..0] == stream;
  }

  lemma {:induction false} WholeBatch(p: Policy, stream: seq<Observation>, cells: Cells, os: seq<Observation>)
    requires forall j :: 0 <= j < |os| ==> AlertsAlike(p, stream, cells, os, j)
    ensures InSequence(p, stream + os) == InSequence(p, stream) + Emitted(p, cells, os)
  {
    BatchIsSequential(p, stream, cells, os, |os|);
    assert os[..|os|] == os;
  }

  /** One more input in sequence, given that it alerts alike. */
  lemma {:induction false} ExtendSequence(p: Policy, stream: seq<Observation>, cells: Cells, os: seq<Observation>, n: nat)
    requires 0 < n <= |os|
    requires InSequence(p, stream + os[..n - 1]) == InSequence(p, stream) + Emitted(p, cells, os[..n - 1])
    requires AlertsAlike(p, stream, cells, os, n - 1)
    ensures InSequence(p, stream + os[..n]) == InSequence(p, stream) + Emitted(p, cells, os[..n])
  {
    var more := Step(p, Reached(p, cells, os[n - 1].series.Key(), os[..n - 1]), Input(os[n - 1])).alerts;
    EmittedAt(p, cells, os, n, more);
    SequenceAt(p, stream, os, n, more);
    Associative(InSequence(p, stream), Emitted(p, cells, os[..n - 1]), more);
  }

  lemma {:induction false} EmittedAt(p: Policy, cells: Cells, os: seq<Observation>, n: nat, more: seq<Alert>)
    requires 0 < n <= |os|
    requires Step(p, Reached(p, cells, os[n - 1].series.Key(), os[..n - 1]), Input(os[n - 1])).alerts == more
    ensures Emitted(p, cells, os[..n]) == Emitted(p, cells, os[..n - 1]) + more
  {
    assert os[..n][..n - 1] == os[..n - 1];
    EmittedSnoc(p, cells, os[..n]);
  }

  lemma {:induction false} SequenceAt(p: Policy, stream: seq<Observation>, os: seq<Observation>, n: nat, more: seq<Alert>)
    requires 0 < n <= |os|
    requires Step(p, AloneAfter(p, os[n - 1].series.Key(), stream + os[..n - 1]), Input(os[n - 1])).alerts == more
    ensures InSequence(p, stream + os[..n]) == InSequence(p, stream + os[..n - 1]) + more
  {
    StreamSlice(stream, os, n);
    SequenceSnoc(p, stream + os[..n - 1], os[n - 1]);
  }

  lemma {:induction false} StreamSlice(stream: seq<Observation>, os: seq<Observation>, n: nat)
    requires 0 < n <= |os|
    ensures (stream + os[..n - 1]) + [os[n - 1]] == stream + os[..n]
  {
  }

  lemma {:induction false} SequenceSnoc(p: Policy, stream: seq<Observation>, o: Observation)
    ensures InSequence(p, stream + [o])
            == InSequence(p, stream) + Step(p, AloneAfter(p, o.series.Key(), stream), Input(o)).alerts
  {
    assert (stream + [o])[..|stream|] == stream;
  }

  lemma {:induction false} CleanBefore(p: Policy, front: seq<Batch>, batch: Batch)
    requires AllResetClean(p, front + [batch])
    ensures AllResetClean(p, front)
  {
    forall k ensures ResetClean(p, k, front) {
      assert ResetClean(p, k, front + [batch]);
      assert (front + [batch])[..|front|] == front;
      CleanConcat(p, Start(EMPTY_CELL), SeriesEvents(k, front), EventsOf(k, batch.observations) + [Commit]);
    }
  }

  lemma {:induction false} FitFront(p: Policy, stream: seq<Observation>, os: seq<Observation>)
    requires Fit(p, stream + os)
    ensures Fit(p, stream)
  {
    assert forall i :: 0 <= i < |stream| ==> stream[i] == (stream + os)[i];
  }

  /** Everything a deployment offers to the log is what the stream offers in sequence. */
  lemma {:induction false} DeploymentIsSequential(layout: Layout, p: Policy, batches: seq<Batch>, d: Deployment)
    requires Reaches(layout, p, batches, d)
    requires Fit(p, Stream(batches)) && AllResetClean(p, batches)
    ensures d.offered == InSequence(p, Stream(batches))
  {
    if batches != [] {
      var before := Before(layout, p, batches, d);
      FrontIsFit(p, batches);
      DeploymentIsSequential(layout, p, batches[..|batches| - 1], before);
      OneMoreIsSequential(layout, p, batches, before);
    }
  }

  lemma {:induction false} LastBatch(batches: seq<Batch>)
    requires batches != []
    ensures batches == batches[..|batches| - 1] + [batches[|batches| - 1]]
  {
  }

  lemma {:induction false} FrontIsFit(p: Policy, batches: seq<Batch>)
    requires batches != [] && Fit(p, Stream(batches)) && AllResetClean(p, batches)
    ensures Fit(p, Stream(batches[..|batches| - 1])) && AllResetClean(p, batches[..|batches| - 1])
  {
    LastBatch(batches);
    FitFront(p, Stream(batches[..|batches| - 1]), batches[|batches| - 1].observations);
    CleanBefore(p, batches[..|batches| - 1], batches[|batches| - 1]);
  }

  lemma {:induction false} OneMoreIsSequential(layout: Layout, p: Policy, batches: seq<Batch>, before: Deployment)
    requires batches != [] && Fit(p, Stream(batches)) && AllResetClean(p, batches)
    requires Reaches(layout, p, batches[..|batches| - 1], before)
    requires var batch := batches[|batches| - 1];
             batch.partition < |before.partitions| && Routed(layout, batch.partition, batch.observations)
    ensures var batch := batches[|batches| - 1];
            InSequence(p, Stream(batches))
            == InSequence(p, Stream(batches[..|batches| - 1])) + Emitted(p, before.partitions[batch.partition], batch.observations)
  {
    var batch := batches[|batches| - 1];
    LastBatch(batches);
    var front, os := batches[..|batches| - 1], batch.observations;
    var stream, cells := Stream(front), before.partitions[batch.partition];
    forall j | 0 <= j < |os| ensures AlertsAlike(p, stream, cells, os, j) {
      InputIsSequential(layout, p, front, before, batch, j);
    }
    WholeBatch(p, stream, cells, os);
  }

  /**
   Two deployments of any layouts that commit the same stream, cut into any reset-clean batches, have
   the very same alert log: every alert, its place and its cursor.
   */
  lemma {:induction false} OneStreamOneLog(a: Layout, b: Layout, p: Policy, xs: seq<Batch>, ys: seq<Batch>,
                                           da: Deployment, db: Deployment)
    requires Reaches(a, p, xs, da) && Reaches(b, p, ys, db)
    requires Stream(xs) == Stream(ys) && Fit(p, Stream(xs)) && AllResetClean(p, xs) && AllResetClean(p, ys)
    ensures da.offered == db.offered && da.Log() == db.Log()
  {
    DeploymentIsSequential(a, p, xs, da);
    DeploymentIsSequential(b, p, ys, db);
  }

  // ----- The cells of every partition -----

  lemma {:induction false} IdleRun(p: Policy, events: seq<Event>)
    requires Inputs(events) == []
    ensures Run(p, Start(EMPTY_CELL), events).machine == Start(EMPTY_CELL)
  {
    if events != [] {
      IdleRun(p, events[..|events| - 1]);
    }
  }

  lemma {:induction false} OneByOneIsCommitted(p: Policy, os: seq<Observation>)
    ensures var m := Run(p, Start(EMPTY_CELL), OneByOne(os)).machine; m == Start(m.cell)
  {
    if os != [] {
      var before, last := OneByOne(os[..|os| - 1]), os[|os| - 1];
      assert OneByOne(os) == (before + [Input(last)]) + [Commit];
      RunSnoc(p, Start(EMPTY_CELL), before + [Input(last)], Commit);
    }
  }

  lemma {:induction false} ForeignCellsAreEmpty(layout: Layout, p: Policy, batches: seq<Batch>, d: Deployment, i: nat, k: string)
    requires Reaches(layout, p, batches, d) && i < |d.partitions| && layout.Home(k) != i
    ensures d.partitions[i].At(k) == EMPTY_CELL
  {
    if batches != [] {
      var batch := batches[|batches| - 1];
      var before := Before(layout, p, batches, d);
      ForeignCellsAreEmpty(layout, p, batches[..|batches| - 1], before, i, k);
      if batch.partition == i {
        StrayCellStays(layout, p, before.partitions[i], d.partitions[i], batch, k);
      }
    }
  }

  lemma {:induction false} StrayCellStays(layout: Layout, p: Policy, before: Cells, after: Cells, batch: Batch, k: string)
    requires Routed(layout, batch.partition, batch.observations) && SlashFreeInputs(batch.observations)
    requires EveryCellAdvances(p, before, after, batch.observations) && layout.Home(k) != batch.partition
    ensures after.At(k) == before.At(k)
  {
    NoStrayInputs(layout, batch.partition, batch.observations, k);
    assert after.At(k) == AfterBatch(p, before, k, batch.observations);
    AfterBatchCommits(p, before, k, batch.observations);
  }

  lemma {:induction false} SomeSeries(stream: seq<Observation>, k: string) returns (i: nat)
    ensures ObservationsOf(k, stream) != [] ==> i < |stream| && stream[i].series.Key() == k
  {
    i := 0;
    if stream != [] {
      if stream[|stream| - 1].series.Key() == k {
        i := |stream| - 1;
      } else {
        i := SomeSeries(stream[..|stream| - 1], k);
      }
    }
  }

  /** At home a series has the cell of its own sequential machine; elsewhere it has nothing. */
  lemma {:induction false} CellOf(layout: Layout, p: Policy, batches: seq<Batch>, d: Deployment, i: nat, k: string)
    requires Reaches(layout, p, batches, d) && i < |d.partitions|
    requires Fit(p, Stream(batches)) && AllResetClean(p, batches)
    ensures d.partitions[i].At(k) == if layout.Home(k) == i then AloneAfter(p, k, Stream(batches)).cell else EMPTY_CELL
  {
    if layout.Home(k) != i {
      ForeignCellsAreEmpty(layout, p, batches, d, i, k);
    } else {
      HomeCell(layout, p, batches, d, k);
    }
  }

  lemma {:induction false} HomeCell(layout: Layout, p: Policy, batches: seq<Batch>, d: Deployment, k: string)
    requires Reaches(layout, p, batches, d) && layout.Home(k) < |d.partitions|
    requires Fit(p, Stream(batches)) && AllResetClean(p, batches)
    ensures d.partitions[layout.Home(k)].At(k) == AloneAfter(p, k, Stream(batches)).cell
  {
    var stream := Stream(batches);
    if ObservationsOf(k, stream) == [] {
      InputsOfTheStream(k, batches);
      IdleRun(p, SeriesEvents(k, batches));
      SeriesRunAlone(layout, p, batches, d, k);
    } else {
      var j := SomeSeries(stream, k);
      assert ResetClean(p, k, batches);
      RunsAlone(layout, p, stream[j].series, batches, d);
      OneByOneIsCommitted(p, ObservationsOf(k, stream));
      CommittedAlready(p, OneByOne(ObservationsOf(k, stream)), AloneAfter(p, k, stream).cell);
    }
  }

  /**
   Two deployments of one layout that commit the same stream, cut into any reset-clean batches, are
   the same: every partition, and the log.
   */
  lemma {:induction false} OneStreamOneDeployment(layout: Layout, p: Policy, xs: seq<Batch>, ys: seq<Batch>,
                                                  da: Deployment, db: Deployment)
    requires Reaches(layout, p, xs, da) && Reaches(layout, p, ys, db)
    requires Stream(xs) == Stream(ys) && Fit(p, Stream(xs)) && AllResetClean(p, xs) && AllResetClean(p, ys)
    ensures da == db && da.Log() == db.Log()
  {
    OneStreamOneLog(layout, layout, p, xs, ys, da, db);
    SeriesRunAlone(layout, p, xs, da, "");
    SeriesRunAlone(layout, p, ys, db, "");
    forall i | 0 <= i < |da.partitions| ensures da.partitions[i] == db.partitions[i] {
      forall k ensures da.partitions[i].At(k) == db.partitions[i].At(k) {
        CellOf(layout, p, xs, da, i, k);
        CellOf(layout, p, ys, db, i, k);
      }
      CellsAreExtensional(da.partitions[i], db.partitions[i]);
    }
  }

  // ----- Cutting one batch in two -----

  lemma {:induction false} FiredSince(p: Policy, m: Machine, events: seq<Event>)
    requires forall i :: 0 <= i < |events| ==> events[i].Input?
    ensures Run(p, m, events).machine.fired <==> m.fired || Run(p, m, events).alerts != []
  {
    if events != [] {
      FiredSince(p, m, events[..|events| - 1]);
    }
  }

  /** A commit in the middle of a clean batch leaves it clean. */
  lemma {:induction false} CutStaysClean(p: Policy, series: Series, m: Machine, events: seq<Event>)
    requires CloneSafe(p, series) && Sound(p, series, m) && OnSeries(events, series)
    requires forall i :: 0 <= i < |events| ==> events[i].Input?
    requires Clean(p, m, events)
    ensures Clean(p, m, [Commit] + events)
  {
    if events != [] {
      var front, last := events[..|events| - 1], events[|events| - 1];
      CutStaysClean(p, series, m, front);
      CutAgrees(p, series, m, front);
      var cut := [Commit] + events;
      assert cut[..|cut| - 1] == [Commit] + front && cut[|cut| - 1] == last;
    } else {
      assert ([Commit] + events)[..0] == [];
    }
  }

  /** ... accepts the same next input, and has fired no more. */
  lemma {:induction false} CutAgrees(p: Policy, series: Series, m: Machine, events: seq<Event>)
    requires CloneSafe(p, series) && Sound(p, series, m) && OnSeries(events, series)
    requires forall i :: 0 <= i < |events| ==> events[i].Input?
    requires Clean(p, m, events) && Clean(p, m, [Commit] + events)
    ensures var whole, cut := Run(p, m, events).machine, Run(p, m, [Commit] + events).machine;
            && (cut.fired ==> whole.fired)
            && forall o :: Accepts(p, cut, o) <==> Accepts(p, whole, o)
  {
    var cut := [Commit] + events;
    CutInputs(events);
    BatchBoundariesAreInvisible(p, series, m, events, cut);
    FiredSince(p, m, events);
    RunConcat(p, m, [Commit], events);
    CommitFirst(p, m);
    FiredSince(p, Step(p, m, Commit).machine, events);
    AlikeAcceptsAlike(p, Run(p, m, cut).machine, Run(p, m, events).machine);
  }

  lemma {:induction false} CommitFirst(p: Policy, m: Machine)
    ensures Run(p, m, [Commit]).machine == Step(p, m, Commit).machine && Run(p, m, [Commit]).alerts == []
    ensures !Step(p, m, Commit).machine.fired
  {
    RunSnoc(p, m, [], Commit);
    assert [] + [Commit] == [Commit];
  }

  lemma {:induction false} CutInputs(events: seq<Event>)
    ensures Inputs([Commit] + events) == Inputs(events)
  {
    InputsConcat([Commit], events);
    assert [Commit][..0] == [];
  }

  lemma {:induction false} AlikeAcceptsAlike(p: Policy, a: Machine, b: Machine)
    requires Alike(p, a, b)
    ensures forall o :: Accepts(p, a, o) <==> Accepts(p, b, o)
  {
    forall o ensures Accepts(p, a, o) <==> Accepts(p, b, o) {
      assert Rejects(Now(p, a), o) == Rejects(Now(p, b), o);
    }
  }

  lemma {:induction false} IdleIsClean(p: Policy, m: Machine, events: seq<Event>)
    requires Inputs(events) == []
    ensures Clean(p, m, events)
  {
    if events != [] {
      IdleIsClean(p, m, events[..|events| - 1]);
    }
  }

  /** What a series sees of a schedule that ends in the given batch. */
  lemma {:induction false} SeriesEventsSnoc(k: string, front: seq<Batch>, batch: Batch)
    ensures SeriesEvents(k, front + [batch]) == SeriesEvents(k, front) + (EventsOf(k, batch.observations) + [Commit])
  {
    assert (front + [batch])[..|front|] == front;
  }

  lemma {:induction false} StreamSnoc(front: seq<Batch>, batch: Batch)
    ensures Stream(front + [batch]) == Stream(front) + batch.observations
  {
    assert (front + [batch])[..|front|] == front;
  }

  function OneBatch(front: seq<Batch>, i: nat, xs: seq<Observation>, ys: seq<Observation>): seq<Batch> {
    front + [Batch(i, xs + ys)]
  }

  function TwoBatches(front: seq<Batch>, i: nat, xs: seq<Observation>, ys: seq<Observation>): seq<Batch> {
    (front + [Batch(i, xs)]) + [Batch(i, ys)]
  }

  lemma {:induction false} CutEvents(k: string, front: seq<Batch>, i: nat, xs: seq<Observation>, ys: seq<Observation>)
    ensures SeriesEvents(k, OneBatch(front, i, xs, ys))
            == (SeriesEvents(k, front) + EventsOf(k, xs)) + (EventsOf(k, ys) + [Commit])
    ensures SeriesEvents(k, TwoBatches(front, i, xs, ys))
            == (SeriesEvents(k, front) + EventsOf(k, xs)) + (([Commit] + EventsOf(k, ys)) + [Commit])
  {
    EventsConcat(k, xs, ys);
    SeriesEventsSnoc(k, front, Batch(i, xs + ys));
    SeriesEventsSnoc(k, front, Batch(i, xs));
    SeriesEventsSnoc(k, front + [Batch(i, xs)], Batch(i, ys));
    Regroup(SeriesEvents(k, front), EventsOf(k, xs), [Commit], EventsOf(k, ys), [Commit]);
  }

  lemma {:induction false} Regroup<T>(a: seq<T>, x: seq<T>, c: seq<T>, y: seq<T>, d: seq<T>)
    ensures a + ((x + y) + d) == (a + x) + (y + d)
    ensures (a + (x + c)) + (y + d) == (a + x) + ((c + y) + d)
  {
  }

  lemma {:induction false} CutStream(front: seq<Batch>, i: nat, xs: seq<Observation>, ys: seq<Observation>)
    ensures Stream(OneBatch(front, i, xs, ys)) == Stream(TwoBatches(front, i, xs, ys)) == Stream(front) + (xs + ys)
  {
    StreamSnoc(front, Batch(i, xs + ys));
    StreamSnoc(front, Batch(i, xs));
    StreamSnoc(front + [Batch(i, xs)], Batch(i, ys));
    assert (Stream(front) + xs) + ys == Stream(front) + (xs + ys);
  }

  lemma {:induction false} CutCleanFor(p: Policy, series: Series, past: seq<Event>, events: seq<Event>)
    requires CloneSafe(p, series) && OnSeries(past, series) && OnSeries(events, series)
    requires forall i :: 0 <= i < |events| ==> events[i].Input?
    requires Clean(p, Start(EMPTY_CELL), past + (events + [Commit]))
    ensures Clean(p, Start(EMPTY_CELL), past + (([Commit] + events) + [Commit]))
  {
    var m := Run(p, Start(EMPTY_CELL), past).machine;
    CleanConcat(p, Start(EMPTY_CELL), past, events + [Commit]);
    CleanConcat(p, m, events, [Commit]);
    RunStaysSound(p, series, Start(EMPTY_CELL), past);
    CutStaysClean(p, series, m, events);
    CommitIsClean(p, m, [Commit] + events);
    CleanConcat(p, Start(EMPTY_CELL), past, ([Commit] + events) + [Commit]);
  }

  lemma {:induction false} CommitIsClean(p: Policy, m: Machine, events: seq<Event>)
    requires Clean(p, m, events)
    ensures Clean(p, m, events + [Commit])
  {
    assert (events + [Commit])[..|events|] == events;
  }

  lemma {:induction false} CutIsResetClean(layout: Layout, p: Policy, front: seq<Batch>, before: Deployment, i: nat,
                                           xs: seq<Observation>, ys: seq<Observation>, k: string)
    requires Reaches(layout, p, front, before) && Fit(p, Stream(front) + (xs + ys))
    requires ResetClean(p, k, OneBatch(front, i, xs, ys))
    ensures ResetClean(p, k, TwoBatches(front, i, xs, ys))
  {
    var stream := Stream(front) + (xs + ys);
    CutEvents(k, front, i, xs, ys);
    CutStream(front, i, xs, ys);
    InputsOfTheStream(k, TwoBatches(front, i, xs, ys));
    if ObservationsOf(k, stream) == [] {
      IdleIsClean(p, Start(EMPTY_CELL), SeriesEvents(k, TwoBatches(front, i, xs, ys)));
    } else {
      var j := SomeSeries(stream, k);
      var series := stream[j].series;
      PartsAreSlashFree(stream, Stream(front), xs, ys);
      EventsAreOnSeries(layout, p, front, before, series);
      EventsOnSeries(xs, series);
      EventsOnSeries(ys, series);
      EventsAreInputs(k, ys);
      CutCleanFor(p, series, SeriesEvents(k, front) + EventsOf(k, xs), EventsOf(k, ys));
    }
  }

  lemma {:induction false} PartsAreSlashFree(stream: seq<Observation>, past: seq<Observation>, xs: seq<Observation>, ys: seq<Observation>)
    requires stream == past + (xs + ys) && SlashFreeInputs(stream)
    ensures SlashFreeInputs(xs) && SlashFreeInputs(ys)
  {
    forall i | 0 <= i < |xs| ensures xs[i] == stream[|past| + i] {
    }
    forall i | 0 <= i < |ys| ensures ys[i] == stream[|past| + |xs| + i] {
    }
  }

  /**
   A reset-clean batch leaves every partition and the whole log, order and cursors included, as
   committing any first part of it and then the rest.
   */
  lemma {:induction false} CuttingABatchChangesNothing(layout: Layout, p: Policy, front: seq<Batch>, i: nat,
                                                       xs: seq<Observation>, ys: seq<Observation>, da: Deployment, db: Deployment)
    requires Fit(p, Stream(front) + (xs + ys))
    requires Reaches(layout, p, OneBatch(front, i, xs, ys), da) && Reaches(layout, p, TwoBatches(front, i, xs, ys), db)
    requires AllResetClean(p, OneBatch(front, i, xs, ys))
    ensures da == db && da.Log() == db.Log()
  {
    assert OneBatch(front, i, xs, ys)[..|front|] == front;
    var before := Before(layout, p, OneBatch(front, i, xs, ys), da);
    CutStream(front, i, xs, ys);
    forall k ensures ResetClean(p, k, TwoBatches(front, i, xs, ys)) {
      assert ResetClean(p, k, OneBatch(front, i, xs, ys));
      CutIsResetClean(layout, p, front, before, i, xs, ys, k);
    }
    OneStreamOneDeployment(layout, p, OneBatch(front, i, xs, ys), TwoBatches(front, i, xs, ys), da, db);
  }
}
