/** Deployments whose workers stop and start again, rebuilding their partitions from the store. */
module CrashRecovery {
  import opened Keys
  import opened Rules
  import opened Routing
  import opened SeriesMachine
  import opened AlertLog
  import opened Model
  import opened PartitionCells
  import opened BatchEvaluation
  import opened BatchCommit
  import opened Recovery
  import opened Sharding
  import opened Sequential

  datatype Cluster = Cluster(deployment: Deployment, stored: Cells)

  /** A committed batch, or a partition rebuilt from the store by whichever worker owns it now. */
  datatype Move = Evaluate(batch: Batch) | Restart(partition: nat)

  ghost predicate Follows(layout: Layout, p: Policy, before: Cluster, after: Cluster, move: Move) {
    match move
    case Evaluate(batch) =>
      && Evaluates(layout, p, before.deployment, after.deployment, batch)
      && EveryCellIsSaved(p, before.deployment.partitions[batch.partition], before.stored, after.stored, batch.observations)
    case Restart(i) =>
      && i < |before.deployment.partitions|
      && after == before.(deployment := before.deployment.(
                   partitions := before.deployment.partitions[i := Loaded(layout, before.stored, i)]))
  }

  ghost predicate Arrives(layout: Layout, p: Policy, moves: seq<Move>, c: Cluster) {
    if moves == [] then Reaches(layout, p, [], c.deployment) && c.stored == NO_CELLS
    else
      var front, last := moves[..|moves| - 1], moves[|moves| - 1];
      exists before :: Arrives(layout, p, front, before) && Follows(layout, p, before, c, last)
  }

  function Batches(moves: seq<Move>): seq<Batch> {
    if moves == [] then []
    else
      var before, last := Batches(moves[..|moves| - 1]), moves[|moves| - 1];
      if last.Evaluate? then before + [last.batch] else before
  }

  /** Every partition is what the store would rebuild. */
  ghost predicate Recoverable(layout: Layout, c: Cluster) {
    forall i :: 0 <= i < |c.deployment.partitions| ==> c.deployment.partitions[i] == Loaded(layout, c.stored, i)
  }

  lemma {:induction false} NothingLoads(layout: Layout, i: nat)
    ensures Loaded(layout, NO_CELLS, i) == NO_CELLS
  {
  }

  lemma {:induction false} BatchStaysRecoverable(layout: Layout, p: Policy, before: Cluster, after: Cluster, batch: Batch)
    requires p.clone == AsWritten && Recoverable(layout, before) && Follows(layout, p, before, after, Evaluate(batch))
    ensures Recoverable(layout, after)
  {
    var i := batch.partition;
    LiveEqualsReloaded(layout, i, p, before.deployment.partitions[i], before.stored, after.deployment.partitions[i],
                       after.stored, batch.observations);
    forall j | 0 <= j < |after.deployment.partitions| && j != i
      ensures after.deployment.partitions[j] == Loaded(layout, after.stored, j)
    {
      OthersBatchesAreNotSeen(layout, j, i, p, before.deployment.partitions[i], before.stored, after.stored, batch.observations);
    }
  }

  /**
   Over any run, restarts at any points leave no trace: the cluster is where its batches alone
   would have taken it, and every partition still is what the store would rebuild.
   */
  lemma {:induction false} RestartsAreInvisible(layout: Layout, p: Policy, moves: seq<Move>, c: Cluster)
    requires p.clone == AsWritten && Arrives(layout, p, moves, c)
    ensures Reaches(layout, p, Batches(moves), c.deployment)
    ensures Recoverable(layout, c)
  {
    if moves == [] {
      forall i | 0 <= i < |c.deployment.partitions| ensures c.deployment.partitions[i] == Loaded(layout, c.stored, i) {
        NothingLoads(layout, i);
      }
    } else {
      var front, last := moves[..|moves| - 1], moves[|moves| - 1];
      var before :| Arrives(layout, p, front, before) && Follows(layout, p, before, c, last);
      RestartsAreInvisible(layout, p, front, before);
      match last {
        case Evaluate(batch) =>
          BatchStaysRecoverable(layout, p, before, c, batch);
          OneMoreBatch(layout, p, Batches(front), before.deployment, c.deployment, batch);
        case Restart(i) =>
          assert c.deployment.partitions == before.deployment.partitions;
      }
    }
  }

  /**
   Two clusters that commit the same stream, cut into any reset-clean batches and restarted anywhere,
   have the same partitions and log, and their stores rebuild the same.
   */
  lemma {:induction false} OneStreamOneCluster(layout: Layout, p: Policy, xs: seq<Move>, ys: seq<Move>, a: Cluster, b: Cluster)
    requires p.clone == AsWritten && Arrives(layout, p, xs, a) && Arrives(layout, p, ys, b)
    requires Stream(Batches(xs)) == Stream(Batches(ys)) && Fit(p, Stream(Batches(xs)))
    requires AllResetClean(p, Batches(xs)) && AllResetClean(p, Batches(ys))
    ensures a.deployment == b.deployment && a.deployment.Log() == b.deployment.Log()
    ensures forall i :: 0 <= i < |a.deployment.partitions| ==> Loaded(layout, a.stored, i) == Loaded(layout, b.stored, i)
  {
    RestartsAreInvisible(layout, p, xs, a);
    RestartsAreInvisible(layout, p, ys, b);
    OneStreamOneDeployment(layout, p, Batches(xs), Batches(ys), a.deployment, b.deployment);
  }

  // ----- Commits whose reply is lost -----

  /** The commit of a batch took effect unheard: the store and the log have it, the partition does not. */
  ghost predicate FollowsUnheard(layout: Layout, p: Policy, before: Cluster, after: Cluster, batch: Batch) {
    var i := batch.partition;
    && i < |before.deployment.partitions|
    && Routed(layout, i, batch.observations) && SlashFreeInputs(batch.observations)
    && EveryCellIsSaved(p, before.deployment.partitions[i], before.stored, after.stored, batch.observations)
    && after.deployment.partitions == before.deployment.partitions
    && after.deployment.offered == before.deployment.offered + Emitted(p, before.deployment.partitions[i], batch.observations)
  }

  lemma {:induction false} SameSaved(p: Policy, cells: Cells, stored: Cells, a: Cells, b: Cells, observations: seq<Observation>)
    requires EveryCellIsSaved(p, cells, stored, a, observations) && EveryCellIsSaved(p, cells, stored, b, observations)
    ensures a == b
  {
    forall k ensures a.At(k) == b.At(k) {
      assert a.At(k) == Checkpointed(stored.At(k), Reached(p, cells, k, observations).work);
      assert b.At(k) == Checkpointed(stored.At(k), Reached(p, cells, k, observations).work);
    }
    CellsAreExtensional(a, b);
  }

  lemma {:induction false} SameAdvance(p: Policy, cells: Cells, a: Cells, b: Cells, observations: seq<Observation>)
    requires EveryCellAdvances(p, cells, a, observations) && EveryCellAdvances(p, cells, b, observations)
    ensures a == b
  {
    forall k ensures a.At(k) == b.At(k) {
      assert a.At(k) == AfterBatch(p, cells, k, observations);
      assert b.At(k) == AfterBatch(p, cells, k, observations);
    }
    CellsAreExtensional(a, b);
  }

  /** Saving the same work again changes nothing. */
  lemma {:induction false} SavingTwice(p: Policy, cells: Cells, stored: Cells, saved: Cells, again: Cells, observations: seq<Observation>)
    requires EveryCellIsSaved(p, cells, stored, saved, observations) && EveryCellIsSaved(p, cells, saved, again, observations)
    ensures again == saved
  {
    forall k ensures again.At(k) == saved.At(k) {
      var work := Reached(p, cells, k, observations).work;
      assert saved.At(k) == Checkpointed(stored.At(k), work);
      assert again.At(k) == Checkpointed(saved.At(k), work);
      CheckpointingTwice(stored.At(k), work);
    }
    CellsAreExtensional(again, saved);
  }

  lemma {:induction false} CheckpointingTwice(stored: Cell, work: Work)
    ensures Checkpointed(Checkpointed(stored, work), work) == Checkpointed(stored, work)
  {
  }

  /** Offering the same alerts again leaves the log as it is. */
  lemma {:induction false} OfferingTwice(offered: seq<Alert>, more: seq<Alert>)
    ensures Appended([], (offered + more) + more) == Appended([], offered + more)
  {
    var log := Appended([], offered);
    AppendingKeepsDense([], offered);
    AppendingKeepsDense(log, more);
    AppendingSplits([], offered, more);
    AppendingSplits([], offered + more, more);
    forall i | 0 <= i < |more| ensures Contains(Appended(log, more), more[i].id) {
      assert Contains(more, more[i].id);
    }
    AppendingIsIdempotent(Appended(log, more), more);
  }

  /** The second work goes on from the first. */
  predicate Extends(first: Work, second: Work) {
    && (first.state.Some? ==> second.state.Some?) && (first.state.None? ==> first == NO_WORK)
    && (first.wasReset ==> second.wasReset)
    && (!second.wasReset ==> first.definitions.Keys <= second.definitions.Keys)
  }

  lemma {:induction false} EvaluatingKeepsKeys(cs: seq<Compiled>, o: Observation, f: Feature,
                                               base: map<string, DefinitionState>, overlay: map<string, DefinitionState>)
    ensures overlay.Keys <= EvaluateDefinitions(cs, o, f, base, overlay).definitions.Keys
  {
    if cs != [] {
      EvaluatingKeepsKeys(cs[..|cs| - 1], o, f, base, overlay);
    }
  }

  lemma {:induction false} DeliveringExtends(p: Policy, cell: Cell, first: Work, work: Work, o: Observation)
    requires Extends(first, work)
    ensures Extends(first, Deliver(p, cell, work, o).work)
  {
    var s := Current(p, cell, work);
    if !Rejects(s, o) && !o.reset {
      var seen := WithZones(o, s);
      EvaluatingKeepsKeys(DefinitionsFor(p.routes, o.series), seen, FeatureFor(p.clone, seen, s), Base(cell, work), work.definitions);
    }
  }

  /** What a series has worked out after more inputs extends what it had worked out. */
  lemma {:induction false} MoreInputsExtend(p: Policy, cells: Cells, k: string, xs: seq<Observation>, ys: seq<Observation>)
    ensures Extends(Reached(p, cells, k, xs).work, Reached(p, cells, k, xs + ys).work)
  {
    if ys == [] {
      assert xs + ys == xs;
      ReachedIsTidy(p, cells, k, xs);
    } else {
      var all, n := xs + ys, |xs + ys| - 1;
      MoreInputsExtend(p, cells, k, xs, ys[..|ys| - 1]);
      assert all[..n] == xs + ys[..|ys| - 1] && all[..n + 1] == all;
      OneMoreInput(p, cells, k, all, n);
      DeliveringExtends(p, Reached(p, cells, k, all[..n]).cell, Reached(p, cells, k, xs).work,
                        Reached(p, cells, k, all[..n]).work, all[n]);
    }
  }

  /** A checkpoint of some work, overwritten by one of work that extends it. */
  lemma {:induction false} CheckpointingMore(stored: Cell, first: Work, second: Work)
    requires Extends(first, second)
    ensures Checkpointed(Checkpointed(stored, first), second) == Checkpointed(stored, second)
  {
    if first.state.Some? && !second.wasReset {
      Overwritten(stored.definitions, first.definitions, second.definitions);
    }
  }

  lemma {:induction false} Overwritten<K, V>(base: map<K, V>, first: map<K, V>, second: map<K, V>)
    requires first.Keys <= second.Keys
    ensures (base + first) + second == base + second
  {
  }

  lemma {:induction false} SavingMore(p: Policy, cells: Cells, stored: Cells, saved: Cells, again: Cells, wanted: Cells,
                                      xs: seq<Observation>, ys: seq<Observation>)
    requires EveryCellIsSaved(p, cells, stored, saved, xs)
    requires EveryCellIsSaved(p, cells, saved, again, xs + ys) && EveryCellIsSaved(p, cells, stored, wanted, xs + ys)
    ensures again == wanted
  {
    forall k ensures again.At(k) == wanted.At(k) {
      assert saved.At(k) == Checkpointed(stored.At(k), Reached(p, cells, k, xs).work);
      assert again.At(k) == Checkpointed(saved.At(k), Reached(p, cells, k, xs + ys).work);
      assert wanted.At(k) == Checkpointed(stored.At(k), Reached(p, cells, k, xs + ys).work);
      MoreInputsExtend(p, cells, k, xs, ys);
      CheckpointingMore(stored.At(k), Reached(p, cells, k, xs).work, Reached(p, cells, k, xs + ys).work);
    }
    CellsAreExtensional(again, wanted);
  }

  /** A longer batch emits what its first part emits, and then more. */
  lemma {:induction false} EmittedFirst(p: Policy, cells: Cells, xs: seq<Observation>, ys: seq<Observation>) returns (more: seq<Alert>)
    ensures Emitted(p, cells, xs + ys) == Emitted(p, cells, xs) + more
  {
    if ys == [] {
      more := [];
      assert xs + ys == xs;
    } else {
      var before := EmittedFirst(p, cells, xs, ys[..|ys| - 1]);
      assert (xs + ys)[..|xs + ys| - 1] == xs + ys[..|ys| - 1];
      EmittedSnoc(p, cells, xs + ys);
      var last := Step(p, Reached(p, cells, ys[|ys| - 1].series.Key(), xs + ys[..|ys| - 1]), Input(ys[|ys| - 1])).alerts;
      Associative(Emitted(p, cells, xs), before, last);
      more := before + last;
    }
  }

  /** Offering a first part, and then it again with more, is offering all of it once. */
  lemma {:induction false} OfferingMore(offered: seq<Alert>, first: seq<Alert>, more: seq<Alert>)
    ensures Appended([], (offered + first) + (first + more)) == Appended([], offered + (first + more))
  {
    OfferingTwice(offered, first);
    assert (offered + first) + (first + more) == ((offered + first) + first) + more;
    assert offered + (first + more) == (offered + first) + more;
    AppendingSplits([], (offered + first) + first, more);
    AppendingSplits([], offered + first, more);
  }

  /**
   After a commit that took effect unheard, redelivery may cut the batches anew: committing what was
   in it and any more ends like one heard commit of all that: partitions, store and log.
   */
  lemma {:induction false} RetryingMoreActsOnce(layout: Layout, p: Policy, before: Cluster, unheard: Cluster, retried: Cluster,
                                                heard: Cluster, i: nat, xs: seq<Observation>, ys: seq<Observation>)
    requires FollowsUnheard(layout, p, before, unheard, Batch(i, xs))
    requires Follows(layout, p, unheard, retried, Evaluate(Batch(i, xs + ys)))
    requires Follows(layout, p, before, heard, Evaluate(Batch(i, xs + ys)))
    ensures retried.deployment.partitions == heard.deployment.partitions
    ensures retried.stored == heard.stored && retried.deployment.Log() == heard.deployment.Log()
  {
    var cells := before.deployment.partitions[i];
    SameAdvance(p, cells, retried.deployment.partitions[i], heard.deployment.partitions[i], xs + ys);
    SavingMore(p, cells, before.stored, unheard.stored, retried.stored, heard.stored, xs, ys);
    var more := EmittedFirst(p, cells, xs, ys);
    OfferingMore(before.deployment.offered, Emitted(p, cells, xs), more);
    assert forall j :: 0 <= j < |heard.deployment.partitions| ==>
                         retried.deployment.partitions[j] == heard.deployment.partitions[j];
  }

  /** In particular retrying the batch itself acts once, ... */
  lemma {:induction false} RetryingActsOnce(layout: Layout, p: Policy, before: Cluster, unheard: Cluster, retried: Cluster,
                                            heard: Cluster, batch: Batch)
    requires FollowsUnheard(layout, p, before, unheard, batch)
    requires Follows(layout, p, unheard, retried, Evaluate(batch)) && Follows(layout, p, before, heard, Evaluate(batch))
    ensures retried.deployment.partitions == heard.deployment.partitions
    ensures retried.stored == heard.stored && retried.deployment.Log() == heard.deployment.Log()
  {
    assert batch.observations + [] == batch.observations;
    RetryingMoreActsOnce(layout, p, before, unheard, retried, heard, batch.partition, batch.observations, []);
  }

  /** ... even when further commits of it go unheard before. */
  lemma {:induction false} UnheardTwiceIsUnheard(layout: Layout, p: Policy, before: Cluster, once: Cluster, twice: Cluster, batch: Batch)
    requires FollowsUnheard(layout, p, before, once, batch) && FollowsUnheard(layout, p, once, twice, batch)
    ensures twice.stored == once.stored && twice.deployment.partitions == once.deployment.partitions
    ensures twice.deployment.Log() == once.deployment.Log()
  {
    var cells := before.deployment.partitions[batch.partition];
    SavingTwice(p, cells, before.stored, once.stored, twice.stored, batch.observations);
    OfferingTwice(before.deployment.offered, Emitted(p, cells, batch.observations));
  }

  /** A worker that starts again after an unheard commit goes on as if it had heard it. */
  lemma {:induction false} RestartHearsTheCommit(layout: Layout, p: Policy, before: Cluster, unheard: Cluster, restarted: Cluster,
                                                 batch: Batch)
    requires p.clone == AsWritten && Recoverable(layout, before)
    requires FollowsUnheard(layout, p, before, unheard, batch)
    requires Follows(layout, p, unheard, restarted, Restart(batch.partition))
    ensures Follows(layout, p, before, restarted, Evaluate(batch))
    ensures Recoverable(layout, restarted)
  {
    var i := batch.partition;
    RebuiltAdvances(layout, i, p, before.deployment.partitions[i], before.stored, restarted.stored, batch.observations);
    BatchStaysRecoverable(layout, p, before, restarted, batch);
  }

  // ----- Batches without an accepted input -----

  /** A first part of a batch that accepts nothing accepts nothing. */
  lemma {:induction false} NothingAcceptedBefore(p: Policy, cells: Cells, xs: seq<Observation>, ys: seq<Observation>)
    requires !AcceptsSome(p, cells, xs + ys)
    ensures !AcceptsSome(p, cells, xs)
  {
    forall k ensures Reached(p, cells, k, xs).work.state.None? {
      MoreInputsExtend(p, cells, k, xs, ys);
      assert Reached(p, cells, k, xs + ys).work.state.None?;
    }
  }

  lemma {:induction false} SilentStep(p: Policy, m: Machine, o: Observation)
    requires Step(p, m, Input(o)).machine.work.state.None?
    ensures Step(p, m, Input(o)).alerts == []
  {
  }

  /** A batch none of whose inputs is accepted emits nothing ... */
  lemma {:induction false} NothingAcceptedNothingEmitted(p: Policy, cells: Cells, observations: seq<Observation>)
    requires !AcceptsSome(p, cells, observations)
    ensures Emitted(p, cells, observations) == []
  {
    if observations != [] {
      var n := |observations| - 1;
      var front, last := observations[..n], observations[n];
      assert front + [last] == observations && observations[..n + 1] == observations;
      NothingAcceptedBefore(p, cells, front, [last]);
      NothingAcceptedNothingEmitted(p, cells, front);
      EmittedSnoc(p, cells, observations);
      OneMoreInput(p, cells, last.series.Key(), observations, n);
      assert Reached(p, cells, last.series.Key(), observations).work.state.None?;
      SilentStep(p, Reached(p, cells, last.series.Key(), front), last);
    }
  }

  /** ... and leaves the whole cluster where it is. */
  lemma {:induction false} NothingAcceptedNothingChanged(layout: Layout, p: Policy, before: Cluster, after: Cluster, batch: Batch)
    requires Follows(layout, p, before, after, Evaluate(batch))
    requires !AcceptsSome(p, before.deployment.partitions[batch.partition], batch.observations)
    ensures after == before
  {
    var cells := before.deployment.partitions[batch.partition];
    NothingAcceptedNothingEmitted(p, cells, batch.observations);
    CellsStay(p, cells, before.stored, batch.observations);
    SameAdvance(p, cells, after.deployment.partitions[batch.partition], cells, batch.observations);
    SameSaved(p, cells, before.stored, after.stored, before.stored, batch.observations);
    assert after.deployment.partitions == before.deployment.partitions;
  }
}
