/**
 The second half of EvaluateBatch (internal/runtime/engine.go): the overlay is committed to the
 repository before it is folded into the partition.
 */
module BatchCommit {
  import opened Wrappers
  import opened Model
  import opened Keys
  import opened Routing
  import opened SeriesMachine
  import opened Features
  import opened AlertLog
  import opened MemoryStore
  import opened PartitionCells
  import opened BatchEvaluation

  datatype EngineError = OutOfRange | NotOwned | Misrouted | CommitFailed

  /** The whole effect of a commit on the store. */
  twostate predicate Takes(memory: Memory, batch: RuntimeBatch)
    reads memory
  {
    && memory.seriesRuntime == old(memory.seriesRuntime) + batch.seriesStates
    && memory.definitionRuntime
       == WithoutSeries(old(memory.definitionRuntime), batch.resetSeriesKeys) + batch.definitionStates
    && memory.inbox == old(memory.inbox) + SourceIds(batch.observations)
    && memory.alerts == Appended(old(memory.alerts), batch.alerts)
    && memory.leases == old(memory.leases)
  }

  /**
   The repository with injectable failures, as the engine's own tests wrap it: a commit is refused, or
   it takes effect and the reply is lost; the definitions or the checkpoints cannot be read.
   */
  class Repository {
    const memory: Memory
    var reply: Reply
    var listing: Result<seq<Definition>, StoreError>
    var readable: bool

    constructor (memory: Memory, definitions: seq<Definition>)
      ensures this.memory == memory && reply == Done && listing == Ok(definitions) && readable
    {
      this.memory := memory;
      reply, listing, readable := Done, Ok(definitions), true;
    }

    method ListDefinitions() returns (r: Result<seq<Definition>, StoreError>)
      ensures r == listing
    {
      return listing;
    }

    method LoadRuntimeStates() returns (r: Result<RuntimeSnapshot, StoreError>)
      ensures r == if readable then Ok(RuntimeSnapshot(memory.seriesRuntime, memory.definitionRuntime)) else Err(ReadFailed)
    {
      if !readable {
        return Err(ReadFailed);
      }
      var snapshot := memory.LoadRuntimeStates();
      return Ok(snapshot);
    }

    method CommitRuntimeBatch(batch: RuntimeBatch) returns (r: Result<seq<Alert>, StoreError>)
      modifies memory
      ensures r.Ok? <==> reply.Done?
      ensures if reply.Failed? then unchanged(memory) else Takes(memory, batch)
      ensures r.Ok? ==> memory.alerts == old(memory.alerts) + r.value
    {
      if reply.Failed? {
        return Err(CheckpointFailed);
      }
      var created := memory.CommitRuntimeBatch(batch);
      if reply.Unheard? {
        return Err(CheckpointFailed);
      }
      return Ok(created);
    }
  }

  // ----- Committed state as cells -----

  function ViewRecords(records: map<string, SeriesRecord>): (views: map<string, SeriesState>)
    reads RecordTables(records)
    ensures views.Keys == records.Keys && forall k :: k in records ==> views[k] == records[k].View()
  {
    map k | k in records :: records[k].View()
  }

  function PartitionView(partition: Partition): Cells
    reads partition, RecordTables(partition.series)
  {
    Cells(ViewRecords(partition.series), partition.definitions)
  }

  function StoreView(memory: Memory): Cells
    reads memory, RecordTables(memory.seriesRuntime)
  {
    Cells(ViewRecords(memory.seriesRuntime), memory.definitionRuntime)
  }

  /** What a batch leaves in the store for a series: the working state itself, not its clone. */
  function Checkpointed(stored: Cell, work: Work): Cell {
    if work.state.None? then stored
    else Cell(work.state, (if work.wasReset then map[] else stored.definitions) + work.definitions)
  }

  function ClonedViews(views: map<string, SeriesState>): map<string, SeriesState> {
    map k | k in views :: ClonedSeries(AsWritten, views[k])
  }

  /** The partition after the batch is folded in, given the views of the overlay. */
  function Folded(cells: Cells, overlay: Overlay, views: map<string, SeriesState>): Cells {
    Cells(cells.series + ClonedViews(views),
          WithoutSeries(cells.definitions, overlay.resetSeries) + overlay.definitionStates)
  }

  /** The store after the batch is committed. */
  function Saved(cells: Cells, overlay: Overlay, views: map<string, SeriesState>): Cells {
    Cells(cells.series + views, WithoutSeries(cells.definitions, overlay.resetSeries) + overlay.definitionStates)
  }

  lemma MergedDefinitions(definitions: map<string, DefinitionState>, overlay: Overlay, k: string)
    ensures DefinitionsOf(WithoutSeries(definitions, overlay.resetSeries) + overlay.definitionStates, k)
            == (if k in overlay.resetSeries then map[] else DefinitionsOf(definitions, k))
               + DefinitionsOf(overlay.definitionStates, k)
  {
  }

  /** Folding and saving an overlay commit each series' share of it. */
  lemma OverlayCommits(p: Policy, cells: Cells, stored: Cells, overlay: Overlay, views: map<string, SeriesState>, k: string)
    requires p.clone == AsWritten
    requires var work := WorkOf(overlay, views, k); work.state.None? ==> work == NO_WORK
    ensures Folded(cells, overlay, views).At(k) == Committed(p, cells.At(k), WorkOf(overlay, views, k))
    ensures Saved(stored, overlay, views).At(k) == Checkpointed(stored.At(k), WorkOf(overlay, views, k))
  {
    MergedDefinitions(cells.definitions, overlay, k);
    MergedDefinitions(stored.definitions, overlay, k);
  }

  /** The partition holds the cells. */
  ghost predicate Holds(partition: Partition, cells: Cells)
    reads partition, RecordTables(partition.series)
  {
    Viewed(partition.series, cells.series) && partition.definitions == cells.definitions
  }

  /** The store holds the cells. */
  ghost predicate Stores(memory: Memory, cells: Cells)
    reads memory, RecordTables(memory.seriesRuntime)
  {
    Viewed(memory.seriesRuntime, cells.series) && memory.definitionRuntime == cells.definitions
  }

  // ----- Folding an overlay into a partition -----

  /** The clone of one record; nothing that exists already changes. */
  method CloneOne(series: map<string, SeriesRecord>, ghost views: map<string, SeriesState>, k: string,
                  ghost clones: map<string, SeriesRecord>, ghost cloned: map<string, SeriesState>)
    returns (clone: SeriesRecord)
    requires k in series && Viewed(series, views) && Viewed(clones, cloned)
    ensures Viewed(series, views) && Viewed(clones[k := clone], cloned[k := ClonedSeries(AsWritten, views[k])])
  {
    clone := CloneSeries(series[k]);
  }

  lemma OneMoreClone(views: map<string, SeriesState>, pending: set<string>, k: string)
    requires k in pending && pending <= views.Keys
    ensures ClonedViews(views - pending)[k := ClonedSeries(AsWritten, views[k])] == ClonedViews(views - (pending - {k}))
  {
    var more := views - (pending - {k});
    assert more.Keys == (views - pending).Keys + {k};
  }

  /** Clones every record of the overlay. */
  method CloneAll(seriesStates: map<string, SeriesRecord>, ghost views: map<string, SeriesState>)
    returns (clones: map<string, SeriesRecord>)
    requires Viewed(seriesStates, views)
    ensures Viewed(clones, ClonedViews(views))
  {
    clones := map[];
    var pending := seriesStates.Keys;
    while pending != {}
      invariant pending <= views.Keys && Viewed(seriesStates, views)
      invariant Viewed(clones, ClonedViews(views - pending))
    {
      var k :| k in pending;
      var clone := CloneOne(seriesStates, views, k, clones, ClonedViews(views - pending));
      clones := clones[k := clone];
      OneMoreClone(views, pending, k);
      pending := pending - {k};
    }
    assert views - pending == views;
  }

  lemma MergedViews(a: map<string, SeriesRecord>, x: map<string, SeriesState>,
                    b: map<string, SeriesRecord>, y: map<string, SeriesState>)
    requires Viewed(a, x) && Viewed(b, y)
    ensures Viewed(a + b, x + y)
  {
  }

  /** The partition's records with clones of the overlay's on top; every record keeps its view. */
  method MergeClones(committed: map<string, SeriesRecord>, ghost before: map<string, SeriesState>,
                     seriesStates: map<string, SeriesRecord>, ghost views: map<string, SeriesState>)
    returns (merged: map<string, SeriesRecord>)
    requires Viewed(seriesStates, views) && Viewed(committed, before)
    ensures Viewed(merged, before + ClonedViews(views))
  {
    var clones := CloneAll(seriesStates, views);
    MergedViews(committed, before, clones, ClonedViews(views));
    merged := MergeInto(committed, clones);
  }

  /** ... in any heap that only has more objects. */
  method MergeClonesApart(committed: map<string, SeriesRecord>, ghost before: map<string, SeriesState>,
                          seriesStates: map<string, SeriesRecord>, ghost views: map<string, SeriesState>,
                          ghost kept: map<string, SeriesRecord>, ghost keptViews: map<string, SeriesState>)
    returns (merged: map<string, SeriesRecord>)
    requires Viewed(seriesStates, views) && Viewed(committed, before) && Viewed(kept, keptViews)
    ensures Viewed(merged, before + ClonedViews(views)) && Viewed(kept, keptViews)
  {
    merged := MergeClones(committed, before, seriesStates, views);
  }

  method SetSeries(partition: Partition, records: map<string, SeriesRecord>, ghost views: map<string, SeriesState>,
                   ghost kept: map<string, SeriesRecord>, ghost keptViews: map<string, SeriesState>)
    requires Viewed(records, views) && Viewed(kept, keptViews)
    modifies partition`series
    ensures partition.series == records && Viewed(partition.series, views) && Viewed(kept, keptViews)
  {
    partition.series := records;
  }

  method FoldSeries(partition: Partition, seriesStates: map<string, SeriesRecord>, ghost views: map<string, SeriesState>,
                    ghost before: map<string, SeriesState>,
                    ghost kept: map<string, SeriesRecord>, ghost keptViews: map<string, SeriesState>)
    requires Viewed(seriesStates, views) && Viewed(partition.series, before) && Viewed(kept, keptViews)
    modifies partition`series
    ensures Viewed(partition.series, before + ClonedViews(views))
    ensures Viewed(kept, keptViews)
  {
    var merged := MergeClonesApart(partition.series, before, seriesStates, views, kept, keptViews);
    SetSeries(partition, merged, before + ClonedViews(views), kept, keptViews);
  }

  method FoldDefinitions(partition: Partition, overlay: Overlay)
    modifies partition`definitions
    ensures partition.definitions
            == WithoutSeries(old(partition.definitions), overlay.resetSeries) + overlay.definitionStates
  {
    var pending := overlay.resetSeries;
    while pending != {}
      modifies partition`definitions
      invariant pending <= overlay.resetSeries
      invariant partition.definitions == WithoutSeries(old(partition.definitions), overlay.resetSeries - pending)
    {
      var k :| k in pending;
      WithoutOneMore(old(partition.definitions), overlay.resetSeries - pending, k);
      partition.definitions := DropSeries(partition.definitions, k);
      assert overlay.resetSeries - (pending - {k}) == (overlay.resetSeries - pending) + {k};
      pending := pending - {k};
    }
    partition.definitions := MergeInto(partition.definitions, overlay.definitionStates);
  }

  /** ... and no record changes its view. */
  method FoldDefinitionsApart(partition: Partition, overlay: Overlay, ghost views: map<string, SeriesState>,
                              ghost kept: map<string, SeriesRecord>, ghost keptViews: map<string, SeriesState>)
    requires Viewed(partition.series, views) && Viewed(kept, keptViews)
    modifies partition`definitions
    ensures partition.definitions
            == WithoutSeries(old(partition.definitions), overlay.resetSeries) + overlay.definitionStates
    ensures Viewed(partition.series, views) && Viewed(kept, keptViews)
  {
    FoldDefinitions(partition, overlay);
  }

  // ----- One batch of an owned partition -----

  /** Some observation of the batch is accepted. */
  ghost predicate AcceptsSome(p: Policy, cells: Cells, observations: seq<Observation>) {
    exists k :: Reached(p, cells, k, observations).work.state.Some?
  }

  lemma AcceptedMeansWork(p: Policy, cells: Cells, overlay: Overlay, views: map<string, SeriesState>, observations: seq<Observation>)
    requires Tracks(p, cells, overlay, views, observations, |observations|)
    ensures views != map[] <==> AcceptsSome(p, cells, observations)
  {
    assert observations[..|observations|] == observations;
    forall k
      ensures k in views <==> Reached(p, cells, k, observations).work.state.Some?
    {
      assert WorkOf(overlay, views, k) == Reached(p, cells, k, observations).work;
    }
    if views != map[] {
      var k :| k in views;
      assert Reached(p, cells, k, observations).work.state.Some?;
    }
  }

  /** Without an accepted observation no series moves. */
  lemma NothingMoves(p: Policy, cells: Cells, observations: seq<Observation>, k: string)
    requires !AcceptsSome(p, cells, observations)
    ensures AfterBatch(p, cells, k, observations) == cells.At(k)
  {
    assert Reached(p, cells, k, observations).work.state.None?;
    AfterBatchCommits(p, cells, k, observations);
  }

  /** After a successful batch every series' cell is that of its own machine. */
  ghost predicate EveryCellAdvances(p: Policy, before: Cells, after: Cells, observations: seq<Observation>) {
    forall k {:trigger after.At(k)} :: after.At(k) == AfterBatch(p, before, k, observations)
  }

  /** ... and the store has what every machine has worked out. */
  ghost predicate EveryCellIsSaved(p: Policy, before: Cells, stored: Cells, saved: Cells, observations: seq<Observation>) {
    forall k {:trigger saved.At(k)} ::
      saved.At(k) == Checkpointed(stored.At(k), Reached(p, before, k, observations).work)
  }

  lemma CellsAdvance(p: Policy, cells: Cells, stored: Cells, overlay: Overlay, views: map<string, SeriesState>,
                     observations: seq<Observation>)
    requires p.clone == AsWritten && Tracks(p, cells, overlay, views, observations, |observations|)
    ensures EveryCellAdvances(p, cells, Folded(cells, overlay, views), observations)
    ensures EveryCellIsSaved(p, cells, stored, Saved(stored, overlay, views), observations)
  {
    assert observations[..|observations|] == observations;
    forall k
      ensures Folded(cells, overlay, views).At(k) == AfterBatch(p, cells, k, observations)
      ensures Saved(stored, overlay, views).At(k) == Checkpointed(stored.At(k), Reached(p, cells, k, observations).work)
    {
      assert WorkOf(overlay, views, k) == Reached(p, cells, k, observations).work;
      ReachedIsTidy(p, cells, k, observations);
      AfterBatchCommits(p, cells, k, observations);
      OverlayCommits(p, cells, stored, overlay, views, k);
    }
  }

  lemma CellsStay(p: Policy, cells: Cells, stored: Cells, observations: seq<Observation>)
    requires !AcceptsSome(p, cells, observations)
    ensures EveryCellAdvances(p, cells, cells, observations)
    ensures EveryCellIsSaved(p, cells, stored, stored, observations)
  {
    forall k ensures cells.At(k) == AfterBatch(p, cells, k, observations) {
      NothingMoves(p, cells, observations, k);
    }
    forall k ensures stored.At(k) == Checkpointed(stored.At(k), Reached(p, cells, k, observations).work) {
      assert Reached(p, cells, k, observations).work.state.None?;
    }
  }

  /** The overlay is folded into the partition only after the repository took it. */
  method FoldOverlay(partition: Partition, overlay: Overlay, ghost cells: Cells, ghost views: map<string, SeriesState>,
                     ghost memory: Memory, ghost saved: Cells)
    requires Viewed(overlay.seriesStates, views) && Holds(partition, cells) && Stores(memory, saved)
    modifies partition
    ensures Holds(partition, Folded(cells, overlay, views)) && Stores(memory, saved)
  {
    FoldSeries(partition, overlay.seriesStates, views, cells.series, memory.seriesRuntime, saved.series);
    FoldDefinitionsApart(partition, overlay, Folded(cells, overlay, views).series, memory.seriesRuntime, saved.series);
  }

  /** Commits a batch whose records have the given views in the store. */
  method CommitViewed(repository: Repository, batch: RuntimeBatch, ghost merged: map<string, SeriesState>)
    returns (r: Result<seq<Alert>, StoreError>)
    requires Viewed(repository.memory.seriesRuntime + batch.seriesStates, merged)
    modifies repository.memory
    ensures r.Ok? <==> repository.reply.Done?
    ensures if repository.reply.Failed? then unchanged(repository.memory)
            else Takes(repository.memory, batch) && Viewed(repository.memory.seriesRuntime, merged)
    ensures r.Ok? ==> repository.memory.alerts == old(repository.memory.alerts) + r.value
  {
    r := repository.CommitRuntimeBatch(batch);
  }

  /** ... and leaves every feature table alone. */
  method CommitApart(repository: Repository, batch: RuntimeBatch, ghost merged: map<string, SeriesState>,
                     partition: Partition, ghost cells: Cells, ghost views: map<string, SeriesState>)
    returns (r: Result<seq<Alert>, StoreError>)
    requires Viewed(repository.memory.seriesRuntime + batch.seriesStates, merged)
    requires Holds(partition, cells) && Viewed(batch.seriesStates, views)
    modifies repository.memory
    ensures r.Ok? <==> repository.reply.Done?
    ensures if repository.reply.Failed? then unchanged(repository.memory)
            else Takes(repository.memory, batch) && Viewed(repository.memory.seriesRuntime, merged)
    ensures r.Ok? ==> repository.memory.alerts == old(repository.memory.alerts) + r.value
    ensures Holds(partition, cells) && Viewed(batch.seriesStates, views)
  {
    r := CommitViewed(repository, batch, merged);
  }

  /** Hands the overlay to the repository, which takes all of it or nothing; the partition is not concerned. */
  method CommitOverlay(repository: Repository, overlay: Overlay, accepted: seq<Observation>, alerts: seq<Alert>,
                       partition: Partition, ghost cells: Cells, ghost stored: Cells, ghost views: map<string, SeriesState>)
    returns (r: Result<seq<Alert>, StoreError>)
    requires Holds(partition, cells) && Stores(repository.memory, stored) && Viewed(overlay.seriesStates, views)
    modifies repository.memory
    ensures r.Ok? <==> repository.reply.Done?
    ensures if repository.reply.Failed? then unchanged(repository.memory)
            else Stores(repository.memory, Saved(stored, overlay, views))
                 && repository.memory.alerts == Appended(old(repository.memory.alerts), alerts)
    ensures r.Ok? ==> repository.memory.alerts == old(repository.memory.alerts) + r.value
    ensures Holds(partition, cells) && Viewed(overlay.seriesStates, views)
  {
    MergedViews(repository.memory.seriesRuntime, stored.series, overlay.seriesStates, views);
    r := CommitApart(repository, RuntimeBatch(accepted, overlay.seriesStates, overlay.definitionStates,
                                              overlay.resetSeries, alerts), stored.series + views, partition, cells, views);
  }

  /** Commit first, fold second; without a heard commit the partition stays as it is. */
  method CommitAndFold(repository: Repository, partition: Partition, overlay: Overlay, accepted: seq<Observation>,
                       alerts: seq<Alert>, ghost cells: Cells, ghost stored: Cells, ghost views: map<string, SeriesState>)
    returns (r: Result<seq<Alert>, EngineError>)
    requires Holds(partition, cells) && Stores(repository.memory, stored) && Viewed(overlay.seriesStates, views)
    modifies partition, repository.memory
    ensures if repository.reply.Done? then r.Ok? else r == Err(CommitFailed) && unchanged(partition)
    ensures if repository.reply.Failed? then unchanged(repository.memory)
            else Stores(repository.memory, Saved(stored, overlay, views))
                 && repository.memory.alerts == Appended(old(repository.memory.alerts), alerts)
    ensures r.Ok? ==> Holds(partition, Folded(cells, overlay, views))
                      && repository.memory.alerts == old(repository.memory.alerts) + r.value
  {
    var committed := CommitOverlay(repository, overlay, accepted, alerts, partition, cells, stored, views);
    if committed.Err? {
      return Err(CommitFailed);
    }
    FoldOverlay(partition, overlay, cells, views, repository.memory, Saved(stored, overlay, views));
    r := Ok(committed.value);
  }

  /** The evaluation of a batch leaves partition and store alone, even when it ends in the middle. */
  method EvaluateApart(partition: Partition, layout: Layout, partitionId: int, routes: Routes, observations: seq<Observation>,
                       ghost cells: Cells, ghost memory: Memory, ghost stored: Cells)
    returns (routed: bool, overlay: Overlay, accepted: seq<Observation>, alerts: seq<Alert>, ghost views: map<string, SeriesState>)
    requires Statuses(observations) && BarFreeRoutes(routes) && Holds(partition, cells) && Stores(memory, stored)
    ensures routed <==> Routed(layout, partitionId, observations)
    ensures routed ==> Tracks(EnginePolicy(routes), cells, overlay, views, observations, |observations|)
    ensures routed ==> alerts == Emitted(EnginePolicy(routes), cells, observations)
    ensures routed ==> Viewed(overlay.seriesStates, views) && (accepted == [] <==> views == map[])
    ensures routed && accepted == [] ==> alerts == []
    ensures Holds(partition, cells) && Stores(memory, stored)
  {
    routed, overlay, accepted, alerts, views := EvaluateInputs(partition, layout, partitionId, routes, observations, cells);
  }

  /** What one batch makes of the partition. */
  ghost predicate Moved(partition: Partition, p: Policy, cells: Cells, after: Cells, observations: seq<Observation>)
    reads partition, RecordTables(partition.series)
  {
    Holds(partition, after) && EveryCellAdvances(p, cells, after, observations)
  }

  /** ... and of the store. */
  ghost predicate Stored(memory: Memory, p: Policy, cells: Cells, stored: Cells, saved: Cells, log: seq<Alert>,
                         observations: seq<Observation>)
    reads memory, RecordTables(memory.seriesRuntime)
  {
    && Stores(memory, saved) && EveryCellIsSaved(p, cells, stored, saved, observations)
    && memory.alerts == Appended(log, Emitted(p, cells, observations))
  }

  /** The commit of the batch took effect, heard or not. */
  predicate TookEffect(r: Result<seq<Alert>, EngineError>, reply: Reply) {
    r.Ok? || (r == Err(CommitFailed) && reply.Unheard?)
  }

  /** Evaluates, commits and folds one batch. */
  method EvaluateRouted(repository: Repository, partition: Partition, layout: Layout, partitionId: int, routes: Routes,
                     observations: seq<Observation>, ghost cells: Cells, ghost stored: Cells)
    returns (r: Result<seq<Alert>, EngineError>, ghost after: Cells, ghost saved: Cells)
    requires Statuses(observations) && BarFreeRoutes(routes)
    requires Holds(partition, cells) && Stores(repository.memory, stored)
    modifies partition, repository.memory
    ensures r == Err(Misrouted) <==> !Routed(layout, partitionId, observations)
    ensures r == Err(CommitFailed) <==>
              Routed(layout, partitionId, observations) && !repository.reply.Done?
              && AcceptsSome(EnginePolicy(routes), cells, observations)
    ensures r.Err? ==> (r.error.Misrouted? || r.error.CommitFailed?) && unchanged(partition)
    ensures r.Ok? ==> Moved(partition, EnginePolicy(routes), cells, after, observations)
                      && repository.memory.alerts == old(repository.memory.alerts) + r.value
    ensures if TookEffect(r, repository.reply)
            then Stored(repository.memory, EnginePolicy(routes), cells, stored, saved, old(repository.memory.alerts), observations)
            else unchanged(repository.memory)
  {
    ghost var p := EnginePolicy(routes);
    after, saved := cells, stored;
    var routed, overlay, accepted, alerts, views :=
      EvaluateApart(partition, layout, partitionId, routes, observations, cells, repository.memory, stored);
    if !routed {
      return Err(Misrouted), after, saved;
    }
    AcceptedMeansWork(p, cells, overlay, views, observations);
    if |accepted| == 0 {
      CellsStay(p, cells, stored, observations);
      return Ok([]), after, saved;
    }
    CellsAdvance(p, cells, stored, overlay, views, observations);
    after, saved := Folded(cells, overlay, views), Saved(stored, overlay, views);
    r := CommitAndFold(repository, partition, overlay, accepted, alerts, cells, stored, views);
  }
}
