/**
 The evaluation engine (internal/runtime/engine.go): partitions owned by residue, batches that
 are evaluated, committed and folded in, and recovery from the repository.
 */
module Engine {
  import opened Wrappers
  import opened Model
  import opened Keys
  import opened Routing
  import opened SeriesMachine
  import opened Features
  import opened AlertLog
  import opened MemoryStore
  import opened PartitionCells
  import opened BatchEvaluation
  import opened BatchCommit
  import opened Recovery
  import opened DefinitionIndexing

  lemma HoldsItsView(partition: Partition, cells: Cells)
    ensures Holds(partition, cells) <==> PartitionView(partition) == cells
  {
  }

  lemma StoresItsView(memory: Memory, cells: Cells)
    ensures Stores(memory, cells) <==> StoreView(memory) == cells
  {
  }

  /** Every series of the partition moves as its own machine does. */
  twostate predicate PartitionMoves(partition: Partition, p: Policy, observations: seq<Observation>)
    reads partition, RecordTables(partition.series)
  {
    EveryCellAdvances(p, old(PartitionView(partition)), PartitionView(partition), observations)
  }

  /** The store has what every machine of the partition has worked out, and the log what they emit. */
  twostate predicate StoreMoves(memory: Memory, partition: Partition, p: Policy, observations: seq<Observation>)
    reads memory, RecordTables(memory.seriesRuntime)
  {
    && EveryCellIsSaved(p, old(PartitionView(partition)), old(StoreView(memory)), StoreView(memory), observations)
    && memory.alerts == Appended(old(memory.alerts), Emitted(p, old(PartitionView(partition)), observations))
  }

  /** The result of one batch, and what it changes. */
  method EvaluateViewed(repository: Repository, partition: Partition, layout: Layout, partitionId: int, routes: Routes,
                        observations: seq<Observation>)
    returns (r: Result<seq<Alert>, EngineError>)
    requires Statuses(observations) && BarFreeRoutes(routes)
    modifies partition, repository.memory
    ensures r == Err(Misrouted) <==> !Routed(layout, partitionId, observations)
    ensures r == Err(CommitFailed) <==>
              Routed(layout, partitionId, observations) && !repository.reply.Done?
              && AcceptsSome(EnginePolicy(routes), old(PartitionView(partition)), observations)
    ensures r.Err? ==> (r.error.Misrouted? || r.error.CommitFailed?) && unchanged(partition)
    ensures r.Ok? ==> PartitionMoves(partition, EnginePolicy(routes), observations)
                      && repository.memory.alerts == old(repository.memory.alerts) + r.value
    ensures if TookEffect(r, repository.reply) then StoreMoves(repository.memory, partition, EnginePolicy(routes), observations)
            else unchanged(repository.memory)
  {
    ghost var cells, stored := PartitionView(partition), StoreView(repository.memory);
    HoldsItsView(partition, cells);
    StoresItsView(repository.memory, stored);
    ghost var after, saved;
    r, after, saved := EvaluateRouted(repository, partition, layout, partitionId, routes, observations, cells, stored);
    HoldsItsView(partition, after);
    StoresItsView(repository.memory, saved);
  }

  /** A partition whose maps and feature tables are as they were has the view it had. */
  twostate lemma SameView(partition: Partition)
    requires old(partition.series) == partition.series && old(partition.definitions) == partition.definitions
    requires forall t: IndicatorTable :: old(allocated(t)) && t in RecordTables(partition.series) ==> old(t.values) == t.values
    ensures PartitionView(partition) == old(PartitionView(partition))
  {
    forall k | k in partition.series ensures partition.series[k].View() == old(partition.series[k].View()) {
      SameFeature(partition.series[k].confirmed);
      SameFeature(partition.series[k].intrabar);
    }
  }

  twostate lemma SameStore(memory: Memory)
    requires old(memory.seriesRuntime) == memory.seriesRuntime && old(memory.definitionRuntime) == memory.definitionRuntime
    requires forall t: IndicatorTable :: old(allocated(t)) && t in RecordTables(memory.seriesRuntime) ==> old(t.values) == t.values
    ensures StoreView(memory) == old(StoreView(memory))
  {
    forall k | k in memory.seriesRuntime ensures memory.seriesRuntime[k].View() == old(memory.seriesRuntime[k].View()) {
      SameFeature(memory.seriesRuntime[k].confirmed);
      SameFeature(memory.seriesRuntime[k].intrabar);
    }
  }

  twostate lemma SameFeature(record: FeatureRecord)
    requires record.indicators != null ==> old(allocated(record.indicators)) && old(record.indicators.values) == record.indicators.values
    ensures record.View() == old(record.View())
  {
  }

  datatype StartError = NotListed | NotCompiled | NotLoaded

  class Engine {
    const repository: Repository
    const partitions: seq<Partition>
    const index: DefinitionIndex
    const layout: Layout
    const workerIndex: int
    const workerCount: Count

    ghost predicate Valid()
      reads index
    {
      && |partitions| == layout.partitions && index.Valid()
      && forall i, j :: 0 <= i < j < |partitions| ==> partitions[i] != partitions[j]
    }

    predicate Owns(partitionId: int) {
      0 <= partitionId < |partitions| && partitionId % workerCount == workerIndex
    }

    /** Every owned partition is what the store would rebuild. */
    ghost predicate Synced()
      requires Valid()
      reads index, repository.memory, RecordTables(repository.memory.seriesRuntime)
      reads partitions, set i, t | 0 <= i < |partitions| && t in RecordTables(partitions[i].series) :: t
    {
      forall i :: Owns(i) ==> PartitionView(partitions[i]) == Loaded(layout, StoreView(repository.memory), i)
    }

    /** Nonsensical counts become 1. */
    constructor NewWithOwnership(repository: Repository, hash: Hash, partitionCount: int, workerIndex: int, workerCount: int)
      ensures Valid() && this.repository == repository && this.workerIndex == workerIndex && layout.hash == hash
      ensures layout.partitions == (if partitionCount < 1 then 1 else partitionCount)
      ensures this.workerCount == (if workerCount < 1 then 1 else workerCount)
      ensures fresh(index) && index.byRoute == map[] && index.table == map[]
      ensures Blank() && forall i :: 0 <= i < |partitions| ==> fresh(partitions[i])
    {
      this.repository := repository;
      this.workerIndex := workerIndex;
      this.workerCount := if workerCount < 1 then 1 else workerCount;
      this.layout := Layout(hash, if partitionCount < 1 then 1 else partitionCount);
      this.index := new DefinitionIndex();
      var empty := EmptyPartitions(if partitionCount < 1 then 1 else partitionCount);
      this.partitions := empty;
    }

    /**
     One batch: every series ends where its own inputs take it, in the partition and in the store
     alike. A failed batch changes nothing, so trying it again is trying it for the first time,
     unless its commit took effect unheard: then the store alone has moved.
     */
    method EvaluateBatch(partitionId: int, observations: seq<Observation>) returns (r: Result<seq<Alert>, EngineError>)
      requires Valid() && Statuses(observations) && BarFreeRoutes(index.byRoute)
      modifies if 0 <= partitionId < |partitions| then {partitions[partitionId]} else {}, repository.memory
      ensures r == Err(OutOfRange) <==> !(0 <= partitionId < |partitions|)
      ensures r == Err(NotOwned) <==> 0 <= partitionId < |partitions| && !Owns(partitionId)
      ensures r == Err(Misrouted) <==> Owns(partitionId) && !Routed(layout, partitionId, observations)
      ensures r == Err(CommitFailed) <==>
                Owns(partitionId) && Routed(layout, partitionId, observations) && !repository.reply.Done?
                && AcceptsSome(EnginePolicy(index.byRoute), old(PartitionView(partitions[partitionId])), observations)
      ensures r.Ok? <==>
                Owns(partitionId) && Routed(layout, partitionId, observations)
                && (AcceptsSome(EnginePolicy(index.byRoute), old(PartitionView(partitions[partitionId])), observations)
                    ==> repository.reply.Done?)
      ensures r.Err? && 0 <= partitionId < |partitions| ==> unchanged(partitions[partitionId])
      ensures r.Ok? ==> PartitionMoves(partitions[partitionId], EnginePolicy(index.byRoute), observations)
                        && repository.memory.alerts == old(repository.memory.alerts) + r.value
      ensures if TookEffect(r, repository.reply)
              then StoreMoves(repository.memory, partitions[partitionId], EnginePolicy(index.byRoute), observations)
              else unchanged(repository.memory)
      ensures Others(if r.Ok? then partitionId else -1)
      ensures r.Ok? && SlashFreeInputs(observations) && old(Synced()) ==> Synced()
    {
      if partitionId < 0 || partitionId >= |partitions| {
        return Err(OutOfRange);
      }
      if partitionId % workerCount != workerIndex {
        return Err(NotOwned);
      }
      r := EvaluateOwned(partitionId, observations);
      if r.Ok? && SlashFreeInputs(observations) && old(Synced()) {
        BatchKeepsSync(old(StoreView(repository.memory)), old(PartitionView(partitions[partitionId])), partitionId, observations);
      }
    }

    /** All partitions but one are as they were. */
    twostate predicate Others(partitionId: int)
      reads partitions, set i, t | 0 <= i < |partitions| && t in RecordTables(partitions[i].series) :: t
    {
      forall i :: 0 <= i < |partitions| && i != partitionId ==> PartitionView(partitions[i]) == old(PartitionView(partitions[i]))
    }

    method EvaluateOwned(partitionId: int, observations: seq<Observation>) returns (r: Result<seq<Alert>, EngineError>)
      requires Valid() && Statuses(observations) && BarFreeRoutes(index.byRoute)
      requires Owns(partitionId)
      modifies partitions[partitionId], repository.memory
      ensures r == Err(Misrouted) <==> !Routed(layout, partitionId, observations)
      ensures r == Err(CommitFailed) <==>
                Routed(layout, partitionId, observations) && !repository.reply.Done?
                && AcceptsSome(EnginePolicy(index.byRoute), old(PartitionView(partitions[partitionId])), observations)
      ensures r.Err? ==> (r.error.Misrouted? || r.error.CommitFailed?) && unchanged(partitions[partitionId])
      ensures r.Ok? ==> PartitionMoves(partitions[partitionId], EnginePolicy(index.byRoute), observations)
                        && repository.memory.alerts == old(repository.memory.alerts) + r.value
      ensures if TookEffect(r, repository.reply)
              then StoreMoves(repository.memory, partitions[partitionId], EnginePolicy(index.byRoute), observations)
              else unchanged(repository.memory)
      ensures Others(if r.Ok? then partitionId else -1)
    {
      r := EvaluateViewed(repository, partitions[partitionId], layout, partitionId, index.byRoute, observations);
      forall i | 0 <= i < |partitions| && !(r.Ok? && i == partitionId)
        ensures PartitionView(partitions[i]) == old(PartitionView(partitions[i]))
      {
        assert i != partitionId ==> partitions[i] != partitions[partitionId];
        SameView(partitions[i]);
      }
    }

    lemma BatchKeepsSync(stored: Cells, cells: Cells, partitionId: int, observations: seq<Observation>)
      requires Valid() && Owns(partitionId) && SlashFreeInputs(observations)
      requires Routed(layout, partitionId, observations)
      requires cells == Loaded(layout, stored, partitionId)
      requires EveryCellAdvances(EnginePolicy(index.byRoute), cells, PartitionView(partitions[partitionId]), observations)
      requires EveryCellIsSaved(EnginePolicy(index.byRoute), cells, stored, StoreView(repository.memory), observations)
      requires forall i :: Owns(i) && i != partitionId ==> PartitionView(partitions[i]) == Loaded(layout, stored, i)
      ensures Synced()
    {
      var p, saved := EnginePolicy(index.byRoute), StoreView(repository.memory);
      LiveEqualsReloaded(layout, partitionId, p, cells, stored, PartitionView(partitions[partitionId]), saved, observations);
      forall i | Owns(i) && i != partitionId ensures Loaded(layout, saved, i) == Loaded(layout, stored, i) {
        OthersBatchesAreNotSeen(layout, i, partitionId, p, cells, stored, saved, observations);
      }
    }

    // ----- Recovery -----

    /** Nothing has been evaluated or loaded yet. */
    ghost predicate Blank()
      reads partitions
    {
      forall q :: q in partitions ==> q.series == map[] && q.definitions == map[]
    }

    /** The partitions of other workers are empty. */
    ghost predicate ForeignBlank()
      reads partitions
    {
      forall i :: 0 <= i < |partitions| && !Owns(i) ==> partitions[i].series == map[] && partitions[i].definitions == map[]
    }

    /**
     The definitions, then every checkpoint that is at home in an owned partition. Any failure leaves
     the partitions alone; one to read the checkpoints comes after the definitions were replaced.
     */
    method Initialize(now: Time) returns (r: Result<(), StartError>)
      requires Valid()
      modifies index, partitions
      ensures Valid()
      ensures r == Err(NotListed) <==> repository.listing.Err?
      ensures r == Err(NotCompiled) <==> repository.listing.Ok? && !AllValid(repository.listing.value)
      ensures r == Err(NotLoaded) <==> repository.listing.Ok? && AllValid(repository.listing.value) && !repository.readable
      ensures r.Err? ==> forall q :: q in partitions ==> unchanged(q)
      ensures if repository.listing.Ok? && AllValid(repository.listing.value)
              then RoutesOf(index.byRoute, repository.listing.value) && index.refreshedAt == now
                   && (DistinctDefinitions(repository.listing.value)
                       ==> index.Tabled() && index.table == TableOf(repository.listing.value))
              else index.byRoute == old(index.byRoute) && index.refreshedAt == old(index.refreshedAt)
      ensures r.Ok? && old(Blank()) ==> Synced() && ForeignBlank()
    {
      var listed := repository.ListDefinitions();
      if listed.Err? {
        return Err(NotListed);
      }
      var replaced := index.ReplaceDefinitions(listed.value, now);
      if replaced.Err? {
        return Err(NotCompiled);
      }
      var loaded := Load();
      if !loaded {
        return Err(NotLoaded);
      }
      return Ok(());
    }

    ghost function HeldSeries(): (held: seq<map<string, SeriesRecord>>)
      reads partitions
      ensures |held| == |partitions| && SeriesLoaded(held, map[])
    {
      seq(|partitions|, i requires 0 <= i < |partitions| reads partitions => partitions[i].series)
    }

    ghost function HeldDefinitions(): (held: seq<map<string, DefinitionState>>)
      reads partitions
      ensures |held| == |partitions| && DefinitionsLoaded(held, map[])
    {
      seq(|partitions|, i requires 0 <= i < |partitions| reads partitions => partitions[i].definitions)
    }

    /** Loads the checkpoints of the store. */
    method Load() returns (loaded: bool)
      requires Valid()
      modifies partitions
      ensures loaded == repository.readable
      ensures !loaded ==> forall q :: q in partitions ==> unchanged(q)
      ensures loaded && old(Blank()) ==> Synced() && ForeignBlank()
    {
      var read := repository.LoadRuntimeStates();
      if read.Err? {
        return false;
      }
      Distribute(read.value);
      return true;
    }

    method Distribute(snapshot: RuntimeSnapshot)
      requires Valid() && snapshot == RuntimeSnapshot(repository.memory.seriesRuntime, repository.memory.definitionRuntime)
      modifies partitions
      ensures old(Blank()) ==> Synced() && ForeignBlank()
    {
      ghost var stored := StoreView(repository.memory);
      ghost var series, definitions := HeldSeries(), HeldDefinitions();
      BlankHoldsNothing();
      ghost var clones := LoadSeriesApart(snapshot.series, stored, series);
      LoadDefinitionsApart(snapshot.definitions, definitions, clones, ClonedViews(OwnedViews(stored.series)), stored);
      if old(Blank()) {
        LoadedIsSynced(series, clones, definitions);
        NothingForeign(series, clones, definitions);
      }
    }

    ghost predicate AllEmpty<V>(held: seq<map<string, V>>) {
      forall i :: 0 <= i < |held| ==> held[i] == map[]
    }

    lemma BlankHoldsNothing()
      ensures Blank() ==> AllEmpty(HeldSeries()) && AllEmpty(HeldDefinitions())
    {
    }

    /** Nothing is loaded into partitions of other workers. */
    lemma NothingForeign(series: seq<map<string, SeriesRecord>>, clones: map<string, SeriesRecord>,
                         definitions: seq<map<string, DefinitionState>>)
      requires Valid() && |series| == |definitions| == |partitions|
      requires AllEmpty(series) && AllEmpty(definitions)
      requires Viewed(clones, ClonedViews(OwnedViews(StoreView(repository.memory).series))) && SeriesLoaded(series, clones)
      requires DefinitionsLoaded(definitions, repository.memory.definitionRuntime)
      ensures ForeignBlank()
    {
      assert forall k :: k in clones ==> k in OwnedViews(StoreView(repository.memory).series);
      forall i | 0 <= i < |partitions| && !Owns(i)
        ensures partitions[i].series == map[] && partitions[i].definitions == map[]
      {
        NoneAtHome(clones, i);
      }
    }

    lemma NoneAtHome(clones: map<string, SeriesRecord>, i: nat)
      requires !Owns(i) && forall k :: k in clones ==> Owns(layout.Home(k))
      ensures HomeSeries(layout, clones, i) == map[]
    {
    }

    lemma LoadedIsSynced(series: seq<map<string, SeriesRecord>>, clones: map<string, SeriesRecord>,
                         definitions: seq<map<string, DefinitionState>>)
      requires Valid() && |series| == |definitions| == |partitions|
      requires AllEmpty(series) && AllEmpty(definitions)
      requires Viewed(clones, ClonedViews(OwnedViews(StoreView(repository.memory).series))) && SeriesLoaded(series, clones)
      requires DefinitionsLoaded(definitions, repository.memory.definitionRuntime)
      ensures Synced()
    {
      var stored := StoreView(repository.memory);
      forall i | Owns(i) ensures PartitionView(partitions[i]) == Loaded(layout, stored, i) {
        NothingBelow(HomeSeries(layout, clones, i));
        NothingBelow(HomeDefinitions(layout, stored.definitions, i));
        LoadedPartition(partitions[i], clones, stored, i);
      }
    }

    lemma NothingBelow<K, V>(m: map<K, V>)
      ensures map[] + m == m
    {
    }

    lemma LoadedPartition(partition: Partition, clones: map<string, SeriesRecord>, stored: Cells, i: nat)
      requires Valid() && Owns(i) && Viewed(clones, ClonedViews(OwnedViews(stored.series)))
      requires partition.series == HomeSeries(layout, clones, i)
      requires partition.definitions == HomeDefinitions(layout, stored.definitions, i)
      ensures PartitionView(partition) == Loaded(layout, stored, i)
    {
      HomeClones(clones, stored.series, i);
    }

    lemma HomeClones(clones: map<string, SeriesRecord>, views: map<string, SeriesState>, i: nat)
      requires Valid() && Owns(i) && Viewed(clones, ClonedViews(OwnedViews(views)))
      ensures ViewRecords(HomeSeries(layout, clones, i)) == HomeSeries(layout, ClonedViews(views), i)
    {
    }

    method LoadSeriesApart(series: map<string, SeriesRecord>, ghost stored: Cells, ghost before: seq<map<string, SeriesRecord>>)
      returns (ghost clones: map<string, SeriesRecord>)
      requires Valid() && Viewed(series, stored.series) && StoreView(repository.memory) == stored
      requires |before| == |partitions| && SeriesLoaded(before, map[])
      modifies partitions`series
      ensures Viewed(clones, ClonedViews(OwnedViews(stored.series))) && SeriesLoaded(before, clones)
      ensures StoreView(repository.memory) == stored
    {
      clones := LoadSeries(series, stored.series, before);
      SameStore(repository.memory);
    }

    method LoadDefinitionsApart(definitions: map<string, DefinitionState>, ghost before: seq<map<string, DefinitionState>>,
                                ghost clones: map<string, SeriesRecord>, ghost views: map<string, SeriesState>, ghost stored: Cells)
      requires Valid() && Viewed(clones, views) && StoreView(repository.memory) == stored
      requires |before| == |partitions| && DefinitionsLoaded(before, map[])
      modifies partitions`definitions
      ensures DefinitionsLoaded(before, definitions)
      ensures Viewed(clones, views) && StoreView(repository.memory) == stored
    {
      LoadDefinitions(definitions, before);
    }

    ghost function OwnedViews(views: map<string, SeriesState>): map<string, SeriesState> {
      map k | k in views && Owns(layout.Home(k)) :: views[k]
    }

    /** What the partitions hold once the given records are loaded on top of what they held. */
    ghost predicate SeriesLoaded(before: seq<map<string, SeriesRecord>>, records: map<string, SeriesRecord>)
      requires |before| == |partitions|
      reads partitions`series
    {
      forall i :: 0 <= i < |partitions| ==> partitions[i].series == before[i] + HomeSeries(layout, records, i)
    }

    ghost predicate DefinitionsLoaded(before: seq<map<string, DefinitionState>>, definitions: map<string, DefinitionState>)
      requires |before| == |partitions|
      reads partitions`definitions
    {
      forall i :: 0 <= i < |partitions| ==>
        partitions[i].definitions == before[i] + if Owns(i) then HomeDefinitions(layout, definitions, i) else map[]
    }

    /** Clones the checkpoints of owned series into their partitions. */
    method LoadSeries(series: map<string, SeriesRecord>, ghost views: map<string, SeriesState>,
                      ghost before: seq<map<string, SeriesRecord>>)
      returns (ghost clones: map<string, SeriesRecord>)
      requires Valid() && Viewed(series, views)
      requires |before| == |partitions| && SeriesLoaded(before, map[])
      modifies partitions`series
      ensures Viewed(clones, ClonedViews(OwnedViews(views))) && SeriesLoaded(before, clones)
    {
      clones := map[];
      var pending := series.Keys;
      while pending != {}
        invariant pending <= views.Keys && Viewed(series, views)
        invariant Viewed(clones, ClonedViews(OwnedViews(views - pending)))
        invariant SeriesLoaded(before, clones)
      {
        var k :| k in pending;
        clones := LoadOneSeries(series, views, k, clones, before, views - pending);
        OneMoreSeen(views, pending, k);
        pending := pending - {k};
      }
      assert views - pending == views;
    }

    method LoadOneSeries(series: map<string, SeriesRecord>, ghost views: map<string, SeriesState>, k: string,
                         ghost clones: map<string, SeriesRecord>, ghost before: seq<map<string, SeriesRecord>>,
                         ghost seen: map<string, SeriesState>)
      returns (ghost more: map<string, SeriesRecord>)
      requires Valid() && Viewed(series, views) && k in views && k !in seen
      requires Viewed(clones, ClonedViews(OwnedViews(seen)))
      requires |before| == |partitions| && SeriesLoaded(before, clones)
      modifies partitions`series
      ensures Viewed(series, views) && Viewed(more, ClonedViews(OwnedViews(seen[k := views[k]]))) && SeriesLoaded(before, more)
    {
      OneMoreOwned(seen, k, views[k]);
      more := clones;
      var partitionId := layout.Home(k);
      if partitionId % workerCount == workerIndex {
        var clone := CloneOne(series, views, k, clones, ClonedViews(OwnedViews(seen)));
        more := clones[k := clone];
        PlaceSeriesApart(partitionId, k, clone, clones, before, series, views, more, ClonedViews(OwnedViews(seen[k := views[k]])));
      }
    }

    lemma OneMoreHome(before: map<string, SeriesRecord>, series: map<string, SeriesRecord>, k: string, v: SeriesRecord, i: nat)
      requires k !in series
      ensures before + HomeSeries(layout, series[k := v], i)
              == if i == layout.Home(k) then (before + HomeSeries(layout, series, i))[k := v]
                 else before + HomeSeries(layout, series, i)
    {
    }

    lemma OneMoreOwned(seen: map<string, SeriesState>, k: string, s: SeriesState)
      requires Valid() && k !in seen
      ensures ClonedViews(OwnedViews(seen[k := s]))
              == if Owns(layout.Home(k)) then ClonedViews(OwnedViews(seen))[k := ClonedSeries(AsWritten, s)]
                 else ClonedViews(OwnedViews(seen))
    {
    }

    method PlaceSeries(partitionId: nat, k: string, clone: SeriesRecord, ghost clones: map<string, SeriesRecord>,
                       ghost before: seq<map<string, SeriesRecord>>)
      requires Valid() && partitionId == layout.Home(k) && k !in clones
      requires |before| == |partitions| && SeriesLoaded(before, clones)
      modifies partitions`series
      ensures SeriesLoaded(before, clones[k := clone])
    {
      partitions[partitionId].series := partitions[partitionId].series[k := clone];
      forall i | 0 <= i < |partitions|
        ensures partitions[i].series == before[i] + HomeSeries(layout, clones[k := clone], i)
      {
        OneMoreHome(before[i], clones, k, clone, i);
      }
    }

    /** ... and no record changes its view. */
    method PlaceSeriesApart(partitionId: nat, k: string, clone: SeriesRecord, ghost clones: map<string, SeriesRecord>,
                            ghost before: seq<map<string, SeriesRecord>>,
                            ghost series: map<string, SeriesRecord>, ghost views: map<string, SeriesState>,
                            ghost more: map<string, SeriesRecord>, ghost moreViews: map<string, SeriesState>)
      requires Valid() && partitionId == layout.Home(k) && k !in clones
      requires |before| == |partitions| && SeriesLoaded(before, clones)
      requires Viewed(series, views) && Viewed(more, moreViews)
      modifies partitions`series
      ensures SeriesLoaded(before, clones[k := clone])
      ensures Viewed(series, views) && Viewed(more, moreViews)
    {
      PlaceSeries(partitionId, k, clone, clones, before);
    }

    /** The definition states of owned series go into their partitions. */
    method LoadDefinitions(definitions: map<string, DefinitionState>, ghost before: seq<map<string, DefinitionState>>)
      requires Valid()
      requires |before| == |partitions| && DefinitionsLoaded(before, map[])
      modifies partitions`definitions
      ensures DefinitionsLoaded(before, definitions)
    {
      var pending := definitions.Keys;
      while pending != {}
        invariant pending <= definitions.Keys && DefinitionsLoaded(before, definitions - pending)
      {
        var key :| key in pending;
        LoadOneDefinition(key, definitions[key], before, definitions - pending);
        OneMoreSeen(definitions, pending, key);
        pending := pending - {key};
      }
      assert definitions - pending == definitions;
    }

    method LoadOneDefinition(key: string, st: DefinitionState, ghost before: seq<map<string, DefinitionState>>,
                             ghost seen: map<string, DefinitionState>)
      requires Valid() && key !in seen
      requires |before| == |partitions| && DefinitionsLoaded(before, seen)
      modifies partitions`definitions
      ensures DefinitionsLoaded(before, seen[key := st])
    {
      var partitionId := layout.Home(DefinitionSeriesKey(key));
      if partitionId % workerCount == workerIndex {
        partitions[partitionId].definitions := partitions[partitionId].definitions[key := st];
      }
      forall i | 0 <= i < |partitions|
        ensures partitions[i].definitions == before[i] + if Owns(i) then HomeDefinitions(layout, seen[key := st], i) else map[]
      {
        OneMoreHomeDefinition(before[i], seen, key, st, i);
      }
    }

    lemma {:induction false} OneMoreHomeDefinition(before: map<string, DefinitionState>, seen: map<string, DefinitionState>,
                                                   key: string, st: DefinitionState, i: nat)
      requires key !in seen
      ensures before + HomeDefinitions(layout, seen[key := st], i)
              == if i == layout.Home(DefinitionSeriesKey(key)) then (before + HomeDefinitions(layout, seen, i))[key := st]
                 else before + HomeDefinitions(layout, seen, i)
    {
      HomeGrows(layout, seen, key, st, i);
      MergeGrows(before, HomeDefinitions(layout, seen, i), key, st);
    }
  }

  lemma {:induction false} HomeGrows(layout: Layout, seen: map<string, DefinitionState>, key: string, st: DefinitionState, i: nat)
    requires key !in seen
    ensures HomeDefinitions(layout, seen[key := st], i)
            == if i == layout.Home(DefinitionSeriesKey(key)) then HomeDefinitions(layout, seen, i)[key := st]
               else HomeDefinitions(layout, seen, i)
  {
  }

  lemma {:induction false} MergeGrows<K, V>(a: map<K, V>, b: map<K, V>, k: K, v: V)
    ensures a + b[k := v] == (a + b)[k := v]
  {
  }

  lemma {:induction false} OneMoreSeen<V>(all: map<string, V>, pending: set<string>, k: string)
    requires k in pending && pending <= all.Keys
    ensures k !in all - pending && (all - pending)[k := all[k]] == all - (pending - {k})
  {
  }

  method EmptyPartitions(n: Count) returns (partitions: seq<Partition>)
    ensures |partitions| == n
    ensures forall i, j :: 0 <= i < j < n ==> partitions[i] != partitions[j]
    ensures forall i :: 0 <= i < n ==> fresh(partitions[i]) && partitions[i].series == map[] && partitions[i].definitions == map[]
  {
    partitions := [];
    for m := 0 to n
      invariant |partitions| == m
      invariant forall i, j :: 0 <= i < j < m ==> partitions[i] != partitions[j]
      invariant forall i :: 0 <= i < m ==> fresh(partitions[i]) && partitions[i].series == map[] && partitions[i].definitions == map[]
    {
      var partition := new Partition();
      partitions := partitions + [partition];
    }
  }
}
