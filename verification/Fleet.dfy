/**
 Engine objects at work together: any number of workers on one repository, batches retried until
 their commit is heard, workers that stop and start again. What they go through is a run of a
 cluster, so every theorem about clusters and deployments is one about EvaluateBatch and Initialize
 (internal/runtime/engine.go).
 */
module Fleet {
  import opened Wrappers
  import opened Model
  import opened Keys
  import opened Rules
  import opened Routing
  import opened SeriesMachine
  import opened AlertLog
  import opened MemoryStore
  import opened PartitionCells
  import opened BatchEvaluation
  import opened BatchCommit
  import opened Recovery
  import opened Engine
  import opened DefinitionIndexing
  import opened Sharding
  import opened Sequential
  import opened CrashRecovery

  // ----- The workers -----

  /** The first |engines| of n workers; worker w owns its residue, and holders are the partitions of their owners. */
  ghost predicate Manned(engines: seq<Engine>, n: Count, holders: seq<Partition>, repository: Repository, layout: Layout, routes: Routes)
    reads set w | 0 <= w < |engines| :: engines[w].index
  {
    && 0 < |engines| <= n && |holders| == layout.partitions
    && (forall w :: 0 <= w < |engines| ==> Posted(engines[w], w, n, repository, layout, routes))
    && (forall i :: 0 <= i < |holders| && i % n < |engines| ==> engines[i % n].partitions[i] == holders[i])
    && (forall i, j :: 0 <= i < j < |holders| ==> holders[i] != holders[j])
  }

  ghost predicate Posted(e: Engine, w: int, n: Count, repository: Repository, layout: Layout, routes: Routes)
    reads e.index
    ensures Posted(e, w, n, repository, layout, routes) ==> |e.partitions| == layout.partitions
  {
    && e.Valid() && e.repository == repository && e.layout == layout && e.workerIndex == w && e.workerCount == n
    && e.index.byRoute == routes
  }

  /** The partitions are those of the cluster. */
  ghost predicate ShowsPartitions(holders: seq<Partition>, cells: seq<Cells>)
    reads holders, set i, t | 0 <= i < |holders| && t in RecordTables(holders[i].series) :: t
  {
    |holders| == |cells| && forall i :: 0 <= i < |holders| ==> PartitionView(holders[i]) == cells[i]
  }

  /** Store and log are those of the cluster. */
  ghost predicate ShowsStore(memory: Memory, c: Cluster)
    reads memory, RecordTables(memory.seriesRuntime)
  {
    StoreView(memory) == c.stored && memory.alerts == c.deployment.Log()
  }

  /** What the service lets through, for series whose keys can be taken apart. */
  predicate Admissible(batch: Batch) {
    Statuses(batch.observations) && SlashFreeInputs(batch.observations)
  }

  /** Some worker takes the batch. */
  predicate Takeable(layout: Layout, batch: Batch) {
    batch.partition < layout.partitions && Routed(layout, batch.partition, batch.observations)
  }

  // ----- Clusters during one batch -----

  /** Where the partitions are, and where store and log are: one unheard commit ahead, perhaps. */
  datatype Standing = Standing(at: Cluster, ahead: Cluster)

  /** How a batch that came to the cluster stands after some tries; taken says that some reply was not a failure. */
  ghost predicate Stands(layout: Layout, p: Policy, c: Cluster, s: Standing, batch: Batch, heard: bool, taken: bool) {
    if heard then Follows(layout, p, c, s.at, Evaluate(batch)) && s.ahead == s.at && (taken || s.at == c)
    else s.at == c && if taken then FollowsUnheard(layout, p, c, s.ahead, batch) else s.ahead == c
  }

  /** What one try makes of the partition and the store. */
  ghost predicate Tried(ok: bool, reply: Reply, p: Policy, batch: Batch, cells: Cells, after: Cells, stored: Cells, saved: Cells) {
    && (ok <==> (AcceptsSome(p, cells, batch.observations) ==> reply.Done?))
    && (if ok then EveryCellAdvances(p, cells, after, batch.observations) else after == cells)
    && (if ok || reply.Unheard? then EveryCellIsSaved(p, cells, stored, saved, batch.observations) else saved == stored)
  }

  function Offers(p: Policy, c: Cluster, batch: Batch): seq<Alert>
    requires batch.partition < |c.deployment.partitions|
  {
    c.deployment.offered + Emitted(p, c.deployment.partitions[batch.partition], batch.observations)
  }

  function OnceMore(p: Policy, c: Cluster, s: Standing, batch: Batch, heard: bool, reply: Reply, after: Cells, saved: Cells): Standing
    requires batch.partition < |c.deployment.partitions|
  {
    var partitions := c.deployment.partitions;
    if heard then
      var next := Cluster(Deployment(partitions[batch.partition := after], Offers(p, c, batch)), saved);
      Standing(next, next)
    else if reply.Unheard? then Standing(c, Cluster(Deployment(partitions, Offers(p, c, batch)), saved))
    else s
  }

  /** Whatever tries came before, saving the batch and offering its alerts has the effect of the first time. */
  lemma {:induction false} SettledOnce(layout: Layout, p: Policy, c: Cluster, s: Standing, batch: Batch, taken: bool, saved: Cells)
    requires batch.partition < |c.deployment.partitions| && Stands(layout, p, c, s, batch, false, taken)
    requires EveryCellIsSaved(p, c.deployment.partitions[batch.partition], s.ahead.stored, saved, batch.observations)
    ensures EveryCellIsSaved(p, c.deployment.partitions[batch.partition], c.stored, saved, batch.observations)
    ensures Appended(s.ahead.deployment.Log(), Emitted(p, c.deployment.partitions[batch.partition], batch.observations))
            == Appended([], Offers(p, c, batch))
  {
    var cells := c.deployment.partitions[batch.partition];
    var emitted := Emitted(p, cells, batch.observations);
    BatchesAppend(s.ahead.deployment.Log(), s.ahead.deployment, emitted);
    if taken {
      SavingTwice(p, cells, c.stored, s.ahead.stored, saved, batch.observations);
      OfferingTwice(c.deployment.offered, emitted);
    }
  }

  /** One more try. */
  lemma {:induction false} TriedAgain(layout: Layout, p: Policy, c: Cluster, s: Standing, batch: Batch, taken: bool,
                                      heard: bool, reply: Reply, after: Cells, saved: Cells)
    requires Stands(layout, p, c, s, batch, false, taken) && batch.partition < |c.deployment.partitions|
    requires Routed(layout, batch.partition, batch.observations) && SlashFreeInputs(batch.observations)
    requires Tried(heard, reply, p, batch, c.deployment.partitions[batch.partition], after, s.ahead.stored, saved)
    ensures var next := OnceMore(p, c, s, batch, heard, reply, after, saved);
            && Stands(layout, p, c, next, batch, heard, taken || !reply.Failed?)
            && next.ahead.stored == saved
            && next.at.deployment.partitions == c.deployment.partitions[batch.partition := after]
            && next.ahead.deployment.Log()
               == if heard || reply.Unheard?
                  then Appended(s.ahead.deployment.Log(), Emitted(p, c.deployment.partitions[batch.partition], batch.observations))
                  else s.ahead.deployment.Log()
  {
    var next := OnceMore(p, c, s, batch, heard, reply, after, saved);
    if heard || reply.Unheard? {
      SettledOnce(layout, p, c, s, batch, taken, saved);
    }
    if heard && reply.Failed? {
      NothingAcceptedNothingChanged(layout, p, c, next.at, batch);
    }
  }

  // ----- One attempt -----

  twostate predicate PartitionStays(partition: Partition)
    reads partition, RecordTables(partition.series)
  {
    PartitionView(partition) == old(PartitionView(partition))
  }

  twostate predicate StoreStays(memory: Memory)
    reads memory, RecordTables(memory.seriesRuntime)
  {
    StoreView(memory) == old(StoreView(memory)) && memory.alerts == old(memory.alerts)
  }

  /** How a batch has gone at the worker that owns its partition. */
  twostate predicate Evaluated(ok: bool, reply: Reply, partition: Partition, memory: Memory, p: Policy, batch: Batch)
    reads partition, RecordTables(partition.series), memory, RecordTables(memory.seriesRuntime)
  {
    && (ok <==> (AcceptsSome(p, old(PartitionView(partition)), batch.observations) ==> reply.Done?))
    && (if ok then PartitionMoves(partition, p, batch.observations) else PartitionStays(partition))
    && (if ok || reply.Unheard? then StoreMoves(memory, partition, p, batch.observations) else StoreStays(memory))
  }

  /** One batch at the worker that owns its partition. */
  method EvaluateOwn(engine: Engine, partition: Partition, repository: Repository, batch: Batch, ghost routes: Routes)
    returns (r: Result<seq<Alert>, EngineError>)
    requires engine.Valid() && engine.repository == repository && engine.index.byRoute == routes
    requires BarFreeRoutes(routes) && Statuses(batch.observations)
    requires engine.Owns(batch.partition) && Routed(engine.layout, batch.partition, batch.observations)
    requires engine.partitions[batch.partition] == partition
    modifies partition, repository.memory
    ensures r.Ok? <==> (AcceptsSome(EnginePolicy(routes), old(PartitionView(partition)), batch.observations) ==> repository.reply.Done?)
    ensures if r.Ok? then PartitionMoves(partition, EnginePolicy(routes), batch.observations) else unchanged(partition)
    ensures if r.Ok? || repository.reply.Unheard? then StoreMoves(repository.memory, partition, EnginePolicy(routes), batch.observations)
            else unchanged(repository.memory)
  {
    r := engine.EvaluateBatch(batch.partition, batch.observations);
  }

  /** No other partition is the same object. */
  ghost predicate Apart(holders: seq<Partition>, i: int, partition: Partition) {
    forall j :: 0 <= j < |holders| && j != i ==> holders[j] != partition
  }

  twostate predicate OthersStay(holders: seq<Partition>, i: int)
    reads holders, set j, t | 0 <= j < |holders| && t in RecordTables(holders[j].series) :: t
  {
    forall j :: 0 <= j < |holders| && j != i ==> PartitionStays(holders[j])
  }

  method EvaluateSettled(engine: Engine, partition: Partition, repository: Repository, batch: Batch, ghost routes: Routes)
    returns (r: Result<seq<Alert>, EngineError>)
    requires engine.Valid() && engine.repository == repository && engine.index.byRoute == routes
    requires BarFreeRoutes(routes) && Statuses(batch.observations)
    requires engine.Owns(batch.partition) && Routed(engine.layout, batch.partition, batch.observations)
    requires engine.partitions[batch.partition] == partition
    modifies partition, repository.memory
    ensures r.Ok? <==> (AcceptsSome(EnginePolicy(routes), old(PartitionView(partition)), batch.observations) ==> repository.reply.Done?)
    ensures if r.Ok? then PartitionMoves(partition, EnginePolicy(routes), batch.observations) else unchanged(partition)
    ensures if r.Ok? || repository.reply.Unheard? then StoreMoves(repository.memory, partition, EnginePolicy(routes), batch.observations)
            else StoreStays(repository.memory)
  {
    r := EvaluateOwn(engine, partition, repository, batch, routes);
    if r.Err? && !repository.reply.Unheard? {
      SameStore(repository.memory);
    }
  }

  method EvaluateHeld(engine: Engine, partition: Partition, repository: Repository, batch: Batch, ghost routes: Routes)
    returns (r: Result<seq<Alert>, EngineError>)
    requires engine.Valid() && engine.repository == repository && engine.index.byRoute == routes
    requires BarFreeRoutes(routes) && Statuses(batch.observations)
    requires engine.Owns(batch.partition) && Routed(engine.layout, batch.partition, batch.observations)
    requires engine.partitions[batch.partition] == partition
    modifies partition, repository.memory
    ensures Evaluated(r.Ok?, repository.reply, partition, repository.memory, EnginePolicy(routes), batch)
  {
    r := EvaluateSettled(engine, partition, repository, batch, routes);
    if r.Err? {
      SameView(partition);
    }
  }

  /** ... among all partitions of the fleet. */
  method EvaluateAmong(engine: Engine, partition: Partition, ghost holders: seq<Partition>, repository: Repository, batch: Batch,
                       ghost routes: Routes)
    returns (r: Result<seq<Alert>, EngineError>)
    requires engine.Valid() && engine.repository == repository && engine.index.byRoute == routes
    requires BarFreeRoutes(routes) && Statuses(batch.observations)
    requires engine.Owns(batch.partition) && Routed(engine.layout, batch.partition, batch.observations)
    requires engine.partitions[batch.partition] == partition
    requires Apart(holders, batch.partition, partition)
    modifies partition, repository.memory
    ensures Evaluated(r.Ok?, repository.reply, partition, repository.memory, EnginePolicy(routes), batch)
    ensures OthersStay(holders, batch.partition)
  {
    r := EvaluateHeld(engine, partition, repository, batch, routes);
    forall j | 0 <= j < |holders| && j != batch.partition ensures PartitionStays(holders[j]) {
      SameView(holders[j]);
    }
  }

  /** ... in terms of what the partitions and the store show. */
  method EvaluateShown(engine: Engine, ghost holders: seq<Partition>, repository: Repository, batch: Batch, ghost routes: Routes,
                       ghost cells: seq<Cells>, ghost stored: Cells, ghost log: seq<Alert>)
    returns (r: Result<seq<Alert>, EngineError>, ghost after: Cells, ghost saved: Cells)
    requires engine.Valid() && engine.repository == repository && engine.index.byRoute == routes
    requires BarFreeRoutes(routes) && Statuses(batch.observations)
    requires engine.Owns(batch.partition) && Routed(engine.layout, batch.partition, batch.observations)
    requires batch.partition < |holders| && engine.partitions[batch.partition] == holders[batch.partition]
    requires Apart(holders, batch.partition, holders[batch.partition])
    requires ShowsPartitions(holders, cells) && StoreView(repository.memory) == stored && repository.memory.alerts == log
    modifies holders[batch.partition], repository.memory
    ensures Tried(r.Ok?, repository.reply, EnginePolicy(routes), batch, cells[batch.partition], after, stored, saved)
    ensures ShowsPartitions(holders, cells[batch.partition := after]) && StoreView(repository.memory) == saved
    ensures repository.memory.alerts
            == if r.Ok? || repository.reply.Unheard?
               then Appended(log, Emitted(EnginePolicy(routes), cells[batch.partition], batch.observations)) else log
  {
    r := EvaluateAmong(engine, engine.partitions[batch.partition], holders, repository, batch, routes);
    after, saved := PartitionView(holders[batch.partition]), StoreView(repository.memory);
    forall j | 0 <= j < |holders| && j != batch.partition ensures PartitionView(holders[j]) == cells[j] {
      assert PartitionStays(holders[j]);
    }
  }

  ghost predicate ShowsStanding(holders: seq<Partition>, memory: Memory, s: Standing)
    reads memory, RecordTables(memory.seriesRuntime)
    reads holders, set i, t | 0 <= i < |holders| && t in RecordTables(holders[i].series) :: t
  {
    ShowsPartitions(holders, s.at.deployment.partitions) && ShowsStore(memory, s.ahead)
  }

  /** The engine is the one to give the batch to. */
  ghost predicate Serves(engine: Engine, holders: seq<Partition>, repository: Repository, layout: Layout, routes: Routes, batch: Batch)
    reads engine.index
  {
    && engine.Valid() && engine.repository == repository && engine.index.byRoute == routes && engine.layout == layout
    && engine.Owns(batch.partition) && Routed(layout, batch.partition, batch.observations)
    && batch.partition < |holders| && engine.partitions[batch.partition] == holders[batch.partition]
    && Apart(holders, batch.partition, holders[batch.partition])
  }

  /** What the repository will answer, lost reply or not, is not up to the fleet. */
  method Answer(repository: Repository, reply: Reply, ghost holders: seq<Partition>, ghost s: Standing)
    requires ShowsStanding(holders, repository.memory, s)
    modifies repository`reply
    ensures repository.reply == reply && ShowsStanding(holders, repository.memory, s)
  {
    repository.reply := reply;
    SameStore(repository.memory);
    forall j | 0 <= j < |holders| ensures PartitionStays(holders[j]) {
      SameView(holders[j]);
    }
  }

  /** One try of a batch, after any number of failed ones. */
  method Attempt(engine: Engine, ghost holders: seq<Partition>, repository: Repository, batch: Batch, reply: Reply,
                 ghost layout: Layout, ghost routes: Routes, ghost c: Cluster, ghost s: Standing, ghost taken: bool)
    returns (heard: bool, ghost next: Standing)
    requires Serves(engine, holders, repository, layout, routes, batch) && BarFreeRoutes(routes) && Admissible(batch)
    requires ShowsStanding(holders, repository.memory, s) && Stands(layout, EnginePolicy(routes), c, s, batch, false, taken)
    modifies repository`reply, holders[batch.partition], repository.memory
    ensures ShowsStanding(holders, repository.memory, next)
    ensures Stands(layout, EnginePolicy(routes), c, next, batch, heard, taken || !reply.Failed?)
    ensures reply.Done? ==> heard
  {
    Answer(repository, reply, holders, s);
    var r, after, saved := EvaluateShown(engine, holders, repository, batch, routes, s.at.deployment.partitions, s.ahead.stored,
                                         s.ahead.deployment.Log());
    heard := r.Ok?;
    next := OnceMore(EnginePolicy(routes), c, s, batch, heard, reply, after, saved);
    TriedAgain(layout, EnginePolicy(routes), c, s, batch, taken, heard, reply, after, saved);
  }

  /** Some reply is not a failure. */
  predicate NotAllFail(replies: seq<Reply>) {
    exists i :: 0 <= i < |replies| && !replies[i].Failed?
  }

  /** Tries a batch until it is heard, or until the replies are used up. */
  method TryAll(engine: Engine, ghost holders: seq<Partition>, repository: Repository, batch: Batch, replies: seq<Reply>,
                ghost layout: Layout, ghost routes: Routes, ghost c: Cluster)
    returns (heard: bool, ghost s: Standing)
    requires Serves(engine, holders, repository, layout, routes, batch) && BarFreeRoutes(routes) && Admissible(batch)
    requires ShowsStanding(holders, repository.memory, Standing(c, c))
    modifies repository`reply, holders, repository.memory
    ensures ShowsStanding(holders, repository.memory, s)
    ensures Stands(layout, EnginePolicy(routes), c, s, batch, heard, NotAllFail(replies))
    ensures replies != [] && replies[|replies| - 1].Done? ==> heard
  {
    heard, s := false, Standing(c, c);
    var k := 0;
    while k < |replies| && !heard
      modifies repository`reply, holders, repository.memory
      invariant 0 <= k <= |replies|
      invariant ShowsStanding(holders, repository.memory, s)
      invariant Stands(layout, EnginePolicy(routes), c, s, batch, heard, NotAllFail(replies[..k]))
      invariant 0 < k && replies[k - 1].Done? ==> heard
    {
      OneMoreReply(replies, k);
      heard, s := Attempt(engine, holders, repository, batch, replies[k], layout, routes, c, s, NotAllFail(replies[..k]));
      k := k + 1;
    }
    FirstReplies(replies, k);
  }

  lemma OneMoreReply(replies: seq<Reply>, k: nat)
    requires k < |replies|
    ensures NotAllFail(replies[..k + 1]) <==> NotAllFail(replies[..k]) || !replies[k].Failed?
  {
    var before, now := replies[..k], replies[..k + 1];
    if NotAllFail(before) {
      var i :| 0 <= i < |before| && !before[i].Failed?;
      assert now[i] == before[i];
    }
    if NotAllFail(now) && replies[k].Failed? {
      var i :| 0 <= i < |now| && !now[i].Failed?;
      assert before[i] == now[i];
    }
    if !replies[k].Failed? {
      assert !now[k].Failed?;
    }
  }

  lemma FirstReplies(replies: seq<Reply>, k: nat)
    requires k <= |replies|
    ensures NotAllFail(replies[..k]) ==> NotAllFail(replies)
    ensures k == |replies| ==> replies[..k] == replies
  {
    var before := replies[..k];
    if NotAllFail(before) {
      var i :| 0 <= i < |before| && !before[i].Failed?;
      assert !replies[i].Failed?;
    }
  }

  // ----- Starting -----

  /** The repository answers with the definitions that the routes are made of. */
  ghost predicate Ready(repository: Repository, definitions: seq<Definition>, routes: Routes)
    reads repository`listing, repository`readable
  {
    && repository.listing == Ok(definitions) && repository.readable
    && AllValid(definitions) && DistinctDefinitions(definitions)
    && Ordered(routes) && RoutesOf(routes, definitions) && BarFreeRoutes(routes)
  }

  /** The partitions of the given workers are those of the cluster. */
  ghost predicate ShowsOf(workers: set<int>, n: Count, holders: seq<Partition>, cells: seq<Cells>)
    reads holders, set i, t | 0 <= i < |holders| && t in RecordTables(holders[i].series) :: t
  {
    |holders| == |cells| && forall i :: 0 <= i < |holders| && i % n in workers ==> PartitionView(holders[i]) == cells[i]
  }

  /** A worker starts, on whatever the store holds. */
  method Launch(repository: Repository, hash: Hash, partitionCount: int, workerIndex: int, workerCount: int, now: Time)
    returns (engine: Engine, r: Result<(), StartError>)
    ensures engine.Valid() && engine.repository == repository && engine.workerIndex == workerIndex
    ensures engine.layout.hash == hash && engine.layout.partitions == (if partitionCount < 1 then 1 else partitionCount)
    ensures engine.workerCount == (if workerCount < 1 then 1 else workerCount)
    ensures fresh(engine.index) && forall i :: 0 <= i < |engine.partitions| ==> fresh(engine.partitions[i])
    ensures r.Ok? <==> repository.listing.Ok? && AllValid(repository.listing.value) && repository.readable
    ensures r.Ok? ==> RoutesOf(engine.index.byRoute, repository.listing.value) && engine.Synced()
  {
    engine := new Engine.NewWithOwnership(repository, hash, partitionCount, workerIndex, workerCount);
    r := engine.Initialize(now);
    assert r.Err? ==> r.error.NotListed? || r.error.NotCompiled? || r.error.NotLoaded?;
  }

  /** The worker's partitions are what the store rebuilds. */
  ghost predicate Rebuilt(partitions: seq<Partition>, layout: Layout, stored: Cells, w: int, n: Count)
    reads partitions, set i, t | 0 <= i < |partitions| && t in RecordTables(partitions[i].series) :: t
  {
    forall i :: 0 <= i < |partitions| && i % n == w ==> PartitionView(partitions[i]) == Loaded(layout, stored, i)
  }

  /** ... with the definitions the others have. */
  method StartWorker(repository: Repository, layout: Layout, w: int, n: Count, now: Time, ghost definitions: seq<Definition>,
                     ghost routes: Routes)
    returns (engine: Engine)
    requires 0 <= w < n && Ready(repository, definitions, routes)
    ensures Posted(engine, w, n, repository, layout, routes)
    ensures fresh(engine.index) && forall i :: 0 <= i < |engine.partitions| ==> fresh(engine.partitions[i])
    ensures Rebuilt(engine.partitions, layout, StoreView(repository.memory), w, n)
  {
    var r;
    engine, r := Launch(repository, layout.hash, layout.partitions, w, n, now);
    assert engine.layout == layout;
    RoutesAreUnique(engine.index.byRoute, routes, definitions);
    SyncedPartitions(engine);
  }

  /** ... and nothing happens to the others. */
  method StartBeside(ghost holders: seq<Partition>, repository: Repository, layout: Layout, w: int, n: Count, now: Time,
                     ghost definitions: seq<Definition>, ghost routes: Routes, ghost stored: Cells, ghost cells: seq<Cells>,
                     ghost others: set<int>)
    returns (engine: Engine)
    requires 0 <= w < n && Ready(repository, definitions, routes)
    requires StoreView(repository.memory) == stored && ShowsOf(others, n, holders, cells)
    ensures Posted(engine, w, n, repository, layout, routes)
    ensures fresh(engine.index) && forall i :: 0 <= i < |engine.partitions| ==> fresh(engine.partitions[i])
    ensures Rebuilt(engine.partitions, layout, stored, w, n)
    ensures StoreView(repository.memory) == stored && ShowsOf(others, n, holders, cells)
  {
    engine := StartWorker(repository, layout, w, n, now, definitions, routes);
    SameStore(repository.memory);
    forall i | 0 <= i < |holders| ensures PartitionStays(holders[i]) {
      SameView(holders[i]);
    }
  }

  lemma SyncedPartitions(engine: Engine)
    requires engine.Valid() && engine.Synced()
    ensures Rebuilt(engine.partitions, engine.layout, StoreView(engine.repository.memory), engine.workerIndex, engine.workerCount)
  {
    forall i | 0 <= i < |engine.partitions| && i % engine.workerCount == engine.workerIndex
      ensures PartitionView(engine.partitions[i]) == Loaded(engine.layout, StoreView(engine.repository.memory), i)
    {
      assert engine.Owns(i);
    }
  }

  function Taking(holders: seq<Partition>, partitions: seq<Partition>, w: int, n: Count): (taken: seq<Partition>)
    requires |partitions| == |holders|
    ensures |taken| == |holders|
    ensures forall i :: 0 <= i < |holders| ==> taken[i] == if i % n == w then partitions[i] else holders[i]
  {
    seq(|holders|, i requires 0 <= i < |holders| => if i % n == w then partitions[i] else holders[i])
  }

  /** A worker starts and takes its partitions over from whoever held them. */
  method TakeOver(ghost holders: seq<Partition>, repository: Repository, layout: Layout, w: int, n: Count, now: Time,
                  ghost definitions: seq<Definition>, ghost routes: Routes, ghost c: Cluster, ghost others: set<int>)
    returns (engine: Engine, ghost more: seq<Partition>)
    requires 0 <= w < n && Ready(repository, definitions, routes) && |holders| == layout.partitions
    requires ShowsOf(others, n, holders, c.deployment.partitions) && ShowsStore(repository.memory, c) && Recoverable(layout, c)
    ensures Posted(engine, w, n, repository, layout, routes)
    ensures fresh(engine.index) && forall i :: 0 <= i < |engine.partitions| ==> fresh(engine.partitions[i])
    ensures more == Taking(holders, engine.partitions, w, n)
    ensures ShowsOf(others + {w}, n, more, c.deployment.partitions) && ShowsStore(repository.memory, c)
  {
    engine := StartBeside(holders, repository, layout, w, n, now, definitions, routes, c.stored, c.deployment.partitions, others);
    more := Taking(holders, engine.partitions, w, n);
    TakenShow(holders, engine.partitions, layout, w, n, c, others);
  }

  lemma TakenShow(holders: seq<Partition>, partitions: seq<Partition>, layout: Layout, w: int, n: Count, c: Cluster, others: set<int>)
    requires |partitions| == |holders| && ShowsOf(others, n, holders, c.deployment.partitions) && Recoverable(layout, c)
    requires Rebuilt(partitions, layout, c.stored, w, n)
    ensures ShowsOf(others + {w}, n, Taking(holders, partitions, w, n), c.deployment.partitions)
  {
  }

  /** No partition is in both. */
  ghost predicate Disjoint(xs: seq<Partition>, ys: seq<Partition>) {
    forall i, j :: 0 <= i < |xs| && 0 <= j < |ys| ==> xs[i] != ys[j]
  }

  lemma TakingIsDistinct(holders: seq<Partition>, partitions: seq<Partition>, w: int, n: Count)
    requires |partitions| == |holders| && Disjoint(holders, partitions)
    requires forall i, j :: 0 <= i < j < |holders| ==> holders[i] != holders[j]
    requires forall i, j :: 0 <= i < j < |partitions| ==> partitions[i] != partitions[j]
    ensures var taken := Taking(holders, partitions, w, n); forall i, j :: 0 <= i < j < |taken| ==> taken[i] != taken[j]
  {
  }

  /** The fleet with the worker that took over. */
  lemma {:induction false} Relieved(engines: seq<Engine>, n: Count, holders: seq<Partition>, repository: Repository, layout: Layout,
                                    routes: Routes, w: int, engine: Engine)
    requires Manned(engines, n, holders, repository, layout, routes) && 0 <= w < |engines|
    requires Posted(engine, w, n, repository, layout, routes) && Disjoint(holders, engine.partitions)
    ensures Manned(engines[w := engine], n, Taking(holders, engine.partitions, w, n), repository, layout, routes)
  {
    TakingIsDistinct(holders, engine.partitions, w, n);
  }

  /** ... or with one more worker. */
  lemma {:induction false} Joined(engines: seq<Engine>, n: Count, holders: seq<Partition>, repository: Repository, layout: Layout,
                                  routes: Routes, engine: Engine)
    requires Manned(engines, n, holders, repository, layout, routes) && |engines| < n
    requires Posted(engine, |engines|, n, repository, layout, routes) && Disjoint(holders, engine.partitions)
    ensures Manned(engines + [engine], n, Taking(holders, engine.partitions, |engines|, n), repository, layout, routes)
  {
    TakingIsDistinct(holders, engine.partitions, |engines|, n);
  }

  function Workers(n: nat): (workers: set<int>)
    ensures forall w :: w in workers <==> 0 <= w < n
  {
    if n == 0 then {} else Workers(n - 1) + {n - 1}
  }

  /** A worker stops and starts again; the others go on. */
  method RestartWorker(engines: seq<Engine>, ghost holders: seq<Partition>, repository: Repository, layout: Layout, w: int, n: Count,
                       now: Time, ghost definitions: seq<Definition>, ghost routes: Routes, ghost c: Cluster)
    returns (more: seq<Engine>, ghost next: seq<Partition>)
    requires Manned(engines, n, holders, repository, layout, routes) && 0 <= w < |engines| == n
    requires Ready(repository, definitions, routes) && Recoverable(layout, c)
    requires ShowsOf(Workers(n) - {w}, n, holders, c.deployment.partitions) && ShowsStore(repository.memory, c)
    ensures |more| == n && Manned(more, n, next, repository, layout, routes)
    ensures ShowsStanding(next, repository.memory, Standing(c, c))
    ensures forall i :: 0 <= i < |next| ==> next[i] in holders || fresh(next[i])
  {
    var engine;
    engine, next := TakeOver(holders, repository, layout, w, n, now, definitions, routes, c, Workers(n) - {w});
    more := engines[w := engine];
    Relieved(engines, n, holders, repository, layout, routes, w, engine);
    AllShow(w, n, next, c.deployment.partitions);
  }

  lemma AllShow(w: int, n: Count, holders: seq<Partition>, cells: seq<Cells>)
    requires 0 <= w < n && ShowsOf(Workers(n) - {w} + {w}, n, holders, cells)
    ensures ShowsPartitions(holders, cells)
  {
    forall i | 0 <= i < |holders| ensures PartitionView(holders[i]) == cells[i] {
      assert i % n in Workers(n) - {w} + {w};
    }
  }

  // ----- Orders -----

  /** A batch retried until its commit is heard, one whose worker starts anew after some tries, or just that. */
  datatype Order = Deliver(batch: Batch, replies: seq<Reply>) | Crash(batch: Batch, replies: seq<Reply>) | Reboot(worker: nat)

  predicate Proper(layout: Layout, n: Count, order: Order) {
    if order.Reboot? then order.worker < n else Takeable(layout, order.batch) && Admissible(order.batch)
  }

  /** All partitions of a worker are rebuilt. */
  function Rebooted(moves: seq<Move>, w: int, n: Count, count: nat): seq<Move> {
    if count == 0 then moves
    else if (count - 1) % n == w then Rebooted(moves, w, n, count - 1) + [Restart(count - 1)]
    else Rebooted(moves, w, n, count - 1)
  }

  /** What an order amounts to: a batch counts as soon as one commit of it took effect, heard or not. */
  function Obeyed(layout: Layout, n: Count, moves: seq<Move>, order: Order): seq<Move> {
    match order
    case Deliver(batch, _) => moves + [Evaluate(batch)]
    case Crash(batch, replies) => Rebooted(Survived(moves, batch, replies), batch.partition % n, n, layout.partitions)
    case Reboot(w) => Rebooted(moves, w, n, layout.partitions)
  }

  function Survived(moves: seq<Move>, batch: Batch, replies: seq<Reply>): seq<Move> {
    if NotAllFail(replies) then moves + [Evaluate(batch)] else moves
  }

  function AllObeyed(layout: Layout, n: Count, moves: seq<Move>, orders: seq<Order>): seq<Move> {
    if orders == [] then moves
    else Obeyed(layout, n, AllObeyed(layout, n, moves, orders[..|orders| - 1]), orders[|orders| - 1])
  }

  lemma {:induction false} ArrivesSnoc(layout: Layout, p: Policy, moves: seq<Move>, before: Cluster, after: Cluster, move: Move)
    requires Arrives(layout, p, moves, before) && Follows(layout, p, before, after, move)
    ensures Arrives(layout, p, moves + [move], after)
  {
    var all := moves + [move];
    assert all[..|all| - 1] == moves && all[|all| - 1] == move;
  }

  /** Rebuilding a partition is no news. */
  lemma {:induction false} RestartIsSilent(layout: Layout, p: Policy, moves: seq<Move>, c: Cluster, i: nat)
    requires Arrives(layout, p, moves, c) && Recoverable(layout, c) && i < |c.deployment.partitions|
    ensures Arrives(layout, p, moves + [Restart(i)], c)
  {
    var partitions := c.deployment.partitions;
    assert partitions[i := Loaded(layout, c.stored, i)] == partitions;
    ArrivesSnoc(layout, p, moves, c, c, Restart(i));
  }

  lemma {:induction false} RebootIsSilent(layout: Layout, p: Policy, moves: seq<Move>, c: Cluster, w: int, n: Count, count: nat)
    requires Arrives(layout, p, moves, c) && Recoverable(layout, c) && count <= |c.deployment.partitions|
    ensures Arrives(layout, p, Rebooted(moves, w, n, count), c)
  {
    if count > 0 {
      RebootIsSilent(layout, p, moves, c, w, n, count - 1);
      if (count - 1) % n == w {
        RestartIsSilent(layout, p, Rebooted(moves, w, n, count - 1), c, count - 1);
      }
    }
  }

  /** Where a batch has left the cluster when its worker stops. */
  lemma {:induction false} CrashSettles(layout: Layout, p: Policy, moves: seq<Move>, c: Cluster, s: Standing, batch: Batch,
                                        replies: seq<Reply>, heard: bool) returns (after: Cluster)
    requires p.clone == AsWritten && Arrives(layout, p, moves, c) && Stands(layout, p, c, s, batch, heard, NotAllFail(replies))
    requires batch.partition < |c.deployment.partitions|
    ensures Arrives(layout, p, Survived(moves, batch, replies), after) && Recoverable(layout, after)
    ensures after.stored == s.ahead.stored && after.deployment.Log() == s.ahead.deployment.Log()
    ensures |after.deployment.partitions| == |s.at.deployment.partitions|
    ensures forall j :: 0 <= j < |after.deployment.partitions| && j != batch.partition ==>
                          after.deployment.partitions[j] == s.at.deployment.partitions[j]
  {
    RestartsAreInvisible(layout, p, moves, c);
    if !NotAllFail(replies) {
      after := c;
    } else {
      if heard {
        after := s.at;
      } else {
        after := Resumed(layout, s.ahead, batch.partition);
        RestartHearsTheCommit(layout, p, c, s.ahead, after, batch);
      }
      ArrivesSnoc(layout, p, moves, c, after, Evaluate(batch));
      RestartsAreInvisible(layout, p, moves + [Evaluate(batch)], after);
    }
  }

  function Resumed(layout: Layout, c: Cluster, i: nat): Cluster
    requires i < |c.deployment.partitions|
  {
    c.(deployment := c.deployment.(partitions := c.deployment.partitions[i := Loaded(layout, c.stored, i)]))
  }

  // ----- Fleets at work -----

  /** The objects of the fleet are where the moves have taken the cluster. */
  ghost predicate Runs(engines: seq<Engine>, n: Count, holders: seq<Partition>, repository: Repository, layout: Layout,
                       definitions: seq<Definition>, routes: Routes, moves: seq<Move>, c: Cluster)
    reads set w | 0 <= w < |engines| :: engines[w].index
    reads repository`listing, repository`readable, repository.memory, RecordTables(repository.memory.seriesRuntime)
    reads holders, set i, t | 0 <= i < |holders| && t in RecordTables(holders[i].series) :: t
  {
    && |engines| == n && Manned(engines, n, holders, repository, layout, routes) && Ready(repository, definitions, routes)
    && Arrives(layout, EnginePolicy(routes), moves, c) && ShowsStanding(holders, repository.memory, Standing(c, c))
  }

  /** The worker that owns its partition takes the batch. */
  lemma {:induction false} OwnerServes(engines: seq<Engine>, n: Count, holders: seq<Partition>, repository: Repository, layout: Layout,
                                       routes: Routes, batch: Batch)
    requires Manned(engines, n, holders, repository, layout, routes) && |engines| == n && Takeable(layout, batch)
    ensures Serves(engines[batch.partition % n], holders, repository, layout, routes, batch)
  {
    assert Posted(engines[batch.partition % n], batch.partition % n, n, repository, layout, routes);
  }

  method TryAtOwner(engines: seq<Engine>, n: Count, ghost holders: seq<Partition>, repository: Repository, ghost layout: Layout,
                    ghost definitions: seq<Definition>, ghost routes: Routes, batch: Batch, replies: seq<Reply>,
                    ghost c: Cluster)
    returns (heard: bool, ghost s: Standing)
    requires |engines| == n && Manned(engines, n, holders, repository, layout, routes) && Ready(repository, definitions, routes)
    requires ShowsStanding(holders, repository.memory, Standing(c, c))
    requires Takeable(layout, batch) && Admissible(batch)
    modifies repository`reply, holders, repository.memory
    ensures Manned(engines, n, holders, repository, layout, routes) && Ready(repository, definitions, routes)
    ensures ShowsStanding(holders, repository.memory, s)
    ensures Stands(layout, EnginePolicy(routes), c, s, batch, heard, NotAllFail(replies))
    ensures replies != [] && replies[|replies| - 1].Done? ==> heard
  {
    OwnerServes(engines, n, holders, repository, layout, routes, batch);
    heard, s := TryAll(engines[batch.partition % n], holders, repository, batch, replies, layout, routes, c);
  }

  method DeliverUntilHeard(engines: seq<Engine>, n: Count, ghost holders: seq<Partition>, repository: Repository, ghost layout: Layout,
                           ghost definitions: seq<Definition>, ghost routes: Routes, batch: Batch, replies: seq<Reply>,
                           ghost moves: seq<Move>, ghost c: Cluster)
    returns (ghost after: Cluster)
    requires Runs(engines, n, holders, repository, layout, definitions, routes, moves, c)
    requires Takeable(layout, batch) && Admissible(batch)
    modifies repository`reply, holders, repository.memory
    ensures Runs(engines, n, holders, repository, layout, definitions, routes, moves + [Evaluate(batch)], after)
  {
    var heard, s := TryAtOwner(engines, n, holders, repository, layout, definitions, routes, batch, replies + [Done], c);
    after := s.at;
    ArrivesSnoc(layout, EnginePolicy(routes), moves, c, after, Evaluate(batch));
  }

  lemma {:induction false} OthersUntouched(n: Count, holders: seq<Partition>, before: seq<Cells>, after: seq<Cells>, i: nat)
    requires ShowsPartitions(holders, before) && |after| == |before|
    requires forall j :: 0 <= j < |after| && j != i ==> after[j] == before[j]
    ensures ShowsOf(Workers(n) - {i % n}, n, holders, after)
  {
  }

  method RestartAfterTries(engines: seq<Engine>, n: Count, ghost holders: seq<Partition>, repository: Repository, layout: Layout,
                           ghost definitions: seq<Definition>, ghost routes: Routes, batch: Batch, replies: seq<Reply>, now: Time,
                           ghost moves: seq<Move>, ghost c: Cluster)
    returns (more: seq<Engine>, ghost next: seq<Partition>, ghost after: Cluster)
    requires Runs(engines, n, holders, repository, layout, definitions, routes, moves, c)
    requires Takeable(layout, batch) && Admissible(batch)
    modifies repository`reply, holders, repository.memory
    ensures Runs(more, n, next, repository, layout, definitions, routes, Survived(moves, batch, replies), after)
    ensures forall i :: 0 <= i < |next| ==> next[i] in holders || fresh(next[i])
  {
    var heard, s := TryAtOwner(engines, n, holders, repository, layout, definitions, routes, batch, replies, c);
    after := CrashSettles(layout, EnginePolicy(routes), moves, c, s, batch, replies, heard);
    OthersUntouched(n, holders, s.at.deployment.partitions, after.deployment.partitions, batch.partition);
    more, next := RestartWorker(engines, holders, repository, layout, batch.partition % n, n, now, definitions, routes, after);
  }

  method RebootWorker(engines: seq<Engine>, n: Count, ghost holders: seq<Partition>, repository: Repository, layout: Layout,
                      ghost definitions: seq<Definition>, ghost routes: Routes, w: int, now: Time, ghost moves: seq<Move>, ghost c: Cluster)
    returns (more: seq<Engine>, ghost next: seq<Partition>)
    requires Runs(engines, n, holders, repository, layout, definitions, routes, moves, c) && 0 <= w < n
    ensures Runs(more, n, next, repository, layout, definitions, routes, Rebooted(moves, w, n, layout.partitions), c)
    ensures forall i :: 0 <= i < |next| ==> next[i] in holders || fresh(next[i])
  {
    RestartsAreInvisible(layout, EnginePolicy(routes), moves, c);
    AllButOneShow(w, n, holders, c.deployment.partitions);
    more, next := RestartWorker(engines, holders, repository, layout, w, n, now, definitions, routes, c);
    RebootIsSilent(layout, EnginePolicy(routes), moves, c, w, n, layout.partitions);
  }

  lemma AllButOneShow(w: int, n: Count, holders: seq<Partition>, cells: seq<Cells>)
    requires ShowsPartitions(holders, cells)
    ensures ShowsOf(Workers(n) - {w}, n, holders, cells)
  {
  }

  /** One order. */
  method Obey(engines: seq<Engine>, n: Count, ghost holders: seq<Partition>, repository: Repository, layout: Layout,
              ghost definitions: seq<Definition>, ghost routes: Routes, order: Order, now: Time, ghost moves: seq<Move>, ghost c: Cluster)
    returns (more: seq<Engine>, ghost next: seq<Partition>, ghost after: Cluster)
    requires Runs(engines, n, holders, repository, layout, definitions, routes, moves, c) && Proper(layout, n, order)
    modifies repository`reply, holders, repository.memory
    ensures Runs(more, n, next, repository, layout, definitions, routes, Obeyed(layout, n, moves, order), after)
    ensures forall i :: 0 <= i < |next| ==> next[i] in holders || fresh(next[i])
  {
    match order {
      case Deliver(batch, replies) =>
        more, next := engines, holders;
        after := DeliverUntilHeard(engines, n, holders, repository, layout, definitions, routes, batch, replies, moves, c);
      case Crash(batch, replies) =>
        more, next, after := RestartAfterTries(engines, n, holders, repository, layout, definitions, routes, batch, replies, now, moves, c);
        RestartsAreInvisible(layout, EnginePolicy(routes), Survived(moves, batch, replies), after);
        RebootIsSilent(layout, EnginePolicy(routes), Survived(moves, batch, replies), after, batch.partition % n, n, layout.partitions);
      case Reboot(w) =>
        after := c;
        more, next := RebootWorker(engines, n, holders, repository, layout, definitions, routes, w, now, moves, c);
    }
  }

  /**
   Whatever the fleet goes through, batches at all its workers, lost replies, stops and restarts, it ends
   where a run of a cluster ends that counts every batch once of which some commit took effect.
   */
  method RunFleet(engines: seq<Engine>, n: Count, ghost holders: seq<Partition>, repository: Repository, layout: Layout,
                  ghost definitions: seq<Definition>, ghost routes: Routes, orders: seq<Order>, now: Time,
                  ghost moves: seq<Move>, ghost c: Cluster)
    returns (more: seq<Engine>, ghost next: seq<Partition>, ghost after: Cluster)
    requires Runs(engines, n, holders, repository, layout, definitions, routes, moves, c)
    requires forall i :: 0 <= i < |orders| ==> Proper(layout, n, orders[i])
    modifies repository`reply, holders, repository.memory
    ensures Runs(more, n, next, repository, layout, definitions, routes, AllObeyed(layout, n, moves, orders), after)
  {
    more, next, after := engines, holders, c;
    for k := 0 to |orders|
      invariant Runs(more, n, next, repository, layout, definitions, routes, AllObeyed(layout, n, moves, orders[..k]), after)
      invariant forall i :: 0 <= i < |next| ==> next[i] in holders || fresh(next[i])
    {
      more, next, after := Obey(more, n, next, repository, layout, definitions, routes, orders[k], now,
                                AllObeyed(layout, n, moves, orders[..k]), after);
      assert orders[..k + 1][..k] == orders[..k];
    }
    assert orders[..|orders|] == orders;
  }

  // ----- Launching -----

  lemma {:induction false} OnlyWorker(first: Engine, n: Count, repository: Repository, layout: Layout, routes: Routes, c: Cluster)
    requires Posted(first, 0, n, repository, layout, routes) && Recoverable(layout, c)
    requires |c.deployment.partitions| == layout.partitions && Rebuilt(first.partitions, layout, c.stored, 0, n)
    ensures Manned([first], n, first.partitions, repository, layout, routes)
    ensures ShowsOf(Workers(1), n, first.partitions, c.deployment.partitions)
  {
  }

  /** The other workers join the first one. */
  method StaffRest(first: Engine, repository: Repository, layout: Layout, n: Count, now: Time,
                   ghost definitions: seq<Definition>, ghost routes: Routes, ghost c: Cluster)
    returns (engines: seq<Engine>, ghost holders: seq<Partition>)
    requires Posted(first, 0, n, repository, layout, routes) && Ready(repository, definitions, routes)
    requires ShowsStore(repository.memory, c) && Recoverable(layout, c) && |c.deployment.partitions| == layout.partitions
    requires Rebuilt(first.partitions, layout, c.stored, 0, n)
    ensures |engines| == n && Manned(engines, n, holders, repository, layout, routes)
    ensures ShowsStanding(holders, repository.memory, Standing(c, c))
    ensures forall i :: 0 <= i < |holders| ==> holders[i] in first.partitions || fresh(holders[i])
  {
    engines, holders := [first], first.partitions;
    OnlyWorker(first, n, repository, layout, routes, c);
    for m: int := 1 to n
      invariant |engines| == m && Manned(engines, n, holders, repository, layout, routes)
      invariant ShowsOf(Workers(m), n, holders, c.deployment.partitions) && ShowsStore(repository.memory, c)
      invariant forall i :: 0 <= i < |holders| ==> holders[i] in first.partitions || fresh(holders[i])
    {
      engines, holders := StaffOne(engines, holders, repository, layout, n, now, definitions, routes, c);
    }
    EveryoneShows(n, holders, c.deployment.partitions);
  }

  method StaffOne(engines: seq<Engine>, ghost holders: seq<Partition>, repository: Repository, layout: Layout, n: Count, now: Time,
                  ghost definitions: seq<Definition>, ghost routes: Routes, ghost c: Cluster)
    returns (more: seq<Engine>, ghost next: seq<Partition>)
    requires Manned(engines, n, holders, repository, layout, routes) && |engines| < n
    requires Ready(repository, definitions, routes) && Recoverable(layout, c)
    requires ShowsOf(Workers(|engines|), n, holders, c.deployment.partitions) && ShowsStore(repository.memory, c)
    ensures |more| == |engines| + 1 && Manned(more, n, next, repository, layout, routes)
    ensures ShowsOf(Workers(|more|), n, next, c.deployment.partitions) && ShowsStore(repository.memory, c)
    ensures forall i :: 0 <= i < |next| ==> next[i] in holders || fresh(next[i])
  {
    var engine;
    engine, next := TakeOver(holders, repository, layout, |engines|, n, now, definitions, routes, c, Workers(|engines|));
    more := engines + [engine];
    Joined(engines, n, holders, repository, layout, routes, engine);
  }

  lemma EveryoneShows(n: Count, holders: seq<Partition>, cells: seq<Cells>)
    requires ShowsOf(Workers(n), n, holders, cells)
    ensures ShowsPartitions(holders, cells)
  {
    forall i | 0 <= i < |holders| ensures PartitionView(holders[i]) == cells[i] {
      assert i % n in Workers(n);
    }
  }

  /** A fleet of any size starts where another one, of the same or another size, has left the store. */
  method Resume(repository: Repository, layout: Layout, n: Count, now: Time, ghost definitions: seq<Definition>, ghost routes: Routes,
                ghost moves: seq<Move>, ghost c: Cluster)
    returns (engines: seq<Engine>, ghost holders: seq<Partition>)
    requires Ready(repository, definitions, routes) && ShowsStore(repository.memory, c)
    requires Arrives(layout, EnginePolicy(routes), moves, c)
    ensures Runs(engines, n, holders, repository, layout, definitions, routes, moves, c)
    ensures forall i :: 0 <= i < |holders| ==> fresh(holders[i])
  {
    RestartsAreInvisible(layout, EnginePolicy(routes), moves, c);
    ArrivedCount(layout, EnginePolicy(routes), moves, c);
    var first := StartBeside([], repository, layout, 0, n, now, definitions, routes, c.stored, [], {});
    engines, holders := StaffRest(first, repository, layout, n, now, definitions, routes, c);
  }

  lemma ArrivedCount(layout: Layout, p: Policy, moves: seq<Move>, c: Cluster)
    requires p.clone == AsWritten && Arrives(layout, p, moves, c)
    ensures |c.deployment.partitions| == layout.partitions
  {
    RestartsAreInvisible(layout, p, moves, c);
    SeriesRunAlone(layout, p, Batches(moves), c.deployment, "");
  }

  /** Routes built from definitions without a bar in their IDs have none either. */
  lemma {:induction false} RoutedIdsHaveNoBar(routes: Routes, definitions: seq<Definition>)
    requires RoutesOf(routes, definitions) && AllValid(definitions)
    requires forall i :: 0 <= i < |definitions| ==> BarFree(definitions[i].id)
    ensures BarFreeRoutes(routes)
  {
    forall key | key in routes ensures BarFreeIds(routes[key]) {
      var cs := routes[key];
      assert SameMembers(RouteAt(routes, key), CompiledFor(definitions, key));
      SameMembersMeans(cs, CompiledFor(definitions, key));
      CompiledForAll(definitions, key);
      forall i | 0 <= i < |cs| ensures BarFree(cs[i].definition.id) {
        assert cs[i] in cs;
        var j :| 0 <= j < |definitions| && CompiledOf(definitions[j]) == cs[i] && RouteKey(definitions[j].series) == key;
      }
      AllBarFree(cs);
    }
  }

  lemma {:induction false} AllBarFree(cs: seq<Compiled>)
    requires forall i :: 0 <= i < |cs| ==> BarFree(cs[i].definition.id)
    ensures BarFreeIds(cs)
  {
    if cs != [] {
      AllBarFree(cs[..|cs| - 1]);
    }
  }

  function NoCluster(count: nat): Cluster {
    Cluster(Deployment(seq(count, _ => NO_CELLS), []), NO_CELLS)
  }

  /** Nothing is stored and nothing is logged. */
  ghost predicate Untouched(memory: Memory)
    reads memory
  {
    memory.seriesRuntime == map[] && memory.definitionRuntime == map[] && memory.alerts == []
  }

  lemma {:induction false} NothingRuns(layout: Layout, p: Policy, memory: Memory)
    requires Untouched(memory)
    ensures Arrives(layout, p, [], NoCluster(layout.partitions)) && Recoverable(layout, NoCluster(layout.partitions))
    ensures ShowsStore(memory, NoCluster(layout.partitions))
  {
    NothingLoads(layout, 0);
  }

  /** A fleet that starts on an empty store. */
  method LaunchFleet(repository: Repository, layout: Layout, n: Count, now: Time)
    returns (r: Result<seq<Engine>, StartError>, ghost holders: seq<Partition>, ghost routes: Routes)
    requires Untouched(repository.memory)
    requires repository.listing.Ok? ==> DistinctDefinitions(repository.listing.value)
    requires repository.listing.Ok? ==> forall i :: 0 <= i < |repository.listing.value| ==> BarFree(repository.listing.value[i].id)
    ensures r.Ok? <==> repository.listing.Ok? && AllValid(repository.listing.value) && repository.readable
    ensures r.Ok? ==> Runs(r.value, n, holders, repository, layout, repository.listing.value, routes, [], NoCluster(layout.partitions))
    ensures r.Ok? ==> forall i :: 0 <= i < |holders| ==> fresh(holders[i])
  {
    holders, routes := [], map[];
    var first, started := Launch(repository, layout.hash, layout.partitions, 0, n, now);
    if started.Err? {
      return Err(started.error), holders, routes;
    }
    assert first.layout == layout;
    routes := first.index.byRoute;
    RoutedIdsHaveNoBar(routes, repository.listing.value);
    NothingRuns(layout, EnginePolicy(routes), repository.memory);
    SyncedPartitions(first);
    var engines;
    engines, holders := StaffRest(first, repository, layout, n, now, repository.listing.value, routes, NoCluster(layout.partitions));
    r := Ok(engines);
  }

  // ----- What fleets have in common -----

  /** The batches of which some commit took effect. */
  function CommittedBatches(orders: seq<Order>): seq<Batch> {
    if orders == [] then []
    else
      var before, last := CommittedBatches(orders[..|orders| - 1]), orders[|orders| - 1];
      match last
      case Deliver(batch, _) => before + [batch]
      case Crash(batch, replies) => if NotAllFail(replies) then before + [batch] else before
      case Reboot(_) => before
  }

  lemma {:induction false} BatchesSnoc(moves: seq<Move>, move: Move)
    ensures Batches(moves + [move]) == if move.Evaluate? then Batches(moves) + [move.batch] else Batches(moves)
  {
    assert (moves + [move])[..|moves + [move]| - 1] == moves;
  }

  lemma {:induction false} RebootsHaveNoBatches(moves: seq<Move>, w: int, n: Count, count: nat)
    ensures Batches(Rebooted(moves, w, n, count)) == Batches(moves)
  {
    if count > 0 {
      RebootsHaveNoBatches(moves, w, n, count - 1);
      BatchesSnoc(Rebooted(moves, w, n, count - 1), Restart(count - 1));
    }
  }

  lemma {:induction false} BatchesOfOrders(layout: Layout, n: Count, orders: seq<Order>)
    ensures Batches(AllObeyed(layout, n, [], orders)) == CommittedBatches(orders)
  {
    if orders != [] {
      var front, last := orders[..|orders| - 1], orders[|orders| - 1];
      var moves := AllObeyed(layout, n, [], front);
      BatchesOfOrders(layout, n, front);
      match last {
        case Deliver(batch, _) =>
          BatchesSnoc(moves, Evaluate(batch));
        case Crash(batch, replies) =>
          BatchesSnoc(moves, Evaluate(batch));
          RebootsHaveNoBatches(Survived(moves, batch, replies), batch.partition % n, n, layout.partitions);
        case Reboot(w) =>
          RebootsHaveNoBatches(moves, w, n, layout.partitions);
      }
    }
  }

  /**
   Two fleets on two stores, of any numbers of workers, that commit the same stream, cut into any
   reset-clean batches, with any replies lost and any workers restarted, hold the same partitions and
   the same log.
   */
  lemma {:induction false} FleetsAgree(n: Count, es: seq<Engine>, hs: seq<Partition>, left: Repository, xs: seq<Order>, a: Cluster,
                                       m: Count, fs: seq<Engine>, gs: seq<Partition>, right: Repository, ys: seq<Order>, b: Cluster,
                                       layout: Layout, definitions: seq<Definition>, routes: Routes)
    requires Runs(es, n, hs, left, layout, definitions, routes, AllObeyed(layout, n, [], xs), a)
    requires Runs(fs, m, gs, right, layout, definitions, routes, AllObeyed(layout, m, [], ys), b)
    requires Stream(CommittedBatches(xs)) == Stream(CommittedBatches(ys)) && Fit(EnginePolicy(routes), Stream(CommittedBatches(xs)))
    requires AllResetClean(EnginePolicy(routes), CommittedBatches(xs)) && AllResetClean(EnginePolicy(routes), CommittedBatches(ys))
    ensures left.memory.alerts == right.memory.alerts
    ensures |hs| == |gs| && forall i :: 0 <= i < |hs| ==> PartitionView(hs[i]) == PartitionView(gs[i])
  {
    BatchesOfOrders(layout, n, xs);
    BatchesOfOrders(layout, m, ys);
    OneStreamOneCluster(layout, EnginePolicy(routes), AllObeyed(layout, n, [], xs), AllObeyed(layout, m, [], ys), a, b);
  }
}
