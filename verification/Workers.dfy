/**
 The processes behind the leases (cmd/alertsd/main.go): who counts on a partition, who runs it, and
 how long a worker may go without hearing of its lease before a second one can run beside it.
 */
module Workers {
  import opened Model
  import opened Keys
  import opened Leases

  /**
   A process counts on a partition until its last heard success plus its TTL. It runs a partition
   from a heard grant on, and nothing but a heard refusal or its own end stops it: the evaluation
   itself never looks at the lease. Releasing and stopping are two steps, in either order.
   */
  datatype Process = Process(ttl: Duration, claims: map<int, Time>, running: set<int>)

  datatype World = World(now: Time, rows: Rows, processes: map<string, Process>)

  /** A step whose reply is not heard still changes the table. */
  datatype Action =
    | Join(owner: string, ttl: Duration)
    | Acquire(owner: string, partitions: seq<int>, heard: bool)
    | Renew(owner: string, partitions: seq<int>, heard: bool)
    | Release(owner: string)
    | Stop(owner: string)
    | Tick(elapsed: nat)

  function Claimed(process: Process, partitions: seq<int>, now: Time): Process {
    process.(claims := process.claims + map p | p in partitions :: now + process.ttl)
  }

  function Started(process: Process, partitions: seq<int>, now: Time): Process {
    Claimed(process, partitions, now).(running := process.running + Chosen(partitions))
  }

  predicate Grants(w: World, owner: string, partitions: seq<int>) {
    partitions != [] && Distinct(partitions) && AllClaimable(w.rows, partitions, owner, w.now)
  }

  predicate Renews(w: World, owner: string, partitions: seq<int>) {
    Distinct(partitions) && OwnsAll(w.rows, owner, partitions)
  }

  /** What the process itself makes of a reply to its renewal. */
  function Heard(w: World, process: Process, owner: string, partitions: seq<int>, heard: bool): Process {
    if !heard then process
    else if Renews(w, owner, partitions) then Claimed(process, partitions, w.now)
    else process.(running := {})
  }

  function Act(w: World, a: Action): World {
    match a
    case Tick(elapsed) => w.(now := w.now + elapsed)
    case Join(owner, ttl) =>
      if owner in w.processes then w else w.(processes := w.processes[owner := Process(ttl, map[], {})])
    case Acquire(owner, partitions, heard) =>
      if owner !in w.processes || !Grants(w, owner, partitions) then w
      else
        var process := w.processes[owner];
        World(w.now, Granted(w.rows, owner, partitions, w.now + process.ttl),
              if heard then w.processes[owner := Started(process, partitions, w.now)] else w.processes)
    case Renew(owner, partitions, heard) =>
      if owner !in w.processes then w
      else
        var process := w.processes[owner];
        World(w.now, Extended(w.rows, owner, partitions, w.now + process.ttl),
              w.processes[owner := Heard(w, process, owner, partitions, heard)])
    case Release(owner) =>
      World(w.now, WithoutOwner(w.rows, owner),
            if owner in w.processes then w.processes[owner := w.processes[owner].(claims := map[])] else w.processes)
    case Stop(owner) =>
      if owner in w.processes then w.(processes := w.processes[owner := w.processes[owner].(running := {})]) else w
  }

  function Acts(w: World, actions: seq<Action>): World {
    if actions == [] then w else Act(Acts(w, actions[..|actions| - 1]), actions[|actions| - 1])
  }

  function Beginning(now: Time): World {
    World(now, map[], map[])
  }

  lemma {:induction false} Snoc(w: World, actions: seq<Action>, a: Action)
    ensures Acts(w, actions + [a]) == Act(Acts(w, actions), a)
    ensures [] + [a] == [a]
  {
    assert (actions + [a])[..|actions|] == actions;
  }

  lemma {:induction false} ActsConcat(w: World, xs: seq<Action>, ys: seq<Action>)
    ensures Acts(w, xs + ys) == Acts(Acts(w, xs), ys)
  {
    if ys == [] {
      assert xs + ys == xs;
    } else {
      assert (xs + ys)[..|xs + ys| - 1] == xs + ys[..|ys| - 1];
      ActsConcat(w, xs, ys[..|ys| - 1]);
    }
  }

  // ----- Claims -----

  /** The process has heard of a success less than its TTL ago. */
  predicate Holds(w: World, owner: string, partition: int) {
    && owner in w.processes && partition in w.processes[owner].claims
    && w.now < w.processes[owner].claims[partition]
  }

  /** A claim is no longer than the TTL, and while it lasts the row belongs to its process at least as long. */
  predicate ClaimIsSafe(w: World, owner: string, p: int)
    requires owner in w.processes && p in w.processes[owner].claims
  {
    var process := w.processes[owner];
    && process.claims[p] <= w.now + process.ttl
    && (w.now < process.claims[p] ==> OwnsRow(w.rows, p, owner) && process.claims[p] <= w.rows[p].expiresAt)
  }

  ghost predicate Safe(w: World) {
    forall owner, p :: owner in w.processes && p in w.processes[owner].claims ==> ClaimIsSafe(w, owner, p)
  }

  lemma {:induction false} StepsAreSafe(w: World, a: Action)
    requires Safe(w)
    ensures Safe(Act(w, a))
  {
    var next := Act(w, a);
    forall owner, p | owner in next.processes && p in next.processes[owner].claims
      ensures ClaimIsSafe(next, owner, p)
    {
      if owner in w.processes && p in w.processes[owner].claims {
        assert ClaimIsSafe(w, owner, p);
      }
    }
  }

  /** Over all interleavings a process with an unexpired claim is the recorded owner, beyond the claim's end. */
  lemma {:induction false} LeasesAreSafe(now: Time, actions: seq<Action>)
    ensures Safe(Acts(Beginning(now), actions))
  {
    if actions != [] {
      LeasesAreSafe(now, actions[..|actions| - 1]);
      StepsAreSafe(Acts(Beginning(now), actions[..|actions| - 1]), actions[|actions| - 1]);
    }
  }

  /** No partition has unexpired claims of two processes. */
  lemma {:induction false} ClaimsNeverOverlap(now: Time, actions: seq<Action>, a: string, b: string, partition: int)
    requires Holds(Acts(Beginning(now), actions), a, partition) && Holds(Acts(Beginning(now), actions), b, partition)
    ensures a == b
  {
    LeasesAreSafe(now, actions);
    assert ClaimIsSafe(Acts(Beginning(now), actions), a, partition);
    assert ClaimIsSafe(Acts(Beginning(now), actions), b, partition);
  }

  // ----- Running workers -----

  predicate Runs(w: World, owner: string, partition: int) {
    owner in w.processes && partition in w.processes[owner].running
  }

  /** The worker's last heard success for a partition it runs is at most this old. */
  predicate HeardWithin(w: World, owner: string, partition: int, age: int)
    requires Runs(w, owner, partition)
  {
    var process := w.processes[owner];
    partition in process.claims && w.now - age <= process.claims[partition] - process.ttl
  }

  /** ... for every running worker, and all workers have the TTL. */
  ghost predicate Attentive(w: World, ttl: Duration, age: nat) {
    && (forall owner :: owner in w.processes ==> w.processes[owner].ttl == ttl)
    && (forall owner, p :: Runs(w, owner, p) ==> HeardWithin(w, owner, p, age))
  }

  /** ... at every moment of a run. */
  ghost predicate AttentiveThroughout(now: Time, actions: seq<Action>, ttl: Duration, age: nat) {
    Attentive(Acts(Beginning(now), actions), ttl, age)
    && (actions == [] || AttentiveThroughout(now, actions[..|actions| - 1], ttl, age))
  }

  ghost predicate Exclusive(w: World) {
    forall a, b, p :: Runs(w, a, p) && Runs(w, b, p) ==> a == b
  }

  /** Workers that heard of their leases less than their own TTL ago do not run one partition twice. */
  lemma {:induction false} AttentiveWorkersNeverOverlap(now: Time, actions: seq<Action>, a: string, b: string, p: int)
    requires var w := Acts(Beginning(now), actions);
             && Runs(w, a, p) && HeardWithin(w, a, p, w.processes[a].ttl - 1)
             && Runs(w, b, p) && HeardWithin(w, b, p, w.processes[b].ttl - 1)
    ensures a == b
  {
    ClaimsNeverOverlap(now, actions, a, b, p);
  }

  /** In every run that is attentive to this degree no partition has two running workers. */
  ghost predicate NeverOverlaps(ttl: Duration, age: nat) {
    forall now: Time, actions: seq<Action> ::
      AttentiveThroughout(now, actions, ttl, age) ==> Exclusive(Acts(Beginning(now), actions))
  }

  /**
   Workers that always heard of a success at most so long ago never run a partition together exactly
   when that is less than the TTL.
   */
  lemma {:induction false} OverlapExactly(ttl: Duration, age: nat)
    ensures NeverOverlaps(ttl, age) <==> age < ttl
  {
    if age < ttl {
      forall now: Time, actions: seq<Action> | AttentiveThroughout(now, actions, ttl, age)
        ensures Exclusive(Acts(Beginning(now), actions))
      {
        var w := Acts(Beginning(now), actions);
        forall a, b, p | Runs(w, a, p) && Runs(w, b, p) ensures a == b {
          AttentiveWorkersNeverOverlap(now, actions, a, b, p);
        }
      }
    } else {
      var one, two := "1", "2";
      assert one[0] != two[0];
      OverlapRun(one, two, ttl, 0, 5);
      OverlapIsAttentive(one, two, ttl, age, 0);
      var w := Acts(Beginning(0), OverlapActions(one, two, ttl, 0));
      assert Runs(w, one, 0) && Runs(w, two, 0);
    }
  }

  /** A worker acquires, nothing is heard for a TTL, and another one acquires. */
  function OverlapActions(one: string, two: string, ttl: Duration, p: int): seq<Action> {
    [Join(one, ttl), Join(two, ttl), Acquire(one, [p], true), Tick(ttl), Acquire(two, [p], true)]
  }

  function Alone(ttl: Duration, p: int, now: Time): Process {
    Process(ttl, map[p := now + ttl], {p})
  }

  /** The world after the first n of these actions. */
  function OverlapWorld(one: string, two: string, ttl: Duration, p: int, n: nat): World
    requires n <= 5
  {
    var idle := Process(ttl, map[], {});
    match n
    case 0 => Beginning(0)
    case 1 => World(0, map[], map[one := idle])
    case 2 => World(0, map[], map[one := idle, two := idle])
    case 3 => World(0, map[p := Lease(one, ttl)], map[one := Alone(ttl, p, 0), two := idle])
    case 4 => World(ttl, map[p := Lease(one, ttl)], map[one := Alone(ttl, p, 0), two := idle])
    case _ => World(ttl, map[p := Lease(two, ttl + ttl)], map[one := Alone(ttl, p, 0), two := Alone(ttl, p, ttl)])
  }

  lemma {:induction false} OverlapStep(one: string, two: string, ttl: Duration, p: int, n: nat)
    requires one != two && n < 5
    ensures Act(OverlapWorld(one, two, ttl, p, n), OverlapActions(one, two, ttl, p)[n]) == OverlapWorld(one, two, ttl, p, n + 1)
  {
    if n == 2 {
      FirstTakes(one, two, ttl, p);
    } else if n == 4 {
      SecondTakes(one, two, ttl, p);
    }
  }

  lemma {:induction false} FirstTakes(one: string, two: string, ttl: Duration, p: int)
    requires one != two
    ensures Act(OverlapWorld(one, two, ttl, p, 2), Acquire(one, [p], true)) == OverlapWorld(one, two, ttl, p, 3)
  {
    Taking(OverlapWorld(one, two, ttl, p, 2), one, p);
    OneRow(map[], one, p, ttl);
  }

  lemma {:induction false} SecondTakes(one: string, two: string, ttl: Duration, p: int)
    requires one != two
    ensures Act(OverlapWorld(one, two, ttl, p, 4), Acquire(two, [p], true)) == OverlapWorld(one, two, ttl, p, 5)
  {
    var w := OverlapWorld(one, two, ttl, p, 4);
    Taking(w, two, p);
    OneRow(w.rows, two, p, ttl + ttl);
  }

  lemma {:induction false} OneRow(rows: Rows, owner: string, p: int, until: Time)
    requires rows.Keys <= {p}
    ensures rows[p := Lease(owner, until)] == map[p := Lease(owner, until)]
  {
  }

  lemma {:induction false} OverlapRun(one: string, two: string, ttl: Duration, p: int, n: nat)
    requires one != two && n <= 5
    ensures Acts(Beginning(0), OverlapActions(one, two, ttl, p)[..n]) == OverlapWorld(one, two, ttl, p, n)
    ensures n == 5 ==> OverlapActions(one, two, ttl, p)[..n] == OverlapActions(one, two, ttl, p)
  {
    var actions := OverlapActions(one, two, ttl, p);
    if n > 0 {
      OverlapRun(one, two, ttl, p, n - 1);
      OverlapStep(one, two, ttl, p, n - 1);
      assert actions[..n] == actions[..n - 1] + [actions[n - 1]];
      Snoc(Beginning(0), actions[..n - 1], actions[n - 1]);
    }
  }

  /** An idle process takes one claimable partition and runs it. */
  lemma {:induction false} Taking(w: World, owner: string, p: int)
    requires owner in w.processes && w.processes[owner] == Process(w.processes[owner].ttl, map[], {})
    requires Claimable(w.rows, p, owner, w.now)
    ensures var ttl := w.processes[owner].ttl;
            Act(w, Acquire(owner, [p], true))
            == World(w.now, w.rows[p := Lease(owner, w.now + ttl)], w.processes[owner := Alone(ttl, p, w.now)])
  {
    var process := w.processes[owner];
    assert Grants(w, owner, [p]);
    OneGranted(w.rows, owner, p, w.now + process.ttl);
    OneClaimed(process, p, w.now);
  }

  lemma {:induction false} OneGranted(rows: Rows, owner: string, p: int, until: Time)
    ensures Granted(rows, owner, [p], until) == rows[p := Lease(owner, until)]
  {
    var granted, wanted := Granted(rows, owner, [p], until), rows[p := Lease(owner, until)];
    assert p in [p] && forall q :: q in granted <==> q in wanted;
    assert forall q :: q in granted ==> granted[q] == wanted[q];
    assert granted.Keys == wanted.Keys;
  }

  lemma {:induction false} OneClaimed(process: Process, p: int, now: Time)
    requires process.claims == map[] && process.running == {}
    ensures Started(process, [p], now) == Alone(process.ttl, p, now)
  {
    var started, wanted := Started(process, [p], now), Alone(process.ttl, p, now);
    assert p in [p] && forall q :: q in started.claims <==> q in wanted.claims;
    assert forall q :: q in started.claims ==> started.claims[q] == wanted.claims[q];
    assert started.claims.Keys == wanted.claims.Keys;
    assert forall q :: q in started.running <==> q in wanted.running;
  }

  lemma {:induction false} OverlapIsAttentive(one: string, two: string, ttl: Duration, age: nat, p: int)
    requires one != two && ttl <= age
    ensures AttentiveThroughout(0, OverlapActions(one, two, ttl, p), ttl, age)
  {
    var actions := OverlapActions(one, two, ttl, p);
    forall n | 0 <= n <= 5 ensures Attentive(Acts(Beginning(0), actions[..n]), ttl, age) {
      OverlapRun(one, two, ttl, p, n);
      AttentiveState(OverlapWorld(one, two, ttl, p, n), ttl, age, p);
    }
    OverlapRun(one, two, ttl, p, 5);
    AttentivePrefixes(actions, ttl, age, 5);
  }

  lemma {:induction false} AttentiveState(w: World, ttl: Duration, age: nat, p: int)
    requires ttl <= age && 0 <= w.now <= ttl
    requires forall owner :: owner in w.processes ==>
               w.processes[owner] == Process(ttl, map[], {})
               || w.processes[owner] == Alone(ttl, p, 0) || w.processes[owner] == Alone(ttl, p, ttl)
    ensures Attentive(w, ttl, age)
  {
  }

  lemma {:induction false} AttentivePrefixes(actions: seq<Action>, ttl: Duration, age: nat, n: nat)
    requires n <= |actions| && forall k :: 0 <= k <= n ==> Attentive(Acts(Beginning(0), actions[..k]), ttl, age)
    ensures AttentiveThroughout(0, actions[..n], ttl, age)
  {
    if n > 0 {
      AttentivePrefixes(actions, ttl, age, n - 1);
      assert actions[..n][..n - 1] == actions[..n - 1];
    }
  }

  // ----- Series and residues -----

  const PARTITIONS: Count := 256

  predicate Residue(partition: int, workerIndex: int, workerCount: Count) {
    0 <= partition < PARTITIONS && partition % workerCount == workerIndex
  }

  /** A process evaluates a series when the residue rule gives it the partition and it runs the partition. */
  predicate Evaluates(w: World, hash: Hash, owner: string, workerIndex: int, workerCount: Count, series: Series) {
    var partition := PartitionOf(hash, PARTITIONS, series);
    Residue(partition, workerIndex, workerCount) && Runs(w, owner, partition)
  }

  /**
   While every running worker has heard of its leases within the TTL, no series has two evaluators,
   even if workers disagree about their count.
   */
  lemma {:induction false} OneEvaluatorPerSeries(now: Time, actions: seq<Action>, ttl: Duration, age: nat, hash: Hash, series: Series,
                                                 a: string, aIndex: int, aCount: Count, b: string, bIndex: int, bCount: Count)
    requires AttentiveThroughout(now, actions, ttl, age) && age < ttl
    requires Evaluates(Acts(Beginning(now), actions), hash, a, aIndex, aCount, series)
    requires Evaluates(Acts(Beginning(now), actions), hash, b, bIndex, bCount, series)
    ensures a == b && (aCount == bCount ==> aIndex == bIndex)
  {
    OverlapExactly(ttl, age);
    assert Exclusive(Acts(Beginning(now), actions));
  }

  /**
   Otherwise any series can have two: a worker that has not been refused goes on evaluating after
   its lease ran out and was taken over, here by a second process with the same worker index.
   */
  lemma {:induction false} TwoEvaluatorsAfterTheTtl(ttl: Duration, hash: Hash, series: Series, workerCount: Count)
    ensures var partition := PartitionOf(hash, PARTITIONS, series);
            var w := Acts(Beginning(0), OverlapActions("1", "2", ttl, partition));
            && Evaluates(w, hash, "1", partition % workerCount, workerCount, series)
            && Evaluates(w, hash, "2", partition % workerCount, workerCount, series)
  {
    assert "1"[0] != "2"[0];
    OverlapRun("1", "2", ttl, PartitionOf(hash, PARTITIONS, series), 5);
  }

  // ----- Releasing before stopping -----

  /** The first worker acquires and releases, as it does when its server fails, before its consumers stop. */
  function ReleaseActions(one: string, two: string, ttl: Duration, p: int): seq<Action> {
    OverlapActions(one, two, ttl, p)[..3] + [Release(one), Acquire(two, [p], true)]
  }

  lemma {:induction false} ReleasedRow(one: string, two: string, ttl: Duration, p: int)
    requires one != two
    ensures Act(OverlapWorld(one, two, ttl, p, 3), Release(one))
            == World(0, map[], map[one := Process(ttl, map[], {p}), two := Process(ttl, map[], {})])
  {
    var w := OverlapWorld(one, two, ttl, p, 3);
    var rows := WithoutOwner(w.rows, one);
    assert forall q :: q !in rows;
    assert rows == map[] by {
      assert rows.Keys == {};
    }
  }

  /** A released lease can be taken at once, while the worker that released it still evaluates. */
  lemma {:induction false} TwoEvaluatorsAfterARelease(ttl: Duration, hash: Hash, series: Series, workerCount: Count)
    ensures var partition := PartitionOf(hash, PARTITIONS, series);
            var w := Acts(Beginning(0), ReleaseActions("1", "2", ttl, partition));
            && Evaluates(w, hash, "1", partition % workerCount, workerCount, series)
            && Evaluates(w, hash, "2", partition % workerCount, workerCount, series)
            && !HeardWithin(w, "1", partition, ttl - 1)
  {
    var one, two, p := "1", "2", PartitionOf(hash, PARTITIONS, series);
    assert one[0] != two[0];
    var front := OverlapActions(one, two, ttl, p)[..3];
    OverlapRun(one, two, ttl, p, 3);
    ReleasedRow(one, two, ttl, p);
    Snoc(Beginning(0), front, Release(one));
    Snoc(Beginning(0), front + [Release(one)], Acquire(two, [p], true));
    assert (front + [Release(one)]) + [Acquire(two, [p], true)] == ReleaseActions(one, two, ttl, p);
    var released := World(0, map[], map[one := Process(ttl, map[], {p}), two := Process(ttl, map[], {})]);
    Taking(released, two, p);
  }

  // ----- Who is refused -----

  /** Some requested partition has a lease of another process that has not run out. */
  predicate TakenByAnother(w: World, owner: string, partitions: seq<int>) {
    exists p :: p in partitions && p in w.rows && w.rows[p].owner != owner && w.now < w.rows[p].expiresAt
  }

  /** A request for some distinct partitions is refused only where another process holds a lease that has not run out. */
  lemma {:induction false} RefusedExactly(w: World, owner: string, partitions: seq<int>)
    requires partitions != [] && Distinct(partitions)
    ensures Grants(w, owner, partitions) <==> !TakenByAnother(w, owner, partitions)
    ensures Grants(w, owner, partitions) && owner in w.processes ==>
              forall p :: p in partitions ==>
                            var after := Act(w, Acquire(owner, partitions, true));
                            p in after.rows && after.rows[p] == Lease(owner, w.now + w.processes[owner].ttl) && Runs(after, owner, p)
  {
  }

  // ----- Who runs -----

  /** The action starts the partition at the owner: a granted request whose reply was heard. */
  predicate Starts(w: World, a: Action, owner: string, p: int) {
    a.Acquire? && a.owner == owner && a.heard && p in a.partitions && owner in w.processes && Grants(w, owner, a.partitions)
  }

  /** The action ends whatever the owner runs: its own end, or a refused renewal whose reply was heard. */
  predicate Halts(w: World, a: Action, owner: string) {
    a == Stop(owner) || (a.Renew? && a.owner == owner && a.heard && !Renews(w, owner, a.partitions))
  }

  lemma {:induction false} RunsAfter(w: World, a: Action, owner: string, p: int)
    ensures Runs(Act(w, a), owner, p) <==> Starts(w, a, owner, p) || (Runs(w, owner, p) && !Halts(w, a, owner))
  {
  }

  /** The n-th action starts the partition, and nothing after it ends what the owner runs. */
  ghost predicate StartedAt(w: World, actions: seq<Action>, n: int, owner: string, p: int) {
    && 0 <= n < |actions| && Starts(Acts(w, actions[..n]), actions[n], owner, p)
    && forall k :: n < k < |actions| ==> !Halts(Acts(w, actions[..k]), actions[k], owner)
  }

  lemma {:induction false} SameReached(w: World, front: seq<Action>, last: Action, k: nat)
    requires k <= |front|
    ensures Acts(w, (front + [last])[..k]) == Acts(w, front[..k])
    ensures k < |front| ==> (front + [last])[k] == front[k]
  {
    assert (front + [last])[..k] == front[..k];
  }

  lemma {:induction false} StartedBefore(w: World, front: seq<Action>, last: Action, n: int, owner: string, p: int)
    requires StartedAt(w, front, n, owner, p) && !Halts(Acts(w, front), last, owner)
    ensures StartedAt(w, front + [last], n, owner, p)
  {
    var all := front + [last];
    SameReached(w, front, last, n);
    forall k | n < k < |all| ensures !Halts(Acts(w, all[..k]), all[k], owner) {
      SameReached(w, front, last, k);
      assert k == |front| ==> all[k] == last && front[..k] == front;
    }
  }

  lemma {:induction false} StartedNow(w: World, front: seq<Action>, last: Action, owner: string, p: int)
    requires Starts(Acts(w, front), last, owner, p)
    ensures StartedAt(w, front + [last], |front|, owner, p)
  {
    SameReached(w, front, last, |front|);
    assert front[..|front|] == front;
  }

  lemma {:induction false} WasStarted(w: World, front: seq<Action>, last: Action, n: int, owner: string, p: int)
    requires StartedAt(w, front + [last], n, owner, p)
    ensures if n == |front| then Starts(Acts(w, front), last, owner, p)
            else StartedAt(w, front, n, owner, p) && !Halts(Acts(w, front), last, owner)
  {
    var all := front + [last];
    assert front[..|front|] == front && all[|front|] == last;
    SameReached(w, front, last, |front|);
    SameReached(w, front, last, n);
    forall k | n < k < |front| ensures !Halts(Acts(w, front[..k]), front[k], owner) {
      SameReached(w, front, last, k);
      assert !Halts(Acts(w, all[..k]), all[k], owner);
    }
  }

  /**
   After any actions a worker runs a partition exactly when it heard of a grant for it and since then
   has neither stopped nor heard of a refusal: leases that ran out or were released do not matter.
   */
  lemma {:induction false} RunsExactly(now: Time, actions: seq<Action>, owner: string, p: int)
    ensures Runs(Acts(Beginning(now), actions), owner, p) <==> exists n :: StartedAt(Beginning(now), actions, n, owner, p)
  {
    var w := Beginning(now);
    if actions != [] {
      var front, last := actions[..|actions| - 1], actions[|actions| - 1];
      assert actions == front + [last];
      RunsExactly(now, front, owner, p);
      RunsAfter(Acts(w, front), last, owner, p);
      if n :| StartedAt(w, actions, n, owner, p) {
        WasStarted(w, front, last, n, owner, p);
      }
      if Starts(Acts(w, front), last, owner, p) {
        StartedNow(w, front, last, owner, p);
      } else if Runs(Acts(w, front), owner, p) && !Halts(Acts(w, front), last, owner) {
        var n :| StartedAt(w, front, n, owner, p);
        StartedBefore(w, front, last, n, owner, p);
      }
    }
  }

  // ----- Renewing in time -----

  predicate HoldsAll(w: World, owner: string, partitions: seq<int>) {
    forall p :: p in partitions ==> Holds(w, owner, p)
  }

  /** A renewal by a process that still holds everything is granted in full. */
  lemma {:induction false} HeldLeasesRenew(w: World, owner: string, partitions: seq<int>)
    requires Safe(w) && Distinct(partitions) && HoldsAll(w, owner, partitions)
    ensures Renews(w, owner, partitions)
  {
    forall p | p in partitions ensures OwnsRow(w.rows, p, owner) {
      assert Holds(w, owner, p) && ClaimIsSafe(w, owner, p);
    }
  }

  /** When the process last acted. */
  function LastTurn(w: World, actions: seq<Action>, owner: string): Time {
    if actions == [] then w.now
    else
      var front, last := actions[..|actions| - 1], actions[|actions| - 1];
      if !last.Tick? && last.owner == owner then Acts(w, front).now else LastTurn(w, front, owner)
  }

  /** The process only renews all its partitions, hears the replies, and never lets more than the gap pass in between. */
  ghost predicate Steady(w: World, actions: seq<Action>, owner: string, partitions: seq<int>, gap: nat) {
    actions == [] ||
    var front, last := actions[..|actions| - 1], actions[|actions| - 1];
    && Steady(w, front, owner, partitions, gap)
    && (last.Tick? ==> Acts(w, actions).now - LastTurn(w, front, owner) <= gap)
    && (!last.Tick? && last.owner == owner ==> last == Renew(owner, partitions, true))
  }

  /** A run: the process acquires, hears of it, and is steady from then on, whatever the others do before and after. */
  ghost predicate SteadyRun(start: Time, before: seq<Action>, owner: string, partitions: seq<int>, since: seq<Action>,
                            ttl: Duration, gap: nat) {
    var w := Acts(Beginning(start), before);
    && owner in w.processes && w.processes[owner].ttl == ttl && Grants(w, owner, partitions)
    && Steady(Act(w, Acquire(owner, partitions, true)), since, owner, partitions, gap)
  }

  function AfterSteadyRun(start: Time, before: seq<Action>, owner: string, partitions: seq<int>, since: seq<Action>): World {
    Acts(Act(Acts(Beginning(start), before), Acquire(owner, partitions, true)), since)
  }

  /** The process still runs all its partitions, and a renewal now would be granted. */
  predicate InCharge(w: World, owner: string, partitions: seq<int>) {
    Renews(w, owner, partitions) && forall p :: p in partitions ==> Runs(w, owner, p)
  }

  /** A process steady to this degree is always in charge. */
  ghost predicate SurvivesGap(ttl: Duration, gap: nat) {
    forall start: Time, before: seq<Action>, owner: string, partitions: seq<int>, since: seq<Action> ::
      SteadyRun(start, before, owner, partitions, since, ttl, gap)
      ==> InCharge(AfterSteadyRun(start, before, owner, partitions, since), owner, partitions)
  }

  /** What a steady process knows is as old as its last turn. */
  ghost predicate KeepsClaims(w: World, owner: string, partitions: seq<int>, ttl: Duration, lastTurn: Time) {
    && owner in w.processes && w.processes[owner].ttl == ttl
    && forall p :: p in partitions ==>
         Runs(w, owner, p) && p in w.processes[owner].claims && w.processes[owner].claims[p] == lastTurn + ttl
  }

  lemma {:induction false} OthersKeepClaims(w: World, a: Action, owner: string, partitions: seq<int>, ttl: Duration, lastTurn: Time)
    requires KeepsClaims(w, owner, partitions, ttl, lastTurn) && (a.Tick? || a.owner != owner)
    ensures KeepsClaims(Act(w, a), owner, partitions, ttl, lastTurn)
  {
    assert Act(w, a).processes[owner] == w.processes[owner];
  }

  lemma {:induction false} RenewalRefreshes(w: World, owner: string, partitions: seq<int>, ttl: Duration, lastTurn: Time)
    requires KeepsClaims(w, owner, partitions, ttl, lastTurn) && Renews(w, owner, partitions)
    ensures KeepsClaims(Act(w, Renew(owner, partitions, true)), owner, partitions, ttl, w.now)
  {
  }

  lemma {:induction false} ClaimsSuffice(w: World, owner: string, partitions: seq<int>, ttl: Duration, lastTurn: Time)
    requires Safe(w) && Distinct(partitions) && KeepsClaims(w, owner, partitions, ttl, lastTurn) && w.now < lastTurn + ttl
    ensures InCharge(w, owner, partitions)
  {
    forall p | p in partitions ensures Holds(w, owner, p) && Runs(w, owner, p) {
    }
    HeldLeasesRenew(w, owner, partitions);
  }

  lemma {:induction false} SteadyKeepsClaims(w: World, since: seq<Action>, owner: string, partitions: seq<int>, ttl: Duration, gap: nat)
    requires Safe(w) && Distinct(partitions) && gap < ttl
    requires KeepsClaims(w, owner, partitions, ttl, w.now) && Steady(w, since, owner, partitions, gap)
    ensures var later := Acts(w, since);
            && Safe(later) && KeepsClaims(later, owner, partitions, ttl, LastTurn(w, since, owner))
            && later.now - LastTurn(w, since, owner) <= gap
  {
    if since != [] {
      var front, last := since[..|since| - 1], since[|since| - 1];
      SteadyKeepsClaims(w, front, owner, partitions, ttl, gap);
      var reached := Acts(w, front);
      StepsAreSafe(reached, last);
      if !last.Tick? && last.owner == owner {
        ClaimsSuffice(reached, owner, partitions, ttl, LastTurn(w, front, owner));
        RenewalRefreshes(reached, owner, partitions, ttl, LastTurn(w, front, owner));
      } else {
        OthersKeepClaims(reached, last, owner, partitions, ttl, LastTurn(w, front, owner));
      }
    }
  }

  /** A worker that renews at most so late is never refused and never stops, exactly when that is less than the TTL. */
  lemma {:induction false} SurvivesExactly(ttl: Duration, gap: nat)
    ensures SurvivesGap(ttl, gap) <==> gap < ttl
  {
    if gap < ttl {
      forall start: Time, before: seq<Action>, owner: string, partitions: seq<int>, since: seq<Action> |
        SteadyRun(start, before, owner, partitions, since, ttl, gap)
        ensures InCharge(AfterSteadyRun(start, before, owner, partitions, since), owner, partitions)
      {
        var w := Acts(Beginning(start), before);
        var acquired := Act(w, Acquire(owner, partitions, true));
        LeasesAreSafe(start, before);
        StepsAreSafe(w, Acquire(owner, partitions, true));
        SteadyKeepsClaims(acquired, since, owner, partitions, ttl, gap);
        ClaimsSuffice(Acts(acquired, since), owner, partitions, ttl, LastTurn(acquired, since, owner));
      }
    } else {
      LateRenewalFails(ttl, gap);
    }
  }

  lemma {:induction false} OneLongTick(w: World, elapsed: nat, owner: string, partitions: seq<int>, gap: nat)
    requires elapsed <= gap
    ensures Steady(w, [Tick(elapsed)], owner, partitions, gap)
  {
    var actions := [Tick(elapsed)];
    Snoc(w, [], Tick(elapsed));
    assert [] + [Tick(elapsed)] == actions && Acts(w, []) == w;
    assert Acts(w, actions) == Act(w, Tick(elapsed));
    assert actions[..|actions| - 1] == [] && actions[|actions| - 1] == Tick(elapsed);
    assert Steady(w, [], owner, partitions, gap) && LastTurn(w, [], owner) == w.now;
  }

  lemma {:induction false} GapSurvived(start: Time, before: seq<Action>, owner: string, partitions: seq<int>, since: seq<Action>,
                                       ttl: Duration, gap: nat)
    requires SurvivesGap(ttl, gap) && SteadyRun(start, before, owner, partitions, since, ttl, gap)
    ensures InCharge(AfterSteadyRun(start, before, owner, partitions, since), owner, partitions)
  {
  }

  /** A gap of the TTL or more lets another process in. */
  lemma {:induction false} LateRenewalFails(ttl: Duration, gap: nat)
    requires ttl <= gap
    ensures !SurvivesGap(ttl, gap)
  {
    var one, two := "1", "2";
    assert one[0] != two[0];
    var actions, since := OverlapActions(one, two, ttl, 0), [Tick(ttl), Acquire(two, [0], true)];
    var w, acquired := OverlapWorld(one, two, ttl, 0, 2), OverlapWorld(one, two, ttl, 0, 3);
    OverlapRun(one, two, ttl, 0, 2);
    OverlapStep(one, two, ttl, 0, 2);
    OverlapStep(one, two, ttl, 0, 3);
    OverlapStep(one, two, ttl, 0, 4);
    Snoc(acquired, [], Tick(ttl));
    Snoc(acquired, [Tick(ttl)], Acquire(two, [0], true));
    OneLongTick(acquired, ttl, one, [0], gap);
    assert since[..1] == [Tick(ttl)];
    assert Steady(acquired, since, one, [0], gap);
    assert Grants(w, one, [0]);
    assert SteadyRun(0, actions[..2], one, [0], since, ttl, gap);
    assert AfterSteadyRun(0, actions[..2], one, [0], since) == OverlapWorld(one, two, ttl, 0, 5);
    assert 0 in [0];
    var later := OverlapWorld(one, two, ttl, 0, 5);
    assert !InCharge(later, one, [0]);
    if SurvivesGap(ttl, gap) {
      GapSurvived(0, actions[..2], one, [0], since, ttl, gap);
    }
  }

  /**
   Missing m ticks in a row is always survived, and never lets two workers run one partition, exactly
   when m + 1 intervals are shorter than the TTL; the configured interval allows for one.
   */
  lemma {:induction false} MissedTicksExactly(ttl: Duration, interval: Duration, missed: nat)
    ensures SurvivesGap(ttl, (missed + 1) * interval) <==> (missed + 1) * interval < ttl
    ensures NeverOverlaps(ttl, (missed + 1) * interval) <==> (missed + 1) * interval < ttl
    ensures interval * 2 < ttl ==> SurvivesGap(ttl, 2 * interval) && NeverOverlaps(ttl, 2 * interval)
  {
    SurvivesExactly(ttl, (missed + 1) * interval);
    SurvivesExactly(ttl, 2 * interval);
    OverlapExactly(ttl, (missed + 1) * interval);
    OverlapExactly(ttl, 2 * interval);
  }
}
