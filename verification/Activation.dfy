/**
 Scheduled enabling and disabling (internal/service/service.go, definitionEnabledAt in
 internal/runtime/engine.go): replicas with caches of different age switch at the same event time.
 */
module Activation {
  import opened Model
  import opened SeriesMachine

  // ----- Writes -----

  /** A definition as Create stores it: enabled, but only from the activation boundary on. */
  function Created(d: Definition, now: Time, delay: Duration): Definition {
    d.(enabled := true, createdAt := now, effectiveAt := now + delay)
  }

  function Toggled(d: Definition, enabled: bool, now: Time, delay: Duration): Definition {
    d.(enabled := enabled, effectiveAt := now + delay)
  }

  /** The wall times of the writes to one definition: its creation, then alternating toggles. */
  predicate Ordered(writes: seq<Time>) {
    && (writes != [] ==> ZERO_TIME < writes[0])
    && forall i, j :: 0 <= i < j < |writes| ==> writes[i] <= writes[j]
  }

  /** The stored definition after the first n writes. */
  function Version(d: Definition, writes: seq<Time>, delay: Duration, n: nat): Definition
    requires 0 < n <= |writes|
  {
    if n == 1 then Created(d, writes[0], delay)
    else
      var before := Version(d, writes, delay, n - 1);
      Toggled(before, !before.enabled, writes[n - 1], delay)
  }

  /** How many writes a reader at the given time sees. */
  function Seen(writes: seq<Time>, at: Time): (n: nat)
    ensures n <= |writes|
  {
    if writes == [] then 0
    else if writes[|writes| - 1] <= at then |writes|
    else Seen(writes[..|writes| - 1], at)
  }

  lemma {:induction false} SeenCounts(writes: seq<Time>, at: Time)
    requires Ordered(writes)
    ensures forall i :: 0 <= i < |writes| ==> (writes[i] <= at <==> i < Seen(writes, at))
  {
    if writes != [] && writes[|writes| - 1] > at {
      SeenCounts(writes[..|writes| - 1], at);
    }
  }

  lemma SeenGrows(writes: seq<Time>, a: Time, b: Time)
    requires Ordered(writes) && a <= b
    ensures Seen(writes, a) <= Seen(writes, b)
  {
    SeenCounts(writes, a);
    SeenCounts(writes, b);
    var n := Seen(writes, a);
    if 0 < n {
      assert writes[n - 1] <= b;
    }
  }

  // ----- Decisions -----

  /** What a replica whose cache was read at refreshedAt decides for an event. */
  predicate Decides(d: Definition, writes: seq<Time>, delay: Duration, refreshedAt: Time, event: Time) {
    var n := Seen(writes, refreshedAt);
    0 < n && EnabledAt(Version(d, writes, delay, n), event)
  }

  /** What the writes together ask for: on from every odd boundary, off from every even one. */
  predicate Scheduled(writes: seq<Time>, delay: Duration, event: Time) {
    Seen(writes, event - delay) % 2 == 1
  }

  lemma {:induction false} VersionIs(d: Definition, writes: seq<Time>, delay: Duration, n: nat)
    requires Ordered(writes) && 0 < n <= |writes|
    ensures var v := Version(d, writes, delay, n);
            v.enabled == (n % 2 == 1) && EffectiveAt(v) == writes[n - 1] + delay
  {
    assert ZERO_TIME < writes[0] <= writes[n - 1];
    if 1 < n {
      VersionIs(d, writes, delay, n - 1);
    }
  }

  /** A decision meets the schedule exactly when the writes seen and the boundaries passed fit together. */
  lemma DecidesExactly(d: Definition, writes: seq<Time>, delay: Duration, refreshedAt: Time, event: Time)
    requires Ordered(writes)
    ensures var seen, passed := Seen(writes, refreshedAt), Seen(writes, event - delay);
            (Decides(d, writes, delay, refreshedAt, event) == Scheduled(writes, delay, event))
            <==> if seen <= passed then (passed - seen) % 2 == 0 else (seen - passed) % 2 == 1
  {
    var seen, passed := Seen(writes, refreshedAt), Seen(writes, event - delay);
    SeenCounts(writes, refreshedAt);
    SeenCounts(writes, event - delay);
    if 0 < seen {
      VersionIs(d, writes, delay, seen);
      assert writes[seen - 1] <= event - delay <==> seen - 1 < passed;
    }
  }

  /** The cache is no older than the allowed staleness. */
  predicate FreshEnough(refreshedAt: Time, now: Time, staleness: nat) {
    now - staleness <= refreshedAt <= now
  }

  /** The event is not older than the boundary before the latest write's. */
  predicate Recent(writes: seq<Time>, delay: Duration, now: Time, event: Time) {
    event <= now && (2 <= Seen(writes, now) ==> writes[Seen(writes, now) - 2] + delay <= event)
  }

  /** A fresh replica decides recent events as scheduled. */
  lemma FreshReplicasMeetTheSchedule(d: Definition, writes: seq<Time>, delay: Duration, staleness: nat,
                                     refreshedAt: Time, now: Time, event: Time)
    requires Ordered(writes) && staleness <= delay
    requires FreshEnough(refreshedAt, now, staleness) && Recent(writes, delay, now, event)
    ensures Decides(d, writes, delay, refreshedAt, event) == Scheduled(writes, delay, event)
  {
    DecidesExactly(d, writes, delay, refreshedAt, event);
    SeenGrows(writes, event - delay, refreshedAt);
    SeenGrows(writes, refreshedAt, now);
    SeenCounts(writes, event - delay);
    if 2 <= Seen(writes, now) {
      assert writes[Seen(writes, now) - 2] <= event - delay;
    }
  }

  /** Two replicas never differ about such an event, whenever each of them read its cache. */
  lemma ReplicasAgree(d: Definition, writes: seq<Time>, delay: Duration, staleness: nat,
                      one: Time, other: Time, oneNow: Time, otherNow: Time, event: Time)
    requires Ordered(writes) && staleness <= delay
    requires FreshEnough(one, oneNow, staleness) && Recent(writes, delay, oneNow, event)
    requires FreshEnough(other, otherNow, staleness) && Recent(writes, delay, otherNow, event)
    ensures Decides(d, writes, delay, one, event) == Decides(d, writes, delay, other, event)
  {
    FreshReplicasMeetTheSchedule(d, writes, delay, staleness, one, oneNow, event);
    FreshReplicasMeetTheSchedule(d, writes, delay, staleness, other, otherNow, event);
  }

  /** Every cache within the staleness meets every schedule. */
  ghost predicate StalenessIsSafe(d: Definition, delay: Duration, staleness: nat) {
    forall writes: seq<Time>, refreshedAt: Time, now: Time, event: Time ::
      Ordered(writes) && FreshEnough(refreshedAt, now, staleness) && Recent(writes, delay, now, event)
      ==> Decides(d, writes, delay, refreshedAt, event) == Scheduled(writes, delay, event)
  }

  /** The staleness the configuration may allow is bounded by the activation delay, and by nothing less. */
  lemma SafeStalenessExactly(d: Definition, delay: Duration, staleness: nat)
    ensures StalenessIsSafe(d, delay, staleness) <==> staleness <= delay
  {
    if staleness <= delay {
      forall writes: seq<Time>, refreshedAt: Time, now: Time, event: Time |
        Ordered(writes) && FreshEnough(refreshedAt, now, staleness) && Recent(writes, delay, now, event)
        ensures Decides(d, writes, delay, refreshedAt, event) == Scheduled(writes, delay, event)
      {
        FreshReplicasMeetTheSchedule(d, writes, delay, staleness, refreshedAt, now, event);
      }
    } else {
      var writes, now := [1], 1 + delay;
      assert FreshEnough(now - staleness, now, staleness);
      assert Seen(writes, now) == 1 && Recent(writes, delay, now, now);
      assert Seen(writes, now - staleness) == 0;
      assert !Decides(d, writes, delay, now - staleness, now) && Scheduled(writes, delay, now);
    }
  }

  /**
   Events before the latest seen boundary: the decision is against the schedule exactly when an even
   number of seen boundaries, two or more, still lie ahead of the event.
   */
  lemma OldEventsExactly(d: Definition, writes: seq<Time>, delay: Duration, refreshedAt: Time, event: Time)
    requires Ordered(writes) && Seen(writes, event - delay) < Seen(writes, refreshedAt)
    ensures var ahead := Seen(writes, refreshedAt) - Seen(writes, event - delay);
            Decides(d, writes, delay, refreshedAt, event) != Scheduled(writes, delay, event)
            <==> 2 <= ahead && ahead % 2 == 0
  {
    DecidesExactly(d, writes, delay, refreshedAt, event);
  }

  // ----- Toggles that do not alternate -----

  /**
   A toggle keeps the decisions between the old boundary and the new one exactly when it changes
   the flag: enabling what is enabled already switches it off until the new boundary.
   */
  lemma TogglesMustAlternate(d: Definition, enabled: bool, now: Time, delay: Duration)
    requires ZERO_TIME < now && EffectiveAt(d) < now + delay
    ensures (forall event: Time :: EffectiveAt(d) <= event < now + delay ==>
              EnabledAt(Toggled(d, enabled, now, delay), event) == EnabledAt(d, event))
            <==> enabled != d.enabled
  {
    var t := Toggled(d, enabled, now, delay);
    var event := EffectiveAt(d);
    assert EnabledAt(d, event) == d.enabled && EnabledAt(t, event) == !enabled;
  }
}
