/** The in-memory repository (internal/store/memory.go). */
module MemoryStore {
  import opened Wrappers
  import opened Model
  import opened Keys
  import opened Features
  import opened AlertLog

  datatype StoreError = NotFound | CheckpointFailed | ReadFailed

  datatype RuntimeBatch = RuntimeBatch(
    observations: seq<Observation>,
    seriesStates: map<string, SeriesRecord>,
    definitionStates: map<string, DefinitionState>,
    resetSeriesKeys: set<string>,
    alerts: seq<Alert>)

  datatype RuntimeSnapshot = RuntimeSnapshot(series: map<string, SeriesRecord>, definitions: map<string, DefinitionState>)

  /** The definition states that belong to none of the given series. */
  function WithoutSeries(definitions: map<string, DefinitionState>, seriesKeys: set<string>): map<string, DefinitionState> {
    map key | key in definitions && DefinitionSeriesKey(key) !in seriesKeys :: definitions[key]
  }

  lemma {:induction false} WithoutOneMore(definitions: map<string, DefinitionState>, dropped: set<string>, k: string)
    ensures WithoutSeries(WithoutSeries(definitions, dropped), {k}) == WithoutSeries(definitions, dropped + {k})
  {
  }

  function SourceIds(observations: seq<Observation>): set<string> {
    set i | 0 <= i < |observations| :: observations[i].sourceEventId
  }

  /** Deletes the definition states of one series. */
  method DropSeries(definitions: map<string, DefinitionState>, seriesKey: string)
    returns (kept: map<string, DefinitionState>)
    ensures kept == WithoutSeries(definitions, {seriesKey})
  {
    kept := definitions;
    var pending := definitions.Keys;
    while pending != {}
      invariant pending <= kept.Keys <= definitions.Keys
      invariant forall key :: key in kept ==> kept[key] == definitions[key]
      invariant forall key :: key in definitions ==>
                  (key in kept <==> key in pending || DefinitionSeriesKey(key) != seriesKey)
    {
      var key :| key in pending;
      if DefinitionSeriesKey(key) == seriesKey {
        kept := kept - {key};
      }
      pending := pending - {key};
    }
  }

  /** Writes every entry of the second map into the first. */
  method MergeInto<V>(target: map<string, V>, entries: map<string, V>) returns (merged: map<string, V>)
    ensures merged == target + entries
  {
    merged := target;
    var pending := entries.Keys;
    while pending != {}
      invariant pending <= entries.Keys
      invariant merged.Keys == target.Keys + (entries.Keys - pending)
      invariant forall key :: key in merged ==>
                  merged[key] == if key in entries && key !in pending then entries[key] else target[key]
    {
      var key :| key in pending;
      merged := merged[key := entries[key]];
      pending := pending - {key};
    }
  }

  class Memory {
    var seriesRuntime: map<string, SeriesRecord>
    var definitionRuntime: map<string, DefinitionState>
    var inbox: set<string>
    var alerts: seq<Alert>
    var leases: map<int, string>

    constructor ()
      ensures seriesRuntime == map[] && definitionRuntime == map[] && inbox == {} && alerts == [] && leases == map[]
    {
      seriesRuntime, definitionRuntime, inbox, alerts, leases := map[], map[], {}, [], map[];
    }

    method LoadRuntimeStates() returns (snapshot: RuntimeSnapshot)
      ensures snapshot == RuntimeSnapshot(seriesRuntime, definitionRuntime)
    {
      var series := MergeInto(map[], seriesRuntime);
      var definitions := MergeInto(map[], definitionRuntime);
      return RuntimeSnapshot(series, definitions);
    }

    method CommitRuntimeBatch(batch: RuntimeBatch) returns (created: seq<Alert>)
      modifies this
      ensures seriesRuntime == old(seriesRuntime) + batch.seriesStates
      ensures definitionRuntime == WithoutSeries(old(definitionRuntime), batch.resetSeriesKeys) + batch.definitionStates
      ensures inbox == old(inbox) + SourceIds(batch.observations)
      ensures alerts == Appended(old(alerts), batch.alerts) && alerts == old(alerts) + created
      ensures leases == old(leases)
    {
      for i := 0 to |batch.observations|
        modifies this`inbox
        invariant inbox == old(inbox) + SourceIds(batch.observations[..i])
      {
        inbox := inbox + {batch.observations[i].sourceEventId};
        SourceIdsSnoc(batch.observations, i);
      }
      assert batch.observations[..|batch.observations|] == batch.observations;
      seriesRuntime := MergeInto(seriesRuntime, batch.seriesStates);
      RemoveSeries(batch.resetSeriesKeys);
      definitionRuntime := MergeInto(definitionRuntime, batch.definitionStates);
      created := AppendAlerts(batch.alerts);
    }

    method RemoveSeries(seriesKeys: set<string>)
      modifies this`definitionRuntime
      ensures definitionRuntime == WithoutSeries(old(definitionRuntime), seriesKeys)
    {
      var pending := seriesKeys;
      while pending != {}
        modifies this`definitionRuntime
        invariant pending <= seriesKeys
        invariant definitionRuntime == WithoutSeries(old(definitionRuntime), seriesKeys - pending)
      {
        var seriesKey :| seriesKey in pending;
        WithoutOneMore(old(definitionRuntime), seriesKeys - pending, seriesKey);
        definitionRuntime := DropSeries(definitionRuntime, seriesKey);
        assert seriesKeys - (pending - {seriesKey}) == (seriesKeys - pending) + {seriesKey};
        pending := pending - {seriesKey};
      }
    }

    method AppendAlerts(offered: seq<Alert>) returns (created: seq<Alert>)
      modifies this`alerts
      ensures alerts == Appended(old(alerts), offered) && alerts == old(alerts) + created
    {
      created := [];
      for i := 0 to |offered|
        modifies this`alerts
        invariant alerts == Appended(old(alerts), offered[..i]) && alerts == old(alerts) + created
      {
        var duplicate := HasAlert(offered[i].id);
        assert offered[..i + 1][..i] == offered[..i];
        if !duplicate {
          var alert := offered[i].(cursor := |alerts| + 1);
          alerts := alerts + [alert];
          created := created + [alert];
        }
      }
      assert offered[..|offered|] == offered;
    }

    method HasAlert(id: AlertId) returns (found: bool)
      ensures found <==> Contains(alerts, id)
    {
      for i := 0 to |alerts|
        invariant forall j :: 0 <= j < i ==> alerts[j].id != id
      {
        if alerts[i].id == id {
          return true;
        }
      }
      return false;
    }

    method ListAlerts(after: int, limit: int) returns (out: seq<Alert>)
      ensures out == Page(alerts, after, limit)
    {
      out := [];
      for i := 0 to |alerts|
        invariant out == After(alerts[..i], after)
        invariant 0 < limit ==> |out| < limit
      {
        assert alerts[..i + 1][..i] == alerts[..i];
        if alerts[i].cursor > after {
          out := out + [alerts[i]];
          if |out| == limit {
            AfterIsMonotone(alerts, i + 1, after);
            return;
          }
        }
      }
      assert alerts[..|alerts|] == alerts;
    }

    method ClaimPending(limit: int) returns (out: seq<Alert>)
      ensures out == Cap(Pending(alerts), limit)
    {
      out := [];
      for i := 0 to |alerts|
        invariant out == Pending(alerts[..i])
        invariant 0 < limit ==> |out| < limit
      {
        assert alerts[..i + 1][..i] == alerts[..i];
        if !alerts[i].published {
          out := out + [alerts[i]];
          if |out| == limit {
            PendingIsMonotone(alerts, i + 1);
            return;
          }
        }
      }
      assert alerts[..|alerts|] == alerts;
    }

    method MarkPublished(id: AlertId) returns (r: Result<(), StoreError>)
      modifies this`alerts
      ensures r.Ok? <==> Contains(old(alerts), id)
      ensures Dense(old(alerts)) ==> alerts == Marked(old(alerts), {id})
    {
      for i := 0 to |alerts|
        invariant alerts == old(alerts)
        invariant forall j :: 0 <= j < i ==> alerts[j].id != id
      {
        if alerts[i].id == id {
          alerts := alerts[i := alerts[i].(published := true)];
          return Ok(());
        }
      }
      assert Marked(alerts, {id}) == alerts;
      return Err(NotFound);
    }

    method AcquirePartitions(owner: string, partitions: seq<int>) returns (acquired: bool)
      modifies this`leases
      ensures acquired <==> forall i :: 0 <= i < |partitions| ==> Free(old(leases), partitions[i], owner)
      ensures leases == if acquired then Claimed(old(leases), partitions, owner) else old(leases)
    {
      for i := 0 to |partitions|
        invariant leases == old(leases)
        invariant forall j :: 0 <= j < i ==> Free(leases, partitions[j], owner)
      {
        if partitions[i] in leases && leases[partitions[i]] != "" && leases[partitions[i]] != owner {
          return false;
        }
      }
      for i := 0 to |partitions|
        modifies this`leases
        invariant leases == Claimed(old(leases), partitions[..i], owner)
      {
        leases := leases[partitions[i] := owner];
        assert partitions[..i + 1][..i] == partitions[..i];
      }
      assert partitions[..|partitions|] == partitions;
      return true;
    }

    method ReleasePartitions(owner: string)
      modifies this`leases
      ensures leases == Released(old(leases), owner)
    {
      leases := DropOwner(leases, owner);
    }
  }

  /** Deletes the leases of one owner. */
  method DropOwner<K(==)>(leases: map<K, string>, owner: string) returns (kept: map<K, string>)
    ensures kept == Released(leases, owner)
  {
    kept := leases;
    var pending := kept.Keys;
    while pending != {}
      invariant pending <= kept.Keys <= leases.Keys
      invariant forall k :: k in kept ==> kept[k] == leases[k]
      invariant forall k :: k in leases ==> (k in kept <==> k in pending || leases[k] != owner)
    {
      var partition :| partition in pending;
      if kept[partition] == owner {
        kept := kept - {partition};
      }
      pending := pending - {partition};
    }
  }

  function Released<K>(leases: map<K, string>, owner: string): map<K, string> {
    map k | k in leases && leases[k] != owner :: leases[k]
  }

  predicate Free(leases: map<int, string>, partition: int, owner: string) {
    partition in leases ==> leases[partition] == "" || leases[partition] == owner
  }

  function Claimed(leases: map<int, string>, partitions: seq<int>, owner: string): map<int, string> {
    if partitions == [] then leases
    else Claimed(leases, partitions[..|partitions| - 1], owner)[partitions[|partitions| - 1] := owner]
  }

  /** A granted request puts its owner on record for what it named, and nothing else changes. */
  lemma {:induction false} ClaimedExactly(leases: map<int, string>, partitions: seq<int>, owner: string)
    ensures Claimed(leases, partitions, owner) == leases + map p | p in partitions :: owner
  {
    if partitions != [] {
      var front, last := partitions[..|partitions| - 1], partitions[|partitions| - 1];
      ClaimedExactly(leases, front, owner);
      assert forall p :: p in partitions <==> p in front || p == last;
    }
  }

  /** A request fails only where another owner is on record. */
  lemma {:induction false} FreeExactly(leases: map<int, string>, partitions: seq<int>, owner: string)
    ensures (forall i :: 0 <= i < |partitions| ==> Free(leases, partitions[i], owner))
            <==> !exists p :: p in partitions && p in leases && leases[p] != "" && leases[p] != owner
  {
  }

  lemma SourceIdsSnoc(observations: seq<Observation>, i: nat)
    requires i < |observations|
    ensures SourceIds(observations[..i + 1]) == SourceIds(observations[..i]) + {observations[i].sourceEventId}
  {
    var longer, shorter := observations[..i + 1], observations[..i];
    assert longer == shorter + [observations[i]];
    assert longer[i].sourceEventId in SourceIds(longer);
    forall id | id in SourceIds(shorter) ensures id in SourceIds(longer) {
      var j :| 0 <= j < i && shorter[j].sourceEventId == id;
      assert longer[j].sourceEventId == id;
    }
  }

  lemma {:induction false} AfterIsMonotone(log: seq<Alert>, i: nat, cursor: int)
    requires i <= |log|
    ensures After(log[..i], cursor) <= After(log, cursor)
    decreases |log|
  {
    if i < |log| {
      AfterIsMonotone(log[..|log| - 1], i, cursor);
      assert log[..|log| - 1][..i] == log[..i];
    } else {
      assert log[..i] == log;
    }
  }

  lemma {:induction false} PendingIsMonotone(log: seq<Alert>, i: nat)
    requires i <= |log|
    ensures Pending(log[..i]) <= Pending(log)
    decreases |log|
  {
    if i < |log| {
      PendingIsMonotone(log[..|log| - 1], i);
      assert log[..|log| - 1][..i] == log[..i];
    } else {
      assert log[..i] == log;
    }
  }
}
