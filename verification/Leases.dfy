/** Partition leases (internal/store/postgres.go) as atomic steps on a table of owners and expiries. */
module Leases {
  import opened Wrappers
  import opened Model

  datatype Lease = Lease(owner: string, expiresAt: Time)

  type Rows = map<int, Lease>

  datatype LeaseError = NothingRequested | RowAffectedTwice

  predicate Claimable(rows: Rows, partition: int, owner: string, now: Time) {
    partition in rows ==> rows[partition].owner == owner || rows[partition].expiresAt <= now
  }

  predicate AllClaimable(rows: Rows, partitions: seq<int>, owner: string, now: Time) {
    forall p :: p in partitions ==> Claimable(rows, p, owner, now)
  }

  function Granted(rows: Rows, owner: string, partitions: seq<int>, until: Time): Rows {
    rows + map p | p in partitions :: Lease(owner, until)
  }

  predicate OwnsRow(rows: Rows, partition: int, owner: string) {
    partition in rows && rows[partition].owner == owner
  }

  predicate OwnsAll<K>(rows: map<K, Lease>, owner: string, partitions: seq<K>) {
    forall p :: p in partitions ==> p in rows && rows[p].owner == owner
  }

  /** Renewal extends whatever the owner still has among the partitions, all of them or not. */
  function Extended(rows: Rows, owner: string, partitions: seq<int>, until: Time): Rows {
    map p | p in rows :: if rows[p].owner == owner && p in partitions then Lease(owner, until) else rows[p]
  }

  function WithoutOwner(rows: Rows, owner: string): Rows {
    map p | p in rows && rows[p].owner != owner :: rows[p]
  }

  predicate Distinct<T(==)>(partitions: seq<T>) {
    forall i, j :: 0 <= i < j < |partitions| ==> partitions[i] != partitions[j]
  }

  // ----- The table -----

  class LeaseTable {
    var rows: Rows

    constructor ()
      ensures rows == map[]
    {
      rows := map[];
    }

    /** All partitions or none: a partial claim is rolled back. */
    method AcquirePartitions(owner: string, partitions: seq<int>, ttl: Duration, now: Time) returns (r: Result<bool, LeaseError>)
      modifies this
      ensures r == Err(NothingRequested) <==> partitions == []
      ensures r == Err(RowAffectedTwice) <==> AffectsTwice(old(rows), owner, partitions, now)
      ensures r == Ok(true) <==> partitions != [] && Distinct(partitions) && AllClaimable(old(rows), partitions, owner, now)
      ensures rows == if r == Ok(true) then Granted(old(rows), owner, partitions, now + ttl) else old(rows)
    {
      if |partitions| == 0 {
        return Err(NothingRequested);
      }
      var granted, outcome := GrantRows(rows, owner, partitions, ttl, now);
      if AllClaimable(rows, partitions, owner, now) {
        TwiceExactly(rows, owner, partitions, now);
      }
      if outcome == Ok(true) {
        rows := granted;
      }
      return outcome;
    }

    method RenewPartitions(owner: string, partitions: seq<int>, ttl: Duration, now: Time) returns (renewed: bool)
      modifies this
      ensures rows == Extended(old(rows), owner, partitions, now + ttl)
      ensures forall p :: p in old(rows) && (p !in partitions || old(rows)[p].owner != owner) ==> p in rows && rows[p] == old(rows)[p]
      ensures renewed <==> Distinct(partitions) && OwnsAll(old(rows), owner, partitions)
    {
      var extended, affected := ExtendRows(rows, owner, Chosen(partitions), now + ttl);
      RenewedRows(rows, owner, partitions);
      rows := extended;
      return affected == |partitions|;
    }

    method ReleasePartitions(owner: string)
      modifies this
      ensures rows == WithoutOwner(old(rows), owner)
    {
      rows := DeleteRows(rows, owner);
    }
  }

  /** The upsert of a claim, row by row; the caller keeps the result only when every row was affected. */
  method GrantRows(rows: Rows, owner: string, partitions: seq<int>, ttl: Duration, now: Time)
    returns (granted: Rows, r: Result<bool, LeaseError>)
    ensures r.Err? ==> r.error == RowAffectedTwice
    ensures r.Err? <==> AffectsTwice(rows, owner, partitions, now)
    ensures r.Ok? ==> (r.value <==> AllClaimable(rows, partitions, owner, now))
    ensures r == Ok(true) ==> granted == Granted(rows, owner, partitions, now + ttl)
  {
    var count, affected: set<int> := 0, {};
    granted := rows;
    for i := 0 to |partitions|
      invariant forall p :: p in affected <==> p in partitions[..i] && Claimable(rows, p, owner, now)
      invariant granted.Keys == rows.Keys + affected
      invariant forall p :: p in granted ==> granted[p] == if p in affected then Lease(owner, now + ttl) else rows[p]
      invariant !AffectsTwice(rows, owner, partitions[..i], now)
      invariant 0 <= count <= i && (count == i <==> AllClaimable(rows, partitions[..i], owner, now))
    {
      var p := partitions[i];
      assert partitions[..i + 1] == partitions[..i] + [p] && partitions[..i + 1][..i] == partitions[..i];
      assert forall q :: q in partitions[..i + 1] <==> q in partitions[..i] || q == p;
      if Claimable(rows, p, owner, now) {
        if p in affected {
          TwiceIsFinal(rows, owner, partitions, now, i + 1);
          return granted, Err(RowAffectedTwice);
        }
        granted := granted[p := Lease(owner, now + ttl)];
        affected, count := affected + {p}, count + 1;
      }
    }
    assert partitions[..|partitions|] == partitions;
    if count == |partitions| {
      GrantedIs(rows, granted, affected, owner, partitions, now + ttl);
    }
    return granted, Ok(count == |partitions|);
  }

  lemma {:induction false} GrantedIs(rows: Rows, granted: Rows, affected: set<int>, owner: string, partitions: seq<int>, until: Time)
    requires forall p :: p in affected <==> p in partitions
    requires granted.Keys == rows.Keys + affected
    requires forall p :: p in granted ==> granted[p] == if p in affected then Lease(owner, until) else rows[p]
    ensures granted == Granted(rows, owner, partitions, until)
  {
    var wanted := Granted(rows, owner, partitions, until);
    assert forall p :: p in wanted <==> p in granted;
    assert forall p :: p in granted ==> granted[p] == wanted[p];
    assert granted.Keys == wanted.Keys;
  }

  /** A row the claim may take is named twice. */
  predicate AffectsTwice(rows: Rows, owner: string, partitions: seq<int>, now: Time) {
    partitions != [] &&
    var front, last := partitions[..|partitions| - 1], partitions[|partitions| - 1];
    AffectsTwice(rows, owner, front, now) || (Claimable(rows, last, owner, now) && last in front)
  }

  lemma {:induction false} TwiceIsFinal(rows: Rows, owner: string, partitions: seq<int>, now: Time, i: nat)
    requires i <= |partitions| && AffectsTwice(rows, owner, partitions[..i], now)
    ensures AffectsTwice(rows, owner, partitions, now)
    decreases |partitions|
  {
    if i < |partitions| {
      assert partitions[..|partitions| - 1][..i] == partitions[..i];
      TwiceIsFinal(rows, owner, partitions[..|partitions| - 1], now, i);
    } else {
      assert partitions[..i] == partitions;
    }
  }

  /** A claim of free rows affects a row twice exactly when the partitions repeat. */
  lemma {:induction false} TwiceExactly(rows: Rows, owner: string, partitions: seq<int>, now: Time)
    requires AllClaimable(rows, partitions, owner, now)
    ensures AffectsTwice(rows, owner, partitions, now) <==> !Distinct(partitions)
  {
    if partitions != [] {
      var front, last := partitions[..|partitions| - 1], partitions[|partitions| - 1];
      assert partitions == front + [last];
      TwiceExactly(rows, owner, front, now);
      if !Distinct(front) {
        var i, j :| 0 <= i < j < |front| && front[i] == front[j];
        assert partitions[i] == partitions[j];
      }
      if last in front {
        var i :| 0 <= i < |front| && front[i] == last;
        assert partitions[i] == partitions[|front|];
      }
    }
  }

  /** The rows a renewal affects. */
  function Affected<K>(rows: map<K, Lease>, owner: string, chosen: set<K>): set<K> {
    set p | p in rows && rows[p].owner == owner && p in chosen
  }

  function Chosen<K>(partitions: seq<K>): set<K> {
    set p | p in partitions
  }

  /** The update of a renewal, and how many rows it affects. */
  method ExtendRows<K(==)>(rows: map<K, Lease>, owner: string, chosen: set<K>, until: Time)
    returns (extended: map<K, Lease>, affected: nat)
    ensures extended == map p | p in rows :: if rows[p].owner == owner && p in chosen then Lease(owner, until) else rows[p]
    ensures affected == |Affected(rows, owner, chosen)|
  {
    extended, affected := rows, 0;
    var pending := rows.Keys;
    ghost var done: set<K> := {};
    while pending != {}
      invariant pending <= rows.Keys == extended.Keys
      invariant forall p :: p in rows ==> extended[p] == if p in done then Lease(owner, until) else rows[p]
      invariant done == set p | p in rows && p !in pending && rows[p].owner == owner && p in chosen
      invariant affected == |done|
    {
      var p :| p in pending;
      if rows[p].owner == owner && p in chosen {
        extended := extended[p := Lease(owner, until)];
        affected := affected + 1;
        done := done + {p};
      }
      pending := pending - {p};
    }
    assert done == Affected(rows, owner, chosen);
  }

  method DeleteRows<K(==)>(rows: map<K, Lease>, owner: string) returns (kept: map<K, Lease>)
    ensures kept == map p | p in rows && rows[p].owner != owner :: rows[p]
  {
    kept := rows;
    var pending := rows.Keys;
    while pending != {}
      invariant pending <= kept.Keys <= rows.Keys
      invariant forall p :: p in kept ==> kept[p] == rows[p]
      invariant forall p :: p in rows ==> (p in kept <==> p in pending || rows[p].owner != owner)
    {
      var p :| p in pending;
      if rows[p].owner == owner {
        kept := kept - {p};
      }
      pending := pending - {p};
    }
  }

  /** As many rows as partitions are affected exactly when the partitions are distinct and all affected. */
  lemma {:induction false} AffectedRows<T>(affected: set<T>, partitions: seq<T>)
    requires forall p :: p in affected ==> p in partitions
    ensures |affected| <= |partitions|
    ensures |affected| == |partitions| <==> Distinct(partitions) && forall p :: p in partitions ==> p in affected
  {
    if partitions != [] {
      var front, last := partitions[..|partitions| - 1], partitions[|partitions| - 1];
      assert partitions == front + [last];
      AffectedRows(affected - {last}, front);
      if last in affected {
        assert |affected - {last}| == |affected| - 1;
        if Distinct(partitions) && forall p :: p in partitions ==> p in affected {
          assert forall i :: 0 <= i < |front| ==> partitions[i] == front[i];
          assert forall p :: p in front ==> p in affected - {last};
        }
      } else {
        assert affected - {last} == affected;
        assert last in partitions;
      }
    } else {
      assert affected == {};
    }
  }

  lemma {:induction false} RenewedRows<K>(rows: map<K, Lease>, owner: string, partitions: seq<K>)
    ensures |Affected(rows, owner, Chosen(partitions))| == |partitions|
            <==> Distinct(partitions) && OwnsAll(rows, owner, partitions)
  {
    var done := Affected(rows, owner, Chosen(partitions));
    assert forall p :: p in partitions ==> (p in done <==> p in rows && rows[p].owner == owner);
    AffectedRows(done, partitions);
  }
}
