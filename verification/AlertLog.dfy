/** The alert log as a value: appending without duplicates, paging, and the publication outbox. */
module AlertLog {
  import opened Model

  predicate Contains(log: seq<Alert>, id: AlertId) {
    exists i :: 0 <= i < |log| && log[i].id == id
  }

  /** The log after the alerts were offered in order; an ID already present is skipped. */
  function Appended(log: seq<Alert>, alerts: seq<Alert>): seq<Alert> {
    if alerts == [] then log
    else
      var before := Appended(log, alerts[..|alerts| - 1]);
      var last := alerts[|alerts| - 1];
      if Contains(before, last.id) then before else before + [last.(cursor := |before| + 1)]
  }

  /** IDs are unique and the i-th alert has cursor i, counting from one. */
  predicate Dense(log: seq<Alert>) {
    && (forall i :: 0 <= i < |log| ==> log[i].cursor == i + 1)
    && (forall i, j :: 0 <= i < j < |log| ==> log[i].id != log[j].id)
  }

  lemma {:induction false} AppendingKeepsDense(log: seq<Alert>, alerts: seq<Alert>)
    requires Dense(log)
    ensures Dense(Appended(log, alerts))
    ensures log <= Appended(log, alerts)
    ensures forall id :: Contains(Appended(log, alerts), id) <==> Contains(log, id) || Contains(alerts, id)
  {
    if alerts != [] {
      var n := |alerts| - 1;
      var before, after := Appended(log, alerts[..n]), Appended(log, alerts);
      AppendingKeepsDense(log, alerts[..n]);
      forall id
        ensures Contains(alerts, id) <==> Contains(alerts[..n], id) || alerts[n].id == id
      {
        if Contains(alerts, id) {
          var i :| 0 <= i < |alerts| && alerts[i].id == id;
          assert i < n ==> alerts[..n][i].id == id;
        }
        if Contains(alerts[..n], id) {
          var i :| 0 <= i < n && alerts[..n][i].id == id;
          assert alerts[i].id == id;
        }
      }
      forall id
        ensures Contains(after, id) <==> Contains(before, id) || alerts[n].id == id
      {
        if Contains(before, id) {
          var i :| 0 <= i < |before| && before[i].id == id;
          assert after[i].id == id;
        }
        if !Contains(before, alerts[n].id) {
          assert after[|before|].id == alerts[n].id;
        }
      }
    }
  }

  /** Offering two lists at once is offering them one after the other. */
  lemma {:induction false} AppendingSplits(log: seq<Alert>, xs: seq<Alert>, ys: seq<Alert>)
    ensures Appended(log, xs + ys) == Appended(Appended(log, xs), ys)
  {
    if ys == [] {
      assert xs + ys == xs;
    } else {
      assert (xs + ys)[..|xs + ys| - 1] == xs + ys[..|ys| - 1];
      AppendingSplits(log, xs, ys[..|ys| - 1]);
    }
  }

  /** Offering alerts a second time, in any later batch, adds nothing. */
  lemma {:induction false} AppendingIsIdempotent(log: seq<Alert>, alerts: seq<Alert>)
    requires forall i :: 0 <= i < |alerts| ==> Contains(log, alerts[i].id)
    ensures Appended(log, alerts) == log
  {
    if alerts != [] {
      AppendingIsIdempotent(log, alerts[..|alerts| - 1]);
    }
  }

  // ----- Paging -----

  /** The source's result length rule: stop when the list reaches the limit, never if the limit is not positive. */
  function Cap(alerts: seq<Alert>, limit: int): seq<Alert> {
    if 0 < limit < |alerts| then alerts[..limit] else alerts
  }

  function After(log: seq<Alert>, cursor: int): seq<Alert> {
    if log == [] then []
    else
      var before := After(log[..|log| - 1], cursor);
      if log[|log| - 1].cursor > cursor then before + [log[|log| - 1]] else before
  }

  function Page(log: seq<Alert>, cursor: int, limit: int): seq<Alert> {
    Cap(After(log, cursor), limit)
  }

  lemma {:induction false} AfterIsASuffix(log: seq<Alert>, cursor: nat)
    requires forall i :: 0 <= i < |log| ==> log[i].cursor == i + 1
    ensures After(log, cursor) == if cursor <= |log| then log[cursor..] else []
  {
    if log != [] {
      AfterIsASuffix(log[..|log| - 1], cursor);
    }
  }

  lemma PageIsASlice(log: seq<Alert>, cursor: nat, limit: int)
    requires Dense(log) && 0 < limit && cursor <= |log|
    ensures var end := if cursor + limit < |log| then cursor + limit else |log|;
            Page(log, cursor, limit) == log[cursor..end] && (cursor < end ==> log[end - 1].cursor == end)
  {
    AfterIsASuffix(log, cursor);
  }

  /** A limit that is not positive is none. */
  lemma UnlimitedPages(log: seq<Alert>, cursor: nat, limit: int)
    requires Dense(log) && limit <= 0 && cursor <= |log|
    ensures Page(log, cursor, limit) == log[cursor..]
  {
    AfterIsASuffix(log, cursor);
  }

  /** All pages from a cursor on, each starting behind the last alert of the one before. */
  function Pages(log: seq<Alert>, cursor: nat, limit: int): seq<Alert>
    requires Dense(log) && 0 < limit && cursor <= |log|
    decreases |log| - cursor
  {
    var page := Page(log, cursor, limit);
    PageIsASlice(log, cursor, limit);
    if page == [] then [] else page + Pages(log, page[|page| - 1].cursor, limit)
  }

  /** Paging with any positive limit lists every alert behind the cursor once, in order. */
  lemma {:induction false} PagingEnumerates(log: seq<Alert>, cursor: nat, limit: int)
    requires Dense(log) && 0 < limit && cursor <= |log|
    ensures Pages(log, cursor, limit) == log[cursor..]
    decreases |log| - cursor
  {
    PageIsASlice(log, cursor, limit);
    if cursor < |log| {
      var end := if cursor + limit < |log| then cursor + limit else |log|;
      PagingEnumerates(log, end, limit);
      assert log[cursor..] == log[cursor..end] + log[end..];
    }
  }

  // ----- Outbox -----

  function Pending(log: seq<Alert>): seq<Alert> {
    if log == [] then []
    else
      var before := Pending(log[..|log| - 1]);
      if log[|log| - 1].published then before else before + [log[|log| - 1]]
  }

  /** The log with the alerts of the given IDs marked published. */
  function Marked(log: seq<Alert>, ids: set<AlertId>): (marked: seq<Alert>)
    ensures |marked| == |log|
  {
    seq(|log|, i requires 0 <= i < |log| =>
      if log[i].id in ids then log[i].(published := true) else log[i])
  }

  function Ids(alerts: seq<Alert>): set<AlertId> {
    set i | 0 <= i < |alerts| :: alerts[i].id
  }

  /** The alerts whose publication succeeds, or does not, when exactly the IDs in failing fail. */
  function Select(alerts: seq<Alert>, failing: set<AlertId>, fails: bool): seq<Alert> {
    if alerts == [] then []
    else
      var before := Select(alerts[..|alerts| - 1], failing, fails);
      if (alerts[|alerts| - 1].id in failing) == fails then before + [alerts[|alerts| - 1]] else before
  }

  lemma {:induction false} SelectConcat(xs: seq<Alert>, ys: seq<Alert>, failing: set<AlertId>, fails: bool)
    ensures Select(xs + ys, failing, fails) == Select(xs, failing, fails) + Select(ys, failing, fails)
  {
    if ys == [] {
      assert xs + ys == xs;
    } else {
      assert (xs + ys)[..|xs + ys| - 1] == xs + ys[..|ys| - 1];
      SelectConcat(xs, ys[..|ys| - 1], failing, fails);
    }
  }

  lemma {:induction false} SelectPartitions(alerts: seq<Alert>, failing: set<AlertId>)
    ensures |Select(alerts, failing, true)| + |Select(alerts, failing, false)| == |alerts|
    ensures forall a :: a in Select(alerts, failing, true) ==> a in alerts && a.id in failing
    ensures forall a :: a in Select(alerts, failing, false) ==> a in alerts && a.id !in failing
    ensures forall a :: a in alerts && a.id !in failing ==> a in Select(alerts, failing, false)
  {
    if alerts != [] {
      SelectPartitions(alerts[..|alerts| - 1], failing);
    }
  }

  lemma {:induction false} PendingAreLogged(log: seq<Alert>)
    ensures forall a :: a in Pending(log) ==> a in log && !a.published
    ensures forall a :: a in log && !a.published ==> a in Pending(log)
  {
    if log != [] {
      PendingAreLogged(log[..|log| - 1]);
    }
  }

  /** Alerts with one of the given IDs leave the outbox, the rest stay in order. */
  function Dropped(alerts: seq<Alert>, ids: set<AlertId>): seq<Alert> {
    if alerts == [] then []
    else
      var before := Dropped(alerts[..|alerts| - 1], ids);
      if alerts[|alerts| - 1].id in ids then before else before + [alerts[|alerts| - 1]]
  }

  lemma {:induction false} MarkingDropsPending(log: seq<Alert>, ids: set<AlertId>)
    ensures Pending(Marked(log, ids)) == Dropped(Pending(log), ids)
  {
    if log != [] {
      var n := |log| - 1;
      MarkingDropsPending(log[..n], ids);
      assert Marked(log, ids)[..n] == Marked(log[..n], ids);
      var rest := Pending(log[..n]);
      if !log[n].published {
        assert (rest + [log[n]])[..|rest|] == rest;
      }
    }
  }

  lemma {:induction false} DropConcat(xs: seq<Alert>, ys: seq<Alert>, ids: set<AlertId>)
    ensures Dropped(xs + ys, ids) == Dropped(xs, ids) + Dropped(ys, ids)
  {
    if ys == [] {
      assert xs + ys == xs;
    } else {
      assert (xs + ys)[..|xs + ys| - 1] == xs + ys[..|ys| - 1];
      DropConcat(xs, ys[..|ys| - 1], ids);
    }
  }
}
