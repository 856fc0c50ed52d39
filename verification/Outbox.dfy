/** The publisher's inner drain loop (internal/service/service.go) over the in-memory outbox. */
module Outbox {
  import opened Model
  import opened AlertLog
  import opened MemoryStore

  const CLAIM: int := 100

  function Claim(log: seq<Alert>): seq<Alert> {
    Cap(Pending(log), CLAIM)
  }

  predicate DistinctIds(alerts: seq<Alert>) {
    forall i, j :: 0 <= i < j < |alerts| ==> alerts[i].id != alerts[j].id
  }

  lemma {:induction false} PendingIdsAreDistinct(log: seq<Alert>)
    requires DistinctIds(log)
    ensures DistinctIds(Pending(log))
  {
    if log != [] {
      var n := |log| - 1;
      PendingIdsAreDistinct(log[..n]);
      PendingAreLogged(log[..n]);
      forall i | 0 <= i < |Pending(log[..n])|
        ensures Pending(log[..n])[i].id != log[n].id
      {
        assert Pending(log[..n])[i] in log[..n];
      }
    }
  }

  lemma MarkingComposes(log: seq<Alert>, xs: set<AlertId>, ys: set<AlertId>)
    ensures Marked(Marked(log, xs), ys) == Marked(log, xs + ys)
    ensures Dense(log) ==> Dense(Marked(log, xs))
  {
  }

  lemma IdsConcat(xs: seq<Alert>, ys: seq<Alert>)
    ensures Ids(xs + ys) == Ids(xs) + Ids(ys)
  {
    var all := xs + ys;
    forall id | id in Ids(xs) ensures id in Ids(all) {
      var i :| 0 <= i < |xs| && xs[i].id == id;
      assert all[i].id == id;
    }
    forall id | id in Ids(ys) ensures id in Ids(all) {
      var i :| 0 <= i < |ys| && ys[i].id == id;
      assert all[|xs| + i].id == id;
    }
  }

  lemma {:induction false} SelectIsStable(alerts: seq<Alert>, failing: set<AlertId>, fails: bool)
    ensures Select(Select(alerts, failing, fails), failing, fails) == Select(alerts, failing, fails)
    ensures Select(Select(alerts, failing, fails), failing, !fails) == []
  {
    if alerts != [] {
      var n := |alerts| - 1;
      SelectIsStable(alerts[..n], failing, fails);
      var before := Select(alerts[..n], failing, fails);
      assert (before + [alerts[n]])[..|before|] == before;
    }
  }

  /** Dropping the published alerts of a claim leaves the failing ones. */
  lemma {:induction false} DroppingTheSent(claim: seq<Alert>, failing: set<AlertId>, sent: set<AlertId>)
    requires forall i :: 0 <= i < |claim| ==> (claim[i].id in sent <==> claim[i].id !in failing)
    ensures Dropped(claim, sent) == Select(claim, failing, true)
  {
    if claim != [] {
      DroppingTheSent(claim[..|claim| - 1], failing, sent);
    }
  }

  lemma {:induction false} DroppingOthers(alerts: seq<Alert>, ids: set<AlertId>)
    requires forall i :: 0 <= i < |alerts| ==> alerts[i].id !in ids
    ensures Dropped(alerts, ids) == alerts
  {
    if alerts != [] {
      DroppingOthers(alerts[..|alerts| - 1], ids);
    }
  }

  /** One pass of the drain loop: publish what was claimed, mark what succeeded. */
  function Pass(log: seq<Alert>, failing: set<AlertId>): seq<Alert> {
    Marked(log, Ids(Select(Claim(log), failing, false)))
  }

  /** The pending alerts that will, or will not, be published. */
  function Waiting(log: seq<Alert>, failing: set<AlertId>, fails: bool): seq<Alert> {
    Select(Pending(log), failing, fails)
  }

  lemma SentAreTheHealthy(claim: seq<Alert>, failing: set<AlertId>, i: nat)
    requires i < |claim|
    ensures claim[i].id in Ids(Select(claim, failing, false)) <==> claim[i].id !in failing
  {
    var sent := Select(claim, failing, false);
    SelectPartitions(claim, failing);
    assert claim[i] in claim;
    if claim[i].id !in failing {
      var j :| 0 <= j < |sent| && sent[j] == claim[i];
      assert sent[j].id == claim[i].id;
    }
    if claim[i].id in Ids(sent) {
      var j :| 0 <= j < |sent| && sent[j].id == claim[i].id;
      assert sent[j] in sent;
    }
  }

  lemma LaterAreNotSent(pending: seq<Alert>, n: nat, failing: set<AlertId>, i: nat)
    requires DistinctIds(pending) && n <= i < |pending|
    ensures pending[i].id !in Ids(Select(pending[..n], failing, false))
  {
    var sent := Select(pending[..n], failing, false);
    SelectPartitions(pending[..n], failing);
    forall j | 0 <= j < |sent|
      ensures sent[j].id != pending[i].id
    {
      assert sent[j] in sent;
      var k :| 0 <= k < n && pending[..n][k] == sent[j];
      assert pending[k].id == sent[j].id;
    }
  }

  /** After a pass the failing part of the claim and everything behind the claim are pending. */
  lemma PassLeavesPending(log: seq<Alert>, failing: set<AlertId>)
    requires Dense(log)
    ensures Pending(Pass(log, failing)) == Select(Claim(log), failing, true) + Pending(log)[|Claim(log)|..]
  {
    var pending, claim := Pending(log), Claim(log);
    var rest := pending[|claim|..];
    var ids := Ids(Select(claim, failing, false));
    PendingIdsAreDistinct(log);
    forall i | 0 <= i < |claim|
      ensures claim[i].id in ids <==> claim[i].id !in failing
    {
      SentAreTheHealthy(claim, failing, i);
    }
    assert pending[..|claim|] == claim;
    forall i | 0 <= i < |rest|
      ensures rest[i].id !in ids
    {
      LaterAreNotSent(pending, |claim|, failing, |claim| + i);
    }
    MarkingDropsPending(log, ids);
    assert pending == claim + rest;
    DropConcat(claim, rest, ids);
    DroppingTheSent(claim, failing, ids);
    DroppingOthers(rest, ids);
  }

  lemma KeepingTheFailing(claim: seq<Alert>, rest: seq<Alert>, failing: set<AlertId>)
    ensures var next := Select(claim, failing, true) + rest;
            && Select(next, failing, true) == Select(claim + rest, failing, true)
            && Select(claim, failing, false) + Select(next, failing, false) == Select(claim + rest, failing, false)
  {
    var kept := Select(claim, failing, true);
    SelectConcat(claim, rest, failing, false);
    SelectConcat(claim, rest, failing, true);
    SelectConcat(kept, rest, failing, false);
    SelectConcat(kept, rest, failing, true);
    SelectIsStable(claim, failing, true);
    assert Select(kept, failing, false) == [];
    assert [] + Select(rest, failing, false) == Select(rest, failing, false);
  }

  /** A pass publishes the first waiting alerts in cursor order and keeps every failing one waiting. */
  lemma PassAdvances(log: seq<Alert>, failing: set<AlertId>)
    requires Dense(log)
    ensures Dense(Pass(log, failing))
    ensures Waiting(log, failing, false)
            == Select(Claim(log), failing, false) + Waiting(Pass(log, failing), failing, false)
    ensures Waiting(Pass(log, failing), failing, true) == Waiting(log, failing, true)
  {
    PassLeavesPending(log, failing);
    MarkingComposes(log, Ids(Select(Claim(log), failing, false)), {});
    KeepingTheFailing(Claim(log), Pending(log)[|Claim(log)|..], failing);
    assert Pending(log) == Claim(log) + Pending(log)[|Claim(log)|..];
  }

  lemma {:induction false} SelectOfPrefix(alerts: seq<Alert>, n: nat, failing: set<AlertId>, fails: bool)
    requires n <= |alerts|
    ensures |Select(alerts[..n], failing, fails)| <= |Select(alerts, failing, fails)|
  {
    assert alerts == alerts[..n] + alerts[n..];
    SelectConcat(alerts[..n], alerts[n..], failing, fails);
  }

  /** A full claim with fewer failing alerts than its size publishes something. */
  lemma FullPassesProgress(log: seq<Alert>, failing: set<AlertId>)
    requires |Waiting(log, failing, true)| < CLAIM <= |Claim(log)|
    ensures |Select(Claim(log), failing, false)| > 0
  {
    SelectPartitions(Claim(log), failing);
    SelectOfPrefix(Pending(log), |Claim(log)|, failing, true);
  }

  /** What was published so far, and what still waits, make up what waited at the start. */
  ghost predicate Ledger(log: seq<Alert>, published: seq<Alert>, now: seq<Alert>, failing: set<AlertId>) {
    && Dense(now) && now == Marked(log, Ids(published))
    && Waiting(log, failing, false) == published + Waiting(now, failing, false)
    && Waiting(now, failing, true) == Waiting(log, failing, true)
  }

  lemma {:induction false} LedgerAdvances(log: seq<Alert>, published: seq<Alert>, now: seq<Alert>, failing: set<AlertId>)
    requires Ledger(log, published, now, failing) && |Waiting(log, failing, true)| < CLAIM
    ensures Ledger(log, published + Select(Claim(now), failing, false), Pass(now, failing), failing)
    ensures |Claim(now)| == CLAIM ==> |Waiting(Pass(now, failing), failing, false)| < |Waiting(now, failing, false)|
    ensures |Claim(now)| < CLAIM ==> Waiting(Pass(now, failing), failing, false) == []
  {
    var sent, next := Select(Claim(now), failing, false), Pass(now, failing);
    PassAdvances(now, failing);
    MarkingComposes(log, Ids(published), Ids(sent));
    IdsConcat(published, sent);
    assert published + (sent + Waiting(next, failing, false)) == (published + sent) + Waiting(next, failing, false);
    if |Claim(now)| == CLAIM {
      FullPassesProgress(now, failing);
    } else if |Claim(now)| < CLAIM {
      ClaimIsAll(now, failing);
    }
  }

  /**
   The drain loop with a publisher that fails exactly on the given alerts: it publishes every other
   pending alert once, in cursor order, and marks exactly those.
   */
  method Drain(memory: Memory, failing: set<AlertId>) returns (published: seq<Alert>)
    requires Dense(memory.alerts) && |Waiting(memory.alerts, failing, true)| < CLAIM
    modifies memory`alerts
    ensures published == old(Waiting(memory.alerts, failing, false))
    ensures memory.alerts == Marked(old(memory.alerts), Ids(published))
    ensures Waiting(memory.alerts, failing, false) == []
  {
    ghost var log := memory.alerts;
    published := [];
    assert Marked(log, Ids([])) == log;
    while true
      modifies memory`alerts
      invariant Ledger(log, published, memory.alerts, failing)
      decreases |Waiting(memory.alerts, failing, false)|
    {
      var events := memory.ClaimPending(CLAIM);
      if |events| == 0 {
        break;
      }
      LedgerAdvances(log, published, memory.alerts, failing);
      var sent := PublishAll(memory, events, failing);
      published := published + sent;
      if |events| < CLAIM {
        break;
      }
    }
  }

  lemma ClaimIsAll(log: seq<Alert>, failing: set<AlertId>)
    requires Dense(log) && |Claim(log)| < CLAIM
    ensures Waiting(Pass(log, failing), failing, false) == []
  {
    PassAdvances(log, failing);
  }

  /** Publishes the claimed events in order and marks the ones that succeeded. */
  method PublishAll(memory: Memory, events: seq<Alert>, failing: set<AlertId>) returns (sent: seq<Alert>)
    requires Dense(memory.alerts)
    modifies memory`alerts
    ensures sent == Select(events, failing, false)
    ensures memory.alerts == Marked(old(memory.alerts), Ids(sent))
  {
    ghost var log := memory.alerts;
    sent := [];
    assert Marked(log, Ids([])) == log;
    for i := 0 to |events|
      modifies memory`alerts
      invariant Dense(memory.alerts)
      invariant sent == Select(events[..i], failing, false) && memory.alerts == Marked(log, Ids(sent))
    {
      assert events[..i + 1][..i] == events[..i];
      if events[i].id !in failing {
        var _ := memory.MarkPublished(events[i].id);
        MarkingComposes(log, Ids(sent), {events[i].id});
        IdsConcat(sent, [events[i]]);
        assert Ids([events[i]]) == {events[i].id} by {
          assert [events[i]][0].id == events[i].id;
        }
        sent := sent + [events[i]];
      }
    }
    assert events[..|events|] == events;
  }

  // ----- Exactly when the loop ends -----

  function Passes(log: seq<Alert>, failing: set<AlertId>, n: nat): seq<Alert> {
    if n == 0 then log else Pass(Passes(log, failing, n - 1), failing)
  }

  lemma {:induction false} PassesKeepFailing(log: seq<Alert>, failing: set<AlertId>, n: nat)
    requires Dense(log)
    ensures Dense(Passes(log, failing, n))
    ensures Waiting(Passes(log, failing, n), failing, true) == Waiting(log, failing, true)
  {
    if n > 0 {
      PassesKeepFailing(log, failing, n - 1);
      PassAdvances(Passes(log, failing, n - 1), failing);
    }
  }

  lemma {:induction false} PassesDrain(log: seq<Alert>, failing: set<AlertId>, n: nat)
    requires Dense(log) && |Waiting(log, failing, true)| < CLAIM
    requires forall k :: 0 <= k <= n ==> |Claim(Passes(log, failing, k))| == CLAIM
    ensures |Waiting(Passes(log, failing, n), failing, false)| + n <= |Waiting(log, failing, false)|
  {
    if n > 0 {
      PassesDrain(log, failing, n - 1);
      PassesKeepFailing(log, failing, n - 1);
      var before := Passes(log, failing, n - 1);
      assert |Claim(before)| == CLAIM;
      FullPassesProgress(before, failing);
      PassAdvances(before, failing);
    }
  }

  /**
   Against a publisher that keeps failing on the same alerts the loop over the in-memory outbox reaches
   a short claim, and so ends, exactly when fewer pending alerts fail than one claim holds.
   */
  lemma DrainEndsExactly(log: seq<Alert>, failing: set<AlertId>)
    requires Dense(log)
    ensures (exists n: nat :: |Claim(Passes(log, failing, n))| < 100) <==> |Waiting(log, failing, true)| < 100
  {
    if |Waiting(log, failing, true)| < CLAIM {
      var n := |Waiting(log, failing, false)| + 1;
      if forall k: nat :: k <= n ==> |Claim(Passes(log, failing, k))| == CLAIM {
        PassesDrain(log, failing, n);
      } else {
        var k: nat :| k <= n && |Claim(Passes(log, failing, k))| != CLAIM;
        assert |Claim(Passes(log, failing, k))| < CLAIM;
      }
    } else {
      forall n: nat
        ensures |Claim(Passes(log, failing, n))| == CLAIM
      {
        PassesKeepFailing(log, failing, n);
        SelectPartitions(Pending(Passes(log, failing, n)), failing);
      }
    }
  }
}
