/**
 What identifies an alert: over whole deployments two alerts have one ID exactly when they are of one
 definition and one source event, so the log leaves out nothing but repetitions.
 */
module Identity {
  import opened Model
  import opened Keys
  import opened Rules
  import opened Routing
  import opened SeriesMachine
  import opened AlertLog
  import opened PartitionCells
  import opened BatchBoundaries
  import opened DefinitionView
  import opened Sharding

  /** The alert is of the definition and of the source event, and its ID says just that. */
  predicate IsOf(alert: Alert, definitionId: string, sourceEventId: string) {
    && alert.definitionId == definitionId && alert.sourceEventId == sourceEventId
    && alert.id.definitionId == definitionId && alert.id.sourceEventId == sourceEventId
  }

  predicate SameOccasion(a: Alert, b: Alert) {
    a.definitionId == b.definitionId && a.sourceEventId == b.sourceEventId
  }

  predicate Occasions(alerts: seq<Alert>) {
    forall i, j :: 0 <= i < j < |alerts| ==> !SameOccasion(alerts[i], alerts[j])
  }

  // ----- One observation -----

  predicate OfSome(alert: Alert, cs: seq<Compiled>, o: Observation) {
    alert.series == o.series && exists i :: 0 <= i < |cs| && IsOf(alert, cs[i].definition.id, o.sourceEventId)
  }

  predicate AllOfSome(alerts: seq<Alert>, cs: seq<Compiled>, o: Observation) {
    forall k :: 0 <= k < |alerts| ==> OfSome(alerts[k], cs, o)
  }

  /** The definition of the first ID comes before that of the second. */
  predicate Precedes(cs: seq<Compiled>, first: string, second: string) {
    exists j :: 0 <= j < |cs| && cs[j].definition.id == second && Has(cs[..j], first)
  }

  predicate Has(cs: seq<Compiled>, id: string) {
    exists i :: 0 <= i < |cs| && cs[i].definition.id == id
  }

  /** The alerts follow the order of their definitions. */
  predicate InOrder(alerts: seq<Alert>, cs: seq<Compiled>) {
    forall k, l :: 0 <= k < l < |alerts| ==> Precedes(cs, alerts[k].definitionId, alerts[l].definitionId)
  }

  lemma PrecedesInMore(cs: seq<Compiled>, n: nat, first: string, second: string)
    requires n <= |cs| && Precedes(cs[..n], first, second)
    ensures Precedes(cs, first, second)
  {
    var j :| 0 <= j < n && cs[..n][j].definition.id == second && Has(cs[..n][..j], first);
    assert cs[..n][..j] == cs[..j] && cs[j] == cs[..n][j];
  }

  lemma {:induction false} OrderSnoc(cs: seq<Compiled>, o: Observation, before: seq<Alert>, more: seq<Alert>)
    requires cs != [] && AllOfSome(before, cs[..|cs| - 1], o) && InOrder(before, cs[..|cs| - 1])
    requires more != [] ==> |more| == 1 && more[0].definitionId == cs[|cs| - 1].definition.id
    ensures InOrder(before + more, cs)
  {
    var n, all := |cs| - 1, before + more;
    forall k, l | 0 <= k < l < |all| ensures Precedes(cs, all[k].definitionId, all[l].definitionId) {
      if l < |before| {
        PrecedesInMore(cs, n, before[k].definitionId, before[l].definitionId);
      } else {
        assert OfSome(before[k], cs[..n], o);
        assert Has(cs[..n], all[k].definitionId) && cs[n].definition.id == all[l].definitionId;
      }
    }
  }

  /** The alert of one more definition, whose ID no earlier definition has. */
  lemma {:induction false} OneMoreDefinition(cs: seq<Compiled>, o: Observation, before: seq<Alert>, more: seq<Alert>)
    requires cs != [] && AllOfSome(before, cs[..|cs| - 1], o)
    requires more != [] ==> |more| == 1 && more[0].series == o.series && IsOf(more[0], cs[|cs| - 1].definition.id, o.sourceEventId)
    ensures AllOfSome(before + more, cs, o)
    ensures UniqueIds(cs) && Occasions(before) ==> Occasions(before + more)
  {
    var n := |cs| - 1;
    forall k | 0 <= k < |before|
      ensures OfSome(before[k], cs, o) && (UniqueIds(cs) ==> before[k].definitionId != cs[n].definition.id)
    {
      assert OfSome(before[k], cs[..n], o);
      var i :| 0 <= i < n && IsOf(before[k], cs[..n][i].definition.id, o.sourceEventId);
      assert cs[..n][i] == cs[i];
    }
  }

  lemma {:induction false} EvaluationIdentifies(cs: seq<Compiled>, o: Observation, f: Feature, base: map<string, DefinitionState>,
                                                overlay: map<string, DefinitionState>)
    ensures AllOfSome(EvaluateDefinitions(cs, o, f, base, overlay).alerts, cs, o)
    ensures UniqueIds(cs) ==> Occasions(EvaluateDefinitions(cs, o, f, base, overlay).alerts)
    ensures InOrder(EvaluateDefinitions(cs, o, f, base, overlay).alerts, cs)
  {
    if cs != [] {
      var n := |cs| - 1;
      EvaluationIdentifies(cs[..n], o, f, base, overlay);
      var before := EvaluateDefinitions(cs[..n], o, f, base, overlay);
      var more := EvaluateDefinition(cs[n], o, f, base, before.definitions).alerts;
      OneMoreDefinition(cs, o, before.alerts, more);
      OrderSnoc(cs, o, before.alerts, more);
    }
  }

  /** The definitions an observation can meet. */
  function DefinitionsOn(p: Policy, o: Observation): seq<Compiled> {
    DefinitionsFor(p.routes, o.series)
  }

  /** The alerts of one input are of its definitions, in their order, at most one of each, and of its source event. */
  lemma {:induction false} StepIdentifies(p: Policy, m: Machine, o: Observation)
    ensures AllOfSome(Step(p, m, Input(o)).alerts, DefinitionsOn(p, o), o)
    ensures UniqueIds(DefinitionsOn(p, o)) ==> Occasions(Step(p, m, Input(o)).alerts)
    ensures InOrder(Step(p, m, Input(o)).alerts, DefinitionsOn(p, o))
  {
    if Accepts(p, m, o) && !o.reset {
      var seen := WithZones(o, Now(p, m));
      EvaluationIdentifies(DefinitionsOn(p, o), seen, FeatureFor(p.clone, seen, Now(p, m)), Base(m.cell, m.work), m.work.definitions);
    }
  }

  // ----- One batch -----

  /** The alert is of an observation of the stream and of a definition that observation meets. */
  predicate Traced(alert: Alert, p: Policy, stream: seq<Observation>) {
    exists n :: 0 <= n < |stream| && OfSome(alert, DefinitionsOn(p, stream[n]), stream[n])
  }

  predicate AllTraced(alerts: seq<Alert>, p: Policy, stream: seq<Observation>) {
    forall k :: 0 <= k < |alerts| ==> Traced(alerts[k], p, stream)
  }

  /** Every source event is delivered once. */
  predicate Once(stream: seq<Observation>) {
    forall i, j :: 0 <= i < j < |stream| ==> stream[i].sourceEventId != stream[j].sourceEventId
  }

  ghost predicate UniqueDefinitions(p: Policy, stream: seq<Observation>) {
    forall i :: 0 <= i < |stream| ==> UniqueIds(DefinitionsOn(p, stream[i]))
  }

  lemma TracedInMore(alert: Alert, p: Policy, xs: seq<Observation>, ys: seq<Observation>)
    ensures Traced(alert, p, xs) || Traced(alert, p, ys) ==> Traced(alert, p, xs + ys)
  {
    if Traced(alert, p, xs) {
      var n :| 0 <= n < |xs| && OfSome(alert, DefinitionsOn(p, xs[n]), xs[n]);
      assert (xs + ys)[n] == xs[n];
    } else if Traced(alert, p, ys) {
      var n :| 0 <= n < |ys| && OfSome(alert, DefinitionsOn(p, ys[n]), ys[n]);
      assert (xs + ys)[|xs| + n] == ys[n];
    }
  }

  /** Alerts of two stretches of a stream that delivers every source event once. */
  lemma {:induction false} TracesConcat(p: Policy, xs: seq<Observation>, ys: seq<Observation>, before: seq<Alert>, more: seq<Alert>)
    requires AllTraced(before, p, xs) && AllTraced(more, p, ys)
    ensures AllTraced(before + more, p, xs + ys)
    ensures Once(xs + ys) && Occasions(before) && Occasions(more) ==> Occasions(before + more)
  {
    var all := before + more;
    forall k | 0 <= k < |all| ensures Traced(all[k], p, xs + ys) {
      TracedInMore(all[k], p, xs, ys);
    }
    if Once(xs + ys) && Occasions(before) && Occasions(more) {
      forall i, j | 0 <= i < |before| && 0 <= j < |more| ensures !SameOccasion(before[i], more[j]) {
        EventsApart(p, xs, ys, before[i], more[j]);
      }
      assert forall i :: 0 <= i < |before| ==> all[i] == before[i];
      assert forall i :: |before| <= i < |all| ==> all[i] == more[i - |before|];
    }
  }

  lemma EventsApart(p: Policy, xs: seq<Observation>, ys: seq<Observation>, a: Alert, b: Alert)
    requires Once(xs + ys) && Traced(a, p, xs) && Traced(b, p, ys)
    ensures a.sourceEventId != b.sourceEventId
  {
    var n :| 0 <= n < |xs| && OfSome(a, DefinitionsOn(p, xs[n]), xs[n]);
    var k :| 0 <= k < |ys| && OfSome(b, DefinitionsOn(p, ys[k]), ys[k]);
    assert (xs + ys)[n] == xs[n] && (xs + ys)[|xs| + k] == ys[k];
  }

  lemma OnceInParts(xs: seq<Observation>, ys: seq<Observation>)
    requires Once(xs + ys)
    ensures Once(xs) && Once(ys)
  {
    assert forall i :: 0 <= i < |xs| ==> (xs + ys)[i] == xs[i];
    assert forall i :: 0 <= i < |ys| ==> (xs + ys)[|xs| + i] == ys[i];
  }

  lemma UniqueInParts(p: Policy, xs: seq<Observation>, ys: seq<Observation>)
    requires UniqueDefinitions(p, xs + ys)
    ensures UniqueDefinitions(p, xs) && UniqueDefinitions(p, ys)
  {
    assert forall i :: 0 <= i < |xs| ==> (xs + ys)[i] == xs[i];
    assert forall i :: 0 <= i < |ys| ==> (xs + ys)[|xs| + i] == ys[i];
  }

  lemma {:induction false} StepTraces(p: Policy, m: Machine, o: Observation)
    ensures AllTraced(Step(p, m, Input(o)).alerts, p, [o])
    ensures UniqueDefinitions(p, [o]) ==> Occasions(Step(p, m, Input(o)).alerts)
  {
    StepIdentifies(p, m, o);
    var alerts, stream := Step(p, m, Input(o)).alerts, [o];
    forall k | 0 <= k < |alerts| ensures Traced(alerts[k], p, stream) {
      assert OfSome(alerts[k], DefinitionsOn(p, stream[0]), stream[0]);
    }
    assert UniqueDefinitions(p, stream) ==> UniqueIds(DefinitionsOn(p, stream[0]));
  }

  lemma {:induction false} BatchTraces(p: Policy, cells: Cells, observations: seq<Observation>)
    ensures AllTraced(Emitted(p, cells, observations), p, observations)
    ensures Once(observations) && UniqueDefinitions(p, observations) ==> Occasions(Emitted(p, cells, observations))
  {
    if observations != [] {
      var front, last := observations[..|observations| - 1], observations[|observations| - 1];
      assert observations == front + [last];
      BatchTraces(p, cells, front);
      EmittedSnoc(p, cells, observations);
      var reached := Reached(p, cells, last.series.Key(), front);
      StepTraces(p, reached, last);
      TracesConcat(p, front, [last], Emitted(p, cells, front), Step(p, reached, Input(last)).alerts);
      if Once(observations) && UniqueDefinitions(p, observations) {
        OnceInParts(front, [last]);
        UniqueInParts(p, front, [last]);
      }
    }
  }

  // ----- Whole deployments -----

  lemma {:induction false} DeploymentTraces(layout: Layout, p: Policy, batches: seq<Batch>, d: Deployment)
    requires Reaches(layout, p, batches, d)
    ensures AllTraced(d.offered, p, Stream(batches))
    ensures Once(Stream(batches)) && UniqueDefinitions(p, Stream(batches)) ==> Occasions(d.offered)
  {
    if batches != [] {
      var front, last := batches[..|batches| - 1], batches[|batches| - 1];
      var before := Before(layout, p, batches, d);
      DeploymentTraces(layout, p, front, before);
      BatchTraces(p, before.partitions[last.partition], last.observations);
      TracesConcat(p, Stream(front), last.observations, before.offered, Emitted(p, before.partitions[last.partition], last.observations));
      if Once(Stream(batches)) && UniqueDefinitions(p, Stream(batches)) {
        OnceInParts(Stream(front), last.observations);
        UniqueInParts(p, Stream(front), last.observations);
      }
    }
  }

  /**
   Two alerts a deployment offers have one ID exactly when they are of one definition and one source
   event; each is of an observation of the stream and of a definition that applies to its series.
   */
  lemma {:induction false} IdsTellOccasions(layout: Layout, p: Policy, batches: seq<Batch>, d: Deployment)
    requires Reaches(layout, p, batches, d)
    ensures forall i, j :: 0 <= i < |d.offered| && 0 <= j < |d.offered| ==>
                             (d.offered[i].id == d.offered[j].id <==> SameOccasion(d.offered[i], d.offered[j]))
    ensures AllTraced(d.offered, p, Stream(batches))
  {
    DeploymentTraces(layout, p, batches, d);
    forall i | 0 <= i < |d.offered|
      ensures IsOf(d.offered[i], d.offered[i].definitionId, d.offered[i].sourceEventId)
    {
      OwnId(d.offered[i], p, Stream(batches));
    }
  }

  lemma OwnId(alert: Alert, p: Policy, stream: seq<Observation>)
    requires Traced(alert, p, stream)
    ensures IsOf(alert, alert.definitionId, alert.sourceEventId)
  {
  }

  /** The first offer of every occasion. */
  function FirstOffers(offered: seq<Alert>): seq<Alert> {
    if offered == [] then []
    else
      var front, last := offered[..|offered| - 1], offered[|offered| - 1];
      if exists i :: 0 <= i < |front| && SameOccasion(front[i], last) then FirstOffers(front) else FirstOffers(front) + [last]
  }

  predicate Numbered(log: seq<Alert>, alerts: seq<Alert>) {
    |log| == |alerts| && forall k :: 0 <= k < |log| ==> log[k] == alerts[k].(cursor := k + 1)
  }

  predicate OwnIds(alerts: seq<Alert>) {
    forall i :: 0 <= i < |alerts| ==> IsOf(alerts[i], alerts[i].definitionId, alerts[i].sourceEventId)
  }

  lemma {:induction false} AppendingNumbers(offered: seq<Alert>)
    requires OwnIds(offered)
    ensures Numbered(Appended([], offered), FirstOffers(offered))
  {
    if offered != [] {
      var front, last := offered[..|offered| - 1], offered[|offered| - 1];
      assert offered == front + [last];
      AppendingNumbers(front);
      AppendingKeepsDense([], front);
      assert Contains(Appended([], front), last.id) <==> Contains(front, last.id);
      if Contains(front, last.id) {
        var i :| 0 <= i < |front| && front[i].id == last.id;
        assert IsOf(offered[i], offered[i].definitionId, offered[i].sourceEventId);
        assert SameOccasion(front[i], last);
      } else if exists i :: 0 <= i < |front| && SameOccasion(front[i], last) {
        var i :| 0 <= i < |front| && SameOccasion(front[i], last);
        assert IsOf(offered[i], offered[i].definitionId, offered[i].sourceEventId);
        assert front[i].id == last.id;
      }
    }
  }

  /** The log of any deployment is the first offers of all occasions, in order, numbered from one. */
  lemma {:induction false} LogKeepsFirstOffers(layout: Layout, p: Policy, batches: seq<Batch>, d: Deployment)
    requires Reaches(layout, p, batches, d)
    ensures Numbered(d.Log(), FirstOffers(d.offered))
  {
    DeploymentTraces(layout, p, batches, d);
    forall i | 0 <= i < |d.offered|
      ensures IsOf(d.offered[i], d.offered[i].definitionId, d.offered[i].sourceEventId)
    {
      OwnId(d.offered[i], p, Stream(batches));
    }
    AppendingNumbers(d.offered);
  }

  lemma {:induction false} AllAreFirst(offered: seq<Alert>)
    requires Occasions(offered)
    ensures FirstOffers(offered) == offered
  {
    if offered != [] {
      var front, last := offered[..|offered| - 1], offered[|offered| - 1];
      assert offered == front + [last];
      AllAreFirst(front);
    }
  }

  /** Where every source event is delivered once and definitions are unique, the log has every alert ever offered. */
  lemma {:induction false} NothingIsSuppressed(layout: Layout, p: Policy, batches: seq<Batch>, d: Deployment)
    requires Reaches(layout, p, batches, d)
    requires Once(Stream(batches)) && UniqueDefinitions(p, Stream(batches))
    ensures |d.Log()| == |d.offered|
    ensures forall k :: 0 <= k < |d.offered| ==> d.Log()[k] == d.offered[k].(cursor := k + 1)
  {
    DeploymentTraces(layout, p, batches, d);
    LogKeepsFirstOffers(layout, p, batches, d);
    AllAreFirst(d.offered);
  }

  // ----- Logs of different deployments -----

  /** A source event is of one series. */
  predicate EventsOwnSeries(stream: seq<Observation>) {
    forall i, j :: 0 <= i < |stream| && 0 <= j < |stream| && stream[i].sourceEventId == stream[j].sourceEventId
                   ==> stream[i].series.Key() == stream[j].series.Key()
  }

  lemma {:induction false} IdsFollowEvents(alerts: seq<Alert>, p: Policy, stream: seq<Observation>)
    requires AllTraced(alerts, p, stream) && EventsOwnSeries(stream)
    ensures IdsOwnSeries(alerts)
  {
    forall i, j | 0 <= i < |alerts| && 0 <= j < |alerts| && alerts[i].id == alerts[j].id
      ensures alerts[i].series.Key() == alerts[j].series.Key()
    {
      assert Traced(alerts[i], p, stream) && Traced(alerts[j], p, stream);
      var n :| 0 <= n < |stream| && OfSome(alerts[i], DefinitionsOn(p, stream[n]), stream[n]);
      var k :| 0 <= k < |stream| && OfSome(alerts[j], DefinitionsOn(p, stream[k]), stream[k]);
    }
  }

  /** Where source events are of one series each, sharding keeps every series' share of the log. */
  lemma {:induction false} ShardingKeepsTheSharesOfTheLog(a: Layout, b: Layout, p: Policy, series: Series,
                                                          xs: seq<Batch>, ys: seq<Batch>, da: Deployment, db: Deployment)
    requires Reaches(a, p, xs, da) && Reaches(b, p, ys, db)
    requires SlashFree(series) && CloneSafe(p, series)
    requires ObservationsOf(series.Key(), Stream(xs)) == ObservationsOf(series.Key(), Stream(ys))
    requires ResetClean(p, series.Key(), xs) && ResetClean(p, series.Key(), ys)
    requires EventsOwnSeries(Stream(xs)) && EventsOwnSeries(Stream(ys))
    ensures Uncursored(OfSeries(da.Log(), series.Key())) == Uncursored(OfSeries(db.Log(), series.Key()))
  {
    DeploymentTraces(a, p, xs, da);
    DeploymentTraces(b, p, ys, db);
    IdsFollowEvents(da.offered, p, Stream(xs));
    IdsFollowEvents(db.offered, p, Stream(ys));
    ShardingKeepsTheLog(a, b, p, series, xs, ys, da, db);
  }
}
