/** An authoritative reset is a clean replay of its history. */
module ResetReplay {
  import opened Model
  import opened Rules
  import opened Routing
  import opened SeriesMachine
  import opened BatchBoundaries
  import opened DefinitionView
  import opened Redelivery

  /** A reset emits nothing and leaves nothing of the features it found. */
  lemma ResetForgets(p: Policy, m: Machine, n: Machine, reset: Observation)
    requires reset.reset && Accepts(p, m, reset) && Accepts(p, n, reset)
    ensures Step(p, m, Input(reset)).alerts == []
    ensures Now(p, Step(p, m, Input(reset)).machine) == Now(p, Step(p, n, Input(reset)).machine)
  {
  }

  /** A confirmed close that carries nothing but its bar, whatever its identity and time. */
  predicate PlainBar(o: Observation, bar: Candle, series: Series) {
    && o.series == series && o.status.Confirmed? && !o.reset && o.candle == bar
    && o.indicators == [] && o.activeZones == []
  }

  /** Plain closes for the reset's history bars, in order. */
  predicate FeedOf(feed: seq<Observation>, reset: Observation) {
    && |feed| == |reset.history|
    && forall i :: 0 <= i < |feed| ==> PlainBar(feed[i], reset.history[i], reset.series)
  }

  /** The history bars and the reset's own bar open at strictly increasing nonzero times. */
  predicate IncreasingHistory(reset: Observation) {
    var bars := reset.history + [reset.candle];
    && (forall i :: 0 <= i < |bars| ==> bars[i].openTime != ZERO_TIME)
    && (forall i, j :: 0 <= i < j < |bars| ==> bars[i].openTime < bars[j].openTime)
  }

  function Feed(os: seq<Observation>): seq<Event> {
    if os == [] then [] else Feed(os[..|os| - 1]) + [Input(os[|os| - 1])]
  }

  /** Where the first n plain bars of the history lead. */
  ghost predicate HasReplayed(p: Policy, reset: Observation, m: Machine, n: nat)
    requires n <= |reset.history|
  {
    var s := Now(p, m);
    && Tidy(m) && s.confirmed == Replayed(reset.history[..n]) && s.activeZones == []
    && s.lastOpenTime == (if n == 0 then ZERO_TIME else reset.history[n - 1].openTime)
    && forall i :: 0 <= i < |DefinitionsFor(p.routes, reset.series)| ==>
                     OnlyConfirmedTruth(DefinitionsFor(p.routes, reset.series)[i].definition, reset.series, m)
  }

  lemma {:induction false} FeedReplays(p: Policy, reset: Observation, feed: seq<Observation>, n: nat)
    requires FeedOf(feed, reset) && IncreasingHistory(reset) && n <= |feed|
    requires UniqueIds(DefinitionsFor(p.routes, reset.series))
    ensures HasReplayed(p, reset, Run(p, Start(EMPTY_CELL), Feed(feed[..n])).machine, n)
  {
    if n == 0 {
      assert feed[..0] == [] && reset.history[..0] == [];
    } else {
      FeedReplays(p, reset, feed, n - 1);
      FeedSnoc(p, feed, n);
      FeedIsAhead(reset, n);
      FeedOne(p, reset, feed[n - 1], n, Run(p, Start(EMPTY_CELL), Feed(feed[..n - 1])).machine);
    }
  }

  lemma {:induction false} FeedOne(p: Policy, reset: Observation, o: Observation, n: nat, m: Machine)
    requires 0 < n <= |reset.history| && PlainBar(o, reset.history[n - 1], reset.series)
    requires 1 < n ==> reset.history[n - 2].openTime < reset.history[n - 1].openTime
    requires UniqueIds(DefinitionsFor(p.routes, reset.series)) && HasReplayed(p, reset, m, n - 1)
    ensures HasReplayed(p, reset, Step(p, m, Input(o)).machine, n)
  {
    assert reset.history[..n] == reset.history[..n - 1] + [reset.history[n - 1]];
    AheadIsAccepted(p, m, o);
    FeedStep(p, m, o, reset.history[n - 1], reset.history[..n - 1]);
  }

  lemma {:induction false} AheadIsAccepted(p: Policy, m: Machine, o: Observation)
    requires !o.reset && (Now(p, m).lastOpenTime == ZERO_TIME || Now(p, m).lastOpenTime < o.candle.openTime)
    ensures Accepts(p, m, o)
  {
  }

  lemma {:induction false} FeedSnoc(p: Policy, feed: seq<Observation>, n: nat)
    requires 0 < n <= |feed|
    ensures Run(p, Start(EMPTY_CELL), Feed(feed[..n])).machine
            == Step(p, Run(p, Start(EMPTY_CELL), Feed(feed[..n - 1])).machine, Input(feed[n - 1])).machine
  {
    assert feed[..n][..n - 1] == feed[..n - 1];
    assert Feed(feed[..n]) == Feed(feed[..n - 1]) + [Input(feed[n - 1])];
    RunSnoc(p, Start(EMPTY_CELL), Feed(feed[..n - 1]), Input(feed[n - 1]));
  }

  lemma {:induction false} FeedIsAhead(reset: Observation, n: nat)
    requires IncreasingHistory(reset) && 0 < n <= |reset.history|
    ensures reset.history[n - 1].openTime != ZERO_TIME
    ensures 1 < n ==> reset.history[n - 2].openTime != ZERO_TIME && reset.history[n - 2].openTime < reset.history[n - 1].openTime
  {
    var bars := reset.history + [reset.candle];
    assert bars[n - 1] == reset.history[n - 1];
    if 1 < n { assert bars[n - 2] == reset.history[n - 2]; }
  }

  predicate OnlyConfirmedTruth(d: Definition, series: Series, m: Machine) {
    && !StateOf(m, series, d.id).lastTruthIntrabar
    && (d.evaluationMode.Intrabar? ==> StateOf(m, series, d.id) == EMPTY_DEFINITION)
  }

  lemma {:induction false} FeedStep(p: Policy, m: Machine, o: Observation, bar: Candle, before: seq<Candle>)
    requires Tidy(m) && Accepts(p, m, o) && UniqueIds(DefinitionsFor(p.routes, o.series))
    requires PlainBar(o, bar, o.series) && Now(p, m).confirmed == Replayed(before) && Now(p, m).activeZones == []
    requires forall i :: 0 <= i < |DefinitionsFor(p.routes, o.series)| ==>
                           OnlyConfirmedTruth(DefinitionsFor(p.routes, o.series)[i].definition, o.series, m)
    ensures var next := Step(p, m, Input(o)).machine;
            var s := Now(p, next);
            && Tidy(next) && s.confirmed == Replayed(before + [bar]) && s.activeZones == []
            && s.lastOpenTime == bar.openTime
            && forall i :: 0 <= i < |DefinitionsFor(p.routes, o.series)| ==>
                             OnlyConfirmedTruth(DefinitionsFor(p.routes, o.series)[i].definition, o.series, next)
  {
    FeedFeatures(p, m, o, bar, before);
    forall i | 0 <= i < |DefinitionsFor(p.routes, o.series)|
      ensures OnlyConfirmedTruth(DefinitionsFor(p.routes, o.series)[i].definition, o.series, Step(p, m, Input(o)).machine)
    {
      assert OnlyConfirmedTruth(DefinitionsFor(p.routes, o.series)[i].definition, o.series, m);
      FeedDefinition(p, m, o, i);
    }
  }

  lemma {:induction false} FeedFeatures(p: Policy, m: Machine, o: Observation, bar: Candle, before: seq<Candle>)
    requires Tidy(m) && Accepts(p, m, o)
    requires PlainBar(o, bar, o.series) && Now(p, m).confirmed == Replayed(before) && Now(p, m).activeZones == []
    ensures var next := Step(p, m, Input(o)).machine;
            var s := Now(p, next);
            && Tidy(next) && s.confirmed == Replayed(before + [bar]) && s.activeZones == []
            && s.lastOpenTime == bar.openTime
  {
    InputStaysTidy(p, m, o);
    assert (before + [bar])[..|before|] == before;
    assert Advanced(Replayed(before), o) == Advanced(Replayed(before), BarObservation(bar));
  }

  lemma {:induction false} FeedDefinition(p: Policy, m: Machine, o: Observation, i: nat)
    requires Accepts(p, m, o) && !o.reset && o.status.Confirmed? && UniqueIds(DefinitionsFor(p.routes, o.series))
    requires i < |DefinitionsFor(p.routes, o.series)|
    requires OnlyConfirmedTruth(DefinitionsFor(p.routes, o.series)[i].definition, o.series, m)
    ensures OnlyConfirmedTruth(DefinitionsFor(p.routes, o.series)[i].definition, o.series, Step(p, m, Input(o)).machine)
  {
    InputProjects(p, o.series, m, o, i);
  }

  // ----- Twins -----

  /** Definitions whose triggering does not consult the times of earlier alerts. */
  predicate Memoryless(d: Definition) {
    d.cooldownSeconds <= 0 && !d.triggerMode.OncePerBar?
  }

  /** ... and that a plain evaluation of the reset's frame would have evaluated. */
  predicate Replayable(d: Definition, reset: Observation) {
    Memoryless(d) && (AcceptsMode(d.evaluationMode, Status.Confirmed) ==> EnabledAt(d, reset.occurredAt))
  }

  predicate SameTruths(s: DefinitionState, t: DefinitionState) {
    s.lastTruthConfirmed == t.lastTruthConfirmed && s.lastTruthIntrabar == t.lastTruthIntrabar
  }

  /** Equal but for the reset cursor and the alert times of definitions. */
  ghost predicate Twins(p: Policy, reset: Observation, a: Machine, b: Machine) {
    && Tidy(a) && Tidy(b)
    && Now(p, a).(lastResetId := "", lastResetAt := ZERO_TIME) == Now(p, b).(lastResetId := "", lastResetAt := ZERO_TIME)
    && forall i :: 0 <= i < |DefinitionsFor(p.routes, reset.series)| ==>
         var d := DefinitionsFor(p.routes, reset.series)[i].definition;
         Replayable(d, reset) ==> SameTruths(StateOf(a, reset.series, d.id), StateOf(b, reset.series, d.id))
  }

  ghost predicate SameReplayableAlerts(p: Policy, reset: Observation, xs: seq<Alert>, ys: seq<Alert>) {
    forall i :: 0 <= i < |DefinitionsFor(p.routes, reset.series)| ==>
      var d := DefinitionsFor(p.routes, reset.series)[i].definition;
      Replayable(d, reset) ==> OfDefinition(xs, d.id) == OfDefinition(ys, d.id)
  }

  /** The machine that took the reset and a fresh one fed the history and then the frame are twins. */
  lemma ResetMakesATwin(p: Policy, m: Machine, reset: Observation, feed: seq<Observation>)
    requires Tidy(m) && reset.reset && Gated(reset) && Accepts(p, m, reset)
    requires FeedOf(feed, reset) && IncreasingHistory(reset)
    requires UniqueIds(DefinitionsFor(p.routes, reset.series))
    ensures Twins(p, reset, Step(p, m, Input(reset)).machine,
                  Run(p, Start(EMPTY_CELL), Feed(feed) + [Input(reset.(reset := false))]).machine)
  {
    var frame := reset.(reset := false);
    var n := |feed|;
    FeedReplays(p, reset, feed, n);
    assert feed[..n] == feed && reset.history[..n] == reset.history;
    var clean := Run(p, Start(EMPTY_CELL), Feed(feed)).machine;
    RunSnoc(p, Start(EMPTY_CELL), Feed(feed), Input(frame));
    var bars := reset.history + [reset.candle];
    assert bars[n] == reset.candle;
    if n > 0 { assert bars[n - 1] == reset.history[n - 1]; }
    assert Accepts(p, clean, frame);
    InputStaysTidy(p, m, reset);
    InputStaysTidy(p, clean, frame);
    FrameMatchesReset(p, m, clean, reset);
    var cs := DefinitionsFor(p.routes, reset.series);
    forall i | 0 <= i < |cs| && Replayable(cs[i].definition, reset)
      ensures var id := cs[i].definition.id;
              SameTruths(StateOf(Step(p, m, Input(reset)).machine, reset.series, id),
                         StateOf(Step(p, clean, Input(frame)).machine, reset.series, id))
    {
      assert OnlyConfirmedTruth(cs[i].definition, reset.series, clean);
      DefinitionMatchesReset(p, m, clean, reset, i);
    }
  }

  lemma DefinitionMatchesReset(p: Policy, m: Machine, clean: Machine, reset: Observation, i: nat)
    requires reset.reset && Gated(reset) && Accepts(p, m, reset) && Accepts(p, clean, reset.(reset := false))
    requires Now(p, clean).confirmed == Replayed(reset.history)
    requires i < |DefinitionsFor(p.routes, reset.series)| && UniqueIds(DefinitionsFor(p.routes, reset.series))
    requires Replayable(DefinitionsFor(p.routes, reset.series)[i].definition, reset)
    requires OnlyConfirmedTruth(DefinitionsFor(p.routes, reset.series)[i].definition, reset.series, clean)
    ensures var id := DefinitionsFor(p.routes, reset.series)[i].definition.id;
            SameTruths(StateOf(Step(p, m, Input(reset)).machine, reset.series, id),
                       StateOf(Step(p, clean, Input(reset.(reset := false))).machine, reset.series, id))
  {
    var c := DefinitionsFor(p.routes, reset.series)[i];
    ResetProjects(p, reset.series, m, reset, i);
    InputProjects(p, reset.series, clean, reset.(reset := false), i);
    FlagsAreUnread(c.definition.rule, reset, Replayed(reset.history));
  }

  lemma FrameMatchesReset(p: Policy, m: Machine, clean: Machine, reset: Observation)
    requires reset.reset && Gated(reset) && Accepts(p, m, reset) && Accepts(p, clean, reset.(reset := false))
    requires Now(p, clean).confirmed == Replayed(reset.history) && Now(p, clean).activeZones == []
    ensures var s := Now(p, Step(p, m, Input(reset)).machine);
            var t := Now(p, Step(p, clean, Input(reset.(reset := false))).machine);
            s.(lastResetId := "", lastResetAt := ZERO_TIME) == t.(lastResetId := "", lastResetAt := ZERO_TIME)
  {
    assert Advanced(Replayed(reset.history), reset) == Advanced(Replayed(reset.history), reset.(reset := false));
  }

  /** Rules do not look at the reset flag. */
  lemma {:induction false} FlagsAreUnread(rule: Rule, o: Observation, f: Feature)
    ensures Evaluate(rule, o, f) == Evaluate(rule, o.(reset := false), f)
  {
    RuleAlgebra.MasksAreSound(rule, o, f, o.(reset := false), f);
  }

  lemma TwinStatesAdvanceAlike(p: Policy, reset: Observation, a: Machine, b: Machine, o: Observation)
    requires Twins(p, reset, a, b) && !o.reset && Accepts(p, a, o)
    ensures Accepts(p, b, o) && Seen(p, a, o) == Seen(p, b, o) && SeenFeature(p, a, o) == SeenFeature(p, b, o)
    ensures var s, t := Now(p, Step(p, a, Input(o)).machine), Now(p, Step(p, b, Input(o)).machine);
            s.(lastResetId := "", lastResetAt := ZERO_TIME) == t.(lastResetId := "", lastResetAt := ZERO_TIME)
  {
  }

  lemma TwinDefinitionsAdvanceAlike(c: Compiled, o: Observation, f: Feature, s: DefinitionState, t: DefinitionState)
    requires Memoryless(c.definition) && SameTruths(s, t)
    ensures SameTruths(NextState(c, o, f, s), NextState(c, o, f, t)) && NextAlerts(c, o, f, s) == NextAlerts(c, o, f, t)
  {
  }

  lemma TwinsTakeInputsAlike(p: Policy, reset: Observation, a: Machine, b: Machine, o: Observation)
    requires Twins(p, reset, a, b) && o.series == reset.series && !o.reset
    requires UniqueIds(DefinitionsFor(p.routes, reset.series))
    ensures var x, y := Step(p, a, Input(o)), Step(p, b, Input(o));
            Twins(p, reset, x.machine, y.machine) && SameReplayableAlerts(p, reset, x.alerts, y.alerts)
  {
    assert Accepts(p, a, o) == Accepts(p, b, o);
    if Accepts(p, a, o) {
      AcceptedByTwins(p, reset, a, b, o);
    } else {
      RejectionChangesNothing(p, a, o);
      RejectionChangesNothing(p, b, o);
    }
  }

  lemma AcceptedByTwins(p: Policy, reset: Observation, a: Machine, b: Machine, o: Observation)
    requires Twins(p, reset, a, b) && o.series == reset.series && !o.reset && Accepts(p, a, o)
    requires UniqueIds(DefinitionsFor(p.routes, reset.series))
    ensures var x, y := Step(p, a, Input(o)), Step(p, b, Input(o));
            Twins(p, reset, x.machine, y.machine) && SameReplayableAlerts(p, reset, x.alerts, y.alerts)
  {
    var cs := DefinitionsFor(p.routes, reset.series);
    ghost var x, y := Step(p, a, Input(o)), Step(p, b, Input(o));
    TwinStatesAdvanceAlike(p, reset, a, b, o);
    InputStaysTidy(p, a, o);
    InputStaysTidy(p, b, o);
    forall i | 0 <= i < |cs| && Replayable(cs[i].definition, reset)
      ensures var id := cs[i].definition.id;
              && SameTruths(StateOf(x.machine, reset.series, id), StateOf(y.machine, reset.series, id))
              && OfDefinition(x.alerts, id) == OfDefinition(y.alerts, id)
    {
      var id := cs[i].definition.id;
      InputProjects(p, reset.series, a, o, i);
      InputProjects(p, reset.series, b, o, i);
      assert SameTruths(StateOf(a, reset.series, id), StateOf(b, reset.series, id));
      TwinDefinitionsAdvanceAlike(cs[i], Seen(p, a, o), SeenFeature(p, a, o),
                                  StateOf(a, reset.series, id), StateOf(b, reset.series, id));
    }
  }

  lemma TwinsCommitAlike(p: Policy, reset: Observation, a: Machine, b: Machine)
    requires Twins(p, reset, a, b)
    ensures Twins(p, reset, Step(p, a, Commit).machine, Step(p, b, Commit).machine)
  {
    var cs := DefinitionsFor(p.routes, reset.series);
    CommitProjects(p, reset.series, a, "");
    CommitProjects(p, reset.series, b, "");
    forall i | 0 <= i < |cs| && Replayable(cs[i].definition, reset)
      ensures var id := cs[i].definition.id;
              SameTruths(StateOf(Step(p, a, Commit).machine, reset.series, id), StateOf(Step(p, b, Commit).machine, reset.series, id))
    {
      CommitProjects(p, reset.series, a, cs[i].definition.id);
      CommitProjects(p, reset.series, b, cs[i].definition.id);
      assert SameTruths(StateOf(a, reset.series, cs[i].definition.id), StateOf(b, reset.series, cs[i].definition.id));
    }
  }

  lemma {:induction false} TwinsStayTwins(p: Policy, reset: Observation, a: Machine, b: Machine, events: seq<Event>)
    requires Twins(p, reset, a, b) && UniqueIds(DefinitionsFor(p.routes, reset.series))
    requires OnSeries(events, reset.series)
    requires forall i :: 0 <= i < |events| && events[i].Input? ==> !events[i].observation.reset
    ensures var x, y := Run(p, a, events), Run(p, b, events);
            Twins(p, reset, x.machine, y.machine) && SameReplayableAlerts(p, reset, x.alerts, y.alerts)
  {
    if events != [] {
      var front, last := events[..|events| - 1], events[|events| - 1];
      TwinsStayTwins(p, reset, a, b, front);
      var x, y := Run(p, a, front), Run(p, b, front);
      match last {
        case Commit => TwinsCommitAlike(p, reset, x.machine, y.machine);
        case Input(o) => TwinsTakeInputsAlike(p, reset, x.machine, y.machine, o);
      }
      var u, v := Step(p, x.machine, last), Step(p, y.machine, last);
      forall i | 0 <= i < |DefinitionsFor(p.routes, reset.series)|
        ensures var d := DefinitionsFor(p.routes, reset.series)[i].definition;
                Replayable(d, reset) ==> OfDefinition(x.alerts + u.alerts, d.id) == OfDefinition(y.alerts + v.alerts, d.id)
      {
        var d := DefinitionsFor(p.routes, reset.series)[i].definition;
        OfDefinitionConcat(x.alerts, u.alerts, d.id);
        OfDefinitionConcat(y.alerts, v.alerts, d.id);
      }
    }
  }

  /**
   After an accepted reset the engine behaves, on every later run without resets, like a fresh engine
   that was fed the history as plain confirmed bars and then the reset's frame: the same series
   state, truth edges and alerts for every definition that does not consult earlier alert times.
   */
  lemma ResetEqualsCleanReplay(p: Policy, m: Machine, reset: Observation, feed: seq<Observation>, later: seq<Event>)
    requires Tidy(m) && reset.reset && Gated(reset) && Accepts(p, m, reset)
    requires FeedOf(feed, reset) && IncreasingHistory(reset)
    requires UniqueIds(DefinitionsFor(p.routes, reset.series)) && OnSeries(later, reset.series)
    requires forall i :: 0 <= i < |later| && later[i].Input? ==> !later[i].observation.reset
    ensures var corrected := Run(p, Step(p, m, Input(reset)).machine, later);
            var clean := Run(p, Start(EMPTY_CELL), Feed(feed) + [Input(reset.(reset := false))]);
            var replayed := Run(p, clean.machine, later);
            && Twins(p, reset, corrected.machine, replayed.machine)
            && SameReplayableAlerts(p, reset, corrected.alerts, replayed.alerts)
  {
    ResetMakesATwin(p, m, reset, feed);
    TwinsStayTwins(p, reset, Step(p, m, Input(reset)).machine,
                   Run(p, Start(EMPTY_CELL), Feed(feed) + [Input(reset.(reset := false))]).machine, later);
  }
}
