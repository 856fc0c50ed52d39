/** Concrete runs on which a batch boundary does change what the engine emits. */
module Counterexamples {
  import opened Wrappers
  import opened Model
  import opened Keys
  import opened Rules
  import opened Routing
  import opened SeriesMachine
  import opened RuleAlgebra
  import opened BatchBoundaries

  const SERIES := Series("live", "BTCUSDT", "1m")

  function Leaf(kind: RuleType, direction: Direction): Rule {
    Rule(kind, [], None, "", "", "", "ema", 9, direction, 0, 0.0, 0.0)
  }

  function OneDefinition(rule: Rule, cooldownSeconds: int): Compiled {
    Compiled(Definition("d", 1, true, SERIES, rule, ConfirmedClose, EveryMatch, cooldownSeconds, 1, 1), Dependencies(rule))
  }

  function PolicyOf(c: Compiled): Policy {
    Policy(map[RouteKey(SERIES) := [c]], AsWritten)
  }

  function Bar(id: string, at: Time, open: real, close: real, indicators: seq<Indicator>, reset: bool): Observation {
    Observation("alerts.observation.v1", id, id, at, Status.Confirmed, 1, reset, [], SERIES, None,
                Candle(at, open, open + close, 0.0, close), indicators, [], [], [])
  }

  lemma RoutesToOne(c: Compiled)
    ensures DefinitionsFor(PolicyOf(c).routes, SERIES) == [c]
  {
    assert RouteKey(SERIES)[0] == 'l' && RouteKey(Series("", "BTCUSDT", "1m"))[0] == NUL;
    assert RouteKey(SERIES) != RouteKey(Series("", "BTCUSDT", "1m"));
  }

  lemma OneStep(c: Compiled, o: Observation, f: Feature, base: map<string, DefinitionState>, overlay: map<string, DefinitionState>)
    ensures EvaluateDefinitions([c], o, f, base, overlay) == EvaluateDefinition(c, o, f, base, overlay)
  {
    assert [c][..0] == [];
    assert EvaluateDefinitions([c][..0], o, f, base, overlay) == Evaluation(overlay, []);
  }

  const RED := Leaf(CandleColor, Toward(Red))
  const FIRST := Bar("a", 60, 2.0, 1.0, [], false)
  const RESET := Bar("b", 120, 1.0, 2.0, [], true)
  const LAST := Bar("c", 180, 2.0, 1.0, [], false)

  /** An alert, a reset and a second match inside the cooldown: one batch emits twice, two batches once. */
  lemma ResetForgetsAnAlertOfItsOwnBatch()
    ensures var p := PolicyOf(OneDefinition(RED, 3600));
            && |Run(p, Start(EMPTY_CELL), [Input(FIRST), Input(RESET), Input(LAST), Commit]).alerts| == 2
            && |Run(p, Start(EMPTY_CELL), [Input(FIRST), Commit, Input(RESET), Input(LAST), Commit]).alerts| == 1
  {
    var c := OneDefinition(RED, 3600);
    var p := PolicyOf(c);
    var m0 := Start(EMPTY_CELL);
    FirstFires(c, p);
    var s1 := Step(p, m0, Input(FIRST)).machine;
    ResetForgets(c, p, s1);
    ResetRemembers(c, p, Step(p, s1, Commit).machine);
    CountsOf(p, m0, Input(FIRST), Input(RESET), Input(LAST));
  }

  /** The alerts of three inputs in one batch, and with a commit after the first. */
  lemma CountsOf(p: Policy, m0: Machine, a: Event, b: Event, c: Event)
    ensures var s1 := Step(p, m0, a);
            var s2 := Step(p, s1.machine, b);
            var t2 := Step(p, Step(p, s1.machine, Commit).machine, b);
            && |Run(p, m0, [a, b, c, Commit]).alerts|
               == |s1.alerts| + |s2.alerts| + |Step(p, s2.machine, c).alerts|
            && |Run(p, m0, [a, Commit, b, c, Commit]).alerts|
               == |s1.alerts| + |t2.alerts| + |Step(p, t2.machine, c).alerts|
  {
    RunFour(p, m0, a, b, c, Commit);
    RunFour(p, m0, a, Commit, b, c);
    RunSnoc(p, m0, [a, Commit, b, c], Commit);
    assert [a, Commit, b, c] + [Commit] == [a, Commit, b, c, Commit];
  }

  lemma FirstFires(c: Compiled, p: Policy)
    requires c == OneDefinition(RED, 3600) && p == PolicyOf(c)
    ensures var s1 := Step(p, Start(EMPTY_CELL), Input(FIRST));
            && |s1.alerts| == 1 && s1.machine.cell == EMPTY_CELL && s1.machine.work.state.Some?
            && s1.machine.work.definitions == map[DefinitionStateKey("d", SERIES.Key()) := DefinitionState(true, false, 60, 60)]
            && !s1.machine.work.wasReset && s1.machine.work.state.value.lastResetAt == ZERO_TIME
            && s1.machine.work.state.value.lastResetId == ""
  {
    RoutesToOne(c);
    OneStep(c, FIRST, FeatureFor(p.clone, FIRST, Now(p, Start(EMPTY_CELL))), map[], map[]);
  }

  /** In the alert's own batch the reset starts from the empty partition and the last bar fires. */
  lemma ResetForgets(c: Compiled, p: Policy, m: Machine)
    requires c == OneDefinition(RED, 3600) && p == PolicyOf(c)
    requires m.cell == EMPTY_CELL && m.work.state.Some?
    requires m.work.state.value.lastResetAt == ZERO_TIME && m.work.state.value.lastResetId == ""
    ensures Step(p, m, Input(RESET)).alerts == []
    ensures |Step(p, Step(p, m, Input(RESET)).machine, Input(LAST)).alerts| == 1
  {
    RoutesToOne(c);
    assert [c][..0] == [];
    var s2 := Step(p, m, Input(RESET)).machine;
    assert SeedDefinitions([c][..0], RESET, Replayed([]), map[], map[]) == map[];
    assert s2.work.definitions == map[DefinitionStateKey("d", SERIES.Key()) := EMPTY_DEFINITION];
    OneStep(c, LAST, FeatureFor(p.clone, LAST, Now(p, s2)), map[], s2.work.definitions);
  }

  /** After a commit it starts from the alert's trigger time and the last bar stays silent. */
  lemma ResetRemembers(c: Compiled, p: Policy, m: Machine)
    requires c == OneDefinition(RED, 3600) && p == PolicyOf(c)
    requires m.work == NO_WORK && m.cell.state.Some?
    requires m.cell.definitions == map[DefinitionStateKey("d", SERIES.Key()) := DefinitionState(true, false, 60, 60)]
    requires m.cell.state.value.lastResetAt == ZERO_TIME && m.cell.state.value.lastResetId == ""
    ensures Step(p, m, Input(RESET)).alerts == []
    ensures Step(p, Step(p, m, Input(RESET)).machine, Input(LAST)).alerts == []
  {
    RoutesToOne(c);
    assert [c][..0] == [];
    var key := DefinitionStateKey("d", SERIES.Key());
    var t3 := Step(p, m, Input(RESET)).machine;
    assert SeedDefinitions([c][..0], RESET, Replayed([]), m.cell.definitions, map[]) == map[];
    assert t3.work.definitions == map[key := DefinitionState(false, false, 60, 60)];
    OneStep(c, LAST, FeatureFor(p.clone, LAST, Now(p, t3)), map[], t3.work.definitions);
  }

  lemma RunOne(p: Policy, m: Machine, e: Event)
    ensures Run(p, m, [e]) == Step(p, m, e)
  {
    RunSnoc(p, m, [], e);
    assert [] + [e] == [e];
  }

  lemma RunTwo(p: Policy, m: Machine, a: Event, b: Event)
    ensures var s1 := Step(p, m, a);
            var s2 := Step(p, s1.machine, b);
            Run(p, m, [a, b]) == Outcome(s2.machine, s1.alerts + s2.alerts)
  {
    assert [a] + [b] == [a, b];
    RunConcat(p, m, [a], [b]);
    RunOne(p, m, a);
    RunOne(p, Step(p, m, a).machine, b);
  }

  lemma RunFour(p: Policy, m: Machine, a: Event, b: Event, c: Event, d: Event)
    ensures var s1 := Step(p, m, a);
            var s2 := Step(p, s1.machine, b);
            var s3 := Step(p, s2.machine, c);
            var s4 := Step(p, s3.machine, d);
            var run := Run(p, m, [a, b, c, d]);
            run.machine == s4.machine && run.alerts == (s1.alerts + s2.alerts) + (s3.alerts + s4.alerts)
  {
    var s1 := Step(p, m, a);
    var s2 := Step(p, s1.machine, b);
    assert [a, b] + [c, d] == [a, b, c, d];
    RunConcat(p, m, [a, b], [c, d]);
    RunTwo(p, m, a, b);
    RunTwo(p, s2.machine, c, d);
  }

  /**
   The first observation a series meets in a batch never finds an indicator baseline, so with
   batches of one an indicator cross is never known, whatever the history.
   */
  lemma NoCrossAtTheStartOfABatch(p: Policy, cell: Cell, rule: Rule, o: Observation)
    requires p.clone.AsWritten? && rule.kind.PriceCrossesIndicator?
    ensures var s := Current(p, cell, NO_WORK);
            Evaluate(rule, WithZones(o, s), FeatureFor(p.clone, o, s)) == UNKNOWN
  {
  }

  // ----- Every cross leaf sees the boundary -----

  /** Two bars of which the second crosses the leaf's indicator in its direction. */
  function BeforeCross(rule: Rule): Observation {
    Bar("a", 60, 9.0, if rule.direction.Below? then 12.0 else 9.0, [Indicator(rule.name, rule.period, 10.0, true)], false)
  }

  function AtCross(rule: Rule): Observation {
    Bar("b", 120, 9.0, if rule.direction.Below? then 9.0 else 12.0, [Indicator(rule.name, rule.period, 11.0, true)], false)
  }

  predicate CrossLeaf(rule: Rule) {
    Validate(rule) && rule.kind.PriceCrossesIndicator?
  }

  lemma {:induction false} OneBaseline(rule: Rule)
    ensures Absorb(map[], BeforeCross(rule).indicators) == map[IndicatorKey(rule.name, rule.period) := 10.0]
    ensures FirstReady(IndicatorKey(rule.name, rule.period), AtCross(rule).indicators) == Some(11.0)
  {
    var os := BeforeCross(rule).indicators;
    assert os[..0] == [] && Absorb(map[], os[..0]) == map[];
  }

  lemma {:induction false} FirstIsSilent(c: Compiled, p: Policy, rule: Rule)
    requires CrossLeaf(rule) && c == OneDefinition(rule, 0) && p == PolicyOf(c)
    ensures var s1 := Step(p, Start(EMPTY_CELL), Input(BeforeCross(rule)));
            && s1.alerts == [] && s1.machine.cell == EMPTY_CELL && s1.machine.work.state.Some?
            && s1.machine.work.state.value.lastOpenTime == 60
            && s1.machine.work.state.value.confirmed.lastClose == Some(BeforeCross(rule).candle.close)
            && s1.machine.work.state.value.confirmed.indicators == map[IndicatorKey(rule.name, rule.period) := 10.0]
  {
    var o, m0 := BeforeCross(rule), Start(EMPTY_CELL);
    RoutesToOne(c);
    OneBaseline(rule);
    NoCrossAtTheStartOfABatch(p, EMPTY_CELL, rule, o);
    OneStep(c, o, FeatureFor(p.clone, o, Now(p, m0)), map[], map[]);
  }

  /** In the same batch the second bar crosses. */
  lemma {:induction false} SecondFires(c: Compiled, p: Policy, rule: Rule, m: Machine)
    requires CrossLeaf(rule) && c == OneDefinition(rule, 0) && p == PolicyOf(c)
    requires m.work.state.Some? && m.work.state.value.lastOpenTime == 60
    requires m.work.state.value.confirmed.lastClose == Some(BeforeCross(rule).candle.close)
    requires m.work.state.value.confirmed.indicators == map[IndicatorKey(rule.name, rule.period) := 10.0]
    ensures |Step(p, m, Input(AtCross(rule))).alerts| == 1
  {
    var o := AtCross(rule);
    var f := FeatureFor(p.clone, o, Now(p, m));
    RoutesToOne(c);
    OneBaseline(rule);
    assert ValidateAt(rule, 0) && Evaluate(rule, o, f).Truth();
    OneStep(c, o, f, Base(m.cell, m.work), m.work.definitions);
  }

  /** In a batch of its own it does not. */
  lemma {:induction false} SecondIsSilent(c: Compiled, p: Policy, rule: Rule, m: Machine)
    requires CrossLeaf(rule) && c == OneDefinition(rule, 0) && p == PolicyOf(c)
    requires m.work == NO_WORK
    ensures Step(p, m, Input(AtCross(rule))).alerts == []
  {
    var o := AtCross(rule);
    RoutesToOne(c);
    NoCrossAtTheStartOfABatch(p, m.cell, rule, o);
    OneStep(c, o, FeatureFor(p.clone, o, Now(p, m)), m.cell.definitions, map[]);
  }

  /** The alerts of two inputs in one batch, and in two. */
  lemma {:induction false} CountsOfTwo(p: Policy, m0: Machine, a: Event, b: Event)
    ensures var s1 := Step(p, m0, a);
            && |Run(p, m0, [a, b, Commit]).alerts| == |s1.alerts| + |Step(p, s1.machine, b).alerts|
            && |Run(p, m0, [a, Commit, b, Commit]).alerts|
               == |s1.alerts| + |Step(p, Step(p, s1.machine, Commit).machine, b).alerts|
  {
    RunTwo(p, m0, a, b);
    RunSnoc(p, m0, [a, b], Commit);
    assert [a, b] + [Commit] == [a, b, Commit];
    RunFour(p, m0, a, Commit, b, Commit);
  }

  /** For every validated cross leaf there is a cross that alerts inside one batch and is missed across two. */
  lemma {:induction false} CrossIsLostBetweenBatches(rule: Rule)
    requires CrossLeaf(rule)
    ensures var p := PolicyOf(OneDefinition(rule, 0));
            var a, b := Input(BeforeCross(rule)), Input(AtCross(rule));
            && |Run(p, Start(EMPTY_CELL), [a, b, Commit]).alerts| == 1
            && |Run(p, Start(EMPTY_CELL), [a, Commit, b, Commit]).alerts| == 0
  {
    var c := OneDefinition(rule, 0);
    var p, m0 := PolicyOf(c), Start(EMPTY_CELL);
    FirstIsSilent(c, p, rule);
    var s1 := Step(p, m0, Input(BeforeCross(rule))).machine;
    SecondFires(c, p, rule, s1);
    SecondIsSilent(c, p, rule, Step(p, s1, Commit).machine);
    CountsOfTwo(p, m0, Input(BeforeCross(rule)), Input(AtCross(rule)));
  }

  /** No two reset-clean ways of cutting the same inputs of the series alert differently. */
  ghost predicate BoundariesAreInvisible(p: Policy, series: Series) {
    forall xs: seq<Event>, ys: seq<Event> ::
      && OnSeries(xs, series) && OnSeries(ys, series) && Inputs(xs) == Inputs(ys)
      && Clean(p, Start(EMPTY_CELL), xs) && Clean(p, Start(EMPTY_CELL), ys)
      ==> Run(p, Start(EMPTY_CELL), xs).alerts == Run(p, Start(EMPTY_CELL), ys).alerts
  }

  lemma {:induction false} ResetFreeIsClean(p: Policy, m: Machine, events: seq<Event>)
    requires forall i :: 0 <= i < |events| && events[i].Input? ==> !events[i].observation.reset
    ensures Clean(p, m, events)
  {
    if events != [] {
      ResetFreeIsClean(p, m, events[..|events| - 1]);
    }
  }

  lemma {:induction false} SameTwoInputs(a: Observation, b: Observation)
    ensures Inputs([Input(a), Input(b), Commit]) == [a, b]
    ensures Inputs([Input(a), Commit, Input(b), Commit]) == [a, b]
  {
    assert [Input(a), Input(b), Commit][..2] == [Input(a), Input(b)] && [Input(a), Input(b)][..1] == [Input(a)];
    assert [Input(a)][..0] == [] && Inputs([Input(a)]) == [a] && Inputs([Input(a), Input(b)]) == [a, b];
    assert [Input(a), Commit, Input(b), Commit][..3] == [Input(a), Commit, Input(b)];
    assert [Input(a), Commit, Input(b)][..2] == [Input(a), Commit] && [Input(a), Commit][..1] == [Input(a)];
    assert Inputs([Input(a), Commit]) == [a] && Inputs([Input(a), Commit, Input(b)]) == [a, b];
  }

  /**
   With the clone as written, the boundaries of batches are invisible to a validated leaf exactly when
   it is not an indicator cross.
   */
  lemma {:induction false} LeafBoundariesExactly(rule: Rule)
    requires Validate(rule) && !rule.kind.All? && !rule.kind.Any? && !rule.kind.Not?
    ensures BoundariesAreInvisible(PolicyOf(OneDefinition(rule, 0)), SERIES) <==> !rule.kind.PriceCrossesIndicator?
  {
    var p := PolicyOf(OneDefinition(rule, 0));
    if rule.kind.PriceCrossesIndicator? {
      CrossSeesBoundaries(rule);
    } else {
      RoutesToOne(OneDefinition(rule, 0));
      assert CrossFree(rule) && CloneSafe(p, SERIES);
      forall xs: seq<Event>, ys: seq<Event> |
        && OnSeries(xs, SERIES) && OnSeries(ys, SERIES) && Inputs(xs) == Inputs(ys)
        && Clean(p, Start(EMPTY_CELL), xs) && Clean(p, Start(EMPTY_CELL), ys)
        ensures Run(p, Start(EMPTY_CELL), xs).alerts == Run(p, Start(EMPTY_CELL), ys).alerts
      {
        BatchBoundariesAreInvisible(p, SERIES, Start(EMPTY_CELL), xs, ys);
      }
    }
  }

  lemma {:induction false} CrossSeesBoundaries(rule: Rule)
    requires CrossLeaf(rule)
    ensures !BoundariesAreInvisible(PolicyOf(OneDefinition(rule, 0)), SERIES)
  {
    var p := PolicyOf(OneDefinition(rule, 0));
    var a, b := BeforeCross(rule), AtCross(rule);
    CrossIsLostBetweenBatches(rule);
    CutIsSeen(p, SERIES, a, b);
  }

  lemma {:induction false} CutIsSeen(p: Policy, series: Series, a: Observation, b: Observation)
    requires a.series == series && b.series == series && !a.reset && !b.reset
    requires |Run(p, Start(EMPTY_CELL), [Input(a), Input(b), Commit]).alerts|
             != |Run(p, Start(EMPTY_CELL), [Input(a), Commit, Input(b), Commit]).alerts|
    ensures !BoundariesAreInvisible(p, series)
  {
    SameTwoInputs(a, b);
    BoundaryIsSeen(p, series, [Input(a), Input(b), Commit], [Input(a), Commit, Input(b), Commit]);
  }

  lemma {:induction false} BoundaryIsSeen(p: Policy, series: Series, xs: seq<Event>, ys: seq<Event>)
    requires OnSeries(xs, series) && OnSeries(ys, series) && Inputs(xs) == Inputs(ys)
    requires forall i :: 0 <= i < |xs| && xs[i].Input? ==> !xs[i].observation.reset
    requires forall i :: 0 <= i < |ys| && ys[i].Input? ==> !ys[i].observation.reset
    requires |Run(p, Start(EMPTY_CELL), xs).alerts| != |Run(p, Start(EMPTY_CELL), ys).alerts|
    ensures !BoundariesAreInvisible(p, series)
  {
    ResetFreeIsClean(p, Start(EMPTY_CELL), xs);
    ResetFreeIsClean(p, Start(EMPTY_CELL), ys);
  }
}
