/** Where a series' observations are cut into batches does not matter, and exactly when it does. */
module BatchBoundaries {
  import opened Model
  import opened Keys
  import opened Rules
  import opened RuleAlgebra
  import opened Routing
  import opened SeriesMachine

  /** No rule the series can meet tells a clone from its original. */
  predicate CloneSafe(p: Policy, series: Series) {
    p.clone.AsIntended? ||
    forall i :: 0 <= i < |DefinitionsFor(p.routes, series)| ==>
                  CrossFree(DefinitionsFor(p.routes, series)[i].definition.rule)
  }

  predicate SameMemory(s: DefinitionState, t: DefinitionState) {
    s.lastTriggerAt == t.lastTriggerAt && s.lastAlertBar == t.lastAlertBar
  }

  predicate Present(m: Machine) {
    m.cell.state.Some? || m.work.state.Some?
  }

  /** Nothing a later observation can see differs, up to what the next clone removes anyway. */
  ghost predicate Alike(p: Policy, a: Machine, b: Machine) {
    && ClonedSeries(p.clone, Now(p, a)) == ClonedSeries(p.clone, Now(p, b))
    && Effective(a) == Effective(b)
    && Present(a) == Present(b)
  }

  /** The trigger memory a reset would restore is the current one. */
  predicate MemoryIsCommitted(p: Policy, series: Series, m: Machine) {
    forall i :: 0 <= i < |DefinitionsFor(p.routes, series)| ==>
      var d := DefinitionsFor(p.routes, series)[i].definition;
      var key := DefinitionStateKey(d.id, series.Key());
      AcceptsMode(d.evaluationMode, Status.Confirmed) ==>
        SameMemory(Find(m.cell.definitions, key), Find(Effective(m), key))
  }

  ghost predicate Sound(p: Policy, series: Series, m: Machine) {
    && (m.work.state.None? ==> m.work == NO_WORK)
    && (!m.fired ==> MemoryIsCommitted(p, series, m))
    && (m.cell.state.Some? ==> ClonedSeries(p.clone, m.cell.state.value) == m.cell.state.value)
  }

  // ----- Evaluating definitions -----

  lemma CloneIsUnseen(p: Policy, series: Series, i: nat, o: Observation, f: Feature, g: Feature)
    requires CloneSafe(p, series) && i < |DefinitionsFor(p.routes, series)|
    requires Cloned(p.clone, f) == Cloned(p.clone, g)
    ensures var rule := DefinitionsFor(p.routes, series)[i].definition.rule;
            Evaluate(rule, o, f) == Evaluate(rule, o, g)
  {
    var rule := DefinitionsFor(p.routes, series)[i].definition.rule;
    if p.clone.AsWritten? {
      CrossFreeIgnoresBaselines(rule, o, f);
      CrossFreeIgnoresBaselines(rule, o, g);
      assert WithoutBaselines(f) == WithoutBaselines(g);
    }
  }

  /** The overlay and the entries below it act as one map. */
  lemma {:induction false} OneMap(cs: seq<Compiled>, o: Observation, f: Feature,
                                  base: map<string, DefinitionState>, overlay: map<string, DefinitionState>)
    ensures var split := EvaluateDefinitions(cs, o, f, base, overlay);
            var merged := EvaluateDefinitions(cs, o, f, map[], base + overlay);
            split.alerts == merged.alerts && base + split.definitions == merged.definitions
  {
    if cs != [] {
      var n := |cs| - 1;
      OneMap(cs[..n], o, f, base, overlay);
      OneEntry(cs[n], o, f, base, EvaluateDefinitions(cs[..n], o, f, base, overlay).definitions);
    }
  }

  lemma {:induction false} OneEntry(c: Compiled, o: Observation, f: Feature,
                                    base: map<string, DefinitionState>, overlay: map<string, DefinitionState>)
    ensures var split := EvaluateDefinition(c, o, f, base, overlay);
            var merged := EvaluateDefinition(c, o, f, map[], base + overlay);
            split.alerts == merged.alerts && base + split.definitions == merged.definitions
  {
    var key := DefinitionStateKey(c.definition.id, o.series.Key());
    assert Lookup(base, overlay, key) == Lookup(map[], base + overlay, key);
    OverlayOnTop(base, overlay, key, Evaluated(c.definition, o, Evaluate(c.definition.rule, o, f).Truth(), Lookup(base, overlay, key)));
  }

  lemma {:induction false} OverlayOnTop<K, V>(base: map<K, V>, overlay: map<K, V>, k: K, v: V)
    ensures base + overlay[k := v] == (base + overlay)[k := v]
  {
  }

  /** A list of definitions whose verdicts agree is evaluated alike. */
  lemma {:induction false} VerdictsSuffice(cs: seq<Compiled>, o: Observation, f: Feature, g: Feature, base: map<string, DefinitionState>)
    requires forall i :: 0 <= i < |cs| ==> Evaluate(cs[i].definition.rule, o, f) == Evaluate(cs[i].definition.rule, o, g)
    ensures EvaluateDefinitions(cs, o, f, map[], base) == EvaluateDefinitions(cs, o, g, map[], base)
  {
    if cs != [] {
      VerdictsSuffice(cs[..|cs| - 1], o, f, g, base);
      assert Evaluate(cs[|cs| - 1].definition.rule, o, f) == Evaluate(cs[|cs| - 1].definition.rule, o, g);
    }
  }

  lemma {:induction false} FeaturesAreInterchangeable(p: Policy, series: Series, o: Observation, f: Feature, g: Feature,
                                                      base: map<string, DefinitionState>)
    requires CloneSafe(p, series) && Cloned(p.clone, f) == Cloned(p.clone, g)
    ensures var cs := DefinitionsFor(p.routes, series);
            EvaluateDefinitions(cs, o, f, map[], base) == EvaluateDefinitions(cs, o, g, map[], base)
  {
    var cs := DefinitionsFor(p.routes, series);
    forall i | 0 <= i < |cs| ensures Evaluate(cs[i].definition.rule, o, f) == Evaluate(cs[i].definition.rule, o, g) {
      CloneIsUnseen(p, series, i, o, f, g);
    }
    VerdictsSuffice(cs, o, f, g, base);
  }

  lemma {:induction false} SilenceKeepsMemory(cs: seq<Compiled>, o: Observation, f: Feature,
                                              base: map<string, DefinitionState>, overlay: map<string, DefinitionState>,
                                              key: string)
    requires EvaluateDefinitions(cs, o, f, base, overlay).alerts == []
    ensures SameMemory(Lookup(base, EvaluateDefinitions(cs, o, f, base, overlay).definitions, key),
                       Lookup(base, overlay, key))
  {
    if cs != [] {
      SilenceKeepsMemory(cs[..|cs| - 1], o, f, base, overlay, key);
    }
  }

  // ----- Resets -----

  lemma {:induction false} SeedsKeepMemory(cs: seq<Compiled>, o: Observation, f: Feature,
                                           partition: map<string, DefinitionState>, i: nat)
    requires i < |cs| && AcceptsMode(cs[i].definition.evaluationMode, Status.Confirmed)
    ensures var key := DefinitionStateKey(cs[i].definition.id, o.series.Key());
            var seeded := SeedDefinitions(cs, o, f, partition, map[]);
            key in seeded && SameMemory(seeded[key], Find(partition, key))
  {
    if i < |cs| - 1 {
      SeedsKeepMemory(cs[..|cs| - 1], o, f, partition, i);
    }
  }

  lemma {:induction false} SeedsDependOnMemory(cs: seq<Compiled>, o: Observation, f: Feature,
                                               a: map<string, DefinitionState>, b: map<string, DefinitionState>)
    requires forall i :: 0 <= i < |cs| && AcceptsMode(cs[i].definition.evaluationMode, Status.Confirmed) ==>
               var key := DefinitionStateKey(cs[i].definition.id, o.series.Key());
               SameMemory(Find(a, key), Find(b, key))
    ensures SeedDefinitions(cs, o, f, a, map[]) == SeedDefinitions(cs, o, f, b, map[])
  {
    if cs != [] {
      SeedsDependOnMemory(cs[..|cs| - 1], o, f, a, b);
      assert cs[|cs| - 1].definition == cs[|cs| - 1].definition;
    }
  }

  // ----- One step -----

  lemma CommitIsInvisible(p: Policy, series: Series, m: Machine)
    requires Sound(p, series, m)
    ensures var next := Step(p, m, Commit).machine;
            Sound(p, series, next) && Alike(p, next, m)
  {
    var next := Step(p, m, Commit).machine;
    assert Effective(next) == Effective(m);
  }

  lemma InputStaysSound(p: Policy, series: Series, m: Machine, o: Observation)
    requires Sound(p, series, m) && o.series == series
    ensures Sound(p, series, Step(p, m, Input(o)).machine)
  {
    var next := Step(p, m, Input(o)).machine;
    var cs := DefinitionsFor(p.routes, series);
    if Accepts(p, m, o) && !next.fired {
      forall i | 0 <= i < |cs| && AcceptsMode(cs[i].definition.evaluationMode, Status.Confirmed)
        ensures var key := DefinitionStateKey(cs[i].definition.id, series.Key());
                SameMemory(Find(next.cell.definitions, key), Find(Effective(next), key))
      {
        var key := DefinitionStateKey(cs[i].definition.id, series.Key());
        if o.reset {
          SeedsKeepMemory(cs, o, Replayed(o.history), m.cell.definitions, i);
        } else {
          var s := Now(p, m);
          var seen := WithZones(o, s);
          var base := Base(m.cell, m.work);
          SilenceKeepsMemory(cs, seen, FeatureFor(p.clone, seen, s), base, m.work.definitions, key);
          assert Lookup(base, m.work.definitions, key) == Find(Effective(m), key);
          assert Lookup(base, next.work.definitions, key) == Find(Effective(next), key);
        }
      }
    }
  }

  /** A reset of both machines. */
  lemma {:induction false} ResetsAgree(p: Policy, series: Series, a: Machine, b: Machine, o: Observation)
    requires o.series == series && o.reset && Accepts(p, a, o) && Accepts(p, b, o)
    requires Effective(a) == Effective(b) && MemoryIsCommitted(p, series, a) && MemoryIsCommitted(p, series, b)
    ensures Step(p, a, Input(o)).alerts == [] && Step(p, b, Input(o)).alerts == []
    ensures Step(p, a, Input(o)).machine.work == Step(p, b, Input(o)).machine.work
    ensures Step(p, a, Input(o)).machine.work.wasReset && Step(p, a, Input(o)).machine.work.state.Some?
  {
    var cs := DefinitionsFor(p.routes, series);
    forall i | 0 <= i < |cs| && AcceptsMode(cs[i].definition.evaluationMode, Status.Confirmed)
      ensures var key := DefinitionStateKey(cs[i].definition.id, series.Key());
              SameMemory(Find(a.cell.definitions, key), Find(b.cell.definitions, key))
    {
      assert SameMemory(Find(a.cell.definitions, DefinitionStateKey(cs[i].definition.id, series.Key())),
                        Find(Effective(a), DefinitionStateKey(cs[i].definition.id, series.Key())));
    }
    SeedsDependOnMemory(cs, o, Replayed(o.history), a.cell.definitions, b.cell.definitions);
  }

  /** The verdicts and definition states of both machines on one input. */
  lemma {:induction false} EvaluationsAgree(p: Policy, series: Series, a: Machine, b: Machine, o: Observation, f: Feature, g: Feature)
    requires CloneSafe(p, series) && Cloned(p.clone, f) == Cloned(p.clone, g) && Effective(a) == Effective(b)
    ensures var cs := DefinitionsFor(p.routes, series);
            var x := EvaluateDefinitions(cs, o, f, Base(a.cell, a.work), a.work.definitions);
            var y := EvaluateDefinitions(cs, o, g, Base(b.cell, b.work), b.work.definitions);
            && x.alerts == y.alerts
            && Base(a.cell, a.work) + x.definitions == Base(b.cell, b.work) + y.definitions
  {
    var cs := DefinitionsFor(p.routes, series);
    OneMap(cs, o, f, Base(a.cell, a.work), a.work.definitions);
    OneMap(cs, o, g, Base(b.cell, b.work), b.work.definitions);
    FeaturesAreInterchangeable(p, series, o, f, g, Effective(a));
  }

  /** The series states of both machines after one input, up to what the next clone removes. */
  lemma {:induction false} StatesAgree(p: Policy, s: SeriesState, t: SeriesState, o: Observation)
    requires ClonedSeries(p.clone, s) == ClonedSeries(p.clone, t)
    ensures var f, g := FeatureFor(p.clone, o, s), FeatureFor(p.clone, o, t);
            && WithZones(o, s) == WithZones(o, t) && Cloned(p.clone, f) == Cloned(p.clone, g)
            && ClonedSeries(p.clone, ObservedState(p.clone, o, f, s)) == ClonedSeries(p.clone, ObservedState(p.clone, o, g, t))
  {
  }

  lemma {:induction false} PlainInputsAgree(p: Policy, series: Series, a: Machine, b: Machine, o: Observation)
    requires CloneSafe(p, series) && o.series == series && Alike(p, a, b)
    requires !o.reset && Accepts(p, a, o) && Accepts(p, b, o)
    ensures var x, y := Step(p, a, Input(o)), Step(p, b, Input(o));
            x.alerts == y.alerts && Alike(p, x.machine, y.machine)
  {
    var s, t := Now(p, a), Now(p, b);
    var seen := WithZones(o, s);
    StatesAgree(p, s, t, o);
    StatesAgree(p, s, t, seen);
    EvaluationsAgree(p, series, a, b, seen, FeatureFor(p.clone, seen, s), FeatureFor(p.clone, seen, t));
  }

  lemma {:induction false} InputsAgree(p: Policy, series: Series, a: Machine, b: Machine, o: Observation)
    requires CloneSafe(p, series) && o.series == series
    requires Sound(p, series, a) && Sound(p, series, b) && Alike(p, a, b)
    requires o.reset && Accepts(p, a, o) ==> MemoryIsCommitted(p, series, a) && MemoryIsCommitted(p, series, b)
    ensures var x, y := Step(p, a, Input(o)), Step(p, b, Input(o));
            x.alerts == y.alerts && Alike(p, x.machine, y.machine)
  {
    assert Accepts(p, a, o) <==> Accepts(p, b, o);
    if Accepts(p, a, o) {
      if o.reset {
        ResetsAgree(p, series, a, b, o);
      } else {
        PlainInputsAgree(p, series, a, b, o);
      }
    }
  }

  // ----- Whole runs -----

  function Inputs(events: seq<Event>): seq<Observation> {
    if events == [] then []
    else
      var before := Inputs(events[..|events| - 1]);
      match events[|events| - 1]
      case Commit => before
      case Input(o) => before + [o]
  }

  ghost predicate OnSeries(events: seq<Event>, series: Series) {
    forall i :: 0 <= i < |events| && events[i].Input? ==> events[i].observation.series == series
  }

  /** Reset-clean: no accepted reset follows an alert of the same series inside one batch. */
  ghost predicate Clean(p: Policy, m: Machine, events: seq<Event>) {
    events == [] ||
    var before, last := events[..|events| - 1], events[|events| - 1];
    && Clean(p, m, before)
    && (last.Input? && last.observation.reset && Accepts(p, Run(p, m, before).machine, last.observation)
        ==> !Run(p, m, before).machine.fired)
  }

  lemma {:induction false} RunStaysSound(p: Policy, series: Series, m: Machine, events: seq<Event>)
    requires Sound(p, series, m) && OnSeries(events, series)
    ensures Sound(p, series, Run(p, m, events).machine)
  {
    if events != [] {
      var before, last := events[..|events| - 1], events[|events| - 1];
      RunStaysSound(p, series, m, before);
      var reached := Run(p, m, before).machine;
      match last
      case Commit => CommitIsInvisible(p, series, reached);
      case Input(o) => InputStaysSound(p, series, reached, o);
    }
  }

  /**
   Two runs over the same observations, cut into batches in two ways, emit the same alerts and
   leave the series in the same state.
   */
  lemma {:induction false} BatchBoundariesAreInvisible(p: Policy, series: Series, m: Machine, xs: seq<Event>, ys: seq<Event>)
    requires CloneSafe(p, series) && Sound(p, series, m)
    requires OnSeries(xs, series) && OnSeries(ys, series) && Inputs(xs) == Inputs(ys)
    requires Clean(p, m, xs) && Clean(p, m, ys)
    ensures var a, b := Run(p, m, xs), Run(p, m, ys);
            a.alerts == b.alerts && Alike(p, a.machine, b.machine)
    decreases |xs| + |ys|
  {
    if xs != [] && xs[|xs| - 1].Commit? {
      BatchBoundariesAreInvisible(p, series, m, xs[..|xs| - 1], ys);
      RunStaysSound(p, series, m, xs[..|xs| - 1]);
      CommitIsInvisible(p, series, Run(p, m, xs[..|xs| - 1]).machine);
    } else if ys != [] && ys[|ys| - 1].Commit? {
      BatchBoundariesAreInvisible(p, series, m, xs, ys[..|ys| - 1]);
      RunStaysSound(p, series, m, ys[..|ys| - 1]);
      CommitIsInvisible(p, series, Run(p, m, ys[..|ys| - 1]).machine);
    } else if xs != [] && ys != [] {
      LastInputs(xs, ys);
      BatchBoundariesAreInvisible(p, series, m, xs[..|xs| - 1], ys[..|ys| - 1]);
      LastInputAgrees(p, series, m, xs[..|xs| - 1], ys[..|ys| - 1], xs[|xs| - 1].observation);
    } else {
      assert xs == [] && ys == [];
    }
  }

  /** Two stretches that end in an input and have the same inputs end in the same one. */
  lemma {:induction false} LastInputs(xs: seq<Event>, ys: seq<Event>)
    requires xs != [] && ys != [] && xs[|xs| - 1].Input? && ys[|ys| - 1].Input? && Inputs(xs) == Inputs(ys)
    ensures xs[|xs| - 1] == ys[|ys| - 1] && Inputs(xs[..|xs| - 1]) == Inputs(ys[..|ys| - 1])
  {
    var a, b := Inputs(xs[..|xs| - 1]), Inputs(ys[..|ys| - 1]);
    assert Inputs(xs) == a + [xs[|xs| - 1].observation] && Inputs(ys) == b + [ys[|ys| - 1].observation];
    assert a == Inputs(xs)[..|a|] && b == Inputs(ys)[..|b|];
    assert Inputs(xs)[|a|] == xs[|xs| - 1].observation && Inputs(ys)[|b|] == ys[|ys| - 1].observation;
  }

  lemma {:induction false} LastInputAgrees(p: Policy, series: Series, m: Machine, xs: seq<Event>, ys: seq<Event>, o: Observation)
    requires CloneSafe(p, series) && Sound(p, series, m) && o.series == series
    requires OnSeries(xs, series) && OnSeries(ys, series)
    requires Alike(p, Run(p, m, xs).machine, Run(p, m, ys).machine)
    requires o.reset && Accepts(p, Run(p, m, xs).machine, o) ==> !Run(p, m, xs).machine.fired
    requires o.reset && Accepts(p, Run(p, m, ys).machine, o) ==> !Run(p, m, ys).machine.fired
    ensures var x, y := Step(p, Run(p, m, xs).machine, Input(o)), Step(p, Run(p, m, ys).machine, Input(o));
            x.alerts == y.alerts && Alike(p, x.machine, y.machine)
  {
    RunStaysSound(p, series, m, xs);
    RunStaysSound(p, series, m, ys);
    InputsAgree(p, series, Run(p, m, xs).machine, Run(p, m, ys).machine, o);
  }

  /** At a batch boundary alike means equal: the very same cell. */
  lemma CommittedRunsEndInTheSameCell(p: Policy, series: Series, cell: Cell, xs: seq<Event>, ys: seq<Event>)
    requires CloneSafe(p, series) && Sound(p, series, Start(cell))
    requires OnSeries(xs, series) && OnSeries(ys, series) && Inputs(xs) == Inputs(ys)
    requires Clean(p, Start(cell), xs) && Clean(p, Start(cell), ys)
    ensures var a, b := Run(p, Start(cell), xs + [Commit]), Run(p, Start(cell), ys + [Commit]);
            a == b
  {
    var m := Start(cell);
    BatchBoundariesAreInvisible(p, series, m, xs, ys);
    RunStaysSound(p, series, m, xs);
    RunStaysSound(p, series, m, ys);
    RunSnoc(p, m, xs, Commit);
    RunSnoc(p, m, ys, Commit);
    AlikeCommitEqual(p, series, Run(p, m, xs).machine, Run(p, m, ys).machine);
    NothingAdded([], Run(p, m, xs).alerts);
  }

  /** Committing makes alike machines equal. */
  lemma {:induction false} AlikeCommitEqual(p: Policy, series: Series, a: Machine, b: Machine)
    requires Sound(p, series, a) && Sound(p, series, b) && Alike(p, a, b)
    ensures Step(p, a, Commit) == Step(p, b, Commit)
  {
    CommitIsInvisible(p, series, a);
    CommitIsInvisible(p, series, b);
    var x, y := Step(p, a, Commit).machine, Step(p, b, Commit).machine;
    assert Effective(x) == x.cell.definitions && Effective(y) == y.cell.definitions;
  }

  // ----- One observation at a time -----

  function OneByOne(os: seq<Observation>): seq<Event> {
    if os == [] then [] else OneByOne(os[..|os| - 1]) + [Input(os[|os| - 1]), Commit]
  }

  lemma {:induction false} OneByOneIsClean(p: Policy, cell: Cell, os: seq<Observation>)
    ensures Clean(p, Start(cell), OneByOne(os))
    ensures !Run(p, Start(cell), OneByOne(os)).machine.fired
    ensures Inputs(OneByOne(os)) == os
  {
    if os != [] {
      var before := OneByOne(os[..|os| - 1]);
      var o := os[|os| - 1];
      OneByOneIsClean(p, cell, os[..|os| - 1]);
      var events := OneByOne(os);
      assert events[..|events| - 1] == before + [Input(o)];
      assert (before + [Input(o)])[..|before|] == before;
      assert Clean(p, Start(cell), before + [Input(o)]);
      assert Inputs(before + [Input(o)]) == os[..|os| - 1] + [o];
    }
  }

  /** Any reset-clean batching equals the fold of the single-observation step. */
  lemma RunsFoldTheSingleStep(p: Policy, series: Series, cell: Cell, events: seq<Event>)
    requires CloneSafe(p, series) && Sound(p, series, Start(cell))
    requires OnSeries(events, series) && Clean(p, Start(cell), events)
    ensures var batched, folded := Run(p, Start(cell), events + [Commit]), Run(p, Start(cell), OneByOne(Inputs(events)) + [Commit]);
            batched == folded
  {
    OneByOneIsClean(p, cell, Inputs(events));
    InputsAreOnSeries(events, series);
    OneByOneOnSeries(Inputs(events), series);
    CommittedRunsEndInTheSameCell(p, series, cell, events, OneByOne(Inputs(events)));
  }

  lemma {:induction false} InputsAreOnSeries(events: seq<Event>, series: Series)
    requires OnSeries(events, series)
    ensures forall i :: 0 <= i < |Inputs(events)| ==> Inputs(events)[i].series == series
  {
    if events != [] {
      InputsAreOnSeries(events[..|events| - 1], series);
    }
  }

  lemma {:induction false} OneByOneOnSeries(os: seq<Observation>, series: Series)
    requires forall i :: 0 <= i < |os| ==> os[i].series == series
    ensures OnSeries(OneByOne(os), series)
  {
    if os != [] {
      OneByOneOnSeries(os[..|os| - 1], series);
    }
  }

  // ----- Exactly when a reset sees the batch boundary -----

  /**
   Committing just before an accepted reset changes the definition states it leaves exactly when an
   open trigger memory of a confirmed-accepting definition differs from the committed one.
   */
  lemma ResetSeesTheBoundaryExactly(p: Policy, series: Series, m: Machine, reset: Observation)
    requires Sound(p, series, m) && reset.series == series && reset.reset && Accepts(p, m, reset)
    ensures var here := Step(p, m, Input(reset)).machine;
            var after := Step(p, Step(p, m, Commit).machine, Input(reset)).machine;
            Effective(here) == Effective(after) <==> MemoryIsCommitted(p, series, m)
  {
    CommitIsInvisible(p, series, m);
    var cut := Step(p, m, Commit).machine;
    var here, after := Step(p, m, Input(reset)).machine, Step(p, cut, Input(reset)).machine;
    var cs := DefinitionsFor(p.routes, series);
    assert cut.cell.definitions == Effective(m);
    if MemoryIsCommitted(p, series, m) {
      SeedsDependOnMemory(cs, reset, Replayed(reset.history), m.cell.definitions, cut.cell.definitions);
    }
    if Effective(here) == Effective(after) {
      forall i | 0 <= i < |cs| && AcceptsMode(cs[i].definition.evaluationMode, Status.Confirmed)
        ensures var key := DefinitionStateKey(cs[i].definition.id, series.Key());
                SameMemory(Find(m.cell.definitions, key), Find(Effective(m), key))
      {
        SeedsKeepMemory(cs, reset, Replayed(reset.history), m.cell.definitions, i);
        SeedsKeepMemory(cs, reset, Replayed(reset.history), cut.cell.definitions, i);
        var key := DefinitionStateKey(cs[i].definition.id, series.Key());
        assert Effective(here)[key] == Effective(after)[key];
      }
    }
  }
}
