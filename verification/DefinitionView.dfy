/** What one step of a series does to one of its definitions: the others do not matter. */
module DefinitionView {
  import opened Model
  import opened Keys
  import opened Rules
  import opened Routing
  import opened SeriesMachine
  import opened BatchBoundaries

  predicate UniqueIds(cs: seq<Compiled>) {
    forall i, j :: 0 <= i < j < |cs| ==> cs[i].definition.id != cs[j].definition.id
  }

  function OfDefinition(alerts: seq<Alert>, id: string): seq<Alert> {
    if alerts == [] then []
    else
      var before := OfDefinition(alerts[..|alerts| - 1], id);
      if alerts[|alerts| - 1].definitionId == id then before + [alerts[|alerts| - 1]] else before
  }

  lemma {:induction false} OfDefinitionConcat(xs: seq<Alert>, ys: seq<Alert>, id: string)
    ensures OfDefinition(xs + ys, id) == OfDefinition(xs, id) + OfDefinition(ys, id)
  {
    if ys == [] {
      assert xs + ys == xs;
    } else {
      assert (xs + ys)[..|xs + ys| - 1] == xs + ys[..|ys| - 1];
      OfDefinitionConcat(xs, ys[..|ys| - 1], id);
    }
  }

  function StateOf(m: Machine, series: Series, id: string): DefinitionState {
    Find(Effective(m), DefinitionStateKey(id, series.Key()))
  }

  function CommittedStateOf(m: Machine, series: Series, id: string): DefinitionState {
    Find(m.cell.definitions, DefinitionStateKey(id, series.Key()))
  }

  predicate Tidy(m: Machine) {
    m.work.state.None? ==> m.work == NO_WORK
  }

  // ----- Evaluation -----

  lemma {:induction false} OthersAreUntouched(cs: seq<Compiled>, o: Observation, f: Feature,
                                              states: map<string, DefinitionState>, id: string)
    requires forall i :: 0 <= i < |cs| ==> cs[i].definition.id != id
    ensures var e := EvaluateDefinitions(cs, o, f, map[], states);
            var key := DefinitionStateKey(id, o.series.Key());
            Find(e.definitions, key) == Find(states, key) && OfDefinition(e.alerts, id) == []
  {
    if cs != [] {
      var n := |cs| - 1;
      OthersAreUntouched(cs[..n], o, f, states, id);
      var before := EvaluateDefinitions(cs[..n], o, f, map[], states);
      OneIsUntouched(cs[n], o, f, before.definitions, id);
      OfDefinitionConcat(before.alerts, EvaluateDefinition(cs[n], o, f, map[], before.definitions).alerts, id);
    }
  }

  lemma OneIsUntouched(c: Compiled, o: Observation, f: Feature, states: map<string, DefinitionState>, id: string)
    requires c.definition.id != id
    ensures var e := EvaluateDefinition(c, o, f, map[], states);
            var key := DefinitionStateKey(id, o.series.Key());
            Find(e.definitions, key) == Find(states, key) && OfDefinition(e.alerts, id) == []
  {
    if DefinitionStateKey(c.definition.id, o.series.Key()) == DefinitionStateKey(id, o.series.Key()) {
      DefinitionKeyIsInjective(c.definition.id, id, o.series.Key());
    }
    var e := EvaluateDefinition(c, o, f, map[], states);
    if e.alerts != [] {
      assert e.alerts[..0] == [];
    }
  }

  /** The truth a definition is evaluated to on an observation. */
  function TruthOn(c: Compiled, o: Observation, f: Feature): bool {
    Evaluate(c.definition.rule, o, f).Truth()
  }

  function NextState(c: Compiled, o: Observation, f: Feature, st: DefinitionState): DefinitionState {
    if Applies(c, o) then Evaluated(c.definition, o, TruthOn(c, o, f), st) else st
  }

  function NextAlerts(c: Compiled, o: Observation, f: Feature, st: DefinitionState): seq<Alert> {
    if Applies(c, o) && Triggers(c.definition, o, TruthOn(c, o, f), st)
    then [AlertOf(c.definition, o, Evaluate(c.definition.rule, o, f).facts)]
    else []
  }

  lemma OneEvaluates(c: Compiled, o: Observation, f: Feature, states: map<string, DefinitionState>)
    ensures var e := EvaluateDefinition(c, o, f, map[], states);
            var id := c.definition.id;
            var st := Find(states, DefinitionStateKey(id, o.series.Key()));
            && Find(e.definitions, DefinitionStateKey(id, o.series.Key())) == NextState(c, o, f, st)
            && OfDefinition(e.alerts, id) == NextAlerts(c, o, f, st)
  {
    var e := EvaluateDefinition(c, o, f, map[], states);
    if e.alerts != [] {
      assert e.alerts[..0] == [] && OfDefinition(e.alerts, c.definition.id) == e.alerts;
    }
  }

  lemma {:induction false} EvaluationProjects(cs: seq<Compiled>, o: Observation, f: Feature,
                                              states: map<string, DefinitionState>, i: nat)
    requires i < |cs| && UniqueIds(cs)
    ensures var e := EvaluateDefinitions(cs, o, f, map[], states);
            var id := cs[i].definition.id;
            var st := Find(states, DefinitionStateKey(id, o.series.Key()));
            && Find(e.definitions, DefinitionStateKey(id, o.series.Key())) == NextState(cs[i], o, f, st)
            && OfDefinition(e.alerts, id) == NextAlerts(cs[i], o, f, st)
  {
    var n := |cs| - 1;
    var id := cs[i].definition.id;
    var before := EvaluateDefinitions(cs[..n], o, f, map[], states);
    var last := EvaluateDefinition(cs[n], o, f, map[], before.definitions);
    OfDefinitionConcat(before.alerts, last.alerts, id);
    if i < n {
      EvaluationProjects(cs[..n], o, f, states, i);
      OneIsUntouched(cs[n], o, f, before.definitions, id);
    } else {
      OthersAreUntouched(cs[..n], o, f, states, id);
      OneEvaluates(cs[n], o, f, before.definitions);
    }
  }

  /** The observation and the feature a definition sees when the machine takes the input. */
  function Seen(p: Policy, m: Machine, o: Observation): Observation {
    WithZones(o, Now(p, m))
  }

  function SeenFeature(p: Policy, m: Machine, o: Observation): Feature {
    FeatureFor(p.clone, Seen(p, m, o), Now(p, m))
  }

  lemma InputProjects(p: Policy, series: Series, m: Machine, o: Observation, i: nat)
    requires o.series == series && !o.reset && Accepts(p, m, o)
    requires i < |DefinitionsFor(p.routes, series)| && UniqueIds(DefinitionsFor(p.routes, series))
    ensures var c := DefinitionsFor(p.routes, series)[i];
            var next := Step(p, m, Input(o));
            var st := StateOf(m, series, c.definition.id);
            var seen, f := Seen(p, m, o), SeenFeature(p, m, o);
            && StateOf(next.machine, series, c.definition.id) == NextState(c, seen, f, st)
            && OfDefinition(next.alerts, c.definition.id) == NextAlerts(c, seen, f, st)
            && CommittedStateOf(next.machine, series, c.definition.id) == CommittedStateOf(m, series, c.definition.id)
  {
    var cs := DefinitionsFor(p.routes, series);
    var seen, f := Seen(p, m, o), SeenFeature(p, m, o);
    OneMap(cs, seen, f, Base(m.cell, m.work), m.work.definitions);
    EvaluationProjects(cs, seen, f, Effective(m), i);
  }

  // ----- Resets -----

  lemma {:induction false} SeedsProject(cs: seq<Compiled>, o: Observation, f: Feature,
                                        partition: map<string, DefinitionState>, id: string)
    requires UniqueIds(cs)
    ensures var seeded := SeedDefinitions(cs, o, f, partition, map[]);
            var key := DefinitionStateKey(id, o.series.Key());
            && (key in seeded ==> exists i :: 0 <= i < |cs| && cs[i].definition.id == id
                                              && AcceptsMode(cs[i].definition.evaluationMode, Status.Confirmed))
            && forall i :: 0 <= i < |cs| && cs[i].definition.id == id
                           && AcceptsMode(cs[i].definition.evaluationMode, Status.Confirmed)
                 ==> key in seeded && seeded[key] == Seeded(cs[i], o, f, Find(partition, key))
  {
    if cs != [] {
      var n := |cs| - 1;
      SeedsProject(cs[..n], o, f, partition, id);
      if DefinitionStateKey(cs[n].definition.id, o.series.Key()) == DefinitionStateKey(id, o.series.Key()) {
        DefinitionKeyIsInjective(cs[n].definition.id, id, o.series.Key());
      }
    }
  }

  lemma ResetProjects(p: Policy, series: Series, m: Machine, o: Observation, i: nat)
    requires o.series == series && o.reset && Accepts(p, m, o)
    requires i < |DefinitionsFor(p.routes, series)| && UniqueIds(DefinitionsFor(p.routes, series))
    ensures var c := DefinitionsFor(p.routes, series)[i];
            var next := Step(p, m, Input(o));
            var committed := CommittedStateOf(m, series, c.definition.id);
            && next.alerts == []
            && CommittedStateOf(next.machine, series, c.definition.id) == committed
            && StateOf(next.machine, series, c.definition.id)
               == if AcceptsMode(c.definition.evaluationMode, Status.Confirmed)
                  then Seeded(c, o, Replayed(o.history), committed)
                  else EMPTY_DEFINITION
  {
    var cs := DefinitionsFor(p.routes, series);
    SeedsProject(cs, o, Replayed(o.history), m.cell.definitions, cs[i].definition.id);
  }

  lemma CommitProjects(p: Policy, series: Series, m: Machine, id: string)
    requires Tidy(m)
    ensures var next := Step(p, m, Commit);
            && StateOf(next.machine, series, id) == StateOf(m, series, id)
            && CommittedStateOf(next.machine, series, id) == StateOf(m, series, id)
            && Now(p, next.machine) == ClonedSeries(p.clone, Now(p, m))
            && next.alerts == [] && Tidy(next.machine)
  {
  }

  lemma InputStaysTidy(p: Policy, m: Machine, o: Observation)
    requires Tidy(m)
    ensures Tidy(Step(p, m, Input(o)).machine)
  {
  }

  lemma {:induction false} RunStaysTidy(p: Policy, m: Machine, events: seq<Event>)
    requires Tidy(m)
    ensures Tidy(Run(p, m, events).machine)
  {
    if events != [] {
      var before, last := events[..|events| - 1], events[|events| - 1];
      RunStaysTidy(p, m, before);
      match last
      case Commit => CommitProjects(p, Series("", "", ""), Run(p, m, before).machine, "");
      case Input(o) => InputStaysTidy(p, Run(p, m, before).machine, o);
    }
  }
}
