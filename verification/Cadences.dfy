/** Intrabar traffic does not interfere with confirmed evaluation. */
module Cadences {
  import opened Model
  import opened Rules
  import opened Routing
  import opened SeriesMachine
  import opened BatchBoundaries
  import opened DefinitionView
  import opened Redelivery

  function WithoutProvisional(events: seq<Event>): seq<Event> {
    if events == [] then []
    else
      var before, last := WithoutProvisional(events[..|events| - 1]), events[|events| - 1];
      if last.Input? && last.observation.status.Provisional? then before else before + [last]
  }

  /** Every confirmed observation of the run other than a reset is accepted. */
  ghost predicate NoConfirmedDropped(p: Policy, m: Machine, events: seq<Event>) {
    events == [] ||
    var before, last := events[..|events| - 1], events[|events| - 1];
    && NoConfirmedDropped(p, m, before)
    && (last.Input? && last.observation.status.Confirmed? && !last.observation.reset
        ==> Accepts(p, Run(p, m, before).machine, last.observation))
  }

  /** a has seen provisional observations that b has not. */
  ghost predicate SameConfirmedSide(p: Policy, series: Series, a: Machine, b: Machine) {
    var s, t := Now(p, a), Now(p, b);
    && Tidy(a) && Tidy(b)
    && s.confirmed == t.confirmed && s.lastResetId == t.lastResetId && s.lastResetAt == t.lastResetAt
    && (HasCursor(t) ==> HasCursor(s) && !Cursor(s).Before(Cursor(t)))
    && forall i :: 0 <= i < |DefinitionsFor(p.routes, series)| ==>
                     SameConfirmedStates(DefinitionsFor(p.routes, series)[i].definition, series, a, b)
  }

  predicate SameConfirmedStates(d: Definition, series: Series, a: Machine, b: Machine) {
    && StateOf(a, series, d.id).lastTruthConfirmed == StateOf(b, series, d.id).lastTruthConfirmed
    && (d.evaluationMode.ConfirmedClose? ==>
          && StateOf(a, series, d.id) == StateOf(b, series, d.id)
          && CommittedStateOf(a, series, d.id) == CommittedStateOf(b, series, d.id))
  }

  lemma ProvisionalStepIsInvisible(p: Policy, series: Series, a: Machine, b: Machine, o: Observation)
    requires SameConfirmedSide(p, series, a, b) && UniqueIds(DefinitionsFor(p.routes, series))
    requires o.series == series && o.status.Provisional? && !o.reset && Gated(o)
    ensures SameConfirmedSide(p, series, Step(p, a, Input(o)).machine, b)
    ensures forall i :: 0 <= i < |DefinitionsFor(p.routes, series)|
                        && DefinitionsFor(p.routes, series)[i].definition.evaluationMode.ConfirmedClose?
              ==> OfDefinition(Step(p, a, Input(o)).alerts, DefinitionsFor(p.routes, series)[i].definition.id) == []
  {
    var cs := DefinitionsFor(p.routes, series);
    if Accepts(p, a, o) {
      AcceptanceMovesForward(p, a, o);
      InputStaysTidy(p, a, o);
      forall i | 0 <= i < |cs|
        ensures SameConfirmedStates(cs[i].definition, series, Step(p, a, Input(o)).machine, b)
        ensures cs[i].definition.evaluationMode.ConfirmedClose?
                ==> OfDefinition(Step(p, a, Input(o)).alerts, cs[i].definition.id) == []
      {
        InputProjects(p, series, a, o, i);
        assert SameConfirmedStates(cs[i].definition, series, a, b);
      }
    } else {
      RejectionChangesNothing(p, a, o);
    }
  }

  /** Definitions for confirmed closes have the same alerts. */
  predicate SameConfirmedAlerts(cs: seq<Compiled>, xs: seq<Alert>, ys: seq<Alert>) {
    forall i :: 0 <= i < |cs| && cs[i].definition.evaluationMode.ConfirmedClose?
                ==> OfDefinition(xs, cs[i].definition.id) == OfDefinition(ys, cs[i].definition.id)
  }

  lemma {:induction false} ConfirmedAlertsConcat(cs: seq<Compiled>, xs: seq<Alert>, ys: seq<Alert>, xs': seq<Alert>, ys': seq<Alert>)
    requires SameConfirmedAlerts(cs, xs, ys) && SameConfirmedAlerts(cs, xs', ys')
    ensures SameConfirmedAlerts(cs, xs + xs', ys + ys')
  {
    forall i | 0 <= i < |cs| && cs[i].definition.evaluationMode.ConfirmedClose?
      ensures OfDefinition(xs + xs', cs[i].definition.id) == OfDefinition(ys + ys', cs[i].definition.id)
    {
      OfDefinitionConcat(xs, xs', cs[i].definition.id);
      OfDefinitionConcat(ys, ys', cs[i].definition.id);
    }
  }

  lemma ConfirmedStepsAgree(p: Policy, series: Series, a: Machine, b: Machine, o: Observation)
    requires SameConfirmedSide(p, series, a, b) && UniqueIds(DefinitionsFor(p.routes, series))
    requires o.series == series && o.status.Confirmed? && Gated(o) && (!o.reset ==> Accepts(p, a, o))
    ensures var x, y := Step(p, a, Input(o)), Step(p, b, Input(o));
            && SameConfirmedSide(p, series, x.machine, y.machine)
            && SameConfirmedAlerts(DefinitionsFor(p.routes, series), x.alerts, y.alerts)
  {
    var cs := DefinitionsFor(p.routes, series);
    var x, y := Step(p, a, Input(o)), Step(p, b, Input(o));
    assert Accepts(p, a, o) == Accepts(p, b, o);
    if Accepts(p, a, o) {
      AcceptanceMovesForward(p, a, o);
      AcceptanceMovesForward(p, b, o);
      InputStaysTidy(p, a, o);
      InputStaysTidy(p, b, o);
      forall i | 0 <= i < |cs|
        ensures SameConfirmedStates(cs[i].definition, series, x.machine, y.machine)
        ensures cs[i].definition.evaluationMode.ConfirmedClose?
                ==> OfDefinition(x.alerts, cs[i].definition.id) == OfDefinition(y.alerts, cs[i].definition.id)
      {
        assert SameConfirmedStates(cs[i].definition, series, a, b);
        if o.reset {
          ResetProjects(p, series, a, o, i);
          ResetProjects(p, series, b, o, i);
        } else {
          InputProjects(p, series, a, o, i);
          InputProjects(p, series, b, o, i);
        }
      }
    } else {
      RejectionChangesNothing(p, a, o);
      RejectionChangesNothing(p, b, o);
    }
  }

  lemma CommitsAgree(p: Policy, series: Series, a: Machine, b: Machine)
    requires SameConfirmedSide(p, series, a, b)
    ensures SameConfirmedSide(p, series, Step(p, a, Commit).machine, Step(p, b, Commit).machine)
  {
    var cs := DefinitionsFor(p.routes, series);
    CommitProjects(p, series, a, "");
    CommitProjects(p, series, b, "");
    forall i | 0 <= i < |cs|
      ensures SameConfirmedStates(cs[i].definition, series, Step(p, a, Commit).machine, Step(p, b, Commit).machine)
    {
      assert SameConfirmedStates(cs[i].definition, series, a, b);
      CommitProjects(p, series, a, cs[i].definition.id);
      CommitProjects(p, series, b, cs[i].definition.id);
    }
  }

  /** What an event makes of a machine that does not see provisional observations. */
  function WithoutTraffic(p: Policy, m: Machine, e: Event): Outcome {
    if e.Input? && e.observation.status.Provisional? then Outcome(m, []) else Step(p, m, e)
  }

  ghost predicate SameConfirmed(p: Policy, series: Series, x: Outcome, y: Outcome) {
    SameConfirmedSide(p, series, x.machine, y.machine) && SameConfirmedAlerts(DefinitionsFor(p.routes, series), x.alerts, y.alerts)
  }

  lemma {:induction false} EventsAgree(p: Policy, series: Series, a: Machine, b: Machine, e: Event)
    requires SameConfirmedSide(p, series, a, b) && UniqueIds(DefinitionsFor(p.routes, series))
    requires e.Input? ==> e.observation.series == series && Gated(e.observation)
    requires e.Input? && e.observation.status.Confirmed? && !e.observation.reset ==> Accepts(p, a, e.observation)
    ensures SameConfirmed(p, series, Step(p, a, e), WithoutTraffic(p, b, e))
  {
    if e.Commit? {
      CommitsAgree(p, series, a, b);
    } else if e.observation.status.Provisional? {
      ProvisionalStepIsInvisible(p, series, a, b, e.observation);
    } else {
      ConfirmedStepsAgree(p, series, a, b, e.observation);
    }
  }

  lemma {:induction false} RunWithoutTraffic(p: Policy, m: Machine, events: seq<Event>)
    requires events != []
    ensures var before := Run(p, m, WithoutProvisional(events[..|events| - 1]));
            var last := WithoutTraffic(p, before.machine, events[|events| - 1]);
            Run(p, m, WithoutProvisional(events)) == Outcome(last.machine, before.alerts + last.alerts)
  {
    RunSnoc(p, m, WithoutProvisional(events[..|events| - 1]), events[|events| - 1]);
  }

  /**
   Dropping every provisional observation leaves the confirmed features, the confirmed truth edges
   and the alerts of confirmed_close definitions as they are.
   */
  lemma {:induction false} IntrabarTrafficDoesNotInterfere(p: Policy, series: Series, m: Machine, events: seq<Event>)
    requires Tidy(m) && UniqueIds(DefinitionsFor(p.routes, series))
    requires OnSeries(events, series) && GatedRun(events) && NoConfirmedDropped(p, m, events)
    ensures SameConfirmed(p, series, Run(p, m, events), Run(p, m, WithoutProvisional(events)))
  {
    if events != [] {
      var front, last := events[..|events| - 1], events[|events| - 1];
      IntrabarTrafficDoesNotInterfere(p, series, m, front);
      var a, b := Run(p, m, front), Run(p, m, WithoutProvisional(front));
      EventsAgree(p, series, a.machine, b.machine, last);
      RunWithoutTraffic(p, m, events);
      ConfirmedAlertsConcat(DefinitionsFor(p.routes, series), a.alerts, b.alerts, Step(p, a.machine, last).alerts,
                            WithoutTraffic(p, b.machine, last).alerts);
    }
  }
}
