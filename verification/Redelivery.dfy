/** At-least-once delivery has once-only effects. */
module Redelivery {
  import opened Wrappers
  import opened Model
  import opened SeriesMachine

  /** Open time first, then revision; of one revision the confirmed close comes after every provisional frame. */
  datatype Position = Position(openTime: Time, revision: nat, confirmed: bool) {
    predicate Before(that: Position) {
      || openTime < that.openTime
      || (openTime == that.openTime && revision < that.revision)
      || (openTime == that.openTime && revision == that.revision && !confirmed && that.confirmed)
    }
  }

  function PositionOf(o: Observation): Position {
    Position(o.candle.openTime, o.revision, o.status.Confirmed?)
  }

  function Cursor(s: SeriesState): Position {
    Position(s.lastOpenTime, s.lastRevision, s.lastStatus.Confirmed?)
  }

  predicate HasCursor(s: SeriesState) {
    s.lastOpenTime != ZERO_TIME
  }

  /** An accepted observation moves the cursor strictly forward, an accepted reset the reset time. */
  lemma AcceptanceMovesForward(p: Policy, m: Machine, o: Observation)
    requires Accepts(p, m, o)
    ensures var s, t := Now(p, m), Now(p, Step(p, m, Input(o)).machine);
            && Cursor(t) == PositionOf(o)
            && (!o.reset && HasCursor(s) ==> Cursor(s).Before(Cursor(t)))
            && (!o.reset ==> t.lastResetAt == s.lastResetAt && t.lastResetId == s.lastResetId)
            && (o.reset ==> t.lastResetAt == o.occurredAt && t.lastResetId == o.sourceEventId)
            && (o.reset && s.lastResetAt != ZERO_TIME ==> s.lastResetAt < t.lastResetAt)
  {
  }

  lemma RejectionChangesNothing(p: Policy, m: Machine, o: Observation)
    requires !Accepts(p, m, o)
    ensures Step(p, m, Input(o)) == Outcome(m, [])
  {
  }

  lemma CommitKeepsCursors(p: Policy, m: Machine)
    ensures var s, t := Now(p, m), Now(p, Step(p, m, Commit).machine);
            Cursor(t) == Cursor(s) && t.lastResetAt == s.lastResetAt && t.lastResetId == s.lastResetId
  {
  }

  // ----- What is accepted -----

  /** The last accepted input of a run. */
  function LastAccepted(p: Policy, m: Machine, events: seq<Event>): Option<Observation> {
    if events == [] then None
    else
      var before, last := events[..|events| - 1], events[|events| - 1];
      if last.Input? && Accepts(p, Run(p, m, before).machine, last.observation) then Some(last.observation)
      else LastAccepted(p, m, before)
  }

  /** ... and the last accepted reset. */
  function LastReset(p: Policy, m: Machine, events: seq<Event>): Option<Observation> {
    if events == [] then None
    else
      var before, last := events[..|events| - 1], events[|events| - 1];
      if last.Input? && last.observation.reset && Accepts(p, Run(p, m, before).machine, last.observation)
      then Some(last.observation)
      else LastReset(p, m, before)
  }

  /** The series state knows the last accepted input and the last accepted reset. */
  predicate KnowsLast(s: SeriesState, input: Option<Observation>, reset: Option<Observation>) {
    && (if input.None? then s.lastOpenTime == ZERO_TIME
        else s.lastOpenTime == input.value.candle.openTime && s.lastOpenTime != ZERO_TIME
             && s.lastRevision == input.value.revision && s.lastStatus == input.value.status)
    && (if reset.None? then s.lastResetId == "" && s.lastResetAt == ZERO_TIME
        else s.lastResetId == reset.value.sourceEventId && s.lastResetAt == reset.value.occurredAt && s.lastResetAt != ZERO_TIME)
  }

  lemma {:induction false} InputIsKnown(p: Policy, m: Machine, o: Observation, input: Option<Observation>, reset: Option<Observation>)
    requires Gated(o) && Accepts(p, m, o) && KnowsLast(Now(p, m), input, reset)
    ensures KnowsLast(Now(p, Step(p, m, Input(o)).machine), Some(o), if o.reset then Some(o) else reset)
  {
    AcceptanceMovesForward(p, m, o);
  }

  lemma {:induction false} RunKnowsLast(p: Policy, events: seq<Event>)
    requires GatedRun(events)
    ensures KnowsLast(Now(p, Run(p, Start(EMPTY_CELL), events).machine),
                      LastAccepted(p, Start(EMPTY_CELL), events), LastReset(p, Start(EMPTY_CELL), events))
  {
    var start := Start(EMPTY_CELL);
    if events != [] {
      var before, last := events[..|events| - 1], events[|events| - 1];
      RunKnowsLast(p, before);
      var m := Run(p, start, before).machine;
      if last.Input? {
        if Accepts(p, m, last.observation) {
          InputIsKnown(p, m, last.observation, LastAccepted(p, start, before), LastReset(p, start, before));
        } else {
          RejectionChangesNothing(p, m, last.observation);
        }
      }
    }
  }

  /** The input lies ahead of another one: open time decides, then revision, then a close after its provisional frames. */
  predicate Ahead(o: Observation, last: Observation) {
    || last.candle.openTime < o.candle.openTime
    || (last.candle.openTime == o.candle.openTime && last.revision < o.revision)
    || (last.candle.openTime == o.candle.openTime && last.revision == o.revision
        && last.status == Provisional && o.status == Confirmed)
  }

  /**
   After any run a reset is accepted exactly when it is another one and later than the last accepted
   reset; any other input exactly when it lies ahead of the last accepted input.
   */
  lemma {:induction false} AcceptedExactly(p: Policy, events: seq<Event>, o: Observation)
    requires GatedRun(events) && Gated(o)
    ensures var input, reset := LastAccepted(p, Start(EMPTY_CELL), events), LastReset(p, Start(EMPTY_CELL), events);
            Accepts(p, Run(p, Start(EMPTY_CELL), events).machine, o)
            <==> if o.reset
                 then reset.None? || (o.sourceEventId != reset.value.sourceEventId && reset.value.occurredAt < o.occurredAt)
                 else input.None? || Ahead(o, input.value)
  {
    RunKnowsLast(p, events);
    LastIsGated(p, Start(EMPTY_CELL), events);
  }

  lemma {:induction false} LastIsGated(p: Policy, m: Machine, events: seq<Event>)
    requires GatedRun(events)
    ensures LastAccepted(p, m, events).Some? ==> Gated(LastAccepted(p, m, events).value)
  {
    if events != [] {
      LastIsGated(p, m, events[..|events| - 1]);
    }
  }

  /** From here on the observation can only be rejected. */
  predicate Covered(s: SeriesState, o: Observation) {
    if o.reset then s.lastResetAt != ZERO_TIME && o.occurredAt <= s.lastResetAt
    else HasCursor(s) && !Cursor(s).Before(PositionOf(o))
  }

  /** The reset cursor names a reset of the run. */
  predicate KnownReset(s: SeriesState, events: seq<Event>) {
    || s.lastResetId == ""
    || exists i :: 0 <= i < |events| && events[i].Input? && events[i].observation.reset
                   && events[i].observation.sourceEventId == s.lastResetId
                   && events[i].observation.occurredAt == s.lastResetAt
  }

  predicate GatedRun(events: seq<Event>) {
    forall i :: 0 <= i < |events| && events[i].Input? ==> Gated(events[i].observation)
  }

  /** Two resets with one source event ID are one reset. */
  predicate ResetIdsIdentify(events: seq<Event>) {
    forall i, j :: 0 <= i < |events| && 0 <= j < |events| && events[i].Input? && events[j].Input?
                   && events[i].observation.reset && events[j].observation.reset
                   && events[i].observation.sourceEventId == events[j].observation.sourceEventId
                   ==> events[i] == events[j]
  }

  /** The event does not move the cursor backwards by a reset. */
  predicate ForwardStep(p: Policy, m: Machine, e: Event) {
    e.Input? && e.observation.reset && Accepts(p, m, e.observation) && HasCursor(Now(p, m))
    ==> !PositionOf(e.observation).Before(Cursor(Now(p, m)))
  }

  /** No accepted reset moves the cursor backwards. */
  ghost predicate ResetsMoveForward(p: Policy, m: Machine, events: seq<Event>) {
    events == [] ||
    var before, last := events[..|events| - 1], events[|events| - 1];
    var reached := Run(p, m, before).machine;
    ResetsMoveForward(p, m, before) && ForwardStep(p, reached, last)
  }

  ghost predicate AllCovered(s: SeriesState, events: seq<Event>) {
    forall i :: 0 <= i < |events| && events[i].Input? ==> Covered(s, events[i].observation)
  }

  lemma CoverageLasts(p: Policy, m: Machine, e: Event, o: Observation)
    requires Covered(Now(p, m), o) && ForwardStep(p, m, e)
    requires e.Input? ==> Gated(e.observation)
    ensures Covered(Now(p, Step(p, m, e).machine), o)
  {
    match e
    case Commit => CommitKeepsCursors(p, m);
    case Input(input) =>
      if Accepts(p, m, input) {
        AcceptanceMovesForward(p, m, input);
      } else {
        RejectionChangesNothing(p, m, input);
      }
  }

  lemma DeliveryCovers(p: Policy, m: Machine, o: Observation)
    requires Gated(o)
    requires o.reset && o.sourceEventId == Now(p, m).lastResetId
             ==> o.occurredAt == Now(p, m).lastResetAt
    ensures Covered(Now(p, Step(p, m, Input(o)).machine), o)
  {
    if Accepts(p, m, o) {
      AcceptanceMovesForward(p, m, o);
    } else {
      RejectionChangesNothing(p, m, o);
    }
  }

  lemma ResetsStayKnown(p: Policy, m: Machine, before: seq<Event>, e: Event)
    requires KnownReset(Now(p, m), before)
    ensures KnownReset(Now(p, Step(p, m, e).machine), before + [e])
  {
    var s, t := Now(p, m), Now(p, Step(p, m, e).machine);
    var events := before + [e];
    assert events[|before|] == e;
    match e {
      case Commit => CommitKeepsCursors(p, m);
      case Input(o) =>
        if Accepts(p, m, o) {
          AcceptanceMovesForward(p, m, o);
        } else {
          RejectionChangesNothing(p, m, o);
        }
    }
    if t.lastResetId == s.lastResetId && t.lastResetAt == s.lastResetAt && s.lastResetId != "" {
      var i :| 0 <= i < |before| && before[i].Input? && before[i].observation.reset
               && before[i].observation.sourceEventId == s.lastResetId
               && before[i].observation.occurredAt == s.lastResetAt;
      assert events[i] == before[i];
    }
  }

  lemma {:induction false} ProcessedIsCovered(p: Policy, events: seq<Event>)
    requires GatedRun(events) && ResetIdsIdentify(events) && ResetsMoveForward(p, Start(EMPTY_CELL), events)
    ensures var s := Now(p, Run(p, Start(EMPTY_CELL), events).machine);
            AllCovered(s, events) && KnownReset(s, events)
  {
    if events != [] {
      var before, last := events[..|events| - 1], events[|events| - 1];
      ProcessedIsCovered(p, before);
      var m := Run(p, Start(EMPTY_CELL), before).machine;
      var t := Now(p, Step(p, m, last).machine);
      assert before + [last] == events;
      ResetsStayKnown(p, m, before, last);
      forall i | 0 <= i < |events| && events[i].Input?
        ensures Covered(t, events[i].observation)
      {
        if i < |before| {
          assert before[i] == events[i];
          CoverageLasts(p, m, last, events[i].observation);
        } else {
          RepeatedResetIdIsOld(p, m, before, last.observation);
          DeliveryCovers(p, m, last.observation);
        }
      }
    }
  }

  lemma RepeatedResetIdIsOld(p: Policy, m: Machine, before: seq<Event>, o: Observation)
    requires KnownReset(Now(p, m), before) && Gated(o) && ResetIdsIdentify(before + [Input(o)])
    ensures o.reset && o.sourceEventId == Now(p, m).lastResetId ==> o.occurredAt == Now(p, m).lastResetAt
  {
    var s := Now(p, m);
    var events := before + [Input(o)];
    if o.reset && o.sourceEventId == s.lastResetId {
      var i :| 0 <= i < |before| && before[i].Input? && before[i].observation.reset
               && before[i].observation.sourceEventId == s.lastResetId
               && before[i].observation.occurredAt == s.lastResetAt;
      assert events[i] == before[i] && events[|before|] == Input(o);
    }
  }

  /** again[i] marks event i as a repetition of an earlier input. */
  ghost predicate Repeats(events: seq<Event>, again: seq<bool>) {
    && |again| == |events|
    && forall i :: 0 <= i < |events| && again[i] ==> events[i].Input? && events[i] in events[..i]
  }

  function FirstDeliveries(events: seq<Event>, again: seq<bool>): seq<Event>
    requires |again| == |events|
  {
    if events == [] then []
    else
      var n := |events| - 1;
      var before := FirstDeliveries(events[..n], again[..n]);
      if again[n] then before else before + [events[n]]
  }

  /**
   Redelivering any processed observations anywhere later, in the same batch or another one, ends in
   the same state and emits the same alerts as delivering each once.
   */
  lemma {:induction false} RedeliveryIsHarmless(p: Policy, events: seq<Event>, again: seq<bool>)
    requires Repeats(events, again)
    requires GatedRun(events) && ResetIdsIdentify(events) && ResetsMoveForward(p, Start(EMPTY_CELL), events)
    ensures Run(p, Start(EMPTY_CELL), events) == Run(p, Start(EMPTY_CELL), FirstDeliveries(events, again))
  {
    if events != [] {
      var n := |events| - 1;
      var before, last := events[..n], events[n];
      RepeatsBefore(events, again);
      RedeliveryIsHarmless(p, before, again[..n]);
      if again[n] {
        ProcessedIsSpent(p, before, last);
        assert Run(p, Start(EMPTY_CELL), before).alerts + [] == Run(p, Start(EMPTY_CELL), before).alerts;
      } else {
        RunSnoc(p, Start(EMPTY_CELL), FirstDeliveries(before, again[..n]), last);
      }
    }
  }

  lemma {:induction false} RepeatsBefore(events: seq<Event>, again: seq<bool>)
    requires events != [] && Repeats(events, again)
    ensures var n := |events| - 1;
            && Repeats(events[..n], again[..n])
            && (again[n] ==> events[n].Input? && events[n] in events[..n])
  {
    var n := |events| - 1;
    forall i | 0 <= i < n && again[i]
      ensures events[..n][i] in events[..n][..i]
    {
      assert events[..n][..i] == events[..i];
    }
  }

  /** Delivering a processed observation once more changes nothing. */
  lemma {:induction false} ProcessedIsSpent(p: Policy, events: seq<Event>, again: Event)
    requires again.Input? && again in events
    requires GatedRun(events) && ResetIdsIdentify(events) && ResetsMoveForward(p, Start(EMPTY_CELL), events)
    ensures var m := Run(p, Start(EMPTY_CELL), events).machine;
            Step(p, m, again) == Outcome(m, [])
  {
    var m := Run(p, Start(EMPTY_CELL), events).machine;
    ProcessedIsCovered(p, events);
    var i :| 0 <= i < |events| && events[i] == again;
    assert Covered(Now(p, m), again.observation);
    RejectionChangesNothing(p, m, again.observation);
  }

  /**
   Why resets must not move backwards: after a reset an earlier observation is processed a second
   time exactly when it lies ahead of the reset's own position.
   */
  lemma ResetReopensExactlyWhatLiesAhead(p: Policy, m: Machine, reset: Observation, o: Observation)
    requires reset.reset && Gated(reset) && Accepts(p, m, reset)
    requires !o.reset && Gated(o)
    ensures Accepts(p, Step(p, m, Input(reset)).machine, o) <==> PositionOf(reset).Before(PositionOf(o))
  {
    AcceptanceMovesForward(p, m, reset);
  }
}
