/** The bounded incremental features answer as if the whole history had been kept. */
module FeatureHistory {
  import opened Wrappers
  import opened Model
  import opened Rules
  import opened SeriesMachine
  import opened Redelivery

  function ColorsOf(bars: seq<Candle>): (colors: seq<Color>)
    ensures |colors| == |bars|
  {
    seq(|bars|, i requires 0 <= i < |bars| => bars[i].Color())
  }

  // ----- The unbounded history of a run -----

  /** All confirmed bars accepted since the last accepted reset, which brings its own history. */
  function ConfirmedBars(p: Policy, m: Machine, events: seq<Event>): seq<Candle> {
    if events == [] then []
    else
      var before, last := events[..|events| - 1], events[|events| - 1];
      var bars := ConfirmedBars(p, m, before);
      if last.Commit? || !Accepts(p, Run(p, m, before).machine, last.observation) then bars
      else if last.observation.reset then last.observation.history + [last.observation.candle]
      else if last.observation.status.Confirmed? then bars + [last.observation.candle]
      else bars
  }

  /** The accepted provisional frames of the bar that is forming, since the last confirmed bar. */
  function FormingFrames(p: Policy, m: Machine, events: seq<Event>): seq<Candle> {
    if events == [] then []
    else
      var before, last := events[..|events| - 1], events[|events| - 1];
      var frames := FormingFrames(p, m, before);
      if last.Commit? || !Accepts(p, Run(p, m, before).machine, last.observation) then frames
      else if last.observation.status.Confirmed? then []
      else OfBar(frames, last.observation.candle.openTime) + [last.observation.candle]
  }

  /** The frames, if they belong to the bar opening at the given time. */
  function OfBar(frames: seq<Candle>, openTime: Time): seq<Candle> {
    if frames != [] && frames[|frames| - 1].openTime == openTime then frames else []
  }

  /** The colour of the last frame that is not a doji. */
  function LastColor(frames: seq<Candle>): Option<Color> {
    if frames == [] then None
    else if !frames[|frames| - 1].Color().Doji? then Some(frames[|frames| - 1].Color())
    else LastColor(frames[..|frames| - 1])
  }

  // ----- Bounded features -----

  predicate Remembers(f: Feature, bars: seq<Candle>) {
    f.candles == LastN(bars, 500) && f.colors == LastN(ColorsOf(bars), 100)
  }

  lemma LastNSnoc<T>(s: seq<T>, x: T, n: nat)
    ensures LastN(LastN(s, n) + [x], n) == LastN(s + [x], n)
  {
  }

  lemma AdvancedRemembers(f: Feature, bars: seq<Candle>, o: Observation)
    requires Remembers(f, bars) && o.status.Confirmed?
    ensures Remembers(Advanced(f, o), bars + [o.candle])
  {
    LastNSnoc(bars, o.candle, 500);
    LastNSnoc(ColorsOf(bars), o.candle.Color(), 100);
    assert ColorsOf(bars + [o.candle]) == ColorsOf(bars) + [o.candle.Color()];
  }

  lemma {:induction false} ReplayedRemembers(bars: seq<Candle>)
    ensures Remembers(Replayed(bars), bars)
  {
    if bars != [] {
      ReplayedRemembers(bars[..|bars| - 1]);
      AdvancedRemembers(Replayed(bars[..|bars| - 1]), bars[..|bars| - 1], BarObservation(bars[|bars| - 1]));
      assert bars == bars[..|bars| - 1] + [bars[|bars| - 1]];
    }
  }

  predicate RemembersForming(f: Feature, frames: seq<Candle>) {
    && f.formingBar == (if frames == [] then ZERO_TIME else frames[|frames| - 1].openTime)
    && f.formingColor == LastColor(frames)
  }

  /** What the features of a series retain of the unbounded history. */
  predicate Faithful(s: SeriesState, bars: seq<Candle>, frames: seq<Candle>) {
    && Remembers(s.confirmed, bars) && Remembers(s.intrabar, bars)
    && RemembersForming(s.confirmed, []) && RemembersForming(s.intrabar, frames)
    && (s.confirmed.lastClose.Some? ==> s.intrabar.lastClose.Some?)
  }

  lemma ResetIsFaithful(p: Policy, m: Machine, o: Observation)
    requires Gated(o) && o.reset && Accepts(p, m, o)
    ensures Faithful(Now(p, Step(p, m, Input(o)).machine), o.history + [o.candle], [])
  {
    ReplayedRemembers(o.history);
    AdvancedRemembers(Replayed(o.history), o.history, o);
  }

  lemma InputIsFaithful(p: Policy, m: Machine, o: Observation, bars: seq<Candle>, frames: seq<Candle>)
    requires Gated(o) && !o.reset && Accepts(p, m, o) && Faithful(Now(p, m), bars, frames)
    ensures Faithful(Now(p, Step(p, m, Input(o)).machine),
                     if o.status.Confirmed? then bars + [o.candle] else bars,
                     if o.status.Confirmed? then [] else OfBar(frames, o.candle.openTime) + [o.candle])
  {
    var s := Now(p, m);
    var seen := WithZones(o, s);
    if o.status.Confirmed? {
      AdvancedRemembers(s.confirmed, bars, seen);
    } else {
      var kept := OfBar(frames, o.candle.openTime);
      assert (kept + [o.candle])[..|kept|] == kept;
      assert FeatureFor(p.clone, seen, s) == s.intrabar;
    }
  }

  lemma {:induction false} FeaturesRefineHistory(p: Policy, events: seq<Event>)
    requires GatedRun(events)
    ensures Faithful(Now(p, Run(p, Start(EMPTY_CELL), events).machine),
                     ConfirmedBars(p, Start(EMPTY_CELL), events), FormingFrames(p, Start(EMPTY_CELL), events))
  {
    var start := Start(EMPTY_CELL);
    if events != [] {
      var before, last := events[..|events| - 1], events[|events| - 1];
      FeaturesRefineHistory(p, before);
      var m := Run(p, start, before).machine;
      if last.Input? {
        if !Accepts(p, m, last.observation) {
          RejectionChangesNothing(p, m, last.observation);
        } else if last.observation.reset {
          ResetIsFaithful(p, m, last.observation);
        } else {
          InputIsFaithful(p, m, last.observation, ConfirmedBars(p, start, before), FormingFrames(p, start, before));
        }
      }
    }
  }

  /** The stored colours are those of the most recent stored candles. */
  lemma ColorsMatchCandles(f: Feature, bars: seq<Candle>)
    requires Remembers(f, bars)
    ensures |f.colors| == (if |bars| < 100 then |bars| else 100)
    ensures f.colors == ColorsOf(LastN(f.candles, 100))
  {
    assert ColorsOf(LastN(f.candles, 100)) == LastN(ColorsOf(bars), 100);
  }

  // ----- Rules answer as on the unbounded history -----

  /** The observation completes a streak of rule.count bars of the rule's colour. */
  predicate StreakOver(rule: Rule, bars: seq<Candle>, o: Observation) {
    var all := bars + [o.candle];
    rule.count <= |all|
    && forall i :: 0 <= i < |all| && |all| - rule.count <= i ==> Toward(all[i].Color()) == rule.direction
  }

  lemma StreakSeesEnough(rule: Rule, f: Feature, bars: seq<Candle>, o: Observation)
    requires Validate(rule) && rule.kind.CandleStreak? && Remembers(f, bars)
    ensures Evaluate(rule, o, f).Truth() <==> StreakOver(rule, bars, o)
    ensures Evaluate(rule, o, f).known
  {
    var colors := f.colors + [o.candle.Color()];
    var all := bars + [o.candle];
    var shift := |all| - |colors|;
    assert ValidateAt(rule, 0) && 2 <= rule.count <= 100;
    assert Evaluate(rule, o, f) == EvaluateLeaf(rule, o, f) == Verdict(IsStreak(rule, colors), true, []);
    assert forall i :: 0 <= i < |colors| ==> colors[i] == all[i + shift].Color();
    assert forall i :: shift <= i < |all| ==> all[i].Color() == colors[i - shift];
  }

  /** The observation turns the colour of its forming bar the way the rule asks for. */
  predicate TurnsColor(rule: Rule, frames: seq<Candle>, o: Observation) {
    var from, to := LastColor(OfBar(frames, o.candle.openTime)), o.candle.Color();
    && o.status.Provisional? && from.Some? && from.value != to && !to.Doji?
    && (rule.direction == Either || rule.direction == if to.Green? then RedToGreen else GreenToRed)
  }

  /** ... late enough in the bar. */
  predicate FlipOver(rule: Rule, frames: seq<Candle>, o: Observation) {
    && TurnsColor(rule, frames, o) && o.barLength.Some?
    && (o.occurredAt - o.candle.openTime) as real / o.barLength.value as real * 100.0 >= rule.minElapsedPercent
  }

  lemma {:induction false} LastColorIsNoDoji(frames: seq<Candle>)
    ensures LastColor(frames) != Some(Doji)
  {
    if frames != [] {
      LastColorIsNoDoji(frames[..|frames| - 1]);
    }
  }

  lemma FlipSeesEnough(rule: Rule, f: Feature, frames: seq<Candle>, o: Observation)
    requires rule.kind.CandleColorFlip? && RemembersForming(f, frames) && Gated(o)
    ensures Evaluate(rule, o, f).Truth() <==> FlipOver(rule, frames, o)
    ensures Evaluate(rule, o, f).known <==> (TurnsColor(rule, frames, o) ==> o.barLength.Some?)
  {
    LastColorIsNoDoji(frames);
  }

  /** The feature state the next observation is evaluated on, after a run that started empty. */
  function NextFeature(p: Policy, events: seq<Event>, next: Observation): Feature {
    FeatureFor(p.clone, next, Now(p, Run(p, Start(EMPTY_CELL), events).machine))
  }

  /** After any run a streak rule is true of the next observation exactly when it is true of the whole history. */
  lemma StreaksSeeTheWholeHistory(p: Policy, events: seq<Event>, rule: Rule, next: Observation)
    requires GatedRun(events) && Gated(next)
    requires Validate(rule) && rule.kind.CandleStreak?
    ensures Evaluate(rule, next, NextFeature(p, events, next)).Truth()
            <==> StreakOver(rule, ConfirmedBars(p, Start(EMPTY_CELL), events), next)
  {
    FeaturesRefineHistory(p, events);
    StreakSeesEnough(rule, NextFeature(p, events, next), ConfirmedBars(p, Start(EMPTY_CELL), events), next);
  }

  /** A provisional frame is evaluated on features that know all frames of its bar. */
  lemma {:induction false} NextKnowsTheBar(p: Policy, events: seq<Event>, next: Observation)
    requires GatedRun(events) && next.status.Provisional?
    ensures RemembersForming(NextFeature(p, events, next), FormingFrames(p, Start(EMPTY_CELL), events))
  {
    FeaturesRefineHistory(p, events);
  }

  lemma OnlyFramesFlip(rule: Rule, f: Feature, o: Observation)
    requires rule.kind.CandleColorFlip? && !o.status.Provisional?
    ensures Evaluate(rule, o, f) == NO_MATCH
  {
  }

  /** ... and a flip rule exactly when it is true of all frames of the forming bar; without a bar length a turn stays unknown. */
  lemma {:induction false} FlipsSeeTheWholeBar(p: Policy, events: seq<Event>, rule: Rule, next: Observation)
    requires GatedRun(events) && Gated(next) && rule.kind.CandleColorFlip?
    ensures Evaluate(rule, next, NextFeature(p, events, next)).Truth()
            <==> FlipOver(rule, FormingFrames(p, Start(EMPTY_CELL), events), next)
    ensures Evaluate(rule, next, NextFeature(p, events, next)).known
            <==> (TurnsColor(rule, FormingFrames(p, Start(EMPTY_CELL), events), next) ==> next.barLength.Some?)
  {
    if next.status.Provisional? {
      NextKnowsTheBar(p, events, next);
      FlipSeesEnough(rule, NextFeature(p, events, next), FormingFrames(p, Start(EMPTY_CELL), events), next);
    } else {
      OnlyFramesFlip(rule, NextFeature(p, events, next), next);
    }
  }

  // ----- Zones -----

  /** The zones of the last accepted input that brought some; a reset replaces them in any case. */
  function CurrentZones(p: Policy, m: Machine, events: seq<Event>): seq<Zone> {
    if events == [] then []
    else
      var before, last := events[..|events| - 1], events[|events| - 1];
      if last.Input? && Accepts(p, Run(p, m, before).machine, last.observation)
         && (last.observation.reset || last.observation.activeZones != [])
      then last.observation.activeZones
      else CurrentZones(p, m, before)
  }

  lemma {:induction false} ZonesRefineHistory(p: Policy, events: seq<Event>)
    ensures Now(p, Run(p, Start(EMPTY_CELL), events).machine).activeZones == CurrentZones(p, Start(EMPTY_CELL), events)
  {
    if events != [] {
      var before, last := events[..|events| - 1], events[|events| - 1];
      ZonesRefineHistory(p, before);
      ZonesAfter(p, Run(p, Start(EMPTY_CELL), before).machine, last);
    }
  }

  lemma {:induction false} ZonesAfter(p: Policy, m: Machine, e: Event)
    ensures Now(p, Step(p, m, e).machine).activeZones
            == if e.Input? && Accepts(p, m, e.observation) && (e.observation.reset || e.observation.activeZones != [])
               then e.observation.activeZones else Now(p, m).activeZones
  {
  }

  /**
   After any run a provisional frame without zones is evaluated with those of the last accepted input
   that brought some; every other observation is evaluated as it is.
   */
  lemma {:induction false} ZonesAreInherited(p: Policy, events: seq<Event>, next: Observation)
    ensures WithZones(next, Now(p, Run(p, Start(EMPTY_CELL), events).machine))
            == if next.status.Provisional? && next.activeZones == []
               then next.(activeZones := CurrentZones(p, Start(EMPTY_CELL), events)) else next
  {
    ZonesRefineHistory(p, events);
  }
}
