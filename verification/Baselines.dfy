/**
 Indicator crosses over whole runs: which close and which baseline an observation is compared with,
 and so exactly when a cross is true of it.
 */
module Baselines {
  import opened Wrappers
  import opened Model
  import opened Rules
  import opened SeriesMachine
  import opened Redelivery
  import opened Features
  import opened FeatureHistory

  /**
   The indicators whose values a cadence still knows, oldest first. A commit forgets those of both
   cadences and a close those of the intrabar one, unless clones keep their baselines.
   */
  function Readings(p: Policy, m: Machine, events: seq<Event>, provisional: bool): seq<Indicator> {
    if events == [] then []
    else
      var before, last := events[..|events| - 1], events[|events| - 1];
      var known := Readings(p, m, before, provisional);
      if last.Commit? then Survivors(p.clone, known)
      else if !Accepts(p, Run(p, m, before).machine, last.observation) then known
      else if last.observation.status.Provisional? then known + if provisional then last.observation.indicators else []
      else
        var closed := (if last.observation.reset then [] else Readings(p, m, before, false)) + last.observation.indicators;
        if provisional then Survivors(p.clone, closed) else closed
  }

  function Survivors(mode: CloneMode, known: seq<Indicator>): seq<Indicator> {
    if mode.AsWritten? then [] else known
  }

  /** The close the next observation of a cadence is compared with. */
  function PreviousClose(bars: seq<Candle>, frames: seq<Candle>, provisional: bool): Option<real> {
    if provisional && frames != [] then Some(frames[|frames| - 1].close)
    else if bars != [] then Some(bars[|bars| - 1].close)
    else None
  }

  /** The baselines are the last ready readings. */
  ghost predicate Keeps(f: Feature, readings: seq<Indicator>) {
    forall key: IndicatorKey ::
      && (forall i :: IsLastReady(key, readings, i) ==> key in f.indicators && f.indicators[key] == readings[i].value)
      && (NoneReady(key, readings) ==> key !in f.indicators)
  }

  lemma {:induction false} SomeIsLast(key: IndicatorKey, indicators: seq<Indicator>) returns (i: int)
    requires !NoneReady(key, indicators)
    ensures IsLastReady(key, indicators, i)
  {
    var n := |indicators| - 1;
    if indicators[n].ready && indicators[n].Key() == key {
      i := n;
    } else {
      assert NoneReady(key, indicators[..n]) ==> NoneReady(key, indicators);
      i := SomeIsLast(key, indicators[..n]);
    }
  }

  /** Keeping readings and taking more is keeping all of them. */
  lemma {:induction false} KeepsMore(f: Feature, next: Feature, readings: seq<Indicator>, more: seq<Indicator>)
    requires Keeps(f, readings) && TakesReady(f.indicators, next.indicators, more)
    ensures Keeps(next, readings + more)
  {
    var all := readings + more;
    forall key: IndicatorKey
      ensures forall i :: IsLastReady(key, all, i) ==> key in next.indicators && next.indicators[key] == all[i].value
      ensures NoneReady(key, all) ==> key !in next.indicators
    {
      if NoneReady(key, more) {
        assert forall i :: 0 <= i < |more| ==> all[|readings| + i] == more[i];
        OlderReadings(key, readings, more);
      } else {
        var j := SomeIsLast(key, more);
        LaterReadings(key, readings, more, j);
      }
    }
  }

  lemma {:induction false} OlderReadings(key: IndicatorKey, readings: seq<Indicator>, more: seq<Indicator>)
    requires NoneReady(key, more)
    ensures NoneReady(key, readings + more) ==> NoneReady(key, readings)
    ensures forall i :: IsLastReady(key, readings + more, i) ==> IsLastReady(key, readings, i) && (readings + more)[i] == readings[i]
  {
    var all := readings + more;
    assert forall i :: 0 <= i < |readings| ==> all[i] == readings[i];
    assert forall i :: |readings| <= i < |all| ==> all[i] == more[i - |readings|];
  }

  lemma {:induction false} LaterReadings(key: IndicatorKey, readings: seq<Indicator>, more: seq<Indicator>, j: int)
    requires IsLastReady(key, more, j)
    ensures !NoneReady(key, readings + more)
    ensures forall i :: IsLastReady(key, readings + more, i) ==> (readings + more)[i] == more[j]
  {
    var all := readings + more;
    var at := |readings| + j;
    assert all[at] == more[j];
    assert forall i :: |readings| <= i < |all| ==> all[i] == more[i - |readings|];
  }

  lemma {:induction false} AdvancedKeeps(f: Feature, o: Observation, readings: seq<Indicator>)
    requires Keeps(f, readings)
    ensures Keeps(Advanced(f, o), readings + o.indicators)
  {
    AbsorbingTakesReady(f.indicators, o.indicators);
    KeepsMore(f, Advanced(f, o), readings, o.indicators);
  }

  lemma ClonedKeeps(mode: CloneMode, f: Feature, readings: seq<Indicator>)
    requires Keeps(f, readings)
    ensures Keeps(Cloned(mode, f), Survivors(mode, readings))
  {
  }

  lemma {:induction false} ReplayedKeepsNothing(bars: seq<Candle>)
    ensures Keeps(Replayed(bars), [])
  {
    if bars != [] {
      var n := |bars| - 1;
      ReplayedKeepsNothing(bars[..n]);
      AdvancedKeeps(Replayed(bars[..n]), BarObservation(bars[n]), []);
    }
  }

  /** What the two cadences know at any point of a run. */
  ghost predicate Knows(s: SeriesState, confirmed: seq<Indicator>, intrabar: seq<Indicator>) {
    Keeps(s.confirmed, confirmed) && Keeps(s.intrabar, intrabar)
  }

  lemma {:induction false} ResetKnows(p: Policy, m: Machine, o: Observation)
    requires Gated(o) && o.reset && Accepts(p, m, o)
    ensures Knows(Now(p, Step(p, m, Input(o)).machine), [] + o.indicators, Survivors(p.clone, [] + o.indicators))
  {
    ReplayedKeepsNothing(o.history);
    AdvancedKeeps(Replayed(o.history), o, []);
    ClonedKeeps(p.clone, Advanced(Replayed(o.history), o), [] + o.indicators);
  }

  lemma {:induction false} CloseKnows(p: Policy, m: Machine, o: Observation, confirmed: seq<Indicator>, intrabar: seq<Indicator>)
    requires Gated(o) && !o.reset && o.status.Confirmed? && Accepts(p, m, o) && Knows(Now(p, m), confirmed, intrabar)
    ensures Knows(Now(p, Step(p, m, Input(o)).machine), confirmed + o.indicators, Survivors(p.clone, confirmed + o.indicators))
  {
    AdvancedKeeps(Now(p, m).confirmed, o, confirmed);
    ClonedKeeps(p.clone, Advanced(Now(p, m).confirmed, o), confirmed + o.indicators);
  }

  lemma {:induction false} FrameKnows(p: Policy, m: Machine, o: Observation, confirmed: seq<Indicator>, intrabar: seq<Indicator>)
    requires Gated(o) && !o.reset && o.status.Provisional? && Accepts(p, m, o) && Knows(Now(p, m), confirmed, intrabar)
    requires Now(p, m).confirmed.lastClose.Some? ==> Now(p, m).intrabar.lastClose.Some?
    ensures Knows(Now(p, Step(p, m, Input(o)).machine), confirmed, intrabar + o.indicators)
  {
    var seen := WithZones(o, Now(p, m));
    assert FeatureFor(p.clone, seen, Now(p, m)) == Now(p, m).intrabar;
    AdvancedKeeps(Now(p, m).intrabar, seen, intrabar);
  }

  lemma {:induction false} CommitKnows(p: Policy, m: Machine, confirmed: seq<Indicator>, intrabar: seq<Indicator>)
    requires Knows(Now(p, m), confirmed, intrabar)
    ensures Knows(Now(p, Step(p, m, Commit).machine), Survivors(p.clone, confirmed), Survivors(p.clone, intrabar))
  {
    var s := Now(p, m);
    ClonedKeeps(p.clone, s.confirmed, confirmed);
    ClonedKeeps(p.clone, s.intrabar, intrabar);
    assert Now(p, Step(p, m, Commit).machine) == ClonedSeries(p.clone, s);
  }

  /** After any run the baselines of each cadence are the last ready values of the observations it still knows. */
  lemma {:induction false} BaselinesRefineReadings(p: Policy, events: seq<Event>)
    requires GatedRun(events)
    ensures Knows(Now(p, Run(p, Start(EMPTY_CELL), events).machine),
                  Readings(p, Start(EMPTY_CELL), events, false), Readings(p, Start(EMPTY_CELL), events, true))
  {
    var start := Start(EMPTY_CELL);
    if events != [] {
      var before, last := events[..|events| - 1], events[|events| - 1];
      BaselinesRefineReadings(p, before);
      FeaturesRefineHistory(p, before);
      var m := Run(p, start, before).machine;
      var confirmed, intrabar := Readings(p, start, before, false), Readings(p, start, before, true);
      if last.Commit? {
        CommitKnows(p, m, confirmed, intrabar);
      } else if !Accepts(p, m, last.observation) {
        RejectionChangesNothing(p, m, last.observation);
      } else if last.observation.reset {
        ResetKnows(p, m, last.observation);
      } else if last.observation.status.Confirmed? {
        CloseKnows(p, m, last.observation, confirmed, intrabar);
      } else {
        FrameKnows(p, m, last.observation, confirmed, intrabar);
        assert confirmed + [] == confirmed;
      }
    }
  }

  // ----- Previous closes -----

  predicate KnowsClose(s: SeriesState, bars: seq<Candle>, frames: seq<Candle>) {
    s.confirmed.lastClose == PreviousClose(bars, frames, false) && s.intrabar.lastClose == PreviousClose(bars, frames, true)
  }

  lemma {:induction false} CloseIsKnown(p: Policy, m: Machine, o: Observation, bars: seq<Candle>)
    requires o.status.Confirmed? && Accepts(p, m, o)
    ensures KnowsClose(Now(p, Step(p, m, Input(o)).machine), bars + [o.candle], [])
  {
  }

  lemma {:induction false} FrameIsKnown(p: Policy, m: Machine, o: Observation, bars: seq<Candle>, frames: seq<Candle>)
    requires o.status.Provisional? && !o.reset && Accepts(p, m, o) && KnowsClose(Now(p, m), bars, frames)
    ensures KnowsClose(Now(p, Step(p, m, Input(o)).machine), bars, OfBar(frames, o.candle.openTime) + [o.candle])
  {
  }

  /** After any run the last close of the closed bars, or of the forming one, is what the next close is compared with. */
  lemma {:induction false} ClosesRefineHistory(p: Policy, events: seq<Event>)
    requires GatedRun(events)
    ensures KnowsClose(Now(p, Run(p, Start(EMPTY_CELL), events).machine),
                       ConfirmedBars(p, Start(EMPTY_CELL), events), FormingFrames(p, Start(EMPTY_CELL), events))
  {
    var start := Start(EMPTY_CELL);
    if events != [] {
      var before, last := events[..|events| - 1], events[|events| - 1];
      ClosesRefineHistory(p, before);
      var m := Run(p, start, before).machine;
      if last.Input? {
        if Accepts(p, m, last.observation) && last.observation.status.Confirmed? {
          CloseIsKnown(p, m, last.observation, if last.observation.reset then last.observation.history else ConfirmedBars(p, start, before));
        } else if Accepts(p, m, last.observation) {
          FrameIsKnown(p, m, last.observation, ConfirmedBars(p, start, before), FormingFrames(p, start, before));
        } else {
          RejectionChangesNothing(p, m, last.observation);
        }
      }
    }
  }

  // ----- Crosses -----

  /** The i-th indicator is the first ready one under its key. */
  predicate IsFirstReady(key: IndicatorKey, indicators: seq<Indicator>, i: int) {
    && 0 <= i < |indicators| && indicators[i].ready && indicators[i].Key() == key
    && forall j :: 0 <= j < i ==> !(indicators[j].ready && indicators[j].Key() == key)
  }

  lemma {:induction false} FirstReadyExactly(key: IndicatorKey, indicators: seq<Indicator>)
    ensures FirstReady(key, indicators).None? <==> NoneReady(key, indicators)
    ensures forall i :: IsFirstReady(key, indicators, i) ==> FirstReady(key, indicators) == Some(indicators[i].value)
    ensures FirstReady(key, indicators).Some? ==> exists i :: IsFirstReady(key, indicators, i)
  {
    if indicators != [] {
      var rest := indicators[1..];
      FirstReadyExactly(key, rest);
      assert forall j :: 0 < j < |indicators| ==> indicators[j] == rest[j - 1];
      assert forall j :: 0 <= j < |rest| ==> rest[j] == indicators[j + 1];
      if indicators[0].ready && indicators[0].Key() == key {
        assert IsFirstReady(key, indicators, 0);
      } else {
        assert forall i :: IsFirstReady(key, indicators, i) ==> IsFirstReady(key, rest, i - 1);
        assert forall i :: IsFirstReady(key, rest, i) ==> IsFirstReady(key, indicators, i + 1);
      }
    }
  }

  /** From the lower side of the baseline, or on it, to strictly above the indicator; or the other way. */
  predicate Crosses(direction: Direction, before: real, baseline: real, close: real, current: real) {
    || (direction in {Above, Either} && before <= baseline && current < close)
    || (direction in {Below, Either} && baseline <= before && close < current)
  }

  /** The observation crosses: last close, last ready reading and first ready indicator are all there. */
  ghost predicate CrossOver(rule: Rule, before: Option<real>, readings: seq<Indicator>, o: Observation) {
    var key := IndicatorKey(rule.name, rule.period);
    before.Some? && exists i, j :: IsLastReady(key, readings, i) && IsFirstReady(key, o.indicators, j)
                                   && Crosses(rule.direction, before.value, readings[i].value, o.candle.close, o.indicators[j].value)
  }

  lemma {:induction false} CrossSeesEnough(rule: Rule, f: Feature, readings: seq<Indicator>, o: Observation)
    requires rule.kind.PriceCrossesIndicator? && Keeps(f, readings)
    ensures Evaluate(rule, o, f).Truth() <==> CrossOver(rule, f.lastClose, readings, o)
    ensures Evaluate(rule, o, f).known
            <==> var key := IndicatorKey(rule.name, rule.period);
                 f.lastClose.Some? && !NoneReady(key, readings) && !NoneReady(key, o.indicators)
    ensures var key := IndicatorKey(rule.name, rule.period);
            forall j :: Evaluate(rule, o, f).known && IsFirstReady(key, o.indicators, j) ==>
                          Evaluate(rule, o, f).facts == [IndicatorFact(key, o.indicators[j].value)]
  {
    var key := IndicatorKey(rule.name, rule.period);
    FirstReadyExactly(key, o.indicators);
    if !NoneReady(key, readings) {
      var i := SomeIsLast(key, readings);
    }
  }

  /**
   After any run a cross is true of the next observation exactly when the close went from one side of
   the last ready reading, or from on it, to strictly beyond the indicator's first ready value.
   */
  lemma {:induction false} CrossesSeeTheRun(p: Policy, events: seq<Event>, rule: Rule, next: Observation)
    requires GatedRun(events) && Gated(next) && rule.kind.PriceCrossesIndicator?
    ensures var provisional := next.status.Provisional?;
            var before := PreviousClose(ConfirmedBars(p, Start(EMPTY_CELL), events), FormingFrames(p, Start(EMPTY_CELL), events), provisional);
            Evaluate(rule, next, NextFeature(p, events, next)).Truth()
            <==> CrossOver(rule, before, Readings(p, Start(EMPTY_CELL), events, provisional), next)
  {
    BaselinesRefineReadings(p, events);
    ClosesRefineHistory(p, events);
    FeaturesRefineHistory(p, events);
    CrossSeesEnough(rule, NextFeature(p, events, next), Readings(p, Start(EMPTY_CELL), events, next.status.Provisional?), next);
  }
}
