/**
 Feature state as the engine holds it: plain values except for the indicator map, which is shared
 by reference and written in place.
 */
module Features {
  import opened Wrappers
  import opened Model
  import opened Rules
  import opened SeriesMachine

  class IndicatorTable {
    var values: map<IndicatorKey, real>

    constructor ()
      ensures values == map[]
    {
      values := map[];
    }
  }

  datatype FeatureRecord = FeatureRecord(
    lastClose: Option<real>,
    indicators: IndicatorTable?,
    candles: seq<Candle>,
    colors: seq<Color>,
    formingBar: Time,
    formingColor: Option<Color>)
  {
    function View(): Feature
      reads indicators
    {
      Feature(lastClose, if indicators == null then map[] else indicators.values, candles, colors, formingBar, formingColor)
    }

    function Tables(): set<IndicatorTable> {
      if indicators == null then {} else {indicators}
    }
  }

  datatype SeriesRecord = SeriesRecord(
    lastOpenTime: Time,
    lastRevision: nat,
    lastStatus: Status,
    lastResetId: string,
    lastResetAt: Time,
    confirmed: FeatureRecord,
    intrabar: FeatureRecord,
    activeZones: seq<Zone>)
  {
    function Tables(): set<IndicatorTable> {
      confirmed.Tables() + intrabar.Tables()
    }

    function View(): SeriesState
      reads confirmed.indicators, intrabar.indicators
    {
      SeriesState(lastOpenTime, lastRevision, lastStatus, lastResetId, lastResetAt,
                  confirmed.View(), intrabar.View(), activeZones)
    }

    /** The two cadences do not share a table. */
    predicate Separated() {
      confirmed.Tables() !! intrabar.Tables()
    }
  }

  const EMPTY_RECORD := FeatureRecord(None, null, [], [], ZERO_TIME, None)

  const EMPTY_SERIES_RECORD :=
    SeriesRecord(ZERO_TIME, 0, OtherStatus(""), "", ZERO_TIME, EMPTY_RECORD, EMPTY_RECORD, [])

  lemma EmptyRecordIsEmpty()
    ensures EMPTY_SERIES_RECORD.View() == EMPTY_SERIES
  {
  }

  /** The i-th indicator is the last ready one under its key. */
  predicate IsLastReady(key: IndicatorKey, indicators: seq<Indicator>, i: int) {
    && 0 <= i < |indicators| && indicators[i].ready && indicators[i].Key() == key
    && forall j :: i < j < |indicators| ==> !(indicators[j].ready && indicators[j].Key() == key)
  }

  predicate NoneReady(key: IndicatorKey, indicators: seq<Indicator>) {
    forall j :: 0 <= j < |indicators| ==> !(indicators[j].ready && indicators[j].Key() == key)
  }

  /** Every key has the value of its last ready indicator, or what it had when there is none. */
  ghost predicate TakesReady(before: map<IndicatorKey, real>, after: map<IndicatorKey, real>, indicators: seq<Indicator>) {
    forall key: IndicatorKey ::
      && (forall i :: IsLastReady(key, indicators, i) ==> key in after && after[key] == indicators[i].value)
      && (NoneReady(key, indicators) ==> (key in after <==> key in before) && (key in after ==> after[key] == before[key]))
  }

  lemma {:induction false} TakesOneMore(before: map<IndicatorKey, real>, between: map<IndicatorKey, real>, indicators: seq<Indicator>)
    requires indicators != [] && TakesReady(before, between, indicators[..|indicators| - 1])
    ensures var last := indicators[|indicators| - 1];
            TakesReady(before, if last.ready then between[last.Key() := last.value] else between, indicators)
  {
    var n := |indicators| - 1;
    var front, last := indicators[..n], indicators[n];
    forall key: IndicatorKey
      ensures !(last.ready && last.Key() == key) ==>
                && (NoneReady(key, indicators) ==> NoneReady(key, front))
                && forall i :: IsLastReady(key, indicators, i) ==> IsLastReady(key, front, i)
    {
      forall i | IsLastReady(key, indicators, i) && i < n ensures IsLastReady(key, front, i) {
        assert forall j :: i < j < n ==> front[j] == indicators[j];
      }
    }
  }

  /** Later values replace earlier baselines; indicators that are still warming up replace none. */
  lemma {:induction false} AbsorbingTakesReady(before: map<IndicatorKey, real>, indicators: seq<Indicator>)
    ensures TakesReady(before, Absorb(before, indicators), indicators)
  {
    if indicators != [] {
      AbsorbingTakesReady(before, indicators[..|indicators| - 1]);
      TakesOneMore(before, Absorb(before, indicators[..|indicators| - 1]), indicators);
    }
  }

  /** rules.Advance: the returned record shares the table of the given one unless that was missing. */
  method Advance(state: FeatureRecord, o: Observation) returns (next: FeatureRecord)
    modifies state.Tables()
    ensures next.View() == Advanced(old(state.View()), o)
    ensures TakesReady(old(state.View()).indicators, next.View().indicators, o.indicators)
    ensures next.indicators != null
    ensures state.indicators == null ==> fresh(next.indicators)
    ensures state.indicators != null ==> next.indicators == state.indicators
  {
    var table := state.indicators;
    if table == null {
      table := new IndicatorTable();
    }
    ghost var baselines := table.values;
    for i := 0 to |o.indicators|
      modifies table
      invariant table.values == Absorb(baselines, o.indicators[..i])
    {
      if o.indicators[i].ready {
        table.values := table.values[o.indicators[i].Key() := o.indicators[i].value];
      }
      assert o.indicators[..i + 1][..i] == o.indicators[..i];
    }
    assert o.indicators[..|o.indicators|] == o.indicators;
    AbsorbingTakesReady(baselines, o.indicators);
    next := state.(lastClose := Some(o.candle.close), indicators := table);
    if o.status.Confirmed? {
      next := next.(candles := next.candles + [o.candle]);
      if |next.candles| > MAX_CANDLES {
        next := next.(candles := next.candles[|next.candles| - MAX_CANDLES..]);
      }
      next := next.(colors := next.colors + [o.candle.Color()]);
      if |next.colors| > MAX_COLORS {
        next := next.(colors := next.colors[|next.colors| - MAX_COLORS..]);
      }
      next := next.(formingBar := ZERO_TIME, formingColor := None);
    } else {
      if next.formingBar != o.candle.openTime {
        next := next.(formingBar := o.candle.openTime, formingColor := None);
      }
      if !o.candle.Color().Doji? {
        next := next.(formingColor := Some(o.candle.Color()));
      }
    }
  }

  /** Copies every entry of one table into another; the two may be the same. */
  method CopyEntries(target: IndicatorTable, source: IndicatorTable)
    modifies target
    ensures target.values == old(target.values) + old(source.values)
  {
    var pending := source.values.Keys;
    ghost var before, copied := target.values, source.values;
    while pending != {}
      invariant pending <= copied.Keys
      invariant source.values == if source == target then target.values else copied
      invariant target.values.Keys == before.Keys + (copied.Keys - pending)
      invariant forall key :: key in target.values ==>
                  target.values[key] == if key in copied && key !in pending then copied[key] else before[key]
      invariant source == target ==> before == copied
    {
      var key :| key in pending;
      target.values := target.values[key := source.values[key]];
      pending := pending - {key};
    }
  }

  /**
   The engine's cloneFeatureState. The copy loop ranges over the map just allocated, so the clone
   gets a table of its own that stays empty.
   */
  method CloneFeature(state: FeatureRecord) returns (clone: FeatureRecord)
    ensures clone.View() == Cloned(AsWritten, state.View())
    ensures fresh(clone.Tables())
  {
    clone := state;
    if clone.indicators != null {
      var table := new IndicatorTable();
      clone := clone.(indicators := table);
      CopyEntries(table, clone.indicators);
    }
  }

  method CloneSeries(state: SeriesRecord) returns (clone: SeriesRecord)
    ensures clone.View() == ClonedSeries(AsWritten, state.View())
    ensures fresh(clone.Tables()) && clone.Separated()
  {
    clone := state;
    var confirmed := CloneFeature(clone.confirmed);
    var intrabar := CloneFeature(clone.intrabar);
    clone := clone.(confirmed := confirmed, intrabar := intrabar);
  }
}
