/**
 The values that cross the boundaries of the alert service (internal/model/model.go).

 Times are integers (nanoseconds) and 0 is the zero time. Prices are reals. An alert ID is the
 pair its digest is taken over. Texts the engine only compares stay strings; texts it branches
 on are enumerations with a constructor for every other text.
 */
module Model {
  import opened Wrappers

  type Time = int

  type Duration = d: int | 0 < d witness 1

  const ZERO_TIME: Time := 0
  const SECOND: int := 1_000_000_000

  datatype Series = Series(dataset: string, symbol: string, timeframe: string) {
    function Key(): string {
      dataset + "/" + symbol + "/" + timeframe
    }
  }

  datatype Color = Red | Green | Doji

  datatype Candle = Candle(openTime: Time, open: real, high: real, low: real, close: real) {
    function Color(): Color {
      if close < open then Red else if close > open then Green else Doji
    }
  }

  datatype Status = Confirmed | Provisional | OtherStatus(text: string)

  datatype Indicator = Indicator(name: string, period: int, value: real, ready: bool) {
    function Key(): IndicatorKey {
      IndicatorKey(name, period)
    }
  }

  datatype IndicatorKey = IndicatorKey(name: string, period: int)

  datatype ZoneTransition = ZoneTransition(id: string, kind: string, side: string, transition: string,
                                           upper: real, lower: real)

  datatype Zone = Zone(id: string, kind: string, side: string, state: string, upper: real, lower: real)

  datatype Pattern = Pattern(kind: string, side: string)

  /** barLength is the parsed length of the series' timeframe, None when the text does not parse. */
  datatype Observation = Observation(
    schema: string,
    sourceEventId: string,
    correlationId: string,
    occurredAt: Time,
    status: Status,
    revision: nat,
    reset: bool,
    history: seq<Candle>,
    series: Series,
    barLength: Option<Duration>,
    candle: Candle,
    indicators: seq<Indicator>,
    activeZones: seq<Zone>,
    zoneTransitions: seq<ZoneTransition>,
    patterns: seq<Pattern>)

  datatype Direction = Toward(color: Color) | Above | Below | Either | RedToGreen | GreenToRed
                     | OtherDirection(text: string)

  datatype RuleType = All | Any | Not | PriceHitsZone | ZoneTransitions | PriceNearZone
                    | PriceCrossesIndicator | CandleColor | CandleStreak | CandleColorFlip | PatternSeen
                    | Unsupported(text: string)

  datatype Rule = Rule(
    kind: RuleType,
    rules: seq<Rule>,
    rule: Option<Rule>,
    zoneKind: string,
    side: string,
    transition: string,
    name: string,
    period: int,
    direction: Direction,
    count: int,
    distanceBps: real,
    minElapsedPercent: real)

  datatype EvaluationMode = ConfirmedClose | Intrabar | Both

  datatype TriggerMode = OnOccurrence | OncePerBar | EveryMatch

  datatype Definition = Definition(
    id: string,
    version: int,
    enabled: bool,
    series: Series,
    rule: Rule,
    evaluationMode: EvaluationMode,
    triggerMode: TriggerMode,
    cooldownSeconds: int,
    createdAt: Time,
    effectiveAt: Time)

  datatype Fact = ZoneFact(kind: string, id: string, side: string, value: real)
                | PatternFact(name: string, side: string)
                | IndicatorFact(key: IndicatorKey, value: real)

  datatype AlertId = AlertId(definitionId: string, sourceEventId: string)

  datatype Alert = Alert(
    id: AlertId,
    definitionId: string,
    definitionVersion: int,
    sourceEventId: string,
    sourceCandleId: string,
    series: Series,
    triggeredAt: Time,
    facts: seq<Fact>,
    sourceRevision: nat,
    sourceStatus: Status,
    observation: Observation,
    published: bool,
    cursor: nat)

  /** Shared market features of one series at one cadence. */
  datatype Feature = Feature(
    lastClose: Option<real>,
    indicators: map<IndicatorKey, real>,
    candles: seq<Candle>,
    colors: seq<Color>,
    formingBar: Time,
    formingColor: Option<Color>)

  const EMPTY_FEATURE := Feature(None, map[], [], [], ZERO_TIME, None)

  datatype SeriesState = SeriesState(
    lastOpenTime: Time,
    lastRevision: nat,
    lastStatus: Status,
    lastResetId: string,
    lastResetAt: Time,
    confirmed: Feature,
    intrabar: Feature,
    activeZones: seq<Zone>)

  const EMPTY_SERIES :=
    SeriesState(ZERO_TIME, 0, OtherStatus(""), "", ZERO_TIME, EMPTY_FEATURE, EMPTY_FEATURE, [])

  /** The temporal trigger policy of one definition on one series. */
  datatype DefinitionState = DefinitionState(
    lastTruthConfirmed: bool,
    lastTruthIntrabar: bool,
    lastTriggerAt: Time,
    lastAlertBar: Time)

  const EMPTY_DEFINITION := DefinitionState(false, false, ZERO_TIME, ZERO_TIME)

  /** The elements of s from the n-th last on, or all of s when it is shorter. */
  function LastN<T>(s: seq<T>, n: nat): (tail: seq<T>)
  {
    if |s| > n then s[|s| - n..] else s
  }
}
