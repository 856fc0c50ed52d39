/**
 The service in front of the engine (internal/service/service.go): it refuses what the engine
 could not answer for, and schedules definitions.
 */
module Service {
  import opened Wrappers
  import opened Model
  import opened Rules
  import opened RuleMeanings
  import opened Routing
  import opened SeriesMachine
  import opened BatchEvaluation
  import opened BatchCommit
  import opened Recovery
  import opened Engine
  import opened Activation

  // ----- Observations -----

  const SCHEMA := "alerts.observation.v1"

  datatype Invalid = BadEnvelope | BadStatus | ProvisionalReset | BadPrices | BadIndicator | BadHistory

  predicate WrongPrices(c: Candle) {
    c.high < c.low || c.high < c.open || c.high < c.close || c.low > c.open || c.low > c.close
  }

  function ValidateObservation(o: Observation): (invalid: Option<Invalid>)
    ensures invalid.None? ==> Gated(o) && o.candle.low <= o.candle.close <= o.candle.high
  {
    if o.schema != SCHEMA || o.sourceEventId == "" || o.correlationId == "" || o.series.symbol == "" || o.series.timeframe == ""
       || o.candle.openTime == ZERO_TIME || o.occurredAt == ZERO_TIME then
      Some(BadEnvelope)
    else if !o.status.Confirmed? && !o.status.Provisional? then Some(BadStatus)
    else if o.reset && !o.status.Confirmed? then Some(ProvisionalReset)
    else if WrongPrices(o.candle) then Some(BadPrices)
    else if exists i :: 0 <= i < |o.indicators| && (o.indicators[i].name == "" || o.indicators[i].period < 1) then Some(BadIndicator)
    else if exists i :: 0 <= i < |o.history| && (o.history[i].openTime == ZERO_TIME || WrongPrices(o.history[i])) then Some(BadHistory)
    else None
  }

  predicate RightPrices(c: Candle) {
    c.low <= c.open <= c.high && c.low <= c.close <= c.high
  }

  /** An observation is let through exactly when its envelope, prices, indicators and history are all in order. */
  lemma AdmittedExactly(o: Observation)
    ensures ValidateObservation(o).None?
            <==> && o.schema == "alerts.observation.v1" && "" !in {o.sourceEventId, o.correlationId, o.series.symbol, o.series.timeframe}
                 && o.candle.openTime != ZERO_TIME && o.occurredAt != ZERO_TIME
                 && (o.status == Confirmed || (o.status == Provisional && !o.reset))
                 && RightPrices(o.candle)
                 && (forall i :: 0 <= i < |o.indicators| ==> o.indicators[i].name != "" && 1 <= o.indicators[i].period)
                 && (forall i :: 0 <= i < |o.history| ==> o.history[i].openTime != ZERO_TIME && RightPrices(o.history[i]))
  {
    assert forall c: Candle :: WrongPrices(c) <==> !RightPrices(c);
  }

  datatype IngestError = StaleDefinitions | Rejected(invalid: Invalid) | Evaluation(error: EngineError)

  /** The first complaint about a batch. */
  function FirstInvalid(observations: seq<Observation>): (invalid: Option<Invalid>)
    ensures invalid.None? <==> forall i :: 0 <= i < |observations| ==> ValidateObservation(observations[i]).None?
    ensures invalid.Some? ==>
              exists i :: 0 <= i < |observations| && ValidateObservation(observations[i]) == invalid
                          && forall j :: 0 <= j < i ==> ValidateObservation(observations[j]).None?
  {
    if observations == [] then None
    else
      var before := FirstInvalid(observations[..|observations| - 1]);
      if before.Some? then before else ValidateObservation(observations[|observations| - 1])
  }

  // ----- Definitions -----

  datatype CreateError = MissingName | NegativeCooldown | BadEvaluationMode | BadTriggerMode | BadRule | NeedsIntrabar

  function ParseEvaluationMode(text: string): Option<EvaluationMode> {
    if text == "" || text == "confirmed_close" then Some(ConfirmedClose)
    else if text == "intrabar" then Some(Intrabar)
    else if text == "both" then Some(EvaluationMode.Both)
    else None
  }

  function ParseTriggerMode(text: string): Option<TriggerMode> {
    if text == "" || text == "on_occurrence" then Some(OnOccurrence)
    else if text == "once_per_bar" then Some(OncePerBar)
    else if text == "every_match" then Some(EveryMatch)
    else None
  }

  /** id is the digest the service derives from the other fields. */
  function Create(id: string, name: string, series: Series, rule: Rule, evaluationMode: string, triggerMode: string,
                  cooldown: int, now: Time, delay: Duration): (r: Result<Definition, CreateError>)
  {
    var evaluation, trigger := ParseEvaluationMode(evaluationMode), ParseTriggerMode(triggerMode);
    if name == "" || series.symbol == "" || series.timeframe == "" then Err(MissingName)
    else if cooldown < 0 then Err(NegativeCooldown)
    else if evaluation.None? then Err(BadEvaluationMode)
    else if trigger.None? then Err(BadTriggerMode)
    else if !Rules.Validate(rule) then Err(BadRule)
    else if RequiresIntrabar(rule) && evaluation.value.ConfirmedClose? then Err(NeedsIntrabar)
    else Ok(Created(Definition(id, 1, true, series, rule, evaluation.value, trigger.value, cooldown, ZERO_TIME, ZERO_TIME), now, delay))
  }

  /**
   A created definition compiles, meets intrabar frames when its rule needs them, and is on for
   exactly the events from its activation boundary on.
   */
  lemma {:induction false} CreatedDefinitionsAreUsable(id: string, name: string, series: Series, rule: Rule, evaluationMode: string,
                                                       triggerMode: string, cooldown: int, now: Time, delay: Duration)
    requires ZERO_TIME < now
    ensures match Create(id, name, series, rule, evaluationMode, triggerMode, cooldown, now, delay)
            case Err(_) => true
            case Ok(d) =>
              && Compile(d).Ok? && (RequiresIntrabar(d.rule) ==> AcceptsMode(d.evaluationMode, Provisional))
              && forall event: Time :: EnabledAt(d, event) <==> now + delay <= event
  {
  }

  /**
   A definition is created exactly when it is named, its cooldown is not negative, its modes are known or
   left out, its rule is valid, and a rule with a colour flip does not wait for closes; it carries what
   was asked for, with closes and occurrences where nothing was said.
   */
  lemma {:induction false} CreatedExactly(id: string, name: string, series: Series, rule: Rule, evaluationMode: string,
                                          triggerMode: string, cooldown: int, now: Time, delay: Duration)
    ensures var r := Create(id, name, series, rule, evaluationMode, triggerMode, cooldown, now, delay);
            && (r.Ok? <==> && "" !in {name, series.symbol, series.timeframe} && 0 <= cooldown
                           && evaluationMode in {"", "confirmed_close", "intrabar", "both"}
                           && triggerMode in {"", "on_occurrence", "once_per_bar", "every_match"}
                           && Levels(rule) <= 9 && AllWellFormed(Nodes(rule, Operands))
                           && (evaluationMode in {"", "confirmed_close"} ==>
                                 forall node :: node in Nodes(rule, Everything) ==> !node.kind.CandleColorFlip?))
            && (r.Ok? ==>
                  && r.value.id == id && r.value.version == 1 && r.value.enabled && r.value.series == series && r.value.rule == rule
                  && (r.value.evaluationMode.Intrabar? <==> evaluationMode == "intrabar")
                  && (r.value.evaluationMode.Both? <==> evaluationMode == "both")
                  && (r.value.triggerMode.OncePerBar? <==> triggerMode == "once_per_bar")
                  && (r.value.triggerMode.EveryMatch? <==> triggerMode == "every_match")
                  && r.value.cooldownSeconds == cooldown && r.value.createdAt == now && r.value.effectiveAt == now + delay)
  {
    ValidatedExactly(rule);
    RequiresIntrabarExactly(rule);
  }

  // ----- Ingestion -----

  class AlertService {
    const engine: Engine
    const maxStaleness: int

    constructor (engine: Engine, maxStaleness: int)
      ensures this.engine == engine && this.maxStaleness == maxStaleness
    {
      this.engine, this.maxStaleness := engine, maxStaleness;
    }

    /** Stale definitions and invalid observations never reach the engine; what reaches it commits whole or not at all. */
    method IngestBatch(partition: int, observations: seq<Observation>, now: Time) returns (r: Result<seq<Alert>, IngestError>)
      requires engine.Valid() && BarFreeRoutes(engine.index.byRoute)
      modifies if 0 <= partition < |engine.partitions| then {engine.partitions[partition]} else {}, engine.repository.memory
      ensures r == Err(StaleDefinitions) <==> !engine.index.DefinitionsFresh(maxStaleness, now)
      ensures (r.Err? && r.error.Rejected?) <==>
                engine.index.DefinitionsFresh(maxStaleness, now)
                && exists i :: 0 <= i < |observations| && ValidateObservation(observations[i]).Some?
      ensures r.Err? && r.error.Evaluation? ==>
                !engine.repository.reply.Done? || !engine.Owns(partition) || !Routed(engine.layout, partition, observations)
      ensures r.Err? && !engine.repository.reply.Unheard? ==> unchanged(engine.repository.memory)
      ensures r.Err? && 0 <= partition < |engine.partitions| ==> unchanged(engine.partitions[partition])
      ensures r.Ok? ==> engine.Owns(partition) && forall i :: 0 <= i < |observations| ==> Gated(observations[i])
      ensures r.Ok? ==> PartitionMoves(engine.partitions[partition], EnginePolicy(engine.index.byRoute), observations)
                        && StoreMoves(engine.repository.memory, engine.partitions[partition],
                                      EnginePolicy(engine.index.byRoute), observations)
      ensures r.Ok? && SlashFreeInputs(observations) && old(engine.Synced()) ==> engine.Synced()
    {
      if !engine.index.DefinitionsFresh(maxStaleness, now) {
        return Err(StaleDefinitions);
      }
      var invalid := FirstInvalid(observations);
      if invalid.Some? {
        return Err(Rejected(invalid.value));
      }
      var evaluated := engine.EvaluateBatch(partition, observations);
      match evaluated {
        case Ok(alerts) => return Ok(alerts);
        case Err(error) =>
          assert error.OutOfRange? || error.NotOwned? || error.Misrouted? || error.CommitFailed?;
          return Err(IngestError.Evaluation(error));
      }
    }
  }
}
