/** The rule language (internal/rules/evaluator.go): validation, dependency masks and three-valued evaluation. */
module Rules {
  import opened Wrappers
  import opened Model

  const MAX_DEPTH: nat := 8
  const MAX_CHILDREN: nat := 20

  const FVG := "fvg"
  const ORDER_BLOCK := "order_block"
  const ACTIVE := "active"
  const TOUCHED := "touched"
  const TRANSITIONS: set<string> := {"created", TOUCHED, "mitigated", "invalidated", "expired"}
  const SPACES: set<char> :=
    {' ', '\t', '\n', '\r', '\U{B}', '\U{C}', '\U{85}', '\U{A0}', '\U{1680}', '\U{2000}', '\U{2001}', '\U{2002}',
     '\U{2003}', '\U{2004}', '\U{2005}', '\U{2006}', '\U{2007}', '\U{2008}', '\U{2009}', '\U{200A}', '\U{2028}',
     '\U{2029}', '\U{202F}', '\U{205F}', '\U{3000}'}

  predicate Validate(rule: Rule) {
    ValidateAt(rule, 0)
  }

  predicate ValidateAt(rule: Rule, depth: nat)
    decreases rule, 1
  {
    && depth <= MAX_DEPTH
    && match rule.kind
       case All => 2 <= |rule.rules| <= MAX_CHILDREN && ValidateEach(rule.rules, depth + 1)
       case Any => 2 <= |rule.rules| <= MAX_CHILDREN && ValidateEach(rule.rules, depth + 1)
       case Not => rule.rule.Some? && ValidateAt(rule.rule.value, depth + 1)
       case PriceHitsZone => IsZoneKind(rule.zoneKind) && (rule.transition == "" || rule.transition in TRANSITIONS)
       case ZoneTransitions => IsZoneKind(rule.zoneKind) && rule.transition in TRANSITIONS
       case PriceNearZone => IsZoneKind(rule.zoneKind) && 0.0 < rule.distanceBps <= 10000.0
       case PriceCrossesIndicator => rule.name != "" && 1 <= rule.period && rule.direction in {Above, Below, Either}
       case CandleColor => rule.direction in {Toward(Red), Toward(Green)}
       case CandleStreak => rule.direction in {Toward(Red), Toward(Green)} && 2 <= rule.count <= 100
       case CandleColorFlip =>
         rule.direction in {Either, RedToGreen, GreenToRed} && 0.0 < rule.minElapsedPercent <= 100.0
       case PatternSeen => exists i :: 0 <= i < |rule.zoneKind| && rule.zoneKind[i] !in SPACES
       case Unsupported(_) => false
  }

  predicate ValidateEach(rules: seq<Rule>, depth: nat)
    decreases rules, 0
  {
    rules == [] || (ValidateAt(rules[0], depth) && ValidateEach(rules[1..], depth))
  }

  predicate IsZoneKind(kind: string) {
    kind == FVG || kind == ORDER_BLOCK
  }

  predicate RequiresIntrabar(rule: Rule)
    decreases rule, 1
  {
    || rule.kind.CandleColorFlip?
    || if rule.kind.Not? && rule.rule.Some? then RequiresIntrabar(rule.rule.value)
       else SomeRequiresIntrabar(rule.rules)
  }

  predicate SomeRequiresIntrabar(rules: seq<Rule>)
    decreases rules, 0
  {
    rules != [] && (RequiresIntrabar(rules[0]) || SomeRequiresIntrabar(rules[1..]))
  }

  /** Whether truth marks an occurrence on this observation rather than a lasting state. */
  predicate Pulse(rule: Rule)
    decreases rule, 1
  {
    match rule.kind
    case PriceHitsZone => true
    case ZoneTransitions => true
    case PriceCrossesIndicator => true
    case PatternSeen => true
    case CandleColorFlip => true
    case All => SomePulse(rule.rules)
    case Any => SomePulse(rule.rules)
    case _ => false
  }

  predicate SomePulse(rules: seq<Rule>)
    decreases rules, 0
  {
    rules != [] && (Pulse(rules[0]) || SomePulse(rules[1..]))
  }

  datatype Dependency = OnCandle | OnIndicator | OnZone | OnPattern | OnHistory

  function Dependencies(rule: Rule): set<Dependency>
    decreases rule, 1
  {
    match rule.kind
    case CandleColor => {OnCandle}
    case CandleColorFlip => {OnCandle}
    case CandleStreak => {OnCandle, OnHistory}
    case PriceCrossesIndicator => {OnCandle, OnIndicator, OnHistory}
    case PriceHitsZone => {OnZone}
    case ZoneTransitions => {OnZone}
    case PriceNearZone => {OnCandle, OnZone}
    case PatternSeen => {OnPattern}
    case Not => if rule.rule.Some? then Dependencies(rule.rule.value) else {}
    case _ => DependenciesOfEach(rule.rules)
  }

  function DependenciesOfEach(rules: seq<Rule>): set<Dependency>
    decreases rules, 0
  {
    if rules == [] then {} else Dependencies(rules[0]) + DependenciesOfEach(rules[1..])
  }

  /** A definition whose rule passed validation, with its dependency mask. */
  datatype Compiled = Compiled(definition: Definition, dependencies: set<Dependency>)

  function Compile(definition: Definition): Result<Compiled, string> {
    if Validate(definition.rule) then Ok(Compiled(definition, Dependencies(definition.rule)))
    else Err("invalid rule")
  }

  datatype Verdict = Verdict(matched: bool, known: bool, facts: seq<Fact>) {
    /** What EvaluateDetailed reports as truth. */
    predicate Truth() {
      known && matched
    }
  }

  const UNKNOWN := Verdict(false, false, [])
  const NO_MATCH := Verdict(false, true, [])

  function Evaluate(rule: Rule, o: Observation, state: Feature): Verdict
    decreases rule, 1
  {
    match rule.kind
    case All => EvaluateAll(rule.rules, o, state)
    case Any => EvaluateAny(rule.rules, o, state)
    case Not => if rule.rule.Some? then Negate(Evaluate(rule.rule.value, o, state)) else UNKNOWN
    case _ => EvaluateLeaf(rule, o, state)
  }

  function EvaluateAll(rules: seq<Rule>, o: Observation, state: Feature): Verdict
    decreases rules, 0
  {
    if rules == [] then Verdict(true, true, [])
    else
      var r := Evaluate(rules[0], o, state);
      var rest := EvaluateAll(rules[1..], o, state);
      Verdict(r.matched && rest.matched, r.known && rest.known, MatchedFacts(r) + rest.facts)
  }

  function EvaluateAny(rules: seq<Rule>, o: Observation, state: Feature): Verdict
    decreases rules, 0
  {
    if rules == [] then UNKNOWN
    else
      var r := Evaluate(rules[0], o, state);
      var rest := EvaluateAny(rules[1..], o, state);
      Verdict(r.Truth() || rest.matched, r.known || rest.known, MatchedFacts(r) + rest.facts)
  }

  function MatchedFacts(r: Verdict): seq<Fact> {
    if r.matched then r.facts else []
  }

  function Negate(r: Verdict): Verdict {
    Verdict(!r.matched, r.known, if r.matched then r.facts else [])
  }

  function EvaluateLeaf(rule: Rule, o: Observation, state: Feature): Verdict {
    match rule.kind
    case PriceHitsZone =>
      FirstTransition(rule, if rule.transition == "" then TOUCHED else rule.transition, o.zoneTransitions)
    case ZoneTransitions => FirstTransition(rule, rule.transition, o.zoneTransitions)
    case PriceNearZone => FirstNearZone(rule, o.candle.close, o.activeZones)
    case PatternSeen => FirstPattern(rule, o.patterns)
    case CandleColor => Verdict(Toward(o.candle.Color()) == rule.direction, true, [])
    case CandleStreak => Verdict(IsStreak(rule, state.colors + [o.candle.Color()]), true, [])
    case CandleColorFlip => EvaluateFlip(rule, o, state)
    case PriceCrossesIndicator => EvaluateCross(rule, o, state)
    case _ => UNKNOWN
  }

  function Middle(upper: real, lower: real): real {
    (upper + lower) / 2.0
  }

  function FirstTransition(rule: Rule, transition: string, zs: seq<ZoneTransition>): Verdict {
    if zs == [] then NO_MATCH
    else if zs[0].kind == rule.zoneKind && zs[0].transition == transition && (rule.side == "" || zs[0].side == rule.side)
    then Verdict(true, true, [ZoneFact(zs[0].kind, zs[0].id, zs[0].side, Middle(zs[0].upper, zs[0].lower))])
    else FirstTransition(rule, transition, zs[1..])
  }

  /** Distance in basis points; at price zero the source's quotient is infinite, so no zone is near. */
  predicate IsNear(rule: Rule, price: real, z: Zone) {
    && z.kind == rule.zoneKind && (rule.side == "" || z.side == rule.side) && z.state == ACTIVE
    && price != 0.0
    && var distance :=
         if price < z.lower then (z.lower - price) / price * 10000.0
         else if price > z.upper then (price - z.upper) / price * 10000.0
         else 0.0;
       0.0 < distance <= rule.distanceBps
  }

  function FirstNearZone(rule: Rule, price: real, zs: seq<Zone>): Verdict {
    if zs == [] then NO_MATCH
    else if IsNear(rule, price, zs[0])
    then Verdict(true, true, [ZoneFact(zs[0].kind, zs[0].id, zs[0].side, Middle(zs[0].upper, zs[0].lower))])
    else FirstNearZone(rule, price, zs[1..])
  }

  function FirstPattern(rule: Rule, ps: seq<Pattern>): Verdict {
    if ps == [] then NO_MATCH
    else if ps[0].kind == rule.zoneKind && (rule.side == "" || ps[0].side == rule.side)
    then Verdict(true, true, [PatternFact(ps[0].kind, ps[0].side)])
    else FirstPattern(rule, ps[1..])
  }

  /** The last rule.count colours all have the rule's direction. */
  predicate IsStreak(rule: Rule, colors: seq<Color>) {
    && rule.count <= |colors|
    && forall i :: 0 <= i < |colors| && |colors| - rule.count <= i ==> Toward(colors[i]) == rule.direction
  }

  function EvaluateFlip(rule: Rule, o: Observation, state: Feature): Verdict {
    if !o.status.Provisional? || state.formingBar != o.candle.openTime then NO_MATCH
    else
      var to := o.candle.Color();
      if state.formingColor in {None, Some(Doji), Some(to)} || to.Doji? then NO_MATCH
      else if rule.direction != Either && rule.direction != (if to.Green? then RedToGreen else GreenToRed) then NO_MATCH
      else if o.barLength.None? then UNKNOWN
      else
        var elapsed := (o.occurredAt - o.candle.openTime) as real;
        var percent := elapsed / o.barLength.value as real * 100.0;
        Verdict(percent >= rule.minElapsedPercent, true, [])
  }

  /** The value of the first ready indicator under the key. */
  function FirstReady(key: IndicatorKey, indicators: seq<Indicator>): Option<real> {
    if indicators == [] then None
    else if indicators[0].ready && indicators[0].Key() == key then Some(indicators[0].value)
    else FirstReady(key, indicators[1..])
  }

  function EvaluateCross(rule: Rule, o: Observation, state: Feature): Verdict {
    var key := IndicatorKey(rule.name, rule.period);
    if state.lastClose.None? || key !in state.indicators then UNKNOWN
    else
      var current := FirstReady(key, o.indicators);
      if current.None? then UNKNOWN
      else
        var above := state.lastClose.value <= state.indicators[key] && o.candle.close > current.value;
        var below := state.lastClose.value >= state.indicators[key] && o.candle.close < current.value;
        var matched := match rule.direction
          case Above => above
          case Below => below
          case Either => above || below
          case _ => false;
        Verdict(matched, true, [IndicatorFact(key, current.value)])
  }

  /** Ready indicator values replace the stored baselines, later entries last. */
  function Absorb(baselines: map<IndicatorKey, real>, indicators: seq<Indicator>): map<IndicatorKey, real> {
    if indicators == [] then baselines
    else
      var last := indicators[|indicators| - 1];
      var before := Absorb(baselines, indicators[..|indicators| - 1]);
      if last.ready then before[last.Key() := last.value] else before
  }

  const MAX_CANDLES: nat := 500
  const MAX_COLORS: nat := 100

  /** The value rules.Advance computes. */
  function Advanced(state: Feature, o: Observation): Feature {
    var next := state.(lastClose := Some(o.candle.close), indicators := Absorb(state.indicators, o.indicators));
    if o.status.Confirmed? then
      next.(candles := LastN(state.candles + [o.candle], MAX_CANDLES),
            colors := LastN(state.colors + [o.candle.Color()], MAX_COLORS),
            formingBar := ZERO_TIME, formingColor := None)
    else
      var kept := if state.formingBar == o.candle.openTime then state.formingColor else None;
      next.(formingBar := o.candle.openTime,
            formingColor := if o.candle.Color().Doji? then kept else Some(o.candle.Color()))
  }
}
