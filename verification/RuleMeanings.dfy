/**
 What single rules mean and which rules there are: every leaf told from the observation, every walk
 over a tree told from the set of its nodes.
 */
module RuleMeanings {
  import opened Wrappers
  import opened Model
  import opened Rules
  import opened SeriesMachine
  import opened RuleAlgebra

  // ----- Zones and patterns -----

  predicate IsTransition(rule: Rule, transition: string, z: ZoneTransition) {
    z.kind == rule.zoneKind && z.transition == transition && (rule.side == "" || rule.side == z.side)
  }

  predicate IsPattern(rule: Rule, seen: Pattern) {
    seen.kind == rule.zoneKind && (rule.side == "" || rule.side == seen.side)
  }

  /** An active zone strictly above or below a positive price, by at most the distance in basis points of the price. */
  predicate IsNearby(rule: Rule, price: real, z: Zone) {
    && z.kind == rule.zoneKind && (rule.side == "" || rule.side == z.side) && z.state == "active" && 0.0 < price
    && if price < z.lower then (z.lower - price) * 10000.0 <= rule.distanceBps * price
       else z.upper < price && (price - z.upper) * 10000.0 <= rule.distanceBps * price
  }

  lemma Quotients(gap: real, price: real, limit: real)
    requires price != 0.0
    ensures 0.0 < price ==> (gap / price * 10000.0 <= limit <==> gap * 10000.0 <= limit * price)
    ensures 0.0 < gap ==> (0.0 < gap / price * 10000.0 <==> 0.0 < price)
  {
    var quotient := gap / price * 10000.0;
    assert gap * 10000.0 == quotient * price;
    if 0.0 < price {
      assert quotient <= limit ==> quotient * price <= limit * price;
      assert limit < quotient ==> limit * price < quotient * price;
    }
  }

  lemma NearbyExactly(rule: Rule, price: real, z: Zone)
    ensures IsNear(rule, price, z) <==> IsNearby(rule, price, z)
  {
    if price != 0.0 {
      Quotients(z.lower - price, price, rule.distanceBps);
      Quotients(price - z.upper, price, rule.distanceBps);
    }
  }

  /** The verdict is a match with the fact of the first matching element, or known not to match. */
  predicate MatchesFirst<T>(verdict: Verdict, elements: seq<T>, matching: T -> bool, fact: T -> Fact) {
    && verdict.known
    && (verdict.matched <==> exists i :: 0 <= i < |elements| && matching(elements[i]))
    && (!verdict.matched ==> verdict.facts == [])
    && forall i :: 0 <= i < |elements| && matching(elements[i]) && (forall j :: 0 <= j < i ==> !matching(elements[j])) ==>
                     verdict.facts == [fact(elements[i])]
  }

  lemma {:induction false} MatchesLater<T>(verdict: Verdict, elements: seq<T>, matching: T -> bool, fact: T -> Fact)
    requires elements != [] && !matching(elements[0]) && MatchesFirst(verdict, elements[1..], matching, fact)
    ensures MatchesFirst(verdict, elements, matching, fact)
  {
    var rest := elements[1..];
    assert forall i :: 0 < i < |elements| ==> elements[i] == rest[i - 1];
    assert forall i :: 0 <= i < |rest| ==> rest[i] == elements[i + 1];
    forall i | 0 <= i < |elements| && matching(elements[i]) && (forall j :: 0 <= j < i ==> !matching(elements[j]))
      ensures verdict.facts == [fact(elements[i])]
    {
      assert forall j :: 0 <= j < i - 1 ==> rest[j] == elements[j + 1];
    }
  }

  function TransitionFactOf(z: ZoneTransition): Fact {
    ZoneFact(z.kind, z.id, z.side, (z.upper + z.lower) / 2.0)
  }

  function ZoneFactOf(z: Zone): Fact {
    ZoneFact(z.kind, z.id, z.side, (z.upper + z.lower) / 2.0)
  }

  function PatternFactOf(seen: Pattern): Fact {
    PatternFact(seen.kind, seen.side)
  }

  lemma {:induction false} TransitionsExactly(rule: Rule, transition: string, zs: seq<ZoneTransition>)
    ensures MatchesFirst(FirstTransition(rule, transition, zs), zs, z => IsTransition(rule, transition, z), TransitionFactOf)
  {
    if zs != [] && !IsTransition(rule, transition, zs[0]) {
      TransitionsExactly(rule, transition, zs[1..]);
      MatchesLater(FirstTransition(rule, transition, zs), zs, z => IsTransition(rule, transition, z), TransitionFactOf);
    }
  }

  lemma {:induction false} NearZonesExactly(rule: Rule, price: real, zs: seq<Zone>)
    ensures MatchesFirst(FirstNearZone(rule, price, zs), zs, z => IsNearby(rule, price, z), ZoneFactOf)
  {
    if zs != [] {
      NearbyExactly(rule, price, zs[0]);
      if !IsNearby(rule, price, zs[0]) {
        NearZonesExactly(rule, price, zs[1..]);
        MatchesLater(FirstNearZone(rule, price, zs), zs, z => IsNearby(rule, price, z), ZoneFactOf);
      }
    }
  }

  lemma {:induction false} PatternsExactly(rule: Rule, ps: seq<Pattern>)
    ensures MatchesFirst(FirstPattern(rule, ps), ps, seen => IsPattern(rule, seen), PatternFactOf)
  {
    if ps != [] && !IsPattern(rule, ps[0]) {
      PatternsExactly(rule, ps[1..]);
      MatchesLater(FirstPattern(rule, ps), ps, seen => IsPattern(rule, seen), PatternFactOf);
    }
  }

  /** A hit is a touch unless the rule names another transition. */
  lemma {:induction false} HitsExactly(rule: Rule, o: Observation, f: Feature)
    requires rule.kind.PriceHitsZone? || rule.kind.ZoneTransitions?
    ensures var transition := if rule.kind.PriceHitsZone? && rule.transition == "" then "touched" else rule.transition;
            MatchesFirst(Evaluate(rule, o, f), o.zoneTransitions, z => IsTransition(rule, transition, z), TransitionFactOf)
  {
    TransitionsExactly(rule, if rule.kind.PriceHitsZone? && rule.transition == "" then "touched" else rule.transition, o.zoneTransitions);
  }

  lemma {:induction false} NearExactly(rule: Rule, o: Observation, f: Feature)
    requires rule.kind.PriceNearZone?
    ensures MatchesFirst(Evaluate(rule, o, f), o.activeZones, z => IsNearby(rule, o.candle.close, z), ZoneFactOf)
  {
    NearZonesExactly(rule, o.candle.close, o.activeZones);
  }

  lemma {:induction false} PatternExactly(rule: Rule, o: Observation, f: Feature)
    requires rule.kind.PatternSeen?
    ensures MatchesFirst(Evaluate(rule, o, f), o.patterns, seen => IsPattern(rule, seen), PatternFactOf)
  {
    PatternsExactly(rule, o.patterns);
  }

  /** Red closes below its open, green above, a doji on it. */
  lemma ColorExactly(rule: Rule, o: Observation, f: Feature)
    requires rule.kind.CandleColor?
    ensures Evaluate(rule, o, f).known && Evaluate(rule, o, f).facts == []
    ensures Evaluate(rule, o, f).Truth()
            <==> || (rule.direction == Toward(Red) && o.candle.close < o.candle.open)
                 || (rule.direction == Toward(Green) && o.candle.open < o.candle.close)
                 || (rule.direction == Toward(Doji) && o.candle.open == o.candle.close)
  {
  }

  // ----- Facts of trees -----

  /** A tree reports the facts of its matching children, ... */
  lemma {:induction false} FactsOfMatchingChildren(rules: seq<Rule>, o: Observation, f: Feature, fact: Fact)
    ensures fact in EvaluateAll(rules, o, f).facts
            <==> exists i :: 0 <= i < |rules| && Evaluate(rules[i], o, f).matched && fact in Evaluate(rules[i], o, f).facts
    ensures EvaluateAny(rules, o, f).facts == EvaluateAll(rules, o, f).facts
  {
    if rules != [] {
      var rest := rules[1..];
      FactsOfMatchingChildren(rest, o, f, fact);
      assert forall i :: 0 < i < |rules| ==> rules[i] == rest[i - 1];
      assert forall i :: 0 <= i < |rest| ==> rest[i] == rules[i + 1];
    }
  }

  /** ... and a negation that matches reports none. */
  lemma NegationsReportNothing(rule: Rule, o: Observation, f: Feature)
    ensures TrueAt(NotRule(rule), o, f) ==> Evaluate(NotRule(rule), o, f).facts == []
  {
    assert Evaluate(NotRule(rule), o, f) == Negate(Evaluate(rule, o, f));
  }

  // ----- Nodes -----

  /**
   How far a walk over a rule goes: to whatever it contains, to the operands that are evaluated, or to
   those that are evaluated without a negation.
   */
  datatype Reach = Everything | Operands | Unnegated

  function Nodes(rule: Rule, reach: Reach): (nodes: set<Rule>)
    ensures rule in nodes
    decreases rule, 1
  {
    {rule} +
    if rule.kind.Not? && rule.rule.Some? then (if reach.Unnegated? then {} else Nodes(rule.rule.value, reach))
    else if rule.kind.All? || rule.kind.Any? || reach.Everything? then NodesOfEach(rule.rules, reach)
    else {}
  }

  function NodesOfEach(rules: seq<Rule>, reach: Reach): set<Rule>
    decreases rules, 0
  {
    if rules == [] then {} else Nodes(rules[0], reach) + NodesOfEach(rules[1..], reach)
  }

  predicate IsPulse(kind: RuleType) {
    kind in {PriceHitsZone, ZoneTransitions, PriceCrossesIndicator, PatternSeen, CandleColorFlip}
  }

  /** Truth is an occurrence exactly when some leaf below all and any is one; a negation hides what is below it. */
  lemma {:induction false} PulseExactly(rule: Rule)
    ensures Pulse(rule) <==> exists node :: node in Nodes(rule, Unnegated) && IsPulse(node.kind)
    decreases rule, 1
  {
    if rule.kind.All? || rule.kind.Any? {
      PulseOfEachExactly(rule.rules);
    }
    assert rule in Nodes(rule, Unnegated);
  }

  lemma {:induction false} PulseOfEachExactly(rules: seq<Rule>)
    ensures SomePulse(rules) <==> exists node :: node in NodesOfEach(rules, Unnegated) && IsPulse(node.kind)
    decreases rules, 0
  {
    if rules != [] {
      PulseExactly(rules[0]);
      PulseOfEachExactly(rules[1..]);
    }
  }

  /** A rule needs intrabar frames exactly when it contains a colour flip anywhere. */
  lemma {:induction false} RequiresIntrabarExactly(rule: Rule)
    ensures RequiresIntrabar(rule) <==> exists node :: node in Nodes(rule, Everything) && node.kind.CandleColorFlip?
    decreases rule, 1
  {
    if rule.kind.Not? && rule.rule.Some? {
      RequiresIntrabarExactly(rule.rule.value);
    } else {
      EachRequiresIntrabarExactly(rule.rules);
    }
    assert rule in Nodes(rule, Everything);
  }

  lemma {:induction false} EachRequiresIntrabarExactly(rules: seq<Rule>)
    ensures SomeRequiresIntrabar(rules) <==> exists node :: node in NodesOfEach(rules, Everything) && node.kind.CandleColorFlip?
    decreases rules, 0
  {
    if rules != [] {
      RequiresIntrabarExactly(rules[0]);
      EachRequiresIntrabarExactly(rules[1..]);
    }
  }

  // ----- Validated rules -----

  /** Levels of a rule, the root being one. */
  function Levels(rule: Rule): nat
    decreases rule, 1
  {
    1 + if rule.kind.Not? && rule.rule.Some? then Levels(rule.rule.value)
        else if rule.kind.All? || rule.kind.Any? then LevelsOfEach(rule.rules)
        else 0
  }

  function LevelsOfEach(rules: seq<Rule>): nat
    decreases rules, 0
  {
    if rules == [] then 0
    else if Levels(rules[0]) <= LevelsOfEach(rules[1..]) then LevelsOfEach(rules[1..])
    else Levels(rules[0])
  }

  /** What is asked of a node by itself. */
  predicate WellFormed(node: Rule) {
    && (node.kind in {All, Any} ==> 2 <= |node.rules| <= 20)
    && (node.kind == Not ==> node.rule.Some?)
    && (node.kind in {PriceHitsZone, ZoneTransitions, PriceNearZone} ==> node.zoneKind in {"fvg", "order_block"})
    && (node.kind in {PriceHitsZone, ZoneTransitions} ==>
          || node.transition in {"created", "touched", "mitigated", "invalidated", "expired"}
          || (node.kind == PriceHitsZone && node.transition == ""))
    && (node.kind == PriceNearZone ==> 0.0 < node.distanceBps <= 10000.0)
    && (node.kind == PriceCrossesIndicator ==> node.name != "" && 1 <= node.period && node.direction in {Above, Below, Either})
    && (node.kind in {CandleColor, CandleStreak} ==> node.direction in {Toward(Red), Toward(Green)})
    && (node.kind == CandleStreak ==> 2 <= node.count <= 100)
    && (node.kind == CandleColorFlip ==>
          node.direction in {Either, RedToGreen, GreenToRed} && 0.0 < node.minElapsedPercent <= 100.0)
    && (node.kind == PatternSeen ==> exists i :: 0 <= i < |node.zoneKind| && node.zoneKind[i] !in SPACES)
    && !node.kind.Unsupported?
  }

  ghost predicate AllWellFormed(nodes: set<Rule>) {
    forall node :: node in nodes ==> WellFormed(node)
  }

  lemma {:induction false} ValidatedAtExactly(rule: Rule, depth: nat)
    ensures ValidateAt(rule, depth) <==> depth + Levels(rule) <= 9 && AllWellFormed(Nodes(rule, Operands))
    decreases rule, 1
  {
    match rule.kind
    case All => EachValidatedExactly(rule.rules, depth + 1);
    case Any => EachValidatedExactly(rule.rules, depth + 1);
    case Not => if rule.rule.Some? { ValidatedAtExactly(rule.rule.value, depth + 1); }
    case _ =>
  }

  lemma {:induction false} EachValidatedExactly(rules: seq<Rule>, depth: nat)
    ensures ValidateEach(rules, depth)
            <==> (rules == [] || depth + LevelsOfEach(rules) <= 9) && AllWellFormed(NodesOfEach(rules, Operands))
    decreases rules, 0
  {
    if rules != [] {
      ValidatedAtExactly(rules[0], depth);
      EachValidatedExactly(rules[1..], depth);
    }
  }

  /** A rule passes validation exactly when it has at most nine levels and every evaluated node is well-formed. */
  lemma ValidatedExactly(rule: Rule)
    ensures Validate(rule) <==> Levels(rule) <= 9 && AllWellFormed(Nodes(rule, Operands))
  {
    ValidatedAtExactly(rule, 0);
  }

  // ----- Masks -----

  /** What the leaf reads. */
  predicate Reads(kind: RuleType, d: Dependency) {
    match d
    case OnCandle => kind in {CandleColor, CandleColorFlip, CandleStreak, PriceCrossesIndicator, PriceNearZone}
    case OnIndicator => kind == PriceCrossesIndicator
    case OnZone => kind in {PriceHitsZone, ZoneTransitions, PriceNearZone}
    case OnPattern => kind == PatternSeen
    case OnHistory => kind in {CandleStreak, PriceCrossesIndicator}
  }

  /** The mask of a validated rule has exactly the bits its leaves read. */
  lemma {:induction false} MaskExactly(rule: Rule, d: Dependency)
    requires AllWellFormed(Nodes(rule, Operands))
    ensures d in Dependencies(rule) <==> exists node :: node in Nodes(rule, Operands) && Reads(node.kind, d)
    decreases rule, 1
  {
    assert rule in Nodes(rule, Operands) && WellFormed(rule);
    match rule.kind
    case All => MaskOfEachExactly(rule.rules, d);
    case Any => MaskOfEachExactly(rule.rules, d);
    case Not => if rule.rule.Some? { MaskExactly(rule.rule.value, d); }
    case _ =>
  }

  lemma {:induction false} MaskOfEachExactly(rules: seq<Rule>, d: Dependency)
    requires AllWellFormed(NodesOfEach(rules, Operands))
    ensures d in DependenciesOfEach(rules) <==> exists node :: node in NodesOfEach(rules, Operands) && Reads(node.kind, d)
    decreases rules, 0
  {
    if rules != [] {
      MaskExactly(rules[0], d);
      MaskOfEachExactly(rules[1..], d);
    }
  }

  /**
   A compiled definition is evaluated on an observation exactly when the schedule has it on, its mode
   takes the status, and, on a provisional frame, some leaf reads more than zone events and patterns.
   */
  lemma {:induction false} AppliesExactly(c: Compiled, o: Observation)
    requires Compile(c.definition) == Ok(c) && (o.status.Confirmed? || o.status.Provisional?)
    ensures var d := c.definition;
            var boundary := if d.effectiveAt != ZERO_TIME then d.effectiveAt else d.createdAt;
            Applies(c, o)
            <==> && (d.enabled <==> boundary <= o.occurredAt)
                 && (if o.status.Confirmed? then d.evaluationMode != Intrabar else d.evaluationMode != ConfirmedClose)
                 && (o.status.Provisional? ==>
                       exists node :: node in Nodes(d.rule, Operands)
                                      && node.kind !in {All, Any, Not, PriceHitsZone, ZoneTransitions, PatternSeen})
  {
    var rule := c.definition.rule;
    ValidatedExactly(rule);
    MaskExactly(rule, OnCandle);
    MaskExactly(rule, OnIndicator);
    assert forall node :: node in Nodes(rule, Operands) ==> WellFormed(node);
  }
}
