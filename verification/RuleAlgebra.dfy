/** What rule trees mean: truth tables, provenance, cost, dependency masks and lost indicator baselines. */
module RuleAlgebra {
  import opened Wrappers
  import opened Model
  import opened Rules

  predicate TrueAt(rule: Rule, o: Observation, f: Feature) {
    Evaluate(rule, o, f).Truth()
  }

  predicate KnownAt(rule: Rule, o: Observation, f: Feature) {
    Evaluate(rule, o, f).known
  }

  lemma {:induction false} AllIsConjunction(rules: seq<Rule>, o: Observation, f: Feature)
    ensures EvaluateAll(rules, o, f).Truth() <==> forall i :: 0 <= i < |rules| ==> TrueAt(rules[i], o, f)
    ensures EvaluateAll(rules, o, f).known <==> forall i :: 0 <= i < |rules| ==> KnownAt(rules[i], o, f)
    ensures EvaluateAll(rules, o, f).matched <==> forall i :: 0 <= i < |rules| ==> Evaluate(rules[i], o, f).matched
  {
    if rules != [] {
      AllIsConjunction(rules[1..], o, f);
      assert forall i :: 0 < i < |rules| ==> rules[i] == rules[1..][i - 1];
      assert forall i :: 0 <= i < |rules| - 1 ==> rules[1..][i] == rules[i + 1];
    }
  }

  lemma {:induction false} AnyIsDisjunction(rules: seq<Rule>, o: Observation, f: Feature)
    ensures EvaluateAny(rules, o, f).Truth() <==> exists i :: 0 <= i < |rules| && TrueAt(rules[i], o, f)
    ensures EvaluateAny(rules, o, f).known <==> exists i :: 0 <= i < |rules| && KnownAt(rules[i], o, f)
    ensures EvaluateAny(rules, o, f).matched ==> EvaluateAny(rules, o, f).known
  {
    if rules != [] {
      AnyIsDisjunction(rules[1..], o, f);
      assert forall i :: 0 < i < |rules| ==> rules[i] == rules[1..][i - 1];
      assert forall i :: 0 <= i < |rules| - 1 ==> rules[1..][i] == rules[i + 1];
    }
  }

  function NotRule(rule: Rule): Rule {
    Rule(Not, [], Some(rule), "", "", "", "", 0, Either, 0, 0.0, 0.0)
  }

  function NotEach(rules: seq<Rule>): (negated: seq<Rule>)
    ensures |negated| == |rules|
    ensures forall i :: 0 <= i < |rules| ==> negated[i] == NotRule(rules[i])
  {
    seq(|rules|, i requires 0 <= i < |rules| => NotRule(rules[i]))
  }

  lemma DoubleNegation(rule: Rule, o: Observation, f: Feature)
    ensures TrueAt(NotRule(NotRule(rule)), o, f) <==> TrueAt(rule, o, f)
    ensures KnownAt(NotRule(NotRule(rule)), o, f) <==> KnownAt(rule, o, f)
  {
    var inner := NotRule(rule);
    assert Evaluate(inner, o, f) == Negate(Evaluate(rule, o, f));
    assert Evaluate(NotRule(inner), o, f) == Negate(Evaluate(inner, o, f));
  }

  lemma NotIsKnownAndFalse(rule: Rule, o: Observation, f: Feature)
    ensures TrueAt(NotRule(rule), o, f) <==> KnownAt(rule, o, f) && !TrueAt(rule, o, f)
    ensures KnownAt(NotRule(rule), o, f) <==> KnownAt(rule, o, f)
  {
    assert Evaluate(NotRule(rule), o, f) == Negate(Evaluate(rule, o, f));
  }

  /**
   not(any(rs)) and all(not rs) agree exactly when a child is true, or the children are all known
   or all unknown. Partial knowledge breaks the law: any is known as soon as one child is.
   */
  lemma DeMorganAny(any: Rule, all: Rule, o: Observation, f: Feature)
    requires any.kind.Any? && all.kind.All? && all.rules == NotEach(any.rules)
    ensures (TrueAt(NotRule(any), o, f) <==> TrueAt(all, o, f)) <==>
            || (exists i :: 0 <= i < |any.rules| && TrueAt(any.rules[i], o, f))
            || (any.rules != [] && forall i :: 0 <= i < |any.rules| ==> KnownAt(any.rules[i], o, f))
            || (any.rules != [] && forall i :: 0 <= i < |any.rules| ==> !KnownAt(any.rules[i], o, f))
  {
    var rs := any.rules;
    AnyIsDisjunction(rs, o, f);
    AllIsConjunction(all.rules, o, f);
    NotIsKnownAndFalse(any, o, f);
    forall i | 0 <= i < |rs|
      ensures TrueAt(all.rules[i], o, f) <==> KnownAt(rs[i], o, f) && !TrueAt(rs[i], o, f)
    {
      NotIsKnownAndFalse(rs[i], o, f);
    }
    if rs != [] {
      assert rs[0] == any.rules[0] && all.rules[0] == NotRule(rs[0]);
      assert TrueAt(all.rules[0], o, f) <==> KnownAt(rs[0], o, f) && !TrueAt(rs[0], o, f);
    }
  }

  /** not(all(rs)) and any(not rs) agree exactly when all children are known or no child is known to be false. */
  lemma DeMorganAll(all: Rule, any: Rule, o: Observation, f: Feature)
    requires all.kind.All? && any.kind.Any? && any.rules == NotEach(all.rules)
    ensures (TrueAt(NotRule(all), o, f) <==> TrueAt(any, o, f)) <==>
            || (forall i :: 0 <= i < |all.rules| ==> KnownAt(all.rules[i], o, f))
            || (forall i :: 0 <= i < |all.rules| && KnownAt(all.rules[i], o, f) ==> TrueAt(all.rules[i], o, f))
  {
    var rs := all.rules;
    AllIsConjunction(rs, o, f);
    AnyIsDisjunction(any.rules, o, f);
    NotIsKnownAndFalse(all, o, f);
    forall i | 0 <= i < |rs|
      ensures TrueAt(any.rules[i], o, f) <==> KnownAt(rs[i], o, f) && !TrueAt(rs[i], o, f)
    {
      NotIsKnownAndFalse(rs[i], o, f);
    }
  }

  // ----- Knowledge grows monotonically in trees without negation -----

  predicate NegationFree(rule: Rule)
    decreases rule, 1
  {
    match rule.kind
    case Not => false
    case All => NegationFreeEach(rule.rules)
    case Any => NegationFreeEach(rule.rules)
    case _ => true
  }

  predicate NegationFreeEach(rules: seq<Rule>)
    decreases rules, 0
  {
    rules == [] || (NegationFree(rules[0]) && NegationFreeEach(rules[1..]))
  }

  /** Every leaf of the tree that is known on (o, f) is known on (q, g) with the same truth. */
  predicate LeavesRefine(rule: Rule, o: Observation, f: Feature, q: Observation, g: Feature)
    decreases rule, 1
  {
    match rule.kind
    case Not => rule.rule.Some? ==> LeavesRefine(rule.rule.value, o, f, q, g)
    case All => EachRefines(rule.rules, o, f, q, g)
    case Any => EachRefines(rule.rules, o, f, q, g)
    case _ => KnownAt(rule, o, f) ==> KnownAt(rule, q, g) && (TrueAt(rule, o, f) <==> TrueAt(rule, q, g))
  }

  predicate EachRefines(rules: seq<Rule>, o: Observation, f: Feature, q: Observation, g: Feature)
    decreases rules, 0
  {
    rules == [] || (LeavesRefine(rules[0], o, f, q, g) && EachRefines(rules[1..], o, f, q, g))
  }

  /** When unknown leaves of a tree become known, what was known stays known, negations included. */
  lemma {:induction false} KnowledgeIsMonotone(rule: Rule, o: Observation, f: Feature, q: Observation, g: Feature)
    requires LeavesRefine(rule, o, f, q, g) && KnownAt(rule, o, f)
    ensures KnownAt(rule, q, g)
    decreases rule, 1
  {
    if rule.kind.Not? {
      if rule.rule.Some? {
        KnowledgeIsMonotone(rule.rule.value, o, f, q, g);
      }
    } else if rule.kind.All? {
      AllIsConjunction(rule.rules, o, f);
      AllIsConjunction(rule.rules, q, g);
      KnowledgeOfEachIsMonotone(rule.rules, o, f, q, g);
    } else if rule.kind.Any? {
      AnyIsDisjunction(rule.rules, o, f);
      AnyIsDisjunction(rule.rules, q, g);
      KnowledgeOfEachIsMonotone(rule.rules, o, f, q, g);
    }
  }

  lemma {:induction false} KnowledgeOfEachIsMonotone(rules: seq<Rule>, o: Observation, f: Feature, q: Observation, g: Feature)
    requires EachRefines(rules, o, f, q, g)
    ensures forall i :: 0 <= i < |rules| && KnownAt(rules[i], o, f) ==> KnownAt(rules[i], q, g)
    decreases rules, 0
  {
    if rules != [] {
      KnowledgeOfEachIsMonotone(rules[1..], o, f, q, g);
      if KnownAt(rules[0], o, f) {
        KnowledgeIsMonotone(rules[0], o, f, q, g);
      }
      assert forall i :: 0 < i < |rules| ==> rules[i] == rules[1..][i - 1];
    }
  }

  /** ... and a true tree without negation stays true, whether features or the observation brought the knowledge. */
  lemma {:induction false} NegationFreeIsMonotone(rule: Rule, o: Observation, f: Feature, q: Observation, g: Feature)
    requires NegationFree(rule) && LeavesRefine(rule, o, f, q, g) && TrueAt(rule, o, f)
    ensures TrueAt(rule, q, g)
    decreases rule, 1
  {
    if rule.kind.All? {
      AllIsConjunction(rule.rules, o, f);
      AllIsConjunction(rule.rules, q, g);
      EachIsMonotone(rule.rules, o, f, q, g);
    } else if rule.kind.Any? {
      AnyIsDisjunction(rule.rules, o, f);
      AnyIsDisjunction(rule.rules, q, g);
      EachIsMonotone(rule.rules, o, f, q, g);
    }
  }

  lemma {:induction false} EachIsMonotone(rules: seq<Rule>, o: Observation, f: Feature, q: Observation, g: Feature)
    requires NegationFreeEach(rules) && EachRefines(rules, o, f, q, g)
    ensures forall i :: 0 <= i < |rules| && TrueAt(rules[i], o, f) ==> TrueAt(rules[i], q, g)
    decreases rules, 0
  {
    if rules != [] {
      EachIsMonotone(rules[1..], o, f, q, g);
      if TrueAt(rules[0], o, f) {
        NegationFreeIsMonotone(rules[0], o, f, q, g);
      }
      assert forall i :: 0 < i < |rules| ==> rules[i] == rules[1..][i - 1];
    }
  }

  // ----- What losing the indicator baselines changes -----

  predicate CrossFree(rule: Rule)
    decreases rule, 1
  {
    match rule.kind
    case PriceCrossesIndicator => false
    case Not => rule.rule.Some? ==> CrossFree(rule.rule.value)
    case All => CrossFreeEach(rule.rules)
    case Any => CrossFreeEach(rule.rules)
    case _ => true
  }

  predicate CrossFreeEach(rules: seq<Rule>)
    decreases rules, 0
  {
    rules == [] || (CrossFree(rules[0]) && CrossFreeEach(rules[1..]))
  }

  function WithoutBaselines(f: Feature): Feature {
    f.(indicators := map[])
  }

  lemma {:induction false} CrossFreeIgnoresBaselines(rule: Rule, o: Observation, f: Feature)
    requires CrossFree(rule)
    ensures Evaluate(rule, o, WithoutBaselines(f)) == Evaluate(rule, o, f)
    decreases rule, 1
  {
    match rule.kind
    case Not => if rule.rule.Some? { CrossFreeIgnoresBaselines(rule.rule.value, o, f); }
    case All => EachIgnoresBaselines(rule.rules, o, f);
    case Any => EachIgnoresBaselines(rule.rules, o, f);
    case _ =>
  }

  lemma {:induction false} EachIgnoresBaselines(rules: seq<Rule>, o: Observation, f: Feature)
    requires CrossFreeEach(rules)
    ensures EvaluateAll(rules, o, WithoutBaselines(f)) == EvaluateAll(rules, o, f)
    ensures EvaluateAny(rules, o, WithoutBaselines(f)) == EvaluateAny(rules, o, f)
    decreases rules, 0
  {
    if rules != [] {
      CrossFreeIgnoresBaselines(rules[0], o, f);
      EachIgnoresBaselines(rules[1..], o, f);
    }
  }

  /** A cross leaf survives the loss of the baselines exactly when it was unknown before. */
  lemma CrossSurvivesExactlyWhenUnknown(rule: Rule, o: Observation, f: Feature)
    requires rule.kind.PriceCrossesIndicator?
    ensures Evaluate(rule, o, WithoutBaselines(f)) == UNKNOWN
    ensures Evaluate(rule, o, WithoutBaselines(f)) == Evaluate(rule, o, f) <==>
            || f.lastClose.None?
            || IndicatorKey(rule.name, rule.period) !in f.indicators
            || FirstReady(IndicatorKey(rule.name, rule.period), o.indicators).None?
  {
  }

  /** Losing baselines can silence a negation-free rule but never make it true. */
  lemma LostBaselinesOnlySilence(rule: Rule, o: Observation, f: Feature)
    requires NegationFree(rule) && TrueAt(rule, o, WithoutBaselines(f))
    ensures TrueAt(rule, o, f)
  {
    BaselinesOnlyAdd(rule, o, f);
    NegationFreeIsMonotone(rule, o, WithoutBaselines(f), o, f);
  }

  lemma {:induction false} BaselinesOnlyAdd(rule: Rule, o: Observation, f: Feature)
    ensures LeavesRefine(rule, o, WithoutBaselines(f), o, f)
    decreases rule, 1
  {
    match rule.kind
    case Not => if rule.rule.Some? { BaselinesOnlyAdd(rule.rule.value, o, f); }
    case All => BaselinesOnlyAddToEach(rule.rules, o, f);
    case Any => BaselinesOnlyAddToEach(rule.rules, o, f);
    case _ =>
  }

  lemma {:induction false} BaselinesOnlyAddToEach(rules: seq<Rule>, o: Observation, f: Feature)
    ensures EachRefines(rules, o, WithoutBaselines(f), o, f)
    decreases rules, 0
  {
    if rules != [] {
      BaselinesOnlyAdd(rules[0], o, f);
      BaselinesOnlyAddToEach(rules[1..], o, f);
    }
  }

  // ----- Dependency masks -----

  /** The two inputs agree on everything the bits of the mask stand for. */
  predicate AgreeOn(mask: set<Dependency>, o: Observation, f: Feature, p: Observation, g: Feature) {
    && (OnCandle in mask ==>
          && o.candle == p.candle && o.status == p.status && o.occurredAt == p.occurredAt && o.barLength == p.barLength
          && f.formingBar == g.formingBar && f.formingColor == g.formingColor)
    && (OnIndicator in mask ==> o.indicators == p.indicators)
    && (OnZone in mask ==> o.activeZones == p.activeZones && o.zoneTransitions == p.zoneTransitions)
    && (OnPattern in mask ==> o.patterns == p.patterns)
    && (OnHistory in mask ==> f.lastClose == g.lastClose && f.indicators == g.indicators && f.colors == g.colors)
  }

  lemma {:induction false} MasksAreSound(rule: Rule, o: Observation, f: Feature, p: Observation, g: Feature)
    requires AgreeOn(Dependencies(rule), o, f, p, g)
    ensures Evaluate(rule, o, f) == Evaluate(rule, p, g)
    decreases rule, 1
  {
    match rule.kind
    case Not => if rule.rule.Some? { MasksAreSound(rule.rule.value, o, f, p, g); }
    case All => MasksAreSoundForEach(rule.rules, o, f, p, g);
    case Any => MasksAreSoundForEach(rule.rules, o, f, p, g);
    case _ =>
  }

  lemma {:induction false} MasksAreSoundForEach(rules: seq<Rule>, o: Observation, f: Feature, p: Observation, g: Feature)
    requires AgreeOn(DependenciesOfEach(rules), o, f, p, g)
    ensures EvaluateAll(rules, o, f) == EvaluateAll(rules, p, g)
    ensures EvaluateAny(rules, o, f) == EvaluateAny(rules, p, g)
    decreases rules, 0
  {
    if rules != [] {
      MasksAreSound(rules[0], o, f, p, g);
      MasksAreSoundForEach(rules[1..], o, f, p, g);
    }
  }

  /**
   A definition skipped on a provisional frame reads only zones and patterns: its verdict is that of
   any other frame and any other feature state that carry the same ones.
   */
  lemma SkippedRulesIgnoreTheFrame(c: Compiled, o: Observation, f: Feature, p: Observation, g: Feature)
    requires Compile(c.definition) == Ok(c) && c.dependencies !! {OnCandle, OnIndicator}
    requires o.activeZones == p.activeZones && o.zoneTransitions == p.zoneTransitions && o.patterns == p.patterns
    ensures Evaluate(c.definition.rule, o, f) == Evaluate(c.definition.rule, p, g)
  {
    HistoryNeedsCandle(c.definition.rule);
    MasksAreSound(c.definition.rule, o, f, p, g);
  }

  lemma {:induction false} HistoryNeedsCandle(rule: Rule)
    ensures OnHistory in Dependencies(rule) || OnIndicator in Dependencies(rule) ==> OnCandle in Dependencies(rule)
    decreases rule, 1
  {
    match rule.kind
    case Not => if rule.rule.Some? { HistoryNeedsCandle(rule.rule.value); }
    case All => HistoryNeedsCandleInEach(rule.rules);
    case Any => HistoryNeedsCandleInEach(rule.rules);
    case Unsupported(_) => HistoryNeedsCandleInEach(rule.rules);
    case _ =>
  }

  lemma {:induction false} HistoryNeedsCandleInEach(rules: seq<Rule>)
    ensures OnHistory in DependenciesOfEach(rules) || OnIndicator in DependenciesOfEach(rules)
            ==> OnCandle in DependenciesOfEach(rules)
    decreases rules, 0
  {
    if rules != [] {
      HistoryNeedsCandle(rules[0]);
      HistoryNeedsCandleInEach(rules[1..]);
    }
  }

  // ----- Provenance of reported facts -----

  ghost predicate ComesFrom(fact: Fact, o: Observation) {
    match fact
    case ZoneFact(kind, id, side, value) =>
      || (exists z :: z in o.zoneTransitions && z.kind == kind && z.id == id && z.side == side
                      && value == Middle(z.upper, z.lower))
      || (exists z :: z in o.activeZones && z.kind == kind && z.id == id && z.side == side
                      && value == Middle(z.upper, z.lower))
    case PatternFact(name, side) => Pattern(name, side) in o.patterns
    case IndicatorFact(key, value) => exists i :: i in o.indicators && i.ready && i.Key() == key && i.value == value
  }

  lemma {:induction false} FactsComeFromTheObservation(rule: Rule, o: Observation, f: Feature)
    ensures forall fact :: fact in Evaluate(rule, o, f).facts ==> ComesFrom(fact, o)
    decreases rule, 1
  {
    match rule.kind
    case Not => if rule.rule.Some? { FactsComeFromTheObservation(rule.rule.value, o, f); }
    case All => FactsOfEachComeFromTheObservation(rule.rules, o, f);
    case Any => FactsOfEachComeFromTheObservation(rule.rules, o, f);
    case PriceHitsZone =>
      TransitionFact(rule, if rule.transition == "" then TOUCHED else rule.transition, o.zoneTransitions, o);
    case ZoneTransitions => TransitionFact(rule, rule.transition, o.zoneTransitions, o);
    case PriceNearZone => NearZoneFact(rule, o.candle.close, o.activeZones, o);
    case PatternSeen => PatternFactComesFrom(rule, o.patterns, o);
    case PriceCrossesIndicator => ReadyComesFrom(IndicatorKey(rule.name, rule.period), o.indicators);
    case _ =>
  }

  lemma {:induction false} FactsOfEachComeFromTheObservation(rules: seq<Rule>, o: Observation, f: Feature)
    ensures forall fact :: fact in EvaluateAll(rules, o, f).facts ==> ComesFrom(fact, o)
    ensures forall fact :: fact in EvaluateAny(rules, o, f).facts ==> ComesFrom(fact, o)
    decreases rules, 0
  {
    if rules != [] {
      FactsComeFromTheObservation(rules[0], o, f);
      FactsOfEachComeFromTheObservation(rules[1..], o, f);
    }
  }

  lemma {:induction false} TransitionFact(rule: Rule, transition: string, zs: seq<ZoneTransition>, o: Observation)
    requires forall z :: z in zs ==> z in o.zoneTransitions
    ensures forall fact :: fact in FirstTransition(rule, transition, zs).facts ==> ComesFrom(fact, o)
  {
    if zs != [] {
      assert zs[0] in zs;
      TransitionFact(rule, transition, zs[1..], o);
    }
  }

  lemma {:induction false} NearZoneFact(rule: Rule, price: real, zs: seq<Zone>, o: Observation)
    requires forall z :: z in zs ==> z in o.activeZones
    ensures forall fact :: fact in FirstNearZone(rule, price, zs).facts ==> ComesFrom(fact, o)
  {
    if zs != [] {
      assert zs[0] in zs;
      NearZoneFact(rule, price, zs[1..], o);
    }
  }

  lemma {:induction false} PatternFactComesFrom(rule: Rule, ps: seq<Pattern>, o: Observation)
    requires forall p :: p in ps ==> p in o.patterns
    ensures forall fact :: fact in FirstPattern(rule, ps).facts ==> ComesFrom(fact, o)
  {
    if ps != [] {
      assert ps[0] in ps;
      PatternFactComesFrom(rule, ps[1..], o);
    }
  }

  lemma {:induction false} ReadyComesFrom(key: IndicatorKey, indicators: seq<Indicator>)
    ensures var found := FirstReady(key, indicators);
            found.Some? ==> exists i :: i in indicators && i.ready && i.Key() == key && i.value == found.value
  {
    if indicators != [] {
      assert indicators[0] in indicators;
      ReadyComesFrom(key, indicators[1..]);
    }
  }

  // ----- Cost -----

  /** How many rule nodes one evaluation visits: all and any never stop early. */
  function Visits(rule: Rule): nat
    decreases rule, 1
  {
    match rule.kind
    case All => 1 + VisitsOfEach(rule.rules)
    case Any => 1 + VisitsOfEach(rule.rules)
    case Not => if rule.rule.Some? then 1 + Visits(rule.rule.value) else 1
    case _ => 1
  }

  function VisitsOfEach(rules: seq<Rule>): nat
    decreases rules, 0
  {
    if rules == [] then 0 else Visits(rules[0]) + VisitsOfEach(rules[1..])
  }

  /** Nodes of the full tree with the given number of levels and MAX_CHILDREN children a node. */
  function FullTree(levels: nat): nat {
    if levels == 0 then 0 else 1 + MAX_CHILDREN * FullTree(levels - 1)
  }

  lemma {:induction false} VisitsAreBounded(rule: Rule, depth: nat, levels: nat)
    requires ValidateAt(rule, depth) && levels == MAX_DEPTH + 1 - depth
    ensures Visits(rule) <= FullTree(levels)
    decreases rule, 1
  {
    match rule.kind
    case Not => VisitsAreBounded(rule.rule.value, depth + 1, levels - 1);
    case All => VisitsOfEachAreBounded(rule.rules, depth + 1, levels - 1, FullTree(levels - 1));
    case Any => VisitsOfEachAreBounded(rule.rules, depth + 1, levels - 1, FullTree(levels - 1));
    case _ =>
  }

  lemma {:induction false} VisitsOfEachAreBounded(rules: seq<Rule>, depth: nat, levels: nat, each: nat)
    requires levels == MAX_DEPTH + 1 - depth && each == FullTree(levels)
    requires ValidateEach(rules, depth) && |rules| <= MAX_CHILDREN
    ensures VisitsOfEach(rules) <= |rules| * each <= MAX_CHILDREN * each
    decreases rules, 0
  {
    if rules != [] {
      VisitsAreBounded(rules[0], depth, levels);
      VisitsOfEachAreBounded(rules[1..], depth, levels, each);
      OneMoreOf(|rules|, each);
    }
    NoMoreThan(|rules|, MAX_CHILDREN, each);
  }

  lemma {:induction false} OneMoreOf(n: nat, each: nat)
    ensures each + (n - 1) * each == n * each
  {
  }

  lemma {:induction false} NoMoreThan(n: nat, limit: nat, each: nat)
    requires n <= limit
    ensures n * each <= limit * each
  {
    if n < limit {
      NoMoreThan(n, limit - 1, each);
      OneMoreOf(limit, each);
    }
  }

  /** A validated rule visits at most (20^9 - 1) / 19 nodes. */
  lemma ValidatedVisits(rule: Rule)
    requires Validate(rule)
    ensures Visits(rule) <= (20 * 20 * 20 * 20 * 20 * 20 * 20 * 20 * 20 - 1) / 19
  {
    VisitsAreBounded(rule, 0, 9);
    assert FullTree(1) == 1 && FullTree(2) == 21 && FullTree(3) == 421;
    assert FullTree(4) == 8421 && FullTree(5) == 168421 && FullTree(6) == 3368421;
    assert FullTree(7) == 67368421 && FullTree(8) == 1347368421 && FullTree(9) == 26947368421;
  }
}
