/** The production path: validate the observations, evaluate every published rule, suppress, aggregate, and
    let the two consumers re-check the decision before it leaves. */
module Pipeline {
  import opened Ids
  import opened Kleene
  import opened Conditions
  import opened Domain
  import opened Observations
  import opened Evaluator
  import opened EvaluatorLoops
  import opened Suppression
  import opened SuppressionLaws
  import opened AggregationLoops
  import opened Consumers
  import opened Agreement

  // ---------------------------------------------------------------- one rule, all rules

  /** Evaluation, then suppression. */
  function RuleOutcome(k: Knowledge, gate: Level, rid: Id, c: Context): RuleResult {
    Apply(k, EvaluateRule(k, gate, rid, c))
  }

  ghost predicate OutcomesFor(k: Knowledge, gate: Level, c: Context, order: seq<Id>, rs: seq<RuleResult>) {
    |rs| == |order| && forall i :: 0 <= i < |order| ==> rs[i] == RuleOutcome(k, gate, order[i], c)
  }

  /** Every published rule, in lexical order. */
  function RuleOutcomes(k: Knowledge, gate: Level, c: Context): (rs: seq<RuleResult>)
    ensures OutcomesFor(k, gate, c, Ascending(PublishedRules(k)), rs)
  {
    var order := Ascending(PublishedRules(k));
    seq(|order|, i requires 0 <= i < |order| => RuleOutcome(k, gate, order[i], c))
  }

  /** What aggregation reads of them: the set of canonical copies. */
  function Results(k: Knowledge, gate: Level, c: Context): set<RuleResult> {
    set rid | rid in PublishedRules(k) :: Aggregation.CanonicalCopy(RuleOutcome(k, gate, rid, c))
  }

  lemma ResultIsListed(k: Knowledge, gate: Level, c: Context, rid: Id)
    requires rid in PublishedRules(k)
    ensures Aggregation.CanonicalCopy(RuleOutcome(k, gate, rid, c)) in Results(k, gate, c)
  {
  }

  lemma SourceOf(k: Knowledge, gate: Level, c: Context, r: RuleResult) returns (rid: Id)
    requires r in Results(k, gate, c)
    ensures rid in PublishedRules(k) && r == Aggregation.CanonicalCopy(RuleOutcome(k, gate, rid, c))
  {
    rid :| rid in PublishedRules(k) && r == Aggregation.CanonicalCopy(RuleOutcome(k, gate, rid, c));
  }

  lemma ResultsAreOutcomes(k: Knowledge, gate: Level, c: Context)
    ensures Aggregation.CanonicalSet(RuleOutcomes(k, gate, c)) == Results(k, gate, c)
  {
  }

  // ---------------------------------------------------------------- what suppression hands on is accepted

  /** What the evaluator guarantees of every result, as far as aggregation's invariant matrix asks. */
  predicate WellFormed(k: Knowledge, r: RuleResult) {
    && !HasAggregationFields(r)
    && Aggregation.PairingAllowed(r.state, r.required)
    && (if r.state.NotApplicable? then r.error.Some? && r.error.value.code != 0 else r.error.None?)
    && (r.kind.Composite? && !r.state.NotApplicable? ==> r.verdict.Some?)
    && (forall i :: i in Elems(r.matchedPositive) + Elems(r.neutralised) ==> i in k.indicators)
    && (forall n :: n in Elems(r.matchedNegative) ==> n in k.negatives)
    && (forall o :: o in Elems(r.activeOverrides) ==> o in k.overrides)
    && (forall i :: i in r.provenance ==> i in Elems(r.matchedPositive))
  }

  lemma AssembledIsWellFormed(k: Knowledge, rid: Id, rule: Rule, c: Context, p: Picture,
                              outcomes: map<Id, Outcome>, neutralised: set<Id>, groups: map<Id, seq<Group>>)
    requires neutralised <= k.indicators.Keys && p.negatives <= k.negatives.Keys && p.overrides <= k.overrides.Keys
    ensures WellFormed(k, Assemble(k, rid, rule, c, p, outcomes, neutralised, groups))
    ensures Assemble(k, rid, rule, c, p, outcomes, neutralised, groups).ruleId == rid
  {
  }

  lemma CompositeIsWellFormed(k: Knowledge, gate: Level, rid: Id, rule: Rule, c: Context)
    ensures WellFormed(k, CompositeResult(k, gate, rid, rule, c))
    ensures CompositeResult(k, gate, rid, rule, c).ruleId == rid
  {
    var p := PictureOf(k, gate, rid, rule.categories, c);
    var readings := Readings(k, gate, c, p);
    AssembledIsWellFormed(k, rid, rule, c, p, OutcomesOf(readings), NeutralisedIn(readings), GroupsIn(readings));
  }

  lemma SuppressionIsWellFormed(k: Knowledge, gate: Level, rid: Id, rule: Rule, c: Context)
    ensures WellFormed(k, SuppressionResult(k, gate, rid, rule, c))
    ensures SuppressionResult(k, gate, rid, rule, c).ruleId == rid
  {
  }

  lemma EvaluationIsWellFormed(k: Knowledge, gate: Level, rid: Id, c: Context)
    ensures WellFormed(k, EvaluateRule(k, gate, rid, c))
    ensures EvaluateRule(k, gate, rid, c).ruleId == rid
  {
    if rid in k.rules && k.rules[rid].published && InScope(k.rules[rid], c) {
      CompositeIsWellFormed(k, gate, rid, k.rules[rid], c);
      SuppressionIsWellFormed(k, gate, rid, k.rules[rid], c);
    }
  }

  lemma SortedIsWellFormed(k: Knowledge, r: RuleResult)
    requires WellFormed(k, r)
    ensures WellFormed(k, CanonicalArrays(r))
  {
  }

  lemma DegradedIsWellFormed(k: Knowledge, r: RuleResult)
    ensures WellFormed(k, Degraded(r))
  {
  }

  lemma ResolvedIsWellFormed(k: Knowledge, r: RuleResult)
    requires WellFormed(k, r) && r.kind.Composite? && r.state.Matched? && r.effectiveSeverity.Some?
    ensures WellFormed(k, Resolved(k, r))
  {
  }

  lemma StepIsWellFormed(k: Knowledge, r: RuleResult)
    requires WellFormed(k, r)
    ensures WellFormed(k, Apply(k, r))
    ensures Apply(k, r).kind.Composite? && Apply(k, r).state.Matched? ==> Apply(k, r).effectiveSeverity.Some?
    ensures Apply(k, r).ruleId == r.ruleId
  {
    var c := CanonicalArrays(r);
    SortedIsWellFormed(k, r);
    DegradedIsWellFormed(k, c);
    if c.kind.Composite? && c.state.Matched? && c.effectiveSeverity.Some? {
      ResolvedIsWellFormed(k, c);
    }
  }

  lemma WellFormedIsAdmitted(k: Knowledge, r: RuleResult)
    requires WellFormed(k, r)
    requires r.kind.Composite? && r.state.Matched? ==> r.effectiveSeverity.Some?
    ensures Aggregation.Admitted(k, r)
  {
  }

  lemma OutcomeIsAdmitted(k: Knowledge, gate: Level, rid: Id, c: Context)
    ensures Aggregation.Admitted(k, RuleOutcome(k, gate, rid, c))
    ensures RuleOutcome(k, gate, rid, c).ruleId == rid
  {
    EvaluationIsWellFormed(k, gate, rid, c);
    StepIsWellFormed(k, EvaluateRule(k, gate, rid, c));
    WellFormedIsAdmitted(k, RuleOutcome(k, gate, rid, c));
  }

  /** Aggregation never refuses what the evaluator and the suppression step produced, whatever the
      knowledge and the observations say. */
  lemma ProductionIsAccepted(k: Knowledge, gate: Level, c: Context)
    ensures Aggregation.Accepted(k, RuleOutcomes(k, gate, c))
  {
    var order, rs := Ascending(PublishedRules(k)), RuleOutcomes(k, gate, c);
    forall r | r in rs ensures Aggregation.Admitted(k, r) {
      var i :| 0 <= i < |rs| && rs[i] == r;
      OutcomeIsAdmitted(k, gate, order[i], c);
    }
    forall i, j | 0 <= i < j < |rs| ensures rs[i].ruleId != rs[j].ruleId {
      OutcomeIsAdmitted(k, gate, order[i], c);
      OutcomeIsAdmitted(k, gate, order[j], c);
    }
  }

  // ---------------------------------------------------------------- the loops

  lemma NegativeTruthAt(k: Knowledge, gate: Level, c: Context, n: Id)
    requires n in c.byIndicator
    ensures n in NegativeTruth(k, gate, c) <==> n in k.negatives
    ensures n in k.negatives ==> NegativeTruth(k, gate, c)[n] == CombineNegative(gate, Elems(c.byIndicator[n])).value
  {
  }

  method NegativeTruthMap(k: Knowledge, gate: Level, c: Context) returns (truth: map<Id, Truth>)
    ensures truth == NegativeTruth(k, gate, c)
  {
    var order := Ascending(c.byIndicator.Keys);
    ghost var full := NegativeTruth(k, gate, c);
    truth := map[];
    for i := 0 to |order|
      invariant truth == Restricted(full, Elems(order[..i]))
    {
      var n := order[i];
      assert n in Elems(order);
      NegativeTruthAt(k, gate, c, n);
      RestrictedStep(full, Elems(order[..i]), n);
      ElemsOfPrefix(order, i);
      if n in k.negatives {
        var reading := CombineNegativeOccurrences(gate, c.byIndicator[n]);
        truth := truth[n := reading.value];
      }
    }
    assert order[..|order|] == order;
    assert full.Keys <= Elems(order);
    RestrictedAll(full, Elems(order));
  }

  method EvaluateSuppression(k: Knowledge, gate: Level, rid: Id, rule: Rule, c: Context) returns (r: RuleResult)
    ensures r == SuppressionResult(k, gate, rid, rule, c)
  {
    var truth := NegativeTruthMap(k, gate, c);
    var required := Eval(rule.require, truth);
    var matched := set n | n in Operands(rule.require) && Lookup(truth, n) == True;
    r := BareResult(rid, Suppression, StateOf(required, true), required).(
      matchedNegative := Ascending(matched),
      observationRefs := Ascending(CollectedRefs(c, matched)),
      verdict := Some(rule.verdict));
  }

  /** Not evaluated, for the reason named. */
  predicate TurnedAway(r: RuleResult, code: Id) {
    r.state.NotApplicable? && r.required == Truth.Unknown && r.error == Some(EvalError(code, NO_TEXT))
  }

  /** Published-only, in-scope-only evaluation of one rule by id. */
  method EvaluateById(k: Knowledge, gate: Level, rid: Id, c: Context) returns (r: RuleResult)
    ensures r == EvaluateRule(k, gate, rid, c)
    ensures TurnedAway(r, RULE_NOT_FOUND) <==> rid !in k.rules
    ensures TurnedAway(r, RULE_NOT_PUBLISHED) <==> rid in k.rules && !k.rules[rid].published
    ensures TurnedAway(r, LANGUAGE_OUT_OF_SCOPE) <==> rid in PublishedRules(k) && !InScope(k.rules[rid], c)
    ensures r.error.None? <==> rid in PublishedRules(k) && InScope(k.rules[rid], c)
    ensures r.error.None? && k.rules[rid].kind.Suppression? ==> r == SuppressionResult(k, gate, rid, k.rules[rid], c)
    ensures r.error.None? && k.rules[rid].kind.Composite? ==> r == CompositeResult(k, gate, rid, k.rules[rid], c)
  {
    if rid !in k.rules {
      return Unavailable(rid, Composite, Truth.Unknown, RULE_NOT_FOUND);
    }
    var rule := k.rules[rid];
    if !rule.published {
      return Unavailable(rid, rule.kind, Truth.Unknown, RULE_NOT_PUBLISHED);
    }
    if !InScope(rule, c) {
      return Unavailable(rid, rule.kind, Truth.Unknown, LANGUAGE_OUT_OF_SCOPE);
    }
    if rule.kind.Suppression? {
      r := EvaluateSuppression(k, gate, rid, rule, c);
    } else {
      r := EvaluateComposite(k, gate, rid, rule, c);
    }
  }

  /** `raw` evaluates the first rules of `order`. */
  ghost predicate Evaluates(k: Knowledge, gate: Level, c: Context, order: seq<Id>, raw: seq<RuleResult>) {
    |raw| <= |order| && forall j :: 0 <= j < |raw| ==> raw[j] == EvaluateRule(k, gate, order[j], c)
  }

  lemma OneMoreEvaluated(k: Knowledge, gate: Level, c: Context, order: seq<Id>, raw: seq<RuleResult>, r: RuleResult)
    requires Evaluates(k, gate, c, order, raw) && |raw| < |order| && r == EvaluateRule(k, gate, order[|raw|], c)
    ensures Evaluates(k, gate, c, order, raw + [r])
  {
  }

  lemma AppliedOutcomes(k: Knowledge, gate: Level, c: Context, order: seq<Id>, raw: seq<RuleResult>, rs: seq<RuleResult>)
    requires order == Ascending(PublishedRules(k)) && Evaluates(k, gate, c, order, raw) && |raw| == |order| == |rs|
    requires forall i :: 0 <= i < |raw| ==> rs[i] == Apply(k, raw[i])
    ensures rs == RuleOutcomes(k, gate, c)
  {
  }

  method EvaluateAll(k: Knowledge, gate: Level, c: Context) returns (rs: seq<RuleResult>)
    ensures rs == RuleOutcomes(k, gate, c)
  {
    var order := Ascending(PublishedRules(k));
    var raw: seq<RuleResult> := [];
    for i := 0 to |order|
      invariant |raw| == i && Evaluates(k, gate, c, order, raw)
    {
      var r := EvaluateById(k, gate, order[i], c);
      OneMoreEvaluated(k, gate, c, order, raw, r);
      raw := raw + [r];
    }
    rs := ApplyAll(k, raw);
    AppliedOutcomes(k, gate, c, order, raw, rs);
  }

  // ---------------------------------------------------------------- one detection

  /** Everything a caller supplies, apart from identity and timestamp. */
  datatype Request = Request(
    occurrences: seq<Occurrence>,
    observations: seq<Named>,
    languages: seq<Id>,
    scripts: seq<Id>,
    support: Aggregation.Support,
    whole: seq<Aggregation.ErrorRecord>)

  const EMPTY_NAME: Id := 0

  predicate Nameable(names: seq<Id>) {
    names != [] && EMPTY_NAME !in names
  }

  /** Rules run only for evaluable support, and only when nothing failed upstream. */
  predicate RunsRules(q: Request) {
    q.whole == [] && Aggregation.Evaluable(q.support)
  }

  /** The requests the boundary does not reject. */
  ghost predicate Wellposed(q: Request) {
    && Nameable(q.languages) && Nameable(q.scripts)
    && (q.whole != [] ==> q.support.Error?)
    && (RunsRules(q) ==> |q.languages| == 1 && |q.scripts| == 1 && Admissible(q.occurrences, q.observations))
  }

  function RequestContext(q: Request): Context
    requires |q.languages| == 1 && |q.scripts| == 1
  {
    ContextFor(q.occurrences, q.observations, q.languages[0], q.scripts[0])
  }

  /** The per-rule results aggregation is given: none unless rules run. */
  function RequestResults(k: Knowledge, gate: Level, q: Request): seq<RuleResult>
    requires RunsRules(q) ==> |q.languages| == 1 && |q.scripts| == 1
  {
    if RunsRules(q) then RuleOutcomes(k, gate, RequestContext(q)) else []
  }

  lemma ResultsAreAccepted(k: Knowledge, gate: Level, q: Request)
    requires Wellposed(q)
    ensures Aggregation.Accepted(k, RequestResults(k, gate, q))
  {
    if RunsRules(q) {
      ProductionIsAccepted(k, gate, RequestContext(q));
    }
  }

  ghost function DecisionFor(k: Knowledge, gate: Level, q: Request): Aggregation.Decision
    requires Wellposed(q)
  {
    ResultsAreAccepted(k, gate, q);
    Aggregation.Aggregate(k, q.support, RequestResults(k, gate, q), q.whole).value
  }

  /** Both consumers accept the decision. */
  ghost predicate Rechecked(d: Aggregation.Decision) {
    RollupsAgree(d) && ClassificationAgrees(d) && Clean(d)
  }

  method Recheck(d: Aggregation.Decision) returns (ok: bool)
    ensures ok <==> Rechecked(d)
  {
    ok := CheckRollups(d);
    if !ok || !ClassificationAgrees(d) {
      return false;
    }
    var violations := SemanticViolations(d);
    ok := violations == [];
    if !ok {
      assert Violates(d, violations[0]);
    }
  }

  /** Support first, then rules, then the re-checks: `None` is a refusal. */
  method Detect(k: Knowledge, gate: Level, q: Request) returns (result: Option<Aggregation.Decision>)
    ensures result.Some? <==> Wellposed(q) && Rechecked(DecisionFor(k, gate, q))
    ensures result.Some? ==> result.value == DecisionFor(k, gate, q)
  {
    if !Nameable(q.languages) || !Nameable(q.scripts) || (q.whole != [] && !q.support.Error?) {
      return None;
    }
    var rs: seq<RuleResult> := [];
    if q.whole == [] && Aggregation.Evaluable(q.support) {
      if |q.languages| != 1 || |q.scripts| != 1 {
        return None;
      }
      var context := BuildContext(q.occurrences, q.observations, q.languages[0], q.scripts[0]);
      if context.None? {
        return None;
      }
      rs := EvaluateAll(k, gate, context.value);
    }
    ResultsAreAccepted(k, gate, q);
    var decision := AggregateDecision(k, q.support, rs, q.whole);
    var ok := Recheck(decision.value);
    return if ok then decision else None;
  }

  // ---------------------------------------------------------------- producer and consumers

  /** A published SUPPRESSION rule fires on the negative evidence. */
  ghost predicate SuppressionRuleFires(k: Knowledge, gate: Level, c: Context) {
    exists rid :: rid in PublishedRules(k) && FiresAsSuppression(k, gate, rid, c)
  }

  predicate FiresAsSuppression(k: Knowledge, gate: Level, rid: Id, c: Context)
    requires rid in k.rules
  {
    k.rules[rid].kind.Suppression? && InScope(k.rules[rid], c) && Eval(k.rules[rid].require, NegativeTruth(k, gate, c)) == True
  }

  lemma MatchedSuppressionIsFiring(k: Knowledge, gate: Level, rid: Id, c: Context)
    requires rid in PublishedRules(k)
    ensures var r := RuleOutcome(k, gate, rid, c);
      r.kind == Suppression && r.state.Matched? <==> FiresAsSuppression(k, gate, rid, c)
  {
    StatesMoveLawfully(k, EvaluateRule(k, gate, rid, c));
  }

  lemma SuppressionMatchedExactly(k: Knowledge, gate: Level, c: Context)
    ensures MatchedOfKind(Results(k, gate, c), Suppression) <==> SuppressionRuleFires(k, gate, c)
  {
    if MatchedOfKind(Results(k, gate, c), Suppression) {
      var r :| r in Results(k, gate, c) && r.kind == Suppression && r.state.Matched?;
      var rid := SourceOf(k, gate, c, r);
      MatchedSuppressionIsFiring(k, gate, rid, c);
    }
    if SuppressionRuleFires(k, gate, c) {
      var rid :| rid in PublishedRules(k) && FiresAsSuppression(k, gate, rid, c);
      MatchedSuppressionIsFiring(k, gate, rid, c);
      ResultIsListed(k, gate, c, rid);
    }
  }

  lemma AcceptedIsSound(k: Knowledge, rs: seq<RuleResult>)
    requires Aggregation.Accepted(k, rs)
    ensures forall r :: r in Aggregation.CanonicalSet(rs) ==> Aggregation.Sound(k, r)
  {
  }

  lemma RecheckConditions(support: Aggregation.Support, all: set<RuleResult>, whole: multiset<Aggregation.ErrorRecord>)
    requires Aggregation.Evaluated(support, whole) || all == {}
    requires whole != multiset{} ==> support.Error?
    ensures CleanInputs(support, all, whole) <==> !MatchedOfKind(all, Suppression)
    ensures Aggregation.Evaluated(support, whole) || Aggregation.EligibleIn(all) == {}
    ensures ClassifiableInputs(support, all, whole)
  {
  }

  lemma RecheckedExactly(k: Knowledge, support: Aggregation.Support, all: set<RuleResult>, whole: multiset<Aggregation.ErrorRecord>)
    requires Aggregation.DistinctIds(all) && forall r :: r in all ==> Aggregation.Sound(k, r)
    requires Aggregation.Evaluated(support, whole) || all == {}
    requires whole != multiset{} ==> support.Error?
    ensures Rechecked(Aggregation.Decide(k, support, all, whole)) <==> !MatchedOfKind(all, Suppression) && NoSingleScope(whole)
  {
    RecheckConditions(support, all, whole);
    CleanExactly(k, support, all, whole);
    RollupsExactly(k, support, all, whole);
    ClassificationExactly(k, support, all, whole);
  }

  /** On the production path a well-posed request is refused by the re-checks for two reasons only: a
      published SUPPRESSION rule fired (the assembler counts matched rules of every kind, aggregation only
      composites), or a trusted whole-evaluation error was scoped to a single rule. */
  lemma RefusedExactly(k: Knowledge, gate: Level, q: Request)
    requires Wellposed(q)
    ensures Rechecked(DecisionFor(k, gate, q)) <==>
      !(RunsRules(q) && SuppressionRuleFires(k, gate, RequestContext(q))) && NoSingleScope(multiset(q.whole))
  {
    ResultsAreAccepted(k, gate, q);
    var rs := RequestResults(k, gate, q);
    Aggregation.CanonicalIdsDistinct(rs);
    AcceptedIsSound(k, rs);
    assert rs == [] ==> Aggregation.CanonicalSet(rs) == {};
    RecheckedExactly(k, q.support, Aggregation.CanonicalSet(rs), multiset(q.whole));
    if RunsRules(q) {
      ResultsAreOutcomes(k, gate, RequestContext(q));
      SuppressionMatchedExactly(k, gate, RequestContext(q));
    }
  }
}
