/** Inputs every schema accepts on which the components disagree: the two ways a decision fails its
    re-checks, and the blocked list the suppression step will not accept. */
module Refusals {
  import opened Ids
  import opened Kleene
  import opened Conditions
  import opened Domain
  import opened Observations
  import opened Evaluator
  import opened SuppressionLaws
  import opened Agreement
  import opened Pipeline
  import opened Schemas
  import opened Examples

  const CANCEL_RULE: Id := 12
  const OVERRIDE: Id := 40

  lemma OneOperand(a: Id)
    ensures IsCondition(AllOf([Leaf(a)])) && Operands(AllOf([Leaf(a)])) == {a}
  {
    assert OperandsEach([Leaf(a)]) == Operands([Leaf(a)][0]) + OperandsEach([Leaf(a)][1..]);
  }

  lemma OneIsTrue(a: Id, t: map<Id, Truth>)
    requires Lookup(t, a) == True
    ensures Eval(AllOf([Leaf(a)]), t) == True
  {
  }

  // ---------------------------------------------------------------- a SUPPRESSION rule that fires

  /** Fires on the educational note. */
  function CancelRule(): Rule {
    Rule(Suppression, true, AllOf([Leaf(EDUCATIONAL)]), 2, {WEAK_FAMILY}, Verdict.Supported, None, None, {ENGLISH}, {LATIN})
  }

  function Cancelling(): Knowledge {
    var k := Bundle();
    k.(rules := k.rules[CANCEL_RULE := CancelRule()])
  }

  lemma RulesStayValid(k: Knowledge, k': Knowledge, rule: Rule)
    requires ValidRule(k, rule) && k'.indicators == k.indicators && k'.negatives.Keys == k.negatives.Keys
    ensures ValidRule(k', rule)
  {
  }

  lemma CancellingIsValid(k: Knowledge, k': Knowledge)
    requires k == Bundle() && k' == k.(rules := k.rules[CANCEL_RULE := CancelRule()])
    ensures ValidKnowledge(k')
  {
    BundleIsValid();
    OneOperand(EDUCATIONAL);
    assert ValidRule(k', CancelRule());
    forall r | r in k'.rules ensures ValidRule(k', k'.rules[r]) {
      if r != CANCEL_RULE {
        RulesStayValid(k, k', k.rules[r]);
      }
    }
  }

  lemma NoteFiresRule(k: Knowledge, gate: Level, c: Context, rid: Id)
    requires rid in PublishedRules(k) && k.rules[rid] == CancelRule() && EDUCATIONAL in k.negatives
    requires Shown(c, EDUCATIONAL) && c.language == ENGLISH && c.script == LATIN
    ensures SuppressionRuleFires(k, gate, c)
  {
    NoteIsTrue(gate, c);
    OneIsTrue(EDUCATIONAL, NegativeTruth(k, gate, c));
    assert FiresAsSuppression(k, gate, rid, c);
  }

  lemma NotedIsRefused(k: Knowledge, gate: Level, signs: seq<Id>, q: Request, rid: Id)
    requires SameVocabulary(k) && rid in PublishedRules(k) && k.rules[rid] == CancelRule()
    requires AllKnown(signs) && EDUCATIONAL in signs && q == Showing(signs)
    ensures ValidRequest(k, q) && !Rechecked(DecisionFor(k, gate, q))
  {
    ShowingIsValid(k, signs, q);
    SignsAreShown(signs, q);
    assert EDUCATIONAL in Elems(signs);
    NoteFiresRule(k, gate, RequestContext(q), rid);
    RefusedExactly(k, gate, q);
  }

  /** A published SUPPRESSION rule whose negative indicator is observed makes the assembler refuse a
      decision aggregation got right: its matched rules count every kind. */
  lemma SuppressionRuleIsRefused(gate: Level)
    ensures ValidKnowledge(Cancelling()) && ValidRequest(Cancelling(), Showing(After()))
    ensures !Rechecked(DecisionFor(Cancelling(), gate, Showing(After())))
  {
    CancellingIsValid(Bundle(), Cancelling());
    AfterIsKnown();
    NotedIsRefused(Cancelling(), gate, After(), Showing(After()), CANCEL_RULE);
  }

  // ---------------------------------------------------------------- a caller's error scoped to one rule

  function Failing(e: Aggregation.ErrorRecord): Request {
    Request([], [], [ENGLISH], [LATIN], Aggregation.Support.Error, [e])
  }

  /** A whole-evaluation error the caller scoped to a single rule is aggregated, then refused: under any
      knowledge, at any gate. */
  lemma SingleScopeIsRefused(k: Knowledge, gate: Level, e: Aggregation.ErrorRecord)
    requires e.scope.SingleRule?
    ensures ValidRequest(k, Failing(e)) && !Rechecked(DecisionFor(k, gate, Failing(e)))
  {
    assert Failing(e).whole[0] in multiset(Failing(e).whole);
    RefusedExactly(k, gate, Failing(e));
  }

  // ---------------------------------------------------------------- a blocked list the step refuses

  /** The bundle with a suppressor not declared blockable, and a hard-risk override against its category. */
  function Contested(): Knowledge {
    var k := Bundle();
    k.(negatives := map[EDUCATIONAL := k.negatives[EDUCATIONAL].(blockable := Some(false))],
       overrides := map[OVERRIDE := Override(AllOf([Leaf(URGENCY), Leaf(GREETING)]), {WEAK_FAMILY}, {}, Some({SAFETY}))])
  }

  lemma ContestedRecords(k: Knowledge)
    requires k == Contested()
    ensures k.indicators.Keys !! k.negatives.Keys !! k.rules.Keys
    ensures forall n :: n in k.negatives ==> ValidNegative(k, n)
    ensures forall o :: o in k.overrides ==> ValidOverride(k, k.overrides[o])
  {
    PairCondition(URGENCY, GREETING);
  }

  lemma ContestedIsValid(k: Knowledge, k': Knowledge)
    requires k == Bundle() && k' == Contested()
    ensures ValidKnowledge(k')
  {
    BundleIsValid();
    ContestedRecords(k');
    forall r | r in k'.rules ensures ValidRule(k', k'.rules[r]) {
      RulesStayValid(k, k', k.rules[r]);
    }
  }

  /** A hard-risk override on the two weak signs, against the category of the unblockable note. */
  ghost predicate ContestsNote(k: Knowledge) {
    && CancelsOnly(k) && OVERRIDE in k.overrides && EDUCATIONAL in k.negatives
    && k.overrides[OVERRIDE].condition == AllOf([Leaf(URGENCY), Leaf(GREETING)])
    && WEAK_FAMILY in k.overrides[OVERRIDE].families && k.overrides[OVERRIDE].blocks == Some({SAFETY})
    && WEAK_FAMILY in k.negatives[EDUCATIONAL].families
    && k.negatives[EDUCATIONAL].category == Some(SAFETY) && k.negatives[EDUCATIONAL].blockable == Some(false)
    && URGENCY in k.indicators && GREETING in k.indicators
  }

  lemma ContestedContests(k: Knowledge)
    requires k == Contested()
    ensures ContestsNote(k) && SameVocabulary(k)
    ensures WEAK_RULE in k.rules && k.rules[WEAK_RULE] == PairRule(URGENCY, GREETING, WEAK_FAMILY, Verdict.Supported)
    ensures OnPair(k, k.rules[WEAK_RULE], URGENCY, GREETING)
  {
  }

  lemma OverrideIsActive(k: Knowledge, gate: Level, c: Context, rid: Id, raw: map<Id, Truth>, categories: set<Id>)
    requires ContestsNote(k) && Shown(c, URGENCY) && Shown(c, GREETING) && WEAK_FAMILY in categories
    requires raw == TruthOf(OutcomesOf(RawReadings(k, gate, c)))
    ensures OVERRIDE in ActiveOverrides(k, rid, categories, raw)
  {
    RawIsTrue(k, gate, c, URGENCY);
    RawIsTrue(k, gate, c, GREETING);
    PairIsTrue(URGENCY, GREETING, raw);
    assert WEAK_FAMILY in categories * k.overrides[OVERRIDE].families;
  }

  /** The override is active for the rule, so the note's category is blocked. */
  lemma OverrideBlocks(k: Knowledge, gate: Level, c: Context, rid: Id, categories: set<Id>)
    requires ContestsNote(k) && Shown(c, URGENCY) && Shown(c, GREETING) && WEAK_FAMILY in categories
    ensures OVERRIDE in PictureOf(k, gate, rid, categories, c).overrides
    ensures SAFETY in PictureOf(k, gate, rid, categories, c).blocked
  {
    OverrideIsActive(k, gate, c, rid, TruthOf(OutcomesOf(RawReadings(k, gate, c))), categories);
    assert SAFETY in Blocks(k, OVERRIDE);
  }

  lemma NoteIsMatched(k: Knowledge, gate: Level, c: Context, categories: set<Id>)
    requires ContestsNote(k) && Shown(c, EDUCATIONAL) && WEAK_FAMILY in categories
    ensures EDUCATIONAL in MatchedNegatives(k, gate, c, categories)
  {
    NoteIsTrue(gate, c);
    assert WEAK_FAMILY in k.negatives[EDUCATIONAL].families * categories;
  }

  lemma NoteIsListed(k: Knowledge, p: Picture)
    requires ContestsNote(k) && OVERRIDE in p.overrides && SAFETY in p.blocked && EDUCATIONAL in p.negatives
    ensures ListedButNotBlockable(k, p, EDUCATIONAL)
  {
  }

  lemma ContestedRule(k: Knowledge, gate: Level, signs: seq<Id>, q: Request, rid: Id)
    requires SameVocabulary(k) && ContestsNote(k) && rid in k.rules
    requires k.rules[rid] == PairRule(URGENCY, GREETING, WEAK_FAMILY, Verdict.Supported) && OnPair(k, k.rules[rid], URGENCY, GREETING)
    requires AllKnown(signs) && URGENCY in signs && GREETING in signs && EDUCATIONAL in signs && q == Showing(signs)
    ensures ValidRequest(k, q)
    ensures RuleOutcome(k, gate, rid, RequestContext(q)) == Unavailable(rid, Composite, True, SUPPRESSION_EXECUTION_ERROR)
  {
    ShowingIsValid(k, signs, q);
    SignsAreShown(signs, q);
    assert URGENCY in Elems(signs) && GREETING in Elems(signs) && EDUCATIONAL in Elems(signs);
    ContestedOutcome(k, gate, RequestContext(q), rid);
  }

  lemma ContestedOutcome(k: Knowledge, gate: Level, c: Context, rid: Id)
    requires ContestsNote(k) && rid in k.rules && c.language == ENGLISH && c.script == LATIN
    requires k.rules[rid] == PairRule(URGENCY, GREETING, WEAK_FAMILY, Verdict.Supported) && OnPair(k, k.rules[rid], URGENCY, GREETING)
    requires Shown(c, URGENCY) && Shown(c, GREETING) && Shown(c, EDUCATIONAL)
    ensures RuleOutcome(k, gate, rid, c) == Unavailable(rid, Composite, True, SUPPRESSION_EXECUTION_ERROR)
  {
    var rule := k.rules[rid];
    PairFires(k, gate, rid, rule, c, URGENCY, GREETING);
    OverrideBlocks(k, gate, c, rid, rule.categories);
    NoteIsMatched(k, gate, c, rule.categories);
    NoteIsListed(k, PictureOf(k, gate, rid, rule.categories, c));
    DisagreementDegrades(k, gate, rid, rule, c, EDUCATIONAL);
    assert EvaluateRule(k, gate, rid, c) == CompositeResult(k, gate, rid, rule, c);
  }

  /** The evaluator matches the rule and lists the note as blocked; the step finds it unblockable and
      refuses the rule. */
  lemma BlockedListIsRefused(gate: Level)
    ensures ValidKnowledge(Contested()) && ValidRequest(Contested(), Showing(After()))
    ensures RuleOutcome(Contested(), gate, WEAK_RULE, RequestContext(Showing(After())))
         == Unavailable(WEAK_RULE, Composite, True, SUPPRESSION_EXECUTION_ERROR)
  {
    ContestedIsValid(Bundle(), Contested());
    AfterIsKnown();
    ContestedContests(Contested());
    ContestedRule(Contested(), gate, After(), Showing(After()), WEAK_RULE);
  }
}
