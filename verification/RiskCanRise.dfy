/** Benign evidence can raise the risk where a firing rule outranks the decision: cancelling the governing
    rule may hand the decision to a rule with stronger evidence. One concrete pair of requests shows it. */
module RiskCanRise {
  import opened Ids
  import opened Kleene
  import opened Domain
  import opened Observations
  import opened Evaluator
  import opened Suppression
  import opened SuppressionLaws
  import opened Aggregation
  import opened Agreement
  import opened Pipeline
  import opened Benign
  import opened RiskBound
  import opened Schemas
  import opened Examples

  const WEAK_SIGNS: set<Id> := {URGENCY, GREETING}
  const STRONG_SIGNS: set<Id> := {PIN_PROMPT, RECEIVE_FRAMING}

  // ---------------------------------------------------------------- one rule

  /** What the evaluator says of a rule on these signs, with no override about. */
  ghost predicate FiresOn(r: RuleResult, signs: set<Id>, verdict: Verdict, negatives: set<Id>) {
    && r.kind.Composite? && r.state.Matched? && r.required == True && !HasAggregationFields(r)
    && Elems(r.matchedPositive) == signs && Elems(r.matchedNegative) == negatives && r.activeOverrides == []
    && r.verdict == Some(verdict) && r.effectiveSeverity == Some(Severity.High) && r.suppression.None?
  }

  lemma FiresWithoutOverride(k: Knowledge, r: RuleResult, signs: set<Id>, rule: Rule, p: Picture)
    requires Fires(r, signs, rule, p) && p.overrides == {} && r.suppression == Candidates(k, p) && CancelsOnly(k)
    requires EffectiveSeverity(rule) == Some(Severity.High)
    ensures FiresOn(r, signs, rule.verdict, p.negatives)
  {
    assert BlockedForInformation(k, p) == {} && ContextOnlyPresent(k, p) == {};
    ListedUnlessEmpty(r.activeOverrides);
  }

  lemma CompositeFires(k: Knowledge, gate: Level, rid: Id, rule: Rule, c: Context, a: Id, b: Id)
    requires k.overrides == map[] && CancelsOnly(k) && OnPair(k, rule, a, b) && Shown(c, a) && Shown(c, b)
    requires EffectiveSeverity(rule) == Some(Severity.High)
    ensures FiresOn(CompositeResult(k, gate, rid, rule, c), {a, b}, rule.verdict, MatchedNegatives(k, gate, c, rule.categories))
  {
    var p := PictureOf(k, gate, rid, rule.categories, c);
    assert p.overrides == {};
    PairFires(k, gate, rid, rule, c, a, b);
    EvaluatorsList(k, gate, rid, rule, c);
    FiresWithoutOverride(k, CompositeResult(k, gate, rid, rule, c), {a, b}, rule, p);
  }

  /** The suppression step lets it pass when nothing matched against it. */
  lemma StepFires(k: Knowledge, r: RuleResult, signs: set<Id>, verdict: Verdict)
    requires FiresOn(r, signs, verdict, {})
    ensures FiresAfter(Apply(k, r), signs, verdict) && Apply(k, r).ruleId == r.ruleId
  {
    var c := CanonicalArrays(r);
    assert Ascending({}) == [] && c.activeOverrides == [] && c.matchedNegative == [];
    assert Acceptable(k, c);
    assert Suppressors(k, c) == {} && Caps(k, c) == {} && Ceilings(k, c) == {};
  }

  /** It cancels it when an unblockable suppressor matched. */
  lemma StepCancels(k: Knowledge, r: RuleResult, signs: set<Id>, verdict: Verdict, n: Id)
    requires FiresOn(r, signs, verdict, {n})
    requires Readable(k, n) && k.negatives[n].effect == SuppressRule
    ensures !Apply(k, r).state.Matched?
  {
  }

  ghost predicate FiresAfter(r: RuleResult, signs: set<Id>, verdict: Verdict) {
    && Eligible(r) && Elems(r.matchedPositive) == signs && r.activeOverrides == []
    && r.verdict == Some(verdict) && r.effectiveSeverity == Some(Severity.High)
  }

  lemma OutcomeFires(k: Knowledge, gate: Level, rid: Id, rule: Rule, c: Context, signs: set<Id>)
    requires rid in PublishedRules(k) && k.rules[rid] == rule && rule.kind.Composite? && InScope(rule, c)
    requires FiresOn(CompositeResult(k, gate, rid, rule, c), signs, rule.verdict, {})
    ensures FiresAfter(RuleOutcome(k, gate, rid, c), signs, rule.verdict)
  {
    CompositeOutcome(k, gate, rid, c);
    StepFires(k, CompositeResult(k, gate, rid, rule, c), signs, rule.verdict);
  }

  lemma OutcomeIsCancelled(k: Knowledge, gate: Level, rid: Id, rule: Rule, c: Context, signs: set<Id>, n: Id)
    requires rid in PublishedRules(k) && k.rules[rid] == rule && rule.kind.Composite? && InScope(rule, c)
    requires FiresOn(CompositeResult(k, gate, rid, rule, c), signs, rule.verdict, {n})
    requires Readable(k, n) && k.negatives[n].effect == SuppressRule
    ensures !Eligible(RuleOutcome(k, gate, rid, c))
  {
    var r := CompositeResult(k, gate, rid, rule, c);
    CompositeOutcome(k, gate, rid, c);
    StepCancels(k, r, signs, rule.verdict, n);
    assert RuleOutcome(k, gate, rid, c).state == Apply(k, r).state;
  }

  // ---------------------------------------------------------------- the two rules of the bundle

  lemma PairsOfBundle(k: Knowledge)
    requires k == Bundle()
    ensures OnPair(k, PairRule(URGENCY, GREETING, WEAK_FAMILY, Verdict.Supported), URGENCY, GREETING)
    ensures OnPair(k, PairRule(PIN_PROMPT, RECEIVE_FRAMING, STRONG_FAMILY, Partial), PIN_PROMPT, RECEIVE_FRAMING)
    ensures CancelsOnly(k) && k.overrides == map[] && Readable(k, EDUCATIONAL)
  {
  }

  lemma RulesOfBundle(k: Knowledge)
    requires k == Bundle()
    ensures PublishedRules(k) == {WEAK_RULE, STRONG_RULE}
    ensures k.rules[WEAK_RULE] == PairRule(URGENCY, GREETING, WEAK_FAMILY, Verdict.Supported)
    ensures k.rules[STRONG_RULE] == PairRule(PIN_PROMPT, RECEIVE_FRAMING, STRONG_FAMILY, Partial)
  {
  }

  lemma BundleRules(k: Knowledge, c: Context, noted: bool)
    requires k == Bundle() && ShowsAll(c, noted)
    ensures PublishedRules(k) == {WEAK_RULE, STRONG_RULE}
    ensures k.rules[WEAK_RULE] == PairRule(URGENCY, GREETING, WEAK_FAMILY, Verdict.Supported)
    ensures k.rules[STRONG_RULE] == PairRule(PIN_PROMPT, RECEIVE_FRAMING, STRONG_FAMILY, Partial)
    ensures OnPair(k, k.rules[WEAK_RULE], URGENCY, GREETING) && OnPair(k, k.rules[STRONG_RULE], PIN_PROMPT, RECEIVE_FRAMING)
    ensures InScope(k.rules[WEAK_RULE], c) && InScope(k.rules[STRONG_RULE], c)
    ensures CancelsOnly(k) && k.overrides == map[] && Readable(k, EDUCATIONAL)
  {
    PairsOfBundle(k);
    RulesOfBundle(k);
  }

  /** The four signs, and perhaps the note. */
  ghost predicate ShowsAll(c: Context, noted: bool) {
    Shows(c, if noted then WEAK_SIGNS + STRONG_SIGNS + {EDUCATIONAL} else WEAK_SIGNS + STRONG_SIGNS)
  }

  lemma NoteCounts(k: Knowledge, gate: Level, c: Context, noted: bool, family: Id)
    requires k.negatives == Bundle().negatives && ShowsAll(c, noted)
    ensures MatchedNegatives(k, gate, c, {family}) == if noted && family == WEAK_FAMILY then {EDUCATIONAL} else {}
  {
    if noted {
      NoteIsTrue(gate, c);
    }
    NoteApplies(k, family);
  }

  lemma NoteApplies(k: Knowledge, family: Id)
    requires k.negatives == Bundle().negatives
    ensures forall n :: NegativeApplies(k, n, {family}) <==> n == EDUCATIONAL && family == WEAK_FAMILY
  {
    assert WEAK_FAMILY in k.negatives[EDUCATIONAL].families * {WEAK_FAMILY};
  }

  lemma WeakRuleFires(k: Knowledge, gate: Level, c: Context, rid: Id)
    requires k == Bundle() && ShowsAll(c, false) && rid == WEAK_RULE
    ensures FiresAfter(RuleOutcome(k, gate, rid, c), WEAK_SIGNS, Verdict.Supported)
  {
    BundleRules(k, c, false);
    NoteCounts(k, gate, c, false, WEAK_FAMILY);
    CompositeFires(k, gate, rid, k.rules[rid], c, URGENCY, GREETING);
    OutcomeFires(k, gate, rid, k.rules[rid], c, WEAK_SIGNS);
  }

  lemma WeakRuleIsCancelled(k: Knowledge, gate: Level, c: Context, rid: Id)
    requires k == Bundle() && ShowsAll(c, true) && rid == WEAK_RULE
    ensures !Eligible(RuleOutcome(k, gate, rid, c))
  {
    BundleRules(k, c, true);
    NoteCounts(k, gate, c, true, WEAK_FAMILY);
    CompositeFires(k, gate, rid, k.rules[rid], c, URGENCY, GREETING);
    OutcomeIsCancelled(k, gate, rid, k.rules[rid], c, WEAK_SIGNS, EDUCATIONAL);
  }

  lemma StrongRuleFires(k: Knowledge, gate: Level, c: Context, noted: bool, rid: Id)
    requires k == Bundle() && ShowsAll(c, noted) && rid == STRONG_RULE
    ensures FiresAfter(RuleOutcome(k, gate, rid, c), STRONG_SIGNS, Partial)
  {
    BundleRules(k, c, noted);
    NoteCounts(k, gate, c, noted, STRONG_FAMILY);
    CompositeFires(k, gate, rid, k.rules[rid], c, PIN_PROMPT, RECEIVE_FRAMING);
    OutcomeFires(k, gate, rid, k.rules[rid], c, STRONG_SIGNS);
  }

  // ---------------------------------------------------------------- the decision

  lemma CopyFires(r: RuleResult, signs: set<Id>, verdict: Verdict)
    ensures FiresAfter(r, signs, verdict) ==> FiresAfter(CanonicalCopy(r), signs, verdict)
    ensures Eligible(CanonicalCopy(r)) <==> Eligible(r)
  {
  }

  /** Every one of these signs has this strength. */
  predicate AllOfStrength(k: Knowledge, signs: set<Id>, strength: Strength) {
    signs != {} && forall i :: i in signs ==> i in k.indicators && k.indicators[i].strength == strength
  }

  lemma StrengthOnSigns(k: Knowledge, r: RuleResult, signs: set<Id>, verdict: Verdict, strength: Strength)
    requires FiresAfter(r, signs, verdict) && AllOfStrength(k, signs, strength)
    ensures RuleStrength(k, r) == if strength.Rank() <= VerdictCap(Some(verdict)).Rank() then strength else VerdictCap(Some(verdict))
  {
    assert forall i :: i in r.matchedPositive <==> i in Elems(r.matchedPositive);
    var any :| any in signs;
  }

  /** The risk aggregation computes for these results, when some are eligible. */
  ghost predicate AxisRisk(k: Knowledge, rs: set<RuleResult>, risk: Severity) {
    EligibleIn(rs) != {} && FiredAxes(k, Support.Supported, rs).risk == Some(risk)
  }

  lemma RiskOf(k: Knowledge, rs: set<RuleResult>, g: RuleResult, strength: Strength, risk: Severity)
    requires EligibleIn(rs) != {} && Governing(EligibleIn(rs)) == g && g.effectiveSeverity == Some(Severity.High)
    requires RuleStrength(k, g) == strength && RiskLevel(Severity.High, strength) == risk
    ensures AxisRisk(k, rs, risk)
  {
    RiskIsGovernings(k, Support.Supported, rs);
  }

  /** Both rules fire: the weak one, better supported, governs. */
  ghost predicate BothFire(rs: set<RuleResult>) {
    && (exists a :: a in rs && FiresAfter(a, WEAK_SIGNS, Verdict.Supported))
    && (forall r :: r in rs ==> FiresAfter(r, WEAK_SIGNS, Verdict.Supported) || FiresAfter(r, STRONG_SIGNS, Partial))
  }

  /** Only the strong rule fires. */
  ghost predicate StrongFires(rs: set<RuleResult>) {
    && (exists b :: b in rs && FiresAfter(b, STRONG_SIGNS, Partial))
    && (forall r :: r in rs && Eligible(r) ==> FiresAfter(r, STRONG_SIGNS, Partial))
  }

  lemma WeakGoverns(rs: set<RuleResult>)
    requires BothFire(rs)
    ensures EligibleIn(rs) != {} && FiresAfter(Governing(EligibleIn(rs)), WEAK_SIGNS, Verdict.Supported)
  {
    var a :| a in rs && FiresAfter(a, WEAK_SIGNS, Verdict.Supported);
    assert a in EligibleIn(rs);
    var g := Governing(EligibleIn(rs));
    assert Precedes(g, a);
  }

  lemma StrongGoverns(rs: set<RuleResult>)
    requires StrongFires(rs)
    ensures EligibleIn(rs) != {} && FiresAfter(Governing(EligibleIn(rs)), STRONG_SIGNS, Partial)
  {
    var b :| b in rs && FiresAfter(b, STRONG_SIGNS, Partial);
    assert b in EligibleIn(rs);
    var g := Governing(EligibleIn(rs));
    assert g in EligibleIn(rs);
  }

  lemma RiskBefore(k: Knowledge, rs: set<RuleResult>)
    requires AllOfStrength(k, WEAK_SIGNS, Weak) && BothFire(rs)
    ensures AxisRisk(k, rs, Severity.Medium)
  {
    WeakGoverns(rs);
    var g := Governing(EligibleIn(rs));
    StrengthOnSigns(k, g, WEAK_SIGNS, Verdict.Supported, Weak);
    RiskOf(k, rs, g, Weak, Severity.Medium);
  }

  lemma RiskAfter(k: Knowledge, rs: set<RuleResult>)
    requires AllOfStrength(k, STRONG_SIGNS, Strong) && StrongFires(rs)
    ensures AxisRisk(k, rs, Severity.High)
  {
    StrongGoverns(rs);
    var g := Governing(EligibleIn(rs));
    StrengthOnSigns(k, g, STRONG_SIGNS, Partial, Strong);
    RiskOf(k, rs, g, Moderate, Severity.High);
  }

  lemma DecidedRisk(k: Knowledge, rs: set<RuleResult>, risk: Severity)
    requires Aggregation.DistinctIds(rs) && AxisRisk(k, rs, risk)
    ensures Decide(k, Support.Supported, rs, multiset{}).risk == Some(risk)
  {
    DecisionFields(k, Support.Supported, rs, multiset{});
  }

  lemma DecisionRisk(k: Knowledge, gate: Level, q: Request, rs: set<RuleResult>, risk: Severity)
    requires Wellposed(q) && RunsRules(q) && q.support == Support.Supported
    requires Results(k, gate, RequestContext(q)) == rs && AxisRisk(k, rs, risk)
    ensures HasRisk(k, gate, q, risk)
  {
    ResultsAreAccepted(k, gate, q);
    ResultsAreOutcomes(k, gate, RequestContext(q));
    CanonicalIdsDistinct(RequestResults(k, gate, q));
    DecidedRisk(k, rs, risk);
    assert multiset(q.whole) == multiset{};
  }

  ghost predicate HasRisk(k: Knowledge, gate: Level, q: Request, risk: Severity) {
    Wellposed(q) && DecisionFor(k, gate, q).risk == Some(risk)
  }

  lemma ResultBefore(k: Knowledge, gate: Level, c: Context, rid: Id, r: RuleResult)
    requires k == Bundle() && ShowsAll(c, false) && (rid == WEAK_RULE || rid == STRONG_RULE)
    requires r == CanonicalCopy(RuleOutcome(k, gate, rid, c))
    ensures rid == WEAK_RULE ==> FiresAfter(r, WEAK_SIGNS, Verdict.Supported)
    ensures rid == STRONG_RULE ==> FiresAfter(r, STRONG_SIGNS, Partial)
  {
    if rid == WEAK_RULE {
      WeakRuleFires(k, gate, c, rid);
      CopyFires(RuleOutcome(k, gate, rid, c), WEAK_SIGNS, Verdict.Supported);
    } else {
      StrongRuleFires(k, gate, c, false, rid);
      CopyFires(RuleOutcome(k, gate, rid, c), STRONG_SIGNS, Partial);
    }
  }

  lemma ResultAfter(k: Knowledge, gate: Level, c: Context, rid: Id, r: RuleResult)
    requires k == Bundle() && ShowsAll(c, true) && (rid == WEAK_RULE || rid == STRONG_RULE)
    requires r == CanonicalCopy(RuleOutcome(k, gate, rid, c))
    ensures rid == WEAK_RULE ==> !Eligible(r)
    ensures rid == STRONG_RULE ==> FiresAfter(r, STRONG_SIGNS, Partial)
  {
    if rid == WEAK_RULE {
      WeakRuleIsCancelled(k, gate, c, rid);
      CopyFires(RuleOutcome(k, gate, rid, c), WEAK_SIGNS, Verdict.Supported);
    } else {
      StrongRuleFires(k, gate, c, true, rid);
      CopyFires(RuleOutcome(k, gate, rid, c), STRONG_SIGNS, Partial);
    }
  }

  lemma PublishedInBundle(k: Knowledge, rid: Id)
    requires k == Bundle() && rid in PublishedRules(k)
    ensures rid == WEAK_RULE || rid == STRONG_RULE
  {
  }

  lemma EachBefore(k: Knowledge, gate: Level, c: Context, r: RuleResult)
    requires k == Bundle() && ShowsAll(c, false) && r in Results(k, gate, c)
    ensures FiresAfter(r, WEAK_SIGNS, Verdict.Supported) || FiresAfter(r, STRONG_SIGNS, Partial)
  {
    var rid := SourceOf(k, gate, c, r);
    PublishedInBundle(k, rid);
    ResultBefore(k, gate, c, rid, r);
  }

  lemma EachAfter(k: Knowledge, gate: Level, c: Context, r: RuleResult)
    requires k == Bundle() && ShowsAll(c, true) && r in Results(k, gate, c)
    ensures Eligible(r) ==> FiresAfter(r, STRONG_SIGNS, Partial)
  {
    var rid := SourceOf(k, gate, c, r);
    PublishedInBundle(k, rid);
    ResultAfter(k, gate, c, rid, r);
  }

  lemma ListedBefore(k: Knowledge, gate: Level, c: Context, rid: Id) returns (r: RuleResult)
    requires k == Bundle() && ShowsAll(c, false) && rid == WEAK_RULE
    ensures r in Results(k, gate, c) && FiresAfter(r, WEAK_SIGNS, Verdict.Supported)
  {
    BundleRules(k, c, false);
    r := CanonicalCopy(RuleOutcome(k, gate, rid, c));
    ResultIsListed(k, gate, c, rid);
    ResultBefore(k, gate, c, rid, r);
  }

  lemma ListedAfter(k: Knowledge, gate: Level, c: Context, rid: Id) returns (r: RuleResult)
    requires k == Bundle() && ShowsAll(c, true) && rid == STRONG_RULE
    ensures r in Results(k, gate, c) && FiresAfter(r, STRONG_SIGNS, Partial)
  {
    BundleRules(k, c, true);
    r := CanonicalCopy(RuleOutcome(k, gate, rid, c));
    ResultIsListed(k, gate, c, rid);
    ResultAfter(k, gate, c, rid, r);
  }

  lemma BothFireBefore(k: Knowledge, gate: Level, c: Context)
    requires k == Bundle() && ShowsAll(c, false)
    ensures BothFire(Results(k, gate, c))
  {
    forall r | r in Results(k, gate, c)
      ensures FiresAfter(r, WEAK_SIGNS, Verdict.Supported) || FiresAfter(r, STRONG_SIGNS, Partial)
    {
      EachBefore(k, gate, c, r);
    }
    var a := ListedBefore(k, gate, c, WEAK_RULE);
  }

  lemma StrongFiresAfter(k: Knowledge, gate: Level, c: Context)
    requires k == Bundle() && ShowsAll(c, true)
    ensures StrongFires(Results(k, gate, c))
  {
    forall r | r in Results(k, gate, c) && Eligible(r) ensures FiresAfter(r, STRONG_SIGNS, Partial) {
      EachAfter(k, gate, c, r);
    }
    var b := ListedAfter(k, gate, c, STRONG_RULE);
  }

  lemma BundleStrengths(k: Knowledge)
    requires k == Bundle()
    ensures AllOfStrength(k, WEAK_SIGNS, Weak) && AllOfStrength(k, STRONG_SIGNS, Strong)
  {
    assert URGENCY in WEAK_SIGNS && PIN_PROMPT in STRONG_SIGNS;
  }

  lemma MediumBefore(k: Knowledge, gate: Level, c: Context)
    requires k == Bundle() && ShowsAll(c, false)
    ensures AxisRisk(k, Results(k, gate, c), Severity.Medium)
  {
    BothFireBefore(k, gate, c);
    BundleStrengths(k);
    RiskBefore(k, Results(k, gate, c));
  }

  lemma HighAfter(k: Knowledge, gate: Level, c: Context)
    requires k == Bundle() && ShowsAll(c, true)
    ensures AxisRisk(k, Results(k, gate, c), Severity.High)
  {
    StrongFiresAfter(k, gate, c);
    BundleStrengths(k);
    RiskAfter(k, Results(k, gate, c));
  }

  lemma RiskBeforeNote(k: Knowledge, gate: Level, q: Request)
    requires k == Bundle() && Wellposed(q) && RunsRules(q) && q.support == Support.Supported
    requires ShowsAll(RequestContext(q), false)
    ensures HasRisk(k, gate, q, Severity.Medium)
  {
    MediumBefore(k, gate, RequestContext(q));
    DecisionRisk(k, gate, q, Results(k, gate, RequestContext(q)), Severity.Medium);
  }

  lemma RiskAfterNote(k: Knowledge, gate: Level, q: Request)
    requires k == Bundle() && Wellposed(q) && RunsRules(q) && q.support == Support.Supported
    requires ShowsAll(RequestContext(q), true)
    ensures HasRisk(k, gate, q, Severity.High)
  {
    HighAfter(k, gate, RequestContext(q));
    DecisionRisk(k, gate, q, Results(k, gate, RequestContext(q)), Severity.High);
  }

  /** More signs, none of them a positive indicator. */
  lemma MoreSignsAddBenign(k: Knowledge, signs: seq<Id>, signs': seq<Id>)
    requires Elems(signs) <= Elems(signs') && forall s :: s in Elems(signs') - Elems(signs) ==> s !in k.indicators
    requires NoRepeats(signs) && NoRepeats(signs')
    ensures AddsBenign(k, Showing(signs), Showing(signs'))
  {
    var q, q' := Showing(signs), Showing(signs');
    ShownObservations(signs');
    forall o | o in q.occurrences || o in q'.occurrences
      ensures o in q.occurrences <==> o.indicator in Elems(signs)
      ensures o in q'.occurrences <==> o.indicator in Elems(signs')
    {
      ShownOccurrences(signs, o);
      ShownOccurrences(signs', o);
    }
    forall n | n in q.observations ensures n in q'.observations {
      var i :| 0 <= i < |signs| && n == (RefOf(signs[i]), DIRECT);
      assert signs[i] in Elems(signs');
    }
  }

  lemma SignsOf()
    ensures NoRepeats(Before()) && Elems(Before()) == WEAK_SIGNS + STRONG_SIGNS
    ensures NoRepeats(After()) && Elems(After()) == WEAK_SIGNS + STRONG_SIGNS + {EDUCATIONAL}
  {
  }

  lemma MediumBelowHigh()
    ensures Severity.Medium.Rank() < Severity.High.Rank()
  {
  }

  lemma LevelsCompare(k: Knowledge, gate: Level, q: Request, q': Request, risk: Severity, risk': Severity)
    requires HasRisk(k, gate, q, risk) && HasRisk(k, gate, q', risk')
    ensures risk.Rank() < risk'.Rank() ==> LevelOf(DecisionFor(k, gate, q).risk) < LevelOf(DecisionFor(k, gate, q').risk)
  {
  }

  lemma OutrankedBefore(k: Knowledge, gate: Level, q: Request, q': Request)
    requires AddsBenign(k, q, q') && HasRisk(k, gate, q, Severity.Medium) && HasRisk(k, gate, q', Severity.High)
    ensures !NoRuleOutranks(k, gate, q)
  {
    MediumBelowHigh();
    LevelsCompare(k, gate, q, q', Severity.Medium, Severity.High);
    RiseMeansOutranked(k, gate, q, q');
  }

  lemma BeforeIsMedium(k: Knowledge, gate: Level, signs: seq<Id>, q: Request)
    requires k == Bundle() && q == Showing(signs) && NoRepeats(signs) && Elems(signs) == WEAK_SIGNS + STRONG_SIGNS
    ensures ValidRequest(k, q) && HasRisk(k, gate, q, Severity.Medium)
  {
    ShowingIsValid(k, signs, q);
    SignsAreShown(signs, q);
    RiskBeforeNote(k, gate, q);
  }

  lemma AfterIsHigh(k: Knowledge, gate: Level, signs: seq<Id>, q: Request)
    requires k == Bundle() && q == Showing(signs) && NoRepeats(signs) && Elems(signs) == WEAK_SIGNS + STRONG_SIGNS + {EDUCATIONAL}
    ensures ValidRequest(k, q) && HasRisk(k, gate, q, Severity.High)
  {
    ShowingIsValid(k, signs, q);
    SignsAreShown(signs, q);
    RiskAfterNote(k, gate, q);
  }

  /** On knowledge and requests every schema accepts, one educational note raises the risk from MEDIUM to
      HIGH: the bound of one level is reached, at every gate, where a firing rule outranks the decision. */
  lemma NoteRaisesRisk(gate: Level)
    ensures ValidKnowledge(Bundle()) && ValidRequest(Bundle(), Showing(Before())) && ValidRequest(Bundle(), Showing(After()))
    ensures AddsBenign(Bundle(), Showing(Before()), Showing(After()))
    ensures HasRisk(Bundle(), gate, Showing(Before()), Severity.Medium)
    ensures HasRisk(Bundle(), gate, Showing(After()), Severity.High)
    ensures !NoRuleOutranks(Bundle(), gate, Showing(Before()))
  {
    BundleIsValid();
    SignsOf();
    MoreSignsAddBenign(Bundle(), Before(), After());
    BeforeIsMedium(Bundle(), gate, Before(), Showing(Before()));
    AfterIsHigh(Bundle(), gate, After(), Showing(After()));
    OutrankedBefore(Bundle(), gate, Showing(Before()), Showing(After()));
  }
}
