/** Benign evidence is antitone end to end: observations of anything that is not a positive indicator can
    only weaken what the pipeline concludes. */
module Benign {
  import opened Ids
  import opened Kleene
  import opened Conditions
  import opened Domain
  import opened Observations
  import opened Evaluator
  import opened Suppression
  import opened SuppressionLaws
  import opened Aggregation
  import opened AggregationLaws
  import opened Consumers
  import opened Agreement
  import opened Pipeline

  // ---------------------------------------------------------------- more evidence, none of it positive

  /** Every reference of every positive occurrence resolves. */
  ghost predicate PositivesResolve(k: Knowledge, c: Context) {
    forall i, o, r :: i in k.indicators && o in c.Of(i) && r in o.refs ==> r in c.observations
  }

  ghost predicate Extends(observations: map<Id, Observation>, observations': map<Id, Observation>) {
    forall r :: r in observations ==> r in observations' && observations'[r] == observations[r]
  }

  /** `c'` holds everything `c` holds, and nothing new about a positive indicator. */
  ghost predicate AddsNoPositive(k: Knowledge, c: Context, c': Context) {
    && c'.language == c.language && c'.script == c.script
    && Extends(c.observations, c'.observations)
    && PositivesResolve(k, c)
    && (forall i :: i in k.indicators ==> c'.Of(i) == c.Of(i) && (i in c'.byIndicator <==> i in c.byIndicator))
    && (forall n :: n in c.byIndicator ==> n in c'.byIndicator && c.Of(n) <= c'.Of(n))
  }

  // ---------------------------------------------------------------- raw readings do not move

  lemma OccurrenceUnmoved(observations: map<Id, Observation>, observations': map<Id, Observation>, gate: Level,
                          o: Occurrence, s: set<Occurrence>)
    requires Extends(observations, observations')
    requires forall r :: r in o.refs ==> r in observations
    ensures PositiveReading(observations', gate, o, s) == PositiveReading(observations, gate, o, s)
    ensures Neutralises(observations', gate, o, s) <==> Neutralises(observations, gate, o, s)
  {
  }

  /** Readings are a function of the readings of the occurrences. */
  lemma CombineIsPointwise(observations: map<Id, Observation>, observations': map<Id, Observation>, gate: Level,
                           os: set<Occurrence>, s: set<Occurrence>)
    requires forall o :: o in os ==> PositiveReading(observations', gate, o, s) == PositiveReading(observations, gate, o, s)
    requires forall o :: o in os ==> (Neutralises(observations', gate, o, s) <==> Neutralises(observations, gate, o, s))
    ensures Combine(observations', gate, os, s) == Combine(observations, gate, os, s)
  {
    assert PositiveReadings(observations', gate, os, s) == PositiveReadings(observations, gate, os, s);
    assert LiveGroups(observations', gate, os, s) == LiveGroups(observations, gate, os, s);
  }

  lemma CombineUnmoved(observations: map<Id, Observation>, observations': map<Id, Observation>, gate: Level,
                       os: set<Occurrence>, s: set<Occurrence>)
    requires Extends(observations, observations')
    requires forall o, r :: o in os && r in o.refs ==> r in observations
    ensures Combine(observations', gate, os, s) == Combine(observations, gate, os, s)
  {
    forall o | o in os
      ensures PositiveReading(observations', gate, o, s) == PositiveReading(observations, gate, o, s)
      ensures Neutralises(observations', gate, o, s) <==> Neutralises(observations, gate, o, s)
    {
      OccurrenceUnmoved(observations, observations', gate, o, s);
    }
    CombineIsPointwise(observations, observations', gate, os, s);
  }

  lemma RawReadingsUnmoved(k: Knowledge, gate: Level, c: Context, c': Context)
    requires AddsNoPositive(k, c, c')
    ensures RawReadings(k, gate, c') == RawReadings(k, gate, c)
  {
    forall i | i in c.byIndicator && i in k.indicators
      ensures Combine(c'.observations, gate, c'.Of(i), {}) == Combine(c.observations, gate, c.Of(i), {})
    {
      CombineUnmoved(c.observations, c'.observations, gate, c.Of(i), {});
    }
  }

  // ---------------------------------------------------------------- suppressors accumulate

  lemma NegativesAccumulate(k: Knowledge, gate: Level, c: Context, c': Context, categories: set<Id>)
    requires AddsNoPositive(k, c, c')
    ensures MatchedNegatives(k, gate, c, categories) <= MatchedNegatives(k, gate, c', categories)
  {
  }

  /** The same overrides and blocked categories, and at least the same matched negatives. */
  ghost predicate Richer(p': Picture, p: Picture) {
    p'.overrides == p.overrides && p'.blocked == p.blocked && p.negatives <= p'.negatives
  }

  lemma PictureGrows(k: Knowledge, gate: Level, rid: Id, categories: set<Id>, c: Context, c': Context)
    requires AddsNoPositive(k, c, c')
    ensures Richer(PictureOf(k, gate, rid, categories, c'), PictureOf(k, gate, rid, categories, c))
    ensures PictureOf(k, gate, rid, categories, c).negatives <= c.byIndicator.Keys
  {
    RawReadingsUnmoved(k, gate, c, c');
    NegativesAccumulate(k, gate, c, c', categories);
  }

  lemma SuppressorsAccumulate(k: Knowledge, gate: Level, c: Context, c': Context, p: Picture, p': Picture, target: Id)
    requires AddsNoPositive(k, c, c') && Richer(p', p) && p.negatives <= c.byIndicator.Keys
    ensures SuppressorsOf(k, gate, c, p, target) <= SuppressorsOf(k, gate, c', p', target)
  {
  }

  // ---------------------------------------------------------------- readings fall

  lemma CombineFalls(observations: map<Id, Observation>, gate: Level, os: set<Occurrence>, s: set<Occurrence>, s': set<Occurrence>)
    requires s <= s'
    ensures Combine(observations, gate, os, s').outcome.value.AtMost(Combine(observations, gate, os, s).outcome.value)
  {
    CombinedTruth(observations, gate, os, s);
    CombinedTruth(observations, gate, os, s');
    forall o | o in os
      ensures PositiveReading(observations, gate, o, s').value.AtMost(PositiveReading(observations, gate, o, s).value)
    {
      MoreSuppressorsLower(observations, gate, o, s, s');
    }
  }

  lemma ReadingFalls(k: Knowledge, gate: Level, c: Context, c': Context, p: Picture, p': Picture, i: Id)
    requires AddsNoPositive(k, c, c') && Richer(p', p) && p.negatives <= c.byIndicator.Keys
    requires i in k.indicators
    ensures ReadingOf(k, gate, c', p', i).outcome.value.AtMost(ReadingOf(k, gate, c, p, i).outcome.value)
  {
    var s, s' := SuppressorsOf(k, gate, c, p, i), SuppressorsOf(k, gate, c', p', i);
    SuppressorsAccumulate(k, gate, c, c', p, p', i);
    CombineUnmoved(c.observations, c'.observations, gate, c.Of(i), s');
    CombineFalls(c.observations, gate, c.Of(i), s, s');
  }

  ghost function TruthIn(k: Knowledge, gate: Level, c: Context, p: Picture): map<Id, Truth> {
    TruthOf(OutcomesOf(Readings(k, gate, c, p)))
  }

  lemma TruthAt(k: Knowledge, gate: Level, c: Context, p: Picture, i: Id)
    ensures Lookup(TruthIn(k, gate, c, p), i) ==
      if i in c.byIndicator && i in k.indicators then ReadingOf(k, gate, c, p, i).outcome.value else Truth.Unknown
  {
  }

  lemma TruthFalls(k: Knowledge, gate: Level, c: Context, c': Context, p: Picture, p': Picture, ids: set<Id>)
    requires AddsNoPositive(k, c, c') && Richer(p', p) && p.negatives <= c.byIndicator.Keys
    ensures Below(TruthIn(k, gate, c', p'), TruthIn(k, gate, c, p), ids)
  {
    forall i | i in ids ensures Lookup(TruthIn(k, gate, c', p'), i).AtMost(Lookup(TruthIn(k, gate, c, p), i)) {
      TruthAt(k, gate, c, p, i);
      TruthAt(k, gate, c', p', i);
      if i in k.indicators {
        ReadingFalls(k, gate, c, c', p, p', i);
      }
    }
  }

  // ---------------------------------------------------------------- the evaluator's result

  /** `r'` is `r` with the same rule behind it, no more evidence for it and no less against it. */
  ghost predicate Weaker(r': RuleResult, r: RuleResult) {
    && r'.ruleId == r.ruleId && r'.kind == r.kind
    && r'.required.AtMost(r.required)
    && (r'.state.Matched? ==> r.state.Matched?)
    && Elems(r'.matchedPositive) <= Elems(r.matchedPositive)
    && Elems(r.matchedNegative) <= Elems(r'.matchedNegative)
    && r'.activeOverrides == r.activeOverrides
    && r'.verdict == r.verdict && r'.effectiveSeverity == r.effectiveSeverity
    && !HasAggregationFields(r') && !HasAggregationFields(r)
  }

  lemma ClassesShrink(k: Knowledge, ids': set<Id>, ids: set<Id>)
    requires ids' <= ids
    ensures ClassesOf(k, ids') <= ClassesOf(k, ids)
    ensures |ClassesOf(k, ids')| <= |ClassesOf(k, ids)|
  {
    SubsetSize(ClassesOf(k, ids'), ClassesOf(k, ids));
  }

  lemma MatchedShrinks(k: Knowledge, rule: Rule, t': map<Id, Truth>, t: map<Id, Truth>)
    requires Below(t', t, Operands(rule.require))
    ensures TrueOperands(PositiveOperands(k, rule), t') <= TrueOperands(PositiveOperands(k, rule), t)
    ensures |ClassesOf(k, TrueOperands(PositiveOperands(k, rule), t'))| <= |ClassesOf(k, TrueOperands(PositiveOperands(k, rule), t))|
    ensures Eval(rule.require, t').AtMost(Eval(rule.require, t))
  {
    EvalIsMonotone(rule.require, t', t);
    ClassesShrink(k, TrueOperands(PositiveOperands(k, rule), t'), TrueOperands(PositiveOperands(k, rule), t));
  }

  lemma AssemblyWeakens(k: Knowledge, rid: Id, rule: Rule, c: Context, p: Picture, outcomes: map<Id, Outcome>,
                        neutralised: set<Id>, groups: map<Id, seq<Group>>,
                        c': Context, p': Picture, outcomes': map<Id, Outcome>, neutralised': set<Id>, groups': map<Id, seq<Group>>)
    requires Richer(p', p) && Below(TruthOf(outcomes'), TruthOf(outcomes), Operands(rule.require))
    ensures Weaker(Assemble(k, rid, rule, c', p', outcomes', neutralised', groups'),
                   Assemble(k, rid, rule, c, p, outcomes, neutralised, groups))
  {
    MatchedShrinks(k, rule, TruthOf(outcomes'), TruthOf(outcomes));
  }

  /** More negative evidence never turns a composite rule MATCHED. */
  lemma CompositeWeakens(k: Knowledge, gate: Level, rid: Id, rule: Rule, c: Context, c': Context)
    requires AddsNoPositive(k, c, c')
    ensures Weaker(CompositeResult(k, gate, rid, rule, c'), CompositeResult(k, gate, rid, rule, c))
  {
    var p, p' := PictureOf(k, gate, rid, rule.categories, c), PictureOf(k, gate, rid, rule.categories, c');
    PictureGrows(k, gate, rid, rule.categories, c, c');
    TruthFalls(k, gate, c, c', p, p', Operands(rule.require));
    var r, r' := Readings(k, gate, c, p), Readings(k, gate, c', p');
    AssemblyWeakens(k, rid, rule, c, p, OutcomesOf(r), NeutralisedIn(r), GroupsIn(r),
                    c', p', OutcomesOf(r'), NeutralisedIn(r'), GroupsIn(r'));
  }

  // ---------------------------------------------------------------- the suppression step

  /** The evaluator's informational list, where the step would accept `r'`, would also be accepted in `r`. */
  ghost predicate AgreementKept(k: Knowledge, r': RuleResult, r: RuleResult) {
    && (BlockedListAgrees(k, r') ==> BlockedListAgrees(k, r))
    && (r.suppression.Some? ==> !CarriesAppliedFields(r.suppression.value))
  }

  lemma DisagreementStays(k: Knowledge, p: Picture, p': Picture, n: Id)
    requires Richer(p', p) && ListedButNotBlockable(k, p, n)
    ensures ListedButNotBlockable(k, p', n)
  {
  }

  lemma NothingAppliedYet(k: Knowledge, gate: Level, rid: Id, rule: Rule, c: Context)
    ensures var s := CompositeResult(k, gate, rid, rule, c).suppression; s.Some? ==> !CarriesAppliedFields(s.value)
  {
  }

  lemma AgreementIsKept(k: Knowledge, gate: Level, rid: Id, rule: Rule, c: Context, c': Context)
    requires AddsNoPositive(k, c, c')
    ensures AgreementKept(k, CompositeResult(k, gate, rid, rule, c'), CompositeResult(k, gate, rid, rule, c))
  {
    var p, p' := PictureOf(k, gate, rid, rule.categories, c), PictureOf(k, gate, rid, rule.categories, c');
    var r, r' := CompositeResult(k, gate, rid, rule, c), CompositeResult(k, gate, rid, rule, c');
    PictureGrows(k, gate, rid, rule.categories, c, c');
    NothingAppliedYet(k, gate, rid, rule, c);
    BlockedSetsAgreeExactly(k, gate, rid, rule, c);
    BlockedSetsAgreeExactly(k, gate, rid, rule, c');
    KeptByListing(k, p, p', r, r');
  }

  lemma KeptByListing(k: Knowledge, p: Picture, p': Picture, r: RuleResult, r': RuleResult)
    requires Richer(p', p)
    requires BlockedListAgrees(k, r) <==> forall n :: !ListedButNotBlockable(k, p, n)
    requires BlockedListAgrees(k, r') <==> forall n :: !ListedButNotBlockable(k, p', n)
    ensures BlockedListAgrees(k, r') ==> BlockedListAgrees(k, r)
  {
    forall n | ListedButNotBlockable(k, p, n) ensures ListedButNotBlockable(k, p', n) {
      DisagreementStays(k, p, p', n);
    }
  }

  lemma EffectiveAccumulates(k: Knowledge, r': RuleResult, r: RuleResult, effect: Effect)
    requires Weaker(r', r)
    ensures Effective(k, r, effect, false) <= Effective(k, r', effect, false)
  {
    forall n | n in Effective(k, r, effect, false) ensures n in Effective(k, r', effect, false) {
      assert n in Elems(r.matchedNegative);
    }
  }

  /** The step leaves a composite matched exactly when it could act on it and found nothing to cancel it. */
  lemma StaysMatchedExactly(k: Knowledge, r: RuleResult, s: RuleResult)
    requires r.kind.Composite? && !HasAggregationFields(r) && s == CanonicalArrays(r)
    ensures Apply(k, r).state.Matched? <==> r.state.Matched? && Acceptable(k, s) && Suppressors(k, s) == {}
    ensures Apply(k, r).state.Matched? ==>
      Apply(k, r).required == True && Apply(k, r).kind.Composite? && Apply(k, r).effectiveSeverity.Some?
  {
  }

  lemma SuppressorsAfterSorting(k: Knowledge, r': RuleResult, r: RuleResult)
    requires Weaker(r', r) && Suppressors(k, CanonicalArrays(r')) == {}
    ensures Suppressors(k, CanonicalArrays(r)) == {}
  {
    EffectiveAccumulates(k, r', r, SuppressRule);
    EffectiveAfterSorting(k, r, SuppressRule, false);
    EffectiveAfterSorting(k, r', SuppressRule, false);
  }

  lemma AcceptableIsKept(k: Knowledge, r': RuleResult, r: RuleResult, s': RuleResult, s: RuleResult)
    requires Weaker(r', r) && AgreementKept(k, r', r) && r.required == True && s' == CanonicalArrays(r') && s == CanonicalArrays(r)
    requires Acceptable(k, s')
    ensures Acceptable(k, s)
  {
    SortedListAgrees(k, r);
    SortedListAgrees(k, r');
    forall n | n in s.matchedNegative ensures Readable(k, n) {
      assert n in Elems(s.matchedNegative) && n in Elems(s'.matchedNegative);
    }
  }

  /** If the step leaves the weaker result matched, it leaves the stronger one matched too. */
  lemma StepKeepsMatched(k: Knowledge, r': RuleResult, r: RuleResult)
    requires Weaker(r', r) && AgreementKept(k, r', r)
    requires r'.kind.Composite? && Apply(k, r').state.Matched?
    ensures Apply(k, r).state.Matched? && Apply(k, r).required == True && Apply(k, r).kind.Composite?
    ensures Apply(k, r).effectiveSeverity.Some? && Apply(k, r').effectiveSeverity.Some?
  {
    var s, s' := CanonicalArrays(r), CanonicalArrays(r');
    StaysMatchedExactly(k, r', s');
    StaysMatchedExactly(k, r, s);
    assert r.required == True;
    AcceptableIsKept(k, r', r, s', s);
    SuppressorsAfterSorting(k, r', r);
  }

  lemma CeilingsAccumulate(k: Knowledge, r': RuleResult, r: RuleResult)
    requires Weaker(r', r)
    ensures Ceilings(k, CanonicalArrays(r)) <= Ceilings(k, CanonicalArrays(r'))
  {
    EffectiveAccumulates(k, r', r, CapSeverity);
    EffectiveAfterSorting(k, r, CapSeverity, false);
    EffectiveAfterSorting(k, r', CapSeverity, false);
  }

  lemma LowestFalls(s: set<Severity>, t: set<Severity>)
    requires s != {} && s <= t
    ensures Lowest(t).Rank() <= Lowest(s).Rank()
  {
  }

  lemma StepLowersSeverity(k: Knowledge, r': RuleResult, r: RuleResult)
    requires Weaker(r', r) && AgreementKept(k, r', r)
    requires r'.kind.Composite? && Apply(k, r').state.Matched?
    ensures SeverityRank(Apply(k, r')) <= SeverityRank(Apply(k, r))
  {
    StepKeepsMatched(k, r', r);
    CeilingsAccumulate(k, r', r);
    var base := r.effectiveSeverity.value;
    LowestFalls({base} + Ceilings(k, CanonicalArrays(r)), {base} + Ceilings(k, CanonicalArrays(r')));
  }

  // ---------------------------------------------------------------- all rules

  /** Whatever `r'` would bring to a decision, `r` brings, and at least as severely. */
  ghost predicate Covered(k: Knowledge, r': RuleResult, r: RuleResult) {
    && r'.ruleId == r.ruleId
    && (Eligible(r') ==> Eligible(r) && SeverityRank(r') <= SeverityRank(r) && StrengthRank(k, r') <= StrengthRank(k, r))
  }

  function StrengthRank(k: Knowledge, r: RuleResult): nat {
    RuleStrength(k, r).Rank()
  }

  /** Strength reads the matched positives as a set, and more of them never weaken. */
  lemma StrengthFalls(k: Knowledge, r': RuleResult, r: RuleResult)
    requires Elems(r'.matchedPositive) <= Elems(r.matchedPositive)
    requires r'.verdict == r.verdict && (r'.activeOverrides == [] <==> r.activeOverrides == [])
    ensures StrengthRank(k, r') <= StrengthRank(k, r)
  {
    forall i | i in r'.matchedPositive ensures i in r.matchedPositive {
      assert i in Elems(r'.matchedPositive);
    }
  }

  lemma SameElemsSameEmptiness<T>(p: seq<T>, q: seq<T>)
    requires Elems(p) == Elems(q)
    ensures p == [] <==> q == []
  {
    assert p != [] ==> p[0] in Elems(p);
    assert q != [] ==> q[0] in Elems(q);
  }

  /** The evidence of `r'` is that of `r`, in some order. */
  predicate SameEvidence(r': RuleResult, r: RuleResult) {
    && Elems(r'.matchedPositive) == Elems(r.matchedPositive)
    && Elems(r'.activeOverrides) == Elems(r.activeOverrides) && r'.verdict == r.verdict
  }

  lemma SameEvidenceSameStrength(k: Knowledge, r': RuleResult, r: RuleResult)
    requires SameEvidence(r', r)
    ensures StrengthRank(k, r') == StrengthRank(k, r)
  {
    SameElemsSameEmptiness(r'.activeOverrides, r.activeOverrides);
    StrengthFalls(k, r', r);
    StrengthFalls(k, r, r');
  }

  lemma StepKeepsEvidence(k: Knowledge, r: RuleResult)
    requires Apply(k, r).state.Matched?
    ensures SameEvidence(Apply(k, r), r)
  {
  }

  lemma CopyKeepsEvidence(r: RuleResult)
    ensures SameEvidence(CanonicalCopy(r), r)
  {
  }

  lemma OnlyCompositesCount(k: Knowledge, gate: Level, rid: Id, c: Context)
    requires rid in PublishedRules(k) && Eligible(RuleOutcome(k, gate, rid, c))
    ensures k.rules[rid].kind.Composite? && InScope(k.rules[rid], c)
    ensures RuleOutcome(k, gate, rid, c) == Apply(k, CompositeResult(k, gate, rid, k.rules[rid], c))
  {
    StatesMoveLawfully(k, EvaluateRule(k, gate, rid, c));
  }

  lemma CompositeOutcome(k: Knowledge, gate: Level, rid: Id, c: Context)
    requires rid in PublishedRules(k) && k.rules[rid].kind.Composite? && InScope(k.rules[rid], c)
    ensures RuleOutcome(k, gate, rid, c) == Apply(k, CompositeResult(k, gate, rid, k.rules[rid], c))
  {
  }

  lemma CompositeIsCovered(k: Knowledge, gate: Level, rid: Id, rule: Rule, c: Context, c': Context)
    requires AddsNoPositive(k, c, c')
    requires Eligible(Apply(k, CompositeResult(k, gate, rid, rule, c')))
    ensures Covered(k, Apply(k, CompositeResult(k, gate, rid, rule, c')), Apply(k, CompositeResult(k, gate, rid, rule, c)))
  {
    var r, r' := CompositeResult(k, gate, rid, rule, c), CompositeResult(k, gate, rid, rule, c');
    CompositeWeakens(k, gate, rid, rule, c, c');
    AgreementIsKept(k, gate, rid, rule, c, c');
    StatesMoveLawfully(k, r);
    StatesMoveLawfully(k, r');
    StepKeepsMatched(k, r', r);
    StepLowersSeverity(k, r', r);
    StrengthFalls(k, r', r);
    StepKeepsEvidence(k, r');
    SameEvidenceSameStrength(k, Apply(k, r'), r');
    StepKeepsEvidence(k, r);
    SameEvidenceSameStrength(k, Apply(k, r), r);
  }

  lemma OutcomeIsCovered(k: Knowledge, gate: Level, rid: Id, c: Context, c': Context)
    requires AddsNoPositive(k, c, c') && rid in PublishedRules(k)
    ensures Covered(k, RuleOutcome(k, gate, rid, c'), RuleOutcome(k, gate, rid, c))
  {
    var out, out' := RuleOutcome(k, gate, rid, c), RuleOutcome(k, gate, rid, c');
    if Eligible(out') {
      OnlyCompositesCount(k, gate, rid, c');
      CompositeOutcome(k, gate, rid, c);
      CompositeIsCovered(k, gate, rid, k.rules[rid], c, c');
    } else {
      OutcomeIsAdmitted(k, gate, rid, c);
      OutcomeIsAdmitted(k, gate, rid, c');
    }
  }

  ghost predicate CoveredIn(k: Knowledge, r': RuleResult, rs: set<RuleResult>) {
    exists r :: r in rs && Covered(k, r', r)
  }

  /** A canonical copy counts as its original does. */
  lemma CopyCounts(k: Knowledge, r: RuleResult)
    ensures CanonicalCopy(r).ruleId == r.ruleId && (Eligible(CanonicalCopy(r)) <==> Eligible(r))
    ensures SeverityRank(CanonicalCopy(r)) == SeverityRank(r) && StrengthRank(k, CanonicalCopy(r)) == StrengthRank(k, r)
  {
    CopyKeepsEvidence(r);
    SameEvidenceSameStrength(k, CanonicalCopy(r), r);
  }

  lemma CopiesAreCovered(k: Knowledge, r': RuleResult, r: RuleResult)
    requires Covered(k, r', r)
    ensures Covered(k, CanonicalCopy(r'), CanonicalCopy(r))
  {
    CopyCounts(k, r');
    CopyCounts(k, r);
  }

  lemma ResultsAreCovered(k: Knowledge, gate: Level, c: Context, c': Context)
    requires AddsNoPositive(k, c, c')
    ensures forall r' :: r' in Results(k, gate, c') ==> CoveredIn(k, r', Results(k, gate, c))
  {
    forall r' | r' in Results(k, gate, c') ensures CoveredIn(k, r', Results(k, gate, c)) {
      var rid := SourceOf(k, gate, c', r');
      OutcomeIsCovered(k, gate, rid, c, c');
      ResultIsListed(k, gate, c, rid);
      CopiesAreCovered(k, RuleOutcome(k, gate, rid, c'), RuleOutcome(k, gate, rid, c));
    }
  }

  // ---------------------------------------------------------------- the decision

  function LevelOf(s: Option<Severity>): nat {
    if s.None? then 0 else s.value.Rank()
  }

  /** The matrix moves by at most one level against the severity, whatever the strengths. */
  lemma MatrixMovesOneLevel(s': Severity, t': Strength, s: Severity, t: Strength)
    requires s'.Rank() <= s.Rank()
    ensures RiskLevel(s', t').Rank() <= RiskLevel(s, t).Rank() + 1
  {
  }

  lemma SeverityIsCovered(k: Knowledge, rs': set<RuleResult>, rs: set<RuleResult>)
    requires forall r' :: r' in rs' ==> CoveredIn(k, r', rs)
    requires EligibleIn(rs') != {}
    ensures EligibleIn(rs) != {}
    ensures RuleIds(EligibleIn(rs')) <= RuleIds(EligibleIn(rs))
    ensures Highest(Severities(EligibleIn(rs'))).Rank() <= Highest(Severities(EligibleIn(rs))).Rank()
  {
    forall r' | r' in EligibleIn(rs') ensures exists r :: r in EligibleIn(rs) && Covered(k, r', r) {
      assert CoveredIn(k, r', rs);
    }
    var any :| any in EligibleIn(rs');
    assert any.effectiveSeverity.value in Severities(EligibleIn(rs'));
    HighestIsGreatest(Severities(EligibleIn(rs')));
    var top' :| top' in EligibleIn(rs') && top'.effectiveSeverity.value == Highest(Severities(EligibleIn(rs')));
    var top :| top in EligibleIn(rs) && Covered(k, top', top);
    assert top.effectiveSeverity.value in Severities(EligibleIn(rs));
    HighestIsGreatest(Severities(EligibleIn(rs)));
  }

  /** `d'` concludes no more than `d`, up to one level of risk; and risk rises only with a new governing rule. */
  ghost predicate Milder(d': Decision, d: Decision) {
    && (IsScam(d'.classification) ==> IsScam(d.classification))
    && Elems(d'.matchedRules) <= Elems(d.matchedRules)
    && LevelOf(d'.severity) <= LevelOf(d.severity)
    && LevelOf(d'.risk) <= LevelOf(d.risk) + 1
    && (d.risk.None? ==> d'.risk.None?)
    && (LevelOf(d'.risk) > LevelOf(d.risk) ==> d'.governing != d.governing)
  }

  lemma MatrixIsMonotone(s': Severity, t': Strength, s: Severity, t: Strength)
    requires s'.Rank() <= s.Rank() && t'.Rank() <= t.Rank()
    ensures RiskLevel(s', t').Rank() <= RiskLevel(s, t).Rank()
  {
  }

  lemma SameGovernorNoStronger(k: Knowledge, rs': set<RuleResult>, rs: set<RuleResult>)
    requires forall r' :: r' in rs' ==> CoveredIn(k, r', rs)
    requires Aggregation.DistinctIds(rs) && EligibleIn(rs') != {} && EligibleIn(rs) != {}
    requires Governing(EligibleIn(rs')).ruleId == Governing(EligibleIn(rs)).ruleId
    ensures StrengthRank(k, Governing(EligibleIn(rs'))) <= StrengthRank(k, Governing(EligibleIn(rs)))
  {
  }

  lemma CoveredAxes(k: Knowledge, support: Support, rs': set<RuleResult>, rs: set<RuleResult>)
    requires forall r' :: r' in rs' ==> CoveredIn(k, r', rs)
    requires Aggregation.DistinctIds(rs) && EligibleIn(rs') != {} && EligibleIn(rs) != {}
    ensures var a', a := FiredAxes(k, support, rs'), FiredAxes(k, support, rs);
      && LevelOf(a'.severity) <= LevelOf(a.severity)
      && LevelOf(a'.risk) <= LevelOf(a.risk) + 1
      && (a'.governing == a.governing ==> LevelOf(a'.risk) <= LevelOf(a.risk))
  {
    SeverityIsCovered(k, rs', rs);
    var g', g := Governing(EligibleIn(rs')), Governing(EligibleIn(rs));
    var s', s := Highest(Severities(EligibleIn(rs'))), Highest(Severities(EligibleIn(rs)));
    MatrixMovesOneLevel(s', RuleStrength(k, g'), s, RuleStrength(k, g));
    if g'.ruleId == g.ruleId {
      SameGovernorNoStronger(k, rs', rs);
      MatrixIsMonotone(s', RuleStrength(k, g'), s, RuleStrength(k, g));
    }
  }

  /** What `Milder` asks, of the axes and the matched rules. */
  lemma MilderAxes(d': Decision, d: Decision, a': Axes, a: Axes)
    requires d'.classification == a'.classification && d'.severity == a'.severity && d'.risk == a'.risk && d'.governing == a'.governing
    requires d.classification == a.classification && d.severity == a.severity && d.risk == a.risk && d.governing == a.governing
    requires IsScam(a'.classification) ==> IsScam(a.classification)
    requires Elems(d'.matchedRules) <= Elems(d.matchedRules)
    requires LevelOf(a'.severity) <= LevelOf(a.severity) && LevelOf(a'.risk) <= LevelOf(a.risk) + 1
    requires a.risk.None? ==> a'.risk.None?
    requires a'.governing == a.governing ==> LevelOf(a'.risk) <= LevelOf(a.risk)
    ensures Milder(d', d)
  {
  }

  lemma CoveredAxesFor(k: Knowledge, support: Support, rs': set<RuleResult>, rs: set<RuleResult>, whole: multiset<ErrorRecord>)
    requires forall r' :: r' in rs' ==> CoveredIn(k, r', rs)
    requires Aggregation.DistinctIds(rs)
    ensures var a', a := AxesFor(k, support, rs', whole), AxesFor(k, support, rs, whole);
      && (IsScam(a'.classification) ==> IsScam(a.classification))
      && LevelOf(a'.severity) <= LevelOf(a.severity) && LevelOf(a'.risk) <= LevelOf(a.risk) + 1
      && (a.risk.None? ==> a'.risk.None?)
      && (a'.governing == a.governing ==> LevelOf(a'.risk) <= LevelOf(a.risk))
    ensures RuleIds(Counted(support, rs', whole)) <= RuleIds(Counted(support, rs, whole))
  {
    AxesAreCoherent(k, support, rs', whole);
    AxesAreCoherent(k, support, rs, whole);
    if Counted(support, rs', whole) != {} {
      SeverityIsCovered(k, rs', rs);
      CoveredAxes(k, support, rs', rs);
    }
  }

  lemma CoveredIsMilder(k: Knowledge, support: Support, rs': set<RuleResult>, rs: set<RuleResult>, whole: multiset<ErrorRecord>)
    requires Aggregation.DistinctIds(rs') && Aggregation.DistinctIds(rs)
    requires forall r' :: r' in rs' ==> CoveredIn(k, r', rs)
    ensures Milder(Decide(k, support, rs', whole), Decide(k, support, rs, whole))
  {
    DecisionFields(k, support, rs', whole);
    DecisionFields(k, support, rs, whole);
    CoveredAxesFor(k, support, rs', rs, whole);
    MilderAxes(Decide(k, support, rs', whole), Decide(k, support, rs, whole),
               AxesFor(k, support, rs', whole), AxesFor(k, support, rs, whole));
  }

  // ---------------------------------------------------------------- end to end

  /** `q'` is `q` with more occurrences, none of a positive indicator, and more observations. */
  ghost predicate AddsBenign(k: Knowledge, q: Request, q': Request) {
    && q'.(occurrences := q.occurrences, observations := q.observations) == q
    && (forall o :: o in q.occurrences ==> o in q'.occurrences)
    && (forall o :: o in q'.occurrences && o !in q.occurrences ==> o.indicator !in k.indicators)
    && (forall n :: n in q.observations ==> n in q'.observations)
  }

  lemma {:induction false} ListedIsFound(observations: seq<Named>, n: Named)
    requires Observations.DistinctIds(observations) && n in observations
    ensures n.0 in ById(observations) && ById(observations)[n.0] == n.1
  {
    var rest, last := observations[..|observations| - 1], observations[|observations| - 1];
    assert observations == rest + [last];
    if n != last {
      ListedIsFound(rest, n);
      var i :| 0 <= i < |rest| && rest[i] == n;
      assert observations[i].0 != observations[|observations| - 1].0;
    }
  }

  lemma ObservationsExtend(observations: seq<Named>, observations': seq<Named>)
    requires Observations.DistinctIds(observations') && forall n :: n in observations ==> n in observations'
    ensures Extends(ById(observations), ById(observations'))
  {
    forall r | r in ById(observations) ensures r in ById(observations') && ById(observations')[r] == ById(observations)[r] {
      LookupIsListed(observations, r);
      ListedIsFound(observations', (r, ById(observations)[r]));
    }
  }

  lemma ListingExtends(k: Knowledge, q: Request, q': Request, c: Context, c': Context, i: Id)
    requires AddsBenign(k, q, q')
    requires c.byIndicator == Grouped(q.occurrences) && c'.byIndicator == Grouped(q'.occurrences)
    ensures c.Of(i) <= c'.Of(i) && (i in c.byIndicator ==> i in c'.byIndicator)
    ensures i in k.indicators ==> c'.Of(i) == c.Of(i) && (i in c'.byIndicator ==> i in c.byIndicator)
  {
    ContextListsOccurrences(q.occurrences, c, i);
    ContextListsOccurrences(q'.occurrences, c', i);
  }

  lemma ContextsExtend(k: Knowledge, q: Request, q': Request)
    requires Wellposed(q) && Wellposed(q') && RunsRules(q) && AddsBenign(k, q, q')
    ensures RunsRules(q') && AddsNoPositive(k, RequestContext(q), RequestContext(q'))
  {
    var c, c' := RequestContext(q), RequestContext(q');
    ObservationsExtend(q.observations, q'.observations);
    forall i ensures c.Of(i) <= c'.Of(i) && (i in c.byIndicator ==> i in c'.byIndicator)
             ensures i in k.indicators ==> c'.Of(i) == c.Of(i) && (i in c'.byIndicator ==> i in c.byIndicator) {
      ListingExtends(k, q, q', c, c', i);
    }
    forall i, o, r | i in k.indicators && o in c.Of(i) && r in o.refs ensures r in c.observations {
      ContextListsOccurrences(q.occurrences, c, i);
      assert WellBacked(c.observations, o);
    }
  }

  /** Adding observations that are not of a positive indicator never makes a non-scam classification a scam
      one, never adds a matched rule, never raises the decision severity, and raises the risk by at most
      one level. */
  lemma BenignEvidenceIsAntitone(k: Knowledge, gate: Level, q: Request, q': Request)
    requires Wellposed(q) && Wellposed(q') && AddsBenign(k, q, q')
    ensures Milder(DecisionFor(k, gate, q'), DecisionFor(k, gate, q))
  {
    var rs, rs' := RequestResults(k, gate, q), RequestResults(k, gate, q');
    ResultsAreAccepted(k, gate, q);
    ResultsAreAccepted(k, gate, q');
    CanonicalIdsDistinct(rs);
    CanonicalIdsDistinct(rs');
    if RunsRules(q) {
      ContextsExtend(k, q, q');
      ResultsAreOutcomes(k, gate, RequestContext(q));
      ResultsAreOutcomes(k, gate, RequestContext(q'));
      ResultsAreCovered(k, gate, RequestContext(q), RequestContext(q'));
    }
    CoveredIsMilder(k, q.support, CanonicalSet(rs'), CanonicalSet(rs), multiset(q.whole));
  }
}
