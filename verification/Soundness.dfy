/** What two verdicts mean: an input found free of scam patterns, and a detection held with high confidence. */
module Soundness {
  import opened Ids
  import opened Kleene
  import opened Conditions
  import opened Domain
  import opened Observations
  import opened Evaluator
  import opened Suppression
  import opened SuppressionLaws
  import opened Aggregation
  import opened Agreement
  import opened Pipeline
  import opened Benign

  // ---------------------------------------------------------------- one composite rule, read off the context

  /** The readings a composite rule is judged on. */
  ghost function RuleTruth(k: Knowledge, gate: Level, rid: Id, rule: Rule, c: Context): map<Id, Truth> {
    TruthIn(k, gate, c, PictureOf(k, gate, rid, rule.categories, c))
  }

  /** The rule's combination fails however its unknown operands turn out. */
  ghost predicate FailsWhatever(k: Knowledge, gate: Level, rid: Id, rule: Rule, c: Context) {
    forall s :: Completes(s, RuleTruth(k, gate, rid, rule, c), rule.require) ==> !Holds(rule.require, s)
  }

  ghost predicate OpenOperand(k: Knowledge, gate: Level, rid: Id, rule: Rule, c: Context, i: Id) {
    i in PositiveOperands(k, rule) && i in c.byIndicator && Lookup(RuleTruth(k, gate, rid, rule, c), i) == Truth.Unknown
  }

  /** Neither outcome is excluded, and an operand that was observed is one of the reasons. */
  ghost predicate StaysOpen(k: Knowledge, gate: Level, rid: Id, rule: Rule, c: Context) {
    && Eval(rule.require, RuleTruth(k, gate, rid, rule, c)) == Truth.Unknown
    && exists i :: OpenOperand(k, gate, rid, rule, c, i)
  }

  lemma NotesListed(k: Knowledge, rid: Id, rule: Rule, c: Context, p: Picture, outcomes: map<Id, Outcome>,
                    neutralised: set<Id>, groups: map<Id, seq<Group>>)
    ensures var r := Assemble(k, rid, rule, c, p, outcomes, neutralised, groups);
      Elems(r.ambiguities) + Elems(r.unknowns) == Uncertain(PositiveOperands(k, rule), outcomes)
  {
  }

  lemma OpenIsUncertain(k: Knowledge, gate: Level, rid: Id, rule: Rule, c: Context)
    ensures var p := PictureOf(k, gate, rid, rule.categories, c);
      Uncertain(PositiveOperands(k, rule), OutcomesOf(Readings(k, gate, c, p))) != {}
      <==> exists i :: OpenOperand(k, gate, rid, rule, c, i)
  {
    var p := PictureOf(k, gate, rid, rule.categories, c);
    var outcomes := OutcomesOf(Readings(k, gate, c, p));
    forall i ensures OpenOperand(k, gate, rid, rule, c, i) <==>
      i in PositiveOperands(k, rule) && i in outcomes && outcomes[i].value == Truth.Unknown
    {
      TruthAt(k, gate, c, p, i);
    }
    if n :| n in Uncertain(PositiveOperands(k, rule), outcomes) {
      assert OpenOperand(k, gate, rid, rule, c, n.operand);
    }
    if i :| OpenOperand(k, gate, rid, rule, c, i) {
      assert Note(i, outcomes[i].reason) in Uncertain(PositiveOperands(k, rule), outcomes);
    }
  }

  /** A list of notes is non-empty when it lists something. */
  lemma NotesNonEmpty(q: seq<Note>)
    ensures q != [] <==> Elems(q) != {}
  {
    assert q != [] ==> q[0] in Elems(q);
  }

  lemma HarmFields(k: Knowledge, gate: Level, rid: Id, rule: Rule, c: Context)
    ensures var r := CompositeResult(k, gate, rid, rule, c);
      r.kind.Composite? && r.required == Eval(rule.require, RuleTruth(k, gate, rid, rule, c))
      && (r.state.Indeterminate? <==> r.required == Truth.Unknown)
    ensures var p := PictureOf(k, gate, rid, rule.categories, c);
      var r := CompositeResult(k, gate, rid, rule, c);
      Elems(r.ambiguities) + Elems(r.unknowns) == Uncertain(PositiveOperands(k, rule), OutcomesOf(Readings(k, gate, c, p)))
  {
    var readings := Readings(k, gate, c, PictureOf(k, gate, rid, rule.categories, c));
    NotesListed(k, rid, rule, c, PictureOf(k, gate, rid, rule.categories, c),
                OutcomesOf(readings), NeutralisedIn(readings), GroupsIn(readings));
  }

  lemma HarmFromFields(r: RuleResult, notes: set<Note>)
    requires r.kind.Composite? && (r.state.Indeterminate? <==> r.required == Truth.Unknown)
    requires Elems(r.ambiguities) + Elems(r.unknowns) == notes
    ensures UnresolvedHarm(r) <==> r.required == Truth.Unknown && notes != {}
  {
    NotesNonEmpty(r.ambiguities);
    NotesNonEmpty(r.unknowns);
  }

  lemma CompositeStaysOpen(k: Knowledge, gate: Level, rid: Id, rule: Rule, c: Context)
    ensures UnresolvedHarm(CompositeResult(k, gate, rid, rule, c)) <==> StaysOpen(k, gate, rid, rule, c)
  {
    var p := PictureOf(k, gate, rid, rule.categories, c);
    HarmFields(k, gate, rid, rule, c);
    OpenIsUncertain(k, gate, rid, rule, c);
    HarmFromFields(CompositeResult(k, gate, rid, rule, c),
                   Uncertain(PositiveOperands(k, rule), OutcomesOf(Readings(k, gate, c, p))));
  }

  lemma CompositeFails(k: Knowledge, gate: Level, rid: Id, rule: Rule, c: Context)
    ensures var r := CompositeResult(k, gate, rid, rule, c);
      r.state.NotMatched? && r.required == False <==> FailsWhatever(k, gate, rid, rule, c)
  {
    EvalIsExact(rule.require, RuleTruth(k, gate, rid, rule, c));
  }

  // ---------------------------------------------------------------- the same, after suppression

  /** The evaluator matched the rule, before any suppression step. */
  ghost predicate FiresAtFirst(k: Knowledge, gate: Level, rid: Id, rule: Rule, c: Context) {
    CompositeResult(k, gate, rid, rule, c).state.Matched?
  }

  /** An unblocked suppressor cancels the match. */
  ghost predicate CancelledAfter(k: Knowledge, gate: Level, rid: Id, rule: Rule, c: Context) {
    FiresAtFirst(k, gate, rid, rule, c) && Cancelled(k, CompositeResult(k, gate, rid, rule, c))
  }

  lemma QuietStep(k: Knowledge, r: RuleResult)
    requires r.kind.Composite? && !HasAggregationFields(r) && !r.state.Matched?
    ensures Apply(k, r) == CanonicalArrays(r)
    ensures UnresolvedHarm(CanonicalArrays(r)) <==> UnresolvedHarm(r)
  {
    NotesNonEmpty(r.ambiguities);
    NotesNonEmpty(r.unknowns);
    NotesNonEmpty(CanonicalArrays(r).ambiguities);
    NotesNonEmpty(CanonicalArrays(r).unknowns);
  }

  lemma FiringStep(k: Knowledge, r: RuleResult)
    requires r.kind.Composite? && r.state.Matched? && !Apply(k, r).state.NotApplicable?
    ensures var out := Apply(k, r);
      && (out.state == if Cancelled(k, r) then Suppressed else Matched)
      && out.kind.Composite? && out.required == True && out.effectiveSeverity.Some?
  {
    CancelledAfterSorting(k, r);
    ResolvedFields(k, r);
    ActedOn(k, CanonicalArrays(r));
  }

  lemma ActedOn(k: Knowledge, c: RuleResult)
    requires c.kind.Composite? && c.state.Matched? && !Step(k, c).state.NotApplicable?
    ensures Step(k, c).state == (if Suppressors(k, c) != {} then Suppressed else Matched)
    ensures Step(k, c).kind.Composite? && Step(k, c).required == True
  {
  }

  /** The predicates aggregation uses, of the result of one composite rule. */
  lemma StepVerdicts(k: Knowledge, r: RuleResult)
    requires r.kind.Composite? && WellFormed(k, r) && !r.state.Suppressed?
    requires !Apply(k, r).state.NotApplicable?
    ensures var out := Apply(k, r);
      && (Eligible(out) <==> r.state.Matched? && !Cancelled(k, r))
      && (BenignClear(out) <==> (r.state.NotMatched? && r.required == False) || (r.state.Matched? && Cancelled(k, r)))
      && (UnresolvedHarm(out) <==> UnresolvedHarm(r))
  {
    if r.state.Matched? {
      FiringStep(k, r);
    } else {
      QuietStep(k, r);
    }
  }

  lemma CopyVerdicts(r: RuleResult)
    ensures var c := CanonicalCopy(r);
      && (Eligible(c) <==> Eligible(r)) && (BenignClear(c) <==> BenignClear(r))
      && (UnresolvedHarm(c) <==> UnresolvedHarm(r)) && (Errored(c) <==> Errored(r))
  {
    NotesNonEmpty(r.ambiguities);
    NotesNonEmpty(r.unknowns);
    NotesNonEmpty(CanonicalArrays(r).ambiguities);
    NotesNonEmpty(CanonicalArrays(r).unknowns);
  }

  lemma CompositeVerdicts(k: Knowledge, gate: Level, rid: Id, rule: Rule, c: Context)
    requires !Apply(k, CompositeResult(k, gate, rid, rule, c)).state.NotApplicable?
    ensures var out := Apply(k, CompositeResult(k, gate, rid, rule, c));
      && (Eligible(out) <==> FiresAtFirst(k, gate, rid, rule, c) && !CancelledAfter(k, gate, rid, rule, c))
      && (BenignClear(out) <==> FailsWhatever(k, gate, rid, rule, c) || CancelledAfter(k, gate, rid, rule, c))
      && (UnresolvedHarm(out) <==> StaysOpen(k, gate, rid, rule, c))
  {
    CompositeIsWellFormed(k, gate, rid, rule, c);
    CompositeIsNotSuppressed(k, gate, rid, rule, c);
    StepVerdicts(k, CompositeResult(k, gate, rid, rule, c));
    CompositeStaysOpen(k, gate, rid, rule, c);
    CompositeFails(k, gate, rid, rule, c);
  }

  lemma CompositeIsNotSuppressed(k: Knowledge, gate: Level, rid: Id, rule: Rule, c: Context)
    ensures CompositeResult(k, gate, rid, rule, c).kind.Composite? && !CompositeResult(k, gate, rid, rule, c).state.Suppressed?
  {
  }

  // ---------------------------------------------------------------- every published rule

  /** The published composite rules. */
  function CompositeRules(k: Knowledge): set<Id> {
    set rid | rid in PublishedRules(k) && k.rules[rid].kind.Composite?
  }

  /** Every published rule was evaluated and its suppression resolved. */
  ghost predicate NothingFailed(k: Knowledge, gate: Level, c: Context) {
    forall rid :: rid in PublishedRules(k) ==> !RuleOutcome(k, gate, rid, c).state.NotApplicable?
  }

  lemma FailureIsDegradation(k: Knowledge, gate: Level, c: Context)
    ensures DegradedBy(Results(k, gate, c)) <==> !NothingFailed(k, gate, c)
  {
    forall rid | rid in PublishedRules(k)
      ensures Errored(CanonicalCopy(RuleOutcome(k, gate, rid, c))) <==> RuleOutcome(k, gate, rid, c).state.NotApplicable?
    {
      EvaluationIsWellFormed(k, gate, rid, c);
      StepIsWellFormed(k, EvaluateRule(k, gate, rid, c));
    }
    if !NothingFailed(k, gate, c) {
      var rid :| rid in PublishedRules(k) && RuleOutcome(k, gate, rid, c).state.NotApplicable?;
      ResultIsListed(k, gate, c, rid);
    }
    if DegradedBy(Results(k, gate, c)) {
      var r :| r in Results(k, gate, c) && Errored(r);
      var rid := SourceOf(k, gate, c, r);
    }
  }

  lemma VerdictsOfListed(k: Knowledge, gate: Level, c: Context, rid: Id)
    requires rid in CompositeRules(k) && NothingFailed(k, gate, c)
    ensures var out := CanonicalCopy(RuleOutcome(k, gate, rid, c));
      && (Eligible(out) <==> FiresAtFirst(k, gate, rid, k.rules[rid], c) && !CancelledAfter(k, gate, rid, k.rules[rid], c))
      && (BenignClear(out) <==> FailsWhatever(k, gate, rid, k.rules[rid], c) || CancelledAfter(k, gate, rid, k.rules[rid], c))
      && (UnresolvedHarm(out) <==> StaysOpen(k, gate, rid, k.rules[rid], c))
  {
    InScopeUnlessFailed(k, gate, rid, c);
    CompositeOutcome(k, gate, rid, c);
    CompositeVerdicts(k, gate, rid, k.rules[rid], c);
    CopyVerdicts(RuleOutcome(k, gate, rid, c));
  }

  lemma InScopeUnlessFailed(k: Knowledge, gate: Level, rid: Id, c: Context)
    requires rid in PublishedRules(k) && !RuleOutcome(k, gate, rid, c).state.NotApplicable?
    ensures InScope(k.rules[rid], c)
  {
    if !InScope(k.rules[rid], c) {
      StatesMoveLawfully(k, EvaluateRule(k, gate, rid, c));
    }
  }

  lemma OthersAreSilent(k: Knowledge, gate: Level, c: Context, rid: Id)
    requires rid in PublishedRules(k) && !k.rules[rid].kind.Composite?
    ensures !CanonicalCopy(RuleOutcome(k, gate, rid, c)).kind.Composite?
  {
  }

  // ---------------------------------------------------------------- no scam pattern

  /** The conditions under which nothing harmful is found and something was positively ruled out. */
  ghost predicate RuledOut(k: Knowledge, gate: Level, c: Context) {
    && NothingFailed(k, gate, c)
    && (forall rid :: rid in CompositeRules(k) && FiresAtFirst(k, gate, rid, k.rules[rid], c)
          ==> CancelledAfter(k, gate, rid, k.rules[rid], c))
    && (forall rid :: rid in CompositeRules(k) ==> !StaysOpen(k, gate, rid, k.rules[rid], c))
    && (exists rid :: rid in CompositeRules(k) &&
          (FailsWhatever(k, gate, rid, k.rules[rid], c) || CancelledAfter(k, gate, rid, k.rules[rid], c)))
  }

  /** The same conditions, on the results. */
  ghost predicate ResultsRuleOut(rs: set<RuleResult>) {
    && !DegradedBy(rs)
    && (forall r :: r in rs ==> !Eligible(r) && !UnresolvedHarm(r))
    && (exists r :: r in rs && BenignClear(r))
  }

  lemma RuledOutInResults(k: Knowledge, gate: Level, c: Context)
    requires RuledOut(k, gate, c)
    ensures ResultsRuleOut(Results(k, gate, c))
  {
    FailureIsDegradation(k, gate, c);
    forall r | r in Results(k, gate, c) ensures !Eligible(r) && !UnresolvedHarm(r) {
      var rid := SourceOf(k, gate, c, r);
      if rid in CompositeRules(k) {
        VerdictsOfListed(k, gate, c, rid);
      } else {
        OthersAreSilent(k, gate, c, rid);
      }
    }
    var rid :| rid in CompositeRules(k) &&
      (FailsWhatever(k, gate, rid, k.rules[rid], c) || CancelledAfter(k, gate, rid, k.rules[rid], c));
    VerdictsOfListed(k, gate, c, rid);
    ResultIsListed(k, gate, c, rid);
  }

  lemma SilentSource(k: Knowledge, gate: Level, c: Context, rid: Id, rs: set<RuleResult>)
    requires rid in CompositeRules(k) && NothingFailed(k, gate, c)
    requires CanonicalCopy(RuleOutcome(k, gate, rid, c)) in rs && forall r :: r in rs ==> !Eligible(r) && !UnresolvedHarm(r)
    ensures FiresAtFirst(k, gate, rid, k.rules[rid], c) ==> CancelledAfter(k, gate, rid, k.rules[rid], c)
    ensures !StaysOpen(k, gate, rid, k.rules[rid], c)
  {
    VerdictsOfListed(k, gate, c, rid);
  }

  lemma ClearResult(rs: set<RuleResult>) returns (r: RuleResult)
    requires ResultsRuleOut(rs)
    ensures r in rs && BenignClear(r) && r.kind.Composite?
  {
    r :| r in rs && BenignClear(r);
  }

  lemma ClearSource(k: Knowledge, gate: Level, c: Context) returns (rid: Id)
    requires ResultsRuleOut(Results(k, gate, c)) && NothingFailed(k, gate, c)
    ensures rid in CompositeRules(k)
      && (FailsWhatever(k, gate, rid, k.rules[rid], c) || CancelledAfter(k, gate, rid, k.rules[rid], c))
  {
    var r := ClearResult(Results(k, gate, c));
    rid := SourceOf(k, gate, c, r);
    CompositeSource(k, gate, c, rid, r);
    ClearListed(k, gate, c, rid, r);
  }

  lemma ClearListed(k: Knowledge, gate: Level, c: Context, rid: Id, r: RuleResult)
    requires rid in CompositeRules(k) && NothingFailed(k, gate, c)
    requires r == CanonicalCopy(RuleOutcome(k, gate, rid, c)) && BenignClear(r)
    ensures FailsWhatever(k, gate, rid, k.rules[rid], c) || CancelledAfter(k, gate, rid, k.rules[rid], c)
  {
    VerdictsOfListed(k, gate, c, rid);
  }

  lemma CompositeSource(k: Knowledge, gate: Level, c: Context, rid: Id, r: RuleResult)
    requires rid in PublishedRules(k) && r == CanonicalCopy(RuleOutcome(k, gate, rid, c)) && r.kind.Composite?
    ensures rid in CompositeRules(k)
  {
  }

  lemma ResultsRuleOutSources(k: Knowledge, gate: Level, c: Context)
    requires ResultsRuleOut(Results(k, gate, c))
    ensures RuledOut(k, gate, c)
  {
    FailureIsDegradation(k, gate, c);
    var rs := Results(k, gate, c);
    forall rid | rid in CompositeRules(k)
      ensures FiresAtFirst(k, gate, rid, k.rules[rid], c) ==> CancelledAfter(k, gate, rid, k.rules[rid], c)
      ensures !StaysOpen(k, gate, rid, k.rules[rid], c)
    {
      ResultIsListed(k, gate, c, rid);
      SilentSource(k, gate, c, rid, rs);
    }
    var rid := ClearSource(k, gate, c);
  }

  lemma NoneEligible(rs: set<RuleResult>)
    ensures EligibleIn(rs) == {} <==> forall r :: r in rs ==> !Eligible(r)
  {
    if EligibleIn(rs) == {} {
      forall r | r in rs ensures !Eligible(r) {
        assert r !in EligibleIn(rs);
      }
    }
  }

  lemma QuietClassification(k: Knowledge, support: Support, rs: set<RuleResult>, whole: multiset<ErrorRecord>)
    ensures AxesFor(k, support, rs, whole).classification.NoScamPattern? <==> Evaluated(support, whole) && ResultsRuleOut(rs)
  {
    NoneEligible(rs);
  }

  /** NO_SCAM_PATTERN is sound and complete. It is returned exactly when rules ran and all of them could be
      evaluated; every composite match was cancelled by a suppressor no override blocks; no composite rule
      was left open by an operand that was observed; and some composite rule either fails whatever its
      unknowns turn out to be, or was so cancelled. */
  lemma NoScamExactly(k: Knowledge, gate: Level, q: Request)
    requires Wellposed(q)
    ensures DecisionFor(k, gate, q).classification.NoScamPattern? <==> RunsRules(q) && RuledOut(k, gate, RequestContext(q))
  {
    ResultsAreAccepted(k, gate, q);
    var rs := CanonicalSet(RequestResults(k, gate, q));
    CanonicalIdsDistinct(RequestResults(k, gate, q));
    DecisionFields(k, q.support, rs, multiset(q.whole));
    QuietClassification(k, q.support, rs, multiset(q.whole));
    if RunsRules(q) {
      var c := RequestContext(q);
      ResultsAreOutcomes(k, gate, c);
      if RuledOut(k, gate, c) { RuledOutInResults(k, gate, c); }
      if ResultsRuleOut(rs) { ResultsRuleOutSources(k, gate, c); }
    } else {
      assert !Evaluated(q.support, multiset(q.whole));
    }
  }
}
