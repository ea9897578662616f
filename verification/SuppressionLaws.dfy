/** What the suppression step promises about every result it is given. */
module SuppressionLaws {
  import opened Ids
  import opened Kleene
  import opened Domain
  import opened Observations
  import opened Evaluator
  import opened Suppression

  // ---------------------------------------------------------------- lawful state changes

  /** Some matched SUPPRESS_RULE negative is not blocked by any active override. */
  ghost predicate Cancelled(k: Knowledge, r: RuleResult) {
    exists n :: n in r.matchedNegative && n in k.negatives && k.negatives[n].effect == SuppressRule
      && !IsBlocked(k.negatives[n], BlockedCategories(k, Elems(r.activeOverrides)))
  }

  lemma EffectiveAfterSorting(k: Knowledge, r: RuleResult, effect: Effect, blocked: bool)
    ensures Effective(k, CanonicalArrays(r), effect, blocked) == Effective(k, r, effect, blocked)
  {
    var c := CanonicalArrays(r);
    assert Elems(c.activeOverrides) == Elems(r.activeOverrides);
    forall n ensures n in c.matchedNegative <==> n in r.matchedNegative {
      assert n in Elems(c.matchedNegative) <==> n in Elems(r.matchedNegative);
    }
  }

  lemma CancelledAfterSorting(k: Knowledge, r: RuleResult)
    ensures Cancelled(k, r) <==> Suppressors(k, CanonicalArrays(r)) != {}
  {
    EffectiveAfterSorting(k, r, SuppressRule, false);
    if n :| n in Suppressors(k, CanonicalArrays(r)) {
      assert n in Effective(k, r, SuppressRule, false);
    }
    if Cancelled(k, r) {
      var n :| n in r.matchedNegative && n in k.negatives && k.negatives[n].effect == SuppressRule
        && !IsBlocked(k.negatives[n], BlockedCategories(k, Elems(r.activeOverrides)));
      assert n in Effective(k, r, SuppressRule, false);
    }
  }

  lemma StepStates(k: Knowledge, c: RuleResult)
    ensures var out := Step(k, c);
      && out.ruleId == c.ruleId && out.kind == c.kind && out.required == c.required
      && (out.state == c.state
          || (out.state == State.NotApplicable && out.error == Some(EvalError(SUPPRESSION_EXECUTION_ERROR, NO_TEXT)))
          || (out.state == Suppressed && c.kind == Composite && c.state == Matched && c.required == True && Suppressors(k, c) != {}))
      && (c.kind == Composite && c.state == Matched && out.state == Matched ==> Suppressors(k, c) == {})
  {
  }

  /** The only moves: a matched composite that is cancelled becomes SUPPRESSED, with its combination still
      TRUE; a result the step cannot act on becomes NOT_APPLICABLE with an error; every other state
      stays. */
  lemma StatesMoveLawfully(k: Knowledge, r: RuleResult)
    ensures var out := Apply(k, r);
      && out.ruleId == r.ruleId && out.kind == r.kind && out.required == r.required
      && (out.state == r.state
          || (out.state == State.NotApplicable && out.error == Some(EvalError(SUPPRESSION_EXECUTION_ERROR, NO_TEXT)))
          || (out.state == Suppressed && r.kind == Composite && r.state == Matched && r.required == True && Cancelled(k, r)))
    ensures r.kind == Composite && r.state == Matched && Apply(k, r).state == Matched ==> !Cancelled(k, r)
  {
    CancelledAfterSorting(k, r);
    StepStates(k, CanonicalArrays(r));
  }

  /** What the step leaves of a matched composite it could act on. */
  lemma ResolvedFields(k: Knowledge, r: RuleResult)
    requires r.kind == Composite && r.state == Matched && Apply(k, r).state != State.NotApplicable
    ensures r.effectiveSeverity.Some?
    ensures Apply(k, r).effectiveSeverity == Some(Lowest({r.effectiveSeverity.value} + Ceilings(k, CanonicalArrays(r))))
  {
  }

  lemma CeilingsAfterSorting(k: Knowledge, r: RuleResult)
    ensures Ceilings(k, CanonicalArrays(r)) == Ceilings(k, r)
  {
    EffectiveAfterSorting(k, r, CapSeverity, false);
  }

  /** Severity never rises: it is the least of the evaluator's base and the ceilings that survive. */
  lemma SeverityIsTheMinimum(k: Knowledge, r: RuleResult)
    requires r.kind == Composite && r.state == Matched && Apply(k, r).state != State.NotApplicable
    ensures r.effectiveSeverity.Some? && Apply(k, r).effectiveSeverity.Some?
    ensures var s := Apply(k, r).effectiveSeverity.value;
      && (s == r.effectiveSeverity.value
          || exists n :: n in Caps(k, r) && k.negatives[n].severityCap == Some(s))
      && s.Rank() <= r.effectiveSeverity.value.Rank()
      && (forall n :: n in Caps(k, r) && k.negatives[n].severityCap.Some? ==>
            s.Rank() <= k.negatives[n].severityCap.value.Rank())
  {
    ResolvedFields(k, r);
    CeilingsAfterSorting(k, r);
    LowestOfCeilings(k, r, r.effectiveSeverity.value);
  }

  lemma LowestOfCeilings(k: Knowledge, r: RuleResult, base: Severity)
    ensures var s := Lowest({base} + Ceilings(k, r));
      && (s == base || exists n :: n in Caps(k, r) && k.negatives[n].severityCap == Some(s))
      && s.Rank() <= base.Rank()
      && (forall n :: n in Caps(k, r) && k.negatives[n].severityCap.Some? ==> s.Rank() <= k.negatives[n].severityCap.value.Rank())
  {
  }

  /** Everything that is not a matched composite passes through, up to the order of its arrays. */
  lemma OthersPassThrough(k: Knowledge, r: RuleResult)
    requires !HasAggregationFields(r) && !(r.kind == Composite && r.state == Matched)
    ensures SameUpToOrder(Apply(k, r), r)
  {
  }

  // ---------------------------------------------------------------- independence of array order

  predicate SameElems(p: seq<Id>, q: seq<Id>) {
    Elems(p) == Elems(q)
  }

  predicate SameOptional(p: Option<seq<Id>>, q: Option<seq<Id>>) {
    match p
    case None => q.None?
    case Some(ids) => q.Some? && SameElems(ids, q.value)
  }

  predicate SameSuppression(p: Option<SuppressionInfo>, q: Option<SuppressionInfo>) {
    match p
    case None => q.None?
    case Some(s) =>
      && q.Some?
      && SameOptional(s.applied, q.value.applied) && s.suppressedBy == q.value.suppressedBy
      && SameOptional(s.blocked, q.value.blocked) && SameOptional(s.appliedCaps, q.value.appliedCaps)
      && (if s.ceilings.None? then q.value.ceilings.None?
          else q.value.ceilings.Some? && Elems(s.ceilings.value) == Elems(q.value.ceilings.value))
      && SameOptional(s.blockedCaps, q.value.blockedCaps) && SameOptional(s.contextOnly, q.value.contextOnly)
      && s.effect == q.value.effect
  }

  /** Two spellings of one result: set-like arrays permuted or with repetitions, all else equal. */
  predicate SameUpToOrder(r: RuleResult, r': RuleResult) {
    && SameElems(r.matchedPositive, r'.matchedPositive) && SameElems(r.matchedNegative, r'.matchedNegative)
    && SameElems(r.neutralised, r'.neutralised) && SameElems(r.activeOverrides, r'.activeOverrides)
    && SameElems(r.evidenceClasses, r'.evidenceClasses) && SameElems(r.observationRefs, r'.observationRefs)
    && Elems(r.ambiguities) == Elems(r'.ambiguities) && Elems(r.unknowns) == Elems(r'.unknowns)
    && SameSuppression(r.suppression, r'.suppression)
    && r'.(matchedPositive := [], matchedNegative := [], neutralised := [], activeOverrides := [], evidenceClasses := [],
           observationRefs := [], ambiguities := [], unknowns := [], suppression := None)
       == r.(matchedPositive := [], matchedNegative := [], neutralised := [], activeOverrides := [], evidenceClasses := [],
             observationRefs := [], ambiguities := [], unknowns := [], suppression := None)
  }

  lemma CanonicalIsSame(r: RuleResult)
    ensures SameUpToOrder(CanonicalArrays(r), r)
  {
  }

  /** The canonical form decides sameness: it identifies exactly the spellings of one result. */
  lemma CanonicalFormIsExact(r: RuleResult, r': RuleResult)
    ensures SameUpToOrder(r, r') <==> CanonicalArrays(r) == CanonicalArrays(r')
  {
    CanonicalIsSame(r);
    CanonicalIsSame(r');
  }

  /** Permuting or repeating entries of the input arrays changes nothing in the output. */
  lemma ApplyIgnoresOrder(k: Knowledge, r: RuleResult, r': RuleResult)
    requires SameUpToOrder(r, r')
    ensures Apply(k, r) == Apply(k, r')
  {
  }

  // ---------------------------------------------------------------- agreement with the evaluator

  /** A matched negative the evaluator lists as blocked although its metadata does not make it blockable. */
  ghost predicate ListedButNotBlockable(k: Knowledge, p: Picture, n: Id) {
    n in BlockedForInformation(k, p) && k.negatives[n].blockable != Some(true)
  }

  lemma GovernedBlocked(k: Knowledge, p: Picture, r: RuleResult)
    requires Elems(r.matchedNegative) == p.negatives && Elems(r.activeOverrides) == p.overrides
    requires p.blocked == BlockedCategories(k, p.overrides)
    ensures BlockedSuppressors(k, r) + BlockedCaps(k, r)
         == set n | n in BlockedForInformation(k, p) && k.negatives[n].blockable == Some(true)
  {
  }

  /** What agreement of the two lists comes down to. */
  lemma SetsAgreeExactly(k: Knowledge, p: Picture, governed: set<Id>)
    requires governed == set n | n in BlockedForInformation(k, p) && k.negatives[n].blockable == Some(true)
    ensures governed <= BlockedForInformation(k, p)
    ensures governed == BlockedForInformation(k, p) <==> forall n :: !ListedButNotBlockable(k, p, n)
  {
    var listed := BlockedForInformation(k, p);
    if forall n :: !ListedButNotBlockable(k, p, n) {
      forall n | n in listed ensures n in governed {
        assert !ListedButNotBlockable(k, p, n);
      }
      assert governed == listed;
    } else {
      var n :| ListedButNotBlockable(k, p, n);
      assert n in listed && n !in governed;
    }
  }

  /** What the evaluator hands the cross-check. */
  lemma EvaluatorsList(k: Knowledge, gate: Level, rid: Id, rule: Rule, c: Context)
    ensures var r := CompositeResult(k, gate, rid, rule, c);
      var p := PictureOf(k, gate, rid, rule.categories, c);
      && Elems(r.matchedNegative) == p.negatives && Elems(r.activeOverrides) == p.overrides
      && p.blocked == BlockedCategories(k, p.overrides)
      && r.suppression == Candidates(k, p)
  {
  }

  lemma ListAgreement(k: Knowledge, p: Picture, r: RuleResult, governed: set<Id>)
    requires r.suppression == Candidates(k, p) && governed == BlockedSuppressors(k, r) + BlockedCaps(k, r)
    requires governed <= BlockedForInformation(k, p)
    ensures BlockedListAgrees(k, r) <==> governed == BlockedForInformation(k, p)
  {
  }

  /** The step's blocked set is always contained in the evaluator's; they are equal, and the cross-check
      silent, exactly when every matched soft suppressor in a blocked category is declared blockable. */
  lemma BlockedSetsAgreeExactly(k: Knowledge, gate: Level, rid: Id, rule: Rule, c: Context)
    ensures var r := CompositeResult(k, gate, rid, rule, c);
      var p := PictureOf(k, gate, rid, rule.categories, c);
      && BlockedSuppressors(k, r) + BlockedCaps(k, r) <= BlockedForInformation(k, p)
      && (BlockedListAgrees(k, r) <==> forall n :: !ListedButNotBlockable(k, p, n))
      && (BlockedSuppressors(k, r) + BlockedCaps(k, r) == BlockedForInformation(k, p)
          <==> forall n :: !ListedButNotBlockable(k, p, n))
  {
    var r := CompositeResult(k, gate, rid, rule, c);
    var p := PictureOf(k, gate, rid, rule.categories, c);
    EvaluatorsList(k, gate, rid, rule, c);
    GovernedBlocked(k, p, r);
    var governed := BlockedSuppressors(k, r) + BlockedCaps(k, r);
    SetsAgreeExactly(k, p, governed);
    ListAgreement(k, p, r, governed);
  }

  lemma SortedListAgrees(k: Knowledge, r: RuleResult)
    ensures BlockedListAgrees(k, CanonicalArrays(r)) <==> BlockedListAgrees(k, r)
  {
    EffectiveAfterSorting(k, r, SuppressRule, true);
    EffectiveAfterSorting(k, r, CapSeverity, true);
  }

  lemma UnacceptableDegrades(k: Knowledge, c: RuleResult)
    requires c.kind.Composite? && c.state.Matched? && !BlockedListAgrees(k, c)
    ensures Step(k, c) == Degraded(c)
  {
  }

  lemma RefusedWhenListsDiffer(k: Knowledge, r: RuleResult)
    requires r.kind.Composite? && r.state.Matched? && !BlockedListAgrees(k, r)
    ensures Apply(k, r) == Unavailable(r.ruleId, Composite, r.required, SUPPRESSION_EXECUTION_ERROR)
  {
    SortedListAgrees(k, r);
    UnacceptableDegrades(k, CanonicalArrays(r));
  }

  lemma MatchedMeansTrue(k: Knowledge, gate: Level, rid: Id, rule: Rule, c: Context)
    ensures var r := CompositeResult(k, gate, rid, rule, c);
      r.ruleId == rid && r.kind.Composite? && (r.state.Matched? ==> r.required == True)
  {
  }

  /** Where the two disagree, the step refuses a matched rule: it fails closed. */
  lemma DisagreementDegrades(k: Knowledge, gate: Level, rid: Id, rule: Rule, c: Context, n: Id)
    requires CompositeResult(k, gate, rid, rule, c).state.Matched?
    requires ListedButNotBlockable(k, PictureOf(k, gate, rid, rule.categories, c), n)
    ensures Apply(k, CompositeResult(k, gate, rid, rule, c)) == Unavailable(rid, Composite, True, SUPPRESSION_EXECUTION_ERROR)
  {
    BlockedSetsAgreeExactly(k, gate, rid, rule, c);
    MatchedMeansTrue(k, gate, rid, rule, c);
    RefusedWhenListsDiffer(k, CompositeResult(k, gate, rid, rule, c));
  }
}
