/** Exactly when benign evidence can raise the risk, as a condition on the results before it is added. */
module RiskBound {
  import opened Ids
  import opened Domain
  import opened Aggregation
  import opened AggregationLaws
  import opened Agreement
  import opened Pipeline
  import opened Benign

  /** The risk of a decision `r` alone stands behind: the matrix on its own severity and strength. */
  function OwnRisk(k: Knowledge, r: RuleResult): Severity
    requires r.effectiveSeverity.Some?
  {
    RiskLevel(r.effectiveSeverity.value, RuleStrength(k, r))
  }

  lemma RiskIsGovernings(k: Knowledge, support: Support, rs: set<RuleResult>)
    requires EligibleIn(rs) != {}
    ensures FiredAxes(k, support, rs).risk == Some(OwnRisk(k, Governing(EligibleIn(rs))))
  {
    DecisionSeverityIsGovernings(rs);
  }

  /** What benign evidence may leave of `rs`, with something still fired. */
  ghost predicate Remains(k: Knowledge, rs': set<RuleResult>, rs: set<RuleResult>) {
    EligibleIn(rs') != {} && forall r' :: r' in rs' ==> CoveredIn(k, r', rs)
  }

  /** The risk level of these results. */
  ghost function RiskIn(k: Knowledge, support: Support, rs: set<RuleResult>): nat
    requires EligibleIn(rs) != {}
  {
    LevelOf(FiredAxes(k, support, rs).risk)
  }

  /** No eligible rule would on its own axes be above this risk. */
  ghost predicate NoneOutranks(k: Knowledge, rs: set<RuleResult>, risk: nat) {
    forall r :: r in EligibleIn(rs) ==> OwnRisk(k, r).Rank() <= risk
  }

  lemma RemainderIsBounded(k: Knowledge, support: Support, rs': set<RuleResult>, rs: set<RuleResult>, risk: nat)
    requires NoneOutranks(k, rs, risk) && Remains(k, rs', rs)
    ensures RiskIn(k, support, rs') <= risk
  {
    RiskIsGovernings(k, support, rs');
    OwnRiskIsCovered(k, Governing(EligibleIn(rs')), rs);
  }

  lemma OwnRiskIsCovered(k: Knowledge, r': RuleResult, rs: set<RuleResult>)
    requires Eligible(r') && CoveredIn(k, r', rs)
    ensures exists r :: r in EligibleIn(rs) && OwnRisk(k, r').Rank() <= OwnRisk(k, r).Rank()
  {
    var r :| r in rs && Covered(k, r', r);
    assert r in EligibleIn(rs);
    MatrixIsMonotone(r'.effectiveSeverity.value, RuleStrength(k, r'), r.effectiveSeverity.value, RuleStrength(k, r));
  }

  /** A single eligible rule is a possible remainder, and decides alone. */
  lemma AloneRemains(k: Knowledge, support: Support, r: RuleResult, rs: set<RuleResult>)
    requires r in EligibleIn(rs)
    ensures Remains(k, {r}, rs) && RiskIn(k, support, {r}) == OwnRisk(k, r).Rank()
  {
    assert Covered(k, r, r);
    assert EligibleIn({r}) == {r};
    RiskIsGovernings(k, support, {r});
  }

  /** No remainder of the results carries more risk than they do. */
  ghost predicate CannotRise(k: Knowledge, support: Support, rs: set<RuleResult>)
    requires EligibleIn(rs) != {}
  {
    forall rs' {:trigger Remains(k, rs', rs)} :: Remains(k, rs', rs) ==> RiskIn(k, support, rs') <= RiskIn(k, support, rs)
  }

  lemma AloneIsBounded(k: Knowledge, support: Support, r: RuleResult, rs: set<RuleResult>, alone: set<RuleResult>)
    requires r in EligibleIn(rs) && CannotRise(k, support, rs) && alone == {r}
    ensures OwnRisk(k, r).Rank() <= RiskIn(k, support, rs)
  {
    AloneRemains(k, support, r, rs);
    assert Remains(k, alone, rs);
    RemainderObeys(k, support, alone, rs);
  }

  lemma RemainderObeys(k: Knowledge, support: Support, rs': set<RuleResult>, rs: set<RuleResult>)
    requires EligibleIn(rs) != {} && CannotRise(k, support, rs) && Remains(k, rs', rs)
    ensures RiskIn(k, support, rs') <= RiskIn(k, support, rs)
  {
  }

  lemma OutrankingRaises(k: Knowledge, support: Support, rs: set<RuleResult>)
    requires EligibleIn(rs) != {} && CannotRise(k, support, rs)
    ensures NoneOutranks(k, rs, RiskIn(k, support, rs))
  {
    var risk := RiskIn(k, support, rs);
    forall r | r in EligibleIn(rs) ensures OwnRisk(k, r).Rank() <= risk {
      AloneIsBounded(k, support, r, rs, {r});
    }
  }

  /** Benign evidence cannot leave more risk than there was, if and only if no eligible rule outranks the
      decision on its own axes. */
  lemma RiskCannotRiseExactly(k: Knowledge, support: Support, rs: set<RuleResult>)
    requires EligibleIn(rs) != {}
    ensures CannotRise(k, support, rs) <==> NoneOutranks(k, rs, RiskIn(k, support, rs))
  {
    if CannotRise(k, support, rs) {
      OutrankingRaises(k, support, rs);
    } else {
      var rs' :| Remains(k, rs', rs) && RiskIn(k, support, rs') > RiskIn(k, support, rs);
      if NoneOutranks(k, rs, RiskIn(k, support, rs)) {
        RemainderIsBounded(k, support, rs', rs, RiskIn(k, support, rs));
      }
    }
  }

  // ---------------------------------------------------------------- end to end

  /** Every rule that fires for `q` is, on its own axes, no riskier than the decision for `q`. */
  ghost predicate NoRuleOutranks(k: Knowledge, gate: Level, q: Request)
    requires Wellposed(q)
  {
    RunsRules(q) ==> NoneOutranks(k, Results(k, gate, RequestContext(q)), LevelOf(DecisionFor(k, gate, q).risk))
  }

  /** The decision's risk is that of the fired axes. */
  lemma RiskOfDecision(k: Knowledge, support: Support, rs: set<RuleResult>, whole: multiset<ErrorRecord>)
    requires Aggregation.DistinctIds(rs)
    ensures Decide(k, support, rs, whole).risk ==
      if Counted(support, rs, whole) == {} then None else FiredAxes(k, support, rs).risk
  {
    DecisionFields(k, support, rs, whole);
  }

  lemma RiskOfRequest(k: Knowledge, gate: Level, q: Request, rs: set<RuleResult>)
    requires Wellposed(q) && RunsRules(q) && rs == Results(k, gate, RequestContext(q))
    ensures DecisionFor(k, gate, q).risk == if EligibleIn(rs) == {} then None else FiredAxes(k, q.support, rs).risk
  {
    ResultsAreAccepted(k, gate, q);
    ResultsAreOutcomes(k, gate, RequestContext(q));
    CanonicalIdsDistinct(RequestResults(k, gate, q));
    RiskOfDecision(k, q.support, rs, multiset(q.whole));
    assert multiset(q.whole) == multiset{};
  }

  /** Where no firing rule outranks the decision, benign evidence never raises the risk. */
  lemma RiskStaysDown(k: Knowledge, gate: Level, q: Request, q': Request)
    requires Wellposed(q) && Wellposed(q') && AddsBenign(k, q, q') && NoRuleOutranks(k, gate, q)
    ensures LevelOf(DecisionFor(k, gate, q').risk) <= LevelOf(DecisionFor(k, gate, q).risk)
  {
    BenignEvidenceIsAntitone(k, gate, q, q');
    if RunsRules(q) {
      ContextsExtend(k, q, q');
      var c, c' := RequestContext(q), RequestContext(q');
      ResultsAreCovered(k, gate, c, c');
      RiskOfRequest(k, gate, q', Results(k, gate, c'));
      if EligibleIn(Results(k, gate, c')) != {} {
        RemainderIsBounded(k, q.support, Results(k, gate, c'), Results(k, gate, c), LevelOf(DecisionFor(k, gate, q).risk));
      }
    }
  }

  /** So a rise betrays a firing rule that outranked the decision. */
  lemma RiseMeansOutranked(k: Knowledge, gate: Level, q: Request, q': Request)
    requires Wellposed(q) && Wellposed(q') && AddsBenign(k, q, q')
    requires LevelOf(DecisionFor(k, gate, q').risk) > LevelOf(DecisionFor(k, gate, q).risk)
    ensures !NoRuleOutranks(k, gate, q)
  {
    if NoRuleOutranks(k, gate, q) {
      RiskStaysDown(k, gate, q, q');
    }
  }
}
