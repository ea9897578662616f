/** No finding rests on a single signal: behind every scam classification one rule has two live,
    unsuppressed indicators of different evidence classes. */
module TwoSignals {
  import opened Ids
  import opened Kleene
  import opened Domain
  import opened Observations
  import opened Evaluator
  import opened SuppressionLaws
  import opened Aggregation
  import opened Consumers
  import opened Agreement
  import opened Pipeline
  import opened Benign
  import opened Soundness
  import opened Confidence
  import opened Schemas

  predicate OfDifferentClasses(k: Knowledge, i: Id, j: Id) {
    && i in k.indicators && j in k.indicators
    && k.indicators[i].evidenceClass.Some? && k.indicators[j].evidenceClass.Some?
    && k.indicators[i].evidenceClass != k.indicators[j].evidenceClass
  }

  lemma ClassesNeedIndicators(k: Knowledge, ids: set<Id>) returns (i: Id, j: Id)
    requires |ClassesOf(k, ids)| >= 2
    ensures i in ids && j in ids && OfDifferentClasses(k, i, j)
  {
    var x, y := TwoOf(ClassesOf(k, ids));
    i :| i in ids && i in k.indicators && k.indicators[i].evidenceClass == Some(x);
    j :| j in ids && j in k.indicators && k.indicators[j].evidenceClass == Some(y);
  }

  lemma MatchedIsDiverse(k: Knowledge, gate: Level, rid: Id, rule: Rule, c: Context)
    requires FiresAtFirst(k, gate, rid, rule, c)
    ensures |ClassesOf(k, Elems(CompositeResult(k, gate, rid, rule, c).matchedPositive))| >= rule.minClasses
  {
  }

  /** A matched positive is True after suppression. */
  lemma MatchedIsTrue(k: Knowledge, gate: Level, rid: Id, rule: Rule, c: Context, i: Id)
    requires i in Elems(CompositeResult(k, gate, rid, rule, c).matchedPositive)
    ensures i in k.indicators && ReadingOf(k, gate, c, PictureOf(k, gate, rid, rule.categories, c), i).outcome.value == True
  {
    TruthAt(k, gate, c, PictureOf(k, gate, rid, rule.categories, c), i);
  }

  /** One occurrence of it is observed, live and unsuppressed. */
  lemma MatchedIsWitnessed(k: Knowledge, gate: Level, rid: Id, rule: Rule, c: Context, i: Id)
    requires i in Elems(CompositeResult(k, gate, rid, rule, c).matchedPositive)
    ensures exists o :: DirectEvidence(k, gate, rid, rule, c, i, o)
  {
    var p := PictureOf(k, gate, rid, rule.categories, c);
    var s := SuppressorsOf(k, gate, c, p, i);
    MatchedIsTrue(k, gate, rid, rule, c, i);
    CombinedTruth(c.observations, gate, c.Of(i), s);
    var o :| o in c.Of(i) && PositiveReading(c.observations, gate, o, s).value == True;
    TrueOccurrence(c.observations, gate, o, s);
    assert DirectEvidence(k, gate, rid, rule, c, i, o);
  }

  /** Two indicators of different evidence classes, each with direct evidence in the rule. */
  ghost predicate TwoWitnesses(k: Knowledge, gate: Level, rid: Id, rule: Rule, c: Context) {
    exists i, j, o, o' :: OfDifferentClasses(k, i, j)
      && DirectEvidence(k, gate, rid, rule, c, i, o) && DirectEvidence(k, gate, rid, rule, c, j, o')
  }

  lemma FiringHasWitnesses(k: Knowledge, gate: Level, rid: Id, rule: Rule, c: Context)
    requires FiresAtFirst(k, gate, rid, rule, c) && rule.minClasses >= 2
    ensures TwoWitnesses(k, gate, rid, rule, c)
  {
    MatchedIsDiverse(k, gate, rid, rule, c);
    var i, j := ClassesNeedIndicators(k, Elems(CompositeResult(k, gate, rid, rule, c).matchedPositive));
    MatchedIsWitnessed(k, gate, rid, rule, c, i);
    MatchedIsWitnessed(k, gate, rid, rule, c, j);
  }

  lemma EligibleFired(k: Knowledge, gate: Level, rid: Id, c: Context)
    requires rid in PublishedRules(k) && Eligible(RuleOutcome(k, gate, rid, c))
    ensures rid in CompositeRules(k) && FiresAtFirst(k, gate, rid, k.rules[rid], c)
  {
    OnlyCompositesCount(k, gate, rid, c);
    StatesMoveLawfully(k, CompositeResult(k, gate, rid, k.rules[rid], c));
  }

  lemma ScamMeansFired(k: Knowledge, gate: Level, q: Request)
    requires Wellposed(q) && IsScam(DecisionFor(k, gate, q).classification)
    ensures RunsRules(q) && EligibleIn(Results(k, gate, RequestContext(q))) != {}
  {
    ResultsAreAccepted(k, gate, q);
    var rs := RequestResults(k, gate, q);
    CanonicalIdsDistinct(rs);
    DecisionFields(k, q.support, CanonicalSet(rs), multiset(q.whole));
    AxesAreCoherent(k, q.support, CanonicalSet(rs), multiset(q.whole));
    if RunsRules(q) {
      ResultsAreOutcomes(k, gate, RequestContext(q));
    }
  }

  /** Under loaded knowledge, a scam classification rests on a rule that fired on two indicators of
      different evidence classes, each directly observed at or above the gate and not suppressed. */
  lemma ScamNeedsTwoSignals(k: Knowledge, gate: Level, q: Request)
    requires ValidKnowledge(k) && Wellposed(q) && IsScam(DecisionFor(k, gate, q).classification)
    ensures RunsRules(q)
    ensures exists rid :: rid in CompositeRules(k) && FiresAtFirst(k, gate, rid, k.rules[rid], RequestContext(q))
                          && TwoWitnesses(k, gate, rid, k.rules[rid], RequestContext(q))
  {
    ScamMeansFired(k, gate, q);
    var c := RequestContext(q);
    var r :| r in EligibleIn(Results(k, gate, c));
    var rid := SourceOf(k, gate, c, r);
    CopyCounts(k, RuleOutcome(k, gate, rid, c));
    EligibleFired(k, gate, rid, c);
    assert ValidRule(k, k.rules[rid]);
    FiringHasWitnesses(k, gate, rid, k.rules[rid], c);
  }
}
