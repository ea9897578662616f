/** The order in which a caller lists its records, and how often it repeats an occurrence, decide nothing. */
module Rearrangement {
  import opened Ids
  import opened Kleene
  import opened Conditions
  import opened Domain
  import opened Observations
  import opened Evaluator
  import opened Pipeline
  import opened Benign

  /** The same occurrences in any order and number, the same observations and errors in any order. */
  ghost predicate SameData(q: Request, q': Request) {
    && q'.languages == q.languages && q'.scripts == q.scripts && q'.support == q.support
    && (forall o :: o in q.occurrences <==> o in q'.occurrences)
    && multiset(q.observations) == multiset(q'.observations)
    && multiset(q.whole) == multiset(q'.whole)
  }

  // ---------------------------------------------------------------- the boundary

  lemma SameMultisetSameElems<T>(p: seq<T>, q: seq<T>)
    requires multiset(p) == multiset(q)
    ensures |p| == |q| && Elems(p) == Elems(q)
    ensures NoRepeats(p) <==> NoRepeats(q)
  {
    assert |multiset(p)| == |multiset(q)|;
    forall x ensures x in p <==> x in q {
      assert x in multiset(p) <==> x in multiset(q);
    }
    NoRepeatsByCount(p);
    NoRepeatsByCount(q);
  }

  /** Distinct ids, without positions. */
  lemma DistinctByElements(observations: seq<Named>)
    ensures Observations.DistinctIds(observations) <==>
      NoRepeats(observations) && forall m, n :: m in Elems(observations) && n in Elems(observations) && m.0 == n.0 ==> m == n
  {
    if NoRepeats(observations) && forall m, n :: m in Elems(observations) && n in Elems(observations) && m.0 == n.0 ==> m == n {
      forall i, j | 0 <= i < j < |observations| ensures observations[i].0 != observations[j].0 {
        assert observations[i] in Elems(observations) && observations[j] in Elems(observations);
      }
    }
  }

  lemma SameDistinct(p: seq<Named>, q: seq<Named>)
    requires multiset(p) == multiset(q)
    ensures Observations.DistinctIds(p) <==> Observations.DistinctIds(q)
  {
    SameMultisetSameElems(p, q);
    DistinctByElements(p);
    DistinctByElements(q);
  }

  lemma SameObservations(p: seq<Named>, q: seq<Named>)
    requires multiset(p) == multiset(q) && Observations.DistinctIds(p)
    ensures ById(p) == ById(q)
  {
    SameDistinct(p, q);
    SameMultisetSameElems(p, q);
    forall n ensures n in p <==> n in q {
      assert n in Elems(p) <==> n in Elems(q);
    }
    ObservationsExtend(p, q);
    ObservationsExtend(q, p);
    assert ById(p).Keys == ById(q).Keys;
  }

  lemma SameInputs(q: Request, q': Request)
    requires SameData(q, q')
    ensures InputIds(q.occurrences, q.observations) == InputIds(q'.occurrences, q'.observations)
  {
    SameMultisetSameElems(q.observations, q'.observations);
    forall n ensures n in q.observations <==> n in q'.observations {
      assert n in Elems(q.observations) <==> n in Elems(q'.observations);
    }
  }

  lemma StaysAdmissible(q: Request, q': Request)
    requires SameData(q, q') && Admissible(q.occurrences, q.observations)
    ensures Admissible(q'.occurrences, q'.observations)
  {
    SameDistinct(q.observations, q'.observations);
    SameObservations(q.observations, q'.observations);
    SameInputs(q, q');
  }

  lemma StaysWellposed(q: Request, q': Request)
    requires SameData(q, q') && Wellposed(q)
    ensures Wellposed(q') && (RunsRules(q) <==> RunsRules(q'))
  {
    SameMultisetSameElems(q.whole, q'.whole);
    if RunsRules(q) {
      StaysAdmissible(q, q');
    }
  }

  // ---------------------------------------------------------------- the context

  /** Nothing the evaluator reads of a context differs. */
  ghost predicate SameContext(c: Context, c': Context) {
    && c'.observations == c.observations && c'.language == c.language && c'.script == c.script
    && c'.byIndicator.Keys == c.byIndicator.Keys && forall i :: c'.Of(i) == c.Of(i)
  }

  lemma ContextsAgree(q: Request, q': Request)
    requires SameData(q, q') && Wellposed(q) && Wellposed(q') && RunsRules(q) && RunsRules(q')
    ensures SameContext(RequestContext(q), RequestContext(q'))
  {
    var c, c' := RequestContext(q), RequestContext(q');
    SameObservations(q.observations, q'.observations);
    assert c.byIndicator.Keys == Indicators(q.occurrences) == Indicators(q'.occurrences) == c'.byIndicator.Keys;
    forall i ensures c'.Of(i) == c.Of(i) {
      ContextListsOccurrences(q.occurrences, c, i);
      ContextListsOccurrences(q'.occurrences, c', i);
    }
  }

  // ---------------------------------------------------------------- the evaluator

  lemma SameRaw(k: Knowledge, gate: Level, c: Context, c': Context)
    requires SameContext(c, c')
    ensures RawReadings(k, gate, c') == RawReadings(k, gate, c)
  {
  }

  lemma SamePicture(k: Knowledge, gate: Level, rid: Id, categories: set<Id>, c: Context, c': Context)
    requires SameContext(c, c')
    ensures PictureOf(k, gate, rid, categories, c') == PictureOf(k, gate, rid, categories, c)
  {
    SameRaw(k, gate, c, c');
    assert MatchedNegatives(k, gate, c', categories) == MatchedNegatives(k, gate, c, categories);
  }

  lemma SameSuppressors(k: Knowledge, gate: Level, c: Context, c': Context, p: Picture, target: Id)
    requires SameContext(c, c')
    ensures SuppressorsOf(k, gate, c', p, target) == SuppressorsOf(k, gate, c, p, target)
  {
  }

  lemma SameReadings(k: Knowledge, gate: Level, c: Context, c': Context, p: Picture)
    requires SameContext(c, c')
    ensures Readings(k, gate, c', p) == Readings(k, gate, c, p)
  {
    forall i | i in c.byIndicator && i in k.indicators ensures ReadingOf(k, gate, c', p, i) == ReadingOf(k, gate, c, p, i) {
      SameSuppressors(k, gate, c, c', p, i);
    }
  }

  lemma SameRefs(c: Context, c': Context, ids: set<Id>)
    requires SameContext(c, c')
    ensures CollectedRefs(c', ids) == CollectedRefs(c, ids) && ConfidenceInputs(c', ids) == ConfidenceInputs(c, ids)
  {
  }

  lemma SameAssembly(k: Knowledge, rid: Id, rule: Rule, c: Context, c': Context, p: Picture,
                     outcomes: map<Id, Outcome>, neutralised: set<Id>, groups: map<Id, seq<Group>>)
    requires SameContext(c, c')
    ensures Assemble(k, rid, rule, c', p, outcomes, neutralised, groups) == Assemble(k, rid, rule, c, p, outcomes, neutralised, groups)
  {
    SameRefs(c, c', PositiveOperands(k, rule) + p.negatives);
    SameRefs(c, c', PositiveOperands(k, rule));
  }

  lemma SameComposite(k: Knowledge, gate: Level, rid: Id, rule: Rule, c: Context, c': Context)
    requires SameContext(c, c')
    ensures CompositeResult(k, gate, rid, rule, c') == CompositeResult(k, gate, rid, rule, c)
  {
    var p := PictureOf(k, gate, rid, rule.categories, c);
    SamePicture(k, gate, rid, rule.categories, c, c');
    SameReadings(k, gate, c, c', p);
    var readings := Readings(k, gate, c, p);
    SameAssembly(k, rid, rule, c, c', p, OutcomesOf(readings), NeutralisedIn(readings), GroupsIn(readings));
  }

  lemma SameSuppressionResult(k: Knowledge, gate: Level, rid: Id, rule: Rule, c: Context, c': Context)
    requires SameContext(c, c')
    ensures SuppressionResult(k, gate, rid, rule, c') == SuppressionResult(k, gate, rid, rule, c)
  {
    var truth := NegativeTruth(k, gate, c);
    assert NegativeTruth(k, gate, c') == truth;
    SameRefs(c, c', set n | n in Operands(rule.require) && Lookup(truth, n) == True);
  }

  lemma SameEvaluation(k: Knowledge, gate: Level, rid: Id, c: Context, c': Context)
    requires SameContext(c, c')
    ensures EvaluateRule(k, gate, rid, c') == EvaluateRule(k, gate, rid, c)
  {
    if rid in k.rules {
      SameComposite(k, gate, rid, k.rules[rid], c, c');
      SameSuppressionResult(k, gate, rid, k.rules[rid], c, c');
    }
  }

  lemma SameOutcomes(k: Knowledge, gate: Level, c: Context, c': Context)
    requires SameContext(c, c')
    ensures RuleOutcomes(k, gate, c') == RuleOutcomes(k, gate, c)
  {
    var order := Ascending(PublishedRules(k));
    forall i | 0 <= i < |order| ensures RuleOutcomes(k, gate, c')[i] == RuleOutcomes(k, gate, c)[i] {
      SameEvaluation(k, gate, order[i], c, c');
    }
  }

  // ---------------------------------------------------------------- end to end

  lemma SameResults(k: Knowledge, gate: Level, q: Request, q': Request)
    requires SameData(q, q') && Wellposed(q) && Wellposed(q')
    ensures RequestResults(k, gate, q') == RequestResults(k, gate, q)
  {
    StaysWellposed(q, q');
    if RunsRules(q) {
      ContextsAgree(q, q');
      SameOutcomes(k, gate, RequestContext(q), RequestContext(q'));
    }
  }

  lemma SameAggregate(k: Knowledge, support: Aggregation.Support, rs: seq<RuleResult>,
                      whole: seq<Aggregation.ErrorRecord>, whole': seq<Aggregation.ErrorRecord>)
    requires multiset(whole) == multiset(whole')
    ensures Aggregation.Aggregate(k, support, rs, whole') == Aggregation.Aggregate(k, support, rs, whole)
  {
  }

  lemma SwapData(q: Request, q': Request)
    requires SameData(q, q')
    ensures SameData(q', q)
  {
  }

  /** Permuting or repeating occurrences, and permuting observations and errors, leaves a request as well
      posed as it was and its decision identical. */
  lemma OrderDecidesNothing(k: Knowledge, gate: Level, q: Request, q': Request)
    requires SameData(q, q')
    ensures Wellposed(q) <==> Wellposed(q')
    ensures Wellposed(q) ==> DecisionFor(k, gate, q') == DecisionFor(k, gate, q)
  {
    SwapData(q, q');
    if Wellposed(q) {
      StaysWellposed(q, q');
      SameResults(k, gate, q, q');
      ResultsAreAccepted(k, gate, q);
      SameAggregate(k, q.support, RequestResults(k, gate, q), q.whole, q'.whole);
    } else if Wellposed(q') {
      StaysWellposed(q', q);
    }
  }
}
