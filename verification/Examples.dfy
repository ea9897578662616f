/** A small governed bundle and two requests, valid by every schema, for the statements that need an
    instance. */
module Examples {
  import opened Ids
  import opened Kleene
  import opened Conditions
  import opened Domain
  import opened Observations
  import opened Evaluator
  import opened Pipeline
  import opened Benign
  import opened Schemas

  // indicators, a negative indicator, rules, categories, one input, one language
  const URGENCY: Id := 1
  const GREETING: Id := 2
  const PIN_PROMPT: Id := 3
  const RECEIVE_FRAMING: Id := 4
  const EDUCATIONAL: Id := 5
  const WEAK_RULE: Id := 10
  const STRONG_RULE: Id := 11
  const WEAK_FAMILY: Id := 50
  const STRONG_FAMILY: Id := 51
  const SAFETY: Id := 30
  const ENGLISH: Id := 60
  const LATIN: Id := 61
  const INPUT: Id := 90

  /** Two signals together, of two evidence classes. */
  function PairRule(a: Id, b: Id, family: Id, verdict: Verdict): Rule {
    Rule(Composite, true, AllOf([Leaf(a), Leaf(b)]), 2, {family}, verdict, Some(Severity.High),
         if verdict.Partial? then Some(Severity.High) else None, {ENGLISH}, {LATIN})
  }

  /** Two HIGH rules: one well supported on weak indicators, one partly supported on strong ones. The
      educational note cancels rules of the first family only. */
  function Bundle(): Knowledge {
    Knowledge(
      map[URGENCY := Indicator(Weak, Some(20)), GREETING := Indicator(Weak, Some(21)),
          PIN_PROMPT := Indicator(Strong, Some(22)), RECEIVE_FRAMING := Indicator(Strong, Some(23))],
      map[EDUCATIONAL := Negative(SuppressRule, Some(SAFETY), Some(true), None, false, {WEAK_FAMILY}, [])],
      map[],
      map[WEAK_RULE := PairRule(URGENCY, GREETING, WEAK_FAMILY, Verdict.Supported),
          STRONG_RULE := PairRule(PIN_PROMPT, RECEIVE_FRAMING, STRONG_FAMILY, Partial)])
  }

  const DIRECT: Observation := Observation(Extraction.Observed, Affirmed, FirstParty, Directive, Some(INPUT))

  /** One indicator seen with high confidence, on one observation of its own. */
  function Seen(sign: Id): Occurrence {
    Occurrence(sign, Extraction.Observed, Some(if sign == EDUCATIONAL then NegativeClass else PositiveClass),
               Some(Level.High), [RefOf(sign)], Some(INPUT))
  }

  function RefOf(sign: Id): Id {
    100 + sign
  }

  function Showing(signs: seq<Id>): Request {
    Request(seq(|signs|, i requires 0 <= i < |signs| => Seen(signs[i])),
            seq(|signs|, i requires 0 <= i < |signs| => (RefOf(signs[i]), DIRECT)),
            [ENGLISH], [LATIN], Aggregation.Support.Supported, [])
  }

  /** All four signs. */
  function Before(): seq<Id> {
    [URGENCY, GREETING, PIN_PROMPT, RECEIVE_FRAMING]
  }

  /** The same, and the educational note. */
  function After(): seq<Id> {
    [URGENCY, GREETING, PIN_PROMPT, RECEIVE_FRAMING, EDUCATIONAL]
  }

  // ---------------------------------------------------------------- the schemas accept them

  lemma PairCondition(a: Id, b: Id)
    ensures IsCondition(AllOf([Leaf(a), Leaf(b)])) && Operands(AllOf([Leaf(a), Leaf(b)])) == {a, b}
  {
    var of := [Leaf(a), Leaf(b)];
    assert OperandsEach(of) == Operands(of[0]) + OperandsEach(of[1..]);
    assert OperandsEach(of[1..]) == Operands(of[1]) + OperandsEach(of[2..]);
  }

  lemma PairRuleIsValid(k: Knowledge, a: Id, b: Id, family: Id, verdict: Verdict)
    requires a in k.indicators && b in k.indicators && (verdict.Supported? || verdict.Partial?)
    ensures ValidRule(k, PairRule(a, b, family, verdict))
  {
    PairCondition(a, b);
  }

  lemma BundleIsValid()
    ensures ValidKnowledge(Bundle())
  {
    VocabularyIsValid(Bundle());
    PairRuleIsValid(Bundle(), URGENCY, GREETING, WEAK_FAMILY, Verdict.Supported);
    PairRuleIsValid(Bundle(), PIN_PROMPT, RECEIVE_FRAMING, STRONG_FAMILY, Partial);
  }

  lemma VocabularyIsValid(k: Knowledge)
    requires k == Bundle()
    ensures k.indicators.Keys !! k.negatives.Keys !! k.rules.Keys
    ensures forall i :: i in k.indicators ==> k.indicators[i].evidenceClass.Some?
    ensures forall n :: n in k.negatives ==> ValidNegative(k, n)
  {
  }

  lemma ShownObservations(signs: seq<Id>)
    requires NoRepeats(signs)
    ensures Observations.DistinctIds(Showing(signs).observations)
    ensures forall s :: s in signs ==> (RefOf(s), DIRECT) in Showing(signs).observations
  {
    var q := Showing(signs);
    forall s | s in signs ensures (RefOf(s), DIRECT) in q.observations {
      var i :| 0 <= i < |signs| && signs[i] == s;
      assert q.observations[i] == (RefOf(s), DIRECT);
    }
  }

  lemma ShownOccurrences(signs: seq<Id>, o: Occurrence)
    ensures o in Showing(signs).occurrences <==> o.indicator in signs && o == Seen(o.indicator)
  {
    if o.indicator in signs && o == Seen(o.indicator) {
      var i :| 0 <= i < |signs| && signs[i] == o.indicator;
      assert Showing(signs).occurrences[i] == o;
    }
  }

  lemma ShowingIsAdmissible(signs: seq<Id>, q: Request)
    requires NoRepeats(signs) && q == Showing(signs)
    ensures Admissible(q.occurrences, q.observations)
  {
    ShownObservations(signs);
    forall o | o in q.occurrences ensures WellBacked(ById(q.observations), o) {
      ShownOccurrences(signs, o);
      ListedIsFound(q.observations, (RefOf(o.indicator), DIRECT));
    }
  }

  /** The indicators and the negative of the bundle, under whatever metadata. */
  predicate SameVocabulary(k: Knowledge) {
    k.indicators.Keys == {URGENCY, GREETING, PIN_PROMPT, RECEIVE_FRAMING} && EDUCATIONAL in k.negatives
  }

  /** Signs of the bundle, each once. */
  ghost predicate AllKnown(signs: seq<Id>) {
    NoRepeats(signs) && Elems(signs) <= {URGENCY, GREETING, PIN_PROMPT, RECEIVE_FRAMING, EDUCATIONAL}
  }

  lemma AfterIsKnown()
    ensures AllKnown(After()) && URGENCY in After() && GREETING in After() && EDUCATIONAL in After()
  {
    assert After()[0] == URGENCY && After()[1] == GREETING && After()[4] == EDUCATIONAL;
  }

  lemma ShowingIsValid(k: Knowledge, signs: seq<Id>, q: Request)
    requires SameVocabulary(k) && AllKnown(signs) && q == Showing(signs)
    ensures ValidRequest(k, q) && RunsRules(q)
  {
    ShowingIsAdmissible(signs, q);
    forall o | o in q.occurrences ensures ValidOccurrence(k, o) {
      ShownOccurrences(signs, o);
      assert o.indicator in Elems(signs);
    }
  }

  // ---------------------------------------------------------------- what the contexts hold

  /** The sign was seen once, on a direct observation. */
  ghost predicate Shown(c: Context, sign: Id) {
    && c.Of(sign) == {Seen(sign)} && sign in c.byIndicator
    && RefOf(sign) in c.observations && c.observations[RefOf(sign)] == DIRECT
  }

  /** Exactly these signs were. */
  ghost predicate Shows(c: Context, signs: set<Id>) {
    c.byIndicator.Keys == signs && c.language == ENGLISH && c.script == LATIN && forall s :: s in signs ==> Shown(c, s)
  }

  lemma SignIsShown(signs: seq<Id>, q: Request, c: Context, s: Id)
    requires NoRepeats(signs) && q == Showing(signs) && c == RequestContext(q)
    ensures s in c.byIndicator <==> s in signs
    ensures s in signs ==> Shown(c, s)
  {
    ShownOccurrences(signs, Seen(s));
    forall o | o in q.occurrences && o.indicator == s ensures o == Seen(s) && s in signs {
      ShownOccurrences(signs, o);
    }
    ContextListsOccurrences(q.occurrences, c, s);
    if s in signs {
      ShownObservations(signs);
      ListedIsFound(q.observations, (RefOf(s), DIRECT));
      assert c.Of(s) == {Seen(s)};
    }
  }

  lemma SignsAreShown(signs: seq<Id>, q: Request)
    requires NoRepeats(signs) && q == Showing(signs)
    ensures Shows(RequestContext(q), Elems(signs))
  {
    forall s ensures s in RequestContext(q).byIndicator <==> s in signs
             ensures s in signs ==> Shown(RequestContext(q), s) {
      SignIsShown(signs, q, RequestContext(q), s);
    }
  }

  // ---------------------------------------------------------------- what the evaluator makes of them

  lemma SeenIsTrue(observations: map<Id, Observation>, gate: Level, s: Id)
    requires s != EDUCATIONAL && RefOf(s) in observations && observations[RefOf(s)] == DIRECT
    ensures Combine(observations, gate, {Seen(s)}, {}).outcome.value == True
  {
  }

  lemma NoteIsTrue(gate: Level, c: Context)
    requires Shown(c, EDUCATIONAL)
    ensures CombineNegative(gate, c.Of(EDUCATIONAL)).value == True
  {
    FoldIsOr(NegativeReadings(gate, c.Of(EDUCATIONAL)), NotSeen);
    assert NegativeReading(gate, Seen(EDUCATIONAL)) in NegativeReadings(gate, c.Of(EDUCATIONAL));
  }

  lemma RawIsTrue(k: Knowledge, gate: Level, c: Context, s: Id)
    requires s in k.indicators && s != EDUCATIONAL && Shown(c, s)
    ensures Lookup(TruthOf(OutcomesOf(RawReadings(k, gate, c))), s) == True
  {
    SeenIsTrue(c.observations, gate, s);
  }

  /** No negative acts on single indicators. */
  predicate CancelsOnly(k: Knowledge) {
    forall n :: n in k.negatives ==> k.negatives[n].effect == SuppressRule
  }

  lemma ReadsTrue(k: Knowledge, gate: Level, c: Context, p: Picture, s: Id)
    requires CancelsOnly(k) && s in k.indicators && s != EDUCATIONAL && Shown(c, s)
    ensures Lookup(TruthIn(k, gate, c, p), s) == True
  {
    assert SuppressorsOf(k, gate, c, p, s) == {};
    SeenIsTrue(c.observations, gate, s);
    TruthAt(k, gate, c, p, s);
  }

  lemma PairIsTrue(a: Id, b: Id, t: map<Id, Truth>)
    requires Lookup(t, a) == True && Lookup(t, b) == True
    ensures Eval(AllOf([Leaf(a), Leaf(b)]), t) == True
  {
  }

  /** A rule on two signs of two evidence classes. */
  ghost predicate OnPair(k: Knowledge, rule: Rule, a: Id, b: Id) {
    && rule.require == AllOf([Leaf(a), Leaf(b)]) && rule.minClasses == 2
    && a in k.indicators && b in k.indicators && a != EDUCATIONAL && b != EDUCATIONAL
    && k.indicators[a].evidenceClass.Some? && k.indicators[b].evidenceClass.Some?
    && k.indicators[a].evidenceClass != k.indicators[b].evidenceClass
  }

  lemma PairIsDiverse(k: Knowledge, rule: Rule, a: Id, b: Id)
    requires OnPair(k, rule, a, b)
    ensures PositiveOperands(k, rule) == {a, b} && |ClassesOf(k, {a, b})| == 2
  {
    PairCondition(a, b);
    assert ClassesOf(k, {a, b}) == {k.indicators[a].evidenceClass.value, k.indicators[b].evidenceClass.value};
  }

  /** What the evaluator says of a rule on these signs. */
  ghost predicate Fires(r: RuleResult, signs: set<Id>, rule: Rule, p: Picture) {
    && r.kind.Composite? && r.state.Matched? && r.required == True && !HasAggregationFields(r)
    && Elems(r.matchedPositive) == signs && Elems(r.matchedNegative) == p.negatives && Elems(r.activeOverrides) == p.overrides
    && r.verdict == Some(rule.verdict) && r.effectiveSeverity == EffectiveSeverity(rule)
  }

  lemma DiverseFires(k: Knowledge, rid: Id, rule: Rule, c: Context, p: Picture, outcomes: map<Id, Outcome>,
                     neutralised: set<Id>, groups: map<Id, seq<Group>>, signs: set<Id>)
    requires Eval(rule.require, TruthOf(outcomes)) == True && |ClassesOf(k, signs)| >= rule.minClasses
    requires signs == TrueOperands(PositiveOperands(k, rule), TruthOf(outcomes))
    ensures Fires(Assemble(k, rid, rule, c, p, outcomes, neutralised, groups), signs, rule, p)
  {
  }

  lemma AssembledFires(k: Knowledge, rid: Id, rule: Rule, c: Context, p: Picture, outcomes: map<Id, Outcome>,
                       neutralised: set<Id>, groups: map<Id, seq<Group>>, a: Id, b: Id)
    requires OnPair(k, rule, a, b) && Lookup(TruthOf(outcomes), a) == True && Lookup(TruthOf(outcomes), b) == True
    ensures Fires(Assemble(k, rid, rule, c, p, outcomes, neutralised, groups), {a, b}, rule, p)
  {
    PairIsTrue(a, b, TruthOf(outcomes));
    PairIsDiverse(k, rule, a, b);
    assert TrueOperands({a, b}, TruthOf(outcomes)) == {a, b};
    DiverseFires(k, rid, rule, c, p, outcomes, neutralised, groups, {a, b});
  }

  lemma PairFires(k: Knowledge, gate: Level, rid: Id, rule: Rule, c: Context, a: Id, b: Id)
    requires CancelsOnly(k) && OnPair(k, rule, a, b) && Shown(c, a) && Shown(c, b)
    ensures Fires(CompositeResult(k, gate, rid, rule, c), {a, b}, rule, PictureOf(k, gate, rid, rule.categories, c))
  {
    var p := PictureOf(k, gate, rid, rule.categories, c);
    ReadsTrue(k, gate, c, p, a);
    ReadsTrue(k, gate, c, p, b);
    var readings := Readings(k, gate, c, p);
    AssembledFires(k, rid, rule, c, p, OutcomesOf(readings), NeutralisedIn(readings), GroupsIn(readings), a, b);
  }
}
