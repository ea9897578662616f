/** What HIGH detection confidence rests on. */
module Confidence {
  import opened Ids
  import opened Kleene
  import opened Domain
  import opened Observations
  import opened Evaluator
  import opened Suppression
  import opened Independence
  import opened Aggregation
  import opened Agreement
  import opened Pipeline
  import opened Benign
  import opened Soundness

  // ---------------------------------------------------------------- three independent pieces of evidence

  /** Groups of three different evidence classes, no two of them connected through shared references. */
  ghost predicate ThreeIndependent(entries: set<Entry>) {
    exists a, b, c :: Trio(entries, a, b, c)
  }

  ghost predicate Trio(entries: set<Entry>, a: Entry, b: Entry, c: Entry) {
    && a in entries && b in entries && c in entries
    && Independent(entries, a, b) && Independent(entries, a, c) && Independent(entries, b, c)
  }

  lemma TwoOf<T>(s: set<T>) returns (a: T, b: T)
    requires |s| >= 2
    ensures a in s && b in s && a != b
  {
    a :| a in s;
    assert |s - {a}| >= 1;
    b :| b in s - {a};
  }

  lemma ThreeOf<T>(s: set<T>) returns (a: T, b: T, c: T)
    requires |s| >= 3
    ensures a in s && b in s && c in s && a != b && a != c && b != c
  {
    a :| a in s;
    assert |s - {a}| >= 2;
    b, c := TwoOf(s - {a});
  }

  lemma IndependentSwap(entries: set<Entry>, a: Entry, b: Entry)
    requires Independent(entries, a, b)
    ensures Independent(entries, b, a)
  {
    forall x, y | x in b.refs && y in a.refs ensures !Connected(entries, x, y) {
      if Connected(entries, x, y) {
        SameComponent(entries, x, y);
        SameComponent(entries, y, x);
      }
    }
  }

  lemma TrioOfCount(k: Knowledge, eligible: set<RuleResult>)
    requires ProvenCount(k, eligible) >= 3
    ensures ThreeIndependent(EntriesOf(k, eligible))
  {
    var family := LargestFamily(k, eligible);
    var a, b, c := ThreeOf(family);
    assert Trio(EntriesOf(k, eligible), a, b, c);
  }

  lemma TrioIsFamily(entries: set<Entry>, a: Entry, b: Entry, c: Entry)
    requires Trio(entries, a, b, c)
    ensures IndependentFamily(entries, {a, b, c}) && |{a, b, c}| == 3
  {
    IndependentSwap(entries, a, b);
    IndependentSwap(entries, a, c);
    IndependentSwap(entries, b, c);
  }

  /** The proven count reaches three exactly when such a trio exists. */
  lemma ThreeExactly(k: Knowledge, eligible: set<RuleResult>)
    ensures ProvenCount(k, eligible) >= 3 <==> ThreeIndependent(EntriesOf(k, eligible))
  {
    if ProvenCount(k, eligible) >= 3 {
      TrioOfCount(k, eligible);
    }
    if ThreeIndependent(EntriesOf(k, eligible)) {
      var a, b, c :| Trio(EntriesOf(k, eligible), a, b, c);
      TrioIsFamily(EntriesOf(k, eligible), a, b, c);
      FamilyIsBounded(k, eligible, {a, b, c});
    }
  }

  // ---------------------------------------------------------------- what a group is made of

  /** An occurrence observed at or above the gate, live in every backing observation, untouched by the
      suppressors executed for the rule. */
  ghost predicate DirectEvidence(k: Knowledge, gate: Level, rid: Id, rule: Rule, c: Context, i: Id, o: Occurrence) {
    var suppressors := SuppressorsOf(k, gate, c, PictureOf(k, gate, rid, rule.categories, c), i);
    && o in c.Of(i) && !Mismatched(o, PositiveClass)
    && o.matched.Observed? && o.confidence.Some? && o.confidence.value.Rank() >= gate.Rank()
    && StructuralVerdict(c.observations, o) == Live
    && !Associated(o, suppressors) && !AssociationOpen(o, suppressors)
  }

  /** `e` is the group of such an occurrence, in a rule that fired and was not cancelled. */
  ghost predicate Witnessed(k: Knowledge, gate: Level, c: Context, e: Entry) {
    && e.rule in CompositeRules(k)
    && FiresAtFirst(k, gate, e.rule, k.rules[e.rule], c) && !CancelledAfter(k, gate, e.rule, k.rules[e.rule], c)
    && exists o :: DirectEvidence(k, gate, e.rule, k.rules[e.rule], c, e.indicator, o) && e.refs == SortedUnique(o.refs)
  }

  lemma ProvenanceOfComposite(k: Knowledge, gate: Level, rid: Id, rule: Rule, c: Context, i: Id, g: Group)
    requires i in CompositeResult(k, gate, rid, rule, c).provenance && g in CompositeResult(k, gate, rid, rule, c).provenance[i]
    ensures exists o :: DirectEvidence(k, gate, rid, rule, c, i, o) && g == SortedUnique(o.refs)
  {
    var p := PictureOf(k, gate, rid, rule.categories, c);
    var s := SuppressorsOf(k, gate, c, p, i);
    GroupsAreLive(c.observations, gate, c.Of(i), s, g);
    var o :| o in c.Of(i) && PositiveReading(c.observations, gate, o, s).value == True && o.refs != [] && g == SortedUnique(o.refs);
    TrueOccurrence(c.observations, gate, o, s);
    assert DirectEvidence(k, gate, rid, rule, c, i, o);
  }

  lemma ProvenanceAfterStep(k: Knowledge, r: RuleResult)
    ensures Apply(k, r).provenance == r.provenance || Apply(k, r).provenance == map[]
  {
  }

  lemma ProvenanceOfCopy(r: RuleResult, i: Id, g: Group)
    requires i in CanonicalCopy(r).provenance && g in CanonicalCopy(r).provenance[i]
    ensures i in r.provenance && exists h :: h in r.provenance[i] && g == SortedUnique(h)
  {
    var forms := set h | h in r.provenance[i] :: SortedUnique(h);
    assert CanonicalCopy(r).provenance[i] == SortedGroups(forms);
    assert g in Elems(SortedGroups(forms));
  }

  lemma EntrySource(k: Knowledge, eligible: set<RuleResult>, e: Entry) returns (r: RuleResult, g: Group)
    requires e in EntriesOf(k, eligible)
    ensures r in eligible && r.ruleId == e.rule && e.indicator in r.provenance && g in r.provenance[e.indicator]
    ensures e.refs == SortedUnique(g)
  {
    var r', i, g' :| r' in eligible && i in r'.matchedPositive && Contributes(k, r', i) && g' in r'.provenance[i] && g' != []
      && e == Entry(r'.ruleId, i, k.indicators[i].evidenceClass.value, SortedUnique(g'));
    r, g := r', g';
  }

  lemma CopiedGroup(k: Knowledge, gate: Level, rid: Id, rule: Rule, c: Context, i: Id, g: Group)
    requires var out := CanonicalCopy(Apply(k, CompositeResult(k, gate, rid, rule, c)));
      i in out.provenance && g in out.provenance[i]
    ensures exists o :: DirectEvidence(k, gate, rid, rule, c, i, o) && SortedUnique(g) == SortedUnique(o.refs)
  {
    var r := CompositeResult(k, gate, rid, rule, c);
    ProvenanceAfterStep(k, r);
    ProvenanceOfCopy(Apply(k, r), i, g);
    var h :| h in r.provenance[i] && g == SortedUnique(h);
    ProvenanceOfComposite(k, gate, rid, rule, c, i, h);
    var o :| DirectEvidence(k, gate, rid, rule, c, i, o) && h == SortedUnique(o.refs);
    AscendingIsIdempotent(Elems(o.refs));
  }

  /** Every group the count is taken over is a live, unsuppressed occurrence of a rule that fired. */
  lemma EveryEntryIsWitnessed(k: Knowledge, gate: Level, c: Context, e: Entry)
    requires NothingFailed(k, gate, c) && e in EntriesOf(k, EligibleIn(Results(k, gate, c)))
    ensures Witnessed(k, gate, c, e)
  {
    var r, g := EntrySource(k, EligibleIn(Results(k, gate, c)), e);
    var rid := SourceOf(k, gate, c, r);
    WitnessOfSource(k, gate, c, rid, r, e, g);
  }

  lemma WitnessOfSource(k: Knowledge, gate: Level, c: Context, rid: Id, r: RuleResult, e: Entry, g: Group)
    requires NothingFailed(k, gate, c) && rid in PublishedRules(k)
    requires r == CanonicalCopy(RuleOutcome(k, gate, rid, c)) && Eligible(r)
    requires r.ruleId == e.rule && e.indicator in r.provenance && g in r.provenance[e.indicator] && e.refs == SortedUnique(g)
    ensures Witnessed(k, gate, c, e)
  {
    CompositeSource(k, gate, c, rid, r);
    OutcomeIsAdmitted(k, gate, rid, c);
    VerdictsOfListed(k, gate, c, rid);
    InScopeUnlessFailed(k, gate, rid, c);
    CompositeOutcome(k, gate, rid, c);
    CopiedGroup(k, gate, rid, k.rules[rid], c, e.indicator, g);
  }

  // ---------------------------------------------------------------- the theorem

  /** The governing rule is fully supported, unambiguous and read with confidence, and either a hard-risk
      override is active in it or three independent pieces of evidence carry the decision. */
  ghost predicate FirmlyGoverned(k: Knowledge, rs: set<RuleResult>) {
    && EligibleIn(rs) != {}
    && var g := Governing(EligibleIn(rs));
       && g.verdict == Some(Verdict.Supported) && g.ambiguities == [] && DecisiveExtraction(g)
       && (g.activeOverrides != [] || ThreeIndependent(EntriesOf(k, EligibleIn(rs))))
  }

  lemma HighAxes(k: Knowledge, support: Support, rs: set<RuleResult>, whole: multiset<ErrorRecord>)
    ensures AxesFor(k, support, rs, whole).confidence == Some(Level.High) <==>
      Evaluated(support, whole) && !DegradedBy(rs) && FirmlyGoverned(k, rs)
  {
    if EligibleIn(rs) != {} {
      ThreeExactly(k, EligibleIn(rs));
    }
  }

  /** HIGH confidence, exactly: rules ran, none of them failed, and the governing rule stands firmly. */
  lemma HighConfidenceExactly(k: Knowledge, gate: Level, q: Request)
    requires Wellposed(q)
    ensures DecisionFor(k, gate, q).confidence == Some(Level.High) <==>
      RunsRules(q) && NothingFailed(k, gate, RequestContext(q)) && FirmlyGoverned(k, Results(k, gate, RequestContext(q)))
  {
    ResultsAreAccepted(k, gate, q);
    var rs := CanonicalSet(RequestResults(k, gate, q));
    CanonicalIdsDistinct(RequestResults(k, gate, q));
    DecisionFields(k, q.support, rs, multiset(q.whole));
    HighAxes(k, q.support, rs, multiset(q.whole));
    if RunsRules(q) {
      ResultsAreOutcomes(k, gate, RequestContext(q));
      FailureIsDegradation(k, gate, RequestContext(q));
    }
  }

  /** HIGH confidence without an active override names its evidence: three live, unsuppressed occurrences
      of different evidence classes, in rules that fired, no two of them sharing observations even through
      other occurrences. */
  lemma HighConfidenceHasWitnesses(k: Knowledge, gate: Level, q: Request)
    requires Wellposed(q) && DecisionFor(k, gate, q).confidence == Some(Level.High)
    ensures RunsRules(q) && EligibleIn(Results(k, gate, RequestContext(q))) != {}
    ensures var c := RequestContext(q);
      var eligible := EligibleIn(Results(k, gate, c));
      Governing(eligible).activeOverrides == [] ==>
        exists x, y, z :: Trio(EntriesOf(k, eligible), x, y, z)
          && Witnessed(k, gate, c, x) && Witnessed(k, gate, c, y) && Witnessed(k, gate, c, z)
  {
    HighConfidenceExactly(k, gate, q);
    var c := RequestContext(q);
    var eligible := EligibleIn(Results(k, gate, c));
    if Governing(eligible).activeOverrides == [] {
      var x, y, z :| Trio(EntriesOf(k, eligible), x, y, z);
      EveryEntryIsWitnessed(k, gate, c, x);
      EveryEntryIsWitnessed(k, gate, c, y);
      EveryEntryIsWitnessed(k, gate, c, z);
    }
  }
}
