/** Producer and consumers: for every decision aggregation returns, exactly when each re-check passes. */
module Agreement {
  import opened Ids
  import opened Domain
  import opened Aggregation
  import opened Consumers

  // ---------------------------------------------------------------- what stamping keeps

  lemma StampKeepsVerdict(k: Knowledge, r: RuleResult, g: Id, c: Level)
    ensures var s := Stamp(k, r, g, c);
      && s.ruleId == r.ruleId && s.kind == r.kind && s.state == r.state && s.error == r.error
      && s.matchedPositive == r.matchedPositive && s.matchedNegative == r.matchedNegative
      && s.neutralised == r.neutralised && s.activeOverrides == r.activeOverrides
      && s.ambiguities == r.ambiguities && s.unknowns == r.unknowns
      && (Eligible(s) <==> Eligible(r)) && (Errored(s) <==> Errored(r))
  {
  }

  /** A relabelling of results that keeps what the consumers read. */
  ghost predicate Mirrors(rs: set<RuleResult>, rs': set<RuleResult>) {
    && (forall r :: r in rs ==> Mirrored(r, rs'))
    && (forall r :: r in rs' ==> Mirrored(r, rs))
  }

  ghost predicate Mirrored(r: RuleResult, rs: set<RuleResult>) {
    exists s :: s in rs && SameVerdict(r, s)
  }

  ghost predicate SameVerdict(r: RuleResult, s: RuleResult) {
    && s.ruleId == r.ruleId && s.kind == r.kind && s.state == r.state && s.error == r.error
    && s.matchedPositive == r.matchedPositive && s.matchedNegative == r.matchedNegative
    && s.neutralised == r.neutralised && s.activeOverrides == r.activeOverrides
    && s.ambiguities == r.ambiguities && s.unknowns == r.unknowns
    && (Eligible(s) <==> Eligible(r))
  }

  lemma StampedMirrors(k: Knowledge, rs: set<RuleResult>, g: Id, c: Level)
    ensures Mirrors(rs, Stamped(k, rs, g, c))
  {
    forall r | r in rs ensures Mirrored(r, Stamped(k, rs, g, c)) {
      StampKeepsVerdict(k, r, g, c);
      assert Stamp(k, r, g, c) in Stamped(k, rs, g, c) && SameVerdict(r, Stamp(k, r, g, c));
    }
    StampedComesBack(k, rs, g, c);
  }

  lemma StampedComesBack(k: Knowledge, rs: set<RuleResult>, g: Id, c: Level)
    ensures forall s :: s in Stamped(k, rs, g, c) ==> Mirrored(s, rs)
  {
  }

  lemma MirrorsSwap(rs: set<RuleResult>, rs': set<RuleResult>)
    requires Mirrors(rs, rs')
    ensures Mirrors(rs', rs)
  {
  }

  // each rollup is monotone under mirroring, hence equal both ways

  lemma EligibleWithin(rs: set<RuleResult>, rs': set<RuleResult>)
    requires Mirrors(rs, rs')
    ensures RuleIds(EligibleIn(rs)) <= RuleIds(EligibleIn(rs'))
    ensures AllPositive(EligibleIn(rs)) <= AllPositive(EligibleIn(rs'))
  {
  }

  lemma IdsWithin(rs: set<RuleResult>, rs': set<RuleResult>)
    requires Mirrors(rs, rs')
    ensures AllNegative(Composites(rs)) <= AllNegative(Composites(rs'))
    ensures AllNeutralised(Composites(rs)) <= AllNeutralised(Composites(rs'))
    ensures AllOverrides(Composites(rs)) <= AllOverrides(Composites(rs'))
  {
  }

  lemma NotesWithin(rs: set<RuleResult>, rs': set<RuleResult>)
    requires Mirrors(rs, rs')
    ensures AllAmbiguities(Composites(rs)) <= AllAmbiguities(Composites(rs'))
    ensures AllUnknowns(Composites(rs)) <= AllUnknowns(Composites(rs'))
  {
  }

  lemma ErrorsWithin(rs: set<RuleResult>, rs': set<RuleResult>)
    requires Mirrors(rs, rs')
    ensures DegradedBy(rs) ==> DegradedBy(rs')
    ensures SingleErrors(rs) <= SingleErrors(rs')
  {
  }

  function FiredIn(rs: set<RuleResult>): set<Id> {
    set r | r in rs && r.state.Matched? :: r.ruleId
  }

  // ---------------------------------------------------------------- the decision's parts

  lemma ResultsMirror(k: Knowledge, support: Support, rs: set<RuleResult>, whole: multiset<ErrorRecord>)
    requires DistinctIds(rs)
    ensures Mirrors(rs, ResultsFor(k, support, rs, whole))
  {
    if Counted(support, rs, whole) != {} {
      var axes := FiredAxes(k, support, rs);
      StampedMirrors(k, rs, axes.governing.value, axes.confidence.value);
    } else {
      forall r | r in rs ensures Mirrored(r, rs) {
        assert SameVerdict(r, r);
      }
    }
  }

  // ---------------------------------------------------------------- the risk matrix and the axes

  /** The axes always form a legal cell, and confidence and classification go together. */
  lemma AxesAreCoherent(k: Knowledge, support: Support, rs: set<RuleResult>, whole: multiset<ErrorRecord>)
    ensures var a := AxesFor(k, support, rs, whole);
      && MatrixCell(a.severity, a.strength) == Some(a.risk)
      && (Counted(support, rs, whole) != {} ==>
            a.severity.Some? && a.strength.Some? && a.risk.Some? && a.confidence.Some? && a.governing.Some?
            && a.classification == if a.confidence == Some(Level.Low) then ScamSuspected else ScamDetected)
      && (Counted(support, rs, whole) == {} ==>
            a.severity.None? && a.strength.None? && a.risk.None? && a.confidence.None? && a.governing.None?
            && !IsScam(a.classification))
  {
  }

  lemma FiredRulesOf(d: Decision)
    ensures FiredRules(d) == FiredIn(Elems(d.results))
  {
  }

  lemma SameFired(rs: set<RuleResult>, rs': set<RuleResult>)
    requires Mirrors(rs, rs')
    ensures FiredIn(rs) == FiredIn(rs')
  {
  }

  lemma DecisionFields(k: Knowledge, support: Support, rs: set<RuleResult>, whole: multiset<ErrorRecord>)
    requires DistinctIds(rs)
    ensures var d := Decide(k, support, rs, whole);
      var a := AxesFor(k, support, rs, whole);
      && Elems(d.results) == ResultsFor(k, support, rs, whole)
      && d.support == support && d.classification == a.classification && d.severity == a.severity
      && d.strength == a.strength && d.risk == a.risk && d.confidence == a.confidence && d.governing == a.governing
      && Elems(d.matchedRules) == RuleIds(Counted(support, rs, whole))
  {
  }

  /** The fired rules of a decision are those of its inputs. */
  lemma FiredOfDecision(k: Knowledge, support: Support, rs: set<RuleResult>, whole: multiset<ErrorRecord>)
    requires DistinctIds(rs)
    ensures FiredRules(Decide(k, support, rs, whole)) == FiredIn(rs)
  {
    ResultsMirror(k, support, rs, whole);
    SameFired(rs, ResultsFor(k, support, rs, whole));
    DecisionFields(k, support, rs, whole);
    FiredRulesOf(Decide(k, support, rs, whole));
  }

  // ---------------------------------------------------------------- the assembler's invariants

  ghost predicate MatchedOfKind(rs: set<RuleResult>, kind: Kind) {
    exists r :: r in rs && r.kind == kind && r.state.Matched?
  }

  /** Sound matched composites are exactly the eligible results. */
  lemma MatchedRulesMatchFired(rs: set<RuleResult>)
    requires DistinctIds(rs)
    requires forall r :: r in rs && r.kind.Composite? && r.state.Matched? ==> Eligible(r)
    ensures RuleIds(EligibleIn(rs)) == FiredIn(rs) <==> !MatchedOfKind(rs, Suppression)
    ensures FiredIn(rs) == {} <==> !MatchedOfKind(rs, Suppression) && !MatchedOfKind(rs, Composite)
    ensures EligibleIn(rs) != {} <==> MatchedOfKind(rs, Composite)
  {
    if MatchedOfKind(rs, Suppression) {
      var r :| r in rs && r.kind == Suppression && r.state.Matched?;
      assert r.ruleId in FiredIn(rs);
      assert r.ruleId !in RuleIds(EligibleIn(rs));
    }
    if MatchedOfKind(rs, Composite) {
      var r :| r in rs && r.kind == Composite && r.state.Matched?;
      assert r in EligibleIn(rs) && r.ruleId in FiredIn(rs);
    }
  }

  /** When the assembler finds nothing to object to, in terms of the inputs alone. */
  ghost predicate CleanInputs(support: Support, rs: set<RuleResult>, whole: multiset<ErrorRecord>) {
    && !MatchedOfKind(rs, Suppression)
    && (Evaluated(support, whole) || !MatchedOfKind(rs, Composite))
    && (whole != multiset{} ==> !support.Unsupported? && !support.InsufficientInformation?)
  }

  lemma ClassificationOfSupport(k: Knowledge, support: Support, rs: set<RuleResult>, whole: multiset<ErrorRecord>)
    ensures var c := AxesFor(k, support, rs, whole).classification;
      && (support.Error? ==> c.Error?)
      && (support.Unsupported? ==> (c.Unsupported? <==> whole == multiset{}))
      && (support.InsufficientInformation? ==> (c.InsufficientEvidence? <==> whole == multiset{}))
  {
  }

  /** What the consumers can rely on about a decision, axis by axis. */
  ghost predicate Coherent(d: Decision, support: Support, rs: set<RuleResult>, whole: multiset<ErrorRecord>) {
    var fired := Counted(support, rs, whole) != {};
    && d.support == support
    && FiredRules(d) == FiredIn(rs)
    && Elems(d.matchedRules) == RuleIds(Counted(support, rs, whole))
    && MatrixCell(d.severity, d.strength) == Some(d.risk)
    && (fired ==> d.severity.Some? && d.confidence.Some?
                  && d.classification == if d.confidence == Some(Level.Low) then ScamSuspected else ScamDetected)
    && (!fired ==> NoAxes(d) && !IsScam(d.classification))
    && (support.Error? ==> d.classification.Error?)
    && (support.Unsupported? ==> (d.classification.Unsupported? <==> whole == multiset{}))
    && (support.InsufficientInformation? ==> (d.classification.InsufficientEvidence? <==> whole == multiset{}))
  }

  lemma DecisionIsCoherent(k: Knowledge, support: Support, rs: set<RuleResult>, whole: multiset<ErrorRecord>)
    requires DistinctIds(rs)
    ensures Coherent(Decide(k, support, rs, whole), support, rs, whole)
  {
    DecisionFields(k, support, rs, whole);
    FiredOfDecision(k, support, rs, whole);
    AxesAreCoherent(k, support, rs, whole);
    ClassificationOfSupport(k, support, rs, whole);
  }

  lemma CoherentIsClean(d: Decision, support: Support, rs: set<RuleResult>, whole: multiset<ErrorRecord>)
    requires DistinctIds(rs) && Coherent(d, support, rs, whole)
    requires forall r :: r in rs && r.kind.Composite? && r.state.Matched? ==> Eligible(r)
    ensures Clean(d) <==> CleanInputs(support, rs, whole)
  {
    MatchedRulesMatchFired(rs);
    if CleanInputs(support, rs, whole) {
      forall v ensures !Violates(d, v) {
      }
    } else if MatchedOfKind(rs, Suppression) || (!Evaluated(support, whole) && MatchedOfKind(rs, Composite)) {
      assert Violates(d, MatchedRulesDiffer);
    } else if support.Unsupported? {
      assert Violates(d, UnsupportedMustShow);
    } else {
      assert Violates(d, InsufficientMustShow);
    }
  }

  /** The assembler's invariants hold of a decision exactly when no SUPPRESSION-kind result is matched, no
      composite is matched outside the evaluated path, and a whole-evaluation error does not meet an
      unsupported or insufficient input. */
  lemma CleanExactly(k: Knowledge, support: Support, rs: set<RuleResult>, whole: multiset<ErrorRecord>)
    requires DistinctIds(rs)
    requires forall r :: r in rs ==> Sound(k, r)
    ensures Clean(Decide(k, support, rs, whole)) <==> CleanInputs(support, rs, whole)
  {
    DecisionIsCoherent(k, support, rs, whole);
    CoherentIsClean(Decide(k, support, rs, whole), support, rs, whole);
  }

  // ---------------------------------------------------------------- the rollup check

  lemma MirrorsSameEligible(rs: set<RuleResult>, rs': set<RuleResult>)
    requires Mirrors(rs, rs')
    ensures RuleIds(EligibleIn(rs)) == RuleIds(EligibleIn(rs')) && AllPositive(EligibleIn(rs)) == AllPositive(EligibleIn(rs'))
    ensures EligibleIn(rs) == {} <==> EligibleIn(rs') == {}
  {
    MirrorsSwap(rs, rs');
    EligibleWithin(rs, rs');
    EligibleWithin(rs', rs);
    forall r | r in EligibleIn(rs) ensures r.ruleId in RuleIds(EligibleIn(rs')) {
    }
    forall r | r in EligibleIn(rs') ensures r.ruleId in RuleIds(EligibleIn(rs)) {
    }
  }

  lemma MirrorsSameRest(rs: set<RuleResult>, rs': set<RuleResult>)
    requires Mirrors(rs, rs')
    ensures AllNegative(Composites(rs)) == AllNegative(Composites(rs'))
    ensures AllNeutralised(Composites(rs)) == AllNeutralised(Composites(rs'))
    ensures AllOverrides(Composites(rs)) == AllOverrides(Composites(rs'))
    ensures AllAmbiguities(Composites(rs)) == AllAmbiguities(Composites(rs'))
    ensures AllUnknowns(Composites(rs)) == AllUnknowns(Composites(rs'))
    ensures (DegradedBy(rs) <==> DegradedBy(rs')) && SingleErrors(rs) == SingleErrors(rs')
  {
    MirrorsSwap(rs, rs');
    IdsWithin(rs, rs');
    IdsWithin(rs', rs);
    NotesWithin(rs, rs');
    NotesWithin(rs', rs);
    ErrorsWithin(rs, rs');
    ErrorsWithin(rs', rs);
  }

  lemma {:induction false} SingleCount(q: seq<ErrorRecord>, e: ErrorRecord)
    ensures multiset(SingleScoped(q))[e] == if e.scope.SingleRule? then multiset(q)[e] else 0
  {
    if q != [] {
      var last := q[|q| - 1];
      SingleCount(q[..|q| - 1], e);
      assert q == q[..|q| - 1] + [last];
    }
  }

  ghost predicate NoSingleScope(whole: multiset<ErrorRecord>) {
    forall e :: e in whole ==> !e.scope.SingleRule?
  }

  /** The SINGLE_RULE errors are those of the rule results exactly when the caller brought none. */
  lemma SingleErrorsAgree(errors: seq<ErrorRecord>, whole: multiset<ErrorRecord>, rs: set<RuleResult>)
    requires multiset(errors) == whole + multiset(SingleErrors(rs))
    ensures multiset(SingleScoped(errors)) == multiset(SingleErrors(rs)) <==> NoSingleScope(whole)
  {
    forall e
      ensures multiset(SingleScoped(errors))[e] ==
        if e.scope.SingleRule? then whole[e] + multiset(SingleErrors(rs))[e] else 0
    {
      SingleCount(errors, e);
    }
    assert forall e :: e in SingleErrors(rs) ==> e.scope.SingleRule?;
    if NoSingleScope(whole) {
      forall e ensures multiset(SingleScoped(errors))[e] == multiset(SingleErrors(rs))[e] {
      }
    } else {
      var e :| e in whole && e.scope.SingleRule?;
      assert multiset(SingleScoped(errors))[e] > multiset(SingleErrors(rs))[e];
    }
  }

  lemma CanonicalListsExactly(ids: set<Id>, notes: set<Note>)
    ensures ListsExactly(Ascending(ids), ids) && ListsExactly(SortedNotes(notes), notes)
  {
    OncePerElement(SortedNotes(notes), notes);
  }

  /** Every rollup, as assembled. */
  ghost predicate Assembled(d: Decision, fired: set<RuleResult>, rs: set<RuleResult>, whole: multiset<ErrorRecord>) {
    && d.matchedRules == Ascending(RuleIds(fired)) && d.matchedPositive == Ascending(AllPositive(fired))
    && d.matchedNegative == Ascending(AllNegative(Composites(rs)))
    && d.suppressed == Ascending(AllNeutralised(Composites(rs)))
    && d.overrides == Ascending(AllOverrides(Composites(rs)))
    && d.ambiguities == SortedNotes(AllAmbiguities(Composites(rs)))
    && d.unknowns == SortedNotes(AllUnknowns(Composites(rs)))
    && (d.degraded <==> DegradedBy(rs))
    && multiset(d.errors) == whole + multiset(SingleErrors(rs))
    && Elems(d.results) == rs
  }

  lemma DecisionIsAssembled(k: Knowledge, support: Support, rs: set<RuleResult>, whole: multiset<ErrorRecord>)
    requires DistinctIds(rs)
    ensures Assembled(Decide(k, support, rs, whole), Counted(support, rs, whole), ResultsFor(k, support, rs, whole), whole)
  {
    ResultsMirror(k, support, rs, whole);
    MirrorsSameRest(rs, ResultsFor(k, support, rs, whole));
  }

  lemma AssembledRollups(d: Decision, fired: set<RuleResult>, rs: set<RuleResult>, whole: multiset<ErrorRecord>)
    requires Assembled(d, fired, rs, whole)
    ensures RollupsAgree(d) <==>
      RuleIds(fired) == RuleIds(EligibleIn(rs)) && AllPositive(fired) == AllPositive(EligibleIn(rs)) && NoSingleScope(whole)
  {
    SingleErrorsAgree(d.errors, whole, rs);
    CanonicalListsExactly(RuleIds(fired), AllAmbiguities(Composites(rs)));
    CanonicalListsExactly(AllPositive(fired), AllUnknowns(Composites(rs)));
    CanonicalListsExactly(AllNegative(Composites(rs)), {});
    CanonicalListsExactly(AllNeutralised(Composites(rs)), {});
    CanonicalListsExactly(AllOverrides(Composites(rs)), {});
  }

  lemma CountedMatchesEligible(support: Support, rs: set<RuleResult>, out: set<RuleResult>, whole: multiset<ErrorRecord>)
    requires Mirrors(rs, out)
    ensures var fired := Counted(support, rs, whole);
      RuleIds(fired) == RuleIds(EligibleIn(out)) && AllPositive(fired) == AllPositive(EligibleIn(out))
      <==> Evaluated(support, whole) || EligibleIn(rs) == {}
  {
    MirrorsSameEligible(rs, out);
    if r :| r in EligibleIn(rs) {
      assert r.ruleId in RuleIds(EligibleIn(rs));
    }
  }

  /** The rollup check passes exactly when no eligible result sits outside the evaluated path and the
      caller's errors are not scoped to a single rule. */
  lemma RollupsExactly(k: Knowledge, support: Support, rs: set<RuleResult>, whole: multiset<ErrorRecord>)
    requires DistinctIds(rs)
    ensures RollupsAgree(Decide(k, support, rs, whole)) <==>
      (Evaluated(support, whole) || EligibleIn(rs) == {}) && NoSingleScope(whole)
  {
    ResultsMirror(k, support, rs, whole);
    DecisionIsAssembled(k, support, rs, whole);
    AssembledRollups(Decide(k, support, rs, whole), Counted(support, rs, whole), ResultsFor(k, support, rs, whole), whole);
    CountedMatchesEligible(support, rs, ResultsFor(k, support, rs, whole), whole);
  }

  // ---------------------------------------------------------------- the classification check

  lemma WholeErrorCarried(d: Decision, whole: multiset<ErrorRecord>, rs: set<RuleResult>)
    requires multiset(d.errors) == whole + multiset(SingleErrors(rs))
    ensures CarriesWholeError(d) <==> exists e :: e in whole && e.scope.WholeEvaluation?
  {
    assert forall e :: e in d.errors <==> e in multiset(d.errors);
    assert forall e :: e in SingleErrors(rs) ==> e.scope.SingleRule?;
  }

  lemma GovernedWhenFired(k: Knowledge, support: Support, rs: set<RuleResult>, whole: multiset<ErrorRecord>)
    requires DistinctIds(rs) && Counted(support, rs, whole) != {}
    ensures GovernedByEligible(Decide(k, support, rs, whole))
  {
    var d := Decide(k, support, rs, whole);
    var out := ResultsFor(k, support, rs, whole);
    var g := Governing(EligibleIn(rs));
    DecisionFields(k, support, rs, whole);
    ResultsMirror(k, support, rs, whole);
    assert Mirrored(g, out);
    assert g.ruleId in Elems(d.matchedRules);
    GovernedByMirror(d, g, out);
  }

  lemma GovernedByMirror(d: Decision, g: RuleResult, out: set<RuleResult>)
    requires Elems(d.results) == out && DistinctIds(out) && Mirrored(g, out) && Eligible(g)
    requires d.governing == Some(g.ruleId) && g.ruleId in Elems(d.matchedRules)
    ensures GovernedByEligible(d)
  {
    var s :| s in out && SameVerdict(g, s);
    assert s in d.results;
    forall r | r in d.results && r.ruleId == g.ruleId ensures Eligible(r) {
      assert r in Elems(d.results);
    }
  }

  lemma NothingWhenQuiet(k: Knowledge, support: Support, rs: set<RuleResult>, whole: multiset<ErrorRecord>)
    requires DistinctIds(rs) && Counted(support, rs, whole) == {}
    ensures Nothing(Decide(k, support, rs, whole)) <==> EligibleIn(rs) == {}
    ensures NoAxes(Decide(k, support, rs, whole))
  {
  }

  /** When the classification check passes, in terms of the inputs alone. */
  ghost predicate ClassifiableInputs(support: Support, rs: set<RuleResult>, whole: multiset<ErrorRecord>) {
    && (Evaluated(support, whole) || EligibleIn(rs) == {})
    && (whole != multiset{} && !support.Error? ==> exists e :: e in whole && e.scope.WholeEvaluation?)
  }

  lemma ClassificationCases(k: Knowledge, support: Support, rs: set<RuleResult>, whole: multiset<ErrorRecord>)
    ensures var c := AxesFor(k, support, rs, whole).classification;
      && (c.Error? <==> whole != multiset{} || support.Error?)
      && (c.Unsupported? ==> support.Unsupported?)
      && (c.NoScamPattern? ==> Evaluable(support))
      && (IsScam(c) ==> Evaluable(support) && Counted(support, rs, whole) != {})
  {
  }

  /** The classification check passes exactly when no eligible result sits outside the evaluated path and
      a refusal of an input that is not itself an error says so in its scope. */
  lemma ClassificationExactly(k: Knowledge, support: Support, rs: set<RuleResult>, whole: multiset<ErrorRecord>)
    requires DistinctIds(rs)
    ensures ClassificationAgrees(Decide(k, support, rs, whole)) <==> ClassifiableInputs(support, rs, whole)
  {
    var d := Decide(k, support, rs, whole);
    DecisionFields(k, support, rs, whole);
    AxesAreCoherent(k, support, rs, whole);
    ClassificationCases(k, support, rs, whole);
    DecisionIsAssembled(k, support, rs, whole);
    WholeErrorCarried(d, whole, ResultsFor(k, support, rs, whole));
    if Counted(support, rs, whole) != {} {
      GovernedWhenFired(k, support, rs, whole);
    } else {
      NothingWhenQuiet(k, support, rs, whole);
    }
  }
}
