/** The aggregation procedure: validate, refuse duplicates, collect errors, merge, match, stamp. */
module AggregationLoops {
  import opened Ids
  import opened Domain
  import opened Independence
  import opened Aggregation

  /** The canonical copy of one result, unless aggregation already touched it. */
  method CopyOne(r: RuleResult) returns (ok: bool, c: RuleResult)
    ensures ok <==> !HasAggregationFields(r)
    ensures ok ==> c == CanonicalCopy(r)
  {
    if HasAggregationFields(r) {
      return false, r;
    }
    return true, CanonicalCopy(r);
  }

  ghost predicate Untouched(rs: seq<RuleResult>) {
    forall i :: 0 <= i < |rs| ==> !HasAggregationFields(rs[i])
  }

  lemma OneMoreUntouched(rs: seq<RuleResult>, i: nat)
    requires i < |rs| && Untouched(rs[..i])
    ensures Untouched(rs[..i + 1]) <==> !HasAggregationFields(rs[i])
    ensures HasAggregationFields(rs[i]) ==> !Untouched(rs)
  {
    assert rs[..i + 1] == rs[..i] + [rs[i]];
  }

  /** The first loop: every result is copied into canonical form. */
  method Materialise(rs: seq<RuleResult>) returns (ok: bool, out: seq<RuleResult>)
    ensures ok <==> Untouched(rs)
    ensures ok ==> Copies(rs, out)
  {
    out := [];
    for i := 0 to |rs|
      invariant Copies(rs[..i], out) && Untouched(rs[..i])
    {
      var untouched, c := CopyOne(rs[i]);
      OneMoreUntouched(rs, i);
      if !untouched {
        return false, out;
      }
      CopiesAppend(rs, i, out, c);
      out := out + [c];
    }
    assert rs[..|rs|] == rs;
    ok := true;
  }

  /** The second: the semantic invariants of every copy. */
  method CheckInvariants(k: Knowledge, copies: seq<RuleResult>) returns (ok: bool)
    ensures ok <==> forall i :: 0 <= i < |copies| ==> Sound(k, copies[i])
  {
    for i := 0 to |copies|
      invariant forall j :: 0 <= j < i ==> Sound(k, copies[j])
    {
      if !Sound(k, copies[i]) {
        return false;
      }
    }
    ok := true;
  }

  lemma CopiesAppend(rs: seq<RuleResult>, i: nat, out: seq<RuleResult>, c: RuleResult)
    requires i < |rs| && Copies(rs[..i], out) && c == CanonicalCopy(rs[i])
    ensures Copies(rs[..i + 1], out + [c])
  {
  }

  lemma CopiesAdmitted(k: Knowledge, rs: seq<RuleResult>, copies: seq<RuleResult>)
    requires Copies(rs, copies)
    ensures (forall r :: r in rs ==> Admitted(k, r)) <==>
            forall i :: 0 <= i < |rs| ==> !HasAggregationFields(rs[i]) && Sound(k, copies[i])
  {
    forall i | 0 <= i < |rs|
      ensures Admitted(k, rs[i]) <==> !HasAggregationFields(rs[i]) && Sound(k, copies[i])
    {
    }
  }

  ghost predicate Copies(rs: seq<RuleResult>, out: seq<RuleResult>) {
    |out| == |rs| && forall i :: 0 <= i < |rs| ==> out[i] == CanonicalCopy(rs[i])
  }

  lemma CopiesAreCanonical(rs: seq<RuleResult>, out: seq<RuleResult>)
    requires Copies(rs, out)
    ensures Elems(out) == CanonicalSet(rs)
    ensures DistinctRules(out) <==> DistinctRules(rs)
    ensures forall r :: r in out ==> Orderly(r)
  {
    forall i | 0 <= i < |rs| ensures Orderly(out[i]) && out[i].ruleId == rs[i].ruleId {
      CanonicalIsOrderly(rs[i]);
    }
    forall r | r in CanonicalSet(rs) ensures r in out {
      var i :| 0 <= i < |rs| && r == CanonicalCopy(rs[i]);
      assert out[i] == r;
    }
  }

  method CheckDistinct(rs: seq<RuleResult>) returns (ok: bool)
    ensures ok <==> DistinctRules(rs)
  {
    var seen: set<Id> := {};
    for i := 0 to |rs|
      invariant forall x :: x in seen <==> exists j :: 0 <= j < i && rs[j].ruleId == x
      invariant forall a, b :: 0 <= a < b < i ==> rs[a].ruleId != rs[b].ruleId
    {
      if rs[i].ruleId in seen {
        return false;
      }
      seen := seen + {rs[i].ruleId};
    }
    ok := true;
  }

  /** The diagnostics: the trusted whole-evaluation errors, then one per errored rule. */
  method CollectErrors(rs: seq<RuleResult>, whole: seq<ErrorRecord>) returns (errors: seq<ErrorRecord>)
    requires DistinctRules(rs)
    ensures multiset(errors) == multiset(whole) + multiset(SingleErrors(Elems(rs)))
  {
    errors := whole;
    assert SingleErrors(Elems(rs[..0])) == {};
    for i := 0 to |rs|
      invariant multiset(errors) == multiset(whole) + multiset(SingleErrors(Elems(rs[..i])))
    {
      SingleErrorsStep(rs, i);
      if Errored(rs[i]) {
        errors := errors + [SingleError(rs[i])];
      }
    }
    assert rs[..|rs|] == rs;
  }

  lemma SingleErrorsStep(rs: seq<RuleResult>, i: nat)
    requires DistinctRules(rs) && i < |rs|
    ensures multiset(SingleErrors(Elems(rs[..i + 1]))) == multiset(SingleErrors(Elems(rs[..i])))
      + if Errored(rs[i]) then multiset{SingleError(rs[i])} else multiset{}
  {
  }

  method FilterEligible(rs: seq<RuleResult>) returns (eligible: seq<RuleResult>)
    requires DistinctRules(rs)
    ensures Elems(eligible) == EligibleIn(Elems(rs)) && DistinctRules(eligible)
  {
    eligible := [];
    for i := 0 to |rs|
      invariant Elems(eligible) == EligibleIn(Elems(rs[..i])) && DistinctRules(eligible)
    {
      ElemsOfPrefix(rs, i);
      if Eligible(rs[i]) {
        forall r | r in eligible ensures r.ruleId != rs[i].ruleId {
          assert r in Elems(eligible);
        }
        ElemsAppend(eligible, rs[i]);
        eligible := eligible + [rs[i]];
      }
    }
    assert rs[..|rs|] == rs;
  }

  lemma CanonicalIsOrderly(r: RuleResult)
    ensures Orderly(CanonicalCopy(r))
  {
    var c := CanonicalCopy(r);
    forall i | i in c.provenance ensures NoRepeats(c.provenance[i]) {
      GroupsDoNotRepeat(set g | g in r.provenance[i] :: SortedUnique(g));
    }
    forall i, g | i in c.provenance && g in c.provenance[i] ensures StrictlyAscending(g) {
      assert g in Elems(c.provenance[i]);
    }
  }

  lemma GroupsDoNotRepeat(groups: set<Group>)
    ensures NoRepeats(SortedGroups(groups))
  {
    OncePerElement(SortedGroups(groups), groups);
  }

  /** Everything after validation, when some rule fired. */
  method AggregateFired(k: Knowledge, support: Support, rs: seq<RuleResult>, eligible: seq<RuleResult>)
    returns (axes: Axes)
    requires DistinctRules(rs) && DistinctRules(eligible) && forall r :: r in rs ==> Orderly(r)
    requires Elems(eligible) == EligibleIn(Elems(rs)) && eligible != []
    ensures EligibleIn(Elems(rs)) != {} && axes == FiredAxes(k, support, Elems(rs))
  {
    assert eligible[0] in Elems(eligible);
    forall r | r in eligible ensures Orderly(r) {
      assert r in Elems(eligible);
    }
    ghost var es := Elems(eligible);
    GoverningExists(es);
    var g :| g in eligible && Governs(g, Elems(eligible));
    GoverningIsUnique(g, Governing(es), es);
    var count, classes, shared := ProvenIndependence(k, eligible);
    var severity := Highest(Severities(Elems(eligible)));
    var strength := RuleStrength(k, g);
    var degraded := DegradedBy(Elems(rs));
    var confidence := CappedConfidence(DetectionConfidence(g, count), degraded);
    axes := Axes(Classify(support, true, Elems(rs), Some(confidence), degraded, false),
                 Some(severity), Some(strength), Some(RiskLevel(severity, strength)), Some(confidence),
                 Corroboration(Ascending(classes), count, BandOf(count, g.verdict), Ascending(shared)),
                 Some(g.ruleId));
  }

  lemma StampedIsRefused(k: Knowledge, rs: seq<RuleResult>)
    requires exists i :: 0 <= i < |rs| && HasAggregationFields(rs[i])
    ensures !Accepted(k, rs)
  {
    var i :| 0 <= i < |rs| && HasAggregationFields(rs[i]);
    assert !Admitted(k, rs[i]);
  }

  method AggregateDecision(k: Knowledge, support: Support, rs: seq<RuleResult>, whole: seq<ErrorRecord>)
    returns (decision: Option<Decision>)
    ensures decision == Aggregate(k, support, rs, whole)
  {
    var unstamped, copies := Materialise(rs);
    if !unstamped {
      StampedIsRefused(k, rs);
      return None;
    }
    var ok := CheckInvariants(k, copies);
    CopiesAdmitted(k, rs, copies);
    if !ok {
      return None;
    }
    CopiesAreCanonical(rs, copies);
    var distinct := CheckDistinct(copies);
    if !distinct {
      return None;
    }
    CanonicalIdsDistinct(rs);
    var out := DecideCopies(k, support, copies, whole);
    decision := Some(out);
  }

  method DecideCopies(k: Knowledge, support: Support, copies: seq<RuleResult>, whole: seq<ErrorRecord>)
    returns (decision: Decision)
    requires DistinctRules(copies) && DistinctIds(Elems(copies)) && forall r :: r in copies ==> Orderly(r)
    ensures decision == Decide(k, support, Elems(copies), multiset(whole))
  {
    var errors := CollectErrors(copies, whole);
    var axes, fired, results := DecideAxes(k, support, copies, whole);
    decision := AssembleDecision(support, axes, fired, results, DegradedBy(Elems(copies)), multiset(errors));
  }

  /** The three exits: not evaluated, nothing fired, and the fired path with its stamps. */
  method DecideAxes(k: Knowledge, support: Support, copies: seq<RuleResult>, whole: seq<ErrorRecord>)
    returns (axes: Axes, fired: set<RuleResult>, results: set<RuleResult>)
    requires DistinctRules(copies) && DistinctIds(Elems(copies)) && forall r :: r in copies ==> Orderly(r)
    ensures axes == AxesFor(k, support, Elems(copies), multiset(whole))
    ensures fired == Counted(support, Elems(copies), multiset(whole))
    ensures results == ResultsFor(k, support, Elems(copies), multiset(whole))
  {
    var all := Elems(copies);
    var degraded := DegradedBy(all);
    var wholeError := whole != [];
    fired, results := {}, all;
    if wholeError || !Evaluable(support) {
      var c := Classify(support, false, all, None, degraded, wholeError);
      axes := QuietAxes(c, NoCorroboration(Band.Empty));
      return;
    }
    var eligible := FilterEligible(copies);
    if eligible == [] {
      var c := Classify(support, false, all, None, degraded, wholeError);
      axes := QuietAxes(c, QuietCorroboration(all, c));
      return;
    }
    axes := AggregateFired(k, support, copies, eligible);
    fired := Elems(eligible);
    results := Stamped(k, all, axes.governing.value, axes.confidence.value);
  }
}
