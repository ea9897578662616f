/** The two consumers that re-check a decision, and exactly when they agree with its producer. */
module Consumers {
  import opened Ids
  import opened Domain
  import opened Aggregation

  // ---------------------------------------------------------------- the result assembler's invariants

  /** The cell of the risk matrix; `None` is an illegal pair of axes. */
  function MatrixCell(severity: Option<Severity>, strength: Option<Strength>): Option<Option<Severity>> {
    match (severity, strength)
    case (None, None) => Some(None)
    case (Some(s), Some(t)) => Some(Some(RiskLevel(s, t)))
    case _ => None
  }

  /** Every rule reported as matched, of whatever kind. */
  function FiredRules(d: Decision): set<Id> {
    set r | r in d.results && r.state.Matched? :: r.ruleId
  }

  predicate IsScam(c: Classification) {
    c.ScamDetected? || c.ScamSuspected?
  }

  datatype Violation =
    | MatchedRulesDiffer | IllegalCell | RiskDiffers
    | UnsupportedMustShow | ErrorMustShow | InsufficientMustShow
    | FiredNotScam | LowNotSuspected | FirmNotDetected | FiredWithoutSeverity
    | QuietScam | QuietWithAxes

  predicate Violates(d: Decision, v: Violation) {
    match v
    case MatchedRulesDiffer => Elems(d.matchedRules) != FiredRules(d)
    case IllegalCell => MatrixCell(d.severity, d.strength).None?
    case RiskDiffers => MatrixCell(d.severity, d.strength).Some? && d.risk != MatrixCell(d.severity, d.strength).value
    case UnsupportedMustShow => d.support.Unsupported? && !d.classification.Unsupported?
    case ErrorMustShow => d.support.Error? && !d.classification.Error?
    case InsufficientMustShow => d.support.InsufficientInformation? && !d.classification.InsufficientEvidence?
    case FiredNotScam => FiredRules(d) != {} && !IsScam(d.classification)
    case LowNotSuspected => FiredRules(d) != {} && d.confidence == Some(Level.Low) && !d.classification.ScamSuspected?
    case FirmNotDetected =>
      FiredRules(d) != {} && !d.classification.ScamDetected?
      && (d.confidence == Some(Level.Medium) || d.confidence == Some(Level.High))
    case FiredWithoutSeverity => FiredRules(d) != {} && d.severity.None?
    case QuietScam => FiredRules(d) == {} && IsScam(d.classification)
    case QuietWithAxes => FiredRules(d) == {} && (d.severity.Some? || d.risk.Some? || d.confidence.Some?)
  }

  ghost predicate Clean(d: Decision) {
    forall v :: !Violates(d, v)
  }

  /** Appends a violation when its condition holds. */
  function Report(vs: seq<Violation>, holds: bool, v: Violation): (out: seq<Violation>)
    ensures forall x :: x in out <==> x in vs || (holds && x == v)
  {
    if holds then vs + [v] else vs
  }

  predicate AboutFired(v: Violation) {
    v.FiredNotScam? || v.LowNotSuspected? || v.FirmNotDetected? || v.FiredWithoutSeverity?
  }

  predicate AboutQuiet(v: Violation) {
    v.QuietScam? || v.QuietWithAxes?
  }

  /** The list the assembler builds, branch by branch. */
  method SemanticViolations(d: Decision) returns (vs: seq<Violation>)
    ensures forall v :: v in vs <==> Violates(d, v)
  {
    vs := CommonViolations(d);
    if FiredRules(d) != {} {
      vs := vs + FiredViolations(d);
    } else {
      vs := vs + QuietViolations(d);
    }
    forall v ensures v in vs <==> Violates(d, v) {
      if AboutFired(v) {
      } else if AboutQuiet(v) {
      }
    }
  }

  function CommonViolations(d: Decision): (vs: seq<Violation>)
    ensures forall v :: v in vs <==> Violates(d, v) && !AboutFired(v) && !AboutQuiet(v)
  {
    var cell := MatrixCell(d.severity, d.strength);
    var vs := Report([], Elems(d.matchedRules) != FiredRules(d), MatchedRulesDiffer);
    var vs := Report(vs, cell.None?, IllegalCell);
    var vs := Report(vs, cell.Some? && d.risk != cell.value, RiskDiffers);
    var vs := Report(vs, d.support.Unsupported? && !d.classification.Unsupported?, UnsupportedMustShow);
    var vs := Report(vs, d.support.Error? && !d.classification.Error?, ErrorMustShow);
    Report(vs, d.support.InsufficientInformation? && !d.classification.InsufficientEvidence?, InsufficientMustShow)
  }

  function FiredViolations(d: Decision): (vs: seq<Violation>)
    requires FiredRules(d) != {}
    ensures forall v :: v in vs <==>
      Violates(d, v) && AboutFired(v)
  {
    var vs := Report([], !IsScam(d.classification), FiredNotScam);
    var vs := Report(vs, d.confidence == Some(Level.Low) && !d.classification.ScamSuspected?, LowNotSuspected);
    var firm := d.confidence == Some(Level.Medium) || d.confidence == Some(Level.High);
    var vs := Report(vs, firm && !d.classification.ScamDetected?, FirmNotDetected);
    Report(vs, d.severity.None?, FiredWithoutSeverity)
  }

  function QuietViolations(d: Decision): (vs: seq<Violation>)
    requires FiredRules(d) == {}
    ensures forall v :: v in vs <==> Violates(d, v) && AboutQuiet(v)
  {
    var vs := Report([], IsScam(d.classification), QuietScam);
    Report(vs, d.severity.Some? || d.risk.Some? || d.confidence.Some?, QuietWithAxes)
  }

  // ---------------------------------------------------------------- the explanation's rollup check

  function SingleScoped(errors: seq<ErrorRecord>): seq<ErrorRecord> {
    if errors == [] then []
    else
      var rest := SingleScoped(errors[..|errors| - 1]);
      var last := errors[|errors| - 1];
      if last.scope.SingleRule? then rest + [last] else rest
  }

  predicate ListsExactly<T(==)>(q: seq<T>, s: set<T>) {
    NoRepeats(q) && Elems(q) == s
  }

  /** Every rollup is the one the rule results imply. */
  predicate RollupsAgree(d: Decision) {
    var all := Elems(d.results);
    && ListsExactly(d.matchedRules, RuleIds(EligibleIn(all)))
    && ListsExactly(d.matchedPositive, AllPositive(EligibleIn(all)))
    && ListsExactly(d.matchedNegative, AllNegative(Composites(all)))
    && ListsExactly(d.suppressed, AllNeutralised(Composites(all)))
    && ListsExactly(d.overrides, AllOverrides(Composites(all)))
    && ListsExactly(d.ambiguities, AllAmbiguities(Composites(all)))
    && ListsExactly(d.unknowns, AllUnknowns(Composites(all)))
    && d.degraded == DegradedBy(all)
    && multiset(SingleScoped(d.errors)) == multiset(SingleErrors(all))
  }

  /** One rollup: no duplicate members, and the expected ones. */
  method CheckField<T(==)>(value: seq<T>, wanted: set<T>) returns (ok: bool)
    ensures ok <==> ListsExactly(value, wanted)
  {
    NoRepeatsByCount(value);
    ok := |value| == |Elems(value)| && Elems(value) == wanted;
  }

  method CheckRollups(d: Decision) returns (ok: bool)
    ensures ok <==> RollupsAgree(d)
  {
    var all := Elems(d.results);
    ok := CheckField(d.matchedRules, RuleIds(EligibleIn(all)));
    if !ok { return; }
    ok := CheckField(d.matchedPositive, AllPositive(EligibleIn(all)));
    if !ok { return; }
    ok := CheckField(d.matchedNegative, AllNegative(Composites(all)));
    if !ok { return; }
    ok := CheckField(d.suppressed, AllNeutralised(Composites(all)));
    if !ok { return; }
    ok := CheckField(d.overrides, AllOverrides(Composites(all)));
    if !ok { return; }
    ok := CheckField(d.ambiguities, AllAmbiguities(Composites(all)));
    if !ok { return; }
    ok := CheckField(d.unknowns, AllUnknowns(Composites(all)));
    if !ok || d.degraded != DegradedBy(all) { return false; }
    var actual := [];
    for i := 0 to |d.errors|
      invariant actual == SingleScoped(d.errors[..i])
    {
      assert d.errors[..i + 1][..i] == d.errors[..i];
      if d.errors[i].scope.SingleRule? {
        actual := actual + [d.errors[i]];
      }
    }
    assert d.errors[..|d.errors|] == d.errors;
    ok := multiset(actual) == multiset(SingleErrors(all));
  }

  // ---------------------------------------------------------------- the explanation's classification check

  predicate NoAxes(d: Decision) {
    d.severity.None? && d.strength.None? && d.risk.None? && d.confidence.None?
  }

  predicate Nothing(d: Decision) {
    d.governing.None? && EligibleIn(Elems(d.results)) == {}
  }

  predicate CarriesWholeError(d: Decision) {
    exists e :: e in d.errors && e.scope.WholeEvaluation?
  }

  /** The governing rule is listed, present and eligible. */
  predicate GovernedByEligible(d: Decision) {
    && d.governing.Some? && d.governing.value in d.matchedRules
    && (exists r :: r in d.results && r.ruleId == d.governing.value)
    && (forall r :: r in d.results && r.ruleId == d.governing.value ==> Eligible(r))
  }

  /** The classification and the axes are mutually possible. */
  predicate ClassificationAgrees(d: Decision) {
    && (!d.classification.Error? ==> !CarriesWholeError(d))
    && match d.classification
       case ScamDetected =>
         Evaluable(d.support) && GovernedByEligible(d) && d.severity.Some? && d.strength.Some? && d.risk.Some?
         && d.confidence.Some? && d.confidence != Some(Level.Low)
       case ScamSuspected =>
         Evaluable(d.support) && GovernedByEligible(d) && d.severity.Some? && d.strength.Some? && d.risk.Some?
         && d.confidence == Some(Level.Low)
       case NoScamPattern => Evaluable(d.support) && Nothing(d) && NoAxes(d)
       case InsufficientEvidence => Nothing(d) && NoAxes(d)
       case Unsupported => d.support.Unsupported? && Nothing(d) && NoAxes(d)
       case Error => (d.support.Error? || CarriesWholeError(d)) && Nothing(d) && NoAxes(d)
  }
}
