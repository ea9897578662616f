/** Aggregation: per-rule results fold into one decision. */
module Aggregation {
  import opened Ids
  import opened Kleene
  import opened Domain
  import opened Independence

  // ---------------------------------------------------------------- the decision

  datatype Support = Supported | PartiallySupported | Unsupported | InsufficientInformation | Error

  predicate Evaluable(s: Support) {
    s.Supported? || s.PartiallySupported?
  }

  datatype Classification = ScamDetected | ScamSuspected | NoScamPattern | InsufficientEvidence | Unsupported | Error

  datatype Band = Empty | Low | Medium | High

  datatype Corroboration = Corroboration(classes: seq<Id>, count: nat, band: Band, shared: seq<Id>)

  datatype Scope = SingleRule | WholeEvaluation

  /** The five fields errors are sorted by; `0` is an absent stage. */
  datatype ErrorRecord = ErrorRecord(scope: Scope, stage: Id, code: Id, ruleId: Option<Id>, message: Id)

  const RULE_EVALUATION: Id := 1

  /** `None` on an axis is NONE, and NOT_APPLICABLE for confidence. Risk uses the severity scale. */
  datatype Decision = Decision(
    support: Support,
    classification: Classification,
    severity: Option<Severity>,
    strength: Option<Strength>,
    risk: Option<Severity>,
    confidence: Option<Level>,
    corroboration: Corroboration,
    governing: Option<Id>,
    matchedRules: seq<Id>,
    matchedPositive: seq<Id>,
    matchedNegative: seq<Id>,
    suppressed: seq<Id>,
    overrides: seq<Id>,
    ambiguities: seq<Note>,
    unknowns: seq<Note>,
    degraded: bool,
    errors: seq<ErrorRecord>,
    results: seq<RuleResult>)

  // ---------------------------------------------------------------- validation

  function CanonicalProvenance(p: map<Id, seq<Group>>): map<Id, seq<Group>> {
    map i | i in p :: SortedGroups(set g | g in p[i] :: SortedUnique(g))
  }

  function CanonicalCopy(r: RuleResult): RuleResult {
    CanonicalArrays(r).(provenance := CanonicalProvenance(r.provenance))
  }

  predicate PairingAllowed(state: State, required: Truth) {
    match state
    case Matched => required == True
    case Suppressed => required == True
    case Indeterminate => required == Truth.Unknown
    case NotMatched => required != Truth.Unknown
    case NotApplicable => true
  }

  /** The invariant matrix every result must satisfy, and the resolution of every governed reference. */
  predicate Sound(k: Knowledge, r: RuleResult) {
    && PairingAllowed(r.state, r.required)
    && (if r.state.NotApplicable? then r.error.Some? && r.error.value.code != 0 else r.error.None?)
    && (r.kind.Composite? && !r.state.NotApplicable? ==> r.verdict.Some?)
    && (r.kind.Composite? && r.state.Matched? ==> r.effectiveSeverity.Some?)
    && (forall i :: i in r.matchedPositive ==> i in k.indicators)
    && (forall i :: i in r.neutralised ==> i in k.indicators)
    && (forall n :: n in r.matchedNegative ==> n in k.negatives)
    && (forall o :: o in r.activeOverrides ==> o in k.overrides)
    && (forall i :: i in r.provenance ==> i in r.matchedPositive)
  }

  // ---------------------------------------------------------------- predicates over results

  predicate Eligible(r: RuleResult) {
    r.kind.Composite? && r.state.Matched? && r.required == True && r.effectiveSeverity.Some?
  }

  /** An indeterminate composite with an operand that was observed but stayed unresolved. */
  predicate UnresolvedHarm(r: RuleResult) {
    r.kind.Composite? && r.state.Indeterminate? && r.required == Truth.Unknown && (r.ambiguities != [] || r.unknowns != [])
  }

  predicate BenignClear(r: RuleResult) {
    r.kind.Composite? && (r.state.Suppressed? || (r.state.NotMatched? && r.required == False))
  }

  predicate ResidualPositive(r: RuleResult) {
    r.kind.Composite? && r.matchedPositive != []
  }

  predicate Errored(r: RuleResult) {
    r.state.NotApplicable? && r.error.Some?
  }

  // ---------------------------------------------------------------- per-rule strength, governing rule, axes

  function VerdictCap(v: Option<Verdict>): Strength {
    match v
    case Some(Supported) => Strong
    case Some(Partial) => Moderate
    case _ => Weak
  }

  /** The strongest matched positive, capped by the verdict, with a MODERATE floor under an override. */
  function RuleStrength(k: Knowledge, r: RuleResult): Strength {
    var best :=
      if exists i :: i in r.matchedPositive && i in k.indicators && k.indicators[i].strength == Strong then Strong
      else if exists i :: i in r.matchedPositive && i in k.indicators && k.indicators[i].strength == Moderate then Moderate
      else Weak;
    var cap := VerdictCap(r.verdict);
    var composite := if best.Rank() <= cap.Rank() then best else cap;
    if r.activeOverrides != [] && composite == Weak then Moderate else composite
  }

  function VerdictRank(r: RuleResult): nat {
    if r.verdict.Some? then r.verdict.value.Rank() else 0
  }

  function SeverityRank(r: RuleResult): nat {
    if r.effectiveSeverity.Some? then r.effectiveSeverity.value.Rank() else 0
  }

  /** Severity, then verdict, then class breadth, then the lexically first rule id. */
  predicate Precedes(a: RuleResult, b: RuleResult) {
    || SeverityRank(a) > SeverityRank(b)
    || (SeverityRank(a) == SeverityRank(b)
        && (|| VerdictRank(a) > VerdictRank(b)
            || (VerdictRank(a) == VerdictRank(b)
                && (|| |a.evidenceClasses| > |b.evidenceClasses|
                    || (|a.evidenceClasses| == |b.evidenceClasses| && a.ruleId <= b.ruleId)))))
  }

  predicate Governs(g: RuleResult, eligible: set<RuleResult>) {
    g in eligible && forall r :: r in eligible ==> Precedes(g, r)
  }

  ghost predicate DistinctIds(rs: set<RuleResult>) {
    forall a, b :: a in rs && b in rs && a.ruleId == b.ruleId ==> a == b
  }

  lemma {:induction false} GoverningExists(eligible: set<RuleResult>)
    requires eligible != {}
    ensures exists g :: Governs(g, eligible)
  {
    var x :| x in eligible;
    var rest := eligible - {x};
    if rest == {} {
      assert eligible == {x};
      assert Governs(x, eligible);
    } else {
      GoverningExists(rest);
      var g :| Governs(g, rest);
      var first := if Precedes(x, g) then x else g;
      forall r | r in eligible ensures Precedes(first, r) {
        assert r == x || r in rest;
      }
      assert Governs(first, eligible);
    }
  }

  lemma GoverningIsUnique(a: RuleResult, b: RuleResult, eligible: set<RuleResult>)
    requires DistinctIds(eligible) && Governs(a, eligible) && Governs(b, eligible)
    ensures a == b
  {
  }

  /** The governing rule. */
  ghost function Governing(eligible: set<RuleResult>): (g: RuleResult)
    requires eligible != {}
    ensures Governs(g, eligible)
  {
    GoverningExists(eligible);
    var g :| Governs(g, eligible);
    g
  }

  function Highest(s: set<Severity>): Severity {
    if Severity.Critical in s then Severity.Critical
    else if Severity.High in s then Severity.High
    else if Severity.Medium in s then Severity.Medium
    else Severity.Low
  }

  function Severities(eligible: set<RuleResult>): set<Severity> {
    set r | r in eligible && r.effectiveSeverity.Some? :: r.effectiveSeverity.value
  }

  /** The ordinal risk matrix. */
  function RiskLevel(severity: Severity, strength: Strength): Severity {
    match severity
    case Low => if strength == Strong then Severity.Medium else Severity.Low
    case Medium => if strength == Weak then Severity.Low else Severity.Medium
    case High => if strength == Weak then Severity.Medium else Severity.High
    case Critical => if strength == Strong then Severity.Critical else Severity.High
  }

  /** Every decisive extraction is at least MEDIUM, and there is one. */
  predicate DecisiveExtraction(g: RuleResult) {
    && g.matchedPositive != []
    && forall i :: i in g.matchedPositive ==>
        i in g.confidenceInputs && g.confidenceInputs[i].Some? && g.confidenceInputs[i].value != Level.Low
  }

  function DetectionConfidence(g: RuleResult, count: nat): Level {
    if && g.verdict == Some(Verdict.Supported) && g.ambiguities == [] && DecisiveExtraction(g)
       && (count >= 3 || g.activeOverrides != [])
    then Level.High
    else if g.suppression.Some? && g.suppression.value.contextOnly.Some? && g.suppression.value.contextOnly.value != [] then Level.Low
    else if g.verdict == Some(Heuristic) || g.verdict == Some(Verdict.Unsupported) then Level.Low
    else Level.Medium
  }

  function BandOf(count: nat, verdict: Option<Verdict>): Band {
    if count == 0 then Band.Empty
    else if count == 1 then Band.Low
    else if count == 2 || verdict == Some(Partial) || verdict == Some(Heuristic) then Band.Medium
    else Band.High
  }

  function NoCorroboration(band: Band): Corroboration {
    Corroboration([], 0, band, [])
  }

  /** Metadata only: nothing fired. */
  function QuietCorroboration(rs: set<RuleResult>, c: Classification): Corroboration {
    NoCorroboration(
      if c.InsufficientEvidence? && !(exists r :: r in rs && UnresolvedHarm(r)) && (exists r :: r in rs && ResidualPositive(r))
      then Band.Low else Band.Empty)
  }

  /** The classification state machine. */
  function Classify(support: Support, fired: bool, rs: set<RuleResult>, confidence: Option<Level>,
                    degraded: bool, wholeError: bool): Classification {
    if wholeError || support.Error? then Classification.Error
    else if support.Unsupported? then Classification.Unsupported
    else if support.InsufficientInformation? then InsufficientEvidence
    else if fired then (if confidence == Some(Level.Low) then ScamSuspected else ScamDetected)
    else if degraded then InsufficientEvidence
    else if exists r :: r in rs && UnresolvedHarm(r) then InsufficientEvidence
    else if exists r :: r in rs && BenignClear(r) then NoScamPattern
    else InsufficientEvidence
  }

  // ---------------------------------------------------------------- assembly

  function ErrorKey(e: ErrorRecord): seq<nat> {
    [if e.scope.SingleRule? then 0 else 1, e.stage, e.code,
     if e.ruleId.None? then 0 else e.ruleId.value + 1, e.message]
  }

  lemma ErrorKeyIdentifies(m: multiset<ErrorRecord>)
    ensures KeyIdentifies(m, ErrorKey)
  {
  }

  function SortedErrors(errors: multiset<ErrorRecord>): (q: seq<ErrorRecord>)
    ensures multiset(q) == errors
  {
    ErrorKeyIdentifies(errors);
    SortBy(errors, ErrorKey)
  }

  function SingleError(r: RuleResult): ErrorRecord
    requires r.error.Some?
  {
    ErrorRecord(SingleRule, RULE_EVALUATION, r.error.value.code, Some(r.ruleId), r.error.value.message)
  }

  function SingleErrors(rs: set<RuleResult>): set<ErrorRecord> {
    set r | r in rs && Errored(r) :: SingleError(r)
  }

  function ResultKey(r: RuleResult): seq<nat> { [r.ruleId] }

  function SortedResults(rs: set<RuleResult>): (q: seq<RuleResult>)
    requires DistinctIds(rs)
    ensures Elems(q) == rs && multiset(q) == multiset(rs)
  {
    assert KeyIdentifies(multiset(rs), ResultKey) by {
      forall a, b | a in rs && b in rs && ResultKey(a) == ResultKey(b) ensures a == b {
        assert ResultKey(a)[0] == ResultKey(b)[0];
      }
    }
    var q := SortBy(multiset(rs), ResultKey);
    assert forall r :: r in q <==> r in multiset(q);
    q
  }

  datatype Axes = Axes(classification: Classification, severity: Option<Severity>, strength: Option<Strength>,
                       risk: Option<Severity>, confidence: Option<Level>, corroboration: Corroboration, governing: Option<Id>)

  function RuleIds(rs: set<RuleResult>): set<Id> { set r | r in rs :: r.ruleId }

  function Composites(rs: set<RuleResult>): set<RuleResult> { set r | r in rs && r.kind.Composite? }

  function AllPositive(rs: set<RuleResult>): set<Id> { set r, i | r in rs && i in r.matchedPositive :: i }

  function AllNegative(rs: set<RuleResult>): set<Id> { set r, i | r in rs && i in r.matchedNegative :: i }

  function AllNeutralised(rs: set<RuleResult>): set<Id> { set r, i | r in rs && i in r.neutralised :: i }

  function AllOverrides(rs: set<RuleResult>): set<Id> { set r, i | r in rs && i in r.activeOverrides :: i }

  function AllAmbiguities(rs: set<RuleResult>): set<Note> { set r, n | r in rs && n in r.ambiguities :: n }

  function AllUnknowns(rs: set<RuleResult>): set<Note> { set r, n | r in rs && n in r.unknowns :: n }

  /** The decision block with its rollups, every array canonical. */
  function AssembleDecision(support: Support, axes: Axes, eligible: set<RuleResult>, all: set<RuleResult>,
                            degraded: bool, errors: multiset<ErrorRecord>): Decision
    requires DistinctIds(all)
  {
    Decision(
      support, axes.classification, axes.severity, axes.strength, axes.risk, axes.confidence, axes.corroboration,
      axes.governing,
      Ascending(RuleIds(eligible)),
      Ascending(AllPositive(eligible)),
      Ascending(AllNegative(Composites(all))),
      Ascending(AllNeutralised(Composites(all))),
      Ascending(AllOverrides(Composites(all))),
      SortedNotes(AllAmbiguities(Composites(all))),
      SortedNotes(AllUnknowns(Composites(all))),
      degraded,
      SortedErrors(errors),
      SortedResults(all))
  }

  // ---------------------------------------------------------------- the decision over a set of results

  function EligibleIn(rs: set<RuleResult>): set<RuleResult> {
    set r | r in rs && Eligible(r)
  }

  predicate DegradedBy(rs: set<RuleResult>) {
    exists r :: r in rs && Errored(r)
  }

  /** Eligible results get their strength; the governing one also its mark and the confidence. */
  function Stamp(k: Knowledge, r: RuleResult, governing: Id, confidence: Level): RuleResult {
    if !Eligible(r) then r
    else if r.ruleId == governing then
      r.(strength := Some(RuleStrength(k, r)), governing := true, confidence := Some(confidence))
    else r.(strength := Some(RuleStrength(k, r)))
  }

  function Stamped(k: Knowledge, rs: set<RuleResult>, governing: Id, confidence: Level): set<RuleResult> {
    set r | r in rs :: Stamp(k, r, governing, confidence)
  }

  lemma StampingKeepsIds(k: Knowledge, rs: set<RuleResult>, governing: Id, confidence: Level)
    requires DistinctIds(rs)
    ensures DistinctIds(Stamped(k, rs, governing, confidence))
  {
  }

  function CappedConfidence(confidence: Level, degraded: bool): Level {
    if degraded && confidence == Level.High then Level.Medium else confidence
  }

  /** The axes when some rule fired. */
  ghost function FiredAxes(k: Knowledge, support: Support, rs: set<RuleResult>): Axes
    requires EligibleIn(rs) != {}
  {
    var eligible := EligibleIn(rs);
    var g := Governing(eligible);
    var count := ProvenCount(k, eligible);
    var severity := Highest(Severities(eligible));
    var strength := RuleStrength(k, g);
    var confidence := CappedConfidence(DetectionConfidence(g, count), DegradedBy(rs));
    Axes(Classify(support, true, rs, Some(confidence), DegradedBy(rs), false),
         Some(severity), Some(strength), Some(RiskLevel(severity, strength)), Some(confidence),
         Corroboration(Ascending(ProvenClasses(k, eligible)), count, BandOf(count, g.verdict),
                       Ascending(SharedRefs(EntriesOf(k, eligible)))),
         Some(g.ruleId))
  }

  function QuietAxes(classification: Classification, corroboration: Corroboration): Axes {
    Axes(classification, None, None, None, None, corroboration, None)
  }

  /** Rules are read for the axes: evaluable support, and no whole-evaluation error. */
  predicate Evaluated(support: Support, whole: multiset<ErrorRecord>) {
    Evaluable(support) && whole == multiset{}
  }

  /** The results that count as fired. */
  function Counted(support: Support, rs: set<RuleResult>, whole: multiset<ErrorRecord>): set<RuleResult> {
    if Evaluated(support, whole) then EligibleIn(rs) else {}
  }

  ghost function AxesFor(k: Knowledge, support: Support, rs: set<RuleResult>, whole: multiset<ErrorRecord>): Axes {
    if Counted(support, rs, whole) != {} then FiredAxes(k, support, rs)
    else
      var c := Classify(support, false, rs, None, DegradedBy(rs), whole != multiset{});
      QuietAxes(c, if Evaluated(support, whole) then QuietCorroboration(rs, c) else NoCorroboration(Band.Empty))
  }

  ghost function ResultsFor(k: Knowledge, support: Support, rs: set<RuleResult>, whole: multiset<ErrorRecord>): (out: set<RuleResult>)
    requires DistinctIds(rs)
    ensures DistinctIds(out)
  {
    if Counted(support, rs, whole) != {} then
      var axes := FiredAxes(k, support, rs);
      StampingKeepsIds(k, rs, axes.governing.value, axes.confidence.value);
      Stamped(k, rs, axes.governing.value, axes.confidence.value)
    else rs
  }

  /** One decision from the set of canonical results: no order is left to depend on. */
  ghost function Decide(k: Knowledge, support: Support, rs: set<RuleResult>, whole: multiset<ErrorRecord>): Decision
    requires DistinctIds(rs)
  {
    AssembleDecision(support, AxesFor(k, support, rs, whole), Counted(support, rs, whole),
                     ResultsFor(k, support, rs, whole), DegradedBy(rs), whole + multiset(SingleErrors(rs)))
  }

  /** One input result is acceptable: not pre-stamped, and sound once canonical. */
  predicate Admitted(k: Knowledge, r: RuleResult) {
    !HasAggregationFields(r) && Sound(k, CanonicalCopy(r))
  }

  ghost predicate Accepted(k: Knowledge, rs: seq<RuleResult>) {
    (forall r :: r in rs ==> Admitted(k, r)) && DistinctRules(rs)
  }

  function CanonicalSet(rs: seq<RuleResult>): set<RuleResult> {
    set r | r in rs :: CanonicalCopy(r)
  }

  lemma CanonicalIdsDistinct(rs: seq<RuleResult>)
    requires DistinctRules(rs)
    ensures DistinctIds(CanonicalSet(rs))
  {
  }

  /** `None` is the single error aggregation raises. */
  ghost function Aggregate(k: Knowledge, support: Support, rs: seq<RuleResult>, whole: seq<ErrorRecord>): Option<Decision> {
    if !Accepted(k, rs) then None
    else
      CanonicalIdsDistinct(rs);
      Some(Decide(k, support, CanonicalSet(rs), multiset(whole)))
  }
}
