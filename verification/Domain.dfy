/** The vocabulary of the decision pipeline: governed knowledge, and the per-rule results that travel from
    the evaluator through suppression to aggregation. */
module Domain {
  import opened Ids
  import opened Kleene
  import opened Conditions

  // ---------------------------------------------------------------- ordinal scales

  datatype Severity = Low | Medium | High | Critical
  {
    function Rank(): nat {
      match this
      case Low => 1
      case Medium => 2
      case High => 3
      case Critical => 4
    }
  }

  /** The smaller of two severities. */
  function SeverityMin(a: Severity, b: Severity): Severity {
    if a.Rank() <= b.Rank() then a else b
  }

  /** Extraction confidence, and the confidence of a decision. */
  datatype Level = Low | Medium | High
  {
    function Rank(): nat {
      match this
      case Low => 1
      case Medium => 2
      case High => 3
    }
  }

  datatype Strength = Weak | Moderate | Strong
  {
    function Rank(): nat {
      match this
      case Weak => 0
      case Moderate => 1
      case Strong => 2
    }
  }

  datatype Verdict = Supported | Partial | Heuristic | Unsupported
  {
    function Rank(): nat {
      match this
      case Supported => 3
      case Partial => 2
      case Heuristic => 1
      case Unsupported => 0
    }
  }

  // ---------------------------------------------------------------- governed knowledge

  datatype Effect = SuppressRule | CapSeverity | ContextOnly | SuppressIndicator | UnknownEffect

  datatype Indicator = Indicator(strength: Strength, evidenceClass: Option<Id>)

  /** A negative indicator. `None` is a field that is missing or of the wrong type. */
  datatype Negative = Negative(
    effect: Effect,
    category: Option<Id>,
    blockable: Option<bool>,
    severityCap: Option<Severity>,
    everyFamily: bool,
    families: set<Id>,
    suppresses: seq<Id>)

  /** A hard-risk override. */
  datatype Override = Override(condition: Cond, families: set<Id>, rules: set<Id>, blocks: Option<set<Id>>)

  datatype Kind = Composite | Suppression

  datatype Rule = Rule(
    kind: Kind,
    published: bool,
    require: Cond,
    minClasses: nat,
    categories: set<Id>,
    verdict: Verdict,
    severity: Option<Severity>,
    severityCap: Option<Severity>,
    languages: set<Id>,
    scripts: set<Id>)

  datatype Knowledge = Knowledge(
    indicators: map<Id, Indicator>,
    negatives: map<Id, Negative>,
    overrides: map<Id, Override>,
    rules: map<Id, Rule>)

  // ---------------------------------------------------------------- per-rule results

  datatype State = Matched | NotMatched | Indeterminate | Suppressed | NotApplicable

  /** Why an occurrence, or an operand, has the truth value it has. */
  datatype Reason =
    | ObservedLive | NotSeen | Neutralised | StructurallyDead | SuppressedHere
    | UnresolvedSuppression | AmbiguousReading | UnresolvedStructure | PolarityMismatch
    | LowConfidence | ConfidenceAbsent | UnknownExtraction
  {
    function Code(): nat {
      match this
      case ObservedLive => 0
      case NotSeen => 1
      case Neutralised => 2
      case StructurallyDead => 3
      case SuppressedHere => 4
      case UnresolvedSuppression => 5
      case AmbiguousReading => 6
      case UnresolvedStructure => 7
      case PolarityMismatch => 8
      case LowConfidence => 9
      case ConfidenceAbsent => 10
      case UnknownExtraction => 11
    }
  }

  /** One line of the uncertainty ledger: a decisive operand that stayed Unknown, and why. */
  datatype Note = Note(operand: Id, reason: Reason)

  function NoteKey(n: Note): seq<nat> {
    [n.operand, n.reason.Code()]
  }

  datatype EvalError = EvalError(code: Id, message: Id)

  datatype PrimaryEffect = RuleSuppressed | SeverityCapped | IndicatorSuppressed | ContextRecorded | NothingApplied

  /** The `suppression` object of a result; `None` is an absent key. The evaluator fills `blocked` and
      `contextOnly` for information, the suppression executor owns the rest. */
  datatype SuppressionInfo = SuppressionInfo(
    applied: Option<seq<Id>>,
    suppressedBy: Option<Id>,
    blocked: Option<seq<Id>>,
    appliedCaps: Option<seq<Id>>,
    ceilings: Option<seq<Severity>>,
    blockedCaps: Option<seq<Id>>,
    contextOnly: Option<seq<Id>>,
    effect: Option<PrimaryEffect>)

  /** An occurrence group: the observation references of one live occurrence. */
  type Group = seq<Id>

  datatype RuleResult = RuleResult(
    ruleId: Id,
    kind: Kind,
    state: State,
    required: Truth,
    matchedPositive: seq<Id>,
    matchedNegative: seq<Id>,
    neutralised: seq<Id>,
    activeOverrides: seq<Id>,
    evidenceClasses: seq<Id>,
    observationRefs: seq<Id>,
    ambiguities: seq<Note>,
    unknowns: seq<Note>,
    minClasses: Option<nat>,
    diversityMet: Option<bool>,
    verdict: Option<Verdict>,
    declaredSeverity: Option<Severity>,
    effectiveSeverity: Option<Severity>,
    confidenceInputs: map<Id, Option<Level>>,
    provenance: map<Id, seq<Group>>,
    suppression: Option<SuppressionInfo>,
    error: Option<EvalError>,
    // filled by aggregation only
    strength: Option<Strength>,
    governing: bool,
    confidence: Option<Level>)

  /** A result with nothing but its mandatory fields. */
  function BareResult(ruleId: Id, kind: Kind, state: State, required: Truth): RuleResult {
    RuleResult(ruleId, kind, state, required, [], [], [], [], [], [], [], [], None, None, None, None, None,
               map[], map[], None, None, None, false, None)
  }

  /** Fields only aggregation may fill. */
  predicate HasAggregationFields(r: RuleResult) {
    r.governing || r.strength.Some? || r.confidence.Some?
  }

  // ---------------------------------------------------------------- canonical arrays

  lemma NoteKeyIdentifies(m: multiset<Note>)
    ensures KeyIdentifies(m, NoteKey)
  {
  }

  function SortedNotes(notes: set<Note>): (q: seq<Note>)
    ensures Elems(q) == notes && multiset(q) == multiset(notes)
  {
    NoteKeyIdentifies(multiset(notes));
    var q := SortBy(multiset(notes), NoteKey);
    assert forall n :: n in q <==> n in multiset(q);
    q
  }

  function GroupKey(g: Group): seq<nat> { g }

  /** Occurrence groups, duplicate-free and in lexicographic order. */
  function SortedGroups(groups: set<Group>): (q: seq<Group>)
    ensures Elems(q) == groups && multiset(q) == multiset(groups)
  {
    var q := SortBy(multiset(groups), GroupKey);
    assert forall g :: g in q <==> g in multiset(q);
    q
  }

  function SeverityKey(s: Severity): seq<nat> { [s.Rank()] }

  function SortedSeverities(s: set<Severity>): (q: seq<Severity>)
    ensures Elems(q) == s
  {
    assert KeyIdentifies(multiset(s), SeverityKey) by {
      forall a: Severity, b: Severity | SeverityKey(a) == SeverityKey(b) ensures a == b {
        assert SeverityKey(a)[0] == SeverityKey(b)[0];
      }
    }
    var q := SortBy(multiset(s), SeverityKey);
    assert forall x :: x in q <==> x in multiset(q);
    q
  }

  function SortedOption(q: Option<seq<Id>>): Option<seq<Id>> {
    match q
    case None => None
    case Some(ids) => Some(SortedUnique(ids))
  }

  function CanonicalSuppression(s: SuppressionInfo): SuppressionInfo {
    s.(applied := SortedOption(s.applied),
       blocked := SortedOption(s.blocked),
       appliedCaps := SortedOption(s.appliedCaps),
       blockedCaps := SortedOption(s.blockedCaps),
       contextOnly := SortedOption(s.contextOnly),
       ceilings := if s.ceilings.None? then None else Some(SortedSeverities(Elems(s.ceilings.value))))
  }

  /** Every set-like array sorted and duplicate-free. */
  function CanonicalArrays(r: RuleResult): RuleResult {
    r.(matchedPositive := SortedUnique(r.matchedPositive),
       matchedNegative := SortedUnique(r.matchedNegative),
       neutralised := SortedUnique(r.neutralised),
       activeOverrides := SortedUnique(r.activeOverrides),
       evidenceClasses := SortedUnique(r.evidenceClasses),
       observationRefs := SortedUnique(r.observationRefs),
       ambiguities := SortedNotes(Elems(r.ambiguities)),
       unknowns := SortedNotes(Elems(r.unknowns)),
       suppression := if r.suppression.None? then None else Some(CanonicalSuppression(r.suppression.value)))
  }
}
