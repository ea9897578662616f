/** Three-valued evaluation of one rule against one validated context. Every definition here is over the
    set of an indicator's occurrences; the loops that compute it are in EvaluatorLoops. */
module Evaluator {
  import opened Ids
  import opened Kleene
  import opened Conditions
  import opened Domain
  import opened Observations

  // ---------------------------------------------------------------- one occurrence

  datatype Outcome = Outcome(value: Truth, reason: Reason)

  /** The extraction-confidence gate: a weak or unstated reading is Unknown, never False. */
  function Gate(gate: Level, matched: Extraction, confidence: Option<Level>): Outcome {
    match matched
    case Observed =>
      if confidence.None? then Outcome(Truth.Unknown, ConfidenceAbsent)
      else if confidence.value.Rank() >= gate.Rank() then Outcome(True, ObservedLive)
      else Outcome(Truth.Unknown, LowConfidence)
    case NotObserved => Outcome(False, NotSeen)
    case NotApplicable => Outcome(False, NotSeen)
    case Ambiguous => Outcome(Truth.Unknown, AmbiguousReading)
    case Unknown => Outcome(Truth.Unknown, UnknownExtraction)
  }

  predicate Mismatched(o: Occurrence, registry: RegistryClass) {
    o.registry.Some? && o.registry.value != registry
  }

  /** The gated reading, itself gated by structure. */
  function Structured(observations: map<Id, Observation>, gate: Level, o: Occurrence): Outcome {
    var g := Gate(gate, o.matched, o.confidence);
    match StructuralVerdict(observations, o)
    case NonLive => Outcome(False, StructurallyDead)
    case Live => g
    case Unresolved => if g.value == False then g else Outcome(Truth.Unknown, UnresolvedStructure)
  }

  /** A suppressor sharing a reference is about this very occurrence. */
  predicate Associated(o: Occurrence, suppressors: set<Occurrence>) {
    exists s :: s in suppressors && Elems(o.refs) * Elems(s.refs) != {}
  }

  /** A missing reference on either side leaves the association open. */
  predicate AssociationOpen(o: Occurrence, suppressors: set<Occurrence>) {
    exists s :: s in suppressors && (o.refs == [] || s.refs == [])
  }

  function PositiveReading(observations: map<Id, Observation>, gate: Level, o: Occurrence, suppressors: set<Occurrence>): Outcome {
    if Mismatched(o, PositiveClass) then Outcome(Truth.Unknown, PolarityMismatch)
    else
      var s := Structured(observations, gate, o);
      if s.value == False then s
      else if Associated(o, suppressors) then Outcome(False, SuppressedHere)
      else if AssociationOpen(o, suppressors) then Outcome(Truth.Unknown, UnresolvedSuppression)
      else s
  }

  /** The occurrence was there, or might have been, and was forced False by structure or suppression. */
  predicate Neutralises(observations: map<Id, Observation>, gate: Level, o: Occurrence, suppressors: set<Occurrence>) {
    && !Mismatched(o, PositiveClass)
    && ((StructuralVerdict(observations, o) == NonLive && Gate(gate, o.matched, o.confidence).value != False)
        || (Structured(observations, gate, o).value != False && Associated(o, suppressors)))
  }

  function NegativeReading(gate: Level, o: Occurrence): Outcome {
    if Mismatched(o, NegativeClass) then Outcome(Truth.Unknown, PolarityMismatch)
    else Gate(gate, o.matched, o.confidence)
  }

  // ---------------------------------------------------------------- all occurrences of an indicator

  /** The reason reported for an Unknown indicator, most informative first. */
  function PreferredReason(reasons: set<Reason>): Reason {
    if UnresolvedSuppression in reasons then UnresolvedSuppression
    else if AmbiguousReading in reasons then AmbiguousReading
    else if UnresolvedStructure in reasons then UnresolvedStructure
    else if PolarityMismatch in reasons then PolarityMismatch
    else if LowConfidence in reasons then LowConfidence
    else if ConfidenceAbsent in reasons then ConfidenceAbsent
    else UnknownExtraction
  }

  /** Three-valued OR with its reason. */
  function Fold(outcomes: set<Outcome>, absent: Reason): Outcome {
    if exists o :: o in outcomes && o.value == True then Outcome(True, ObservedLive)
    else
      var reasons := set o | o in outcomes && o.value == Truth.Unknown :: o.reason;
      if reasons != {} then Outcome(Truth.Unknown, PreferredReason(reasons))
      else Outcome(False, absent)
  }

  /** A positive indicator's combined reading: its truth, whether something was neutralised, and the
      reference groups of the occurrences that made it True. */
  datatype Combined = Combined(outcome: Outcome, neutralised: bool, groups: seq<Group>)

  function LiveGroups(observations: map<Id, Observation>, gate: Level, os: set<Occurrence>, suppressors: set<Occurrence>): set<Group> {
    set o | o in os && PositiveReading(observations, gate, o, suppressors).value == True && o.refs != [] :: SortedUnique(o.refs)
  }

  function PositiveReadings(observations: map<Id, Observation>, gate: Level, os: set<Occurrence>,
                            suppressors: set<Occurrence>): set<Outcome>
  {
    set o | o in os :: PositiveReading(observations, gate, o, suppressors)
  }

  predicate SomeNeutralises(observations: map<Id, Observation>, gate: Level, os: set<Occurrence>, suppressors: set<Occurrence>) {
    exists o :: o in os && Neutralises(observations, gate, o, suppressors)
  }

  function Combine(observations: map<Id, Observation>, gate: Level, os: set<Occurrence>, suppressors: set<Occurrence>): Combined {
    var neutralised := SomeNeutralises(observations, gate, os, suppressors);
    Combined(
      Fold(PositiveReadings(observations, gate, os, suppressors), if neutralised then Neutralised else NotSeen),
      neutralised,
      SortedGroups(LiveGroups(observations, gate, os, suppressors)))
  }

  function NegativeReadings(gate: Level, os: set<Occurrence>): set<Outcome> {
    set o | o in os :: NegativeReading(gate, o)
  }

  function CombineNegative(gate: Level, os: set<Occurrence>): Outcome {
    Fold(NegativeReadings(gate, os), NotSeen)
  }

  // ---------------------------------------------------------------- overrides and suppressors of one rule

  /** Raw readings: structure and gate only, before any suppressor is executed. */
  function RawReadings(k: Knowledge, gate: Level, c: Context): map<Id, Combined> {
    map i | i in c.byIndicator && i in k.indicators :: Combine(c.observations, gate, c.Of(i), {})
  }

  function OutcomesOf(readings: map<Id, Combined>): map<Id, Outcome> {
    map i | i in readings :: readings[i].outcome
  }

  function NeutralisedIn(readings: map<Id, Combined>): set<Id> {
    set i | i in readings && readings[i].outcome.value == False && readings[i].neutralised
  }

  function GroupsIn(readings: map<Id, Combined>): map<Id, seq<Group>> {
    map i | i in readings && readings[i].groups != [] :: readings[i].groups
  }

  function TruthOf(outcomes: map<Id, Outcome>): map<Id, Truth> {
    map i | i in outcomes :: outcomes[i].value
  }

  predicate OverrideApplies(ov: Override, rid: Id, categories: set<Id>) {
    rid in ov.rules || categories * ov.families != {}
  }

  function ActiveOverrides(k: Knowledge, rid: Id, categories: set<Id>, raw: map<Id, Truth>): set<Id> {
    set o | o in k.overrides && OverrideApplies(k.overrides[o], rid, categories)
         && Eval(k.overrides[o].condition, raw) == True
  }

  function Blocks(k: Knowledge, o: Id): set<Id> {
    if o in k.overrides && k.overrides[o].blocks.Some? then k.overrides[o].blocks.value else {}
  }

  function BlockedCategories(k: Knowledge, active: set<Id>): set<Id> {
    set o, c | o in active && c in Blocks(k, o) :: c
  }

  predicate NegativeApplies(k: Knowledge, n: Id, categories: set<Id>) {
    n in k.negatives && (k.negatives[n].everyFamily || k.negatives[n].families * categories != {})
  }

  function MatchedNegatives(k: Knowledge, gate: Level, c: Context, categories: set<Id>): set<Id> {
    set n | n in c.byIndicator && NegativeApplies(k, n, categories) && CombineNegative(gate, c.Of(n)).value == True
  }

  /** Blocked only if declared blockable and an active override lists the category. */
  predicate IsBlocked(n: Negative, blocked: set<Id>) {
    n.blockable == Some(true) && n.category.Some? && n.category.value in blocked
  }

  /** What step 2 and the negative truth map settle for one rule. */
  datatype Picture = Picture(overrides: set<Id>, blocked: set<Id>, negatives: set<Id>)

  function PictureOf(k: Knowledge, gate: Level, rid: Id, categories: set<Id>, c: Context): Picture {
    var active := ActiveOverrides(k, rid, categories, TruthOf(OutcomesOf(RawReadings(k, gate, c))));
    Picture(active, BlockedCategories(k, active), MatchedNegatives(k, gate, c, categories))
  }

  predicate ActsAsSuppressor(gate: Level, o: Occurrence) {
    !Mismatched(o, NegativeClass) && Gate(gate, o.matched, o.confidence).value == True
  }

  /** Whether a matched negative executes against a target before matching. */
  predicate Executes(k: Knowledge, p: Picture, n: Id) {
    && n in k.negatives && k.negatives[n].effect == SuppressIndicator
    && !(p.overrides != {} && IsBlocked(k.negatives[n], p.blocked))
  }

  /** The occurrences of the negatives `ns` that act on a target. */
  function SuppressorsAmong(k: Knowledge, gate: Level, c: Context, p: Picture, ns: set<Id>, target: Id): set<Occurrence> {
    set n, o | n in ns && Executes(k, p, n) && target in k.negatives[n].suppresses
            && o in c.Of(n) && ActsAsSuppressor(gate, o) :: o
  }

  function SuppressorsOf(k: Knowledge, gate: Level, c: Context, p: Picture, target: Id): set<Occurrence> {
    SuppressorsAmong(k, gate, c, p, p.negatives, target)
  }

  function ReadingOf(k: Knowledge, gate: Level, c: Context, p: Picture, i: Id): Combined {
    Combine(c.observations, gate, c.Of(i), SuppressorsOf(k, gate, c, p, i))
  }

  /** Readings after governed suppression has been executed. */
  function Readings(k: Knowledge, gate: Level, c: Context, p: Picture): map<Id, Combined> {
    map i | i in c.byIndicator && i in k.indicators :: ReadingOf(k, gate, c, p, i)
  }

  // ---------------------------------------------------------------- the result of one rule

  predicate InScope(rule: Rule, c: Context) {
    (rule.languages == {} || c.language in rule.languages) && (rule.scripts == {} || c.script in rule.scripts)
  }

  function ClassesOf(k: Knowledge, ids: set<Id>): set<Id> {
    set i | i in ids && i in k.indicators && k.indicators[i].evidenceClass.Some? :: k.indicators[i].evidenceClass.value
  }

  predicate IsAmbiguity(r: Reason) {
    r.AmbiguousReading? || r.UnresolvedStructure? || r.UnresolvedSuppression? || r.PolarityMismatch?
  }

  /** The decisive operands that were seen but stayed Unknown. */
  function Uncertain(operands: set<Id>, outcomes: map<Id, Outcome>): set<Note> {
    set i | i in operands && i in outcomes && outcomes[i].value == Truth.Unknown :: Note(i, outcomes[i].reason)
  }

  predicate IsSoft(n: Negative) {
    n.effect == SuppressRule || n.effect == CapSeverity
  }

  /** For information: the soft suppressors an active override would block. */
  function BlockedForInformation(k: Knowledge, p: Picture): set<Id> {
    set n | n in p.negatives && p.overrides != {} && n in k.negatives && IsSoft(k.negatives[n])
         && k.negatives[n].category.Some? && k.negatives[n].category.value in p.blocked
  }

  function ContextOnlyPresent(k: Knowledge, p: Picture): set<Id> {
    set n | n in p.negatives && n in k.negatives && k.negatives[n].effect == ContextOnly
  }

  function NonEmpty(ids: set<Id>): Option<seq<Id>> {
    if ids == {} then None else Some(Ascending(ids))
  }

  function Candidates(k: Knowledge, p: Picture): Option<SuppressionInfo> {
    var blocked, context := BlockedForInformation(k, p), ContextOnlyPresent(k, p);
    if blocked == {} && context == {} then None
    else Some(SuppressionInfo(None, None, NonEmpty(blocked), None, None, None, NonEmpty(context), None))
  }

  /** The highest level declared by an observed occurrence; `None` is UNKNOWN. */
  function RepresentativeConfidence(os: set<Occurrence>): Option<Level> {
    var levels := set o | o in os && o.matched.Observed? && o.confidence.Some? :: o.confidence.value;
    if Level.High in levels then Some(Level.High)
    else if Level.Medium in levels then Some(Level.Medium)
    else if Level.Low in levels then Some(Level.Low)
    else None
  }

  function ConfidenceInputs(c: Context, operands: set<Id>): map<Id, Option<Level>> {
    map i | i in operands && c.Of(i) != {} :: RepresentativeConfidence(c.Of(i))
  }

  function CollectedRefs(c: Context, ids: set<Id>): set<Id> {
    set i, o, r | i in ids && o in c.Of(i) && r in o.refs :: r
  }

  function EffectiveSeverity(rule: Rule): Option<Severity> {
    match rule.severity
    case None => None
    case Some(s) => Some(if rule.severityCap.None? then s else SeverityMin(s, rule.severityCap.value))
  }

  function StateOf(required: Truth, diverse: bool): State {
    match required
    case True => if diverse then Matched else NotMatched
    case False => NotMatched
    case Unknown => Indeterminate
  }

  /** The decisive operands: the positive indicators the rule requires. */
  function PositiveOperands(k: Knowledge, rule: Rule): set<Id> {
    Operands(rule.require) * k.indicators.Keys
  }

  function TrueOperands(operands: set<Id>, truth: map<Id, Truth>): set<Id> {
    set i | i in operands && Lookup(truth, i) == True
  }

  /** Steps 4 to 8: the required combination, diversity, the uncertainty ledger, and the result. */
  function Assemble(k: Knowledge, rid: Id, rule: Rule, c: Context, p: Picture,
                    outcomes: map<Id, Outcome>, neutralised: set<Id>, groups: map<Id, seq<Group>>): RuleResult {
    var required := Eval(rule.require, TruthOf(outcomes));
    var operands := PositiveOperands(k, rule);
    var matched := TrueOperands(operands, TruthOf(outcomes));
    var classes := ClassesOf(k, matched);
    var diverse := |classes| >= rule.minClasses;
    var notes := Uncertain(operands, outcomes);
    BareResult(rid, Composite, StateOf(required, diverse), required).(
      matchedPositive := Ascending(matched),
      matchedNegative := Ascending(p.negatives),
      neutralised := Ascending(neutralised),
      activeOverrides := Ascending(p.overrides),
      evidenceClasses := Ascending(classes),
      observationRefs := Ascending(CollectedRefs(c, operands + p.negatives)),
      ambiguities := SortedNotes(set n | n in notes && IsAmbiguity(n.reason)),
      unknowns := SortedNotes(set n | n in notes && !IsAmbiguity(n.reason)),
      minClasses := Some(rule.minClasses),
      diversityMet := Some(diverse),
      verdict := Some(rule.verdict),
      declaredSeverity := rule.severity,
      effectiveSeverity := EffectiveSeverity(rule),
      confidenceInputs := ConfidenceInputs(c, operands),
      provenance := map i | i in matched && i in groups :: groups[i],
      suppression := Candidates(k, p))
  }

  function CompositeResult(k: Knowledge, gate: Level, rid: Id, rule: Rule, c: Context): RuleResult {
    var p := PictureOf(k, gate, rid, rule.categories, c);
    var readings := Readings(k, gate, c, p);
    Assemble(k, rid, rule, c, p, OutcomesOf(readings), NeutralisedIn(readings), GroupsIn(readings))
  }

  /** Negative readings, for a SUPPRESSION-kind rule. */
  function NegativeTruth(k: Knowledge, gate: Level, c: Context): map<Id, Truth> {
    map n | n in c.byIndicator && n in k.negatives :: CombineNegative(gate, c.Of(n)).value
  }

  function SuppressionResult(k: Knowledge, gate: Level, rid: Id, rule: Rule, c: Context): RuleResult {
    var truth := NegativeTruth(k, gate, c);
    var required := Eval(rule.require, truth);
    var matched := set n | n in Operands(rule.require) && Lookup(truth, n) == True;
    BareResult(rid, Suppression, StateOf(required, true), required).(
      matchedNegative := Ascending(matched),
      observationRefs := Ascending(CollectedRefs(c, matched)),
      verdict := Some(rule.verdict))
  }

  // error codes; message texts are not part of the model
  const RULE_NOT_FOUND: Id := 1
  const RULE_NOT_PUBLISHED: Id := 2
  const LANGUAGE_OUT_OF_SCOPE: Id := 3
  const SUPPRESSION_EXECUTION_ERROR: Id := 4
  const NO_TEXT: Id := 0

  function Unavailable(rid: Id, kind: Kind, required: Truth, code: Id): RuleResult {
    BareResult(rid, kind, State.NotApplicable, required).(error := Some(EvalError(code, NO_TEXT)))
  }

  /** Evaluation of one rule by id: only published rules in language scope run. */
  function EvaluateRule(k: Knowledge, gate: Level, rid: Id, c: Context): RuleResult {
    if rid !in k.rules then Unavailable(rid, Composite, Truth.Unknown, RULE_NOT_FOUND)
    else
      var rule := k.rules[rid];
      if !rule.published then Unavailable(rid, rule.kind, Truth.Unknown, RULE_NOT_PUBLISHED)
      else if !InScope(rule, c) then Unavailable(rid, rule.kind, Truth.Unknown, LANGUAGE_OUT_OF_SCOPE)
      else if rule.kind.Suppression? then SuppressionResult(k, gate, rid, rule, c)
      else CompositeResult(k, gate, rid, rule, c)
  }

  function PublishedRules(k: Knowledge): set<Id> {
    set r | r in k.rules && k.rules[r].published
  }

  // ---------------------------------------------------------------- folding laws

  /** Suppressors only move an occurrence down. */
  lemma MoreSuppressorsLower(observations: map<Id, Observation>, gate: Level, o: Occurrence, s: set<Occurrence>, s': set<Occurrence>)
    requires s <= s'
    ensures PositiveReading(observations, gate, o, s').value.AtMost(PositiveReading(observations, gate, o, s).value)
    ensures Neutralises(observations, gate, o, s) ==> Neutralises(observations, gate, o, s')
  {
  }

  /** Structure is final, except that a polarity mismatch is noticed first: a dead occurrence reads False
      under any suppressors exactly when its registry class agrees, and is never True. */
  lemma DeadStaysDead(observations: map<Id, Observation>, gate: Level, o: Occurrence, s: set<Occurrence>)
    requires StructuralVerdict(observations, o) == NonLive
    ensures PositiveReading(observations, gate, o, s).value == False <==> !Mismatched(o, PositiveClass)
    ensures PositiveReading(observations, gate, o, s) ==
      if Mismatched(o, PositiveClass) then Outcome(Truth.Unknown, PolarityMismatch) else Outcome(False, StructurallyDead)
  {
  }

  /** A True occurrence is observed at or above the gate, live in all its backing observations, and not
      touched by any suppressor. */
  lemma TrueOccurrence(observations: map<Id, Observation>, gate: Level, o: Occurrence, s: set<Occurrence>)
    ensures PositiveReading(observations, gate, o, s).value == True <==>
      && !Mismatched(o, PositiveClass)
      && o.matched.Observed? && o.confidence.Some? && o.confidence.value.Rank() >= gate.Rank()
      && StructuralVerdict(observations, o) == Live
      && !Associated(o, s) && !AssociationOpen(o, s)
  {
  }

  lemma FoldIsOr(outcomes: set<Outcome>, absent: Reason)
    ensures Fold(outcomes, absent).value == True <==> exists o :: o in outcomes && o.value == True
    ensures Fold(outcomes, absent).value == False <==> forall o :: o in outcomes ==> o.value == False
    ensures Fold(outcomes, absent).value == Truth.Unknown ==>
      exists o :: o in outcomes && o.value == Truth.Unknown
  {
    var reasons := set o | o in outcomes && o.value == Truth.Unknown :: o.reason;
    if exists o :: o in outcomes && o.value == Truth.Unknown {
      var o :| o in outcomes && o.value == Truth.Unknown;
      assert o.reason in reasons;
    }
  }

  /** The combined truth, read off the occurrences. */
  lemma CombinedTruth(observations: map<Id, Observation>, gate: Level, os: set<Occurrence>, s: set<Occurrence>)
    ensures Combine(observations, gate, os, s).outcome.value == True <==>
            exists o :: o in os && PositiveReading(observations, gate, o, s).value == True
    ensures Combine(observations, gate, os, s).outcome.value == False <==>
            forall o :: o in os ==> PositiveReading(observations, gate, o, s).value == False
  {
    var outcomes := PositiveReadings(observations, gate, os, s);
    FoldIsOr(outcomes, NotSeen);
    FoldIsOr(outcomes, Neutralised);
    forall o | o in os ensures PositiveReading(observations, gate, o, s) in outcomes {
    }
  }

  /** `g` lists the references of an occurrence that made the indicator True. */
  ghost predicate GroupOf(observations: map<Id, Observation>, gate: Level, os: set<Occurrence>, s: set<Occurrence>, g: Group) {
    exists o :: o in os && PositiveReading(observations, gate, o, s).value == True && o.refs != [] && g == SortedUnique(o.refs)
  }

  lemma GroupsAreLive(observations: map<Id, Observation>, gate: Level, os: set<Occurrence>, s: set<Occurrence>, g: Group)
    ensures g in Combine(observations, gate, os, s).groups <==> GroupOf(observations, gate, os, s, g)
  {
    assert g in Combine(observations, gate, os, s).groups <==> g in Elems(Combine(observations, gate, os, s).groups);
    assert g in LiveGroups(observations, gate, os, s) <==> GroupOf(observations, gate, os, s, g);
  }

  /** Groups are reported exactly when the indicator is True. */
  lemma GroupsWitnessTruth(observations: map<Id, Observation>, gate: Level, os: set<Occurrence>, s: set<Occurrence>)
    ensures Combine(observations, gate, os, s).outcome.value == True <==> Combine(observations, gate, os, s).groups != []
  {
    CombinedTruth(observations, gate, os, s);
    var groups := Combine(observations, gate, os, s).groups;
    if o :| o in os && PositiveReading(observations, gate, o, s).value == True {
      TrueOccurrence(observations, gate, o, s);
      assert GroupOf(observations, gate, os, s, SortedUnique(o.refs));
      GroupsAreLive(observations, gate, os, s, SortedUnique(o.refs));
    }
    if groups != [] {
      GroupsAreLive(observations, gate, os, s, groups[0]);
    }
  }
}
