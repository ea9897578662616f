/** Rule-level suppression: the step that cancels or caps a matched rule after evaluation. */
module Suppression {
  import opened Ids
  import opened Kleene
  import opened Domain
  import opened Evaluator

  // ---------------------------------------------------------------- what a matched result resolves to

  /** Governed metadata the step can act on. */
  predicate Readable(k: Knowledge, n: Id) {
    && n in k.negatives
    && !k.negatives[n].effect.UnknownEffect? && k.negatives[n].blockable.Some? && k.negatives[n].category.Some?
    && (k.negatives[n].effect.CapSeverity? ==>
          k.negatives[n].severityCap.Some? && k.negatives[n].severityCap.value != Severity.Critical)
  }

  predicate ReadableOverride(k: Knowledge, o: Id) {
    o in k.overrides && k.overrides[o].blocks.Some?
  }

  /** The negatives of `r` with a given effect, split by whether an active override blocks them. */
  function Effective(k: Knowledge, r: RuleResult, effect: Effect, blocked: bool): set<Id> {
    set n | n in r.matchedNegative && n in k.negatives && k.negatives[n].effect == effect
         && IsBlocked(k.negatives[n], BlockedCategories(k, Elems(r.activeOverrides))) == blocked
  }

  function ContextMarkers(k: Knowledge, r: RuleResult): set<Id> {
    set n | n in r.matchedNegative && n in k.negatives && k.negatives[n].effect == ContextOnly
  }

  function Suppressors(k: Knowledge, r: RuleResult): set<Id> { Effective(k, r, SuppressRule, false) }

  function BlockedSuppressors(k: Knowledge, r: RuleResult): set<Id> { Effective(k, r, SuppressRule, true) }

  function Caps(k: Knowledge, r: RuleResult): set<Id> { Effective(k, r, CapSeverity, false) }

  function BlockedCaps(k: Knowledge, r: RuleResult): set<Id> { Effective(k, r, CapSeverity, true) }

  /** The ceilings of the caps that survive. */
  function Ceilings(k: Knowledge, r: RuleResult): set<Severity> {
    set n | n in Caps(k, r) && k.negatives[n].severityCap.Some? :: k.negatives[n].severityCap.value
  }

  function Lowest(s: set<Severity>): Severity {
    if Severity.Low in s then Severity.Low
    else if Severity.Medium in s then Severity.Medium
    else if Severity.High in s then Severity.High
    else Severity.Critical
  }

  // ---------------------------------------------------------------- refusals

  predicate CarriesAppliedFields(s: SuppressionInfo) {
    s.suppressedBy.Some? || s.effect.Some? || s.applied.Some? || s.ceilings.Some? || s.appliedCaps.Some? || s.blockedCaps.Some?
  }

  /** The evaluator's blocked list, when it gave one, is the governed resolution. */
  predicate BlockedListAgrees(k: Knowledge, r: RuleResult) {
    r.suppression.Some? && r.suppression.value.blocked.Some? ==>
      Elems(r.suppression.value.blocked.value) == BlockedSuppressors(k, r) + BlockedCaps(k, r)
  }

  /** A matched composite result the step can act on. */
  predicate Acceptable(k: Knowledge, r: RuleResult) {
    && r.required == True && r.effectiveSeverity.Some?
    && (r.suppression.Some? ==> !CarriesAppliedFields(r.suppression.value))
    && (forall o :: o in r.activeOverrides ==> ReadableOverride(k, o))
    && (forall n :: n in r.matchedNegative ==> Readable(k, n))
    && BlockedListAgrees(k, r)
  }

  // ---------------------------------------------------------------- the step

  function Primary(applied: set<Id>, caps: set<Id>, context: set<Id>): PrimaryEffect {
    if applied != {} then RuleSuppressed
    else if caps != {} then SeverityCapped
    else if context != {} then ContextRecorded
    else NothingApplied
  }

  /** The suppression object, rebuilt from the governed resolution alone. */
  function Resolution(applied: set<Id>, blocked: set<Id>, caps: set<Id>, blockedCaps: set<Id>,
                      ceilings: set<Severity>, context: set<Id>): SuppressionInfo {
    SuppressionInfo(
      NonEmpty(applied),
      if applied == {} then None else Some(Least(applied)),
      NonEmpty(blocked),
      NonEmpty(caps),
      if ceilings == {} then None else Some(SortedSeverities(ceilings)),
      NonEmpty(blockedCaps),
      NonEmpty(context),
      Some(Primary(applied, caps, context)))
  }

  function Resolved(k: Knowledge, r: RuleResult): RuleResult
    requires r.effectiveSeverity.Some?
  {
    r.(effectiveSeverity := Some(Lowest({r.effectiveSeverity.value} + Ceilings(k, r))),
       state := if Suppressors(k, r) != {} then Suppressed else r.state,
       suppression := Some(Resolution(Suppressors(k, r), BlockedSuppressors(k, r), Caps(k, r), BlockedCaps(k, r),
                                      Ceilings(k, r), ContextMarkers(k, r))))
  }

  function Degraded(r: RuleResult): RuleResult {
    Unavailable(r.ruleId, r.kind, r.required, SUPPRESSION_EXECUTION_ERROR)
  }

  /** The step on a result in canonical form: fail closed, act on matched composites only. */
  function Step(k: Knowledge, c: RuleResult): RuleResult {
    if HasAggregationFields(c) then Degraded(c)
    else if !c.kind.Composite? || !c.state.Matched? then c
    else if !Acceptable(k, c) then Degraded(c)
    else Resolved(k, c)
  }

  function Apply(k: Knowledge, r: RuleResult): RuleResult {
    Step(k, CanonicalArrays(r))
  }

  // ---------------------------------------------------------------- the loops

  /** The six accumulators of the loop over matched negatives. */
  datatype Tally = Tally(applied: seq<Id>, blocked: seq<Id>, caps: seq<Id>, blockedCaps: seq<Id>,
                         ceilings: seq<Severity>, context: seq<Id>)

  /** The negatives among the first `i`. */
  ghost function Upto(r: RuleResult, i: nat): RuleResult
    requires i <= |r.matchedNegative|
  {
    r.(matchedNegative := r.matchedNegative[..i])
  }

  ghost predicate Tallies(k: Knowledge, r: RuleResult, t: Tally) {
    && Elems(t.applied) == Suppressors(k, r) && Elems(t.blocked) == BlockedSuppressors(k, r)
    && Elems(t.caps) == Caps(k, r) && Elems(t.blockedCaps) == BlockedCaps(k, r)
    && Elems(t.ceilings) == Ceilings(k, r) && Elems(t.context) == ContextMarkers(k, r)
  }

  method TallyNegatives(k: Knowledge, r: RuleResult) returns (ok: bool, t: Tally)
    ensures ok <==> forall n :: n in r.matchedNegative ==> Readable(k, n)
    ensures ok ==> Tallies(k, r, t)
  {
    t := Tally([], [], [], [], [], []);
    var blockedCategories := BlockedCategories(k, Elems(r.activeOverrides));
    for i := 0 to |r.matchedNegative|
      invariant forall n :: n in r.matchedNegative[..i] ==> Readable(k, n)
      invariant Tallies(k, Upto(r, i), t)
    {
      var n := r.matchedNegative[i];
      assert r.matchedNegative[..i + 1] == r.matchedNegative[..i] + [n];
      if !Readable(k, n) {
        return false, t;
      }
      t := TallyOne(k, Upto(r, i), n, blockedCategories, t, Upto(r, i + 1));
    }
    assert r.matchedNegative[..|r.matchedNegative|] == r.matchedNegative;
    assert Upto(r, |r.matchedNegative|) == r;
    ok := true;
  }

  /** The loop body: one readable negative joins the list its effect and blocking call for. */
  method TallyOne(k: Knowledge, ghost r: RuleResult, n: Id, blockedCategories: set<Id>, t: Tally, ghost r': RuleResult)
    returns (t': Tally)
    requires Readable(k, n) && Tallies(k, r, t)
    requires blockedCategories == BlockedCategories(k, Elems(r.activeOverrides))
    requires r'.matchedNegative == r.matchedNegative + [n] && r'.activeOverrides == r.activeOverrides
    ensures Tallies(k, r', t')
  {
    var neg := k.negatives[n];
    OneMoreNegative(k, r, r', n);
    t' := t;
    match neg.effect
    case SuppressRule =>
      if IsBlocked(neg, blockedCategories) {
        ElemsAppend(t.blocked, n);
        t' := t.(blocked := t.blocked + [n]);
      } else {
        ElemsAppend(t.applied, n);
        t' := t.(applied := t.applied + [n]);
      }
    case CapSeverity =>
      if IsBlocked(neg, blockedCategories) {
        ElemsAppend(t.blockedCaps, n);
        t' := t.(blockedCaps := t.blockedCaps + [n]);
      } else {
        ElemsAppend(t.caps, n);
        ElemsAppend(t.ceilings, neg.severityCap.value);
        t' := t.(caps := t.caps + [n], ceilings := t.ceilings + [neg.severityCap.value]);
      }
    case ContextOnly =>
      ElemsAppend(t.context, n);
      t' := t.(context := t.context + [n]);
    case SuppressIndicator =>
  }

  lemma OneMoreNegative(k: Knowledge, r: RuleResult, r': RuleResult, n: Id)
    requires r'.matchedNegative == r.matchedNegative + [n] && r'.activeOverrides == r.activeOverrides
    requires Readable(k, n)
    ensures var e := k.negatives[n].effect;
      var b := IsBlocked(k.negatives[n], BlockedCategories(k, Elems(r.activeOverrides)));
      && Suppressors(k, r') == Suppressors(k, r) + (if e == SuppressRule && !b then {n} else {})
      && BlockedSuppressors(k, r') == BlockedSuppressors(k, r) + (if e == SuppressRule && b then {n} else {})
      && Caps(k, r') == Caps(k, r) + (if e == CapSeverity && !b then {n} else {})
      && BlockedCaps(k, r') == BlockedCaps(k, r) + (if e == CapSeverity && b then {n} else {})
      && Ceilings(k, r') == Ceilings(k, r) + (if e == CapSeverity && !b then {k.negatives[n].severityCap.value} else {})
      && ContextMarkers(k, r') == ContextMarkers(k, r) + (if e == ContextOnly then {n} else {})
  {
  }

  method LowerSeverity(base: Severity, ceilings: seq<Severity>) returns (effective: Severity)
    ensures effective == Lowest({base} + Elems(ceilings))
  {
    effective := base;
    for i := 0 to |ceilings|
      invariant effective == Lowest({base} + Elems(ceilings[..i]))
    {
      ElemsOfPrefix(ceilings, i);
      LowestOneMore({base} + Elems(ceilings[..i]), ceilings[i]);
      assert {base} + Elems(ceilings[..i + 1]) == {base} + Elems(ceilings[..i]) + {ceilings[i]};
      effective := SeverityMin(effective, ceilings[i]);
    }
    assert ceilings[..|ceilings|] == ceilings;
  }

  lemma LowestOneMore(s: set<Severity>, x: Severity)
    requires s != {}
    ensures Lowest(s + {x}) == SeverityMin(Lowest(s), x)
  {
  }

  /** The lowest of a set of severities is in it and below all of it. */
  lemma LowestIsLeast(s: set<Severity>)
    requires s != {}
    ensures Lowest(s) in s
    ensures forall x :: x in s ==> Lowest(s).Rank() <= x.Rank()
  {
    var y :| y in s;
    match y case Low => case Medium => case High => case Critical =>
    forall x | x in s ensures Lowest(s).Rank() <= x.Rank() {
      match x case Low => case Medium => case High => case Critical =>
    }
  }

  /** A matched composite: validated, tallied, cross-checked, then capped and possibly cancelled. */
  method ResolveMatched(k: Knowledge, c: RuleResult) returns (ok: bool, out: RuleResult)
    ensures ok <==> Acceptable(k, c)
    ensures ok ==> out == Resolved(k, c)
  {
    out := c;
    if c.required != True || c.effectiveSeverity.None? {
      return false, out;
    }
    if c.suppression.Some? && CarriesAppliedFields(c.suppression.value) {
      return false, out;
    }
    if exists o :: o in c.activeOverrides && !ReadableOverride(k, o) {
      return false, out;
    }
    var t;
    ok, t := TallyNegatives(k, c);
    if !ok {
      return;
    }
    if c.suppression.Some? && c.suppression.value.blocked.Some? {
      if Elems(c.suppression.value.blocked.value) != Elems(t.blocked) + Elems(t.blockedCaps) {
        return false, out;
      }
    }
    var effective := LowerSeverity(c.effectiveSeverity.value, t.ceilings);
    out := out.(effectiveSeverity := Some(effective));
    if t.applied != [] {
      assert t.applied[0] in Elems(t.applied);
      out := out.(state := Suppressed);
    }
    out := out.(suppression := Some(Resolution(Elems(t.applied), Elems(t.blocked), Elems(t.caps), Elems(t.blockedCaps),
                                               Elems(t.ceilings), Elems(t.context))));
  }

  /** The step on one result. */
  method ApplyRule(k: Knowledge, r: RuleResult) returns (out: RuleResult)
    ensures out == Apply(k, r)
  {
    var c := CanonicalArrays(r);
    if HasAggregationFields(c) {
      return Degraded(r);
    }
    if !c.kind.Composite? || !c.state.Matched? {
      return c;
    }
    var ok;
    ok, out := ResolveMatched(k, c);
    if !ok {
      return Degraded(r);
    }
  }

  /** `outs` holds the outputs of the first results. */
  ghost predicate Applied(k: Knowledge, results: seq<RuleResult>, outs: seq<RuleResult>) {
    |outs| <= |results| && forall i :: 0 <= i < |outs| ==> outs[i] == Apply(k, results[i])
  }

  lemma OneMoreApplied(k: Knowledge, results: seq<RuleResult>, outs: seq<RuleResult>, out: RuleResult)
    requires Applied(k, results, outs) && |outs| < |results| && out == Apply(k, results[|outs|])
    ensures Applied(k, results, outs + [out])
  {
  }

  /** The batch: every rule on its own, in order. */
  method ApplyAll(k: Knowledge, results: seq<RuleResult>) returns (outs: seq<RuleResult>)
    ensures |outs| == |results|
    ensures forall i :: 0 <= i < |results| ==> outs[i] == Apply(k, results[i])
  {
    outs := [];
    for i := 0 to |results|
      invariant |outs| == i && Applied(k, results, outs)
    {
      var out := ApplyRule(k, results[i]);
      OneMoreApplied(k, results, outs, out);
      outs := outs + [out];
    }
  }
}
