/** What the loader and the boundary's schemas let through, as far as the modelled fields go. */
module Schemas {
  import opened Ids
  import opened Conditions
  import opened Domain
  import opened Observations
  import opened Suppression
  import opened Indexes
  import opened Pipeline

  // ---------------------------------------------------------------- governed knowledge

  /** An operand is an indicator id or a condition object. */
  predicate IsOperand(c: Cond)
    decreases c
  {
    match c
    case Leaf(_) => true
    case AllOf(of) => |of| >= 1 && forall i :: 0 <= i < |of| ==> IsOperand(of[i])
    case AnyOf(of) => |of| >= 2 && forall i :: 0 <= i < |of| ==> IsOperand(of[i])
    case NOf(n, of) => n >= 2 && |of| >= 3 && forall i :: 0 <= i < |of| ==> IsOperand(of[i])
  }

  /** The root of a rule's logic is an operator object, never a bare id. */
  predicate IsCondition(c: Cond) {
    !c.Leaf? && IsOperand(c)
  }

  /** rule.schema.json, and the polarity contract of the loader's reference check. */
  predicate ValidRule(k: Knowledge, rule: Rule) {
    && IsCondition(rule.require)
    && rule.categories != {} && rule.languages != {} && rule.scripts != {}
    && (rule.verdict.Partial? ==> rule.severityCap.Some?) && rule.severityCap != Some(Severity.Critical)
    && (rule.published ==> rule.verdict.Supported? || rule.verdict.Partial?)
    && (if rule.kind.Composite?
        then rule.severity.Some? && rule.minClasses >= 2 && Operands(rule.require) <= k.indicators.Keys
        else Operands(rule.require) <= k.negatives.Keys)
  }

  /** The negative library's own validation: metadata the suppression step can act on, live targets. */
  predicate ValidNegative(k: Knowledge, n: Id)
    requires n in k.negatives
  {
    && Readable(k, n)
    && (k.negatives[n].severityCap.Some? <==> k.negatives[n].effect.CapSeverity?)
    && (k.negatives[n].effect.SuppressIndicator? ==> k.negatives[n].suppresses != [])
    && Elems(k.negatives[n].suppresses) <= k.indicators.Keys
  }

  predicate ValidOverride(k: Knowledge, o: Override) {
    && IsOperand(o.condition) && Operands(o.condition) <= k.indicators.Keys
    && o.families + o.rules != {} && o.rules <= k.rules.Keys && o.blocks.Some?
  }

  /** One namespace for indicators of both polarities and rules, and every record valid. */
  predicate ValidKnowledge(k: Knowledge) {
    && k.indicators.Keys !! k.negatives.Keys !! k.rules.Keys
    && (forall i :: i in k.indicators ==> k.indicators[i].evidenceClass.Some?)
    && (forall r :: r in k.rules ==> ValidRule(k, k.rules[r]))
    && (forall n :: n in k.negatives ==> ValidNegative(k, n))
    && (forall o :: o in k.overrides ==> ValidOverride(k, k.overrides[o]))
  }

  /** `c` holds the rules and indicators of `k`, each rule once. */
  ghost predicate SameRules(k: Knowledge, c: Components) {
    && c.indicators == k.indicators.Keys
    && (forall r :: r in c.rules ==> r.id in k.rules && k.rules[r.id] == r.rule)
    && (forall i, j :: 0 <= i < j < |c.rules| ==> c.rules[i].id != c.rules[j].id)
  }

  /** In every loaded bundle the reverse index of indicators is an index of COMPOSITE rules. */
  lemma LoadedIndexIsComposite(k: Knowledge, c: Components)
    requires ValidKnowledge(k) && SameRules(k, c)
    ensures ListsCompositesOnly(c)
  {
    forall r | r in c.rules && r.rule.kind.Suppression? ensures Operands(r.rule.require) * c.indicators == {} {
      assert ValidRule(k, k.rules[r.id]);
    }
    CompositesOnlyExactly(c);
  }

  // ---------------------------------------------------------------- what callers supply

  /** indicator-observation.schema.json, and the registry class the indicator has. */
  predicate ValidOccurrence(k: Knowledge, o: Occurrence) {
    && o.registry.Some? && o.inputId.Some? && NoRepeats(o.refs)
    && (if o.registry.value == PositiveClass then o.indicator in k.indicators else o.indicator in k.negatives)
  }

  /** A request the boundary accepts, record by record and as a whole. */
  ghost predicate ValidRequest(k: Knowledge, q: Request) {
    && Wellposed(q)
    && (forall o :: o in q.occurrences ==> ValidOccurrence(k, o))
    && (forall n :: n in q.observations ==> n.1.source.Some?)
  }
}
