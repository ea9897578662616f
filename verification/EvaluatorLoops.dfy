/** The evaluator's loops, each proved to compute its definition in Evaluator whatever order the
    occurrences, suppressors, indicators and overrides come in. */
module EvaluatorLoops {
  import opened Ids
  import opened Kleene
  import opened Conditions
  import opened Domain
  import opened Observations
  import opened Evaluator

  // ---------------------------------------------------------------- occurrences

  method SuppressionAssociation(o: Occurrence, suppressors: seq<Occurrence>) returns (associated: bool, unresolved: bool)
    ensures associated <==> Associated(o, Elems(suppressors))
    ensures !associated ==> (unresolved <==> AssociationOpen(o, Elems(suppressors)))
  {
    var refs := Elems(o.refs);
    unresolved := false;
    for i := 0 to |suppressors|
      invariant !Associated(o, Elems(suppressors[..i]))
      invariant unresolved <==> AssociationOpen(o, Elems(suppressors[..i]))
    {
      var s := suppressors[i];
      assert suppressors[..i + 1] == suppressors[..i] + [s];
      assert s in Elems(suppressors[..i + 1]) && s in Elems(suppressors);
      assert o.refs != [] ==> o.refs[0] in refs;
      assert s.refs != [] ==> s.refs[0] in Elems(s.refs);
      if o.refs == [] || s.refs == [] {
        unresolved := true;
      } else if refs * Elems(s.refs) != {} {
        return true, unresolved;
      }
    }
    assert suppressors[..|suppressors|] == suppressors;
    associated := false;
  }

  /** One occurrence, as the body of the combination loop reads it. */
  method ReadOccurrence(observations: map<Id, Observation>, gate: Level, o: Occurrence, suppressors: seq<Occurrence>)
    returns (outcome: Outcome, neutralised: bool)
    ensures outcome == PositiveReading(observations, gate, o, Elems(suppressors))
    ensures neutralised <==> Neutralises(observations, gate, o, Elems(suppressors))
  {
    neutralised := false;
    if Mismatched(o, PositiveClass) {
      outcome := Outcome(Truth.Unknown, PolarityMismatch);
      return;
    }
    var g := Gate(gate, o.matched, o.confidence);
    var structure := StructuralVerdict(observations, o);
    if structure == NonLive {
      if g.value != False {
        neutralised := true;
      }
      outcome := Outcome(False, StructurallyDead);
    } else if structure == Live {
      outcome := g;
    } else {
      outcome := if g.value == False then g else Outcome(Truth.Unknown, UnresolvedStructure);
    }
    if outcome.value != False && suppressors != [] {
      var associated, unresolved := SuppressionAssociation(o, suppressors);
      if associated {
        neutralised := true;
        outcome := Outcome(False, SuppressedHere);
      } else if unresolved {
        outcome := Outcome(Truth.Unknown, UnresolvedSuppression);
      }
    }
  }

  method CombinePositive(observations: map<Id, Observation>, gate: Level, occurrences: seq<Occurrence>, suppressors: seq<Occurrence>)
    returns (r: Combined)
    ensures r == Combine(observations, gate, Elems(occurrences), Elems(suppressors))
  {
    ghost var ss := Elems(suppressors);
    var outcomes: seq<Outcome> := [];
    var live: set<Group> := {};
    var neutralised := false;
    for i := 0 to |occurrences|
      invariant Elems(outcomes) == PositiveReadings(observations, gate, Elems(occurrences[..i]), ss)
      invariant live == LiveGroups(observations, gate, Elems(occurrences[..i]), ss)
      invariant neutralised <==> SomeNeutralises(observations, gate, Elems(occurrences[..i]), ss)
    {
      var o := occurrences[i];
      ElemsOfPrefix(occurrences, i);
      OneMoreReading(observations, gate, Elems(occurrences[..i]), ss, o);
      OneMoreNeutralised(observations, gate, Elems(occurrences[..i]), ss, o);
      OneMoreGroup(observations, gate, Elems(occurrences[..i]), ss, o);
      var outcome, forced := ReadOccurrence(observations, gate, o, suppressors);
      ElemsAppend(outcomes, outcome);
      outcomes := outcomes + [outcome];
      neutralised := neutralised || forced;
      if outcome.value == True && o.refs != [] {
        live := live + {SortedUnique(o.refs)};
      }
    }
    assert occurrences[..|occurrences|] == occurrences;
    r := Combined(Fold(Elems(outcomes), if neutralised then Neutralised else NotSeen), neutralised, SortedGroups(live));
  }

  lemma OneMoreReading(observations: map<Id, Observation>, gate: Level, os: set<Occurrence>, ss: set<Occurrence>, o: Occurrence)
    ensures PositiveReadings(observations, gate, os + {o}, ss)
         == PositiveReadings(observations, gate, os, ss) + {PositiveReading(observations, gate, o, ss)}
  {
  }

  lemma OneMoreNeutralised(observations: map<Id, Observation>, gate: Level, os: set<Occurrence>, ss: set<Occurrence>, o: Occurrence)
    ensures SomeNeutralises(observations, gate, os + {o}, ss)
        <==> SomeNeutralises(observations, gate, os, ss) || Neutralises(observations, gate, o, ss)
  {
  }

  lemma OneMoreGroup(observations: map<Id, Observation>, gate: Level, os: set<Occurrence>, ss: set<Occurrence>, o: Occurrence)
    ensures LiveGroups(observations, gate, os + {o}, ss)
         == LiveGroups(observations, gate, os, ss)
            + if PositiveReading(observations, gate, o, ss).value == True && o.refs != [] then {SortedUnique(o.refs)} else {}
  {
  }

  method CombineNegativeOccurrences(gate: Level, occurrences: seq<Occurrence>) returns (r: Outcome)
    ensures r == CombineNegative(gate, Elems(occurrences))
  {
    var gated: seq<Outcome> := [];
    for i := 0 to |occurrences|
      invariant Elems(gated) == NegativeReadings(gate, Elems(occurrences[..i]))
    {
      ElemsOfPrefix(occurrences, i);
      ElemsAppend(gated, NegativeReading(gate, occurrences[i]));
      gated := gated + [NegativeReading(gate, occurrences[i])];
    }
    assert occurrences[..|occurrences|] == occurrences;
    r := Fold(Elems(gated), NotSeen);
  }

  // ---------------------------------------------------------------- overrides and suppressors

  method ComputeActiveOverrides(k: Knowledge, rid: Id, categories: set<Id>, raw: map<Id, Truth>)
    returns (active: set<Id>, blocked: set<Id>)
    ensures active == ActiveOverrides(k, rid, categories, raw)
    ensures blocked == BlockedCategories(k, active)
  {
    active, blocked := {}, {};
    var order := Ascending(k.overrides.Keys);
    for i := 0 to |order|
      invariant active == Elems(order[..i]) * ActiveOverrides(k, rid, categories, raw)
      invariant blocked == BlockedCategories(k, active)
    {
      var o := order[i];
      assert o in Elems(order);
      ElemsOfPrefix(order, i);
      IntersectOneMore(Elems(order[..i]), o, ActiveOverrides(k, rid, categories, raw));
      if OverrideApplies(k.overrides[o], rid, categories) && Eval(k.overrides[o].condition, raw) == True {
        OneMoreOverride(k, active, o);
        active := active + {o};
        blocked := blocked + Blocks(k, o);
      }
    }
    assert order[..|order|] == order;
  }

  lemma IntersectOneMore(s: set<Id>, x: Id, all: set<Id>)
    ensures (s + {x}) * all == s * all + if x in all then {x} else {}
  {
  }

  lemma OneMoreOverride(k: Knowledge, active: set<Id>, o: Id)
    ensures BlockedCategories(k, active + {o}) == BlockedCategories(k, active) + Blocks(k, o)
  {
  }

  method ComputeMatchedNegatives(k: Knowledge, gate: Level, c: Context, categories: set<Id>) returns (negatives: set<Id>)
    ensures negatives == MatchedNegatives(k, gate, c, categories)
  {
    negatives := {};
    var order := Ascending(c.byIndicator.Keys);
    for i := 0 to |order|
      invariant negatives == Elems(order[..i]) * MatchedNegatives(k, gate, c, categories)
    {
      var n := order[i];
      assert n in Elems(order);
      ElemsOfPrefix(order, i);
      IntersectOneMore(Elems(order[..i]), n, MatchedNegatives(k, gate, c, categories));
      if n in k.negatives {
        var truth := CombineNegativeOccurrences(gate, c.byIndicator[n]);
        if truth.value == True && NegativeApplies(k, n, categories) {
          negatives := negatives + {n};
        }
      }
    }
    assert order[..|order|] == order;
  }

  type Targets = map<Id, seq<Occurrence>>

  function Against(targets: Targets, t: Id): set<Occurrence> {
    if t in targets then Elems(targets[t]) else {}
  }

  function Acting(gate: Level, os: set<Occurrence>): set<Occurrence> {
    set o | o in os && ActsAsSuppressor(gate, o)
  }

  method ActiveOccurrences(gate: Level, occurrences: seq<Occurrence>) returns (active: seq<Occurrence>)
    ensures Elems(active) == Acting(gate, Elems(occurrences))
  {
    active := [];
    for i := 0 to |occurrences|
      invariant Elems(active) == Acting(gate, Elems(occurrences[..i]))
    {
      ElemsOfPrefix(occurrences, i);
      if ActsAsSuppressor(gate, occurrences[i]) {
        ElemsAppend(active, occurrences[i]);
        active := active + [occurrences[i]];
      }
    }
    assert occurrences[..|occurrences|] == occurrences;
  }

  /** `targets.setdefault(target, []).extend(active)` for every target of one suppressor. */
  method AddSuppressor(targets: Targets, suppresses: seq<Id>, active: seq<Occurrence>) returns (r: Targets)
    ensures forall t :: Against(r, t) == Against(targets, t) + if t in suppresses then Elems(active) else {}
  {
    r := targets;
    for j := 0 to |suppresses|
      invariant forall t :: Against(r, t) == Against(targets, t) + if t in suppresses[..j] then Elems(active) else {}
    {
      var target := suppresses[j];
      var present := if target in r then r[target] else [];
      ElemsConcat(present, active);
      r := r[target := present + active];
      assert suppresses[..j + 1] == suppresses[..j] + [target];
    }
    assert suppresses[..|suppresses|] == suppresses;
  }

  method ActiveSuppressorOccurrences(k: Knowledge, gate: Level, c: Context, p: Picture) returns (targets: Targets)
    requires forall n :: n in p.negatives ==> n in c.byIndicator
    ensures forall t :: Against(targets, t) == SuppressorsOf(k, gate, c, p, t)
  {
    targets := map[];
    var order := Ascending(p.negatives);
    for i := 0 to |order|
      invariant forall t :: Against(targets, t) == SuppressorsAmong(k, gate, c, p, Elems(order[..i]), t)
    {
      var n := order[i];
      assert n in Elems(order);
      ElemsOfPrefix(order, i);
      forall t ensures SuppressorsAmong(k, gate, c, p, Elems(order[..i + 1]), t)
                    == SuppressorsAmong(k, gate, c, p, Elems(order[..i]), t) + SuppressorsAmong(k, gate, c, p, {n}, t)
      {
        SuppressorsSplit(k, gate, c, p, Elems(order[..i]), n, t);
      }
      forall t { OneSuppressor(k, gate, c, p, n, t); }
      if Executes(k, p, n) {
        var active := ActiveOccurrences(gate, c.byIndicator[n]);
        targets := AddSuppressor(targets, k.negatives[n].suppresses, active);
      }
    }
    assert order[..|order|] == order;
  }

  lemma SuppressorsSplit(k: Knowledge, gate: Level, c: Context, p: Picture, ns: set<Id>, n: Id, t: Id)
    ensures SuppressorsAmong(k, gate, c, p, ns + {n}, t)
         == SuppressorsAmong(k, gate, c, p, ns, t) + SuppressorsAmong(k, gate, c, p, {n}, t)
  {
  }

  lemma OneSuppressor(k: Knowledge, gate: Level, c: Context, p: Picture, n: Id, t: Id)
    ensures SuppressorsAmong(k, gate, c, p, {n}, t)
         == if Executes(k, p, n) && t in k.negatives[n].suppresses then Acting(gate, c.Of(n)) else {}
  {
  }

  // ---------------------------------------------------------------- one composite rule

  /** What the evaluator keeps side by side while readings change: truth, neutralised ids, live groups. */
  datatype Ledger = Ledger(truth: map<Id, Outcome>, neutralised: set<Id>, live: map<Id, seq<Group>>)

  ghost function LedgerOf(readings: map<Id, Combined>): Ledger {
    Ledger(OutcomesOf(readings), NeutralisedIn(readings), GroupsIn(readings))
  }

  /** Records one combined reading. A reading that turned False without anything being neutralised leaves
      the neutralised set alone, which is right only because neutralisation never disappears. */
  method RecordReading(ghost readings: map<Id, Combined>, iid: Id, r: Combined, l: Ledger) returns (l': Ledger)
    requires l == LedgerOf(readings)
    requires iid in readings && readings[iid].neutralised ==> r.neutralised
    ensures l' == LedgerOf(readings[iid := r])
  {
    OutcomesAfter(readings, iid, r);
    NeutralisedAfter(readings, iid, r);
    GroupsAfter(readings, iid, r);
    var truth, neutralised, live := l.truth[iid := r.outcome], l.neutralised, l.live;
    if r.groups != [] {
      live := live[iid := r.groups];
    } else {
      live := live - {iid};
    }
    if r.outcome.value == False && r.neutralised {
      neutralised := neutralised + {iid};
    } else if r.outcome.value != False {
      neutralised := neutralised - {iid};
    }
    l' := Ledger(truth, neutralised, live);
  }

  lemma OutcomesAfter(readings: map<Id, Combined>, iid: Id, r: Combined)
    ensures OutcomesOf(readings[iid := r]) == OutcomesOf(readings)[iid := r.outcome]
  {
  }

  lemma NeutralisedAfter(readings: map<Id, Combined>, iid: Id, r: Combined)
    requires iid in readings && readings[iid].neutralised ==> r.neutralised
    ensures NeutralisedIn(readings[iid := r]) ==
      if r.outcome.value != False then NeutralisedIn(readings) - {iid}
      else if r.neutralised then NeutralisedIn(readings) + {iid}
      else NeutralisedIn(readings)
  {
  }

  lemma GroupsAfter(readings: map<Id, Combined>, iid: Id, r: Combined)
    ensures GroupsIn(readings[iid := r]) ==
      if r.groups != [] then GroupsIn(readings)[iid := r.groups] else GroupsIn(readings) - {iid}
  {
  }

  /** `full` restricted to the keys done so far, and `after` overlaid on `before` for them. */
  ghost function Restricted<V>(full: map<Id, V>, done: set<Id>): map<Id, V> {
    map i | i in full && i in done :: full[i]
  }

  ghost function Overlaid<V>(before: map<Id, V>, after: map<Id, V>, done: set<Id>): map<Id, V> {
    map i | i in before :: if i in done && i in after then after[i] else before[i]
  }

  lemma RestrictedStep<V>(full: map<Id, V>, done: set<Id>, i: Id)
    ensures Restricted(full, done + {i}) == if i in full then Restricted(full, done)[i := full[i]] else Restricted(full, done)
  {
  }

  lemma OverlaidStep<V>(before: map<Id, V>, after: map<Id, V>, done: set<Id>, i: Id)
    requires i in before <==> i in after
    ensures Overlaid(before, after, done + {i}) ==
      if i in before then Overlaid(before, after, done)[i := after[i]] else Overlaid(before, after, done)
  {
  }

  lemma OverlaidNone<V>(before: map<Id, V>, after: map<Id, V>)
    ensures Overlaid(before, after, {}) == before
  {
  }

  lemma RestrictedAll<V>(full: map<Id, V>, done: set<Id>)
    requires forall i :: i in full ==> i in done
    ensures Restricted(full, done) == full
  {
  }

  /** The raw pass over the present indicators. */
  method PositiveTruthMap(k: Knowledge, gate: Level, c: Context) returns (l: Ledger)
    ensures l == LedgerOf(RawReadings(k, gate, c))
  {
    var order := Ascending(c.byIndicator.Keys);
    l := EmptyLedger(RawReadings(k, gate, c), order[..0]);
    for i := 0 to |order|
      invariant l == LedgerOf(Restricted(RawReadings(k, gate, c), Elems(order[..i])))
    {
      assert order[i] in Elems(order);
      ElemsOfPrefix(order, i);
      AscendingPrefix(order, i);
      l := ReadOne(k, gate, c, order[i], Elems(order[..i]), l);
    }
    assert order[..|order|] == order;
    RestrictedAll(RawReadings(k, gate, c), Elems(order));
  }

  method EmptyLedger(ghost readings: map<Id, Combined>, ghost read: seq<Id>) returns (l: Ledger)
    requires read == []
    ensures l == LedgerOf(Restricted(readings, Elems(read)))
  {
    l := Ledger(map[], {}, map[]);
  }

  method ReadOne(k: Knowledge, gate: Level, c: Context, iid: Id, ghost done: set<Id>, l: Ledger) returns (l': Ledger)
    requires iid in c.byIndicator && iid !in done && l == LedgerOf(Restricted(RawReadings(k, gate, c), done))
    ensures l' == LedgerOf(Restricted(RawReadings(k, gate, c), done + {iid}))
  {
    l' := l;
    RestrictedStep(RawReadings(k, gate, c), done, iid);
    if iid in k.indicators {
      var r := CombinePositive(c.observations, gate, c.byIndicator[iid], []);
      RawReadingAt(k, gate, c, iid, r);
      l' := RecordReading(Restricted(RawReadings(k, gate, c), done), iid, r, l);
    }
  }

  lemma RawReadingAt(k: Knowledge, gate: Level, c: Context, iid: Id, r: Combined)
    requires iid in c.byIndicator && iid in k.indicators
    requires r == Combine(c.observations, gate, c.Of(iid), Elems([]))
    ensures r == RawReadings(k, gate, c)[iid]
  {
    assert Elems<Occurrence>([]) == {};
  }

  lemma AscendingPrefix(order: seq<Id>, i: nat)
    requires StrictlyAscending(order) && i < |order|
    ensures order[i] !in Elems(order[..i])
  {
  }

  /** Readings when the suppressors of the targets `done` have been executed. */
  ghost function Executed(k: Knowledge, gate: Level, c: Context, p: Picture, done: set<Id>): map<Id, Combined> {
    Overlaid(RawReadings(k, gate, c), Readings(k, gate, c, p), done)
  }

  /** Step 3: every target of an active suppressor is combined again. */
  method ExecuteSuppression(k: Knowledge, gate: Level, c: Context, p: Picture, targets: Targets, l: Ledger) returns (l': Ledger)
    requires forall t :: Against(targets, t) == SuppressorsOf(k, gate, c, p, t)
    requires l == LedgerOf(RawReadings(k, gate, c))
    ensures l' == LedgerOf(Readings(k, gate, c, p))
  {
    l' := l;
    var order := Ascending(targets.Keys);
    assert Elems(order[..0]) == {};
    OverlaidNone(RawReadings(k, gate, c), Readings(k, gate, c, p));
    for i := 0 to |order|
      invariant l' == LedgerOf(Executed(k, gate, c, p, Elems(order[..i])))
    {
      assert order[i] in Elems(order);
      ElemsOfPrefix(order, i);
      l' := ExecuteOne(k, gate, c, p, targets, order[i], Elems(order[..i]), l');
    }
    assert order[..|order|] == order;
    UntargetedUnchanged(k, gate, c, p, targets);
  }

  method ExecuteOne(k: Knowledge, gate: Level, c: Context, p: Picture, targets: Targets, target: Id, ghost done: set<Id>, l: Ledger)
    returns (l': Ledger)
    requires target in targets && Against(targets, target) == SuppressorsOf(k, gate, c, p, target)
    requires l == LedgerOf(Executed(k, gate, c, p, done))
    ensures l' == LedgerOf(Executed(k, gate, c, p, done + {target}))
  {
    l' := l;
    if target in l.truth {
      var r := CombinePositive(c.observations, gate, c.byIndicator[target], targets[target]);
      SuppressionExecuted(k, gate, c, p, done, target, r, Elems(targets[target]));
      if Executed(k, gate, c, p, done)[target].neutralised {
        NeutralisedBefore(k, gate, c, p, done, target, r);
      }
      l' := RecordReading(Executed(k, gate, c, p, done), target, r, l);
    } else {
      NothingToExecute(k, gate, c, p, done, target);
    }
  }

  lemma SuppressionExecuted(k: Knowledge, gate: Level, c: Context, p: Picture, done: set<Id>, target: Id,
                            r: Combined, ss: set<Occurrence>)
    requires ss == SuppressorsOf(k, gate, c, p, target)
    requires target in c.byIndicator && target in k.indicators
    requires r == Combine(c.observations, gate, c.Of(target), ss)
    ensures Executed(k, gate, c, p, done + {target}) == Executed(k, gate, c, p, done)[target := r]
  {
  }

  lemma NeutralisedBefore(k: Knowledge, gate: Level, c: Context, p: Picture, done: set<Id>, target: Id, r: Combined)
    requires target in Executed(k, gate, c, p, done) && Executed(k, gate, c, p, done)[target].neutralised
    requires r == ReadingOf(k, gate, c, p, target)
    ensures r.neutralised
  {
    if SomeNeutralises(c.observations, gate, c.Of(target), {}) {
      NeutralisationStays(c.observations, gate, c.Of(target), SuppressorsOf(k, gate, c, p, target));
    }
  }

  lemma NothingToExecute(k: Knowledge, gate: Level, c: Context, p: Picture, done: set<Id>, target: Id)
    requires target !in OutcomesOf(Executed(k, gate, c, p, done))
    ensures Executed(k, gate, c, p, done + {target}) == Executed(k, gate, c, p, done)
  {
    OverlaidStep(RawReadings(k, gate, c), Readings(k, gate, c, p), done, target);
  }

  lemma UntargetedUnchanged(k: Knowledge, gate: Level, c: Context, p: Picture, targets: Targets)
    requires forall t :: Against(targets, t) == SuppressorsOf(k, gate, c, p, t)
    ensures Overlaid(RawReadings(k, gate, c), Readings(k, gate, c, p), targets.Keys) == Readings(k, gate, c, p)
  {
    forall i | i !in targets ensures ReadingOf(k, gate, c, p, i) == Combine(c.observations, gate, c.Of(i), {}) {
      UntargetedReading(k, gate, c, p, targets, i);
    }
  }

  lemma UntargetedReading(k: Knowledge, gate: Level, c: Context, p: Picture, targets: Targets, i: Id)
    requires Against(targets, i) == SuppressorsOf(k, gate, c, p, i) && i !in targets
    ensures ReadingOf(k, gate, c, p, i) == Combine(c.observations, gate, c.Of(i), {})
  {
  }

  lemma NeutralisationStays(observations: map<Id, Observation>, gate: Level, os: set<Occurrence>, ss: set<Occurrence>)
    requires SomeNeutralises(observations, gate, os, {})
    ensures SomeNeutralises(observations, gate, os, ss)
  {
  }

  /** The full evaluation of one COMPOSITE rule. */
  method EvaluateComposite(k: Knowledge, gate: Level, rid: Id, rule: Rule, c: Context) returns (r: RuleResult)
    ensures r == CompositeResult(k, gate, rid, rule, c)
  {
    var l := PositiveTruthMap(k, gate, c);
    var overrides, blocked := ComputeActiveOverrides(k, rid, rule.categories, TruthOf(l.truth));
    var negatives := ComputeMatchedNegatives(k, gate, c, rule.categories);
    var p := Picture(overrides, blocked, negatives);
    var targets := ActiveSuppressorOccurrences(k, gate, c, p);
    l := ExecuteSuppression(k, gate, c, p, targets, l);
    r := Assemble(k, rid, rule, c, p, l.truth, l.neutralised, l.live);
  }
}
