/** The reverse indexes of the runtime knowledge, and the linear scans they replace. */
module Indexes {
  import opened Ids
  import opened Conditions
  import opened Domain
  import opened Evaluator

  datatype RuleRecord = RuleRecord(id: Id, rule: Rule)
  datatype NegativeRecord = NegativeRecord(id: Id, active: bool, negative: Negative)
  datatype OverrideRecord = OverrideRecord(id: Id, override: Override)

  /** The parsed components, ids already checked to be distinct. */
  datatype Components = Components(
    rules: seq<RuleRecord>, indicators: set<Id>, negatives: seq<NegativeRecord>, overrides: seq<OverrideRecord>)

  type Index = map<Id, seq<Id>>

  /** What a lookup returns: an absent key is an empty tuple. */
  function Get(index: Index, key: Id): seq<Id> {
    if key in index then index[key] else []
  }

  // ---------------------------------------------------------------- building one reverse index

  /** `index` lists `v` under `k` exactly for the pairs given, and has no empty entry. */
  ghost predicate Lists(index: Index, pairs: set<(Id, Id)>) {
    && (forall k: Id, v: Id :: v in Get(index, k) <==> (k, v) in pairs)
    && (forall k :: k in index ==> Get(index, k) != [])
  }

  function Postings(keys: set<Id>, id: Id): set<(Id, Id)> {
    set k | k in keys :: (k, id)
  }

  /** `index.setdefault(key, []).append(id)` for every key. */
  method Post(index: Index, keys: set<Id>, id: Id, ghost pairs: set<(Id, Id)>) returns (out: Index)
    requires Lists(index, pairs)
    ensures Lists(out, pairs + Postings(keys, id))
  {
    out := index;
    var order := Ascending(keys);
    for i := 0 to |order|
      invariant Lists(out, pairs + Postings(Elems(order[..i]), id))
    {
      ghost var before := out;
      var key := order[i];
      out := out[key := Get(out, key) + [id]];
      ElemsOfPrefix(order, i);
      PostOne(before, out, key, id, pairs + Postings(Elems(order[..i]), id));
      assert Postings(Elems(order[..i + 1]), id) == Postings(Elems(order[..i]), id) + {(key, id)};
      assert pairs + Postings(Elems(order[..i + 1]), id) == pairs + Postings(Elems(order[..i]), id) + {(key, id)};
    }
    assert order[..|order|] == order;
  }

  lemma PostOne(index: Index, out: Index, key: Id, id: Id, pairs: set<(Id, Id)>)
    requires Lists(index, pairs) && out == index[key := Get(index, key) + [id]]
    ensures Lists(out, pairs + {(key, id)})
  {
  }

  /** `_sorted_tuple` of every entry. */
  function Sorted(index: Index): Index {
    map k | k in index :: SortedUnique(index[k])
  }

  function Column(pairs: set<(Id, Id)>, key: Id): set<Id> {
    set p | p in pairs && p.0 == key :: p.1
  }

  /** A finished index answers with the sorted column of its pairs. */
  lemma SortedAnswers(index: Index, pairs: set<(Id, Id)>, key: Id)
    requires Lists(index, pairs)
    ensures Get(Sorted(index), key) == Ascending(Column(pairs, key))
    ensures key in Sorted(index) <==> Column(pairs, key) != {}
  {
    forall v ensures v in Column(pairs, key) <==> v in Get(index, key) {
      assert v in Get(index, key) <==> (key, v) in pairs;
    }
    assert Column(pairs, key) == Elems(Get(index, key));
    if key in index {
      assert Get(index, key)[0] in Elems(Get(index, key));
    } else {
      assert Ascending({}) == [];
    }
  }

  // ---------------------------------------------------------------- rules by operand and by category

  /** The linear scans. */
  function RulesOn(c: Components, i: Id): set<Id> {
    set r | r in c.rules && r.rule.published && i in Operands(r.rule.require) :: r.id
  }

  function RulesUnder(c: Components, category: Id): set<Id> {
    set r | r in c.rules && r.rule.published && category in r.rule.categories :: r.id
  }

  method RulesByIndicator(c: Components) returns (index: Index)
    ensures forall i :: Get(index, i) == if i in c.indicators then Ascending(RulesOn(c, i)) else []
  {
    index := map[];
    ghost var pairs: set<(Id, Id)> := {};
    for j := 0 to |c.rules|
      invariant Lists(index, pairs)
      invariant forall i: Id, id: Id :: (i, id) in pairs <==> i in c.indicators && id in RulesOn(c.(rules := c.rules[..j]), i)
    {
      var r := c.rules[j];
      assert c.rules[..j + 1] == c.rules[..j] + [r];
      if r.rule.published {
        var keys := Operands(r.rule.require) * c.indicators;
        index := Post(index, keys, r.id, pairs);
        pairs := pairs + Postings(keys, r.id);
      }
    }
    assert c.(rules := c.rules[..|c.rules|]) == c;
    forall i ensures Get(Sorted(index), i) == if i in c.indicators then Ascending(RulesOn(c, i)) else [] {
      SortedAnswers(index, pairs, i);
      assert Column(pairs, i) == if i in c.indicators then RulesOn(c, i) else {};
      assert Ascending({}) == [];
    }
    index := Sorted(index);
  }

  /** The lookups of indicators name COMPOSITE rules only. */
  ghost predicate ListsCompositesOnly(c: Components) {
    forall i, r :: i in c.indicators && r in c.rules && r.id in RulesOn(c, i) ==> r.rule.kind.Composite?
  }

  /** A published SUPPRESSION rule reads a positive indicator. */
  ghost predicate SuppressesOnPositive(c: Components) {
    exists r :: r in c.rules && r.rule.published && r.rule.kind.Suppression? && Operands(r.rule.require) * c.indicators != {}
  }

  /** No branch of the index reads the rule kind; that it lists COMPOSITE rules comes from the polarity of
      operands, and from nothing else. */
  lemma CompositesOnlyExactly(c: Components)
    requires forall i, j :: 0 <= i < j < |c.rules| ==> c.rules[i].id != c.rules[j].id
    ensures ListsCompositesOnly(c) <==> !SuppressesOnPositive(c)
  {
    if SuppressesOnPositive(c) {
      var r :| r in c.rules && r.rule.published && r.rule.kind.Suppression? && Operands(r.rule.require) * c.indicators != {};
      var i :| i in Operands(r.rule.require) * c.indicators;
      assert r.id in RulesOn(c, i);
    } else {
      forall i, r | i in c.indicators && r in c.rules && r.id in RulesOn(c, i) ensures r.rule.kind.Composite? {
        var s :| s in c.rules && s.rule.published && i in Operands(s.rule.require) && s.id == r.id;
        assert s == r;
        assert i in Operands(r.rule.require) * c.indicators;
      }
    }
  }

  method RulesByCategory(c: Components) returns (index: Index)
    ensures forall category :: Get(index, category) == Ascending(RulesUnder(c, category))
  {
    index := map[];
    ghost var pairs: set<(Id, Id)> := {};
    for j := 0 to |c.rules|
      invariant Lists(index, pairs)
      invariant forall i: Id, id: Id :: (i, id) in pairs <==> id in RulesUnder(c.(rules := c.rules[..j]), i)
    {
      var r := c.rules[j];
      assert c.rules[..j + 1] == c.rules[..j] + [r];
      if r.rule.published {
        index := Post(index, r.rule.categories, r.id, pairs);
        pairs := pairs + Postings(r.rule.categories, r.id);
      }
    }
    assert c.(rules := c.rules[..|c.rules|]) == c;
    forall i ensures Get(Sorted(index), i) == Ascending(RulesUnder(c, i)) {
      SortedAnswers(index, pairs, i);
      assert Column(pairs, i) == RulesUnder(c, i);
    }
    index := Sorted(index);
  }

  // ---------------------------------------------------------------- overrides by operand and by target

  function OverridesOn(c: Components, i: Id): set<Id> {
    set o | o in c.overrides && i in Operands(o.override.condition) :: o.id
  }

  function OverridesTargeting(c: Components, target: Id): set<Id> {
    set o | o in c.overrides && target in o.override.families + o.override.rules :: o.id
  }

  method OverrideIndexes(c: Components) returns (byIndicator: Index, byTarget: Index)
    ensures forall i :: Get(byIndicator, i) == Ascending(OverridesOn(c, i))
    ensures forall target :: Get(byTarget, target) == Ascending(OverridesTargeting(c, target))
  {
    byIndicator, byTarget := map[], map[];
    ghost var on: set<(Id, Id)>, targeting: set<(Id, Id)> := {}, {};
    for j := 0 to |c.overrides|
      invariant Lists(byIndicator, on) && Lists(byTarget, targeting)
      invariant forall i: Id, id: Id :: (i, id) in on <==> id in OverridesOn(c.(overrides := c.overrides[..j]), i)
      invariant forall i: Id, id: Id :: (i, id) in targeting <==> id in OverridesTargeting(c.(overrides := c.overrides[..j]), i)
    {
      var o := c.overrides[j];
      assert c.overrides[..j + 1] == c.overrides[..j] + [o];
      var operands, targets := Operands(o.override.condition), o.override.families + o.override.rules;
      byIndicator := Post(byIndicator, operands, o.id, on);
      byTarget := Post(byTarget, targets, o.id, targeting);
      on, targeting := on + Postings(operands, o.id), targeting + Postings(targets, o.id);
    }
    assert c.(overrides := c.overrides[..|c.overrides|]) == c;
    forall i
      ensures Get(Sorted(byIndicator), i) == Ascending(OverridesOn(c, i))
      ensures Get(Sorted(byTarget), i) == Ascending(OverridesTargeting(c, i))
    {
      SortedAnswers(byIndicator, on, i);
      assert Column(on, i) == OverridesOn(c, i);
      SortedAnswers(byTarget, targeting, i);
      assert Column(targeting, i) == OverridesTargeting(c, i);
    }
    byIndicator, byTarget := Sorted(byIndicator), Sorted(byTarget);
  }

  // ---------------------------------------------------------------- negatives by rule
  // the evaluator's own filter, restricted to active negatives

  /** `k` holds the negatives of `c`. */
  ghost predicate SameNegatives(k: Knowledge, c: Components) {
    && (forall n :: n in c.negatives ==> n.id in k.negatives && k.negatives[n.id] == n.negative)
    && (forall id :: id in k.negatives ==> exists n :: n in c.negatives && n.id == id)
  }

  function ActiveIds(c: Components): set<Id> {
    set n | n in c.negatives && n.active :: n.id
  }

  /** A published rule has the id. */
  ghost predicate PublishedAs(rules: seq<RuleRecord>, id: Id) {
    exists r :: r in rules && r.rule.published && r.id == id
  }

  method NegativesByRule(k: Knowledge, c: Components) returns (index: Index)
    requires SameNegatives(k, c)
    requires forall i, j :: 0 <= i < j < |c.rules| ==> c.rules[i].id != c.rules[j].id
    ensures forall r :: r in c.rules && r.rule.published ==>
      r.id in index && index[r.id] == Ascending(set n | n in ActiveIds(c) && NegativeApplies(k, n, r.rule.categories))
    ensures forall id :: id in index ==> PublishedAs(c.rules, id)
  {
    index := map[];
    for j := 0 to |c.rules|
      invariant forall id :: id in index ==> PublishedAs(c.rules[..j], id)
      invariant forall r :: r in c.rules[..j] && r.rule.published ==>
        r.id in index && index[r.id] == Ascending(set n | n in ActiveIds(c) && NegativeApplies(k, n, r.rule.categories))
    {
      var r := c.rules[j];
      assert c.rules[..j + 1] == c.rules[..j] + [r];
      if r.rule.published {
        var applicable := Applicable(k, c, r.rule.categories);
        index := index[r.id := applicable];
      }
    }
    assert c.rules[..|c.rules|] == c.rules;
  }

  method Applicable(k: Knowledge, c: Components, categories: set<Id>) returns (ids: seq<Id>)
    requires SameNegatives(k, c)
    ensures ids == Ascending(set n | n in ActiveIds(c) && NegativeApplies(k, n, categories))
  {
    ids := [];
    for j := 0 to |c.negatives|
      invariant Elems(ids) == set n | n in c.negatives[..j] && n.active && NegativeApplies(k, n.id, categories) :: n.id
    {
      var n := c.negatives[j];
      assert c.negatives[..j + 1] == c.negatives[..j] + [n];
      if n.active && (n.negative.everyFamily || n.negative.families * categories != {}) {
        ElemsAppend(ids, n.id);
        ids := ids + [n.id];
      }
    }
    assert c.negatives[..|c.negatives|] == c.negatives;
    assert Elems(ids) == set n | n in ActiveIds(c) && NegativeApplies(k, n, categories) by {
      forall id ensures id in Elems(ids) <==> id in ActiveIds(c) && NegativeApplies(k, id, categories) {
      }
    }
    ids := SortedUnique(ids);
  }
}
