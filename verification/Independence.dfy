/** Proven independence: how many evidence classes rest on pairwise unconnected live occurrences. */
module Independence {
  import opened Ids
  import opened Domain
  import opened UnionFind
  import opened Matching

  /** One live occurrence group of one matched positive indicator of one eligible rule. */
  datatype Entry = Entry(rule: Id, indicator: Id, evidenceClass: Id, refs: Group)

  predicate Contributes(k: Knowledge, r: RuleResult, i: Id) {
    i in r.matchedPositive && i in k.indicators && k.indicators[i].evidenceClass.Some? && i in r.provenance
  }

  function EntriesOf(k: Knowledge, eligible: set<RuleResult>): set<Entry> {
    set r, i, g | r in eligible && i in r.matchedPositive && Contributes(k, r, i) && g in r.provenance[i] && g != []
      :: Entry(r.ruleId, i, k.indicators[i].evidenceClass.value, SortedUnique(g))
  }

  // ---------------------------------------------------------------- components, independently of the forest

  /** Any two references of one group are connected. */
  ghost function SharedGroups(entries: set<Entry>): set<(Id, Id)> {
    set e, x, y | e in entries && x in e.refs && y in e.refs :: (x, y)
  }

  /** Connected through a chain of groups, each sharing a reference with the next. */
  ghost predicate Connected(entries: set<Entry>, x: Id, y: Id) {
    Linked(SharedGroups(entries), x, y)
  }

  function RefsOf(entries: set<Entry>): set<Id> {
    set e, x | e in entries && x in e.refs :: x
  }

  /** A component is named by its least reference. */
  ghost function Component(entries: set<Entry>, x: Id): (root: Id)
    ensures Connected(entries, x, root)
    ensures forall y :: Connected(entries, x, y) ==> root <= y
  {
    LinkedReflexive(SharedGroups(entries), x);
    var reach := set y | y in RefsOf(entries) + {x} && Connected(entries, x, y);
    assert x in reach;
    assert forall y :: Connected(entries, x, y) ==> y in reach by {
      forall y | Connected(entries, x, y) ensures y in reach {
        if y != x { LinkedOutside(SharedGroups(entries), x, y); }
      }
    }
    Least(reach)
  }

  lemma SameComponent(entries: set<Entry>, x: Id, y: Id)
    ensures Component(entries, x) == Component(entries, y) <==> Connected(entries, x, y)
  {
    var links := SharedGroups(entries);
    if Component(entries, x) == Component(entries, y) {
      LinkedSymmetric(links, y, Component(entries, y));
      LinkedTransitive(links, x, Component(entries, x), y);
    }
    if Connected(entries, x, y) {
      LinkedSymmetric(links, x, y);
      LinkedTransitive(links, x, y, Component(entries, y));
      LinkedTransitive(links, y, x, Component(entries, x));
      assert Connected(entries, x, Component(entries, y)) && Connected(entries, y, Component(entries, x));
    }
  }

  function ClassesIn(entries: set<Entry>): set<Id> {
    set e | e in entries :: e.evidenceClass
  }

  ghost function ComponentsOf(entries: set<Entry>, among: set<Entry>, c: Id): set<Id> {
    set e | e in among && e.evidenceClass == c && e.refs != [] :: Component(entries, e.refs[0])
  }

  /** Which components each evidence class has a live occurrence in. */
  ghost function GraphOf(entries: set<Entry>): Graph {
    map c | c in ClassesIn(entries) :: ComponentsOf(entries, entries, c)
  }

  ghost function ProvenCount(k: Knowledge, eligible: set<RuleResult>): nat {
    var g := GraphOf(EntriesOf(k, eligible));
    MatchingNumber(g, g.Keys)
  }

  ghost function ProvenClasses(k: Knowledge, eligible: set<RuleResult>): set<Id> {
    CanonicalClasses(GraphOf(EntriesOf(k, eligible)))
  }

  function Users(entries: set<Entry>, ref: Id): set<Entry> {
    set e | e in entries && ref in e.refs
  }

  /** References that back more than one occurrence group. */
  function SharedRefs(entries: set<Entry>): set<Id> {
    set x | x in RefsOf(entries) && |Users(entries, x)| > 1
  }

  // ---------------------------------------------------------------- merging

  ghost function Star(refs: Group): set<(Id, Id)>
    requires refs != []
  {
    Spokes(refs[0], refs[1..])
  }

  ghost function Stars(entries: set<Entry>): set<(Id, Id)>
    requires forall e :: e in entries ==> e.refs != []
  {
    set e, r | e in entries && r in e.refs[1..] :: (e.refs[0], r)
  }

  /** Uniting the first reference of each group with the others connects exactly what the groups connect. */
  lemma StarsConnectTheGroups(entries: set<Entry>, x: Id, y: Id)
    requires forall e :: e in entries ==> e.refs != []
    ensures Linked(Stars(entries), x, y) <==> Connected(entries, x, y)
  {
    var stars, shared := Stars(entries), SharedGroups(entries);
    if Linked(stars, x, y) {
      forall a, b | (a, b) in stars ensures Linked(shared, a, b) && Linked(shared, b, a) {
        var e :| e in entries && a == e.refs[0] && b in e.refs[1..];
        assert b in e.refs && (a, b) in shared;
        LinkedDirectly(shared, a, b);
        LinkedDirectly(shared, b, a);
      }
      LinkedMonotone(stars, shared, x, y);
    }
    if Connected(entries, x, y) {
      forall a, b | (a, b) in shared ensures Linked(stars, a, b) && Linked(stars, b, a) {
        var e :| e in entries && a in e.refs && b in e.refs;
        HubConnects(entries, e, a);
        HubConnects(entries, e, b);
        LinkedTransitive(stars, a, e.refs[0], b);
        LinkedTransitive(stars, b, e.refs[0], a);
      }
      LinkedMonotone(shared, stars, x, y);
    }
  }

  lemma HubConnects(entries: set<Entry>, e: Entry, a: Id)
    requires forall e :: e in entries ==> e.refs != []
    requires e in entries && a in e.refs
    ensures Linked(Stars(entries), e.refs[0], a) && Linked(Stars(entries), a, e.refs[0])
  {
    if a == e.refs[0] {
      LinkedReflexive(Stars(entries), a);
    } else {
      assert a in e.refs[1..];
      assert (e.refs[0], a) in Stars(entries);
      LinkedDirectly(Stars(entries), e.refs[0], a);
      LinkedDirectly(Stars(entries), a, e.refs[0]);
    }
  }

  method RegisterAll(uf: DisjointSets, refs: Group)
    requires uf.Valid()
    modifies uf`parent
    ensures uf.Valid()
  {
    for i := 0 to |refs|
      invariant uf.Valid()
    {
      var _ := uf.Find(refs[i]);
    }
  }

  ghost function Spokes(hub: Id, refs: seq<Id>): set<(Id, Id)> {
    set r | r in refs :: (hub, r)
  }

  lemma OneMoreSpoke(hub: Id, refs: seq<Id>, i: nat)
    requires i < |refs|
    ensures Spokes(hub, refs[..i + 1]) == Spokes(hub, refs[..i]) + {(hub, refs[i])}
  {
  }

  method UniteAll(uf: DisjointSets, hub: Id, rest: seq<Id>)
    requires uf.Valid()
    modifies uf
    ensures uf.Valid()
    ensures uf.links == old(uf.links) + Spokes(hub, rest)
  {
    ghost var before := uf.links;
    assert Spokes(hub, rest[..0]) == {};
    for i := 0 to |rest|
      invariant uf.Valid()
      invariant uf.links == before + Spokes(hub, rest[..i])
    {
      OneMoreSpoke(hub, rest, i);
      uf.Union(hub, rest[i]);
    }
    assert rest[..|rest|] == rest;
  }

  method MergeGroup(uf: DisjointSets, refs: Group)
    requires uf.Valid() && refs != []
    modifies uf
    ensures uf.Valid()
    ensures uf.links == old(uf.links) + Star(refs)
  {
    RegisterAll(uf, refs);
    UniteAll(uf, refs[0], refs[1..]);
  }

  method Merge(entries: seq<Entry>) returns (uf: DisjointSets)
    requires forall e :: e in entries ==> e.refs != []
    ensures fresh(uf) && uf.Valid()
    ensures uf.links == Stars(Elems(entries))
  {
    uf := new DisjointSets();
    for i := 0 to |entries|
      invariant fresh(uf) && uf.Valid()
      invariant uf.links == Stars(Elems(entries[..i]))
    {
      MergeGroup(uf, entries[i].refs);
      ElemsOfPrefix(entries, i);
      OneMoreEntry(Elems(entries[..i]), entries[i]);
    }
    assert entries[..|entries|] == entries;
  }

  lemma OneMoreEntry(es: set<Entry>, e: Entry)
    requires forall e :: e in es ==> e.refs != []
    requires e.refs != []
    ensures Stars(es + {e}) == Stars(es) + Star(e.refs)
  {
  }

  /** After merging, the root of a group's first reference names its component. */
  lemma RootIsComponent(uf: DisjointSets, entries: set<Entry>, x: Id)
    requires forall e :: e in entries ==> e.refs != []
    requires uf.Valid() && uf.links == Stars(entries) && x in uf.parent
    ensures Root(uf.parent, x) == Component(entries, x)
  {
    var root, least := Root(uf.parent, x), Component(entries, x);
    RootIsLeast(uf.parent, uf.links, x);
    StarsConnectTheGroups(entries, x, root);
    StarsConnectTheGroups(entries, x, least);
    assert Connected(entries, x, root) && Linked(uf.links, x, least);
  }

  /** The bipartite graph between evidence classes and components. */
  method BuildGraph(uf: DisjointSets, entries: seq<Entry>) returns (g: Graph)
    requires forall e :: e in entries ==> e.refs != []
    requires uf.Valid() && uf.links == Stars(Elems(entries))
    modifies uf`parent
    ensures g == GraphOf(Elems(entries))
  {
    ghost var all := Elems(entries);
    g := map[];
    for i := 0 to |entries|
      invariant uf.Valid()
      invariant g == PartialGraph(all, Elems(entries[..i]))
    {
      var e := entries[i];
      var comp := uf.Find(e.refs[0]);
      RootIsComponent(uf, all, e.refs[0]);
      ElemsOfPrefix(entries, i);
      GraphStep(all, Elems(entries[..i]), e);
      g := g[e.evidenceClass := (if e.evidenceClass in g then g[e.evidenceClass] else {}) + {comp}];
    }
    assert entries[..|entries|] == entries;
  }

  ghost function PartialGraph(all: set<Entry>, among: set<Entry>): Graph {
    map c | c in ClassesIn(among) :: ComponentsOf(all, among, c)
  }

  lemma ComponentsStep(all: set<Entry>, among: set<Entry>, e: Entry, c: Id)
    requires e.refs != []
    ensures ComponentsOf(all, among + {e}, c)
         == ComponentsOf(all, among, c) + if c == e.evidenceClass then {Component(all, e.refs[0])} else {}
  {
  }

  lemma NoComponentsYet(all: set<Entry>, among: set<Entry>, c: Id)
    ensures c !in ClassesIn(among) ==> ComponentsOf(all, among, c) == {}
  {
  }

  lemma UpdateOf<K, V>(m: map<K, V>, m': map<K, V>, k: K, v: V)
    requires forall c :: c in m' <==> c in m || c == k
    requires k in m' && m'[k] == v
    requires forall c :: c in m && c != k ==> c in m' && m'[c] == m[c]
    ensures m' == m[k := v]
  {
  }

  lemma GraphStep(all: set<Entry>, among: set<Entry>, e: Entry)
    requires e.refs != []
    ensures var g := PartialGraph(all, among);
      PartialGraph(all, among + {e}) == g[e.evidenceClass :=
        (if e.evidenceClass in g then g[e.evidenceClass] else {}) + {Component(all, e.refs[0])}]
  {
    var g, g', k := PartialGraph(all, among), PartialGraph(all, among + {e}), e.evidenceClass;
    forall c ensures c in g' <==> c in g || c == k {
      assert ClassesIn(among + {e}) == ClassesIn(among) + {k};
    }
    NoComponentsYet(all, among, k);
    ComponentsStep(all, among, e, k);
    forall c | c in g && c != k ensures g'[c] == g[c] {
      ComponentsStep(all, among, e, c);
    }
    UpdateOf(g, g', k, (if k in g then g[k] else {}) + {Component(all, e.refs[0])});
  }

  // ---------------------------------------------------------------- gathering the entries

  /** The canonical form aggregation puts every result in. */
  ghost predicate Orderly(r: RuleResult) {
    && StrictlyAscending(r.matchedPositive)
    && (forall i :: i in r.provenance ==> NoRepeats(r.provenance[i]))
    && (forall i, g :: i in r.provenance && g in r.provenance[i] ==> StrictlyAscending(g))
  }

  /** `uses` counts, for each reference, the entries it backs. */
  ghost predicate UseCounts(entries: set<Entry>, uses: map<Id, nat>) {
    forall x :: (x in uses <==> Users(entries, x) != {}) && (x in uses ==> uses[x] == |Users(entries, x)|)
  }

  lemma UsersStep(entries: set<Entry>, e: Entry, x: Id)
    requires e !in entries
    ensures Users(entries + {e}, x) == Users(entries, x) + if x in e.refs then {e} else {}
    ensures |Users(entries + {e}, x)| == |Users(entries, x)| + if x in e.refs then 1 else 0
  {
  }

  method CountRefs(ghost entries: set<Entry>, e: Entry, uses: map<Id, nat>) returns (uses': map<Id, nat>)
    requires UseCounts(entries, uses) && e !in entries && StrictlyAscending(e.refs)
    ensures UseCounts(entries + {e}, uses')
  {
    uses' := uses;
    for j := 0 to |e.refs|
      invariant forall x :: x in uses' <==> x in uses || x in e.refs[..j]
      invariant forall x :: x in uses' ==>
        uses'[x] == (if x in uses then uses[x] else 0) + if x in e.refs[..j] then 1 else 0
    {
      var ref := e.refs[j];
      assert e.refs[..j + 1] == e.refs[..j] + [ref];
      assert ref !in e.refs[..j];
      uses' := uses'[ref := (if ref in uses' then uses'[ref] else 0) + 1];
    }
    assert e.refs[..|e.refs|] == e.refs;
    forall x
      ensures x in uses' <==> Users(entries + {e}, x) != {}
      ensures x in uses' ==> uses'[x] == |Users(entries + {e}, x)|
    {
      UsersStep(entries, e, x);
    }
  }

  function IndicatorEntries(k: Knowledge, r: RuleResult, i: Id, groups: set<Group>): set<Entry>
    requires Contributes(k, r, i)
  {
    set g | g in groups && g != [] :: Entry(r.ruleId, i, k.indicators[i].evidenceClass.value, SortedUnique(g))
  }

  function RuleEntries(k: Knowledge, r: RuleResult, ids: set<Id>): set<Entry> {
    set i, g | i in ids && Contributes(k, r, i) && g in r.provenance[i] && g != []
      :: Entry(r.ruleId, i, k.indicators[i].evidenceClass.value, SortedUnique(g))
  }

  method CollectIndicator(k: Knowledge, r: RuleResult, i: Id, entries: seq<Entry>, uses: map<Id, nat>)
    returns (entries': seq<Entry>, uses': map<Id, nat>)
    requires Orderly(r) && Contributes(k, r, i)
    requires UseCounts(Elems(entries), uses)
    requires forall e :: e in entries ==> e.rule != r.ruleId || e.indicator != i
    ensures Elems(entries') == Elems(entries) + IndicatorEntries(k, r, i, Elems(r.provenance[i]))
    ensures UseCounts(Elems(entries'), uses')
  {
    var groups := r.provenance[i];
    entries', uses' := entries, uses;
    for j := 0 to |groups|
      invariant Elems(entries') == Elems(entries) + IndicatorEntries(k, r, i, Elems(groups[..j]))
      invariant UseCounts(Elems(entries'), uses')
    {
      var g := groups[j];
      ElemsOfPrefix(groups, j);
      if g != [] {
        var e := Entry(r.ruleId, i, k.indicators[i].evidenceClass.value, SortedUnique(g));
        NewEntry(k, r, i, j, Elems(entries));
        uses' := CountRefs(Elems(entries'), e, uses');
        ElemsAppend(entries', e);
        entries' := entries' + [e];
      }
      EntriesStep(k, r, i, Elems(groups[..j]), g);
    }
    assert groups[..|groups|] == groups;
  }

  lemma EntriesStep(k: Knowledge, r: RuleResult, i: Id, groups: set<Group>, g: Group)
    requires Contributes(k, r, i)
    ensures IndicatorEntries(k, r, i, groups + {g}) == IndicatorEntries(k, r, i, groups) +
      if g != [] then {Entry(r.ruleId, i, k.indicators[i].evidenceClass.value, SortedUnique(g))} else {}
  {
  }

  /** In canonical form different groups of an indicator are different entries. */
  lemma NewEntry(k: Knowledge, r: RuleResult, i: Id, j: nat, others: set<Entry>)
    requires Orderly(r) && Contributes(k, r, i) && j < |r.provenance[i]|
    requires forall e :: e in others ==> e.rule != r.ruleId || e.indicator != i
    ensures Entry(r.ruleId, i, k.indicators[i].evidenceClass.value, SortedUnique(r.provenance[i][j]))
        !in others + IndicatorEntries(k, r, i, Elems(r.provenance[i][..j]))
  {
    var groups := r.provenance[i];
    forall g | g in Elems(groups[..j]) ensures SortedUnique(g) != SortedUnique(groups[j]) {
      var n :| 0 <= n < j && groups[n] == g;
      assert groups[n] in groups && groups[j] in groups;
      AscendingIsUnique(SortedUnique(g), g);
      AscendingIsUnique(SortedUnique(groups[j]), groups[j]);
    }
  }

  method CollectRule(k: Knowledge, r: RuleResult, entries: seq<Entry>, uses: map<Id, nat>)
    returns (entries': seq<Entry>, uses': map<Id, nat>)
    requires Orderly(r) && UseCounts(Elems(entries), uses)
    requires forall e :: e in entries ==> e.rule != r.ruleId
    ensures Elems(entries') == Elems(entries) + RuleEntries(k, r, Elems(r.matchedPositive))
    ensures UseCounts(Elems(entries'), uses')
  {
    entries', uses' := entries, uses;
    for j := 0 to |r.matchedPositive|
      invariant Elems(entries') == Elems(entries) + RuleEntries(k, r, Elems(r.matchedPositive[..j]))
      invariant UseCounts(Elems(entries'), uses')
    {
      var i := r.matchedPositive[j];
      ElemsOfPrefix(r.matchedPositive, j);
      RuleEntriesStep(k, r, Elems(r.matchedPositive[..j]), i);
      if Contributes(k, r, i) {
        forall e | e in entries' ensures e.rule != r.ruleId || e.indicator != i {
          assert e in Elems(entries');
        }
        entries', uses' := CollectIndicator(k, r, i, entries', uses');
      }
    }
    assert r.matchedPositive[..|r.matchedPositive|] == r.matchedPositive;
  }

  lemma RuleEntriesStep(k: Knowledge, r: RuleResult, ids: set<Id>, i: Id)
    ensures RuleEntries(k, r, ids + {i}) == RuleEntries(k, r, ids) +
      if Contributes(k, r, i) then IndicatorEntries(k, r, i, Elems(r.provenance[i])) else {}
  {
  }

  ghost predicate DistinctRules(rs: seq<RuleResult>) {
    forall i, j :: 0 <= i < j < |rs| ==> rs[i].ruleId != rs[j].ruleId
  }

  method CollectEntries(k: Knowledge, eligible: seq<RuleResult>) returns (entries: seq<Entry>, uses: map<Id, nat>)
    requires DistinctRules(eligible) && forall r :: r in eligible ==> Orderly(r)
    ensures Elems(entries) == EntriesOf(k, Elems(eligible))
    ensures UseCounts(Elems(entries), uses)
  {
    entries, uses := [], map[];
    for j := 0 to |eligible|
      invariant Elems(entries) == EntriesOf(k, Elems(eligible[..j]))
      invariant UseCounts(Elems(entries), uses)
    {
      ElemsOfPrefix(eligible, j);
      EligibleStep(k, Elems(eligible[..j]), eligible[j]);
      forall e | e in entries ensures e.rule != eligible[j].ruleId {
        assert e in Elems(entries);
      }
      entries, uses := CollectRule(k, eligible[j], entries, uses);
    }
    assert eligible[..|eligible|] == eligible;
  }

  lemma EligibleStep(k: Knowledge, eligible: set<RuleResult>, r: RuleResult)
    ensures EntriesOf(k, eligible + {r}) == EntriesOf(k, eligible) + RuleEntries(k, r, Elems(r.matchedPositive))
  {
  }

  lemma EntriesHaveRefs(k: Knowledge, eligible: set<RuleResult>)
    ensures forall e :: e in EntriesOf(k, eligible) ==> e.refs != [] && StrictlyAscending(e.refs)
  {
    forall e | e in EntriesOf(k, eligible) ensures e.refs != [] {
      var r, i, g :| r in eligible && i in r.matchedPositive && Contributes(k, r, i) && g in r.provenance[i] && g != []
        && e == Entry(r.ruleId, i, k.indicators[i].evidenceClass.value, SortedUnique(g));
      assert g[0] in Elems(e.refs);
    }
  }

  /** Proven-independent evidence: the count, the classes, and the references used more than once. */
  method ProvenIndependence(k: Knowledge, eligible: seq<RuleResult>) returns (count: nat, classes: set<Id>, shared: set<Id>)
    requires DistinctRules(eligible) && forall r :: r in eligible ==> Orderly(r)
    ensures count == ProvenCount(k, Elems(eligible))
    ensures classes == ProvenClasses(k, Elems(eligible)) && |classes| == count
    ensures shared == SharedRefs(EntriesOf(k, Elems(eligible)))
  {
    var entries, uses := CollectEntries(k, eligible);
    EntriesHaveRefs(k, Elems(eligible));
    forall e | e in entries ensures e.refs != [] {
      assert e in Elems(entries);
    }
    var uf := Merge(entries);
    var graph := BuildGraph(uf, entries);
    count, classes := MaxBipartiteMatching(graph);
    shared := set x | x in uses && uses[x] > 1;
    forall x ensures x in RefsOf(Elems(entries)) <==> Users(Elems(entries), x) != {} {
      if x in RefsOf(Elems(entries)) {
        var e :| e in Elems(entries) && x in e.refs;
        assert e in Users(Elems(entries), x);
      }
    }
  }

  // ---------------------------------------------------------------- what the count means

  /** Live groups of pairwise different classes, no two of them connected. */
  ghost predicate IndependentFamily(entries: set<Entry>, family: set<Entry>) {
    family <= entries && forall a, b :: a in family && b in family && a != b ==> Independent(entries, a, b)
  }

  ghost predicate Independent(entries: set<Entry>, a: Entry, b: Entry) {
    a.evidenceClass != b.evidenceClass && forall x, y :: x in a.refs && y in b.refs ==> !Connected(entries, x, y)
  }

  ghost predicate Witnesses(entries: set<Entry>, e: Entry, comp: Id, c: Id) {
    e in entries && e.evidenceClass == c && e.refs != [] && Component(entries, e.refs[0]) == comp
  }

  /** All references of one group are in its component. */
  lemma GroupInComponent(entries: set<Entry>, e: Entry, x: Id)
    requires e in entries && x in e.refs
    ensures Component(entries, x) == Component(entries, e.refs[0])
  {
    assert (x, e.refs[0]) in SharedGroups(entries);
    LinkedDirectly(SharedGroups(entries), x, e.refs[0]);
    assert Connected(entries, x, e.refs[0]);
    SameComponent(entries, x, e.refs[0]);
  }

  lemma EdgeWitness(entries: set<Entry>, m: map<Id, Id>, comp: Id) returns (e: Entry)
    requires AlongEdges(GraphOf(entries), m) && comp in m
    ensures Witnesses(entries, e, comp, m[comp])
  {
    assert comp in GraphOf(entries)[m[comp]];
    e :| e in entries && e.evidenceClass == m[comp] && e.refs != [] && Component(entries, e.refs[0]) == comp;
  }

  ghost predicate Served(entries: set<Entry>, m: map<Id, Id>, e: Entry) {
    e.refs != [] && Component(entries, e.refs[0]) in m && m[Component(entries, e.refs[0])] == e.evidenceClass
  }

  /** The same through component names. */
  ghost predicate Apart(entries: set<Entry>, a: Entry, b: Entry) {
    && a.refs != [] && b.refs != []
    && a.evidenceClass != b.evidenceClass && Component(entries, a.refs[0]) != Component(entries, b.refs[0])
  }

  ghost predicate PairwiseApart(entries: set<Entry>, family: set<Entry>) {
    forall a, b :: a in family && b in family && a != b ==> Apart(entries, a, b)
  }

  lemma ApartIsIndependent(entries: set<Entry>, a: Entry, b: Entry)
    requires a in entries && b in entries && a.refs != [] && b.refs != []
    ensures Apart(entries, a, b) <==> Independent(entries, a, b)
  {
    forall x, y | x in a.refs && y in b.refs
      ensures Connected(entries, x, y) <==> Component(entries, a.refs[0]) == Component(entries, b.refs[0])
    {
      GroupInComponent(entries, a, x);
      GroupInComponent(entries, b, y);
      SameComponent(entries, x, y);
    }
    assert a.refs[0] in a.refs && b.refs[0] in b.refs;
  }

  lemma ApartFamilies(entries: set<Entry>, family: set<Entry>)
    requires family <= entries && forall e :: e in entries ==> e.refs != []
    ensures PairwiseApart(entries, family) <==> IndependentFamily(entries, family)
  {
    forall a, b | a in family && b in family
      ensures Apart(entries, a, b) <==> Independent(entries, a, b)
    {
      ApartIsIndependent(entries, a, b);
    }
  }

  lemma ServedElsewhere(entries: set<Entry>, m: map<Id, Id>, comp: Id, e: Entry, f: Entry)
    requires Injective(m) && comp in m && Witnesses(entries, e, comp, m[comp])
    requires Served(entries, m - {comp}, f)
    ensures Served(entries, m, f) && Apart(entries, e, f) && Apart(entries, f, e)
  {
  }

  lemma FamilyGrows(entries: set<Entry>, family: set<Entry>, e: Entry)
    requires PairwiseApart(entries, family)
    requires forall f :: f in family ==> Apart(entries, e, f) && Apart(entries, f, e)
    ensures PairwiseApart(entries, family + {e}) && e !in family
    ensures |family + {e}| == |family| + 1
  {
  }

  lemma WithoutComponent(g: Graph, m: map<Id, Id>, comp: Id)
    requires AlongEdges(g, m) && Injective(m) && comp in m
    ensures AlongEdges(g, m - {comp}) && Injective(m - {comp})
    ensures |m - {comp}| == |m| - 1
  {
  }

  /** A matching picks out an independent family of the same size. */
  lemma {:induction false} FamilyOfMatching(entries: set<Entry>, m: map<Id, Id>) returns (family: set<Entry>)
    requires AlongEdges(GraphOf(entries), m) && Injective(m)
    ensures family <= entries && |family| == |m|
    ensures forall e :: e in family ==> Served(entries, m, e)
    ensures PairwiseApart(entries, family)
    decreases |m|
  {
    if m == map[] {
      family := {};
    } else {
      var comp :| comp in m;
      WithoutComponent(GraphOf(entries), m, comp);
      var rest := FamilyOfMatching(entries, m - {comp});
      var e := EdgeWitness(entries, m, comp);
      forall f | f in rest ensures Served(entries, m, f) && Apart(entries, e, f) && Apart(entries, f, e) {
        ServedElsewhere(entries, m, comp, e, f);
      }
      FamilyGrows(entries, rest, e);
      family := rest + {e};
    }
  }

  ghost predicate Realises(entries: set<Entry>, family: set<Entry>, m: map<Id, Id>) {
    forall comp :: comp in m ==> exists e :: e in family && Witnesses(entries, e, comp, m[comp])
  }

  lemma {:induction false} MatchingOfFamily(entries: set<Entry>, family: set<Entry>) returns (m: map<Id, Id>)
    requires family <= entries && PairwiseApart(entries, family) && forall e :: e in family ==> e.refs != []
    ensures Injective(m) && |m| == |family|
    ensures Realises(entries, family, m)
    decreases |family|
  {
    if family == {} {
      m := map[];
    } else {
      var e :| e in family;
      var less := family - {e};
      assert PairwiseApart(entries, less);
      var rest := MatchingOfFamily(entries, less);
      m := rest[Component(entries, e.refs[0]) := e.evidenceClass];
      assert Witnesses(entries, e, Component(entries, e.refs[0]), e.evidenceClass);
      forall c | c in rest
        ensures c != Component(entries, e.refs[0]) && rest[c] != e.evidenceClass
        ensures exists f :: f in family && Witnesses(entries, f, c, rest[c])
      {
        var f :| f in less && Witnesses(entries, f, c, rest[c]);
        assert Apart(entries, e, f);
      }
      assert m.Keys == rest.Keys + {Component(entries, e.refs[0])};
    }
  }

  lemma RealisedFollowsEdges(entries: set<Entry>, family: set<Entry>, m: map<Id, Id>)
    requires Realises(entries, family, m)
    ensures AlongEdges(GraphOf(entries), m) && UsesOnly(m, GraphOf(entries).Keys)
  {
  }

  lemma LargestMatching(g: Graph) returns (m: map<Id, Id>)
    ensures IsMatching(g, g.Keys, m) && |m| == MatchingNumber(g, g.Keys)
  {
    m :| IsMatching(g, g.Keys, m) && |m| == MatchingNumber(g, g.Keys);
  }

  lemma LargestFamily(k: Knowledge, eligible: set<RuleResult>) returns (family: set<Entry>)
    ensures IndependentFamily(EntriesOf(k, eligible), family) && |family| == ProvenCount(k, eligible)
  {
    var entries := EntriesOf(k, eligible);
    EntriesHaveRefs(k, eligible);
    var m := LargestMatching(GraphOf(entries));
    family := FamilyOfMatching(entries, m);
    ApartFamilies(entries, family);
  }

  lemma FamilyIsBounded(k: Knowledge, eligible: set<RuleResult>, family: set<Entry>)
    requires IndependentFamily(EntriesOf(k, eligible), family)
    ensures |family| <= ProvenCount(k, eligible)
  {
    var entries := EntriesOf(k, eligible);
    EntriesHaveRefs(k, eligible);
    ApartFamilies(entries, family);
    var m := MatchingOfFamily(entries, family);
    RealisedFollowsEdges(entries, family, m);
    assert IsMatching(GraphOf(entries), GraphOf(entries).Keys, m);
  }

  /** The proven count is exactly the size of a largest independent family. */
  lemma CountIsLargestIndependentFamily(k: Knowledge, eligible: set<RuleResult>)
    ensures exists family :: IndependentFamily(EntriesOf(k, eligible), family) && |family| == ProvenCount(k, eligible)
    ensures forall family :: IndependentFamily(EntriesOf(k, eligible), family) ==> |family| <= ProvenCount(k, eligible)
  {
    var largest := LargestFamily(k, eligible);
    forall family | IndependentFamily(EntriesOf(k, eligible), family) ensures |family| <= ProvenCount(k, eligible) {
      FamilyIsBounded(k, eligible, family);
    }
  }
}
