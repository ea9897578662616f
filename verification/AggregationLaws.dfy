/** Aggregation is a function of what its inputs say, not of how they are written down. */
module AggregationLaws {
  import opened Ids
  import opened Domain
  import opened SuppressionLaws
  import opened Independence
  import opened Aggregation

  // ---------------------------------------------------------------- spellings of one result

  /** Some group of `q` has the references of `g`, in any order and with any repetitions. */
  ghost predicate ListedIn(g: Group, q: seq<Group>) {
    exists h :: h in q && Elems(h) == Elems(g)
  }

  ghost predicate SameGroups(p: seq<Group>, q: seq<Group>) {
    (forall g :: g in p ==> ListedIn(g, q)) && (forall g :: g in q ==> ListedIn(g, p))
  }

  ghost predicate SameProvenance(p: map<Id, seq<Group>>, q: map<Id, seq<Group>>) {
    && (forall i :: i in p <==> i in q)
    && (forall i :: i in p && i in q ==> SameGroups(p[i], q[i]))
  }

  /** Two spellings of one result, groups included. */
  ghost predicate SameSpelling(r: RuleResult, r': RuleResult) {
    && SameUpToOrder(r.(provenance := map[]), r'.(provenance := map[]))
    && SameProvenance(r.provenance, r'.provenance)
  }

  function SortedForms(groups: seq<Group>): set<Group> {
    set g | g in groups :: SortedUnique(g)
  }

  lemma ListedForms(p: seq<Group>, q: seq<Group>)
    requires forall g :: g in p ==> ListedIn(g, q)
    ensures SortedForms(p) <= SortedForms(q)
  {
    forall f | f in SortedForms(p) ensures f in SortedForms(q) {
      var g :| g in p && SortedUnique(g) == f;
      assert ListedIn(g, q);
      var h :| h in q && Elems(h) == Elems(g);
      assert SortedUnique(h) == f;
    }
  }

  lemma FormsAreListed(p: seq<Group>, q: seq<Group>, g: Group)
    requires SortedForms(p) == SortedForms(q) && g in p
    ensures ListedIn(g, q)
  {
    assert SortedUnique(g) in SortedForms(q);
    var h :| h in q && SortedUnique(h) == SortedUnique(g);
    assert Elems(SortedUnique(h)) == Elems(h) && Elems(SortedUnique(g)) == Elems(g);
  }

  lemma SameGroupsSameForms(p: seq<Group>, q: seq<Group>)
    ensures SameGroups(p, q) <==> SortedForms(p) == SortedForms(q)
  {
    if SameGroups(p, q) {
      ListedForms(p, q);
      ListedForms(q, p);
    }
    if SortedForms(p) == SortedForms(q) {
      forall g | g in p ensures ListedIn(g, q) {
        FormsAreListed(p, q, g);
      }
      forall g | g in q ensures ListedIn(g, p) {
        FormsAreListed(q, p, g);
      }
    }
  }

  lemma SameGroupsSameForm(p: seq<Group>, q: seq<Group>)
    ensures SameGroups(p, q) <==> SortedGroups(SortedForms(p)) == SortedGroups(SortedForms(q))
  {
    SameGroupsSameForms(p, q);
    assert Elems(SortedGroups(SortedForms(p))) == SortedForms(p);
    assert Elems(SortedGroups(SortedForms(q))) == SortedForms(q);
  }

  lemma CanonicalAt(p: map<Id, seq<Group>>, q: map<Id, seq<Group>>, i: Id)
    ensures i in CanonicalProvenance(p) <==> i in p
    ensures i in p && i in q ==> (SameGroups(p[i], q[i]) <==> CanonicalProvenance(p)[i] == CanonicalProvenance(q)[i])
  {
    if i in p && i in q {
      SameGroupsSameForm(p[i], q[i]);
      assert CanonicalProvenance(p)[i] == SortedGroups(SortedForms(p[i]));
      assert CanonicalProvenance(q)[i] == SortedGroups(SortedForms(q[i]));
    }
  }

  lemma SameProvenanceIsCanonical(p: map<Id, seq<Group>>, q: map<Id, seq<Group>>)
    requires SameProvenance(p, q)
    ensures CanonicalProvenance(p) == CanonicalProvenance(q)
  {
    forall i
      ensures i in CanonicalProvenance(p) <==> i in CanonicalProvenance(q)
      ensures i in CanonicalProvenance(p) ==> CanonicalProvenance(p)[i] == CanonicalProvenance(q)[i]
    {
      CanonicalAt(p, q, i);
      CanonicalAt(q, p, i);
    }
  }

  lemma CanonicalIsSameProvenance(p: map<Id, seq<Group>>, q: map<Id, seq<Group>>)
    requires CanonicalProvenance(p) == CanonicalProvenance(q)
    ensures SameProvenance(p, q)
  {
    forall i
      ensures i in p <==> i in q
      ensures i in p ==> SameGroups(p[i], q[i])
    {
      CanonicalAt(p, q, i);
      CanonicalAt(q, p, i);
    }
  }

  lemma SameProvenanceSameForm(p: map<Id, seq<Group>>, q: map<Id, seq<Group>>)
    ensures SameProvenance(p, q) <==> CanonicalProvenance(p) == CanonicalProvenance(q)
  {
    if SameProvenance(p, q) { SameProvenanceIsCanonical(p, q); }
    if CanonicalProvenance(p) == CanonicalProvenance(q) { CanonicalIsSameProvenance(p, q); }
  }

  /** Canonical copies agree exactly for the spellings of one result. */
  lemma CanonicalCopyIsExact(r: RuleResult, r': RuleResult)
    ensures SameSpelling(r, r') <==> CanonicalCopy(r) == CanonicalCopy(r')
  {
    var bare, bare' := r.(provenance := map[]), r'.(provenance := map[]);
    CanonicalFormIsExact(bare, bare');
    SameProvenanceSameForm(r.provenance, r'.provenance);
    assert CanonicalCopy(r) == CanonicalArrays(bare).(provenance := CanonicalProvenance(r.provenance));
    assert CanonicalCopy(r') == CanonicalArrays(bare').(provenance := CanonicalProvenance(r'.provenance));
    assert CanonicalArrays(bare).provenance == map[] == CanonicalArrays(bare').provenance;
  }

  // ---------------------------------------------------------------- determinism

  ghost predicate Rearranged(rs: seq<RuleResult>, rs': seq<RuleResult>, p: seq<nat>, q: seq<nat>) {
    && |rs| == |rs'| && Permutes(p, q, |rs|)
    && forall i :: 0 <= i < |rs| ==> SameSpelling(rs[i], rs'[p[i]])
  }

  lemma RearrangedCopies(rs: seq<RuleResult>, rs': seq<RuleResult>, p: seq<nat>, q: seq<nat>)
    requires Rearranged(rs, rs', p, q)
    ensures forall i :: 0 <= i < |rs| ==> CanonicalCopy(rs[i]) == CanonicalCopy(rs'[p[i]])
    ensures forall j :: 0 <= j < |rs| ==> CanonicalCopy(rs[q[j]]) == CanonicalCopy(rs'[j])
  {
    forall i | 0 <= i < |rs| ensures CanonicalCopy(rs[i]) == CanonicalCopy(rs'[p[i]]) {
      CanonicalCopyIsExact(rs[i], rs'[p[i]]);
    }
    forall j | 0 <= j < |rs| ensures CanonicalCopy(rs[q[j]]) == CanonicalCopy(rs'[j]) {
      CanonicalCopyIsExact(rs[q[j]], rs'[p[q[j]]]);
    }
  }

  lemma CopyDecidesAdmission(k: Knowledge, r: RuleResult, r': RuleResult)
    requires CanonicalCopy(r) == CanonicalCopy(r')
    ensures Admitted(k, r) <==> Admitted(k, r')
    ensures r.ruleId == r'.ruleId
  {
    assert HasAggregationFields(CanonicalCopy(r)) <==> HasAggregationFields(r);
    assert HasAggregationFields(CanonicalCopy(r')) <==> HasAggregationFields(r');
    assert CanonicalCopy(r).ruleId == r.ruleId && CanonicalCopy(r').ruleId == r'.ruleId;
  }

  lemma RearrangedAccepted(k: Knowledge, rs: seq<RuleResult>, rs': seq<RuleResult>, p: seq<nat>, q: seq<nat>)
    requires Rearranged(rs, rs', p, q) && Accepted(k, rs)
    ensures Accepted(k, rs')
  {
    RearrangedCopies(rs, rs', p, q);
    forall j | 0 <= j < |rs'| ensures Admitted(k, rs'[j]) {
      CopyDecidesAdmission(k, rs[q[j]], rs'[j]);
      assert rs[q[j]] in rs;
    }
    forall i, j | 0 <= i < j < |rs'| ensures rs'[i].ruleId != rs'[j].ruleId {
      CopyDecidesAdmission(k, rs[q[i]], rs'[i]);
      CopyDecidesAdmission(k, rs[q[j]], rs'[j]);
      assert p[q[i]] == i && p[q[j]] == j;
      assert q[i] != q[j];
    }
  }

  lemma RearrangedBackwards(rs: seq<RuleResult>, rs': seq<RuleResult>, p: seq<nat>, q: seq<nat>)
    requires Rearranged(rs, rs', p, q)
    ensures Rearranged(rs', rs, q, p)
  {
    forall j | 0 <= j < |rs'| ensures SameSpelling(rs'[j], rs[q[j]]) {
      assert SameSpelling(rs[q[j]], rs'[p[q[j]]]);
      CanonicalCopyIsExact(rs[q[j]], rs'[j]);
      CanonicalCopyIsExact(rs'[j], rs[q[j]]);
    }
  }

  lemma RearrangedSubset(rs: seq<RuleResult>, rs': seq<RuleResult>, p: seq<nat>, q: seq<nat>)
    requires Rearranged(rs, rs', p, q)
    ensures CanonicalSet(rs) <= CanonicalSet(rs')
  {
    forall c | c in CanonicalSet(rs) ensures c in CanonicalSet(rs') {
      var r :| r in rs && CanonicalCopy(r) == c;
      var i :| 0 <= i < |rs| && rs[i] == r;
      CanonicalCopyIsExact(rs[i], rs'[p[i]]);
      assert rs'[p[i]] in rs';
    }
  }

  /** Permuting the rule results, permuting or repeating the entries of their set-like arrays and
      provenance groups, and permuting the whole-evaluation errors, leaves the outcome unchanged: the
      same refusal, or a structurally identical decision. */
  lemma AggregationIsDeterministic(k: Knowledge, support: Support, rs: seq<RuleResult>, rs': seq<RuleResult>,
                                   whole: seq<ErrorRecord>, whole': seq<ErrorRecord>, p: seq<nat>, q: seq<nat>)
    requires Rearranged(rs, rs', p, q) && multiset(whole) == multiset(whole')
    ensures Aggregate(k, support, rs, whole) == Aggregate(k, support, rs', whole')
  {
    RearrangedBackwards(rs, rs', p, q);
    RearrangedSubset(rs, rs', p, q);
    RearrangedSubset(rs', rs, q, p);
    assert CanonicalSet(rs) == CanonicalSet(rs');
    if Accepted(k, rs) {
      RearrangedAccepted(k, rs, rs', p, q);
    } else if Accepted(k, rs') {
      RearrangedAccepted(k, rs', rs, q, p);
    }
  }

  // ---------------------------------------------------------------- repetition across rules

  function Pairs(entries: set<Entry>): set<(Id, Group)> {
    set e | e in entries :: (e.evidenceClass, e.refs)
  }

  lemma SamePairsConnect(entries: set<Entry>, entries': set<Entry>)
    requires Pairs(entries) == Pairs(entries')
    ensures SharedGroups(entries) <= SharedGroups(entries')
  {
    forall x, y | (x, y) in SharedGroups(entries) ensures (x, y) in SharedGroups(entries') {
      var e :| e in entries && x in e.refs && y in e.refs;
      assert (e.evidenceClass, e.refs) in Pairs(entries');
      var e' :| e' in entries' && (e'.evidenceClass, e'.refs) == (e.evidenceClass, e.refs);
    }
  }

  lemma SamePairsComponents(entries: set<Entry>, entries': set<Entry>, c: Id)
    requires Pairs(entries) == Pairs(entries') && SharedGroups(entries) == SharedGroups(entries')
    ensures ComponentsOf(entries, entries, c) <= ComponentsOf(entries', entries', c)
    ensures c in ClassesIn(entries) ==> c in ClassesIn(entries')
  {
    forall x ensures Component(entries, x) == Component(entries', x) {
      assert Connected(entries', x, Component(entries, x)) && Connected(entries, x, Component(entries', x));
    }
    forall e | e in entries
      ensures exists e' :: e' in entries' && e'.evidenceClass == e.evidenceClass && e'.refs == e.refs
    {
      assert (e.evidenceClass, e.refs) in Pairs(entries');
      var e' :| e' in entries' && (e'.evidenceClass, e'.refs) == (e.evidenceClass, e.refs);
    }
  }

  /** Only which (class, group) pairs occur matters: the same pair in another rule, or under another
      indicator of the class, adds nothing to the independence count and changes no class. */
  lemma RepeatedPairsAddNothing(k: Knowledge, eligible: set<RuleResult>, eligible': set<RuleResult>)
    requires Pairs(EntriesOf(k, eligible)) == Pairs(EntriesOf(k, eligible'))
    ensures ProvenCount(k, eligible) == ProvenCount(k, eligible')
    ensures ProvenClasses(k, eligible) == ProvenClasses(k, eligible')
  {
    var entries, entries' := EntriesOf(k, eligible), EntriesOf(k, eligible');
    SamePairsConnect(entries, entries');
    SamePairsConnect(entries', entries);
    forall c
      ensures ComponentsOf(entries, entries, c) == ComponentsOf(entries', entries', c)
      ensures c in ClassesIn(entries) <==> c in ClassesIn(entries')
    {
      SamePairsComponents(entries, entries', c);
      SamePairsComponents(entries', entries, c);
    }
    GraphsAgree(entries, entries');
  }

  lemma GraphsAgree(entries: set<Entry>, entries': set<Entry>)
    requires forall c :: ComponentsOf(entries, entries, c) == ComponentsOf(entries', entries', c)
    requires forall c :: c in ClassesIn(entries) <==> c in ClassesIn(entries')
    ensures GraphOf(entries) == GraphOf(entries')
  {
  }

  // ---------------------------------------------------------------- the governing rule

  lemma HighestIsGreatest(s: set<Severity>)
    requires s != {}
    ensures Highest(s) in s && forall x :: x in s ==> x.Rank() <= Highest(s).Rank()
  {
    var y :| y in s;
    match y case Low => case Medium => case High => case Critical =>
    forall x | x in s ensures x.Rank() <= Highest(s).Rank() {
      match x case Low => case Medium => case High => case Critical =>
    }
  }

  /** Severity is not additive: the decision severity is the governing rule's own. */
  lemma DecisionSeverityIsGovernings(rs: set<RuleResult>)
    requires EligibleIn(rs) != {}
    ensures Governing(EligibleIn(rs)).effectiveSeverity == Some(Highest(Severities(EligibleIn(rs))))
  {
  }
}
