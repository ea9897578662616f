/** The evaluator's input boundary: indicator observations, the normalized observations behind them, and
    the validated context they are folded into. */
module Observations {
  import opened Ids
  import opened Domain

  /** Five extraction states, never collapsed to two. */
  datatype Extraction = Observed | NotObserved | Unknown | Ambiguous | NotApplicable

  datatype RegistryClass = PositiveClass | NegativeClass

  /** One extractor assertion about one occurrence of one indicator. */
  datatype Occurrence = Occurrence(
    indicator: Id,
    matched: Extraction,
    registry: Option<RegistryClass>,
    confidence: Option<Level>,
    refs: seq<Id>,
    inputId: Option<Id>)

  datatype Polarity = Affirmed | Negated
  datatype Attribution = FirstParty | Reported | Quoted | Hypothetical
  datatype Mood = Directive | Descriptive | Interrogative

  datatype Observation = Observation(
    status: Extraction,
    polarity: Polarity,
    attribution: Attribution,
    mood: Mood,
    source: Option<Id>)

  // ---------------------------------------------------------------- structural verdicts

  datatype Liveness = Live | NonLive | Unresolved

  function ObservationVerdict(o: Observation): Liveness {
    if o.status.Unknown? || o.status.Ambiguous? then Unresolved
    else if o.status.NotObserved? || o.status.NotApplicable? then NonLive
    else if o.polarity.Negated? || !o.attribution.FirstParty? then NonLive
    else if o.polarity.Affirmed? && o.attribution.FirstParty? && !o.mood.Descriptive? then Live
    else NonLive
  }

  /** Conservative agreement of every backing observation. */
  function StructuralVerdict(observations: map<Id, Observation>, o: Occurrence): Liveness {
    if o.refs == [] then Unresolved
    else if exists r :: r in o.refs && r !in observations then Unresolved
    else if forall r :: r in o.refs ==> ObservationVerdict(observations[r]) == Live then Live
    else if forall r :: r in o.refs ==> ObservationVerdict(observations[r]) == NonLive then NonLive
    else Unresolved
  }

  /** A live occurrence rests on observations that were all seen, affirmed, first-party and not merely
      descriptive, and on at least one. */
  lemma LiveMeansDirectlyObserved(observations: map<Id, Observation>, o: Occurrence)
    ensures StructuralVerdict(observations, o) == Live <==>
      o.refs != [] && forall r :: r in o.refs ==>
        r in observations && observations[r].status.Observed? && observations[r].polarity.Affirmed?
        && observations[r].attribution.FirstParty? && !observations[r].mood.Descriptive?
  {
  }

  // ---------------------------------------------------------------- the context

  datatype Context = Context(
    byIndicator: map<Id, seq<Occurrence>>,
    observations: map<Id, Observation>,
    inputId: Option<Id>,
    language: Id,
    script: Id)
  {
    /** The occurrences of one indicator; their order never matters. */
    function Of(indicator: Id): set<Occurrence> {
      if indicator in byIndicator then Elems(byIndicator[indicator]) else {}
    }
  }

  type Named = (Id, Observation)

  ghost predicate DistinctIds(observations: seq<Named>) {
    forall i, j :: 0 <= i < j < |observations| ==> observations[i].0 != observations[j].0
  }

  /** Every input id the data names. */
  function InputIds(occurrences: seq<Occurrence>, observations: seq<Named>): set<Id> {
    (set o | o in occurrences && o.inputId.Some? :: o.inputId.value)
    + (set n | n in observations && n.1.source.Some? :: n.1.source.value)
  }

  function ById(observations: seq<Named>): map<Id, Observation> {
    if observations == [] then map[]
    else ById(observations[..|observations| - 1])[observations[|observations| - 1].0 := observations[|observations| - 1].1]
  }

  /** An occurrence whose references all resolve, and which does not claim to be observed on the strength
      of something that was not. */
  predicate WellBacked(observations: map<Id, Observation>, o: Occurrence) {
    forall r :: r in o.refs ==>
      r in observations
      && !(o.matched.Observed? && (observations[r].status.NotObserved? || observations[r].status.NotApplicable?))
  }

  /** What the boundary accepts. */
  ghost predicate Admissible(occurrences: seq<Occurrence>, observations: seq<Named>) {
    && DistinctIds(observations)
    && (forall a, b :: a in InputIds(occurrences, observations) && b in InputIds(occurrences, observations) ==> a == b)
    && (forall o :: o in occurrences ==> WellBacked(ById(observations), o))
  }

  function OccurrencesOf(occurrences: seq<Occurrence>, indicator: Id): seq<Occurrence> {
    if occurrences == [] then []
    else
      var last := occurrences[|occurrences| - 1];
      var rest := OccurrencesOf(occurrences[..|occurrences| - 1], indicator);
      if last.indicator == indicator then rest + [last] else rest
  }

  lemma {:induction false} OccurrencesAre(occurrences: seq<Occurrence>, indicator: Id, o: Occurrence)
    ensures o in OccurrencesOf(occurrences, indicator) <==> o in occurrences && o.indicator == indicator
  {
    if occurrences != [] {
      var rest := occurrences[..|occurrences| - 1];
      OccurrencesAre(rest, indicator, o);
      assert occurrences == rest + [occurrences[|occurrences| - 1]];
    }
  }

  function Indicators(occurrences: seq<Occurrence>): set<Id> {
    set o | o in occurrences :: o.indicator
  }

  function Grouped(occurrences: seq<Occurrence>): map<Id, seq<Occurrence>> {
    map i | i in Indicators(occurrences) :: OccurrencesOf(occurrences, i)
  }

  lemma {:induction false} LookupIsListed(observations: seq<Named>, r: Id)
    requires r in ById(observations)
    ensures (r, ById(observations)[r]) in observations
  {
    var last := observations[|observations| - 1];
    assert observations == observations[..|observations| - 1] + [last];
    if last.0 == r {
      assert last == (r, ById(observations)[r]);
    } else {
      LookupIsListed(observations[..|observations| - 1], r);
    }
  }

  /** The context of admissible data. */
  function ContextFor(occurrences: seq<Occurrence>, observations: seq<Named>, language: Id, script: Id): Context {
    Context(Grouped(occurrences), ById(observations), AnyOf(InputIds(occurrences, observations)), language, script)
  }

  /** Validates the data and groups it by indicator: `None` is the single error the boundary raises. */
  method BuildContext(occurrences: seq<Occurrence>, observations: seq<Named>, language: Id, script: Id)
    returns (r: Option<Context>)
    ensures r.Some? <==> Admissible(occurrences, observations)
    ensures r.Some? ==> r.value == ContextFor(occurrences, observations, language, script)
  {
    var distinct, byId := IndexObservations(observations);
    if !distinct {
      return None;
    }
    var inputs := InputIds(occurrences, observations);
    if exists a, b :: a in inputs && b in inputs && a != b {
      return None;
    }
    for i := 0 to |occurrences|
      invariant forall j :: 0 <= j < i ==> WellBacked(byId, occurrences[j])
    {
      assert CannotCross(occurrences[i], byId) by { OneInputCannotCross(occurrences, observations, i); }
      var backed := CheckReferences(occurrences[i], byId);
      if !backed {
        return None;
      }
    }
    var grouped := Group(occurrences);
    return Some(Context(grouped, byId, AnyOf(inputs), language, script));
  }

  method IndexObservations(observations: seq<Named>) returns (distinct: bool, byId: map<Id, Observation>)
    ensures distinct <==> DistinctIds(observations)
    ensures distinct ==> byId == ById(observations)
  {
    byId := map[];
    for i := 0 to |observations|
      invariant byId == ById(observations[..i])
      invariant forall j :: 0 <= j < i ==> observations[j].0 in byId
      invariant DistinctIds(observations[..i])
    {
      assert observations[..i + 1] == observations[..i] + [observations[i]];
      if observations[i].0 in byId {
        LookupIsListed(observations[..i], observations[i].0);
        return false, byId;
      }
      byId := byId[observations[i].0 := observations[i].1];
    }
    assert observations[..|observations|] == observations;
    distinct := true;
  }

  /** No reference of `o` leads to an observation of a different input. */
  ghost predicate CannotCross(o: Occurrence, byId: map<Id, Observation>) {
    forall r :: r in o.refs && r in byId && o.inputId.Some? && byId[r].source.Some? ==> byId[r].source == o.inputId
  }

  lemma OneInputCannotCross(occurrences: seq<Occurrence>, observations: seq<Named>, i: nat)
    requires i < |occurrences|
    requires forall a, b :: a in InputIds(occurrences, observations) && b in InputIds(occurrences, observations) ==> a == b
    ensures CannotCross(occurrences[i], ById(observations))
  {
    var o, byId := occurrences[i], ById(observations);
    forall r | r in o.refs && r in byId && o.inputId.Some? && byId[r].source.Some?
      ensures byId[r].source == o.inputId
    {
      LookupIsListed(observations, r);
      assert (r, byId[r]).1.source.value in InputIds(occurrences, observations);
      assert o.inputId.value in InputIds(occurrences, observations);
    }
  }

  /** The references of one occurrence. The cross-input branch is dead: one context has one input. */
  method CheckReferences(o: Occurrence, byId: map<Id, Observation>) returns (backed: bool)
    requires CannotCross(o, byId)
    ensures backed <==> WellBacked(byId, o)
  {
    for j := 0 to |o.refs|
      invariant forall r :: r in o.refs[..j] ==>
        r in byId && !(o.matched.Observed? && (byId[r].status.NotObserved? || byId[r].status.NotApplicable?))
    {
      var ref := o.refs[j];
      if ref !in byId {
        return false;
      }
      if o.inputId.Some? && byId[ref].source.Some? && byId[ref].source != o.inputId {
        assert false;
      }
      if o.matched.Observed? && (byId[ref].status.NotObserved? || byId[ref].status.NotApplicable?) {
        return false;
      }
      assert o.refs[..j + 1] == o.refs[..j] + [ref];
    }
    assert o.refs[..|o.refs|] == o.refs;
    backed := true;
  }

  method Group(occurrences: seq<Occurrence>) returns (grouped: map<Id, seq<Occurrence>>)
    ensures grouped == Grouped(occurrences)
  {
    grouped := map[];
    for i := 0 to |occurrences|
      invariant grouped == Grouped(occurrences[..i])
    {
      var o := occurrences[i];
      ghost var before := occurrences[..i];
      assert occurrences[..i + 1] == before + [o];
      assert Indicators(occurrences[..i + 1]) == Indicators(before) + {o.indicator};
      UnseenHasNone(before, o.indicator);
      grouped := grouped[o.indicator := (if o.indicator in grouped then grouped[o.indicator] else []) + [o]];
    }
    assert occurrences[..|occurrences|] == occurrences;
  }

  lemma UnseenHasNone(occurrences: seq<Occurrence>, indicator: Id)
    ensures indicator !in Indicators(occurrences) ==> OccurrencesOf(occurrences, indicator) == []
  {
  }

  function AnyOf(inputs: set<Id>): Option<Id> {
    if inputs == {} then None else Some(Least(inputs))
  }

  /** In a validated context an indicator's occurrences are exactly those the data lists for it. */
  lemma ContextListsOccurrences(occurrences: seq<Occurrence>, c: Context, indicator: Id)
    requires c.byIndicator == Grouped(occurrences)
    ensures c.Of(indicator) == set o | o in occurrences && o.indicator == indicator
  {
    forall o ensures o in c.Of(indicator) <==> o in occurrences && o.indicator == indicator {
      OccurrencesAre(occurrences, indicator, o);
    }
  }
}
