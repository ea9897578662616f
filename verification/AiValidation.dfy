/** Staged validation of an untrusted extraction response: the containment scans on its JSON tree, and the
    reference, registry and grounding checks on its records. */
module AiValidation {
  import opened Ids

  // ---------------------------------------------------------------- JSON trees

  datatype Json = Scalar | List(items: seq<Json>) | Object(members: seq<Member>)

  datatype Member = Member(name: Id, value: Json)

  /** The direct children of a node. */
  function Children(node: Json): (children: seq<Json>)
    ensures forall c :: c in children ==> c < node
  {
    match node
    case Scalar => []
    case List(items) => items
    case Object(members) =>
      assert forall i :: 0 <= i < |members| ==> members[i].value < members[i] < node;
      Values(members)
  }

  function Values(members: seq<Member>): (values: seq<Json>)
    ensures |values| == |members| && forall i :: 0 <= i < |members| ==> values[i] == members[i].value
  {
    seq(|members|, i requires 0 <= i < |members| => members[i].value)
  }

  /** A scalar is one level deep. */
  function Depth(node: Json): (d: nat)
    ensures d >= 1
    decreases node, 1
  {
    1 + Deepest(Children(node), node)
  }

  function Deepest(nodes: seq<Json>, ghost parent: Json): (d: nat)
    requires forall n :: n in nodes ==> n < parent
    ensures forall n :: n in nodes ==> Depth(n) <= d
    ensures nodes != [] ==> exists n :: n in nodes && Depth(n) == d
    decreases parent, 0, |nodes|
  {
    if nodes == [] then 0
    else
      assert nodes[0] in nodes && forall n :: n in nodes <==> n == nodes[0] || n in nodes[1..];
      var rest, first := Deepest(nodes[1..], parent), Depth(nodes[0]);
      if first >= rest then first else rest
  }

  /** Some object of the tree has a member whose name is in `names`. */
  predicate Mentions(node: Json, names: set<Id>)
    decreases node, 1
  {
    (node.Object? && exists m :: m in node.members && m.name in names)
    || AnyMentions(Children(node), names, node)
  }

  predicate AnyMentions(nodes: seq<Json>, names: set<Id>, ghost parent: Json)
    requires forall n :: n in nodes ==> n < parent
    ensures AnyMentions(nodes, names, parent) <==> exists n :: n in nodes && Mentions(n, names)
    decreases parent, 0, |nodes|
  {
    if nodes == [] then false
    else
      assert nodes[0] in nodes && forall n :: n in nodes <==> n == nodes[0] || n in nodes[1..];
      Mentions(nodes[0], names) || AnyMentions(nodes[1..], names, parent)
  }

  /** How many nodes a tree has: what a work stack consumes. */
  function Size(node: Json): (s: nat)
    ensures s == 1 + TotalSize(Children(node), node)
    decreases node, 1
  {
    1 + TotalSize(Children(node), node)
  }

  function TotalSize(nodes: seq<Json>, ghost parent: Json): nat
    requires forall n :: n in nodes ==> n < parent
    decreases parent, 0, |nodes|
  {
    if nodes == [] then 0
    else
      assert nodes[0] in nodes && forall n :: n in nodes <==> n == nodes[0] || n in nodes[1..];
      Size(nodes[0]) + TotalSize(nodes[1..], parent)
  }

  // ---------------------------------------------------------------- the work stacks

  datatype Pending = Pending(node: Json, depth: nat)

  const MAX_DEPTH: nat := 16

  function Load(stack: seq<Pending>): nat {
    if stack == [] then 0 else Load(stack[..|stack| - 1]) + Size(stack[|stack| - 1].node)
  }

  /** Somewhere below, the tree reaches past the limit. */
  predicate TooDeep(p: Pending) {
    p.depth + Depth(p.node) - 1 > MAX_DEPTH
  }

  function At(nodes: seq<Json>, depth: nat): (stack: seq<Pending>)
    ensures |stack| == |nodes| && forall i :: 0 <= i < |nodes| ==> stack[i] == Pending(nodes[i], depth)
  {
    seq(|nodes|, i requires 0 <= i < |nodes| => Pending(nodes[i], depth))
  }

  lemma {:induction false} LoadOfChildren(stack: seq<Pending>, nodes: seq<Json>, depth: nat, parent: Json)
    requires forall n :: n in nodes ==> n < parent
    ensures Load(stack + At(nodes, depth)) == Load(stack) + TotalSize(nodes, parent)
    decreases |nodes|
  {
    if nodes == [] {
      assert stack + At(nodes, depth) == stack;
    } else {
      var first := Pending(nodes[0], depth);
      assert nodes[0] in nodes && forall n :: n in nodes[1..] ==> n in nodes;
      assert stack + At(nodes, depth) == (stack + [first]) + At(nodes[1..], depth);
      assert (stack + [first])[..|stack|] == stack;
      LoadOfChildren(stack + [first], nodes[1..], depth, parent);
    }
  }

  /** Exploring a node: it is too deep when it is past the limit itself, or one of its children is. */
  lemma TooDeepBelow(p: Pending)
    ensures TooDeep(p) <==> p.depth > MAX_DEPTH || exists c :: c in Children(p.node) && TooDeep(Pending(c, p.depth + 1))
  {
    var children := Children(p.node);
    var d := Deepest(children, p.node);
    assert Depth(p.node) == 1 + d;
    if children != [] {
      var n :| n in children && Depth(n) == d;
      assert TooDeep(p) ==> TooDeep(Pending(n, p.depth + 1));
    }
    forall c | c in children && TooDeep(Pending(c, p.depth + 1)) ensures TooDeep(p) {
      assert Depth(c) <= d;
    }
  }

  ghost predicate AnyTooDeep(stack: seq<Pending>) {
    exists p :: p in stack && TooDeep(p)
  }

  lemma InConcat<T>(p: seq<T>, q: seq<T>, x: T)
    ensures x in p + q <==> x in p || x in q
  {
  }

  /** Replacing the top of the stack by its children keeps the verdict. */
  lemma Explored(rest: seq<Pending>, p: Pending, below: seq<Pending>)
    requires p.depth <= MAX_DEPTH && below == At(Children(p.node), p.depth + 1)
    ensures AnyTooDeep(rest + below) <==> AnyTooDeep(rest + [p])
  {
    ChildrenTooDeep(p, below);
    if AnyTooDeep(rest + below) {
      var q :| q in rest + below && TooDeep(q);
      InConcat(rest, below, q);
      assert if q in rest then q in rest + [p] else p in rest + [p] && TooDeep(p);
    }
    if AnyTooDeep(rest + [p]) {
      var q :| q in rest + [p] && TooDeep(q);
      InConcat(rest, [p], q);
      if q in rest {
        assert q in rest + below;
      } else {
        var c :| c in below && TooDeep(c);
        assert c in rest + below;
      }
    }
  }

  lemma ChildrenTooDeep(p: Pending, below: seq<Pending>)
    requires p.depth <= MAX_DEPTH && below == At(Children(p.node), p.depth + 1)
    ensures TooDeep(p) <==> exists c :: c in below && TooDeep(c)
  {
    var children := Children(p.node);
    TooDeepBelow(p);
    forall c | c in children ensures Pending(c, p.depth + 1) in below {
      var i :| 0 <= i < |children| && children[i] == c;
      assert below[i] in below;
    }
    forall q | q in below ensures q.node in children && q == Pending(q.node, p.depth + 1) {
    }
  }

  lemma ExploringShrinks(rest: seq<Pending>, p: Pending, below: seq<Pending>)
    requires below == At(Children(p.node), p.depth + 1)
    ensures Load(rest + below) < Load(rest + [p])
  {
    LoadOfChildren(rest, Children(p.node), p.depth + 1, p.node);
    assert (rest + [p])[..|rest|] == rest;
  }

  lemma OnlyRoot(root: Json)
    ensures AnyTooDeep([Pending(root, 1)]) <==> Depth(root) > MAX_DEPTH
  {
    var start := [Pending(root, 1)];
    assert start[0] in start;
  }

  lemma TopTooDeep(rest: seq<Pending>, p: Pending)
    requires p.depth > MAX_DEPTH
    ensures AnyTooDeep(rest + [p])
  {
    TooDeepBelow(p);
    assert p in rest + [p];
  }

  /** The iterative nesting guard agrees with the recursive depth of the tree. */
  method CheckDepth(root: Json) returns (ok: bool)
    ensures ok <==> Depth(root) <= MAX_DEPTH
  {
    var stack := [Pending(root, 1)];
    OnlyRoot(root);
    while stack != []
      invariant AnyTooDeep(stack) <==> Depth(root) > MAX_DEPTH
      decreases Load(stack)
    {
      var top := |stack| - 1;
      var p, rest := stack[top], stack[..top];
      assert stack == rest + [p];
      if p.depth > MAX_DEPTH {
        TopTooDeep(rest, p);
        return false;
      }
      var below := At(Children(p.node), p.depth + 1);
      Explored(rest, p, below);
      ExploringShrinks(rest, p, below);
      stack := rest + below;
    }
    ok := true;
  }

  function Total(stack: seq<Json>): nat {
    if stack == [] then 0 else Total(stack[..|stack| - 1]) + Size(stack[|stack| - 1])
  }

  lemma {:induction false} TotalOfChildren(stack: seq<Json>, nodes: seq<Json>, parent: Json)
    requires forall n :: n in nodes ==> n < parent
    ensures Total(stack + nodes) == Total(stack) + TotalSize(nodes, parent)
    decreases |nodes|
  {
    if nodes == [] {
      assert stack + nodes == stack;
    } else {
      assert nodes[0] in nodes && forall n :: n in nodes[1..] ==> n in nodes;
      assert stack + nodes == (stack + [nodes[0]]) + nodes[1..];
      assert (stack + [nodes[0]])[..|stack|] == stack;
      TotalOfChildren(stack + [nodes[0]], nodes[1..], parent);
    }
  }

  ghost predicate SomeMention(stack: seq<Json>, names: set<Id>) {
    exists n :: n in stack && Mentions(n, names)
  }

  lemma Scanned(rest: seq<Json>, node: Json, below: seq<Json>, names: set<Id>)
    requires !(node.Object? && exists m :: m in node.members && m.name in names) && below == Children(node)
    ensures SomeMention(rest + below, names) <==> SomeMention(rest + [node], names)
  {
    assert Mentions(node, names) <==> AnyMentions(below, names, node);
    if SomeMention(rest + below, names) {
      var n :| n in rest + below && Mentions(n, names);
      InConcat(rest, below, n);
      assert if n in rest then n in rest + [node] else node in rest + [node] && Mentions(node, names);
    }
    if SomeMention(rest + [node], names) {
      var n :| n in rest + [node] && Mentions(n, names);
      InConcat(rest, [node], n);
      if n in rest {
        assert n in rest + below;
      } else {
        var c :| c in below && Mentions(c, names);
        assert c in rest + below;
      }
    }
  }

  lemma ScanningShrinks(rest: seq<Json>, node: Json, below: seq<Json>)
    requires below == Children(node)
    ensures Total(rest + below) < Total(rest + [node])
  {
    TotalOfChildren(rest, below, node);
    assert (rest + [node])[..|rest|] == rest;
  }

  lemma OnStack(rest: seq<Json>, node: Json, names: set<Id>)
    requires Mentions(node, names)
    ensures SomeMention(rest + [node], names)
  {
  }

  /** The iterative scan finds a forbidden name exactly when the tree mentions one anywhere. */
  method ScanForbidden(root: Json, forbidden: set<Id>) returns (ok: bool)
    ensures ok <==> !Mentions(root, forbidden)
  {
    var stack := [root];
    assert stack[0] in stack;
    while stack != []
      invariant SomeMention(stack, forbidden) <==> Mentions(root, forbidden)
      decreases Total(stack)
    {
      var top := |stack| - 1;
      var node, rest := stack[top], stack[..top];
      assert stack == rest + [node];
      if node.Object? && exists m :: m in node.members && m.name in forbidden {
        OnStack(rest, node, forbidden);
        return false;
      }
      var below := Children(node);
      Scanned(rest, node, below, forbidden);
      ScanningShrinks(rest, node, below);
      stack := rest + below;
    }
    ok := true;
  }

  // ---------------------------------------------------------------- the records

  datatype Failure = TooLarge | Malformed | DecisionField | SchemaInvalid | ReferenceInvalid | UnknownIndicator | GroundingFailed

  datatype Observed = Observed(id: Id, source: Id, start: int, end: int, excerpt: Option<string>)

  datatype Proposed = Proposed(proposal: Option<Id>, indicator: Id, input: Id, positive: bool, observed: bool, refs: seq<Id>)

  datatype Payload = Payload(input: Id, observations: seq<Observed>, indicators: seq<Proposed>)

  /** The governed registries. A record may leave its polarity, or its status, unstated. */
  datatype Registry = Registry(positives: map<Id, Option<bool>>, negatives: map<Id, Option<bool>>)

  // ---------------------------------------------------------------- what each stage asks

  /** Stage 7: proposal ids occur once. */
  ghost predicate Distinct(p: Payload) {
    && (forall i, j :: 0 <= i < j < |p.observations| ==> p.observations[i].id != p.observations[j].id)
    && (forall i, j :: 0 <= i < j < |p.indicators| && p.indicators[i].proposal.Some? ==>
          p.indicators[i].proposal != p.indicators[j].proposal)
  }

  /** Stage 8: every record is about the expected input. */
  ghost predicate Correlated(p: Payload, input: Id) {
    (forall o :: o in p.observations ==> o.source == input) && (forall i :: i in p.indicators ==> i.input == input)
  }

  /** Stage 9: every indicator is in the registry of its polarity, and live. */
  predicate Registered(r: Registry, i: Proposed) {
    if i.positive then i.indicator in r.positives && r.positives[i.indicator] != Some(false)
    else i.indicator in r.negatives && r.negatives[i.indicator] != Some(false)
  }

  function ObservationIds(p: Payload): set<Id> {
    set o | o in p.observations :: o.id
  }

  /** Stage 10: references resolve within the response, and a claim to have observed has one. */
  predicate Resolves(ids: set<Id>, i: Proposed) {
    (forall r :: r in i.refs ==> r in ids) && (i.observed ==> i.refs != [])
  }

  /** Stage 11: the excerpt, when given, is the slice of the submitted text at its offsets. */
  predicate Grounded(text: string, o: Observed) {
    0 <= o.start < o.end <= |text| && (o.excerpt.Some? ==> o.excerpt.value == text[o.start..o.end])
  }

  /** The failure of the first stage that fails. */
  ghost function RecordFailure(r: Registry, input: Id, text: string, p: Payload): Option<Failure> {
    if !Distinct(p) || !Correlated(p, input) then Some(ReferenceInvalid)
    else if exists i :: i in p.indicators && !Registered(r, i) then Some(UnknownIndicator)
    else if exists i :: i in p.indicators && !Resolves(ObservationIds(p), i) then Some(ReferenceInvalid)
    else if exists o :: o in p.observations && !Grounded(text, o) then Some(GroundingFailed)
    else None
  }

  // ---------------------------------------------------------------- the stages, as loops

  method CheckDistinct(p: Payload) returns (ok: bool)
    ensures ok <==> Distinct(p)
  {
    var ids := seq(|p.observations|, i requires 0 <= i < |p.observations| => p.observations[i].id);
    NoRepeatsByCount(ids);
    if |Elems(ids)| != |ids| {
      ghost var i, j :| 0 <= i < j < |ids| && ids[i] == ids[j];
      assert p.observations[i].id == p.observations[j].id;
      return false;
    }
    forall i, j | 0 <= i < j < |p.observations| ensures p.observations[i].id != p.observations[j].id {
      assert ids[i] != ids[j];
    }
    var seen: set<Id> := {};
    for i := 0 to |p.indicators|
      invariant forall id :: id in seen <==> exists j :: 0 <= j < i && p.indicators[j].proposal == Some(id)
      invariant forall j, l :: 0 <= j < l < i && p.indicators[j].proposal.Some? ==>
        p.indicators[j].proposal != p.indicators[l].proposal
    {
      if p.indicators[i].proposal.Some? {
        if p.indicators[i].proposal.value in seen {
          ghost var j :| 0 <= j < i && p.indicators[j].proposal == p.indicators[i].proposal;
          assert p.indicators[j].proposal.Some?;
          return false;
        }
        seen := seen + {p.indicators[i].proposal.value};
      }
    }
    ok := true;
  }

  method CheckCorrelated(p: Payload, input: Id) returns (ok: bool)
    ensures ok <==> Correlated(p, input)
  {
    for i := 0 to |p.observations|
      invariant forall j :: 0 <= j < i ==> p.observations[j].source == input
    {
      if p.observations[i].source != input {
        return false;
      }
    }
    for i := 0 to |p.indicators|
      invariant forall j :: 0 <= j < i ==> p.indicators[j].input == input
    {
      if p.indicators[i].input != input {
        return false;
      }
    }
    ok := true;
  }

  method CheckRegistered(r: Registry, p: Payload) returns (ok: bool)
    ensures ok <==> forall i :: i in p.indicators ==> Registered(r, i)
  {
    for i := 0 to |p.indicators|
      invariant forall j :: 0 <= j < i ==> Registered(r, p.indicators[j])
    {
      if !Registered(r, p.indicators[i]) {
        return false;
      }
    }
    ok := true;
  }

  method CheckResolves(p: Payload) returns (ok: bool)
    ensures ok <==> forall i :: i in p.indicators ==> Resolves(ObservationIds(p), i)
  {
    var ids := ObservationIds(p);
    for i := 0 to |p.indicators|
      invariant forall j :: 0 <= j < i ==> Resolves(ids, p.indicators[j])
    {
      var ind := p.indicators[i];
      for k := 0 to |ind.refs|
        invariant forall l :: 0 <= l < k ==> ind.refs[l] in ids
      {
        if ind.refs[k] !in ids {
          assert !Resolves(ids, ind);
          return false;
        }
      }
      if ind.observed && ind.refs == [] {
        assert !Resolves(ids, ind);
        return false;
      }
    }
    ok := true;
  }

  method CheckGrounded(text: string, p: Payload) returns (ok: bool)
    ensures ok <==> forall o :: o in p.observations ==> Grounded(text, o)
  {
    for i := 0 to |p.observations|
      invariant forall j :: 0 <= j < i ==> Grounded(text, p.observations[j])
    {
      if !Grounded(text, p.observations[i]) {
        return false;
      }
    }
    ok := true;
  }

  method CheckRecords(r: Registry, input: Id, text: string, p: Payload) returns (failure: Option<Failure>)
    ensures failure == RecordFailure(r, input, text, p)
  {
    var ok := CheckDistinct(p);
    if !ok { return Some(ReferenceInvalid); }
    ok := CheckCorrelated(p, input);
    if !ok { return Some(ReferenceInvalid); }
    ok := CheckRegistered(r, p);
    if !ok { return Some(UnknownIndicator); }
    ok := CheckResolves(p);
    if !ok { return Some(ReferenceInvalid); }
    ok := CheckGrounded(text, p);
    if !ok { return Some(GroundingFailed); }
    failure := None;
  }

  // ---------------------------------------------------------------- one response

  /** What the transport, the JSON parser and the schema validator make of a response: its UTF-8 size if it
      can be encoded, its tree if it parses, its records if it fits the schema. */
  datatype Response = Response(request: Id, size: Option<nat>, tree: Option<Json>, payload: Option<Payload>)

  const MAX_BYTES: nat := 1_048_576

  /** The code of the first failing stage; `None` is acceptance. */
  ghost function FirstFailure(forbidden: set<Id>, r: Registry, request: Id, input: Id, inputs: map<Id, string>,
                              x: Response): Option<Failure>
  {
    if x.size.None? then Some(Malformed)
    else if x.size.value > MAX_BYTES then Some(TooLarge)
    else if x.request != request then Some(ReferenceInvalid)
    else if x.tree.None? || Depth(x.tree.value) > MAX_DEPTH then Some(Malformed)
    else if Mentions(x.tree.value, forbidden) then Some(DecisionField)
    else if x.payload.None? then Some(SchemaInvalid)
    else if input !in inputs || x.payload.value.input != input then Some(ReferenceInvalid)
    else RecordFailure(r, input, inputs[input], x.payload.value)
  }

  method Validate(forbidden: set<Id>, r: Registry, request: Id, input: Id, inputs: map<Id, string>, x: Response)
    returns (failure: Option<Failure>)
    ensures failure == FirstFailure(forbidden, r, request, input, inputs, x)
  {
    if x.size.None? { return Some(Malformed); }
    if x.size.value > MAX_BYTES { return Some(TooLarge); }
    if x.request != request { return Some(ReferenceInvalid); }
    if x.tree.None? { return Some(Malformed); }
    var shallow := CheckDepth(x.tree.value);
    if !shallow { return Some(Malformed); }
    var clean := ScanForbidden(x.tree.value, forbidden);
    if !clean { return Some(DecisionField); }
    if x.payload.None? { return Some(SchemaInvalid); }
    if input !in inputs || x.payload.value.input != input { return Some(ReferenceInvalid); }
    failure := CheckRecords(r, input, inputs[input], x.payload.value);
  }

  // ---------------------------------------------------------------- what acceptance means

  /** An accepted response is shallow, carries no decision field, is about the expected input throughout,
      names governed live indicators only, resolves every reference, and quotes the submitted text. */
  lemma AcceptedExactly(forbidden: set<Id>, r: Registry, request: Id, input: Id, inputs: map<Id, string>, x: Response)
    ensures FirstFailure(forbidden, r, request, input, inputs, x) == None <==>
      && x.size.Some? && x.size.value <= MAX_BYTES && x.request == request
      && x.tree.Some? && Depth(x.tree.value) <= MAX_DEPTH && !Mentions(x.tree.value, forbidden)
      && x.payload.Some? && input in inputs && x.payload.value.input == input
      && var p := x.payload.value;
         && Distinct(p) && Correlated(p, input)
         && (forall i :: i in p.indicators ==> Registered(r, i) && Resolves(ObservationIds(p), i))
         && (forall o :: o in p.observations ==> Grounded(inputs[input], o))
  {
  }

  /** `s'` is `s` with its entries permuted. */
  ghost predicate Shuffles<T>(s: seq<T>, s': seq<T>, p: seq<nat>, q: seq<nat>) {
    && |s| == |s'| && Permutes(p, q, |s|)
    && (forall i :: 0 <= i < |s| ==> s'[p[i]] == s[i])
  }

  lemma ShuffledElems<T>(s: seq<T>, s': seq<T>, p: seq<nat>, q: seq<nat>)
    requires Shuffles(s, s', p, q)
    ensures forall x :: x in s <==> x in s'
    ensures forall j :: 0 <= j < |s'| ==> s'[j] == s[q[j]]
  {
    forall j | 0 <= j < |s'| ensures s'[j] == s[q[j]] {
      assert s'[p[q[j]]] == s[q[j]];
    }
    forall i | 0 <= i < |s| ensures s[i] in s' {
      assert s'[p[i]] == s[i];
    }
  }

  lemma DistinctIsShuffled(a: Payload, b: Payload, p: seq<nat>, q: seq<nat>, u: seq<nat>, v: seq<nat>)
    requires Shuffles(a.observations, b.observations, p, q) && Shuffles(a.indicators, b.indicators, u, v)
    requires Distinct(a)
    ensures Distinct(b)
  {
    ShuffledElems(a.observations, b.observations, p, q);
    ShuffledElems(a.indicators, b.indicators, u, v);
    forall i, j | 0 <= i < j < |b.observations| ensures b.observations[i].id != b.observations[j].id {
      assert p[q[i]] == i && p[q[j]] == j;
      assert q[i] != q[j];
    }
    forall i, j | 0 <= i < j < |b.indicators| && b.indicators[i].proposal.Some?
      ensures b.indicators[i].proposal != b.indicators[j].proposal
    {
      assert u[v[i]] == i && u[v[j]] == j;
      assert v[i] != v[j];
    }
  }

  lemma ShuffledBack<T>(s: seq<T>, s': seq<T>, p: seq<nat>, q: seq<nat>)
    requires Shuffles(s, s', p, q)
    ensures Shuffles(s', s, q, p)
  {
  }

  /** The verdict does not depend on the order of the observations or of the indicators. */
  lemma OrderDoesNotMatter(r: Registry, input: Id, text: string, a: Payload, b: Payload,
                           p: seq<nat>, q: seq<nat>, u: seq<nat>, v: seq<nat>)
    requires Shuffles(a.observations, b.observations, p, q) && Shuffles(a.indicators, b.indicators, u, v)
    ensures RecordFailure(r, input, text, a) == RecordFailure(r, input, text, b)
  {
    ShuffledElems(a.observations, b.observations, p, q);
    ShuffledElems(a.indicators, b.indicators, u, v);
    ShuffledBack(a.observations, b.observations, p, q);
    ShuffledBack(a.indicators, b.indicators, u, v);
    if Distinct(a) { DistinctIsShuffled(a, b, p, q, u, v); }
    if Distinct(b) { DistinctIsShuffled(b, a, q, p, v, u); }
    assert ObservationIds(a) == ObservationIds(b);
  }
}
