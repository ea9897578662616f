/** Maximum matching between evidence classes and provenance components, by augmenting paths. */
module Matching {
  import opened Ids

  /** For each evidence class, the components it has a live occurrence in. */
  type Graph = map<Id, set<Id>>

  // ---------------------------------------------------------------- matchings, independently of the algorithm

  ghost predicate Injective(m: map<Id, Id>) {
    forall k, k' :: k in m && k' in m && m[k] == m[k'] ==> k == k'
  }

  ghost predicate AlongEdges(g: Graph, m: map<Id, Id>) {
    forall k :: k in m ==> m[k] in g && k in g[m[k]]
  }

  ghost predicate UsesOnly(m: map<Id, Id>, classes: set<Id>) {
    forall k :: k in m ==> m[k] in classes
  }

  /** A matching gives each component it uses one class, along an edge, and no class twice. */
  ghost predicate IsMatching(g: Graph, classes: set<Id>, m: map<Id, Id>) {
    AlongEdges(g, m) && Injective(m) && UsesOnly(m, classes)
  }

  /** `n` is the size of a largest matching of the given classes. */
  ghost predicate IsMatchingNumber(g: Graph, classes: set<Id>, n: nat) {
    && (exists m :: IsMatching(g, classes, m) && |m| == n)
    && (forall m :: IsMatching(g, classes, m) ==> |m| <= n)
  }

  // ---------------------------------------------------------------- cardinalities

  lemma {:induction false} InjectiveImageSize(m: map<Id, Id>, keys: set<Id>, into: set<Id>)
    requires Injective(m) && forall k :: k in keys ==> k in m && m[k] in into
    ensures |keys| <= |into|
  {
    if keys != {} {
      var k :| k in keys;
      InjectiveImageSize(m, keys - {k}, into - {m[k]});
    }
  }

  lemma {:induction false} ImageSize(m: map<Id, Id>, keys: set<Id>)
    requires Injective(m) && keys <= m.Keys
    ensures |set k | k in keys :: m[k]| == |keys|
  {
    if keys == {} {
      assert (set k | k in keys :: m[k]) == {};
    } else {
      var k :| k in keys;
      ImageSize(m, keys - {k});
      assert (set j | j in keys :: m[j]) == (set j | j in keys - {k} :: m[j]) + {m[k]};
      assert m[k] !in (set j | j in keys - {k} :: m[j]);
    }
  }

  // ---------------------------------------------------------------- the certificate of maximality

  /** A set of components closed under "neighbours of my partner", all of them taken: nothing reached
      from inside can lead to a free component. */
  ghost predicate Closed(g: Graph, m: map<Id, Id>, d: set<Id>) {
    forall k :: k in d ==> k in m && m[k] in g && g[m[k]] <= d
  }

  /** Classes that stayed without a component only see closed components. */
  ghost predicate Exhausted(g: Graph, m: map<Id, Id>, classes: set<Id>, d: set<Id>) {
    forall c :: c in classes && c !in m.Values ==> c in g && g[c] <= d
  }

  /** König's certificate: the closed components together with the partners of the others cover every
      edge, and are as many as the matching is large. So no matching is larger. */
  lemma CertificateIsSound(g: Graph, classes: set<Id>, m: map<Id, Id>, d: set<Id>, other: map<Id, Id>)
    requires IsMatching(g, classes, m) && IsMatching(g, classes, other)
    requires Closed(g, m, d) && Exhausted(g, m, classes, d)
    ensures |other| <= |m|
  {
    var partners := set k | k in m.Keys - d :: m[k];
    forall k | k in other.Keys - d ensures other[k] in partners {
      PartnerIsOpen(g, classes, m, d, other, k);
    }
    InjectiveImageSize(other, other.Keys - d, partners);
    ImageSize(m, m.Keys - d);
    SplitSize(other.Keys, d);
    SplitSize(m.Keys, d);
    SubsetSize(other.Keys * d, m.Keys * d);
  }

  lemma SplitSize(s: set<Id>, d: set<Id>)
    ensures |s| == |s * d| + |s - d|
  {
  }

  lemma PartnerIsOpen(g: Graph, classes: set<Id>, m: map<Id, Id>, d: set<Id>, other: map<Id, Id>, k: Id)
    requires IsMatching(g, classes, other)
    requires Closed(g, m, d) && Exhausted(g, m, classes, d)
    requires k in other && k !in d
    ensures exists j :: j in m && j !in d && m[j] == other[k]
  {
  }

  // ---------------------------------------------------------------- augmenting paths

  /** A way to give `c` a component: its first step takes `path[0]`, whose present partner takes
      `path[1]`, and so on until a free component ends the path. */
  ghost predicate Augments(g: Graph, m: map<Id, Id>, c: Id, path: seq<Id>)
    decreases |path|
  {
    && path != [] && c in g && path[0] in g[c]
    && if |path| == 1 then path[0] !in m
       else path[0] in m && path[0] !in path[1..] && Augments(g, m, m[path[0]], path[1..])
  }

  ghost function Shift(g: Graph, m: map<Id, Id>, c: Id, path: seq<Id>): map<Id, Id>
    requires Augments(g, m, c, path)
    decreases |path|
  {
    if |path| == 1 then m[path[0] := c] else Shift(g, m, m[path[0]], path[1..])[path[0] := c]
  }

  lemma {:induction false} ShiftElsewhere(g: Graph, m: map<Id, Id>, c: Id, path: seq<Id>, k: Id)
    requires Augments(g, m, c, path) && k !in path
    ensures k in Shift(g, m, c, path) <==> k in m
    ensures k in m ==> Shift(g, m, c, path)[k] == m[k]
    decreases |path|
  {
    if |path| > 1 {
      assert k !in path[1..];
      ShiftElsewhere(g, m, m[path[0]], path[1..], k);
    }
  }

  /** A component that is not on the path can be set aside. */
  lemma {:induction false} ShiftWithout(g: Graph, m: map<Id, Id>, c: Id, path: seq<Id>, p: Id, x: Id)
    requires Augments(g, m, c, path) && p !in path
    ensures Augments(g, m - {p}, c, path)
    ensures Shift(g, m, c, path)[p := x] == Shift(g, m - {p}, c, path)[p := x]
    decreases |path|
  {
    var m0 := m - {p};
    if |path| > 1 {
      var q := path[1..];
      assert p !in q && path[0] in m0 && m0[path[0]] == m[path[0]];
      ShiftWithout(g, m, m[path[0]], q, p, x);
      SwapUpdates(Shift(g, m, m[path[0]], q), Shift(g, m0, m[path[0]], q), path[0], c, p, x);
    }
  }

  lemma SwapUpdates(s: map<Id, Id>, s0: map<Id, Id>, k: Id, c: Id, p: Id, x: Id)
    requires s[p := x] == s0[p := x] && k != p
    ensures s[k := c][p := x] == s0[k := c][p := x]
  {
    assert s[k := c][p := x] == s[p := x][k := c];
    assert s0[k := c][p := x] == s0[p := x][k := c];
  }

  lemma {:induction false} ShiftIsInjective(g: Graph, m: map<Id, Id>, c: Id, path: seq<Id>)
    requires Augments(g, m, c, path) && Injective(m) && c !in m.Values
    ensures Injective(Shift(g, m, c, path))
    ensures Shift(g, m, c, path).Values == m.Values + {c}
    decreases |path|
  {
    var p := path[0];
    if |path| == 1 {
      AddPair(m, p, c);
    } else {
      var q, m0 := path[1..], m - {p};
      ShiftWithout(g, m, m[p], q, p, c);
      RemovePair(m, p);
      ShiftIsInjective(g, m0, m[p], q);
      var s := Shift(g, m0, m[p], q);
      assert p !in s by { ShiftElsewhere(g, m0, m[p], q, p); }
      AddPair(s, p, c);
    }
  }

  lemma AddPair(m: map<Id, Id>, k: Id, c: Id)
    requires Injective(m) && k !in m && c !in m.Values
    ensures Injective(m[k := c])
    ensures m[k := c].Values == m.Values + {c}
  {
    assert m[k := c][k] == c;
    forall v | v in m.Values ensures v in m[k := c].Values {
      var j :| j in m && m[j] == v;
      assert m[k := c][j] == v;
    }
  }

  lemma RemovePair(m: map<Id, Id>, k: Id)
    requires Injective(m) && k in m
    ensures Injective(m - {k}) && m[k] !in (m - {k}).Values
    ensures (m - {k}).Values + {m[k]} == m.Values
  {
    forall v | v in m.Values && v != m[k] ensures v in (m - {k}).Values {
      var j :| j in m && m[j] == v;
      assert (m - {k})[j] == v;
    }
  }

  lemma {:induction false} ShiftFollowsEdges(g: Graph, m: map<Id, Id>, c: Id, path: seq<Id>)
    requires Augments(g, m, c, path) && AlongEdges(g, m)
    ensures AlongEdges(g, Shift(g, m, c, path))
    decreases |path|
  {
    if |path| > 1 {
      ShiftFollowsEdges(g, m, m[path[0]], path[1..]);
    }
  }

  /** No augmenting path enters a closed set: it could never leave it, and nothing in it is free. */
  lemma {:induction false} PathAvoidsClosed(g: Graph, m: map<Id, Id>, c: Id, path: seq<Id>, d: set<Id>)
    requires Augments(g, m, c, path) && Closed(g, m, d)
    ensures forall k :: k in path ==> k !in d
    decreases |path|
  {
    if |path| > 1 {
      PathAvoidsClosed(g, m, m[path[0]], path[1..], d);
      assert path[1] in path[1..];
    }
  }

  // ---------------------------------------------------------------- the matching number

  lemma MatchingIsBounded(g: Graph, classes: set<Id>, m: map<Id, Id>)
    requires IsMatching(g, classes, m)
    ensures |m| <= |classes|
  {
    InjectiveImageSize(m, m.Keys, classes);
  }

  lemma {:induction false} LargestExists(g: Graph, classes: set<Id>, bound: nat)
    requires forall m :: IsMatching(g, classes, m) ==> |m| <= bound
    ensures exists n :: IsMatchingNumber(g, classes, n)
  {
    if m :| IsMatching(g, classes, m) && |m| == bound {
      assert IsMatchingNumber(g, classes, bound);
    } else if bound == 0 {
      var none: map<Id, Id> := map[];
      assert IsMatching(g, classes, none) && |none| == 0;
    } else {
      LargestExists(g, classes, bound - 1);
    }
  }

  /** The size of a largest matching of `classes`. */
  ghost function MatchingNumber(g: Graph, classes: set<Id>): (n: nat)
    ensures IsMatchingNumber(g, classes, n)
  {
    assert exists n :: IsMatchingNumber(g, classes, n) by {
      forall m | IsMatching(g, classes, m) ensures |m| <= |classes| {
        MatchingIsBounded(g, classes, m);
      }
      LargestExists(g, classes, |classes|);
    }
    var n :| IsMatchingNumber(g, classes, n);
    n
  }

  /** The classes that come before `c`. */
  ghost function Before(g: Graph, c: Id): set<Id> {
    set k | k in g && k < c
  }

  /** Adding `c` to the classes before it makes room for one more. */
  ghost predicate Raises(g: Graph, c: Id) {
    MatchingNumber(g, Before(g, c) + {c}) > MatchingNumber(g, Before(g, c))
  }

  /** The canonical choice of classes, defined without reference to any search order. */
  ghost function CanonicalClasses(g: Graph): set<Id> {
    set c | c in g && Raises(g, c)
  }

  lemma MatchingExtends(g: Graph, classes: set<Id>, c: Id, m: map<Id, Id>)
    requires IsMatching(g, classes, m)
    ensures IsMatching(g, classes + {c}, m)
  {
  }

  lemma MatchingWithoutClass(g: Graph, classes: set<Id>, c: Id, m: map<Id, Id>) returns (less: map<Id, Id>)
    requires IsMatching(g, classes + {c}, m)
    ensures IsMatching(g, classes, less) && |m| <= |less| + 1
  {
    if k :| k in m && m[k] == c {
      less := m - {k};
      assert m.Keys == less.Keys + {k};
    } else {
      less := m;
    }
  }

  lemma OneMoreClass(g: Graph, classes: set<Id>, c: Id)
    ensures MatchingNumber(g, classes) <= MatchingNumber(g, classes + {c}) <= MatchingNumber(g, classes) + 1
  {
    var m: map<Id, Id> :| IsMatching(g, classes, m) && |m| == MatchingNumber(g, classes);
    MatchingExtends(g, classes, c, m);
    var best: map<Id, Id> :| IsMatching(g, classes + {c}, best) && |best| == MatchingNumber(g, classes + {c});
    var less := MatchingWithoutClass(g, classes, c, best);
  }

  ghost function RaisingAmong(g: Graph, classes: set<Id>): set<Id> {
    set c | c in classes && Raises(g, c)
  }

  lemma RaisingGrows(g: Graph, classes: set<Id>, c: Id)
    requires c !in classes
    ensures |RaisingAmong(g, classes + {c})| == |RaisingAmong(g, classes)| + if Raises(g, c) then 1 else 0
  {
    var earlier := RaisingAmong(g, classes);
    if Raises(g, c) {
      assert RaisingAmong(g, classes + {c}) == earlier + {c};
    } else {
      assert RaisingAmong(g, classes + {c}) == earlier;
    }
  }

  lemma RaisingStep(g: Graph, c: Id)
    ensures |RaisingAmong(g, Before(g, c) + {c})| ==
            |RaisingAmong(g, Before(g, c))| + if Raises(g, c) then 1 else 0
  {
    RaisingGrows(g, Before(g, c), c);
  }

  lemma NoClassesNoMatching(g: Graph)
    ensures MatchingNumber(g, {}) == 0 && RaisingAmong(g, {}) == {}
  {
  }

  /** The canonical choice is as large as any: counting the raises, class by class, adds up to the
      matching number. */
  lemma {:induction false} CanonicalCount(g: Graph, order: seq<Id>, i: nat)
    requires order == Ascending(g.Keys) && i <= |order|
    ensures |RaisingAmong(g, Elems(order[..i]))| == MatchingNumber(g, Elems(order[..i]))
  {
    if i == 0 {
      assert Elems(order[..0]) == {};
      NoClassesNoMatching(g);
    } else {
      CanonicalCount(g, order, i - 1);
      ProcessedAreBefore(g, order, i - 1);
      OneMoreClass(g, Before(g, order[i - 1]), order[i - 1]);
      RaisingStep(g, order[i - 1]);
    }
  }

  lemma CanonicalClassesAreMaximum(g: Graph)
    ensures |CanonicalClasses(g)| == MatchingNumber(g, g.Keys)
  {
    var order := Ascending(g.Keys);
    assert order[..|order|] == order;
    CanonicalCount(g, order, |order|);
    assert CanonicalClasses(g) == RaisingAmong(g, g.Keys);
  }

  // ---------------------------------------------------------------- the algorithm

  /** A maximum matching of `classes` with its certificate. */
  ghost predicate Certified(g: Graph, m: map<Id, Id>, classes: set<Id>, d: set<Id>) {
    IsMatching(g, classes, m) && Closed(g, m, d) && Exhausted(g, m, classes, d)
  }

  /** The classes served are the canonical ones. */
  ghost predicate ServesCanonical(g: Graph, m: map<Id, Id>, classes: set<Id>) {
    forall c :: c in classes ==> (c in m.Values <==> Raises(g, c))
  }

  lemma CertifiedSize(g: Graph, classes: set<Id>, m: map<Id, Id>, d: set<Id>)
    requires Certified(g, m, classes, d)
    ensures MatchingNumber(g, classes) == |m|
  {
    var n := MatchingNumber(g, classes);
    var best :| IsMatching(g, classes, best) && |best| == n;
    CertificateIsSound(g, classes, m, d, best);
  }

  lemma ValuesSize(m: map<Id, Id>)
    requires Injective(m)
    ensures |m.Values| == |m|
  {
    ImageSize(m, m.Keys);
    assert m.Values == set k | k in m.Keys :: m[k];
  }

  lemma UnservedIsNotAValue(m: map<Id, Id>, classes: set<Id>, c: Id)
    requires UsesOnly(m, classes) && c !in classes
    ensures c !in m.Values
  {
  }

  /** A failed search closes everything it saw. */
  lemma FailureKeepsCertificate(g: Graph, m: map<Id, Id>, classes: set<Id>, d: set<Id>, c: Id, seen: set<Id>)
    requires Certified(g, m, classes, d) && c in g
    requires g[c] <= seen && Closed(g, m, seen)
    ensures Certified(g, m, classes + {c}, d + seen)
  {
  }

  lemma FailureKeepsChoice(g: Graph, m: map<Id, Id>, d: set<Id>, c: Id, d': set<Id>)
    requires Certified(g, m, Before(g, c), d) && ServesCanonical(g, m, Before(g, c))
    requires Certified(g, m, Before(g, c) + {c}, d')
    ensures ServesCanonical(g, m, Before(g, c) + {c})
  {
    UnservedIsNotAValue(m, Before(g, c), c);
    CertifiedSize(g, Before(g, c), m, d);
    CertifiedSize(g, Before(g, c) + {c}, m, d');
  }

  /** A successful search never touches what earlier failures closed, and never releases a class. */
  lemma SuccessKeepsCertificate(g: Graph, m: map<Id, Id>, classes: set<Id>, d: set<Id>, c: Id, path: seq<Id>)
    requires Certified(g, m, classes, d) && c !in classes
    requires Augments(g, m, c, path)
    ensures Certified(g, Shift(g, m, c, path), classes + {c}, d)
    ensures Shift(g, m, c, path).Values == m.Values + {c}
    ensures |Shift(g, m, c, path)| == |m| + 1
  {
    var m' := Shift(g, m, c, path);
    UnservedIsNotAValue(m, classes, c);
    ShiftIsInjective(g, m, c, path);
    ShiftFollowsEdges(g, m, c, path);
    PathAvoidsClosed(g, m, c, path, d);
    ShiftStaysClosed(g, m, c, path, d);
    ValuesAreUsed(m', classes + {c});
    ExhaustedAfter(g, m, m', classes, c, d);
    ValuesSize(m);
    ValuesSize(m');
  }

  lemma ExhaustedAfter(g: Graph, m: map<Id, Id>, m': map<Id, Id>, classes: set<Id>, c: Id, d: set<Id>)
    requires Exhausted(g, m, classes, d) && m'.Values == m.Values + {c}
    ensures Exhausted(g, m', classes + {c}, d)
  {
  }

  lemma ServesOneMore(g: Graph, m: map<Id, Id>, m': map<Id, Id>, classes: set<Id>, c: Id)
    requires ServesCanonical(g, m, classes) && Raises(g, c) && c !in classes && m'.Values == m.Values + {c}
    ensures ServesCanonical(g, m', classes + {c})
  {
  }

  lemma SuccessKeepsChoice(g: Graph, m: map<Id, Id>, d: set<Id>, c: Id, m': map<Id, Id>)
    requires Certified(g, m, Before(g, c), d) && ServesCanonical(g, m, Before(g, c))
    requires Certified(g, m', Before(g, c) + {c}, d) && |m'| == |m| + 1 && m'.Values == m.Values + {c}
    ensures ServesCanonical(g, m', Before(g, c) + {c})
  {
    CertifiedSize(g, Before(g, c), m, d);
    CertifiedSize(g, Before(g, c) + {c}, m', d);
    ServesOneMore(g, m, m', Before(g, c), c);
  }

  lemma ValuesAreUsed(m: map<Id, Id>, classes: set<Id>)
    requires m.Values <= classes
    ensures UsesOnly(m, classes)
  {
  }

  lemma ShiftStaysClosed(g: Graph, m: map<Id, Id>, c: Id, path: seq<Id>, d: set<Id>)
    requires Augments(g, m, c, path) && Closed(g, m, d)
    requires forall k :: k in path ==> k !in d
    ensures Closed(g, Shift(g, m, c, path), d)
  {
    forall k | k in d
      ensures k in Shift(g, m, c, path) && Shift(g, m, c, path)[k] == m[k]
    {
      ShiftElsewhere(g, m, c, path, k);
    }
  }

  class Matcher {
    const graph: Graph
    var matchComp: map<Id, Id>
    var seen: set<Id>

    constructor (graph: Graph)
      ensures this.graph == graph && matchComp == map[] && seen == {}
    {
      this.graph := graph;
      matchComp, seen := map[], {};
    }

    ghost function Components(): set<Id> {
      set c, k | c in graph && k in graph[c] :: k
    }

    /** Everything this search has looked at since `from` is taken, and so are the other components its
        partners could move to. */
    ghost predicate Explored(from: set<Id>)
      reads this
    {
      forall k :: k in seen && k !in from ==> k in matchComp && matchComp[k] in graph && graph[matchComp[k]] <= seen
    }

    /** Tries to give `cls` a component, moving partners along an augmenting path. On failure nothing has
        moved. */
    method Augment(cls: Id) returns (ok: bool, ghost path: seq<Id>)
      requires cls in graph && AlongEdges(graph, matchComp)
      modifies `matchComp, `seen
      ensures old(seen) <= seen
      ensures !ok ==> matchComp == old(matchComp) && graph[cls] <= seen && Explored(old(seen))
      ensures ok ==> Augments(graph, old(matchComp), cls, path)
      ensures ok ==> matchComp == Shift(graph, old(matchComp), cls, path)
      ensures ok ==> forall k :: k in path ==> k !in old(seen)
      decreases Components() - seen
    {
      var order := Ascending(graph[cls]);
      path := [];
      for i := 0 to |order|
        invariant old(seen) <= seen && matchComp == old(matchComp)
        invariant forall j :: 0 <= j < i ==> order[j] in seen
        invariant Explored(old(seen))
      {
        var comp := order[i];
        assert comp in Elems(order);
        if comp in seen {
          continue;
        }
        seen := seen + {comp};
        if comp !in matchComp {
          matchComp := matchComp[comp := cls];
          path := [comp];
          return true, path;
        }
        var moved;
        ghost var rest;
        moved, rest := Augment(matchComp[comp]);
        if moved {
          matchComp := matchComp[comp := cls];
          path := [comp] + rest;
          return true, path;
        }
      }
      ok := false;
      assert graph[cls] <= seen by {
        forall k | k in graph[cls] ensures k in seen {
          assert k in Elems(order);
        }
      }
    }
  }

  /** The number of classes that can be served at once, and which. Neither depends on the order in which
      components are tried. */
  method MaxBipartiteMatching(graph: Graph) returns (size: nat, classes: set<Id>)
    ensures size == MatchingNumber(graph, graph.Keys)
    ensures classes == CanonicalClasses(graph)
    ensures |classes| == size
  {
    var matcher := new Matcher(graph);
    var order := Ascending(graph.Keys);
    ghost var d := {};
    for i := 0 to |order|
      invariant Progress(graph, matcher.matchComp, Elems(order[..i]), d)
    {
      var cls := order[i];
      ghost var before := matcher.matchComp;
      assert cls in Elems(order);
      matcher.seen := {};
      var ok;
      ghost var path;
      ok, path := matcher.Augment(cls);
      if ok {
        SearchSucceeded(graph, order, i, before, d, path);
      } else {
        SearchFailed(graph, order, i, before, d, matcher.seen);
        d := d + matcher.seen;
      }
    }
    assert order[..|order|] == order;
    FinalMatching(graph, matcher.matchComp, d);
    return |matcher.matchComp|, matcher.matchComp.Values;
  }

  /** What the outer loop keeps. */
  ghost predicate Progress(g: Graph, m: map<Id, Id>, processed: set<Id>, d: set<Id>) {
    Certified(g, m, processed, d) && ServesCanonical(g, m, processed)
  }

  lemma SearchSucceeded(g: Graph, order: seq<Id>, i: nat, m: map<Id, Id>, d: set<Id>, path: seq<Id>)
    requires order == Ascending(g.Keys) && i < |order|
    requires Progress(g, m, Elems(order[..i]), d) && Augments(g, m, order[i], path)
    ensures Progress(g, Shift(g, m, order[i], path), Elems(order[..i + 1]), d)
  {
    var c := order[i];
    ProcessedAreBefore(g, order, i);
    SuccessKeepsCertificate(g, m, Before(g, c), d, c, path);
    SuccessKeepsChoice(g, m, d, c, Shift(g, m, c, path));
  }

  lemma SearchFailed(g: Graph, order: seq<Id>, i: nat, m: map<Id, Id>, d: set<Id>, seen: set<Id>)
    requires order == Ascending(g.Keys) && i < |order|
    requires Progress(g, m, Elems(order[..i]), d) && order[i] in g && g[order[i]] <= seen && Closed(g, m, seen)
    ensures Progress(g, m, Elems(order[..i + 1]), d + seen)
  {
    var c := order[i];
    ProcessedAreBefore(g, order, i);
    FailureKeepsCertificate(g, m, Before(g, c), d, c, seen);
    FailureKeepsChoice(g, m, d, c, d + seen);
  }

  lemma FinalMatching(g: Graph, m: map<Id, Id>, d: set<Id>)
    requires Progress(g, m, g.Keys, d)
    ensures |m| == MatchingNumber(g, g.Keys) == |m.Values|
    ensures m.Values == CanonicalClasses(g)
  {
    CertifiedSize(g, g.Keys, m, d);
    ValuesSize(m);
    CanonicalValues(g, m);
  }

  lemma CanonicalValues(g: Graph, m: map<Id, Id>)
    requires UsesOnly(m, g.Keys) && ServesCanonical(g, m, g.Keys)
    ensures m.Values == CanonicalClasses(g)
  {
  }

  lemma ProcessedAreBefore(g: Graph, order: seq<Id>, i: nat)
    requires StrictlyAscending(order) && Elems(order) == g.Keys && i < |order|
    ensures order[i] in g
    ensures Elems(order[..i]) == Before(g, order[i])
    ensures Elems(order[..i + 1]) == Before(g, order[i]) + {order[i]}
  {
  }
}
