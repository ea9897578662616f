/** The disjoint-set forest that merges observation references into provenance components. */
module UnionFind {
  import opened Ids

  // ---------------------------------------------------------------- connectivity, independently of the forest

  ghost predicate Adjacent(links: set<(Id, Id)>, x: Id, y: Id) {
    (x, y) in links || (y, x) in links
  }

  ghost predicate Chain(links: set<(Id, Id)>, p: seq<Id>) {
    forall i :: 0 <= i < |p| - 1 ==> Adjacent(links, p[i], p[i + 1])
  }

  ghost predicate ChainFromTo(links: set<(Id, Id)>, p: seq<Id>, x: Id, y: Id) {
    p != [] && p[0] == x && p[|p| - 1] == y && Chain(links, p)
  }

  /** Some chain of links leads from `x` to `y`. */
  ghost predicate Linked(links: set<(Id, Id)>, x: Id, y: Id) {
    exists p :: ChainFromTo(links, p, x, y)
  }

  lemma LinkedReflexive(links: set<(Id, Id)>, x: Id)
    ensures Linked(links, x, x)
  {
    assert ChainFromTo(links, [x], x, x);
  }

  lemma LinkedDirectly(links: set<(Id, Id)>, x: Id, y: Id)
    requires Adjacent(links, x, y)
    ensures Linked(links, x, y)
  {
    assert ChainFromTo(links, [x, y], x, y);
  }

  lemma LinkedTransitive(links: set<(Id, Id)>, x: Id, y: Id, z: Id)
    requires Linked(links, x, y) && Linked(links, y, z)
    ensures Linked(links, x, z)
  {
    var p :| ChainFromTo(links, p, x, y);
    var q :| ChainFromTo(links, q, y, z);
    var r := p + q[1..];
    forall i | 0 <= i < |r| - 1 ensures Adjacent(links, r[i], r[i + 1]) {
      if i >= |p| - 1 {
        assert r[i] == q[i - |p| + 1] && r[i + 1] == q[i - |p| + 2];
      }
    }
    assert ChainFromTo(links, r, x, z);
  }

  lemma {:induction false} LinkedWithin(links: set<(Id, Id)>, links': set<(Id, Id)>, p: seq<Id>, x: Id, y: Id)
    requires ChainFromTo(links, p, x, y)
    requires forall a, b :: (a, b) in links ==> Linked(links', a, b) && Linked(links', b, a)
    ensures Linked(links', x, y)
  {
    if |p| == 1 {
      LinkedReflexive(links', x);
    } else {
      assert Adjacent(links, p[0], p[1]);
      assert Chain(links, p[1..]) by {
        forall i | 0 <= i < |p[1..]| - 1 ensures Adjacent(links, p[1..][i], p[1..][i + 1]) {
          assert Adjacent(links, p[i + 1], p[i + 2]);
        }
      }
      LinkedWithin(links, links', p[1..], p[1], y);
      LinkedTransitive(links', x, p[1], y);
    }
  }

  /** Connectivity depends only on what the links themselves connect. */
  lemma LinkedMonotone(links: set<(Id, Id)>, links': set<(Id, Id)>, x: Id, y: Id)
    requires Linked(links, x, y)
    requires forall a, b :: (a, b) in links ==> Linked(links', a, b) && Linked(links', b, a)
    ensures Linked(links', x, y)
  {
    var p :| ChainFromTo(links, p, x, y);
    LinkedWithin(links, links', p, x, y);
  }

  lemma LinkedSymmetric(links: set<(Id, Id)>, x: Id, y: Id)
    requires Linked(links, x, y)
    ensures Linked(links, y, x)
  {
    var p :| ChainFromTo(links, p, x, y);
    var q := seq(|p|, i requires 0 <= i < |p| => p[|p| - 1 - i]);
    forall i | 0 <= i < |q| - 1 ensures Adjacent(links, q[i], q[i + 1]) {
      assert Adjacent(links, p[|p| - 2 - i], p[|p| - 1 - i]);
    }
    assert ChainFromTo(links, q, y, x);
  }

  /** A node no link mentions is connected to itself only. */
  lemma LinkedOutside(links: set<(Id, Id)>, x: Id, y: Id)
    requires Linked(links, x, y) && x != y
    ensures exists z :: Adjacent(links, x, z)
    ensures exists z :: Adjacent(links, y, z)
  {
    var p :| ChainFromTo(links, p, x, y);
    assert Adjacent(links, p[0], p[1]);
    assert Adjacent(links, p[|p| - 2], p[|p| - 1]);
    assert Adjacent(links, y, p[|p| - 2]);
  }

  lemma {:induction false} LinkedAlong(links: set<(Id, Id)>, a: Id, b: Id, p: seq<Id>, x: Id, y: Id)
    requires ChainFromTo(links + {(a, b)}, p, x, y)
    ensures Linked(links, x, y)
         || (Linked(links, x, a) && Linked(links, b, y))
         || (Linked(links, x, b) && Linked(links, a, y))
  {
    if |p| == 1 {
      LinkedReflexive(links, x);
    } else {
      var q := p[1..];
      assert Chain(links + {(a, b)}, q) by {
        forall i | 0 <= i < |q| - 1 ensures Adjacent(links + {(a, b)}, q[i], q[i + 1]) {
          assert Adjacent(links + {(a, b)}, p[i + 1], p[i + 2]);
        }
      }
      LinkedAlong(links, a, b, q, p[1], y);
      assert Adjacent(links + {(a, b)}, p[0], p[1]);
      PrependStep(links, a, b, x, p[1], y);
    }
  }

  lemma PrependStep(links: set<(Id, Id)>, a: Id, b: Id, x: Id, z: Id, y: Id)
    requires Adjacent(links + {(a, b)}, x, z)
    requires Linked(links, z, y)
          || (Linked(links, z, a) && Linked(links, b, y))
          || (Linked(links, z, b) && Linked(links, a, y))
    ensures Linked(links, x, y)
         || (Linked(links, x, a) && Linked(links, b, y))
         || (Linked(links, x, b) && Linked(links, a, y))
  {
    LinkedReflexive(links, a);
    LinkedReflexive(links, b);
    if Adjacent(links, x, z) {
      LinkedDirectly(links, x, z);
      if Linked(links, z, y) { LinkedTransitive(links, x, z, y); }
      if Linked(links, z, a) { LinkedTransitive(links, x, z, a); }
      if Linked(links, z, b) { LinkedTransitive(links, x, z, b); }
    }
  }

  /** Exactly what one new link connects. */
  lemma LinkedAfterLink(links: set<(Id, Id)>, a: Id, b: Id, x: Id, y: Id)
    ensures Linked(links + {(a, b)}, x, y) <==>
            (Linked(links, x, y)
             || (Linked(links, x, a) && Linked(links, b, y))
             || (Linked(links, x, b) && Linked(links, a, y)))
  {
    var more := links + {(a, b)};
    if Linked(more, x, y) {
      var p :| ChainFromTo(more, p, x, y);
      LinkedAlong(links, a, b, p, x, y);
    }
    LinkedDirectly(more, a, b);
    LinkedDirectly(more, b, a);
    forall u, v | Linked(links, u, v) ensures Linked(more, u, v) {
      var p :| ChainFromTo(links, p, u, v);
      assert ChainFromTo(more, p, u, v);
    }
    if Linked(links, x, a) && Linked(links, b, y) {
      LinkedTransitive(more, x, a, b);
      LinkedTransitive(more, x, b, y);
    }
    if Linked(links, x, b) && Linked(links, a, y) {
      LinkedTransitive(more, x, b, a);
      LinkedTransitive(more, x, a, y);
    }
  }

  // ---------------------------------------------------------------- forests as maps

  /** Parents never exceed their node, which is why walking up terminates. */
  ghost predicate Forest(parent: map<Id, Id>) {
    forall x {:trigger parent[x]} :: x in parent ==> parent[x] in parent && parent[x] <= x
  }

  ghost function Root(parent: map<Id, Id>, x: Id): (root: Id)
    requires Forest(parent) && x in parent
    ensures root in parent && parent[root] == root && root <= x
  {
    if parent[x] == x then x else Root(parent, parent[x])
  }

  lemma {:induction false} RootAfterRepointing(parent: map<Id, Id>, node: Id, up: Id, y: Id)
    requires Forest(parent) && node in parent && y in parent
    requires up in parent && up <= node && Root(parent, up) == up
    requires up == Root(parent, node) || parent[node] == node
    ensures Forest(parent[node := up])
    ensures Root(parent[node := up], y) == if Root(parent, y) == Root(parent, node) then up else Root(parent, y)
    decreases y
  {
    var parent' := parent[node := up];
    if y == node {
      if up != node {
        assert parent'[node] == up && parent'[up] == up;
      }
    } else if parent[y] != y {
      RootAfterRepointing(parent, node, up, parent[y]);
    }
  }

  lemma {:induction false} RootAfterNewNode(parent: map<Id, Id>, x: Id, y: Id)
    requires Forest(parent) && x !in parent && y in parent
    ensures Root(parent[x := x], y) == Root(parent, y)
    decreases y
  {
    if parent[y] != y {
      RootAfterNewNode(parent, x, parent[y]);
    }
  }

  /** Every linked node is in the forest. */
  ghost predicate Covers(parent: map<Id, Id>, links: set<(Id, Id)>) {
    forall a, b :: (a, b) in links ==> a in parent && b in parent
  }

  /** Two nodes have the same root exactly when the links connect them. */
  ghost predicate RootsAnswer(parent: map<Id, Id>, links: set<(Id, Id)>)
    requires Forest(parent)
  {
    forall x, y {:trigger Linked(links, x, y)} :: x in parent && y in parent ==>
      (Root(parent, x) == Root(parent, y) <==> Linked(links, x, y))
  }

  ghost predicate Represents(parent: map<Id, Id>, links: set<(Id, Id)>) {
    Forest(parent) && Covers(parent, links) && RootsAnswer(parent, links)
  }

  ghost predicate SameRoots(parent: map<Id, Id>, parent': map<Id, Id>) {
    && Forest(parent) && Forest(parent')
    && forall y {:trigger Root(parent', y)} :: y in parent ==> y in parent' && Root(parent', y) == Root(parent, y)
  }

  ghost predicate SameNodes(parent: map<Id, Id>, parent': map<Id, Id>) {
    forall y :: y in parent' <==> y in parent
  }

  lemma RepresentationIsAboutRoots(parent: map<Id, Id>, parent': map<Id, Id>, links: set<(Id, Id)>)
    requires Represents(parent, links) && SameRoots(parent, parent') && SameNodes(parent, parent')
    ensures Represents(parent', links)
  {
  }

  lemma CompressionKeepsRoots(parent: map<Id, Id>, node: Id)
    requires Forest(parent) && node in parent
    ensures SameRoots(parent, parent[node := Root(parent, node)])
  {
    var root := Root(parent, node);
    RootAfterRepointing(parent, node, root, node);
    forall y | y in parent ensures Root(parent[node := root], y) == Root(parent, y) {
      RootAfterRepointing(parent, node, root, y);
    }
  }

  lemma NewNodeIsAlone(parent: map<Id, Id>, x: Id, links: set<(Id, Id)>, y: Id)
    requires Represents(parent, links) && x !in parent && y in parent
    ensures !Linked(links, x, y) && !Linked(links, y, x)
  {
    if Linked(links, x, y) { LinkedOutside(links, x, y); }
    if Linked(links, y, x) { LinkedOutside(links, y, x); }
  }

  lemma RootsAfterNewNode(parent: map<Id, Id>, x: Id)
    requires Forest(parent) && x !in parent
    ensures SameRoots(parent, parent[x := x])
  {
    forall y | y in parent ensures Root(parent[x := x], y) == Root(parent, y) {
      RootAfterNewNode(parent, x, y);
    }
  }

  lemma RepresentsAfterNewNode(parent: map<Id, Id>, x: Id, links: set<(Id, Id)>)
    requires Represents(parent, links) && x !in parent
    ensures Represents(parent[x := x], links)
  {
    RootsAfterNewNode(parent, x);
    LinkedReflexive(links, x);
    forall y, z | y in parent[x := x] && z in parent[x := x]
      ensures Root(parent[x := x], y) == Root(parent[x := x], z) <==> Linked(links, y, z)
    {
      if y != x && z == x {
        NewNodeIsAlone(parent, x, links, y);
      } else if y == x && z != x {
        NewNodeIsAlone(parent, x, links, z);
      }
    }
  }

  function Repoint(parent: map<Id, Id>, ra: Id, rb: Id): map<Id, Id> {
    if ra == rb then parent
    else if ra < rb then parent[rb := ra]
    else parent[ra := rb]
  }

  lemma RepointKeepsNodes(parent: map<Id, Id>, ra: Id, rb: Id, y: Id)
    requires ra in parent && rb in parent
    ensures y in Repoint(parent, ra, rb) <==> y in parent
  {
  }

  lemma RootsAfterUniting(parent: map<Id, Id>, ra: Id, rb: Id, y: Id)
    requires Forest(parent) && ra in parent && rb in parent && y in parent
    requires Root(parent, ra) == ra && Root(parent, rb) == rb
    ensures Forest(Repoint(parent, ra, rb)) && y in Repoint(parent, ra, rb)
    ensures var root := Root(parent, y);
      Root(Repoint(parent, ra, rb), y) == if root == ra || root == rb then (if ra < rb then ra else rb) else root
  {
    if ra < rb {
      RootAfterRepointing(parent, rb, ra, y);
    } else if rb < ra {
      RootAfterRepointing(parent, ra, rb, y);
    }
  }

  lemma SameRootMeansLinked(parent: map<Id, Id>, links: set<(Id, Id)>, x: Id, y: Id)
    requires Represents(parent, links) && x in parent && y in parent
    ensures Root(parent, x) == Root(parent, y) <==> Linked(links, x, y)
  {
  }

  lemma UnitingLinks(parent: map<Id, Id>, a: Id, b: Id, links: set<(Id, Id)>, ra: Id, rb: Id, x: Id, y: Id)
    requires Represents(parent, links) && a in parent && b in parent && x in parent && y in parent
    requires ra == Root(parent, a) && rb == Root(parent, b)
    ensures Forest(Repoint(parent, ra, rb)) && x in Repoint(parent, ra, rb) && y in Repoint(parent, ra, rb)
    ensures Root(Repoint(parent, ra, rb), x) == Root(Repoint(parent, ra, rb), y)
            <==> Linked(links + {(a, b)}, x, y)
  {
    LinkedAfterLink(links, a, b, x, y);
    RootsAfterUniting(parent, ra, rb, x);
    RootsAfterUniting(parent, ra, rb, y);
    SameRootMeansLinked(parent, links, x, y);
    SameRootMeansLinked(parent, links, x, a);
    SameRootMeansLinked(parent, links, x, b);
    SameRootMeansLinked(parent, links, a, y);
    SameRootMeansLinked(parent, links, b, y);
  }

  lemma UnitingRootsAddsTheLink(parent: map<Id, Id>, a: Id, b: Id, links: set<(Id, Id)>, ra: Id, rb: Id)
    requires Represents(parent, links) && a in parent && b in parent
    requires ra == Root(parent, a) && rb == Root(parent, b)
    ensures Represents(Repoint(parent, ra, rb), links + {(a, b)})
  {
    RootsAfterUniting(parent, ra, rb, a);
    UnitingCovers(parent, a, b, links, ra, rb);
    UnitingAnswers(parent, a, b, links, ra, rb);
  }

  lemma UnitingCovers(parent: map<Id, Id>, a: Id, b: Id, links: set<(Id, Id)>, ra: Id, rb: Id)
    requires Covers(parent, links) && a in parent && b in parent && ra in parent && rb in parent
    ensures Covers(Repoint(parent, ra, rb), links + {(a, b)})
  {
  }

  lemma UnitingAnswers(parent: map<Id, Id>, a: Id, b: Id, links: set<(Id, Id)>, ra: Id, rb: Id)
    requires Represents(parent, links) && a in parent && b in parent
    requires ra == Root(parent, a) && rb == Root(parent, b)
    requires Forest(Repoint(parent, ra, rb))
    ensures RootsAnswer(Repoint(parent, ra, rb), links + {(a, b)})
  {
    var parent' := Repoint(parent, ra, rb);
    forall x, y | x in parent' && y in parent'
      ensures Root(parent', x) == Root(parent', y) <==> Linked(links + {(a, b)}, x, y)
    {
      RepointKeepsNodes(parent, ra, rb, x);
      RepointKeepsNodes(parent, ra, rb, y);
      UnitingLinks(parent, a, b, links, ra, rb, x, y);
    }
  }

  /** The root names its component: it is the least element of it. */
  lemma RootIsLeast(parent: map<Id, Id>, links: set<(Id, Id)>, x: Id)
    requires Represents(parent, links) && x in parent
    ensures Linked(links, x, Root(parent, x))
    ensures forall y :: Linked(links, x, y) ==> Root(parent, x) <= y
  {
    SameRootMeansLinked(parent, links, x, Root(parent, x));
    forall y | Linked(links, x, y) ensures Root(parent, x) <= y {
      LinkedStaysInside(parent, links, x, y);
      SameRootMeansLinked(parent, links, x, y);
    }
  }

  lemma LinkedStaysInside(parent: map<Id, Id>, links: set<(Id, Id)>, x: Id, y: Id)
    requires Covers(parent, links) && x in parent && Linked(links, x, y)
    ensures y in parent
  {
    if y != x {
      LinkedOutside(links, x, y);
    }
  }

  // ---------------------------------------------------------------- the mutable structure

  class DisjointSets {
    var parent: map<Id, Id>
    /** Every pair ever united. */
    ghost var links: set<(Id, Id)>

    /** Kept by every operation, whatever sequence of finds and unions came before. */
    ghost predicate Valid()
      reads this
    {
      Represents(parent, links)
    }

    constructor ()
      ensures Valid() && parent == map[] && links == {}
    {
      parent, links := map[], {};
    }

    method Find(x: Id) returns (root: Id)
      requires Valid()
      modifies `parent
      ensures Valid()
      ensures forall y :: y in parent <==> y == x || y in old(parent)
      ensures root == Root(parent, x)
      ensures SameRoots(old(parent), parent)
    {
      if x !in parent {
        RootsAfterNewNode(parent, x);
        RepresentsAfterNewNode(parent, x, links);
        parent := parent[x := x];
      }
      root := x;
      while parent[root] != root
        invariant root in parent
        invariant Root(parent, root) == Root(parent, x)
        decreases root
      {
        root := parent[root];
      }
      ghost var start := parent;
      Compress(x, root);
      RepresentationIsAboutRoots(start, parent, links);
    }

    /** The second loop of `find`: every node on the way up is hung directly below the root. */
    method Compress(x: Id, root: Id)
      requires Forest(parent) && x in parent && root == Root(parent, x)
      modifies `parent
      ensures SameNodes(old(parent), parent) && SameRoots(old(parent), parent)
    {
      ghost var start := parent;
      var node := x;
      while parent[node] != root
        invariant SameRoots(start, parent) && SameNodes(start, parent)
        invariant node in parent && Root(parent, node) == root
        decreases node
      {
        var next := parent[node];
        CompressionKeepsRoots(parent, node);
        parent := parent[node := root];
        node := next;
      }
    }

    method Union(a: Id, b: Id)
      requires Valid()
      modifies this
      ensures Valid()
      ensures links == old(links) + {(a, b)}
      ensures forall y :: y in parent <==> y == a || y == b || y in old(parent)
    {
      var ra := Find(a);
      var rb := Find(b);
      UnitingRootsAddsTheLink(parent, a, b, links, ra, rb);
      if ra != rb {
        parent := parent[(if ra < rb then rb else ra) := if ra < rb then ra else rb];
      }
      links := links + {(a, b)};
    }
  }
}
