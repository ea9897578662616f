/** Identifiers, and the two orderings every governed array is put in.

    The runtime names rules, indicators, observations and categories by strings and only ever compares
    them: for equality and in lexical order. A finite set of strings embeds in `nat` without changing
    either, so an identifier is the position of its string in that order. `0` is the empty string where
    the source distinguishes it. */
module Ids {

  type Id = nat

  datatype Option<+T> = None | Some(value: T)

  function Elems<T>(q: seq<T>): set<T> {
    set x | x in q
  }

  lemma ListedUnlessEmpty<T>(q: seq<T>)
    ensures q == [] || Elems(q) != {}
  {
    if q != [] {
      assert q[0] in Elems(q);
    }
  }

  predicate NoRepeats<T(==)>(q: seq<T>) {
    forall i, j :: 0 <= i < j < |q| ==> q[i] != q[j]
  }

  lemma OncePerElement<T>(q: seq<T>, s: set<T>)
    requires multiset(q) == multiset(s)
    ensures NoRepeats(q)
  {
    forall i, j | 0 <= i < j < |q| ensures q[i] != q[j] {
      assert q == q[..j] + q[j..];
      assert multiset(q)[q[j]] == multiset(q[..j])[q[j]] + multiset(q[j..])[q[j]];
      assert q[i] in q[..j] && q[j] in q[j..];
    }
  }

  lemma {:induction false} NoRepeatsByCount<T>(q: seq<T>)
    ensures |Elems(q)| <= |q|
    ensures NoRepeats(q) <==> |Elems(q)| == |q|
  {
    if q == [] {
    } else {
      var rest, last := q[..|q| - 1], q[|q| - 1];
      NoRepeatsByCount(rest);
      ElemsAppend(rest, last);
      assert q == rest + [last];
      if last in rest {
        var i :| 0 <= i < |rest| && rest[i] == last;
        assert q[i] == q[|q| - 1];
        assert Elems(rest) + {last} == Elems(rest);
      } else {
        assert last !in Elems(rest);
        assert NoRepeats(q) <==> NoRepeats(rest) by {
          if NoRepeats(q) {
            forall i, j | 0 <= i < j < |rest| ensures rest[i] != rest[j] {
              assert q[i] == rest[i] && q[j] == rest[j];
            }
          }
        }
      }
    }
  }

  lemma {:induction false} SubsetSize(a: set<Id>, b: set<Id>)
    requires a <= b
    ensures |a| <= |b|
  {
    if a != {} {
      var x :| x in a;
      SubsetSize(a - {x}, b - {x});
    }
  }

  /** `p` and its inverse `q` permute the first `n` positions. */
  ghost predicate Permutes(p: seq<nat>, q: seq<nat>, n: nat) {
    && |p| == n && |q| == n
    && (forall i :: 0 <= i < n ==> p[i] < n && q[i] < n)
    && (forall i :: 0 <= i < n ==> q[p[i]] == i && p[q[i]] == i)
  }

  // ---------------------------------------------------------------- identifiers in ascending order

  ghost predicate StrictlyAscending(q: seq<Id>) {
    forall i, j :: 0 <= i < j < |q| ==> q[i] < q[j]
  }

  predicate IsLeast(m: Id, s: set<Id>) {
    m in s && forall x :: x in s ==> m <= x
  }

  lemma {:induction false} LeastExists(s: set<Id>)
    requires s != {}
    ensures exists m :: IsLeast(m, s)
  {
    var x :| x in s;
    var rest := s - {x};
    if rest == {} {
      assert forall y :: y in s ==> y == x by {
        forall y | y in s ensures y == x { assert y !in rest; }
      }
      assert IsLeast(x, s);
    } else {
      LeastExists(rest);
      var m :| IsLeast(m, rest);
      var least := if x < m then x else m;
      forall y | y in s ensures least <= y {
        assert y == x || y in rest;
      }
      assert IsLeast(least, s);
    }
  }

  function Least(s: set<Id>): (m: Id)
    requires s != {}
    ensures IsLeast(m, s)
  {
    LeastExists(s);
    var m :| m in s && IsLeast(m, s);
    m
  }

  lemma ConsAscending(m: Id, rest: seq<Id>)
    requires StrictlyAscending(rest)
    requires forall x :: x in Elems(rest) ==> m < x
    ensures StrictlyAscending([m] + rest)
  {
    forall i | 0 <= i < |rest| ensures m < rest[i] {
      assert rest[i] in Elems(rest);
    }
  }

  lemma ElemsCons<T>(x: T, rest: seq<T>)
    ensures Elems([x] + rest) == {x} + Elems(rest)
  {
  }

  lemma ElemsAppend<T>(q: seq<T>, x: T)
    ensures Elems(q + [x]) == Elems(q) + {x}
  {
  }

  lemma ElemsOfPrefix<T>(q: seq<T>, i: nat)
    requires i < |q|
    ensures Elems(q[..i + 1]) == Elems(q[..i]) + {q[i]}
  {
  }

  lemma ElemsConcat<T>(p: seq<T>, q: seq<T>)
    ensures Elems(p + q) == Elems(p) + Elems(q)
  {
  }

  /** `sorted(set(ids))`. */
  function Ascending(s: set<Id>): (q: seq<Id>)
    ensures StrictlyAscending(q)
    ensures Elems(q) == s
  {
    if s == {} then [] else
      var m := Least(s);
      var rest := Ascending(s - {m});
      ConsAscending(m, rest);
      ElemsCons(m, rest);
      assert {m} + (s - {m}) == s;
      [m] + rest
  }

  /** `sorted(set(ids))` for a list with repetitions. */
  function SortedUnique(q: seq<Id>): seq<Id> {
    Ascending(Elems(q))
  }

  /** An ascending array is the only one listing its elements, so arrays in canonical form are equal
      exactly when they list the same set. */
  lemma {:induction false} AscendingIsUnique(p: seq<Id>, q: seq<Id>)
    requires StrictlyAscending(p) && StrictlyAscending(q)
    requires Elems(p) == Elems(q)
    ensures p == q
  {
    assert p == [] <==> Elems(p) == {} by { assert p != [] ==> p[0] in Elems(p); }
    assert q == [] <==> Elems(q) == {} by { assert q != [] ==> q[0] in Elems(q); }
    if p != [] {
      assert p[0] in Elems(q) && q[0] in Elems(p);
      assert p[0] == q[0];
      forall x ensures x in Elems(p[1..]) <==> x in Elems(q[1..]) {
        assert x in p <==> x in q by { assert x in Elems(p) <==> x in Elems(q); }
        assert x in p[1..] <==> x in p && x != p[0];
        assert x in q[1..] <==> x in q && x != q[0];
      }
      AscendingIsUnique(p[1..], q[1..]);
      assert p == [p[0]] + p[1..] && q == [q[0]] + q[1..];
    }
  }

  lemma AscendingIsIdempotent(s: set<Id>)
    ensures SortedUnique(Ascending(s)) == Ascending(s)
  {
  }

  // ---------------------------------------------------------------- records in key order

  /** Lexicographic comparison of sort keys, as Python compares tuples and lists. */
  predicate LexLeq(a: seq<nat>, b: seq<nat>) {
    a == [] || (b != [] && (a[0] < b[0] || (a[0] == b[0] && LexLeq(a[1..], b[1..]))))
  }

  lemma {:induction false} LexTotal(a: seq<nat>, b: seq<nat>)
    ensures LexLeq(a, b) || LexLeq(b, a)
  {
    if a != [] && b != [] && a[0] == b[0] {
      LexTotal(a[1..], b[1..]);
    }
  }

  lemma {:induction false} LexAntisymmetric(a: seq<nat>, b: seq<nat>)
    requires LexLeq(a, b) && LexLeq(b, a)
    ensures a == b
  {
    if a != [] {
      LexAntisymmetric(a[1..], b[1..]);
      assert a == [a[0]] + a[1..] && b == [b[0]] + b[1..];
    }
  }

  lemma {:induction false} LexTransitive(a: seq<nat>, b: seq<nat>, c: seq<nat>)
    requires LexLeq(a, b) && LexLeq(b, c)
    ensures LexLeq(a, c)
  {
    if a != [] && a[0] == b[0] && b[0] == c[0] {
      LexTransitive(a[1..], b[1..], c[1..]);
    }
  }

  ghost predicate KeyIdentifies<T>(m: multiset<T>, key: T -> seq<nat>) {
    forall a, b :: a in m && b in m && key(a) == key(b) ==> a == b
  }

  predicate FirstByKey<T(==)>(x: T, m: multiset<T>, key: T -> seq<nat>) {
    x in m && forall y :: y in m ==> LexLeq(key(x), key(y))
  }

  lemma {:induction false} FirstByKeyExists<T>(m: multiset<T>, key: T -> seq<nat>)
    requires m != multiset{}
    ensures exists x :: FirstByKey(x, m, key)
    decreases |m|
  {
    var x :| x in m;
    LexTotal(key(x), key(x));
    if m == multiset{x} {
      assert FirstByKey(x, m, key);
    } else {
      FirstByKeyExists(m - multiset{x}, key);
      var y :| FirstByKey(y, m - multiset{x}, key);
      LexTotal(key(x), key(y));
      var first := if LexLeq(key(x), key(y)) then x else y;
      forall z | z in m ensures LexLeq(key(first), key(z)) {
        if z != x {
          assert z in m - multiset{x};
          LexTransitive(key(first), key(y), key(z));
        }
      }
      assert FirstByKey(first, m, key);
    }
  }

  lemma FirstByKeyIsUnique<T>(x: T, y: T, m: multiset<T>, key: T -> seq<nat>)
    requires KeyIdentifies(m, key)
    requires FirstByKey(x, m, key) && FirstByKey(y, m, key)
    ensures x == y
  {
    LexAntisymmetric(key(x), key(y));
  }

  lemma FirstByKeyIsDefinite<T(!new)>(m: multiset<T>, key: T -> seq<nat>)
    requires KeyIdentifies(m, key) && m != multiset{}
    ensures exists x :: FirstByKey(x, m, key)
    ensures forall x, y :: FirstByKey(x, m, key) && FirstByKey(y, m, key) ==> x == y
  {
    FirstByKeyExists(m, key);
    forall x, y | FirstByKey(x, m, key) && FirstByKey(y, m, key) ensures x == y {
      FirstByKeyIsUnique(x, y, m, key);
    }
  }

  function FirstOf<T(==, !new)>(m: multiset<T>, key: T -> seq<nat>): (x: T)
    requires KeyIdentifies(m, key) && m != multiset{}
    ensures FirstByKey(x, m, key)
  {
    FirstByKeyIsDefinite(m, key);
    var x :| x in m && FirstByKey(x, m, key);
    x
  }

  /** `sorted(records, key=...)`: a function of the multiset of records alone, because a key identifies
      its record. */
  function SortBy<T(==, !new)>(m: multiset<T>, key: T -> seq<nat>): (q: seq<T>)
    requires KeyIdentifies(m, key)
    ensures multiset(q) == m
    decreases |m|
  {
    if m == multiset{} then [] else
      var x := FirstOf(m, key);
      [x] + SortBy(m - multiset{x}, key)
  }
}
