/**
 Least elements, canonical enumerations and cardinalities of finite sets of ids. Loops of the
 source run over sorted ids; here they take the least element of what is left, or walk the
 canonical enumeration.
 */
module FiniteSets {

  /** A witness of non-emptiness. */
  lemma Pick<T>(s: set<T>) returns (y: T)
    requires s != {}
    ensures y in s
  {
    y :| y in s;
  }

  lemma Meets(a: set<int>, b: set<int>)
    ensures a * b != {} <==> exists x :: x in a && x in b
  {
    if a * b != {} {
      var x := Pick(a * b);
      assert x in a && x in b;
    }
    if x :| x in a && x in b { assert x in a * b; }
  }

  /** What is done grows by what is taken from what is left. */
  lemma OneLess<T>(all: set<T>, todo: set<T>, x: T)
    requires x in todo && todo <= all
    ensures all - (todo - {x}) == (all - todo) + {x}
  {
  }

  lemma {:induction false} MinExists(s: set<int>)
    requires s != {}
    ensures exists m :: m in s && forall x | x in s :: m <= x
  {
    var y := Pick(s);
    if s != {y} {
      MinExists(s - {y});
      var m :| m in s - {y} && forall x | x in s - {y} :: m <= x;
      var r := if y < m then y else m;
      assert r in s;
      forall x | x in s ensures r <= x { assert x == y || x in s - {y}; }
    }
  }

  function Min(s: set<int>): (m: int)
    requires s != {}
    ensures m in s && forall x | x in s :: m <= x
  {
    MinExists(s);
    var m :| m in s && forall x | x in s :: m <= x;
    m
  }

  /** The canonical (ascending, duplicate-free) enumeration of a finite set. */
  function Sorted(s: set<int>): (r: seq<int>)
    ensures |r| == |s|
    ensures forall x :: x in r <==> x in s
    ensures forall i, j | 0 <= i < j < |r| :: r[i] < r[j]
    decreases |s|
  {
    if s == {} then [] else
      var m := Min(s);
      var rest := Sorted(s - {m});
      assert forall x :: x in s <==> x == m || x in s - {m};
      [m] + rest
  }

  lemma SubsetCardinality<T>(a: set<T>, b: set<T>)
    requires a <= b
    ensures |a| <= |b|
  {
    assert b == a + (b - a);
  }
}
