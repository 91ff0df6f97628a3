/**
 Least elements, rankings and strictly ascending lists of finite sets under a given total
 preorder. The source sorts with keys; a ranking here is any duplicate-free list of the set in
 which earlier elements come before later ones.
 */
module Ordering {

  ghost predicate TotalPreorder<T(!new)>(le: (T, T) -> bool) {
    && (forall x, y :: le(x, y) || le(y, x))
    && (forall x, y, z :: le(x, y) && le(y, z) ==> le(x, z))
  }

  ghost predicate Antisymmetric<T(!new)>(le: (T, T) -> bool) {
    forall x, y :: le(x, y) && le(y, x) ==> x == y
  }

  ghost predicate Distinct<T(!new)>(s: seq<T>) { forall i, j | 0 <= i < j < |s| :: s[i] != s[j] }

  ghost predicate Ranked<T>(r: seq<T>, le: (T, T) -> bool) {
    forall i, j | 0 <= i < j < |r| :: le(r[i], r[j])
  }

  ghost predicate Enumerates<T(!new)>(r: seq<T>, s: set<T>) {
    && (forall x :: x in r <==> x in s)
    && (forall i, j | 0 <= i < j < |r| :: r[i] != r[j])
  }

  method Least<T(==, !new)>(s: set<T>, le: (T, T) -> bool) returns (m: T)
    requires s != {} && TotalPreorder(le)
    ensures m in s && forall x | x in s :: le(m, x)
  {
    m :| m in s;
    var todo := s;
    while todo != {}
      invariant todo <= s && m in s
      invariant forall x | x in s && x !in todo :: le(m, x)
      decreases |todo|
    {
      var x :| x in todo;
      if !le(m, x) { m := x; }
      todo := todo - {x};
    }
  }

  method Ranking<T(==, !new)>(s: set<T>, le: (T, T) -> bool) returns (r: seq<T>)
    requires TotalPreorder(le)
    ensures Enumerates(r, s) && Ranked(r, le)
  {
    r := [];
    var todo := s;
    while todo != {}
      invariant todo <= s
      invariant Enumerates(r, s - todo) && Ranked(r, le)
      invariant forall x, y | x in r && y in todo :: le(x, y)
      decreases |todo|
    {
      var x := Least(todo, le);
      assert s - (todo - {x}) == (s - todo) + {x};
      todo := todo - {x};
      r := r + [x];
    }
    assert s - todo == s;
  }

  ghost predicate Ascending<T>(r: seq<T>, lt: (T, T) -> bool) {
    forall i, j | 0 <= i < j < |r| :: lt(r[i], r[j])
  }

  lemma InItself<T>(a: seq<T>, i: nat)
    ensures i < |a| ==> a[i] in a
  {
  }

  lemma FirstBefore<T>(a: seq<T>, lt: (T, T) -> bool, i: nat)
    requires Ascending(a, lt) && i < |a|
    ensures i == 0 || lt(a[0], a[i])
  {
  }

  /** Two strictly ascending lists of the same elements are the same list. */
  lemma {:induction false} AscendingUnique<T(!new)>(a: seq<T>, b: seq<T>, lt: (T, T) -> bool)
    requires forall x, y :: lt(x, y) ==> !lt(y, x)
    requires Ascending(a, lt) && Ascending(b, lt)
    requires forall x :: x in a <==> x in b
    ensures a == b
    decreases |a|
  {
    InItself(a, 0);
    InItself(b, 0);
    if a != [] {
      var i :| 0 <= i < |a| && a[i] == b[0];
      var j :| 0 <= j < |b| && b[j] == a[0];
      FirstBefore(a, lt, i);
      FirstBefore(b, lt, j);
      assert a[0] == b[0];
      forall x ensures x in a[1..] <==> x in b[1..] {
        TailMembers(a, lt, x);
        TailMembers(b, lt, x);
      }
      AscendingUnique(a[1..], b[1..], lt);
      assert a == [a[0]] + a[1..] && b == [b[0]] + b[1..];
    }
  }

  lemma TailMembers<T(!new)>(a: seq<T>, lt: (T, T) -> bool, x: T)
    requires a != [] && Ascending(a, lt) && forall x, y :: lt(x, y) ==> !lt(y, x)
    ensures x in a[1..] <==> x in a && x != a[0]
  {
    if x in a && x != a[0] {
      var i :| 0 <= i < |a| && a[i] == x;
      assert a[1..][i - 1] == x;
    }
    if x in a[1..] {
      var i :| 0 <= i < |a[1..]| && a[1..][i] == x;
      assert lt(a[0], a[i + 1]);
    }
  }
}
