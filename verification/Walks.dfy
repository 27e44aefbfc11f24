/** Walks, cycles and finishing orders of a finite directed graph. */
module Walks {
  type Id = string

  type Arcs = set<(Id, Id)>

  ghost predicate Walk(arcs: Arcs, p: seq<Id>) {
    |p| > 0 && forall i, j :: 0 <= i && j == i + 1 && j < |p| ==> (p[i], p[j]) in arcs
  }

  ghost predicate Joins(arcs: Arcs, p: seq<Id>, u: Id, v: Id) {
    Walk(arcs, p) && p[0] == u && p[|p| - 1] == v
  }

  /** v can be reached from u in zero or more steps. */
  ghost predicate Reaches(arcs: Arcs, u: Id, v: Id) {
    exists p :: Joins(arcs, p, u, v)
  }

  ghost predicate OnCycle(arcs: Arcs, x: Id) {
    exists p :: Joins(arcs, p, x, x) && |p| > 1
  }

  ghost predicate ReachedFrom(arcs: Arcs, roots: set<Id>, v: Id) {
    exists r :: r in roots && Reaches(arcs, r, v)
  }

  ghost predicate CycleReachable(arcs: Arcs, roots: set<Id>) {
    exists x :: ReachedFrom(arcs, roots, x) && OnCycle(arcs, x)
  }

  ghost predicate Distinct(s: seq<Id>) {
    forall i, j :: 0 <= i < j < |s| ==> s[i] != s[j]
  }

  /** Every id in the order comes after all of its successors. */
  ghost predicate SuccessorsFirst(arcs: Arcs, order: seq<Id>) {
    forall i, v :: 0 <= i < |order| && (order[i], v) in arcs ==> v in order[..i]
  }

  lemma ReachesSelf(arcs: Arcs, u: Id)
    ensures Reaches(arcs, u, u)
  {
    assert Joins(arcs, [u], u, u);
  }

  lemma JoinsConcat(arcs: Arcs, p: seq<Id>, q: seq<Id>, u: Id, v: Id, w: Id)
    requires Joins(arcs, p, u, v) && Joins(arcs, q, v, w)
    ensures Joins(arcs, p + q[1..], u, w)
  {
    var r := p + q[1..];
    forall i, j | 0 <= i && j == i + 1 && j < |r|
      ensures (r[i], r[j]) in arcs
    {
      if j >= |p| {
        assert r[j] == q[j - |p| + 1];
        assert r[i] == q[i - |p| + 1];
      }
    }
  }

  lemma ReachesTransitive(arcs: Arcs, u: Id, v: Id, w: Id)
    requires Reaches(arcs, u, v) && Reaches(arcs, v, w)
    ensures Reaches(arcs, u, w)
  {
    var p :| Joins(arcs, p, u, v);
    var q :| Joins(arcs, q, v, w);
    JoinsConcat(arcs, p, q, u, v, w);
  }

  lemma LeavesByArc(arcs: Arcs, u: Id, v: Id)
    requires Reaches(arcs, u, v) && u != v
    ensures exists w :: (u, w) in arcs
  {
    var p :| Joins(arcs, p, u, v);
    assert (p[0], p[1]) in arcs;
  }

  lemma WalkSlice(arcs: Arcs, p: seq<Id>, i: nat, j: nat)
    requires Walk(arcs, p) && i <= j < |p|
    ensures Joins(arcs, p[i..j + 1], p[i], p[j])
  {
  }

  lemma ReachesAlong(arcs: Arcs, p: seq<Id>, i: nat, j: nat)
    requires Walk(arcs, p) && i <= j < |p|
    ensures Reaches(arcs, p[i], p[j])
  {
    WalkSlice(arcs, p, i, j);
  }

  /** A walk that leaves an id of the order only ever moves to strictly earlier positions. */
  lemma {:induction false} WalkDescends(arcs: Arcs, order: seq<Id>, p: seq<Id>, i: nat)
    requires SuccessorsFirst(arcs, order) && Walk(arcs, p)
    requires i < |order| && p[0] == order[i]
    ensures p[|p| - 1] in (if |p| == 1 then order[..i + 1] else order[..i])
    decreases |p|
  {
    if |p| > 1 {
      assert (p[0], p[1]) in arcs;
      var k :| 0 <= k < i && order[k] == p[1];
      assert Walk(arcs, p[1..]);
      WalkDescends(arcs, order, p[1..], k);
    }
  }

  lemma NoCycleInOrder(arcs: Arcs, order: seq<Id>, x: Id)
    requires SuccessorsFirst(arcs, order) && Distinct(order) && x in order
    ensures !OnCycle(arcs, x)
  {
    if OnCycle(arcs, x) {
      var p :| Joins(arcs, p, x, x) && |p| > 1;
      var i :| 0 <= i < |order| && order[i] == x;
      WalkDescends(arcs, order, p, i);
    }
  }

  /** The order absorbs everything its ids can reach. */
  lemma OrderClosed(arcs: Arcs, order: seq<Id>, u: Id, v: Id)
    requires SuccessorsFirst(arcs, order) && u in order && Reaches(arcs, u, v)
    ensures v in order
  {
    var p :| Joins(arcs, p, u, v);
    var i :| 0 <= i < |order| && order[i] == u;
    WalkDescends(arcs, order, p, i);
  }

  /** Read backwards, a successors-first order lists every arc's source before its target. */
  function Reversed(s: seq<Id>): (r: seq<Id>)
    ensures |r| == |s|
    ensures forall i :: 0 <= i < |s| ==> r[i] == s[|s| - 1 - i]
  {
    if s == [] then [] else Reversed(s[1..]) + [s[0]]
  }

  ghost predicate Topological(arcs: Arcs, order: seq<Id>) {
    Distinct(order)
    && forall i, j :: 0 <= i < |order| && 0 <= j < |order| && (order[i], order[j]) in arcs ==> i < j
  }

  lemma ReverseIsTopological(arcs: Arcs, order: seq<Id>)
    requires SuccessorsFirst(arcs, order) && Distinct(order)
    ensures Topological(arcs, Reversed(order))
  {
    var r := Reversed(order);
    forall i, j | 0 <= i < |r| && 0 <= j < |r| && (r[i], r[j]) in arcs
      ensures i < j
    {
      var a := |order| - 1 - i;
      assert (order[a], order[|order| - 1 - j]) in arcs;
    }
  }

  /** Where no cycle can be reached, a walk never comes back to an id. */
  lemma AcyclicWalkIsDistinct(arcs: Arcs, roots: set<Id>, p: seq<Id>)
    requires !CycleReachable(arcs, roots) && Walk(arcs, p) && ReachedFrom(arcs, roots, p[0])
    ensures Distinct(p)
  {
    forall i, j | 0 <= i < j < |p|
      ensures p[i] != p[j]
    {
      if p[i] == p[j] {
        WalkSlice(arcs, p, i, j);
        ReachesAlong(arcs, p, 0, i);
        var r :| r in roots && Reaches(arcs, r, p[0]);
        ReachesTransitive(arcs, r, p[0], p[i]);
        assert OnCycle(arcs, p[i]) && ReachedFrom(arcs, roots, p[i]);
      }
    }
  }

  lemma {:induction false} DistinctFits(s: seq<Id>, universe: set<Id>)
    requires Distinct(s) && forall x :: x in s ==> x in universe
    ensures |s| <= |universe|
  {
    if s != [] {
      var rest := s[..|s| - 1];
      assert s[|s| - 1] !in rest;
      DistinctFits(rest, universe - {s[|s| - 1]});
    }
  }
}
