/** Directed walks over adjacency lists, and the two standard characterisations of acyclicity:
  * a numbering that falls along every arc rules out closed walks, and
  * a finite set in which every member has a predecessor inside the set contains a closed walk.
  */
module Walks {
  type Id = string
  type Arcs = map<Id, seq<Id>>

  /** Where the arcs of a node lead; nowhere for an unknown one. */
  function Targets(arcs: Arcs, id: Id): seq<Id> {
    if id in arcs then arcs[id] else []
  }

  ghost predicate ArcAt(arcs: Arcs, p: seq<Id>, i: nat)
    requires i + 1 < |p|
  {
    p[i + 1] in Targets(arcs, p[i])
  }

  ghost predicate IsWalk(arcs: Arcs, p: seq<Id>) {
    p != [] && forall i: nat :: i + 1 < |p| ==> ArcAt(arcs, p, i)
  }

  ghost predicate WalkFrom(arcs: Arcs, p: seq<Id>, u: Id, v: Id) {
    IsWalk(arcs, p) && p[0] == u && p[|p| - 1] == v
  }

  ghost predicate Reaches(arcs: Arcs, u: Id, v: Id) {
    exists p :: WalkFrom(arcs, p, u, v)
  }

  /** No walk of one arc or more returns to where it started. */
  ghost predicate Acyclic(arcs: Arcs) {
    forall p :: IsWalk(arcs, p) && |p| >= 2 ==> p[0] != p[|p| - 1]
  }

  /** `order` falls strictly along every arc. */
  ghost predicate Falls(arcs: Arcs, order: map<Id, nat>) {
    forall u, v {:trigger v in Targets(arcs, u)} ::
      v in Targets(arcs, u) ==> u in order && v in order && order[v] < order[u]
  }

  ghost predicate NoDup<T(!new)>(s: seq<T>) {
    forall i, j :: 0 <= i < j < |s| ==> s[i] != s[j]
  }

  /** Reachability composes with one more arc. */
  lemma WalkSnoc(arcs: Arcs, p: seq<Id>, v: Id)
    requires IsWalk(arcs, p) && v in Targets(arcs, p[|p| - 1])
    ensures IsWalk(arcs, p + [v])
  {
    var q := p + [v];
    forall i: nat | i + 1 < |q|
      ensures ArcAt(arcs, q, i)
    {
      if i + 1 < |p| { assert ArcAt(arcs, p, i); }
    }
  }

  lemma WalkSlice(arcs: Arcs, p: seq<Id>, lo: nat, hi: nat)
    requires IsWalk(arcs, p) && lo < hi <= |p|
    ensures IsWalk(arcs, p[lo..hi])
  {
    forall i: nat | i + 1 < |p[lo..hi]|
      ensures ArcAt(arcs, p[lo..hi], i)
    {
      assert ArcAt(arcs, p, lo + i);
    }
  }

  lemma ReachesSnoc(arcs: Arcs, u: Id, v: Id, w: Id)
    requires Reaches(arcs, u, v) && w in Targets(arcs, v)
    ensures Reaches(arcs, u, w)
  {
    var p :| WalkFrom(arcs, p, u, v);
    WalkSnoc(arcs, p, w);
    assert WalkFrom(arcs, p + [w], u, w);
  }

  lemma ReachesSelf(arcs: Arcs, u: Id)
    ensures Reaches(arcs, u, u)
  {
    assert WalkFrom(arcs, [u], u, u);
  }

  lemma {:induction false} FallsAlongWalk(arcs: Arcs, order: map<Id, nat>, p: seq<Id>)
    requires Falls(arcs, order) && IsWalk(arcs, p) && |p| >= 2
    ensures p[0] in order && p[|p| - 1] in order && order[p[|p| - 1]] < order[p[0]]
    decreases |p|
  {
    assert ArcAt(arcs, p, |p| - 2);
    var u, v := p[|p| - 2], p[|p| - 1];
    assert v in Targets(arcs, u);
    if |p| > 2 {
      WalkSlice(arcs, p, 0, |p| - 1);
      FallsAlongWalk(arcs, order, p[0..|p| - 1]);
    } else {
      assert u == p[0];
    }
  }

  /** A falling numbering is a certificate of acyclicity. */
  lemma FallsIsAcyclic(arcs: Arcs, order: map<Id, nat>)
    requires Falls(arcs, order)
    ensures Acyclic(arcs)
  {
    forall p | IsWalk(arcs, p) && |p| >= 2
      ensures p[0] != p[|p| - 1]
    {
      FallsAlongWalk(arcs, order, p);
    }
  }

  ghost predicate Within(p: seq<Id>, s: set<Id>) {
    forall i :: 0 <= i < |p| ==> p[i] in s
  }

  /** More elements than the set that holds them: two positions agree. */
  lemma {:induction false} Pigeonhole(p: seq<Id>, s: set<Id>)
    requires |p| > |s| && Within(p, s)
    ensures exists i, j :: 0 <= i < j < |p| && p[i] == p[j]
    decreases |p|
  {
    var last, front := p[|p| - 1], p[..|p| - 1];
    if last in front {
      var i :| 0 <= i < |front| && front[i] == last;
      assert p[i] == p[|p| - 1];
    } else {
      Pigeonhole(front, s - {last});
      var i, j :| 0 <= i < j < |front| && front[i] == front[j];
      assert p[i] == p[j];
    }
  }

  ghost predicate HasPredecessorIn(arcs: Arcs, s: set<Id>, v: Id) {
    exists u :: u in s && v in Targets(arcs, u)
  }

  ghost predicate EachHasPredecessor(arcs: Arcs, s: set<Id>) {
    forall v {:trigger HasPredecessorIn(arcs, s, v)} :: v in s ==> HasPredecessorIn(arcs, s, v)
  }

  lemma {:induction false} WalkBackTo(arcs: Arcs, s: set<Id>, v: Id, n: nat) returns (p: seq<Id>)
    requires EachHasPredecessor(arcs, s) && v in s
    ensures IsWalk(arcs, p) && |p| == n + 1 && p[n] == v && Within(p, s)
    decreases n
  {
    if n == 0 {
      p := [v];
    } else {
      assert HasPredecessorIn(arcs, s, v);
      var u :| u in s && v in Targets(arcs, u);
      var q := WalkBackTo(arcs, s, u, n - 1);
      WalkSnoc(arcs, q, v);
      p := q + [v];
    }
  }

  /** If every member of a nonempty finite set has a predecessor in the set, some walk is closed. */
  lemma PredecessorsCloseACycle(arcs: Arcs, s: set<Id>)
    requires s != {} && EachHasPredecessor(arcs, s)
    ensures !Acyclic(arcs)
  {
    var v :| v in s;
    var p := WalkBackTo(arcs, s, v, |s|);
    Pigeonhole(p, s);
    var i, j :| 0 <= i < j < |p| && p[i] == p[j];
    WalkSlice(arcs, p, i, j + 1);
    assert p[i..j + 1][0] == p[i..j + 1][|p[i..j + 1]| - 1];
  }
}
