/** The order of the adjacency view: edges and lists follow the order of the board's edges. */
module ViewOrder {
  import opened Helpers
  import opened LayoutGraph
  import opened Positions
  import opened Walks

  // ---------------------------------------------------------------- which edges are kept

  ghost predicate Joins(ids: set<Id>, e: Edge) {
    e.source != e.target && e.source in ids && e.target in ids
  }

  /** The k-th edge joins two listed nodes, and no earlier one that does has its key. */
  ghost predicate FirstOfKey(ids: set<Id>, edges: seq<Edge>, k: nat) {
    && k < |edges| && Joins(ids, edges[k])
    && forall j: nat :: j < k && Joins(ids, edges[j]) ==>
         EdgeKey(edges[j].source, edges[j].target) != EdgeKey(edges[k].source, edges[k].target)
  }

  ghost predicate KeptFrom(ids: set<Id>, edges: seq<Edge>, kept: seq<Edge>, from: seq<nat>) {
    && |from| == |kept| && Increasing(from)
    && (forall k: nat :: k in from <==> FirstOfKey(ids, edges, k))
    && forall i :: 0 <= i < |kept| ==> from[i] < |edges| && kept[i] == edges[from[i]]
  }

  lemma KeepsFirst(ids: set<Id>, front: seq<Edge>, e: Edge)
    ensures Keeps(ids, KeptEdges(ids, front), e) <==> FirstOfKey(ids, front + [e], |front|)
    ensures forall k: nat :: k < |front| ==> (FirstOfKey(ids, front + [e], k) <==> FirstOfKey(ids, front, k))
  {
    var all := front + [e];
    assert all[|front|] == e && forall k: nat :: k < |front| ==> all[k] == front[k];
    hide EdgeKey, KeptEdges;
    KeyIsKept(ids, front, e);
  }

  lemma KeyIsKept(ids: set<Id>, front: seq<Edge>, e: Edge)
    ensures EdgeKey(e.source, e.target) in KeySet(KeptEdges(ids, front)) <==>
      exists j: nat :: j < |front| && Joins(ids, front[j]) && EdgeKey(front[j].source, front[j].target) == EdgeKey(e.source, e.target)
  {
    hide EdgeKey;
    var kept := KeptEdges(ids, front);
    KeptEdgesSound(ids, front);
    hide KeptEdges, DistinctKeys;
    if f :| f in kept && EdgeKey(f.source, f.target) == EdgeKey(e.source, e.target) {
      var j :| 0 <= j < |front| && front[j] == f;
      assert Joins(ids, front[j]);
    }
    if j: nat :| j < |front| && Joins(ids, front[j]) && EdgeKey(front[j].source, front[j].target) == EdgeKey(e.source, e.target) {
      KeptEdgesComplete(ids, front, front[j]);
    }
  }

  /** Of the edges that join two different listed nodes the first with each key is kept, in the order of the board. */
  lemma {:induction false} EdgesAreInOrder(ids: set<Id>, edges: seq<Edge>) returns (from: seq<nat>)
    ensures KeptFrom(ids, edges, KeptEdges(ids, edges), from)
  {
    if edges == [] {
      from := [];
    } else {
      var front, e := edges[..|edges| - 1], edges[|edges| - 1];
      from := EdgesAreInOrder(ids, front);
      assert edges == front + [e];
      KeepsFirst(ids, front, e);
      hide FirstOfKey, Keeps;
      OneMoreKept(ids, front, e, KeptEdges(ids, front), from);
      if Keeps(ids, KeptEdges(ids, front), e) { from := from + [|front|]; }
    }
  }

  lemma OneMoreKept(ids: set<Id>, front: seq<Edge>, e: Edge, kept: seq<Edge>, from: seq<nat>)
    requires KeptFrom(ids, front, kept, from)
    requires forall k: nat :: k < |front| ==> (FirstOfKey(ids, front + [e], k) <==> FirstOfKey(ids, front, k))
    ensures FirstOfKey(ids, front + [e], |front|) ==> KeptFrom(ids, front + [e], kept + [e], from + [|front|])
    ensures !FirstOfKey(ids, front + [e], |front|) ==> KeptFrom(ids, front + [e], kept, from)
  {
    assert forall k: nat :: FirstOfKey(ids, front, k) ==> k < |front|;
    assert forall k: nat :: FirstOfKey(ids, front + [e], k) ==> k <= |front|;
    hide FirstOfKey;
    MorePositions(from, |front|);
    hide Increasing;
    var all := front + [e];
    assert all[|front|] == e && forall k: nat :: k < |front| ==> all[k] == front[k];
  }

  // ---------------------------------------------------------------- arcs

  /** The list holds one entry for each of the edges at these positions, in order. */
  ghost predicate ListedFrom(edges: seq<Edge>, u: Id, outward: bool, list: seq<Id>, at: seq<nat>) {
    && |at| == |list| && Increasing(at)
    && (forall k: nat :: k in at <==> k < |edges| && NearEnd(edges[k], outward) == u)
    && forall i :: 0 <= i < |list| ==> at[i] < |edges| && list[i] == FarEnd(edges[at[i]], outward)
  }

  function NearEnd(e: Edge, outward: bool): Id {
    if outward then e.source else e.target
  }

  function FarEnd(e: Edge, outward: bool): Id {
    if outward then e.target else e.source
  }

  function ListOf(edges: seq<Edge>, u: Id, outward: bool): seq<Id> {
    if outward then OutOf(edges, u) else InOf(edges, u)
  }

  lemma ListSnoc(front: seq<Edge>, e: Edge, u: Id, outward: bool)
    ensures ListOf(front + [e], u, outward) ==
      if NearEnd(e, outward) == u then ListOf(front, u, outward) + [FarEnd(e, outward)] else ListOf(front, u, outward)
    ensures ListOf([], u, outward) == []
  {
    assert (front + [e])[..|front|] == front;
  }

  lemma {:induction false} ArcsAreInOrder(edges: seq<Edge>, u: Id, outward: bool) returns (at: seq<nat>)
    ensures ListedFrom(edges, u, outward, ListOf(edges, u, outward), at)
  {
    hide *;
    if edges == [] {
      at := [];
      NothingListed(u, outward);
    } else {
      var front, e := edges[..|edges| - 1], edges[|edges| - 1];
      at := ArcsAreInOrder(front, u, outward);
      assert edges == front + [e];
      ListSnoc(front, e, u, outward);
      OneMoreArc(front, e, u, outward, ListOf(front, u, outward), at);
      if NearEnd(e, outward) == u { at := at + [|front|]; }
    }
  }

  lemma NothingListed(u: Id, outward: bool)
    ensures ListedFrom([], u, outward, ListOf([], u, outward), [])
  {
  }

  lemma OneMoreArc(front: seq<Edge>, e: Edge, u: Id, outward: bool, list: seq<Id>, at: seq<nat>)
    requires ListedFrom(front, u, outward, list, at)
    ensures NearEnd(e, outward) == u ==> ListedFrom(front + [e], u, outward, list + [FarEnd(e, outward)], at + [|front|])
    ensures NearEnd(e, outward) != u ==> ListedFrom(front + [e], u, outward, list, at)
  {
    MorePositions(at, |front|);
    hide Increasing, NearEnd, FarEnd;
    var all := front + [e];
    assert all[|front|] == e && forall k: nat :: k < |front| ==> all[k] == front[k];
  }

  /** In the view, what a node leads to and what leads to it come in the order of the edges kept. */
  lemma ViewIsInOrder(g: Graph, u: Id) returns (outAt: seq<nat>, inAt: seq<nat>)
    requires u in ViewOf(g).ids
    ensures var v := ViewOf(g);
      && u in v.out && u in v.incoming
      && ListedFrom(v.edges, u, true, v.out[u], outAt) && ListedFrom(v.edges, u, false, v.incoming[u], inAt)
  {
    var v := ViewOf(g);
    hide OutOf, InOf, KeptEdges, ListedFrom, NeighboursOf;
    outAt := ArcsAreInOrder(v.edges, u, true);
    inAt := ArcsAreInOrder(v.edges, u, false);
  }

  // ---------------------------------------------------------------- neighbours

  /** The other end of an edge at `u`. */
  predicate Touches(e: Edge, u: Id, v: Id) {
    (e.source == u && e.target == v) || (e.source != u && e.target == u && e.source == v)
  }

  /** The k-th edge is the first to join `u` and `v`. */
  ghost predicate FirstTouch(edges: seq<Edge>, u: Id, v: Id, k: nat) {
    k < |edges| && Touches(edges[k], u, v) && forall j: nat :: j < k ==> !Touches(edges[j], u, v)
  }

  ghost predicate MetFrom(edges: seq<Edge>, u: Id, list: seq<Id>, at: seq<nat>) {
    && |at| == |list| && Increasing(at)
    && (forall i :: 0 <= i < |list| ==> FirstTouch(edges, u, list[i], at[i]))
    && forall v, k: nat {:trigger FirstTouch(edges, u, v, k)} :: FirstTouch(edges, u, v, k) ==> v in list
  }

  /** Neighbours come in the order in which the edges kept first join them to the node. */
  lemma {:induction false} NeighboursAreInOrder(edges: seq<Edge>, u: Id) returns (at: seq<nat>)
    ensures MetFrom(edges, u, NeighboursOf(edges, u), at)
  {
    if edges == [] {
      at := [];
    } else {
      var front, e := edges[..|edges| - 1], edges[|edges| - 1];
      var list := NeighboursOf(front, u);
      at := NeighboursAreInOrder(front, u);
      assert edges == front + [e];
      if e.source == u || e.target == u {
        var v := if e.source == u then e.target else e.source;
        OneMoreTouch(front, e, u, v, list, at);
        if v !in list { at := at + [|front|]; }
      } else {
        NoTouch(front, e, u, list, at);
      }
    }
  }

  lemma TouchStays(front: seq<Edge>, e: Edge, u: Id, v: Id, k: nat)
    ensures k < |front| ==> (FirstTouch(front + [e], u, v, k) <==> FirstTouch(front, u, v, k))
    ensures FirstTouch(front + [e], u, v, |front|) <==> Touches(e, u, v) && forall j: nat :: !FirstTouch(front, u, v, j)
  {
    var all := front + [e];
    assert all[|front|] == e && forall j: nat :: j < |front| ==> all[j] == front[j];
    hide Touches;
    if (forall j: nat :: !FirstTouch(front, u, v, j)) && Touches(e, u, v) { NeverTouched(front, u, v, |front|); }
  }

  lemma {:induction false} NeverTouched(edges: seq<Edge>, u: Id, v: Id, n: nat)
    requires n <= |edges| && forall j: nat :: !FirstTouch(edges, u, v, j)
    ensures forall j: nat :: j < n ==> !Touches(edges[j], u, v)
  {
    if n > 0 {
      NeverTouched(edges, u, v, n - 1);
      assert !FirstTouch(edges, u, v, n - 1);
    }
  }

  lemma OneMoreTouch(front: seq<Edge>, e: Edge, u: Id, v: Id, list: seq<Id>, at: seq<nat>)
    requires MetFrom(front, u, list, at) && forall w :: Touches(e, u, w) <==> w == v
    ensures v in list ==> MetFrom(front + [e], u, list, at)
    ensures v !in list ==> MetFrom(front + [e], u, list + [v], at + [|front|])
  {
    hide Touches;
    var all := front + [e];
    assert forall i :: 0 <= i < |list| ==> list[i] in list;
    forall w, k: nat
      ensures k < |front| ==> (FirstTouch(all, u, w, k) <==> FirstTouch(front, u, w, k))
      ensures FirstTouch(all, u, w, |front|) <==> w == v && v !in list
      ensures k > |front| ==> !FirstTouch(all, u, w, k)
    {
      TouchStays(front, e, u, w, k);
      ListedIsTouched(front, u, list, at, w);
    }
    assert forall i :: 0 <= i < |at| ==> at[i] < |front|;
    MorePositions(at, |front|);
    hide FirstTouch, Increasing;
  }

  lemma ListedIsTouched(edges: seq<Edge>, u: Id, list: seq<Id>, at: seq<nat>, w: Id)
    requires MetFrom(edges, u, list, at)
    ensures w in list <==> exists k: nat :: FirstTouch(edges, u, w, k)
  {
    hide FirstTouch, Increasing;
    if w in list {
      var i :| 0 <= i < |list| && list[i] == w;
      assert FirstTouch(edges, u, w, at[i]);
    }
  }

  lemma NoTouch(front: seq<Edge>, e: Edge, u: Id, list: seq<Id>, at: seq<nat>)
    requires MetFrom(front, u, list, at) && forall w :: !Touches(e, u, w)
    ensures MetFrom(front + [e], u, list, at)
  {
    hide Touches;
    var all := front + [e];
    forall w, k: nat
      ensures FirstTouch(all, u, w, k) <==> FirstTouch(front, u, w, k)
    {
      TouchStays(front, e, u, w, k);
    }
    hide FirstTouch, Increasing;
  }
}
