/** The layout kernel's graph utilities: the deduplicated adjacency view and its spec. */
module LayoutGraph {
  import opened Helpers
  import opened Walks
  import Joined

  datatype Node = Node(id: Id, x: real, y: real, w: real, h: real, pinned: bool)
  datatype Edge = Edge(id: string, source: Id, target: Id)
  datatype Graph = Graph(nodes: seq<Node>, edges: seq<Edge>)

  datatype AdjacencyView = View(
    ids: seq<Id>,
    out: Arcs,
    incoming: Arcs,
    neighbours: Arcs,
    edges: seq<Edge>
  )

  function Ids(nodes: seq<Node>): (ids: seq<Id>)
    ensures |ids| == |nodes| && forall i :: 0 <= i < |nodes| ==> ids[i] == nodes[i].id
  {
    seq(|nodes|, i requires 0 <= i < |nodes| => nodes[i].id)
  }

  function IdSet(ids: seq<Id>): set<Id> {
    set id | id in ids
  }

  /** The joined text under which the source remembers a directed edge. */
  function EdgeKey(u: Id, v: Id): string {
    u + "\0" + v
  }

  /** The joined text determines the edge as soon as the sources hold no NUL. */
  lemma EdgeKeyInjective(u: Id, v: Id, s: Id, t: Id)
    requires EdgeKey(u, v) == EdgeKey(s, t)
    requires '\0' !in u && '\0' !in s
    ensures u == s && v == t
  {
    assert u + ['\0'] + v == EdgeKey(u, v) && s + ['\0'] + t == EdgeKey(s, t);
    Joined.SplitAtSeparator('\0', u, v, s, t);
  }

  // ---------------------------------------------------------------- the view, as a function

  predicate Keeps(ids: set<Id>, kept: seq<Edge>, e: Edge) {
    && e.source != e.target
    && e.source in ids
    && e.target in ids
    && EdgeKey(e.source, e.target) !in KeySet(kept)
  }

  function KeySet(edges: seq<Edge>): set<string> {
    set e | e in edges :: EdgeKey(e.source, e.target)
  }

  /** Edges that survive: no self-loops, both ends present, first of each key, in input order. */
  function KeptEdges(ids: set<Id>, edges: seq<Edge>): seq<Edge> {
    if edges == [] then []
    else
      var kept := KeptEdges(ids, edges[..|edges| - 1]);
      var e := edges[|edges| - 1];
      if Keeps(ids, kept, e) then kept + [e] else kept
  }

  function OutOf(edges: seq<Edge>, u: Id): seq<Id> {
    if edges == [] then []
    else
      var e := edges[|edges| - 1];
      OutOf(edges[..|edges| - 1], u) + if e.source == u then [e.target] else []
  }

  function InOf(edges: seq<Edge>, v: Id): seq<Id> {
    if edges == [] then []
    else
      var e := edges[|edges| - 1];
      InOf(edges[..|edges| - 1], v) + if e.target == v then [e.source] else []
  }

  function NeighboursOf(edges: seq<Edge>, u: Id): seq<Id> {
    if edges == [] then []
    else
      var e := edges[|edges| - 1];
      var ns := NeighboursOf(edges[..|edges| - 1], u);
      if e.source == u then AddOnce(ns, e.target)
      else if e.target == u then AddOnce(ns, e.source)
      else ns
  }

  function ViewOf(g: Graph): AdjacencyView {
    var ids := Ids(g.nodes);
    var edges := KeptEdges(IdSet(ids), g.edges);
    View(
      ids,
      map id | id in ids :: OutOf(edges, id),
      map id | id in ids :: InOf(edges, id),
      map id | id in ids :: NeighboursOf(edges, id),
      edges)
  }

  // ---------------------------------------------------------------- what the view guarantees

  /** `incoming` is `out` reversed, arc for arc, over exactly the listed ids, with no repeats. */
  ghost predicate Transposed(ids: seq<Id>, out: Arcs, incoming: Arcs) {
    && out.Keys == IdSet(ids)
    && incoming.Keys == IdSet(ids)
    && (forall u :: u in ids ==> NoDup(out[u]) && NoDup(incoming[u]))
    && (forall u, v {:trigger v in Targets(out, u)} {:trigger u in Targets(incoming, v)} ::
          v in Targets(out, u) <==> u in Targets(incoming, v))
  }

  ghost predicate Symmetric(ids: seq<Id>, neighbours: Arcs) {
    && neighbours.Keys == IdSet(ids)
    && (forall u, v {:trigger v in Targets(neighbours, u)} ::
          v in Targets(neighbours, u) ==> u in Targets(neighbours, v))
  }

  ghost predicate HasArc(edges: seq<Edge>, u: Id, v: Id) {
    exists e :: e in edges && e.source == u && e.target == v
  }

  ghost predicate DistinctKeys(edges: seq<Edge>) {
    forall i, j :: 0 <= i < j < |edges| ==>
      EdgeKey(edges[i].source, edges[i].target) != EdgeKey(edges[j].source, edges[j].target)
  }

  lemma {:induction false} KeptEdgesSound(ids: set<Id>, edges: seq<Edge>)
    ensures DistinctKeys(KeptEdges(ids, edges))
    ensures forall e :: e in KeptEdges(ids, edges) ==>
      e in edges && e.source != e.target && e.source in ids && e.target in ids
  {
    if edges != [] {
      KeptEdgesSound(ids, edges[..|edges| - 1]);
    }
  }

  /** Nothing eligible is lost: some kept edge carries the same key. */
  lemma {:induction false} KeptEdgesComplete(ids: set<Id>, edges: seq<Edge>, e: Edge)
    requires e in edges && e.source != e.target && e.source in ids && e.target in ids
    ensures exists k :: k in KeptEdges(ids, edges) && EdgeKey(k.source, k.target) == EdgeKey(e.source, e.target)
  {
    var front, last := edges[..|edges| - 1], edges[|edges| - 1];
    var kept := KeptEdges(ids, front);
    if e in front {
      KeptEdgesComplete(ids, front, e);
      var k :| k in kept && EdgeKey(k.source, k.target) == EdgeKey(e.source, e.target);
      assert k in KeptEdges(ids, edges);
    } else if Keeps(ids, kept, last) {
      assert last in KeptEdges(ids, edges);
    }
  }

  lemma {:induction false} OutOfMembers(edges: seq<Edge>, u: Id, v: Id)
    ensures v in OutOf(edges, u) <==> HasArc(edges, u, v)
    ensures u in InOf(edges, v) <==> HasArc(edges, u, v)
  {
    if edges != [] {
      var front, e := edges[..|edges| - 1], edges[|edges| - 1];
      OutOfMembers(front, u, v);
      assert edges == front + [e];
      assert HasArc(edges, u, v) <==> HasArc(front, u, v) || (e.source == u && e.target == v);
    }
  }

  lemma {:induction false} NeighboursOfMembers(edges: seq<Edge>, u: Id, v: Id)
    requires forall e :: e in edges ==> e.source != e.target
    ensures v in NeighboursOf(edges, u) <==> HasArc(edges, u, v) || HasArc(edges, v, u)
  {
    if edges != [] {
      var front, e := edges[..|edges| - 1], edges[|edges| - 1];
      NeighboursOfMembers(front, u, v);
      assert edges == front + [e];
      assert HasArc(edges, u, v) <==> HasArc(front, u, v) || (e.source == u && e.target == v);
      assert HasArc(edges, v, u) <==> HasArc(front, v, u) || (e.source == v && e.target == u);
    }
  }

  lemma {:induction false} OutOfNoDup(edges: seq<Edge>, u: Id)
    requires DistinctKeys(edges)
    ensures NoDup(OutOf(edges, u)) && NoDup(InOf(edges, u))
  {
    if edges != [] {
      var front, e := edges[..|edges| - 1], edges[|edges| - 1];
      OutOfNoDup(front, u);
      OutOfMembers(front, u, e.target);
      OutOfMembers(front, e.source, u);
    }
  }

  lemma {:induction false} NeighboursOfNoDup(edges: seq<Edge>, u: Id)
    ensures NoDup(NeighboursOf(edges, u))
  {
    if edges != [] {
      NeighboursOfNoDup(edges[..|edges| - 1], u);
    }
  }

  lemma ViewArcs(g: Graph, s: Id, t: Id)
    ensures var v := ViewOf(g);
      && (t in Targets(v.out, s) <==> HasArc(v.edges, s, t))
      && (s in Targets(v.incoming, t) <==> HasArc(v.edges, s, t))
      && (t in Targets(v.neighbours, s) <==> HasArc(v.edges, s, t) || HasArc(v.edges, t, s))
      && (HasArc(v.edges, s, t) ==> HasArc(g.edges, s, t) && s != t && s in v.ids && t in v.ids)
  {
    var v := ViewOf(g);
    KeptEdgesSound(IdSet(v.ids), g.edges);
    OutOfMembers(v.edges, s, t);
    NeighboursOfMembers(v.edges, s, t);
  }

  lemma ViewTransposed(g: Graph)
    ensures var v := ViewOf(g); Transposed(v.ids, v.out, v.incoming)
  {
    var v := ViewOf(g);
    KeptEdgesSound(IdSet(v.ids), g.edges);
    forall id | id in v.ids
      ensures NoDup(v.out[id]) && NoDup(v.incoming[id])
    {
      OutOfNoDup(v.edges, id);
    }
    forall s, t
      ensures t in Targets(v.out, s) <==> s in Targets(v.incoming, t)
    {
      ViewArcs(g, s, t);
    }
  }

  /** The neighbour lists are the undirected closure of the arcs, and repeat nothing. */
  lemma ViewNeighbours(g: Graph)
    ensures var v := ViewOf(g); Symmetric(v.ids, v.neighbours)
    ensures var v := ViewOf(g); forall id :: id in v.ids ==> NoDup(v.neighbours[id])
    ensures var v := ViewOf(g); forall s, t {:trigger t in Targets(v.neighbours, s)} ::
      t in Targets(v.neighbours, s) <==> t in Targets(v.out, s) || s in Targets(v.out, t)
  {
    var v := ViewOf(g);
    forall id | id in v.ids
      ensures NoDup(v.neighbours[id])
    {
      NeighboursOfNoDup(v.edges, id);
    }
    hide KeptEdges;
    forall s, t {:trigger t in Targets(v.neighbours, s)}
      ensures t in Targets(v.neighbours, s) <==> t in Targets(v.out, s) || s in Targets(v.out, t)
    {
      ViewArcs(g, s, t);
      ViewArcs(g, t, s);
    }
    forall s, t {:trigger t in Targets(v.neighbours, s)} | t in Targets(v.neighbours, s)
      ensures s in Targets(v.neighbours, t)
    {
      ViewArcs(g, s, t);
      ViewArcs(g, t, s);
    }
  }

  /** An edge the view is meant to have: between two different listed nodes. */
  ghost predicate Eligible(g: Graph, e: Edge) {
    e in g.edges && e.source != e.target && e.source in Ids(g.nodes) && e.target in Ids(g.nodes)
  }

  ghost predicate SameEnds(e: Edge, f: Edge) {
    e.source == f.source && e.target == f.target
  }

  /** Different edges that the view is meant to have are remembered under different keys. */
  ghost predicate KeysTellApart(g: Graph) {
    forall e, f :: Eligible(g, e) && Eligible(g, f) && EdgeKey(e.source, e.target) == EdgeKey(f.source, f.target) ==>
      SameEnds(e, f)
  }

  /** In the view itself a key names one arc. */
  ghost predicate KeysAreUnique(out: Arcs) {
    forall u, v, s, t {:trigger v in Targets(out, u), t in Targets(out, s)} ::
      v in Targets(out, u) && t in Targets(out, s) && EdgeKey(u, v) == EdgeKey(s, t) ==> u == s && v == t
  }

  lemma OneEdgePerKey(edges: seq<Edge>, e: Edge, f: Edge)
    requires DistinctKeys(edges) && e in edges && f in edges
    requires EdgeKey(e.source, e.target) == EdgeKey(f.source, f.target)
    ensures e == f
  {
    var i :| 0 <= i < |edges| && edges[i] == e;
    var j :| 0 <= j < |edges| && edges[j] == f;
    hide EdgeKey;
    assert !(i < j) && !(j < i);
  }

  lemma ViewKeysAreUnique(g: Graph)
    ensures KeysAreUnique(ViewOf(g).out)
  {
    var view := ViewOf(g);
    KeptEdgesSound(IdSet(view.ids), g.edges);
    forall u, v, s, t {:trigger v in Targets(view.out, u), t in Targets(view.out, s)}
      | v in Targets(view.out, u) && t in Targets(view.out, s) && EdgeKey(u, v) == EdgeKey(s, t)
      ensures u == s && v == t
    {
      ViewArcs(g, u, v);
      ViewArcs(g, s, t);
      var e :| e in view.edges && e.source == u && e.target == v;
      var f :| f in view.edges && f.source == s && f.target == t;
      hide ViewOf, EdgeKey;
      OneEdgePerKey(view.edges, e, f);
    }
  }

  lemma EligibleIsKept(g: Graph, e: Edge)
    requires KeysTellApart(g) && Eligible(g, e)
    ensures e.target in Targets(ViewOf(g).out, e.source)
  {
    var ids := IdSet(Ids(g.nodes));
    KeptEdgesSound(ids, g.edges);
    KeptEdgesComplete(ids, g.edges, e);
    var k :| k in KeptEdges(ids, g.edges) && EdgeKey(k.source, k.target) == EdgeKey(e.source, e.target);
    assert Eligible(g, k);
    assert SameEnds(k, e);
    hide EdgeKey, KeptEdges;
    assert HasArc(KeptEdges(ids, g.edges), e.source, e.target);
    OutOfMembers(KeptEdges(ids, g.edges), e.source, e.target);
  }

  /** The view has every edge it is meant to have exactly when the keys of those edges tell them apart. */
  lemma ViewIsCompleteExactlyWhen(g: Graph)
    ensures (forall e :: Eligible(g, e) ==> e.target in Targets(ViewOf(g).out, e.source)) <==> KeysTellApart(g)
  {
    var view := ViewOf(g);
    if KeysTellApart(g) {
      forall e | Eligible(g, e)
        ensures e.target in Targets(view.out, e.source)
      {
        EligibleIsKept(g, e);
      }
    }
    ViewKeysAreUnique(g);
    hide ViewOf, EdgeKey;
    if forall e :: Eligible(g, e) ==> e.target in Targets(view.out, e.source) {
      forall e, f | Eligible(g, e) && Eligible(g, f) && EdgeKey(e.source, e.target) == EdgeKey(f.source, f.target)
        ensures SameEnds(e, f)
      {
        assert e.target in Targets(view.out, e.source) && f.target in Targets(view.out, f.source);
      }
    }
  }

  /** Ids without a NUL always make keys that tell edges apart. */
  lemma PlainIdsTellApart(g: Graph)
    requires forall id :: id in Ids(g.nodes) ==> '\0' !in id
    ensures KeysTellApart(g)
  {
    forall e, f | Eligible(g, e) && Eligible(g, f) && EdgeKey(e.source, e.target) == EdgeKey(f.source, f.target)
      ensures SameEnds(e, f)
    {
      EdgeKeyInjective(e.source, e.target, f.source, f.target);
    }
  }

  /** Four cards, two of them with a NUL in the id, and two edges whose keys are the same text. */
  function ClashGraph(): Graph {
    Graph([Node("a", 0.0, 0.0, 1.0, 1.0, false), Node("a\0b", 0.0, 0.0, 1.0, 1.0, false),
           Node("c", 0.0, 0.0, 1.0, 1.0, false), Node("b\0c", 0.0, 0.0, 1.0, 1.0, false)],
          [Edge("e1", "a\0b", "c"), Edge("e2", "a", "b\0c")])
  }

  /** With a NUL in an id two different edges can share a key, and then one of them is lost. */
  lemma NulIdsCollide()
    ensures !KeysTellApart(ClashGraph())
    ensures exists e :: Eligible(ClashGraph(), e) && e.target !in Targets(ViewOf(ClashGraph()).out, e.source)
  {
    var g := ClashGraph();
    var e, f := g.edges[0], g.edges[1];
    assert Ids(g.nodes)[0] == "a" && Ids(g.nodes)[1] == "a\0b" && Ids(g.nodes)[2] == "c" && Ids(g.nodes)[3] == "b\0c";
    assert Eligible(g, e) && Eligible(g, f);
    assert EdgeKey(e.source, e.target) == "a\0b\0c" == EdgeKey(f.source, f.target);
    assert |e.source| == 3 && |f.source| == 1;
    assert !SameEnds(e, f);
    ViewIsCompleteExactlyWhen(g);
  }

  // ---------------------------------------------------------------- buildAdjacency

  ghost predicate TabulatesAt(edges: seq<Edge>, out: Arcs, incoming: Arcs, neighbours: Arcs, u: Id) {
    && u in out && out[u] == OutOf(edges, u)
    && u in incoming && incoming[u] == InOf(edges, u)
    && u in neighbours && neighbours[u] == NeighboursOf(edges, u)
  }

  ghost predicate Tabulates(known: set<Id>, edges: seq<Edge>, out: Arcs, incoming: Arcs, neighbours: Arcs) {
    && out.Keys == incoming.Keys == neighbours.Keys == known
    && forall u {:trigger TabulatesAt(edges, out, incoming, neighbours, u)} ::
         u in known ==> TabulatesAt(edges, out, incoming, neighbours, u)
  }

  lemma TabulatesSnoc(known: set<Id>, edges: seq<Edge>, e: Edge,
                      out: Arcs, incoming: Arcs, neighbours: Arcs,
                      out': Arcs, incoming': Arcs, neighbours': Arcs)
    requires Tabulates(known, edges, out, incoming, neighbours)
    requires e.source in known && e.target in known && e.source != e.target
    requires out' == out[e.source := out[e.source] + [e.target]]
    requires incoming' == incoming[e.target := incoming[e.target] + [e.source]]
    requires neighbours' == neighbours[e.source := AddOnce(neighbours[e.source], e.target)]
                                      [e.target := AddOnce(neighbours[e.target], e.source)]
    ensures Tabulates(known, edges + [e], out', incoming', neighbours')
  {
    var es := edges + [e];
    assert es[..|es| - 1] == edges && es[|es| - 1] == e;
    assert TabulatesAt(edges, out, incoming, neighbours, e.source);
    assert TabulatesAt(edges, out, incoming, neighbours, e.target);
    forall u | u in known
      ensures TabulatesAt(es, out', incoming', neighbours', u)
    {
      assert TabulatesAt(edges, out, incoming, neighbours, u);
    }
  }

  lemma TabulatesIsView(g: Graph, edges: seq<Edge>, out: Arcs, incoming: Arcs, neighbours: Arcs)
    requires edges == KeptEdges(IdSet(Ids(g.nodes)), g.edges)
    requires Tabulates(IdSet(Ids(g.nodes)), edges, out, incoming, neighbours)
    ensures View(Ids(g.nodes), out, incoming, neighbours, edges) == ViewOf(g)
  {
    hide KeptEdges, OutOf, InOf, NeighboursOf;
    forall u | u in IdSet(Ids(g.nodes))
      ensures out[u] == OutOf(edges, u) && incoming[u] == InOf(edges, u) && neighbours[u] == NeighboursOf(edges, u)
    {
      assert TabulatesAt(edges, out, incoming, neighbours, u);
    }
    var v := ViewOf(g);
    assert v.out == out;
    assert v.incoming == incoming;
    assert v.neighbours == neighbours;
  }

  lemma NextKept(ids: set<Id>, edges: seq<Edge>, i: nat)
    requires i < |edges|
    ensures var kept := KeptEdges(ids, edges[..i]);
      KeptEdges(ids, edges[..i + 1]) == if Keeps(ids, kept, edges[i]) then kept + [edges[i]] else kept
  {
    hide Keeps;
    assert edges[..i + 1][..i] == edges[..i];
  }

  lemma KeySetSnoc(edges: seq<Edge>, e: Edge)
    ensures KeySet(edges + [e]) == KeySet(edges) + {EdgeKey(e.source, e.target)}
  {
    hide EdgeKey;
    assert forall f :: f in edges + [e] <==> f in edges || f == e;
  }

  lemma NothingTabulated(known: set<Id>, empty: Arcs)
    requires empty.Keys == known && forall id :: id in empty ==> empty[id] == []
    ensures Tabulates(known, [], empty, empty, empty)
  {
  }

  method BuildAdjacency(g: Graph) returns (view: AdjacencyView)
    ensures view == ViewOf(g)
  {
    hide ViewOf, Tabulates, KeptEdges, KeySet, EdgeKey;
    var ids := Ids(g.nodes);
    var known := IdSet(ids);
    var empty: Arcs := map id | id in known :: [];
    var out, incoming, neighbours := empty, empty, empty;
    var seen: set<string> := {};
    var edges: seq<Edge> := [];
    NothingTabulated(known, empty);
    NothingKept(known);
    assert g.edges[..0] == [];
    for i := 0 to |g.edges|
      invariant edges == KeptEdges(known, g.edges[..i])
      invariant seen == KeySet(edges)
      invariant Tabulates(known, edges, out, incoming, neighbours)
    {
      var edge := g.edges[i];
      NextKept(known, g.edges, i);
      if edge.source == edge.target { continue; }
      if edge.source !in known || edge.target !in known { continue; }
      var key := EdgeKey(edge.source, edge.target);
      if key in seen { continue; }
      KeySetSnoc(edges, edge);
      seen := seen + {key};
      edges, out, incoming, neighbours := AddEdge(known, edge, edges, out, incoming, neighbours);
    }
    assert g.edges[..|g.edges|] == g.edges;
    TabulatesIsView(g, edges, out, incoming, neighbours);
    view := View(ids, out, incoming, neighbours, edges);
  }

  lemma NothingKept(ids: set<Id>)
    ensures KeptEdges(ids, []) == [] && KeySet([]) == {}
  {
  }

  /** The tail of the loop body: record one surviving edge in all four tables. */
  method AddEdge(ghost known: set<Id>, edge: Edge, edges: seq<Edge>, out: Arcs, incoming: Arcs, neighbours: Arcs)
    returns (edges': seq<Edge>, out': Arcs, incoming': Arcs, neighbours': Arcs)
    requires Tabulates(known, edges, out, incoming, neighbours)
    requires edge.source in known && edge.target in known && edge.source != edge.target
    ensures edges' == edges + [edge] && Tabulates(known, edges', out', incoming', neighbours')
  {
    edges' := edges + [edge];
    out' := out[edge.source := out[edge.source] + [edge.target]];
    incoming' := incoming[edge.target := incoming[edge.target] + [edge.source]];
    neighbours' := neighbours[edge.source := AddOnce(neighbours[edge.source], edge.target)];
    neighbours' := neighbours'[edge.target := AddOnce(neighbours'[edge.target], edge.source)];
    TabulatesSnoc(known, edges, edge, out, incoming, neighbours, out', incoming', neighbours');
  }
}
