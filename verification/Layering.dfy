/** The graph passes put together, for any graph with distinct node ids: the layered layout up to its rows, and the
  * forest of the tree layout.
  */
module Layering {
  import opened Positions
  import opened Walks
  import opened LayoutGraph
  import opened CycleRemoval
  import Ranking
  import SearchTree
  import SpanningForest

  /** The nodes of one rank, in input order. */
  function Row(ids: seq<Id>, rank: map<Id, nat>, r: nat): seq<Id> {
    if ids == [] then []
    else
      var id := ids[|ids| - 1];
      Row(ids[..|ids| - 1], rank, r) + if id in rank && rank[id] == r then [id] else []
  }

  /** The highest rank, and 0 without nodes. */
  function Depth(ids: seq<Id>, rank: map<Id, nat>): (depth: nat)
    ensures forall id :: id in ids && id in rank ==> rank[id] <= depth
    ensures depth == 0 || exists id :: id in ids && id in rank && rank[id] == depth
  {
    if ids == [] then 0
    else
      var front, id := Depth(ids[..|ids| - 1], rank), ids[|ids| - 1];
      assert ids == ids[..|ids| - 1] + [id];
      if id in rank && rank[id] > front then rank[id] else front
  }

  /** What the passes leave behind for a graph. */
  ghost predicate LayersOf(g: Graph, out: Arcs, incoming: Arcs, back: set<string>, rank: map<Id, nat>) {
    var view := ViewOf(g);
    && Acyclic(out) && Transposed(view.ids, out, incoming)
    && CutAlong(view.out, back, out) && AllClose(view.out, back)
    && rank.Keys == IdSet(view.ids) && Ranking.Layered(view.ids, incoming, rank)
  }

  method LayerGraph(g: Graph)
    returns (rows: seq<seq<Id>>, rank: map<Id, nat>, ghost out: Arcs, ghost incoming: Arcs, ghost back: set<string>)
    requires NoDup(Ids(g.nodes))
    ensures LayersOf(g, out, incoming, back, rank) && SearchTree.Irredundant(ViewOf(g).out, back)
    ensures |rows| == Depth(Ids(g.nodes), rank) + 1
    ensures forall r :: 0 <= r < |rows| ==> rows[r] == Row(Ids(g.nodes), rank, r)
  {
    var view := BuildAdjacency(g);
    ViewTransposed(g);
    ViewIds(g);
    ViewKeysAreUnique(g);
    hide ViewOf, Transposed, Acyclic, CutAlong, AllClose, Ranking.Layered, SearchTree.Irredundant, KeysAreUnique;
    var dagOut, dagIn;
    ghost var order;
    dagOut, dagIn, back, order := AcyclicView(view);
    NoSelfArcs(view.ids, dagOut);
    ghost var reached;
    rank, reached := Ranking.RankNodes(view.ids, dagOut, dagIn);
    out, incoming := dagOut, dagIn;
    rows := Rows(view.ids, rank);
  }

  lemma ViewIds(g: Graph)
    ensures ViewOf(g).ids == Ids(g.nodes)
  {
  }

  lemma NoSelfArcs(ids: seq<Id>, out: Arcs)
    requires Acyclic(out)
    ensures forall id :: id in ids ==> id !in Targets(out, id)
  {
    forall id | id in ids
      ensures id !in Targets(out, id)
    {
      Ranking.NoSelfArc(out, id);
    }
  }

  /** Every id goes to the end of the row of its rank. */
  method Rows(ids: seq<Id>, rank: map<Id, nat>) returns (rows: seq<seq<Id>>)
    requires rank.Keys == IdSet(ids)
    ensures |rows| == Depth(ids, rank) + 1
    ensures forall r :: 0 <= r < |rows| ==> rows[r] == Row(ids, rank, r)
  {
    rows := seq(Depth(ids, rank) + 1, i => []);
    for i := 0 to |ids|
      invariant |rows| == Depth(ids, rank) + 1
      invariant forall r :: 0 <= r < |rows| ==> rows[r] == Row(ids[..i], rank, r)
    {
      var id := ids[i];
      assert ids[..i + 1][..i] == ids[..i];
      assert id in IdSet(ids);
      rows := rows[rank[id] := rows[rank[id]] + [id]];
    }
    assert ids[..|ids|] == ids;
  }

  lemma {:induction false} RowMembers(ids: seq<Id>, rank: map<Id, nat>, r: nat)
    ensures forall id :: id in Row(ids, rank, r) <==> id in ids && id in rank && rank[id] == r
    ensures NoDup(ids) ==> NoDup(Row(ids, rank, r))
  {
    if ids != [] {
      var front, id := ids[..|ids| - 1], ids[|ids| - 1];
      RowMembers(front, rank, r);
      assert ids == front + [id];
      if NoDup(ids) {
        assert forall i :: 0 <= i < |front| ==> ids[i] != ids[|front|];
        assert id !in front;
      }
    }
  }

  /** A row lists the nodes of its rank in the order of the graph. */
  lemma {:induction false} RowIsInOrder(ids: seq<Id>, rank: map<Id, nat>, r: nat) returns (from: seq<nat>)
    ensures Increasing(from) && Entries(ids, from, Row(ids, rank, r))
    ensures forall k: nat :: k in from <==> k < |ids| && ids[k] in rank && rank[ids[k]] == r
  {
    hide Increasing, Entries;
    if ids == [] {
      from := [];
      NoPositions();
      NoEntries(ids);
    } else {
      var n := |ids| - 1;
      var front, id := ids[..n], ids[n];
      assert ids == front + [id];
      from := RowIsInOrder(front, rank, r);
      MorePositions(from, n);
      EntriesOfLonger(front, from, Row(front, rank, r), id);
      assert Row(ids, rank, r) == if id in rank && rank[id] == r then Row(front, rank, r) + [id] else Row(front, rank, r);
      if id in rank && rank[id] == r { from := from + [n]; }
    }
  }

  /** Some node has every rank below a rank that occurs. */
  lemma {:induction false} RanksAreDense(ids: seq<Id>, out: Arcs, incoming: Arcs, rank: map<Id, nat>, v: Id, r: nat)
    returns (u: Id)
    requires Transposed(ids, out, incoming) && Ranking.Layered(ids, incoming, rank)
    requires v in ids && v in rank && r <= rank[v]
    ensures u in ids && u in rank && rank[u] == r
    decreases rank[v]
  {
    if rank[v] == r {
      u := v;
    } else {
      assert Ranking.RankedAbove(incoming, rank, v);
      var w :| w in Targets(incoming, v) && w in rank && rank[v] == rank[w] + 1;
      assert v in Targets(out, w);
      u := RanksAreDense(ids, out, incoming, rank, w, r);
    }
  }

  /** Every node is in exactly one row, and no row is empty. */
  lemma RowsPartition(g: Graph, out: Arcs, incoming: Arcs, back: set<string>, rank: map<Id, nat>)
    requires LayersOf(g, out, incoming, back, rank)
    ensures forall id :: id in Ids(g.nodes) ==>
      id in rank && rank[id] <= Depth(Ids(g.nodes), rank)
      && forall r: nat :: id in Row(Ids(g.nodes), rank, r) <==> r == rank[id]
    ensures g.nodes != [] ==> forall r: nat :: r <= Depth(Ids(g.nodes), rank) ==> Row(Ids(g.nodes), rank, r) != []
  {
    var ids := Ids(g.nodes);
    ViewIds(g);
    hide ViewOf, Acyclic, CutAlong, AllClose;
    forall r: nat
      ensures forall id :: id in Row(ids, rank, r) <==> id in ids && id in rank && rank[id] == r
    {
      RowMembers(ids, rank, r);
    }
    assert forall id :: id in ids ==> id in IdSet(ids);
    if g.nodes != [] {
      assert ids[0] in ids;
      var top := if Depth(ids, rank) == 0 then ids[0] else Deepest(ids, rank);
      forall r: nat | r <= Depth(ids, rank)
        ensures Row(ids, rank, r) != []
      {
        if r <= rank[top] {
          var u := RanksAreDense(ids, out, incoming, rank, top, r);
          assert u in Row(ids, rank, r);
        }
      }
    }
  }

  ghost function Deepest(ids: seq<Id>, rank: map<Id, nat>): (id: Id)
    requires Depth(ids, rank) > 0
    ensures id in ids && id in rank && rank[id] == Depth(ids, rank)
  {
    var id :| id in ids && id in rank && rank[id] == Depth(ids, rank);
    id
  }

  /** Every edge of the view leads to a later row, unless it lies on a cycle of the graph. */
  lemma ArcsLeadDown(g: Graph, out: Arcs, incoming: Arcs, back: set<string>, rank: map<Id, nat>, s: Id, t: Id)
    requires LayersOf(g, out, incoming, back, rank) && t in Targets(ViewOf(g).out, s)
    ensures s in rank && t in rank
    ensures rank[s] < rank[t] || Reaches(ViewOf(g).out, t, s)
  {
    var view := ViewOf(g);
    ViewTransposed(g);
    ViewKeysAreUnique(g);
    TransposedIsClosed(view.ids, view.out, view.incoming);
    assert s in IdSet(view.ids) && t in IdSet(view.ids);
    hide ViewOf, Acyclic, AllClose, Ranking.Layered, KeysAreUnique;
    if t in Targets(out, s) {
      hide CutAlong;
      Ranking.ArcsClimb(view.ids, out, incoming, rank, s, t);
    } else {
      CutLiesOnCycle(view.out, back, out, s, t);
    }
  }

  /** So does every edge of the graph between two different nodes, when the keys of the edges tell them apart. */
  lemma EdgesLeadDown(g: Graph, out: Arcs, incoming: Arcs, back: set<string>, rank: map<Id, nat>, e: Edge)
    requires LayersOf(g, out, incoming, back, rank) && KeysTellApart(g) && Eligible(g, e)
    ensures e.source in rank && e.target in rank
    ensures rank[e.source] < rank[e.target] || Reaches(ViewOf(g).out, e.target, e.source)
  {
    EligibleIsKept(g, e);
    hide ViewOf, LayersOf;
    ArcsLeadDown(g, out, incoming, back, rank, e.source, e.target);
  }

  /** On a graph without cycles every edge leads down, and the row of a node is the length of the longest chain of edges
    * that ends there.
    */
  lemma AcyclicGraphsAreLayered(g: Graph, out: Arcs, incoming: Arcs, back: set<string>, rank: map<Id, nat>, v: Id)
    requires LayersOf(g, out, incoming, back, rank) && Acyclic(ViewOf(g).out) && v in Ids(g.nodes)
    ensures v in rank
    ensures forall p :: Ranking.EndsAt(ViewOf(g).out, p, v) ==> |p| - 1 <= rank[v]
    ensures exists p :: Ranking.EndsAt(ViewOf(g).out, p, v) && |p| - 1 == rank[v]
  {
    var view := ViewOf(g);
    ViewIds(g);
    NothingToCut(view.out, back, out);
    hide ViewOf, Acyclic, AllClose, CutAlong;
    Ranking.RankIsLongestWalk(view.ids, out, incoming, rank, v);
  }

  /** `tree`: a forest over all nodes, whose roots are the nodes nothing points at once the cycles are cut. */
  method ForestOf(g: Graph)
    returns (t: SpanningForest.Trees, ghost out: Arcs, ghost incoming: Arcs, ghost back: set<string>,
             ghost depth: map<Id, nat>, ghost trees: seq<seq<Id>>)
    requires NoDup(Ids(g.nodes))
    ensures Acyclic(out) && Transposed(Ids(g.nodes), out, incoming)
    ensures CutAlong(ViewOf(g).out, back, out) && AllClose(ViewOf(g).out, back)
    ensures SpanningForest.IsForest(IdSet(Ids(g.nodes)), out, t, depth) && SpanningForest.GrownTrees(out, t, trees)
    ensures t.parent.Keys == IdSet(Ids(g.nodes)) && t.roots == Ranking.Sources(Ids(g.nodes), incoming)
  {
    var view := BuildAdjacency(g);
    ViewTransposed(g);
    ViewNeighbours(g);
    ViewIds(g);
    hide ViewOf, Transposed, Symmetric, Acyclic, CutAlong, AllClose, SpanningForest.IsForest, SpanningForest.GrownTrees;
    var dagOut, dagIn;
    ghost var order;
    dagOut, dagIn, back, order := AcyclicView(view);
    t, depth, trees := SpanningForest.BuildForest(view, dagOut, dagIn);
    out, incoming := dagOut, dagIn;
  }
}
