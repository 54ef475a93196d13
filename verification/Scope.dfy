/** Scoping a layout to the board, a selection, or the nodes a few steps from some seeds. */
module Scope {
  import opened Walks
  import opened LayoutGraph
  import opened Positions
  import Connectivity

  datatype LayoutScope =
    | Board
    | Selection(ids: seq<Id>)
    | Subgraph(ids: seq<Id>, depth: int)

  ghost predicate WalkOfAtMost(arcs: Arcs, p: seq<Id>, seeds: seq<Id>, k: nat, v: Id) {
    IsWalk(arcs, p) && |p| - 1 <= k && p[0] in seeds && p[|p| - 1] == v
  }

  /** `v` is at most `k` arcs away from some seed. */
  ghost predicate WithinSteps(arcs: Arcs, seeds: seq<Id>, k: nat, v: Id) {
    exists p :: WalkOfAtMost(arcs, p, seeds, k, v)
  }

  function Steps(depth: int): nat {
    if depth < 0 then 0 else depth
  }

  /** What the scope promises to keep. */
  ghost predicate Wanted(g: Graph, scope: LayoutScope, v: Id) {
    match scope
    case Board => true
    case Selection(ids) => v in ids
    case Subgraph(ids, depth) => if depth <= 0 then v in ids else WithinSteps(ViewOf(g).neighbours, ids, depth, v)
  }

  lemma NoSteps(arcs: Arcs, seeds: seq<Id>, v: Id)
    ensures WithinSteps(arcs, seeds, 0, v) <==> v in seeds
  {
    if v in seeds { assert WalkOfAtMost(arcs, [v], seeds, 0, v); }
  }

  lemma OneMoreStep(arcs: Arcs, seeds: seq<Id>, k: nat, v: Id)
    ensures WithinSteps(arcs, seeds, k + 1, v) <==>
      WithinSteps(arcs, seeds, k, v) || exists u :: WithinSteps(arcs, seeds, k, u) && v in Targets(arcs, u)
  {
    if WithinSteps(arcs, seeds, k + 1, v) {
      var p :| WalkOfAtMost(arcs, p, seeds, k + 1, v);
      if |p| - 1 <= k {
        assert WalkOfAtMost(arcs, p, seeds, k, v);
      } else {
        assert ArcAt(arcs, p, |p| - 2);
        WalkSlice(arcs, p, 0, |p| - 1);
        assert WalkOfAtMost(arcs, p[0..|p| - 1], seeds, k, p[|p| - 2]);
      }
    }
    if WithinSteps(arcs, seeds, k, v) {
      var p :| WalkOfAtMost(arcs, p, seeds, k, v);
      assert WalkOfAtMost(arcs, p, seeds, k + 1, v);
    }
    if u :| WithinSteps(arcs, seeds, k, u) && v in Targets(arcs, u) {
      var p :| WalkOfAtMost(arcs, p, seeds, k, u);
      WalkSnoc(arcs, p, v);
      assert WalkOfAtMost(arcs, p + [v], seeds, k + 1, v);
    }
  }

  /** The set of nodes within `k` steps, and the only members that may still have a way out. */
  ghost predicate Ball(arcs: Arcs, seeds: seq<Id>, k: nat, wanted: set<Id>) {
    forall v {:trigger WithinSteps(arcs, seeds, k, v)} {:trigger v in wanted} ::
      v in wanted <==> WithinSteps(arcs, seeds, k, v)
  }

  ghost predicate OnlyVia(arcs: Arcs, wanted: set<Id>, frontier: seq<Id>) {
    && (forall u :: u in frontier ==> u in wanted)
    && (forall u, v {:trigger v in Targets(arcs, u)} ::
          u in wanted && v in Targets(arcs, u) ==> v in wanted || u in frontier)
  }

  /** One ring of the search: everything adjacent to the frontier is added, and becomes the next frontier. */
  lemma RingIsNextBall(arcs: Arcs, seeds: seq<Id>, k: nat, wanted: set<Id>, frontier: seq<Id>, wanted': set<Id>)
    requires Ball(arcs, seeds, k, wanted) && OnlyVia(arcs, wanted, frontier)
    requires forall v :: v in wanted' <==> v in wanted || exists u :: u in frontier && v in Targets(arcs, u)
    ensures Ball(arcs, seeds, k + 1, wanted')
  {
    forall v
      ensures v in wanted' <==> WithinSteps(arcs, seeds, k + 1, v)
    {
      OneMoreStep(arcs, seeds, k, v);
      if u :| WithinSteps(arcs, seeds, k, u) && v in Targets(arcs, u) {
        assert u in wanted;
      }
      if u :| u in frontier && v in Targets(arcs, u) {
        assert WithinSteps(arcs, seeds, k, u);
      }
    }
  }

  /** Nothing leads out any more: every larger radius gives the same set. */
  lemma BallIsFull(arcs: Arcs, seeds: seq<Id>, k: nat, n: nat, wanted: set<Id>)
    requires Ball(arcs, seeds, k, wanted) && OnlyVia(arcs, wanted, []) && k <= n
    ensures Ball(arcs, seeds, n, wanted)
    decreases n - k
  {
    if k < n {
      RingIsNextBall(arcs, seeds, k, wanted, [], wanted);
      BallIsFull(arcs, seeds, k + 1, n, wanted);
    }
  }

  ghost predicate RingSoFar(arcs: Arcs, wanted0: set<Id>, done: seq<Id>, wanted: set<Id>, next: seq<Id>) {
    && wanted == wanted0 + IdSet(next)
    && (forall v :: v in next ==> v !in wanted0 && exists u :: u in done && v in Targets(arcs, u))
    && (forall u, v {:trigger v in Targets(arcs, u)} :: u in done && v in Targets(arcs, u) ==> v in wanted)
  }

  /** The two inner loops: queue every neighbour of the frontier that is new. */
  method Ring(neighbours: Arcs, frontier: seq<Id>, wanted0: set<Id>) returns (wanted: set<Id>, next: seq<Id>)
    ensures RingSoFar(neighbours, wanted0, frontier, wanted, next)
  {
    wanted, next := wanted0, [];
    for f := 0 to |frontier|
      invariant RingSoFar(neighbours, wanted0, frontier[..f], wanted, next)
    {
      var id := frontier[f];
      var list := Targets(neighbours, id);
      ghost var done := frontier[..f + 1];
      assert done == frontier[..f] + [id];
      for j := 0 to |list|
        invariant wanted == wanted0 + IdSet(next)
        invariant forall v :: v in next ==> v !in wanted0 && exists u :: u in done && v in Targets(neighbours, u)
        invariant forall u, v {:trigger v in Targets(neighbours, u)} ::
          u in frontier[..f] && v in Targets(neighbours, u) ==> v in wanted
        invariant forall k :: 0 <= k < j ==> list[k] in wanted
      {
        var neighbour := list[j];
        if neighbour in wanted { continue; }
        assert id in done && neighbour in Targets(neighbours, id);
        wanted := wanted + {neighbour};
        next := next + [neighbour];
      }
    }
    assert frontier[..|frontier|] == frontier;
  }

  lemma RingDone(arcs: Arcs, seeds: seq<Id>, k: nat, wanted: set<Id>, frontier: seq<Id>, wanted': set<Id>, next: seq<Id>)
    requires Ball(arcs, seeds, k, wanted) && OnlyVia(arcs, wanted, frontier)
    requires RingSoFar(arcs, wanted, frontier, wanted', next)
    ensures Ball(arcs, seeds, k + 1, wanted') && OnlyVia(arcs, wanted', next)
  {
    forall v
      ensures v in wanted' <==> v in wanted || exists u :: u in frontier && v in Targets(arcs, u)
    {
      if v in wanted' && v !in wanted { assert v in next; }
    }
    RingIsNextBall(arcs, seeds, k, wanted, frontier, wanted');
  }

  /** The bounded breadth-first search keeps exactly the nodes within `depth` steps. */
  method Reachable(neighbours: Arcs, seeds: seq<Id>, depth: int) returns (wanted: set<Id>)
    ensures Ball(neighbours, seeds, Steps(depth), wanted)
  {
    wanted := IdSet(seeds);
    var frontier := seeds;
    forall v
      ensures v in wanted <==> WithinSteps(neighbours, seeds, 0, v)
    {
      NoSteps(neighbours, seeds, v);
    }
    for step := 0 to Steps(depth)
      invariant Ball(neighbours, seeds, step, wanted)
      invariant OnlyVia(neighbours, wanted, frontier)
    {
      ghost var before, edge := wanted, frontier;
      wanted, frontier := Ring(neighbours, frontier, wanted);
      RingDone(neighbours, seeds, step, before, edge, wanted, frontier);
      if |frontier| == 0 {
        BallIsFull(neighbours, seeds, step + 1, Steps(depth), wanted);
        break;
      }
    }
  }

  // ---------------------------------------------------------------- the three filters

  function KeptNodes(nodes: seq<Node>, wanted: set<Id>): seq<Node> {
    if nodes == [] then []
    else
      var n := nodes[|nodes| - 1];
      KeptNodes(nodes[..|nodes| - 1], wanted) + if n.id in wanted then [n] else []
  }

  function ExcludedIds(nodes: seq<Node>, wanted: set<Id>): seq<Id> {
    if nodes == [] then []
    else
      var n := nodes[|nodes| - 1];
      ExcludedIds(nodes[..|nodes| - 1], wanted) + if n.id in wanted then [] else [n.id]
  }

  function InducedEdges(edges: seq<Edge>, wanted: set<Id>): seq<Edge> {
    if edges == [] then []
    else
      var e := edges[|edges| - 1];
      InducedEdges(edges[..|edges| - 1], wanted) + if e.source in wanted && e.target in wanted then [e] else []
  }

  lemma {:induction false} KeptFrom(nodes: seq<Node>, wanted: set<Id>) returns (from: seq<nat>)
    ensures Increasing(from) && Entries(nodes, from, KeptNodes(nodes, wanted))
    ensures forall k: nat :: k in from <==> k < |nodes| && nodes[k].id in wanted
  {
    hide Increasing, Entries;
    if nodes == [] {
      from := [];
      NoPositions();
      NoEntries(nodes);
    } else {
      var n := |nodes| - 1;
      var front, e := nodes[..n], nodes[n];
      var picked := KeptNodes(front, wanted);
      assert nodes == front + [e];
      from := KeptFrom(front, wanted);
      MorePositions(from, n);
      EntriesOfLonger(front, from, picked, e);
      assert KeptNodes(nodes, wanted) == if e.id in wanted then picked + [e] else picked;
      hide KeptNodes;
      if e.id in wanted { from := from + [n]; }
    }
  }

  lemma {:induction false} ExcludedFrom(nodes: seq<Node>, wanted: set<Id>) returns (from: seq<nat>)
    ensures Increasing(from) && Entries(Ids(nodes), from, ExcludedIds(nodes, wanted))
    ensures forall k: nat :: k in from <==> k < |nodes| && nodes[k].id !in wanted
  {
    hide Increasing, Entries;
    if nodes == [] {
      from := [];
      NoPositions();
      NoEntries(Ids(nodes));
    } else {
      var n := |nodes| - 1;
      var front, e := nodes[..n], nodes[n];
      var picked := ExcludedIds(front, wanted);
      assert nodes == front + [e];
      assert Ids(nodes) == Ids(front) + [e.id];
      from := ExcludedFrom(front, wanted);
      MorePositions(from, n);
      EntriesOfLonger(Ids(front), from, picked, e.id);
      assert ExcludedIds(nodes, wanted) == if e.id !in wanted then picked + [e.id] else picked;
      hide ExcludedIds;
      if e.id !in wanted { from := from + [n]; }
    }
  }

  /** Kept and excluded split the nodes between them, each in the order of the graph. */
  lemma Partition(nodes: seq<Node>, wanted: set<Id>) returns (kept: seq<nat>, dropped: seq<nat>)
    ensures Increasing(kept) && Increasing(dropped)
    ensures Entries(nodes, kept, KeptNodes(nodes, wanted)) && Entries(Ids(nodes), dropped, ExcludedIds(nodes, wanted))
    ensures forall k: nat :: k in kept <==> k < |nodes| && nodes[k].id in wanted
    ensures forall k: nat :: k in dropped <==> k < |nodes| && nodes[k].id !in wanted
  {
    kept := KeptFrom(nodes, wanted);
    dropped := ExcludedFrom(nodes, wanted);
    hide *;
  }

  /** The edges with both ends wanted stay, all of them, in the order of the graph. */
  lemma {:induction false} InducedFrom(edges: seq<Edge>, wanted: set<Id>) returns (from: seq<nat>)
    ensures Increasing(from) && Entries(edges, from, InducedEdges(edges, wanted))
    ensures forall k: nat :: k in from <==> k < |edges| && edges[k].source in wanted && edges[k].target in wanted
  {
    hide Increasing, Entries;
    if edges == [] {
      from := [];
      NoPositions();
      NoEntries(edges);
    } else {
      var n := |edges| - 1;
      var front, e := edges[..n], edges[n];
      var picked := InducedEdges(front, wanted);
      assert edges == front + [e];
      from := InducedFrom(front, wanted);
      MorePositions(from, n);
      EntriesOfLonger(front, from, picked, e);
      assert InducedEdges(edges, wanted) == if e.source in wanted && e.target in wanted then picked + [e] else picked;
      hide InducedEdges;
      if e.source in wanted && e.target in wanted { from := from + [n]; }
    }
  }

  method Filter(g: Graph, wanted: set<Id>) returns (scoped: Graph, excluded: seq<Id>)
    ensures scoped == Graph(KeptNodes(g.nodes, wanted), InducedEdges(g.edges, wanted))
    ensures excluded == ExcludedIds(g.nodes, wanted)
  {
    var nodes: seq<Node>, edges: seq<Edge> := [], [];
    excluded := [];
    for i := 0 to |g.nodes|
      invariant nodes == KeptNodes(g.nodes[..i], wanted)
      invariant excluded == ExcludedIds(g.nodes[..i], wanted)
    {
      assert g.nodes[..i + 1][..i] == g.nodes[..i];
      if g.nodes[i].id in wanted { nodes := nodes + [g.nodes[i]]; }
      else { excluded := excluded + [g.nodes[i].id]; }
    }
    for i := 0 to |g.edges|
      invariant edges == InducedEdges(g.edges[..i], wanted)
    {
      assert g.edges[..i + 1][..i] == g.edges[..i];
      var e := g.edges[i];
      if e.source in wanted && e.target in wanted { edges := edges + [e]; }
    }
    assert g.nodes[..|g.nodes|] == g.nodes && g.edges[..|g.edges|] == g.edges;
    scoped := Graph(nodes, edges);
  }

  /** `wanted` holds exactly what the scope asks for, and the three results are the filters by it. */
  method ApplyScope(g: Graph, scope: LayoutScope)
    returns (scoped: Graph, excluded: seq<Id>, ghost wanted: set<Id>)
    ensures scope.Board? ==> scoped == g && excluded == []
    ensures !scope.Board? ==>
      && (forall v {:trigger v in wanted} :: v in wanted <==> Wanted(g, scope, v))
      && scoped == Graph(KeptNodes(g.nodes, wanted), InducedEdges(g.edges, wanted))
      && excluded == ExcludedIds(g.nodes, wanted)
  {
    match scope {
      case Board =>
        wanted := {};
        return g, [], wanted;
      case Selection(ids) =>
        wanted := IdSet(ids);
        scoped, excluded := Filter(g, IdSet(ids));
      case Subgraph(ids, depth) =>
        var view := BuildAdjacency(g);
        var reached := Reachable(view.neighbours, ids, depth);
        forall v | depth <= 0 ensures v in reached <==> v in ids { NoSteps(view.neighbours, ids, v); }
        wanted := reached;
        scoped, excluded := Filter(g, reached);
    }
  }
}
