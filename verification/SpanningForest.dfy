/** The spanning forest behind the tree layout. */
module SpanningForest {
  import opened Walks
  import opened LayoutGraph
  import opened Options
  import opened Connectivity
  import Ranking
  import BreadthTrees

  /** The three structures the source returns. A node is visited exactly when it has a `parent` entry. */
  datatype Trees = Trees(roots: seq<Id>, children: Arcs, parent: map<Id, Option<Id>>)

  /** A placed node is a root at depth 0, or hangs one level below exactly one placed parent. */
  ghost predicate PlacedIn(out: Arcs, t: Trees, depth: map<Id, nat>, v: Id) {
    && v in t.parent
    && v in depth
    && match t.parent[v]
       case None => v in t.roots && depth[v] == 0
       case Some(u) =>
         && v !in t.roots
         && u in t.parent && u in depth && depth[v] == depth[u] + 1
         && v in Targets(out, u) && v in Targets(t.children, u)
  }

  /** `children` inverts `parent`, every parent arc is an arc of the graph, and depth measures the way up. */
  ghost predicate IsForest(ids: set<Id>, out: Arcs, t: Trees, depth: map<Id, nat>) {
    && t.children.Keys == ids
    && depth.Keys == t.parent.Keys <= ids
    && NoDup(t.roots)
    && (forall v :: v in t.roots ==> v in t.parent)
    && (forall v {:trigger PlacedIn(out, t, depth, v)} :: v in t.parent ==> PlacedIn(out, t, depth, v))
    && (forall u, v {:trigger v in Targets(t.children, u)} ::
          v in Targets(t.children, u) ==> v in t.parent && t.parent[v] == Some(u))
    && (forall u :: u in ids ==> NoDup(t.children[u]))
  }

  /** `v` leads to `root` by following `steps` parents. */
  ghost predicate LeadsTo(t: Trees, v: Id, root: Id, steps: nat)
    decreases steps
  {
    v in t.parent &&
    if steps == 0 then v == root
    else t.parent[v].Some? && LeadsTo(t, t.parent[v].value, root, steps - 1)
  }

  /** Following parents from any placed node ends at a root. */
  lemma {:induction false} ParentsEndAtRoot(ids: set<Id>, out: Arcs, t: Trees, depth: map<Id, nat>, v: Id)
    requires IsForest(ids, out, t, depth) && v in t.parent
    ensures v in depth && exists root :: root in t.roots && LeadsTo(t, v, root, depth[v])
    decreases if v in depth then depth[v] else 0
  {
    assert PlacedIn(out, t, depth, v);
    if t.parent[v].Some? {
      var u := t.parent[v].value;
      ParentsEndAtRoot(ids, out, t, depth, u);
      var root :| root in t.roots && LeadsTo(t, u, root, depth[u]);
      assert LeadsTo(t, v, root, depth[v]);
    } else {
      assert LeadsTo(t, v, v, 0);
    }
  }

  // ---------------------------------------------------------------- growing the forest

  function WithRoot(t: Trees, root: Id): Trees {
    Trees(t.roots + [root], t.children, t.parent[root := None])
  }

  function WithChild(t: Trees, id: Id, child: Id): Trees
    requires id in t.children
  {
    Trees(t.roots, t.children[id := t.children[id] + [child]], t.parent[child := Some(id)])
  }

  lemma PlaceRoot(ids: set<Id>, out: Arcs, t: Trees, depth: map<Id, nat>, root: Id)
    requires IsForest(ids, out, t, depth) && root in ids && root !in t.parent
    ensures IsForest(ids, out, WithRoot(t, root), depth[root := 0])
  {
    hide PlacedIn, Targets;
    RootPlaced(out, t, depth, root);
    var t', depth' := WithRoot(t, root), depth[root := 0];
    forall v {:trigger PlacedIn(out, t', depth', v)} | v in t'.parent
      ensures PlacedIn(out, t', depth', v)
    {
      if v != root {
        assert PlacedIn(out, t, depth, v);
        PlacedBesideRoot(out, t, depth, root, v);
      }
    }
  }

  lemma RootPlaced(out: Arcs, t: Trees, depth: map<Id, nat>, root: Id)
    ensures PlacedIn(out, WithRoot(t, root), depth[root := 0], root)
  {
    assert (t.roots + [root])[|t.roots|] == root;
  }

  lemma PlacedBesideRoot(out: Arcs, t: Trees, depth: map<Id, nat>, root: Id, v: Id)
    requires PlacedIn(out, t, depth, v) && root !in t.parent && v != root
    ensures PlacedIn(out, WithRoot(t, root), depth[root := 0], v)
  {
  }

  lemma PlaceChild(ids: set<Id>, out: Arcs, t: Trees, depth: map<Id, nat>, id: Id, child: Id)
    requires IsForest(ids, out, t, depth)
    requires id in t.parent && child in ids && child !in t.parent && child in Targets(out, id)
    ensures IsForest(ids, out, WithChild(t, id, child), depth[child := depth[id] + 1])
  {
    hide PlacedIn, Targets;
    EachPlaced(ids, out, t, depth, id, child);
    ChildrenInvert(ids, t, id, child);
    ChildrenDistinct(ids, t, id, child);
  }

  lemma EachPlaced(ids: set<Id>, out: Arcs, t: Trees, depth: map<Id, nat>, id: Id, child: Id)
    requires IsForest(ids, out, t, depth)
    requires id in t.parent && child in ids && child !in t.parent && child in Targets(out, id)
    ensures var t', depth' := WithChild(t, id, child), depth[child := depth[id] + 1];
      forall v {:trigger PlacedIn(out, t', depth', v)} :: v in t'.parent ==> PlacedIn(out, t', depth', v)
  {
    hide PlacedIn, Targets;
    var t', depth' := WithChild(t, id, child), depth[child := depth[id] + 1];
    NewlyPlaced(ids, out, t, depth, id, child);
    forall v {:trigger PlacedIn(out, t', depth', v)} | v in t'.parent
      ensures PlacedIn(out, t', depth', v)
    {
      if v != child {
        assert PlacedIn(out, t, depth, v);
        PlacedStill(out, t, depth, id, child, v);
      }
    }
  }

  lemma NewlyPlaced(ids: set<Id>, out: Arcs, t: Trees, depth: map<Id, nat>, id: Id, child: Id)
    requires IsForest(ids, out, t, depth)
    requires id in t.parent && child in ids && child !in t.parent && child in Targets(out, id)
    ensures PlacedIn(out, WithChild(t, id, child), depth[child := depth[id] + 1], child)
  {
    assert Targets(WithChild(t, id, child).children, id) == t.children[id] + [child];
  }

  lemma ChildrenDistinct(ids: set<Id>, t: Trees, id: Id, child: Id)
    requires id in t.children && t.children.Keys == ids && child !in Targets(t.children, id)
    requires forall u :: u in ids ==> NoDup(t.children[u])
    ensures forall u :: u in ids ==> NoDup(WithChild(t, id, child).children[u])
  {
  }

  lemma PlacedStill(out: Arcs, t: Trees, depth: map<Id, nat>, id: Id, child: Id, v: Id)
    requires PlacedIn(out, t, depth, v) && id in t.children && id in depth && child !in t.parent && v != child
    ensures PlacedIn(out, WithChild(t, id, child), depth[child := depth[id] + 1], v)
  {
  }

  lemma ChildrenInvert(ids: set<Id>, t: Trees, id: Id, child: Id)
    requires id in t.children && child !in t.parent
    requires forall u, v {:trigger v in Targets(t.children, u)} ::
      v in Targets(t.children, u) ==> v in t.parent && t.parent[v] == Some(u)
    ensures var t' := WithChild(t, id, child);
      forall u, v {:trigger v in Targets(t'.children, u)} ::
        v in Targets(t'.children, u) ==> v in t'.parent && t'.parent[v] == Some(u)
    ensures child !in Targets(t.children, id)
  {
    var t' := WithChild(t, id, child);
    forall u, v {:trigger v in Targets(t'.children, u)} | v in Targets(t'.children, u)
      ensures v in t'.parent && t'.parent[v] == Some(u)
    {
      if u != id || v != child { assert v in Targets(t.children, u); }
    }
  }

  /** Every arc out of a placed node leads to a placed node, except from nodes still `open`. */
  ghost predicate ClosedExcept(out: Arcs, placed: set<Id>, open: seq<Id>) {
    forall u, v {:trigger v in Targets(out, u)} ::
      u in placed && v in Targets(out, u) ==> v in placed || u in open
  }

  ghost predicate Within(ids: set<Id>, out: Arcs) {
    forall u, v {:trigger v in Targets(out, u)} :: v in Targets(out, u) ==> v in ids
  }

  /** The breadth-first loop of `visit`, with `queue[cursor..]` still to expand. */
  ghost predicate Growing(ids: set<Id>, out: Arcs, t: Trees, depth: map<Id, nat>, queue: seq<Id>, cursor: nat) {
    && cursor <= |queue|
    && IsForest(ids, out, t, depth)
    && (forall v :: v in queue ==> v in t.parent)
    && ClosedExcept(out, t.parent.Keys, queue[cursor..])
  }

  lemma AdoptOne(ids: set<Id>, out: Arcs, t: Trees, depth: map<Id, nat>, queue: seq<Id>, cursor: nat, id: Id, child: Id)
    requires Growing(ids, out, t, depth, queue, cursor)
    requires id in t.parent && child in ids && child !in t.parent && child in Targets(out, id)
    ensures Growing(ids, out, WithChild(t, id, child), depth[child := depth[id] + 1], queue + [child], cursor)
    ensures |ids - WithChild(t, id, child).parent.Keys| == |ids - t.parent.Keys| - 1
  {
    PlaceChild(ids, out, t, depth, id, child);
    assert (queue + [child])[cursor..] == queue[cursor..] + [child];
    assert ids - WithChild(t, id, child).parent.Keys == (ids - t.parent.Keys) - {child};
  }

  /** The first `j` of a list are all in a set. */
  ghost predicate AllIn(list: seq<Id>, j: nat, placed: set<Id>) {
    forall k :: 0 <= k < j && k < |list| ==> list[k] in placed
  }

  lemma OneMoreIn(list: seq<Id>, j: nat, placed: set<Id>, child: Id)
    requires j < |list| && list[j] == child && AllIn(list, j, placed)
    ensures AllIn(list, j + 1, placed + {child}) && (child in placed ==> AllIn(list, j + 1, placed))
  {
  }

  lemma NoneIn(list: seq<Id>, placed: set<Id>)
    ensures AllIn(list, 0, placed)
  {
  }

  /** Nothing hangs below a node that is not placed. */
  lemma FreshHasNone(ids: set<Id>, out: Arcs, t: Trees, depth: map<Id, nat>, queue: seq<Id>, cursor: nat, child: Id)
    requires Growing(ids, out, t, depth, queue, cursor) && child in ids && child !in t.parent
    ensures child in t.children && t.children[child] == [] && forall v :: v in t.parent ==> t.parent[v] != Some(child)
  {
    NoneBelow(ids, out, t, depth, child);
  }

  lemma NoneBelow(ids: set<Id>, out: Arcs, t: Trees, depth: map<Id, nat>, child: Id)
    requires IsForest(ids, out, t, depth) && child in ids && child !in t.parent
    ensures child in t.children && t.children[child] == [] && forall v :: v in t.parent ==> t.parent[v] != Some(child)
  {
    forall v | v in t.parent
      ensures t.parent[v] != Some(child)
    {
      assert PlacedIn(out, t, depth, v);
    }
    hide PlacedIn;
    assert t.children[child] == [] || t.children[child][0] in Targets(t.children, child);
  }

  /** How one tree stands. */
  ghost predicate GrowingTree(out: Arcs, t: Trees, past: set<Id>, queue: seq<Id>, cursor: nat, j: nat) {
    BreadthTrees.Growing(out, t.children, t.parent, past, queue, cursor, j)
  }

  ghost predicate GrownTrees(out: Arcs, t: Trees, trees: seq<seq<Id>>) {
    BreadthTrees.AreTrees(out, t.roots, t.children, t.parent, trees)
  }

  /** What was placed before is left alone. */
  ghost predicate Keeps(t0: Trees, t: Trees, past: set<Id>) {
    BreadthTrees.KeepsPast(past, t0.children, t0.parent, t.children, t.parent)
  }

  lemma AdoptInOrder(out: Arcs, t: Trees, past: set<Id>, queue: seq<Id>, cursor: nat, j: nat)
    requires GrowingTree(out, t, past, queue, cursor, j) && cursor < |queue| && j < |Targets(out, queue[cursor])|
    requires Targets(out, queue[cursor])[j] !in t.parent && AllIn(Targets(out, queue[cursor]), j, t.parent.Keys)
    requires var child := Targets(out, queue[cursor])[j];
      child in t.children && t.children[child] == [] && forall v :: v in t.parent ==> t.parent[v] != Some(child)
    ensures queue[cursor] in t.children
    ensures var child := Targets(out, queue[cursor])[j];
      && GrowingTree(out, WithChild(t, queue[cursor], child), past, queue + [child], cursor, j + 1)
      && Keeps(t, WithChild(t, queue[cursor], child), past)
  {
    hide BreadthTrees.Growing;
    BreadthTrees.AdoptGrows(out, t.children, t.parent, past, queue, cursor, j);
    BreadthTrees.InTree(out, t.children, t.parent, past, queue, cursor, j);
    NotPast(out, t, past, queue, cursor, j);
  }

  lemma NotPast(out: Arcs, t: Trees, past: set<Id>, queue: seq<Id>, cursor: nat, j: nat)
    requires GrowingTree(out, t, past, queue, cursor, j) && cursor < |queue|
    ensures queue[cursor] !in past && past <= t.parent.Keys
  {
    assert queue[cursor] in queue;
  }

  lemma KeepsTwice(a: Trees, b: Trees, c: Trees, past: set<Id>)
    requires Keeps(a, b, past) && Keeps(b, c, past)
    ensures Keeps(a, c, past)
  {
  }

  lemma KeepsSelf(t: Trees, past: set<Id>)
    ensures Keeps(t, t, past)
  {
  }

  /** The `for` over one node's targets: adopt each that is not placed yet. */
  method Adopt(ghost ids: set<Id>, out: Arcs, t0: Trees, ghost depth0: map<Id, nat>, queue0: seq<Id>, cursor: nat,
               ghost past: set<Id>)
    returns (t: Trees, ghost depth: map<Id, nat>, queue: seq<Id>)
    requires Growing(ids, out, t0, depth0, queue0, cursor) && cursor < |queue0| && Within(ids, out)
    requires GrowingTree(out, t0, past, queue0, cursor, 0)
    ensures Growing(ids, out, t, depth, queue, cursor + 1)
    ensures GrowingTree(out, t, past, queue, cursor + 1, 0) && Keeps(t0, t, past) && StartsAt(queue, queue0[0])
    ensures cursor + 1 <= |queue|
    ensures t0.parent.Keys <= t.parent.Keys && t.roots == t0.roots
    ensures |ids - t.parent.Keys| + |queue| == |ids - t0.parent.Keys| + |queue0|
  {
    hide Growing, Within, IsForest, Targets, AllIn, GrowingTree, Keeps;
    t, depth, queue := t0, depth0, queue0;
    var id := queue0[cursor];
    var list := Targets(out, id);
    KeepsSelf(t, past);
    assert AllIn(list, 0, t.parent.Keys) by { NoneIn(list, t.parent.Keys); }
    for j := 0 to |list|
      invariant Growing(ids, out, t, depth, queue, cursor)
      invariant GrowingTree(out, t, past, queue, cursor, j) && Keeps(t0, t, past)
      invariant queue0 <= queue && t.roots == t0.roots && t0.parent.Keys <= t.parent.Keys
      invariant AllIn(list, j, t.parent.Keys)
      invariant |ids - t.parent.Keys| + |queue| == |ids - t0.parent.Keys| + |queue0|
    {
      var child := list[j];
      OneMoreIn(list, j, t.parent.Keys, child);
      if child in t.parent {
        SkipInOrder(out, t, past, queue, cursor, j);
        continue;
      }
      InQueue(ids, out, t, depth, queue, cursor, cursor);
      TargetIsKnown(ids, out, id, child);
      AdoptOne(ids, out, t, depth, queue, cursor, id, child);
      FreshHasNone(ids, out, t, depth, queue, cursor, child);
      AdoptInOrder(out, t, past, queue, cursor, j);
      KeepsTwice(t0, t, WithChild(t, id, child), past);
      ghost var before := t.parent.Keys;
      depth := depth[child := depth[id] + 1];
      t := WithChild(t, id, child);
      queue := queue + [child];
      assert t.parent.Keys == before + {child};
    }
    AllAdopted(ids, out, t, depth, queue, cursor);
    NextInOrder(out, t, past, queue, cursor);
  }

  lemma SkipInOrder(out: Arcs, t: Trees, past: set<Id>, queue: seq<Id>, cursor: nat, j: nat)
    requires GrowingTree(out, t, past, queue, cursor, j)
    ensures GrowingTree(out, t, past, queue, cursor, j + 1)
  {
    hide BreadthTrees.Growing;
    BreadthTrees.SkipGrows(out, t.children, t.parent, past, queue, cursor, j);
  }

  lemma NextInOrder(out: Arcs, t: Trees, past: set<Id>, queue: seq<Id>, cursor: nat)
    requires cursor < |queue| && GrowingTree(out, t, past, queue, cursor, |Targets(out, queue[cursor])|)
    requires AllIn(Targets(out, queue[cursor]), |Targets(out, queue[cursor])|, t.parent.Keys)
    ensures GrowingTree(out, t, past, queue, cursor + 1, 0)
  {
    hide BreadthTrees.Growing, Targets;
    BreadthTrees.NextGrows(out, t.children, t.parent, past, queue, cursor);
  }

  lemma InQueue(ids: set<Id>, out: Arcs, t: Trees, depth: map<Id, nat>, queue: seq<Id>, cursor: nat, k: nat)
    requires Growing(ids, out, t, depth, queue, cursor) && k < |queue|
    ensures queue[k] in t.parent && queue[k] in depth && queue[k] in t.children
  {
    hide PlacedIn;
    assert queue[k] in queue;
  }

  lemma TargetIsKnown(ids: set<Id>, out: Arcs, id: Id, child: Id)
    requires Within(ids, out) && child in Targets(out, id)
    ensures child in ids
  {
  }

  lemma AllAdopted(ids: set<Id>, out: Arcs, t: Trees, depth: map<Id, nat>, queue: seq<Id>, cursor: nat)
    requires Growing(ids, out, t, depth, queue, cursor) && cursor < |queue|
    requires var list := Targets(out, queue[cursor]); AllIn(list, |list|, t.parent.Keys)
    ensures Growing(ids, out, t, depth, queue, cursor + 1)
  {
    hide IsForest, Targets, ClosedExcept;
    Expanded(out, t.parent.Keys, queue, cursor);
  }

  lemma Expanded(out: Arcs, placed: set<Id>, queue: seq<Id>, cursor: nat)
    requires cursor < |queue| && ClosedExcept(out, placed, queue[cursor..])
    requires forall v :: v in Targets(out, queue[cursor]) ==> v in placed
    ensures ClosedExcept(out, placed, queue[cursor + 1..])
  {
    assert queue[cursor..] == [queue[cursor]] + queue[cursor + 1..];
  }

  /** A forest whose placed part has no way out. */
  ghost predicate Planted(ids: set<Id>, out: Arcs, t: Trees, depth: map<Id, nat>) {
    IsForest(ids, out, t, depth) && ClosedSet(out, t.parent.Keys)
  }

  /** `visit`: place a root and everything reachable from it that is not placed yet. */
  method Visit(ghost ids: set<Id>, out: Arcs, root: Id, t0: Trees, ghost depth0: map<Id, nat>, ghost trees0: seq<seq<Id>>)
    returns (t: Trees, ghost depth: map<Id, nat>, ghost trees: seq<seq<Id>>)
    requires Planted(ids, out, t0, depth0) && Within(ids, out) && GrownTrees(out, t0, trees0)
    requires root in ids && root !in t0.parent
    ensures Planted(ids, out, t, depth) && GrownTrees(out, t, trees)
    ensures t.roots == t0.roots + [root] && t0.parent.Keys + {root} <= t.parent.Keys
  {
    hide Growing, Planted, IsForest, Within, GrowingTree, Keeps, GrownTrees, StartsAt;
    StartsGrowing(ids, out, t0, depth0, root);
    StartsTree(ids, out, t0, depth0, root);
    ghost var queue;
    t, depth, queue := Grow(ids, out, root, WithRoot(t0, root), depth0[root := 0], t0.parent.Keys);
    KeepsTwice(t0, WithRoot(t0, root), t, t0.parent.Keys);
    GrownIsPlanted(ids, out, t, depth, queue);
    TreeJoins(out, t0, t, trees0, queue, root);
    trees := trees0 + [queue];
  }

  ghost predicate StartsAt(queue: seq<Id>, root: Id) {
    queue != [] && queue[0] == root
  }

  lemma StartsWithItself(root: Id)
    ensures StartsAt([root], root)
  {
  }

  lemma StartsThere(queue: seq<Id>, root: Id)
    requires StartsAt(queue, root)
    ensures queue != [] && queue[0] == root
  {
  }

  /** Its loop: the queue of the tree, from the root on. */
  method Grow(ghost ids: set<Id>, out: Arcs, root: Id, t0: Trees, ghost depth0: map<Id, nat>, ghost past: set<Id>)
    returns (t: Trees, ghost depth: map<Id, nat>, queue: seq<Id>)
    requires Growing(ids, out, t0, depth0, [root], 0) && Within(ids, out) && GrowingTree(out, t0, past, [root], 0, 0)
    ensures Growing(ids, out, t, depth, queue, |queue|) && GrowingTree(out, t, past, queue, |queue|, 0)
    ensures Keeps(t0, t, past) && StartsAt(queue, root) && t.roots == t0.roots && t0.parent.Keys <= t.parent.Keys
  {
    hide Growing, IsForest, Within, GrowingTree, Keeps, StartsAt;
    assert StartsAt([root], root) by { StartsWithItself(root); }
    KeepsSelf(t0, past);
    t, depth, queue := t0, depth0, [root];
    var cursor := 0;
    while cursor < |queue|
      invariant cursor <= |queue| && Growing(ids, out, t, depth, queue, cursor)
      invariant GrowingTree(out, t, past, queue, cursor, 0) && Keeps(t0, t, past) && StartsAt(queue, root)
      invariant t.roots == t0.roots && t0.parent.Keys <= t.parent.Keys
      decreases |ids - t.parent.Keys| + |queue| - cursor
    {
      ghost var before, was := t, queue;
      t, depth, queue := Adopt(ids, out, t, depth, queue, cursor, past);
      cursor := cursor + 1;
      KeepsTwice(t0, before, t, past);
      StartsThere(was, root);
    }
  }

  lemma StartsTree(ids: set<Id>, out: Arcs, t: Trees, depth: map<Id, nat>, root: Id)
    requires Planted(ids, out, t, depth) && root in ids && root !in t.parent
    ensures GrowingTree(out, WithRoot(t, root), t.parent.Keys, [root], 0, 0) && Keeps(t, WithRoot(t, root), t.parent.Keys)
  {
    NoneBelow(ids, out, t, depth, root);
    hide IsForest, BreadthTrees.Growing;
    BreadthTrees.Plant(out, t.children, t.parent, root);
  }

  lemma TreeJoins(out: Arcs, t0: Trees, t: Trees, trees: seq<seq<Id>>, queue: seq<Id>, root: Id)
    requires GrownTrees(out, t0, trees) && GrowingTree(out, t, t0.parent.Keys, queue, |queue|, 0)
    requires Keeps(t0, t, t0.parent.Keys) && StartsAt(queue, root) && t.roots == t0.roots + [root]
    ensures GrownTrees(out, t, trees + [queue])
  {
    hide BreadthTrees.Growing, BreadthTrees.AreTrees, BreadthTrees.KeepsPast;
    BreadthTrees.OneMoreTree(out, t0.roots, t0.children, t0.parent, trees, t.children, t.parent, queue);
  }

  lemma NoTrees(out: Arcs, children: Arcs)
    ensures GrownTrees(out, Trees([], children, map[]), [])
  {
  }

  lemma StartsGrowing(ids: set<Id>, out: Arcs, t: Trees, depth: map<Id, nat>, root: Id)
    requires Planted(ids, out, t, depth) && root in ids && root !in t.parent
    ensures Growing(ids, out, WithRoot(t, root), depth[root := 0], [root], 0)
  {
    hide IsForest, Targets;
    PlaceRoot(ids, out, t, depth, root);
    assert [root][0..] == [root];
    assert WithRoot(t, root).parent.Keys == t.parent.Keys + {root};
  }

  lemma GrownIsPlanted(ids: set<Id>, out: Arcs, t: Trees, depth: map<Id, nat>, queue: seq<Id>)
    requires Growing(ids, out, t, depth, queue, |queue|)
    ensures Planted(ids, out, t, depth)
  {
    hide IsForest, Targets;
    assert queue[|queue|..] == [];
  }

  // ---------------------------------------------------------------- spanningForest

  /** If everything without parents is placed and placing is closed, an acyclic view is fully placed. */
  lemma SourcesReachAll(ids: seq<Id>, out: Arcs, incoming: Arcs, placed: set<Id>)
    requires Transposed(ids, out, incoming) && Acyclic(out) && ClosedSet(out, placed)
    requires forall v :: v in ids && Targets(incoming, v) == [] ==> v in placed
    ensures IdSet(ids) <= placed
  {
    var missed := IdSet(ids) - placed;
    forall v | v in missed
      ensures HasPredecessorIn(out, missed, v)
    {
      var u := Targets(incoming, v)[0];
      assert u in Targets(incoming, v);
      assert v in Targets(out, u);
      assert u in ids;
    }
    if missed != {} {
      PredecessorsCloseACycle(out, missed);
    }
    forall v | v in IdSet(ids)
      ensures v in placed
    {
      assert v !in missed;
    }
  }

  lemma TargetsAreIds(ids: seq<Id>, out: Arcs, incoming: Arcs)
    requires Transposed(ids, out, incoming)
    ensures Within(IdSet(ids), out)
  {
    forall u, v {:trigger v in Targets(out, u)} | v in Targets(out, u)
      ensures v in ids
    {
      assert u in Targets(incoming, v);
    }
  }

  /** A node without incoming arcs is nobody's child: once placed, it is a root. */
  lemma SourcesAreRoots(ids: seq<Id>, out: Arcs, incoming: Arcs, t: Trees, depth: map<Id, nat>)
    requires Transposed(ids, out, incoming) && IsForest(IdSet(ids), out, t, depth)
    ensures forall v :: v in t.parent && Targets(incoming, v) == [] ==> v in t.roots
  {
    forall v | v in t.parent
      ensures v in t.roots || Targets(incoming, v) != []
    {
      assert PlacedIn(out, t, depth, v);
      if t.parent[v].Some? { assert t.parent[v].value in Targets(incoming, v); }
    }
  }

  lemma AllPlaced(ids: seq<Id>, out: Arcs, incoming: Arcs, t: Trees, depth: map<Id, nat>)
    requires Transposed(ids, out, incoming) && Acyclic(out) && Planted(IdSet(ids), out, t, depth)
    requires t.roots == Ranking.Sources(ids, incoming)
    ensures t.parent.Keys == IdSet(ids)
  {
    Ranking.SourcesMembers(ids, incoming);
    SourcesReachAll(ids, out, incoming, t.parent.Keys);
  }

  /** The first loop: one tree per node without incoming arcs, in input order. */
  method PlantSources(ids: seq<Id>, out: Arcs, incoming: Arcs)
    returns (t: Trees, ghost depth: map<Id, nat>, ghost trees: seq<seq<Id>>)
    requires NoDup(ids) && Transposed(ids, out, incoming)
    ensures Planted(IdSet(ids), out, t, depth) && GrownTrees(out, t, trees)
    ensures t.roots == Ranking.Sources(ids, incoming)
    ensures Acyclic(out) ==> t.parent.Keys == IdSet(ids)
  {
    hide GrownTrees;
    t, depth, trees := Trees([], map id | id in ids :: [], map[]), map[], [];
    NoTrees(out, t.children);
    TargetsAreIds(ids, out, incoming);
    for i := 0 to |ids|
      invariant Planted(IdSet(ids), out, t, depth) && GrownTrees(out, t, trees)
      invariant t.roots == Ranking.Sources(ids[..i], incoming)
    {
      t, depth, trees := PlantSource(ids, out, incoming, i, t, depth, trees);
    }
    assert ids[..|ids|] == ids;
    if Acyclic(out) { AllPlaced(ids, out, incoming, t, depth); }
  }

  method PlantSource(ids: seq<Id>, out: Arcs, incoming: Arcs, i: nat, t0: Trees, ghost depth0: map<Id, nat>,
                     ghost trees0: seq<seq<Id>>)
    returns (t: Trees, ghost depth: map<Id, nat>, ghost trees: seq<seq<Id>>)
    requires NoDup(ids) && Transposed(ids, out, incoming) && Within(IdSet(ids), out) && i < |ids|
    requires Planted(IdSet(ids), out, t0, depth0) && GrownTrees(out, t0, trees0)
    requires t0.roots == Ranking.Sources(ids[..i], incoming)
    ensures Planted(IdSet(ids), out, t, depth) && GrownTrees(out, t, trees)
    ensures t.roots == Ranking.Sources(ids[..i + 1], incoming)
  {
    hide GrownTrees;
    t, depth, trees := t0, depth0, trees0;
    assert ids[..i + 1][..i] == ids[..i];
    SourceFresh(ids, out, incoming, t, depth, i);
    if ids[i] !in t.parent && Targets(incoming, ids[i]) == [] {
      t, depth, trees := Visit(IdSet(ids), out, ids[i], t, depth, trees);
    }
  }

  lemma SourceFresh(ids: seq<Id>, out: Arcs, incoming: Arcs, t: Trees, depth: map<Id, nat>, i: nat)
    requires NoDup(ids) && Transposed(ids, out, incoming) && IsForest(IdSet(ids), out, t, depth)
    requires i < |ids| && t.roots == Ranking.Sources(ids[..i], incoming)
    ensures Targets(incoming, ids[i]) == [] ==> ids[i] !in t.parent
  {
    Ranking.SourcesMembers(ids[..i], incoming);
    SourcesAreRoots(ids, out, incoming, t, depth);
  }

  method FirstUnplaced(group: seq<Id>, t: Trees) returns (k: nat)
    ensures k <= |group| && (forall j :: 0 <= j < k ==> group[j] in t.parent)
    ensures k < |group| ==> group[k] !in t.parent
  {
    k := 0;
    while k < |group| && group[k] in t.parent
      invariant k <= |group| && forall j :: 0 <= j < k ==> group[j] in t.parent
    {
      k := k + 1;
    }
  }

  /** The second loop: anchor what is left of each component on its first unplaced member. */
  method AnchorGroups(ghost ids: set<Id>, groups: seq<seq<Id>>, out: Arcs, t0: Trees, ghost depth0: map<Id, nat>,
                      ghost trees0: seq<seq<Id>>)
    returns (t: Trees, ghost depth: map<Id, nat>, ghost trees: seq<seq<Id>>)
    requires Planted(ids, out, t0, depth0) && Within(ids, out) && GrownTrees(out, t0, trees0)
    requires forall g :: 0 <= g < |groups| ==> IdSet(groups[g]) <= ids
    ensures Planted(ids, out, t, depth) && t0.roots <= t.roots && GrownTrees(out, t, trees)
    ensures t0.parent.Keys == ids ==> t == t0
  {
    hide GrownTrees;
    t, depth, trees := t0, depth0, trees0;
    for g := 0 to |groups|
      invariant Planted(ids, out, t, depth) && t0.roots <= t.roots && GrownTrees(out, t, trees)
      invariant t0.parent.Keys == ids ==> t == t0
    {
      var k := FirstUnplaced(groups[g], t);
      if k < |groups[g]| {
        assert groups[g][k] in IdSet(groups[g]);
        t, depth, trees := Visit(ids, out, groups[g][k], t, depth, trees);
      }
    }
  }

  /** The last loop: anything still unplaced becomes a root. */
  method PlantRest(ids: seq<Id>, out: Arcs, t0: Trees, ghost depth0: map<Id, nat>, ghost trees0: seq<seq<Id>>)
    returns (t: Trees, ghost depth: map<Id, nat>, ghost trees: seq<seq<Id>>)
    requires Planted(IdSet(ids), out, t0, depth0) && Within(IdSet(ids), out) && GrownTrees(out, t0, trees0)
    ensures Planted(IdSet(ids), out, t, depth) && t0.roots <= t.roots && GrownTrees(out, t, trees)
    ensures t.parent.Keys == IdSet(ids)
    ensures t0.parent.Keys == IdSet(ids) ==> t == t0
  {
    hide GrownTrees;
    t, depth, trees := t0, depth0, trees0;
    for i := 0 to |ids|
      invariant Planted(IdSet(ids), out, t, depth) && t0.roots <= t.roots && GrownTrees(out, t, trees)
      invariant forall k :: 0 <= k < i ==> ids[k] in t.parent
      invariant t0.parent.Keys == IdSet(ids) ==> t == t0
    {
      if ids[i] !in t.parent {
        t, depth, trees := Visit(IdSet(ids), out, ids[i], t, depth, trees);
      }
    }
  }

  /** A forest over every node; on an acyclic view its roots are exactly the nodes without incoming
    * arcs, in input order.
    */
  method BuildForest(view: AdjacencyView, out: Arcs, incoming: Arcs)
    returns (t: Trees, ghost depth: map<Id, nat>, ghost trees: seq<seq<Id>>)
    requires NoDup(view.ids) && Symmetric(view.ids, view.neighbours)
    requires Transposed(view.ids, out, incoming)
    ensures IsForest(IdSet(view.ids), out, t, depth)
    ensures GrownTrees(out, t, trees)
    ensures t.parent.Keys == IdSet(view.ids)
    ensures Ranking.Sources(view.ids, incoming) <= t.roots
    ensures Acyclic(out) ==> t.roots == Ranking.Sources(view.ids, incoming)
  {
    hide GrownTrees;
    t, depth, trees := PlantSources(view.ids, out, incoming);
    TargetsAreIds(view.ids, out, incoming);
    var groups, at := Components(view);
    t, depth, trees := AnchorGroups(IdSet(view.ids), groups, out, t, depth, trees);
    t, depth, trees := PlantRest(view.ids, out, t, depth, trees);
  }
}
