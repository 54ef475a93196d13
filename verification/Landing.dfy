/** Where every card of a finished layout lands, said without the stages that take it there. */
module Landing {
  import opened Walks
  import opened LayoutGraph
  import opened Options
  import opened Overlap
  import opened Placements
  import opened RunLayout
  import opened Reported
  import opened Positions

  // ---------------------------------------------------------------- the grid

  /** Snapping is to the nearest grid line, and from halfway to the next one up. */
  lemma SnapIsNearest(v: real, g: real)
    ensures OnGrid(Snap(v)) && -4.0 < Snap(v) - v <= 4.0
    ensures OnGrid(g) && -4.0 < g - v <= 4.0 ==> g == Snap(v)
  {
    SnapIsOnGrid(v);
    var n := (v / GRID + 0.5).Floor;
    assert v / GRID * GRID == v;
    assert n as real <= v / GRID + 0.5 < n as real + 1.0;
    if OnGrid(g) && -4.0 < g - v <= 4.0 {
      var k: int :| g == GridPoint(k);
      assert -8.0 < GridPoint(k) - GridPoint(n) < 8.0;
      assert k == n;
    }
  }

  // ---------------------------------------------------------------- the cards that go in

  /** Nodes that got no placement are put behind the others, in input order, where they are. */
  ghost predicate Completed(nodes: seq<Node>, ps: seq<Placement>, filled: seq<Placement>, from: seq<nat>) {
    && |filled| == |ps| + |from| && filled[..|ps|] == ps
    && (forall m :: 0 <= m < |from| ==> from[m] < |nodes| && filled[|ps| + m] == Current(nodes[from[m]]))
    && (forall m, m' :: 0 <= m < m' < |from| ==> from[m] < from[m'])
    && (forall i :: 0 <= i < |nodes| ==> (i in from <==> nodes[i].id !in PlacedIds(ps)))
  }

  lemma {:induction false} FallbacksComplete(nodes: seq<Node>, ps: seq<Placement>) returns (from: seq<nat>)
    requires UniqueIds(nodes)
    ensures Completed(nodes, ps, WithFallbacks(nodes, ps), from)
    decreases |nodes|
  {
    hide *;
    if nodes == [] {
      from := [];
      NoneMissing(ps);
    } else {
      var front, n := nodes[..|nodes| - 1], nodes[|nodes| - 1];
      assert nodes == front + [n];
      FrontIsUnique(nodes);
      from := FallbacksComplete(front, ps);
      NextFallback(front, n, ps);
      LastIsPlaced(front, n, ps, WithFallbacks(front, ps), from);
      CompletedNext(front, n, ps, WithFallbacks(front, ps), from);
      if n.id !in PlacedIds(ps) { from := from + [|front|]; }
    }
  }

  lemma NoneMissing(ps: seq<Placement>)
    ensures Completed([], ps, WithFallbacks([], ps), [])
  {
  }

  lemma CompletedNext(front: seq<Node>, n: Node, ps: seq<Placement>, filled: seq<Placement>, from: seq<nat>)
    requires Completed(front, ps, filled, from)
    ensures n.id in PlacedIds(ps) ==> Completed(front + [n], ps, filled, from)
    ensures n.id !in PlacedIds(ps) ==> Completed(front + [n], ps, filled + [Current(n)], from + [|front|])
  {
    hide PlacedIds;
    assert forall m :: m in from ==> m < |front|;
    if n.id !in PlacedIds(ps) {
      assert (filled + [Current(n)])[..|ps|] == filled[..|ps|];
      forall i
        ensures i in from + [|front|] <==> i in from || i == |front|
      {
      }
    }
  }

  lemma FrontIsUnique(nodes: seq<Node>)
    requires UniqueIds(nodes) && nodes != []
    ensures UniqueIds(nodes[..|nodes| - 1])
    ensures forall i :: 0 <= i < |nodes| - 1 ==> nodes[i].id != nodes[|nodes| - 1].id
  {
    var n := |nodes| - 1;
    assert Ids(nodes[..n]) == Ids(nodes)[..n];
    assert forall i :: 0 <= i < |nodes| ==> Ids(nodes)[i] == nodes[i].id;
  }

  lemma AddedIsOther(front: seq<Node>, n: Node, ps: seq<Placement>, filled: seq<Placement>, from: seq<nat>, m: nat)
    requires Completed(front, ps, filled, from) && m < |from| && forall i :: 0 <= i < |front| ==> front[i].id != n.id
    ensures filled[|ps| + m].id != n.id
  {
    assert from[m] < |front|;
  }

  lemma LastIsPlaced(front: seq<Node>, n: Node, ps: seq<Placement>, filled: seq<Placement>, from: seq<nat>)
    requires Completed(front, ps, filled, from) && forall i :: 0 <= i < |front| ==> front[i].id != n.id
    ensures n.id in PlacedIds(filled) <==> n.id in PlacedIds(ps)
  {
    if n.id in PlacedIds(filled) {
      var k :| 0 <= k < |filled| && filled[k].id == n.id;
      if k >= |ps| { AddedIsOther(front, n, ps, filled, from, k - |ps|); }
      assert filled[k] == ps[k] && PlacedIds(ps)[k] == n.id;
    }
    if n.id in PlacedIds(ps) {
      var k :| 0 <= k < |ps| && PlacedIds(ps)[k] == n.id;
      assert filled[k] == filled[..|ps|][k] && PlacedIds(filled)[k] == n.id;
    }
  }

  // ---------------------------------------------------------------- where they are meant to be

  /** How far the board's pinned nodes are, on average, from where they were placed. */
  function Offset(nodes: seq<Node>, filled: seq<Placement>, preserve: bool): Point {
    var pinned := PinnedOnly(nodes);
    if preserve && pinned != [] then
      var home, placed := Centroid(Currents(pinned)), Centroid(Anchors(pinned, filled));
      Point(home.x - placed.x, home.y - placed.y)
    else Point(0.0, 0.0)
  }

  /** Pinned cards at home, the others moved by `d`. */
  ghost predicate Meant(nodes: seq<Node>, filled: seq<Placement>, d: Point, target: seq<Placement>) {
    && |target| == |filled|
    && forall k :: 0 <= k < |filled| ==> MeantOne(nodes, filled[k], d, target[k])
  }

  ghost predicate MeantOne(nodes: seq<Node>, p: Placement, d: Point, q: Placement) {
    && q == p.(x := q.x, y := q.y)
    && if p.pinned then exists i :: 0 <= i < |nodes| && nodes[i].id == p.id && nodes[i].x == q.x && nodes[i].y == q.y
       else q.x == p.x + d.x && q.y == p.y + d.y
  }

  lemma {:induction false} FreeIsNotRestored(pinned: seq<Node>, p: Placement)
    requires forall n :: n in pinned ==> n.id != p.id
    ensures RestoredOne(pinned, p) == p
  {
    if pinned != [] {
      var front, last := pinned[..|pinned| - 1], pinned[|pinned| - 1];
      assert pinned == front + [last] && last in pinned;
      FreeIsNotRestored(front, p);
    }
  }

  /** A card of the board that is pinned is a pinned node's, and goes home; one that is not stays where it is. */
  lemma RestoredMeant(nodes: seq<Node>, p: Placement, d: Point)
    requires UniqueIds(nodes) && RunLayout.Listed(nodes, p)
    ensures MeantOne(nodes, p, d, RestoredOne(PinnedOnly(nodes), p.(x := p.x + d.x, y := p.y + d.y)))
  {
    PinnedMembers(nodes);
    hide UniqueIds, PinnedOnly, RestoredOne;
    var i :| 0 <= i < |nodes| && Describes(nodes[i], p);
    var moved := p.(x := p.x + d.x, y := p.y + d.y);
    forall n | n in PinnedOnly(nodes) && n.id == p.id
      ensures n == nodes[i]
    {
      SameIdSameNode(nodes, n, nodes[i]);
    }
    if p.pinned {
      assert nodes[i] in PinnedOnly(nodes);
      RestoredKeeps(PinnedOnly(nodes), moved);
      RestoredHome(PinnedOnly(nodes), moved, nodes[i]);
    } else {
      FreeIsNotRestored(PinnedOnly(nodes), moved);
    }
  }

  lemma AlignedBy(nodes: seq<Node>, filled: seq<Placement>, preserve: bool)
    ensures var d := Offset(nodes, filled, preserve);
      Aligned(PinnedOnly(nodes), filled, preserve) == Shifted(filled, d.x, d.y)
  {
    NoShift(filled);
    hide PinnedOnly, Centroid, Anchors, Currents, Shifted;
  }

  lemma PreparedIsMeant(nodes: seq<Node>, ps: seq<Placement>, preserve: bool)
    requires UniqueIds(nodes) && Fits(nodes, ps)
    ensures var filled := WithFallbacks(nodes, ps); Meant(nodes, filled, Offset(nodes, filled, preserve), Prepared(nodes, ps, preserve))
  {
    hide *;
    var filled := WithFallbacks(nodes, ps);
    var d := Offset(nodes, filled, preserve);
    FallbacksFit(nodes, nodes, ps);
    AlignedBy(nodes, filled, preserve);
    PreparedUnfolds(nodes, ps, preserve);
    RestoredAllMeant(nodes, filled, d);
  }

  lemma PreparedUnfolds(nodes: seq<Node>, ps: seq<Placement>, preserve: bool)
    ensures var pinned := PinnedOnly(nodes);
      Prepared(nodes, ps, preserve) == Restored(pinned, Aligned(pinned, WithFallbacks(nodes, ps), preserve))
  {
  }

  lemma RestoredAllMeant(nodes: seq<Node>, filled: seq<Placement>, d: Point)
    requires UniqueIds(nodes) && Fits(nodes, filled)
    ensures Meant(nodes, filled, d, Restored(PinnedOnly(nodes), Shifted(filled, d.x, d.y)))
  {
    hide UniqueIds, RestoredOne, MeantOne, PinnedOnly, RunLayout.Listed, PlacedIds;
    var moved := Shifted(filled, d.x, d.y);
    forall k | 0 <= k < |filled|
      ensures MeantOne(nodes, filled[k], d, RestoredOne(PinnedOnly(nodes), moved[k]))
    {
      RestoredMeant(nodes, filled[k], d);
    }
  }

  lemma MeantOnce(nodes: seq<Node>, filled: seq<Placement>, d: Point, a: seq<Placement>, b: seq<Placement>)
    requires UniqueIds(nodes) && Meant(nodes, filled, d, a) && Meant(nodes, filled, d, b)
    ensures a == b
  {
    hide UniqueIds;
    forall k | 0 <= k < |filled|
      ensures a[k] == b[k]
    {
      assert MeantOne(nodes, filled[k], d, a[k]) && MeantOne(nodes, filled[k], d, b[k]);
      if filled[k].pinned {
        var i :| 0 <= i < |nodes| && nodes[i].id == filled[k].id && nodes[i].x == a[k].x && nodes[i].y == a[k].y;
        var j :| 0 <= j < |nodes| && nodes[j].id == filled[k].id && nodes[j].x == b[k].x && nodes[j].y == b[k].y;
        SameIdSameNode(nodes, nodes[i], nodes[j]);
      }
    }
  }

  // ---------------------------------------------------------------- where they end

  /** The cards of `b` are those of `a`, all of them moved by the same whole grid cells. */
  ghost predicate GridShift(a: seq<Placement>, b: seq<Placement>, d: Point) {
    && OnGrid(d.x) && OnGrid(d.y) && |b| == |a|
    && forall k :: 0 <= k < |a| ==> b[k] == a[k].(x := a[k].x + d.x, y := a[k].y + d.y)
  }

  /** Every layout ends with its cards, each where it is meant to be, separated and snapped; if nothing is pinned and
    * the centre is to be kept, all of them are then moved by the whole grid cells that bring it nearest to the
    * board's.
    */
  lemma LayoutLands(nodes: seq<Node>, ps: seq<Placement>, preserve: bool, target: seq<Placement>)
    requires UniqueIds(nodes) && Fits(nodes, ps)
    requires var filled := WithFallbacks(nodes, ps); Meant(nodes, filled, Offset(nodes, filled, preserve), target)
    ensures var done, snapped := Arranged(nodes, ps, preserve), Snapped(Separated(target, 16.0).items);
      if preserve && PinnedOnly(nodes) == [] && target != [] then
        var from, to := Centroid(snapped), Centroid(Currents(nodes));
        GridShift(snapped, done, Point(Snap(to.x - from.x), Snap(to.y - from.y)))
      else done == snapped
  {
    var filled := WithFallbacks(nodes, ps);
    hide *;
    assert MIN_CLEARANCE == 16.0 by { SixteenApart(); }
    PreparedIsMeant(nodes, ps, preserve);
    MeantOnce(nodes, filled, Offset(nodes, filled, preserve), target, Prepared(nodes, ps, preserve));
    Stages(nodes, ps, preserve);
    RecentredBy(nodes, Snapped(Separated(target, 16.0).items), preserve);
  }

  lemma SixteenApart()
    ensures MIN_CLEARANCE == 16.0
  {
  }

  lemma RecentredBy(nodes: seq<Node>, ps: seq<Placement>, preserve: bool)
    ensures var done := Recentred(nodes, ps, preserve);
      if preserve && PinnedOnly(nodes) == [] && ps != [] then
        var from, to := Centroid(ps), Centroid(Currents(nodes));
        GridShift(ps, done, Point(Snap(to.x - from.x), Snap(to.y - from.y)))
      else done == ps
  {
    hide Centroid, Currents, PinnedOnly, Snap, OnGrid;
    var from, to := Centroid(ps), Centroid(Currents(nodes));
    SnapIsOnGrid(to.x - from.x);
    SnapIsOnGrid(to.y - from.y);
  }

  /** With something pinned: if the cards do not overlap where they are meant to be, each free one ends on the grid
    * point nearest to its place in the layout, moved by as much as brings the pinned ones home on average.
    */
  lemma ClearLayoutLands(nodes: seq<Node>, ps: seq<Placement>, target: seq<Placement>, k: nat)
    requires UniqueIds(nodes) && Fits(nodes, ps) && PinnedOnly(nodes) != []
    requires var filled := WithFallbacks(nodes, ps); Meant(nodes, filled, Offset(nodes, filled, true), target)
    requires OverlapPairs(target, 16.0) == {} && k < |target|
    ensures var filled, done := WithFallbacks(nodes, ps), Arranged(nodes, ps, true);
      var pinned := PinnedOnly(nodes);
      var home, placed := Centroid(Currents(pinned)), Centroid(Anchors(pinned, filled));
      && |done| == |filled|
      && (!filled[k].pinned ==>
           && done[k].x == Snap(filled[k].x + (home.x - placed.x))
           && done[k].y == Snap(filled[k].y + (home.y - placed.y)))
  {
    hide PinnedOnly, WithFallbacks, Arranged, OverlapPairs, Separated, Snap, Centroid, Anchors, Fits, UniqueIds, Currents;
    LayoutLands(nodes, ps, true, target);
    ClearIsLeftAlone(target, 16.0);
    assert MeantOne(nodes, WithFallbacks(nodes, ps)[k], Offset(nodes, WithFallbacks(nodes, ps), true), target[k]);
  }

  // ---------------------------------------------------------------- the proposal

  /** The node of this placement is known and free, and somewhere else. */
  ghost predicate WouldMove(nodes: seq<Node>, p: Placement) {
    FindNode(nodes, p.id).Some? && !FindNode(nodes, p.id).value.pinned &&
    !(FindNode(nodes, p.id).value.x == p.x && FindNode(nodes, p.id).value.y == p.y)
  }

  ghost predicate MovesNode(m: Move, n: Node, p: Placement) {
    m.id == n.id && m.fromX == n.x && m.fromY == n.y && m.w == n.w && m.h == n.h && m.x == p.x && m.y == p.y
  }

  ghost predicate MovesFrom(nodes: seq<Node>, ps: seq<Placement>, moves: seq<Move>, from: seq<nat>) {
    && |from| == |moves| && Increasing(from)
    && (forall k: nat :: k in from <==> k < |ps| && WouldMove(nodes, ps[k]))
    && forall i :: 0 <= i < |moves| ==>
         from[i] < |ps| && FindNode(nodes, ps[from[i]].id).Some? && MovesNode(moves[i], FindNode(nodes, ps[from[i]].id).value, ps[from[i]])
  }

  /** The proposal has one move for each placement whose node would move, in their order, from where the node is and
    * with its size.
    */
  lemma {:induction false} DiffIsInOrder(nodes: seq<Node>, ps: seq<Placement>) returns (from: seq<nat>)
    ensures MovesFrom(nodes, ps, DiffOf(nodes, ps), from)
  {
    hide *;
    if ps == [] {
      from := [];
      NothingMoves(nodes);
    } else {
      var front, p := ps[..|ps| - 1], ps[|ps| - 1];
      from := DiffIsInOrder(nodes, front);
      assert ps == front + [p];
      DiffSnoc(nodes, front, p);
      OneMoreMove(nodes, front, p, DiffOf(nodes, front), from);
      if WouldMove(nodes, p) { from := from + [|front|]; }
    }
  }

  lemma NothingMoves(nodes: seq<Node>)
    ensures MovesFrom(nodes, [], DiffOf(nodes, []), [])
  {
  }

  lemma DiffSnoc(nodes: seq<Node>, front: seq<Placement>, p: Placement)
    ensures DiffOf(nodes, front + [p]) ==
      if WouldMove(nodes, p) then DiffOf(nodes, front) + [MoveOf(FindNode(nodes, p.id).value, p)] else DiffOf(nodes, front)
  {
    assert (front + [p])[..|front|] == front;
    hide FindNode;
  }

  lemma OneMoreMove(nodes: seq<Node>, front: seq<Placement>, p: Placement, moves: seq<Move>, from: seq<nat>)
    requires MovesFrom(nodes, front, moves, from)
    ensures !WouldMove(nodes, p) ==> MovesFrom(nodes, front + [p], moves, from)
    ensures WouldMove(nodes, p) ==>
      MovesFrom(nodes, front + [p], moves + [MoveOf(FindNode(nodes, p.id).value, p)], from + [|front|])
  {
    MorePositions(from, |front|);
    var all := front + [p];
    assert all[|front|] == p && forall k: nat :: k < |front| ==> all[k] == front[k];
    if WouldMove(nodes, p) { assert MovesNode(MoveOf(FindNode(nodes, p.id).value, p), FindNode(nodes, p.id).value, p); }
    hide Increasing, FindNode, MovesNode;
  }
}
