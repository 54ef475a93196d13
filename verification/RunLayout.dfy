/** The post-processing every layout shares: fallbacks, alignment on the pins, separation, snapping and
  * re-centring, and the diff offered for acceptance. The algorithm itself is a parameter.
  */
module RunLayout {
  import opened Walks
  import opened LayoutGraph
  import opened Options
  import opened Overlap
  import opened Placements

  // ---------------------------------------------------------------- the stages, as functions

  predicate Describes(n: Node, p: Placement) {
    p.id == n.id && p.w == n.w && p.h == n.h && p.pinned == n.pinned
  }

  /** What every algorithm owes: at most one placement per node, with its size and pin. */
  ghost predicate Fits(nodes: seq<Node>, ps: seq<Placement>) {
    && NoDup(PlacedIds(ps))
    && forall k {:trigger ps[k]} :: 0 <= k < |ps| ==> Listed(nodes, ps[k])
  }

  ghost predicate Listed(nodes: seq<Node>, p: Placement) {
    exists i :: 0 <= i < |nodes| && Describes(nodes[i], p)
  }

  ghost predicate Covers(nodes: seq<Node>, ps: seq<Placement>) {
    forall i :: 0 <= i < |nodes| ==> nodes[i].id in PlacedIds(ps)
  }

  ghost predicate UniqueIds(nodes: seq<Node>) {
    NoDup(Ids(nodes))
  }

  /** Nodes the algorithm failed to place keep their current position. */
  function WithFallbacks(nodes: seq<Node>, ps: seq<Placement>): seq<Placement> {
    if nodes == [] then ps
    else
      var n := nodes[|nodes| - 1];
      var filled := WithFallbacks(nodes[..|nodes| - 1], ps);
      if n.id in PlacedIds(filled) then filled else filled + [Current(n)]
  }

  function PinnedOnly(nodes: seq<Node>): seq<Node> {
    if nodes == [] then []
    else PinnedOnly(nodes[..|nodes| - 1]) + if nodes[|nodes| - 1].pinned then [nodes[|nodes| - 1]] else []
  }

  /** Where the algorithm put the pinned nodes. */
  function Anchors(pinned: seq<Node>, ps: seq<Placement>): seq<Placement> {
    seq(|pinned|, i requires 0 <= i < |pinned| =>
      var found := Find(ps, pinned[i].id);
      if found.Some? then found.value else Current(pinned[i]))
  }

  /** The arrangement moved so that the pinned nodes' centroid falls where it was. */
  function Aligned(pinned: seq<Node>, ps: seq<Placement>, preserve: bool): (qs: seq<Placement>)
    ensures |qs| == |ps|
  {
    if preserve && |pinned| > 0 then
      var before := Centroid(Currents(pinned));
      var after := Centroid(Anchors(pinned, ps));
      Shifted(ps, before.x - after.x, before.y - after.y)
    else ps
  }

  function RestoredOne(pinned: seq<Node>, p: Placement): Placement {
    if pinned == [] then p
    else
      var q := RestoredOne(pinned[..|pinned| - 1], p);
      var n := pinned[|pinned| - 1];
      if n.id == p.id then q.(x := n.x, y := n.y) else q
  }

  /** Pinned nodes put back exactly where they were. */
  function Restored(pinned: seq<Node>, ps: seq<Placement>): (qs: seq<Placement>)
    ensures |qs| == |ps| && forall k :: 0 <= k < |ps| ==> qs[k] == RestoredOne(pinned, ps[k])
  {
    seq(|ps|, k requires 0 <= k < |ps| => RestoredOne(pinned, ps[k]))
  }

  function SnappedOne(p: Placement): Placement {
    if p.pinned then p else p.(x := Snap(p.x), y := Snap(p.y))
  }

  function Snapped(ps: seq<Placement>): (qs: seq<Placement>)
    ensures |qs| == |ps| && forall k :: 0 <= k < |ps| ==> qs[k] == SnappedOne(ps[k])
  {
    seq(|ps|, k requires 0 <= k < |ps| => SnappedOne(ps[k]))
  }

  /** With nothing pinned, the whole arrangement is moved by whole grid cells towards where the board was. */
  function Recentred(nodes: seq<Node>, ps: seq<Placement>, preserve: bool): (qs: seq<Placement>)
    ensures |qs| == |ps|
  {
    if preserve && |PinnedOnly(nodes)| == 0 && |ps| > 0 then
      var target, actual := Centroid(Currents(nodes)), Centroid(ps);
      Shifted(ps, Snap(target.x - actual.x), Snap(target.y - actual.y))
    else ps
  }

  /** What goes into the separation pass. */
  function Prepared(nodes: seq<Node>, ps: seq<Placement>, preserve: bool): seq<Placement> {
    var pinned := PinnedOnly(nodes);
    Restored(pinned, Aligned(pinned, WithFallbacks(nodes, ps), preserve))
  }

  /** The final placements, in the algorithm's order. */
  function Arranged(nodes: seq<Node>, ps: seq<Placement>, preserve: bool): seq<Placement> {
    Recentred(nodes, Snapped(Separated(Prepared(nodes, ps, preserve), MIN_CLEARANCE).items), preserve)
  }

  /** What the separation pass returns for a layout. */
  function Found(nodes: seq<Node>, ps: seq<Placement>, preserve: bool): nat {
    Separated(Prepared(nodes, ps, preserve), MIN_CLEARANCE).found
  }

  /** More cards than this are not counted again after snapping. */
  const RECOUNTED: nat := 512

  /** The overlaps a layout reports: counted again if the separation found none, otherwise what it returned. */
  ghost function Report(nodes: seq<Node>, ps: seq<Placement>, preserve: bool): nat {
    var found, done := Found(nodes, ps, preserve), Arranged(nodes, ps, preserve);
    if found == 0 && |done| <= RECOUNTED then |OverlapPairs(done, MIN_CLEARANCE)| else found
  }

  // ---------------------------------------------------------------- every stage keeps the cards

  ghost predicate SameShape(a: seq<Placement>, b: seq<Placement>) {
    && |b| == |a|
    && forall k :: 0 <= k < |a| ==> b[k].id == a[k].id && b[k].w == a[k].w && b[k].h == a[k].h && b[k].pinned == a[k].pinned
  }

  lemma {:induction false} RestoredKeeps(pinned: seq<Node>, p: Placement)
    ensures RestoredOne(pinned, p) == p.(x := RestoredOne(pinned, p).x, y := RestoredOne(pinned, p).y)
  {
    if pinned != [] { RestoredKeeps(pinned[..|pinned| - 1], p); }
  }

  lemma PreparedKeeps(nodes: seq<Node>, ps: seq<Placement>, preserve: bool)
    ensures SameShape(WithFallbacks(nodes, ps), Prepared(nodes, ps, preserve))
  {
    var pinned := PinnedOnly(nodes);
    var filled := WithFallbacks(nodes, ps);
    var aligned := Aligned(pinned, filled, preserve);
    hide WithFallbacks, PinnedOnly, Centroid, RestoredOne;
    forall k | 0 <= k < |filled|
      ensures RestoredOne(pinned, aligned[k]).id == filled[k].id
      ensures RestoredOne(pinned, aligned[k]).w == filled[k].w
      ensures RestoredOne(pinned, aligned[k]).h == filled[k].h
      ensures RestoredOne(pinned, aligned[k]).pinned == filled[k].pinned
    {
      RestoredKeeps(pinned, aligned[k]);
    }
  }

  lemma ArrangedKeeps(nodes: seq<Node>, ps: seq<Placement>, preserve: bool)
    ensures SameShape(WithFallbacks(nodes, ps), Arranged(nodes, ps, preserve))
  {
    var prepared := Prepared(nodes, ps, preserve);
    PreparedKeeps(nodes, ps, preserve);
    SeparationKeepsCards(prepared, MIN_CLEARANCE);
    hide WithFallbacks, Prepared, Separated, PinnedOnly, Centroid, Snap;
    var separated := Separated(prepared, MIN_CLEARANCE).items;
    assert forall k :: 0 <= k < |prepared| ==> SameCard(prepared[k], separated[k]);
  }

  lemma {:induction false} FallbacksFit(nodes: seq<Node>, all: seq<Node>, ps: seq<Placement>)
    requires Fits(all, ps) && forall n :: n in nodes ==> n in all
    ensures Fits(all, WithFallbacks(nodes, ps)) && Covers(nodes, WithFallbacks(nodes, ps))
    decreases |nodes|
  {
    hide *;
    if nodes == [] {
      NothingToFill(ps);
    } else {
      var front, n := nodes[..|nodes| - 1], nodes[|nodes| - 1];
      assert nodes == front + [n];
      FallbacksFit(front, all, ps);
      assert n in all;
      NextFallback(front, n, ps);
      if n.id in PlacedIds(WithFallbacks(front, ps)) {
        CoversNext(front, n, WithFallbacks(front, ps));
      } else {
        AddFits(all, WithFallbacks(front, ps), n);
        CoversMore(front, n, WithFallbacks(front, ps));
      }
    }
  }

  lemma NothingToFill(ps: seq<Placement>)
    ensures WithFallbacks([], ps) == ps && Covers([], ps)
  {
  }

  lemma NextFallback(front: seq<Node>, n: Node, ps: seq<Placement>)
    ensures var filled := WithFallbacks(front, ps);
      WithFallbacks(front + [n], ps) == if n.id in PlacedIds(filled) then filled else filled + [Current(n)]
  {
    assert (front + [n])[..|front|] == front;
  }

  lemma CoversNext(front: seq<Node>, n: Node, ps: seq<Placement>)
    requires Covers(front, ps) && n.id in PlacedIds(ps)
    ensures Covers(front + [n], ps)
  {
  }

  lemma CoversMore(front: seq<Node>, n: Node, ps: seq<Placement>)
    requires Covers(front, ps)
    ensures Covers(front + [n], ps + [Current(n)])
  {
    assert PlacedIds(ps + [Current(n)]) == PlacedIds(ps) + [n.id];
    assert (PlacedIds(ps) + [n.id])[|ps|] == n.id;
  }

  lemma AddFits(all: seq<Node>, ps: seq<Placement>, n: Node)
    requires Fits(all, ps) && n in all && n.id !in PlacedIds(ps)
    ensures Fits(all, ps + [Current(n)])
    ensures forall id :: id in PlacedIds(ps) + [n.id] <==> id in PlacedIds(ps + [Current(n)])
  {
    assert PlacedIds(ps + [Current(n)]) == PlacedIds(ps) + [n.id];
    var i :| 0 <= i < |all| && all[i] == n;
    assert Describes(all[i], Current(n));
  }

  lemma {:induction false} NoFallbackNeeded(nodes: seq<Node>, ps: seq<Placement>)
    requires Covers(nodes, ps)
    ensures WithFallbacks(nodes, ps) == ps
    decreases |nodes|
  {
    if nodes != [] {
      assert nodes[|nodes| - 1].id in PlacedIds(ps);
      NoFallbackNeeded(nodes[..|nodes| - 1], ps);
    }
  }

  // ---------------------------------------------------------------- pins stay, the rest is on the grid

  /** Every placement of a pinned node is at that node's own position. */
  ghost predicate PinsHome(nodes: seq<Node>, ps: seq<Placement>) {
    forall k, i :: 0 <= k < |ps| && 0 <= i < |nodes| && nodes[i].pinned && ps[k].id == nodes[i].id ==>
      ps[k].x == nodes[i].x && ps[k].y == nodes[i].y
  }

  lemma {:induction false} PinnedMembers(nodes: seq<Node>)
    ensures forall n :: n in PinnedOnly(nodes) <==> n in nodes && n.pinned
  {
    if nodes != [] {
      PinnedMembers(nodes[..|nodes| - 1]);
      assert nodes == nodes[..|nodes| - 1] + [nodes[|nodes| - 1]];
    }
  }

  lemma {:induction false} RestoredHome(pinned: seq<Node>, p: Placement, n: Node)
    requires n in pinned && n.id == p.id
    requires forall m :: m in pinned && m.id == n.id ==> m == n
    ensures RestoredOne(pinned, p).x == n.x && RestoredOne(pinned, p).y == n.y
    decreases |pinned|
  {
    var front, last := pinned[..|pinned| - 1], pinned[|pinned| - 1];
    assert last in pinned;
    if last.id != n.id {
      assert pinned == front + [last];
      RestoredHome(front, p, n);
    }
  }

  lemma SameIdSameNode(nodes: seq<Node>, m: Node, n: Node)
    requires UniqueIds(nodes) && m in nodes && n in nodes && m.id == n.id
    ensures m == n
  {
    var i :| 0 <= i < |nodes| && nodes[i] == m;
    var j :| 0 <= j < |nodes| && nodes[j] == n;
    assert Ids(nodes)[i] == Ids(nodes)[j];
  }

  lemma PreparedHome(nodes: seq<Node>, ps: seq<Placement>, preserve: bool)
    requires UniqueIds(nodes)
    ensures PinsHome(nodes, Prepared(nodes, ps, preserve))
  {
    var pinned := PinnedOnly(nodes);
    var aligned := Aligned(pinned, WithFallbacks(nodes, ps), preserve);
    PinnedMembers(nodes);
    hide PinnedOnly, WithFallbacks, Aligned, RestoredOne;
    forall k, i | 0 <= k < |aligned| && 0 <= i < |nodes| && nodes[i].pinned && RestoredOne(pinned, aligned[k]).id == nodes[i].id
      ensures RestoredOne(pinned, aligned[k]).x == nodes[i].x && RestoredOne(pinned, aligned[k]).y == nodes[i].y
    {
      RestoredKeeps(pinned, aligned[k]);
      forall m | m in pinned && m.id == nodes[i].id
        ensures m == nodes[i]
      {
        SameIdSameNode(nodes, m, nodes[i]);
      }
      RestoredHome(pinned, aligned[k], nodes[i]);
    }
  }

  ghost predicate PinsAgree(nodes: seq<Node>, ps: seq<Placement>) {
    forall k, i :: 0 <= k < |ps| && 0 <= i < |nodes| && ps[k].id == nodes[i].id ==> ps[k].pinned == nodes[i].pinned
  }

  lemma FitsPinsAgree(nodes: seq<Node>, ps: seq<Placement>)
    requires UniqueIds(nodes) && Fits(nodes, ps)
    ensures PinsAgree(nodes, ps)
  {
    forall k, i | 0 <= k < |ps| && 0 <= i < |nodes| && ps[k].id == nodes[i].id
      ensures ps[k].pinned == nodes[i].pinned
    {
      var j :| 0 <= j < |nodes| && Describes(nodes[j], ps[k]);
      SameIdSameNode(nodes, nodes[i], nodes[j]);
    }
  }

  /** Pinned nodes end exactly where they started. */
  lemma PinnedStayPut(nodes: seq<Node>, ps: seq<Placement>, preserve: bool)
    requires UniqueIds(nodes) && Fits(nodes, ps)
    ensures PinsHome(nodes, Arranged(nodes, ps, preserve))
  {
    var filled, prepared := WithFallbacks(nodes, ps), Prepared(nodes, ps, preserve);
    FallbacksFit(nodes, nodes, ps);
    FitsPinsAgree(nodes, filled);
    PreparedKeeps(nodes, ps, preserve);
    PreparedHome(nodes, ps, preserve);
    SeparationKeepsCards(prepared, MIN_CLEARANCE);
    PinnedMembers(nodes);
    var separated := Separated(prepared, MIN_CLEARANCE).items;
    FinishHome(nodes, filled, prepared, separated, preserve);
  }

  lemma FinishHome(nodes: seq<Node>, filled: seq<Placement>, prepared: seq<Placement>, separated: seq<Placement>, preserve: bool)
    requires PinsAgree(nodes, filled) && SameShape(filled, prepared) && PinsHome(nodes, prepared)
    requires SameCards(prepared, separated)
    requires forall n :: n in PinnedOnly(nodes) <==> n in nodes && n.pinned
    ensures PinsHome(nodes, Recentred(nodes, Snapped(separated), preserve))
  {
    hide PinnedOnly, Centroid, Snap;
    var done := Recentred(nodes, Snapped(separated), preserve);
    forall k, i | 0 <= k < |done| && 0 <= i < |nodes| && nodes[i].pinned && done[k].id == nodes[i].id
      ensures done[k].x == nodes[i].x && done[k].y == nodes[i].y
    {
      assert nodes[i] in PinnedOnly(nodes);
      assert SameCard(prepared[k], separated[k]);
      assert filled[k].pinned;
    }
  }

  ghost predicate PointOnGrid(p: Placement) {
    OnGrid(p.x) && OnGrid(p.y)
  }

  /** Everything that is not pinned ends on the 8-unit grid. */
  lemma OthersOnGrid(nodes: seq<Node>, ps: seq<Placement>, preserve: bool)
    ensures forall k :: 0 <= k < |Arranged(nodes, ps, preserve)| && !Arranged(nodes, ps, preserve)[k].pinned ==>
      PointOnGrid(Arranged(nodes, ps, preserve)[k])
  {
    var snapped := Snapped(Separated(Prepared(nodes, ps, preserve), MIN_CLEARANCE).items);
    hide Prepared, Separated, PinnedOnly, Centroid, Snap;
    var done := Recentred(nodes, snapped, preserve);
    forall k | 0 <= k < |done| && !done[k].pinned
      ensures PointOnGrid(done[k])
    {
      var p := Separated(Prepared(nodes, ps, preserve), MIN_CLEARANCE).items[k];
      SnapIsOnGrid(p.x);
      SnapIsOnGrid(p.y);
      var target, actual := Centroid(Currents(nodes)), Centroid(snapped);
      SnapIsOnGrid(target.x - actual.x);
      SnapIsOnGrid(target.y - actual.y);
      hide OnGrid;
      GridAdds(Snap(p.x), Snap(target.x - actual.x));
      GridAdds(Snap(p.y), Snap(target.y - actual.y));
    }
  }

  // ---------------------------------------------------------------- running again moves nothing

  function Moved(n: Node, ps: seq<Placement>): Node {
    match Find(ps, n.id)
    case None => n
    case Some(p) => n.(x := p.x, y := p.y)
  }

  /** The board with the proposed positions written to it. */
  function Applied(nodes: seq<Node>, ps: seq<Placement>): (after: seq<Node>)
    ensures |after| == |nodes| && forall i :: 0 <= i < |nodes| ==> after[i] == Moved(nodes[i], ps)
  {
    seq(|nodes|, i requires 0 <= i < |nodes| => Moved(nodes[i], ps))
  }

  /** The boards differ at most in where their unpinned nodes are. */
  ghost predicate SameButPositions(g: Graph, h: Graph) {
    && g.edges == h.edges
    && |g.nodes| == |h.nodes|
    && forall i :: 0 <= i < |g.nodes| ==>
         && h.nodes[i] == g.nodes[i].(x := h.nodes[i].x, y := h.nodes[i].y)
         && (g.nodes[i].pinned ==> h.nodes[i] == g.nodes[i])
  }

  /** The algorithm does not read where the unpinned nodes currently are. */
  ghost predicate IgnoresPositions(place: Graph -> seq<Placement>) {
    forall g, h :: SameButPositions(g, h) ==> place(g) == place(h)
  }

  lemma FindFits(nodes: seq<Node>, ps: seq<Placement>, i: nat)
    requires UniqueIds(nodes) && Fits(nodes, ps) && i < |nodes| && nodes[i].id in PlacedIds(ps)
    ensures Find(ps, nodes[i].id).Some?
    ensures var p := Find(ps, nodes[i].id).value; p in ps && Describes(nodes[i], p)
  {
    var k :| 0 <= k < |ps| && PlacedIds(ps)[k] == nodes[i].id;
    FindIsThere(ps, k);
    var j :| 0 <= j < |nodes| && Describes(nodes[j], ps[k]);
    SameIdSameNode(nodes, nodes[i], nodes[j]);
  }

  lemma ShapeFits(nodes: seq<Node>, a: seq<Placement>, b: seq<Placement>)
    requires Fits(nodes, a) && Covers(nodes, a) && SameShape(a, b)
    ensures Fits(nodes, b) && Covers(nodes, b)
  {
    assert PlacedIds(b) == PlacedIds(a);
    forall k {:trigger b[k]} | 0 <= k < |b|
      ensures Listed(nodes, b[k])
    {
      assert Listed(nodes, a[k]);
      var i :| 0 <= i < |nodes| && Describes(nodes[i], a[k]);
      assert Describes(nodes[i], b[k]);
    }
  }

  /** After applying, each node sits exactly where its placement says: the two lists hold the same cards. */
  lemma AppliedIsPlacement(nodes: seq<Node>, ps: seq<Placement>, i: nat)
    requires UniqueIds(nodes) && Fits(nodes, ps) && Covers(nodes, ps) && i < |nodes|
    ensures Current(Applied(nodes, ps)[i]) in ps
  {
    FindFits(nodes, ps, i);
  }

  lemma PlacementIsApplied(nodes: seq<Node>, ps: seq<Placement>, k: nat)
    requires UniqueIds(nodes) && Fits(nodes, ps) && k < |ps|
    ensures ps[k] in Currents(Applied(nodes, ps))
  {
    var i :| 0 <= i < |nodes| && Describes(nodes[i], ps[k]);
    FindIsThere(ps, k);
    assert Currents(Applied(nodes, ps))[i] == ps[k];
  }

  lemma AppliedCentroid(nodes: seq<Node>, ps: seq<Placement>)
    requires UniqueIds(nodes) && Fits(nodes, ps) && Covers(nodes, ps)
    ensures Centroid(Currents(Applied(nodes, ps))) == Centroid(ps)
  {
    hide SumCx, SumCy, Fits, Covers, UniqueIds, Currents, Applied;
    AppliedOnce(nodes, ps);
    AppliedMembers(nodes, ps);
    SumsAgree(Currents(Applied(nodes, ps)), ps);
  }

  /** Neither the finished cards nor the placements repeat. */
  lemma AppliedOnce(nodes: seq<Node>, ps: seq<Placement>)
    requires UniqueIds(nodes) && Fits(nodes, ps)
    ensures NoDup(Currents(Applied(nodes, ps))) && NoDup(ps)
  {
    var cards := Currents(Applied(nodes, ps));
    forall i, j | 0 <= i < j < |cards|
      ensures cards[i] != cards[j]
    {
      assert Ids(nodes)[i] != Ids(nodes)[j];
    }
    forall i, j | 0 <= i < j < |ps|
      ensures ps[i] != ps[j]
    {
      assert PlacedIds(ps)[i] != PlacedIds(ps)[j];
    }
  }

  lemma AppliedMembers(nodes: seq<Node>, ps: seq<Placement>)
    requires UniqueIds(nodes) && Fits(nodes, ps) && Covers(nodes, ps)
    ensures forall p :: p in Currents(Applied(nodes, ps)) <==> p in ps
  {
    hide Fits, Covers, UniqueIds;
    var cards := Currents(Applied(nodes, ps));
    forall p
      ensures p in cards <==> p in ps
    {
      if p in cards {
        var i :| 0 <= i < |cards| && cards[i] == p;
        AppliedIsPlacement(nodes, ps, i);
      }
      if p in ps {
        var k :| 0 <= k < |ps| && ps[k] == p;
        PlacementIsApplied(nodes, ps, k);
      }
    }
  }

  lemma AppliedKeepsPinned(nodes: seq<Node>, ps: seq<Placement>)
    requires UniqueIds(nodes) && Fits(nodes, ps) && Covers(nodes, ps) && PinsHome(nodes, ps)
    ensures forall i :: 0 <= i < |nodes| && nodes[i].pinned ==> Applied(nodes, ps)[i] == nodes[i]
  {
    forall i | 0 <= i < |nodes| && nodes[i].pinned
      ensures Moved(nodes[i], ps) == nodes[i]
    {
      FindFits(nodes, ps, i);
      var p := Find(ps, nodes[i].id).value;
      var k :| 0 <= k < |ps| && ps[k] == p;
    }
  }

  lemma {:induction false} SamePinned(a: seq<Node>, b: seq<Node>)
    requires |a| == |b|
    requires forall i :: 0 <= i < |a| ==> a[i].pinned == b[i].pinned && (a[i].pinned ==> b[i] == a[i])
    ensures PinnedOnly(a) == PinnedOnly(b)
    decreases |a|
  {
    if a != [] { SamePinned(a[..|a| - 1], b[..|b| - 1]); }
  }

  /** Re-centring an arrangement that is already a re-centring moves it by the same whole cells. */
  lemma RecentredTwice(nodes: seq<Node>, after: seq<Node>, ps: seq<Placement>, preserve: bool)
    requires PinnedOnly(after) == PinnedOnly(nodes)
    requires Centroid(Currents(after)) == Centroid(Recentred(nodes, ps, preserve))
    ensures Recentred(after, ps, preserve) == Recentred(nodes, ps, preserve)
  {
    hide Centroid, PinnedOnly, Snap, Shifted, Currents;
    if preserve && |PinnedOnly(nodes)| == 0 && |ps| > 0 {
      var target, actual := Centroid(Currents(nodes)), Centroid(ps);
      ShiftIsSettled(ps, target.x - actual.x, target.y - actual.y);
    }
  }

  /** Moved by whole grid cells, the cards are as far from where they were, in grid cells, as they were moved. */
  lemma ShiftIsSettled(ps: seq<Placement>, x: real, y: real)
    requires |ps| > 0
    ensures var moved := Centroid(Shifted(ps, Snap(x), Snap(y)));
      Snap(moved.x - Centroid(ps).x) == Snap(x) && Snap(moved.y - Centroid(ps).y) == Snap(y)
  {
    hide Centroid, Snap, Shifted;
    SnapIsOnGrid(x);
    SnapIsOnGrid(y);
    GridIsFixed(Snap(x));
    GridIsFixed(Snap(y));
    ShiftedCentroid(ps, Snap(x), Snap(y));
  }

  lemma ShiftedCentroid(ps: seq<Placement>, dx: real, dy: real)
    requires |ps| > 0
    ensures Centroid(Shifted(ps, dx, dy)) == Point(Centroid(ps).x + dx, Centroid(ps).y + dy)
  {
    var n := |ps|;
    ShiftedSums(ps, dx, dy);
    MeanShifts(SumCx(ps), n, dx);
    MeanShifts(SumCy(ps), n, dy);
    hide SumCx, SumCy;
    var qs := Shifted(ps, dx, dy);
    assert Centroid(qs) == Point(SumCx(qs) / n as real, SumCy(qs) / n as real);
  }

  lemma MeanShifts(sum: real, n: nat, d: real)
    requires n > 0
    ensures (sum + n as real * d) / n as real == sum / n as real + d
  {
    var m := sum / n as real;
    assert sum == m * n as real;
    assert sum + n as real * d == (m + d) * n as real;
  }

  /** Snapping moves a value by half a cell at most. */
  lemma SnapIsNear(v: real)
    ensures -4.0 <= Snap(v) - v <= 4.0
  {
    var k := (v / GRID + 0.5).Floor as real;
    assert k <= v / GRID + 0.5 < k + 1.0;
    assert v / GRID * GRID == v;
  }

  lemma {:induction false} FindShifted(ps: seq<Placement>, id: string, dx: real, dy: real)
    ensures Find(Shifted(ps, dx, dy), id) ==
      match Find(ps, id)
      case None => None
      case Some(p) => Some(p.(x := p.x + dx, y := p.y + dy))
  {
    if ps != [] {
      ShiftedFront(ps, dx, dy);
      FindShifted(ps[..|ps| - 1], id, dx, dy);
    }
  }

  lemma AnchorsShifted(pinned: seq<Node>, ps: seq<Placement>, dx: real, dy: real)
    requires forall i :: 0 <= i < |pinned| ==> Find(ps, pinned[i].id).Some?
    ensures Anchors(pinned, Shifted(ps, dx, dy)) == Shifted(Anchors(pinned, ps), dx, dy)
  {
    forall i | 0 <= i < |pinned|
      ensures Anchors(pinned, Shifted(ps, dx, dy))[i] == Shifted(Anchors(pinned, ps), dx, dy)[i]
    {
      FindShifted(ps, pinned[i].id, dx, dy);
    }
  }

  lemma PinsAreFound(nodes: seq<Node>, ps: seq<Placement>, i: nat)
    requires UniqueIds(nodes) && Fits(nodes, ps) && i < |PinnedOnly(nodes)|
    ensures Find(WithFallbacks(nodes, ps), PinnedOnly(nodes)[i].id).Some?
  {
    FallbacksFit(nodes, nodes, ps);
    PinnedMembers(nodes);
    hide Fits, UniqueIds, WithFallbacks;
    assert PinnedOnly(nodes)[i] in PinnedOnly(nodes);
    hide PinnedOnly;
    var j :| 0 <= j < |nodes| && nodes[j] == PinnedOnly(nodes)[i];
    FindFits(nodes, WithFallbacks(nodes, ps), j);
  }

  lemma ShiftedTo(ps: seq<Placement>, to: Point)
    requires |ps| > 0
    ensures Centroid(Shifted(ps, to.x - Centroid(ps).x, to.y - Centroid(ps).y)) == to
  {
    ShiftedCentroid(ps, to.x - Centroid(ps).x, to.y - Centroid(ps).y);
    hide Centroid, Shifted;
  }

  /** With something pinned, the arrangement is moved so that the pinned nodes' centroid falls where it is on the
    * board.
    */
  lemma AlignedOnPins(nodes: seq<Node>, ps: seq<Placement>)
    requires UniqueIds(nodes) && Fits(nodes, ps) && PinnedOnly(nodes) != []
    ensures var pinned := PinnedOnly(nodes);
      Centroid(Anchors(pinned, Aligned(pinned, WithFallbacks(nodes, ps), true))) == Centroid(Currents(pinned))
  {
    hide PinnedOnly, WithFallbacks, UniqueIds, Fits, Find, Centroid, Shifted, Currents;
    var pinned, filled := PinnedOnly(nodes), WithFallbacks(nodes, ps);
    forall i | 0 <= i < |pinned|
      ensures Find(filled, pinned[i].id).Some?
    {
      PinsAreFound(nodes, ps, i);
    }
    var to, at := Centroid(Currents(pinned)), Centroid(Anchors(pinned, filled));
    AnchorsShifted(pinned, filled, to.x - at.x, to.y - at.y);
    assert |Anchors(pinned, filled)| > 0;
    hide Anchors;
    ShiftedTo(Anchors(pinned, filled), to);
  }

  lemma SnappedNear(ps: seq<Placement>, to: Point)
    requires |ps| > 0
    ensures var c := Centroid(Shifted(ps, Snap(to.x - Centroid(ps).x), Snap(to.y - Centroid(ps).y)));
      -4.0 <= c.x - to.x <= 4.0 && -4.0 <= c.y - to.y <= 4.0
  {
    var at := Centroid(ps);
    ShiftedCentroid(ps, Snap(to.x - at.x), Snap(to.y - at.y));
    SnapIsNear(to.x - at.x);
    SnapIsNear(to.y - at.y);
    hide Centroid, Snap, Shifted;
  }

  /** With nothing pinned, the finished arrangement is centred where the board was, to within half a grid cell. */
  lemma CentroidIsKept(nodes: seq<Node>, ps: seq<Placement>)
    requires PinnedOnly(nodes) == [] && Arranged(nodes, ps, true) != []
    ensures var before, after := Centroid(Currents(nodes)), Centroid(Arranged(nodes, ps, true));
      -4.0 <= after.x - before.x <= 4.0 && -4.0 <= after.y - before.y <= 4.0
  {
    hide Centroid, Snap, Snapped, Separated, Prepared, Shifted, Currents, PinnedOnly;
    var snapped := Snapped(Separated(Prepared(nodes, ps, true), MIN_CLEARANCE).items);
    SnappedNear(snapped, Centroid(Currents(nodes)));
  }

  /** With the same placements from the algorithm and the same pins, the second run lands on the first. */
  lemma ArrangedAgain(nodes: seq<Node>, after: seq<Node>, ps: seq<Placement>, preserve: bool)
    requires Covers(nodes, ps) && Covers(after, ps)
    requires PinnedOnly(after) == PinnedOnly(nodes)
    requires Centroid(Currents(after)) == Centroid(Arranged(nodes, ps, preserve))
    ensures Arranged(after, ps, preserve) == Arranged(nodes, ps, preserve)
  {
    NoFallbackNeeded(nodes, ps);
    NoFallbackNeeded(after, ps);
    hide PinnedOnly, Covers, Centroid, WithFallbacks;
    assert Prepared(after, ps, preserve) == Prepared(nodes, ps, preserve);
    var snapped := Snapped(Separated(Prepared(nodes, ps, preserve), MIN_CLEARANCE).items);
    RecentredTwice(nodes, after, snapped, preserve);
  }

  /** What writing the first result to the board leaves in place for the second run. */
  lemma AfterFirstRun(nodes: seq<Node>, ps: seq<Placement>, preserve: bool)
    requires UniqueIds(nodes) && Fits(nodes, ps) && Covers(nodes, ps)
    ensures var done := Arranged(nodes, ps, preserve);
      && Fits(nodes, done) && Covers(nodes, done)
      && (forall i :: 0 <= i < |nodes| && nodes[i].pinned ==> Applied(nodes, done)[i] == nodes[i])
      && Centroid(Currents(Applied(nodes, done))) == Centroid(done)
  {
    var done := Arranged(nodes, ps, preserve);
    NoFallbackNeeded(nodes, ps);
    ArrangedKeeps(nodes, ps, preserve);
    PinnedStayPut(nodes, ps, preserve);
    hide Arranged, Centroid, WithFallbacks;
    ShapeFits(nodes, ps, done);
    hide SameShape, Fits, Covers;
    AppliedKeepsPinned(nodes, done);
    AppliedCentroid(nodes, done);
  }

  lemma AppliedTwice(nodes: seq<Node>, ps: seq<Placement>)
    ensures Applied(Applied(nodes, ps), ps) == Applied(nodes, ps)
  {
  }

  /** An algorithm that places every node without reading unpinned positions leaves its own result alone,
    * with or without pins, with or without centroid preservation.
    */
  lemma LayoutIsIdempotent(g: Graph, place: Graph -> seq<Placement>, preserve: bool)
    requires UniqueIds(g.nodes) && IgnoresPositions(place)
    requires Fits(g.nodes, place(g)) && Covers(g.nodes, place(g))
    ensures var done := Arranged(g.nodes, place(g), preserve);
      var again := g.(nodes := Applied(g.nodes, done));
      && Arranged(again.nodes, place(again), preserve) == done
      && Applied(again.nodes, done) == again.nodes
  {
    hide Arranged, PinnedOnly, Centroid, Fits;
    var ps := place(g);
    var done := Arranged(g.nodes, ps, preserve);
    AfterFirstRun(g.nodes, ps, preserve);
    AppliedTwice(g.nodes, done);
    var after := Applied(g.nodes, done);
    assert SameButPositions(g, g.(nodes := after));
    SamePinned(g.nodes, after);
    assert Covers(after, ps);
    ArrangedAgain(g.nodes, after, ps, preserve);
  }

  // ---------------------------------------------------------------- the diff

  datatype Move = Move(id: Id, fromX: real, fromY: real, x: real, y: real, w: real, h: real)

  predicate Moves(n: Node, p: Placement) {
    !n.pinned && !(n.x == p.x && n.y == p.y)
  }

  function MoveOf(n: Node, p: Placement): Move {
    Move(n.id, n.x, n.y, p.x, p.y, n.w, n.h)
  }

  function FindNode(nodes: seq<Node>, id: Id): Option<Node> {
    if nodes == [] then None
    else if nodes[|nodes| - 1].id == id then Some(nodes[|nodes| - 1])
    else FindNode(nodes[..|nodes| - 1], id)
  }

  function DiffOf(nodes: seq<Node>, ps: seq<Placement>): seq<Move> {
    if ps == [] then []
    else
      var p := ps[|ps| - 1];
      DiffOf(nodes, ps[..|ps| - 1]) +
        match FindNode(nodes, p.id)
        case None => []
        case Some(n) => if Moves(n, p) then [MoveOf(n, p)] else []
  }

  /** Accepting a diff: each move writes its target position. */
  function Accepted(n: Node, moves: seq<Move>): Node {
    if moves == [] then n
    else
      var m := moves[|moves| - 1];
      if m.id == n.id then n.(x := m.x, y := m.y) else Accepted(n, moves[..|moves| - 1])
  }

  /** Undoing it: each move writes where the node came from. */
  function Undone(n: Node, moves: seq<Move>): Node {
    if moves == [] then n
    else
      var m := moves[|moves| - 1];
      if m.id == n.id then n.(x := m.fromX, y := m.fromY) else Undone(n, moves[..|moves| - 1])
  }

  lemma {:induction false} FindNodeIsThere(nodes: seq<Node>, i: nat)
    requires UniqueIds(nodes) && i < |nodes|
    ensures FindNode(nodes, nodes[i].id) == Some(nodes[i])
    decreases |nodes|
  {
    var n := |nodes|;
    assert Ids(nodes)[i] == nodes[i].id && Ids(nodes)[n - 1] == nodes[n - 1].id;
    if i < n - 1 {
      assert Ids(nodes[..n - 1]) == Ids(nodes)[..n - 1];
      FindNodeIsThere(nodes[..n - 1], i);
    }
  }

  lemma {:induction false} Untouched(n: Node, moves: seq<Move>)
    requires forall m :: m in moves ==> m.id != n.id
    ensures Accepted(n, moves) == n && Undone(n, moves) == n
  {
    if moves != [] { Untouched(n, moves[..|moves| - 1]); }
  }

  lemma {:induction false} FindNodeHasId(nodes: seq<Node>, id: Id)
    ensures FindNode(nodes, id).Some? ==> FindNode(nodes, id).value.id == id
  {
    if nodes != [] { FindNodeHasId(nodes[..|nodes| - 1], id); }
  }

  lemma {:induction false} DiffIds(nodes: seq<Node>, ps: seq<Placement>)
    ensures forall m :: m in DiffOf(nodes, ps) ==> m.id in PlacedIds(ps)
  {
    if ps != [] {
      var front, p := ps[..|ps| - 1], ps[|ps| - 1];
      DiffIds(nodes, front);
      FindNodeHasId(nodes, p.id);
      assert PlacedIds(ps) == PlacedIds(front) + [p.id];
    }
  }

  function Followed(n: Node, ps: seq<Placement>): Node {
    if Find(ps, n.id).Some? && Moves(n, Find(ps, n.id).value)
    then n.(x := Find(ps, n.id).value.x, y := Find(ps, n.id).value.y)
    else n
  }

  /** One node's view of the diff: accepting it follows the placement, undoing it goes back. */
  lemma {:induction false} DiffMovesNode(nodes: seq<Node>, ps: seq<Placement>, n: Node)
    requires FindNode(nodes, n.id) == Some(n) && NoDup(PlacedIds(ps))
    ensures Accepted(n, DiffOf(nodes, ps)) == Followed(n, ps)
    ensures Undone(Followed(n, ps), DiffOf(nodes, ps)) == n
    decreases |ps|
  {
    if ps != [] {
      var front, p := ps[..|ps| - 1], ps[|ps| - 1];
      assert PlacedIds(front) == PlacedIds(ps)[..|ps| - 1];
      FindNodeHasId(nodes, p.id);
      if p.id != n.id {
        DiffMovesNode(nodes, front, n);
      } else {
        assert p.id !in PlacedIds(front);
        DiffIds(nodes, front);
        Untouched(n, DiffOf(nodes, front));
      }
      DiffMovesLast(nodes, ps, n);
    }
  }

  lemma DiffMovesLast(nodes: seq<Node>, ps: seq<Placement>, n: Node)
    requires FindNode(nodes, n.id) == Some(n) && ps != []
    requires FindNode(nodes, ps[|ps| - 1].id).Some? ==> FindNode(nodes, ps[|ps| - 1].id).value.id == ps[|ps| - 1].id
    requires var front, p := ps[..|ps| - 1], ps[|ps| - 1];
      if p.id == n.id then Accepted(n, DiffOf(nodes, front)) == n && Undone(n, DiffOf(nodes, front)) == n
      else Accepted(n, DiffOf(nodes, front)) == Followed(n, front) && Undone(Followed(n, front), DiffOf(nodes, front)) == n
    ensures Accepted(n, DiffOf(nodes, ps)) == Followed(n, ps)
    ensures Undone(Followed(n, ps), DiffOf(nodes, ps)) == n
  {
    hide FindNode;
    var front, p := ps[..|ps| - 1], ps[|ps| - 1];
    var d := DiffOf(nodes, front);
    match FindNode(nodes, p.id)
    case None =>
      assert DiffOf(nodes, ps) == d;
    case Some(m) =>
      if Moves(m, p) {
        assert DiffOf(nodes, ps) == d + [MoveOf(m, p)];
        assert (d + [MoveOf(m, p)])[..|d|] == d;
      } else {
        assert DiffOf(nodes, ps) == d;
      }
  }

  /** Accepting the diff yields exactly the positions, and undoing it gives the board back. */
  lemma DiffIsExact(nodes: seq<Node>, ps: seq<Placement>, i: nat)
    requires UniqueIds(nodes) && Fits(nodes, ps) && PinsHome(nodes, ps) && i < |nodes|
    ensures Accepted(nodes[i], DiffOf(nodes, ps)) == Moved(nodes[i], ps)
    ensures Undone(Moved(nodes[i], ps), DiffOf(nodes, ps)) == nodes[i]
  {
    var n := nodes[i];
    FindNodeIsThere(nodes, i);
    DiffMovesNode(nodes, ps, n);
    if Find(ps, n.id).Some? {
      FindSome(ps, n.id);
      FindFits(nodes, ps, i);
      var k :| 0 <= k < |ps| && ps[k] == Find(ps, n.id).value;
    }
  }

  lemma {:induction false} FindSome(ps: seq<Placement>, id: string)
    ensures Find(ps, id).Some? <==> id in PlacedIds(ps)
  {
    if ps != [] {
      FindSome(ps[..|ps| - 1], id);
      assert PlacedIds(ps) == PlacedIds(ps[..|ps| - 1]) + [ps[|ps| - 1].id];
    }
  }

  /** Each listed move takes a node that is not pinned from where it is to somewhere else, and no node is listed
    * twice.
    */
  lemma {:induction false} DiffIsMinimal(nodes: seq<Node>, ps: seq<Placement>)
    ensures forall m :: m in DiffOf(nodes, ps) ==>
      && FindNode(nodes, m.id).Some? && !FindNode(nodes, m.id).value.pinned
      && FindNode(nodes, m.id).value.id == m.id
      && m.fromX == FindNode(nodes, m.id).value.x && m.fromY == FindNode(nodes, m.id).value.y
      && !(m.x == m.fromX && m.y == m.fromY)
    ensures NoDup(PlacedIds(ps)) ==>
      forall i, j :: 0 <= i < j < |DiffOf(nodes, ps)| ==> DiffOf(nodes, ps)[i].id != DiffOf(nodes, ps)[j].id
  {
    if ps != [] {
      var front, p := ps[..|ps| - 1], ps[|ps| - 1];
      DiffIsMinimal(nodes, front);
      FindNodeHasId(nodes, p.id);
      DiffIds(nodes, front);
      assert PlacedIds(ps) == PlacedIds(front) + [p.id];
      if NoDup(PlacedIds(ps)) {
        assert PlacedIds(front) == PlacedIds(ps)[..|front|];
        assert p.id !in PlacedIds(front);
        assert forall i :: 0 <= i < |DiffOf(nodes, front)| ==> DiffOf(nodes, front)[i] in DiffOf(nodes, front);
      }
    }
  }

  // ---------------------------------------------------------------- runLayout

  datatype Box = Box(x: real, y: real, w: real, h: real)

  datatype Stats = Stats(moved: nat, still: nat, pinned: nat, bounds: Box, overlaps: nat)

  predicate Inside(p: Placement, b: Box) {
    b.x <= p.x && p.x + p.w <= b.x + b.w && b.y <= p.y && p.y + p.h <= b.y + b.h
  }

  /** The smallest box around the cards: none sticks out, and each side is touched. */
  ghost predicate Bounds(ps: seq<Placement>, b: Box) {
    if ps == [] then b == Box(0.0, 0.0, 0.0, 0.0)
    else
      && (forall p :: p in ps ==> Inside(p, b))
      && (exists p :: p in ps && p.x == b.x)
      && (exists p :: p in ps && p.y == b.y)
      && (exists p :: p in ps && p.x + p.w == b.x + b.w)
      && (exists p :: p in ps && p.y + p.h == b.y + b.h)
  }

  function Widened(b: Box, p: Placement): Box {
    var x, y := Smaller(b.x, p.x), Smaller(b.y, p.y);
    Box(x, y, Larger(b.x + b.w, p.x + p.w) - x, Larger(b.y + b.h, p.y + p.h) - y)
  }

  function Smaller(a: real, b: real): real {
    if b < a then b else a
  }

  lemma NoCards()
    ensures Bounds([], Box(0.0, 0.0, 0.0, 0.0))
  {
  }

  lemma OneCard(p: Placement)
    ensures Bounds([p], Box(p.x, p.y, p.w, p.h))
  {
    assert p in [p];
  }

  lemma OneMoreCard(ps: seq<Placement>, p: Placement, b: Box)
    requires ps != [] && Bounds(ps, b)
    ensures Bounds(ps + [p], Widened(b, p))
  {
    MoreInside(ps, p, b);
    hide Inside, Widened;
    var w :| w in ps && w.x == b.x;
    var n :| n in ps && n.y == b.y;
    var e :| e in ps && e.x + e.w == b.x + b.w;
    var s :| s in ps && s.y + s.h == b.y + b.h;
    WidenedSides(b, p);
    var all := ps + [p];
    assert p in all && w in all && n in all && e in all && s in all;
  }

  lemma MoreInside(ps: seq<Placement>, p: Placement, b: Box)
    requires forall q :: q in ps ==> Inside(q, b)
    ensures forall q :: q in ps + [p] ==> Inside(q, Widened(b, p))
  {
  }

  lemma WidenedSides(b: Box, p: Placement)
    ensures var b' := Widened(b, p);
      && (b'.x == b.x || b'.x == p.x) && (b'.y == b.y || b'.y == p.y)
      && (b'.x + b'.w == b.x + b.w || b'.x + b'.w == p.x + p.w)
      && (b'.y + b'.h == b.y + b.h || b'.y + b'.h == p.y + p.h)
  {
  }

  lemma WidenedTo(minX: real, minY: real, maxX: real, maxY: real, p: Placement)
    ensures Widened(Box(minX, minY, maxX - minX, maxY - minY), p) ==
      Box(Smaller(minX, p.x), Smaller(minY, p.y),
          Larger(maxX, p.x + p.w) - Smaller(minX, p.x), Larger(maxY, p.y + p.h) - Smaller(minY, p.y))
  {
  }

  method BoundsOf(ps: seq<Placement>) returns (b: Box)
    ensures Bounds(ps, b)
  {
    hide Bounds, Smaller, Larger, Widened;
    if |ps| == 0 {
      NoCards();
      return Box(0.0, 0.0, 0.0, 0.0);
    }
    var minX, minY, maxX, maxY := ps[0].x, ps[0].y, ps[0].x + ps[0].w, ps[0].y + ps[0].h;
    OneCard(ps[0]);
    assert ps[..1] == [ps[0]];
    for i := 1 to |ps|
      invariant Bounds(ps[..i], Box(minX, minY, maxX - minX, maxY - minY))
    {
      assert ps[..i + 1] == ps[..i] + [ps[i]];
      OneMoreCard(ps[..i], ps[i], Box(minX, minY, maxX - minX, maxY - minY));
      WidenedTo(minX, minY, maxX, maxY, ps[i]);
      minX, minY := Smaller(minX, ps[i].x), Smaller(minY, ps[i].y);
      maxX, maxY := Larger(maxX, ps[i].x + ps[i].w), Larger(maxY, ps[i].y + ps[i].h);
    }
    assert ps[..|ps|] == ps;
    b := Box(minX, minY, maxX - minX, maxY - minY);
  }

  method FillIn(nodes: seq<Node>, ps: seq<Placement>) returns (filled: seq<Placement>)
    ensures filled == WithFallbacks(nodes, ps)
  {
    filled := ps;
    var known := IdSet(PlacedIds(ps));
    for i := 0 to |nodes|
      invariant filled == WithFallbacks(nodes[..i], ps)
      invariant known == IdSet(PlacedIds(filled))
    {
      assert nodes[..i + 1][..i] == nodes[..i];
      if nodes[i].id !in known {
        assert PlacedIds(filled + [Current(nodes[i])]) == PlacedIds(filled) + [nodes[i].id];
        filled := filled + [Current(nodes[i])];
        known := known + {nodes[i].id};
      }
    }
    assert nodes[..|nodes|] == nodes;
  }

  method MeanOf(ps: seq<Placement>) returns (c: Point)
    ensures c == Centroid(ps)
  {
    if |ps| == 0 { return Point(0.0, 0.0); }
    var x, y := 0.0, 0.0;
    for i := 0 to |ps|
      invariant x == SumCx(ps[..i]) && y == SumCy(ps[..i])
    {
      assert ps[..i + 1][..i] == ps[..i];
      x := x + ps[i].Cx();
      y := y + ps[i].Cy();
    }
    assert ps[..|ps|] == ps;
    c := Point(x / |ps| as real, y / |ps| as real);
  }

  method Shift(items: array<Placement>, dx: real, dy: real)
    modifies items
    ensures items[..] == Shifted(old(items[..]), dx, dy)
  {
    for k := 0 to items.Length
      invariant forall i :: 0 <= i < k ==> items[i] == old(items[i]).(x := old(items[i]).x + dx, y := old(items[i]).y + dy)
      invariant forall i :: k <= i < items.Length ==> items[i] == old(items[i])
    {
      items[k] := items[k].(x := items[k].x + dx, y := items[k].y + dy);
    }
  }

  method SnapUnpinned(items: array<Placement>)
    modifies items
    ensures items[..] == Snapped(old(items[..]))
  {
    for k := 0 to items.Length
      invariant forall i :: 0 <= i < k ==> items[i] == SnappedOne(old(items[i]))
      invariant forall i :: k <= i < items.Length ==> items[i] == old(items[i])
    {
      if items[k].pinned { continue; }
      items[k] := items[k].(x := Snap(items[k].x), y := Snap(items[k].y));
    }
  }

  /** Where each id sits in the list. */
  ghost predicate Locates(at: map<string, nat>, ps: seq<Placement>) {
    && (forall id :: id in at ==> at[id] < |ps| && ps[at[id]].id == id)
    && (forall k :: 0 <= k < |ps| ==> ps[k].id in at && at[ps[k].id] == k)
  }

  method IndexById(ps: seq<Placement>) returns (at: map<string, nat>)
    requires NoDup(PlacedIds(ps))
    ensures Locates(at, ps)
  {
    at := map[];
    for k := 0 to |ps|
      invariant Locates(at, ps[..k])
    {
      assert forall i :: 0 <= i < k ==> PlacedIds(ps)[i] != PlacedIds(ps)[k];
      at := at[ps[k].id := k];
    }
    assert ps[..|ps|] == ps;
  }

  lemma RestoredSnoc(pinned: seq<Node>, i: nat, p: Placement)
    requires i < |pinned|
    ensures RestoredOne(pinned[..i + 1], p) ==
      if pinned[i].id == p.id then RestoredOne(pinned[..i], p).(x := pinned[i].x, y := pinned[i].y)
      else RestoredOne(pinned[..i], p)
  {
    assert pinned[..i + 1][..i] == pinned[..i];
  }

  method RestorePins(items: array<Placement>, pinned: seq<Node>, at: map<string, nat>)
    requires Locates(at, items[..])
    modifies items
    ensures items[..] == Restored(pinned, old(items[..]))
  {
    for i := 0 to |pinned|
      invariant forall k :: 0 <= k < items.Length ==> items[k] == RestoredOne(pinned[..i], old(items[k]))
    {
      var node := pinned[i];
      forall k | 0 <= k < items.Length
        ensures RestoredOne(pinned[..i + 1], old(items[k])) ==
          if node.id == old(items[k]).id then RestoredOne(pinned[..i], old(items[k])).(x := node.x, y := node.y)
          else RestoredOne(pinned[..i], old(items[k]))
      {
        RestoredSnoc(pinned, i, old(items[k]));
      }
      assert forall k :: 0 <= k < items.Length ==> old(items[..])[k] == old(items[k]);
      if node.id in at {
        items[at[node.id]] := items[at[node.id]].(x := node.x, y := node.y);
      }
    }
    assert pinned[..|pinned|] == pinned;
  }

  predicate IsHeld(nodes: seq<Node>, p: Placement) {
    FindNode(nodes, p.id).Some? && FindNode(nodes, p.id).value.pinned
  }

  predicate IsStill(nodes: seq<Node>, p: Placement) {
    var n := FindNode(nodes, p.id);
    n.Some? && !n.value.pinned && n.value.x == p.x && n.value.y == p.y
  }

  /** Positions in the list of pinned nodes, and of free nodes that are where they were. */
  ghost function HeldAt(nodes: seq<Node>, ps: seq<Placement>): set<nat> {
    set k: nat | k < |ps| && IsHeld(nodes, ps[k])
  }

  ghost function StillAt(nodes: seq<Node>, ps: seq<Placement>): set<nat> {
    set k: nat | k < |ps| && IsStill(nodes, ps[k])
  }

  lemma CountOne(nodes: seq<Node>, ps: seq<Placement>, k: nat)
    requires k < |ps|
    ensures |HeldAt(nodes, ps[..k + 1])| == |HeldAt(nodes, ps[..k])| + if IsHeld(nodes, ps[k]) then 1 else 0
    ensures |StillAt(nodes, ps[..k + 1])| == |StillAt(nodes, ps[..k])| + if IsStill(nodes, ps[k]) then 1 else 0
  {
    hide IsHeld, IsStill, HeldAt, StillAt;
    HeldOneMore(nodes, ps, k);
    StillOneMore(nodes, ps, k);
  }

  lemma HeldOneMore(nodes: seq<Node>, ps: seq<Placement>, k: nat)
    requires k < |ps|
    ensures |HeldAt(nodes, ps[..k + 1])| == |HeldAt(nodes, ps[..k])| + if IsHeld(nodes, ps[k]) then 1 else 0
  {
    hide IsHeld;
    if IsHeld(nodes, ps[k]) {
      assert HeldAt(nodes, ps[..k + 1]) == HeldAt(nodes, ps[..k]) + {k};
    } else {
      assert HeldAt(nodes, ps[..k + 1]) == HeldAt(nodes, ps[..k]);
    }
  }

  lemma StillOneMore(nodes: seq<Node>, ps: seq<Placement>, k: nat)
    requires k < |ps|
    ensures |StillAt(nodes, ps[..k + 1])| == |StillAt(nodes, ps[..k])| + if IsStill(nodes, ps[k]) then 1 else 0
  {
    hide IsStill;
    if IsStill(nodes, ps[k]) {
      assert StillAt(nodes, ps[..k + 1]) == StillAt(nodes, ps[..k]) + {k};
    } else {
      assert StillAt(nodes, ps[..k + 1]) == StillAt(nodes, ps[..k]);
    }
  }

  /** The counting loop: how many placed nodes are pinned, are unchanged, and move. */
  method Count(nodes: seq<Node>, ps: seq<Placement>) returns (moved: nat, still: nat, pinned: nat)
    ensures moved == |DiffOf(nodes, ps)| && still == |StillAt(nodes, ps)| && pinned == |HeldAt(nodes, ps)|
    ensures (forall p :: p in ps ==> FindNode(nodes, p.id).Some?) ==> moved + still + pinned == |ps|
  {
    hide HeldAt, StillAt;
    assert HeldAt(nodes, []) == {} && StillAt(nodes, []) == {} by { NothingCounted(nodes); }
    moved, still, pinned := 0, 0, 0;
    for k := 0 to |ps|
      invariant moved == |DiffOf(nodes, ps[..k])|
      invariant still == |StillAt(nodes, ps[..k])| && pinned == |HeldAt(nodes, ps[..k])|
      invariant (forall p :: p in ps ==> FindNode(nodes, p.id).Some?) ==> moved + still + pinned == k
    {
      assert ps[..k + 1][..k] == ps[..k];
      CountOne(nodes, ps, k);
      match FindNode(nodes, ps[k].id) {
        case None =>
        case Some(n) =>
          if n.pinned { pinned := pinned + 1; }
          else if n.x == ps[k].x && n.y == ps[k].y { still := still + 1; }
          else { moved := moved + 1; }
      }
    }
    assert ps[..|ps|] == ps;
  }

  lemma NothingCounted(nodes: seq<Node>)
    ensures HeldAt(nodes, []) == {} && StillAt(nodes, []) == {}
  {
  }

  method CollectPinned(nodes: seq<Node>) returns (pinned: seq<Node>)
    ensures pinned == PinnedOnly(nodes)
  {
    pinned := [];
    for i := 0 to |nodes|
      invariant pinned == PinnedOnly(nodes[..i])
    {
      assert nodes[..i + 1][..i] == nodes[..i];
      if nodes[i].pinned { pinned := pinned + [nodes[i]]; }
    }
    assert nodes[..|nodes|] == nodes;
  }

  method Align(items: array<Placement>, pinned: seq<Node>, preserve: bool)
    modifies items
    ensures items[..] == Aligned(pinned, old(items[..]), preserve)
  {
    hide Shifted, Centroid, Anchors;
    if preserve && |pinned| > 0 {
      var before := MeanOf(Currents(pinned));
      var after := MeanOf(Anchors(pinned, items[..]));
      Shift(items, before.x - after.x, before.y - after.y);
    }
  }

  lemma AlignedLocates(at: map<string, nat>, pinned: seq<Node>, ps: seq<Placement>, preserve: bool)
    requires Locates(at, ps)
    ensures Locates(at, Aligned(pinned, ps, preserve))
  {
    hide Centroid, Anchors;
  }

  /** The first half: fill in, align on the pins, restore the pins. */
  method Prepare(nodes: seq<Node>, ps: seq<Placement>, preserve: bool, pinned: seq<Node>) returns (items: array<Placement>)
    requires UniqueIds(nodes) && Fits(nodes, ps) && pinned == PinnedOnly(nodes)
    ensures fresh(items) && items[..] == Prepared(nodes, ps, preserve)
  {
    FallbacksFit(nodes, nodes, ps);
    hide WithFallbacks, Covers, UniqueIds, Listed, PinnedOnly, Aligned, RestoredOne;
    var filled := FillIn(nodes, ps);
    items := new Placement[|filled|](i requires 0 <= i < |filled| => filled[i]);
    assert items[..] == filled;
    var at := IndexById(filled);
    AlignedLocates(at, pinned, filled, preserve);
    hide Locates, PlacedIds;
    Align(items, pinned, preserve);
    RestorePins(items, pinned, at);
  }

  method Recentre(items: array<Placement>, nodes: seq<Node>, pinned: seq<Node>, preserve: bool)
    requires pinned == PinnedOnly(nodes)
    modifies items
    ensures items[..] == Recentred(nodes, old(items[..]), preserve)
  {
    hide Centroid, Snap, PinnedOnly;
    if preserve && |pinned| == 0 && items.Length > 0 {
      var target := MeanOf(Currents(nodes));
      var actual := MeanOf(items[..]);
      var dx, dy := Snap(target.x - actual.x), Snap(target.y - actual.y);
      if dx != 0.0 || dy != 0.0 {
        Shift(items, dx, dy);
      } else {
        assert Shifted(items[..], dx, dy) == items[..];
      }
    }
  }

  /** The whole run, on an algorithm's placements. */
  method Run(g: Graph, place: Graph -> seq<Placement>, preserve: bool) returns (items: array<Placement>, stats: Stats)
    requires UniqueIds(g.nodes) && Fits(g.nodes, place(g))
    ensures fresh(items) && items[..] == Arranged(g.nodes, place(g), preserve)
    ensures stats.moved == |DiffOf(g.nodes, items[..])|
    ensures stats.still == |StillAt(g.nodes, items[..])| && stats.pinned == |HeldAt(g.nodes, items[..])|
    ensures stats.moved + stats.still + stats.pinned == |items[..]|
    ensures Bounds(items[..], stats.bounds)
    ensures stats.overlaps == Report(g.nodes, place(g), preserve)
  {
    var ps := place(g);
    AllKnown(g.nodes, ps, preserve);
    hide Prepared, Separated, Snapped, Recentred, DiffOf, UniqueIds, Fits, PinnedOnly, OverlapPairs, FindNode, HeldAt,
         StillAt, Bounds;
    var pinned := CollectPinned(g.nodes);
    items := Prepare(g.nodes, ps, preserve, pinned);
    var overlaps := Separate(items, MIN_CLEARANCE);
    SnapUnpinned(items);
    Recentre(items, g.nodes, pinned, preserve);
    var remaining := overlaps;
    if overlaps == 0 && items.Length <= RECOUNTED {
      remaining := CountOverlaps(items[..], MIN_CLEARANCE);
    }
    var moved, still, held := Count(g.nodes, items[..]);
    var bounds := BoundsOf(items[..]);
    stats := Stats(moved, still, held, bounds, remaining);
  }

  /** Every final placement belongs to a node of the graph. */
  lemma AllKnown(nodes: seq<Node>, ps: seq<Placement>, preserve: bool)
    requires UniqueIds(nodes) && Fits(nodes, ps)
    ensures forall p :: p in Arranged(nodes, ps, preserve) ==> FindNode(nodes, p.id).Some?
  {
    FallbacksFit(nodes, nodes, ps);
    ArrangedKeeps(nodes, ps, preserve);
    var filled, done := WithFallbacks(nodes, ps), Arranged(nodes, ps, preserve);
    hide WithFallbacks, Arranged, FindNode;
    forall p | p in done
      ensures FindNode(nodes, p.id).Some?
    {
      var k :| 0 <= k < |done| && done[k] == p;
      assert Listed(nodes, filled[k]);
      var i :| 0 <= i < |nodes| && Describes(nodes[i], filled[k]);
      FindNodeIsThere(nodes, i);
    }
  }

  /** The proposal: only the nodes that would actually move. */
  method ToLayoutDiff(nodes: seq<Node>, ps: seq<Placement>) returns (moves: seq<Move>)
    ensures moves == DiffOf(nodes, ps)
  {
    moves := [];
    for k := 0 to |ps|
      invariant moves == DiffOf(nodes, ps[..k])
    {
      assert ps[..k + 1][..k] == ps[..k];
      match FindNode(nodes, ps[k].id) {
        case None =>
        case Some(n) =>
          if n.pinned { continue; }
          if n.x == ps[k].x && n.y == ps[k].y { continue; }
          moves := moves + [MoveOf(n, ps[k])];
      }
    }
    assert ps[..|ps|] == ps;
  }
}
