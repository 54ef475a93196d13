/** What a layout reports about overlaps, and what is true of the arrangement it hands out: snapping and re-centring
  * come after the separation.
  */
module Reported {
  import opened Walks
  import opened LayoutGraph
  import opened Options
  import opened Overlap
  import opened Placements
  import opened Remaining
  import opened RunLayout
  import opened Squeeze

  // ---------------------------------------------------------------- snapping keeps half the clearance

  /** How far snapping may move a card along an axis. */
  function Slack(p: Placement): real {
    if p.pinned then 0.0 else GRID / 2.0
  }

  /** Whatever is clear before snapping is clear after it, at a clearance smaller by what each card may have moved. */
  lemma SnappingKeepsClear(a: Placement, b: Placement, c: real)
    requires !Overlaps(a, b, c)
    ensures !Overlaps(SnappedOne(a), SnappedOne(b), c - Slack(a) - Slack(b))
  {
    SnapIsNear(a.x);
    SnapIsNear(a.y);
    SnapIsNear(b.x);
    SnapIsNear(b.y);
    hide Snap;
  }

  lemma ShiftKeepsOverlap(a: Placement, b: Placement, c: real, dx: real, dy: real)
    ensures Overlaps(a.(x := a.x + dx, y := a.y + dy), b.(x := b.x + dx, y := b.y + dy), c) <==> Overlaps(a, b, c)
  {
  }

  lemma RecentringKeepsOverlap(nodes: seq<Node>, ps: seq<Placement>, preserve: bool, c: real, i: int, j: int)
    ensures PairOverlaps(Recentred(nodes, ps, preserve), c, i, j) <==> PairOverlaps(ps, c, i, j)
  {
    hide Centroid, Currents, PinnedOnly, Snap, Overlaps;
    if preserve && |PinnedOnly(nodes)| == 0 && 0 <= i < j < |ps| {
      var target, actual := Centroid(Currents(nodes)), Centroid(ps);
      ShiftKeepsOverlap(ps[i], ps[j], c, Snap(target.x - actual.x), Snap(target.y - actual.y));
    }
  }

  /** The pairs of the finished arrangement are those of the snapped one. */
  lemma RecentringKeepsPairs(nodes: seq<Node>, ps: seq<Placement>, preserve: bool, c: real)
    ensures OverlapPairs(Recentred(nodes, ps, preserve), c) == OverlapPairs(ps, c)
  {
    hide *;
    forall p
      ensures p in OverlapPairs(Recentred(nodes, ps, preserve), c) <==> p in OverlapPairs(ps, c)
    {
      PairsMembers(ps, c, p);
      PairsMembers(Recentred(nodes, ps, preserve), c, p);
      RecentringKeepsOverlap(nodes, ps, preserve, c, p.0, p.1);
    }
  }

  lemma SnappedPairIsClear(ps: seq<Placement>, c: real, i: int, j: int)
    requires !PairOverlaps(ps, c, i, j)
    ensures !PairOverlaps(Snapped(ps), c - GRID, i, j)
  {
    if 0 <= i < j < |ps| {
      SnappingKeepsClear(ps[i], ps[j], c);
      Narrower(Snapped(ps)[i], Snapped(ps)[j], c - Slack(ps[i]) - Slack(ps[j]), c - GRID);
    }
    hide SnappedOne, Overlaps;
  }

  lemma Narrower(a: Placement, b: Placement, c: real, less: real)
    requires !Overlaps(a, b, c) && less <= c
    ensures !Overlaps(a, b, less)
  {
  }

  lemma SnappedIsClear(ps: seq<Placement>, c: real)
    requires OverlapPairs(ps, c) == {}
    ensures OverlapPairs(Snapped(ps), c - GRID) == {}
  {
    hide *;
    var less := c - GRID;
    forall p
      ensures p !in OverlapPairs(Snapped(ps), less)
    {
      PairsMembers(ps, c, p);
      PairsMembers(Snapped(ps), less, p);
      SnappedPairIsClear(ps, c, p.0, p.1);
    }
  }

  lemma Stages(nodes: seq<Node>, ps: seq<Placement>, preserve: bool)
    ensures var s := Separated(Prepared(nodes, ps, preserve), MIN_CLEARANCE);
      && Found(nodes, ps, preserve) == s.found
      && Arranged(nodes, ps, preserve) == Recentred(nodes, Snapped(s.items), preserve)
  {
  }

  /** If the separation found nothing left, the finished cards are still half the clearance apart. */
  lemma SeparatedStaysClear(nodes: seq<Node>, ps: seq<Placement>, preserve: bool)
    requires Found(nodes, ps, preserve) == 0
    ensures OverlapPairs(Arranged(nodes, ps, preserve), MIN_CLEARANCE - GRID) == {}
  {
    hide *;
    var prepared := Prepared(nodes, ps, preserve);
    var separated := Separated(prepared, MIN_CLEARANCE).items;
    Stages(nodes, ps, preserve);
    ZeroMeansClear(prepared, MIN_CLEARANCE);
    SnappedIsClear(separated, MIN_CLEARANCE);
    RecentringKeepsPairs(nodes, Snapped(separated), preserve, MIN_CLEARANCE - GRID);
  }

  // ---------------------------------------------------------------- boards that are already arranged

  function AsNode(p: Placement): Node {
    Node(p.id, p.x, p.y, p.w, p.h, p.pinned)
  }

  /** The board on which the cards already are where they are placed. */
  function Board(ps: seq<Placement>): (nodes: seq<Node>)
    ensures |nodes| == |ps| && forall k :: 0 <= k < |ps| ==> nodes[k] == AsNode(ps[k])
  {
    seq(|ps|, k requires 0 <= k < |ps| => AsNode(ps[k]))
  }

  lemma BoardFits(ps: seq<Placement>)
    requires NoDup(PlacedIds(ps))
    ensures UniqueIds(Board(ps)) && Fits(Board(ps), ps) && RunLayout.Covers(Board(ps), ps)
  {
    forall k {:trigger ps[k]} | 0 <= k < |ps|
      ensures RunLayout.Listed(Board(ps), ps[k])
    {
      assert Describes(Board(ps)[k], ps[k]);
    }
    forall k | 0 <= k < |ps|
      ensures Board(ps)[k].id in PlacedIds(ps)
    {
      assert PlacedIds(ps)[k] == ps[k].id;
    }
    assert Ids(Board(ps)) == PlacedIds(ps);
  }

  lemma {:induction false} RestoredSame(pinned: seq<Node>, p: Placement)
    requires forall n :: n in pinned && n.id == p.id ==> n.x == p.x && n.y == p.y
    ensures RestoredOne(pinned, p) == p
  {
    if pinned != [] {
      var front, last := pinned[..|pinned| - 1], pinned[|pinned| - 1];
      assert pinned == front + [last];
      RestoredSame(front, p);
      assert last in pinned;
    }
  }

  lemma RestoredAtHome(ps: seq<Placement>, k: nat)
    requires NoDup(PlacedIds(ps)) && k < |ps|
    ensures RestoredOne(PinnedOnly(Board(ps)), ps[k]) == ps[k]
  {
    PinnedMembers(Board(ps));
    hide PinnedOnly, RestoredOne;
    forall n | n in PinnedOnly(Board(ps)) && n.id == ps[k].id
      ensures n.x == ps[k].x && n.y == ps[k].y
    {
      var i :| 0 <= i < |Board(ps)| && Board(ps)[i] == n;
      assert PlacedIds(ps)[i] == PlacedIds(ps)[k];
    }
    RestoredSame(PinnedOnly(Board(ps)), ps[k]);
  }

  lemma AnchorAtHome(ps: seq<Placement>, i: nat)
    requires NoDup(PlacedIds(ps)) && i < |PinnedOnly(Board(ps))|
    ensures Find(ps, PinnedOnly(Board(ps))[i].id) == Some(Current(PinnedOnly(Board(ps))[i]))
  {
    PinnedMembers(Board(ps));
    assert PinnedOnly(Board(ps))[i] in PinnedOnly(Board(ps));
    hide PinnedOnly, Find;
    var k :| 0 <= k < |Board(ps)| && Board(ps)[k] == PinnedOnly(Board(ps))[i];
    FindIsThere(ps, k);
  }

  lemma AnchorsAtHome(ps: seq<Placement>)
    requires NoDup(PlacedIds(ps))
    ensures Anchors(PinnedOnly(Board(ps)), ps) == Currents(PinnedOnly(Board(ps)))
  {
    hide PinnedOnly, Find;
    var pinned := PinnedOnly(Board(ps));
    forall i | 0 <= i < |pinned|
      ensures Anchors(pinned, ps)[i] == Current(pinned[i])
    {
      AnchorAtHome(ps, i);
    }
  }

  lemma NoShift(ps: seq<Placement>)
    ensures Shifted(ps, 0.0, 0.0) == ps
  {
  }

  lemma AlignedAtHome(ps: seq<Placement>, preserve: bool)
    requires NoDup(PlacedIds(ps))
    ensures Aligned(PinnedOnly(Board(ps)), ps, preserve) == ps
  {
    AnchorsAtHome(ps);
    NoShift(ps);
    hide Anchors, Shifted, Centroid, PinnedOnly, PlacedIds, Currents;
  }

  lemma RestoredAllAtHome(ps: seq<Placement>)
    requires NoDup(PlacedIds(ps))
    ensures Restored(PinnedOnly(Board(ps)), ps) == ps
  {
    hide RestoredOne, PinnedOnly, PlacedIds;
    forall k | 0 <= k < |ps|
      ensures RestoredOne(PinnedOnly(Board(ps)), ps[k]) == ps[k]
    {
      RestoredAtHome(ps, k);
    }
  }

  /** An algorithm that proposes the board as it is hands it to the separation pass as it is. */
  lemma PreparedAtHome(ps: seq<Placement>, preserve: bool)
    requires NoDup(PlacedIds(ps))
    ensures Prepared(Board(ps), ps, preserve) == ps
  {
    BoardFits(ps);
    NoFallbackNeeded(Board(ps), ps);
    AlignedAtHome(ps, preserve);
    RestoredAllAtHome(ps);
    hide WithFallbacks, Aligned, Restored, PinnedOnly, PlacedIds;
  }

  // ---------------------------------------------------------------- half the clearance, and no more

  /** Every layout of `n` nodes that separates keeps its cards `c` apart. */
  ghost predicate KeepsApart(n: nat, c: real, preserve: bool) {
    forall nodes, ps | |nodes| == n && UniqueIds(nodes) && Fits(nodes, ps) && Found(nodes, ps, preserve) == 0 ::
      OverlapPairs(Arranged(nodes, ps, preserve), c) == {}
  }

  /** Two cards that are just clear, and are snapped towards each other; the others are far away. */
  function Near(e: real): Placement {
    Placement("near", 4.0, 0.0, 16.0 - e, 16.0, false)
  }

  function Next(e: real): Placement {
    Placement("next", 36.0 - e, 0.0, 16.0 - e, 16.0, false)
  }

  function Away(i: nat): Placement {
    Placement(FarId(i), GridPoint(125 * (i + 1)), 0.0, 16.0, 16.0, false)
  }

  function Touching(e: real, k: nat): (ps: seq<Placement>)
    ensures |ps| == 2 + k && ps[0] == Near(e) && ps[1] == Next(e)
    ensures forall i :: 2 <= i < 2 + k ==> ps[i] == Away(i - 2)
  {
    [Near(e), Next(e)] + seq(k, i requires 0 <= i => Away(i))
  }

  lemma TouchingIds(e: real, k: nat)
    ensures NoDup(PlacedIds(Touching(e, k)))
  {
    var ps := Touching(e, k);
    forall i, j | 0 <= i < j < |ps|
      ensures ps[i].id != ps[j].id
    {
      assert j < 2 || |ps[j].id| == 8 + j;
      assert i < 2 || |ps[i].id| == 8 + i;
    }
  }

  lemma AwayIsFar(i: nat, j: nat)
    requires i < j
    ensures Away(i).x >= 1000.0 && Away(j).x - Away(i).x >= 1000.0
  {
    assert Away(j).x - Away(i).x == GridPoint(125 * (j - i));
  }

  lemma TouchingPairClear(e: real, k: nat, i: nat, j: nat)
    requires 0.0 < e <= 1.0 && i < j < 2 + k
    ensures !Overlaps(Touching(e, k)[i], Touching(e, k)[j], MIN_CLEARANCE)
  {
    var ps := Touching(e, k);
    if j >= 2 {
      AwayIsFar(if i < 2 then j - 2 else i - 2, j - 1);
      AwayIsFar(if i < 2 then j - 2 else i - 2, if i < 2 then j - 1 else j - 2);
      assert ps[j] == Away(j - 2) && (i >= 2 ==> ps[i] == Away(i - 2));
      hide Touching;
    }
  }

  lemma TouchingIsClear(e: real, k: nat)
    requires 0.0 < e <= 1.0
    ensures OverlapPairs(Touching(e, k), MIN_CLEARANCE) == {}
  {
    var ps := Touching(e, k);
    hide Overlaps, Touching, OverlapPairs;
    forall p
      ensures p !in OverlapPairs(ps, MIN_CLEARANCE)
    {
      PairsMembers(ps, MIN_CLEARANCE, p);
      if 0 <= p.0 < p.1 < |ps| { TouchingPairClear(e, k, p.0, p.1); }
    }
  }

  lemma SnapTo(k: int, part: real)
    requires -4.0 <= part < 4.0
    ensures Snap(GridPoint(k) + part) == GridPoint(k)
  {
    var v := GridPoint(k) + part;
    assert v / GRID == k as real + part / 8.0;
    assert (v / GRID + 0.5).Floor == k;
  }

  /** After snapping the two overlap at any clearance above 8 that leaves room for `e`. */
  lemma SnappedTouch(e: real, c: real)
    requires 0.0 < e <= 1.0 && c > 8.0 + e
    ensures Overlaps(SnappedOne(Near(e)), SnappedOne(Next(e)), c)
  {
    SnapTo(1, -4.0);
    SnapTo(4, 4.0 - e);
    SnapTo(0, 0.0);
    assert GridPoint(1) - 4.0 == 4.0 && GridPoint(4) + (4.0 - e) == 36.0 - e && GridPoint(0) + 0.0 == 0.0;
    hide Snap;
  }

  /** It separates at once, and ends with an overlap. */
  lemma TouchingLayout(e: real, k: nat, c: real, preserve: bool)
    requires 0.0 < e <= 1.0 && c > 8.0 + e
    ensures var ps := Touching(e, k);
      && UniqueIds(Board(ps)) && Fits(Board(ps), ps) && |Board(ps)| == 2 + k
      && Found(Board(ps), ps, preserve) == 0 && |Arranged(Board(ps), ps, preserve)| == 2 + k
      && (0, 1) in OverlapPairs(Arranged(Board(ps), ps, preserve), c)
  {
    hide *;
    var ps := Touching(e, k);
    assert |ps| == 2 + k && ps[0] == Near(e) && ps[1] == Next(e);
    TouchingIds(e, k);
    BoardFits(ps);
    PreparedAtHome(ps, preserve);
    Stages(Board(ps), ps, preserve);
    TouchingIsClear(e, k);
    ClearIsLeftAlone(ps, MIN_CLEARANCE);
    RecentringKeepsPairs(Board(ps), Snapped(ps), preserve, c);
    SnappedTouch(e, c);
    PairsMembers(Snapped(ps), c, (0, 1));
    assert PairOverlaps(Snapped(ps), c, 0, 1) by { FirstPair(Snapped(ps), c); }
  }

  lemma FirstPair(ps: seq<Placement>, c: real)
    requires |ps| >= 2 && Overlaps(ps[0], ps[1], c)
    ensures PairOverlaps(ps, c, 0, 1)
  {
  }

  lemma NarrowerPairs(ps: seq<Placement>, c: real, less: real)
    requires OverlapPairs(ps, c) == {} && less <= c
    ensures OverlapPairs(ps, less) == {}
  {
    hide OverlapPairs, Overlaps;
    forall p
      ensures p !in OverlapPairs(ps, less)
    {
      PairsMembers(ps, c, p);
      PairsMembers(ps, less, p);
      if 0 <= p.0 < p.1 < |ps| { Narrower(ps[p.0], ps[p.1], c, less); }
    }
  }

  /** The clearance that a layout which separates can be relied on to keep is exactly half of what was asked for. */
  lemma ClearanceKeptExactly(n: nat, c: real, preserve: bool)
    requires n >= 2
    ensures KeepsApart(n, c, preserve) <==> c <= MIN_CLEARANCE - GRID
  {
    hide UniqueIds, Fits, Arranged, Found, OverlapPairs;
    if c <= MIN_CLEARANCE - GRID {
      forall nodes, ps | |nodes| == n && UniqueIds(nodes) && Fits(nodes, ps) && Found(nodes, ps, preserve) == 0
        ensures OverlapPairs(Arranged(nodes, ps, preserve), c) == {}
      {
        SeparatedStaysClear(nodes, ps, preserve);
        NarrowerPairs(Arranged(nodes, ps, preserve), MIN_CLEARANCE - GRID, c);
      }
    } else {
      var e := if c > 10.0 then 1.0 else (c - 8.0) / 2.0;
      TouchingLayout(e, n - 2, c, preserve);
    }
  }

  // ---------------------------------------------------------------- is it what is actually true?

  /** The number reported is the number of overlapping pairs in the finished arrangement. */
  ghost predicate TrueReport(nodes: seq<Node>, ps: seq<Placement>, preserve: bool) {
    Report(nodes, ps, preserve) == |OverlapPairs(Arranged(nodes, ps, preserve), MIN_CLEARANCE)|
  }

  /** ... for every layout of `n` nodes. */
  ghost predicate AlwaysTrue(n: nat, preserve: bool) {
    forall nodes, ps | |nodes| == n && UniqueIds(nodes) && Fits(nodes, ps) :: TrueReport(nodes, ps, preserve)
  }

  /** ... for every layout of `n` nodes that separates. */
  ghost predicate TrueOnceSeparated(n: nat, preserve: bool) {
    forall nodes, ps | |nodes| == n && UniqueIds(nodes) && Fits(nodes, ps) && Found(nodes, ps, preserve) == 0 ::
      TrueReport(nodes, ps, preserve)
  }

  /** There is one placement per node. */
  lemma OnePerNode(nodes: seq<Node>, ps: seq<Placement>, preserve: bool)
    requires UniqueIds(nodes) && Fits(nodes, ps)
    ensures |Prepared(nodes, ps, preserve)| == |Arranged(nodes, ps, preserve)| == |nodes|
  {
    var filled := WithFallbacks(nodes, ps);
    FallbacksFit(nodes, nodes, ps);
    PreparedKeeps(nodes, ps, preserve);
    ArrangedKeeps(nodes, ps, preserve);
    hide UniqueIds, Fits, RunLayout.Covers, WithFallbacks, Prepared, Arranged, Applied, Currents;
    AppliedOnce(nodes, filled);
    AppliedMembers(nodes, filled);
    SumsAgree(Currents(Applied(nodes, filled)), filled);
  }

  lemma Reports(nodes: seq<Node>, ps: seq<Placement>, preserve: bool)
    ensures var done := Arranged(nodes, ps, preserve);
      Report(nodes, ps, preserve) ==
        if Found(nodes, ps, preserve) == 0 && |done| <= RECOUNTED then |OverlapPairs(done, MIN_CLEARANCE)|
        else Found(nodes, ps, preserve)
  {
  }

  lemma RecountedIsTrue(nodes: seq<Node>, ps: seq<Placement>, preserve: bool)
    requires UniqueIds(nodes) && Fits(nodes, ps)
    requires |nodes| <= RECOUNTED && Found(nodes, ps, preserve) == 0
    ensures TrueReport(nodes, ps, preserve)
  {
    OnePerNode(nodes, ps, preserve);
    hide Arranged, OverlapPairs, Found, UniqueIds, Fits, Prepared;
  }

  ghost predicate AllPinned(ps: seq<Placement>) {
    forall k :: 0 <= k < |ps| ==> ps[k].pinned
  }

  lemma PinnedSnapsToItself(ps: seq<Placement>)
    requires AllPinned(ps)
    ensures Snapped(ps) == ps
  {
  }

  lemma PinnedOverlapOnly(ps: seq<Placement>, c: real)
    requires AllPinned(ps)
    ensures OnlyPinsOverlap(ps, c)
  {
    hide Overlaps;
  }

  lemma PinnedBoard(nodes: seq<Node>, ps: seq<Placement>, preserve: bool)
    requires UniqueIds(nodes) && Fits(nodes, ps) && forall i :: 0 <= i < |nodes| ==> nodes[i].pinned
    ensures AllPinned(Prepared(nodes, ps, preserve))
  {
    var filled, prepared := WithFallbacks(nodes, ps), Prepared(nodes, ps, preserve);
    FallbacksFit(nodes, nodes, ps);
    PreparedKeeps(nodes, ps, preserve);
    hide WithFallbacks, Prepared, UniqueIds, RunLayout.Covers;
    forall k | 0 <= k < |prepared|
      ensures prepared[k].pinned
    {
      assert RunLayout.Listed(nodes, filled[k]);
    }
  }

  lemma PinnedCardsAreReported(nodes: seq<Node>, ps: seq<Placement>, preserve: bool)
    requires AllPinned(Prepared(nodes, ps, preserve))
    ensures TrueReport(nodes, ps, preserve)
  {
    hide *;
    var prepared := Prepared(nodes, ps, preserve);
    Stages(nodes, ps, preserve);
    PinnedOverlapOnly(prepared, MIN_CLEARANCE);
    PinnedOverlapsAreCounted(prepared, MIN_CLEARANCE);
    PinnedSnapsToItself(prepared);
    RecentringKeepsPairs(nodes, prepared, preserve, MIN_CLEARANCE);
    Reports(nodes, ps, preserve);
    Truth(nodes, ps, preserve);
  }

  lemma Truth(nodes: seq<Node>, ps: seq<Placement>, preserve: bool)
    ensures TrueReport(nodes, ps, preserve) <==>
      Report(nodes, ps, preserve) == |OverlapPairs(Arranged(nodes, ps, preserve), MIN_CLEARANCE)|
  {
  }

  /** On a board where every node is pinned every overlap is reported, however many there are. */
  lemma PinnedIsTrue(nodes: seq<Node>, ps: seq<Placement>, preserve: bool)
    requires UniqueIds(nodes) && Fits(nodes, ps) && forall i :: 0 <= i < |nodes| ==> nodes[i].pinned
    ensures TrueReport(nodes, ps, preserve)
  {
    PinnedBoard(nodes, ps, preserve);
    hide *;
    PinnedCardsAreReported(nodes, ps, preserve);
  }

  lemma OnlyPinnedPairRemains(items: seq<Placement>)
    requires |items| <= 2 && Separated(items, MIN_CLEARANCE).found != 0
    ensures AllPinned(items)
  {
    if |items| == 2 && PairOverlaps(items, MIN_CLEARANCE, 0, 1) {
      hide Separated;
      if !(items[0].pinned && items[1].pinned) { TwoFreeCardsEndClear(items, MIN_CLEARANCE); }
    } else {
      hide Separated;
      NoPair(items, MIN_CLEARANCE);
      ClearIsLeftAlone(items, MIN_CLEARANCE);
    }
  }

  lemma NoPair(items: seq<Placement>, c: real)
    requires |items| <= 2 && !PairOverlaps(items, c, 0, 1)
    ensures OverlapPairs(items, c) == {}
  {
  }

  lemma UpToTwoIsTrue(nodes: seq<Node>, ps: seq<Placement>, preserve: bool)
    requires UniqueIds(nodes) && Fits(nodes, ps) && |nodes| <= 2
    ensures TrueReport(nodes, ps, preserve)
  {
    OnePerNode(nodes, ps, preserve);
    if Found(nodes, ps, preserve) == 0 {
      RecountedIsTrue(nodes, ps, preserve);
    } else {
      hide TrueReport, Separated, Prepared;
      OnlyPinnedPairRemains(Prepared(nodes, ps, preserve));
      PinnedCardsAreReported(nodes, ps, preserve);
    }
  }

  // ---------------------------------------------------------------- three cards in a row

  lemma SqueezedIds(c: real, x: real, k: nat)
    ensures NoDup(PlacedIds(Squeezed(c, x, k)))
  {
    var ps := Squeezed(c, x, k);
    assert |Left().id| == 4 && |Right(c).id| == 5 && |Between(x).id| == 7;
    forall i, j | 0 <= i < j < |ps|
      ensures ps[i].id != ps[j].id
    {
      assert j < 3 || |ps[j].id| == 7 + j;
      assert i < 3 || |ps[i].id| == 7 + i;
    }
  }

  lemma FarSnapsToItself(i: nat)
    ensures SnappedOne(Far(MIN_CLEARANCE, i)) == Far(MIN_CLEARANCE, i)
  {
    SnapTo(325 * (i + 1), 0.0);
    SnapTo(0, 0.0);
    assert Far(MIN_CLEARANCE, i).x == GridPoint(325 * (i + 1)) + 0.0 && GridPoint(0) + 0.0 == 0.0;
    hide Snap;
  }

  lemma BetweenSnaps()
    ensures SnappedOne(Between(1.0)) == Between(0.0)
  {
    SnapTo(0, 1.0);
    SnapTo(0, 0.0);
    assert GridPoint(0) + 1.0 == 1.0 && GridPoint(0) + 0.0 == 0.0;
    hide Snap;
  }

  lemma SqueezedSnaps(k: nat)
    ensures Snapped(Squeezed(MIN_CLEARANCE, 1.0, k)) == Squeezed(MIN_CLEARANCE, 0.0, k)
  {
    var ps, qs := Squeezed(MIN_CLEARANCE, 1.0, k), Squeezed(MIN_CLEARANCE, 0.0, k);
    assert SnappedOne(Left()) == Left() && SnappedOne(Right(MIN_CLEARANCE)) == Right(MIN_CLEARANCE);
    hide Squeezed, SnappedOne, Far, Left, Right, Between;
    BetweenSnaps();
    forall i | 0 <= i < 3 + k
      ensures SnappedOne(ps[i]) == qs[i]
    {
      if i >= 3 { FarSnapsToItself(i - 3); }
    }
  }

  /** On that board the separation pass returns 2 and leaves the cards as they are. */
  lemma SqueezedFound(k: nat, preserve: bool)
    ensures var ps := Squeezed(MIN_CLEARANCE, 1.0, k);
      && Found(Board(ps), ps, preserve) == Report(Board(ps), ps, preserve) == 2
      && Arranged(Board(ps), ps, preserve) == Recentred(Board(ps), Squeezed(MIN_CLEARANCE, 0.0, k), preserve)
  {
    assert MIN_CLEARANCE >= 0.0;
    hide *;
    var ps := Squeezed(MIN_CLEARANCE, 1.0, k);
    SqueezedIds(MIN_CLEARANCE, 1.0, k);
    PreparedAtHome(ps, preserve);
    Stages(Board(ps), ps, preserve);
    Reports(Board(ps), ps, preserve);
    ResultMayMiscount(MIN_CLEARANCE, k);
    SqueezedSnaps(k);
  }

  lemma SqueezedRemain(k: nat, preserve: bool)
    ensures var ps := Squeezed(MIN_CLEARANCE, 1.0, k);
      OverlapPairs(Arranged(Board(ps), ps, preserve), MIN_CLEARANCE) == {(0, 2)}
  {
    assert MIN_CLEARANCE >= 0.0;
    hide *;
    SqueezedFound(k, preserve);
    SqueezedPairs(MIN_CLEARANCE, 0.0, k);
    RecentringKeepsPairs(Board(Squeezed(MIN_CLEARANCE, 1.0, k)), Squeezed(MIN_CLEARANCE, 0.0, k), preserve, MIN_CLEARANCE);
  }

  /** The layout reports 2, and one pair is left, on a board that already is as the algorithm proposes it. */
  lemma SqueezedLayout(k: nat, preserve: bool)
    ensures var ps := Squeezed(MIN_CLEARANCE, 1.0, k);
      && UniqueIds(Board(ps)) && Fits(Board(ps), ps) && |Board(ps)| == 3 + k
      && Report(Board(ps), ps, preserve) == 2
      && OverlapPairs(Arranged(Board(ps), ps, preserve), MIN_CLEARANCE) == {(0, 2)}
  {
    hide *;
    SqueezedIds(MIN_CLEARANCE, 1.0, k);
    BoardFits(Squeezed(MIN_CLEARANCE, 1.0, k));
    SqueezedFound(k, preserve);
    SqueezedRemain(k, preserve);
  }

  /** What is reported is what is true, for all layouts of `n` nodes, exactly when there are two nodes at most. */
  lemma ReportIsTrueExactlyUpToTwo(n: nat, preserve: bool)
    ensures AlwaysTrue(n, preserve) <==> n <= 2
  {
    hide *;
    if n <= 2 { SmallIsTrue(n, preserve); } else { LargeIsNotTrue(n, preserve); }
  }

  lemma SmallIsTrue(n: nat, preserve: bool)
    requires n <= 2
    ensures AlwaysTrue(n, preserve)
  {
    hide UniqueIds, Fits, TrueReport;
    forall nodes, ps | |nodes| == n && UniqueIds(nodes) && Fits(nodes, ps)
      ensures TrueReport(nodes, ps, preserve)
    {
      UpToTwoIsTrue(nodes, ps, preserve);
    }
  }

  lemma LargeIsNotTrue(n: nat, preserve: bool)
    requires n > 2
    ensures !AlwaysTrue(n, preserve)
  {
    hide *;
    var ps := Squeezed(MIN_CLEARANCE, 1.0, n - 3);
    SqueezedLayout(n - 3, preserve);
    Truth(Board(ps), ps, preserve);
    Untrue(Board(ps), ps, n, preserve);
  }

  lemma Untrue(nodes: seq<Node>, ps: seq<Placement>, n: nat, preserve: bool)
    requires |nodes| == n && UniqueIds(nodes) && Fits(nodes, ps) && !TrueReport(nodes, ps, preserve)
    ensures !AlwaysTrue(n, preserve)
  {
    hide UniqueIds, Fits, TrueReport;
  }

  lemma HasPair(pairs: set<(int, int)>)
    requires (0, 1) in pairs
    ensures |pairs| != 0
  {
  }

  /** With more cards than are counted again, an overlap that snapping brings in goes unreported. */
  lemma TouchingIsMissed(k: nat, preserve: bool)
    requires 2 + k > RECOUNTED
    ensures var ps := Touching(1.0, k);
      && |Board(ps)| == 2 + k && UniqueIds(Board(ps)) && Fits(Board(ps), ps)
      && Found(Board(ps), ps, preserve) == 0 && !TrueReport(Board(ps), ps, preserve)
  {
    assert MIN_CLEARANCE > 9.0;
    hide *;
    var ps := Touching(1.0, k);
    TouchingLayout(1.0, k, MIN_CLEARANCE, preserve);
    Truth(Board(ps), ps, preserve);
    Reports(Board(ps), ps, preserve);
    HasPair(OverlapPairs(Arranged(Board(ps), ps, preserve), MIN_CLEARANCE));
  }

  /** Of the layouts that separate, it is true of all with `n` nodes exactly when they are counted again. */
  lemma ReportIsTrueOnceSeparatedExactly(n: nat, preserve: bool)
    ensures TrueOnceSeparated(n, preserve) <==> n <= 512
  {
    hide UniqueIds, Fits, TrueReport, Found, Arranged, Touching;
    if n <= RECOUNTED {
      forall nodes, ps | |nodes| == n && UniqueIds(nodes) && Fits(nodes, ps) && Found(nodes, ps, preserve) == 0
        ensures TrueReport(nodes, ps, preserve)
      {
        RecountedIsTrue(nodes, ps, preserve);
      }
    } else {
      TouchingIsMissed(n - 2, preserve);
    }
  }
}
