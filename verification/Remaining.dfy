/** What the number that the separation pass returns says about the pairs that are left. */
module Remaining {
  import opened Overlap

  /** Every overlap that is left is between two pinned cards. */
  ghost predicate OnlyPinsOverlap(items: seq<Placement>, clearance: real) {
    forall i, j {:trigger PairOverlaps(items, clearance, i, j)} ::
      PairOverlaps(items, clearance, i, j) ==> items[i].pinned && items[j].pinned
  }

  predicate Listed(js: seq<nat>, j: int) {
    j >= 0 && j in js
  }

  /** The pairs of card `i` with a listed card. */
  ghost function MetIn(items: seq<Placement>, clearance: real, i: int, js: seq<nat>): set<(int, int)> {
    set p | p in OverlapPairs(items, clearance) && p.0 == i && Listed(js, p.1) :: p
  }

  ghost predicate Once(js: seq<nat>) {
    forall a, b :: 0 <= a < b < |js| ==> js[a] != js[b]
  }

  lemma MetSnoc(items: seq<Placement>, clearance: real, i: nat, front: seq<nat>, j: nat)
    requires Once(front + [j])
    ensures |MetIn(items, clearance, i, front + [j])| ==
      |MetIn(items, clearance, i, front)| + if PairOverlaps(items, clearance, i, j) then 1 else 0
  {
    var met, more := MetIn(items, clearance, i, front), MetIn(items, clearance, i, front + [j]);
    forall a | 0 <= a < |front|
      ensures front[a] != j
    {
      assert (front + [j])[a] == front[a] && (front + [j])[|front|] == j;
    }
    PairsMembers(items, clearance, (i, j));
    hide OverlapPairs, PairOverlaps, Once;
    assert (front + [j])[|front|] == j;
    assert forall k :: Listed(front + [j], k) <==> Listed(front, k) || k == j;
    if PairOverlaps(items, clearance, i, j) {
      assert more == met + {(i, j)};
    } else {
      assert more == met;
    }
  }

  /** Among pins that overlap, a scan moves nothing and counts each card it meets once. */
  lemma {:induction false} PinnedMeets(s: Sweep, i: nat, js: seq<nat>, clearance: real)
    requires i < |s.items| && OnlyPinsOverlap(s.items, clearance) && Once(js)
    ensures MeetAll(s, i, js, clearance) == Sweep(s.items, s.found + |MetIn(s.items, clearance, i, js)|)
    decreases |js|
  {
    if js == [] {
      assert MetIn(s.items, clearance, i, js) == {};
    } else {
      var front, j := js[..|js| - 1], js[|js| - 1];
      assert js == front + [j];
      PinnedMeets(s, i, front, clearance);
      MetSnoc(s.items, clearance, i, front, j);
      hide MetIn, Once;
      PinnedMeet(Sweep(s.items, s.found + |MetIn(s.items, clearance, i, front)|), i, j, clearance);
      hide Meet, PairOverlaps, OnlyPinsOverlap;
    }
  }

  lemma PinnedMeet(s: Sweep, i: nat, j: nat, clearance: real)
    requires i < |s.items| && OnlyPinsOverlap(s.items, clearance)
    ensures Meet(s, i, j, clearance) ==
      Sweep(s.items, s.found + if PairOverlaps(s.items, clearance, i, j) then 1 else 0)
  {
    if PairOverlaps(s.items, clearance, i, j) {
      PushClears(s.items[i], s.items[j], clearance);
    }
    hide Pushed, Overlaps;
  }

  lemma {:induction false} BucketOnce(items: seq<Placement>, cell: real, key: Cell, n: nat)
    requires cell > 0.0 && n <= |items|
    ensures Once(Bucket(items, cell, key, n))
    ensures forall j :: j in Bucket(items, cell, key, n) ==> j < n && CellOf(items[j], cell) == key
  {
    if n > 0 {
      BucketOnce(items, cell, key, n - 1);
      hide CellOf;
    }
  }

  lemma OnceConcat(a: seq<nat>, b: seq<nat>)
    requires Once(a) && Once(b) && forall j :: j in a ==> j !in b
    ensures Once(a + b)
  {
    forall x, y | 0 <= x < y < |a + b|
      ensures (a + b)[x] != (a + b)[y]
    {
      if x < |a| <= y { assert a[x] in a && b[y - |a|] in b; }
    }
  }

  /** All listed cards sit in column `x`, below row `y`. */
  ghost predicate InColumn(items: seq<Placement>, cell: real, js: seq<nat>, x: int, y: int)
    requires cell > 0.0
  {
    forall j :: j in js ==> j < |items| && CellOf(items[j], cell).0 == x && CellOf(items[j], cell).1 < y
  }

  lemma AddBucket(items: seq<Placement>, cell: real, js: seq<nat>, x: int, y: int)
    requires cell > 0.0 && Once(js) && InColumn(items, cell, js, x, y)
    ensures var more := js + Bucket(items, cell, (x, y), |items|); Once(more) && InColumn(items, cell, more, x, y + 1)
  {
    BucketOnce(items, cell, (x, y), |items|);
    hide CellOf, Bucket, Once;
    OnceConcat(js, Bucket(items, cell, (x, y), |items|));
  }

  lemma NoBucket(items: seq<Placement>, cell: real, x: int, y: int)
    requires cell > 0.0
    ensures Once(Stripe(items, cell, x, y, 0)) && InColumn(items, cell, Stripe(items, cell, x, y, 0), x, y - 1)
  {
  }

  lemma {:induction false} StripeOnce(items: seq<Placement>, cell: real, x: int, y: int, k: nat)
    requires cell > 0.0
    ensures Once(Stripe(items, cell, x, y, k)) && InColumn(items, cell, Stripe(items, cell, x, y, k), x, y - 1 + k)
  {
    hide *;
    if k == 0 {
      NoBucket(items, cell, x, y);
    } else {
      var front := Stripe(items, cell, x, y, k - 1);
      StripeOnce(items, cell, x, y, k - 1);
      AddBucket(items, cell, front, x, y - 2 + k);
      NextBucket(items, cell, x, y, k);
    }
  }

  /** All listed cards sit west of column `x`. */
  ghost predicate WestOf(items: seq<Placement>, cell: real, js: seq<nat>, x: int)
    requires cell > 0.0
  {
    forall j :: j in js ==> j < |items| && CellOf(items[j], cell).0 < x
  }

  lemma AddStripe(items: seq<Placement>, cell: real, js: seq<nat>, x: int, y: int)
    requires cell > 0.0 && Once(js) && WestOf(items, cell, js, x)
    ensures var more := js + Stripe(items, cell, x, y, 3); Once(more) && WestOf(items, cell, more, x + 1)
  {
    StripeOnce(items, cell, x, y, 3);
    hide CellOf, Stripe, Once;
    OnceConcat(js, Stripe(items, cell, x, y, 3));
  }

  lemma NoStripe(items: seq<Placement>, cell: real, key: Cell)
    requires cell > 0.0
    ensures Once(Stripes(items, cell, key, 0)) && WestOf(items, cell, Stripes(items, cell, key, 0), key.0 - 1)
  {
  }

  /** The neighbourhood lists no card twice. */
  lemma {:induction false} StripesOnce(items: seq<Placement>, cell: real, key: Cell, k: nat)
    requires cell > 0.0
    ensures Once(Stripes(items, cell, key, k)) && WestOf(items, cell, Stripes(items, cell, key, k), key.0 - 1 + k)
  {
    hide *;
    if k == 0 {
      NoStripe(items, cell, key);
    } else {
      var front := Stripes(items, cell, key, k - 1);
      StripesOnce(items, cell, key, k - 1);
      AddStripe(items, cell, front, key.0 - 2 + k, key.1);
      NextStripe(items, cell, key, k);
    }
  }

  /** The pairs in which card `i` comes first. */
  ghost function Row(items: seq<Placement>, clearance: real, i: int): set<(int, int)> {
    set p | p in OverlapPairs(items, clearance) && p.0 == i :: p
  }

  lemma RowIsMet(items: seq<Placement>, cell: real, clearance: real, i: nat)
    requires cell > 0.0 && i < |items| && Covers(items, cell, clearance)
    ensures MetIn(items, clearance, i, Around(items, cell, CellOf(items[i], cell))) == Row(items, clearance, i)
  {
    var js := Around(items, cell, CellOf(items[i], cell));
    hide Around, CellOf, Overlaps, OverlapPairs;
    forall p | p in Row(items, clearance, i)
      ensures Listed(js, p.1)
    {
      PairsMembers(items, clearance, p);
      assert PairOverlaps(items, clearance, i, p.1);
    }
  }

  lemma NextRow(items: seq<Placement>, clearance: real, i: nat)
    requires i < |items|
    ensures |PairsBefore(items, clearance, i + 1, 0)| ==
      |PairsBefore(items, clearance, i, 0)| + |Row(items, clearance, i)|
  {
    forall p | p in OverlapPairs(items, clearance)
      ensures p.1 >= 0
    {
      PairsMembers(items, clearance, p);
    }
    hide OverlapPairs;
    assert PairsBefore(items, clearance, i + 1, 0) == PairsBefore(items, clearance, i, 0) + Row(items, clearance, i);
    assert PairsBefore(items, clearance, i, 0) !! Row(items, clearance, i);
  }

  lemma NoneBefore(items: seq<Placement>, clearance: real)
    ensures PairsBefore(items, clearance, 0, 0) == {}
  {
    forall p
      ensures p !in PairsBefore(items, clearance, 0, 0)
    {
      PairsMembers(items, clearance, p);
    }
  }

  lemma NextCard(items: seq<Placement>, cell: real, clearance: real, n: nat)
    requires cell > 0.0 && 0 < n <= |items|
    ensures var s := SweepTo(items, cell, clearance, n - 1);
      SweepTo(items, cell, clearance, n) == MeetAll(s, n - 1, Around(items, cell, CellOf(s.items[n - 1], cell)), clearance)
  {
    hide CellOf, MeetAll, Around;
  }

  lemma NoCard(items: seq<Placement>, cell: real, clearance: real)
    requires cell > 0.0
    ensures SweepTo(items, cell, clearance, 0) == Sweep(items, |PairsBefore(items, clearance, 0, 0)|)
  {
    NoneBefore(items, clearance);
    hide PairsBefore;
  }

  lemma {:induction false} PinnedSweep(items: seq<Placement>, cell: real, clearance: real, n: nat)
    requires cell > 0.0 && n <= |items| && Covers(items, cell, clearance) && OnlyPinsOverlap(items, clearance)
    ensures SweepTo(items, cell, clearance, n) == Sweep(items, |PairsBefore(items, clearance, n, 0)|)
  {
    hide *;
    if n == 0 {
      NoCard(items, cell, clearance);
    } else {
      var found := |PairsBefore(items, clearance, n - 1, 0)|;
      PinnedSweep(items, cell, clearance, n - 1);
      NextCard(items, cell, clearance, n);
      PinnedCard(items, cell, clearance, n - 1, found);
      NextRow(items, clearance, n - 1);
    }
  }

  lemma PinnedCard(items: seq<Placement>, cell: real, clearance: real, i: nat, found: nat)
    requires cell > 0.0 && i < |items| && Covers(items, cell, clearance) && OnlyPinsOverlap(items, clearance)
    ensures MeetAll(Sweep(items, found), i, Around(items, cell, CellOf(items[i], cell)), clearance)
            == Sweep(items, found + |Row(items, clearance, i)|)
  {
    StripesOnce(items, cell, CellOf(items[i], cell), 3);
    RowIsMet(items, cell, clearance, i);
    hide CellOf, MeetAll, MetIn, Row, Covers, OnlyPinsOverlap, Once, Stripes;
    PinnedMeets(Sweep(items, found), i, Around(items, cell, CellOf(items[i], cell)), clearance);
  }

  lemma {:induction false} PinnedPasses(items: seq<Placement>, clearance: real, n: nat)
    requires n > 0 && OnlyPinsOverlap(items, clearance)
    ensures Passes(items, Pitch(items, clearance), clearance, n) == Sweep(items, |OverlapPairs(items, clearance)|)
  {
    var cell := Pitch(items, clearance);
    PitchCovers(items, clearance);
    PinnedSweep(items, cell, clearance, |items|);
    assert PairsBefore(items, clearance, |items|, 0) == OverlapPairs(items, clearance);
    hide Pitch, SweepTo, OnlyPinsOverlap, PairsBefore, OverlapPairs, Covers;
    if n > 1 { PinnedPasses(items, clearance, n - 1); }
  }

  /** When whatever overlaps is pinned, in particular on a clear board and on one with every card pinned, nothing
    * moves and the result is exactly the number of pairs left.
    */
  lemma PinnedOverlapsAreCounted(items: seq<Placement>, clearance: real)
    requires OnlyPinsOverlap(items, clearance)
    ensures Separated(items, clearance) == Sweep(items, |OverlapPairs(items, clearance)|)
  {
    if |items| >= 2 {
      PinnedPasses(items, clearance, MAX_PASSES);
    } else {
      assert OverlapPairs(items, clearance) == {};
    }
  }

  /** The arrangement after `k` passes, were they all made. */
  function Moved(items: seq<Placement>, cell: real, clearance: real, k: nat): seq<Placement>
    requires cell > 0.0
    decreases k
  {
    if k == 0 then items else Moved(Pass(items, cell, clearance).items, cell, clearance, k - 1)
  }

  lemma PassIsQuietExactlyWhen(items: seq<Placement>, clearance: real)
    ensures Pass(items, Pitch(items, clearance), clearance).found == 0 <==> OverlapPairs(items, clearance) == {}
  {
    var cell := Pitch(items, clearance);
    if Pass(items, cell, clearance).found == 0 {
      QuietPassIsClear(items, clearance);
      ClearMeansNoPairs(items, clearance);
    }
    if OverlapPairs(items, clearance) == {} { NothingToSweep(items, cell, clearance, |items|); }
    hide SweepTo, OverlapPairs, ClearUpTo, Pitch;
  }

  /** Nothing overlaps after `k` passes. */
  ghost predicate ClearAfter(items: seq<Placement>, cell: real, clearance: real, k: nat)
    requires cell > 0.0
  {
    OverlapPairs(Moved(items, cell, clearance, k), clearance) == {}
  }

  ghost predicate ClearWithin(items: seq<Placement>, cell: real, clearance: real, n: nat)
    requires cell > 0.0
  {
    exists k: nat :: k < n && ClearAfter(items, cell, clearance, k)
  }

  lemma NextIsMoved(items: seq<Placement>, cell: real, clearance: real, k: nat)
    requires cell > 0.0
    ensures ClearAfter(items, cell, clearance, k + 1) <==> ClearAfter(Pass(items, cell, clearance).items, cell, clearance, k)
    ensures ClearAfter(items, cell, clearance, 0) <==> OverlapPairs(items, clearance) == {}
  {
    hide Pass, OverlapPairs;
  }

  /** The first clear arrangement is either the present one or one that the next pass leads to. */
  lemma ClearNowOrLater(items: seq<Placement>, cell: real, clearance: real, n: nat)
    requires cell > 0.0 && n > 0
    ensures ClearWithin(items, cell, clearance, n) <==>
      OverlapPairs(items, clearance) == {} || ClearWithin(Pass(items, cell, clearance).items, cell, clearance, n - 1)
  {
    var next := Pass(items, cell, clearance).items;
    NextIsMoved(items, cell, clearance, 0);
    hide OverlapPairs, Pass, ClearAfter;
    if ClearWithin(items, cell, clearance, n) {
      var k: nat :| k < n && ClearAfter(items, cell, clearance, k);
      if k > 0 {
        NextIsMoved(items, cell, clearance, k - 1);
        assert ClearAfter(next, cell, clearance, k - 1);
      }
    }
    if ClearWithin(next, cell, clearance, n - 1) {
      var k: nat :| k < n - 1 && ClearAfter(next, cell, clearance, k);
      NextIsMoved(items, cell, clearance, k);
      assert ClearAfter(items, cell, clearance, k + 1);
    }
    if OverlapPairs(items, clearance) == {} { assert ClearAfter(items, cell, clearance, 0); }
  }

  lemma NotWithinNone(items: seq<Placement>, cell: real, clearance: real)
    requires cell > 0.0
    ensures !ClearWithin(items, cell, clearance, 0)
  {
  }

  /** One pass of the loop, and what its found count says. */
  lemma NextPass(items: seq<Placement>, clearance: real, cell: real, n: nat)
    requires n > 0 && cell == Pitch(items, clearance)
    ensures var s := Pass(items, cell, clearance);
      && Passes(items, cell, clearance, n) == (if s.found == 0 || n == 1 then s else Passes(s.items, cell, clearance, n - 1))
      && (s.found == 0 <==> OverlapPairs(items, clearance) == {})
      && cell == Pitch(s.items, clearance)
  {
    var s := Pass(items, cell, clearance);
    SweepKeeps(items, cell, clearance, |items|);
    PassIsQuietExactlyWhen(items, clearance);
    PitchIsFixed(items, s.items, clearance);
    hide Pitch, SweepTo, OverlapPairs, SameCards, Pass;
  }

  lemma {:induction false} PassesReachZeroExactlyWhen(items: seq<Placement>, clearance: real, cell: real, n: nat)
    requires n > 0 && cell == Pitch(items, clearance)
    ensures Passes(items, cell, clearance, n).found == 0 <==> ClearWithin(items, cell, clearance, n)
    decreases n
  {
    hide *;
    var s := Pass(items, cell, clearance);
    NextPass(items, clearance, cell, n);
    ClearNowOrLater(items, cell, clearance, n);
    if n > 1 {
      PassesReachZeroExactlyWhen(s.items, clearance, cell, n - 1);
    } else {
      NotWithinNone(s.items, cell, clearance);
    }
  }

  /** The result is 0 exactly when one of the sixty-four passes begins with nothing to do. */
  lemma ZeroExactlyWhen(items: seq<Placement>, clearance: real)
    requires |items| >= 2
    ensures Separated(items, clearance).found == 0 <==>
      exists k: nat :: k < 64 && ClearAfter(items, Pitch(items, clearance), clearance, k)
  {
    PassesReachZeroExactlyWhen(items, clearance, Pitch(items, clearance), MAX_PASSES);
    hide Pitch, Passes, ClearAfter;
  }

  // ---------------------------------------------------------------- two cards are always counted, three are not

  lemma {:induction false} TwoMeet(s: Sweep, js: seq<nat>, clearance: real)
    requires |s.items| == 2 && !(s.items[0].pinned && s.items[1].pinned)
    ensures var r := MeetAll(s, 0, js, clearance);
      && !(r.items[0].pinned && r.items[1].pinned)
      && (1 in js ==> !Overlaps(r.items[0], r.items[1], clearance))
    decreases |js|
  {
    if js != [] {
      var front, j := js[..|js| - 1], js[|js| - 1];
      assert js == front + [j];
      TwoMeet(s, front, clearance);
      var r := MeetAll(s, 0, front, clearance);
      if j == 1 && Overlaps(r.items[0], r.items[1], clearance) {
        PushClears(r.items[0], r.items[1], clearance);
      }
      hide Overlaps;
    }
  }

  lemma {:induction false} LastMeetsNobody(s: Sweep, js: seq<nat>, clearance: real)
    requires |s.items| == 2
    ensures MeetAll(s, 1, js, clearance) == s
    decreases |js|
  {
    if js != [] { LastMeetsNobody(s, js[..|js| - 1], clearance); }
  }

  lemma TwoCardsPass(items: seq<Placement>, clearance: real)
    requires |items| == 2 && PairOverlaps(items, clearance, 0, 1) && !(items[0].pinned && items[1].pinned)
    ensures OverlapPairs(Pass(items, Pitch(items, clearance), clearance).items, clearance) == {}
  {
    var cell := Pitch(items, clearance);
    PitchCovers(items, clearance);
    var js := Around(items, cell, CellOf(items[0], cell));
    assert 1 in js;
    TwoMeet(Sweep(items, 0), js, clearance);
    hide Pitch, Around, CellOf, Overlaps, PairOverlaps, Covers;
    assert SweepTo(items, cell, clearance, 0) == Sweep(items, 0);
    var s1 := SweepTo(items, cell, clearance, 1);
    assert s1 == MeetAll(Sweep(items, 0), 0, js, clearance);
    LastMeetsNobody(s1, Around(items, cell, CellOf(s1.items[1], cell)), clearance);
    assert Pass(items, cell, clearance) == s1;
    hide SweepTo, MeetAll;
    forall p
      ensures p !in OverlapPairs(s1.items, clearance)
    {
      PairsMembers(s1.items, clearance, p);
      OnlyPair(s1.items, clearance, p.0, p.1);
    }
  }

  lemma OnlyPair(items: seq<Placement>, clearance: real, i: int, j: int)
    requires |items| == 2 && !Overlaps(items[0], items[1], clearance)
    ensures !PairOverlaps(items, clearance, i, j)
  {
  }

  lemma TwoFreeCardsEndClear(items: seq<Placement>, clearance: real)
    requires |items| == 2 && PairOverlaps(items, clearance, 0, 1) && !(items[0].pinned && items[1].pinned)
    ensures Separated(items, clearance).found == 0
  {
    var cell := Pitch(items, clearance);
    TwoCardsPass(items, clearance);
    NextIsMoved(items, cell, clearance, 0);
    NextIsMoved(Pass(items, cell, clearance).items, cell, clearance, 0);
    hide Pass, OverlapPairs, Pitch, PairOverlaps, ClearAfter, Separated;
    assert ClearAfter(items, cell, clearance, 1);
    ZeroExactlyWhen(items, clearance);
  }

  lemma OtherwisePinned(items: seq<Placement>, clearance: real)
    requires |items| <= 2
    requires |items| == 2 && PairOverlaps(items, clearance, 0, 1) ==> items[0].pinned && items[1].pinned
    ensures OnlyPinsOverlap(items, clearance)
  {
    hide Overlaps;
  }

  /** The result is the number of pairs that the separated arrangement still has. */
  ghost predicate Counted(items: seq<Placement>, clearance: real) {
    var s := Separated(items, clearance);
    s.found == |OverlapPairs(s.items, clearance)|
  }

  /** With up to two cards the result is always the number of pairs left. */
  lemma TwoCardsAreCounted(items: seq<Placement>, clearance: real)
    requires |items| <= 2
    ensures Counted(items, clearance)
  {
    if |items| == 2 && PairOverlaps(items, clearance, 0, 1) && !(items[0].pinned && items[1].pinned) {
      hide Separated, OverlapPairs, PairOverlaps;
      TwoFreeCardsEndClear(items, clearance);
      ZeroMeansClear(items, clearance);
    } else {
      OtherwisePinned(items, clearance);
      hide Separated, OverlapPairs, PairOverlaps, OnlyPinsOverlap;
      PinnedOverlapsAreCounted(items, clearance);
    }
  }
}
