/** How far cards are moved: along the cheaper axis, away from each other, and no further than the overlap asks. */
module Pushes {
  import opened Overlap
  import opened Remaining

  /** `a` and `b` become `a'` and `b'` along x only, moving apart, two units beyond the clearance. */
  ghost predicate PartsAlongX(a: Placement, b: Placement, a': Placement, b': Placement, clearance: real) {
    && a' == a.(x := a'.x) && b' == b.(x := b'.x)
    && OverlapX(a', b', clearance) == -2.0
    && (if a.Cx() <= b.Cx() then a'.x <= a.x && b.x <= b'.x else a.x <= a'.x && b'.x <= b.x)
    && Shares(a, b, Abs(a'.x - a.x), Abs(b'.x - b.x), OverlapX(a, b, clearance) + 2.0)
  }

  ghost predicate PartsAlongY(a: Placement, b: Placement, a': Placement, b': Placement, clearance: real) {
    && a' == a.(y := a'.y) && b' == b.(y := b'.y)
    && OverlapY(a', b', clearance) == -2.0
    && (if a.Cy() <= b.Cy() then a'.y <= a.y && b.y <= b'.y else a.y <= a'.y && b'.y <= b.y)
    && Shares(a, b, Abs(a'.y - a.y), Abs(b'.y - b.y), OverlapY(a, b, clearance) + 2.0)
  }

  /** The way is shared evenly, unless one card is pinned and leaves it to the other. */
  ghost predicate Shares(a: Placement, b: Placement, forA: real, forB: real, way: real) {
    && (!a.pinned && !b.pinned ==> forA == forB == way / 2.0)
    && (a.pinned && !b.pinned ==> forA == 0.0 && forB == way)
    && (!a.pinned && b.pinned ==> forA == way && forB == 0.0)
  }

  /** The pair parts along the axis on which it overlaps less; on a tie, along x. */
  ghost predicate Parts(a: Placement, b: Placement, a': Placement, b': Placement, clearance: real) {
    if OverlapX(a, b, clearance) <= OverlapY(a, b, clearance) then PartsAlongX(a, b, a', b', clearance)
    else PartsAlongY(a, b, a', b', clearance)
  }

  lemma PushParts(a: Placement, b: Placement, clearance: real)
    requires Overlaps(a, b, clearance) && !(a.pinned && b.pinned)
    ensures var (a', b') := Pushed(a, b, clearance); Parts(a, b, a', b', clearance)
  {
  }

  /** There is only one way to part. */
  lemma PartsOneWay(a: Placement, b: Placement, p: Placement, q: Placement, p': Placement, q': Placement, clearance: real)
    requires Parts(a, b, p, q, clearance) && Parts(a, b, p', q', clearance) && !(a.pinned && b.pinned)
    requires Overlaps(a, b, clearance)
    ensures p == p' && q == q'
  {
  }

  // ---------------------------------------------------------------- two cards

  lemma {:induction false} TwoMeetOnce(s: Sweep, js: seq<nat>, clearance: real)
    requires |s.items| == 2 && Overlaps(s.items[0], s.items[1], clearance)
    requires !(s.items[0].pinned && s.items[1].pinned)
    ensures var (a, b) := Pushed(s.items[0], s.items[1], clearance);
      MeetAll(s, 0, js, clearance) == if 1 in js then Sweep([a, b], s.found + 1) else s
    decreases |js|
  {
    if js != [] {
      var front, j := js[..|js| - 1], js[|js| - 1];
      assert js == front + [j];
      TwoMeetOnce(s, front, clearance);
      PushClears(s.items[0], s.items[1], clearance);
      var (a, b) := Pushed(s.items[0], s.items[1], clearance);
      hide Overlaps, Pushed;
      assert s.items[0 := a][1 := b] == [a, b];
    }
  }

  lemma FirstPassParts(items: seq<Placement>, clearance: real)
    requires |items| == 2 && Overlaps(items[0], items[1], clearance) && !(items[0].pinned && items[1].pinned)
    ensures var (a, b) := Pushed(items[0], items[1], clearance);
      Pass(items, Pitch(items, clearance), clearance) == Sweep([a, b], 1)
  {
    hide Pitch, CellOf, Around, Overlaps, Pushed, Covers, MeetAll;
    var cell := Pitch(items, clearance);
    assert PairOverlaps(items, clearance, 0, 1);
    LooksAtOther(items, clearance);
    var js := Around(items, cell, CellOf(items[0], cell));
    TwoMeetOnce(Sweep(items, 0), js, clearance);
    assert SweepTo(items, cell, clearance, 0) == Sweep(items, 0);
    var s1 := SweepTo(items, cell, clearance, 1);
    LastMeetsNobody(s1, Around(items, cell, CellOf(s1.items[1], cell)), clearance);
  }

  lemma LooksAtOther(items: seq<Placement>, clearance: real)
    requires |items| == 2 && PairOverlaps(items, clearance, 0, 1)
    ensures var cell := Pitch(items, clearance); 1 in Around(items, cell, CellOf(items[0], cell))
  {
    PitchCovers(items, clearance);
    hide Pitch, CellOf, Overlaps, Around;
  }

  lemma ClearPass(items: seq<Placement>, cell: real, clearance: real)
    requires cell > 0.0 && OverlapPairs(items, clearance) == {}
    ensures Pass(items, cell, clearance) == Sweep(items, 0)
  {
    NothingToSweep(items, cell, clearance, |items|);
    hide SweepTo, OverlapPairs;
  }

  /** Two overlapping cards that are not both pinned are separated by the one push they need, and no more. */
  lemma TwoCardsPart(items: seq<Placement>, clearance: real)
    requires |items| == 2 && Overlaps(items[0], items[1], clearance) && !(items[0].pinned && items[1].pinned)
    ensures var s := Separated(items, clearance);
      s.found == 0 && Parts(items[0], items[1], s.items[0], s.items[1], clearance)
  {
    var (a, b) := Pushed(items[0], items[1], clearance);
    var cell := Pitch(items, clearance);
    FirstPassParts(items, clearance);
    PushParts(items[0], items[1], clearance);
    PushClears(items[0], items[1], clearance);
    hide Overlaps, Pushed, Pitch, Pass, Parts;
    OnlyPairs([a, b], clearance);
    ClearPass([a, b], cell, clearance);
    PassesTwice(items, cell, clearance);
  }

  lemma OnlyPairs(items: seq<Placement>, clearance: real)
    requires |items| == 2 && !Overlaps(items[0], items[1], clearance)
    ensures OverlapPairs(items, clearance) == {}
  {
    hide Overlaps;
  }

  lemma PassesTwice(items: seq<Placement>, cell: real, clearance: real)
    requires cell > 0.0 && Pass(items, cell, clearance).found != 0
    ensures var s := Pass(items, cell, clearance);
      Pass(s.items, cell, clearance).found == 0 ==> Passes(items, cell, clearance, MAX_PASSES) == Pass(s.items, cell, clearance)
  {
    hide Pass;
  }

  /** Together the two cards are moved by exactly the lesser overlap and two units. */
  lemma PartingDistance(a: Placement, b: Placement, a': Placement, b': Placement, clearance: real)
    requires Parts(a, b, a', b', clearance) && !(a.pinned && b.pinned) && Overlaps(a, b, clearance)
    ensures var dx, dy := OverlapX(a, b, clearance), OverlapY(a, b, clearance);
      Abs(a'.x - a.x) + Abs(a'.y - a.y) + Abs(b'.x - b.x) + Abs(b'.y - b.y) == (if dx <= dy then dx else dy) + 2.0
  {
  }

  // ---------------------------------------------------------------- whom a card meets, in which order

  /** The card's cell touches the cell or is it. */
  predicate Nearby(items: seq<Placement>, cell: real, key: Cell, j: nat)
    requires cell > 0.0
  {
    j < |items| &&
    var at := CellOf(items[j], cell);
    -1 <= at.0 - key.0 <= 1 && -1 <= at.1 - key.1 <= 1
  }

  /** Column by column, in a column row by row, in a cell by position. */
  predicate Sooner(items: seq<Placement>, cell: real, i: nat, j: nat)
    requires cell > 0.0 && i < |items| && j < |items|
  {
    var a, b := CellOf(items[i], cell), CellOf(items[j], cell);
    a.0 < b.0 || (a.0 == b.0 && (a.1 < b.1 || (a.1 == b.1 && i < j)))
  }

  ghost predicate Ordered(items: seq<Placement>, cell: real, js: seq<nat>)
    requires cell > 0.0
  {
    && (forall a :: 0 <= a < |js| ==> js[a] < |items|)
    && forall a, b :: 0 <= a < b < |js| ==> Sooner(items, cell, js[a], js[b])
  }

  lemma {:induction false} BucketIsExact(items: seq<Placement>, cell: real, key: Cell, n: nat)
    requires cell > 0.0 && n <= |items|
    ensures forall j: nat :: j in Bucket(items, cell, key, n) <==> j < n && CellOf(items[j], cell) == key
    ensures Ordered(items, cell, Bucket(items, cell, key, n))
  {
    hide CellOf;
    if n > 0 { BucketIsExact(items, cell, key, n - 1); }
  }

  /** Two ordered lists, everything in the one before everything in the other. */
  lemma OrderedConcat(items: seq<Placement>, cell: real, a: seq<nat>, b: seq<nat>)
    requires cell > 0.0 && Ordered(items, cell, a) && Ordered(items, cell, b)
    requires forall i, j :: i in a && j in b ==> i < |items| && j < |items| && Sooner(items, cell, i, j)
    ensures Ordered(items, cell, a + b)
  {
    hide Sooner;
    var all := a + b;
    forall i, j | 0 <= i < j < |all|
      ensures all[i] < |items| && all[j] < |items| && Sooner(items, cell, all[i], all[j])
    {
      if i < |a| <= j { assert all[i] in a && all[j] in b; }
    }
    forall i | 0 <= i < |all|
      ensures all[i] < |items|
    {
      if i >= |a| { assert all[i] == b[i - |a|]; }
    }
  }

  lemma {:induction false} StripeIsExact(items: seq<Placement>, cell: real, x: int, y: int, k: nat)
    requires cell > 0.0
    ensures forall j: nat :: j in Stripe(items, cell, x, y, k) <==>
      j < |items| && CellOf(items[j], cell).0 == x && y - 1 <= CellOf(items[j], cell).1 < y - 1 + k
    ensures Ordered(items, cell, Stripe(items, cell, x, y, k))
  {
    hide CellOf, Bucket;
    if k > 0 {
      StripeIsExact(items, cell, x, y, k - 1);
      BucketIsExact(items, cell, (x, y - 2 + k), |items|);
      OrderedConcat(items, cell, Stripe(items, cell, x, y, k - 1), Bucket(items, cell, (x, y - 2 + k), |items|));
      hide Ordered;
    }
  }

  lemma {:induction false} StripesAreExact(items: seq<Placement>, cell: real, key: Cell, k: nat)
    requires cell > 0.0
    ensures forall j: nat :: j in Stripes(items, cell, key, k) <==>
      j < |items| && key.0 - 1 <= CellOf(items[j], cell).0 < key.0 - 1 + k && -1 <= CellOf(items[j], cell).1 - key.1 <= 1
    ensures Ordered(items, cell, Stripes(items, cell, key, k))
  {
    hide CellOf, Stripe;
    if k > 0 {
      StripesAreExact(items, cell, key, k - 1);
      StripeIsExact(items, cell, key.0 - 2 + k, key.1, 3);
      OrderedConcat(items, cell, Stripes(items, cell, key, k - 1), Stripe(items, cell, key.0 - 2 + k, key.1, 3));
      hide Ordered;
    }
  }

  /** A card looks at exactly the cards in the nine cells around it, column by column, in a column row by row. */
  lemma AroundIsExact(items: seq<Placement>, cell: real, key: Cell)
    requires cell > 0.0
    ensures forall j: nat :: j in Around(items, cell, key) <==> Nearby(items, cell, key, j)
    ensures Ordered(items, cell, Around(items, cell, key))
  {
    StripesAreExact(items, cell, key, 3);
    hide CellOf, Stripes, Ordered;
  }
}
