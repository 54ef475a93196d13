/** An arrangement that the separation pass never settles: a card between two pinned ones that are too close, and any
  * number of cards far away. Every pass pushes the card off the first onto the second, and back.
  */
module Squeeze {
  import opened Overlap
  import opened Remaining

  function Left(): Placement {
    Placement("left", 0.0, 0.0, 10.0, 10.0, true)
  }

  function Right(c: real): Placement {
    Placement("right", 13.0 + c, 0.0, 10.0, 10.0, true)
  }

  function Between(x: real): Placement {
    Placement("between", x, 0.0, 10.0, 10.0, false)
  }

  /** The side of a grid cell at clearance `c`. */
  function Side(c: real): real {
    10.0 + c
  }

  function Far(c: real, i: nat): Placement {
    Placement(FarId(i), (100 * (i + 1)) as real * Side(c), 0.0, 10.0, 10.0, false)
  }

  /** Names longer than the other three, all different. */
  function FarId(i: nat): (id: string)
    ensures |id| == 10 + i
  {
    seq(10 + i, _ => 'x')
  }

  function Squeezed(c: real, x: real, k: nat): (items: seq<Placement>)
    ensures |items| == 3 + k && items[0] == Left() && items[1] == Right(c) && items[2] == Between(x)
    ensures forall i :: 3 <= i < 3 + k ==> items[i] == Far(c, i - 3)
  {
    [Left(), Right(c), Between(x)] + seq(k, i requires 0 <= i => Far(c, i))
  }

  // ---------------------------------------------------------------- the grid

  lemma {:induction false} EqualCards(items: seq<Placement>, c: real)
    requires c >= 0.0 && forall p :: p in items ==> p.w == 10.0 && p.h == 10.0
    ensures CellSize(items, c) == if items == [] then 0.0 else Side(c)
  {
    if items != [] {
      var front, last := items[..|items| - 1], items[|items| - 1];
      assert items == front + [last];
      EqualCards(front, c);
      assert last in items;
    }
  }

  lemma SqueezedPitch(c: real, x: real, k: nat)
    requires c >= 0.0
    ensures Pitch(Squeezed(c, x, k), c) == Side(c)
  {
    var items := Squeezed(c, x, k);
    forall p | p in items
      ensures p.w == 10.0 && p.h == 10.0
    {
      var i :| 0 <= i < |items| && items[i] == p;
      assert i < 3 || items[i] == Far(c, i - 3);
    }
    hide Squeezed, CellSize;
    EqualCards(items, c);
  }

  lemma ScaledInOrder(a: real, b: real, cell: real)
    requires cell > 0.0
    ensures a * cell < b * cell <==> a < b
  {
    assert b * cell - a * cell == (b - a) * cell;
    if a < b { assert (b - a) * cell > 0.0; }
    if b <= a { assert (a - b) * cell >= 0.0; }
  }

  /** A coordinate `part` into the n-th cell. */
  lemma FloorAt(n: int, part: real, cell: real)
    requires 0.0 <= part < cell
    ensures ((n as real * cell + part) / cell).Floor == n
  {
    var q := (n as real * cell + part) / cell;
    assert q * cell == n as real * cell + part;
    ScaledInOrder(q, n as real, cell);
    ScaledInOrder(q, n as real + 1.0, cell);
    assert (n as real + 1.0) * cell == n as real * cell + cell;
  }

  lemma NearCells(c: real)
    requires c >= 0.0
    ensures CellOf(Left(), Side(c)) == (0, 0) && CellOf(Right(c), Side(c)) == (1, 0) && CellOf(Between(1.0), Side(c)) == (0, 0)
  {
    var cell := Side(c);
    FloorAt(0, 5.0, cell);
    FloorAt(0, 6.0, cell);
    FloorAt(1, 8.0, cell);
    assert Right(c).Cx() == 1 as real * cell + 8.0;
  }

  lemma FarCell(c: real, i: nat)
    requires c >= 0.0
    ensures CellOf(Far(c, i), Side(c)).0 == 100 * (i + 1)
  {
    FloorAt(100 * (i + 1), 5.0, Side(c));
    assert Far(c, i).Cx() == (100 * (i + 1)) as real * Side(c) + 5.0;
    hide Side;
  }

  lemma NextInBucket(items: seq<Placement>, cell: real, key: Cell, n: nat)
    requires cell > 0.0 && 0 < n <= |items|
    ensures Bucket(items, cell, key, n) ==
      Bucket(items, cell, key, n - 1) + if CellOf(items[n - 1], cell) == key then [n - 1] else []
    ensures Bucket(items, cell, key, 0) == []
  {
    hide CellOf;
  }

  /** The near cards of a cell: the left one and the one between in the first, the right one in the second. */
  function NearIn(column: int, row: int): seq<nat> {
    if row != 0 then [] else if column == 0 then [0, 2] else if column == 1 then [1] else []
  }

  lemma FirstThree(c: real, k: nat, key: Cell)
    requires c >= 0.0
    ensures Bucket(Squeezed(c, 1.0, k), Side(c), key, 3) == NearIn(key.0, key.1)
  {
    var items := Squeezed(c, 1.0, k);
    assert items[0] == Left() && items[1] == Right(c) && items[2] == Between(1.0) && Side(c) > 0.0;
    NearCells(c);
    hide Squeezed, CellOf, Left, Right, Between, Bucket, Side;
    NextInBucket(items, Side(c), key, 1);
    NextInBucket(items, Side(c), key, 2);
    NextInBucket(items, Side(c), key, 3);
  }

  lemma {:induction false} SqueezedBucket(c: real, k: nat, key: Cell, n: nat)
    requires c >= 0.0 && key.0 < 100 && 3 <= n <= 3 + k
    ensures Bucket(Squeezed(c, 1.0, k), Side(c), key, n) == NearIn(key.0, key.1)
  {
    assert Side(c) > 0.0;
    hide *;
    if n == 3 {
      FirstThree(c, k, key);
    } else {
      SqueezedBucket(c, k, key, n - 1);
      FarCell(c, n - 4);
      assert Squeezed(c, 1.0, k)[n - 1] == Far(c, n - 4);
      NextInBucket(Squeezed(c, 1.0, k), Side(c), key, n);
    }
  }

  lemma ThreeBuckets(items: seq<Placement>, cell: real, x: int, y: int)
    requires cell > 0.0
    ensures Stripe(items, cell, x, y, 3) == Bucket(items, cell, (x, y - 1), |items|) + Bucket(items, cell, (x, y), |items|)
                                            + Bucket(items, cell, (x, y + 1), |items|)
  {
    hide Bucket;
    assert Stripe(items, cell, x, y, 0) == [];
    assert Stripe(items, cell, x, y, 1) == Bucket(items, cell, (x, y - 1), |items|);
    assert Stripe(items, cell, x, y, 2) == Bucket(items, cell, (x, y - 1), |items|) + Bucket(items, cell, (x, y), |items|);
  }

  lemma SqueezedStripe(c: real, k: nat, x: int)
    requires c >= 0.0 && x < 100
    ensures Stripe(Squeezed(c, 1.0, k), Side(c), x, 0, 3) == NearIn(x, 0)
  {
    var items := Squeezed(c, 1.0, k);
    assert Side(c) > 0.0 && NearIn(x, -1) == NearIn(x, 1) == [];
    hide *;
    SqueezedBucket(c, k, (x, -1), 3 + k);
    SqueezedBucket(c, k, (x, 0), 3 + k);
    SqueezedBucket(c, k, (x, 1), 3 + k);
    ThreeBuckets(items, Side(c), x, 0);
  }

  lemma ThreeStripes(items: seq<Placement>, cell: real, key: Cell)
    requires cell > 0.0
    ensures Around(items, cell, key) == Stripe(items, cell, key.0 - 1, key.1, 3) + Stripe(items, cell, key.0, key.1, 3)
                                        + Stripe(items, cell, key.0 + 1, key.1, 3)
  {
    hide Stripe;
    assert Stripes(items, cell, key, 0) == [];
    assert Stripes(items, cell, key, 1) == Stripe(items, cell, key.0 - 1, key.1, 3);
    assert Stripes(items, cell, key, 2) == Stripe(items, cell, key.0 - 1, key.1, 3) + Stripe(items, cell, key.0, key.1, 3);
  }

  /** Either pinned card looks at all three. */
  lemma SqueezedAround(c: real, k: nat, column: int)
    requires c >= 0.0 && (column == 0 || column == 1)
    ensures Around(Squeezed(c, 1.0, k), Side(c), (column, 0)) == [0, 2, 1]
  {
    assert Side(c) > 0.0;
    hide Squeezed, Side, Stripe, Around;
    SqueezedStripe(c, k, column - 1);
    SqueezedStripe(c, k, column);
    SqueezedStripe(c, k, column + 1);
    ThreeStripes(Squeezed(c, 1.0, k), Side(c), (column, 0));
  }

  // ---------------------------------------------------------------- one pass

  lemma MeetThree(s: Sweep, i: nat, c: real)
    requires i < |s.items|
    ensures MeetAll(s, i, [0, 2, 1], c) == Meet(Meet(Meet(s, i, 0, c), i, 2, c), i, 1, c)
  {
    assert [0, 2, 1][..2] == [0, 2] && [0, 2][..1] == [0] && [0][..0] == [];
    hide Meet;
    assert MeetAll(s, i, [], c) == s;
    assert MeetAll(s, i, [0], c) == Meet(s, i, 0, c);
    assert MeetAll(s, i, [0, 2], c) == Meet(Meet(s, i, 0, c), i, 2, c);
  }

  /** What the three near cards do to each other. */
  lemma NearPushes(c: real)
    requires c >= 0.0
    ensures Overlaps(Left(), Between(1.0), c) && Overlaps(Right(c), Between(12.0 + c), c)
    ensures !Overlaps(Left(), Right(c), c) && !Overlaps(Right(c), Between(1.0), c)
    ensures Pushed(Left(), Between(1.0), c) == (Left(), Between(12.0 + c))
    ensures Pushed(Right(c), Between(12.0 + c), c) == (Right(c), Between(1.0))
  {
  }

  lemma MeetOverlapping(s: Sweep, i: nat, j: nat, c: real)
    requires i < j < |s.items| && Overlaps(s.items[i], s.items[j], c)
    ensures var (a, b) := Pushed(s.items[i], s.items[j], c); Meet(s, i, j, c) == Sweep(s.items[i := a][j := b], s.found + 1)
  {
    hide Pushed, Overlaps;
  }

  lemma MeetClear(s: Sweep, i: nat, j: nat, c: real)
    requires i < |s.items| && (j <= i || j >= |s.items| || !Overlaps(s.items[i], s.items[j], c))
    ensures Meet(s, i, j, c) == s
  {
    hide Pushed, Overlaps;
  }

  lemma MovedBetween(c: real, x: real, y: real, k: nat, i: nat)
    requires i < 2
    ensures var items := Squeezed(c, x, k); items[i := items[i]][2 := Between(y)] == Squeezed(c, y, k)
  {
    var items, moved := Squeezed(c, x, k), Squeezed(c, y, k);
    hide Squeezed, Far;
    forall n | 0 <= n < 3 + k
      ensures items[i := items[i]][2 := Between(y)][n] == moved[n]
    {
    }
  }

  /** The first scan pushes the card off the left one. */
  lemma OffTheLeft(c: real, k: nat)
    requires c >= 0.0
    ensures MeetAll(Sweep(Squeezed(c, 1.0, k), 0), 0, [0, 2, 1], c) == Sweep(Squeezed(c, 12.0 + c, k), 1)
  {
    var s, s' := Sweep(Squeezed(c, 1.0, k), 0), Sweep(Squeezed(c, 12.0 + c, k), 1);
    MeetThree(s, 0, c);
    NearPushes(c);
    hide *;
    MeetClear(s, 0, 0, c);
    MeetOverlapping(s, 0, 2, c);
    MovedBetween(c, 1.0, 12.0 + c, k, 0);
    MeetClear(s', 0, 1, c);
  }

  /** The second one pushes it off the right one. */
  lemma OffTheRight(c: real, k: nat)
    requires c >= 0.0
    ensures MeetAll(Sweep(Squeezed(c, 12.0 + c, k), 1), 1, [0, 2, 1], c) == Sweep(Squeezed(c, 1.0, k), 2)
  {
    var s, s' := Sweep(Squeezed(c, 12.0 + c, k), 1), Sweep(Squeezed(c, 1.0, k), 2);
    MeetThree(s, 1, c);
    NearPushes(c);
    hide *;
    MeetClear(s, 1, 0, c);
    MeetOverlapping(s, 1, 2, c);
    MovedBetween(c, 12.0 + c, 1.0, k, 1);
    MeetClear(s', 1, 1, c);
  }

  lemma FarApart(c: real, i: nat, j: nat)
    requires c >= 0.0 && i < j
    ensures Far(c, j).x - Far(c, i).x >= 100.0 * Side(c) && Far(c, i).x >= 100.0 * Side(c)
  {
    var a, b := (100 * (i + 1)) as real, (100 * (j + 1)) as real;
    assert a >= 100.0 && b - a >= 100.0;
    assert (a - 100.0) * Side(c) >= 0.0;
    assert (b - a - 100.0) * Side(c) >= 0.0;
  }

  /** Cards whose centres are a side or more apart do not overlap. */
  lemma ApartIsClear(p: Placement, q: Placement, c: real)
    requires p.w == 10.0 && q.w == 10.0 && q.x - p.x >= Side(c)
    ensures !Overlaps(p, q, c)
  {
  }

  lemma FarIsClear(c: real, x: real, k: nat, i: nat, j: nat)
    requires c >= 0.0 && 0.0 <= x <= 1.0 && i < j < 3 + k && j >= 3
    ensures !Overlaps(Squeezed(c, x, k)[i], Squeezed(c, x, k)[j], c)
  {
    var items := Squeezed(c, x, k);
    assert items[j] == Far(c, j - 3) && (i < 3 || items[i] == Far(c, i - 3));
    hide Squeezed, Overlaps;
    FarApart(c, if i < 3 then j - 3 else i - 3, if i < 3 then j - 2 else j - 3);
    assert items[j].x - items[i].x >= Side(c);
    ApartIsClear(items[i], items[j], c);
  }

  lemma FirstTwoCards(c: real, k: nat)
    requires c >= 0.0
    ensures SweepTo(Squeezed(c, 1.0, k), Side(c), c, 2) == Sweep(Squeezed(c, 1.0, k), 2)
  {
    var items, s := Squeezed(c, 1.0, k), Sweep(Squeezed(c, 12.0 + c, k), 1);
    assert Side(c) > 0.0 && items[0] == Left() && s.items[1] == Right(c);
    assert SweepTo(items, Side(c), c, 0) == Sweep(items, 0);
    hide *;
    NearCells(c);
    SqueezedAround(c, k, 0);
    SqueezedAround(c, k, 1);
    OffTheLeft(c, k);
    OffTheRight(c, k);
    NextCard(items, Side(c), c, 1);
    NextCard(items, Side(c), c, 2);
  }

  /** The card itself and the far ones meet nobody. */
  lemma MeetsNobody(c: real, k: nat, i: nat, js: seq<nat>)
    requires c >= 0.0 && 2 <= i < 3 + k
    ensures MeetAll(Sweep(Squeezed(c, 1.0, k), 2), i, js, c) == Sweep(Squeezed(c, 1.0, k), 2)
  {
    var items := Squeezed(c, 1.0, k);
    hide Squeezed, Overlaps, MeetAll;
    forall j {:trigger PairOverlaps(items, c, i, j)}
      ensures !PairOverlaps(items, c, i, j)
    {
      if i < j < 3 + k { FarIsClear(c, 1.0, k, i, j); }
    }
    NothingToMeet(Sweep(items, 2), i, js, c);
  }

  lemma {:induction false} SqueezedSweep(c: real, k: nat, n: nat)
    requires c >= 0.0 && 2 <= n <= 3 + k
    ensures SweepTo(Squeezed(c, 1.0, k), Side(c), c, n) == Sweep(Squeezed(c, 1.0, k), 2)
  {
    var items := Squeezed(c, 1.0, k);
    assert Side(c) > 0.0;
    hide *;
    if n == 2 {
      FirstTwoCards(c, k);
    } else {
      SqueezedSweep(c, k, n - 1);
      NextCard(items, Side(c), c, n);
      MeetsNobody(c, k, n - 1, Around(items, Side(c), CellOf(items[n - 1], Side(c))));
    }
  }

  /** A pass that changes nothing but finds something is made over and over. */
  lemma {:induction false} SamePasses(items: seq<Placement>, cell: real, c: real, n: nat)
    requires cell > 0.0 && n > 0 && Pass(items, cell, c).items == items
    ensures Passes(items, cell, c, n) == Pass(items, cell, c)
  {
    hide Pass;
    if n > 1 { SamePasses(items, cell, c, n - 1); }
  }

  // ---------------------------------------------------------------- what is returned, and what is left

  /** The card between is on the left one only. */
  lemma NearOverlap(c: real, x: real)
    requires c >= 0.0 && 0.0 <= x <= 1.0
    ensures Overlaps(Left(), Between(x), c) && !Overlaps(Left(), Right(c), c) && !Overlaps(Right(c), Between(x), c)
  {
  }

  lemma SqueezedPair(c: real, x: real, k: nat, i: int, j: int)
    requires c >= 0.0 && 0.0 <= x <= 1.0
    ensures PairOverlaps(Squeezed(c, x, k), c, i, j) <==> i == 0 && j == 2
  {
    NearOverlap(c, x);
    hide Overlaps, Squeezed, Left, Right, Between;
    if 0 <= i < j < 3 + k && j >= 3 { FarIsClear(c, x, k, i, j); }
  }

  lemma SqueezedPairs(c: real, x: real, k: nat)
    requires c >= 0.0 && 0.0 <= x <= 1.0
    ensures OverlapPairs(Squeezed(c, x, k), c) == {(0, 2)}
  {
    var items := Squeezed(c, x, k);
    hide Overlaps, Squeezed, OverlapPairs, PairOverlaps;
    forall p
      ensures p in OverlapPairs(items, c) <==> p == (0, 2)
    {
      PairsMembers(items, c, p);
      SqueezedPair(c, x, k, p.0, p.1);
    }
  }

  lemma SqueezedPass(c: real, k: nat)
    requires c >= 0.0
    ensures Side(c) > 0.0 && Pass(Squeezed(c, 1.0, k), Side(c), c) == Sweep(Squeezed(c, 1.0, k), 2)
  {
    hide Squeezed, SweepTo;
    SqueezedSweep(c, k, 3 + k);
  }

  lemma ManyCards(items: seq<Placement>, c: real)
    requires |items| >= 2
    ensures Separated(items, c) == Passes(items, Pitch(items, c), c, MAX_PASSES)
  {
    hide Passes, Pitch;
  }

  /** With three cards or more the result can be wrong, at whatever clearance: here it is 2, and one pair overlaps. */
  lemma ResultMayMiscount(c: real, k: nat)
    requires c >= 0.0
    ensures var s := Separated(Squeezed(c, 1.0, k), c);
      s == Sweep(Squeezed(c, 1.0, k), 2) && OverlapPairs(s.items, c) == {(0, 2)}
  {
    var items := Squeezed(c, 1.0, k);
    assert MAX_PASSES > 0;
    hide *;
    SqueezedPitch(c, 1.0, k);
    SqueezedPass(c, k);
    SamePasses(items, Side(c), c, MAX_PASSES);
    SqueezedPairs(c, 1.0, k);
    ManyCards(items, c);
  }

  lemma SqueezedIsMiscounted(c: real, k: nat)
    requires c >= 0.0
    ensures !Counted(Squeezed(c, 1.0, k), c)
  {
    ResultMayMiscount(c, k);
    hide Separated, OverlapPairs, Squeezed;
  }

  /** At every clearance the result can be relied on for all arrangements of `n` cards exactly when there are two at
    * most.
    */
  lemma CountedExactlyUpToTwo(n: nat, c: real)
    ensures n <= 2 ==> forall items :: |items| == n ==> Counted(items, c)
    ensures c >= 0.0 ==> ((forall items :: |items| == n ==> Counted(items, c)) <==> n <= 2)
  {
    hide Counted, Squeezed;
    if n <= 2 {
      forall items | |items| == n
        ensures Counted(items, c)
      {
        TwoCardsAreCounted(items, c);
      }
    } else if c >= 0.0 {
      SqueezedIsMiscounted(c, n - 3);
      assert |Squeezed(c, 1.0, n - 3)| == n;
    }
  }
}
