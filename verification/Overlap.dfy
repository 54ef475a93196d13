/** Overlap separation: a bounded relaxation over a uniform grid, against the all-pairs check. */
module Overlap {
  datatype Placement = Placement(id: string, x: real, y: real, w: real, h: real, pinned: bool) {
    function Cx(): real { x + w / 2.0 }
    function Cy(): real { y + h / 2.0 }
  }

  const MAX_PASSES: nat := 64
  const MIN_CLEARANCE: real := 16.0

  function Abs(v: real): real {
    if v < 0.0 then -v else v
  }

  function OverlapX(a: Placement, b: Placement, clearance: real): real {
    (a.w + b.w) / 2.0 + clearance - Abs(a.Cx() - b.Cx())
  }

  function OverlapY(a: Placement, b: Placement, clearance: real): real {
    (a.h + b.h) / 2.0 + clearance - Abs(a.Cy() - b.Cy())
  }

  predicate Overlaps(a: Placement, b: Placement, clearance: real) {
    OverlapX(a, b, clearance) > 0.0 && OverlapY(a, b, clearance) > 0.0
  }

  // ---------------------------------------------------------------- countOverlaps

  ghost predicate PairOverlaps(items: seq<Placement>, clearance: real, i: int, j: int) {
    0 <= i < j < |items| && Overlaps(items[i], items[j], clearance)
  }

  ghost function OverlapPairs(items: seq<Placement>, clearance: real): set<(int, int)> {
    set i, j | 0 <= i < |items| && 0 <= j < |items| && PairOverlaps(items, clearance, i, j) :: (i, j)
  }

  /** Pairs met before `(row, column)` in the double loop. */
  ghost function PairsBefore(items: seq<Placement>, clearance: real, row: nat, column: nat): set<(int, int)> {
    set p | p in OverlapPairs(items, clearance) && (p.0 < row || (p.0 == row && p.1 < column)) :: p
  }

  lemma PairsMembers(items: seq<Placement>, clearance: real, p: (int, int))
    ensures p in OverlapPairs(items, clearance) <==> PairOverlaps(items, clearance, p.0, p.1)
  {
    if PairOverlaps(items, clearance, p.0, p.1) {
      assert (p.0, p.1) in OverlapPairs(items, clearance);
    }
  }

  lemma NextColumn(items: seq<Placement>, clearance: real, row: nat, column: nat)
    requires row < column < |items|
    ensures |PairsBefore(items, clearance, row, column + 1)| ==
      |PairsBefore(items, clearance, row, column)| + if Overlaps(items[row], items[column], clearance) then 1 else 0
  {
    var before, after := PairsBefore(items, clearance, row, column), PairsBefore(items, clearance, row, column + 1);
    var here := (row, column);
    PairsMembers(items, clearance, here);
    assert here !in before;
    forall p | p in after
      ensures p in before || p == here
    {
    }
    if Overlaps(items[row], items[column], clearance) {
      assert after == before + {here};
    } else {
      assert after == before;
    }
  }

  /** The all-pairs check counts the overlapping pairs. */
  method CountOverlaps(items: seq<Placement>, clearance: real) returns (count: nat)
    ensures count == |OverlapPairs(items, clearance)|
  {
    count := 0;
    assert PairsBefore(items, clearance, 0, 0) == {};
    for i := 0 to |items|
      invariant count == |PairsBefore(items, clearance, i, 0)|
    {
      assert PairsBefore(items, clearance, i, i + 1) == PairsBefore(items, clearance, i, 0);
      for j := i + 1 to |items|
        invariant count == |PairsBefore(items, clearance, i, j)|
      {
        NextColumn(items, clearance, i, j);
        if Overlaps(items[i], items[j], clearance) { count := count + 1; }
      }
      assert PairsBefore(items, clearance, i, |items|) == PairsBefore(items, clearance, i + 1, 0);
    }
    assert PairsBefore(items, clearance, |items|, 0) == OverlapPairs(items, clearance);
  }

  // ---------------------------------------------------------------- one push

  function Share(self: Placement, other: Placement): real {
    if self.pinned then 0.0 else if other.pinned then 2.0 else 1.0
  }

  /** The pair after one push along the cheaper axis; the pinned one never gives way. */
  function Pushed(a: Placement, b: Placement, clearance: real): (Placement, Placement) {
    var dx, dy := OverlapX(a, b, clearance), OverlapY(a, b, clearance);
    if dx <= dy then
      var push := dx / 2.0 + 1.0;
      var sign := if a.Cx() <= b.Cx() then -1.0 else 1.0;
      (a.(x := a.x + sign * push * Share(a, b)), b.(x := b.x - sign * push * Share(b, a)))
    else
      var push := dy / 2.0 + 1.0;
      var sign := if a.Cy() <= b.Cy() then -1.0 else 1.0;
      (a.(y := a.y + sign * push * Share(a, b)), b.(y := b.y - sign * push * Share(b, a)))
  }

  /** A push opens a gap of two units beyond the clearance, unless both cards are pinned. */
  lemma PushClears(a: Placement, b: Placement, clearance: real)
    requires Overlaps(a, b, clearance)
    ensures var (a', b') := Pushed(a, b, clearance);
      if a.pinned && b.pinned then a' == a && b' == b
      else !Overlaps(a', b', clearance) &&
           (OverlapX(a', b', clearance) == -2.0 || OverlapY(a', b', clearance) == -2.0)
  {
  }

  // ---------------------------------------------------------------- the relaxation, as a function

  type Cell = (int, int)

  function CellSize(items: seq<Placement>, clearance: real): real {
    if items == [] then 0.0
    else
      var p := items[|items| - 1];
      Larger(Larger(CellSize(items[..|items| - 1], clearance), p.w + clearance), p.h + clearance)
  }

  function Larger(a: real, b: real): real {
    if a < b then b else a
  }

  /** The grid pitch: never zero. */
  function Pitch(items: seq<Placement>, clearance: real): (cell: real)
    ensures cell > 0.0
  {
    var cell := CellSize(items, clearance);
    if cell <= 0.0 then 1.0 else cell
  }

  function CellOf(p: Placement, cell: real): Cell
    requires cell > 0.0
  {
    ((p.Cx() / cell).Floor, (p.Cy() / cell).Floor)
  }

  /** Indices below `n` whose card sits in the cell, ascending. */
  function Bucket(items: seq<Placement>, cell: real, key: Cell, n: nat): seq<nat>
    requires cell > 0.0 && n <= |items|
  {
    if n == 0 then []
    else Bucket(items, cell, key, n - 1) + if CellOf(items[n - 1], cell) == key then [n - 1] else []
  }

  /** Columns `x`, rows `y - 1` up: the first `k` buckets of one stripe of the neighbourhood. */
  function Stripe(items: seq<Placement>, cell: real, x: int, y: int, k: nat): seq<nat>
    requires cell > 0.0
  {
    if k == 0 then []
    else Stripe(items, cell, x, y, k - 1) + Bucket(items, cell, (x, y - 2 + k), |items|)
  }

  /** The first `k` stripes around a cell, in scan order. */
  function Stripes(items: seq<Placement>, cell: real, key: Cell, k: nat): seq<nat>
    requires cell > 0.0
  {
    if k == 0 then []
    else Stripes(items, cell, key, k - 1) + Stripe(items, cell, key.0 - 2 + k, key.1, 3)
  }

  /** The 3x3 neighbourhood in scan order. */
  function Around(items: seq<Placement>, cell: real, key: Cell): seq<nat>
    requires cell > 0.0
  {
    Stripes(items, cell, key, 3)
  }

  datatype Sweep = Sweep(items: seq<Placement>, found: nat)

  /** Meeting candidate `j` while scanning for card `i`. */
  function Meet(s: Sweep, i: nat, j: nat, clearance: real): (s': Sweep)
    requires i < |s.items|
    ensures |s'.items| == |s.items|
  {
    if j <= i || j >= |s.items| || !Overlaps(s.items[i], s.items[j], clearance) then s
    else
      var (a, b) := Pushed(s.items[i], s.items[j], clearance);
      Sweep(s.items[i := a][j := b], s.found + 1)
  }

  function MeetAll(s: Sweep, i: nat, js: seq<nat>, clearance: real): (s': Sweep)
    requires i < |s.items|
    ensures |s'.items| == |s.items|
  {
    if js == [] then s
    else Meet(MeetAll(s, i, js[..|js| - 1], clearance), i, js[|js| - 1], clearance)
  }

  /** The first `n` cards of a pass; buckets are those of the positions `start` the pass began with. */
  function SweepTo(start: seq<Placement>, cell: real, clearance: real, n: nat): (s: Sweep)
    requires cell > 0.0 && n <= |start|
    ensures |s.items| == |start|
  {
    if n == 0 then Sweep(start, 0)
    else
      var s := SweepTo(start, cell, clearance, n - 1);
      MeetAll(s, n - 1, Around(start, cell, CellOf(s.items[n - 1], cell)), clearance)
  }

  function Pass(items: seq<Placement>, cell: real, clearance: real): (s: Sweep)
    requires cell > 0.0
    ensures |s.items| == |items|
  {
    SweepTo(items, cell, clearance, |items|)
  }

  function Passes(items: seq<Placement>, cell: real, clearance: real, n: nat): (s: Sweep)
    requires cell > 0.0 && n > 0
    ensures |s.items| == |items|
    decreases n
  {
    var s := Pass(items, cell, clearance);
    if s.found == 0 || n == 1 then s else Passes(s.items, cell, clearance, n - 1)
  }

  function Separated(items: seq<Placement>, clearance: real): (s: Sweep)
    ensures |s.items| == |items|
  {
    if |items| < 2 then Sweep(items, 0)
    else Passes(items, Pitch(items, clearance), clearance, MAX_PASSES)
  }

  // ---------------------------------------------------------------- what no pass may change

  /** Same cards, and every pinned one exactly where it was. */
  ghost predicate SameCards(before: seq<Placement>, after: seq<Placement>) {
    && |after| == |before|
    && forall k :: 0 <= k < |before| ==> SameCard(before[k], after[k])
  }

  ghost predicate SameCard(p: Placement, q: Placement) {
    && q.id == p.id && q.w == p.w && q.h == p.h && q.pinned == p.pinned
    && (p.pinned ==> q.x == p.x && q.y == p.y)
  }

  lemma SameCardsTransitive(a: seq<Placement>, b: seq<Placement>, c: seq<Placement>)
    requires SameCards(a, b) && SameCards(b, c)
    ensures SameCards(a, c)
  {
    forall k | 0 <= k < |a|
      ensures SameCard(a[k], c[k])
    {
      assert SameCard(a[k], b[k]) && SameCard(b[k], c[k]);
    }
  }

  lemma {:induction false} MeetAllKeeps(s: Sweep, i: nat, js: seq<nat>, clearance: real)
    requires i < |s.items|
    ensures SameCards(s.items, MeetAll(s, i, js, clearance).items)
    decreases |js|
  {
    if js != [] {
      MeetAllKeeps(s, i, js[..|js| - 1], clearance);
    }
  }

  lemma {:induction false} SweepKeeps(start: seq<Placement>, cell: real, clearance: real, n: nat)
    requires cell > 0.0 && n <= |start|
    ensures SameCards(start, SweepTo(start, cell, clearance, n).items)
  {
    hide Around, CellOf, MeetAll;
    if n > 0 {
      SweepKeeps(start, cell, clearance, n - 1);
      var s := SweepTo(start, cell, clearance, n - 1);
      var js := Around(start, cell, CellOf(s.items[n - 1], cell));
      var s' := MeetAll(s, n - 1, js, clearance);
      assert SweepTo(start, cell, clearance, n) == s';
      MeetAllKeeps(s, n - 1, js, clearance);
      SameCardsTransitive(start, s.items, s'.items);
    }
  }

  lemma {:induction false} PassesKeep(items: seq<Placement>, cell: real, clearance: real, n: nat)
    requires cell > 0.0 && n > 0
    ensures SameCards(items, Passes(items, cell, clearance, n).items)
    decreases n
  {
    SweepKeeps(items, cell, clearance, |items|);
    var s := Pass(items, cell, clearance);
    if s.found != 0 && n > 1 {
      PassesKeep(s.items, cell, clearance, n - 1);
    }
  }

  /** Pinned cards are obstacles: separation never moves them, and touches nothing but positions. */
  lemma SeparationKeepsCards(items: seq<Placement>, clearance: real)
    ensures SameCards(items, Separated(items, clearance).items)
  {
    if |items| >= 2 {
      PassesKeep(items, Pitch(items, clearance), clearance, MAX_PASSES);
    }
  }

  // ---------------------------------------------------------------- conservation

  function SumX(items: seq<Placement>): real {
    if items == [] then 0.0 else SumX(items[..|items| - 1]) + items[|items| - 1].x
  }

  function SumY(items: seq<Placement>): real {
    if items == [] then 0.0 else SumY(items[..|items| - 1]) + items[|items| - 1].y
  }

  ghost predicate NonePinned(items: seq<Placement>) {
    forall k :: 0 <= k < |items| ==> !items[k].pinned
  }

  ghost predicate Balanced(before: seq<Placement>, after: seq<Placement>) {
    NonePinned(before) ==> NonePinned(after) && SumX(after) == SumX(before) && SumY(after) == SumY(before)
  }

  lemma {:induction false} SumUpdate(items: seq<Placement>, k: nat, p: Placement)
    requires k < |items|
    ensures SumX(items[k := p]) == SumX(items) - items[k].x + p.x
    ensures SumY(items[k := p]) == SumY(items) - items[k].y + p.y
    decreases |items|
  {
    var n := |items|;
    if k == n - 1 {
      assert items[k := p][..n - 1] == items[..n - 1];
    } else {
      SumUpdate(items[..n - 1], k, p);
      assert items[k := p][..n - 1] == items[..n - 1][k := p];
    }
  }

  lemma MeetBalances(s: Sweep, i: nat, j: nat, clearance: real)
    requires i < |s.items|
    ensures Balanced(s.items, Meet(s, i, j, clearance).items)
  {
    if i < j < |s.items| && Overlaps(s.items[i], s.items[j], clearance) && NonePinned(s.items) {
      var (a, b) := Pushed(s.items[i], s.items[j], clearance);
      assert a.x + b.x == s.items[i].x + s.items[j].x && a.y + b.y == s.items[i].y + s.items[j].y;
      SumUpdate(s.items, i, a);
      SumUpdate(s.items[i := a], j, b);
    }
  }

  lemma {:induction false} MeetAllBalances(s: Sweep, i: nat, js: seq<nat>, clearance: real)
    requires i < |s.items|
    ensures Balanced(s.items, MeetAll(s, i, js, clearance).items)
    decreases |js|
  {
    if js != [] {
      MeetAllBalances(s, i, js[..|js| - 1], clearance);
      MeetBalances(MeetAll(s, i, js[..|js| - 1], clearance), i, js[|js| - 1], clearance);
    }
  }

  lemma {:induction false} SweepBalances(start: seq<Placement>, cell: real, clearance: real, n: nat)
    requires cell > 0.0 && n <= |start|
    ensures Balanced(start, SweepTo(start, cell, clearance, n).items)
  {
    hide Around, CellOf, MeetAll;
    if n > 0 {
      SweepBalances(start, cell, clearance, n - 1);
      var s := SweepTo(start, cell, clearance, n - 1);
      MeetAllBalances(s, n - 1, Around(start, cell, CellOf(s.items[n - 1], cell)), clearance);
    }
  }

  lemma {:induction false} PassesBalance(items: seq<Placement>, cell: real, clearance: real, n: nat)
    requires cell > 0.0 && n > 0
    ensures Balanced(items, Passes(items, cell, clearance, n).items)
    decreases n
  {
    SweepBalances(items, cell, clearance, |items|);
    var s := Pass(items, cell, clearance);
    if s.found != 0 && n > 1 {
      PassesBalance(s.items, cell, clearance, n - 1);
    }
  }

  /** With nothing pinned, every push is matched: the sums of the coordinates are unchanged. */
  lemma SeparationBalances(items: seq<Placement>, clearance: real)
    requires NonePinned(items)
    ensures SumX(Separated(items, clearance).items) == SumX(items)
    ensures SumY(Separated(items, clearance).items) == SumY(items)
  {
    if |items| >= 2 {
      PassesBalance(items, Pitch(items, clearance), clearance, MAX_PASSES);
    }
  }

  // ---------------------------------------------------------------- the grid misses no pair

  lemma {:induction false} CellFits(items: seq<Placement>, clearance: real, k: nat)
    requires k < |items|
    ensures items[k].w + clearance <= CellSize(items, clearance)
    ensures items[k].h + clearance <= CellSize(items, clearance)
    decreases |items|
  {
    if k < |items| - 1 {
      CellFits(items[..|items| - 1], clearance, k);
    }
  }

  lemma SmallQuotient(a: real, cell: real)
    requires cell > 0.0 && a < cell
    ensures a / cell < 1.0
  {
    var q := a / cell;
    assert q * cell == a;
    assert q >= 1.0 ==> q * cell >= 1.0 * cell;
  }

  lemma QuotientsSubtract(u: real, v: real, cell: real)
    requires cell > 0.0
    ensures u / cell - v / cell == (u - v) / cell
  {
    var p, q := u / cell, v / cell;
    assert u == p * cell && v == q * cell;
    assert (p - q) * cell == u - v;
  }

  /** Closer than one pitch: the cells are equal or adjacent. */
  lemma NearbyFloors(u: real, v: real, cell: real)
    requires cell > 0.0 && Abs(u - v) < cell
    ensures -1 <= (u / cell).Floor - (v / cell).Floor <= 1
  {
    QuotientsSubtract(u, v, cell);
    QuotientsSubtract(v, u, cell);
    SmallQuotient(u - v, cell);
    SmallQuotient(v - u, cell);
  }

  lemma {:induction false} BucketMembers(items: seq<Placement>, cell: real, key: Cell, n: nat, j: nat)
    requires cell > 0.0 && n <= |items|
    ensures j in Bucket(items, cell, key, n) <==> j < n && CellOf(items[j], cell) == key
  {
    if n > 0 {
      BucketMembers(items, cell, key, n - 1, j);
    }
  }

  lemma {:induction false} StripeMembers(items: seq<Placement>, cell: real, x: int, y: int, at: int, k: nat, j: nat)
    requires cell > 0.0 && j in Bucket(items, cell, (x, at), |items|) && y - 1 <= at < y - 1 + k
    ensures j in Stripe(items, cell, x, y, k)
  {
    hide Bucket;
    if at < y - 2 + k {
      StripeMembers(items, cell, x, y, at, k - 1, j);
    }
  }

  lemma {:induction false} StripesMembers(items: seq<Placement>, cell: real, key: Cell, x: int, k: nat, j: nat)
    requires cell > 0.0 && j in Stripe(items, cell, x, key.1, 3) && key.0 - 1 <= x < key.0 - 1 + k
    ensures j in Stripes(items, cell, key, k)
  {
    hide Stripe;
    if x < key.0 - 2 + k {
      StripesMembers(items, cell, key, x, k - 1, j);
    }
  }

  /** Any card that overlaps card `i` is among the candidates of its 3x3 neighbourhood. */
  ghost predicate Covers(items: seq<Placement>, cell: real, clearance: real)
    requires cell > 0.0
  {
    forall i, j {:trigger PairOverlaps(items, clearance, i, j)} ::
      PairOverlaps(items, clearance, i, j) ==> j in Around(items, cell, CellOf(items[i], cell))
  }

  lemma OverlapIsClose(a: Placement, b: Placement, cell: real, clearance: real)
    requires Overlaps(a, b, clearance)
    requires a.w + clearance <= cell && a.h + clearance <= cell && b.w + clearance <= cell && b.h + clearance <= cell
    ensures Abs(a.Cx() - b.Cx()) < cell && Abs(a.Cy() - b.Cy()) < cell
  {
  }

  lemma PitchCovers(items: seq<Placement>, clearance: real)
    ensures Covers(items, Pitch(items, clearance), clearance)
  {
    var cell := Pitch(items, clearance);
    forall i, j | PairOverlaps(items, clearance, i, j)
      ensures j in Around(items, cell, CellOf(items[i], cell))
    {
      var a, b := items[i], items[j];
      CellFits(items, clearance, i);
      CellFits(items, clearance, j);
      OverlapIsClose(a, b, cell, clearance);
      NearbyFloors(a.Cx(), b.Cx(), cell);
      NearbyFloors(a.Cy(), b.Cy(), cell);
      BucketMembers(items, cell, CellOf(b, cell), |items|, j);
      StripeMembers(items, cell, CellOf(b, cell).0, CellOf(a, cell).1, CellOf(b, cell).1, 3, j);
      StripesMembers(items, cell, CellOf(a, cell), CellOf(b, cell).0, 3, j);
    }
  }

  // ---------------------------------------------------------------- zero means clear

  lemma {:induction false} MeetAllFindsNothing(s: Sweep, i: nat, js: seq<nat>, clearance: real)
    requires i < |s.items|
    ensures MeetAll(s, i, js, clearance).found >= s.found
    ensures MeetAll(s, i, js, clearance).found == s.found ==>
      && MeetAll(s, i, js, clearance) == s
      && forall j :: j in js && i < j < |s.items| ==> !Overlaps(s.items[i], s.items[j], clearance)
    decreases |js|
  {
    if js != [] {
      MeetAllFindsNothing(s, i, js[..|js| - 1], clearance);
      assert js == js[..|js| - 1] + [js[|js| - 1]];
    }
  }

  ghost predicate ClearFrom(items: seq<Placement>, clearance: real, i: nat) {
    forall j {:trigger PairOverlaps(items, clearance, i, j)} :: !PairOverlaps(items, clearance, i, j)
  }

  lemma MeetAllClears(s: Sweep, i: nat, js: seq<nat>, clearance: real)
    requires i < |s.items| && MeetAll(s, i, js, clearance).found == s.found
    requires forall j {:trigger PairOverlaps(s.items, clearance, i, j)} :: PairOverlaps(s.items, clearance, i, j) ==> j in js
    ensures MeetAll(s, i, js, clearance) == s && ClearFrom(s.items, clearance, i)
  {
    MeetAllFindsNothing(s, i, js, clearance);
  }

  /** Scanning for card `i` from untouched positions meets nobody. */
  ghost predicate QuietAt(start: seq<Placement>, cell: real, clearance: real, i: nat)
    requires cell > 0.0 && i < |start|
  {
    MeetAll(Sweep(start, 0), i, Around(start, cell, CellOf(start[i], cell)), clearance) == Sweep(start, 0)
  }

  /** A pass that finds nothing has moved nothing, and every scan in it came up empty. */
  lemma {:induction false} QuietSweep(start: seq<Placement>, cell: real, clearance: real, n: nat)
    requires cell > 0.0 && n <= |start|
    requires SweepTo(start, cell, clearance, n).found == 0
    ensures SweepTo(start, cell, clearance, n) == Sweep(start, 0)
    ensures forall i: nat {:trigger QuietAt(start, cell, clearance, i)} :: i < n ==> QuietAt(start, cell, clearance, i)
  {
    hide Around, CellOf, MeetAll;
    if n > 0 {
      var s := SweepTo(start, cell, clearance, n - 1);
      var js := Around(start, cell, CellOf(s.items[n - 1], cell));
      assert SweepTo(start, cell, clearance, n) == MeetAll(s, n - 1, js, clearance);
      MeetAllFindsNothing(s, n - 1, js, clearance);
      QuietSweep(start, cell, clearance, n - 1);
    }
  }

  ghost predicate ClearUpTo(items: seq<Placement>, clearance: real, n: nat) {
    forall i: nat {:trigger ClearFrom(items, clearance, i)} :: i < n ==> ClearFrom(items, clearance, i)
  }

  lemma QuietCard(start: seq<Placement>, cell: real, clearance: real, i: nat)
    requires cell > 0.0 && i < |start| && Covers(start, cell, clearance)
    requires QuietAt(start, cell, clearance, i)
    ensures ClearFrom(start, clearance, i)
  {
    MeetAllClears(Sweep(start, 0), i, Around(start, cell, CellOf(start[i], cell)), clearance);
  }

  lemma QuietPassIsClear(items: seq<Placement>, clearance: real)
    requires Pass(items, Pitch(items, clearance), clearance).found == 0
    ensures Pass(items, Pitch(items, clearance), clearance).items == items
    ensures ClearUpTo(items, clearance, |items|)
  {
    var cell := Pitch(items, clearance);
    QuietSweep(items, cell, clearance, |items|);
    PitchCovers(items, clearance);
    forall i: nat | i < |items|
      ensures ClearFrom(items, clearance, i)
    {
      QuietCard(items, cell, clearance, i);
    }
  }

  /** The pitch depends on sizes only, so every pass uses the same grid. */
  lemma {:induction false} PitchIsFixed(a: seq<Placement>, b: seq<Placement>, clearance: real)
    requires SameCards(a, b)
    ensures Pitch(a, clearance) == Pitch(b, clearance) && CellSize(a, clearance) == CellSize(b, clearance)
    decreases |a|
  {
    if a != [] {
      PitchIsFixed(a[..|a| - 1], b[..|b| - 1], clearance);
    }
  }

  lemma {:induction false} QuietPasses(items: seq<Placement>, clearance: real, cell: real, n: nat)
    requires n > 0 && cell == Pitch(items, clearance)
    requires Passes(items, cell, clearance, n).found == 0
    ensures ClearUpTo(Passes(items, cell, clearance, n).items, clearance, |items|)
    decreases n
  {
    hide Pitch, SweepTo;
    var s := Pass(items, cell, clearance);
    if s.found == 0 {
      QuietPassIsClear(items, clearance);
    } else {
      SweepKeeps(items, cell, clearance, |items|);
      PitchIsFixed(items, s.items, clearance);
      QuietPasses(s.items, clearance, cell, n - 1);
    }
  }

  /** Returning 0 is never a false alarm: the all-pairs check agrees that nothing overlaps. */
  lemma ZeroMeansClear(items: seq<Placement>, clearance: real)
    requires Separated(items, clearance).found == 0
    ensures OverlapPairs(Separated(items, clearance).items, clearance) == {}
  {
    var after := Separated(items, clearance).items;
    if |items| >= 2 {
      QuietPasses(items, clearance, Pitch(items, clearance), MAX_PASSES);
      assert ClearUpTo(after, clearance, |after|);
    }
    ClearMeansNoPairs(after, clearance);
  }

  lemma ClearMeansNoPairs(items: seq<Placement>, clearance: real)
    requires |items| < 2 || ClearUpTo(items, clearance, |items|)
    ensures OverlapPairs(items, clearance) == {}
  {
    forall p
      ensures p !in OverlapPairs(items, clearance)
    {
      PairsMembers(items, clearance, p);
      if 0 <= p.0 < |items| && |items| >= 2 { assert ClearFrom(items, clearance, p.0); }
    }
  }

  lemma {:induction false} NothingToMeet(s: Sweep, i: nat, js: seq<nat>, clearance: real)
    requires i < |s.items| && ClearFrom(s.items, clearance, i)
    ensures MeetAll(s, i, js, clearance) == s
    decreases |js|
  {
    if js != [] {
      NothingToMeet(s, i, js[..|js| - 1], clearance);
      assert !PairOverlaps(s.items, clearance, i, js[|js| - 1]);
    }
  }

  lemma {:induction false} NothingToSweep(items: seq<Placement>, cell: real, clearance: real, n: nat)
    requires cell > 0.0 && n <= |items| && OverlapPairs(items, clearance) == {}
    ensures SweepTo(items, cell, clearance, n) == Sweep(items, 0)
  {
    if n > 0 {
      NothingToSweep(items, cell, clearance, n - 1);
      forall j {:trigger PairOverlaps(items, clearance, n - 1, j)}
        ensures !PairOverlaps(items, clearance, n - 1, j)
      {
        PairsMembers(items, clearance, (n - 1, j));
      }
      NothingToMeet(Sweep(items, 0), n - 1, Around(items, cell, CellOf(items[n - 1], cell)), clearance);
    }
  }

  /** A legal arrangement is left alone; so separating a separated arrangement changes nothing. */
  lemma ClearIsLeftAlone(items: seq<Placement>, clearance: real)
    requires OverlapPairs(items, clearance) == {}
    ensures Separated(items, clearance) == Sweep(items, 0)
  {
    if |items| >= 2 {
      NothingToSweep(items, Pitch(items, clearance), clearance, |items|);
    }
  }

  lemma SeparationIsIdempotent(items: seq<Placement>, clearance: real)
    requires Separated(items, clearance).found == 0
    ensures Separated(Separated(items, clearance).items, clearance) == Separated(items, clearance)
  {
    ZeroMeansClear(items, clearance);
    ClearIsLeftAlone(Separated(items, clearance).items, clearance);
  }

  /** Two pinned cards that overlap are beyond repair: no number of passes returns 0. */
  lemma PinnedOverlapRemains(items: seq<Placement>, clearance: real, i: nat, j: nat)
    requires i < j < |items| && items[i].pinned && items[j].pinned && Overlaps(items[i], items[j], clearance)
    ensures Separated(items, clearance).found > 0
  {
    SeparationKeepsCards(items, clearance);
    var s := Separated(items, clearance);
    assert SameCard(items[i], s.items[i]) && SameCard(items[j], s.items[j]);
    PairsMembers(s.items, clearance, (i, j));
    if s.found == 0 { ZeroMeansClear(items, clearance); }
  }

  // ---------------------------------------------------------------- separate

  lemma {:induction false} MeetAllAppend(s: Sweep, i: nat, a: seq<nat>, b: seq<nat>, clearance: real)
    requires i < |s.items|
    ensures MeetAll(s, i, a + b, clearance) == MeetAll(MeetAll(s, i, a, clearance), i, b, clearance)
    decreases |b|
  {
    hide Meet;
    if b == [] {
      assert a + b == a;
    } else {
      assert (a + b)[..|a + b| - 1] == a + b[..|b| - 1];
      MeetAllAppend(s, i, a, b[..|b| - 1], clearance);
    }
  }

  ghost predicate Indexes(buckets: map<Cell, seq<nat>>, items: seq<Placement>, cell: real, n: nat)
    requires cell > 0.0 && n <= |items|
  {
    forall key {:trigger Bucket(items, cell, key, n)} ::
      Bucket(items, cell, key, n) == if key in buckets then buckets[key] else []
  }

  /** The first loop of a pass: the grid index of the current positions. */
  lemma IndexOneMore(buckets: map<Cell, seq<nat>>, items: seq<Placement>, cell: real, i: nat)
    requires cell > 0.0 && i < |items| && Indexes(buckets, items, cell, i)
    ensures var key := CellOf(items[i], cell);
      Indexes(buckets[key := (if key in buckets then buckets[key] else []) + [i]], items, cell, i + 1)
  {
    var key := CellOf(items[i], cell);
    var after := buckets[key := (if key in buckets then buckets[key] else []) + [i]];
    hide CellOf;
    forall k {:trigger Bucket(items, cell, k, i + 1)}
      ensures Bucket(items, cell, k, i + 1) == if k in after then after[k] else []
    {
      assert Bucket(items, cell, k, i) == if k in buckets then buckets[k] else [];
    }
  }

  method BuildBuckets(items: array<Placement>, cell: real) returns (buckets: map<Cell, seq<nat>>)
    requires cell > 0.0
    ensures Indexes(buckets, items[..], cell, items.Length)
  {
    buckets := map[];
    for i := 0 to items.Length
      invariant Indexes(buckets, items[..], cell, i)
    {
      IndexOneMore(buckets, items[..], cell, i);
      var key := CellOf(items[i], cell);
      buckets := buckets[key := (if key in buckets then buckets[key] else []) + [i]];
    }
  }

  /** The innermost loop: meet every candidate of one bucket. */
  method ScanBucket(items: array<Placement>, i: nat, js: seq<nat>, clearance: real, found0: nat) returns (found: nat)
    requires i < items.Length && forall j :: j in js ==> j < items.Length
    modifies items
    ensures Sweep(items[..], found) == MeetAll(Sweep(old(items[..]), found0), i, js, clearance)
  {
    found := found0;
    ghost var s0 := Sweep(items[..], found0);
    for k := 0 to |js|
      invariant Sweep(items[..], found) == MeetAll(s0, i, js[..k], clearance)
    {
      assert js[..k + 1][..k] == js[..k];
      var j := js[k];
      assert j in js;
      if j <= i { continue; }
      var a, b := items[i], items[j];
      if !Overlaps(a, b, clearance) { continue; }
      found := found + 1;
      items[i], items[j] := Pushed(a, b, clearance).0, Pushed(a, b, clearance).1;
    }
    assert js[..|js|] == js;
  }

  lemma {:induction false} BucketInRange(items: seq<Placement>, cell: real, key: Cell, n: nat)
    requires cell > 0.0 && n <= |items|
    ensures forall j :: j in Bucket(items, cell, key, n) ==> j < n
  {
    if n > 0 { BucketInRange(items, cell, key, n - 1); }
  }

  lemma NextBucket(items: seq<Placement>, cell: real, x: int, y: int, k: nat)
    requires cell > 0.0 && k > 0
    ensures Stripe(items, cell, x, y, k) == Stripe(items, cell, x, y, k - 1) + Bucket(items, cell, (x, y - 2 + k), |items|)
  {
    hide Bucket;
  }

  lemma NextStripe(items: seq<Placement>, cell: real, key: Cell, k: nat)
    requires cell > 0.0 && k > 0
    ensures Stripes(items, cell, key, k) == Stripes(items, cell, key, k - 1) + Stripe(items, cell, key.0 - 2 + k, key.1, 3)
  {
    hide Stripe;
  }

  lemma EmptyStripe(items: seq<Placement>, cell: real, x: int, y: int)
    requires cell > 0.0
    ensures Stripe(items, cell, x, y, 0) == []
  {
  }

  lemma EmptyStripes(items: seq<Placement>, cell: real, key: Cell)
    requires cell > 0.0
    ensures Stripes(items, cell, key, 0) == []
  {
  }

  /** The inner offset loop: the three buckets of one stripe. */
  method ScanStripe(items: array<Placement>, i: nat, buckets: map<Cell, seq<nat>>, ghost start: seq<Placement>,
                    cell: real, clearance: real, x: int, y: int, ghost s0: Sweep, ghost done: seq<nat>, found0: nat)
    returns (found: nat)
    requires cell > 0.0 && i < items.Length == |start| == |s0.items|
    requires Indexes(buckets, start, cell, |start|)
    requires Sweep(items[..], found0) == MeetAll(s0, i, done, clearance)
    modifies items
    ensures Sweep(items[..], found) == MeetAll(s0, i, done + Stripe(start, cell, x, y, 3), clearance)
  {
    hide MeetAll, Bucket, Stripe, Indexes;
    EmptyStripe(start, cell, x, y);
    assert done + Stripe(start, cell, x, y, 0) == done;
    found := found0;
    for oy := -1 to 2
      invariant Sweep(items[..], found) == MeetAll(s0, i, done + Stripe(start, cell, x, y, oy + 1), clearance)
    {
      ghost var before := done + Stripe(start, cell, x, y, oy + 1);
      var at := (x, y + oy);
      var js := if at in buckets then buckets[at] else [];
      IndexedBucket(buckets, start, cell, at);
      BucketInRange(start, cell, at, |start|);
      MeetAllAppend(s0, i, before, js, clearance);
      found := ScanBucket(items, i, js, clearance, found);
      NextBucket(start, cell, x, y, oy + 2);
      assert before + js == done + Stripe(start, cell, x, y, oy + 2);
    }
  }

  lemma IndexedBucket(buckets: map<Cell, seq<nat>>, start: seq<Placement>, cell: real, at: Cell)
    requires cell > 0.0 && Indexes(buckets, start, cell, |start|)
    ensures Bucket(start, cell, at, |start|) == if at in buckets then buckets[at] else []
  {
    hide Bucket;
  }

  /** The outer offset loop: everything around card `i`, by the index the pass began with. */
  method ScanCard(items: array<Placement>, i: nat, buckets: map<Cell, seq<nat>>, ghost start: seq<Placement>,
                  cell: real, clearance: real, found0: nat) returns (found: nat)
    requires cell > 0.0 && i < items.Length == |start|
    requires Indexes(buckets, start, cell, |start|)
    modifies items
    ensures Sweep(items[..], found) ==
      MeetAll(Sweep(old(items[..]), found0), i, Around(start, cell, CellOf(old(items[i]), cell)), clearance)
  {
    hide MeetAll, Bucket, Stripe, Stripes, Indexes, CellOf;
    var key := CellOf(items[i], cell);
    EmptyStripes(start, cell, key);
    found := found0;
    ghost var s0 := Sweep(items[..], found0);
    EmptyMeet(s0, i, clearance);
    for ox := -1 to 2
      invariant Sweep(items[..], found) == MeetAll(s0, i, Stripes(start, cell, key, ox + 1), clearance)
    {
      found := ScanStripe(items, i, buckets, start, cell, clearance, key.0 + ox, key.1, s0,
                          Stripes(start, cell, key, ox + 1), found);
      NextStripe(start, cell, key, ox + 2);
    }
  }

  lemma EmptyMeet(s: Sweep, i: nat, clearance: real)
    requires i < |s.items|
    ensures MeetAll(s, i, [], clearance) == s
  {
  }

  /** One pass over all cards. */
  method RunPass(items: array<Placement>, cell: real, clearance: real) returns (remaining: nat)
    requires cell > 0.0
    modifies items
    ensures Sweep(items[..], remaining) == Pass(old(items[..]), cell, clearance)
  {
    hide MeetAll, Around, CellOf;
    ghost var start := items[..];
    var buckets := BuildBuckets(items, cell);
    remaining := 0;
    for i := 0 to items.Length
      invariant Sweep(items[..], remaining) == SweepTo(start, cell, clearance, i)
    {
      remaining := ScanCard(items, i, buckets, start, cell, clearance, remaining);
    }
  }

  /** Separates the cards in place; 0 means the arrangement is legal. */
  method Separate(items: array<Placement>, clearance: real) returns (remaining: nat)
    modifies items
    ensures Sweep(items[..], remaining) == Separated(old(items[..]), clearance)
  {
    hide SweepTo;
    if items.Length < 2 { return 0; }
    var cell := 0.0;
    for k := 0 to items.Length
      invariant cell == CellSize(items[..][..k], clearance)
      invariant items[..] == old(items[..])
    {
      assert items[..][..k + 1][..k] == items[..][..k];
      cell := Larger(Larger(cell, items[k].w + clearance), items[k].h + clearance);
    }
    assert items[..][..items.Length] == items[..];
    if cell <= 0.0 { cell := 1.0; }
    remaining := 0;
    var pass := 0;
    while pass < MAX_PASSES
      invariant pass < MAX_PASSES ==>
        Passes(items[..], cell, clearance, MAX_PASSES - pass) == Separated(old(items[..]), clearance)
      invariant pass == MAX_PASSES ==> Sweep(items[..], remaining) == Separated(old(items[..]), clearance)
      invariant pass <= MAX_PASSES
    {
      remaining := RunPass(items, cell, clearance);
      if remaining == 0 { return 0; }
      pass := pass + 1;
    }
  }
}
