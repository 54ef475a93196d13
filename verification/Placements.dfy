/** Placements as sequences: sums, centroids, lookups, and the grid they are snapped to. */
module Placements {
  import opened Walks
  import opened LayoutGraph
  import opened Options
  import opened Overlap

  const GRID: real := 8.0

  /** The nearest grid line, halves upwards. */
  function Snap(value: real): real {
    (value / GRID + 0.5).Floor as real * GRID
  }

  function GridPoint(k: int): real {
    k as real * GRID
  }

  ghost predicate OnGrid(v: real) {
    exists k: int :: v == GridPoint(k)
  }

  lemma SnapIsOnGrid(v: real)
    ensures OnGrid(Snap(v))
  {
    assert Snap(v) == GridPoint((v / GRID + 0.5).Floor);
  }

  /** Grid points are fixed by snapping, and shifting by one keeps a point on the grid. */
  lemma GridIsFixed(v: real)
    requires OnGrid(v)
    ensures Snap(v) == v
  {
    var k: int :| v == GridPoint(k);
    assert v / GRID == k as real;
    assert (k as real + 0.5).Floor == k;
  }

  lemma GridAdds(a: real, b: real)
    requires OnGrid(a) && OnGrid(b)
    ensures OnGrid(a + b)
  {
    var j: int :| a == GridPoint(j);
    var k: int :| b == GridPoint(k);
    assert a + b == GridPoint(j + k);
  }

  // ---------------------------------------------------------------- sequences of placements

  /** A node taken as a placement: where it is now. */
  function Current(n: Node): Placement {
    Placement(n.id, n.x, n.y, n.w, n.h, n.pinned)
  }

  function Currents(nodes: seq<Node>): (ps: seq<Placement>)
    ensures |ps| == |nodes| && forall i :: 0 <= i < |nodes| ==> ps[i] == Current(nodes[i])
  {
    seq(|nodes|, i requires 0 <= i < |nodes| => Current(nodes[i]))
  }

  function PlacedIds(ps: seq<Placement>): (ids: seq<string>)
    ensures |ids| == |ps| && forall i :: 0 <= i < |ps| ==> ids[i] == ps[i].id
  {
    seq(|ps|, i requires 0 <= i < |ps| => ps[i].id)
  }

  function Find(ps: seq<Placement>, id: string): Option<Placement> {
    if ps == [] then None
    else if ps[|ps| - 1].id == id then Some(ps[|ps| - 1])
    else Find(ps[..|ps| - 1], id)
  }

  lemma {:induction false} FindIsThere(ps: seq<Placement>, k: nat)
    requires k < |ps| && NoDup(PlacedIds(ps))
    ensures Find(ps, ps[k].id) == Some(ps[k])
    decreases |ps|
  {
    var n := |ps|;
    assert PlacedIds(ps)[k] == ps[k].id && PlacedIds(ps)[n - 1] == ps[n - 1].id;
    if k < n - 1 {
      assert PlacedIds(ps[..n - 1]) == PlacedIds(ps)[..n - 1];
      FindIsThere(ps[..n - 1], k);
    }
  }

  function SumCx(ps: seq<Placement>): real {
    if ps == [] then 0.0 else SumCx(ps[..|ps| - 1]) + ps[|ps| - 1].Cx()
  }

  function SumCy(ps: seq<Placement>): real {
    if ps == [] then 0.0 else SumCy(ps[..|ps| - 1]) + ps[|ps| - 1].Cy()
  }

  datatype Point = Point(x: real, y: real)

  function Centroid(ps: seq<Placement>): Point {
    if |ps| == 0 then Point(0.0, 0.0)
    else Point(SumCx(ps) / |ps| as real, SumCy(ps) / |ps| as real)
  }

  function Shifted(ps: seq<Placement>, dx: real, dy: real): (qs: seq<Placement>)
    ensures |qs| == |ps|
    ensures forall i :: 0 <= i < |ps| ==> qs[i] == ps[i].(x := ps[i].x + dx, y := ps[i].y + dy)
  {
    seq(|ps|, i requires 0 <= i < |ps| => ps[i].(x := ps[i].x + dx, y := ps[i].y + dy))
  }

  lemma OneMoreShift(n: nat, sum: real, c: real, d: real)
    ensures (sum + n as real * d) + (c + d) == (sum + c) + (n + 1) as real * d
  {
    assert (n + 1) as real * d == n as real * d + d;
  }

  lemma ShiftedFront(ps: seq<Placement>, dx: real, dy: real)
    requires ps != []
    ensures Shifted(ps, dx, dy)[..|ps| - 1] == Shifted(ps[..|ps| - 1], dx, dy)
    ensures Shifted(ps, dx, dy)[|ps| - 1].Cx() == ps[|ps| - 1].Cx() + dx
    ensures Shifted(ps, dx, dy)[|ps| - 1].Cy() == ps[|ps| - 1].Cy() + dy
  {
  }

  lemma {:induction false} ShiftedSumX(ps: seq<Placement>, dx: real, dy: real)
    ensures SumCx(Shifted(ps, dx, dy)) == SumCx(ps) + |ps| as real * dx
  {
    hide Shifted, Placement.Cx, Placement.Cy;
    if ps != [] {
      var n := |ps| - 1;
      ShiftedSumX(ps[..n], dx, dy);
      ShiftedFront(ps, dx, dy);
      OneMoreShift(n, SumCx(ps[..n]), ps[n].Cx(), dx);
    }
  }

  lemma {:induction false} ShiftedSumY(ps: seq<Placement>, dx: real, dy: real)
    ensures SumCy(Shifted(ps, dx, dy)) == SumCy(ps) + |ps| as real * dy
  {
    hide Shifted, Placement.Cx, Placement.Cy;
    if ps != [] {
      var n := |ps| - 1;
      ShiftedSumY(ps[..n], dx, dy);
      ShiftedFront(ps, dx, dy);
      OneMoreShift(n, SumCy(ps[..n]), ps[n].Cy(), dy);
    }
  }

  lemma ShiftedSums(ps: seq<Placement>, dx: real, dy: real)
    ensures SumCx(Shifted(ps, dx, dy)) == SumCx(ps) + |ps| as real * dx
    ensures SumCy(Shifted(ps, dx, dy)) == SumCy(ps) + |ps| as real * dy
  {
    ShiftedSumX(ps, dx, dy);
    ShiftedSumY(ps, dx, dy);
  }

  lemma {:induction false} SumWithout(ps: seq<Placement>, k: nat)
    requires k < |ps|
    ensures SumCx(ps) == SumCx(ps[..k] + ps[k + 1..]) + ps[k].Cx()
    ensures SumCy(ps) == SumCy(ps[..k] + ps[k + 1..]) + ps[k].Cy()
    decreases |ps|
  {
    hide Placement.Cx, Placement.Cy;
    var n := |ps|;
    if k == n - 1 {
      assert ps[..k] + ps[k + 1..] == ps[..n - 1];
    } else {
      SumWithout(ps[..n - 1], k);
      var rest := ps[..k] + ps[k + 1..];
      assert rest[..n - 2] == ps[..n - 1][..k] + ps[..n - 1][k + 1..];
      assert rest[n - 2] == ps[n - 1];
    }
  }

  function Elements(ps: seq<Placement>): set<Placement> {
    set p | p in ps
  }

  lemma HasElements(ps: seq<Placement>)
    requires ps != []
    ensures Elements(ps) != {}
  {
    assert ps[0] in Elements(ps);
  }

  lemma ElementsWithout(ps: seq<Placement>, k: nat)
    requires NoDup(ps) && k < |ps|
    ensures NoDup(ps[..k] + ps[k + 1..])
    ensures Elements(ps[..k] + ps[k + 1..]) == Elements(ps) - {ps[k]}
  {
    RestDistinct(ps, k);
    var rest := ps[..k] + ps[k + 1..];
    forall p
      ensures p in rest <==> p in ps && p != ps[k]
    {
      InRest(ps, k, p);
    }
  }

  lemma RestDistinct(ps: seq<Placement>, k: nat)
    requires NoDup(ps) && k < |ps|
    ensures NoDup(ps[..k] + ps[k + 1..])
  {
  }

  lemma InRest(ps: seq<Placement>, k: nat, p: Placement)
    requires NoDup(ps) && k < |ps|
    ensures p in ps[..k] + ps[k + 1..] <==> p in ps && p != ps[k]
  {
    var rest := ps[..k] + ps[k + 1..];
    if p in rest {
      var i :| 0 <= i < |rest| && rest[i] == p;
      assert p == ps[if i < k then i else i + 1];
    }
    if p in ps && p != ps[k] {
      var i :| 0 <= i < |ps| && ps[i] == p;
      assert p == rest[if i < k then i else i - 1];
    }
  }

  /** Sums do not depend on the order of the cards. */
  lemma {:induction false} SumsAgree(a: seq<Placement>, b: seq<Placement>)
    requires NoDup(a) && NoDup(b) && Elements(a) == Elements(b)
    ensures |a| == |b| && SumCx(a) == SumCx(b) && SumCy(a) == SumCy(b)
    decreases |a|
  {
    if a == [] {
      if b != [] { HasElements(b); }
    } else {
      var n := |a|;
      assert a[n - 1] in Elements(b);
      var k :| 0 <= k < |b| && b[k] == a[n - 1];
      var front, rest := a[..n - 1] + a[n..], b[..k] + b[k + 1..];
      ElementsWithout(a, n - 1);
      ElementsWithout(b, k);
      SumWithout(a, n - 1);
      SumWithout(b, k);
      SumsAgree(front, rest);
    }
  }
}
