/** The order in which a breadth-first search lists what it reaches. */
module BreadthFirst {
  import opened Helpers
  import opened Walks

  /** The i-th node is found from the p-th, and from no earlier one. */
  ghost predicate FoundBy(arcs: Arcs, g: seq<Id>, i: nat, p: nat)
    requires i < |g|
  {
    p < |g| && g[i] in Targets(arcs, g[p]) && forall q: nat :: q < p ==> g[i] !in Targets(arcs, g[q])
  }

  ghost predicate HasFinder(arcs: Arcs, g: seq<Id>, i: nat)
    requires i < |g|
  {
    exists p: nat :: p < i && FoundBy(arcs, g, i, p)
  }

  /** Found from an earlier node, or from the same one earlier in its list. */
  ghost predicate Precedes(arcs: Arcs, g: seq<Id>, i: nat, p: nat, j: nat, q: nat)
    requires i < |g| && j < |g| && p < |g|
  {
    p < q || (p == q && IndexIn(Targets(arcs, g[p]), g[i]) < IndexIn(Targets(arcs, g[p]), g[j]))
  }

  ghost predicate InFinderOrder(arcs: Arcs, g: seq<Id>) {
    forall i: nat, j: nat, p: nat, q: nat {:trigger FoundBy(arcs, g, i, p), FoundBy(arcs, g, j, q)} ::
      0 < i < j < |g| && FoundBy(arcs, g, i, p) && FoundBy(arcs, g, j, q) ==> Precedes(arcs, g, i, p, j, q)
  }

  /** Every node after the first is found from an earlier one, and nodes come in the order in which they are found. */
  ghost predicate IsBreadthFirst(arcs: Arcs, g: seq<Id>) {
    && g != [] && NoDup(g)
    && (forall i: nat {:trigger HasFinder(arcs, g, i)} :: 0 < i < |g| ==> HasFinder(arcs, g, i))
    && InFinderOrder(arcs, g)
  }

  // ---------------------------------------------------------------- finding one more

  /** Everything found so far was found from before position `e`, or among the first `j` targets of that node. */
  ghost predicate FoundUpTo(arcs: Arcs, g: seq<Id>, e: nat, j: nat) {
    forall i: nat, p: nat {:trigger FoundBy(arcs, g, i, p)} ::
      0 < i < |g| && FoundBy(arcs, g, i, p) ==> p < e || (p == e && IndexIn(Targets(arcs, g[p]), g[i]) < j)
  }

  /** All targets of the first `e` nodes are listed. */
  ghost predicate Expanded(arcs: Arcs, g: seq<Id>, e: nat) {
    forall q: nat, v {:trigger v in Targets(arcs, g[q])} :: q < e && q < |g| && v in Targets(arcs, g[q]) ==> v in g
  }

  /** ... or were listed before. */
  ghost predicate ExpandedPast(arcs: Arcs, g: seq<Id>, e: nat, past: set<Id>) {
    forall q: nat, v {:trigger v in Targets(arcs, g[q])} ::
      q < e && q < |g| && v in Targets(arcs, g[q]) ==> v in g || v in past
  }

  /** A listing whose first `e` nodes are expanded, and the next one up to its `j`-th target. */
  ghost predicate ListedUpTo(arcs: Arcs, g: seq<Id>, e: nat, j: nat) {
    IsBreadthFirst(arcs, g) && FoundUpTo(arcs, g, e, j)
  }

  lemma FinderIsUnique(arcs: Arcs, g: seq<Id>, i: nat, p: nat, q: nat)
    requires i < |g| && FoundBy(arcs, g, i, p) && FoundBy(arcs, g, i, q)
    ensures p == q
  {
  }

  /** A longer list finds the earlier nodes from where they were found. */
  lemma FinderStays(arcs: Arcs, g: seq<Id>, next: Id, i: nat, p: nat)
    requires 0 < i < |g| && HasFinder(arcs, g, i)
    ensures FoundBy(arcs, g + [next], i, p) <==> FoundBy(arcs, g, i, p)
  {
    var q: nat :| q < i && FoundBy(arcs, g, i, q);
    var more := g + [next];
    assert forall k: nat :: k < |g| ==> more[k] == g[k];
    assert FoundBy(arcs, more, i, q);
    if FoundBy(arcs, more, i, p) { FinderIsUnique(arcs, more, i, p, q); }
    if FoundBy(arcs, g, i, p) { FinderIsUnique(arcs, g, i, p, q); }
  }

  lemma NextFinder(arcs: Arcs, g: seq<Id>, e: nat, j: nat, past: set<Id>, p: nat)
    requires e < |g| && j < |Targets(arcs, g[e])| && Targets(arcs, g[e])[j] !in g && Targets(arcs, g[e])[j] !in past
    requires ExpandedPast(arcs, g, e, past)
    ensures FoundBy(arcs, g + [Targets(arcs, g[e])[j]], |g|, p) <==> p == e
  {
    var next := Targets(arcs, g[e])[j];
    var more := g + [next];
    assert forall k: nat :: k < |g| ==> more[k] == g[k];
    assert forall q: nat :: q < e ==> next !in Targets(arcs, g[q]);
    assert more[|g|] == next && next in Targets(arcs, more[e]);
    assert FoundBy(arcs, more, |g|, e);
    if FoundBy(arcs, more, |g|, p) { FinderIsUnique(arcs, more, |g|, p, e); }
  }

  lemma IndexOfNext(list: seq<Id>, j: nat)
    requires j < |list| && forall k :: 0 <= k < j ==> list[k] != list[j]
    ensures IndexIn(list, list[j]) == j
  {
  }

  /** Appending the next new target of the node being expanded keeps the order. */
  lemma FindNextPast(arcs: Arcs, g: seq<Id>, e: nat, j: nat, past: set<Id>)
    requires ListedUpTo(arcs, g, e, j) && ExpandedPast(arcs, g, e, past)
    requires e < |g| && j < |Targets(arcs, g[e])| && Targets(arcs, g[e])[j] !in g && Targets(arcs, g[e])[j] !in past
    requires forall k :: 0 <= k < j ==> Targets(arcs, g[e])[k] in g || Targets(arcs, g[e])[k] in past
    ensures ListedUpTo(arcs, g + [Targets(arcs, g[e])[j]], e, j + 1)
  {
    var list := Targets(arcs, g[e]);
    var more := g + [list[j]];
    IndexOfNext(list, j);
    NextFinder(arcs, g, e, j, past, e);
    forall i: nat {:trigger HasFinder(arcs, more, i)} | 0 < i < |more|
      ensures HasFinder(arcs, more, i)
    {
      if i < |g| {
        assert HasFinder(arcs, g, i);
        var p: nat :| p < i && FoundBy(arcs, g, i, p);
        FinderStays(arcs, g, list[j], i, p);
      } else {
        assert FoundBy(arcs, more, i, e);
      }
    }
    forall i: nat, p: nat {:trigger FoundBy(arcs, more, i, p)} | 0 < i < |more| && FoundBy(arcs, more, i, p)
      ensures p < e || (p == e && IndexIn(Targets(arcs, more[p]), more[i]) < j + 1)
      ensures i < |g| ==> FoundBy(arcs, g, i, p)
      ensures i < |g| && p == e ==> IndexIn(Targets(arcs, more[p]), more[i]) < j
    {
      if i < |g| {
        assert HasFinder(arcs, g, i);
        FinderStays(arcs, g, list[j], i, p);
      } else {
        NextFinder(arcs, g, e, j, past, p);
      }
    }
    NextInOrder(arcs, g, e, j, past);
  }

  lemma NextInOrder(arcs: Arcs, g: seq<Id>, e: nat, j: nat, past: set<Id>)
    requires IsBreadthFirst(arcs, g) && e < |g| && j < |Targets(arcs, g[e])| && Targets(arcs, g[e])[j] !in g
    requires Targets(arcs, g[e])[j] !in past && ExpandedPast(arcs, g, e, past) && FoundUpTo(arcs, g, e, j)
    requires IndexIn(Targets(arcs, g[e]), Targets(arcs, g[e])[j]) == j
    ensures InFinderOrder(arcs, g + [Targets(arcs, g[e])[j]])
  {
    var list := Targets(arcs, g[e]);
    var more := g + [list[j]];
    forall i: nat, k: nat, p: nat, q: nat {:trigger FoundBy(arcs, more, i, p), FoundBy(arcs, more, k, q)}
      | 0 < i < k < |more| && FoundBy(arcs, more, i, p) && FoundBy(arcs, more, k, q)
      ensures Precedes(arcs, more, i, p, k, q)
    {
      assert HasFinder(arcs, g, i);
      FinderStays(arcs, g, list[j], i, p);
      if k < |g| {
        assert HasFinder(arcs, g, k);
        FinderStays(arcs, g, list[j], k, q);
        assert Precedes(arcs, g, i, p, k, q);
      } else {
        NextFinder(arcs, g, e, j, past, q);
      }
    }
  }

  lemma FindNext(arcs: Arcs, g: seq<Id>, e: nat, j: nat)
    requires ListedUpTo(arcs, g, e, j) && Expanded(arcs, g, e)
    requires e < |g| && j < |Targets(arcs, g[e])| && Targets(arcs, g[e])[j] !in g
    requires forall k :: 0 <= k < j ==> Targets(arcs, g[e])[k] in g
    ensures ListedUpTo(arcs, g + [Targets(arcs, g[e])[j]], e, j + 1)
  {
    hide IsBreadthFirst, FoundUpTo;
    FindNextPast(arcs, g, e, j, {});
  }

  lemma StartsBreadthFirst(arcs: Arcs, start: Id)
    ensures ListedUpTo(arcs, [start], 0, 0)
  {
  }

  /** Past the last target of a node its successor is next. */
  lemma NextToExpand(arcs: Arcs, g: seq<Id>, e: nat)
    requires e < |g| && ListedUpTo(arcs, g, e, |Targets(arcs, g[e])|)
    ensures ListedUpTo(arcs, g, e + 1, 0)
  {
  }

  // ---------------------------------------------------------------- the order is determined

  /** Where the two lists part, the one's next node was found before the other's. */
  lemma FoundFirst(arcs: Arcs, a: seq<Id>, b: seq<Id>, k: nat, p: nat, q: nat)
    requires IsBreadthFirst(arcs, a) && NoDup(b)
    requires 0 < k < |a| && k < |b| && a[..k] == b[..k] && a[k] != b[k] && b[k] in a
    requires p < k && q < k && FoundBy(arcs, a, k, p) && FoundBy(arcs, b, k, q)
    ensures p < q || (p == q && IndexIn(Targets(arcs, a[p]), a[k]) < IndexIn(Targets(arcs, b[p]), b[k]))
  {
    var m := Later(a, b, k);
    assert forall r :: 0 <= r < k ==> a[r] == a[..k][r] && b[r] == b[..k][r];
    assert FoundBy(arcs, a, m, q);
    assert Precedes(arcs, a, k, p, m, q);
  }

  lemma SameNext(arcs: Arcs, a: seq<Id>, b: seq<Id>, k: nat)
    requires IsBreadthFirst(arcs, a) && IsBreadthFirst(arcs, b) && forall v :: v in a <==> v in b
    requires 0 < k < |a| && k < |b| && a[..k] == b[..k]
    ensures a[k] == b[k]
  {
    var p, q := Finder(arcs, a, k), Finder(arcs, b, k);
    assert NoDup(a) && NoDup(b);
    hide IsBreadthFirst, FoundBy;
    assert b[k] in a && a[k] in b;
    if a[k] != b[k] {
      FoundFirst(arcs, a, b, k, p, q);
      FoundFirst(arcs, b, a, k, q, p);
    }
  }

  /** Where the next node of the one list comes in the other. */
  lemma Later(a: seq<Id>, b: seq<Id>, k: nat) returns (m: nat)
    requires NoDup(b) && k < |a| && k < |b| && a[..k] == b[..k] && a[k] != b[k] && b[k] in a
    ensures k < m < |a| && a[m] == b[k]
  {
    m :| 0 <= m < |a| && a[m] == b[k];
    assert forall r :: 0 <= r < k ==> a[..k][r] == a[r] && b[..k][r] == b[r] && b[r] != b[k];
  }

  lemma {:induction false} SamePrefix(arcs: Arcs, a: seq<Id>, b: seq<Id>, k: nat)
    requires IsBreadthFirst(arcs, a) && IsBreadthFirst(arcs, b) && a[0] == b[0] && forall v :: v in a <==> v in b
    requires k <= |a| && k <= |b|
    ensures a[..k] == b[..k]
  {
    if k > 1 {
      SamePrefix(arcs, a, b, k - 1);
      SameNext(arcs, a, b, k - 1);
      hide IsBreadthFirst;
      assert a[..k] == a[..k - 1] + [a[k - 1]] && b[..k] == b[..k - 1] + [b[k - 1]];
    }
  }

  /** The first node and the members determine a breadth-first listing. */
  lemma OrderIsDetermined(arcs: Arcs, a: seq<Id>, b: seq<Id>)
    requires IsBreadthFirst(arcs, a) && IsBreadthFirst(arcs, b) && a[0] == b[0] && forall v :: v in a <==> v in b
    ensures a == b
  {
    var k := if |a| <= |b| then |a| else |b|;
    SamePrefix(arcs, a, b, k);
    LongerHasMore(a, b);
    LongerHasMore(b, a);
  }

  lemma LongerHasMore(a: seq<Id>, b: seq<Id>)
    requires NoDup(b)
    ensures |a| < |b| && a == b[..|a|] ==> b[|a|] !in a
  {
    assert forall m :: 0 <= m < |a| < |b| ==> b[..|a|][m] == b[m];
  }

  // ---------------------------------------------------------------- distance

  ghost function Finder(arcs: Arcs, g: seq<Id>, i: nat): (p: nat)
    requires IsBreadthFirst(arcs, g) && 0 < i < |g|
    ensures p < i && FoundBy(arcs, g, i, p)
  {
    assert HasFinder(arcs, g, i);
    var p: nat :| p < i && FoundBy(arcs, g, i, p);
    p
  }

  /** Steps from the first node, by finders. */
  ghost function Depth(arcs: Arcs, g: seq<Id>, i: nat): nat
    requires IsBreadthFirst(arcs, g) && i < |g|
  {
    if i == 0 then 0 else Depth(arcs, g, Finder(arcs, g, i)) + 1
  }

  lemma {:induction false} DepthGrows(arcs: Arcs, g: seq<Id>, i: nat, j: nat)
    requires IsBreadthFirst(arcs, g) && i <= j < |g|
    ensures Depth(arcs, g, i) <= Depth(arcs, g, j)
    decreases j
  {
    if 0 < i < j {
      assert Precedes(arcs, g, i, Finder(arcs, g, i), j, Finder(arcs, g, j));
      DepthGrows(arcs, g, Finder(arcs, g, i), Finder(arcs, g, j));
    }
  }

  lemma {:induction false} DepthIsWalked(arcs: Arcs, g: seq<Id>, i: nat) returns (w: seq<Id>)
    requires IsBreadthFirst(arcs, g) && i < |g|
    ensures WalkFrom(arcs, w, g[0], g[i]) && |w| == Depth(arcs, g, i) + 1
  {
    if i == 0 {
      w := [g[0]];
    } else {
      var p := Finder(arcs, g, i);
      w := DepthIsWalked(arcs, g, p);
      hide IsBreadthFirst;
      WalkSnoc(arcs, w, g[i]);
      w := w + [g[i]];
    }
  }

  lemma {:induction false} NoShorterWalk(arcs: Arcs, g: seq<Id>, w: seq<Id>, i: nat)
    requires IsBreadthFirst(arcs, g) && Expanded(arcs, g, |g|) && i < |g| && WalkFrom(arcs, w, g[0], g[i])
    ensures Depth(arcs, g, i) <= |w| - 1
    decreases |w|
  {
    if |w| == 1 {
      assert i == 0;
    } else if i > 0 {
      var front := w[0..|w| - 1];
      assert ArcAt(arcs, w, |w| - 2);
      WalkSlice(arcs, w, 0, |w| - 1);
      var m := WalkStaysListed(arcs, g, front);
      NoShorterWalk(arcs, g, front, m);
      var p := Finder(arcs, g, i);
      assert p <= m;
      DepthGrows(arcs, g, p, m);
    }
  }

  lemma {:induction false} WalkStaysListed(arcs: Arcs, g: seq<Id>, w: seq<Id>) returns (m: nat)
    requires g != [] && Expanded(arcs, g, |g|) && IsWalk(arcs, w) && w[0] == g[0]
    ensures m < |g| && g[m] == w[|w| - 1]
    decreases |w|
  {
    if |w| == 1 {
      m := 0;
    } else {
      assert ArcAt(arcs, w, |w| - 2);
      WalkSlice(arcs, w, 0, |w| - 1);
      var k := WalkStaysListed(arcs, g, w[0..|w| - 1]);
      assert w[|w| - 1] in Targets(arcs, g[k]);
      m :| 0 <= m < |g| && g[m] == w[|w| - 1];
    }
  }

  /** Nodes come by nondecreasing distance from the first: whatever reaches a later one, as short a walk reaches an
    * earlier one.
    */
  lemma DistanceOrder(arcs: Arcs, g: seq<Id>, i: nat, j: nat, w: seq<Id>) returns (v: seq<Id>)
    requires IsBreadthFirst(arcs, g) && Expanded(arcs, g, |g|) && i <= j < |g| && WalkFrom(arcs, w, g[0], g[j])
    ensures WalkFrom(arcs, v, g[0], g[i]) && |v| <= |w|
  {
    NoShorterWalk(arcs, g, w, j);
    DepthGrows(arcs, g, i, j);
    v := DepthIsWalked(arcs, g, i);
  }
}
