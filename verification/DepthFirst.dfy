/** The order in which a depth-first search enters the nodes of a graph, and the arcs it finds to close a cycle. */
module DepthFirst {
  import opened Helpers
  import opened Walks

  // ---------------------------------------------------------------- depth-first listings

  /** All targets of the q-th node are among the first `i`. */
  ghost predicate Exhausted(out: Arcs, order: seq<Id>, i: nat, q: nat)
    requires q < i <= |order|
  {
    forall v :: v in Targets(out, order[q]) ==> v in order[..i]
  }

  /** The i-th node is entered from the p-th: the last one with a target not entered yet, of which it is the first. */
  ghost predicate EnteredFrom(out: Arcs, order: seq<Id>, i: nat, p: nat)
    requires i < |order|
  {
    && p < i && order[i] in Targets(out, order[p])
    && (forall k: nat :: k < IndexIn(Targets(out, order[p]), order[i]) ==> Targets(out, order[p])[k] in order[..i])
    && (forall q: nat {:trigger Exhausted(out, order, i, q)} :: p < q < i ==> Exhausted(out, order, i, q))
  }

  /** The i-th node is a new root: no target is left, and it is the first id that was not entered. */
  ghost predicate Restarts(ids: seq<Id>, out: Arcs, order: seq<Id>, i: nat)
    requires i < |order|
  {
    && (forall q: nat {:trigger Exhausted(out, order, i, q)} :: q < i ==> Exhausted(out, order, i, q))
    && order[i] in ids
    && forall k: nat :: k < IndexIn(ids, order[i]) ==> ids[k] in order[..i]
  }

  ghost predicate HasEntry(ids: seq<Id>, out: Arcs, order: seq<Id>, i: nat)
    requires i < |order|
  {
    Restarts(ids, out, order, i) || exists p: nat :: EnteredFrom(out, order, i, p)
  }

  ghost predicate IsDepthFirst(ids: seq<Id>, out: Arcs, order: seq<Id>) {
    && NoDup(order)
    && forall i: nat {:trigger HasEntry(ids, out, order, i)} :: i < |order| ==> HasEntry(ids, out, order, i)
  }

  /** The b-th node was entered below the a-th: since then the search has not gone back above it. */
  ghost predicate Below(out: Arcs, order: seq<Id>, a: nat, b: nat) {
    a <= b < |order| && forall i: nat {:trigger UnderneathAt(out, order, a, i)} :: a < i <= b ==> UnderneathAt(out, order, a, i)
  }

  ghost predicate UnderneathAt(out: Arcs, order: seq<Id>, a: nat, i: nat)
    requires i < |order|
  {
    exists p: nat :: a <= p && EnteredFrom(out, order, i, p)
  }

  // ---------------------------------------------------------------- such a listing is determined

  /** A node is entered from one that had a target left. */
  lemma EntryIsOpen(out: Arcs, order: seq<Id>, i: nat, p: nat)
    requires NoDup(order) && i < |order| && EnteredFrom(out, order, i, p)
    ensures !Exhausted(out, order, i, p)
  {
    NotYet(order, i);
  }

  lemma EntryIsUnique(out: Arcs, order: seq<Id>, i: nat, p: nat, q: nat)
    requires NoDup(order) && i < |order| && EnteredFrom(out, order, i, p) && EnteredFrom(out, order, i, q)
    ensures p == q
  {
    EntryIsOpen(out, order, i, p);
    EntryIsOpen(out, order, i, q);
    hide Exhausted;
  }

  /** Lists with the same beginning agree on what is left there. */
  lemma SameLeft(out: Arcs, a: seq<Id>, b: seq<Id>, k: nat, q: nat)
    requires q < k <= |a| && k <= |b| && a[..k] == b[..k]
    ensures a[q] == b[q] && (Exhausted(out, a, k, q) <==> Exhausted(out, b, k, q))
  {
    assert a[q] == a[..k][q] && b[q] == b[..k][q];
  }

  lemma NotYet(order: seq<Id>, i: nat)
    requires NoDup(order) && i < |order|
    ensures order[i] !in order[..i]
  {
  }

  lemma EntryAgrees(out: Arcs, a: seq<Id>, b: seq<Id>, k: nat, p: nat, q: nat)
    requires NoDup(a) && NoDup(b) && k < |a| && k < |b| && a[..k] == b[..k]
    requires EnteredFrom(out, a, k, p) && EnteredFrom(out, b, k, q)
    ensures a[k] == b[k]
  {
    EntryIsOpen(out, a, k, p);
    EntryIsOpen(out, b, k, q);
    SameLeft(out, a, b, k, p);
    SameLeft(out, a, b, k, q);
    NotYet(a, k);
    NotYet(b, k);
    hide Exhausted;
    FirstAgrees(Targets(out, a[p]), a[..k], a[k], b[k]);
  }

  /** The first entry of a list that is not in another list. */
  lemma FirstAgrees(list: seq<Id>, listed: seq<Id>, u: Id, v: Id)
    requires u in list && v in list && u !in listed && v !in listed
    requires forall k: nat :: k < IndexIn(list, u) ==> list[k] in listed
    requires forall k: nat :: k < IndexIn(list, v) ==> list[k] in listed
    ensures u == v
  {
    assert list[IndexIn(list, u)] == u && list[IndexIn(list, v)] == v;
  }

  lemma NoEntryAtRestart(ids: seq<Id>, out: Arcs, a: seq<Id>, b: seq<Id>, k: nat, p: nat)
    requires NoDup(a) && NoDup(b) && k < |a| && k < |b| && a[..k] == b[..k]
    requires EnteredFrom(out, a, k, p)
    ensures !Restarts(ids, out, b, k)
  {
    EntryIsOpen(out, a, k, p);
    SameLeft(out, a, b, k, p);
    hide Exhausted;
  }

  lemma RestartAgrees(ids: seq<Id>, out: Arcs, a: seq<Id>, b: seq<Id>, k: nat)
    requires NoDup(a) && NoDup(b) && k < |a| && k < |b| && a[..k] == b[..k]
    requires Restarts(ids, out, a, k) && Restarts(ids, out, b, k)
    ensures a[k] == b[k]
  {
    NotYet(a, k);
    NotYet(b, k);
    hide Exhausted;
    FirstAgrees(ids, a[..k], a[k], b[k]);
  }

  lemma SameEntry(ids: seq<Id>, out: Arcs, a: seq<Id>, b: seq<Id>, k: nat)
    requires IsDepthFirst(ids, out, a) && IsDepthFirst(ids, out, b) && k < |a| && k < |b| && a[..k] == b[..k]
    ensures a[k] == b[k]
  {
    assert HasEntry(ids, out, a, k) && HasEntry(ids, out, b, k);
    hide EnteredFrom, Restarts, IsDepthFirst;
    if p: nat :| EnteredFrom(out, a, k, p) {
      NoEntryAtRestart(ids, out, a, b, k, p);
      var q: nat :| EnteredFrom(out, b, k, q);
      EntryAgrees(out, a, b, k, p, q);
    } else if q: nat :| EnteredFrom(out, b, k, q) {
      NoEntryAtRestart(ids, out, b, a, k, q);
    } else {
      RestartAgrees(ids, out, a, b, k);
    }
  }

  lemma {:induction false} SamePrefix(ids: seq<Id>, out: Arcs, a: seq<Id>, b: seq<Id>, k: nat)
    requires IsDepthFirst(ids, out, a) && IsDepthFirst(ids, out, b) && k <= |a| && k <= |b|
    ensures a[..k] == b[..k]
  {
    if k > 0 {
      SamePrefix(ids, out, a, b, k - 1);
      SameEntry(ids, out, a, b, k - 1);
      assert a[..k] == a[..k - 1] + [a[k - 1]] && b[..k] == b[..k - 1] + [b[k - 1]];
    }
  }

  /** The ids and the arcs determine a depth-first listing of all nodes. */
  lemma OrderIsDetermined(ids: seq<Id>, out: Arcs, a: seq<Id>, b: seq<Id>)
    requires IsDepthFirst(ids, out, a) && IsDepthFirst(ids, out, b) && forall v :: v in a <==> v in b
    ensures a == b
  {
    var k := if |a| <= |b| then |a| else |b|;
    SamePrefix(ids, out, a, b, k);
    assert NoDup(a) && NoDup(b);
    hide IsDepthFirst;
    if |a| <= |b| { NoneBeyond(a, b, k); } else { NoneBeyond(b, a, k); }
  }

  lemma NoneBeyond(a: seq<Id>, b: seq<Id>, k: nat)
    requires NoDup(b) && k == |a| <= |b| && a == b[..k] && forall v :: v in b ==> v in a
    ensures a == b
  {
    if |b| > k {
      assert b[k] in b;
      NotYet(b, k);
    }
  }

  // ---------------------------------------------------------------- the search as it goes

  /** What the search has done: the nodes entered so far, those finished, the open ones with how far each is through
    * its targets, and the arcs found to close a cycle.
    */
  datatype Trail = Trail(order: seq<Id>, done: set<Id>, path: seq<Id>, cursors: seq<nat>, cut: set<(Id, Id)>)

  /** All nodes entered are finished or open, each once, and the open ones were entered one from the other. */
  ghost predicate OnTrail(ids: seq<Id>, out: Arcs, t: Trail) {
    && IsDepthFirst(ids, out, t.order)
    && NoDup(t.path) && |t.cursors| == |t.path|
    && (forall v :: v in t.order <==> v in t.done || v in t.path)
    && (forall v :: v in t.path ==> v !in t.done)
    && (forall j: nat {:trigger OpenAt(out, t, j)} :: j < |t.path| ==> OpenAt(out, t, j))
  }

  /** The j-th open node: what is entered since lies below it. */
  ghost predicate OpenAt(out: Arcs, t: Trail, j: nat)
    requires j < |t.path|
  {
    var a := IndexIn(t.order, t.path[j]);
    && a < |t.order|
    && Below(out, t.order, a, |t.order| - 1)
    && (j > 0 ==> EnteredFrom(out, t.order, a, IndexIn(t.order, t.path[j - 1])))
    && (j == 0 ==> forall p: nat :: !EnteredFrom(out, t.order, a, p))
  }

  /** The search has dealt with this arc. */
  ghost predicate Taken(out: Arcs, t: Trail, u: Id, v: Id) {
    || (u in t.done && v in Targets(out, u))
    || exists j: nat :: TakenAt(out, t, j, u, v)
  }

  ghost predicate TakenAt(out: Arcs, t: Trail, j: nat, u: Id, v: Id) {
    j < |t.path| && j < |t.cursors| && t.path[j] == u && v in FirstTargets(out, u, t.cursors[j])
  }

  function FirstTargets(out: Arcs, u: Id, k: nat): seq<Id> {
    var list := Targets(out, u);
    if k <= |list| then list[..k] else list
  }

  /** The target of the arc is its source, or an earlier node that it was entered below. */
  ghost predicate Closes(out: Arcs, order: seq<Id>, u: Id, v: Id) {
    v in order && u in order && Below(out, order, IndexIn(order, v), IndexIn(order, u))
  }

  /** Arcs dealt with lead to nodes entered, and those of them that lead back up are cut. */
  ghost predicate Sorted(out: Arcs, t: Trail) {
    && (forall u, v {:trigger Taken(out, t, u, v)} :: Taken(out, t, u, v) ==> u in t.order && v in t.order)
    && (forall u, v {:trigger (u, v) in t.cut} :: (u, v) in t.cut <==> Taken(out, t, u, v) && Closes(out, t.order, u, v))
  }

  // ---------------------------------------------------------------- one node more

  lemma IndexStays(order: seq<Id>, v: Id, x: Id)
    ensures x in order ==> IndexIn(order + [v], x) == IndexIn(order, x) < |order|
    ensures v !in order ==> IndexIn(order + [v], v) == |order|
  {
    var more := order + [v];
    assert forall k :: 0 <= k < |order| ==> more[k] == order[k];
    assert more[|order|] == v;
  }

  lemma LeftStays(out: Arcs, order: seq<Id>, v: Id, i: nat, q: nat)
    requires q < i <= |order|
    ensures Exhausted(out, order + [v], i, q) <==> Exhausted(out, order, i, q)
    ensures (order + [v])[..i] == order[..i] && (order + [v])[q] == order[q]
  {
  }

  lemma EntryStays(out: Arcs, order: seq<Id>, v: Id, i: nat, p: nat)
    requires i < |order|
    ensures EnteredFrom(out, order + [v], i, p) <==> EnteredFrom(out, order, i, p)
  {
    var more := order + [v];
    assert more[..i] == order[..i] && more[i] == order[i];
    forall q: nat | q < i
      ensures Exhausted(out, more, i, q) <==> Exhausted(out, order, i, q)
      ensures more[q] == order[q]
    {
      LeftStays(out, order, v, i, q);
    }
    hide Exhausted;
  }

  lemma RestartStays(ids: seq<Id>, out: Arcs, order: seq<Id>, v: Id, i: nat)
    requires i < |order|
    ensures Restarts(ids, out, order + [v], i) <==> Restarts(ids, out, order, i)
  {
    var more := order + [v];
    assert more[..i] == order[..i] && more[i] == order[i];
    forall q: nat | q < i
      ensures Exhausted(out, more, i, q) <==> Exhausted(out, order, i, q)
    {
      LeftStays(out, order, v, i, q);
    }
    hide Exhausted;
  }

  lemma BelowStays(out: Arcs, order: seq<Id>, v: Id, a: nat, b: nat)
    requires b < |order|
    ensures Below(out, order + [v], a, b) <==> Below(out, order, a, b)
  {
    hide EnteredFrom;
    forall i: nat | i < |order|
      ensures UnderneathAt(out, order + [v], a, i) <==> UnderneathAt(out, order, a, i)
    {
      UnderneathStays(out, order, v, a, i);
    }
    hide UnderneathAt;
  }

  lemma UnderneathStays(out: Arcs, order: seq<Id>, v: Id, a: nat, i: nat)
    requires i < |order|
    ensures UnderneathAt(out, order + [v], a, i) <==> UnderneathAt(out, order, a, i)
  {
    hide EnteredFrom;
    forall p: nat
      ensures EnteredFrom(out, order + [v], i, p) <==> EnteredFrom(out, order, i, p)
    {
      EntryStays(out, order, v, i, p);
    }
  }

  lemma ClosesStays(out: Arcs, order: seq<Id>, next: Id, u: Id, v: Id)
    requires u in order && v in order
    ensures Closes(out, order + [next], u, v) <==> Closes(out, order, u, v)
  {
    IndexStays(order, next, u);
    IndexStays(order, next, v);
    BelowStays(out, order, next, IndexIn(order, v), IndexIn(order, u));
    hide Below;
  }

  /** A listing with one node more is depth-first if the new node is entered rightly. */
  lemma OneMoreEntry(ids: seq<Id>, out: Arcs, order: seq<Id>, v: Id)
    requires IsDepthFirst(ids, out, order) && v !in order && HasEntry(ids, out, order + [v], |order|)
    ensures IsDepthFirst(ids, out, order + [v])
  {
    hide EnteredFrom, Restarts;
    var more := order + [v];
    forall i: nat {:trigger HasEntry(ids, out, more, i)} | i < |more|
      ensures HasEntry(ids, out, more, i)
    {
      if i < |order| {
        assert HasEntry(ids, out, order, i);
        RestartStays(ids, out, order, v, i);
        if p: nat :| EnteredFrom(out, order, i, p) { EntryStays(out, order, v, i, p); }
      }
    }
  }

  // ---------------------------------------------------------------- the open nodes

  /** Open nodes stand in the order of the path, so nothing on it comes after the top. */
  lemma {:induction false} OpenInOrder(ids: seq<Id>, out: Arcs, t: Trail, i: nat, j: nat)
    requires OnTrail(ids, out, t) && i <= j < |t.path|
    ensures IndexIn(t.order, t.path[i]) <= IndexIn(t.order, t.path[j]) < |t.order|
    ensures i < j ==> IndexIn(t.order, t.path[i]) < IndexIn(t.order, t.path[j])
    decreases j
  {
    hide *;
    OpenIsEntered(ids, out, t, j);
    if i < j { OpenInOrder(ids, out, t, i, j - 1); }
  }

  lemma OpenIsEntered(ids: seq<Id>, out: Arcs, t: Trail, j: nat)
    requires OnTrail(ids, out, t) && j < |t.path|
    ensures OpenAt(out, t, j) && IndexIn(t.order, t.path[j]) < |t.order|
    ensures j > 0 ==> IndexIn(t.order, t.path[j - 1]) < IndexIn(t.order, t.path[j])
  {
    assert OpenAt(out, t, j);
    hide Below, IsDepthFirst;
  }

  /** After the top of the path all nodes are finished, and everything they lead to was entered. */
  lemma DoneAfterTop(ids: seq<Id>, out: Arcs, t: Trail, q: nat)
    requires OnTrail(ids, out, t) && Sorted(out, t) && q < |t.order|
    requires t.path != [] ==> q > IndexIn(t.order, t.path[|t.path| - 1])
    ensures t.order[q] in t.done && Exhausted(out, t.order, |t.order|, q)
  {
    var u := t.order[q];
    assert u in t.order && NoDup(t.order);
    IndexOfEntry(t.order, q);
    if u in t.path {
      var j :| 0 <= j < |t.path| && t.path[j] == u;
      OpenInOrder(ids, out, t, j, |t.path| - 1);
    }
    hide IsDepthFirst, OpenAt, Closes;
    forall v | v in Targets(out, u)
      ensures v in t.order[..|t.order|]
    {
      assert Taken(out, t, u, v);
      assert t.order[..|t.order|] == t.order;
    }
  }

  lemma IndexOfEntry(order: seq<Id>, q: nat)
    requires NoDup(order) && q < |order|
    ensures IndexIn(order, order[q]) == q
  {
  }

  /** The first targets of the top are entered. */
  lemma TakenByTop(out: Arcs, t: Trail, k: nat)
    requires Sorted(out, t) && t.path != [] && |t.cursors| == |t.path|
    requires var n := |t.path| - 1; k < t.cursors[n] <= |Targets(out, t.path[n])|
    ensures Targets(out, t.path[|t.path| - 1])[k] in t.order
  {
    var n := |t.path| - 1;
    var u := t.path[n];
    assert Targets(out, u)[k] == FirstTargets(out, u, t.cursors[n])[k];
    assert TakenAt(out, t, n, u, Targets(out, u)[k]);
    assert Taken(out, t, u, Targets(out, u)[k]);
  }

  /** The next target of the top, if it is new, is entered from the top. */
  lemma EntersFromTop(ids: seq<Id>, out: Arcs, t: Trail, v: Id)
    requires OnTrail(ids, out, t) && Sorted(out, t) && t.path != []
    requires var n := |t.path| - 1;
      t.cursors[n] < |Targets(out, t.path[n])| && Targets(out, t.path[n])[t.cursors[n]] == v && v !in t.order
    ensures EnteredFrom(out, t.order + [v], |t.order|, IndexIn(t.order, t.path[|t.path| - 1]))
  {
    var n := |t.path| - 1;
    var u, list := t.path[n], Targets(out, t.path[n]);
    var p, more := IndexIn(t.order, u), t.order + [v];
    OpenInOrder(ids, out, t, n, n);
    assert more[..|t.order|] == t.order && more[p] == u && more[|t.order|] == v;
    forall k: nat | k < t.cursors[n]
      ensures list[k] in t.order
    {
      TakenByTop(out, t, k);
    }
    FirstOf(list, v, t.cursors[n], t.order);
    forall q: nat {:trigger Exhausted(out, more, |t.order|, q)} | p < q < |t.order|
      ensures Exhausted(out, more, |t.order|, q)
    {
      DoneAfterTop(ids, out, t, q);
      LeftStays(out, t.order, v, |t.order|, q);
    }
    hide OnTrail, Sorted, Exhausted;
  }

  lemma FirstOf(list: seq<Id>, v: Id, c: nat, listed: seq<Id>)
    requires c < |list| && list[c] == v && v !in listed && forall k: nat :: k < c ==> list[k] in listed
    ensures v in list && IndexIn(list, v) == c
  {
  }

  // ---------------------------------------------------------------- the four transitions

  function EnterRoot(t: Trail, root: Id): Trail {
    Trail(t.order + [root], t.done, [root], [0], t.cut)
  }

  function Descend(t: Trail, v: Id): Trail
    requires t.path != [] && |t.cursors| == |t.path|
  {
    var n := |t.path| - 1;
    Trail(t.order + [v], t.done, t.path + [v], t.cursors[n := t.cursors[n] + 1] + [0], t.cut)
  }

  function Pass(t: Trail, v: Id): Trail
    requires t.path != [] && |t.cursors| == |t.path|
  {
    var n := |t.path| - 1;
    Trail(t.order, t.done, t.path, t.cursors[n := t.cursors[n] + 1],
          if v in t.path then t.cut + {(t.path[n], v)} else t.cut)
  }

  function Leave(t: Trail): Trail
    requires t.path != [] && |t.cursors| == |t.path|
  {
    var n := |t.path| - 1;
    Trail(t.order, t.done + {t.path[n]}, t.path[..n], t.cursors[..n], t.cut)
  }

  /** Everything the search knows. */
  ghost predicate Searches(ids: seq<Id>, out: Arcs, t: Trail) {
    OnTrail(ids, out, t) && Sorted(out, t)
  }

  lemma NothingSearched(ids: seq<Id>, out: Arcs)
    ensures Searches(ids, out, Trail([], {}, [], [], {}))
  {
  }

  lemma RootRestarts(ids: seq<Id>, out: Arcs, t: Trail, r: nat)
    requires Searches(ids, out, t) && t.path == [] && r < |ids| && ids[r] !in t.order
    requires forall k :: 0 <= k < r ==> ids[k] in t.order
    ensures Restarts(ids, out, t.order + [ids[r]], |t.order|)
    ensures forall p: nat :: !EnteredFrom(out, t.order + [ids[r]], |t.order|, p)
  {
    var n, more := |t.order|, t.order + [ids[r]];
    assert more[..n] == t.order && more[n] == ids[r];
    FirstOf(ids, ids[r], r, t.order);
    forall q: nat {:trigger Exhausted(out, more, n, q)} | q < n
      ensures Exhausted(out, more, n, q)
    {
      DoneAfterTop(ids, out, t, q);
      LeftStays(out, t.order, ids[r], n, q);
    }
    assert NoDup(more) by { assert NoDup(t.order); }
    hide OnTrail, Sorted, Exhausted;
    forall p: nat
      ensures !EnteredFrom(out, more, n, p)
    {
      if EnteredFrom(out, more, n, p) { EntryIsOpen(out, more, n, p); }
    }
  }

  lemma RootTaken(out: Arcs, t: Trail, root: Id, u: Id, v: Id)
    requires t.path == []
    ensures Taken(out, EnterRoot(t, root), u, v) <==> Taken(out, t, u, v)
  {
  }

  lemma RootIsOpen(out: Arcs, t: Trail, root: Id)
    requires root !in t.order && forall p: nat :: !EnteredFrom(out, t.order + [root], |t.order|, p)
    ensures OpenAt(out, EnterRoot(t, root), 0)
  {
    IndexStays(t.order, root, root);
    hide EnteredFrom;
  }

  lemma RootSearches(ids: seq<Id>, out: Arcs, t: Trail, r: nat)
    requires Searches(ids, out, t) && t.path == [] && r < |ids| && ids[r] !in t.order
    requires forall k :: 0 <= k < r ==> ids[k] in t.order
    ensures Searches(ids, out, EnterRoot(t, ids[r]))
  {
    hide Restarts, EnteredFrom, OpenAt, Closes, Taken, Sorted, IsDepthFirst;
    RootRestarts(ids, out, t, r);
    RootOnTrail(ids, out, t, ids[r]);
    SortedOn(out, t, EnterRoot(t, ids[r]), ids[r]);
    hide OnTrail;
  }

  lemma RootOnTrail(ids: seq<Id>, out: Arcs, t: Trail, root: Id)
    requires OnTrail(ids, out, t) && t.path == [] && root !in t.order && Restarts(ids, out, t.order + [root], |t.order|)
    requires forall p: nat :: !EnteredFrom(out, t.order + [root], |t.order|, p)
    ensures OnTrail(ids, out, EnterRoot(t, root))
  {
    hide Restarts, EnteredFrom, OpenAt, IsDepthFirst;
    assert HasEntry(ids, out, t.order + [root], |t.order|);
    OneMoreEntry(ids, out, t.order, root);
    RootIsOpen(out, t, root);
  }

  /** One node more, and no arc dealt with. */
  lemma SortedOn(out: Arcs, t: Trail, t': Trail, root: Id)
    requires Sorted(out, t) && t.path == [] && t' == EnterRoot(t, root)
    ensures Sorted(out, t')
  {
    hide Taken, Closes;
    forall u, v
      ensures Taken(out, t', u, v) <==> Taken(out, t, u, v)
      ensures Taken(out, t, u, v) ==> (Closes(out, t'.order, u, v) <==> Closes(out, t.order, u, v))
    {
      RootTaken(out, t, root, u, v);
      if Taken(out, t, u, v) { ClosesStays(out, t.order, root, u, v); }
    }
  }

  // ---------------------------------------------------------------- descending

  /** The next arc of the top. */
  ghost predicate NextArc(out: Arcs, t: Trail, v: Id) {
    && t.path != [] && |t.cursors| == |t.path|
    && var n := |t.path| - 1;
       t.cursors[n] < |Targets(out, t.path[n])| && Targets(out, t.path[n])[t.cursors[n]] == v
  }

  /** One arc more is dealt with: the next one of the top. */
  lemma OneMoreTaken(out: Arcs, t: Trail, t': Trail, v: Id, u: Id, w: Id)
    requires NextArc(out, t, v) && t'.done == t.done && Moves(t, t', v)
    ensures Taken(out, t', u, w) <==> Taken(out, t, u, w) || (u == t.path[|t.path| - 1] && w == v)
  {
    var n := |t.path| - 1;
    forall j: nat
      ensures TakenAt(out, t', j, u, w) <==> TakenAt(out, t, j, u, w) || (j == n && u == t.path[n] && w == v)
    {
      TakenAtMoves(out, t, t', v, u, w, j);
    }
    hide TakenAt, NextArc;
    if u == t.path[n] && w == v { assert TakenAt(out, t', n, u, w); }
  }

  /** The top's cursor moves on, and the search may descend. */
  ghost predicate Moves(t: Trail, t': Trail, v: Id) {
    && t.path != [] && |t.cursors| == |t.path|
    && var n := |t.path| - 1;
       || (t'.path == t.path && t'.cursors == t.cursors[n := t.cursors[n] + 1])
       || (t'.path == t.path + [v] && t'.cursors == t.cursors[n := t.cursors[n] + 1] + [0])
  }

  lemma TakenAtMoves(out: Arcs, t: Trail, t': Trail, v: Id, u: Id, w: Id, j: nat)
    requires NextArc(out, t, v) && Moves(t, t', v)
    ensures var n := |t.path| - 1;
      TakenAt(out, t', j, u, w) <==> TakenAt(out, t, j, u, w) || (j == n && u == t.path[n] && w == v)
  {
    var n := |t.path| - 1;
    assert FirstTargets(out, t.path[n], t.cursors[n] + 1) == FirstTargets(out, t.path[n], t.cursors[n]) + [v];
    assert FirstTargets(out, u, 0) == [];
    hide FirstTargets;
    if j < n { assert t'.cursors[j] == t.cursors[j] && t'.path[j] == t.path[j]; }
  }

  lemma DescendsOpen(ids: seq<Id>, out: Arcs, t: Trail, v: Id, j: nat)
    requires OnTrail(ids, out, t) && t.path != [] && |t.cursors| == |t.path| && v !in t.order && j <= |t.path|
    requires EnteredFrom(out, t.order + [v], |t.order|, IndexIn(t.order, t.path[|t.path| - 1]))
    ensures j < |Descend(t, v).path| && OpenAt(out, Descend(t, v), j)
  {
    hide *;
    var t', n := Descend(t, v), |t.path| - 1;
    var p := IndexIn(t.order, t.path[n]);
    DescendGrows(t, v);
    if j <= n {
      OpenIsListed(ids, out, t, j);
      OpenInOrder(ids, out, t, j, n);
      assert t'.path[..j + 1] == t.path[..j + 1];
      StillOpen(out, t, t', v, j, p);
    } else {
      OpenIsListed(ids, out, t, n);
      NewlyOpen(out, t, t', v);
    }
  }

  lemma DescendGrows(t: Trail, v: Id)
    requires t.path != [] && |t.cursors| == |t.path|
    ensures Descend(t, v).order == t.order + [v] && Descend(t, v).path == t.path + [v]
  {
  }

  lemma NewlyOpen(out: Arcs, t: Trail, t': Trail, v: Id)
    requires t.path != [] && t'.order == t.order + [v] && t'.path == t.path + [v] && v !in t.order
    requires t.path[|t.path| - 1] in t.order
    requires EnteredFrom(out, t.order + [v], |t.order|, IndexIn(t.order, t.path[|t.path| - 1]))
    ensures OpenAt(out, t', |t.path|)
  {
    var n := |t.path| - 1;
    IndexStays(t.order, v, v);
    IndexStays(t.order, v, t.path[n]);
    assert t'.path[n] == t.path[n] && t'.path[n + 1] == v;
    hide EnteredFrom, UnderneathAt;
  }

  lemma OpenIsListed(ids: seq<Id>, out: Arcs, t: Trail, j: nat)
    requires OnTrail(ids, out, t) && j < |t.path|
    ensures t.path[j] in t.order && OpenAt(out, t, j) && (j > 0 ==> t.path[j - 1] in t.order)
  {
    assert OpenAt(out, t, j);
    hide OpenAt, IsDepthFirst;
  }

  /** What is open stays open when the search descends from the top, the p-th node entered. */
  lemma StillOpen(out: Arcs, t: Trail, t': Trail, v: Id, j: nat, p: nat)
    requires j < |t.path| && OpenAt(out, t, j) && t.path[j] in t.order && (j > 0 ==> t.path[j - 1] in t.order)
    requires t'.order == t.order + [v] && j < |t'.path| && t'.path[..j + 1] == t.path[..j + 1]
    requires EnteredFrom(out, t'.order, |t.order|, p) && IndexIn(t.order, t.path[j]) <= p
    ensures OpenAt(out, t', j)
  {
    assert t'.path[j] == t'.path[..j + 1][j] == t.path[j];
    if j > 0 { assert t'.path[j - 1] == t'.path[..j + 1][j - 1] == t.path[j - 1]; IndexStays(t.order, v, t.path[j - 1]); }
    var a := IndexIn(t.order, t.path[j]);
    IndexStays(t.order, v, t.path[j]);
    BelowGrows(out, t.order, v, a, p);
    hide Below, EnteredFrom;
    forall q: nat
      ensures EnteredFrom(out, t'.order, a, q) <==> EnteredFrom(out, t.order, a, q)
    {
      EntryStays(out, t.order, v, a, q);
    }
  }

  lemma BelowGrows(out: Arcs, order: seq<Id>, v: Id, a: nat, p: nat)
    requires order != [] && Below(out, order, a, |order| - 1) && a <= p && EnteredFrom(out, order + [v], |order|, p)
    ensures Below(out, order + [v], a, |order|)
  {
    BelowStays(out, order, v, a, |order| - 1);
    hide EnteredFrom;
    assert UnderneathAt(out, order + [v], a, |order|);
    hide UnderneathAt;
  }

  lemma DescendSearches(ids: seq<Id>, out: Arcs, t: Trail, v: Id)
    requires Searches(ids, out, t) && NextArc(out, t, v) && v !in t.order
    ensures Searches(ids, out, Descend(t, v))
  {
    hide Sorted, OpenAt, EnteredFrom;
    var t', n := Descend(t, v), |t.path| - 1;
    EntersFromTop(ids, out, t, v);
    assert HasEntry(ids, out, t.order + [v], |t.order|);
    OneMoreEntry(ids, out, t.order, v);
    forall j: nat {:trigger OpenAt(out, t', j)} | j < |t'.path|
      ensures OpenAt(out, t', j)
    {
      DescendsOpen(ids, out, t, v, j);
    }
    OpenIsListed(ids, out, t, n);
    DescendSorts(out, t, v);
    hide IsDepthFirst, NextArc;
  }

  lemma DescendSorts(out: Arcs, t: Trail, v: Id)
    requires Sorted(out, t) && NextArc(out, t, v) && v !in t.order && t.path[|t.path| - 1] in t.order
    ensures Sorted(out, Descend(t, v))
  {
    var t', top := Descend(t, v), t.path[|t.path| - 1];
    NotAbove(out, t.order, v, top);
    hide Taken, Closes, NextArc, FirstTargets;
    forall u, w
      ensures Taken(out, t', u, w) <==> Taken(out, t, u, w) || (u == top && w == v)
      ensures Taken(out, t, u, w) ==> (Closes(out, t'.order, u, w) <==> Closes(out, t.order, u, w))
    {
      OneMoreTaken(out, t, t', v, u, w);
      if Taken(out, t, u, w) { ClosesStays(out, t.order, v, u, w); }
    }
  }

  /** A new node is not above one entered before. */
  lemma NotAbove(out: Arcs, order: seq<Id>, v: Id, u: Id)
    requires v !in order && u in order
    ensures !Closes(out, order + [v], u, v)
  {
    IndexStays(order, v, v);
    IndexStays(order, v, u);
  }

  // ---------------------------------------------------------------- passing an arc

  /** The top was entered below each open node. */
  lemma OpenCloses(ids: seq<Id>, out: Arcs, t: Trail, j: nat)
    requires OnTrail(ids, out, t) && j < |t.path|
    ensures Closes(out, t.order, t.path[|t.path| - 1], t.path[j])
  {
    var n := |t.path| - 1;
    hide *;
    OpenIsListed(ids, out, t, j);
    OpenIsListed(ids, out, t, n);
    OpenInOrder(ids, out, t, j, n);
    OpenIsAbove(out, t, j, n);
  }

  lemma OpenIsAbove(out: Arcs, t: Trail, j: nat, n: nat)
    requires j < |t.path| && n < |t.path| && OpenAt(out, t, j) && t.path[j] in t.order && t.path[n] in t.order
    requires IndexIn(t.order, t.path[j]) <= IndexIn(t.order, t.path[n]) < |t.order|
    ensures Closes(out, t.order, t.path[n], t.path[j])
  {
    hide UnderneathAt, EnteredFrom;
  }

  /** ... and below no other: a finished node that comes before the top is not above it. */
  lemma DoneIsNotAbove(ids: seq<Id>, out: Arcs, t: Trail, v: Id)
    requires OnTrail(ids, out, t) && t.path != [] && v in t.order && v !in t.path
    ensures !Closes(out, t.order, t.path[|t.path| - 1], v)
  {
    var a, n := IndexIn(t.order, v), |t.path| - 1;
    hide *;
    if a < IndexIn(t.order, t.path[n]) {
      var j := FirstOpenAfter(ids, out, t, a, n);
      PassedOver(ids, out, t, a, j);
      OpenInOrder(ids, out, t, j, n);
      NotAboveLater(out, t.order, a, IndexIn(t.order, t.path[j]), t.path[n], v);
    } else {
      OpenIsListed(ids, out, t, n);
      assert t.order[a] == v && t.order[IndexIn(t.order, t.path[n])] == t.path[n];
      NotAboveEarlier(out, t.order, t.path[n], v);
    }
  }

  lemma NotAboveLater(out: Arcs, order: seq<Id>, a: nat, i: nat, u: Id, v: Id)
    requires a == IndexIn(order, v) < i <= IndexIn(order, u) && i < |order| && !UnderneathAt(out, order, a, i)
    ensures !Closes(out, order, u, v)
  {
    hide UnderneathAt;
  }

  lemma NotAboveEarlier(out: Arcs, order: seq<Id>, u: Id, v: Id)
    requires IndexIn(order, u) <= IndexIn(order, v) && u != v && u in order && v in order
    ensures !Closes(out, order, u, v)
  {
    assert order[IndexIn(order, u)] == u && order[IndexIn(order, v)] == v;
    hide UnderneathAt;
  }

  /** The first open node that was entered after position `a`. */
  lemma {:induction false} FirstOpenAfter(ids: seq<Id>, out: Arcs, t: Trail, a: nat, n: nat) returns (j: nat)
    requires OnTrail(ids, out, t) && n < |t.path| && a < IndexIn(t.order, t.path[n])
    ensures j <= n && a < IndexIn(t.order, t.path[j])
    ensures j > 0 ==> IndexIn(t.order, t.path[j - 1]) <= a
  {
    hide *;
    if n > 0 && a < IndexIn(t.order, t.path[n - 1]) {
      j := FirstOpenAfter(ids, out, t, a, n - 1);
    } else {
      j := n;
    }
  }

  lemma PassedOver(ids: seq<Id>, out: Arcs, t: Trail, a: nat, j: nat)
    requires OnTrail(ids, out, t) && j < |t.path| && a < |t.order| && t.order[a] !in t.path
    requires a < IndexIn(t.order, t.path[j]) && (j > 0 ==> IndexIn(t.order, t.path[j - 1]) <= a)
    ensures IndexIn(t.order, t.path[j]) < |t.order| && !UnderneathAt(out, t.order, a, IndexIn(t.order, t.path[j]))
  {
    hide *;
    OpenIsListed(ids, out, t, j);
    ListedOnce(ids, out, t);
    EnteredAbove(out, t, a, j);
  }

  lemma ListedOnce(ids: seq<Id>, out: Arcs, t: Trail)
    requires OnTrail(ids, out, t)
    ensures NoDup(t.order)
  {
    hide HasEntry, OpenAt;
  }

  lemma EnteredAbove(out: Arcs, t: Trail, a: nat, j: nat)
    requires NoDup(t.order) && j < |t.path| && a < |t.order| && t.order[a] !in t.path && OpenAt(out, t, j)
    requires a < IndexIn(t.order, t.path[j]) && (j > 0 ==> IndexIn(t.order, t.path[j - 1]) <= a)
    ensures IndexIn(t.order, t.path[j]) < |t.order| && !UnderneathAt(out, t.order, a, IndexIn(t.order, t.path[j]))
  {
    hide *;
    OpenEntry(out, t, j);
    var i := IndexIn(t.order, t.path[j]);
    if j > 0 {
      assert t.path[j - 1] in t.path;
      NotUnderneath(out, t.order, a, i, IndexIn(t.order, t.path[j - 1]));
    } else {
      NowhereUnderneath(out, t.order, a, i);
    }
  }

  lemma NotUnderneath(out: Arcs, order: seq<Id>, a: nat, i: nat, q: nat)
    requires NoDup(order) && i < |order| && EnteredFrom(out, order, i, q) && q < a
    ensures !UnderneathAt(out, order, a, i)
  {
    hide EnteredFrom, NoDup;
    if UnderneathAt(out, order, a, i) {
      var p: nat :| a <= p && EnteredFrom(out, order, i, p);
      EntryIsUnique(out, order, i, p, q);
    }
  }

  lemma NowhereUnderneath(out: Arcs, order: seq<Id>, a: nat, i: nat)
    requires i < |order| && forall p: nat :: !EnteredFrom(out, order, i, p)
    ensures !UnderneathAt(out, order, a, i)
  {
    hide EnteredFrom;
  }

  lemma OpenEntry(out: Arcs, t: Trail, j: nat)
    requires j < |t.path| && OpenAt(out, t, j)
    ensures var a := IndexIn(t.order, t.path[j]);
      && a < |t.order|
      && (j > 0 ==> EnteredFrom(out, t.order, a, IndexIn(t.order, t.path[j - 1])))
      && (j == 0 ==> forall p: nat :: !EnteredFrom(out, t.order, a, p))
  {
    hide Below, EnteredFrom;
  }

  lemma PassSearches(ids: seq<Id>, out: Arcs, t: Trail, v: Id)
    requires Searches(ids, out, t) && NextArc(out, t, v) && v in t.order
    ensures Searches(ids, out, Pass(t, v))
  {
    var t', n := Pass(t, v), |t.path| - 1;
    hide Sorted, OpenAt, IsDepthFirst, NextArc, Closes;
    if v in t.path {
      var j :| 0 <= j < |t.path| && t.path[j] == v;
      OpenCloses(ids, out, t, j);
    } else {
      DoneIsNotAbove(ids, out, t, v);
    }
    OpenIsListed(ids, out, t, n);
    forall j: nat {:trigger OpenAt(out, t', j)} | j < |t'.path|
      ensures OpenAt(out, t', j)
    {
      assert OpenAt(out, t, j);
      SameOpen(out, t, t', j);
    }
    PassSorts(out, t, v);
  }

  lemma SameOpen(out: Arcs, t: Trail, t': Trail, j: nat)
    requires j < |t.path| && j < |t'.path| && OpenAt(out, t, j) && t'.order == t.order && t'.path[..j + 1] == t.path[..j + 1]
    ensures OpenAt(out, t', j)
  {
    assert t'.path[j] == t'.path[..j + 1][j] == t.path[j];
    if j > 0 { assert t'.path[j - 1] == t'.path[..j + 1][j - 1] == t.path[j - 1]; }
    hide Below, EnteredFrom;
  }

  lemma PassSorts(out: Arcs, t: Trail, v: Id)
    requires Sorted(out, t) && NextArc(out, t, v) && v in t.order && t.path[|t.path| - 1] in t.order
    requires Closes(out, t.order, t.path[|t.path| - 1], v) <==> v in t.path
    ensures Sorted(out, Pass(t, v))
  {
    var t', top := Pass(t, v), t.path[|t.path| - 1];
    hide Taken, Closes, NextArc, FirstTargets;
    PassMoves(out, t, v);
    hide Pass;
    forall u, w
      ensures Taken(out, t', u, w) <==> Taken(out, t, u, w) || (u == top && w == v)
    {
      OneMoreTaken(out, t, t', v, u, w);
    }
  }

  lemma PassMoves(out: Arcs, t: Trail, v: Id)
    requires NextArc(out, t, v)
    ensures var t', top := Pass(t, v), t.path[|t.path| - 1];
      && Moves(t, t', v) && t'.order == t.order && t'.done == t.done
      && forall u, w :: (u, w) in t'.cut <==> (u, w) in t.cut || (v in t.path && u == top && w == v)
  {
    hide FirstTargets;
  }

  // ---------------------------------------------------------------- leaving a node

  lemma LeaveTaken(out: Arcs, t: Trail, u: Id, w: Id)
    requires t.path != [] && |t.cursors| == |t.path| && NoDup(t.path)
    requires var n := |t.path| - 1; t.cursors[n] >= |Targets(out, t.path[n])|
    ensures Taken(out, Leave(t), u, w) <==> Taken(out, t, u, w)
  {
    var t', n := Leave(t), |t.path| - 1;
    assert FirstTargets(out, t.path[n], t.cursors[n]) == Targets(out, t.path[n]);
    forall j: nat
      ensures TakenAt(out, t, j, u, w) <==> TakenAt(out, t', j, u, w) || (j == n && u == t.path[n] && w in Targets(out, u))
    {
    }
    hide TakenAt, FirstTargets;
    assert u == t.path[n] && w in Targets(out, u) ==> TakenAt(out, t, n, u, w);
  }

  lemma LeaveSearches(ids: seq<Id>, out: Arcs, t: Trail)
    requires Searches(ids, out, t) && t.path != [] && |t.cursors| == |t.path|
    requires var n := |t.path| - 1; t.cursors[n] >= |Targets(out, t.path[n])|
    ensures Searches(ids, out, Leave(t))
  {
    hide OpenAt, IsDepthFirst, Closes, Taken;
    LeaveOnTrail(ids, out, t);
    forall u, w
      ensures Taken(out, Leave(t), u, w) <==> Taken(out, t, u, w)
    {
      LeaveTaken(out, t, u, w);
    }
    hide OnTrail;
  }

  lemma LeaveOnTrail(ids: seq<Id>, out: Arcs, t: Trail)
    requires OnTrail(ids, out, t) && t.path != []
    ensures OnTrail(ids, out, Leave(t))
  {
    var t', n := Leave(t), |t.path| - 1;
    hide OpenAt, IsDepthFirst;
    assert t.path == t'.path + [t.path[n]];
    forall j: nat {:trigger OpenAt(out, t', j)} | j < |t'.path|
      ensures OpenAt(out, t', j)
    {
      assert OpenAt(out, t, j);
      assert t'.path[..j + 1] == t.path[..j + 1];
      SameOpen(out, t, t', j);
    }
  }

  // ---------------------------------------------------------------- the end of the search

  /** The arcs that a depth-first search finds to close a cycle: those from a node to itself or to one that it lies
    * below.
    */
  ghost predicate CutExactly(out: Arcs, order: seq<Id>, cut: set<(Id, Id)>) {
    forall u, v {:trigger (u, v) in cut} :: (u, v) in cut <==> v in Targets(out, u) && Closes(out, order, u, v)
  }

  lemma SearchedAll(ids: seq<Id>, out: Arcs, t: Trail)
    requires Searches(ids, out, t) && t.path == []
    requires forall u, v {:trigger v in Targets(out, u)} :: v in Targets(out, u) ==> u in t.order
    ensures IsDepthFirst(ids, out, t.order) && CutExactly(out, t.order, t.cut)
  {
    hide Closes, IsDepthFirst, OpenAt;
    forall u, v
      ensures Taken(out, t, u, v) <==> v in Targets(out, u)
    {
      if v in Targets(out, u) { assert u in t.done; }
    }
  }
}
