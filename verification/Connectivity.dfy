/** Connected components by breadth-first search. */
module Connectivity {
  import opened BreadthFirst
  import opened Helpers
  import opened Walks
  import opened LayoutGraph

  ghost predicate ClosedSet(arcs: Arcs, s: set<Id>) {
    forall u, v {:trigger v in Targets(arcs, u)} :: u in s && v in Targets(arcs, u) ==> v in s
  }

  /** A walk that starts in a closed set stays there. */
  lemma {:induction false} WalkStays(arcs: Arcs, s: set<Id>, p: seq<Id>)
    requires ClosedSet(arcs, s) && IsWalk(arcs, p) && p[0] in s
    ensures p[|p| - 1] in s
    decreases |p|
  {
    if |p| > 1 {
      assert ArcAt(arcs, p, |p| - 2);
      assert p[|p| - 1] in Targets(arcs, p[|p| - 2]);
      WalkSlice(arcs, p, 0, |p| - 1);
      WalkStays(arcs, s, p[0..|p| - 1]);
    }
  }

  lemma ReachStays(arcs: Arcs, s: set<Id>, u: Id, v: Id)
    requires ClosedSet(arcs, s) && u in s && Reaches(arcs, u, v)
    ensures v in s
  {
    var p :| WalkFrom(arcs, p, u, v);
    WalkStays(arcs, s, p);
  }

  lemma {:induction false} WalkExtends(arcs: Arcs, u: Id, v: Id, p: seq<Id>)
    requires Reaches(arcs, u, v) && IsWalk(arcs, p) && p[0] == v
    ensures Reaches(arcs, u, p[|p| - 1])
    decreases |p|
  {
    if |p| > 1 {
      assert ArcAt(arcs, p, |p| - 2);
      WalkSlice(arcs, p, 0, |p| - 1);
      WalkExtends(arcs, u, v, p[0..|p| - 1]);
      ReachesSnoc(arcs, u, p[|p| - 2], p[|p| - 1]);
    }
  }

  lemma ReachTransitive(arcs: Arcs, u: Id, v: Id, w: Id)
    requires Reaches(arcs, u, v) && Reaches(arcs, v, w)
    ensures Reaches(arcs, u, w)
  {
    var p :| WalkFrom(arcs, p, v, w);
    WalkExtends(arcs, u, v, p);
  }

  lemma {:induction false} WalkReverses(ids: seq<Id>, neighbours: Arcs, p: seq<Id>)
    requires Symmetric(ids, neighbours) && IsWalk(neighbours, p)
    ensures Reaches(neighbours, p[|p| - 1], p[0])
    decreases |p|
  {
    if |p| == 1 {
      ReachesSelf(neighbours, p[0]);
    } else {
      assert ArcAt(neighbours, p, 0);
      assert p[1] in Targets(neighbours, p[0]);
      WalkSlice(neighbours, p, 1, |p|);
      WalkReverses(ids, neighbours, p[1..|p|]);
      ReachesSnoc(neighbours, p[|p| - 1], p[1], p[0]);
    }
  }

  lemma ReachSymmetric(ids: seq<Id>, neighbours: Arcs, u: Id, v: Id)
    requires Symmetric(ids, neighbours) && Reaches(neighbours, u, v)
    ensures Reaches(neighbours, v, u)
  {
    var p :| WalkFrom(neighbours, p, u, v);
    WalkReverses(ids, neighbours, p);
  }

  // ---------------------------------------------------------------- components

  /** `group` is one whole class of undirected reachability. */
  ghost predicate IsClass(neighbours: Arcs, group: seq<Id>) {
    && group != [] && NoDup(group)
    && forall u, v :: u in group ==> (v in group <==> Reaches(neighbours, u, v))
  }

  ghost predicate ClassesOf(neighbours: Arcs, groups: seq<seq<Id>>, covered: set<Id>) {
    && (forall i {:trigger groups[i]} :: 0 <= i < |groups| ==> IsClass(neighbours, groups[i]))
    && (forall i {:trigger groups[i]} :: 0 <= i < |groups| ==> IdSet(groups[i]) <= covered)
    && (forall i, j {:trigger groups[i], groups[j]} :: 0 <= i < j < |groups| ==> IdSet(groups[i]) !! IdSet(groups[j]))
    && (forall v :: v in covered ==> exists i :: 0 <= i < |groups| && v in groups[i])
  }

  /** Groups open in input order, each with the earliest of its members. */
  ghost predicate InputOrder(ids: seq<Id>, groups: seq<seq<Id>>, at: seq<nat>, limit: nat) {
    && |at| == |groups|
    && (forall i :: 0 <= i < |at| ==> at[i] < limit)
    && (forall i, j :: 0 <= i < j < |at| ==> at[i] < at[j])
    && limit <= |ids|
    && (forall i :: 0 <= i < |groups| ==> groups[i] != [] && groups[i][0] == ids[at[i]])
    && (forall i, k :: 0 <= i < |groups| && 0 <= k < at[i] ==> ids[k] !in groups[i])
  }

  /** What the flood from `start` knows: everything found, and which of it is fully expanded. */
  ghost predicate Flooding(neighbours: Arcs, start: Id, before: set<Id>, group: seq<Id>, queue: seq<Id>, seen: set<Id>) {
    var found := group + queue;
    && found != [] && found[0] == start && NoDup(found)
    && seen == before + IdSet(found)
    && before !! IdSet(found)
    && (forall v :: v in found ==> Reaches(neighbours, start, v))
    && (forall u, v {:trigger v in Targets(neighbours, u)} :: u in group && v in Targets(neighbours, u) ==> v in found)
  }

  lemma FloodIsClass(ids: seq<Id>, neighbours: Arcs, start: Id, before: set<Id>, group: seq<Id>, seen: set<Id>)
    requires Symmetric(ids, neighbours) && Flooding(neighbours, start, before, group, [], seen)
    ensures IsClass(neighbours, group)
  {
    assert group + [] == group;
    assert start in group;
    forall u, v | u in group
      ensures v in group <==> Reaches(neighbours, u, v)
    {
      if v in group {
        ReachSymmetric(ids, neighbours, start, u);
        ReachTransitive(neighbours, u, start, v);
      }
      if Reaches(neighbours, u, v) {
        ReachStays(neighbours, IdSet(group), u, v);
      }
    }
  }

  /** One node's neighbours, each either already seen or queued now. */
  method Expand(ghost ids: seq<Id>, neighbours: Arcs, ghost start: Id, ghost before: set<Id>,
                ghost group: seq<Id>, id: Id, queue0: seq<Id>, seen0: set<Id>)
    returns (queue: seq<Id>, seen: set<Id>)
    requires Symmetric(ids, neighbours) && ClosedSet(neighbours, before) && before <= IdSet(ids)
    requires Flooding(neighbours, start, before, group, [id] + queue0, seen0) && seen0 <= IdSet(ids)
    requires ListedUpTo(neighbours, group + [id] + queue0, |group|, 0)
    ensures Flooding(neighbours, start, before, group + [id], queue, seen) && seen <= IdSet(ids)
    ensures ListedUpTo(neighbours, group + [id] + queue, |group| + 1, 0)
    ensures seen0 <= seen && (seen == seen0 ==> queue == queue0)
  {
    hide ListedUpTo, Flooding, Symmetric, ClosedSet, Targets, IdSet, FoundAll;
    queue, seen := queue0, seen0;
    var list := Targets(neighbours, id);
    NoneFound(list, group + [id] + queue0);
    for j := 0 to |list|
      invariant Flooding(neighbours, start, before, group, [id] + queue, seen) && seen <= IdSet(ids)
      invariant ListedUpTo(neighbours, group + [id] + queue, |group|, j)
      invariant FoundAll(list, j, group + [id] + queue)
      invariant seen0 <= seen && (seen == seen0 ==> queue == queue0)
    {
      var next := list[j];
      if next in seen {
        SkipSeen(ids, neighbours, start, before, group, id, queue, seen, j);
        continue;
      }
      TakeUnseen(ids, neighbours, start, before, group, id, queue, seen, j);
      seen := seen + {next};
      queue := queue + [next];
    }
    ExpandedJoins(neighbours, start, before, group, id, queue, seen);
  }

  /** The first `j` of a list are all found. */
  ghost predicate FoundAll(list: seq<Id>, j: nat, found: seq<Id>) {
    forall k :: 0 <= k < j && k < |list| ==> list[k] in found
  }

  lemma NoneFound(list: seq<Id>, found: seq<Id>)
    ensures FoundAll(list, 0, found)
  {
  }

  lemma OneMoreFound(list: seq<Id>, j: nat, found: seq<Id>)
    requires j < |list| && FoundAll(list, j, found)
    ensures FoundAll(list, j + 1, found + [list[j]]) && (list[j] in found ==> FoundAll(list, j + 1, found))
  {
  }

  /** What the flood knows of the node it expands, and of a neighbour of that node. */
  lemma ExpandedNode(ids: seq<Id>, neighbours: Arcs, start: Id, before: set<Id>, group: seq<Id>, id: Id, queue: seq<Id>,
                     seen: set<Id>, next: Id)
    requires Symmetric(ids, neighbours) && ClosedSet(neighbours, before)
    requires Flooding(neighbours, start, before, group, [id] + queue, seen) && next in Targets(neighbours, id)
    ensures Reaches(neighbours, start, id) && next in ids && next !in before
    ensures next in seen ==> next in group + [id] + queue
  {
    hide Reaches;
    assert group + [id] + queue == group + ([id] + queue);
    assert (group + ([id] + queue))[|group|] == id;
    assert id in Targets(neighbours, next);
  }

  lemma SkipSeen(ids: seq<Id>, neighbours: Arcs, start: Id, before: set<Id>, group: seq<Id>, id: Id, queue: seq<Id>,
                 seen: set<Id>, j: nat)
    requires Symmetric(ids, neighbours) && ClosedSet(neighbours, before)
    requires Flooding(neighbours, start, before, group, [id] + queue, seen)
    requires j < |Targets(neighbours, id)| && Targets(neighbours, id)[j] in seen
    requires ListedUpTo(neighbours, group + [id] + queue, |group|, j)
    requires FoundAll(Targets(neighbours, id), j, group + [id] + queue)
    ensures ListedUpTo(neighbours, group + [id] + queue, |group|, j + 1)
    ensures FoundAll(Targets(neighbours, id), j + 1, group + [id] + queue)
  {
    hide ListedUpTo, Flooding, Symmetric, ClosedSet, Targets, FoundAll;
    ExpandedNode(ids, neighbours, start, before, group, id, queue, seen, Targets(neighbours, id)[j]);
    SkipListed(neighbours, group + [id] + queue, |group|, j);
    OneMoreFound(Targets(neighbours, id), j, group + [id] + queue);
  }

  lemma TakeUnseen(ids: seq<Id>, neighbours: Arcs, start: Id, before: set<Id>, group: seq<Id>, id: Id, queue: seq<Id>,
                   seen: set<Id>, j: nat)
    requires Symmetric(ids, neighbours) && ClosedSet(neighbours, before) && seen <= IdSet(ids)
    requires Flooding(neighbours, start, before, group, [id] + queue, seen)
    requires j < |Targets(neighbours, id)| && Targets(neighbours, id)[j] !in seen
    requires ListedUpTo(neighbours, group + [id] + queue, |group|, j)
    requires FoundAll(Targets(neighbours, id), j, group + [id] + queue)
    ensures var next := Targets(neighbours, id)[j];
      && Flooding(neighbours, start, before, group, [id] + (queue + [next]), seen + {next}) && seen + {next} <= IdSet(ids)
      && ListedUpTo(neighbours, group + [id] + (queue + [next]), |group|, j + 1)
      && FoundAll(Targets(neighbours, id), j + 1, group + [id] + (queue + [next]))
  {
    hide ListedUpTo, Flooding, Symmetric, ClosedSet, Targets, Reaches;
    var next := Targets(neighbours, id)[j];
    ExpandedNode(ids, neighbours, start, before, group, id, queue, seen, next);
    FindInFlood(neighbours, start, before, group, id, queue, seen, j);
    ReachesSnoc(neighbours, start, id, next);
    AddFound(neighbours, start, before, group, [id] + queue, seen, next);
    OneMoreFound(Targets(neighbours, id), j, group + [id] + queue);
    assert [id] + queue + [next] == [id] + (queue + [next]);
    assert group + [id] + queue + [next] == group + [id] + (queue + [next]);
  }

  /** With all its neighbours found a node joins the group. */
  lemma ExpandedJoins(neighbours: Arcs, start: Id, before: set<Id>, group: seq<Id>, id: Id, queue: seq<Id>, seen: set<Id>)
    requires Flooding(neighbours, start, before, group, [id] + queue, seen)
    requires ListedUpTo(neighbours, group + [id] + queue, |group|, |Targets(neighbours, id)|)
    requires FoundAll(Targets(neighbours, id), |Targets(neighbours, id)|, group + [id] + queue)
    ensures Flooding(neighbours, start, before, group + [id], queue, seen)
    ensures ListedUpTo(neighbours, group + [id] + queue, |group| + 1, 0)
  {
    hide Reaches, ListedUpTo;
    assert group + [id] + queue == group + ([id] + queue);
    assert (group + [id] + queue)[|group|] == id;
    NextToExpand(neighbours, group + [id] + queue, |group|);
  }

  lemma SkipListed(neighbours: Arcs, found: seq<Id>, e: nat, j: nat)
    requires ListedUpTo(neighbours, found, e, j)
    ensures ListedUpTo(neighbours, found, e, j + 1)
  {
  }

  /** The next neighbour not seen before goes to the end of what is found. */
  lemma FindInFlood(neighbours: Arcs, start: Id, before: set<Id>, group: seq<Id>, id: Id, queue: seq<Id>, seen: set<Id>,
                    j: nat)
    requires Flooding(neighbours, start, before, group, [id] + queue, seen)
    requires j < |Targets(neighbours, id)| && Targets(neighbours, id)[j] !in seen
    requires ListedUpTo(neighbours, group + [id] + queue, |group|, j)
    requires forall k :: 0 <= k < j ==> Targets(neighbours, id)[k] in group + [id] + queue
    ensures ListedUpTo(neighbours, group + [id] + (queue + [Targets(neighbours, id)[j]]), |group|, j + 1)
  {
    hide ListedUpTo;
    var found, next := group + [id] + queue, Targets(neighbours, id)[j];
    assert found == group + ([id] + queue);
    assert found[|group|] == id && next !in found;
    assert forall q :: 0 <= q < |group| ==> found[q] == group[q];
    FindNext(neighbours, found, |group|, j);
    assert group + [id] + (queue + [next]) == found + [next];
  }

  lemma AddFound(neighbours: Arcs, start: Id, before: set<Id>, group: seq<Id>, queue: seq<Id>, seen: set<Id>, next: Id)
    requires Flooding(neighbours, start, before, group, queue, seen)
    requires next !in seen && Reaches(neighbours, start, next)
    ensures Flooding(neighbours, start, before, group, queue + [next], seen + {next})
  {
    var found := group + queue;
    assert group + (queue + [next]) == found + [next];
    assert IdSet(found + [next]) == IdSet(found) + {next};
  }

  /** The inner `while`: the class of a node not seen before. */
  method Flood(ghost ids: seq<Id>, neighbours: Arcs, start: Id, before: set<Id>)
    returns (group: seq<Id>, seen: set<Id>)
    requires Symmetric(ids, neighbours) && ClosedSet(neighbours, before) && before <= IdSet(ids)
    requires start in ids && start !in before
    ensures IsClass(neighbours, group) && group[0] == start
    ensures seen == before + IdSet(group) && before !! IdSet(group)
    ensures ClosedSet(neighbours, seen) && seen <= IdSet(ids)
    ensures IsBreadthFirst(neighbours, group)
  {
    hide Flooding, ClosedSet, IsClass, Symmetric, IsBreadthFirst, FoundUpTo;
    var queue := [start];
    group, seen := [], before + {start};
    StartFlood(neighbours, start, before);
    StartsBreadthFirst(neighbours, start);
    assert group + queue == [start];
    while queue != []
      invariant Flooding(neighbours, start, before, group, queue, seen) && seen <= IdSet(ids)
      invariant ListedUpTo(neighbours, group + queue, |group|, 0)
      decreases |IdSet(ids) - seen|, |queue|
    {
      var id := queue[0];
      assert queue == [id] + queue[1..];
      assert group + queue == group + [id] + queue[1..];
      ghost var seen0 := seen;
      queue, seen := Expand(ids, neighbours, start, before, group, id, queue[1..], seen);
      group := group + [id];
      if seen != seen0 {
        SmallerRest(IdSet(ids), seen0, seen);
      }
    }
    assert group + queue == group;
    FloodIsClass(ids, neighbours, start, before, group, seen);
    FloodIsClosed(ids, neighbours, start, before, group, seen);
  }

  lemma StartFlood(neighbours: Arcs, start: Id, before: set<Id>)
    requires start !in before
    ensures Flooding(neighbours, start, before, [], [start], before + {start})
  {
    ReachesSelf(neighbours, start);
    assert [] + [start] == [start];
  }

  lemma FloodIsClosed(ids: seq<Id>, neighbours: Arcs, start: Id, before: set<Id>, group: seq<Id>, seen: set<Id>)
    requires Flooding(neighbours, start, before, group, [], seen) && ClosedSet(neighbours, before)
    ensures group != [] && group[0] == start && seen == before + IdSet(group) && before !! IdSet(group)
    ensures ClosedSet(neighbours, seen)
  {
    assert group + [] == group;
  }

  lemma SmallerRest(all: set<Id>, a: set<Id>, b: set<Id>)
    requires a <= b <= all && a != b
    ensures |all - b| < |all - a|
  {
    var x :| x in b && x !in a;
    assert all - b <= (all - a) - {x};
    SubsetSize(all - b, (all - a) - {x});
  }

  lemma {:induction false} SubsetSize(a: set<Id>, b: set<Id>)
    requires a <= b
    ensures |a| <= |b|
  {
    if a != {} {
      var x :| x in a;
      SubsetSize(a - {x}, b - {x});
    }
  }

  /** The groups are exactly the classes of undirected reachability, opened in input order, each listed breadth-first.
    */
  method Components(view: AdjacencyView) returns (groups: seq<seq<Id>>, ghost at: seq<nat>)
    requires Symmetric(view.ids, view.neighbours)
    ensures ClassesOf(view.neighbours, groups, IdSet(view.ids))
    ensures InputOrder(view.ids, groups, at, |view.ids|)
    ensures forall i :: 0 <= i < |groups| ==> IsBreadthFirst(view.neighbours, groups[i])
  {
    hide IsBreadthFirst;
    var seen: set<Id> := {};
    groups, at := [], [];
    for i := 0 to |view.ids|
      invariant seen <= IdSet(view.ids) && ClosedSet(view.neighbours, seen)
      invariant IdSet(view.ids[..i]) <= seen
      invariant ClassesOf(view.neighbours, groups, seen)
      invariant InputOrder(view.ids, groups, at, i)
      invariant forall k :: 0 <= k < |groups| ==> IsBreadthFirst(view.neighbours, groups[k])
    {
      var start := view.ids[i];
      assert view.ids[..i + 1] == view.ids[..i] + [start];
      if start in seen { continue; }
      ghost var before := seen;
      var group;
      group, seen := Flood(view.ids, view.neighbours, start, seen);
      AddClass(view.neighbours, groups, before, group);
      OpenGroup(view.ids, groups, at, i, before, group);
      groups := groups + [group];
      at := at + [i];
    }
    assert view.ids[..|view.ids|] == view.ids;
    assert seen == IdSet(view.ids);
  }

  lemma AddClass(neighbours: Arcs, groups: seq<seq<Id>>, before: set<Id>, group: seq<Id>)
    requires ClassesOf(neighbours, groups, before)
    requires IsClass(neighbours, group) && before !! IdSet(group)
    ensures ClassesOf(neighbours, groups + [group], before + IdSet(group))
  {
    var groups' := groups + [group];
    forall v | v in before + IdSet(group)
      ensures exists i :: 0 <= i < |groups'| && v in groups'[i]
    {
      if v in before {
        var i :| 0 <= i < |groups| && v in groups[i];
        assert v in groups'[i];
      } else {
        assert v in groups'[|groups|];
      }
    }
  }

  lemma OpenGroup(ids: seq<Id>, groups: seq<seq<Id>>, at: seq<nat>, i: nat, before: set<Id>, group: seq<Id>)
    requires InputOrder(ids, groups, at, i) && i < |ids|
    requires IdSet(ids[..i]) <= before && before !! IdSet(group)
    requires group != [] && group[0] == ids[i]
    ensures InputOrder(ids, groups + [group], at + [i], i + 1)
  {
    forall k | 0 <= k < i
      ensures ids[k] !in group
    {
      assert ids[..i][k] == ids[k];
      assert ids[k] in IdSet(ids[..i]);
      assert ids[k] !in IdSet(group);
    }
  }

  // ---------------------------------------------------------------- the order of the members

  lemma ClassIsExpanded(neighbours: Arcs, group: seq<Id>)
    requires IsClass(neighbours, group)
    ensures Expanded(neighbours, group, |group|)
  {
    forall q: nat, v {:trigger v in Targets(neighbours, group[q])} | q < |group| && v in Targets(neighbours, group[q])
      ensures v in group
    {
      ReachesSelf(neighbours, group[q]);
      ReachesSnoc(neighbours, group[q], group[q], v);
    }
  }

  /** Members come by nondecreasing distance from the first: whatever walk leads to a later one, one no longer leads
    * to an earlier one.
    */
  lemma MembersComeByDistance(neighbours: Arcs, group: seq<Id>, i: nat, j: nat, w: seq<Id>) returns (v: seq<Id>)
    requires IsClass(neighbours, group) && IsBreadthFirst(neighbours, group) && i <= j < |group|
    requires WalkFrom(neighbours, w, group[0], group[j])
    ensures WalkFrom(neighbours, v, group[0], group[i]) && |v| <= |w|
  {
    ClassIsExpanded(neighbours, group);
    v := DistanceOrder(neighbours, group, i, j, w);
  }

  /** What `start` is connected to, in input order. */
  ghost function ClassIn(ids: seq<Id>, neighbours: Arcs, start: Id): seq<Id> {
    if ids == [] then []
    else
      var front, id := ids[..|ids| - 1], ids[|ids| - 1];
      ClassIn(front, neighbours, start) + if Reaches(neighbours, start, id) then [id] else []
  }

  lemma {:induction false} ClassInMembers(ids: seq<Id>, neighbours: Arcs, start: Id)
    ensures forall v :: v in ClassIn(ids, neighbours, start) <==> v in ids && Reaches(neighbours, start, v)
  {
    if ids != [] {
      ClassInMembers(ids[..|ids| - 1], neighbours, start);
      hide Reaches;
      assert ids == ids[..|ids| - 1] + [ids[|ids| - 1]];
    }
  }

  lemma NoMembers(c: seq<Id>)
    ensures (forall v :: v !in c) ==> c == []
  {
    assert c != [] ==> c[0] in c;
  }

  lemma {:induction false} ClassInStarts(ids: seq<Id>, neighbours: Arcs, start: Id, at: nat)
    requires at < |ids| && ids[at] == start && forall k :: 0 <= k < at ==> !Reaches(neighbours, start, ids[k])
    ensures var c := ClassIn(ids, neighbours, start); c != [] && c[0] == start
  {
    var front := ids[..|ids| - 1];
    if at < |front| {
      ClassInStarts(front, neighbours, start, at);
    } else {
      ReachesSelf(neighbours, start);
      ClassInMembers(front, neighbours, start);
      hide Reaches;
      NoMembers(ClassIn(front, neighbours, start));
    }
  }

  /** A component comes in input order exactly when its ids in input order are a breadth-first listing: each after the
    * first has an earlier neighbour, and those found from an earlier one, or earlier by the same one, come earlier.
    */
  lemma InInputOrderExactlyWhen(ids: seq<Id>, neighbours: Arcs, group: seq<Id>, at: nat)
    requires IsClass(neighbours, group) && IsBreadthFirst(neighbours, group) && IdSet(group) <= IdSet(ids)
    requires at < |ids| && group[0] == ids[at] && forall k :: 0 <= k < at ==> ids[k] !in group
    ensures group == ClassIn(ids, neighbours, group[0]) <==> IsBreadthFirst(neighbours, ClassIn(ids, neighbours, group[0]))
  {
    var start := group[0];
    var other := ClassIn(ids, neighbours, start);
    assert start in group;
    assert forall k :: 0 <= k < at ==> !Reaches(neighbours, start, ids[k]);
    ClassInMembers(ids, neighbours, start);
    ClassInStarts(ids, neighbours, start, at);
    assert forall v :: v in group ==> v in IdSet(group);
    assert forall v :: v in IdSet(ids) ==> v in ids;
    if IsBreadthFirst(neighbours, other) {
      OrderIsDetermined(neighbours, group, other);
    }
  }

  /** The listing meets an id here before any other that it is connected to. */
  ghost predicate FirstOfClass(ids: seq<Id>, neighbours: Arcs, k: nat) {
    k < |ids| && forall j :: 0 <= j < k ==> !Reaches(neighbours, ids[k], ids[j])
  }

  /** A graph whose classes, taken in input order, are breadth-first listings. */
  ghost predicate ListsBreadthFirst(view: AdjacencyView) {
    forall k: nat {:trigger FirstOfClass(view.ids, view.neighbours, k)} ::
      FirstOfClass(view.ids, view.neighbours, k) ==>
        IsBreadthFirst(view.neighbours, ClassIn(view.ids, view.neighbours, view.ids[k]))
  }

  ghost predicate EachInInputOrder(view: AdjacencyView, groups: seq<seq<Id>>) {
    forall i :: 0 <= i < |groups| ==> groups[i] != [] && groups[i] == ClassIn(view.ids, view.neighbours, groups[i][0])
  }

  lemma GroupsOpenFirst(view: AdjacencyView, groups: seq<seq<Id>>, at: seq<nat>, i: nat)
    requires ClassesOf(view.neighbours, groups, IdSet(view.ids)) && InputOrder(view.ids, groups, at, |view.ids|)
    requires i < |groups|
    ensures FirstOfClass(view.ids, view.neighbours, at[i])
  {
    assert groups[i][0] in groups[i];
  }

  lemma FirstOpensGroup(view: AdjacencyView, groups: seq<seq<Id>>, at: seq<nat>, k: nat) returns (i: nat)
    requires ClassesOf(view.neighbours, groups, IdSet(view.ids)) && InputOrder(view.ids, groups, at, |view.ids|)
    requires FirstOfClass(view.ids, view.neighbours, k)
    ensures i < |groups| && at[i] == k
  {
    assert view.ids[k] in IdSet(view.ids);
    i :| 0 <= i < |groups| && view.ids[k] in groups[i];
    assert groups[i][0] in groups[i];
    assert Reaches(view.neighbours, view.ids[k], view.ids[at[i]]);
  }

  /** Every component comes in input order exactly when the graph lists breadth-first. */
  lemma AllInInputOrderExactlyWhen(view: AdjacencyView, groups: seq<seq<Id>>, at: seq<nat>)
    requires ClassesOf(view.neighbours, groups, IdSet(view.ids)) && InputOrder(view.ids, groups, at, |view.ids|)
    requires forall i :: 0 <= i < |groups| ==> IsBreadthFirst(view.neighbours, groups[i])
    ensures EachInInputOrder(view, groups) <==> ListsBreadthFirst(view)
  {
    forall i | 0 <= i < |groups|
      ensures groups[i] == ClassIn(view.ids, view.neighbours, view.ids[at[i]]) <==>
        IsBreadthFirst(view.neighbours, ClassIn(view.ids, view.neighbours, view.ids[at[i]]))
      ensures FirstOfClass(view.ids, view.neighbours, at[i])
    {
      assert IdSet(groups[i]) <= IdSet(view.ids);
      InInputOrderExactlyWhen(view.ids, view.neighbours, groups[i], at[i]);
      GroupsOpenFirst(view, groups, at, i);
    }
    if EachInInputOrder(view, groups) {
      forall k: nat | FirstOfClass(view.ids, view.neighbours, k)
        ensures IsBreadthFirst(view.neighbours, ClassIn(view.ids, view.neighbours, view.ids[k]))
      {
        var i := FirstOpensGroup(view, groups, at, k);
        assert groups[i] == ClassIn(view.ids, view.neighbours, view.ids[at[i]]);
      }
    }
  }

  // ---------------------------------------------------------------- a component out of input order

  /** Three cards in a row, the middle one listed last. */
  function TwigGraph(): Graph {
    Graph([Node("A", 0.0, 0.0, 1.0, 1.0, false), Node("B", 0.0, 0.0, 1.0, 1.0, false),
           Node("C", 0.0, 0.0, 1.0, 1.0, false)],
          [Edge("e1", "A", "C"), Edge("e2", "C", "B")])
  }

  lemma TwigIds()
    ensures Ids(TwigGraph().nodes) == ["A", "B", "C"]
    ensures IdSet(Ids(TwigGraph().nodes)) == {"A", "B", "C"}
  {
    assert Ids(TwigGraph().nodes) == ["A", "B", "C"];
  }

  lemma KeptEdgesSnoc(ids: set<Id>, front: seq<Edge>, e: Edge)
    requires Keeps(ids, KeptEdges(ids, front), e)
    ensures KeptEdges(ids, front + [e]) == KeptEdges(ids, front) + [e]
  {
    assert (front + [e])[..|front|] == front;
  }

  lemma TwigKeysDiffer()
    ensures EdgeKey("A", "C") != EdgeKey("C", "B")
  {
    assert EdgeKey("A", "C")[0] == 'A' && EdgeKey("C", "B")[0] == 'C';
  }

  lemma TwigEdges(ids: set<Id>)
    requires ids == {"A", "B", "C"}
    ensures KeptEdges(ids, TwigGraph().edges) == TwigGraph().edges
  {
    hide EdgeKey;
    TwigKeysDiffer();
    var e1, e2 := TwigGraph().edges[0], TwigGraph().edges[1];
    hide TwigGraph;
    assert KeptEdges(ids, []) == [] && KeySet([]) == {};
    KeptEdgesSnoc(ids, [], e1);
    assert [] + [e1] == [e1];
    hide KeptEdges;
    assert KeySet([e1]) == {EdgeKey("A", "C")};
    KeptEdgesSnoc(ids, [e1], e2);
    assert TwigGraph().edges == [e1] + [e2];
  }

  lemma NeighboursSnoc(front: seq<Edge>, e: Edge, u: Id)
    ensures NeighboursOf(front + [e], u) ==
      if e.source == u then AddOnce(NeighboursOf(front, u), e.target)
      else if e.target == u then AddOnce(NeighboursOf(front, u), e.source)
      else NeighboursOf(front, u)
  {
    assert (front + [e])[..|front|] == front;
  }

  lemma TwigNeighboursOf(u: Id)
    ensures NeighboursOf(TwigGraph().edges, u) == if u == "C" then ["A", "B"] else if u in {"A", "B"} then ["C"] else []
  {
    var e1, e2 := Edge("e1", "A", "C"), Edge("e2", "C", "B");
    assert [] + [e1] == [e1] && [e1] + [e2] == [e1, e2];
    NeighboursSnoc([], e1, u);
    NeighboursSnoc([e1], e2, u);
  }

  lemma TwigNeighbours()
    ensures ViewOf(TwigGraph()).ids == ["A", "B", "C"]
    ensures ViewOf(TwigGraph()).neighbours == map["A" := ["C"], "B" := ["C"], "C" := ["A", "B"]]
  {
    hide KeptEdges, NeighboursOf, OutOf, InOf, TwigGraph;
    TwigIds();
    TwigEdges({"A", "B", "C"});
    TwigNeighboursOf("A");
    TwigNeighboursOf("B");
    TwigNeighboursOf("C");
  }

  /** The component of the row is not in input order, whatever else `Components` may be free to do. */
  lemma InputOrderIsNotKept(groups: seq<seq<Id>>, at: seq<nat>)
    requires var view := ViewOf(TwigGraph());
      && ClassesOf(view.neighbours, groups, IdSet(view.ids)) && InputOrder(view.ids, groups, at, |view.ids|)
      && forall i :: 0 <= i < |groups| ==> IsBreadthFirst(view.neighbours, groups[i])
    ensures groups == [["A", "C", "B"]]
    ensures var view := ViewOf(TwigGraph()); ClassIn(view.ids, view.neighbours, "A") == ["A", "B", "C"]
  {
    var view := ViewOf(TwigGraph());
    TwigNeighbours();
    hide ViewOf, ClassesOf, IsBreadthFirst;
    TwigIsConnected(view);
    assert FirstOfClass(view.ids, view.neighbours, 0);
    var i := FirstOpensGroup(view, groups, at, 0);
    OneGroup(view, groups, at, i);
    TwigOrder(view.neighbours, groups[0]);
    TwigInInputOrder(view);
  }

  lemma TwigIsConnected(view: AdjacencyView)
    requires view.ids == ["A", "B", "C"]
    requires view.neighbours == map["A" := ["C"], "B" := ["C"], "C" := ["A", "B"]]
    ensures forall v :: v in view.ids <==> Reaches(view.neighbours, "A", v)
  {
    var nb := view.neighbours;
    ReachesSelf(nb, "A");
    assert Targets(nb, "A") == ["C"] && Targets(nb, "B") == ["C"] && Targets(nb, "C") == ["A", "B"];
    assert ["C"][0] == "C" && ["A", "B"][1] == "B";
    ReachesSnoc(nb, "A", "A", "C");
    ReachesSnoc(nb, "A", "C", "B");
    var s := {"A", "B", "C"};
    assert ClosedSet(nb, s);
    forall v | Reaches(nb, "A", v)
      ensures v in view.ids
    {
      ReachStays(nb, s, "A", v);
    }
  }

  lemma FirstIsLeast(at: seq<nat>, i: nat)
    requires i < |at| && forall j, k :: 0 <= j < k < |at| ==> at[j] < at[k]
    ensures i == 0 || at[0] < at[i]
  {
  }

  lemma OneGroup(view: AdjacencyView, groups: seq<seq<Id>>, at: seq<nat>, i: nat)
    requires ClassesOf(view.neighbours, groups, IdSet(view.ids)) && InputOrder(view.ids, groups, at, |view.ids|)
    requires i < |groups| && at[i] == 0 && forall v :: v in view.ids ==> Reaches(view.neighbours, view.ids[0], v)
    ensures |groups| == 1 && groups[0][0] == view.ids[0]
    ensures forall v :: v in groups[0] <==> v in view.ids
  {
    assert IsClass(view.neighbours, groups[i]);
    var start := groups[i][0];
    assert start in groups[i] && start == view.ids[0];
    assert forall v :: v in view.ids ==> v in groups[i];
    assert IdSet(groups[i]) <= IdSet(view.ids);
    hide Reaches, IsClass;
    FirstIsLeast(at, i);
    forall v | v in groups[0]
      ensures v in view.ids
    {
      assert v in IdSet(groups[0]);
    }
    NoOtherGroup(view, groups);
  }

  lemma OthersHoldOthers(view: AdjacencyView, groups: seq<seq<Id>>)
    requires ClassesOf(view.neighbours, groups, IdSet(view.ids)) && |groups| > 1
    ensures groups[1] != [] && groups[1][0] in view.ids && groups[1][0] !in groups[0]
  {
    hide Reaches;
    assert IsClass(view.neighbours, groups[1]);
    assert groups[1][0] in IdSet(groups[1]) && groups[1][0] !in IdSet(groups[0]);
  }

  lemma NoOtherGroup(view: AdjacencyView, groups: seq<seq<Id>>)
    requires ClassesOf(view.neighbours, groups, IdSet(view.ids)) && groups != []
    requires forall v :: v in view.ids ==> v in groups[0]
    ensures |groups| == 1
  {
    hide ClassesOf;
    if |groups| > 1 {
      OthersHoldOthers(view, groups);
    }
  }

  lemma TwigOrder(nb: Arcs, group: seq<Id>)
    requires nb == map["A" := ["C"], "B" := ["C"], "C" := ["A", "B"]]
    requires IsBreadthFirst(nb, group) && group[0] == "A" && forall v :: v in group <==> v in ["A", "B", "C"]
    ensures group == ["A", "C", "B"]
  {
    var twig := ["A", "C", "B"];
    assert FoundBy(nb, twig, 1, 0) && FoundBy(nb, twig, 2, 1);
    assert HasFinder(nb, twig, 1) && HasFinder(nb, twig, 2);
    OrderIsDetermined(nb, group, twig);
  }

  lemma TwigInInputOrder(view: AdjacencyView)
    requires view.ids == ["A", "B", "C"]
    requires forall v :: v in view.ids <==> Reaches(view.neighbours, "A", v)
    ensures ClassIn(view.ids, view.neighbours, "A") == ["A", "B", "C"]
  {
    hide Reaches, ClassIn;
    var nb := view.neighbours;
    assert view.ids[0] == "A" && view.ids[1] == "B" && view.ids[2] == "C";
    ClassInSnoc([], "A", nb, "A");
    ClassInSnoc(["A"], "B", nb, "A");
    ClassInSnoc(["A", "B"], "C", nb, "A");
    assert [] + ["A"] == ["A"] && ["A"] + ["B"] == ["A", "B"] && ["A", "B"] + ["C"] == ["A", "B", "C"];
    NoMembersIn(nb, "A");
  }

  lemma ClassInSnoc(front: seq<Id>, id: Id, nb: Arcs, start: Id)
    requires Reaches(nb, start, id)
    ensures ClassIn(front + [id], nb, start) == ClassIn(front, nb, start) + [id]
  {
    assert (front + [id])[..|front|] == front;
  }

  lemma NoMembersIn(nb: Arcs, start: Id)
    ensures ClassIn([], nb, start) == []
  {
  }
}
