/** Cycle removal: the explicit-stack depth-first search that finds the edges closing a cycle, and
  * the view with those edges dropped.
  */
module CycleRemoval {
  import opened Walks
  import opened LayoutGraph
  import opened SearchTree
  import DepthFirst

  datatype Mark = White | Grey | Black
  datatype Frame = Frame(id: Id, cursor: nat)

  ghost predicate ClosedOver(ids: set<Id>, out: Arcs) {
    forall u, v {:trigger v in Targets(out, u)} :: v in Targets(out, u) ==> u in ids && v in ids
  }

  /** `key` names an arc of the graph that some walk closes into a cycle. */
  ghost predicate ClosesCycle(out: Arcs, key: string) {
    exists u, v :: key == EdgeKey(u, v) && v in Targets(out, u) && Reaches(out, v, u)
  }

  /** `order` falls along every arc whose key is not in `back`. */
  ghost predicate FallsExcept(out: Arcs, back: set<string>, order: map<Id, nat>) {
    forall u, v {:trigger v in Targets(out, u)} ::
      v in Targets(out, u) && EdgeKey(u, v) !in back ==> u in order && v in order && order[v] < order[u]
  }

  // ---------------------------------------------------------------- the search invariant

  function StackIds(stack: seq<Frame>): (ids: seq<Id>)
    ensures |ids| == |stack| && forall i :: 0 <= i < |stack| ==> ids[i] == stack[i].id
  {
    seq(|stack|, i requires 0 <= i < |stack| => stack[i].id)
  }

  /** Every finished node falls to its targets, except along recorded back edges. */
  ghost predicate Settled(out: Arcs, back: set<string>, finish: map<Id, nat>, u: Id) {
    && u in finish
    && finish[u] < |finish|
    && forall v :: v in Targets(out, u) ==>
         EdgeKey(u, v) in back || (v in finish && finish[v] < finish[u])
  }

  ghost predicate AllSettled(out: Arcs, back: set<string>, finish: map<Id, nat>) {
    forall u {:trigger Settled(out, back, finish, u)} :: u in finish ==> Settled(out, back, finish, u)
  }

  /** Frame `i` has dealt with its first `cursor` targets: each is a back edge, finished, or the
    * node the next frame is exploring.
    */
  ghost predicate FrameOk(out: Arcs, back: set<string>, finish: map<Id, nat>, stack: seq<Frame>, i: nat)
    requires i < |stack|
  {
    && stack[i].cursor <= |Targets(out, stack[i].id)|
    && forall j :: 0 <= j < stack[i].cursor ==>
         var v := Targets(out, stack[i].id)[j];
         EdgeKey(stack[i].id, v) in back || v in finish || (i + 1 < |stack| && v == stack[i + 1].id)
  }

  ghost predicate FramesOk(out: Arcs, back: set<string>, finish: map<Id, nat>, stack: seq<Frame>) {
    forall i: nat {:trigger FrameOk(out, back, finish, stack, i)} ::
      i < |stack| ==> FrameOk(out, back, finish, stack, i)
  }

  /** The marks say which nodes are finished (black) and which are on the stack (grey). */
  ghost predicate Marks(ids: set<Id>, state: map<Id, Mark>, finish: map<Id, nat>, stack: seq<Frame>) {
    && state.Keys == ids
    && finish.Keys <= ids
    && (forall u :: u in ids ==> (state[u] == Black <==> u in finish))
    && (forall u :: u in ids ==> (state[u] == Grey <==> u in StackIds(stack)))
    && (forall u :: u in StackIds(stack) ==> u in ids)
    && NoDup(StackIds(stack))
  }

  ghost predicate AllClose(out: Arcs, back: set<string>) {
    forall key :: key in back ==> ClosesCycle(out, key)
  }

  ghost predicate Searching(ids: set<Id>, out: Arcs, state: map<Id, Mark>, back: set<string>,
                            finish: map<Id, nat>, stack: seq<Frame>)
  {
    && Marks(ids, state, finish, stack)
    && (stack == [] || IsWalk(out, StackIds(stack)))
    && FramesOk(out, back, finish, stack)
    && AllSettled(out, back, finish)
    && AllClose(out, back)
  }

  // ---------------------------------------------------------------- one lemma per transition

  /** A grey target is on the stack, so the stack itself walks from it back to the top frame. */
  lemma BackEdgeCloses(out: Arcs, stack: seq<Frame>, v: Id)
    requires stack != [] && IsWalk(out, StackIds(stack))
    requires v in StackIds(stack) && v in Targets(out, stack[|stack| - 1].id)
    ensures ClosesCycle(out, EdgeKey(stack[|stack| - 1].id, v))
  {
    var ids := StackIds(stack);
    var k :| 0 <= k < |ids| && ids[k] == v;
    WalkSlice(out, ids, k, |ids|);
    assert WalkFrom(out, ids[k..|ids|], v, ids[|ids| - 1]);
  }

  lemma OneMore(finish: map<Id, nat>, u: Id)
    requires u !in finish
    ensures |finish[u := |finish|]| == |finish| + 1
  {
    assert finish[u := |finish|].Keys == finish.Keys + {u};
  }

  lemma StaysSettled(out: Arcs, back: set<string>, finish: map<Id, nat>, u: Id, w: Id)
    requires Settled(out, back, finish, w) && u !in finish
    ensures Settled(out, back, finish[u := |finish|], w)
  {
    OneMore(finish, u);
  }

  lemma NewlySettled(out: Arcs, back: set<string>, finish: map<Id, nat>, u: Id)
    requires AllSettled(out, back, finish) && u !in finish
    requires forall v :: v in Targets(out, u) ==> EdgeKey(u, v) in back || v in finish
    ensures Settled(out, back, finish[u := |finish|], u)
  {
    hide EdgeKey, Targets;
    var finish' := finish[u := |finish|];
    OneMore(finish, u);
    forall v | v in Targets(out, u) && EdgeKey(u, v) !in back
      ensures v in finish' && finish'[v] < finish'[u]
    {
      assert Settled(out, back, finish, v);
    }
  }

  lemma FinishSettles(out: Arcs, back: set<string>, finish: map<Id, nat>, u: Id)
    requires AllSettled(out, back, finish) && u !in finish
    requires forall v :: v in Targets(out, u) ==> EdgeKey(u, v) in back || v in finish
    ensures AllSettled(out, back, finish[u := |finish|])
  {
    hide Settled;
    forall w {:trigger Settled(out, back, finish[u := |finish|], w)} | w in finish[u := |finish|]
      ensures Settled(out, back, finish[u := |finish|], w)
    {
      if w == u {
        NewlySettled(out, back, finish, u);
      } else {
        assert Settled(out, back, finish, w);
        StaysSettled(out, back, finish, u, w);
      }
    }
  }

  lemma PopFrames(out: Arcs, back: set<string>, finish: map<Id, nat>, stack: seq<Frame>)
    requires stack != [] && FramesOk(out, back, finish, stack)
    ensures FramesOk(out, back, finish[stack[|stack| - 1].id := |finish|], stack[..|stack| - 1])
  {
    var top := stack[|stack| - 1];
    var finish', stack' := finish[top.id := |finish|], stack[..|stack| - 1];
    forall i: nat | i < |stack'|
      ensures FrameOk(out, back, finish', stack', i)
    {
      assert FrameOk(out, back, finish, stack, i);
      assert stack'[i] == stack[i];
      if i + 1 < |stack'| { assert stack'[i + 1] == stack[i + 1]; }
    }
  }

  lemma PopMarks(ids: set<Id>, state: map<Id, Mark>, finish: map<Id, nat>, stack: seq<Frame>)
    requires stack != [] && Marks(ids, state, finish, stack)
    ensures var top := stack[|stack| - 1].id;
      Marks(ids, state[top := Black], finish[top := |finish|], stack[..|stack| - 1])
  {
    var all := StackIds(stack);
    var rest := StackIds(stack[..|stack| - 1]);
    assert all == rest + [stack[|stack| - 1].id];
  }

  lemma Pop(ids: set<Id>, out: Arcs, state: map<Id, Mark>, back: set<string>,
            finish: map<Id, nat>, stack: seq<Frame>)
    requires stack != [] && Searching(ids, out, state, back, finish, stack)
    requires stack[|stack| - 1].cursor >= |Targets(out, stack[|stack| - 1].id)|
    ensures var top := stack[|stack| - 1].id;
      Searching(ids, out, state[top := Black], back, finish[top := |finish|], stack[..|stack| - 1])
  {
    hide ClosesCycle, IsWalk;
    var n := |stack|;
    var top := stack[n - 1].id;
    assert FrameOk(out, back, finish, stack, n - 1);
    assert top in StackIds(stack) by { assert StackIds(stack)[n - 1] == top; }
    assert state[top] == Grey;
    FinishSettles(out, back, finish, top);
    PopFrames(out, back, finish, stack);
    PopMarks(ids, state, finish, stack);
    if n > 1 {
      WalkSlice(out, StackIds(stack), 0, n - 1);
      assert StackIds(stack)[0..n - 1] == StackIds(stack[..n - 1]);
    }
  }

  /** Moving the top cursor past a target that is finished or a (now recorded) back edge. */
  lemma Advance(ids: set<Id>, out: Arcs, state: map<Id, Mark>, back: set<string>, back': set<string>,
                finish: map<Id, nat>, stack: seq<Frame>)
    requires stack != [] && Searching(ids, out, state, back, finish, stack)
    requires stack[|stack| - 1].cursor < |Targets(out, stack[|stack| - 1].id)|
    requires var top := stack[|stack| - 1]; var v := Targets(out, top.id)[top.cursor];
      || (back' == back && v in finish)
      || (back' == back + {EdgeKey(top.id, v)} && ClosesCycle(out, EdgeKey(top.id, v)))
    ensures var top := stack[|stack| - 1];
      Searching(ids, out, state, back', finish, stack[|stack| - 1 := top.(cursor := top.cursor + 1)])
  {
    hide Marks, IsWalk, ClosesCycle;
    var n := |stack|;
    var top := stack[n - 1];
    var stack' := stack[n - 1 := top.(cursor := top.cursor + 1)];
    assert StackIds(stack') == StackIds(stack);
    MarksById(ids, state, finish, stack, stack');
    AdvanceSettled(out, back, back', finish);
    AdvanceFrames(out, back, back', finish, stack);
  }

  lemma MarksById(ids: set<Id>, state: map<Id, Mark>, finish: map<Id, nat>, stack: seq<Frame>, stack': seq<Frame>)
    requires Marks(ids, state, finish, stack) && StackIds(stack') == StackIds(stack)
    ensures Marks(ids, state, finish, stack')
  {
  }

  lemma AdvanceSettled(out: Arcs, back: set<string>, back': set<string>, finish: map<Id, nat>)
    requires AllSettled(out, back, finish) && back <= back'
    ensures AllSettled(out, back', finish)
  {
    forall u | u in finish
      ensures Settled(out, back', finish, u)
    {
      assert Settled(out, back, finish, u);
    }
  }

  lemma AdvanceFrames(out: Arcs, back: set<string>, back': set<string>, finish: map<Id, nat>, stack: seq<Frame>)
    requires stack != [] && FramesOk(out, back, finish, stack) && back <= back'
    requires stack[|stack| - 1].cursor < |Targets(out, stack[|stack| - 1].id)|
    requires var top := stack[|stack| - 1]; var v := Targets(out, top.id)[top.cursor];
      v in finish || EdgeKey(top.id, v) in back'
    ensures var top := stack[|stack| - 1];
      FramesOk(out, back', finish, stack[|stack| - 1 := top.(cursor := top.cursor + 1)])
  {
    var n := |stack|;
    var top := stack[n - 1];
    var stack' := stack[n - 1 := top.(cursor := top.cursor + 1)];
    forall i: nat | i < n
      ensures FrameOk(out, back', finish, stack', i)
    {
      assert FrameOk(out, back, finish, stack, i);
      if i + 1 < n { assert stack'[i + 1].id == stack[i + 1].id; }
    }
  }

  lemma PushMarks(ids: set<Id>, state: map<Id, Mark>, finish: map<Id, nat>, stack: seq<Frame>, v: Id)
    requires Marks(ids, state, finish, stack) && v in ids && state[v] == White
    ensures Marks(ids, state[v := Grey], finish, stack + [Frame(v, 0)])
  {
    assert StackIds(stack + [Frame(v, 0)]) == StackIds(stack) + [v];
  }

  /** Descending into a fresh target. */
  lemma Push(ids: set<Id>, out: Arcs, state: map<Id, Mark>, back: set<string>,
             finish: map<Id, nat>, stack: seq<Frame>)
    requires ClosedOver(ids, out)
    requires stack != [] && Searching(ids, out, state, back, finish, stack)
    requires stack[|stack| - 1].cursor < |Targets(out, stack[|stack| - 1].id)|
    requires var v := Targets(out, stack[|stack| - 1].id)[stack[|stack| - 1].cursor];
      v in ids && state[v] == White
    ensures var top := stack[|stack| - 1]; var v := Targets(out, top.id)[top.cursor];
      Searching(ids, out, state[v := Grey], back, finish,
        stack[|stack| - 1 := top.(cursor := top.cursor + 1)] + [Frame(v, 0)])
  {
    hide Marks, IsWalk, AllSettled, AllClose;
    var n := |stack|;
    var top := stack[n - 1];
    var v := Targets(out, top.id)[top.cursor];
    var moved := stack[n - 1 := top.(cursor := top.cursor + 1)];
    assert StackIds(moved) == StackIds(stack);
    MarksById(ids, state, finish, stack, moved);
    PushMarks(ids, state, finish, moved, v);
    WalkSnoc(out, StackIds(stack), v);
    assert StackIds(moved + [Frame(v, 0)]) == StackIds(stack) + [v];
    PushFrames(out, back, finish, stack);
  }

  lemma PushFrames(out: Arcs, back: set<string>, finish: map<Id, nat>, stack: seq<Frame>)
    requires stack != [] && FramesOk(out, back, finish, stack)
    requires stack[|stack| - 1].cursor < |Targets(out, stack[|stack| - 1].id)|
    ensures var top := stack[|stack| - 1]; var v := Targets(out, top.id)[top.cursor];
      FramesOk(out, back, finish, stack[|stack| - 1 := top.(cursor := top.cursor + 1)] + [Frame(v, 0)])
  {
    var n := |stack|;
    var top := stack[n - 1];
    var v := Targets(out, top.id)[top.cursor];
    var stack' := stack[n - 1 := top.(cursor := top.cursor + 1)] + [Frame(v, 0)];
    forall i: nat | i < |stack'|
      ensures FrameOk(out, back, finish, stack', i)
    {
      if i < n {
        assert FrameOk(out, back, finish, stack, i);
        assert stack'[i].id == stack[i].id;
        if i + 1 < n { assert stack'[i + 1].id == stack[i + 1].id; }
      }
    }
  }

  // ---------------------------------------------------------------- the search tree

  /** The tree of the search so far, when keys tell arcs apart. */
  ghost predicate Grown(out: Arcs, back: set<string>, finish: map<Id, nat>, stack: seq<Frame>, tree: Tree) {
    KeysAreUnique(out) ==> Spans(out, back, finish.Keys, StackIds(stack), tree)
  }

  lemma NothingGrown(out: Arcs)
    ensures Grown(out, {}, map[], [], {})
  {
  }

  lemma GrowsFromRoot(out: Arcs, back: set<string>, finish: map<Id, nat>, tree: Tree, root: Id)
    requires Grown(out, back, finish, [], tree)
    ensures Grown(out, back, finish, [Frame(root, 0)], tree)
  {
    assert StackIds([]) == [] && StackIds([Frame(root, 0)]) == [root];
    hide Spans;
    if KeysAreUnique(out) { SpansFromRoot(out, back, finish.Keys, tree, root); }
  }

  lemma GrowsByPush(ids: set<Id>, out: Arcs, state: map<Id, Mark>, back: set<string>, finish: map<Id, nat>,
                    stack: seq<Frame>, tree: Tree, v: Id)
    requires Marks(ids, state, finish, stack) && stack != [] && Grown(out, back, finish, stack, tree)
    requires v in Targets(out, stack[|stack| - 1].id) && v in ids && state[v] == White
    ensures var top := stack[|stack| - 1];
      Grown(out, back, finish, stack[|stack| - 1 := top.(cursor := top.cursor + 1)] + [Frame(v, 0)], tree + {(top.id, v)})
  {
    hide Spans, KeysAreUnique, Targets;
    var top := stack[|stack| - 1];
    var stack' := stack[|stack| - 1 := top.(cursor := top.cursor + 1)] + [Frame(v, 0)];
    assert StackIds(stack') == StackIds(stack) + [v];
    assert v !in StackIds(stack) && v !in finish;
    if KeysAreUnique(out) { SpansPush(out, back, finish.Keys, StackIds(stack), tree, v); }
  }

  lemma GrowsByCut(ids: set<Id>, out: Arcs, state: map<Id, Mark>, back: set<string>, finish: map<Id, nat>,
                   stack: seq<Frame>, tree: Tree, v: Id)
    requires Marks(ids, state, finish, stack) && stack != [] && Grown(out, back, finish, stack, tree)
    requires v in Targets(out, stack[|stack| - 1].id) && v in ids && state[v] == Grey
    ensures var top := stack[|stack| - 1];
      Grown(out, back + {EdgeKey(top.id, v)}, finish, stack[|stack| - 1 := top.(cursor := top.cursor + 1)], tree)
  {
    hide Spans, KeysAreUnique, Targets, EdgeKey;
    assert v in StackIds(stack) && v !in finish;
    GrownById(out, back, finish, stack, tree);
    if KeysAreUnique(out) { SpansCut(out, back, finish.Keys, StackIds(stack), tree, v); }
  }

  lemma GrownById(out: Arcs, back: set<string>, finish: map<Id, nat>, stack: seq<Frame>, tree: Tree)
    requires stack != []
    ensures var top := stack[|stack| - 1];
      StackIds(stack[|stack| - 1 := top.(cursor := top.cursor + 1)]) == StackIds(stack)
  {
  }

  lemma GrowsByPop(out: Arcs, back: set<string>, finish: map<Id, nat>, stack: seq<Frame>, tree: Tree)
    requires stack != [] && Grown(out, back, finish, stack, tree)
    ensures var top := stack[|stack| - 1].id;
      Grown(out, back, finish[top := |finish|], stack[..|stack| - 1], tree)
  {
    hide Spans, KeysAreUnique;
    PopIds(stack);
    FinishKeys(finish, stack[|stack| - 1].id);
    if KeysAreUnique(out) { SpansPop(out, back, finish.Keys, StackIds(stack), tree); }
  }

  lemma PopIds(stack: seq<Frame>)
    requires stack != []
    ensures StackIds(stack[..|stack| - 1]) == StackIds(stack)[..|stack| - 1]
    ensures StackIds(stack)[|stack| - 1] == stack[|stack| - 1].id
  {
  }

  lemma FinishKeys(finish: map<Id, nat>, id: Id)
    ensures finish[id := |finish|].Keys == finish.Keys + {id}
  {
  }

  /** What is left of the tree once the search is over. */
  lemma GrownIsIrredundant(out: Arcs, back: set<string>, finish: map<Id, nat>, tree: Tree)
    requires Grown(out, back, finish, [], tree) && KeysAreUnique(out)
    ensures Irredundant(out, back)
  {
    SpannedIsIrredundant(out, back, finish.Keys, StackIds([]), tree);
  }

  // ---------------------------------------------------------------- the order of the search

  function Cursors(stack: seq<Frame>): (cursors: seq<nat>)
    ensures |cursors| == |stack| && forall i :: 0 <= i < |stack| ==> cursors[i] == stack[i].cursor
  {
    seq(|stack|, i requires 0 <= i < |stack| => stack[i].cursor)
  }

  /** The keys recorded are those of the arcs found. */
  ghost predicate KeysOf(back: set<string>, cut: set<(Id, Id)>) {
    forall key {:trigger key in back} :: key in back <==> exists u, v :: (u, v) in cut && key == EdgeKey(u, v)
  }

  /** The search goes depth-first: its stack, its marks and its keys are those of the trail. */
  ghost predicate Follows(view: AdjacencyView, back: set<string>, finish: map<Id, nat>, stack: seq<Frame>,
                          trail: DepthFirst.Trail)
  {
    && DepthFirst.Searches(view.ids, view.out, trail)
    && trail.path == StackIds(stack) && trail.cursors == Cursors(stack) && trail.done == finish.Keys
    && KeysOf(back, trail.cut)
  }

  lemma NothingFollowed(view: AdjacencyView)
    ensures Follows(view, {}, map[], [], DepthFirst.Trail([], {}, [], [], {}))
  {
    DepthFirst.NothingSearched(view.ids, view.out);
  }

  /** A node was entered exactly if it is not white. */
  lemma EnteredMarks(view: AdjacencyView, ids: set<Id>, state: map<Id, Mark>, back: set<string>, finish: map<Id, nat>,
                     stack: seq<Frame>, trail: DepthFirst.Trail, v: Id)
    requires Marks(ids, state, finish, stack) && Follows(view, back, finish, stack, trail) && v in ids
    ensures v in trail.order <==> state[v] != White
    ensures v in trail.path <==> state[v] == Grey
  {
    hide DepthFirst.IsDepthFirst, DepthFirst.OpenAt, DepthFirst.Sorted, KeysOf;
  }

  lemma FollowsRoot(view: AdjacencyView, back: set<string>, finish: map<Id, nat>, trail: DepthFirst.Trail, r: nat)
    requires Follows(view, back, finish, [], trail) && r < |view.ids| && view.ids[r] !in trail.order
    requires forall k :: 0 <= k < r ==> view.ids[k] in trail.order
    ensures Follows(view, back, finish, [Frame(view.ids[r], 0)], DepthFirst.EnterRoot(trail, view.ids[r]))
  {
    hide DepthFirst.Searches, KeysOf;
    DepthFirst.RootSearches(view.ids, view.out, trail, r);
  }

  lemma FollowsNext(view: AdjacencyView, back: set<string>, finish: map<Id, nat>, stack: seq<Frame>, trail: DepthFirst.Trail)
    requires Follows(view, back, finish, stack, trail) && stack != []
    requires stack[|stack| - 1].cursor < |Targets(view.out, stack[|stack| - 1].id)|
    ensures var top := stack[|stack| - 1]; var v := Targets(view.out, top.id)[top.cursor];
      && DepthFirst.Searches(view.ids, view.out, trail) && DepthFirst.NextArc(view.out, trail, v)
      && trail.path[|trail.path| - 1] == top.id
  {
    hide DepthFirst.Searches, KeysOf;
  }

  lemma FollowsPush(view: AdjacencyView, back: set<string>, finish: map<Id, nat>, stack: seq<Frame>, trail: DepthFirst.Trail)
    requires Follows(view, back, finish, stack, trail) && stack != []
    requires var top := stack[|stack| - 1];
      top.cursor < |Targets(view.out, top.id)| && Targets(view.out, top.id)[top.cursor] !in trail.order
    ensures |trail.cursors| == |trail.path| && trail.path != []
    ensures var top := stack[|stack| - 1]; var v := Targets(view.out, top.id)[top.cursor];
      Follows(view, back, finish, stack[|stack| - 1 := top.(cursor := top.cursor + 1)] + [Frame(v, 0)],
              DepthFirst.Descend(trail, v))
  {
    hide DepthFirst.Searches, KeysOf;
    var top := stack[|stack| - 1];
    var v := Targets(view.out, top.id)[top.cursor];
    FollowsNext(view, back, finish, stack, trail);
    DepthFirst.DescendSearches(view.ids, view.out, trail, v);
    var stack', trail' := stack[|stack| - 1 := top.(cursor := top.cursor + 1)] + [Frame(v, 0)], DepthFirst.Descend(trail, v);
    assert StackIds(stack') == trail'.path && Cursors(stack') == trail'.cursors;
  }

  lemma FollowsPass(view: AdjacencyView, back: set<string>, finish: map<Id, nat>, stack: seq<Frame>, trail: DepthFirst.Trail)
    requires Follows(view, back, finish, stack, trail) && stack != []
    requires var top := stack[|stack| - 1];
      top.cursor < |Targets(view.out, top.id)| && Targets(view.out, top.id)[top.cursor] in trail.order
    ensures |trail.cursors| == |trail.path| && trail.path != []
    ensures var top := stack[|stack| - 1]; var v := Targets(view.out, top.id)[top.cursor];
      Follows(view, if v in trail.path then back + {EdgeKey(top.id, v)} else back, finish,
              stack[|stack| - 1 := top.(cursor := top.cursor + 1)], DepthFirst.Pass(trail, v))
  {
    hide DepthFirst.Searches, KeysOf;
    var top := stack[|stack| - 1];
    var v := Targets(view.out, top.id)[top.cursor];
    FollowsNext(view, back, finish, stack, trail);
    DepthFirst.PassSearches(view.ids, view.out, trail, v);
    var stack', trail' := stack[|stack| - 1 := top.(cursor := top.cursor + 1)], DepthFirst.Pass(trail, v);
    assert StackIds(stack') == trail'.path && Cursors(stack') == trail'.cursors;
    OneMoreKey(back, trail.cut, top.id, v);
  }

  lemma OneMoreKey(back: set<string>, cut: set<(Id, Id)>, u: Id, v: Id)
    requires KeysOf(back, cut)
    ensures KeysOf(back + {EdgeKey(u, v)}, cut + {(u, v)})
  {
    hide EdgeKey;
    forall key
      ensures key in back + {EdgeKey(u, v)} <==> exists x, y :: (x, y) in cut + {(u, v)} && key == EdgeKey(x, y)
    {
      if key in back {
        var x, y :| (x, y) in cut && key == EdgeKey(x, y);
        assert (x, y) in cut + {(u, v)};
      }
      assert (u, v) in cut + {(u, v)};
    }
  }

  lemma FollowsPop(view: AdjacencyView, back: set<string>, finish: map<Id, nat>, stack: seq<Frame>, trail: DepthFirst.Trail)
    requires Follows(view, back, finish, stack, trail) && stack != []
    requires stack[|stack| - 1].cursor >= |Targets(view.out, stack[|stack| - 1].id)|
    ensures |trail.cursors| == |trail.path| && trail.path != []
    ensures var top := stack[|stack| - 1].id;
      Follows(view, back, finish[top := |finish|], stack[..|stack| - 1], DepthFirst.Leave(trail))
  {
    hide DepthFirst.Searches, KeysOf;
    DepthFirst.LeaveSearches(view.ids, view.out, trail);
    FinishKeys(finish, stack[|stack| - 1].id);
    var stack', trail' := stack[..|stack| - 1], DepthFirst.Leave(trail);
    assert StackIds(stack') == trail'.path && Cursors(stack') == trail'.cursors;
  }

  /** The keys are those of the arcs that a depth-first search of the view, root after root in input order, finds to
    * lead back up.
    */
  ghost predicate FoundDepthFirst(view: AdjacencyView, back: set<string>, order: seq<Id>) {
    && DepthFirst.IsDepthFirst(view.ids, view.out, order) && (forall v :: v in order <==> v in view.ids)
    && forall key {:trigger key in back} :: key in back <==>
         exists u, v :: key == EdgeKey(u, v) && v in Targets(view.out, u) && DepthFirst.Closes(view.out, order, u, v)
  }

  lemma AllEntered(view: AdjacencyView, back: set<string>, finish: map<Id, nat>, trail: DepthFirst.Trail)
    requires Follows(view, back, finish, [], trail) && ClosedOver(IdSet(view.ids), view.out) && finish.Keys == IdSet(view.ids)
    ensures forall v :: v in trail.order <==> v in view.ids
    ensures forall u, v {:trigger v in Targets(view.out, u)} :: v in Targets(view.out, u) ==> u in trail.order
  {
    hide DepthFirst.OpenAt, DepthFirst.IsDepthFirst, DepthFirst.Sorted, KeysOf;
    assert forall v :: v in trail.order <==> v in trail.done;
  }

  lemma FollowedToEnd(view: AdjacencyView, back: set<string>, finish: map<Id, nat>, trail: DepthFirst.Trail)
    requires Follows(view, back, finish, [], trail) && ClosedOver(IdSet(view.ids), view.out) && finish.Keys == IdSet(view.ids)
    ensures FoundDepthFirst(view, back, trail.order)
  {
    hide DepthFirst.OpenAt, DepthFirst.IsDepthFirst, DepthFirst.Closes, DepthFirst.Sorted, EdgeKey, DepthFirst.Taken;
    AllEntered(view, back, finish, trail);
    DepthFirst.SearchedAll(view.ids, view.out, trail);
    forall key
      ensures key in back <==>
        exists u, v :: key == EdgeKey(u, v) && v in Targets(view.out, u) && DepthFirst.Closes(view.out, trail.order, u, v)
    {
      if key in back {
        var u, v :| (u, v) in trail.cut && key == EdgeKey(u, v);
      }
      if u, v :| key == EdgeKey(u, v) && v in Targets(view.out, u) && DepthFirst.Closes(view.out, trail.order, u, v) {
        assert (u, v) in trail.cut;
      }
    }
  }

  // ---------------------------------------------------------------- feedbackEdges

  ghost function Whites(state: map<Id, Mark>): set<Id> {
    set u | u in state && state[u] == White
  }

  lemma WhitesShrink(state: map<Id, Mark>, v: Id)
    requires v in state && state[v] == White
    ensures |Whites(state[v := Grey])| < |Whites(state)|
  {
    assert Whites(state[v := Grey]) == Whites(state) - {v};
  }

  /** What the mark of any known node tells the search. */
  lemma MarkMeaning(ids: set<Id>, out: Arcs, state: map<Id, Mark>, back: set<string>, finish: map<Id, nat>,
                    stack: seq<Frame>, v: Id)
    requires Searching(ids, out, state, back, finish, stack) && v in ids
    ensures v in state
    ensures state[v] == Grey <==> v in StackIds(stack)
    ensures state[v] == Black <==> v in finish
    ensures stack != [] ==> IsWalk(out, StackIds(stack))
  {
  }

  /** The frame on top belongs to a grey node of the graph. */
  lemma TopIsGrey(ids: set<Id>, out: Arcs, state: map<Id, Mark>, back: set<string>, finish: map<Id, nat>,
                  stack: seq<Frame>)
    requires Searching(ids, out, state, back, finish, stack) && stack != []
    ensures var top := stack[|stack| - 1];
      top.id in state && state[top.id] == Grey && top.cursor <= |Targets(out, top.id)|
  {
    assert StackIds(stack)[|stack| - 1] == stack[|stack| - 1].id;
    assert FrameOk(out, back, finish, stack, |stack| - 1);
  }

  /** The search from a fresh root begins with that root grey and alone on the stack. */
  lemma StartSearch(ids: set<Id>, out: Arcs, state: map<Id, Mark>, back: set<string>, finish: map<Id, nat>, root: Id)
    requires Searching(ids, out, state, back, finish, []) && root in ids && root in state && state[root] == White
    ensures Searching(ids, out, state[root := Grey], back, finish, [Frame(root, 0)])
  {
    hide Marks, FramesOk, AllSettled, AllClose, IsWalk;
    PushMarks(ids, state, finish, [], root);
    FirstFrame(out, back, finish, root);
    assert [] + [Frame(root, 0)] == [Frame(root, 0)];
  }

  lemma FirstFrame(out: Arcs, back: set<string>, finish: map<Id, nat>, root: Id)
    ensures FramesOk(out, back, finish, [Frame(root, 0)]) && IsWalk(out, StackIds([Frame(root, 0)]))
  {
  }

  lemma SearchHasMarks(ids: set<Id>, out: Arcs, state: map<Id, Mark>, back: set<string>, finish: map<Id, nat>,
                       stack: seq<Frame>)
    requires Searching(ids, out, state, back, finish, stack)
    ensures Marks(ids, state, finish, stack)
  {
  }

  /** Cursors do not matter to the tree. */
  lemma GrownUnmoved(out: Arcs, back: set<string>, finish: map<Id, nat>, stack: seq<Frame>, tree: Tree)
    requires stack != [] && Grown(out, back, finish, stack, tree)
    ensures var top := stack[|stack| - 1];
      Grown(out, back, finish, stack[|stack| - 1 := top.(cursor := top.cursor + 1)], tree)
  {
    GrownById(out, back, finish, stack, tree);
    hide Spans;
  }

  /** The second half of the loop body: the top frame takes its next arc. */
  method TakeArc(ghost ids: set<Id>, view: AdjacencyView, state: map<Id, Mark>, back: set<string>,
                 ghost finish: map<Id, nat>, stack: seq<Frame>, ghost tree: Tree, ghost trail: DepthFirst.Trail)
    returns (state': map<Id, Mark>, back': set<string>, stack': seq<Frame>, ghost tree': Tree, ghost trail': DepthFirst.Trail)
    requires ClosedOver(ids, view.out) && stack != [] && Searching(ids, view.out, state, back, finish, stack)
    requires Grown(view.out, back, finish, stack, tree) && Follows(view, back, finish, stack, trail)
    requires stack[|stack| - 1].cursor < |Targets(view.out, stack[|stack| - 1].id)|
    ensures Searching(ids, view.out, state', back', finish, stack') && stack' != []
    ensures Grown(view.out, back', finish, stack', tree') && Follows(view, back', finish, stack', trail')
    ensures forall u :: u in state && state[u] != White ==> u in state' && state'[u] != White
    ensures var top := stack[|stack| - 1];
      |Whites(state')| < |Whites(state)| ||
      (state' == state && stack' == stack[|stack| - 1 := top.(cursor := top.cursor + 1)])
  {
    hide Searching, Marks, IsWalk, ClosesCycle, Grown, Follows, Whites;
    var out := view.out;
    SearchHasMarks(ids, out, state, back, finish, stack);
    GrownUnmoved(out, back, finish, stack, tree);
    var frame := stack[|stack| - 1];
    var next := Targets(out, frame.id)[frame.cursor];
    assert next in Targets(out, frame.id);
    MarkMeaning(ids, out, state, back, finish, stack, next);
    EnteredMarks(view, ids, state, back, finish, stack, trail, next);
    state', back', stack' := state, back, stack[|stack| - 1 := frame.(cursor := frame.cursor + 1)];
    tree' := tree;
    match state[next] {
      case Grey =>
        BackEdgeCloses(out, stack, next);
        GrowsByCut(ids, out, state, back, finish, stack, tree, next);
        FollowsPass(view, back, finish, stack, trail);
        trail' := DepthFirst.Pass(trail, next);
        back' := back + {EdgeKey(frame.id, next)};
        Advance(ids, out, state, back, back', finish, stack);
      case White =>
        Push(ids, out, state, back, finish, stack);
        GrowsByPush(ids, out, state, back, finish, stack, tree, next);
        FollowsPush(view, back, finish, stack, trail);
        trail' := DepthFirst.Descend(trail, next);
        tree' := tree + {(frame.id, next)};
        WhitesShrink(state, next);
        state' := state[next := Grey];
        stack' := stack' + [Frame(next, 0)];
      case Black =>
        Advance(ids, out, state, back, back', finish, stack);
        FollowsPass(view, back, finish, stack, trail);
        trail' := DepthFirst.Pass(trail, next);
    }
  }

  /** The inner `while`: explore everything reachable from a fresh root, the r-th id. */
  method Explore(ghost ids: set<Id>, view: AdjacencyView, r: nat, state0: map<Id, Mark>, back0: set<string>,
                 ghost finish0: map<Id, nat>, ghost tree0: Tree, ghost trail0: DepthFirst.Trail)
    returns (state: map<Id, Mark>, back: set<string>, ghost finish: map<Id, nat>, ghost tree: Tree, ghost trail: DepthFirst.Trail)
    requires ClosedOver(ids, view.out) && Searching(ids, view.out, state0, back0, finish0, [])
    requires Grown(view.out, back0, finish0, [], tree0) && Follows(view, back0, finish0, [], trail0)
    requires r < |view.ids| && view.ids[r] in ids && view.ids[r] in state0 && state0[view.ids[r]] == White
    requires view.ids[r] !in trail0.order && forall k :: 0 <= k < r ==> view.ids[k] in trail0.order
    ensures Searching(ids, view.out, state, back, finish, []) && Grown(view.out, back, finish, [], tree)
    ensures Follows(view, back, finish, [], trail)
    ensures view.ids[r] in finish && finish0.Keys <= finish.Keys
  {
    hide Searching, Whites, Grown, Follows;
    var root := view.ids[r];
    state, back, finish, tree := state0[root := Grey], back0, finish0, tree0;
    trail := DepthFirst.EnterRoot(trail0, root);
    var stack := [Frame(root, 0)];
    GrowsFromRoot(view.out, back0, finish0, tree0, root);
    FollowsRoot(view, back0, finish0, trail0, r);
    StartSearch(ids, view.out, state0, back0, finish0, root);
    while stack != []
      invariant Searching(ids, view.out, state, back, finish, stack) && Grown(view.out, back, finish, stack, tree)
      invariant Follows(view, back, finish, stack, trail)
      invariant root in state && state[root] != White && finish0.Keys <= finish.Keys
      decreases |Whites(state)|, |stack|,
        if stack == [] then 0 else |Targets(view.out, stack[|stack| - 1].id)| - stack[|stack| - 1].cursor
    {
      var frame := stack[|stack| - 1];
      TopIsGrey(ids, view.out, state, back, finish, stack);
      if frame.cursor >= |Targets(view.out, frame.id)| {
        Pop(ids, view.out, state, back, finish, stack);
        GrowsByPop(view.out, back, finish, stack, tree);
        FollowsPop(view, back, finish, stack, trail);
        BlackKeepsWhites(state, frame.id);
        state := state[frame.id := Black];
        finish := finish[frame.id := |finish|];
        stack := stack[..|stack| - 1];
        trail := DepthFirst.Leave(trail);
        continue;
      }
      state, back, stack, tree, trail := TakeArc(ids, view, state, back, finish, stack, tree, trail);
    }
    MarkMeaning(ids, view.out, state, back, finish, [], root);
  }

  lemma BlackKeepsWhites(state: map<Id, Mark>, v: Id)
    requires v in state && state[v] == Grey
    ensures Whites(state[v := Black]) == Whites(state)
  {
  }

  /** For every graph: the recorded edges each lie on a cycle, and the finish order falls along
    * every other edge.
    */
  method FeedbackEdges(view: AdjacencyView) returns (back: set<string>, ghost finish: map<Id, nat>, ghost order: seq<Id>)
    requires ClosedOver(IdSet(view.ids), view.out)
    ensures AllClose(view.out, back)
    ensures FallsExcept(view.out, back, finish)
    ensures KeysAreUnique(view.out) ==> Irredundant(view.out, back)
    ensures FoundDepthFirst(view, back, order)
  {
    hide Grown, KeysAreUnique, Irredundant, Follows, Searching, FoundDepthFirst;
    NothingGrown(view.out);
    NothingFollowed(view);
    ghost var tree: Tree := {};
    ghost var trail := DepthFirst.Trail([], {}, [], [], {});
    ghost var ids := IdSet(view.ids);
    var state: map<Id, Mark> := map id | id in view.ids :: White;
    back, finish := {}, map[];
    NothingMarked(view, state);
    for r := 0 to |view.ids|
      invariant Searching(ids, view.out, state, back, finish, []) && Grown(view.out, back, finish, [], tree)
      invariant Follows(view, back, finish, [], trail)
      invariant forall i :: 0 <= i < r ==> view.ids[i] in finish
    {
      var root := view.ids[r];
      assert root in ids;
      RootsBefore(view, state, back, finish, trail, r);
      if state[root] != White { continue; }
      state, back, finish, tree, trail := Explore(ids, view, r, state, back, finish, tree, trail);
    }
    if KeysAreUnique(view.out) { GrownIsIrredundant(view.out, back, finish, tree); }
    AllFinished(view, state, back, finish);
    FollowedToEnd(view, back, finish, trail);
    order := trail.order;
  }

  lemma NothingMarked(view: AdjacencyView, state: map<Id, Mark>)
    requires state == map id | id in view.ids :: White
    ensures Searching(IdSet(view.ids), view.out, state, {}, map[], [])
  {
  }

  /** Before the r-th root all earlier ones are finished, and it is fresh if it is white. */
  lemma RootsBefore(view: AdjacencyView, state: map<Id, Mark>, back: set<string>, finish: map<Id, nat>,
                    trail: DepthFirst.Trail, r: nat)
    requires Searching(IdSet(view.ids), view.out, state, back, finish, []) && Follows(view, back, finish, [], trail)
    requires r < |view.ids| && forall i :: 0 <= i < r ==> view.ids[i] in finish
    ensures view.ids[r] in state && (state[view.ids[r]] != White ==> view.ids[r] in finish)
    ensures view.ids[r] in trail.order <==> state[view.ids[r]] != White
    ensures forall k :: 0 <= k < r ==> view.ids[k] in trail.order
  {
    hide Follows, FramesOk, AllSettled, AllClose, IsWalk;
    assert StackIds([]) == [];
    EnteredMarks(view, IdSet(view.ids), state, back, finish, [], trail, view.ids[r]);
    forall k | 0 <= k < r
      ensures view.ids[k] in trail.order
    {
      EnteredMarks(view, IdSet(view.ids), state, back, finish, [], trail, view.ids[k]);
    }
  }

  lemma AllFinished(view: AdjacencyView, state: map<Id, Mark>, back: set<string>, finish: map<Id, nat>)
    requires Searching(IdSet(view.ids), view.out, state, back, finish, []) && ClosedOver(IdSet(view.ids), view.out)
    requires forall i :: 0 <= i < |view.ids| ==> view.ids[i] in finish
    ensures finish.Keys == IdSet(view.ids) && FallsExcept(view.out, back, finish) && AllClose(view.out, back)
  {
    hide EdgeKey, ClosesCycle;
    forall u, v | v in Targets(view.out, u) && EdgeKey(u, v) !in back
      ensures u in finish && v in finish && finish[v] < finish[u]
    {
      assert u in IdSet(view.ids) && u in finish;
      assert Settled(view.out, back, finish, u);
    }
  }

  // ---------------------------------------------------------------- acyclic

  /** The targets of `u` that are not cut, in their order. */
  function Surviving(back: set<string>, u: Id, targets: seq<Id>): seq<Id> {
    if targets == [] then []
    else
      var v := targets[|targets| - 1];
      Surviving(back, u, targets[..|targets| - 1]) + if EdgeKey(u, v) in back then [] else [v]
  }

  lemma {:induction false} SurvivingMembers(back: set<string>, u: Id, targets: seq<Id>)
    ensures forall v :: v in Surviving(back, u, targets) <==> v in targets && EdgeKey(u, v) !in back
    ensures NoDup(targets) ==> NoDup(Surviving(back, u, targets))
    ensures back == {} ==> Surviving(back, u, targets) == targets
  {
    if targets != [] {
      var front, v := targets[..|targets| - 1], targets[|targets| - 1];
      SurvivingMembers(back, u, front);
      assert targets == front + [v];
    }
  }

  /** `out` is `full` with exactly the arcs keyed in `back` left out, order kept. */
  ghost predicate CutAlong(full: Arcs, back: set<string>, out: Arcs) {
    && out.Keys == full.Keys
    && forall u :: u in full ==> out[u] == Surviving(back, u, full[u])
  }

  lemma CutArcs(full: Arcs, back: set<string>, out: Arcs, u: Id, v: Id)
    requires CutAlong(full, back, out)
    ensures v in Targets(out, u) <==> v in Targets(full, u) && EdgeKey(u, v) !in back
  {
    if u in full {
      SurvivingMembers(back, u, full[u]);
    }
  }

  lemma CutIsAcyclic(full: Arcs, back: set<string>, out: Arcs, finish: map<Id, nat>)
    requires CutAlong(full, back, out) && FallsExcept(full, back, finish)
    ensures Acyclic(out)
  {
    forall u, v {:trigger v in Targets(out, u)} | v in Targets(out, u)
      ensures u in finish && v in finish && finish[v] < finish[u]
    {
      CutArcs(full, back, out, u, v);
    }
    FallsIsAcyclic(out, finish);
  }

  /** An arc on a cycle refutes acyclicity. */
  lemma CycleRefutes(out: Arcs, u: Id, v: Id)
    requires v in Targets(out, u) && Reaches(out, v, u)
    ensures !Acyclic(out)
  {
    var p :| WalkFrom(out, p, v, u);
    WalkSnoc(out, p, v);
    assert (p + [v])[0] == (p + [v])[|p|];
  }

  lemma NothingToCut(full: Arcs, back: set<string>, out: Arcs)
    requires AllClose(full, back) && CutAlong(full, back, out) && Acyclic(full)
    ensures back == {} && out == full
  {
    if key :| key in back {
      var u, v :| key == EdgeKey(u, v) && v in Targets(full, u) && Reaches(full, v, u);
      CycleRefutes(full, u, v);
    }
    forall u | u in full
      ensures out[u] == full[u]
    {
      SurvivingMembers(back, u, full[u]);
    }
  }

  /** Whatever was cut lay on a cycle of the original, since in a view a key names one arc. */
  lemma CutLiesOnCycle(full: Arcs, back: set<string>, out: Arcs, u: Id, v: Id)
    requires AllClose(full, back) && CutAlong(full, back, out) && KeysAreUnique(full)
    requires v in Targets(full, u) && v !in Targets(out, u)
    ensures Reaches(full, v, u)
  {
    CutArcs(full, back, out, u, v);
    var s, t :| EdgeKey(u, v) == EdgeKey(s, t) && t in Targets(full, s) && Reaches(full, t, s);
    hide EdgeKey;
    assert u == s && v == t;
  }

  /** No arc that was cut can be put back: the acyclic view itself leads from its target to its source. */
  lemma NoArcCanReturn(full: Arcs, back: set<string>, out: Arcs, u: Id, v: Id, more: Arcs)
    requires Irredundant(full, back) && CutAlong(full, back, out) && KeysAreUnique(full)
    requires v in Targets(full, u) && v !in Targets(out, u)
    requires v in Targets(more, u) && forall s, t {:trigger t in Targets(out, s)} :: t in Targets(out, s) ==> t in Targets(more, s)
    ensures Reaches(out, v, u) && !Acyclic(more)
  {
    CutArcs(full, back, out, u, v);
    assert UncutReturn(full, back, EdgeKey(u, v));
    var s, t, p :| EdgeKey(u, v) == EdgeKey(s, t) && t in Targets(full, s) && Uncut(full, back, p) && p[0] == t && p[|p| - 1] == s;
    UncutSurvives(full, back, out, p);
    hide EdgeKey, CutAlong, Irredundant;
    assert u == s && v == t;
    assert WalkFrom(out, p, v, u);
    assert IsWalk(more, p) by {
      forall i: nat | i + 1 < |p|
        ensures ArcAt(more, p, i)
      {
        assert ArcAt(out, p, i);
      }
    }
    assert WalkFrom(more, p, v, u);
    CycleRefutes(more, u, v);
  }

  lemma UncutSurvives(full: Arcs, back: set<string>, out: Arcs, p: seq<Id>)
    requires CutAlong(full, back, out) && Uncut(full, back, p)
    ensures IsWalk(out, p)
  {
    hide EdgeKey;
    forall i: nat | i + 1 < |p|
      ensures ArcAt(out, p, i)
    {
      assert ArcAt(full, p, i);
      CutArcs(full, back, out, p[i], p[i + 1]);
    }
  }

  /** Members of `ids`, in order, with an arc to `v`. */
  function SourcesOf(ids: seq<Id>, out: Arcs, v: Id): seq<Id> {
    if ids == [] then []
    else
      var u := ids[|ids| - 1];
      SourcesOf(ids[..|ids| - 1], out, v) + if v in Targets(out, u) then [u] else []
  }

  lemma {:induction false} SourcesOfMembers(ids: seq<Id>, out: Arcs, v: Id)
    ensures forall u :: u in SourcesOf(ids, out, v) <==> u in ids && v in Targets(out, u)
    ensures NoDup(ids) ==> NoDup(SourcesOf(ids, out, v))
  {
    if ids != [] {
      var front, u := ids[..|ids| - 1], ids[|ids| - 1];
      SourcesOfMembers(front, out, v);
      assert ids == front + [u];
    }
  }

  lemma CutTransposed(ids: seq<Id>, full: Arcs, fullIn: Arcs, back: set<string>, out: Arcs, incoming: Arcs)
    requires NoDup(ids) && Transposed(ids, full, fullIn) && CutAlong(full, back, out)
    requires incoming.Keys == IdSet(ids)
    requires forall v :: v in ids ==> incoming[v] == SourcesOf(ids, out, v)
    ensures Transposed(ids, out, incoming)
  {
    forall u | u in ids
      ensures NoDup(out[u]) && NoDup(incoming[u])
    {
      SurvivingMembers(back, u, full[u]);
      SourcesOfMembers(ids, out, u);
    }
    forall u, v
      ensures v in Targets(out, u) <==> u in Targets(incoming, v)
    {
      CutArcs(full, back, out, u, v);
      if v in Targets(full, u) { assert u in Targets(fullIn, v); }
      SourcesOfMembers(ids, out, v);
    }
  }

  /** One node's share of the rebuild: filter its targets and credit them as sources. */
  method CutNode(back: set<string>, id: Id, targets: seq<Id>, incoming: Arcs)
    returns (kept: seq<Id>, incoming': Arcs)
    requires NoDup(targets) && forall v :: v in targets ==> v in incoming
    ensures kept == Surviving(back, id, targets)
    ensures incoming'.Keys == incoming.Keys
    ensures forall v :: v in incoming ==> incoming'[v] == incoming[v] + if v in kept then [id] else []
  {
    kept, incoming' := [], incoming;
    for j := 0 to |targets|
      invariant kept == Surviving(back, id, targets[..j])
      invariant forall v :: v in kept ==> v in targets[..j]
      invariant incoming'.Keys == incoming.Keys
      invariant forall v :: v in incoming ==> incoming'[v] == incoming[v] + if v in kept then [id] else []
    {
      var target := targets[j];
      assert targets[..j + 1][..j] == targets[..j];
      assert target !in targets[..j];
      if EdgeKey(id, target) in back { continue; }
      kept := kept + [target];
      incoming' := incoming'[target := incoming'[target] + [id]];
    }
    assert targets[..|targets|] == targets;
  }

  /** The maps after the first `i` ids have been rebuilt. */
  ghost predicate RebuiltTo(ids: seq<Id>, i: nat, full: Arcs, cut: set<string>, out: Arcs, incoming: Arcs)
    requires full.Keys == IdSet(ids) && i <= |ids|
  {
    && out.Keys == incoming.Keys == IdSet(ids)
    && (forall k :: 0 <= k < i ==> out[ids[k]] == Surviving(cut, ids[k], full[ids[k]]))
    && (forall v :: v in incoming ==> incoming[v] == SourcesOf(ids[..i], out, v))
  }

  lemma RebuiltSnoc(ids: seq<Id>, i: nat, full: Arcs, cut: set<string>,
                    out0: Arcs, in0: Arcs, out: Arcs, incoming: Arcs)
    requires i < |ids| && NoDup(ids) && full.Keys == IdSet(ids)
    requires RebuiltTo(ids, i, full, cut, out0, in0)
    requires out == out0[ids[i] := Surviving(cut, ids[i], full[ids[i]])]
    requires incoming.Keys == in0.Keys
    requires forall v :: v in in0 ==> incoming[v] == in0[v] + if v in out[ids[i]] then [ids[i]] else []
    ensures RebuiltTo(ids, i + 1, full, cut, out, incoming)
  {
    hide Surviving, SourcesOf;
    forall v | v in incoming
      ensures incoming[v] == SourcesOf(ids[..i + 1], out, v)
    {
      OneMoreSource(ids, i, out0, out, v);
    }
  }

  lemma OneMoreSource(ids: seq<Id>, i: nat, out0: Arcs, out: Arcs, v: Id)
    requires i < |ids| && NoDup(ids) && ids[i] in out0 && ids[i] in out && out == out0[ids[i] := out[ids[i]]]
    ensures SourcesOf(ids[..i + 1], out, v) == SourcesOf(ids[..i], out0, v) + if v in out[ids[i]] then [ids[i]] else []
  {
    assert ids[..i + 1][..i] == ids[..i];
    SourcesUnaffected(ids[..i], out0, out, v, ids[i]);
  }

  lemma RebuiltAll(ids: seq<Id>, full: Arcs, cut: set<string>, out: Arcs, incoming: Arcs)
    requires full.Keys == IdSet(ids) && RebuiltTo(ids, |ids|, full, cut, out, incoming)
    ensures CutAlong(full, cut, out)
    ensures forall v :: v in ids ==> incoming[v] == SourcesOf(ids, out, v)
  {
    assert ids[..|ids|] == ids;
  }

  /** The second loop of `acyclic`: rebuild both maps without the cut arcs. */
  method Rebuild(ids: seq<Id>, full: Arcs, cut: set<string>) returns (out: Arcs, incoming: Arcs)
    requires NoDup(ids) && full.Keys == IdSet(ids) && ClosedOver(IdSet(ids), full)
    requires forall u :: u in ids ==> NoDup(full[u])
    ensures CutAlong(full, cut, out) && incoming.Keys == IdSet(ids)
    ensures forall v :: v in ids ==> incoming[v] == SourcesOf(ids, out, v)
  {
    var empty: Arcs := map id | id in ids :: [];
    out, incoming := empty, empty;
    for i := 0 to |ids|
      invariant RebuiltTo(ids, i, full, cut, out, incoming)
    {
      var id := ids[i];
      ghost var out0, in0 := out, incoming;
      assert forall v :: v in full[id] ==> v in Targets(full, id);
      var kept;
      kept, incoming := CutNode(cut, id, full[id], incoming);
      out := out[id := kept];
      RebuiltSnoc(ids, i, full, cut, out0, in0, out, incoming);
    }
    RebuiltAll(ids, full, cut, out, incoming);
  }

  /** The acyclic view. `back` is the set of keys that were cut. */
  method AcyclicView(view: AdjacencyView) returns (out: Arcs, incoming: Arcs, ghost back: set<string>, ghost order: seq<Id>)
    requires NoDup(view.ids) && Transposed(view.ids, view.out, view.incoming)
    ensures Acyclic(out)
    ensures Transposed(view.ids, out, incoming)
    ensures CutAlong(view.out, back, out) && AllClose(view.out, back)
    ensures Acyclic(view.out) ==> out == view.out
    ensures KeysAreUnique(view.out) ==> Irredundant(view.out, back)
    ensures FoundDepthFirst(view, back, order)
  {
    hide Irredundant, KeysAreUnique, FoundDepthFirst;
    TransposedIsClosed(view.ids, view.out, view.incoming);
    var cut: set<string>;
    ghost var finish;
    cut, finish, order := FeedbackEdges(view);
    back := cut;
    out, incoming := Rebuild(view.ids, view.out, cut);
    CutIsAcyclic(view.out, cut, out, finish);
    CutTransposed(view.ids, view.out, view.incoming, cut, out, incoming);
    if Acyclic(view.out) { NothingToCut(view.out, cut, out); }
  }

  lemma TransposedIsClosed(ids: seq<Id>, out: Arcs, incoming: Arcs)
    requires Transposed(ids, out, incoming)
    ensures ClosedOver(IdSet(ids), out)
  {
    forall u, v {:trigger v in Targets(out, u)} | v in Targets(out, u)
      ensures u in ids && v in ids
    {
      assert u in Targets(incoming, v);
    }
  }

  lemma {:induction false} SourcesUnaffected(ids: seq<Id>, out: Arcs, out': Arcs, v: Id, id: Id)
    requires id !in ids && forall u :: u in ids ==> Targets(out, u) == Targets(out', u)
    ensures SourcesOf(ids, out, v) == SourcesOf(ids, out', v)
  {
    if ids != [] {
      SourcesUnaffected(ids[..|ids| - 1], out, out', v, id);
    }
  }
}
