/** Longest-path layering by Kahn's algorithm. */
module Ranking {
  import opened Helpers
  import opened Walks
  import opened LayoutGraph

  // ---------------------------------------------------------------- what a rank means

  /** Rank 0 without parents, otherwise one more than the highest parent. */
  ghost predicate RankedAbove(incoming: Arcs, rank: map<Id, nat>, v: Id) {
    && v in rank
    && (forall u :: u in Targets(incoming, v) ==> u in rank && rank[u] < rank[v])
    && (rank[v] == 0 ==> Targets(incoming, v) == [])
    && (rank[v] > 0 ==> exists u :: u in Targets(incoming, v) && u in rank && rank[v] == rank[u] + 1)
  }

  ghost predicate Layered(ids: seq<Id>, incoming: Arcs, rank: map<Id, nat>) {
    forall v {:trigger RankedAbove(incoming, rank, v)} :: v in ids ==> RankedAbove(incoming, rank, v)
  }

  ghost predicate EndsAt(arcs: Arcs, p: seq<Id>, v: Id) {
    IsWalk(arcs, p) && p[|p| - 1] == v
  }

  lemma {:induction false} WalksAreShort(ids: seq<Id>, out: Arcs, incoming: Arcs, rank: map<Id, nat>, p: seq<Id>, v: Id)
    requires Transposed(ids, out, incoming) && Layered(ids, incoming, rank)
    requires v in ids && EndsAt(out, p, v)
    ensures v in rank && |p| - 1 <= rank[v]
    decreases |p|
  {
    assert RankedAbove(incoming, rank, v);
    if |p| > 1 {
      var u := p[|p| - 2];
      assert ArcAt(out, p, |p| - 2);
      assert v in Targets(out, u);
      assert u in Targets(incoming, v);
      WalkSlice(out, p, 0, |p| - 1);
      WalksAreShort(ids, out, incoming, rank, p[0..|p| - 1], u);
    }
  }

  lemma {:induction false} SomeWalkAttains(ids: seq<Id>, out: Arcs, incoming: Arcs, rank: map<Id, nat>, v: Id)
    returns (p: seq<Id>)
    requires Transposed(ids, out, incoming) && Layered(ids, incoming, rank)
    requires v in ids
    ensures v in rank && EndsAt(out, p, v) && |p| - 1 == rank[v] && Targets(incoming, p[0]) == []
    decreases if v in rank then rank[v] else 0
  {
    assert RankedAbove(incoming, rank, v);
    if rank[v] == 0 {
      p := [v];
    } else {
      var u :| u in Targets(incoming, v) && u in rank && rank[v] == rank[u] + 1;
      assert v in Targets(out, u);
      p := SomeWalkAttains(ids, out, incoming, rank, u);
      WalkSnoc(out, p, v);
      p := p + [v];
    }
  }

  /** The rank of a node is the number of arcs on the longest walk that ends there. */
  lemma RankIsLongestWalk(ids: seq<Id>, out: Arcs, incoming: Arcs, rank: map<Id, nat>, v: Id)
    requires Transposed(ids, out, incoming) && Layered(ids, incoming, rank) && v in ids
    ensures v in rank
    ensures forall p :: EndsAt(out, p, v) ==> |p| - 1 <= rank[v]
    ensures exists p :: EndsAt(out, p, v) && |p| - 1 == rank[v]
  {
    var q := SomeWalkAttains(ids, out, incoming, rank, v);
    forall p | EndsAt(out, p, v)
      ensures |p| - 1 <= rank[v]
    {
      WalksAreShort(ids, out, incoming, rank, p, v);
    }
  }

  /** Layers climb strictly along every arc. */
  lemma ArcsClimb(ids: seq<Id>, out: Arcs, incoming: Arcs, rank: map<Id, nat>, u: Id, v: Id)
    requires Transposed(ids, out, incoming) && Layered(ids, incoming, rank)
    requires v in Targets(out, u)
    ensures u in rank && v in rank && rank[u] < rank[v]
  {
    assert u in Targets(incoming, v);
    assert v in ids;
    assert RankedAbove(incoming, rank, v);
  }

  // ---------------------------------------------------------------- the queue invariant

  /** Parents of `v` not yet taken from the queue. */
  function Pending(parents: seq<Id>, done: set<Id>): nat {
    if parents == [] then 0
    else Pending(parents[..|parents| - 1], done) + if parents[|parents| - 1] in done then 0 else 1
  }

  lemma {:induction false} PendingBasics(parents: seq<Id>, done: set<Id>)
    ensures Pending(parents, {}) == |parents|
    ensures Pending(parents, done) == 0 <==> forall u :: u in parents ==> u in done
  {
    if parents != [] {
      var front, u := parents[..|parents| - 1], parents[|parents| - 1];
      PendingBasics(front, done);
      assert parents == front + [u];
    }
  }

  lemma {:induction false} PendingStep(parents: seq<Id>, done: set<Id>, id: Id)
    requires NoDup(parents) && id !in done
    ensures Pending(parents, done) == Pending(parents, done + {id}) + if id in parents then 1 else 0
  {
    if parents != [] {
      var front, u := parents[..|parents| - 1], parents[|parents| - 1];
      assert parents == front + [u];
      PendingStep(front, done, id);
    }
  }

  /** The bookkeeping of one node `v`, when the parents in `done` have been counted. */
  ghost predicate NodeOk(incoming: Arcs, done: set<Id>, remaining: map<Id, nat>, rank: map<Id, nat>,
                         queue: seq<Id>, v: Id)
  {
    var parents := Targets(incoming, v);
    && v in remaining
    && remaining[v] == Pending(parents, done)
    && (v in queue <==> remaining[v] == 0)
    && (v in queue ==> v in rank)
    && (forall u :: u in parents && u in done ==> v in rank && u in rank && rank[u] < rank[v])
    && (v in rank ==>
          if rank[v] == 0 then parents == []
          else exists u :: u in parents && u in done && u in rank && rank[v] == rank[u] + 1)
  }

  ghost predicate AllOk(ids: seq<Id>, incoming: Arcs, done: set<Id>, remaining: map<Id, nat>,
                        rank: map<Id, nat>, queue: seq<Id>)
  {
    forall v {:trigger NodeOk(incoming, done, remaining, rank, queue, v)} ::
      v in ids ==> NodeOk(incoming, done, remaining, rank, queue, v)
  }

  /** While the arcs of `id` are being relaxed, its first `j` targets have already counted it. */
  ghost predicate MixedOk(ids: seq<Id>, incoming: Arcs, done: set<Id>, id: Id, counted: seq<Id>,
                          remaining: map<Id, nat>, rank: map<Id, nat>, queue: seq<Id>)
  {
    && (forall v {:trigger NodeOk(incoming, done + {id}, remaining, rank, queue, v)} ::
          v in ids && v in counted ==> NodeOk(incoming, done + {id}, remaining, rank, queue, v))
    && (forall v {:trigger NodeOk(incoming, done, remaining, rank, queue, v)} ::
          v in ids && v !in counted ==> NodeOk(incoming, done, remaining, rank, queue, v))
  }

  /** Changing the entries of `t` and possibly enqueueing it leaves every other node's books in order. */
  lemma OthersKeep(incoming: Arcs, done: set<Id>, remaining: map<Id, nat>, rank: map<Id, nat>, queue: seq<Id>,
                   t: Id, left: nat, r: nat, queue': seq<Id>, v: Id)
    requires NodeOk(incoming, done, remaining, rank, queue, v)
    requires v != t && t !in done
    requires queue' == queue || queue' == queue + [t]
    ensures NodeOk(incoming, done, remaining[t := left], rank[t := r], queue', v)
  {
  }

  /** The target itself, once it has counted `id`. */
  lemma TargetCounts(incoming: Arcs, done: set<Id>, remaining: map<Id, nat>, rank: map<Id, nat>, queue: seq<Id>,
                     id: Id, t: Id, queue': seq<Id>)
    requires NodeOk(incoming, done, remaining, rank, queue, t)
    requires id !in done && id != t && t !in done && id in rank
    requires NoDup(Targets(incoming, t)) && id in Targets(incoming, t)
    requires queue' == if remaining[t] == 1 then queue + [t] else queue
    ensures remaining[t] > 0 && t !in queue
    ensures var r := Max(if t in rank then rank[t] else 0, rank[id] + 1);
      NodeOk(incoming, done + {id}, remaining[t := remaining[t] - 1], rank[t := r], queue', t)
  {
    var parents := Targets(incoming, t);
    PendingStep(parents, done, id);
    var r := Max(if t in rank then rank[t] else 0, rank[id] + 1);
    var rank' := rank[t := r];
    if t in rank && rank[t] == r {
      var u :| u in parents && u in done && u in rank && rank[t] == rank[u] + 1;
      assert u in done + {id} && rank'[u] == rank[u];
    } else {
      assert id in done + {id} && rank'[id] == rank[id];
    }
  }

  /** Relaxing one arc from `id` to `t`. */
  lemma RelaxArc(ids: seq<Id>, out: Arcs, incoming: Arcs, done: set<Id>, id: Id, counted: seq<Id>,
                 remaining: map<Id, nat>, rank: map<Id, nat>, queue: seq<Id>, t: Id, queue': seq<Id>)
    requires Transposed(ids, out, incoming) && t in Targets(out, id) && id != t
    requires MixedOk(ids, incoming, done, id, counted, remaining, rank, queue)
    requires id !in done && t !in counted && id in rank && id in queue
    requires forall u :: u in done ==> u in queue
    requires t in remaining && queue' == if remaining[t] == 1 then queue + [t] else queue
    ensures remaining[t] > 0 && t !in queue
    ensures var r := Max(if t in rank then rank[t] else 0, rank[id] + 1);
      MixedOk(ids, incoming, done, id, counted + [t], remaining[t := remaining[t] - 1], rank[t := r], queue')
  {
    assert id in Targets(incoming, t);
    assert t in ids;
    assert NodeOk(incoming, done, remaining, rank, queue, t);
    PendingStep(Targets(incoming, t), done, id);
    assert t !in queue;
    TargetCounts(incoming, done, remaining, rank, queue, id, t, queue');
    var r := Max(if t in rank then rank[t] else 0, rank[id] + 1);
    var left := remaining[t] - 1;
    forall v | v in ids && v in counted + [t]
      ensures NodeOk(incoming, done + {id}, remaining[t := left], rank[t := r], queue', v)
    {
      if v != t {
        assert NodeOk(incoming, done + {id}, remaining, rank, queue, v);
        OthersKeep(incoming, done + {id}, remaining, rank, queue, t, left, r, queue', v);
      }
    }
    forall v | v in ids && v !in counted + [t]
      ensures NodeOk(incoming, done, remaining[t := left], rank[t := r], queue', v)
    {
      assert NodeOk(incoming, done, remaining, rank, queue, v);
      OthersKeep(incoming, done, remaining, rank, queue, t, left, r, queue', v);
    }
  }

  /** When every target has counted `id`, it is done for the whole graph. */
  lemma MixedDone(ids: seq<Id>, out: Arcs, incoming: Arcs, done: set<Id>, id: Id,
                  remaining: map<Id, nat>, rank: map<Id, nat>, queue: seq<Id>)
    requires Transposed(ids, out, incoming) && id !in done
    requires MixedOk(ids, incoming, done, id, Targets(out, id), remaining, rank, queue)
    ensures AllOk(ids, incoming, done + {id}, remaining, rank, queue)
  {
    forall v | v in ids
      ensures NodeOk(incoming, done + {id}, remaining, rank, queue, v)
    {
      if v in Targets(out, id) {
        assert NodeOk(incoming, done + {id}, remaining, rank, queue, v);
      } else {
        assert NodeOk(incoming, done, remaining, rank, queue, v);
        assert id !in Targets(incoming, v);
        assert v in incoming;
        PendingStep(Targets(incoming, v), done, id);
      }
    }
  }

  /** Shape of the tables: no node queued twice, nothing foreign anywhere. */
  ghost predicate Books(ids: seq<Id>, remaining: map<Id, nat>, rank: map<Id, nat>, queue: seq<Id>) {
    && NoDup(queue)
    && (forall u :: u in queue ==> u in ids)
    && remaining.Keys == IdSet(ids)
    && rank.Keys <= IdSet(ids)
  }

  // ---------------------------------------------------------------- rankNodes

  function Sources(ids: seq<Id>, incoming: Arcs): seq<Id> {
    if ids == [] then []
    else
      var id := ids[|ids| - 1];
      Sources(ids[..|ids| - 1], incoming) + if Targets(incoming, id) == [] then [id] else []
  }

  lemma {:induction false} SourcesMembers(ids: seq<Id>, incoming: Arcs)
    ensures forall v :: v in Sources(ids, incoming) <==> v in ids && Targets(incoming, v) == []
    ensures NoDup(ids) ==> NoDup(Sources(ids, incoming))
  {
    if ids != [] {
      SourcesMembers(ids[..|ids| - 1], incoming);
      assert ids == ids[..|ids| - 1] + [ids[|ids| - 1]];
    }
  }

  /** The set-up loops: in-degrees, and the sources queued at rank 0. */
  method Start(ids: seq<Id>, ghost out: Arcs, incoming: Arcs)
    returns (remaining: map<Id, nat>, rank: map<Id, nat>, queue: seq<Id>)
    requires NoDup(ids)
    ensures AllOk(ids, incoming, {}, remaining, rank, queue)
    ensures Books(ids, remaining, rank, queue)
  {
    hide AllOk, Books, Targets;
    remaining := map id | id in ids :: |Targets(incoming, id)|;
    rank, queue := map[], [];
    for i := 0 to |ids|
      invariant queue == Sources(ids[..i], incoming)
      invariant AllAtZero(rank, queue)
    {
      var id := ids[i];
      NextSource(ids, incoming, i);
      if remaining[id] == 0 {
        OneMoreAtZero(rank, queue, id);
        rank := rank[id := 0];
        queue := queue + [id];
      }
    }
    assert ids[..|ids|] == ids;
    StartIsOk(ids, incoming, remaining, rank, queue);
  }

  /** Exactly the queued nodes are ranked, all at 0. */
  ghost predicate AllAtZero(rank: map<Id, nat>, queue: seq<Id>) {
    (forall v :: v in rank <==> v in queue) && forall v :: v in rank ==> rank[v] == 0
  }

  lemma OneMoreAtZero(rank: map<Id, nat>, queue: seq<Id>, id: Id)
    requires AllAtZero(rank, queue)
    ensures AllAtZero(rank[id := 0], queue + [id])
  {
  }

  lemma NextSource(ids: seq<Id>, incoming: Arcs, i: nat)
    requires i < |ids|
    ensures Sources(ids[..i + 1], incoming) ==
      Sources(ids[..i], incoming) + if Targets(incoming, ids[i]) == [] then [ids[i]] else []
  {
    assert ids[..i + 1][..i] == ids[..i];
  }

  lemma StartIsOk(ids: seq<Id>, incoming: Arcs, remaining: map<Id, nat>, rank: map<Id, nat>, queue: seq<Id>)
    requires NoDup(ids) && queue == Sources(ids, incoming) && AllAtZero(rank, queue)
    requires remaining.Keys == IdSet(ids) && forall id :: id in ids ==> remaining[id] == |Targets(incoming, id)|
    ensures AllOk(ids, incoming, {}, remaining, rank, queue)
    ensures Books(ids, remaining, rank, queue)
  {
    hide NodeOk, Sources, Pending;
    SourcesMembers(ids, incoming);
    forall v {:trigger NodeOk(incoming, {}, remaining, rank, queue, v)} | v in ids
      ensures NodeOk(incoming, {}, remaining, rank, queue, v)
    {
      StartsOk(incoming, remaining, rank, queue, v);
    }
  }

  lemma StartsOk(incoming: Arcs, remaining: map<Id, nat>, rank: map<Id, nat>, queue: seq<Id>, v: Id)
    requires v in remaining && remaining[v] == |Targets(incoming, v)| && AllAtZero(rank, queue)
    requires v in queue <==> Targets(incoming, v) == []
    ensures NodeOk(incoming, {}, remaining, rank, queue, v)
  {
    PendingBasics(Targets(incoming, v), {});
  }

  /** The inner loop: relax every arc out of `id`. */
  method RelaxAll(ids: seq<Id>, out: Arcs, ghost incoming: Arcs, ghost done: set<Id>, id: Id,
                  remaining0: map<Id, nat>, rank0: map<Id, nat>, queue0: seq<Id>)
    returns (remaining: map<Id, nat>, rank: map<Id, nat>, queue: seq<Id>)
    requires Transposed(ids, out, incoming) && id in ids && id !in Targets(out, id)
    requires AllOk(ids, incoming, done, remaining0, rank0, queue0)
    requires id !in done && id in queue0 && id in rank0
    requires forall u :: u in done ==> u in queue0
    requires Books(ids, remaining0, rank0, queue0)
    ensures AllOk(ids, incoming, done + {id}, remaining, rank, queue)
    ensures queue0 <= queue && Books(ids, remaining, rank, queue)
  {
    remaining, rank, queue := remaining0, rank0, queue0;
    var targets := Targets(out, id);
    var here := rank0[id];
    for j := 0 to |targets|
      invariant MixedOk(ids, incoming, done, id, targets[..j], remaining, rank, queue)
      invariant Books(ids, remaining, rank, queue)
      invariant queue0 <= queue && id in rank && rank[id] == here
    {
      remaining, rank, queue :=
        RelaxOne(ids, out, incoming, done, id, here, targets, j, remaining, rank, queue);
    }
    assert targets[..|targets|] == targets;
    MixedDone(ids, out, incoming, done, id, remaining, rank, queue);
  }

  lemma BooksKept(ids: seq<Id>, remaining: map<Id, nat>, rank: map<Id, nat>, queue: seq<Id>, t: Id, left: nat, r: nat,
                  queue': seq<Id>)
    requires Books(ids, remaining, rank, queue) && t in ids && t !in queue && (queue' == queue || queue' == queue + [t])
    ensures Books(ids, remaining[t := left], rank[t := r], queue')
  {
  }

  lemma ArcToRelax(ids: seq<Id>, out: Arcs, incoming: Arcs, id: Id, targets: seq<Id>, j: nat,
                   remaining: map<Id, nat>, rank: map<Id, nat>, queue: seq<Id>)
    requires Transposed(ids, out, incoming) && id in ids && id !in Targets(out, id)
    requires targets == Targets(out, id) && j < |targets| && Books(ids, remaining, rank, queue)
    ensures targets[j] in Targets(out, id) && targets[j] != id && targets[j] in ids && targets[j] in remaining
    ensures targets[j] !in targets[..j] && targets[..j + 1] == targets[..j] + [targets[j]]
  {
    assert targets[j] in Targets(out, id);
    assert id in Targets(incoming, targets[j]);
  }

  method RelaxOne(ghost ids: seq<Id>, ghost out: Arcs, ghost incoming: Arcs, ghost done: set<Id>, id: Id,
                  here: nat, targets: seq<Id>, j: nat,
                  remaining: map<Id, nat>, rank: map<Id, nat>, queue: seq<Id>)
    returns (remaining': map<Id, nat>, rank': map<Id, nat>, queue': seq<Id>)
    requires Transposed(ids, out, incoming) && id in ids && id !in Targets(out, id)
    requires targets == Targets(out, id) && j < |targets|
    requires MixedOk(ids, incoming, done, id, targets[..j], remaining, rank, queue)
    requires Books(ids, remaining, rank, queue)
    requires id !in done && id in queue && id in rank && rank[id] == here
    requires forall u :: u in done ==> u in queue
    ensures MixedOk(ids, incoming, done, id, targets[..j + 1], remaining', rank', queue')
    ensures Books(ids, remaining', rank', queue')
    ensures queue <= queue' && id in rank' && rank'[id] == here
  {
    hide MixedOk, Transposed, Books, Targets, IdSet;
    var target := targets[j];
    ArcToRelax(ids, out, incoming, id, targets, j, remaining, rank, queue);
    RelaxArc(ids, out, incoming, done, id, targets[..j], remaining, rank, queue, target,
             if remaining[target] == 1 then queue + [target] else queue);
    rank' := rank[target := Max(if target in rank then rank[target] else 0, here + 1)];
    var left := remaining[target] - 1;
    remaining' := remaining[target := left];
    queue' := queue;
    if left == 0 { queue' := queue + [target]; }
    BooksKept(ids, remaining, rank, queue, target, left, rank'[target], queue');
  }

  /** A node the queue never reached has a parent the queue never reached; so there is a cycle. */
  lemma QueueReachesAll(ids: seq<Id>, out: Arcs, incoming: Arcs, done: set<Id>, remaining: map<Id, nat>,
                        rank: map<Id, nat>, queue: seq<Id>)
    requires Transposed(ids, out, incoming) && Acyclic(out)
    requires AllOk(ids, incoming, done, remaining, rank, queue)
    requires forall u :: u in queue <==> u in done
    ensures forall v :: v in ids ==> v in done
  {
    var missed := IdSet(ids) - done;
    forall v | v in missed
      ensures HasPredecessorIn(out, missed, v)
    {
      assert NodeOk(incoming, done, remaining, rank, queue, v);
      PendingBasics(Targets(incoming, v), done);
      var u :| u in Targets(incoming, v) && u !in done;
      assert v in Targets(out, u);
      assert u in missed;
    }
    if missed != {} {
      PredecessorsCloseACycle(out, missed);
    }
    forall v | v in ids
      ensures v in done
    {
      assert v !in missed;
    }
  }

  lemma AllDoneIsLayered(ids: seq<Id>, out: Arcs, incoming: Arcs, done: set<Id>, remaining: map<Id, nat>,
                         rank: map<Id, nat>, queue: seq<Id>)
    requires Transposed(ids, out, incoming)
    requires AllOk(ids, incoming, done, remaining, rank, queue)
    requires forall v :: v in ids ==> v in done && v in queue
    ensures Layered(ids, incoming, rank)
  {
    forall v | v in ids
      ensures RankedAbove(incoming, rank, v)
    {
      assert NodeOk(incoming, done, remaining, rank, queue, v);
      forall u | u in Targets(incoming, v)
        ensures u in rank && rank[u] < rank[v]
      {
        assert v in Targets(out, u);
        assert u in ids;
      }
    }
  }

  lemma LayeredIsTotal(ids: seq<Id>, incoming: Arcs, rank: map<Id, nat>)
    requires Layered(ids, incoming, rank)
    ensures IdSet(ids) <= rank.Keys
  {
    forall v | v in ids
      ensures v in rank
    {
      assert RankedAbove(incoming, rank, v);
    }
  }

  lemma NoSelfArc(out: Arcs, id: Id)
    requires Acyclic(out)
    ensures id !in Targets(out, id)
  {
    if id in Targets(out, id) {
      WalkSnoc(out, [id], id);
    }
  }

  /** The state between two turns of the queue loop: `done` is what has been taken. */
  ghost predicate Draining(ids: seq<Id>, incoming: Arcs, done: set<Id>, cursor: nat,
                           remaining: map<Id, nat>, rank: map<Id, nat>, queue: seq<Id>)
  {
    && cursor <= |queue|
    && Books(ids, remaining, rank, queue)
    && done == IdSet(queue[..cursor])
    && AllOk(ids, incoming, done, remaining, rank, queue)
  }

  lemma QueuedIsRanked(ids: seq<Id>, incoming: Arcs, done: set<Id>, remaining: map<Id, nat>,
                       rank: map<Id, nat>, queue: seq<Id>, v: Id)
    requires AllOk(ids, incoming, done, remaining, rank, queue) && v in ids && v in queue
    ensures v in rank
  {
    assert NodeOk(incoming, done, remaining, rank, queue, v);
  }

  /** One turn of the queue loop. */
  method TakeNext(ids: seq<Id>, out: Arcs, ghost incoming: Arcs, ghost done: set<Id>, cursor: nat,
                  remaining: map<Id, nat>, rank: map<Id, nat>, queue: seq<Id>)
    returns (remaining': map<Id, nat>, rank': map<Id, nat>, queue': seq<Id>)
    requires Transposed(ids, out, incoming) && cursor < |queue|
    requires queue[cursor] !in Targets(out, queue[cursor])
    requires Draining(ids, incoming, done, cursor, remaining, rank, queue)
    ensures queue[cursor] in ids && queue[cursor] !in done
    ensures Draining(ids, incoming, done + {queue[cursor]}, cursor + 1, remaining', rank', queue')
  {
    hide MixedOk;
    var id := queue[cursor];
    assert id in queue && id !in queue[..cursor];
    QueuedIsRanked(ids, incoming, done, remaining, rank, queue, id);
    hide AllOk, Transposed;
    remaining', rank', queue' := RelaxAll(ids, out, incoming, done, id, remaining, rank, queue);
    assert queue'[..cursor + 1] == queue[..cursor] + [id];
  }

  method Drain(ids: seq<Id>, out: Arcs, ghost incoming: Arcs,
               remaining0: map<Id, nat>, rank0: map<Id, nat>, queue0: seq<Id>)
    returns (rank: map<Id, nat>, ghost done: set<Id>, ghost remaining: map<Id, nat>, ghost queue: seq<Id>)
    requires Transposed(ids, out, incoming)
    requires forall id :: id in ids ==> id !in Targets(out, id)
    requires Draining(ids, incoming, {}, 0, remaining0, rank0, queue0)
    ensures Draining(ids, incoming, done, |queue|, remaining, rank, queue)
  {
    hide AllOk, NoDup, Transposed;
    var left, pending := remaining0, queue0;
    rank := rank0;
    var cursor := 0;
    done := {};
    while cursor < |pending|
      invariant Draining(ids, incoming, done, cursor, left, rank, pending)
      decreases |IdSet(ids) - done|
    {
      var id := pending[cursor];
      assert id in pending;
      left, rank, pending := TakeNext(ids, out, incoming, done, cursor, left, rank, pending);
      assert IdSet(ids) - (done + {id}) == (IdSet(ids) - done) - {id};
      done := done + {id};
      cursor := cursor + 1;
    }
    remaining, queue := left, pending;
  }

  lemma StartsDraining(ids: seq<Id>, incoming: Arcs, remaining: map<Id, nat>, rank: map<Id, nat>, queue: seq<Id>)
    requires AllOk(ids, incoming, {}, remaining, rank, queue) && Books(ids, remaining, rank, queue)
    ensures Draining(ids, incoming, {}, 0, remaining, rank, queue)
  {
    hide AllOk, Books;
    assert queue[..0] == [];
  }

  lemma DrainedIsKnown(ids: seq<Id>, incoming: Arcs, done: set<Id>, cursor: nat, remaining: map<Id, nat>,
                       rank: map<Id, nat>, queue: seq<Id>)
    requires Draining(ids, incoming, done, cursor, remaining, rank, queue)
    ensures rank.Keys <= IdSet(ids)
  {
    hide AllOk;
  }

  /** On an acyclic view every node is reached from the queue (the fallback never fires) and gets the
    * length of the longest walk ending there; on any view no node is lost.
    */
  method RankNodes(ids: seq<Id>, out: Arcs, incoming: Arcs) returns (rank: map<Id, nat>, ghost reached: set<Id>)
    requires NoDup(ids) && Transposed(ids, out, incoming)
    requires forall id :: id in ids ==> id !in Targets(out, id)
    ensures rank.Keys == IdSet(ids)
    ensures Acyclic(out) ==> reached == IdSet(ids) && Layered(ids, incoming, rank)
  {
    hide Acyclic, Transposed, AllOk, Books, Layered, Targets, Draining;
    var remaining, rank0, queue := Start(ids, out, incoming);
    StartsDraining(ids, incoming, remaining, rank0, queue);
    ghost var remaining1, queue1;
    rank0, reached, remaining1, queue1 := Drain(ids, out, incoming, remaining, rank0, queue);
    DrainedIsKnown(ids, incoming, reached, |queue1|, remaining1, rank0, queue1);
    rank := FillIn(ids, rank0);
    if Acyclic(out) {
      AcyclicIsLayered(ids, out, incoming, reached, remaining1, rank0, queue1);
      assert rank == rank0;
    }
  }

  lemma AcyclicIsLayered(ids: seq<Id>, out: Arcs, incoming: Arcs, done: set<Id>,
                         remaining: map<Id, nat>, rank: map<Id, nat>, queue: seq<Id>)
    requires Transposed(ids, out, incoming) && Acyclic(out)
    requires Draining(ids, incoming, done, |queue|, remaining, rank, queue)
    ensures done == IdSet(ids) == rank.Keys && Layered(ids, incoming, rank)
  {
    assert queue[..|queue|] == queue;
    QueueReachesAll(ids, out, incoming, done, remaining, rank, queue);
    AllDoneIsLayered(ids, out, incoming, done, remaining, rank, queue);
    LayeredIsTotal(ids, incoming, rank);
  }

  /** Whatever the queue missed is ranked 0 rather than dropped. */
  method FillIn(ids: seq<Id>, rank0: map<Id, nat>) returns (rank: map<Id, nat>)
    requires rank0.Keys <= IdSet(ids)
    ensures rank.Keys == IdSet(ids)
    ensures forall v :: v in ids ==> rank[v] == if v in rank0 then rank0[v] else 0
  {
    rank := rank0;
    for i := 0 to |ids|
      invariant rank.Keys == rank0.Keys + IdSet(ids[..i])
      invariant forall v :: v in rank ==> rank[v] == if v in rank0 then rank0[v] else 0
    {
      if ids[i] !in rank { rank := rank[ids[i] := 0]; }
      assert ids[..i + 1] == ids[..i] + [ids[i]];
    }
    assert ids[..|ids|] == ids;
  }
}
