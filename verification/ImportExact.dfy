/** What an import does, read off the items of the proposal: which are created, patched and reported, in which order and
  * under which ids, and what the outcome handed back says.
  */
module ImportExact {
  import opened Options
  import opened Positions
  import opened Proposals
  import opened Applier
  import opened Imports

  // ---------------------------------------------------------------- the user's side

  /** Ticked, and not applied before. */
  ghost predicate Selects(env: Env, selected: set<string>, item: Item) {
    item.id in selected && item.id !in env.applied
  }

  /** What the user chose for a conflict, and otherwise what the proposal suggests. */
  function Choice(env: Env, item: Item): Resolution
    requires item.Conflict?
  {
    if item.id in env.resolutions then env.resolutions[item.id] else item.resolution
  }

  /** An enrichment or a conflict that has a node to write to, and leave to do so. */
  predicate TakesEffect(env: Env, item: Item) {
    (item.Enrich? || item.Conflict?) && item.target in env.nodes && (item.Conflict? ==> !Choice(env, item).Keep?)
  }

  ghost predicate SelectedNode(env: Env, items: seq<Item>, selected: set<string>, k: nat, t: string) {
    k < |items| && items[k].NewNode? && Selects(env, selected, items[k]) && items[k].node.tempId == t
  }

  /** The node that an end refers to is on the board, came with an earlier application, or is among those selected. */
  ghost predicate There(env: Env, items: seq<Item>, selected: set<string>, ref: Ref) {
    match ref
    case Existing(nodeId) => nodeId in env.nodes
    case Temp(t) => (t in env.applied || exists k: nat :: SelectedNode(env, items, selected, k, t))
  }

  // ---------------------------------------------------------------- positions

  lemma OneMoreEntry(items: seq<Item>, from: seq<nat>, work: seq<Item>, k: nat)
    requires Entries(items, from, work) && k < |items|
    ensures Entries(items, from + [k], work + [items[k]])
  {
  }

  lemma {:induction false} ChosenFrom(items: seq<Item>, kind: Kind, selected: set<string>, applied: set<string>)
    returns (from: seq<nat>)
    ensures Increasing(from) && Entries(items, from, Chosen(items, kind, selected, applied))
    ensures forall k: nat :: k in from <==> k < |items| && Takes(items[k], kind, selected, applied)
  {
    if items == [] {
      from := [];
    } else {
      var n := |items| - 1;
      var front, item := items[..n], items[n];
      assert items == front + [item];
      from := ChosenFrom(front, kind, selected, applied);
      hide Takes, Increasing;
      EntriesOfLonger(front, from, Chosen(front, kind, selected, applied), item);
      MorePositions(from, n);
      hide Entries;
      if Takes(item, kind, selected, applied) {
        OneMoreEntry(items, from, Chosen(front, kind, selected, applied), n);
        from := from + [n];
      }
    }
  }

  /** The positions of the items among those listed that create something. */
  lemma {:induction false} MakingFrom(env: Env, known: set<string>, items: seq<Item>, from: seq<nat>, work: seq<Item>)
    returns (made: seq<nat>)
    requires Increasing(from) && Entries(items, from, work)
    ensures Increasing(made) && Entries(items, made, Making(env, known, work))
    ensures forall k: nat :: k in made <==> k in from && k < |items| && FateOf(env, known, items[k]).Creates?
  {
    hide *;
    if work == [] {
      made := [];
      NothingFrom(env, known, items, from);
    } else {
      var n := |work| - 1;
      PositionsSplit(items, from, work);
      var k := from[n];
      made := MakingFrom(env, known, items, from[..n], work[..n]);
      WorkSnoc(env, known, work[..n], items[k]);
      MorePositions(made, k);
      if FateOf(env, known, items[k]).Creates? {
        OneMoreEntry(items, made, Making(env, known, work[..n]), k);
        made := made + [k];
      }
    }
  }

  /** The positions of those that are skipped. */
  lemma {:induction false} ReportFrom(env: Env, known: set<string>, items: seq<Item>, from: seq<nat>, work: seq<Item>)
    returns (told: seq<nat>)
    requires Increasing(from) && Entries(items, from, work)
    ensures Increasing(told) && ToldAs(env, known, items, told, Report(env, known, work))
    ensures forall k: nat :: k in told <==> k in from && k < |items| && FateOf(env, known, items[k]).Skips?
  {
    hide *;
    if work == [] {
      told := [];
      NothingFrom(env, known, items, from);
    } else {
      var n := |work| - 1;
      PositionsSplit(items, from, work);
      var k := from[n];
      told := ReportFrom(env, known, items, from[..n], work[..n]);
      WorkSnoc(env, known, work[..n], items[k]);
      MorePositions(told, k);
      if FateOf(env, known, items[k]).Skips? {
        OneMoreTold(env, known, items, told, Report(env, known, work[..n]), k);
        told := told + [k];
      }
    }
  }

  lemma NothingFrom(env: Env, known: set<string>, items: seq<Item>, from: seq<nat>)
    requires Entries(items, from, [])
    ensures from == [] && Increasing([]) && Entries(items, [], Making(env, known, []))
    ensures ToldAs(env, known, items, [], Report(env, known, []))
  {
  }

  /** The report of the items at these positions, each skipped for the reason given. */
  ghost predicate ToldAs(env: Env, known: set<string>, items: seq<Item>, told: seq<nat>, report: seq<Skip>) {
    |told| == |report| && forall i :: 0 <= i < |told| ==>
      told[i] < |items| && FateOf(env, known, items[told[i]]).Skips?
      && report[i] == Skip(items[told[i]].id, FateOf(env, known, items[told[i]]).reason)
  }

  lemma OneMoreTold(env: Env, known: set<string>, items: seq<Item>, told: seq<nat>, report: seq<Skip>, k: nat)
    requires ToldAs(env, known, items, told, report) && k < |items| && FateOf(env, known, items[k]).Skips?
    ensures ToldAs(env, known, items, told + [k], report + [Skip(items[k].id, FateOf(env, known, items[k]).reason)])
  {
    hide FateOf;
  }

  lemma PositionsSplit(items: seq<Item>, from: seq<nat>, work: seq<Item>)
    requires Increasing(from) && Entries(items, from, work) && work != []
    ensures var n := |work| - 1;
      && |from| == |work| && from[n] < |items|
      && Increasing(from[..n]) && Entries(items, from[..n], work[..n]) && work == work[..n] + [items[from[n]]]
      && (forall k: nat :: k in from[..n] ==> k < from[n])
      && (forall k: nat :: k in from <==> k in from[..n] || k == from[n])
  {
    var n := |work| - 1;
    assert from == from[..n] + [from[n]];
  }

  lemma ThereIsMet(env: Env, items: seq<Item>, selected: set<string>, ref: Ref)
    ensures There(env, items, selected, ref) <==>
      RefMet(env, Known(env.applied.Keys, Chosen(items, NodeKind, selected, env.applied.Keys)), ref)
  {
    var nodes := Chosen(items, NodeKind, selected, env.applied.Keys);
    hide Chosen;
    if ref.Temp? {
      if k: nat :| SelectedNode(env, items, selected, k, ref.tempId) {
        assert items[k] in items && items[k] in nodes;
      }
      if item :| item in nodes && item.NewNode? && item.node.tempId == ref.tempId {
        assert item in items && Takes(item, NodeKind, selected, env.applied.Keys);
        var k: nat :| k < |items| && items[k] == item;
        assert SelectedNode(env, items, selected, k, ref.tempId);
      }
    }
  }

  // ---------------------------------------------------------------- what is created

  /** The positions of the nodes created, and of the edges created. */
  ghost predicate NodesComeFrom(env: Env, items: seq<Item>, selected: set<string>, from: seq<nat>) {
    && Increasing(from)
    && forall k: nat :: k in from <==> k < |items| && items[k].NewNode? && Selects(env, selected, items[k])
  }

  ghost predicate EdgesComeFrom(env: Env, items: seq<Item>, selected: set<string>, from: seq<nat>) {
    && Increasing(from)
    && forall k: nat :: k in from <==>
         k < |items| && items[k].NewEdge? && Selects(env, selected, items[k])
         && There(env, items, selected, items[k].edge.fromRef) && There(env, items, selected, items[k].edge.toRef)
  }

  /** The nodes created are those of the selected node items, in order, under the ids first asked for; the edges
    * created are those of the selected edge items with both ends there, in order, under the ids asked for next; and
    * the outcome lists these ids, and counts what was created and patched.
    */
  lemma CreationsAreExact(env: Env, items: seq<Item>, selected: set<string>) returns (nodes: seq<nat>, edges: seq<nat>)
    requires WellFormed(items)
    ensures NodesComeFrom(env, items, selected, nodes) && EdgesComeFrom(env, items, selected, edges)
    ensures var st, o := Collected(env, items, selected), OutcomeOf(Collected(env, items, selected));
      && |st.newNodes| == |o.createdNodeIds| == |nodes| && |st.newEdges| == |o.createdEdgeIds| == |edges|
      && (forall i: nat :: i < |nodes| ==>
            && nodes[i] < |items| && items[nodes[i]].NewNode?
            && st.newNodes[i] == CreatedNode(env.newId(i), MakeNode(items[nodes[i]].node))
            && o.createdNodeIds[i] == env.newId(i))
      && (forall i: nat :: i < |edges| ==>
            && edges[i] < |items| && items[edges[i]].NewEdge?
            && st.newEdges[i].id == o.createdEdgeIds[i] == env.newId(|nodes| + i)
            && st.newEdges[i].edge.edgeType == items[edges[i]].edge.edgeType)
      && o.labelCount == |nodes| + |edges| + |o.patchedNodeIds|
  {
    hide *;
    var applied := env.applied.Keys;
    EveryItemIsAccountedFor(env, items, selected);
    nodes := NodesFrom(env, items, selected);
    edges := EdgesFrom(env, items, selected);
    OutcomeMeaning(Collected(env, items, selected));
    var st := Collected(env, items, selected);
    NodesAreThose(env, items, nodes, Chosen(items, NodeKind, selected, applied), st.newNodes);
    EdgesAreThose(env, |nodes|, Fold(env, Start(env.applied), Chosen(items, NodeKind, selected, applied)).tempIds, items, edges,
                  Making(env, Known(applied, Chosen(items, NodeKind, selected, applied)),
                         Chosen(items, EdgeKind, selected, applied)), st.newEdges);
  }

  lemma OutcomeMeaning(st: Progress)
    ensures var o := OutcomeOf(st);
      && |o.createdNodeIds| == |st.newNodes| && |o.createdEdgeIds| == |st.newEdges|
      && (forall i: nat :: i < |st.newNodes| ==> o.createdNodeIds[i] == st.newNodes[i].id)
      && (forall i: nat :: i < |st.newEdges| ==> o.createdEdgeIds[i] == st.newEdges[i].id)
      && o.patchedNodeIds == st.patched && o.skipped == st.skipped && o.tempIds == st.tempIds
      && o.labelCount == |st.newNodes| + |st.newEdges| + |st.patched|
  {
  }

  lemma NodesFrom(env: Env, items: seq<Item>, selected: set<string>) returns (from: seq<nat>)
    ensures NodesComeFrom(env, items, selected, from)
    ensures Entries(items, from, Chosen(items, NodeKind, selected, env.applied.Keys))
    ensures |from| == |Chosen(items, NodeKind, selected, env.applied.Keys)|
  {
    from := ChosenFrom(items, NodeKind, selected, env.applied.Keys);
    hide Chosen, Increasing;
  }

  lemma EdgesFrom(env: Env, items: seq<Item>, selected: set<string>) returns (from: seq<nat>)
    ensures EdgesComeFrom(env, items, selected, from)
    ensures var applied := env.applied.Keys;
      Entries(items, from, Making(env, Known(applied, Chosen(items, NodeKind, selected, applied)),
                                  Chosen(items, EdgeKind, selected, applied)))
  {
    var applied := env.applied.Keys;
    var nodes, edges := Chosen(items, NodeKind, selected, applied), Chosen(items, EdgeKind, selected, applied);
    var all := ChosenFrom(items, EdgeKind, selected, applied);
    from := MakingFrom(env, Known(applied, nodes), items, all, edges);
    hide Chosen, Increasing, Making, Report, Known, There, RefMet, Entries;
    forall k: nat | k < |items| && items[k].NewEdge?
      ensures FateOf(env, Known(applied, nodes), items[k]).Creates? <==>
        items[k].id !in env.applied
        && There(env, items, selected, items[k].edge.fromRef) && There(env, items, selected, items[k].edge.toRef)
    {
      ThereIsMet(env, items, selected, items[k].edge.fromRef);
      ThereIsMet(env, items, selected, items[k].edge.toRef);
    }
  }

  lemma NodesAreThose(env: Env, items: seq<Item>, from: seq<nat>, work: seq<Item>, created: seq<CreatedNode>)
    requires Entries(items, from, work) && NodesMade(env, work, created)
    ensures |created| == |from|
    ensures forall i: nat :: i < |from| ==>
      from[i] < |items| && items[from[i]].NewNode?
      && created[i] == CreatedNode(env.newId(i), MakeNode(items[from[i]].node))
  {
    hide MakeNode;
    forall i: nat | i < |from|
      ensures work[i] == items[from[i]] && work[i].NewNode?
    {
    }
  }

  lemma EdgesAreThose(env: Env, calls: nat, tempIds: map<string, NodeId>, items: seq<Item>, from: seq<nat>, made: seq<Item>,
                      created: seq<CreatedEdge>)
    requires Entries(items, from, made) && EdgesMade(env, calls, tempIds, made, created)
    ensures |created| == |from|
    ensures forall i: nat :: i < |from| ==>
      from[i] < |items| && items[from[i]].NewEdge?
      && created[i].id == env.newId(calls + i) && created[i].edge.edgeType == items[from[i]].edge.edgeType
  {
    forall i: nat | i < |from|
      ensures made[i] == items[from[i]] && made[i].NewEdge?
    {
    }
  }

  // ---------------------------------------------------------------- what is reported

  ghost predicate EdgesSkipped(env: Env, items: seq<Item>, selected: set<string>, from: seq<nat>) {
    && Increasing(from)
    && forall k: nat :: k in from <==>
         k < |items| && items[k].NewEdge? && Selects(env, selected, items[k])
         && !(There(env, items, selected, items[k].edge.fromRef) && There(env, items, selected, items[k].edge.toRef))
  }

  ghost predicate EnrichmentsSkipped(env: Env, items: seq<Item>, selected: set<string>, from: seq<nat>) {
    && Increasing(from)
    && forall k: nat :: k in from <==>
         k < |items| && items[k].Enrich? && Selects(env, selected, items[k]) && items[k].target !in env.nodes
  }

  ghost predicate ConflictsSkipped(env: Env, items: seq<Item>, selected: set<string>, from: seq<nat>) {
    && Increasing(from)
    && forall k: nat :: k in from <==>
         k < |items| && items[k].Conflict? && Selects(env, selected, items[k])
         && (items[k].target !in env.nodes || Choice(env, items[k]).Keep?)
  }

  /** A part of the report, for the items at these positions. */
  ghost predicate Tells(env: Env, items: seq<Item>, from: seq<nat>, report: seq<Skip>) {
    |report| == |from| && forall i: nat :: i < |from| ==>
      from[i] < |items| && report[i] ==
        Skip(items[from[i]].id,
             if items[from[i]].Conflict? && items[from[i]].target in env.nodes then KeptExisting else TargetMissing)
  }

  lemma EdgesTold(env: Env, items: seq<Item>, selected: set<string>) returns (from: seq<nat>)
    ensures var applied := env.applied.Keys;
      var report := Report(env, Known(applied, Chosen(items, NodeKind, selected, applied)),
                           Chosen(items, EdgeKind, selected, applied));
      EdgesSkipped(env, items, selected, from) && Tells(env, items, from, report)
  {
    hide *;
    var applied := env.applied.Keys;
    var nodes, edges := Chosen(items, NodeKind, selected, applied), Chosen(items, EdgeKind, selected, applied);
    var all := ChosenFrom(items, EdgeKind, selected, applied);
    from := ReportFrom(env, Known(applied, nodes), items, all, edges);
    ToldMeansTells(env, Known(applied, nodes), items, from, Report(env, Known(applied, nodes), edges));
    forall k: nat | k < |items|
      ensures k in from <==>
        items[k].NewEdge? && Selects(env, selected, items[k])
        && !(There(env, items, selected, items[k].edge.fromRef) && There(env, items, selected, items[k].edge.toRef))
    {
      EdgeSkippedWhen(env, items, selected, items[k]);
    }
    EdgesSkippedAre(env, items, selected, from);
  }

  lemma EdgesSkippedAre(env: Env, items: seq<Item>, selected: set<string>, from: seq<nat>)
    requires Increasing(from) && forall k: nat :: k in from ==> k < |items|
    requires forall k: nat :: k < |items| ==>
      (k in from <==>
         items[k].NewEdge? && Selects(env, selected, items[k])
         && !(There(env, items, selected, items[k].edge.fromRef) && There(env, items, selected, items[k].edge.toRef)))
    ensures EdgesSkipped(env, items, selected, from)
  {
    hide There, Increasing, Selects;
  }

  lemma EdgeSkippedWhen(env: Env, items: seq<Item>, selected: set<string>, item: Item)
    ensures var known := Known(env.applied.Keys, Chosen(items, NodeKind, selected, env.applied.Keys));
      Takes(item, EdgeKind, selected, env.applied.Keys) && FateOf(env, known, item).Skips? <==>
        item.NewEdge? && Selects(env, selected, item)
        && !(There(env, items, selected, item.edge.fromRef) && There(env, items, selected, item.edge.toRef))
  {
    if item.NewEdge? {
      ThereIsMet(env, items, selected, item.edge.fromRef);
      ThereIsMet(env, items, selected, item.edge.toRef);
    }
    hide Chosen, Known, There, RefMet;
  }

  /** `kind` is that of the enrichments, or that of the conflicts. */
  lemma OthersTold(env: Env, known: set<string>, items: seq<Item>, kind: Kind, selected: set<string>) returns (from: seq<nat>)
    requires kind.EnrichKind? || kind.ConflictKind?
    ensures Tells(env, items, from, Report(env, known, Chosen(items, kind, selected, env.applied.Keys)))
    ensures kind.EnrichKind? ==> EnrichmentsSkipped(env, items, selected, from)
    ensures kind.ConflictKind? ==> ConflictsSkipped(env, items, selected, from)
  {
    hide *;
    var all := ChosenFrom(items, kind, selected, env.applied.Keys);
    from := ReportFrom(env, known, items, all, Chosen(items, kind, selected, env.applied.Keys));
    forall k: nat | k < |items| && Takes(items[k], kind, selected, env.applied.Keys)
      ensures items[k].Enrich? || items[k].Conflict?
    {
      TakesMeaning(items[k], kind, selected, env.applied.Keys);
    }
    assert forall i :: 0 <= i < |from| ==> from[i] in from;
    ToldMeansTells(env, known, items, from, Report(env, known, Chosen(items, kind, selected, env.applied.Keys)));
    SkippedAre(env, known, items, kind, selected, from);
  }

  lemma TakesMeaning(item: Item, kind: Kind, selected: set<string>, applied: set<string>)
    ensures Takes(item, kind, selected, applied) <==>
      && item.id in selected
      && match kind
         case NodeKind => item.NewNode? && item.id !in applied
         case EdgeKind => item.NewEdge?
         case EnrichKind => item.Enrich?
         case ConflictKind => item.Conflict?
  {
  }

  lemma ToldMeansTells(env: Env, known: set<string>, items: seq<Item>, from: seq<nat>, report: seq<Skip>)
    requires ToldAs(env, known, items, from, report)
    ensures Tells(env, items, from, report)
  {
    forall i: nat | i < |from|
      ensures from[i] < |items| && FateOf(env, known, items[from[i]]).Skips?
      ensures FateOf(env, known, items[from[i]]).reason ==
        if items[from[i]].Conflict? && items[from[i]].target in env.nodes then KeptExisting else TargetMissing
    {
    }
    hide FateOf;
  }

  lemma SkippedAre(env: Env, known: set<string>, items: seq<Item>, kind: Kind, selected: set<string>, from: seq<nat>)
    requires kind.EnrichKind? || kind.ConflictKind?
    requires Increasing(from)
    requires forall k: nat :: k in from <==>
      k < |items| && Takes(items[k], kind, selected, env.applied.Keys) && FateOf(env, known, items[k]).Skips?
    ensures kind.EnrichKind? ==> EnrichmentsSkipped(env, items, selected, from)
    ensures kind.ConflictKind? ==> ConflictsSkipped(env, items, selected, from)
  {
    hide Increasing;
  }

  lemma {:induction false} ReportSplits(env: Env, known: set<string>, a: seq<Item>, b: seq<Item>)
    ensures Report(env, known, a + b) == Report(env, known, a) + Report(env, known, b)
  {
    hide *;
    if b == [] {
      NothingToReport(env, known);
      assert a + b == a;
    } else {
      var front, item := b[..|b| - 1], b[|b| - 1];
      ReportSplits(env, known, a, front);
      assert a + b == a + front + [item] && b == front + [item];
      WorkSnoc(env, known, a + front, item);
      WorkSnoc(env, known, front, item);
    }
  }

  lemma NothingToReport(env: Env, known: set<string>)
    ensures Report(env, known, []) == []
  {
  }

  /** The report names the selected edges with an end that is not there, the selected enrichments and conflicts whose
    * node is gone, and the conflicts for which what is there is kept: the edges first, then the enrichments, then the
    * conflicts, each in order and with that reason.
    */
  lemma SkipsAreExact(env: Env, items: seq<Item>, selected: set<string>)
    returns (edges: seq<nat>, enrichments: seq<nat>, conflicts: seq<nat>)
    requires WellFormed(items)
    ensures EdgesSkipped(env, items, selected, edges)
    ensures EnrichmentsSkipped(env, items, selected, enrichments) && ConflictsSkipped(env, items, selected, conflicts)
    ensures Tells(env, items, edges + enrichments + conflicts, OutcomeOf(Collected(env, items, selected)).skipped)
  {
    hide *;
    var applied := env.applied.Keys;
    var known := Known(applied, Chosen(items, NodeKind, selected, applied));
    var enrich, conflict := Chosen(items, EnrichKind, selected, applied), Chosen(items, ConflictKind, selected, applied);
    EveryItemIsAccountedFor(env, items, selected);
    OutcomeMeaning(Collected(env, items, selected));
    edges := EdgesTold(env, items, selected);
    enrichments := OthersTold(env, known, items, EnrichKind, selected);
    conflicts := OthersTold(env, known, items, ConflictKind, selected);
    LaterParts(items, selected, applied);
    ReportSplits(env, known, enrich, conflict);
    TellsMore(env, items, enrichments, Report(env, known, enrich), conflicts, Report(env, known, conflict));
    TellsMore(env, items, edges, Report(env, known, Chosen(items, EdgeKind, selected, applied)), enrichments + conflicts,
              Report(env, known, enrich) + Report(env, known, conflict));
    assert edges + (enrichments + conflicts) == edges + enrichments + conflicts;
  }

  lemma LaterParts(items: seq<Item>, selected: set<string>, applied: set<string>)
    ensures Later(items, selected, applied) ==
      Chosen(items, EnrichKind, selected, applied) + Chosen(items, ConflictKind, selected, applied)
  {
  }

  lemma TellsMore(env: Env, items: seq<Item>, a: seq<nat>, reportA: seq<Skip>, b: seq<nat>, reportB: seq<Skip>)
    requires Tells(env, items, a, reportA) && Tells(env, items, b, reportB)
    ensures Tells(env, items, a + b, reportA + reportB)
  {
  }

  // ---------------------------------------------------------------- what is patched

  /** The item writes to this node. */
  ghost predicate Writer(env: Env, items: seq<Item>, selected: set<string>, k: nat, id: NodeId) {
    k < |items| && Selects(env, selected, items[k]) && TakesEffect(env, items[k]) && items[k].target == id
  }

  /** Enrichments are worked on before conflicts, and either in order. */
  ghost predicate WorkedBefore(items: seq<Item>, j: nat, k: nat) {
    j < |items| && k < |items| && (if items[j].Enrich? == items[k].Enrich? then j < k else items[j].Enrich?)
  }

  /** The nodes patched are those that a selected item writes to, in the order of the first item that does. */
  lemma PatchesAreExact(env: Env, items: seq<Item>, selected: set<string>) returns (first: seq<nat>)
    requires WellFormed(items)
    ensures var patched := OutcomeOf(Collected(env, items, selected)).patchedNodeIds;
      && |first| == |patched|
      && (forall i: nat :: i < |first| ==> Writer(env, items, selected, first[i], patched[i]))
      && (forall i: nat, k: nat :: i < |first| && Writer(env, items, selected, k, patched[i]) ==>
            !WorkedBefore(items, k, first[i]))
      && (forall i: nat, j: nat :: i < j < |first| ==> WorkedBefore(items, first[i], first[j]))
      && (forall k: nat, id :: Writer(env, items, selected, k, id) ==> id in patched)
  {
    hide *;
    var applied := env.applied.Keys;
    var known, later := Known(applied, Chosen(items, NodeKind, selected, applied)), Later(items, selected, applied);
    EveryItemIsAccountedFor(env, items, selected);
    OutcomeMeaning(Collected(env, items, selected));
    var from := LaterFrom(items, selected, applied);
    var at := FirstTouches(env, known, later);
    first := seq(|at|, i requires 0 <= i < |at| => if at[i] < |from| then from[at[i]] else 0);
    TouchesAreWriters(env, items, selected, known, from, later, at, first);
  }

  lemma LaterFrom(items: seq<Item>, selected: set<string>, applied: set<string>) returns (from: seq<nat>)
    ensures Entries(items, from, Later(items, selected, applied))
    ensures forall k: nat :: k in from <==> k < |items| && (items[k].Enrich? || items[k].Conflict?) && items[k].id in selected
    ensures forall i: nat, j: nat :: i < j < |from| ==> WorkedBefore(items, from[i], from[j])
  {
    var enrich := ChosenFrom(items, EnrichKind, selected, applied);
    var conflict := ChosenFrom(items, ConflictKind, selected, applied);
    hide Chosen, Entries;
    assert forall k: nat :: k in enrich <==> k < |items| && items[k].Enrich? && items[k].id in selected;
    assert forall k: nat :: k in conflict <==> k < |items| && items[k].Conflict? && items[k].id in selected;
    from := enrich + conflict;
    forall i: nat, j: nat | i < j < |from|
      ensures WorkedBefore(items, from[i], from[j])
    {
      assert i < |enrich| ==> from[i] == enrich[i] && enrich[i] in enrich;
      assert i >= |enrich| ==> from[i] == conflict[i - |enrich|] && conflict[i - |enrich|] in conflict;
      assert j < |enrich| ==> from[j] == enrich[j] && enrich[j] in enrich;
      assert j >= |enrich| ==> from[j] == conflict[j - |enrich|] && conflict[j - |enrich|] in conflict;
    }
    EntriesJoin(items, enrich, Chosen(items, EnrichKind, selected, applied), conflict,
                Chosen(items, ConflictKind, selected, applied));
  }

  lemma EntriesJoin(items: seq<Item>, a: seq<nat>, workA: seq<Item>, b: seq<nat>, workB: seq<Item>)
    requires Entries(items, a, workA) && Entries(items, b, workB)
    ensures Entries(items, a + b, workA + workB)
  {
  }

  /** Where in the work each patched node is first written to. */
  ghost predicate FirstAt(env: Env, known: set<string>, work: seq<Item>, ids: seq<NodeId>, at: seq<nat>)
    requires LaterWork(work)
  {
    && |at| == |ids| && Increasing(at)
    && forall i: nat :: i < |at| ==>
         && at[i] < |work| && FateOf(env, known, work[at[i]]).Patches? && work[at[i]].target == ids[i]
         && forall k: nat :: k < at[i] && FateOf(env, known, work[k]).Patches? ==> work[k].target != ids[i]
  }

  lemma {:induction false} FirstTouches(env: Env, known: set<string>, work: seq<Item>) returns (at: seq<nat>)
    requires LaterWork(work)
    ensures FirstAt(env, known, work, Touched(env, known, work), at)
  {
    hide FateOf, FirstAt;
    if work == [] {
      at := [];
      NothingTouched(env, known);
    } else {
      var n := |work| - 1;
      var front, item := work[..n], work[n];
      assert work == front + [item];
      assert item in work && LaterWork(front);
      hide LaterWork;
      at := FirstTouches(env, known, front);
      TouchedSnoc(env, known, front, item);
      TouchedHas(env, known, front);
      hide Touched;
      FirstAtLonger(env, known, front, item, Touched(env, known, front), at);
      if FateOf(env, known, item).Patches? && item.target !in Touched(env, known, front) {
        FirstAtMore(env, known, front, item, Touched(env, known, front), at);
        at := at + [n];
      }
    }
  }

  lemma NothingTouched(env: Env, known: set<string>)
    ensures LaterWork([]) && FirstAt(env, known, [], Touched(env, known, []), [])
  {
  }

  lemma TouchedHas(env: Env, known: set<string>, work: seq<Item>)
    requires LaterWork(work)
    ensures forall k: nat :: k < |work| && FateOf(env, known, work[k]).Patches? ==> work[k].target in Touched(env, known, work)
  {
    hide FateOf;
    forall k: nat | k < |work| && FateOf(env, known, work[k]).Patches?
      ensures work[k].target in Touched(env, known, work)
    {
      assert work[k] in work;
    }
  }

  lemma FirstAtLonger(env: Env, known: set<string>, front: seq<Item>, item: Item, ids: seq<NodeId>, at: seq<nat>)
    requires LaterWork(front) && LaterWork(front + [item]) && FirstAt(env, known, front, ids, at)
    ensures FirstAt(env, known, front + [item], ids, at)
    ensures forall i: nat :: i < |at| ==> at[i] < |front|
  {
    hide FateOf, Increasing, LaterWork;
    var work := front + [item];
    assert forall k: nat :: k < |front| ==> work[k] == front[k];
  }

  lemma FirstAtMore(env: Env, known: set<string>, front: seq<Item>, item: Item, ids: seq<NodeId>, at: seq<nat>)
    requires LaterWork(front) && LaterWork(front + [item]) && FirstAt(env, known, front + [item], ids, at)
    requires forall i: nat :: i < |at| ==> at[i] < |front|
    requires FateOf(env, known, item).Patches? && item.target !in ids
    requires forall k: nat :: k < |front| && FateOf(env, known, front[k]).Patches? ==> front[k].target in ids
    ensures FirstAt(env, known, front + [item], ids + [item.target], at + [|front|])
  {
    hide FateOf, LaterWork;
    var work := front + [item];
    assert forall k: nat :: k < |front| ==> work[k] == front[k];
    MorePositions(at, |front|);
  }

  lemma TouchesAreWriters(env: Env, items: seq<Item>, selected: set<string>, known: set<string>, from: seq<nat>,
                          later: seq<Item>, at: seq<nat>, first: seq<nat>)
    requires LaterWork(later) && Entries(items, from, later)
    requires forall k: nat :: k in from <==> k < |items| && (items[k].Enrich? || items[k].Conflict?) && items[k].id in selected
    requires forall i: nat, j: nat :: i < j < |from| ==> WorkedBefore(items, from[i], from[j])
    requires FirstAt(env, known, later, Touched(env, known, later), at)
    requires |first| == |at| && forall i :: 0 <= i < |at| ==> at[i] < |from| ==> first[i] == from[at[i]]
    ensures var patched := Touched(env, known, later);
      && |first| == |patched|
      && (forall i: nat :: i < |first| ==> Writer(env, items, selected, first[i], patched[i]))
      && (forall i: nat, k: nat :: i < |first| && Writer(env, items, selected, k, patched[i]) ==>
            !WorkedBefore(items, k, first[i]))
      && (forall i: nat, j: nat :: i < j < |first| ==> WorkedBefore(items, first[i], first[j]))
      && (forall k: nat, id :: Writer(env, items, selected, k, id) ==> id in patched)
  {
    var patched := Touched(env, known, later);
    hide Touched, FateOf, LaterWork, TakesEffect, Selects;
    forall b: nat | b < |from|
      ensures from[b] < |items| && later[b] == items[from[b]] && from[b] in from
      ensures FateOf(env, known, later[b]).Patches? <==> Writer(env, items, selected, from[b], later[b].target)
    {
      assert from[b] in from;
      PatchesAreWriters(env, known, items, selected, from[b]);
    }
    forall k: nat, id | Writer(env, items, selected, k, id)
      ensures exists b: nat :: b < |from| && from[b] == k && FateOf(env, known, later[b]).Patches?
                               && (later[b].Enrich? || later[b].Conflict?) && later[b].target == id
    {
      assert k in from by { WriterIsLater(env, items, selected, k, id); }
      var b: nat :| b < |from| && from[b] == k;
    }
    hide WorkedBefore, Increasing;
    FirstIsFirst(env, items, selected, known, from, later, at, first);
  }

  lemma WriterIsLater(env: Env, items: seq<Item>, selected: set<string>, k: nat, id: NodeId)
    requires Writer(env, items, selected, k, id)
    ensures k < |items| && (items[k].Enrich? || items[k].Conflict?) && items[k].id in selected
  {
  }

  lemma PatchesAreWriters(env: Env, known: set<string>, items: seq<Item>, selected: set<string>, k: nat)
    requires k < |items| && (items[k].Enrich? || items[k].Conflict?) && items[k].id in selected
    ensures FateOf(env, known, items[k]).Patches? <==> Writer(env, items, selected, k, items[k].target)
  {
  }

  lemma FirstIsFirst(env: Env, items: seq<Item>, selected: set<string>, known: set<string>, from: seq<nat>,
                     later: seq<Item>, at: seq<nat>, first: seq<nat>)
    requires LaterWork(later) && |from| == |later|
    requires forall b: nat :: b < |from| ==>
      && (later[b].Enrich? || later[b].Conflict?)
      && (FateOf(env, known, later[b]).Patches? <==> Writer(env, items, selected, from[b], later[b].target))
    requires forall k: nat, id :: Writer(env, items, selected, k, id) ==>
      exists b: nat :: b < |from| && from[b] == k && FateOf(env, known, later[b]).Patches?
                       && (later[b].Enrich? || later[b].Conflict?) && later[b].target == id
    requires forall i: nat, j: nat :: i < j < |from| ==> WorkedBefore(items, from[i], from[j])
    requires FirstAt(env, known, later, Touched(env, known, later), at)
    requires |first| == |at| && forall i :: 0 <= i < |at| ==> at[i] < |from| ==> first[i] == from[at[i]]
    ensures var patched := Touched(env, known, later);
      && |first| == |patched|
      && (forall i: nat :: i < |first| ==> Writer(env, items, selected, first[i], patched[i]))
      && (forall i: nat, k: nat :: i < |first| && Writer(env, items, selected, k, patched[i]) ==>
            !WorkedBefore(items, k, first[i]))
      && (forall i: nat, j: nat :: i < j < |first| ==> WorkedBefore(items, first[i], first[j]))
      && (forall k: nat, id :: Writer(env, items, selected, k, id) ==> id in patched)
  {
    hide Touched, FateOf, LaterWork, Writer;
    var patched := Touched(env, known, later);
    forall i: nat, k: nat | i < |first| && Writer(env, items, selected, k, patched[i])
      ensures !WorkedBefore(items, k, first[i])
    {
      var b: nat :| b < |from| && from[b] == k && FateOf(env, known, later[b]).Patches? && later[b].target == patched[i];
      assert at[i] <= b;
      assert at[i] < b ==> WorkedBefore(items, from[at[i]], from[b]);
    }
    hide WorkedBefore;
    forall k: nat, id | Writer(env, items, selected, k, id)
      ensures id in patched
    {
      var b: nat :| b < |from| && from[b] == k && FateOf(env, known, later[b]).Patches? && later[b].target == id;
      assert later[b] in later;
    }
  }

  // ---------------------------------------------------------------- the ids of the edges

  /** No later item of the list has the id of this one. */
  ghost predicate LastNamed(made: seq<Item>, k: nat)
    requires k < |made|
  {
    forall j: nat :: k < j < |made| ==> made[j].id != made[k].id
  }

  /** The id map has each made edge, under its temporary id, with the id it was created with; of those sharing a
    * temporary id the last.
    */
  ghost predicate EdgesListed(made: seq<Item>, created: seq<CreatedEdge>, tempIds: map<string, NodeId>) {
    && |created| == |made|
    && forall k: nat :: k < |made| ==>
         made[k].NewEdge?
         && (LastNamed(made, k) ==> made[k].id in tempIds && tempIds[made[k].id] == created[k].id)
  }

  lemma LastNamedNext(made: seq<Item>, item: Item, k: nat)
    requires k < |made|
    ensures (made + [item])[k] == made[k]
    ensures LastNamed(made + [item], k) <==> LastNamed(made, k) && made[k].id != item.id
  {
    var all := made + [item];
    assert all[|made|] == item;
    assert forall j: nat :: j < |made| ==> all[j] == made[j];
  }

  lemma ListedNext(made: seq<Item>, created: seq<CreatedEdge>, tempIds: map<string, NodeId>, item: Item, c: CreatedEdge)
    requires EdgesListed(made, created, tempIds) && item.NewEdge?
    ensures EdgesListed(made + [item], created + [c], tempIds[item.id := c.id])
  {
    hide LastNamed;
    var all := made + [item];
    forall k: nat | k < |all|
      ensures all[k].NewEdge?
      ensures LastNamed(all, k) ==>
        all[k].id in tempIds[item.id := c.id] && tempIds[item.id := c.id][all[k].id] == (created + [c])[k].id
    {
      if k < |made| { LastNamedNext(made, item, k); }
    }
  }

  lemma {:induction false} EdgePassLists(env: Env, st0: Progress, work: seq<Item>)
    requires EdgeWork(work) && st0.newEdges == []
    ensures var st := Fold(env, st0, work);
      EdgesListed(Making(env, st0.tempIds.Keys, work), st.newEdges, st.tempIds)
  {
    if work != [] {
      var front, item := work[..|work| - 1], work[|work| - 1];
      var known, before := st0.tempIds.Keys, Fold(env, st0, front);
      assert work == front + [item];
      assert EdgeWork(front) && EdgeWork([item]);
      EdgePassLists(env, st0, front);
      EdgePass(env, st0, front);
      assert item in work;
      assert Fold(env, st0, work) == AddEdge(env, before, item);
      AddEdgeByFate(env, st0, before, item);
      WorkSnoc(env, known, front, item);
      if FateOf(env, known, item).Creates? {
        ListedNext(Making(env, known, front), before.newEdges, before.tempIds, item,
                   CreatedEdge(env.newId(Calls(before)), MadeEdge(st0.tempIds, item.edge)));
      }
      hide *;
    }
  }

  /** So does the id map that is handed back. */
  lemma EdgeIdsAreListed(env: Env, items: seq<Item>, selected: set<string>) returns (edges: seq<nat>)
    requires WellFormed(items)
    ensures EdgesComeFrom(env, items, selected, edges)
    ensures var o := OutcomeOf(Collected(env, items, selected));
      && |o.createdEdgeIds| == |edges|
      && forall i: nat :: i < |edges| ==>
           edges[i] < |items|
           && (LastOf(items, edges, i) ==>
                 items[edges[i]].id in o.tempIds && o.tempIds[items[edges[i]].id] == o.createdEdgeIds[i])
  {
    hide *;
    var applied := env.applied.Keys;
    var nodes, work := Chosen(items, NodeKind, selected, applied), Chosen(items, EdgeKind, selected, applied);
    var st := Collected(env, items, selected);
    ListedAtTheEnd(env, items, selected);
    edges := EdgesFrom(env, items, selected);
    OutcomeMeaning(st);
    var made := Making(env, Known(applied, nodes), work);
    EntriesMeaning(items, edges, made);
    ListedMeaning(made, st.newEdges, st.tempIds);
    forall i: nat | i < |edges|
      ensures edges[i] < |items|
      ensures LastOf(items, edges, i) ==>
        items[edges[i]].id in st.tempIds && st.tempIds[items[edges[i]].id] == st.newEdges[i].id
    {
      if LastOf(items, edges, i) { LastOfIsNamed(items, edges, made, i); }
    }
  }

  /** None of the positions after this one is that of an item with the same id. */
  ghost predicate LastOf(items: seq<Item>, from: seq<nat>, i: nat)
    requires i < |from| && from[i] < |items|
  {
    forall j: nat :: i < j < |from| && from[j] < |items| ==> items[from[j]].id != items[from[i]].id
  }

  lemma LastOfIsNamed(items: seq<Item>, from: seq<nat>, work: seq<Item>, i: nat)
    requires Entries(items, from, work) && i < |from| && from[i] < |items| && LastOf(items, from, i)
    ensures i < |work| && LastNamed(work, i)
  {
  }

  lemma EntriesMeaning(items: seq<Item>, from: seq<nat>, work: seq<Item>)
    requires Entries(items, from, work)
    ensures |from| == |work| && forall i: nat :: i < |from| ==> from[i] < |items| && work[i] == items[from[i]]
  {
  }

  lemma ListedMeaning(made: seq<Item>, created: seq<CreatedEdge>, tempIds: map<string, NodeId>)
    requires EdgesListed(made, created, tempIds)
    ensures |created| == |made|
    ensures forall k: nat :: k < |made| && LastNamed(made, k) ==>
      made[k].id in tempIds && tempIds[made[k].id] == created[k].id
  {
  }

  lemma ListedAtTheEnd(env: Env, items: seq<Item>, selected: set<string>)
    requires WellFormed(items)
    ensures var applied, st := env.applied.Keys, Collected(env, items, selected);
      EdgesListed(Making(env, Known(applied, Chosen(items, NodeKind, selected, applied)),
                         Chosen(items, EdgeKind, selected, applied)), st.newEdges, st.tempIds)
  {
    var applied := env.applied.Keys;
    var nodes, edges := Chosen(items, NodeKind, selected, applied), Chosen(items, EdgeKind, selected, applied);
    var st0 := Fold(env, Start(env.applied), nodes);
    ChosenNodes(items, selected, applied);
    ChosenEdges(items, selected, applied);
    ChosenLater(items, selected, applied);
    hide Chosen, Later, Fold, Making, Known, EdgesListed, NodesMade, EdgesMade, EdgeWork, LaterWork, Report, Touched,
         AgreeOnNodes, StandsFor, IdsOf;
    NodePass(env, nodes);
    EdgePass(env, st0, edges);
    EdgePassLists(env, st0, edges);
    LaterPass(env, Fold(env, st0, edges), Known(applied, nodes), Later(items, selected, applied));
  }

  // ---------------------------------------------------------------- the edges of the board

  /** The board keeps its edges and has every created one; of those created under one id it has the last. */
  lemma {:induction false} EdgesAreStored(edges: map<NodeId, BoardEdge>, created: seq<CreatedEdge>, id: NodeId)
    ensures var after := WithEdges(edges, created);
      && (id in after <==> id in edges || exists k: nat :: k < |created| && created[k].id == id)
      && (id in edges && (forall k: nat :: k < |created| ==> created[k].id != id) ==> after[id] == edges[id])
      && (forall k: nat :: k < |created| && created[k].id == id && (forall j: nat :: k < j < |created| ==> created[j].id != id)
            ==> after[id] == created[k].edge)
  {
    if created != [] {
      var n := |created| - 1;
      EdgesAreStored(edges, created[..n], id);
      assert forall k: nat :: k < n ==> created[..n][k] == created[k];
    }
  }
}
