/** What applying a proposal amounts to, item by item, and what follows for a whole import. */
module Imports {
  import opened Options
  import opened Proposals
  import opened Applier

  /** What becomes of an item that takes part. */
  datatype Fate = Creates | Patches | Skips(reason: Reason) | Done

  /** Temporary ids that stand for a node: those applied before and those of the node items taking part. */
  function Known(applied: set<string>, nodeItems: seq<Item>): set<string> {
    applied + set item | item in nodeItems && item.NewNode? :: item.node.tempId
  }

  predicate RefMet(env: Env, known: set<string>, ref: Ref) {
    match ref
    case Existing(nodeId) => nodeId in env.nodes
    case Temp(tempId) => tempId in known
  }

  /** Decided without running anything: from the board, the ids known up front, and the user's choices. */
  function FateOf(env: Env, known: set<string>, item: Item): Fate {
    if item.NewNode? then Creates
    else if item.id in env.applied then Done
    else if item.NewEdge? then
      if RefMet(env, known, item.edge.fromRef) && RefMet(env, known, item.edge.toRef) then Creates
      else Skips(TargetMissing)
    else if item.target !in env.nodes then Skips(TargetMissing)
    else if item.Conflict? && ResolutionOf(env, item).Keep? then Skips(KeptExisting)
    else Patches
  }

  /** Items that create something, in order. */
  function Making(env: Env, known: set<string>, work: seq<Item>): seq<Item> {
    if work == [] then []
    else
      Making(env, known, work[..|work| - 1]) +
      if FateOf(env, known, work[|work| - 1]).Creates? then [work[|work| - 1]] else []
  }

  /** The report of the items that are skipped, in order. */
  function Report(env: Env, known: set<string>, work: seq<Item>): seq<Skip> {
    if work == [] then []
    else
      var item := work[|work| - 1];
      match FateOf(env, known, item)
      case Skips(reason) => Report(env, known, work[..|work| - 1]) + [Skip(item.id, reason)]
      case _ => Report(env, known, work[..|work| - 1])
  }

  function CountPatching(env: Env, known: set<string>, work: seq<Item>): nat {
    if work == [] then 0
    else
      CountPatching(env, known, work[..|work| - 1]) +
      if FateOf(env, known, work[|work| - 1]).Patches? then 1 else 0
  }

  function CountDone(env: Env, known: set<string>, work: seq<Item>): nat {
    if work == [] then 0
    else CountDone(env, known, work[..|work| - 1]) + if FateOf(env, known, work[|work| - 1]).Done? then 1 else 0
  }

  /** Nodes that some item patches, by the first item that does. */
  function Touched(env: Env, known: set<string>, work: seq<Item>): (ids: seq<NodeId>)
    requires forall item :: item in work ==> item.Enrich? || item.Conflict?
    ensures forall id :: id in ids <==>
      exists item :: item in work && item.target == id && FateOf(env, known, item).Patches?
  {
    if work == [] then []
    else
      var front, item := Touched(env, known, work[..|work| - 1]), work[|work| - 1];
      assert work == work[..|work| - 1] + [item];
      if FateOf(env, known, item).Patches? && item.target !in front then front + [item.target] else front
  }

  /** The node a reference stands for. */
  function EndOf(tempIds: map<string, NodeId>, ref: Ref): NodeId {
    match ref
    case Existing(nodeId) => nodeId
    case Temp(tempId) => if tempId in tempIds then tempIds[tempId] else ""
  }

  function MadeEdge(tempIds: map<string, NodeId>, edge: ProposedEdge): BoardEdge {
    BoardEdge(EndOf(tempIds, edge.fromRef), EndOf(tempIds, edge.toRef), edge.edgeType)
  }

  // ---------------------------------------------------------------- the node pass

  /** The k-th node item became the k-th created node, under the k-th new id. */
  ghost predicate NodesMade(env: Env, nodeItems: seq<Item>, created: seq<CreatedNode>) {
    && |created| == |nodeItems|
    && forall k: nat :: k < |nodeItems| ==>
         nodeItems[k].NewNode? && created[k] == CreatedNode(env.newId(k), MakeNode(nodeItems[k].node))
  }

  /** An id known before stands for the node it stood for; one of this run for a node of this run. */
  ghost predicate StandsFor(env: Env, created: seq<CreatedNode>, nodeItems: seq<Item>, t: string, id: NodeId) {
    || (t in env.applied && env.applied[t] == id)
    || (exists k: nat :: k < |created| && k < |nodeItems| && created[k].id == id && nodeItems[k].NewNode?
                         && nodeItems[k].node.tempId == t)
  }

  /** The state after the node pass. */
  ghost predicate AfterNodes(env: Env, nodeItems: seq<Item>, st: Progress) {
    && NodesMade(env, nodeItems, st.newNodes)
    && st == Start(env.applied).(newNodes := st.newNodes, tempIds := st.tempIds)
    && st.tempIds.Keys == Known(env.applied.Keys, nodeItems)
    && forall t :: t in st.tempIds ==> StandsFor(env, st.newNodes, nodeItems, t, st.tempIds[t])
  }

  lemma {:induction false} NodePass(env: Env, nodeItems: seq<Item>)
    requires forall item :: item in nodeItems ==> item.NewNode?
    ensures AfterNodes(env, nodeItems, Fold(env, Start(env.applied), nodeItems))
  {
    if nodeItems != [] {
      var front, item := nodeItems[..|nodeItems| - 1], nodeItems[|nodeItems| - 1];
      NodePass(env, front);
      assert nodeItems == front + [item];
      assert item in nodeItems;
      NodePassStep(env, front, Fold(env, Start(env.applied), front), item);
    }
  }

  lemma KnownSnoc(applied: set<string>, front: seq<Item>, item: Item)
    requires item.NewNode?
    ensures Known(applied, front + [item]) == Known(applied, front) + {item.node.tempId}
  {
    assert item in front + [item];
  }

  lemma NodesMadeSnoc(env: Env, front: seq<Item>, created: seq<CreatedNode>, item: Item)
    requires NodesMade(env, front, created) && item.NewNode?
    ensures NodesMade(env, front + [item], created + [CreatedNode(env.newId(|created|), MakeNode(item.node))])
  {
    hide MakeNode;
  }

  lemma NodePassStep(env: Env, front: seq<Item>, before: Progress, item: Item)
    requires AfterNodes(env, front, before) && item.NewNode?
    ensures AfterNodes(env, front + [item], AddNode(env, before, item))
  {
    var nodeItems, st := front + [item], AddNode(env, before, item);
    KnownSnoc(env.applied.Keys, front, item);
    NodesMadeSnoc(env, front, before.newNodes, item);
    assert |before.newNodes| == |front|;
    hide Known, NodesMade, MakeNode;
    forall t | t in st.tempIds
      ensures StandsFor(env, st.newNodes, nodeItems, t, st.tempIds[t])
    {
      if t == item.node.tempId {
        assert st.newNodes[|front|].id == st.tempIds[t] && nodeItems[|front|] == item;
      } else {
        hide StandsFor;
        StandsForSnoc(env, before.newNodes, front, t, st.tempIds[t], st.newNodes[|front|], item);
      }
    }
    hide StandsFor;
  }

  lemma StandsForSnoc(env: Env, created: seq<CreatedNode>, nodeItems: seq<Item>, t: string, id: NodeId,
                      c: CreatedNode, item: Item)
    requires StandsFor(env, created, nodeItems, t, id) && |created| == |nodeItems|
    ensures StandsFor(env, created + [c], nodeItems + [item], t, id)
  {
    if !(t in env.applied && env.applied[t] == id) {
      var k: nat :| k < |created| && created[k].id == id && nodeItems[k].NewNode? && nodeItems[k].node.tempId == t;
      assert (created + [c])[k].id == id && (nodeItems + [item])[k].node.tempId == t;
    }
  }

  // ---------------------------------------------------------------- the edge pass

  /** The maps agree on the temporary ids of nodes. */
  ghost predicate AgreeOnNodes(a: map<string, NodeId>, b: map<string, NodeId>) {
    forall t :: NodeRef(Temp(t)) ==> (t in a <==> t in b) && (t in a ==> a[t] == b[t])
  }

  ghost predicate EdgeWork(work: seq<Item>) {
    forall item :: item in work ==> item.NewEdge? && WellNamed(item) && EdgeRefsNodes(item)
  }

  /** The k-th of these edge items became the k-th created edge, joining what its references stand for. */
  ghost predicate EdgesMade(env: Env, calls: nat, tempIds: map<string, NodeId>, made: seq<Item>,
                            created: seq<CreatedEdge>)
  {
    && |created| == |made|
    && forall k: nat :: k < |made| ==>
         made[k].NewEdge? && created[k] == CreatedEdge(env.newId(calls + k), MadeEdge(tempIds, made[k].edge))
  }

  lemma {:induction false} MakingMembers(env: Env, known: set<string>, work: seq<Item>)
    ensures forall item :: item in Making(env, known, work) <==> item in work && FateOf(env, known, item).Creates?
  {
    if work != [] {
      var front, item := work[..|work| - 1], work[|work| - 1];
      MakingMembers(env, known, front);
      assert work == front + [item];
    }
  }

  lemma ResolveAgrees(env: Env, st0: Progress, st: Progress, ref: Ref)
    requires AgreeOnNodes(st0.tempIds, st.tempIds) && NodeRef(ref)
    ensures Resolve(ref, st.tempIds, env.nodes).Some? <==> RefMet(env, st0.tempIds.Keys, ref)
    ensures Resolve(ref, st.tempIds, env.nodes).Some? ==>
      Resolve(ref, st.tempIds, env.nodes) == Some(EndOf(st0.tempIds, ref))
  {
  }

  /** One edge item, by its fate. */
  lemma AddEdgeByFate(env: Env, st0: Progress, st: Progress, item: Item)
    requires AgreeOnNodes(st0.tempIds, st.tempIds) && EdgeWork([item])
    ensures var fate, st' := FateOf(env, st0.tempIds.Keys, item), AddEdge(env, st, item);
      && AgreeOnNodes(st0.tempIds, st'.tempIds)
      && (fate.Done? ==> st' == st)
      && (fate.Skips? ==> st' == st.(skipped := st.skipped + [Skip(item.id, TargetMissing)]) && fate.reason.TargetMissing?)
      && (fate.Creates? ==>
            st' == st.(tempIds := st.tempIds[item.id := env.newId(Calls(st))],
                       newEdges := st.newEdges + [CreatedEdge(env.newId(Calls(st)), MadeEdge(st0.tempIds, item.edge))]))
      && !fate.Patches?
  {
    assert item in [item];
    ResolveAgrees(env, st0, st, item.edge.fromRef);
    ResolveAgrees(env, st0, st, item.edge.toRef);
    hide Resolve, RefMet, EndOf;
  }

  function IdsOf(items: seq<Item>): set<string> {
    set item | item in items :: item.id
  }

  /** The state after the edge pass over `work`, which started from `st0`. */
  ghost predicate AfterEdges(env: Env, st0: Progress, work: seq<Item>, st: Progress) {
    && EdgesMade(env, |st0.newNodes|, st0.tempIds, Making(env, st0.tempIds.Keys, work), st.newEdges)
    && st == st0.(newEdges := st.newEdges, skipped := st.skipped, tempIds := st.tempIds)
    && st.skipped == st0.skipped + Report(env, st0.tempIds.Keys, work)
    && AgreeOnNodes(st0.tempIds, st.tempIds)
    && st.tempIds.Keys == st0.tempIds.Keys + IdsOf(Making(env, st0.tempIds.Keys, work))
  }

  lemma {:induction false} EdgePass(env: Env, st0: Progress, work: seq<Item>)
    requires EdgeWork(work) && st0.newEdges == []
    ensures AfterEdges(env, st0, work, Fold(env, st0, work))
  {
    if work != [] {
      var front, item := work[..|work| - 1], work[|work| - 1];
      assert work == front + [item];
      assert EdgeWork(front) && EdgeWork([item]);
      EdgePass(env, st0, front);
      assert item in work;
      assert Fold(env, st0, work) == AddEdge(env, Fold(env, st0, front), item);
      EdgePassStep(env, st0, front, Fold(env, st0, front), item);
    }
  }

  lemma WorkSnoc(env: Env, known: set<string>, front: seq<Item>, item: Item)
    ensures var fate := FateOf(env, known, item);
      && Making(env, known, front + [item]) ==
           (if fate.Creates? then Making(env, known, front) + [item] else Making(env, known, front))
      && Report(env, known, front + [item]) ==
           (if fate.Skips? then Report(env, known, front) + [Skip(item.id, fate.reason)] else Report(env, known, front))
  {
    hide FateOf;
    assert (front + [item])[..|front|] == front;
  }

  lemma IdsSnoc(items: seq<Item>, item: Item)
    ensures IdsOf(items + [item]) == IdsOf(items) + {item.id}
  {
  }

  lemma EdgePassStep(env: Env, st0: Progress, front: seq<Item>, before: Progress, item: Item)
    requires AfterEdges(env, st0, front, before) && EdgeWork([item])
    ensures AfterEdges(env, st0, front + [item], AddEdge(env, before, item))
  {
    hide FateOf, Making, Report, IdsOf, AddEdge, AgreeOnNodes, EdgesMade, MadeEdge;
    var known := st0.tempIds.Keys;
    var fate, made := FateOf(env, known, item), Making(env, known, front);
    AddEdgeByFate(env, st0, before, item);
    WorkSnoc(env, known, front, item);
    assert item in [item];
    hide EdgeWork;
    var st := AddEdge(env, before, item);
    if fate.Creates? {
      MadeSnoc(env, |st0.newNodes|, st0.tempIds, made, before.newEdges, item);
      IdsSnoc(made, item);
      assert st.tempIds.Keys == before.tempIds.Keys + {item.id};
      assert AfterEdges(env, st0, front + [item], st);
    } else {
      assert AfterEdges(env, st0, front + [item], st);
    }
  }

  lemma MadeSnoc(env: Env, calls: nat, tempIds: map<string, NodeId>, made: seq<Item>, created: seq<CreatedEdge>,
                 item: Item)
    requires EdgesMade(env, calls, tempIds, made, created) && item.NewEdge?
    ensures EdgesMade(env, calls, tempIds, made + [item],
                      created + [CreatedEdge(env.newId(calls + |created|), MadeEdge(tempIds, item.edge))])
  {
    hide MadeEdge;
  }

  // ---------------------------------------------------------------- enrichments and conflicts

  ghost predicate LaterWork(work: seq<Item>) {
    forall item :: item in work ==> item.Enrich? || item.Conflict?
  }

  /** The state after the last two passes over `work`, which started from `st0`. */
  ghost predicate AfterLater(env: Env, known: set<string>, st0: Progress, work: seq<Item>, st: Progress)
    requires LaterWork(work)
  {
    && st == st0.(skipped := st.skipped, patched := st.patched, patches := st.patches)
    && st.skipped == st0.skipped + Report(env, known, work)
    && st.patched == Touched(env, known, work)
  }

  lemma {:induction false} LaterPass(env: Env, st0: Progress, known: set<string>, work: seq<Item>)
    requires LaterWork(work) && st0.patched == [] && st0.patches == map[]
    ensures AfterLater(env, known, st0, work, Fold(env, st0, work))
  {
    if work != [] {
      var front, item := work[..|work| - 1], work[|work| - 1];
      assert work == front + [item];
      assert item in work;
      assert LaterWork(front);
      LaterPass(env, st0, known, front);
      FoldTracks(env, st0, front);
      LaterPassStep(env, st0, known, front, Fold(env, st0, front), item);
    }
  }

  lemma TouchedSnoc(env: Env, known: set<string>, front: seq<Item>, item: Item)
    requires LaterWork(front + [item]) && LaterWork(front)
    ensures Touched(env, known, front + [item]) ==
      var ids := Touched(env, known, front);
      if FateOf(env, known, item).Patches? && item.target !in ids then ids + [item.target] else ids
  {
    assert (front + [item])[..|front|] == front;
    hide FateOf;
  }

  lemma LaterPassStep(env: Env, st0: Progress, known: set<string>, front: seq<Item>, before: Progress, item: Item)
    requires LaterWork(front + [item]) && LaterWork(front) && (item.Enrich? || item.Conflict?)
    requires AfterLater(env, known, st0, front, before) && Tracks(env, before)
    ensures AfterLater(env, known, st0, front + [item], Step(env, before, item))
  {
    WorkSnoc(env, known, front, item);
    TouchedSnoc(env, known, front, item);
    hide ApplyPatches, Settled, AppendProvenance, DataOf, Report, Touched, Making, LaterWork, ResolutionOf;
  }

  // ---------------------------------------------------------------- accountability

  lemma ChosenNodes(items: seq<Item>, selected: set<string>, applied: set<string>)
    ensures forall item :: item in Chosen(items, NodeKind, selected, applied) ==> item.NewNode?
  {
  }

  lemma ChosenEdges(items: seq<Item>, selected: set<string>, applied: set<string>)
    requires WellFormed(items)
    ensures EdgeWork(Chosen(items, EdgeKind, selected, applied))
  {
    hide Chosen;
  }

  lemma ChosenLater(items: seq<Item>, selected: set<string>, applied: set<string>)
    ensures LaterWork(Later(items, selected, applied))
  {
    hide Chosen;
  }

  /** Every item that takes part is accounted for: the k-th node item becomes the k-th created node; the edges
    * whose ends are known are created, joining those ends; the others, and the enrichments and conflicts that
    * write nothing, are reported with the reason; and the remaining ones patch their target.
    */
  lemma EveryItemIsAccountedFor(env: Env, items: seq<Item>, selected: set<string>)
    requires WellFormed(items)
    ensures LaterWork(Later(items, selected, env.applied.Keys))
    ensures var applied := env.applied.Keys;
      var nodes, edges := Chosen(items, NodeKind, selected, applied), Chosen(items, EdgeKind, selected, applied);
      var later, known := Later(items, selected, applied), Known(applied, nodes);
      var st, tempIds := Collected(env, items, selected), Fold(env, Start(env.applied), nodes).tempIds;
      && NodesMade(env, nodes, st.newNodes)
      && EdgesMade(env, |nodes|, tempIds, Making(env, known, edges), st.newEdges)
      && st.skipped == Report(env, known, edges) + Report(env, known, later)
      && st.patched == Touched(env, known, later)
      && AgreeOnNodes(tempIds, st.tempIds)
      && tempIds.Keys == known
      && st.tempIds.Keys == known + IdsOf(Making(env, known, edges))
  {
    var applied := env.applied.Keys;
    var nodes, edges := Chosen(items, NodeKind, selected, applied), Chosen(items, EdgeKind, selected, applied);
    var later, known := Later(items, selected, applied), Known(applied, nodes);
    ChosenNodes(items, selected, applied);
    ChosenEdges(items, selected, applied);
    ChosenLater(items, selected, applied);
    var st0 := Fold(env, Start(env.applied), nodes);
    var st1 := Fold(env, st0, edges);
    NodePass(env, nodes);
    assert st0.newEdges == [] && st0.patched == [] && st0.patches == map[] && st0.tempIds.Keys == known;
    EdgePass(env, st0, edges);
    assert st1.patched == [] && st1.patches == map[];
    LaterPass(env, st1, known, later);
    CombinePasses(env, nodes, edges, later, st0, st1, Fold(env, st1, later));
    hide *;
  }

  lemma CombinePasses(env: Env, nodes: seq<Item>, edges: seq<Item>, later: seq<Item>, st0: Progress, st1: Progress,
                      st: Progress)
    requires LaterWork(later) && AfterNodes(env, nodes, st0) && AfterEdges(env, st0, edges, st1)
    requires AfterLater(env, Known(env.applied.Keys, nodes), st1, later, st)
    ensures var known, tempIds := Known(env.applied.Keys, nodes), st0.tempIds;
      && NodesMade(env, nodes, st.newNodes)
      && EdgesMade(env, |nodes|, tempIds, Making(env, known, edges), st.newEdges)
      && st.skipped == Report(env, known, edges) + Report(env, known, later)
      && st.patched == Touched(env, known, later)
      && AgreeOnNodes(tempIds, st.tempIds)
      && tempIds.Keys == known
      && st.tempIds.Keys == known + IdsOf(Making(env, known, edges))
  {
    hide Making, Report, Touched, EdgesMade, AgreeOnNodes, LaterWork, StandsFor, Known, IdsOf, MakeNode;
    assert |st0.newNodes| == |nodes|;
    hide NodesMade;
    assert st0.skipped == [];
    assert st1.newNodes == st0.newNodes && st.newNodes == st1.newNodes && st.newEdges == st1.newEdges;
    hide AfterNodes;
    assert st.tempIds == st1.tempIds;
  }

  lemma {:induction false} FatesBalance(env: Env, known: set<string>, work: seq<Item>)
    ensures |work| == |Making(env, known, work)| + |Report(env, known, work)|
                      + CountPatching(env, known, work) + CountDone(env, known, work)
  {
    if work != [] {
      FatesBalance(env, known, work[..|work| - 1]);
      hide FateOf;
    }
  }

  lemma {:induction false} LaterMakesNothing(env: Env, known: set<string>, work: seq<Item>)
    requires LaterWork(work)
    ensures Making(env, known, work) == []
  {
    if work != [] {
      assert work[|work| - 1] in work;
      LaterMakesNothing(env, known, work[..|work| - 1]);
    }
  }

  lemma {:induction false} EdgesPatchNothing(env: Env, known: set<string>, work: seq<Item>)
    requires EdgeWork(work)
    ensures CountPatching(env, known, work) == 0
  {
    if work != [] {
      assert work[|work| - 1] in work;
      EdgesPatchNothing(env, known, work[..|work| - 1]);
    }
  }

  /** No item is dropped quietly: the items that take part are as many as the nodes created, the edges created,
    * the items reported as skipped, the items that patch, and the items applied before.
    */
  lemma NothingIsDropped(env: Env, items: seq<Item>, selected: set<string>)
    requires WellFormed(items)
    ensures LaterWork(Later(items, selected, env.applied.Keys))
    ensures var applied := env.applied.Keys;
      var nodes, edges := Chosen(items, NodeKind, selected, applied), Chosen(items, EdgeKind, selected, applied);
      var later, known := Later(items, selected, applied), Known(applied, nodes);
      var st := Collected(env, items, selected);
      |nodes| + |edges| + |later| ==
        |st.newNodes| + |st.newEdges| + |st.skipped|
        + CountPatching(env, known, later) + CountDone(env, known, edges) + CountDone(env, known, later)
  {
    var applied := env.applied.Keys;
    var nodes, edges := Chosen(items, NodeKind, selected, applied), Chosen(items, EdgeKind, selected, applied);
    var later, known := Later(items, selected, applied), Known(applied, nodes);
    EveryItemIsAccountedFor(env, items, selected);
    ChosenEdges(items, selected, applied);
    FatesBalance(env, known, edges);
    FatesBalance(env, known, later);
    LaterMakesNothing(env, known, later);
    EdgesPatchNothing(env, known, edges);
    hide Chosen, Later, Known, Collected, Making, Report, CountPatching, CountDone, Touched, Fold, EdgeWork, LaterWork;
  }

  // ---------------------------------------------------------------- no selected edge is left out

  /** The existing nodes that the selected edges refer to are still on the board. */
  ghost predicate ExistingPresent(env: Env, items: seq<Item>, selected: set<string>) {
    forall item :: item in items && item.NewEdge? && item.id in selected ==>
      (item.edge.fromRef.Existing? ==> item.edge.fromRef.nodeId in env.nodes) &&
      (item.edge.toRef.Existing? ==> item.edge.toRef.nodeId in env.nodes)
  }

  lemma SelectedRefIsMet(env: Env, items: seq<Item>, selected: set<string>, ref: Ref)
    requires WellFormed(items) && RefSelected(items, selected, ref)
    requires ref.Existing? ==> ref.nodeId in env.nodes
    ensures RefMet(env, Known(env.applied.Keys, Chosen(items, NodeKind, selected, env.applied.Keys)), ref)
  {
    if ref.Temp? {
      var item :| item in items && item.NewNode? && item.id in selected && item.node.tempId == ref.tempId;
      assert WellNamed(item);
      if item.id !in env.applied { assert item in Chosen(items, NodeKind, selected, env.applied.Keys); }
    }
  }

  /** Applying a dependency-closed selection whose existing nodes are present skips no edge: each one is created,
    * unless it was applied before.
    */
  lemma ClosedSelectionSkipsNoEdge(env: Env, items: seq<Item>, selected: set<string>)
    requires WellFormed(items) && DependencyClosed(items, selected) && ExistingPresent(env, items, selected)
    ensures var applied := env.applied.Keys;
      var edges := Chosen(items, EdgeKind, selected, applied);
      var known := Known(applied, Chosen(items, NodeKind, selected, applied));
      && Report(env, known, edges) == []
      && |Collected(env, items, selected).newEdges| + CountDone(env, known, edges) == |edges|
  {
    var applied := env.applied.Keys;
    var edges := Chosen(items, EdgeKind, selected, applied);
    var known := Known(applied, Chosen(items, NodeKind, selected, applied));
    forall item | item in edges
      ensures !FateOf(env, known, item).Skips? && !FateOf(env, known, item).Patches?
    {
      SelectedRefIsMet(env, items, selected, item.edge.fromRef);
      SelectedRefIsMet(env, items, selected, item.edge.toRef);
    }
    NoSkips(env, known, edges);
    EveryItemIsAccountedFor(env, items, selected);
    FatesBalance(env, known, edges);
    hide Chosen, Known, Collected, Making, Report, CountPatching, CountDone, Touched, Fold, WellFormed, FateOf,
         DependencyClosed, ExistingPresent, LaterWork, Later, NodesMade;
  }

  lemma {:induction false} NoSkips(env: Env, known: set<string>, work: seq<Item>)
    requires forall item :: item in work ==> !FateOf(env, known, item).Skips? && !FateOf(env, known, item).Patches?
    ensures Report(env, known, work) == [] && CountPatching(env, known, work) == 0
  {
    if work != [] {
      assert work[|work| - 1] in work;
      NoSkips(env, known, work[..|work| - 1]);
    }
  }

  // ---------------------------------------------------------------- what the board holds afterwards

  lemma {:induction false} WithNodesKeys(nodes: map<NodeId, BoardNode>, created: seq<CreatedNode>)
    ensures forall id :: id in WithNodes(nodes, created) <==>
      id in nodes || exists k: nat :: k < |created| && created[k].id == id
    ensures forall id :: id in nodes && (forall k: nat :: k < |created| ==> created[k].id != id) ==>
      WithNodes(nodes, created)[id] == nodes[id]
  {
    if created != [] {
      var front := created[..|created| - 1];
      WithNodesKeys(nodes, front);
      assert forall k: nat :: k < |front| ==> front[k] == created[k];
      forall id
        ensures id in WithNodes(nodes, created) <==> id in nodes || exists k: nat :: k < |created| && created[k].id == id
      {
        if id in WithNodes(nodes, front) && id !in nodes {
          var k: nat :| k < |front| && front[k].id == id;
          assert created[k].id == id;
        }
        if id == created[|front|].id { assert id in WithNodes(nodes, created); }
      }
    }
  }

  lemma {:induction false} WithNodesAt(nodes: map<NodeId, BoardNode>, created: seq<CreatedNode>, k: nat)
    requires forall i: nat, j: nat :: i < j < |created| ==> created[i].id != created[j].id
    requires k < |created|
    ensures created[k].id in WithNodes(nodes, created) && WithNodes(nodes, created)[created[k].id] == created[k].node
  {
    var n := |created| - 1;
    if k < n {
      assert created[..n][k] == created[k];
      WithNodesAt(nodes, created[..n], k);
    }
  }

  lemma {:induction false} WithPatchesKeys(nodes: map<NodeId, BoardNode>, patched: seq<NodeId>,
                                           patches: map<NodeId, Data>)
    requires forall id :: id in patched ==> id in patches
    ensures WithPatches(nodes, patched, patches).Keys == nodes.Keys
    ensures forall id :: id in nodes && id !in patched ==> WithPatches(nodes, patched, patches)[id] == nodes[id]
  {
    if patched != [] {
      var front := patched[..|patched| - 1];
      assert patched == front + [patched[|patched| - 1]];
      WithPatchesKeys(nodes, front, patches);
    }
  }

  lemma {:induction false} WithPatchesAt(nodes: map<NodeId, BoardNode>, patched: seq<NodeId>,
                                         patches: map<NodeId, Data>, id: NodeId)
    requires forall id :: id in patched ==> id in patches
    requires forall i, j :: 0 <= i < j < |patched| ==> patched[i] != patched[j]
    requires id in patched && id in nodes
    ensures id in WithPatches(nodes, patched, patches)
    ensures WithPatches(nodes, patched, patches)[id] == nodes[id].(data := patches[id], version := nodes[id].version + 1)
  {
    var front, last := patched[..|patched| - 1], patched[|patched| - 1];
    assert patched == front + [last];
    WithPatchesKeys(nodes, front, patches);
    if id != last { WithPatchesAt(nodes, front, patches, id); }
  }

  /** The ids handed out are new to the board and differ from each other. */
  ghost predicate FreshIds(env: Env, count: nat) {
    && (forall k: nat :: k < count ==> env.newId(k) !in env.nodes)
    && (forall i: nat, j: nat :: i < j < count ==> env.newId(i) != env.newId(j))
  }

  lemma NewIdsInOrder(env: Env, items: seq<Item>, selected: set<string>)
    requires WellFormed(items)
    ensures var st := Collected(env, items, selected);
      forall k: nat :: k < |st.newNodes| ==> st.newNodes[k].id == env.newId(k)
  {
    EveryItemIsAccountedFor(env, items, selected);
    hide Collected, WellFormed, Chosen, Later, Known, Making, Report, Touched, Fold, EdgesMade, AgreeOnNodes, LaterWork,
         IdsOf;
  }

  /** The board keeps every node; nodes that are not patched keep everything; patched nodes change their data and
    * version only; and the created nodes hold what was proposed.
    */
  lemma BoardIsKept(env: Env, items: seq<Item>, selected: set<string>)
    requires WellFormed(items) && FreshIds(env, |Collected(env, items, selected).newNodes|)
    ensures var st := Collected(env, items, selected);
      && Tracks(env, st)
      && (forall id :: id in NodesAfter(env, st) <==>
            id in env.nodes || exists k: nat :: k < |st.newNodes| && env.newId(k) == id)
      && (forall id :: id in env.nodes && id !in st.patches ==> NodesAfter(env, st)[id] == env.nodes[id])
      && (forall id :: id in st.patches ==>
            NodesAfter(env, st)[id] == env.nodes[id].(data := st.patches[id], version := env.nodes[id].version + 1))
      && (forall k: nat :: k < |st.newNodes| ==> NodesAfter(env, st)[env.newId(k)] == st.newNodes[k].node)
  {
    hide Collected, WellFormed, NodesAfter, FreshIds;
    CollectedTracks(env, items, selected);
    NewIdsInOrder(env, items, selected);
    BoardFrame(env, Collected(env, items, selected));
  }

  lemma BoardFrame(env: Env, st: Progress)
    requires Tracks(env, st) && FreshIds(env, |st.newNodes|)
    requires forall k: nat :: k < |st.newNodes| ==> st.newNodes[k].id == env.newId(k)
    ensures forall id :: id in NodesAfter(env, st) <==>
      id in env.nodes || exists k: nat :: k < |st.newNodes| && env.newId(k) == id
    ensures forall id :: id in env.nodes && id !in st.patches ==> NodesAfter(env, st)[id] == env.nodes[id]
    ensures forall id :: id in st.patches ==>
      NodesAfter(env, st)[id] == env.nodes[id].(data := st.patches[id], version := env.nodes[id].version + 1)
    ensures forall k: nat :: k < |st.newNodes| ==> NodesAfter(env, st)[env.newId(k)] == st.newNodes[k].node
  {
    var added, after := WithNodes(env.nodes, st.newNodes), NodesAfter(env, st);
    WithNodesKeys(env.nodes, st.newNodes);
    WithPatchesKeys(added, st.patched, st.patches);
    assert forall id :: id in env.nodes ==> id in added && added[id] == env.nodes[id];
    hide WithNodes, WithPatches;
    forall id | id in st.patches
      ensures after[id] == env.nodes[id].(data := st.patches[id], version := env.nodes[id].version + 1)
    {
      assert id in st.patched;
      WithPatchesAt(added, st.patched, st.patches, id);
    }
    forall k: nat | k < |st.newNodes|
      ensures after[env.newId(k)] == st.newNodes[k].node
    {
      WithNodesAt(env.nodes, st.newNodes, k);
      assert env.newId(k) !in st.patched;
    }
  }

  lemma NodesAfterKeys(env: Env, st: Progress)
    requires Tracks(env, st)
    ensures forall id :: id in NodesAfter(env, st) <==>
      id in env.nodes || exists k: nat :: k < |st.newNodes| && st.newNodes[k].id == id
  {
    WithNodesKeys(env.nodes, st.newNodes);
    WithPatchesKeys(WithNodes(env.nodes, st.newNodes), st.patched, st.patches);
  }

  // ---------------------------------------------------------------- the ends of the created edges

  /** A node applied before, if that is what is meant, is still on the board. */
  predicate StillThere(env: Env, after: map<NodeId, BoardNode>, ref: Ref) {
    ref.Temp? && ref.tempId in env.applied ==> env.applied[ref.tempId] in after
  }

  /** Items applied before do not take part, so their ids keep standing for the old nodes. */
  lemma StandsForOne(env: Env, items: seq<Item>, selected: set<string>, created: seq<CreatedNode>, t: string, id: NodeId)
    requires WellFormed(items) && t in env.applied
    requires StandsFor(env, created, Chosen(items, NodeKind, selected, env.applied.Keys), t, id)
    ensures env.applied[t] == id
  {
    var nodes := Chosen(items, NodeKind, selected, env.applied.Keys);
    forall k: nat | k < |nodes|
      ensures nodes[k].NewNode? ==> nodes[k].node.tempId != t
    {
      assert nodes[k] in nodes;
      assert WellNamed(nodes[k]);
    }
  }

  lemma EndIsOnBoard(env: Env, items: seq<Item>, selected: set<string>, st: Progress, ref: Ref)
    requires WellFormed(items) && Tracks(env, st)
    requires var nodes := Chosen(items, NodeKind, selected, env.applied.Keys);
      var st0 := Fold(env, Start(env.applied), nodes);
      st.newNodes == st0.newNodes && AfterNodes(env, nodes, st0) && RefMet(env, st0.tempIds.Keys, ref)
    ensures var st0 := Fold(env, Start(env.applied), Chosen(items, NodeKind, selected, env.applied.Keys));
      EndOf(st0.tempIds, ref) in NodesAfter(env, st) <==> StillThere(env, NodesAfter(env, st), ref)
  {
    var nodes := Chosen(items, NodeKind, selected, env.applied.Keys);
    var st0 := Fold(env, Start(env.applied), nodes);
    NodesAfterKeys(env, st);
    hide Fold, Chosen, NodesAfter, Known, NodesMade;
    if ref.Temp? {
      var t := ref.tempId;
      assert StandsFor(env, st0.newNodes, nodes, t, st0.tempIds[t]);
      if t in env.applied {
        StandsForOne(env, items, selected, st0.newNodes, t, st0.tempIds[t]);
      }
    }
  }

  lemma MadeRefsAreMet(env: Env, known: set<string>, work: seq<Item>, k: nat)
    requires EdgeWork(work) && k < |Making(env, known, work)|
    ensures var item := Making(env, known, work)[k];
      item.NewEdge? && RefMet(env, known, item.edge.fromRef) && RefMet(env, known, item.edge.toRef)
  {
    MakingMembers(env, known, work);
    assert Making(env, known, work)[k] in Making(env, known, work);
    hide Making;
  }

  /** A created edge joins two nodes of the resulting board, except exactly where it refers to a node applied
    * before that has since left the board: there the reference is taken from the id map without a look.
    */
  lemma CreatedEdgesJoinNodes(env: Env, items: seq<Item>, selected: set<string>)
    requires WellFormed(items)
    ensures Tracks(env, Collected(env, items, selected))
    ensures var applied := env.applied.Keys;
      var st, after := Collected(env, items, selected), NodesAfter(env, Collected(env, items, selected));
      var made := Making(env, Known(applied, Chosen(items, NodeKind, selected, applied)),
                         Chosen(items, EdgeKind, selected, applied));
      && |st.newEdges| == |made|
      && forall k: nat :: k < |made| ==>
           && made[k].NewEdge?
           && (st.newEdges[k].edge.source in after <==> StillThere(env, after, made[k].edge.fromRef))
           && (st.newEdges[k].edge.target in after <==> StillThere(env, after, made[k].edge.toRef))
  {
    var applied := env.applied.Keys;
    var nodes, edges := Chosen(items, NodeKind, selected, applied), Chosen(items, EdgeKind, selected, applied);
    var st, st0 := Collected(env, items, selected), Fold(env, Start(env.applied), nodes);
    CollectedTracks(env, items, selected);
    EveryItemIsAccountedFor(env, items, selected);
    CollectedNodes(env, items, selected);
    ChosenEdges(items, selected, applied);
    var known, made := Known(applied, nodes), Making(env, Known(applied, nodes), edges);
    hide Chosen, Fold, Collected, Making, Known, WellFormed, Report, Touched, NodesMade, LaterWork, Later, IdsOf,
         AgreeOnNodes, NodesAfter, Tracks, EdgeWork, AfterNodes, RefMet, StillThere, EndOf;
    forall k: nat | k < |made|
      ensures made[k].NewEdge?
      ensures st.newEdges[k].edge.source in NodesAfter(env, st) <==> StillThere(env, NodesAfter(env, st), made[k].edge.fromRef)
      ensures st.newEdges[k].edge.target in NodesAfter(env, st) <==> StillThere(env, NodesAfter(env, st), made[k].edge.toRef)
    {
      MadeRefsAreMet(env, known, edges, k);
      EndIsOnBoard(env, items, selected, st, made[k].edge.fromRef);
      EndIsOnBoard(env, items, selected, st, made[k].edge.toRef);
    }
  }

  lemma CollectedNodes(env: Env, items: seq<Item>, selected: set<string>)
    requires WellFormed(items)
    ensures var nodes := Chosen(items, NodeKind, selected, env.applied.Keys);
      var st0 := Fold(env, Start(env.applied), nodes);
      AfterNodes(env, nodes, st0) && Collected(env, items, selected).newNodes == st0.newNodes
  {
    var nodes := Chosen(items, NodeKind, selected, env.applied.Keys);
    var edges := Chosen(items, EdgeKind, selected, env.applied.Keys);
    var later := Later(items, selected, env.applied.Keys);
    ChosenNodes(items, selected, env.applied.Keys);
    ChosenEdges(items, selected, env.applied.Keys);
    ChosenLater(items, selected, env.applied.Keys);
    var st0 := Fold(env, Start(env.applied), nodes);
    NodePass(env, nodes);
    EdgePass(env, st0, edges);
    var st1 := Fold(env, st0, edges);
    LaterPass(env, st1, {}, later);
    assert Collected(env, items, selected) == Fold(env, st1, later);
    hide Fold, Chosen, Making, Report, Touched, Known, NodesMade, StandsFor, EdgesMade, AgreeOnNodes, IdsOf;
  }

  // ---------------------------------------------------------------- applying again

  /** No item mentions this id as an existing node. */
  ghost predicate Unmentioned(items: seq<Item>, id: NodeId) {
    forall item :: item in items ==>
      && (item.NewEdge? ==> item.edge.fromRef != Existing(id) && item.edge.toRef != Existing(id))
      && (item.Enrich? || item.Conflict? ==> item.target != id)
  }

  /** The board and the guard map that a second application starts from. */
  function Again(env: Env, st: Progress, newId: nat -> NodeId): Env
    requires Tracks(env, st)
  {
    Env(NodesAfter(env, st), st.tempIds, env.resolutions, newId)
  }

  /** What is known of the first run, for the sake of the second. */
  ghost predicate FirstRun(env: Env, items: seq<Item>, selected: set<string>, st: Progress) {
    var nodes, edges := Chosen(items, NodeKind, selected, env.applied.Keys), Chosen(items, EdgeKind, selected, env.applied.Keys);
    var known := Known(env.applied.Keys, nodes);
    && Tracks(env, st)
    && (forall k: nat :: k < |st.newNodes| ==> Unmentioned(items, st.newNodes[k].id))
    && st.tempIds.Keys == known + IdsOf(Making(env, known, edges))
  }

  lemma {:induction false} ChosenIgnoresApplied(items: seq<Item>, kind: Kind, selected: set<string>,
                                                a: set<string>, b: set<string>)
    requires kind != NodeKind
    ensures Chosen(items, kind, selected, a) == Chosen(items, kind, selected, b)
  {
    if items != [] { ChosenIgnoresApplied(items[..|items| - 1], kind, selected, a, b); }
  }

  lemma SomeMember(items: seq<Item>) returns (item: Item)
    requires items != []
    ensures item in items
  {
    item := items[0];
  }

  lemma NoNodesAgain(env: Env, items: seq<Item>, selected: set<string>, st: Progress)
    requires WellFormed(items) && FirstRun(env, items, selected, st)
    ensures Chosen(items, NodeKind, selected, st.tempIds.Keys) == []
  {
    var nodes, nodes2 := Chosen(items, NodeKind, selected, env.applied.Keys), Chosen(items, NodeKind, selected, st.tempIds.Keys);
    hide Chosen, Making;
    forall item | item in items && Takes(item, NodeKind, selected, {})
      ensures item.id in st.tempIds.Keys
    {
      assert WellNamed(item);
      if item.id !in env.applied { assert item in nodes; }
    }
    hide FirstRun;
    if nodes2 != [] { var item := SomeMember(nodes2); }
  }

  /** Existing nodes that items mention are there for the second run exactly when they were for the first. */
  lemma MentionedUnchanged(env: Env, items: seq<Item>, selected: set<string>, st: Progress, id: NodeId)
    requires FirstRun(env, items, selected, st) && !Unmentioned(items, id)
    ensures id in NodesAfter(env, st) <==> id in env.nodes
  {
    NodesAfterKeys(env, st);
    hide NodesAfter, Chosen, Making, Unmentioned;
  }

  /** The ids in the guard map, by kind of item. */
  lemma GuardedIds(env: Env, items: seq<Item>, selected: set<string>, st: Progress)
    requires WellFormed(items) && FirstRun(env, items, selected, st)
    ensures var known := Known(env.applied.Keys, Chosen(items, NodeKind, selected, env.applied.Keys));
      && (forall t :: NodeRef(Temp(t)) ==> (t in st.tempIds <==> t in known))
      && (forall item :: item in items && (item.Enrich? || item.Conflict?) ==>
            (item.id in st.tempIds <==> item.id in env.applied))
      && env.applied.Keys <= st.tempIds.Keys
  {
    var nodes, edges := Chosen(items, NodeKind, selected, env.applied.Keys), Chosen(items, EdgeKind, selected, env.applied.Keys);
    var known := Known(env.applied.Keys, nodes);
    MakingMembers(env, known, edges);
    forall t | t in IdsOf(Making(env, known, edges))
      ensures t != "" && t[0] == 'e'
    {
      var item :| item in Making(env, known, edges) && item.id == t;
      assert item in edges;
      assert WellNamed(item);
    }
    forall t | t in known && t !in env.applied
      ensures t != "" && t[0] == 'n'
    {
      var item :| item in nodes && item.NewNode? && item.node.tempId == t;
      assert WellNamed(item);
    }
    hide Chosen, Making, Known, IdsOf;
    forall item | item in items && (item.Enrich? || item.Conflict?)
      ensures item.id in st.tempIds <==> item.id in env.applied
    {
      assert WellNamed(item);
    }
  }

  lemma NoEdgeAgain(env: Env, items: seq<Item>, selected: set<string>, st: Progress, newId: nat -> NodeId, item: Item)
    requires WellFormed(items) && FirstRun(env, items, selected, st)
    requires item in Chosen(items, EdgeKind, selected, env.applied.Keys)
    ensures !FateOf(Again(env, st, newId), st.tempIds.Keys, item).Creates?
  {
    var nodes, edges := Chosen(items, NodeKind, selected, env.applied.Keys), Chosen(items, EdgeKind, selected, env.applied.Keys);
    var known := Known(env.applied.Keys, nodes);
    GuardedIds(env, items, selected, st);
    MakingMembers(env, known, edges);
    assert item in items && WellNamed(item) && EdgeRefsNodes(item);
    RefUnchanged(env, items, selected, st, newId, item, item.edge.fromRef);
    RefUnchanged(env, items, selected, st, newId, item, item.edge.toRef);
    hide Chosen, Making, Known, NodesAfter, WellFormed, RefMet;
    assert FateOf(env, known, item).Creates? ==> item.id in st.tempIds;
  }

  lemma RefUnchanged(env: Env, items: seq<Item>, selected: set<string>, st: Progress, newId: nat -> NodeId,
                     item: Item, ref: Ref)
    requires WellFormed(items) && FirstRun(env, items, selected, st)
    requires item in items && item.NewEdge? && (ref == item.edge.fromRef || ref == item.edge.toRef)
    ensures RefMet(Again(env, st, newId), st.tempIds.Keys, ref) <==>
      RefMet(env, Known(env.applied.Keys, Chosen(items, NodeKind, selected, env.applied.Keys)), ref)
  {
    assert EdgeRefsNodes(item);
    if ref.Existing? {
      assert !Unmentioned(items, ref.nodeId);
      MentionedUnchanged(env, items, selected, st, ref.nodeId);
    } else {
      GuardedIds(env, items, selected, st);
    }
    hide Chosen, Known, NodesAfter, Making, Unmentioned;
  }

  lemma SameFateAgain(env: Env, items: seq<Item>, selected: set<string>, st: Progress, newId: nat -> NodeId, item: Item)
    requires WellFormed(items) && FirstRun(env, items, selected, st)
    requires item in items && (item.Enrich? || item.Conflict?)
    ensures FateOf(Again(env, st, newId), st.tempIds.Keys, item)
            == FateOf(env, Known(env.applied.Keys, Chosen(items, NodeKind, selected, env.applied.Keys)), item)
  {
    GuardedIds(env, items, selected, st);
    assert !Unmentioned(items, item.target);
    MentionedUnchanged(env, items, selected, st, item.target);
    hide Chosen, Known, NodesAfter, Making, Unmentioned, RefMet, WellFormed, FirstRun;
  }

  lemma {:induction false} NothingMade(env: Env, known: set<string>, work: seq<Item>)
    requires forall item :: item in work ==> !FateOf(env, known, item).Creates?
    ensures Making(env, known, work) == []
  {
    MakingMembers(env, known, work);
    hide FateOf;
    if Making(env, known, work) != [] { var item := SomeMember(Making(env, known, work)); }
  }

  lemma {:induction false} TouchedAgrees(a: Env, b: Env, known: set<string>, known2: set<string>, work: seq<Item>)
    requires LaterWork(work) && forall item :: item in work ==> FateOf(a, known, item) == FateOf(b, known2, item)
    ensures Touched(a, known, work) == Touched(b, known2, work)
  {
    if work != [] {
      assert work[|work| - 1] in work;
      TouchedAgrees(a, b, known, known2, work[..|work| - 1]);
      hide FateOf;
    }
  }

  lemma IsFirstRun(env: Env, items: seq<Item>, selected: set<string>)
    requires WellFormed(items)
    requires forall k: nat :: k < |Collected(env, items, selected).newNodes| ==> Unmentioned(items, env.newId(k))
    ensures FirstRun(env, items, selected, Collected(env, items, selected))
  {
    CollectedTracks(env, items, selected);
    EveryItemIsAccountedFor(env, items, selected);
    NewIdsInOrder(env, items, selected);
    hide Collected, Unmentioned, Chosen, Known, Making, Fold, Later, WellFormed, Report, Touched, NodesMade, EdgesMade,
         AgreeOnNodes, LaterWork, IdsOf, Tracks;
  }

  /** Applying the same proposal again, to the board it made and with the id map it returned, creates no node and
    * no edge, and patches the same nodes once more.
    */
  lemma ReapplyCreatesNothing(env: Env, items: seq<Item>, selected: set<string>, newId: nat -> NodeId)
    requires WellFormed(items)
    requires forall k: nat :: k < |Collected(env, items, selected).newNodes| ==> Unmentioned(items, env.newId(k))
    ensures Tracks(env, Collected(env, items, selected))
    ensures var st := Collected(env, items, selected);
      var st2 := Collected(Again(env, st, newId), items, selected);
      && st2.newNodes == [] && st2.newEdges == []
      && st2.patched == st.patched
      && st2.tempIds.Keys == st.tempIds.Keys
  {
    IsFirstRun(env, items, selected);
    SecondRun(env, items, selected, Collected(env, items, selected), newId);
    EveryItemIsAccountedFor(env, items, selected);
    hide Collected, Unmentioned, Chosen, Making, Fold, WellFormed, Report, Touched, NodesMade, EdgesMade,
         AgreeOnNodes, IdsOf, Known, Later, LaterWork;
  }

  lemma SecondRun(env: Env, items: seq<Item>, selected: set<string>, st: Progress, newId: nat -> NodeId)
    requires WellFormed(items) && FirstRun(env, items, selected, st)
    ensures LaterWork(Later(items, selected, env.applied.Keys))
    ensures var known := Known(env.applied.Keys, Chosen(items, NodeKind, selected, env.applied.Keys));
      var st2 := Collected(Again(env, st, newId), items, selected);
      && st2.newNodes == [] && st2.newEdges == []
      && st2.patched == Touched(env, known, Later(items, selected, env.applied.Keys))
      && st2.tempIds.Keys == st.tempIds.Keys
  {
    var env2, applied, applied2 := Again(env, st, newId), env.applied.Keys, st.tempIds.Keys;
    var edges, later := Chosen(items, EdgeKind, selected, applied), Later(items, selected, applied);
    var known := Known(applied, Chosen(items, NodeKind, selected, applied));
    NoNodesAgain(env, items, selected, st);
    assert Known(applied2, []) == applied2;
    ChosenIgnoresApplied(items, EdgeKind, selected, applied, applied2);
    ChosenIgnoresApplied(items, EnrichKind, selected, applied, applied2);
    ChosenIgnoresApplied(items, ConflictKind, selected, applied, applied2);
    ChosenLater(items, selected, applied);
    EveryItemIsAccountedFor(env2, items, selected);
    assert Later(items, selected, applied2) == later;
    forall item | item in edges
      ensures !FateOf(env2, applied2, item).Creates?
    {
      NoEdgeAgain(env, items, selected, st, newId, item);
    }
    NothingMade(env2, applied2, edges);
    forall item | item in later
      ensures FateOf(env, known, item) == FateOf(env2, applied2, item)
    {
      SameFateAgain(env, items, selected, st, newId, item);
    }
    TouchedAgrees(env, env2, known, applied2, later);
    assert IdsOf([]) == {};
    hide Collected, Unmentioned, Chosen, Making, Fold, WellFormed, Report, Touched, Known, FirstRun, Later, LaterWork, FateOf;
  }

  /** No item that takes part writes to an existing node. */
  ghost predicate WritesNoField(env: Env, items: seq<Item>, selected: set<string>) {
    forall item :: item in items && item.id in selected && item.id !in env.applied && (item.Enrich? || item.Conflict?) ==>
      item.target !in env.nodes || (item.Conflict? && ResolutionOf(env, item).Keep?)
  }

  lemma {:induction false} TouchesNone(env: Env, known: set<string>, work: seq<Item>)
    requires LaterWork(work)
    ensures Touched(env, known, work) == [] <==> forall item :: item in work ==> !FateOf(env, known, item).Patches?
  {
    var ids := Touched(env, known, work);
    assert forall item :: item in work && FateOf(env, known, item).Patches? ==> item.target in ids;
    hide FateOf;
    if ids != [] { var id := SomeId(ids); }
  }

  predicate WritesTo(env: Env, item: Item)
    requires item.Enrich? || item.Conflict?
  {
    item.id !in env.applied && item.target in env.nodes && !(item.Conflict? && ResolutionOf(env, item).Keep?)
  }

  lemma PatchesExactlyWhen(env: Env, known: set<string>, item: Item)
    requires item.Enrich? || item.Conflict?
    ensures FateOf(env, known, item).Patches? <==> WritesTo(env, item)
  {
    hide ResolutionOf;
  }

  lemma TouchesNothingExactlyWhen(env: Env, items: seq<Item>, selected: set<string>, known: set<string>)
    requires LaterWork(Later(items, selected, env.applied.Keys))
    ensures Touched(env, known, Later(items, selected, env.applied.Keys)) == [] <==> WritesNoField(env, items, selected)
  {
    hide Later, ResolutionOf, Touched, FateOf;
    var later := Later(items, selected, env.applied.Keys);
    TouchesNone(env, known, later);
    LaterMembers(items, selected, env.applied.Keys);
    forall item | item in later
      ensures FateOf(env, known, item).Patches? <==> WritesTo(env, item)
    {
      PatchesExactlyWhen(env, known, item);
    }
  }

  lemma LaterMembers(items: seq<Item>, selected: set<string>, applied: set<string>)
    ensures forall item :: item in Later(items, selected, applied) <==>
      item in items && item.id in selected && (item.Enrich? || item.Conflict?)
  {
    hide Chosen;
  }

  lemma SomeId(ids: seq<NodeId>) returns (id: NodeId)
    requires ids != []
    ensures id in ids
  {
    id := ids[0];
  }

  lemma PatchesShow(nodes: map<NodeId, BoardNode>, patched: seq<NodeId>, patches: map<NodeId, Data>)
    requires forall id :: id in patched ==> id in patches && id in nodes
    requires forall i, j :: 0 <= i < j < |patched| ==> patched[i] != patched[j]
    ensures WithPatches(nodes, patched, patches) == nodes <==> patched == []
  {
    if patched != [] {
      assert patched[0] in patched;
      WithPatchesAt(nodes, patched, patches, patched[0]);
    }
  }

  /** The guard map does not record enrichments and conflicts, so applying again is a no-op exactly when the first
    * application wrote to no existing node.
    */
  lemma ReapplyIsNoOpExactlyWhen(env: Env, items: seq<Item>, selected: set<string>, newId: nat -> NodeId)
    requires WellFormed(items)
    requires forall k: nat :: k < |Collected(env, items, selected).newNodes| ==> Unmentioned(items, env.newId(k))
    ensures Tracks(env, Collected(env, items, selected))
    ensures var env2 := Again(env, Collected(env, items, selected), newId);
      && Tracks(env2, Collected(env2, items, selected))
      && (NodesAfter(env2, Collected(env2, items, selected)) == env2.nodes <==> WritesNoField(env, items, selected))
  {
    var st := Collected(env, items, selected);
    ReapplyCreatesNothing(env, items, selected, newId);
    var env2 := Again(env, st, newId);
    CollectedTracks(env2, items, selected);
    PatchesShow(env2.nodes, st.patched, Collected(env2, items, selected).patches);
    EveryItemIsAccountedFor(env, items, selected);
    TouchesNothingExactlyWhen(env, items, selected,
                              Known(env.applied.Keys, Chosen(items, NodeKind, selected, env.applied.Keys)));
    hide Collected, Unmentioned, Chosen, Making, Fold, WellFormed, Report, Touched, NodesMade, EdgesMade,
         AgreeOnNodes, IdsOf, Known, Later, LaterWork, WritesNoField;
  }

  // ---------------------------------------------------------------- the fields of a patched node

  ghost predicate SameField(a: Data, b: Data, field: string) {
    (field in a <==> field in b) && (field in a ==> a[field] == b[field])
  }

  /** The item writes this field of this node. */
  ghost predicate Writes(item: Item, target: NodeId, field: string) {
    || (item.Enrich? && item.target == target && exists patch :: patch in item.patches && FieldName(patch.path) == field)
    || (item.Conflict? && item.target == target && item.field == field)
  }

  lemma {:induction false} PatchesKeepField(data: Data, patches: seq<FieldPatch>, field: string)
    requires forall patch :: patch in patches ==> FieldName(patch.path) != field
    ensures SameField(ApplyPatches(data, patches), data, field)
  {
    if patches != [] {
      assert patches[|patches| - 1] in patches;
      PatchesKeepField(data, patches[..|patches| - 1], field);
      hide FieldName, AsList;
    }
  }

  lemma StepKeepsField(env: Env, st: Progress, item: Item, target: NodeId, field: string)
    requires target in env.nodes && field != PROVENANCE && !Writes(item, target, field)
    ensures SameField(DataOf(env, Step(env, st, item), target), DataOf(env, st, target), field)
  {
    hide AppendProvenance, ApplyPatches, AsList, Resolve, MakeNode, FieldName;
    if item.Enrich? {
      EnrichKeepsField(env, st, item, target, field);
    } else if item.Conflict? {
      ConflictKeepsField(env, st, item, target, field);
    }
  }

  /** Writing the provenance of a node leaves its other fields as they are in the data written. */
  lemma PatchedField(env: Env, st: Progress, target: NodeId, data: Data, p: Provenance, field: string)
    requires target in env.nodes && field != PROVENANCE
    ensures SameField(DataOf(env, Patch(st, target, data, p), target), data, field)
    ensures forall other :: other in env.nodes && other != target ==>
      DataOf(env, Patch(st, target, data, p), other) == DataOf(env, st, other)
  {
    hide AppendProvenance;
  }

  lemma SkippedData(env: Env, st: Progress, target: NodeId, skip: Skip)
    requires target in env.nodes
    ensures DataOf(env, st.(skipped := st.skipped + [skip]), target) == DataOf(env, st, target)
  {
  }

  lemma EnrichKeepsField(env: Env, st: Progress, item: Item, target: NodeId, field: string)
    requires item.Enrich? && target in env.nodes && field != PROVENANCE && !Writes(item, target, field)
    ensures SameField(DataOf(env, EnrichNode(env, st, item), target), DataOf(env, st, target), field)
  {
    hide ApplyPatches, FieldName, Patch, DataOf;
    SkippedData(env, st, target, Skip(item.id, TargetMissing));
    if item.id !in env.applied && item.target in env.nodes {
      PatchedField(env, st, item.target, ApplyPatches(DataOf(env, st, item.target), item.patches), item.source, field);
      if item.target == target { PatchesKeepField(DataOf(env, st, target), item.patches, field); }
    }
  }

  lemma ConflictKeepsField(env: Env, st: Progress, item: Item, target: NodeId, field: string)
    requires item.Conflict? && target in env.nodes && field != PROVENANCE && !Writes(item, target, field)
    ensures SameField(DataOf(env, SettleConflict(env, st, item), target), DataOf(env, st, target), field)
  {
    hide ApplyPatch, Patch, DataOf, Settled;
    SkippedData(env, st, target, Skip(item.id, TargetMissing));
    SkippedData(env, st, target, Skip(item.id, KeptExisting));
    if item.id !in env.applied && item.target in env.nodes && !ResolutionOf(env, item).Keep? {
      var data := Settled(DataOf(env, st, item.target), item, ResolutionOf(env, item));
      PatchedField(env, st, item.target, data, item.source, field);
      if item.target == target { SettledKeepsField(DataOf(env, st, target), item, ResolutionOf(env, item), field); }
    }
  }

  lemma SettledKeepsField(data: Data, item: Item, resolution: Resolution, field: string)
    requires item.Conflict? && item.field != field
    ensures SameField(Settled(data, item, resolution), data, field)
  {
    assert ("/" + item.field)[1..] == item.field;
    hide AsList;
  }

  lemma {:induction false} FoldKeepsField(env: Env, st: Progress, work: seq<Item>, target: NodeId, field: string)
    requires target in env.nodes && field != PROVENANCE && forall item :: item in work ==> !Writes(item, target, field)
    ensures SameField(DataOf(env, Fold(env, st, work), target), DataOf(env, st, target), field)
  {
    if work != [] {
      assert work[|work| - 1] in work;
      FoldKeepsField(env, st, work[..|work| - 1], target, field);
      StepKeepsField(env, Fold(env, st, work[..|work| - 1]), work[|work| - 1], target, field);
      hide Step, Writes, DataOf;
    }
  }

  /** On a patched node, the fields no selected item names keep their values; only the provenance grows. */
  lemma OnlyNamedFieldsChange(env: Env, items: seq<Item>, selected: set<string>, target: NodeId, field: string)
    requires target in env.nodes && field != PROVENANCE
    requires forall item :: item in items && item.id in selected ==> !Writes(item, target, field)
    ensures var st := Collected(env, items, selected);
      target in st.patches ==> SameField(st.patches[target], env.nodes[target].data, field)
  {
    var applied := env.applied.Keys;
    var nodes, edges := Chosen(items, NodeKind, selected, applied), Chosen(items, EdgeKind, selected, applied);
    var later := Later(items, selected, applied);
    var st0 := Fold(env, Start(env.applied), nodes);
    var st1 := Fold(env, st0, edges);
    FoldKeepsField(env, Start(env.applied), nodes, target, field);
    FoldKeepsField(env, st0, edges, target, field);
    FoldKeepsField(env, st1, later, target, field);
    hide Writes, Fold, Chosen, Later;
  }

  lemma {:induction false} FoldSplits(env: Env, st: Progress, a: seq<Item>, b: seq<Item>)
    ensures Fold(env, st, a + b) == Fold(env, Fold(env, st, a), b)
  {
    if b == [] {
      assert a + b == a;
    } else {
      FoldSplits(env, st, a, b[..|b| - 1]);
      assert (a + b)[..|a + b| - 1] == a + b[..|b| - 1];
      hide Step;
    }
  }

  lemma {:induction false} PatchesGrow(env: Env, st: Progress, work: seq<Item>, target: NodeId)
    requires target in st.patches
    ensures target in Fold(env, st, work).patches
  {
    if work != [] {
      PatchesGrow(env, st, work[..|work| - 1], target);
      hide ApplyPatches, Settled, AppendProvenance, Resolve, MakeNode, ResolutionOf;
    }
  }

  /** The state in which the last two passes start, and the states around one of their items. */
  lemma AroundItem(env: Env, items: seq<Item>, selected: set<string>, before: seq<Item>, item: Item, after: seq<Item>)
    returns (st: Progress)
    requires Later(items, selected, env.applied.Keys) == before + [item] + after
    ensures Collected(env, items, selected) == Fold(env, Step(env, st, item), after)
  {
    var known := env.applied.Keys;
    var start := Fold(env, Fold(env, Start(env.applied), Chosen(items, NodeKind, selected, known)),
                      Chosen(items, EdgeKind, selected, known));
    st := Fold(env, start, before);
    FoldSplits(env, start, before + [item], after);
    FoldSplits(env, start, before, [item]);
    assert Fold(env, st, [item]) == Step(env, st, item) by { assert [item][..0] == []; }
    hide Fold, Step, Chosen, Later;
  }

  /** A field that no later item writes keeps, to the end, what an item left in it. */
  lemma LastWriteStays(env: Env, items: seq<Item>, selected: set<string>, before: seq<Item>, item: Item,
                       after: seq<Item>, field: string) returns (st: Progress)
    requires Later(items, selected, env.applied.Keys) == before + [item] + after
    requires (item.Enrich? || item.Conflict?) && FateOf(env, {}, item).Patches? && field != PROVENANCE
    requires forall x :: x in after ==> !Writes(x, item.target, field)
    ensures item.target in Collected(env, items, selected).patches && item.target in Step(env, st, item).patches
    ensures SameField(Collected(env, items, selected).patches[item.target], Step(env, st, item).patches[item.target], field)
  {
    st := AroundItem(env, items, selected, before, item, after);
    var st' := Step(env, st, item);
    assert item.target in st'.patches;
    hide Collected, Step, Later, Writes, FateOf;
    PatchesGrow(env, st', after, item.target);
    PatchesKeepTarget(env, st', after, item.target, field);
  }

  lemma PatchesKeepTarget(env: Env, st: Progress, work: seq<Item>, target: NodeId, field: string)
    requires target in env.nodes && target in st.patches && target in Fold(env, st, work).patches && field != PROVENANCE
    requires forall item :: item in work ==> !Writes(item, target, field)
    ensures SameField(Fold(env, st, work).patches[target], st.patches[target], field)
  {
    FoldKeepsField(env, st, work, target, field);
    hide Fold, Writes;
  }

  /** A selected conflict that is resolved by replacing ends with the incoming value in its field; one that keeps both
    * ends with the incoming value in the list; unless a later item writes the field again.
    */
  lemma LastConflictWins(env: Env, items: seq<Item>, selected: set<string>, before: seq<Item>, item: Item, after: seq<Item>)
    requires Later(items, selected, env.applied.Keys) == before + [item] + after
    requires item.Conflict? && FateOf(env, {}, item).Patches? && item.field != PROVENANCE
    requires forall x :: x in after ==> !Writes(x, item.target, item.field)
    ensures item.target in Collected(env, items, selected).patches
    ensures var data := Collected(env, items, selected).patches[item.target];
      && item.field in data
      && (ResolutionOf(env, item).Replace? ==> data[item.field] == item.incoming)
      && (ResolutionOf(env, item).KeepBoth? ==> item.incoming in AsList(data, item.field))
  {
    var st := LastWriteStays(env, items, selected, before, item, after, item.field);
    hide Collected, Later, Writes, AsList;
    var was := DataOf(env, st, item.target);
    SettledMeaning(was, item, ResolutionOf(env, item));
    hide Settled, DataOf, AppendProvenance;
    SameList(Collected(env, items, selected).patches[item.target], Step(env, st, item).patches[item.target], item.field);
    SameList(Step(env, st, item).patches[item.target], Settled(was, item, ResolutionOf(env, item)), item.field);
  }

  lemma SameList(a: Data, b: Data, field: string)
    requires SameField(a, b, field)
    ensures AsList(a, field) == AsList(b, field)
  {
  }

  lemma SettledMeaning(data: Data, item: Item, resolution: Resolution)
    requires item.Conflict? && !resolution.Keep?
    ensures var r := Settled(data, item, resolution);
      && item.field in r
      && (resolution.Replace? ==> r[item.field] == item.incoming)
      && (resolution.KeepBoth? ==> item.incoming in AsList(r, item.field))
  {
    PatchMeaning(data, FieldPatch("/" + item.field, AddToSet, item.incoming));
    assert ("/" + item.field)[1..] == item.field;
  }

  // ---------------------------------------------------------------- a whole import

  lemma OnlyProposedEdges(entities: seq<Entity>, relations: seq<Relation>, ctx: Context, env: Env, selected: set<string>)
    requires var edges := Related(relations, ByKey(Mapped(entities, ctx)), ctx);
      forall e :: e in edges ==>
        (e.fromRef.Existing? ==> e.fromRef.nodeId in env.nodes) && (e.toRef.Existing? ==> e.toRef.nodeId in env.nodes)
    ensures var nodes := Mapped(entities, ctx);
      ExistingPresent(env, BuiltItems(entities, nodes, Related(relations, ByKey(nodes), ctx), ctx), selected)
  {
    var nodes := Mapped(entities, ctx);
    var edges := Related(relations, ByKey(nodes), ctx);
    var items := BuiltItems(entities, nodes, edges, ctx);
    hide BuiltItems, Mapped, Related, ByKey;
    forall item | item in items && item.NewEdge?
      ensures item.edge in edges
    {
      EdgeItemsAreEdges(entities, nodes, edges, ctx, item);
    }
  }

  /** From extraction to board: whatever was extracted, applying the default selection for the first time, while the
    * existing nodes it refers to are present, creates every selected edge, and each one joins two nodes of the
    * resulting board.
    */
  lemma DefaultImportIsComplete(entities: seq<Entity>, relations: seq<Relation>, ctx: Context, env: Env)
    requires env.applied == map[]
    requires TickTogether(Related(relations, ByKey(Mapped(entities, ctx)), ctx), Ticked(NodeItems(Mapped(entities, ctx))))
    requires forall e :: e in Related(relations, ByKey(Mapped(entities, ctx)), ctx) ==>
      (e.fromRef.Existing? ==> e.fromRef.nodeId in env.nodes) && (e.toRef.Existing? ==> e.toRef.nodeId in env.nodes)
    ensures var nodes := Mapped(entities, ctx);
      var items := BuiltItems(entities, nodes, Related(relations, ByKey(nodes), ctx), ctx);
      var selected := AsSet(DefaultSelection(items));
      var st := Collected(env, items, selected);
      && |st.newNodes| == |Chosen(items, NodeKind, selected, {})|
      && |st.newEdges| == |Chosen(items, EdgeKind, selected, {})|
      && Tracks(env, st)
      && forall k: nat :: k < |st.newEdges| ==>
           st.newEdges[k].edge.source in NodesAfter(env, st) && st.newEdges[k].edge.target in NodesAfter(env, st)
  {
    var nodes := Mapped(entities, ctx);
    var edges := Related(relations, ByKey(nodes), ctx);
    var items := BuiltItems(entities, nodes, edges, ctx);
    var selected := AsSet(DefaultSelection(items));
    BuiltIsWellFormed(entities, relations, ctx);
    TickedTogetherIsClosed(entities, nodes, edges, ctx);
    OnlyProposedEdges(entities, relations, ctx, env, selected);
    assert env.applied.Keys == {};
    ImportIsComplete(env, items, selected);
  }

  lemma ImportIsComplete(env: Env, items: seq<Item>, selected: set<string>)
    requires WellFormed(items) && DependencyClosed(items, selected) && ExistingPresent(env, items, selected)
    requires env.applied == map[]
    ensures var st := Collected(env, items, selected);
      && |st.newNodes| == |Chosen(items, NodeKind, selected, {})|
      && |st.newEdges| == |Chosen(items, EdgeKind, selected, {})|
      && Tracks(env, st)
      && forall k: nat :: k < |st.newEdges| ==>
           st.newEdges[k].edge.source in NodesAfter(env, st) && st.newEdges[k].edge.target in NodesAfter(env, st)
  {
    assert env.applied.Keys == {};
    ClosedSelectionSkipsNoEdge(env, items, selected);
    CreatedEdgesJoinNodes(env, items, selected);
    EveryItemIsAccountedFor(env, items, selected);
    NoneDone(env, Known({}, Chosen(items, NodeKind, selected, {})), Chosen(items, EdgeKind, selected, {}));
    hide Collected, Chosen, Making, Fold, WellFormed, Report, Touched, EdgesMade, AgreeOnNodes, IdsOf, Known, Later,
         LaterWork, DependencyClosed, ExistingPresent, CountDone, NodesAfter;
  }

  lemma {:induction false} NoneDone(env: Env, known: set<string>, work: seq<Item>)
    requires env.applied == map[]
    ensures CountDone(env, known, work) == 0
  {
    if work != [] { NoneDone(env, known, work[..|work| - 1]); }
  }
}
