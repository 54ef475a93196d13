/** Stage 8 of an import: the selected items of a proposal are written to the board, and every item that is
  * not written is reported.
  */
module Applier {
  import opened Options
  import opened Proposals

  type Data = map<string, Value>

  datatype BoardNode = BoardNode(nodeType: string, title: string, data: Data, version: nat)
  datatype BoardEdge = BoardEdge(source: NodeId, target: NodeId, edgeType: string)

  datatype Reason = TargetMissing | KeptExisting
  datatype Skip = Skip(itemId: string, reason: Reason)

  datatype CreatedNode = CreatedNode(id: NodeId, node: BoardNode)
  datatype CreatedEdge = CreatedEdge(id: NodeId, edge: BoardEdge)

  /** What one application reads: the board's nodes, the items applied before, the user's resolutions, and the
    * supply of ids, of which `newId(k)` is the answer to the k-th request.
    */
  datatype Env = Env(nodes: map<NodeId, BoardNode>, applied: map<string, NodeId>,
                     resolutions: map<string, Resolution>, newId: nat -> NodeId)

  /** Everything collected before the transaction. `patched` lists the keys of `patches` as first set. */
  datatype Progress = Progress(newNodes: seq<CreatedNode>, newEdges: seq<CreatedEdge>, skipped: seq<Skip>,
                               tempIds: map<string, NodeId>, patched: seq<NodeId>, patches: map<NodeId, Data>)

  datatype Outcome = Outcome(createdNodeIds: seq<NodeId>, createdEdgeIds: seq<NodeId>, patchedNodeIds: seq<NodeId>,
                             skipped: seq<Skip>, tempIds: map<string, NodeId>, labelCount: nat)

  datatype Failure = ProposalExpired | ProvenanceMissing(itemId: string)
  datatype Result = Applied(outcome: Outcome) | Refused(failure: Failure)

  const IDENTITY := "__identityKey"
  const PROVENANCE := "__provenance"
  const PROVENANCE_CAP := 50

  // ---------------------------------------------------------------- field data

  function PropMap(props: seq<Prop>): Data {
    if props == [] then map[]
    else PropMap(props[..|props| - 1])[props[|props| - 1].name := props[|props| - 1].value]
  }

  function MakeNode(n: ProposedNode): BoardNode {
    var data := PropMap(n.props)[IDENTITY := Atom(n.identityKey)][PROVENANCE := List([Origin(n.provenance)])];
    BoardNode(n.nodeType, n.title, data, 1)
  }

  /** A patch path without the slash it may begin with. */
  function FieldName(path: string): string {
    if path != "" && path[0] == '/' then path[1..] else path
  }

  /** A list as it is, nothing as the empty list, and any other value as a list of itself. */
  function AsList(data: Data, field: string): seq<Value> {
    if field !in data || data[field].Nothing? then []
    else if data[field].List? then data[field].items
    else [data[field]]
  }

  function ApplyPatch(data: Data, patch: FieldPatch): Data {
    var field := FieldName(patch.path);
    if patch.op.Set? then data[field := patch.value]
    else
      var list := AsList(data, field);
      if patch.op.AddToSet? && patch.value in list then data
      else data[field := List(list + [patch.value])]
  }

  function ApplyPatches(data: Data, patches: seq<FieldPatch>): Data {
    if patches == [] then data
    else ApplyPatch(ApplyPatches(data, patches[..|patches| - 1]), patches[|patches| - 1])
  }

  function AppendProvenance(data: Data, p: Provenance): seq<Value> {
    var existing := if PROVENANCE in data && data[PROVENANCE].List? then data[PROVENANCE].items else [];
    var list := existing + [Origin(p)];
    if |list| > PROVENANCE_CAP then
      var dropped := |list| - PROVENANCE_CAP;
      [Collapsed(dropped)] + list[dropped..]
    else list
  }

  /** The history before an application: what the node has noted, if that is a list. */
  function HistoryOf(data: Data): seq<Value> {
    if PROVENANCE in data && data[PROVENANCE].List? then data[PROVENANCE].items else []
  }

  /** Below fifty entries the new entry is added to those there are. From fifty on the last forty-nine stay, behind
    * the number of those that went, which makes one entry more than the cap.
    */
  lemma ProvenanceIsKept(data: Data, p: Provenance)
    ensures var was, list := HistoryOf(data), AppendProvenance(data, p);
      && (|was| < 50 ==> list == was + [Origin(p)])
      && (|was| >= 50 ==> list == [Collapsed(|was| - 49)] + was[|was| - 49..] + [Origin(p)] && |list| == 51)
  {
    var was := HistoryOf(data);
    if |was| >= 50 {
      assert (was + [Origin(p)])[|was| - 49..] == was[|was| - 49..] + [Origin(p)];
    }
  }

  /** What a patch does to its field: `set` writes the value, the others leave a list that extends the old one and holds
    * the value, `addToSet` without a second copy and without effect the second time. Other fields stay.
    */
  lemma PatchMeaning(data: Data, patch: FieldPatch)
    ensures var field, r := FieldName(patch.path), ApplyPatch(data, patch);
      && (patch.op.Set? ==> field in r && r[field] == patch.value)
      && (!patch.op.Set? ==> AsList(data, field) <= AsList(r, field) && patch.value in AsList(r, field))
      && (patch.op.Append? ==> |AsList(r, field)| == |AsList(data, field)| + 1)
      && (patch.op.AddToSet? ==> (patch.value in AsList(data, field) <==> r == data) && ApplyPatch(r, patch) == r)
      && r - {field} == data - {field}
  {
    var field, r := FieldName(patch.path), ApplyPatch(data, patch);
    hide FieldName;
    if !patch.op.Set? && r != data {
      var list := AsList(data, field);
      assert AsList(r, field) == list + [patch.value];
      assert (list + [patch.value])[|list|] == patch.value;
    }
    assert r - {field} == data - {field};
    if patch.op.AddToSet? && patch.value !in AsList(data, field) {
      assert |AsList(r, field)| == |AsList(data, field)| + 1;
    }
  }

  ghost predicate DistinctNames(props: seq<Prop>) {
    forall i, j :: 0 <= i < j < |props| ==> props[i].name != props[j].name
  }

  lemma {:induction false} PropMapHolds(props: seq<Prop>, k: nat)
    requires DistinctNames(props) && k < |props|
    ensures props[k].name in PropMap(props) && PropMap(props)[props[k].name] == props[k].value
  {
    if k < |props| - 1 {
      assert props[k].name != props[|props| - 1].name;
      PropMapHolds(props[..|props| - 1], k);
    }
  }

  lemma {:induction false} PropMapKeys(props: seq<Prop>)
    ensures PropMap(props).Keys == set p | p in props :: p.name
  {
    if props != [] {
      var front, p := props[..|props| - 1], props[|props| - 1];
      PropMapKeys(front);
      assert props == front + [p];
    }
  }

  /** A created node carries what was proposed: type, title, every field and no other, its identity, and one
    * provenance entry.
    */
  lemma CreatedNodeMeaning(n: ProposedNode, k: nat)
    requires DistinctNames(n.props) && k < |n.props|
    requires n.props[k].name != IDENTITY && n.props[k].name != PROVENANCE
    ensures var node := MakeNode(n);
      && node.nodeType == n.nodeType && node.title == n.title && node.version == 1
      && n.props[k].name in node.data && node.data[n.props[k].name] == n.props[k].value
      && IDENTITY in node.data && node.data[IDENTITY] == Atom(n.identityKey)
      && PROVENANCE in node.data && node.data[PROVENANCE] == List([Origin(n.provenance)])
      && node.data.Keys == (set p | p in n.props :: p.name) + {IDENTITY, PROVENANCE}
  {
    PropMapHolds(n.props, k);
    PropMapKeys(n.props);
    assert IDENTITY[2] != PROVENANCE[2];
  }

  // ---------------------------------------------------------------- the four passes

  /** `resolveRef` */
  function Resolve(ref: Ref, tempIds: map<string, NodeId>, nodes: map<NodeId, BoardNode>): Option<NodeId> {
    match ref
    case Existing(nodeId) => if nodeId in nodes then Some(nodeId) else None
    case Temp(tempId) => if tempId in tempIds then Some(tempIds[tempId]) else None
  }

  function Calls(st: Progress): nat {
    |st.newNodes| + |st.newEdges|
  }

  function AddNode(env: Env, st: Progress, item: Item): Progress
    requires item.NewNode?
  {
    var id := env.newId(Calls(st));
    st.(tempIds := st.tempIds[item.node.tempId := id], newNodes := st.newNodes + [CreatedNode(id, MakeNode(item.node))])
  }

  function AddEdge(env: Env, st: Progress, item: Item): Progress
    requires item.NewEdge?
  {
    var source, target := Resolve(item.edge.fromRef, st.tempIds, env.nodes), Resolve(item.edge.toRef, st.tempIds, env.nodes);
    if item.id in env.applied then st
    else if source.None? || target.None? then st.(skipped := st.skipped + [Skip(item.id, TargetMissing)])
    else
      var id := env.newId(Calls(st));
      var edge := BoardEdge(source.value, target.value, item.edge.edgeType);
      st.(tempIds := st.tempIds[item.edge.tempId := id], newEdges := st.newEdges + [CreatedEdge(id, edge)])
  }

  /** The data patched so far, or else the data on the board. */
  function DataOf(env: Env, st: Progress, target: NodeId): Data
    requires target in env.nodes
  {
    if target in st.patches then st.patches[target] else env.nodes[target].data
  }

  function Patch(st: Progress, target: NodeId, data: Data, p: Provenance): Progress {
    st.(patched := if target in st.patches then st.patched else st.patched + [target],
        patches := st.patches[target := data[PROVENANCE := List(AppendProvenance(data, p))]])
  }

  function EnrichNode(env: Env, st: Progress, item: Item): Progress
    requires item.Enrich?
  {
    if item.id in env.applied then st
    else if item.target !in env.nodes then st.(skipped := st.skipped + [Skip(item.id, TargetMissing)])
    else Patch(st, item.target, ApplyPatches(DataOf(env, st, item.target), item.patches), item.source)
  }

  function ResolutionOf(env: Env, item: Item): Resolution
    requires item.Conflict?
  {
    if item.id in env.resolutions then env.resolutions[item.id] else item.resolution
  }

  /** The data a conflict item writes: the incoming value alone, or added to what is there. */
  function Settled(data: Data, item: Item, resolution: Resolution): Data
    requires item.Conflict?
  {
    if resolution.Replace? then data[item.field := item.incoming]
    else ApplyPatch(data, FieldPatch("/" + item.field, AddToSet, item.incoming))
  }

  function SettleConflict(env: Env, st: Progress, item: Item): Progress
    requires item.Conflict?
  {
    var resolution := ResolutionOf(env, item);
    if item.id in env.applied then st
    else if item.target !in env.nodes then st.(skipped := st.skipped + [Skip(item.id, TargetMissing)])
    else if resolution.Keep? then st.(skipped := st.skipped + [Skip(item.id, KeptExisting)])
    else Patch(st, item.target, Settled(DataOf(env, st, item.target), item, resolution), item.source)
  }

  function Step(env: Env, st: Progress, item: Item): Progress {
    match item
    case NewNode(_, _, _) => AddNode(env, st, item)
    case NewEdge(_, _, _) => AddEdge(env, st, item)
    case Enrich(_, _, _, _, _) => EnrichNode(env, st, item)
    case Conflict(_, _, _, _, _, _, _) => SettleConflict(env, st, item)
  }

  function Fold(env: Env, st: Progress, work: seq<Item>): Progress {
    if work == [] then st else Step(env, Fold(env, st, work[..|work| - 1]), work[|work| - 1])
  }

  function Start(applied: map<string, NodeId>): Progress {
    Progress([], [], [], applied, [], map[])
  }

  // ---------------------------------------------------------------- which items take part

  datatype Kind = NodeKind | EdgeKind | EnrichKind | ConflictKind

  function KindOf(item: Item): Kind {
    match item
    case NewNode(_, _, _) => NodeKind
    case NewEdge(_, _, _) => EdgeKind
    case Enrich(_, _, _, _, _) => EnrichKind
    case Conflict(_, _, _, _, _, _, _) => ConflictKind
  }

  /** Selected items of one kind; node items applied before do not take part at all. */
  predicate Takes(item: Item, kind: Kind, selected: set<string>, applied: set<string>) {
    KindOf(item) == kind && item.id in selected && (kind.NodeKind? ==> item.id !in applied)
  }

  function Chosen(items: seq<Item>, kind: Kind, selected: set<string>, applied: set<string>): (work: seq<Item>)
    ensures forall item :: item in work <==> item in items && Takes(item, kind, selected, applied)
  {
    if items == [] then []
    else
      var item := items[|items| - 1];
      Chosen(items[..|items| - 1], kind, selected, applied) +
      if Takes(item, kind, selected, applied) then [item] else []
  }

  /** The items in the order they are worked on: nodes, then edges, then enrichments, then conflicts. */
  function Later(items: seq<Item>, selected: set<string>, applied: set<string>): seq<Item> {
    Chosen(items, EnrichKind, selected, applied) + Chosen(items, ConflictKind, selected, applied)
  }

  function Collected(env: Env, items: seq<Item>, selected: set<string>): Progress {
    var known := env.applied.Keys;
    Fold(env,
         Fold(env,
              Fold(env, Start(env.applied), Chosen(items, NodeKind, selected, known)),
              Chosen(items, EdgeKind, selected, known)),
         Later(items, selected, known))
  }

  predicate Unattributed(item: Item) {
    item.NewNode? && (item.node.provenance.tool == "" || item.node.provenance.runId == "")
  }

  // ---------------------------------------------------------------- the transaction

  function WithNodes(nodes: map<NodeId, BoardNode>, created: seq<CreatedNode>): map<NodeId, BoardNode> {
    if created == [] then nodes
    else WithNodes(nodes, created[..|created| - 1])[created[|created| - 1].id := created[|created| - 1].node]
  }

  function WithEdges(edges: map<NodeId, BoardEdge>, created: seq<CreatedEdge>): map<NodeId, BoardEdge> {
    if created == [] then edges
    else WithEdges(edges, created[..|created| - 1])[created[|created| - 1].id := created[|created| - 1].edge]
  }

  /** `updateNode` with new data: only the data and the version of a node that exists change. */
  function WithData(nodes: map<NodeId, BoardNode>, id: NodeId, data: Data): map<NodeId, BoardNode> {
    if id !in nodes then nodes else nodes[id := nodes[id].(data := data, version := nodes[id].version + 1)]
  }

  function WithPatches(nodes: map<NodeId, BoardNode>, patched: seq<NodeId>, patches: map<NodeId, Data>):
    map<NodeId, BoardNode>
    requires forall id :: id in patched ==> id in patches
  {
    if patched == [] then nodes
    else WithData(WithPatches(nodes, patched[..|patched| - 1], patches), patched[|patched| - 1],
                  patches[patched[|patched| - 1]])
  }

  function NodeIds(created: seq<CreatedNode>): (ids: seq<NodeId>)
    ensures |ids| == |created| && forall i :: 0 <= i < |created| ==> ids[i] == created[i].id
  {
    seq(|created|, i requires 0 <= i < |created| => created[i].id)
  }

  function EdgeIds(created: seq<CreatedEdge>): (ids: seq<NodeId>)
    ensures |ids| == |created| && forall i :: 0 <= i < |created| ==> ids[i] == created[i].id
  {
    seq(|created|, i requires 0 <= i < |created| => created[i].id)
  }

  /** `patched` lists the keys of `patches`, each once, all of them on the board. */
  ghost predicate Tracks(env: Env, st: Progress) {
    && (forall id :: id in st.patched <==> id in st.patches)
    && (forall i, j :: 0 <= i < j < |st.patched| ==> st.patched[i] != st.patched[j])
    && (forall id :: id in st.patches ==> id in env.nodes)
  }

  lemma PatchTracks(env: Env, st: Progress, target: NodeId, data: Data, p: Provenance)
    requires Tracks(env, st) && target in env.nodes
    ensures Tracks(env, Patch(st, target, data, p))
  {
    hide AppendProvenance;
    var st' := Patch(st, target, data, p);
    assert target !in st.patches ==> st'.patched == st.patched + [target];
  }

  lemma {:induction false} FoldTracks(env: Env, st: Progress, work: seq<Item>)
    requires Tracks(env, st)
    ensures Tracks(env, Fold(env, st, work))
  {
    if work != [] {
      var before, item := Fold(env, st, work[..|work| - 1]), work[|work| - 1];
      FoldTracks(env, st, work[..|work| - 1]);
      StepTracks(env, before, item);
    }
  }

  lemma StepTracks(env: Env, st: Progress, item: Item)
    requires Tracks(env, st)
    ensures Tracks(env, Step(env, st, item))
  {
    hide ApplyPatches, Settled, Patch, ResolutionOf, DataOf, Resolve, MakeNode, Calls, Tracks;
    match item
    case NewNode(_, _, _) => SamePatchesTrack(env, st, AddNode(env, st, item));
    case NewEdge(_, _, _) => SamePatchesTrack(env, st, AddEdge(env, st, item));
    case Enrich(_, _, _, _, _) => EnrichTracks(env, st, item);
    case Conflict(_, _, _, _, _, _, _) => ConflictTracks(env, st, item);
  }

  lemma SamePatchesTrack(env: Env, st: Progress, st': Progress)
    requires Tracks(env, st) && st'.patched == st.patched && st'.patches == st.patches
    ensures Tracks(env, st')
  {
  }

  lemma EnrichTracks(env: Env, st: Progress, item: Item)
    requires Tracks(env, st) && item.Enrich?
    ensures Tracks(env, EnrichNode(env, st, item))
  {
    hide ApplyPatches, Patch, DataOf, Tracks;
    if item.target in env.nodes {
      PatchTracks(env, st, item.target, ApplyPatches(DataOf(env, st, item.target), item.patches), item.source);
    }
    SamePatchesTrack(env, st, st.(skipped := st.skipped + [Skip(item.id, TargetMissing)]));
  }

  lemma ConflictTracks(env: Env, st: Progress, item: Item)
    requires Tracks(env, st) && item.Conflict?
    ensures Tracks(env, SettleConflict(env, st, item))
  {
    hide Settled, Patch, DataOf, Tracks, ResolutionOf;
    if item.target in env.nodes {
      PatchTracks(env, st, item.target, Settled(DataOf(env, st, item.target), item, ResolutionOf(env, item)), item.source);
    }
    SamePatchesTrack(env, st, st.(skipped := st.skipped + [Skip(item.id, TargetMissing)]));
    SamePatchesTrack(env, st, st.(skipped := st.skipped + [Skip(item.id, KeptExisting)]));
  }

  lemma CollectedTracks(env: Env, items: seq<Item>, selected: set<string>)
    ensures Tracks(env, Collected(env, items, selected))
  {
    var known := env.applied.Keys;
    var nodes, edges := Chosen(items, NodeKind, selected, known), Chosen(items, EdgeKind, selected, known);
    FoldTracks(env, Start(env.applied), nodes);
    FoldTracks(env, Fold(env, Start(env.applied), nodes), edges);
    FoldTracks(env, Fold(env, Fold(env, Start(env.applied), nodes), edges), Later(items, selected, known));
  }

  /** The board's nodes after the transaction. */
  function NodesAfter(env: Env, st: Progress): map<NodeId, BoardNode>
    requires Tracks(env, st)
  {
    WithPatches(WithNodes(env.nodes, st.newNodes), st.patched, st.patches)
  }

  function OutcomeOf(st: Progress): Outcome {
    Outcome(NodeIds(st.newNodes), EdgeIds(st.newEdges), st.patched, st.skipped, st.tempIds,
            |st.newNodes| + |st.newEdges| + |st.patched|)
  }

  class Board {
    var nodes: map<NodeId, BoardNode>
    var edges: map<NodeId, BoardEdge>

    constructor (nodes: map<NodeId, BoardNode>, edges: map<NodeId, BoardEdge>)
      ensures this.nodes == nodes && this.edges == edges
    {
      this.nodes, this.edges := nodes, edges;
    }

    /** `addNodes`, `addEdges` and `updateNode` inside one transaction. */
    method Commit(st: Progress) returns (patched: seq<NodeId>)
      requires forall id :: id in st.patched ==> id in st.patches
      requires forall id :: id in st.patches ==> id in nodes
      modifies this
      ensures nodes == WithPatches(WithNodes(old(nodes), st.newNodes), st.patched, st.patches)
      ensures edges == WithEdges(old(edges), st.newEdges)
      ensures patched == st.patched
    {
      for i := 0 to |st.newNodes|
        invariant nodes == WithNodes(old(nodes), st.newNodes[..i]) && edges == old(edges)
        invariant old(nodes).Keys <= nodes.Keys
      {
        assert st.newNodes[..i + 1][..i] == st.newNodes[..i];
        nodes := nodes[st.newNodes[i].id := st.newNodes[i].node];
      }
      assert st.newNodes[..|st.newNodes|] == st.newNodes;
      ghost var added := nodes;
      for i := 0 to |st.newEdges|
        invariant edges == WithEdges(old(edges), st.newEdges[..i]) && nodes == added
      {
        assert st.newEdges[..i + 1][..i] == st.newEdges[..i];
        edges := edges[st.newEdges[i].id := st.newEdges[i].edge];
      }
      assert st.newEdges[..|st.newEdges|] == st.newEdges;
      patched := WritePatches(st);
    }

    /** Each patched node gets its new data, in the order in which they were first patched. */
    method WritePatches(st: Progress) returns (patched: seq<NodeId>)
      requires forall id :: id in st.patched ==> id in st.patches && id in nodes
      modifies this`nodes
      ensures nodes == WithPatches(old(nodes), st.patched, st.patches)
      ensures patched == st.patched
    {
      patched := [];
      for i := 0 to |st.patched|
        invariant nodes == WithPatches(old(nodes), st.patched[..i], st.patches)
        invariant patched == st.patched[..i] && nodes.Keys == old(nodes).Keys
      {
        assert st.patched[..i + 1][..i] == st.patched[..i];
        var id := st.patched[i];
        assert id in st.patched;
        if id in nodes {
          nodes := nodes[id := nodes[id].(data := st.patches[id], version := nodes[id].version + 1)];
          patched := patched + [id];
        }
      }
      assert st.patched[..|st.patched|] == st.patched;
    }

    /** `applyProposal`: refuses an expired proposal and unattributed node items before anything is written,
      * and otherwise leaves the collected changes on the board.
      */
    method ApplyProposal(p: Proposal, selectedIds: seq<string>, applied: map<string, NodeId>,
                         resolutions: map<string, Resolution>, newId: nat -> NodeId, now: int)
      returns (r: Result)
      modifies this
      ensures var env, selected := Env(old(nodes), applied, resolutions, newId), AsSet(selectedIds);
        var work, st := Chosen(p.items, NodeKind, selected, applied.Keys), Collected(env, p.items, selected);
        && (r == Refused(ProposalExpired) <==> p.expiresAt <= now)
        && (r.Applied? <==> p.expiresAt > now && forall item :: item in work && item.NewNode? ==>
              item.node.provenance.tool != "" && item.node.provenance.runId != "")
        && (r.Refused? && p.expiresAt > now ==>
              exists i :: 0 <= i < |work| && r == Refused(ProvenanceMissing(work[i].id)) && Unattributed(work[i])
                          && forall k :: 0 <= k < i ==> !Unattributed(work[k]))
        && (r.Refused? ==> nodes == old(nodes) && edges == old(edges))
        && (r.Applied? ==>
              && Tracks(env, st) && r.outcome == OutcomeOf(st)
              && nodes == NodesAfter(env, st) && edges == WithEdges(old(edges), st.newEdges))
    {
      if p.expiresAt <= now { return Refused(ProposalExpired); }
      var env, selected := Env(nodes, applied, resolutions, newId), AsSet(selectedIds);
      var work := Chosen(p.items, NodeKind, selected, applied.Keys);
      for i := 0 to |work|
        invariant forall k :: 0 <= k < i ==> !Unattributed(work[k])
      {
        if Unattributed(work[i]) {
          assert work[i] in work && work[i].NewNode?;
          return Refused(ProvenanceMissing(work[i].id));
        }
      }
      var st := Collect(env, p.items, selected);
      CollectedTracks(env, p.items, selected);
      var patched := Commit(st);
      r := Applied(Outcome(NodeIds(st.newNodes), EdgeIds(st.newEdges), patched, st.skipped, st.tempIds,
                           |st.newNodes| + |st.newEdges| + |st.patched|));
    }
  }

  /** The four loops that collect the changes. */
  method Collect(env: Env, items: seq<Item>, selected: set<string>) returns (st: Progress)
    ensures st == Collected(env, items, selected)
  {
    var known := env.applied.Keys;
    var nodeItems, edgeItems := Chosen(items, NodeKind, selected, known), Chosen(items, EdgeKind, selected, known);
    st := Start(env.applied);
    st := Pass(env, st, nodeItems);
    st := Pass(env, st, edgeItems);
    st := Pass(env, st, Later(items, selected, known));
  }

  /** One `for` over the items of a kind. */
  method Pass(env: Env, start: Progress, work: seq<Item>) returns (st: Progress)
    ensures st == Fold(env, start, work)
  {
    st := start;
    for i := 0 to |work|
      invariant st == Fold(env, start, work[..i])
    {
      assert work[..i + 1][..i] == work[..i];
      st := Step(env, st, work[i]);
    }
    assert work[..|work|] == work;
  }
}
