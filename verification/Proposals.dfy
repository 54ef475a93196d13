/** Stages 6 and 7 of an import: entities and relations become proposed nodes and edges, and those become
  * the items of a reviewable proposal.
  */
module Proposals {
  import opened Options

  type NodeId = string

  datatype Provenance = Provenance(tool: string, runId: string, pointer: string, confidence: real)

  /** What a field holds. `Atom` is anything that is not a list, by its JSON text. */
  datatype Value =
    | Nothing
    | Atom(text: string)
    | List(items: seq<Value>)
    | Origin(provenance: Provenance)
    | Collapsed(count: nat)

  datatype Prop = Prop(name: string, value: Value)

  datatype Entity = Entity(identityKey: string, nodeType: string, title: string, props: seq<Prop>,
                           pointer: string, confidence: real)

  datatype Relation = Relation(fromKey: string, kind: string, toKey: string, pointer: string, confidence: real)

  datatype Ref = Existing(nodeId: NodeId) | Temp(tempId: string)

  datatype ProposedNode = ProposedNode(tempId: string, identityKey: string, nodeType: string, title: string,
                                       props: seq<Prop>, provenance: Provenance)

  datatype ProposedEdge = ProposedEdge(tempId: string, fromRef: Ref, toRef: Ref, edgeType: string,
                                       provenance: Provenance)

  datatype PatchOp = Set | Append | AddToSet
  datatype FieldPatch = FieldPatch(path: string, op: PatchOp, value: Value)
  datatype Resolution = Keep | Replace | KeepBoth

  datatype Item =
    | NewNode(id: string, selectedByDefault: bool, node: ProposedNode)
    | NewEdge(id: string, selectedByDefault: bool, edge: ProposedEdge)
    | Enrich(id: string, selectedByDefault: bool, target: NodeId, patches: seq<FieldPatch>, source: Provenance)
    | Conflict(id: string, selectedByDefault: bool, target: NodeId, field: string, incoming: Value,
               source: Provenance, resolution: Resolution)

  datatype Summary = Summary(newNodes: nat, newEdges: nat, enriched: nat, conflicts: nat, skippedDuplicates: nat)

  datatype Proposal = Proposal(items: seq<Item>, summary: Summary, expiresAt: int)

  /** The verdict of `decideField` on one incoming field. */
  datatype Decision = SetField | AddField | SkipField | AskUser(resolution: Resolution)

  /** What the mappers are handed: which board node an identity already has, the provenance of a record,
    * the hash behind temporary ids, and the merge policy.
    */
  datatype Context = Context(resolve: string -> Option<NodeId>, provenanceFor: (string, real) -> Provenance,
                             hash: string -> string, decide: (Entity, Prop) -> Decision)

  const SELECTION_THRESHOLD: real := 0.6
  const PROPOSAL_TTL_MS: int := 7 * 24 * 60 * 60 * 1000

  // ---------------------------------------------------------------- the node mapper

  function NodeTempId(key: string, ctx: Context): string {
    "n:" + ctx.hash(key)
  }

  function NodeFor(e: Entity, ctx: Context): ProposedNode {
    ProposedNode(NodeTempId(e.identityKey, ctx), e.identityKey, e.nodeType, e.title, e.props,
                 ctx.provenanceFor(e.pointer, e.confidence))
  }

  predicate HasKey(nodes: seq<ProposedNode>, key: string) {
    exists i :: 0 <= i < |nodes| && nodes[i].identityKey == key
  }

  /** One node per identity that the board does not have, for the first entity with that identity. */
  function Mapped(entities: seq<Entity>, ctx: Context): seq<ProposedNode> {
    if entities == [] then []
    else
      var nodes, e := Mapped(entities[..|entities| - 1], ctx), entities[|entities| - 1];
      if ctx.resolve(e.identityKey).Some? || HasKey(nodes, e.identityKey) then nodes
      else nodes + [NodeFor(e, ctx)]
  }

  method MapNodes(entities: seq<Entity>, ctx: Context) returns (nodes: seq<ProposedNode>)
    ensures nodes == Mapped(entities, ctx)
  {
    nodes := [];
    for i := 0 to |entities|
      invariant nodes == Mapped(entities[..i], ctx)
    {
      var e := entities[i];
      assert entities[..i + 1][..i] == entities[..i];
      if ctx.resolve(e.identityKey).Some? { continue; }
      if HasKey(nodes, e.identityKey) { continue; }
      nodes := nodes + [NodeFor(e, ctx)];
    }
    assert entities[..|entities|] == entities;
  }

  predicate FirstWithKey(entities: seq<Entity>, k: int)
  {
    0 <= k < |entities| && forall j :: 0 <= j < k ==> entities[j].identityKey != entities[k].identityKey
  }

  /** A node is proposed for an identity exactly when some entity has it and the board does not;
    * no identity gets two; and each node comes from the first entity with its identity.
    */
  lemma {:induction false} OneNodePerNewIdentity(entities: seq<Entity>, ctx: Context)
    ensures forall key :: HasKey(Mapped(entities, ctx), key) <==>
      ctx.resolve(key).None? && exists e :: e in entities && e.identityKey == key
    ensures forall i, j :: 0 <= i < j < |Mapped(entities, ctx)| ==>
      Mapped(entities, ctx)[i].identityKey != Mapped(entities, ctx)[j].identityKey
    ensures forall n :: n in Mapped(entities, ctx) ==>
      exists k :: FirstWithKey(entities, k) && n == NodeFor(entities[k], ctx)
  {
    if entities != [] {
      var front, e := entities[..|entities| - 1], entities[|entities| - 1];
      OneNodePerNewIdentity(front, ctx);
      var before, now := Mapped(front, ctx), Mapped(entities, ctx);
      assert entities == front + [e];
      forall n | n in now
        ensures exists k :: FirstWithKey(entities, k) && n == NodeFor(entities[k], ctx)
      {
        if n in before {
          var k :| FirstWithKey(front, k) && n == NodeFor(front[k], ctx);
          assert FirstWithKey(entities, k) && entities[k] == front[k];
        } else {
          FirstOfItsKey(front, e, ctx);
        }
      }
      forall key
        ensures HasKey(now, key) <==> ctx.resolve(key).None? && exists f :: f in entities && f.identityKey == key
      {
        KeySnoc(front, e, ctx, key);
      }
    }
  }

  lemma FirstOfItsKey(front: seq<Entity>, e: Entity, ctx: Context)
    requires forall key :: HasKey(Mapped(front, ctx), key) <==>
      ctx.resolve(key).None? && exists f :: f in front && f.identityKey == key
    requires ctx.resolve(e.identityKey).None? && !HasKey(Mapped(front, ctx), e.identityKey)
    ensures FirstWithKey(front + [e], |front|)
  {
    forall j | 0 <= j < |front|
      ensures (front + [e])[j].identityKey != e.identityKey
    {
      assert front[j] in front;
    }
  }

  lemma KeySnoc(front: seq<Entity>, e: Entity, ctx: Context, key: string)
    requires HasKey(Mapped(front, ctx), key) <==>
      ctx.resolve(key).None? && exists f :: f in front && f.identityKey == key
    ensures HasKey(Mapped(front + [e], ctx), key) <==>
      ctx.resolve(key).None? && exists f :: f in front + [e] && f.identityKey == key
  {
    var before, now := Mapped(front, ctx), Mapped(front + [e], ctx);
    assert (front + [e])[..|front|] == front;
    assert e in front + [e];
    if key == e.identityKey {
      if now != before { assert now[|before|].identityKey == key; }
    } else {
      assert (exists f :: f in front + [e] && f.identityKey == key) ==> exists f :: f in front && f.identityKey == key;
      if HasKey(before, key) {
        var i :| 0 <= i < |before| && before[i].identityKey == key;
        assert now[i].identityKey == key;
      }
    }
  }

  // ---------------------------------------------------------------- the relationship mapper

  /** Proposed nodes by identity, the last one where several share it. */
  function ByKey(nodes: seq<ProposedNode>): map<string, ProposedNode> {
    if nodes == [] then map[]
    else ByKey(nodes[..|nodes| - 1])[nodes[|nodes| - 1].identityKey := nodes[|nodes| - 1]]
  }

  function RefFor(key: string, byKey: map<string, ProposedNode>, ctx: Context): Option<Ref> {
    if key in byKey then Some(Temp(byKey[key].tempId))
    else
      match ctx.resolve(key)
      case Some(nodeId) => Some(Existing(nodeId))
      case None => None
  }

  function EdgeTempId(r: Relation, ctx: Context): string {
    "e:" + ctx.hash(r.fromKey + "|" + r.kind + "|" + r.toKey)
  }

  function EdgeFor(r: Relation, source: Ref, target: Ref, ctx: Context): ProposedEdge {
    ProposedEdge(EdgeTempId(r, ctx), source, target, r.kind, ctx.provenanceFor(r.pointer, r.confidence))
  }

  /** The edge of one relation, if both ends are known. */
  function EdgesOf(r: Relation, byKey: map<string, ProposedNode>, ctx: Context): seq<ProposedEdge> {
    var source, target := RefFor(r.fromKey, byKey, ctx), RefFor(r.toKey, byKey, ctx);
    if source.None? || target.None? then [] else [EdgeFor(r, source.value, target.value, ctx)]
  }

  function Related(relations: seq<Relation>, byKey: map<string, ProposedNode>, ctx: Context): seq<ProposedEdge> {
    if relations == [] then []
    else Related(relations[..|relations| - 1], byKey, ctx) + EdgesOf(relations[|relations| - 1], byKey, ctx)
  }

  method MapRelations(relations: seq<Relation>, nodes: seq<ProposedNode>, ctx: Context)
    returns (edges: seq<ProposedEdge>)
    ensures edges == Related(relations, ByKey(nodes), ctx)
  {
    var byKey: map<string, ProposedNode> := map[];
    for i := 0 to |nodes|
      invariant byKey == ByKey(nodes[..i])
    {
      assert nodes[..i + 1][..i] == nodes[..i];
      byKey := byKey[nodes[i].identityKey := nodes[i]];
    }
    assert nodes[..|nodes|] == nodes;
    edges := [];
    for i := 0 to |relations|
      invariant edges == Related(relations[..i], byKey, ctx)
    {
      var r := relations[i];
      assert relations[..i + 1][..i] == relations[..i];
      var source := RefFor(r.fromKey, byKey, ctx);
      var target := RefFor(r.toKey, byKey, ctx);
      if source.None? || target.None? { continue; }
      edges := edges + [EdgeFor(r, source.value, target.value, ctx)];
    }
    assert relations[..|relations|] == relations;
  }

  /** A reference to a proposed node, or to a node the board already had for some identity. */
  ghost predicate RefIsKnown(ref: Ref, nodes: seq<ProposedNode>, ctx: Context) {
    match ref
    case Temp(tempId) => exists n :: n in nodes && n.tempId == tempId
    case Existing(nodeId) => exists key :: ctx.resolve(key) == Some(nodeId)
  }

  lemma {:induction false} ByKeyMembers(nodes: seq<ProposedNode>)
    ensures forall key :: key in ByKey(nodes) ==> ByKey(nodes)[key] in nodes && ByKey(nodes)[key].identityKey == key
    ensures forall key :: key in ByKey(nodes) <==> HasKey(nodes, key)
  {
    if nodes != [] {
      var front, n := nodes[..|nodes| - 1], nodes[|nodes| - 1];
      ByKeyMembers(front);
      assert nodes == front + [n];
      forall key
        ensures HasKey(nodes, key) <==> HasKey(front, key) || key == n.identityKey
      {
        if HasKey(front, key) {
          var i :| 0 <= i < |front| && front[i].identityKey == key;
          assert nodes[i].identityKey == key;
        }
        if key == n.identityKey { assert nodes[|front|].identityKey == key; }
      }
    }
  }

  lemma RefForIsKnown(key: string, nodes: seq<ProposedNode>, ctx: Context)
    ensures RefFor(key, ByKey(nodes), ctx).Some? ==> RefIsKnown(RefFor(key, ByKey(nodes), ctx).value, nodes, ctx)
    ensures RefFor(key, ByKey(nodes), ctx).Some? <==> HasKey(nodes, key) || ctx.resolve(key).Some?
  {
    ByKeyMembers(nodes);
    hide ByKey;
  }

  /** Reference closure: every proposed edge joins things the proposal or the board has. */
  lemma {:induction false} EdgesAreClosed(relations: seq<Relation>, nodes: seq<ProposedNode>, ctx: Context)
    ensures forall e :: e in Related(relations, ByKey(nodes), ctx) ==>
      RefIsKnown(e.fromRef, nodes, ctx) && RefIsKnown(e.toRef, nodes, ctx)
  {
    if relations != [] {
      EdgesAreClosed(relations[..|relations| - 1], nodes, ctx);
      RefForIsKnown(relations[|relations| - 1].fromKey, nodes, ctx);
      RefForIsKnown(relations[|relations| - 1].toKey, nodes, ctx);
      hide RefIsKnown, RefFor;
    }
  }

  /** With the mapper's own nodes, a relation is dropped exactly when one of its identities neither was
    * extracted nor is on the board.
    */
  lemma RelationIsDroppedWhen(r: Relation, entities: seq<Entity>, ctx: Context)
    ensures EdgesOf(r, ByKey(Mapped(entities, ctx)), ctx) == [] <==>
      !Identified(r.fromKey, entities, ctx) || !Identified(r.toKey, entities, ctx)
  {
    var nodes := Mapped(entities, ctx);
    OneNodePerNewIdentity(entities, ctx);
    RefForIsKnown(r.fromKey, nodes, ctx);
    RefForIsKnown(r.toKey, nodes, ctx);
    hide RefFor, RefIsKnown, Mapped, ByKey;
    assert HasKey(nodes, r.fromKey) || ctx.resolve(r.fromKey).Some? <==> Identified(r.fromKey, entities, ctx);
    assert HasKey(nodes, r.toKey) || ctx.resolve(r.toKey).Some? <==> Identified(r.toKey, entities, ctx);
  }

  ghost predicate Identified(key: string, entities: seq<Entity>, ctx: Context) {
    ctx.resolve(key).Some? || exists e :: e in entities && e.identityKey == key
  }

  // ---------------------------------------------------------------- the proposal

  function NodeItem(n: ProposedNode): Item {
    NewNode(n.tempId, n.provenance.confidence >= SELECTION_THRESHOLD, n)
  }

  function NodeItems(nodes: seq<ProposedNode>): (items: seq<Item>)
    ensures |items| == |nodes| && forall i :: 0 <= i < |nodes| ==> items[i] == NodeItem(nodes[i])
  {
    seq(|nodes|, i requires 0 <= i < |nodes| => NodeItem(nodes[i]))
  }

  /** Ids of the items ticked by default, for a list of node items. */
  function Ticked(items: seq<Item>): set<string> {
    set item | item in items && item.selectedByDefault :: item.id
  }

  predicate RefIsTicked(ref: Ref, ticked: set<string>) {
    ref.Existing? || ref.tempId in ticked
  }

  function EdgeItem(e: ProposedEdge, ticked: set<string>): Item {
    NewEdge(e.tempId, RefIsTicked(e.fromRef, ticked) && RefIsTicked(e.toRef, ticked), e)
  }

  function EdgeItems(edges: seq<ProposedEdge>, ticked: set<string>): (items: seq<Item>)
    ensures |items| == |edges| && forall i :: 0 <= i < |edges| ==> items[i] == EdgeItem(edges[i], ticked)
  {
    seq(|edges|, i requires 0 <= i < |edges| => EdgeItem(edges[i], ticked))
  }

  /** What merging the fields of one entity into an existing node has produced so far. */
  datatype Merge = Merge(items: seq<Item>, patches: seq<FieldPatch>, skips: nat)

  function MergeField(ctx: Context, e: Entity, nodeId: NodeId, m: Merge, p: Prop): Merge {
    match ctx.decide(e, p)
    case SkipField => m.(skips := m.skips + 1)
    case AskUser(resolution) =>
      var item := Conflict("c:" + nodeId + ":" + p.name, false, nodeId, p.name, p.value,
                           ctx.provenanceFor(e.pointer, e.confidence), resolution);
      m.(items := m.items + [item])
    case SetField => m.(patches := m.patches + [FieldPatch("/" + p.name, Set, p.value)])
    case AddField => m.(patches := m.patches + [FieldPatch("/" + p.name, AddToSet, p.value)])
  }

  function MergeFields(ctx: Context, e: Entity, nodeId: NodeId, props: seq<Prop>): Merge {
    if props == [] then Merge([], [], 0)
    else MergeField(ctx, e, nodeId, MergeFields(ctx, e, nodeId, props[..|props| - 1]), props[|props| - 1])
  }

  function EnrichItem(ctx: Context, e: Entity, nodeId: NodeId, patches: seq<FieldPatch>): Item {
    Enrich("p:" + nodeId, true, nodeId, patches, ctx.provenanceFor(e.pointer, e.confidence))
  }

  /** Enrichments and conflicts of all entities that the board already has, and the fields skipped. */
  function Merged(ctx: Context, entities: seq<Entity>): Merge {
    if entities == [] then Merge([], [], 0)
    else
      var before, e := Merged(ctx, entities[..|entities| - 1]), entities[|entities| - 1];
      match ctx.resolve(e.identityKey)
      case None => before
      case Some(nodeId) =>
        var m := MergeFields(ctx, e, nodeId, e.props);
        var enrich := if m.patches == [] then [] else [EnrichItem(ctx, e, nodeId, m.patches)];
        Merge(before.items + m.items + enrich, [], before.skips + m.skips)
  }

  /** All items of a proposal, in the order they are pushed. */
  function BuiltItems(entities: seq<Entity>, nodes: seq<ProposedNode>, edges: seq<ProposedEdge>, ctx: Context):
    seq<Item>
  {
    NodeItems(nodes) + EdgeItems(edges, Ticked(NodeItems(nodes))) + Merged(ctx, entities).items
  }

  function CountNodes(items: seq<Item>): nat {
    if items == [] then 0 else CountNodes(items[..|items| - 1]) + if items[|items| - 1].NewNode? then 1 else 0
  }

  function CountEdges(items: seq<Item>): nat {
    if items == [] then 0 else CountEdges(items[..|items| - 1]) + if items[|items| - 1].NewEdge? then 1 else 0
  }

  function CountEnriched(items: seq<Item>): nat {
    if items == [] then 0 else CountEnriched(items[..|items| - 1]) + if items[|items| - 1].Enrich? then 1 else 0
  }

  function CountConflicts(items: seq<Item>): nat {
    if items == [] then 0 else CountConflicts(items[..|items| - 1]) + if items[|items| - 1].Conflict? then 1 else 0
  }

  method BuildProposal(entities: seq<Entity>, nodes: seq<ProposedNode>, edges: seq<ProposedEdge>, ctx: Context,
                       now: int)
    returns (p: Proposal)
    ensures p.items == BuiltItems(entities, nodes, edges, ctx)
    ensures p.summary == Summary(CountNodes(p.items), CountEdges(p.items), CountEnriched(p.items),
                                 CountConflicts(p.items), Merged(ctx, entities).skips)
    ensures p.expiresAt == now + 7 * 24 * 60 * 60 * 1000
  {
    var items: seq<Item> := [];
    for i := 0 to |nodes|
      invariant items == NodeItems(nodes)[..i]
    {
      items := items + [NodeItem(nodes[i])];
    }
    var ticked := Ticked(items);
    assert items == NodeItems(nodes);
    for i := 0 to |edges|
      invariant items == NodeItems(nodes) + EdgeItems(edges, ticked)[..i]
    {
      items := items + [EdgeItem(edges[i], ticked)];
    }
    var skips: nat;
    items, skips := MergeEntities(entities, ctx, items);
    p := Proposal(items, Summary(CountNodes(items), CountEdges(items), CountEnriched(items), CountConflicts(items), skips),
                  now + PROPOSAL_TTL_MS);
  }

  method MergeEntities(entities: seq<Entity>, ctx: Context, start: seq<Item>) returns (items: seq<Item>, skips: nat)
    ensures items == start + Merged(ctx, entities).items && skips == Merged(ctx, entities).skips
  {
    hide Merged, MergeFields;
    NothingMerged(ctx);
    assert entities[..0] == [];
    items, skips := start, 0;
    for i := 0 to |entities|
      invariant items == start + Merged(ctx, entities[..i]).items && skips == Merged(ctx, entities[..i]).skips
    {
      var e := entities[i];
      MergedNext(ctx, entities, i);
      var existing := ctx.resolve(e.identityKey);
      if existing.None? { continue; }
      var patches;
      items, patches, skips := MergeEntity(e, existing.value, ctx, items, skips);
      if |patches| > 0 {
        items := items + [EnrichItem(ctx, e, existing.value, patches)];
      }
    }
    assert entities[..|entities|] == entities;
  }

  lemma NothingMerged(ctx: Context)
    ensures Merged(ctx, []) == Merge([], [], 0)
  {
  }

  lemma MergedNext(ctx: Context, entities: seq<Entity>, i: nat)
    requires i < |entities|
    ensures var before, e := Merged(ctx, entities[..i]), entities[i];
      Merged(ctx, entities[..i + 1]) ==
        match ctx.resolve(e.identityKey)
        case None => before
        case Some(nodeId) =>
          var m := MergeFields(ctx, e, nodeId, e.props);
          Merge(before.items + m.items + (if m.patches == [] then [] else [EnrichItem(ctx, e, nodeId, m.patches)]), [],
                before.skips + m.skips)
  {
    hide MergeFields;
    assert entities[..i + 1][..i] == entities[..i];
  }

  method MergeEntity(e: Entity, nodeId: NodeId, ctx: Context, start: seq<Item>, skips0: nat)
    returns (items: seq<Item>, patches: seq<FieldPatch>, skips: nat)
    ensures items == start + MergeFields(ctx, e, nodeId, e.props).items
    ensures patches == MergeFields(ctx, e, nodeId, e.props).patches
    ensures skips == skips0 + MergeFields(ctx, e, nodeId, e.props).skips
  {
    items, patches, skips := start, [], skips0;
    for i := 0 to |e.props|
      invariant items == start + MergeFields(ctx, e, nodeId, e.props[..i]).items
      invariant patches == MergeFields(ctx, e, nodeId, e.props[..i]).patches
      invariant skips == skips0 + MergeFields(ctx, e, nodeId, e.props[..i]).skips
    {
      var p := e.props[i];
      assert e.props[..i + 1][..i] == e.props[..i];
      var decision := ctx.decide(e, p);
      if decision.SkipField? {
        skips := skips + 1;
      } else if decision.AskUser? {
        items := items + [Conflict("c:" + nodeId + ":" + p.name, false, nodeId, p.name, p.value,
                                   ctx.provenanceFor(e.pointer, e.confidence), decision.resolution)];
      } else {
        var op := if decision.AddField? then AddToSet else Set;
        patches := patches + [FieldPatch("/" + p.name, op, p.value)];
      }
    }
    assert e.props[..|e.props|] == e.props;
  }

  // ---------------------------------------------------------------- nothing is lost in the merge

  /** Fields of entities that the board already has. */
  function KnownFields(ctx: Context, entities: seq<Entity>): nat {
    if entities == [] then 0
    else
      KnownFields(ctx, entities[..|entities| - 1]) +
      if ctx.resolve(entities[|entities| - 1].identityKey).Some? then |entities[|entities| - 1].props| else 0
  }

  function CountPatches(items: seq<Item>): nat {
    if items == [] then 0
    else CountPatches(items[..|items| - 1]) + if items[|items| - 1].Enrich? then |items[|items| - 1].patches| else 0
  }

  lemma {:induction false} CountsConcat(a: seq<Item>, b: seq<Item>)
    ensures CountNodes(a + b) == CountNodes(a) + CountNodes(b)
    ensures CountEdges(a + b) == CountEdges(a) + CountEdges(b)
    ensures CountConflicts(a + b) == CountConflicts(a) + CountConflicts(b)
    ensures CountPatches(a + b) == CountPatches(a) + CountPatches(b)
  {
    if b == [] {
      assert a + b == a;
    } else {
      CountsConcat(a, b[..|b| - 1]);
      assert (a + b)[..|a + b| - 1] == a + b[..|b| - 1];
    }
  }

  lemma {:induction false} FieldsAccounted(ctx: Context, e: Entity, nodeId: NodeId, props: seq<Prop>)
    ensures var m := MergeFields(ctx, e, nodeId, props);
      |m.items| + |m.patches| + m.skips == |props| && forall item :: item in m.items ==> item.Conflict?
  {
    if props != [] {
      FieldsAccounted(ctx, e, nodeId, props[..|props| - 1]);
    }
  }

  lemma {:induction false} AllConflicts(items: seq<Item>)
    requires forall item :: item in items ==> item.Conflict?
    ensures CountConflicts(items) == |items| && CountPatches(items) == 0
    ensures CountNodes(items) == 0 && CountEdges(items) == 0
  {
    if items != [] {
      assert items[|items| - 1] in items;
      AllConflicts(items[..|items| - 1]);
    }
  }

  /** Every incoming field of an entity that the board already has ends up in exactly one place: counted as a
    * duplicate, raised as a conflict, or patched.
    */
  lemma {:induction false} EveryFieldIsAccountedFor(ctx: Context, entities: seq<Entity>)
    ensures var m := Merged(ctx, entities);
      m.skips + CountConflicts(m.items) + CountPatches(m.items) == KnownFields(ctx, entities)
    ensures CountNodes(Merged(ctx, entities).items) == 0 && CountEdges(Merged(ctx, entities).items) == 0
  {
    if entities != [] {
      var front, e := entities[..|entities| - 1], entities[|entities| - 1];
      EveryFieldIsAccountedFor(ctx, front);
      var before := Merged(ctx, front);
      if ctx.resolve(e.identityKey).Some? {
        var nodeId := ctx.resolve(e.identityKey).value;
        var m := MergeFields(ctx, e, nodeId, e.props);
        FieldsAccounted(ctx, e, nodeId, e.props);
        AllConflicts(m.items);
        var enrich := if m.patches == [] then [] else [EnrichItem(ctx, e, nodeId, m.patches)];
        OneEnrich(enrich, m.patches);
        CountsConcat(before.items, m.items);
        CountsConcat(before.items + m.items, enrich);
        assert Merged(ctx, entities).items == before.items + m.items + enrich;
        hide MergeFields, CountConflicts, CountPatches, CountNodes, CountEdges;
      }
    }
  }

  /** The conflict the user is asked about, with what it would write. */
  ghost predicate Asks(item: Item, ctx: Context, e: Entity, nodeId: NodeId, p: Prop, resolution: Resolution) {
    && item.Conflict? && !item.selectedByDefault && item.target == nodeId
    && item.field == p.name && item.incoming == p.value && item.resolution == resolution
    && item.source == ctx.provenanceFor(e.pointer, e.confidence)
  }

  function OpFor(decision: Decision): PatchOp {
    if decision.AddField? then AddToSet else Set
  }

  /** Positions of the fields that the policy leaves alone. */
  ghost function SkippedAt(ctx: Context, e: Entity, props: seq<Prop>): set<nat> {
    set k: nat | k < |props| && ctx.decide(e, props[k]).SkipField?
  }

  /** Duplicates counted are exactly the fields that the policy leaves alone. */
  lemma {:induction false} SkipsAreCounted(ctx: Context, e: Entity, nodeId: NodeId, props: seq<Prop>)
    ensures MergeFields(ctx, e, nodeId, props).skips == |SkippedAt(ctx, e, props)|
  {
    hide SkippedAt;
    SkippedNext(ctx, e, props);
    if props != [] {
      SkipsAreCounted(ctx, e, nodeId, props[..|props| - 1]);
    }
  }

  lemma SkippedNext(ctx: Context, e: Entity, props: seq<Prop>)
    ensures |SkippedAt(ctx, e, props)| ==
      if props == [] then 0
      else |SkippedAt(ctx, e, props[..|props| - 1])| + if ctx.decide(e, props[|props| - 1]).SkipField? then 1 else 0
  {
    if props == [] {
      assert SkippedAt(ctx, e, props) == {};
    } else {
      var n := |props| - 1;
      var front := SkippedAt(ctx, e, props[..n]);
      if ctx.decide(e, props[n]).SkipField? {
        assert SkippedAt(ctx, e, props) == front + {n};
      } else {
        assert SkippedAt(ctx, e, props) == front;
      }
    }
  }

  /** Each incoming field goes where the merge policy sent it. */
  lemma {:induction false} EachFieldIsDecided(ctx: Context, e: Entity, nodeId: NodeId, props: seq<Prop>, p: Prop)
    requires p in props
    ensures var m := MergeFields(ctx, e, nodeId, props);
      && m.skips == |SkippedAt(ctx, e, props)|
      && match ctx.decide(e, p)
         case SkipField => m.skips > 0
         case AskUser(resolution) => exists item :: item in m.items && Asks(item, ctx, e, nodeId, p, resolution)
         case SetField => FieldPatch("/" + p.name, Set, p.value) in m.patches
         case AddField => FieldPatch("/" + p.name, AddToSet, p.value) in m.patches
  {
    var front, last := props[..|props| - 1], props[|props| - 1];
    var m := MergeFields(ctx, e, nodeId, props);
    SkipsAreCounted(ctx, e, nodeId, props);
    hide SkippedAt;
    if p in front {
      EachFieldIsDecided(ctx, e, nodeId, front, p);
      assert forall item :: item in MergeFields(ctx, e, nodeId, front).items ==> item in m.items;
    } else if ctx.decide(e, p).AskUser? {
      assert Asks(m.items[|m.items| - 1], ctx, e, nodeId, p, ctx.decide(e, p).resolution);
    }
  }

  /** And nothing is patched that the policy did not ask for. */
  lemma {:induction false} EachPatchWasDecided(ctx: Context, e: Entity, nodeId: NodeId, props: seq<Prop>, patch: FieldPatch)
    requires patch in MergeFields(ctx, e, nodeId, props).patches
    ensures exists p :: p in props && (ctx.decide(e, p).SetField? || ctx.decide(e, p).AddField?)
                        && patch == FieldPatch("/" + p.name, OpFor(ctx.decide(e, p)), p.value)
  {
    var front, last := props[..|props| - 1], props[|props| - 1];
    if patch in MergeFields(ctx, e, nodeId, front).patches {
      EachPatchWasDecided(ctx, e, nodeId, front, patch);
    } else {
      assert last in props;
    }
  }

  lemma OneEnrich(enrich: seq<Item>, patches: seq<FieldPatch>)
    requires (enrich == [] && patches == []) || (|enrich| == 1 && enrich[0].Enrich? && enrich[0].patches == patches)
    ensures CountConflicts(enrich) == 0 && CountPatches(enrich) == |patches|
    ensures CountNodes(enrich) == 0 && CountEdges(enrich) == 0
  {
    if enrich != [] { assert enrich[..0] == []; }
  }

  lemma {:induction false} AllNodes(items: seq<Item>)
    requires forall i :: 0 <= i < |items| ==> items[i].NewNode?
    ensures CountNodes(items) == |items| && CountEdges(items) == 0
    ensures CountConflicts(items) == 0 && CountPatches(items) == 0
  {
    if items != [] { AllNodes(items[..|items| - 1]); }
  }

  lemma {:induction false} AllEdges(items: seq<Item>)
    requires forall i :: 0 <= i < |items| ==> items[i].NewEdge?
    ensures CountEdges(items) == |items| && CountNodes(items) == 0
    ensures CountConflicts(items) == 0 && CountPatches(items) == 0
  {
    if items != [] { AllEdges(items[..|items| - 1]); }
  }

  /** The summary counts are the numbers of proposed nodes and edges, and the rest balances the fields. */
  lemma SummaryIsTrue(entities: seq<Entity>, nodes: seq<ProposedNode>, edges: seq<ProposedEdge>, ctx: Context)
    ensures var items := BuiltItems(entities, nodes, edges, ctx);
      && CountNodes(items) == |nodes|
      && CountEdges(items) == |edges|
      && Merged(ctx, entities).skips + CountConflicts(items) + CountPatches(items) == KnownFields(ctx, entities)
  {
    var a, b := NodeItems(nodes), EdgeItems(edges, Ticked(NodeItems(nodes)));
    var c := Merged(ctx, entities).items;
    AllNodes(a);
    AllEdges(b);
    EveryFieldIsAccountedFor(ctx, entities);
    CountsConcat(a, b);
    CountsConcat(a + b, c);
    hide CountNodes, CountEdges, CountConflicts, CountPatches, Merged, KnownFields;
  }

  // ---------------------------------------------------------------- what a built proposal looks like

  /** Item ids say what kind of item they name, and node and edge items are named by their temporary ids. */
  ghost predicate WellNamed(item: Item) {
    && item.id != ""
    && (item.NewNode? <==> item.id[0] == 'n')
    && (item.NewEdge? <==> item.id[0] == 'e')
    && (item.NewNode? ==> item.id == item.node.tempId)
    && (item.NewEdge? ==> item.id == item.edge.tempId)
  }

  /** A temporary reference names a node, never an edge. */
  ghost predicate NodeRef(ref: Ref) {
    ref.Temp? ==> ref.tempId != "" && ref.tempId[0] == 'n'
  }

  ghost predicate EdgeRefsNodes(item: Item) {
    item.NewEdge? ==> NodeRef(item.edge.fromRef) && NodeRef(item.edge.toRef)
  }

  ghost predicate WellFormed(items: seq<Item>) {
    forall item :: item in items ==> WellNamed(item) && EdgeRefsNodes(item)
  }

  lemma {:induction false} MergeFieldsNamed(ctx: Context, e: Entity, nodeId: NodeId, props: seq<Prop>)
    ensures WellFormed(MergeFields(ctx, e, nodeId, props).items)
  {
    if props != [] { MergeFieldsNamed(ctx, e, nodeId, props[..|props| - 1]); }
  }

  lemma {:induction false} MergedNamed(ctx: Context, entities: seq<Entity>)
    ensures WellFormed(Merged(ctx, entities).items)
    ensures forall item :: item in Merged(ctx, entities).items ==> item.Enrich? || item.Conflict?
  {
    if entities != [] {
      var e := entities[|entities| - 1];
      MergedNamed(ctx, entities[..|entities| - 1]);
      if ctx.resolve(e.identityKey).Some? {
        MergeFieldsNamed(ctx, e, ctx.resolve(e.identityKey).value, e.props);
        FieldsAccounted(ctx, e, ctx.resolve(e.identityKey).value, e.props);
        hide MergeFields;
      }
    }
  }

  lemma {:induction false} MappedNamed(entities: seq<Entity>, ctx: Context)
    ensures forall n :: n in Mapped(entities, ctx) ==> n.tempId != "" && n.tempId[0] == 'n'
  {
    if entities != [] { MappedNamed(entities[..|entities| - 1], ctx); }
  }

  lemma {:induction false} RelatedNamed(relations: seq<Relation>, byKey: map<string, ProposedNode>, ctx: Context)
    requires forall key :: key in byKey ==> NodeRef(Temp(byKey[key].tempId))
    ensures forall e :: e in Related(relations, byKey, ctx) ==>
      e.tempId != "" && e.tempId[0] == 'e' && NodeRef(e.fromRef) && NodeRef(e.toRef)
  {
    if relations != [] { RelatedNamed(relations[..|relations| - 1], byKey, ctx); }
  }

  /** Stage 6 and 7 together build a well-formed proposal, whatever was extracted. */
  lemma BuiltIsWellFormed(entities: seq<Entity>, relations: seq<Relation>, ctx: Context)
    ensures var nodes := Mapped(entities, ctx);
      WellFormed(BuiltItems(entities, nodes, Related(relations, ByKey(nodes), ctx), ctx))
  {
    var nodes := Mapped(entities, ctx);
    var edges := Related(relations, ByKey(nodes), ctx);
    MappedNamed(entities, ctx);
    ByKeyMembers(nodes);
    RelatedNamed(relations, ByKey(nodes), ctx);
    MergedNamed(ctx, entities);
    hide Mapped, Related, Merged, ByKey;
    forall item | item in NodeItems(nodes)
      ensures WellNamed(item) && EdgeRefsNodes(item)
    {
      var i :| 0 <= i < |nodes| && item == NodeItem(nodes[i]);
      assert nodes[i] in nodes;
    }
    forall item | item in EdgeItems(edges, Ticked(NodeItems(nodes)))
      ensures WellNamed(item) && EdgeRefsNodes(item)
    {
      var i :| 0 <= i < |edges| && item == EdgeItem(edges[i], Ticked(NodeItems(nodes)));
      assert edges[i] in edges;
    }
  }

  // ---------------------------------------------------------------- the default selection

  /** Ids of the items ticked when the review opens: all that default to it, except conflicts. */
  function DefaultSelection(items: seq<Item>): (ids: seq<string>)
    ensures forall id :: id in ids <==>
      exists item :: item in items && !item.Conflict? && item.selectedByDefault && item.id == id
  {
    if items == [] then []
    else
      var item := items[|items| - 1];
      DefaultSelection(items[..|items| - 1]) + if !item.Conflict? && item.selectedByDefault then [item.id] else []
  }

  /** Some selected node item carries this temporary id. */
  ghost predicate NodeSelected(items: seq<Item>, selected: set<string>, tempId: string) {
    exists item :: item in items && item.NewNode? && item.id in selected && item.node.tempId == tempId
  }

  ghost predicate RefSelected(items: seq<Item>, selected: set<string>, ref: Ref) {
    ref.Temp? ==> NodeSelected(items, selected, ref.tempId)
  }

  /** Every selected edge has its proposed end nodes selected with it. */
  ghost predicate DependencyClosed(items: seq<Item>, selected: set<string>) {
    forall item :: item in items && item.NewEdge? && item.id in selected ==>
      RefSelected(items, selected, item.edge.fromRef) && RefSelected(items, selected, item.edge.toRef)
  }

  /** Edges with one temporary id join the same things. */
  ghost predicate SharedIdsAgree(edges: seq<ProposedEdge>) {
    forall e, f :: e in edges && f in edges && e.tempId == f.tempId ==> e.fromRef == f.fromRef && e.toRef == f.toRef
  }

  function AsSet(ids: seq<string>): set<string> {
    set id | id in ids
  }

  lemma EdgeItemsAreEdges(entities: seq<Entity>, nodes: seq<ProposedNode>, edges: seq<ProposedEdge>, ctx: Context,
                          item: Item)
    requires item in BuiltItems(entities, nodes, edges, ctx) && item.NewEdge?
    ensures item.edge in edges && item == EdgeItem(item.edge, Ticked(NodeItems(nodes)))
  {
    MergedNamed(ctx, entities);
    var ticked := Ticked(NodeItems(nodes));
    assert item !in NodeItems(nodes);
    assert item in EdgeItems(edges, ticked);
    var i :| 0 <= i < |edges| && item == EdgeItem(edges[i], ticked);
  }

  lemma TickedIsSelected(entities: seq<Entity>, nodes: seq<ProposedNode>, edges: seq<ProposedEdge>, ctx: Context,
                         ref: Ref)
    requires RefIsTicked(ref, Ticked(NodeItems(nodes)))
    ensures var items := BuiltItems(entities, nodes, edges, ctx);
      RefSelected(items, AsSet(DefaultSelection(items)), ref)
  {
    var items := BuiltItems(entities, nodes, edges, ctx);
    if ref.Temp? {
      var item :| item in NodeItems(nodes) && item.selectedByDefault && item.id == ref.tempId;
      var i :| 0 <= i < |nodes| && item == NodeItem(nodes[i]);
      assert item in items;
      assert NodeSelected(items, AsSet(DefaultSelection(items)), ref.tempId);
    }
  }

  lemma SelectedIsTicked(entities: seq<Entity>, nodes: seq<ProposedNode>, edges: seq<ProposedEdge>, ctx: Context,
                         ref: Ref)
    requires var items := BuiltItems(entities, nodes, edges, ctx);
      WellFormed(items) && RefSelected(items, AsSet(DefaultSelection(items)), ref)
    ensures RefIsTicked(ref, Ticked(NodeItems(nodes)))
  {
    var items := BuiltItems(entities, nodes, edges, ctx);
    if ref.Temp? {
      var item :| item in items && item.NewNode? && item.id in DefaultSelection(items) && item.node.tempId == ref.tempId;
      var twin :| twin in items && !twin.Conflict? && twin.selectedByDefault && twin.id == item.id;
      assert WellNamed(item) && WellNamed(twin);
      hide DefaultSelection, WellFormed;
      MergedNamed(ctx, entities);
      assert twin !in EdgeItems(edges, Ticked(NodeItems(nodes)));
      assert twin in NodeItems(nodes);
    }
  }

  predicate IsTicked(e: ProposedEdge, ticked: set<string>) {
    RefIsTicked(e.fromRef, ticked) && RefIsTicked(e.toRef, ticked)
  }

  /** Of the edges with one temporary id, all are ticked or none is. */
  ghost predicate TickTogether(edges: seq<ProposedEdge>, ticked: set<string>) {
    forall e, f :: e in edges && f in edges && e.tempId == f.tempId && IsTicked(e, ticked) ==> IsTicked(f, ticked)
  }

  lemma SelectedEdgeIsTicked(entities: seq<Entity>, nodes: seq<ProposedNode>, edges: seq<ProposedEdge>, ctx: Context,
                             item: Item)
    requires WellFormed(BuiltItems(entities, nodes, edges, ctx)) && TickTogether(edges, Ticked(NodeItems(nodes)))
    requires var items := BuiltItems(entities, nodes, edges, ctx);
      item in items && item.NewEdge? && item.id in DefaultSelection(items)
    ensures IsTicked(item.edge, Ticked(NodeItems(nodes)))
  {
    var items := BuiltItems(entities, nodes, edges, ctx);
    var twin :| twin in items && !twin.Conflict? && twin.selectedByDefault && twin.id == item.id;
    hide DefaultSelection, BuiltItems, Ticked;
    assert WellNamed(item) && WellNamed(twin);
    hide WellFormed;
    EdgeItemsAreEdges(entities, nodes, edges, ctx, item);
    EdgeItemsAreEdges(entities, nodes, edges, ctx, twin);
    assert IsTicked(twin.edge, Ticked(NodeItems(nodes)));
  }

  lemma TickedTogetherIsClosed(entities: seq<Entity>, nodes: seq<ProposedNode>, edges: seq<ProposedEdge>, ctx: Context)
    requires WellFormed(BuiltItems(entities, nodes, edges, ctx)) && TickTogether(edges, Ticked(NodeItems(nodes)))
    ensures var items := BuiltItems(entities, nodes, edges, ctx);
      DependencyClosed(items, AsSet(DefaultSelection(items)))
  {
    hide DefaultSelection, BuiltItems, Ticked, WellFormed, TickTogether, RefSelected;
    var items := BuiltItems(entities, nodes, edges, ctx);
    var selected := AsSet(DefaultSelection(items));
    forall item | item in items && item.NewEdge? && item.id in selected
      ensures RefSelected(items, selected, item.edge.fromRef) && RefSelected(items, selected, item.edge.toRef)
    {
      SelectedEdgeIsTicked(entities, nodes, edges, ctx, item);
      TickedIsSelected(entities, nodes, edges, ctx, item.edge.fromRef);
      TickedIsSelected(entities, nodes, edges, ctx, item.edge.toRef);
    }
  }

  lemma ClosedIsTickedTogether(entities: seq<Entity>, nodes: seq<ProposedNode>, edges: seq<ProposedEdge>, ctx: Context)
    requires WellFormed(BuiltItems(entities, nodes, edges, ctx))
    requires var items := BuiltItems(entities, nodes, edges, ctx);
      DependencyClosed(items, AsSet(DefaultSelection(items)))
    ensures TickTogether(edges, Ticked(NodeItems(nodes)))
  {
    var items, ticked := BuiltItems(entities, nodes, edges, ctx), Ticked(NodeItems(nodes));
    forall e, f | e in edges && f in edges && e.tempId == f.tempId && IsTicked(e, ticked)
      ensures IsTicked(f, ticked)
    {
      EdgeIsItem(entities, nodes, edges, ctx, e);
      EdgeIsItem(entities, nodes, edges, ctx, f);
      hide Ticked, WellFormed;
      assert EdgeItem(e, ticked).selectedByDefault;
      assert f.tempId in AsSet(DefaultSelection(items));
      hide DefaultSelection, BuiltItems, AsSet;
      assert EdgeItem(f, ticked).NewEdge? && EdgeItem(f, ticked).edge == f && EdgeItem(f, ticked).id == f.tempId;
      SelectedIsTicked(entities, nodes, edges, ctx, f.fromRef);
      SelectedIsTicked(entities, nodes, edges, ctx, f.toRef);
    }
  }

  lemma EdgeIsItem(entities: seq<Entity>, nodes: seq<ProposedNode>, edges: seq<ProposedEdge>, ctx: Context,
                   e: ProposedEdge)
    requires e in edges
    ensures EdgeItem(e, Ticked(NodeItems(nodes))) in BuiltItems(entities, nodes, edges, ctx)
  {
    var i :| 0 <= i < |edges| && edges[i] == e;
    assert EdgeItems(edges, Ticked(NodeItems(nodes)))[i] == EdgeItem(e, Ticked(NodeItems(nodes)));
  }

  /** The default selection is dependency-closed exactly when edges sharing a temporary id are ticked together. */
  lemma DefaultSelectionIsClosedExactlyWhen(entities: seq<Entity>, nodes: seq<ProposedNode>, edges: seq<ProposedEdge>,
                                            ctx: Context)
    requires WellFormed(BuiltItems(entities, nodes, edges, ctx))
    ensures var items := BuiltItems(entities, nodes, edges, ctx);
      DependencyClosed(items, AsSet(DefaultSelection(items))) <==> TickTogether(edges, Ticked(NodeItems(nodes)))
  {
    var items := BuiltItems(entities, nodes, edges, ctx);
    if TickTogether(edges, Ticked(NodeItems(nodes))) { TickedTogetherIsClosed(entities, nodes, edges, ctx); }
    if DependencyClosed(items, AsSet(DefaultSelection(items))) { ClosedIsTickedTogether(entities, nodes, edges, ctx); }
  }

  /** Edges that agree on their ends are ticked together. */
  lemma AgreeingEdgesTickTogether(edges: seq<ProposedEdge>, ticked: set<string>)
    requires SharedIdsAgree(edges)
    ensures TickTogether(edges, ticked)
  {
  }

  /** Relations whose temporary ids collide only when they join the same identities give agreeing edges. */
  lemma {:induction false} NoCollisionsAgree(relations: seq<Relation>, byKey: map<string, ProposedNode>, ctx: Context)
    requires forall r, s :: r in relations && s in relations && EdgeTempId(r, ctx) == EdgeTempId(s, ctx) ==>
      r.fromKey == s.fromKey && r.toKey == s.toKey
    ensures SharedIdsAgree(Related(relations, byKey, ctx))
  {
    var edges := Related(relations, byKey, ctx);
    forall e, f | e in edges && f in edges && e.tempId == f.tempId
      ensures e.fromRef == f.fromRef && e.toRef == f.toRef
    {
      var r := RelationOf(relations, byKey, ctx, e);
      var s := RelationOf(relations, byKey, ctx, f);
    }
  }

  lemma {:induction false} RelationOf(relations: seq<Relation>, byKey: map<string, ProposedNode>, ctx: Context,
                                      e: ProposedEdge)
    returns (r: Relation)
    requires e in Related(relations, byKey, ctx)
    ensures r in relations && EdgesOf(r, byKey, ctx) == [e]
  {
    var last := relations[|relations| - 1];
    if e in Related(relations[..|relations| - 1], byKey, ctx) {
      r := RelationOf(relations[..|relations| - 1], byKey, ctx, e);
    } else {
      r := last;
    }
  }
}
