/** What the mappers propose, entry by entry: which entities and relations, in which order, and with what in every
  * field.
  */
module Mapping {
  import opened Options
  import opened Positions
  import opened Proposals

  // ---------------------------------------------------------------- nodes

  /** The node proposed for an entity. */
  ghost predicate StandsForEntity(n: ProposedNode, e: Entity, ctx: Context) {
    && n.identityKey == e.identityKey && n.nodeType == e.nodeType && n.title == e.title && n.props == e.props
    && n.tempId == "n:" + ctx.hash(e.identityKey)
    && n.provenance == ctx.provenanceFor(e.pointer, e.confidence)
  }

  /** The first entity of each identity that the board does not have. */
  ghost predicate NewFirst(entities: seq<Entity>, k: nat, ctx: Context) {
    FirstWithKey(entities, k) && ctx.resolve(entities[k].identityKey).None?
  }

  ghost predicate NodesFrom(entities: seq<Entity>, ctx: Context, nodes: seq<ProposedNode>, from: seq<nat>) {
    && |from| == |nodes| && Increasing(from)
    && (forall k: nat :: k in from <==> NewFirst(entities, k, ctx))
    && (forall i :: 0 <= i < |nodes| ==> from[i] < |entities| && StandsForEntity(nodes[i], entities[from[i]], ctx))
  }

  /** The nodes are those of the first entity of each new identity, in the order of the entities. */
  lemma {:induction false} NodesAreExact(entities: seq<Entity>, ctx: Context) returns (from: seq<nat>)
    ensures NodesFrom(entities, ctx, Mapped(entities, ctx), from)
  {
    if entities == [] {
      from := [];
    } else {
      var front, e := entities[..|entities| - 1], entities[|entities| - 1];
      from := NodesAreExact(front, ctx);
      assert entities == front + [e];
      NextIsNew(front, e, ctx);
      var taken := ctx.resolve(e.identityKey).Some? || HasKey(Mapped(front, ctx), e.identityKey);
      hide FirstWithKey, StandsForEntity, NodeFor, HasKey;
      NodeStands(e, ctx);
      OneMoreNode(front, e, ctx, Mapped(front, ctx), from, taken);
      if !taken { from := from + [|front|]; }
    }
  }

  lemma NodeStands(e: Entity, ctx: Context)
    ensures StandsForEntity(NodeFor(e, ctx), e, ctx)
  {
  }

  lemma NextIsNew(front: seq<Entity>, e: Entity, ctx: Context)
    ensures NewFirst(front + [e], |front|, ctx) <==>
      ctx.resolve(e.identityKey).None? && !HasKey(Mapped(front, ctx), e.identityKey)
    ensures forall k: nat :: k < |front| ==> (NewFirst(front + [e], k, ctx) <==> NewFirst(front, k, ctx))
  {
    var all := front + [e];
    OneNodePerNewIdentity(front, ctx);
    hide Mapped, HasKey;
    assert all[|front|] == e;
    assert (forall j :: 0 <= j < |front| ==> front[j].identityKey != e.identityKey) <==>
      !exists f :: f in front && f.identityKey == e.identityKey;
    assert forall j :: 0 <= j < |front| ==> all[j] == front[j];
  }

  lemma OneMoreNode(front: seq<Entity>, e: Entity, ctx: Context, nodes: seq<ProposedNode>, from: seq<nat>, taken: bool)
    requires NodesFrom(front, ctx, nodes, from) && StandsForEntity(NodeFor(e, ctx), e, ctx)
    requires NewFirst(front + [e], |front|, ctx) <==> !taken
    requires forall k: nat :: k < |front| ==> (NewFirst(front + [e], k, ctx) <==> NewFirst(front, k, ctx))
    ensures taken ==> NodesFrom(front + [e], ctx, nodes, from)
    ensures !taken ==> NodesFrom(front + [e], ctx, nodes + [NodeFor(e, ctx)], from + [|front|])
  {
    hide StandsForEntity, NodeFor;
    assert forall k: nat :: NewFirst(front + [e], k, ctx) ==> k < |front + [e]|;
    assert forall k: nat :: NewFirst(front, k, ctx) ==> k < |front|;
    hide NewFirst;
    assert forall k: nat :: k in from ==> k < |front|;
    forall k: nat
      ensures k in from + [|front|] <==> k in from || k == |front|
    {
    }
  }

  // ---------------------------------------------------------------- edges

  /** What an end of a relation refers to: the node proposed for its identity, unless the board has one. */
  ghost predicate EndRefers(ref: Ref, key: string, ctx: Context) {
    match ctx.resolve(key)
    case None => ref == Temp("n:" + ctx.hash(key))
    case Some(nodeId) => ref == Existing(nodeId)
  }

  ghost predicate StandsForRelation(e: ProposedEdge, r: Relation, ctx: Context) {
    && e.tempId == "e:" + ctx.hash(r.fromKey + "|" + r.kind + "|" + r.toKey)
    && e.edgeType == r.kind
    && e.provenance == ctx.provenanceFor(r.pointer, r.confidence)
    && EndRefers(e.fromRef, r.fromKey, ctx) && EndRefers(e.toRef, r.toKey, ctx)
  }

  ghost predicate BothKnown(relations: seq<Relation>, k: nat, entities: seq<Entity>, ctx: Context) {
    k < |relations| && Identified(relations[k].fromKey, entities, ctx) && Identified(relations[k].toKey, entities, ctx)
  }

  ghost predicate EdgesFrom(relations: seq<Relation>, entities: seq<Entity>, ctx: Context, edges: seq<ProposedEdge>,
                            from: seq<nat>)
  {
    && |from| == |edges| && Increasing(from)
    && (forall k: nat :: k in from <==> BothKnown(relations, k, entities, ctx))
    && (forall i :: 0 <= i < |edges| ==> from[i] < |relations| && StandsForRelation(edges[i], relations[from[i]], ctx))
  }

  lemma EndIsRight(key: string, entities: seq<Entity>, ctx: Context)
    ensures var ref := RefFor(key, ByKey(Mapped(entities, ctx)), ctx);
      && (ref.Some? <==> Identified(key, entities, ctx))
      && (ref.Some? ==> EndRefers(ref.value, key, ctx))
  {
    var nodes := Mapped(entities, ctx);
    OneNodePerNewIdentity(entities, ctx);
    ByKeyMembers(nodes);
    RefForIsKnown(key, nodes, ctx);
    hide Mapped, ByKey, HasKey, FirstWithKey, RefIsKnown;
    assert HasKey(nodes, key) || ctx.resolve(key).Some? <==> Identified(key, entities, ctx);
    if key in ByKey(nodes) {
      var n := ByKey(nodes)[key];
      assert n in nodes;
    }
  }

  lemma EdgeStands(r: Relation, entities: seq<Entity>, ctx: Context)
    ensures var made := EdgesOf(r, ByKey(Mapped(entities, ctx)), ctx);
      if Identified(r.fromKey, entities, ctx) && Identified(r.toKey, entities, ctx) then
        |made| == 1 && StandsForRelation(made[0], r, ctx)
      else made == []
  {
    EndIsRight(r.fromKey, entities, ctx);
    EndIsRight(r.toKey, entities, ctx);
    hide RefFor, ByKey, Mapped, Identified, EndRefers;
  }

  /** The edges are those of the relations whose two identities are known, in the order of the relations. */
  lemma {:induction false} EdgesAreExact(relations: seq<Relation>, entities: seq<Entity>, ctx: Context) returns (from: seq<nat>)
    ensures EdgesFrom(relations, entities, ctx, Related(relations, ByKey(Mapped(entities, ctx)), ctx), from)
  {
    if relations == [] {
      from := [];
    } else {
      var front, r := relations[..|relations| - 1], relations[|relations| - 1];
      from := EdgesAreExact(front, entities, ctx);
      assert relations == front + [r];
      EdgeStands(r, entities, ctx);
      hide EdgesOf, ByKey, Mapped, Identified, StandsForRelation, Related;
      var byKey := ByKey(Mapped(entities, ctx));
      RelatedSnoc(front, r, byKey, ctx);
      OneMoreEdge(front, r, entities, ctx, Related(front, byKey, ctx), from, EdgesOf(r, byKey, ctx));
      if EdgesOf(r, byKey, ctx) != [] { from := from + [|front|]; }
    }
  }

  lemma RelatedSnoc(front: seq<Relation>, r: Relation, byKey: map<string, ProposedNode>, ctx: Context)
    ensures Related(front + [r], byKey, ctx) == Related(front, byKey, ctx) + EdgesOf(r, byKey, ctx)
  {
    assert (front + [r])[..|front|] == front;
  }

  lemma OneMoreEdge(front: seq<Relation>, r: Relation, entities: seq<Entity>, ctx: Context, edges: seq<ProposedEdge>,
                    from: seq<nat>, made: seq<ProposedEdge>)
    requires EdgesFrom(front, entities, ctx, edges, from)
    requires if Identified(r.fromKey, entities, ctx) && Identified(r.toKey, entities, ctx) then
               |made| == 1 && StandsForRelation(made[0], r, ctx)
             else made == []
    ensures made == [] ==> EdgesFrom(front + [r], entities, ctx, edges + made, from)
    ensures made != [] ==> EdgesFrom(front + [r], entities, ctx, edges + made, from + [|front|])
  {
    hide StandsForRelation, Identified;
    var all := front + [r];
    assert forall k: nat :: k in from ==> k < |front|;
    forall k: nat
      ensures BothKnown(all, k, entities, ctx) <==> BothKnown(front, k, entities, ctx) || (k == |front| && made != [])
    {
      if k < |front| { assert all[k] == front[k]; }
    }
    hide BothKnown;
    forall k: nat
      ensures k in from + [|front|] <==> k in from || k == |front|
    {
    }
  }

  // ---------------------------------------------------------------- items

  /** Node items in order, ticked from a confidence of 0.6; then edge items in order, ticked if the nodes they need
    * are; then what the entities that the board has bring.
    */
  lemma ItemsAreExact(entities: seq<Entity>, nodes: seq<ProposedNode>, edges: seq<ProposedEdge>, ctx: Context)
    ensures var items := BuiltItems(entities, nodes, edges, ctx);
      && |items| == |nodes| + |edges| + |Merged(ctx, entities).items|
      && (forall i :: 0 <= i < |nodes| ==> items[i] == NewNode(nodes[i].tempId, nodes[i].provenance.confidence >= 0.6, nodes[i]))
      && (forall i :: 0 <= i < |edges| ==>
           items[|nodes| + i] ==
             NewEdge(edges[i].tempId, NeedsTicked(nodes, edges[i].fromRef) && NeedsTicked(nodes, edges[i].toRef), edges[i]))
      && items[|nodes| + |edges|..] == Merged(ctx, entities).items
  {
    hide Merged, RefIsTicked, NeedsTicked, Ticked, EdgeItem;
    var edgeItems := EdgeItems(edges, Ticked(NodeItems(nodes)));
    forall i | 0 <= i < |edges|
      ensures edgeItems[i] ==
        NewEdge(edges[i].tempId, NeedsTicked(nodes, edges[i].fromRef) && NeedsTicked(nodes, edges[i].toRef), edges[i])
    {
      EdgeIsTicked(nodes, edges[i]);
    }
  }

  lemma EdgeIsTicked(nodes: seq<ProposedNode>, e: ProposedEdge)
    ensures EdgeItem(e, Ticked(NodeItems(nodes))) == NewEdge(e.tempId, NeedsTicked(nodes, e.fromRef) && NeedsTicked(nodes, e.toRef), e)
  {
    TickedWhen(nodes, e.fromRef);
    TickedWhen(nodes, e.toRef);
    hide RefIsTicked, NeedsTicked, Ticked;
  }

  /** The reference is to a node of the board, or to a proposed one that is ticked. */
  ghost predicate NeedsTicked(nodes: seq<ProposedNode>, ref: Ref) {
    ref.Temp? ==> exists i :: 0 <= i < |nodes| && nodes[i].tempId == ref.tempId && nodes[i].provenance.confidence >= 0.6
  }

  lemma TickedWhen(nodes: seq<ProposedNode>, ref: Ref)
    ensures RefIsTicked(ref, Ticked(NodeItems(nodes))) <==> NeedsTicked(nodes, ref)
  {
    if ref.Temp? {
      var items := NodeItems(nodes);
      if ref.tempId in Ticked(items) {
        var item :| item in items && item.selectedByDefault && item.id == ref.tempId;
        var i :| 0 <= i < |items| && items[i] == item;
        assert nodes[i].tempId == ref.tempId;
      }
      if NeedsTicked(nodes, ref) {
        var i :| 0 <= i < |nodes| && nodes[i].tempId == ref.tempId && nodes[i].provenance.confidence >= 0.6;
        assert items[i].selectedByDefault && items[i] in items;
      }
    }
  }

  /** The fields about which the user is asked become conflicts, and those that are written become patches, each in
    * the order of the fields.
    */
  ghost predicate MergedFrom(ctx: Context, e: Entity, nodeId: NodeId, props: seq<Prop>, m: Merge, asked: seq<nat>,
                             written: seq<nat>)
  {
    AskedFrom(ctx, e, nodeId, props, m.items, asked) && WrittenFrom(ctx, e, props, m.patches, written)
  }

  ghost predicate AskedFrom(ctx: Context, e: Entity, nodeId: NodeId, props: seq<Prop>, items: seq<Item>, asked: seq<nat>) {
    && |asked| == |items| && Increasing(asked)
    && (forall k: nat :: k in asked <==> k < |props| && ctx.decide(e, props[k]).AskUser?)
    && (forall i :: 0 <= i < |asked| ==> asked[i] < |props| && IsConflict(ctx, e, nodeId, props[asked[i]], items[i]))
  }

  ghost predicate WrittenFrom(ctx: Context, e: Entity, props: seq<Prop>, patches: seq<FieldPatch>, written: seq<nat>) {
    && |written| == |patches| && Increasing(written)
    && (forall k: nat :: k in written <==> k < |props| && Writes(ctx.decide(e, props[k])))
    && (forall i :: 0 <= i < |written| ==> written[i] < |props| && IsPatch(ctx, e, props[written[i]], patches[i]))
  }

  predicate Writes(d: Decision) {
    d.SetField? || d.AddField?
  }

  ghost predicate IsConflict(ctx: Context, e: Entity, nodeId: NodeId, p: Prop, item: Item) {
    && ctx.decide(e, p).AskUser?
    && item.Conflict? && item.id == "c:" + nodeId + ":" + p.name && !item.selectedByDefault && item.target == nodeId
    && item.field == p.name && item.incoming == p.value && item.source == ctx.provenanceFor(e.pointer, e.confidence)
    && item.resolution == ctx.decide(e, p).resolution
  }

  ghost predicate IsPatch(ctx: Context, e: Entity, p: Prop, patch: FieldPatch) {
    && patch.path == "/" + p.name && patch.value == p.value
    && (ctx.decide(e, p).SetField? ==> patch.op.Set?) && (ctx.decide(e, p).AddField? ==> patch.op.AddToSet?)
  }

  lemma {:induction false} FieldsAreExact(ctx: Context, e: Entity, nodeId: NodeId, props: seq<Prop>)
    returns (asked: seq<nat>, written: seq<nat>)
    ensures MergedFrom(ctx, e, nodeId, props, MergeFields(ctx, e, nodeId, props), asked, written)
  {
    if props == [] {
      asked, written := [], [];
    } else {
      hide AskedFrom, WrittenFrom, MergeField, IsConflict, IsPatch, Writes;
      var front, p := props[..|props| - 1], props[|props| - 1];
      asked, written := FieldsAreExact(ctx, e, nodeId, front);
      assert props == front + [p];
      var m := MergeFields(ctx, e, nodeId, front);
      var item, patch := MergeFieldGoes(ctx, e, nodeId, m, p);
      OneMoreAsked(ctx, e, nodeId, front, p, m.items, asked, item);
      OneMoreWritten(ctx, e, front, p, m.patches, written, patch);
      if ctx.decide(e, p).AskUser? { asked := asked + [|front|]; }
      if Writes(ctx.decide(e, p)) { written := written + [|front|]; }
    }
  }

  lemma OneMoreAsked(ctx: Context, e: Entity, nodeId: NodeId, front: seq<Prop>, p: Prop, items: seq<Item>,
                     asked: seq<nat>, item: Item)
    requires AskedFrom(ctx, e, nodeId, front, items, asked)
    ensures !ctx.decide(e, p).AskUser? ==> AskedFrom(ctx, e, nodeId, front + [p], items, asked)
    ensures IsConflict(ctx, e, nodeId, p, item) ==> AskedFrom(ctx, e, nodeId, front + [p], items + [item], asked + [|front|])
  {
    var all := front + [p];
    assert forall k: nat :: k in asked ==> k < |front|;
    assert forall k: nat :: k < |front| ==> all[k] == front[k];
    assert all[|front|] == p;
    MorePositions(asked, |front|);
    if IsConflict(ctx, e, nodeId, p, item) { assert ctx.decide(e, p).AskUser?; }
    hide IsConflict, Increasing;
  }

  lemma OneMoreWritten(ctx: Context, e: Entity, front: seq<Prop>, p: Prop, patches: seq<FieldPatch>,
                       written: seq<nat>, patch: FieldPatch)
    requires WrittenFrom(ctx, e, front, patches, written)
    ensures !Writes(ctx.decide(e, p)) ==> WrittenFrom(ctx, e, front + [p], patches, written)
    ensures Writes(ctx.decide(e, p)) && IsPatch(ctx, e, p, patch) ==>
      WrittenFrom(ctx, e, front + [p], patches + [patch], written + [|front|])
  {
    var all := front + [p];
    assert forall k: nat :: k in written ==> k < |front|;
    assert forall k: nat :: k < |front| ==> all[k] == front[k];
    assert all[|front|] == p;
    MorePositions(written, |front|);
    hide IsPatch, Writes, Increasing;
  }

  /** Where one field goes. */
  lemma MergeFieldGoes(ctx: Context, e: Entity, nodeId: NodeId, m: Merge, p: Prop) returns (item: Item, patch: FieldPatch)
    ensures var d, m' := ctx.decide(e, p), MergeField(ctx, e, nodeId, m, p);
      && (d.SkipField? ==> m'.items == m.items && m'.patches == m.patches && !Writes(d))
      && (d.AskUser? ==> m'.items == m.items + [item] && IsConflict(ctx, e, nodeId, p, item) && m'.patches == m.patches && !Writes(d))
      && (Writes(d) ==> m'.items == m.items && m'.patches == m.patches + [patch] && IsPatch(ctx, e, p, patch))
      && (Writes(d) || d.AskUser? || d.SkipField?)
  {
    var m' := MergeField(ctx, e, nodeId, m, p);
    item := if |m'.items| > |m.items| then m'.items[|m.items|]
            else Conflict("", false, nodeId, "", Nothing, ctx.provenanceFor("", 0.0), Keep);
    patch := if |m'.patches| > |m.patches| then m'.patches[|m.patches|] else FieldPatch("", Set, Nothing);
    assert |m'.items| > |m.items| ==> m'.items == m.items + [item];
    assert |m'.patches| > |m.patches| ==> m'.patches == m.patches + [patch];
  }

  /** What one entity that the board has brings: its conflicts, and behind them one enrichment with all its patches,
    * if any.
    */
  ghost predicate Brings(ctx: Context, e: Entity, nodeId: NodeId, items: seq<Item>) {
    var m := MergeFields(ctx, e, nodeId, e.props);
    if m.patches == [] then items == m.items
    else
      && |items| == |m.items| + 1 && items[..|m.items|] == m.items
      && items[|m.items|] == Enrich("p:" + nodeId, true, nodeId, m.patches, ctx.provenanceFor(e.pointer, e.confidence))
  }

  /** Entity after entity, those that the board has bring their items, in order; the others bring none. */
  lemma MergedIsInOrder(ctx: Context, front: seq<Entity>, e: Entity)
    ensures var before, items := Merged(ctx, front).items, Merged(ctx, front + [e]).items;
      match ctx.resolve(e.identityKey)
      case None => items == before
      case Some(nodeId) => before <= items && Brings(ctx, e, nodeId, items[|before|..])
    ensures Merged(ctx, []).items == []
  {
    assert (front + [e])[..|front|] == front;
    hide MergeFields;
    if ctx.resolve(e.identityKey).Some? {
      var nodeId := ctx.resolve(e.identityKey).value;
      var before, m := Merged(ctx, front).items, MergeFields(ctx, e, nodeId, e.props);
      var enrich := if m.patches == [] then [] else [EnrichItem(ctx, e, nodeId, m.patches)];
      assert Merged(ctx, front + [e]).items == before + (m.items + enrich);
      assert (before + (m.items + enrich))[|before|..] == m.items + enrich;
    }
  }
}
