/** Which nodes the edges of an import join: the ones their relations name, as long as temporary ids tell nodes apart.
  */
module EdgeEnds {
  import opened Applier
  import opened Imports
  import opened Options
  import opened Proposals

  /** The last of the node items with this temporary id. */
  function LastNamed(nodeItems: seq<Item>, t: string): Option<nat> {
    if nodeItems == [] then None
    else
      var n := |nodeItems| - 1;
      if nodeItems[n].NewNode? && nodeItems[n].node.tempId == t then Some(n) else LastNamed(nodeItems[..n], t)
  }

  lemma {:induction false} LastNamedMeans(nodeItems: seq<Item>, t: string)
    ensures match LastNamed(nodeItems, t)
      case Some(k) => k < |nodeItems| && nodeItems[k].NewNode? && nodeItems[k].node.tempId == t
      case None => forall item :: item in nodeItems && item.NewNode? ==> item.node.tempId != t
  {
    if nodeItems != [] {
      var n := |nodeItems| - 1;
      LastNamedMeans(nodeItems[..n], t);
      assert nodeItems == nodeItems[..n] + [nodeItems[n]];
    }
  }

  /** Of node items that share a temporary id, the id map keeps the last. */
  lemma {:induction false} IdMapKeepsLast(env: Env, nodeItems: seq<Item>, t: string)
    requires forall item :: item in nodeItems ==> item.NewNode?
    ensures var tempIds := Fold(env, Start(env.applied), nodeItems).tempIds;
      match LastNamed(nodeItems, t)
      case Some(k) => t in tempIds && tempIds[t] == env.newId(k)
      case None => t in tempIds ==> t in env.applied && tempIds[t] == env.applied[t]
  {
    if nodeItems != [] {
      var n := |nodeItems| - 1;
      var front := nodeItems[..n];
      assert nodeItems[n] in nodeItems;
      IdMapKeepsLast(env, front, t);
      NodePass(env, front);
      CallsSoFar(env, front, Fold(env, Start(env.applied), front));
      hide AfterNodes, MakeNode, Calls;
      assert Fold(env, Start(env.applied), nodeItems) == AddNode(env, Fold(env, Start(env.applied), front), nodeItems[n]);
    }
  }

  lemma CallsSoFar(env: Env, nodeItems: seq<Item>, st: Progress)
    requires AfterNodes(env, nodeItems, st)
    ensures Calls(st) == |nodeItems|
  {
    hide MakeNode, StandsFor, Known;
  }

  /** A node of the board that carries this identity. */
  predicate Carries(board: map<NodeId, BoardNode>, id: NodeId, key: string) {
    id in board && IDENTITY in board[id].data && board[id].data[IDENTITY] == Atom(key)
  }

  lemma MadeCarries(n: ProposedNode)
    ensures IDENTITY in MakeNode(n).data && MakeNode(n).data[IDENTITY] == Atom(n.identityKey)
  {
    assert IDENTITY[2] != PROVENANCE[2];
  }

  /** What a reference of a created edge became: the existing node, the node applied before, or the node made from the
    * last selected item with its temporary id, which carries that item's identity.
    */
  ghost predicate EndMeans(env: Env, nodeItems: seq<Item>, board: map<NodeId, BoardNode>, ref: Ref, end: NodeId) {
    match ref
    case Existing(nodeId) => end == nodeId
    case Temp(t) =>
      match LastNamed(nodeItems, t)
      case None => t in env.applied && end == env.applied[t]
      case Some(k) =>
        k < |nodeItems| && nodeItems[k].NewNode? && end == env.newId(k) && Carries(board, end, nodeItems[k].node.identityKey)
  }

  /** The k-th selected node item is on the board, under the k-th new id. */
  lemma MadeNodeIsOnBoard(env: Env, items: seq<Item>, selected: set<string>, k: nat)
    requires WellFormed(items) && FreshIds(env, |Collected(env, items, selected).newNodes|)
    requires k < |Chosen(items, NodeKind, selected, env.applied.Keys)|
    ensures Tracks(env, Collected(env, items, selected))
    ensures var item := Chosen(items, NodeKind, selected, env.applied.Keys)[k];
      item.NewNode? && Carries(NodesAfter(env, Collected(env, items, selected)), env.newId(k), item.node.identityKey)
  {
    var nodes := Chosen(items, NodeKind, selected, env.applied.Keys);
    BoardIsKept(env, items, selected);
    EveryItemIsAccountedFor(env, items, selected);
    MadeCarries(nodes[k].node);
    hide Collected, WellFormed, NodesAfter, FreshIds, Chosen, Later, Making, Report, Touched, EdgesMade, AgreeOnNodes,
         LaterWork, IdsOf, Tracks, Fold, Known, MakeNode;
    var st := Collected(env, items, selected);
    assert st.newNodes[k] == CreatedNode(env.newId(k), MakeNode(nodes[k].node));
  }

  lemma EndIsMeant(env: Env, items: seq<Item>, selected: set<string>, ref: Ref)
    requires WellFormed(items) && FreshIds(env, |Collected(env, items, selected).newNodes|)
    requires var nodes := Chosen(items, NodeKind, selected, env.applied.Keys);
      RefMet(env, Known(env.applied.Keys, nodes), ref)
    ensures Tracks(env, Collected(env, items, selected))
    ensures var nodes := Chosen(items, NodeKind, selected, env.applied.Keys);
      EndMeans(env, nodes, NodesAfter(env, Collected(env, items, selected)), ref,
               EndOf(Fold(env, Start(env.applied), nodes).tempIds, ref))
  {
    var nodes := Chosen(items, NodeKind, selected, env.applied.Keys);
    CollectedTracks(env, items, selected);
    NodePass(env, nodes);
    assert Fold(env, Start(env.applied), nodes).tempIds.Keys == Known(env.applied.Keys, nodes);
    hide Collected, WellFormed, NodesAfter, FreshIds, Chosen, Tracks, Fold, Known, Carries, AfterNodes;
    if ref.Temp? {
      IdMapKeepsLast(env, nodes, ref.tempId);
      LastNamedMeans(nodes, ref.tempId);
      if LastNamed(nodes, ref.tempId).Some? {
        MadeNodeIsOnBoard(env, items, selected, LastNamed(nodes, ref.tempId).value);
      }
    }
  }

  /** Both ends of every created edge, for any well-formed proposal and selection. */
  lemma CreatedEdgeEnds(env: Env, items: seq<Item>, selected: set<string>, k: nat)
    requires WellFormed(items) && FreshIds(env, |Collected(env, items, selected).newNodes|)
    requires k < |Collected(env, items, selected).newEdges|
    ensures Tracks(env, Collected(env, items, selected))
    ensures var applied := env.applied.Keys;
      var nodes, st := Chosen(items, NodeKind, selected, applied), Collected(env, items, selected);
      var made := Making(env, Known(applied, nodes), Chosen(items, EdgeKind, selected, applied));
      && k < |made| && made[k].NewEdge? && made[k] in items
      && st.newEdges[k].edge.edgeType == made[k].edge.edgeType
      && EndMeans(env, nodes, NodesAfter(env, st), made[k].edge.fromRef, st.newEdges[k].edge.source)
      && EndMeans(env, nodes, NodesAfter(env, st), made[k].edge.toRef, st.newEdges[k].edge.target)
  {
    var applied := env.applied.Keys;
    var nodes, edges := Chosen(items, NodeKind, selected, applied), Chosen(items, EdgeKind, selected, applied);
    EveryItemIsAccountedFor(env, items, selected);
    ChosenEdges(items, selected, applied);
    var known, made := Known(applied, nodes), Making(env, Known(applied, nodes), edges);
    MakingMembers(env, known, edges);
    assert made[k] in made;
    hide Collected, WellFormed, NodesAfter, FreshIds, Chosen, Later, Making, Report, Touched, AgreeOnNodes, NodesMade,
         LaterWork, IdsOf, Tracks, Fold, Known, EndOf, EndMeans, RefMet;
    MadeRefsAreMet(env, known, edges, k);
    EndIsMeant(env, items, selected, made[k].edge.fromRef);
    EndIsMeant(env, items, selected, made[k].edge.toRef);
  }

  // ---------------------------------------------------------------- a whole import

  /** The node an identity should lead to: the one the board has for it, or one that carries it. */
  predicate EndsAt(ctx: Context, board: map<NodeId, BoardNode>, id: NodeId, key: string) {
    match ctx.resolve(key)
    case Some(nodeId) => id == nodeId
    case None => Carries(board, id, key)
  }

  /** The selected node that stands for a key has that key. */
  ghost predicate RightNode(nodeItems: seq<Item>, ctx: Context, key: string) {
    match ctx.resolve(key)
    case Some(_) => true
    case None =>
      match LastNamed(nodeItems, NodeTempId(key, ctx))
      case None => false
      case Some(k) => k < |nodeItems| && nodeItems[k].NewNode? && nodeItems[k].node.identityKey == key
  }

  lemma RefOfKey(entities: seq<Entity>, ctx: Context, key: string)
    requires RefFor(key, ByKey(Mapped(entities, ctx)), ctx).Some?
    ensures RefFor(key, ByKey(Mapped(entities, ctx)), ctx).value ==
      match ctx.resolve(key) case Some(nodeId) => Existing(nodeId) case None => Temp(NodeTempId(key, ctx))
  {
    var nodes := Mapped(entities, ctx);
    OneNodePerNewIdentity(entities, ctx);
    ByKeyMembers(nodes);
    hide ByKey, Mapped;
    assert key in ByKey(nodes) ==> HasKey(nodes, key) && ctx.resolve(key).None?;
    if key in ByKey(nodes) {
      var n := ByKey(nodes)[key];
      var k :| FirstWithKey(entities, k) && n == NodeFor(entities[k], ctx);
    }
  }

  lemma EndIsRightExactlyWhen(env: Env, nodeItems: seq<Item>, board: map<NodeId, BoardNode>, ctx: Context, key: string,
                              end: NodeId)
    requires env.applied == map[]
    requires EndMeans(env, nodeItems, board,
                      match ctx.resolve(key) case Some(nodeId) => Existing(nodeId) case None => Temp(NodeTempId(key, ctx)), end)
    ensures EndsAt(ctx, board, end, key) <==> RightNode(nodeItems, ctx, key)
  {
  }

  /** No two proposed nodes share a temporary id. */
  ghost predicate TempIdsTellApart(nodes: seq<ProposedNode>) {
    forall m, n :: m in nodes && n in nodes && m.tempId == n.tempId ==> m == n
  }

  lemma ToldApartIsRight(entities: seq<Entity>, ctx: Context, nodeItems: seq<Item>, key: string)
    requires TempIdsTellApart(Mapped(entities, ctx)) && HasKey(Mapped(entities, ctx), key)
    requires forall item :: item in nodeItems && item.NewNode? ==> item.node in Mapped(entities, ctx)
    requires LastNamed(nodeItems, NodeTempId(key, ctx)).Some?
    ensures RightNode(nodeItems, ctx, key)
  {
    var nodes := Mapped(entities, ctx);
    OneNodePerNewIdentity(entities, ctx);
    LastNamedMeans(nodeItems, NodeTempId(key, ctx));
    hide Mapped, LastNamed;
    var i :| 0 <= i < |nodes| && nodes[i].identityKey == key;
    var n := nodes[i];
    assert n in nodes;
    var k :| FirstWithKey(entities, k) && n == NodeFor(entities[k], ctx);
    var j := LastNamed(nodeItems, NodeTempId(key, ctx)).value;
    assert nodeItems[j] in nodeItems;
  }

  lemma BuiltNodesAreMapped(entities: seq<Entity>, nodes: seq<ProposedNode>, edges: seq<ProposedEdge>, ctx: Context)
    ensures forall item :: item in BuiltItems(entities, nodes, edges, ctx) && item.NewNode? ==> item.node in nodes
  {
    MergedNamed(ctx, entities);
    hide Merged, Ticked;
    forall item | item in BuiltItems(entities, nodes, edges, ctx) && item.NewNode?
      ensures item.node in nodes
    {
      assert item !in EdgeItems(edges, Ticked(NodeItems(nodes)));
      var nodeItems := NodeItems(nodes);
      var i :| 0 <= i < |nodeItems| && nodeItems[i] == item;
      assert item == NodeItem(nodes[i]);
    }
  }

  /** One created edge against the relation it came from: it has its kind, and either end is the right node exactly
    * when the last selected node with the temporary id of that identity has that identity.
    */
  ghost predicate CameFrom(r: Relation, ctx: Context, board: map<NodeId, BoardNode>, nodeItems: seq<Item>, edge: BoardEdge) {
    && edge.edgeType == r.kind
    && (EndsAt(ctx, board, edge.source, r.fromKey) <==> RightNode(nodeItems, ctx, r.fromKey))
    && (EndsAt(ctx, board, edge.target, r.toKey) <==> RightNode(nodeItems, ctx, r.toKey))
  }

  /** One end of an edge: right exactly when its node item is, and that it is when temporary ids tell nodes apart. */
  lemma OneEnd(entities: seq<Entity>, ctx: Context, env: Env, nodeItems: seq<Item>, board: map<NodeId, BoardNode>, key: string,
               end: NodeId)
    requires env.applied == map[] && RefFor(key, ByKey(Mapped(entities, ctx)), ctx).Some?
    requires EndMeans(env, nodeItems, board, RefFor(key, ByKey(Mapped(entities, ctx)), ctx).value, end)
    requires forall item :: item in nodeItems && item.NewNode? ==> item.node in Mapped(entities, ctx)
    ensures EndsAt(ctx, board, end, key) <==> RightNode(nodeItems, ctx, key)
    ensures TempIdsTellApart(Mapped(entities, ctx)) ==> RightNode(nodeItems, ctx, key)
  {
    RefOfKey(entities, ctx, key);
    RefForIsKnown(key, Mapped(entities, ctx), ctx);
    hide ByKey, Mapped, TempIdsTellApart, RefFor;
    EndIsRightExactlyWhen(env, nodeItems, board, ctx, key, end);
    if TempIdsTellApart(Mapped(entities, ctx)) && ctx.resolve(key).None? {
      ToldApartIsRight(entities, ctx, nodeItems, key);
    }
  }

  /** From extraction to board: every created edge comes from a relation. When temporary ids tell the proposed nodes
    * apart its ends are the nodes of the relation's identities; and without that either end is right exactly when the
    * last selected node with that temporary id has the identity.
    */
  lemma EdgesJoinTheirIdentities(entities: seq<Entity>, relations: seq<Relation>, ctx: Context, env: Env, selected: set<string>,
                                 k: nat) returns (r: Relation)
    requires env.applied == map[]
    requires var nodes := Mapped(entities, ctx);
      var items := BuiltItems(entities, nodes, Related(relations, ByKey(nodes), ctx), ctx);
      && FreshIds(env, |Collected(env, items, selected).newNodes|)
      && k < |Collected(env, items, selected).newEdges|
    ensures var nodes := Mapped(entities, ctx);
      var items := BuiltItems(entities, nodes, Related(relations, ByKey(nodes), ctx), ctx);
      var st := Collected(env, items, selected);
      && Tracks(env, st) && r in relations
      && CameFrom(r, ctx, NodesAfter(env, st), Chosen(items, NodeKind, selected, {}), st.newEdges[k].edge)
      && (TempIdsTellApart(nodes) ==>
            EndsAt(ctx, NodesAfter(env, st), st.newEdges[k].edge.source, r.fromKey)
            && EndsAt(ctx, NodesAfter(env, st), st.newEdges[k].edge.target, r.toKey))
  {
    var nodes := Mapped(entities, ctx);
    var edges := Related(relations, ByKey(nodes), ctx);
    var items := BuiltItems(entities, nodes, edges, ctx);
    BuiltIsWellFormed(entities, relations, ctx);
    assert env.applied.Keys == {};
    CreatedEdgeEnds(env, items, selected, k);
    var chosen, st := Chosen(items, NodeKind, selected, {}), Collected(env, items, selected);
    var made := Making(env, Known({}, chosen), Chosen(items, EdgeKind, selected, {}));
    BuiltNodesAreMapped(entities, nodes, edges, ctx);
    hide Collected, WellFormed, NodesAfter, FreshIds, Chosen, Making, Known, BuiltItems, EndMeans, Tracks, EndsAt, RightNode,
         TempIdsTellApart;
    EdgeItemsAreEdges(entities, nodes, edges, ctx, made[k]);
    r := RelationOf(relations, ByKey(nodes), ctx, made[k].edge);
    hide Related, Mapped, ByKey, RefFor;
    assert made[k].edge == [made[k].edge][0];
    OneEnd(entities, ctx, env, chosen, NodesAfter(env, st), r.fromKey, st.newEdges[k].edge.source);
    OneEnd(entities, ctx, env, chosen, NodesAfter(env, st), r.toKey, st.newEdges[k].edge.target);
  }
}
