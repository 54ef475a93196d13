/** Temporary ids of edges are hashed from a joined text, and identities may hold what joins it: two relations between
  * different things can share an id whatever the hash, and then the default selection need not be closed.
  */
module EdgeIds {
  import opened Options
  import opened Proposals

  const OWNS := "owns"
  const A := "organization:a"
  const B := "organization:b"
  const C := "organization:c"
  const A_OWNS_B := A + "|" + OWNS + "|" + B
  const B_OWNS_C := B + "|" + OWNS + "|" + C

  /** Four organizations, by name; the confidence in the last is low. */
  function Organizations(): seq<Entity> {
    [Entity(A, "organization", "a", [], "", 1.0), Entity(B_OWNS_C, "organization", "b|owns|organization:c", [], "", 1.0),
     Entity(A_OWNS_B, "organization", "a|owns|organization:b", [], "", 1.0), Entity(C, "organization", "c", [], "", 0.0)]
  }

  function Holdings(): seq<Relation> {
    [Relation(A, OWNS, B_OWNS_C, "", 1.0), Relation(A_OWNS_B, OWNS, C, "", 1.0)]
  }

  /** None of the four is on the board, provenance passes confidence on, and the hash tells the doubtful one from the
    * others.
    */
  ghost predicate Unknown(ctx: Context) {
    && (forall key :: key in [A, B_OWNS_C, A_OWNS_B, C] ==> ctx.resolve(key).None?)
    && (forall pointer, confidence :: ctx.provenanceFor(pointer, confidence).confidence == confidence)
    && ctx.hash(C) !in [ctx.hash(A), ctx.hash(B_OWNS_C), ctx.hash(A_OWNS_B)]
  }

  lemma JoinedAlike()
    ensures A + "|" + OWNS + "|" + B_OWNS_C == A_OWNS_B + "|" + OWNS + "|" + C
  {
    hide A, B, C, OWNS;
    JoinsAlike(A, OWNS, B, C);
  }

  lemma JoinsAlike(a: string, kind: string, b: string, c: string)
    ensures a + "|" + kind + "|" + (b + "|" + kind + "|" + c) == (a + "|" + kind + "|" + b) + "|" + kind + "|" + c
  {
  }

  /** In their order no two of the identities are equal. */
  lemma KeysDiffer()
    ensures var es := Organizations(); forall k, l :: 0 <= k < l < |es| ==> es[k].identityKey != es[l].identityKey
    ensures A != B_OWNS_C && A != A_OWNS_B && A != C && B_OWNS_C != A_OWNS_B && B_OWNS_C != C && A_OWNS_B != C
  {
    AllDiffer();
    hide A, B, C, A_OWNS_B, B_OWNS_C;
  }

  lemma AllDiffer()
    ensures A != B_OWNS_C && A != A_OWNS_B && A != C && B_OWNS_C != A_OWNS_B && B_OWNS_C != C && A_OWNS_B != C
  {
    assert |A| == |C| == 14 && |A_OWNS_B| == |B_OWNS_C| == 34;
    assert A[13] == 'a' && C[13] == 'c' && A_OWNS_B[13] == 'a' && B_OWNS_C[13] == 'b';
  }

  /** The node proposed for the i-th of them. */
  lemma ProposedFor(ctx: Context, i: nat)
    requires Unknown(ctx) && i < 4
    ensures NodeFor(Organizations()[i], ctx) in Mapped(Organizations(), ctx)
  {
    hide Mapped, A, B, C, A_OWNS_B, B_OWNS_C, Unknown, NodeFor;
    var es := Organizations();
    KeysDiffer();
    IsUnknown(ctx, i);
    OneNodePerNewIdentity(es, ctx);
    assert es[i] in es;
    var nodes, key := Mapped(es, ctx), es[i].identityKey;
    assert HasKey(nodes, key);
    var j :| 0 <= j < |nodes| && nodes[j].identityKey == key;
    FromFirst(es, ctx, nodes[j], i);
  }

  lemma IsUnknown(ctx: Context, i: nat)
    requires Unknown(ctx) && i < 4
    ensures ctx.resolve(Organizations()[i].identityKey).None?
  {
    hide A, B, C, A_OWNS_B, B_OWNS_C;
    var list := [A, B_OWNS_C, A_OWNS_B, C];
    assert list[i] == Organizations()[i].identityKey;
  }

  lemma FromFirst(entities: seq<Entity>, ctx: Context, n: ProposedNode, i: nat)
    requires n in Mapped(entities, ctx) && i < |entities| && n.identityKey == entities[i].identityKey
    requires forall k, l :: 0 <= k < l < |entities| ==> entities[k].identityKey != entities[l].identityKey
    ensures n == NodeFor(entities[i], ctx)
  {
    hide Mapped;
    OneNodePerNewIdentity(entities, ctx);
    var k :| FirstWithKey(entities, k) && n == NodeFor(entities[k], ctx);
  }

  lemma TickedMeans(nodes: seq<ProposedNode>, id: string)
    ensures id in Ticked(NodeItems(nodes)) <==>
      exists n :: n in nodes && n.tempId == id && n.provenance.confidence >= SELECTION_THRESHOLD
  {
    var items := NodeItems(nodes);
    if id in Ticked(items) {
      var item :| item in items && item.selectedByDefault && item.id == id;
      var i :| 0 <= i < |items| && items[i] == item;
      assert nodes[i] in nodes;
    }
    if n :| n in nodes && n.tempId == id && n.provenance.confidence >= SELECTION_THRESHOLD {
      var i :| 0 <= i < |nodes| && nodes[i] == n;
      assert items[i] in items;
    }
  }

  /** All are ticked but the doubtful one. */
  lemma TickedOrganizations(ctx: Context)
    requires Unknown(ctx)
    ensures var ticked := Ticked(NodeItems(Mapped(Organizations(), ctx)));
      && NodeTempId(A, ctx) in ticked && NodeTempId(B_OWNS_C, ctx) in ticked && NodeTempId(A_OWNS_B, ctx) in ticked
      && NodeTempId(C, ctx) !in ticked
  {
    var es := Organizations();
    var nodes := Mapped(es, ctx);
    hide Mapped, Ticked, A, C, A_OWNS_B, B_OWNS_C;
    forall i: nat | i < 3
      ensures NodeTempId(es[i].identityKey, ctx) in Ticked(NodeItems(nodes))
    {
      ProposedFor(ctx, i);
      TickedMeans(nodes, NodeTempId(es[i].identityKey, ctx));
    }
    assert es[0].identityKey == A && es[1].identityKey == B_OWNS_C && es[2].identityKey == A_OWNS_B;
    DoubtfulIsNotTicked(ctx);
  }

  lemma DoubtfulIsNotTicked(ctx: Context)
    requires Unknown(ctx)
    ensures NodeTempId(C, ctx) !in Ticked(NodeItems(Mapped(Organizations(), ctx)))
  {
    var es := Organizations();
    var nodes, id := Mapped(es, ctx), NodeTempId(C, ctx);
    TickedMeans(nodes, id);
    OneNodePerNewIdentity(es, ctx);
    hide Mapped, Ticked, A, C, A_OWNS_B, B_OWNS_C;
    forall n | n in nodes && n.tempId == id
      ensures n.provenance.confidence < SELECTION_THRESHOLD
    {
      var k :| FirstWithKey(es, k) && n == NodeFor(es[k], ctx);
      assert n.tempId[2..] == ctx.hash(es[k].identityKey) && id[2..] == ctx.hash(C);
      assert k == 3;
    }
  }

  lemma RefToProposed(entities: seq<Entity>, ctx: Context, e: Entity)
    requires e in entities && ctx.resolve(e.identityKey).None?
    ensures RefFor(e.identityKey, ByKey(Mapped(entities, ctx)), ctx) == Some(Temp(NodeTempId(e.identityKey, ctx)))
  {
    var nodes, key := Mapped(entities, ctx), e.identityKey;
    OneNodePerNewIdentity(entities, ctx);
    ByKeyMembers(nodes);
    hide Mapped, ByKey;
    assert HasKey(nodes, key);
    var n := ByKey(nodes)[key];
    var k :| FirstWithKey(entities, k) && n == NodeFor(entities[k], ctx);
  }

  lemma RelatedPair(r: Relation, s: Relation, byKey: map<string, ProposedNode>, ctx: Context)
    ensures Related([r, s], byKey, ctx) == EdgesOf(r, byKey, ctx) + EdgesOf(s, byKey, ctx)
  {
    assert [r, s][..1] == [r] && [r][..0] == [];
    assert Related([r], byKey, ctx) == [] + EdgesOf(r, byKey, ctx);
  }

  function Link(source: string, target: string, ctx: Context): ProposedEdge {
    EdgeFor(Relation(source, OWNS, target, "", 1.0), Temp(NodeTempId(source, ctx)), Temp(NodeTempId(target, ctx)), ctx)
  }

  /** Both edges are proposed, under one id. */
  lemma BothProposed(ctx: Context)
    requires Unknown(ctx)
    ensures var edges := Related(Holdings(), ByKey(Mapped(Organizations(), ctx)), ctx);
      edges == [Link(A, B_OWNS_C, ctx), Link(A_OWNS_B, C, ctx)]
    ensures Link(A, B_OWNS_C, ctx).tempId == Link(A_OWNS_B, C, ctx).tempId
  {
    var es, list := Organizations(), [A, B_OWNS_C, A_OWNS_B, C];
    JoinedAlike();
    hide Mapped, ByKey, A, C, A_OWNS_B, B_OWNS_C, Related, RefFor;
    forall i: nat | i < 4
      ensures RefFor(list[i], ByKey(Mapped(es, ctx)), ctx) == Some(Temp(NodeTempId(list[i], ctx)))
    {
      assert list[i] == es[i].identityKey && list[i] in list;
      RefToProposed(es, ctx, es[i]);
    }
    assert list[0] == A && list[1] == B_OWNS_C && list[2] == A_OWNS_B && list[3] == C;
    RelatedPair(Holdings()[0], Holdings()[1], ByKey(Mapped(es, ctx)), ctx);
  }

  lemma TickedApart(ctx: Context)
    requires Unknown(ctx)
    ensures var nodes := Mapped(Organizations(), ctx);
      !TickTogether(Related(Holdings(), ByKey(nodes), ctx), Ticked(NodeItems(nodes)))
  {
    var nodes := Mapped(Organizations(), ctx);
    BothProposed(ctx);
    TickedOrganizations(ctx);
    hide Mapped, ByKey, Related, Ticked, A, C, A_OWNS_B, B_OWNS_C, Unknown, EdgeTempId;
    var edges, e, f := Related(Holdings(), ByKey(nodes), ctx), Link(A, B_OWNS_C, ctx), Link(A_OWNS_B, C, ctx);
    assert edges[0] == e && edges[1] == f;
    assert IsTicked(e, Ticked(NodeItems(nodes))) && !IsTicked(f, Ticked(NodeItems(nodes)));
  }

  /** Whatever the hash, the default selection of this extraction is not closed: it ticks the one edge, and the other
    * with it, but not the doubtful node that the other needs.
    */
  lemma JoinedIdsBreakClosure(ctx: Context)
    requires Unknown(ctx)
    ensures var nodes := Mapped(Organizations(), ctx);
      var items := BuiltItems(Organizations(), nodes, Related(Holdings(), ByKey(nodes), ctx), ctx);
      !DependencyClosed(items, AsSet(DefaultSelection(items)))
  {
    var nodes := Mapped(Organizations(), ctx);
    TickedApart(ctx);
    hide *;
    BuiltIsWellFormed(Organizations(), Holdings(), ctx);
    DefaultSelectionIsClosedExactlyWhen(Organizations(), nodes, Related(Holdings(), ByKey(nodes), ctx), ctx);
  }

  /** A board that knows none of them, and the hash that changes nothing. */
  function PlainContext(): Context {
    Context((key: string) => None, (pointer: string, confidence: real) => Provenance("tool", "run", pointer, confidence),
            (text: string) => text, (e: Entity, p: Prop) => SkipField)
  }

  lemma PlainContextIsUnknown()
    ensures Unknown(PlainContext())
  {
    KeysDiffer();
  }
}
