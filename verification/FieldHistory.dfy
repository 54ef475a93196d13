/** What becomes of each field of a node that an import writes to: its old value with the writes of the selected
  * items, one after the other; the history of the node is one such field.
  */
module FieldHistory {
  import opened Options
  import opened Proposals
  import opened Applier
  import opened Imports
  import opened ImportExact

  // ---------------------------------------------------------------- one field, write by write

  datatype Write = Put(value: Value) | Push(value: Value) | PushNew(value: Value) | Note(source: Provenance)

  function Lookup(data: Data, field: string): Option<Value> {
    if field in data then Some(data[field]) else None
  }

  /** What a field can be read as when something is added to it. */
  function Listed(was: Option<Value>): seq<Value> {
    match was
    case None => []
    case Some(Nothing) => []
    case Some(List(items)) => items
    case Some(other) => [other]
  }

  function Noted(was: Option<Value>): seq<Value> {
    match was
    case Some(List(items)) => items
    case _ => []
  }

  /** A history with one entry more; of more than fifty the first ones give way to their number. */
  function Grown(list: seq<Value>, entry: Value): seq<Value> {
    if |list| < 50 then list + [entry] else [Collapsed(|list| - 49)] + list[|list| - 49..] + [entry]
  }

  function Written(was: Option<Value>, w: Write): Option<Value> {
    match w
    case Put(value) => Some(value)
    case Push(value) => Some(List(Listed(was) + [value]))
    case PushNew(value) => if value in Listed(was) then was else Some(List(Listed(was) + [value]))
    case Note(source) => Some(List(Grown(Noted(was), Origin(source))))
  }

  function AllWritten(was: Option<Value>, ws: seq<Write>): Option<Value> {
    if ws == [] then was else Written(AllWritten(was, ws[..|ws| - 1]), ws[|ws| - 1])
  }

  lemma {:induction false} AllWrittenSplits(was: Option<Value>, a: seq<Write>, b: seq<Write>)
    ensures AllWritten(was, a + b) == AllWritten(AllWritten(was, a), b)
  {
    if b == [] {
      assert a + b == a;
    } else {
      AllWrittenSplits(was, a, b[..|b| - 1]);
      assert (a + b)[..|a + b| - 1] == a + b[..|b| - 1];
    }
  }

  // ---------------------------------------------------------------- what an item writes to a field

  /** A path names a field with or without a slash in front. */
  predicate Names(path: string, field: string) {
    path == "/" + field || (path == field && (field == "" || field[0] != '/'))
  }

  lemma NamesMeaning(path: string, field: string)
    ensures Names(path, field) <==> FieldName(path) == field
  {
    if path != "" { assert path == [path[0]] + path[1..]; }
    assert ("/" + field)[1..] == field;
  }

  /** The item writes to its node: it was not applied before, the node is there, and what is there need not stay. */
  predicate Counts(env: Env, item: Item) {
    item.id !in env.applied && TakesEffect(env, item)
  }

  function PatchWrites(patches: seq<FieldPatch>, field: string): seq<Write> {
    if patches == [] then []
    else
      var p := patches[|patches| - 1];
      PatchWrites(patches[..|patches| - 1], field) +
      if !Names(p.path, field) then []
      else match p.op
        case Set => [Put(p.value)]
        case Append => [Push(p.value)]
        case AddToSet => [PushNew(p.value)]
  }

  /** The writes of an item to a field of its target; each item also makes a note in the history. */
  function WritesOf(env: Env, item: Item, field: string): seq<Write>
    requires item.Enrich? || item.Conflict?
  {
    (if item.Enrich? then PatchWrites(item.patches, field)
     else if item.field != field then []
     else if Choice(env, item).Replace? then [Put(item.incoming)]
     else [PushNew(item.incoming)]) +
    if field == PROVENANCE then [Note(item.source)] else []
  }

  /** All writes to a field of one node, in the order in which the items are worked on. */
  function WritesTo(env: Env, work: seq<Item>, target: NodeId, field: string): seq<Write>
    requires LaterWork(work)
  {
    if work == [] then []
    else
      var item := work[|work| - 1];
      WritesTo(env, work[..|work| - 1], target, field) +
      if Counts(env, item) && item.target == target then WritesOf(env, item, field) else []
  }

  lemma PatchIsWrite(data: Data, p: FieldPatch, field: string)
    ensures Lookup(ApplyPatch(data, p), field) == AllWritten(Lookup(data, field), PatchWrites([p], field))
  {
    assert PatchWrites([p][..0], field) == [];
    NamesMeaning(p.path, field);
    hide FieldName, Names;
    if Names(p.path, field) {
      assert AsList(data, field) == Listed(Lookup(data, field));
    }
  }

  lemma {:induction false} PatchesAreWrites(data: Data, patches: seq<FieldPatch>, field: string)
    ensures Lookup(ApplyPatches(data, patches), field) == AllWritten(Lookup(data, field), PatchWrites(patches, field))
  {
    if patches != [] {
      var front, p := patches[..|patches| - 1], patches[|patches| - 1];
      PatchesAreWrites(data, front, field);
      PatchIsWrite(ApplyPatches(data, front), p, field);
      assert [p][..0] == [] && PatchWrites([], field) == [];
      assert PatchWrites(patches, field) == PatchWrites(front, field) + PatchWrites([p], field);
      AllWrittenSplits(Lookup(data, field), PatchWrites(front, field), PatchWrites([p], field));
      hide *;
    }
  }

  lemma OneWrite(was: Option<Value>, w: Write)
    ensures AllWritten(was, [w]) == Written(was, w)
    ensures AllWritten(was, []) == was
  {
    assert [w][..0] == [];
    hide Written;
  }

  lemma SettledIsWrite(env: Env, data: Data, item: Item, field: string)
    requires item.Conflict? && !Choice(env, item).Keep?
    ensures Lookup(Settled(data, item, Choice(env, item)), field) ==
      AllWritten(Lookup(data, field),
                 if item.field != field then []
                 else if Choice(env, item).Replace? then [Put(item.incoming)]
                 else [PushNew(item.incoming)])
  {
    var patch := FieldPatch("/" + item.field, AddToSet, item.incoming);
    assert ("/" + item.field)[1..] == item.field;
    PatchIsWrite(data, patch, field);
    assert [patch][..0] == [] && PatchWrites([], field) == [];
    OneWrite(Lookup(data, field), Put(item.incoming));
    hide ApplyPatch, Choice, Written;
  }

  lemma NoteIsWrite(data: Data, p: Provenance, field: string)
    ensures Lookup(data[PROVENANCE := List(AppendProvenance(data, p))], field) ==
      AllWritten(Lookup(data, field), if field == PROVENANCE then [Note(p)] else [])
  {
    ProvenanceIsKept(data, p);
    OneWrite(Lookup(data, field), Note(p));
    hide AppendProvenance;
    if field == PROVENANCE && |HistoryOf(data)| >= 50 {
      var was := HistoryOf(data);
      assert Grown(was, Origin(p)) == [Collapsed(|was| - 49)] + was[|was| - 49..] + [Origin(p)];
    }
  }

  /** One item of the last two passes. */
  lemma ItemIsWrites(env: Env, st: Progress, item: Item, target: NodeId, field: string)
    requires (item.Enrich? || item.Conflict?) && target in env.nodes
    ensures Lookup(DataOf(env, Step(env, st, item), target), field) ==
      AllWritten(Lookup(DataOf(env, st, target), field),
                 if Counts(env, item) && item.target == target then WritesOf(env, item, field) else [])
  {
    assert item.Conflict? ==> ResolutionOf(env, item) == Choice(env, item);
    hide ApplyPatches, Settled, AppendProvenance, Choice, ResolutionOf, Written, PatchWrites, AllWritten;
    var data := DataOf(env, st, target);
    OneWrite(Lookup(data, field), Note(item.source));
    if Counts(env, item) && item.target == target {
      var written := if item.Enrich? then ApplyPatches(data, item.patches) else Settled(data, item, Choice(env, item));
      if item.Enrich? { PatchesAreWrites(data, item.patches, field); } else { SettledIsWrite(env, data, item, field); }
      NoteIsWrite(written, item.source, field);
      var own := if item.Enrich? then PatchWrites(item.patches, field)
                 else if item.field != field then []
                 else if Choice(env, item).Replace? then [Put(item.incoming)]
                 else [PushNew(item.incoming)];
      AllWrittenSplits(Lookup(data, field), own, if field == PROVENANCE then [Note(item.source)] else []);
    }
  }

  lemma {:induction false} WorkIsWrites(env: Env, st: Progress, work: seq<Item>, target: NodeId, field: string)
    requires LaterWork(work) && target in env.nodes
    ensures Lookup(DataOf(env, Fold(env, st, work), target), field) ==
      AllWritten(Lookup(DataOf(env, st, target), field), WritesTo(env, work, target, field))
  {
    hide Step, DataOf, WritesOf, Counts, Lookup, AllWritten;
    OneWrite(Lookup(DataOf(env, st, target), field), Push(Nothing));
    if work != [] {
      var front, item := work[..|work| - 1], work[|work| - 1];
      assert item in work && work == front + [item];
      WorkIsWrites(env, st, front, target, field);
      ItemIsWrites(env, Fold(env, st, front), item, target, field);
      AllWrittenSplits(Lookup(DataOf(env, st, target), field), WritesTo(env, front, target, field),
                       if Counts(env, item) && item.target == target then WritesOf(env, item, field) else []);
    }
  }

  // ---------------------------------------------------------------- on the board

  /** The last two passes start from the data on the board. */
  lemma NothingWrittenYet(env: Env, items: seq<Item>, selected: set<string>) returns (st: Progress)
    requires WellFormed(items)
    ensures st.patches == map[] && Collected(env, items, selected) == Fold(env, st, Later(items, selected, env.applied.Keys))
  {
    var nodes := Chosen(items, NodeKind, selected, env.applied.Keys);
    var edges := Chosen(items, EdgeKind, selected, env.applied.Keys);
    ChosenNodes(items, selected, env.applied.Keys);
    ChosenEdges(items, selected, env.applied.Keys);
    hide Chosen, Later, EdgeWork, EdgesMade, AgreeOnNodes, StandsFor, NodesMade, Known, IdsOf, Making, Imports.Report;
    NodePass(env, nodes);
    EdgePass(env, Fold(env, Start(env.applied), nodes), edges);
    st := Fold(env, Fold(env, Start(env.applied), nodes), edges);
  }

  /** On every node that was on the board, every field ends with its old value and all the writes of the selected
    * items to it, in order, and nothing else.
    */
  lemma EveryFieldFollowsItsWrites(env: Env, items: seq<Item>, selected: set<string>, target: NodeId, field: string)
    requires WellFormed(items) && FreshIds(env, |Collected(env, items, selected).newNodes|) && target in env.nodes
    ensures LaterWork(Later(items, selected, env.applied.Keys)) && Tracks(env, Collected(env, items, selected))
    ensures var after := NodesAfter(env, Collected(env, items, selected));
      && target in after
      && Lookup(after[target].data, field) ==
           AllWritten(Lookup(env.nodes[target].data, field),
                      WritesTo(env, Later(items, selected, env.applied.Keys), target, field))
  {
    hide *;
    var later := Later(items, selected, env.applied.Keys);
    ChosenLater(items, selected, env.applied.Keys);
    BoardIsKept(env, items, selected);
    var st := NothingWrittenYet(env, items, selected);
    WorkIsWrites(env, st, later, target, field);
    DataIsOnBoard(env, st, target);
    DataIsOnBoard(env, Collected(env, items, selected), target);
  }

  lemma DataIsOnBoard(env: Env, st: Progress, target: NodeId)
    requires target in env.nodes
    ensures DataOf(env, st, target) == if target in st.patches then st.patches[target] else env.nodes[target].data
  {
  }

  // ---------------------------------------------------------------- the history

  /** No item that writes to the node names its history as a field. */
  ghost predicate LeavesHistory(env: Env, work: seq<Item>, target: NodeId) {
    forall item :: item in work && (item.Enrich? || item.Conflict?) && item.target == target ==>
      (item.Enrich? ==> forall patch :: patch in item.patches ==> !Names(patch.path, PROVENANCE)) &&
      (item.Conflict? ==> item.field != PROVENANCE)
  }

  /** Where the items that write to the node come from, in order. */
  function SourcesOf(env: Env, work: seq<Item>, target: NodeId): seq<Value>
    requires LaterWork(work)
  {
    if work == [] then []
    else
      var item := work[|work| - 1];
      SourcesOf(env, work[..|work| - 1], target) +
      if Counts(env, item) && item.target == target then [Origin(item.source)] else []
  }

  lemma {:induction false} NoPatchWrites(patches: seq<FieldPatch>, field: string)
    requires forall patch :: patch in patches ==> !Names(patch.path, field)
    ensures PatchWrites(patches, field) == []
  {
    if patches != [] {
      assert patches[|patches| - 1] in patches;
      NoPatchWrites(patches[..|patches| - 1], field);
      hide Names;
    }
  }

  /** The history of a list of entries, noted one after the other. */
  function AllGrown(list: seq<Value>, entries: seq<Value>): seq<Value> {
    if entries == [] then list else Grown(AllGrown(list, entries[..|entries| - 1]), entries[|entries| - 1])
  }

  lemma ItemNotesItself(env: Env, item: Item)
    requires (item.Enrich? || item.Conflict?) && LeavesHistory(env, [item], item.target)
    ensures WritesOf(env, item, PROVENANCE) == [Note(item.source)]
  {
    assert item in [item];
    if item.Enrich? { NoPatchWrites(item.patches, PROVENANCE); }
    hide Names, Choice;
  }

  lemma {:induction false} HistoryIsNoted(env: Env, work: seq<Item>, target: NodeId, was: Option<Value>)
    requires LaterWork(work) && LeavesHistory(env, work, target)
    ensures Noted(AllWritten(was, WritesTo(env, work, target, PROVENANCE))) == AllGrown(Noted(was), SourcesOf(env, work, target))
  {
    hide LeavesHistory, WritesOf, Counts, Grown, AllWritten, AllGrown, Noted, Choice;
    if work == [] {
      OneWrite(was, Push(Nothing));
      NoGrowth(Noted(was));
    } else {
      var front, item := work[..|work| - 1], work[|work| - 1];
      assert item in work && work == front + [item];
      LeavesParts(env, front, item, target);
      HistoryIsNoted(env, front, target, was);
      if Counts(env, item) && item.target == target {
        ItemNotesItself(env, item);
        NoteGrows(was, WritesTo(env, front, target, PROVENANCE), item.source);
        GrownSnoc(Noted(was), SourcesOf(env, front, target), Origin(item.source));
      } else {
        assert WritesTo(env, work, target, PROVENANCE) == WritesTo(env, front, target, PROVENANCE);
        assert SourcesOf(env, work, target) == SourcesOf(env, front, target);
      }
    }
  }

  lemma NoGrowth(list: seq<Value>)
    ensures AllGrown(list, []) == list
  {
  }

  lemma LeavesParts(env: Env, front: seq<Item>, item: Item, target: NodeId)
    requires LeavesHistory(env, front + [item], target)
    ensures LeavesHistory(env, front, target) && LeavesHistory(env, [item], target)
  {
    assert item in front + [item];
    hide Names;
  }

  lemma NoteGrows(was: Option<Value>, ws: seq<Write>, source: Provenance)
    ensures Noted(AllWritten(was, ws + [Note(source)])) == Grown(Noted(AllWritten(was, ws)), Origin(source))
  {
    AllWrittenSplits(was, ws, [Note(source)]);
    OneWrite(AllWritten(was, ws), Note(source));
    hide AllWritten, Grown;
  }

  lemma GrownSnoc(list: seq<Value>, entries: seq<Value>, entry: Value)
    ensures AllGrown(list, entries + [entry]) == Grown(AllGrown(list, entries), entry)
  {
    assert (entries + [entry])[..|entries|] == entries;
    hide Grown;
  }

  /** All entries, if there is room; past the fiftieth the last fifty, behind a number that says how many the last
    * addition dropped, the number before it among them, and not how many went in all.
    */
  function Last50(all: seq<Value>): seq<Value> {
    if |all| <= 50 then all else [Collapsed(if |all| == 51 then 1 else 2)] + all[|all| - 50..]
  }

  lemma {:induction false} GrownMeaning(list: seq<Value>, entries: seq<Value>)
    requires |list| <= 50
    ensures AllGrown(list, entries) == Last50(list + entries)
  {
    hide *;
    if entries == [] {
      NothingGrown(list);
      assert list + entries == list;
    } else {
      var n := |entries| - 1;
      GrownMeaning(list, entries[..n]);
      assert entries == entries[..n] + [entries[n]];
      GrownSnoc(list, entries[..n], entries[n]);
      Last50Snoc(list + entries[..n], entries[n]);
      assert list + entries == list + entries[..n] + [entries[n]];
    }
  }

  lemma NothingGrown(list: seq<Value>)
    requires |list| <= 50
    ensures AllGrown(list, []) == list == Last50(list)
  {
  }

  lemma Last50Snoc(all: seq<Value>, entry: Value)
    ensures Grown(Last50(all), entry) == Last50(all + [entry])
  {
    if |all| > 50 {
      var list := Last50(all);
      assert list[2..] == all[|all| - 49..];
      assert (all + [entry])[|all| - 49..] == all[|all| - 49..] + [entry];
    } else if |all| == 50 {
      assert (all + [entry])[1..] == all[1..] + [entry];
    }
  }

  /** The history of a node an import writes to: the old one, with one entry for each item that writes to it, in
    * order, as far as there is room, and the last fifty of these entries otherwise.
    */
  lemma HistoryIsKept(env: Env, items: seq<Item>, selected: set<string>, target: NodeId)
    requires WellFormed(items) && FreshIds(env, |Collected(env, items, selected).newNodes|) && target in env.nodes
    requires LeavesHistory(env, Later(items, selected, env.applied.Keys), target)
    requires |HistoryOf(env.nodes[target].data)| <= 50
    ensures LaterWork(Later(items, selected, env.applied.Keys)) && Tracks(env, Collected(env, items, selected))
    ensures var after := NodesAfter(env, Collected(env, items, selected));
      var all := HistoryOf(env.nodes[target].data) + SourcesOf(env, Later(items, selected, env.applied.Keys), target);
      && target in after
      && HistoryOf(after[target].data) == Last50(all)
  {
    hide *;
    var later := Later(items, selected, env.applied.Keys);
    EveryFieldFollowsItsWrites(env, items, selected, target, PROVENANCE);
    HistoryIsField(env.nodes[target].data);
    HistoryIsField(NodesAfter(env, Collected(env, items, selected))[target].data);
    HistoryIsNoted(env, later, target, Lookup(env.nodes[target].data, PROVENANCE));
    GrownMeaning(HistoryOf(env.nodes[target].data), SourcesOf(env, later, target));
  }

  lemma HistoryIsField(data: Data)
    ensures HistoryOf(data) == Noted(Lookup(data, PROVENANCE))
  {
  }
}
