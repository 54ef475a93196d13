/** The selection as an ordered set: edits by mode, and a listener that hears about every change of the order. */
module Selection {
  import opened Helpers
  import opened Options
  import opened Walks

  datatype Mode = Replace | Add | Toggle | Subtract

  // ---------------------------------------------------------------- one edit

  /** First occurrences, in order. */
  function Firsts(ids: seq<Id>): seq<Id> {
    if ids == [] then []
    else
      var front, id := Firsts(ids[..|ids| - 1]), ids[|ids| - 1];
      if id in front then front else front + [id]
  }

  function Without(ids: seq<Id>, drop: set<Id>): seq<Id> {
    if ids == [] then []
    else Without(ids[..|ids| - 1], drop) + if ids[|ids| - 1] in drop then [] else [ids[|ids| - 1]]
  }

  /** The list without what is at one position. */
  function Removed(ids: seq<Id>, at: nat): (rest: seq<Id>)
    requires at < |ids|
    ensures |rest| == |ids| - 1
  {
    ids[..at] + ids[at + 1..]
  }

  /** One turn of the loop for `add` and `toggle`. */
  function Touched(next: seq<Id>, id: Id, mode: Mode): seq<Id> {
    if id !in next then next + [id]
    else if mode.Toggle? then Removed(next, IndexIn(next, id))
    else Removed(next, IndexIn(next, id)) + [id]
  }

  function TouchedAll(ids: seq<Id>, incoming: seq<Id>, mode: Mode): seq<Id> {
    if incoming == [] then ids
    else Touched(TouchedAll(ids, incoming[..|incoming| - 1], mode), incoming[|incoming| - 1], mode)
  }

  /** What an edit makes of the selection. */
  function Applied(ids: seq<Id>, incoming: seq<Id>, mode: Mode): seq<Id> {
    match mode
    case Replace => Firsts(incoming)
    case Subtract => Without(ids, Members(incoming))
    case _ => TouchedAll(ids, incoming, mode)
  }

  function Members(ids: seq<Id>): set<Id> {
    set id | id in ids
  }

  class Selection {
    var ids: seq<Id>
    /** What the listener was told, call by call. */
    var heard: seq<seq<Id>>

    constructor ()
      ensures ids == [] && heard == []
    {
      ids, heard := [], [];
    }

    /** Replaces the selection and tells the listener, unless the order stays the same. */
    method Commit(next: seq<Id>)
      modifies this
      ensures ids == next
      ensures heard == if next == old(ids) then old(heard) else old(heard) + [next]
    {
      if |ids| == |next| {
        var i := 0;
        while i < |ids| && ids[i] == next[i]
          invariant 0 <= i <= |ids| && ids[..i] == next[..i]
        {
          i := i + 1;
        }
        if i == |ids| {
          assert ids[..i] == ids && next[..i] == next;
          return;
        }
      }
      ids := next;
      heard := heard + [ids];
    }

    method Set(incoming: seq<Id>, mode: Mode)
      modifies this
      ensures ids == Applied(old(ids), incoming, mode)
      ensures heard == if ids == old(ids) then old(heard) else old(heard) + [ids]
    {
      var next := Apply(incoming, mode);
      Commit(next);
    }

    method Apply(incoming: seq<Id>, mode: Mode) returns (next: seq<Id>)
      ensures next == Applied(ids, incoming, mode)
    {
      if mode.Replace? { return Firsts(incoming); }
      if mode.Subtract? { return Without(ids, Members(incoming)); }
      next := ids;
      for i := 0 to |incoming|
        invariant next == TouchedAll(ids, incoming[..i], mode)
      {
        assert incoming[..i + 1][..i] == incoming[..i];
        var id := incoming[i];
        if id !in next {
          next := next + [id];
        } else {
          var at := IndexIn(next, id);
          next := next[..at] + next[at + 1..];
          if mode.Add? { next := next + [id]; }
        }
      }
      assert incoming[..|incoming|] == incoming;
    }

    method Clear()
      modifies this
      ensures ids == []
      ensures heard == if old(ids) == [] then old(heard) else old(heard) + [[]]
    {
      Commit([]);
    }

    /** `all` are the ids of the scene's nodes, as the query lists them. */
    method SelectAll(all: seq<Id>)
      modifies this
      ensures ids == all
      ensures heard == if all == old(ids) then old(heard) else old(heard) + [all]
    {
      Commit(all);
    }
  }

  // ---------------------------------------------------------------- no duplicates

  lemma NoDupSnoc(ids: seq<Id>, id: Id)
    requires NoDup(ids) && id !in ids
    ensures NoDup(ids + [id])
  {
  }

  lemma IndexInLonger(front: seq<Id>, last: Id, id: Id)
    requires id in front || id == last
    ensures IndexIn(front + [last], id) == if id in front then IndexIn(front, id) else |front|
  {
    var ids := front + [last];
    assert forall k :: 0 <= k < |front| ==> ids[k] == front[k];
    var k := if id in front then IndexIn(front, id) else |front|;
    assert ids[k] == id && forall j :: 0 <= j < k ==> ids[j] != id;
    assert !(k < IndexIn(ids, id)) && !(IndexIn(ids, id) < k);
  }

  /** Replacing keeps each id once, in the order in which the ids first occur. */
  lemma {:induction false} FirstsMeaning(ids: seq<Id>)
    ensures NoDup(Firsts(ids)) && forall id :: id in Firsts(ids) <==> id in ids
    ensures forall i, j :: 0 <= i < j < |Firsts(ids)| ==> IndexIn(ids, Firsts(ids)[i]) < IndexIn(ids, Firsts(ids)[j])
  {
    if ids != [] {
      var front, last := ids[..|ids| - 1], ids[|ids| - 1];
      FirstsMeaning(front);
      assert ids == front + [last];
      if last !in Firsts(front) { NoDupSnoc(Firsts(front), last); }
      var firsts := Firsts(ids);
      assert Firsts(front) <= firsts;
      forall i, j | 0 <= i < j < |firsts|
        ensures IndexIn(ids, firsts[i]) < IndexIn(ids, firsts[j])
      {
        assert firsts[i] in firsts && firsts[j] in firsts && Firsts(front)[i] in Firsts(front);
        assert firsts[i] == Firsts(front)[i];
        IndexInLonger(front, last, firsts[i]);
        IndexInLonger(front, last, firsts[j]);
      }
    }
  }

  lemma {:induction false} WithoutMeaning(ids: seq<Id>, drop: set<Id>)
    ensures forall id :: id in Without(ids, drop) <==> id in ids && id !in drop
    ensures NoDup(ids) ==> NoDup(Without(ids, drop))
  {
    if ids != [] {
      var front, id := ids[..|ids| - 1], ids[|ids| - 1];
      WithoutMeaning(front, drop);
      assert ids == front + [id];
      if NoDup(ids) {
        LastIsNew(front, id);
        if id !in drop { NoDupSnoc(Without(front, drop), id); }
      }
    }
  }

  lemma LastIsNew(front: seq<Id>, id: Id)
    requires NoDup(front + [id])
    ensures NoDup(front) && id !in front
  {
    var all := front + [id];
    assert forall i :: 0 <= i < |front| ==> all[i] == front[i] && all[i] != all[|front|];
  }

  lemma RemovedMeaning(ids: seq<Id>, at: nat)
    requires NoDup(ids) && at < |ids|
    ensures NoDup(Removed(ids, at))
    ensures forall id :: id in Removed(ids, at) <==> id in ids && id != ids[at]
  {
    var rest := Removed(ids, at);
    assert forall i :: 0 <= i < |rest| ==> rest[i] == ids[if i < at then i else i + 1];
    forall id
      ensures id in rest <==> id in ids && id != ids[at]
    {
      assert ids == ids[..at] + [ids[at]] + ids[at + 1..];
      assert id in rest <==> id in ids[..at] || id in ids[at + 1..];
    }
  }

  lemma TouchedMeaning(next: seq<Id>, id: Id, mode: Mode)
    requires NoDup(next)
    ensures NoDup(Touched(next, id, mode))
    ensures forall x :: x != id ==> (x in Touched(next, id, mode) <==> x in next)
    ensures id in Touched(next, id, mode) <==> !(mode.Toggle? && id in next)
  {
    if id in next {
      RemovedMeaning(next, IndexIn(next, id));
      hide Removed;
      if !mode.Toggle? { NoDupSnoc(Removed(next, IndexIn(next, id)), id); }
    } else {
      NoDupSnoc(next, id);
    }
    hide NoDup;
  }

  lemma {:induction false} TouchedAllNoDup(ids: seq<Id>, incoming: seq<Id>, mode: Mode)
    requires NoDup(ids)
    ensures NoDup(TouchedAll(ids, incoming, mode))
  {
    if incoming != [] {
      TouchedAllNoDup(ids, incoming[..|incoming| - 1], mode);
      TouchedMeaning(TouchedAll(ids, incoming[..|incoming| - 1], mode), incoming[|incoming| - 1], mode);
    }
  }

  /** Every edit keeps the selection free of duplicates, whatever is passed in. */
  lemma EditKeepsNoDup(ids: seq<Id>, incoming: seq<Id>, mode: Mode)
    requires NoDup(ids)
    ensures NoDup(Applied(ids, incoming, mode))
  {
    FirstsMeaning(incoming);
    WithoutMeaning(ids, Members(incoming));
    if mode.Add? || mode.Toggle? { TouchedAllNoDup(ids, incoming, mode); }
    hide NoDup;
  }

  // ---------------------------------------------------------------- add

  /** Last occurrences, in order. */
  function Lasts(ids: seq<Id>): seq<Id> {
    if ids == [] then []
    else Without(Lasts(ids[..|ids| - 1]), {ids[|ids| - 1]}) + [ids[|ids| - 1]]
  }

  lemma {:induction false} LastsMembers(ids: seq<Id>)
    ensures forall id :: id in Lasts(ids) <==> id in ids
    ensures NoDup(Lasts(ids))
  {
    if ids != [] {
      var front, id := ids[..|ids| - 1], ids[|ids| - 1];
      LastsMembers(front);
      assert ids == front + [id];
      WithoutMeaning(Lasts(front), {id});
      NoDupSnoc(Without(Lasts(front), {id}), id);
      hide NoDup;
    }
  }

  lemma {:induction false} WithoutConcat(a: seq<Id>, b: seq<Id>, drop: set<Id>)
    ensures Without(a + b, drop) == Without(a, drop) + Without(b, drop)
  {
    if b == [] {
      assert a + b == a;
    } else {
      WithoutConcat(a, b[..|b| - 1], drop);
      assert (a + b)[..|a + b| - 1] == a + b[..|b| - 1];
    }
  }

  lemma {:induction false} WithoutTwice(ids: seq<Id>, a: set<Id>, b: set<Id>)
    ensures Without(Without(ids, a), b) == Without(ids, a + b)
  {
    if ids != [] {
      var front, id := ids[..|ids| - 1], ids[|ids| - 1];
      WithoutTwice(front, a, b);
      WithoutConcat(Without(front, a), if id in a then [] else [id], b);
      assert Without([id], b) == if id in b then [] else [id] by { assert [id][..0] == []; }
    }
  }

  lemma {:induction false} WithoutAbsent(ids: seq<Id>, drop: set<Id>)
    requires forall id :: id in ids ==> id !in drop
    ensures Without(ids, drop) == ids
  {
    if ids != [] {
      assert ids[|ids| - 1] in ids;
      WithoutAbsent(ids[..|ids| - 1], drop);
    }
  }

  /** Taking one occurrence out of a selection without duplicates is dropping the id. */
  lemma OthersDiffer(ids: seq<Id>, at: nat)
    requires NoDup(ids) && at < |ids|
    ensures forall x :: x in ids[..at] || x in ids[at + 1..] ==> x != ids[at]
  {
    var front, back := ids[..at], ids[at + 1..];
    assert forall j :: 0 <= j < |front| ==> front[j] == ids[j] && ids[j] != ids[at];
    assert forall j :: 0 <= j < |back| ==> back[j] == ids[at + 1 + j] && ids[at] != ids[at + 1 + j];
  }

  lemma RemovedIsWithout(ids: seq<Id>, at: nat)
    requires NoDup(ids) && at < |ids|
    ensures Removed(ids, at) == Without(ids, {ids[at]})
  {
    hide NoDup, Without;
    var id, front, back := ids[at], ids[..at], ids[at + 1..];
    OthersDiffer(ids, at);
    WithoutAbsent(front, {id});
    WithoutAbsent(back, {id});
    WithoutOne(id);
    WithoutConcat(front, [id] + back, {id});
    WithoutConcat([id], back, {id});
    assert ids == front + ([id] + back);
  }

  lemma WithoutOne(id: Id)
    ensures Without([id], {id}) == []
  {
    assert [id][..0] == [];
  }

  /** Adding re-anchors: the old ids that were not touched stay in front, and the touched ones follow, each at its last
    * touch.
    */
  lemma {:induction false} AddReanchors(ids: seq<Id>, incoming: seq<Id>)
    requires NoDup(ids)
    ensures Applied(ids, incoming, Add) == Without(ids, Members(incoming)) + Lasts(incoming)
  {
    if incoming == [] {
      WithoutAbsent(ids, Members(incoming));
    } else {
      var front, id := incoming[..|incoming| - 1], incoming[|incoming| - 1];
      var next := TouchedAll(ids, front, Add);
      AddReanchors(ids, front);
      TouchedAllNoDup(ids, front, Add);
      assert incoming == front + [id];
      assert Members(incoming) == Members(front) + {id};
      assert TouchedAll(ids, incoming, Add) == Touched(next, id, Add);
      assert Lasts(incoming) == Without(Lasts(front), {id}) + [id];
      hide TouchedAll, Touched, Lasts, Without, NoDup, Members;
      AddOne(ids, Members(front), Lasts(front), next, id);
    }
  }

  lemma AddOne(ids: seq<Id>, dropped: set<Id>, lasts: seq<Id>, next: seq<Id>, id: Id)
    requires NoDup(next) && next == Without(ids, dropped) + lasts
    ensures Touched(next, id, Add) == Without(ids, dropped + {id}) + (Without(lasts, {id}) + [id])
  {
    hide Without, NoDup, Touched;
    TouchedDrops(next, id);
    WithoutConcat(Without(ids, dropped), lasts, {id});
    WithoutTwice(ids, dropped, {id});
  }

  lemma TouchedDrops(next: seq<Id>, id: Id)
    requires NoDup(next)
    ensures Touched(next, id, Add) == Without(next, {id}) + [id]
  {
    if id in next {
      RemovedIsWithout(next, IndexIn(next, id));
    } else {
      WithoutAbsent(next, {id});
    }
    hide NoDup, Without;
  }

  // ---------------------------------------------------------------- toggle

  function Occurrences(ids: seq<Id>, id: Id): nat {
    if ids == [] then 0 else Occurrences(ids[..|ids| - 1], id) + if ids[|ids| - 1] == id then 1 else 0
  }

  /** After a toggle an id is selected exactly when it was before and is named an even number of times, or was not and
    * is named an odd number of times.
    */
  lemma {:induction false} ToggleFlips(ids: seq<Id>, incoming: seq<Id>, id: Id)
    requires NoDup(ids)
    ensures id in Applied(ids, incoming, Toggle) <==> ((id in ids) <==> Occurrences(incoming, id) % 2 == 0)
  {
    if incoming != [] {
      var front := incoming[..|incoming| - 1];
      ToggleFlips(ids, front, id);
      TouchedAllNoDup(ids, front, Toggle);
      TouchedMeaning(TouchedAll(ids, front, Toggle), incoming[|incoming| - 1], Toggle);
      hide Touched, NoDup;
    }
  }

  /** Toggling the same ids again restores the members. */
  lemma ToggleTwice(ids: seq<Id>, incoming: seq<Id>)
    requires NoDup(ids)
    ensures Members(Applied(Applied(ids, incoming, Toggle), incoming, Toggle)) == Members(ids)
  {
    EditKeepsNoDup(ids, incoming, Toggle);
    var once := Applied(ids, incoming, Toggle);
    var twice := Applied(once, incoming, Toggle);
    forall id
      ensures id in twice <==> id in ids
    {
      ToggleFlips(ids, incoming, id);
      ToggleFlips(once, incoming, id);
    }
  }

  // ---------------------------------------------------------------- every edit, by the ids alone

  /** Where an id is named last; -1 if it is not. */
  ghost function LastIn(incoming: seq<Id>, id: Id): (k: int)
    ensures -1 <= k < |incoming| && (k >= 0 <==> id in incoming) && (k >= 0 ==> incoming[k] == id)
    ensures forall j :: k < j < |incoming| ==> incoming[j] != id
  {
    if incoming == [] then -1
    else if incoming[|incoming| - 1] == id then |incoming| - 1
    else LastIn(incoming[..|incoming| - 1], id)
  }

  /** The ids that an edit does not name come first and stay in order; the others follow in the order in which they are
    * named last.
    */
  ghost predicate Precedes(ids: seq<Id>, incoming: seq<Id>, x: Id, y: Id) {
    || LastIn(incoming, x) < LastIn(incoming, y)
    || (x !in incoming && y !in incoming && IndexIn(ids, x) < IndexIn(ids, y))
  }

  ghost predicate InOrder(next: seq<Id>, ids: seq<Id>, incoming: seq<Id>) {
    forall i, j :: 0 <= i < j < |next| ==> Precedes(ids, incoming, next[i], next[j])
  }

  lemma LastInLonger(front: seq<Id>, id: Id, x: Id)
    ensures LastIn(front + [id], x) == if x == id then |front| else LastIn(front, x)
  {
    assert (front + [id])[..|front|] == front;
  }

  lemma PrecedesLater(ids: seq<Id>, front: seq<Id>, id: Id, x: Id, y: Id)
    requires x != id && (y == id || Precedes(ids, front, x, y))
    ensures Precedes(ids, front + [id], x, y)
  {
    LastInLonger(front, id, x);
    LastInLonger(front, id, y);
    hide LastIn;
  }

  /** Without one of its ids a list is a shorter one, whose entries keep their order. */
  lemma RemovedFrom(ids: seq<Id>, at: nat, i: nat)
    requires NoDup(ids) && at < |ids| && i < |ids| - 1
    ensures Removed(ids, at)[i] == ids[if i < at then i else i + 1]
    ensures Removed(ids, at)[i] != ids[at]
  {
  }

  lemma AppendedInOrder(kept: seq<Id>, ids: seq<Id>, front: seq<Id>, id: Id)
    requires InOrder(kept, ids, front) && id !in kept
    ensures InOrder(kept, ids, front + [id]) && InOrder(kept + [id], ids, front + [id])
  {
    hide Precedes;
    var all := kept + [id];
    forall i, j | 0 <= i < j < |all|
      ensures Precedes(ids, front + [id], all[i], all[j])
    {
      assert all[i] == kept[i] && kept[i] in kept;
      assert j < |kept| ==> all[j] == kept[j];
      PrecedesLater(ids, front, id, all[i], all[j]);
    }
    assert forall j :: 0 <= j < |kept| ==> all[j] == kept[j];
  }

  lemma TouchedInOrder(next: seq<Id>, ids: seq<Id>, front: seq<Id>, id: Id, mode: Mode)
    requires NoDup(next) && InOrder(next, ids, front)
    ensures InOrder(Touched(next, id, mode), ids, front + [id])
  {
    hide Precedes, Removed, NoDup;
    if id in next {
      var at := IndexIn(next, id);
      var kept := Removed(next, at);
      RemovedMeaning(next, at);
      forall i: nat, j: nat | i < j < |kept|
        ensures Precedes(ids, front, kept[i], kept[j])
      {
        RemovedFrom(next, at, i);
        RemovedFrom(next, at, j);
      }
      AppendedInOrder(kept, ids, front, id);
    } else {
      AppendedInOrder(next, ids, front, id);
    }
  }

  lemma UntouchedInOrder(ids: seq<Id>)
    requires NoDup(ids)
    ensures InOrder(ids, ids, [])
  {
    forall i, j | 0 <= i < j < |ids|
      ensures IndexIn(ids, ids[i]) < IndexIn(ids, ids[j])
    {
      assert IndexIn(ids, ids[i]) == i && IndexIn(ids, ids[j]) == j;
    }
  }

  lemma {:induction false} TouchedAllInOrder(ids: seq<Id>, incoming: seq<Id>, mode: Mode)
    requires NoDup(ids)
    ensures InOrder(TouchedAll(ids, incoming, mode), ids, incoming)
  {
    if incoming == [] {
      UntouchedInOrder(ids);
    } else {
      var front, id := incoming[..|incoming| - 1], incoming[|incoming| - 1];
      assert incoming == front + [id];
      TouchedAllInOrder(ids, front, mode);
      TouchedAllNoDup(ids, front, mode);
      TouchedInOrder(TouchedAll(ids, front, mode), ids, front, id, mode);
      hide InOrder, Touched, NoDup;
    }
  }

  lemma {:induction false} AddMembers(ids: seq<Id>, incoming: seq<Id>, id: Id)
    requires NoDup(ids)
    ensures id in TouchedAll(ids, incoming, Add) <==> id in ids || id in incoming
  {
    if incoming != [] {
      var front, last := incoming[..|incoming| - 1], incoming[|incoming| - 1];
      assert incoming == front + [last];
      AddMembers(ids, front, id);
      TouchedAllNoDup(ids, front, Add);
      TouchedMeaning(TouchedAll(ids, front, Add), last, Add);
      hide Touched, NoDup;
    }
  }

  lemma {:induction false} WithoutInOrder(ids: seq<Id>, drop: set<Id>, i: nat, j: nat)
    requires NoDup(ids) && i < j < |Without(ids, drop)|
    ensures IndexIn(ids, Without(ids, drop)[i]) < IndexIn(ids, Without(ids, drop)[j])
  {
    var front, id := ids[..|ids| - 1], ids[|ids| - 1];
    var kept := Without(front, drop);
    assert ids == front + [id];
    LastIsNew(front, id);
    WithoutMeaning(front, drop);
    hide NoDup;
    assert kept[i] in kept;
    IndexInLonger(front, id, kept[i]);
    if j < |kept| {
      assert kept[j] in kept;
      WithoutInOrder(front, drop, i, j);
      IndexInLonger(front, id, kept[j]);
    } else {
      IndexInLonger(front, id, id);
    }
  }

  /** What every edit leaves selected, and in which order. With distinct ids before there are distinct ids after, so the
    * members and the order settle the list.
    */
  lemma EditIsExact(ids: seq<Id>, incoming: seq<Id>, mode: Mode)
    requires NoDup(ids)
    ensures var next := Applied(ids, incoming, mode);
      && NoDup(next)
      && (forall id :: id in next <==>
            match mode
            case Replace => id in incoming
            case Add => id in ids || id in incoming
            case Toggle => (id in ids) <==> Occurrences(incoming, id) % 2 == 0
            case Subtract => id in ids && id !in incoming)
      && (forall i: nat, j: nat :: i < j < |next| ==>
            match mode
            case Replace => IndexIn(incoming, next[i]) < IndexIn(incoming, next[j])
            case Subtract => IndexIn(ids, next[i]) < IndexIn(ids, next[j])
            case _ => Precedes(ids, incoming, next[i], next[j]))
  {
    EditKeepsNoDup(ids, incoming, mode);
    match mode {
      case Replace =>
        FirstsMeaning(incoming);
      case Subtract =>
        SubtractIsExact(ids, incoming);
      case Add =>
        TouchedAllInOrder(ids, incoming, Add);
        forall id ensures id in Applied(ids, incoming, Add) <==> id in ids || id in incoming {
          AddMembers(ids, incoming, id);
        }
      case Toggle =>
        TouchedAllInOrder(ids, incoming, Toggle);
        forall id
          ensures id in Applied(ids, incoming, Toggle) <==> ((id in ids) <==> Occurrences(incoming, id) % 2 == 0)
        {
          ToggleFlips(ids, incoming, id);
        }
    }
    hide NoDup, Precedes, Occurrences, TouchedAll, Firsts, Without, IndexIn;
  }

  lemma SubtractIsExact(ids: seq<Id>, incoming: seq<Id>)
    requires NoDup(ids)
    ensures var next := Applied(ids, incoming, Subtract);
      && (forall id :: id in next <==> id in ids && id !in incoming)
      && (forall i: nat, j: nat :: i < j < |next| ==> IndexIn(ids, next[i]) < IndexIn(ids, next[j]))
  {
    WithoutMeaning(ids, Members(incoming));
    forall i: nat, j: nat | i < j < |Without(ids, Members(incoming))|
      ensures IndexIn(ids, Without(ids, Members(incoming))[i]) < IndexIn(ids, Without(ids, Members(incoming))[j])
    {
      WithoutInOrder(ids, Members(incoming), i, j);
    }
    hide NoDup, Without, IndexIn;
  }

  // ---------------------------------------------------------------- whole sessions

  datatype Command = SetIds(incoming: seq<Id>, mode: Mode) | ClearAll | SelectEverything(all: seq<Id>)

  function Next(ids: seq<Id>, c: Command): seq<Id> {
    match c
    case SetIds(incoming, mode) => Applied(ids, incoming, mode)
    case ClearAll => []
    case SelectEverything(all) => all
  }

  function Session(commands: seq<Command>): seq<Id> {
    if commands == [] then [] else Next(Session(commands[..|commands| - 1]), commands[|commands| - 1])
  }

  /** What the listener has been told after a session. */
  function Heard(commands: seq<Command>): seq<seq<Id>> {
    if commands == [] then []
    else
      var front := commands[..|commands| - 1];
      if Session(commands) == Session(front) then Heard(front) else Heard(front) + [Session(commands)]
  }

  method Drive(commands: seq<Command>) returns (selection: Selection)
    ensures selection.ids == Session(commands) && selection.heard == Heard(commands)
  {
    selection := new Selection();
    for i := 0 to |commands|
      invariant fresh(selection)
      invariant selection.ids == Session(commands[..i]) && selection.heard == Heard(commands[..i])
    {
      assert commands[..i + 1][..i] == commands[..i];
      match commands[i]
      case SetIds(incoming, mode) => selection.Set(incoming, mode);
      case ClearAll => selection.Clear();
      case SelectEverything(all) => selection.SelectAll(all);
    }
    assert commands[..|commands|] == commands;
  }

  /** No session ends with a duplicate, as long as the scene lists no node twice. */
  lemma {:induction false} SessionHasNoDuplicates(commands: seq<Command>)
    requires forall c :: c in commands && c.SelectEverything? ==> NoDup(c.all)
    ensures NoDup(Session(commands))
  {
    if commands != [] {
      var front, c := commands[..|commands| - 1], commands[|commands| - 1];
      assert commands == front + [c];
      assert c in commands;
      SessionHasNoDuplicates(front);
      if c.SetIds? { EditKeepsNoDup(Session(front), c.incoming, c.mode); }
      hide NoDup, Applied;
    }
  }

  /** The listener always knows the selection: the last thing it heard is what is selected, and it never hears the same
    * thing twice in a row.
    */
  lemma {:induction false} ListenerIsUpToDate(commands: seq<Command>)
    ensures Session(commands) == if Heard(commands) == [] then [] else Heard(commands)[|Heard(commands)| - 1]
    ensures forall i :: 0 < i < |Heard(commands)| ==> Heard(commands)[i] != Heard(commands)[i - 1]
    ensures Heard(commands) != [] ==> Heard(commands)[0] != []
  {
    if commands != [] {
      ListenerIsUpToDate(commands[..|commands| - 1]);
      hide Next;
    }
  }
}
