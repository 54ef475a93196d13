/** Lists of positions, for saying which entries of a list another one is made of. */
module Positions {
  ghost predicate Increasing(from: seq<nat>) {
    forall i, j :: 0 <= i < j < |from| ==> from[i] < from[j]
  }

  lemma NoPositions()
    ensures Increasing([])
  {
  }

  lemma MorePositions(from: seq<nat>, k: nat)
    ensures (forall i: nat :: i in from ==> i < k) && Increasing(from) ==> Increasing(from + [k])
    ensures forall i: nat :: i in from + [k] <==> i in from || i == k
  {
    assert (from + [k])[|from|] == k;
    forall i: nat
      ensures i in from + [k] <==> i in from || i == k
    {
    }
    if (forall i: nat :: i in from ==> i < k) && Increasing(from) {
      assert forall j :: 0 <= j < |from| ==> from[j] in from;
    }
  }

  /** `picked` has the entries of a list at these positions. */
  ghost predicate Entries<T>(list: seq<T>, from: seq<nat>, picked: seq<T>) {
    |from| == |picked| && forall i :: 0 <= i < |from| ==> from[i] < |list| && picked[i] == list[from[i]]
  }

  lemma NoEntries<T>(list: seq<T>)
    ensures Entries(list, [], [])
  {
  }

  lemma EntriesOfLonger<T>(list: seq<T>, from: seq<nat>, picked: seq<T>, last: T)
    requires Entries(list, from, picked)
    ensures Entries(list + [last], from, picked)
    ensures Entries(list + [last], from + [|list|], picked + [last])
  {
  }
}
