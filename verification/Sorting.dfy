/** Stable sorting by a comparison, as `Array.prototype.sort` does it. */
module Sorting {

  ghost predicate TotalPreorder<T(!new)>(leq: (T, T) -> bool) {
    && (forall a, b :: leq(a, b) || leq(b, a))
    && (forall a, b, c :: leq(a, b) && leq(b, c) ==> leq(a, c))
  }

  ghost predicate SortedBy<T(!new)>(leq: (T, T) -> bool, s: seq<T>) {
    forall i, j :: 0 <= i < j < |s| ==> leq(s[i], s[j])
  }

  /** Put `x` behind everything that is not after it. */
  function Insert<T>(leq: (T, T) -> bool, s: seq<T>, x: T): seq<T> {
    if s == [] then [x]
    else if leq(s[|s| - 1], x) then s + [x]
    else Insert(leq, s[..|s| - 1], x) + [s[|s| - 1]]
  }

  function Sort<T>(leq: (T, T) -> bool, s: seq<T>): seq<T> {
    if s == [] then [] else Insert(leq, Sort(leq, s[..|s| - 1]), s[|s| - 1])
  }

  lemma {:induction false} InsertPermutes<T>(leq: (T, T) -> bool, s: seq<T>, x: T)
    ensures multiset(Insert(leq, s, x)) == multiset(s) + multiset{x}
  {
    if s != [] {
      var front, last := s[..|s| - 1], s[|s| - 1];
      assert s == front + [last];
      InsertPermutes(leq, front, x);
    }
  }

  /** Sorting loses nothing and invents nothing. */
  lemma {:induction false} SortPermutes<T>(leq: (T, T) -> bool, s: seq<T>)
    ensures multiset(Sort(leq, s)) == multiset(s)
    ensures |Sort(leq, s)| == |s|
  {
    if s != [] {
      var front, last := s[..|s| - 1], s[|s| - 1];
      assert s == front + [last];
      SortPermutes(leq, front);
      InsertPermutes(leq, Sort(leq, front), last);
    }
    assert |multiset(Sort(leq, s))| == |multiset(s)|;
  }

  lemma SortMembers<T>(leq: (T, T) -> bool, s: seq<T>)
    ensures forall x :: x in Sort(leq, s) <==> x in s
    ensures |Sort(leq, s)| == |s|
  {
    SortPermutes(leq, s);
    forall x
      ensures x in Sort(leq, s) <==> x in s
    {
      assert x in Sort(leq, s) <==> x in multiset(Sort(leq, s));
      assert x in s <==> x in multiset(s);
    }
  }

  lemma {:induction false} InsertMembers<T>(leq: (T, T) -> bool, s: seq<T>, x: T)
    ensures forall y :: y in Insert(leq, s, x) <==> y in s || y == x
  {
    if s != [] {
      InsertMembers(leq, s[..|s| - 1], x);
      assert s == s[..|s| - 1] + [s[|s| - 1]];
    }
  }

  lemma {:induction false} InsertSorts<T(!new)>(leq: (T, T) -> bool, s: seq<T>, x: T)
    requires TotalPreorder(leq) && SortedBy(leq, s)
    ensures SortedBy(leq, Insert(leq, s, x))
  {
    if s != [] {
      var front, last := s[..|s| - 1], s[|s| - 1];
      if leq(last, x) {
        forall i | 0 <= i < |s|
          ensures leq(s[i], x)
        {
          if i < |s| - 1 { assert leq(s[i], last); }
        }
      } else {
        assert leq(x, last);
        InsertSorts(leq, front, x);
        InsertMembers(leq, front, x);
        var t := Insert(leq, front, x);
        forall i | 0 <= i < |t|
          ensures leq(t[i], last)
        {
          assert t[i] in t;
          if t[i] != x {
            var k :| 0 <= k < |front| && front[k] == t[i];
            assert leq(s[k], s[|s| - 1]);
          }
        }
      }
    }
  }

  lemma {:induction false} SortSorts<T(!new)>(leq: (T, T) -> bool, s: seq<T>)
    requires TotalPreorder(leq)
    ensures SortedBy(leq, Sort(leq, s))
  {
    if s != [] {
      SortSorts(leq, s[..|s| - 1]);
      InsertSorts(leq, Sort(leq, s[..|s| - 1]), s[|s| - 1]);
    }
  }

  // ---------------------------------------------------------------- where the entries come from

  /** `sorted` holds the entries of `s`, each once, in order; entries that rank the same stay in their order. */
  ghost predicate SortedFrom<T(!new)>(leq: (T, T) -> bool, s: seq<T>, sorted: seq<T>, from: seq<nat>) {
    && |from| == |sorted| == |s|
    && (forall k: nat :: k in from <==> k < |s|)
    && (forall i, j :: 0 <= i < j < |from| ==> from[i] != from[j])
    && (forall i :: 0 <= i < |from| ==> from[i] < |s| && sorted[i] == s[from[i]])
    && (forall i, j :: 0 <= i < j < |from| ==> leq(sorted[i], sorted[j]))
    && (forall i, j :: 0 <= i < j < |from| && leq(sorted[j], sorted[i]) ==> from[i] < from[j])
  }

  /** A list with an entry more at place `n`. */
  function With<T>(s: seq<T>, n: nat, x: T): (more: seq<T>)
    requires n <= |s|
    ensures |more| == |s| + 1 && more[n] == x
    ensures forall i :: 0 <= i < n ==> more[i] == s[i]
    ensures forall i :: n < i <= |s| ==> more[i] == s[i - 1]
  {
    s[..n] + [x] + s[n..]
  }

  /** Where a new entry is put: behind all that are not after it. */
  function Place<T>(leq: (T, T) -> bool, s: seq<T>, x: T): (n: nat)
    ensures n <= |s| && (n > 0 ==> leq(s[n - 1], x)) && forall k :: n <= k < |s| ==> !leq(s[k], x)
  {
    if s == [] then 0 else if leq(s[|s| - 1], x) then |s| else Place(leq, s[..|s| - 1], x)
  }

  lemma {:induction false} InsertIsWith<T>(leq: (T, T) -> bool, s: seq<T>, x: T)
    ensures Insert(leq, s, x) == With(s, Place(leq, s, x), x)
  {
    if s != [] && !leq(s[|s| - 1], x) {
      var front, last := s[..|s| - 1], s[|s| - 1];
      InsertIsWith(leq, front, x);
      assert s == front + [last];
    }
  }

  lemma PlaceSorts<T(!new)>(leq: (T, T) -> bool, s: seq<T>, x: T)
    requires TotalPreorder(leq) && SortedBy(leq, s)
    ensures var n := Place(leq, s, x);
      && (forall k :: 0 <= k < n ==> leq(s[k], x))
      && (forall k :: n <= k < |s| ==> leq(x, s[k]) && !leq(s[k], x))
  {
    var n := Place(leq, s, x);
    forall k | 0 <= k < n
      ensures leq(s[k], x)
    {
      if k < n - 1 { assert leq(s[k], s[n - 1]); }
    }
  }

  lemma WithMembers(from: seq<nat>, n: nat, x: nat)
    requires n <= |from|
    ensures forall k: nat :: k in With<nat>(from, n, x) <==> k in from || k == x
  {
    var a, b := from[..n], from[n..];
    assert from == a + b && With<nat>(from, n, x) == a + [x] + b;
    forall k: nat
      ensures k in With<nat>(from, n, x) <==> k in from || k == x
    {
      assert k in a + b <==> k in a || k in b;
      assert k in a + [x] + b <==> k in a + [x] || k in b;
    }
  }

  lemma WithOrder<T(!new)>(leq: (T, T) -> bool, s: seq<T>, x: T, sorted: seq<T>, from: seq<nat>, n: nat, i: nat, j: nat)
    requires SortedFrom(leq, s, sorted, from) && n <= |from| && i < j <= |from|
    requires forall k :: 0 <= k < n ==> leq(sorted[k], x)
    requires forall k :: n <= k < |sorted| ==> leq(x, sorted[k]) && !leq(sorted[k], x)
    ensures var all, at := With(sorted, n, x), With<nat>(from, n, |s|);
      at[i] != at[j] && leq(all[i], all[j]) && (leq(all[j], all[i]) ==> at[i] < at[j])
  {
    hide With;
    var all, at := With(sorted, n, x), With<nat>(from, n, |s|);
    if i == n {
      assert all[j] == sorted[j - 1] && at[j] == from[j - 1];
    } else if j == n {
      assert all[i] == sorted[i] && at[i] == from[i];
    } else {
      var p, q := if i < n then i else i - 1, if j < n then j else j - 1;
      assert p < q && all[i] == sorted[p] && all[j] == sorted[q] && at[i] == from[p] && at[j] == from[q];
    }
  }

  lemma WithFrom<T(!new)>(leq: (T, T) -> bool, s: seq<T>, x: T, sorted: seq<T>, from: seq<nat>)
    requires TotalPreorder(leq) && SortedFrom(leq, s, sorted, from)
    ensures var n := Place(leq, sorted, x); SortedFrom(leq, s + [x], With(sorted, n, x), With<nat>(from, n, |s|))
  {
    hide TotalPreorder, With, Place;
    var n := Place(leq, sorted, x);
    PlaceSorts(leq, sorted, x);
    WithMembers(from, n, |s|);
    var all, at := With(sorted, n, x), With<nat>(from, n, |s|);
    forall i, j | 0 <= i < j < |at|
      ensures at[i] != at[j] && leq(all[i], all[j]) && (leq(all[j], all[i]) ==> at[i] < at[j])
    {
      WithOrder(leq, s, x, sorted, from, n, i, j);
    }
    forall i | 0 <= i < |at|
      ensures at[i] < |s| + 1 && all[i] == (s + [x])[at[i]]
    {
      if i > n { assert at[i] == from[i - 1] && all[i] == sorted[i - 1]; }
    }
    forall k: nat
      ensures k in at <==> k < |s + [x]|
    {
    }
  }

  /** Sorting is stable. */
  lemma {:induction false} SortIsStable<T(!new)>(leq: (T, T) -> bool, s: seq<T>) returns (from: seq<nat>)
    requires TotalPreorder(leq)
    ensures SortedFrom(leq, s, Sort(leq, s), from)
  {
    hide *;
    if s == [] {
      from := [];
      NothingSorted(leq);
    } else {
      var front, x := s[..|s| - 1], s[|s| - 1];
      from := SortIsStable(leq, front);
      assert s == front + [x];
      WithFrom(leq, front, x, Sort(leq, front), from);
      SortedLength(leq, front, Sort(leq, front), from);
      InsertIsWith(leq, Sort(leq, front), x);
      SortSnoc(leq, front, x);
      from := With<nat>(from, Place(leq, Sort(leq, front), x), |front|);
    }
  }

  lemma SortSnoc<T>(leq: (T, T) -> bool, front: seq<T>, x: T)
    ensures Sort(leq, front + [x]) == Insert(leq, Sort(leq, front), x)
  {
    assert (front + [x])[..|front|] == front;
  }

  lemma NothingSorted<T(!new)>(leq: (T, T) -> bool)
    ensures SortedFrom(leq, [], Sort(leq, []), [])
  {
  }

  lemma SortedLength<T(!new)>(leq: (T, T) -> bool, s: seq<T>, sorted: seq<T>, from: seq<nat>)
    requires SortedFrom(leq, s, sorted, from)
    ensures |from| == |sorted| == |s|
  {
  }
}
