/** Trees that are grown breadth-first: who hangs below whom, and in which order. */
module BreadthTrees {
  import opened BreadthFirst
  import opened Options
  import opened Walks

  type Parents = map<Id, Option<Id>>

  function Members(g: seq<Id>): set<Id> {
    set v | v in g
  }

  /** The nodes of a list that hang below `u`, in order. */
  function Kids(parent: Parents, g: seq<Id>, u: Id): seq<Id> {
    if g == [] then []
    else
      var v := g[|g| - 1];
      Kids(parent, g[..|g| - 1], u) + if v in parent && parent[v] == Some(u) then [v] else []
  }

  /** The first node is a root, and each other hangs below the one it is found from. */
  ghost predicate HangsByFinders(out: Arcs, parent: Parents, g: seq<Id>) {
    && (forall v :: v in g ==> v in parent)
    && (g != [] ==> parent[g[0]] == None)
    && forall i: nat, p: nat {:trigger FoundBy(out, g, i, p)} ::
         0 < i < |g| && FoundBy(out, g, i, p) ==> parent[g[i]] == Some(g[p])
  }

  /** Children are listed in the order in which they are found. */
  ghost predicate KidsInOrder(children: Arcs, parent: Parents, g: seq<Id>) {
    forall u :: u in g ==> u in children && children[u] == Kids(parent, g, u)
  }

  /** A tree whose first `e` nodes are expanded, and the next one up to its `j`-th target; `past` was placed before. */
  ghost predicate Growing(out: Arcs, children: Arcs, parent: Parents, past: set<Id>, g: seq<Id>, e: nat, j: nat) {
    && ListedUpTo(out, g, e, j) && ExpandedPast(out, g, e, past)
    && (forall v :: v in g ==> v !in past)
    && parent.Keys == past + Members(g)
    && HangsByFinders(out, parent, g) && KidsInOrder(children, parent, g)
  }

  /** A grown tree: a breadth-first listing of what its first node reaches without passing nodes placed before. */
  ghost predicate IsTree(out: Arcs, children: Arcs, parent: Parents, past: set<Id>, g: seq<Id>) {
    && IsBreadthFirst(out, g) && ExpandedPast(out, g, |g|, past)
    && (forall v :: v in g ==> v !in past)
    && HangsByFinders(out, parent, g) && KidsInOrder(children, parent, g)
  }

  // ---------------------------------------------------------------- growing one tree

  lemma {:induction false} SameKids(a: Parents, b: Parents, g: seq<Id>, u: Id)
    requires forall v :: v in g ==> v in a && v in b && a[v] == b[v]
    ensures Kids(a, g, u) == Kids(b, g, u)
  {
    if g != [] {
      assert g[|g| - 1] in g;
      SameKids(a, b, g[..|g| - 1], u);
    }
  }

  lemma KidsSnoc(parent: Parents, g: seq<Id>, v: Id, u: Id)
    ensures Kids(parent, g + [v], u) == Kids(parent, g, u) + if v in parent && parent[v] == Some(u) then [v] else []
  {
    assert (g + [v])[..|g|] == g;
  }

  lemma NoKids(parent: Parents, root: Id)
    requires root in parent && parent[root] == None
    ensures Kids(parent, [root], root) == []
  {
    assert [root][..0] == [];
  }

  lemma Plant(out: Arcs, children: Arcs, parent: Parents, root: Id)
    requires root !in parent && root in children && children[root] == []
    ensures Growing(out, children, parent[root := None], parent.Keys, [root], 0, 0)
  {
    StartsBreadthFirst(out, root);
    NoKids(parent[root := None], root);
    hide IsBreadthFirst, FoundUpTo;
  }

  lemma AdoptHangs(out: Arcs, parent: Parents, past: set<Id>, g: seq<Id>, e: nat, j: nat)
    requires IsBreadthFirst(out, g) && ExpandedPast(out, g, e, past) && HangsByFinders(out, parent, g)
    requires e < |g| && j < |Targets(out, g[e])| && Targets(out, g[e])[j] !in parent && Targets(out, g[e])[j] !in past
    ensures var next := Targets(out, g[e])[j]; HangsByFinders(out, parent[next := Some(g[e])], g + [next])
  {
    var next := Targets(out, g[e])[j];
    var more := g + [next];
    forall i: nat, p: nat {:trigger FoundBy(out, more, i, p)} | 0 < i < |more| && FoundBy(out, more, i, p)
      ensures parent[next := Some(g[e])][more[i]] == Some(more[p])
    {
      if i < |g| {
        assert HasFinder(out, g, i);
        FinderStays(out, g, next, i, p);
        assert more[i] in g;
      } else {
        NextFinder(out, g, e, j, past, p);
      }
    }
    hide IsBreadthFirst, FoundBy;
    assert more[0] == g[0] && g[0] in g;
  }

  lemma AdoptKids(children: Arcs, parent: Parents, g: seq<Id>, id: Id, next: Id)
    requires KidsInOrder(children, parent, g) && id in g && next !in parent && (forall v :: v in g ==> v in parent)
    requires next in children && children[next] == [] && forall v :: v in parent ==> parent[v] != Some(next)
    ensures KidsInOrder(children[id := children[id] + [next]], parent[next := Some(id)], g + [next])
  {
    var children', parent' := children[id := children[id] + [next]], parent[next := Some(id)];
    forall u | u in g + [next]
      ensures u in children' && children'[u] == Kids(parent', g + [next], u)
    {
      SameKids(parent, parent', g, u);
      KidsSnoc(parent', g, next, u);
      if u !in g { StrangersHaveNoKids(parent, g, next); }
    }
  }

  /** Nobody hangs below a node whose children are not listed yet. */
  lemma {:induction false} StrangersHaveNoKids(parent: Parents, g: seq<Id>, u: Id)
    requires forall v :: v in g ==> v in parent && parent[v] != Some(u)
    ensures Kids(parent, g, u) == []
  {
    if g != [] {
      assert g[|g| - 1] in g;
      StrangersHaveNoKids(parent, g[..|g| - 1], u);
    }
  }

  /** The next new target of the node being expanded is adopted. */
  lemma AdoptGrows(out: Arcs, children: Arcs, parent: Parents, past: set<Id>, g: seq<Id>, e: nat, j: nat)
    requires Growing(out, children, parent, past, g, e, j) && e < |g| && j < |Targets(out, g[e])|
    requires Targets(out, g[e])[j] !in parent && forall k :: 0 <= k < j ==> Targets(out, g[e])[k] in parent
    requires var next := Targets(out, g[e])[j];
      next in children && children[next] == [] && forall v :: v in parent ==> parent[v] != Some(next)
    ensures g[e] in children
    ensures var next := Targets(out, g[e])[j];
      Growing(out, children[g[e] := children[g[e]] + [next]], parent[next := Some(g[e])], past, g + [next], e, j + 1)
  {
    var next := Targets(out, g[e])[j];
    assert g[e] in g;
    InTree(out, children, parent, past, g, e, j);
    hide IsBreadthFirst, FoundUpTo, HangsByFinders, KidsInOrder, ExpandedPast;
    assert Members(g + [next]) == Members(g) + {next};
    FindNextPast(out, g, e, j, past);
    AdoptHangs(out, parent, past, g, e, j);
    AdoptKids(children, parent, g, g[e], next);
    ExpandsStill(out, g, e, past, next);
  }

  lemma InTree(out: Arcs, children: Arcs, parent: Parents, past: set<Id>, g: seq<Id>, e: nat, j: nat)
    requires Growing(out, children, parent, past, g, e, j)
    ensures IsBreadthFirst(out, g)
    ensures forall v :: v in g ==> v in parent && v in children
    ensures forall v :: v in parent <==> v in g || v in past
  {
    hide IsBreadthFirst, FoundUpTo, ExpandedPast;
  }

  lemma ExpandsStill(out: Arcs, g: seq<Id>, e: nat, past: set<Id>, next: Id)
    requires ExpandedPast(out, g, e, past) && e <= |g|
    ensures ExpandedPast(out, g + [next], e, past)
  {
    assert forall q: nat :: q < |g| ==> (g + [next])[q] == g[q];
  }

  /** A target placed already is passed over. */
  lemma SkipGrows(out: Arcs, children: Arcs, parent: Parents, past: set<Id>, g: seq<Id>, e: nat, j: nat)
    requires Growing(out, children, parent, past, g, e, j)
    ensures Growing(out, children, parent, past, g, e, j + 1)
  {
    hide IsBreadthFirst, HangsByFinders, KidsInOrder, ExpandedPast;
  }

  lemma NextGrows(out: Arcs, children: Arcs, parent: Parents, past: set<Id>, g: seq<Id>, e: nat)
    requires e < |g| && Growing(out, children, parent, past, g, e, |Targets(out, g[e])|)
    requires forall v :: v in Targets(out, g[e]) ==> v in parent
    ensures Growing(out, children, parent, past, g, e + 1, 0)
  {
    InTree(out, children, parent, past, g, e, |Targets(out, g[e])|);
    NextToExpand(out, g, e);
    hide IsBreadthFirst, FoundUpTo, HangsByFinders, KidsInOrder;
    forall q: nat, v {:trigger v in Targets(out, g[q])} | q < e + 1 && q < |g| && v in Targets(out, g[q])
      ensures v in g || v in past
    {
      if q == e { assert v in parent; }
    }
  }

  // ---------------------------------------------------------------- tree after tree

  function Before(trees: seq<seq<Id>>, k: nat): set<Id>
    requires k <= |trees|
  {
    if k == 0 then {} else Before(trees, k - 1) + Members(trees[k - 1])
  }

  ghost predicate TreeAt(out: Arcs, children: Arcs, parent: Parents, trees: seq<seq<Id>>, k: nat)
    requires k < |trees|
  {
    IsTree(out, children, parent, Before(trees, k), trees[k])
  }

  /** All that is placed stands in the trees, each grown where the trees before it left off. */
  ghost predicate AreTrees(out: Arcs, roots: seq<Id>, children: Arcs, parent: Parents, trees: seq<seq<Id>>) {
    && |trees| == |roots|
    && (forall k: nat {:trigger TreeAt(out, children, parent, trees, k)} ::
          k < |trees| ==> TreeAt(out, children, parent, trees, k) && trees[k] != [] && trees[k][0] == roots[k])
    && parent.Keys == Before(trees, |trees|)
  }

  lemma {:induction false} BeforeSnoc(trees: seq<seq<Id>>, g: seq<Id>, k: nat)
    requires k <= |trees|
    ensures Before(trees + [g], k) == Before(trees, k)
  {
    if k > 0 { BeforeSnoc(trees, g, k - 1); }
  }

  lemma {:induction false} BeforeGrows(trees: seq<seq<Id>>, k: nat, m: nat)
    requires k <= m <= |trees|
    ensures Before(trees, k) <= Before(trees, m)
    ensures k < m ==> Members(trees[k]) <= Before(trees, m)
  {
    if k < m { BeforeGrows(trees, k, m - 1); }
  }

  /** What is placed keeps its place. */
  ghost predicate KeepsPast(past: set<Id>, children: Arcs, parent: Parents, children': Arcs, parent': Parents) {
    forall v :: v in past ==>
      && (v in parent ==> v in parent' && parent'[v] == parent[v])
      && (v in children ==> v in children' && children'[v] == children[v])
  }

  lemma TreeStays(out: Arcs, children: Arcs, parent: Parents, children': Arcs, parent': Parents, past: set<Id>, g: seq<Id>)
    requires IsTree(out, children, parent, past, g) && KeepsPast(Members(g), children, parent, children', parent')
    ensures IsTree(out, children', parent', past, g)
  {
    hide IsBreadthFirst, ExpandedPast;
    FirstThere(out, g);
    forall u | u in g
      ensures u in children' && children'[u] == Kids(parent', g, u)
    {
      assert u in Members(g);
      SameKids(parent, parent', g, u);
    }
    assert forall v :: v in g ==> v in Members(g);
    assert g[0] in g && forall i: nat :: i < |g| ==> g[i] in g;
    forall i: nat, p: nat {:trigger FoundBy(out, g, i, p)} | 0 < i < |g| && FoundBy(out, g, i, p)
      ensures parent'[g[i]] == Some(g[p])
    {
    }
  }

  lemma FirstThere(out: Arcs, g: seq<Id>)
    requires IsBreadthFirst(out, g)
    ensures g != []
  {
  }

  /** A tree that has been grown to its end joins the others. */
  lemma OneMoreTree(out: Arcs, roots: seq<Id>, children: Arcs, parent: Parents, trees: seq<seq<Id>>,
                    children': Arcs, parent': Parents, g: seq<Id>)
    requires AreTrees(out, roots, children, parent, trees)
    requires Growing(out, children', parent', parent.Keys, g, |g|, 0)
    requires KeepsPast(parent.Keys, children, parent, children', parent')
    ensures g != [] && AreTrees(out, roots + [g[0]], children', parent', trees + [g])
  {
    var all := trees + [g];
    hide Growing, IsTree, KeepsPast;
    GrownIsTree(out, children', parent', parent.Keys, g);
    BeforeSnoc(trees, g, |trees|);
    assert all[|trees|] == g && all[..|trees|] == trees;
    assert Before(all, |all|) == Before(all, |trees|) + Members(g);
    hide Before;
    assert TreeAt(out, children', parent', all, |trees|);
    forall k: nat {:trigger TreeAt(out, children', parent', all, k)} | k < |all|
      ensures TreeAt(out, children', parent', all, k) && all[k] != [] && all[k][0] == (roots + [g[0]])[k]
    {
      if k < |trees| {
        BeforeSnoc(trees, g, k);
        assert TreeAt(out, children, parent, trees, k);
        EarlierStays(out, children, parent, children', parent', trees, k);
      }
    }
  }

  lemma GrownIsTree(out: Arcs, children: Arcs, parent: Parents, past: set<Id>, g: seq<Id>)
    requires Growing(out, children, parent, past, g, |g|, 0)
    ensures g != [] && IsTree(out, children, parent, past, g) && parent.Keys == past + Members(g)
  {
    FirstThere(out, g);
    hide IsBreadthFirst, FoundUpTo, ExpandedPast, HangsByFinders, KidsInOrder;
  }

  lemma EarlierStays(out: Arcs, children: Arcs, parent: Parents, children': Arcs, parent': Parents, trees: seq<seq<Id>>, k: nat)
    requires k < |trees| && TreeAt(out, children, parent, trees, k) && parent.Keys == Before(trees, |trees|)
    requires KeepsPast(parent.Keys, children, parent, children', parent')
    ensures TreeAt(out, children', parent', trees, k)
  {
    BeforeGrows(trees, k, |trees|);
    hide IsTree;
    TreeStays(out, children, parent, children', parent', Before(trees, k), trees[k]);
  }
}
