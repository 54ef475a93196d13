/** The arcs along which the search for feedback edges descends. They are never cut, and they alone lead from the
  * target of every cut arc back to its source.
  */
module SearchTree {
  import opened Walks
  import opened LayoutGraph

  /** Arcs as pairs of ends. */
  type Tree = set<(Id, Id)>

  ghost predicate TreeWalk(tree: Tree, p: seq<Id>) {
    p != [] && forall i :: 0 <= i && i + 1 < |p| ==> (p[i], p[i + 1]) in tree
  }

  ghost predicate Leads(tree: Tree, u: Id, v: Id) {
    exists p :: TreeWalk(tree, p) && p[0] == u && p[|p| - 1] == v
  }

  ghost predicate Adjacent(path: seq<Id>, u: Id, v: Id) {
    exists i :: 0 <= i && i + 1 < |path| && path[i] == u && path[i + 1] == v
  }

  /** A tree arc is not cut, and its target is finished unless the search is still below the arc. */
  ghost predicate Kept(out: Arcs, back: set<string>, done: set<Id>, path: seq<Id>, u: Id, v: Id) {
    v in Targets(out, u) && EdgeKey(u, v) !in back && (v in done || Adjacent(path, u, v))
  }

  /** A cut arc leads to a node the search has met, and tree arcs lead back. */
  ghost predicate Returns(out: Arcs, done: set<Id>, path: seq<Id>, tree: Tree, u: Id, v: Id) {
    v in Targets(out, u) && (v in done || v in path) && Leads(tree, v, u)
  }

  ghost predicate KeyReturns(out: Arcs, done: set<Id>, path: seq<Id>, tree: Tree, key: string) {
    exists u, v :: key == EdgeKey(u, v) && Returns(out, done, path, tree, u, v)
  }

  ghost predicate AllKept(out: Arcs, back: set<string>, done: set<Id>, path: seq<Id>, tree: Tree) {
    forall u, v {:trigger Kept(out, back, done, path, u, v)} :: (u, v) in tree ==> Kept(out, back, done, path, u, v)
  }

  ghost predicate AllReturn(out: Arcs, back: set<string>, done: set<Id>, path: seq<Id>, tree: Tree) {
    forall key {:trigger KeyReturns(out, done, path, tree, key)} :: key in back ==> KeyReturns(out, done, path, tree, key)
  }

  /** `done` is finished and `path` is on the stack, bottom first. */
  ghost predicate Spans(out: Arcs, back: set<string>, done: set<Id>, path: seq<Id>, tree: Tree) {
    && AllKept(out, back, done, path, tree)
    && (path == [] || TreeWalk(tree, path))
    && AllReturn(out, back, done, path, tree)
  }

  // ---------------------------------------------------------------- one lemma per transition

  lemma LeadsStill(tree: Tree, more: Tree, u: Id, v: Id)
    requires Leads(tree, u, v) && tree <= more
    ensures Leads(more, u, v)
  {
    var p :| TreeWalk(tree, p) && p[0] == u && p[|p| - 1] == v;
    assert TreeWalk(more, p);
  }

  lemma KeyStillReturns(out: Arcs, done: set<Id>, path: seq<Id>, tree: Tree, done': set<Id>, path': seq<Id>, tree': Tree,
                        key: string)
    requires KeyReturns(out, done, path, tree, key) && tree <= tree'
    requires forall v :: v in done || v in path ==> v in done' || v in path'
    ensures KeyReturns(out, done', path', tree', key)
  {
    var u, v :| key == EdgeKey(u, v) && Returns(out, done, path, tree, u, v);
    LeadsStill(tree, tree', v, u);
    assert Returns(out, done', path', tree', u, v);
  }

  lemma AllStillReturn(out: Arcs, back: set<string>, done: set<Id>, path: seq<Id>, tree: Tree,
                       done': set<Id>, path': seq<Id>, tree': Tree)
    requires AllReturn(out, back, done, path, tree) && tree <= tree'
    requires forall v :: v in done || v in path ==> v in done' || v in path'
    ensures AllReturn(out, back, done', path', tree')
  {
    forall key {:trigger KeyReturns(out, done', path', tree', key)} | key in back
      ensures KeyReturns(out, done', path', tree', key)
    {
      assert KeyReturns(out, done, path, tree, key);
      KeyStillReturns(out, done, path, tree, done', path', tree', key);
    }
  }

  lemma SpansFromRoot(out: Arcs, back: set<string>, done: set<Id>, tree: Tree, root: Id)
    requires Spans(out, back, done, [], tree)
    ensures Spans(out, back, done, [root], tree)
  {
    AllStillReturn(out, back, done, [], tree, done, [root], tree);
    hide Leads, AllReturn, EdgeKey;
    forall u, v {:trigger Kept(out, back, done, [root], u, v)} | (u, v) in tree
      ensures Kept(out, back, done, [root], u, v)
    {
      assert Kept(out, back, done, [], u, v);
    }
  }

  lemma AdjacentStill(path: seq<Id>, x: Id, u: Id, v: Id)
    requires Adjacent(path, u, v)
    ensures Adjacent(path + [x], u, v)
  {
    var i :| 0 <= i && i + 1 < |path| && path[i] == u && path[i + 1] == v;
    assert (path + [x])[i] == u && (path + [x])[i + 1] == v;
  }

  /** An arc whose key is cut leads to a node met before. */
  lemma CutArcIsMet(out: Arcs, back: set<string>, done: set<Id>, path: seq<Id>, tree: Tree, u: Id, v: Id)
    requires AllReturn(out, back, done, path, tree) && KeysAreUnique(out)
    requires v in Targets(out, u) && EdgeKey(u, v) in back
    ensures v in done || v in path
  {
    hide Leads, EdgeKey;
    assert KeyReturns(out, done, path, tree, EdgeKey(u, v));
    var s, t :| EdgeKey(u, v) == EdgeKey(s, t) && Returns(out, done, path, tree, s, t);
  }

  /** Descending from the top of the stack to a node not met before. */
  lemma SpansPush(out: Arcs, back: set<string>, done: set<Id>, path: seq<Id>, tree: Tree, v: Id)
    requires Spans(out, back, done, path, tree) && KeysAreUnique(out) && path != []
    requires v in Targets(out, path[|path| - 1]) && v !in done && v !in path
    ensures Spans(out, back, done, path + [v], tree + {(path[|path| - 1], v)})
  {
    var top, path', tree' := path[|path| - 1], path + [v], tree + {(path[|path| - 1], v)};
    if EdgeKey(top, v) in back { CutArcIsMet(out, back, done, path, tree, top, v); }
    AllStillReturn(out, back, done, path, tree, done, path', tree');
    hide Leads, AllReturn, EdgeKey;
    assert Adjacent(path', top, v) by {
      assert path'[|path| - 1] == top && path'[|path| - 1 + 1] == v;
    }
    forall s, t {:trigger Kept(out, back, done, path', s, t)} | (s, t) in tree'
      ensures Kept(out, back, done, path', s, t)
    {
      if (s, t) in tree {
        assert Kept(out, back, done, path, s, t);
        if Adjacent(path, s, t) { AdjacentStill(path, v, s, t); }
      }
    }
  }

  /** The stack leads from any node on it to its top. */
  lemma StackLeads(tree: Tree, path: seq<Id>, v: Id)
    requires TreeWalk(tree, path) && v in path
    ensures Leads(tree, v, path[|path| - 1])
  {
    var k :| 0 <= k < |path| && path[k] == v;
    var p := path[k..];
    assert TreeWalk(tree, p);
  }

  lemma NothingAboveTop(path: seq<Id>, v: Id)
    requires path != [] && NoDup(path)
    ensures !Adjacent(path, path[|path| - 1], v)
  {
  }

  /** Recording the arc from the top of the stack to a node on it. */
  lemma SpansCut(out: Arcs, back: set<string>, done: set<Id>, path: seq<Id>, tree: Tree, v: Id)
    requires Spans(out, back, done, path, tree) && KeysAreUnique(out) && path != [] && NoDup(path)
    requires v in Targets(out, path[|path| - 1]) && v in path && v !in done
    ensures Spans(out, back + {EdgeKey(path[|path| - 1], v)}, done, path, tree)
  {
    var top := path[|path| - 1];
    var back' := back + {EdgeKey(top, v)};
    StackLeads(tree, path, v);
    assert (top, v) in tree ==> Kept(out, back, done, path, top, v);
    NothingAboveTop(path, v);
    hide Leads, EdgeKey, Adjacent, TreeWalk;
    forall s, t {:trigger Kept(out, back', done, path, s, t)} | (s, t) in tree
      ensures Kept(out, back', done, path, s, t)
    {
      assert Kept(out, back, done, path, s, t);
    }
    assert Returns(out, done, path, tree, top, v);
    forall key {:trigger KeyReturns(out, done, path, tree, key)} | key in back'
      ensures KeyReturns(out, done, path, tree, key)
    {
    }
  }

  lemma AdjacentBelow(path: seq<Id>, u: Id, v: Id)
    requires Adjacent(path, u, v) && v != path[|path| - 1]
    ensures Adjacent(path[..|path| - 1], u, v)
  {
    var i :| 0 <= i && i + 1 < |path| && path[i] == u && path[i + 1] == v;
    var rest := path[..|path| - 1];
    assert rest[i] == u && rest[i + 1] == v;
  }

  /** Finishing the top of the stack. */
  lemma SpansPop(out: Arcs, back: set<string>, done: set<Id>, path: seq<Id>, tree: Tree)
    requires Spans(out, back, done, path, tree) && path != []
    ensures Spans(out, back, done + {path[|path| - 1]}, path[..|path| - 1], tree)
  {
    var top, rest := path[|path| - 1], path[..|path| - 1];
    assert path == rest + [top];
    AllStillReturn(out, back, done, path, tree, done + {top}, rest, tree);
    hide Leads, AllReturn, EdgeKey;
    forall s, t {:trigger Kept(out, back, done + {top}, rest, s, t)} | (s, t) in tree
      ensures Kept(out, back, done + {top}, rest, s, t)
    {
      assert Kept(out, back, done, path, s, t);
      if t !in done && t != top { AdjacentBelow(path, s, t); }
    }
  }

  // ---------------------------------------------------------------- what it is for

  /** Arcs of the graph none of which is cut. */
  ghost predicate Uncut(out: Arcs, back: set<string>, p: seq<Id>) {
    IsWalk(out, p) && forall i :: 0 <= i && i + 1 < |p| ==> EdgeKey(p[i], p[i + 1]) !in back
  }

  ghost predicate UncutReturn(out: Arcs, back: set<string>, key: string) {
    exists u, v, p :: key == EdgeKey(u, v) && v in Targets(out, u) && Uncut(out, back, p) && p[0] == v && p[|p| - 1] == u
  }

  /** Whatever is cut, arcs that are not cut lead from its target back to its source. */
  ghost predicate Irredundant(out: Arcs, back: set<string>) {
    forall key {:trigger UncutReturn(out, back, key)} :: key in back ==> UncutReturn(out, back, key)
  }

  lemma TreeIsUncut(out: Arcs, back: set<string>, done: set<Id>, path: seq<Id>, tree: Tree, p: seq<Id>)
    requires AllKept(out, back, done, path, tree) && TreeWalk(tree, p)
    ensures Uncut(out, back, p)
  {
    hide EdgeKey;
    forall i: nat | i + 1 < |p|
      ensures ArcAt(out, p, i) && EdgeKey(p[i], p[i + 1]) !in back
    {
      assert Kept(out, back, done, path, p[i], p[i + 1]);
    }
  }

  lemma SpannedIsIrredundant(out: Arcs, back: set<string>, done: set<Id>, path: seq<Id>, tree: Tree)
    requires Spans(out, back, done, path, tree)
    ensures Irredundant(out, back)
  {
    hide EdgeKey;
    forall key {:trigger UncutReturn(out, back, key)} | key in back
      ensures UncutReturn(out, back, key)
    {
      assert KeyReturns(out, done, path, tree, key);
      var u, v :| key == EdgeKey(u, v) && Returns(out, done, path, tree, u, v);
      var p :| TreeWalk(tree, p) && p[0] == v && p[|p| - 1] == u;
      TreeIsUncut(out, back, done, path, tree, p);
    }
  }
}
