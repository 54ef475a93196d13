/** Which budgets keep every plan's runtime estimate within the runtime they allow. */
module Overrun {
  import opened Helpers
  import opened Modes
  import opened Options
  import opened Planner
  import opened Router
  import opened Samples
  import opened Sorting

  /** What the manifest schema guarantees of expected runtimes. */
  ghost predicate PositiveRuntimes(reg: Registry) {
    forall t :: t in reg.transforms ==> t.expectedRuntimeMs > 0
  }

  /** A registry with schema-valid runtimes that its own check accepts. */
  ghost predicate InOrder(reg: Registry) {
    PositiveRuntimes(reg) && Validates(reg)
  }

  /** No plan made under this budget is estimated to run longer than the budget allows. */
  ghost predicate NeverOverruns(b: Budget) {
    forall reg, kind, ctx, covered, depth :: InOrder(reg) ==>
      PlanOf(reg, kind, ctx, b, covered, depth).runtimeMs <= b.maxRuntimeMs
  }

  /** Whatever is planned fits one parallel batch, because steps and nodes run out first. */
  predicate FewSteps(b: Budget) {
    Min(b.maxTransforms, b.maxNewNodes) <= Max(1, b.maxParallel)
  }

  // ---------------------------------------------------------------- few steps are enough

  lemma {:induction false} StepsAddNodes(steps: seq<PlanStep>)
    requires forall i :: 0 <= i < |steps| ==> steps[i].maxResults > 0
    ensures |steps| <= SumResults(steps)
  {
    if steps != [] { StepsAddNodes(steps[..|steps| - 1]); }
  }

  lemma StepsAreFew(reg: Registry, kind: Kind, ctx: Context, b: Budget, covered: set<Capability>, depth: ExpandDepth)
    ensures |Planned(reg, kind, ctx, b, covered, depth).steps| <= Max(0, Min(b.maxTransforms, b.maxNewNodes))
  {
    PlannedWithinBudget(reg, kind, ctx, b, covered, depth);
    hide Planned;
    StepsAddNodes(Planned(reg, kind, ctx, b, covered, depth).steps);
  }

  lemma FewStepsFit(reg: Registry, kind: Kind, ctx: Context, b: Budget, covered: set<Capability>, depth: ExpandDepth)
    requires b.maxRuntimeMs >= 0 && FewSteps(b)
    ensures PlanOf(reg, kind, ctx, b, covered, depth).runtimeMs <= b.maxRuntimeMs
  {
    hide Planned, PlanOf, FirstLayer, SecondSteps, FromCandidates, LayerRuntime;
    StepsAreFew(reg, kind, ctx, b, covered, depth);
    PlanSplits(reg, kind, ctx, b, covered, depth);
    RuntimeFitsInBatches(reg, kind, ctx, b, covered, depth);
  }

  // ---------------------------------------------------------------- nothing is planned without runtime

  lemma {:induction false} StepsTakeTime(l: Ledger, cs: seq<Candidate>, b: Budget, runtimeBudget: int)
    requires forall c :: c in cs ==> c.routed.transform.expectedRuntimeMs > 0
    requires forall s :: s in l.steps ==> s.estimatedRuntimeMs > 0
    ensures forall s :: s in ConsiderAll(l, cs, b, runtimeBudget).steps ==> s.estimatedRuntimeMs > 0
    decreases |cs|
  {
    if cs != [] {
      assert cs[|cs| - 1] in cs;
      StepsTakeTime(l, cs[..|cs| - 1], b, runtimeBudget);
    }
  }

  lemma NothingFirst(reg: Registry, kind: Kind, ctx: Context, b: Budget, covered: set<Capability>)
    requires b.maxRuntimeMs == 0 && PositiveRuntimes(reg)
    ensures FirstLayer(reg, kind, ctx, b, covered).steps == []
  {
    var cs := CandidatesForKind(reg, kind, ctx, 1, []);
    RoutedForInput(reg, kind, ctx);
    OfferedMembers(RouteForInput(reg, kind, ctx), kind, 1, []);
    FirstLayerSteps(reg, kind, ctx, b, covered);
    hide RouteForInput, Offered, Route;
    StepsTakeTime(Start(b, covered), cs, b, 0);
    hide ConsiderAll;
    FirstStep(FirstLayer(reg, kind, ctx, b, covered).steps);
  }

  lemma FirstStep(steps: seq<PlanStep>)
    ensures steps == [] || steps[0] in steps
  {
  }

  lemma NoTimeFits(reg: Registry, kind: Kind, ctx: Context, b: Budget, covered: set<Capability>, depth: ExpandDepth)
    requires b.maxRuntimeMs == 0 && PositiveRuntimes(reg)
    ensures PlanOf(reg, kind, ctx, b, covered, depth).runtimeMs == 0
  {
    NothingFirst(reg, kind, ctx, b, covered);
    LayersSplit(reg, kind, ctx, b, covered, depth);
    hide FirstLayer, PlanOf;
    assert SecondSteps(reg, kind, ctx, b, covered, depth) == [];
  }

  /** Even a plan without steps takes longer than less than no time. */
  lemma EmptyPlanOverruns(b: Budget)
    requires b.maxRuntimeMs < 0
    ensures PlanOf(SlowRegistry(0, 1), "domain", FreshContext(), b, {}, One).runtimeMs == 0
  {
    var reg, ctx := SlowRegistry(0, 1), FreshContext();
    SlowCandidates(0, 1);
    LayersSplit(reg, "domain", ctx, b, {}, One);
    hide CandidatesForKind, SlowRegistry, PlanOf;
    assert FirstLayer(reg, "domain", ctx, b, {}).steps == [];
    assert SecondSteps(reg, "domain", ctx, b, {}, One) == [];
  }

  // ---------------------------------------------------------------- and necessary

  function Name(i: nat): (s: string)
    ensures |s| == i + 1
  {
    seq(i + 1, _ => 'x')
  }

  /** Local transforms of different capabilities, each as slow as the budget allows and with one result. */
  function Slow(i: nat, runtimeMs: int): Transform {
    Transform(Name(i), Name(i), ["domain"], ["ip"], [Name(i), "browser"], Core, runtimeMs, 1)
  }

  function SlowTransforms(n: nat, runtimeMs: int): (ts: seq<Transform>)
    ensures |ts| == n && forall i :: 0 <= i < n ==> ts[i] == Slow(i, runtimeMs)
  {
    seq(n, i requires 0 <= i < n => Slow(i, runtimeMs))
  }

  /** One engine for each of them, and the link out. */
  function SlowEngines(n: nat): (es: seq<Engine>)
    ensures |es| == n + 1 && es[0] == LinkOut() && forall i :: 0 < i <= n ==> es[i] == Local(Name(i - 1), Name(i - 1))
  {
    if n == 0 then [LinkOut()] else SlowEngines(n - 1) + [Local(Name(n - 1), Name(n - 1))]
  }

  function SlowRegistry(n: nat, runtimeMs: int): Registry {
    Registry(SlowTransforms(n, runtimeMs), SlowEngines(n), Providers())
  }

  lemma NotTheBrowser(i: nat)
    ensures Name(i) != "browser"
  {
    assert Name(i)[0] == 'x' && "browser"[0] == 'b';
  }

  lemma NextEngine(es: seq<Engine>, e: Engine, id: EngineId)
    ensures FindEngine(es + [e], id) == if e.id == id then Some(e) else FindEngine(es, id)
  {
    assert (es + [e])[..|es|] == es;
  }

  lemma NextSlow(n: nat, id: EngineId)
    requires n > 0
    ensures var last := Local(Name(n - 1), Name(n - 1));
      FindEngine(SlowEngines(n), id) == if last.id == id then Some(last) else FindEngine(SlowEngines(n - 1), id)
  {
    NextEngine(SlowEngines(n - 1), Local(Name(n - 1), Name(n - 1)), id);
    hide FindEngine, Local, Name;
  }

  lemma {:induction false} SlowFound(n: nat, i: nat)
    ensures i < n ==> FindEngine(SlowEngines(n), Name(i)) == Some(Local(Name(i), Name(i)))
    ensures FindEngine(SlowEngines(n), "browser") == Some(LinkOut())
  {
    hide *;
    if n == 0 {
      OnlyLinkOut();
    } else {
      SlowFound(n - 1, i);
      NotTheBrowser(n - 1);
      LocalHasId(Name(n - 1));
      NextSlow(n, Name(i));
      NextSlow(n, "browser");
      assert |Name(i)| == i + 1 && |Name(n - 1)| == n;
    }
  }

  lemma OnlyLinkOut()
    ensures FindEngine(SlowEngines(0), "browser") == Some(LinkOut())
  {
  }

  lemma LocalHasId(id: EngineId)
    ensures Local(id, id).id == id
  {
  }

  lemma SlowEnginesOf(n: nat, runtimeMs: int, i: nat)
    requires i < n
    ensures forall e :: e in EnginesFor(SlowRegistry(n, runtimeMs), [Name(i), "browser"]) <==>
      e == Local(Name(i), Name(i)) || e == LinkOut()
  {
    hide FindEngine, EnginesFor, Name, SlowEngines, SlowTransforms, Local, LinkOut;
    SlowFound(n, i);
    var reg, ids := SlowRegistry(n, runtimeMs), [Name(i), "browser"];
    assert ids[0] == Name(i) && ids[1] == "browser";
    forall e
      ensures e in EnginesFor(reg, ids) <==> e == Local(Name(i), Name(i)) || e == LinkOut()
    {
      EnginesForMembers(reg, ids, e);
    }
  }

  lemma SlowIsInOrder(n: nat, runtimeMs: int)
    requires runtimeMs > 0
    ensures InOrder(SlowRegistry(n, runtimeMs))
  {
    hide FindEngine, FindProvider, EnginesFor;
    var reg := SlowRegistry(n, runtimeMs);
    ProvidersFound();
    forall t, id {:trigger t in reg.transforms, id in t.engines} | t in reg.transforms && id in t.engines
      ensures FindEngine(reg.engines, id).Some? && Serves(FindEngine(reg.engines, id).value, t)
    {
      var i: nat :| i < n && reg.transforms[i] == t;
      SlowFound(n, i);
    }
    forall t {:trigger HasTerminal(reg, t)} | t in reg.transforms
      ensures HasTerminal(reg, t)
    {
      var i: nat :| i < n && reg.transforms[i] == t;
      SlowEnginesOf(n, runtimeMs, i);
      assert LinkOut() in EnginesFor(reg, t.engines);
    }
    forall i, j | 0 <= i < j < n
      ensures reg.transforms[i].id != reg.transforms[j].id
    {
      assert |Name(i)| != |Name(j)|;
    }
    forall e | e in reg.engines
      ensures FindProvider(reg.providers, e.provider).Some?
    {
      var i: nat :| i <= n && reg.engines[i] == e;
    }
  }

  lemma {:induction false} AllAccept(ts: seq<Transform>, kind: Kind)
    requires forall t :: t in ts ==> t.inputs == [kind]
    ensures ForInput(ts, kind) == ts
  {
    if ts != [] {
      var front, last := ts[..|ts| - 1], ts[|ts| - 1];
      assert ts == front + [last];
      AllAccept(front, kind);
      assert [kind][..0] == [];
      assert Repeat(last, [kind], kind) == [last];
    }
  }

  /** Sorting leaves alone what it cannot tell apart. */
  lemma {:induction false} SortKeepsTies<T(!new)>(leq: (T, T) -> bool, s: seq<T>)
    requires forall i, j :: 0 <= i < |s| && 0 <= j < |s| ==> leq(s[i], s[j])
    ensures Sort(leq, s) == s
  {
    if s != [] {
      var front, last := s[..|s| - 1], s[|s| - 1];
      SortKeepsTies(leq, front);
      assert s == front + [last];
      assert front != [] ==> leq(s[|s| - 2], last);
    }
  }

  lemma {:induction false} AllOffered(rs: seq<Routed>, kind: Kind)
    requires forall r :: r in rs ==> r.transform.priority != DeprecatedPriority
    ensures var cs := Offered(rs, kind, 1, []);
      |cs| == |rs| && forall i :: 0 <= i < |rs| ==> cs[i] == Candidate(rs[i], kind, [], 1)
  {
    if rs != [] { AllOffered(rs[..|rs| - 1], kind); }
  }

  function SlowScore(): real {
    EngineScore(Local("", ""), ProviderConfigured)
  }

  /** All of them can run, and score alike. */
  lemma SlowRoute(n: nat, runtimeMs: int, i: nat)
    requires i < n
    ensures var r := Route(SlowRegistry(n, runtimeMs), Slow(i, runtimeMs), FreshContext());
      r.transform == Slow(i, runtimeMs) && r.reason.None? && r.score == SlowScore()
  {
    hide Route, FindEngine, FindProvider, EngineExclusion, EnginesFor, SlowEngines, SlowTransforms, Name;
    var reg, t, ctx := SlowRegistry(n, runtimeMs), Slow(i, runtimeMs), FreshContext();
    RouteKeepsTransform(reg, t, ctx);
    SlowFound(n, i);
    ProvidersFound();
    LocalIsUsable(Name(i), Name(i));
    assert t.engines[0] == Name(i);
    OneEngineIsEnough(reg, t, ctx, Name(i), Local(Name(i), Name(i)), Host());
    ScoreIsOfBest(reg, t, ctx);
    var e := EntryOf(Local(Name(i), Name(i)), Host(), ctx);
    assert e in Route(reg, t, ctx).chain && !e.engine.terminal;
    var best :| IsBest(Route(reg, t, ctx).chain, best) && Route(reg, t, ctx).score == best.score * Weight(t.priority);
    SlowBest(n, runtimeMs, i, best);
  }

  lemma SlowBest(n: nat, runtimeMs: int, i: nat, best: Entry)
    requires i < n && best in Route(SlowRegistry(n, runtimeMs), Slow(i, runtimeMs), FreshContext()).chain
    requires !best.engine.terminal
    ensures best.score == SlowScore()
  {
    hide Route, FindEngine, FindProvider, EngineExclusion, EnginesFor, SlowEngines, SlowTransforms, Name;
    var reg, t, ctx := SlowRegistry(n, runtimeMs), Slow(i, runtimeMs), FreshContext();
    ProvidersFound();
    ChainMembers(reg, t, ctx, best);
    SlowEnginesOf(n, runtimeMs, i);
    var g :| g in EnginesFor(reg, t.engines) && Yields(reg, g, ctx, best);
    assert g == Local(Name(i), Name(i));
  }

  /** The routes of the slow transforms, in their order. */
  lemma SlowRoutes(n: nat, runtimeMs: int)
    ensures var reg := SlowRegistry(n, runtimeMs);
      RouteForInput(reg, "domain", FreshContext()) == RouteAll(reg, reg.transforms, FreshContext())
  {
    hide Route, Sort, ForInput;
    var reg, ctx := SlowRegistry(n, runtimeMs), FreshContext();
    AllAccept(reg.transforms, "domain");
    var all := RouteAll(reg, reg.transforms, ctx);
    forall i, j | 0 <= i < n && 0 <= j < n
      ensures SCORE_ORDER(all[i], all[j])
    {
      SlowRoute(n, runtimeMs, i);
      SlowRoute(n, runtimeMs, j);
    }
    SortKeepsTies(SCORE_ORDER, all);
  }

  /** The i-th candidate can run, and is the i-th slow transform. */
  ghost predicate IsSlow(c: Candidate, i: nat, runtimeMs: int) {
    c.routed.transform == Slow(i, runtimeMs) && c.routed.reason.None? && c.depth == 1
  }

  lemma SlowCandidates(n: nat, runtimeMs: int)
    ensures var cs := CandidatesForKind(SlowRegistry(n, runtimeMs), "domain", FreshContext(), 1, []);
      |cs| == n && forall i: nat :: i < n ==> IsSlow(cs[i], i, runtimeMs)
  {
    hide Route, RouteForInput, Offered;
    var reg, ctx := SlowRegistry(n, runtimeMs), FreshContext();
    SlowRoutes(n, runtimeMs);
    var rs := RouteForInput(reg, "domain", ctx);
    forall i: nat | i < n
      ensures rs[i].transform == Slow(i, runtimeMs) && rs[i].reason.None?
    {
      SlowRoute(n, runtimeMs, i);
    }
    forall r | r in rs
      ensures r.transform.priority != DeprecatedPriority
    {
      var i: nat :| i < |rs| && rs[i] == r;
      assert rs[i].transform == Slow(i, runtimeMs);
    }
    AllOffered(rs, "domain");
  }

  /** After the first k slow candidates: k steps, and only their names taken. */
  ghost predicate TookAll(l: Ledger, b: Budget, k: nat) {
    && |l.steps| == k && l.nodeBudget == b.maxNewNodes - k
    && (forall s :: s in l.steps ==> s.estimatedRuntimeMs == b.maxRuntimeMs)
    && (forall id :: id in l.used ==> |id| <= k)
    && (forall cap :: cap in l.covered ==> |cap| <= k)
  }

  lemma TakeOne(l: Ledger, c: Candidate, b: Budget, k: nat)
    requires TookAll(l, b, k) && IsSlow(c, k, b.maxRuntimeMs) && k < Min(b.maxTransforms, b.maxNewNodes)
    ensures TookAll(Consider(l, c, b, b.maxRuntimeMs), b, k + 1)
  {
    var t := c.routed.transform;
    assert t.id == Name(k) && t.capability == Name(k);
    assert Consider(l, c, b, b.maxRuntimeMs) == Accept(l, c, 1);
  }

  lemma {:induction false} TakeAll(cs: seq<Candidate>, b: Budget)
    requires forall i: nat :: i < |cs| ==> IsSlow(cs[i], i, b.maxRuntimeMs)
    requires |cs| <= Min(b.maxTransforms, b.maxNewNodes)
    ensures TookAll(ConsiderAll(Start(b, {}), cs, b, b.maxRuntimeMs), b, |cs|)
  {
    if cs != [] {
      var front := cs[..|cs| - 1];
      TakeAll(front, b);
      hide TookAll, IsSlow, Consider;
      TakeOne(ConsiderAll(Start(b, {}), front, b, b.maxRuntimeMs), cs[|cs| - 1], b, |cs| - 1);
    }
  }

  lemma {:induction false} SlowestOfEqual(steps: seq<PlanStep>, runtimeMs: int)
    requires steps != [] && forall s :: s in steps ==> s.estimatedRuntimeMs == runtimeMs
    ensures Slowest(steps) == runtimeMs
    decreases |steps|
  {
    assert steps[|steps| - 1] in steps;
    if |steps| > 1 {
      SlowestOfEqual(steps[..|steps| - 1], runtimeMs);
    }
  }

  lemma TwoBatches(maxParallel: int)
    ensures Batches(Max(1, maxParallel) + 1, maxParallel) == 2
  {
    var p := Max(1, maxParallel);
    assert (p + 1 + p - 1) / p == (2 * p) / p == 2;
  }

  /** One transform more than fit a batch, all as slow as allowed: the plan is estimated at twice the budget. */
  lemma SlowPlanOverruns(b: Budget)
    requires b.maxRuntimeMs > 0 && !FewSteps(b)
    ensures PlanOf(SlowRegistry(Max(1, b.maxParallel) + 1, b.maxRuntimeMs), "domain", FreshContext(), b, {}, One).runtimeMs
      == 2 * b.maxRuntimeMs
  {
    var n := Max(1, b.maxParallel) + 1;
    var reg, ctx := SlowRegistry(n, b.maxRuntimeMs), FreshContext();
    SlowCandidates(n, b.maxRuntimeMs);
    var cs := CandidatesForKind(reg, "domain", ctx, 1, []);
    hide CandidatesForKind, SlowRegistry;
    TakeAll(cs, b);
    var steps := FirstLayer(reg, "domain", ctx, b, {}).steps;
    SlowestOfEqual(steps, b.maxRuntimeMs);
    TwoBatches(b.maxParallel);
    hide Slowest, Batches, ConsiderAll;
    LayersSplit(reg, "domain", ctx, b, {}, One);
    assert SecondSteps(reg, "domain", ctx, b, {}, One) == [];
    hide PlanOf;
  }

  /** With registries in order, a budget keeps every plan within the runtime it allows exactly when it allows none, or
    * some and its steps or its nodes run out within one batch.
    */
  lemma BudgetIsKeptExactlyWhen(b: Budget)
    ensures NeverOverruns(b) <==> b.maxRuntimeMs == 0 || (b.maxRuntimeMs > 0 && FewSteps(b))
  {
    hide PlanOf, FewSteps, InOrder;
    if b.maxRuntimeMs < 0 {
      EmptyPlanOverruns(b);
      SlowIsInOrder(0, 1);
    } else if b.maxRuntimeMs == 0 || FewSteps(b) {
      forall reg, kind, ctx, covered, depth | InOrder(reg)
        ensures PlanOf(reg, kind, ctx, b, covered, depth).runtimeMs <= b.maxRuntimeMs
      {
        if b.maxRuntimeMs == 0 {
          InOrderIsPositive(reg);
          NoTimeFits(reg, kind, ctx, b, covered, depth);
        } else {
          FewStepsFit(reg, kind, ctx, b, covered, depth);
        }
      }
    } else {
      SlowPlanOverruns(b);
      SlowIsInOrder(Max(1, b.maxParallel) + 1, b.maxRuntimeMs);
    }
  }

  lemma InOrderIsPositive(reg: Registry)
    requires InOrder(reg)
    ensures PositiveRuntimes(reg)
  {
    hide Validates;
  }

  const DEFAULT_BUDGET := Budget(250, 2, 60_000, 4, 12)

  /** The budget that the planner ships with is not one of those. */
  lemma DefaultBudgetMayOverrun()
    ensures !NeverOverruns(DEFAULT_BUDGET)
  {
    hide NeverOverruns;
    BudgetIsKeptExactlyWhen(DEFAULT_BUDGET);
  }
}
