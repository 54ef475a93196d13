/** The expand planner: what would run, within which budgets, and why everything else would not. */
module Planner {
  import opened Helpers
  import opened Options
  import opened Modes
  import opened Router

  datatype Budget = Budget(maxNewNodes: int, maxDepth: int, maxRuntimeMs: int, maxParallel: int, maxTransforms: int)

  datatype ExpandDepth = One | Two | DeepExpand

  datatype Candidate = Candidate(routed: Routed, inputKind: Kind, dependsOn: seq<TransformId>, depth: nat)

  datatype PlanStep = PlanStep(
    transform: TransformId, inputKind: Kind, dependsOn: seq<TransformId>, depth: nat, chain: seq<EngineId>,
    estimatedRuntimeMs: int, maxResults: int)

  datatype Exclusion = Exclusion(transform: TransformId, reason: Reason)

  /** The variables the `consider` closure shares; `taken` keeps the manifest behind each step. */
  datatype Ledger = Ledger(
    steps: seq<PlanStep>, taken: seq<Transform>, excluded: seq<Exclusion>,
    used: set<TransformId>, covered: set<Capability>, nodeBudget: int)

  function Min(a: int, b: int): int { if a < b then a else b }

  function ChainIds(chain: seq<Entry>): (ids: seq<EngineId>)
    ensures |ids| == |chain| && forall i :: 0 <= i < |chain| ==> ids[i] == chain[i].engine.id
  {
    seq(|chain|, i requires 0 <= i < |chain| => chain[i].engine.id)
  }

  function Exclude(l: Ledger, id: TransformId, reason: Reason): Ledger {
    l.(excluded := l.excluded + [Exclusion(id, reason)], used := l.used + {id})
  }

  function Accept(l: Ledger, c: Candidate, results: int): Ledger {
    var t := c.routed.transform;
    Ledger(
      l.steps + [PlanStep(t.id, c.inputKind, c.dependsOn, c.depth, ChainIds(c.routed.chain), t.expectedRuntimeMs, results)],
      l.taken + [t], l.excluded, l.used + {t.id}, l.covered + {t.capability}, l.nodeBudget - results)
  }

  /** One turn of the loop in `consider`. */
  function Consider(l: Ledger, c: Candidate, b: Budget, runtimeBudget: int): Ledger {
    var t := c.routed.transform;
    if t.id in l.used then l
    else if c.routed.reason.Some? then Exclude(l, t.id, c.routed.reason.value)
    else if t.capability in l.covered then Exclude(l, t.id, AlreadyCovered)
    else if |l.steps| >= b.maxTransforms then Exclude(l, t.id, BudgetExhausted)
    else
      var results := Min(t.maxResults, l.nodeBudget);
      if results <= 0 || t.expectedRuntimeMs > runtimeBudget then Exclude(l, t.id, BudgetExhausted)
      else Accept(l, c, results)
  }

  function ConsiderAll(l: Ledger, cs: seq<Candidate>, b: Budget, runtimeBudget: int): Ledger {
    if cs == [] then l
    else Consider(ConsiderAll(l, cs[..|cs| - 1], b, runtimeBudget), cs[|cs| - 1], b, runtimeBudget)
  }

  // ---------------------------------------------------------------- runtime of a layer

  function Slowest(steps: seq<PlanStep>): int
    requires steps != []
  {
    if |steps| == 1 then steps[0].estimatedRuntimeMs
    else Max(Slowest(steps[..|steps| - 1]), steps[|steps| - 1].estimatedRuntimeMs)
  }

  function Batches(n: nat, maxParallel: int): nat {
    var p := Max(1, maxParallel);
    (n + p - 1) / p
  }

  function LayerRuntime(steps: seq<PlanStep>, maxParallel: int): int {
    if steps == [] then 0 else Batches(|steps|, maxParallel) * Slowest(steps)
  }

  lemma {:induction false} SlowestBound(steps: seq<PlanStep>, bound: int)
    requires steps != [] && forall s :: s in steps ==> s.estimatedRuntimeMs <= bound
    ensures Slowest(steps) <= bound
    decreases |steps|
  {
    assert steps[|steps| - 1] in steps;
    if |steps| > 1 {
      SlowestBound(steps[..|steps| - 1], bound);
    }
  }

  /** One parallel batch takes no longer than its slowest member may. */
  lemma OneBatch(steps: seq<PlanStep>, maxParallel: int, bound: int)
    requires |steps| <= Max(1, maxParallel) && bound >= 0
    requires forall s :: s in steps ==> s.estimatedRuntimeMs <= bound
    ensures LayerRuntime(steps, maxParallel) <= bound
  {
    if steps != [] {
      SlowestBound(steps, bound);
      var p := Max(1, maxParallel);
      assert p <= |steps| + p - 1 < 2 * p;
      assert (|steps| + p - 1) / p == 1;
    }
  }

  // ---------------------------------------------------------------- candidates

  function Offered(rs: seq<Routed>, kind: Kind, depth: nat, dependsOn: seq<TransformId>): seq<Candidate> {
    if rs == [] then []
    else
      var r := rs[|rs| - 1];
      Offered(rs[..|rs| - 1], kind, depth, dependsOn) +
        if r.transform.priority == DeprecatedPriority then [] else [Candidate(r, kind, dependsOn, depth)]
  }

  function CandidatesForKind(reg: Registry, kind: Kind, ctx: Context, depth: nat, dependsOn: seq<TransformId>): seq<Candidate> {
    Offered(RouteForInput(reg, kind, ctx), kind, depth, dependsOn)
  }

  lemma {:induction false} OfferedMembers(rs: seq<Routed>, kind: Kind, depth: nat, dependsOn: seq<TransformId>)
    ensures forall c :: c in Offered(rs, kind, depth, dependsOn) <==>
      c.routed in rs && c.routed.transform.priority != DeprecatedPriority
      && c == Candidate(c.routed, kind, dependsOn, depth)
  {
    if rs != [] {
      OfferedMembers(rs[..|rs| - 1], kind, depth, dependsOn);
      assert rs == rs[..|rs| - 1] + [rs[|rs| - 1]];
    }
  }

  // ---------------------------------------------------------------- producers

  /** Per output kind, in order of first appearance, the first-layer transforms that produce it. */
  datatype Producer = Producer(kind: Kind, ids: seq<TransformId>)

  function AddProducer(ps: seq<Producer>, kind: Kind, id: TransformId): seq<Producer> {
    if ps == [] then [Producer(kind, [id])]
    else if ps[0].kind == kind then [Producer(kind, ps[0].ids + [id])] + ps[1..]
    else [ps[0]] + AddProducer(ps[1..], kind, id)
  }

  function AddOutputs(ps: seq<Producer>, outputs: seq<Kind>, id: TransformId): seq<Producer> {
    if outputs == [] then ps
    else AddProducer(AddOutputs(ps, outputs[..|outputs| - 1], id), outputs[|outputs| - 1], id)
  }

  function ProducersOf(reg: Registry, steps: seq<PlanStep>): seq<Producer> {
    if steps == [] then []
    else
      var ps := ProducersOf(reg, steps[..|steps| - 1]);
      match FindTransform(reg.transforms, steps[|steps| - 1].transform)
      case None => ps
      case Some(m) => AddOutputs(ps, m.outputs, m.id)
  }

  function SecondCandidates(reg: Registry, ps: seq<Producer>, ctx: Context): seq<Candidate> {
    if ps == [] then []
    else
      SecondCandidates(reg, ps[..|ps| - 1], ctx)
        + CandidatesForKind(reg, ps[|ps| - 1].kind, ctx, 2, ps[|ps| - 1].ids)
  }

  // ---------------------------------------------------------------- the plan

  function Start(b: Budget, covered: set<Capability>): Ledger {
    Ledger([], [], [], {}, covered, b.maxNewNodes)
  }

  function FirstLayer(reg: Registry, kind: Kind, ctx: Context, b: Budget, covered: set<Capability>): Ledger {
    ConsiderAll(Start(b, covered), CandidatesForKind(reg, kind, ctx, 1, []), b, b.maxRuntimeMs)
  }

  function DepthOf(depth: ExpandDepth, b: Budget): int {
    match depth
    case One => Min(1, b.maxDepth)
    case Two => Min(2, b.maxDepth)
    case DeepExpand => b.maxDepth
  }

  function Planned(reg: Registry, kind: Kind, ctx: Context, b: Budget, covered: set<Capability>, depth: ExpandDepth): Ledger {
    var first := FirstLayer(reg, kind, ctx, b, covered);
    var rest := b.maxRuntimeMs - LayerRuntime(first.steps, b.maxParallel);
    if DepthOf(depth, b) >= 2 && rest > 0 then
      ConsiderAll(first, SecondCandidates(reg, ProducersOf(reg, first.steps), ctx), b, rest)
    else first
  }

  function AtDepth(steps: seq<PlanStep>, depth: nat): seq<PlanStep> {
    if steps == [] then []
    else
      AtDepth(steps[..|steps| - 1], depth) + if steps[|steps| - 1].depth == depth then [steps[|steps| - 1]] else []
  }

  function RuntimeMs(steps: seq<PlanStep>, maxParallel: int): int {
    LayerRuntime(AtDepth(steps, 1), maxParallel) + LayerRuntime(AtDepth(steps, 2), maxParallel)
  }

  function SumResults(steps: seq<PlanStep>): int {
    if steps == [] then 0 else SumResults(steps[..|steps| - 1]) + steps[|steps| - 1].maxResults
  }

  /** The engine a step would run first. */
  function Primary(reg: Registry, ctx: Context, id: TransformId): Option<Entry> {
    match FindTransform(reg.transforms, id)
    case None => None
    case Some(m) => FirstExecutable(Route(reg, m, ctx).chain)
  }

  datatype Needs = Needs(network: bool, providers: seq<ProviderId>, credentials: seq<ProviderId>)

  function NeedsOf(reg: Registry, ctx: Context, steps: seq<PlanStep>): Needs {
    if steps == [] then Needs(false, [], [])
    else
      var n := NeedsOf(reg, ctx, steps[..|steps| - 1]);
      match Primary(reg, ctx, steps[|steps| - 1].transform)
      case None => n
      case Some(e) =>
        Needs(n.network || e.engine.dataFlow != LocalFlow,
              AddOnce(n.providers, e.provider.id),
              if e.provider.credentials == RequiredCredentials then AddOnce(n.credentials, e.provider.id) else n.credentials)
  }

  datatype Plan = Plan(steps: seq<PlanStep>, runtimeMs: int, minEntities: nat, maxEntities: int, needs: Needs,
                       excluded: seq<Exclusion>)

  function PlanOf(reg: Registry, kind: Kind, ctx: Context, b: Budget, covered: set<Capability>, depth: ExpandDepth): Plan {
    var l := Planned(reg, kind, ctx, b, covered, depth);
    Plan(l.steps, RuntimeMs(l.steps, b.maxParallel), |AtDepth(l.steps, 1)|,
         Min(SumResults(l.steps), b.maxNewNodes), NeedsOf(reg, ctx, l.steps), l.excluded)
  }

  // ---------------------------------------------------------------- every candidate is accounted for once

  function StepIds(steps: seq<PlanStep>): (ids: seq<TransformId>)
    ensures |ids| == |steps| && forall i :: 0 <= i < |steps| ==> ids[i] == steps[i].transform
  {
    seq(|steps|, i requires 0 <= i < |steps| => steps[i].transform)
  }

  function ExcludedIds(es: seq<Exclusion>): (ids: seq<TransformId>)
    ensures |ids| == |es| && forall i :: 0 <= i < |es| ==> ids[i] == es[i].transform
  {
    seq(|es|, i requires 0 <= i < |es| => es[i].transform)
  }

  /** Each used transform is in exactly one of the two lists, exactly once. */
  ghost predicate AccountedOnce(l: Ledger) {
    && (forall id {:trigger id in l.used} ::
          multiset(StepIds(l.steps))[id] + multiset(ExcludedIds(l.excluded))[id] == if id in l.used then 1 else 0)
  }

  lemma AddStepId(steps: seq<PlanStep>, s: PlanStep)
    ensures StepIds(steps + [s]) == StepIds(steps) + [s.transform]
  {
  }

  lemma AddExcludedId(es: seq<Exclusion>, e: Exclusion)
    ensures ExcludedIds(es + [e]) == ExcludedIds(es) + [e.transform]
  {
  }

  lemma ConsiderAccounts(l: Ledger, c: Candidate, b: Budget, runtimeBudget: int)
    requires AccountedOnce(l)
    ensures AccountedOnce(Consider(l, c, b, runtimeBudget))
    ensures c.routed.transform.id in Consider(l, c, b, runtimeBudget).used
    ensures l.used <= Consider(l, c, b, runtimeBudget).used
  {
    hide AccountedOnce, Consider;
    UsesOrKeeps(l, c, b, runtimeBudget);
    var l', id := Consider(l, c, b, runtimeBudget), c.routed.transform.id;
    if id !in l.used {
      if l'.steps != l.steps {
        StepAccounts(l, l', l'.steps[|l.steps|]);
      } else {
        ExclusionAccounts(l, l', l'.excluded[|l.excluded|]);
      }
    }
  }

  /** A transform not met before goes to the end of one of the two lists; one met before changes nothing. */
  lemma UsesOrKeeps(l: Ledger, c: Candidate, b: Budget, runtimeBudget: int)
    ensures var l', id := Consider(l, c, b, runtimeBudget), c.routed.transform.id;
      if id in l.used then l' == l
      else
        && l'.used == l.used + {id}
        && if l'.steps != l.steps then
             l'.excluded == l.excluded && |l'.steps| == |l.steps| + 1 && l'.steps == l.steps + [l'.steps[|l.steps|]]
             && l'.steps[|l.steps|].transform == id
           else
             |l'.excluded| == |l.excluded| + 1 && l'.excluded == l.excluded + [l'.excluded[|l.excluded|]]
             && l'.excluded[|l.excluded|].transform == id
  {
  }

  lemma StepAccounts(l: Ledger, l': Ledger, s: PlanStep)
    requires AccountedOnce(l) && s.transform !in l.used
    requires l'.steps == l.steps + [s] && l'.excluded == l.excluded && l'.used == l.used + {s.transform}
    ensures AccountedOnce(l')
  {
    AddStepId(l.steps, s);
    hide StepIds, ExcludedIds;
  }

  lemma ExclusionAccounts(l: Ledger, l': Ledger, e: Exclusion)
    requires AccountedOnce(l) && e.transform !in l.used
    requires l'.steps == l.steps && l'.excluded == l.excluded + [e] && l'.used == l.used + {e.transform}
    ensures AccountedOnce(l')
  {
    AddExcludedId(l.excluded, e);
    hide StepIds, ExcludedIds;
  }

  lemma {:induction false} ConsiderAllAccounts(l: Ledger, cs: seq<Candidate>, b: Budget, runtimeBudget: int)
    requires AccountedOnce(l)
    ensures AccountedOnce(ConsiderAll(l, cs, b, runtimeBudget))
    ensures forall c :: c in cs ==> c.routed.transform.id in ConsiderAll(l, cs, b, runtimeBudget).used
    ensures l.used <= ConsiderAll(l, cs, b, runtimeBudget).used
    decreases |cs|
  {
    if cs != [] {
      var front, last := cs[..|cs| - 1], cs[|cs| - 1];
      hide AccountedOnce, Consider;
      ConsiderAllAccounts(l, front, b, runtimeBudget);
      ConsiderAccounts(ConsiderAll(l, front, b, runtimeBudget), last, b, runtimeBudget);
      assert cs == front + [last];
    }
  }

  lemma PlannedAccounts(reg: Registry, kind: Kind, ctx: Context, b: Budget, covered: set<Capability>, depth: ExpandDepth)
    ensures AccountedOnce(Planned(reg, kind, ctx, b, covered, depth))
    ensures forall c :: c in CandidatesForKind(reg, kind, ctx, 1, []) ==>
      c.routed.transform.id in Planned(reg, kind, ctx, b, covered, depth).used
  {
    hide ConsiderAll, CandidatesForKind, LayerRuntime;
    ConsiderAllAccounts(Start(b, covered), CandidatesForKind(reg, kind, ctx, 1, []), b, b.maxRuntimeMs);
    var first := FirstLayer(reg, kind, ctx, b, covered);
    ConsiderAllAccounts(first, SecondCandidates(reg, ProducersOf(reg, first.steps), ctx), b,
                        b.maxRuntimeMs - LayerRuntime(first.steps, b.maxParallel));
  }

  /** Every non-deprecated transform that accepts the kind appears in the plan exactly once: as a step, or
    * excluded with a reason.
    */
  lemma EveryCandidateIsAccountedFor(reg: Registry, kind: Kind, ctx: Context, b: Budget, covered: set<Capability>,
                                     depth: ExpandDepth, t: Transform)
    requires t in reg.transforms && kind in t.inputs && t.priority != DeprecatedPriority
    ensures var p := PlanOf(reg, kind, ctx, b, covered, depth);
      multiset(StepIds(p.steps))[t.id] + multiset(ExcludedIds(p.excluded))[t.id] == 1
  {
    PlannedAccounts(reg, kind, ctx, b, covered, depth);
    RoutedForInput(reg, kind, ctx);
    RouteKeepsTransform(reg, t, ctx);
    hide Route, RouteForInput;
    var r := Route(reg, t, ctx);
    OfferedMembers(RouteForInput(reg, kind, ctx), kind, 1, []);
    hide Planned, NeedsOf, Offered;
    assert Candidate(r, kind, [], 1) in CandidatesForKind(reg, kind, ctx, 1, []);
  }

  // ---------------------------------------------------------------- every exclusion is true

  /** The reason given for a candidate holds of the ledger: the router refused it, its capability is covered, or one of
    * the budgets has no room for it.
    */
  predicate Holds(l: Ledger, c: Candidate, b: Budget, runtimeBudget: int, reason: Reason) {
    var t := c.routed.transform;
    match c.routed.reason
    case Some(refusal) => reason == refusal
    case None =>
      if reason == AlreadyCovered then t.capability in l.covered
      else
        reason == BudgetExhausted &&
        (|l.steps| >= b.maxTransforms || l.nodeBudget <= 0 || t.maxResults <= 0 || t.expectedRuntimeMs > runtimeBudget)
  }

  ghost predicate Justified(l: Ledger, cs: seq<Candidate>, b: Budget, runtimeBudget: int, x: Exclusion) {
    exists c :: c in cs && c.routed.transform.id == x.transform && Holds(l, c, b, runtimeBudget, x.reason)
  }

  /** Budgets only shrink and coverage only grows. */
  predicate Spends(l: Ledger, l': Ledger) {
    l.covered <= l'.covered && |l.steps| <= |l'.steps| && l'.nodeBudget <= l.nodeBudget
  }

  lemma JustifiedLater(l: Ledger, l': Ledger, cs: seq<Candidate>, more: seq<Candidate>, b: Budget, runtimeBudget: int,
                       x: Exclusion)
    requires Justified(l, cs, b, runtimeBudget, x) && Spends(l, l')
    ensures Justified(l', cs + more, b, runtimeBudget, x)
  {
    var c :| c in cs && c.routed.transform.id == x.transform && Holds(l, c, b, runtimeBudget, x.reason);
    assert c in cs + more && Holds(l', c, b, runtimeBudget, x.reason);
  }

  lemma ConsiderJustifies(l: Ledger, c: Candidate, b: Budget, runtimeBudget: int)
    ensures var l' := Consider(l, c, b, runtimeBudget);
      && Spends(l, l')
      && (l'.excluded == l.excluded ||
          (exists reason :: l'.excluded == l.excluded + [Exclusion(c.routed.transform.id, reason)]
                            && Holds(l', c, b, runtimeBudget, reason)))
  {
    var l' := Consider(l, c, b, runtimeBudget);
    if l'.excluded != l.excluded {
      var x := l'.excluded[|l.excluded|];
      assert l'.excluded == l.excluded + [Exclusion(c.routed.transform.id, x.reason)];
      assert Holds(l', c, b, runtimeBudget, x.reason);
    }
  }

  lemma {:induction false} ConsiderAllJustifies(l: Ledger, cs: seq<Candidate>, b: Budget, runtimeBudget: int)
    ensures Spends(l, ConsiderAll(l, cs, b, runtimeBudget))
    ensures forall x :: x in ConsiderAll(l, cs, b, runtimeBudget).excluded ==>
      x in l.excluded || Justified(ConsiderAll(l, cs, b, runtimeBudget), cs, b, runtimeBudget, x)
    decreases |cs|
  {
    if cs != [] {
      var front, c := cs[..|cs| - 1], cs[|cs| - 1];
      ConsiderAllJustifies(l, front, b, runtimeBudget);
      var before, after := ConsiderAll(l, front, b, runtimeBudget), ConsiderAll(l, cs, b, runtimeBudget);
      ConsiderJustifies(before, c, b, runtimeBudget);
      assert cs == front + [c] && c in cs;
      hide Consider, Holds, ConsiderAll;
      forall x | x in after.excluded
        ensures x in l.excluded || Justified(after, cs, b, runtimeBudget, x)
      {
        if x in before.excluded && x !in l.excluded {
          JustifiedLater(before, after, front, [c], b, runtimeBudget, x);
        }
      }
    }
  }

  /** Every exclusion in a plan is true of it: it names a candidate of one of the two layers, with the router's refusal,
    * with a capability that is covered, or with a budget that has no room for it.
    */
  lemma EveryExclusionIsTrue(reg: Registry, kind: Kind, ctx: Context, b: Budget, covered: set<Capability>,
                             depth: ExpandDepth, x: Exclusion)
    requires x in PlanOf(reg, kind, ctx, b, covered, depth).excluded
    ensures var l, first := Planned(reg, kind, ctx, b, covered, depth), FirstLayer(reg, kind, ctx, b, covered);
      || Justified(l, CandidatesForKind(reg, kind, ctx, 1, []), b, b.maxRuntimeMs, x)
      || Justified(l, SecondCandidates(reg, ProducersOf(reg, first.steps), ctx), b,
                   b.maxRuntimeMs - LayerRuntime(first.steps, b.maxParallel), x)
  {
    hide ConsiderAll, CandidatesForKind, LayerRuntime, Justified, NeedsOf, SecondCandidates;
    var l, first := Planned(reg, kind, ctx, b, covered, depth), FirstLayer(reg, kind, ctx, b, covered);
    var cs1 := CandidatesForKind(reg, kind, ctx, 1, []);
    ConsiderAllJustifies(Start(b, covered), cs1, b, b.maxRuntimeMs);
    ConsiderAllJustifies(first, SecondCandidates(reg, ProducersOf(reg, first.steps), ctx), b,
                         b.maxRuntimeMs - LayerRuntime(first.steps, b.maxParallel));
    if Justified(first, cs1, b, b.maxRuntimeMs, x) {
      JustifiedLater(first, l, cs1, [], b, b.maxRuntimeMs, x);
      assert cs1 + [] == cs1;
    }
  }

  // ---------------------------------------------------------------- budgets

  ghost predicate Takes(taken: seq<Transform>, cap: Capability) {
    exists i :: 0 <= i < |taken| && taken[i].capability == cap
  }

  lemma TakesSnoc(taken: seq<Transform>, t: Transform, cap: Capability)
    ensures Takes(taken + [t], cap) <==> Takes(taken, cap) || t.capability == cap
  {
    var more := taken + [t];
    if Takes(taken, cap) {
      var i :| 0 <= i < |taken| && taken[i].capability == cap;
      assert more[i].capability == cap;
    }
    assert more[|taken|] == t;
  }

  /** What the budgets and the coverage set say about the steps taken so far. */
  ghost predicate WithinBudget(l: Ledger, b: Budget, covered: set<Capability>) {
    && |l.taken| == |l.steps|
    && (forall i :: 0 <= i < |l.steps| ==> l.steps[i].transform == l.taken[i].id && l.steps[i].maxResults > 0)
    && (forall i, j :: 0 <= i < j < |l.taken| ==> l.taken[i].capability != l.taken[j].capability)
    && (forall i :: 0 <= i < |l.taken| ==> l.taken[i].capability !in covered)
    && (forall cap :: cap in l.covered <==> cap in covered || Takes(l.taken, cap))
    && |l.steps| <= Max(0, b.maxTransforms)
    && SumResults(l.steps) + l.nodeBudget == b.maxNewNodes
    && (b.maxNewNodes >= 0 ==> l.nodeBudget >= 0)
    && (b.maxNewNodes < 0 ==> l.steps == [])
  }

  lemma AcceptCovers(l: Ledger, t: Transform, covered: set<Capability>)
    requires forall cap :: cap in l.covered <==> cap in covered || Takes(l.taken, cap)
    ensures forall cap :: cap in l.covered + {t.capability} <==> cap in covered || Takes(l.taken + [t], cap)
  {
    hide Takes;
    forall cap
      ensures Takes(l.taken + [t], cap) <==> Takes(l.taken, cap) || t.capability == cap
    {
      TakesSnoc(l.taken, t, cap);
    }
  }

  lemma NotTaken(taken: seq<Transform>, t: Transform)
    requires !Takes(taken, t.capability)
    ensures forall i :: 0 <= i < |taken| ==> taken[i].capability != t.capability
  {
  }

  lemma AcceptKeepsBudget(l: Ledger, c: Candidate, b: Budget, covered: set<Capability>, results: int)
    requires WithinBudget(l, b, covered)
    requires c.routed.transform.capability !in l.covered && |l.steps| < b.maxTransforms
    requires 0 < results <= l.nodeBudget
    ensures WithinBudget(Accept(l, c, results), b, covered)
  {
    hide Takes;
    var l' := Accept(l, c, results);
    assert l'.steps[..|l.steps|] == l.steps;
    AcceptCovers(l, c.routed.transform, covered);
    NotTaken(l.taken, c.routed.transform);
  }

  lemma ConsiderKeepsBudget(l: Ledger, c: Candidate, b: Budget, covered: set<Capability>, runtimeBudget: int)
    requires WithinBudget(l, b, covered)
    ensures WithinBudget(Consider(l, c, b, runtimeBudget), b, covered)
  {
    var t := c.routed.transform;
    var results := Min(t.maxResults, l.nodeBudget);
    if t.id !in l.used && c.routed.reason.None? && t.capability !in l.covered && |l.steps| < b.maxTransforms
       && results > 0 && t.expectedRuntimeMs <= runtimeBudget {
      AcceptKeepsBudget(l, c, b, covered, results);
    }
  }

  lemma {:induction false} ConsiderAllKeepsBudget(l: Ledger, cs: seq<Candidate>, b: Budget, covered: set<Capability>,
                                                  runtimeBudget: int)
    requires WithinBudget(l, b, covered)
    ensures WithinBudget(ConsiderAll(l, cs, b, runtimeBudget), b, covered)
    decreases |cs|
  {
    hide WithinBudget, Consider;
    if cs != [] {
      ConsiderAllKeepsBudget(l, cs[..|cs| - 1], b, covered, runtimeBudget);
      ConsiderKeepsBudget(ConsiderAll(l, cs[..|cs| - 1], b, runtimeBudget), cs[|cs| - 1], b, covered, runtimeBudget);
    }
  }

  lemma StartWithinBudget(b: Budget, covered: set<Capability>)
    ensures WithinBudget(Start(b, covered), b, covered)
  {
  }

  lemma PlannedWithinBudget(reg: Registry, kind: Kind, ctx: Context, b: Budget, covered: set<Capability>, depth: ExpandDepth)
    ensures WithinBudget(Planned(reg, kind, ctx, b, covered, depth), b, covered)
  {
    StartWithinBudget(b, covered);
    hide ConsiderAll, CandidatesForKind, LayerRuntime, WithinBudget;
    ConsiderAllKeepsBudget(Start(b, covered), CandidatesForKind(reg, kind, ctx, 1, []), b, covered, b.maxRuntimeMs);
    var first := FirstLayer(reg, kind, ctx, b, covered);
    ConsiderAllKeepsBudget(first, SecondCandidates(reg, ProducersOf(reg, first.steps), ctx), b, covered,
                           b.maxRuntimeMs - LayerRuntime(first.steps, b.maxParallel));
  }

  /** Step and node budgets hold, capabilities are distinct and new, and with a nonnegative node budget the
    * estimate is the exact sum of what the steps may add.
    */
  lemma BudgetsHold(reg: Registry, kind: Kind, ctx: Context, b: Budget, covered: set<Capability>, depth: ExpandDepth)
    ensures var l := Planned(reg, kind, ctx, b, covered, depth); var p := PlanOf(reg, kind, ctx, b, covered, depth);
      && |p.steps| <= Max(0, b.maxTransforms)
      && SumResults(p.steps) <= Max(0, b.maxNewNodes)
      && (p.maxEntities == SumResults(p.steps) <==> b.maxNewNodes >= 0)
      && |l.taken| == |p.steps|
      && (forall i :: 0 <= i < |p.steps| ==> p.steps[i].transform == l.taken[i].id && l.taken[i].capability !in covered)
      && (forall i, j :: 0 <= i < j < |p.steps| ==> l.taken[i].capability != l.taken[j].capability)
  {
    PlannedWithinBudget(reg, kind, ctx, b, covered, depth);
    hide Planned, NeedsOf, RuntimeMs;
  }

  // ---------------------------------------------------------------- layers

  /** A step that was accepted from one of the candidates, inside the runtime left to its layer. */
  ghost predicate FromCandidates(s: PlanStep, cs: seq<Candidate>, runtimeBudget: int) {
    && s.estimatedRuntimeMs <= runtimeBudget
    && exists c :: c in cs && c.routed.transform.id == s.transform && c.inputKind == s.inputKind
         && c.dependsOn == s.dependsOn && c.depth == s.depth && c.routed.reason.None?
  }

  /** Considering candidates only appends steps of its own. */
  lemma {:induction false} ConsiderAllAppends(l: Ledger, cs: seq<Candidate>, b: Budget, runtimeBudget: int)
    ensures l.steps <= ConsiderAll(l, cs, b, runtimeBudget).steps
    ensures forall s :: s in ConsiderAll(l, cs, b, runtimeBudget).steps[|l.steps|..] ==> FromCandidates(s, cs, runtimeBudget)
    decreases |cs|
  {
    if cs != [] {
      var front, last := cs[..|cs| - 1], cs[|cs| - 1];
      ConsiderAllAppends(l, front, b, runtimeBudget);
      var l1 := ConsiderAll(l, front, b, runtimeBudget);
      var l2 := Consider(l1, last, b, runtimeBudget);
      assert last in cs;
      ConsiderAppends(l1, last, b, runtimeBudget, cs);
      forall s | s in l2.steps[|l.steps|..]
        ensures FromCandidates(s, cs, runtimeBudget)
      {
        if s in l1.steps[|l.steps|..] {
          MoreCandidates(s, front, last, runtimeBudget);
          assert cs == front + [last];
        } else {
          assert s == l2.steps[|l1.steps|];
        }
      }
    }
  }

  lemma ConsiderAppends(l: Ledger, c: Candidate, b: Budget, runtimeBudget: int, cs: seq<Candidate>)
    requires c in cs
    ensures var l' := Consider(l, c, b, runtimeBudget);
      l'.steps == l.steps ||
      (l'.steps == l.steps + [l'.steps[|l'.steps| - 1]] && FromCandidates(l'.steps[|l'.steps| - 1], cs, runtimeBudget))
  {
  }

  lemma MoreCandidates(s: PlanStep, cs: seq<Candidate>, c: Candidate, runtimeBudget: int)
    requires FromCandidates(s, cs, runtimeBudget)
    ensures FromCandidates(s, cs + [c], runtimeBudget)
  {
    var d :| d in cs && d.routed.transform.id == s.transform && d.inputKind == s.inputKind
      && d.dependsOn == s.dependsOn && d.depth == s.depth && d.routed.reason.None?;
    assert d in cs + [c];
  }

  lemma {:induction false} DepthConcat(a: seq<PlanStep>, c: seq<PlanStep>, d: nat)
    ensures AtDepth(a + c, d) == AtDepth(a, d) + AtDepth(c, d)
    decreases |c|
  {
    if c == [] {
      assert a + c == a;
    } else {
      assert (a + c)[..|a + c| - 1] == a + c[..|c| - 1];
      DepthConcat(a, c[..|c| - 1], d);
    }
  }

  lemma {:induction false} OneDepth(a: seq<PlanStep>, at: nat, d: nat)
    requires forall s :: s in a ==> s.depth == at
    ensures AtDepth(a, d) == if d == at then a else []
  {
    if a != [] {
      var front, last := a[..|a| - 1], a[|a| - 1];
      assert a == front + [last];
      assert last in a && forall s :: s in front ==> s in a;
      OneDepth(front, at, d);
      assert AtDepth(a, d) == AtDepth(front, d) + if last.depth == d then [last] else [];
      hide AtDepth;
    }
  }

  lemma AllAtDepth(a: seq<PlanStep>, c: seq<PlanStep>, da: nat, dc: nat)
    requires da != dc
    requires (forall s :: s in a ==> s.depth == da) && (forall s :: s in c ==> s.depth == dc)
    ensures AtDepth(a + c, da) == a && AtDepth(a + c, dc) == c
  {
    DepthConcat(a, c, da);
    DepthConcat(a, c, dc);
    OneDepth(a, da, da);
    OneDepth(a, da, dc);
    OneDepth(c, dc, da);
    OneDepth(c, dc, dc);
    hide AtDepth;
  }

  lemma FirstLayerSteps(reg: Registry, kind: Kind, ctx: Context, b: Budget, covered: set<Capability>)
    ensures forall s :: s in FirstLayer(reg, kind, ctx, b, covered).steps ==>
      s.depth == 1 && s.dependsOn == [] && s.inputKind == kind && s.estimatedRuntimeMs <= b.maxRuntimeMs
  {
    var cs := CandidatesForKind(reg, kind, ctx, 1, []);
    ConsiderAllAppends(Start(b, covered), cs, b, b.maxRuntimeMs);
    OfferedMembers(RouteForInput(reg, kind, ctx), kind, 1, []);
    hide RouteForInput, Offered, ConsiderAll;
    var steps := FirstLayer(reg, kind, ctx, b, covered).steps;
    assert steps[0..] == steps;
  }

  // ---------------------------------------------------------------- dependencies

  ghost predicate Produces(reg: Registry, steps: seq<PlanStep>, kind: Kind, id: TransformId) {
    exists i :: 0 <= i < |steps| && steps[i].transform == id && FindTransform(reg.transforms, id).Some?
      && kind in FindTransform(reg.transforms, id).value.outputs
  }

  ghost predicate Lists(ps: seq<Producer>, kind: Kind, id: TransformId) {
    exists p :: p in ps && p.kind == kind && id in p.ids
  }

  ghost predicate DistinctKinds(ps: seq<Producer>) {
    && (forall i, j :: 0 <= i < j < |ps| ==> ps[i].kind != ps[j].kind)
    && (forall i :: 0 <= i < |ps| ==> ps[i].ids != [])
  }

  lemma {:induction false} AddProducerLists(ps: seq<Producer>, kind: Kind, id: TransformId)
    requires DistinctKinds(ps)
    ensures DistinctKinds(AddProducer(ps, kind, id))
    ensures forall k, i :: Lists(AddProducer(ps, kind, id), k, i) <==> Lists(ps, k, i) || (k == kind && i == id)
    ensures forall p :: p in AddProducer(ps, kind, id) ==> p.kind == kind || p in ps
    decreases |ps|
  {
    var qs := AddProducer(ps, kind, id);
    if ps == [] {
      assert qs[0].kind == kind && id in qs[0].ids;
    } else if ps[0].kind == kind {
      FirstProducerGrows(ps, id);
    } else {
      AddProducerLists(ps[1..], kind, id);
      var rest := AddProducer(ps[1..], kind, id);
      assert ps == [ps[0]] + ps[1..];
      forall k, i
        ensures Lists(qs, k, i) <==> Lists([ps[0]], k, i) || Lists(rest, k, i)
        ensures Lists(ps, k, i) <==> Lists([ps[0]], k, i) || Lists(ps[1..], k, i)
      {
        ListsConcat([ps[0]], rest, k, i);
        ListsConcat([ps[0]], ps[1..], k, i);
      }
      PrependDistinct(ps, rest, kind);
    }
  }

  /** A list that keeps its first producer, and whose rest holds only the new kind and old producers, stays distinct. */
  lemma PrependDistinct(ps: seq<Producer>, rest: seq<Producer>, kind: Kind)
    requires DistinctKinds(ps) && ps != [] && ps[0].kind != kind && DistinctKinds(rest)
    requires forall p :: p in rest ==> p.kind == kind || p in ps[1..]
    ensures DistinctKinds([ps[0]] + rest)
  {
    forall j | 0 <= j < |rest|
      ensures rest[j].kind != ps[0].kind
    {
      assert rest[j] in rest;
      if rest[j] in ps[1..] {
        var m :| 0 <= m < |ps[1..]| && ps[1..][m] == rest[j];
        assert ps[m + 1].kind != ps[0].kind;
      }
    }
  }

  lemma ListsConcat(a: seq<Producer>, c: seq<Producer>, k: Kind, i: TransformId)
    ensures Lists(a + c, k, i) <==> Lists(a, k, i) || Lists(c, k, i)
  {
    if Lists(a, k, i) { var p :| p in a && p.kind == k && i in p.ids; assert p in a + c; }
    if Lists(c, k, i) { var p :| p in c && p.kind == k && i in p.ids; assert p in a + c; }
  }

  lemma FirstProducerGrows(ps: seq<Producer>, id: TransformId)
    requires ps != [] && DistinctKinds(ps)
    ensures var qs := [Producer(ps[0].kind, ps[0].ids + [id])] + ps[1..];
      && DistinctKinds(qs)
      && forall k, i :: Lists(qs, k, i) <==> Lists(ps, k, i) || (k == ps[0].kind && i == id)
  {
    var head := Producer(ps[0].kind, ps[0].ids + [id]);
    forall k, i
      ensures Lists([head] + ps[1..], k, i) <==> Lists(ps, k, i) || (k == ps[0].kind && i == id)
    {
      ListsConcat([head], ps[1..], k, i);
      ListsConcat([ps[0]], ps[1..], k, i);
      assert ps == [ps[0]] + ps[1..];
      assert Lists([head], k, i) <==> k == head.kind && i in head.ids by { assert head in [head]; }
      assert Lists([ps[0]], k, i) <==> k == ps[0].kind && i in ps[0].ids by { assert ps[0] in [ps[0]]; }
    }
  }

  lemma {:induction false} AddOutputsLists(ps: seq<Producer>, outputs: seq<Kind>, id: TransformId)
    requires DistinctKinds(ps)
    ensures DistinctKinds(AddOutputs(ps, outputs, id))
    ensures forall k, i :: Lists(AddOutputs(ps, outputs, id), k, i) <==> Lists(ps, k, i) || (k in outputs && i == id)
    decreases |outputs|
  {
    hide Lists, DistinctKinds;
    if outputs != [] {
      var front, last := outputs[..|outputs| - 1], outputs[|outputs| - 1];
      AddOutputsLists(ps, front, id);
      AddProducerLists(AddOutputs(ps, front, id), last, id);
      assert outputs == front + [last];
    }
  }

  lemma {:induction false} FoundHasId(ts: seq<Transform>, id: TransformId)
    ensures FindTransform(ts, id).Some? ==> FindTransform(ts, id).value in ts && FindTransform(ts, id).value.id == id
  {
    if ts != [] { FoundHasId(ts[..|ts| - 1], id); }
  }

  lemma ProducesSnoc(reg: Registry, steps: seq<PlanStep>, k: Kind, i: TransformId)
    requires steps != []
    ensures var last := steps[|steps| - 1]; var m := FindTransform(reg.transforms, last.transform);
      Produces(reg, steps, k, i) <==>
        Produces(reg, steps[..|steps| - 1], k, i) || (i == last.transform && m.Some? && k in m.value.outputs)
  {
    hide FindTransform;
    var front := steps[..|steps| - 1];
    if Produces(reg, front, k, i) {
      var j :| 0 <= j < |front| && front[j].transform == i;
      assert steps[j].transform == i;
    }
  }

  lemma {:induction false} ProducersAreExact(reg: Registry, steps: seq<PlanStep>)
    ensures DistinctKinds(ProducersOf(reg, steps))
    ensures forall k, i :: Lists(ProducersOf(reg, steps), k, i) <==> Produces(reg, steps, k, i)
    decreases |steps|
  {
    hide DistinctKinds, Lists, Produces, FindTransform;
    if steps == [] {
      NothingProduced(reg);
    } else {
      var front, last := steps[..|steps| - 1], steps[|steps| - 1];
      ProducersAreExact(reg, front);
      FoundHasId(reg.transforms, last.transform);
      forall k, i
        ensures Lists(ProducersOf(reg, steps), k, i) <==> Produces(reg, steps, k, i)
      {
        ProducesSnoc(reg, steps, k, i);
        match FindTransform(reg.transforms, last.transform)
        case None =>
        case Some(m) => AddOutputsLists(ProducersOf(reg, front), m.outputs, m.id);
      }
      match FindTransform(reg.transforms, last.transform)
      case None =>
      case Some(m) => AddOutputsLists(ProducersOf(reg, front), m.outputs, m.id);
    }
  }

  lemma NothingProduced(reg: Registry)
    ensures DistinctKinds([]) && forall k, i :: !Lists([], k, i) && !Produces(reg, [], k, i)
  {
  }

  lemma {:induction false} SecondMembers(reg: Registry, ps: seq<Producer>, ctx: Context, c: Candidate)
    requires c in SecondCandidates(reg, ps, ctx)
    ensures c.depth == 2 && exists p :: p in ps && p.kind == c.inputKind && p.ids == c.dependsOn
    decreases |ps|
  {
    var front, last := ps[..|ps| - 1], ps[|ps| - 1];
    if c in SecondCandidates(reg, front, ctx) {
      SecondMembers(reg, front, ctx, c);
      var p :| p in front && p.kind == c.inputKind && p.ids == c.dependsOn;
      assert p in ps;
    } else {
      OfferedMembers(RouteForInput(reg, last.kind, ctx), last.kind, 2, last.ids);
      assert last in ps;
    }
  }

  lemma KindDetermines(ps: seq<Producer>, p: Producer, k: Kind, i: TransformId)
    requires DistinctKinds(ps) && p in ps && p.kind == k
    ensures i in p.ids <==> Lists(ps, k, i)
  {
    if Lists(ps, k, i) {
      var q :| q in ps && q.kind == k && i in q.ids;
      var a :| 0 <= a < |ps| && ps[a] == p;
      var c :| 0 <= c < |ps| && ps[c] == q;
      assert a == c;
    }
  }

  /** The second layer on its own. */
  function SecondSteps(reg: Registry, kind: Kind, ctx: Context, b: Budget, covered: set<Capability>, depth: ExpandDepth):
    seq<PlanStep>
  {
    var n := |FirstLayer(reg, kind, ctx, b, covered).steps|;
    var steps := Planned(reg, kind, ctx, b, covered, depth).steps;
    if n <= |steps| then steps[n..] else []
  }

  lemma PlanSplits(reg: Registry, kind: Kind, ctx: Context, b: Budget, covered: set<Capability>, depth: ExpandDepth)
    ensures Planned(reg, kind, ctx, b, covered, depth).steps ==
      FirstLayer(reg, kind, ctx, b, covered).steps + SecondSteps(reg, kind, ctx, b, covered, depth)
    ensures forall s :: s in SecondSteps(reg, kind, ctx, b, covered, depth) ==>
      FromCandidates(s, SecondCandidates(reg, ProducersOf(reg, FirstLayer(reg, kind, ctx, b, covered).steps), ctx),
                     b.maxRuntimeMs - LayerRuntime(FirstLayer(reg, kind, ctx, b, covered).steps, b.maxParallel))
    ensures SecondSteps(reg, kind, ctx, b, covered, depth) != [] ==>
      b.maxRuntimeMs - LayerRuntime(FirstLayer(reg, kind, ctx, b, covered).steps, b.maxParallel) > 0
  {
    var first := FirstLayer(reg, kind, ctx, b, covered);
    ConsiderAllAppends(first, SecondCandidates(reg, ProducersOf(reg, first.steps), ctx), b,
                       b.maxRuntimeMs - LayerRuntime(first.steps, b.maxParallel));
    hide FirstLayer, LayerRuntime, ConsiderAll, FromCandidates, SecondCandidates, ProducersOf;
  }

  /** A second-layer step waits for exactly the first-layer steps whose manifest outputs its input kind,
    * and there is at least one.
    */
  lemma DependenciesAreProducers(reg: Registry, kind: Kind, ctx: Context, b: Budget, covered: set<Capability>,
                                 depth: ExpandDepth, s: PlanStep, id: TransformId)
    requires s in SecondSteps(reg, kind, ctx, b, covered, depth)
    ensures s.depth == 2 && s.dependsOn != []
    ensures id in s.dependsOn <==> Produces(reg, FirstLayer(reg, kind, ctx, b, covered).steps, s.inputKind, id)
  {
    var first := FirstLayer(reg, kind, ctx, b, covered).steps;
    var ps := ProducersOf(reg, first);
    PlanSplits(reg, kind, ctx, b, covered, depth);
    hide FirstLayer, SecondSteps, Planned;
    var cs := SecondCandidates(reg, ps, ctx);
    var c :| c in cs && c.routed.transform.id == s.transform && c.inputKind == s.inputKind
      && c.dependsOn == s.dependsOn && c.depth == s.depth && c.routed.reason.None?;
    SecondMembers(reg, ps, ctx, c);
    ProducersAreExact(reg, first);
    hide ProducersOf, SecondCandidates, Produces;
    var p :| p in ps && p.kind == c.inputKind && p.ids == c.dependsOn;
    KindDetermines(ps, p, c.inputKind, id);
  }

  /** When each layer fits one parallel batch, the runtime estimate stays within the budget. */
  lemma RuntimeFitsInBatches(reg: Registry, kind: Kind, ctx: Context, b: Budget, covered: set<Capability>, depth: ExpandDepth)
    requires b.maxRuntimeMs >= 0
    requires |FirstLayer(reg, kind, ctx, b, covered).steps| <= Max(1, b.maxParallel)
    requires |SecondSteps(reg, kind, ctx, b, covered, depth)| <= Max(1, b.maxParallel)
    ensures PlanOf(reg, kind, ctx, b, covered, depth).runtimeMs <= b.maxRuntimeMs
  {
    var first := FirstLayer(reg, kind, ctx, b, covered).steps;
    var second := SecondSteps(reg, kind, ctx, b, covered, depth);
    var rest := b.maxRuntimeMs - LayerRuntime(first, b.maxParallel);
    LayersSplit(reg, kind, ctx, b, covered, depth);
    PlanSplits(reg, kind, ctx, b, covered, depth);
    FirstLayerSteps(reg, kind, ctx, b, covered);
    hide FirstLayer, SecondSteps, Planned, NeedsOf, SumResults, SecondCandidates, ProducersOf;
    OneBatch(first, b.maxParallel, b.maxRuntimeMs);
    if second != [] {
      OneBatch(second, b.maxParallel, rest);
    }
  }

  lemma LayersSplit(reg: Registry, kind: Kind, ctx: Context, b: Budget, covered: set<Capability>, depth: ExpandDepth)
    ensures PlanOf(reg, kind, ctx, b, covered, depth).runtimeMs ==
      LayerRuntime(FirstLayer(reg, kind, ctx, b, covered).steps, b.maxParallel)
      + LayerRuntime(SecondSteps(reg, kind, ctx, b, covered, depth), b.maxParallel)
  {
    var first := FirstLayer(reg, kind, ctx, b, covered).steps;
    var second := SecondSteps(reg, kind, ctx, b, covered, depth);
    PlanSplits(reg, kind, ctx, b, covered, depth);
    FirstLayerSteps(reg, kind, ctx, b, covered);
    forall s | s in second
      ensures s.depth == 2
    {
      DependenciesAreProducers(reg, kind, ctx, b, covered, depth, s, s.transform);
    }
    hide FirstLayer, SecondSteps, Planned, NeedsOf, SumResults, LayerRuntime, FromCandidates, SecondCandidates, ProducersOf;
    AllAtDepth(first, second, 1, 2);
  }

  // ---------------------------------------------------------------- network and credentials

  lemma PrimaryIsUsable(reg: Registry, ctx: Context, id: TransformId)
    ensures Primary(reg, ctx, id).Some? ==>
      var e := Primary(reg, ctx, id).value;
      !e.engine.terminal && EngineExclusion(e.engine, e.provider, ctx).None?
  {
    match FindTransform(reg.transforms, id)
    case None =>
    case Some(m) =>
      BestOfChain(reg, m, ctx);
      var best := FirstExecutable(Route(reg, m, ctx).chain);
      if best.Some? {
        ChainMembers(reg, m, ctx, best.value);
        hide Route, EngineExclusion;
        var g :| g in EnginesFor(reg, m.engines) && Yields(reg, g, ctx, best.value);
      }
  }

  lemma NextNeeds(reg: Registry, ctx: Context, steps: seq<PlanStep>)
    requires steps != []
    ensures var n, more := NeedsOf(reg, ctx, steps[..|steps| - 1]), NeedsOf(reg, ctx, steps);
      match Primary(reg, ctx, steps[|steps| - 1].transform)
      case None => more == n
      case Some(e) =>
        && more.network == (n.network || e.engine.dataFlow != LocalFlow)
        && (forall id :: id in more.providers <==> id in n.providers || id == e.provider.id)
        && (forall id :: id in more.credentials <==>
             id in n.credentials || (e.provider.credentials == RequiredCredentials && id == e.provider.id))
  {
    hide Primary;
  }

  /** In strict-local mode a plan never needs the network; in every mode it asks only for credentials of
    * providers that are configured.
    */
  lemma {:induction false} NeedsAreMet(reg: Registry, ctx: Context, steps: seq<PlanStep>)
    ensures ctx.mode == StrictLocal ==> !NeedsOf(reg, ctx, steps).network
    ensures forall id :: id in NeedsOf(reg, ctx, steps).credentials ==> id in ctx.configured
    ensures forall id :: id in NeedsOf(reg, ctx, steps).credentials ==> id in NeedsOf(reg, ctx, steps).providers
  {
    if steps == [] {
      assert NeedsOf(reg, ctx, steps) == Needs(false, [], []);
      hide Primary, NeedsOf, EngineExclusion;
    } else {
      hide Primary, NeedsOf;
      NeedsAreMet(reg, ctx, steps[..|steps| - 1]);
      PrimaryIsUsable(reg, ctx, steps[|steps| - 1].transform);
      NextNeeds(reg, ctx, steps);
    }
  }

  // ---------------------------------------------------------------- the second layer is accounted for too

  predicate LooksFurther(reg: Registry, kind: Kind, ctx: Context, b: Budget, covered: set<Capability>, depth: ExpandDepth) {
    DepthOf(depth, b) >= 2 && b.maxRuntimeMs - LayerRuntime(FirstLayer(reg, kind, ctx, b, covered).steps, b.maxParallel) > 0
  }

  lemma {:induction false} SecondContains(reg: Registry, ps: seq<Producer>, ctx: Context, p: Producer, c: Candidate)
    requires p in ps && c in CandidatesForKind(reg, p.kind, ctx, 2, p.ids)
    ensures c in SecondCandidates(reg, ps, ctx)
    decreases |ps|
  {
    hide CandidatesForKind;
    var front, last := ps[..|ps| - 1], ps[|ps| - 1];
    assert ps == front + [last];
    if p in front {
      SecondContains(reg, front, ctx, p, c);
    }
  }

  lemma PlannedUsesSecond(reg: Registry, kind: Kind, ctx: Context, b: Budget, covered: set<Capability>,
                          depth: ExpandDepth, c: Candidate)
    requires LooksFurther(reg, kind, ctx, b, covered, depth)
    requires c in SecondCandidates(reg, ProducersOf(reg, FirstLayer(reg, kind, ctx, b, covered).steps), ctx)
    ensures c.routed.transform.id in Planned(reg, kind, ctx, b, covered, depth).used
  {
    hide ConsiderAll, CandidatesForKind, LayerRuntime, SecondCandidates;
    ConsiderAllAccounts(Start(b, covered), CandidatesForKind(reg, kind, ctx, 1, []), b, b.maxRuntimeMs);
    var first := FirstLayer(reg, kind, ctx, b, covered);
    ConsiderAllAccounts(first, SecondCandidates(reg, ProducersOf(reg, first.steps), ctx), b,
                        b.maxRuntimeMs - LayerRuntime(first.steps, b.maxParallel));
  }

  /** When the plan looks a layer further, every non-deprecated transform that accepts something the first
    * layer produces appears exactly once as well.
    */
  lemma SecondLayerIsAccountedFor(reg: Registry, kind: Kind, ctx: Context, b: Budget, covered: set<Capability>,
                                  depth: ExpandDepth, t: Transform, output: Kind, maker: TransformId)
    requires LooksFurther(reg, kind, ctx, b, covered, depth)
    requires Produces(reg, FirstLayer(reg, kind, ctx, b, covered).steps, output, maker)
    requires t in reg.transforms && output in t.inputs && t.priority != DeprecatedPriority
    ensures var p := PlanOf(reg, kind, ctx, b, covered, depth);
      multiset(StepIds(p.steps))[t.id] + multiset(ExcludedIds(p.excluded))[t.id] == 1
  {
    var first := FirstLayer(reg, kind, ctx, b, covered).steps;
    var ps := ProducersOf(reg, first);
    PlannedAccounts(reg, kind, ctx, b, covered, depth);
    ProducersAreExact(reg, first);
    hide Planned, NeedsOf, Produces, ProducersOf, LooksFurther, FirstLayer;
    var p :| p in ps && p.kind == output && maker in p.ids;
    RoutedForInput(reg, output, ctx);
    RouteKeepsTransform(reg, t, ctx);
    hide Route, RouteForInput;
    var c := Candidate(Route(reg, t, ctx), output, p.ids, 2);
    OfferedMembers(RouteForInput(reg, output, ctx), output, 2, p.ids);
    hide Offered;
    assert c in CandidatesForKind(reg, p.kind, ctx, 2, p.ids);
    SecondContains(reg, ps, ctx, p, c);
    PlannedUsesSecond(reg, kind, ctx, b, covered, depth, c);
  }

  // ---------------------------------------------------------------- expand

  /** The `consider` closure: its loop over one layer's candidates. */
  method ConsiderLayer(l0: Ledger, candidates: seq<Candidate>, b: Budget, runtimeBudget: int) returns (l: Ledger)
    ensures l == ConsiderAll(l0, candidates, b, runtimeBudget)
  {
    l := l0;
    for i := 0 to |candidates|
      invariant l == ConsiderAll(l0, candidates[..i], b, runtimeBudget)
    {
      assert candidates[..i + 1][..i] == candidates[..i];
      var c := candidates[i];
      var t := c.routed.transform;
      if t.id in l.used { continue; }
      if c.routed.reason.Some? {
        l := Exclude(l, t.id, c.routed.reason.value);
        continue;
      }
      if t.capability in l.covered {
        l := Exclude(l, t.id, AlreadyCovered);
        continue;
      }
      if |l.steps| >= b.maxTransforms {
        l := Exclude(l, t.id, BudgetExhausted);
        continue;
      }
      var results := Min(t.maxResults, l.nodeBudget);
      if results <= 0 || t.expectedRuntimeMs > runtimeBudget {
        l := Exclude(l, t.id, BudgetExhausted);
        continue;
      }
      l := Accept(l, c, results);
    }
    assert candidates[..|candidates|] == candidates;
  }

  method LayerRuntimeMs(steps: seq<PlanStep>, maxParallel: int) returns (ms: int)
    ensures ms == LayerRuntime(steps, maxParallel)
  {
    if |steps| == 0 { return 0; }
    var slowest := steps[0].estimatedRuntimeMs;
    for i := 1 to |steps|
      invariant slowest == Slowest(steps[..i])
    {
      assert steps[..i + 1][..i] == steps[..i];
      slowest := Max(slowest, steps[i].estimatedRuntimeMs);
    }
    assert steps[..|steps|] == steps;
    ms := Batches(|steps|, maxParallel) * slowest;
  }

  /** The loop over the steps that collects what the plan will need. */
  method CollectNeeds(reg: Registry, ctx: Context, steps: seq<PlanStep>) returns (needs: Needs)
    ensures needs == NeedsOf(reg, ctx, steps)
  {
    var network, providers, credentials := false, [], [];
    for i := 0 to |steps|
      invariant Needs(network, providers, credentials) == NeedsOf(reg, ctx, steps[..i])
    {
      assert steps[..i + 1][..i] == steps[..i];
      var primary := Primary(reg, ctx, steps[i].transform);
      if primary.None? { continue; }
      providers := AddOnce(providers, primary.value.provider.id);
      if primary.value.engine.dataFlow != LocalFlow { network := true; }
      if primary.value.provider.credentials == RequiredCredentials {
        credentials := AddOnce(credentials, primary.value.provider.id);
      }
    }
    assert steps[..|steps|] == steps;
    needs := Needs(network, providers, credentials);
  }

  /** The two reductions over the finished steps. */
  method Estimate(steps: seq<PlanStep>, b: Budget) returns (runtimeMs: int, minEntities: nat, maxEntities: int)
    ensures runtimeMs == RuntimeMs(steps, b.maxParallel) && minEntities == |AtDepth(steps, 1)|
    ensures maxEntities == Min(SumResults(steps), b.maxNewNodes)
  {
    var first: seq<PlanStep>, second: seq<PlanStep> := [], [];
    var total := 0;
    for i := 0 to |steps|
      invariant first == AtDepth(steps[..i], 1) && second == AtDepth(steps[..i], 2)
      invariant total == SumResults(steps[..i])
    {
      assert steps[..i + 1][..i] == steps[..i];
      if steps[i].depth == 1 { first := first + [steps[i]]; }
      if steps[i].depth == 2 { second := second + [steps[i]]; }
      total := total + steps[i].maxResults;
    }
    assert steps[..|steps|] == steps;
    var a := LayerRuntimeMs(first, b.maxParallel);
    var c := LayerRuntimeMs(second, b.maxParallel);
    return a + c, |first|, Min(total, b.maxNewNodes);
  }

  /** Builds the plan behind the Expand button. */
  method Expand(reg: Registry, kind: Kind, ctx: Context, b: Budget, covered: set<Capability>, depth: ExpandDepth)
    returns (plan: Plan)
    ensures plan == PlanOf(reg, kind, ctx, b, covered, depth)
  {
    hide NeedsOf, RuntimeMs, AtDepth, SumResults, ConsiderAll, LayerRuntime, SecondCandidates, ProducersOf;
    var l := ConsiderLayer(Start(b, covered), CandidatesForKind(reg, kind, ctx, 1, []), b, b.maxRuntimeMs);
    var spent := LayerRuntimeMs(l.steps, b.maxParallel);
    var rest := b.maxRuntimeMs - spent;
    if DepthOf(depth, b) >= 2 && rest > 0 {
      l := ConsiderLayer(l, SecondCandidates(reg, ProducersOf(reg, l.steps), ctx), b, rest);
    }
    var needs := CollectNeeds(reg, ctx, l.steps);
    var runtimeMs, minEntities, maxEntities := Estimate(l.steps, b);
    plan := Plan(l.steps, runtimeMs, minEntities, maxEntities, needs, l.excluded);
  }
}
