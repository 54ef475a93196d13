/** The plan, decision by decision: which candidates become steps, with which numbers, and why each of the others does
  * not.
  */
module Decisions {
  import opened Helpers
  import opened Options
  import opened Modes
  import opened Router
  import opened Planner

  // ---------------------------------------------------------------- one decision

  function Least(a: int, b: int): (m: int)
    ensures (m == a || m == b) && m <= a && m <= b
  {
    if b < a then b else a
  }

  /** What is decided on a candidate that finds the first `n` steps taken: it is refused by the router, or its
    * capability is covered, or a budget has no room, in this order; or else it is the next step, with as many results
    * as its manifest allows and the steps before it have left.
    */
  ghost predicate Decided(l: Ledger, n: nat, c: Candidate, b: Budget, covered: set<Capability>, runtime: int) {
    && n <= |l.steps| && n <= |l.taken|
    && var t := c.routed.transform;
       var room := b.maxNewNodes - SumResults(l.steps[..n]);
       match c.routed.reason
       case Some(refusal) => Exclusion(t.id, refusal) in l.excluded
       case None =>
         if t.capability in covered || Takes(l.taken[..n], t.capability) then Exclusion(t.id, AlreadyCovered) in l.excluded
         else if n >= b.maxTransforms || Least(t.maxResults, room) <= 0 || t.expectedRuntimeMs > runtime then
           Exclusion(t.id, BudgetExhausted) in l.excluded
         else
           && n < |l.steps| && n < |l.taken| && l.taken[n] == t
           && IsStep(l.steps[n], c, Least(t.maxResults, room))
  }

  ghost predicate IsStep(s: PlanStep, c: Candidate, results: int) {
    && s.transform == c.routed.transform.id && s.inputKind == c.inputKind && s.dependsOn == c.dependsOn && s.depth == c.depth
    && s.estimatedRuntimeMs == c.routed.transform.expectedRuntimeMs && s.maxResults == results
    && |s.chain| == |c.routed.chain|
    && forall k :: 0 <= k < |s.chain| ==> s.chain[k] == c.routed.chain[k].engine.id
  }

  lemma ConsiderDecides(l: Ledger, c: Candidate, b: Budget, covered: set<Capability>, runtime: int)
    requires WithinBudget(l, b, covered) && c.routed.transform.id !in l.used
    ensures Decided(Consider(l, c, b, runtime), |l.steps|, c, b, covered, runtime)
  {
    hide Takes;
    var l' := Consider(l, c, b, runtime);
    assert l'.steps[..|l.steps|] == l.steps && l'.taken[..|l.taken|] == l.taken;
    assert l'.excluded != l.excluded ==> l'.excluded[|l.excluded|] in l'.excluded;
  }

  /** Later decisions leave the lists as they are, in front. */
  ghost predicate Continues(l: Ledger, l': Ledger) {
    l.steps <= l'.steps && l.taken <= l'.taken && l.excluded <= l'.excluded
  }

  lemma StaysDecided(l: Ledger, l': Ledger, n: nat, c: Candidate, b: Budget, covered: set<Capability>, runtime: int)
    requires Continues(l, l') && Decided(l, n, c, b, covered, runtime)
    ensures Decided(l', n, c, b, covered, runtime)
  {
    hide Takes, IsStep;
    assert l'.steps[..n] == l.steps[..n] && l'.taken[..n] == l.taken[..n];
  }

  lemma ConsiderContinues(l: Ledger, c: Candidate, b: Budget, runtime: int)
    ensures Continues(l, Consider(l, c, b, runtime))
    ensures c.routed.transform.id in l.used ==> Consider(l, c, b, runtime) == l
    ensures Consider(l, c, b, runtime).used == l.used + {c.routed.transform.id}
  {
  }

  lemma {:induction false} AllContinue(l: Ledger, cs: seq<Candidate>, b: Budget, runtime: int)
    ensures Continues(l, ConsiderAll(l, cs, b, runtime))
    ensures forall id :: id in ConsiderAll(l, cs, b, runtime).used <==> id in l.used || Names(cs, id)
    decreases |cs|
  {
    hide Consider, Names;
    if cs == [] {
      NoNames(l);
    } else {
      var front, c := cs[..|cs| - 1], cs[|cs| - 1];
      AllContinue(l, front, b, runtime);
      ConsiderContinues(ConsiderAll(l, front, b, runtime), c, b, runtime);
      NamesSnoc(front, c);
      assert cs == front + [c];
    }
  }

  /** One of the candidates is this transform. */
  ghost predicate Names(cs: seq<Candidate>, id: TransformId) {
    exists i :: 0 <= i < |cs| && cs[i].routed.transform.id == id
  }

  lemma NoNames(l: Ledger)
    ensures forall id :: !Names([], id)
  {
  }

  lemma NamesSnoc(front: seq<Candidate>, c: Candidate)
    ensures forall id :: Names(front + [c], id) <==> Names(front, id) || c.routed.transform.id == id
  {
    var all := front + [c];
    forall id
      ensures Names(all, id) <==> Names(front, id) || c.routed.transform.id == id
    {
      if Names(front, id) {
        var i :| 0 <= i < |front| && front[i].routed.transform.id == id;
        assert all[i].routed.transform.id == id;
      }
      assert all[|front|] == c;
    }
  }

  lemma {:induction false} ConsiderSplits(l: Ledger, a: seq<Candidate>, c: seq<Candidate>, b: Budget, runtime: int)
    ensures ConsiderAll(l, a + c, b, runtime) == ConsiderAll(ConsiderAll(l, a, b, runtime), c, b, runtime)
    decreases |c|
  {
    hide Consider;
    if c == [] {
      assert a + c == a;
    } else {
      ConsiderSplits(l, a, c[..|c| - 1], b, runtime);
      assert (a + c)[..|a + c| - 1] == a + c[..|c| - 1];
    }
  }

  /** The steps taken before a candidate's turn are those of the candidates before it. */
  ghost predicate BeforeTurn(l0: Ledger, l: Ledger, cs: seq<Candidate>, k: nat, n: nat)
    requires k <= |cs|
  {
    && |l0.steps| <= n <= |l.steps|
    && (forall i :: |l0.steps| <= i < n ==> Names(cs[..k], l.steps[i].transform))
    && (forall i :: n <= i < |l.steps| ==> Names(cs[k..], l.steps[i].transform))
  }

  lemma LayerDecides(l: Ledger, cs: seq<Candidate>, k: nat, b: Budget, covered: set<Capability>, runtime: int) returns (n: nat)
    requires WithinBudget(l, b, covered) && k < |cs|
    requires cs[k].routed.transform.id !in l.used && !Names(cs[..k], cs[k].routed.transform.id)
    ensures BeforeTurn(l, ConsiderAll(l, cs, b, runtime), cs, k, n)
    ensures Decided(ConsiderAll(l, cs, b, runtime), n, cs[k], b, covered, runtime)
  {
    hide *;
    var before := ConsiderAll(l, cs[..k], b, runtime);
    var now := Consider(before, cs[k], b, runtime);
    var done := ConsiderAll(l, cs, b, runtime);
    AllContinue(l, cs[..k], b, runtime);
    ConsiderAllKeepsBudget(l, cs[..k], b, covered, runtime);
    ConsiderDecides(before, cs[k], b, covered, runtime);
    assert cs == cs[..k] + cs[k..] && cs[k..] == [cs[k]] + cs[k + 1..];
    ConsiderSplits(l, cs[..k], cs[k..], b, runtime);
    ConsiderSplits(before, [cs[k]], cs[k + 1..], b, runtime);
    OneCandidate(before, cs[k], b, runtime);
    AllContinue(now, cs[k + 1..], b, runtime);
    StaysDecided(now, done, |before.steps|, cs[k], b, covered, runtime);
    n := |before.steps|;
    TurnOf(l, before, done, cs, k, b, runtime);
  }

  lemma OneCandidate(l: Ledger, c: Candidate, b: Budget, runtime: int)
    ensures ConsiderAll(l, [c], b, runtime) == Consider(l, c, b, runtime)
  {
    assert [c][..0] == [];
    hide Consider;
  }

  lemma TurnOf(l: Ledger, before: Ledger, done: Ledger, cs: seq<Candidate>, k: nat, b: Budget, runtime: int)
    requires k <= |cs| && before == ConsiderAll(l, cs[..k], b, runtime) && done == ConsiderAll(before, cs[k..], b, runtime)
    ensures BeforeTurn(l, done, cs, k, |before.steps|)
  {
    hide ConsiderAll, FromCandidates, Names;
    ConsiderAllAppends(l, cs[..k], b, runtime);
    ConsiderAllAppends(before, cs[k..], b, runtime);
    forall i | |l.steps| <= i < |before.steps|
      ensures Names(cs[..k], done.steps[i].transform)
    {
      assert done.steps[i] == before.steps[i] == before.steps[|l.steps|..][i - |l.steps|];
      FromIsNamed(before.steps[i], cs[..k], runtime);
    }
    forall i | |before.steps| <= i < |done.steps|
      ensures Names(cs[k..], done.steps[i].transform)
    {
      assert done.steps[i] == done.steps[|before.steps|..][i - |before.steps|];
      FromIsNamed(done.steps[i], cs[k..], runtime);
    }
  }

  lemma FromIsNamed(s: PlanStep, cs: seq<Candidate>, runtime: int)
    requires FromCandidates(s, cs, runtime)
    ensures Names(cs, s.transform)
  {
  }

  // ---------------------------------------------------------------- every decision of a plan

  function FirstCandidates(reg: Registry, kind: Kind, ctx: Context): seq<Candidate> {
    CandidatesForKind(reg, kind, ctx, 1, [])
  }

  function NextCandidates(reg: Registry, kind: Kind, ctx: Context, b: Budget, covered: set<Capability>): seq<Candidate> {
    SecondCandidates(reg, ProducersOf(reg, FirstLayer(reg, kind, ctx, b, covered).steps), ctx)
  }

  function RuntimeLeft(reg: Registry, kind: Kind, ctx: Context, b: Budget, covered: set<Capability>): int {
    b.maxRuntimeMs - LayerRuntime(FirstLayer(reg, kind, ctx, b, covered).steps, b.maxParallel)
  }

  lemma PlannedUnfolds(reg: Registry, kind: Kind, ctx: Context, b: Budget, covered: set<Capability>, depth: ExpandDepth)
    ensures FirstLayer(reg, kind, ctx, b, covered) ==
      ConsiderAll(Start(b, covered), FirstCandidates(reg, kind, ctx), b, b.maxRuntimeMs)
    ensures Planned(reg, kind, ctx, b, covered, depth) ==
      if depth != One && b.maxDepth >= 2 && RuntimeLeft(reg, kind, ctx, b, covered) > 0 then
        ConsiderAll(FirstLayer(reg, kind, ctx, b, covered), NextCandidates(reg, kind, ctx, b, covered), b,
                    RuntimeLeft(reg, kind, ctx, b, covered))
      else FirstLayer(reg, kind, ctx, b, covered)
  {
    hide ConsiderAll, CandidatesForKind, SecondCandidates, LayerRuntime, ProducersOf;
  }

  lemma StartIsEmpty(b: Budget, covered: set<Capability>)
    ensures Start(b, covered).used == {} && Start(b, covered).steps == [] && Start(b, covered).taken == []
    ensures Start(b, covered).excluded == []
  {
  }

  /** Each transform that is met for the first time among the candidates for the kind itself is decided on with the
    * steps of the candidates before it.
    */
  lemma EveryDecisionIsExact(reg: Registry, kind: Kind, ctx: Context, b: Budget, covered: set<Capability>,
                             depth: ExpandDepth, k: nat)
    returns (n: nat)
    requires var cs := FirstCandidates(reg, kind, ctx); k < |cs| && !Names(cs[..k], cs[k].routed.transform.id)
    ensures var l, cs := Planned(reg, kind, ctx, b, covered, depth), FirstCandidates(reg, kind, ctx);
      && BeforeTurn(Start(b, covered), FirstLayer(reg, kind, ctx, b, covered), cs, k, n)
      && Decided(l, n, cs[k], b, covered, b.maxRuntimeMs)
  {
    hide *;
    var cs := FirstCandidates(reg, kind, ctx);
    PlannedUnfolds(reg, kind, ctx, b, covered, depth);
    StartWithinBudget(b, covered);
    StartIsEmpty(b, covered);
    n := LayerDecides(Start(b, covered), cs, k, b, covered, b.maxRuntimeMs);
    var first := FirstLayer(reg, kind, ctx, b, covered);
    AllContinue(first, NextCandidates(reg, kind, ctx, b, covered), b, RuntimeLeft(reg, kind, ctx, b, covered));
    if Planned(reg, kind, ctx, b, covered, depth) != first {
      StaysDecided(first, Planned(reg, kind, ctx, b, covered, depth), n, cs[k], b, covered, b.maxRuntimeMs);
    }
  }

  /** When the plan looks further, so is each transform met first among the candidates for what the first layer
    * produces, with the runtime that layer leaves. It looks further exactly when more than one layer is asked for and
    * allowed, and runtime is left.
    */
  lemma EverySecondDecisionIsExact(reg: Registry, kind: Kind, ctx: Context, b: Budget, covered: set<Capability>,
                                   depth: ExpandDepth, k: nat) returns (n: nat)
    requires depth != One && b.maxDepth >= 2 && RuntimeLeft(reg, kind, ctx, b, covered) > 0
    requires var cs := NextCandidates(reg, kind, ctx, b, covered);
      k < |cs| && !Names(cs[..k], cs[k].routed.transform.id) &&
      !Names(FirstCandidates(reg, kind, ctx), cs[k].routed.transform.id)
    ensures var l, cs := Planned(reg, kind, ctx, b, covered, depth), NextCandidates(reg, kind, ctx, b, covered);
      && BeforeTurn(FirstLayer(reg, kind, ctx, b, covered), l, cs, k, n)
      && Decided(l, n, cs[k], b, covered, RuntimeLeft(reg, kind, ctx, b, covered))
  {
    hide *;
    PlannedUnfolds(reg, kind, ctx, b, covered, depth);
    StartWithinBudget(b, covered);
    StartIsEmpty(b, covered);
    var cs := FirstCandidates(reg, kind, ctx);
    AllContinue(Start(b, covered), cs, b, b.maxRuntimeMs);
    ConsiderAllKeepsBudget(Start(b, covered), cs, b, covered, b.maxRuntimeMs);
    n := LayerDecides(FirstLayer(reg, kind, ctx, b, covered), NextCandidates(reg, kind, ctx, b, covered), k, b, covered,
                      RuntimeLeft(reg, kind, ctx, b, covered));
  }

  // ---------------------------------------------------------------- every step of a plan

  /** Step `i` is that of one of the candidates, with the results left when it was taken. */
  ghost predicate ExactStep(steps: seq<PlanStep>, i: nat, cs: seq<Candidate>, b: Budget)
    requires i < |steps|
  {
    exists c :: c in cs && c.routed.reason.None?
      && IsStep(steps[i], c, Least(c.routed.transform.maxResults, b.maxNewNodes - SumResults(steps[..i])))
  }

  lemma ConsiderTakesExactly(l: Ledger, c: Candidate, b: Budget, covered: set<Capability>, runtime: int)
    requires WithinBudget(l, b, covered)
    ensures var l' := Consider(l, c, b, runtime);
      && (l'.steps == l.steps || |l'.steps| == |l.steps| + 1)
      && l.steps <= l'.steps
      && (l'.steps != l.steps ==> ExactStep(l'.steps, |l.steps|, [c], b))
  {
    hide Takes;
    var l' := Consider(l, c, b, runtime);
    if l'.steps != l.steps {
      assert l'.steps[..|l.steps|] == l.steps && c in [c];
      assert IsStep(l'.steps[|l.steps|], c, Least(c.routed.transform.maxResults, b.maxNewNodes - SumResults(l.steps)));
    }
  }

  lemma MoreExact(steps: seq<PlanStep>, more: seq<PlanStep>, i: nat, cs: seq<Candidate>, ds: seq<Candidate>, b: Budget)
    requires i < |steps| && steps <= more && ExactStep(steps, i, cs, b)
    requires forall c :: c in cs ==> c in ds
    ensures ExactStep(more, i, ds, b)
  {
    hide IsStep;
    assert more[..i] == steps[..i];
  }

  lemma {:induction false} LayerTakesExactly(l: Ledger, cs: seq<Candidate>, b: Budget, covered: set<Capability>, runtime: int)
    requires WithinBudget(l, b, covered)
    ensures var l' := ConsiderAll(l, cs, b, runtime);
      && l.steps <= l'.steps
      && forall i: nat :: |l.steps| <= i < |l'.steps| ==> ExactStep(l'.steps, i, cs, b)
    decreases |cs|
  {
    hide Consider, ExactStep, WithinBudget;
    if cs != [] {
      var front, c := cs[..|cs| - 1], cs[|cs| - 1];
      LayerTakesExactly(l, front, b, covered, runtime);
      ConsiderAllKeepsBudget(l, front, b, covered, runtime);
      var before := ConsiderAll(l, front, b, runtime);
      ConsiderTakesExactly(before, c, b, covered, runtime);
      assert cs == front + [c];
      StepsStayExact(|l.steps|, before.steps, Consider(before, c, b, runtime).steps, front, c, b);
    }
  }

  lemma StepsStayExact(n: nat, before: seq<PlanStep>, after: seq<PlanStep>, front: seq<Candidate>, c: Candidate, b: Budget)
    requires forall i: nat :: n <= i < |before| ==> ExactStep(before, i, front, b)
    requires before <= after && (after == before || |after| == |before| + 1)
    requires after != before ==> ExactStep(after, |before|, [c], b)
    ensures forall i: nat :: n <= i < |after| ==> ExactStep(after, i, front + [c], b)
  {
    hide ExactStep;
    forall i: nat | n <= i < |after|
      ensures ExactStep(after, i, front + [c], b)
    {
      if i < |before| { MoreExact(before, after, i, front, front + [c], b); }
      else { MoreExact(after, after, i, [c], front + [c], b); }
    }
  }

  /** Every step of a plan is that of a candidate the router accepts: its manifest's estimated time, the engines of
    * its route in order, and as many results as the manifest's limit and the node budget less the results of the
    * steps before it allow.
    */
  lemma EveryStepIsExact(reg: Registry, kind: Kind, ctx: Context, b: Budget, covered: set<Capability>, depth: ExpandDepth, i: nat)
    requires i < |PlanOf(reg, kind, ctx, b, covered, depth).steps|
    ensures var p, n := PlanOf(reg, kind, ctx, b, covered, depth), |FirstLayer(reg, kind, ctx, b, covered).steps|;
      ExactStep(p.steps, i,
                if i < n then FirstCandidates(reg, kind, ctx) else NextCandidates(reg, kind, ctx, b, covered), b)
  {
    hide *;
    PlanHasSteps(reg, kind, ctx, b, covered, depth);
    var first, l := FirstLayer(reg, kind, ctx, b, covered), Planned(reg, kind, ctx, b, covered, depth);
    var cs, ds := FirstCandidates(reg, kind, ctx), NextCandidates(reg, kind, ctx, b, covered);
    PlannedUnfolds(reg, kind, ctx, b, covered, depth);
    StartWithinBudget(b, covered);
    StartIsEmpty(b, covered);
    LayerTakesExactly(Start(b, covered), cs, b, covered, b.maxRuntimeMs);
    ConsiderAllKeepsBudget(Start(b, covered), cs, b, covered, b.maxRuntimeMs);
    LayerTakesExactly(first, ds, b, covered, RuntimeLeft(reg, kind, ctx, b, covered));
    if i < |first.steps| { MoreExact(first.steps, l.steps, i, cs, cs, b); }
  }

  lemma PlanHasSteps(reg: Registry, kind: Kind, ctx: Context, b: Budget, covered: set<Capability>, depth: ExpandDepth)
    ensures PlanOf(reg, kind, ctx, b, covered, depth).steps == Planned(reg, kind, ctx, b, covered, depth).steps
  {
    hide Planned, NeedsOf, RuntimeMs, SumResults, AtDepth;
  }

  // ---------------------------------------------------------------- the estimate

  /** A layer runs in as many batches as it needs, each as long as the slowest of all its steps. */
  ghost predicate TakesTime(steps: seq<PlanStep>, maxParallel: int, ms: int) {
    if steps == [] then ms == 0
    else
      exists batches: nat, slowest: int ::
        BatchesFit(|steps|, maxParallel, batches) && IsSlowest(steps, slowest) && ms == batches * slowest
  }

  ghost predicate IsSlowest(steps: seq<PlanStep>, slowest: int) {
    && (forall s :: s in steps ==> s.estimatedRuntimeMs <= slowest)
    && (exists s :: s in steps && s.estimatedRuntimeMs == slowest)
  }

  /** Just enough batches for `n` steps. */
  predicate BatchesFit(n: nat, maxParallel: int, batches: nat) {
    var p := if maxParallel < 1 then 1 else maxParallel;
    batches * p >= n && (batches - 1) * p < n
  }

  lemma {:induction false} SlowestIs(steps: seq<PlanStep>)
    requires steps != []
    ensures IsSlowest(steps, Slowest(steps))
    decreases |steps|
  {
    var front, last := steps[..|steps| - 1], steps[|steps| - 1];
    assert steps == front + [last];
    if |steps| == 1 {
      assert steps[0] in steps;
    } else {
      SlowestIs(front);
      var s :| s in front && s.estimatedRuntimeMs == Slowest(front);
      assert s in steps && last in steps;
    }
  }

  lemma BatchesAreLeast(n: nat, maxParallel: int)
    requires n > 0
    ensures BatchesFit(n, maxParallel, Batches(n, maxParallel))
  {
    var p := if maxParallel < 1 then 1 else maxParallel;
    var q := (n + p - 1) / p;
    assert q * p <= n + p - 1 < q * p + p;
    assert (q - 1) * p == q * p - p;
  }

  lemma LayerTakesTime(steps: seq<PlanStep>, maxParallel: int)
    ensures TakesTime(steps, maxParallel, LayerRuntime(steps, maxParallel))
  {
    hide Slowest, Batches, BatchesFit, IsSlowest;
    if steps != [] {
      SlowestIs(steps);
      BatchesAreLeast(|steps|, maxParallel);
    }
  }

  /** The estimate of a plan: the time of its two layers, one after the other; at least one entity for each step of
    * the first; and at most the sum of what the steps may add.
    */
  lemma EstimateIsExact(reg: Registry, kind: Kind, ctx: Context, b: Budget, covered: set<Capability>, depth: ExpandDepth)
    returns (first: seq<PlanStep>, second: seq<PlanStep>, forFirst: int, forSecond: int)
    ensures var p := PlanOf(reg, kind, ctx, b, covered, depth);
      && p.steps == first + second
      && (forall s :: s in first ==> s.depth == 1) && (forall s :: s in second ==> s.depth == 2)
      && TakesTime(first, b.maxParallel, forFirst) && TakesTime(second, b.maxParallel, forSecond)
      && p.runtimeMs == forFirst + forSecond
      && p.minEntities == |first|
      && p.maxEntities == Least(SumResults(p.steps), b.maxNewNodes)
  {
    first, second := FirstLayer(reg, kind, ctx, b, covered).steps, SecondSteps(reg, kind, ctx, b, covered, depth);
    forFirst, forSecond := LayerRuntime(first, b.maxParallel), LayerRuntime(second, b.maxParallel);
    hide *;
    LayersSplit(reg, kind, ctx, b, covered, depth);
    PlanSplits(reg, kind, ctx, b, covered, depth);
    PlanHasSteps(reg, kind, ctx, b, covered, depth);
    FirstLayerSteps(reg, kind, ctx, b, covered);
    SecondIsDeeper(reg, kind, ctx, b, covered, depth);
    LayerTakesTime(first, b.maxParallel);
    LayerTakesTime(second, b.maxParallel);
    AllAtDepth(first, second, 1, 2);
    PlanCounts(reg, kind, ctx, b, covered, depth);
  }

  lemma SecondIsDeeper(reg: Registry, kind: Kind, ctx: Context, b: Budget, covered: set<Capability>, depth: ExpandDepth)
    ensures forall s :: s in SecondSteps(reg, kind, ctx, b, covered, depth) ==> s.depth == 2
  {
    hide SecondSteps;
    forall s | s in SecondSteps(reg, kind, ctx, b, covered, depth)
      ensures s.depth == 2
    {
      DependenciesAreProducers(reg, kind, ctx, b, covered, depth, s, s.transform);
    }
  }

  lemma PlanCounts(reg: Registry, kind: Kind, ctx: Context, b: Budget, covered: set<Capability>, depth: ExpandDepth)
    ensures var p := PlanOf(reg, kind, ctx, b, covered, depth);
      p.minEntities == |AtDepth(p.steps, 1)| && p.maxEntities == Least(SumResults(p.steps), b.maxNewNodes)
  {
    hide Planned, NeedsOf, RuntimeMs, SumResults, AtDepth;
  }

  // ---------------------------------------------------------------- what a plan needs

  /** Some step would first run this engine of this provider. */
  ghost predicate RunsFirst(reg: Registry, ctx: Context, steps: seq<PlanStep>, e: Entry) {
    exists i :: 0 <= i < |steps| && Primary(reg, ctx, steps[i].transform) == Some(e)
  }

  lemma RunsSnoc(reg: Registry, ctx: Context, steps: seq<PlanStep>, s: PlanStep, e: Entry)
    ensures RunsFirst(reg, ctx, steps + [s], e) <==> RunsFirst(reg, ctx, steps, e) || Primary(reg, ctx, s.transform) == Some(e)
  {
    hide Primary;
    var all := steps + [s];
    if RunsFirst(reg, ctx, steps, e) {
      var i :| 0 <= i < |steps| && Primary(reg, ctx, steps[i].transform) == Some(e);
      assert all[i] == steps[i];
    }
    assert all[|steps|] == s;
  }

  /** The network is needed exactly if some step's first engine is not local; the providers are exactly those of these
    * engines, and the credentials exactly those of them that require any, each once.
    */
  ghost predicate NeedsExactly(reg: Registry, ctx: Context, steps: seq<PlanStep>, n: Needs) {
    NetworkExactly(reg, ctx, steps, n) && ProvidersExactly(reg, ctx, steps, n) && CredentialsExactly(reg, ctx, steps, n) &&
    EachOnce(n.providers) && EachOnce(n.credentials)
  }

  ghost predicate NetworkExactly(reg: Registry, ctx: Context, steps: seq<PlanStep>, n: Needs) {
    n.network <==> exists e :: RunsFirst(reg, ctx, steps, e) && e.engine.dataFlow != LocalFlow
  }

  ghost predicate ProvidersExactly(reg: Registry, ctx: Context, steps: seq<PlanStep>, n: Needs) {
    forall id :: id in n.providers <==> exists e :: RunsFirst(reg, ctx, steps, e) && e.provider.id == id
  }

  ghost predicate CredentialsExactly(reg: Registry, ctx: Context, steps: seq<PlanStep>, n: Needs) {
    forall id :: id in n.credentials <==>
      exists e :: RunsFirst(reg, ctx, steps, e) && e.provider.id == id && e.provider.credentials == RequiredCredentials
  }

  ghost predicate EachOnce(ids: seq<ProviderId>) {
    forall i, j :: 0 <= i < j < |ids| ==> ids[i] != ids[j]
  }

  lemma NeedsGrow(reg: Registry, ctx: Context, steps: seq<PlanStep>)
    requires steps != []
    ensures var n, more := NeedsOf(reg, ctx, steps[..|steps| - 1]), NeedsOf(reg, ctx, steps);
      match Primary(reg, ctx, steps[|steps| - 1].transform)
      case None => more == n
      case Some(e) =>
        && more.network == (n.network || e.engine.dataFlow != LocalFlow)
        && more.providers == AddOnce(n.providers, e.provider.id)
        && more.credentials ==
             if e.provider.credentials == RequiredCredentials then AddOnce(n.credentials, e.provider.id) else n.credentials
  {
    hide Primary, AddOnce;
  }

  lemma AddedOnce(ids: seq<ProviderId>, id: ProviderId)
    requires EachOnce(ids)
    ensures EachOnce(AddOnce(ids, id))
    ensures forall x :: x in AddOnce(ids, id) <==> x in ids || x == id
  {
  }

  lemma NetworkSnoc(reg: Registry, ctx: Context, front: seq<PlanStep>, s: PlanStep, n: Needs, more: Needs, e: Entry)
    requires NetworkExactly(reg, ctx, front, n) && Primary(reg, ctx, s.transform) == Some(e)
    requires more.network == (n.network || e.engine.dataFlow != LocalFlow)
    requires forall x :: RunsFirst(reg, ctx, front + [s], x) <==> RunsFirst(reg, ctx, front, x) || x == e
    ensures NetworkExactly(reg, ctx, front + [s], more)
  {
    hide Primary, RunsFirst;
    assert RunsFirst(reg, ctx, front + [s], e);
  }

  lemma ProvidersSnoc(reg: Registry, ctx: Context, front: seq<PlanStep>, s: PlanStep, n: Needs, more: Needs, e: Entry)
    requires ProvidersExactly(reg, ctx, front, n) && Primary(reg, ctx, s.transform) == Some(e)
    requires forall id :: id in more.providers <==> id in n.providers || id == e.provider.id
    requires forall x :: RunsFirst(reg, ctx, front + [s], x) <==> RunsFirst(reg, ctx, front, x) || x == e
    ensures ProvidersExactly(reg, ctx, front + [s], more)
  {
    hide Primary, RunsFirst;
    assert RunsFirst(reg, ctx, front + [s], e);
  }

  lemma CredentialsSnoc(reg: Registry, ctx: Context, front: seq<PlanStep>, s: PlanStep, n: Needs, more: Needs, e: Entry)
    requires CredentialsExactly(reg, ctx, front, n) && Primary(reg, ctx, s.transform) == Some(e)
    requires forall id :: id in more.credentials <==>
      id in n.credentials || (e.provider.credentials == RequiredCredentials && id == e.provider.id)
    requires forall x :: RunsFirst(reg, ctx, front + [s], x) <==> RunsFirst(reg, ctx, front, x) || x == e
    ensures CredentialsExactly(reg, ctx, front + [s], more)
  {
    hide Primary, RunsFirst;
    assert RunsFirst(reg, ctx, front + [s], e);
  }

  lemma NoNeeds(reg: Registry, ctx: Context)
    ensures NeedsExactly(reg, ctx, [], NeedsOf(reg, ctx, []))
  {
    hide Primary;
  }

  lemma SameNeeds(reg: Registry, ctx: Context, front: seq<PlanStep>, s: PlanStep, n: Needs)
    requires NeedsExactly(reg, ctx, front, n) && Primary(reg, ctx, s.transform).None?
    ensures NeedsExactly(reg, ctx, front + [s], n)
  {
    hide Primary, RunsFirst;
    forall e
      ensures RunsFirst(reg, ctx, front + [s], e) <==> RunsFirst(reg, ctx, front, e)
    {
      RunsSnoc(reg, ctx, front, s, e);
    }
  }

  lemma MoreNeeds(reg: Registry, ctx: Context, front: seq<PlanStep>, s: PlanStep, e: Entry)
    requires NeedsExactly(reg, ctx, front, NeedsOf(reg, ctx, front)) && Primary(reg, ctx, s.transform) == Some(e)
    ensures NeedsExactly(reg, ctx, front + [s], NeedsOf(reg, ctx, front + [s]))
  {
    hide Primary, RunsFirst, NetworkExactly, ProvidersExactly, CredentialsExactly, EachOnce, AddOnce, NeedsOf;
    var n, more := NeedsOf(reg, ctx, front), NeedsOf(reg, ctx, front + [s]);
    assert (front + [s])[..|front|] == front;
    NeedsGrow(reg, ctx, front + [s]);
    forall x
      ensures RunsFirst(reg, ctx, front + [s], x) <==> RunsFirst(reg, ctx, front, x) || x == e
    {
      RunsSnoc(reg, ctx, front, s, x);
    }
    AddedOnce(n.providers, e.provider.id);
    AddedOnce(n.credentials, e.provider.id);
    NetworkSnoc(reg, ctx, front, s, n, more, e);
    ProvidersSnoc(reg, ctx, front, s, n, more, e);
    CredentialsSnoc(reg, ctx, front, s, n, more, e);
  }

  lemma {:induction false} NeedsAreExact(reg: Registry, ctx: Context, steps: seq<PlanStep>)
    ensures NeedsExactly(reg, ctx, steps, NeedsOf(reg, ctx, steps))
  {
    hide NeedsExactly, Primary;
    if steps == [] {
      NoNeeds(reg, ctx);
    } else {
      var front, s := steps[..|steps| - 1], steps[|steps| - 1];
      assert steps == front + [s];
      NeedsAreExact(reg, ctx, front);
      match Primary(reg, ctx, s.transform)
      case None => SameNeeds(reg, ctx, front, s, NeedsOf(reg, ctx, front));
      case Some(e) => MoreNeeds(reg, ctx, front, s, e);
    }
  }

  // ---------------------------------------------------------------- what the first layer produces, in order

  function Kinds(ps: seq<Producer>): (kinds: seq<Kind>)
    ensures |kinds| == |ps| && forall i :: 0 <= i < |ps| ==> kinds[i] == ps[i].kind
  {
    seq(|ps|, i requires 0 <= i < |ps| => ps[i].kind)
  }

  /** A kind that some transform outputs. */
  datatype Output = Output(kind: Kind, maker: TransformId)

  function Labelled(kinds: seq<Kind>, id: TransformId): (outs: seq<Output>)
    ensures |outs| == |kinds| && forall i :: 0 <= i < |kinds| ==> outs[i] == Output(kinds[i], id)
  {
    seq(|kinds|, i requires 0 <= i < |kinds| => Output(kinds[i], id))
  }

  /** What the manifests of the steps list as outputs, step after step. */
  function OutputsOf(reg: Registry, steps: seq<PlanStep>): seq<Output> {
    if steps == [] then []
    else
      OutputsOf(reg, steps[..|steps| - 1]) +
      match FindTransform(reg.transforms, steps[|steps| - 1].transform)
      case None => []
      case Some(m) => Labelled(m.outputs, m.id)
  }

  /** Kinds in the order in which they are first output. */
  function FirstKinds(outs: seq<Output>): seq<Kind> {
    if outs == [] then [] else AddOnce(FirstKinds(outs[..|outs| - 1]), outs[|outs| - 1].kind)
  }

  /** Who outputs a kind, in order. */
  function MakersOf(outs: seq<Output>, kind: Kind): seq<TransformId> {
    if outs == [] then []
    else MakersOf(outs[..|outs| - 1], kind) + if outs[|outs| - 1].kind == kind then [outs[|outs| - 1].maker] else []
  }

  /** The table: kinds in order of first output, each with its makers in order. */
  ghost predicate Tabulates(ps: seq<Producer>, outs: seq<Output>) {
    && Kinds(ps) == FirstKinds(outs)
    && forall p :: p in ps ==> p.ids == MakersOf(outs, p.kind)
  }

  /** The same table with one output more, wherever it goes. */
  ghost predicate AddsOutput(ps: seq<Producer>, qs: seq<Producer>, kind: Kind, id: TransformId) {
    && Kinds(qs) == AddOnce(Kinds(ps), kind)
    && forall i :: 0 <= i < |qs| ==>
         qs[i].ids == (if i < |ps| then ps[i].ids else []) + if qs[i].kind == kind then [id] else []
  }

  lemma {:induction false} AddProducerAdds(ps: seq<Producer>, kind: Kind, id: TransformId)
    requires DistinctKinds(ps)
    ensures AddsOutput(ps, AddProducer(ps, kind, id), kind, id)
    decreases |ps|
  {
    hide AddsOutput, AddOnce;
    if ps == [] {
      FirstOutput(kind, id);
    } else if ps[0].kind == kind {
      OutputAtFront(ps, id);
    } else {
      AddProducerAdds(ps[1..], kind, id);
      OutputBehind(ps[0], ps[1..], AddProducer(ps[1..], kind, id), kind, id);
      assert [ps[0]] + ps[1..] == ps;
    }
  }

  lemma FirstOutput(kind: Kind, id: TransformId)
    ensures AddsOutput([], [Producer(kind, [id])], kind, id)
  {
  }

  lemma OutputAtFront(ps: seq<Producer>, id: TransformId)
    requires ps != [] && DistinctKinds(ps)
    ensures AddsOutput(ps, [Producer(ps[0].kind, ps[0].ids + [id])] + ps[1..], ps[0].kind, id)
  {
    var qs := [Producer(ps[0].kind, ps[0].ids + [id])] + ps[1..];
    assert Kinds(ps)[0] == ps[0].kind && Kinds(qs) == Kinds(ps);
    assert forall i :: 0 < i < |ps| ==> ps[i].kind != ps[0].kind;
  }

  lemma OutputBehind(p: Producer, tail: seq<Producer>, rest: seq<Producer>, kind: Kind, id: TransformId)
    requires p.kind != kind && AddsOutput(tail, rest, kind, id)
    ensures AddsOutput([p] + tail, [p] + rest, kind, id)
  {
    KindsBehind(p, tail);
    KindsBehind(p, rest);
    AddOnceBehind(p.kind, Kinds(tail), kind);
    IdsBehind(p, tail, rest, kind, id);
    hide AddOnce, Kinds;
  }

  lemma KindsBehind(p: Producer, tail: seq<Producer>)
    ensures Kinds([p] + tail) == [p.kind] + Kinds(tail)
  {
  }

  lemma IdsBehind(p: Producer, tail: seq<Producer>, rest: seq<Producer>, kind: Kind, id: TransformId)
    requires p.kind != kind
    requires forall i :: 0 <= i < |rest| ==>
      rest[i].ids == (if i < |tail| then tail[i].ids else []) + if rest[i].kind == kind then [id] else []
    ensures var ps, qs := [p] + tail, [p] + rest;
      forall i :: 0 <= i < |qs| ==> qs[i].ids == (if i < |ps| then ps[i].ids else []) + if qs[i].kind == kind then [id] else []
  {
    var ps, qs := [p] + tail, [p] + rest;
    forall i | 0 <= i < |qs|
      ensures qs[i].ids == (if i < |ps| then ps[i].ids else []) + if qs[i].kind == kind then [id] else []
    {
      if i == 0 {
        assert p.ids + [] == p.ids;
      } else {
        assert qs[i] == rest[i - 1];
        if i < |ps| { assert ps[i] == tail[i - 1]; }
      }
    }
  }

  lemma AddOnceBehind(first: Kind, rest: seq<Kind>, kind: Kind)
    requires first != kind
    ensures AddOnce([first] + rest, kind) == [first] + AddOnce(rest, kind)
  {
  }

  lemma AddTabulates(ps: seq<Producer>, outs: seq<Output>, made: Output)
    requires Tabulates(ps, outs) && DistinctKinds(ps)
    ensures Tabulates(AddProducer(ps, made.kind, made.maker), outs + [made])
  {
    AddProducerAdds(ps, made.kind, made.maker);
    var qs := AddProducer(ps, made.kind, made.maker);
    assert (outs + [made])[..|outs|] == outs;
    hide AddProducer;
    forall i | 0 <= i < |qs|
      ensures qs[i].ids == MakersOf(outs + [made], qs[i].kind)
    {
      assert Kinds(qs)[i] == qs[i].kind;
      if i < |ps| {
        assert Kinds(ps)[i] == ps[i].kind == qs[i].kind && ps[i] in ps;
      } else {
        assert qs[i].kind == made.kind && made.kind !in Kinds(ps);
        NeverMade(outs, made.kind);
      }
    }
  }

  lemma {:induction false} NeverMade(outs: seq<Output>, kind: Kind)
    requires kind !in FirstKinds(outs)
    ensures MakersOf(outs, kind) == []
  {
    if outs != [] { NeverMade(outs[..|outs| - 1], kind); }
  }

  lemma {:induction false} OutputsTabulate(ps: seq<Producer>, outs: seq<Output>, outputs: seq<Kind>, id: TransformId)
    requires Tabulates(ps, outs) && DistinctKinds(ps)
    ensures Tabulates(AddOutputs(ps, outputs, id), outs + Labelled(outputs, id))
    ensures DistinctKinds(AddOutputs(ps, outputs, id))
  {
    hide Tabulates, DistinctKinds, Labelled;
    if outputs == [] {
      assert outs + Labelled(outputs, id) == outs;
    } else {
      var n := |outputs| - 1;
      var before := outs + Labelled(outputs[..n], id);
      OutputsTabulate(ps, outs, outputs[..n], id);
      AddTabulates(AddOutputs(ps, outputs[..n], id), before, Output(outputs[n], id));
      AddProducerLists(AddOutputs(ps, outputs[..n], id), outputs[n], id);
      assert Labelled(outputs, id) == Labelled(outputs[..n], id) + [Output(outputs[n], id)];
      assert outs + Labelled(outputs, id) == before + [Output(outputs[n], id)];
    }
  }

  /** The second layer looks at kinds in the order in which the steps of the first one first output them, and each of
    * its steps waits for those that output its kind, in order.
    */
  lemma {:induction false} ProducersAreInOrder(reg: Registry, steps: seq<PlanStep>)
    ensures Tabulates(ProducersOf(reg, steps), OutputsOf(reg, steps)) && DistinctKinds(ProducersOf(reg, steps))
  {
    hide FindTransform, Tabulates, DistinctKinds, Labelled;
    if steps == [] {
      NothingTabulated();
    } else {
      var front := steps[..|steps| - 1];
      ProducersAreInOrder(reg, front);
      match FindTransform(reg.transforms, steps[|steps| - 1].transform)
      case None => assert OutputsOf(reg, steps) == OutputsOf(reg, front);
      case Some(m) => OutputsTabulate(ProducersOf(reg, front), OutputsOf(reg, front), m.outputs, m.id);
    }
  }

  lemma NothingTabulated()
    ensures Tabulates([], []) && DistinctKinds([])
  {
  }
}
