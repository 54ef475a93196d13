/** Routes, menus and refusals to the last detail: which reason is given, what a score is made of, and what comes
  * first on a tie.
  */
module Routing {
  import opened Options
  import opened Modes
  import opened Router
  import opened Menu
  import opened Positions
  import opened Sorting

  // ---------------------------------------------------------------- why an engine is refused

  /** What each reason says of an engine. Links out are not asked for anything but to be in service. */
  predicate Complaint(reason: Reason, engine: Engine, provider: Provider, ctx: Context) {
    var local := engine.dataFlow == LocalFlow;
    match reason
    case EngineUnavailable => engine.status == Unavailable
    case ProviderIsDeprecated => engine.status == Deprecated || provider.status == ProviderDeprecated
    case NotExecutable => !Executes(provider) && !engine.terminal
    case PermissionDenied => Executes(provider) && exists p :: p in engine.permissions && p !in ctx.granted
    case BlockedByMode =>
      Executes(provider) && !local &&
      (ctx.mode == StrictLocal || (ctx.mode == ZeroCredential && provider.credentials == RequiredCredentials))
    case PaidOnly =>
      Executes(provider) && provider.pricing == PaidPricing && (ctx.mode == StrictLocal || ctx.mode == ZeroCredential || ctx.mode == FreeTier)
    case ProviderIsUnavailable =>
      Executes(provider) && (provider.status == ProviderDisabled || provider.status == ProviderUnavailable)
    case ProviderIsRateLimited => Executes(provider) && provider.status == ProviderRateLimited
    case RequiresConfiguration =>
      Executes(provider) &&
      (provider.status == ProviderInvalid || (provider.credentials == RequiredCredentials && provider.id !in ctx.configured))
    case _ => false
  }

  /** Which complaint is heard first. */
  function Precedence(reason: Reason): nat {
    match reason
    case EngineUnavailable => 1
    case ProviderIsDeprecated => 2
    case NotExecutable => 3
    case PermissionDenied => 4
    case BlockedByMode => 5
    case PaidOnly => 6
    case ProviderIsUnavailable => 7
    case ProviderIsRateLimited => 8
    case RequiresConfiguration => 9
    case _ => 10
  }

  /** The complaint that is heard first is the reason given; without any there is none. */
  lemma RefusalIsFirstComplaint(engine: Engine, provider: Provider, ctx: Context)
    ensures match EngineExclusion(engine, provider, ctx)
      case None => forall r :: !Complaint(r, engine, provider, ctx)
      case Some(reason) =>
        && Complaint(reason, engine, provider, ctx)
        && forall r :: Complaint(r, engine, provider, ctx) ==> Precedence(reason) <= Precedence(r)
  {
  }

  // ---------------------------------------------------------------- scores

  /** What a change in the three quality signals is worth: the weights are 30, 20 and 10 hundredths. */
  lemma ScoreResponds(engine: Engine, status: ProviderStatus, d: real)
    ensures var score := EngineScore(engine, status);
      && EngineScore(engine.(resultQuality := engine.resultQuality + d), status) == score + 0.3 * d
      && EngineScore(engine.(reliability := engine.reliability + d), status) == score + 0.2 * d
      && EngineScore(engine.(maintenance := engine.maintenance + d), status) == score + 0.1 * d
  {
  }

  /** What it is worth to stay on the machine, to be fast, and to be configured. */
  lemma SignalsRespond(engine: Engine, status: ProviderStatus)
    ensures var on := (flow: DataFlow) => EngineScore(engine.(dataFlow := flow), status);
      on(LocalFlow) == on(NetworkFlow) + 0.06 == on(ExternalApiFlow) + 0.105
    ensures var at := (cost: ExecutionClass) => EngineScore(engine.(cost := cost), status);
      at(Fast) == at(Standard) + 0.03 == at(OptionalRun) + 0.05 == at(Deep) + 0.07
    ensures var of := (s: ProviderStatus) => EngineScore(engine, s);
      && of(ProviderConfigured) == of(ProviderNotConfigured) + 0.075 == of(ProviderRateLimited) + 0.12 == of(ProviderInvalid) + 0.135
      && of(ProviderConfigured) == of(ProviderDisabled) + 0.15 == of(ProviderUnavailable) + 0.15 == of(ProviderDeprecated) + 0.15
  {
  }

  /** The weights sum to one: a local, fast engine of a configured provider with full marks scores 1. */
  lemma BestScoreIsOne(engine: Engine)
    requires engine.resultQuality == engine.reliability == engine.maintenance == 1.0
    requires engine.dataFlow == LocalFlow && engine.cost == Fast
    ensures EngineScore(engine, ProviderConfigured) == 1.0
  {
  }

  /** A transform scores as its best engine, in these parts of ten. */
  lemma PriorityWeighs(reg: Registry, t: Transform, ctx: Context)
    ensures var r := Route(reg, t, ctx);
      var tenths := match t.priority
        case Core => 10.0 case Recommended => 9.0 case OptionalPriority => 7.0
        case Experimental => 5.0 case External => 3.0 case DeprecatedPriority => 0.0;
      || (exists best :: IsBest(r.chain, best) && 10.0 * r.score == tenths * best.score)
      || ((forall e :: e in r.chain ==> e.engine.terminal) && r.score == 0.0)
  {
    ScoreIsOfBest(reg, t, ctx);
    var r := Route(reg, t, ctx);
    hide Route;
    if best :| IsBest(r.chain, best) && r.score == best.score * Weight(t.priority) {
      hide IsBest;
    }
  }

  /** The reason of a route that cannot run is the first of these that some refused engine has. */
  lemma ReasonIsNamed(reg: Registry, t: Transform, ctx: Context)
    ensures var r := Route(reg, t, ctx);
      var order := [RequiresConfiguration, PaidOnly, BlockedByMode, ProviderIsRateLimited, ProviderIsUnavailable,
                    PermissionDenied, ProviderIsDeprecated, EngineUnavailable, NotExecutable];
      r.reason.Some? ==>
        || (exists k :: FirstGiven(order, r.rejected, k) && r.reason.value == order[k])
        || (r.reason.value == NoEngine && forall j :: 0 <= j < |order| ==> !Given(r.rejected, order[j]))
  {
    ReasonIsMostActionable(reg, t, ctx);
    hide Route;
  }

  // ---------------------------------------------------------------- ties

  /** The k-th declared engine has a provider, and is (or is not) refused. */
  ghost predicate EngineAt(reg: Registry, engines: seq<Engine>, ctx: Context, refused: bool, k: nat) {
    && k < |engines| && FindProvider(reg.providers, engines[k].provider).Some?
    && (EngineExclusion(engines[k], FindProvider(reg.providers, engines[k].provider).value, ctx).Some? <==> refused)
  }

  ghost predicate EntriesFrom(reg: Registry, engines: seq<Engine>, ctx: Context, refused: bool,
                              entries: seq<Router.Entry>, from: seq<nat>)
  {
    && |from| == |entries| && Increasing(from)
    && (forall k: nat :: k in from <==> EngineAt(reg, engines, ctx, refused, k))
    && forall i :: 0 <= i < |entries| ==> from[i] < |engines| && Yields(reg, engines[from[i]], ctx, entries[i])
  }

  /** Usable and refused engines are each listed in the order of declaration. */
  lemma {:induction false} EnginesAreInOrder(reg: Registry, engines: seq<Engine>, ctx: Context, refused: bool)
    returns (from: seq<nat>)
    ensures EntriesFrom(reg, engines, ctx, refused, ListOf(reg, engines, ctx, refused), from)
  {
    hide *;
    if engines == [] {
      from := [];
      NoEngines(reg, ctx, refused);
    } else {
      var front, g := engines[..|engines| - 1], engines[|engines| - 1];
      from := EnginesAreInOrder(reg, front, ctx, refused);
      assert engines == front + [g];
      OneMoreEngine(reg, front, g, ctx, refused, ListOf(reg, front, ctx, refused), from);
      if EngineAt(reg, engines, ctx, refused, |front|) { from := from + [|front|]; }
      ListSnoc(reg, front, g, ctx, refused);
    }
  }

  function ListOf(reg: Registry, engines: seq<Engine>, ctx: Context, refused: bool): seq<Router.Entry> {
    if refused then SplitOf(reg, engines, ctx).rejected else SplitOf(reg, engines, ctx).usable
  }

  lemma NoEngines(reg: Registry, ctx: Context, refused: bool)
    ensures EntriesFrom(reg, [], ctx, refused, ListOf(reg, [], ctx, refused), [])
  {
  }

  lemma ListSnoc(reg: Registry, front: seq<Engine>, g: Engine, ctx: Context, refused: bool)
    ensures ListOf(reg, front + [g], ctx, refused) ==
      if EngineAt(reg, front + [g], ctx, refused, |front|)
      then ListOf(reg, front, ctx, refused) + [EntryOf(g, FindProvider(reg.providers, g.provider).value, ctx)]
      else ListOf(reg, front, ctx, refused)
    ensures EngineAt(reg, front + [g], ctx, refused, |front|) ==> FindProvider(reg.providers, g.provider).Some?
  {
    assert (front + [g])[..|front|] == front && (front + [g])[|front|] == g;
    hide EngineExclusion, EngineScore, FindProvider;
  }

  lemma OneMoreEngine(reg: Registry, front: seq<Engine>, g: Engine, ctx: Context, refused: bool,
                      entries: seq<Router.Entry>, from: seq<nat>)
    requires EntriesFrom(reg, front, ctx, refused, entries, from)
    ensures var all := front + [g];
      if EngineAt(reg, all, ctx, refused, |front|)
      then FindProvider(reg.providers, g.provider).Some? &&
           EntriesFrom(reg, all, ctx, refused, entries + [EntryOf(g, FindProvider(reg.providers, g.provider).value, ctx)], from + [|front|])
      else EntriesFrom(reg, all, ctx, refused, entries, from)
  {
    hide EngineExclusion, FindProvider, EntryOf, Increasing;
    var all := front + [g];
    assert all[|front|] == g && forall k: nat :: k < |front| ==> all[k] == front[k];
    assert forall k: nat :: k in from ==> k < |front|;
    MorePositions(from, |front|);
    forall k: nat
      ensures EngineAt(reg, all, ctx, refused, k) <==>
        EngineAt(reg, front, ctx, refused, k) || (k == |front| && EngineAt(reg, all, ctx, refused, |front|))
    {
    }
    hide EngineAt;
  }

  /** Engines that rank the same in a chain stay in the order of declaration. */
  lemma ChainIsStable(reg: Registry, t: Transform, ctx: Context) returns (from: seq<nat>)
    ensures SortedFrom(CHAIN_ORDER, SplitOf(reg, EnginesFor(reg, t.engines), ctx).usable, Route(reg, t, ctx).chain, from)
  {
    ChainOrderIsTotal();
    from := SortIsStable(CHAIN_ORDER, SplitOf(reg, EnginesFor(reg, t.engines), ctx).usable);
    hide SortedFrom, Sort, SplitOf, EnginesFor;
  }

  /** Transforms that score the same for an input stay in the order of declaration, and each is routed as often as it
    * is declared.
    */
  lemma RoutesAreStable(reg: Registry, kind: Kind, ctx: Context) returns (from: seq<nat>)
    ensures SortedFrom(SCORE_ORDER, RouteAll(reg, ForInput(reg.transforms, kind), ctx), RouteForInput(reg, kind, ctx), from)
  {
    hide SortedFrom, Sort, ForInput, RouteAll;
    ScoresAreOrdered();
    from := SortIsStable(SCORE_ORDER, RouteAll(reg, ForInput(reg.transforms, kind), ctx));
  }

  lemma ScoresAreOrdered()
    ensures TotalPreorder(SCORE_ORDER)
  {
  }

  /** ... and so do entries that rank the same in a menu. */
  lemma MenuIsStable(reg: Registry, kind: Kind, ctx: Context, covered: set<Capability>) returns (from: seq<nat>)
    ensures SortedFrom(OrderBy(covered), RouteForInput(reg, kind, ctx), Ranked(reg, kind, ctx, covered), from)
  {
    hide SortedFrom, Sort, RouteForInput;
    MenuOrderIsTotal(covered);
    from := SortIsStable(OrderBy(covered), RouteForInput(reg, kind, ctx));
  }

  // ---------------------------------------------------------------- which entries are picked

  /** The k-th entry of the ranking is the first with its capability that is not deprecated. */
  ghost predicate FirstOfCapability(ranked: seq<Routed>, k: nat) {
    && k < |ranked| && ranked[k].transform.priority != DeprecatedPriority
    && forall j: nat :: j < k && ranked[j].transform.priority != DeprecatedPriority ==>
         ranked[j].transform.capability != ranked[k].transform.capability
  }

  /** The picks are the first ones of their capability, the best-ranked of them as far as the limit goes. */
  ghost predicate PicksFirst(ranked: seq<Routed>, limit: int, picked: seq<Routed>, at: seq<nat>) {
    && Selects(ranked, picked, at)
    && (forall k: nat :: k in at ==> FirstOfCapability(ranked, k))
    && (forall k: nat :: FirstOfCapability(ranked, k) && k !in at ==> |picked| >= limit && forall a: nat :: a in at ==> a < k)
  }

  lemma {:induction false} PickedIsExact(ranked: seq<Routed>, limit: int) returns (at: seq<nat>)
    ensures PicksFirst(ranked, limit, Picked(ranked, limit), at)
  {
    hide *;
    if ranked == [] {
      at := [];
      NothingPicked(limit);
    } else {
      var front, r := ranked[..|ranked| - 1], ranked[|ranked| - 1];
      at := PickedIsExact(front, limit);
      assert ranked == front + [r];
      var picked := Picked(front, limit);
      PickSnoc(front, r, limit);
      FirstSnoc(front, r, picked, at, limit);
      if |picked| < limit && FirstOfCapability(ranked, |front|) { at := at + [|front|]; }
    }
  }

  lemma NothingPicked(limit: int)
    ensures PicksFirst([], limit, Picked([], limit), [])
  {
  }

  lemma PickSnoc(front: seq<Routed>, r: Routed, limit: int)
    ensures var picked := Picked(front, limit);
      Picked(front + [r], limit) ==
        if |picked| >= limit || r.transform.capability in Capabilities(picked) || r.transform.priority == DeprecatedPriority
        then picked else picked + [r]
  {
    assert (front + [r])[..|front|] == front;
    hide Capabilities;
  }

  lemma FirstStays(front: seq<Routed>, r: Routed, k: nat)
    ensures k < |front| ==> (FirstOfCapability(front + [r], k) <==> FirstOfCapability(front, k))
    ensures FirstOfCapability(front + [r], k) ==> k <= |front|
  {
    var all := front + [r];
    assert all[|front|] == r && forall j: nat :: j < |front| ==> all[j] == front[j];
  }

  /** With room left, a capability has been picked exactly if an entry with it came before. */
  lemma CapabilityIsPicked(front: seq<Routed>, r: Routed, picked: seq<Routed>, at: seq<nat>, limit: int)
    requires PicksFirst(front, limit, picked, at) && |picked| < limit && r.transform.priority != DeprecatedPriority
    ensures r.transform.capability in Capabilities(picked) <==> !FirstOfCapability(front + [r], |front|)
  {
    var all := front + [r];
    assert all[|front|] == r && forall j: nat :: j < |front| ==> all[j] == front[j];
    if r.transform.capability in Capabilities(picked) {
      var q :| q in picked && q.transform.capability == r.transform.capability;
      var i :| 0 <= i < |picked| && picked[i] == q;
      assert at[i] in at && FirstOfCapability(front, at[i]);
      assert all[at[i]] == q;
    }
    if !FirstOfCapability(all, |front|) {
      var j: nat :| j < |front| && all[j].transform.priority != DeprecatedPriority
                    && all[j].transform.capability == r.transform.capability;
      var k := EarliestOf(front, j);
      assert k in at;
      var i :| 0 <= i < |at| && at[i] == k;
      assert picked[i] in picked;
    }
  }

  lemma {:induction false} EarliestOf(ranked: seq<Routed>, j: nat) returns (k: nat)
    requires j < |ranked| && ranked[j].transform.priority != DeprecatedPriority
    ensures FirstOfCapability(ranked, k) && ranked[k].transform.capability == ranked[j].transform.capability
    decreases j
  {
    if FirstOfCapability(ranked, j) {
      k := j;
    } else {
      var i: nat :| i < j && ranked[i].transform.priority != DeprecatedPriority
                    && ranked[i].transform.capability == ranked[j].transform.capability;
      k := EarliestOf(ranked, i);
    }
  }

  lemma FirstSnoc(front: seq<Routed>, r: Routed, picked: seq<Routed>, at: seq<nat>, limit: int)
    requires PicksFirst(front, limit, picked, at)
    ensures var all := front + [r];
      var picks := |picked| < limit && FirstOfCapability(all, |front|);
      && (picks <==> !(|picked| >= limit || r.transform.capability in Capabilities(picked) || r.transform.priority == DeprecatedPriority))
      && PicksFirst(all, limit, if picks then picked + [r] else picked, if picks then at + [|front|] else at)
  {
    hide FirstOfCapability, Selects, Capabilities;
    var all := front + [r];
    LastIsDeprecated(front, r);
    if |picked| < limit && r.transform.priority != DeprecatedPriority { CapabilityIsPicked(front, r, picked, at, limit); }
    PicksSnoc(front, r, picked, at, limit);
  }

  lemma LastIsDeprecated(front: seq<Routed>, r: Routed)
    ensures r.transform.priority == DeprecatedPriority ==> !FirstOfCapability(front + [r], |front|)
  {
    assert (front + [r])[|front|] == r;
  }

  lemma PicksSnoc(front: seq<Routed>, r: Routed, picked: seq<Routed>, at: seq<nat>, limit: int)
    requires PicksFirst(front, limit, picked, at)
    ensures var all := front + [r];
      var picks := |picked| < limit && FirstOfCapability(all, |front|);
      PicksFirst(all, limit, if picks then picked + [r] else picked, if picks then at + [|front|] else at)
  {
    var all := front + [r];
    AllBefore(front, picked, at);
    SelectsSnoc(front, picked, at, r);
    hide FirstOfCapability, Selects;
    forall k: nat
      ensures k < |front| ==> (FirstOfCapability(all, k) <==> FirstOfCapability(front, k))
      ensures FirstOfCapability(all, k) ==> k <= |front|
    {
      FirstStays(front, r, k);
    }
    MorePositions(at, |front|);
  }

  lemma AllBefore(front: seq<Routed>, picked: seq<Routed>, at: seq<nat>)
    requires Selects(front, picked, at)
    ensures forall a: nat :: a in at ==> a < |front|
  {
  }

  // ---------------------------------------------------------------- lookups and inputs

  /** Of manifests with one id the last is found. */
  lemma {:induction false} FindsLast(reg: Registry, n: nat, m: nat, k: nat, id: string)
    requires n <= |reg.transforms| && m <= |reg.engines| && k <= |reg.providers|
    ensures match FindTransform(reg.transforms[..n], id)
      case None => forall i :: 0 <= i < n ==> reg.transforms[i].id != id
      case Some(t) => exists i :: 0 <= i < n && reg.transforms[i] == t && t.id == id && forall j :: i < j < n ==> reg.transforms[j].id != id
    ensures match FindEngine(reg.engines[..m], id)
      case None => forall i :: 0 <= i < m ==> reg.engines[i].id != id
      case Some(e) => exists i :: 0 <= i < m && reg.engines[i] == e && e.id == id && forall j :: i < j < m ==> reg.engines[j].id != id
    ensures match FindProvider(reg.providers[..k], id)
      case None => forall i :: 0 <= i < k ==> reg.providers[i].id != id
      case Some(p) => exists i :: 0 <= i < k && reg.providers[i] == p && p.id == id && forall j :: i < j < k ==> reg.providers[j].id != id
    decreases n + m + k
  {
    LastTransform(reg.transforms, n, id);
    LastEngine(reg.engines, m, id);
    LastProvider(reg.providers, k, id);
  }

  lemma {:induction false} LastTransform(ts: seq<Transform>, n: nat, id: string)
    requires n <= |ts|
    ensures match FindTransform(ts[..n], id)
      case None => forall i :: 0 <= i < n ==> ts[i].id != id
      case Some(t) => exists i :: 0 <= i < n && ts[i] == t && t.id == id && forall j :: i < j < n ==> ts[j].id != id
  {
    if n > 0 {
      assert ts[..n][..n - 1] == ts[..n - 1];
      LastTransform(ts, n - 1, id);
    }
  }

  lemma {:induction false} LastEngine(es: seq<Engine>, n: nat, id: string)
    requires n <= |es|
    ensures match FindEngine(es[..n], id)
      case None => forall i :: 0 <= i < n ==> es[i].id != id
      case Some(e) => exists i :: 0 <= i < n && es[i] == e && e.id == id && forall j :: i < j < n ==> es[j].id != id
  {
    if n > 0 {
      assert es[..n][..n - 1] == es[..n - 1];
      LastEngine(es, n - 1, id);
    }
  }

  lemma {:induction false} LastProvider(ps: seq<Provider>, n: nat, id: string)
    requires n <= |ps|
    ensures match FindProvider(ps[..n], id)
      case None => forall i :: 0 <= i < n ==> ps[i].id != id
      case Some(p) => exists i :: 0 <= i < n && ps[i] == p && p.id == id && forall j :: i < j < n ==> ps[j].id != id
  {
    if n > 0 {
      assert ps[..n][..n - 1] == ps[..n - 1];
      LastProvider(ps, n - 1, id);
    }
  }

  ghost predicate AcceptFrom(ts: seq<Transform>, kind: Kind, list: seq<Transform>, from: seq<nat>) {
    && |from| == |list|
    && (forall i, j :: 0 <= i < j < |from| ==> from[i] <= from[j])
    && (forall k: nat :: k in from <==> k < |ts| && kind in ts[k].inputs)
    && forall i :: 0 <= i < |list| ==> from[i] < |ts| && list[i] == ts[from[i]]
  }

  /** Transforms that accept the kind come in the order of declaration. */
  lemma {:induction false} InputsAreInOrder(ts: seq<Transform>, kind: Kind) returns (from: seq<nat>)
    ensures AcceptFrom(ts, kind, ForInput(ts, kind), from)
  {
    hide *;
    if ts == [] {
      from := [];
      NoneAccepts(kind);
    } else {
      var front, t := ts[..|ts| - 1], ts[|ts| - 1];
      from := InputsAreInOrder(front, kind);
      assert ts == front + [t];
      OneMoreAccepts(front, t, kind, ForInput(front, kind), from);
      from := from + seq(|Repeat(t, t.inputs, kind)|, _ => |front|);
    }
  }

  lemma NoneAccepts(kind: Kind)
    ensures AcceptFrom([], kind, ForInput([], kind), [])
  {
  }

  lemma {:induction false} RepeatsOne(t: Transform, inputs: seq<Kind>, kind: Kind)
    ensures forall i :: 0 <= i < |Repeat(t, inputs, kind)| ==> Repeat(t, inputs, kind)[i] == t
    ensures Repeat(t, inputs, kind) != [] <==> kind in inputs
  {
    if inputs != [] { RepeatsOne(t, inputs[..|inputs| - 1], kind); }
  }

  lemma OneMoreAccepts(front: seq<Transform>, t: Transform, kind: Kind, list: seq<Transform>, from: seq<nat>)
    requires AcceptFrom(front, kind, list, from) && list == ForInput(front, kind)
    ensures var n := |Repeat(t, t.inputs, kind)|;
      AcceptFrom(front + [t], kind, ForInput(front + [t], kind), from + seq<nat>(n, _ => |front|))
  {
    var all, more := front + [t], Repeat(t, t.inputs, kind);
    RepeatsOne(t, t.inputs, kind);
    assert all[..|front|] == front && all[|front|] == t;
    assert ForInput(all, kind) == list + more;
    hide Repeat, ForInput, AcceptFrom;
    AcceptsAppend(front, t, kind, list, from, more, seq<nat>(|more|, _ => |front|));
  }

  lemma AcceptsAppend(front: seq<Transform>, t: Transform, kind: Kind, list: seq<Transform>, from: seq<nat>,
                      more: seq<Transform>, at: seq<nat>)
    requires AcceptFrom(front, kind, list, from) && |at| == |more| && (more != [] <==> kind in t.inputs)
    requires forall i :: 0 <= i < |more| ==> more[i] == t && at[i] == |front|
    ensures AcceptFrom(front + [t], kind, list + more, from + at)
  {
    AcceptsMembers(front, t, kind, list, from, more, at);
    var all := front + [t];
    assert forall i :: 0 <= i < |from| ==> from[i] in from && from[i] < |front| && all[from[i]] == front[from[i]];
    assert all[|front|] == t;
  }

  lemma AcceptsMembers(front: seq<Transform>, t: Transform, kind: Kind, list: seq<Transform>, from: seq<nat>,
                       more: seq<Transform>, at: seq<nat>)
    requires AcceptFrom(front, kind, list, from) && |at| == |more| && (more != [] <==> kind in t.inputs)
    requires forall i :: 0 <= i < |more| ==> more[i] == t && at[i] == |front|
    ensures forall k: nat :: k in from + at <==> k < |front + [t]| && kind in (front + [t])[k].inputs
  {
    var all := front + [t];
    forall k: nat
      ensures k in from + at <==> k < |all| && kind in all[k].inputs
    {
      assert k in from + at <==> k in from || k in at;
      if k == |front| && more != [] { assert at[0] == k; }
      if k < |front| { assert all[k] == front[k]; }
    }
  }
}
