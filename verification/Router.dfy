/** The capability router: a transform and a context to an ordered fallback chain. */
module Router {
  import opened Options
  import opened Modes
  import opened Sorting

  type TransformId = string
  type Kind = string
  type Capability = string

  datatype Priority = Core | Recommended | OptionalPriority | Experimental | External | DeprecatedPriority

  datatype Transform = Transform(
    id: TransformId, capability: Capability, inputs: seq<Kind>, outputs: seq<Kind>, engines: seq<EngineId>,
    priority: Priority, expectedRuntimeMs: int, maxResults: int)

  datatype Registry = Registry(transforms: seq<Transform>, engines: seq<Engine>, providers: seq<Provider>)

  function FindTransform(ts: seq<Transform>, id: TransformId): Option<Transform> {
    if ts == [] then None
    else if ts[|ts| - 1].id == id then Some(ts[|ts| - 1])
    else FindTransform(ts[..|ts| - 1], id)
  }

  function FindEngine(es: seq<Engine>, id: EngineId): Option<Engine> {
    if es == [] then None
    else if es[|es| - 1].id == id then Some(es[|es| - 1])
    else FindEngine(es[..|es| - 1], id)
  }

  function FindProvider(ps: seq<Provider>, id: ProviderId): Option<Provider> {
    if ps == [] then None
    else if ps[|ps| - 1].id == id then Some(ps[|ps| - 1])
    else FindProvider(ps[..|ps| - 1], id)
  }

  /** Engines declared by a transform, in its order, skipping unknown ids. */
  function EnginesFor(reg: Registry, ids: seq<EngineId>): seq<Engine> {
    if ids == [] then []
    else
      EnginesFor(reg, ids[..|ids| - 1]) +
        match FindEngine(reg.engines, ids[|ids| - 1])
        case None => []
        case Some(e) => [e]
  }

  datatype Entry = Entry(engine: Engine, provider: Provider, reason: Option<Reason>, score: real)

  datatype Split = Split(usable: seq<Entry>, rejected: seq<Entry>)

  function EntryOf(engine: Engine, provider: Provider, ctx: Context): Entry {
    Entry(engine, provider, EngineExclusion(engine, provider, ctx), EngineScore(engine, provider.status))
  }

  /** The sorting of engines into usable and refused, in declaration order. */
  function SplitOf(reg: Registry, engines: seq<Engine>, ctx: Context): Split {
    if engines == [] then Split([], [])
    else
      var s := SplitOf(reg, engines[..|engines| - 1], ctx);
      var e := engines[|engines| - 1];
      match FindProvider(reg.providers, e.provider)
      case None => s
      case Some(p) =>
        var entry := EntryOf(e, p, ctx);
        if entry.reason.None? then s.(usable := s.usable + [entry]) else s.(rejected := s.rejected + [entry])
  }

  /** Terminal engines last, best score first before them. */
  predicate ChainOrder(a: Entry, b: Entry) {
    if a.engine.terminal != b.engine.terminal then b.engine.terminal else a.score >= b.score
  }

  const CHAIN_ORDER: (Entry, Entry) -> bool := (a, b) => ChainOrder(a, b)

  function FirstExecutable(chain: seq<Entry>): Option<Entry> {
    if chain == [] then None
    else if !chain[0].engine.terminal then Some(chain[0])
    else FirstExecutable(chain[1..])
  }

  function Weight(priority: Priority): real {
    match priority
    case Core => 1.0
    case Recommended => 0.9
    case OptionalPriority => 0.7
    case Experimental => 0.5
    case External => 0.3
    case DeprecatedPriority => 0.0
  }

  const ACTIONABILITY: seq<Reason> :=
    [RequiresConfiguration, PaidOnly, BlockedByMode, ProviderIsRateLimited, ProviderIsUnavailable, PermissionDenied,
     ProviderIsDeprecated, EngineUnavailable, NotExecutable]

  function BestOf(reasons: seq<Reason>, rejected: seq<Entry>): Reason {
    if reasons == [] then NoEngine
    else if exists e :: e in rejected && e.reason == Some(reasons[0]) then reasons[0]
    else BestOf(reasons[1..], rejected)
  }

  datatype Routed = Routed(transform: Transform, chain: seq<Entry>, rejected: seq<Entry>, score: real, reason: Option<Reason>)

  function Route(reg: Registry, t: Transform, ctx: Context): Routed {
    var s := SplitOf(reg, EnginesFor(reg, t.engines), ctx);
    var chain := Sort(CHAIN_ORDER, s.usable);
    var best := FirstExecutable(chain);
    Routed(t, chain, s.rejected,
           (if best.Some? then best.value.score else 0.0) * Weight(t.priority),
           if best.Some? then None else Some(BestOf(ACTIONABILITY, s.rejected)))
  }

  // ---------------------------------------------------------------- the chain

  lemma ChainOrderIsTotal()
    ensures TotalPreorder(CHAIN_ORDER)
  {
  }

  /** The chain holds exactly the usable engines, best first, terminals at the end. */
  lemma ChainIsOrdered(reg: Registry, t: Transform, ctx: Context)
    ensures var r := Route(reg, t, ctx);
      && multiset(r.chain) == multiset(SplitOf(reg, EnginesFor(reg, t.engines), ctx).usable)
      && (forall i, j :: 0 <= i < j < |r.chain| && r.chain[i].engine.terminal ==> r.chain[j].engine.terminal)
      && (forall i, j :: 0 <= i < j < |r.chain| && !r.chain[j].engine.terminal ==> r.chain[i].score >= r.chain[j].score)
  {
    var usable := SplitOf(reg, EnginesFor(reg, t.engines), ctx).usable;
    ChainOrderIsTotal();
    SortPermutes(CHAIN_ORDER, usable);
    SortSorts(CHAIN_ORDER, usable);
    var chain := Sort(CHAIN_ORDER, usable);
    hide Sort, SplitOf;
    forall i, j | 0 <= i < j < |chain|
      ensures chain[i].engine.terminal ==> chain[j].engine.terminal
      ensures !chain[j].engine.terminal ==> chain[i].score >= chain[j].score
    {
      assert CHAIN_ORDER(chain[i], chain[j]);
    }
  }

  lemma {:induction false} FirstExecutableIsBest(chain: seq<Entry>)
    requires forall i, j :: 0 <= i < j < |chain| && !chain[j].engine.terminal ==> chain[i].score >= chain[j].score
    ensures match FirstExecutable(chain)
      case None => forall e :: e in chain ==> e.engine.terminal
      case Some(b) => b in chain && !b.engine.terminal && forall e :: e in chain && !e.engine.terminal ==> b.score >= e.score
  {
    if chain != [] {
      if chain[0].engine.terminal {
        FirstExecutableIsBest(chain[1..]);
      } else {
        forall e | e in chain && !e.engine.terminal
          ensures chain[0].score >= e.score
        {
          var k :| 0 <= k < |chain| && chain[k] == e;
        }
      }
    }
  }

  /** Some declared engine with a known provider yields this entry. */
  ghost predicate Offers(reg: Registry, engines: seq<Engine>, ctx: Context, e: Entry) {
    exists g :: g in engines && Yields(reg, g, ctx, e)
  }

  predicate Yields(reg: Registry, g: Engine, ctx: Context, e: Entry) {
    && FindProvider(reg.providers, g.provider).Some?
    && e == EntryOf(g, FindProvider(reg.providers, g.provider).value, ctx)
  }

  lemma {:induction false} SplitMembers(reg: Registry, engines: seq<Engine>, ctx: Context, e: Entry)
    ensures e in SplitOf(reg, engines, ctx).usable <==> e.reason.None? && Offers(reg, engines, ctx, e)
    ensures e in SplitOf(reg, engines, ctx).rejected <==> e.reason.Some? && Offers(reg, engines, ctx, e)
  {
    if engines != [] {
      var front, last := engines[..|engines| - 1], engines[|engines| - 1];
      SplitMembers(reg, front, ctx, e);
      assert engines == front + [last];
      hide EngineExclusion, EngineScore, FindProvider;
      assert Offers(reg, engines, ctx, e) <==> Offers(reg, front, ctx, e) || Yields(reg, last, ctx, e) by {
        if Offers(reg, front, ctx, e) {
          var g :| g in front && Yields(reg, g, ctx, e);
          assert g in engines;
        }
      }
    }
  }

  lemma ChainMembers(reg: Registry, t: Transform, ctx: Context, e: Entry)
    ensures e in Route(reg, t, ctx).chain <==> e.reason.None? && Offers(reg, EnginesFor(reg, t.engines), ctx, e)
  {
    SortMembers(CHAIN_ORDER, SplitOf(reg, EnginesFor(reg, t.engines), ctx).usable);
    SplitMembers(reg, EnginesFor(reg, t.engines), ctx, e);
  }

  /** The refused engines are the excluded ones, each with its reason. */
  lemma RejectedMembers(reg: Registry, t: Transform, ctx: Context, e: Entry)
    ensures e in Route(reg, t, ctx).rejected <==> e.reason.Some? && Offers(reg, EnginesFor(reg, t.engines), ctx, e)
  {
    SplitMembers(reg, EnginesFor(reg, t.engines), ctx, e);
    hide SplitOf, Offers, Sort;
  }

  /** Position of the first reason in the list that some refused engine has. */
  ghost predicate FirstGiven(reasons: seq<Reason>, rejected: seq<Entry>, k: int) {
    && 0 <= k < |reasons| && Given(rejected, reasons[k])
    && forall j :: 0 <= j < k ==> !Given(rejected, reasons[j])
  }

  predicate Given(rejected: seq<Entry>, reason: Reason) {
    exists e :: e in rejected && e.reason == Some(reason)
  }

  lemma {:induction false} BestOfIsFirst(reasons: seq<Reason>, rejected: seq<Entry>)
    ensures (exists k :: FirstGiven(reasons, rejected, k) && BestOf(reasons, rejected) == reasons[k])
            || (BestOf(reasons, rejected) == NoEngine && forall j :: 0 <= j < |reasons| ==> !Given(rejected, reasons[j]))
  {
    if reasons != [] {
      if Given(rejected, reasons[0]) {
        assert FirstGiven(reasons, rejected, 0);
      } else {
        var rest := reasons[1..];
        BestOfIsFirst(rest, rejected);
        if k :| FirstGiven(rest, rejected, k) && BestOf(rest, rejected) == rest[k] {
          assert forall j :: 0 < j < |reasons| ==> reasons[j] == rest[j - 1];
          assert FirstGiven(reasons, rejected, k + 1);
        }
      }
    }
  }

  /** A route without an executable engine names the most actionable reason that really occurs, and the generic one only
    * when no refused engine has a listed reason; a route with one names none.
    */
  lemma ReasonIsMostActionable(reg: Registry, t: Transform, ctx: Context)
    ensures var r := Route(reg, t, ctx);
      match r.reason
      case None => exists e :: e in r.chain && !e.engine.terminal
      case Some(reason) =>
        && (forall e :: e in r.chain ==> e.engine.terminal)
        && ((exists k :: FirstGiven(ACTIONABILITY, r.rejected, k) && reason == ACTIONABILITY[k])
            || (reason == NoEngine && forall j :: 0 <= j < |ACTIONABILITY| ==> !Given(r.rejected, ACTIONABILITY[j])))
  {
    var r := Route(reg, t, ctx);
    ChainIsOrdered(reg, t, ctx);
    FirstExecutableIsBest(r.chain);
    BestOfIsFirst(ACTIONABILITY, r.rejected);
    hide SplitOf, Sort, BestOf, FirstGiven, Given, FirstExecutable, EnginesFor;
  }

  /** Relaxing the context never removes an engine from a chain. */
  lemma RelaxingKeepsChain(reg: Registry, t: Transform, a: Context, b: Context, e: Entry)
    requires Relaxes(a, b) && e in Route(reg, t, a).chain
    ensures e in Route(reg, t, b).chain
  {
    ChainMembers(reg, t, a, e);
    ChainMembers(reg, t, b, e);
    hide Route;
    var g :| g in EnginesFor(reg, t.engines) && Yields(reg, g, a, e);
    RelaxingKeepsEngine(g, FindProvider(reg.providers, g.provider).value, a, b);
    hide EngineExclusion, EngineScore;
    assert Yields(reg, g, b, e);
  }

  lemma BestOfChain(reg: Registry, t: Transform, ctx: Context)
    ensures match FirstExecutable(Route(reg, t, ctx).chain)
      case None => forall e :: e in Route(reg, t, ctx).chain ==> e.engine.terminal
      case Some(b) =>
        && b in Route(reg, t, ctx).chain && !b.engine.terminal
        && forall e :: e in Route(reg, t, ctx).chain && !e.engine.terminal ==> b.score >= e.score
  {
    ChainIsOrdered(reg, t, ctx);
    FirstExecutableIsBest(Route(reg, t, ctx).chain);
  }

  function BestScore(chain: seq<Entry>): real {
    if FirstExecutable(chain).Some? then FirstExecutable(chain).value.score else 0.0
  }

  /** Relaxing the context never lowers a transform's score, for engines with schema-valid quality. */
  lemma RelaxingKeepsScore(reg: Registry, t: Transform, a: Context, b: Context)
    requires Relaxes(a, b)
    requires forall g :: g in EnginesFor(reg, t.engines) ==> UnitQuality(g)
    ensures Route(reg, t, a).score <= Route(reg, t, b).score
  {
    hide Route, BestScore, EnginesFor;
    BestScoreGrows(reg, t, a, b);
    ScoreIsWeighed(reg, t, a);
    ScoreIsWeighed(reg, t, b);
    WeightIsPositive(t.priority);
    hide Weight;
    WeighedInOrder(BestScore(Route(reg, t, a).chain), BestScore(Route(reg, t, b).chain), Weight(t.priority));
  }

  lemma WeightIsPositive(priority: Priority)
    ensures Weight(priority) >= 0.0
  {
  }

  lemma ScoreIsWeighed(reg: Registry, t: Transform, ctx: Context)
    ensures Route(reg, t, ctx).score == BestScore(Route(reg, t, ctx).chain) * Weight(t.priority)
  {
    hide SplitOf, Sort, BestOf;
  }

  /** The best of the engines in a chain that can execute. */
  ghost predicate IsBest(chain: seq<Entry>, best: Entry) {
    best in chain && !best.engine.terminal && forall e :: e in chain && !e.engine.terminal ==> best.score >= e.score
  }

  /** A transform scores as its best executable engine does, weighed by priority, and 0 without one. */
  lemma ScoreIsOfBest(reg: Registry, t: Transform, ctx: Context)
    ensures var r := Route(reg, t, ctx);
      || (exists best :: IsBest(r.chain, best) && r.score == best.score * Weight(t.priority))
      || ((forall e :: e in r.chain ==> e.engine.terminal) && r.score == 0.0)
  {
    BestOfChain(reg, t, ctx);
    ScoreIsWeighed(reg, t, ctx);
    var chain := Route(reg, t, ctx).chain;
    hide Route;
    if FirstExecutable(chain).Some? {
      assert IsBest(chain, FirstExecutable(chain).value);
    }
  }

  lemma WeighedInOrder(x: real, y: real, w: real)
    requires x <= y && w >= 0.0
    ensures x * w <= y * w
  {
    assert (y - x) * w >= 0.0;
  }

  lemma BestScoreGrows(reg: Registry, t: Transform, a: Context, b: Context)
    requires Relaxes(a, b)
    requires forall g :: g in EnginesFor(reg, t.engines) ==> UnitQuality(g)
    ensures BestScore(Route(reg, t, a).chain) <= BestScore(Route(reg, t, b).chain)
  {
    BestOfChain(reg, t, a);
    BestOfChain(reg, t, b);
    var better := FirstExecutable(Route(reg, t, b).chain);
    if FirstExecutable(Route(reg, t, a).chain).Some? {
      var best := FirstExecutable(Route(reg, t, a).chain).value;
      RelaxingKeepsChain(reg, t, a, b, best);
    } else if better.Some? {
      ChainMembers(reg, t, b, better.value);
      hide Route, EngineScore;
      var g :| g in EnginesFor(reg, t.engines) && Yields(reg, g, b, better.value);
      ScoreIsUnit(g, FindProvider(reg.providers, g.provider).value.status);
    }
  }

  // ---------------------------------------------------------------- transforms for an input

  // ---------------------------------------------------------------- registries in order

  lemma NextEngineFor(reg: Registry, front: seq<EngineId>, id: EngineId, e: Engine)
    ensures e in EnginesFor(reg, front + [id]) <==> e in EnginesFor(reg, front) || FindEngine(reg.engines, id) == Some(e)
  {
    hide FindEngine;
    assert (front + [id])[..|front|] == front;
  }

  lemma {:induction false} EnginesForMembers(reg: Registry, ids: seq<EngineId>, e: Engine)
    ensures e in EnginesFor(reg, ids) <==> exists id :: id in ids && FindEngine(reg.engines, id) == Some(e)
  {
    hide FindEngine;
    if ids != [] {
      hide EnginesFor;
      var front, last := ids[..|ids| - 1], ids[|ids| - 1];
      assert ids == front + [last];
      EnginesForMembers(reg, front, e);
      NextEngineFor(reg, front, last, e);
      assert forall id :: id in ids <==> id in front || id == last;
    }
  }

  /** The engine serves the transform: it has its capability, or ends any chain. */
  predicate Serves(e: Engine, t: Transform) {
    e.terminal || e.capability == t.capability
  }

  ghost predicate HasTerminal(reg: Registry, t: Transform) {
    exists e :: e in EnginesFor(reg, t.engines) && e.terminal
  }

  /** `validate` finds nothing to report on transforms and engines. */
  ghost predicate Validates(reg: Registry) {
    && (forall i, j :: 0 <= i < j < |reg.transforms| ==> reg.transforms[i].id != reg.transforms[j].id)
    && (forall t, id {:trigger t in reg.transforms, id in t.engines} :: t in reg.transforms && id in t.engines ==>
          FindEngine(reg.engines, id).Some? && Serves(FindEngine(reg.engines, id).value, t))
    && (forall t {:trigger HasTerminal(reg, t)} :: t in reg.transforms && EnginesFor(reg, t.engines) != [] ==> HasTerminal(reg, t))
    && (forall e :: e in reg.engines ==> FindProvider(reg.providers, e.provider).Some?)
  }

  /** One usable engine of its own is enough for a transform to be usable. */
  lemma OneEngineIsEnough(reg: Registry, t: Transform, ctx: Context, id: EngineId, g: Engine, p: Provider)
    requires id in t.engines && FindEngine(reg.engines, id) == Some(g) && FindProvider(reg.providers, g.provider) == Some(p)
    requires !g.terminal && EngineExclusion(g, p, ctx).None?
    ensures Route(reg, t, ctx).reason.None? && EntryOf(g, p, ctx) in Route(reg, t, ctx).chain
  {
    hide Route, EngineExclusion, EngineScore, EnginesFor, FindEngine, FindProvider;
    EnginesForMembers(reg, t.engines, g);
    var e := EntryOf(g, p, ctx);
    assert Yields(reg, g, ctx, e);
    ChainMembers(reg, t, ctx, e);
    ReasonIsMostActionable(reg, t, ctx);
  }

  function Repeat(t: Transform, inputs: seq<Kind>, kind: Kind): seq<Transform> {
    if inputs == [] then []
    else Repeat(t, inputs[..|inputs| - 1], kind) + if inputs[|inputs| - 1] == kind then [t] else []
  }

  /** Transforms that accept the kind, in declaration order. */
  function ForInput(ts: seq<Transform>, kind: Kind): seq<Transform> {
    if ts == [] then []
    else ForInput(ts[..|ts| - 1], kind) + Repeat(ts[|ts| - 1], ts[|ts| - 1].inputs, kind)
  }

  predicate ScoreOrder(a: Routed, b: Routed) {
    a.score >= b.score
  }

  const SCORE_ORDER: (Routed, Routed) -> bool := (a, b) => ScoreOrder(a, b)

  function RouteAll(reg: Registry, ts: seq<Transform>, ctx: Context): (rs: seq<Routed>)
    ensures |rs| == |ts| && forall i :: 0 <= i < |ts| ==> rs[i] == Route(reg, ts[i], ctx)
  {
    seq(|ts|, i requires 0 <= i < |ts| => Route(reg, ts[i], ctx))
  }

  function RouteForInput(reg: Registry, kind: Kind, ctx: Context): seq<Routed> {
    Sort(SCORE_ORDER, RouteAll(reg, ForInput(reg.transforms, kind), ctx))
  }

  lemma {:induction false} RepeatMembers(t: Transform, inputs: seq<Kind>, kind: Kind)
    ensures forall x :: x in Repeat(t, inputs, kind) <==> x == t && kind in inputs
  {
    if inputs != [] {
      RepeatMembers(t, inputs[..|inputs| - 1], kind);
      assert inputs == inputs[..|inputs| - 1] + [inputs[|inputs| - 1]];
    }
  }

  lemma {:induction false} ForInputMembers(ts: seq<Transform>, kind: Kind)
    ensures forall t :: t in ForInput(ts, kind) <==> t in ts && kind in t.inputs
  {
    if ts != [] {
      var front, last := ts[..|ts| - 1], ts[|ts| - 1];
      ForInputMembers(front, kind);
      RepeatMembers(last, last.inputs, kind);
      assert ts == front + [last];
    }
  }

  /** Every transform that accepts the kind is routed, nothing else is, best score first. */
  lemma RoutedForInput(reg: Registry, kind: Kind, ctx: Context)
    ensures var rs := RouteForInput(reg, kind, ctx);
      && (forall r :: r in rs <==>
            r.transform in reg.transforms && kind in r.transform.inputs && r == Route(reg, r.transform, ctx))
      && (forall i, j :: 0 <= i < j < |rs| ==> rs[i].score >= rs[j].score)
  {
    hide Sort, ForInput, Route;
    var ts := ForInput(reg.transforms, kind);
    var all := RouteAll(reg, ts, ctx);
    ForInputMembers(reg.transforms, kind);
    SortMembers(SCORE_ORDER, all);
    AllRouted(reg, ts, ctx);
    BestScoreFirst(all);
  }

  lemma AllRouted(reg: Registry, ts: seq<Transform>, ctx: Context)
    ensures forall r :: r in RouteAll(reg, ts, ctx) <==> r.transform in ts && r == Route(reg, r.transform, ctx)
  {
    hide Route;
    var all := RouteAll(reg, ts, ctx);
    forall r
      ensures r in all <==> r.transform in ts && r == Route(reg, r.transform, ctx)
    {
      if r in all {
        var i :| 0 <= i < |all| && all[i] == r;
        RouteKeepsTransform(reg, ts[i], ctx);
      }
      if r.transform in ts && r == Route(reg, r.transform, ctx) {
        var i :| 0 <= i < |ts| && ts[i] == r.transform;
        assert all[i] == r;
      }
    }
  }

  lemma BestScoreFirst(all: seq<Routed>)
    ensures var rs := Sort(SCORE_ORDER, all); forall i, j :: 0 <= i < j < |rs| ==> rs[i].score >= rs[j].score
  {
    hide Sort;
    SortSorts(SCORE_ORDER, all);
    var rs := Sort(SCORE_ORDER, all);
    forall i, j | 0 <= i < j < |rs|
      ensures rs[i].score >= rs[j].score
    {
      assert SCORE_ORDER(rs[i], rs[j]);
    }
  }

  lemma RouteKeepsTransform(reg: Registry, t: Transform, ctx: Context)
    ensures Route(reg, t, ctx).transform == t
  {
  }

  // ---------------------------------------------------------------- routeTransform

  method BestReason(rejected: seq<Entry>) returns (reason: Reason)
    ensures reason == BestOf(ACTIONABILITY, rejected)
  {
    for i := 0 to |ACTIONABILITY|
      invariant BestOf(ACTIONABILITY, rejected) == BestOf(ACTIONABILITY[i..], rejected)
    {
      if exists e :: e in rejected && e.reason == Some(ACTIONABILITY[i]) { return ACTIONABILITY[i]; }
      assert ACTIONABILITY[i..][1..] == ACTIONABILITY[i + 1..];
    }
    reason := NoEngine;
  }

  method RouteTransform(reg: Registry, t: Transform, ctx: Context) returns (r: Routed)
    ensures r == Route(reg, t, ctx)
  {
    hide EngineExclusion, EngineScore;
    var usable: seq<Entry>, rejected: seq<Entry> := [], [];
    var engines := EnginesFor(reg, t.engines);
    for i := 0 to |engines|
      invariant Split(usable, rejected) == SplitOf(reg, engines[..i], ctx)
    {
      assert engines[..i + 1][..i] == engines[..i];
      var found := FindProvider(reg.providers, engines[i].provider);
      if found.None? { continue; }
      var entry := EntryOf(engines[i], found.value, ctx);
      if entry.reason.None? { usable := usable + [entry]; } else { rejected := rejected + [entry]; }
    }
    assert engines[..|engines|] == engines;
    var chain := Sort(CHAIN_ORDER, usable);
    var best := FirstExecutable(chain);
    var reason: Option<Reason> := None;
    if best.None? {
      var why := BestReason(rejected);
      reason := Some(why);
    }
    r := Routed(t, chain, rejected, (if best.Some? then best.value.score else 0.0) * Weight(t.priority), reason);
  }
}
