/** The contextual menu: a few transforms, one per capability, best first. */
module Menu {
  import opened Options
  import opened Modes
  import opened Router
  import opened Samples
  import opened Sorting

  function Flag(b: bool): nat { if b then 1 else 0 }

  /** Not yet covered first, then usable, then by score. */
  predicate MenuOrder(covered: set<Capability>, a: Routed, b: Routed) {
    var ac, bc := Flag(a.transform.capability in covered), Flag(b.transform.capability in covered);
    if ac != bc then ac < bc
    else if Flag(a.reason.Some?) != Flag(b.reason.Some?) then a.reason.None?
    else a.score >= b.score
  }

  function OrderBy(covered: set<Capability>): (Routed, Routed) -> bool {
    (a, b) => MenuOrder(covered, a, b)
  }

  function Capabilities(rs: seq<Routed>): set<Capability> {
    set r | r in rs :: r.transform.capability
  }

  /** The picking loop over the first entries of the ranking. */
  function Picked(ranked: seq<Routed>, limit: int): seq<Routed> {
    if ranked == [] then []
    else
      var picked, r := Picked(ranked[..|ranked| - 1], limit), ranked[|ranked| - 1];
      if |picked| >= limit || r.transform.capability in Capabilities(picked) || r.transform.priority == DeprecatedPriority
      then picked else picked + [r]
  }

  function Ranked(reg: Registry, kind: Kind, ctx: Context, covered: set<Capability>): seq<Routed> {
    Sort(OrderBy(covered), RouteForInput(reg, kind, ctx))
  }

  lemma MenuOrderIsTotal(covered: set<Capability>)
    ensures TotalPreorder(OrderBy(covered))
  {
  }

  /** The picks in terms of ranking positions. */
  ghost predicate Selects(ranked: seq<Routed>, picked: seq<Routed>, at: seq<nat>) {
    && |at| == |picked|
    && (forall k :: 0 <= k < |at| ==> at[k] < |ranked| && ranked[at[k]] == picked[k])
    && (forall j, k :: 0 <= j < k < |at| ==> at[j] < at[k])
  }

  lemma {:induction false} PickedKeepsRanking(ranked: seq<Routed>, limit: int) returns (at: seq<nat>)
    ensures Selects(ranked, Picked(ranked, limit), at)
  {
    if ranked == [] {
      at := [];
    } else {
      var front, last := ranked[..|ranked| - 1], ranked[|ranked| - 1];
      at := PickedKeepsRanking(front, limit);
      var before, after := Picked(front, limit), Picked(ranked, limit);
      assert after == before || after == before + [last];
      hide Picked;
      SelectsSnoc(front, before, at, last);
      assert ranked == front + [last];
      if after != before {
        at := at + [|front|];
      }
    }
  }

  lemma SelectsSnoc(ranked: seq<Routed>, picked: seq<Routed>, at: seq<nat>, r: Routed)
    requires Selects(ranked, picked, at)
    ensures Selects(ranked + [r], picked, at) && Selects(ranked + [r], picked + [r], at + [|ranked|])
  {
  }

  lemma {:induction false} PickedIsLimited(ranked: seq<Routed>, limit: int)
    ensures |Picked(ranked, limit)| <= if limit < 0 then 0 else limit
    ensures forall r :: r in Picked(ranked, limit) ==> r in ranked && r.transform.priority != DeprecatedPriority
    ensures var p := Picked(ranked, limit);
      forall i, j :: 0 <= i < j < |p| ==> p[i].transform.capability != p[j].transform.capability
  {
    if ranked != [] {
      var front := ranked[..|ranked| - 1];
      PickedIsLimited(front, limit);
      assert ranked == front + [ranked[|ranked| - 1]];
      var p := Picked(front, limit);
      forall i | 0 <= i < |p|
        ensures p[i].transform.capability in Capabilities(p)
      {
        assert p[i] in p;
      }
    }
  }

  /** A menu with room left has something for every capability on offer. */
  lemma {:induction false} PickedIsComplete(ranked: seq<Routed>, limit: int, r: Routed)
    requires |Picked(ranked, limit)| < limit && r in ranked && r.transform.priority != DeprecatedPriority
    ensures r.transform.capability in Capabilities(Picked(ranked, limit))
    decreases |ranked|
  {
    var front, last := ranked[..|ranked| - 1], ranked[|ranked| - 1];
    var before, after := Picked(front, limit), Picked(ranked, limit);
    assert after == before || after == before + [last];
    if r in front {
      PickedIsComplete(front, limit, r);
      var q :| q in before && q.transform.capability == r.transform.capability;
      assert q in after;
    } else {
      assert r == last;
      if after != before { assert last in after; }
    }
  }

  function MenuOf(reg: Registry, kind: Kind, ctx: Context, covered: set<Capability>, limit: int): seq<Routed> {
    Picked(Ranked(reg, kind, ctx, covered), limit)
  }

  /** At most `limit` entries, one per capability, none deprecated, each really on offer. */
  lemma MenuIsSmall(reg: Registry, kind: Kind, ctx: Context, covered: set<Capability>, limit: int)
    ensures var m := MenuOf(reg, kind, ctx, covered, limit);
      && |m| <= (if limit < 0 then 0 else limit)
      && (forall i, j :: 0 <= i < j < |m| ==> m[i].transform.capability != m[j].transform.capability)
      && (forall r :: r in m ==> r.transform.priority != DeprecatedPriority)
      && (forall r :: r in m ==> r.transform in reg.transforms && kind in r.transform.inputs)
  {
    PickedIsLimited(Ranked(reg, kind, ctx, covered), limit);
    SortMembers(OrderBy(covered), RouteForInput(reg, kind, ctx));
    RoutedForInput(reg, kind, ctx);
    hide Picked, RouteForInput, Sort, Route;
  }

  predicate SameRank(covered: set<Capability>, a: Routed, b: Routed) {
    && (a.transform.capability in covered <==> b.transform.capability in covered)
    && (a.reason.Some? <==> b.reason.Some?)
  }

  /** The order of the menu. An entry that cannot run may precede one that can, and does so only when the
    * runnable one repeats a capability already covered and the other does not.
    */
  lemma MenuOrderMeaning(reg: Registry, kind: Kind, ctx: Context, covered: set<Capability>, limit: int, i: nat, j: nat)
    requires i < j < |MenuOf(reg, kind, ctx, covered, limit)|
    ensures var m := MenuOf(reg, kind, ctx, covered, limit); var a, b := m[i], m[j];
      && (a.transform.capability in covered ==> b.transform.capability in covered)
      && (a.reason.Some? && b.reason.None? ==> a.transform.capability !in covered && b.transform.capability in covered)
      && (SameRank(covered, a, b) ==> a.score >= b.score)
  {
    var ranked := Ranked(reg, kind, ctx, covered);
    MenuOrderIsTotal(covered);
    SortSorts(OrderBy(covered), RouteForInput(reg, kind, ctx));
    var at := PickedKeepsRanking(ranked, limit);
    hide Sort, RouteForInput, Picked;
    var m := MenuOf(reg, kind, ctx, covered, limit);
    assert OrderBy(covered)(ranked[at[i]], ranked[at[j]]);
    assert MenuOrder(covered, m[i], m[j]);
  }

  predicate Unusable(r: Routed) {
    r.reason.Some?
  }

  /** Of an unusable and a usable entry of a menu, the unusable one comes first exactly when its capability is not
    * covered and that of the usable one is.
    */
  lemma UnusablePrecedesExactlyWhen(reg: Registry, kind: Kind, ctx: Context, covered: set<Capability>, limit: int,
                                    i: nat, j: nat)
    requires var m := MenuOf(reg, kind, ctx, covered, limit); i < |m| && j < |m| && Unusable(m[i]) && !Unusable(m[j])
    ensures var m := MenuOf(reg, kind, ctx, covered, limit);
      i < j <==> m[i].transform.capability !in covered && m[j].transform.capability in covered
  {
    hide MenuOf;
    if i < j { MenuOrderMeaning(reg, kind, ctx, covered, limit, i, j); }
    if j < i { MenuOrderMeaning(reg, kind, ctx, covered, limit, j, i); }
  }

  /** Unusable entries all come after the usable ones. */
  ghost predicate UsableFirst(m: seq<Routed>) {
    forall i, j :: 0 <= i < |m| && 0 <= j < |m| && Unusable(m[i]) && !Unusable(m[j]) ==> j < i
  }

  /** The menu holds an uncovered entry that cannot run and a covered one that can. */
  ghost predicate CoverageSplits(m: seq<Routed>, covered: set<Capability>) {
    exists i, j :: 0 <= i < |m| && 0 <= j < |m| && Unusable(m[i]) && !Unusable(m[j])
                   && m[i].transform.capability !in covered && m[j].transform.capability in covered
  }

  /** A menu lists its usable entries first exactly unless coverage splits it. */
  lemma UsableFirstExactlyUnless(reg: Registry, kind: Kind, ctx: Context, covered: set<Capability>, limit: int)
    ensures var m := MenuOf(reg, kind, ctx, covered, limit); UsableFirst(m) <==> !CoverageSplits(m, covered)
  {
    var m := MenuOf(reg, kind, ctx, covered, limit);
    forall i: nat, j: nat | i < |m| && j < |m| && Unusable(m[i]) && !Unusable(m[j])
      ensures i < j <==> m[i].transform.capability !in covered && m[j].transform.capability in covered
      ensures i != j
    {
      UnusablePrecedesExactlyWhen(reg, kind, ctx, covered, limit, i, j);
    }
    hide MenuOf, Unusable;
  }

  // A registry whose menu is split: one transform whose engine needs an account, and one that runs locally and is covered.

  function Whois(): Transform {
    Transform("domain-to-owner", "whois", ["domain"], ["organization"], ["registrar", "browser"], Core, 1000, 10)
  }

  function Dns(): Transform {
    Transform("domain-to-ip", "dns", ["domain"], ["ip"], ["resolver", "browser"], Core, 1000, 10)
  }

  function SplitRegistry(): Registry {
    Registry([Whois(), Dns()], [Local("resolver", "dns"), Registrar(), LinkOut()], Providers())
  }

  lemma EnginesFound()
    ensures var engines := SplitRegistry().engines;
      && FindEngine(engines, "resolver") == Some(Local("resolver", "dns"))
      && FindEngine(engines, "registrar") == Some(Registrar())
      && FindEngine(engines, "browser") == Some(LinkOut())
  {
    var es := SplitRegistry().engines;
    assert |"resolver"| == 8 && |"registrar"| == 9 && |"browser"| == 7;
    assert es[..2] == [Local("resolver", "dns"), Registrar()] && es[..2][..1] == [Local("resolver", "dns")];
  }

  /** The registry is one that its own check accepts. */
  lemma SplitRegistryValidates()
    ensures Validates(SplitRegistry())
  {
    hide FindEngine, FindProvider, EnginesFor, HasTerminal, Serves;
    var reg := SplitRegistry();
    EnginesFound();
    ProvidersFound();
    ServedAndEnded();
    assert |Whois().id| != |Dns().id|;
  }

  lemma ServedAndEnded()
    ensures var reg := SplitRegistry();
      && HasTerminal(reg, Whois()) && HasTerminal(reg, Dns())
      && Serves(Local("resolver", "dns"), Dns()) && Serves(Registrar(), Whois()) && Serves(LinkOut(), Dns()) && Serves(LinkOut(), Whois())
  {
    hide FindEngine, EnginesFor;
    var reg := SplitRegistry();
    EnginesFound();
    EnginesForMembers(reg, Whois().engines, LinkOut());
    EnginesForMembers(reg, Dns().engines, LinkOut());
    assert Whois().engines[1] == "browser" && Dns().engines[1] == "browser";
  }

  /** Of the engines of the one transform only the link out is left. */
  lemma WhoisChain(e: Entry)
    requires e in Route(SplitRegistry(), Whois(), FreshContext()).chain
    ensures e.engine.terminal
  {
    hide Route, FindEngine, FindProvider, EngineExclusion, EngineScore, EnginesFor;
    var reg, ctx := SplitRegistry(), FreshContext();
    EnginesFound();
    ProvidersFound();
    RegistrarIsNot();
    ChainMembers(reg, Whois(), ctx, e);
    var g :| g in EnginesFor(reg, Whois().engines) && Yields(reg, g, ctx, e);
    EnginesForMembers(reg, Whois().engines, g);
    assert g == Registrar() || g == LinkOut();
  }

  lemma WhoisCannotRun()
    ensures Unusable(Route(SplitRegistry(), Whois(), FreshContext()))
  {
    hide Route;
    ReasonIsMostActionable(SplitRegistry(), Whois(), FreshContext());
    forall e | e in Route(SplitRegistry(), Whois(), FreshContext()).chain
      ensures e.engine.terminal
    {
      WhoisChain(e);
    }
  }

  lemma DnsCanRun()
    ensures !Unusable(Route(SplitRegistry(), Dns(), FreshContext()))
  {
    hide Route, FindEngine, FindProvider, EngineExclusion;
    EnginesFound();
    ProvidersFound();
    LocalIsUsable("resolver", "dns");
    assert Dns().engines[0] == "resolver";
    OneEngineIsEnough(SplitRegistry(), Dns(), FreshContext(), "resolver", Local("resolver", "dns"), Host());
  }

  /** What is on a menu was routed for the input. */
  lemma MenuIsRouted(reg: Registry, kind: Kind, ctx: Context, covered: set<Capability>, limit: int, r: Routed)
    requires r in MenuOf(reg, kind, ctx, covered, limit)
    ensures r.transform in reg.transforms && r == Route(reg, r.transform, ctx)
  {
    PickedIsLimited(Ranked(reg, kind, ctx, covered), limit);
    SortMembers(OrderBy(covered), RouteForInput(reg, kind, ctx));
    RoutedForInput(reg, kind, ctx);
    hide Picked, RouteForInput, Sort, Route;
  }

  /** With room on the menu, a transform that is alone with its capability is on it. */
  lemma AloneIsListed(reg: Registry, kind: Kind, ctx: Context, covered: set<Capability>, limit: int, t: Transform)
    returns (i: nat)
    requires t in reg.transforms && kind in t.inputs && t.priority != DeprecatedPriority
    requires forall u :: u in reg.transforms && u.capability == t.capability ==> u == t
    requires |MenuOf(reg, kind, ctx, covered, limit)| < limit
    ensures i < |MenuOf(reg, kind, ctx, covered, limit)| && MenuOf(reg, kind, ctx, covered, limit)[i] == Route(reg, t, ctx)
  {
    var ranked, r := Ranked(reg, kind, ctx, covered), Route(reg, t, ctx);
    RoutedForInput(reg, kind, ctx);
    RouteKeepsTransform(reg, t, ctx);
    SortMembers(OrderBy(covered), RouteForInput(reg, kind, ctx));
    hide RouteForInput, Sort, Route;
    assert r in ranked;
    PickedIsComplete(ranked, limit, r);
    var m := MenuOf(reg, kind, ctx, covered, limit);
    var q :| q in m && q.transform.capability == t.capability;
    MenuIsRouted(reg, kind, ctx, covered, limit, q);
    i :| 0 <= i < |m| && m[i] == q;
  }

  lemma SomeCapabilityRepeats(m: seq<Routed>)
    requires |m| > 2 && forall r :: r in m ==> r.transform in SplitRegistry().transforms
    ensures exists i, j :: 0 <= i < j < |m| && m[i].transform.capability == m[j].transform.capability
  {
    assert m[0] in m && m[1] in m && m[2] in m;
    var a, b, c := m[0].transform.capability, m[1].transform.capability, m[2].transform.capability;
    assert a == b || a == c || b == c;
  }

  lemma FewCapabilities(m: seq<Routed>, reg: Registry)
    requires reg == SplitRegistry() && forall r :: r in m ==> r.transform in reg.transforms
    requires forall i, j :: 0 <= i < j < |m| ==> m[i].transform.capability != m[j].transform.capability
    ensures |m| <= 2
  {
    if |m| > 2 { SomeCapabilityRepeats(m); }
  }

  /** So unusable entries do not always come after the usable ones: on this registry, with its DNS already covered, the
    * menu opens with the transform that cannot run.
    */
  lemma UnusableMayComeFirst()
    ensures var m := MenuOf(SplitRegistry(), "domain", FreshContext(), {"dns"}, 7);
      && Validates(SplitRegistry()) && CoverageSplits(m, {"dns"}) && !UsableFirst(m)
      && m == [Route(SplitRegistry(), Whois(), FreshContext()), Route(SplitRegistry(), Dns(), FreshContext())]
  {
    var m := MenuOf(SplitRegistry(), "domain", FreshContext(), {"dns"}, 7);
    hide *;
    SplitRegistryValidates();
    var i, j := BothAreListed();
    SplitMenu(m, i, j);
  }

  lemma BothAreListed() returns (i: nat, j: nat)
    ensures var reg, ctx := SplitRegistry(), FreshContext(); var m := MenuOf(reg, "domain", ctx, {"dns"}, 7);
      && |m| <= 2 && i < j < |m| && m[i] == Route(reg, Whois(), ctx) && m[j] == Route(reg, Dns(), ctx)
  {
    var reg, ctx := SplitRegistry(), FreshContext();
    var m := MenuOf(reg, "domain", ctx, {"dns"}, 7);
    MenuIsSmall(reg, "domain", ctx, {"dns"}, 7);
    hide Route, MenuOf;
    FewCapabilities(m, reg);
    WhoisCannotRun();
    DnsCanRun();
    hide Unusable;
    RouteKeepsTransform(reg, Whois(), ctx);
    RouteKeepsTransform(reg, Dns(), ctx);
    assert reg.transforms[0] == Whois() && reg.transforms[1] == Dns();
    assert "whois" != "dns" by { assert |"whois"| != |"dns"|; }
    i := AloneIsListed(reg, "domain", ctx, {"dns"}, 7, Whois());
    j := AloneIsListed(reg, "domain", ctx, {"dns"}, 7, Dns());
    UnusablePrecedesExactlyWhen(reg, "domain", ctx, {"dns"}, 7, i, j);
  }

  lemma SplitMenu(m: seq<Routed>, i: nat, j: nat)
    requires |m| <= 2 && i < j < |m|
    requires m[i] == Route(SplitRegistry(), Whois(), FreshContext()) && m[j] == Route(SplitRegistry(), Dns(), FreshContext())
    ensures CoverageSplits(m, {"dns"}) && !UsableFirst(m) && m == [m[i], m[j]]
  {
    WhoisCannotRun();
    DnsCanRun();
    RouteKeepsTransform(SplitRegistry(), Whois(), FreshContext());
    RouteKeepsTransform(SplitRegistry(), Dns(), FreshContext());
    hide Route, Unusable;
    assert "whois" != "dns" by { assert |"whois"| != |"dns"|; }
    assert m[i].transform.capability !in {"dns"} && m[j].transform.capability in {"dns"};
  }

  /** `actionsFor`. */
  method ActionsFor(reg: Registry, kind: Kind, ctx: Context, covered: set<Capability>, limit: int) returns (menu: seq<Routed>)
    ensures menu == MenuOf(reg, kind, ctx, covered, limit)
  {
    var ranked := Ranked(reg, kind, ctx, covered);
    hide Ranked;
    var seen: set<Capability> := {};
    menu := [];
    for i := 0 to |ranked|
      invariant menu == Picked(ranked[..i], limit) && seen == Capabilities(menu)
    {
      assert ranked[..i + 1][..i] == ranked[..i];
      if |menu| >= limit {
        PickingStops(ranked, i, limit);
        return;
      }
      if ranked[i].transform.capability in seen { continue; }
      if ranked[i].transform.priority == DeprecatedPriority { continue; }
      seen := seen + {ranked[i].transform.capability};
      assert Capabilities(menu + [ranked[i]]) == Capabilities(menu) + {ranked[i].transform.capability} by {
        assert forall r :: r in menu + [ranked[i]] <==> r in menu || r == ranked[i];
      }
      menu := menu + [ranked[i]];
    }
    assert ranked[..|ranked|] == ranked;
  }

  lemma {:induction false} PickingStops(ranked: seq<Routed>, i: nat, limit: int)
    requires i <= |ranked| && |Picked(ranked[..i], limit)| >= limit
    ensures Picked(ranked, limit) == Picked(ranked[..i], limit)
    decreases |ranked|
  {
    if i < |ranked| {
      assert ranked[..|ranked| - 1][..i] == ranked[..i];
      PickingStops(ranked[..|ranked| - 1], i, limit);
    } else {
      assert ranked[..i] == ranked;
    }
  }
}
