/** The per-run request budget of the egress proxy: a token bucket refilled by the clock, and a count of
  * redirects, for every registered run.
  */
module EgressBucket {
  import opened Options

  datatype Bucket = Bucket(tokens: real, updatedAt: int)

  /** `policies` holds each run's requests per minute. */
  datatype Store = Store(policies: map<string, nat>, buckets: map<string, Bucket>, redirects: map<string, nat>)

  datatype Event =
    | Register(runId: string, max: nat, now: int)
    | Revoke(runId: string)
    | Take(runId: string, now: int)
    | Redirect(runId: string)

  const MINUTE_MS: real := 60000.0
  const MAX_REDIRECT_HOPS: nat := 20

  function Ceil(x: real): int {
    -(-x).Floor
  }

  /** A fifth of the minute, and at least one request. */
  function Burst(max: nat): nat {
    if Ceil(max as real * 0.2) <= 1 then 1 else Ceil(max as real * 0.2)
  }

  function Cap(max: nat): real {
    (max + Burst(max)) as real
  }

  /** What `ms` milliseconds are worth at `max` requests a minute. */
  function Worth(max: nat, ms: int): real {
    ms as real / MINUTE_MS * max as real
  }

  /** The bucket just before a request at `now` is decided. */
  function Refilled(max: nat, b: Bucket, now: int): Bucket {
    var elapsed := if now <= b.updatedAt then 0 else now - b.updatedAt;
    var tokens := b.tokens + Worth(max, elapsed);
    Bucket(if tokens <= Cap(max) then tokens else Cap(max), now)
  }

  function Spent(max: nat, b: Bucket, now: int): Bucket {
    var full := Refilled(max, b, now);
    if full.tokens < 1.0 then full else full.(tokens := full.tokens - 1.0)
  }

  function Grants(max: nat, b: Bucket, now: int): bool {
    Refilled(max, b, now).tokens >= 1.0
  }

  // ---------------------------------------------------------------- the store

  function Apply(s: Store, e: Event): Store {
    match e
    case Register(runId, max, now) =>
      Store(s.policies[runId := max], s.buckets[runId := Bucket(max as real, now)], s.redirects[runId := 0])
    case Revoke(runId) => Store(s.policies - {runId}, s.buckets - {runId}, s.redirects - {runId})
    case Take(runId, now) =>
      if runId in s.policies && runId in s.buckets then
        s.(buckets := s.buckets[runId := Spent(s.policies[runId], s.buckets[runId], now)])
      else s
    case Redirect(runId) => s.(redirects := s.redirects[runId := Seen(s, runId) + 1])
  }

  function Seen(s: Store, runId: string): nat {
    if runId in s.redirects then s.redirects[runId] else 0
  }

  /** What the call returns; registering and revoking return nothing. */
  function Answer(s: Store, e: Event): bool {
    match e
    case Take(runId, now) =>
      runId in s.policies && runId in s.buckets && Grants(s.policies[runId], s.buckets[runId], now)
    case Redirect(runId) => Seen(s, runId) + 1 <= MAX_REDIRECT_HOPS
    case _ => false
  }

  class EgressPolicyStore {
    var policies: map<string, nat>
    var buckets: map<string, Bucket>
    var redirects: map<string, nat>

    function State(): Store
      reads this
    {
      Store(policies, buckets, redirects)
    }

    constructor ()
      ensures State() == Store(map[], map[], map[])
    {
      policies, buckets, redirects := map[], map[], map[];
    }

    method Register(runId: string, max: nat, now: int)
      modifies this
      ensures State() == Apply(old(State()), Event.Register(runId, max, now))
    {
      policies := policies[runId := max];
      buckets := buckets[runId := Bucket(max as real, now)];
      redirects := redirects[runId := 0];
    }

    method Revoke(runId: string)
      modifies this
      ensures State() == Apply(old(State()), Event.Revoke(runId))
    {
      policies := policies - {runId};
      buckets := buckets - {runId};
      redirects := redirects - {runId};
    }

    method CountRedirect(runId: string) returns (ok: bool)
      modifies this
      ensures State() == Apply(old(State()), Redirect(runId))
      ensures ok == Answer(old(State()), Redirect(runId))
    {
      var seen := (if runId in redirects then redirects[runId] else 0) + 1;
      redirects := redirects[runId := seen];
      ok := seen <= MAX_REDIRECT_HOPS;
    }

    method Take(runId: string, now: int) returns (ok: bool)
      modifies this
      ensures State() == Apply(old(State()), Event.Take(runId, now))
      ensures ok == Answer(old(State()), Event.Take(runId, now))
    {
      if runId !in policies || runId !in buckets { return false; }
      var max, bucket := policies[runId], buckets[runId];
      var refill := Worth(max, if now - bucket.updatedAt <= 0 then 0 else now - bucket.updatedAt);
      var tokens := if Cap(max) <= bucket.tokens + refill then Cap(max) else bucket.tokens + refill;
      if tokens < 1.0 {
        buckets := buckets[runId := Bucket(tokens, now)];
        return false;
      }
      buckets := buckets[runId := Bucket(tokens - 1.0, now)];
      return true;
    }
  }

  // ---------------------------------------------------------------- whole runs of the store

  function After(s: Store, events: seq<Event>): Store {
    if events == [] then s else Apply(After(s, events[..|events| - 1]), events[|events| - 1])
  }

  /** How many calls of this kind about `runId` were answered with true. */
  function Granted(s: Store, events: seq<Event>, runId: string): nat {
    if events == [] then 0
    else
      var front, e := events[..|events| - 1], events[|events| - 1];
      Granted(s, front, runId) + if e.Take? && e.runId == runId && Answer(After(s, front), e) then 1 else 0
  }

  function Hops(events: seq<Event>, runId: string): nat {
    if events == [] then 0
    else
      Hops(events[..|events| - 1], runId) +
      if events[|events| - 1].Redirect? && events[|events| - 1].runId == runId then 1 else 0
  }

  /** Tokens never leave the bucket, and every run with a policy has a bucket and a redirect count. */
  ghost predicate Sound(s: Store) {
    && s.policies.Keys == s.buckets.Keys
    && s.policies.Keys <= s.redirects.Keys
    && forall r :: r in s.policies ==> 0.0 <= s.buckets[r].tokens <= Cap(s.policies[r])
  }

  lemma WorthIsPositive(max: nat, ms: nat)
    ensures Worth(max, ms) >= 0.0
  {
  }

  lemma SpentStaysInside(max: nat, b: Bucket, now: int)
    requires b.tokens >= 0.0
    ensures 0.0 <= Spent(max, b, now).tokens <= Cap(max)
  {
    WorthIsPositive(max, if now <= b.updatedAt then 0 else now - b.updatedAt);
    hide Worth, Burst;
  }

  lemma ApplyKeepsSound(s: Store, e: Event)
    requires Sound(s)
    ensures Sound(Apply(s, e))
  {
    if e.Take? && e.runId in s.policies { SpentStaysInside(s.policies[e.runId], s.buckets[e.runId], e.now); }
    hide Spent, Burst;
  }

  /** In every state the store can reach, with any clock, tokens lie between zero and the minute plus the burst. */
  lemma {:induction false} TokensStayInside(events: seq<Event>)
    ensures Sound(After(Store(map[], map[], map[]), events))
  {
    if events != [] {
      TokensStayInside(events[..|events| - 1]);
      ApplyKeepsSound(After(Store(map[], map[], map[]), events[..|events| - 1]), events[|events| - 1]);
      hide Apply, Sound;
    }
  }

  // ---------------------------------------------------------------- runs do not affect each other

  /** The events about one run, in order. */
  function Only(events: seq<Event>, runId: string): seq<Event> {
    if events == [] then []
    else
      Only(events[..|events| - 1], runId) +
      if events[|events| - 1].runId == runId then [events[|events| - 1]] else []
  }

  /** Two stores hold the same things about a run. */
  ghost predicate SameFor(a: Store, b: Store, r: string) {
    && (r in a.policies <==> r in b.policies) && (r in a.policies ==> a.policies[r] == b.policies[r])
    && (r in a.buckets <==> r in b.buckets) && (r in a.buckets ==> a.buckets[r] == b.buckets[r])
    && (r in a.redirects <==> r in b.redirects) && (r in a.redirects ==> a.redirects[r] == b.redirects[r])
  }

  lemma ApplyIsLocal(a: Store, b: Store, e: Event, r: string)
    requires SameFor(a, b, r)
    ensures e.runId == r ==> SameFor(Apply(a, e), Apply(b, e), r) && Answer(a, e) == Answer(b, e)
    ensures e.runId != r ==> SameFor(Apply(a, e), b, r)
  {
    hide Spent, Grants;
  }

  /** However the calls about different runs interleave, a run is granted what it would be granted alone. */
  lemma {:induction false} RunsAreIndependent(s: Store, events: seq<Event>, r: string)
    ensures SameFor(After(s, events), After(s, Only(events, r)), r)
    ensures Granted(s, events, r) == Granted(s, Only(events, r), r)
  {
    if events != [] {
      var front, e := events[..|events| - 1], events[|events| - 1];
      RunsAreIndependent(s, front, r);
      ApplyIsLocal(After(s, front), After(s, Only(front, r)), e, r);
      assert events == front + [e];
      OneMoreEvent(s, front, e, r);
      OneMoreEvent(s, Only(front, r), e, r);
      assert Only(events, r) == if e.runId == r then Only(front, r) + [e] else Only(front, r);
      hide Answer, SameFor, Apply, Only, After, Granted;
    }
  }

  lemma OneMoreEvent(s: Store, front: seq<Event>, e: Event, r: string)
    ensures After(s, front + [e]) == Apply(After(s, front), e)
    ensures Granted(s, front + [e], r) ==
      Granted(s, front, r) + if e.Take? && e.runId == r && Answer(After(s, front), e) then 1 else 0
  {
    assert (front + [e])[..|front|] == front;
    hide Apply, Answer;
  }

  // ---------------------------------------------------------------- how much is granted

  /** No event registers or revokes this run. */
  ghost predicate Undisturbed(events: seq<Event>, r: string) {
    forall e :: e in events && e.runId == r ==> e.Take? || e.Redirect?
  }

  ghost predicate Asks(e: Event, r: string) {
    e.Take? && e.runId == r
  }

  /** Requests of this run fall between `from` and `until`, with a clock that never goes back. */
  ghost predicate Clocked(events: seq<Event>, r: string, from: int, until: int) {
    && from <= until
    && (forall i :: 0 <= i < |events| && Asks(events[i], r) ==> from <= events[i].now <= until)
    && (forall i, j :: 0 <= i < j < |events| && Asks(events[i], r) && Asks(events[j], r) ==> events[i].now <= events[j].now)
  }

  lemma WorthAdds(max: nat, a: int, b: int)
    ensures Worth(max, a) + Worth(max, b) == Worth(max, a + b)
  {
    var m := max as real;
    assert (a + b) as real == a as real + b as real;
    assert (a as real / MINUTE_MS + b as real / MINUTE_MS) * m == a as real / MINUTE_MS * m + b as real / MINUTE_MS * m;
  }

  lemma WorthGrows(max: nat, a: int, b: int)
    requires a <= b
    ensures Worth(max, a) <= Worth(max, b)
  {
    WorthAdds(max, a, b - a);
    WorthIsPositive(max, b - a);
  }

  /** A grant is paid for: by what was in the bucket, or by the time since its last update. */
  lemma GrantIsPaid(max: nat, b: Bucket, now: int)
    ensures b.updatedAt <= now ==>
      Spent(max, b, now).tokens + (if Grants(max, b, now) then 1.0 else 0.0) <= b.tokens + Worth(max, now - b.updatedAt)
    ensures Spent(max, b, now).tokens + (if Grants(max, b, now) then 1.0 else 0.0) <= Cap(max)
  {
    hide Worth, Cap;
    assert Worth(max, 0) == 0.0 by { WorthAdds(max, 0, 0); }
  }

  /** The account after some requests: `credit` at time `start`, and the time since. */
  ghost predicate WithinBudget(s: Store, events: seq<Event>, r: string, max: nat, credit: real, start: int) {
    var s' := After(s, events);
    && r in s'.policies && r in s'.buckets && s'.policies[r] == max
    && start <= s'.buckets[r].updatedAt
    && 0.0 <= s'.buckets[r].tokens
    && s'.buckets[r].tokens + Granted(s, events, r) as real <= credit + Worth(max, s'.buckets[r].updatedAt - start)
  }

  lemma BudgetStep(s: Store, front: seq<Event>, e: Event, r: string, max: nat, credit: real, start: int)
    requires WithinBudget(s, front, r, max, credit, start)
    requires e.runId == r ==> e.Take? || e.Redirect?
    requires Asks(e, r) ==> After(s, front).buckets[r].updatedAt <= e.now
    ensures WithinBudget(s, front + [e], r, max, credit, start)
  {
    OneMoreEvent(s, front, e, r);
    hide Worth, Cap, Spent, Grants, After, Granted, Burst;
    if Asks(e, r) {
      RequestIsPaid(max, After(s, front).buckets[r], e.now, Granted(s, front, r), credit, start);
    }
  }

  lemma RequestIsPaid(max: nat, b: Bucket, now: int, granted: nat, credit: real, start: int)
    requires 0.0 <= b.tokens && start <= b.updatedAt <= now
    requires b.tokens + granted as real <= credit + Worth(max, b.updatedAt - start)
    ensures 0.0 <= Spent(max, b, now).tokens && Spent(max, b, now).updatedAt == now
    ensures Spent(max, b, now).tokens + (granted + if Grants(max, b, now) then 1 else 0) as real
            <= credit + Worth(max, now - start)
  {
    GrantIsPaid(max, b, now);
    SpentStaysInside(max, b, now);
    WorthAdds(max, b.updatedAt - start, now - b.updatedAt);
    assert Spent(max, b, now).updatedAt == now;
    hide Worth, Cap, Grants, Spent, Burst;
  }

  lemma {:induction false} BudgetHolds(s: Store, events: seq<Event>, r: string, credit: real, start: int, until: int)
    requires r in s.policies && r in s.buckets && s.buckets[r].updatedAt == start && 0.0 <= s.buckets[r].tokens <= credit
    requires Undisturbed(events, r) && Clocked(events, r, start, until)
    ensures WithinBudget(s, events, r, s.policies[r], credit, start)
    ensures After(s, events).buckets[r].updatedAt <= until
    ensures forall i :: 0 <= i < |events| && Asks(events[i], r) ==> events[i].now <= After(s, events).buckets[r].updatedAt
    ensures After(s, events).buckets[r].updatedAt == start
            || exists i :: 0 <= i < |events| && Asks(events[i], r) && events[i].now == After(s, events).buckets[r].updatedAt
  {
    var max := s.policies[r];
    if events == [] {
      assert Worth(max, 0) == 0.0 by { WorthAdds(max, 0, 0); }
    } else {
      var front, e := events[..|events| - 1], events[|events| - 1];
      assert events == front + [e];
      BudgetHolds(s, front, r, credit, start, until);
      assert e in events;
      BudgetStep(s, front, e, r, max, credit, start);
      LastUpdate(s, front, e, r);
      hide WithinBudget, Undisturbed, After;
    }
  }

  /** A request moves the time of the last update, and nothing else about another run or a redirect does. */
  lemma LastUpdate(s: Store, front: seq<Event>, e: Event, r: string)
    requires r in After(s, front).policies && r in After(s, front).buckets
    requires e.runId == r ==> e.Take? || e.Redirect?
    ensures r in After(s, front + [e]).buckets
    ensures After(s, front + [e]).buckets[r].updatedAt == if Asks(e, r) then e.now else After(s, front).buckets[r].updatedAt
  {
    assert (front + [e])[..|front|] == front;
  }

  /** From registration on, a run is granted at most its minute, plus the minute's share of the time passed. */
  lemma GrantsSinceRegistration(s0: Store, r: string, max: nat, start: int, events: seq<Event>, until: int)
    requires Undisturbed(events, r) && Clocked(events, r, start, until)
    ensures Granted(Apply(s0, Register(r, max, start)), events, r) as real <= max as real + Worth(max, until - start)
  {
    WindowAfterRequest(Apply(s0, Register(r, max, start)), r, events, start, until);
  }

  lemma {:induction false} GrantedConcat(s: Store, a: seq<Event>, b: seq<Event>, r: string)
    ensures After(s, a + b) == After(After(s, a), b)
    ensures Granted(s, a + b, r) == Granted(s, a, r) + Granted(After(s, a), b, r)
  {
    hide Apply, Answer;
    if b == [] {
      assert a + b == a;
    } else {
      GrantedConcat(s, a, b[..|b| - 1], r);
      assert (a + b)[..|a + b| - 1] == a + b[..|b| - 1];
    }
  }

  /** Before the first request nothing is granted and the bucket stays as it is. */
  lemma {:induction false} QuietPrefix(s: Store, events: seq<Event>, r: string)
    requires r in s.policies && r in s.buckets && Undisturbed(events, r)
    requires forall e :: e in events ==> !Asks(e, r)
    ensures Granted(s, events, r) == 0
    ensures var s' := After(s, events);
      r in s'.policies && r in s'.buckets && s'.policies[r] == s.policies[r] && s'.buckets[r] == s.buckets[r]
  {
    if events != [] {
      var front, e := events[..|events| - 1], events[|events| - 1];
      assert e in events && forall f :: f in front ==> f in events;
      QuietPrefix(s, front, r);
      hide Spent, Undisturbed;
    }
  }

  lemma {:induction false} FirstRequest(events: seq<Event>, r: string) returns (k: nat)
    ensures k <= |events| && (forall e :: e in events[..k] ==> !Asks(e, r))
    ensures k < |events| ==> Asks(events[k], r)
  {
    if events == [] || Asks(events[0], r) {
      k := 0;
    } else {
      k := FirstRequest(events[1..], r);
      k := k + 1;
      assert events[..k] == [events[0]] + events[1..][..k - 1];
    }
  }

  lemma ClockedFrom(events: seq<Event>, k: nat, r: string, from: int, until: int)
    requires Clocked(events, r, from, until) && k < |events| && Asks(events[k], r)
    ensures Clocked(events[k + 1..], r, events[k].now, until) && from <= events[k].now
  {
    var later := events[k + 1..];
    assert forall i :: 0 <= i < |later| ==> later[i] == events[k + 1 + i];
  }

  /** In any stretch of time, from any reachable state, a run is granted at most its minute and its burst, plus the
    * minute's share of the length of the stretch.
    */
  lemma GrantsInAnyWindow(s: Store, r: string, events: seq<Event>, from: int, until: int)
    requires Sound(s) && r in s.policies && Undisturbed(events, r) && Clocked(events, r, from, until)
    ensures Granted(s, events, r) as real <= Cap(s.policies[r]) + Worth(s.policies[r], until - from)
  {
    hide *;
    var max := s.policies[r];
    var k := FirstRequest(events, r);
    if k < |events| {
      ClockedFrom(events, k, r, from, until);
      WorthGrows(max, until - events[k].now, until - from);
      assert events == events[..k] + ([events[k]] + events[k + 1..]);
      StillUndisturbed(events, k, r);
      WindowAfterQuiet(s, r, events[..k], events[k], events[k + 1..], until);
    } else {
      assert events[..k] == events;
      QuietWindow(s, r, events, from, until);
    }
  }

  lemma QuietWindow(s: Store, r: string, events: seq<Event>, from: int, until: int)
    requires Sound(s) && r in s.policies && Undisturbed(events, r) && Clocked(events, r, from, until)
    requires forall e :: e in events ==> !Asks(e, r)
    ensures Granted(s, events, r) as real <= Cap(s.policies[r]) + Worth(s.policies[r], until - from)
  {
    QuietPrefix(s, events, r);
    WorthIsPositive(s.policies[r], until - from);
    hide Worth, Granted;
  }

  lemma StillUndisturbed(events: seq<Event>, k: nat, r: string)
    requires Undisturbed(events, r) && k < |events|
    ensures Undisturbed(events[..k], r) && Undisturbed(events[k + 1..], r)
  {
  }

  lemma WindowAfterQuiet(s: Store, r: string, quiet: seq<Event>, first: Event, later: seq<Event>, until: int)
    requires Sound(s) && r in s.policies && Undisturbed(quiet, r) && forall e :: e in quiet ==> !Asks(e, r)
    requires Asks(first, r) && Undisturbed(later, r) && Clocked(later, r, first.now, until)
    ensures Granted(s, quiet + ([first] + later), r) as real <= Cap(s.policies[r]) + Worth(s.policies[r], until - first.now)
  {
    QuietPrefix(s, quiet, r);
    WindowFromRequest(After(s, quiet), r, first, later, until);
    GrantedConcat(s, quiet, [first] + later, r);
    hide After, Granted, Worth, Cap, Undisturbed, Clocked, Asks;
  }

  lemma WindowFromRequest(s: Store, r: string, first: Event, later: seq<Event>, until: int)
    requires r in s.policies && r in s.buckets && 0.0 <= s.buckets[r].tokens
    requires Asks(first, r) && Undisturbed(later, r) && Clocked(later, r, first.now, until)
    ensures Granted(s, [first] + later, r) as real <= Cap(s.policies[r]) + Worth(s.policies[r], until - first.now)
  {
    var max, b := s.policies[r], s.buckets[r];
    var s1 := Apply(s, first);
    GrantIsPaid(max, b, first.now);
    SpentStaysInside(max, b, first.now);
    assert s1.policies == s.policies && s1.buckets[r] == Spent(max, b, first.now);
    var one := if Grants(max, b, first.now) then 1 else 0;
    FirstAlone(s, r, first);
    GrantedConcat(s, [first], later, r);
    hide Spent, Grants, Apply, Answer, Granted, After, Worth, Cap;
    assert until >= first.now;
    WindowAfterRequest(s1, r, later, first.now, until);
  }

  lemma FirstAlone(s: Store, r: string, first: Event)
    requires r in s.policies && r in s.buckets && Asks(first, r)
    ensures After(s, [first]) == Apply(s, first)
    ensures Granted(s, [first], r) == if Grants(s.policies[r], s.buckets[r], first.now) then 1 else 0
  {
    assert [first][..0] == [];
    hide Grants, Spent;
  }

  lemma WindowAfterRequest(s: Store, r: string, later: seq<Event>, from: int, until: int)
    requires r in s.policies && r in s.buckets && 0.0 <= s.buckets[r].tokens && s.buckets[r].updatedAt == from
    requires Undisturbed(later, r) && Clocked(later, r, from, until)
    ensures Granted(s, later, r) as real <= s.buckets[r].tokens + Worth(s.policies[r], until - from)
  {
    BudgetHolds(s, later, r, s.buckets[r].tokens, from, until);
    WorthGrows(s.policies[r], After(s, later).buckets[r].updatedAt - from, until - from);
    hide Worth, Undisturbed, Clocked, After, Granted;
  }

  // ---------------------------------------------------------------- what is never refused

  /** A request that comes its share of the minute after the last one is granted. */
  lemma PacedRequestIsGranted(max: nat, b: Bucket, now: int)
    requires max > 0 && b.tokens >= 0.0 && b.updatedAt <= now && (now - b.updatedAt) as real * max as real >= MINUTE_MS
    ensures Grants(max, b, now)
  {
    var ms, m := (now - b.updatedAt) as real, max as real;
    assert ms / MINUTE_MS * m == ms * m / MINUTE_MS;
    assert Burst(max) >= 1;
    hide Burst;
  }

  /** How many requests a run has made. */
  function Requests(events: seq<Event>, runId: string): nat {
    if events == [] then 0
    else
      Requests(events[..|events| - 1], runId) +
      if events[|events| - 1].Take? && events[|events| - 1].runId == runId then 1 else 0
  }

  /** At least a request's share of the minute lies between the two times. */
  predicate Apart(max: nat, before: int, now: int) {
    before <= now && (now - before) as real * max as real >= MINUTE_MS
  }

  /** Every request of this run comes its share of the minute after `from`, and after every earlier request. */
  ghost predicate Paced(events: seq<Event>, r: string, max: nat, from: int) {
    && Undisturbed(events, r)
    && (forall i :: 0 <= i < |events| && Asks(events[i], r) ==> Apart(max, from, events[i].now))
    && (forall i, j :: 0 <= i < j < |events| && Asks(events[i], r) && Asks(events[j], r) ==>
          Apart(max, events[i].now, events[j].now))
  }

  /** The last update of a bucket was at the start or at a request. */
  ghost predicate UpdatedAt(events: seq<Event>, r: string, from: int, at: int) {
    at == from || exists i :: 0 <= i < |events| && Asks(events[i], r) && events[i].now == at
  }

  lemma UpdatedLater(front: seq<Event>, e: Event, r: string, from: int, at: int)
    requires UpdatedAt(front, r, from, at)
    ensures UpdatedAt(front + [e], r, from, at)
    ensures Asks(e, r) ==> UpdatedAt(front + [e], r, from, e.now)
  {
    if at != from {
      var i :| 0 <= i < |front| && Asks(front[i], r) && front[i].now == at;
      assert (front + [e])[i] == front[i];
    }
    assert (front + [e])[|front|] == e;
  }

  lemma PacedAtLast(front: seq<Event>, e: Event, r: string, max: nat, from: int, at: int)
    requires Paced(front + [e], r, max, from) && Asks(e, r) && UpdatedAt(front, r, from, at)
    ensures Apart(max, at, e.now)
  {
    var all := front + [e];
    assert all[|front|] == e;
    if at != from {
      var i :| 0 <= i < |front| && Asks(front[i], r) && front[i].now == at;
      assert all[i] == front[i];
    }
  }

  lemma PacedFront(front: seq<Event>, e: Event, r: string, max: nat, from: int)
    requires Paced(front + [e], r, max, from)
    ensures Paced(front, r, max, from) && (e.runId == r ==> e.Take? || e.Redirect?)
  {
    var all := front + [e];
    assert all[|front|] == e && forall i :: 0 <= i < |front| ==> all[i] == front[i];
  }

  /** Where the bucket of a run stands that has been granted every request so far. */
  ghost predicate InPace(s: Store, events: seq<Event>, r: string, max: nat, from: int) {
    var s' := After(s, events);
    && Sound(s') && r in s'.policies && r in s'.buckets && s'.policies[r] == max
    && UpdatedAt(events, r, from, s'.buckets[r].updatedAt)
    && Granted(s, events, r) == Requests(events, r)
  }

  lemma RequestsSnoc(front: seq<Event>, e: Event, r: string)
    ensures Requests(front + [e], r) == Requests(front, r) + if Asks(e, r) then 1 else 0
  {
    assert (front + [e])[..|front|] == front;
  }

  lemma PacedAnswer(s: Store, e: Event, r: string)
    requires Sound(s) && r in s.policies && r in s.buckets && Asks(e, r) && s.policies[r] > 0
    requires Apart(s.policies[r], s.buckets[r].updatedAt, e.now)
    ensures Answer(s, e)
  {
    PacedRequestIsGranted(s.policies[r], s.buckets[r], e.now);
    hide Grants;
  }

  lemma PolicyStays(s: Store, e: Event, r: string)
    requires r in s.policies && (e.runId == r ==> e.Take? || e.Redirect?)
    ensures r in Apply(s, e).policies && Apply(s, e).policies[r] == s.policies[r]
  {
    hide Spent;
  }

  lemma PacedStep(s: Store, front: seq<Event>, e: Event, r: string, max: nat, from: int)
    requires InPace(s, front, r, max, from) && max > 0 && Paced(front + [e], r, max, from)
    ensures InPace(s, front + [e], r, max, from)
  {
    var before := After(s, front);
    var at := before.buckets[r].updatedAt;
    PacedFront(front, e, r, max, from);
    ApplyKeepsSound(before, e);
    PolicyStays(before, e, r);
    OneMoreEvent(s, front, e, r);
    RequestsSnoc(front, e, r);
    LastUpdate(s, front, e, r);
    UpdatedLater(front, e, r, from, at);
    if Asks(e, r) {
      PacedAtLast(front, e, r, max, from, at);
      PacedAnswer(before, e, r);
    }
    hide Paced, UpdatedAt, After, Granted, Requests, Apply, Answer, Apart;
  }

  /** A run that paces its requests is granted every one of them, whatever other runs do in between. */
  lemma {:induction false} PacedRunIsGranted(s: Store, r: string, events: seq<Event>)
    requires Sound(s) && r in s.policies && s.policies[r] > 0
    requires Paced(events, r, s.policies[r], s.buckets[r].updatedAt)
    ensures Granted(s, events, r) == Requests(events, r)
    ensures InPace(s, events, r, s.policies[r], s.buckets[r].updatedAt)
  {
    if events != [] {
      var front, e := events[..|events| - 1], events[|events| - 1];
      var max, from := s.policies[r], s.buckets[r].updatedAt;
      assert events == front + [e];
      PacedFront(front, e, r, max, from);
      PacedRunIsGranted(s, r, front);
      hide Paced, UpdatedAt, After, Granted, Requests, Sound;
      PacedStep(s, front, e, r, max, from);
    }
  }

  lemma SpendsAtMostOne(max: nat, b: Bucket, now: int, left: int)
    requires b.tokens >= left as real && left <= max
    ensures Spent(max, b, now).tokens >= (left - 1) as real
    ensures left >= 1 ==> Grants(max, b, now)
  {
    WorthIsPositive(max, if now <= b.updatedAt then 0 else now - b.updatedAt);
    hide Worth, Burst;
  }

  lemma {:induction false} TokensLeft(s: Store, r: string, max: nat, events: seq<Event>)
    requires r in s.policies && r in s.buckets && s.policies[r] == max && s.buckets[r].tokens == max as real
    requires Undisturbed(events, r)
    ensures var s' := After(s, events);
      && r in s'.policies && r in s'.buckets && s'.policies[r] == max
      && s'.buckets[r].tokens >= (max - Requests(events, r)) as real
  {
    if events != [] {
      var front, e := events[..|events| - 1], events[|events| - 1];
      assert e in events && forall f :: f in front ==> f in events;
      TokensLeft(s, r, max, front);
      if e.runId == r && e.Take? {
        SpendsAtMostOne(max, After(s, front).buckets[r], e.now, max - Requests(front, r));
      }
      hide Spent, Undisturbed, Grants;
    }
  }

  /** The first requests after registration, as many as the minute allows, are granted however fast they come. */
  lemma FirstMinuteIsGranted(s0: Store, r: string, max: nat, start: int, events: seq<Event>, now: int)
    requires Undisturbed(events, r) && Requests(events, r) < max
    ensures Answer(After(Apply(s0, Register(r, max, start)), events), Take(r, now))
  {
    var s := Apply(s0, Register(r, max, start));
    TokensLeft(s, r, max, events);
    SpendsAtMostOne(max, After(s, events).buckets[r], now, max - Requests(events, r));
    hide After, Requests, Spent, Grants, Undisturbed;
  }

  // ---------------------------------------------------------------- redirects

  lemma {:induction false} RedirectsCounted(s: Store, events: seq<Event>, r: string)
    requires Undisturbed(events, r)
    ensures Seen(After(s, events), r) == Seen(s, r) + Hops(events, r)
  {
    if events != [] {
      var front, e := events[..|events| - 1], events[|events| - 1];
      assert events == front + [e];
      assert e in events;
      RedirectsCounted(s, front, r);
      hide Undisturbed, Spent;
    }
  }

  /** Since registration, exactly the first twenty redirects of a run are allowed. */
  lemma FirstTwentyRedirects(s0: Store, r: string, max: nat, start: int, events: seq<Event>)
    requires Undisturbed(events, r)
    ensures Answer(After(Apply(s0, Register(r, max, start)), events), Redirect(r)) <==> Hops(events, r) < 20
  {
    RedirectsCounted(Apply(s0, Register(r, max, start)), events, r);
    hide After, Hops, Undisturbed;
  }
}
