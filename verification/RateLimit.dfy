/** Fixed-window counters with eviction of expired windows. */
module RateLimit {
  datatype Rule = Rule(limit: nat, windowMs: int)
  datatype Window = Window(count: nat, resetAt: int)
  type Windows = map<string, Window>

  /** One call of `hit`, with the time the clock showed. */
  datatype Hit = Hit(key: string, rule: Rule, t: int)
  datatype Reply = Reply(allowed: bool, remaining: nat, retryAfterSec: int)

  const MAX_WINDOWS := 10_000

  predicate Live(s: Windows, key: string, t: int) {
    key in s && s[key].resetAt > t
  }

  /** The window a hit is counted in: the live one, or a new one. */
  function Counted(s: Windows, h: Hit): Window {
    var window := if Live(s, h.key, h.t) then s[h.key] else Window(0, h.t + h.rule.windowMs);
    window.(count := window.count + 1)
  }

  /** Whole seconds until the window ends, rounded up, and at least one. */
  function RetryAfter(resetAt: int, t: int): int {
    var seconds := -((t - resetAt) / 1000);
    if seconds <= 1 then 1 else seconds
  }

  function ReplyTo(s: Windows, h: Hit): Reply {
    var w := Counted(s, h);
    Reply(w.count <= h.rule.limit, if w.count <= h.rule.limit then h.rule.limit - w.count else 0,
          RetryAfter(w.resetAt, h.t))
  }

  function Recorded(s: Windows, h: Hit): Windows {
    s[h.key := Counted(s, h)]
  }

  function Evicted(s: Windows, t: int): Windows {
    map key | key in s && s[key].resetAt > t :: s[key]
  }

  function Limited(s: Windows, h: Hit): Windows {
    var recorded := Recorded(s, h);
    if |recorded| > MAX_WINDOWS then Evicted(recorded, h.t) else recorded
  }

  class FixedWindowLimiter {
    var windows: Windows

    constructor ()
      ensures windows == map[]
    {
      windows := map[];
    }

    method HitKey(key: string, rule: Rule, t: int) returns (reply: Reply)
      modifies this
      ensures windows == Limited(old(windows), Hit(key, rule, t))
      ensures reply == ReplyTo(old(windows), Hit(key, rule, t))
    {
      var window := if key in windows && windows[key].resetAt > t then windows[key] else Window(0, t + rule.windowMs);
      window := window.(count := window.count + 1);
      windows := windows[key := window];
      if |windows| > MAX_WINDOWS { Evict(t); }
      var remaining := if 0 <= rule.limit - window.count then rule.limit - window.count else 0;
      reply := Reply(window.count <= rule.limit, remaining, RetryAfter(window.resetAt, t));
    }

    method Reset()
      modifies this
      ensures windows == map[]
    {
      windows := map[];
    }

    method Evict(t: int)
      modifies this
      ensures windows == Evicted(old(windows), t)
    {
      var keys := windows.Keys;
      while keys != {}
        invariant keys <= windows.Keys <= old(windows).Keys
        invariant forall key :: key in windows ==> windows[key] == old(windows)[key]
        invariant forall key :: key in old(windows) ==> key in keys || (key in windows <==> old(windows)[key].resetAt > t)
        decreases |keys|
      {
        var key :| key in keys;
        keys := keys - {key};
        if windows[key].resetAt <= t { windows := windows - {key}; }
      }
    }
  }

  // ---------------------------------------------------------------- whole runs

  /** The windows after some hits, with or without eviction. */
  function After(s: Windows, hits: seq<Hit>, evicting: bool): Windows {
    if hits == [] then s
    else
      var before, h := After(s, hits[..|hits| - 1], evicting), hits[|hits| - 1];
      if evicting then Limited(before, h) else Recorded(before, h)
  }

  function Replies(s: Windows, hits: seq<Hit>, evicting: bool): (replies: seq<Reply>)
    ensures |replies| == |hits|
  {
    if hits == [] then []
    else
      Replies(s, hits[..|hits| - 1], evicting) +
      [ReplyTo(After(s, hits[..|hits| - 1], evicting), hits[|hits| - 1])]
  }

  /** How many hits on a key are allowed, in a sequence of hits and their replies. */
  function Allowed(hits: seq<Hit>, replies: seq<Reply>, key: string): nat
    requires |replies| == |hits|
  {
    if hits == [] then 0
    else
      var n := |hits| - 1;
      Allowed(hits[..n], replies[..n], key) + if hits[n].key == key && replies[n].allowed then 1 else 0
  }

  ghost predicate ClockRuns(hits: seq<Hit>) {
    forall i, j :: 0 <= i < j < |hits| ==> hits[i].t <= hits[j].t
  }

  /** From time `t` on, the two hold the same live windows. */
  ghost predicate AgreeFrom(a: Windows, b: Windows, t: int) {
    forall key :: (Live(a, key, t) <==> Live(b, key, t)) && (Live(a, key, t) ==> a[key] == b[key])
  }

  lemma AgreeLater(a: Windows, b: Windows, t: int, u: int)
    requires AgreeFrom(a, b, t) && t <= u
    ensures AgreeFrom(a, b, u)
  {
    forall key
      ensures (Live(a, key, u) <==> Live(b, key, u)) && (Live(a, key, u) ==> a[key] == b[key])
    {
      assert Live(a, key, u) ==> Live(a, key, t);
      assert Live(b, key, u) ==> Live(b, key, t);
    }
  }

  lemma HitAgrees(a: Windows, b: Windows, h: Hit)
    requires AgreeFrom(a, b, h.t)
    ensures ReplyTo(a, h) == ReplyTo(b, h)
    ensures AgreeFrom(Limited(a, h), Recorded(b, h), h.t)
  {
    hide Counted, Recorded, Evicted, Live;
    CountsAgree(a, b, h);
    RecordsAgree(a, b, h);
    EvictedAgrees(Recorded(a, h), Recorded(b, h), h.t);
  }

  lemma CountsAgree(a: Windows, b: Windows, h: Hit)
    requires AgreeFrom(a, b, h.t)
    ensures Counted(a, h) == Counted(b, h)
  {
    assert Live(a, h.key, h.t) <==> Live(b, h.key, h.t);
  }

  lemma RecordsAgree(a: Windows, b: Windows, h: Hit)
    requires AgreeFrom(a, b, h.t) && Counted(a, h) == Counted(b, h)
    ensures AgreeFrom(Recorded(a, h), Recorded(b, h), h.t)
  {
    hide Counted;
    var ra, rb := Recorded(a, h), Recorded(b, h);
    forall key
      ensures (Live(ra, key, h.t) <==> Live(rb, key, h.t)) && (Live(ra, key, h.t) ==> ra[key] == rb[key])
    {
      assert key != h.key ==> (Live(ra, key, h.t) <==> Live(a, key, h.t)) && (Live(rb, key, h.t) <==> Live(b, key, h.t));
    }
  }

  lemma EvictedAgrees(a: Windows, b: Windows, t: int)
    requires AgreeFrom(a, b, t)
    ensures AgreeFrom(Evicted(a, t), b, t)
  {
    forall key
      ensures Live(Evicted(a, t), key, t) <==> Live(a, key, t)
      ensures Live(a, key, t) ==> Evicted(a, t)[key] == a[key]
    {
    }
  }

  /** Evicting expired windows never changes an answer, as long as the clock does not go back. */
  lemma {:induction false} EvictionIsUnobservable(s: Windows, hits: seq<Hit>)
    requires ClockRuns(hits)
    ensures Replies(s, hits, true) == Replies(s, hits, false)
    ensures hits != [] ==> AgreeFrom(After(s, hits, true), After(s, hits, false), hits[|hits| - 1].t)
  {
    if hits != [] {
      var front, h := hits[..|hits| - 1], hits[|hits| - 1];
      EvictionIsUnobservable(s, front);
      var a, b := After(s, front, true), After(s, front, false);
      if front != [] {
        assert front[|front| - 1].t <= h.t;
        AgreeLater(a, b, front[|front| - 1].t, h.t);
      }
      HitAgrees(a, b, h);
      hide Limited, Recorded, ReplyTo, AgreeFrom, ClockRuns;
    }
  }

  // ---------------------------------------------------------------- how much is allowed

  /** Every hit on the key uses this rule and falls between two times. */
  ghost predicate Between(hits: seq<Hit>, key: string, rule: Rule, from: int, until: int) {
    forall h :: h in hits && h.key == key ==> h.rule == rule && from <= h.t <= until
  }

  function Least(a: nat, b: nat): nat {
    if a <= b then a else b
  }

  /** Of the hits allowed so far at most `limit` came before the present window, and none did unless no further window
    * can open by `until`; the rest were counted in it.
    */
  ghost predicate Bounded(s: Windows, key: string, rule: Rule, until: int, allowed: nat) {
    || allowed == 0
    || (key in s && s[key].resetAt + rule.windowMs > until && allowed <= Least(s[key].count, rule.limit))
    || (key in s && s[key].resetAt > until && allowed <= rule.limit + Least(s[key].count, rule.limit))
  }

  lemma BoundStep(s: Windows, h: Hit, from: int, until: int, allowed: nat)
    requires Bounded(s, h.key, h.rule, until, allowed)
    requires h.rule.windowMs > 0 && from <= h.t <= until && until - from <= h.rule.windowMs
    ensures Bounded(Recorded(s, h), h.key, h.rule, until, allowed + if ReplyTo(s, h).allowed then 1 else 0)
  {
    hide RetryAfter;
  }

  lemma {:induction false} AllowedIsBounded(s: Windows, hits: seq<Hit>, key: string, rule: Rule, from: int, until: int)
    requires Between(hits, key, rule, from, until) && rule.windowMs > 0 && until - from <= rule.windowMs
    ensures Bounded(After(s, hits, false), key, rule, until, Allowed(hits, Replies(s, hits, false), key))
  {
    if hits != [] {
      var front, h := hits[..|hits| - 1], hits[|hits| - 1];
      assert hits == front + [h];
      AllowedIsBounded(s, front, key, rule, from, until);
      assert h in hits;
      var replies := Replies(s, hits, false);
      assert replies[..|hits| - 1] == Replies(s, front, false);
      if h.key == key {
        hide Bounded;
        BoundStep(After(s, front, false), h, from, until, Allowed(front, Replies(s, front, false), key));
      }
      hide Counted, ReplyTo;
    }
  }

  /** In any stretch of time as long as the window, whatever came before and whatever the other keys do, at most twice
    * the limit is allowed; the evicting limiter keeps to it too.
    */
  lemma AtMostTwiceTheLimit(s: Windows, hits: seq<Hit>, key: string, rule: Rule, from: int, until: int)
    requires ClockRuns(hits) && Between(hits, key, rule, from, until)
    requires rule.windowMs > 0 && until - from <= rule.windowMs
    ensures Allowed(hits, Replies(s, hits, true), key) <= 2 * rule.limit
  {
    AllowedIsBounded(s, hits, key, rule, from, until);
    EvictionIsUnobservable(s, hits);
    hide Replies, After, Allowed, ClockRuns, Between;
  }

  // ---------------------------------------------------------------- one window

  function HitsOn(hits: seq<Hit>, key: string): nat {
    if hits == [] then 0
    else HitsOn(hits[..|hits| - 1], key) + if hits[|hits| - 1].key == key then 1 else 0
  }

  /** Every hit on the key uses this rule and comes before `until`. */
  ghost predicate Before(hits: seq<Hit>, key: string, rule: Rule, until: int) {
    forall h :: h in hits && h.key == key ==> h.rule == rule && h.t < until
  }

  lemma {:induction false} WindowCounts(s: Windows, hits: seq<Hit>, key: string, rule: Rule, w: Window)
    requires key in s && s[key] == w && Before(hits, key, rule, w.resetAt)
    ensures key in After(s, hits, false)
    ensures After(s, hits, false)[key] == Window(w.count + HitsOn(hits, key), w.resetAt)
  {
    if hits != [] {
      var front, h := hits[..|hits| - 1], hits[|hits| - 1];
      assert hits == front + [h];
      assert h in hits;
      WindowCounts(s, front, key, rule, w);
      hide Before;
    }
  }

  lemma {:induction false} RunConcat(s: Windows, a: seq<Hit>, b: seq<Hit>)
    ensures After(s, a + b, false) == After(After(s, a, false), b, false)
  {
    if b == [] {
      assert a + b == a;
    } else {
      RunConcat(s, a, b[..|b| - 1]);
      assert (a + b)[..|a + b| - 1] == a + b[..|b| - 1];
      hide Recorded;
    }
  }

  lemma LastReply(s: Windows, front: seq<Hit>, h: Hit, evicting: bool)
    ensures Replies(s, front + [h], evicting)[|front|] == ReplyTo(After(s, front, evicting), h)
  {
    assert (front + [h])[..|front|] == front;
    hide ReplyTo, After;
  }

  lemma OpenedWindow(s: Windows, opening: Hit, later: seq<Hit>)
    requires !Live(s, opening.key, opening.t)
    requires Before(later, opening.key, opening.rule, opening.t + opening.rule.windowMs)
    ensures var s' := After(s, [opening] + later, false);
      && opening.key in s'
      && s'[opening.key] == Window(1 + HitsOn(later, opening.key), opening.t + opening.rule.windowMs)
  {
    assert [opening][..0] == [];
    assert After(s, [opening], false) == Recorded(s, opening);
    RunConcat(s, [opening], later);
    WindowCounts(Recorded(s, opening), later, opening.key, opening.rule, Window(1, opening.t + opening.rule.windowMs));
    hide After, HitsOn, Before;
  }

  /** Once a hit has opened a window, exactly the first `limit` hits that fall into it are allowed, that one included,
    * each told how many are left, and no answer depends on eviction or on the other keys.
    */
  lemma ExactlyTheFirstAreAllowed(s: Windows, opening: Hit, later: seq<Hit>, h: Hit)
    requires !Live(s, opening.key, opening.t) && h.key == opening.key && h.rule == opening.rule
    requires Before(later + [h], opening.key, opening.rule, opening.t + opening.rule.windowMs)
    requires ClockRuns([opening] + later + [h])
    ensures Replies(s, [opening] + later + [h], true)[|later| + 1].allowed
            <==> HitsOn(later, h.key) + 2 <= opening.rule.limit
    ensures var left := opening.rule.limit - (HitsOn(later, h.key) + 2);
      Replies(s, [opening] + later + [h], true)[|later| + 1].remaining == if left < 0 then 0 else left
  {
    hide Replies, After, HitsOn, ClockRuns, RetryAfter;
    assert h in later + [h];
    assert Before(later, h.key, h.rule, opening.t + opening.rule.windowMs);
    hide Before;
    EvictionIsUnobservable(s, [opening] + later + [h]);
    LastReply(s, [opening] + later, h, false);
    OpenedWindow(s, opening, later);
  }

  /** Waiting the seconds that a reply names always reaches the end of the window, and one second less never does,
    * unless the reply names the one second it names at least.
    */
  lemma RetryAfterIsLeast(resetAt: int, t: int)
    ensures t + 1000 * RetryAfter(resetAt, t) >= resetAt
    ensures RetryAfter(resetAt, t) > 1 ==> t + 1000 * (RetryAfter(resetAt, t) - 1) < resetAt
  {
    var q := (t - resetAt) / 1000;
    assert t - resetAt == 1000 * q + (t - resetAt) % 1000;
  }

  // ---------------------------------------------------------------- every reply, by the hits alone

  /** The position of the hit that opened the latest window of a key: a hit opens one unless it comes while the latest
    * still lasts. The length, if there was no hit on the key.
    */
  ghost function Opening(hits: seq<Hit>, key: string): (at: nat)
    ensures at <= |hits|
  {
    if hits == [] then 0
    else
      var front, h := hits[..|hits| - 1], hits[|hits| - 1];
      var at := Opening(front, key);
      if h.key != key then (if at == |front| then |hits| else at)
      else if at < |front| && h.t < front[at].t + front[at].rule.windowMs then at
      else |front|
  }

  /** What the windows hold of a key after some hits. */
  ghost predicate HoldsOpening(s: Windows, hits: seq<Hit>, key: string) {
    var at := Opening(hits, key);
    && (key in s <==> at < |hits|)
    && (at < |hits| ==> s[key] == Window(HitsOn(hits[at..], key), hits[at].t + hits[at].rule.windowMs))
  }

  lemma HitsOnSnoc(front: seq<Hit>, h: Hit, key: string)
    ensures HitsOn(front + [h], key) == HitsOn(front, key) + if h.key == key then 1 else 0
  {
    assert (front + [h])[..|front|] == front;
  }

  lemma OpeningStep(s: Windows, front: seq<Hit>, h: Hit, key: string)
    requires HoldsOpening(s, front, key)
    ensures HoldsOpening(Recorded(s, h), front + [h], key)
  {
    hide HitsOn;
    var hits := front + [h];
    assert hits[..|front|] == front;
    var at := Opening(front, key);
    if at < |front| {
      assert hits[at..] == front[at..] + [h];
      HitsOnSnoc(front[at..], h, key);
    }
    assert hits[|front|..] == [] + [h];
    HitsOnSnoc([], h, key);
    assert HitsOn([], key) == 0 by { NoHits(key); }
  }

  lemma NoHits(key: string)
    ensures HitsOn([], key) == 0
  {
  }

  lemma {:induction false} LatestWindow(hits: seq<Hit>, key: string)
    ensures HoldsOpening(After(map[], hits, false), hits, key)
  {
    if hits != [] {
      var front, h := hits[..|hits| - 1], hits[|hits| - 1];
      LatestWindow(front, key);
      OpeningStep(After(map[], front, false), front, h, key);
      assert hits == front + [h];
      hide HoldsOpening, Recorded;
    }
  }

  lemma {:induction false} ReplyAt(s: Windows, hits: seq<Hit>, n: nat, evicting: bool)
    requires n < |hits|
    ensures Replies(s, hits, evicting)[n] == ReplyTo(After(s, hits[..n], evicting), hits[n])
  {
    if n < |hits| - 1 {
      var front := hits[..|hits| - 1];
      ReplyAt(s, front, n, evicting);
      assert front[..n] == hits[..n];
    }
    hide ReplyTo, After;
  }

  /** Every reply of a limiter, evicting as it goes, is settled by the hits alone: a hit is allowed exactly when it is
    * among the first `limit` on its key since the one that opened its window, and is told how many of those are left,
    * and the least number of seconds, one at least, after which that window is over.
    */
  lemma EveryReplyIsExact(hits: seq<Hit>, n: nat)
    requires n < |hits| && ClockRuns(hits)
    ensures var h, reply, at := hits[n], Replies(map[], hits, true)[n], Opening(hits[..n + 1], hits[n].key);
      && at <= n
      && var count, end := HitsOn(hits[at..n + 1], h.key), hits[at].t + hits[at].rule.windowMs;
      && (reply.allowed <==> count <= h.rule.limit)
      && reply.remaining == (if reply.allowed then h.rule.limit - count else 0)
      && 1 <= reply.retryAfterSec && end <= h.t + 1000 * reply.retryAfterSec
      && (reply.retryAfterSec > 1 ==> h.t + 1000 * (reply.retryAfterSec - 1) < end)
  {
    hide *;
    var h, before := hits[n], After(map[], hits[..n], false);
    EvictionIsUnobservable(map[], hits);
    ReplyAt(map[], hits, n, false);
    LatestWindow(hits[..n], h.key);
    OpeningStep(before, hits[..n], h, h.key);
    assert hits[..n] + [h] == hits[..n + 1];
    assert hits[..n + 1][Opening(hits[..n + 1], h.key)..] == hits[Opening(hits[..n + 1], h.key)..n + 1];
    CountedIsRecorded(before, hits[..n + 1], h);
    ReplyParts(before, h);
    RetryAfterIsLeast(Counted(before, h).resetAt, h.t);
  }

  lemma ReplyParts(s: Windows, h: Hit)
    ensures var reply, w := ReplyTo(s, h), Counted(s, h);
      && (reply.allowed <==> w.count <= h.rule.limit)
      && reply.remaining == (if reply.allowed then h.rule.limit - w.count else 0)
      && reply.retryAfterSec == RetryAfter(w.resetAt, h.t) && 1 <= reply.retryAfterSec
  {
    hide Counted;
  }

  lemma CountedIsRecorded(s: Windows, hits: seq<Hit>, h: Hit)
    requires HoldsOpening(Recorded(s, h), hits, h.key)
    ensures var at := Opening(hits, h.key);
      at < |hits| && Counted(s, h) == Window(HitsOn(hits[at..], h.key), hits[at].t + hits[at].rule.windowMs)
  {
    hide Opening, HitsOn, Counted;
  }

  /** A hit makes the limiter forget another key exactly when its window is over and more than ten thousand are held. */
  lemma ForgottenExactlyWhen(s: Windows, h: Hit, key: string)
    requires key in s && key != h.key
    ensures key !in Limited(s, h) <==> |s.Keys + {h.key}| > 10_000 && s[key].resetAt <= h.t
    ensures key in Limited(s, h) ==> Limited(s, h)[key] == s[key]
  {
    assert Recorded(s, h).Keys == s.Keys + {h.key};
    hide Counted;
  }
}
