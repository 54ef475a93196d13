/** Exactly when the egress proxy grants a request: whenever no stretch of time would get more than its due. */
module EgressExact {
  import opened Options
  import opened EgressBucket

  /** The burst is a fifth of the minute, rounded up, and at least one request. */
  lemma BurstIsFifth(max: nat)
    ensures Burst(max) >= 1 && 5 * Burst(max) >= max
    ensures Burst(max) > 1 ==> 5 * (Burst(max) - 1) < max
  {
    var x := max as real * 0.2;
    assert Ceil(x) as real >= x > Ceil(x) as real - 1.0;
  }

  /** Requests granted to the run from position `i` of its events on. */
  function GrantedFrom(s: Store, events: seq<Event>, r: string, i: nat): int
    requires i <= |events|
  {
    Granted(s, events, r) - Granted(s, events[..i], r)
  }

  /** What is left at `now` of the minute given at registration, and of the time since. */
  function RoomSinceStart(s: Store, events: seq<Event>, r: string, max: nat, start: int, now: int): real {
    max as real + Worth(max, now - start) - Granted(s, events, r) as real
  }

  /** What is left at `now` of the minute and the burst that a stretch beginning with request `i` may have. */
  function RoomSince(s: Store, events: seq<Event>, r: string, max: nat, i: nat, now: int): real
    requires i < |events| && events[i].Take?
  {
    (max + Burst(max)) as real + Worth(max, now - events[i].now) - GrantedFrom(s, events, r, i) as real
  }

  /** `tokens` at time `at` is the least room there is since registration or since any request. */
  ghost predicate IsLeastRoom(s: Store, events: seq<Event>, r: string, max: nat, start: int, at: int, tokens: real) {
    && tokens <= RoomSinceStart(s, events, r, max, start, at)
    && (forall i: nat :: i < |events| && Asks(events[i], r) ==> tokens <= RoomSince(s, events, r, max, i, at))
    && (tokens == RoomSinceStart(s, events, r, max, start, at) ||
        exists i: nat :: i < |events| && Asks(events[i], r) && tokens == RoomSince(s, events, r, max, i, at))
  }

  lemma RoomsLater(s: Store, events: seq<Event>, r: string, max: nat, start: int, at: int, now: int)
    ensures RoomSinceStart(s, events, r, max, start, now) == RoomSinceStart(s, events, r, max, start, at) + Worth(max, now - at)
    ensures forall i: nat :: i < |events| && Asks(events[i], r) ==>
      RoomSince(s, events, r, max, i, now) == RoomSince(s, events, r, max, i, at) + Worth(max, now - at)
  {
    hide Worth, Burst;
    WorthAdds(max, at - start, now - at);
    forall i: nat | i < |events| && Asks(events[i], r)
      ensures RoomSince(s, events, r, max, i, now) == RoomSince(s, events, r, max, i, at) + Worth(max, now - at)
    {
      WorthAdds(max, at - events[i].now, now - at);
    }
  }

  /** One more event, which takes `g` tokens from the run, or none. */
  lemma RoomsSnoc(s: Store, front: seq<Event>, e: Event, r: string, max: nat, start: int, at: int, g: nat)
    requires Granted(s, front + [e], r) == Granted(s, front, r) + g
    ensures RoomSinceStart(s, front + [e], r, max, start, at) == RoomSinceStart(s, front, r, max, start, at) - g as real
    ensures forall i: nat :: i < |front| && Asks(front[i], r) ==>
      (front + [e])[i] == front[i] &&
      RoomSince(s, front + [e], r, max, i, at) == RoomSince(s, front, r, max, i, at) - g as real
    ensures Asks(e, r) ==> RoomSince(s, front + [e], r, max, |front|, at) == Cap(max) + Worth(max, at - e.now) - g as real
  {
    hide Worth, Burst, Granted;
    var all := front + [e];
    forall i: nat | i < |front| && Asks(front[i], r)
      ensures RoomSince(s, all, r, max, i, at) == RoomSince(s, front, r, max, i, at) - g as real
    {
      assert all[..i] == front[..i] && all[i] == front[i];
    }
    assert all[..|front|] == front && all[|front|] == e;
  }

  /** Nothing happens to the run. */
  lemma LeastRoomStays(s: Store, front: seq<Event>, e: Event, r: string, max: nat, start: int, at: int, tokens: real)
    requires IsLeastRoom(s, front, r, max, start, at, tokens) && !Asks(e, r)
    requires Granted(s, front + [e], r) == Granted(s, front, r)
    ensures IsLeastRoom(s, front + [e], r, max, start, at, tokens)
  {
    RoomsSnoc(s, front, e, r, max, start, at, 0);
    hide RoomSince, RoomSinceStart, Granted;
    var all := front + [e];
    assert all[|front|] == e;
    if tokens != RoomSinceStart(s, front, r, max, start, at) {
      var i: nat :| i < |front| && Asks(front[i], r) && tokens == RoomSince(s, front, r, max, i, at);
      assert Asks(all[i], r) && tokens == RoomSince(s, all, r, max, i, at);
    }
  }

  /** The run makes a request at `now`: time fills the bucket up to its cap, and a grant takes one token. */
  lemma LeastRoomMoves(s: Store, front: seq<Event>, e: Event, r: string, max: nat, start: int, at: int, tokens: real, g: nat)
    requires IsLeastRoom(s, front, r, max, start, at, tokens) && Asks(e, r)
    requires Granted(s, front + [e], r) == Granted(s, front, r) + g
    ensures var filled := tokens + Worth(max, e.now - at);
      IsLeastRoom(s, front + [e], r, max, start, e.now, (if filled <= Cap(max) then filled else Cap(max)) - g as real)
  {
    hide RoomSince, RoomSinceStart, Granted, Worth, Cap, IsLeastRoom;
    var filled := tokens + Worth(max, e.now - at);
    FilledIsLeastRoom(s, front, r, max, start, at, e.now, tokens);
    NewRoom(s, front, e, r, max, g);
    if filled <= Cap(max) {
      OldRoomIsLeast(s, front, e, r, max, start, filled, g);
    } else {
      NewRoomIsLeast(s, front, e, r, max, start, filled, g);
    }
  }

  /** Time passes. */
  lemma FilledIsLeastRoom(s: Store, events: seq<Event>, r: string, max: nat, start: int, at: int, now: int, tokens: real)
    requires IsLeastRoom(s, events, r, max, start, at, tokens)
    ensures IsLeastRoom(s, events, r, max, start, now, tokens + Worth(max, now - at))
  {
    RoomsLater(s, events, r, max, start, at, now);
    hide RoomSince, RoomSinceStart, Worth;
    if tokens != RoomSinceStart(s, events, r, max, start, at) {
      var i: nat :| i < |events| && Asks(events[i], r) && tokens == RoomSince(s, events, r, max, i, at);
      assert tokens + Worth(max, now - at) == RoomSince(s, events, r, max, i, now);
    }
  }

  lemma NewRoom(s: Store, front: seq<Event>, e: Event, r: string, max: nat, g: nat)
    requires Asks(e, r) && Granted(s, front + [e], r) == Granted(s, front, r) + g
    ensures Asks((front + [e])[|front|], r) && RoomSince(s, front + [e], r, max, |front|, e.now) == Cap(max) - g as real
  {
    RoomsSnoc(s, front, e, r, max, e.now, e.now, g);
    WorthAdds(max, 0, 0);
    assert (front + [e])[|front|] == e;
    hide RoomSince, Worth, Cap, Granted;
  }

  lemma OldRoomIsLeast(s: Store, front: seq<Event>, e: Event, r: string, max: nat, start: int, filled: real, g: nat)
    requires Asks(e, r) && IsLeastRoom(s, front, r, max, start, e.now, filled) && filled <= Cap(max)
    requires Granted(s, front + [e], r) == Granted(s, front, r) + g
    requires RoomSince(s, front + [e], r, max, |front|, e.now) == Cap(max) - g as real
    ensures IsLeastRoom(s, front + [e], r, max, start, e.now, filled - g as real)
  {
    RoomsSnoc(s, front, e, r, max, start, e.now, g);
    hide RoomSince, RoomSinceStart, Granted, Cap;
    var all := front + [e];
    if filled != RoomSinceStart(s, front, r, max, start, e.now) {
      var i: nat :| i < |front| && Asks(front[i], r) && filled == RoomSince(s, front, r, max, i, e.now);
      assert Asks(all[i], r) && filled - g as real == RoomSince(s, all, r, max, i, e.now);
    }
    forall i: nat | i < |all| && Asks(all[i], r)
      ensures filled - g as real <= RoomSince(s, all, r, max, i, e.now)
    {
      if i < |front| { assert all[i] == front[i]; }
    }
  }

  lemma NewRoomIsLeast(s: Store, front: seq<Event>, e: Event, r: string, max: nat, start: int, filled: real, g: nat)
    requires Asks(e, r) && IsLeastRoom(s, front, r, max, start, e.now, filled) && Cap(max) <= filled
    requires Granted(s, front + [e], r) == Granted(s, front, r) + g
    requires Asks((front + [e])[|front|], r) && RoomSince(s, front + [e], r, max, |front|, e.now) == Cap(max) - g as real
    ensures IsLeastRoom(s, front + [e], r, max, start, e.now, Cap(max) - g as real)
  {
    RoomsSnoc(s, front, e, r, max, start, e.now, g);
    hide RoomSince, RoomSinceStart, Granted, Cap;
    var all := front + [e];
    forall i: nat | i < |all| && Asks(all[i], r)
      ensures Cap(max) - g as real <= RoomSince(s, all, r, max, i, e.now)
    {
      if i < |front| { assert all[i] == front[i]; }
    }
  }

  /** What the bucket of a run holds after its last update. */
  ghost predicate Holds(s: Store, events: seq<Event>, r: string, max: nat, start: int) {
    var s' := After(s, events);
    && r in s'.policies && r in s'.buckets && s'.policies[r] == max
    && IsLeastRoom(s, events, r, max, start, s'.buckets[r].updatedAt, s'.buckets[r].tokens)
  }

  lemma NextHolds(s: Store, front: seq<Event>, e: Event, r: string, max: nat, start: int)
    requires Holds(s, front, r, max, start) && (e.runId == r ==> e.Take? || e.Redirect?)
    requires Asks(e, r) ==> After(s, front).buckets[r].updatedAt <= e.now
    ensures Holds(s, front + [e], r, max, start)
  {
    OneMoreEvent(s, front, e, r);
    var before := After(s, front);
    hide After, Granted, IsLeastRoom, Worth, Cap;
    if Asks(e, r) {
      var g := if Answer(before, e) then 1 else 0;
      LeastRoomMoves(s, front, e, r, max, start, before.buckets[r].updatedAt, before.buckets[r].tokens, g);
    } else {
      LeastRoomStays(s, front, e, r, max, start, before.buckets[r].updatedAt, before.buckets[r].tokens);
    }
  }

  lemma {:induction false} BucketHolds(s0: Store, r: string, max: nat, start: int, events: seq<Event>, until: int)
    requires Undisturbed(events, r) && Clocked(events, r, start, until)
    ensures var s := Apply(s0, Register(r, max, start));
      && Holds(s, events, r, max, start)
      && After(s, events).buckets[r].updatedAt <= until
      && forall i :: 0 <= i < |events| && Asks(events[i], r) ==> events[i].now <= After(s, events).buckets[r].updatedAt
  {
    var s := Apply(s0, Register(r, max, start));
    if events == [] {
      WorthAdds(max, 0, 0);
    } else {
      var front, e := events[..|events| - 1], events[|events| - 1];
      assert events == front + [e] && e in events;
      ClockedFront(front, e, r, start, until);
      var last := if Asks(e, r) then e.now else until;
      BucketHolds(s0, r, max, start, front, last);
      hide Holds, After, Undisturbed, Clocked;
      HoldsPolicy(s, front, r, max, start);
      NextHolds(s, front, e, r, max, start);
      LastUpdate(s, front, e, r);
    }
  }

  lemma HoldsPolicy(s: Store, events: seq<Event>, r: string, max: nat, start: int)
    requires Holds(s, events, r, max, start)
    ensures r in After(s, events).policies && r in After(s, events).buckets && After(s, events).policies[r] == max
  {
  }

  lemma ClockedFront(front: seq<Event>, e: Event, r: string, start: int, until: int)
    requires Undisturbed(front + [e], r) && Clocked(front + [e], r, start, until)
    ensures Undisturbed(front, r) && (e.runId == r ==> e.Take? || e.Redirect?)
    ensures Clocked(front, r, start, if Asks(e, r) then e.now else until)
    ensures Asks(e, r) ==> start <= e.now <= until
  {
    var all := front + [e];
    assert all[|front|] == e && forall i :: 0 <= i < |front| ==> all[i] == front[i];
  }

  /** A request would keep every stretch of time within its due: what was granted since registration, and since any
    * request, with this one more.
    */
  ghost predicate WithinDue(s: Store, events: seq<Event>, r: string, max: nat, start: int, now: int) {
    && (Granted(s, events, r) + 1) as real <= max as real + Worth(max, now - start)
    && forall i: nat :: i < |events| && Asks(events[i], r) ==>
         (GrantedFrom(s, events, r, i) + 1) as real <= (max + Burst(max)) as real + Worth(max, now - events[i].now)
  }

  /** A run gets each request granted that it can be granted: it is refused one only if some stretch of time, since
    * registration or since one of its requests, would get more than it may.
    */
  lemma GrantedExactlyWhen(s0: Store, r: string, max: nat, start: int, events: seq<Event>, now: int)
    requires Undisturbed(events, r) && Clocked(events, r, start, now)
    ensures var s := Apply(s0, Register(r, max, start));
      Answer(After(s, events), Take(r, now)) <==> WithinDue(s, events, r, max, start, now)
  {
    var s := Apply(s0, Register(r, max, start));
    BucketHolds(s0, r, max, start, events, now);
    hide After, Granted, Worth, Burst, Undisturbed, Clocked, Apply;
    BurstIsFifth(max);
    var b := After(s, events).buckets[r];
    RoomsLater(s, events, r, max, start, b.updatedAt, now);
  }

  /** A minute is worth what the policy allows in one. */
  lemma MinuteIsWorth(max: nat)
    ensures Worth(max, 60000) == max as real
  {
  }

  /** A run that was revoked, or never registered, is granted nothing until it is registered. */
  lemma {:induction false} UnregisteredIsRefused(s0: Store, events: seq<Event>, r: string, now: int)
    requires forall i :: 0 <= i < |events| ==> !(events[i].Register? && events[i].runId == r)
    ensures var s := After(Apply(s0, Revoke(r)), events);
      r !in s.policies && !Answer(s, Take(r, now))
  {
    if events != [] {
      UnregisteredIsRefused(s0, events[..|events| - 1], r, now);
      hide Spent, Grants;
    }
  }
}
