/** The result cache of the transform layer: a map keyed by a joined text, with a time to live and lazy deletion. */
module ResultCache {
  import opened Options
  import Joined

  /** What of the manifests and the input the cache looks at. */
  datatype Subject = Subject(transformId: string, transformVersion: string, engineId: string, engineVersion: string,
                             providerId: string, kind: string, value: string,
                             cacheable: bool, ttlSeconds: Option<nat>, storeResults: Option<bool>)

  datatype RunEntity = RunEntity(kind: string, value: string)
  datatype Entry = Entry(results: seq<RunEntity>, runId: string, storedAt: int, expiresAt: int)
  datatype CacheHit = CacheHit(entry: Entry, ageMs: int)

  // ---------------------------------------------------------------- the key

  predicate IsLowerOrDigit(c: char) {
    'a' <= c <= 'z' || '0' <= c <= '9'
  }

  /** Words of lower-case letters and digits, with single hyphens between them. */
  predicate IsKebab(s: string) {
    && s != [] && IsLowerOrDigit(s[0]) && IsLowerOrDigit(s[|s| - 1])
    && (forall i :: 0 <= i < |s| ==> IsLowerOrDigit(s[i]) || s[i] == '-')
    && (forall i :: 0 < i < |s| && s[i] == '-' ==> s[i - 1] != '-')
  }

  predicate IsNumber(s: string) {
    s != [] && forall i :: 0 <= i < |s| ==> '0' <= s[i] <= '9'
  }

  ghost predicate IsSemver(s: string) {
    exists a, b, c :: IsNumber(a) && IsNumber(b) && IsNumber(c) && s == a + "." + b + "." + c
  }

  /** The entity kinds are lower-case words, some with an underscore. */
  predicate IsKind(s: string) {
    s != [] && forall i :: 0 <= i < |s| ==> 'a' <= s[i] <= 'z' || s[i] == '_'
  }

  /** What the manifest schemas guarantee of the parts of a key. */
  ghost predicate SchemaValid(s: Subject) {
    && IsKebab(s.transformId) && IsSemver(s.transformVersion)
    && IsKebab(s.engineId) && IsSemver(s.engineVersion)
    && IsKebab(s.providerId) && IsKind(s.kind)
  }

  /** `norm` stands for trimming and lower-casing, which the key applies to the input value. */
  function CacheKey(s: Subject, norm: string -> string): string {
    s.transformId + "|" + (s.transformVersion + "|" + (s.engineId + "|" + (s.engineVersion + "|" + (s.providerId + "|"
      + (s.kind + ":" + norm(s.value))))))
  }

  /** The same question asked of the same tools. */
  ghost predicate Same(s: Subject, t: Subject, norm: string -> string) {
    && s.transformId == t.transformId && s.transformVersion == t.transformVersion
    && s.engineId == t.engineId && s.engineVersion == t.engineVersion
    && s.providerId == t.providerId && s.kind == t.kind && norm(s.value) == norm(t.value)
  }

  lemma SemverHasNoBar(s: string)
    requires IsSemver(s)
    ensures '|' !in s
  {
    var a, b, c :| IsNumber(a) && IsNumber(b) && IsNumber(c) && s == a + "." + b + "." + c;
  }

  lemma PartsAreClean(s: Subject)
    requires SchemaValid(s)
    ensures '|' !in s.transformId && '|' !in s.transformVersion && '|' !in s.engineId && '|' !in s.engineVersion
    ensures '|' !in s.providerId && ':' !in s.kind
  {
    SemverHasNoBar(s.transformVersion);
    SemverHasNoBar(s.engineVersion);
    hide IsSemver;
  }

  lemma SplitAtBar(a: string, x: string, b: string, y: string)
    requires a + "|" + x == b + "|" + y && '|' !in a && '|' !in b
    ensures a == b && x == y
  {
    Joined.SplitAtSeparator('|', a, x, b, y);
  }

  lemma KeyDetermines(s: Subject, t: Subject, norm: string -> string)
    requires SchemaValid(s) && SchemaValid(t) && CacheKey(s, norm) == CacheKey(t, norm)
    ensures Same(s, t, norm)
  {
    PartsAreClean(s);
    PartsAreClean(t);
    hide SchemaValid;
    var s5, t5 := s.kind + ":" + norm(s.value), t.kind + ":" + norm(t.value);
    var s4, t4 := s.providerId + "|" + s5, t.providerId + "|" + t5;
    var s3, t3 := s.engineVersion + "|" + s4, t.engineVersion + "|" + t4;
    var s2, t2 := s.engineId + "|" + s3, t.engineId + "|" + t3;
    var s1, t1 := s.transformVersion + "|" + s2, t.transformVersion + "|" + t2;
    assert s.transformId + "|" + s1 == t.transformId + "|" + t1;
    SplitAtBar(s.transformId, s1, t.transformId, t1);
    SplitAtBar(s.transformVersion, s2, t.transformVersion, t2);
    SplitAtBar(s.engineId, s3, t.engineId, t3);
    SplitAtBar(s.engineVersion, s4, t.engineVersion, t4);
    SplitAtBar(s.providerId, s5, t.providerId, t5);
    Joined.SplitAtSeparator(':', s.kind, norm(s.value), t.kind, norm(t.value));
  }

  /** The joined text is as good as the parts: keys are equal exactly when the subjects are the same. */
  lemma KeyIsIdentity(s: Subject, t: Subject, norm: string -> string)
    requires SchemaValid(s) && SchemaValid(t)
    ensures CacheKey(s, norm) == CacheKey(t, norm) <==> Same(s, t, norm)
  {
    if CacheKey(s, norm) == CacheKey(t, norm) { KeyDetermines(s, t, norm); }
  }

  // ---------------------------------------------------------------- the cache

  predicate IsCacheable(s: Subject) {
    s.cacheable && s.ttlSeconds.Some? && s.storeResults != Some(false)
  }

  function EntryFor(s: Subject, results: seq<RunEntity>, runId: string, now: int): Entry {
    Entry(results, runId, now, now + (if s.ttlSeconds.Some? then s.ttlSeconds.value else 0) * 1000)
  }

  datatype Event =
    | Get(subject: Subject, now: int)
    | Store(subject: Subject, results: seq<RunEntity>, runId: string, now: int)
    | Delete(subject: Subject)

  type Entries = map<string, Entry>

  function Apply(c: Entries, e: Event, norm: string -> string): Entries {
    var key := CacheKey(e.subject, norm);
    match e
    case Get(_, now) => if key in c && c[key].expiresAt <= now then c - {key} else c
    case Store(s, results, runId, now) => if IsCacheable(s) then c[key := EntryFor(s, results, runId, now)] else c
    case Delete(_) => c - {key}
  }

  function Lookup(c: Entries, s: Subject, now: int, norm: string -> string): Option<CacheHit> {
    var key := CacheKey(s, norm);
    if key in c && c[key].expiresAt > now then Some(CacheHit(c[key], now - c[key].storedAt)) else None
  }

  class Cache {
    var entries: Entries
    const norm: string -> string

    constructor (norm: string -> string)
      ensures entries == map[] && this.norm == norm
    {
      this.norm := norm;
      entries := map[];
    }

    method Get(s: Subject, now: int) returns (hit: Option<CacheHit>)
      modifies this
      ensures entries == Apply(old(entries), Event.Get(s, now), norm)
      ensures hit == Lookup(old(entries), s, now, norm)
    {
      var key := CacheKey(s, norm);
      if key !in entries { return None; }
      var entry := entries[key];
      if entry.expiresAt <= now {
        entries := entries - {key};
        return None;
      }
      hit := Some(CacheHit(entry, now - entry.storedAt));
    }

    method Set(s: Subject, results: seq<RunEntity>, runId: string, now: int)
      modifies this
      ensures entries == Apply(old(entries), Store(s, results, runId, now), norm)
    {
      if !IsCacheable(s) { return; }
      entries := entries[CacheKey(s, norm) := EntryFor(s, results, runId, now)];
    }

    method Remove(s: Subject)
      modifies this
      ensures entries == Apply(old(entries), Delete(s), norm)
    {
      entries := entries - {CacheKey(s, norm)};
    }
  }

  // ---------------------------------------------------------------- whole histories

  function After(history: seq<Event>, norm: string -> string): Entries {
    if history == [] then map[] else Apply(After(history[..|history| - 1], norm), history[|history| - 1], norm)
  }

  /** The last results stored for this subject and not deleted since. No key, no expiry, no lazy deletion. */
  ghost function LastStored(history: seq<Event>, s: Subject, norm: string -> string): Option<Entry> {
    if history == [] then None
    else
      var e, front := history[|history| - 1], history[..|history| - 1];
      if !Same(e.subject, s, norm) || e.Get? then LastStored(front, s, norm)
      else if e.Delete? then None
      else if IsCacheable(e.subject) then Some(EntryFor(e.subject, e.results, e.runId, e.now))
      else LastStored(front, s, norm)
  }

  ghost predicate AllValid(history: seq<Event>) {
    forall e :: e in history ==> SchemaValid(e.subject)
  }

  /** The clock never goes back, and shows at least `now` at the end. */
  ghost predicate ClockRuns(history: seq<Event>, now: int) {
    && (forall i :: 0 <= i < |history| && !history[i].Delete? ==> history[i].now <= now)
    && (forall i, j :: 0 <= i < j < |history| && !history[i].Delete? && !history[j].Delete? ==>
          history[i].now <= history[j].now)
  }

  /** The cache holds what was last stored, unless that has expired. */
  ghost predicate Holds(c: Entries, stored: Option<Entry>, key: string, now: int) {
    match stored
    case None => key !in c
    case Some(entry) => if key in c then c[key] == entry else entry.expiresAt <= now
  }

  lemma ApplyHolds(c: Entries, stored: Option<Entry>, e: Event, s: Subject, now: int, norm: string -> string)
    requires SchemaValid(e.subject) && SchemaValid(s)
    requires Holds(c, stored, CacheKey(s, norm), now) && (e.Get? ==> e.now <= now)
    ensures Holds(Apply(c, e, norm),
                  if !Same(e.subject, s, norm) || e.Get? then stored
                  else if e.Delete? then None
                  else if IsCacheable(e.subject) then Some(EntryFor(e.subject, e.results, e.runId, e.now))
                  else stored,
                  CacheKey(s, norm), now)
  {
    KeyIsIdentity(e.subject, s, norm);
    hide CacheKey, Same, IsCacheable, EntryFor, SchemaValid;
  }

  lemma {:induction false} CacheHolds(history: seq<Event>, s: Subject, now: int, norm: string -> string)
    requires AllValid(history) && SchemaValid(s) && ClockRuns(history, now)
    ensures Holds(After(history, norm), LastStored(history, s, norm), CacheKey(s, norm), now)
  {
    if history != [] {
      var front, e := history[..|history| - 1], history[|history| - 1];
      assert history == front + [e];
      assert e in history;
      CacheHolds(front, s, now, norm);
      hide Holds, SchemaValid, Same, IsCacheable, EntryFor, CacheKey, Apply;
      ApplyHolds(After(front, norm), LastStored(front, s, norm), e, s, now, norm);
    }
  }

  /** After any history with a clock that does not go back, a lookup answers with the last results stored for that same
    * subject, exactly while they have not expired. Neither the joined key nor the lazy deletion can be told.
    */
  lemma HitIsLastStored(history: seq<Event>, s: Subject, now: int, norm: string -> string)
    requires AllValid(history) && SchemaValid(s) && ClockRuns(history, now)
    ensures Lookup(After(history, norm), s, now, norm) ==
      match LastStored(history, s, norm)
      case Some(entry) => if now < entry.expiresAt then Some(CacheHit(entry, now - entry.storedAt)) else None
      case None => None
  {
    hide After, LastStored, CacheKey, AllValid, SchemaValid, ClockRuns;
    CacheHolds(history, s, now, norm);
  }

  lemma {:induction false} StoredEntry(history: seq<Event>, s: Subject, now: int, norm: string -> string)
    requires ClockRuns(history, now) && LastStored(history, s, norm).Some?
    ensures exists e :: e in history && e.Store? && Same(e.subject, s, norm) && IsCacheable(e.subject)
                        && LastStored(history, s, norm).value == EntryFor(e.subject, e.results, e.runId, e.now)
                        && e.now <= now
  {
    var front, e := history[..|history| - 1], history[|history| - 1];
    assert history == front + [e];
    if !(Same(e.subject, s, norm) && e.Store? && IsCacheable(e.subject)) {
      StoredEntry(front, s, now, norm);
    } else {
      assert e in history;
    }
    hide Same, IsCacheable, EntryFor;
  }

  /** What a hit returns was stored for this subject by a transform and a provider that allow it, and is younger than
    * the time to live it was stored with.
    */
  lemma HitIsFresh(history: seq<Event>, s: Subject, now: int, norm: string -> string)
    requires AllValid(history) && SchemaValid(s) && ClockRuns(history, now)
    ensures var hit := Lookup(After(history, norm), s, now, norm);
      hit.Some? ==>
        exists e :: e in history && e.Store? && Same(e.subject, s, norm) && IsCacheable(e.subject)
                    && hit.value.entry == EntryFor(e.subject, e.results, e.runId, e.now)
                    && 0 <= hit.value.ageMs < e.subject.ttlSeconds.value * 1000
  {
    HitIsLastStored(history, s, now, norm);
    if LastStored(history, s, norm).Some? {
      StoredEntry(history, s, now, norm);
    }
    hide After, LastStored, CacheKey, ClockRuns, AllValid, SchemaValid, Same, Lookup;
  }

  // ---------------------------------------------------------------- hit or miss, said by the calls alone

  /** The manifest gives results a time to live, and the provider's terms do not forbid keeping them. */
  predicate MayKeep(s: Subject) {
    s.cacheable && s.ttlSeconds != None && (s.storeResults == None || s.storeResults == Some(true))
  }

  /** The last call that settles what the cache knows of a subject: one that stored results for good, or took them
    * out.
    */
  ghost function LastWord(history: seq<Event>, s: Subject, norm: string -> string): Option<Event> {
    if history == [] then None
    else
      var e := history[|history| - 1];
      if Same(e.subject, s, norm) && (e.Delete? || (e.Store? && MayKeep(e.subject))) then Some(e)
      else LastWord(history[..|history| - 1], s, norm)
  }

  lemma MayKeepMeaning(s: Subject)
    ensures IsCacheable(s) == MayKeep(s)
    ensures MayKeep(s) ==> s.ttlSeconds.Some?
  {
    match s.storeResults
    case None =>
    case Some(kept) => if kept { assert s.storeResults == Some(true); } else { assert s.storeResults == Some(false); }
  }

  lemma {:induction false} LastWordIsStored(history: seq<Event>, s: Subject, norm: string -> string)
    ensures LastStored(history, s, norm) ==
      match LastWord(history, s, norm)
      case Some(Store(subject, results, runId, at)) =>
        Some(Entry(results, runId, at, at + 1000 * (if subject.ttlSeconds.Some? then subject.ttlSeconds.value else 0)))
      case _ => None
    ensures LastWord(history, s, norm).Some? && LastWord(history, s, norm).value.Store? ==>
      LastWord(history, s, norm).value.subject.ttlSeconds.Some?
  {
    hide Same, IsCacheable, MayKeep;
    if history != [] {
      LastWordIsStored(history[..|history| - 1], s, norm);
      var e := history[|history| - 1];
      assert IsCacheable(e.subject) == MayKeep(e.subject) by { MayKeepMeaning(e.subject); }
      if e.Store? && MayKeep(e.subject) { MayKeepMeaning(e.subject); }
    }
  }

  /** A lookup finds what was last stored for the subject, unless that was taken out, for exactly its time to live. */
  lemma LookupIsExact(history: seq<Event>, s: Subject, now: int, norm: string -> string)
    requires AllValid(history) && SchemaValid(s) && ClockRuns(history, now)
    ensures var hit := Lookup(After(history, norm), s, now, norm);
      match LastWord(history, s, norm)
      case Some(Store(subject, results, runId, at)) =>
        && subject.ttlSeconds.Some?
        && (hit.Some? <==> now - at < 1000 * subject.ttlSeconds.value)
        && (hit.Some? ==> hit.value.entry.results == results && hit.value.entry.runId == runId
                          && hit.value.entry.storedAt == at && hit.value.ageMs == now - at)
      case _ => hit == None
  {
    HitIsLastStored(history, s, now, norm);
    LastWordIsStored(history, s, norm);
    hide After, LastStored, LastWord, AllValid, SchemaValid, ClockRuns, Lookup;
  }
}
