/** What callers of the client-side cache get: no entry past its time, nothing left of a load that failed,
    and nothing else thrown away (packages/client/lib/client/cache.ts:565-589, 712-794, 831-951). */
module CacheGuarantees {
  import opened CacheSpec
  import opened CacheRuns
  import opened Collections

  // ---------------------------------------------------------------- time

  /** A run with a clock: `madeAt` is when each entry was made. */
  datatype Timed = Timed(s: System, ttl: nat, clock: nat, madeAt: map<nat, nat>)

  datatype TimedOp =
    | Calling(cacheKey: Key, now: nat)
    | Completing(cacheKey: Key, entry: nat, result: Completion, now: nat)
    | Untimed(op: Op)

  predicate TimedLegal(t: Timed, op: TimedOp) {
    match op
    case Calling(_, now) => t.clock <= now
    case Completing(cacheKey, entry, _, now) => t.clock <= now && (cacheKey, entry) in t.s.loads
    case Untimed(op) => !op.Call? && !op.Complete?
  }

  // The time to live of the entry is over; without one it never is.
  predicate Over(t: Timed, entry: nat, now: nat) {
    t.ttl > 0 && entry in t.madeAt && t.madeAt[entry] + t.ttl <= now
  }

  function UntimedOp(t: Timed, op: TimedOp): Op {
    match op
    case Calling(cacheKey, now) =>
      Call(cacheKey, cacheKey in t.s.c.entries && Over(t, t.s.c.entries[cacheKey], now))
    case Completing(cacheKey, entry, result, now) => Complete(cacheKey, entry, result, Over(t, entry, now))
    case Untimed(op) => op
  }

  function TimedStep(t: Timed, op: TimedOp): Timed {
    var s' := Step(t.s, UntimedOp(t, op));
    var now := if op.Untimed? then t.clock else op.now;
    Timed(s', t.ttl, now, if s'.next > t.s.next then t.madeAt[t.s.next := now] else t.madeAt)
  }

  predicate TimedLegalRun(t: Timed, ops: seq<TimedOp>)
    decreases |ops|
  {
    ops == [] || (TimedLegal(t, ops[0]) && TimedLegalRun(TimedStep(t, ops[0]), ops[1..]))
  }

  function TimedRun(t: Timed, ops: seq<TimedOp>): Timed
    decreases |ops|
  {
    if ops == [] then t else TimedRun(TimedStep(t, ops[0]), ops[1..])
  }

  function TimedInit(maxEntries: nat, lru: bool, keysFor: Key -> seq<Key>, ttl: nat): Timed {
    Timed(Init(maxEntries, lru, keysFor), ttl, 0, map[])
  }

  // Every entry was made at some time up to now.
  ghost predicate Dated(t: Timed) {
    && Tracked(t.s) && t.s.issued.Keys <= t.madeAt.Keys
    && (forall e <- t.madeAt :: t.madeAt[e] <= t.clock && e < t.s.next)
  }

  lemma IssuedGrows(s: System, op: Op)
    requires Tracked(s) && Legal(s, op)
    ensures var s' := Step(s, op);
            && s.next <= s'.next <= s.next + 1
            && s'.issued.Keys == s.issued.Keys + if s'.next > s.next then {s.next} else {}
  {
    hide Tracked, Get, Set, Delete, Invalidate;
  }

  lemma TimedStepDates(t: Timed, op: TimedOp)
    requires Dated(t) && TimedLegal(t, op)
    ensures Dated(TimedStep(t, op))
  {
    hide Tracked, Step;
    StepTracks(t.s, UntimedOp(t, op));
    IssuedGrows(t.s, UntimedOp(t, op));
  }

  lemma {:induction false} TimedRunDates(t: Timed, ops: seq<TimedOp>)
    requires Dated(t) && TimedLegalRun(t, ops)
    ensures Dated(TimedRun(t, ops)) && TimedRun(t, ops).ttl == t.ttl
    decreases |ops|
  {
    if ops != [] {
      TimedStepDates(t, ops[0]);
      hide Dated, TimedLegal;
      TimedRunDates(TimedStep(t, ops[0]), ops[1..]);
    }
  }

  // The call finds the old entry still there, and nothing has changed.
  predicate Hit(s: System, cacheKey: Key, s': System) {
    cacheKey in s.c.entries && s'.c.entries == s.c.entries && s'.c.invalidated == s.c.invalidated && s'.next == s.next
  }

  // The call stores a load of its own, issued now, and an old entry is marked.
  predicate Miss(s: System, cacheKey: Key, s': System) {
    && cacheKey in s'.c.entries && s'.c.entries[cacheKey] == s.next && s'.next == s.next + 1
    && (cacheKey, s.next) in s'.loads && s.next in s'.issued && s'.issued[s.next] == s.now
    && (cacheKey in s.c.entries ==> s.c.entries[cacheKey] in s'.c.invalidated)
  }

  /** A call is given the entry stored for its key exactly when that is not past its time; otherwise the
      old entry goes and a new load is stored. What it is given is valid. */
  lemma CallIsGiven(s: System, cacheKey: Key, expired: bool)
    requires Tracked(s)
    ensures var s' := Step(s, Call(cacheKey, expired));
            && (if cacheKey in s.c.entries && !expired then Hit(s, cacheKey, s') else Miss(s, cacheKey, s'))
            && s'.c.entries[cacheKey] !in s'.c.invalidated
  {
    CallTracks(s, cacheKey, expired);
    StoredIsValid(s, cacheKey);
    StoredIsValid(Step(s, Call(cacheKey, expired)), cacheKey);
    CallHitsOrMisses(s, cacheKey, expired);
    hide Step, Tracked;
  }

  lemma CallHitsOrMisses(s: System, cacheKey: Key, expired: bool)
    requires cacheKey in s.c.entries ==> s.c.entries[cacheKey] !in s.c.invalidated
    ensures var s' := Step(s, Call(cacheKey, expired));
            if cacheKey in s.c.entries && !expired then Hit(s, cacheKey, s') else Miss(s, cacheKey, s')
  {
    hide Get, Set;
    GetGives(s.c, cacheKey, expired);
    if !(cacheKey in s.c.entries && !expired) {
      SetStores(Get(s.c, cacheKey, expired).0, cacheKey, s.next, s.keysFor(cacheKey));
    }
  }

  lemma GetGives(c: Cache, cacheKey: Key, expired: bool)
    requires cacheKey in c.entries ==> c.entries[cacheKey] !in c.invalidated
    ensures var (c', found) := Get(c, cacheKey, expired);
            if cacheKey in c.entries && !expired then
              found == Some(c.entries[cacheKey]) && c'.entries == c.entries && c'.invalidated == c.invalidated
            else found == None && (cacheKey in c.entries ==> c.entries[cacheKey] in c'.invalidated)
  {
  }

  lemma StoredIsValid(s: System, cacheKey: Key)
    requires Tracked(s)
    ensures cacheKey in s.c.entries ==> s.c.entries[cacheKey] !in s.c.invalidated && s.c.entries[cacheKey] in s.issued
  {
  }

  /** In every run with a clock, what a call is given is younger than the time to live. */
  lemma NothingServedPastItsTime(maxEntries: nat, lru: bool, keysFor: Key -> seq<Key>, ttl: nat, ops: seq<TimedOp>,
                                 cacheKey: Key, now: nat)
    requires var t := TimedRun(TimedInit(maxEntries, lru, keysFor, ttl), ops);
             TimedLegalRun(TimedInit(maxEntries, lru, keysFor, ttl), ops) && t.clock <= now
    ensures var t := TimedRun(TimedInit(maxEntries, lru, keysFor, ttl), ops);
            var t' := TimedStep(t, Calling(cacheKey, now));
            && cacheKey in t'.s.c.entries && t'.s.c.entries[cacheKey] in t'.madeAt
            && t'.madeAt[t'.s.c.entries[cacheKey]] <= now
            && (ttl > 0 ==> now < t'.madeAt[t'.s.c.entries[cacheKey]] + ttl)
  {
    var t0 := TimedInit(maxEntries, lru, keysFor, ttl);
    assert Dated(t0);
    TimedRunDates(t0, ops);
    ServedInTime(TimedRun(t0, ops), cacheKey, now);
  }

  lemma ServedInTime(t: Timed, cacheKey: Key, now: nat)
    requires Dated(t) && t.clock <= now
    ensures var t' := TimedStep(t, Calling(cacheKey, now));
            && cacheKey in t'.s.c.entries && t'.s.c.entries[cacheKey] in t'.madeAt
            && t'.madeAt[t'.s.c.entries[cacheKey]] <= now
            && (t.ttl > 0 ==> now < t'.madeAt[t'.s.c.entries[cacheKey]] + t.ttl)
  {
    var expired := cacheKey in t.s.c.entries && Over(t, t.s.c.entries[cacheKey], now);
    StoredIsValid(t.s, cacheKey);
    TimedStepDates(t, Calling(cacheKey, now));
    CallIsGiven(t.s, cacheKey, expired);
    hide Step, Tracked;
  }

  // ---------------------------------------------------------------- the end of a load

  /** When a call has its reply, an entry that is still valid is not left stored: it gives way to a value
      of the same age, or to nothing. Only a waiter that failed leaves it to the call it waited for. */
  lemma CompletionSettlesTheEntry(s: System, cacheKey: Key, entry: nat, result: Completion)
    requires Tracked(s) && (cacheKey, entry) in s.loads && entry !in s.c.invalidated
    ensures var s' := Step(s, Complete(cacheKey, entry, result, false));
            match result
            case Failed(false) => s'.c == s.c
            case Storable =>
              && cacheKey in s'.c.entries && s'.c.entries[cacheKey] == s.next && s.next in s'.values
              && s'.issued[s.next] == s.issued[entry]
            case _ =>
              && s'.c.entries == s.c.entries - {cacheKey} && s'.c.order == Without(s.c.order, {cacheKey})
              && cacheKey !in s'.c.keysOf
    ensures result != Failed(false) ==>
      forall k <- Step(s, Complete(cacheKey, entry, result, false)).c.entries ::
        Step(s, Complete(cacheKey, entry, result, false)).c.entries[k] != entry
  {
    LoadKnown(s, cacheKey, entry);
    StoredAtHome(s, cacheKey, entry);
    if result.Storable? {
      SetReplaces(s.c, cacheKey, s.next, s.keysFor(cacheKey));
    } else {
      DeleteRemoves(s.c, cacheKey);
    }
    hide Tracked, Without, Set, Delete, Evicted;
  }

  lemma StoredAtHome(s: System, cacheKey: Key, entry: nat)
    requires Tracked(s) && (cacheKey, entry) in s.loads
    ensures entry < s.next && forall k <- s.c.entries :: s.c.entries[k] == entry ==> k == cacheKey
  {
  }

  // ---------------------------------------------------------------- nothing else is thrown away

  // The cache keys whose calls read the key.
  function ReadersOf(s: System, key: Key): set<Key> { set k | k in s.c.entries && key in s.keysFor(k) }

  /** An invalidation takes the entries that depend on the key, marks them, and leaves all others in
      their order. */
  lemma InvalidationTakesTheDependents(s: System, key: Key)
    requires Tracked(s)
    ensures var (c', gone) := (Step(s, InvalidateKey(key)).c, ReadersOf(s, key));
            && c'.entries == s.c.entries - gone && c'.order == Without(s.c.order, gone)
            && c'.invalidated == s.c.invalidated + set k <- gone :: s.c.entries[k]
  {
    InvalidateRemoves(s.c, key);
    Dependents(s, key);
    hide Tracked, Without, Invalidate;
    assert forall k <- ReadersOf(s, key) :: k in s.c.entries;
  }

  lemma Dependents(s: System, key: Key)
    requires Tracked(s)
    ensures ReadersOf(s, key) == if key in s.c.index then s.c.index[key] else {}
  {
    var gone := if key in s.c.index then s.c.index[key] else {};
    forall k ensures k in gone <==> k in s.c.entries && key in s.keysFor(k) {
      assert Leads(s.c.index, key, k) <==> Lists(s.c.keysOf, k, key);
    }
  }

  /** Below its maximum the cache evicts nothing, and replacing an entry evicts nothing either. */
  lemma OnlyAFullCacheEvicts(s: System, cacheKey: Key, issuedAt: nat)
    requires Tracked(s) && (cacheKey in s.c.entries || s.c.maxEntries == 0 || |s.c.order| < s.c.maxEntries)
    ensures var c' := Store(s, cacheKey, issuedAt).c;
            && c'.entries == s.c.entries[cacheKey := s.next]
            && c'.order == s.c.order + (if cacheKey in s.c.entries then [] else [cacheKey])
  {
    SetReplaces(s.c, cacheKey, s.next, s.keysFor(cacheKey));
    WithoutNone(s.c.order, {});
    hide Agree, Set, Without;
  }
}
