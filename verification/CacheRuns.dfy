/** Whole runs of the client-side cache: loads started, joined and completed, evictions, expiry and
    invalidations in any order (packages/client/lib/client/cache.ts:712-794, 817-951). */
module CacheRuns {
  import opened CacheSpec
  import opened Collections

  /** `issued` is when the request behind an entry was sent, `home` the cache key it was created for;
      `values` are the value entries, the others are promises. `loads` are the calls that may still
      complete, `invalidatedAt` the last invalidation of each Redis key, `touched` when each cache key
      was inserted or, under LRU, last hit. The cache key determines the Redis keys. */
  datatype System = System(
    c: Cache,
    keysFor: Key -> seq<Key>,
    now: nat,
    next: nat,
    issued: map<nat, nat>,
    home: map<nat, Key>,
    values: set<nat>,
    loads: set<(Key, nat)>,
    invalidatedAt: map<Key, nat>,
    touched: map<Key, nat>)

  datatype Completion = Failed(owner: bool) | NotStorable | Storable

  datatype Op =
    | Call(cacheKey: Key, expired: bool)
    | Complete(cacheKey: Key, entry: nat, result: Completion, expired: bool)
    | Remove(cacheKey: Key)
    | InvalidateKey(key: Key)
    | ClearAll

  function Init(maxEntries: nat, lru: bool, keysFor: Key -> seq<Key>): System {
    System(Empty(maxEntries, lru), keysFor, 0, 0, map[], map[], {}, {}, map[], map[])
  }

  predicate Legal(s: System, op: Op) { op.Complete? ==> (op.cacheKey, op.entry) in s.loads }

  predicate Validate(s: System, entry: nat, expired: bool) { entry !in s.c.invalidated && !expired }

  // A new entry under `cacheKey`, whose data was requested at `issuedAt`.
  function Store(s: System, cacheKey: Key, issuedAt: nat): System {
    s.(c := Set(s.c, cacheKey, s.next, s.keysFor(cacheKey)), next := s.next + 1,
       issued := s.issued[s.next := issuedAt], home := s.home[s.next := cacheKey],
       touched := if cacheKey in s.c.entries then s.touched else s.touched[cacheKey := s.now])
  }

  /** The first segment of `handleCache`: a hit, a waiter that joins a pending load, or a new load. */
  function StartCall(s: System, cacheKey: Key, expired: bool): System {
    var (c, found) := Get(s.c, cacheKey, expired);
    var s' := s.(c := c, touched := if found.Some? && s.c.lru then s.touched[cacheKey := s.now] else s.touched);
    if found.None? then Store(s', cacheKey, s.now).(loads := s.loads + {(cacheKey, s.next)})
    else if found.value in s.values then s'
    else s'.(loads := s.loads + {(cacheKey, found.value)})
  }

  /** The second segment, once the reply is there. Any number of waiters may complete. */
  function CompleteCall(s: System, cacheKey: Key, entry: nat, result: Completion, expired: bool): System {
    if !Validate(s, entry, expired) then s
    else
      match result
      case Failed(owner) => if owner then s.(c := Delete(s.c, cacheKey)) else s
      case NotStorable => s.(c := Delete(s.c, cacheKey))
      case Storable =>
        var s' := Store(s, cacheKey, if entry in s.issued then s.issued[entry] else s.now);
        s'.(values := s.values + {s.next})
  }

  function Step(s: System, op: Op): System {
    var s' :=
      match op
      case Call(cacheKey, expired) => StartCall(s, cacheKey, expired)
      case Complete(cacheKey, entry, result, expired) => CompleteCall(s, cacheKey, entry, result, expired)
      case Remove(cacheKey) => s.(c := Delete(s.c, cacheKey))
      case InvalidateKey(key) => s.(c := Invalidate(s.c, key), invalidatedAt := s.invalidatedAt[key := s.now])
      case ClearAll => s.(c := Clear(s.c));
    s'.(now := s.now + 1)
  }

  function Run(s: System, ops: seq<Op>): System
    decreases |ops|
  {
    if ops == [] then s else Run(Step(s, ops[0]), ops[1..])
  }

  predicate LegalRun(s: System, ops: seq<Op>)
    decreases |ops|
  {
    ops == [] || (Legal(s, ops[0]) && LegalRun(Step(s, ops[0]), ops[1..]))
  }

  // ---------------------------------------------------------------- what removal does to entries

  // The entries of `gone` leave, and are marked; the others keep their order.
  ghost predicate Removed(c: Cache, c': Cache, gone: set<Key>) {
    && c'.entries == c.entries - gone && c'.keysOf == c.keysOf - gone && c'.order == Without(c.order, gone)
    && c'.invalidated == c.invalidated + (set k | k in gone && k in c.entries :: c.entries[k])
    && c'.maxEntries == c.maxEntries && c'.lru == c.lru
  }

  // So do those of `gone` and the old entry of `cacheKey`, which gets a new one.
  ghost predicate Replaced(c: Cache, c': Cache, gone: set<Key>, cacheKey: Key, entry: nat, keys: seq<Key>) {
    && cacheKey !in gone
    && c'.entries == (c.entries - gone)[cacheKey := entry] && c'.keysOf == (c.keysOf - gone)[cacheKey := keys]
    && c'.order == Without(c.order, gone) + (if cacheKey in c.entries then [] else [cacheKey])
    && c'.invalidated == c.invalidated + set k | k in gone + {cacheKey} && k in c.entries :: c.entries[k]
  }

  // The keys that `set` evicts for `cacheKey`.
  function Evicted(c: Cache, cacheKey: Key): set<Key> {
    if cacheKey !in c.entries && 0 < c.maxEntries <= |c.order| then {c.order[0]} else {}
  }

  lemma DeleteRemoves(c: Cache, cacheKey: Key)
    requires Agree(c)
    ensures Removed(c, Delete(c, cacheKey), {cacheKey})
  {
    hide Indexed, Drop, Without;
    if cacheKey !in c.entries { WithoutNone(c.order, {cacheKey}); }
    assert cacheKey !in c.keysOf ==> c.keysOf - {cacheKey} == c.keysOf && c.entries - {cacheKey} == c.entries;
  }

  lemma InvalidateRemoves(c: Cache, key: Key)
    requires Agree(c)
    ensures Removed(c, Invalidate(c, key), if key in c.index then c.index[key] else {})
  {
    hide Indexed, Purge, Without;
    WithoutNone(c.order, {});
    assert c.entries - {} == c.entries && c.keysOf - {} == c.keysOf;
  }

  lemma SetReplaces(c: Cache, cacheKey: Key, entry: nat, keys: seq<Key>)
    requires Agree(c)
    ensures Replaced(c, Set(c, cacheKey, entry, keys), Evicted(c, cacheKey), cacheKey, entry, keys)
  {
    hide Indexed, Drop, Enter, Without, Delete;
    if cacheKey !in c.entries && 0 < c.maxEntries <= |c.order| {
      DeleteRemoves(c, c.order[0]);
    } else {
      WithoutNone(c.order, {});
      assert c.entries - {} == c.entries && c.keysOf - {} == c.keysOf;
      assert (c.keysOf - {cacheKey})[cacheKey := keys] == c.keysOf[cacheKey := keys];
    }
  }

  // ---------------------------------------------------------------- what holds in every run

  // What is known of every entry: when its data was requested, and where it belongs.
  ghost predicate Known(s: System) {
    && s.issued.Keys == s.home.Keys
    && (forall e <- s.issued :: e < s.next && s.issued[e] < s.now)
    && (forall e <- s.c.invalidated :: e in s.issued)
    && (forall k <- s.c.entries :: s.c.entries[k] in s.home && s.home[s.c.entries[k]] == k)
    && (forall k <- s.c.entries :: s.c.entries[k] !in s.c.invalidated)
    && (forall k <- s.c.keysOf :: s.c.keysOf[k] == s.keysFor(k))
    && (forall l <- s.loads :: l.1 in s.home && s.home[l.1] == l.0)
    && (forall k <- s.invalidatedAt :: s.invalidatedAt[k] < s.now)
  }

  // The map holds its keys in the order in which they were last touched.
  ghost predicate Sorted(order: seq<Key>, touched: map<Key, nat>, now: nat) {
    && (forall k <- order :: k in touched && touched[k] < now)
    && (forall i, j :: 0 <= i < j < |order| ==> touched[order[i]] < touched[order[j]])
  }

  /** What holds in every run: the maps agree, the entries are known, the oldest key is first. */
  ghost predicate Tracked(s: System) {
    Agree(s.c) && Known(s) && Sorted(s.c.order, s.touched, s.now)
  }

  // An entry not marked invalidated is the one under its cache key, and nothing it depends on was
  // invalidated since its data was requested.
  ghost predicate Current(s: System, entry: nat) {
    && entry in s.issued && entry in s.home
    && s.home[entry] in s.c.entries && s.c.entries[s.home[entry]] == entry
    && Unspoilt(s, s.home[entry], s.issued[entry])
  }

  ghost predicate Unspoilt(s: System, cacheKey: Key, since: nat) {
    forall k <- s.keysFor(cacheKey) :: k in s.invalidatedAt ==> s.invalidatedAt[k] < since
  }

  /** What `clear` may break: every stored entry is current, and so is every load that may still store. */
  ghost predicate Fresh(s: System) {
    && (forall k <- s.c.entries :: Current(s, s.c.entries[k]))
    && (forall l <- s.loads :: Endangered(s, l) ==> Current(s, l.1))
  }

  // The load may still store what it fetches.
  predicate Pending(s: System, l: (Key, nat)) { l in s.loads && l.1 !in s.c.invalidated }

  // And that depends on a key which may be invalidated.
  predicate Endangered(s: System, l: (Key, nat)) { Pending(s, l) && s.keysFor(l.0) != [] }

  function Tick(s: System): System { s.(now := s.now + 1) }

  lemma {:induction false} WithoutSorted(order: seq<Key>, gone: set<Key>, touched: map<Key, nat>, now: nat)
    requires Sorted(order, touched, now) && Distinct(order)
    ensures Sorted(Without(order, gone), touched, now)
    decreases |order|
  {
    if order != [] {
      var init, last := order[..|order| - 1], order[|order| - 1];
      WithoutSorted(init, gone, touched, now);
      WithoutMembers(init, gone);
      forall k <- init ensures touched[k] < touched[last] {
        var i :| 0 <= i < |init| && init[i] == k;
        assert order[i] == k;
      }
    }
  }

  lemma SortedAppend(order: seq<Key>, touched: map<Key, nat>, now: nat, k: Key)
    requires Sorted(order, touched, now) && k !in order
    ensures Sorted(order + [k], touched[k := now], now + 1)
  {
    assert forall x <- order :: x != k;
  }

  // ---------------------------------------------------------------- removing and storing

  lemma RemovedKnown(s: System, c': Cache, gone: set<Key>)
    requires Known(s) && Removed(s.c, c', gone)
    ensures Known(s.(c := c')) && Known(Tick(s.(c := c')))
    ensures Fresh(s) ==> Fresh(s.(c := c')) && Fresh(Tick(s.(c := c')))
  {
    hide Without;
    forall k <- c'.entries ensures c'.entries[k] !in c'.invalidated {
      assert s.home[s.c.entries[k]] == k;
    }
  }

  lemma RemovedTracks(s: System, c': Cache, gone: set<Key>)
    requires Tracked(s) && Agree(c') && Removed(s.c, c', gone)
    ensures Tracked(s.(c := c')) && Tracked(Tick(s.(c := c')))
    ensures Fresh(s) ==> Fresh(s.(c := c')) && Fresh(Tick(s.(c := c')))
  {
    AgreeDistinct(s.c);
    hide Agree, Without, Known, Fresh;
    RemovedKnown(s, c', gone);
    WithoutSorted(s.c.order, gone, s.touched, s.now);
  }

  lemma AgreeDistinct(c: Cache)
    requires Agree(c)
    ensures Distinct(c.order) && forall k :: k in c.order <==> k in c.entries
  {
  }

  // A new entry replaces that of its key, and those of `gone`.
  lemma ReplacedKnown(s: System, c': Cache, gone: set<Key>, cacheKey: Key)
    requires Known(s) && Replaced(s.c, c', gone, cacheKey, s.next, s.keysFor(cacheKey))
    ensures forall e <- c'.invalidated :: e in s.issued
    ensures forall k <- c'.entries :: k == cacheKey || (k in s.c.entries && c'.entries[k] == s.c.entries[k])
    ensures c'.entries[cacheKey] == s.next
    ensures forall k <- c'.entries :: c'.entries[k] !in c'.invalidated
    ensures forall k <- c'.keysOf :: c'.keysOf[k] == s.keysFor(k)
  {
    hide Without;
    forall k <- c'.entries ensures c'.entries[k] !in c'.invalidated {
      if k != cacheKey { assert s.home[s.c.entries[k]] == k; }
    }
  }

  lemma StoreKnown(s: System, gone: set<Key>, cacheKey: Key, issuedAt: nat)
    requires Known(s) && issuedAt <= s.now
    requires Replaced(s.c, Set(s.c, cacheKey, s.next, s.keysFor(cacheKey)), gone, cacheKey, s.next, s.keysFor(cacheKey))
    ensures Known(Tick(Store(s, cacheKey, issuedAt)))
  {
    hide Set, Replaced;
    ReplacedKnown(s, Set(s.c, cacheKey, s.next, s.keysFor(cacheKey)), gone, cacheKey);
  }

  lemma StoreTracks(s: System, cacheKey: Key, issuedAt: nat)
    requires Tracked(s) && issuedAt <= s.now
    ensures Tracked(Tick(Store(s, cacheKey, issuedAt)))
  {
    hide Agree, Without, Set, Known, Evicted;
    AgreeDistinct(s.c);
    var gone := Evicted(s.c, cacheKey);
    SetReplaces(s.c, cacheKey, s.next, s.keysFor(cacheKey));
    SetAgrees(s.c, cacheKey, s.next, s.keysFor(cacheKey));
    var s' := Tick(Store(s, cacheKey, issuedAt));
    StoreKnown(s, gone, cacheKey, issuedAt);
    WithoutSorted(s.c.order, gone, s.touched, s.now);
    WithoutMembers(s.c.order, gone);
    if cacheKey !in s.c.entries { SortedAppend(Without(s.c.order, gone), s.touched, s.now, cacheKey); }
  }

  lemma StoreFresh(s: System, cacheKey: Key, issuedAt: nat)
    requires Tracked(s) && issuedAt <= s.now
    requires Fresh(s) && Unspoilt(s, cacheKey, issuedAt)
    ensures Fresh(Tick(Store(s, cacheKey, issuedAt)))
  {
    hide Indexed, Without, Set, Evicted;
    SetReplaces(s.c, cacheKey, s.next, s.keysFor(cacheKey));
    var s' := Tick(Store(s, cacheKey, issuedAt));
    PendingStaysCurrent(s, cacheKey, issuedAt, Evicted(s.c, cacheKey));
    forall k <- s'.c.entries ensures Current(s', s'.c.entries[k]) {
      if k != cacheKey { assert Current(s, s.c.entries[k]); }
    }
  }

  lemma PendingStaysCurrent(s: System, cacheKey: Key, issuedAt: nat, gone: set<Key>)
    requires Known(s) && Fresh(s)
    requires Replaced(s.c, Set(s.c, cacheKey, s.next, s.keysFor(cacheKey)), gone, cacheKey, s.next, s.keysFor(cacheKey))
    ensures var s' := Tick(Store(s, cacheKey, issuedAt)); forall l <- s'.loads :: Endangered(s', l) ==> Current(s', l.1)
  {
    hide Indexed, Without, Set;
    var s' := Tick(Store(s, cacheKey, issuedAt));
    forall l <- s'.loads | Endangered(s', l) ensures Current(s', l.1) {
      assert Endangered(s, l) && Current(s, l.1);
    }
  }

  // ---------------------------------------------------------------- one step

  lemma AddLoad(s: System, cacheKey: Key, entry: nat)
    requires Tracked(s) && entry in s.home && s.home[entry] == cacheKey
    ensures Tracked(s.(loads := s.loads + {(cacheKey, entry)}))
    ensures Fresh(s) && cacheKey in s.c.entries && s.c.entries[cacheKey] == entry ==>
      Fresh(s.(loads := s.loads + {(cacheKey, entry)}))
  {
    hide Agree, Sorted;
  }

  // Nothing but the order, the clock and the touch times changes.
  lemma ReorderedKnown(s: System, order: seq<Key>, touched: map<Key, nat>)
    requires Known(s)
    ensures Known(Tick(s.(c := s.c.(order := order), touched := touched)))
    ensures Fresh(s) ==> Fresh(Tick(s.(c := s.c.(order := order), touched := touched)))
  {
  }

  // A hit: under LRU the key becomes the newest.
  lemma HitTracks(s: System, cacheKey: Key, s': System)
    requires Tracked(s) && cacheKey in s.c.entries && s.c.entries[cacheKey] !in s.c.invalidated
    requires s' == Tick(s.(c := Get(s.c, cacheKey, false).0,
                           touched := if s.c.lru then s.touched[cacheKey := s.now] else s.touched))
    ensures Tracked(s') && (Fresh(s) ==> Fresh(s'))
  {
    hide Agree, Without, Known, Fresh, Sorted, Delete;
    GetAgrees(s.c, cacheKey, false);
    HitSorted(s, cacheKey);
    var order := if s.c.lru then Without(s.c.order, {cacheKey}) + [cacheKey] else s.c.order;
    ReorderedKnown(s, order, s'.touched);
    assert Get(s.c, cacheKey, false).0 == s.c.(order := order);
  }

  lemma HitSorted(s: System, cacheKey: Key)
    requires Tracked(s) && cacheKey in s.c.entries
    ensures Sorted(s.c.order, s.touched, s.now + 1)
    ensures Sorted(Without(s.c.order, {cacheKey}) + [cacheKey], s.touched[cacheKey := s.now], s.now + 1)
  {
    AgreeDistinct(s.c);
    hide Agree, Without, Known;
    WithoutMembers(s.c.order, {cacheKey});
    WithoutSorted(s.c.order, {cacheKey}, s.touched, s.now);
    SortedAppend(Without(s.c.order, {cacheKey}), s.touched, s.now, cacheKey);
  }

  // A miss: a promise entry is stored for a load issued now.
  lemma LoadTracks(s: System, cacheKey: Key)
    requires Tracked(s)
    ensures Tracked(Tick(Store(s, cacheKey, s.now).(loads := s.loads + {(cacheKey, s.next)})))
    ensures Fresh(s) ==> Fresh(Tick(Store(s, cacheKey, s.now).(loads := s.loads + {(cacheKey, s.next)})))
  {
    hide Known, Agree, Sorted, Fresh, Set, Unspoilt;
    KnownNow(s, cacheKey);
    StoreTracks(s, cacheKey, s.now);
    if Fresh(s) { StoreFresh(s, cacheKey, s.now); }
    SetReplaces(s.c, cacheKey, s.next, s.keysFor(cacheKey));
    AddLoad(Tick(Store(s, cacheKey, s.now)), cacheKey, s.next);
  }

  lemma CallTracks(s: System, cacheKey: Key, expired: bool)
    requires Tracked(s)
    ensures Tracked(Step(s, Call(cacheKey, expired)))
    ensures Fresh(s) ==> Fresh(Step(s, Call(cacheKey, expired)))
  {
    hide Known, Agree, Sorted, Fresh, Unspoilt, Set, Without;
    KnownNow(s, cacheKey);
    var found := Get(s.c, cacheKey, expired).1;
    if found.Some? {
      var s' := Tick(s.(c := Get(s.c, cacheKey, expired).0,
                        touched := if s.c.lru then s.touched[cacheKey := s.now] else s.touched));
      HitTracks(s, cacheKey, s');
      AddLoad(s', cacheKey, found.value);
    } else {
      DeleteTracks(s, cacheKey);
      LoadTracks(s.(c := Get(s.c, cacheKey, expired).0), cacheKey);
    }
  }

  lemma KnownNow(s: System, cacheKey: Key)
    requires Tracked(s)
    ensures Unspoilt(s, cacheKey, s.now)
    ensures cacheKey in s.c.entries ==>
      s.c.entries[cacheKey] in s.home && s.home[s.c.entries[cacheKey]] == cacheKey
  {
  }

  lemma StorableTracks(s: System, cacheKey: Key, entry: nat)
    requires Tracked(s) && (cacheKey, entry) in s.loads && entry !in s.c.invalidated
    ensures Tracked(Tick(CompleteCall(s, cacheKey, entry, Storable, false)))
    ensures Fresh(s) ==> Fresh(Tick(CompleteCall(s, cacheKey, entry, Storable, false)))
  {
    hide Agree, Known, Sorted, Unspoilt, Fresh, Store;
    LoadKnown(s, cacheKey, entry);
    StoreTracks(s, cacheKey, s.issued[entry]);
    if Fresh(s) { StoreFresh(s, cacheKey, s.issued[entry]); }
    ValuesTrack(Tick(Store(s, cacheKey, s.issued[entry])), s.values + {s.next});
  }

  lemma DeleteTracks(s: System, cacheKey: Key)
    requires Tracked(s)
    ensures Tracked(s.(c := Delete(s.c, cacheKey))) && Tracked(Step(s, Remove(cacheKey)))
    ensures Fresh(s) ==> Fresh(s.(c := Delete(s.c, cacheKey))) && Fresh(Step(s, Remove(cacheKey)))
  {
    hide Agree, Known, Sorted, Fresh, Removed, Delete;
    DeleteRemoves(s.c, cacheKey);
    DeleteAgrees(s.c, cacheKey);
    RemovedTracks(s, Delete(s.c, cacheKey), {cacheKey});
  }

  lemma CompleteTracks(s: System, cacheKey: Key, entry: nat, result: Completion, expired: bool)
    requires Tracked(s) && (cacheKey, entry) in s.loads
    ensures Tracked(Step(s, Complete(cacheKey, entry, result, expired)))
    ensures Fresh(s) ==> Fresh(Step(s, Complete(cacheKey, entry, result, expired)))
  {
    hide Tracked, Fresh, Set;
    IdleTracks(s);
    DeleteTracks(s, cacheKey);
    if Validate(s, entry, expired) && result.Storable? { StorableTracks(s, cacheKey, entry); }
  }

  lemma IdleTracks(s: System)
    requires Tracked(s)
    ensures Tracked(Tick(s)) && (Fresh(s) ==> Fresh(Tick(s)))
  {
    hide Agree;
  }

  lemma ValuesTrack(s: System, values: set<nat>)
    requires Tracked(s)
    ensures Tracked(s.(values := values)) && (Fresh(s) ==> Fresh(s.(values := values)))
  {
    hide Agree;
  }

  lemma LoadKnown(s: System, cacheKey: Key, entry: nat)
    requires Tracked(s) && (cacheKey, entry) in s.loads
    ensures entry in s.issued && s.issued[entry] <= s.now
    ensures Fresh(s) && entry !in s.c.invalidated ==> Unspoilt(s, cacheKey, s.issued[entry])
  {
    assert Fresh(s) && Endangered(s, (cacheKey, entry)) ==> Current(s, entry);
  }

  // The index leads to every entry that depends on the key.
  lemma IndexFinds(s: System, key: Key, gone: set<Key>)
    requires Tracked(s) && gone == if key in s.c.index then s.c.index[key] else {}
    ensures forall cacheKey <- Invalidate(s.c, key).entries :: key !in s.keysFor(cacheKey)
  {
    hide Without, Purge;
    forall cacheKey <- s.c.entries | key in s.keysFor(cacheKey) ensures cacheKey in gone {
      assert Lists(s.c.keysOf, cacheKey, key);
      assert Leads(s.c.index, key, cacheKey);
    }
  }

  lemma NoteInvalidation(s: System, key: Key)
    requires Tracked(s) && forall cacheKey <- s.c.entries :: key !in s.keysFor(cacheKey)
    ensures Tracked(Tick(s.(invalidatedAt := s.invalidatedAt[key := s.now])))
    ensures Fresh(s) ==> Fresh(Tick(s.(invalidatedAt := s.invalidatedAt[key := s.now])))
  {
    hide Agree;
  }

  // Everything stored for the key goes, so no entry that stays depends on it.
  lemma InvalidateTracks(s: System, key: Key)
    requires Tracked(s)
    ensures Tracked(Step(s, InvalidateKey(key)))
    ensures Fresh(s) ==> Fresh(Step(s, InvalidateKey(key)))
  {
    hide Agree, Known, Sorted, Fresh, Invalidate, Removed;
    InvalidateRemoves(s.c, key);
    InvalidateAgrees(s.c, key);
    IndexFinds(s, key, if key in s.c.index then s.c.index[key] else {});
    RemovedTracks(s, Invalidate(s.c, key), if key in s.c.index then s.c.index[key] else {});
    NoteInvalidation(s.(c := Invalidate(s.c, key)), key);
  }

  // The caller's side of `clear`: no load that depends on a Redis key may still store.
  predicate Calm(s: System) { forall l <- s.loads :: !Endangered(s, l) }

  lemma ClearTracks(s: System)
    requires Tracked(s)
    ensures Tracked(Step(s, ClearAll))
    ensures Calm(s) ==> Fresh(Step(s, ClearAll))
  {
    ClearAgrees(s.c);
    hide Agree;
    assert forall l :: Endangered(Step(s, ClearAll), l) <==> Endangered(s, l);
  }

  lemma StepTracks(s: System, op: Op)
    requires Tracked(s) && Legal(s, op)
    ensures Tracked(Step(s, op))
    ensures Fresh(s) && (op == ClearAll ==> Calm(s)) ==> Fresh(Step(s, op))
  {
    hide Tracked, Fresh, Step;
    match op
    case Call(cacheKey, expired) => CallTracks(s, cacheKey, expired);
    case Complete(cacheKey, entry, result, expired) => CompleteTracks(s, cacheKey, entry, result, expired);
    case Remove(cacheKey) => DeleteTracks(s, cacheKey);
    case InvalidateKey(key) => InvalidateTracks(s, key);
    case ClearAll => ClearTracks(s);
  }

  // ---------------------------------------------------------------- whole runs

  // Every `clear` of the run finds the cache calm.
  ghost predicate ClearsWhenCalm(s: System, ops: seq<Op>)
    decreases |ops|
  {
    ops == [] || ((ops[0] == ClearAll ==> Calm(s)) && ClearsWhenCalm(Step(s, ops[0]), ops[1..]))
  }

  lemma {:induction false} RunTracks(s: System, ops: seq<Op>)
    requires Tracked(s) && LegalRun(s, ops)
    ensures Tracked(Run(s, ops))
    ensures Fresh(s) && ClearsWhenCalm(s, ops) ==> Fresh(Run(s, ops))
    decreases |ops|
  {
    if ops != [] {
      hide Tracked, Fresh, Step, Legal, Calm;
      StepTracks(s, ops[0]);
      RunTracks(Step(s, ops[0]), ops[1..]);
    }
  }

  /** In every run the three maps agree, and the cache is never larger than it may be. */
  lemma RunsKeepTheMapsInAgreement(maxEntries: nat, lru: bool, keysFor: Key -> seq<Key>, ops: seq<Op>)
    requires LegalRun(Init(maxEntries, lru, keysFor), ops)
    ensures Agree(Run(Init(maxEntries, lru, keysFor), ops).c)
  {
    RunTracks(Init(maxEntries, lru, keysFor), ops);
  }

  // Some stored entry depends on a key that was invalidated after its data was requested.
  ghost predicate Stale(s: System, cacheKey: Key, key: Key) {
    && cacheKey in s.c.entries && key in s.keysFor(cacheKey) && key in s.invalidatedAt
    && (s.c.entries[cacheKey] in s.issued ==> s.issued[s.c.entries[cacheKey]] <= s.invalidatedAt[key])
  }

  /** In every run whose `clear`s find no pending load that depends on a key, what is stored was requested
      after the last invalidation of each key it depends on. */
  lemma NothingStaleIsStored(maxEntries: nat, lru: bool, keysFor: Key -> seq<Key>, ops: seq<Op>)
    requires LegalRun(Init(maxEntries, lru, keysFor), ops) && ClearsWhenCalm(Init(maxEntries, lru, keysFor), ops)
    ensures forall cacheKey, key :: !Stale(Run(Init(maxEntries, lru, keysFor), ops), cacheKey, key)
  {
    FreshIsNeverStale(Init(maxEntries, lru, keysFor));
  }

  lemma {:induction false} WithoutClear(s: System, ops: seq<Op>)
    requires ClearAll !in ops
    ensures ClearsWhenCalm(s, ops)
    decreases |ops|
  {
    if ops != [] { WithoutClear(Step(s, ops[0]), ops[1..]); }
  }

  /** So nothing stale is stored in any run without `clear`. */
  lemma NothingStaleWithoutClear(maxEntries: nat, lru: bool, keysFor: Key -> seq<Key>, ops: seq<Op>)
    requires LegalRun(Init(maxEntries, lru, keysFor), ops) && ClearAll !in ops
    ensures forall cacheKey, key :: !Stale(Run(Init(maxEntries, lru, keysFor), ops), cacheKey, key)
  {
    WithoutClear(Init(maxEntries, lru, keysFor), ops);
    NothingStaleIsStored(maxEntries, lru, keysFor, ops);
  }

  /** One call reaches a state with a pending load. */
  lemma CallIsPending(maxEntries: nat, lru: bool, keysFor: Key -> seq<Key>, cacheKey: Key, expired: bool)
    ensures var s := Step(Init(maxEntries, lru, keysFor), Call(cacheKey, expired));
            Tracked(s) && Fresh(s) && Pending(s, (cacheKey, 0))
  {
    CallTracks(Init(maxEntries, lru, keysFor), cacheKey, expired);
  }

  /** A `clear` during a load lets it store what was invalidated since: it empties the maps without
      marking their entries. */
  lemma ClearDuringALoadStoresStale(s: System, cacheKey: Key, entry: nat, key: Key)
    requires Tracked(s) && Pending(s, (cacheKey, entry)) && key in s.keysFor(cacheKey)
    ensures var ops := [ClearAll, InvalidateKey(key), Complete(cacheKey, entry, Storable, false)];
            LegalRun(s, ops) && Stale(Run(s, ops), cacheKey, key)
  {
    LoadKnown(s, cacheKey, entry);
    assert entry < s.next && s.issued[entry] < s.now;
    hide Tracked;
    StoresAfterClear(s, cacheKey, entry, key);
    RunOfThree(s, ClearAll, InvalidateKey(key), Complete(cacheKey, entry, Storable, false));
  }

  // Whatever comes next, without another such `clear`, nothing stale is stored.
  ghost predicate NeverStale(s: System) {
    forall ops, cacheKey, key | LegalRun(s, ops) && ClearsWhenCalm(s, ops) :: !Stale(Run(s, ops), cacheKey, key)
  }

  lemma FreshIsNeverStale(s: System)
    requires Tracked(s) && Fresh(s)
    ensures NeverStale(s)
  {
    forall ops, cacheKey, key | LegalRun(s, ops) && ClearsWhenCalm(s, ops)
      ensures !Stale(Run(s, ops), cacheKey, key)
    {
      RunTracks(s, ops);
      if cacheKey in Run(s, ops).c.entries { assert Current(Run(s, ops), Run(s, ops).c.entries[cacheKey]); }
    }
  }

  /** In every state that such runs reach, a `clear` is harmless exactly when no load that depends on a
      Redis key is pending. */
  lemma ClearIsHarmlessExactlyWhenCalm(s: System)
    requires Tracked(s) && Fresh(s)
    ensures NeverStale(Step(s, ClearAll)) <==> Calm(s)
  {
    if Calm(s) {
      ClearTracks(s);
      FreshIsNeverStale(Step(s, ClearAll));
    } else {
      var l :| l in s.loads && Endangered(s, l);
      var key := s.keysFor(l.0)[0];
      var ops := [InvalidateKey(key), Complete(l.0, l.1, Storable, false)];
      ClearDuringALoadStoresStale(s, l.0, l.1, key);
      assert [ClearAll, InvalidateKey(key), Complete(l.0, l.1, Storable, false)][1..] == ops;
      WithoutClear(Step(s, ClearAll), ops);
      hide Stale, Step;
      assert LegalRun(Step(s, ClearAll), ops) && Stale(Run(Step(s, ClearAll), ops), l.0, key);
    }
  }

  lemma StoresAfterClear(s: System, cacheKey: Key, entry: nat, key: Key)
    requires Pending(s, (cacheKey, entry)) && entry in s.issued && entry < s.next && s.issued[entry] < s.now
    ensures var s2 := Step(Step(s, ClearAll), InvalidateKey(key));
            var s3 := Step(s2, Complete(cacheKey, entry, Storable, false));
            && s2.loads == s.loads && cacheKey in s3.c.entries && s3.c.entries[cacheKey] == s.next
            && s3.issued == s.issued[s.next := s.issued[entry]] && s3.keysFor == s.keysFor
            && key in s3.invalidatedAt && s3.invalidatedAt[key] == s.now + 1
  {
    var s2 := Step(Step(s, ClearAll), InvalidateKey(key));
    assert s2.c == Clear(s.c);
  }

  lemma RunOfThree(s: System, a: Op, b: Op, c: Op)
    ensures Run(s, [a, b, c]) == Step(Step(Step(s, a), b), c)
    ensures LegalRun(s, [a, b, c]) <==>
      Legal(s, a) && Legal(Step(s, a), b) && Legal(Step(Step(s, a), b), c)
  {
    hide Step, Legal;
    var s1 := Step(s, a);
    var s2 := Step(s1, b);
    assert [a, b, c][1..] == [b, c] && [b, c][1..] == [c] && [c][1..] == [];
    assert LegalRun(Step(s2, c), []) && Run(Step(s2, c), []) == Step(s2, c);
    assert Run(s2, [c]) == Step(s2, c) && LegalRun(s2, [c]) == Legal(s2, c);
    assert Run(s1, [b, c]) == Run(s2, [c]) && LegalRun(s1, [b, c]) == (Legal(s1, b) && LegalRun(s2, [c]));
  }

  /** In every run, a cache that is full evicts exactly one key for a new one: the one touched longest
      ago, where touching is inserting and, under LRU, hitting. */
  lemma TheOldestIsEvicted(maxEntries: nat, lru: bool, keysFor: Key -> seq<Key>, ops: seq<Op>, cacheKey: Key, issuedAt: nat)
    requires LegalRun(Init(maxEntries, lru, keysFor), ops)
    requires var s := Run(Init(maxEntries, lru, keysFor), ops);
             cacheKey !in s.c.entries && 0 < s.c.maxEntries <= |s.c.order|
    ensures var s := Run(Init(maxEntries, lru, keysFor), ops);
            var victim := s.c.order[0];
            && Store(s, cacheKey, issuedAt).c.entries.Keys == s.c.entries.Keys - {victim} + {cacheKey}
            && victim in s.c.entries && victim in s.touched
            && forall other <- s.c.entries :: other != victim ==> other in s.touched && s.touched[victim] < s.touched[other]
  {
    RunTracks(Init(maxEntries, lru, keysFor), ops);
    hide Run, LegalRun, Tracked, Store;
    FirstIsOldest(Run(Init(maxEntries, lru, keysFor), ops), cacheKey, issuedAt);
  }

  lemma FirstIsOldest(s: System, cacheKey: Key, issuedAt: nat)
    requires Tracked(s) && cacheKey !in s.c.entries && 0 < s.c.maxEntries <= |s.c.order|
    ensures var victim := s.c.order[0];
            && Store(s, cacheKey, issuedAt).c.entries.Keys == s.c.entries.Keys - {victim} + {cacheKey}
            && victim in s.c.entries && victim in s.touched
            && forall other <- s.c.entries :: other != victim ==> other in s.touched && s.touched[victim] < s.touched[other]
  {
    SetReplaces(s.c, cacheKey, s.next, s.keysFor(cacheKey));
    AgreeDistinct(s.c);
    hide Agree, Known, Set, Without;
    assert s.c.order[0] in s.c.order;
    forall other <- s.c.entries | other != s.c.order[0]
      ensures other in s.touched && s.touched[s.c.order[0]] < s.touched[other]
    {
      var i :| 0 <= i < |s.c.order| && s.c.order[i] == other;
    }
  }
}
