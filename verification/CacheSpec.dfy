/** What each operation of `BasicClientSideCache` does to its three maps
    (packages/client/lib/client/cache.ts:817-951, 980-992). */
module CacheSpec {
  import opened Collections

  type Key = string

  /** `order` is the insertion order of the entry map. Entries are numbered; `invalidated` holds the
      ones whose flag is set, whether or not they are still in the map. */
  datatype Cache = Cache(
    maxEntries: nat,
    lru: bool,
    order: seq<Key>,
    entries: map<Key, nat>,
    keysOf: map<Key, seq<Key>>,
    index: map<Key, set<Key>>,
    invalidated: set<nat>)

  function Empty(maxEntries: nat, lru: bool): Cache { Cache(maxEntries, lru, [], map[], map[], map[], {}) }

  function Without(order: seq<Key>, gone: set<Key>): seq<Key> {
    if order == [] then []
    else Without(order[..|order| - 1], gone) + (if order[|order| - 1] in gone then [] else [order[|order| - 1]])
  }

  function Drop(index: map<Key, set<Key>>, keys: seq<Key>, cacheKey: Key): map<Key, set<Key>> {
    map k | k in index && (k in keys ==> index[k] - {cacheKey} != {}) ::
      if k in keys then index[k] - {cacheKey} else index[k]
  }

  function Enter(index: map<Key, set<Key>>, keys: seq<Key>, cacheKey: Key): map<Key, set<Key>> {
    map k | k in index.Keys + (set x <- keys) ::
      (if k in index then index[k] else {}) + (if k in keys then {cacheKey} else {})
  }

  /** `#deleteFromKeyIndex` */
  function Unindex(c: Cache, cacheKey: Key): Cache {
    if cacheKey !in c.keysOf then c
    else c.(keysOf := c.keysOf - {cacheKey}, index := Drop(c.index, c.keysOf[cacheKey], cacheKey))
  }

  function Delete(c: Cache, cacheKey: Key): Cache {
    var c' := if cacheKey !in c.entries then c
              else c.(order := Without(c.order, {cacheKey}), entries := c.entries - {cacheKey},
                      invalidated := c.invalidated + {c.entries[cacheKey]});
    Unindex(c', cacheKey)
  }

  function DeleteOldest(c: Cache): Cache {
    if c.order == [] then c else Delete(c, c.order[0])
  }

  // What `set` does before it stores: the old entry is invalidated, a full cache makes room.
  function MakeRoom(c: Cache, cacheKey: Key): Cache {
    if cacheKey in c.entries then
      var c' := Unindex(c.(invalidated := c.invalidated + {c.entries[cacheKey]}), cacheKey);
      if c.maxEntries > 0 && |c.order| - 1 >= c.maxEntries then DeleteOldest(c') else c'
    else if c.maxEntries > 0 && |c.order| >= c.maxEntries then DeleteOldest(c)
    else c
  }

  function Set(c: Cache, cacheKey: Key, entry: nat, keys: seq<Key>): Cache {
    var c' := MakeRoom(c, cacheKey);
    c'.(order := if cacheKey in c'.entries then c'.order else c'.order + [cacheKey],
        entries := c'.entries[cacheKey := entry],
        keysOf := c'.keysOf[cacheKey := keys],
        index := Enter(c'.index, keys, cacheKey))
  }

  /** `get`, on an entry that is `expired` or not: one that fails validation is deleted, a hit becomes
      the newest under LRU. */
  function Get(c: Cache, cacheKey: Key, expired: bool): (Cache, Option<nat>) {
    if cacheKey !in c.entries then (c, None)
    else if c.entries[cacheKey] in c.invalidated || expired then (Delete(c, cacheKey), None)
    else (if c.lru then c.(order := Without(c.order, {cacheKey}) + [cacheKey]) else c, Some(c.entries[cacheKey]))
  }

  function Clear(c: Cache): Cache { c.(order := [], entries := map[], keysOf := map[], index := map[]) }

  /** `invalidate` of a key, on maps that agree: everything stored for it goes. */
  function Invalidate(c: Cache, key: Key): Cache {
    if key !in c.index then c
    else
      var gone := c.index[key];
      c.(order := Without(c.order, gone),
         entries := c.entries - gone,
         keysOf := c.keysOf - gone,
         index := Purge(c.index, key, gone),
         invalidated := c.invalidated + set k | k in gone && k in c.entries :: c.entries[k])
  }

  // The Redis key `k` leads to `cacheKey` in the index; `cacheKey` lists the Redis key `k`.
  predicate Leads(index: map<Key, set<Key>>, k: Key, cacheKey: Key) { k in index && cacheKey in index[k] }

  predicate Lists(keysOf: map<Key, seq<Key>>, cacheKey: Key, k: Key) { cacheKey in keysOf && k in keysOf[cacheKey] }

  /** The index and the key lists say the same, and no index set is empty. */
  ghost predicate Indexed(keysOf: map<Key, seq<Key>>, index: map<Key, set<Key>>) {
    && (forall k, cacheKey :: Leads(index, k, cacheKey) <==> Lists(keysOf, cacheKey, k))
    && (forall k <- index :: index[k] != {})
  }

  /** The three maps agree, and the cache is no larger than it may be. */
  ghost predicate Agree(c: Cache) {
    && Distinct(c.order)
    && (forall k :: k in c.order <==> k in c.entries)
    && c.keysOf.Keys == c.entries.Keys
    && Indexed(c.keysOf, c.index)
    && (c.maxEntries > 0 ==> |c.order| <= c.maxEntries)
  }

  lemma SetStores(c: Cache, cacheKey: Key, entry: nat, keys: seq<Key>)
    ensures var c' := Set(c, cacheKey, entry, keys);
            cacheKey in c'.entries && c'.entries[cacheKey] == entry && c.invalidated <= c'.invalidated
  {
  }

  // What is not stored is in none of the maps.
  lemma AbsentEverywhere(c: Cache, cacheKey: Key)
    requires Agree(c) && cacheKey !in c.entries
    ensures cacheKey !in c.order && cacheKey !in c.keysOf && forall k <- c.index :: cacheKey !in c.index[k]
  {
    forall k <- c.index ensures cacheKey !in c.index[k] {
      assert Leads(c.index, k, cacheKey) <==> Lists(c.keysOf, cacheKey, k);
    }
  }

  lemma DropIndexed(keysOf: map<Key, seq<Key>>, index: map<Key, set<Key>>, cacheKey: Key)
    requires Indexed(keysOf, index) && cacheKey in keysOf
    ensures Indexed(keysOf - {cacheKey}, Drop(index, keysOf[cacheKey], cacheKey))
  {
    var keysOf', index' := keysOf - {cacheKey}, Drop(index, keysOf[cacheKey], cacheKey);
    forall k, c ensures Leads(index', k, c) <==> Lists(keysOf', c, k) {
      assert Leads(index, k, c) <==> Lists(keysOf, c, k);
      if Leads(index, k, c) && c != cacheKey { assert c in index[k] - {cacheKey}; }
      assert Leads(index', k, c) <==> Leads(index, k, c) && !(k in keysOf[cacheKey] && c == cacheKey);
    }
    forall k <- index' ensures index'[k] != {} {
      if k !in keysOf[cacheKey] { assert index'[k] == index[k]; }
    }
  }

  lemma EnterIndexed(keysOf: map<Key, seq<Key>>, index: map<Key, set<Key>>, cacheKey: Key, keys: seq<Key>)
    requires Indexed(keysOf, index) && cacheKey !in keysOf
    ensures Indexed(keysOf[cacheKey := keys], Enter(index, keys, cacheKey))
  {
    var index' := Enter(index, keys, cacheKey);
    forall k, c ensures Leads(index', k, c) <==> Lists(keysOf[cacheKey := keys], c, k) {
      assert Leads(index, k, c) <==> Lists(keysOf, c, k);
      assert Leads(index', k, c) <==> Leads(index, k, c) || (k in keys && c == cacheKey);
    }
    forall k <- index' ensures index'[k] != {} {
      if k in keys { assert cacheKey in index'[k]; }
    }
  }

  // The index without the entries of `gone`, all of those of one key.
  function Purge(index: map<Key, set<Key>>, key: Key, gone: set<Key>): map<Key, set<Key>> {
    map k | k in index && k != key && index[k] - gone != {} :: index[k] - gone
  }

  lemma PurgeIndexed(keysOf: map<Key, seq<Key>>, index: map<Key, set<Key>>, key: Key)
    requires Indexed(keysOf, index) && key in index
    ensures Indexed(keysOf - index[key], Purge(index, key, index[key]))
    ensures index[key] <= keysOf.Keys
  {
    var gone := index[key];
    var keysOf', index' := keysOf - gone, Purge(index, key, gone);
    forall k, c ensures Leads(index', k, c) <==> Lists(keysOf', c, k) {
      assert Leads(index, k, c) <==> Lists(keysOf, c, k);
      if Leads(index, k, c) && c !in gone { assert c in index[k] - gone; }
      assert Leads(index', k, c) <==> Leads(index, k, c) && c !in gone;
    }
    forall c <- gone ensures c in keysOf { assert Leads(index, key, c); }
  }

  lemma {:induction false} WithoutMembers(order: seq<Key>, gone: set<Key>)
    requires Distinct(order)
    ensures Distinct(Without(order, gone)) && |Without(order, gone)| <= |order|
    ensures forall k :: k in Without(order, gone) <==> k in order && k !in gone
    decreases |order|
  {
    if order != [] {
      var init, last := order[..|order| - 1], order[|order| - 1];
      WithoutMembers(init, gone);
      assert order == init + [last];
    }
  }

  lemma {:induction false} WithoutOne(order: seq<Key>, k: Key)
    requires Distinct(order) && k in order
    ensures |Without(order, {k})| == |order| - 1
    decreases |order|
  {
    var init, last := order[..|order| - 1], order[|order| - 1];
    assert order == init + [last];
    if last == k {
      WithoutNone(init, {k});
    } else {
      WithoutOne(init, k);
    }
  }

  lemma {:induction false} WithoutNone(order: seq<Key>, gone: set<Key>)
    requires forall k <- gone :: k !in order
    ensures Without(order, gone) == order
    decreases |order|
  {
    if order != [] {
      var init, last := order[..|order| - 1], order[|order| - 1];
      assert order == init + [last];
      WithoutNone(init, gone);
    }
  }

  lemma DeleteAgrees(c: Cache, cacheKey: Key)
    requires Agree(c)
    ensures Agree(Delete(c, cacheKey))
    ensures cacheKey in c.entries ==> |Delete(c, cacheKey).order| == |c.order| - 1
    ensures cacheKey !in Delete(c, cacheKey).keysOf
  {
    hide Indexed, Drop, Without;
    if cacheKey in c.entries {
      WithoutMembers(c.order, {cacheKey});
      WithoutOne(c.order, cacheKey);
      DropIndexed(c.keysOf, c.index, cacheKey);
    }
  }

  lemma SetAgrees(c: Cache, cacheKey: Key, entry: nat, keys: seq<Key>)
    requires Agree(c)
    ensures Agree(Set(c, cacheKey, entry, keys))
  {
    RoomIsMade(c, cacheKey);
    var c' := MakeRoom(c, cacheKey);
    hide Indexed, Enter, MakeRoom;
    EnterIndexed(c'.keysOf, c'.index, cacheKey, keys);
  }

  // Once room is made, the key lists are without the cache key, and there is room for one entry.
  lemma RoomIsMade(c: Cache, cacheKey: Key)
    requires Agree(c)
    ensures var c' := MakeRoom(c, cacheKey);
            && Distinct(c'.order) && (forall k :: k in c'.order <==> k in c'.entries)
            && c'.keysOf.Keys == c'.entries.Keys - {cacheKey} && Indexed(c'.keysOf, c'.index)
            && c'.maxEntries == c.maxEntries
            && (c.maxEntries > 0 ==> |c'.order| + (if cacheKey in c'.entries then 0 else 1) <= c.maxEntries)
  {
    hide Indexed, Drop, Without, Delete;
    if cacheKey in c.entries {
      DropIndexed(c.keysOf, c.index, cacheKey);
    } else if c.maxEntries > 0 && |c.order| >= c.maxEntries {
      DeleteAgrees(c, c.order[0]);
      DeletedKeys(c, c.order[0]);
    }
  }

  lemma DeletedKeys(c: Cache, cacheKey: Key)
    requires Agree(c)
    ensures Delete(c, cacheKey).keysOf.Keys == c.keysOf.Keys - {cacheKey}
    ensures Delete(c, cacheKey).maxEntries == c.maxEntries
  {
  }

  lemma GetAgrees(c: Cache, cacheKey: Key, expired: bool)
    requires Agree(c)
    ensures Agree(Get(c, cacheKey, expired).0)
  {
    hide Indexed, Delete, Without;
    DeleteAgrees(c, cacheKey);
    if cacheKey in c.entries {
      WithoutMembers(c.order, {cacheKey});
      WithoutOne(c.order, cacheKey);
    }
  }

  lemma InvalidateAgrees(c: Cache, key: Key)
    requires Agree(c)
    ensures Agree(Invalidate(c, key))
  {
    hide Indexed, Purge, Without;
    if key in c.index {
      WithoutMembers(c.order, c.index[key]);
      PurgeIndexed(c.keysOf, c.index, key);
    }
  }

  lemma ClearAgrees(c: Cache)
    requires Agree(c)
    ensures Agree(Clear(c))
  {
  }
}
