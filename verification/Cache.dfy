/** `BasicClientSideCache` and its entries, updated in place
    (packages/client/lib/client/cache.ts:565-608, 712-794, 817-951, 980-992). */
module ClientSideCache {
  import opened Collections
  import opened CacheSpec
  import Runs = CacheRuns

  /** A promise or value entry. `id` tells entries apart; an `expireTime` of 0 never passes. */
  class Entry {
    const id: nat
    const expireTime: nat
    var invalidated: bool

    constructor (id: nat, ttl: nat, now: nat)
      ensures this.id == id && !invalidated
      ensures expireTime == if ttl == 0 then 0 else now + ttl
    {
      this.id := id;
      invalidated := false;
      expireTime := if ttl == 0 then 0 else now + ttl;
    }

    predicate Expired(now: nat) { expireTime != 0 && expireTime <= now }

    method Invalidate()
      modifies this
      ensures invalidated
    {
      invalidated := true;
    }

    method Validate(now: nat) returns (ok: bool)
      ensures ok <==> !invalidated && !Expired(now)
    {
      ok := !invalidated && (expireTime == 0 || now < expireTime);
    }
  }

  class BasicClientSideCache {
    const maxEntries: nat
    const lru: bool
    var order: seq<Key>
    var entries: map<Key, Entry>
    var keysOf: map<Key, seq<Key>>
    var index: map<Key, set<Key>>
    // Every entry ever stored, and the ids of those that are marked.
    ghost var known: set<Entry>
    ghost var marked: set<nat>

    constructor (maxEntries: nat, lru: bool)
      ensures Valid() && Abs() == Empty(maxEntries, lru) && known == {}
    {
      this.maxEntries, this.lru := maxEntries, lru;
      order, entries, keysOf, index := [], map[], map[], map[];
      known, marked := {}, {};
    }

    ghost predicate ValidEntries()
      reads this`entries, this`known, this`marked, this`order, known
    {
      && (forall k <- entries :: entries[k] in known)
      && (forall e <- known :: e.invalidated <==> e.id in marked)
      && marked <= Ids()
      && (forall e, f | e in known && f in known :: e.id == f.id ==> e == f)
      && (forall k <- order :: k in entries)
    }

    /** The entries are known, and the three maps agree. */
    ghost predicate Valid()
      reads this, known
    {
      ValidEntries() && Agree(Abs())
    }

    ghost function Ids(): set<nat>
      reads this`known
    {
      set e <- known :: e.id
    }

    ghost function Abs(): Cache
      reads this
    {
      Cache(maxEntries, lru, order, map k | k in entries :: entries[k].id, keysOf, index, marked)
    }

    /** `#deleteFromKeyIndex` */
    method DeleteFromKeyIndex(cacheKey: Key)
      requires ValidEntries()
      modifies this`keysOf, this`index
      ensures ValidEntries() && Abs() == Unindex(old(Abs()), cacheKey)
    {
      if cacheKey !in keysOf { return; }
      var keys := keysOf[cacheKey];
      keysOf := keysOf - {cacheKey};
      var i := 0;
      while i < |keys|
        invariant 0 <= i <= |keys|
        invariant index == Drop(old(index), keys[..i], cacheKey)
        modifies this`index
      {
        DropOne(old(index), keys[..i], keys[i], cacheKey);
        assert keys[..i + 1] == keys[..i] + [keys[i]];
        if keys[i] in index {
          var rest := index[keys[i]] - {cacheKey};
          index := index[keys[i] := rest];
          if rest == {} { index := index - {keys[i]}; }
        }
        i := i + 1;
      }
      assert keys[..|keys|] == keys;
    }

    // `Map.delete` on the entry map.
    method RemoveEntry(cacheKey: Key)
      requires ValidEntries() && cacheKey in entries
      modifies this`entries, this`order, this`marked, entries[cacheKey]
      ensures ValidEntries() && entries == old(entries) - {cacheKey}
      ensures Abs() == old(Abs()).(order := Without(old(order), {cacheKey}), entries := old(Abs()).entries - {cacheKey},
                                   invalidated := old(marked) + {old(entries[cacheKey].id)})
    {
      entries[cacheKey].Invalidate();
      marked := marked + {entries[cacheKey].id};
      entries := entries - {cacheKey};
      WithoutSubset(order, {cacheKey});
      order := Without(order, {cacheKey});
    }

    method Delete(cacheKey: Key)
      requires ValidEntries()
      modifies this`order, this`entries, this`keysOf, this`index, this`marked, known
      ensures ValidEntries() && Abs() == CacheSpec.Delete(old(Abs()), cacheKey)
      ensures entries == old(entries) - {cacheKey} && (old(Valid()) ==> Valid())
    {
      if Agree(Abs()) { DeleteAgrees(Abs(), cacheKey); }
      hide Agree;
      if cacheKey in entries { RemoveEntry(cacheKey); }
      DeleteFromKeyIndex(cacheKey);
    }

    method DeleteOldest()
      requires ValidEntries()
      modifies this`order, this`entries, this`keysOf, this`index, this`marked, known
      ensures ValidEntries() && Abs() == CacheSpec.DeleteOldest(old(Abs()))
      ensures old(Valid()) ==> Valid()
    {
      if Agree(Abs()) && order != [] { DeleteAgrees(Abs(), order[0]); }
      hide Agree;
      if order != [] {
        var key := order[0];
        RemoveEntry(key);
        DeleteFromKeyIndex(key);
      }
    }

    // What `set` does first: the old entry goes, or the oldest one if the cache is full.
    method ClearTheWay(cacheKey: Key)
      requires ValidEntries()
      modifies this`order, this`entries, this`keysOf, this`index, this`marked, known
      ensures ValidEntries() && Abs() == MakeRoom(old(Abs()), cacheKey)
    {
      hide CacheSpec.DeleteOldest, Unindex;
      var count: int := |order|;
      if cacheKey in entries {
        count := count - 1;
        entries[cacheKey].Invalidate();
        marked := marked + {entries[cacheKey].id};
        assert Abs() == old(Abs()).(invalidated := marked);
        DeleteFromKeyIndex(cacheKey);
      }
      if maxEntries > 0 && count >= maxEntries { DeleteOldest(); }
    }

    // What `set` does last: each of the keys leads to the cache key.
    method EnterKeys(cacheKey: Key, keys: seq<Key>)
      modifies this`index
      ensures index == Enter(old(index), keys, cacheKey)
    {
      EnterNone(index, cacheKey);
      hide Enter;
      var i := 0;
      while i < |keys|
        invariant 0 <= i <= |keys|
        invariant index == Enter(old(index), keys[..i], cacheKey)
      {
        EnterOne(old(index), keys[..i], keys[i], cacheKey);
        EnterKey(index, keys[i], cacheKey);
        assert keys[..i + 1] == keys[..i] + [keys[i]];
        if keys[i] !in index { index := index[keys[i] := {}]; }
        index := index[keys[i] := index[keys[i]] + {cacheKey}];
        i := i + 1;
      }
      assert keys[..|keys|] == keys;
    }

    // `Map.set` on the entry map.
    method PutEntry(cacheKey: Key, entry: Entry)
      requires ValidEntries() && !entry.invalidated && entry.id !in Ids()
      modifies this`entries, this`order, this`known
      ensures ValidEntries() && known == old(known) + {entry} && entries == old(entries)[cacheKey := entry]
      ensures Abs() == old(Abs()).(order := if cacheKey in old(entries) then old(order) else old(order) + [cacheKey],
                                   entries := old(Abs()).entries[cacheKey := entry.id])
    {
      ghost var ids := Abs().entries;
      if cacheKey !in entries { order := order + [cacheKey]; }
      entries := entries[cacheKey := entry];
      known := known + {entry};
      assert Abs().entries == ids[cacheKey := entry.id];
    }

    method Set(cacheKey: Key, entry: Entry, keys: seq<Key>)
      requires Valid()
      requires !entry.invalidated && entry.id !in Ids()
      modifies this, known
      ensures Valid() && known == old(known) + {entry}
      ensures Abs() == CacheSpec.Set(old(Abs()), cacheKey, entry.id, keys)
      ensures cacheKey in entries && entries[cacheKey] == entry && !entry.invalidated
      ensures forall e <- old(known) :: old(e.invalidated) ==> e.invalidated
    {
      SetStores(Abs(), cacheKey, entry.id, keys);
      SetAgrees(Abs(), cacheKey, entry.id, keys);
      hide Agree, Valid, MakeRoom, Enter;
      ClearTheWay(cacheKey);
      PutEntry(cacheKey, entry);
      keysOf := keysOf[cacheKey := keys];
      EnterKeys(cacheKey, keys);
    }

    method Get(cacheKey: Key, now: nat) returns (found: Option<Entry>)
      requires Valid()
      modifies this`order, this`entries, this`keysOf, this`index, this`marked, known
      ensures Valid()
      ensures var expired := cacheKey in old(entries) && old(entries[cacheKey]).Expired(now);
              var (c, id) := CacheSpec.Get(old(Abs()), cacheKey, expired);
              && Abs() == c && (found.None? <==> id.None?)
              && (found.Some? ==> cacheKey in old(entries) && found.value == old(entries[cacheKey]))
      ensures found.Some? <==>
        && cacheKey in old(entries) && !old(entries[cacheKey].invalidated)
        && (old(entries[cacheKey]).expireTime == 0 || now < old(entries[cacheKey]).expireTime)
      ensures found.Some? ==> entries == old(entries) && !found.value.invalidated
      ensures found.None? && cacheKey in old(entries) ==> old(entries[cacheKey]).invalidated
      ensures found.None? ==> cacheKey !in entries && cacheKey !in order && cacheKey !in keysOf
      ensures found.None? ==> forall k <- index :: cacheKey !in index[k]
    {
      GetAgrees(Abs(), cacheKey, cacheKey in entries && entries[cacheKey].Expired(now));
      if cacheKey !in entries { AbsentEverywhere(Abs(), cacheKey); }
      hide Agree;
      if cacheKey !in entries { return None; }
      var val := entries[cacheKey];
      var ok := val.Validate(now);
      if !ok {
        Delete(cacheKey);
        AbsentEverywhere(Abs(), cacheKey);
        return None;
      }
      if lru {
        WithoutSubset(order, {cacheKey});
        order := Without(order, {cacheKey}) + [cacheKey];
      }
      found := Some(val);
    }

    // The loop of `invalidate`, over the cache keys that a key leads to.
    method DeleteEach(keySet: set<Key>)
      requires ValidEntries() && Indexed(Abs().keysOf, Abs().index) && Gone(Abs(), {}, Abs().index) == Abs()
      requires keySet <= Abs().entries.Keys && keySet <= Abs().keysOf.Keys
      modifies this`order, this`entries, this`keysOf, this`index, this`marked, known
      ensures ValidEntries() && Abs() == Gone(old(Abs()), keySet, Abs().index) && Indexed(Abs().keysOf, Abs().index)
    {
      hide ValidEntries, Valid, Abs, Indexed, Gone, CacheSpec.Delete;
      var todo := keySet;
      ghost var done: set<Key> := {};
      while todo != {}
        invariant done !! todo && done + todo == keySet
        invariant ValidEntries() && Abs() == Gone(old(Abs()), done, Abs().index) && Indexed(Abs().keysOf, Abs().index)
        decreases todo
      {
        var cacheKey :| cacheKey in todo;
        GoneOne(old(Abs()), done, cacheKey, Abs().index);
        Delete(cacheKey);
        todo, done := todo - {cacheKey}, done + {cacheKey};
      }
    }

    /** On maps that agree, exactly the entries that depend on the key go. */
    method Invalidate(key: Key)
      requires Valid()
      modifies this`order, this`entries, this`keysOf, this`index, this`marked, known
      ensures Valid() && Abs() == CacheSpec.Invalidate(old(Abs()), key)
    {
      hide Indexed, Agree, Purge, Without;
      InvalidateAgrees(Abs(), key);
      if key !in index { return; }
      hide CacheSpec.Invalidate;
      ghost var before := Abs();
      InvalidateFrom(before, key);
      DeleteEach(index[key]);
      hide ValidEntries;
      GoneAll(before, key, index);
      index := index - {key};
    }

    method Clear()
      requires Valid()
      modifies this`order, this`entries, this`keysOf, this`index
      ensures Valid() && Abs() == CacheSpec.Clear(old(Abs()))
    {
      ClearAgrees(Abs());
      hide Agree;
      order, entries, keysOf, index := [], map[], map[], map[];
    }

    /** `handleCache` up to its `await`: a hit, or a promise entry to wait for, new (`promise`) on a miss. */
    method StartCall(ghost s: Runs.System, cacheKey: Key, promise: Entry, keys: seq<Key>, now: nat)
      returns (entry: Entry)
      requires Valid() && s.c == Abs() && s.next == promise.id && s.keysFor(cacheKey) == keys
      requires !promise.invalidated && promise.id !in Ids()
      modifies this, known
      ensures Valid() && entry in known && known <= old(known) + {promise}
      ensures var expired := cacheKey in old(entries) && old(entries[cacheKey]).Expired(now);
              && Abs() == Runs.StartCall(s, cacheKey, expired).c
              && if CacheSpec.Get(old(Abs()), cacheKey, expired).1.Some?
                 then cacheKey in old(entries) && entry == old(entries[cacheKey]) else entry == promise
      ensures cacheKey in entries && entries[cacheKey] == entry && !entry.invalidated
      ensures if && cacheKey in old(entries) && !old(entries[cacheKey].invalidated)
                 && (old(entries[cacheKey]).expireTime == 0 || now < old(entries[cacheKey]).expireTime)
              then entry == old(entries[cacheKey]) && entries == old(entries)
              else entry == promise && (cacheKey in old(entries) ==> old(entries[cacheKey]).invalidated)
    {
      hide CacheSpec.Delete, CacheSpec.Set, Agree;
      var found := Get(cacheKey, now);
      if found.Some? { return found.value; }
      Set(cacheKey, promise, keys);
      entry := promise;
    }

    /** `handleCache` from its `await` on, for the call that waited for `entry`. */
    method FinishCall(ghost s: Runs.System, cacheKey: Key, entry: Entry, result: Runs.Completion, value: Entry,
                      keys: seq<Key>, now: nat)
      requires Valid() && s.c == Abs() && s.next == value.id && s.keysFor(cacheKey) == keys && entry in known
      requires !value.invalidated && value.id !in Ids()
      modifies this, known
      ensures Valid() && known <= old(known) + {value}
      ensures Abs() == Runs.CompleteCall(s, cacheKey, entry.id, result, entry.Expired(now)).c
      ensures if old(entry.invalidated) || (0 < entry.expireTime <= now) || result == Runs.Failed(false) then
                entries == old(entries)
              else if result.Storable? then cacheKey in entries && entries[cacheKey] == value
              else entries == old(entries) - {cacheKey}
    {
      hide CacheSpec.Delete, CacheSpec.Set, Agree;
      var ok := entry.Validate(now);
      match result
      case Failed(owner) => if owner && ok { Delete(cacheKey); }
      case NotStorable => if ok { Delete(cacheKey); }
      case Storable => if ok { Set(cacheKey, value, keys); }
    }
  }

  // ---------------------------------------------------------------- the loops, one round at a time

  lemma DropOne(index: map<Key, set<Key>>, keys: seq<Key>, key: Key, cacheKey: Key)
    ensures Drop(index, keys + [key], cacheKey) == Drop(Drop(index, keys, cacheKey), [key], cacheKey)
    ensures Drop(index, [], cacheKey) == index
  {
    var once, twice := Drop(index, keys, cacheKey), Drop(Drop(index, keys, cacheKey), [key], cacheKey);
    var all := Drop(index, keys + [key], cacheKey);
    forall k ensures (k in all <==> k in twice) && (k in all ==> all[k] == twice[k]) {
      assert k in once ==> once[k] == (if k in keys then index[k] - {cacheKey} else index[k]);
      assert k in index ==> index[k] - {cacheKey} - {cacheKey} == index[k] - {cacheKey};
    }
  }

  lemma EnterOne(index: map<Key, set<Key>>, keys: seq<Key>, key: Key, cacheKey: Key)
    ensures Enter(index, keys + [key], cacheKey) == Enter(Enter(index, keys, cacheKey), [key], cacheKey)
  {
    var twice, all := Enter(Enter(index, keys, cacheKey), [key], cacheKey), Enter(index, keys + [key], cacheKey);
    forall k ensures (k in all <==> k in twice) && (k in all ==> all[k] == twice[k]) {
      assert k in [key] <==> k == key;
      assert k in keys + [key] <==> k in keys || k == key;
    }
  }

  lemma EnterKey(index: map<Key, set<Key>>, key: Key, cacheKey: Key)
    ensures Enter(index, [key], cacheKey) == index[key := (if key in index then index[key] else {}) + {cacheKey}]
  {
    assert forall k <- index :: index[k] + {} == index[k];
  }

  lemma EnterNone(index: map<Key, set<Key>>, cacheKey: Key)
    ensures Enter(index, [], cacheKey) == index
  {
    assert forall k <- index :: index[k] + {} == index[k];
  }

  lemma {:induction false} WithoutSubset(order: seq<Key>, gone: set<Key>)
    ensures forall k :: k in Without(order, gone) <==> k in order && k !in gone
    decreases |order|
  {
    if order != [] {
      WithoutSubset(order[..|order| - 1], gone);
      assert order == order[..|order| - 1] + [order[|order| - 1]];
    }
  }

  lemma {:induction false} WithoutTwice(order: seq<Key>, gone: set<Key>, k: Key)
    ensures Without(Without(order, gone), {k}) == Without(order, gone + {k})
    decreases |order|
  {
    if order != [] {
      var init, last := order[..|order| - 1], order[|order| - 1];
      WithoutTwice(init, gone, k);
      assert (Without(init, gone) + [last])[..|Without(init, gone)|] == Without(init, gone);
      assert Without(init, gone) + [] == Without(init, gone);
    }
  }

  // The cache without the entries of `gone`, whatever is left in the index.
  ghost function Gone(c: Cache, gone: set<Key>, index: map<Key, set<Key>>): Cache {
    c.(order := Without(c.order, gone), entries := c.entries - gone, keysOf := c.keysOf - gone, index := index,
       invalidated := c.invalidated + set k | k in gone && k in c.entries :: c.entries[k])
  }

  lemma GoneOne(c: Cache, gone: set<Key>, k: Key, index: map<Key, set<Key>>)
    requires k in c.entries && k in c.keysOf && k !in gone && Indexed(Gone(c, gone, index).keysOf, index)
    ensures var c' := CacheSpec.Delete(Gone(c, gone, index), k);
            c' == Gone(c, gone + {k}, c'.index) && Indexed(c'.keysOf, c'.index)
  {
    hide Indexed, Without, Drop;
    WithoutTwice(c.order, gone, k);
    DropIndexed(c.keysOf - gone, index, k);
    assert c.entries - (gone + {k}) == c.entries - gone - {k};
    assert c.keysOf - (gone + {k}) == c.keysOf - gone - {k};
    assert (set j | j in gone + {k} && j in c.entries :: c.entries[j]) ==
           (set j | j in gone && j in c.entries :: c.entries[j]) + {c.entries[k]};
  }

  lemma InvalidateFrom(c: Cache, key: Key)
    requires key in c.index && Agree(c)
    ensures c.index[key] <= c.entries.Keys && c.index[key] <= c.keysOf.Keys
    ensures Indexed(c.keysOf, c.index) && Gone(c, {}, c.index) == c
  {
    PurgeIndexed(c.keysOf, c.index, key);
    WithoutNone(c.order, {});
    assert c.entries - {} == c.entries && c.keysOf - {} == c.keysOf;
  }

  // Once all its entries are gone, so is the key.
  lemma GoneAll(c: Cache, key: Key, index: map<Key, set<Key>>)
    requires key in c.index && Agree(c) && Indexed(c.keysOf - c.index[key], index)
    ensures Gone(c, c.index[key], index - {key}) == CacheSpec.Invalidate(c, key)
  {
    PurgeIndexed(c.keysOf, c.index, key);
    IndexedIsUnique(c.keysOf - c.index[key], index, Purge(c.index, key, c.index[key]));
    assert index - {key} == index;
  }

  lemma IndexedIncludes(keysOf: map<Key, seq<Key>>, index: map<Key, set<Key>>, index': map<Key, set<Key>>)
    requires Indexed(keysOf, index) && Indexed(keysOf, index')
    ensures forall k <- index :: k in index' && index[k] == index'[k]
  {
    forall k <- index ensures k in index' && index[k] == index'[k] {
      forall c ensures c in index[k] <==> Leads(index', k, c) {
        assert Leads(index, k, c) <==> Lists(keysOf, c, k);
      }
      var c :| c in index[k];
      assert Leads(index', k, c);
    }
  }

  lemma IndexedIsUnique(keysOf: map<Key, seq<Key>>, index: map<Key, set<Key>>, index': map<Key, set<Key>>)
    requires Indexed(keysOf, index) && Indexed(keysOf, index')
    ensures index == index'
  {
    IndexedIncludes(keysOf, index, index');
    IndexedIncludes(keysOf, index', index);
  }
}
