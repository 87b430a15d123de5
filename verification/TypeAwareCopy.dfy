/** `typeAwareCopy` on heaps of JavaScript objects, cycles and sharing included
    (packages/client/lib/client/cache.ts:506-563). */
module TypeAwareCopy {
  import opened Collections
  import RespTypes

  type Bytes = RespTypes.Bytes

  /** A value is a primitive or a reference; an address is the index of a node in the heap. */
  datatype Value = Prim(p: int) | Ref(addr: nat)

  /** `None` is a hole. Maps, sets and objects hold their contents in insertion order. An object of any
      other class is one `Opaque` node. */
  datatype Node =
    | Buffer(bytes: Bytes)
    | Verbatim(format: Bytes, text: Bytes)
    | Array(slots: seq<Option<Value>>)
    | Map(pairs: seq<(Value, Value)>)
    | Set(items: seq<Value>)
    | Object(fields: seq<(string, Value)>)
    | Opaque(data: int)

  type Heap = seq<Node>

  // Buffers and verbatim strings are copied wherever they appear; the rest is remembered.
  predicate IsLeaf(n: Node) { n.Buffer? || n.Verbatim? }

  predicate InHeap(h: Heap, v: Value) { v.Ref? ==> v.addr < |h| }

  predicate ClosedNode(h: Heap, n: Node) {
    match n
    case Array(slots) => forall i :: 0 <= i < |slots| && slots[i].Some? ==> InHeap(h, slots[i].value)
    case Map(pairs) =>
      && (forall i :: 0 <= i < |pairs| ==> InHeap(h, pairs[i].0) && InHeap(h, pairs[i].1))
      && (forall i, j :: 0 <= i < j < |pairs| ==> pairs[i].0 != pairs[j].0)
    case Set(items) =>
      && (forall i :: 0 <= i < |items| ==> InHeap(h, items[i]))
      && (forall i, j :: 0 <= i < j < |items| ==> items[i] != items[j])
    case Object(fields) =>
      && (forall i :: 0 <= i < |fields| ==> InHeap(h, fields[i].1))
      && (forall i, j :: 0 <= i < j < |fields| ==> fields[i].0 != fields[j].0)
    case _ => true
  }

  // No dangling references; keys, items and field names are distinct.
  predicate Closed(h: Heap) { forall a :: 0 <= a < |h| ==> ClosedNode(h, h[a]) }

  // ---------------------------------------------------------------- what a copy is

  /** `r` stands for `v`: the same primitive, the remembered copy, or a new leaf with the same contents. */
  predicate Match(source: Heap, heap: Heap, copies: map<nat, nat>, v: Value, r: Value) {
    match v
    case Prim(_) => r == v
    case Ref(a) =>
      && r.Ref? && a < |source|
      && if IsLeaf(source[a]) then |source| <= r.addr < |heap| && heap[r.addr] == source[a]
         else a in copies && r.addr == copies[a]
  }

  predicate MatchSlot(source: Heap, heap: Heap, copies: map<nat, nat>, v: Option<Value>, r: Option<Value>) {
    v.Some? == r.Some? && (v.Some? ==> Match(source, heap, copies, v.value, r.value))
  }

  // `m` is `n` so far: its first `k` parts are there, in order.
  predicate Begun(source: Heap, heap: Heap, copies: map<nat, nat>, n: Node, m: Node, k: nat) {
    match n
    case Array(slots) =>
      m.Array? && |m.slots| == |slots| && k <= |slots|
      && (forall i :: 0 <= i < k ==> MatchSlot(source, heap, copies, slots[i], m.slots[i]))
      && (forall i :: k <= i < |slots| ==> m.slots[i].None?)
    case Map(pairs) =>
      m.Map? && |m.pairs| == k <= |pairs|
      && (forall i :: 0 <= i < k ==> Match(source, heap, copies, pairs[i].0, m.pairs[i].0))
      && (forall i :: 0 <= i < k ==> Match(source, heap, copies, pairs[i].1, m.pairs[i].1))
    case Set(items) =>
      m.Set? && |m.items| == k <= |items|
      && (forall i :: 0 <= i < k ==> Match(source, heap, copies, items[i], m.items[i]))
    case Object(fields) =>
      m.Object? && |m.fields| == k <= |fields|
      && (forall i :: 0 <= i < k ==> fields[i].0 == m.fields[i].0)
      && (forall i :: 0 <= i < k ==> Match(source, heap, copies, fields[i].1, m.fields[i].1))
    case Opaque(_) => m == n && k == 0
    case _ => false
  }

  function Size(n: Node): nat {
    match n
    case Array(slots) => |slots|
    case Map(pairs) => |pairs|
    case Set(items) => |items|
    case Object(fields) => |fields|
    case _ => 0
  }

  predicate Similar(source: Heap, heap: Heap, copies: map<nat, nat>, n: Node, m: Node) {
    Begun(source, heap, copies, n, m, Size(n))
  }

  // The memo sends containers of the source, one to one, to new containers.
  ghost predicate Memo(source: Heap, heap: Heap, copies: map<nat, nat>) {
    && |source| <= |heap| && heap[..|source|] == source
    && (forall a <- copies :: a < |source| && !IsLeaf(source[a]))
    && (forall a <- copies :: |source| <= copies[a] < |heap| && !IsLeaf(heap[copies[a]]))
    && (forall a, b | a in copies && b in copies :: copies[a] == copies[b] ==> a == b)
  }

  // The containers first met since `was` are copied in full.
  ghost predicate Finished(source: Heap, heap: Heap, copies: map<nat, nat>, was: set<nat>)
    requires Memo(source, heap, copies)
  {
    forall a <- copies :: a !in was ==> Similar(source, heap, copies, source[a], heap[copies[a]])
  }

  predicate Extends(copies: map<nat, nat>, copies': map<nat, nat>) {
    forall a <- copies :: a in copies' && copies'[a] == copies[a]
  }

  // Leaves are never written, and more is remembered.
  predicate Later(heap: Heap, copies: map<nat, nat>, heap': Heap, copies': map<nat, nat>) {
    && |heap| <= |heap'| && (forall a :: 0 <= a < |heap| && IsLeaf(heap[a]) ==> heap'[a] == heap[a])
    && Extends(copies, copies')
  }

  lemma MatchLater(source: Heap, heap: Heap, copies: map<nat, nat>, heap': Heap, copies': map<nat, nat>,
                   v: Value, r: Value)
    requires Later(heap, copies, heap', copies') && Match(source, heap, copies, v, r)
    ensures Match(source, heap', copies', v, r)
  {
  }

  lemma MatchGrows(source: Heap, heap: Heap, copies: map<nat, nat>, heap': Heap, copies': map<nat, nat>,
                   v: Value, r: Value)
    requires |heap| <= |heap'| && heap'[..|heap|] == heap && Extends(copies, copies')
    requires Match(source, heap, copies, v, r)
    ensures Match(source, heap', copies', v, r)
  {
    assert forall b :: 0 <= b < |heap| ==> heap'[b] == heap'[..|heap|][b];
  }

  lemma BegunLater(source: Heap, heap: Heap, copies: map<nat, nat>, heap': Heap, copies': map<nat, nat>,
                   n: Node, m: Node, k: nat)
    requires Later(heap, copies, heap', copies') && Begun(source, heap, copies, n, m, k)
    ensures Begun(source, heap', copies', n, m, k)
  {
    hide Later, Match;
    forall v, r | Match(source, heap, copies, v, r) ensures Match(source, heap', copies', v, r) {
      MatchLater(source, heap, copies, heap', copies', v, r);
    }
  }

  lemma FinishedLater(source: Heap, heap: Heap, copies: map<nat, nat>, heap': Heap, copies': map<nat, nat>,
                      was: set<nat>)
    requires Memo(source, heap, copies) && Memo(source, heap', copies') && Finished(source, heap, copies, was)
    requires Later(heap, copies, heap', copies')
    requires forall a <- copies :: a !in was ==> heap'[copies[a]] == heap[copies[a]]
    requires forall a <- copies' :: a !in copies && a !in was ==>
      Similar(source, heap', copies', source[a], heap'[copies'[a]])
    ensures Finished(source, heap', copies', was)
  {
    hide Begun, Match;
    forall a <- copies' | a !in was ensures Similar(source, heap', copies', source[a], heap'[copies'[a]]) {
      if a in copies {
        BegunLater(source, heap, copies, heap', copies', source[a], heap[copies[a]], Size(source[a]));
      }
    }
  }

  // A call made while the copy of `a` has its first `k` parts leaves them as they are.
  lemma Called(source: Heap, heap: Heap, copies: map<nat, nat>, heap': Heap, copies': map<nat, nat>,
               was: map<nat, nat>, a: nat, c: nat, k: nat)
    requires Memo(source, heap, copies) && Memo(source, heap', copies')
    requires a in copies && copies[a] == c && Begun(source, heap, copies, source[a], heap[c], k)
    requires Extends(was, copies) && Finished(source, heap, copies, was.Keys + {a})
    requires |heap| <= |heap'| && heap'[..|heap|] == heap && Extends(copies, copies')
    requires Finished(source, heap', copies', copies.Keys)
    ensures heap'[c] == heap[c] && Begun(source, heap', copies', source[a], heap[c], k)
    ensures Extends(was, copies') && Finished(source, heap', copies', was.Keys + {a})
  {
    hide Begun, Similar;
    assert forall b :: 0 <= b < |heap| ==> heap'[b] == heap'[..|heap|][b];
    assert Later(heap, copies, heap', copies');
    BegunLater(source, heap, copies, heap', copies', source[a], heap[c], k);
    FinishedLater(source, heap, copies, heap', copies', was.Keys + {a});
  }

  // Writing to the copy of `a` leaves the others as they are.
  lemma Written(source: Heap, heap: Heap, copies: map<nat, nat>, was: map<nat, nat>, a: nat, c: nat, m: Node, k: nat)
    requires Memo(source, heap, copies) && a in copies && copies[a] == c && !IsLeaf(m)
    requires Finished(source, heap, copies, was.Keys + {a}) && Begun(source, heap, copies, source[a], m, k)
    ensures Memo(source, heap[c := m], copies) && Finished(source, heap[c := m], copies, was.Keys + {a})
    ensures Begun(source, heap[c := m], copies, source[a], m, k)
  {
    hide Begun, Similar;
    assert Later(heap, copies, heap[c := m], copies);
    assert heap[c := m][..|source|] == heap[..|source|];
    BegunLater(source, heap, copies, heap[c := m], copies, source[a], m, k);
    FinishedLater(source, heap, copies, heap[c := m], copies, was.Keys + {a});
  }

  // Once all its parts are there, the copy of `a` is finished too.
  lemma Completed(source: Heap, heap: Heap, copies: map<nat, nat>, was: map<nat, nat>, a: nat)
    requires Memo(source, heap, copies) && a in copies && Similar(source, heap, copies, source[a], heap[copies[a]])
    requires Finished(source, heap, copies, was.Keys + {a})
    ensures Finished(source, heap, copies, was.Keys)
  {
  }

  // Different values have different copies.
  lemma NewCopy(source: Heap, heap: Heap, copies: map<nat, nat>, w: Value, q: Value,
                heap': Heap, copies': map<nat, nat>, v: Value, r: Value)
    requires Memo(source, heap', copies') && Extends(copies, copies') && w != v
    requires Match(source, heap, copies, w, q) && Match(source, heap', copies', v, r)
    requires |heap| <= |heap'| && heap'[..|heap|] == heap
    requires v.Ref? && IsLeaf(source[v.addr]) ==> r.addr >= |heap|
    ensures q != r
  {
    if w.Ref? && v.Ref? && IsLeaf(source[w.addr]) && !IsLeaf(source[v.addr]) {
      assert IsLeaf(heap'[..|heap|][q.addr]) && !IsLeaf(heap'[r.addr]);
    } else if w.Ref? && v.Ref? && !IsLeaf(source[w.addr]) && IsLeaf(source[v.addr]) {
      assert !IsLeaf(heap'[copies'[w.addr]]) && IsLeaf(heap'[r.addr]);
    }
  }

  // ---------------------------------------------------------------- one more part

  lemma SameKind(source: Heap, heap: Heap, copies: map<nat, nat>, n: Node, m: Node, k: nat)
    requires Begun(source, heap, copies, n, m, k)
    ensures m.Array? == n.Array? && m.Map? == n.Map? && m.Set? == n.Set? && m.Object? == n.Object?
    ensures m.Array? ==> |m.slots| == |n.slots|
  {
  }

  lemma ArrayPart(source: Heap, heap: Heap, copies: map<nat, nat>, n: Node, m: Node, k: nat, v: Option<Value>)
    requires n.Array? && k < |n.slots| && Begun(source, heap, copies, n, m, k)
    requires MatchSlot(source, heap, copies, n.slots[k], v)
    ensures Begun(source, heap, copies, n, Node.Array(m.slots[k := v]), k + 1)
    ensures v.None? ==> Begun(source, heap, copies, n, m, k + 1)
  {
    hide Match;
  }

  // `before` is when the key was not copied yet.
  lemma MapPart(source: Heap, before: Heap, copies: map<nat, nat>, heap: Heap, copies': map<nat, nat>,
                n: Node, m: Node, k: nat, key: Value, entry: Value)
    requires Memo(source, heap, copies') && Extends(copies, copies')
    requires |before| <= |heap| && heap[..|before|] == before
    requires n.Map? && k < |n.pairs| && ClosedNode(source, n)
    requires Begun(source, before, copies, n, m, k) && Begun(source, heap, copies', n, m, k)
    requires Match(source, heap, copies', n.pairs[k].0, key) && Match(source, heap, copies', n.pairs[k].1, entry)
    requires n.pairs[k].0.Ref? && IsLeaf(source[n.pairs[k].0.addr]) ==> key.addr >= |before|
    ensures Begun(source, heap, copies', n, Map(Put(m.pairs, key, entry)), k + 1)
  {
    hide Match, Memo;
    forall j | 0 <= j < k ensures m.pairs[j].0 != key {
      NewCopy(source, before, copies, n.pairs[j].0, m.pairs[j].0, heap, copies', n.pairs[k].0, key);
    }
    PutNew(m.pairs, key, entry);
  }

  lemma SetPart(source: Heap, before: Heap, copies: map<nat, nat>, heap: Heap, copies': map<nat, nat>,
                n: Node, m: Node, k: nat, item: Value)
    requires Memo(source, heap, copies') && Extends(copies, copies')
    requires |before| <= |heap| && heap[..|before|] == before
    requires n.Set? && k < |n.items| && ClosedNode(source, n)
    requires Begun(source, before, copies, n, m, k) && Begun(source, heap, copies', n, m, k)
    requires Match(source, heap, copies', n.items[k], item)
    requires n.items[k].Ref? && IsLeaf(source[n.items[k].addr]) ==> item.addr >= |before|
    ensures Begun(source, heap, copies', n, Set(Add(m.items, item)), k + 1)
  {
    hide Match, Memo;
    forall j | 0 <= j < k ensures m.items[j] != item {
      NewCopy(source, before, copies, n.items[j], m.items[j], heap, copies', n.items[k], item);
    }
  }

  lemma ObjectPart(source: Heap, heap: Heap, copies: map<nat, nat>, n: Node, m: Node, k: nat, entry: Value)
    requires n.Object? && k < |n.fields| && ClosedNode(source, n)
    requires Begun(source, heap, copies, n, m, k) && Match(source, heap, copies, n.fields[k].1, entry)
    ensures Begun(source, heap, copies, n, Object(Put(m.fields, n.fields[k].0, entry)), k + 1)
  {
    hide Match;
    PutNew(m.fields, n.fields[k].0, entry);
  }

  // ---------------------------------------------------------------- the copier

  // `Map.set`, `Set.add` and assignment to a field: replace or append.
  function Put<K(==), V>(pairs: seq<(K, V)>, key: K, value: V): seq<(K, V)> {
    if pairs == [] then [(key, value)]
    else if pairs[0].0 == key then [(key, value)] + pairs[1..]
    else [pairs[0]] + Put(pairs[1..], key, value)
  }

  lemma {:induction false} PutNew<K, V>(pairs: seq<(K, V)>, key: K, value: V)
    requires forall i :: 0 <= i < |pairs| ==> pairs[i].0 != key
    ensures Put(pairs, key, value) == pairs + [(key, value)]
  {
    if pairs != [] {
      PutNew(pairs[1..], key, value);
      assert pairs == [pairs[0]] + pairs[1..];
    }
  }

  function Add(items: seq<Value>, item: Value): seq<Value> { if item in items then items else items + [item] }

  ghost function Below(n: nat): (s: set<nat>)
    ensures forall a: nat :: a in s <==> a < n
  {
    if n == 0 then {} else Below(n - 1) + {n - 1}
  }

  class Copier {
    ghost const source: Heap
    var heap: Heap
    var copies: map<nat, nat>

    constructor (heap: Heap)
      ensures this.heap == heap && source == heap && copies == map[]
    {
      this.source, this.heap, this.copies := heap, heap, map[];
    }

    ghost predicate Valid()
      reads this
    {
      Closed(source) && Memo(source, heap, copies)
    }

    // The containers not met yet.
    ghost function Left(): set<nat>
      reads this
    {
      Below(|source|) - copies.Keys
    }

    // What every call leaves behind.
    twostate predicate Grown()
      reads this
    {
      && Valid()
      && |old(heap)| <= |heap| && heap[..|old(heap)|] == old(heap)
      && Extends(old(copies), copies)
      && Finished(source, heap, copies, old(copies.Keys))
    }

    method Alloc(node: Node) returns (addr: nat)
      modifies this`heap
      ensures addr == |old(heap)| && heap == old(heap) + [node]
    {
      addr := |heap|;
      heap := heap + [node];
    }

    /** Terminates on cycles: each container is entered once. */
    method Copy(v: Value) returns (r: Value)
      requires Valid() && InHeap(source, v)
      modifies this
      ensures Grown() && Match(source, heap, copies, v, r)
      ensures v.Ref? && IsLeaf(source[v.addr]) ==> r.addr >= |old(heap)|
      decreases Left(), 1
    {
      if v.Prim? { return v; }
      if IsLeaf(heap[v.addr]) {
        var addr := Alloc(heap[v.addr]);
        return Ref(addr);
      }
      if v.addr in copies { return Ref(copies[v.addr]); }
      match heap[v.addr]
      case Opaque(_) =>
        var addr := Begin(v.addr, heap[v.addr]);
        r := Ref(addr);
      case Array(_) => r := CopyArray(v.addr);
      case Map(_) => r := CopyMap(v.addr);
      case Set(_) => r := CopySet(v.addr);
      case Object(_) => r := CopyObject(v.addr);
    }

    // The copy of `a`, at `c`, has its first `k` parts; what else was met since `was` is finished.
    ghost predicate Filling(a: nat, c: nat, k: nat, was: map<nat, nat>)
      reads this
    {
      && Valid() && a in copies && copies[a] == c && a !in was && a < |source| && |source| <= c < |heap|
      && Begun(source, heap, copies, source[a], heap[c], k)
      && Extends(was, copies) && Finished(source, heap, copies, was.Keys + {a})
    }

    // The first steps of every container: a new one, remembered before its parts are copied.
    method Begin(a: nat, node: Node) returns (c: nat)
      requires Valid() && a < |source| && a !in copies && !IsLeaf(source[a])
      requires !IsLeaf(node) && forall h, m :: Begun(source, h, m, source[a], node, 0)
      modifies this
      ensures c == |old(heap)| && heap == old(heap) + [node] && copies == old(copies)[a := c]
      ensures Filling(a, c, 0, old(copies))
    {
      c := Alloc(node);
      copies := copies[a := c];
    }

    // A part of a container that is being copied.
    method CopyPart(v: Value, a: nat, c: nat, k: nat, ghost was: map<nat, nat>) returns (r: Value)
      requires Filling(a, c, k, was) && InHeap(source, v)
      modifies this
      ensures Filling(a, c, k, was) && Match(source, heap, copies, v, r)
      ensures |old(heap)| <= |heap| && heap[..|old(heap)|] == old(heap) && Extends(old(copies), copies)
      ensures v.Ref? && IsLeaf(source[v.addr]) ==> r.addr >= |old(heap)|
      decreases Left(), 2
    {
      r := Copy(v);
      hide Memo, Begun, Match, Finished;
      Called(source, old(heap), old(copies), heap, copies, was, a, c, k);
    }

    method Write(a: nat, c: nat, k: nat, m: Node, ghost was: map<nat, nat>)
      requires Filling(a, c, k, was) && !IsLeaf(m)
      requires Begun(source, heap, copies, source[a], m, k + 1)
      modifies this`heap
      ensures Filling(a, c, k + 1, was) && heap == old(heap)[c := m]
    {
      hide Memo, Begun, Match, Finished;
      Written(source, heap, copies, was, a, c, m, k + 1);
      heap := heap[c := m];
    }

    method CopySlot(slot: Option<Value>, a: nat, c: nat, i: nat, ghost was: map<nat, nat>)
      requires Filling(a, c, i, was) && a < |source| && source[a].Array? && i < Size(source[a]) && slot == source[a].slots[i]
      modifies this
      ensures Filling(a, c, i + 1, was) && |old(heap)| <= |heap| && heap[..c] == old(heap[..c])
      decreases Left(), 4
    {
      assert slot.Some? ==> InHeap(source, slot.value) by { assert ClosedNode(source, source[a]); }
      hide Memo, Match, Finished, Begun, ClosedNode;
      SameKind(source, heap, copies, source[a], heap[c], i);
      if slot.Some? {
        var entry := CopyPart(slot.value, a, c, i, was);
        ArrayPart(source, heap, copies, source[a], heap[c], i, Some(entry));
        Write(a, c, i, Array(heap[c].slots[i := Some(entry)]), was);
      } else {
        ArrayPart(source, heap, copies, source[a], heap[c], i, None);
      }
    }

    method CopyArray(a: nat) returns (r: Value)
      requires Valid() && a < |source| && a !in copies && source[a].Array?
      modifies this
      ensures Grown() && Match(source, heap, copies, Ref(a), r)
      decreases Left(), 0
    {
      var slots := heap[a].slots;
      var c := Begin(a, Array(seq(|slots|, _ => None)));
      hide Memo, Match, Finished, Begun, ClosedNode;
      var i := 0;
      while i < |slots|
        invariant 0 <= i <= |slots|
        invariant Filling(a, c, i, old(copies)) && heap[..c] == old(heap)
      {
        CopySlot(slots[i], a, c, i, old(copies));
        i := i + 1;
      }
      r := Done(a, c, old(copies));
    }

    // The copy is returned once it has all its parts.
    method Done(a: nat, c: nat, ghost was: map<nat, nat>) returns (r: Value)
      requires a < |source| && Filling(a, c, Size(source[a]), was) && !IsLeaf(source[a])
      ensures Finished(source, heap, copies, was.Keys) && Match(source, heap, copies, Ref(a), r)
    {
      Completed(source, heap, copies, was, a);
      r := Ref(c);
    }

    // A key and its entry.
    method CopyPair(pair: (Value, Value), a: nat, c: nat, k: nat, ghost was: map<nat, nat>)
      returns (key: Value, entry: Value)
      requires Filling(a, c, k, was) && InHeap(source, pair.0) && InHeap(source, pair.1)
      modifies this
      ensures Filling(a, c, k, was)
      ensures Match(source, heap, copies, pair.0, key) && Match(source, heap, copies, pair.1, entry)
      ensures |old(heap)| <= |heap| && heap[..|old(heap)|] == old(heap) && Extends(old(copies), copies)
      ensures pair.0.Ref? && IsLeaf(source[pair.0.addr]) ==> key.addr >= |old(heap)|
      decreases Left(), 3
    {
      key := CopyPart(pair.0, a, c, k, was);
      ghost var heap1, copies1 := heap, copies;
      hide Memo, Match, Finished, Begun;
      entry := CopyPart(pair.1, a, c, k, was);
      MatchGrows(source, heap1, copies1, heap, copies, pair.0, key);
      assert heap[..|old(heap)|] == heap[..|heap1|][..|old(heap)|];
    }

    method CopyEntry(pair: (Value, Value), a: nat, c: nat, i: nat, ghost was: map<nat, nat>)
      requires Filling(a, c, i, was) && a < |source| && source[a].Map? && i < Size(source[a]) && pair == source[a].pairs[i]
      modifies this
      ensures Filling(a, c, i + 1, was) && |old(heap)| <= |heap| && heap[..c] == old(heap[..c])
      decreases Left(), 4
    {
      assert InHeap(source, pair.0) && InHeap(source, pair.1) by { assert ClosedNode(source, source[a]); }
      hide Memo, Match, Finished, Begun, ClosedNode;
      SameKind(source, heap, copies, source[a], heap[c], i);
      ghost var heap0, copies0 := heap, copies;
      var key, entry := CopyPair(pair, a, c, i, was);
      MapPart(source, heap0, copies0, heap, copies, source[a], heap[c], i, key, entry);
      Write(a, c, i, Map(Put(heap[c].pairs, key, entry)), was);
    }

    method CopyMap(a: nat) returns (r: Value)
      requires Valid() && a < |source| && a !in copies && source[a].Map?
      modifies this
      ensures Grown() && Match(source, heap, copies, Ref(a), r)
      decreases Left(), 0
    {
      var pairs := heap[a].pairs;
      var c := Begin(a, Map([]));
      hide Memo, Match, Finished, Begun, ClosedNode;
      var i := 0;
      while i < |pairs|
        invariant 0 <= i <= |pairs|
        invariant Filling(a, c, i, old(copies)) && heap[..c] == old(heap)
      {
        CopyEntry(pairs[i], a, c, i, old(copies));
        i := i + 1;
      }
      r := Done(a, c, old(copies));
    }

    method CopyItem(v: Value, a: nat, c: nat, i: nat, ghost was: map<nat, nat>)
      requires Filling(a, c, i, was) && a < |source| && source[a].Set? && i < Size(source[a]) && v == source[a].items[i]
      modifies this
      ensures Filling(a, c, i + 1, was) && |old(heap)| <= |heap| && heap[..c] == old(heap[..c])
      decreases Left(), 4
    {
      assert InHeap(source, v) by { assert ClosedNode(source, source[a]); }
      hide Memo, Match, Finished, Begun, ClosedNode;
      SameKind(source, heap, copies, source[a], heap[c], i);
      ghost var heap0, copies0 := heap, copies;
      var item := CopyPart(v, a, c, i, was);
      SetPart(source, heap0, copies0, heap, copies, source[a], heap[c], i, item);
      Write(a, c, i, Set(Add(heap[c].items, item)), was);
    }

    method CopySet(a: nat) returns (r: Value)
      requires Valid() && a < |source| && a !in copies && source[a].Set?
      modifies this
      ensures Grown() && Match(source, heap, copies, Ref(a), r)
      decreases Left(), 0
    {
      var items := heap[a].items;
      var c := Begin(a, Set([]));
      hide Memo, Match, Finished, Begun, ClosedNode;
      var i := 0;
      while i < |items|
        invariant 0 <= i <= |items|
        invariant Filling(a, c, i, old(copies)) && heap[..c] == old(heap)
      {
        CopyItem(items[i], a, c, i, old(copies));
        i := i + 1;
      }
      r := Done(a, c, old(copies));
    }

    method CopyField(field: (string, Value), a: nat, c: nat, i: nat, ghost was: map<nat, nat>)
      requires Filling(a, c, i, was) && a < |source| && source[a].Object?
      requires i < Size(source[a]) && field == source[a].fields[i]
      modifies this
      ensures Filling(a, c, i + 1, was) && |old(heap)| <= |heap| && heap[..c] == old(heap[..c])
      decreases Left(), 4
    {
      assert InHeap(source, field.1) by { assert ClosedNode(source, source[a]); }
      hide Memo, Match, Finished, Begun, ClosedNode;
      SameKind(source, heap, copies, source[a], heap[c], i);
      var entry := CopyPart(field.1, a, c, i, was);
      ObjectPart(source, heap, copies, source[a], heap[c], i, entry);
      Write(a, c, i, Object(Put(heap[c].fields, field.0, entry)), was);
    }

    method CopyObject(a: nat) returns (r: Value)
      requires Valid() && a < |source| && a !in copies && source[a].Object?
      modifies this
      ensures Grown() && Match(source, heap, copies, Ref(a), r)
      decreases Left(), 0
    {
      var fields := heap[a].fields;
      var c := Begin(a, Object([]));
      hide Memo, Match, Finished, Begun, ClosedNode;
      var i := 0;
      while i < |fields|
        invariant 0 <= i <= |fields|
        invariant Filling(a, c, i, old(copies)) && heap[..c] == old(heap)
      {
        CopyField(fields[i], a, c, i, old(copies));
        i := i + 1;
      }
      r := Done(a, c, old(copies));
    }
  }

  // ---------------------------------------------------------------- what a reader of the copy sees

  ghost predicate IsCopy(source: Heap, heap: Heap, copies: map<nat, nat>, v: Value, r: Value) {
    && Closed(source) && InHeap(source, v) && Memo(source, heap, copies)
    && Finished(source, heap, copies, {}) && Match(source, heap, copies, v, r)
  }

  /** The copy of any value of any heap; the heap keeps what it had. */
  method Copied(source: Heap, v: Value) returns (heap: Heap, r: Value, copies: map<nat, nat>)
    requires Closed(source) && InHeap(source, v)
    ensures IsCopy(source, heap, copies, v, r)
  {
    var copier := new Copier(source);
    assert source[..|source|] == source;
    r := copier.Copy(v);
    heap, copies := copier.heap, copier.copies;
  }

  datatype Step = Slot(i: nat) | KeyAt(i: nat) | EntryAt(i: nat) | ItemAt(i: nat) | FieldAt(i: nat)

  function Child(h: Heap, v: Value, step: Step): Option<Value> {
    if v.Prim? || v.addr >= |h| then None
    else
      match (h[v.addr], step)
      case (Array(slots), Slot(i)) => if i < |slots| then slots[i] else None
      case (Map(pairs), KeyAt(i)) => if i < |pairs| then Some(pairs[i].0) else None
      case (Map(pairs), EntryAt(i)) => if i < |pairs| then Some(pairs[i].1) else None
      case (Set(items), ItemAt(i)) => if i < |items| then Some(items[i]) else None
      case (Object(fields), FieldAt(i)) => if i < |fields| then Some(fields[i].1) else None
      case _ => None
  }

  function Follow(h: Heap, v: Value, path: seq<Step>): Option<Value>
    decreases |path|
  {
    if path == [] then Some(v)
    else
      match Child(h, v, path[0])
      case None => None
      case Some(w) => Follow(h, w, path[1..])
  }

  // What is seen of one value without following its references.
  datatype Look = Plain(p: int) | Leaf(node: Node) | List(length: nat) | Table(size: nat) | Group(size: nat)
                | Record(names: seq<string>) | Other(data: int) | Dangling

  function LookAt(h: Heap, v: Value): Look {
    match v
    case Prim(p) => Plain(p)
    case Ref(a) =>
      if a >= |h| then Dangling
      else
        match h[a]
        case Buffer(_) => Leaf(h[a])
        case Verbatim(_, _) => Leaf(h[a])
        case Array(slots) => List(|slots|)
        case Map(pairs) => Table(|pairs|)
        case Set(items) => Group(|items|)
        case Object(fields) => Record(seq(|fields|, i requires 0 <= i < |fields| => fields[i].0))
        case Opaque(data) => Other(data)
  }

  lemma ChildrenMatch(source: Heap, heap: Heap, copies: map<nat, nat>, v: Value, r: Value, step: Step)
    requires IsCopy(source, heap, copies, v, r)
    ensures Child(source, v, step).Some? == Child(heap, r, step).Some?
    ensures Child(source, v, step).Some? ==>
      IsCopy(source, heap, copies, Child(source, v, step).value, Child(heap, r, step).value)
  {
    if v.Ref? && !IsLeaf(source[v.addr]) {
      assert Similar(source, heap, copies, source[v.addr], heap[r.addr]);
      assert ClosedNode(source, source[v.addr]);
      hide Memo, Match, Finished;
    }
  }

  lemma {:induction false} PathsMatch(source: Heap, heap: Heap, copies: map<nat, nat>, v: Value, r: Value, path: seq<Step>)
    requires IsCopy(source, heap, copies, v, r)
    ensures Follow(source, v, path).Some? == Follow(heap, r, path).Some?
    ensures Follow(source, v, path).Some? ==>
      IsCopy(source, heap, copies, Follow(source, v, path).value, Follow(heap, r, path).value)
    decreases |path|
  {
    hide IsCopy;
    if path != [] {
      ChildrenMatch(source, heap, copies, v, r, path[0]);
      if Child(source, v, path[0]).Some? {
        PathsMatch(source, heap, copies, Child(source, v, path[0]).value, Child(heap, r, path[0]).value, path[1..]);
      }
    }
  }

  lemma LooksMatch(source: Heap, heap: Heap, copies: map<nat, nat>, v: Value, r: Value)
    requires IsCopy(source, heap, copies, v, r)
    ensures LookAt(source, v) == LookAt(heap, r)
  {
    if v.Ref? && !IsLeaf(source[v.addr]) {
      assert Similar(source, heap, copies, source[v.addr], heap[r.addr]);
    }
  }

  /** Every path leads to the same in the copy as in the source, or nowhere in both; holes stay holes. */
  lemma CopyReadsTheSame(source: Heap, heap: Heap, copies: map<nat, nat>, v: Value, r: Value, path: seq<Step>)
    requires IsCopy(source, heap, copies, v, r)
    ensures var w, q := Follow(source, v, path), Follow(heap, r, path);
            w.Some? == q.Some? && (w.Some? ==> LookAt(source, w.value) == LookAt(heap, q.value))
  {
    PathsMatch(source, heap, copies, v, r, path);
    if Follow(source, v, path).Some? {
      LooksMatch(source, heap, copies, Follow(source, v, path).value, Follow(heap, r, path).value);
    }
  }

  lemma SameSource(source: Heap, heap: Heap, copies: map<nat, nat>, w: Value, q: Value, w': Value, q': Value)
    requires IsCopy(source, heap, copies, w, q) && IsCopy(source, heap, copies, w', q')
    requires !LookAt(source, w).Leaf?
    ensures w == w' <==> q == q'
  {
    hide Finished;
  }

  /** Sharing survives: two paths meet at a container in the copy exactly when they do in the source. */
  lemma CopyKeepsSharing(source: Heap, heap: Heap, copies: map<nat, nat>, v: Value, r: Value,
                         path: seq<Step>, path': seq<Step>)
    requires IsCopy(source, heap, copies, v, r)
    requires Follow(source, v, path).Some? && Follow(source, v, path').Some?
    requires !LookAt(source, Follow(source, v, path).value).Leaf?
    ensures Follow(heap, r, path).Some? && Follow(heap, r, path').Some?
    ensures Follow(source, v, path) == Follow(source, v, path') <==> Follow(heap, r, path) == Follow(heap, r, path')
  {
    hide IsCopy, Follow, LookAt;
    PathsMatch(source, heap, copies, v, r, path);
    PathsMatch(source, heap, copies, v, r, path');
    SameSource(source, heap, copies, Follow(source, v, path).value, Follow(heap, r, path).value,
               Follow(source, v, path').value, Follow(heap, r, path').value);
  }

  /** The copy shares no container and no Buffer with the source, which is as it was. */
  lemma CopySharesNothing(source: Heap, heap: Heap, copies: map<nat, nat>, v: Value, r: Value, path: seq<Step>)
    requires IsCopy(source, heap, copies, v, r)
    ensures heap[..|source|] == source
    ensures Follow(heap, r, path).Some? && Follow(heap, r, path).value.Ref? ==>
      |source| <= Follow(heap, r, path).value.addr < |heap|
  {
    PathsMatch(source, heap, copies, v, r, path);
  }
}
