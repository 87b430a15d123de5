/** Batches as contiguous blocks of a sequence of commands, under every edit the queue makes. */
module QueueBlocks {
  import opened Collections
  import opened QueueSpec

  // `b` comes right after `a` in the same batch.
  predicate Precedes(a: Command, b: Command) {
    && a.batch && b.batch && a.head == b.head && a.chain == b.chain && a.slot == b.slot
    && a.size == b.size && a.index + 1 == b.index
  }

  predicate WellFormed(c: Command) {
    && c.index < c.size && (c.index == 0 ==> c.head == c.id)
    && (if c.batch then c.chain.Some? && !c.prelude && c.channels.None? else c.index == 0 && c.size == 1)
    && (c.index > 0 ==> !c.timer && !c.abort)
    && (c.channels.Some? ==> c.channels.value > 0)
  }

  // The command at `i` has its neighbours in the batch next to it.
  predicate Joined(s: seq<Command>, i: nat)
    requires i < |s|
  {
    && WellFormed(s[i])
    && (s[i].index > 0 ==> i > 0 && Precedes(s[i - 1], s[i]))
    && (s[i].index + 1 < s[i].size ==> i + 1 < |s| && Precedes(s[i], s[i + 1]))
  }

  // Every batch that occurs in `s` does so whole, in order and in one piece.
  predicate Whole(s: seq<Command>) {
    forall i :: 0 <= i < |s| ==> Joined(s, i)
  }

  // No batch reaches across position `p`.
  predicate Cut(s: seq<Command>, p: nat) {
    p <= |s| && (p < |s| ==> s[p].index == 0)
  }

  lemma WholeSplit(s: seq<Command>, p: nat)
    requires Whole(s) && Cut(s, p)
    ensures Whole(s[..p]) && Whole(s[p..])
  {
    forall i | 0 <= i < p ensures Joined(s[..p], i) {
      assert Joined(s, i);
    }
    forall i | 0 <= i < |s| - p ensures Joined(s[p..], i) {
      assert Joined(s, p + i);
    }
  }

  lemma WholeConcat(a: seq<Command>, b: seq<Command>)
    requires Whole(a) && Whole(b)
    ensures Whole(a + b)
  {
    forall i | 0 <= i < |a + b| ensures Joined(a + b, i) {
      if i < |a| {
        assert Joined(a, i);
      } else {
        assert Joined(b, i - |a|);
      }
    }
  }

  lemma WholeInsert(s: seq<Command>, p: nat, block: seq<Command>)
    requires Whole(s) && Cut(s, p) && Whole(block)
    ensures Whole(s[..p] + block + s[p..])
  {
    WholeSplit(s, p);
    WholeConcat(s[..p], block);
    WholeConcat(s[..p] + block, s[p..]);
  }

  lemma WholeRemove(s: seq<Command>, p: nat, e: nat)
    requires Whole(s) && p <= e && Cut(s, p) && Cut(s, e)
    ensures Whole(s[..p] + s[e..]) && Whole(s[p..e])
  {
    WholeSplit(s, p);
    WholeSplit(s, e);
    WholeConcat(s[..p], s[e..]);
    assert s[..e][p..] == s[p..e];
    WholeSplit(s[..e], p);
  }

  // From `p` on, the rest of the batch of the command there.
  predicate IsBlock(s: seq<Command>, p: nat)
    requires p < |s|
  {
    var c := s[p];
    c.index < c.size && p + (c.size - c.index) <= |s| &&
    forall i :: p <= i < p + (c.size - c.index) ==>
      s[i].batch == c.batch && s[i].head == c.head && s[i].chain == c.chain && s[i].slot == c.slot && s[i].size == c.size
      && s[i].index == c.index + (i - p)
  }

  // The rest of a batch follows the command at `p`, then something else does.
  lemma {:induction false} BlockFollows(s: seq<Command>, p: nat)
    requires Whole(s) && p < |s|
    ensures IsBlock(s, p) && Cut(s, p + (s[p].size - s[p].index))
    decreases |s| - p
  {
    assert Joined(s, p);
    if s[p].index + 1 < s[p].size {
      BlockFollows(s, p + 1);
    } else if p + 1 < |s| {
      assert Joined(s, p + 1);
    }
  }

  lemma {:induction false} MemberRunOfBlock(s: seq<Command>, p: nat, q: nat, chain: Option<nat>)
    requires p <= q <= |s| && (q < |s| ==> s[q].index == 0)
    requires forall i :: p <= i < q ==> IsMember(s[i]) && s[i].chain == chain
    ensures MemberRun(s[p..], chain) == q - p
    decreases q - p
  {
    if p < q {
      assert s[p..][1..] == s[p + 1..];
      MemberRunOfBlock(s, p + 1, q, chain);
    }
  }

  /** What `#rejectCommand` takes along is the rest of the batch, no more and no less. */
  lemma CompanionsOfBlock(s: seq<Command>, k: nat)
    requires Whole(s) && k < |s| && s[k].index == 0
    ensures Companions(s, k) == s[k].size - 1
    ensures Cut(s, k + s[k].size) && IsBlock(s, k)
  {
    assert Joined(s, k);
    BlockFollows(s, k);
    if s[k].batch {
      MemberRunOfBlock(s, k + 1, k + s[k].size, s[k].chain);
    }
  }

  /** The insertion point of `asap` and prepended commands is never inside a batch. */
  lemma FrontIsACut(w: seq<Command>, q: Queue)
    requires Whole(w + q.toWrite)
    requires q.toWrite != [] && q.toWrite[0].index > 0 ==> q.toWrite[0].chain == q.chainInExecution
    ensures Cut(w + q.toWrite, |w| + FrontIndex(q))
  {
    var k := FrontIndex(q);
    var s := w + q.toWrite;
    if k < |q.toWrite| {
      assert s[|w| + k] == q.toWrite[k];
      assert Joined(s, |w| + k);
      if k > 0 {
        assert s[|w| + k - 1] == q.toWrite[k - 1];
      }
    }
  }

  lemma {:induction false} SelectConcat(a: seq<Command>, b: seq<Command>, slots: set<nat>, targeted: bool)
    ensures Select(a + b, slots, targeted) == Select(a, slots, targeted) + Select(b, slots, targeted)
    decreases |b|
  {
    if b == [] {
      assert a + b == a;
    } else {
      var init := b[..|b| - 1];
      assert (a + b)[..|a + b| - 1] == a + init;
      SelectConcat(a, init, slots, targeted);
    }
  }

  lemma {:induction false} SelectAll(s: seq<Command>, slots: set<nat>, targeted: bool)
    requires forall i :: 0 <= i < |s| ==> Targets(s[i], slots) == targeted
    ensures Select(s, slots, targeted) == s && Select(s, slots, !targeted) == []
    decreases |s|
  {
    if s != [] {
      SelectAll(s[..|s| - 1], slots, targeted);
      assert s == s[..|s| - 1] + [s[|s| - 1]];
    }
  }

  /** Selecting by slot takes batches whole and leaves whole batches, whatever is already on the wire. */
  lemma {:induction false} SelectWhole(w: seq<Command>, s: seq<Command>, slots: set<nat>)
    requires Whole(w + s)
    requires s != [] && s[0].index > 0 ==> !Targets(s[0], slots)
    ensures Whole(w + Select(s, slots, false)) && Whole(Select(s, slots, true))
    decreases |s|
  {
    if s == [] {
      assert w + [] == w;
    } else {
      assert (w + s)[|w|] == s[0];
      assert Joined(w + s, |w|);
      if Targets(s[0], slots) {
        SelectWholeTargeted(w, s, slots);
      } else {
        SelectWholeKept(w, s, slots);
      }
    }
  }

  lemma {:induction false} SelectWholeKept(w: seq<Command>, s: seq<Command>, slots: set<nat>)
    requires Whole(w + s) && s != [] && !Targets(s[0], slots)
    ensures Whole(w + Select(s, slots, false)) && Whole(Select(s, slots, true))
    decreases |s|, 0
  {
    var w', s' := w + [s[0]], s[1..];
    assert w' + s' == w + s;
    if s' != [] {
      assert (w + s)[|w| + 1] == s[1];
      assert Joined(w + s, |w| + 1);
    }
    hide Whole, Select;
    SelectWhole(w', s', slots);
    SelectAll([s[0]], slots, false);
    SelectConcat([s[0]], s', slots, false);
    SelectConcat([s[0]], s', slots, true);
    assert [s[0]] + s' == s;
    assert [] + Select(s', slots, true) == Select(s', slots, true);
    assert w' + Select(s', slots, false) == w + Select(s, slots, false);
  }

  lemma {:induction false} SelectWholeTargeted(w: seq<Command>, s: seq<Command>, slots: set<nat>)
    requires Whole(w + s) && s != [] && s[0].index == 0 && Targets(s[0], slots)
    ensures Whole(w + Select(s, slots, false)) && Whole(Select(s, slots, true))
    decreases |s|, 0
  {
    hide Whole, Select;
    var m := FirstUnit(w, s);
    var block, rest := s[..m], s[m..];
    SelectAll(block, slots, true);
    SelectConcat(block, rest, slots, false);
    SelectConcat(block, rest, slots, true);
    assert block + rest == s;
    SelectWhole(w, rest, slots);
    WholeConcat(block, Select(rest, slots, true));
    assert [] + Select(rest, slots, false) == Select(rest, slots, false);
  }

  // The batch that starts `s`.
  lemma FirstUnit(w: seq<Command>, s: seq<Command>) returns (m: nat)
    requires Whole(w + s) && s != [] && s[0].index == 0
    ensures 0 < m == s[0].size <= |s| && Whole(s[..m]) && Whole(w + s[m..]) && Cut(s, m)
    ensures forall i :: 0 <= i < m ==> s[i].slot == s[0].slot && s[i].chain == s[0].chain && s[i].index == i
  {
    assert (w + s)[..|w|] == w && (w + s)[|w|..] == s;
    assert (w + s)[|w|] == s[0];
    WholeSplit(w + s, |w|);
    m := s[0].size;
    BlockFollows(s, 0);
    WholeSplit(s, m);
    WholeConcat(w, s[m..]);
  }
}
