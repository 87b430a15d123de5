/** Runs in which every batch has a chain id of its own, as `addBatch` makes them, and what slot migration
    takes in them (packages/client/lib/client/commands-queue.ts:522-560, 946-972). */
module QueueChains {
  import opened Collections
  import opened QueueSpec
  import opened QueueBlocks
  import opened QueueRuns
  import opened QueueGuarantees

  // The chains whose batches start in `s`.
  function HeadOf(c: Command): multiset<nat> {
    if c.index == 0 && c.chain.Some? then multiset{c.chain.value} else multiset{}
  }

  function Heads(s: seq<Command>): multiset<nat> {
    if s == [] then multiset{} else Heads(s[..|s| - 1]) + HeadOf(s[|s| - 1])
  }

  predicate Unchained(op: Op) {
    match op
    case Add(c, _, _, _) => c.chain.None?
    case Subscribe(c, _) => c.chain.None?
    case _ => true
  }

  /** New chain ids are new: no queued batch has them, and none is in execution. */
  ghost predicate NewChains(s: System, op: Op) {
    match op
    case AddMany(b, _) => Heads(s.q.toWrite)[b.chain] == 0 && s.q.chainInExecution != Some(b.chain)
    case Arrive(cs, _) => forall x :: Heads(s.q.toWrite)[x] + Heads(cs)[x] <= 1
    case _ => Unchained(op)
  }

  ghost predicate NewChainsRun(s: System, ops: seq<Op>)
    decreases |ops|
  {
    ops == [] || (NewChains(s, ops[0]) && Encodable(ops[0]) && NewChainsRun(Step(s, ops[0]), ops[1..]))
  }

  /** No two queued batches share a chain id, and none starts with the id of the chain in execution. */
  ghost predicate OwnChains(q: Queue) {
    && (forall x :: Heads(q.toWrite)[x] <= 1)
    && (q.chainInExecution.Some? ==> Heads(q.toWrite)[q.chainInExecution.value] == 0)
  }

  // ---------------------------------------------------------------- counting heads

  lemma {:induction false} HeadsConcat(a: seq<Command>, b: seq<Command>)
    ensures Heads(a + b) == Heads(a) + Heads(b)
    decreases |b|
  {
    if b == [] {
      assert a + b == a;
    } else {
      assert (a + b)[..|a + b| - 1] == a + b[..|b| - 1];
      HeadsConcat(a, b[..|b| - 1]);
    }
  }

  lemma HeadsOfOne(c: Command)
    ensures Heads([c]) == HeadOf(c)
  {
    assert [c][..0] == [] && Heads([]) == multiset{};
  }

  lemma HeadsOfPart(s: seq<Command>, k: nat, e: nat)
    requires k <= e <= |s|
    ensures Heads(s) == Heads(s[..k]) + Heads(s[k..e]) + Heads(s[e..])
    ensures Heads(s[..k] + s[e..]) == Heads(s[..k]) + Heads(s[e..])
  {
    hide Heads;
    assert s == s[..k] + s[k..e] + s[e..];
    HeadsConcat(s[..k] + s[k..e], s[e..]);
    HeadsConcat(s[..k], s[k..e]);
    HeadsConcat(s[..k], s[e..]);
  }

  lemma {:induction false} HeadsSelected(s: seq<Command>, slots: set<nat>, targeted: bool)
    ensures Heads(Select(s, slots, targeted)) <= Heads(s)
    decreases |s|
  {
    if s != [] {
      var init, last := s[..|s| - 1], s[|s| - 1];
      HeadsSelected(init, slots, targeted);
      HeadsConcat(Select(init, slots, targeted), [last]);
      HeadsOfOne(last);
      assert Select(init, slots, targeted) + [] == Select(init, slots, targeted);
    }
  }

  lemma {:induction false} HeadsSurviving(cs: seq<Command>, fired: set<Listener>)
    ensures Heads(Survivors(cs, fired)) <= Heads(cs)
    decreases |cs|
  {
    if cs != [] {
      var m := 1 + Companions(cs, 0);
      HeadsSurviving(cs[m..], fired);
      assert cs == cs[..m] + cs[m..];
      HeadsConcat(cs[..m], cs[m..]);
      HeadsConcat(if Cancelled(cs[0], fired) then [] else cs[..m], Survivors(cs[m..], fired));
    }
  }

  lemma {:induction false} HeadsOfBlock(b: Batch, size: nat, n: nat)
    requires n <= |b.ids|
    ensures Heads(Block(b, size, n)) == if n == 0 then multiset{} else multiset{b.chain}
  {
    if n == 0 {
      assert Block(b, size, n) == [];
    } else {
      hide Heads;
      var last := BatchCommand(b, size, n - 1);
      HeadsOfBlock(b, size, n - 1);
      assert Block(b, size, n) == Block(b, size, n - 1) + [last];
      HeadsConcat(Block(b, size, n - 1), [last]);
      HeadsOfOne(last);
    }
  }

  // ---------------------------------------------------------------- one step

  // Fewer commands, with the same chain in execution or none.
  lemma FewerKeeps(q: Queue, q': Queue)
    requires OwnChains(q) && Heads(q'.toWrite) <= Heads(q.toWrite)
    requires q'.chainInExecution == q.chainInExecution || q'.chainInExecution.None?
    ensures OwnChains(q')
  {
  }

  lemma RejectFewer(q: Queue, k: nat, outcome: Outcome)
    requires k < |q.toWrite|
    ensures Heads(RejectAt(q, k, outcome).toWrite) <= Heads(q.toWrite)
    ensures RejectAt(q, k, outcome).chainInExecution == q.chainInExecution
  {
    hide Heads, Deafen, Settle, Ids, Companions;
    HeadsOfPart(q.toWrite, k, k + 1 + Companions(q.toWrite, k));
  }

  lemma AddKeeps(q: Queue, c: Command, asap: bool)
    requires OwnChains(q) && c.chain.None?
    ensures OwnChains(AddToWrite(q, c, asap)) && OwnChains(AddCommand(q, c, asap))
  {
    var k := FrontIndex(q);
    var t := q.toWrite;
    HeadsOfOne(c);
    HeadsConcat(t, [c]);
    HeadsConcat(t[..k] + [c], t[k..]);
    HeadsConcat(t[..k], [c]);
    HeadsOfPart(t, k, k);
    assert t[k..k] == [];
    FewerKeeps(q, AddToWrite(q, c, asap));
  }

  lemma AddBatchKeeps(q: Queue, b: Batch, armFails: bool)
    requires OwnChains(q) && Heads(q.toWrite)[b.chain] == 0 && q.chainInExecution != Some(b.chain)
    ensures OwnChains(AddBatch(q, b, armFails))
  {
    var n := AdmittedCount(q, b);
    if n > 0 {
      var t, block := q.toWrite, Block(b, n, n);
      HeadsOfBlock(b, n, n);
      HeadsConcat(t, block);
      var q' := q.(toWrite := t + block, listening := q.listening + ListenersOf(BatchCommand(b, n, 0)));
      assert OwnChains(q');
      hide OwnChains, RejectAt;
      if armFails {
        RejectFewer(q', |t|, NotArmed);
        FewerKeeps(q', AddBatch(q, b, armFails));
      }
    }
  }

  // The first command is written: a tail of the chain in execution, or the start of another.
  lemma HeadWritten(q: Queue, q': Queue)
    requires OwnChains(q) && q.toWrite != [] && q'.toWrite == q.toWrite[1..]
    requires q'.chainInExecution == q.toWrite[0].chain
    requires q.toWrite[0].index > 0 ==> q.toWrite[0].chain == q.chainInExecution
    ensures OwnChains(q')
  {
    var c, rest := q.toWrite[0], q.toWrite[1..];
    hide Heads;
    assert q.toWrite == [c] + rest;
    HeadsConcat([c], rest);
    HeadsOfOne(c);
    forall x ensures Heads(rest)[x] <= 1 { assert Heads(q.toWrite)[x] <= 1; }
    assert c.chain.Some? ==> Heads(q.toWrite)[c.chain.value] <= 1;
  }

  lemma WriteKeeps(w: seq<Command>, q: Queue)
    requires InPlace(w, q) && OwnChains(q)
    ensures OwnChains(Write(q).0)
  {
    hide OwnChains, Whole;
    if q.toWrite != [] {
      assert q.toWrite[0] in q.toWrite && q.toWrite[0].encodable;
      HeadWritten(q, Write(q).0);
    }
  }

  lemma FireKeeps(q: Queue, l: Listener)
    requires OwnChains(q)
    ensures OwnChains(Fire(q, l))
  {
    hide RejectAt, OwnChains, BatchStarted;
    var k := Find(q.toWrite, l.id);
    if k < |q.toWrite| {
      RejectFewer(q, k, if l.Timer? then TimedOut else AbortedBySignal);
    }
    FewerKeeps(q, Fire(q, l));
  }

  lemma LoseKeeps(q: Queue)
    requires OwnChains(q)
    ensures OwnChains(LoseConnection(q)) && OwnChains(FlushAll(q))
  {
    LoseLeaves(q);
    HeadsOfPart(q.toWrite, 0, FrontIndex(q));
    FewerKeeps(q, LoseConnection(q));
    FewerKeeps(q, FlushAll(q));
  }

  lemma ExtractKeeps(q: Queue, slots: set<nat>)
    requires OwnChains(q)
    ensures OwnChains(Extract(q, slots).0)
  {
    var n := Reach(q.toWrite, slots, q.chainInExecution);
    HeadsSelected(q.toWrite[..n], slots, false);
    HeadsConcat(Select(q.toWrite[..n], slots, false), q.toWrite[n..]);
    HeadsOfPart(q.toWrite, n, n);
    FewerKeeps(q, Extract(q, slots).0);
  }

  lemma ArriveKeeps(w: seq<Command>, q: Queue, cs: seq<Command>, fired: set<Listener>)
    requires InPlace(w, q) && OwnChains(q) && Whole(cs) && AllForeign(q, cs) && forall c <- cs :: c.encodable
    requires forall x :: Heads(q.toWrite)[x] + Heads(cs)[x] <= 1
    requires forall c <- cs :: c.chain.Some? ==> c.chain != q.chainInExecution
    ensures OwnChains(Prepend(q, cs, fired))
  {
    hide Prepend, Survivors, Whole;
    var t, k, kept := q.toWrite, FrontIndex(q), Survivors(cs, fired);
    ArriveInPlace(w, q, cs, fired);
    PrependKeepsChain(q, cs, fired);
    HeadsSurviving(cs, fired);
    HeadsConcat(t[..k] + kept, t[k..]);
    HeadsConcat(t[..k], kept);
    HeadsOfPart(t, k, k);
    if q.chainInExecution.Some? { NoHead(cs, q.chainInExecution.value); }
  }

  lemma {:induction false} PrependKeepsChain(q: Queue, cs: seq<Command>, fired: set<Listener>)
    ensures Prepend(q, cs, fired).chainInExecution == q.chainInExecution
    decreases |cs|
  {
    if cs != [] { PrependKeepsChain(q, cs[1..], fired); }
  }

  lemma {:induction false} NoHead(s: seq<Command>, x: nat)
    requires forall c <- s :: c.chain != Some(x)
    ensures Heads(s)[x] == 0
    decreases |s|
  {
    if s != [] { NoHead(s[..|s| - 1], x); }
  }

  lemma StepKeepsOwnChains(s: System, op: Op)
    requires Inv(s) && Blocks(s) && Legal(s, op) && Encodable(op) && NewChains(s, op)
    requires OwnChains(s.q)
    ensures OwnChains(Step(s, op).q)
  {
    hide Inv, OwnChains, Prepend, Write, Extract, AddToWrite, AddBatch, Fire, LoseConnection, FlushAll, Settle, Ids,
         Heads, Mains, Unsplit, AllEncoded, Deafen;
    match op
    case Add(c, asap, _, _) => AddKeeps(s.q, c, asap);
    case Subscribe(c, asap) => AddKeeps(s.q, c, asap);
    case AddMany(b, armFails) => AddBatchKeeps(s.q, b, armFails);
    case WriteNext => WriteKeeps(s.wire, s.q);
    case Signal(l) => FireKeeps(s.q, l);
    case Lose => LoseKeeps(s.q);
    case Flush => LoseKeeps(s.q);
    case ExtractSlots(slots) => ExtractKeeps(s.q, slots);
    case Arrive(cs, fired) => ArriveKeeps(s.wire, s.q, cs, fired);
    case _ => FewerKeeps(s.q, Step(s, op).q);
  }

  lemma {:induction false} RunKeepsOwnChains(s: System, ops: seq<Op>)
    requires Inv(s) && Blocks(s) && OwnChains(s.q) && LegalRun(s, ops) && NewChainsRun(s, ops)
    ensures Inv(Run(s, ops)) && Blocks(Run(s, ops)) && OwnChains(Run(s, ops).q)
    decreases |ops|
  {
    hide Inv, Blocks, Legal, Step, OwnChains, NewChains;
    if ops != [] {
      StepKeepsInv(s, ops[0]);
      StepKeepsBlocks(s, ops[0]);
      StepKeepsOwnChains(s, ops[0]);
      RunKeepsOwnChains(Step(s, ops[0]), ops[1..]);
    }
  }

  // ---------------------------------------------------------------- what migrates

  lemma HeadCounts(s: seq<Command>, i: nat)
    requires i < |s| && s[i].index == 0 && s[i].chain.Some?
    ensures Heads(s)[s[i].chain.value] > 0
  {
    HeadsOfPart(s, i, i + 1);
    HeadsOfOne(s[i]);
    assert s[i..i + 1] == [s[i]];
  }

  // A command of a batch has the start of the batch `index` places in front of it.
  lemma {:induction false} HeadBefore(s: seq<Command>, i: nat)
    requires Whole(s) && i < |s|
    ensures s[i].index <= i && s[i - s[i].index].index == 0 && s[i - s[i].index].chain == s[i].chain
    ensures forall j :: i - s[i].index <= j <= i ==> s[j].index == j - (i - s[i].index) && s[j].size == s[i].size
    decreases i
  {
    assert Joined(s, i);
    if s[i].index > 0 { HeadBefore(s, i - 1); }
  }

  lemma OwnChainsAreFresh(s: System)
    requires Blocks(s) && OwnChains(s.q)
    ensures FreshChains(s)
  {
    var t, all := s.q.toWrite, s.wire + s.q.toWrite;
    if s.q.chainInExecution.Some? {
      forall i | 0 <= i < |t| && t[i].chain == s.q.chainInExecution
        ensures t[0].index > 0 && i < t[0].size - t[0].index
      {
        var p := |s.wire| + i;
        assert all[p] == t[i];
        HeadBefore(all, p);
        assert Joined(all, p);
        var h := p - t[i].index;
        if h >= |s.wire| {
          assert all[h] == t[h - |s.wire|];
          HeadCounts(t, h - |s.wire|);
        }
        assert h < |s.wire|;
        assert all[|s.wire|] == t[0];
      }
    }
  }

  /** In every run whose batches have chain ids of their own, slot migration takes nothing if the
      unwritten tail of the batch in execution targets a migrating slot, and otherwise exactly the
      commands that target one, in order and with batches whole. */
  lemma MigrationIsAPartition(maxLength: nat, ops: seq<Op>, slots: set<nat>)
    requires LegalRun(Init(maxLength), ops) && NewChainsRun(Init(maxLength), ops)
    ensures var s := Run(Init(maxLength), ops);
            var (q', taken) := Extract(s.q, slots);
            && taken == (if TailMigrates(s.q, slots) then [] else Select(s.q.toWrite, slots, true))
            && q'.toWrite == (if TailMigrates(s.q, slots) then s.q.toWrite else Select(s.q.toWrite, slots, false))
            && Whole(taken) && Whole(s.wire + q'.toWrite)
  {
    var s := Run(Init(maxLength), ops);
    InitHasInv(maxLength);
    RunKeepsOwnChains(Init(maxLength), ops);
    OwnChainsAreFresh(s);
    ExtractionPartitions(s, slots);
  }
}
