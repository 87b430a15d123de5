/** How many requests can be pending: `commandsQueueMaxLength` over whole runs
    (packages/client/lib/client/commands-queue.ts:216-227, 445-451, 528-530, 840-851). */
module QueueCapacity {
  import opened Collections
  import opened QueueSpec
  import opened QueueBlocks
  import opened QueueGuarantees
  import opened QueueRuns

  // What the queued commands will count once written.
  function Weight(s: seq<Command>): nat {
    if s == [] then 0 else (if s[0].prelude then 2 else 1) + Weight(s[1..])
  }

  lemma {:induction false} WeightConcat(a: seq<Command>, b: seq<Command>)
    ensures Weight(a + b) == Weight(a) + Weight(b)
    decreases |a|
  {
    if a == [] {
      assert a + b == b;
    } else {
      assert (a + b)[1..] == a[1..] + b;
      WeightConcat(a[1..], b);
    }
  }

  lemma {:induction false} WeightBounds(s: seq<Command>)
    ensures |s| <= Weight(s) <= 2 * |s|
    ensures (forall c <- s :: !c.prelude) ==> Weight(s) == |s|
    decreases |s|
  {
    if s != [] { WeightBounds(s[1..]); }
  }

  lemma WeightRemoved(s: seq<Command>, i: nat, j: nat)
    requires i <= j <= |s|
    ensures Weight(s[..i] + s[j..]) <= Weight(s)
  {
    assert s == s[..i] + s[i..j] + s[j..];
    WeightConcat(s[..i], s[j..]);
    WeightConcat(s[..i] + s[i..j], s[j..]);
    WeightConcat(s[..i], s[i..j]);
  }

  predicate Limited(op: Op) { !op.Subscribe? && !op.Arrive? }

  // Everything pending, counted as it will be once written.
  function Load(q: Queue): nat { |q.waiting| + Weight(q.toWrite) }

  lemma {:induction false} WriteLoad(q: Queue)
    ensures Load(Write(q).0) <= Load(q) && Write(q).0.maxLength == q.maxLength
    decreases |q.toWrite|
  {
    if q.toWrite != [] && !q.toWrite[0].encodable {
      WriteLoad(q.(toWrite := q.toWrite[1..], settled := Settle(q.settled, [q.toWrite[0].id], Unencodable)));
    }
  }

  lemma {:induction false} SelectLoad(s: seq<Command>, slots: set<nat>, targeted: bool)
    ensures Weight(Select(s, slots, targeted)) <= Weight(s)
    decreases |s|
  {
    if s != [] {
      var init, last := s[..|s| - 1], s[|s| - 1];
      SelectLoad(init, slots, targeted);
      assert s == init + [last];
      WeightConcat(init, [last]);
      assert Select(init, slots, targeted) + [] == Select(init, slots, targeted);
      WeightConcat(Select(init, slots, targeted), [last]);
    }
  }

  lemma ExtractLoad(q: Queue, slots: set<nat>)
    ensures Load(Extract(q, slots).0) <= Load(q) && Extract(q, slots).0.maxLength == q.maxLength
  {
    var n := Reach(q.toWrite, slots, q.chainInExecution);
    var near, far := q.toWrite[..n], q.toWrite[n..];
    assert q.toWrite == near + far;
    WeightConcat(near, far);
    WeightConcat(Select(near, slots, false), far);
    SelectLoad(near, slots, false);
  }

  lemma RejectLoad(q: Queue, k: nat, outcome: Outcome)
    requires k < |q.toWrite|
    ensures Load(RejectAt(q, k, outcome)) <= Load(q)
  {
    WeightRemoved(q.toWrite, k, k + 1 + Companions(q.toWrite, k));
  }

  lemma LoseLoad(q: Queue)
    ensures Load(LoseConnection(q)) <= Load(q) && Load(FlushAll(q)) <= Load(q)
  {
    var n := ChainRun(q.toWrite, q.chainInExecution);
    WeightRemoved(q.toWrite, 0, n);
    assert q.toWrite[..0] + q.toWrite[n..] == q.toWrite[n..];
  }

  // The admitted commands of a batch have no preludes.
  lemma BlockWeight(b: Batch, size: nat, n: nat)
    requires n <= |b.ids|
    ensures Weight(Block(b, size, n)) == n
  {
    WeightBounds(Block(b, size, n));
    assert forall c <- Block(b, size, n) :: !c.prelude;
  }

  // What a step adds to the load.
  function Growth(q: Queue, op: Op): nat {
    match op
    case Add(c, _, aborted, armFails) =>
      if Admit(q, c, aborted, armFails) != Queued then 0 else if c.prelude then 2 else 1
    case AddMany(b, armFails) => if armFails then 0 else AdmittedCount(q, b)
    case _ => 0
  }

  lemma AddedLoad(q: Queue, c: Command, asap: bool)
    ensures Load(AddToWrite(q, c, asap)) == Load(q) + if c.prelude then 2 else 1
  {
    var t := q.toWrite;
    var k := if asap then FrontIndex(q) else |t|;
    assert t == t[..k] + t[k..];
    assert AddToWrite(q, c, asap).toWrite == t[..k] + [c] + t[k..];
    WeightConcat(t[..k], t[k..]);
    WeightConcat(t[..k] + [c], t[k..]);
    WeightConcat(t[..k], [c]);
    assert Weight([c]) == if c.prelude then 2 else 1;
  }

  // A batch whose listeners cannot be armed leaves the queue again.
  lemma UnarmedBatchLeaves(q: Queue, b: Batch)
    ensures AddBatch(q, b, true).toWrite == q.toWrite
  {
    var n, t := AdmittedCount(q, b), q.toWrite;
    if n > 0 {
      var all := t + Block(b, n, n);
      MemberRunOfBlock(all, |t| + 1, |all|, Some(b.chain));
      assert Companions(all, |t|) == n - 1;
      assert all[..|t|] + all[|t| + n..] == t;
    }
  }

  lemma AddedBatchLoad(q: Queue, b: Batch, armFails: bool)
    ensures Load(AddBatch(q, b, armFails)) == Load(q) + if armFails then 0 else AdmittedCount(q, b)
  {
    var n := AdmittedCount(q, b);
    if armFails {
      UnarmedBatchLeaves(q, b);
    } else if n > 0 {
      BlockWeight(b, n, n);
      WeightConcat(q.toWrite, Block(b, n, n));
    }
  }

  lemma GrowthIsExact(s: System, op: Op)
    requires Limited(op)
    ensures Load(Step(s, op).q) <= Load(s.q) + Growth(s.q, op)
    ensures Growth(s.q, op) > 0 ==> Load(Step(s, op).q) == Load(s.q) + Growth(s.q, op)
    ensures Step(s, op).q.maxLength == s.q.maxLength
  {
    hide Weight, Write, Extract, MemberRun, Ids, Mains, Settle, Deafen, Preludes, AddBatch;
    match op
    case Add(c, asap, aborted, armFails) => AddedLoad(s.q, c, asap);
    case AddMany(b, armFails) => AddedBatchLoad(s.q, b, armFails); BatchKeepsLimit(s.q, b, armFails);
    case WriteNext => WriteLoad(s.q);
    case Signal(l) =>
      var k := Find(s.q.toWrite, l.id);
      if k < |s.q.toWrite| { RejectLoad(s.q, k, if l.Timer? then TimedOut else AbortedBySignal); }
    case Lose => LoseLoad(s.q);
    case Flush => LoseLoad(s.q);
    case ExtractSlots(slots) => ExtractLoad(s.q, slots);
    case _ =>
  }

  lemma BatchKeepsLimit(q: Queue, b: Batch, armFails: bool)
    ensures AddBatch(q, b, armFails).maxLength == q.maxLength
  {
  }

  predicate WithoutPrelude(op: Op) { op.Add? ==> !op.c.prelude }

  // Admission leaves room for what is added, as far as it is pending.
  lemma GrowthIsAdmitted(q: Queue, op: Op)
    requires q.maxLength > 0 && Growth(q, op) > 0
    ensures Pending(q) + Growth(q, op) <= q.maxLength
  {
  }

  // No step adds more than admission allows.
  lemma StepLoad(s: System, op: Op)
    requires s.q.maxLength > 0 && Limited(op)
    ensures Load(Step(s, op).q) <= Load(s.q) || Load(Step(s, op).q) <= 2 * s.q.maxLength - 1
    ensures Load(s.q) == Pending(s.q) ==> Load(Step(s, op).q) <= Load(s.q) || Load(Step(s, op).q) <= s.q.maxLength
    ensures Step(s, op).q.maxLength == s.q.maxLength
  {
    GrowthIsExact(s, op);
    WeightBounds(s.q.toWrite);
    if Growth(s.q, op) > 0 { GrowthIsAdmitted(s.q, op); }
    hide Growth, Step;
  }

  predicate NoPreludes(q: Queue) { forall c <- q.toWrite :: !c.prelude }

  lemma {:induction false} WriteNoPreludes(q: Queue)
    requires NoPreludes(q)
    ensures NoPreludes(Write(q).0)
    decreases |q.toWrite|
  {
    if q.toWrite != [] && !q.toWrite[0].encodable {
      WriteNoPreludes(q.(toWrite := q.toWrite[1..], settled := Settle(q.settled, [q.toWrite[0].id], Unencodable)));
    }
  }

  lemma StepNoPreludes(s: System, op: Op)
    requires Limited(op) && WithoutPrelude(op) && NoPreludes(s.q)
    ensures NoPreludes(Step(s, op).q)
  {
    hide Write, MemberRun, Ids, Mains, Settle, Deafen, Preludes;
    match op
    case AddMany(b, armFails) =>
      var n := AdmittedCount(s.q, b);
      assert forall c <- Block(b, n, n) :: !c.prelude;
    case WriteNext => WriteNoPreludes(s.q);
    case ExtractSlots(slots) =>
      SelectSubset(s.q.toWrite[..Reach(s.q.toWrite, slots, s.q.chainInExecution)], slots, false);
    case _ =>
  }

  // Whatever the limit, a run stays within `bound` if its steps do.
  lemma {:induction false} RunWithinTwice(s: System, ops: seq<Op>)
    requires s.q.maxLength > 0 && Load(s.q) <= 2 * s.q.maxLength - 1
    requires forall i :: 0 <= i < |ops| ==> Limited(ops[i])
    ensures Load(Run(s, ops).q) <= 2 * s.q.maxLength - 1
    decreases |ops|
  {
    hide Step, Load;
    if ops != [] {
      StepLoad(s, ops[0]);
      RunWithinTwice(Step(s, ops[0]), ops[1..]);
    }
  }

  lemma {:induction false} RunWithinLimit(s: System, ops: seq<Op>)
    requires s.q.maxLength > 0 && Load(s.q) <= s.q.maxLength && NoPreludes(s.q)
    requires forall i :: 0 <= i < |ops| ==> Limited(ops[i]) && WithoutPrelude(ops[i])
    ensures Load(Run(s, ops).q) <= s.q.maxLength
    decreases |ops|
  {
    hide Step;
    if ops != [] {
      WeightBounds(s.q.toWrite);
      StepLoad(s, ops[0]);
      StepNoPreludes(s, ops[0]);
      RunWithinLimit(Step(s, ops[0]), ops[1..]);
    }
  }

  /** In every run, the pending count stays below twice the configured maximum, and within the maximum
      when no command has a prelude. */
  lemma RunsKeepWithinCapacity(maxLength: nat, ops: seq<Op>)
    requires maxLength > 0 && forall i :: 0 <= i < |ops| ==> Limited(ops[i])
    ensures Pending(Run(Init(maxLength), ops).q) <= 2 * maxLength - 1
    ensures (forall i :: 0 <= i < |ops| ==> WithoutPrelude(ops[i])) ==> Pending(Run(Init(maxLength), ops).q) <= maxLength
  {
    WeightBounds(Run(Init(maxLength), ops).q.toWrite);
    RunWithinTwice(Init(maxLength), ops);
    if forall i :: 0 <= i < |ops| ==> WithoutPrelude(ops[i]) { RunWithinLimit(Init(maxLength), ops); }
  }

  // ---------------------------------------------------------------- exactly when the maximum is kept

  predicate AllEncode(q: Queue) { forall c <- q.toWrite :: c.encodable }

  lemma WriteMoves(s: System)
    requires AllEncode(s.q) && s.q.toWrite != []
    ensures var q' := Step(s, WriteNext).q;
            && q'.toWrite == s.q.toWrite[1..] && q'.maxLength == s.q.maxLength && Load(q') == Load(s.q)
            && AllEncode(q')
  {
    var c := s.q.toWrite[0];
    assert c in s.q.toWrite;
    assert |Requests(c)| == if c.prelude then 2 else 1;
  }

  // Writing goes on until nothing is queued, and then everything counts in full.
  lemma {:induction false} WritesKeepLoad(s: System, k: nat)
    requires AllEncode(s.q)
    ensures var q' := Run(s, Writes(k)).q;
            && Load(q') == Load(s.q) && AllEncode(q') && q'.maxLength == s.q.maxLength
            && |q'.toWrite| == if k < |s.q.toWrite| then |s.q.toWrite| - k else 0
    decreases k
  {
    hide Load;
    if k > 0 {
      assert Writes(k)[0] == WriteNext && Writes(k)[1..] == Writes(k - 1);
      if s.q.toWrite == [] {
        assert Step(s, WriteNext) == s;
      } else {
        WriteMoves(s);
      }
      WritesKeepLoad(Step(s, WriteNext), k - 1);
    }
  }

  /** What is pending stays within a bound until everything is written exactly when the load does. */
  lemma WritingStaysWithin(s: System, bound: nat)
    requires AllEncode(s.q)
    ensures (forall k :: Pending(Run(s, Writes(k)).q) <= bound) <==> Load(s.q) <= bound
  {
    forall k ensures Pending(Run(s, Writes(k)).q) <= Load(s.q) {
      WritesKeepLoad(s, k);
      WeightBounds(Run(s, Writes(k)).q.toWrite);
    }
    WritesKeepLoad(s, |s.q.toWrite|);
    assert Pending(Run(s, Writes(|s.q.toWrite|)).q) == Load(s.q);
  }

  /** The check a caller can make before a step: the load with what it adds is within the maximum. */
  predicate Fits(s: System, op: Op) { Growth(s.q, op) > 0 ==> Load(s.q) + Growth(s.q, op) <= s.q.maxLength }

  lemma {:induction false} WriteEncodes(q: Queue)
    requires AllEncode(q)
    ensures AllEncode(Write(q).0)
  {
  }

  lemma StepEncodes(s: System, op: Op)
    requires Limited(op) && Encodable(op) && AllEncode(s.q)
    ensures AllEncode(Step(s, op).q)
  {
    hide Write, MemberRun, Ids, Mains, Settle, Deafen, Preludes;
    match op
    case AddMany(b, armFails) =>
      var n := AdmittedCount(s.q, b);
      assert forall c <- Block(b, n, n) :: c.encodable;
    case WriteNext => WriteEncodes(s.q);
    case ExtractSlots(slots) =>
      SelectSubset(s.q.toWrite[..Reach(s.q.toWrite, slots, s.q.chainInExecution)], slots, false);
    case _ =>
  }

  // Every step of the run fits.
  predicate FitsAlong(s: System, ops: seq<Op>)
    decreases |ops|
  {
    ops == [] || (Fits(s, ops[0]) && FitsAlong(Step(s, ops[0]), ops[1..]))
  }

  /** At every moment of the run, and however much of the queue is written from there on. */
  ghost predicate WithinAlong(s: System, ops: seq<Op>)
    decreases |ops|
  {
    && (forall k :: Pending(Run(s, Writes(k)).q) <= s.q.maxLength)
    && (ops == [] || WithinAlong(Step(s, ops[0]), ops[1..]))
  }

  lemma {:induction false} WithinExactlyWhenAllFits(s: System, ops: seq<Op>)
    requires AllEncode(s.q) && Load(s.q) <= s.q.maxLength
    requires forall i :: 0 <= i < |ops| ==> Limited(ops[i]) && Encodable(ops[i])
    ensures WithinAlong(s, ops) <==> FitsAlong(s, ops)
    decreases |ops|
  {
    WritingStaysWithin(s, s.q.maxLength);
    if ops != [] {
      var s' := Step(s, ops[0]);
      GrowthIsExact(s, ops[0]);
      StepEncodes(s, ops[0]);
      hide Load, Growth, Step, Pending;
      if Load(s'.q) <= s'.q.maxLength {
        WithinExactlyWhenAllFits(s', ops[1..]);
      } else {
        WritingStaysWithin(s', s'.q.maxLength);
        assert !Fits(s, ops[0]);
      }
    }
  }

  /** The configured maximum is kept, at every moment of a run and of writing out its queue, exactly when
      every command and batch passed the caller's check as it was added. */
  lemma MaximumIsKeptExactlyWhenAllFits(maxLength: nat, ops: seq<Op>)
    requires forall i :: 0 <= i < |ops| ==> Limited(ops[i]) && Encodable(ops[i])
    ensures WithinAlong(Init(maxLength), ops) <==> FitsAlong(Init(maxLength), ops)
  {
    WithinExactlyWhenAllFits(Init(maxLength), ops);
  }

  // ---------------------------------------------------------------- the double bound is reached

  // A command on its own, with a prelude or without.
  function Single(id: nat, prelude: bool): Command {
    Command(id, id, None, None, false, 0, 1, prelude, None, false, false, true, false)
  }

  function AddSingle(id: nat, prelude: bool): Op { Add(Single(id, prelude), false, false, false) }

  // `n` commands with preludes.
  function Fill(n: nat): seq<Op> { if n == 0 then [] else Fill(n - 1) + [AddSingle(n - 1, true)] }

  function Filled(n: nat): seq<Command> { if n == 0 then [] else Filled(n - 1) + [Single(n - 1, true)] }

  // Nothing is written yet, and `n` commands were added.
  predicate Holds(s: System, commands: seq<Command>, maxLength: nat, n: nat) {
    && s.q.toWrite == commands && |commands| == n && s.q.waiting == [] && s.q.maxLength == maxLength
    && forall id <- s.admitted :: id < n
  }

  lemma SingleFits(s: System, commands: seq<Command>, maxLength: nat, n: nat, prelude: bool)
    requires Holds(s, commands, maxLength, n) && n + (if prelude then 2 else 1) <= maxLength
    ensures Legal(s, AddSingle(n, prelude))
    ensures Holds(Step(s, AddSingle(n, prelude)), commands + [Single(n, prelude)], maxLength, n + 1)
  {
  }

  lemma {:induction false} FillFills(maxLength: nat, n: nat)
    requires n < maxLength
    ensures LegalRun(Init(maxLength), Fill(n)) && forall i :: 0 <= i < |Fill(n)| ==> Limited(Fill(n)[i])
    ensures Holds(Run(Init(maxLength), Fill(n)), Filled(n), maxLength, n)
    ensures Weight(Filled(n)) == 2 * n && forall c <- Filled(n) :: c.encodable
  {
    if n > 0 {
      hide Holds, Legal, Step;
      FillFills(maxLength, n - 1);
      var s := Run(Init(maxLength), Fill(n - 1));
      SingleFits(s, Filled(n - 1), maxLength, n - 1, true);
      RunAppend(Init(maxLength), Fill(n - 1), [AddSingle(n - 1, true)]);
      RunOfOne(s, AddSingle(n - 1, true));
      WeightConcat(Filled(n - 1), [Single(n - 1, true)]);
      assert Weight([Single(n - 1, true)]) == 2;
    } else {
      assert Holds(Init(maxLength), [], maxLength, 0);
    }
  }

  // All preludes there is room for, one command without, and everything is written.
  function Doubling(maxLength: nat): seq<Op>
    requires maxLength > 0
  {
    Fill(maxLength - 1) + [AddSingle(maxLength - 1, false)] + Writes(maxLength)
  }

  /** With preludes the maximum itself is not kept: for every maximum there is a run that reaches twice the
      maximum less one, which exceeds it from 2 on. */
  lemma PreludesReachTheDoubleBound(maxLength: nat)
    requires maxLength > 0
    ensures LegalRun(Init(maxLength), Doubling(maxLength))
    ensures forall i :: 0 <= i < |Doubling(maxLength)| ==> Limited(Doubling(maxLength)[i])
    ensures Pending(Run(Init(maxLength), Doubling(maxLength)).q) == 2 * maxLength - 1
  {
    hide Holds, Legal, Step, Run, LegalRun, Filled;
    var n := maxLength - 1;
    var last := AddSingle(n, false);
    FillFills(maxLength, n);
    var s := Run(Init(maxLength), Fill(n));
    SingleFits(s, Filled(n), maxLength, n, false);
    RunAppend(Init(maxLength), Fill(n), [last]);
    RunOfOne(s, last);
    RunAppend(Init(maxLength), Fill(n) + [last], Writes(maxLength));
    WrittenInFull(Step(s, last), Filled(n), maxLength);
    WritesAreLegal(Step(s, last), maxLength);
  }

  lemma WrittenInFull(s: System, commands: seq<Command>, maxLength: nat)
    requires maxLength > 0 && Weight(commands) == 2 * (maxLength - 1) && forall c <- commands :: c.encodable
    requires Holds(s, commands + [Single(maxLength - 1, false)], maxLength, maxLength)
    ensures Pending(Run(s, Writes(maxLength)).q) == 2 * maxLength - 1
  {
    WeightConcat(commands, [Single(maxLength - 1, false)]);
    assert Weight([Single(maxLength - 1, false)]) == 1;
    WritesKeepLoad(s, maxLength);
  }

  lemma {:induction false} WritesAreLegal(s: System, k: nat)
    ensures LegalRun(s, Writes(k))
    decreases k
  {
    if k > 0 {
      assert Writes(k)[0] == WriteNext && Writes(k)[1..] == Writes(k - 1);
      WritesAreLegal(Step(s, WriteNext), k - 1);
    }
  }
}
