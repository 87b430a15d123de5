/** What the queue guarantees in every reachable state. */
module QueueGuarantees {
  import opened Collections
  import opened QueueSpec
  import opened QueueBlocks
  import opened QueueRuns

  // ---------------------------------------------------------------- replies

  // What these commands ask of the server.
  function OwedFor(w: seq<Command>): seq<Due> {
    if w == [] then [] else OwedFor(w[..|w| - 1]) + Owed(w[|w| - 1])
  }

  // Less the status pushes that came already.
  predicate PartOf(left: Due, whole: Due) {
    left == whole || (left.StatusPushes? && whole.StatusPushes? && left == whole.(left := left.left)
                      && 0 < left.left <= whole.left)
  }

  /** `server` is the end of `owed`, in order; of the first some status pushes may have come. */
  predicate Unanswered(server: seq<Due>, owed: seq<Due>) {
    && |server| <= |owed|
    && (server != [] ==> PartOf(server[0], owed[|owed| - |server|]))
    && forall i :: 0 < i < |server| ==> server[i] == owed[|owed| - |server| + i]
  }

  /** What the server still owes is the end of what the commands on the wire ask of it. */
  predicate AnswersTheWire(s: System) { Unanswered(s.server, OwedFor(s.wire)) }

  lemma MoreUnanswered(server: seq<Due>, owed: seq<Due>, more: seq<Due>)
    requires Unanswered(server, owed)
    ensures Unanswered(server + more, owed + more)
  {
  }

  lemma LessUnanswered(server: seq<Due>, owed: seq<Due>)
    requires Unanswered(server, owed) && server != []
    ensures Unanswered(server[1..], owed) && (server[0].StatusPushes? ==> Unanswered(ServerPush(server), owed))
  {
    var d := |owed| - |server|;
    forall i | 0 <= i < |server| - 1 ensures server[1..][i] == owed[d + 1 + i] {
      assert server[i + 1] == owed[d + (i + 1)];
    }
    if server[0].StatusPushes? && server[0].left > 1 {
      var rest := ServerPush(server);
      assert rest[1..] == server[1..];
      forall i | 0 < i < |server| ensures rest[i] == owed[d + i] { assert rest[i] == server[i]; }
    }
  }

  lemma StepAnswersTheWire(s: System, op: Op)
    requires AnswersTheWire(s) && Legal(s, op)
    ensures AnswersTheWire(Step(s, op))
  {
    hide Unanswered, Write, OwedFor, Owed, ServerPush, Prepend, Extract, Fire, AddBatch, OnReply, OnStatusPush,
         LoseConnection, FlushAll, Ids, Settle;
    if op == WriteNext && Write(s.q).1.Some? {
      var c := Write(s.q).1.value;
      OwedForSnoc(s.wire, c);
      MoreUnanswered(s.server, OwedFor(s.wire), Owed(c));
    } else if op == Lose || op == Flush {
      NoneUnanswered();
    } else if (op.StatusPush? || op.Answer?) && s.server != [] {
      LessUnanswered(s.server, OwedFor(s.wire));
    }
  }

  lemma NoneUnanswered()
    ensures Unanswered([], OwedFor([]))
  {
  }

  lemma OwedForSnoc(w: seq<Command>, c: Command)
    ensures OwedFor(w + [c]) == OwedFor(w) + Owed(c)
  {
    assert (w + [c])[..|w|] == w;
  }

  lemma {:induction false} RunAnswersTheWire(s: System, ops: seq<Op>)
    requires AnswersTheWire(s) && LegalRun(s, ops)
    ensures AnswersTheWire(Run(s, ops))
    decreases |ops|
  {
    if ops != [] {
      StepAnswersTheWire(s, ops[0]);
      hide AnswersTheWire, Step, Legal;
      RunAnswersTheWire(Step(s, ops[0]), ops[1..]);
    }
  }

  /** In every run the server answers in wire order. */
  lemma ServerAnswersInWireOrder(maxLength: nat, ops: seq<Op>)
    requires LegalRun(Init(maxLength), ops)
    ensures AnswersTheWire(Run(Init(maxLength), ops))
  {
    NoneUnanswered();
    RunAnswersTheWire(Init(maxLength), ops);
  }

  /** Every reply settles the command, or is reported to the prelude, that the server answers; a
      prelude's outcome is known before its command is settled, and never settles it. */
  lemma AnswerReachesItsOwn(s: System, ok: bool)
    requires Inv(s) && Legal(s, Answer(ok))
    ensures var d, q, q' := s.server[0], s.q, Step(s, Answer(ok)).q;
            && (d.PreludeReply? ==> q'.settled == q.settled && q'.reported == q.reported[d.id := ok])
            && (!d.PreludeReply? ==>
                  && d.id !in q.settled && q'.settled == q.settled[d.id := if ok then Resolved else ErrorReply]
                  && q'.reported == q.reported && (d.after ==> d.id in q.reported))
            && q'.toWrite == q.toWrite && q'.waiting == q.waiting[1..]
  {
    hide Conserved, Heard, Formed, Mains, Settle;
    var id := s.q.waiting[0].id;
    ConservedMeans(s);
    MainsHead(s.q.waiting);
    if !s.q.waiting[0].isPrelude {
      WaitingIsNotSettled(s.q, s.out, s.admitted, id);
      SettleOne(s.q.settled, id, if ok then Resolved else ErrorReply);
    }
  }

  lemma SettleOne(settled: map<nat, Outcome>, id: nat, outcome: Outcome)
    requires id !in settled
    ensures Settle(settled, [id], outcome) == settled[id := outcome]
  {
  }

  /** A subscription is settled by the last of its status pushes, and by none of the earlier ones. */
  lemma PushReachesItsOwn(s: System)
    requires Inv(s) && Legal(s, StatusPush)
    ensures var d, q, q' := s.server[0], s.q, Step(s, StatusPush).q;
            && d.left > 0
            && (d.left == 1 ==>
                  d.id !in q.settled && q'.settled == q.settled[d.id := Resolved] && q'.waiting == q.waiting[1..])
            && (d.left > 1 ==>
                  && q' == q.(waiting := q'.waiting) && |q'.waiting| == |q.waiting| && q'.waiting[1..] == q.waiting[1..]
                  && Awaits(q'.waiting[0], d.(left := d.left - 1)))
  {
    hide Conserved, Heard, Formed, Mains, Settle;
    assert PreludeLeads(s.q.waiting, 0);
    MainsHead(s.q.waiting);
    ConservedMeans(s);
    WaitingIsNotSettled(s.q, s.out, s.admitted, s.q.waiting[0].id);
    SettleOne(s.q.settled, s.q.waiting[0].id, Resolved);
  }

  lemma ConservedMeans(s: System)
    ensures Conserved(s) ==> Places(s.q, s.out) == multiset(s.admitted)
  {
  }

  // ---------------------------------------------------------------- conservation

  function Count(b: bool): nat { if b then 1 else 0 }

  /** In every run, each admitted command is in exactly one of to-write, waiting for its reply, handed
      out, or settled; nothing else is anywhere. */
  lemma RunsConserveCommands(maxLength: nat, ops: seq<Op>, id: nat)
    requires LegalRun(Init(maxLength), ops)
    ensures var s := Run(Init(maxLength), ops);
            multiset(Ids(s.q.toWrite))[id] + multiset(Mains(s.q.waiting))[id] + s.out[id] + Count(id in s.q.settled)
              == Count(id in s.admitted)
  {
    InitHasInv(maxLength);
    RunKeepsInv(Init(maxLength), ops);
    var s := Run(Init(maxLength), ops);
    assert Places(s.q, s.out)[id] == multiset(s.admitted)[id];
  }

  ghost predicate Written(s: System, id: nat) {
    (exists c <- s.wire :: c.id == id) || (exists w <- s.past, c <- w :: c.id == id)
  }

  /** In every run, a command cancelled by its timer or signal is never written, and no timer or
      signal has any effect on a written one. */
  lemma CancelledIsNeverWritten(maxLength: nat, ops: seq<Op>, id: nat)
    requires LegalRun(Init(maxLength), ops)
    ensures var s := Run(Init(maxLength), ops);
            Written(s, id) ==>
              && (id in s.q.settled ==> s.q.settled[id] !in {TimedOut, AbortedBySignal, NotArmed, Unencodable})
              && Timer(id) !in s.q.listening && Abort(id) !in s.q.listening
              && Step(s, Signal(Timer(id))) == s && Step(s, Signal(Abort(id))) == s
  {
    InitHasInv(maxLength);
    RunKeepsInv(Init(maxLength), ops);
    if Written(Run(Init(maxLength), ops), id) {
      WrittenIsSafe(Run(Init(maxLength), ops), id);
    }
  }

  lemma WrittenIsSafe(s: System, id: nat)
    requires Inv(s) && Written(s, id)
    ensures id in s.q.settled ==> FromWire(s.q.settled[id])
    ensures Timer(id) !in s.q.listening && Abort(id) !in s.q.listening
    ensures Step(s, Signal(Timer(id))) == s && Step(s, Signal(Abort(id))) == s
  {
    assert Places(s.q, s.out)[id] == multiset(s.admitted)[id] <= 1;
    assert Answerable(s.q, id);
    InIds(s.q.toWrite);
  }

  /** Cancelling a batch that has not started removes exactly its commands, and settles exactly them. */
  lemma CancelRemovesTheBatch(s: System, l: Listener)
    requires Inv(s) && Blocks(s) && l in s.q.listening
    ensures var k := Find(s.q.toWrite, l.id);
            && k < |s.q.toWrite| && s.q.toWrite[k].index == 0
            && k + s.q.toWrite[k].size <= |s.q.toWrite|
            && (forall i :: k <= i < k + s.q.toWrite[k].size ==>
                  s.q.toWrite[i].index == i - k && s.q.toWrite[i].chain == s.q.toWrite[k].chain)
            && (!BatchStarted(s.q, s.q.toWrite[k]) ==>
                  var e := k + s.q.toWrite[k].size;
                  && Step(s, Signal(l)).q.toWrite == s.q.toWrite[..k] + s.q.toWrite[e..]
                  && Step(s, Signal(l)).q.settled.Keys == s.q.settled.Keys + (set id <- Ids(s.q.toWrite[k..e]))
                  && forall id <- Step(s, Signal(l)).q.settled :: id !in s.q.settled ==>
                       Step(s, Signal(l)).q.settled[id] == if l.Timer? then TimedOut else AbortedBySignal)
  {
    hide Inv, Blocks, Step, Ids, Find, BatchStarted, Companions;
    var k := CancellableAt(s, l.id);
    var m := UnitInQueue(s, k);
    if !BatchStarted(s.q, s.q.toWrite[k]) { FireRemoves(s, l, k, m); }
  }

  lemma FireRemoves(s: System, l: Listener, k: nat, m: nat)
    requires l in s.q.listening && k == Find(s.q.toWrite, l.id) < |s.q.toWrite| && m == 1 + Companions(s.q.toWrite, k)
    requires !BatchStarted(s.q, s.q.toWrite[k])
    ensures var (q', e) := (Step(s, Signal(l)).q, k + m);
            && q'.toWrite == s.q.toWrite[..k] + s.q.toWrite[e..]
            && q'.settled.Keys == s.q.settled.Keys + (set id <- Ids(s.q.toWrite[k..e]))
            && forall id <- q'.settled :: id !in s.q.settled ==>
                 q'.settled[id] == if l.Timer? then TimedOut else AbortedBySignal
  {
    hide Companions, Deafen, Settle, Ids, BatchStarted, Find;
    SettledKeys(s.q.settled, Ids(s.q.toWrite[k..k + m]), if l.Timer? then TimedOut else AbortedBySignal);
  }

  lemma SettledKeys(settled: map<nat, Outcome>, ids: seq<nat>, outcome: Outcome)
    ensures Settle(settled, ids, outcome).Keys == settled.Keys + set id <- ids
    ensures forall id <- Settle(settled, ids, outcome) :: id !in settled ==> Settle(settled, ids, outcome)[id] == outcome
  {
  }

  // The command a signal cancels starts its batch.
  lemma CancellableAt(s: System, id: nat) returns (k: nat)
    requires Inv(s) && Blocks(s) && (exists l <- s.q.listening :: l.id == id)
    ensures k == Find(s.q.toWrite, id) < |s.q.toWrite| && s.q.toWrite[k].index == 0
  {
    assert id in Cancellable(s.q.toWrite);
    var c :| c in s.q.toWrite && !IsMember(c) && c.id == id;
    var i :| 0 <= i < |s.q.toWrite| && s.q.toWrite[i] == c;
    k := Find(s.q.toWrite, id);
    QueuedOnce(s.q, s.out, s.admitted, i, k);
  }

  lemma UnitInQueue(s: System, k: nat) returns (m: nat)
    requires Blocks(s) && k < |s.q.toWrite| && s.q.toWrite[k].index == 0
    ensures 0 < m == s.q.toWrite[k].size && k + m <= |s.q.toWrite| && m == 1 + Companions(s.q.toWrite, k)
    ensures Cut(s.q.toWrite, k + m)
    ensures forall i :: k <= i < k + m ==>
      && s.q.toWrite[i].index == i - k && s.q.toWrite[i].chain == s.q.toWrite[k].chain
      && s.q.toWrite[i].slot == s.q.toWrite[k].slot
  {
    var all, t := s.wire + s.q.toWrite, s.q.toWrite;
    assert all[|s.wire| + k] == t[k];
    WholeSplit(all, |s.wire| + k);
    assert all[|s.wire| + k..] == t[k..];
    m := t[k].size;
    CompanionsOfBlock(t[k..], 0);
    assert t[k..][1..] == t[k + 1..];
    forall i | k <= i < k + m ensures t[i].index == i - k && t[i].chain == t[k].chain && t[i].slot == t[k].slot {
      assert t[k..][i - k] == t[i];
    }
    assert k + m < |t| ==> t[k..][m] == t[k + m];
  }

  // ---------------------------------------------------------------- batches

  predicate Encodable(op: Op) {
    match op
    case Add(c, _, _, _) => c.encodable
    case Subscribe(c, _) => c.encodable
    case AddMany(b, _) => b.unencodable == {}
    case Arrive(cs, _) => forall c <- cs :: c.encodable
    case _ => true
  }

  /** What a connection may carry: every command of a batch right behind the one before it, and a
      batch cut short only where the connection ends. */
  predicate Unsplit(w: seq<Command>) {
    forall i :: 0 <= i < |w| ==> NotSplitAt(w, i)
  }

  predicate NotSplitAt(w: seq<Command>, i: nat)
    requires i < |w|
  {
    && WellFormed(w[i])
    && (w[i].index > 0 ==> i > 0 && Precedes(w[i - 1], w[i]))
    && (w[i].index + 1 < w[i].size && i + 1 < |w| ==> Precedes(w[i], w[i + 1]))
  }

  ghost predicate AllEncoded(settled: map<nat, Outcome>) {
    forall id <- settled :: settled[id] != Unencodable
  }

  /** Batches are whole in what is on the wire together with what is queued behind it, an unfinished
      one is the chain in execution, and earlier connections split none. */
  ghost predicate Blocks(s: System) {
    && InPlace(s.wire, s.q)
    && AllEncoded(s.q.settled)
    && (forall w <- s.past :: Unsplit(w))
  }

  // The part of the invariant that says where batches are.
  ghost predicate InPlace(w: seq<Command>, q: Queue) {
    && Whole(w + q.toWrite)
    && (forall c <- q.toWrite :: c.encodable)
    && (q.toWrite != [] && q.toWrite[0].index > 0 ==> q.toWrite[0].chain == q.chainInExecution)
  }

  lemma InsertInPlace(w: seq<Command>, q: Queue, k: nat, block: seq<Command>)
    requires InPlace(w, q) && k <= |q.toWrite| && Cut(w + q.toWrite, |w| + k)
    requires Whole(block) && (forall c <- block :: c.encodable) && block != []
    ensures InPlace(w, q.(toWrite := q.toWrite[..k] + block + q.toWrite[k..]))
  {
    var s, t := w + q.toWrite, q.toWrite[..k] + block + q.toWrite[k..];
    WholeInsert(s, |w| + k, block);
    assert s[..|w| + k] + block + s[|w| + k..] == w + t;
    assert Joined(block, 0);
  }

  lemma RemoveInPlace(w: seq<Command>, q: Queue, k: nat, e: nat)
    requires InPlace(w, q) && k <= e <= |q.toWrite| && Cut(w + q.toWrite, |w| + k) && Cut(w + q.toWrite, |w| + e)
    ensures InPlace(w, q.(toWrite := q.toWrite[..k] + q.toWrite[e..]))
  {
    var s, t := w + q.toWrite, q.toWrite[..k] + q.toWrite[e..];
    WholeRemove(s, |w| + k, |w| + e);
    assert s[..|w| + k] + s[|w| + e..] == w + t;
    assert e < |q.toWrite| ==> s[|w| + e] == q.toWrite[e];
  }

  lemma AddInPlace(w: seq<Command>, q: Queue, c: Command, asap: bool)
    requires InPlace(w, q) && WellFormed(c) && !c.batch && c.encodable
    ensures InPlace(w, AddToWrite(q, c, asap))
  {
    assert Whole([c]);
    if asap {
      FrontIsACut(w, q);
      InsertInPlace(w, q, FrontIndex(q), [c]);
    } else {
      InsertInPlace(w, q, |q.toWrite|, [c]);
      assert q.toWrite[..|q.toWrite|] + [c] + q.toWrite[|q.toWrite|..] == q.toWrite + [c];
    }
  }

  lemma BatchIsWhole(b: Batch, n: nat)
    requires n <= |b.ids|
    ensures Whole(Block(b, n, n))
  {
    var s := Block(b, n, n);
    forall i | 0 <= i < |s| ensures Joined(s, i) {
      if i + 1 < n { assert s[i + 1] == BatchCommand(b, n, i + 1); }
    }
  }

  // A command that starts its batch is rejected together with exactly that batch.
  lemma RejectInPlace(w: seq<Command>, q: Queue, k: nat, outcome: Outcome)
    requires InPlace(w, q) && k < |q.toWrite| && q.toWrite[k].index == 0
    ensures InPlace(w, RejectAt(q, k, outcome))
  {
    hide Whole, Companions, Settle, Ids, Deafen;
    UnitEnds(w, q.toWrite, k);
    RemoveInPlace(w, q, k, k + q.toWrite[k].size);
  }

  // From the start of a batch to its end.
  lemma UnitEnds(w: seq<Command>, t: seq<Command>, k: nat)
    requires Whole(w + t) && k < |t| && t[k].index == 0
    ensures 1 + Companions(t, k) == t[k].size && k + t[k].size <= |t|
    ensures Cut(w + t, |w| + k) && Cut(w + t, |w| + k + t[k].size)
  {
    var all, rest := w + t, t[k..];
    assert all[|w| + k] == t[k];
    WholeSplit(all, |w| + k);
    assert all[|w| + k..] == rest;
    CompanionsOfBlock(rest, 0);
    hide Whole;
    assert rest[1..] == t[k + 1..];
    var m := t[k].size;
    assert k + m < |t| ==> rest[m] == t[k + m] == all[|w| + k + m];
  }

  lemma AddBatchInPlace(w: seq<Command>, q: Queue, b: Batch, armFails: bool)
    requires InPlace(w, q) && b.unencodable == {}
    ensures InPlace(w, AddBatch(q, b, armFails))
  {
    var n := AdmittedCount(q, b);
    if n > 0 {
      var block, t := Block(b, n, n), q.toWrite;
      BatchIsWhole(b, n);
      InsertInPlace(w, q, |t|, block);
      assert t[..|t|] + block + t[|t|..] == t + block;
      var q' := q.(toWrite := t + block, listening := q.listening + ListenersOf(BatchCommand(b, n, 0)));
      assert q'.toWrite[|t|] == BatchCommand(b, n, 0);
      if armFails { RejectInPlace(w, q', |t|, NotArmed); }
    }
  }

  lemma WriteInPlace(w: seq<Command>, q: Queue)
    requires InPlace(w, q)
    ensures var (q', c) := Write(q);
            if c.None? then q' == q && q.toWrite == []
            else q.toWrite != [] && c.value == q.toWrite[0] && q'.toWrite == q.toWrite[1..] && InPlace(w + [c.value], q')
  {
    if q.toWrite != [] {
      var c, rest := q.toWrite[0], q.toWrite[1..];
      assert w + [c] + rest == w + q.toWrite;
      if rest != [] {
        assert (w + q.toWrite)[|w| + 1] == rest[0] && (w + q.toWrite)[|w|] == c;
        assert Joined(w + q.toWrite, |w| + 1);
      }
    }
  }

  // What a connection carried when it ends is unsplit.
  lemma WireIsUnsplit(w: seq<Command>, t: seq<Command>)
    requires Whole(w + t)
    ensures Unsplit(w)
  {
    forall i | 0 <= i < |w| ensures NotSplitAt(w, i) {
      assert Joined(w + t, i);
    }
  }

  lemma LoseLeaves(q: Queue)
    ensures LoseConnection(q).toWrite == q.toWrite[FrontIndex(q)..]
  {
  }

  /** Losing the connection rejects the rest of an unfinished batch, so the next one starts clean. */
  lemma LoseInPlace(w: seq<Command>, q: Queue)
    requires InPlace(w, q)
    ensures InPlace([], LoseConnection(q))
  {
    FrontIsACut(w, q);
    LoseLeaves(q);
    hide InPlace, FrontIndex, LoseConnection;
    RestInPlace(w, q, FrontIndex(q), LoseConnection(q));
  }

  lemma RestInPlace(w: seq<Command>, q: Queue, n: nat, q': Queue)
    requires InPlace(w, q) && n <= |q.toWrite| && Cut(w + q.toWrite, |w| + n) && q'.toWrite == q.toWrite[n..]
    ensures InPlace([], q')
  {
    hide Whole;
    var all, rest := w + q.toWrite, q.toWrite[n..];
    WholeSplit(all, |w| + n);
    assert all[|w| + n..] == rest == [] + rest;
    assert rest != [] ==> all[|w| + n] == rest[0];
  }

  // The chain in execution is not cut where extraction stops.
  lemma ReachIsACut(w: seq<Command>, q: Queue, slots: set<nat>)
    requires InPlace(w, q)
    ensures var n := Reach(q.toWrite, slots, q.chainInExecution);
            n > 0 ==> Cut(w + q.toWrite, |w| + n) && Whole(w + q.toWrite[..n]) && Whole(q.toWrite[n..])
  {
    var t, all, n := q.toWrite, w + q.toWrite, Reach(q.toWrite, slots, q.chainInExecution);
    if n > 0 {
      if n < |t| {
        assert all[|w| + n] == t[n] && all[|w| + n - 1] == t[n - 1];
        assert Joined(all, |w| + n);
      }
      WholeSplit(all, |w| + n);
      SliceJoined(w, t, n);
    }
  }

  lemma SliceJoined(w: seq<Command>, t: seq<Command>, n: nat)
    requires n <= |t|
    ensures (w + t)[..|w| + n] == w + t[..n] && (w + t)[|w| + n..] == t[n..]
  {
  }

  lemma ExtractInPlace(w: seq<Command>, q: Queue, slots: set<nat>)
    requires InPlace(w, q)
    ensures InPlace(w, Extract(q, slots).0) && Whole(Extract(q, slots).1)
  {
    var t := q.toWrite;
    var n := Reach(t, slots, q.chainInExecution);
    assert Whole([]);
    hide Whole, Cut, Select;
    if n > 0 {
      ReachIsACut(w, q, slots);
      assert t == t[..n] + t[n..] && t[..n][0] == t[0];
      hide InPlace, Deafen;
      ExtractedInPlace(w, q, t[..n], t[n..], slots, Extract(q, slots).0);
    } else {
      NothingSelected(t, slots);
    }
  }

  lemma NothingSelected(t: seq<Command>, slots: set<nat>)
    ensures Select(t[..0], slots, false) + t[0..] == t && Select(t[..0], slots, true) == []
  {
  }

  // A migrating tail of the batch in execution keeps extraction from starting.
  lemma TailStopsExtraction(w: seq<Command>, q: Queue, slots: set<nat>)
    requires InPlace(w, q) && q.toWrite != [] && q.toWrite[0].index > 0 && Targets(q.toWrite[0], slots)
    ensures Extract(q, slots).1 == [] && Extract(q, slots).0.toWrite == q.toWrite
  {
    ChainOfTail(w, q);
    hide InPlace, Select;
    NothingSelected(q.toWrite, slots);
  }

  lemma ChainOfTail(w: seq<Command>, q: Queue)
    requires InPlace(w, q) && q.toWrite != [] && q.toWrite[0].index > 0
    ensures q.chainInExecution.Some? && q.toWrite[0].chain == q.chainInExecution
  {
    assert (w + q.toWrite)[|w|] == q.toWrite[0];
    assert Joined(w + q.toWrite, |w|);
  }

  lemma ExtractedInPlace(w: seq<Command>, q: Queue, near: seq<Command>, far: seq<Command>, slots: set<nat>, q': Queue)
    requires near != [] && q.toWrite == near + far && InPlace(w, q)
    requires Whole(w + near) && Whole(far) && !(Targets(near[0], slots) && InExecution(near[0], q.chainInExecution))
    requires q'.toWrite == Select(near, slots, false) + far && q'.chainInExecution == q.chainInExecution
    ensures InPlace(w, q') && Whole(Select(near, slots, true))
  {
    hide Whole, Select;
    var left := Select(near, slots, false);
    if near[0].index > 0 { ChainOfTail(w, q); }
    SelectWhole(w, near, slots);
    WholeConcat(w + left, far);
    assert w + left + far == w + (left + far);
    SelectSubset(near, slots, false);
    if near[0].index > 0 {
      SelectConcat([near[0]], near[1..], slots, false);
      SelectAll([near[0]], slots, false);
      assert [near[0]] + near[1..] == near;
    } else {
      assert (w + near)[|w|] == near[0];
      WholeSplit(w + near, |w|);
      assert (w + near)[..|w|] == w;
      if left + far != [] { StartsClean(w, left + far); }
    }
  }

  lemma StartsClean(w: seq<Command>, t: seq<Command>)
    requires Whole(w) && Whole(w + t) && t != []
    ensures t[0].index == 0
  {
    assert (w + t)[|w|] == t[0];
    assert Joined(w + t, |w|);
    if w != [] {
      assert (w + t)[|w| - 1] == w[|w| - 1];
      assert Joined(w, |w| - 1);
    }
  }

  // ---------------------------------------------------------------- migration

  // The arriving batches that no signal has cancelled meanwhile.
  function Survivors(cs: seq<Command>, fired: set<Listener>): seq<Command>
    decreases |cs|
  {
    if cs == [] then []
    else
      var m := 1 + Companions(cs, 0);
      (if Cancelled(cs[0], fired) then [] else cs[..m]) + Survivors(cs[m..], fired)
  }

  predicate Cancelled(c: Command, fired: set<Listener>) {
    (c.timer && Timer(c.id) in fired) || (c.abort && Abort(c.id) in fired)
  }

  lemma {:induction false} PrependConcat(q: Queue, a: seq<Command>, b: seq<Command>, fired: set<Listener>)
    ensures Prepend(q, a + b, fired) == Prepend(Prepend(q, b, fired), a, fired)
    decreases |a|
  {
    if a == [] {
      assert a + b == b;
    } else {
      assert (a + b)[1..] == a[1..] + b;
      PrependConcat(q, a[1..], b, fired);
    }
  }

  // Where arriving commands go: behind the `tail` of the chain in execution.
  ghost predicate InFrontOf(q: Queue, tail: seq<Command>, rest: seq<Command>) {
    && q.toWrite == tail + rest
    && (q.chainInExecution.None? ==> tail == [])
    && (forall c <- tail :: c.chain == q.chainInExecution)
    && (rest != [] && q.chainInExecution.Some? ==> rest[0].chain != q.chainInExecution)
  }

  lemma {:induction false} ChainRunOf(a: seq<Command>, b: seq<Command>, chain: Option<nat>)
    requires (forall c <- a :: c.chain == chain) && (b != [] ==> b[0].chain != chain)
    ensures ChainRun(a + b, chain) == |a|
    decreases |a|
  {
    if a == [] {
      assert a + b == b;
    } else {
      assert (a + b)[1..] == a[1..] + b;
      ChainRunOf(a[1..], b, chain);
    }
  }

  lemma FrontOf(q: Queue, tail: seq<Command>, rest: seq<Command>)
    requires InFrontOf(q, tail, rest)
    ensures FrontIndex(q) == |tail|
  {
    if q.chainInExecution.Some? { ChainRunOf(tail, rest, q.chainInExecution); }
  }

  predicate Foreign(q: Queue, c: Command) { !c.rejected && (c.chain.Some? ==> c.chain != q.chainInExecution) }

  predicate AllForeign(q: Queue, cs: seq<Command>) { forall i :: 0 <= i < |cs| ==> Foreign(q, cs[i]) }

  lemma InsertedInFront(q: Queue, tail: seq<Command>, rest: seq<Command>, c: Command)
    requires InFrontOf(q, tail, rest) && Foreign(q, c)
    ensures FrontIndex(q) == |tail| && InsertAt(q.toWrite, |tail|, c) == tail + ([c] + rest)
    ensures InFrontOf(q.(toWrite := tail + ([c] + rest)), tail, [c] + rest)
  {
    FrontOf(q, tail, rest);
  }

  // Commands without listeners of their own are simply inserted.
  lemma {:induction false} PrependMembers(q: Queue, tail: seq<Command>, rest: seq<Command>, ms: seq<Command>,
                                          fired: set<Listener>)
    requires InFrontOf(q, tail, rest) && AllForeign(q, ms)
    requires forall i :: 0 <= i < |ms| ==> !Cancelled(ms[i], fired)
    ensures InFrontOf(Prepend(q, ms, fired), tail, ms + rest)
    ensures Prepend(q, ms, fired).chainInExecution == q.chainInExecution
    decreases |ms|
  {
    hide FrontIndex, InsertAt;
    if ms == [] {
      assert ms + rest == rest;
    } else {
      var q' := Prepend(q, ms[1..], fired);
      PrependMembers(q, tail, rest, ms[1..], fired);
      InsertedInFront(q', tail, ms[1..] + rest, ms[0]);
      assert [ms[0]] + (ms[1..] + rest) == ms + rest;
    }
  }

  // A batch is inserted whole, or not at all.
  // The head of a batch, put in front of its members.
  lemma HeadPrepended(q: Queue, tail: seq<Command>, rest: seq<Command>, unit: seq<Command>, fired: set<Listener>)
    requires Whole(unit) && unit != [] && unit[0].size == |unit| && unit[0].index == 0 && Foreign(q, unit[0])
    requires InFrontOf(q, tail, unit[1..] + rest) && (rest != [] ==> rest[0].index == 0)
    requires rest != [] && q.chainInExecution.Some? ==> rest[0].chain != q.chainInExecution
    ensures InFrontOf(PrependOne(q, unit[0], fired), tail, if Cancelled(unit[0], fired) then rest else unit + rest)
    ensures PrependOne(q, unit[0], fired).chainInExecution == q.chainInExecution
  {
    hide FrontIndex, InsertAt, Whole, MemberRun, Ids, Settle, Deafen;
    var c := unit[0];
    InsertedInFront(q, tail, unit[1..] + rest, c);
    assert [c] + (unit[1..] + rest) == unit + rest;
    var q' := q.(toWrite := tail + (unit + rest));
    RejectUnit(q', tail, unit, rest, TimedOut);
    RejectUnit(q', tail, unit, rest, AbortedBySignal);
    PrependOneOf(q, c, fired, q');
  }

  lemma PrependUnit(q: Queue, tail: seq<Command>, rest: seq<Command>, unit: seq<Command>, fired: set<Listener>)
    requires InFrontOf(q, tail, rest) && (rest != [] ==> rest[0].index == 0)
    requires Whole(unit) && unit != [] && unit[0].size == |unit| && unit[0].index == 0
    requires AllForeign(q, unit)
    ensures InFrontOf(Prepend(q, unit, fired), tail, if Cancelled(unit[0], fired) then rest else unit + rest)
    ensures Prepend(q, unit, fired).chainInExecution == q.chainInExecution
  {
    assert rest != [] && q.chainInExecution.Some? ==> rest[0].chain != q.chainInExecution;
    hide FrontIndex, Whole, MemberRun, Ids, Settle, Deafen, InFrontOf, PrependOne;
    var ms := unit[1..];
    MembersOf(unit, fired);
    PrependMembers(q, tail, rest, ms, fired);
    HeadPrepended(Prepend(q, ms, fired), tail, rest, unit, fired);
  }

  // What becomes of a command that is not rejected, once it is inserted.
  lemma PrependOneOf(q: Queue, c: Command, fired: set<Listener>, inserted: Queue)
    requires !c.rejected && inserted == q.(toWrite := InsertAt(q.toWrite, FrontIndex(q), c))
    ensures c.timer && Timer(c.id) in fired ==> PrependOne(q, c, fired) == RejectAt(inserted, FrontIndex(q), TimedOut)
    ensures !(c.timer && Timer(c.id) in fired) && c.abort && Abort(c.id) in fired ==>
      PrependOne(q, c, fired) == RejectAt(inserted, FrontIndex(q), AbortedBySignal)
    ensures !Cancelled(c, fired) ==>
      PrependOne(q, c, fired) == inserted.(listening := q.listening + ListenersOf(c))
  {
  }

  lemma RejectUnit(q: Queue, tail: seq<Command>, unit: seq<Command>, rest: seq<Command>, outcome: Outcome)
    requires Whole(unit) && unit != [] && unit[0].size == |unit| && unit[0].index == 0
    requires q.toWrite == tail + (unit + rest) && (rest != [] ==> rest[0].index == 0)
    ensures RejectAt(q, |tail|, outcome).toWrite == tail + rest
    ensures RejectAt(q, |tail|, outcome).chainInExecution == q.chainInExecution
  {
    hide MemberRun, Ids, Settle, Deafen;
    RemoveUnit(tail, unit, rest);
  }

  lemma MembersOf(unit: seq<Command>, fired: set<Listener>)
    requires Whole(unit) && unit != [] && unit[0].size == |unit| && unit[0].index == 0
    ensures forall i :: 1 <= i < |unit| ==> IsMember(unit[i]) && unit[i].chain == unit[0].chain && !Cancelled(unit[i], fired)
    ensures |unit| > 1 ==> IsHead(unit[0])
  {
    BlockFollows(unit, 0);
    forall i | 1 <= i < |unit|
      ensures IsMember(unit[i]) && unit[i].chain == unit[0].chain && !Cancelled(unit[i], fired)
    {
      assert Joined(unit, i);
    }
    assert Joined(unit, 0);
  }

  lemma RemoveUnit(tail: seq<Command>, unit: seq<Command>, rest: seq<Command>)
    requires Whole(unit) && unit != [] && unit[0].size == |unit| && unit[0].index == 0
    requires rest != [] ==> rest[0].index == 0
    ensures var t := tail + (unit + rest);
            1 + Companions(t, |tail|) == |unit| && t[..|tail|] + t[|tail| + |unit|..] == tail + rest
  {
    var t, ms := tail + (unit + rest), unit[1..];
    MembersOf(unit, {});
    assert Joined(unit, 0);
    assert t[|tail| + 1..] == ms + rest == (ms + rest)[0..];
    if IsHead(unit[0]) { MemberRunOfBlock(ms + rest, 0, |ms|, unit[0].chain); }
  }

  /** Prepending puts what arrives right behind the unwritten tail of the batch in execution here, in
      its order, less the batches cancelled on the way. */
  lemma {:induction false} PrependPlaces(q: Queue, tail: seq<Command>, rest: seq<Command>, cs: seq<Command>,
                                         fired: set<Listener>)
    requires InFrontOf(q, tail, rest) && (rest != [] ==> rest[0].index == 0)
    requires Whole(cs) && AllForeign(q, cs)
    ensures InFrontOf(Prepend(q, cs, fired), tail, Survivors(cs, fired) + rest)
    ensures Prepend(q, cs, fired).chainInExecution == q.chainInExecution
    decreases |cs|
  {
    hide InFrontOf, Prepend, Survivors, Whole;
    if cs == [] {
      PrependNothing(q, fired);
      assert Survivors(cs, fired) + rest == rest by { SurvivorsOfNone(fired); }
    } else {
      var m := SurvivingUnit(cs, fired);
      var unit, others := cs[..m], cs[m..];
      PrependPlaces(q, tail, rest, others, fired);
      PrependConcat(q, unit, others, fired);
      assert unit + others == cs;
      SurvivorsWhole(others, fired);
      var more := Survivors(others, fired) + rest;
      PrependUnit(Prepend(q, others, fired), tail, more, unit, fired);
      assert unit + Survivors(others, fired) + rest == unit + more;
      assert [] + Survivors(others, fired) == Survivors(others, fired);
    }
  }

  lemma SurvivorsOfNone(fired: set<Listener>)
    ensures Survivors([], fired) == []
  {
  }

  lemma {:induction false} SurvivorsWhole(cs: seq<Command>, fired: set<Listener>)
    requires Whole(cs)
    ensures Whole(Survivors(cs, fired)) && forall c <- Survivors(cs, fired) :: c in cs
    ensures Survivors(cs, fired) != [] ==> Survivors(cs, fired)[0].index == 0
    decreases |cs|
  {
    if cs != [] {
      var m := SurvivingUnit(cs, fired);
      hide Survivors;
      SurvivorsWhole(cs[m..], fired);
      WholeConcat(cs[..m], Survivors(cs[m..], fired));
      assert [] + Survivors(cs[m..], fired) == Survivors(cs[m..], fired);
    }
  }

  lemma PrependNothing(q: Queue, fired: set<Listener>)
    ensures Prepend(q, [], fired) == q
  {
  }

  lemma SurvivingUnit(cs: seq<Command>, fired: set<Listener>) returns (m: nat)
    requires Whole(cs) && cs != []
    ensures 0 < m == cs[0].size <= |cs| && cs[0].index == 0 && Whole(cs[..m]) && Whole(cs[m..])
    ensures Survivors(cs, fired) == (if Cancelled(cs[0], fired) then [] else cs[..m]) + Survivors(cs[m..], fired)
  {
    hide Survivors;
    assert Joined(cs, 0);
    m := cs[0].size;
    CompanionsOfBlock(cs, 0);
    WholeSplit(cs, m);
    SurvivorsOf(cs, fired);
  }

  lemma SurvivorsOf(cs: seq<Command>, fired: set<Listener>)
    requires cs != []
    ensures var m := 1 + Companions(cs, 0);
            Survivors(cs, fired) == (if Cancelled(cs[0], fired) then [] else cs[..m]) + Survivors(cs[m..], fired)
  {
  }

  lemma SignalInPlace(s: System, l: Listener)
    requires Inv(s) && Blocks(s)
    ensures InPlace(s.wire, Fire(s.q, l))
  {
    if l in s.q.listening {
      var k := CancellableAt(s, l.id);
      if !BatchStarted(s.q, s.q.toWrite[k]) {
        RejectInPlace(s.wire, s.q, k, if l.Timer? then TimedOut else AbortedBySignal);
      }
    }
  }

  lemma FrontStarts(w: seq<Command>, q: Queue)
    requires InPlace(w, q)
    ensures Cut(w + q.toWrite, |w| + FrontIndex(q))
    ensures FrontIndex(q) < |q.toWrite| ==> q.toWrite[FrontIndex(q)].index == 0
  {
    FrontIsACut(w, q);
    assert FrontIndex(q) < |q.toWrite| ==> (w + q.toWrite)[|w| + FrontIndex(q)] == q.toWrite[FrontIndex(q)];
  }

  // Where what arrives ends up in the queue.
  lemma ArrivePlaces(w: seq<Command>, q: Queue, cs: seq<Command>, fired: set<Listener>)
    requires InPlace(w, q) && Whole(cs) && AllForeign(q, cs)
    ensures var k := FrontIndex(q);
            Prepend(q, cs, fired).toWrite == q.toWrite[..k] + Survivors(cs, fired) + q.toWrite[k..]
    ensures Prepend(q, cs, fired).chainInExecution == q.chainInExecution
  {
    FrontStarts(w, q);
    FrontSplits(q);
    var k := FrontIndex(q);
    var tail, rest, kept := q.toWrite[..k], q.toWrite[k..], Survivors(cs, fired);
    assert forall q' :: InFrontOf(q', tail, kept + rest) ==> q'.toWrite == tail + (kept + rest) == tail + kept + rest;
    hide Prepend, Survivors, Whole, Cut, InPlace, Foreign, FrontIndex, InFrontOf;
    PrependPlaces(q, tail, rest, cs, fired);
  }

  lemma FrontSplits(q: Queue)
    ensures InFrontOf(q, q.toWrite[..FrontIndex(q)], q.toWrite[FrontIndex(q)..])
  {
    assert q.toWrite == q.toWrite[..FrontIndex(q)] + q.toWrite[FrontIndex(q)..];
  }

  lemma ArriveInPlace(w: seq<Command>, q: Queue, cs: seq<Command>, fired: set<Listener>)
    requires InPlace(w, q) && Whole(cs) && AllForeign(q, cs) && forall c <- cs :: c.encodable
    ensures var k := FrontIndex(q);
            Prepend(q, cs, fired).toWrite == q.toWrite[..k] + Survivors(cs, fired) + q.toWrite[k..]
    ensures InPlace(w, Prepend(q, cs, fired))
  {
    FrontStarts(w, q);
    ArrivePlaces(w, q, cs, fired);
    SurvivorsWhole(cs, fired);
    hide Prepend, Survivors, Whole, Cut, FrontIndex;
    SurvivorsInPlace(w, q, FrontIndex(q), Survivors(cs, fired), Prepend(q, cs, fired));
  }

  lemma SurvivorsInPlace(w: seq<Command>, q: Queue, k: nat, kept: seq<Command>, q': Queue)
    requires InPlace(w, q) && k <= |q.toWrite| && Cut(w + q.toWrite, |w| + k)
    requires Whole(kept) && forall c <- kept :: c.encodable
    requires q'.toWrite == q.toWrite[..k] + kept + q.toWrite[k..] && q'.chainInExecution == q.chainInExecution
    ensures InPlace(w, q')
  {
    hide Whole, Cut;
    if kept != [] {
      InsertInPlace(w, q, k, kept);
    } else {
      assert q'.toWrite == q.toWrite;
    }
  }

  lemma SettleEncoded(settled: map<nat, Outcome>, ids: seq<nat>, outcome: Outcome)
    requires AllEncoded(settled) && outcome != Unencodable
    ensures AllEncoded(Settle(settled, ids, outcome))
  {
  }

  lemma RejectEncoded(q: Queue, k: nat, outcome: Outcome)
    requires AllEncoded(q.settled) && k < |q.toWrite| && outcome != Unencodable
    ensures AllEncoded(RejectAt(q, k, outcome).settled)
  {
    hide AllEncoded, Settle, Ids, MemberRun, Deafen;
    SettleEncoded(q.settled, Ids(q.toWrite[k..k + 1 + Companions(q.toWrite, k)]), outcome);
  }

  lemma FireEncoded(q: Queue, l: Listener)
    requires AllEncoded(q.settled)
    ensures AllEncoded(Fire(q, l).settled)
  {
    hide AllEncoded, Settle, RejectAt;
    var k, outcome := Find(q.toWrite, l.id), if l.Timer? then TimedOut else AbortedBySignal;
    if k < |q.toWrite| {
      RejectEncoded(q, k, outcome);
    } else {
      SettleEncoded(q.settled, [l.id], outcome);
    }
  }

  lemma AddBatchEncoded(q: Queue, b: Batch, armFails: bool)
    requires AllEncoded(q.settled)
    ensures AllEncoded(AddBatch(q, b, armFails).settled)
  {
    hide AllEncoded, RejectAt;
    var n := AdmittedCount(q, b);
    if n > 0 {
      var q' := q.(toWrite := q.toWrite + Block(b, n, n), listening := q.listening + ListenersOf(BatchCommand(b, n, 0)));
      RejectEncoded(q', |q.toWrite|, NotArmed);
    }
  }

  lemma ReplyEncoded(q: Queue, ok: bool)
    requires AllEncoded(q.settled) && q.waiting != []
    ensures AllEncoded(OnReply(q, ok).settled) && AllEncoded(OnStatusPush(q).settled)
  {
    hide AllEncoded, Settle;
    SettleEncoded(q.settled, [q.waiting[0].id], if ok then Resolved else ErrorReply);
    SettleEncoded(q.settled, [q.waiting[0].id], Resolved);
  }

  lemma LossEncoded(q: Queue)
    requires AllEncoded(q.settled)
    ensures AllEncoded(LoseConnection(q).settled) && AllEncoded(FlushAll(q).settled)
  {
    hide AllEncoded, Settle, Ids, Mains, Preludes, Deafen;
    var settled := Settle(q.settled, Mains(q.waiting), ConnectionLost);
    SettleEncoded(q.settled, Mains(q.waiting), ConnectionLost);
    SettleEncoded(settled, Ids(q.toWrite[..ChainRun(q.toWrite, q.chainInExecution)]), ConnectionLost);
    SettleEncoded(settled, Ids(q.toWrite), ConnectionLost);
  }

  lemma {:induction false} PrependEncoded(q: Queue, cs: seq<Command>, fired: set<Listener>)
    requires AllEncoded(q.settled)
    ensures AllEncoded(Prepend(q, cs, fired).settled)
    decreases |cs|
  {
    hide AllEncoded, RejectAt;
    if cs != [] {
      PrependEncoded(q, cs[1..], fired);
      var q' := Prepend(q, cs[1..], fired);
      var k := FrontIndex(q');
      RejectEncoded(q'.(toWrite := InsertAt(q'.toWrite, k, cs[0])), k, TimedOut);
      RejectEncoded(q'.(toWrite := InsertAt(q'.toWrite, k, cs[0])), k, AbortedBySignal);
    }
  }

  lemma StepEncoded(s: System, op: Op)
    requires Inv(s) && Blocks(s) && Legal(s, op) && Encodable(op)
    ensures AllEncoded(Step(s, op).q.settled)
  {
    hide Inv, InPlace, AllEncoded, Unsplit, Prepend, Write, Extract, AddToWrite, AddBatch, Fire, OnReply, OnStatusPush,
         LoseConnection, FlushAll, Settle, Legal, Ids;
    match op
    case Add(c, asap, _, _) => AddSettlesNothing(s.q, c, asap);
    case Subscribe(c, asap) => AddSettlesNothing(s.q, c, asap);
    case AddMany(b, armFails) => AddBatchEncoded(s.q, b, armFails);
    case WriteNext => WriteSettlesNothing(s.wire, s.q);
    case Answer(ok) => if s.q.waiting != [] { ReplyEncoded(s.q, ok); }
    case StatusPush => if s.q.waiting != [] { ReplyEncoded(s.q, true); }
    case MessagePush =>
    case Signal(l) => FireEncoded(s.q, l);
    case Lose => LossEncoded(s.q);
    case Flush => LossEncoded(s.q);
    case ExtractSlots(slots) => ExtractSettlesNothing(s.q, slots);
    case Arrive(cs, fired) => PrependEncoded(s.q, cs, fired);
    case RejectOut(ids) => SettleEncoded(s.q.settled, ids, ConnectionLost);
  }

  lemma WriteSettlesNothing(w: seq<Command>, q: Queue)
    requires InPlace(w, q)
    ensures Write(q).0.settled == q.settled
  {
  }

  lemma ExtractSettlesNothing(q: Queue, slots: set<nat>)
    ensures Extract(q, slots).0.settled == q.settled
  {
  }

  lemma AddSettlesNothing(q: Queue, c: Command, asap: bool)
    ensures AddToWrite(q, c, asap).settled == q.settled && AddCommand(q, c, asap).settled == q.settled
  {
  }

  lemma StepPlaces(s: System, op: Op)
    requires Inv(s) && Blocks(s) && Legal(s, op) && Encodable(op)
    ensures InPlace(Step(s, op).wire, Step(s, op).q)
  {
    hide Ids, Mains, Settle, Deafen, Prepend, Write, Extract, RejectAt, AddToWrite, Inv;
    match op
    case Add(c, asap, _, _) => AddInPlace(s.wire, s.q, c, asap);
    case Subscribe(c, asap) => AddInPlace(s.wire, s.q, c, asap);
    case AddMany(b, armFails) => AddBatchInPlace(s.wire, s.q, b, armFails);
    case WriteNext => WriteInPlace(s.wire, s.q);
    case Signal(l) => SignalInPlace(s, l);
    case Lose => LoseInPlace(s.wire, s.q);
    case Flush => assert [] + Step(s, op).q.toWrite == [];
    case ExtractSlots(slots) => ExtractInPlace(s.wire, s.q, slots);
    case Arrive(cs, fired) => ArriveInPlace(s.wire, s.q, cs, fired);
    case _ =>
  }

  lemma StepKeepsBlocks(s: System, op: Op)
    requires Inv(s) && Blocks(s) && Legal(s, op) && Encodable(op)
    ensures Blocks(Step(s, op))
  {
    hide InPlace, Unsplit, AllEncoded, Inv, Legal;
    StepPlaces(s, op);
    StepEncoded(s, op);
    assert Unsplit(s.wire) by { InPlaceWire(s.wire, s.q); }
  }

  lemma InPlaceWire(w: seq<Command>, q: Queue)
    requires InPlace(w, q)
    ensures Unsplit(w)
  {
    WireIsUnsplit(w, q.toWrite);
  }

  lemma {:induction false} RunKeepsBlocks(s: System, ops: seq<Op>)
    requires Inv(s) && Blocks(s) && LegalRun(s, ops) && forall i :: 0 <= i < |ops| ==> Encodable(ops[i])
    ensures Inv(Run(s, ops)) && Blocks(Run(s, ops))
    decreases |ops|
  {
    hide Inv, Blocks, Legal, Step;
    if ops != [] {
      StepKeepsInv(s, ops[0]);
      StepKeepsBlocks(s, ops[0]);
      RunKeepsBlocks(Step(s, ops[0]), ops[1..]);
    }
  }

  /** In every run with encodable arguments, no connection ever carries a split batch: its commands
      reach one connection in order, right behind one another, from the first one on. */
  lemma RunsNeverSplitABatch(maxLength: nat, ops: seq<Op>)
    requires LegalRun(Init(maxLength), ops) && forall i :: 0 <= i < |ops| ==> Encodable(ops[i])
    ensures var s := Run(Init(maxLength), ops);
            Unsplit(s.wire) && forall w <- s.past :: Unsplit(w)
  {
    var s := Run(Init(maxLength), ops);
    InitHasInv(maxLength);
    RunKeepsBlocks(Init(maxLength), ops);
    WireIsUnsplit(s.wire, s.q.toWrite);
  }

  /** A connection that is lost in the middle of a batch has the rest of it at the front of the queue;
      all of it is rejected, and none of it stays queued. */
  lemma LossRejectsTheRest(s: System)
    requires Inv(s) && Blocks(s)
    requires s.wire != [] && s.wire[|s.wire| - 1].index + 1 < s.wire[|s.wire| - 1].size
    ensures var last, s' := s.wire[|s.wire| - 1], Step(s, Lose);
            var m := last.size - (last.index + 1);
            && m <= |s.q.toWrite|
            && forall i :: 0 <= i < m ==>
                 && s.q.toWrite[i].chain == last.chain && s.q.toWrite[i].index == last.index + 1 + i
                 && s.q.toWrite[i].id in s'.q.settled && s'.q.settled[s.q.toWrite[i].id] == ConnectionLost
                 && s.q.toWrite[i].id !in Ids(s'.q.toWrite)
  {
    RestIsQueued(s);
    hide Inv, Blocks, Whole;
    var last := s.wire[|s.wire| - 1];
    forall i | 0 <= i < last.size - (last.index + 1)
      ensures s.q.toWrite[i].id in Step(s, Lose).q.settled && Step(s, Lose).q.settled[s.q.toWrite[i].id] == ConnectionLost
      ensures s.q.toWrite[i].id !in Ids(Step(s, Lose).q.toWrite)
    {
      LostFront(s, i, last.size - (last.index + 1));
    }
  }

  // What is left of a batch waits at the front of the queue, as the chain in execution.
  lemma RestIsQueued(s: System)
    requires Blocks(s)
    requires s.wire != [] && s.wire[|s.wire| - 1].index + 1 < s.wire[|s.wire| - 1].size
    ensures var last := s.wire[|s.wire| - 1];
            var m := last.size - (last.index + 1);
            && m <= |s.q.toWrite| && s.q.chainInExecution.Some?
            && forall i :: 0 <= i < m ==>
                 && s.q.toWrite[i].chain == last.chain == s.q.chainInExecution
                 && s.q.toWrite[i].index == last.index + 1 + i
  {
    var all, p := s.wire + s.q.toWrite, |s.wire| - 1;
    var last := s.wire[p];
    assert all[p] == last;
    BlockFollows(all, p);
    hide Whole;
    assert forall i :: 0 <= i < |s.q.toWrite| ==> all[p + 1 + i] == s.q.toWrite[i];
    ChainOfTail(s.wire, s.q);
  }

  lemma LostFront(s: System, i: nat, m: nat)
    requires Inv(s) && s.q.chainInExecution.Some? && i < m <= |s.q.toWrite|
    requires forall j :: 0 <= j < m ==> s.q.toWrite[j].chain == s.q.chainInExecution
    ensures var q' := LoseConnection(s.q);
            && s.q.toWrite[i].id in q'.settled && q'.settled[s.q.toWrite[i].id] == ConnectionLost
            && s.q.toWrite[i].id !in Ids(q'.toWrite)
  {
    var t, q' := s.q.toWrite, LoseConnection(s.q);
    var n := ChainRun(t, s.q.chainInExecution);
    assert n >= m;
    QueuedIsElsewhereNot(s.q, s.out, s.admitted, i);
    assert Ids(t[..n])[i] == t[i].id;
    forall j | 0 <= j < |q'.toWrite| ensures Ids(q'.toWrite)[j] != t[i].id {
      assert q'.toWrite[j] == t[n + j];
      if t[n + j].id == t[i].id { QueuedOnce(s.q, s.out, s.admitted, i, n + j); }
    }
  }

  // The chain in execution is that of the batch whose tail is queued, and of no other queued command:
  // every batch has a chain id of its own.
  ghost predicate FreshChains(s: System) {
    s.q.chainInExecution.Some? ==>
      forall i :: 0 <= i < |s.q.toWrite| && s.q.toWrite[i].chain == s.q.chainInExecution ==>
        s.q.toWrite[0].index > 0 && i < s.q.toWrite[0].size - s.q.toWrite[0].index
  }

  // The unwritten tail of the batch in execution targets a migrating slot.
  predicate TailMigrates(q: Queue, slots: set<nat>) {
    q.toWrite != [] && q.toWrite[0].index > 0 && Targets(q.toWrite[0], slots)
  }

  /** Extraction takes nothing when the tail of the batch in execution targets a migrating slot, and
      otherwise exactly the matching commands; both parts keep their order, and their batches whole. */
  lemma ExtractionPartitions(s: System, slots: set<nat>)
    requires Inv(s) && Blocks(s) && FreshChains(s)
    ensures var (q', taken) := Extract(s.q, slots);
            && taken == (if TailMigrates(s.q, slots) then [] else Select(s.q.toWrite, slots, true))
            && q'.toWrite == (if TailMigrates(s.q, slots) then s.q.toWrite else Select(s.q.toWrite, slots, false))
            && Whole(taken) && Whole(s.wire + q'.toWrite)
  {
    ExtractInPlace(s.wire, s.q, slots);
    if TailMigrates(s.q, slots) {
      TailStopsExtraction(s.wire, s.q, slots);
    } else {
      ReachesTheEnd(s, slots);
      hide Inv, Whole, FreshChains, Select;
      assert s.q.toWrite[..|s.q.toWrite|] == s.q.toWrite && s.q.toWrite[|s.q.toWrite|..] == [];
    }
  }

  lemma ReachesTheEnd(s: System, slots: set<nat>)
    requires Blocks(s) && FreshChains(s) && !TailMigrates(s.q, slots)
    ensures Reach(s.q.toWrite, slots, s.q.chainInExecution) == |s.q.toWrite|
  {
    var t, all := s.q.toWrite, s.wire + s.q.toWrite;
    if t != [] {
      assert all[|s.wire|] == t[0];
      BlockFollows(all, |s.wire|);
      assert forall i :: 0 <= i < |t| ==> all[|s.wire| + i] == t[i];
    }
  }
}
