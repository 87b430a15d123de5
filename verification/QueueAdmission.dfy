/** Where commands are queued, how many, and that their timers and abort signals are listened to
    (packages/client/lib/client/commands-queue.ts:364-390, 422-480, 522-560, 1018-1068). */
module QueueAdmission {
  import opened Collections
  import opened QueueSpec
  import opened QueueRuns

  // The first command that is not of the chain in execution is the k-th.
  predicate TailEnds(q: Queue, k: nat) {
    && k <= |q.toWrite|
    && (forall i :: 0 <= i < k ==> q.chainInExecution.Some? && q.toWrite[i].chain == q.chainInExecution)
    && (k < |q.toWrite| && q.chainInExecution.Some? ==> q.toWrite[k].chain != q.chainInExecution)
  }

  predicate Room(q: Queue, size: nat) { q.maxLength > 0 ==> |q.toWrite| + |q.waiting| + size <= q.maxLength }

  /** A command is queued exactly when there is room for it and its prelude, its signal has not fired and
      its listener can be armed: at the end, or, `asap`, right behind the tail in execution. */
  lemma AddedInItsPlace(s: System, c: Command, asap: bool, aborted: bool, armFails: bool)
    ensures var (q, q') := (s.q, Step(s, Add(c, asap, aborted, armFails)).q);
            if Room(q, if c.prelude then 2 else 1) && !aborted && !armFails then
              && (!asap ==> q'.toWrite == q.toWrite + [c])
              && (asap ==> exists k :: TailEnds(q, k) && q'.toWrite == InsertAt(q.toWrite, k, c))
              && q'.listening == q.listening + (if c.timer then {Timer(c.id)} else {})
                                             + (if c.abort then {Abort(c.id)} else {})
            else q' == q
  {
    var k := FrontIndex(s.q);
    assert TailEnds(s.q, k);
  }

  /** So an `asap` command that encodes is the next to be written, unless a chain is in execution. */
  lemma AsapIsWrittenNext(s: System, c: Command)
    requires s.q.chainInExecution.None? && c.encodable && Room(s.q, if c.prelude then 2 else 1)
    ensures var s' := Run(s, [Add(c, true, false, false), WriteNext]); s'.wire == s.wire + [c]
  {
    var s1 := Step(s, Add(c, true, false, false));
    assert s1.q.toWrite[0] == c;
    RunOfOne(s1, WriteNext);
    assert [Add(c, true, false, false), WriteNext][1..] == [WriteNext];
  }

  // The i-th command from `start` on is that of the batch.
  predicate IsOfBatch(t: seq<Command>, start: nat, b: Batch, i: nat)
    requires start + i < |t| && i < |b.ids|
  {
    var c := t[start + i];
    && c.id == b.ids[i] && c.chain == Some(b.chain) && c.slot == b.slot && c.batch
    && c.encodable == (i !in b.unencodable)
  }

  /** Of a batch, as many commands are queued as there is room for, the first ones, at the end and in
      order; if the listener cannot be armed, none is, and these are rejected. */
  lemma BatchFillsTheRoom(s: System, b: Batch, armFails: bool)
    requires Inv(s) && Legal(s, AddMany(b, armFails))
    ensures var (q, q') := (s.q, Step(s, AddMany(b, armFails)).q);
            var pending := |q.toWrite| + |q.waiting|;
            var n := if q.maxLength == 0 || pending + |b.ids| <= q.maxLength then |b.ids|
                     else if pending < q.maxLength then q.maxLength - pending else 0;
            if armFails then
              && q'.toWrite == q.toWrite
              && forall i :: 0 <= i < n ==> b.ids[i] in q'.settled && q'.settled[b.ids[i]] == NotArmed
            else
              && q'.settled == q.settled && |q'.toWrite| == |q.toWrite| + n && q'.toWrite[..|q.toWrite|] == q.toWrite
              && (n > 0 && b.timer ==> Timer(b.ids[0]) in q'.listening)
              && (n > 0 && b.abort ==> Abort(b.ids[0]) in q'.listening)
              && forall i :: 0 <= i < n ==> IsOfBatch(q'.toWrite, |q.toWrite|, b, i)
  {
    var n := AdmittedCount(s.q, b);
    hide AddBatch;
    if armFails {
      forall i | 0 <= i < n ensures b.ids[i] !in s.q.settled {
        AdmittedAreKnown(s, b.ids[i]);
      }
      hide Inv;
      UnarmedBatch(s.q, b, n);
    } else {
      hide Inv;
      ArmedBatch(s.q, b, n);
    }
  }

  lemma ArmedBatch(q: Queue, b: Batch, n: nat)
    requires n == AdmittedCount(q, b)
    ensures var q' := AddBatch(q, b, false);
            && q'.settled == q.settled && |q'.toWrite| == |q.toWrite| + n && q'.toWrite[..|q.toWrite|] == q.toWrite
            && (n > 0 && b.timer ==> Timer(b.ids[0]) in q'.listening)
            && (n > 0 && b.abort ==> Abort(b.ids[0]) in q'.listening)
            && forall i :: 0 <= i < n ==> IsOfBatch(q'.toWrite, |q.toWrite|, b, i)
  {
  }

  lemma UnarmedBatch(q: Queue, b: Batch, n: nat)
    requires n == AdmittedCount(q, b) && forall i :: 0 <= i < n ==> b.ids[i] !in q.settled
    ensures AddBatch(q, b, true).toWrite == q.toWrite
    ensures forall i :: 0 <= i < n ==>
      b.ids[i] in AddBatch(q, b, true).settled && AddBatch(q, b, true).settled[b.ids[i]] == NotArmed
  {
    if n > 0 {
      RejectedBlock(q, b, n);
      hide Block, Companions, Deafen;
      var t := q.toWrite + Block(b, n, n);
      assert t[..|q.toWrite|] + t[|t|..] == q.toWrite && t[|q.toWrite|..|t|] == t[|q.toWrite|..];
      var ids := Ids(t[|q.toWrite|..]);
      assert forall i :: 0 <= i < n ==> b.ids[i] == ids[i] && ids[i] in ids;
      hide Ids;
    }
  }

  lemma AdmittedAreKnown(s: System, id: nat)
    requires Conserved(s) && id !in s.admitted
    ensures id !in s.q.settled
  {
    assert Places(s.q, s.out)[id] == multiset(s.admitted)[id] == 0;
  }

  lemma RejectedBlock(q: Queue, b: Batch, n: nat)
    requires 0 < n <= |b.ids|
    ensures var t := q.toWrite + Block(b, n, n);
            && |t| == |q.toWrite| + n && Companions(t, |q.toWrite|) == n - 1
            && forall i :: 0 <= i < n ==> Ids(t[|q.toWrite|..])[i] == b.ids[i]
  {
    var t := q.toWrite + Block(b, n, n);
    assert t[|q.toWrite|] == BatchCommand(b, n, 0);
    MembersToTheEnd(t[|q.toWrite| + 1..], Some(b.chain));
  }

  lemma {:induction false} MembersToTheEnd(s: seq<Command>, chain: Option<nat>)
    requires forall c <- s :: IsMember(c) && c.chain == chain
    ensures MemberRun(s, chain) == |s|
  {
    if s != [] { MembersToTheEnd(s[1..], chain); }
  }

  // ---------------------------------------------------------------- listeners last as long as their command

  ghost predicate QueuedOnceEach(t: seq<Command>) { forall i, j :: 0 <= i < j < |t| ==> t[i].id != t[j].id }

  lemma IdsAreDistinct(s: System)
    requires Conserved(s)
    ensures QueuedOnceEach(s.q.toWrite)
  {
    forall i, j | 0 <= i < j < |s.q.toWrite| ensures s.q.toWrite[i].id != s.q.toWrite[j].id {
      if s.q.toWrite[i].id == s.q.toWrite[j].id { QueuedOnce(s.q, s.out, s.admitted, i, j); }
    }
  }

  // A command with this id is queued.
  predicate QueuedAs(t: seq<Command>, id: nat) { exists c <- t :: c.id == id }

  lemma NotAmong(t: seq<Command>, n: nat, id: nat)
    requires QueuedOnceEach(t) && n <= |t|
    ensures QueuedAs(t[n..], id) ==> id !in Ids(t[..n])
  {
    if QueuedAs(t[n..], id) {
      var c :| c in t[n..] && c.id == id;
      var j :| n <= j < |t| && t[j] == c;
      forall i | 0 <= i < n ensures Ids(t[..n])[i] != id {}
    }
  }

  lemma LossKeepsListening(q: Queue, l: Listener)
    requires QueuedOnceEach(q.toWrite) && l in q.listening && QueuedAs(LoseConnection(q).toWrite, l.id)
    ensures l in LoseConnection(q).listening
  {
    NotAmong(q.toWrite, ChainRun(q.toWrite, q.chainInExecution), l.id);
    hide Ids, Settle, Mains, Preludes;
  }

  lemma {:induction false} WriteKeepsListening(q: Queue, l: Listener)
    requires QueuedOnceEach(q.toWrite) && l in q.listening && QueuedAs(Write(q).0.toWrite, l.id)
    ensures l in Write(q).0.listening && QueuedAs(q.toWrite, l.id)
    decreases |q.toWrite|
  {
    if q.toWrite != [] {
      var c := q.toWrite[0];
      NotAmong(q.toWrite, 1, l.id);
      assert q.toWrite[..1] == [c];
      if !c.encodable {
        WriteKeepsListening(q.(toWrite := q.toWrite[1..], settled := Settle(q.settled, [c.id], Unencodable)), l);
      }
    }
  }

  // Rejecting takes the one command with that id, and its listeners.
  lemma RejectKeepsListening(q: Queue, k: nat, outcome: Outcome, l: Listener)
    requires k < |q.toWrite| && l in q.listening && l.id != q.toWrite[k].id
    ensures l in RejectAt(q, k, outcome).listening
  {
  }

  lemma RejectTakesIt(q: Queue, k: nat, outcome: Outcome)
    requires k < |q.toWrite| && QueuedOnceEach(q.toWrite)
    ensures !QueuedAs(RejectAt(q, k, outcome).toWrite, q.toWrite[k].id)
    ensures forall c <- RejectAt(q, k, outcome).toWrite :: c in q.toWrite
  {
    var end := k + 1 + Companions(q.toWrite, k);
    var t := q.toWrite[..k] + q.toWrite[end..];
    forall c <- t ensures c.id != q.toWrite[k].id && c in q.toWrite {
      var i :| 0 <= i < |t| && t[i] == c;
      if i < k { assert c == q.toWrite[i]; } else { assert c == q.toWrite[end + i - k]; }
    }
  }

  lemma FireKeepsListening(q: Queue, fired: Listener, l: Listener)
    requires QueuedOnceEach(q.toWrite) && l in q.listening && l != fired
    requires QueuedAs(q.toWrite, l.id) && QueuedAs(Fire(q, fired).toWrite, l.id)
    ensures l in Fire(q, fired).listening
  {
    hide RejectAt;
    var k := Find(q.toWrite, fired.id);
    if k < |q.toWrite| {
      var outcome := if fired.Timer? then TimedOut else AbortedBySignal;
      RejectTakesIt(q, k, outcome);
      if l.id != fired.id { RejectKeepsListening(q, k, outcome, l); }
    }
  }

  lemma ExtractKeepsListening(q: Queue, slots: set<nat>, l: Listener)
    requires QueuedOnceEach(q.toWrite) && l in q.listening && QueuedAs(Extract(q, slots).0.toWrite, l.id)
    ensures l in Extract(q, slots).0.listening
  {
    var t, n := q.toWrite, Reach(q.toWrite, slots, q.chainInExecution);
    var left, taken := Select(t[..n], slots, false), Select(t[..n], slots, true);
    SelectSorts(t[..n], slots, false);
    SelectSorts(t[..n], slots, true);
    var m := LeftAt(t, n, left, slots, l.id);
    hide Select, Reach;
    forall i | 0 <= i < |taken| ensures Ids(taken)[i] != l.id {
      assert taken[i] in t[..n];
      var j :| 0 <= j < n && t[j] == taken[i];
    }
  }

  lemma LeftAt(t: seq<Command>, n: nat, left: seq<Command>, slots: set<nat>, id: nat) returns (m: nat)
    requires n <= |t| && (forall c <- left :: c in t[..n] && !Targets(c, slots)) && QueuedAs(left + t[n..], id)
    ensures m < |t| && t[m].id == id && (m >= n || !Targets(t[m], slots))
  {
    var c :| c in left + t[n..] && c.id == id;
    if c in left {
      m :| 0 <= m < n && t[m] == c;
    } else {
      assert c in t[n..];
      m :| n <= m < |t| && t[m] == c;
    }
  }

  lemma {:induction false} SelectSorts(s: seq<Command>, slots: set<nat>, targeted: bool)
    ensures forall c <- Select(s, slots, targeted) :: c in s && Targets(c, slots) == targeted
    decreases |s|
  {
    if s != [] { SelectSorts(s[..|s| - 1], slots, targeted); }
  }

  // The arriving command only ever takes its own listeners away.
  lemma PrependOneKeepsListening(q: Queue, c: Command, fired: set<Listener>, l: Listener)
    requires l in q.listening && l.id != c.id
    ensures l in PrependOne(q, c, fired).listening
  {
    var k := FrontIndex(q);
    var q' := q.(toWrite := InsertAt(q.toWrite, k, c));
    RejectKeepsListening(q', k, TimedOut, l);
    RejectKeepsListening(q', k, AbortedBySignal, l);
    hide RejectAt;
  }

  lemma {:induction false} PrependKeepsListening(q: Queue, cs: seq<Command>, fired: set<Listener>, l: Listener)
    requires l in q.listening && forall c <- cs :: c.id != l.id
    ensures l in Prepend(q, cs, fired).listening
    decreases |cs|
  {
    if cs != [] {
      hide PrependOne;
      PrependKeepsListening(q, cs[1..], fired, l);
      PrependOneKeepsListening(Prepend(q, cs[1..], fired), cs[0], fired, l);
    }
  }

  lemma AddBatchKeepsListening(q: Queue, b: Batch, armFails: bool, l: Listener)
    requires l in q.listening && l.id !in b.ids
    ensures l in AddBatch(q, b, armFails).listening
  {
    var n := AdmittedCount(q, b);
    if n > 0 {
      var q' := q.(toWrite := q.toWrite + Block(b, n, n), listening := q.listening + ListenersOf(BatchCommand(b, n, 0)));
      assert q'.toWrite[|q.toWrite|] == BatchCommand(b, n, 0);
      RejectKeepsListening(q', |q.toWrite|, NotArmed, l);
      hide RejectAt;
    }
  }

  lemma ArrivesElsewhere(s: System, cs: seq<Command>, fired: set<Listener>, id: nat)
    requires Conserved(s) && Legal(s, Arrive(cs, fired)) && QueuedAs(s.q.toWrite, id)
    ensures forall c <- cs :: c.id != id
  {
    QueuedIsAdmitted(s, id);
    assert Places(s.q, s.out)[id] == multiset(s.admitted)[id];
  }

  lemma QueuedIsAdmitted(s: System, id: nat)
    requires Conserved(s) && QueuedAs(s.q.toWrite, id)
    ensures id in s.admitted && id !in s.out
  {
    var c :| c in s.q.toWrite && c.id == id;
    var i :| 0 <= i < |s.q.toWrite| && s.q.toWrite[i] == c;
    assert Ids(s.q.toWrite)[i] == id;
    assert Places(s.q, s.out)[id] == multiset(s.admitted)[id];
  }

  /** As long as a command is queued, whatever listens for its signals goes on listening, unless it is the
      very signal that fires, on a batch in execution. */
  lemma ListeningIsKept(s: System, op: Op, l: Listener)
    requires Inv(s) && Legal(s, op) && l in s.q.listening && op != Signal(l)
    requires QueuedAs(s.q.toWrite, l.id) && QueuedAs(Step(s, op).q.toWrite, l.id)
    ensures l in Step(s, op).q.listening
  {
    IdsAreDistinct(s);
    QueuedIsAdmitted(s, l.id);
    if op.Arrive? { ArrivesElsewhere(s, op.cs, op.fired, l.id); }
    hide Inv, QueuedAs, QueuedOnceEach, Write, AddBatch, Fire, LoseConnection, Extract, Prepend, Settle, Ids;
    match op
    case AddMany(b, armFails) => AddBatchKeepsListening(s.q, b, armFails, l);
    case WriteNext => WriteKeepsListening(s.q, l);
    case Signal(fired) => FireKeepsListening(s.q, fired, l);
    case Lose => LossKeepsListening(s.q, l);
    case Flush => NoneQueued(l.id);
    case ExtractSlots(slots) => ExtractKeepsListening(s.q, slots, l);
    case Arrive(cs, fired) => PrependKeepsListening(s.q, cs, fired, l);
    case _ =>
  }

  lemma NoneQueued(id: nat)
    ensures !QueuedAs([], id)
  {
  }

  // ---------------------------------------------------------------- timers work

  // A command of its own is listened for as long as it is queued.
  ghost predicate Armed(q: Queue) {
    forall c <- q.toWrite :: !c.batch && c.channels.None? ==> ListenersOf(c) <= q.listening
  }

  // Nothing is queued that was neither queued before nor arrives.
  lemma {:induction false} PrependArms(q: Queue, cs: seq<Command>, fired: set<Listener>)
    requires Distinct(Ids(cs))
    ensures forall c <- Prepend(q, cs, fired).toWrite ::
              c in q.toWrite || (c in cs && !c.rejected && ListenersOf(c) <= Prepend(q, cs, fired).listening)
    decreases |cs|
  {
    if cs != [] {
      var q1 := Prepend(q, cs[1..], fired);
      TailIsDistinct(cs);
      PrependArms(q, cs[1..], fired);
      hide Prepend, Ids, ListenersOf;
      forall c <- PrependOne(q1, cs[0], fired).toWrite
        ensures c in q.toWrite || (c in cs && !c.rejected && ListenersOf(c) <= PrependOne(q1, cs[0], fired).listening)
      {
        PrependOneArms(q1, cs[0], fired, c);
        assert c in cs[1..] ==> c in cs;
      }
    }
  }

  lemma TailIsDistinct(cs: seq<Command>)
    requires Distinct(Ids(cs)) && cs != []
    ensures Distinct(Ids(cs[1..])) && forall c <- cs[1..] :: c.id != cs[0].id
  {
    assert Ids(cs)[1..] == Ids(cs[1..]);
    forall c <- cs[1..] ensures c.id != cs[0].id {
      var i :| 0 <= i < |cs[1..]| && cs[1..][i] == c;
      assert Ids(cs)[i + 1] != Ids(cs)[0];
    }
  }

  lemma PrependOneArms(q: Queue, first: Command, fired: set<Listener>, c: Command)
    requires c in PrependOne(q, first, fired).toWrite
    ensures c in q.toWrite || (c == first && !c.rejected)
    ensures c == first && c !in q.toWrite ==> ListenersOf(c) <= PrependOne(q, first, fired).listening
    ensures c.id != first.id && ListenersOf(c) <= q.listening ==> ListenersOf(c) <= PrependOne(q, first, fired).listening
  {
    var k := FrontIndex(q);
    var end := k + 1 + Companions(InsertAt(q.toWrite, k, first), k);
    AroundInserted(q.toWrite, k, first, end);
    hide Settle, Ids, Companions, FrontIndex, InsertAt;
  }

  lemma AroundInserted(t: seq<Command>, k: nat, first: Command, end: nat)
    requires k <= |t| && k < end <= |t| + 1
    ensures var t' := InsertAt(t, k, first);
            && |t'| == |t| + 1 && t'[k] == first && (forall d <- t' :: d == first || d in t)
            && forall d <- t'[..k] + t'[end..] :: d in t
  {
    var t' := InsertAt(t, k, first);
    assert t'[..k] + t'[end..] == t[..k] + t[end - 1..];
  }

  lemma QueuedIsQueuedAs(t: seq<Command>, c: Command)
    requires c in t
    ensures QueuedAs(t, c.id)
  {
  }

  // A command that stays queued keeps its listeners, unless one of them fires; then it does not stay.
  lemma StaysArmed(s: System, op: Op, c: Command)
    requires Inv(s) && Legal(s, op) && Armed(s.q) && c in s.q.toWrite && c in Step(s, op).q.toWrite
    requires !c.batch && c.channels.None?
    ensures ListenersOf(c) <= Step(s, op).q.listening
  {
    QueuedIsQueuedAs(s.q.toWrite, c);
    QueuedIsQueuedAs(Step(s, op).q.toWrite, c);
    if op.Signal? && op.l.id == c.id && op.l in s.q.listening {
      SingleGoes(s, op.l, c);
    }
    hide Inv, Legal, QueuedAs, Step;
    forall l <- ListenersOf(c) ensures l in Step(s, op).q.listening {
      ListeningIsKept(s, op, l);
    }
  }

  /** The signal of a command of its own takes it out of the queue, with its outcome. */
  lemma SingleGoes(s: System, l: Listener, c: Command)
    requires Inv(s) && l in s.q.listening && c in s.q.toWrite && l.id == c.id && !c.batch
    ensures var q' := Step(s, Signal(l)).q;
            && !QueuedAs(q'.toWrite, c.id) && c.id in q'.settled
            && q'.settled[c.id] == if l.Timer? then TimedOut else AbortedBySignal
  {
    IdsAreDistinct(s);
    var k := FoundAt(s.q.toWrite, c);
    var outcome := if l.Timer? then TimedOut else AbortedBySignal;
    QueuedIsElsewhereNot(s.q, s.out, s.admitted, k);
    hide Inv, RejectAt, QueuedAs, QueuedOnceEach, Find;
    RejectTakesIt(s.q, k, outcome);
    RejectSettles(s.q, k, outcome);
  }

  lemma FoundAt(t: seq<Command>, c: Command) returns (k: nat)
    requires QueuedOnceEach(t) && c in t
    ensures k == Find(t, c.id) < |t| && t[k] == c
  {
    var i :| 0 <= i < |t| && t[i] == c;
    k := Find(t, c.id);
  }

  lemma RejectSettles(q: Queue, k: nat, outcome: Outcome)
    requires k < |q.toWrite| && q.toWrite[k].id !in q.settled
    ensures var q' := RejectAt(q, k, outcome); q.toWrite[k].id in q'.settled && q'.settled[q.toWrite[k].id] == outcome
  {
    var end := k + 1 + Companions(q.toWrite, k);
    assert Ids(q.toWrite[k..end])[0] == q.toWrite[k].id;
  }

  // What is queued afresh is listened for.
  lemma ArrivesArmed(s: System, op: Op, c: Command)
    requires Legal(s, op) && c in Step(s, op).q.toWrite && c !in s.q.toWrite && !c.batch && c.channels.None?
    ensures ListenersOf(c) <= Step(s, op).q.listening
  {
    hide ListenersOf, Write, Fire, Settle, Ids, Deafen;
    match op
    case Arrive(cs, fired) => PrependArms(s.q, cs, fired);
    case AddMany(b, armFails) => BatchIsABatch(s.q, b, armFails);
    case WriteNext => NothingNew(s.q, {}, Timer(0));
    case Signal(l) => NothingNew(s.q, {}, l);
    case ExtractSlots(slots) => NothingNew(s.q, slots, Timer(0));
    case _ =>
  }

  lemma BatchIsABatch(q: Queue, b: Batch, armFails: bool)
    ensures forall c <- AddBatch(q, b, armFails).toWrite :: c in q.toWrite || c.batch
  {
  }

  lemma {:induction false} WritesNothingNew(q: Queue)
    ensures forall c <- Write(q).0.toWrite :: c in q.toWrite
    decreases |q.toWrite|
  {
    if q.toWrite != [] && !q.toWrite[0].encodable {
      WritesNothingNew(q.(toWrite := q.toWrite[1..], settled := Settle(q.settled, [q.toWrite[0].id], Unencodable)));
    }
  }

  lemma NothingNew(q: Queue, slots: set<nat>, l: Listener)
    ensures forall c <- Write(q).0.toWrite :: c in q.toWrite
    ensures forall c <- Fire(q, l).toWrite :: c in q.toWrite
    ensures forall c <- Extract(q, slots).0.toWrite :: c in q.toWrite
  {
    WritesNothingNew(q);
    SelectSorts(q.toWrite[..Reach(q.toWrite, slots, q.chainInExecution)], slots, false);
    hide Settle, Ids, Deafen, Companions;
  }

  lemma StepArms(s: System, op: Op)
    requires Inv(s) && Legal(s, op) && Armed(s.q)
    ensures Armed(Step(s, op).q)
  {
    hide Inv, Legal, Step;
    forall c <- Step(s, op).q.toWrite | !c.batch && c.channels.None? ensures ListenersOf(c) <= Step(s, op).q.listening {
      if c in s.q.toWrite { StaysArmed(s, op, c); } else { ArrivesArmed(s, op, c); }
    }
  }

  lemma {:induction false} RunArms(s: System, ops: seq<Op>)
    requires Inv(s) && LegalRun(s, ops) && Armed(s.q)
    ensures Armed(Run(s, ops).q)
    decreases |ops|
  {
    if ops != [] {
      hide Inv, Legal, Step, Armed;
      StepArms(s, ops[0]);
      StepKeepsInv(s, ops[0]);
      RunArms(Step(s, ops[0]), ops[1..]);
    }
  }

  /** In every run, the timer and the abort signal of a command that is queued on its own cancel it when
      they fire. */
  lemma SignalsCancel(maxLength: nat, ops: seq<Op>, c: Command, l: Listener)
    requires LegalRun(Init(maxLength), ops) && c in Run(Init(maxLength), ops).q.toWrite
    requires !c.batch && c.channels.None? && l.id == c.id && (if l.Timer? then c.timer else c.abort)
    ensures var q' := Step(Run(Init(maxLength), ops), Signal(l)).q;
            && !QueuedAs(q'.toWrite, c.id) && c.id in q'.settled
            && q'.settled[c.id] == if l.Timer? then TimedOut else AbortedBySignal
  {
    InitHasInv(maxLength);
    RunKeepsInv(Init(maxLength), ops);
    RunArms(Init(maxLength), ops);
    assert l in ListenersOf(c);
    SingleGoes(Run(Init(maxLength), ops), l, c);
  }

  // ---------------------------------------------------------------- rejected on the way

  function Living(cs: seq<Command>): seq<Command> {
    if cs == [] then [] else (if cs[0].rejected then [] else [cs[0]]) + Living(cs[1..])
  }

  /** Commands whose promise was rejected on the way are dropped, as if they had not come. */
  lemma {:induction false} RejectedOnesAreDropped(q: Queue, cs: seq<Command>, fired: set<Listener>)
    ensures Prepend(q, cs, fired) == Prepend(q, Living(cs), fired)
  {
    if cs != [] {
      RejectedOnesAreDropped(q, cs[1..], fired);
      assert if cs[0].rejected then Living(cs) == Living(cs[1..]) else Living(cs)[1..] == Living(cs[1..]);
    }
  }
}
