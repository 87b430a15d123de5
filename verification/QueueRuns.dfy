/** Whole runs of one client: its queue, the server at the other end, and what went over each
    connection. Every step's queue part is what the methods of `RedisCommandsQueue` do. */
module QueueRuns {
  import opened Collections
  import opened QueueSpec
  import opened QueueBlocks

  /** What the server owes: a reply to a prelude, a reply to a command, or the status pushes of a
      subscription that are still to come. `after` says that the reply to a prelude comes first. */
  datatype Due =
    | PreludeReply(id: nat)
    | CommandReply(id: nat, after: bool)
    | StatusPushes(id: nat, after: bool, left: nat)

  /** `server` is what the server owes, `wire` what was written to the current connection and `past` to
      the earlier ones; `admitted` and `out` are the ids of the commands ever queued and of those handed
      out by extraction. */
  datatype System = System(
    q: Queue,
    server: seq<Due>,
    past: seq<seq<Command>>,
    wire: seq<Command>,
    admitted: set<nat>,
    out: multiset<nat>)

  datatype Op =
    | Add(c: Command, asap: bool, aborted: bool, armFails: bool)
    | Subscribe(c: Command, asap: bool)
    | AddMany(b: Batch, armFails: bool)
    | WriteNext
    | Answer(ok: bool)
    | StatusPush
    | MessagePush
    | Signal(l: Listener)
    | Lose
    | Flush
    | ExtractSlots(slots: set<nat>)
    | Arrive(cs: seq<Command>, fired: set<Listener>)
    | RejectOut(ids: seq<nat>)

  function Init(maxLength: nat): System { System(Empty(maxLength), [], [], [], {}, multiset{}) }

  /** What may happen next: ids are fresh, and the server answers its requests in order, an ordinary
      one with a reply and a subscription of n channels with n status pushes or an error. */
  predicate Legal(s: System, op: Op) {
    match op
    case Add(c, _, _, _) => c.id !in s.admitted && WellFormed(c) && !c.batch && c.channels.None?
    case Subscribe(c, _) => c.id !in s.admitted && WellFormed(c) && !c.batch && c.channels.Some? && !c.prelude
    case AddMany(b, _) => Distinct(b.ids) && forall id <- b.ids :: id !in s.admitted
    case Answer(ok) => s.server != [] && (s.server[0].StatusPushes? ==> !ok)
    case StatusPush => s.server != [] && s.server[0].StatusPushes?
    case Arrive(cs, _) =>
      && Whole(cs) && Distinct(Ids(cs))
      && (forall c <- cs :: !c.rejected && (c.id in s.admitted ==> c.id in s.out))
      && (forall c <- cs :: c.chain.Some? ==> c.chain != s.q.chainInExecution)
    case RejectOut(ids) => Distinct(ids) && forall id <- ids :: id in s.out
    case _ => true
  }

  /** What the server owes for a command, as it reads it off the wire. */
  function Owed(c: Command): seq<Due> {
    var due := if c.channels.Some? then StatusPushes(c.id, c.prelude, c.channels.value) else CommandReply(c.id, c.prelude);
    if c.prelude then [PreludeReply(c.id), due] else [due]
  }

  function ServerPush(server: seq<Due>): seq<Due>
    requires server != []
  {
    var d := server[0];
    if d.StatusPushes? && d.left > 1 then [d.(left := d.left - 1)] + server[1..] else server[1..]
  }

  function IdSet(cs: seq<Command>): set<nat> { set c <- cs :: c.id }

  function Step(s: System, op: Op): System {
    match op
    case Add(c, asap, aborted, armFails) =>
      if Admit(s.q, c, aborted, armFails) != Queued then s
      else s.(q := AddCommand(s.q, c, asap), admitted := s.admitted + {c.id})
    case Subscribe(c, asap) => s.(q := AddToWrite(s.q, c, asap), admitted := s.admitted + {c.id})
    case AddMany(b, armFails) =>
      s.(q := AddBatch(s.q, b, armFails), admitted := s.admitted + set id <- b.ids[..AdmittedCount(s.q, b)])
    case WriteNext =>
      var (q, c) := Write(s.q);
      if c.None? then s.(q := q)
      else s.(q := q, wire := s.wire + [c.value], server := s.server + Owed(c.value))
    case Answer(ok) =>
      if s.q.waiting == [] || s.server == [] then s else s.(q := OnReply(s.q, ok), server := s.server[1..])
    case StatusPush =>
      if s.q.waiting == [] || s.server == [] then s else s.(q := OnStatusPush(s.q), server := ServerPush(s.server))
    case MessagePush => s
    case Signal(l) => s.(q := Fire(s.q, l))
    case Lose => s.(q := LoseConnection(s.q), server := [], past := s.past + [s.wire], wire := [])
    case Flush => s.(q := FlushAll(s.q), server := [], past := s.past + [s.wire], wire := [])
    case ExtractSlots(slots) =>
      var (q, taken) := Extract(s.q, slots);
      s.(q := q, out := s.out + multiset(Ids(taken)))
    case Arrive(cs, fired) =>
      s.(q := Prepend(s.q, cs, fired), admitted := s.admitted + IdSet(cs), out := s.out - multiset(Ids(cs)))
    case RejectOut(ids) =>
      s.(q := s.q.(settled := Settle(s.q.settled, ids, ConnectionLost)), out := s.out - multiset(ids))
  }

  predicate LegalRun(s: System, ops: seq<Op>)
    decreases |ops|
  {
    ops == [] || (Legal(s, ops[0]) && LegalRun(Step(s, ops[0]), ops[1..]))
  }

  function Run(s: System, ops: seq<Op>): System
    decreases |ops|
  {
    if ops == [] then s else Run(Step(s, ops[0]), ops[1..])
  }

  lemma {:induction false} RunAppend(s: System, a: seq<Op>, b: seq<Op>)
    ensures Run(s, a + b) == Run(Run(s, a), b)
    ensures LegalRun(s, a + b) <==> LegalRun(s, a) && LegalRun(Run(s, a), b)
    decreases |a|
  {
    hide Step, Legal;
    if a == [] {
      assert a + b == b;
    } else {
      assert (a + b)[1..] == a[1..] + b;
      RunAppend(Step(s, a[0]), a[1..], b);
    }
  }

  lemma RunOfOne(s: System, op: Op)
    ensures Run(s, [op]) == Step(s, op) && (LegalRun(s, [op]) <==> Legal(s, op))
  {
    hide Step, Legal;
    assert [op][1..] == [];
    assert Run(Step(s, op), []) == Step(s, op) && LegalRun(Step(s, op), []);
  }

  // Nothing but writing.
  function Writes(k: nat): seq<Op> { seq(k, _ => WriteNext) }

  // ---------------------------------------------------------------- conservation

  function Places(q: Queue, out: multiset<nat>): multiset<nat> {
    multiset(Ids(q.toWrite)) + multiset(Mains(q.waiting)) + out + multiset(q.settled.Keys)
  }

  /** Every admitted command is in exactly one place. */
  ghost predicate Conserved(s: System) { Places(s.q, s.out) == multiset(s.admitted) }

  // Settling commands that are not settled yet moves them there.
  lemma SettleMoves(settled: map<nat, Outcome>, ids: seq<nat>, outcome: Outcome, others: multiset<nat>, admitted: set<nat>)
    requires multiset(ids) + multiset(settled.Keys) + others == multiset(admitted)
    ensures multiset(Settle(settled, ids, outcome).Keys) == multiset(ids) + multiset(settled.Keys)
  {
    var all := multiset(ids) + multiset(settled.Keys);
    forall x ensures multiset(Settle(settled, ids, outcome).Keys)[x] == all[x] {
      assert (all + others)[x] == multiset(admitted)[x];
      assert x in multiset(ids) <==> x in ids;
    }
  }

  lemma IdsConcat(a: seq<Command>, b: seq<Command>)
    ensures multiset(Ids(a + b)) == multiset(Ids(a)) + multiset(Ids(b))
  {
    assert Ids(a + b) == Ids(a) + Ids(b);
  }

  lemma IdsThree(s: seq<Command>, i: nat, j: nat)
    requires i <= j <= |s|
    ensures multiset(Ids(s)) == multiset(Ids(s[..i] + s[j..])) + multiset(Ids(s[i..j]))
  {
    assert Ids(s) == Ids(s[..i]) + Ids(s[i..j]) + Ids(s[j..]);
    IdsConcat(s[..i], s[j..]);
  }

  lemma IdsInsert(s: seq<Command>, k: nat, c: Command)
    requires k <= |s|
    ensures multiset(Ids(InsertAt(s, k, c))) == multiset(Ids(s)) + multiset{c.id}
  {
    assert Ids(InsertAt(s, k, c)) == Ids(s[..k]) + [c.id] + Ids(s[k..]);
    assert Ids(s) == Ids(s[..k]) + Ids(s[k..]);
  }

  lemma {:induction false} MainsConcat(a: seq<Waiting>, b: seq<Waiting>)
    ensures Mains(a + b) == Mains(a) + Mains(b)
    decreases |b|
  {
    if b == [] {
      assert a + b == a;
    } else {
      var init := b[..|b| - 1];
      assert (a + b)[..|a + b| - 1] == a + init;
      MainsConcat(a, init);
    }
  }

  lemma MainsOne(w: Waiting)
    ensures Mains([w]) == if w.isPrelude then [] else [w.id]
  {
    assert [w][..0] == [];
  }

  lemma MainsHead(w: seq<Waiting>)
    requires w != []
    ensures Mains(w) == (if w[0].isPrelude then [] else [w[0].id]) + Mains(w[1..])
  {
    assert w == [w[0]] + w[1..];
    MainsConcat([w[0]], w[1..]);
    MainsOne(w[0]);
  }

  lemma MainsOfRequests(c: Command)
    ensures Mains(Requests(c)) == [c.id]
  {
    MainsOne(Waiting(c.id, true, true, None));
    MainsOne(Waiting(c.id, false, c.prelude, c.channels));
    MainsConcat([Waiting(c.id, true, true, None)], [Waiting(c.id, false, c.prelude, c.channels)]);
  }

  // Commands leave one place for `settled`.
  lemma Moved(left: multiset<nat>, moved: multiset<nat>, a: multiset<nat>, b: multiset<nat>, settled: multiset<nat>)
    ensures (left + moved) + a + b + settled == left + a + b + (moved + settled)
    ensures a + (left + moved) + b + settled == a + left + b + (moved + settled)
    ensures moved + settled + (left + a + b) == (left + moved) + a + b + settled
    ensures moved + settled + (a + left + b) == a + (left + moved) + b + settled
  {
  }

  lemma RejectConserves(q: Queue, k: nat, outcome: Outcome, out: multiset<nat>, admitted: set<nat>)
    requires k < |q.toWrite| && Places(q, out) == multiset(admitted)
    ensures Places(RejectAt(q, k, outcome), out) == multiset(admitted)
  {
    hide Settle, Ids, Mains, MemberRun;
    var end := k + 1 + Companions(q.toWrite, k);
    var left, gone := q.toWrite[..k] + q.toWrite[end..], q.toWrite[k..end];
    var mains := multiset(Mains(q.waiting));
    IdsThree(q.toWrite, k, end);
    Moved(multiset(Ids(left)), multiset(Ids(gone)), mains, out, multiset(q.settled.Keys));
    SettleMoves(q.settled, Ids(gone), outcome, multiset(Ids(left)) + mains + out, admitted);
  }

  lemma {:induction false} WriteConserves(q: Queue, out: multiset<nat>, admitted: set<nat>)
    requires Places(q, out) == multiset(admitted)
    ensures Places(Write(q).0, out) == multiset(admitted)
    decreases |q.toWrite|
  {
    if q.toWrite != [] {
      hide Places, Requests, Settle, Deafen;
      var c, rest := q.toWrite[0], q.toWrite[1..];
      if c.encodable {
        WrittenPlaces(q, Write(q).0, out);
      } else {
        WriteConservesOne(q, out, admitted);
        WriteConserves(q.(toWrite := rest, settled := Settle(q.settled, [c.id], Unencodable)), out, admitted);
      }
    }
  }

  // A command that is written waits for its reply.
  lemma WrittenPlaces(q: Queue, q': Queue, out: multiset<nat>)
    requires q.toWrite != [] && q'.toWrite == q.toWrite[1..] && q'.waiting == q.waiting + Requests(q.toWrite[0])
    requires q'.settled == q.settled
    ensures Places(q', out) == Places(q, out)
  {
    hide Ids, Mains, Requests;
    var c := q.toWrite[0];
    IdsHead(q.toWrite);
    MainsConcat(q.waiting, Requests(c));
    MainsOfRequests(c);
    assert multiset(Mains(q'.waiting)) == multiset(Mains(q.waiting)) + multiset([c.id]);
    Regrouped(multiset(Ids(q'.toWrite)), multiset([c.id]), multiset(Mains(q.waiting)), out + multiset(q.settled.Keys));
    assert Places(q', out) ==
      multiset(Ids(q'.toWrite)) + (multiset(Mains(q.waiting)) + multiset([c.id])) + (out + multiset(q.settled.Keys));
  }

  lemma Regrouped(a: multiset<nat>, b: multiset<nat>, c: multiset<nat>, d: multiset<nat>)
    ensures a + (c + b) + d == (a + b) + c + d
  {
  }

  // One command that does not encode.
  lemma WriteConservesOne(q: Queue, out: multiset<nat>, admitted: set<nat>)
    requires q.toWrite != [] && Places(q, out) == multiset(admitted)
    ensures Places(q.(toWrite := q.toWrite[1..], settled := Settle(q.settled, [q.toWrite[0].id], Unencodable)), out)
         == multiset(admitted)
  {
    hide Ids, Mains, Settle;
    var c, rest, mains := q.toWrite[0], q.toWrite[1..], multiset(Mains(q.waiting));
    IdsHead(q.toWrite);
    Moved(multiset(Ids(rest)), multiset([c.id]), mains, out, multiset(q.settled.Keys));
    SettleMoves(q.settled, [c.id], Unencodable, multiset(Ids(rest)) + mains + out, admitted);
  }

  lemma IdsHead(s: seq<Command>)
    requires s != []
    ensures multiset(Ids(s)) == multiset(Ids(s[1..])) + multiset([s[0].id])
  {
    assert Ids(s) == [s[0].id] + Ids(s[1..]);
  }

  lemma ReplyConserves(q: Queue, ok: bool, out: multiset<nat>, admitted: set<nat>)
    requires q.waiting != [] && Places(q, out) == multiset(admitted)
    ensures Places(OnReply(q, ok), out) == multiset(admitted)
  {
    hide Settle, Ids, Mains;
    var w, rest := q.waiting[0], multiset(Mains(q.waiting[1..]));
    MainsHead(q.waiting);
    if w.isPrelude {
      assert [] + Mains(q.waiting[1..]) == Mains(q.waiting[1..]);
    } else {
      var writes := multiset(Ids(q.toWrite));
      Moved(rest, multiset([w.id]), writes, out, multiset(q.settled.Keys));
      SettleMoves(q.settled, [w.id], if ok then Resolved else ErrorReply, writes + rest + out, admitted);
    }
  }

  lemma PushConserves(q: Queue, out: multiset<nat>, admitted: set<nat>)
    requires q.waiting != [] && Places(q, out) == multiset(admitted)
    ensures Places(OnStatusPush(q), out) == multiset(admitted)
  {
    hide Settle, Ids, Mains;
    var w := q.waiting[0];
    if w.channels == Some(1) {
      ReplyConserves(q, true, out, admitted);
    } else if w.channels.Some? && w.channels.value > 1 {
      MainsHead(q.waiting);
      MainsHead(OnStatusPush(q).waiting);
    }
  }

  lemma {:induction false} DistinctIds(ids: seq<nat>)
    requires Distinct(ids)
    ensures multiset(set x <- ids) == multiset(ids)
    decreases |ids|
  {
    if ids != [] {
      var init, last := ids[..|ids| - 1], ids[|ids| - 1];
      DistinctIds(init);
      assert ids == init + [last];
      assert (set x <- ids) == (set x <- init) + {last};
      assert last !in init;
    }
  }

  lemma AdmitFresh(admitted: set<nat>, ids: seq<nat>)
    requires Distinct(ids) && forall id <- ids :: id !in admitted
    ensures multiset(admitted + set x <- ids) == multiset(admitted) + multiset(ids)
  {
    DistinctIds(ids);
    assert admitted !! (set x <- ids);
  }

  // Queueing one fresh command.
  lemma AddConserves(q: Queue, c: Command, asap: bool, out: multiset<nat>, admitted: set<nat>)
    requires Places(q, out) == multiset(admitted) && c.id !in admitted
    ensures Places(AddToWrite(q, c, asap), out) == multiset(admitted + {c.id})
  {
    hide Ids, Mains, FrontIndex, InsertAt;
    AdmitFresh(admitted, [c.id]);
    assert (set x <- [c.id]) == {c.id} && multiset([c.id]) == multiset{c.id};
    if asap {
      IdsInsert(q.toWrite, FrontIndex(q), c);
    } else {
      IdsInsert(q.toWrite, |q.toWrite|, c);
      InsertAtEnd(q.toWrite, c);
    }
  }

  lemma InsertAtEnd(s: seq<Command>, c: Command)
    ensures InsertAt(s, |s|, c) == s + [c]
  {
  }

  lemma IdsOfBlock(b: Batch, size: nat, n: nat)
    requires n <= |b.ids|
    ensures Ids(Block(b, size, n)) == b.ids[..n]
  {
  }

  lemma BlockPlaces(q: Queue, q': Queue, b: Batch, n: nat, out: multiset<nat>)
    requires n <= |b.ids| && q'.toWrite == q.toWrite + Block(b, n, n)
    requires q'.waiting == q.waiting && q'.settled == q.settled
    ensures Places(q', out) == Places(q, out) + multiset(b.ids[..n])
  {
    IdsOfBlock(b, n, n);
    IdsConcat(q.toWrite, Block(b, n, n));
    hide Ids, Mains, Block;
  }

  lemma AddBatchConserves(q: Queue, b: Batch, armFails: bool, out: multiset<nat>, admitted: set<nat>)
    requires Places(q, out) == multiset(admitted)
    requires Distinct(b.ids) && forall id <- b.ids :: id !in admitted
    ensures Places(AddBatch(q, b, armFails), out) == multiset(admitted + set id <- b.ids[..AdmittedCount(q, b)])
  {
    hide RejectAt;
    var n := AdmittedCount(q, b);
    var ids := b.ids[..n];
    AdmitFresh(admitted, ids);
    if n > 0 {
      var q' := q.(toWrite := q.toWrite + Block(b, n, n), listening := q.listening + ListenersOf(BatchCommand(b, n, 0)));
      BlockPlaces(q, q', b, n, out);
      hide Places, Block, BatchCommand, ListenersOf;
      if armFails {
        RejectConserves(q', |q.toWrite|, NotArmed, out, admitted + set id <- ids);
      }
    } else {
      assert ids == [];
    }
  }

  lemma FireConserves(q: Queue, l: Listener, out: multiset<nat>, admitted: set<nat>)
    requires Places(q, out) == multiset(admitted) && Heard(q)
    ensures Places(Fire(q, l), out) == multiset(admitted)
  {
    var k := Find(q.toWrite, l.id);
    if l in q.listening && k < |q.toWrite| && !BatchStarted(q, q.toWrite[k]) {
      RejectConserves(q, k, if l.Timer? then TimedOut else AbortedBySignal, out, admitted);
    }
    if l in q.listening && k == |q.toWrite| {
      assert Settle(q.settled, [l.id], if l.Timer? then TimedOut else AbortedBySignal) == q.settled;
    }
  }

  lemma FlushWaitingConserves(q: Queue, out: multiset<nat>, admitted: set<nat>)
    requires Places(q, out) == multiset(admitted)
    ensures Places(FlushWaiting(q), out) == multiset(admitted)
  {
    hide Settle, Ids;
    var writes, mains := multiset(Ids(q.toWrite)), multiset(Mains(q.waiting));
    Moved(multiset{}, mains, writes, out, multiset(q.settled.Keys));
    SettleMoves(q.settled, Mains(q.waiting), ConnectionLost, writes + out, admitted);
  }

  // The first n queued commands are rejected.
  lemma FlushFrontConserves(q: Queue, n: nat, out: multiset<nat>, admitted: set<nat>)
    requires n <= |q.toWrite| && Places(q, out) == multiset(admitted)
    ensures Places(q.(toWrite := q.toWrite[n..], settled := Settle(q.settled, Ids(q.toWrite[..n]), ConnectionLost)), out)
         == multiset(admitted)
  {
    hide Settle, Ids;
    var left, gone := q.toWrite[n..], q.toWrite[..n];
    var mains := multiset(Mains(q.waiting));
    IdsThree(q.toWrite, 0, n);
    assert q.toWrite[..0] + left == left && q.toWrite[0..n] == gone;
    Moved(multiset(Ids(left)), multiset(Ids(gone)), mains, out, multiset(q.settled.Keys));
    SettleMoves(q.settled, Ids(gone), ConnectionLost, multiset(Ids(left)) + mains + out, admitted);
  }

  lemma LoseConserves(q: Queue, out: multiset<nat>, admitted: set<nat>)
    requires Places(q, out) == multiset(admitted)
    ensures Places(LoseConnection(q), out) == multiset(admitted)
  {
    FlushWaitingConserves(q, out, admitted);
    if q.chainInExecution.Some? {
      FlushFrontConserves(FlushWaiting(q), ChainRun(q.toWrite, q.chainInExecution), out, admitted);
    }
  }

  lemma FlushConserves(q: Queue, out: multiset<nat>, admitted: set<nat>)
    requires Places(q, out) == multiset(admitted)
    ensures Places(FlushAll(q), out) == multiset(admitted)
  {
    FlushWaitingConserves(q, out, admitted);
    FlushFrontConserves(FlushWaiting(q), |q.toWrite|, out, admitted);
    assert q.toWrite[..|q.toWrite|] == q.toWrite;
  }

  lemma {:induction false} SelectPartition(s: seq<Command>, slots: set<nat>)
    ensures multiset(Ids(s)) == multiset(Ids(Select(s, slots, false))) + multiset(Ids(Select(s, slots, true)))
    decreases |s|
  {
    if s != [] {
      var init, last := s[..|s| - 1], s[|s| - 1];
      SelectPartition(init, slots);
      IdsConcat(init, [last]);
      assert s == init + [last];
      IdsConcat(Select(init, slots, Targets(last, slots)), [last]);
      assert Select(s, slots, !Targets(last, slots)) == Select(init, slots, !Targets(last, slots));
    }
  }

  lemma ExtractConserves(q: Queue, slots: set<nat>, out: multiset<nat>, admitted: set<nat>)
    requires Places(q, out) == multiset(admitted)
    ensures var (q', taken) := Extract(q, slots); Places(q', out + multiset(Ids(taken))) == multiset(admitted)
  {
    hide Ids, Select;
    var n := Reach(q.toWrite, slots, q.chainInExecution);
    assert q.toWrite == q.toWrite[..n] + q.toWrite[n..];
    IdsConcat(q.toWrite[..n], q.toWrite[n..]);
    SelectPartition(q.toWrite[..n], slots);
    IdsConcat(Select(q.toWrite[..n], slots, false), q.toWrite[n..]);
  }

  // One arriving command goes to the queue, or is settled with its batch.
  lemma PrependOneConserves(q: Queue, c: Command, fired: set<Listener>, out: multiset<nat>, admitted: set<nat>)
    requires !c.rejected && Places(q, out + multiset{c.id}) == multiset(admitted)
    ensures Places(PrependOne(q, c, fired), out) == multiset(admitted)
  {
    hide Ids, Mains;
    var k := FrontIndex(q);
    var q' := q.(toWrite := InsertAt(q.toWrite, k, c));
    IdsInsert(q.toWrite, k, c);
    assert Places(q', out) == multiset(admitted);
    if c.timer && Timer(c.id) in fired {
      RejectConserves(q', k, TimedOut, out, admitted);
    } else if c.abort && Abort(c.id) in fired {
      RejectConserves(q', k, AbortedBySignal, out, admitted);
    }
  }

  lemma {:induction false} PrependConserves(q: Queue, cs: seq<Command>, fired: set<Listener>, out: multiset<nat>,
                                            admitted: set<nat>)
    requires (forall c <- cs :: !c.rejected) && Places(q, out + multiset(Ids(cs))) == multiset(admitted)
    ensures Places(Prepend(q, cs, fired), out) == multiset(admitted)
    decreases |cs|
  {
    hide Mains;
    if cs == [] {
      assert out + multiset(Ids(cs)) == out;
    } else {
      var out' := out + multiset{cs[0].id};
      IdsHead(cs);
      assert multiset([cs[0].id]) == multiset{cs[0].id};
      assert out + multiset(Ids(cs)) == out' + multiset(Ids(cs[1..]));
      PrependConserves(q, cs[1..], fired, out', admitted);
      PrependOneConserves(Prepend(q, cs[1..], fired), cs[0], fired, out, admitted);
    }
  }

  // ---------------------------------------------------------------- listeners and written commands

  // The queued commands a signal may cancel.
  function Cancellable(s: seq<Command>): set<nat> { set c <- s | !IsMember(c) :: c.id }

  /** The queue listens only for queued commands, and for those that would not encode. */
  ghost predicate Heard(q: Queue) {
    forall l <- q.listening :: l.id in Cancellable(q.toWrite) || (l.id in q.settled && q.settled[l.id] == Unencodable)
  }

  lemma RejectHeard(q: Queue, k: nat, outcome: Outcome)
    requires Heard(q) && k < |q.toWrite|
    ensures Heard(RejectAt(q, k, outcome))
  {
    var end := k + 1 + Companions(q.toWrite, k);
    forall i | k < i < end ensures IsMember(q.toWrite[i]) {
      assert q.toWrite[k + 1..][i - k - 1] == q.toWrite[i];
    }
    forall c <- q.toWrite | !IsMember(c) && c.id != q.toWrite[k].id
      ensures c in q.toWrite[..k] + q.toWrite[end..]
    {
      var i :| 0 <= i < |q.toWrite| && q.toWrite[i] == c;
    }
    assert Ids([q.toWrite[k]]) == [q.toWrite[k].id];
  }

  lemma QueuedIsElsewhereNot(q: Queue, out: multiset<nat>, admitted: set<nat>, i: nat)
    requires Places(q, out) == multiset(admitted) && i < |q.toWrite|
    ensures q.toWrite[i].id !in q.settled && q.toWrite[i].id !in Mains(q.waiting)
  {
    var id := q.toWrite[i].id;
    assert id == Ids(q.toWrite)[i];
    assert multiset(admitted)[id] <= 1;
  }

  lemma WaitingIsNotSettled(q: Queue, out: multiset<nat>, admitted: set<nat>, id: nat)
    requires Places(q, out) == multiset(admitted) && id in Mains(q.waiting)
    ensures id !in q.settled
  {
    assert multiset(admitted)[id] <= 1;
  }

  lemma QueuedOnce(q: Queue, out: multiset<nat>, admitted: set<nat>, i: nat, j: nat)
    requires Places(q, out) == multiset(admitted) && i < |q.toWrite| && j < |q.toWrite|
    requires q.toWrite[i].id == q.toWrite[j].id
    ensures i == j
  {
    var ids := Ids(q.toWrite);
    CountedTwice(ids);
    assert ids[i] == ids[j] && multiset(admitted)[ids[i]] <= 1;
  }

  lemma CountedTwice(ids: seq<nat>)
    ensures forall a, b :: 0 <= a < b < |ids| && ids[a] == ids[b] ==> multiset(ids)[ids[a]] >= 2
  {
    forall a, b | 0 <= a < b < |ids| && ids[a] == ids[b] ensures multiset(ids)[ids[a]] >= 2 {
      assert ids == ids[..a] + [ids[a]] + ids[a + 1..b] + [ids[b]] + ids[b + 1..];
    }
  }

  lemma InIds(s: seq<Command>)
    ensures forall c <- s :: c.id in Ids(s)
  {
    forall c <- s ensures c.id in Ids(s) {
      var i :| 0 <= i < |s| && s[i] == c;
      assert Ids(s)[i] == c.id;
    }
  }

  lemma {:induction false} WriteHeard(q: Queue, out: multiset<nat>, admitted: set<nat>)
    requires Heard(q) && Places(q, out) == multiset(admitted)
    ensures Heard(Write(q).0)
    decreases |q.toWrite|
  {
    if q.toWrite != [] {
      var c, rest := q.toWrite[0], q.toWrite[1..];
      assert forall d <- q.toWrite :: d == c || d in rest;
      QueuedIsElsewhereNot(q, out, admitted, 0);
      assert Ids([c]) == [c.id];
      if !c.encodable {
        var q' := q.(toWrite := rest, settled := Settle(q.settled, [c.id], Unencodable));
        WriteConservesOne(q, out, admitted);
        WriteHeard(q', out, admitted);
      }
    }
  }

  lemma FireHeard(q: Queue, l: Listener)
    requires Heard(q)
    ensures Heard(Fire(q, l))
  {
    var k := Find(q.toWrite, l.id);
    if l in q.listening && k < |q.toWrite| && !BatchStarted(q, q.toWrite[k]) {
      RejectHeard(q, k, if l.Timer? then TimedOut else AbortedBySignal);
    }
  }

  lemma FrontHeard(q: Queue, n: nat, settled: map<nat, Outcome>)
    requires Heard(q) && n <= |q.toWrite|
    requires forall id <- q.settled :: id in settled && settled[id] == q.settled[id]
    ensures forall l <- Deafen(q.listening, q.toWrite[..n]) ::
      l.id in Cancellable(q.toWrite[n..]) || (l.id in settled && settled[l.id] == Unencodable)
  {
    InIds(q.toWrite[..n]);
    assert q.toWrite == q.toWrite[..n] + q.toWrite[n..];
    assert forall c <- q.toWrite | c.id !in Ids(q.toWrite[..n]) :: c in q.toWrite[n..];
  }

  lemma LoseHeard(q: Queue)
    requires Heard(q)
    ensures Heard(LoseConnection(q))
  {
    FrontHeard(q, ChainRun(q.toWrite, q.chainInExecution), LoseConnection(q).settled);
  }

  lemma FlushHeard(q: Queue)
    requires Heard(q)
    ensures Heard(FlushAll(q))
  {
    FrontHeard(q, |q.toWrite|, FlushAll(q).settled);
    assert q.toWrite[..|q.toWrite|] == q.toWrite;
  }

  lemma {:induction false} Selected(s: seq<Command>, slots: set<nat>, c: Command)
    requires c in s
    ensures c in Select(s, slots, Targets(c, slots))
    decreases |s|
  {
    var init := s[..|s| - 1];
    if c in init {
      Selected(init, slots, c);
    }
  }

  lemma ExtractHeard(q: Queue, slots: set<nat>)
    requires Heard(q)
    ensures Heard(Extract(q, slots).0)
  {
    var n := Reach(q.toWrite, slots, q.chainInExecution);
    var (q', taken) := Extract(q, slots);
    InIds(taken);
    assert q.toWrite == q.toWrite[..n] + q.toWrite[n..];
    forall c <- q.toWrite[..n] ensures c in q'.toWrite || c in taken {
      Selected(q.toWrite[..n], slots, c);
    }
  }

  lemma PrependOneHeard(q: Queue, c: Command, fired: set<Listener>)
    requires Heard(q) && WellFormed(c)
    ensures Heard(PrependOne(q, c, fired))
  {
    if !c.rejected {
      var k := FrontIndex(q);
      var q' := q.(toWrite := InsertAt(q.toWrite, k, c));
      assert forall d <- q.toWrite :: d in q'.toWrite;
      if c.timer && Timer(c.id) in fired {
        RejectHeard(q', k, TimedOut);
      } else if c.abort && Abort(c.id) in fired {
        RejectHeard(q', k, AbortedBySignal);
      }
    }
  }

  lemma {:induction false} PrependHeard(q: Queue, cs: seq<Command>, fired: set<Listener>)
    requires Heard(q) && forall c <- cs :: WellFormed(c)
    ensures Heard(Prepend(q, cs, fired))
    decreases |cs|
  {
    if cs != [] {
      PrependHeard(q, cs[1..], fired);
      PrependOneHeard(Prepend(q, cs[1..], fired), cs[0], fired);
    }
  }

  lemma AddHeard(q: Queue, c: Command, asap: bool)
    requires Heard(q) && !c.batch
    ensures Heard(AddToWrite(q, c, asap)) && Heard(AddCommand(q, c, asap))
  {
    assert forall d <- q.toWrite :: d in AddToWrite(q, c, asap).toWrite;
    assert c in AddToWrite(q, c, asap).toWrite;
  }

  lemma AddBatchHeard(q: Queue, b: Batch, armFails: bool)
    requires Heard(q)
    ensures Heard(AddBatch(q, b, armFails))
  {
    var n := AdmittedCount(q, b);
    if n > 0 {
      var head := BatchCommand(b, n, 0);
      var q' := q.(toWrite := q.toWrite + Block(b, n, n), listening := q.listening + ListenersOf(head));
      assert Block(b, n, n)[0] == head;
      assert Heard(q');
      if armFails { RejectHeard(q', |q.toWrite|, NotArmed); }
    }
  }

  predicate FromWire(o: Outcome) { o == Resolved || o == ErrorReply || o == ConnectionLost }

  /** A written command waits for its reply, or was settled by a reply or by connection loss. */
  predicate Answerable(q: Queue, id: nat) {
    id in Mains(q.waiting) || (id in q.settled && FromWire(q.settled[id]))
  }

  lemma ReplyKeepsAnswerable(q: Queue, ok: bool, out: multiset<nat>, admitted: set<nat>, id: nat)
    requires q.waiting != [] && Places(q, out) == multiset(admitted) && Answerable(q, id)
    ensures Answerable(OnReply(q, ok), id)
  {
    MainsHead(q.waiting);
    if !q.waiting[0].isPrelude {
      WaitingIsNotSettled(q, out, admitted, q.waiting[0].id);
    }
  }

  lemma PushKeepsAnswerable(q: Queue, out: multiset<nat>, admitted: set<nat>, id: nat)
    requires q.waiting != [] && Places(q, out) == multiset(admitted) && Answerable(q, id)
    ensures Answerable(OnStatusPush(q), id)
  {
    var w := q.waiting[0];
    if w.channels == Some(1) {
      ReplyKeepsAnswerable(q, true, out, admitted, id);
    } else if w.channels.Some? && w.channels.value > 1 {
      hide Mains;
      MainsHead(q.waiting);
      MainsHead(OnStatusPush(q).waiting);
      assert OnStatusPush(q).waiting[1..] == q.waiting[1..];
    }
  }

  lemma LossKeepsAnswerable(q: Queue, out: multiset<nat>, admitted: set<nat>, id: nat)
    requires Places(q, out) == multiset(admitted) && Answerable(q, id)
    ensures Answerable(LoseConnection(q), id) && Answerable(FlushAll(q), id)
  {
    if id in Mains(q.waiting) {
      WaitingIsNotSettled(q, out, admitted, id);
      assert FlushWaiting(q).settled[id] == ConnectionLost;
    }
  }

  lemma {:induction false} WriteKeepsAnswerable(q: Queue, id: nat)
    requires Answerable(q, id)
    ensures Answerable(Write(q).0, id)
    decreases |q.toWrite|
  {
    if q.toWrite != [] {
      var c := q.toWrite[0];
      if c.encodable {
        MainsConcat(q.waiting, Requests(c));
      } else {
        WriteKeepsAnswerable(q.(toWrite := q.toWrite[1..], settled := Settle(q.settled, [c.id], Unencodable)), id);
      }
    }
  }

  lemma {:induction false} WrittenIsAnswerable(q: Queue)
    requires Write(q).1.Some?
    ensures Answerable(Write(q).0, Write(q).1.value.id)
    decreases |q.toWrite|
  {
    var c := q.toWrite[0];
    if c.encodable {
      MainsConcat(q.waiting, Requests(c));
      MainsOfRequests(c);
    } else {
      WrittenIsAnswerable(q.(toWrite := q.toWrite[1..], settled := Settle(q.settled, [c.id], Unencodable)));
    }
  }

  lemma {:induction false} PrependKeepsAnswerable(q: Queue, cs: seq<Command>, fired: set<Listener>, id: nat)
    requires Answerable(q, id)
    ensures Answerable(Prepend(q, cs, fired), id)
    decreases |cs|
  {
    if cs != [] { PrependKeepsAnswerable(q, cs[1..], fired, id); }
  }

  /** Nothing takes a written command's answer away. */
  lemma StepKeepsAnswerable(s: System, op: Op, id: nat)
    requires Conserved(s) && Answerable(s.q, id)
    ensures Answerable(Step(s, op).q, id)
  {
    hide Mains, Ids, Deafen;
    match op
    case WriteNext => WriteKeepsAnswerable(s.q, id);
    case Answer(ok) =>
      if s.q.waiting != [] && s.server != [] { ReplyKeepsAnswerable(s.q, ok, s.out, s.admitted, id); }
    case StatusPush =>
      if s.q.waiting != [] && s.server != [] { PushKeepsAnswerable(s.q, s.out, s.admitted, id); }
    case Lose => LossKeepsAnswerable(s.q, s.out, s.admitted, id);
    case Flush => LossKeepsAnswerable(s.q, s.out, s.admitted, id);
    case Arrive(cs, fired) => PrependKeepsAnswerable(s.q, cs, fired, id);
    case _ =>
  }

  // ---------------------------------------------------------------- preludes and pairing

  /** Each prelude waits right in front of its command, and is reported before the command is next. */
  ghost predicate Ordered(q: Queue) {
    && (forall i :: 0 <= i < |q.waiting| ==> PreludeLeads(q.waiting, i))
    && (q.waiting != [] && !q.waiting[0].isPrelude && q.waiting[0].hasPrelude ==> q.waiting[0].id in q.reported)
  }

  predicate PreludeLeads(w: seq<Waiting>, i: nat)
    requires i < |w|
  {
    && (w[i].isPrelude ==>
          && w[i].channels.None? && i + 1 < |w|
          && !w[i + 1].isPrelude && w[i + 1].hasPrelude && w[i + 1].id == w[i].id)
    && (!w[i].isPrelude && w[i].hasPrelude && i > 0 ==> w[i - 1].isPrelude && w[i - 1].id == w[i].id)
    && (w[i].channels.Some? ==> w[i].channels.value > 0)
  }

  // The client waits for what the server owes, and for nothing else.
  predicate Awaits(w: Waiting, d: Due) {
    match d
    case PreludeReply(id) => w == Waiting(id, true, true, None)
    case CommandReply(id, after) => w == Waiting(id, false, after, None)
    case StatusPushes(id, after, left) => w == Waiting(id, false, after, Some(left))
  }

  predicate Paired(waiting: seq<Waiting>, server: seq<Due>) {
    |waiting| == |server| && forall i :: 0 <= i < |waiting| ==> Awaits(waiting[i], server[i])
  }

  // What is queued is well formed.
  ghost predicate Formed(q: Queue) { forall c <- q.toWrite :: WellFormed(c) }

  lemma RequestsOrdered(q: Queue, c: Command)
    requires Ordered(q) && WellFormed(c)
    ensures Ordered(q.(waiting := q.waiting + Requests(c)))
  {
    var w, r := q.waiting, q.waiting + Requests(c);
    forall i | 0 <= i < |r| ensures PreludeLeads(r, i) {
      if i < |w| { assert PreludeLeads(w, i); }
    }
  }

  lemma {:induction false} WriteOrdered(q: Queue)
    requires Ordered(q) && Formed(q)
    ensures Ordered(Write(q).0) && Formed(Write(q).0)
    ensures Write(q).1.Some? ==> Write(q).0.waiting == q.waiting + Requests(Write(q).1.value)
    ensures Write(q).1.None? ==> Write(q).0.waiting == q.waiting
    decreases |q.toWrite|
  {
    if q.toWrite != [] {
      var c := q.toWrite[0];
      if c.encodable {
        RequestsOrdered(q, c);
      } else {
        WriteOrdered(q.(toWrite := q.toWrite[1..], settled := Settle(q.settled, [c.id], Unencodable)));
      }
    }
  }

  lemma TailOrdered(q: Queue, ok: bool)
    requires Ordered(q) && q.waiting != []
    ensures Ordered(OnReply(q, ok))
  {
    assert PreludeLeads(q.waiting, 0);
    forall i | 0 <= i < |q.waiting| - 1 ensures PreludeLeads(q.waiting[1..], i) {
      assert PreludeLeads(q.waiting, i + 1);
    }
    if |q.waiting| > 1 { assert PreludeLeads(q.waiting, 1); }
  }

  lemma PushOrdered(q: Queue)
    requires Ordered(q) && q.waiting != []
    ensures Ordered(OnStatusPush(q))
  {
    TailOrdered(q, true);
    assert PreludeLeads(q.waiting, 0);
    forall i | 0 <= i < |OnStatusPush(q).waiting| && q.waiting[0].channels != Some(1)
      ensures PreludeLeads(OnStatusPush(q).waiting, i)
    {
      assert PreludeLeads(q.waiting, i);
    }
  }

  lemma PrependOneFormed(q: Queue, c: Command, fired: set<Listener>)
    requires Formed(q) && WellFormed(c)
    ensures Formed(PrependOne(q, c, fired)) && PrependOne(q, c, fired).waiting == q.waiting
    ensures PrependOne(q, c, fired).reported == q.reported && PrependOne(q, c, fired).chainInExecution == q.chainInExecution
  {
    hide WellFormed, Settle, Ids, Deafen, MemberRun;
    var k := FrontIndex(q);
    forall d <- InsertAt(q.toWrite, k, c) ensures WellFormed(d) {}
  }

  lemma {:induction false} PrependFormed(q: Queue, cs: seq<Command>, fired: set<Listener>)
    requires Formed(q) && forall c <- cs :: WellFormed(c)
    ensures Formed(Prepend(q, cs, fired)) && Prepend(q, cs, fired).waiting == q.waiting
    ensures Prepend(q, cs, fired).reported == q.reported && Prepend(q, cs, fired).chainInExecution == q.chainInExecution
    decreases |cs|
  {
    hide Formed, WellFormed, PrependOne;
    if cs != [] {
      PrependFormed(q, cs[1..], fired);
      PrependOneFormed(Prepend(q, cs[1..], fired), cs[0], fired);
    }
  }

  lemma {:induction false} SelectSubset(s: seq<Command>, slots: set<nat>, targeted: bool)
    ensures forall c <- Select(s, slots, targeted) :: c in s
    decreases |s|
  {
    if s != [] { SelectSubset(s[..|s| - 1], slots, targeted); }
  }

  // ---------------------------------------------------------------- the invariant of every run

  ghost predicate Inv(s: System) {
    && Conserved(s) && Heard(s.q) && Formed(s.q) && Ordered(s.q)
    && Paired(s.q.waiting, s.server)
    && (forall c <- s.wire :: Answerable(s.q, c.id))
    && (forall w <- s.past, c <- w :: Answerable(s.q, c.id))
  }

  lemma StepConserves(s: System, op: Op)
    requires Inv(s) && Legal(s, op)
    ensures Conserved(Step(s, op))
  {
    if op.Add? || op.Subscribe? || op.AddMany? || op.Arrive? || op.RejectOut? || op.ExtractSlots? {
      TrafficConserves(s, op);
    } else {
      assert |s.q.waiting| == |s.server|;
      hide Ids, Mains, Settle, Deafen, Write, Fire, LoseConnection, FlushAll, OnReply, OnStatusPush, Owed, ServerPush,
           Heard, Formed, Ordered, Paired, Answerable, Places;
      match op
      case WriteNext => WriteConserves(s.q, s.out, s.admitted);
      case Answer(ok) => ReplyConserves(s.q, ok, s.out, s.admitted);
      case StatusPush => PushConserves(s.q, s.out, s.admitted);
      case Signal(l) => FireConserves(s.q, l, s.out, s.admitted);
      case Lose => LoseConserves(s.q, s.out, s.admitted);
      case Flush => FlushConserves(s.q, s.out, s.admitted);
      case MessagePush =>
    }
  }

  // What comes into the queue, and what is handed out and comes back.
  lemma TrafficConserves(s: System, op: Op)
    requires Conserved(s) && Legal(s, op)
    requires op.Add? || op.Subscribe? || op.AddMany? || op.Arrive? || op.RejectOut? || op.ExtractSlots?
    ensures Conserved(Step(s, op))
  {
    hide Ids, Mains, Settle, Deafen, Extract, Prepend, AddToWrite, AddBatch;
    match op
    case Add(c, asap, aborted, armFails) => AddConserves(s.q, c, asap, s.out, s.admitted);
    case Subscribe(c, asap) => AddConserves(s.q, c, asap, s.out, s.admitted);
    case AddMany(b, armFails) => AddBatchConserves(s.q, b, armFails, s.out, s.admitted);
    case ExtractSlots(slots) => ExtractConserves(s.q, slots, s.out, s.admitted);
    case Arrive(cs, fired) => ArriveConserves(s, cs, fired);
    case RejectOut(ids) => RejectOutConserves(s, ids);
  }

  // Commands that arrive are new here, or come back from where they were handed out to.
  lemma ArriveConserves(s: System, cs: seq<Command>, fired: set<Listener>)
    requires Conserved(s) && Legal(s, Arrive(cs, fired))
    ensures Conserved(Step(s, Arrive(cs, fired)))
  {
    hide Mains, Settle, Ids;
    var ids := Ids(cs);
    var admitted, out := s.admitted + IdSet(cs), s.out - multiset(ids);
    DistinctIds(ids);
    IdSetOf(cs);
    var rest := multiset(Ids(s.q.toWrite)) + multiset(Mains(s.q.waiting)) + multiset(s.q.settled.Keys);
    forall x ensures (rest + (out + multiset(ids)))[x] == multiset(admitted)[x] {
      assert Places(s.q, s.out)[x] == multiset(s.admitted)[x];
      assert multiset(ids)[x] == multiset(IdSet(cs))[x];
    }
    assert Places(s.q, out + multiset(ids)) == rest + (out + multiset(ids)) == multiset(admitted);
    PrependConserves(s.q, cs, fired, out, admitted);
  }

  lemma IdSetOf(cs: seq<Command>)
    ensures (set x <- Ids(cs)) == IdSet(cs)
  {
    InIds(cs);
    forall x <- Ids(cs) ensures x in IdSet(cs) {
      var i :| 0 <= i < |cs| && Ids(cs)[i] == x;
      assert cs[i] in cs;
    }
  }

  lemma RejectOutConserves(s: System, ids: seq<nat>)
    requires Conserved(s) && Distinct(ids) && forall id <- ids :: id in s.out
    ensures Conserved(Step(s, RejectOut(ids)))
  {
    hide Ids, Mains, Settle;
    var writes, mains := multiset(Ids(s.q.toWrite)), multiset(Mains(s.q.waiting));
    var out := s.out - multiset(ids);
    TakenOut(s.out, ids);
    Moved(out, multiset(ids), writes, mains, multiset(s.q.settled.Keys));
    assert writes + mains + (out + multiset(ids)) == (out + multiset(ids)) + writes + mains;
    SettleMoves(s.q.settled, ids, ConnectionLost, out + writes + mains, s.admitted);
    assert out + writes + mains == writes + mains + out;
  }

  lemma TakenOut(out: multiset<nat>, ids: seq<nat>)
    requires Distinct(ids) && forall id <- ids :: id in out
    ensures out == (out - multiset(ids)) + multiset(ids)
  {
    DistinctIds(ids);
    forall x ensures multiset(ids)[x] <= out[x] {
      assert multiset(set y <- ids)[x] <= 1;
    }
  }

  lemma StepHears(s: System, op: Op)
    requires Inv(s) && Legal(s, op)
    ensures Heard(Step(s, op).q)
  {
    hide Ids, Mains, Settle, Deafen, Write, Prepend, Extract, RejectAt, Places;
    match op
    case Add(c, asap, _, _) => AddHeard(s.q, c, asap);
    case Subscribe(c, asap) => AddHeard(s.q, c, asap);
    case AddMany(b, armFails) => AddBatchHeard(s.q, b, armFails);
    case WriteNext => WriteHeard(s.q, s.out, s.admitted);
    case Signal(l) => FireHeard(s.q, l);
    case Lose => LoseHeard(s.q);
    case Flush => FlushHeard(s.q);
    case ExtractSlots(slots) => ExtractHeard(s.q, slots);
    case Arrive(cs, fired) =>
      WholeIsFormed(cs);
      PrependHeard(s.q, cs, fired);
    case RejectOut(ids) => SettledStaySettled(s.q.settled, ids, ConnectionLost);
    case Answer(ok) => ReplySettles(s.q, ok);
    case StatusPush => ReplySettles(s.q, true);
    case MessagePush =>
  }

  lemma WholeIsFormed(cs: seq<Command>)
    requires Whole(cs)
    ensures forall c <- cs :: WellFormed(c)
  {
    forall c <- cs ensures WellFormed(c) {
      var i :| 0 <= i < |cs| && cs[i] == c;
      assert Joined(cs, i);
    }
  }

  lemma SettledStaySettled(settled: map<nat, Outcome>, ids: seq<nat>, outcome: Outcome)
    ensures forall i <- settled :: i in Settle(settled, ids, outcome) && Settle(settled, ids, outcome)[i] == settled[i]
  {
  }

  lemma ReplySettles(q: Queue, ok: bool)
    requires q.waiting != []
    ensures forall i <- q.settled :: i in OnReply(q, ok).settled && OnReply(q, ok).settled[i] == q.settled[i]
  {
  }

  lemma StepForms(s: System, op: Op)
    requires Inv(s) && Legal(s, op)
    ensures Formed(Step(s, op).q)
  {
    hide Ids, Mains, Settle, Deafen, Write, Prepend, Places, Conserved, Ordered, Owed, ServerPush, Paired, Heard, Answerable;
    match op
    case AddMany(b, armFails) =>
      var n := AdmittedCount(s.q, b);
      assert forall c <- Block(b, n, n) :: WellFormed(c);
    case WriteNext => WriteOrdered(s.q);
    case ExtractSlots(slots) =>
      var n := Reach(s.q.toWrite, slots, s.q.chainInExecution);
      SelectSubset(s.q.toWrite[..n], slots, false);
    case Arrive(cs, fired) =>
      WholeIsFormed(cs);
      PrependFormed(s.q, cs, fired);
    case _ =>
  }

  lemma StepOrders(s: System, op: Op)
    requires Inv(s) && Legal(s, op)
    ensures Ordered(Step(s, op).q)
  {
    hide Ids, Mains, Settle, Deafen, Write, Prepend, Places, Conserved, Heard;
    match op
    case WriteNext => WriteOrdered(s.q);
    case Answer(ok) => TailOrdered(s.q, ok);
    case StatusPush => PushOrdered(s.q);
    case Arrive(cs, fired) =>
      WholeIsFormed(cs);
      PrependFormed(s.q, cs, fired);
    case _ =>
  }

  // The client goes on waiting for what the server owes.
  lemma StepPairs(s: System, op: Op)
    requires Inv(s) && Legal(s, op)
    ensures Paired(Step(s, op).q.waiting, Step(s, op).server)
  {
    NonePaired();
    hide Ids, Mains, Settle, Deafen, Write, Prepend, Places, Conserved, Heard, Answerable, Paired, Ordered, Requests, Owed,
         Formed, ServerPush;
    match op
    case WriteNext =>
      WriteOrdered(s.q);
      if Write(s.q).1.Some? { WrittenPaired(s.q.waiting, s.server, Write(s.q).1.value); }
    case Answer(ok) => AnsweredPaired(s.q.waiting, s.server);
    case StatusPush => PushPaired(s.q, s.server);
    case Arrive(cs, fired) =>
      WholeIsFormed(cs);
      PrependFormed(s.q, cs, fired);
    case _ =>
  }

  lemma WrittenPaired(waiting: seq<Waiting>, server: seq<Due>, c: Command)
    requires Paired(waiting, server)
    ensures Paired(waiting + Requests(c), server + Owed(c))
  {
  }

  lemma AnsweredPaired(waiting: seq<Waiting>, server: seq<Due>)
    requires Paired(waiting, server)
    ensures |waiting| == |server|
    ensures waiting != [] ==> Paired(waiting[1..], server[1..])
  {
  }

  lemma PushPaired(q: Queue, server: seq<Due>)
    requires Paired(q.waiting, server) && Ordered(q) && server != [] && server[0].StatusPushes?
    ensures q.waiting != [] && Paired(OnStatusPush(q).waiting, ServerPush(server))
  {
    assert Awaits(q.waiting[0], server[0]) && PreludeLeads(q.waiting, 0);
    var w, d := q.waiting[0], server[0];
    AnsweredPaired(q.waiting, server);
    hide Settle, Paired, Ordered, PreludeLeads;
    if d.left > 1 {
      FirstPaired(w.(channels := Some(d.left - 1)), q.waiting[1..], d.(left := d.left - 1), server[1..]);
    }
  }

  lemma FirstPaired(w: Waiting, waiting: seq<Waiting>, d: Due, server: seq<Due>)
    requires Awaits(w, d) && Paired(waiting, server)
    ensures Paired([w] + waiting, [d] + server)
  {
    hide Awaits;
  }

  lemma NonePaired()
    ensures Paired([], [])
  {
  }

  /** One step keeps the invariant. */
  lemma StepKeepsInv(s: System, op: Op)
    requires Inv(s) && Legal(s, op)
    ensures Inv(Step(s, op))
  {
    hide Conserved, Heard, Formed, Ordered, Answerable, Legal;
    StepConserves(s, op);
    StepHears(s, op);
    StepForms(s, op);
    StepOrders(s, op);
    StepPairs(s, op);
    forall c <- Step(s, op).wire ensures Answerable(Step(s, op).q, c.id) {
      StepAnswersWire(s, op, c);
    }
    forall w <- Step(s, op).past, c <- w ensures Answerable(Step(s, op).q, c.id) {
      assert w in s.past || w == s.wire;
      assert Answerable(s.q, c.id);
      StepKeepsAnswerable(s, op, c.id);
    }
  }

  lemma StepAnswersWire(s: System, op: Op, c: Command)
    requires Inv(s) && c in Step(s, op).wire
    ensures Answerable(Step(s, op).q, c.id)
  {
    hide Conserved, Heard, Formed, Ordered, Answerable, Write;
    if c in s.wire {
      StepKeepsAnswerable(s, op, c.id);
    } else {
      WrittenIsAnswerable(s.q);
    }
  }

  /** Every run keeps it, whatever happens in whatever order. */
  lemma {:induction false} RunKeepsInv(s: System, ops: seq<Op>)
    requires Inv(s) && LegalRun(s, ops)
    ensures Inv(Run(s, ops))
    decreases |ops|
  {
    if ops != [] {
      StepKeepsInv(s, ops[0]);
      RunKeepsInv(Step(s, ops[0]), ops[1..]);
    }
  }

  lemma InitHasInv(maxLength: nat)
    ensures Inv(Init(maxLength))
  {
  }
}
