/** What each operation of packages/client/lib/client/commands-queue.ts does to the queue. */
module QueueSpec {
  import opened Collections

  /** A queued command. `head`, `index` and `size` place it in its batch: the id of the command that starts
      it, and where in it the command is (a command of its own is the whole of a batch of one). The source
      only tells the head of a batch from its members. `timer` and
      `abort` say which signals it was given, `channels` how many status pushes answer it. */
  datatype Command = Command(
    id: nat,
    head: nat,
    chain: Option<nat>,
    slot: Option<nat>,
    batch: bool,
    index: nat,
    size: nat,
    prelude: bool,
    channels: Option<nat>,
    timer: bool,
    abort: bool,
    encodable: bool,
    rejected: bool)

  predicate IsHead(c: Command) { c.batch && c.index == 0 }

  predicate IsMember(c: Command) { c.batch && c.index > 0 }

  // A written request: a prelude or a command, and the status pushes still to come.
  datatype Waiting = Waiting(id: nat, isPrelude: bool, hasPrelude: bool, channels: Option<nat>)

  datatype Outcome = Resolved | ErrorReply | TimedOut | AbortedBySignal | ConnectionLost | Unencodable | NotArmed

  datatype Listener = Timer(id: nat) | Abort(id: nat)

  /** `settled` holds the promises that are settled, each by the first call that settled it;
      `reported` the outcomes told to preludes. */
  datatype Queue = Queue(
    maxLength: nat,
    toWrite: seq<Command>,
    waiting: seq<Waiting>,
    chainInExecution: Option<nat>,
    listening: set<Listener>,
    settled: map<nat, Outcome>,
    reported: map<nat, bool>)

  function Empty(maxLength: nat): Queue { Queue(maxLength, [], [], None, {}, map[], map[]) }

  function Pending(q: Queue): nat { |q.toWrite| + |q.waiting| }

  predicate HasCapacity(q: Queue, size: nat) { q.maxLength == 0 || Pending(q) + size <= q.maxLength }

  function Ids(s: seq<Command>): seq<nat> {
    seq(|s|, i requires 0 <= i < |s| => s[i].id)
  }

  function Mains(w: seq<Waiting>): seq<nat> {
    if w == [] then []
    else Mains(w[..|w| - 1]) + (if w[|w| - 1].isPrelude then [] else [w[|w| - 1].id])
  }

  function Preludes(w: seq<Waiting>): set<nat> {
    set x <- w | x.isPrelude :: x.id
  }

  // Settling a settled promise does nothing.
  function Settle(settled: map<nat, Outcome>, ids: seq<nat>, outcome: Outcome): map<nat, Outcome> {
    map id | id in settled.Keys + (set x <- ids) :: if id in settled then settled[id] else outcome
  }

  function ListenersOf(c: Command): set<Listener> {
    (if c.timer then {Timer(c.id)} else {}) + (if c.abort then {Abort(c.id)} else {})
  }

  function Deafen(listening: set<Listener>, s: seq<Command>): set<Listener> {
    set l <- listening | l.id !in Ids(s)
  }

  // How many commands at the front belong to `chain`.
  function ChainRun(s: seq<Command>, chain: Option<nat>): (n: nat)
    ensures n <= |s|
    ensures forall i :: 0 <= i < n ==> s[i].chain == chain
    ensures n < |s| ==> s[n].chain != chain
  {
    if s == [] || s[0].chain != chain then 0 else 1 + ChainRun(s[1..], chain)
  }

  // How many commands at the front are members of the batch of `chain`.
  function MemberRun(s: seq<Command>, chain: Option<nat>): (n: nat)
    ensures n <= |s|
    ensures forall i :: 0 <= i < n ==> IsMember(s[i]) && s[i].chain == chain
    ensures n < |s| ==> !(IsMember(s[n]) && s[n].chain == chain)
  {
    if s == [] || !IsMember(s[0]) || s[0].chain != chain then 0 else 1 + MemberRun(s[1..], chain)
  }

  /** `#insertAtFront`: behind the unwritten tail of the chain in execution. */
  function FrontIndex(q: Queue): (k: nat)
    ensures k <= |q.toWrite|
  {
    if q.chainInExecution.None? then 0 else ChainRun(q.toWrite, q.chainInExecution)
  }

  function AddToWrite(q: Queue, c: Command, asap: bool): Queue {
    q.(toWrite := if asap then InsertAt(q.toWrite, FrontIndex(q), c) else q.toWrite + [c])
  }

  datatype Admission = Queued | Full | Aborted | ArmFailed

  // A prelude and its command are admitted together or not at all.
  function Admit(q: Queue, c: Command, aborted: bool, armFails: bool): Admission {
    if !HasCapacity(q, if c.prelude then 2 else 1) then Full
    else if aborted then Aborted
    else if armFails then ArmFailed
    else Queued
  }

  function AddCommand(q: Queue, c: Command, asap: bool): Queue {
    var q' := AddToWrite(q, c, asap);
    q'.(listening := q.listening + ListenersOf(c))
  }

  // A MULTI or pipeline: one command per id, one timer and one abort signal for all. The arguments of the
  // commands at the positions in `unencodable` do not encode.
  datatype Batch = Batch(
    ids: seq<nat>,
    chain: nat,
    slot: Option<nat>,
    timer: bool,
    abort: bool,
    unencodable: set<nat>)

  function BatchCommand(b: Batch, size: nat, i: nat): Command
    requires i < |b.ids|
  {
    Command(b.ids[i], b.ids[0], Some(b.chain), b.slot, true, i, size, false, None, i == 0 && b.timer, i == 0 && b.abort,
            i !in b.unencodable, false)
  }

  // The first commands of a batch are admitted, as many as there is room for.
  function AdmittedCount(q: Queue, b: Batch): (n: nat)
    ensures n <= |b.ids|
  {
    if q.maxLength == 0 || Pending(q) + |b.ids| <= q.maxLength then |b.ids|
    else if q.maxLength <= Pending(q) then 0
    else q.maxLength - Pending(q)
  }

  function Block(b: Batch, size: nat, n: nat): seq<Command>
    requires n <= |b.ids|
  {
    seq(n, i requires 0 <= i < n => BatchCommand(b, size, i))
  }

  function AddBatch(q: Queue, b: Batch, armFails: bool): Queue {
    var n := AdmittedCount(q, b);
    if n == 0 then q
    else
      var q' := q.(toWrite := q.toWrite + Block(b, n, n),
                   listening := q.listening + ListenersOf(BatchCommand(b, n, 0)));
      if armFails then RejectAt(q', |q.toWrite|, NotArmed) else q'
  }

  predicate BatchStarted(q: Queue, c: Command) {
    IsHead(c) && c.chain.Some? && c.chain == q.chainInExecution
  }

  function Find(s: seq<Command>, id: nat): (k: nat)
    ensures k <= |s| && (k < |s| ==> s[k].id == id) && forall i :: 0 <= i < k ==> s[i].id != id
  {
    if s == [] || s[0].id == id then 0 else 1 + Find(s[1..], id)
  }

  // The commands that go with the k-th: the members behind a head.
  function Companions(s: seq<Command>, k: nat): (n: nat)
    requires k < |s|
    ensures k + 1 + n <= |s|
  {
    if IsHead(s[k]) then MemberRun(s[k + 1..], s[k].chain) else 0
  }

  /** `#rejectCommand` on a queued command. */
  function RejectAt(q: Queue, k: nat, outcome: Outcome): Queue
    requires k < |q.toWrite|
  {
    var end := k + 1 + Companions(q.toWrite, k);
    q.(toWrite := q.toWrite[..k] + q.toWrite[end..],
       listening := Deafen(q.listening, [q.toWrite[k]]),
       settled := Settle(q.settled, Ids(q.toWrite[k..end]), outcome))
  }

  /** A timer or abort signal fires. Its listener runs once; on a command that has left the queue it
      could only reject its promise. */
  function Fire(q: Queue, l: Listener): Queue {
    if l !in q.listening then q
    else
      var k := Find(q.toWrite, l.id);
      var outcome := if l.Timer? then TimedOut else AbortedBySignal;
      if k == |q.toWrite| then
        q.(listening := q.listening - {Timer(l.id), Abort(l.id)}, settled := Settle(q.settled, [l.id], outcome))
      else if BatchStarted(q, q.toWrite[k]) then q.(listening := q.listening - {l})
      else RejectAt(q, k, outcome)
  }

  function Requests(c: Command): seq<Waiting> {
    (if c.prelude then [Waiting(c.id, true, true, None)] else []) + [Waiting(c.id, false, c.prelude, c.channels)]
  }

  /** One turn of `commandsToWrite`: commands that do not encode are rejected, the next one is written. */
  function Write(q: Queue): (r: (Queue, Option<Command>))
    decreases |q.toWrite|
  {
    if q.toWrite == [] then (q, None)
    else
      var c := q.toWrite[0];
      if !c.encodable then Write(q.(toWrite := q.toWrite[1..], settled := Settle(q.settled, [c.id], Unencodable)))
      else (q.(toWrite := q.toWrite[1..], waiting := q.waiting + Requests(c), chainInExecution := c.chain,
               listening := Deafen(q.listening, [c])), Some(c))
  }

  /** A reply settles the first request: a prelude's outcome is only reported. */
  function OnReply(q: Queue, ok: bool): Queue
    requires q.waiting != []
  {
    var w := q.waiting[0];
    var q' := q.(waiting := q.waiting[1..]);
    if w.isPrelude then q'.(reported := q.reported[w.id := ok])
    else q'.(settled := Settle(q.settled, [w.id], if ok then Resolved else ErrorReply))
  }

  /** A subscription status push: the last of the first request's settles it. */
  function OnStatusPush(q: Queue): Queue
    requires q.waiting != []
  {
    var w := q.waiting[0];
    if w.channels == Some(1) then OnReply(q, true)
    else if w.channels.Some? && w.channels.value > 1 then
      q.(waiting := [w.(channels := Some(w.channels.value - 1))] + q.waiting[1..])
    else q
  }

  function ReportFailure(reported: map<nat, bool>, ids: set<nat>): map<nat, bool> {
    map id | id in reported.Keys + ids :: if id in ids then false else reported[id]
  }

  function FlushWaiting(q: Queue): Queue {
    q.(waiting := [],
       settled := Settle(q.settled, Mains(q.waiting), ConnectionLost),
       reported := ReportFailure(q.reported, Preludes(q.waiting)))
  }

  /** The connection is lost: what waits for a reply is rejected, and so is the unwritten tail of the
      chain in execution. */
  function LoseConnection(q: Queue): Queue {
    var q' := FlushWaiting(q);
    if q.chainInExecution.None? then q'
    else
      var n := ChainRun(q.toWrite, q.chainInExecution);
      q'.(toWrite := q.toWrite[n..],
          chainInExecution := None,
          listening := Deafen(q.listening, q.toWrite[..n]),
          settled := Settle(q'.settled, Ids(q.toWrite[..n]), ConnectionLost))
  }

  function FlushAll(q: Queue): Queue {
    var q' := FlushWaiting(q);
    q'.(toWrite := [],
        listening := Deafen(q.listening, q.toWrite),
        settled := Settle(q'.settled, Ids(q.toWrite), ConnectionLost))
  }

  predicate Targets(c: Command, slots: set<nat>) { c.slot.Some? && c.slot.value in slots }

  predicate InExecution(c: Command, chain: Option<nat>) { chain.Some? && c.chain == chain }

  // Extraction goes no further than the first command that targets a migrating slot and belongs to
  // the chain in execution.
  function Reach(s: seq<Command>, slots: set<nat>, chain: Option<nat>): (n: nat)
    ensures n <= |s|
    ensures forall i :: 0 <= i < n ==> !(Targets(s[i], slots) && InExecution(s[i], chain))
    ensures n < |s| ==> Targets(s[n], slots) && InExecution(s[n], chain)
  {
    if s == [] || (Targets(s[0], slots) && InExecution(s[0], chain)) then 0 else 1 + Reach(s[1..], slots, chain)
  }

  function Select(s: seq<Command>, slots: set<nat>, targeted: bool): seq<Command> {
    if s == [] then []
    else
      var last := s[|s| - 1];
      Select(s[..|s| - 1], slots, targeted) + (if Targets(last, slots) == targeted then [last] else [])
  }

  /** `extractCommandsForSlots`: an order-preserving partition of what is in reach. */
  function Extract(q: Queue, slots: set<nat>): (Queue, seq<Command>) {
    var n := Reach(q.toWrite, slots, q.chainInExecution);
    var taken := Select(q.toWrite[..n], slots, true);
    (q.(toWrite := Select(q.toWrite[..n], slots, false) + q.toWrite[n..],
        listening := Deafen(q.listening, taken)), taken)
  }

  /** One command of `prependCommandsToWrite`: inserted, then dropped if its promise was rejected,
      rejected with its batch if one of its signals fired meanwhile, and listened to otherwise. */
  function PrependOne(q: Queue, c: Command, fired: set<Listener>): Queue {
    var k := FrontIndex(q);
    if c.rejected then q
    else
      var q' := q.(toWrite := InsertAt(q.toWrite, k, c));
      if c.timer && Timer(c.id) in fired then RejectAt(q', k, TimedOut)
      else if c.abort && Abort(c.id) in fired then RejectAt(q', k, AbortedBySignal)
      else q'.(listening := q.listening + ListenersOf(c))
  }

  function Prepend(q: Queue, cs: seq<Command>, fired: set<Listener>): Queue {
    if cs == [] then q else PrependOne(Prepend(q, cs[1..], fired), cs[0], fired)
  }
}
