/** Subscriptions over whole runs: operations in flight, replies in order, moves to another client
    (packages/client/lib/client/pub-sub.ts:113-129, 532-564). */
module PubSubRuns {
  import opened Collections
  import opened PubSubSpec

  // A listener of a name, for Buffers or for strings.
  type Fact = (Name, Listener, bool)

  function Facts(live: Live): set<Fact> {
    (set n, l | n in live && l in live[n].buffers :: (n, l, true)) +
    (set n, l | n in live && l in live[n].strings :: (n, l, false))
  }

  function Adds(channels: seq<Name>, listener: Listener, asBuffers: bool): set<Fact> {
    set n | n in channels :: (n, listener, asBuffers)
  }

  function Strip(facts: set<Fact>, channels: seq<Name>): set<Fact> { set f | f in facts && f.0 !in channels }

  /** What an operation means. */
  function Meaning(facts: set<Fact>, r: Request): set<Fact> {
    match r
    case Subscribe(channels, _, listener, asBuffers) => facts + Adds(channels, listener, asBuffers)
    case Unsubscribe(channels, _) => Strip(facts, channels)
  }

  function Fold(facts: set<Fact>, requests: seq<Request>): set<Fact> {
    if requests == [] then facts
    else Meaning(Fold(facts, requests[..|requests| - 1]), requests[|requests| - 1])
  }

  function Requests(log: seq<Pending>): seq<Request> { seq(|log|, i requires 0 <= i < |log| => log[i].request) }

  /** `wire` holds the operations in flight, in order, those of the log last. `wanted` is what all the
      operations issued since the last move add up to, in the order of issue. `history` holds these
      operations, the ones in flight last; one that failed is left out, except for the channels that a
      subscribe joined. `base` is what the listeners were at first. */
  datatype System = System(s: PubSub, wire: seq<Pending>, wanted: set<Fact>, base: set<Fact>, history: seq<Request>)

  datatype Op =
    | Sub(channels: seq<Name>, listener: Listener, asBuffers: bool)
    | Unsub(channels: seq<Name>)
    | Reply(ok: bool)
    | Move

  function Init(live: Live, nextEntry: nat): System {
    System(PubSub(live, [], nextEntry, 0), [], Facts(live), Facts(live), [])
  }

  /** Unsubscribes name confirmed channels that are not already leaving. */
  predicate Legal(sys: System, op: Op) {
    match op
    case Sub(_, _, _) => true
    case Unsub(channels) => channels != [] && forall n <- channels :: Joins(sys.s.live, n)
    case Reply(_) => sys.wire != []
    case Move => true
  }

  // The channels a subscribe found confirmed, where it left its listener at once.
  function Joined(r: Request): set<Fact> {
    match r
    case Subscribe(channels, asked, listener, asBuffers) =>
      set n | n in channels && n !in asked :: (n, listener, asBuffers)
    case Unsubscribe(_, _) => {}
  }

  function WithoutAsked(channels: seq<Name>, asked: seq<Name>): seq<Name> {
    if channels == [] then []
    else WithoutAsked(channels[..|channels| - 1], asked) +
         (if channels[|channels| - 1] in asked then [] else [channels[|channels| - 1]])
  }

  // What is left of an operation that failed.
  function Remains(r: Request): seq<Request> {
    match r
    case Subscribe(channels, asked, listener, asBuffers) =>
      [Subscribe(WithoutAsked(channels, asked), [], listener, asBuffers)]
    case Unsubscribe(_, _) => []
  }

  // How much of the history is settled.
  function Settled(sys: System): (k: nat)
    ensures k <= |sys.history|
  {
    if |sys.s.log| <= |sys.history| then |sys.history| - |sys.s.log| else 0
  }

  // An operation is issued; one that sends nothing is settled at once.
  function Issue(sys: System, s: PubSub, sent: Option<Pending>, r: Request): System {
    var wanted := Meaning(sys.wanted, r);
    var k := Settled(sys);
    match sent
    case Some(p) => System(s, sys.wire + [p], wanted, sys.base, sys.history + [r])
    case None => System(s, sys.wire, wanted, sys.base, sys.history[..k] + [r] + sys.history[k..])
  }

  // The reply to the oldest operation in flight.
  function Replied(sys: System, ok: bool): System
    requires sys.wire != []
  {
    var p := sys.wire[0];
    var k := Settled(sys);
    var s := Settle(sys.s, p, ok);
    if ok || p !in sys.s.log || k >= |sys.history| then sys.(s := s, wire := sys.wire[1..])
    else
      var history := sys.history[..k] + Remains(p.request) + sys.history[k + 1..];
      System(s, sys.wire[1..], Fold(sys.base, history), sys.base, history)
  }

  function Step(sys: System, op: Op): System
    requires Legal(sys, op)
  {
    match op
    case Sub(channels, listener, asBuffers) =>
      var (s, p) := Subscribing(sys.s, channels, listener, asBuffers);
      Issue(sys, s, p, Subscribe(channels, Asked(sys.s.live, channels), listener, asBuffers))
    case Unsub(channels) =>
      var (s, p) := Unsubscribing(sys.s, channels);
      Issue(sys, s, Some(p), p.request)
    case Reply(ok) => Replied(sys, ok)
    case Move => System(RemoveAll(sys.s).0, sys.wire, {}, {}, [])
  }

  function Run(sys: System, ops: seq<Op>): System
    requires LegalRun(sys, ops)
    decreases |ops|
  {
    if ops == [] then sys else Run(Step(sys, ops[0]), ops[1..])
  }

  predicate LegalRun(sys: System, ops: seq<Op>)
    decreases |ops|
  {
    ops == [] || (Legal(sys, ops[0]) && LegalRun(Step(sys, ops[0]), ops[1..]))
  }

  // ---------------------------------------------------------------- what holds in every run

  function JoinedBy(log: seq<Pending>): set<Fact> {
    if log == [] then {} else JoinedBy(log[..|log| - 1]) + Joined(log[|log| - 1].request)
  }

  /** The live listeners are what the settled operations made, and what those in flight joined. */
  ghost predicate Settling(sys: System) {
    && |sys.s.log| <= |sys.history| && sys.history[Settled(sys)..] == Requests(sys.s.log)
    && sys.wanted == Fold(sys.base, sys.history)
    && Facts(sys.s.live) == Fold(sys.base, sys.history[..Settled(sys)]) + JoinedBy(sys.s.log)
  }

  // A subscribe asked for some of its channels; an unsubscribe deletes exactly the entries it flagged.
  ghost predicate Deletes(live: Live, r: Request) {
    match r
    case Subscribe(channels, asked, _, _) => forall n <- asked :: n in channels
    case Unsubscribe(channels, flagged) =>
      && (forall n <- channels :: n in live && live[n].leaving && live[n].id in flagged)
      && flagged == Flagged(live, channels)
  }

  /** An entry is flagged exactly while an unsubscribe in flight deletes it; entries are distinct. */
  ghost predicate Flags(s: PubSub) {
    && Populated(s.live) && (forall n <- s.live :: s.live[n].id < s.nextEntry)
    && (forall m, n | m in s.live && n in s.live :: s.live[m].id == s.live[n].id ==> m == n)
    && (forall n <- s.live :: s.live[n].leaving <==> Leaves(s.log, n))
    && (forall i :: 0 <= i < |s.log| ==> Deletes(s.live, s.log[i].request))
  }

  predicate Leaves(log: seq<Pending>, n: Name) {
    exists p :: p in log && p.request.Unsubscribe? && n in p.request.channels
  }

  // After an unsubscribe nobody joins the channels, or unsubscribes from them, until the reply.
  predicate Apart(r: Request, later: Request) {
    r.Unsubscribe? ==>
      && (forall f <- Joined(later) :: f.0 !in r.channels)
      && (later.Unsubscribe? ==> forall n <- later.channels :: n !in r.channels)
  }

  ghost predicate InOrder(sys: System) {
    && |sys.s.log| <= |sys.wire| && sys.wire[|sys.wire| - |sys.s.log|..] == sys.s.log
    && (forall i :: 0 <= i < |sys.wire| ==> sys.wire[i].id < sys.s.nextOp)
    && (forall i, j :: 0 <= i < j < |sys.wire| ==> sys.wire[i].id != sys.wire[j].id)
    && (forall i, j :: 0 <= i < j < |sys.s.log| ==> Apart(sys.s.log[i].request, sys.s.log[j].request))
  }

  ghost predicate Inv(sys: System) { Settling(sys) && Flags(sys.s) && InOrder(sys) }

  // ---------------------------------------------------------------- replaying the log

  function Replay(facts: set<Fact>, log: seq<Pending>): set<Fact> { Fold(facts, Requests(log)) }

  lemma {:induction false} FoldAppend(facts: set<Fact>, a: seq<Request>, b: seq<Request>)
    ensures Fold(facts, a + b) == Fold(Fold(facts, a), b)
    decreases |b|
  {
    if b == [] {
      assert a + b == a;
    } else {
      var k := |b| - 1;
      assert (a + b)[..|a + b| - 1] == a + b[..k];
      FoldAppend(facts, a, b[..k]);
    }
  }

  ghost predicate AllApart(log: seq<Pending>) {
    forall i, j :: 0 <= i < j < |log| ==> Apart(log[i].request, log[j].request)
  }

  // What was joined survives the operations before it, and what comes after adds it again.
  lemma {:induction false} JoinedIsReplayed(facts: set<Fact>, log: seq<Pending>)
    requires AllApart(log)
    ensures Replay(facts + JoinedBy(log), log) == Replay(facts, log)
    decreases |log|
  {
    if log == [] {
      assert facts + {} == facts;
    } else {
      var k := |log| - 1;
      var r := log[k].request;
      assert Requests(log)[..k] == Requests(log[..k]);
      JoinedIsReplayed(facts, log[..k]);
      LaterJoinIsKept(facts + JoinedBy(log[..k]), log[..k], r, Joined(r));
      assert facts + JoinedBy(log) == facts + JoinedBy(log[..k]) + Joined(r);
    }
  }

  lemma {:induction false} LaterJoinIsKept(facts: set<Fact>, log: seq<Pending>, r: Request, more: set<Fact>)
    requires more <= Joined(r) && forall i :: 0 <= i < |log| ==> Apart(log[i].request, r)
    ensures Meaning(Replay(facts + more, log), r) == Meaning(Replay(facts, log), r)
    ensures Replay(facts + more, log) == Replay(facts, log) + more
    decreases |log|
  {
    if log != [] {
      var k := |log| - 1;
      assert Requests(log)[..k] == Requests(log[..k]);
      LaterJoinIsKept(facts, log[..k], r, more);
      assert Apart(log[k].request, r);
    }
  }

  // ---------------------------------------------------------------- what the operations do to the listeners

  lemma JoinFacts(live: Live, channels: seq<Name>, listener: Listener, asBuffers: bool)
    ensures Facts(Join(live, channels, listener, asBuffers)) ==
            Facts(live) + set n | n in channels && Joins(live, n) :: (n, listener, asBuffers)
  {
  }

  lemma {:induction false} AskedChannels(live: Live, channels: seq<Name>)
    ensures forall n :: n in Asked(live, channels) <==> n in channels && !Joins(live, n)
    decreases |channels|
  {
    if channels != [] {
      AskedChannels(live, channels[..|channels| - 1]);
      assert channels == channels[..|channels| - 1] + [channels[|channels| - 1]];
    }
  }

  lemma {:induction false} RegisterFacts(live: Live, channels: seq<Name>, listener: Listener, asBuffers: bool, next: nat)
    ensures Facts(Register(live, channels, listener, asBuffers, next)) == Facts(live) + Adds(channels, listener, asBuffers)
    decreases |channels|
  {
    hide Facts, Put;
    if channels != [] {
      var k := |channels| - 1;
      var live' := Register(live, channels[..k], listener, asBuffers, next);
      RegisterFacts(live, channels[..k], listener, asBuffers, next);
      PutFacts(live', channels[k], next + k, listener, asBuffers);
      assert channels == channels[..k] + [channels[k]];
      assert Adds(channels, listener, asBuffers) ==
             Adds(channels[..k], listener, asBuffers) + {(channels[k], listener, asBuffers)};
    }
  }

  lemma PutFacts(live: Live, n: Name, id: nat, listener: Listener, asBuffers: bool)
    ensures Facts(live[n := Put(if n in live then live[n] else Entry(id, false, {}, {}), listener, asBuffers)]) ==
            Facts(live) + {(n, listener, asBuffers)}
  {
  }

  // What is there stays; what is new is not flagged, and has a new id.
  ghost predicate Grown(live: Live, live': Live, channels: seq<Name>, next: nat, bound: nat) {
    && (forall n :: n in live' <==> n in live || n in channels)
    && (forall n <- live :: live'[n].id == live[n].id && live'[n].leaving == live[n].leaving)
    && (forall n <- live' :: n !in live ==> next <= live'[n].id < bound && !live'[n].leaving)
    && (forall m, n | m in live' && n in live' :: m !in live && live'[m].id == live'[n].id ==> m == n)
  }

  ghost predicate Populated(live: Live) { forall n <- live :: live[n].buffers + live[n].strings != {} }

  lemma {:induction false} RegisterGrows(live: Live, channels: seq<Name>, listener: Listener, asBuffers: bool, next: nat)
    requires forall n <- live :: live[n].id < next
    ensures Grown(live, Register(live, channels, listener, asBuffers, next), channels, next, next + |channels|)
    ensures Populated(live) ==> Populated(Register(live, channels, listener, asBuffers, next))
    decreases |channels|
  {
    if channels != [] {
      var k := |channels| - 1;
      RegisterGrows(live, channels[..k], listener, asBuffers, next);
      assert channels == channels[..k] + [channels[k]];
      assert listener in Put(Entry(0, false, {}, {}), listener, asBuffers).buffers +
                         Put(Entry(0, false, {}, {}), listener, asBuffers).strings;
    }
  }

  lemma LeaveFacts(live: Live, channels: seq<Name>)
    ensures Facts(Leave(live, channels)) == Strip(Facts(live), channels)
  {
  }

  lemma {:induction false} ReplayedFacts(live: Live, log: seq<Pending>, next: nat)
    ensures Facts(ReplayOnto(live, log, next).0) == Replay(Facts(live), log)
    decreases |log|
  {
    if log != [] {
      var r := log[0].request;
      assert Requests(log) == [r] + Requests(log[1..]);
      FoldAppend(Facts(live), [r], Requests(log[1..]));
      assert [r][..0] == [];
      assert Fold(Facts(live), [r]) == Meaning(Facts(live), r);
      match r
      case Subscribe(channels, _, listener, asBuffers) =>
        RegisterFacts(live, channels, listener, asBuffers, next);
        ReplayedFacts(Register(live, channels, listener, asBuffers, next), log[1..], next + |channels|);
      case Unsubscribe(channels, _) =>
        LeaveFacts(live, channels);
        ReplayedFacts(Leave(live, channels), log[1..], next);
    }
  }

  lemma {:induction false} JoinedByHead(log: seq<Pending>)
    requires log != []
    ensures JoinedBy(log) == Joined(log[0].request) + JoinedBy(log[1..])
    decreases |log|
  {
    if |log| > 1 {
      var k := |log| - 1;
      JoinedByHead(log[..k]);
      assert log[..k][1..] == log[1..][..k - 1];
    } else {
      assert JoinedBy(log[..0]) == {} && JoinedBy(log[1..]) == {};
    }
  }

  // ---------------------------------------------------------------- one step: subscribing

  // What joins a confirmed channel is apart from every unsubscribe in flight.
  lemma JoinsApart(s: PubSub, channels: seq<Name>, asked: seq<Name>, listener: Listener, asBuffers: bool)
    requires Flags(s) && forall n <- channels :: n in asked || Joins(s.live, n)
    ensures forall i :: 0 <= i < |s.log| ==> Apart(s.log[i].request, Subscribe(channels, asked, listener, asBuffers))
  {
    forall i, n | 0 <= i < |s.log| && s.log[i].request.Unsubscribe? && n in channels && n !in asked
      ensures n !in s.log[i].request.channels
    {
      assert s.log[i] in s.log;
    }
  }

  lemma SubscribeFlags(s: PubSub, channels: seq<Name>, listener: Listener, asBuffers: bool)
    requires Flags(s)
    ensures Flags(Subscribing(s, channels, listener, asBuffers).0)
  {
    AskedChannels(s.live, channels);
    var s' := Subscribing(s, channels, listener, asBuffers).0;
    assert forall n :: Leaves(s'.log, n) <==> Leaves(s.log, n) by { LeavesAppend(s, s'); }
    forall i | 0 <= i < |s'.log| ensures Deletes(s.live, s'.log[i].request) {
      if i < |s.log| { assert Deletes(s.live, s.log[i].request); }
    }
    hide Leaves, Deletes;
    JoiningFlagsNothing(s, s');
  }

  lemma JoiningFlagsNothing(s: PubSub, s': PubSub)
    requires Flags(s) && Populated(s'.live) && s'.nextEntry == s.nextEntry && s'.live.Keys == s.live.Keys
    requires forall n <- s.live :: s'.live[n].id == s.live[n].id && s'.live[n].leaving == s.live[n].leaving
    requires forall n :: Leaves(s'.log, n) <==> Leaves(s.log, n)
    requires forall i :: 0 <= i < |s'.log| ==> Deletes(s.live, s'.log[i].request)
    ensures Flags(s')
  {
    hide Leaves;
    forall i | 0 <= i < |s'.log| ensures Deletes(s'.live, s'.log[i].request) {
      assert Deletes(s.live, s'.log[i].request);
    }
  }

  predicate LeavesLast(s: PubSub, s': PubSub, n: Name) {
    && |s.log| < |s'.log| && s'.log[|s.log|].request.Unsubscribe?
    && n in s'.log[|s.log|].request.channels
  }

  lemma LeavesAppend(s: PubSub, s': PubSub)
    requires s'.log == s.log || (|s'.log| == |s.log| + 1 && s'.log[..|s.log|] == s.log)
    ensures forall n :: Leaves(s'.log, n) == (Leaves(s.log, n) || LeavesLast(s, s', n))
  {
    if s'.log != s.log {
      var p := s'.log[|s.log|];
      assert s'.log == s.log + [p];
      assert forall q :: q in s'.log <==> q in s.log || q == p;
    }
  }

  lemma SubscribeSettles(sys: System, channels: seq<Name>, listener: Listener, asBuffers: bool)
    requires Inv(sys)
    ensures Settling(Step(sys, Sub(channels, listener, asBuffers)))
  {
    var k := Settled(sys);
    var asked := Asked(sys.s.live, channels);
    var r := Subscribe(channels, asked, listener, asBuffers);
    var sys' := Step(sys, Sub(channels, listener, asBuffers));
    AskedChannels(sys.s.live, channels);
    JoinFacts(sys.s.live, channels, listener, asBuffers);
    JoinsApart(sys.s, channels, asked, listener, asBuffers);
    hide Flags, InOrder, Facts, Asked;
    if asked != [] {
      IssuedIsLast(sys, sys', r);
    } else {
      JoinedIsFirst(sys, sys', r);
    }
  }

  lemma IssuedIsLast(sys: System, sys': System, r: Request)
    requires Settling(sys) && Facts(sys'.s.live) == Facts(sys.s.live) + Joined(r)
    requires sys'.history == sys.history + [r] && sys'.base == sys.base && sys'.wanted == Meaning(sys.wanted, r)
    requires |sys'.s.log| == |sys.s.log| + 1 && sys'.s.log[..|sys.s.log|] == sys.s.log
    requires sys'.s.log[|sys.s.log|].request == r
    ensures Settling(sys')
  {
    var k := Settled(sys);
    assert sys'.history[..|sys.history|] == sys.history && sys'.history[..k] == sys.history[..k];
    assert sys'.history[k..] == sys.history[k..] + [r];
    assert Requests(sys'.s.log) == Requests(sys.s.log) + [r];
  }

  lemma JoinedIsFirst(sys: System, sys': System, r: Request)
    requires Settling(sys) && Facts(sys'.s.live) == Facts(sys.s.live) + Joined(r)
    requires r.Subscribe? && r.asked == [] && sys'.s.log == sys.s.log && sys'.base == sys.base
    requires var k := Settled(sys); sys'.history == sys.history[..k] + [r] + sys.history[k..]
    requires sys'.wanted == Meaning(sys.wanted, r)
    requires forall i :: 0 <= i < |sys.s.log| ==> Apart(sys.s.log[i].request, r)
    ensures Settling(sys')
  {
    var k := Settled(sys);
    var before := Fold(sys.base, sys.history[..k]);
    assert sys'.history[..k + 1] == sys.history[..k] + [r] && sys'.history[k + 1..] == sys.history[k..];
    assert sys'.history == sys'.history[..k + 1] + sys'.history[k + 1..];
    assert sys.history == sys.history[..k] + sys.history[k..];
    FoldAppend(sys.base, sys'.history[..k + 1], sys'.history[k + 1..]);
    FoldAppend(sys.base, sys.history[..k], sys.history[k..]);
    assert sys'.history[..k + 1][..k] == sys.history[..k];
    assert Fold(sys.base, sys'.history[..k + 1]) == before + Joined(r);
    LaterJoinIsKept(before, sys.s.log, r, Joined(r));
  }

  lemma SubscribeInOrder(sys: System, channels: seq<Name>, listener: Listener, asBuffers: bool)
    requires Inv(sys)
    ensures InOrder(Step(sys, Sub(channels, listener, asBuffers)))
  {
    AskedChannels(sys.s.live, channels);
    JoinsApart(sys.s, channels, Asked(sys.s.live, channels), listener, asBuffers);
    hide Settling, Flags, Apart;
  }

  // What is sent comes last.
  lemma SentInOrder(sys: System, sys': System, p: Pending)
    requires InOrder(sys) && sys'.wire == sys.wire + [p] && sys'.s.log == sys.s.log + [p]
    requires p.id == sys.s.nextOp < sys'.s.nextOp
    requires forall i :: 0 <= i < |sys.s.log| ==> Apart(sys.s.log[i].request, p.request)
    ensures InOrder(sys')
  {
    hide Apart;
  }

  // ---------------------------------------------------------------- one step: unsubscribing

  lemma FlaggingKeeps(live: Live, live': Live, channels: seq<Name>, r: Request)
    requires Deletes(live, r) && live'.Keys == live.Keys
    requires forall n <- live' :: live'[n] == if n in channels then live[n].(leaving := true) else live[n]
    ensures Deletes(live', r)
  {
  }

  lemma UnsubscribeFlags(s: PubSub, channels: seq<Name>)
    requires Flags(s) && forall n <- channels :: Joins(s.live, n)
    ensures Flags(Unsubscribing(s, channels).0)
  {
    var s' := Unsubscribing(s, channels).0;
    LeavesAppend(s, s');
    assert forall n <- s'.live :: s'.live[n] == if n in channels then s.live[n].(leaving := true) else s.live[n];
    forall i | 0 <= i < |s'.log| ensures Deletes(s'.live, s'.log[i].request) {
      if i < |s.log| {
        FlaggingKeeps(s.live, s'.live, channels, s.log[i].request);
      }
    }
    hide Deletes, Leaves;
  }

  lemma UnsubscribeSettles(sys: System, channels: seq<Name>)
    requires Inv(sys) && Legal(sys, Unsub(channels))
    ensures Settling(Step(sys, Unsub(channels)))
  {
    var sys' := Step(sys, Unsub(channels));
    assert Facts(sys'.s.live) == Facts(sys.s.live);
    hide Flags, InOrder, Facts;
    IssuedIsLast(sys, sys', Unsubscribing(sys.s, channels).1.request);
  }

  lemma UnsubscribeInOrder(sys: System, channels: seq<Name>)
    requires Inv(sys) && Legal(sys, Unsub(channels))
    ensures InOrder(Step(sys, Unsub(channels)))
  {
    var p := Unsubscribing(sys.s, channels).1;
    forall i | 0 <= i < |sys.s.log| ensures Apart(sys.s.log[i].request, p.request) {
      assert sys.s.log[i] in sys.s.log;
    }
    hide Inv, InOrder, Apart, Legal, Meaning;
    SentInOrder(sys, Step(sys, Unsub(channels)), p);
  }

  // ---------------------------------------------------------------- one step: replies

  // The reply is for the oldest operation of the log, unless that was carried away.
  lemma OldestReplied(sys: System)
    requires InOrder(sys) && sys.wire != []
    ensures sys.wire[0] in sys.s.log <==> |sys.s.log| == |sys.wire|
    ensures sys.wire[0] in sys.s.log ==>
      sys.s.log == sys.wire && Dropped(sys.s.log, sys.wire[0]) == sys.s.log[1..]
  {
    var d := |sys.wire| - |sys.s.log|;
    forall i | 0 <= i < |sys.s.log| ensures sys.s.log[i] == sys.wire[d + i] {}
    if d == 0 { assert sys.s.log == sys.wire; }
  }

  lemma ReplyInOrder(sys: System, ok: bool)
    requires InOrder(sys) && sys.wire != []
    ensures InOrder(Step(sys, Reply(ok)))
  {
    OldestReplied(sys);
    var sys' := Step(sys, Reply(ok));
    ShorterInOrder(sys, sys');
  }

  // The oldest operation leaves the wire, and the log if it is there.
  lemma ShorterInOrder(sys: System, sys': System)
    requires InOrder(sys) && sys.wire != [] && sys'.wire == sys.wire[1..] && sys'.s.nextOp == sys.s.nextOp
    requires sys'.s.log == if |sys.s.log| == |sys.wire| then sys.s.log[1..] else sys.s.log
    ensures InOrder(sys')
  {
    hide Apart;
    assert forall i :: 0 <= i < |sys'.wire| ==> sys'.wire[i] == sys.wire[i + 1];
  }

  // What is left of the log when its oldest operation is settled.
  ghost predicate Rest(s: PubSub, s': PubSub) { s.log != [] && s'.log == s.log[1..] }

  lemma LeavesRest(s: PubSub, s': PubSub, n: Name)
    requires Rest(s, s')
    ensures Leaves(s.log, n) <==>
      Leaves(s'.log, n) || (s.log[0].request.Unsubscribe? && n in s.log[0].request.channels)
  {
    assert s.log == [s.log[0]] + s'.log;
    assert forall p :: p in s.log <==> p == s.log[0] || p in s'.log;
  }

  lemma RegisteredFlags(s: PubSub, asked: seq<Name>, listener: Listener, asBuffers: bool, s': PubSub)
    requires Flags(s) && Rest(s, s') && s.log[0].request.Subscribe?
    requires s'.live == Register(s.live, asked, listener, asBuffers, s.nextEntry)
    requires s'.nextEntry == s.nextEntry + |asked|
    ensures Flags(s')
  {
    RegisterGrows(s.live, asked, listener, asBuffers, s.nextEntry);
    forall i | 0 <= i < |s'.log| ensures Deletes(s'.live, s'.log[i].request) {
      assert Deletes(s.live, s.log[i + 1].request);
    }
    LeavesLive(s, s');
    forall n { LeavesRest(s, s', n); }
  }

  lemma LeavesLive(s: PubSub, s': PubSub)
    requires Flags(s) && Rest(s, s')
    ensures forall n :: Leaves(s'.log, n) ==> n in s.live
  {
    forall n | Leaves(s'.log, n) ensures n in s.live {
      var p :| p in s'.log && p.request.Unsubscribe? && n in p.request.channels;
      var i :| 0 <= i < |s'.log| && s'.log[i] == p;
      assert Deletes(s.live, s.log[i + 1].request);
    }
  }

  lemma KeptFlags(s: PubSub, s': PubSub)
    requires Flags(s) && Rest(s, s') && s.log[0].request.Subscribe?
    requires s'.live == s.live && s'.nextEntry == s.nextEntry
    ensures Flags(s')
  {
    forall i | 0 <= i < |s'.log| ensures Deletes(s'.live, s'.log[i].request) {
      assert Deletes(s.live, s.log[i + 1].request);
    }
    forall n { LeavesRest(s, s', n); }
  }

  // The channels of later unsubscribes are others.
  lemma LaterDeletes(s: PubSub, s': PubSub, i: nat)
    requires Flags(s) && Rest(s, s') && AllApart(s.log) && i < |s'.log|
    requires s.log[0].request.Unsubscribe?
    ensures Deletes(s.live, s'.log[i].request)
    ensures s'.log[i].request.Unsubscribe? ==>
      forall n <- s'.log[i].request.channels :: n !in s.log[0].request.channels
  {
    assert Deletes(s.live, s.log[i + 1].request);
    assert Apart(s.log[0].request, s.log[i + 1].request);
  }

  lemma LeftFlags(s: PubSub, s': PubSub)
    requires Flags(s) && Rest(s, s') && AllApart(s.log) && s.log[0].request.Unsubscribe?
    requires s'.live == Leave(s.live, s.log[0].request.channels) && s'.nextEntry == s.nextEntry
    ensures Flags(s')
  {
    forall i | 0 <= i < |s'.log| ensures Deletes(s'.live, s'.log[i].request) {
      LaterDeletes(s, s', i);
    }
    forall n <- s'.live ensures s'.live[n].leaving <==> Leaves(s'.log, n) { LeavesRest(s, s', n); }
  }

  lemma LiftedFlags(s: PubSub, s': PubSub)
    requires Flags(s) && Rest(s, s') && AllApart(s.log) && s.log[0].request.Unsubscribe?
    requires s'.live == Lift(s.live, s.log[0].request.flagged, s'.log) && s'.nextEntry == s.nextEntry
    ensures Flags(s')
  {
    var r := s.log[0].request;
    assert Deletes(s.live, r);
    forall i | 0 <= i < |s'.log| ensures Deletes(s'.live, s'.log[i].request) {
      LaterDeletes(s, s', i);
      if s'.log[i].request.Unsubscribe? { LeavesNot(s, s', i); }
    }
    forall n <- s'.live ensures s'.live[n].leaving <==> Leaves(s'.log, n) {
      LeavesRest(s, s', n);
      StillLeavingByName(s, s', n);
    }
  }

  // An entry is still leaving exactly when its name is.
  lemma StillLeavingByName(s: PubSub, s': PubSub, n: Name)
    requires Flags(s) && Rest(s, s') && n in s.live
    ensures StillLeaving(s'.log, s.live[n].id) <==> Leaves(s'.log, n)
  {
    forall p <- s'.log | p.request.Unsubscribe? ensures s.live[n].id in p.request.flagged <==> n in p.request.channels {
      var i :| 0 <= i < |s'.log| && s'.log[i] == p;
      assert Deletes(s.live, s.log[i + 1].request);
    }
  }

  lemma LeavesNot(s: PubSub, s': PubSub, i: nat)
    requires Flags(s) && Rest(s, s') && AllApart(s.log) && s.log[0].request.Unsubscribe?
    requires s'.live == Lift(s.live, s.log[0].request.flagged, s'.log)
    requires i < |s'.log| && s'.log[i].request.Unsubscribe?
    ensures Deletes(s'.live, s'.log[i].request)
  {
    LaterDeletes(s, s', i);
    var r := s'.log[i].request;
    hide Flags, AllApart;
    forall n <- r.channels ensures n in s'.live && s'.live[n].leaving && s'.live[n].id in r.flagged {
      assert s'.log[i] in s'.log;
      StillLeavingByName(s, s', n);
    }
  }

  lemma SettleFlags(s: PubSub, ok: bool)
    requires Flags(s) && AllApart(s.log) && s.log != []
    ensures Flags(Settle(s, s.log[0], ok))
  {
    hide Flags, AllApart, Register, Lift, Leave;
    var s' := Settle(s, s.log[0], ok);
    assert Rest(s, s');
    match s.log[0].request
    case Subscribe(_, asked, listener, asBuffers) =>
      if ok { RegisteredFlags(s, asked, listener, asBuffers, s'); } else { KeptFlags(s, s'); }
    case Unsubscribe(_, _) =>
      if ok { LeftFlags(s, s'); } else { LiftedFlags(s, s'); }
  }

  lemma ReplySettles(sys: System, ok: bool)
    requires sys.wire != []
    ensures Step(sys, Reply(ok)).s == Settle(sys.s, sys.wire[0], ok)
  {
    hide Settle, Fold, Remains;
  }

  lemma ReplyFlags(sys: System, ok: bool)
    requires Flags(sys.s) && InOrder(sys) && sys.wire != []
    ensures Flags(Step(sys, Reply(ok)).s)
  {
    ReplySettles(sys, ok);
    OldestReplied(sys);
    hide Flags, Step, Apart, Dropped;
    assert sys.wire[0] !in sys.s.log ==> Settle(sys.s, sys.wire[0], ok) == sys.s;
    hide Settle;
    if sys.wire[0] in sys.s.log { SettleFlags(sys.s, ok); }
  }

  // A reply to a carried operation changes nothing.
  lemma CarriedReply(sys: System, ok: bool)
    requires InOrder(sys) && sys.wire != [] && |sys.s.log| < |sys.wire|
    ensures Step(sys, Reply(ok)) == sys.(wire := sys.wire[1..])
  {
    OldestReplied(sys);
  }

  // The oldest operation of the log moves into the settled part of the history.
  lemma SettledNext(sys: System)
    requires Settling(sys) && sys.s.log != []
    ensures var k, h := Settled(sys), sys.history;
            && k < |h| && h[k] == sys.s.log[0].request && h[k + 1..] == Requests(sys.s.log[1..])
            && Fold(sys.base, h[..k + 1]) == Meaning(Fold(sys.base, h[..k]), h[k])
  {
    var k, h := Settled(sys), sys.history;
    assert h[k..][0] == Requests(sys.s.log)[0];
    assert h[k + 1..] == h[k..][1..] && Requests(sys.s.log[1..]) == Requests(sys.s.log)[1..];
    assert h[..k + 1][..k] == h[..k];
  }

  lemma StripJoined(log: seq<Pending>, r: Request)
    requires r.Unsubscribe? && forall i :: 0 <= i < |log| ==> Apart(r, log[i].request)
    ensures Strip(JoinedBy(log), r.channels) == JoinedBy(log)
    decreases |log|
  {
    if log != [] {
      StripJoined(log[..|log| - 1], r);
      assert Apart(r, log[|log| - 1].request);
    }
  }

  // What a reply leaves of the listeners: the operation is settled, the later ones have joined.
  lemma ReplyFacts(sys: System)
    requires Settling(sys) && Flags(sys.s) && AllApart(sys.s.log) && sys.s.log != []
    ensures var log := sys.s.log;
            Facts(Settle(sys.s, log[0], true).live) ==
            Meaning(Fold(sys.base, sys.history[..Settled(sys)]), log[0].request) + JoinedBy(log[1..])
  {
    JoinedByHead(sys.s.log);
    var log, before := sys.s.log, Fold(sys.base, sys.history[..Settled(sys)]);
    assert Deletes(sys.s.live, log[0].request);
    forall i | 0 <= i < |log[1..]| ensures Apart(log[0].request, log[1..][i].request) {
      assert Apart(log[0].request, log[i + 1].request);
    }
    hide Flags, Facts, Fold, Requests, Dropped, AllApart;
    match log[0].request
    case Subscribe(channels, asked, listener, asBuffers) =>
      RegisterFacts(sys.s.live, asked, listener, asBuffers, sys.s.nextEntry);
      assert Adds(channels, listener, asBuffers) == Joined(log[0].request) + Adds(asked, listener, asBuffers);
    case Unsubscribe(channels, _) =>
      LeaveFacts(sys.s.live, channels);
      StripJoined(log[1..], log[0].request);
      assert Strip(before + JoinedBy(log[1..]), channels) == Strip(before, channels) + JoinedBy(log[1..]);
  }

  lemma ReplySettlesOk(sys: System)
    requires Inv(sys) && sys.wire != [] && sys.wire[0] in sys.s.log
    ensures Settling(Step(sys, Reply(true)))
  {
    OldestReplied(sys);
    SettledNext(sys);
    ReplyFacts(sys);
    hide Flags, InOrder, Facts, Fold, Requests, JoinedBy, Meaning, Register, Leave;
    var sys' := Step(sys, Reply(true));
    assert sys'.s.log == sys.s.log[1..] && sys'.history == sys.history && sys'.base == sys.base && sys'.wanted == sys.wanted;
    hide Step, Settle;
  }

  lemma {:induction false} WithoutAskedAre(channels: seq<Name>, asked: seq<Name>)
    ensures forall n :: n in WithoutAsked(channels, asked) <==> n in channels && n !in asked
    decreases |channels|
  {
    if channels != [] {
      WithoutAskedAre(channels[..|channels| - 1], asked);
      assert channels == channels[..|channels| - 1] + [channels[|channels| - 1]];
    }
  }

  lemma RemainsMeans(facts: set<Fact>, r: Request)
    ensures Fold(facts, Remains(r)) == facts + Joined(r)
  {
    if r.Subscribe? {
      WithoutAskedAre(r.channels, r.asked);
      assert Remains(r)[..0] == [];
    }
  }

  lemma LiftFacts(live: Live, flagged: set<nat>, log: seq<Pending>)
    ensures Facts(Lift(live, flagged, log)) == Facts(live)
  {
  }

  // The history without the operation that failed.
  lemma FailedHistory(sys: System, history: seq<Request>)
    requires Settling(sys) && sys.s.log != []
    requires var k, h := Settled(sys), sys.history;
             k < |h| && history == h[..k] + Remains(sys.s.log[0].request) + h[k + 1..]
    ensures var k, rest := Settled(sys), |sys.s.log| - 1;
            && rest <= |history| && history[|history| - rest..] == sys.history[k + 1..]
            && Fold(sys.base, history[..|history| - rest]) ==
               Fold(sys.base, sys.history[..k]) + Joined(sys.s.log[0].request)
  {
    var k, h, r := Settled(sys), sys.history, sys.s.log[0].request;
    RemainsMeans(Fold(sys.base, h[..k]), r);
    FoldAppend(sys.base, h[..k], Remains(r));
    hide Fold, Facts, Remains, Requests;
    assert |h[k + 1..]| == |sys.s.log| - 1;
    assert history[..|history| - (|sys.s.log| - 1)] == h[..k] + Remains(r);
  }

  lemma ReplySettlesFailed(sys: System)
    requires Inv(sys) && sys.wire != [] && sys.wire[0] in sys.s.log
    ensures Settling(Step(sys, Reply(false)))
  {
    OldestReplied(sys);
    SettledNext(sys);
    JoinedByHead(sys.s.log);
    var sys', r, k := Step(sys, Reply(false)), sys.s.log[0].request, Settled(sys);
    if r.Unsubscribe? { LiftFacts(sys.s.live, r.flagged, sys.s.log[1..]); }
    hide Flags, InOrder, Facts, Fold, Requests, Remains, Lift, JoinedBy, Joined;
    assert sys'.history == sys.history[..k] + Remains(r) + sys.history[k + 1..];
    assert sys'.s.log == sys.s.log[1..];
    FailedHistory(sys, sys'.history);
  }

  // ---------------------------------------------------------------- every step

  lemma SubscribeKeepsInv(sys: System, channels: seq<Name>, listener: Listener, asBuffers: bool)
    requires Inv(sys)
    ensures Inv(Step(sys, Sub(channels, listener, asBuffers)))
  {
    SubscribeSettles(sys, channels, listener, asBuffers);
    SubscribeFlags(sys.s, channels, listener, asBuffers);
    SubscribeInOrder(sys, channels, listener, asBuffers);
    hide Settling, Flags, InOrder, Subscribing, Settled;
    assert Step(sys, Sub(channels, listener, asBuffers)).s == Subscribing(sys.s, channels, listener, asBuffers).0;
  }

  lemma UnsubscribeKeepsInv(sys: System, channels: seq<Name>)
    requires Inv(sys) && Legal(sys, Unsub(channels))
    ensures Inv(Step(sys, Unsub(channels)))
  {
    UnsubscribeSettles(sys, channels);
    UnsubscribeFlags(sys.s, channels);
    UnsubscribeInOrder(sys, channels);
    hide Settling, Flags, InOrder, Unsubscribing, Settled;
    assert Step(sys, Unsub(channels)).s == Unsubscribing(sys.s, channels).0;
  }

  lemma CarriedSettles(sys: System)
    requires Settling(sys) && sys.wire != []
    ensures Settling(sys.(wire := sys.wire[1..]))
  {
  }

  lemma ReplyKeepsInv(sys: System, ok: bool)
    requires Inv(sys) && sys.wire != []
    ensures Inv(Step(sys, Reply(ok)))
  {
    OldestReplied(sys);
    ReplyFlags(sys, ok);
    ReplyInOrder(sys, ok);
    hide Settling, Flags, InOrder, Step, Settled;
    if sys.wire[0] !in sys.s.log {
      CarriedReply(sys, ok);
      CarriedSettles(sys);
    } else if ok {
      ReplySettlesOk(sys);
    } else {
      ReplySettlesFailed(sys);
    }
  }

  lemma MoveKeepsInv(sys: System)
    requires Inv(sys)
    ensures Inv(Step(sys, Move))
  {
    hide ReplayOnto;
  }

  lemma StepKeepsInv(sys: System, op: Op)
    requires Inv(sys) && Legal(sys, op)
    ensures Inv(Step(sys, op))
  {
    hide Inv, Step;
    match op
    case Sub(channels, listener, asBuffers) => SubscribeKeepsInv(sys, channels, listener, asBuffers);
    case Unsub(channels) => UnsubscribeKeepsInv(sys, channels);
    case Reply(ok) => ReplyKeepsInv(sys, ok);
    case Move => MoveKeepsInv(sys);
  }

  lemma {:induction false} RunKeepsInv(sys: System, ops: seq<Op>)
    requires Inv(sys) && LegalRun(sys, ops)
    ensures Inv(Run(sys, ops))
    decreases |ops|
  {
    if ops != [] {
      hide Inv, Step, Legal;
      StepKeepsInv(sys, ops[0]);
      RunKeepsInv(Step(sys, ops[0]), ops[1..]);
    }
  }

  // ---------------------------------------------------------------- what callers can rely on

  /** The listeners a client may start from: none of them leaving, as a move hands them over. */
  ghost predicate Starting(live: Live, nextEntry: nat) {
    && Populated(live) && (forall n <- live :: live[n].id < nextEntry && !live[n].leaving)
    && (forall m, n | m in live && n in live :: live[m].id == live[n].id ==> m == n)
  }

  lemma StartsInOrder(live: Live, nextEntry: nat)
    requires Starting(live, nextEntry)
    ensures Inv(Init(live, nextEntry))
  {
    StartsSettled(live, nextEntry);
    StartsFlagged(live, nextEntry);
    hide Settling, Flags;
  }

  lemma StartsSettled(live: Live, nextEntry: nat)
    ensures Settling(Init(live, nextEntry))
  {
    hide Facts, Meaning, Joined;
  }

  lemma StartsFlagged(live: Live, nextEntry: nat)
    requires Starting(live, nextEntry)
    ensures Flags(Init(live, nextEntry).s)
  {
    hide Deletes, Populated;
  }

  /** What the callers asked for, read off the calls alone. */
  function Intent(facts: set<Fact>, ops: seq<Op>): set<Fact>
    decreases |ops|
  {
    if ops == [] then facts
    else
      var facts' :=
        match ops[0]
        case Sub(channels, listener, asBuffers) => facts + Adds(channels, listener, asBuffers)
        case Unsub(channels) => Strip(facts, channels)
        case Reply(_) => facts
        case Move => {};
      Intent(facts', ops[1..])
  }

  lemma {:induction false} WantedIsIntent(sys: System, ops: seq<Op>)
    requires LegalRun(sys, ops) && Reply(false) !in ops
    ensures Run(sys, ops).wanted == Intent(sys.wanted, ops)
    decreases |ops|
  {
    if ops != [] {
      assert ops[0] in ops;
      assert Step(sys, ops[0]).wanted == Intent(sys.wanted, [ops[0]]) by { WantedStep(sys, ops[0]); }
      WantedStep(sys, ops[0]);
      hide Step, Legal;
      WantedIsIntent(Step(sys, ops[0]), ops[1..]);
    }
  }

  lemma WantedStep(sys: System, op: Op)
    requires Legal(sys, op) && op != Reply(false)
    ensures Step(sys, op).wanted == Intent(sys.wanted, [op])
  {
    assert [op][1..] == [];
    hide Settle, RemoveAll;
  }

  /** At every moment of every run whose replies succeed, the live listeners with the log replayed onto
      them are what the callers asked for. */
  lemma LogAndListenersAgree(live: Live, nextEntry: nat, ops: seq<Op>)
    requires Starting(live, nextEntry) && LegalRun(Init(live, nextEntry), ops) && Reply(false) !in ops
    ensures var s := Run(Init(live, nextEntry), ops).s;
            Replay(Facts(s.live), s.log) == Intent(Facts(live), ops)
  {
    StartsInOrder(live, nextEntry);
    RunKeepsInv(Init(live, nextEntry), ops);
    WantedIsIntent(Init(live, nextEntry), ops);
    ReplayIsWanted(Run(Init(live, nextEntry), ops));
  }

  // The same with replies that fail: what failed counts for the channels it joined.
  lemma ReplayIsWanted(sys: System)
    requires Inv(sys)
    ensures Replay(Facts(sys.s.live), sys.s.log) == sys.wanted
  {
    var k := Settled(sys);
    var before := Fold(sys.base, sys.history[..k]);
    assert sys.history == sys.history[..k] + sys.history[k..];
    FoldAppend(sys.base, sys.history[..k], sys.history[k..]);
    JoinedIsReplayed(before, sys.s.log);
  }

  lemma {:induction false} ReplayedNotEmpty(live: Live, log: seq<Pending>, next: nat)
    requires Populated(live) && forall n <- live :: live[n].id < next
    ensures Populated(ReplayOnto(live, log, next).0)
    decreases |log|
  {
    if log != [] {
      match log[0].request
      case Subscribe(channels, _, listener, asBuffers) =>
        RegisterGrows(live, channels, listener, asBuffers, next);
        var live' := Register(live, channels, listener, asBuffers, next);
        forall n <- live' ensures live'[n].id < next + |channels| {
          assert n in live ==> live'[n].id == live[n].id;
        }
        ReplayedNotEmpty(live', log[1..], next + |channels|);
      case Unsubscribe(channels, _) =>
        ReplayedNotEmpty(Leave(live, channels), log[1..], next);
    }
  }

  /** A move loses and resurrects nothing: the other client gets exactly the listeners asked for, on the
      channels that have any, and none of them flagged. */
  lemma MovesLoseNothing(sys: System)
    requires Inv(sys)
    ensures var moved := RemoveAll(sys.s).1;
            && Facts(moved) == sys.wanted
            && (forall n <- moved :: !moved[n].leaving)
            && (forall n :: n in moved <==> exists f :: f in sys.wanted && f.0 == n)
  {
    var replayed := ReplayOnto(sys.s.live, sys.s.log, sys.s.nextEntry).0;
    ReplayedFacts(sys.s.live, sys.s.log, sys.s.nextEntry);
    ReplayIsWanted(sys);
    ReplayedNotEmpty(sys.s.live, sys.s.log, sys.s.nextEntry);
    hide Inv, Facts, Populated, ReplayOnto, Replay;
    UnflaggedFacts(replayed);
    NamesOfFacts(Unflag(replayed));
  }

  lemma UnflaggedFacts(live: Live)
    ensures Facts(Unflag(live)) == Facts(live)
    ensures Populated(live) ==> Populated(Unflag(live))
  {
  }

  // A name is live exactly if it has a listener.
  lemma NamesOfFacts(live: Live)
    requires Populated(live)
    ensures forall n :: n in live <==> exists f :: f in Facts(live) && f.0 == n
  {
    forall n <- live ensures exists f :: f in Facts(live) && f.0 == n {
      var l :| l in live[n].buffers + live[n].strings;
      assert (n, l, l in live[n].buffers) in Facts(live);
    }
  }

  function Replies(oks: seq<bool>): seq<Op> { seq(|oks|, i requires 0 <= i < |oks| => Reply(oks[i])) }

  /** After a move the late replies, whatever they are, change nothing on the client it left. */
  lemma {:induction false} LateRepliesChangeNothing(sys: System, oks: seq<bool>)
    requires Inv(sys) && |sys.s.log| + |oks| <= |sys.wire|
    ensures LegalRun(sys, Replies(oks)) && Run(sys, Replies(oks)).s == sys.s
    decreases |oks|
  {
    if oks != [] {
      assert InOrder(sys);
      hide Inv, InOrder, Step;
      CarriedReply(sys, oks[0]);
      StepKeepsInv(sys, Reply(oks[0]));
      assert Replies(oks)[1..] == Replies(oks[1..]);
      LateRepliesChangeNothing(Step(sys, Reply(oks[0])), oks[1..]);
    }
  }

  /** A move leaves the client empty, and the late replies to what it carried leave it so. */
  lemma MovedClientStaysEmpty(sys: System, oks: seq<bool>)
    requires Inv(sys) && |oks| <= |sys.wire|
    ensures LegalRun(sys, [Move] + Replies(oks))
    ensures var s := Run(sys, [Move] + Replies(oks)).s; s.live == map[] && s.log == []
  {
    StepKeepsInv(sys, Move);
    LateRepliesChangeNothing(Step(sys, Move), oks);
    assert ([Move] + Replies(oks))[1..] == Replies(oks);
  }
}
