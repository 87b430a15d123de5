/** `PubSub`, its listener entries and its pending operations, updated in place
    (packages/client/lib/client/pub-sub.ts:113-216, 286-325, 380-433, 532-564). */
module PubSubClient {
  import opened Collections
  import Spec = PubSubSpec

  type Name = Spec.Name
  type Listener = Spec.Listener

  class ChannelListeners {
    const id: nat
    ghost const name: Name
    var unsubscribing: bool
    var buffers: set<Listener>
    var strings: set<Listener>

    constructor (id: nat, ghost name: Name)
      ensures this.id == id && this.name == name && Abs() == Spec.Entry(id, false, {}, {})
    {
      this.id, this.name := id, name;
      unsubscribing, buffers, strings := false, {}, {};
    }

    ghost function Abs(): Spec.Entry
      reads this
    {
      Spec.Entry(id, unsubscribing, buffers, strings)
    }
  }

  /** An operation in flight: what to replay, the entries it flagged, and whether a move carried it away. */
  class PendingOp {
    const pending: Spec.Pending
    const flagged: set<ChannelListeners>
    var carried: bool

    constructor (pending: Spec.Pending, flagged: set<ChannelListeners>)
      ensures this.pending == pending && this.flagged == flagged && !carried
    {
      this.pending, this.flagged, carried := pending, flagged, false;
    }
  }

  class PubSub {
    var listeners: map<Name, ChannelListeners>
    var pendingOps: seq<PendingOp>
    var nextEntry: nat
    var nextOp: nat
    // Every entry made, and every operation issued.
    ghost var known: set<ChannelListeners>
    ghost var issued: set<PendingOp>

    constructor ()
      ensures Valid() && Abs() == Spec.PubSub(map[], [], 0, 0) && fresh(known) && fresh(issued)
    {
      listeners, pendingOps, nextEntry, nextOp := map[], [], 0, 0;
      known, issued := {}, {};
    }

    ghost predicate ValidEntries()
      reads this`listeners, this`nextEntry, this`known
    {
      && (forall n <- listeners :: listeners[n] in known && listeners[n].name == n)
      && (forall e <- known :: e.id < nextEntry)
      && (forall e, f | e in known && f in known :: e.id == f.id ==> e == f)
    }

    ghost predicate ValidOps()
      reads this`pendingOps, this`nextOp, this`issued, this`known, issued
    {
      && (forall p <- pendingOps :: p in issued && !p.carried)
      && (forall p <- issued :: p.pending.id < nextOp && p.flagged <= known)
      && (forall p <- issued :: p.pending.request.Unsubscribe? ==> p.pending.request.flagged == Ids(p.flagged))
      && (forall p, q | p in issued && q in issued :: p.pending.id == q.pending.id ==> p == q)
      && (forall p <- issued :: p.pending.request.Subscribe? ==> p.flagged == {})
    }

    ghost predicate Valid()
      reads this, issued
    {
      ValidEntries() && ValidOps()
    }

    ghost function Live(): Spec.Live
      reads this`listeners, listeners.Values
    {
      EntriesOf(listeners)
    }

    ghost function Log(): seq<Spec.Pending>
      reads this`pendingOps
    {
      PendingOf(pendingOps)
    }

    ghost function Abs(): Spec.PubSub
      reads this, listeners.Values
    {
      Spec.PubSub(Live(), Log(), nextEntry, nextOp)
    }

    // `Set.add` on one of the two listener sets of an entry.
    method AddListener(n: Name, listener: Listener, asBuffers: bool)
      requires ValidEntries() && n in listeners
      modifies listeners[n]
      ensures ValidEntries()
      ensures Live() == old(Live())[n := Spec.Put(old(Live())[n], listener, asBuffers)]
    {
      var e := listeners[n];
      if asBuffers { e.buffers := e.buffers + {listener}; } else { e.strings := e.strings + {listener}; }
    }

    method NewEntry(n: Name)
      requires ValidEntries() && n !in listeners
      modifies this`listeners, this`nextEntry, this`known
      ensures ValidEntries() && nextEntry == old(nextEntry) + 1 && fresh(known - old(known)) && old(known) <= known
      ensures n in listeners && listeners[n] in known
      ensures Live() == old(Live())[n := Spec.Entry(old(nextEntry), false, {}, {})]
    {
      var e := new ChannelListeners(nextEntry, n);
      listeners := listeners[n := e];
      known := known + {e};
      nextEntry := nextEntry + 1;
    }

    // A new entry where there is none, then the listener. Numbers of entries are never used twice.
    method RegisterOne(n: Name, listener: Listener, asBuffers: bool)
      requires ValidEntries()
      modifies this`listeners, this`nextEntry, this`known, known
      ensures ValidEntries() && nextEntry == old(nextEntry) + 1 && fresh(known - old(known)) && old(known) <= known
      ensures Live() == old(Live())[n := Spec.Put(
        if n in old(Live()) then old(Live())[n] else Spec.Entry(old(nextEntry), false, {}, {}), listener, asBuffers)]
    {
      if n in listeners {
        nextEntry := nextEntry + 1;
        AddListener(n, listener, asBuffers);
      } else {
        NewEntry(n);
        AddListener(n, listener, asBuffers);
      }
    }

    method Register(channels: seq<Name>, listener: Listener, asBuffers: bool)
      requires ValidEntries()
      modifies this`listeners, this`nextEntry, this`known, known
      ensures ValidEntries() && nextEntry == old(nextEntry) + |channels|
      ensures fresh(known - old(known)) && old(known) <= known
      ensures Live() == Spec.Register(old(Live()), channels, listener, asBuffers, old(nextEntry))
    {
      RegisterNone(Live(), listener, asBuffers, nextEntry);
      hide Spec.Put, Spec.Register, ValidEntries, Live;
      var i := 0;
      while i < |channels|
        invariant 0 <= i <= |channels| && ValidEntries() && nextEntry == old(nextEntry) + i
        invariant fresh(known - old(known)) && old(known) <= known
        invariant Live() == Spec.Register(old(Live()), channels[..i], listener, asBuffers, old(nextEntry))
      {
        RegisterNext(old(Live()), channels, i, listener, asBuffers, old(nextEntry));
        RegisterOne(channels[i], listener, asBuffers);
        i := i + 1;
      }
      assert channels[..|channels|] == channels;
    }

    // The operation enters the log.
    method Issue(request: Spec.Request, flagged: set<ChannelListeners>) returns (p: PendingOp)
      requires Valid() && flagged <= known
      requires if request.Unsubscribe? then request.flagged == Ids(flagged) else flagged == {}
      modifies this`pendingOps, this`nextOp, this`issued
      ensures Valid() && p in issued && fresh(p) && p.pending == Spec.Pending(old(nextOp), request)
      ensures issued == old(issued) + {p} && pendingOps == old(pendingOps) + [p] && nextOp == old(nextOp) + 1
      ensures Log() == old(Log()) + [p.pending]
    {
      p := new PendingOp(Spec.Pending(nextOp, request), flagged);
      pendingOps := pendingOps + [p];
      nextOp := nextOp + 1;
      issued := issued + {p};
    }

    method Subscribe(channels: seq<Name>, listener: Listener, asBuffers: bool) returns (p: Option<PendingOp>)
      requires Valid()
      modifies this`pendingOps, this`nextOp, this`issued, known
      ensures Valid() && old(issued) <= issued
      ensures var (s, q) := Spec.Subscribing(old(Abs()), channels, listener, asBuffers);
              Abs() == s && p.Some? == q.Some? && (p.Some? ==> p.value in issued && p.value.pending == q.value)
    {
      hide Spec.Put, Spec.Join, Spec.Joins, Spec.Asked, ValidOps, Log;
      JoinNone(Live(), listener, asBuffers);
      var asked := [];
      var i := 0;
      while i < |channels|
        invariant 0 <= i <= |channels| && Valid()
        invariant Live() == Spec.Join(old(Live()), channels[..i], listener, asBuffers)
        invariant asked == Spec.Asked(old(Live()), channels[..i])
        modifies known
      {
        var channel := channels[i];
        assert channels[..i + 1] == channels[..i] + [channel];
        JoinOne(old(Live()), channels[..i], channel, listener, asBuffers);
        if channel in listeners && !listeners[channel].unsubscribing {
          AddListener(channel, listener, asBuffers);
        } else {
          asked := asked + [channel];
        }
        i := i + 1;
      }
      assert channels[..|channels|] == channels;
      if asked == [] { return None; }
      var op := Issue(Spec.Subscribe(channels, asked, listener, asBuffers), {});
      p := Some(op);
    }

    // Sets the flag of every entry of `sets`, all of them known.
    method Flag(sets: set<ChannelListeners>)
      requires ValidEntries() && sets <= known
      modifies sets
      ensures ValidEntries() && Live() == Flagging(old(Live()), Ids(sets))
    {
      var todo := sets;
      while todo != {}
        invariant todo <= sets
        invariant forall e <- sets :: e !in todo ==> e.Abs() == old(e.Abs()).(leaving := true)
        invariant forall e <- todo :: e.Abs() == old(e.Abs())
        decreases todo
      {
        var e :| e in todo;
        e.unsubscribing := true;
        todo := todo - {e};
      }
      IdsOfKnown(sets);
    }

    lemma IdsOfKnown(sets: set<ChannelListeners>)
      requires ValidEntries() && sets <= known
      ensures forall n <- listeners :: listeners[n].id in Ids(sets) <==> listeners[n] in sets
    {
    }

    /** `unsubscribe` from whole channels. */
    method Unsubscribe(channels: seq<Name>) returns (p: PendingOp)
      requires Valid()
      modifies this`pendingOps, this`nextOp, this`issued, known
      ensures Valid() && old(issued) <= issued && p in issued
      ensures var (s, q) := Spec.Unsubscribing(old(Abs()), channels); Abs() == s && p.pending == q
    {
      var flagged: set<ChannelListeners> := {};
      var i := 0;
      while i < |channels|
        invariant 0 <= i <= |channels|
        invariant flagged == set n | n in listeners && n in channels[..i] :: listeners[n]
      {
        assert channels[..i + 1] == channels[..i] + [channels[i]];
        if channels[i] in listeners { flagged := flagged + {listeners[channels[i]]}; }
        i := i + 1;
      }
      assert channels[..|channels|] == channels;
      assert Ids(flagged) == Spec.Flagged(Live(), channels);
      FlaggingChannels(Live(), channels);
      hide ValidOps, Log, Flagging;
      Flag(flagged);
      p := Issue(Spec.Unsubscribe(channels, Ids(flagged)), flagged);
    }

    /** `#stillLeaving` */
    method StillLeaving(sets: ChannelListeners) returns (r: bool)
      requires Valid() && sets in known
      ensures r == Spec.StillLeaving(Log(), sets.id)
    {
      var i := 0;
      while i < |pendingOps|
        invariant 0 <= i <= |pendingOps|
        invariant forall j :: 0 <= j < i ==> sets !in pendingOps[j].flagged
      {
        if sets in pendingOps[i].flagged {
          assert Log()[i] in Log();
          return true;
        }
        i := i + 1;
      }
      r := false;
    }

    // `Set.delete` on the log.
    method Remove(p: PendingOp)
      requires Valid() && p in issued
      modifies this`pendingOps
      ensures Valid() && Log() == Spec.Dropped(old(Log()), p.pending)
      ensures p in old(pendingOps) <==> p.pending in old(Log())
      ensures p !in old(pendingOps) ==> pendingOps == old(pendingOps)
    {
      RemovedOp(pendingOps, p, issued);
      pendingOps := RemoveOp(pendingOps, p);
    }

    /** A subscribe confirmed; one that a move carried away registers nothing. */
    method ResolveSubscribe(p: PendingOp)
      requires Valid() && p in issued && p.pending.request.Subscribe? && (p.carried || p in pendingOps)
      modifies this`listeners, this`pendingOps, this`nextEntry, this`known, known
      ensures Valid() && Abs() == Spec.Settle(old(Abs()), p.pending, true)
    {
      Remove(p);
      if p.carried { return; }
      hide ValidEntries, Spec.Register, Spec.Dropped;
      Register(p.pending.request.asked, p.pending.request.listener, p.pending.request.asBuffers);
    }

    method RejectSubscribe(p: PendingOp)
      requires Valid() && p in issued && p.pending.request.Subscribe? && (p.carried || p in pendingOps)
      modifies this`pendingOps
      ensures Valid() && Abs() == Spec.Settle(old(Abs()), p.pending, false)
    {
      Remove(p);
    }

    method ResolveUnsubscribe(p: PendingOp)
      requires Valid() && p in issued && p.pending.request.Unsubscribe? && (p.carried || p in pendingOps)
      modifies this`listeners, this`pendingOps
      ensures Valid() && Abs() == Spec.Settle(old(Abs()), p.pending, true)
    {
      Remove(p);
      if p.carried { return; }
      Leave(p.pending.request.channels);
    }

    // `Map.delete` for each of the channels.
    method Leave(channels: seq<Name>)
      requires ValidEntries()
      modifies this`listeners
      ensures ValidEntries() && Live() == Spec.Leave(old(Live()), channels)
    {
      var i := 0;
      while i < |channels|
        invariant 0 <= i <= |channels| && listeners == old(listeners) - (set n <- channels[..i])
      {
        assert channels[..i + 1] == channels[..i] + [channels[i]];
        listeners := listeners - {channels[i]};
        i := i + 1;
      }
      assert channels[..|channels|] == channels;
    }

    /** An unsubscribe that failed: the entries it flagged stay, unless another one deletes them. */
    method RejectUnsubscribe(p: PendingOp)
      requires Valid() && p in issued && p.pending.request.Unsubscribe? && (p.carried || p in pendingOps)
      modifies this`pendingOps, known
      ensures Valid() && Abs() == Spec.Settle(old(Abs()), p.pending, false)
    {
      Remove(p);
      if p.carried { return; }
      hide ValidEntries, ValidOps, Spec.Dropped, Spec.StillLeaving;
      Lift(p.flagged);
    }

    method Lift(sets: set<ChannelListeners>)
      requires Valid() && sets <= known
      modifies sets
      ensures Valid() && Live() == Spec.Lift(old(Live()), Ids(sets), Log())
    {
      hide Spec.StillLeaving;
      var todo := sets;
      while todo != {}
        invariant todo <= sets
        invariant forall e <- sets - todo :: e.Abs() == Lifted(old(e.Abs()), Log())
        invariant forall e <- todo :: e.Abs() == old(e.Abs())
        decreases todo
      {
        var e :| e in todo;
        var leaving := StillLeaving(e);
        if !leaving { e.unsubscribing := false; }
        todo := todo - {e};
      }
      IdsOfKnown(sets);
    }

    // What a pending operation does to the listeners that are moved.
    method ApplyTo(p: PendingOp, ghost log: seq<Spec.Pending>)
      requires ValidEntries() && log != [] && log[0] == p.pending
      modifies this`listeners, this`nextEntry, this`known, known, p
      ensures p.carried && ValidEntries() && fresh(known - old(known)) && old(known) <= known
      ensures Spec.ReplayOnto(Live(), log[1..], nextEntry) == Spec.ReplayOnto(old(Live()), log, old(nextEntry))
    {
      p.carried := true;
      match p.pending.request
      case Subscribe(channels, _, listener, asBuffers) => Register(channels, listener, asBuffers);
      case Unsubscribe(channels, _) => Leave(channels);
    }

    method Unflag(sets: set<ChannelListeners>)
      requires ValidEntries() && sets == listeners.Values
      modifies sets
      ensures ValidEntries() && Live() == Spec.Unflag(old(Live()))
    {
      var todo := sets;
      while todo != {}
        invariant todo <= sets
        invariant forall e <- sets - todo :: e.Abs() == old(e.Abs()).(leaving := false)
        invariant forall e <- todo :: e.Abs() == old(e.Abs())
        decreases todo
      {
        var e :| e in todo;
        e.unsubscribing := false;
        todo := todo - {e};
      }
    }

    // Replays the log onto the listeners, in the order of issue.
    method Replay()
      requires Valid()
      modifies this`listeners, this`nextEntry, this`known, known, issued
      ensures ValidEntries() && (Live(), nextEntry) == Spec.ReplayOnto(old(Live()), Log(), old(nextEntry))
      ensures fresh(known - old(known)) && old(known) <= known
      ensures forall p <- pendingOps :: p.carried
    {
      ghost var log := Log();
      assert log[0..] == log;
      hide *;
      var i := 0;
      while i < |pendingOps|
        invariant 0 <= i <= |pendingOps| && ValidEntries()
        invariant fresh(known - old(known)) && old(known) <= known
        invariant Spec.ReplayOnto(Live(), log[i..], nextEntry) == Spec.ReplayOnto(old(Live()), log, old(nextEntry))
        invariant forall p <- pendingOps[..i] :: p.carried
      {
        assert log[i..][1..] == log[i + 1..] && log[i..][0] == pendingOps[i].pending;
        ApplyTo(pendingOps[i], log[i..]);
        i := i + 1;
      }
      assert log[i..] == [] && pendingOps[..i] == pendingOps;
      ReplayedAll(Live(), nextEntry);
    }

    lemma ReplayedAll(live: Spec.Live, next: nat)
      ensures Spec.ReplayOnto(live, [], next) == (live, next)
    {
    }

    // The log is replayed and empty, and no listener is flagged.
    method TakeOver()
      requires Valid()
      modifies this`listeners, this`nextEntry, this`known, this`pendingOps, known, issued
      ensures Valid() && pendingOps == []
      ensures Spec.RemoveAll(old(Abs())) == (Spec.PubSub(map[], [], nextEntry, nextOp), Live())
      ensures forall p <- old(pendingOps) :: p.carried
    {
      hide Spec.ReplayOnto, Spec.Unflag;
      Replay();
      pendingOps := [];
      Unflag(listeners.Values);
    }

    /** The listeners another client takes over; the operations in flight are carried away. */
    method RemoveAllListeners() returns (result: map<Name, ChannelListeners>)
      requires Valid()
      modifies this, known, issued
      ensures Valid() && Abs() == Spec.RemoveAll(old(Abs())).0
      ensures EntriesOf(result) == Spec.RemoveAll(old(Abs())).1
      ensures forall p <- old(pendingOps) :: p.carried
    {
      hide Spec.RemoveAll;
      TakeOver();
      hide ValidOps;
      result := listeners;
      listeners := map[];
    }
  }

  ghost function Lifted(e: Spec.Entry, log: seq<Spec.Pending>): Spec.Entry {
    if Spec.StillLeaving(log, e.id) then e else e.(leaving := false)
  }

  // Without the first occurrence of `p`.
  function RemoveOp(ops: seq<PendingOp>, p: PendingOp): seq<PendingOp> {
    if ops == [] then [] else if ops[0] == p then ops[1..] else [ops[0]] + RemoveOp(ops[1..], p)
  }

  lemma {:induction false} RemovedOp(ops: seq<PendingOp>, p: PendingOp, issued: set<PendingOp>)
    requires p in issued && forall q <- ops :: q in issued
    requires forall q, r | q in issued && r in issued :: q.pending.id == r.pending.id ==> q == r
    ensures PendingOf(RemoveOp(ops, p)) == Spec.Dropped(PendingOf(ops), p.pending)
    ensures p in ops <==> p.pending in PendingOf(ops)
    ensures forall q <- RemoveOp(ops, p) :: q in ops
    ensures p !in ops ==> RemoveOp(ops, p) == ops
  {
    if ops != [] {
      RemovedOp(ops[1..], p, issued);
      assert PendingOf(ops) == [ops[0].pending] + PendingOf(ops[1..]);
      assert ops == [ops[0]] + ops[1..];
      assert PendingOf(RemoveOp(ops, p)) == if ops[0] == p then PendingOf(ops[1..])
                                            else [ops[0].pending] + PendingOf(RemoveOp(ops[1..], p));
    }
  }

  ghost function EntriesOf(listeners: map<Name, ChannelListeners>): Spec.Live
    reads listeners.Values
  {
    map n | n in listeners :: listeners[n].Abs()
  }

  // The entries with these ids are flagged.
  ghost function Flagging(live: Spec.Live, ids: set<nat>): Spec.Live {
    map n | n in live :: if live[n].id in ids then live[n].(leaving := true) else live[n]
  }

  // Flagging the entries of some channels flags no other, as ids are distinct.
  lemma FlaggingChannels(live: Spec.Live, channels: seq<Name>)
    requires forall m, n | m in live && n in live :: live[m].id == live[n].id ==> m == n
    ensures Flagging(live, Spec.Flagged(live, channels)) ==
            map n | n in live :: if n in channels then live[n].(leaving := true) else live[n]
  {
  }

  lemma RegisterNone(live: Spec.Live, listener: Listener, asBuffers: bool, next: nat)
    ensures Spec.Register(live, [], listener, asBuffers, next) == live
  {
  }

  lemma RegisterNext(live: Spec.Live, channels: seq<Name>, i: nat, listener: Listener, asBuffers: bool, next: nat)
    requires i < |channels|
    ensures var (live', n) := (Spec.Register(live, channels[..i], listener, asBuffers, next), channels[i]);
            Spec.Register(live, channels[..i + 1], listener, asBuffers, next) ==
            live'[n := Spec.Put(if n in live' then live'[n] else Spec.Entry(next + i, false, {}, {}), listener, asBuffers)]
  {
    assert channels[..i + 1][..i] == channels[..i];
  }

  lemma JoinNone(live: Spec.Live, listener: Listener, asBuffers: bool)
    ensures Spec.Join(live, [], listener, asBuffers) == live && Spec.Asked(live, []) == []
  {
  }

  lemma JoinOne(live: Spec.Live, channels: seq<Name>, n: Name, listener: Listener, asBuffers: bool)
    ensures var joined := Spec.Join(live, channels, listener, asBuffers);
            && Spec.Joins(live, n) == (n in joined && !joined[n].leaving)
            && Spec.Join(live, channels + [n], listener, asBuffers) ==
               if Spec.Joins(live, n) then joined[n := Spec.Put(joined[n], listener, asBuffers)] else joined
    ensures Spec.Asked(live, channels + [n]) == Spec.Asked(live, channels) + if Spec.Joins(live, n) then [] else [n]
  {
    assert (channels + [n])[..|channels|] == channels;
    assert forall m :: m in channels + [n] <==> m in channels || m == n;
  }

  function Ids(entries: set<ChannelListeners>): set<nat> { set e <- entries :: e.id }

  ghost function PendingOf(ops: seq<PendingOp>): seq<Spec.Pending> {
    seq(|ops|, i requires 0 <= i < |ops| => ops[i].pending)
  }
}
