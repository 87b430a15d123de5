/** Exactly when a listener that joins a confirmed channel goes with it, and exactly which unsubscribes
    make that possible (packages/client/lib/client/pub-sub.ts:143-165, 286-325, 380-405). */
module PubSubLosses {
  import opened Collections
  import opened PubSubSpec
  import opened PubSubRuns

  // The oldest operation in flight succeeds.
  function Next(s: PubSub): (s': PubSub)
    requires s.log != []
    ensures s'.log == s.log[1..]
  {
    Settle(s, s.log[0], true)
  }

  /** The listener is there, and stays through every reply to what is in flight. */
  predicate Stays(s: PubSub, f: Fact)
    decreases |s.log|
  {
    f in Facts(s.live) && (s.log == [] || Stays(Next(s), f))
  }

  predicate Unsubscribes(p: Pending, c: Name) { p.request.Unsubscribe? && c in p.request.channels }

  predicate Asks(p: Pending, c: Name) { p.request.Subscribe? && c in p.request.asked }

  lemma LeavesHead(s: PubSub, c: Name)
    requires s.log != []
    ensures Leaves(s.log, c) <==> Unsubscribes(s.log[0], c) || Leaves(Next(s).log, c)
  {
    LeavesRest(s, Next(s), c);
  }

  // A reply takes a listener away only if it is to an unsubscribe from the channel.
  lemma NextFacts(s: PubSub, f: Fact)
    requires s.log != [] && f in Facts(s.live)
    ensures f in Facts(Next(s).live) <==> !Unsubscribes(s.log[0], f.0)
  {
    hide Facts, Register;
    match s.log[0].request
    case Subscribe(_, asked, listener, asBuffers) => RegisterFacts(s.live, asked, listener, asBuffers, s.nextEntry);
    case Unsubscribe(channels, _) => LeaveFacts(s.live, channels);
  }

  lemma {:induction false} StaysExactlyUnlessLeaving(s: PubSub, f: Fact)
    requires f in Facts(s.live)
    ensures Stays(s, f) <==> !Leaves(s.log, f.0)
    decreases |s.log|
  {
    if s.log != [] {
      LeavesHead(s, f.0);
      NextFacts(s, f);
      hide Leaves, Facts, Next;
      if !Unsubscribes(s.log[0], f.0) { StaysExactlyUnlessLeaving(Next(s), f); }
    }
  }

  /** In any state, a listener that joins a confirmed channel at once, sending nothing, is lost to the
      replies in flight exactly when an unsubscribe from the channel is among them. */
  lemma JoinerIsLostExactlyWhenLeaving(s: PubSub, c: Name, listener: Listener, asBuffers: bool)
    requires Joins(s.live, c)
    ensures var (s', sent) := Subscribing(s, [c], listener, asBuffers);
            && sent.None? && (c, listener, asBuffers) in Facts(s'.live) && s'.log == s.log
            && (!Stays(s', (c, listener, asBuffers)) <==> Leaves(s.log, c))
  {
    AskedChannels(s.live, [c]);
    JoinFacts(s.live, [c], listener, asBuffers);
    var s' := Subscribing(s, [c], listener, asBuffers).0;
    assert forall i :: 0 <= i < |Asked(s.live, [c])| ==> Asked(s.live, [c])[i] in Asked(s.live, [c]);
    StaysExactlyUnlessLeaving(s', (c, listener, asBuffers));
  }

  // ---------------------------------------------------------------- which unsubscribes expose joiners

  /** At some moment before the `m`-th reply, a listener would join `c` at once and be lost. */
  predicate Exposes(s: PubSub, c: Name, m: nat)
    decreases m
  {
    (Joins(s.live, c) && Leaves(s.log, c)) || (m > 0 && s.log != [] && Exposes(Next(s), c, m - 1))
  }

  // A subscribe in flight asks for the channel.
  predicate AskedFor(log: seq<Pending>, c: Name) { exists p <- log :: Asks(p, c) }

  // So does one behind an unsubscribe from it.
  predicate AskedAgain(log: seq<Pending>, c: Name) {
    log != [] && (if Unsubscribes(log[0], c) then AskedFor(log[1..], c) else AskedAgain(log[1..], c))
  }

  lemma {:induction false} RegisterFlags(live: Live, channels: seq<Name>, listener: Listener, asBuffers: bool,
                                         next: nat, c: Name)
    ensures var live' := Register(live, channels, listener, asBuffers, next);
            && (c in live' <==> c in live || c in channels)
            && (c in live' ==> live'[c].leaving == (c in live && live[c].leaving))
    decreases |channels|
  {
    if channels != [] {
      var k := |channels| - 1;
      RegisterFlags(live, channels[..k], listener, asBuffers, next, c);
      assert channels == channels[..k] + [channels[k]];
    }
  }

  // What a reply does to the entry of one channel.
  lemma NextEntry(s: PubSub, c: Name)
    requires s.log != []
    ensures Unsubscribes(s.log[0], c) ==> c !in Next(s).live
    ensures !Unsubscribes(s.log[0], c) ==>
      && (c in Next(s).live <==> c in s.live || Asks(s.log[0], c))
      && (c in Next(s).live ==> Next(s).live[c].leaving == (c in s.live && s.live[c].leaving))
  {
    match s.log[0].request
    case Subscribe(_, asked, listener, asBuffers) => RegisterFlags(s.live, asked, listener, asBuffers, s.nextEntry, c);
    case Unsubscribe(channels, _) =>
  }

  lemma AskedForHead(log: seq<Pending>, c: Name)
    requires log != []
    ensures AskedFor(log, c) <==> Asks(log[0], c) || AskedFor(log[1..], c)
  {
    assert log == [log[0]] + log[1..];
    assert forall p :: p in log <==> p == log[0] || p in log[1..];
  }

  // The `m`-th operation in flight is the unsubscribe.
  predicate EndsWith(s: PubSub, c: Name, m: nat) { m < |s.log| && Unsubscribes(s.log[m], c) }

  lemma {:induction false} AbsentExposes(s: PubSub, c: Name, m: nat)
    requires EndsWith(s, c, m) && c !in s.live
    ensures Exposes(s, c, m) <==> AskedFor(s.log[..m], c)
    decreases m
  {
    if m > 0 {
      NextEntry(s, c);
      AskedForHead(s.log[..m], c);
      assert s.log[..m][1..] == Next(s).log[..m - 1];
      assert Leaves(Next(s).log, c) by { assert Next(s).log[m - 1] in Next(s).log; }
      hide Leaves, AskedFor, Next;
      if c !in Next(s).live { AbsentExposes(Next(s), c, m - 1); }
    }
  }

  lemma {:induction false} LeavingExposes(s: PubSub, c: Name, m: nat)
    requires EndsWith(s, c, m) && c in s.live && s.live[c].leaving
    ensures Exposes(s, c, m) <==> AskedAgain(s.log[..m], c)
    decreases m
  {
    if m > 0 {
      NextEntry(s, c);
      assert s.log[..m][1..] == Next(s).log[..m - 1];
      hide Leaves, AskedFor, Next;
      if Unsubscribes(s.log[0], c) {
        AbsentExposes(Next(s), c, m - 1);
      } else {
        LeavingExposes(Next(s), c, m - 1);
      }
    }
  }

  /** In any state, an unsubscribe from whole channels exposes the listeners that join one of them before
      its reply exactly when, as it is issued, a subscribe in flight asks for the channel: any if the
      channel is not confirmed, one behind an unsubscribe in flight if it is. */
  lemma UnsubscribeExposesExactlyWhen(s: PubSub, channels: seq<Name>, c: Name)
    requires c in channels
    ensures Exposes(Unsubscribing(s, channels).0, c, |s.log|) <==>
            if c in s.live then AskedAgain(s.log, c) else AskedFor(s.log, c)
  {
    var s' := Unsubscribing(s, channels).0;
    assert s'.log[..|s.log|] == s.log;
    if c in s.live { LeavingExposes(s', c, |s.log|); } else { AbsentExposes(s', c, |s.log|); }
  }

  lemma {:induction false} NotLeavingNotAsked(log: seq<Pending>, c: Name)
    requires !Leaves(log, c)
    ensures !AskedAgain(log, c)
    decreases |log|
  {
    if log != [] {
      assert log[0] in log;
      forall p <- log[1..] ensures p in log {}
      NotLeavingNotAsked(log[1..], c);
    }
  }

  /** So the unsubscribes of the runs expose nobody: their channels are confirmed and not leaving. */
  lemma RunsExposeNobody(sys: System, channels: seq<Name>, c: Name)
    requires Inv(sys) && Legal(sys, Unsub(channels)) && c in channels
    ensures !Exposes(Step(sys, Unsub(channels)).s, c, |sys.s.log|)
  {
    UnsubscribeExposesExactlyWhen(sys.s, channels, c);
    NotLeavingNotAsked(sys.s.log, c);
  }

  /** And nobody who joins in a run is lost, to whatever is in flight. */
  lemma RunsLoseNobody(sys: System, c: Name, listener: Listener, asBuffers: bool)
    requires Inv(sys) && Joins(sys.s.live, c)
    ensures Stays(Subscribing(sys.s, [c], listener, asBuffers).0, (c, listener, asBuffers))
  {
    JoinerIsLostExactlyWhenLeaving(sys.s, c, listener, asBuffers);
  }
}
