/** What each operation of `PubSub` does to the listeners and to the log of operations in flight
    (packages/client/lib/client/pub-sub.ts:113-216, 286-325, 380-433, 532-564). */
module PubSubSpec {
  import opened Collections

  datatype Kind = Channels | Patterns | Sharded

  // The three listener maps are one, by kind and name.
  type Name = (Kind, string)

  type Listener = nat

  /** `ChannelListeners`; `id` tells the entries of one name apart. */
  datatype Entry = Entry(id: nat, leaving: bool, buffers: set<Listener>, strings: set<Listener>)

  type Live = map<Name, Entry>

  /** `asked` are the channels that had to be subscribed to, `flagged` the entries an unsubscribe marked. */
  datatype Request =
    | Subscribe(channels: seq<Name>, asked: seq<Name>, listener: Listener, asBuffers: bool)
    | Unsubscribe(channels: seq<Name>, flagged: set<nat>)

  datatype Pending = Pending(id: nat, request: Request)

  /** An operation in flight that is not in the log was carried away by a move. */
  datatype PubSub = PubSub(live: Live, log: seq<Pending>, nextEntry: nat, nextOp: nat)

  function Put(e: Entry, listener: Listener, asBuffers: bool): Entry {
    if asBuffers then e.(buffers := e.buffers + {listener}) else e.(strings := e.strings + {listener})
  }

  // A confirmed channel that is not about to go away.
  predicate Joins(live: Live, n: Name) { n in live && !live[n].leaving }

  function Join(live: Live, channels: seq<Name>, listener: Listener, asBuffers: bool): Live {
    map n | n in live :: if n in channels && !live[n].leaving then Put(live[n], listener, asBuffers) else live[n]
  }

  function Asked(live: Live, channels: seq<Name>): seq<Name> {
    if channels == [] then []
    else Asked(live, channels[..|channels| - 1]) +
         (if Joins(live, channels[|channels| - 1]) then [] else [channels[|channels| - 1]])
  }

  /** `subscribe`: joins what is there, and asks for the rest. */
  function Subscribing(s: PubSub, channels: seq<Name>, listener: Listener, asBuffers: bool): (PubSub, Option<Pending>) {
    var asked := Asked(s.live, channels);
    var s' := s.(live := Join(s.live, channels, listener, asBuffers));
    if asked == [] then (s', None)
    else
      var p := Pending(s.nextOp, Subscribe(channels, asked, listener, asBuffers));
      (s'.(log := s.log + [p], nextOp := s.nextOp + 1), Some(p))
  }

  function Flagged(live: Live, channels: seq<Name>): set<nat> { set n | n in live && n in channels :: live[n].id }

  /** `unsubscribe` from whole channels: flags what the reply will delete. */
  function Unsubscribing(s: PubSub, channels: seq<Name>): (PubSub, Pending) {
    var p := Pending(s.nextOp, Unsubscribe(channels, Flagged(s.live, channels)));
    (s.(live := map n | n in s.live :: if n in channels then s.live[n].(leaving := true) else s.live[n],
        log := s.log + [p], nextOp := s.nextOp + 1), p)
  }

  // Adds the listener to each of the channels, with a new entry where there is none.
  function Register(live: Live, channels: seq<Name>, listener: Listener, asBuffers: bool, next: nat): Live {
    if channels == [] then live
    else
      var k := |channels| - 1;
      var live' := Register(live, channels[..k], listener, asBuffers, next);
      var n := channels[k];
      live'[n := Put(if n in live' then live'[n] else Entry(next + k, false, {}, {}), listener, asBuffers)]
  }

  function Leave(live: Live, channels: seq<Name>): Live { live - (set n <- channels) }

  predicate StillLeaving(log: seq<Pending>, id: nat) {
    exists p :: p in log && p.request.Unsubscribe? && id in p.request.flagged
  }

  // Entries flagged by an unsubscribe that failed stay, unless another one still deletes them.
  function Lift(live: Live, flagged: set<nat>, log: seq<Pending>): Live {
    map n | n in live ::
      if live[n].id in flagged && !StillLeaving(log, live[n].id) then live[n].(leaving := false) else live[n]
  }

  function Dropped(log: seq<Pending>, p: Pending): seq<Pending> {
    if log == [] then []
    else if log[0] == p then log[1..]
    else [log[0]] + Dropped(log[1..], p)
  }

  /** The reply to an operation, or its failure. */
  function Settle(s: PubSub, p: Pending, ok: bool): PubSub {
    if p !in s.log then s
    else
      var s' := s.(log := Dropped(s.log, p));
      match p.request
      case Subscribe(_, asked, listener, asBuffers) =>
        if ok then s'.(live := Register(s.live, asked, listener, asBuffers, s.nextEntry),
                       nextEntry := s.nextEntry + |asked|)
        else s'
      case Unsubscribe(channels, flagged) =>
        s'.(live := if ok then Leave(s.live, channels) else Lift(s.live, flagged, s'.log))
  }

  // The log replayed onto the live entries, in the order of issue.
  function ReplayOnto(live: Live, log: seq<Pending>, next: nat): (Live, nat)
    decreases |log|
  {
    if log == [] then (live, next)
    else
      match log[0].request
      case Subscribe(channels, _, listener, asBuffers) =>
        ReplayOnto(Register(live, channels, listener, asBuffers, next), log[1..], next + |channels|)
      case Unsubscribe(channels, _) => ReplayOnto(Leave(live, channels), log[1..], next)
  }

  function Unflag(live: Live): Live { map n | n in live :: live[n].(leaving := false) }

  /** `removeAllListeners`: what another client takes over. */
  function RemoveAll(s: PubSub): (PubSub, Live) {
    var (live, next) := ReplayOnto(s.live, s.log, s.nextEntry);
    (PubSub(map[], [], next, s.nextOp), Unflag(live))
  }
}
