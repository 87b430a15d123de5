/** `RedisCommandsQueue` (packages/client/lib/client/commands-queue.ts:140-1069): every operation, with
    its loops, does to the queue what `QueueSpec` says. */
module CommandsQueue {
  import opened Collections
  import opened QueueSpec

  lemma SettleNone(settled: map<nat, Outcome>, outcome: Outcome)
    ensures Settle(settled, [], outcome) == settled
  {
  }

  lemma SettleTwice(settled: map<nat, Outcome>, a: seq<nat>, b: seq<nat>, outcome: Outcome)
    ensures Settle(Settle(settled, a, outcome), b, outcome) == Settle(settled, a + b, outcome)
  {
  }

  lemma SettleSwapped(settled: map<nat, Outcome>, a: seq<nat>, b: seq<nat>, outcome: Outcome)
    ensures Settle(settled, a + b, outcome) == Settle(settled, b + a, outcome)
  {
  }

  lemma DeafenNone(listening: set<Listener>)
    ensures Deafen(listening, []) == listening
  {
  }

  lemma DeafenTwice(listening: set<Listener>, a: seq<Command>, b: seq<Command>)
    ensures Deafen(Deafen(listening, a), b) == Deafen(listening, a + b)
  {
    assert Ids(a + b) == Ids(a) + Ids(b);
  }

  lemma ReportNone(reported: map<nat, bool>)
    ensures ReportFailure(reported, {}) == reported
  {
  }

  lemma ReportOne(reported: map<nat, bool>, ids: set<nat>, id: nat)
    ensures ReportFailure(reported, ids)[id := false] == ReportFailure(reported, ids + {id})
  {
  }

  lemma IdsSnoc(s: seq<Command>, i: nat, j: nat)
    requires i <= j < |s|
    ensures s[i..j + 1] == s[i..j] + [s[j]] && Ids(s[i..j + 1]) == Ids(s[i..j]) + [s[j].id]
  {
  }

  lemma IdsCons(s: seq<Command>, i: nat, j: nat)
    requires i < j <= |s|
    ensures Ids(s[i..j]) == [s[i].id] + Ids(s[i + 1..j])
  {
  }

  lemma NoIds(s: seq<Command>, i: nat)
    requires i <= |s|
    ensures Ids(s[i..i]) == []
  {
  }

  lemma MemberRunStep(s: seq<Command>, n: nat, chain: Option<nat>)
    requires n < |s| && IsMember(s[n]) && s[n].chain == chain
    ensures MemberRun(s[n..], chain) == 1 + MemberRun(s[n + 1..], chain)
  {
    assert s[n..][1..] == s[n + 1..];
  }

  lemma MemberRunEnds(s: seq<Command>, n: nat, chain: Option<nat>)
    requires n <= |s| && (n < |s| ==> !IsMember(s[n]) || s[n].chain != chain)
    ensures MemberRun(s[n..], chain) == 0
  {
  }

  lemma ChainRunStep(s: seq<Command>, n: nat, chain: Option<nat>)
    requires n < |s| && s[n].chain == chain
    ensures ChainRun(s[n..], chain) == 1 + ChainRun(s[n + 1..], chain)
  {
    assert s[n..][1..] == s[n + 1..];
  }

  lemma ChainRunEnds(s: seq<Command>, n: nat, chain: Option<nat>)
    requires n <= |s| && (n < |s| ==> s[n].chain != chain)
    ensures ChainRun(s[n..], chain) == 0
  {
  }

  lemma SelectNone(slots: set<nat>)
    ensures Select([], slots, true) == [] && Select([], slots, false) == []
  {
  }

  lemma SelectSnoc(s: seq<Command>, n: nat, slots: set<nat>)
    requires n < |s|
    ensures Targets(s[n], slots) ==> Select(s[..n + 1], slots, true) == Select(s[..n], slots, true) + [s[n]]
    ensures Targets(s[n], slots) ==> Select(s[..n + 1], slots, false) == Select(s[..n], slots, false)
    ensures !Targets(s[n], slots) ==> Select(s[..n + 1], slots, true) == Select(s[..n], slots, true)
    ensures !Targets(s[n], slots) ==> Select(s[..n + 1], slots, false) == Select(s[..n], slots, false) + [s[n]]
  {
    assert s[..n + 1][..n] == s[..n];
  }

  lemma ReachStep(s: seq<Command>, n: nat, slots: set<nat>, chain: Option<nat>)
    requires n < |s| && !(Targets(s[n], slots) && InExecution(s[n], chain))
    ensures Reach(s[n..], slots, chain) == 1 + Reach(s[n + 1..], slots, chain)
  {
    assert s[n..][1..] == s[n + 1..];
  }

  lemma ReachEnds(s: seq<Command>, n: nat, slots: set<nat>, chain: Option<nat>)
    requires n <= |s| && (n < |s| ==> Targets(s[n], slots) && InExecution(s[n], chain))
    ensures Reach(s[n..], slots, chain) == 0
  {
  }

  // A cursor between what was kept, `a`, and the rest of `s`.
  lemma AtCursor<T>(a: seq<T>, s: seq<T>, n: nat)
    requires n < |s|
    ensures (a + s[n..])[|a|] == s[n]
    ensures a + s[n..] == a + [s[n]] + s[n + 1..]
    ensures RemoveAt(a + s[n..], |a|) == a + s[n + 1..]
  {
  }

  lemma BeforeCursor<T>(s: seq<T>, k: nat, n: nat)
    requires k < n <= |s|
    ensures RemoveAt(s[..k + 1] + s[n..], k) == s[..k] + s[n..]
  {
  }

  lemma NothingWaiting()
    ensures Mains([]) == [] && Preludes([]) == {}
  {
  }

  lemma WaitingSnoc(w: seq<Waiting>, i: nat)
    requires i < |w|
    ensures w[i].isPrelude ==> Mains(w[..i + 1]) == Mains(w[..i]) && Preludes(w[..i + 1]) == Preludes(w[..i]) + {w[i].id}
    ensures !w[i].isPrelude ==> Mains(w[..i + 1]) == Mains(w[..i]) + [w[i].id] && Preludes(w[..i + 1]) == Preludes(w[..i])
  {
    assert w[..i + 1] == w[..i] + [w[i]];
    assert w[..i + 1][..i] == w[..i];
  }

  class RedisCommandsQueue {
    const maxLength: nat
    var toWrite: seq<Command>
    var waiting: seq<Waiting>
    var chainInExecution: Option<nat>
    // the timers and abort signals the queue listens to
    var listening: set<Listener>
    // the promises settled and the prelude outcomes told so far
    var settled: map<nat, Outcome>
    var reported: map<nat, bool>

    function Abs(): Queue
      reads this
    {
      Queue(maxLength, toWrite, waiting, chainInExecution, listening, settled, reported)
    }

    constructor (maxLength: nat)
      ensures Abs() == Empty(maxLength)
    {
      this.maxLength := maxLength;
      toWrite, waiting, chainInExecution := [], [], None;
      listening, settled, reported := {}, map[], map[];
    }

    predicate IsBatchStarted(c: Command)
      reads this
    {
      IsHead(c) && c.chain.Some? && c.chain == chainInExecution
    }

    method InsertAtFront(c: Command) returns (k: nat)
      modifies this`toWrite
      ensures k == FrontIndex(old(Abs())) && Abs() == old(Abs()).(toWrite := InsertAt(old(toWrite), k, c))
    {
      k := 0;
      if chainInExecution.Some? {
        ghost var whole := ChainRun(toWrite, chainInExecution);
        while k < |toWrite| && toWrite[k].chain == chainInExecution
          invariant k <= |toWrite| && whole == k + ChainRun(toWrite[k..], chainInExecution)
        {
          assert toWrite[k..][1..] == toWrite[k + 1..];
          k := k + 1;
        }
      }
      toWrite := InsertAt(toWrite, k, c);
    }

    method AddCommand(c: Command, asap: bool, aborted: bool, armFails: bool) returns (r: Admission)
      modifies this`toWrite, this`listening
      ensures r == Admit(old(Abs()), c, aborted, armFails)
      ensures Abs() == if r == Queued then QueueSpec.AddCommand(old(Abs()), c, asap) else old(Abs())
    {
      var size := if c.prelude then 2 else 1;
      if maxLength > 0 && |toWrite| + |waiting| + size > maxLength { return Full; }
      if aborted { return Aborted; }
      var k := |toWrite|;
      if asap {
        k := InsertAtFront(c);
      } else {
        toWrite := toWrite + [c];
      }
      if armFails {
        toWrite := RemoveAt(toWrite, k);
        return ArmFailed;
      }
      listening := listening + ListenersOf(c);
      return Queued;
    }

    method AddBatch(b: Batch, armFails: bool)
      modifies this`toWrite, this`listening, this`settled
      ensures Abs() == QueueSpec.AddBatch(old(Abs()), b, armFails)
    {
      ghost var was := Abs();
      var size := AdmittedCount(Abs(), b);
      var i, count := 0, 0;
      while i < |b.ids|
        invariant i <= |b.ids| && count == if i < size then i else size
        invariant Abs() == was.(toWrite := was.toWrite + Block(b, size, count))
      {
        if maxLength == 0 || |toWrite| + |waiting| + 1 <= maxLength {
          assert Block(b, size, count + 1) == Block(b, size, count) + [BatchCommand(b, size, count)];
          toWrite := toWrite + [BatchCommand(b, size, count)];
          count := count + 1;
        }
        i := i + 1;
      }
      if count > 0 {
        listening := listening + ListenersOf(BatchCommand(b, size, 0));
        if armFails {
          RejectCommand(|toWrite| - count, NotArmed);
        }
      }
    }

    // Removes the k-th command, and the members behind it if it is the head of a batch.
    method RejectCommand(k: nat, outcome: Outcome)
      requires k < |toWrite|
      modifies this`toWrite, this`listening, this`settled
      ensures Abs() == RejectAt(old(Abs()), k, outcome)
    {
      hide Settle, Deafen, Ids, MemberRun, RemoveAt;
      var c := toWrite[k];
      ghost var was := toWrite;
      listening := Deafen(listening, [c]);
      ghost var n := k + 1;  // the commands of `was` from k + 1 up to here are gone
      if IsHead(c) {
        n := RejectMembers(k, c.chain, outcome);
      } else {
        SettleNone(settled, outcome);
        NoIds(was, n);
        assert was[..k + 1] + was[n..] == was;
      }
      SettleTwice(old(settled), Ids(was[k + 1..n]), [c.id], outcome);
      SettleSwapped(old(settled), Ids(was[k + 1..n]), [c.id], outcome);
      IdsCons(was, k, n);
      BeforeCursor(was, k, n);
      toWrite := RemoveAt(toWrite, k);
      settled := Settle(settled, [c.id], outcome);
    }

    // The members behind a head at `k` go, up to the n-th command.
    method RejectMembers(k: nat, chain: Option<nat>, outcome: Outcome) returns (ghost n: nat)
      requires k < |toWrite|
      modifies this`toWrite, this`settled
      ensures n == k + 1 + MemberRun(old(toWrite)[k + 1..], chain) && n <= |old(toWrite)|
      ensures toWrite == old(toWrite)[..k + 1] + old(toWrite)[n..]
      ensures settled == Settle(old(settled), Ids(old(toWrite)[k + 1..n]), outcome)
    {
      hide Settle, Ids, MemberRun, RemoveAt;
      ghost var was := toWrite;
      n := k + 1;
      assert was[..k + 1] + was[n..] == was;
      SettleNone(settled, outcome);
      NoIds(was, n);
      while k + 1 < |toWrite| && IsMember(toWrite[k + 1]) && toWrite[k + 1].chain == chain
        invariant k + 1 <= n <= |was| && toWrite == was[..k + 1] + was[n..]
        invariant MemberRun(was[k + 1..], chain) == n - (k + 1) + MemberRun(was[n..], chain)
        invariant settled == Settle(old(settled), Ids(was[k + 1..n]), outcome)
        decreases |toWrite|
      {
        AtCursor(was[..k + 1], was, n);
        MemberRunStep(was, n, chain);
        IdsSnoc(was, k + 1, n);
        SettleTwice(old(settled), Ids(was[k + 1..n]), [was[n].id], outcome);
        settled := Settle(settled, [toWrite[k + 1].id], outcome);
        toWrite := RemoveAt(toWrite, k + 1);
        n := n + 1;
      }
      MemberRunEnds(was, n, chain);
    }

    // A timer or abort listener runs.
    method Fire(l: Listener)
      modifies this`toWrite, this`listening, this`settled
      ensures Abs() == QueueSpec.Fire(old(Abs()), l)
    {
      if l !in listening { return; }
      var outcome := if l.Timer? then TimedOut else AbortedBySignal;
      var k := Find(toWrite, l.id);
      if k == |toWrite| {
        listening := listening - {Timer(l.id), Abort(l.id)};
        settled := Settle(settled, [l.id], outcome);
      } else if IsBatchStarted(toWrite[k]) {
        listening := listening - {l};
      } else {
        RejectCommand(k, outcome);
      }
    }

    // What the writer gets next; it may do anything to the queue before it asks again.
    method CommandsToWrite() returns (written: Option<Command>)
      modifies this`toWrite, this`waiting, this`chainInExecution, this`listening, this`settled
      ensures (Abs(), written) == Write(old(Abs()))
    {
      while toWrite != []
        invariant Write(Abs()) == Write(old(Abs()))
        decreases |toWrite|
      {
        var c := toWrite[0];
        toWrite := toWrite[1..];
        if c.encodable {
          listening := Deafen(listening, [c]);
          chainInExecution := c.chain;
          ghost var before := waiting;
          if c.prelude {
            waiting := waiting + [Waiting(c.id, true, true, None)];
          }
          assert waiting + [Waiting(c.id, false, c.prelude, c.channels)] == before + Requests(c);
          waiting := waiting + [Waiting(c.id, false, c.prelude, c.channels)];
          return Some(c);
        }
        settled := Settle(settled, [c.id], Unencodable);
      }
      return None;
    }

    // `#onReply` and `#onErrorReply`; a reply to nothing is an exception.
    method OnReply(ok: bool) returns (thrown: bool)
      modifies this`waiting, this`settled, this`reported
      ensures thrown == (old(waiting) == [])
      ensures Abs() == if thrown then old(Abs()) else QueueSpec.OnReply(old(Abs()), ok)
    {
      if waiting == [] { return true; }
      var w := waiting[0];
      waiting := waiting[1..];
      if w.isPrelude {
        reported := reported[w.id := ok];
      } else {
        settled := Settle(settled, [w.id], if ok then Resolved else ErrorReply);
      }
      return false;
    }

    // `#onPush` on a message, and on a status reply to an (un)subscribe of named channels.
    method OnPush(isMessage: bool) returns (thrown: bool)
      modifies this`waiting, this`settled, this`reported
      ensures thrown == (!isMessage && old(waiting) == [])
      ensures Abs() == if thrown || isMessage then old(Abs()) else QueueSpec.OnStatusPush(old(Abs()))
    {
      if isMessage { return false; }
      if waiting == [] { return true; }
      var w := waiting[0];
      if w.channels == Some(1) {
        thrown := OnReply(true);
      } else {
        if w.channels.Some? && w.channels.value > 1 {
          waiting := [w.(channels := Some(w.channels.value - 1))] + waiting[1..];
        }
        thrown := false;
      }
    }

    method RejectWaiting()
      modifies this`waiting, this`settled, this`reported
      ensures Abs() == FlushWaiting(old(Abs()))
    {
      hide Settle, ReportFailure, Mains, Preludes;
      var i := 0;
      SettleNone(settled, ConnectionLost);
      ReportNone(reported);
      NothingWaiting();
      while i < |waiting|
        invariant i <= |waiting| && waiting == old(waiting)
        invariant settled == Settle(old(settled), Mains(waiting[..i]), ConnectionLost)
        invariant reported == ReportFailure(old(reported), Preludes(waiting[..i]))
      {
        var w := waiting[i];
        WaitingSnoc(waiting, i);
        SettleTwice(old(settled), Mains(waiting[..i]), [w.id], ConnectionLost);
        ReportOne(old(reported), Preludes(waiting[..i]), w.id);
        if w.isPrelude {
          reported := reported[w.id := false];
        } else {
          settled := Settle(settled, [w.id], ConnectionLost);
        }
        i := i + 1;
      }
      assert waiting[..i] == waiting;
      waiting := [];
    }

    // `flushWaitingForReply`, called when the connection is lost.
    method FlushWaitingForReply()
      modifies this
      ensures Abs() == LoseConnection(old(Abs()))
    {
      hide Settle, Deafen, Ids, ChainRun;
      RejectWaiting();
      if chainInExecution.None? { return; }
      ghost var was, before := toWrite, settled;
      ghost var n := 0;
      NoIds(was, 0);
      SettleNone(settled, ConnectionLost);
      DeafenNone(listening);
      assert was[..0] == [] && was[0..] == was;
      while toWrite != [] && toWrite[0].chain == chainInExecution
        invariant n <= |was| && toWrite == was[n..] && waiting == []
        invariant chainInExecution == old(chainInExecution) && reported == FlushWaiting(old(Abs())).reported
        invariant ChainRun(was, chainInExecution) == n + ChainRun(was[n..], chainInExecution)
        invariant settled == Settle(before, Ids(was[..n]), ConnectionLost)
        invariant listening == Deafen(old(listening), was[..n])
        decreases |toWrite|
      {
        var c := toWrite[0];
        ChainRunStep(was, n, chainInExecution);
        IdsSnoc(was, 0, n);
        SettleTwice(before, Ids(was[..n]), [c.id], ConnectionLost);
        DeafenTwice(old(listening), was[..n], [c]);
        toWrite := toWrite[1..];
        listening := Deafen(listening, [c]);
        settled := Settle(settled, [c.id], ConnectionLost);
        n := n + 1;
      }
      ChainRunEnds(was, n, chainInExecution);
      chainInExecution := None;
    }

    method FlushAll()
      modifies this
      ensures Abs() == QueueSpec.FlushAll(old(Abs()))
    {
      hide Settle, Deafen, Ids;
      RejectWaiting();
      ghost var before := settled;
      var i := 0;
      NoIds(toWrite, 0);
      SettleNone(settled, ConnectionLost);
      DeafenNone(listening);
      assert toWrite[..0] == [];
      while i < |toWrite|
        invariant i <= |toWrite| && toWrite == old(toWrite) && waiting == []
        invariant chainInExecution == old(chainInExecution) && reported == FlushWaiting(old(Abs())).reported
        invariant settled == Settle(before, Ids(toWrite[..i]), ConnectionLost)
        invariant listening == Deafen(old(listening), toWrite[..i])
      {
        var c := toWrite[i];
        IdsSnoc(toWrite, 0, i);
        SettleTwice(before, Ids(toWrite[..i]), [c.id], ConnectionLost);
        DeafenTwice(old(listening), toWrite[..i], [c]);
        listening := Deafen(listening, [c]);
        settled := Settle(settled, [c.id], ConnectionLost);
        i := i + 1;
      }
      assert toWrite[..i] == toWrite;
      toWrite := [];
    }

    method ExtractCommandsForSlots(slots: set<nat>) returns (result: seq<Command>)
      modifies this`toWrite, this`listening
      ensures (Abs(), result) == Extract(old(Abs()), slots)
    {
      hide Deafen, Select, Reach;
      ghost var was := toWrite;
      result := [];
      var current := 0;
      ghost var n := 0;  // commands of `was` looked at
      DeafenNone(listening);
      SelectNone(slots);
      assert was[..0] == [] && was[0..] == was;
      while current < |toWrite|
        invariant current <= |toWrite| && n <= |was|
        invariant toWrite == Select(was[..n], slots, false) + was[n..] && current == |Select(was[..n], slots, false)|
        invariant result == Select(was[..n], slots, true)
        invariant Reach(was, slots, chainInExecution) == n + Reach(was[n..], slots, chainInExecution)
        invariant listening == Deafen(old(listening), result)
        decreases |was| - n
      {
        var c := toWrite[current];
        AtCursor(Select(was[..n], slots, false), was, n);
        SelectSnoc(was, n, slots);
        if Targets(c, slots) && InExecution(c, chainInExecution) {
          break;
        }
        ReachStep(was, n, slots, chainInExecution);
        if Targets(c, slots) {
          DeafenTwice(old(listening), result, [c]);
          listening := Deafen(listening, [c]);
          result := result + [c];
          toWrite := RemoveAt(toWrite, current);
        } else {
          current := current + 1;
        }
        n := n + 1;
      }
      ReachEnds(was, n, slots, chainInExecution);
    }

    method PrependCommandsToWrite(commands: seq<Command>, fired: set<Listener>)
      modifies this`toWrite, this`listening, this`settled
      ensures Abs() == Prepend(old(Abs()), commands, fired)
    {
      var i := |commands|;
      assert commands[i..] == [];
      while i > 0
        invariant 0 <= i <= |commands| && Abs() == Prepend(old(Abs()), commands[i..], fired)
      {
        i := i - 1;
        var c := commands[i];
        assert commands[i..][1..] == commands[i + 1..];
        var k := InsertAtFront(c);
        if c.rejected {
          toWrite := RemoveAt(toWrite, k);
          continue;
        }
        if c.timer && Timer(c.id) in fired {
          RejectCommand(k, TimedOut);
          continue;
        }
        if c.abort && Abort(c.id) in fired {
          RejectCommand(k, AbortedBySignal);
          continue;
        }
        listening := listening + ListenersOf(c);
      }
      assert commands[0..] == commands;
    }
  }
}
