/** Which promise is settled how, and by what: replies, status pushes, signals and lost connections
    (packages/client/lib/client/commands-queue.ts:255-288, 364-415, 811-922). */
module QueueOutcomes {
  import opened Collections
  import opened QueueSpec
  import opened QueueRuns
  import opened QueueGuarantees

  // ---------------------------------------------------------------- every outcome has its cause

  // One of the arriving commands was cancelled on its way.
  predicate CancelledOnTheWay(op: Op, l: Listener) {
    op.Arrive? && l in op.fired && exists c <- op.cs :: c.id == l.id && (if l.Timer? then c.timer else c.abort)
  }

  predicate Signalled(s: System, op: Op, l: Listener) {
    (op == Signal(l) && l in s.q.listening) || CancelledOnTheWay(op, l)
  }

  /** The one reason for each outcome. */
  ghost predicate Causes(s: System, op: Op, id: nat, outcome: Outcome) {
    match outcome
    case Resolved =>
      && s.server != [] && s.server[0].id == id
      && ((op == Answer(true) && s.server[0].CommandReply?)
          || (op == StatusPush && s.server[0].StatusPushes? && s.server[0].left == 1))
    case ErrorReply => op == Answer(false) && s.server != [] && !s.server[0].PreludeReply? && s.server[0].id == id
    case ConnectionLost => op == Lose || op == Flush || (op.RejectOut? && id in op.ids)
    case TimedOut => exists head :: Signalled(s, op, Timer(head))
    case AbortedBySignal => exists head :: Signalled(s, op, Abort(head))
    case Unencodable => op == WriteNext && exists c <- s.q.toWrite :: c.id == id && !c.encodable
    case NotArmed => op.AddMany? && op.armFails && id in op.b.ids
  }

  // Nothing settled changes, and what is new has this outcome.
  predicate Adds(before: map<nat, Outcome>, after: map<nat, Outcome>, outcome: Outcome) {
    && (forall i <- before :: i in after && after[i] == before[i])
    && (forall i <- after :: i in before || after[i] == outcome)
  }

  lemma SettleAdds(settled: map<nat, Outcome>, ids: seq<nat>, outcome: Outcome)
    ensures Adds(settled, Settle(settled, ids, outcome), outcome)
    ensures Settle(settled, ids, outcome).Keys == settled.Keys + set x <- ids
  {
  }

  lemma LossAdds(q: Queue)
    ensures Adds(q.settled, LoseConnection(q).settled, ConnectionLost)
    ensures Adds(q.settled, FlushAll(q).settled, ConnectionLost)
    ensures Settle(q.settled, Mains(q.waiting), ConnectionLost).Keys <= LoseConnection(q).settled.Keys
    ensures Settle(q.settled, Mains(q.waiting), ConnectionLost).Keys <= FlushAll(q).settled.Keys
  {
    hide Settle, Ids, Mains, Deafen, Preludes;
    var settled := Settle(q.settled, Mains(q.waiting), ConnectionLost);
    SettleAdds(q.settled, Mains(q.waiting), ConnectionLost);
    SettleAdds(settled, Ids(q.toWrite[..ChainRun(q.toWrite, q.chainInExecution)]), ConnectionLost);
    SettleAdds(settled, Ids(q.toWrite), ConnectionLost);
  }

  lemma FireAdds(q: Queue, l: Listener)
    ensures Adds(q.settled, Fire(q, l).settled, if l.Timer? then TimedOut else AbortedBySignal)
    ensures l !in q.listening ==> Fire(q, l) == q
  {
    hide Settle, Ids, Deafen, Companions;
    var k, outcome := Find(q.toWrite, l.id), if l.Timer? then TimedOut else AbortedBySignal;
    SettleAdds(q.settled, [l.id], outcome);
    if k < |q.toWrite| { SettleAdds(q.settled, Ids(q.toWrite[k..k + 1 + Companions(q.toWrite, k)]), outcome); }
  }

  lemma {:induction false} WriteAdds(q: Queue)
    ensures Adds(q.settled, Write(q).0.settled, Unencodable)
    ensures forall i <- Write(q).0.settled :: i in q.settled || exists c <- q.toWrite :: c.id == i && !c.encodable
    decreases |q.toWrite|
  {
    if q.toWrite != [] && !q.toWrite[0].encodable {
      var c := q.toWrite[0];
      var q' := q.(toWrite := q.toWrite[1..], settled := Settle(q.settled, [c.id], Unencodable));
      SettleAdds(q.settled, [c.id], Unencodable);
      WriteAdds(q');
      assert c in q.toWrite && forall d <- q'.toWrite :: d in q.toWrite;
      hide Settle;
    }
  }

  lemma BatchAdds(q: Queue, b: Batch, armFails: bool)
    ensures Adds(q.settled, AddBatch(q, b, armFails).settled, NotArmed)
    ensures forall i <- AddBatch(q, b, armFails).settled :: i in q.settled || (armFails && i in b.ids)
  {
    hide Settle, Deafen, Companions;
    var n := AdmittedCount(q, b);
    if n > 0 && armFails {
      var s := q.toWrite + Block(b, n, n);
      var k, e := |q.toWrite|, |q.toWrite| + 1 + Companions(s, |q.toWrite|);
      SettleAdds(q.settled, Ids(s[k..e]), NotArmed);
      BlockIds(q.toWrite, b, n, e);
      hide Ids, Block;
    }
  }

  lemma BlockIds(t: seq<Command>, b: Batch, n: nat, e: nat)
    requires n <= |b.ids| && |t| <= e <= |t| + n
    ensures forall i <- Ids((t + Block(b, n, n))[|t|..e]) :: i in b.ids
  {
    var s := t + Block(b, n, n);
    forall j | 0 <= j < e - |t| ensures Ids(s[|t|..e])[j] in b.ids {
      assert s[|t| + j] == Block(b, n, n)[j];
    }
  }

  // A prepended command is settled only by a signal of an arriving one.
  predicate FromArrival(cs: seq<Command>, fired: set<Listener>, outcome: Outcome) {
    || (outcome == TimedOut && exists c <- cs :: c.timer && Timer(c.id) in fired)
    || (outcome == AbortedBySignal && exists c <- cs :: c.abort && Abort(c.id) in fired)
  }

  lemma PrependOneAdds(q: Queue, c: Command, fired: set<Listener>)
    ensures var after := PrependOne(q, c, fired).settled;
            && (forall i <- q.settled :: i in after && after[i] == q.settled[i])
            && forall i <- after :: i in q.settled || FromArrival([c], fired, after[i])
  {
    hide Settle, Ids, Deafen, Companions;
    var k := FrontIndex(q);
    var s := InsertAt(q.toWrite, k, c);
    SettleAdds(q.settled, Ids(s[k..k + 1 + Companions(s, k)]), TimedOut);
    SettleAdds(q.settled, Ids(s[k..k + 1 + Companions(s, k)]), AbortedBySignal);
    assert c in [c];
  }

  lemma {:induction false} PrependAdds(q: Queue, cs: seq<Command>, fired: set<Listener>)
    ensures var after := Prepend(q, cs, fired).settled;
            && (forall i <- q.settled :: i in after && after[i] == q.settled[i])
            && forall i <- after :: i in q.settled || FromArrival(cs, fired, after[i])
    decreases |cs|
  {
    if cs != [] {
      hide PrependOne;
      var q' := Prepend(q, cs[1..], fired);
      PrependAdds(q, cs[1..], fired);
      PrependOneAdds(q', cs[0], fired);
      assert cs[0] in cs && forall c <- cs[1..] :: c in cs;
    }
  }

  /** A settled promise stays as it is, and one that the step settles has its outcome for the reason above. */
  ghost predicate SettlesForCause(s: System, op: Op) {
    var after := Step(s, op).q.settled;
    && (forall i <- s.q.settled :: i in after && after[i] == s.q.settled[i])
    && forall i <- after :: i in s.q.settled || Causes(s, op, i, after[i])
  }

  lemma AnswerSettles(s: System, op: Op)
    requires Inv(s) && Legal(s, op) && (op.Answer? || op.StatusPush?)
    ensures SettlesForCause(s, op)
  {
    hide Conserved, Heard, Formed, Answerable, Settle, Mains;
    assert Awaits(s.q.waiting[0], s.server[0]);
    SettleAdds(s.q.settled, [s.q.waiting[0].id], if op.Answer? && !op.ok then ErrorReply else Resolved);
  }

  lemma ArrivalSettles(s: System, cs: seq<Command>, fired: set<Listener>)
    ensures SettlesForCause(s, Arrive(cs, fired))
  {
    hide Prepend;
    PrependAdds(s.q, cs, fired);
    var op := Arrive(cs, fired);
    if c :| c in cs && c.timer && Timer(c.id) in fired { assert Signalled(s, op, Timer(c.id)); }
    if c :| c in cs && c.abort && Abort(c.id) in fired { assert Signalled(s, op, Abort(c.id)); }
  }

  lemma SignalSettles(s: System, l: Listener)
    ensures SettlesForCause(s, Signal(l))
  {
    hide Fire;
    FireAdds(s.q, l);
    assert l in s.q.listening ==> Signalled(s, Signal(l), if l.Timer? then Timer(l.id) else Abort(l.id));
  }

  lemma LossSettles(s: System)
    ensures SettlesForCause(s, Lose) && SettlesForCause(s, Flush)
  {
    hide LoseConnection, FlushAll, Settle;
    LossAdds(s.q);
  }

  lemma RejectOutSettles(s: System, ids: seq<nat>)
    ensures SettlesForCause(s, RejectOut(ids))
  {
    hide Settle;
    SettleAdds(s.q.settled, ids, ConnectionLost);
  }

  lemma QueueingSettles(s: System, op: Op)
    requires op.Add? || op.Subscribe? || op.AddMany? || op.ExtractSlots? || op.MessagePush?
    ensures SettlesForCause(s, op)
  {
    hide AddToWrite, AddBatch, Extract, Ids, AdmittedCount, Admit;
    match op
    case Add(c, asap, _, _) => AddSettlesNothing(s.q, c, asap);
    case Subscribe(c, asap) => AddSettlesNothing(s.q, c, asap);
    case AddMany(b, armFails) => BatchAdds(s.q, b, armFails);
    case ExtractSlots(slots) => ExtractSettlesNothing(s.q, slots);
    case MessagePush =>
  }

  /** Every step settles for cause only, and undoes nothing. */
  lemma StepSettlesForCause(s: System, op: Op)
    requires Inv(s) && Legal(s, op)
    ensures SettlesForCause(s, op)
  {
    hide Inv, Legal, SettlesForCause;
    match op
    case WriteNext => WritingSettles(s);
    case Answer(_) => AnswerSettles(s, op);
    case StatusPush => AnswerSettles(s, op);
    case Signal(l) => SignalSettles(s, l);
    case Lose => LossSettles(s);
    case Flush => LossSettles(s);
    case Arrive(cs, fired) => ArrivalSettles(s, cs, fired);
    case RejectOut(ids) => RejectOutSettles(s, ids);
    case _ => QueueingSettles(s, op);
  }

  lemma WritingSettles(s: System)
    ensures SettlesForCause(s, WriteNext)
  {
    hide Write, Owed;
    WriteAdds(s.q);
  }

  lemma StepSettlesOne(s: System, op: Op, id: nat)
    requires SettlesForCause(s, op) && id in Step(s, op).q.settled
    ensures var outcome := Step(s, op).q.settled[id];
            if id in s.q.settled then s.q.settled[id] == outcome else Causes(s, op, id, outcome)
  {
    hide Step, Causes;
  }

  // The k-th step of the run has reason to settle the promise so.
  ghost predicate CausedAt(s: System, ops: seq<Op>, k: nat, id: nat, outcome: Outcome) {
    k < |ops| && Causes(Run(s, ops[..k]), ops[k], id, outcome)
  }

  /** In every run, a promise settled in some way was given reason for it by one of the steps. */
  lemma {:induction false} EveryOutcomeHasItsCause(maxLength: nat, ops: seq<Op>, id: nat)
    requires LegalRun(Init(maxLength), ops) && id in Run(Init(maxLength), ops).q.settled
    ensures exists k :: CausedAt(Init(maxLength), ops, k, id, Run(Init(maxLength), ops).q.settled[id])
    decreases |ops|
  {
    hide Step, Legal, Causes, Inv;
    if ops != [] {
      var k := |ops| - 1;
      var s := Run(Init(maxLength), ops[..k]);
      assert ops == ops[..k] + [ops[k]];
      RunAppend(Init(maxLength), ops[..k], [ops[k]]);
      RunOfOne(s, ops[k]);
      InitHasInv(maxLength);
      RunKeepsInv(Init(maxLength), ops[..k]);
      StepSettlesForCause(s, ops[k]);
      StepSettlesOne(s, ops[k], id);
      var outcome := Run(Init(maxLength), ops).q.settled[id];
      if id in s.q.settled {
        EveryOutcomeHasItsCause(maxLength, ops[..k], id);
        var j: nat :| CausedAt(Init(maxLength), ops[..k], j, id, outcome);
        assert ops[..k][..j] == ops[..j] && ops[..k][j] == ops[j];
        assert CausedAt(Init(maxLength), ops, j, id, outcome);
      } else {
        assert CausedAt(Init(maxLength), ops, k, id, outcome);
      }
    }
  }

  // ---------------------------------------------------------------- a lost connection

  /** Everything that waits for a reply is rejected with its connection, preludes included. Of what is
      queued, `Flush` rejects all, and `Lose` the commands in front that belong to the chain in execution. */
  lemma LossRejectsWhatWaits(s: System, op: Op)
    requires Inv(s) && (op == Lose || op == Flush)
    ensures var q' := Step(s, op).q;
            var n := |s.q.toWrite| - |q'.toWrite|;
            && q'.waiting == []
            && (forall w <- s.q.waiting | w.isPrelude :: w.id in q'.reported && !q'.reported[w.id])
            && (forall w <- s.q.waiting | !w.isPrelude :: w.id in q'.settled && q'.settled[w.id] == ConnectionLost)
            && 0 <= n && q'.toWrite == s.q.toWrite[n..]
            && (forall i :: 0 <= i < n ==>
                  s.q.toWrite[i].id in q'.settled && q'.settled[s.q.toWrite[i].id] == ConnectionLost)
            && (op == Flush ==> q'.toWrite == [])
            && (op == Lose ==>
                  && (forall i :: 0 <= i < n ==>
                        s.q.chainInExecution.Some? && s.q.toWrite[i].chain == s.q.chainInExecution)
                  && (q'.toWrite != [] && s.q.chainInExecution.Some? ==> q'.toWrite[0].chain != s.q.chainInExecution))
  {
    hide Heard, Formed, Ordered, Answerable, Settle, Mains, Deafen;
    LossAdds(s.q);
    SettleAdds(s.q.settled, Mains(s.q.waiting), ConnectionLost);
    forall w <- s.q.waiting | !w.isPrelude ensures w.id in Mains(s.q.waiting) && w.id !in s.q.settled {
      MainsHas(s.q.waiting, w);
      WaitingIsNotSettled(s.q, s.out, s.admitted, w.id);
    }
    LossSettlesTheFront(s, op);
  }

  lemma {:induction false} MainsHas(waiting: seq<Waiting>, w: Waiting)
    requires w in waiting && !w.isPrelude
    ensures w.id in Mains(waiting)
    decreases |waiting|
  {
    var k := |waiting| - 1;
    if w != waiting[k] { MainsHas(waiting[..k], w); }
  }

  lemma LossSettlesTheFront(s: System, op: Op)
    requires Conserved(s) && (op == Lose || op == Flush)
    ensures var q' := Step(s, op).q;
            var n := |s.q.toWrite| - |q'.toWrite|;
            && 0 <= n && q'.toWrite == s.q.toWrite[n..]
            && forall i :: 0 <= i < n ==>
                 s.q.toWrite[i].id in q'.settled && q'.settled[s.q.toWrite[i].id] == ConnectionLost
  {
    var t, q' := s.q.toWrite, Step(s, op).q;
    var n := |t| - |q'.toWrite|;
    LossAdds(s.q);
    forall i | 0 <= i < n ensures t[i].id in q'.settled && t[i].id !in s.q.settled {
      QueuedIsElsewhereNot(s.q, s.out, s.admitted, i);
      assert Ids(t[..n])[i] == t[i].id;
      assert t[..|t|] == t;
    }
  }
}
