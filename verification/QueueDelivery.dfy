/** A server that answers everything settles every command, each by its own answer
    (packages/client/lib/client/commands-queue.ts:255-288, 811-856). */
module QueueDelivery {
  import opened Collections
  import opened QueueSpec
  import opened QueueRuns
  import opened QueueGuarantees

  function Pushes(k: nat): seq<Op> { seq(k, _ => StatusPush) }

  // The answers that make up what is owed, all of them good.
  function Answers(d: Due): seq<Op> { if d.StatusPushes? then Pushes(d.left) else [Answer(true)] }

  function AnswersTo(owed: seq<Due>): seq<Op> {
    if owed == [] then [] else Answers(owed[0]) + AnswersTo(owed[1..])
  }

  // Of the first that is owed, `k` status pushes have come.
  ghost predicate Pushed(s: System, s': System, k: nat)
    requires s.server != [] && s.server[0].StatusPushes?
  {
    var d := s.server[0];
    && s'.q == s.q.(waiting := s'.q.waiting, settled := s'.q.settled) && s'.wire == s.wire
    && if k < d.left then s'.server == [d.(left := d.left - k)] + s.server[1..] && s'.q.settled == s.q.settled
       else s'.server == s.server[1..] && d.id !in s.q.settled && s'.q.settled == s.q.settled[d.id := Resolved]
  }

  lemma PushStep(s: System)
    requires Inv(s) && s.server != [] && s.server[0].StatusPushes?
    ensures s.server[0].left > 0 && Legal(s, StatusPush) && Pushed(s, Step(s, StatusPush), 1)
  {
    PushReachesItsOwn(s);
    hide Conserved, Heard, Formed, Answerable, Settle, Mains;
  }

  lemma {:induction false} PushesSettle(s: System, k: nat)
    requires Inv(s) && s.server != [] && s.server[0].StatusPushes? && k <= s.server[0].left
    ensures LegalRun(s, Pushes(k)) && Inv(Run(s, Pushes(k))) && s.server[0].left > 0
    ensures Pushed(s, Run(s, Pushes(k)), k)
    decreases k
  {
    PushStep(s);
    RunPushes(s, k);
    hide Inv, Step, Legal, Run, LegalRun, Pushes, Pushed;
    if k == 0 {
      PushedNone(s);
    } else {
      var s' := Step(s, StatusPush);
      StepKeepsInv(s, StatusPush);
      if k == 1 {
        RunPushes(s', 0);
      } else {
        PushedLeaves(s, s');
        PushesSettle(s', k - 1);
        PushedTwice(s, s', Run(s', Pushes(k - 1)), k);
      }
    }
  }

  lemma RunPushes(s: System, k: nat)
    ensures k == 0 ==> Run(s, Pushes(k)) == s && LegalRun(s, Pushes(k))
    ensures k > 0 ==> Run(s, Pushes(k)) == Run(Step(s, StatusPush), Pushes(k - 1))
    ensures k > 0 ==> (LegalRun(s, Pushes(k)) <==> Legal(s, StatusPush) && LegalRun(Step(s, StatusPush), Pushes(k - 1)))
  {
    hide Step, Legal;
    if k > 0 { assert Pushes(k)[0] == StatusPush && Pushes(k)[1..] == Pushes(k - 1); }
  }

  lemma PushedNone(s: System)
    requires s.server != [] && s.server[0].StatusPushes? && s.server[0].left > 0
    ensures Pushed(s, s, 0)
  {
    assert [s.server[0]] + s.server[1..] == s.server;
  }

  lemma PushedLeaves(s: System, s': System)
    requires s.server != [] && s.server[0].StatusPushes? && 1 < s.server[0].left && Pushed(s, s', 1)
    ensures s'.server == [s.server[0].(left := s.server[0].left - 1)] + s.server[1..]
  {
  }

  lemma PushedTwice(s: System, s1: System, s2: System, k: nat)
    requires s.server != [] && s.server[0].StatusPushes? && 1 < k <= s.server[0].left && Pushed(s, s1, 1)
    requires Pushed(s1, s2, k - 1)
    ensures Pushed(s, s2, k)
  {
  }

  // What is owed first is answered, and only that.
  ghost predicate Answered(s: System, s': System)
    requires s.server != []
  {
    var d := s.server[0];
    && s'.server == s.server[1..] && s'.wire == s.wire
    && s'.q == s.q.(waiting := s'.q.waiting, settled := s'.q.settled, reported := s'.q.reported)
    && (d.PreludeReply? ==> s'.q.settled == s.q.settled && s'.q.reported == s.q.reported[d.id := true])
    && (!d.PreludeReply? ==>
          d.id !in s.q.settled && s'.q.settled == s.q.settled[d.id := Resolved] && s'.q.reported == s.q.reported)
  }

  lemma AnswerOne(s: System)
    requires Inv(s) && s.server != []
    ensures LegalRun(s, Answers(s.server[0])) && Inv(Run(s, Answers(s.server[0])))
    ensures Answered(s, Run(s, Answers(s.server[0])))
  {
    if s.server[0].StatusPushes? {
      PushesSettle(s, s.server[0].left);
    } else {
      assert Legal(s, Answer(true));
      StepKeepsInv(s, Answer(true));
      AnswerReachesItsOwn(s, true);
      RunOfOne(s, Answer(true));
      AnswerTakesOne(s);
    }
  }

  lemma AnswerTakesOne(s: System)
    requires Inv(s) && s.server != []
    ensures var s' := Step(s, Answer(true));
            && s'.server == s.server[1..] && s'.wire == s.wire
            && s'.q == s.q.(waiting := s'.q.waiting, settled := s'.q.settled, reported := s'.q.reported)
  {
  }

  // What these dues stand for has come out well.
  ghost predicate Delivered(q: Queue, owed: seq<Due>) {
    forall d <- owed ::
      if d.PreludeReply? then d.id in q.reported && q.reported[d.id] else d.id in q.settled && q.settled[d.id] == Resolved
  }

  // Nothing delivered is undone.
  ghost predicate Later(q: Queue, q': Queue) {
    && (forall i <- q.settled :: i in q'.settled && q'.settled[i] == q.settled[i])
    && (forall i <- q.reported :: i in q'.reported && (q.reported[i] ==> q'.reported[i]))
  }

  /** Once the server has answered everything it owes, nothing waits, and all of it has come out well. */
  lemma {:induction false} AllAnswersDeliver(s: System)
    requires Inv(s)
    ensures LegalRun(s, AnswersTo(s.server))
    ensures var s' := Run(s, AnswersTo(s.server));
            && s'.server == [] && s'.q.waiting == [] && s'.q.toWrite == s.q.toWrite
            && Delivered(s'.q, s.server) && Later(s.q, s'.q)
    decreases |s.server|
  {
    if s.server != [] {
      AnswerOne(s);
      var s1 := Run(s, Answers(s.server[0]));
      RunAppend(s, Answers(s.server[0]), AnswersTo(s.server[1..]));
      AnsweredIsDelivered(s, s1);
      hide Inv, Run, LegalRun, Answers, Answered, Delivered, Later;
      AllAnswersDeliver(s1);
      DeliveredAlso(s.q, s1.q, Run(s1, AnswersTo(s.server[1..])).q, s.server);
    }
  }

  lemma AnsweredIsDelivered(s: System, s1: System)
    requires s.server != [] && Answered(s, s1)
    ensures s1.server == s.server[1..] && s1.q.toWrite == s.q.toWrite
    ensures Later(s.q, s1.q) && Delivered(s1.q, [s.server[0]])
  {
  }

  lemma DeliveredAlso(q: Queue, q1: Queue, q2: Queue, owed: seq<Due>)
    requires owed != [] && Later(q, q1) && Later(q1, q2) && Delivered(q1, [owed[0]]) && Delivered(q2, owed[1..])
    ensures Later(q, q2) && Delivered(q2, owed)
  {
    assert owed[0] in [owed[0]] && owed == [owed[0]] + owed[1..];
  }

  // ---------------------------------------------------------------- what is queued

  lemma WriteOwes(s: System)
    requires Inv(s) && s.q.toWrite != [] && s.q.toWrite[0].encodable
    ensures var s' := Step(s, WriteNext);
            && Legal(s, WriteNext) && s'.server == s.server + Owed(s.q.toWrite[0]) && s'.q.toWrite == s.q.toWrite[1..]
            && s'.q.settled == s.q.settled && s'.q.reported == s.q.reported
  {
    hide Inv, Owed;
  }

  lemma {:induction false} OwedForHead(w: seq<Command>)
    requires w != []
    ensures OwedFor(w) == Owed(w[0]) + OwedFor(w[1..])
    decreases |w|
  {
    var k := |w| - 1;
    if k > 0 {
      OwedForHead(w[..k]);
      assert w[..k][1..] == w[1..][..k - 1];
      hide Owed;
    }
  }

  lemma {:induction false} WritesOwe(s: System)
    requires Inv(s) && forall c <- s.q.toWrite :: c.encodable
    ensures var s' := Run(s, Writes(|s.q.toWrite|));
            && LegalRun(s, Writes(|s.q.toWrite|)) && Inv(s') && s'.q.toWrite == []
            && s'.server == s.server + OwedFor(s.q.toWrite)
            && s'.q.settled == s.q.settled && s'.q.reported == s.q.reported
    decreases |s.q.toWrite|
  {
    var k := |s.q.toWrite|;
    hide Inv, Step, Legal, Run, LegalRun, Writes, Owed;
    RunWrites(s, k);
    if k == 0 {
      assert s.server + [] == s.server;
    } else {
      WriteOwes(s);
      StepKeepsInv(s, WriteNext);
      OwedForHead(s.q.toWrite);
      ConcatAssociates(s.server, Owed(s.q.toWrite[0]), OwedFor(s.q.toWrite[1..]));
      hide OwedFor;
      WritesOwe(Step(s, WriteNext));
    }
  }

  lemma RunWrites(s: System, k: nat)
    ensures k == 0 ==> Run(s, Writes(k)) == s && LegalRun(s, Writes(k))
    ensures k > 0 ==> Run(s, Writes(k)) == Run(Step(s, WriteNext), Writes(k - 1))
    ensures k > 0 ==> (LegalRun(s, Writes(k)) <==> Legal(s, WriteNext) && LegalRun(Step(s, WriteNext), Writes(k - 1)))
  {
    hide Step, Legal;
    if k > 0 { assert Writes(k)[0] == WriteNext && Writes(k)[1..] == Writes(k - 1); }
  }

  lemma {:induction false} OwedForEach(w: seq<Command>, c: Command)
    requires c in w
    ensures forall d <- Owed(c) :: d in OwedFor(w)
    decreases |w|
  {
    var k := |w| - 1;
    if c != w[k] { OwedForEach(w[..k], c); }
  }

  /** Write everything that is queued, and let the server answer all it owes: every queued command, if it
      encodes, and everything that waited, is resolved, and every prelude told so. */
  lemma HealthyConnectionResolvesEverything(s: System)
    requires Inv(s) && forall c <- s.q.toWrite :: c.encodable
    ensures var ops := Writes(|s.q.toWrite|) + AnswersTo(s.server + OwedFor(s.q.toWrite));
            var q' := Run(s, ops).q;
            && LegalRun(s, ops) && q'.toWrite == [] && q'.waiting == [] && Delivered(q', s.server)
            && forall c <- s.q.toWrite ::
                 && c.id in q'.settled && q'.settled[c.id] == Resolved
                 && (c.prelude ==> c.id in q'.reported && q'.reported[c.id])
  {
    WritesOwe(s);
    var s1 := Run(s, Writes(|s.q.toWrite|));
    AllAnswersDeliver(s1);
    RunAppend(s, Writes(|s.q.toWrite|), AnswersTo(s1.server));
    var q' := Run(s1, AnswersTo(s1.server)).q;
    hide Inv, Run, LegalRun, OwedFor, AnswersTo;
    forall c <- s.q.toWrite
      ensures c.id in q'.settled && q'.settled[c.id] == Resolved
      ensures c.prelude ==> c.id in q'.reported && q'.reported[c.id]
    {
      OwedForEach(s.q.toWrite, c);
      assert forall d <- Owed(c) :: d in s1.server;
      assert Owed(c)[|Owed(c)| - 1] in Owed(c) && Owed(c)[0] in Owed(c);
    }
  }

  /** A subscription of n channels, written when nothing waits, is settled by the n-th status push that
      follows, and not before. */
  lemma SubscriptionIsSettledByItsLastPush(s: System, c: Command, k: nat)
    requires Inv(s) && s.q.waiting == [] && s.q.toWrite != [] && s.q.toWrite[0] == c && c.encodable
    requires c.channels.Some? && !c.prelude && k <= c.channels.value
    ensures var ops := [WriteNext] + Pushes(k);
            var q' := Run(s, ops).q;
            && LegalRun(s, ops)
            && if k < c.channels.value then c.id !in q'.settled && |q'.waiting| == 1
               else c.id in q'.settled && q'.settled[c.id] == Resolved && q'.waiting == []
  {
    WriteOwes(s);
    StepKeepsInv(s, WriteNext);
    var s1 := Step(s, WriteNext);
    RunOfOne(s, WriteNext);
    RunAppend(s, [WriteNext], Pushes(k));
    assert s1.server == [StatusPushes(c.id, false, c.channels.value)];
    PushesSettle(s1, k);
    var s2 := Run(s1, Pushes(k));
    assert |s2.q.waiting| == |s2.server|;
    QueuedIsElsewhereNot(s.q, s.out, s.admitted, 0);
  }
}
