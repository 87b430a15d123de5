/** What the pool does for its callers: members stay and are used again, tasks are served, and nothing
    is dropped without need (packages/client/lib/client/pool.ts:440-639, 690-800). */
module PoolService {
  import opened Collections
  import opened PoolSpec
  import opened PoolRuns

  predicate IsMember(p: Pool, c: Client) { c in p.idle || c in p.inUse }

  // What takes a member away that was not terminated: its connection fails, or the pool lets it go.
  predicate LetsGo(p: Pool, op: Op, c: Client) {
    op == Failing(c) || op == Cleaning || op == Destroying || (op == CloseGoesOn && p.stage == ClosingMembers)
  }

  lemma RemovedKeepsOthers(s: seq<nat>, x: nat, c: nat)
    requires Distinct(s)
    ensures c in RemoveFirst(s, x) <==> c in s && c != x
  {
    RemovedElements(s, x);
    assert c in RemoveFirst(s, x) <==> c in Elements(RemoveFirst(s, x));
  }

  lemma ReturnKeepsMembers(p: Pool, client: Client, c: Client)
    requires Distinct(p.inUse) && IsMember(p, c) && c !in p.terminated
    ensures IsMember(Return(p, client), c)
  {
    RemovedKeepsOthers(p.inUse, client, c);
    hide RemoveFirst;
  }

  lemma ExecuteKeepsMembers(p: Pool, c: Client)
    requires IsMember(p, c) && c !in p.terminated
    ensures IsMember(Execute(p), c)
  {
    var k := Terminated(p.idle, p.terminated);
    if c in p.idle {
      var i :| 0 <= i < |p.idle| && p.idle[i] == c;
      assert k <= i;
      hide Terminated;
      assert k < i ==> p.idle[k + 1..][i - (k + 1)] == c;
    }
    hide Terminated;
  }

  /** A member that was not terminated stays in the pool through every step but the failure of its own
      connection, a cleanup, the end of a close, and `destroy`. */
  lemma MembersStay(p: Pool, op: Op, c: Client)
    requires Inv(p) && Legal(p, op) && IsMember(p, c) && c !in p.terminated && !LetsGo(p, op, c)
    ensures IsMember(Step(p, op), c)
  {
    match op
    case Connecting => hide Inv; assert p.isOpen by { NotOpenIsEmpty(p); }
    case Ready(client) => ReturnKeepsMembers(p.(connecting := p.connecting - {client}), client, c);
    case Finishing(client) => ReturnKeepsMembers(p.(leases := p.leases - {client}), client, c);
    case Failing(client) => RemovedKeepsOthers(p.inUse, client, c);
    case Executing => ExecuteKeepsMembers(p, c);
    case _ =>
  }

  lemma NotOpenIsEmpty(p: Pool)
    requires Inv(p)
    ensures !p.isOpen ==> p.idle == [] && p.inUse == []
  {
  }

  /** A member that is connected, or has finished its task, and is still good: it takes the first task
      that waits, or goes idle, last in line. */
  lemma ReturnedMemberServes(p: Pool, op: Op, c: Client)
    requires Inv(p) && Legal(p, op) && (op == Ready(c) || op == Finishing(c))
    requires c !in p.terminated && c !in p.destroyed
    ensures var p' := Step(p, op);
            if p.tasks == [] then
              && p'.idle == p.idle + [c] && (forall d :: d in p'.inUse <==> d in p.inUse && d != c)
              && p'.tasks == [] && p'.started == p.started
            else
              && p'.idle == p.idle && p'.inUse == p.inUse && c in p'.leases && p'.leases[c] == p.tasks[0]
              && p'.tasks == p.tasks[1..] && p'.started == p.started + [p.tasks[0]]
  {
    forall d ensures d in RemoveFirst(p.inUse, c) <==> d in p.inUse && d != c {
      RemovedKeepsOthers(p.inUse, c, d);
    }
    hide RemoveFirst, Inv;
  }

  /** A terminated one leaves, and if a task waits a new member is made in its place. */
  lemma ReturnedMemberIsReplaced(p: Pool, op: Op, c: Client)
    requires Inv(p) && Legal(p, op) && (op == Ready(c) || op == Finishing(c))
    requires c in p.terminated && c !in p.destroyed
    ensures var p' := Step(p, op);
            && !IsMember(p', c) && c in p'.ended && p'.tasks == p.tasks && p'.idle == p.idle
            && (p.tasks != [] ==> p.nextClient in p'.inUse && p.nextClient in p'.connecting && p'.connecting[p.nextClient])
  {
    RemovedKeepsOthers(p.inUse, c, c);
    assert c in Elements(p.inUse) && c !in Elements(p.idle);
    assert c < p.nextClient;
    hide RemoveFirst, Inv;
  }

  // ---------------------------------------------------------------- opening the pool

  function Readies(cs: seq<Client>): seq<Op> { seq(|cs|, i requires 0 <= i < |cs| => Ready(cs[i])) }

  lemma RunReadies(p: Pool, cs: seq<Client>)
    requires cs != [] && cs[0] in p.connecting
    ensures LegalRun(p, Readies(cs)) <==> LegalRun(Step(p, Ready(cs[0])), Readies(cs[1..]))
    ensures LegalRun(p, Readies(cs)) ==> Run(p, Readies(cs)) == Run(Step(p, Ready(cs[0])), Readies(cs[1..]))
  {
    hide Step;
    assert Readies(cs)[0] == Ready(cs[0]) && Readies(cs)[1..] == Readies(cs[1..]);
  }

  // Members that may be made ready.
  predicate Coming(p: Pool, cs: seq<Client>) {
    && Distinct(cs) && p.tasks == [] && p.stage == NotClosing
    && forall c <- cs :: c in p.connecting && c !in p.terminated && c !in p.destroyed
  }

  lemma {:induction false} AllReady(p: Pool, cs: seq<Client>)
    requires Inv(p) && Coming(p, cs)
    ensures LegalRun(p, Readies(cs)) && Run(p, Readies(cs)).idle == p.idle + cs
    decreases |cs|
  {
    if cs == [] {
      assert p.idle + [] == p.idle;
    } else {
      var p' := Step(p, Ready(cs[0]));
      StepKeepsInv(p, Ready(cs[0]));
      ReturnedMemberServes(p, Ready(cs[0]), cs[0]);
      assert Coming(p', cs[1..]) by { StillComing(p, cs); }
      RunReadies(p, cs);
      hide Inv, Step, Coming, Readies;
      AllReady(p', cs[1..]);
      assert p.idle + [cs[0]] + cs[1..] == p.idle + cs;
    }
  }

  lemma StillComing(p: Pool, cs: seq<Client>)
    requires Coming(p, cs) && cs != []
    ensures Coming(Step(p, Ready(cs[0])), cs[1..])
  {
    hide RemoveFirst;
    assert forall c <- cs[1..] :: c in cs && c != cs[0];
  }

  lemma {:induction false} CreateManyMakes(p: Pool, n: nat)
    ensures var p' := CreateMany(p, n);
            && p' == p.(inUse := p'.inUse, connecting := p'.connecting, nextClient := p.nextClient + n)
            && |p'.inUse| == |p.inUse| + n
            && forall c :: c in p'.connecting <==> c in p.connecting || p.nextClient <= c < p.nextClient + n
  {
    if n > 0 { CreateManyMakes(p, n - 1); }
  }

  /** `connect` makes the minimum of members; once they are connected, in whatever order, all are idle. */
  lemma OpenedPoolHasItsMinimum(p: Pool, cs: seq<Client>)
    requires Inv(p) && !p.isOpen && p.tasks == []
    requires Distinct(cs) && forall c :: c in cs <==> p.nextClient <= c < p.nextClient + p.minimum
    requires forall c <- cs :: c !in p.terminated
    ensures var p1 := Step(p, Connecting);
            && p1.isOpen && |p1.inUse| == p.minimum && p1.idle == []
            && LegalRun(p1, Readies(cs)) && Run(p1, Readies(cs)).idle == cs
  {
    var p1 := Step(p, Connecting);
    CreateManyMakes(p.(isOpen := true), p.minimum);
    StepKeepsInv(p, Connecting);
    NotOpenIsEmpty(p);
    forall c <- cs ensures c in p1.connecting && c !in p1.destroyed {
      NewIsNotDestroyed(p, c);
    }
    assert Coming(p1, cs) by { NotOpenIsCalm(p); }
    AllReady(p1, cs);
    assert [] + cs == cs;
  }

  lemma NewIsNotDestroyed(p: Pool, c: Client)
    requires Inv(p) && c >= p.nextClient
    ensures c !in p.destroyed && c !in p.ended
  {
  }

  lemma NotOpenIsCalm(p: Pool)
    requires Inv(p) && !p.isOpen
    ensures p.stage == NotClosing
  {
  }

  // ---------------------------------------------------------------- tasks

  // All idle members in front of the k-th were terminated, and it was not.
  predicate FirstGood(p: Pool, k: nat) {
    && k < |p.idle| && p.idle[k] !in p.terminated && forall i :: 0 <= i < k ==> p.idle[i] in p.terminated
  }

  /** A task submitted to an open pool is taken by the first good idle member; if there is none it waits,
      last in line, and a member is made for it if there is room. */
  lemma ExecuteServes(p: Pool)
    requires Inv(p) && p.isOpen && !Closing(p)
    ensures var p' := Execute(p);
            && (forall k: nat :: FirstGood(p, k) ==>
                  && p.idle[k] in p'.leases && p'.leases[p.idle[k]] == p.nextTask && p.idle[k] in p'.inUse
                  && p'.started == p.started + [p.nextTask] && p'.idle == p.idle[k + 1..] && p'.tasks == p.tasks)
            && ((forall c <- p.idle :: c in p.terminated) ==>
                  && p'.tasks == p.tasks + [p.nextTask] && p'.started == p.started && p'.idle == []
                  && p'.inUse == p.inUse + (if |p.inUse| < p.maximum then [p.nextClient] else []))
  {
    var n := Terminated(p.idle, p.terminated);
    forall k: nat | FirstGood(p, k) ensures k == n {}
    assert n < |p.idle| ==> p.idle[n] in p.idle;
    hide Inv, Terminated;
  }

  /** Every step starts the tasks it starts behind those that started before. A task that waits goes on
      waiting or starts, unless it gives up, the pool is destroyed, or the member that failed was the last
      to wait for. */
  lemma TasksWaitOrStart(p: Pool, op: Op, t: Task)
    requires Inv(p) && Legal(p, op)
    ensures var p' := Step(p, op);
            && |p.started| <= |p'.started| && p'.started[..|p.started|] == p.started
            && (t in p.tasks ==>
                  t in p'.tasks || t in p'.started || op == GivingUp(t) || op == Destroying || GaveUpAll(p, op))
  {
    match op
    case Connecting => CreateManyLeaves(p.(isOpen := true), p.minimum);
    case GivingUp(task) => GivenUp(p, task, t);
    case Ready(client) => ReturnServesTasks(p.(connecting := p.connecting - {client}), client, t);
    case Finishing(client) => ReturnServesTasks(p.(leases := p.leases - {client}), client, t);
    case _ => hide Inv, Terminated;
  }

  // With no other member in use, a closing pool, or one whose replacement failed, gives its tasks up.
  predicate GaveUpAll(p: Pool, op: Op) {
    && op.Failing? && op.client in p.connecting && op.client !in p.destroyed
    && (Closing(p) || p.connecting[op.client]) && forall c <- p.inUse :: c == op.client
  }

  lemma ReturnServesTasks(p: Pool, client: Client, t: Task)
    ensures var p' := Return(p, client);
            && |p.started| <= |p'.started| && p'.started[..|p.started|] == p.started
            && (t in p.tasks ==> t in p'.tasks || t in p'.started)
  {
    if p.tasks != [] { assert p.tasks == [p.tasks[0]] + p.tasks[1..]; }
    hide RemoveFirst;
  }

  lemma {:induction false} CreateManyLeaves(p: Pool, n: nat)
    ensures CreateMany(p, n).tasks == p.tasks && CreateMany(p, n).started == p.started
  {
    if n > 0 { CreateManyLeaves(p, n - 1); }
  }

  /** Giving up takes that task and no other; the rest keeps its order. */
  lemma GivenUp(p: Pool, task: Task, t: Task)
    requires Inv(p)
    ensures t in GiveUp(p, task).tasks <==> t in p.tasks && t != task
    ensures Increasing(GiveUp(p, task).tasks)
  {
    IncreasingIsDistinct(p.tasks);
    RemovedKeepsOthers(p.tasks, task, t);
    RemovedIncreasing(p.tasks, task);
  }

  lemma IncreasingIsDistinct(s: seq<nat>)
    requires Increasing(s)
    ensures Distinct(s)
  {
  }

  /** A connection that fails takes its member; the tasks that wait are given up exactly when the pool is
      closing, or the member was a replacement, and no other member is in use. */
  lemma FailureGivesUpExactlyWhenNobodyIsLeft(p: Pool, c: Client)
    requires Inv(p) && Legal(p, Failing(c)) && c !in p.destroyed
    ensures var p' := Step(p, Failing(c));
            && !IsMember(p', c) && p'.idle == p.idle && c !in p'.connecting
            && p'.tasks == if GaveUpAll(p, Failing(c)) then [] else p.tasks
  {
    forall d ensures d in RemoveFirst(p.inUse, c) <==> d in p.inUse && d != c {
      RemovedKeepsOthers(p.inUse, c, d);
    }
    var left := RemoveFirst(p.inUse, c);
    assert left == [] || left[0] in left;
    assert c !in Elements(p.idle);
    hide RemoveFirst, Inv;
  }

  // ---------------------------------------------------------------- members that leave

  // While its members are being closed, what is idle has ended.
  predicate ClosesAll(p: Pool) { p.stage == ClosingMembers ==> forall c <- p.idle :: c in p.ended }

  lemma StepClosesAll(p: Pool, op: Op)
    requires Inv(p) && Legal(p, op) && ClosesAll(p)
    ensures ClosesAll(Step(p, op))
  {
    match op
    case Connecting => CreateManyMakes(p.(isOpen := true), p.minimum);
    case Ready(client) => if p.stage == ClosingMembers { NobodyReturns(p, client); }
    case Finishing(client) => if p.stage == ClosingMembers { NobodyReturns(p, client); }
    case Cleaning => assert p.idle == p.idle[..|p.idle|];
    case _ => hide Inv, RemoveFirst;
  }

  // Members in use when a close ends were destroyed.
  lemma NobodyReturns(p: Pool, client: Client)
    requires Inv(p) && p.stage == ClosingMembers && (client in p.connecting || client in p.leases)
    ensures client in p.destroyed
  {
    assert p.inUse == [] && client !in Elements(p.inUse);
  }

  /** No member is forgotten: one that leaves the pool has been closed or destroyed, unless its connection
      has failed. Cleaning up takes the members that are idle longest. */
  lemma NoMemberIsForgotten(p: Pool, op: Op, c: Client)
    requires Inv(p) && Legal(p, op) && ClosesAll(p) && IsMember(p, c)
    ensures var p' := Step(p, op);
            && (IsMember(p', c) || c in p'.ended || op == Failing(c))
            && (op == Cleaning ==> |p'.idle| <= |p.idle| && p'.idle == p.idle[|p.idle| - |p'.idle|..])
  {
    match op
    case Connecting => NotOpenIsEmpty(p);
    case Ready(client) => ReturnForgetsNobody(p.(connecting := p.connecting - {client}), client, c);
    case Finishing(client) => ReturnForgetsNobody(p.(leases := p.leases - {client}), client, c);
    case Failing(client) => RemovedKeepsOthers(p.inUse, client, c);
    case Executing => ExecuteForgetsNobody(p, c);
    case Cleaning => if c in p.idle { CutForgetsNobody(p.idle, |p.idle| - |Cleanup(p).idle|, c); }
    case _ => ClosingForgetsNobody(p, op, c);
  }

  lemma ClosingForgetsNobody(p: Pool, op: Op, c: Client)
    requires ClosesAll(p) && IsMember(p, c) && (p.stage == ClosingMembers ==> p.inUse == [])
    requires op.GivingUp? || op.Terminating? || op.ClosingPool? || op.CloseGoesOn? || op.Destroying?
    ensures IsMember(Step(p, op), c) || c in Step(p, op).ended
  {
    assert c in Elements(p.idle) + Elements(p.inUse);
    hide RemoveFirst;
  }

  lemma ReturnForgetsNobody(p: Pool, client: Client, c: Client)
    requires Distinct(p.inUse) && IsMember(p, c)
    ensures IsMember(Return(p, client), c) || c in Return(p, client).ended
  {
    RemovedKeepsOthers(p.inUse, client, c);
    hide RemoveFirst;
  }

  lemma CutForgetsNobody(s: seq<Client>, k: nat, c: Client)
    requires k <= |s| && c in s
    ensures c in s[k..] || c in Elements(s[..k])
  {
    assert s == s[..k] + s[k..];
  }

  lemma ExecuteForgetsNobody(p: Pool, c: Client)
    requires IsMember(p, c)
    ensures IsMember(Execute(p), c) || c in Execute(p).ended
  {
    var k := Terminated(p.idle, p.terminated);
    if c in p.idle {
      CutForgetsNobody(p.idle, k, c);
      assert k < |p.idle| ==> p.idle[k..] == [p.idle[k]] + p.idle[k + 1..];
    }
    hide Terminated;
  }

  lemma {:induction false} RunClosesAll(p: Pool, ops: seq<Op>)
    requires Inv(p) && LegalRun(p, ops) && ClosesAll(p)
    ensures Inv(Run(p, ops)) && ClosesAll(Run(p, ops))
    decreases |ops|
  {
    if ops != [] {
      hide Inv, Step, Legal, ClosesAll;
      StepKeepsInv(p, ops[0]);
      StepClosesAll(p, ops[0]);
      RunClosesAll(Step(p, ops[0]), ops[1..]);
    }
  }

  /** In every run, whoever leaves the pool has been closed or destroyed, unless its connection failed. */
  lemma NobodyIsForgottenInARun(minimum: nat, maximum: nat, ops: seq<Op>, op: Op, c: Client)
    requires LegalRun(Empty(minimum, maximum), ops) && Legal(Run(Empty(minimum, maximum), ops), op)
    requires IsMember(Run(Empty(minimum, maximum), ops), c)
    ensures var p' := Step(Run(Empty(minimum, maximum), ops), op);
            IsMember(p', c) || c in p'.ended || op == Failing(c)
  {
    EmptyIsSafe(minimum, maximum);
    RunClosesAll(Empty(minimum, maximum), ops);
    NoMemberIsForgotten(Run(Empty(minimum, maximum), ops), op, c);
  }

  // ---------------------------------------------------------------- a close ends

  /** Asked to close, an open pool with members in use drains, and one without closes its members; once
      that is done it is not open, and has none. */
  lemma CloseGetsThere(p: Pool)
    requires Inv(p) && p.isOpen && (p.stage == NotClosing || p.stage == Drained)
    ensures var p1 := if p.stage == NotClosing then Step(p, ClosingPool) else p;
            var p2 := Step(p1, CloseGoesOn);
            && (p.inUse != [] ==> p2 == p.(stage := Draining))
            && (p.inUse == [] ==>
                  && Step(p2, CloseGoesOn) == p.(stage := NotClosing, isOpen := false, idle := [], inUse := [],
                                                  ended := Step(p2, CloseGoesOn).ended)
                  && forall c <- p.idle :: c in Step(p2, CloseGoesOn).ended)
  {
  }

  /** While a close drains, it is the last member in use that signals the end, by going idle, leaving or
      failing, when no task is left. */
  lemma TheLastOneSignals(p: Pool, op: Op, c: Client)
    requires Inv(p) && Legal(p, op) && p.stage == Draining && c !in p.destroyed
    requires op == Failing(c) || ((op == Ready(c) || op == Finishing(c)) && p.tasks == [])
    ensures Step(p, op).stage == Drained <==> forall d <- p.inUse :: d == c
  {
    forall d ensures d in RemoveFirst(p.inUse, c) <==> d in p.inUse && d != c {
      RemovedKeepsOthers(p.inUse, c, d);
    }
    var left := RemoveFirst(p.inUse, c);
    assert left == [] || left[0] in left;
    hide RemoveFirst, Inv;
  }
}
