/** Whole runs of the pool, without `_rejectQueued` (packages/client/lib/client/pool.ts:440-639, 690-800). */
module PoolRuns {
  import opened Collections
  import opened PoolSpec

  datatype Op =
    | Connecting
    | Ready(client: Client)
    | Failing(client: Client)
    | Executing
    | Finishing(client: Client)
    | GivingUp(task: Task)
    | Terminating(client: Client)
    | Cleaning
    | ClosingPool
    | CloseGoesOn
    | Destroying

  predicate Legal(p: Pool, op: Op) {
    match op
    case Ready(client) => client in p.connecting
    case Failing(client) => client in p.connecting
    case Finishing(client) => client in p.leases
    case _ => true
  }

  function Step(p: Pool, op: Op): Pool
    requires Legal(p, op)
  {
    match op
    case Connecting => Connect(p)
    case Ready(client) => Connected(p, client)
    case Failing(client) => ConnectFailed(p, client)
    case Executing => Execute(p)
    case Finishing(client) => Finish(p, client)
    case GivingUp(task) => GiveUp(p, task)
    case Terminating(client) => p.(terminated := p.terminated + {client})
    case Cleaning => Cleanup(p)
    case ClosingPool => Close(p)
    case CloseGoesOn => DoClose(p)
    case Destroying => Destroy(p)
  }

  predicate LegalRun(p: Pool, ops: seq<Op>)
    decreases |ops|
  {
    ops == [] || (Legal(p, ops[0]) && LegalRun(Step(p, ops[0]), ops[1..]))
  }

  function Run(p: Pool, ops: seq<Op>): Pool
    requires LegalRun(p, ops)
    decreases |ops|
  {
    if ops == [] then p else Run(Step(p, ops[0]), ops[1..])
  }

  // ---------------------------------------------------------------- what holds in every run

  /** Every member is in one place: idle, or in use, and then connecting or leased to one task. */
  ghost predicate Placed(p: Pool) {
    && Distinct(p.idle) && Distinct(p.inUse) && Elements(p.idle) !! Elements(p.inUse)
    && Elements(p.idle) !! p.leases.Keys + p.connecting.Keys && p.leases.Keys !! p.connecting.Keys
    && Elements(p.inUse) == p.leases.Keys + p.connecting.Keys - p.destroyed
  }

  /** What was destroyed is in no list. Closed members stay in the idle list until the close is over. */
  ghost predicate Gone(p: Pool) {
    && p.destroyed <= p.ended
    && p.ended !! Elements(p.inUse) && (p.stage != ClosingMembers ==> p.ended !! Elements(p.idle))
    && p.destroyed !! Elements(p.idle)
    && (forall c <- p.idle :: c < p.nextClient) && (forall c <- p.inUse :: c < p.nextClient)
    && (forall c <- p.ended :: c < p.nextClient)
    && (forall c <- p.leases :: c < p.nextClient) && (forall c <- p.connecting :: c < p.nextClient)
  }

  predicate Bounded(p: Pool) { Total(p) <= if p.minimum < p.maximum then p.maximum else p.minimum }

  /** A pool that is not open has no members. */
  predicate Stages(p: Pool) {
    && (!p.isOpen ==> p.idle == [] && p.inUse == [] && p.stage == NotClosing)
    && (p.stage == Draining ==> p.inUse != [])
    && (p.stage == Drained ==> p.inUse == [] && p.tasks == [])
    && (p.stage == ClosingMembers ==> p.inUse == [])
  }

  ghost predicate Increasing(s: seq<nat>) { forall i, j :: 0 <= i < j < |s| ==> s[i] < s[j] }

  /** No task waits while a member is idle; tasks are numbered in the order of submission. */
  ghost predicate Queued(p: Pool) {
    && (p.tasks != [] ==> p.idle == [])
    && Increasing(p.started) && Increasing(p.tasks)
    && (forall t, u | t in p.started && u in p.tasks :: t < u)
    && (forall t <- p.started :: t < p.nextTask) && (forall t <- p.tasks :: t < p.nextTask)
    && LeasesApart(p.leases, p.started)
  }

  /** A leased member runs a task that has started, and no two of them the same. */
  ghost predicate LeasesApart(leases: map<Client, Task>, started: seq<Task>) {
    && (forall c <- leases :: leases[c] in started)
    && (forall c, d | c in leases && d in leases :: leases[c] == leases[d] ==> c == d)
  }

  ghost predicate Inv(p: Pool) { Placed(p) && Gone(p) && Bounded(p) && Stages(p) && Queued(p) }

  // ---------------------------------------------------------------- lists

  lemma ConsDistinct(x: nat, s: seq<nat>)
    ensures Distinct([x] + s) <==> Distinct(s) && x !in s
    ensures Elements([x] + s) == {x} + Elements(s)
  {
    var t := [x] + s;
    assert forall i :: 0 <= i < |s| ==> s[i] == t[i + 1];
    assert x in s ==> exists i :: 0 <= i < |s| && s[i] == x && t[i + 1] == t[0];
  }

  lemma {:induction false} RemovedElements(s: seq<nat>, x: nat)
    requires Distinct(s)
    ensures Distinct(RemoveFirst(s, x)) && Elements(RemoveFirst(s, x)) == Elements(s) - {x}
    ensures forall y <- RemoveFirst(s, x) :: y in s && y != x
    ensures |RemoveFirst(s, x)| == |s| - if x in s then 1 else 0
  {
    if s != [] {
      assert s == [s[0]] + s[1..];
      ConsDistinct(s[0], s[1..]);
      if s[0] == x {
        assert x !in Elements(s[1..]);
      } else {
        RemovedElements(s[1..], x);
        ConsDistinct(s[0], RemoveFirst(s[1..], x));
        assert s[0] !in Elements(RemoveFirst(s[1..], x));
      }
    }
  }

  lemma {:induction false} RemovedIncreasing(s: seq<nat>, x: nat)
    requires Increasing(s)
    ensures Increasing(RemoveFirst(s, x)) && forall y <- RemoveFirst(s, x) :: y in s
  {
    if s != [] && s[0] != x {
      RemovedIncreasing(s[1..], x);
      ConsIncreasing(s[0], RemoveFirst(s[1..], x));
      assert forall y <- s[1..] :: y in s && s[0] < y;
    }
  }

  lemma ConsIncreasing(x: nat, s: seq<nat>)
    ensures Increasing(s) && (forall y <- s :: x < y) ==> Increasing([x] + s)
    ensures forall y <- [x] + s :: y == x || y in s
  {
    assert forall i :: 0 <= i < |s| ==> s[i] in s;
  }

  lemma AppendDistinct(s: seq<nat>, x: nat)
    requires Distinct(s) && x !in s
    ensures Distinct(s + [x]) && Elements(s + [x]) == Elements(s) + {x}
  {
  }

  lemma SuffixDistinct(s: seq<nat>, k: nat)
    requires Distinct(s) && k <= |s|
    ensures Distinct(s[k..]) && Elements(s[k..]) == Elements(s) - Elements(s[..k])
  {
    assert s == s[..k] + s[k..];
    forall i | k <= i < |s| ensures s[i] !in s[..k] {}
    assert forall x :: x in s <==> x in s[..k] || x in s[k..];
    assert forall x <- s[k..] :: x !in s[..k];
  }

  lemma AppendIncreasing(s: seq<nat>, x: nat)
    requires Increasing(s) && forall y <- s :: y < x
    ensures Increasing(s + [x])
  {
    assert forall i :: 0 <= i < |s| ==> s[i] in s;
  }

  // ---------------------------------------------------------------- growing and leasing

  // What a new member does, where there is room for one.
  lemma CreateKeeps(p: Pool, replacement: bool)
    requires Placed(p) && Gone(p) && Stages(p) && Queued(p) && p.isOpen
    requires p.stage == NotClosing || p.stage == Requested || p.stage == Draining
    ensures var p' := Create(p, replacement);
            Placed(p') && Gone(p') && Stages(p') && Queued(p') && Total(p') == Total(p) + 1
  {
    AppendDistinct(p.inUse, p.nextClient);
  }

  lemma {:induction false} CreateManyKeeps(p: Pool, n: nat)
    requires Placed(p) && Gone(p) && Stages(p) && Queued(p) && p.isOpen && p.stage == NotClosing
    ensures var p' := CreateMany(p, n);
            && Placed(p') && Gone(p') && Stages(p') && Queued(p') && Total(p') == Total(p) + n
            && p'.isOpen && p'.stage == NotClosing && p'.minimum == p.minimum && p'.maximum == p.maximum
  {
    if n > 0 {
      CreateManyKeeps(p, n - 1);
      CreateKeeps(CreateMany(p, n - 1), false);
    }
  }

  lemma ConnectKeeps(p: Pool)
    requires Inv(p)
    ensures Inv(Connect(p))
  {
    if !p.isOpen {
      CreateManyKeeps(p.(isOpen := true), p.minimum);
    }
  }

  // ---------------------------------------------------------------- returning a member

  // A member in use that is neither connecting nor leased, between two steps.
  ghost predicate Returning(p: Pool, client: Client) {
    && Distinct(p.idle) && Distinct(p.inUse) && Elements(p.idle) !! Elements(p.inUse)
    && Elements(p.idle) !! p.leases.Keys + p.connecting.Keys && p.leases.Keys !! p.connecting.Keys
    && client !in p.leases && client !in p.connecting && client !in p.idle && client < p.nextClient
    && Elements(p.inUse) == p.leases.Keys + p.connecting.Keys + {client} - p.destroyed
    && Gone(p) && Bounded(p) && Stages(p) && Queued(p)
  }

  lemma ReturnReplaced(p: Pool, client: Client)
    requires Returning(p, client) && client !in p.destroyed && client in p.terminated
    ensures Inv(Return(p, client))
  {
    RemovedElements(p.inUse, client);
    assert client in Elements(p.inUse);
    var p' := p.(inUse := RemoveFirst(p.inUse, client), ended := p.ended + {client});
    if p.tasks != [] {
      AppendDistinct(p'.inUse, p.nextClient);
    }
  }

  lemma HeadStarts(p: Pool, client: Client)
    requires Queued(p) && p.tasks != [] && client !in p.leases
    ensures Queued(Lease(p.(tasks := p.tasks[1..]), client, p.tasks[0]))
  {
    hide Increasing, LeasesApart;
    var t := p.tasks[0];
    assert t in p.tasks;
    TailIncreasing(p.tasks);
    AppendIncreasing(p.started, t);
    LaterLease(p.leases, p.started, client, t);
  }

  lemma TailIncreasing(s: seq<nat>)
    requires Increasing(s) && s != []
    ensures Increasing(s[1..]) && forall y <- s[1..] :: s[0] < y && y in s
  {
  }

  // A task later than all that have started is leased to no other member.
  lemma LaterLease(leases: map<Client, Task>, started: seq<Task>, client: Client, t: Task)
    requires LeasesApart(leases, started) && client !in leases && forall s <- started :: s < t
    ensures LeasesApart(leases[client := t], started + [t])
  {
  }

  lemma ReturnLeased(p: Pool, client: Client)
    requires Returning(p, client) && client !in p.destroyed && client !in p.terminated && p.tasks != []
    ensures Inv(Return(p, client))
  {
    assert client in Elements(p.inUse);
    HeadStarts(p, client);
    assert client in Elements(p.inUse);
    hide Queued;
  }

  lemma ReturnIdle(p: Pool, client: Client)
    requires Returning(p, client) && client !in p.destroyed && client !in p.terminated && p.tasks == []
    ensures Inv(Return(p, client))
  {
    RemovedElements(p.inUse, client);
    AppendDistinct(p.idle, client);
    assert client in Elements(p.inUse);
  }

  lemma ReturnKeeps(p: Pool, client: Client)
    requires Returning(p, client)
    ensures Inv(Return(p, client))
  {
    if client in p.destroyed {
    } else if client in p.terminated {
      ReturnReplaced(p, client);
    } else if p.tasks != [] {
      ReturnLeased(p, client);
    } else {
      ReturnIdle(p, client);
    }
  }

  lemma ConnectedKeeps(p: Pool, client: Client)
    requires Inv(p) && client in p.connecting
    ensures Inv(Connected(p, client))
  {
    ReturnKeeps(p.(connecting := p.connecting - {client}), client);
  }

  lemma FinishKeeps(p: Pool, client: Client)
    requires Inv(p) && client in p.leases
    ensures Inv(Finish(p, client))
  {
    ReturnKeeps(p.(leases := p.leases - {client}), client);
  }

  lemma ConnectFailedKeeps(p: Pool, client: Client)
    requires Inv(p) && client in p.connecting
    ensures Inv(ConnectFailed(p, client))
  {
    RemovedElements(p.inUse, client);
    assert client !in p.destroyed ==> client in Elements(p.inUse);
    hide RemoveFirst, Increasing;
  }

  // ---------------------------------------------------------------- the other steps

  // Idle members that are destroyed leave the list from its front.
  lemma IdleShrinks(p: Pool, k: nat)
    requires Inv(p) && k <= |p.idle|
    ensures Inv(p.(idle := p.idle[k..], ended := p.ended + Elements(p.idle[..k])))
  {
    SuffixDistinct(p.idle, k);
    forall c <- p.idle[..k] ensures c in p.idle && c in Elements(p.idle) {}
    forall c <- p.idle[k..] ensures c in p.idle && c in Elements(p.idle) {}
  }

  lemma Submitted(p: Pool)
    requires Inv(p)
    ensures Inv(p.(nextTask := p.nextTask + 1))
  {
  }

  lemma TaskWaits(p: Pool)
    requires Inv(p) && p.idle == [] && p.isOpen && !Closing(p)
    ensures Inv(p.(nextTask := p.nextTask + 1, tasks := p.tasks + [p.nextTask]))
  {
    AppendIncreasing(p.tasks, p.nextTask);
    hide Increasing;
    PlacesOnly(p.(nextTask := p.nextTask + 1), p.(nextTask := p.nextTask + 1, tasks := p.tasks + [p.nextTask]));
  }

  lemma StartedIsLast(p: Pool, c: Client)
    requires Queued(p) && p.tasks == [] && c !in p.leases
    ensures Queued(Lease(p.(nextTask := p.nextTask + 1), c, p.nextTask))
  {
    LaterLease(p.leases, p.started, c, p.nextTask);
    AppendIncreasing(p.started, p.nextTask);
    hide Increasing;
  }

  lemma TaskStarts(p: Pool)
    requires Inv(p) && p.idle != [] && p.isOpen && !Closing(p)
    ensures Inv(Lease(p.(nextTask := p.nextTask + 1, idle := p.idle[1..], inUse := p.inUse + [p.idle[0]]),
                      p.idle[0], p.nextTask))
  {
    var c := p.idle[0];
    assert c in p.idle && c in Elements(p.idle) && Elements(p.idle[..1]) == {c};
    SuffixDistinct(p.idle, 1);
    AppendDistinct(p.inUse, c);
    StartedIsLast(p, c);
    forall d <- p.idle[1..] ensures d in p.idle {}
  }

  lemma ExecuteKeeps(p: Pool)
    requires Inv(p)
    ensures Inv(Execute(p))
  {
    if Closing(p) || !p.isOpen {
      Submitted(p);
    } else {
      var k := Terminated(p.idle, p.terminated);
      var p' := p.(idle := p.idle[k..], ended := p.ended + Elements(p.idle[..k]));
      IdleShrinks(p, k);
      hide Inv, Terminated;
      if k == |p.idle| {
        TaskQueues(p');
      } else {
        TaskStarts(p');
        assert p'.idle[1..] == p.idle[k + 1..];
      }
    }
  }

  // The task waits, and the pool grows if it may.
  lemma TaskQueues(p: Pool)
    requires Inv(p) && p.idle == [] && p.isOpen && !Closing(p)
    ensures var queued := p.(nextTask := p.nextTask + 1, tasks := p.tasks + [p.nextTask]);
            Inv(if Total(queued) < p.maximum then Create(queued, false) else queued)
  {
    TaskWaits(p);
    hide Placed, Gone, Queued;
    var queued := p.(nextTask := p.nextTask + 1, tasks := p.tasks + [p.nextTask]);
    if Total(queued) < p.maximum { CreateKeeps(queued, false); }
  }

  lemma GiveUpKeeps(p: Pool, task: Task)
    requires Inv(p)
    ensures Inv(GiveUp(p, task))
  {
    RemovedIncreasing(p.tasks, task);
    hide Placed, Gone;
    assert Placed(GiveUp(p, task)) && Gone(GiveUp(p, task)) by { PlacesOnly(p, GiveUp(p, task)); }
  }

  // Nothing changes but which tasks wait.
  lemma PlacesOnly(p: Pool, p': Pool)
    requires p' == p.(tasks := p'.tasks)
    ensures (Placed(p) ==> Placed(p')) && (Gone(p) ==> Gone(p'))
  {
  }

  lemma CleanupKeeps(p: Pool)
    requires Inv(p)
    ensures Inv(Cleanup(p))
  {
    var n := if Total(p) <= p.minimum then 0
             else if |p.idle| < Total(p) - p.minimum then |p.idle| else Total(p) - p.minimum;
    hide Placed, Gone, Queued;
    IdleShrinks(p, n);
  }

  lemma CloseKeeps(p: Pool)
    requires Inv(p)
    ensures Inv(Close(p))
  {
  }

  lemma CloseGoesOnKeeps(p: Pool)
    requires Inv(p)
    ensures Inv(DoClose(p))
  {
  }

  lemma DestroyKeeps(p: Pool)
    requires Inv(p)
    ensures Inv(Destroy(p))
  {
  }

  lemma StepKeepsInv(p: Pool, op: Op)
    requires Inv(p) && Legal(p, op)
    ensures Inv(Step(p, op))
  {
    match op
    case Connecting => ConnectKeeps(p);
    case Ready(client) => ConnectedKeeps(p, client);
    case Failing(client) => ConnectFailedKeeps(p, client);
    case Executing => ExecuteKeeps(p);
    case Finishing(client) => FinishKeeps(p, client);
    case GivingUp(task) => GiveUpKeeps(p, task);
    case Terminating(client) =>
    case Cleaning => CleanupKeeps(p);
    case ClosingPool => CloseKeeps(p);
    case CloseGoesOn => CloseGoesOnKeeps(p);
    case Destroying => DestroyKeeps(p);
  }

  lemma {:induction false} RunKeepsInv(p: Pool, ops: seq<Op>)
    requires Inv(p) && LegalRun(p, ops)
    ensures Inv(Run(p, ops))
    decreases |ops|
  {
    if ops != [] {
      hide Inv, Step, Legal;
      StepKeepsInv(p, ops[0]);
      RunKeepsInv(Step(p, ops[0]), ops[1..]);
    }
  }

  // ---------------------------------------------------------------- what callers can rely on

  lemma EmptyIsSafe(minimum: nat, maximum: nat)
    ensures Inv(Empty(minimum, maximum))
  {
  }

  /** At every moment of every run: a member is idle, connecting or leased to one task, and no other; the
      pool is no larger than it may be; no task waits while a member is idle; and tasks have started in
      the order in which they were submitted, those that wait coming after all that have started. */
  lemma PoolIsSafe(minimum: nat, maximum: nat, ops: seq<Op>)
    requires LegalRun(Empty(minimum, maximum), ops)
    ensures var p := Run(Empty(minimum, maximum), ops);
            && (forall c <- p.idle :: c !in p.inUse && c !in p.leases && c !in p.connecting)
            && (forall c <- p.inUse :: c !in p.destroyed && (c in p.leases <==> c !in p.connecting))
            && (forall c, d | c in p.leases && d in p.leases :: p.leases[c] == p.leases[d] ==> c == d)
            && Distinct(p.idle) && Distinct(p.inUse)
            && |p.idle| + |p.inUse| <= (if minimum < maximum then maximum else minimum)
            && (p.tasks != [] ==> p.idle == [])
            && Increasing(p.started) && Increasing(p.tasks) && forall t, u | t in p.started && u in p.tasks :: t < u
  {
    EmptyIsSafe(minimum, maximum);
    RunKeepsInv(Empty(minimum, maximum), ops);
    RunKeepsLimits(Empty(minimum, maximum), ops);
    var p := Run(Empty(minimum, maximum), ops);
    hide Run, LegalRun;
    forall c <- p.idle ensures c in Elements(p.idle) {}
    forall c <- p.inUse ensures c in Elements(p.inUse) {}
  }

  lemma {:induction false} CreateManyLimits(p: Pool, n: nat)
    ensures CreateMany(p, n).minimum == p.minimum && CreateMany(p, n).maximum == p.maximum
  {
    if n > 0 { CreateManyLimits(p, n - 1); }
  }

  lemma {:induction false} RunKeepsLimits(p: Pool, ops: seq<Op>)
    requires LegalRun(p, ops)
    ensures Run(p, ops).minimum == p.minimum && Run(p, ops).maximum == p.maximum
    decreases |ops|
  {
    if ops != [] {
      hide Step, Legal;
      StepKeepsLimits(p, ops[0]);
      RunKeepsLimits(Step(p, ops[0]), ops[1..]);
    }
  }

  lemma StepKeepsLimits(p: Pool, op: Op)
    requires Legal(p, op)
    ensures Step(p, op).minimum == p.minimum && Step(p, op).maximum == p.maximum
  {
    CreateManyLimits(p.(isOpen := true), p.minimum);
    if op.Ready? { ReturnLimits(p.(connecting := p.connecting - {op.client}), op.client); }
    if op.Finishing? { ReturnLimits(p.(leases := p.leases - {op.client}), op.client); }
    hide Return, CreateMany;
  }

  lemma ReturnLimits(p: Pool, client: Client)
    ensures Return(p, client).minimum == p.minimum && Return(p, client).maximum == p.maximum
  {
  }

  /** Cleaning up never takes the pool below its minimum, and takes no member in use. */
  lemma CleanupStopsAtTheMinimum(p: Pool)
    ensures var p' := Cleanup(p);
            && p'.inUse == p.inUse
            && Total(p') == if Total(p) <= p.minimum then Total(p)
                            else if |p.inUse| < p.minimum then p.minimum else |p.inUse|
  {
  }

  /** A close is told of the drain only with nothing in use and nothing waiting, and it is never left to
      wait for nothing. */
  lemma DrainIsSignalledWhenQuiet(p: Pool, op: Op)
    requires Inv(p) && Legal(p, op)
    ensures var p' := Step(p, op);
            && (p'.stage == Drained ==> p'.inUse == [] && p'.tasks == [])
            && (p'.stage == Draining ==> p'.inUse != [])
            && (p'.stage == ClosingMembers ==> p'.inUse == [])
  {
    StepKeepsInv(p, op);
  }

  /** A task keeps its member until it is over, whatever happens meanwhile. */
  lemma LeaseIsKept(p: Pool, op: Op, c: Client)
    requires Inv(p) && Legal(p, op) && c in p.leases && op != Finishing(c)
    ensures c in Step(p, op).leases && Step(p, op).leases[c] == p.leases[c]
  {
    if op.Connecting? && !p.isOpen { CreateManyLeases(p.(isOpen := true), p.minimum); }
    if op.Executing? { ExecuteLeases(p, c); }
  }

  // Executing leases at most the idle member it takes.
  lemma ExecuteLeases(p: Pool, c: Client)
    requires Inv(p)
    ensures c in p.leases ==> c in Execute(p).leases && Execute(p).leases[c] == p.leases[c]
    ensures c in Execute(p).leases ==> c in p.leases || c in Execute(p).inUse
  {
    var k := Terminated(p.idle, p.terminated);
    assert k < |p.idle| ==> p.idle[k] in Elements(p.idle);
    hide Terminated, Gone, Queued;
  }

  // A member that is returned and not destroyed starts a task only if it stays in use.
  lemma ReturnLeases(p: Pool, client: Client, c: Client)
    requires client in p.destroyed || client in p.inUse
    requires c in Return(p, client).leases
    ensures c in Return(p, client).inUse || (c in p.leases && Return(p, client).leases[c] == p.leases[c])
  {
  }

  // Only a member in use starts a task.
  lemma LeasesAreInUse(p: Pool, op: Op, c: Client)
    requires Inv(p) && Legal(p, op) && c in Step(p, op).leases
    ensures c in Step(p, op).inUse || (c in p.leases && Step(p, op).leases[c] == p.leases[c])
  {
    InUseOrDestroyed(p);
    if op.Executing? { ExecuteLeases(p, c); }
    hide Inv, Return, Execute;
    match op
    case Connecting => if !p.isOpen { CreateManyLeases(p.(isOpen := true), p.minimum); }
    case Ready(client) => ReturnLeases(p.(connecting := p.connecting - {client}), client, c);
    case Finishing(client) => ReturnLeases(p.(leases := p.leases - {client}), client, c);
    case _ =>
  }

  lemma InUseOrDestroyed(p: Pool)
    requires Inv(p)
    ensures forall c :: c in p.leases || c in p.connecting ==> c in p.inUse || c in p.destroyed
  {
    assert forall c :: c in Elements(p.inUse) <==> (c in p.leases || c in p.connecting) && c !in p.destroyed;
  }

  lemma {:induction false} CreateManyLeases(p: Pool, n: nat)
    ensures CreateMany(p, n).leases == p.leases && CreateMany(p, n).ended == p.ended
  {
    if n > 0 { CreateManyLeases(p, n - 1); }
  }

  lemma EndedStays(p: Pool, op: Op)
    requires Legal(p, op)
    ensures p.ended <= Step(p, op).ended
  {
    if op.Connecting? && !p.isOpen { CreateManyLeases(p.(isOpen := true), p.minimum); }
  }

  /** A member that was destroyed or closed takes no other task, ever, and is never in use again; it is
      idle only while the close that closed it goes on. */
  lemma {:induction false} MembersNeverComeBack(p: Pool, ops: seq<Op>, c: Client)
    requires Inv(p) && LegalRun(p, ops) && c in p.ended
    ensures var p' := Run(p, ops);
            && c in p'.ended && c !in p'.inUse && (c in p'.idle ==> p'.stage == ClosingMembers)
            && (c in p'.leases ==> c in p.leases && p'.leases[c] == p.leases[c])
    decreases |ops|
  {
    if ops == [] {
      assert c in p.idle ==> c in Elements(p.idle);
      assert c in p.inUse ==> c in Elements(p.inUse);
    } else {
      var p1 := Step(p, ops[0]);
      StepKeepsInv(p, ops[0]);
      EndedStays(p, ops[0]);
      MembersNeverComeBack(p1, ops[1..], c);
      if c in p1.leases {
        LeasesAreInUse(p, ops[0], c);
        assert c in p1.inUse ==> c in Elements(p1.inUse);
      }
    }
  }
}
