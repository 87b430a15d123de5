/** What each step of `RedisClientPool` does (packages/client/lib/client/pool.ts:440-639, 690-800). */
module PoolSpec {
  type Client = nat
  type Task = nat

  /** How far the `close()` of the current epoch has come: asked for, waiting for the drain, told that it
      is over, closing the members. */
  datatype Stage = NotClosing | Requested | Draining | Drained | ClosingMembers

  /** Clients and tasks are numbered. `leases` are tasks that run, `connecting` members that
      connect, and whether each replaces another one; both may hold members that `destroy` tore down.
      `ended` are the members that were destroyed or closed, `started` lists tasks in the order in which
      they started. */
  datatype Pool = Pool(
    minimum: nat,
    maximum: nat,
    idle: seq<Client>,
    inUse: seq<Client>,
    tasks: seq<Task>,
    isOpen: bool,
    stage: Stage,
    destroyCount: nat,
    terminated: set<Client>,
    destroyed: set<Client>,
    nextClient: nat,
    nextTask: nat,
    leases: map<Client, Task>,
    connecting: map<Client, bool>,
    ended: set<Client>,
    started: seq<Task>)

  function Empty(minimum: nat, maximum: nat): Pool {
    Pool(minimum, maximum, [], [], [], false, NotClosing, 0, {}, {}, 0, 0, map[], map[], {}, [])
  }

  function Total(p: Pool): nat { |p.idle| + |p.inUse| }

  predicate Closing(p: Pool) { p.stage != NotClosing }

  function Elements(s: seq<nat>): set<nat> { set x <- s }

  function RemoveFirst(s: seq<nat>, x: nat): seq<nat> {
    if s == [] then [] else if s[0] == x then s[1..] else [s[0]] + RemoveFirst(s[1..], x)
  }

  /** `#create`, up to the connection. */
  function Create(p: Pool, replacement: bool): Pool {
    p.(inUse := p.inUse + [p.nextClient], connecting := p.connecting[p.nextClient := replacement],
       nextClient := p.nextClient + 1)
  }

  function CreateMany(p: Pool, n: nat): Pool { if n == 0 then p else Create(CreateMany(p, n - 1), false) }

  function Connect(p: Pool): Pool { if p.isOpen then p else CreateMany(p.(isOpen := true), p.minimum) }

  // `#drainResolve`, if a close waits for it.
  function Signal(p: Pool): Pool { if p.stage == Draining then p.(stage := Drained) else p }

  function Lease(p: Pool, client: Client, task: Task): Pool {
    p.(leases := p.leases[client := task], started := p.started + [task])
  }

  /** `#returnClient` */
  function Return(p: Pool, client: Client): Pool {
    if client in p.destroyed then p
    else if client in p.terminated then
      var p' := p.(inUse := RemoveFirst(p.inUse, client), ended := p.ended + {client});
      if p.tasks != [] then Create(p', true)
      else if Closing(p) && p'.inUse == [] then Signal(p')
      else p'
    else if p.tasks != [] then Lease(p.(tasks := p.tasks[1..]), client, p.tasks[0])
    else
      var p' := p.(inUse := RemoveFirst(p.inUse, client), idle := p.idle + [client]);
      if Closing(p) && p'.inUse == [] then Signal(p') else p'
  }

  function Connected(p: Pool, client: Client): Pool
    requires client in p.connecting
  {
    Return(p.(connecting := p.connecting - {client}), client)
  }

  /** The connection failed: with no member left to take them, a closing pool gives its tasks up. */
  function ConnectFailed(p: Pool, client: Client): Pool
    requires client in p.connecting
  {
    var p' := p.(connecting := p.connecting - {client});
    if client in p.destroyed then p'
    else
      var p'' := p'.(inUse := RemoveFirst(p.inUse, client));
      if (Closing(p) || p.connecting[client]) && p''.inUse == [] then Signal(p''.(tasks := [])) else p''
  }

  // The idle members before the first that was not terminated.
  function Terminated(idle: seq<Client>, terminated: set<Client>): (k: nat)
    ensures k <= |idle| && (k < |idle| ==> idle[k] !in terminated)
    ensures forall i :: 0 <= i < k ==> idle[i] in terminated
  {
    if idle == [] || idle[0] !in terminated then 0 else 1 + Terminated(idle[1..], terminated)
  }

  /** `execute`: an idle member takes it, or it waits, and the pool may grow. */
  function Execute(p: Pool): Pool {
    var task := p.nextTask;
    var p' := p.(nextTask := task + 1);
    if Closing(p) || !p.isOpen then p'
    else
      var k := Terminated(p.idle, p.terminated);
      var p'' := p'.(idle := p.idle[k..], ended := p.ended + Elements(p.idle[..k]));
      if k == |p.idle| then
        var queued := p''.(tasks := p.tasks + [task]);
        if Total(queued) < p.maximum then Create(queued, false) else queued
      else
        var client := p.idle[k];
        Lease(p''.(idle := p.idle[k + 1..], inUse := p.inUse + [client]), client, task)
  }

  // A task is over, whatever its outcome.
  function Finish(p: Pool, client: Client): Pool
    requires client in p.leases
  {
    Return(p.(leases := p.leases - {client}), client)
  }

  // A task waited too long, or the member made for it failed to connect.
  function GiveUp(p: Pool, task: Task): Pool { p.(tasks := RemoveFirst(p.tasks, task)) }

  function Cleanup(p: Pool): Pool {
    var n := if Total(p) <= p.minimum then 0
             else if |p.idle| < Total(p) - p.minimum then |p.idle| else Total(p) - p.minimum;
    p.(idle := p.idle[n..], ended := p.ended + Elements(p.idle[..n]))
  }

  function Close(p: Pool): Pool { if Closing(p) || !p.isOpen then p else p.(stage := Requested) }

  function CloseMembers(p: Pool): Pool { p.(stage := ClosingMembers, ended := p.ended + Elements(p.idle)) }

  /** `#doClose` of the current epoch, from one of its `await`s to the next. */
  function DoClose(p: Pool): Pool {
    match p.stage
    case NotClosing => p
    case Requested => if p.inUse != [] then p.(stage := Draining) else CloseMembers(p)
    case Draining => p
    case Drained => CloseMembers(p)
    case ClosingMembers => p.(idle := [], inUse := [], stage := NotClosing, isOpen := false)
  }

  function Destroy(p: Pool): Pool {
    p.(destroyCount := p.destroyCount + 1, destroyed := p.destroyed + Elements(p.inUse),
       ended := p.ended + Elements(p.idle) + Elements(p.inUse),
       idle := [], inUse := [], stage := NotClosing, tasks := [], isOpen := false)
  }
}
