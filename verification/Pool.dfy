/** `RedisClientPool`, its lists and its close state, updated in place
    (packages/client/lib/client/pool.ts:440-639, 690-800). */
module ClientPool {
  import Runs = PoolRuns
  import Spec = PoolSpec

  type Client = Spec.Client
  type Task = Spec.Task
  type Stage = Spec.Stage

  class RedisClientPool {
    const minimum: nat
    const maximum: nat
    var idleClients: seq<Client>
    var clientsInUse: seq<Client>
    var tasksQueue: seq<Task>
    var isOpen: bool
    // What `#closePromise` and `#drainResolve` say together.
    var stage: Stage
    var destroyCount: nat
    var terminated: set<Client>
    var destroyed: set<Client>
    var nextClient: nat
    var nextTask: nat
    var leases: map<Client, Task>
    var connecting: map<Client, bool>
    ghost var ended: set<Client>
    ghost var started: seq<Task>

    constructor (minimum: nat, maximum: nat)
      ensures Valid() && Abs() == Spec.Empty(minimum, maximum)
    {
      this.minimum, this.maximum := minimum, maximum;
      idleClients, clientsInUse, tasksQueue, isOpen, stage := [], [], [], false, Spec.NotClosing;
      destroyCount, terminated, destroyed, nextClient, nextTask := 0, {}, {}, 0, 0;
      leases, connecting, ended, started := map[], map[], {}, [];
      new;
      Runs.EmptyIsSafe(minimum, maximum);
    }

    ghost function Abs(): Spec.Pool
      reads this
    {
      Spec.Pool(minimum, maximum, idleClients, clientsInUse, tasksQueue, isOpen, stage, destroyCount, terminated,
                destroyed, nextClient, nextTask, leases, connecting, ended, started)
    }

    /** What every run keeps: the placement of members, the bound, the order of tasks, the state of a close. */
    ghost predicate Valid()
      reads this
    {
      Runs.Inv(Abs())
    }

    predicate IsClosing()
      reads this`stage
    {
      stage != Spec.NotClosing
    }

    /** `#create`, up to the connection: the member counts as in use from now on. */
    method Create(replacement: bool)
      modifies this`clientsInUse, this`connecting, this`nextClient
      ensures Abs() == Spec.Create(old(Abs()), replacement)
    {
      var client := nextClient;
      nextClient := nextClient + 1;
      clientsInUse := clientsInUse + [client];
      connecting := connecting[client := replacement];
    }

    method Connect()
      requires Valid()
      modifies this
      ensures Valid() && Abs() == Spec.Connect(old(Abs()))
    {
      hide Runs.Inv;
      Runs.ConnectKeeps(Abs());
      if isOpen { return; }
      isOpen := true;
      ghost var p := Abs();
      var created := 0;
      while created < minimum
        invariant created <= minimum && Abs() == Spec.CreateMany(p, created)
        modifies this`clientsInUse, this`connecting, this`nextClient
      {
        Create(false);
        created := created + 1;
      }
    }

    // `#drainResolve?.()`
    method DrainResolve()
      modifies this`stage
      ensures Abs() == Spec.Signal(old(Abs()))
    {
      if stage == Spec.Draining { stage := Spec.Drained; }
    }

    /** `#executeTask`, up to the end of its task. */
    method ExecuteTask(client: Client, task: Task)
      modifies this`leases, this`started
      ensures Abs() == Spec.Lease(old(Abs()), client, task)
    {
      leases := leases[client := task];
      started := started + [task];
    }

    method ReturnClient(client: Client)
      modifies this
      ensures Abs() == Spec.Return(old(Abs()), client)
    {
      if client in destroyed { return; }
      if client in terminated {
        clientsInUse := Spec.RemoveFirst(clientsInUse, client);
        ended := ended + {client};
        if |tasksQueue| > 0 {
          Create(true);
        } else if IsClosing() && |clientsInUse| == 0 {
          DrainResolve();
        }
        return;
      }
      if |tasksQueue| > 0 {
        var task := tasksQueue[0];
        tasksQueue := tasksQueue[1..];
        ExecuteTask(client, task);
        return;
      }
      clientsInUse := Spec.RemoveFirst(clientsInUse, client);
      idleClients := idleClients + [client];
      if IsClosing() && |clientsInUse| == 0 { DrainResolve(); }
    }

    /** The rest of `#create`, once the member is connected. */
    method Connected(client: Client)
      requires Valid() && client in connecting
      modifies this
      ensures Valid() && Abs() == Spec.Connected(old(Abs()), client)
    {
      hide Runs.Inv;
      Runs.ConnectedKeeps(Abs(), client);
      connecting := connecting - {client};
      ReturnClient(client);
    }

    /** The rest of `#create`, if the connection fails. */
    method ConnectFailed(client: Client)
      requires Valid() && client in connecting
      modifies this
      ensures Valid() && Abs() == Spec.ConnectFailed(old(Abs()), client)
    {
      hide Runs.Inv;
      Runs.ConnectFailedKeeps(Abs(), client);
      var replacement := connecting[client];
      connecting := connecting - {client};
      if client in destroyed { return; }
      clientsInUse := Spec.RemoveFirst(clientsInUse, client);
      if (IsClosing() || replacement) && |clientsInUse| == 0 {
        RejectTasks();
        DrainResolve();
      }
    }

    method RejectTasks()
      modifies this`tasksQueue
      ensures tasksQueue == []
    {
      while |tasksQueue| > 0
        decreases |tasksQueue|
      {
        tasksQueue := tasksQueue[1..];
      }
    }

    method Execute()
      requires Valid()
      modifies this
      ensures Valid() && Abs() == Spec.Execute(old(Abs()))
      decreases |idleClients|
    {
      hide Runs.Inv;
      Runs.ExecuteKeeps(Abs());
      if IsClosing() || !isOpen {
        nextTask := nextTask + 1;
        return;
      }
      hide Spec.Execute;
      if |idleClients| == 0 {
        Enqueue();
      } else if idleClients[0] in terminated {
        ExecuteSkips(Abs());
        SkippedKeeps(Abs());
        ended := ended + {idleClients[0]};
        idleClients := idleClients[1..];
        Execute();
      } else {
        StartOnIdle();
      }
    }

    // No member is idle: the task waits, and the pool grows if it may.
    method Enqueue()
      requires !IsClosing() && isOpen && idleClients == []
      modifies this`tasksQueue, this`nextTask, this`clientsInUse, this`connecting, this`nextClient
      ensures Abs() == Spec.Execute(old(Abs()))
    {
      ExecuteWaits(Abs());
      hide Spec.Execute;
      tasksQueue := tasksQueue + [nextTask];
      nextTask := nextTask + 1;
      if |idleClients| + |clientsInUse| < maximum { Create(false); }
    }

    // The first idle member runs it.
    method StartOnIdle()
      requires !IsClosing() && isOpen && idleClients != [] && idleClients[0] !in terminated
      modifies this`idleClients, this`nextTask, this`clientsInUse, this`leases, this`started
      ensures Abs() == Spec.Execute(old(Abs()))
    {
      ExecuteTakes(Abs());
      hide Spec.Execute;
      var client, task := idleClients[0], nextTask;
      idleClients := idleClients[1..];
      nextTask := nextTask + 1;
      clientsInUse := clientsInUse + [client];
      ExecuteTask(client, task);
    }

    // The reconnect strategy of a member gave up.
    method Terminate(client: Client)
      requires Valid()
      modifies this`terminated
      ensures Valid() && Abs() == old(Abs()).(terminated := old(terminated) + {client})
    {
      terminated := terminated + {client};
    }

    /** The end of a task, however it ended. */
    method Finish(client: Client)
      requires Valid() && client in leases
      modifies this
      ensures Valid() && Abs() == Spec.Finish(old(Abs()), client)
    {
      hide Runs.Inv;
      Runs.FinishKeeps(Abs(), client);
      leases := leases - {client};
      ReturnClient(client);
    }

    // A timeout, or the failure of the member made for it.
    method GiveUp(task: Task)
      requires Valid()
      modifies this`tasksQueue
      ensures Valid() && Abs() == Spec.GiveUp(old(Abs()), task)
    {
      hide Runs.Inv;
      Runs.GiveUpKeeps(Abs(), task);
      tasksQueue := Spec.RemoveFirst(tasksQueue, task);
    }

    method Cleanup()
      requires Valid()
      modifies this`idleClients, this`ended
      ensures Valid() && Abs() == Spec.Cleanup(old(Abs()))
    {
      hide Runs.Inv;
      Runs.CleanupKeeps(Abs());
      var toDestroy: int := |idleClients| + |clientsInUse| - minimum;
      if |idleClients| < toDestroy { toDestroy := |idleClients|; }
      var i := 0;
      assert Spec.Elements([]) == {};
      while i < toDestroy
        invariant 0 <= i && (i <= toDestroy || i == 0) && i <= |old(idleClients)|
        invariant idleClients == old(idleClients)[i..]
        invariant ended == old(ended) + Spec.Elements(old(idleClients)[..i])
      {
        assert old(idleClients)[..i + 1] == old(idleClients)[..i] + [idleClients[0]];
        ended := ended + {idleClients[0]};
        idleClients := idleClients[1..];
        i := i + 1;
      }
    }

    method Close()
      requires Valid()
      modifies this`stage
      ensures Valid() && Abs() == Spec.Close(old(Abs()))
    {
      hide Runs.Inv;
      Runs.CloseKeeps(Abs());
      if IsClosing() || !isOpen { return; }
      stage := Spec.Requested;
    }

    /** `#doClose` from one `await` to the next; a `destroy` since it began makes it leave the pool alone. */
    method DoClose(destroyCount: nat)
      requires Valid()
      modifies this
      ensures Valid() && Abs() == if destroyCount != old(this.destroyCount) then old(Abs()) else Spec.DoClose(old(Abs()))
    {
      hide Runs.Inv;
      Runs.CloseGoesOnKeeps(Abs());
      if this.destroyCount != destroyCount { return; }
      match stage
      case NotClosing =>
      case Draining =>
      case Requested =>
        if |clientsInUse| > 0 { stage := Spec.Draining; } else { CloseMembers(); }
      case Drained => CloseMembers();
      case ClosingMembers =>
        idleClients, clientsInUse := [], [];
        isOpen, stage := false, Spec.NotClosing;
    }

    // Closes the idle members, or destroys those that were terminated; they stay in the list for now.
    method CloseMembers()
      modifies this`stage, this`ended
      ensures Abs() == Spec.CloseMembers(old(Abs()))
    {
      stage := Spec.ClosingMembers;
      assert Spec.Elements([]) == {};
      var i := 0;
      while i < |idleClients|
        invariant 0 <= i <= |idleClients| && ended == old(ended) + Spec.Elements(idleClients[..i])
        modifies this`ended
      {
        assert idleClients[..i + 1] == idleClients[..i] + [idleClients[i]];
        ended := ended + {idleClients[i]};
        i := i + 1;
      }
      assert idleClients[..i] == idleClients;
    }

    method Destroy()
      requires Valid()
      modifies this
      ensures Valid() && Abs() == Spec.Destroy(old(Abs()))
    {
      hide Runs.Inv;
      Runs.DestroyKeeps(Abs());
      hide Spec.Elements;
      Retire();
      idleClients, clientsInUse, stage := [], [], Spec.NotClosing;
      RejectTasks();
      isOpen := false;
    }

    // The members are torn down, and those in use marked.
    method Retire()
      modifies this`destroyCount, this`ended, this`destroyed
      ensures Abs() == old(Abs()).(destroyCount := old(destroyCount) + 1,
        destroyed := old(destroyed) + Spec.Elements(clientsInUse),
        ended := old(ended) + Spec.Elements(idleClients) + Spec.Elements(clientsInUse))
    {
      hide Spec.Elements;
      destroyCount := destroyCount + 1;
      ended := ended + Spec.Elements(idleClients) + Spec.Elements(clientsInUse);
      MarkDestroyed();
    }

    method MarkDestroyed()
      modifies this`destroyed
      ensures destroyed == old(destroyed) + Spec.Elements(clientsInUse)
    {
      var i := 0;
      assert Spec.Elements([]) == {};
      while i < |clientsInUse|
        invariant 0 <= i <= |clientsInUse| && destroyed == old(destroyed) + Spec.Elements(clientsInUse[..i])
      {
        assert clientsInUse[..i + 1] == clientsInUse[..i] + [clientsInUse[i]];
        destroyed := destroyed + {clientsInUse[i]};
        i := i + 1;
      }
      assert clientsInUse[..i] == clientsInUse;
    }
  }

  // An idle member that was terminated is as good as none.
  lemma ExecuteSkips(p: Spec.Pool)
    requires !Spec.Closing(p) && p.isOpen && p.idle != [] && p.idle[0] in p.terminated
    ensures Spec.Execute(p) == Spec.Execute(p.(idle := p.idle[1..], ended := p.ended + {p.idle[0]}))
  {
    var k := Spec.Terminated(p.idle, p.terminated);
    assert p.idle[1..][k - 1..] == p.idle[k..];
    assert p.idle[..k] == [p.idle[0]] + p.idle[1..][..k - 1];
    assert Spec.Elements(p.idle[..k]) == {p.idle[0]} + Spec.Elements(p.idle[1..][..k - 1]);
    assert p.ended + {p.idle[0]} + Spec.Elements(p.idle[1..][..k - 1]) == p.ended + Spec.Elements(p.idle[..k]);
  }

  lemma SkippedKeeps(p: Spec.Pool)
    requires Runs.Inv(p) && p.idle != []
    ensures Runs.Inv(p.(idle := p.idle[1..], ended := p.ended + {p.idle[0]}))
  {
    Runs.IdleShrinks(p, 1);
    assert Spec.Elements(p.idle[..1]) == {p.idle[0]};
  }

  lemma ExecuteWaits(p: Spec.Pool)
    requires !Spec.Closing(p) && p.isOpen && p.idle == []
    ensures var queued := p.(nextTask := p.nextTask + 1, tasks := p.tasks + [p.nextTask]);
            Spec.Execute(p) == if |p.idle| + |p.inUse| < p.maximum then Spec.Create(queued, false) else queued
  {
    assert Spec.Elements([]) == {} && p.ended + {} == p.ended;
  }

  lemma ExecuteTakes(p: Spec.Pool)
    requires !Spec.Closing(p) && p.isOpen && p.idle != [] && p.idle[0] !in p.terminated
    ensures Spec.Execute(p) == Spec.Lease(
      p.(nextTask := p.nextTask + 1, idle := p.idle[1..], inUse := p.inUse + [p.idle[0]]), p.idle[0], p.nextTask)
  {
    assert Spec.Elements(p.idle[..0]) == {} && p.ended + {} == p.ended;
  }
}
