/** The pool object of src/thread_pool.c, updated in place over the linked-list queue. Each method
    carries out one step of one thread on the object, and is proved to do exactly what the step
    system does; so what is proved of every reached state of the step system holds of the object
    after any schedule. */
module ThreadPools {
  import opened Collections
  import opened Totals
  import opened PoolModel
  import opened PoolInvariant
  import opened TaskQueues

  class ThreadPool {
    const queue: TaskQueue
    var state: Phase
    var activeTasks: int
    var completedTasks: nat
    var submittedTasks: nat
    var waitLock: Owner
    /** Where each thread stands: its program point and local variables. */
    var workers: seq<Worker>
    var clients: seq<Client>
    /** The tickets handed out so far, at the tail and at the head of the queue, and those counted:
        program points carry them. */
    var pushes: nat
    var pops: nat
    var counted: set<Ticket>
    /** History. */
    ghost var started: seq<Ticket>
    ghost var finished: seq<Ticket>
    ghost var shutdowns: nat

    ghost predicate Valid()
      reads this, queue, queue.Repr
    {
      this !in queue.Repr && queue.Valid() && pushes == |queue.pushed| && pops == |queue.popped|
    }

    ghost function View(): State
      reads this, queue
    {
      State(queue.capacity, queue.Contents(), queue.shutdown, state, activeTasks, completedTasks,
            submittedTasks, waitLock, workers, clients,
            queue.pushed, queue.popped, started, finished, counted, shutdowns)
    }

    /** thread_pool_create, on a machine with `cores` cores (0 if that is unknown), for some number of
        client threads: as many workers as asked for, else one per core, else 4; and a queue of the
        capacity asked for, else of 1024. */
    constructor (numThreads: nat, queueCapacity: nat, cores: nat, callers: nat)
      ensures Valid() && fresh(queue.Repr)
      ensures View() == Created(PoolSize(numThreads, cores), QueueCapacity(queueCapacity), callers)
      ensures numThreads > 0 ==> |workers| == numThreads
      ensures numThreads == 0 && cores > 0 ==> |workers| == cores
      ensures numThreads == 0 && cores == 0 ==> |workers| == 4
      ensures queueCapacity > 0 ==> queue.capacity == queueCapacity
      ensures queueCapacity == 0 ==> queue.capacity == 1024
      ensures forall w :: 0 <= w < |workers| ==> workers[w].Ready?
      ensures state.IsRunning? && !queue.shutdown && |clients| == callers
      ensures Inv(View())
    {
      queue := new TaskQueue(QueueCapacity(queueCapacity));
      state, activeTasks, completedTasks, submittedTasks, waitLock := IsRunning, 0, 0, 0, Free;
      workers := seq(PoolSize(numThreads, cores), _ => Ready);
      clients := seq(callers, _ => Idle(0));
      pushes, pops, counted := 0, 0, {};
      started, finished, shutdowns := [], [], 0;
      new;
      CreatedInv(PoolSize(numThreads, cores), QueueCapacity(queueCapacity), callers);
    }

    // ---------------------------------------------------------------- worker_thread

    /** The worker's turn at task_queue_pop. */
    method PopTask(w: nat, wake: Option<nat>)
      requires Valid() && w < |workers|
      modifies this, queue
      ensures Valid() && View() == PopSection(old(View()), w, wake)
      ensures queue.Repr == old(queue.Repr)
    {
      var outcome := queue.Pop();
      match outcome {
        case PopMustWait =>
          workers := workers[w := Asleep];
        case Finished =>
          workers := workers[w := Exited];
        case Got(t) =>
          assert queue.Contents() == old(queue.Contents())[1..];
          workers := workers[w := Popped(pops, t)];
          pops := pops + 1;
          clients := WakePusher(clients, wake);
      }
    }

    /** The worker runs the task it has popped. */
    method RunTask(w: nat)
      requires Valid() && WorkerEnabled(View(), w, None) && HasTask(workers[w])
      modifies this
      ensures Valid() && View() == WorkerStep(old(View()), w, None)
    {
      match workers[w] {
        case Popped(k, t) =>
          workers := workers[w := if state.IsTerminated? then Exited else Checked(k, t)];
        case Checked(k, t) =>
          activeTasks := activeTasks + 1;
          workers := workers[w := Raised(k, t)];
        case Raised(k, t) =>
          started := started + [k];
          workers := workers[w := Executing(k, t)];
        case Executing(k, _) =>
          finished := finished + [k];
          workers := workers[w := Returned(k)];
      }
    }

    /** The worker reports the task that has returned. */
    method ReportTask(w: nat)
      requires Valid() && WorkerEnabled(View(), w, None)
      requires !workers[w].Ready? && !workers[w].Woken? && !HasTask(workers[w])
      modifies this
      ensures Valid() && View() == WorkerStep(old(View()), w, None)
    {
      match workers[w] {
        case Returned(k) =>
          activeTasks := activeTasks - 1;
          workers := workers[w := Lowered(k)];
        case Lowered(_) =>
          completedTasks := completedTasks + 1;
          workers := workers[w := OwesBroadcast];
        case OwesBroadcast =>
          waitLock := WorkerOwns(w);
          workers := workers[w := Broadcasting];
        case Broadcasting =>
          clients := AllWaitersWoken(clients);
          workers := workers[w := Unlocking];
        case Unlocking =>
          waitLock := Free;
          workers := workers[w := Ready];
      }
    }

    // ---------------------------------------------------------------- client calls

    method Submit(c: nat, wake: Option<nat>)
      requires Valid() && ClientEnabled(View(), c, wake) && InSubmit(clients[c])
      modifies this, queue.Repr
      ensures Valid() && View() == SubmitStep(old(View()), c, wake)
      ensures fresh(queue.Repr - old(queue.Repr))
    {
      match clients[c] {
        case Submitting(t) =>
          clients := clients[c := if state.IsRunning? then Pushing(t) else Idle(-2)];
        case Pushed(k) =>
          submittedTasks := submittedTasks + 1;
          counted := counted + {k};
          clients := clients[c := Idle(0)];
        case Pushing(t) =>
          PushTask(c, t, wake);
        case PushWoken(t) =>
          PushTask(c, t, wake);
      }
    }

    /** The submitter's turn at task_queue_push. */
    method PushTask(c: nat, t: Task, wake: Option<nat>)
      requires Valid() && c < |clients|
      modifies this, queue.Repr
      ensures Valid() && View() == PushSection(old(View()), c, t, wake)
      ensures fresh(queue.Repr - old(queue.Repr))
    {
      var outcome := queue.PushTask(t);
      match outcome {
        case Rejected =>
          clients := clients[c := Idle(-1)];
        case PushMustWait =>
          clients := clients[c := PushAsleep(t)];
        case Accepted =>
          clients := clients[c := Pushed(pushes)];
          pushes := pushes + 1;
          workers := WakeWorker(workers, wake);
      }
    }

    method Wait(c: nat, completedFirst: bool)
      requires Valid() && ClientEnabled(View(), c, None) && InWait(clients[c])
      modifies this
      ensures Valid() && View() == WaitStep(old(View()), c, completedFirst)
    {
      match clients[c] {
        case WaitCalled(due) =>
          waitLock := ClientOwns(c);
          clients := clients[c := Looping(due)];
        case WaitWoken(due) =>
          waitLock := ClientOwns(c);
          clients := clients[c := Looping(due)];
        case Looping(due) =>
          var snap := Snapshot(pushes, Total(clients, IsUncounted));
          clients := clients[c := if completedFirst then LoadedCompleted(due, completedTasks, snap)
                                  else LoadedSubmitted(due, submittedTasks, snap)];
        case LoadedCompleted(due, completed, snap) =>
          clients := clients[c := Deciding(due, completed, submittedTasks, snap)];
        case LoadedSubmitted(due, submitted, snap) =>
          clients := clients[c := Deciding(due, completedTasks, submitted, snap)];
        case Deciding(due, completed, submitted, _) =>
          waitLock := Free;
          clients := clients[c := if completed < submitted then WaitAsleep(due) else Idle(0)];
      }
    }

    method Destroy(c: nat)
      requires Valid() && ClientEnabled(View(), c, None) && InDestroy(clients[c])
      requires clients[c].Releasing? ==> queue.Contents() == []
      modifies this, queue
      ensures Valid() && View() == DestroyStep(old(View()), c)
      ensures queue.Repr == old(queue.Repr)
    {
      match clients[c] {
        case Destroying =>
          if state.IsRunning? {
            state := IsShutdown;
            shutdowns := shutdowns + 1;
            clients := clients[c := Closing];
          } else {
            clients := clients[c := Idle(0)];
          }
        case Closing =>
          queue.Shutdown();
          workers := AllWorkersWoken(workers);
          clients := AllPushersWoken(clients)[c := Joining(0)];
        case Joining(i) =>
          if i < |workers| {
            clients := clients[c := Joining(i + 1)];
          } else {
            state := IsTerminated;
            clients := clients[c := Releasing];
          }
        case Releasing =>
          assert queue.nodes == [] by { assert |queue.Contents()| == |queue.nodes|; }
          queue.Destroy();
          clients := clients[c := Idle(0)];
      }
    }

    // ---------------------------------------------------------------- schedules

    /** A client begins a call, or a sleeper wakes spuriously. */
    method Enter(a: Action)
      requires Valid() && Enabled(View(), a) && !Internal(a)
      modifies this
      ensures Valid() && View() == Step(old(View()), a)
    {
      match a {
        case Start(c, Submit(t)) =>
          clients := clients[c := if t.func == 0 then Idle(-1) else Submitting(t)];
        case Start(c, Wait) =>
          clients := clients[c := WaitCalled(counted)];
        case Start(c, Destroy) =>
          clients := clients[c := Destroying];
        case SpuriousWorker(w) =>
          workers := workers[w := Woken];
        case SpuriousClient(c) =>
          clients := clients[c :=
            if clients[c].PushAsleep? then PushWoken(clients[c].t) else WaitWoken(clients[c].due)];
      }
    }

    /** A client inside a call takes its next step. */
    method AdvanceCall(c: nat, wake: Option<nat>, completedFirst: bool)
      requires Valid() && ClientEnabled(View(), c, wake) && Flow(View()) && LifeCycle(View())
      modifies this, queue.Repr
      ensures Valid() && View() == ClientStep(old(View()), c, wake, completedFirst)
      ensures fresh(queue.Repr - old(queue.Repr))
    {
      if InSubmit(clients[c]) {
        Submit(c, wake);
      } else if InWait(clients[c]) {
        Wait(c, completedFirst);
      } else {
        assert workers[0] == View().workers[0];
        Destroy(c);
      }
    }

    /** One action of the scheduler, carried out on the object. */
    method Perform(a: Action)
      requires Valid() && Flow(View()) && LifeCycle(View()) && Enabled(View(), a)
      modifies this, queue.Repr
      ensures Valid() && View() == Step(old(View()), a)
      ensures fresh(queue.Repr - old(queue.Repr))
    {
      match a {
        case Work(w, wake) =>
          if workers[w].Ready? || workers[w].Woken? {
            PopTask(w, wake);
          } else if HasTask(workers[w]) {
            RunTask(w);
          } else {
            ReportTask(w);
          }
        case Advance(c, wake, completedFirst) => AdvanceCall(c, wake, completedFirst);
        case _ => Enter(a);
      }
    }

    /** The next action of a schedule; the rest of the schedule still leads to the goal. */
    method PerformNext(actions: seq<Action>, ghost goal: State)
      requires Valid() && Inv(View()) && actions != [] && Leads(View(), actions, goal)
      modifies this, queue.Repr
      ensures Valid() && Inv(View()) && Leads(View(), actions[1..], goal)
      ensures fresh(queue.Repr - old(queue.Repr))
    {
      StepKeepsInv(View(), actions[0]);
      Perform(actions[0]);
    }

    /** Any schedule that the step system allows leads the object where it leads the step system,
        and the invariant holds all along. */
    method Execute(actions: seq<Action>, ghost goal: State)
      requires Valid() && Inv(View()) && Leads(View(), actions, goal)
      modifies this, queue.Repr
      ensures Valid() && Inv(View()) && View() == goal
      ensures fresh(queue.Repr - old(queue.Repr))
      decreases |actions|
    {
      if actions != [] {
        PerformNext(actions, goal);
        Execute(actions[1..], goal);
      }
    }

    /** Created and run under any schedule, the object is in a reached state of the step system. */
    static method Simulate(numThreads: nat, queueCapacity: nat, cores: nat, callers: nat,
                           actions: seq<Action>, ghost goal: State)
      returns (pool: ThreadPool)
      requires Leads(Created(PoolSize(numThreads, cores), QueueCapacity(queueCapacity), callers), actions, goal)
      ensures pool.Valid() && pool.View() == goal && Reached(goal)
    {
      pool := new ThreadPool(numThreads, queueCapacity, cores, callers);
      ghost var start := pool.View();
      pool.Execute(actions, goal);
      RunKeepsInv(start, actions, goal);
    }
  }
}
