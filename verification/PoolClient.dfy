/** One client that creates a pool, submits a list of tasks, waits, and destroys the pool, as the example
    programs do; and what is left of the pool's progress when tasks take their time to return. */
module PoolClients {
  import opened Collections
  import opened Totals
  import opened PoolModel
  import opened PoolInvariant
  import opened PoolCalls
  import opened PoolProgress
  import opened PoolSafety
  import opened PoolWait

  // ---------------------------------------------------------------- the client's calls

  /** No task has a null function, which submit would refuse. */
  predicate Submittable(jobs: seq<Task>) {
    forall i :: 0 <= i < |jobs| ==> jobs[i].func != 0
  }

  /** The client's calls, in order. */
  function CallAt(jobs: seq<Task>, next: nat): Option<Call> {
    if next < |jobs| then Some(Submit(jobs[next]))
    else if next == |jobs| then Some(Wait)
    else if next == |jobs| + 1 then Some(Destroy)
    else None
  }

  /** The action is the client's next call, or no call. */
  predicate Follows(a: Action, jobs: seq<Task>, next: nat) {
    a.Start? ==> Some(a.call) == CallAt(jobs, next)
  }

  function After(a: Action, next: nat): nat {
    if a.Start? then next + 1 else next
  }

  function Carried(c: Client): nat {
    if CarriesTask(c) then 1 else 0
  }

  /** After so many calls the tasks have been accepted in order, one per submit call; the pool is
      running until the last call, which begins to shut it down. */
  ghost predicate Called(s: State, jobs: seq<Task>, next: nat) {
    && Submittable(jobs) && |s.clients| == 1 && next <= |jobs| + 2
    && |s.accepted| + Carried(s.clients[0]) == (if next <= |jobs| then next else |jobs|)
    && (forall k :: 0 <= k < |s.accepted| ==> s.accepted[k] == jobs[k])
    && (CarriesTask(s.clients[0]) ==> 0 < next <= |jobs| && s.clients[0].t == jobs[next - 1])
    && (InSubmit(s.clients[0]) ==> next <= |jobs|)
    && (InWait(s.clients[0]) ==> next == |jobs| + 1)
    && (InDestroy(s.clients[0]) ==> next == |jobs| + 2)
    && (next <= |jobs| + 1 ==> s.phase.IsRunning?)
    && (next == |jobs| + 2 ==> DestroyBegun(s))
  }

  lemma CreatedCalled(size: nat, capacity: nat, jobs: seq<Task>)
    requires size > 0 && Submittable(jobs)
    ensures Reached(Created(size, capacity, 1)) && Called(Created(size, capacity, 1), jobs, 0)
  {
    var s := Created(size, capacity, 1);
    assert Leads(s, [], s);
    assert s.clients == [Idle(0)];
  }

  lemma SubmitKeepsCalled(s: State, wake: Option<nat>, jobs: seq<Task>, next: nat)
    requires LifeCycle(s) && Called(s, jobs, next) && ClientEnabled(s, 0, wake) && InSubmit(s.clients[0])
    ensures Called(SubmitStep(s, 0, wake), jobs, next)
  {
    SubmitFrame(s, 0, wake);
  }

  lemma AdvanceKeepsCalled(s: State, wake: Option<nat>, completedFirst: bool, jobs: seq<Task>, next: nat)
    requires LifeCycle(s) && Called(s, jobs, next) && ClientEnabled(s, 0, wake)
    ensures Called(ClientStep(s, 0, wake, completedFirst), jobs, next)
  {
    if next == |jobs| + 2 {
      DestroyStaysBegun(s, Advance(0, wake, completedFirst));
    }
    if InSubmit(s.clients[0]) {
      SubmitKeepsCalled(s, wake, jobs, next);
    } else if InWait(s.clients[0]) {
      WaitFrame(s, 0, completedFirst);
    } else {
      DestroyFrame(s, 0);
    }
  }

  lemma StepKeepsCalled(s: State, a: Action, jobs: seq<Task>, next: nat)
    requires LifeCycle(s) && Called(s, jobs, next) && Enabled(s, a) && Follows(a, jobs, next)
    ensures Called(Step(s, a), jobs, After(a, next))
  {
    if next == |jobs| + 2 || (a.Start? && a.call.Destroy?) {
      DestroyStaysBegun(s, a);
    }
    match a
    case Work(w, wake) => WorkerFrame(s, w, wake);
    case Advance(c, wake, completedFirst) => AdvanceKeepsCalled(s, wake, completedFirst, jobs, next);
    case _ =>
  }

  /** A worker's task is the one submitted under its ticket. */
  lemma TaskOfTicket(s: State, jobs: seq<Task>, next: nat, w: nat)
    requires Inv(s) && Called(s, jobs, next) && w < |s.workers| && HasTask(s.workers[w])
    ensures s.workers[w].k < |jobs| && s.workers[w].t == jobs[s.workers[w].k]
    ensures s.workers[w].k !in s.finished && (s.workers[w].k in s.started <==> s.workers[w].Executing?)
  {
    assert s.popped[s.workers[w].k] == s.accepted[s.workers[w].k];
  }

  // ---------------------------------------------------------------- after wait

  predicate WaitReturned(s: State, jobs: seq<Task>, next: nat)
    requires |s.clients| > 0
  {
    next == |jobs| + 2 || (next == |jobs| + 1 && s.clients[0].Idle?)
  }

  /** Every task of the list has run to the end. */
  ghost predicate Served(s: State, jobs: seq<Task>) {
    forall k :: 0 <= k < |jobs| ==> k in s.finished
  }

  /** The wait call has returned only if it was at its return a step ago, or had returned before. */
  lemma ReturnIsSeen(s: State, a: Action, jobs: seq<Task>, next: nat)
    requires Called(s, jobs, next) && Enabled(s, a) && Follows(a, jobs, next)
    ensures |Step(s, a).clients| > 0
    ensures WaitReturned(Step(s, a), jobs, After(a, next)) ==>
              WaitReturned(s, jobs, next) || (Returning(s, 0) && next == |jobs| + 1)
  {
    StepKeepsSizes(s, a);
    if a.Work? {
      WorkerFrame(s, a.w, a.wake);
      assert ClientWoke(s.clients[0], Step(s, a).clients[0]);
    }
  }

  /** When the client's wait returns, all tasks have finished, and so they stay. */
  lemma StepKeepsServed(s: State, a: Action, jobs: seq<Task>, next: nat)
    requires Reached(s) && Called(s, jobs, next) && Enabled(s, a) && Follows(a, jobs, next)
    requires WaitReturned(s, jobs, next) ==> Served(s, jobs)
    ensures |Step(s, a).clients| > 0
    ensures WaitReturned(Step(s, a), jobs, After(a, next)) ==> Served(Step(s, a), jobs)
  {
    StepLogs(s, a);
    if Returning(s, 0) {
      SingleClientIsServed(s, 0);
    }
    ReturnIsSeen(s, a, jobs, next);
  }

  /** The client has made all its calls, and nothing of the pool is left: the workers are gone, and all
      tasks have run once. */
  ghost predicate ShutDown(s: State, jobs: seq<Task>, next: nat) {
    && next == |jobs| + 2 && AtRest(s)
    && s.phase.IsTerminated? && s.closed && s.shutdowns == 1 && AllExited(s)
  }

  /** At rest after its last call, which was to destroy. */
  lemma RestIsShutDown(s: State, jobs: seq<Task>, next: nat)
    requires Inv(s) && Called(s, jobs, next) && AtRest(s) && next == |jobs| + 2
    ensures ShutDown(s, jobs, next)
  {
    ShutdownIsOver(s);
  }

  // ---------------------------------------------------------------- progress

  /** What one call of the client can add to the pool's measure. */
  function CallCost(size: nat): nat {
    TaskRank(1) + 6 + 2 * size
  }

  /** The steps of the pool that are left, those of calls to come included. */
  function CallsLeft(s: State, jobs: seq<Task>, next: nat): nat
    requires next <= |jobs| + 2
  {
    Measure(s) + Times(CallCost(|s.workers|), |jobs| + 2 - next)
  }

  predicate IsSpurious(a: Action) {
    a.SpuriousWorker? || a.SpuriousClient?
  }

  lemma StepShrinks(s: State, a: Action, jobs: seq<Task>, next: nat)
    requires Inv(s) && |s.clients| == 1 && Enabled(s, a) && !IsSpurious(a)
    requires next <= |jobs| + 2 && Follows(a, jobs, next)
    ensures After(a, next) <= |jobs| + 2 && CallsLeft(Step(s, a), jobs, After(a, next)) < CallsLeft(s, jobs, next)
  {
    StepKeepsSizes(s, a);
    if a.Start? {
      CallRaises(s, a.call);
      var left := |jobs| + 2 - next;
      assert Times(CallCost(|s.workers|), left) == CallCost(|s.workers|) + Times(CallCost(|s.workers|), left - 1);
    } else {
      InternalStepShrinks(s, a);
    }
  }

  lemma CallRaises(s: State, call: Call)
    requires |s.clients| == 1 && s.clients[0].Idle?
    ensures Measure(Step(s, Start(0, call))) < Measure(s) + CallCost(|s.workers|)
  {
    TotalUpdate(s.clients, 0, Begin(s, call), ClientRank(1, |s.workers|));
  }

  /** Nobody can move but workers inside a task. */
  ghost predicate OnlyTasksGoOn(s: State) {
    forall a :: Internal(a) && Enabled(s, a) ==> a.Work? && s.workers[a.w].Executing?
  }

  lemma WorkerIsStill(s: State, w: nat)
    requires OnlyTasksGoOn(s) && w < |s.workers| && !s.workers[w].Executing?
    ensures !WorkerReady(s, w)
  {
    if WorkerReady(s, w) {
      var _ := WorkerCanMove(s, w);
    }
  }

  lemma ClientIsStill(s: State, c: nat)
    requires OnlyTasksGoOn(s)
    ensures !ClientReady(s, c)
  {
    if ClientReady(s, c) {
      var _ := ClientCanMove(s, c);
    }
  }

  /** Then every worker is inside a task, asleep or gone. */
  lemma StillWorkers(s: State)
    requires Inv(s) && OnlyTasksGoOn(s)
    ensures forall w :: 0 <= w < |s.workers| ==>
              s.workers[w].Executing? || s.workers[w].Asleep? || s.workers[w].Exited?
  {
    match s.waitOwner {
      case WorkerOwns(w) => WorkerIsStill(s, w);
      case ClientOwns(c) => ClientIsStill(s, c);
      case Free =>
    }
    forall w | 0 <= w < |s.workers|
      ensures s.workers[w].Executing? || s.workers[w].Asleep? || s.workers[w].Exited?
    {
      if !s.workers[w].Executing? {
        WorkerIsStill(s, w);
      }
    }
  }

  /** And if there is a worker for every task, none is left in the queue. */
  lemma StillQueue(s: State)
    requires Inv(s) && OnlyTasksGoOn(s) && |s.accepted| <= |s.workers|
    ensures s.queue == []
  {
    StillWorkers(s);
    if w :| 0 <= w < |s.workers| && !s.workers[w].Executing? {
      TotalZero(s.workers, IsWoken);
    } else {
      TotalOnes(s.workers, InHand);
    }
  }

  /** And no submitter sleeps. */
  lemma StillClient(s: State, c: nat)
    requires Inv(s) && OnlyTasksGoOn(s) && s.queue == [] && c < |s.clients|
    ensures !InSubmit(s.clients[c])
  {
    forall d | 0 <= d < |s.clients|
      ensures !s.clients[d].PushWoken?
    {
      ClientIsStill(s, d);
    }
    TotalZero(s.clients, IsPushWoken);
    ClientIsStill(s, c);
  }

  /** If nobody can move but workers inside tasks, the client has nothing to call, and there are as
      many workers as tasks, then every task has begun: it has finished, or a worker is inside it. */
  lemma AllBegun(s: State, jobs: seq<Task>, next: nat, k: nat)
    requires Inv(s) && Called(s, jobs, next) && OnlyTasksGoOn(s) && |jobs| <= |s.workers|
    requires s.clients[0].Idle? ==> CallAt(jobs, next).None?
    requires k < |jobs|
    ensures k in s.finished || exists w :: 0 <= w < |s.workers| && s.workers[w].Executing? && s.workers[w].k == k
  {
    StillQueue(s);
    StillClient(s, 0);
    StillWorkers(s);
    assert k < |s.popped|;
    if k !in s.finished {
      assert Held(s, k);
      var w :| 0 <= w < |s.workers| && Holds(s.workers[w], k);
      assert s.workers[w].Executing?;
    }
  }
}
