/** The pool never deadlocks, every call returns, and destroy terminates. */
module PoolProgress {
  import opened Collections
  import opened Totals
  import opened PoolModel
  import opened PoolInvariant
  import opened PoolSafety
  import opened PoolWait
  import opened PoolCalls

  // ---------------------------------------------------------------- deadlock freedom

  /** No thread already at work can move. */
  ghost predicate Stuck(s: State) {
    forall a :: Internal(a) ==> !Enabled(s, a)
  }

  /** Every call has returned, every accepted task has run, and the workers are all asleep, or all
      gone once the pool is shut down. */
  ghost predicate AtRest(s: State) {
    && (forall c :: 0 <= c < |s.clients| ==> s.clients[c].Idle?)
    && (forall w :: 0 <= w < |s.workers| ==> if s.closed then s.workers[w].Exited? else s.workers[w].Asleep?)
    && AllDone(s)
  }

  /** A signal always finds a sleeper to wake, or nobody sleeps. */
  lemma WorkerCanMove(s: State, w: nat) returns (a: Action)
    requires WorkerReady(s, w)
    ensures a.Work? && a.w == w && Enabled(s, a) && !Stuck(s)
  {
    if d :| 0 <= d < |s.clients| && Pops(s, w) && s.capacity > 0 && s.clients[d].PushAsleep? {
      a := Work(w, Some(d));
    } else {
      a := Work(w, None);
    }
    assert Enabled(s, a);
  }

  lemma ClientCanMove(s: State, c: nat) returns (a: Action)
    requires ClientReady(s, c)
    ensures a.Advance? && Enabled(s, a) && !Stuck(s)
  {
    if v :| 0 <= v < |s.workers| && Pushes(s, c) && s.workers[v].Asleep? {
      a := Advance(c, Some(v), true);
    } else {
      a := Advance(c, None, true);
    }
    assert Enabled(s, a);
  }

  /** If nobody can move, the wait lock is free and all workers sleep or all have exited. */
  lemma StuckWorkers(s: State)
    requires Inv(s) && Stuck(s)
    ensures s.waitOwner.Free? && s.queue == []
    ensures forall w :: 0 <= w < |s.workers| ==> if s.closed then s.workers[w].Exited? else s.workers[w].Asleep?
  {
    match s.waitOwner {
      case WorkerOwns(w) => var _ := WorkerCanMove(s, w);
      case ClientOwns(c) => var _ := ClientCanMove(s, c);
      case Free =>
    }
    forall w | 0 <= w < |s.workers|
      ensures s.workers[w].Asleep? || s.workers[w].Exited?
    {
      if !s.workers[w].Asleep? && !s.workers[w].Exited? {
        var _ := WorkerCanMove(s, w);
      }
    }
    TotalZero(s.workers, IsWoken);
    assert s.workers[0].Asleep? || s.workers[0].Exited?;
  }

  /** Global deadlock freedom: the only states in which nobody can move are those in which there is
      nothing left to do. */
  lemma StuckMeansAtRest(s: State)
    requires Inv(s)
    ensures Stuck(s) <==> AtRest(s)
  {
    if Stuck(s) {
      StuckWorkers(s);
      IdleWorkersAreDone(s);
      forall c | 0 <= c < |s.clients|
        ensures !s.clients[c].PushWoken?
      {
        if s.clients[c].PushWoken? {
          var _ := ClientCanMove(s, c);
        }
      }
      TotalZero(s.clients, IsPushWoken);
      forall c | 0 <= c < |s.clients|
        ensures s.clients[c].Idle?
      {
        assert WaiterSafe(s, s.clients[c]) && DestroyerSound(s, s.clients[c]);
        if !s.clients[c].Idle? && !s.clients[c].PushAsleep? && !s.clients[c].WaitAsleep? {
          var _ := ClientCanMove(s, c);
        }
      }
    }
  }

  // ---------------------------------------------------------------- every call returns

  /** Steps a worker may still take before it sleeps or exits, when n clients may have to be woken
      by its broadcast. */
  function WorkerRank(n: nat): Worker -> nat {
    (w: Worker) =>
      match w
      case Asleep => 0
      case Exited => 0
      case Ready => 1
      case Woken => 1
      case Unlocking => 2
      case Broadcasting => 3 + 4 * n
      case OwesBroadcast => 4 + 4 * n
      case Lowered(_) => 5 + 4 * n
      case Returned(_) => 6 + 4 * n
      case Executing(_, _) => 7 + 4 * n
      case Raised(_, _) => 8 + 4 * n
      case Checked(_, _) => 9 + 4 * n
      case Popped(_, _) => 10 + 4 * n
  }

  /** The steps one queued task may still cause. */
  function TaskRank(n: nat): nat { 12 + 4 * n }

  function ClientRank(n: nat, size: nat): Client -> nat {
    (c: Client) =>
      match c
      case Idle(_) => 0
      case Pushed(_) => 1
      case PushAsleep(_) => TaskRank(n) + 3
      case Pushing(_) => TaskRank(n) + 4
      case PushWoken(_) => TaskRank(n) + 4
      case Submitting(_) => TaskRank(n) + 5
      case WaitAsleep(_) => 1
      case Deciding(_, _, _, _) => 2
      case LoadedCompleted(_, _, _) => 3
      case LoadedSubmitted(_, _, _) => 3
      case Looping(_) => 4
      case WaitCalled(_) => 5
      case WaitWoken(_) => 5
      case Releasing => 1
      case Joining(i) => 2 + (if i < size then size - i else 0)
      case Closing => 3 + 2 * size + n
      case Destroying => 4 + 2 * size + n
  }

  function Measure(s: State): nat {
    var n := |s.clients|;
    Total(s.workers, WorkerRank(n)) + Total(s.clients, ClientRank(n, |s.workers|)) + TaskRank(n) * |s.queue|
  }

  lemma OneTaskLess(n: nat, q: nat)
    requires q > 0
    ensures TaskRank(n) * (q - 1) + TaskRank(n) == TaskRank(n) * q
  {
  }

  /** Signalling a sleeping submitter adds one to the clients' ranks, a broadcast to the waiters at
      most four per client; other worker steps leave the clients alone. */
  lemma ClientsAfterWork(s: State, w: nat, wake: Option<nat>)
    requires WorkerEnabled(s, w, wake)
    ensures var n := |s.clients|; var f := ClientRank(n, |s.workers|); var s' := WorkerStep(s, w, wake);
            Total(s'.clients, f) <= Total(s.clients, f) +
              (if s.workers[w].Broadcasting? then 4 * n else if Pops(s, w) then 1 else 0)
  {
    var f := ClientRank(|s.clients|, |s.workers|);
    var s' := WorkerStep(s, w, wake);
    if s.workers[w].Broadcasting? {
      TotalBound(s'.clients, s.clients, f, f, 4);
    } else if Pops(s, w) && wake.Some? {
      TotalUpdate(s.clients, wake.value, s'.clients[wake.value], f);
    } else {
      assert s'.clients == s.clients;
    }
  }

  /** The worker's own rank falls by more than it can raise those it wakes, or its pop pays for it. */
  lemma WorkerRankFalls(s: State, w: nat, wake: Option<nat>)
    requires LifeCycle(s) && WorkerEnabled(s, w, wake)
    ensures var n := |s.clients|; var f := WorkerRank(n); var s' := WorkerStep(s, w, wake);
            if Pops(s, w) then s'.queue == s.queue[1..] && f(s'.workers[w]) + 2 < f(s.workers[w]) + TaskRank(n)
            else s'.queue == s.queue &&
                 f(s'.workers[w]) + (if s.workers[w].Broadcasting? then 4 * n else 0) < f(s.workers[w])
  {
    NotTerminated(s, w);
  }

  lemma WorkShrinks(s: State, w: nat, wake: Option<nat>)
    requires LifeCycle(s) && WorkerEnabled(s, w, wake)
    ensures Measure(WorkerStep(s, w, wake)) < Measure(s)
  {
    WorkerFrame(s, w, wake);
    WorkerRankFalls(s, w, wake);
    WorkerWeight(s, w, wake, WorkerRank(|s.clients|));
    ClientsAfterWork(s, w, wake);
    if Pops(s, w) {
      OneTaskLess(|s.clients|, |s.queue|);
    }
  }

  lemma SubmitShrinks(s: State, c: nat, wake: Option<nat>)
    requires ClientEnabled(s, c, wake) && InSubmit(s.clients[c])
    ensures Measure(SubmitStep(s, c, wake)) < Measure(s)
  {
    SubmitFrame(s, c, wake);
    var n := |s.clients|;
    var s' := SubmitStep(s, c, wake);
    TotalUpdate(s.clients, c, s'.clients[c], ClientRank(n, |s.workers|));
    if Pushes(s, c) {
      OneTaskLess(n, |s.queue| + 1);
      if wake.Some? {
        TotalUpdate(s.workers, wake.value, Woken, WorkerRank(n));
      }
    } else {
      assert s'.workers == s.workers;
    }
  }

  lemma WaitShrinks(s: State, c: nat, completedFirst: bool)
    requires ClientEnabled(s, c, None) && InWait(s.clients[c])
    ensures Measure(WaitStep(s, c, completedFirst)) < Measure(s)
  {
    WaitFrame(s, c, completedFirst);
    TotalUpdate(s.clients, c, WaitStep(s, c, completedFirst).clients[c], ClientRank(|s.clients|, |s.workers|));
  }

  /** Shutting the queue down wakes each worker and each submitter at most once. */
  lemma ClosingWakes(s: State, c: nat)
    requires c < |s.clients| && s.clients[c].Closing?
    ensures var f, g := ClientRank(|s.clients|, |s.workers|), WorkerRank(|s.clients|);
            && Total(AllPushersWoken(s.clients), f) <= Total(s.clients, f) + |s.clients|
            && Total(AllWorkersWoken(s.workers), g) <= Total(s.workers, g) + |s.workers|
  {
    var f, g := ClientRank(|s.clients|, |s.workers|), WorkerRank(|s.clients|);
    TotalBound(AllPushersWoken(s.clients), s.clients, f, f, 1);
    TotalBound(AllWorkersWoken(s.workers), s.workers, g, g, 1);
  }

  lemma ClosingShrinks(s: State, c: nat)
    requires ClientEnabled(s, c, None) && s.clients[c].Closing?
    ensures Measure(DestroyStep(s, c)) < Measure(s)
  {
    ClosingWakes(s, c);
    TotalUpdate(AllPushersWoken(s.clients), c, Joining(0), ClientRank(|s.clients|, |s.workers|));
  }

  lemma DestroyShrinks(s: State, c: nat)
    requires LifeCycle(s) && ClientEnabled(s, c, None) && InDestroy(s.clients[c])
    ensures Measure(DestroyStep(s, c)) < Measure(s)
  {
    if s.clients[c].Closing? {
      ClosingShrinks(s, c);
    } else {
      var s' := DestroyStep(s, c);
      TotalUpdate(s.clients, c, s'.clients[c], ClientRank(|s.clients|, |s.workers|));
      if s.clients[c].Releasing? {
        assert s.workers[0].Exited?;
      }
    }
  }

  /** Every step of a thread already at work brings the pool closer to rest. */
  lemma InternalStepShrinks(s: State, a: Action)
    requires Inv(s) && Internal(a) && Enabled(s, a)
    ensures Measure(Step(s, a)) < Measure(s)
  {
    match a
    case Work(w, wake) => WorkShrinks(s, w, wake);
    case Advance(c, wake, completedFirst) =>
      if InSubmit(s.clients[c]) {
        SubmitShrinks(s, c, wake);
      } else if InWait(s.clients[c]) {
        WaitShrinks(s, c, completedFirst);
      } else {
        DestroyShrinks(s, c);
      }
  }

  /** So if nothing new is asked of the pool, any schedule is bounded by the measure of its start. */
  lemma {:induction false} InternalRunsAreBounded(s: State, actions: seq<Action>, s': State)
    requires Inv(s) && Leads(s, actions, s') && forall i :: 0 <= i < |actions| ==> Internal(actions[i])
    ensures |actions| + Measure(s') <= Measure(s) && Inv(s')
    decreases |actions|
  {
    if actions != [] {
      assert Internal(actions[0]);
      InternalStepShrinks(s, actions[0]);
      StepKeepsInv(s, actions[0]);
      InternalRunsAreBounded(Step(s, actions[0]), actions[1..], s');
    }
  }

  /** How the call that client c was in at s has ended at s', where no call is under way: a wait has
      returned 0, a submit 0 or the code of a pool that is shut down, and a destroy has left the pool
      shut down. */
  ghost predicate CallEnded(s: State, s': State, c: nat)
    requires c < |s.clients| == |s'.clients| && s'.clients[c].Idle?
  {
    var result := s'.clients[c].result;
    && (InWait(s.clients[c]) ==> result == 0)
    && (InSubmit(s.clients[c]) ==> result == 0 || (s'.phase.IsTerminated? && (result == -1 || result == -2)))
    && (InDestroy(s.clients[c]) ==> s'.phase.IsTerminated? && AllExited(s'))
    && (s.clients[c].Idle? ==> s'.clients[c] == s.clients[c])
  }

  lemma InternalSpares(actions: seq<Action>, c: nat)
    requires forall i :: 0 <= i < |actions| ==> Internal(actions[i])
    ensures Spares(actions, {c})
  {
    assert forall i :: 0 <= i < |actions| ==> Internal(actions[i]) && !actions[i].Start?;
  }

  lemma CallsEnd(s: State, actions: seq<Action>, s': State, c: nat)
    requires Inv(s) && Inv(s') && Leads(s, actions, s') && Spares(actions, {c})
    requires c < |s.clients| == |s'.clients| && NoCallUnderWay(s')
    ensures CallEnded(s, s', c)
  {
    if !s'.phase.IsRunning? {
      ShutdownIsOver(s');
    }
    var x := s.clients[c];
    if InWait(x) {
      WaitRun(s, actions, s', c, x.due, 0);
    } else if InSubmit(x) {
      SubmitEnds(s, c, actions, s');
    } else if InDestroy(x) {
      assert DestroyerSound(s, x);
      DestroyRun(s, actions, s');
    } else {
      IdleRun(s, actions, s', c, x.result);
    }
  }

  /** Liveness: from any reachable state, any way of letting the threads at work run on as long as
      one of them can move is finite, and ends with every accepted task run exactly once, the workers
      asleep or gone, and every submit, wait and destroy returned, with its work done. */
  lemma {:induction false} EveryCallReturns(s: State, actions: seq<Action>, s': State)
    requires Reached(s)
    requires Leads(s, actions, s') && forall i :: 0 <= i < |actions| ==> Internal(actions[i])
    ensures |actions| <= Measure(s) && |s'.clients| == |s.clients|
    ensures Stuck(s') ==> AtRest(s') && forall c :: 0 <= c < |s.clients| ==> CallEnded(s, s', c)
    ensures !Stuck(s') ==> |actions| < Measure(s)
  {
    ReachedInv(s);
    InternalRunsAreBounded(s, actions, s');
    RunKeepsInv(s, actions, s');
    StuckMeansAtRest(s');
    if !Stuck(s') {
      var _ := SomeStep(s');
    } else {
      forall c | 0 <= c < |s.clients|
        ensures CallEnded(s, s', c)
      {
        InternalSpares(actions, c);
        CallsEnd(s, actions, s', c);
      }
    }
  }

  lemma SomeStep(s: State) returns (a: Action)
    requires Inv(s) && !Stuck(s)
    ensures Internal(a) && Enabled(s, a) && Inv(Step(s, a)) && Measure(Step(s, a)) < Measure(s)
  {
    a :| Internal(a) && Enabled(s, a);
    InternalStepShrinks(s, a);
    StepKeepsInv(s, a);
  }

  /** And there is such a schedule: rest is always within reach. */
  lemma {:induction false} RestIsReachable(s: State) returns (actions: seq<Action>, s': State)
    requires Inv(s)
    ensures Leads(s, actions, s') && AtRest(s')
    ensures forall i :: 0 <= i < |actions| ==> Internal(actions[i])
    decreases Measure(s)
  {
    StuckMeansAtRest(s);
    if Stuck(s) {
      actions, s' := [], s;
    } else {
      var a := SomeStep(s);
      actions, s' := RestIsReachable(Step(s, a));
      actions := [a] + actions;
    }
  }

  // ---------------------------------------------------------------- destroy terminates

  function DrainRank(w: Worker): nat {
    match w
    case Asleep => 0
    case Exited => 0
    case Ready => 1
    case Woken => 1
    case Unlocking => 2
    case Broadcasting => 3
    case OwesBroadcast => 4
    case Lowered(_) => 5
    case Returned(_) => 6
    case Executing(_, _) => 7
    case Raised(_, _) => 8
    case Checked(_, _) => 9
    case Popped(_, _) => 10
  }

  /** How many worker steps are left before all workers have exited, once the queue is closed. */
  function DrainMeasure(s: State): nat {
    Total(s.workers, DrainRank) + 11 * |s.queue|
  }

  lemma DrainWork(s: State, w: nat, wake: Option<nat>)
    requires LifeCycle(s) && s.closed && WorkerEnabled(s, w, wake)
    ensures DrainMeasure(WorkerStep(s, w, wake)) < DrainMeasure(s)
  {
    NotTerminated(s, w);
    WorkerWeight(s, w, wake, DrainRank);
  }

  lemma DrainAdvance(s: State, c: nat, wake: Option<nat>, completedFirst: bool)
    requires LifeCycle(s) && s.closed && ClientEnabled(s, c, wake)
    ensures DrainMeasure(ClientStep(s, c, wake, completedFirst)) <= DrainMeasure(s)
  {
    if InSubmit(s.clients[c]) {
      SubmitFrame(s, c, wake);
    } else if InWait(s.clients[c]) {
      WaitFrame(s, c, completedFirst);
    } else {
      assert DestroyerSound(s, s.clients[c]);
    }
  }

  /** After the queue is closed every worker step shrinks the measure, and no step of a client, old
      or new, raises it. */
  lemma DrainStep(s: State, a: Action)
    requires Inv(s) && s.closed && Enabled(s, a)
    ensures Step(s, a).closed
    ensures DrainMeasure(Step(s, a)) + (if a.Work? then 1 else 0) <= DrainMeasure(s)
  {
    PhaseStep(s, a);
    match a
    case Work(w, wake) => DrainWork(s, w, wake);
    case Advance(c, wake, completedFirst) => DrainAdvance(s, c, wake, completedFirst);
    case _ =>
  }

  function WorkSteps(actions: seq<Action>): nat {
    if actions == [] then 0 else (if actions[0].Work? then 1 else 0) + WorkSteps(actions[1..])
  }

  /** Destroy terminates: after the queue's shutdown the workers take boundedly many steps, however
      many submits, waits and destroys other clients begin meanwhile. */
  lemma {:induction false} DrainIsBounded(s: State, actions: seq<Action>, s': State)
    requires Inv(s) && s.closed && Leads(s, actions, s')
    ensures WorkSteps(actions) + DrainMeasure(s') <= DrainMeasure(s) && Inv(s') && s'.closed
    decreases |actions|
  {
    if actions != [] {
      DrainStep(s, actions[0]);
      StepKeepsInv(s, actions[0]);
      DrainIsBounded(Step(s, actions[0]), actions[1..], s');
    }
  }

  /** The steps in which a waiter that holds the wait lock ends its round of two loads. */
  function HoldSteps(c: Client): nat {
    if c.Looping? then 3 else if c.LoadedCompleted? || c.LoadedSubmitted? then 2 else if c.Deciding? then 1 else 0
  }

  /** In so many steps of its own, whichever load comes first, it gives the lock up, and disturbs
      nobody. */
  lemma {:induction false} HolderLetsGo(s: State, c: nat, completedFirst: bool)
    returns (actions: seq<Action>, s': State)
    requires c < |s.clients| && InWaitLoop(s.clients[c])
    ensures |actions| == HoldSteps(s.clients[c]) && Leads(s, actions, s')
    ensures forall i :: 0 <= i < |actions| ==> actions[i] == Advance(c, None, completedFirst)
    ensures s' == s.(waitOwner := Free, clients := s'.clients)
    decreases HoldSteps(s.clients[c])
  {
    var a := Advance(c, None, completedFirst);
    var next := Step(s, a);
    if s.clients[c].Deciding? {
      actions, s' := [], next;
    } else {
      actions, s' := HolderLetsGo(next, c, completedFirst);
    }
    actions := [a] + actions;
  }

  /** Until the last worker has exited some worker can move, if need be after at most three steps of
      the one waiter that holds the wait lock, whichever of its two loads comes first. */
  lemma {:induction false} DrainGoesOn(s: State, completedFirst: bool) returns (actions: seq<Action>, s': State)
    requires Inv(s) && s.closed && !AllExited(s)
    ensures |actions| <= 3 && Leads(s, actions, s') && s'.workers == s.workers && s'.queue == s.queue
    ensures forall i :: 0 <= i < |actions| ==>
              s.waitOwner.ClientOwns? && actions[i] == Advance(s.waitOwner.c, None, completedFirst)
    ensures exists a: Action :: a.Work? && Enabled(s', a)
  {
    if s.waitOwner.ClientOwns? {
      actions, s' := HolderLetsGo(s, s.waitOwner.c, completedFirst);
      RunKeepsInv(s, actions, s');
    } else {
      actions, s' := [], s;
    }
    WorkerGoesOn(s');
  }

  lemma WorkerGoesOn(s: State)
    requires Locking(s) && WakeUps(s) && s.closed && !AllExited(s) && !s.waitOwner.ClientOwns?
    ensures exists a: Action :: a.Work? && Enabled(s, a)
  {
    if s.waitOwner.WorkerOwns? {
      assert Enabled(s, Work(s.waitOwner.w, None));
    } else {
      var w :| 0 <= w < |s.workers| && !s.workers[w].Exited?;
      assert SignalsPusher(s, None);
      assert Enabled(s, Work(w, None));
    }
  }
}
