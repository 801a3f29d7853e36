/** What holds in every reachable state of the pool. */
module PoolSafety {
  import opened Collections
  import opened Totals
  import opened PoolModel
  import opened PoolInvariant

  // ---------------------------------------------------------------- counters

  /** Every accepted task is queued, in a worker's hands, or counted as completed; every accepted
      task is counted as submitted or its submitter is about to count it. */
  lemma CountersConserved(s: State)
    requires Reached(s)
    ensures s.submitted + Total(s.clients, IsUncounted) == |s.queue| + Total(s.workers, InHand) + s.completed
    ensures s.active == Total(s.workers, IsActive) && 0 <= s.active <= |s.workers|
  {
    ReachedInv(s);
    TotalBound(s.workers, s.workers, IsActive, _ => 0, 1);
    TotalZero(s.workers, _ => 0);
  }

  // ---------------------------------------------------------------- tasks

  /** A task is run under one ticket, in one worker, as the task that was accepted under it, and its
      function is not null. */
  lemma RunsAtMostOnce(s: State)
    requires Reached(s)
    ensures Distinct(s.started) && Distinct(s.finished)
    ensures forall k :: k in s.finished ==> k in s.started
    ensures forall k :: k in s.started ==> k < |s.accepted|
    ensures forall w :: 0 <= w < |s.workers| && s.workers[w].Executing? ==>
              s.workers[w].k < |s.accepted| && s.accepted[s.workers[w].k] == s.workers[w].t
              && s.workers[w].t.func != 0
  {
    ReachedInv(s);
  }

  /** Every accepted task has started once and returned once. */
  ghost predicate AllDone(s: State) {
    && s.queue == [] && s.popped == s.accepted
    && Distinct(s.started) && Distinct(s.finished)
    && (forall k :: 0 <= k < |s.accepted| <==> k in s.started)
    && (forall k :: 0 <= k < |s.accepted| <==> k in s.finished)
    && s.completed == |s.finished| == |s.accepted|
  }

  lemma IdleWorkersAreDone(s: State)
    requires Inv(s) && s.queue == []
    requires forall w :: 0 <= w < |s.workers| ==> s.workers[w].Asleep? || s.workers[w].Exited?
    ensures AllDone(s)
  {
    TotalZero(s.workers, InHand);
    TotalZero(s.workers, IsReturned);
  }

  /** When the last worker has exited, the queue is drained: nothing accepted was discarded. */
  lemma ShutdownDrains(s: State)
    requires Reached(s) && AllExited(s)
    ensures AllDone(s) && s.closed
  {
    ReachedInv(s);
    assert s.workers[0].Exited?;
    IdleWorkersAreDone(s);
  }

  /** Once the last join has returned, task_queue_destroy has no node left to discard. */
  lemma NothingLeftToDiscard(s: State, c: nat)
    requires Reached(s)
    requires c < |s.clients| && (s.clients[c].Releasing? || s.clients[c] == Joining(|s.workers|))
    ensures AllExited(s) && AllDone(s)
  {
    ReachedInv(s);
    ShutdownDrains(s);
  }

  lemma DrainedStep(s: State, a: Action)
    requires Enabled(s, a) && s.closed && s.queue == []
    ensures Step(s, a).closed && Step(s, a).queue == [] && Step(s, a).accepted == s.accepted
  {
  }

  /** "Empty and shut down", the exit condition of a worker, is never left again, and from then on
      nothing is accepted. */
  lemma {:induction false} DrainedIsStable(s: State, actions: seq<Action>, s': State)
    requires s.closed && s.queue == [] && Leads(s, actions, s')
    ensures s'.closed && s'.queue == [] && s'.accepted == s.accepted
    decreases |actions|
  {
    if actions != [] {
      DrainedStep(s, actions[0]);
      DrainedIsStable(Step(s, actions[0]), actions[1..], s');
    }
  }

  /** The workers are never all asleep with work left. */
  lemma NeverAllAsleepWithWork(s: State)
    requires Reached(s) && forall w :: 0 <= w < |s.workers| ==> s.workers[w].Asleep?
    ensures AllDone(s)
  {
    ReachedInv(s);
    TotalZero(s.workers, IsWoken);
    assert s.workers[0].Asleep?;
    IdleWorkersAreDone(s);
  }

  /** What a submit call reports when it returns: 0 exactly when its task was accepted and is now
      counted; otherwise the pool was being shut down, the task went nowhere, and the code tells
      whether the state (-2) or the closed queue (-1) gave it away. */
  lemma SubmitReports(s: State, c: nat, wake: Option<nat>)
    requires Reached(s) && ClientEnabled(s, c, wake) && InSubmit(s.clients[c])
    requires SubmitStep(s, c, wake).clients[c].Idle?
    ensures var s', result := SubmitStep(s, c, wake), SubmitStep(s, c, wake).clients[c].result;
            && (result == 0 <==> s.clients[c].Pushed?)
            && (result == 0 ==> s.clients[c].k < |s.accepted| && s'.counted == s.counted + {s.clients[c].k})
            && (result != 0 ==> !s.phase.IsRunning? && s'.accepted == s.accepted && s'.queue == s.queue)
            && (result == -2 <==> s.clients[c].Submitting?) && (result == -1 ==> s.closed)
  {
    ReachedInv(s);
  }

  // ---------------------------------------------------------------- life cycle

  /** A worker that has popped a task never finds the pool TERMINATED, so it never drops the task. */
  lemma EarlyBreakUnreachable(s: State, w: nat)
    requires Reached(s)
    requires w < |s.workers| && s.workers[w].Popped?
    ensures !s.phase.IsTerminated?
  {
    ReachedInv(s);
    NotTerminated(s, w);
  }

  /** Of any number of destroy calls at most one passes the compare-exchange, and TERMINATED is not
      stored before every worker has exited. */
  lemma OneShutdown(s: State)
    requires Reached(s)
    ensures s.shutdowns <= 1 && Total(s.clients, IsDestroyer) <= s.shutdowns
    ensures s.phase.IsTerminated? ==> AllExited(s)
  {
    ReachedInv(s);
  }

  function PhaseNumber(p: Phase): nat {
    match p case IsRunning => 0 case IsShutdown => 1 case IsTerminated => 2
  }

  lemma PhaseStep(s: State, a: Action)
    requires LifeCycle(s) && Enabled(s, a)
    ensures PhaseNumber(s.phase) <= PhaseNumber(Step(s, a).phase)
    ensures s.closed ==> Step(s, a).closed
  {
    match a
    case Work(w, wake) => WorkerFrame(s, w, wake);
    case Advance(c, wake, completedFirst) =>
      if InSubmit(s.clients[c]) {
        SubmitFrame(s, c, wake);
      } else if InWait(s.clients[c]) {
        WaitFrame(s, c, completedFirst);
      } else {
        assert DestroyerSound(s, s.clients[c]);
      }
    case _ =>
  }

  /** Over any run the pool state only moves forward, and a closed queue stays closed. */
  lemma {:induction false} PhaseMovesForward(s: State, actions: seq<Action>, s': State)
    requires Inv(s) && Leads(s, actions, s')
    ensures PhaseNumber(s.phase) <= PhaseNumber(s'.phase)
    ensures s.closed ==> s'.closed
    decreases |actions|
  {
    if actions != [] {
      PhaseStep(s, actions[0]);
      StepKeepsInv(s, actions[0]);
      PhaseMovesForward(Step(s, actions[0]), actions[1..], s');
    }
  }

  // ---------------------------------------------------------------- sleepers

  /** No lost wake-up on the queue: while a worker sleeps there are enough woken workers for the
      queued tasks, and while a submitter sleeps enough woken submitters for the free places. */
  lemma NoLostQueueWakeUp(s: State)
    requires Reached(s)
    ensures forall w :: 0 <= w < |s.workers| && s.workers[w].Asleep? ==>
              !s.closed && |s.queue| <= Total(s.workers, IsWoken)
    ensures forall c :: 0 <= c < |s.clients| && s.clients[c].PushAsleep? ==>
              !s.closed && s.capacity - |s.queue| <= Total(s.clients, IsPushWoken)
  {
    ReachedInv(s);
  }

  /** No lost completion wake-up: a waiter that sleeps, or has the wait lock and is about to sleep,
      has work to wait for or a broadcast to come. */
  lemma NoLostCompletionWakeUp(s: State, c: nat)
    requires Reached(s) && c < |s.clients|
    requires || s.clients[c].WaitAsleep?
             || (s.clients[c].Deciding? && s.clients[c].completed < s.clients[c].submitted)
    ensures s.completed < s.submitted || BroadcastOwed(s)
  {
    ReachedInv(s);
    assert WaiterSafe(s, s.clients[c]);
  }

  ghost predicate NobodyAsleep(s: State) {
    && (forall w :: 0 <= w < |s.workers| ==> !s.workers[w].Asleep?)
    && (forall c :: 0 <= c < |s.clients| ==> !s.clients[c].PushAsleep? && !s.clients[c].WaitAsleep?)
  }

  lemma NobodyAsleepAfterExit(s: State)
    requires Inv(s) && AllExited(s)
    ensures NobodyAsleep(s)
  {
    assert s.workers[0].Exited?;
    IdleWorkersAreDone(s);
    forall c | 0 <= c < |s.clients|
      ensures !s.clients[c].PushAsleep? && !s.clients[c].WaitAsleep?
    {
      assert WaiterSafe(s, s.clients[c]);
    }
  }

  /** An exited worker stays exited. */
  lemma ExitIsFinal(s: State, a: Action)
    requires Enabled(s, a) && AllExited(s)
    ensures AllExited(Step(s, a))
  {
    match a
    case Advance(c, wake, completedFirst) =>
      if InSubmit(s.clients[c]) {
        SubmitFrame(s, c, wake);
      } else if InWait(s.clients[c]) {
        WaitFrame(s, c, completedFirst);
      } else {
        DestroyFrame(s, c);
      }
    case _ =>
  }

  /** From the exit of the last worker on, whatever the clients do, nobody sleeps on any condition
      variable of the pool; so destroying them strands no thread. */
  lemma {:induction false} NobodyAsleepAtTeardown(s: State, actions: seq<Action>, s': State)
    requires Inv(s) && AllExited(s) && Leads(s, actions, s')
    ensures AllExited(s') && NobodyAsleep(s')
    decreases |actions|
  {
    if actions == [] {
      NobodyAsleepAfterExit(s);
    } else {
      StepKeepsInv(s, actions[0]);
      ExitIsFinal(s, actions[0]);
      NobodyAsleepAtTeardown(Step(s, actions[0]), actions[1..], s');
    }
  }

  // ---------------------------------------------------------------- spurious wake-ups

  /** A sleeper may wake at any time without a signal, and it costs nothing: a worker that finds the
      queue empty goes back to sleep, and the pool is as it was. */
  lemma SpuriousWorkerSleepsOn(s: State, w: nat)
    requires w < |s.workers| && s.workers[w].Asleep? && s.queue == [] && !s.closed
    ensures Leads(s, [SpuriousWorker(w), Work(w, None)], s)
  {
    var woken := Step(s, SpuriousWorker(w));
    assert Step(woken, Work(w, None)).workers == s.workers;
    assert Leads(s, [], s);
    assert Leads(woken, [Work(w, None)], s);
  }

  /** So does a submitter that finds the queue full. */
  lemma SpuriousPusherSleepsOn(s: State, c: nat, completedFirst: bool)
    requires c < |s.clients| && s.clients[c].PushAsleep? && Full(s) && !s.closed
    ensures Leads(s, [SpuriousClient(c), Advance(c, None, completedFirst)], s)
  {
    var woken := Step(s, SpuriousClient(c));
    assert Step(woken, Advance(c, None, completedFirst)).clients == s.clients;
    assert Leads(s, [], s);
    assert Leads(woken, [Advance(c, None, completedFirst)], s);
  }

  /** A round of the two loads, with the counts still apart, ends asleep and with the wait lock free. */
  lemma RoundSleepsOn(s: State, c: nat, completedFirst: bool)
    requires c < |s.clients| && s.clients[c].Looping? && s.completed < s.submitted
    ensures var a := Advance(c, None, completedFirst);
            Leads(s, [a, a, a], s.(waitOwner := Free, clients := s.clients[c := WaitAsleep(s.clients[c].due)]))
  {
    var a := Advance(c, None, completedFirst);
    var loaded := Step(s, a);
    var deciding := Step(loaded, a);
    var goal := s.(waitOwner := Free, clients := s.clients[c := WaitAsleep(s.clients[c].due)]);
    assert Step(deciding, a).clients == goal.clients;
    assert Leads(goal, [], goal);
    assert Leads(deciding, [a], goal);
    assert Leads(loaded, [a, a], goal);
  }

  /** And a waiter that finds the wait lock free and the counts still apart, whichever it loads first. */
  lemma SpuriousWaiterSleepsOn(s: State, c: nat, completedFirst: bool)
    requires c < |s.clients| && s.clients[c].WaitAsleep? && s.waitOwner.Free? && s.completed < s.submitted
    ensures var a := Advance(c, None, completedFirst); Leads(s, [SpuriousClient(c), a, a, a, a], s)
  {
    var a := Advance(c, None, completedFirst);
    var woken := Step(s, SpuriousClient(c));
    var looping := Step(woken, a);
    assert looping.clients[c := s.clients[c]] == s.clients;
    RoundSleepsOn(looping, c, completedFirst);
    assert Leads(woken, [a, a, a, a], s);
  }

  // ---------------------------------------------------------------- order

  /** The tickets in the hands of some workers. */
  function Hands(ws: seq<Worker>): set<Ticket> {
    if ws == [] then {} else (if HasTask(ws[0]) then {ws[0].k} else {}) + Hands(ws[1..])
  }

  lemma {:induction false} HandsBound(ws: seq<Worker>)
    ensures |Hands(ws)| <= |ws|
    ensures forall v :: 0 <= v < |ws| && HasTask(ws[v]) ==> ws[v].k in Hands(ws)
  {
    if ws != [] {
      HandsBound(ws[1..]);
      forall v | 0 <= v < |ws| && HasTask(ws[v])
        ensures ws[v].k in Hands(ws)
      {
        assert v > 0 ==> ws[v] == ws[1..][v - 1];
      }
    }
  }

  lemma SubsetSize<T>(a: set<T>, b: set<T>)
    requires a <= b
    ensures |a| <= |b|
  {
    assert b == a + (b - a);
  }

  /** The earlier tickets whose tasks have not returned. */
  function Overtaken(s: State, i: Ticket): set<Ticket> {
    set j: Ticket | 0 <= j < i && j !in s.finished
  }

  /** Bounded reordering: in a pool of W workers, when a task starts, all but at most W - 1 of the tasks accepted before
      it have run to the end. */
  lemma BoundedReordering(s: State, w: nat)
    requires Inv(s) && w < |s.workers| && HasTask(s.workers[w])
    ensures |Overtaken(s, s.workers[w].k)| <= |s.workers| - 1
  {
    var others := s.workers[..w] + s.workers[w + 1..];
    HandsBound(others);
    forall j | j in Overtaken(s, s.workers[w].k)
      ensures j in Hands(others)
    {
      assert Held(s, j);
      var v :| 0 <= v < |s.workers| && Holds(s.workers[v], j);
      assert s.workers[v] == others[if v < w then v else v - 1];
    }
    SubsetSize(Overtaken(s, s.workers[w].k), Hands(others));
  }

  ghost predicate InPushOrder(log: seq<Ticket>) {
    forall i :: 0 <= i < |log| ==> log[i] == i
  }

  lemma OrderedLogHas(log: seq<Ticket>)
    requires InPushOrder(log)
    ensures forall i :: 0 <= i < |log| ==> i in log
  {
    forall i | 0 <= i < |log|
      ensures i in log
    {
      assert log[i] == i;
    }
  }

  /** A lone worker holds the first ticket that has not returned. */
  lemma SoloHolds(s: State)
    requires Inv(s) && |s.workers| == 1 && HasTask(s.workers[0])
    ensures forall j :: 0 <= j < s.workers[0].k ==> j in s.finished
  {
    BoundedReordering(s, 0);
    assert Overtaken(s, s.workers[0].k) == {};
    forall j | 0 <= j < s.workers[0].k
      ensures j in s.finished
    {
      assert j !in Overtaken(s, s.workers[0].k);
    }
  }

  /** The next entry of an ordered log: it has all smaller ones, and not this one. */
  lemma NextInOrder(log: seq<Ticket>, k: Ticket)
    requires InPushOrder(log) && k !in log && forall j :: 0 <= j < k ==> j in log
    ensures InPushOrder(log + [k])
  {
    OrderedLogHas(log);
    assert |log| !in log;
  }

  lemma SoloStep(s: State, a: Action)
    requires Inv(s) && |s.workers| == 1 && Enabled(s, a) && InPushOrder(s.started) && InPushOrder(s.finished)
    ensures InPushOrder(Step(s, a).started) && InPushOrder(Step(s, a).finished)
  {
    StepLogs(s, a);
    if a.Work? && s.workers[a.w].Raised? {
      SoloHolds(s);
      NextInOrder(s.started, s.workers[0].k);
    } else if a.Work? && s.workers[a.w].Executing? {
      SoloHolds(s);
      NextInOrder(s.finished, s.workers[0].k);
    }
  }

  /** What a step adds to the start and return logs. */
  lemma StepLogs(s: State, a: Action)
    requires Enabled(s, a)
    ensures Step(s, a).started ==
              if a.Work? && s.workers[a.w].Raised? then s.started + [s.workers[a.w].k] else s.started
    ensures Step(s, a).finished ==
              if a.Work? && s.workers[a.w].Executing? then s.finished + [s.workers[a.w].k] else s.finished
  {
    match a
    case Advance(c, wake, completedFirst) =>
      if InSubmit(s.clients[c]) {
        SubmitFrame(s, c, wake);
      } else if InWait(s.clients[c]) {
        WaitFrame(s, c, completedFirst);
      } else {
        DestroyFrame(s, c);
      }
    case _ =>
  }

  lemma {:induction false} SoloRun(s: State, actions: seq<Action>, s': State)
    requires Inv(s) && |s.workers| == 1 && Leads(s, actions, s')
    requires InPushOrder(s.started) && InPushOrder(s.finished)
    ensures InPushOrder(s'.started) && InPushOrder(s'.finished)
    decreases |actions|
  {
    if actions != [] {
      SoloStep(s, actions[0]);
      StepKeepsInv(s, actions[0]);
      StepKeepsSizes(s, actions[0]);
      SoloRun(Step(s, actions[0]), actions[1..], s');
    }
  }

  /** With one worker, tasks start, and return, in exactly the order in which they were accepted. */
  lemma SoloRunsInPushOrder(s: State)
    requires Reached(s) && |s.workers| == 1
    ensures InPushOrder(s.started) && InPushOrder(s.finished)
  {
    CreatedInv(1, s.capacity, |s.clients|);
    var actions :| Leads(Created(1, s.capacity, |s.clients|), actions, s);
    SoloRun(Created(1, s.capacity, |s.clients|), actions, s);
  }
}
