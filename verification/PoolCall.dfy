/** What every call of a client comes to: what submit, wait and destroy report when they return, and
    what they have brought about, over whole runs of the pool. */
module PoolCalls {
  import opened Collections
  import opened Totals
  import opened PoolModel
  import opened PoolInvariant
  import opened PoolSafety
  import opened PoolWait

  // ---------------------------------------------------------------- what the others do meanwhile

  /** Client c moves, or begins a call. */
  predicate Moves(a: Action, c: nat) {
    (a.Advance? || a.Start?) && a.c == c
  }

  /** A client that does not move is at most woken. */
  lemma OthersMove(s: State, a: Action, c: nat)
    requires Enabled(s, a) && c < |s.clients| && !Moves(a, c)
    ensures c < |Step(s, a).clients| && ClientWoke(s.clients[c], Step(s, a).clients[c])
  {
    match a
    case Work(w, wake) => WorkerFrame(s, w, wake);
    case Advance(d, wake, completedFirst) =>
      if InSubmit(s.clients[d]) {
        SubmitFrame(s, d, wake);
      } else if InWait(s.clients[d]) {
        WaitFrame(s, d, completedFirst);
      } else {
        DestroyFrame(s, d);
      }
    case _ =>
  }

  /** Nothing accepted, counted or finished is taken back, and a pool that is shut down stays so. */
  ghost predicate Grows(s: State, s': State) {
    && s.accepted <= s'.accepted && s.counted <= s'.counted && s.finished <= s'.finished
    && (s.closed ==> s'.closed) && (s'.phase.IsRunning? ==> s.phase.IsRunning?)
    && (s.phase.IsTerminated? ==> s'.phase.IsTerminated?)
  }

  lemma StepGrows(s: State, a: Action)
    requires LifeCycle(s) && Enabled(s, a)
    ensures Grows(s, Step(s, a))
  {
    PhaseStep(s, a);
    StepLogs(s, a);
    match a
    case Work(w, wake) => WorkerFrame(s, w, wake);
    case Advance(c, wake, completedFirst) =>
      if InWait(s.clients[c]) {
        WaitFrame(s, c, completedFirst);
      } else if InDestroy(s.clients[c]) {
        DestroyFrame(s, c);
      }
    case _ =>
  }

  lemma RestSpares(actions: seq<Action>, c: nat)
    requires actions != [] && Spares(actions, {c})
    ensures !(actions[0].Start? && actions[0].c == c) && Spares(actions[1..], {c})
  {
    assert forall i :: 0 <= i < |actions[1..]| ==> actions[1..][i] == actions[i + 1];
  }

  // ---------------------------------------------------------------- submit

  /** What a submit call of task t may report, if n tasks had been accepted when it was made: 0 if the
      task has been accepted since and is counted, else a code that says how the shutdown showed. */
  ghost predicate SubmitOutcome(s: State, t: Task, n: nat, result: int) {
    if result == 0 then exists k :: n <= k < |s.accepted| && s.accepted[k] == t && k in s.counted
    else !s.phase.IsRunning? && (result == -2 || (result == -1 && s.closed))
  }

  /** Client c is in such a call, or back from it; a call that is late finds the pool shut down. */
  ghost predicate SubmitGoesOn(s: State, c: nat, t: Task, n: nat, late: bool) {
    && c < |s.clients| && n <= |s.accepted| && (late ==> !s.phase.IsRunning?)
    && (InSubmit(s.clients[c]) || s.clients[c].Idle?)
    && (CarriesTask(s.clients[c]) ==> s.clients[c].t == t)
    && (s.clients[c].Pushed? ==> n <= s.clients[c].k < |s.accepted| && s.accepted[s.clients[c].k] == t)
    && (s.clients[c].Idle? ==> SubmitOutcome(s, t, n, s.clients[c].result))
    && (late ==> s.clients[c].Submitting? || s.clients[c] == Idle(-2))
  }

  lemma OwnSubmitStep(s: State, a: Action, c: nat, t: Task, n: nat, late: bool)
    requires LifeCycle(s) && SubmitGoesOn(s, c, t, n, late) && Enabled(s, a) && a.Advance? && a.c == c
    ensures SubmitGoesOn(Step(s, a), c, t, n, late)
  {
    SubmitFrame(s, c, a.wake);
    if s.clients[c].Pushed? {
      assert s.clients[c].k in Step(s, a).counted;
    }
  }

  lemma SubmitStepGoesOn(s: State, a: Action, c: nat, t: Task, n: nat, late: bool)
    requires LifeCycle(s) && SubmitGoesOn(s, c, t, n, late) && Enabled(s, a) && !(a.Start? && a.c == c)
    ensures SubmitGoesOn(Step(s, a), c, t, n, late)
  {
    if a.Advance? && a.c == c {
      OwnSubmitStep(s, a, c, t, n, late);
    } else {
      OthersMove(s, a, c);
      StepGrows(s, a);
    }
  }

  lemma {:induction false} SubmitRun(s: State, actions: seq<Action>, s': State, c: nat, t: Task, n: nat, late: bool)
    requires Inv(s) && SubmitGoesOn(s, c, t, n, late) && Leads(s, actions, s') && Spares(actions, {c})
    ensures SubmitGoesOn(s', c, t, n, late)
    decreases |actions|
  {
    if actions != [] {
      RestSpares(actions, c);
      SubmitStepGoesOn(s, actions[0], c, t, n, late);
      StepKeepsInv(s, actions[0]);
      SubmitRun(Step(s, actions[0]), actions[1..], s', c, t, n, late);
    }
  }

  lemma {:induction false} IdleRun(s: State, actions: seq<Action>, s': State, c: nat, result: int)
    requires c < |s.clients| && s.clients[c] == Idle(result) && Leads(s, actions, s') && Spares(actions, {c})
    ensures c < |s'.clients| && s'.clients[c] == Idle(result)
    decreases |actions|
  {
    if actions != [] {
      RestSpares(actions, c);
      OthersMove(s, actions[0], c);
      IdleRun(Step(s, actions[0]), actions[1..], s', c, result);
    }
  }

  /** A submit call from wherever it stands to its return. */
  lemma SubmitEnds(s: State, c: nat, actions: seq<Action>, s': State)
    requires Inv(s) && c < |s.clients| && InSubmit(s.clients[c])
    requires Leads(s, actions, s') && Spares(actions, {c})
    requires c < |s'.clients| && s'.clients[c].Idle?
    ensures var result := s'.clients[c].result;
            result == 0 || (!s'.phase.IsRunning? && (result == -1 || result == -2))
  {
    var x := s.clients[c];
    SubmitRun(s, actions, s', c, if x.Pushed? then s.accepted[x.k] else x.t, 0, false);
  }

  /** A submit call from its beginning to its return, whatever the others do meanwhile: a null function
      is refused at once with -1; a pool that has begun to shut down refuses with -2; else 0 is reported
      only if exactly this task has been accepted since, and counted, and anything else only if the pool
      has begun to shut down meanwhile. */
  lemma {:induction false} SubmitReturns(s: State, c: nat, t: Task, actions: seq<Action>, s': State)
    requires Reached(s) && Enabled(s, Start(c, Submit(t)))
    requires Leads(Step(s, Start(c, Submit(t))), actions, s') && Spares(actions, {c})
    requires c < |s'.clients| && s'.clients[c].Idle?
    ensures t.func == 0 ==> s'.clients[c].result == -1
    ensures t.func != 0 && !s.phase.IsRunning? ==> s'.clients[c].result == -2
    ensures t.func != 0 ==> SubmitOutcome(s', t, |s.accepted|, s'.clients[c].result)
  {
    var begun := Step(s, Start(c, Submit(t)));
    if t.func == 0 {
      IdleRun(begun, actions, s', c, -1);
    } else {
      ReachedOn(s, Start(c, Submit(t)));
      ReachedInv(begun);
      SubmitRun(begun, actions, s', c, t, |s.accepted|, !s.phase.IsRunning?);
    }
  }

  // ---------------------------------------------------------------- wait

  /** Client c is in a wait call that n submitted tasks precede, or back from it. */
  ghost predicate WaitGoesOn(s: State, c: nat, due: set<Ticket>, n: nat) {
    && Covers(s, c, due, n)
    && (s.clients[c].Idle? ==> s.clients[c].result == 0 && n <= |s.finished|)
  }

  lemma WaitStepGoesOn(s: State, a: Action, c: nat, due: set<Ticket>, n: nat)
    requires Inv(s) && WaitGoesOn(s, c, due, n) && Enabled(s, a) && !(a.Start? && a.c == c)
    ensures WaitGoesOn(Step(s, a), c, due, n)
  {
    CoversStep(s, a, c, due, n);
    if a.Advance? && a.c == c {
      WaitFrame(s, c, a.completedFirst);
      assert WaiterSafe(s, s.clients[c]);
    } else {
      OthersMove(s, a, c);
      StepGrows(s, a);
    }
  }

  lemma {:induction false} WaitRun(s: State, actions: seq<Action>, s': State, c: nat, due: set<Ticket>, n: nat)
    requires Inv(s) && WaitGoesOn(s, c, due, n) && Leads(s, actions, s') && Spares(actions, {c})
    ensures WaitGoesOn(s', c, due, n) && Inv(s')
    decreases |actions|
  {
    if actions != [] {
      RestSpares(actions, c);
      WaitStepGoesOn(s, actions[0], c, due, n);
      StepKeepsInv(s, actions[0]);
      WaitRun(Step(s, actions[0]), actions[1..], s', c, due, n);
    }
  }

  /** A wait call from the first load of any of its rounds on: it reports 0, and by the time it returns
      as many tasks have finished as were counted at that load. */
  lemma {:induction false} WaitRoundReturns(s: State, c: nat, actions: seq<Action>, s': State)
    requires Reached(s) && c < |s.clients| && (s.clients[c].WaitCalled? || s.clients[c].Looping?)
    requires Leads(s, actions, s') && Spares(actions, {c})
    requires c < |s'.clients| && s'.clients[c].Idle?
    ensures s'.clients[c].result == 0 && |s'.finished| >= s.submitted
  {
    ReachedInv(s);
    WaitRun(s, actions, s', c, s.clients[c].due, s.submitted);
  }

  /** A wait call from its beginning to its return and after, whatever the others do meanwhile: it
      reports 0, and by then the tasks that have not finished number at most the submitters that stood
      between push and count at the call, plus the tasks accepted since. */
  lemma {:induction false} WaitReturns(s: State, c: nat, actions: seq<Action>, s': State)
    requires Reached(s) && c < |s.clients| && s.clients[c].WaitCalled?
    requires Leads(s, actions, s') && Spares(actions, {c})
    requires c < |s'.clients| && s'.clients[c].Idle?
    ensures s'.clients[c].result == 0
    ensures |s'.accepted| - |s'.finished| <= Total(s.clients, IsUncounted) + (|s'.accepted| - |s.accepted|)
  {
    ReachedInv(s);
    WaitRoundReturns(s, c, actions, s');
  }

  /** If no submit is under way at the call and none begins before the return, nothing is left: the call
      reports 0, and every task ever accepted has finished, exactly once. */
  lemma {:induction false} QuietWaitReturns(s: State, c: nat, actions: seq<Action>, s': State)
    requires Reached(s) && c < |s.clients| && s.clients[c].WaitCalled? && NoSubmitter(s)
    requires Leads(s, actions, s') && Spares(actions, {c})
    requires forall i :: 0 <= i < |actions| ==> !BeginsSubmit(actions[i])
    requires c < |s'.clients| && s'.clients[c].Idle?
    ensures s'.clients[c].result == 0 && EveryAcceptedTaskFinished(s') && Distinct(s'.finished)
  {
    WaitReturns(s, c, actions, s');
    QuietRun(s, actions, s', c, s.accepted);
    TotalZero(s.clients, IsUncounted);
    ReachedByRun(s, actions, s');
    ReachedInv(s');
    FullLog(s');
  }

  // ---------------------------------------------------------------- destroy

  /** Client c is in a destroy call that has won the compare-exchange, or back from it. */
  ghost predicate WinnerGoesOn(s: State, c: nat) {
    c < |s.clients| && (IsDestroyer(s.clients[c]) == 1 || (s.clients[c].Idle? && s.phase.IsTerminated?))
  }

  lemma WinnerStepGoesOn(s: State, a: Action, c: nat)
    requires LifeCycle(s) && WinnerGoesOn(s, c) && Enabled(s, a) && !(a.Start? && a.c == c)
    ensures WinnerGoesOn(Step(s, a), c)
  {
    if a.Advance? && a.c == c {
      assert DestroyerSound(s, s.clients[c]);
      DestroyFrame(s, c);
    } else {
      OthersMove(s, a, c);
      StepGrows(s, a);
    }
  }

  lemma {:induction false} WinnerRun(s: State, actions: seq<Action>, s': State, c: nat)
    requires Inv(s) && WinnerGoesOn(s, c) && Leads(s, actions, s') && Spares(actions, {c})
    ensures WinnerGoesOn(s', c)
    decreases |actions|
  {
    if actions != [] {
      RestSpares(actions, c);
      WinnerStepGoesOn(s, actions[0], c);
      StepKeepsInv(s, actions[0]);
      WinnerRun(Step(s, actions[0]), actions[1..], s', c);
    }
  }

  /** A destroy call that begins to run with the pool RUNNING wins, shuts the pool down, and returns only
      after: TERMINATED is stored, the workers have exited, and every accepted task has run once. */
  lemma {:induction false} DestroyReturns(s: State, c: nat, actions: seq<Action>, s': State)
    requires Reached(s) && s.phase.IsRunning? && c < |s.clients| && s.clients[c].Destroying?
    requires Leads(Step(s, Advance(c, None, true)), actions, s') && Spares(actions, {c})
    requires c < |s'.clients| && s'.clients[c].Idle?
    ensures s'.phase.IsTerminated? && s'.closed && s'.shutdowns == 1 && AllExited(s') && AllDone(s')
  {
    var won := Step(s, Advance(c, None, true));
    ReachedOn(s, Advance(c, None, true));
    ReachedInv(won);
    WinnerRun(won, actions, s', c);
    ReachedByRun(won, actions, s');
    ReachedInv(s');
    ShutdownDrains(s');
  }

  /** Some destroy call has begun: it stands before the compare-exchange, or one has succeeded. */
  ghost predicate DestroyBegun(s: State) {
    s.phase.IsRunning? ==> exists c :: 0 <= c < |s.clients| && s.clients[c].Destroying?
  }

  lemma DestroyStaysBegun(s: State, a: Action)
    requires LifeCycle(s) && Enabled(s, a)
    requires DestroyBegun(s) || (a.Start? && a.call.Destroy?)
    ensures DestroyBegun(Step(s, a))
  {
    StepGrows(s, a);
    if a.Start? && a.call.Destroy? {
      assert Step(s, a).clients[a.c].Destroying?;
    } else if c :| s.phase.IsRunning? && 0 <= c < |s.clients| && s.clients[c].Destroying? {
      if !Moves(a, c) {
        OthersMove(s, a, c);
        assert Step(s, a).clients[c].Destroying?;
      }
    }
  }

  predicate BeginsDestroy(a: Action) {
    a.Start? && a.call.Destroy?
  }

  lemma {:induction false} DestroyRun(s: State, actions: seq<Action>, s': State)
    requires Inv(s) && Leads(s, actions, s')
    requires DestroyBegun(s) || exists i :: 0 <= i < |actions| && BeginsDestroy(actions[i])
    ensures DestroyBegun(s') && Inv(s')
    decreases |actions|
  {
    if actions != [] {
      StepKeepsInv(s, actions[0]);
      if DestroyBegun(s) || BeginsDestroy(actions[0]) {
        DestroyStaysBegun(s, actions[0]);
      } else {
        var i :| 0 <= i < |actions| && BeginsDestroy(actions[i]);
        assert actions[1..][i - 1] == actions[i];
      }
      DestroyRun(Step(s, actions[0]), actions[1..], s');
    }
  }

  ghost predicate NoCallUnderWay(s: State) {
    forall c :: 0 <= c < |s.clients| ==> s.clients[c].Idle?
  }

  /** A shutdown that has begun is over when no call is under way. */
  lemma ShutdownIsOver(s: State)
    requires Inv(s) && NoCallUnderWay(s) && !s.phase.IsRunning?
    ensures s.phase.IsTerminated? && s.closed && AllExited(s)
  {
    TotalZero(s.clients, IsDestroyer);
  }

  /** Destroy shuts the pool down: in any run in which somebody calls it, once no call is under way the
      pool is TERMINATED, exactly one of the calls has shut it down, the queue is closed, the workers
      have exited, and every accepted task has run once. */
  lemma {:induction false} DestroyShutsDown(s: State, actions: seq<Action>, s': State)
    requires Reached(s) && Leads(s, actions, s') && NoCallUnderWay(s')
    requires exists i :: 0 <= i < |actions| && BeginsDestroy(actions[i])
    ensures s'.phase.IsTerminated? && s'.closed && s'.shutdowns == 1 && AllExited(s') && AllDone(s')
  {
    ReachedInv(s);
    DestroyRun(s, actions, s');
    ShutdownIsOver(s');
    ReachedByRun(s, actions, s');
    ShutdownDrains(s');
  }
}
