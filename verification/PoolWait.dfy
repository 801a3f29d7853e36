/** What thread_pool_wait guarantees, and what it does not. */
module PoolWait {
  import opened Collections
  import opened Totals
  import opened PoolModel
  import opened PoolInvariant
  import opened PoolSafety

  /** Client c is in thread_pool_wait and its next step leaves the loop and returns. */
  predicate Returning(s: State, c: nat) {
    && c < |s.clients| && s.clients[c].Deciding?
    && s.clients[c].completed >= s.clients[c].submitted
  }

  ghost predicate EveryAcceptedTaskFinished(s: State) {
    forall k :: 0 <= k < |s.accepted| ==> k in s.finished
  }

  /** The promise of the documentation, "wait for all tasks to complete", at its most modest: every
      task whose submit call had returned success when this wait was called has finished. */
  ghost predicate PromiseKept(s: State, c: nat)
    requires Returning(s, c)
  {
    forall k :: k in s.clients[c].due ==> k in s.finished
  }

  // ---------------------------------------------------------------- the bound

  /** When wait returns, the accepted tasks that have not finished number at most the submitters
      that stood between push and count at the last round's first load, plus the tasks accepted
      since that load; whichever load came first. */
  lemma WaitBound(s: State, c: nat)
    requires Reached(s) && Returning(s, c)
    ensures |s.accepted| - |s.finished| <=
              s.clients[c].snap.uncounted + (|s.accepted| - s.clients[c].snap.accepted)
  {
    ReachedInv(s);
    assert WaiterSafe(s, s.clients[c]) && SnapshotSound(s, s.clients[c]);
  }

  /** The snapshot splits the tasks accepted at the load into those counted as submitted and those not. */
  lemma SnapshotIsExact(s: State)
    requires Reached(s)
    ensures TakeSnapshot(s).accepted == |s.accepted|
    ensures TakeSnapshot(s).uncounted == |s.accepted| - s.submitted
  {
    ReachedInv(s);
  }

  lemma TicketSetSize(n: nat) returns (all: set<Ticket>)
    ensures |all| == n && forall k :: k in all <==> 0 <= k < n
  {
    if n == 0 {
      all := {};
    } else {
      all := TicketSetSize(n - 1);
      all := all + {n - 1};
    }
  }

  function Elements(log: seq<Ticket>): set<Ticket> {
    set k | k in log
  }

  lemma {:induction false} DistinctSize(log: seq<Ticket>)
    requires Distinct(log)
    ensures |Elements(log)| == |log|
  {
    if log != [] {
      var init := log[..|log| - 1];
      DistinctSize(init);
      assert log == init + [log[|log| - 1]];
      assert Elements(log) == Elements(init) + {log[|log| - 1]};
      assert log[|log| - 1] !in init;
    }
  }

  /** As many finished tickets as accepted ones means all of them. */
  lemma FullLog(s: State)
    requires Inv(s) && |s.finished| >= |s.accepted|
    ensures EveryAcceptedTaskFinished(s)
  {
    var all := TicketSetSize(|s.accepted|);
    DistinctSize(s.finished);
    assert Elements(s.finished) <= all;
    if k :| 0 <= k < |s.accepted| && k !in s.finished {
      assert k in all && k !in Elements(s.finished);
      SubsetSize(Elements(s.finished), all - {k});
      assert false;
    }
  }

  /** If no submitter stood between push and count at the first load and nothing was accepted
      since, everything ever accepted has finished, exactly once. */
  lemma WaitIsComplete(s: State, c: nat)
    requires Reached(s) && Returning(s, c)
    requires s.clients[c].snap == Snapshot(|s.accepted|, 0)
    ensures EveryAcceptedTaskFinished(s) && Distinct(s.finished) && PromiseKept(s, c)
  {
    WaitBound(s, c);
    ReachedInv(s);
    FullLog(s);
    assert SnapshotSound(s, s.clients[c]);
  }

  // ---------------------------------------------------------------- runs that go on

  /** None of the actions begins a call of one of these clients. */
  predicate Spares(actions: seq<Action>, quiet: set<nat>) {
    forall i :: 0 <= i < |actions| && actions[i].Start? ==> actions[i].c !in quiet
  }

  /** Some run in which these clients begin no call leads from s to s'. */
  ghost predicate GoesOn(s: State, quiet: set<nat>, s': State) {
    exists actions :: Leads(s, actions, s') && Spares(actions, quiet)
  }

  lemma GoesNowhere(s: State, quiet: set<nat>)
    ensures GoesOn(s, quiet, s)
  {
    assert Leads(s, [], s) && Spares([], quiet);
  }

  lemma {:induction false} LeadsOn(s: State, actions: seq<Action>, mid: State, a: Action)
    requires Leads(s, actions, mid) && Enabled(mid, a)
    ensures Leads(s, actions + [a], Step(mid, a))
    decreases |actions|
  {
    if actions == [] {
      assert Leads(Step(s, a), [], Step(mid, a));
      assert ([] + [a])[1..] == [];
    } else {
      LeadsOn(Step(s, actions[0]), actions[1..], mid, a);
      assert (actions + [a])[1..] == actions[1..] + [a];
    }
  }

  /** One more step. */
  lemma OneStepOn(s: State, quiet: set<nat>, mid: State, a: Action)
    requires GoesOn(s, quiet, mid) && Enabled(mid, a) && (a.Start? ==> a.c !in quiet)
    ensures GoesOn(s, quiet, Step(mid, a))
  {
    var actions :| Leads(s, actions, mid) && Spares(actions, quiet);
    LeadsOn(s, actions, mid, a);
    assert Spares(actions + [a], quiet);
  }

  lemma {:induction false} ReachedByRun(s: State, actions: seq<Action>, s': State)
    requires Reached(s) && Leads(s, actions, s')
    ensures Reached(s') && |s'.workers| == |s.workers| && |s'.clients| == |s.clients| && s'.capacity == s.capacity
    decreases |actions|
  {
    if actions != [] {
      ReachedOn(s, actions[0]);
      StepKeepsSizes(s, actions[0]);
      ReachedByRun(Step(s, actions[0]), actions[1..], s');
    }
  }

  /** One more step keeps a state reached. */
  lemma ReachedOn(s: State, a: Action)
    requires Reached(s) && Enabled(s, a)
    ensures Reached(Step(s, a))
  {
    var start := Created(|s.workers|, s.capacity, |s.clients|);
    var actions :| Leads(start, actions, s);
    LeadsOn(start, actions, s, a);
    StepKeepsSizes(s, a);
  }

  // ---------------------------------------------------------------- quiet waits

  /** No submit call is under way. */
  ghost predicate NoSubmitter(s: State) {
    forall c :: 0 <= c < |s.clients| ==> !InSubmit(s.clients[c])
  }

  predicate BeginsSubmit(a: Action) {
    a.Start? && a.call.Submit?
  }

  /** No submit call is under way, nothing has been accepted since the log was `accepted`, and the
      round of loads that client c may be in began no earlier. */
  ghost predicate Quiet(s: State, c: nat, accepted: seq<Task>) {
    && NoSubmitter(s) && s.accepted == accepted
    && c < |s.clients| && (HasSnapshot(s.clients[c]) ==> s.clients[c].snap == Snapshot(|accepted|, 0))
  }

  predicate HasSnapshot(c: Client) {
    c.LoadedCompleted? || c.LoadedSubmitted? || c.Deciding?
  }

  lemma QuietWork(s: State, w: nat, wake: Option<nat>, c: nat, accepted: seq<Task>)
    requires Quiet(s, c, accepted) && WorkerEnabled(s, w, wake)
    ensures Quiet(WorkerStep(s, w, wake), c, accepted)
  {
    WorkerFrame(s, w, wake);
    var s' := WorkerStep(s, w, wake);
    assert ClientWoke(s.clients[c], s'.clients[c]);
  }

  lemma QuietWait(s: State, d: nat, completedFirst: bool, c: nat, accepted: seq<Task>)
    requires Quiet(s, c, accepted) && ClientEnabled(s, d, None) && InWait(s.clients[d])
    ensures Quiet(WaitStep(s, d, completedFirst), c, accepted)
  {
    WaitFrame(s, d, completedFirst);
    TotalZero(s.clients, IsUncounted);
  }

  lemma QuietDestroy(s: State, d: nat, c: nat, accepted: seq<Task>)
    requires Quiet(s, c, accepted) && ClientEnabled(s, d, None) && InDestroy(s.clients[d])
    ensures Quiet(DestroyStep(s, d), c, accepted)
  {
    DestroyFrame(s, d);
    assert c != d ==> ClientWoke(s.clients[c], DestroyStep(s, d).clients[c]);
  }

  lemma QuietStep(s: State, a: Action, c: nat, accepted: seq<Task>)
    requires Quiet(s, c, accepted) && Enabled(s, a) && !BeginsSubmit(a)
    ensures Quiet(Step(s, a), c, accepted)
  {
    match a
    case Work(w, wake) => QuietWork(s, w, wake, c, accepted);
    case Advance(d, wake, completedFirst) =>
      assert !InSubmit(s.clients[d]);
      if InWait(s.clients[d]) {
        QuietWait(s, d, completedFirst, c, accepted);
      } else {
        QuietDestroy(s, d, c, accepted);
      }
    case _ =>
  }

  lemma {:induction false} QuietRun(s: State, actions: seq<Action>, s': State, c: nat, accepted: seq<Task>)
    requires Quiet(s, c, accepted) && Leads(s, actions, s')
    requires forall i :: 0 <= i < |actions| ==> !BeginsSubmit(actions[i])
    ensures Quiet(s', c, accepted)
    decreases |actions|
  {
    if actions != [] {
      assert !BeginsSubmit(actions[0]);
      QuietStep(s, actions[0], c, accepted);
      QuietRun(Step(s, actions[0]), actions[1..], s', c, accepted);
    }
  }

  /** What any number of clients can arrange among themselves: if no submit call is under way when
      wait is called, and none begins before it returns, then when it returns every task ever
      accepted has finished, exactly once, whatever else the clients do meanwhile. */
  lemma {:induction false} QuietWaitIsComplete(s: State, c: nat, actions: seq<Action>, s': State)
    requires Reached(s) && c < |s.clients| && s.clients[c].WaitCalled? && NoSubmitter(s)
    requires Leads(s, actions, s') && forall i :: 0 <= i < |actions| ==> !BeginsSubmit(actions[i])
    requires Returning(s', c)
    ensures s'.accepted == s.accepted && EveryAcceptedTaskFinished(s') && Distinct(s'.finished)
  {
    QuietRun(s, actions, s', c, s.accepted);
    ReachedByRun(s, actions, s');
    WaitIsComplete(s', c);
  }

  // ---------------------------------------------------------------- one client

  /** With a single client nothing is submitted while it waits. */
  ghost predicate Undisturbed(s: State) {
    forall c :: 0 <= c < |s.clients| && HasSnapshot(s.clients[c]) ==>
      s.clients[c].snap == Snapshot(|s.accepted|, 0)
  }

  lemma SingleClientStep(s: State, a: Action)
    requires |s.clients| == 1 && Enabled(s, a) && Undisturbed(s)
    ensures Undisturbed(Step(s, a))
  {
    match a
    case Work(w, wake) => WorkerFrame(s, w, wake);
    case Advance(c, wake, completedFirst) =>
      if InSubmit(s.clients[c]) {
        SubmitFrame(s, c, wake);
      } else if InWait(s.clients[c]) {
        WaitFrame(s, c, completedFirst);
        if s.clients[c].Looping? {
          TotalZero(s.clients, IsUncounted);
        }
      } else {
        DestroyFrame(s, c);
      }
    case _ =>
  }

  lemma {:induction false} SingleClientRun(s: State, actions: seq<Action>, s': State)
    requires |s.clients| == 1 && Undisturbed(s) && Leads(s, actions, s')
    ensures Undisturbed(s')
    decreases |actions|
  {
    if actions != [] {
      SingleClientStep(s, actions[0]);
      StepKeepsSizes(s, actions[0]);
      SingleClientRun(Step(s, actions[0]), actions[1..], s');
    }
  }

  lemma SingleClientIsServed(s: State, c: nat)
    requires Reached(s) && |s.clients| <= 1 && Returning(s, c)
    ensures PromiseKept(s, c) && EveryAcceptedTaskFinished(s)
  {
    var start := Created(|s.workers|, s.capacity, 1);
    var actions :| Leads(start, actions, s);
    SingleClientRun(start, actions, s);
    WaitIsComplete(s, c);
  }

  // ---------------------------------------------------------------- two clients

  /** From s0 on: an undisturbed submit call, up to the moment before the task is counted. */
  lemma Submits(s0: State, quiet: set<nat>, s: State, c: nat, t: Task) returns (s': State)
    requires GoesOn(s0, quiet, s) && c !in quiet
    requires c < |s.clients| && s.clients[c].Idle? && t.func != 0
    requires s.phase.IsRunning? && !s.closed && !Full(s) && SignalsWorker(s, None)
    ensures GoesOn(s0, quiet, s')
    ensures s' == s.(queue := s.queue + [t], accepted := s.accepted + [t],
                     clients := s.clients[c := Pushed(|s.accepted|)])
  {
    OneStepOn(s0, quiet, s, Start(c, Submit(t)));
    s' := Step(s, Start(c, Submit(t)));
    OneStepOn(s0, quiet, s', Advance(c, None, true));
    s' := Step(s', Advance(c, None, true));
    OneStepOn(s0, quiet, s', Advance(c, None, true));
    s' := Step(s', Advance(c, None, true));
    assert s'.clients == s.clients[c := Pushed(|s.accepted|)];
  }

  /** It is counted, and the call returns success. */
  lemma Counts(s0: State, quiet: set<nat>, s: State, c: nat) returns (s': State)
    requires GoesOn(s0, quiet, s) && c < |s.clients| && s.clients[c].Pushed?
    ensures GoesOn(s0, quiet, s')
    ensures s' == s.(submitted := s.submitted + 1, counted := s.counted + {s.clients[c].k},
                     clients := s.clients[c := Idle(0)])
  {
    OneStepOn(s0, quiet, s, Advance(c, None, true));
    s' := Step(s, Advance(c, None, true));
  }

  /** A ready worker takes the first task. */
  lemma Takes(s0: State, quiet: set<nat>, s: State, w: nat) returns (s': State)
    requires GoesOn(s0, quiet, s) && w < |s.workers| && s.workers[w].Ready? && s.queue != []
    requires !s.phase.IsTerminated? && SignalsPusher(s, None)
    ensures GoesOn(s0, quiet, s')
    ensures s' == s.(queue := s.queue[1..], popped := s.popped + [s.queue[0]],
                     workers := s.workers[w := Checked(|s.popped|, s.queue[0])])
  {
    OneStepOn(s0, quiet, s, Work(w, None));
    s' := Step(s, Work(w, None));
    OneStepOn(s0, quiet, s', Work(w, None));
    s' := Step(s', Work(w, None));
    assert s'.workers == s.workers[w := Checked(|s.popped|, s.queue[0])];
  }

  /** And begins it. */
  lemma Begins(s0: State, quiet: set<nat>, s: State, w: nat) returns (s': State)
    requires GoesOn(s0, quiet, s) && w < |s.workers| && s.workers[w].Checked?
    ensures GoesOn(s0, quiet, s')
    ensures s' == s.(active := s.active + 1, started := s.started + [s.workers[w].k],
                     workers := s.workers[w := Executing(s.workers[w].k, s.workers[w].t)])
  {
    OneStepOn(s0, quiet, s, Work(w, None));
    s' := Step(s, Work(w, None));
    OneStepOn(s0, quiet, s', Work(w, None));
    s' := Step(s', Work(w, None));
    assert s'.workers == s.workers[w := Executing(s.workers[w].k, s.workers[w].t)];
  }

  /** The task returns. */
  lemma Returns(s0: State, quiet: set<nat>, s: State, w: nat) returns (s': State)
    requires GoesOn(s0, quiet, s) && w < |s.workers| && s.workers[w].Executing?
    ensures GoesOn(s0, quiet, s')
    ensures s' == s.(active := s.active - 1, finished := s.finished + [s.workers[w].k],
                     workers := s.workers[w := Lowered(s.workers[w].k)])
  {
    OneStepOn(s0, quiet, s, Work(w, None));
    s' := Step(s, Work(w, None));
    OneStepOn(s0, quiet, s', Work(w, None));
    s' := Step(s', Work(w, None));
    assert s'.workers == s.workers[w := Lowered(s.workers[w].k)];
  }

  /** And is counted. */
  lemma Completes(s0: State, quiet: set<nat>, s: State, w: nat) returns (s': State)
    requires GoesOn(s0, quiet, s) && w < |s.workers| && s.workers[w].Lowered?
    ensures GoesOn(s0, quiet, s')
    ensures s' == s.(completed := s.completed + 1, workers := s.workers[w := OwesBroadcast])
  {
    OneStepOn(s0, quiet, s, Work(w, None));
    s' := Step(s, Work(w, None));
  }

  lemma CallsWait(s0: State, quiet: set<nat>, s: State, c: nat) returns (s': State)
    requires GoesOn(s0, quiet, s) && c !in quiet && c < |s.clients| && s.clients[c].Idle?
    ensures GoesOn(s0, quiet, s')
    ensures s' == s.(clients := s.clients[c := WaitCalled(s.counted)])
  {
    OneStepOn(s0, quiet, s, Start(c, Wait));
    s' := Step(s, Start(c, Wait));
  }

  /** An undisturbed round of thread_pool_wait, up to the decision. */
  lemma Loads(s0: State, quiet: set<nat>, s: State, c: nat) returns (s': State)
    requires GoesOn(s0, quiet, s) && c < |s.clients| && s.clients[c].WaitCalled? && s.waitOwner.Free?
    ensures GoesOn(s0, quiet, s') && c < |s'.clients| && s'.clients[c].Deciding?
    ensures s' == s.(waitOwner := ClientOwns(c), clients := s.clients[c :=
              Deciding(s.clients[c].due, s.completed, s.submitted, s'.clients[c].snap)])
  {
    OneStepOn(s0, quiet, s, Advance(c, None, true));
    s' := Step(s, Advance(c, None, true));
    OneStepOn(s0, quiet, s', Advance(c, None, true));
    s' := Step(s', Advance(c, None, true));
    OneStepOn(s0, quiet, s', Advance(c, None, true));
    s' := Step(s', Advance(c, None, true));
    assert s'.clients == s.clients[c := s'.clients[c]];
  }

  /** One client pushes x, which is run and counted complete before the client counts it. A second
      client then submits y, the call returns success, and its wait returns at once although y is
      still in the queue: the early completion of x has paid for it. One worker is enough. */
  lemma TwoClientsCanBeFooled(size: nat, capacity: nat, clients: nat, x: Task, y: Task) returns (s: State)
    requires size > 0 && clients > 1 && x.func != 0 && y.func != 0
    ensures Reached(s) && |s.workers| == size && s.capacity == capacity && |s.clients| == clients
    ensures Returning(s, 1) && !PromiseKept(s, 1)
    ensures s.queue == [y] && s.clients[1].due == {1}
  {
    var s0 := Created(size, capacity, clients);
    GoesNowhere(s0, {});
    s := Submits(s0, {}, s0, 0, x);
    s := Takes(s0, {}, s, 0);
    s := Begins(s0, {}, s, 0);
    s := Returns(s0, {}, s, 0);
    s := Completes(s0, {}, s, 0);
    s := Submits(s0, {}, s, 1, y);
    s := Counts(s0, {}, s, 1);
    s := CallsWait(s0, {}, s, 1);
    s := Loads(s0, {}, s, 1);
    assert 1 in s.clients[1].due;
  }

  /** When the documented promise holds: for pools used by one client, and only for those. */
  lemma WaitPromiseIffOneClient(size: nat, capacity: nat, clients: nat)
    requires size > 0
    ensures (forall s, c | Reached(s) && |s.workers| == size && s.capacity == capacity &&
                           |s.clients| == clients && Returning(s, c) :: PromiseKept(s, c))
            <==> clients <= 1
  {
    if clients > 1 {
      var s := TwoClientsCanBeFooled(size, capacity, clients, Task(1, 0, Normal), Task(2, 0, Normal));
      assert Returning(s, 1);
    } else {
      forall s, c | Reached(s) && |s.clients| == clients && Returning(s, c)
        ensures PromiseKept(s, c)
      {
        SingleClientIsServed(s, c);
      }
    }
  }

  // ---------------------------------------------------------------- waits called while no submit is under way

  /** Client c has just called wait while no submit was under way, and the call has come to its
      return; other clients may have begun submits meanwhile. */
  ghost predicate CalmCall(s: State, c: nat, s': State) {
    && Reached(s) && c < |s.clients| && s.clients[c].WaitCalled? && NoSubmitter(s)
    && GoesOn(s, {c}, s') && Returning(s', c)
  }

  /** As long as the call lasts, n tasks or more are submitted, and a loaded count says so. */
  ghost predicate Covers(s: State, c: nat, due: set<Ticket>, n: nat) {
    && c < |s.clients| && n <= s.submitted
    && (s.clients[c].Idle? || (InWait(s.clients[c]) && s.clients[c].due == due))
    && (s.clients[c].LoadedSubmitted? || s.clients[c].Deciding? ==> n <= s.clients[c].submitted)
  }

  lemma CoversStep(s: State, a: Action, c: nat, due: set<Ticket>, n: nat)
    requires Covers(s, c, due, n) && Enabled(s, a) && !(a.Start? && a.c == c)
    ensures Covers(Step(s, a), c, due, n)
  {
    match a
    case Work(w, wake) => WorkerFrame(s, w, wake);
    case Advance(d, wake, completedFirst) =>
      if InSubmit(s.clients[d]) {
        SubmitFrame(s, d, wake);
      } else if InWait(s.clients[d]) {
        WaitFrame(s, d, completedFirst);
      } else {
        DestroyFrame(s, d);
      }
    case _ =>
  }

  lemma {:induction false} CoversRun(s: State, actions: seq<Action>, s': State, c: nat, due: set<Ticket>, n: nat)
    requires Covers(s, c, due, n) && Leads(s, actions, s') && Spares(actions, {c})
    ensures Covers(s', c, due, n)
    decreases |actions|
  {
    if actions != [] {
      assert !(actions[0].Start? && actions[0].c == c);
      CoversStep(s, actions[0], c, due, n);
      assert forall i :: 0 <= i < |actions[1..]| ==> actions[1..][i] == actions[i + 1];
      CoversRun(Step(s, actions[0]), actions[1..], s', c, due, n);
    }
  }

  /** Everything accepted before the call has returned if as many tasks have returned and they
      return in order. */
  lemma SoloCalmCall(s: State, c: nat, s': State)
    requires CalmCall(s, c, s') && |s.workers| == 1
    ensures PromiseKept(s', c)
  {
    var actions :| Leads(s, actions, s') && Spares(actions, {c});
    ReachedInv(s);
    TotalZero(s.clients, IsUncounted);
    assert SnapshotSound(s, s.clients[c]);
    CoversRun(s, actions, s', c, s.clients[c].due, |s.accepted|);
    ReachedByRun(s, actions, s');
    ReachedInv(s');
    SoloRunsInPushOrder(s');
    OrderedLogHas(s'.finished);
    assert WaiterSafe(s', s'.clients[c]);
  }

  /** A client submits y, the call returns success, and the client calls wait. */
  lemma CalmCallBegins(size: nat, capacity: nat, clients: nat, y: Task) returns (s: State)
    requires size > 0 && clients > 1 && y.func != 0
    ensures Reached(s)
    ensures var s0 := Created(size, capacity, clients);
            s == s0.(queue := [y], accepted := [y], submitted := 1, counted := {0},
                     clients := s0.clients[1 := WaitCalled({0})])
  {
    var s0 := Created(size, capacity, clients);
    GoesNowhere(s0, {});
    s := Submits(s0, {}, s0, 1, y);
    s := Counts(s0, {}, s, 1);
    assert s.counted == {0} && s.queue == s.accepted == [y];
    s := CallsWait(s0, {}, s, 1);
    assert s.clients == s0.clients[1 := WaitCalled({0})];
  }

  /** Two workers and two clients: y is submitted when its client calls wait, with no submit under
      way. Then one worker takes y, z is pushed, and the other worker runs z and counts it complete
      before it is counted as submitted: it pays for y. */
  lemma CalmCallCanBeFooled(size: nat, capacity: nat, clients: nat, y: Task, z: Task) returns (s: State, s': State)
    requires size > 1 && clients > 1 && y.func != 0 && z.func != 0
    ensures |s.workers| == size && s.capacity == capacity && |s.clients| == clients
    ensures CalmCall(s, 1, s') && !PromiseKept(s', 1)
  {
    s := CalmCallBegins(size, capacity, clients, y);
    GoesNowhere(s, {1});
    s' := Takes(s, {1}, s, 0);
    s' := Submits(s, {1}, s', 0, z);
    s' := Takes(s, {1}, s', 1);
    s' := Begins(s, {1}, s', 1);
    s' := Returns(s, {1}, s', 1);
    s' := Completes(s, {1}, s', 1);
    s' := Loads(s, {1}, s', 1);
    assert 0 in s'.clients[1].due;
  }

  /** When the promise holds of all waits that are called while no submit is under way: for pools of
      one worker, and for pools used by one client, and only for those. */
  lemma CalmPromiseIff(size: nat, capacity: nat, clients: nat)
    requires size > 0
    ensures (forall s, c, s' | CalmCall(s, c, s') && |s.workers| == size && s.capacity == capacity &&
                               |s.clients| == clients :: PromiseKept(s', c))
            <==> size == 1 || clients <= 1
  {
    if size > 1 && clients > 1 {
      var s, s' := CalmCallCanBeFooled(size, capacity, clients, Task(1, 0, Normal), Task(2, 0, Normal));
      assert CalmCall(s, 1, s');
    } else {
      forall s, c, s' | CalmCall(s, c, s') && |s.workers| == size && |s.clients| == clients
        ensures PromiseKept(s', c)
      {
        if size == 1 {
          SoloCalmCall(s, c, s');
        } else {
          var actions :| Leads(s, actions, s') && Spares(actions, {c});
          ReachedByRun(s, actions, s');
          SingleClientIsServed(s', c);
        }
      }
    }
  }
}
