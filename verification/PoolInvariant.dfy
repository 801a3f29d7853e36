/** What every step of the pool keeps. Each part of the invariant has its own preservation lemma. */
module PoolInvariant {
  import opened Collections
  import opened Totals
  import opened PoolModel

  // ---------------------------------------------------------------- thread weights

  /** Popped and not yet counted as completed. */
  function InHand(w: Worker): nat {
    if w.Popped? || w.Checked? || w.Raised? || w.Executing? || w.Returned? || w.Lowered? then 1 else 0
  }

  /** Between raising and lowering active_tasks. */
  function IsActive(w: Worker): nat {
    if w.Raised? || w.Executing? || w.Returned? then 1 else 0
  }

  /** The task has returned but is not yet counted as completed. */
  function IsReturned(w: Worker): nat {
    if w.Returned? || w.Lowered? then 1 else 0
  }

  function IsWoken(w: Worker): nat { if w.Woken? then 1 else 0 }

  function IsPushWoken(c: Client): nat { if c.PushWoken? then 1 else 0 }

  /** A destroy call that has won the compare-exchange and not yet returned. */
  function IsDestroyer(c: Client): nat {
    if c.Closing? || c.Joining? || c.Releasing? then 1 else 0
  }

  predicate HasTask(w: Worker) { w.Popped? || w.Checked? || w.Raised? || w.Executing? }

  /** The worker has taken ticket k from the queue and its task has not returned. */
  predicate Holds(w: Worker, k: Ticket) { HasTask(w) && w.k == k }

  ghost predicate Held(s: State, k: Ticket) {
    exists w :: 0 <= w < |s.workers| && Holds(s.workers[w], k)
  }

  // ---------------------------------------------------------------- the invariant, part by part

  /** A submit call with its task still in hand. */
  predicate CarriesTask(c: Client) {
    c.Submitting? || c.Pushing? || c.PushAsleep? || c.PushWoken?
  }

  /** First in, first out: what was accepted is what was popped, then what is queued; and no task has
      a null function. */
  ghost predicate Flow(s: State) {
    && s.accepted == s.popped + s.queue
    && (s.capacity > 0 ==> |s.queue| <= s.capacity)
    && (forall w :: 0 <= w < |s.workers| && HasTask(s.workers[w]) ==>
          s.workers[w].k < |s.popped| && s.popped[s.workers[w].k] == s.workers[w].t)
    && (forall c :: 0 <= c < |s.clients| && s.clients[c].Pushed? ==> s.clients[c].k < |s.accepted|)
    && (forall k :: 0 <= k < |s.accepted| ==> s.accepted[k].func != 0)
    && (forall c :: 0 <= c < |s.clients| && CarriesTask(s.clients[c]) ==> s.clients[c].t.func != 0)
    && (forall k :: k in s.counted ==> k < |s.accepted|)
  }

  ghost predicate Accounting(s: State) {
    && s.submitted + Total(s.clients, IsUncounted) == |s.accepted|
    && s.completed + Total(s.workers, InHand) == |s.popped|
    && s.active == Total(s.workers, IsActive)
    && |s.finished| == s.completed + Total(s.workers, IsReturned)
  }

  /** Who has which ticket: no ticket is in two hands, started twice or finished twice. */
  ghost predicate Ownership(s: State) {
    && Distinct(s.finished) && Distinct(s.started)
    && (forall v, w :: 0 <= v < w < |s.workers| && HasTask(s.workers[v]) && HasTask(s.workers[w]) ==>
          s.workers[v].k != s.workers[w].k)
    && (forall w :: 0 <= w < |s.workers| && HasTask(s.workers[w]) ==>
          && s.workers[w].k < |s.popped|
          && s.workers[w].k !in s.finished
          && (s.workers[w].k in s.started <==> s.workers[w].Executing?))
    && (forall k :: k in s.finished ==> k in s.started)
    && (forall k :: k in s.started ==> k < |s.popped|)
  }

  /** No popped ticket is lost. */
  ghost predicate Coverage(s: State) {
    forall k :: 0 <= k < |s.popped| ==> k in s.finished || Held(s, k)
  }

  /** No wake-up on the queue's conditions is lost. */
  ghost predicate WakeUps(s: State) {
    && (forall w :: 0 <= w < |s.workers| && s.workers[w].Asleep? ==>
          !s.closed && |s.queue| <= Total(s.workers, IsWoken))
    && (forall c :: 0 <= c < |s.clients| && s.clients[c].PushAsleep? ==>
          !s.closed && s.capacity > 0 && s.capacity - |s.queue| <= Total(s.clients, IsPushWoken))
  }

  ghost predicate Locking(s: State) {
    && (forall w :: 0 <= w < |s.workers| ==>
          (s.waitOwner == WorkerOwns(w) <==> s.workers[w].Broadcasting? || s.workers[w].Unlocking?))
    && (forall c :: 0 <= c < |s.clients| ==> (s.waitOwner == ClientOwns(c) <==> InWaitLoop(s.clients[c])))
    && (s.waitOwner.WorkerOwns? ==> s.waitOwner.w < |s.workers|)
    && (s.waitOwner.ClientOwns? ==> s.waitOwner.c < |s.clients|)
  }

  /** Some worker has raised completed_tasks and its broadcast is still to come. */
  ghost predicate BroadcastOwed(s: State) {
    exists w :: 0 <= w < |s.workers| && (s.workers[w].OwesBroadcast? || s.workers[w].Broadcasting?)
  }

  /** No wake-up on wait_cond is lost, whichever of the two loads came first. */
  ghost predicate CompletionWakeUps(s: State) {
    forall c :: 0 <= c < |s.clients| ==> WaiterSafe(s, s.clients[c])
  }

  ghost predicate WaiterSafe(s: State, c: Client) {
    match c
    case WaitAsleep(_) => s.completed < s.submitted || BroadcastOwed(s)
    case LoadedCompleted(_, completed, _) =>
      completed <= s.completed && (completed == s.completed || BroadcastOwed(s))
    case LoadedSubmitted(_, submitted, _) => submitted <= s.submitted
    case Deciding(_, completed, submitted, _) =>
      && completed <= s.completed && submitted <= s.submitted
      && (completed == s.completed || BroadcastOwed(s))
    case _ => true
  }

  /** What the loads of a wait call have seen, against the snapshot at the first of them. */
  ghost predicate Snapshots(s: State) {
    forall c :: 0 <= c < |s.clients| ==> SnapshotSound(s, s.clients[c])
  }

  ghost predicate SnapshotSound(s: State, c: Client) {
    && (InWait(c) ==> forall k :: k in c.due ==> k < |s.accepted|)
    && (c.LoadedCompleted? || c.LoadedSubmitted? || c.Deciding? ==>
          && c.snap.accepted <= |s.accepted|
          && c.snap.accepted <= s.submitted + c.snap.uncounted
          && (forall k :: k in c.due ==> k < c.snap.accepted))
    && (c.LoadedSubmitted? || c.Deciding? ==> c.snap.accepted <= c.submitted + c.snap.uncounted)
  }

  ghost predicate AllExited(s: State) {
    forall w :: 0 <= w < |s.workers| ==> s.workers[w].Exited?
  }

  /** No destroyer while the pool runs, exactly one while it shuts down, at most one after. */
  predicate DestroyersFit(p: Phase, destroyers: nat) {
    match p
    case IsRunning => destroyers == 0
    case IsShutdown => destroyers == 1
    case IsTerminated => destroyers <= 1
  }

  ghost predicate LifeCycle(s: State) {
    && |s.workers| > 0
    && (s.closed ==> !s.phase.IsRunning?)
    && s.shutdowns == (if s.phase.IsRunning? then 0 else 1)
    && DestroyersFit(s.phase, Total(s.clients, IsDestroyer))
    && (forall w :: 0 <= w < |s.workers| && s.workers[w].Exited? ==> s.closed && s.queue == [])
    && (s.phase.IsTerminated? ==> s.closed && AllExited(s))
    && (forall c :: 0 <= c < |s.clients| ==> DestroyerSound(s, s.clients[c]))
  }

  ghost predicate DestroyerSound(s: State, c: Client) {
    match c
    case Closing => s.phase.IsShutdown? && !s.closed
    case Joining(i) =>
      && s.phase.IsShutdown? && s.closed && i <= |s.workers|
      && (forall w :: 0 <= w < i ==> s.workers[w].Exited?)
    case Releasing => s.phase.IsTerminated?
    case _ => true
  }

  ghost predicate Inv(s: State) {
    && Flow(s) && Accounting(s) && Ownership(s) && Coverage(s) && WakeUps(s) && Locking(s)
    && CompletionWakeUps(s) && Snapshots(s) && LifeCycle(s)
  }

  // ---------------------------------------------------------------- what a step leaves alone

  /** The same worker, or a sleeper that has been woken. */
  predicate WorkerWoke(w: Worker, w': Worker) {
    w' == w || (w.Asleep? && w'.Woken?)
  }

  predicate ClientWoke(c: Client, c': Client) {
    || c' == c
    || (c.PushAsleep? && c' == PushWoken(c.t))
    || (c.WaitAsleep? && c' == WaitWoken(c.due))
  }

  /** Worker w has moved, and has at most woken clients. */
  ghost predicate OnlyWorkerMoved(s: State, s': State, w: nat)
    requires w < |s.workers|
  {
    && |s'.workers| == |s.workers| && |s'.clients| == |s.clients|
    && s'.workers == s.workers[w := s'.workers[w]]
    && (forall v :: 0 <= v < |s.workers| && v != w ==> s'.workers[v] == s.workers[v])
    && (forall c :: 0 <= c < |s.clients| ==> ClientWoke(s.clients[c], s'.clients[c]))
    && s'.capacity == s.capacity && s'.closed == s.closed && s'.phase == s.phase
    && s'.submitted == s.submitted && s'.accepted == s.accepted && s'.counted == s.counted
    && s'.shutdowns == s.shutdowns
  }

  lemma WorkerFrame(s: State, w: nat, wake: Option<nat>)
    requires WorkerEnabled(s, w, wake)
    ensures OnlyWorkerMoved(s, WorkerStep(s, w, wake), w)
  {
  }

  /** A submit step changes its own program point and at most wakes one worker. */
  lemma SubmitFrame(s: State, c: nat, wake: Option<nat>)
    requires ClientEnabled(s, c, wake) && InSubmit(s.clients[c])
    ensures var s' := SubmitStep(s, c, wake);
            && s' == s.(queue := s'.queue, accepted := s'.accepted, submitted := s'.submitted,
                        counted := s'.counted, workers := s'.workers, clients := s'.clients)
            && |s'.workers| == |s.workers| && |s'.clients| == |s.clients|
            && s'.clients == s.clients[c := s'.clients[c]]
            && (InSubmit(s'.clients[c]) || s'.clients[c].Idle?)
            && (forall w :: 0 <= w < |s.workers| ==> WorkerWoke(s.workers[w], s'.workers[w]))
  {
  }

  /** A wait step touches nothing but the wait lock and its own program point. */
  lemma WaitFrame(s: State, c: nat, completedFirst: bool)
    requires ClientEnabled(s, c, None) && InWait(s.clients[c])
    ensures var s' := WaitStep(s, c, completedFirst);
            && s' == s.(waitOwner := s'.waitOwner, clients := s'.clients)
            && |s'.clients| == |s.clients|
            && s'.clients == s.clients[c := s'.clients[c]]
            && (InWait(s'.clients[c]) || s'.clients[c].Idle?)
  {
  }

  /** A destroy step wakes at most workers and pushers, and leaves the counters and logs alone. */
  lemma DestroyFrame(s: State, c: nat)
    requires ClientEnabled(s, c, None) && InDestroy(s.clients[c])
    ensures var s' := DestroyStep(s, c);
            && s' == s.(queue := s'.queue, closed := s'.closed, phase := s'.phase,
                        shutdowns := s'.shutdowns, workers := s'.workers, clients := s'.clients)
            && |s'.workers| == |s.workers| && |s'.clients| == |s.clients|
            && (InDestroy(s'.clients[c]) || s'.clients[c].Idle?)
            && (forall w :: 0 <= w < |s.workers| ==> WorkerWoke(s.workers[w], s'.workers[w]))
            && (forall d :: 0 <= d < |s.clients| && d != c ==> ClientWoke(s.clients[d], s'.clients[d]))
            && (s.queue != [] && s'.queue == [] ==> s.clients[c].Releasing?)
            && (s'.queue == s.queue || s'.queue == [])
  {
  }

  /** How a weight over workers moves in a worker step. */
  lemma WorkerWeight(s: State, w: nat, wake: Option<nat>, f: Worker -> nat)
    requires WorkerEnabled(s, w, wake)
    ensures var s' := WorkerStep(s, w, wake);
            Total(s'.workers, f) + f(s.workers[w]) == Total(s.workers, f) + f(s'.workers[w])
  {
    WorkerFrame(s, w, wake);
    TotalUpdate(s.workers, w, WorkerStep(s, w, wake).workers[w], f);
  }

  /** The same for a weight over clients in a destroy step, if it does not tell sleepers from woken. */
  lemma DestroyWeight(s: State, c: nat, f: Client -> nat)
    requires ClientEnabled(s, c, None) && InDestroy(s.clients[c])
    requires forall x, y :: ClientWoke(x, y) ==> f(x) == f(y)
    ensures var s' := DestroyStep(s, c);
            Total(s'.clients, f) + f(s.clients[c]) == Total(s.clients, f) + f(s'.clients[c])
  {
    DestroyFrame(s, c);
    var s' := DestroyStep(s, c);
    TotalSame(s'.clients, s.clients[c := s'.clients[c]], f, f);
    TotalUpdate(s.clients, c, s'.clients[c], f);
  }

  lemma WeightsWhenWoken(ws: seq<Worker>, ws': seq<Worker>)
    requires |ws| == |ws'| && forall w :: 0 <= w < |ws| ==> WorkerWoke(ws[w], ws'[w])
    ensures Total(ws', InHand) == Total(ws, InHand)
    ensures Total(ws', IsActive) == Total(ws, IsActive)
    ensures Total(ws', IsReturned) == Total(ws, IsReturned)
  {
    TotalSame(ws', ws, InHand, InHand);
    TotalSame(ws', ws, IsActive, IsActive);
    TotalSame(ws', ws, IsReturned, IsReturned);
  }

  /** Only one destroy call is past the compare-exchange. */
  lemma OneDestroyer(s: State, c: nat, d: nat)
    requires LifeCycle(s) && c < |s.clients| && d < |s.clients| && c != d
    requires IsDestroyer(s.clients[c]) == 1
    ensures IsDestroyer(s.clients[d]) == 0
  {
    TotalAtLeastTwo(s.clients, if c < d then c else d, if c < d then d else c, IsDestroyer);
  }

  /** No worker gives up a task it has popped: the pool state is not TERMINATED while one is left. */
  lemma NotTerminated(s: State, w: nat)
    requires LifeCycle(s) && w < |s.workers| && !s.workers[w].Exited?
    ensures !s.phase.IsTerminated?
  {
  }

  // ---------------------------------------------------------------- worker steps keep every part

  lemma WorkerKeepsFlow(s: State, w: nat, wake: Option<nat>)
    requires Flow(s) && WorkerEnabled(s, w, wake)
    ensures Flow(WorkerStep(s, w, wake))
  {
    WorkerFrame(s, w, wake);
    var x, x' := s.workers[w], WorkerStep(s, w, wake).workers[w];
    assert HasTask(x') ==> if HasTask(x) then x'.k == x.k && x'.t == x.t
                           else s.queue != [] && x' == Popped(|s.popped|, s.queue[0]);
  }

  /** Counters and logs move in step with the worker's own weights. */
  lemma WorkerCounters(s: State, w: nat, wake: Option<nat>)
    requires LifeCycle(s) && WorkerEnabled(s, w, wake)
    ensures var s' := WorkerStep(s, w, wake); var x, x' := s.workers[w], s'.workers[w];
            && s'.completed + InHand(x') + |s.popped| == s.completed + InHand(x) + |s'.popped|
            && s'.active + IsActive(x) == s.active + IsActive(x')
  {
    NotTerminated(s, w);
  }

  lemma WorkerReturns(s: State, w: nat, wake: Option<nat>)
    requires WorkerEnabled(s, w, wake)
    ensures var s' := WorkerStep(s, w, wake); var x, x' := s.workers[w], s'.workers[w];
            |s'.finished| + s.completed + IsReturned(x) == |s.finished| + s'.completed + IsReturned(x')
  {
  }

  lemma WorkerKeepsAccounting(s: State, w: nat, wake: Option<nat>)
    requires Accounting(s) && LifeCycle(s) && WorkerEnabled(s, w, wake)
    ensures Accounting(WorkerStep(s, w, wake))
  {
    WorkerCounters(s, w, wake);
    WorkerReturns(s, w, wake);
    WorkerWeight(s, w, wake, InHand);
    WorkerWeight(s, w, wake, IsActive);
    WorkerWeight(s, w, wake, IsReturned);
    WorkerFrame(s, w, wake);
    TotalSame(WorkerStep(s, w, wake).clients, s.clients, IsUncounted, IsUncounted);
  }

  /** Worker w takes the next ticket, begins it, ends it, or leaves the tickets alone. */
  ghost predicate TicketMoves(s: State, s': State, w: nat)
    requires w < |s.workers| == |s'.workers|
  {
    var x, x' := s.workers[w], s'.workers[w];
    && (HasTask(x') ==> if HasTask(x) then x'.k == x.k && !x.Executing?
                        else x'.Popped? && x'.k == |s.popped| && |s'.popped| == |s.popped| + 1)
    && |s.popped| <= |s'.popped| && (x'.Executing? <==> x.Raised?)
    && s'.started == s.started + (if x.Raised? then [x.k] else [])
    && s'.finished == s.finished + (if x.Executing? then [x.k] else [])
  }

  lemma WorkerMovesTicket(s: State, w: nat, wake: Option<nat>)
    requires LifeCycle(s) && WorkerEnabled(s, w, wake)
    ensures |WorkerStep(s, w, wake).workers| == |s.workers| && TicketMoves(s, WorkerStep(s, w, wake), w)
  {
    NotTerminated(s, w);
  }

  lemma TicketMovesKeepOwnership(s: State, s': State, w: nat)
    requires Ownership(s) && w < |s.workers| == |s'.workers| && TicketMoves(s, s', w)
    requires forall v :: 0 <= v < |s.workers| && v != w ==> s'.workers[v] == s.workers[v]
    ensures Ownership(s')
  {
  }

  lemma WorkerKeepsOwnership(s: State, w: nat, wake: Option<nat>)
    requires Ownership(s) && LifeCycle(s) && WorkerEnabled(s, w, wake)
    ensures Ownership(WorkerStep(s, w, wake))
  {
    WorkerFrame(s, w, wake);
    WorkerMovesTicket(s, w, wake);
    TicketMovesKeepOwnership(s, WorkerStep(s, w, wake), w);
  }

  lemma WorkerKeepsCoverage(s: State, w: nat, wake: Option<nat>)
    requires Coverage(s) && LifeCycle(s) && WorkerEnabled(s, w, wake)
    ensures Coverage(WorkerStep(s, w, wake))
  {
    NotTerminated(s, w);
    WorkerFrame(s, w, wake);
    var s' := WorkerStep(s, w, wake);
    forall k | 0 <= k < |s'.popped|
      ensures k in s'.finished || Held(s', k)
    {
      if k < |s.popped| && k !in s.finished {
        var v :| 0 <= v < |s.workers| && Holds(s.workers[v], k);
        assert v != w || k in s'.finished || Holds(s'.workers[v], k);
      } else if k == |s.popped| {
        assert Holds(s'.workers[w], k);
      }
    }
  }

  /** A worker that pops frees one place, and wakes a submitter for it if one sleeps. */
  lemma PopWakes(s: State, w: nat, wake: Option<nat>)
    requires WorkerEnabled(s, w, wake)
    ensures var s' := WorkerStep(s, w, wake);
            && |s'.queue| + (if Pops(s, w) then 1 else 0) == |s.queue|
            && Total(s'.clients, IsPushWoken)
                 == Total(s.clients, IsPushWoken) + (if Pops(s, w) && wake.Some? then 1 else 0)
            && |s'.workers| == |s.workers| && (s'.workers[w].Asleep? ==> s.queue == [] && !s.closed)
            && IsWoken(s'.workers[w]) == 0 && (s.workers[w].Woken? && s.queue != [] ==> Pops(s, w))
  {
    var s' := WorkerStep(s, w, wake);
    if Pops(s, w) && wake.Some? {
      TotalUpdate(s.clients, wake.value, s'.clients[wake.value], IsPushWoken);
    } else {
      TotalSame(s'.clients, s.clients, IsPushWoken, IsPushWoken);
    }
  }

  lemma WorkerKeepsWakeUps(s: State, w: nat, wake: Option<nat>)
    requires WakeUps(s) && WorkerEnabled(s, w, wake)
    ensures WakeUps(WorkerStep(s, w, wake))
  {
    WorkerFrame(s, w, wake);
    WorkerWeight(s, w, wake, IsWoken);
    PopWakes(s, w, wake);
  }

  lemma WorkerKeepsLocking(s: State, w: nat, wake: Option<nat>)
    requires Locking(s) && WorkerEnabled(s, w, wake)
    ensures Locking(WorkerStep(s, w, wake))
  {
    WorkerFrame(s, w, wake);
  }

  lemma WorkerKeepsCompletionWakeUps(s: State, w: nat, wake: Option<nat>)
    requires CompletionWakeUps(s) && Locking(s) && WorkerEnabled(s, w, wake)
    ensures CompletionWakeUps(WorkerStep(s, w, wake))
  {
    WorkerFrame(s, w, wake);
  }

  lemma WorkerKeepsSnapshots(s: State, w: nat, wake: Option<nat>)
    requires Snapshots(s) && WorkerEnabled(s, w, wake)
    ensures Snapshots(WorkerStep(s, w, wake))
  {
    WorkerFrame(s, w, wake);
  }

  lemma WorkerExits(s: State, w: nat, wake: Option<nat>)
    requires LifeCycle(s) && WorkerEnabled(s, w, wake)
    ensures var s' := WorkerStep(s, w, wake);
            && |s'.workers| == |s.workers| && (s.queue == [] ==> s'.queue == [])
            && (s'.workers[w].Exited? ==> s.closed && s'.queue == [])
  {
    NotTerminated(s, w);
  }

  lemma MoveKeepsLifeCycle(s: State, s': State, w: nat)
    requires LifeCycle(s) && w < |s.workers| && !s.workers[w].Exited? && OnlyWorkerMoved(s, s', w)
    requires s.queue == [] ==> s'.queue == []
    requires s'.workers[w].Exited? ==> s.closed && s'.queue == []
    ensures LifeCycle(s')
  {
    NotTerminated(s, w);
    TotalSame(s'.clients, s.clients, IsDestroyer, IsDestroyer);
    forall c | 0 <= c < |s'.clients|
      ensures DestroyerSound(s', s'.clients[c])
    {
      assert ClientWoke(s.clients[c], s'.clients[c]) && DestroyerSound(s, s.clients[c]);
    }
  }

  lemma WorkerKeepsLifeCycle(s: State, w: nat, wake: Option<nat>)
    requires LifeCycle(s) && WorkerEnabled(s, w, wake)
    ensures LifeCycle(WorkerStep(s, w, wake))
  {
    WorkerFrame(s, w, wake);
    WorkerExits(s, w, wake);
    MoveKeepsLifeCycle(s, WorkerStep(s, w, wake), w);
  }

  // ---------------------------------------------------------------- submit steps keep every part

  lemma SubmitKeepsFlow(s: State, c: nat, wake: Option<nat>)
    requires Flow(s) && ClientEnabled(s, c, wake) && InSubmit(s.clients[c])
    ensures Flow(SubmitStep(s, c, wake))
  {
    SubmitFrame(s, c, wake);
  }

  lemma SubmitKeepsAccounting(s: State, c: nat, wake: Option<nat>)
    requires Accounting(s) && ClientEnabled(s, c, wake) && InSubmit(s.clients[c])
    ensures Accounting(SubmitStep(s, c, wake))
  {
    SubmitFrame(s, c, wake);
    var s' := SubmitStep(s, c, wake);
    TotalUpdate(s.clients, c, s'.clients[c], IsUncounted);
    WeightsWhenWoken(s.workers, s'.workers);
  }

  lemma SubmitKeepsTickets(s: State, c: nat, wake: Option<nat>)
    requires Ownership(s) && Coverage(s) && ClientEnabled(s, c, wake) && InSubmit(s.clients[c])
    ensures Ownership(SubmitStep(s, c, wake)) && Coverage(SubmitStep(s, c, wake))
  {
    SubmitFrame(s, c, wake);
    HeldWhenWoken(s, SubmitStep(s, c, wake));
  }

  /** Waking workers takes no ticket from anybody. */
  lemma HeldWhenWoken(s: State, s': State)
    requires |s'.workers| == |s.workers|
    requires forall w :: 0 <= w < |s.workers| ==> WorkerWoke(s.workers[w], s'.workers[w])
    ensures forall k :: Held(s, k) ==> Held(s', k)
  {
    forall k | Held(s, k) ensures Held(s', k) {
      var w :| 0 <= w < |s.workers| && Holds(s.workers[w], k);
      assert Holds(s'.workers[w], k);
    }
  }

  lemma SubmitKeepsWakeUps(s: State, c: nat, wake: Option<nat>)
    requires WakeUps(s) && ClientEnabled(s, c, wake) && InSubmit(s.clients[c])
    ensures WakeUps(SubmitStep(s, c, wake))
  {
    SubmitFrame(s, c, wake);
    var s' := SubmitStep(s, c, wake);
    TotalUpdate(s.clients, c, s'.clients[c], IsPushWoken);
    if Pushes(s, c) && wake.Some? {
      TotalUpdate(s.workers, wake.value, Woken, IsWoken);
    } else {
      assert s'.workers == s.workers;
    }
  }

  lemma SubmitKeepsLocking(s: State, c: nat, wake: Option<nat>)
    requires Locking(s) && ClientEnabled(s, c, wake) && InSubmit(s.clients[c])
    ensures Locking(SubmitStep(s, c, wake))
  {
    SubmitFrame(s, c, wake);
  }

  lemma SubmitKeepsCompletionWakeUps(s: State, c: nat, wake: Option<nat>)
    requires CompletionWakeUps(s) && ClientEnabled(s, c, wake) && InSubmit(s.clients[c])
    ensures CompletionWakeUps(SubmitStep(s, c, wake))
  {
    SubmitFrame(s, c, wake);
    BroadcastStillOwed(s, SubmitStep(s, c, wake));
  }

  /** Waking workers settles no broadcast. */
  lemma BroadcastStillOwed(s: State, s': State)
    requires |s'.workers| == |s.workers|
    requires forall w :: 0 <= w < |s.workers| ==> WorkerWoke(s.workers[w], s'.workers[w])
    ensures BroadcastOwed(s) ==> BroadcastOwed(s')
  {
    if BroadcastOwed(s) {
      var w :| 0 <= w < |s.workers| && (s.workers[w].OwesBroadcast? || s.workers[w].Broadcasting?);
      assert s'.workers[w] == s.workers[w];
    }
  }

  lemma SubmitKeepsSnapshots(s: State, c: nat, wake: Option<nat>)
    requires Snapshots(s) && ClientEnabled(s, c, wake) && InSubmit(s.clients[c])
    ensures Snapshots(SubmitStep(s, c, wake))
  {
    SubmitFrame(s, c, wake);
  }

  lemma SubmitKeepsLifeCycle(s: State, c: nat, wake: Option<nat>)
    requires LifeCycle(s) && ClientEnabled(s, c, wake) && InSubmit(s.clients[c])
    ensures LifeCycle(SubmitStep(s, c, wake))
  {
    SubmitFrame(s, c, wake);
    TotalUpdate(s.clients, c, SubmitStep(s, c, wake).clients[c], IsDestroyer);
  }

  // ---------------------------------------------------------------- wait steps keep every part

  lemma WaitKeepsFlow(s: State, c: nat, completedFirst: bool)
    requires Flow(s) && ClientEnabled(s, c, None) && InWait(s.clients[c])
    ensures Flow(WaitStep(s, c, completedFirst))
  {
    WaitFrame(s, c, completedFirst);
  }

  lemma WaitKeepsTickets(s: State, c: nat, completedFirst: bool)
    requires Ownership(s) && Coverage(s) && WakeUps(s)
    requires ClientEnabled(s, c, None) && InWait(s.clients[c])
    ensures var s' := WaitStep(s, c, completedFirst);
            Ownership(s') && Coverage(s') && WakeUps(s')
  {
    WaitFrame(s, c, completedFirst);
    var s' := WaitStep(s, c, completedFirst);
    TotalUpdate(s.clients, c, s'.clients[c], IsPushWoken);
    HeldWhenWoken(s, s');
  }

  lemma WaitKeepsAccounting(s: State, c: nat, completedFirst: bool)
    requires Accounting(s) && ClientEnabled(s, c, None) && InWait(s.clients[c])
    ensures Accounting(WaitStep(s, c, completedFirst))
  {
    WaitFrame(s, c, completedFirst);
    TotalUpdate(s.clients, c, WaitStep(s, c, completedFirst).clients[c], IsUncounted);
  }

  lemma WaitKeepsLifeCycle(s: State, c: nat, completedFirst: bool)
    requires LifeCycle(s) && ClientEnabled(s, c, None) && InWait(s.clients[c])
    ensures LifeCycle(WaitStep(s, c, completedFirst))
  {
    WaitFrame(s, c, completedFirst);
    TotalUpdate(s.clients, c, WaitStep(s, c, completedFirst).clients[c], IsDestroyer);
  }

  lemma WaitKeepsLocking(s: State, c: nat, completedFirst: bool)
    requires Locking(s) && ClientEnabled(s, c, None) && InWait(s.clients[c])
    ensures Locking(WaitStep(s, c, completedFirst))
  {
    WaitFrame(s, c, completedFirst);
  }

  lemma WaitKeepsCompletionWakeUps(s: State, c: nat, completedFirst: bool)
    requires CompletionWakeUps(s) && ClientEnabled(s, c, None) && InWait(s.clients[c])
    ensures CompletionWakeUps(WaitStep(s, c, completedFirst))
  {
    WaitFrame(s, c, completedFirst);
    BroadcastStillOwed(s, WaitStep(s, c, completedFirst));
  }

  lemma WaitKeepsSnapshots(s: State, c: nat, completedFirst: bool)
    requires Snapshots(s) && Accounting(s) && ClientEnabled(s, c, None) && InWait(s.clients[c])
    ensures Snapshots(WaitStep(s, c, completedFirst))
  {
    WaitFrame(s, c, completedFirst);
  }

  // ---------------------------------------------------------------- destroy steps keep every part

  lemma DestroyKeepsFlow(s: State, c: nat)
    requires Flow(s) && LifeCycle(s) && ClientEnabled(s, c, None) && InDestroy(s.clients[c])
    ensures Flow(DestroyStep(s, c))
  {
    DestroyFrame(s, c);
    if s.clients[c].Releasing? {
      assert s.workers[0].Exited?;
    }
  }

  lemma DestroyKeepsTickets(s: State, c: nat)
    requires Ownership(s) && Coverage(s) && ClientEnabled(s, c, None) && InDestroy(s.clients[c])
    ensures Ownership(DestroyStep(s, c)) && Coverage(DestroyStep(s, c))
  {
    DestroyFrame(s, c);
    HeldWhenWoken(s, DestroyStep(s, c));
  }

  lemma DestroyKeepsAccounting(s: State, c: nat)
    requires Accounting(s) && ClientEnabled(s, c, None) && InDestroy(s.clients[c])
    ensures Accounting(DestroyStep(s, c))
  {
    DestroyFrame(s, c);
    var s' := DestroyStep(s, c);
    DestroyWeight(s, c, IsUncounted);
    WeightsWhenWoken(s.workers, s'.workers);
  }

  lemma DestroyKeepsWakeUps(s: State, c: nat)
    requires WakeUps(s) && LifeCycle(s) && ClientEnabled(s, c, None) && InDestroy(s.clients[c])
    ensures WakeUps(DestroyStep(s, c))
  {
    DestroyFrame(s, c);
    var s' := DestroyStep(s, c);
    if !s'.closed {
      assert s'.clients == s.clients[c := s'.clients[c]];
      TotalUpdate(s.clients, c, s'.clients[c], IsPushWoken);
    }
  }

  lemma DestroyKeepsLocking(s: State, c: nat)
    requires Locking(s) && ClientEnabled(s, c, None) && InDestroy(s.clients[c])
    ensures Locking(DestroyStep(s, c))
  {
    DestroyFrame(s, c);
  }

  lemma DestroyKeepsCompletionWakeUps(s: State, c: nat)
    requires CompletionWakeUps(s) && ClientEnabled(s, c, None) && InDestroy(s.clients[c])
    ensures CompletionWakeUps(DestroyStep(s, c))
  {
    DestroyFrame(s, c);
    BroadcastStillOwed(s, DestroyStep(s, c));
  }

  lemma DestroyKeepsSnapshots(s: State, c: nat)
    requires Snapshots(s) && ClientEnabled(s, c, None) && InDestroy(s.clients[c])
    ensures Snapshots(DestroyStep(s, c))
  {
    DestroyFrame(s, c);
  }

  lemma DestroyKeepsLifeCycle(s: State, c: nat)
    requires LifeCycle(s) && ClientEnabled(s, c, None) && InDestroy(s.clients[c])
    ensures LifeCycle(DestroyStep(s, c))
  {
    DestroyFrame(s, c);
    DestroyWeight(s, c, IsDestroyer);
    var s' := DestroyStep(s, c);
    forall d | 0 <= d < |s'.clients|
      ensures DestroyerSound(s', s'.clients[d])
    {
      if d != c && IsDestroyer(s.clients[c]) == 1 {
        OneDestroyer(s, c, d);
      } else if d != c && s.phase.IsRunning? {
        TotalAtLeast(s.clients, d, IsDestroyer);
      }
    }
  }

  // ---------------------------------------------------------------- the environment keeps every part

  /** An idle client that begins a call, or a sleeping client that is woken. */
  predicate Enters(x: Client, y: Client) {
    && (x.Idle? || x.PushAsleep? || x.WaitAsleep?)
    && (y.Idle? || y.Submitting? || y.PushWoken? || y.WaitCalled? || y.WaitWoken? || y.Destroying?)
  }

  lemma EntryKeepsQueueParts(s: State, c: nat, y: Client)
    requires Flow(s) && Accounting(s) && WakeUps(s) && LifeCycle(s)
    requires c < |s.clients| && Enters(s.clients[c], y)
    requires CarriesTask(y) ==> y.t.func != 0
    ensures var s' := s.(clients := s.clients[c := y]);
            Flow(s') && Accounting(s') && WakeUps(s') && LifeCycle(s')
  {
    TotalUpdate(s.clients, c, y, IsUncounted);
    TotalUpdate(s.clients, c, y, IsPushWoken);
    TotalUpdate(s.clients, c, y, IsDestroyer);
  }

  lemma EntryKeepsOtherParts(s: State, c: nat, y: Client)
    requires Ownership(s) && Coverage(s) && Locking(s) && CompletionWakeUps(s) && Snapshots(s)
    requires c < |s.clients| && Enters(s.clients[c], y)
    requires InWait(y) ==> forall k :: k in y.due ==> k < |s.accepted|
    ensures var s' := s.(clients := s.clients[c := y]);
            Ownership(s') && Coverage(s') && Locking(s') && CompletionWakeUps(s') && Snapshots(s')
  {
    var s' := s.(clients := s.clients[c := y]);
    HeldWhenWoken(s, s');
    BroadcastStillOwed(s, s');
  }

  /** What enters where, for the two kinds of entry. */
  lemma EntryPoint(s: State, a: Action)
    requires Flow(s) && Snapshots(s) && Enabled(s, a) && (a.Start? || a.SpuriousClient?)
    ensures var y := Step(s, a).clients[a.c];
            && Step(s, a) == s.(clients := s.clients[a.c := y]) && Enters(s.clients[a.c], y)
            && (CarriesTask(y) ==> y.t.func != 0)
            && (InWait(y) ==> forall k :: k in y.due ==> k < |s.accepted|)
  {
    assert SnapshotSound(s, s.clients[a.c]);
  }

  lemma EntryKeepsInv(s: State, a: Action)
    requires Inv(s) && Enabled(s, a) && (a.Start? || a.SpuriousClient?)
    ensures Inv(Step(s, a))
  {
    EntryPoint(s, a);
    var y := Step(s, a).clients[a.c];
    EntryKeepsQueueParts(s, a.c, y);
    EntryKeepsOtherParts(s, a.c, y);
  }

  lemma WakingKeepsQueueParts(s: State, w: nat)
    requires Flow(s) && Accounting(s) && WakeUps(s) && LifeCycle(s) && Enabled(s, SpuriousWorker(w))
    ensures var s' := Step(s, SpuriousWorker(w));
            Flow(s') && Accounting(s') && WakeUps(s') && LifeCycle(s')
  {
    WeightsWhenWoken(s.workers, s.workers[w := Woken]);
    TotalUpdate(s.workers, w, Woken, IsWoken);
  }

  lemma WakingKeepsOtherParts(s: State, w: nat)
    requires Ownership(s) && Coverage(s) && Locking(s) && CompletionWakeUps(s) && Snapshots(s)
    requires Enabled(s, SpuriousWorker(w))
    ensures var s' := Step(s, SpuriousWorker(w));
            Ownership(s') && Coverage(s') && Locking(s') && CompletionWakeUps(s') && Snapshots(s')
  {
    HeldWhenWoken(s, Step(s, SpuriousWorker(w)));
    BroadcastStillOwed(s, Step(s, SpuriousWorker(w)));
  }

  // ---------------------------------------------------------------- the invariant over whole runs

  lemma WorkKeepsInv(s: State, w: nat, wake: Option<nat>)
    requires Inv(s) && WorkerEnabled(s, w, wake)
    ensures Inv(WorkerStep(s, w, wake))
  {
    WorkerKeepsFlow(s, w, wake);
    WorkerKeepsAccounting(s, w, wake);
    WorkerKeepsOwnership(s, w, wake);
    WorkerKeepsCoverage(s, w, wake);
    WorkerKeepsWakeUps(s, w, wake);
    WorkerKeepsLocking(s, w, wake);
    WorkerKeepsCompletionWakeUps(s, w, wake);
    WorkerKeepsSnapshots(s, w, wake);
    WorkerKeepsLifeCycle(s, w, wake);
  }

  lemma AdvanceKeepsInv(s: State, c: nat, wake: Option<nat>, completedFirst: bool)
    requires Inv(s) && ClientEnabled(s, c, wake)
    ensures Inv(ClientStep(s, c, wake, completedFirst))
  {
    if InSubmit(s.clients[c]) {
      SubmitKeepsFlow(s, c, wake);
      SubmitKeepsAccounting(s, c, wake);
      SubmitKeepsTickets(s, c, wake);
      SubmitKeepsWakeUps(s, c, wake);
      SubmitKeepsLocking(s, c, wake);
      SubmitKeepsCompletionWakeUps(s, c, wake);
      SubmitKeepsSnapshots(s, c, wake);
      SubmitKeepsLifeCycle(s, c, wake);
    } else if InWait(s.clients[c]) {
      WaitKeepsFlow(s, c, completedFirst);
      WaitKeepsTickets(s, c, completedFirst);
      WaitKeepsAccounting(s, c, completedFirst);
      WaitKeepsLifeCycle(s, c, completedFirst);
      WaitKeepsLocking(s, c, completedFirst);
      WaitKeepsCompletionWakeUps(s, c, completedFirst);
      WaitKeepsSnapshots(s, c, completedFirst);
    } else {
      DestroyKeepsFlow(s, c);
      DestroyKeepsTickets(s, c);
      DestroyKeepsAccounting(s, c);
      DestroyKeepsWakeUps(s, c);
      DestroyKeepsLocking(s, c);
      DestroyKeepsCompletionWakeUps(s, c);
      DestroyKeepsSnapshots(s, c);
      DestroyKeepsLifeCycle(s, c);
    }
  }

  /** Every step of every thread keeps the invariant. */
  lemma StepKeepsInv(s: State, a: Action)
    requires Inv(s) && Enabled(s, a)
    ensures Inv(Step(s, a))
  {
    match a
    case Work(w, wake) => WorkKeepsInv(s, w, wake);
    case Advance(c, wake, completedFirst) => AdvanceKeepsInv(s, c, wake, completedFirst);
    case SpuriousWorker(w) =>
      WakingKeepsQueueParts(s, w);
      WakingKeepsOtherParts(s, w);
    case _ => EntryKeepsInv(s, a);
  }

  lemma {:induction false} RunKeepsInv(s: State, actions: seq<Action>, s': State)
    requires Inv(s) && Leads(s, actions, s')
    ensures Inv(s') && |s'.workers| == |s.workers| && |s'.clients| == |s.clients| && s'.capacity == s.capacity
    decreases |actions|
  {
    if actions != [] {
      StepKeepsInv(s, actions[0]);
      StepKeepsSizes(s, actions[0]);
      RunKeepsInv(Step(s, actions[0]), actions[1..], s');
    }
  }

  lemma StepKeepsSizes(s: State, a: Action)
    requires Enabled(s, a)
    ensures |Step(s, a).workers| == |s.workers| && |Step(s, a).clients| == |s.clients|
    ensures Step(s, a).capacity == s.capacity
  {
    match a
    case Work(w, wake) => WorkerFrame(s, w, wake);
    case Advance(c, wake, completedFirst) =>
      if InSubmit(s.clients[c]) {
        SubmitFrame(s, c, wake);
      } else if InWait(s.clients[c]) {
        WaitFrame(s, c, completedFirst);
      } else {
        DestroyFrame(s, c);
      }
    case _ =>
  }

  /** Every worker is about to pop, every client idle, nothing has happened. */
  ghost predicate AtCreation(s: State) {
    && |s.workers| > 0
    && (forall w :: 0 <= w < |s.workers| ==> s.workers[w].Ready?)
    && (forall c :: 0 <= c < |s.clients| ==> s.clients[c].Idle?)
    && s == State(s.capacity, [], false, IsRunning, 0, 0, 0, Free, s.workers, s.clients, [], [], [], [], {}, 0)
  }

  lemma CreationTotals(s: State)
    requires AtCreation(s)
    ensures Accounting(s) && Total(s.clients, IsDestroyer) == 0
  {
    TotalZero(s.workers, InHand);
    TotalZero(s.workers, IsActive);
    TotalZero(s.workers, IsReturned);
    TotalZero(s.clients, IsUncounted);
    TotalZero(s.clients, IsDestroyer);
  }

  lemma CreatedInv(size: nat, capacity: nat, clients: nat)
    requires size > 0
    ensures Inv(Created(size, capacity, clients))
  {
    CreationInv(Created(size, capacity, clients));
  }

  lemma CreationThreads(s: State)
    requires AtCreation(s)
    ensures Locking(s) && CompletionWakeUps(s) && Snapshots(s) && WakeUps(s)
  {
  }

  lemma CreationInv(s: State)
    requires AtCreation(s)
    ensures Inv(s)
  {
    CreationTotals(s);
    CreationThreads(s);
  }

  /** Safety over whole runs: for every pool size, capacity, number of clients and schedule. */
  lemma ReachedInv(s: State)
    requires Reached(s)
    ensures Inv(s)
  {
    var size, clients := |s.workers|, |s.clients|;
    CreatedInv(size, s.capacity, clients);
    var actions :| Leads(Created(size, s.capacity, clients), actions, s);
    RunKeepsInv(Created(size, s.capacity, clients), actions, s);
  }
}
