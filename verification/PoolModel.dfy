/** The thread pool as an interleaved step system: src/thread_pool.c running over src/scheduler.c.

    A critical section of the queue lock is one step; a pthread_cond_wait inside it ends the step
    with the thread asleep, and a later step retakes the lock and rechecks the loop condition. Every
    atomic load, store or read-modify-write is a step of its own. The wait lock is held across
    steps and has an explicit owner.

    Condition variables follow POSIX: a signal wakes a sleeper if there is one, chosen by the
    scheduler; spurious wake-ups are separate steps, so a signal that releases several sleepers is
    a signal followed by spurious wake-ups. */
module PoolModel {
  import opened Collections
  import opened Totals

  datatype Priority = Low | Normal | High | Critical

  /** A task function (0 stands for NULL), its argument and its priority. */
  datatype Task = Task(func: nat, arg: int, priority: Priority)

  /** The position of a task in the order in which the queue accepted it. */
  type Ticket = nat

  datatype Phase = IsRunning | IsShutdown | IsTerminated

  datatype Owner = Free | WorkerOwns(w: nat) | ClientOwns(c: nat)

  /** Program points of worker_thread. */
  datatype Worker =
    | Ready                          // about to enter task_queue_pop
    | Asleep                         // asleep on not_empty
    | Woken                          // woken, about to retake the queue lock
    | Popped(k: Ticket, t: Task)     // about to load the pool state
    | Checked(k: Ticket, t: Task)    // about to raise active_tasks
    | Raised(k: Ticket, t: Task)     // about to call the task
    | Executing(k: Ticket, t: Task)  // inside the task
    | Returned(k: Ticket)            // about to lower active_tasks
    | Lowered(k: Ticket)             // about to raise completed_tasks
    | OwesBroadcast                  // about to take the wait lock
    | Broadcasting                   // holds the wait lock, broadcast still to come
    | Unlocking                      // holds the wait lock, broadcast done
    | Exited

  /** What the first of the two loads in a round of thread_pool_wait saw: the number of accepted
      tasks, and how many of them were pushed but not yet counted by their submitter. */
  datatype Snapshot = Snapshot(accepted: nat, uncounted: nat)

  /** Program points of a client thread. `due` is a history value: the tickets whose submit call
      had been counted when this wait call began. */
  datatype Client =
    | Idle(result: int)
    // thread_pool_submit
    | Submitting(t: Task)            // about to load the pool state
    | Pushing(t: Task)               // about to enter task_queue_push
    | PushAsleep(t: Task)            // asleep on not_full
    | PushWoken(t: Task)
    | Pushed(k: Ticket)              // about to raise submitted_tasks
    // thread_pool_wait
    | WaitCalled(due: set<Ticket>)   // about to take the wait lock
    | Looping(due: set<Ticket>)      // holds the wait lock, about to do the first load
    | LoadedCompleted(due: set<Ticket>, completed: nat, snap: Snapshot)
    | LoadedSubmitted(due: set<Ticket>, submitted: nat, snap: Snapshot)
    | Deciding(due: set<Ticket>, completed: nat, submitted: nat, snap: Snapshot)
    | WaitAsleep(due: set<Ticket>)   // asleep on wait_cond
    | WaitWoken(due: set<Ticket>)
    // thread_pool_destroy
    | Destroying                     // about to compare-exchange the pool state
    | Closing                        // about to enter task_queue_shutdown
    | Joining(i: nat)                // about to join worker i, or to store TERMINATED after the last
    | Releasing                      // about to enter task_queue_destroy

  /** The shared fields, every thread's program point, and the history logs. The pool size is
      |workers|; any number of clients make any sequence of calls. */
  datatype State = State(
    capacity: nat,
    queue: seq<Task>,
    closed: bool,             // task_queue_t.shutdown
    phase: Phase,
    active: int,
    completed: nat,
    submitted: nat,
    waitOwner: Owner,
    workers: seq<Worker>,
    clients: seq<Client>,
    // history
    accepted: seq<Task>,      // in push order
    popped: seq<Task>,        // in pop order
    started: seq<Ticket>,     // in start order
    finished: seq<Ticket>,    // in order of return
    counted: set<Ticket>,     // whose submit call has raised submitted_tasks
    shutdowns: nat)           // compare-exchanges that succeeded

  const DEFAULT_CAPACITY: nat := 1024

  function PoolSize(numThreads: nat, cores: nat): nat {
    if numThreads != 0 then numThreads else if cores != 0 then cores else 4
  }

  function QueueCapacity(capacity: nat): nat {
    if capacity != 0 then capacity else DEFAULT_CAPACITY
  }

  function Created(size: nat, capacity: nat, clients: nat): State {
    State(capacity, [], false, IsRunning, 0, 0, 0, Free,
          seq(size, _ => Ready), seq(clients, _ => Idle(0)),
          [], [], [], [], {}, 0)
  }

  // ---------------------------------------------------------------- signals and broadcasts

  /** Which sleeper a signal on not_empty may wake: one if there is one, else nobody. */
  predicate SignalsWorker(s: State, wake: Option<nat>) {
    match wake
    case Some(v) => v < |s.workers| && s.workers[v].Asleep?
    case None => forall v :: 0 <= v < |s.workers| ==> !s.workers[v].Asleep?
  }

  function WakeWorker(ws: seq<Worker>, wake: Option<nat>): seq<Worker> {
    if wake.Some? && wake.value < |ws| then ws[wake.value := Woken] else ws
  }

  /** The same for not_full, which task_queue_pop signals only on a bounded queue. */
  predicate SignalsPusher(s: State, wake: Option<nat>) {
    match wake
    case Some(d) => s.capacity > 0 && d < |s.clients| && s.clients[d].PushAsleep?
    case None => s.capacity > 0 ==> forall d :: 0 <= d < |s.clients| ==> !s.clients[d].PushAsleep?
  }

  function WakePusher(cs: seq<Client>, wake: Option<nat>): seq<Client> {
    if wake.Some? && wake.value < |cs| && cs[wake.value].PushAsleep?
    then cs[wake.value := PushWoken(cs[wake.value].t)] else cs
  }

  function AllWorkersWoken(ws: seq<Worker>): seq<Worker> {
    seq(|ws|, i requires 0 <= i < |ws| => if ws[i].Asleep? then Woken else ws[i])
  }

  function AllPushersWoken(cs: seq<Client>): seq<Client> {
    seq(|cs|, i requires 0 <= i < |cs| => if cs[i].PushAsleep? then PushWoken(cs[i].t) else cs[i])
  }

  function AllWaitersWoken(cs: seq<Client>): seq<Client> {
    seq(|cs|, i requires 0 <= i < |cs| => if cs[i].WaitAsleep? then WaitWoken(cs[i].due) else cs[i])
  }

  // ---------------------------------------------------------------- worker_thread

  predicate Pops(s: State, w: nat)
    requires w < |s.workers|
  {
    (s.workers[w].Ready? || s.workers[w].Woken?) && s.queue != []
  }

  /** A worker can move unless it is asleep, has exited, or needs a wait lock that is taken. */
  predicate WorkerReady(s: State, w: nat) {
    && w < |s.workers|
    && !s.workers[w].Asleep? && !s.workers[w].Exited?
    && (s.workers[w].OwesBroadcast? ==> s.waitOwner.Free?)
  }

  predicate WorkerEnabled(s: State, w: nat, wake: Option<nat>) {
    && WorkerReady(s, w)
    && (if Pops(s, w) then SignalsPusher(s, wake) else wake.None?)
  }

  /** The critical section of task_queue_pop. */
  function PopSection(s: State, w: nat, wake: Option<nat>): State
    requires w < |s.workers|
  {
    if s.queue == [] && !s.closed then
      s.(workers := s.workers[w := Asleep])
    else if s.queue == [] then
      s.(workers := s.workers[w := Exited])
    else
      s.(queue := s.queue[1..],
         popped := s.popped + [s.queue[0]],
         workers := s.workers[w := Popped(|s.popped|, s.queue[0])],
         clients := WakePusher(s.clients, wake))
  }

  function WorkerStep(s: State, w: nat, wake: Option<nat>): State
    requires WorkerEnabled(s, w, wake)
  {
    match s.workers[w]
    case Ready => PopSection(s, w, wake)
    case Woken => PopSection(s, w, wake)
    case Popped(k, t) =>
      if s.phase.IsTerminated? then s.(workers := s.workers[w := Exited])
      else s.(workers := s.workers[w := Checked(k, t)])
    case Checked(k, t) => s.(active := s.active + 1, workers := s.workers[w := Raised(k, t)])
    case Raised(k, t) => s.(started := s.started + [k], workers := s.workers[w := Executing(k, t)])
    case Executing(k, _) => s.(finished := s.finished + [k], workers := s.workers[w := Returned(k)])
    case Returned(k) => s.(active := s.active - 1, workers := s.workers[w := Lowered(k)])
    case Lowered(_) => s.(completed := s.completed + 1, workers := s.workers[w := OwesBroadcast])
    case OwesBroadcast => s.(waitOwner := WorkerOwns(w), workers := s.workers[w := Broadcasting])
    case Broadcasting => s.(clients := AllWaitersWoken(s.clients), workers := s.workers[w := Unlocking])
    case Unlocking => s.(waitOwner := Free, workers := s.workers[w := Ready])
  }

  // ---------------------------------------------------------------- client calls

  predicate Full(s: State) {
    s.capacity > 0 && |s.queue| >= s.capacity
  }

  predicate Pushes(s: State, c: nat)
    requires c < |s.clients|
  {
    (s.clients[c].Pushing? || s.clients[c].PushWoken?) && !s.closed && !Full(s)
  }

  /** A client inside a call can move unless it is asleep, needs a wait lock that is taken, or
      joins a worker that has not exited. */
  predicate ClientReady(s: State, c: nat) {
    && c < |s.clients|
    && !s.clients[c].Idle? && !s.clients[c].PushAsleep? && !s.clients[c].WaitAsleep?
    && (s.clients[c].WaitCalled? || s.clients[c].WaitWoken? ==> s.waitOwner.Free?)
    && (s.clients[c].Joining? && s.clients[c].i < |s.workers| ==> s.workers[s.clients[c].i].Exited?)
  }

  predicate ClientEnabled(s: State, c: nat, wake: Option<nat>) {
    && ClientReady(s, c)
    && (if Pushes(s, c) then SignalsWorker(s, wake) else wake.None?)
  }

  /** The critical section of task_queue_push. */
  function PushSection(s: State, c: nat, t: Task, wake: Option<nat>): State
    requires c < |s.clients|
  {
    if s.closed then
      s.(clients := s.clients[c := Idle(-1)])
    else if Full(s) then
      s.(clients := s.clients[c := PushAsleep(t)])
    else
      s.(queue := s.queue + [t],
         accepted := s.accepted + [t],
         clients := s.clients[c := Pushed(|s.accepted|)],
         workers := WakeWorker(s.workers, wake))
  }

  function IsUncounted(c: Client): nat { if c.Pushed? then 1 else 0 }

  function TakeSnapshot(s: State): Snapshot {
    Snapshot(|s.accepted|, Total(s.clients, IsUncounted))
  }

  predicate InSubmit(c: Client) {
    c.Submitting? || c.Pushing? || c.PushAsleep? || c.PushWoken? || c.Pushed?
  }

  predicate InWait(c: Client) {
    c.WaitCalled? || InWaitLoop(c) || c.WaitAsleep? || c.WaitWoken?
  }

  /** The points of thread_pool_wait at which the wait lock is held. */
  predicate InWaitLoop(c: Client) {
    c.Looping? || c.LoadedCompleted? || c.LoadedSubmitted? || c.Deciding?
  }

  predicate InDestroy(c: Client) {
    c.Destroying? || c.Closing? || c.Joining? || c.Releasing?
  }

  /** thread_pool_submit. */
  function SubmitStep(s: State, c: nat, wake: Option<nat>): State
    requires ClientEnabled(s, c, wake) && InSubmit(s.clients[c])
  {
    match s.clients[c]
    case Submitting(t) =>
      if s.phase.IsRunning? then s.(clients := s.clients[c := Pushing(t)])
      else s.(clients := s.clients[c := Idle(-2)])
    case Pushing(t) => PushSection(s, c, t, wake)
    case PushWoken(t) => PushSection(s, c, t, wake)
    case Pushed(k) =>
      s.(submitted := s.submitted + 1, counted := s.counted + {k}, clients := s.clients[c := Idle(0)])
  }

  /** thread_pool_wait; the order of the two loads of a round is open. */
  function WaitStep(s: State, c: nat, completedFirst: bool): State
    requires ClientEnabled(s, c, None) && InWait(s.clients[c])
  {
    match s.clients[c]
    case WaitCalled(due) => s.(waitOwner := ClientOwns(c), clients := s.clients[c := Looping(due)])
    case Looping(due) =>
      if completedFirst
      then s.(clients := s.clients[c := LoadedCompleted(due, s.completed, TakeSnapshot(s))])
      else s.(clients := s.clients[c := LoadedSubmitted(due, s.submitted, TakeSnapshot(s))])
    case LoadedCompleted(due, completed, snap) =>
      s.(clients := s.clients[c := Deciding(due, completed, s.submitted, snap)])
    case LoadedSubmitted(due, submitted, snap) =>
      s.(clients := s.clients[c := Deciding(due, s.completed, submitted, snap)])
    case Deciding(due, completed, submitted, _) =>
      if completed < submitted
      then s.(waitOwner := Free, clients := s.clients[c := WaitAsleep(due)])
      else s.(waitOwner := Free, clients := s.clients[c := Idle(0)])
    case WaitWoken(due) => s.(waitOwner := ClientOwns(c), clients := s.clients[c := Looping(due)])
  }

  /** thread_pool_destroy. */
  function DestroyStep(s: State, c: nat): State
    requires ClientEnabled(s, c, None) && InDestroy(s.clients[c])
  {
    match s.clients[c]
    case Destroying =>
      if s.phase.IsRunning?
      then s.(phase := IsShutdown, shutdowns := s.shutdowns + 1, clients := s.clients[c := Closing])
      else s.(clients := s.clients[c := Idle(0)])
    case Closing =>
      s.(closed := true,
         workers := AllWorkersWoken(s.workers),
         clients := AllPushersWoken(s.clients)[c := Joining(0)])
    case Joining(i) =>
      if i < |s.workers| then s.(clients := s.clients[c := Joining(i + 1)])
      else s.(phase := IsTerminated, clients := s.clients[c := Releasing])
    case Releasing => s.(queue := [], clients := s.clients[c := Idle(0)])
  }

  function ClientStep(s: State, c: nat, wake: Option<nat>, completedFirst: bool): State
    requires ClientEnabled(s, c, wake)
  {
    if InSubmit(s.clients[c]) then SubmitStep(s, c, wake)
    else if InWait(s.clients[c]) then WaitStep(s, c, completedFirst)
    else DestroyStep(s, c)
  }

  // ---------------------------------------------------------------- runs

  datatype Call = Submit(t: Task) | Wait | Destroy

  function Begin(s: State, call: Call): Client {
    match call
    case Submit(t) => if t.func == 0 then Idle(-1) else Submitting(t)
    case Wait => WaitCalled(s.counted)
    case Destroy => Destroying
  }

  /** What the scheduler may do next: let a worker or a client inside a call take its next step,
      let an idle client begin a call, or wake a sleeper spuriously. */
  datatype Action =
    | Work(w: nat, wake: Option<nat>)
    | Advance(c: nat, wake: Option<nat>, completedFirst: bool)
    | Start(c: nat, call: Call)
    | SpuriousWorker(w: nat)
    | SpuriousClient(c: nat)

  predicate Enabled(s: State, a: Action) {
    match a
    case Work(w, wake) => WorkerEnabled(s, w, wake)
    case Advance(c, wake, _) => ClientEnabled(s, c, wake)
    case Start(c, _) => c < |s.clients| && s.clients[c].Idle?
    case SpuriousWorker(w) => w < |s.workers| && s.workers[w].Asleep?
    case SpuriousClient(c) => c < |s.clients| && (s.clients[c].PushAsleep? || s.clients[c].WaitAsleep?)
  }

  function Step(s: State, a: Action): State
    requires Enabled(s, a)
  {
    match a
    case Work(w, wake) => WorkerStep(s, w, wake)
    case Advance(c, wake, completedFirst) => ClientStep(s, c, wake, completedFirst)
    case Start(c, call) => s.(clients := s.clients[c := Begin(s, call)])
    case SpuriousWorker(w) => s.(workers := s.workers[w := Woken])
    case SpuriousClient(c) =>
      s.(clients := s.clients[c :=
        if s.clients[c].PushAsleep? then PushWoken(s.clients[c].t) else WaitWoken(s.clients[c].due)])
  }

  /** The actions lead from s to s', each enabled when it is taken. */
  predicate Leads(s: State, actions: seq<Action>, s': State)
    decreases |actions|
  {
    if actions == [] then s == s'
    else Enabled(s, actions[0]) && Leads(Step(s, actions[0]), actions[1..], s')
  }

  /** Some schedule of a pool with at least one worker leads from its creation to s. */
  ghost predicate Reached(s: State) {
    && |s.workers| > 0
    && exists actions :: Leads(Created(|s.workers|, s.capacity, |s.clients|), actions, s)
  }

  /** A thread already at work moves; nothing new is asked of the pool and nobody is woken without
      a signal. */
  predicate Internal(a: Action) {
    a.Work? || a.Advance?
  }
}
