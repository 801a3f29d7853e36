/** The producer-consumer program of examples/hello_threads.c as a whole: its producers and consumers are
    tasks of a pool, so one of them can move only while a worker is inside it; and a worker stays inside
    a task that is blocked on a semaphore. */
module RingPrograms {
  import opened Collections
  import opened Totals
  import Pool = PoolModel
  import PoolClients
  import PoolInvariant
  import PoolProgress
  import PoolSafety
  import PoolWait
  import Ring = RingBuffers

  // ---------------------------------------------------------------- the program

  const PRODUCER_TASK: nat := 1
  const CONSUMER_TASK: nat := 2

  /** The code behind a task function: who calls producer_task is a producer. */
  function RoleOf(func: nat): Option<Ring.Role> {
    if func == PRODUCER_TASK then Some(Ring.Producer)
    else if func == CONSUMER_TASK then Some(Ring.Consumer)
    else None
  }

  /** The tasks that the client submits, one per thread of the ring. */
  function Jobs(threads: seq<Ring.Thread>): seq<Pool.Task> {
    seq(|threads|, t requires 0 <= t < |threads| =>
      Pool.Task(if threads[t].role.Producer? then PRODUCER_TASK else CONSUMER_TASK, t, Pool.Normal))
  }

  /** The pool, the ring with its producers and consumers, the tasks to submit, and how many calls the
      client has begun. */
  datatype Program = Program(pool: Pool.State, ring: Ring.State, jobs: seq<Pool.Task>, next: nat)

  function Created(threads: seq<Ring.Thread>, buffer: seq<nat>, size: nat, capacity: nat): Program {
    Program(Pool.Created(size, capacity, 1), Ring.Begun(threads, buffer), Jobs(threads), 0)
  }

  /** A step of the pool, or of a producer or consumer. */
  datatype Move = Act(a: Pool.Action) | Run(b: Ring.Action)

  /** The task runs the code of its thread's role. */
  predicate IsThread(t: Pool.Task, threads: seq<Ring.Thread>) {
    0 <= t.arg < |threads| && RoleOf(t.func) == Some(threads[t.arg].role)
  }

  predicate MayReturn(s: Ring.State, t: Pool.Task) {
    IsThread(t, s.threads) ==> Ring.Ended(s.threads[t.arg])
  }

  /** A worker is inside the task of thread t. */
  predicate InTask(s: Pool.State, threads: seq<Ring.Thread>, t: nat) {
    exists w :: 0 <= w < |s.workers| && RunsThread(s.workers[w], threads, t)
  }

  predicate RunsThread(w: Pool.Worker, threads: seq<Ring.Thread>, t: nat) {
    w.Executing? && w.t.arg == t && IsThread(w.t, threads)
  }

  predicate Enabled(p: Program, v: Move) {
    match v
    case Act(a) =>
      && Pool.Enabled(p.pool, a) && PoolClients.Follows(a, p.jobs, p.next)
      && (a.Work? && p.pool.workers[a.w].Executing? ==> MayReturn(p.ring, p.pool.workers[a.w].t))
    case Run(b) =>
      && Ring.InBounds(p.ring.ring) && Ring.Enabled(p.ring, b)
      && (b.Move? ==> InTask(p.pool, p.ring.threads, b.t))
  }

  /** The task's function is entered: its loop starts from the beginning. */
  function Enter(s: Ring.State, t: Pool.Task): Ring.State {
    if IsThread(t, s.threads)
    then s.(threads := s.threads[t.arg := s.threads[t.arg].(done := 0, at := Ring.Waiting, sum := 0)]) else s
  }

  function Next(p: Program, v: Move): Program
    requires Enabled(p, v)
  {
    match v
    case Act(a) =>
      p.(pool := Pool.Step(p.pool, a), next := PoolClients.After(a, p.next),
         ring := if a.Work? && p.pool.workers[a.w].Raised? then Enter(p.ring, p.pool.workers[a.w].t) else p.ring)
    case Run(b) => p.(ring := Ring.Step(p.ring, b))
  }

  predicate Leads(p: Program, moves: seq<Move>, p': Program)
    decreases |moves|
  {
    if moves == [] then p == p'
    else Enabled(p, moves[0]) && Leads(Next(p, moves[0]), moves[1..], p')
  }

  // ---------------------------------------------------------------- the invariant

  /** A thread whose task has returned has ended, and one whose task has not begun is at its start. */
  ghost predicate Synchronized(s: Pool.State, ring: Ring.State) {
    && (forall k :: k in s.finished && k < |ring.threads| ==> Ring.Ended(ring.threads[k]))
    && (forall k :: 0 <= k < |ring.threads| && k !in s.started ==> Ring.AtStart(ring.threads[k]))
  }

  predicate JobsOf(jobs: seq<Pool.Task>, threads: seq<Ring.Thread>) {
    |jobs| == |threads| && forall k :: 0 <= k < |jobs| ==> jobs[k].arg == k && IsThread(jobs[k], threads)
  }

  ghost predicate Inv(p: Program) {
    && Pool.Reached(p.pool) && PoolClients.Called(p.pool, p.jobs, p.next)
    && JobsOf(p.jobs, p.ring.threads)
    && Ring.Inv(p.ring) && Synchronized(p.pool, p.ring)
  }

  lemma CreatedInv(threads: seq<Ring.Thread>, buffer: seq<nat>, size: nat, capacity: nat)
    requires |buffer| > 0 && size > 0 && forall t :: 0 <= t < |threads| ==> Ring.AtStart(threads[t])
    ensures Inv(Created(threads, buffer, size, capacity))
  {
    PoolClients.CreatedCalled(size, capacity, Jobs(threads));
    Ring.BegunInv(threads, buffer);
  }

  /** A worker with a task has the ticket of the task's thread. */
  lemma TicketIsThread(p: Program, w: nat)
    requires Inv(p) && w < |p.pool.workers| && PoolInvariant.HasTask(p.pool.workers[w])
    ensures p.pool.workers[w].t.arg == p.pool.workers[w].k < |p.ring.threads|
    ensures IsThread(p.pool.workers[w].t, p.ring.threads)
    ensures p.pool.workers[w].k !in p.pool.finished
    ensures p.pool.workers[w].k in p.pool.started <==> p.pool.workers[w].Executing?
  {
    PoolInvariant.ReachedInv(p.pool);
    PoolClients.TaskOfTicket(p.pool, p.jobs, p.next, w);
  }

  /** Each task is entered once, so entering it changes nothing. */
  lemma EnterAtStart(p: Program, w: nat)
    requires Inv(p) && w < |p.pool.workers| && p.pool.workers[w].Raised?
    ensures Enter(p.ring, p.pool.workers[w].t) == p.ring
  {
    TicketIsThread(p, w);
    var k := p.pool.workers[w].k;
    assert Ring.AtStart(p.ring.threads[k]);
    assert p.ring.threads[k := p.ring.threads[k]] == p.ring.threads;
  }

  lemma ActKeepsRing(p: Program, a: Pool.Action)
    requires Inv(p) && Enabled(p, Act(a))
    ensures Next(p, Act(a)).ring == p.ring && Synchronized(Next(p, Act(a)).pool, p.ring)
  {
    PoolSafety.StepLogs(p.pool, a);
    if a.Work? && PoolInvariant.HasTask(p.pool.workers[a.w]) {
      TicketIsThread(p, a.w);
      if p.pool.workers[a.w].Raised? {
        EnterAtStart(p, a.w);
      }
    }
  }

  lemma ActKeepsInv(p: Program, a: Pool.Action)
    requires Inv(p) && Enabled(p, Act(a))
    ensures Inv(Next(p, Act(a)))
  {
    PoolInvariant.ReachedInv(p.pool);
    PoolWait.ReachedOn(p.pool, a);
    PoolClients.StepKeepsCalled(p.pool, a, p.jobs, p.next);
    ActKeepsRing(p, a);
  }

  /** A step of the ring changes at most the thread that moves, and not what it has to do. */
  lemma OnlyOneMoves(s: Ring.State, b: Ring.Action)
    requires Ring.InBounds(s.ring) && Ring.Enabled(s, b)
    ensures |Ring.Step(s, b).threads| == |s.threads|
    ensures forall u :: 0 <= u < |s.threads| && (b.Spurious? || u != b.t) ==>
              Ring.Step(s, b).threads[u] == s.threads[u]
    ensures forall u :: 0 <= u < |s.threads| ==>
              Ring.Step(s, b).threads[u].role == s.threads[u].role &&
              Ring.Step(s, b).threads[u].items == s.threads[u].items
  {
  }

  lemma RunKeepsInv(p: Program, b: Ring.Action)
    requires Inv(p) && Enabled(p, Run(b))
    ensures Inv(Next(p, Run(b)))
  {
    Ring.StepKeepsInv(p.ring, b);
    OnlyOneMoves(p.ring, b);
    if b.Move? {
      var w :| 0 <= w < |p.pool.workers| && RunsThread(p.pool.workers[w], p.ring.threads, b.t);
      TicketIsThread(p, w);
    }
  }

  /** Every move keeps the invariant, and what the threads have to do. */
  lemma MoveKeepsInv(p: Program, v: Move)
    requires Inv(p) && Enabled(p, v)
    ensures Inv(Next(p, v)) && SameProgram(p, Next(p, v))
  {
    match v
    case Act(a) =>
      ActKeepsInv(p, a);
      ActKeepsRing(p, a);
      PoolInvariant.StepKeepsSizes(p.pool, a);
    case Run(b) =>
      RunKeepsInv(p, b);
      OnlyOneMoves(p.ring, b);
      Ring.StepKeepsDemand(p.ring, b);
  }

  /** The number of workers, and the demand and supply of the ring. */
  ghost predicate SameProgram(p: Program, p': Program) {
    && |p'.pool.workers| == |p.pool.workers| && |p'.ring.threads| == |p.ring.threads|
    && |p'.ring.ring.buffer| == |p.ring.ring.buffer|
    && Total(p'.ring.threads, Ring.ToProduce) == Total(p.ring.threads, Ring.ToProduce)
    && Total(p'.ring.threads, Ring.ToConsume) == Total(p.ring.threads, Ring.ToConsume)
  }

  lemma {:induction false} MovesKeepInv(p: Program, moves: seq<Move>, p': Program)
    requires Inv(p) && Leads(p, moves, p')
    ensures Inv(p') && SameProgram(p, p')
    decreases |moves|
  {
    if moves != [] {
      MoveKeepsInv(p, moves[0]);
      MovesKeepInv(Next(p, moves[0]), moves[1..], p');
    }
  }

  // ---------------------------------------------------------------- as many workers as tasks

  predicate IsSpurious(v: Move) {
    match v
    case Act(a) => PoolClients.IsSpurious(a)
    case Run(b) => b.Spurious?
  }

  /** No thread has a step of its own to take. */
  ghost predicate Stuck(p: Program) {
    forall v :: !IsSpurious(v) ==> !Enabled(p, v)
  }

  /** The client has made all its calls, they have returned, the pool is shut down and the workers are
      gone, and every producer and consumer has made its rounds. */
  ghost predicate Finished(p: Program) {
    PoolClients.ShutDown(p.pool, p.jobs, p.next) && Ring.AllEnded(p.ring)
  }

  /** The items wanted are at most the items made, and those at most as many more as the ring holds. */
  ghost predicate Balanced(threads: seq<Ring.Thread>, places: nat) {
    Total(threads, Ring.ToConsume) <= Total(threads, Ring.ToProduce) <= Total(threads, Ring.ToConsume) + places
  }

  lemma StuckPool(p: Program)
    requires Inv(p) && Stuck(p)
    ensures PoolClients.OnlyTasksGoOn(p.pool)
    ensures p.pool.clients[0].Idle? ==> PoolClients.CallAt(p.jobs, p.next).None?
    ensures Ring.AllEnded(p.ring) ==> PoolProgress.Stuck(p.pool)
  {
    forall a | Pool.Internal(a) && Pool.Enabled(p.pool, a)
      ensures a.Work? && p.pool.workers[a.w].Executing? && !Ring.AllEnded(p.ring)
    {
      assert !Enabled(p, Act(a));
    }
    var call := PoolClients.CallAt(p.jobs, p.next);
    if call.Some? {
      assert !Enabled(p, Act(Pool.Start(0, call.value)));
    }
  }

  /** With a worker for every task nobody waits for a worker, so the ring is stuck by itself. */
  lemma StuckRing(p: Program)
    requires Inv(p) && Stuck(p) && |p.jobs| <= |p.pool.workers|
    ensures Ring.Stuck(p.ring)
  {
    StuckPool(p);
    PoolInvariant.ReachedInv(p.pool);
    forall b: Ring.Action | b.Move?
      ensures !Ring.Enabled(p.ring, b)
    {
      if Ring.Enabled(p.ring, b) {
        PoolClients.AllBegun(p.pool, p.jobs, p.next, b.t);
        var w :| 0 <= w < |p.pool.workers| && p.pool.workers[w].Executing? && p.pool.workers[w].k == b.t;
        TicketIsThread(p, w);
        assert RunsThread(p.pool.workers[w], p.ring.threads, b.t);
        assert Enabled(p, Run(b));
        assert false;
      }
    }
  }

  lemma StuckMeansFinishedIff(p: Program)
    requires Inv(p) && Stuck(p) && |p.jobs| <= |p.pool.workers|
    ensures Finished(p) <==> Balanced(p.ring.threads, |p.ring.ring.buffer|)
  {
    StuckPool(p);
    StuckRing(p);
    Ring.EveryoneEndsIff(p.ring);
    if Ring.AllEnded(p.ring) {
      PoolInvariant.ReachedInv(p.pool);
      PoolProgress.StuckMeansAtRest(p.pool);
      PoolClients.RestIsShutDown(p.pool, p.jobs, p.next);
    }
  }

  // ---------------------------------------------------------------- every schedule ends

  ghost function Measure(p: Program): int
    requires p.next <= |p.jobs| + 2
  {
    PoolClients.CallsLeft(p.pool, p.jobs, p.next) + Ring.Measure(p.ring)
  }

  lemma MoveShrinks(p: Program, v: Move)
    requires Inv(p) && Enabled(p, v) && !IsSpurious(v)
    ensures Next(p, v).next <= |p.jobs| + 2 == |Next(p, v).jobs| + 2
    ensures Measure(Next(p, v)) < Measure(p)
  {
    match v
    case Act(a) =>
      PoolInvariant.ReachedInv(p.pool);
      PoolClients.StepShrinks(p.pool, a, p.jobs, p.next);
      ActKeepsRing(p, a);
    case Run(b) =>
      Ring.MoveShrinks(p.ring, b.t, b.wake);
  }

  lemma MeasureIsNatural(p: Program)
    requires Inv(p)
    ensures Measure(p) >= 0
  {
    Ring.FewSleepers(p.ring.empty.asleep, |p.ring.threads|);
    Ring.FewSleepers(p.ring.full.asleep, |p.ring.threads|);
  }

  lemma {:induction false} MovesAreBounded(p: Program, moves: seq<Move>, p': Program)
    requires Inv(p) && Leads(p, moves, p') && forall i :: 0 <= i < |moves| ==> !IsSpurious(moves[i])
    ensures Inv(p') && |moves| + Measure(p') <= Measure(p) && Measure(p') >= 0
    decreases |moves|
  {
    if moves == [] {
      MeasureIsNatural(p);
    } else {
      assert !IsSpurious(moves[0]);
      MoveKeepsInv(p, moves[0]);
      MoveShrinks(p, moves[0]);
      MovesAreBounded(Next(p, moves[0]), moves[1..], p');
    }
  }

  /** So some schedule without spurious wake-ups goes on until nobody can move. */
  lemma {:induction false} SomeEnd(p: Program) returns (moves: seq<Move>, p': Program)
    requires Inv(p)
    ensures Leads(p, moves, p') && Stuck(p')
    decreases Measure(p)
  {
    if Stuck(p) {
      moves, p' := [], p;
    } else {
      var v :| !IsSpurious(v) && Enabled(p, v);
      MoveKeepsInv(p, v);
      MoveShrinks(p, v);
      MeasureIsNatural(p);
      moves, p' := SomeEnd(Next(p, v));
      moves := [v] + moves;
    }
  }

  /** The program as a whole, with a worker for every task: every schedule without spurious wake-ups is
      bounded, and when nobody can move, everything has finished if and only if supply and demand are
      balanced; with both equal, the consumers' sums add up to 1 + ... + items over all producers. */
  lemma {:induction false} ProgramFinishes(threads: seq<Ring.Thread>, buffer: seq<nat>, size: nat, capacity: nat,
                                           moves: seq<Move>, p: Program)
    requires |buffer| > 0 && size > 0 && forall t :: 0 <= t < |threads| ==> Ring.AtStart(threads[t])
    requires |threads| <= size && Leads(Created(threads, buffer, size, capacity), moves, p)
    requires forall i :: 0 <= i < |moves| ==> !IsSpurious(moves[i])
    ensures |moves| <= Measure(Created(threads, buffer, size, capacity))
    ensures Stuck(p) ==> (Finished(p) <==> Balanced(threads, |buffer|))
    ensures Stuck(p) && Total(threads, Ring.ToProduce) == Total(threads, Ring.ToConsume) ==>
              && p.ring.consumed == p.ring.produced
              && Total(p.ring.threads, Ring.ConsumerSum) == Total(p.ring.threads, Ring.ProducerDemand)
  {
    var start := Created(threads, buffer, size, capacity);
    CreatedInv(threads, buffer, size, capacity);
    MovesAreBounded(start, moves, p);
    MovesKeepInv(start, moves, p);
    if Stuck(p) {
      StuckMeansFinishedIff(p);
      if Total(threads, Ring.ToProduce) == Total(threads, Ring.ToConsume) {
        Ring.SumsAddUp(p.ring);
      }
    }
  }

  // ---------------------------------------------------------------- fewer workers than tasks

  /** The first w threads are consumers of one item each; the thread after them makes w items, and those
      behind it none. */
  ghost predicate ConsumersFirst(threads: seq<Ring.Thread>, w: nat) {
    && 0 < w < |threads|
    && (forall t :: 0 <= t < w ==> threads[t].role.Consumer? && threads[t].items == 1)
    && threads[w].role.Producer? && threads[w].items == w
    && (forall t :: w < t < |threads| ==> threads[t].role.Producer? && threads[t].items == 0)
  }

  /** While nothing has been produced the consumers do not end, so they keep all the workers. */
  lemma NoWorkerForProducer(p: Program, w: nat)
    requires Inv(p) && ConsumersFirst(p.ring.threads, |p.pool.workers|) && p.ring.produced == []
    requires w < |p.pool.workers| && PoolInvariant.HasTask(p.pool.workers[w])
    ensures p.pool.workers[w].k < |p.pool.workers|
  {
    var size, k := |p.pool.workers|, p.pool.workers[w].k;
    PoolInvariant.ReachedInv(p.pool);
    PoolSafety.BoundedReordering(p.pool, w);
    if k >= size {
      var first := PoolWait.TicketSetSize(size);
      forall j | j in first
        ensures j in PoolSafety.Overtaken(p.pool, k)
      {
        ConsumerGoesOn(p, j);
      }
      PoolSafety.SubsetSize(first, PoolSafety.Overtaken(p.pool, k));
      assert false;
    }
  }

  lemma ConsumerGoesOn(p: Program, j: nat)
    requires Inv(p) && ConsumersFirst(p.ring.threads, |p.pool.workers|) && p.ring.produced == []
    requires j < |p.pool.workers|
    ensures j !in p.pool.finished && !Ring.Ended(p.ring.threads[j])
  {
    TotalAtLeast(p.ring.threads, j, Ring.Consumed);
  }

  /** So nothing ever is produced. */
  lemma NothingProducedStep(p: Program, v: Move)
    requires Inv(p) && ConsumersFirst(p.ring.threads, |p.pool.workers|) && p.ring.produced == [] && Enabled(p, v)
    ensures ConsumersFirst(Next(p, v).ring.threads, |Next(p, v).pool.workers|) && Next(p, v).ring.produced == []
  {
    match v
    case Act(a) =>
      ActKeepsRing(p, a);
      PoolInvariant.StepKeepsSizes(p.pool, a);
    case Run(b) =>
      OnlyOneMoves(p.ring, b);
      Ring.StepLogs(p.ring, b);
      if b.Move? {
        var w :| 0 <= w < |p.pool.workers| && RunsThread(p.pool.workers[w], p.ring.threads, b.t);
        TicketIsThread(p, w);
        NoWorkerForProducer(p, w);
      }
  }

  lemma {:induction false} NothingProduced(p: Program, moves: seq<Move>, p': Program)
    requires Inv(p) && ConsumersFirst(p.ring.threads, |p.pool.workers|) && p.ring.produced == []
    requires Leads(p, moves, p')
    ensures !Finished(p')
    decreases |moves|
  {
    if moves == [] {
      ConsumerGoesOn(p, 0);
    } else {
      NothingProducedStep(p, moves[0]);
      MoveKeepsInv(p, moves[0]);
      NothingProduced(Next(p, moves[0]), moves[1..], p');
    }
  }

  /** Such a program of n tasks, with supply and demand equal. */
  lemma TooFewWorkers(w: nat, n: nat) returns (threads: seq<Ring.Thread>)
    requires 0 < w < n
    ensures |threads| == n && ConsumersFirst(threads, w)
    ensures forall t :: 0 <= t < n ==> Ring.AtStart(threads[t])
    ensures Total(threads, Ring.ToProduce) == Total(threads, Ring.ToConsume) == w
  {
    var a := seq(w, _ => Ring.Thread(Ring.Consumer, 1, 0, Ring.Waiting, 0, 0));
    var b := [Ring.Thread(Ring.Producer, w, 0, Ring.Waiting, 0, 0)];
    var c := seq(n - w - 1, _ => Ring.Thread(Ring.Producer, 0, 0, Ring.Waiting, 0, 0));
    threads := a + b + c;
    TotalConcat(a + b, c, Ring.ToProduce);
    TotalConcat(a, b, Ring.ToProduce);
    TotalConcat(a + b, c, Ring.ToConsume);
    TotalConcat(a, b, Ring.ToConsume);
    TotalZero(a, Ring.ToProduce);
    TotalZero(c, Ring.ToProduce);
    TotalOnes(a, Ring.ToConsume);
    TotalZero(c, Ring.ToConsume);
  }

  /** A run of some program of n tasks on a pool of the given size. */
  ghost predicate IsRun(size: nat, capacity: nat, n: nat, threads: seq<Ring.Thread>, buffer: seq<nat>,
                        moves: seq<Move>, p: Program) {
    && |threads| == n && |buffer| > 0 && (forall t :: 0 <= t < n ==> Ring.AtStart(threads[t]))
    && Leads(Created(threads, buffer, size, capacity), moves, p)
  }

  /** How many workers it takes: that every balanced program of n producers and consumers, over any ring,
      ends with everything finished under every schedule holds of pools with at least n workers, and only
      of those. */
  lemma WorkersSufficeIff(size: nat, capacity: nat, n: nat)
    requires size > 0
    ensures (forall threads, buffer, moves, p |
               IsRun(size, capacity, n, threads, buffer, moves, p) && Balanced(threads, |buffer|) && Stuck(p) ::
               Finished(p))
            <==> n <= size
  {
    if n <= size {
      forall threads, buffer, moves, p | IsRun(size, capacity, n, threads, buffer, moves, p) && Stuck(p)
        ensures Balanced(threads, |buffer|) ==> Finished(p)
      {
        CreatedInv(threads, buffer, size, capacity);
        MovesKeepInv(Created(threads, buffer, size, capacity), moves, p);
        StuckMeansFinishedIff(p);
      }
    } else {
      var threads := TooFewWorkers(size, n);
      var start := Created(threads, [0], size, capacity);
      CreatedInv(threads, [0], size, capacity);
      var moves, p := SomeEnd(start);
      NothingProduced(start, moves, p);
      assert IsRun(size, capacity, n, threads, [0], moves, p);
    }
  }
}
