/** matrix_multiply_parallel of examples/matrix_multiply.c as a whole: one client creates a pool, submits
    the row tasks, waits and destroys the pool; a worker that is inside a row task takes the steps of
    that task's loops, and its task returns when they are done. */
module MatrixPrograms {
  import opened Arithmetic
  import opened Collections
  import opened Matrices
  import opened Totals
  import Pool = PoolModel
  import PoolClients
  import PoolInvariant
  import PoolProgress
  import PoolSafety
  import PoolWait

  // ---------------------------------------------------------------- the program

  const COMPUTE_ROWS: nat := 1

  /** The task with argument &tasks[t]. */
  function RowTask(t: nat): Pool.Task {
    Pool.Task(COMPUTE_ROWS, t, Pool.Normal)
  }

  function RowJobs(n: nat): seq<Pool.Task> {
    seq(n, t requires 0 <= t < n => RowTask(t))
  }

  /** The pool, the matrices, and how many calls the client has begun. */
  datatype Program<T> = Program(pool: Pool.State, rows: State<T>, next: nat)

  function Created<T>(m: Operands<T>, c: seq<T>, tasks: seq<Rows>, size: nat, capacity: nat): Program<T> {
    Program(Pool.Created(size, capacity, 1), Begun(m, c, tasks), 0)
  }

  /** A step of the pool, or of the row task that worker w is in. */
  datatype Move = Act(a: Pool.Action) | Multiply(w: nat)

  /** The row task that a worker is about to begin, or is in. */
  predicate IsRow(t: Pool.Task, n: nat) {
    t.func == COMPUTE_ROWS && 0 <= t.arg < n
  }

  /** A task that is not a row task returns at any time, a row task when its loops are done. */
  predicate MayReturn<T>(s: State<T>, t: Pool.Task) {
    |s.cursors| == |s.tasks| && IsRow(t, |s.tasks|) ==> Done(s, t.arg)
  }

  predicate Enabled<T>(m: Operands<T>, p: Program<T>, v: Move) {
    match v
    case Act(a) =>
      && Pool.Enabled(p.pool, a)
      && PoolClients.Follows(a, RowJobs(|p.rows.tasks|), p.next)
      && (a.Work? && p.pool.workers[a.w].Executing? ==> MayReturn(p.rows, p.pool.workers[a.w].t))
    case Multiply(w) =>
      && w < |p.pool.workers| && p.pool.workers[w].Executing?
      && IsRow(p.pool.workers[w].t, |p.rows.tasks|) && CanStep(m, p.rows, p.pool.workers[w].t.arg)
  }

  /** compute_rows is entered: the loops start from their beginning. */
  function Enter<T>(m: Operands<T>, s: State<T>, t: Pool.Task): State<T> {
    if |s.cursors| == |s.tasks| && IsRow(t, |s.tasks|)
    then s.(cursors := s.cursors[t.arg := Cursor(s.tasks[t.arg].start, 0, 0, m.ops.zero)]) else s
  }

  ghost function Next<T>(m: Operands<T>, p: Program<T>, v: Move): Program<T>
    requires WellSized(m) && Enabled(m, p, v)
  {
    match v
    case Act(a) =>
      Program(Pool.Step(p.pool, a),
              if a.Work? && p.pool.workers[a.w].Raised? then Enter(m, p.rows, p.pool.workers[a.w].t) else p.rows,
              PoolClients.After(a, p.next))
    case Multiply(w) => p.(rows := Step(m, p.rows, p.pool.workers[w].t.arg))
  }

  ghost predicate Leads<T>(m: Operands<T>, p: Program<T>, moves: seq<Move>, p': Program<T>)
    requires WellSized(m)
    decreases |moves|
  {
    if moves == [] then p == p'
    else Enabled(m, p, moves[0]) && Leads(m, Next(m, p, moves[0]), moves[1..], p')
  }

  // ---------------------------------------------------------------- the whole invariant

  /** A row task that has returned has done its loops. */
  ghost predicate FinishedRowsDone<T>(s: Pool.State, rows: State<T>)
    requires |rows.cursors| == |rows.tasks|
  {
    forall k :: k in s.finished && k < |rows.tasks| ==> Done(rows, k)
  }

  ghost predicate Inv<T>(m: Operands<T>, p: Program<T>)
    requires WellSized(m)
  {
    var jobs := RowJobs(|p.rows.tasks|);
    && Pool.Reached(p.pool) && PoolClients.Called(p.pool, jobs, p.next)
    && (PoolClients.WaitReturned(p.pool, jobs, p.next) ==> PoolClients.Served(p.pool, jobs))
    && Sound(m, p.rows) && FinishedRowsDone(p.pool, p.rows)
  }

  lemma EnterKeepsSound<T>(m: Operands<T>, s: State<T>, t: Pool.Task)
    requires WellSized(m) && Sound(m, s)
    ensures Sound(m, Enter(m, s, t)) && Enter(m, s, t).tasks == s.tasks
  {
    var s' := Enter(m, s, t);
    forall u | 0 <= u < |s'.cursors|
      ensures CursorSound(m, s'.c, s'.cursors[u], s'.tasks[u])
    {
      assert CursorSound(m, s.c, s.cursors[u], s.tasks[u]);
    }
  }

  lemma ActKeepsRows<T>(m: Operands<T>, p: Program<T>, a: Pool.Action)
    requires WellSized(m) && Inv(m, p) && Enabled(m, p, Act(a))
    ensures var p' := Next(m, p, Act(a));
            Sound(m, p'.rows) && p'.rows.tasks == p.rows.tasks && FinishedRowsDone(p'.pool, p'.rows)
  {
    PoolInvariant.ReachedInv(p.pool);
    PoolSafety.StepLogs(p.pool, a);
    if a.Work? && PoolInvariant.HasTask(p.pool.workers[a.w]) {
      PoolClients.TaskOfTicket(p.pool, RowJobs(|p.rows.tasks|), p.next, a.w);
      EnterKeepsSound(m, p.rows, p.pool.workers[a.w].t);
    }
  }

  lemma ActKeepsInv<T>(m: Operands<T>, p: Program<T>, a: Pool.Action)
    requires WellSized(m) && Inv(m, p) && Enabled(m, p, Act(a))
    ensures Inv(m, Next(m, p, Act(a)))
  {
    PoolInvariant.ReachedInv(p.pool);
    PoolWait.ReachedOn(p.pool, a);
    PoolClients.StepKeepsCalled(p.pool, a, RowJobs(|p.rows.tasks|), p.next);
    PoolClients.StepKeepsServed(p.pool, a, RowJobs(|p.rows.tasks|), p.next);
    ActKeepsRows(m, p, a);
  }

  lemma MultiplyKeepsInv<T>(m: Operands<T>, p: Program<T>, w: nat)
    requires WellSized(m) && Inv(m, p) && Enabled(m, p, Multiply(w))
    ensures Inv(m, Next(m, p, Multiply(w)))
  {
    StepKeepsSound(m, p.rows, p.pool.workers[w].t.arg);
  }

  lemma {:induction false} RunKeepsInv<T>(m: Operands<T>, p: Program<T>, moves: seq<Move>, p': Program<T>)
    requires WellSized(m) && Inv(m, p) && Leads(m, p, moves, p')
    ensures Inv(m, p') && p'.rows.tasks == p.rows.tasks
    decreases |moves|
  {
    if moves != [] {
      MoveKeepsInv(m, p, moves[0]);
      RunKeepsInv(m, Next(m, p, moves[0]), moves[1..], p');
    }
  }

  lemma MoveKeepsInv<T>(m: Operands<T>, p: Program<T>, v: Move)
    requires WellSized(m) && Inv(m, p) && Enabled(m, p, v)
    ensures Inv(m, Next(m, p, v)) && Next(m, p, v).rows.tasks == p.rows.tasks
  {
    match v
    case Act(a) =>
      ActKeepsInv(m, p, a);
      ActKeepsRows(m, p, a);
    case Multiply(w) =>
      MultiplyKeepsInv(m, p, w);
  }

  lemma CreatedInv<T>(m: Operands<T>, c: seq<T>, tasks: seq<Rows>, size: nat, capacity: nat)
    requires WellSized(m) && Fits(c, m.rows, m.cols) && Partitioned(tasks, m.rows) && size > 0
    ensures Inv(m, Created(m, c, tasks, size, capacity))
  {
    PoolClients.CreatedCalled(size, capacity, RowJobs(|tasks|));
  }

  // ---------------------------------------------------------------- safety

  lemma ServedMeansProduct<T>(m: Operands<T>, p: Program<T>)
    requires WellSized(m) && Inv(m, p) && PoolClients.Served(p.pool, RowJobs(|p.rows.tasks|))
    ensures IsProduct(m, p.rows.c)
  {
    forall i, j | 0 <= i < m.rows && 0 <= j < m.cols
      ensures Computed(m, p.rows.c, i, j)
    {
      assert Assigned(p.rows.tasks, i);
      var t :| 0 <= t < |p.rows.tasks| && InRows(p.rows.tasks[t], i);
      assert Done(p.rows, t);
      assert Passed(p.rows.cursors[t], i, j);
    }
  }

  /** Whatever the pool size, the capacity, the number of tasks and the schedule, spurious wake-ups
      included: when the client's wait is about to return, and ever after, the result is the product. */
  lemma {:induction false} ProductWhenWaitReturns<T>(m: Operands<T>, c: seq<T>, tasks: seq<Rows>, size: nat,
                                                     capacity: nat, moves: seq<Move>, p: Program<T>)
    requires WellSized(m) && Fits(c, m.rows, m.cols) && Partitioned(tasks, m.rows) && size > 0
    requires Leads(m, Created(m, c, tasks, size, capacity), moves, p)
    ensures |p.pool.clients| == 1
    ensures PoolWait.Returning(p.pool, 0) || PoolClients.WaitReturned(p.pool, RowJobs(|tasks|), p.next) ==>
              IsProduct(m, p.rows.c)
  {
    CreatedInv(m, c, tasks, size, capacity);
    RunKeepsInv(m, Created(m, c, tasks, size, capacity), moves, p);
    if PoolWait.Returning(p.pool, 0) {
      PoolWait.SingleClientIsServed(p.pool, 0);
      ServedMeansProduct(m, p);
    } else if PoolClients.WaitReturned(p.pool, RowJobs(|tasks|), p.next) {
      ServedMeansProduct(m, p);
    }
  }

  // ---------------------------------------------------------------- progress

  predicate IsSpurious(v: Move) {
    v.Act? && PoolClients.IsSpurious(v.a)
  }

  /** No thread has a step of its own to take. */
  ghost predicate Stuck<T>(m: Operands<T>, p: Program<T>) {
    forall v :: !IsSpurious(v) ==> !Enabled(m, p, v)
  }

  /** A pool that can go on can do so in the program, if need be by a step of a row task. */
  lemma StuckPool<T>(m: Operands<T>, p: Program<T>)
    requires WellSized(m) && Inv(m, p) && Stuck(m, p)
    ensures PoolProgress.Stuck(p.pool)
  {
    forall a | Pool.Internal(a)
      ensures !Pool.Enabled(p.pool, a)
    {
      assert !Enabled(m, p, Act(a));
      if Pool.Enabled(p.pool, a) {
        assert a.Work? && p.pool.workers[a.w].Executing?;
        SoundTasksCanStep(m, p.rows, p.pool.workers[a.w].t.arg);
        assert Enabled(m, p, Multiply(a.w));
        assert false;
      }
    }
  }

  /** When nobody can move, the client has made all its calls, they have returned, the pool is shut down
      and the workers are gone, and the result is the product. */
  lemma StuckMeansMultiplied<T>(m: Operands<T>, p: Program<T>)
    requires WellSized(m) && Inv(m, p) && Stuck(m, p)
    ensures PoolClients.ShutDown(p.pool, RowJobs(|p.rows.tasks|), p.next) && IsProduct(m, p.rows.c)
  {
    StuckPool(m, p);
    PoolInvariant.ReachedInv(p.pool);
    PoolProgress.StuckMeansAtRest(p.pool);
    var call := PoolClients.CallAt(RowJobs(|p.rows.tasks|), p.next);
    if call.Some? {
      assert Enabled(m, p, Act(Pool.Start(0, call.value)));
      assert false;
    }
    PoolClients.RestIsShutDown(p.pool, RowJobs(|p.rows.tasks|), p.next);
    ServedMeansProduct(m, p);
  }

  /** The steps of a row task that has all rows to do; no task takes more from its entry. */
  function EntryCost<T>(m: Operands<T>): nat {
    StepsLeft(m)(Cursor(0, 0, 0, m.ops.zero))
  }

  lemma FromLaterRow<T>(m: Operands<T>, i: nat)
    ensures StepsLeft(m)(Cursor(i, 0, 0, m.ops.zero)) <= EntryCost(m)
  {
    var perRow := RowSteps(m);
    MulMonotone(m.rows - i, m.rows, perRow);
    MulMonotone(0, m.rows, perRow);
    assert (if i < m.rows then (m.rows - i) * perRow else 0) <= (if 0 < m.rows then (m.rows - 0) * perRow else 0);
  }

  lemma EntryIsBounded<T>(m: Operands<T>, s: State<T>, t: Pool.Task)
    requires |s.cursors| == |s.tasks|
    ensures Total(Enter(m, s, t).cursors, StepsLeft(m)) <= Total(s.cursors, StepsLeft(m)) + EntryCost(m)
  {
    if IsRow(t, |s.tasks|) {
      var i, f := s.tasks[t.arg].start, StepsLeft(m);
      FromLaterRow(m, i);
      TotalUpdate(s.cursors, t.arg, Cursor(i, 0, 0, m.ops.zero), f);
    }
  }

  ghost function Measure<T>(m: Operands<T>, p: Program<T>): nat
    requires p.next <= |p.rows.tasks| + 2
  {
    PoolClients.CallsLeft(p.pool, RowJobs(|p.rows.tasks|), p.next) * (EntryCost(m) + 1)
    + Total(p.rows.cursors, StepsLeft(m))
  }

  lemma ActMoveShrinks<T>(m: Operands<T>, p: Program<T>, a: Pool.Action)
    requires WellSized(m) && PoolInvariant.Inv(p.pool) && |p.pool.clients| == 1 && p.next <= |p.rows.tasks| + 2
    requires |p.rows.cursors| == |p.rows.tasks| && Enabled(m, p, Act(a)) && !IsSpurious(Act(a))
    ensures |Next(m, p, Act(a)).rows.tasks| == |p.rows.tasks| && Next(m, p, Act(a)).next <= |p.rows.tasks| + 2
    ensures Measure(m, Next(m, p, Act(a))) < Measure(m, p)
  {
    var p', jobs := Next(m, p, Act(a)), RowJobs(|p.rows.tasks|);
    PoolClients.StepShrinks(p.pool, a, jobs, p.next);
    MulStrict(PoolClients.CallsLeft(p'.pool, jobs, p'.next), PoolClients.CallsLeft(p.pool, jobs, p.next),
              EntryCost(m) + 1);
    if a.Work? && p.pool.workers[a.w].Raised? {
      EntryIsBounded(m, p.rows, p.pool.workers[a.w].t);
    }
  }

  lemma MoveShrinks<T>(m: Operands<T>, p: Program<T>, v: Move)
    requires WellSized(m) && Inv(m, p) && Enabled(m, p, v) && !IsSpurious(v)
    ensures |Next(m, p, v).rows.tasks| == |p.rows.tasks| && Next(m, p, v).next <= |p.rows.tasks| + 2
    ensures Measure(m, Next(m, p, v)) < Measure(m, p)
  {
    match v
    case Act(a) =>
      PoolInvariant.ReachedInv(p.pool);
      ActMoveShrinks(m, p, a);
    case Multiply(w) =>
      StepShrinks(m, p.rows, p.pool.workers[w].t.arg);
  }

  lemma {:induction false} MovesAreBounded<T>(m: Operands<T>, p: Program<T>, moves: seq<Move>, p': Program<T>)
    requires WellSized(m) && Inv(m, p) && Leads(m, p, moves, p')
    requires forall i :: 0 <= i < |moves| ==> !IsSpurious(moves[i])
    ensures Inv(m, p') && p'.rows.tasks == p.rows.tasks && |moves| + Measure(m, p') <= Measure(m, p)
    decreases |moves|
  {
    if moves != [] {
      assert !IsSpurious(moves[0]);
      MoveKeepsInv(m, p, moves[0]);
      MoveShrinks(m, p, moves[0]);
      MovesAreBounded(m, Next(m, p, moves[0]), moves[1..], p');
    }
  }

  /** The program as a whole: for every pool size, capacity, number of row tasks and matrices, every
      schedule without spurious wake-ups is bounded, and when nobody can move, the client has waited
      and destroyed the pool, which is shut down with its workers gone, and the result is, cell for cell,
      the matrix that any other computation of the product holds. */
  lemma {:induction false} ParallelProgramMultiplies<T>(m: Operands<T>, c: seq<T>, n: nat, tasks: seq<Rows>,
                                                        size: nat, capacity: nat, moves: seq<Move>,
                                                        p: Program<T>, sequential: seq<T>)
    requires WellSized(m) && Fits(c, m.rows, m.cols) && IsProduct(m, sequential) && size > 0
    requires n > 0 && |tasks| == n && forall t :: 0 <= t < n ==> tasks[t] == RowsOf(m.rows, n, t)
    requires Leads(m, Created(m, c, tasks, size, capacity), moves, p)
    requires forall i :: 0 <= i < |moves| ==> !IsSpurious(moves[i])
    ensures |moves| <= Measure(m, Created(m, c, tasks, size, capacity))
    ensures Stuck(m, p) ==> PoolClients.ShutDown(p.pool, RowJobs(n), p.next) && p.rows.c == sequential
  {
    RowsPartition(m.rows, n, tasks);
    CreatedInv(m, c, tasks, size, capacity);
    MovesAreBounded(m, Created(m, c, tasks, size, capacity), moves, p);
    if Stuck(m, p) {
      StuckMeansMultiplied(m, p);
      ProductUnique(m, p.rows.c, sequential);
    }
  }
}
