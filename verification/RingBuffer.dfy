/** The producer-consumer program of examples/hello_threads.c: a ring buffer under a mutex, with one
    semaphore for the empty places and one for the filled ones. Any number of producers and
    consumers, each with its own number of items, over a ring of any size. */
module RingBuffers {
  import opened Arithmetic
  import opened Collections
  import opened Totals
  import Semaphores

  type Sem = Semaphores.Sem

  // ---------------------------------------------------------------- the ring

  /** buffer, buffer_in and buffer_out. */
  datatype Ring = Ring(buffer: seq<nat>, inPos: nat, outPos: nat)

  predicate InBounds(r: Ring) {
    r.inPos < |r.buffer| && r.outPos < |r.buffer|
  }

  /** What producer_task does under the lock. */
  function Put(r: Ring, item: nat): Ring
    requires InBounds(r)
  {
    Ring(r.buffer[r.inPos := item], (r.inPos + 1) % |r.buffer|, r.outPos)
  }

  /** What consumer_task does under the lock, and the item it takes. */
  function Taken(r: Ring): nat
    requires InBounds(r)
  {
    r.buffer[r.outPos]
  }

  function Take(r: Ring): Ring
    requires InBounds(r)
  {
    Ring(r.buffer, r.inPos, (r.outPos + 1) % |r.buffer|)
  }

  // ---------------------------------------------------------------- the threads

  datatype Role = Producer | Consumer

  datatype Point = Waiting | Holding | Posting

  /** Program points of the two loops: in sync_sem_wait, holding a token, or about to post. A thread
      whose rounds are all done stays at Waiting. A consumer that is Posting has an item
      in hand; item and sum are a consumer's. */
  datatype Thread = Thread(role: Role, items: nat, done: nat, at: Point, item: nat, sum: nat)

  datatype State = State(
    threads: seq<Thread>,
    empty: Sem,
    full: Sem,
    ring: Ring,
    // history, in the order in which the buffer lock was held
    produced: seq<nat>,
    consumed: seq<nat>)

  function Begun(threads: seq<Thread>, buffer: seq<nat>): State {
    State(threads, Semaphores.Sem(|buffer|, {}, {}), Semaphores.Sem(0, {}, {}), Ring(buffer, 0, 0), [], [])
  }

  /** A thread about to enter its loop. */
  predicate AtStart(t: Thread) {
    t.done == 0 && t.at.Waiting? && t.sum == 0
  }

  predicate Ended(t: Thread) {
    t.at.Waiting? && t.done >= t.items
  }

  // ---------------------------------------------------------------- steps

  datatype Action = Move(t: nat, wake: Option<nat>) | Spurious(t: nat)

  predicate Asleep(s: State, t: nat) {
    t in s.empty.asleep || t in s.full.asleep
  }

  predicate CanMove(s: State, t: nat) {
    t < |s.threads| && !Ended(s.threads[t]) && !Asleep(s, t)
  }

  predicate Enabled(s: State, a: Action) {
    match a
    case Move(t, wake) =>
      && CanMove(s, t)
      && (if !s.threads[t].at.Posting? then wake.None?
          else Semaphores.Signals(if s.threads[t].role.Producer? then s.full else s.empty, wake))
    case Spurious(t) => t < |s.threads| && Asleep(s, t)
  }

  /** One step of producer_task. */
  function Produce(s: State, t: nat, wake: Option<nat>): State
    requires t < |s.threads| && s.threads[t].role.Producer? && InBounds(s.ring)
  {
    var x := s.threads[t];
    match x.at
    case Waiting =>
      if s.empty.count == 0 then s.(empty := Semaphores.Wait(s.empty, t))
      else s.(empty := Semaphores.Wait(s.empty, t), threads := s.threads[t := x.(at := Holding)])
    case Holding =>
      s.(ring := Put(s.ring, x.done + 1), produced := s.produced + [x.done + 1],
         threads := s.threads[t := x.(at := Posting)])
    case Posting =>
      s.(full := Semaphores.Post(s.full, wake),
         threads := s.threads[t := x.(done := x.done + 1, at := Waiting)])
  }

  /** One step of consumer_task. */
  function Consume(s: State, t: nat, wake: Option<nat>): State
    requires t < |s.threads| && s.threads[t].role.Consumer? && InBounds(s.ring)
  {
    var x := s.threads[t];
    match x.at
    case Waiting =>
      if s.full.count == 0 then s.(full := Semaphores.Wait(s.full, t))
      else s.(full := Semaphores.Wait(s.full, t), threads := s.threads[t := x.(at := Holding)])
    case Holding =>
      s.(ring := Take(s.ring), consumed := s.consumed + [Taken(s.ring)],
         threads := s.threads[t := x.(at := Posting, item := Taken(s.ring))])
    case Posting =>
      s.(empty := Semaphores.Post(s.empty, wake),
         threads := s.threads[t := x.(done := x.done + 1, at := Waiting, sum := x.sum + x.item)])
  }

  function Step(s: State, a: Action): State
    requires Enabled(s, a) && InBounds(s.ring)
  {
    match a
    case Move(t, wake) => if s.threads[t].role.Producer? then Produce(s, t, wake) else Consume(s, t, wake)
    case Spurious(t) =>
      if t in s.empty.asleep then s.(empty := Semaphores.WakeUp(s.empty, t))
      else s.(full := Semaphores.WakeUp(s.full, t))
  }

  ghost predicate Leads(s: State, actions: seq<Action>, s': State)
    decreases |actions|
  {
    if actions == [] then s == s'
    else InBounds(s.ring) && Enabled(s, actions[0]) && Leads(Step(s, actions[0]), actions[1..], s')
  }

  // ---------------------------------------------------------------- weights

  function ProducerHolds(t: Thread): nat { if t.role.Producer? && t.at.Holding? then 1 else 0 }

  function ProducerPosts(t: Thread): nat { if t.role.Producer? && t.at.Posting? then 1 else 0 }

  function ConsumerHolds(t: Thread): nat { if t.role.Consumer? && t.at.Holding? then 1 else 0 }

  function ConsumerPosts(t: Thread): nat { if t.role.Consumer? && t.at.Posting? then 1 else 0 }

  /** Rounds whose critical section is over. */
  function Rounds(t: Thread): nat { t.done + (if t.at.Posting? then 1 else 0) }

  function Produced(t: Thread): nat { if t.role.Producer? then Rounds(t) else 0 }

  function Consumed(t: Thread): nat { if t.role.Consumer? then Rounds(t) else 0 }

  function ToProduce(t: Thread): nat { if t.role.Producer? then t.items else 0 }

  function ToConsume(t: Thread): nat { if t.role.Consumer? then t.items else 0 }

  function Value(x: nat): nat { x }

  /** 1 + 2 + ... + n. */
  function UpTo(n: nat): nat {
    if n == 0 then 0 else n + UpTo(n - 1)
  }

  function ValueProduced(t: Thread): nat { if t.role.Producer? then UpTo(Rounds(t)) else 0 }

  function ValueConsumed(t: Thread): nat {
    if t.role.Consumer? then t.sum + (if t.at.Posting? then t.item else 0) else 0
  }

  // ---------------------------------------------------------------- the invariant

  /** Tokens: what is in the semaphores and in the threads' hands adds up to the ring's places. */
  ghost predicate Tokens(s: State) {
    && |s.consumed| <= |s.produced|
    && s.full.count + Total(s.threads, ProducerPosts) + Total(s.threads, ConsumerHolds)
         == |s.produced| - |s.consumed|
    && s.empty.count + Total(s.threads, ProducerHolds) + Total(s.threads, ConsumerPosts)
         == |s.ring.buffer| - (|s.produced| - |s.consumed|)
  }

  /** Contents: the unread items are where the consumers will look for them. */
  ghost predicate Contents(s: State) {
    var n := |s.ring.buffer|;
    && n > 0 && |s.consumed| <= |s.produced| <= |s.consumed| + n
    && s.ring.inPos == |s.produced| % n && s.ring.outPos == |s.consumed| % n
    && s.consumed == s.produced[..|s.consumed|]
    && (forall k :: |s.consumed| <= k < |s.produced| ==> s.ring.buffer[k % n] == s.produced[k])
  }

  ghost predicate Sleepers(s: State) {
    SleepersOf(s.threads, s.empty, Producer) && SleepersOf(s.threads, s.full, Consumer)
  }

  /** No wake-up is lost, and those asleep or woken on the semaphore are threads of the one role that
      are waiting for their next round. */
  ghost predicate SleepersOf(threads: seq<Thread>, sem: Sem, role: Role) {
    && Semaphores.NoLostWakeUp(sem)
    && (forall t :: t in sem.asleep || t in sem.woken ==>
          t < |threads| && threads[t].role == role && threads[t].at.Waiting? && !Ended(threads[t]))
  }

  ghost predicate Ledger(s: State) {
    && |s.produced| == Total(s.threads, Produced) && |s.consumed| == Total(s.threads, Consumed)
    && Total(s.produced, Value) == Total(s.threads, ValueProduced)
    && Total(s.consumed, Value) == Total(s.threads, ValueConsumed)
    && (forall t :: 0 <= t < |s.threads| ==>
          && Rounds(s.threads[t]) <= s.threads[t].items
          && (s.threads[t].at.Holding? ==> s.threads[t].done < s.threads[t].items))
  }

  ghost predicate Inv(s: State) {
    Tokens(s) && Contents(s) && Sleepers(s) && Ledger(s)
  }

  // ---------------------------------------------------------------- every step keeps it

  /** Unread items lie in different places. */
  lemma PlacesApart(j: nat, k: nat, n: nat)
    requires j < k < j + n
    ensures j % n != k % n
  {
    MulStrict(j / n, k / n, n);
    MulStrict(k / n, j / n, n);
  }

  /** Putting behind the unread items, with a place free, keeps them readable in order. */
  lemma PutKeepsContents(s: State, x: nat)
    requires Contents(s) && |s.produced| < |s.consumed| + |s.ring.buffer|
    ensures Contents(s.(ring := Put(s.ring, x), produced := s.produced + [x]))
  {
    var n, p := |s.ring.buffer|, |s.produced|;
    RemainderOfSum(p, 1, n);
    var s' := s.(ring := Put(s.ring, x), produced := s.produced + [x]);
    forall k | |s'.consumed| <= k < |s'.produced|
      ensures s'.ring.buffer[k % n] == s'.produced[k]
    {
      if k < p {
        PlacesApart(k, p, n);
      }
    }
  }

  /** Taking the first unread item hands out the items in the order in which they were put in. */
  lemma TakeKeepsContents(s: State)
    requires Contents(s) && |s.consumed| < |s.produced|
    ensures Taken(s.ring) == s.produced[|s.consumed|]
    ensures Contents(s.(ring := Take(s.ring), consumed := s.consumed + [Taken(s.ring)]))
  {
    RemainderOfSum(|s.consumed|, 1, |s.ring.buffer|);
  }

  /** How the weights move when thread t becomes x. */
  lemma Reweigh(s: State, t: nat, x: Thread, f: Thread -> nat)
    requires t < |s.threads|
    ensures Total(s.threads[t := x], f) + f(s.threads[t]) == Total(s.threads, f) + f(x)
  {
    TotalUpdate(s.threads, t, x, f);
  }

  /** A move changes the tokens of the filled places as it changes the number of unread items, and
      those of the empty places the other way. */
  lemma MoveOfTokens(s: State, t: nat, wake: Option<nat>)
    requires InBounds(s.ring) && Enabled(s, Move(t, wake))
    ensures var s' := Step(s, Move(t, wake)); var x, x' := s.threads[t], s'.threads[t];
            var unread, unread' := |s.produced| - |s.consumed|, |s'.produced| - |s'.consumed|;
            && s'.threads == s.threads[t := x'] && |s'.ring.buffer| == |s.ring.buffer|
            && s'.full.count + ProducerPosts(x') + ConsumerHolds(x') - unread'
                 == s.full.count + ProducerPosts(x) + ConsumerHolds(x) - unread
            && s'.empty.count + ProducerHolds(x') + ConsumerPosts(x') + unread'
                 == s.empty.count + ProducerHolds(x) + ConsumerPosts(x) + unread
  {
    assert s.threads[t := s.threads[t]] == s.threads;
  }

  lemma MoveKeepsTokens(s: State, t: nat, wake: Option<nat>)
    requires Tokens(s) && InBounds(s.ring) && Enabled(s, Move(t, wake))
    ensures Tokens(Step(s, Move(t, wake)))
  {
    MoveOfTokens(s, t, wake);
    var x' := Step(s, Move(t, wake)).threads[t];
    Reweigh(s, t, x', ProducerPosts);
    Reweigh(s, t, x', ConsumerHolds);
    Reweigh(s, t, x', ProducerHolds);
    Reweigh(s, t, x', ConsumerPosts);
  }

  /** A thread that holds a token finds a free place, or an unread item. */
  lemma HoldersAreServed(s: State, t: nat)
    requires Tokens(s) && t < |s.threads| && s.threads[t].at.Holding?
    ensures if s.threads[t].role.Producer? then |s.produced| < |s.consumed| + |s.ring.buffer|
            else |s.consumed| < |s.produced|
  {
    TotalAtLeast(s.threads, t, ProducerHolds);
    TotalAtLeast(s.threads, t, ConsumerHolds);
  }

  lemma MoveKeepsContents(s: State, t: nat, wake: Option<nat>)
    requires Tokens(s) && Contents(s) && Enabled(s, Move(t, wake))
    ensures Contents(Step(s, Move(t, wake)))
  {
    if s.threads[t].at.Holding? {
      HoldersAreServed(s, t);
      if s.threads[t].role.Producer? {
        PutKeepsContents(s, s.threads[t].done + 1);
      } else {
        TakeKeepsContents(s);
      }
    }
  }

  /** A thread that is not asleep has its turn at the semaphore. */
  lemma TurnKeepsSleepers(threads: seq<Thread>, sem: Sem, role: Role, t: nat, x: Thread)
    requires SleepersOf(threads, sem, role) && t < |threads| && t !in sem.asleep
    requires sem.count == 0 ==> x == threads[t] && x.role == role && x.at.Waiting? && !Ended(x)
    ensures SleepersOf(threads[t := x], Semaphores.Wait(sem, t), role)
  {
    Semaphores.WaitKeepsWakeUps(sem, t);
  }

  /** A thread that the semaphore does not know moves. */
  lemma StrangerKeepsSleepers(threads: seq<Thread>, sem: Sem, role: Role, t: nat, x: Thread)
    requires SleepersOf(threads, sem, role) && t < |threads| && t !in sem.asleep && t !in sem.woken
    ensures SleepersOf(threads[t := x], sem, role)
  {
  }

  lemma PostKeepsSleepers(threads: seq<Thread>, sem: Sem, role: Role, wake: Option<nat>)
    requires SleepersOf(threads, sem, role) && Semaphores.Signals(sem, wake)
    ensures SleepersOf(threads, Semaphores.Post(sem, wake), role)
  {
    Semaphores.PostKeepsWakeUps(sem, wake);
  }

  lemma MoveKeepsSleepers(s: State, t: nat, wake: Option<nat>)
    requires Sleepers(s) && InBounds(s.ring) && Enabled(s, Move(t, wake))
    ensures Sleepers(Step(s, Move(t, wake)))
  {
    var s' := Step(s, Move(t, wake));
    var x, x' := s.threads[t], s'.threads[t];
    assert s'.threads == s.threads[t := x'];
    var (own, other) := if x.role.Producer? then (s.empty, s.full) else (s.full, s.empty);
    var stranger := if x.role.Producer? then Consumer else Producer;
    StrangerKeepsSleepers(s.threads, other, stranger, t, x');
    if x.at.Waiting? {
      TurnKeepsSleepers(s.threads, own, x.role, t, x');
    } else {
      StrangerKeepsSleepers(s.threads, own, x.role, t, x');
      if x.at.Posting? {
        PostKeepsSleepers(s'.threads, other, stranger, wake);
      }
    }
  }

  /** A producer's own entries in the ledger. */
  lemma ProducerEntries(s: State, t: nat, wake: Option<nat>)
    requires InBounds(s.ring) && Enabled(s, Move(t, wake)) && s.threads[t].role.Producer?
    ensures var s' := Produce(s, t, wake); var x, x' := s.threads[t], s'.threads[t];
            && s'.threads == s.threads[t := x'] && s'.consumed == s.consumed
            && x'.role == x.role && x'.items == x.items
            && (if x.at.Holding?
                then Rounds(x') == Rounds(x) + 1 && s'.produced == s.produced + [Rounds(x')]
                else Rounds(x') == Rounds(x) && s'.produced == s.produced)
            && (x'.at.Holding? ==> x'.done < x'.items)
  {
    assert s.threads[t := s.threads[t]] == s.threads;
  }

  lemma ProduceKeepsLedger(s: State, t: nat, wake: Option<nat>)
    requires Ledger(s) && InBounds(s.ring) && Enabled(s, Move(t, wake)) && s.threads[t].role.Producer?
    ensures Ledger(Produce(s, t, wake))
  {
    ProducerEntries(s, t, wake);
    var x' := Produce(s, t, wake).threads[t];
    Reweigh(s, t, x', Produced);
    Reweigh(s, t, x', Consumed);
    Reweigh(s, t, x', ValueProduced);
    Reweigh(s, t, x', ValueConsumed);
    TotalAppend<nat>(s.produced, Rounds(x'), Value);
  }

  /** A consumer's. */
  lemma ConsumerEntries(s: State, t: nat, wake: Option<nat>)
    requires InBounds(s.ring) && Enabled(s, Move(t, wake)) && s.threads[t].role.Consumer?
    ensures var s' := Consume(s, t, wake); var x, x' := s.threads[t], s'.threads[t];
            && s'.threads == s.threads[t := x'] && s'.produced == s.produced
            && x'.role == x.role && x'.items == x.items
            && (if x.at.Holding?
                then Rounds(x') == Rounds(x) + 1 && s'.consumed == s.consumed + [Taken(s.ring)] &&
                     ValueConsumed(x') == ValueConsumed(x) + Taken(s.ring)
                else Rounds(x') == Rounds(x) && s'.consumed == s.consumed &&
                     ValueConsumed(x') == ValueConsumed(x))
            && (x'.at.Holding? ==> x'.done < x'.items)
  {
    assert s.threads[t := s.threads[t]] == s.threads;
  }

  lemma ConsumeKeepsLedger(s: State, t: nat, wake: Option<nat>)
    requires Ledger(s) && InBounds(s.ring) && Enabled(s, Move(t, wake)) && s.threads[t].role.Consumer?
    ensures Ledger(Consume(s, t, wake))
  {
    ConsumerEntries(s, t, wake);
    var x' := Consume(s, t, wake).threads[t];
    Reweigh(s, t, x', Produced);
    Reweigh(s, t, x', Consumed);
    Reweigh(s, t, x', ValueProduced);
    Reweigh(s, t, x', ValueConsumed);
    TotalAppend<nat>(s.consumed, Taken(s.ring), Value);
  }

  lemma WakeUpKeepsSleepers(threads: seq<Thread>, sem: Sem, role: Role, t: nat)
    requires SleepersOf(threads, sem, role) && t in sem.asleep
    ensures SleepersOf(threads, Semaphores.WakeUp(sem, t), role)
  {
    Semaphores.WakeUpKeepsWakeUps(sem, t);
  }

  lemma SpuriousKeepsInv(s: State, t: nat)
    requires Inv(s) && Enabled(s, Spurious(t))
    ensures Inv(Step(s, Spurious(t)))
  {
    if t in s.empty.asleep {
      WakeUpKeepsSleepers(s.threads, s.empty, Producer, t);
    } else {
      WakeUpKeepsSleepers(s.threads, s.full, Consumer, t);
    }
  }

  lemma {:induction false} StepKeepsInv(s: State, a: Action)
    requires Inv(s) && Enabled(s, a)
    ensures Inv(Step(s, a))
  {
    match a
    case Move(t, wake) =>
      MoveKeepsTokens(s, t, wake);
      MoveKeepsContents(s, t, wake);
      MoveKeepsSleepers(s, t, wake);
      if s.threads[t].role.Producer? {
        ProduceKeepsLedger(s, t, wake);
      } else {
        ConsumeKeepsLedger(s, t, wake);
      }
    case Spurious(t) =>
      SpuriousKeepsInv(s, t);
  }

  lemma {:induction false} RunKeepsInv(s: State, actions: seq<Action>, s': State)
    requires Inv(s) && Leads(s, actions, s')
    ensures Inv(s')
    decreases |actions|
  {
    if actions != [] {
      StepKeepsInv(s, actions[0]);
      RunKeepsInv(Step(s, actions[0]), actions[1..], s');
    }
  }

  lemma BegunInv(threads: seq<Thread>, buffer: seq<nat>)
    requires |buffer| > 0 && forall t :: 0 <= t < |threads| ==> AtStart(threads[t])
    ensures Inv(Begun(threads, buffer))
  {
    TotalZero(threads, ProducerHolds);
    TotalZero(threads, ProducerPosts);
    TotalZero(threads, ConsumerHolds);
    TotalZero(threads, ConsumerPosts);
    TotalZero(threads, Produced);
    TotalZero(threads, Consumed);
    TotalZero(threads, ValueProduced);
    TotalZero(threads, ValueConsumed);
  }

  // ---------------------------------------------------------------- main results

  ghost predicate Reached(s: State) {
    exists threads, buffer, actions ::
      && |buffer| > 0 && (forall t :: 0 <= t < |threads| ==> AtStart(threads[t]))
      && Leads(Begun(threads, buffer), actions, s)
  }

  lemma ReachedInv(s: State)
    requires Reached(s)
    ensures Inv(s)
  {
    var threads, buffer, actions :|
      && |buffer| > 0 && (forall t :: 0 <= t < |threads| ==> AtStart(threads[t]))
      && Leads(Begun(threads, buffer), actions, s);
    BegunInv(threads, buffer);
    RunKeepsInv(Begun(threads, buffer), actions, s);
  }

  /** Tokens are conserved. */
  lemma TokensConserved(s: State)
    requires Reached(s)
    ensures s.empty.count + s.full.count
              + Total(s.threads, ProducerHolds) + Total(s.threads, ProducerPosts)
              + Total(s.threads, ConsumerHolds) + Total(s.threads, ConsumerPosts) == |s.ring.buffer|
  {
    ReachedInv(s);
  }

  /** The next n items a consumer would find in the ring. */
  function Unread(r: Ring, n: nat): seq<nat>
    requires InBounds(r)
  {
    seq(n, i requires 0 <= i < n => r.buffer[(r.outPos + i) % |r.buffer|])
  }

  function UnreadItems(s: State): seq<nat> {
    if InBounds(s.ring) && |s.consumed| <= |s.produced|
    then Unread(s.ring, |s.produced| - |s.consumed|) else []
  }

  /** First in, first out: the items taken, followed by those a consumer would find in the ring, are
      the items put in, in the order of the buffer lock. */
  lemma {:induction false} FirstInFirstOut(s: State)
    requires Inv(s)
    ensures InBounds(s.ring)
    ensures s.consumed + UnreadItems(s) == s.produced
  {
    forall i | 0 <= i < |UnreadItems(s)|
      ensures UnreadItems(s)[i] == s.produced[|s.consumed| + i]
    {
      RemainderOfSum(|s.consumed|, i, |s.ring.buffer|);
    }
  }

  /** What a step adds to the logs. */
  lemma StepLogs(s: State, a: Action)
    requires InBounds(s.ring) && Enabled(s, a)
    ensures var s' := Step(s, a); var t := s.threads[a.t];
            if a.Move? && t.at.Holding? && t.role.Producer?
            then s'.produced == s.produced + [t.done + 1] && s'.consumed == s.consumed
            else if a.Move? && t.at.Holding?
            then s'.produced == s.produced && s'.consumed == s.consumed + [Taken(s.ring)]
            else s'.produced == s.produced && s'.consumed == s.consumed
  {
  }

  lemma SplitLog(was: seq<nat>, now: seq<nat>, c: seq<nat>, c': seq<nat>, p: seq<nat>, p': seq<nat>, x: nat)
    requires c + was == p && c' + now == p'
    ensures c' == c && p' == p ==> now == was
    ensures c' == c && p' == p + [x] ==> now == was + [x]
    ensures c' == c + [x] && p' == p ==> [x] + now == was
  {
    assert now == p'[|c'|..] && was == p[|c|..];
  }

  /** No step overwrites an unread item: a step leaves the unread items alone, adds one behind them,
      or takes the first of them. */
  lemma {:induction false} NothingOverwritten(s: State, a: Action)
    requires Inv(s) && Enabled(s, a)
    ensures || UnreadItems(Step(s, a)) == UnreadItems(s)
            || (exists item :: UnreadItems(Step(s, a)) == UnreadItems(s) + [item])
            || [Taken(s.ring)] + UnreadItems(Step(s, a)) == UnreadItems(s)
  {
    var s' := Step(s, a);
    StepKeepsInv(s, a);
    FirstInFirstOut(s);
    FirstInFirstOut(s');
    StepLogs(s, a);
    var item := s.threads[a.t].done + 1;
    SplitLog(UnreadItems(s), UnreadItems(s'), s.consumed, s'.consumed, s.produced, s'.produced, item);
    SplitLog(UnreadItems(s), UnreadItems(s'), s.consumed, s'.consumed, s.produced, s'.produced, Taken(s.ring));
  }

  // ---------------------------------------------------------------- everybody gets to the end

  ghost predicate AllEnded(s: State) {
    forall t :: 0 <= t < |s.threads| ==> Ended(s.threads[t])
  }

  /** No thread has a step of its own to take. */
  ghost predicate Stuck(s: State) {
    forall a: Action :: a.Move? ==> !Enabled(s, a)
  }

  /** A thread that is neither asleep nor at its end has such a step: the signal of its post finds a
      sleeper to wake, or nobody sleeps. */
  lemma StuckMeansNoneCanMove(s: State)
    ensures Stuck(s) <==> forall t :: 0 <= t < |s.threads| ==> !CanMove(s, t)
  {
    forall t | 0 <= t < |s.threads| && CanMove(s, t)
      ensures !Stuck(s)
    {
      var sem := if s.threads[t].role.Producer? then s.full else s.empty;
      if u :| s.threads[t].at.Posting? && u in sem.asleep {
        assert Enabled(s, Move(t, Some(u)));
      } else {
        assert Enabled(s, Move(t, None));
      }
    }
  }

  /** If nobody can move, everybody sleeps or has ended, and nobody holds a token. */
  lemma StuckMeansWaiting(s: State)
    requires Inv(s) && Stuck(s)
    ensures s.empty.woken == {} && s.full.woken == {}
    ensures s.full.count == |s.produced| - |s.consumed|
    ensures s.empty.count == |s.ring.buffer| - (|s.produced| - |s.consumed|)
    ensures forall t :: 0 <= t < |s.threads| ==> s.threads[t].at.Waiting? && (Ended(s.threads[t]) || Asleep(s, t))
  {
    StuckMeansNoneCanMove(s);
    forall t | 0 <= t < |s.threads|
      ensures s.threads[t].at.Waiting? && (Ended(s.threads[t]) || Asleep(s, t))
    {
      assert !CanMove(s, t);
    }
    TotalZero(s.threads, ProducerHolds);
    TotalZero(s.threads, ProducerPosts);
    TotalZero(s.threads, ConsumerHolds);
    TotalZero(s.threads, ConsumerPosts);
    forall t: nat
      ensures t !in s.empty.woken && t !in s.full.woken
    {
      assert t < |s.threads| ==> !CanMove(s, t);
    }
  }

  /** If the producers have not all ended, the ring is full. */
  lemma StuckProducers(s: State, t: nat)
    requires Inv(s) && Stuck(s)
    requires t < |s.threads| && s.threads[t].role.Producer? && !Ended(s.threads[t])
    ensures |s.produced| == |s.consumed| + |s.ring.buffer| && s.full.asleep == {}
    ensures |s.produced| < Total(s.threads, ToProduce)
  {
    StuckMeansWaiting(s);
    assert Asleep(s, t) && t in s.empty.asleep;
    TotalStrict(s.threads, t, Produced, ToProduce);
  }

  /** If the consumers have not all ended, the ring is empty. */
  lemma StuckConsumers(s: State, t: nat)
    requires Inv(s) && Stuck(s)
    requires t < |s.threads| && s.threads[t].role.Consumer? && !Ended(s.threads[t])
    ensures |s.produced| == |s.consumed| && s.empty.asleep == {}
    ensures |s.consumed| < Total(s.threads, ToConsume)
  {
    StuckMeansWaiting(s);
    assert Asleep(s, t) && t in s.full.asleep;
    TotalStrict(s.threads, t, Consumed, ToConsume);
  }

  lemma EndedTotals(s: State)
    requires Inv(s)
    ensures (forall t :: 0 <= t < |s.threads| && s.threads[t].role.Producer? ==> Ended(s.threads[t])) ==>
              |s.produced| == Total(s.threads, ToProduce)
    ensures (forall t :: 0 <= t < |s.threads| && s.threads[t].role.Consumer? ==> Ended(s.threads[t])) ==>
              |s.consumed| == Total(s.threads, ToConsume)
  {
    if forall t :: 0 <= t < |s.threads| && s.threads[t].role.Producer? ==> Ended(s.threads[t]) {
      TotalSame(s.threads, s.threads, Produced, ToProduce);
    }
    if forall t :: 0 <= t < |s.threads| && s.threads[t].role.Consumer? ==> Ended(s.threads[t]) {
      TotalSame(s.threads, s.threads, Consumed, ToConsume);
    }
  }

  /** When nobody can move any more, everybody has ended if and only if the producers together make
      as many items as the consumers want, or more by no more than the ring holds. */
  lemma {:induction false} EveryoneEndsIff(s: State)
    requires Inv(s) && Stuck(s)
    ensures AllEnded(s) <==>
              && Total(s.threads, ToConsume) <= Total(s.threads, ToProduce)
              && Total(s.threads, ToProduce) <= Total(s.threads, ToConsume) + |s.ring.buffer|
  {
    EndedTotals(s);
    if t :| 0 <= t < |s.threads| && !Ended(s.threads[t]) {
      StuckMeansWaiting(s);
      if s.threads[t].role.Producer? {
        StuckProducers(s, t);
        assert forall u :: 0 <= u < |s.threads| && s.threads[u].role.Consumer? ==> Ended(s.threads[u]);
      } else {
        StuckConsumers(s, t);
        assert forall u :: 0 <= u < |s.threads| && s.threads[u].role.Producer? ==> Ended(s.threads[u]);
      }
    }
  }

  /** 1 + ... + items, by the formula. */
  function ProducerDemand(t: Thread): nat { if t.role.Producer? then t.items * (t.items + 1) / 2 else 0 }

  lemma {:induction false} UpToByFormula(n: nat)
    ensures UpTo(n) == n * (n + 1) / 2
  {
    if n > 0 {
      UpToByFormula(n - 1);
      assert n * (n + 1) == (n - 1) * n + 2 * n;
    }
  }

  function ConsumerSum(t: Thread): nat { if t.role.Consumer? then t.sum else 0 }

  /** With supply and demand equal, the consumers' sums add up to 1 + ... + items over all producers:
      for one producer of 20 items, the 210 that the program expects. */
  lemma SumsAddUp(s: State)
    requires Inv(s) && AllEnded(s) && Total(s.threads, ToProduce) == Total(s.threads, ToConsume)
    ensures s.consumed == s.produced
    ensures Total(s.threads, ConsumerSum) == Total(s.threads, ProducerDemand)
  {
    EndedTotals(s);
    forall t | 0 <= t < |s.threads|
      ensures ValueProduced(s.threads[t]) == ProducerDemand(s.threads[t])
    {
      UpToByFormula(s.threads[t].items);
    }
    TotalSame(s.threads, s.threads, ValueProduced, ProducerDemand);
    TotalSame(s.threads, s.threads, ValueConsumed, ConsumerSum);
  }

  // ---------------------------------------------------------------- and in boundedly many steps

  function RoundsLeft(t: Thread): nat {
    var left := if t.done <= t.items then t.items - t.done else 0;
    match t.at
    case Waiting => 5 * left
    case Holding => if left == 0 then 0 else 5 * left - 1
    case Posting => if left == 0 then 0 else 5 * left - 2
  }

  function Measure(s: State): int {
    Total(s.threads, RoundsLeft) + 2 * |s.threads| - |s.empty.asleep| - |s.full.asleep|
  }

  lemma FewSleepers(a: set<nat>, n: nat)
    requires forall t :: t in a ==> t < n
    ensures |a| <= n
    decreases n
  {
    if n > 0 {
      FewSleepers(a - {n - 1}, n - 1);
    } else {
      assert a == {};
    }
  }

  /** The thread finds no token and goes to sleep. */
  predicate FallsAsleep(s: State, t: nat)
    requires t < |s.threads|
  {
    s.threads[t].at.Waiting? && (if s.threads[t].role.Producer? then s.empty.count else s.full.count) == 0
  }

  lemma OwnRankFalls(s: State, t: nat, wake: Option<nat>)
    requires Ledger(s) && InBounds(s.ring) && Enabled(s, Move(t, wake))
    ensures var s' := Step(s, Move(t, wake)); var x, x' := s.threads[t], s'.threads[t];
            && s'.threads == s.threads[t := x']
            && RoundsLeft(x') + (if FallsAsleep(s, t) then 0 else if x.at.Posting? then 3 else 1) <= RoundsLeft(x)
  {
    assert s.threads[t := s.threads[t]] == s.threads;
  }

  lemma SleepersCount(s: State, t: nat, wake: Option<nat>)
    requires InBounds(s.ring) && Enabled(s, Move(t, wake))
    ensures var s' := Step(s, Move(t, wake));
            |s'.empty.asleep| + |s'.full.asleep| + (if s.threads[t].at.Posting? then 1 else 0)
              >= |s.empty.asleep| + |s.full.asleep| + (if FallsAsleep(s, t) then 1 else 0)
  {
  }

  lemma MoveShrinks(s: State, t: nat, wake: Option<nat>)
    requires Ledger(s) && InBounds(s.ring) && Enabled(s, Move(t, wake))
    ensures Measure(Step(s, Move(t, wake))) < Measure(s)
  {
    OwnRankFalls(s, t, wake);
    SleepersCount(s, t, wake);
    Reweigh(s, t, Step(s, Move(t, wake)).threads[t], RoundsLeft);
  }

  /** Nobody changes what it has to do. */
  lemma StepKeepsDemand(s: State, a: Action)
    requires InBounds(s.ring) && Enabled(s, a)
    ensures Total(Step(s, a).threads, ToProduce) == Total(s.threads, ToProduce)
    ensures Total(Step(s, a).threads, ToConsume) == Total(s.threads, ToConsume)
    ensures |Step(s, a).ring.buffer| == |s.ring.buffer|
  {
    TotalSame(Step(s, a).threads, s.threads, ToProduce, ToProduce);
    TotalSame(Step(s, a).threads, s.threads, ToConsume, ToConsume);
  }

  lemma {:induction false} MovesAreBounded(s: State, actions: seq<Action>, s': State)
    requires Inv(s) && Leads(s, actions, s') && forall i :: 0 <= i < |actions| ==> actions[i].Move?
    ensures Inv(s') && 0 <= |actions| + Measure(s') <= Measure(s)
    ensures Total(s'.threads, ToProduce) == Total(s.threads, ToProduce)
    ensures Total(s'.threads, ToConsume) == Total(s.threads, ToConsume)
    ensures |s'.ring.buffer| == |s.ring.buffer| && Measure(s') >= 0
    decreases |actions|
  {
    if actions == [] {
      FewSleepers(s.empty.asleep, |s.threads|);
      FewSleepers(s.full.asleep, |s.threads|);
    } else {
      assert actions[0].Move?;
      MoveShrinks(s, actions[0].t, actions[0].wake);
      StepKeepsDemand(s, actions[0]);
      StepKeepsInv(s, actions[0]);
      MovesAreBounded(Step(s, actions[0]), actions[1..], s');
    }
  }

  /** The semaphore on which the thread waits for its next round. */
  function OwnSem(s: State, t: nat): Sem
    requires t < |s.threads|
  {
    if s.threads[t].role.Producer? then s.empty else s.full
  }

  /** A spurious wake-up of a sleeper that finds no token leaves everything as it was. */
  lemma SpuriousSleepsOn(s: State, t: nat)
    requires InBounds(s.ring) && Sleepers(s) && t < |s.threads| && Asleep(s, t) && OwnSem(s, t).count == 0
    ensures Leads(s, [Spurious(t), Move(t, None)], s)
  {
    var woken := Step(s, Spurious(t));
    WokenBySelf(s, t);
    Semaphores.WakeAndWait(OwnSem(s, t), t);
    assert Step(woken, Move(t, None)) == s;
    assert Leads(s, [], s);
    assert Leads(woken, [Move(t, None)], s);
  }

  lemma WokenBySelf(s: State, t: nat)
    requires InBounds(s.ring) && Sleepers(s) && t < |s.threads| && Asleep(s, t)
    ensures t in OwnSem(s, t).asleep && Semaphores.NoLostWakeUp(OwnSem(s, t)) && s.threads[t].at.Waiting?
    ensures Step(s, Spurious(t)) ==
              if s.threads[t].role.Producer? then s.(empty := Semaphores.WakeUp(s.empty, t))
              else s.(full := Semaphores.WakeUp(s.full, t))
    ensures Enabled(Step(s, Spurious(t)), Move(t, None))
  {
  }

  /** The program as a whole, for any producers, consumers, ring and schedule: without spurious
      wake-ups every schedule is bounded, and when it has gone on until nobody can move, everybody
      has finished exactly if the items wanted are at most the items made, and those at most as many
      more as the ring holds. */
  lemma {:induction false} ProgramFinishes(threads: seq<Thread>, buffer: seq<nat>, actions: seq<Action>, s: State)
    requires |buffer| > 0 && forall t :: 0 <= t < |threads| ==> AtStart(threads[t])
    requires Leads(Begun(threads, buffer), actions, s) && forall i :: 0 <= i < |actions| ==> actions[i].Move?
    ensures |actions| <= Measure(Begun(threads, buffer))
    ensures Stuck(s) ==>
              (AllEnded(s) <==>
               Total(threads, ToConsume) <= Total(threads, ToProduce) <= Total(threads, ToConsume) + |buffer|)
    ensures Stuck(s) && Total(threads, ToProduce) == Total(threads, ToConsume) ==>
              s.consumed == s.produced && Total(s.threads, ConsumerSum) == Total(s.threads, ProducerDemand)
  {
    BegunInv(threads, buffer);
    MovesAreBounded(Begun(threads, buffer), actions, s);
    if Stuck(s) {
      EveryoneEndsIff(s);
      if Total(threads, ToProduce) == Total(threads, ToConsume) {
        SumsAddUp(s);
      }
    }
  }

  // ---------------------------------------------------------------- the object

  /** The shared buffer and its two positions, updated in place under buffer_lock. */
  class SharedBuffer {
    const buffer: array<nat>
    var bufferIn: nat
    var bufferOut: nat

    ghost predicate Valid()
      reads this
    {
      bufferIn < buffer.Length && bufferOut < buffer.Length
    }

    ghost function View(): Ring
      reads this, buffer
    {
      Ring(buffer[..], bufferIn, bufferOut)
    }

    constructor (places: nat)
      requires places > 0
      ensures Valid() && fresh(buffer) && buffer.Length == places && bufferIn == bufferOut == 0
    {
      buffer := new nat[places];
      bufferIn, bufferOut := 0, 0;
    }

    method Insert(item: nat)
      requires Valid()
      modifies this`bufferIn, buffer
      ensures Valid() && View() == Put(old(View()), item)
    {
      buffer[bufferIn] := item;
      bufferIn := (bufferIn + 1) % buffer.Length;
    }

    method Remove() returns (item: nat)
      requires Valid()
      modifies this`bufferOut
      ensures Valid() && View() == Take(old(View())) && item == Taken(old(View()))
    {
      item := buffer[bufferOut];
      bufferOut := (bufferOut + 1) % buffer.Length;
    }
  }
}
