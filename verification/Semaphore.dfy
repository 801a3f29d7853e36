/** The counting semaphore of src/sync.c: a count under a mutex, with a condition variable to sleep
    on. One critical section is one step. */
module Semaphores {
  import opened Collections

  type ThreadId = nat

  /** The count, the threads asleep in sync_sem_wait, and those that have been woken there and have
      yet to retake the mutex and recheck the count. */
  datatype Sem = Sem(count: nat, asleep: set<ThreadId>, woken: set<ThreadId>)

  /** sync_sem_wait from taking the mutex, newly called or woken, to releasing it: the thread takes a
      token if there is one, else it goes to sleep. */
  function Wait(s: Sem, t: ThreadId): Sem {
    if s.count == 0 then Sem(0, s.asleep + {t}, s.woken - {t})
    else Sem(s.count - 1, s.asleep, s.woken - {t})
  }

  /** sync_sem_trywait, which reports busy instead of sleeping. */
  function TryWait(s: Sem): Sem {
    if s.count == 0 then s else s.(count := s.count - 1)
  }

  /** Whom the signal of a post may wake: one sleeper if there is one. */
  predicate Signals(s: Sem, wake: Option<ThreadId>) {
    match wake
    case Some(t) => t in s.asleep
    case None => s.asleep == {}
  }

  function WakeUp(s: Sem, t: ThreadId): Sem {
    s.(asleep := s.asleep - {t}, woken := s.woken + {t})
  }

  /** sync_sem_post. The count is not capped by its initial value. */
  function Post(s: Sem, wake: Option<ThreadId>): Sem {
    var posted := s.(count := s.count + 1);
    if wake.Some? then WakeUp(posted, wake.value) else posted
  }

  /** No wake-up is lost: while anybody sleeps, every token has a woken thread to take it. */
  ghost predicate NoLostWakeUp(s: Sem) {
    && s.asleep !! s.woken
    && (s.asleep != {} ==> s.count <= |s.woken|)
  }

  // ---------------------------------------------------------------- any number of threads

  datatype Action =
    | DoWait(t: ThreadId)
    | DoTryWait
    | DoPost(wake: Option<ThreadId>)
    | Spurious(t: ThreadId)

  /** The semaphore with its history: tokens put in at the start and by posts, tokens taken out. */
  datatype State = State(sem: Sem, initial: nat, posts: nat, taken: nat)

  function Initial(value: nat): State {
    State(Sem(value, {}, {}), value, 0, 0)
  }

  predicate Enabled(s: State, a: Action) {
    match a
    case DoWait(t) => t !in s.sem.asleep
    case DoTryWait => true
    case DoPost(wake) => Signals(s.sem, wake)
    case Spurious(t) => t in s.sem.asleep
  }

  function Step(s: State, a: Action): State {
    var took := if s.sem.count == 0 then 0 else 1;
    match a
    case DoWait(t) => s.(sem := Wait(s.sem, t), taken := s.taken + took)
    case DoTryWait => s.(sem := TryWait(s.sem), taken := s.taken + took)
    case DoPost(wake) => s.(sem := Post(s.sem, wake), posts := s.posts + 1)
    case Spurious(t) => s.(sem := WakeUp(s.sem, t))
  }

  predicate Leads(s: State, actions: seq<Action>, s': State)
    decreases |actions|
  {
    if actions == [] then s == s'
    else Enabled(s, actions[0]) && Leads(Step(s, actions[0]), actions[1..], s')
  }

  lemma WaitKeepsWakeUps(s: Sem, t: ThreadId)
    requires NoLostWakeUp(s) && t !in s.asleep
    ensures NoLostWakeUp(Wait(s, t))
  {
    if t !in s.woken {
      assert s.woken - {t} == s.woken;
    }
  }

  lemma PostKeepsWakeUps(s: Sem, wake: Option<ThreadId>)
    requires NoLostWakeUp(s) && Signals(s, wake)
    ensures NoLostWakeUp(Post(s, wake))
  {
  }

  lemma WakeUpKeepsWakeUps(s: Sem, t: ThreadId)
    requires NoLostWakeUp(s) && t in s.asleep
    ensures NoLostWakeUp(WakeUp(s, t))
  {
  }

  lemma TryWaitKeepsWakeUps(s: Sem)
    requires NoLostWakeUp(s)
    ensures NoLostWakeUp(TryWait(s))
  {
  }

  lemma {:induction false} RunIsSound(s: State, actions: seq<Action>, s': State)
    requires NoLostWakeUp(s.sem) && s.sem.count + s.taken == s.initial + s.posts && Leads(s, actions, s')
    ensures NoLostWakeUp(s'.sem) && s'.sem.count + s'.taken == s'.initial + s'.posts
    ensures s'.initial == s.initial
    decreases |actions|
  {
    if actions != [] {
      match actions[0] {
        case DoWait(t) => WaitKeepsWakeUps(s.sem, t);
        case DoTryWait => TryWaitKeepsWakeUps(s.sem);
        case DoPost(wake) => PostKeepsWakeUps(s.sem, wake);
        case Spurious(t) => WakeUpKeepsWakeUps(s.sem, t);
      }
      RunIsSound(Step(s, actions[0]), actions[1..], s');
    }
  }

  /** Over every run, for any number of threads: the count is the initial value plus the posts minus
      the tokens taken, no more tokens are taken than were put in, and no wake-up is lost; so a
      thread that sleeps while tokens are there will see a woken one take the next token. */
  lemma TokensConserved(value: nat, actions: seq<Action>, s: State)
    requires Leads(Initial(value), actions, s)
    ensures s.sem.count == value + s.posts - s.taken && s.taken <= value + s.posts
    ensures s.sem.asleep != {} ==> s.sem.count <= |s.sem.woken|
    ensures s.sem.asleep != {} && s.sem.count > 0 ==>
              exists t :: t in s.sem.woken && Enabled(s, DoWait(t)) && Step(s, DoWait(t)).taken == s.taken + 1
  {
    RunIsSound(Initial(value), actions, s);
    if s.sem.asleep != {} && s.sem.count > 0 {
      var t :| t in s.sem.woken;
      assert Enabled(s, DoWait(t));
    }
  }

  lemma WakeAndWait(s: Sem, t: ThreadId)
    requires NoLostWakeUp(s) && t in s.asleep && s.count == 0
    ensures Wait(WakeUp(s, t), t) == s
  {
    assert s.asleep - {t} + {t} == s.asleep && s.woken + {t} - {t} == s.woken;
  }

  /** A sleeper may wake without a post; it finds no token and sleeps on, and all is as it was. */
  lemma SpuriousSleepsOn(s: State, t: ThreadId)
    requires NoLostWakeUp(s.sem) && t in s.sem.asleep && s.sem.count == 0
    ensures Leads(s, [Spurious(t), DoWait(t)], s)
  {
    var woken := Step(s, Spurious(t));
    WakeAndWait(s.sem, t);
    assert Leads(s, [], s);
    assert Leads(woken, [DoWait(t)], s);
  }

  // ---------------------------------------------------------------- the object

  /** sync_sem_t, with the sleepers of its condition variable. */
  class Semaphore {
    var count: nat
    var asleep: set<ThreadId>
    var woken: set<ThreadId>

    ghost function View(): Sem
      reads this
    {
      Sem(count, asleep, woken)
    }

    constructor (value: nat)
      ensures View() == Sem(value, {}, {})
    {
      count, asleep, woken := value, {}, {};
    }

    /** One turn of thread t in sync_sem_wait. */
    method TakeTurn(t: ThreadId) returns (acquired: bool)
      modifies this
      ensures View() == Wait(old(View()), t)
      ensures acquired <==> old(count) > 0
      ensures count == old(count) - (if acquired then 1 else 0)
      ensures !acquired ==> t in asleep
    {
      woken := woken - {t};
      if count == 0 {
        asleep := asleep + {t};
        return false;
      }
      count := count - 1;
      acquired := true;
    }

    method TryTake() returns (acquired: bool)
      modifies this`count
      ensures View() == TryWait(old(View()))
      ensures acquired <==> old(count) > 0
      ensures count == old(count) - (if acquired then 1 else 0)
    {
      if count == 0 {
        return false;
      }
      count := count - 1;
      acquired := true;
    }

    method Put(wake: Option<ThreadId>)
      requires Signals(View(), wake)
      modifies this
      ensures View() == Post(old(View()), wake) && count == old(count) + 1
      ensures old(asleep) != {} ==> exists t :: t in old(asleep) && t in woken && asleep == old(asleep) - {t}
    {
      count := count + 1;
      if wake.Some? {
        asleep := asleep - {wake.value};
        woken := woken + {wake.value};
      }
    }
  }
}
