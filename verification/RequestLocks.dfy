/** The table of reference-counted locks that serializes calls for one request id. */
module RequestLocks {

  type RequestId = int
  type ThreadId = int
  type LockId = nat

  datatype Entry = Entry(lock: LockId, users: int)

  /** A thread registers in the table, waits for the lock, runs its call, and leaves. */
  datatype Phase =
    | Idle
    | Waiting(id: RequestId, lock: LockId)
    | Inside(id: RequestId, lock: LockId)
    | Leaving(id: RequestId, lock: LockId)

  /** `nextLock` numbers new lock objects; `holder` maps each held lock to its thread. */
  datatype State = State(table: map<RequestId, Entry>, nextLock: LockId, holder: map<LockId, ThreadId>,
      threads: map<ThreadId, Phase>)

  // ---------------------------------------------------------------------------------
  // The two guarded sections
  // ---------------------------------------------------------------------------------

  function Registered(table: map<RequestId, Entry>, id: RequestId, unused: LockId): map<RequestId, Entry> {
    if id in table then table[id := Entry(table[id].lock, table[id].users + 1)] else table[id := Entry(unused, 1)]
  }

  predicate Corrupt(table: map<RequestId, Entry>, id: RequestId, lock: LockId) {
    id !in table || table[id].lock != lock || table[id].users < 1
  }

  function Unregistered(table: map<RequestId, Entry>, id: RequestId): map<RequestId, Entry>
    requires id in table
  {
    if table[id].users == 1 then table - {id} else table[id := Entry(table[id].lock, table[id].users - 1)]
  }

  class RequestIdSerializer {
    var locks: map<RequestId, Entry>
    var nextLock: LockId

    constructor ()
      ensures locks == map[] && nextLock == 0
    {
      locks, nextLock := map[], 0;
    }

    method Register(id: RequestId) returns (lock: LockId)
      modifies this
      ensures locks == Registered(old(locks), id, old(nextLock)) && id in locks && lock == locks[id].lock
      ensures nextLock == if id in old(locks) then old(nextLock) else old(nextLock) + 1
    {
      var users;
      if id !in locks {
        lock, users := nextLock, 0;
        nextLock := nextLock + 1;
      } else {
        lock, users := locks[id].lock, locks[id].users;
      }
      locks := locks[id := Entry(lock, users + 1)];
    }

    method Unregister(id: RequestId, lock: LockId) returns (corrupt: bool)
      modifies this`locks
      ensures corrupt == Corrupt(old(locks), id, lock)
      ensures locks == if corrupt then old(locks) else Unregistered(old(locks), id)
    {
      if id !in locks { return true; }
      var current := locks[id];
      if current.lock != lock || current.users < 1 { return true; }
      if current.users == 1 {
        locks := locks - {id};
      } else {
        locks := locks[id := Entry(lock, current.users - 1)];
      }
      corrupt := false;
    }
  }

  // ---------------------------------------------------------------------------------
  // Interleavings
  // ---------------------------------------------------------------------------------

  datatype Step =
    | Enter(thread: ThreadId, id: RequestId)
    | Acquire(thread: ThreadId)
    /** The wait for the lock is interrupted by an exception. */
    | Abandon(thread: ThreadId)
    | Release(thread: ThreadId)
    | Exit(thread: ThreadId)

  function PhaseOf(s: State, t: ThreadId): Phase {
    if t in s.threads then s.threads[t] else Idle
  }

  predicate CanStep(s: State, step: Step) {
    var phase := PhaseOf(s, step.thread);
    match step
    case Enter(_, _) => phase.Idle?
    case Acquire(_) => phase.Waiting? && phase.lock !in s.holder
    case Abandon(_) => phase.Waiting?
    case Release(_) => phase.Inside?
    case Exit(_) => phase.Leaving? && !Corrupt(s.table, phase.id, phase.lock)
  }

  function After(s: State, step: Step): State
    requires CanStep(s, step)
  {
    var t, phase := step.thread, PhaseOf(s, step.thread);
    match step
    case Enter(_, id) =>
      var table := Registered(s.table, id, s.nextLock);
      var next := if id in s.table then s.nextLock else s.nextLock + 1;
      State(table, next, s.holder, s.threads[t := Waiting(id, table[id].lock)])
    case Acquire(_) => s.(holder := s.holder[phase.lock := t], threads := s.threads[t := Inside(phase.id, phase.lock)])
    case Abandon(_) => s.(threads := s.threads[t := Leaving(phase.id, phase.lock)])
    case Release(_) => s.(holder := s.holder - {phase.lock}, threads := s.threads[t := Leaving(phase.id, phase.lock)])
    case Exit(_) => s.(table := Unregistered(s.table, phase.id), threads := s.threads - {t})
  }

  predicate InFlight(s: State, t: ThreadId, id: RequestId) {
    t in s.threads && !s.threads[t].Idle? && s.threads[t].id == id
  }

  function Users(s: State, id: RequestId): set<ThreadId> {
    set t | t in s.threads && InFlight(s, t, id)
  }

  /** An entry exists exactly while it has users, and counts them. */
  ghost predicate Counts(s: State, id: RequestId) {
    if id in s.table then s.table[id].users == |Users(s, id)| > 0 else Users(s, id) == {}
  }

  ghost predicate CountsUsers(s: State) {
    forall id :: Counts(s, id)
  }

  /** Entries have their own locks, and every thread in flight has its entry's lock. */
  ghost predicate OwnLocks(s: State) {
    && (forall id :: id in s.table ==> s.table[id].lock < s.nextLock)
    && (forall id, other :: id in s.table && other in s.table && id != other ==>
        s.table[id].lock != s.table[other].lock)
    && forall t :: t in s.threads && !s.threads[t].Idle? ==>
         s.threads[t].id in s.table && s.threads[t].lock == s.table[s.threads[t].id].lock
  }

  /** A lock is held exactly by the thread inside with it. */
  ghost predicate HeldInside(s: State) {
    && (forall t :: t in s.threads && s.threads[t].Inside? ==>
        s.threads[t].lock in s.holder && s.holder[s.threads[t].lock] == t)
    && forall l :: l in s.holder ==>
        s.holder[l] in s.threads && s.threads[s.holder[l]].Inside? && s.threads[s.holder[l]].lock == l
  }

  ghost predicate Invariant(s: State) {
    CountsUsers(s) && OwnLocks(s) && HeldInside(s)
  }

  /** Two threads are never inside calls for the same request id at once, each entry counts
      the threads in flight for its id, and an entry exists exactly while there are any. */
  lemma InvariantMeans(s: State, t: ThreadId, u: ThreadId, id: RequestId)
    requires Invariant(s)
    ensures PhaseOf(s, t).Inside? && PhaseOf(s, u).Inside? && PhaseOf(s, t).id == PhaseOf(s, u).id ==> t == u
    ensures id in s.table ==> s.table[id].users == |Users(s, id)| > 0
    ensures id !in s.table ==> !InFlight(s, t, id)
    ensures PhaseOf(s, t).Leaving? ==> !Corrupt(s.table, PhaseOf(s, t).id, PhaseOf(s, t).lock)
  {
    assert Counts(s, id);
    assert InFlight(s, t, id) ==> t in Users(s, id);
    if PhaseOf(s, t).Leaving? {
      assert Counts(s, PhaseOf(s, t).id);
      assert t in Users(s, PhaseOf(s, t).id);
    }
  }

  lemma UsersElsewhere(s: State, step: Step, id: RequestId)
    requires CanStep(s, step) && !InFlight(s, step.thread, id) && !InFlight(After(s, step), step.thread, id)
    ensures Users(After(s, step), id) == Users(s, id)
  {
    var next := After(s, step);
    forall t ensures t in Users(next, id) <==> t in Users(s, id) {
      if t != step.thread { assert InFlight(next, t, id) <==> InFlight(s, t, id); }
    }
  }

  lemma UsersSame(s: State, step: Step, id: RequestId)
    requires CanStep(s, step) && (InFlight(s, step.thread, id) <==> InFlight(After(s, step), step.thread, id))
    ensures Users(After(s, step), id) == Users(s, id)
  {
    var next := After(s, step);
    forall t ensures t in Users(next, id) <==> t in Users(s, id) {
      assert InFlight(next, t, id) <==> InFlight(s, t, id);
    }
  }

  lemma UsersEnter(s: State, step: Step)
    requires CanStep(s, step) && step.Enter?
    ensures Users(After(s, step), step.id) == Users(s, step.id) + {step.thread} && step.thread !in Users(s, step.id)
  {
    var next := After(s, step);
    forall t ensures t in Users(next, step.id) <==> t in Users(s, step.id) || t == step.thread {
      if t != step.thread { assert InFlight(next, t, step.id) <==> InFlight(s, t, step.id); }
    }
  }

  lemma UsersExit(s: State, step: Step)
    requires CanStep(s, step) && step.Exit?
    ensures var id := PhaseOf(s, step.thread).id;
      Users(After(s, step), id) == Users(s, id) - {step.thread} && step.thread in Users(s, id)
  {
    var next, id := After(s, step), PhaseOf(s, step.thread).id;
    forall t ensures t in Users(next, id) <==> t in Users(s, id) && t != step.thread {
      if t != step.thread { assert InFlight(next, t, id) <==> InFlight(s, t, id); }
    }
  }

  lemma EnterCounts(s: State, step: Step, id: RequestId)
    requires Counts(s, id) && CanStep(s, step) && step.Enter?
    ensures Counts(After(s, step), id)
  {
    if id == step.id {
      UsersEnter(s, step);
    } else {
      UsersElsewhere(s, step, id);
    }
  }

  lemma EnterOwnLocks(s: State, step: Step)
    requires Invariant(s) && CanStep(s, step) && step.Enter?
    ensures OwnLocks(After(s, step)) && HeldInside(After(s, step))
  {
    var next := After(s, step);
    assert forall t :: t in s.threads && t != step.thread ==> next.threads[t] == s.threads[t];
  }

  lemma InsideStepKeeps(s: State, step: Step)
    requires Invariant(s) && CanStep(s, step) && (step.Acquire? || step.Abandon? || step.Release?)
    ensures Invariant(After(s, step))
  {
    var next := After(s, step);
    forall id ensures Counts(next, id) {
      assert Counts(s, id);
      UsersSame(s, step, id);
    }
  }

  lemma ExitCounts(s: State, step: Step, id: RequestId)
    requires Counts(s, id) && CanStep(s, step) && step.Exit?
    ensures Counts(After(s, step), id)
  {
    if id == PhaseOf(s, step.thread).id {
      UsersExit(s, step);
    } else {
      UsersElsewhere(s, step, id);
    }
  }

  lemma ExitOwnLocks(s: State, step: Step)
    requires Invariant(s) && CanStep(s, step) && step.Exit?
    ensures OwnLocks(After(s, step)) && HeldInside(After(s, step))
  {
    var next := After(s, step);
    forall t | t in next.threads && !next.threads[t].Idle?
      ensures next.threads[t].id in next.table && next.threads[t].lock == next.table[next.threads[t].id].lock
    {
      assert t in Users(next, next.threads[t].id);
      assert Counts(s, next.threads[t].id);
      ExitCounts(s, step, next.threads[t].id);
    }
  }

  lemma StepKeepsInvariant(s: State, step: Step)
    requires Invariant(s) && CanStep(s, step)
    ensures Invariant(After(s, step))
  {
    match step
    case Enter(_, _) =>
      forall id ensures Counts(After(s, step), id) {
        assert Counts(s, id);
        EnterCounts(s, step, id);
      }
      EnterOwnLocks(s, step);
    case Exit(_) =>
      forall id ensures Counts(After(s, step), id) {
        assert Counts(s, id);
        ExitCounts(s, step, id);
      }
      ExitOwnLocks(s, step);
    case Acquire(_) => InsideStepKeeps(s, step);
    case Abandon(_) => InsideStepKeeps(s, step);
    case Release(_) => InsideStepKeeps(s, step);
  }

  // ---------------------------------------------------------------------------------
  // Whole runs
  // ---------------------------------------------------------------------------------

  const EMPTY := State(map[], 0, map[], map[])

  predicate Runs(s: State, steps: seq<Step>)
    decreases |steps|
  {
    steps != [] ==> CanStep(s, steps[0]) && Runs(After(s, steps[0]), steps[1..])
  }

  function Reached(s: State, steps: seq<Step>): State
    requires Runs(s, steps)
    decreases |steps|
  {
    if steps == [] then s else Reached(After(s, steps[0]), steps[1..])
  }

  lemma {:induction false} InvariantReached(s: State, steps: seq<Step>)
    requires Invariant(s) && Runs(s, steps)
    ensures Invariant(Reached(s, steps))
    decreases |steps|
  {
    if steps != [] {
      StepKeepsInvariant(s, steps[0]);
      InvariantReached(After(s, steps[0]), steps[1..]);
    }
  }

  /** In every interleaving: calls for one request id never overlap, entries count the threads
      in flight and vanish exactly when unused, and a leaving thread never finds the table
      corrupt, so it can always leave. */
  lemma SerializedInEveryRun(steps: seq<Step>, t: ThreadId, u: ThreadId, id: RequestId)
    requires Runs(EMPTY, steps)
    ensures var s := Reached(EMPTY, steps);
      && (PhaseOf(s, t).Inside? && PhaseOf(s, u).Inside? && PhaseOf(s, t).id == PhaseOf(s, u).id ==> t == u)
      && (id in s.table <==> Users(s, id) != {}) && (id in s.table ==> s.table[id].users == |Users(s, id)|)
      && (PhaseOf(s, t).Leaving? ==> CanStep(s, Exit(t)))
  {
    assert forall id :: Users(EMPTY, id) == {};
    InvariantReached(EMPTY, steps);
    InvariantMeans(Reached(EMPTY, steps), t, u, id);
  }
}
