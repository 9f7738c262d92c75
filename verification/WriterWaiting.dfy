/**
 * Writers blocked in file_lock_acquire_exclusive (server/src/filelock.c), over all interleavings with the other lock
 * operations.
 */
module WriterWaiting {
  import opened LockSpec

  type ThreadId = nat

  /**
   * `blocked` maps each waiting writer to its path; `signalled` are those that have left the condition wait and will
   * test their guard again.
   */
  datatype State = State(locks: LockMap, blocked: map<ThreadId, Path>, signalled: set<ThreadId>)

  datatype Step =
    | Try(path: Path, mode: Mode)
    | Unlock(path: Path, mode: Mode)
    | Arrive(t: ThreadId, path: Path)
    | SpuriousWakeup(t: ThreadId)
    | Retest(t: ThreadId)

  function Waiters(blocked: map<ThreadId, Path>, p: Path): set<ThreadId> {
    set t | t in blocked && blocked[t] == p
  }

  predicate Enabled(s: State, step: Step) {
    match step
    case Try(_, _) => true
    case Unlock(_, _) => true
    case Arrive(t, p) => t !in s.blocked && PathValid(p)
    case SpuriousWakeup(t) => t in s.blocked
    case Retest(t) => t in s.blocked && t in s.signalled && At(s.locks, s.blocked[t]).waiting > 0
  }

  function Next(s: State, step: Step): State
    requires Enabled(s, step)
  {
    match step
    case Try(p, mode) => s.(locks := TryAcquire(s.locks, p, mode))
    case Unlock(p, mode) =>
      // the broadcast reaches everybody who waits on the entry
      if p in s.locks then s.(locks := Release(s.locks, p, mode), signalled := s.signalled + Waiters(s.blocked, p))
      else s
    case Arrive(t, p) =>
      if Free(At(s.locks, p), Exclusive) then s.(locks := Promote(Enqueue(s.locks, p), p))
      else s.(locks := Enqueue(s.locks, p), blocked := s.blocked[t := p], signalled := s.signalled - {t})
    case SpuriousWakeup(t) => s.(signalled := s.signalled + {t})
    case Retest(t) =>
      var p := s.blocked[t];
      if Free(At(s.locks, p), Exclusive)
      then State(Promote(s.locks, p), s.blocked - {t}, s.signalled - {t})
      else s.(signalled := s.signalled - {t})
  }

  const START := State(map[], map[], {})

  ghost predicate Run(s: State, steps: seq<Step>, t: State)
    decreases |steps|
  {
    if steps == [] then s == t else Enabled(s, steps[0]) && Run(Next(s, steps[0]), steps[1..], t)
  }

  /** The entry counts its waiters, and whoever still sleeps has good reason to. */
  ghost predicate Inv(s: State) {
    && Sound(s.locks)
    && (forall p :: At(s.locks, p).waiting == |Waiters(s.blocked, p)|)
    && (forall t | t in s.blocked && t !in s.signalled :: !Free(At(s.locks, s.blocked[t]), Exclusive))
  }

  // ----- counting waiters -----

  lemma WaitersAdded(blocked: map<ThreadId, Path>, t: ThreadId, p: Path)
    requires t !in blocked
    ensures |Waiters(blocked[t := p], p)| == |Waiters(blocked, p)| + 1
    ensures forall q | q != p :: Waiters(blocked[t := p], q) == Waiters(blocked, q)
  {
    assert Waiters(blocked[t := p], p) == Waiters(blocked, p) + {t};
  }

  lemma WaitersRemoved(blocked: map<ThreadId, Path>, t: ThreadId)
    requires t in blocked
    ensures |Waiters(blocked - {t}, blocked[t])| == |Waiters(blocked, blocked[t])| - 1
    ensures forall q | q != blocked[t] :: Waiters(blocked - {t}, q) == Waiters(blocked, q)
  {
    assert Waiters(blocked, blocked[t]) == Waiters(blocked - {t}, blocked[t]) + {t};
  }

  lemma WaiterCounted(s: State, t: ThreadId)
    requires Inv(s) && t in s.blocked
    ensures At(s.locks, s.blocked[t]).waiting > 0 && s.blocked[t] in s.locks
  {
    assert t in Waiters(s.blocked, s.blocked[t]);
  }

  // ----- every step keeps the invariant -----

  lemma InvAfterTry(s: State, p: Path, mode: Mode)
    requires Inv(s)
    ensures Inv(Next(s, Try(p, mode)))
  {
    SoundAfterAcquire(s.locks, p, mode);
    PutAt(s.locks, p, Granted(At(s.locks, p), mode));
  }

  lemma InvAfterUnlock(s: State, p: Path, mode: Mode)
    requires Inv(s)
    ensures Inv(Next(s, Unlock(p, mode)))
  {
    if p in s.locks {
      SoundAfterRelease(s.locks, p, mode);
      PutAt(s.locks, p, Dropped(s.locks[p], mode));
    }
  }

  lemma InvAfterArrive(s: State, t: ThreadId, p: Path)
    requires Inv(s) && Enabled(s, Arrive(t, p))
    ensures Inv(Next(s, Arrive(t, p)))
  {
    var c, queued := At(s.locks, p), Enqueue(s.locks, p);
    SoundAfterWait(s.locks, p);
    PutAt(s.locks, p, c.(waiting := c.waiting + 1));
    if Free(c, Exclusive) {
      SoundAfterWait(queued, p);
      PutAt(queued, p, c.(writers := 1));
    } else {
      WaitersAdded(s.blocked, t, p);
    }
  }

  lemma InvAfterRetest(s: State, t: ThreadId)
    requires Inv(s) && Enabled(s, Retest(t))
    ensures Inv(Next(s, Retest(t)))
  {
    var p := s.blocked[t];
    var c := At(s.locks, p);
    if Free(c, Exclusive) {
      SoundAfterWait(s.locks, p);
      PutAt(s.locks, p, c.(waiting := c.waiting - 1, writers := 1));
      WaitersRemoved(s.blocked, t);
    }
  }

  lemma InvKept(s: State, step: Step)
    requires Inv(s) && Enabled(s, step)
    ensures Inv(Next(s, step))
  {
    match step
    case Try(p, mode) => InvAfterTry(s, p, mode);
    case Unlock(p, mode) => InvAfterUnlock(s, p, mode);
    case Arrive(t, p) => InvAfterArrive(s, t, p);
    case SpuriousWakeup(t) =>
    case Retest(t) => InvAfterRetest(s, t);
  }

  lemma {:induction false} InvReachable(s: State, steps: seq<Step>, t: State)
    requires Inv(s) && Run(s, steps, t)
    ensures Inv(t)
    decreases |steps|
  {
    if steps != [] {
      InvKept(s, steps[0]);
      InvReachable(Next(s, steps[0]), steps[1..], t);
    }
  }

  ghost predicate Reachable(s: State) {
    exists steps :: Run(START, steps, s)
  }

  lemma ReachableInv(s: State)
    requires Reachable(s)
    ensures Inv(s)
  {
    var steps :| Run(START, steps, s);
    assert forall p :: Waiters(START.blocked, p) == {};
    InvReachable(START, steps, s);
  }

  // ----- what the invariant is for -----

  /**
   * No wake-up is lost: in every reachable state a writer whose guard holds has been signalled, and its next test
   * grants it the lock.
   */
  lemma NoLostWakeup(s: State, t: ThreadId)
    requires Reachable(s) && t in s.blocked && Free(At(s.locks, s.blocked[t]), Exclusive)
    ensures Enabled(s, Retest(t))
    ensures t !in Next(s, Retest(t)).blocked
    ensures At(Next(s, Retest(t)).locks, s.blocked[t]).writers == 1
  {
    ReachableInv(s);
    WaiterCounted(s, t);
  }

  /** While a writer stays blocked its entry is never removed and no reader is let in beside it. */
  lemma BlockedEntryStays(s: State, step: Step, t: ThreadId)
    requires Reachable(s) && Enabled(s, step) && t in s.blocked && t in Next(s, step).blocked
    ensures Next(s, step).blocked[t] == s.blocked[t] && s.blocked[t] in s.locks && s.blocked[t] in Next(s, step).locks
    ensures At(Next(s, step).locks, s.blocked[t]).readers <= At(s.locks, s.blocked[t]).readers
  {
    ReachableInv(s);
    InvKept(s, step);
    WaiterCounted(s, t);
    WaiterCounted(Next(s, step), t);
    ReadersShutOut(s, step, t);
  }

  lemma ReadersShutOut(s: State, step: Step, t: ThreadId)
    requires t in s.blocked && At(s.locks, s.blocked[t]).waiting > 0 && Enabled(s, step)
    ensures At(Next(s, step).locks, s.blocked[t]).readers <= At(s.locks, s.blocked[t]).readers
  {
  }

  /**
   * A blocked writer's guard turns true only in a release of its path, and that release wakes every writer waiting
   * there.
   */
  lemma GuardOpensOnlyOnRelease(s: State, step: Step, t: ThreadId)
    requires Enabled(s, step) && t in s.blocked && t in Next(s, step).blocked
    requires !Free(At(s.locks, s.blocked[t]), Exclusive)
    requires Free(At(Next(s, step).locks, s.blocked[t]), Exclusive)
    ensures step.Unlock? && step.path == s.blocked[t]
    ensures Waiters(s.blocked, s.blocked[t]) <= Next(s, step).signalled
  {
  }
}
