/** Lock hand-off: who holds which lock, in every reachable state of the transfer protocol. */
module LockHandOff {
  import opened Common
  import opened LockSpec
  import opened TransferProtocol

  // ----- at most one transfer thread per session -----

  predicate StateMatches(state: ThreadState, phase: Phase) {
    match phase
    case Spawned => state.Starting?
    case Ending => state.Completing? || state.Aborted?
    case _ => state.Running?
  }

  predicate Matches(boss: Session, me: Thread) {
    StateMatches(boss.threadState, me.phase) && (!me.phase.Ending? ==> boss.params == Some(me.params))
  }

  /**
   * A live thread is the only one of its session, the session's thread state tells its phase, and its parameters are
   * the session's.
   */
  ghost predicate Agree(sessions: seq<Session>, threads: map<nat, Thread>) {
    && (forall t | t in threads :: threads[t].owner < |sessions| && Matches(sessions[threads[t].owner], threads[t]))
    && (forall t, u | t in threads && u in threads && threads[t].owner == threads[u].owner :: t == u)
    && (forall i | 0 <= i < |sessions| && !sessions[i].threadState.Idle? ::
          exists t :: t in threads && threads[t].owner == i)
  }

  ghost predicate ThreadsAgree(s: State) { Agree(s.sessions, s.threads) }

  /** The thread and its session move together. */
  lemma AgreeMoved(sessions: seq<Session>, threads: map<nat, Thread>, t: nat, me: Thread, boss: Session)
    requires Agree(sessions, threads) && t in threads && me.owner == threads[t].owner
    requires Matches(boss, me)
    ensures Agree(sessions[me.owner := boss], threads[t := me])
  {
    var sessions', threads' := sessions[me.owner := boss], threads[t := me];
    forall i | 0 <= i < |sessions'| && !sessions'[i].threadState.Idle?
      ensures exists u :: u in threads' && threads'[u].owner == i
    {
      if i == me.owner { assert t in threads'; } else {
        var u :| u in threads && threads[u].owner == i;
        assert u in threads';
      }
    }
  }

  /** A thread ends and leaves its session idle. */
  lemma AgreeDropped(sessions: seq<Session>, threads: map<nat, Thread>, t: nat, boss: Session)
    requires Agree(sessions, threads) && t in threads && boss.threadState.Idle?
    ensures Agree(sessions[threads[t].owner := boss], threads - {t})
  {
    var sessions', threads' := sessions[threads[t].owner := boss], threads - {t};
    forall i | 0 <= i < |sessions'| && !sessions'[i].threadState.Idle?
      ensures exists u :: u in threads' && threads'[u].owner == i
    {
      var u :| u in threads && threads[u].owner == i;
      assert u in threads';
    }
  }

  /** An idle session gets a thread. */
  lemma AgreeAdded(sessions: seq<Session>, threads: map<nat, Thread>, t: nat, me: Thread, boss: Session)
    requires Agree(sessions, threads) && t !in threads && me.owner < |sessions| && sessions[me.owner].threadState.Idle?
    requires Matches(boss, me)
    ensures Agree(sessions[me.owner := boss], threads[t := me])
  {
    var sessions', threads' := sessions[me.owner := boss], threads[t := me];
    forall i | 0 <= i < |sessions'| && !sessions'[i].threadState.Idle?
      ensures exists u :: u in threads' && threads'[u].owner == i
    {
      if i == me.owner { assert t in threads'; } else {
        var u :| u in threads && threads[u].owner == i;
        assert u in threads';
      }
    }
  }

  /** The command thread works beside the transfer thread without touching its state or parameters. */
  lemma AgreeBeside(sessions: seq<Session>, threads: map<nat, Thread>, i: nat, boss: Session)
    requires Agree(sessions, threads) && i < |sessions|
    requires boss.threadState == sessions[i].threadState
    requires boss.params == sessions[i].params || boss.threadState.Idle?
    ensures Agree(sessions[i := boss], threads)
  {
  }

  lemma ThreadsAgreeKept(s: State, step: Step)
    requires ThreadsAgree(s) && Enabled(s, step)
    ensures ThreadsAgree(Next(s, step))
  {
    if step.HandOff? {
      AgreeAdded(s.sessions, s.threads, step.t, Next(s, step).threads[step.t], NextHandler(s, step));
    } else if OfHandler(step) {
      AgreeBeside(s.sessions, s.threads, step.i, NextHandler(s, step));
    } else if step.Exit? {
      AgreeDropped(s.sessions, s.threads, step.t, NextOwner(s, step));
    } else {
      ThreadStepMatches(s, step);
      AgreeMoved(s.sessions, s.threads, step.t, NextThread(s, step), NextOwner(s, step));
    }
  }

  lemma ThreadStepMatches(s: State, step: Step)
    requires ThreadsAgree(s) && Enabled(s, step) && !OfHandler(step) && !step.Exit?
    ensures NextThread(s, step).owner == s.threads[step.t].owner
            && NextThread(s, step).params == s.threads[step.t].params
    ensures Matches(NextOwner(s, step), NextThread(s, step))
  {
  }

  // ----- counting the holders of a lock -----

  lemma CountWithout(a: set<nat>, x: nat)
    ensures |a| == |a - {x}| + (if x in a then 1 else 0)
  {
    if x !in a { assert a - {x} == a; }
  }

  lemma HandlerMoved(sessions: seq<Session>, i: nat, x: Session, g: Grant)
    requires i < |sessions|
    ensures |HandlerHolders(sessions[i := x], g)|
            == |HandlerHolders(sessions, g)| - (if HandlerGrant(sessions[i].handler) == Some(g) then 1 else 0)
               + (if HandlerGrant(x.handler) == Some(g) then 1 else 0)
  {
    var before, after := HandlerHolders(sessions, g), HandlerHolders(sessions[i := x], g);
    CountWithout(before, i);
    CountWithout(after, i);
    assert before - {i} == after - {i};
  }

  lemma ThreadMoved(threads: map<nat, Thread>, t: nat, x: Thread, g: Grant)
    ensures |ThreadHolders(threads[t := x], g)|
            == |ThreadHolders(threads, g)| - (if t in threads && ThreadGrant(threads[t]) == Some(g) then 1 else 0)
               + (if ThreadGrant(x) == Some(g) then 1 else 0)
  {
    var before, after := ThreadHolders(threads, g), ThreadHolders(threads[t := x], g);
    CountWithout(before, t);
    CountWithout(after, t);
    assert before - {t} == after - {t} by {
      forall u ensures u in before - {t} <==> u in after - {t} {
        if u != t { assert u in threads[t := x] <==> u in threads; }
      }
    }
  }

  lemma ThreadDropped(threads: map<nat, Thread>, t: nat, g: Grant)
    requires t in threads
    ensures |ThreadHolders(threads - {t}, g)|
            == |ThreadHolders(threads, g)| - (if ThreadGrant(threads[t]) == Some(g) then 1 else 0)
  {
    var before, after := ThreadHolders(threads, g), ThreadHolders(threads - {t}, g);
    CountWithout(before, t);
    assert before - {t} == after;
  }

  // ----- the lock table agrees with its holders -----

  /** Each path's counters are the numbers of handler frames and live threads that hold it, and nobody waits. */
  ghost predicate LocksAgree(s: State) {
    && Sound(s.locks)
    && (forall p :: At(s.locks, p) == Counts(HolderCount(s, Grant(p, Shared)), HolderCount(s, Grant(p, Exclusive)), 0))
  }

  /** The lock a step takes, and the lock it gives back. */
  function Takes(s: State, step: Step): Option<Grant>
    requires Enabled(s, step)
  {
    match step
    case Acquire(i) => HandlerGrant(Holding(s.sessions[i].handler.req, Granted, None))
    case _ => None
  }

  function Gives(s: State, step: Step): Option<Grant>
    requires Enabled(s, step)
  {
    match step
    case ReleaseHeld(i) => HandlerGrant(s.sessions[i].handler)
    case ReleaseEarly(i) => HandlerGrant(s.sessions[i].handler)
    case Unlock(t) => ThreadGrant(s.threads[t])
    case _ => None
  }

  lemma HandlerStepCounts(s: State, step: Step, g: Grant)
    requires Enabled(s, step) && OfHandler(step)
    ensures HolderCount(Next(s, step), g)
            == HolderCount(s, g)
              + (if Takes(s, step) == Some(g) then 1 else 0) - (if Gives(s, step) == Some(g) then 1 else 0)
  {
    HandlerMoved(s.sessions, step.i, NextHandler(s, step), g);
    if step.HandOff? {
      var h := s.sessions[step.i].handler;
      ThreadMoved(s.threads, step.t, Thread(step.i, ParamsOf(h.req), h.seen, Spawned, NoProgress), g);
    }
  }

  /** A thread's step changes no handler's grant, and its own only by giving it back. */
  lemma ThreadStepGrants(s: State, step: Step)
    requires ThreadsAgree(s) && Enabled(s, step) && !OfHandler(step)
    ensures var i :=
      s.threads[step.t].owner; HandlerGrant(NextOwner(s, step).handler) == HandlerGrant(s.sessions[i].handler)
    ensures Takes(s, step).None? && (step.Exit? ==> ThreadGrant(s.threads[step.t]).None? && Gives(s, step).None?)
    ensures !step.Exit? ==>
              if Gives(s, step).Some? then
                Gives(s, step) == ThreadGrant(s.threads[step.t]) && ThreadGrant(NextThread(s, step)).None?
              else ThreadGrant(NextThread(s, step)) == ThreadGrant(s.threads[step.t])
  {
  }

  lemma ThreadStepCounts(s: State, step: Step, g: Grant)
    requires ThreadsAgree(s) && Enabled(s, step) && !OfHandler(step)
    ensures HolderCount(Next(s, step), g)
            == HolderCount(s, g)
              + (if Takes(s, step) == Some(g) then 1 else 0) - (if Gives(s, step) == Some(g) then 1 else 0)
  {
    ThreadStepGrants(s, step);
    hide NextOwner, NextThread, HandlerGrant, ThreadGrant, Takes, Gives, ThreadsAgree;
    HandlerMoved(s.sessions, s.threads[step.t].owner, NextOwner(s, step), g);
    if step.Exit? {
      ThreadDropped(s.threads, step.t, g);
    } else {
      ThreadMoved(s.threads, step.t, NextThread(s, step), g);
    }
  }

  /** A step changes the holder counts by exactly the lock it takes or gives back. */
  lemma StepCounts(s: State, step: Step, g: Grant)
    requires ThreadsAgree(s) && Enabled(s, step)
    ensures HolderCount(Next(s, step), g)
            == HolderCount(s, g)
              + (if Takes(s, step) == Some(g) then 1 else 0) - (if Gives(s, step) == Some(g) then 1 else 0)
  {
    if OfHandler(step) { HandlerStepCounts(s, step, g); } else { ThreadStepCounts(s, step, g); }
  }

  /** ... and so does the lock table. */
  lemma StepLocks(s: State, step: Step)
    requires Enabled(s, step)
    ensures NextLocks(s, step)
            == (match (Takes(s, step), Gives(s, step))
                case (Some(g), _) => TryAcquire(s.locks, g.path, g.mode)
                case (None, Some(g)) => Release(s.locks, g.path, g.mode)
                case (None, None) => s.locks)
    ensures Takes(s, step).Some? ==>
              Gives(s, step).None? && CanAcquire(s.locks, Takes(s, step).value.path, Takes(s, step).value.mode)
  {
  }

  /** Whoever gives a lock back holds it until then. */
  lemma GiverHolds(s: State, step: Step)
    requires Enabled(s, step) && Gives(s, step).Some?
    ensures HolderCount(s, Gives(s, step).value) > 0
  {
    var g := Gives(s, step).value;
    if step.Unlock? {
      assert step.t in ThreadHolders(s.threads, g);
    } else {
      assert step.i in HandlerHolders(s.sessions, g);
    }
  }

  lemma LocksAgreeKept(s: State, step: Step)
    requires ThreadsAgree(s) && LocksAgree(s) && Enabled(s, step)
    ensures LocksAgree(Next(s, step))
  {
    var s' := Next(s, step);
    var takes, gives := Takes(s, step), Gives(s, step);
    StepLocks(s, step);
    if gives.Some? { GiverHolds(s, step); SoundAfterRelease(s.locks, gives.value.path, gives.value.mode); }
    if takes.Some? { SoundAfterAcquire(s.locks, takes.value.path, takes.value.mode); }
    forall p
      ensures At(s'.locks, p) == Counts(HolderCount(s', Grant(p, Shared)), HolderCount(s', Grant(p, Exclusive)), 0)
    {
      StepCounts(s, step, Grant(p, Shared));
      StepCounts(s, step, Grant(p, Exclusive));
      if takes.Some? {
        var g := takes.value;
        PutAt(s.locks, g.path, LockSpec.Granted(At(s.locks, g.path), g.mode));
      } else if gives.Some? {
        var g := gives.value;
        PutAt(s.locks, g.path, Dropped(At(s.locks, g.path), g.mode));
      }
    }
  }
}
