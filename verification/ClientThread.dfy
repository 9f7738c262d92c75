/**
 * The thread that serves a client (client_thread in server/src/server.c, session_destroy in session.c). Every line is
 * answered once, the lock table is as it was but for the one grant of a live transfer; and the whole session is a run
 * of TransferProtocol, in which the other sessions may be in any state.
 */
module ClientThread {
  import opened Common
  import opened CommandWire
  import opened CommandTable
  import opened CommandHistory
  import opened LockSpec
  import opened LockTable
  import opened Handlers
  import opened HandlerRuns
  import opened TransferRuns
  import opened CommandLoop
  import P = TransferProtocol
  import PT = ProtocolTheorems
  import T = Transfer

  // ----- what a session holds and owes -----

  /** The live transfer's grant, if there is one, is all that the table holds beyond this. */
  predicate HoldsOnly(before: LockMap, w: World) {
    if w.own.thread.Idle? || w.own.params.None? then w.locks == before else Owns(before, w.locks, w.own.params.value)
  }

  /** Whatever the others held before, they hold still, and this session no more than its live transfer. */
  ghost predicate KeepsHolding(a: World, b: World) {
    forall before | Sound(before) && HoldsOnly(before, a) :: HoldsOnly(before, b)
  }

  /** Answers given, and the one that a live transfer owes. */
  function Settled(own: Own): nat { own.finals + if own.thread.Idle? then 0 else 1 }

  /** Between two commands no transfer is under way, or one has been started. */
  predicate Resting(w: World) {
    && (w.own.thread.Idle? || w.own.thread.Starting?) && (w.own.thread.Idle? <==> w.own.params.None?)
    && (w.own.params.Some? && w.own.params.value.lockAcquired ==> PathValid(w.own.params.value.path))
  }

  /** A command settles one more line. */
  lemma OutcomeSettles(req: P.Request, a: World, b: World, response: int)
    requires Outcome(req, a, b, response) && Resting(a)
    ensures Resting(b)
    ensures (a.own.quit ==> b.own.quit) && (a.own.sendFailed ==> b.own.sendFailed)
    ensures !b.own.sendFailed ==> Settled(b.own) == Settled(a.own) + 1
  {
    hide P.Validates, P.ValidatedFiles, P.EffectFiles, TryAcquire;
  }

  /** It adds to what is held only the grant of the transfer it starts. */
  lemma OutcomeKeepsHolding(req: P.Request, a: World, b: World, response: int)
    requires Outcome(req, a, b, response) && Resting(a)
    ensures KeepsHolding(a, b)
  {
    hide P.Validates, P.ValidatedFiles, P.EffectFiles, Sound;
  }

  /** A transfer that ends gives its grant back. */
  lemma EndHoldsOnly(before: LockMap, a: World, b: World)
    requires Sound(before) && HoldsOnly(before, a)
    requires a.own.params.Some? && !a.own.thread.Idle? && b.own.thread.Idle?
    requires b.locks == GivenUp(a.locks, a.own.params.value)
    ensures HoldsOnly(before, b)
  {
    var p := a.own.params.value;
    if !p.operation.SendList? { ReleaseUndoesAcquire(before, p.path, ModeFor(p.operation)); }
  }

  // ----- what the others see of it -----

  /** The other sessions and their threads have not moved. */
  ghost predicate OthersKept(s: P.State, i: nat, u: P.State) {
    && |u.sessions| == |s.sessions|
    && (forall j | 0 <= j < |s.sessions| && j != i :: u.sessions[j] == s.sessions[j])
    && (forall t | t in s.threads && s.threads[t].owner != i :: t in u.threads && u.threads[t] == s.threads[t])
  }

  lemma OthersKeptByStep(s: P.State, i: nat, t: Option<nat>, step: P.Step)
    requires P.Enabled(s, step) && OfSession(i, t, step)
    requires t.Some? && t.value in s.threads ==> s.threads[t.value].owner == i
    ensures OthersKept(s, i, P.Next(s, step))
    ensures t.Some? && t.value in P.Next(s, step).threads ==> P.Next(s, step).threads[t.value].owner == i
  {
  }

  lemma {:induction false} OthersKeptByRun(s: P.State, i: nat, t: Option<nat>, steps: seq<P.Step>, u: P.State)
    requires P.Run(s, steps, u) && forall step | step in steps :: OfSession(i, t, step)
    requires t.Some? && t.value in s.threads ==> s.threads[t.value].owner == i
    ensures OthersKept(s, i, u)
    decreases |steps|
  {
    if steps != [] {
      assert steps[0] in steps;
      OthersKeptByStep(s, i, t, steps[0]);
      OthersKeptByRun(P.Next(s, steps[0]), i, t, steps[1..], u);
    }
  }

  /** A run by which only this session moves. */
  ghost predicate Advances(s: P.State, i: nat, u: P.State) { exists steps :: P.Run(s, steps, u) && OthersKept(s, i, u) }

  lemma StaysPut(s: P.State, i: nat)
    ensures P.Leads(s, s) && Advances(s, i, s)
  {
    assert P.Run(s, [], s);
  }

  lemma AdvancesOn(s: P.State, i: nat, t: P.State, u: P.State)
    requires Advances(s, i, t) && Advances(t, i, u)
    ensures Advances(s, i, u)
  {
    P.LeadsOn(s, t, u);
  }

  lemma ReachesAdvances(s: P.State, i: nat, t: Option<nat>, u: P.State)
    requires Reaches(s, i, t, u) && (t.Some? && t.value in s.threads ==> s.threads[t.value].owner == i)
    ensures Advances(s, i, u)
  {
    ReachesLeads(s, i, t, u);
    var steps :| P.Run(s, steps, u) && forall step | step in steps :: OfSession(i, t, step);
    OthersKeptByRun(s, i, t, steps, u);
  }

  lemma DealsAdvances(s: P.State, i: nat, req: P.Request, u: P.State)
    requires DealsWith(s, i, req, u)
    ensures Advances(s, i, u)
  {
    DealsLeads(s, i, req, u);
    var received := P.Next(s, P.Receive(i, req));
    ReachesAdvances(received, i, None, u);
  }

  // ----- the end of a transfer -----

  /** Lets a live transfer run to its end, over a data connection on which anything may arrive. */
  method FinishTransfer(s: CommandThread, locks: FileLocks, fs: T.FileSystem, ghost state: P.State, ghost i: nat,
                        ghost lines: nat, ghost aborts: nat)
    returns (ghost now: P.State, ghost aborts': nat)
    requires s.Valid() && locks.Valid() && Resting(WorldOf(s, locks, fs))
    requires Mirrors(state, i, P.Waiting, WorldOf(s, locks, fs), lines, aborts)
    modifies s`threadState, s`params, s`shouldAbort, s`hasDataMode, s`finals, s`sendFailed, s`last, s`refused,
             locks, locks.Entries(), fs
    ensures s.Valid() && s.threadState.Idle? && locks.Valid() && fresh(locks.Entries() - old(locks.Entries()))
    ensures KeepsHolding(old(WorldOf(s, locks, fs)), WorldOf(s, locks, fs)) && (old(s.sendFailed) ==> s.sendFailed)
    ensures !s.shouldQuit && !s.sendFailed ==> Settled(s.Mine()) == Settled(old(s.Mine()))
    ensures Advances(state, i, now) && Mirrors(now, i, P.Waiting, WorldOf(s, locks, fs), lines, aborts')
  {
    hide FileLocks.Valid, Release, GivenUp, Moved, Mirrors, Advances, Transfers, Closes;
    now, aborts' := state, aborts;
    StaysPut(state, i);
    if s.threadState.Idle? { return; }
    ghost var a := WorldOf(s, locks, fs);
    var incoming: Bytes := *;
    var socketOpen, aborting: bool := *, *;
    var socket := new T.DataSocket(incoming);
    var result, late;
    ghost var course;
    result, late, course := s.RunTransfer(locks, fs, socket, socketOpen, aborting);
    ghost var b := WorldOf(s, locks, fs);
    forall before | Sound(before) && HoldsOnly(before, a) { EndHoldsOnly(before, a, b); }
    TransferIsARun(state, i, a, b, lines, aborts, course, late);
    aborts' := aborts + Aborts(course, late);
    TransferLeaves(state, i, P.Waiting, b, lines, aborts', course);
    now :| Advances(state, i, now) && Mirrors(now, i, P.Waiting, b, lines, aborts');
  }

  /** From s a run by which only this session moves leaves the world so. */
  ghost predicate Leaves(s: P.State, i: nat, h: P.Handler, b: World, lines: nat, aborts: nat) {
    exists u :: Advances(s, i, u) && Mirrors(u, i, h, b, lines, aborts)
  }

  lemma TransferLeaves(s: P.State, i: nat, h: P.Handler, b: World, lines: nat, aborts: nat, c: Course)
    requires Transfers(s, i, h, b, lines, aborts, c)
    ensures Leaves(s, i, h, b, lines, aborts)
  {
    hide Mirrors, Reaches;
    var t, v, u :| FoundBy(s, i, t, v, c) && v.files == b.files && Reaches(s, i, Some(t), v)
                   && Reaches(v, i, Some(t), u) && Mirrors(u, i, h, b, lines, aborts);
    ReachesOn(s, i, Some(t), v, u);
    ReachesAdvances(s, i, Some(t), u);
  }

  lemma CloseLeaves(s: P.State, i: nat, b: World, lines: nat, aborts: nat)
    requires Closes(s, i, None, b, lines, aborts)
    ensures Leaves(s, i, P.Closed, b, lines, aborts)
  {
    hide Mirrors, Reaches;
    var u :| Reaches(s, i, None, u) && Mirrors(u, i, P.Closed, b, lines, aborts);
    ReachesAdvances(s, i, None, u);
  }

  /**
   * session_destroy: waits for the live transfer, which is answered unless it fails for want of a connection, and
   * closes.
   */
  method Destroy(s: CommandThread, locks: FileLocks, fs: T.FileSystem, ghost state: P.State, ghost i: nat,
                 ghost lines: nat, ghost aborts: nat)
    returns (cutOff: bool, ghost now: P.State, ghost aborts': nat)
    requires s.Valid() && locks.Valid() && Resting(WorldOf(s, locks, fs))
    requires Mirrors(state, i, P.Waiting, WorldOf(s, locks, fs), lines, aborts)
    modifies s`threadState, s`params, s`shouldAbort, s`shouldQuit, s`hasDataMode, s`finals, s`sendFailed, s`last,
             s`refused, locks, locks.Entries(), fs
    ensures s.Valid() && s.shouldQuit && s.threadState.Idle? && locks.Valid()
            && fresh(locks.Entries() - old(locks.Entries()))
    ensures KeepsHolding(old(WorldOf(s, locks, fs)), WorldOf(s, locks, fs)) && (old(s.sendFailed) ==> s.sendFailed)
    ensures !s.sendFailed ==> s.finals + (if cutOff then 1 else 0) == Settled(old(s.Mine()))
    ensures cutOff ==> !old(s.threadState).Idle?
    ensures Advances(state, i, now) && Mirrors(now, i, P.Closed, WorldOf(s, locks, fs), lines, aborts')
  {
    hide FileLocks.Valid, Release, GivenUp, Moved, Mirrors, Advances, Transfers, Closes;
    cutOff, aborts' := false, aborts;
    ghost var a := WorldOf(s, locks, fs);
    s.shouldQuit := true;
    s.CloseDataConnection();
    if s.threadState.Idle? {
      CloseIsARun(state, i, None, a, lines, aborts);
      CloseLeaves(state, i, Quitting(a, true), lines, aborts);
      now :| Advances(state, i, now) && Mirrors(now, i, P.Closed, Quitting(a, true), lines, aborts);
      return;
    }
    var incoming: Bytes := *;
    var socketOpen, aborting: bool := *, *;
    var socket := new T.DataSocket(incoming);
    var result, late;
    ghost var course;
    result, late, course := s.RunTransfer(locks, fs, socket, socketOpen, aborting);
    cutOff := result.ConnError?;
    ghost var b := WorldOf(s, locks, fs);
    forall before | Sound(before) && HoldsOnly(before, a) { EndHoldsOnly(before, a, b); }
    LastTransferIsARun(state, i, a, b, lines, aborts, course, late);
    aborts' := aborts + Aborts(course, late);
    TransferLeaves(state, i, P.Closed, b, lines, aborts', course);
    now :| Advances(state, i, now) && Mirrors(now, i, P.Closed, b, lines, aborts');
  }

  // ----- the command loop -----

  /** One command line, as a step of the protocol's run. */
  method ServeLine(s: CommandThread, table: HandlerTable, locks: FileLocks, fs: T.FileSystem, dirs: set<Path>,
                   line: string, a: Answers, ghost state: P.State, ghost i: nat, ghost lines: nat, ghost aborts: nat)
    returns (event: Event, ghost now: P.State)
    requires s.Valid() && table.Valid() && table.Registered() == Registrations(STANDARD) && locks.Valid()
             && |a.time| <= 14
    requires s.threadState.Idle? || (Parsed(line).Some? ==> Parsed(line).value.name != "REIN")
    requires Resting(WorldOf(s, locks, fs)) && Mirrors(state, i, P.Waiting, WorldOf(s, locks, fs), lines, aborts)
    modifies s, locks, locks.Entries(), fs
    ensures s.Valid() && locks.Valid() && fresh(locks.Entries() - old(locks.Entries())) && Describes(line, event)
    ensures s.Remembered() == Step(old(s.Remembered()), event) && Possible(event)
    ensures s.shouldQuit ==> old(s.shouldQuit) || (event.Handled? && event.verb.QUIT?)
    ensures Resting(WorldOf(s, locks, fs)) && KeepsHolding(old(WorldOf(s, locks, fs)), WorldOf(s, locks, fs))
    ensures (old(s.sendFailed) ==> s.sendFailed) && (!s.sendFailed ==> Settled(s.Mine()) == Settled(old(s.Mine())) + 1)
    ensures DealsWith(state, i,
                      EventRequest(event, old(s.view), old(s.Remembered()), old(s.ascii), ArgumentIn(line)), now)
    ensures Mirrors(now, i, P.Waiting, WorldOf(s, locks, fs), lines + 1, aborts)
  {
    hide FileLocks.Valid, Registrations, Parsed, Outcome, RequestOf, Mirrors, DealsWith, KeepsHolding, Describes,
         Resting;
    ghost var was := WorldOf(s, locks, fs);
    ghost var view, pending, ascii := s.view, s.Remembered(), s.ascii;
    locks.ValidIsSound();
    var response;
    response, event := HandleLine(s, table, locks, fs, dirs, line, a);
    ghost var req := EventRequest(event, view, pending, ascii, ArgumentIn(line));
    OutcomeSettles(req, was, WorldOf(s, locks, fs), response);
    OutcomeKeepsHolding(req, was, WorldOf(s, locks, fs), response);
    CommandIsARun(state, i, req, was, WorldOf(s, locks, fs), response, lines, aborts);
    now :| DealsWith(state, i, req, now) && Mirrors(now, i, P.Waiting, WorldOf(s, locks, fs), lines + 1, aborts);
  }

  /** The live transfer may end before the next line is read; before a REIN it has to. */
  method ServeNext(s: CommandThread, table: HandlerTable, locks: FileLocks, fs: T.FileSystem, dirs: set<Path>,
                   line: string, a: Answers, ghost state: P.State, ghost i: nat, ghost lines: nat, ghost aborts: nat)
    returns (event: Event, ghost now: P.State, ghost aborts': nat)
    requires s.Valid() && table.Valid() && table.Registered() == Registrations(STANDARD) && locks.Valid()
             && |a.time| <= 14
    requires Resting(WorldOf(s, locks, fs)) && !s.shouldQuit
             && Mirrors(state, i, P.Waiting, WorldOf(s, locks, fs), lines, aborts)
    modifies s, locks, locks.Entries(), fs
    ensures s.Valid() && locks.Valid() && fresh(locks.Entries() - old(locks.Entries())) && Describes(line, event)
    ensures s.Remembered() == Step(old(s.Remembered()), event) && Possible(event)
    ensures s.shouldQuit ==> event.Handled? && event.verb.QUIT?
    ensures Resting(WorldOf(s, locks, fs)) && KeepsHolding(old(WorldOf(s, locks, fs)), WorldOf(s, locks, fs))
    ensures (old(s.sendFailed) ==> s.sendFailed) && (!s.sendFailed ==> Settled(s.Mine()) == Settled(old(s.Mine())) + 1)
    ensures Advances(state, i, now) && Mirrors(now, i, P.Waiting, WorldOf(s, locks, fs), lines + 1, aborts')
  {
    hide FileLocks.Valid, Registrations, Parsed, KeepsHolding, Describes, RequestOf, Mirrors, Advances, DealsWith;
    now, aborts' := state, aborts;
    StaysPut(state, i);
    ghost var was := WorldOf(s, locks, fs);
    HoldsOn(was, was, was);
    var ends: bool := *;
    if ends || (Parsed(line).Some? && Parsed(line).value.name == "REIN") {
      now, aborts' := FinishTransfer(s, locks, fs, state, i, lines, aborts);
    }
    ghost var ended, between := now, WorldOf(s, locks, fs);
    ghost var view, pending, ascii := s.view, s.Remembered(), s.ascii;
    event, now := ServeLine(s, table, locks, fs, dirs, line, a, ended, i, lines, aborts');
    DealsAdvances(ended, i, EventRequest(event, view, pending, ascii, ArgumentIn(line)), now);
    AdvancesOn(state, i, ended, now);
    HoldsOn(was, between, WorldOf(s, locks, fs));
  }

  lemma RestsAtFirst(w: World)
    requires w.own.thread.Idle? && w.own.params.None?
    ensures Resting(w) && After([]) == NOTHING_PENDING
  {
  }

  lemma HoldsOn(a: World, b: World, c: World)
    ensures KeepsHolding(a, a)
    ensures KeepsHolding(a, b) && KeepsHolding(b, c) ==> KeepsHolding(a, c)
  {
  }

  lemma IdleHoldsNothing(a: World, b: World)
    requires KeepsHolding(a, b) && Sound(a.locks) && a.own.thread.Idle? && b.own.thread.Idle?
    ensures b.locks == a.locks
  {
    assert HoldsOnly(a.locks, a);
  }

  /**
   * The command loop over any lines, transfers ending at any time in between, and the clean-up that waits for the last
   * one. In whatever state the other sessions are, all of it is a run of the protocol.
   */
  method Serve(s: CommandThread, table: HandlerTable, locks: FileLocks, fs: T.FileSystem, dirs: set<Path>,
               lines: seq<string>, answers: seq<Answers>, ghost state: P.State, ghost i: nat)
    returns (handled: nat, cutOff: bool, ghost history: seq<Event>, ghost now: P.State, ghost aborts: nat)
    requires s.Valid() && s.Remembered() == NOTHING_PENDING && s.Mine() == Own(P.Idle, None, false, false, 0, false)
    requires table.Valid() && table.Registered() == Registrations(STANDARD) && locks.Valid()
    requires |answers| == |lines| && forall k | 0 <= k < |lines| :: |answers[k].time| <= 14
    requires Mirrors(state, i, P.Waiting, WorldOf(s, locks, fs), 0, 0)
    modifies s, locks, locks.Entries(), fs
    ensures s.Valid() && locks.Valid() && s.threadState.Idle? && locks.locks == old(locks.locks)
    ensures |history| == handled <= |lines|
    ensures handled < |lines| ==> handled > 0 && history[handled - 1].Handled? && history[handled - 1].verb.QUIT?
    ensures forall k | 0 <= k < handled :: Describes(lines[k], history[k])
    ensures (forall e | e in history :: Possible(e)) && s.Remembered() == After(history)
    // every line is answered once; the last transfer may be left unanswered if its connection is closed under it
    ensures !s.sendFailed ==> s.finals + (if cutOff then 1 else 0) == handled
    ensures Advances(state, i, now) && Mirrors(now, i, P.Closed, WorldOf(s, locks, fs), handled, aborts)
    ensures PT.Reachable(state) ==> PT.Reachable(now)
  {
    hide FileLocks.Valid, HandlerTable.Valid, Registrations, Parsed, KeepsHolding, Describes, RequestOf, Mirrors;
    hide Advances, PT.Reachable, Step, Possible, After, Resting;
    locks.ValidIsSound();
    ghost var was := WorldOf(s, locks, fs);
    RestsAtFirst(was);
    HoldsOn(was, was, was);
    handled, history, now, aborts := 0, [], state, 0;
    StaysPut(state, i);
    while handled < |lines| && !s.shouldQuit
      invariant s.Valid() && locks.Valid() && fresh(locks.Entries() - old(locks.Entries()))
      invariant Resting(WorldOf(s, locks, fs)) && KeepsHolding(was, WorldOf(s, locks, fs))
      invariant |history| == handled <= |lines| && (forall e | e in history :: Possible(e))
                && s.Remembered() == After(history)
      invariant forall k | 0 <= k < handled :: Describes(lines[k], history[k])
      invariant s.shouldQuit ==> handled > 0 && history[handled - 1].Handled? && history[handled - 1].verb.QUIT?
      invariant !s.sendFailed ==> Settled(s.Mine()) == handled
      invariant Advances(state, i, now) && Mirrors(now, i, P.Waiting, WorldOf(s, locks, fs), handled, aborts)
      decreases |lines| - handled
    {
      var event;
      ghost var next, between := now, WorldOf(s, locks, fs);
      event, next, aborts :=
        ServeNext(s, table, locks, fs, dirs, lines[handled], answers[handled], now, i, handled, aborts);
      AdvancesOn(state, i, now, next);
      HoldsOn(was, between, WorldOf(s, locks, fs));
      now := next;
      AfterSnoc(history, event);
      history := history + [event];
      handled := handled + 1;
    }
    ghost var last, between := now, WorldOf(s, locks, fs);
    cutOff, last, aborts := Destroy(s, locks, fs, now, i, handled, aborts);
    AdvancesOn(state, i, now, last);
    now := last;
    HoldsOn(was, between, WorldOf(s, locks, fs));
    IdleHoldsNothing(was, WorldOf(s, locks, fs));
    AdvancesReachable(state, i, now);
  }

  lemma AdvancesReachable(s: P.State, i: nat, u: P.State)
    requires Advances(s, i, u)
    ensures PT.Reachable(s) ==> PT.Reachable(u)
  {
    if PT.Reachable(s) { PT.ReachableOn(s, u); }
  }
}
