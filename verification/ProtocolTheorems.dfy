/** Reply conservation: every command line gets exactly one final reply. */
module ReplyLaw {
  import opened TransferProtocol
  import opened LockHandOff

  /** A reply the command thread still owes. */
  function OwedByHandler(h: Handler): nat {
    if h.Started? || h.Holding? then 1 else 0
  }

  predicate OwesReply(me: Thread, i: nat) {
    me.owner == i && !me.phase.Announced? && !me.phase.Unlocked? && !me.phase.Ending?
  }

  /** The live threads of a session that have not yet replied. */
  function OwedByThreads(threads: map<nat, Thread>, i: nat): set<nat> {
    set t | t in threads && OwesReply(threads[t], i)
  }

  /**
   * While its replies can be sent and it is not quitting, a session owes one final reply per unanswered command line.
   */
  ghost predicate Balanced(x: Session, owedByThreads: nat) {
    !x.shouldQuit && x.sendsOk ==> x.handled == x.finals + OwedByHandler(x.handler) + owedByThreads
  }

  ghost predicate RepliesAgree(s: State) {
    forall i | 0 <= i < |s.sessions| :: Balanced(s.sessions[i], |OwedByThreads(s.threads, i)|)
  }

  lemma OwedMoved(threads: map<nat, Thread>, t: nat, x: Thread, i: nat)
    ensures |OwedByThreads(threads[t := x], i)|
            == |OwedByThreads(threads, i)| - (if t in threads && OwesReply(threads[t], i) then 1 else 0)
               + (if OwesReply(x, i) then 1 else 0)
  {
    var before, after := OwedByThreads(threads, i), OwedByThreads(threads[t := x], i);
    CountWithout(before, t);
    CountWithout(after, t);
    assert before - {t} == after - {t} by {
      forall u ensures u in before - {t} <==> u in after - {t} {
        if u != t { assert u in threads[t := x] <==> u in threads; }
      }
    }
  }

  lemma OwedDropped(threads: map<nat, Thread>, t: nat, i: nat)
    requires t in threads
    ensures |OwedByThreads(threads - {t}, i)|
            == |OwedByThreads(threads, i)| - (if OwesReply(threads[t], i) then 1 else 0)
  {
    var before, after := OwedByThreads(threads, i), OwedByThreads(threads - {t}, i);
    CountWithout(before, t);
    assert before - {t} == after;
  }

  lemma HandlerStepBalanced(s: State, step: Step)
    requires RepliesAgree(s) && Enabled(s, step) && OfHandler(step)
    ensures RepliesAgree(Next(s, step))
  {
    var s' := Next(s, step);
    forall i | 0 <= i < |s'.sessions| ensures Balanced(s'.sessions[i], |OwedByThreads(s'.threads, i)|) {
      assert Balanced(s.sessions[i], |OwedByThreads(s.threads, i)|);
      if step.HandOff? {
        OwedMoved(s.threads, step.t, s'.threads[step.t], i);
      }
    }
  }

  lemma ThreadStepBalanced(s: State, step: Step)
    requires ThreadsAgree(s) && RepliesAgree(s) && Enabled(s, step) && !OfHandler(step)
    ensures RepliesAgree(Next(s, step))
  {
    var s' := Next(s, step);
    var me := s.threads[step.t];
    forall i | 0 <= i < |s'.sessions| ensures Balanced(s'.sessions[i], |OwedByThreads(s'.threads, i)|) {
      assert Balanced(s.sessions[i], |OwedByThreads(s.threads, i)|);
      if step.Exit? {
        OwedDropped(s.threads, step.t, i);
      } else {
        assert NextThread(s, step).owner == me.owner;
        OwedMoved(s.threads, step.t, NextThread(s, step), i);
      }
    }
  }
}

/** The main results about the transfer protocol, for every run from a fresh server. */
module ProtocolTheorems {
  import opened Common
  import opened LockSpec
  import opened FileStore
  import opened TransferProtocol
  import opened LockHandOff
  import opened Isolation
  import opened ReplyLaw

  /** What every run keeps. */
  ghost predicate Inv(s: State) {
    ThreadsAgree(s) && LocksAgree(s) && RepliesAgree(s) && ShapesOk(s)
  }

  lemma InitInv(s: State)
    requires Init(s)
    ensures Inv(s)
  {
    forall p
      ensures At(s.locks, p) == Counts(HolderCount(s, Grant(p, Shared)), HolderCount(s, Grant(p, Exclusive)), 0)
    {
      forall m: Mode ensures HolderCount(s, Grant(p, m)) == 0 {
        assert HandlerHolders(s.sessions, Grant(p, m)) == {} && ThreadHolders(s.threads, Grant(p, m)) == {};
      }
    }
    forall i | 0 <= i < |s.sessions| ensures Balanced(s.sessions[i], |OwedByThreads(s.threads, i)|) {
      assert OwedByThreads(s.threads, i) == {};
    }
  }

  lemma InvKept(s: State, step: Step)
    requires Inv(s) && Enabled(s, step)
    ensures Inv(Next(s, step))
  {
    ThreadsAgreeKept(s, step);
    LocksAgreeKept(s, step);
    ShapesKept(s, step);
    if OfHandler(step) { HandlerStepBalanced(s, step); } else { ThreadStepBalanced(s, step); }
  }

  lemma {:induction false} InvReachable(s: State, steps: seq<Step>, t: State)
    requires Inv(s) && Run(s, steps, t)
    ensures Inv(t)
    decreases |steps|
  {
    if steps != [] {
      InvKept(s, steps[0]);
      InvReachable(Next(s, steps[0]), steps[1..], t);
    }
  }

  /** The states the server can get into. */
  ghost predicate Reachable(s: State) {
    exists init, steps :: Init(init) && Run(init, steps, s)
  }

  lemma ReachableOn(s: State, t: State)
    requires Reachable(s) && Leads(s, t)
    ensures Reachable(t)
  {
    var init, first :| Init(init) && Run(init, first, s);
    var second :| Run(s, second, t);
    RunJoin(init, first, s, second, t);
  }

  lemma ReachableInv(s: State)
    requires Reachable(s)
    ensures Inv(s)
  {
    var init, steps :| Init(init) && Run(init, steps, s);
    InitInv(init);
    InvReachable(init, steps, s);
  }

  // ----- locks -----

  /**
   * In every reachable state a path's readers and writers are exactly the command threads and live transfer threads
   * holding it.
   */
  lemma LocksMatchHolders(s: State, p: Path)
    requires Reachable(s)
    ensures At(s.locks, p) == Counts(HolderCount(s, Grant(p, Shared)), HolderCount(s, Grant(p, Exclusive)), 0)
    ensures HolderCount(s, Grant(p, Exclusive)) <= 1
    ensures HolderCount(s, Grant(p, Exclusive)) == 1 ==> HolderCount(s, Grant(p, Shared)) == 0
    ensures p in s.locks <==> HolderCount(s, Grant(p, Shared)) + HolderCount(s, Grant(p, Exclusive)) > 0
  {
    ReachableInv(s);
    assert At(s.locks, p) == Counts(HolderCount(s, Grant(p, Shared)), HolderCount(s, Grant(p, Exclusive)), 0);
  }

  /** When all is quiet no lock is left behind, whichever exits were taken. */
  lemma QuietServerHoldsNothing(s: State)
    requires Reachable(s)
    requires s.threads == map[]
    requires forall i | 0 <= i < |s.sessions| :: s.sessions[i].handler.Waiting? || s.sessions[i].handler.Closed?
    ensures s.locks == map[]
  {
    forall p ensures p !in s.locks {
      LocksMatchHolders(s, p);
      forall m: Mode ensures HolderCount(s, Grant(p, m)) == 0 {
        assert HandlerHolders(s.sessions, Grant(p, m)) == {} && ThreadHolders(s.threads, Grant(p, m)) == {};
      }
    }
    assert s.locks.Keys == {};
  }

  /** A release in a run is never unmatched: its path is counted in that mode, and the count goes down by one. */
  lemma ReleasesAreMatched(s: State, step: Step)
    requires Reachable(s) && Enabled(s, step) && Gives(s, step).Some?
    ensures var g := Gives(s, step).value;
      && (g.mode.Shared? ==> At(s.locks, g.path).readers > 0
                             && At(Next(s, step).locks, g.path).readers == At(s.locks, g.path).readers - 1)
      && (g.mode.Exclusive? ==> At(s.locks, g.path).writers == 1 && At(Next(s, step).locks, g.path).writers == 0)
  {
    var g := Gives(s, step).value;
    LocksMatchHolders(s, g.path);
    GiverHolds(s, step);
    StepLocks(s, step);
    PutAt(s.locks, g.path, Dropped(At(s.locks, g.path), g.mode));
  }

  /** How often a run takes a lock, and how often it gives it back. */
  ghost function TakenIn(s: State, steps: seq<Step>, g: Grant): nat
    decreases |steps|
  {
    if steps == [] || !Enabled(s, steps[0]) then 0
    else (if Takes(s, steps[0]) == Some(g) then 1 else 0) + TakenIn(Next(s, steps[0]), steps[1..], g)
  }

  ghost function GivenIn(s: State, steps: seq<Step>, g: Grant): nat
    decreases |steps|
  {
    if steps == [] || !Enabled(s, steps[0]) then 0
    else (if Gives(s, steps[0]) == Some(g) then 1 else 0) + GivenIn(Next(s, steps[0]), steps[1..], g)
  }

  /** Every grant is given back exactly once, in the mode in which it was taken, or is still held. */
  lemma {:induction false} GrantsConserved(s: State, steps: seq<Step>, t: State, g: Grant)
    requires Inv(s) && Run(s, steps, t)
    ensures HolderCount(s, g) + TakenIn(s, steps, g) == GivenIn(s, steps, g) + HolderCount(t, g)
    decreases |steps|
  {
    if steps != [] {
      StepCounts(s, steps[0], g);
      InvKept(s, steps[0]);
      GrantsConserved(Next(s, steps[0]), steps[1..], t, g);
    }
  }

  lemma InitHoldsNothing(init: State, g: Grant)
    requires Init(init)
    ensures HolderCount(init, g) == 0
  {
    assert HandlerHolders(init.sessions, g) == {} && ThreadHolders(init.threads, g) == {};
  }

  lemma TakenIsGivenOrHeld(init: State, steps: seq<Step>, s: State, g: Grant)
    requires Init(init) && Run(init, steps, s)
    ensures TakenIn(init, steps, g) == GivenIn(init, steps, g) + HolderCount(s, g)
  {
    InitInv(init);
    GrantsConserved(init, steps, s, g);
    InitHoldsNothing(init, g);
  }

  /** A session has at most one live transfer thread, and its thread state is idle exactly when it has none. */
  lemma OneThreadPerSession(s: State, i: nat)
    requires Reachable(s) && i < |s.sessions|
    ensures forall t, u | t in s.threads && u in s.threads && s.threads[t].owner == i == s.threads[u].owner :: t == u
    ensures s.sessions[i].threadState.Idle? <==> forall t | t in s.threads :: s.threads[t].owner != i
  {
    ReachableInv(s);
  }

  // ----- replies -----

  /**
   * Final replies sent, plus the one the command thread owes, plus the one a live transfer thread owes, make the
   * command lines handled.
   */
  lemma RepliesConserved(s: State, i: nat)
    requires Reachable(s) && i < |s.sessions|
    requires !s.sessions[i].shouldQuit && s.sessions[i].sendsOk
    ensures s.sessions[i].handled
            == s.sessions[i].finals + OwedByHandler(s.sessions[i].handler) + |OwedByThreads(s.threads, i)|
    ensures |OwedByThreads(s.threads, i)| <= 1
    ensures s.sessions[i].handler.Waiting? && s.sessions[i].threadState.Idle? ==>
              s.sessions[i].handled == s.sessions[i].finals
  {
    ReachableInv(s);
    assert Balanced(s.sessions[i], |OwedByThreads(s.threads, i)|);
    AtMostOneOwes(s, i);
  }

  lemma AtMostOneOwes(s: State, i: nat)
    requires ThreadsAgree(s) && i < |s.sessions|
    ensures |OwedByThreads(s.threads, i)| <= (if s.sessions[i].threadState.Idle? then 0 else 1)
  {
    var owed := OwedByThreads(s.threads, i);
    if owed != {} {
      var t :| t in owed;
      assert owed == {t};
    }
  }

  // ----- files -----

  /**
   * The hand-off of a transfer: a fresh upload starts from no file, an append at the end of the file, the others within
   * it.
   */
  lemma HandOffPassesTheFile(s: State, i: nat, t: nat)
    requires Reachable(s) && Enabled(s, HandOff(i, t)) && !s.sessions[i].handler.req.op.List?
    ensures var h, me := s.sessions[i].handler, Next(s, HandOff(i, t)).threads[t];
      && me.base == h.seen && me.params.path == h.req.path && me.params.offset == h.req.offset
      && (h.req.op.Stor? && h.req.offset == 0 ==> me.base.None?)
      && (h.req.op.Appe? ==> me.params.offset == |OrEmpty(me.base)|)
      && me.params.offset <= |OrEmpty(me.base)|
  {
    ReachableInv(s);
    assert HandlerShape(s.sessions[i].handler);
  }

  lemma ParamsKept(s: State, step: Step)
    requires ThreadsAgree(s) && Enabled(s, step) && !OfHandler(step) && !step.Exit?
    ensures NextThread(s, step).base == s.threads[step.t].base && NextThread(s, step).params == s.threads[step.t].params
  {
    ThreadStepMatches(s, step);
  }

  /** ... and the thread never changes it. */
  lemma BaseIsConstant(s: State, step: Step, t: nat)
    requires Inv(s) && Enabled(s, step) && t in s.threads && t in Next(s, step).threads
    ensures Next(s, step).threads[t].base == s.threads[t].base && Next(s, step).threads[t].params == s.threads[t].params
  {
    if !OfHandler(step) && !step.Exit? { ParamsKept(s, step); }
  }

  // ----- one transfer, from the grant of its lock to its end -----

  /** The commands that move a file. */
  predicate MovesFile(req: Request) { req.op.Retr? || req.op.Stor? || req.op.Appe? }

  /** What the command hands to its thread, given the file it found when the lock was granted. */
  function HandedRequest(req: Request, file: Option<Bytes>): Request {
    if req.op.Appe? then req.(offset := |OrEmpty(file)|) else req
  }

  function HandedFile(req: Request, file: Option<Bytes>): Option<Bytes> {
    if req.op.Stor? && req.offset == 0 then None else file
  }

  /** The holder is still busy with this command, granted when the file was `file`. */
  ghost predicate Serves(s: State, h: Holder, req: Request, file: Option<Bytes>) {
    && Present(s, h) && MovesFile(req) &&
    match h
    case ByHandler(i) =>
      var k := s.sessions[i].handler;
      k.Holding? && if k.stage.Granted? then k.req == req && k.seen == file
                    else k.stage.Checked? && k.req == HandedRequest(req, file) && k.seen == HandedFile(req, file)
    case ByThread(t) =>
      s.threads[t].params == ParamsOf(HandedRequest(req, file)) && s.threads[t].base == HandedFile(req, file)
  }

  lemma ServesKept(s: State, step: Step, h: Holder, req: Request, file: Option<Bytes>)
    requires Inv(s) && Enabled(s, step) && Serves(s, h, req, file) && HolderOk(s, h) && Follow(h, step).Some?
    ensures Serves(Next(s, step), Follow(h, step).value, req, file)
  {
    hide Inv;
    FollowIsPresent(s, step, h);
    if h.ByThread? { BaseIsConstant(s, step, h.t); }
  }

  /** Where the lock is after the steps. */
  function Followed(h: Holder, steps: seq<Step>): Option<Holder>
    decreases |steps|
  {
    if steps == [] then Some(h)
    else if Follow(h, steps[0]).None? then None
    else Followed(Follow(h, steps[0]).value, steps[1..])
  }

  /** No step of the run is harmful to the holder of this lock. */
  ghost predicate HarmlessRun(s: State, h: Holder, steps: seq<Step>)
    decreases |steps|
  {
    steps == [] || (Enabled(s, steps[0]) && Present(s, h) && Harmless(s, steps[0], h)
                    && (Follow(h, steps[0]).Some? ==>
                          HarmlessRun(Next(s, steps[0]), Follow(h, steps[0]).value, steps[1..])))
  }

  /** No rename of the run lands on the file. */
  ghost predicate NothingLands(s: State, steps: seq<Step>, p: Path)
    decreases |steps|
  {
    steps == [] || (Enabled(s, steps[0]) && !Lands(s, steps[0], p) && NothingLands(Next(s, steps[0]), steps[1..], p))
  }

  /** Only renames that land on the transferred file while it is held matter: without any, a run is harmless. */
  lemma {:induction false} OnlyLandingsMatter(s: State, h: Holder, steps: seq<Step>, req: Request, file: Option<Bytes>)
    requires Inv(s) && Serves(s, h, req, file) && HolderOk(s, h) && NothingLands(s, steps, req.path)
    ensures HarmlessRun(s, h, steps)
    decreases |steps|
  {
    if steps != [] {
      assert HolderGrant(s, h).Some? ==> HolderGrant(s, h).value.path == req.path;
      if Follow(h, steps[0]).Some? {
        InvKept(s, steps[0]);
        ServesKept(s, steps[0], h, req, file);
        HolderOkIff(s, steps[0], h);
        OnlyLandingsMatter(Next(s, steps[0]), Follow(h, steps[0]).value, steps[1..], req, file);
      }
    }
  }

  /**
   * Over a harmless run the command keeps what it was granted, up to its thread, and its holder can always rely on the
   * file.
   */
  lemma {:induction false} ServedThroughout(s: State, h: Holder, steps: seq<Step>, u: State, req: Request,
                                            file: Option<Bytes>)
    requires Inv(s) && Run(s, steps, u) && Serves(s, h, req, file) && HolderOk(s, h)
    requires HarmlessRun(s, h, steps) && Followed(h, steps).Some?
    ensures Inv(u) && Serves(u, Followed(h, steps).value, req, file) && HolderOk(u, Followed(h, steps).value)
    decreases |steps|
  {
    if steps != [] {
      InvKept(s, steps[0]);
      ServesKept(s, steps[0], h, req, file);
      HolderOkIff(s, steps[0], h);
      ServedThroughout(Next(s, steps[0]), Follow(h, steps[0]).value, steps[1..], u, req, file);
    }
  }

  /**
   * The run from the moment session i is granted the lock its command asks for, to a state where thread t serves that
   * command.
   */
  ghost predicate TransferRun(s: State, i: nat, steps: seq<Step>, u: State, t: nat) {
    && Enabled(s, Acquire(i)) && MovesFile(s.sessions[i].handler.req)
    && Run(Next(s, Acquire(i)), steps, u) && Followed(ByHandler(i), steps) == Some(ByThread(t)) && t in u.threads
  }

  lemma GrantServes(s: State, i: nat)
    requires Reachable(s) && Enabled(s, Acquire(i)) && MovesFile(s.sessions[i].handler.req)
    ensures var s', req := Next(s, Acquire(i)), s.sessions[i].handler.req;
      Inv(s') && Serves(s', ByHandler(i), req, Content(s.files, req.path)) && HolderOk(s', ByHandler(i))
  {
    ReachableInv(s);
    InvKept(s, Acquire(i));
  }

  /** ... so a transfer command whose file no rename lands on is served by a harmless run. */
  lemma NoLandingIsHarmless(s: State, i: nat, steps: seq<Step>)
    requires Reachable(s) && Enabled(s, Acquire(i)) && MovesFile(s.sessions[i].handler.req)
    requires NothingLands(Next(s, Acquire(i)), steps, s.sessions[i].handler.req.path)
    ensures HarmlessRun(Next(s, Acquire(i)), ByHandler(i), steps)
  {
    hide Inv, Serves, HolderOk;
    var req := s.sessions[i].handler.req;
    GrantServes(s, i);
    OnlyLandingsMatter(Next(s, Acquire(i)), ByHandler(i), steps, req, Content(s.files, req.path));
  }

  lemma TransferServed(s: State, i: nat, steps: seq<Step>, u: State, t: nat)
    requires Reachable(s) && TransferRun(s, i, steps, u, t) && HarmlessRun(Next(s, Acquire(i)), ByHandler(i), steps)
    ensures var req := s.sessions[i].handler.req;
      Inv(u) && Serves(u, ByThread(t), req, Content(s.files, req.path)) && ThreadOk(u.threads[t], u.files)
  {
    var req := s.sessions[i].handler.req;
    GrantServes(s, i);
    ServedThroughout(Next(s, Acquire(i)), ByHandler(i), steps, u, req, Content(s.files, req.path));
  }

  /**
   * The buffers of a download that ends well are the file as it was when the lock was granted, from the offset asked
   * for; in ASCII mode with every LF as CRLF. The run before the grant does not matter, and since then only renames
   * that land on this very file.
   */
  lemma SnapshotDownload(s: State, i: nat, steps: seq<Step>, u: State, t: nat)
    requires Reachable(s) && TransferRun(s, i, steps, u, t) && s.sessions[i].handler.req.op.Retr?
    requires HarmlessRun(Next(s, Acquire(i)), ByHandler(i), steps) && EndedWell(u.threads[t])
    ensures var req, file := s.sessions[i].handler.req, Content(s.files, s.sessions[i].handler.req.path);
      && file.Some? && req.offset <= |file.value| && u.threads[t].progress.Sent?
      && u.threads[t].progress.data == OnWire(req.ascii, file.value[req.offset..])
  {
    hide OnWire, HarmlessRun, Run, ThreadsAgree, LocksAgree, RepliesAgree;
    TransferServed(s, i, steps, u, t);
    var me := u.threads[t];
    assert ThreadShape(me);
    assert me.base.value[me.params.offset..me.progress.cur] == me.base.value[me.params.offset..];
  }

  /**
   * However a download ends, and at any time before, the bytes passed on are a front part of the same: nothing of any
   * other file, and nothing of this one as others have changed it since.
   */
  lemma SnapshotFront(s: State, i: nat, steps: seq<Step>, u: State, t: nat)
    requires Reachable(s) && TransferRun(s, i, steps, u, t) && s.sessions[i].handler.req.op.Retr?
    requires HarmlessRun(Next(s, Acquire(i)), ByHandler(i), steps) && u.threads[t].progress.Sent?
    ensures var req, file := s.sessions[i].handler.req, Content(s.files, s.sessions[i].handler.req.path);
      && file.Some? && req.offset <= |file.value|
      && u.threads[t].progress.data <= OnWire(req.ascii, file.value[req.offset..])
  {
    hide OnWire, HarmlessRun, Run, ThreadsAgree, LocksAgree, RepliesAgree;
    TransferServed(s, i, steps, u, t);
    assert ThreadShape(u.threads[t]);
  }

  /**
   * Until it unlocks, an upload that ends well leaves the file as it was when the lock was granted, emptied first by a
   * fresh STOR, overlaid with exactly what was received: at the offset asked for, or for APPE at the end; never with a
   * hole.
   */
  lemma ExactUpload(s: State, i: nat, steps: seq<Step>, u: State, t: nat)
    requires Reachable(s) && TransferRun(s, i, steps, u, t) && !s.sessions[i].handler.req.op.Retr?
    requires HarmlessRun(Next(s, Acquire(i)), ByHandler(i), steps)
    requires EndedWell(u.threads[t]) && !u.threads[t].phase.Unlocked?
    ensures var req, me := s.sessions[i].handler.req, u.threads[t];
      var file := Content(s.files, req.path);
      var was := if req.op.Stor? && req.offset == 0 then [] else OrEmpty(file);
      var offset := if req.op.Appe? then |was| else req.offset;
      && offset <= |was| && me.progress.Received?
      && ContentOrEmpty(u.files, req.path) == Overlay(was, offset, OnDiskAll(req.ascii, me.progress.segments))
  {
    TransferServed(s, i, steps, u, t);
    assert ThreadShape(u.threads[t]);
  }
}
