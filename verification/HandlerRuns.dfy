/**
 * What the handlers and the transfer thread do is what TransferProtocol says they may do. The state of one session, the
 * lock table and the files are mirrored in a protocol state, in which any other sessions may be at any point; every
 * outcome of a command is then a run of that session's command thread, and every outcome of a transfer a run of its
 * transfer thread.
 */
module HandlerRuns {
  import opened Common
  import opened LockSpec
  import opened FileStore
  import opened CommandTable
  import opened CommandHistory
  import opened TransferProtocol
  import H = Handlers
  import SP = SessionPaths

  // ----- one session's share of a protocol state -----

  datatype World = World(own: H.Own, locks: LockMap, files: Files)

  /** The thread a session has started and that has not run yet. */
  predicate Carries(s: State, t: nat, i: nat, params: Option<Params>) {
    t in s.threads && params.Some? && s.threads[t] == Thread(i, params.value, s.threads[t].base, Spawned, NoProgress)
  }

  /**
   * The session between two commands or closed, after so many command lines; `aborts` more are ABORs handled while a
   * transfer ran, which the protocol state counts with their replies.
   */
  ghost predicate Mirrors(s: State, i: nat, h: Handler, w: World, lines: nat, aborts: nat) {
    && i < |s.sessions| && s.locks == w.locks && s.files == w.files
    && s.sessions[i] == Session(h, w.own.thread, w.own.params, w.own.abort, w.own.quit, !w.own.sendFailed,
                                lines + aborts, w.own.finals + aborts)
    && (w.own.thread.Starting? ==> exists t :: Carries(s, t, i, w.own.params))
  }

  // ----- runs of one session -----

  predicate OfSession(i: nat, t: Option<nat>, step: Step) {
    if OfHandler(step) then step.i == i else t == Some(step.t)
  }

  /** Steps of this command thread and this transfer thread alone lead from one state to the other. */
  ghost predicate Reaches(s: State, i: nat, t: Option<nat>, u: State) {
    exists steps :: Run(s, steps, u) && forall step | step in steps :: OfSession(i, t, step)
  }

  lemma ReachesItself(s: State, i: nat, t: Option<nat>)
    ensures Reaches(s, i, t, s)
  {
    assert Run(s, [], s);
  }

  lemma ReachesNext(s: State, i: nat, t: Option<nat>, u: State, step: Step)
    requires Reaches(s, i, t, u) && Enabled(u, step) && OfSession(i, t, step)
    ensures Reaches(s, i, t, Next(u, step))
  {
    var steps :| Run(s, steps, u) && forall step | step in steps :: OfSession(i, t, step);
    assert Run(u, [step], Next(u, step));
    RunJoin(s, steps, u, [step], Next(u, step));
  }

  lemma ReachesOn(s: State, i: nat, t: Option<nat>, u: State, v: State)
    requires Reaches(s, i, t, u) && Reaches(u, i, t, v)
    ensures Reaches(s, i, t, v)
  {
    var first :| Run(s, first, u) && forall step | step in first :: OfSession(i, t, step);
    var second :| Run(u, second, v) && forall step | step in second :: OfSession(i, t, step);
    RunJoin(s, first, u, second, v);
  }

  lemma ReachesLeads(s: State, i: nat, t: Option<nat>, u: State)
    requires Reaches(s, i, t, u)
    ensures Leads(s, u)
  {
  }

  /** The command thread receives this request and deals with it. */
  ghost predicate DealsWith(s: State, i: nat, req: Request, u: State) {
    exists first :: first == Receive(i, req) && Enabled(s, first) && Reaches(Next(s, first), i, None, u)
  }

  lemma DealsLeads(s: State, i: nat, req: Request, u: State)
    requires DealsWith(s, i, req, u)
    ensures Leads(s, u)
  {
    LeadsNext(s, Receive(i, req));
    ReachesLeads(Next(s, Receive(i, req)), i, None, u);
    LeadsOn(s, Next(s, Receive(i, req)), u);
  }

  lemma DealsFirst(s: State, i: nat, req: Request)
    requires Enabled(s, Receive(i, req))
    ensures DealsWith(s, i, req, Next(s, Receive(i, req)))
  {
    ReachesItself(Next(s, Receive(i, req)), i, None);
  }

  lemma DealsNext(s: State, i: nat, req: Request, u: State, step: Step)
    requires DealsWith(s, i, req, u) && Enabled(u, step) && OfSession(i, None, step)
    ensures DealsWith(s, i, req, Next(u, step))
  {
    ReachesNext(Next(s, Receive(i, req)), i, None, u, step);
  }

  // ----- what a command may have done -----

  /**
   * The request a command line stands for; a name that cannot be resolved stands for the empty path, which nobody can
   * lock.
   */
  function RequestOf(verb: Verb, view: SP.View, pending: Pending, ascii: bool, argument: Option<string>): (r: Request)
    requires pending.offset >= 0
    ensures !r.op.AbortSeen?
  {
    var path := PathOr(H.Named(view, argument));
    match verb
    case RETR => Request(Retr, path, pending.offset, ascii)
    case STOR => Request(Stor, path, pending.offset, ascii)
    case APPE => Request(Appe, path, 0, ascii)
    case DELE => Request(Dele, path, 0, ascii)
    case SIZE => Request(Probe, path, 0, ascii)
    case MDTM => Request(Probe, path, 0, ascii)
    case RNFR => Request(Rnfr, path, 0, ascii)
    case RNTO => Request(Rnto(path), PathOr(pending.source), 0, ascii)
    case LIST => Request(List, PathOr(H.Named(view, Some(H.ListedName(argument)))), 0, ascii)
    case NLST => Request(List, PathOr(H.Named(view, Some(H.ListedName(argument)))), 0, ascii)
    case ABOR => Request(Abor, path, 0, ascii)
    case _ => Request(Plain, path, 0, ascii)
  }

  function PathOr(path: Option<Path>): Path { if path.Some? then path.value else "" }

  /** The lock the request asks for can be had. */
  predicate Grantable(locks: LockMap, req: Request) {
    ModeOf(req.op).Some? ==> CanAcquire(locks, req.path, ModeOf(req.op).value)
  }

  function LocksWith(locks: LockMap, req: Request): LockMap {
    if ModeOf(req.op).Some? then TryAcquire(locks, req.path, ModeOf(req.op).value) else locks
  }

  /** The checks made under the lock have been passed, and the lock handed to a new thread. */
  predicate Launches(req: Request, a: World, b: World) {
    && OperationOf(req.op).Some? && Grantable(a.locks, req) && Validates(a.files, req)
    && b.files == ValidatedFiles(a.files, req) && b.locks == LocksWith(a.locks, req)
    && H.Started(a.own, b.own, ParamsOf(ValidatedRequest(a.files, req)))
  }

  /** The checks made under the lock have been passed, files have changed, and the lock is given back. */
  predicate Changes(req: Request, a: World, b: World, response: int) {
    && ModeOf(req.op).Some? && Grantable(a.locks, req) && Validates(a.files, req)
    && b.locks == a.locks && H.Answered(a.own, b.own, response)
    && (req.op.Dele? || req.op.Rnto? || req.op.Stor?)
    && b.files == if req.op.Stor? then ValidatedFiles(a.files, req) else EffectFiles(a.files, req)
  }

  /** The flags QUIT, REIN and ABOR set before they answer. */
  predicate Flags(req: Request, a: World, b: World, response: int) {
    b.locks == a.locks && b.files == a.files
    && if req.op.Abor? then a.own.thread.Running? && H.Answered(a.own.(abort := true), b.own, response)
       else req.op.Plain? && (H.Answered(a.own.(quit := true), b.own, response)
                              || (a.own.thread.Idle?
                                  && H.Answered(a.own.(params := None, abort := false), b.own, response)))
  }

  predicate OnlyAnswers(a: World, b: World, response: int) {
    b.locks == a.locks && b.files == a.files && H.Answered(a.own, b.own, response)
  }

  predicate Outcome(req: Request, a: World, b: World, response: int) {
    OnlyAnswers(a, b, response) || Launches(req, a, b) || Changes(req, a, b, response) || Flags(req, a, b, response)
  }

  // ----- every outcome of a command is a run of its command thread -----

  /** From s the command thread, on this request, can leave the world so. */
  ghost predicate Performs(s: State, i: nat, req: Request, b: World, lines: nat, aborts: nat) {
    exists u :: DealsWith(s, i, req, u) && Mirrors(u, i, Waiting, b, lines, aborts)
  }

  lemma OnlyAnswersIsARun(s: State, i: nat, req: Request, a: World, b: World, response: int, lines: nat, aborts: nat)
    requires Mirrors(s, i, Waiting, a, lines, aborts) && !req.op.AbortSeen? && OnlyAnswers(a, b, response)
    ensures Performs(s, i, req, b, lines + 1, aborts)
  {
    hide DealsWith;
    DealsFirst(s, i, req);
    var received := Next(s, Receive(i, req));
    DealsNext(s, i, req, received, Reject(i, response == 0));
    var u := Next(received, Reject(i, response == 0));
    ThreadStays(s, u, i, a.own.params);
  }

  lemma ThreadStays(s: State, u: State, i: nat, params: Option<Params>)
    requires u.threads == s.threads
    ensures (exists t :: Carries(s, t, i, params)) ==> exists t :: Carries(u, t, i, params)
  {
    if t :| Carries(s, t, i, params) { assert Carries(u, t, i, params); }
  }

  /** A number no live thread has. */
  lemma {:induction false} FreshNumber(used: set<nat>) returns (n: nat)
    ensures forall x | x in used :: x < n
    decreases |used|
  {
    if used == {} {
      n := 0;
    } else {
      var x :| x in used;
      var m := FreshNumber(used - {x});
      n := if m <= x then x + 1 else m;
      forall y | y in used ensures y < n {
        if y != x { assert y in used - {x}; }
      }
    }
  }

  /** From the command line to the grant of the lock. */
  lemma HoldsGranted(s: State, i: nat, req: Request) returns (u: State)
    requires i < |s.sessions| && s.sessions[i].handler.Waiting? && (OperationOf(req.op).Some? || ModeOf(req.op).Some?)
    requires Grantable(s.locks, req)
    ensures DealsWith(s, i, req, u)
    ensures var holding := Holding(req, Granted, Content(s.files, req.path));
      u == s.(sessions := s.sessions[i := s.sessions[i].(handler := holding, handled := s.sessions[i].handled + 1)],
              locks := LocksWith(s.locks, req))
  {
    hide DealsWith, TryAcquire, CanAcquire;
    DealsFirst(s, i, req);
    u := Next(s, Receive(i, req));
    DealsNext(s, i, req, u, Acquire(i));
    u := Next(u, Acquire(i));
  }

  /** ... and on to the point where the checks under the lock have been passed. */
  lemma HoldsChecked(s: State, i: nat, req: Request) returns (u: State)
    requires i < |s.sessions| && s.sessions[i].handler.Waiting? && (OperationOf(req.op).Some? || ModeOf(req.op).Some?)
    requires Grantable(s.locks, req) && Validates(s.files, req)
    ensures DealsWith(s, i, req, u)
    ensures var me := s.sessions[i];
      var files := ValidatedFiles(s.files, req);
      var holding := Holding(ValidatedRequest(s.files, req), Checked, Content(files, req.path));
      u == State(s.sessions[i := me.(handler := holding, handled := me.handled + 1)], s.threads,
                 LocksWith(s.locks, req), files)
  {
    hide DealsWith, LocksWith, Grantable, Validates, ValidatedFiles, ValidatedRequest;
    u := HoldsGranted(s, i, req);
    DealsNext(s, i, req, u, Validate(i));
    u := Next(u, Validate(i));
  }

  lemma LaunchIsARun(s: State, i: nat, req: Request, a: World, b: World, lines: nat, aborts: nat)
    requires Mirrors(s, i, Waiting, a, lines, aborts) && Launches(req, a, b)
    ensures Performs(s, i, req, b, lines + 1, aborts)
  {
    hide DealsWith;
    var t := FreshNumber(s.threads.Keys);
    var held := HoldsChecked(s, i, req);
    DealsNext(s, i, req, held, HandOff(i, t));
    var u := Next(held, HandOff(i, t));
    assert Carries(u, t, i, b.own.params);
  }

  /** The client is answered and the lock given back. */
  lemma Released(s: State, i: nat, req: Request, u: State, ok: bool) returns (v: State)
    requires DealsWith(s, i, req, u) && i < |u.sessions| && u.sessions[i].handler.Holding?
    requires var op := u.sessions[i].handler.req.op; ModeOf(op).Some? && !op.Probe? && !op.Rnfr?
    ensures DealsWith(s, i, req, v)
    ensures v == State(u.sessions[i := WithReply(u.sessions[i], ok).(handler := Waiting)], u.threads,
                       ReleaseFor(u.locks, u.sessions[i].handler.req), u.files)
  {
    hide DealsWith;
    DealsNext(s, i, req, u, ReplyHeld(i, ok));
    v := Next(u, ReplyHeld(i, ok));
    DealsNext(s, i, req, v, ReleaseHeld(i));
    v := Next(v, ReleaseHeld(i));
  }

  /** Where the files change before the answer. */
  lemma Changed(s: State, i: nat, req: Request) returns (u: State)
    requires i < |s.sessions| && s.sessions[i].handler.Waiting? && ModeOf(req.op).Some?
    requires Grantable(s.locks, req) && Validates(s.files, req) && (req.op.Dele? || req.op.Rnto? || req.op.Stor?)
    ensures DealsWith(s, i, req, u) && i < |u.sessions| && u.sessions[i].handler.Holding?
            && u.sessions[i].handler.req == req
    ensures u.sessions
            == s.sessions[i := s.sessions[i].(handler := u.sessions[i].handler, handled := s.sessions[i].handled + 1)]
    ensures u.threads == s.threads && u.locks == LocksWith(s.locks, req)
    ensures u.files == if req.op.Stor? then ValidatedFiles(s.files, req) else EffectFiles(s.files, req)
  {
    hide DealsWith;
    u := HoldsChecked(s, i, req);
    if !req.op.Stor? {
      DealsNext(s, i, req, u, Effect(i));
      u := Next(u, Effect(i));
    }
  }

  /** The lock is taken, the files change under it, the client is answered and the lock given back. */
  lemma ChangeIsARun(s: State, i: nat, req: Request, a: World, b: World, response: int, lines: nat, aborts: nat)
    requires Mirrors(s, i, Waiting, a, lines, aborts) && Sound(a.locks) && Changes(req, a, b, response)
    ensures Performs(s, i, req, b, lines + 1, aborts)
  {
    hide DealsWith, EffectFiles, ValidatedFiles, Validates, TryAcquire, Release, Sound, CanAcquire;
    ReleaseUndoesAcquire(s.locks, req.path, ModeOf(req.op).value);
    var changed := Changed(s, i, req);
    var u := Released(s, i, req, changed, response == 0);
    ThreadStays(s, u, i, a.own.params);
  }

  /** A flag is raised, or all flags are cleared, before the answer. */
  lemma Flagged(s: State, i: nat, req: Request, aborting: bool, quitting: bool) returns (u: State)
    requires i < |s.sessions| && s.sessions[i].handler.Waiting?
    requires if aborting then req.op.Abor? && s.sessions[i].threadState.Running?
             else req.op.Plain? && (quitting || s.sessions[i].threadState.Idle?)
    ensures DealsWith(s, i, req, u) && i < |u.sessions| && u.sessions[i].handler.Started?
    ensures var me := s.sessions[i].(handler := u.sessions[i].handler, handled := s.sessions[i].handled + 1);
      u == s.(sessions := s.sessions[i := if aborting then me.(shouldAbort := true)
                                          else if quitting then me.(shouldQuit := true)
                                          else me.(params := None, shouldAbort := false)])
  {
    hide DealsWith;
    DealsFirst(s, i, req);
    u := Next(s, Receive(i, req));
    if aborting {
      DealsNext(s, i, req, u, SeeRunning(i));
      u := Next(u, SeeRunning(i));
      DealsNext(s, i, req, u, RaiseAbort(i));
      u := Next(u, RaiseAbort(i));
    } else if quitting {
      DealsNext(s, i, req, u, Quit(i));
      u := Next(u, Quit(i));
    } else {
      DealsNext(s, i, req, u, Reinit(i));
      u := Next(u, Reinit(i));
    }
  }

  lemma FlagsIsARun(s: State, i: nat, req: Request, a: World, b: World, response: int, lines: nat, aborts: nat)
    requires Mirrors(s, i, Waiting, a, lines, aborts) && Flags(req, a, b, response)
    ensures Performs(s, i, req, b, lines + 1, aborts)
  {
    hide DealsWith;
    var quitting := H.Answered(a.own.(quit := true), b.own, response);
    var flagged := Flagged(s, i, req, req.op.Abor?, quitting);
    DealsNext(s, i, req, flagged, Reject(i, response == 0));
    var u := Next(flagged, Reject(i, response == 0));
    ThreadStays(s, u, i, a.own.params);
  }

  /** Whatever a command has done, the protocol's command thread may do on receiving the request it stands for. */
  lemma CommandIsARun(s: State, i: nat, req: Request, a: World, b: World, response: int, lines: nat, aborts: nat)
    requires Mirrors(s, i, Waiting, a, lines, aborts) && Sound(a.locks) && !req.op.AbortSeen?
             && Outcome(req, a, b, response)
    ensures Performs(s, i, req, b, lines + 1, aborts)
  {
    hide Mirrors, Performs, OnlyAnswers, Launches, Changes, Flags;
    if OnlyAnswers(a, b, response) {
      OnlyAnswersIsARun(s, i, req, a, b, response, lines, aborts);
    } else if Launches(req, a, b) {
      LaunchIsARun(s, i, req, a, b, lines, aborts);
    } else if Changes(req, a, b, response) {
      ChangeIsARun(s, i, req, a, b, response, lines, aborts);
    } else {
      FlagsIsARun(s, i, req, a, b, response, lines, aborts);
    }
  }
}
