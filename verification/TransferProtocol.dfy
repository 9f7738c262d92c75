/**
 * The asynchronous transfer protocol over any number of sessions: a command thread per session takes a file lock and
 * hands it to a transfer thread, which moves the file, sends the final reply and releases the lock (handler.c,
 * session.c, transfer.c). One step is one stretch of code between two points where another thread may run.
 */
module TransferProtocol {
  import opened Common
  import opened LineEndings
  import opened LockSpec
  import opened FileStore

  const TRANSFER_BUFFER_SIZE: nat := 65536

  // ----- state -----

  /** A received command line, by what it does to locks and files. `Plain` stands for all lines that touch neither. */
  datatype Op = Retr | Stor | Appe | Dele | Rnto(to: Path) | Probe | Rnfr | List | Abor | AbortSeen | Plain

  /** The lock a command holds while it runs: SIZE and MDTM (`Probe`) read, LIST and NLST take none. */
  function ModeOf(op: Op): Option<Mode> {
    match op
    case Retr => Some(Shared)
    case Probe => Some(Shared)
    case Stor => Some(Exclusive)
    case Appe => Some(Exclusive)
    case Dele => Some(Exclusive)
    case Rnto(_) => Some(Exclusive)
    case Rnfr => Some(Exclusive)
    case _ => None
  }

  datatype Request = Request(op: Op, path: Path, offset: nat, ascii: bool)

  datatype Stage = Granted | Checked | Done

  /** `seen` records the file as it was when the lock was granted, or as the lock's own holder has since left it. */
  datatype Handler =
    | Waiting
    | Started(req: Request)
    | Holding(req: Request, stage: Stage, seen: Option<Bytes>)
    | Replied(req: Request)
    | Closed

  datatype Operation = SendFile | ReceiveFile | SendList

  datatype Params = Params(operation: Operation, path: Path, offset: nat, ascii: bool, lockAcquired: bool)

  datatype ThreadState = Idle | Starting | Running | Completing | Aborted

  datatype Result = Ok | IoError | ConnError | InternalError | WasAborted

  datatype Phase =
    | Spawned
    | Begun
    | Moving
    | Finished(result: Result)
    | Announced(result: Result)
    | Unlocked(result: Result)
    | Ending

  /**
   * How far a transfer has come: the bytes passed to the network, whole buffers until a send fails, or the segments
   * received and the bytes written for them.
   */
  datatype Progress =
    | NoProgress
    | Sent(cur: nat, remaining: nat, data: Bytes)
    | Received(segments: seq<Bytes>, written: Bytes)

  /** `base` records the file as it was when the lock was handed over. */
  datatype Thread = Thread(owner: nat, params: Params, base: Option<Bytes>, phase: Phase, progress: Progress)

  datatype Session = Session(
    handler: Handler, threadState: ThreadState, params: Option<Params>,
    shouldAbort: bool, shouldQuit: bool, sendsOk: bool, handled: nat, finals: nat)

  datatype State = State(sessions: seq<Session>, threads: map<nat, Thread>, locks: LockMap, files: Files)

  const NEW_SESSION := Session(Waiting, Idle, None, false, false, true, 0, 0)

  ghost predicate Init(s: State) {
    && (forall i | 0 <= i < |s.sessions| :: s.sessions[i] == NEW_SESSION)
    && s.threads == map[] && s.locks == map[]
  }

  // ----- steps -----

  datatype Step =
    // the command thread of session i
    | Receive(i: nat, req: Request)
    | Reject(i: nat, ok: bool)
    | Acquire(i: nat)
    | Validate(i: nat)
    | Effect(i: nat)
    | HandOff(i: nat, t: nat)
    | ReplyHeld(i: nat, ok: bool)
    | ReleaseHeld(i: nat)
    | ReleaseEarly(i: nat)
    | SeeRunning(i: nat)
    | RaiseAbort(i: nat)
    | Reinit(i: nat)
    | Quit(i: nat)
    | Close(i: nat)
    // the transfer thread t
    | Begin(t: nat)
    | Open(t: nat)
    | SendChunk(t: nat)
    | SendFails(t: nat, k: nat, result: Result)
    | ReceiveChunk(t: nat, data: Bytes)
    | WriteFails(t: nat, data: Bytes)
    | Finish(t: nat)
    | Fail(t: nat, result: Result)
    | Announce(t: nat, ok: bool)
    | Unlock(t: nat)
    | Complete(t: nat)
    | Exit(t: nat)

  predicate OfHandler(step: Step) {
    step.Receive? || step.Reject? || step.Acquire? || step.Validate? || step.Effect? || step.HandOff? || step.ReplyHeld?
    || step.ReleaseHeld? || step.ReleaseEarly? || step.SeeRunning? || step.RaiseAbort? || step.Reinit? || step.Quit?
      || step.Close?
  }

  function OperationOf(op: Op): Option<Operation> {
    match op
    case Retr => Some(SendFile)
    case Stor => Some(ReceiveFile)
    case Appe => Some(ReceiveFile)
    case List => Some(SendList)
    case _ => None
  }

  /** What the handler checks again once it holds the lock. */
  predicate Validates(files: Files, req: Request) {
    var file := Content(files, req.path);
    match req.op
    case Retr => file.Some? && req.offset <= |file.value|
    case Stor => req.offset == 0 || (file.Some? && req.offset <= |file.value|)
    case Appe => true
    case Dele => file.Some?
    case Rnto(to) => file.Some? && to !in files
    case List => true
    case _ => false
  }

  /** A fresh upload removes the old file; an append starts at the end of the file. */
  function ValidatedFiles(files: Files, req: Request): Files {
    if req.op.Stor? && req.offset == 0 then files - {req.path} else files
  }

  function ValidatedRequest(files: Files, req: Request): Request {
    if req.op.Appe? then req.(offset := |ContentOrEmpty(files, req.path)|) else req
  }

  predicate HandlerEnabled(s: State, step: Step)
    requires OfHandler(step)
  {
    step.i < |s.sessions| &&
    var me := s.sessions[step.i];
    var h := me.handler;
    match step
    case Receive(_, req) => h.Waiting? && !req.op.AbortSeen?
    case Reject(_, _) => h.Started?
    case Acquire(_) =>
      h.Started? && (OperationOf(h.req.op).Some? || ModeOf(h.req.op).Some?)
      && (ModeOf(h.req.op).Some? ==> CanAcquire(s.locks, h.req.path, ModeOf(h.req.op).value))
    case Validate(_) => h.Holding? && h.stage.Granted? && Validates(s.files, h.req)
    case Effect(_) => h.Holding? && h.stage.Checked? && ((h.req.op.Dele? || h.req.op.Rnto?) && h.req.path in s.files)
    case HandOff(_, t) =>
      h.Holding? && h.stage.Checked? && OperationOf(h.req.op).Some? && me.threadState.Idle? && t !in s.threads
    case ReplyHeld(_, _) => h.Holding? && !h.req.op.Probe? && !h.req.op.Rnfr?
    case ReleaseHeld(_) => h.Replied?
    case ReleaseEarly(_) => h.Holding? && (h.req.op.Probe? || h.req.op.Rnfr?)
    case SeeRunning(_) => h.Started? && h.req.op.Abor? && me.threadState.Running?
    case RaiseAbort(_) => h.Started? && h.req.op.AbortSeen?
    case Reinit(_) => h.Started? && h.req.op.Plain? && me.threadState.Idle?
    case Quit(_) => h.Started? && h.req.op.Plain?
    case Close(_) => h.Waiting?
  }

  predicate ThreadEnabled(s: State, step: Step)
    requires !OfHandler(step)
  {
    step.t in s.threads && s.threads[step.t].owner < |s.sessions| &&
    var me := s.threads[step.t];
    var boss := s.sessions[me.owner];
    match step
    case Begin(_) => me.phase.Spawned? && boss.params.Some?
    case Open(_) =>
      me.phase.Begun?
      && (me.params.operation.SendFile? ==>
            me.params.path in s.files && me.params.offset <= |s.files[me.params.path]|)
    case SendChunk(_) =>
      me.phase.Moving? && me.progress.Sent? && me.progress.remaining > 0 && NextChunk(s, me) != []
    case SendFails(_, k, r) =>
      me.phase.Moving? && me.progress.Sent? && k <= |OnWire(me.params.ascii, NextChunk(s, me))|
      && !r.Ok? && (r.WasAborted? ==> boss.shouldAbort)
    case ReceiveChunk(_, data) => me.phase.Moving? && me.progress.Received? && 0 < |data| <= TRANSFER_BUFFER_SIZE
    case WriteFails(_, data) => me.phase.Moving? && me.progress.Received? && |data| <= TRANSFER_BUFFER_SIZE
    case Finish(_) => me.phase.Moving? && (me.progress.Sent? ==> me.progress.remaining == 0)
    case Fail(_, r) => (me.phase.Begun? || me.phase.Moving?) && !r.Ok? && (r.WasAborted? ==> boss.shouldAbort)
    case Announce(_, _) => me.phase.Finished?
    case Unlock(_) => me.phase.Announced?
    case Complete(_) => me.phase.Unlocked?
    case Exit(_) => me.phase.Ending?
  }

  predicate Enabled(s: State, step: Step) {
    if OfHandler(step) then HandlerEnabled(s, step) else ThreadEnabled(s, step)
  }

  // ----- effects on one session, one thread -----

  /** A final reply that reaches the client counts; one that cannot be sent is remembered as such. */
  function WithReply(x: Session, ok: bool): Session {
    if ok then x.(finals := x.finals + 1) else x.(sendsOk := false)
  }

  function NextHandler(s: State, step: Step): Session
    requires OfHandler(step) && HandlerEnabled(s, step)
  {
    var me := s.sessions[step.i];
    var h := me.handler;
    match step
    case Receive(_, req) => me.(handler := Started(req), handled := me.handled + 1)
    case Reject(_, ok) => WithReply(me, ok).(handler := Waiting)
    case Acquire(_) => me.(handler := Holding(h.req, Granted, Content(s.files, h.req.path)))
    case Validate(_) =>
      var files := ValidatedFiles(s.files, h.req);
      me.(handler := Holding(ValidatedRequest(s.files, h.req), Checked, Content(files, h.req.path)))
    case Effect(_) => me.(handler := Holding(h.req, Done, Content(EffectFiles(s.files, h.req), h.req.path)))
    case HandOff(_, _) => me.(handler := Waiting, threadState := Starting, params := Some(ParamsOf(h.req)))
    case ReplyHeld(_, ok) => WithReply(me, ok).(handler := Replied(h.req))
    case ReleaseHeld(_) => me.(handler := Waiting)
    case ReleaseEarly(_) => me.(handler := Started(h.req.(op := Plain)))
    case SeeRunning(_) => me.(handler := Started(h.req.(op := AbortSeen)))
    case RaiseAbort(_) => me.(handler := Started(h.req.(op := Plain)), shouldAbort := true)
    case Reinit(_) => me.(params := None, shouldAbort := false)
    case Quit(_) => me.(shouldQuit := true)
    case Close(_) => me.(handler := Closed, shouldQuit := true)
  }

  function ParamsOf(req: Request): Params
    requires OperationOf(req.op).Some?
  {
    Params(OperationOf(req.op).value, req.path, req.offset, req.ascii, ModeOf(req.op).Some?)
  }

  function EffectFiles(files: Files, req: Request): Files
    requires (req.op.Dele? || req.op.Rnto?) && req.path in files
  {
    if req.op.Dele? then files - {req.path}
    else if req.op.to == req.path then files
    else files[req.op.to := files[req.path]] - {req.path}
  }

  /** The next piece of the file a download reads. */
  function NextChunk(s: State, me: Thread): (r: Bytes)
    requires me.progress.Sent?
    ensures |r| <= me.progress.remaining
  {
    if me.params.path !in s.files then []
    else ReadAt(s.files[me.params.path], me.progress.cur,
                if me.progress.remaining > TRANSFER_BUFFER_SIZE then TRANSFER_BUFFER_SIZE else me.progress.remaining)
  }

  /** The bytes put on the wire for a piece of a file, and the bytes stored for a piece from the wire. */
  function OnWire(ascii: bool, chunk: Bytes): Bytes {
    if ascii then LfToCrlf(chunk) else chunk
  }

  function OnDisk(ascii: bool, segment: Bytes): Bytes {
    if ascii then CrlfToLf(segment) else segment
  }

  function StartProgress(s: State, p: Params): Progress
    requires p.operation.SendFile? ==> p.path in s.files && p.offset <= |s.files[p.path]|
  {
    match p.operation
    case SendFile => Sent(p.offset, |s.files[p.path]| - p.offset, [])
    case ReceiveFile => Received([], [])
    case SendList => NoProgress
  }

  function NextThread(s: State, step: Step): Thread
    requires !OfHandler(step) && ThreadEnabled(s, step)
  {
    var me := s.threads[step.t];
    var boss := s.sessions[me.owner];
    match step
    case Begin(_) => me.(params := boss.params.value, phase := Begun)
    case Open(_) => me.(phase := Moving, progress := StartProgress(s, me.params))
    case SendChunk(_) =>
      var chunk := NextChunk(s, me);
      var p := me.progress;
      me.(progress := Sent(p.cur + |chunk|, p.remaining - |chunk|, p.data + OnWire(me.params.ascii, chunk)))
    case SendFails(_, k, r) =>
      var part := OnWire(me.params.ascii, NextChunk(s, me))[..k];
      me.(phase := Finished(r), progress := me.progress.(data := me.progress.data + part))
    case ReceiveChunk(_, data) =>
      me.(progress := Received(me.progress.segments + [data], me.progress.written + OnDisk(me.params.ascii, data)))
    case WriteFails(_, data) =>
      me.(phase := Finished(IoError), progress := me.progress.(written := me.progress.written + data))
    case Finish(_) => me.(phase := Finished(if boss.shouldAbort && me.progress.Received? then WasAborted else Ok))
    case Fail(_, r) => me.(phase := Finished(r))
    case Announce(_, _) => me.(phase := Announced(me.phase.result))
    case Unlock(_) => me.(phase := Unlocked(me.phase.result))
    case Complete(_) => me.(phase := Ending)
    case Exit(_) => me
  }

  /** What the thread's step does to the session that owns it. */
  function NextOwner(s: State, step: Step): Session
    requires !OfHandler(step) && ThreadEnabled(s, step)
  {
    var me := s.threads[step.t];
    var boss := s.sessions[me.owner];
    match step
    case Begin(_) => boss.(threadState := Running)
    case Announce(_, ok) =>
      var replied := if me.phase.result.ConnError? && boss.shouldQuit then boss else WithReply(boss, ok);
      if me.phase.result.WasAborted? then replied.(shouldAbort := false) else replied
    case Complete(_) =>
      boss.(params := None, threadState := if me.phase.result.WasAborted? then Aborted else Completing)
    case Exit(_) => boss.(threadState := Idle)
    case _ => boss
  }

  /** A write creates the file if need be, even if nothing of the data is written. */
  function WriteFile(files: Files, me: Thread, data: Bytes): Files
    requires me.progress.Received?
  {
    files[me.params.path := Overlay(ContentOrEmpty(files, me.params.path), me.params.offset + |me.progress.written|,
                                    data)]
  }

  function NextFiles(s: State, step: Step): Files
    requires Enabled(s, step)
  {
    match step
    case Validate(i) => ValidatedFiles(s.files, s.sessions[i].handler.req)
    case Effect(i) => EffectFiles(s.files, s.sessions[i].handler.req)
    case ReceiveChunk(t, data) => WriteFile(s.files, s.threads[t], OnDisk(s.threads[t].params.ascii, data))
    case WriteFails(t, data) => WriteFile(s.files, s.threads[t], data)
    case _ => s.files
  }

  function NextLocks(s: State, step: Step): LockMap
    requires Enabled(s, step)
  {
    match step
    case Acquire(i) =>
      var req := s.sessions[i].handler.req;
      if ModeOf(req.op).Some? then TryAcquire(s.locks, req.path, ModeOf(req.op).value) else s.locks
    case ReleaseHeld(i) => ReleaseFor(s.locks, s.sessions[i].handler.req)
    case ReleaseEarly(i) => ReleaseFor(s.locks, s.sessions[i].handler.req)
    case Unlock(t) =>
      var p := s.threads[t].params;
      if !p.lockAcquired || p.operation.SendList? then s.locks
      else Release(s.locks, p.path, if p.operation.ReceiveFile? then Exclusive else Shared)
    case _ => s.locks
  }

  function ReleaseFor(locks: LockMap, req: Request): LockMap {
    if ModeOf(req.op).Some? then Release(locks, req.path, ModeOf(req.op).value) else locks
  }

  function NextThreads(s: State, step: Step): map<nat, Thread>
    requires Enabled(s, step)
  {
    if step.HandOff? then
      var h := s.sessions[step.i].handler;
      s.threads[step.t := Thread(step.i, ParamsOf(h.req), h.seen, Spawned, NoProgress)]
    else if OfHandler(step) then s.threads
    else if step.Exit? then s.threads - {step.t}
    else s.threads[step.t := NextThread(s, step)]
  }

  function NextSessions(s: State, step: Step): seq<Session>
    requires Enabled(s, step)
  {
    if OfHandler(step) then s.sessions[step.i := NextHandler(s, step)]
    else s.sessions[s.threads[step.t].owner := NextOwner(s, step)]
  }

  function Next(s: State, step: Step): State
    requires Enabled(s, step)
  {
    State(NextSessions(s, step), NextThreads(s, step), NextLocks(s, step), NextFiles(s, step))
  }

  ghost predicate Run(s: State, steps: seq<Step>, t: State)
    decreases |steps|
  {
    if steps == [] then s == t else Enabled(s, steps[0]) && Run(Next(s, steps[0]), steps[1..], t)
  }

  /** Some run leads from one state to the other. */
  ghost predicate Leads(s: State, t: State) {
    exists steps :: Run(s, steps, t)
  }

  lemma {:induction false} RunJoin(s: State, first: seq<Step>, t: State, second: seq<Step>, u: State)
    requires Run(s, first, t) && Run(t, second, u)
    ensures Run(s, first + second, u)
    decreases |first|
  {
    if first == [] {
      assert first + second == second;
    } else {
      RunJoin(Next(s, first[0]), first[1..], t, second, u);
      assert (first + second)[1..] == first[1..] + second;
    }
  }

  lemma LeadsNext(s: State, step: Step)
    requires Enabled(s, step)
    ensures Leads(s, Next(s, step))
  {
    assert Run(s, [step], Next(s, step));
  }

  lemma LeadsOn(s: State, t: State, u: State)
    requires Leads(s, t) && Leads(t, u)
    ensures Leads(s, u)
  {
    var first, second :| Run(s, first, t) && Run(t, second, u);
    RunJoin(s, first, t, second, u);
  }

  lemma RunOf4(s: State, a: Step, b: Step, c: Step, d: Step)
    requires Enabled(s, a) && Enabled(Next(s, a), b) && Enabled(Next(Next(s, a), b), c)
    requires Enabled(Next(Next(Next(s, a), b), c), d)
    ensures Run(s, [a, b, c, d], Next(Next(Next(Next(s, a), b), c), d))
  {
    hide Enabled, Next;
    var s1 := Next(s, a);
    var s2 := Next(s1, b);
    var s3 := Next(s2, c);
    var s4 := Next(s3, d);
    assert [a, b, c, d][1..] == [b, c, d] && [b, c, d][1..] == [c, d] && [c, d][1..] == [d] && [d][1..] == [];
    assert Run(s4, [], s4);
    assert Run(s3, [d], s4);
    assert Run(s2, [c, d], s4);
    assert Run(s1, [b, c, d], s4);
  }

  /**
   * A fresh STOR of a file that is there, once it can have its lock, may run to its end without a transfer: the client
   * gets an error reply, the lock table is as before, and the file is gone.
   */
  lemma FailedStorLosesTheFile(s: State, i: nat)
    requires Sound(s.locks) && Enabled(s, Acquire(i)) && s.sessions[i].handler.req.op.Stor?
    requires s.sessions[i].handler.req.offset == 0 && s.sessions[i].handler.req.path in s.files
    ensures exists u :: Run(s, [Acquire(i), Validate(i), ReplyHeld(i, true), ReleaseHeld(i)], u)
                        && u.locks == s.locks && u.threads == s.threads
                        && u.sessions
                          == s.sessions[i := s.sessions[i].(handler := Waiting, finals := s.sessions[i].finals + 1)]
                        && u.files == s.files - {s.sessions[i].handler.req.path} && u.files != s.files
  {
    hide TryAcquire, Release, Sound;
    var req := s.sessions[i].handler.req;
    var s1 := Next(s, Acquire(i));
    var s2 := Next(s1, Validate(i));
    var s3 := Next(s2, ReplyHeld(i, true));
    var u := Next(s3, ReleaseHeld(i));
    ReleaseUndoesAcquire(s.locks, req.path, Exclusive);
    RunOf4(s, Acquire(i), Validate(i), ReplyHeld(i, true), ReleaseHeld(i));
    assert req.path in s.files && req.path !in u.files;
  }

  // ----- who holds what -----

  datatype Grant = Grant(path: Path, mode: Mode)

  function HandlerGrant(h: Handler): Option<Grant> {
    if (h.Holding? || h.Replied?) && ModeOf(h.req.op).Some? then Some(Grant(h.req.path, ModeOf(h.req.op).value))
    else None
  }

  function ParamsGrant(p: Params): Option<Grant> {
    if p.lockAcquired && !p.operation.SendList?
    then Some(Grant(p.path, if p.operation.ReceiveFile? then Exclusive else Shared)) else None
  }

  function ThreadGrant(t: Thread): Option<Grant> {
    if t.phase.Unlocked? || t.phase.Ending? then None else ParamsGrant(t.params)
  }

  function HandlerHolders(sessions: seq<Session>, g: Grant): set<nat> {
    set i: nat | i < |sessions| && HandlerGrant(sessions[i].handler) == Some(g)
  }

  function ThreadHolders(threads: map<nat, Thread>, g: Grant): set<nat> {
    set t | t in threads && ThreadGrant(threads[t]) == Some(g)
  }

  function HolderCount(s: State, g: Grant): nat {
    |HandlerHolders(s.sessions, g)| + |ThreadHolders(s.threads, g)|
  }
}
