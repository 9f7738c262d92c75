/**
 * Isolation: what the holder of a lock can rely on about its file while other sessions run, and the one step of another
 * session that can break it: a rename that lands on the file.
 */
module Isolation {
  import opened Common
  import opened LineEndings
  import opened LockSpec
  import opened FileStore
  import opened TransferProtocol
  import opened LockHandOff

  function OrEmpty(file: Option<Bytes>): Bytes {
    if file.Some? then file.value else []
  }

  /** The bytes stored for a whole list of received segments. */
  function OnDiskAll(ascii: bool, segments: seq<Bytes>): Bytes {
    if ascii then ConvertEach(segments) else Flatten(segments)
  }

  lemma OnDiskAllSnoc(ascii: bool, segments: seq<Bytes>, last: Bytes)
    ensures OnDiskAll(ascii, segments + [last]) == OnDiskAll(ascii, segments) + OnDisk(ascii, last)
  {
    if ascii { ConvertEachSnoc(segments, last); } else { FlattenSnoc(segments, last); }
  }

  // ----- what is true of every command and transfer, whatever the others do -----

  /** What a transfer command has checked about the file it has seen. */
  ghost predicate HandlerShape(h: Handler) {
    h.Holding? && h.stage.Checked? ==>
      match h.req.op
      case Retr => h.seen.Some? && h.req.offset <= |h.seen.value|
      case Stor => h.req.offset <= |OrEmpty(h.seen)| && (h.req.offset == 0 ==> h.seen.None?)
      case Appe => h.req.offset == |OrEmpty(h.seen)|
      case _ => true
  }

  predicate EndedWell(me: Thread) {
    (me.phase.Finished? || me.phase.Announced? || me.phase.Unlocked?) && me.phase.result.Ok?
  }

  ghost predicate ThreadShape(me: Thread) {
    && me.params.lockAcquired == !me.params.operation.SendList?
    && (me.params.operation.SendFile? ==> me.base.Some?)
    && me.params.offset <= (if me.params.operation.SendList? then me.params.offset else |OrEmpty(me.base)|)
    && (me.progress.Sent? ==> me.params.operation.SendFile?)
    && (me.progress.Received? ==> me.params.operation.ReceiveFile?)
    && (me.phase.Spawned? || me.phase.Begun? ==> me.progress.NoProgress?)
    && (me.phase.Moving? || EndedWell(me) ==>
          match me.params.operation
          case SendFile => me.progress.Sent?
          case ReceiveFile =>
            me.progress.Received? && me.progress.written == OnDiskAll(me.params.ascii, me.progress.segments)
          case SendList => true)
    && (EndedWell(me) && me.progress.Sent? ==> me.progress.remaining == 0)
  }

  ghost predicate ShapesOk(s: State) {
    && (forall i | 0 <= i < |s.sessions| :: HandlerShape(s.sessions[i].handler))
    && (forall t | t in s.threads :: ThreadShape(s.threads[t]))
  }

  lemma ThreadStepShape(s: State, step: Step)
    requires ThreadsAgree(s) && ShapesOk(s) && Enabled(s, step) && !OfHandler(step)
    ensures ThreadShape(NextThread(s, step))
  {
    var me := s.threads[step.t];
    assert ThreadShape(me);
    if step.ReceiveChunk? { OnDiskAllSnoc(me.params.ascii, me.progress.segments, step.data); }
  }

  lemma HandlerStepShape(s: State, step: Step)
    requires ShapesOk(s) && Enabled(s, step) && OfHandler(step)
    ensures HandlerShape(NextHandler(s, step).handler)
    ensures step.HandOff? ==> ThreadShape(NextThreads(s, step)[step.t])
  {
    assert HandlerShape(s.sessions[step.i].handler);
  }

  /** A step changes one session and at most one thread. */
  lemma OtherThreads(s: State, step: Step, t: nat)
    requires Enabled(s, step) && t in Next(s, step).threads
    ensures if (step.HandOff? || !OfHandler(step)) && step.t == t then
              Next(s, step).threads[t] == NextThreads(s, step)[t]
            else t in s.threads && Next(s, step).threads[t] == s.threads[t]
    ensures !OfHandler(step) && step.t == t ==> Next(s, step).threads[t] == NextThread(s, step)
  {
  }

  lemma OtherHandlers(s: State, step: Step, i: nat)
    requires Enabled(s, step) && i < |Next(s, step).sessions|
    ensures i < |s.sessions|
    ensures OfHandler(step) && step.i == i ==> Next(s, step).sessions[i] == NextHandler(s, step)
    ensures !(OfHandler(step) && step.i == i) ==> Next(s, step).sessions[i].handler == s.sessions[i].handler
  {
  }

  lemma ShapesKept(s: State, step: Step)
    requires ThreadsAgree(s) && ShapesOk(s) && Enabled(s, step)
    ensures ShapesOk(Next(s, step))
  {
    hide HandlerShape, ThreadShape, ThreadsAgree, NextHandler, NextThread;
    var s' := Next(s, step);
    if OfHandler(step) { HandlerStepShape(s, step); } else { ThreadStepShape(s, step); }
    forall t | t in s'.threads ensures ThreadShape(s'.threads[t]) { OtherThreads(s, step, t); }
    forall i | 0 <= i < |s'.sessions| ensures HandlerShape(s'.sessions[i].handler) { OtherHandlers(s, step, i); }
  }

  // ----- what a holder relies on -----

  /** A lock is held by the command thread of a session or by a transfer thread. */
  datatype Holder = ByHandler(i: nat) | ByThread(t: nat)

  predicate Present(s: State, h: Holder) {
    if h.ByHandler? then h.i < |s.sessions| else h.t in s.threads
  }

  function HolderGrant(s: State, h: Holder): Option<Grant>
    requires Present(s, h)
  {
    if h.ByHandler? then HandlerGrant(s.sessions[h.i].handler) else ThreadGrant(s.threads[h.t])
  }

  /** While a command holds a lock, the file is the one it has seen. */
  ghost predicate HandlerOk(h: Handler, files: Files) {
    h.Holding? && ModeOf(h.req.op).Some? ==> Content(files, h.req.path) == h.seen
  }

  /** What a download has passed on is a front part of the file it was handed; whole buffers unless it has failed. */
  ghost predicate SentOk(me: Thread) {
    me.progress.Sent? && me.base.Some? ==>
      var p := me.progress;
      && me.params.offset <= p.cur <= |me.base.value| && p.cur + p.remaining == |me.base.value|
      && p.data <= OnWire(me.params.ascii, me.base.value[me.params.offset..])
      && (me.phase.Moving? || EndedWell(me) ==>
            p.data == OnWire(me.params.ascii, me.base.value[me.params.offset..p.cur]))
  }

  function Written(me: Thread): Bytes {
    if me.progress.Received? then me.progress.written else []
  }

  /**
   * While a transfer holds its lock, the file is the one handed over, overlaid with what the transfer itself has
   * written.
   */
  ghost predicate FileOk(me: Thread, files: Files) {
    match me.params.operation
    case SendFile => Content(files, me.params.path) == me.base
    case ReceiveFile =>
      ContentOrEmpty(files, me.params.path) == Overlay(OrEmpty(me.base), me.params.offset, Written(me))
    case SendList => true
  }

  ghost predicate ThreadOk(me: Thread, files: Files) {
    SentOk(me) && (ThreadGrant(me).Some? ==> FileOk(me, files))
  }

  ghost predicate HolderOk(s: State, h: Holder)
    requires Present(s, h)
  {
    if h.ByHandler? then HandlerOk(s.sessions[h.i].handler, s.files) else ThreadOk(s.threads[h.t], s.files)
  }

  /** Every holder finds its file as it relies on it. */
  ghost predicate StoreOk(s: State) {
    forall h | Present(s, h) :: HolderOk(s, h)
  }

  // ----- exclusion -----

  lemma TwoMembers(a: set<nat>, x: nat, y: nat)
    requires x in a && y in a && x != y
    ensures |a| >= 2
  {
    assert {x, y} <= a;
    assert |a| == |{x, y}| + |a - {x, y}|;
  }

  /** If somebody holds a path exclusively, nobody else holds it in any mode. */
  lemma Excludes(s: State, h: Holder, k: Holder, p: Path)
    requires LocksAgree(s) && Present(s, h) && Present(s, k)
    requires HolderGrant(s, h) == Some(Grant(p, Exclusive)) && HolderGrant(s, k).Some?
             && HolderGrant(s, k).value.path == p
    ensures h == k
  {
    Counted(s, h);
    Counted(s, k);
    TogetherCounted(s, h, k);
    assert At(s.locks, p) == Counts(HolderCount(s, Grant(p, Shared)), HolderCount(s, Grant(p, Exclusive)), 0);
  }

  lemma Counted(s: State, h: Holder)
    requires Present(s, h) && HolderGrant(s, h).Some?
    ensures HolderCount(s, HolderGrant(s, h).value) > 0
  {
    var g := HolderGrant(s, h).value;
    if h.ByHandler? {
      assert h.i in HandlerHolders(s.sessions, g);
    } else {
      assert h.t in ThreadHolders(s.threads, g);
    }
  }

  lemma TogetherCounted(s: State, h: Holder, k: Holder)
    requires Present(s, h) && Present(s, k) && HolderGrant(s, h).Some?
    ensures HolderGrant(s, k) == HolderGrant(s, h) && h != k ==> HolderCount(s, HolderGrant(s, h).value) >= 2
  {
    if HolderGrant(s, k) == HolderGrant(s, h) && h != k {
      var g := HolderGrant(s, h).value;
      var frames, lives := HandlerHolders(s.sessions, g), ThreadHolders(s.threads, g);
      match (h, k)
      case (ByHandler(i), ByHandler(j)) => TwoMembers(frames, i, j);
      case (ByThread(t), ByThread(u)) => TwoMembers(lives, t, u);
      case (ByHandler(i), ByThread(u)) => assert i in frames && u in lives;
      case (ByThread(t), ByHandler(j)) => assert t in lives && j in frames;
    }
  }

  // ----- only the exclusive holder and a landing rename change a file -----

  /** The paths whose files a step may change. */
  function Touched(s: State, step: Step): set<Path>
    requires Enabled(s, step)
  {
    match step
    case Validate(i) => var req := s.sessions[i].handler.req; if req.op.Stor? then {req.path} else {}
    case Effect(i) => var req := s.sessions[i].handler.req; {req.path} + (if req.op.Rnto? then {req.op.to} else {})
    case ReceiveChunk(t, _) => {s.threads[t].params.path}
    case WriteFails(t, _) => {s.threads[t].params.path}
    case _ => {}
  }

  lemma UntouchedFiles(s: State, step: Step, p: Path)
    requires Enabled(s, step) && p !in Touched(s, step)
    ensures Content(NextFiles(s, step), p) == Content(s.files, p)
    ensures ContentOrEmpty(NextFiles(s, step), p) == ContentOrEmpty(s.files, p)
  {
  }

  function Mover(step: Step): Holder {
    if OfHandler(step) then ByHandler(step.i) else ByThread(step.t)
  }

  /** The step renames another file to this name: RNTO locks its source only. */
  predicate Lands(s: State, step: Step, p: Path)
    requires Enabled(s, step)
  {
    step.Effect? &&
    var req := s.sessions[step.i].handler.req;
    req.op.Rnto? && req.op.to == p && req.op.to != req.path
  }

  /** A step changes a file that somebody else has locked only if it is a rename that lands on it. */
  lemma OthersUntouched(s: State, step: Step, h: Holder)
    requires LocksAgree(s) && ShapesOk(s) && Enabled(s, step) && Present(s, h) && h != Mover(step)
    requires HolderGrant(s, h).Some? && HolderGrant(s, h).value.path in Touched(s, step)
    ensures Lands(s, step, HolderGrant(s, h).value.path)
  {
    var p := HolderGrant(s, h).value.path;
    if OfHandler(step) {
      if !Lands(s, step, p) { Excludes(s, Mover(step), h, p); }
    } else {
      assert ThreadShape(s.threads[step.t]);
      Excludes(s, Mover(step), h, p);
    }
  }

  // ----- the exact condition -----

  /** A rename that lands on a held file is harmless if it brings the contents the holder relies on. */
  ghost predicate Harmless(s: State, step: Step, h: Holder)
    requires Enabled(s, step) && Present(s, h)
  {
    HolderGrant(s, h).Some? && Lands(s, step, HolderGrant(s, h).value.path) ==>
      var p, brought := HolderGrant(s, h).value.path, s.files[s.sessions[step.i].handler.req.path];
      match h
      case ByHandler(j) => s.sessions[j].handler.Holding? ==> Content(s.files, p) == Some(brought)
      case ByThread(t) =>
        if s.threads[t].params.operation.SendFile? then Content(s.files, p) == Some(brought)
        else ContentOrEmpty(s.files, p) == brought
  }

  /** Where a lock is after a step: with the same holder, with the thread it was handed to, or given up. */
  function Follow(h: Holder, step: Step): Option<Holder> {
    match h
    case ByHandler(i) =>
      if step.HandOff? && step.i == i then Some(ByThread(step.t))
      else if (step.ReplyHeld? || step.ReleaseEarly?) && step.i == i then None
      else Some(h)
    case ByThread(t) => if step.Exit? && step.t == t then None else Some(h)
  }

  lemma FollowIsPresent(s: State, step: Step, h: Holder)
    requires Enabled(s, step) && Present(s, h) && Follow(h, step).Some?
    ensures Present(Next(s, step), Follow(h, step).value)
  {
  }

  lemma OwnHandlerStepOk(s: State, step: Step)
    requires ShapesOk(s) && Enabled(s, step) && OfHandler(step) && HandlerOk(s.sessions[step.i].handler, s.files)
    ensures HandlerOk(NextHandler(s, step).handler, NextFiles(s, step))
    ensures step.HandOff? ==> ThreadOk(NextThreads(s, step)[step.t], NextFiles(s, step))
  {
    assert HandlerShape(s.sessions[step.i].handler);
  }

  /** What a download has put on the wire, and the next piece of the file. */
  lemma SentMore(file: Bytes, ascii: bool, offset: nat, cur: nat, length: nat)
    requires offset <= cur && cur + length <= |file|
    ensures OnWire(ascii, file[offset..cur]) + OnWire(ascii, file[cur..cur + length])
            == OnWire(ascii, file[offset..cur + length])
  {
    assert file[offset..cur] + file[cur..cur + length] == file[offset..cur + length];
    LfToCrlfConcat(file[offset..cur], file[cur..cur + length]);
  }

  lemma SentIsFront(file: Bytes, ascii: bool, offset: nat, cur: nat)
    requires offset <= cur <= |file|
    ensures OnWire(ascii, file[offset..cur]) <= OnWire(ascii, file[offset..])
  {
    SentMore(file, ascii, offset, cur, |file| - cur);
    assert file[offset..cur + (|file| - cur)] == file[offset..];
  }

  lemma NextChunkIs(s: State, t: nat)
    requires ShapesOk(s) && t in s.threads && s.threads[t].phase.Moving? && s.threads[t].progress.Sent?
    requires ThreadOk(s.threads[t], s.files)
    ensures var me, p := s.threads[t], s.threads[t].progress;
      && me.params.operation.SendFile? && me.base.Some? && FileOk(me, s.files)
      && me.params.offset <= p.cur && p.cur + |NextChunk(s, me)| <= |me.base.value|
      && NextChunk(s, me) == me.base.value[p.cur..p.cur + |NextChunk(s, me)|] && |NextChunk(s, me)| <= p.remaining
  {
    assert ThreadShape(s.threads[t]);
  }

  /** Part of the next buffer behind the whole ones is still a front part of what is to be sent. */
  lemma PartBehind(file: Bytes, ascii: bool, offset: nat, cur: nat, chunk: Bytes, k: nat)
    requires offset <= cur && cur + |chunk| <= |file| && chunk == file[cur..cur + |chunk|]
    requires k <= |OnWire(ascii, chunk)|
    ensures OnWire(ascii, file[offset..cur]) + OnWire(ascii, chunk)[..k] <= OnWire(ascii, file[offset..])
  {
    hide OnWire;
    SentMore(file, ascii, offset, cur, |chunk|);
    SentIsFront(file, ascii, offset, cur + |chunk|);
    var wire := OnWire(ascii, chunk);
    assert OnWire(ascii, file[offset..cur]) + wire[..k] <= OnWire(ascii, file[offset..cur]) + wire by {
      assert wire == wire[..k] + wire[k..];
    }
  }

  lemma SendChunkOk(s: State, t: nat)
    requires ShapesOk(s) && Enabled(s, SendChunk(t)) && ThreadOk(s.threads[t], s.files)
    ensures ThreadOk(NextThread(s, SendChunk(t)), s.files)
  {
    hide OnWire, ShapesOk, NextChunk;
    var me, p := s.threads[t], s.threads[t].progress;
    NextChunkIs(s, t);
    SentMore(me.base.value, me.params.ascii, me.params.offset, p.cur, |NextChunk(s, me)|);
    SentIsFront(me.base.value, me.params.ascii, me.params.offset, p.cur + |NextChunk(s, me)|);
  }

  lemma SendFailsOk(s: State, t: nat, k: nat, result: Result)
    requires ShapesOk(s) && Enabled(s, SendFails(t, k, result)) && ThreadOk(s.threads[t], s.files)
    ensures ThreadOk(NextThread(s, SendFails(t, k, result)), s.files)
  {
    hide OnWire, ShapesOk, NextChunk;
    var me, p := s.threads[t], s.threads[t].progress;
    NextChunkIs(s, t);
    PartBehind(me.base.value, me.params.ascii, me.params.offset, p.cur, NextChunk(s, me), k);
  }

  lemma WriteOk(s: State, t: nat, data: Bytes)
    requires ShapesOk(s) && t in s.threads && s.threads[t].phase.Moving? && s.threads[t].progress.Received?
    requires ThreadOk(s.threads[t], s.files)
    ensures var me := s.threads[t];
      ContentOrEmpty(WriteFile(s.files, me, data), me.params.path)
      == Overlay(OrEmpty(me.base), me.params.offset, me.progress.written + data)
  {
    var me := s.threads[t];
    assert ThreadShape(me);
    OverlayAdjacent(OrEmpty(me.base), me.params.offset, me.progress.written, data);
  }

  lemma OpenOk(s: State, t: nat)
    requires ShapesOk(s) && Enabled(s, Open(t)) && ThreadOk(s.threads[t], s.files)
    ensures ThreadOk(NextThread(s, Open(t)), s.files)
  {
    var me := s.threads[t];
    assert ThreadShape(me);
    if me.params.operation.SendFile? {
      assert me.base.value[me.params.offset..me.params.offset] == [];
      SentIsFront(me.base.value, me.params.ascii, me.params.offset, me.params.offset);
    }
  }

  lemma OwnThreadStepOk(s: State, step: Step)
    requires ThreadsAgree(s) && ShapesOk(s) && Enabled(s, step) && !OfHandler(step)
             && ThreadOk(s.threads[step.t], s.files)
    ensures ThreadOk(NextThread(s, step), NextFiles(s, step))
  {
    hide OnWire, OnDisk, OnDiskAll, Overlay, NextChunk;
    var me := s.threads[step.t];
    assert ThreadShape(me);
    match step
    case SendChunk(t) => SendChunkOk(s, t);
    case SendFails(t, k, result) => SendFailsOk(s, t, k, result);
    case ReceiveChunk(t, data) => WriteOk(s, t, OnDisk(me.params.ascii, data));
    case WriteFails(t, data) => WriteOk(s, t, data);
    case Open(t) => OpenOk(s, t);
    case _ =>
  }

  lemma HandlerStaysOk(h: Handler, files: Files, files': Files)
    requires HandlerOk(h, files)
             && (HandlerGrant(h).Some? ==> Content(files', h.req.path) == Content(files, h.req.path))
    ensures HandlerOk(h, files')
  {
  }

  lemma ThreadStaysOk(me: Thread, files: Files, files': Files)
    requires ThreadOk(me, files)
    requires ThreadGrant(me).Some? ==> Content(files', me.params.path) == Content(files, me.params.path)
                                       && ContentOrEmpty(files', me.params.path)
                                         == ContentOrEmpty(files, me.params.path)
    ensures ThreadOk(me, files')
  {
  }

  lemma OthersStay(s: State, step: Step, h: Holder)
    requires Enabled(s, step) && Present(s, h) && h != Mover(step)
    ensures Present(Next(s, step), h)
    ensures h.ByHandler? ==> Next(s, step).sessions[h.i].handler == s.sessions[h.i].handler
    ensures h.ByThread? ==> Next(s, step).threads[h.t] == s.threads[h.t]
  {
  }

  /** A step that does not touch the file leaves its holder what it relies on. */
  lemma UntouchedStaysOk(s: State, step: Step, h: Holder)
    requires Enabled(s, step) && Present(s, h) && h != Mover(step) && HolderOk(s, h)
    requires HolderGrant(s, h).Some? ==> HolderGrant(s, h).value.path !in Touched(s, step)
    ensures Present(Next(s, step), h) && HolderOk(Next(s, step), h) && Harmless(s, step, h)
  {
    if HolderGrant(s, h).Some? { UntouchedFiles(s, step, HolderGrant(s, h).value.path); }
    OthersStay(s, step, h);
    hide NextFiles, NextHandler, NextOwner, NextThread, Enabled, OnWire, Overlay;
    if h.ByHandler? {
      HandlerStaysOk(s.sessions[h.i].handler, s.files, NextFiles(s, step));
    } else {
      ThreadStaysOk(s.threads[h.t], s.files, NextFiles(s, step));
    }
  }

  /** Somebody else's step leaves a holder what it relies on, unless a rename lands on its file with other contents. */
  lemma OthersStepIff(s: State, step: Step, h: Holder)
    requires LocksAgree(s) && ShapesOk(s) && Enabled(s, step) && Present(s, h) && h != Mover(step) && HolderOk(s, h)
    ensures Follow(h, step) == Some(h) && Present(Next(s, step), h)
    ensures HolderOk(Next(s, step), h) <==> Harmless(s, step, h)
  {
    hide ShapesOk, LocksAgree;
    if HolderGrant(s, h).Some? && HolderGrant(s, h).value.path in Touched(s, step) {
      OthersUntouched(s, step, h);
    } else {
      UntouchedStaysOk(s, step, h);
    }
  }

  /** After any step a holder can rely on its file exactly if the step was harmless to it. */
  lemma HolderOkIff(s: State, step: Step, h: Holder)
    requires ThreadsAgree(s) && LocksAgree(s) && ShapesOk(s) && Enabled(s, step) && Present(s, h) && HolderOk(s, h)
    requires Follow(h, step).Some?
    ensures Present(Next(s, step), Follow(h, step).value)
    ensures HolderOk(Next(s, step), Follow(h, step).value) <==> Harmless(s, step, h)
  {
    hide ShapesOk, LocksAgree, HandlerOk, ThreadOk;
    FollowIsPresent(s, step, h);
    if h != Mover(step) {
      OthersStepIff(s, step, h);
    } else if OfHandler(step) {
      OwnHandlerStepOk(s, step);
    } else {
      OwnThreadStepOk(s, step);
    }
  }

  /** Everybody can rely on their files after a step exactly if it was harmless to all. */
  lemma StoreOkIff(s: State, step: Step)
    requires ThreadsAgree(s) && LocksAgree(s) && ShapesOk(s) && StoreOk(s) && Enabled(s, step)
    ensures StoreOk(Next(s, step)) <==> forall h | Present(s, h) :: Harmless(s, step, h)
  {
    hide ThreadsAgree, LocksAgree, ShapesOk, HandlerOk, ThreadOk, Harmless;
    var s' := Next(s, step);
    forall h | Present(s, h)
      ensures Follow(h, step).Some? ==> Present(s', Follow(h, step).value)
      ensures Follow(h, step).Some? ==> (HolderOk(s', Follow(h, step).value) <==> Harmless(s, step, h))
      ensures Follow(h, step).None? ==> Harmless(s, step, h)
    {
      if Follow(h, step).Some? { HolderOkIff(s, step, h); } else { GivenUpIsHarmless(s, step, h); }
    }
    forall k | Present(s', k)
      ensures HolderOk(s', k) || exists h :: Present(s, h) && Follow(h, step) == Some(k)
    {
      Origin(s, step, k);
    }
  }

  lemma GivenUpIsHarmless(s: State, step: Step, h: Holder)
    requires Enabled(s, step) && Present(s, h) && !step.Effect?
    ensures Harmless(s, step, h)
  {
  }

  /** Whoever may hold a lock after a step held it before or was handed it, or holds none. */
  lemma Origin(s: State, step: Step, k: Holder)
    requires Enabled(s, step) && Present(Next(s, step), k)
    ensures HolderOk(Next(s, step), k) || exists h :: Present(s, h) && Follow(h, step) == Some(k)
  {
    if k.ByThread? {
      var h := if step.HandOff? && step.t == k.t then ByHandler(step.i) else k;
      assert Present(s, h) && Follow(h, step) == Some(k);
    } else if Follow(k, step) == Some(k) {
      assert Present(s, k);
    }
  }
}
