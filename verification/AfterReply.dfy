/**
 * Between the final reply of a transfer and the end of its thread (transfer_thread_func in server/src/transfer.c): the
 * client is answered before the lock is released and before the session is idle. A client that has its 226 and at once
 * asks for the same file may be told that it is busy, or that no transfer can be started; and a fresh STOR then loses
 * the file just stored.
 */
module AfterReply {
  import opened Common
  import opened LockSpec
  import opened FileStore
  import opened TransferProtocol
  import opened Isolation
  import opened ProtocolTheorems
  import opened HandlerRuns
  import opened TransferRuns

  /** From the command line to the start of a transfer there is only this way. */
  ghost predicate CanStart(s: State, i: nat) {
    exists t, u :: Run(s, [Acquire(i), Validate(i), HandOff(i, t)], u)
  }

  /** A transfer command is not refused exactly if its lock is free, the file as it should be, and the session idle. */
  lemma CanStartIff(s: State, i: nat)
    requires i < |s.sessions| && s.sessions[i].handler.Started? && OperationOf(s.sessions[i].handler.req.op).Some?
    ensures var req := s.sessions[i].handler.req;
      CanStart(s, i) <==> Grantable(s.locks, req) && Validates(s.files, req) && s.sessions[i].threadState.Idle?
  {
    hide Run, CanAcquire, TryAcquire, LocksWith, Validates, ValidatedFiles, Content, ParamsOf;
    var req := s.sessions[i].handler.req;
    if CanStart(s, i) {
      var t, u :| Run(s, [Acquire(i), Validate(i), HandOff(i, t)], u);
      ThreeSteps(s, Acquire(i), Validate(i), HandOff(i, t), u);
    }
    if Grantable(s.locks, req) && Validates(s.files, req) && s.sessions[i].threadState.Idle? {
      var t := FreshNumber(s.threads.Keys);
      var s1 := Next(s, Acquire(i));
      var s2 := Next(s1, Validate(i));
      ThreeSteps(s, Acquire(i), Validate(i), HandOff(i, t), Next(s2, HandOff(i, t)));
    }
  }

  lemma ThreeSteps(s: State, a: Step, b: Step, c: Step, u: State)
    ensures Run(s, [a, b, c], u)
            <==> Enabled(s, a) && Enabled(Next(s, a), b) && Enabled(Next(Next(s, a), b), c)
                 && u == Next(Next(Next(s, a), b), c)
  {
    hide Enabled, Next;
    assert [a, b, c][1..] == [b, c] && [b, c][1..] == [c] && [c][1..] == [];
    if Enabled(s, a) && Enabled(Next(s, a), b) {
      assert Run(Next(Next(s, a), b), [c], u) == Run(Next(s, a), [b, c], u) == Run(s, [a, b, c], u);
    }
  }

  /**
   * As long as the thread exists its session is not idle; so whatever it has told the client, no other transfer can
   * start.
   */
  lemma RefusedUntilExit(s: State, i: nat, t: nat)
    requires Reachable(s) && t in s.threads && s.threads[t].owner == i < |s.sessions|
    requires s.sessions[i].handler.Started? && OperationOf(s.sessions[i].handler.req.op).Some?
    ensures !CanStart(s, i)
  {
    hide Enabled, Next;
    OneThreadPerSession(s, i);
    CanStartIff(s, i);
  }

  /**
   * Until it unlocks, the file it held is busy to all but readers beside a reader, though the client has its final
   * reply.
   */
  lemma BusyUntilUnlock(s: State, t: nat, mode: Mode)
    requires Reachable(s) && t in s.threads && s.threads[t].phase.Announced? && ThreadGrant(s.threads[t]).Some?
    ensures var g := ThreadGrant(s.threads[t]).value;
      CanAcquire(s.locks, g.path, mode) ==> g.mode.Shared? && mode.Shared?
  {
    var g := ThreadGrant(s.threads[t]).value;
    LocksMatchHolders(s, g.path);
    Counted(s, ByThread(t));
  }

  /** A fresh STOR gets its lock and starts its thread. */
  lemma UploadStarts(s: State, i: nat, req: Request) returns (t: nat, u: State)
    requires i < |s.sessions| && s.sessions[i].handler.Waiting? && s.sessions[i].threadState.Idle?
    requires req.op.Stor? && req.offset == 0 && CanAcquire(s.locks, req.path, Exclusive)
    ensures var me := s.sessions[i];
      Busy(s, i, t, u, me.(threadState := Starting, params := Some(ParamsOf(req)), handled := me.handled + 1),
           Thread(i, ParamsOf(req), None, Spawned, NoProgress), TryAcquire(s.locks, req.path, Exclusive),
           s.files - {req.path})
  {
    hide DealsWith, TryAcquire, CanAcquire;
    t := FreshNumber(s.threads.Keys);
    var held := HoldsChecked(s, i, req);
    DealsNext(s, i, req, held, HandOff(i, t));
    u := Next(held, HandOff(i, t));
    DealsReaches(s, i, t, req, u);
  }

  /** It begins with nothing stored. */
  lemma UploadBegins(s: State, i: nat, t: nat, u: State, boss: Session, me: Thread, locks: LockMap, files: Files)
    returns (v: State)
    requires Busy(s, i, t, u, boss, me, locks, files) && !boss.shouldAbort && me.phase.Spawned?
    requires boss.params == Some(me.params) && me.params.operation.ReceiveFile?
    ensures Busy(s, i, t, v, boss.(threadState := Running), me.(phase := Moving, progress := Received([], [])), locks,
                 files)
  {
    hide Reaches;
    v := BusyNext(s, i, t, u, Begin(t));
    v := UploadOpens(s, i, t, v, boss.(threadState := Running), me.(phase := Begun), locks, files);
  }

  /** It receives one segment and the end of the data. */
  lemma UploadStores(s: State, i: nat, t: nat, u: State, boss: Session, me: Thread, locks: LockMap, files: Files,
                     data: Bytes)
    returns (v: State, moved: Progress)
    requires Busy(s, i, t, u, boss, me, locks, files) && !boss.shouldAbort
    requires me.phase.Spawned? && boss.params == Some(me.params) && me.params.operation.ReceiveFile?
             && me.params.offset == 0
    requires 0 < |data| <= TRANSFER_BUFFER_SIZE && me.params.path !in files
    ensures Busy(s, i, t, v, boss.(threadState := Running), me.(phase := Finished(Ok), progress := moved), locks,
                 files[me.params.path := OnDisk(me.params.ascii, data)])
  {
    hide Reaches, OnDisk, Overlay;
    v := UploadBegins(s, i, t, u, boss, me, locks, files);
    var running, moving := boss.(threadState := Running), me.(phase := Moving, progress := Received([], []));
    var files1;
    v, moved, files1 := ReceivesAll(s, i, t, v, running, moving, locks, files, [data]);
    OneOnDisk(me.params.ascii, data);
    AppendAndFresh([], OnDisk(me.params.ascii, data));
    v := BusyNext(s, i, t, v, Finish(t));
  }

  lemma OneOnDisk(ascii: bool, data: Bytes)
    ensures OnDiskAll(ascii, [data]) == OnDisk(ascii, data)
  {
    hide OnDisk;
    OnDiskAllSplits(ascii, [data]);
    assert [data][1..] == [];
    NothingOnDisk(ascii, [], 0);
    NoneAfter(OnDisk(ascii, data));
  }

  lemma Replaced(files: Files, p: Path, data: Bytes)
    ensures (files - {p})[p := data] == files[p := data]
  {
  }

  /** The reply, and the release of the lock. */
  lemma AnswersAndUnlocks(s: State, i: nat, t: nat, u: State, boss: Session, me: Thread, locks: LockMap, files: Files)
    returns (v: State)
    requires Busy(s, i, t, u, boss, me, locks, files) && me.phase == Finished(Ok)
    requires me.params.operation.ReceiveFile? && me.params.lockAcquired
    ensures Busy(s, i, t, v, boss.(finals := boss.finals + 1), me.(phase := Unlocked(Ok)),
                 Release(locks, me.params.path, Exclusive), files)
  {
    hide Reaches, Release;
    v := BusyNext(s, i, t, u, Announce(t, true));
    v := BusyNext(s, i, t, v, Unlock(t));
  }

  /** A fresh upload of one segment, up to the point where it has answered 226 and given its lock back. */
  lemma UploadIsAnswered(s: State, i: nat, req: Request, data: Bytes) returns (t: nat, u: State)
    requires i < |s.sessions| && s.sessions[i].handler.Waiting? && s.sessions[i].threadState.Idle?
    requires !s.sessions[i].shouldAbort && req.op.Stor? && req.offset == 0
    requires Sound(s.locks) && CanAcquire(s.locks, req.path, Exclusive) && 0 < |data| <= TRANSFER_BUFFER_SIZE
    ensures Reaches(s, i, Some(t), u) && u.locks == s.locks && i < |u.sessions| && t in u.threads
    ensures u.files == s.files[req.path := OnDisk(req.ascii, data)]
    ensures u.threads[t].owner == i && u.threads[t].phase == Unlocked(Ok)
    ensures u.sessions[i].handler.Waiting? && !u.sessions[i].threadState.Idle?
            && u.sessions[i].handled == s.sessions[i].handled + 1 && u.sessions[i].finals == s.sessions[i].finals + 1
  {
    ReleaseUndoesAcquire(s.locks, req.path, Exclusive);
    hide Reaches, TryAcquire, CanAcquire, Release, Sound, OnDisk;
    var boss :=
      s.sessions[i].(threadState := Starting, params := Some(ParamsOf(req)), handled := s.sessions[i].handled + 1);
    var me := Thread(i, ParamsOf(req), None, Spawned, NoProgress);
    var moved;
    t, u := UploadStarts(s, i, req);
    u, moved :=
      UploadStores(s, i, t, u, boss, me, TryAcquire(s.locks, req.path, Exclusive), s.files - {req.path}, data);
    Replaced(s.files, req.path, OnDisk(req.ascii, data));
    u := AnswersAndUnlocks(s, i, t, u, boss.(threadState := Running), me.(phase := Finished(Ok), progress := moved),
                           TryAcquire(s.locks, req.path, Exclusive), u.files);
  }

  /**
   * From every state in which a session rests and may store a file: a run in which it stores the file and is answered
   * that the transfer is complete, and its next command, a STOR of the same file, is answered by an error and leaves no
   * file at all.
   */
  lemma AnsweredUploadCanBeLost(s: State, i: nat, req: Request, data: Bytes)
    requires i < |s.sessions| && s.sessions[i].handler.Waiting? && s.sessions[i].threadState.Idle?
    requires !s.sessions[i].shouldAbort && req.op.Stor? && req.offset == 0
    requires Sound(s.locks) && CanAcquire(s.locks, req.path, Exclusive) && 0 < |data| <= TRANSFER_BUFFER_SIZE
    ensures exists t, u, v ::
              && Reaches(s, i, Some(t), u) && i < |u.sessions| && t in u.threads && u.threads[t].phase == Unlocked(Ok)
              && Content(u.files, req.path) == Some(OnDisk(req.ascii, data))
              && u.sessions[i].finals == s.sessions[i].finals + 1 && u.sessions[i].handler.Waiting?
              && DealsWith(u, i, req, v) && req.path !in v.files && v.locks == s.locks
              && i < |v.sessions| && v.sessions[i].finals == s.sessions[i].finals + 2 && v.sessions[i].handler.Waiting?
  {
    var t, u := UploadIsAnswered(s, i, req, data);
    ReleaseUndoesAcquire(s.locks, req.path, Exclusive);
    hide Reaches, DealsWith, Release, Sound, OnDisk;
    var changed := Changed(u, i, req);
    var v := Released(u, i, req, changed, true);
    assert Reaches(s, i, Some(t), u) && DealsWith(u, i, req, v);
  }
}
