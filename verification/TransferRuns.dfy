/**
 * What the transfer thread of Handlers does is what TransferProtocol says it may do: every outcome of a transfer is a
 * run of that session's transfer thread, which on the way has passed on exactly the bytes the socket was given, or
 * received the segments that arrived.
 */
module TransferRuns {
  import opened Common
  import opened LineEndings
  import opened LockSpec
  import opened FileStore
  import opened TransferProtocol
  import opened Isolation
  import opened HandlerRuns
  import H = Handlers
  import T = Transfer

  // ----- a session in the middle of a transfer -----

  /** One session, its thread, and what all of them share, in a state these two alone have led to. */
  datatype Glance = Glance(boss: Session, me: Thread, locks: LockMap, files: Files)

  ghost function GlanceAt(s: State, i: nat, t: nat, u: State): Option<Glance> {
    if Reaches(s, i, Some(t), u) && i < |u.sessions| && t in u.threads && u.threads[t].owner == i then
      Some(Glance(u.sessions[i], u.threads[t], u.locks, u.files))
    else None
  }

  ghost predicate Busy(s: State, i: nat, t: nat, u: State, boss: Session, me: Thread, locks: LockMap, files: Files) {
    GlanceAt(s, i, t, u) == Some(Glance(boss, me, locks, files))
  }

  /** One step of the thread. */
  lemma BusyNext(s: State, i: nat, t: nat, u: State, step: Step) returns (v: State)
    requires Reaches(s, i, Some(t), u) && i < |u.sessions| && t in u.threads && u.threads[t].owner == i
    requires !OfHandler(step) && step.t == t && ThreadEnabled(u, step) && !step.Exit?
    ensures v == Next(u, step)
    ensures Busy(s, i, t, v, NextOwner(u, step), NextThread(u, step), NextLocks(u, step), NextFiles(u, step))
  {
    hide Reaches;
    ReachesNext(s, i, Some(t), u, step);
    v := Next(u, step);
  }

  /** While the thread runs, the same client's ABOR is received, raises the flag and is answered. */
  lemma AbortArrives(s: State, i: nat, t: nat, u: State, boss: Session, me: Thread, locks: LockMap, files: Files)
    returns (v: State, boss': Session)
    requires Busy(s, i, t, u, boss, me, locks, files)
    requires boss.handler.Waiting? && boss.threadState.Running?
    ensures Busy(s, i, t, v, boss', me, locks, files)
    ensures boss' == boss.(shouldAbort := true, handled := boss.handled + 1, finals := boss.finals + 1)
  {
    hide DealsWith, Reaches;
    var req := Request(Abor, "", 0, false);
    var flagged := Flagged(u, i, req, true, false);
    DealsNext(u, i, req, flagged, Reject(i, true));
    v := Next(flagged, Reject(i, true));
    boss' := v.sessions[i];
    DealsReaches(u, i, t, req, v);
    ReachesOn(s, i, Some(t), u, v);
  }

  lemma DealsReaches(s: State, i: nat, t: nat, req: Request, u: State)
    requires DealsWith(s, i, req, u)
    ensures Reaches(s, i, Some(t), u)
  {
    var s1 := Next(s, Receive(i, req));
    var steps :| Run(s1, steps, u) && forall step | step in steps :: OfSession(i, None, step);
    assert Reaches(s1, i, Some(t), u);
    ReachesItself(s, i, Some(t));
    ReachesNext(s, i, Some(t), s, Receive(i, req));
    ReachesOn(s, i, Some(t), s1, u);
  }

  // ----- how the transfer fails -----

  /**
   * The session when its transfer has found this result: one that is aborted has handled the ABOR, unless the flag was
   * up.
   */
  function Interrupted(boss: Session, result: Result): Session {
    if result.WasAborted? && !boss.shouldAbort then
      boss.(shouldAbort := true, handled := boss.handled + 1, finals := boss.finals + 1)
    else boss
  }

  lemma Interrupts(s: State, i: nat, t: nat, u: State, boss: Session, me: Thread, locks: LockMap, files: Files,
                   result: Result)
    returns (v: State)
    requires Busy(s, i, t, u, boss, me, locks, files) && boss.threadState.Running?
    requires result.WasAborted? && !boss.shouldAbort ==> boss.handler.Waiting?
    ensures Busy(s, i, t, v, Interrupted(boss, result), me, locks, files)
  {
    v := u;
    if result.WasAborted? && !boss.shouldAbort {
      var boss';
      v, boss' := AbortArrives(s, i, t, u, boss, me, locks, files);
    }
  }

  lemma Fails(s: State, i: nat, t: nat, u: State, boss: Session, me: Thread, locks: LockMap, files: Files,
              result: Result)
    returns (v: State)
    requires Busy(s, i, t, u, boss, me, locks, files) && boss.threadState.Running?
    requires result.WasAborted? && !boss.shouldAbort ==> boss.handler.Waiting?
    requires (me.phase.Begun? || me.phase.Moving?) && !result.Ok?
    ensures Busy(s, i, t, v, Interrupted(boss, result), me.(phase := Finished(result)), locks, files)
  {
    hide Reaches;
    v := Interrupts(s, i, t, u, boss, me, locks, files, result);
    v := BusyNext(s, i, t, v, Fail(t, result));
  }

  // ----- downloads -----

  lemma NextIsSlice(u: State, me: Thread)
    requires me.progress.Sent? && me.params.path in u.files
    requires me.progress.cur + me.progress.remaining == |u.files[me.params.path]|
    ensures var file, cur, chunk := u.files[me.params.path], me.progress.cur, NextChunk(u, me);
      && cur + |chunk| <= |file| && chunk == file[cur..cur + |chunk|] && (me.progress.remaining > 0 <==> chunk != [])
  {
  }

  lemma WireSplits(ascii: bool, file: Bytes, cur: nat, n: nat)
    requires cur + n <= |file|
    ensures OnWire(ascii, file[cur..]) == OnWire(ascii, file[cur..cur + n]) + OnWire(ascii, file[cur + n..])
    ensures OnWire(ascii, []) == []
  {
    assert file[cur..] == file[cur..cur + n] + file[cur + n..];
    LfToCrlfConcat(file[cur..cur + n], file[cur + n..]);
  }

  /** The next buffer of a download, and the bytes on the wire for it and for the rest of the file. */
  lemma NextOnWire(u: State, me: Thread)
    requires me.progress.Sent? && me.params.path in u.files
    requires me.progress.cur + me.progress.remaining == |u.files[me.params.path]|
    ensures var file, cur, chunk := u.files[me.params.path], me.progress.cur, NextChunk(u, me);
      && cur + |chunk| <= |file| && (me.progress.remaining > 0 ==> chunk != [])
      && OnWire(me.params.ascii, file[cur..])
         == OnWire(me.params.ascii, chunk) + OnWire(me.params.ascii, file[cur + |chunk|..])
      && (me.progress.remaining == 0 ==> OnWire(me.params.ascii, file[cur..]) == [] == OnWire(me.params.ascii, chunk))
  {
    hide OnWire, NextChunk;
    NextIsSlice(u, me);
    var file, cur := u.files[me.params.path], me.progress.cur;
    WireSplits(me.params.ascii, file, cur, |NextChunk(u, me)|);
    if me.progress.remaining == 0 { assert file[cur..] == []; }
  }

  lemma SplitFront(bytes: Bytes, x: Bytes, y: Bytes)
    requires bytes <= x + y && |x| <= |bytes|
    ensures bytes == x + bytes[|x|..] && bytes[|x|..] <= y
    ensures bytes == x + y ==> bytes[|x|..] == y
  {
    assert x + y == bytes + (x + y)[|bytes|..];
    assert (x + y)[..|x|] == x;
  }

  lemma WithinFront(bytes: Bytes, x: Bytes, y: Bytes)
    requires bytes <= x + y && (|bytes| < |x| || x + y == [])
    ensures bytes <= x && (|bytes| < |x| ==> bytes != x + y)
  {
    assert x + y == bytes + (x + y)[|bytes|..];
    assert (x + y)[..|x|] == x;
  }

  /** A download passes on whole buffers as far as the given bytes go; `left` is the part of one more. */
  lemma {:induction false} SendsUpTo(s: State, i: nat, t: nat, u: State, boss: Session, me: Thread, locks: LockMap,
                                     files: Files, bytes: Bytes)
    returns (v: State, moved: Progress, left: Bytes)
    requires Busy(s, i, t, u, boss, me, locks, files)
    requires me.phase.Moving? && me.progress.Sent? && me.params.path in files
    requires me.progress.cur + me.progress.remaining == |files[me.params.path]|
    requires bytes <= OnWire(me.params.ascii, files[me.params.path][me.progress.cur..])
    ensures Busy(s, i, t, v, boss, me.(progress := moved), locks, files)
    ensures moved.Sent? && moved.data + left == me.progress.data + bytes
    ensures left <= OnWire(me.params.ascii, NextChunk(v, me.(progress := moved)))
    ensures bytes == OnWire(me.params.ascii, files[me.params.path][me.progress.cur..]) ==>
              moved.remaining == 0 && left == []
    decreases me.progress.remaining
  {
    hide Reaches, OnWire, NextChunk;
    var wire := OnWire(me.params.ascii, NextChunk(u, me));
    var rest := OnWire(me.params.ascii, u.files[me.params.path][me.progress.cur + |NextChunk(u, me)|..]);
    NextOnWire(u, me);
    v, moved, left := u, me.progress, bytes;
    if me.progress.remaining > 0 && |wire| <= |bytes| {
      SplitFront(bytes, wire, rest);
      v := BusyNext(s, i, t, u, SendChunk(t));
      v, moved, left := SendsUpTo(s, i, t, v, boss, NextThread(u, SendChunk(t)), locks, files, bytes[|wire|..]);
      Regroup(me.progress.data, wire, bytes[|wire|..]);
    } else {
      WithinFront(bytes, wire, rest);
    }
  }

  /** The bytes a thread has passed on. */
  function Passed(progress: Progress): Bytes { if progress.Sent? then progress.data else [] }

  lemma DownloadFails(s: State, i: nat, t: nat, u: State, boss: Session, me: Thread, locks: LockMap, files: Files,
                      result: Result, sent: Bytes)
    returns (v: State, moved: Progress)
    requires Busy(s, i, t, u, boss, me, locks, files) && boss.threadState.Running?
    requires me.phase.Begun? && me.progress.NoProgress? && me.params.operation.SendFile? && !result.Ok?
    requires result.WasAborted? && !boss.shouldAbort ==> boss.handler.Waiting?
    requires if me.params.path in files && me.params.offset <= |files[me.params.path]| then
               sent <= OnWire(me.params.ascii, files[me.params.path][me.params.offset..])
             else sent == []
    ensures Passed(moved) == sent
    ensures Busy(s, i, t, v, Interrupted(boss, result), me.(phase := Finished(result), progress := moved), locks, files)
  {
    hide Reaches, OnWire;
    moved := me.progress;
    if sent == [] {
      v := Fails(s, i, t, u, boss, me, locks, files, result);
    } else {
      v := BusyNext(s, i, t, u, Open(t));
      var moving, left := NextThread(u, Open(t)), [];
      v, moved, left := SendsUpTo(s, i, t, v, boss, moving, locks, files, sent);
      moving := moving.(progress := moved);
      var before := v;
      v := Interrupts(s, i, t, v, boss, moving, locks, files, result);
      SameChunk(before, v, moving);
      v := BusyNext(s, i, t, v, SendFails(t, |left|, result));
      var wire := OnWire(me.params.ascii, NextChunk(before, moving));
      assert wire[..|left|] == left;
      moved := moved.(data := moved.data + left);
    }
  }

  lemma SameChunk(u: State, v: State, me: Thread)
    requires me.progress.Sent? && u.files == v.files
    ensures NextChunk(u, me) == NextChunk(v, me)
  {
  }

  lemma DownloadEnds(s: State, i: nat, t: nat, u: State, boss: Session, me: Thread, locks: LockMap, files: Files)
    returns (v: State, moved: Progress)
    requires Busy(s, i, t, u, boss, me, locks, files)
    requires me.phase.Begun? && me.params.operation.SendFile?
    requires me.params.path in files && me.params.offset <= |files[me.params.path]|
    ensures Passed(moved) == OnWire(me.params.ascii, files[me.params.path][me.params.offset..])
    ensures Busy(s, i, t, v, boss, me.(phase := Finished(Ok), progress := moved), locks, files)
  {
    hide Reaches, OnWire;
    var bytes := OnWire(me.params.ascii, files[me.params.path][me.params.offset..]);
    v := BusyNext(s, i, t, u, Open(t));
    var left;
    v, moved, left := SendsUpTo(s, i, t, v, boss, NextThread(u, Open(t)), locks, files, bytes);
    assert [] + bytes == bytes;
    v := BusyNext(s, i, t, v, Finish(t));
  }

  // ----- uploads -----

  lemma NothingOnDisk(ascii: bool, was: Bytes, offset: nat)
    ensures OnDiskAll(ascii, []) == [] && Overlay(was, offset, []) == was
  {
  }

  lemma OnDiskAllSplits(ascii: bool, segments: seq<Bytes>)
    requires segments != []
    ensures OnDiskAll(ascii, segments) == OnDisk(ascii, segments[0]) + OnDiskAll(ascii, segments[1..])
  {
  }

  lemma NoneAfter<X>(x: seq<X>)
    ensures x + [] == x
  {
  }

  /** A first segment stored and then the others are all of them stored. */
  lemma StoredInTurn(files: Files, me: Thread, segments: seq<Bytes>, files1: Files, files2: Files)
    requires segments != [] && me.progress.Received?
    requires files1 == WriteFile(files, me, OnDisk(me.params.ascii, segments[0]))
    requires var p, w := me.params, me.progress.written + OnDisk(me.params.ascii, segments[0]);
      files2 == if segments[1..] == [] then files1
                else files1[p.path := Overlay(ContentOrEmpty(files1, p.path), p.offset + |w|,
                                              OnDiskAll(p.ascii, segments[1..]))]
    ensures var p, w := me.params, me.progress.written;
      && files2 == files[p.path := Overlay(ContentOrEmpty(files, p.path), p.offset + |w|, OnDiskAll(p.ascii, segments))]
      && w + OnDisk(p.ascii, segments[0]) + OnDiskAll(p.ascii, segments[1..]) == w + OnDiskAll(p.ascii, segments)
  {
    hide Overlay, OnDisk, OnDiskAll;
    var p, w, first := me.params, me.progress.written, OnDisk(me.params.ascii, segments[0]);
    var rest := OnDiskAll(p.ascii, segments[1..]);
    OnDiskAllSplits(p.ascii, segments);
    Regroup(w, first, rest);
    OverlayAdjacentAnywhere(ContentOrEmpty(files, p.path), p.offset + |w|, first, rest);
    if segments[1..] == [] {
      NothingOnDisk(p.ascii, [], 0);
      NoneAfter(first);
    }
  }

  /** An upload stores one segment after another. */
  lemma {:induction false} ReceivesAll(s: State, i: nat, t: nat, u: State, boss: Session, me: Thread, locks: LockMap,
                                       files: Files, segments: seq<Bytes>)
    returns (v: State, moved: Progress, files': Files)
    requires Busy(s, i, t, u, boss, me, locks, files)
    requires me.phase.Moving? && me.progress.Received?
    requires forall k | 0 <= k < |segments| :: 0 < |segments[k]| <= TRANSFER_BUFFER_SIZE
    ensures Busy(s, i, t, v, boss, me.(progress := moved), locks, files')
    ensures moved == Received(me.progress.segments + segments,
                                 me.progress.written + OnDiskAll(me.params.ascii, segments))
    ensures files' == if segments == [] then files
                      else files[me.params.path := Overlay(ContentOrEmpty(files, me.params.path),
                                                           me.params.offset + |me.progress.written|,
                                                           OnDiskAll(me.params.ascii, segments))]
    decreases |segments|
  {
    hide Reaches, Overlay, OnDisk, OnDiskAll, WriteFile;
    v, moved, files' := u, me.progress, files;
    if segments == [] {
      NothingOnDisk(me.params.ascii, [], 0);
      NoneAfter(me.progress.written);
      NoneAfter(me.progress.segments);
    } else {
      v := BusyNext(s, i, t, u, ReceiveChunk(t, segments[0]));
      var files1, me1 := v.files, NextThread(u, ReceiveChunk(t, segments[0]));
      assert Busy(s, i, t, v, boss, me1, locks, files1);
      hide Busy, ThreadEnabled, Next;
      v, moved, files' := ReceivesAll(s, i, t, v, boss, me1, locks, files1, segments[1..]);
      StoredInTurn(files, me, segments, files1, files');
      Regroup(me.progress.segments, [segments[0]], segments[1..]);
      assert [segments[0]] + segments[1..] == segments;
    }
  }

  /** What is written for a piece of the stream is no longer than the piece. */
  lemma OnDiskIsNoLonger(ascii: bool, piece: Bytes)
    ensures |OnDisk(ascii, piece)| <= |piece|
  {
    CrlfToLfLength(piece);
  }

  lemma PartialFits(p: Params, arriving: Bytes, segments: seq<Bytes>, partial: Bytes)
    requires partial != [] ==> exists piece :: T.PartOf(partial, piece, p.ascii, Flatten(segments), arriving)
    ensures |partial| <= TRANSFER_BUFFER_SIZE
  {
    if partial != [] {
      var piece :| T.PartOf(partial, piece, p.ascii, Flatten(segments), arriving);
      OnDiskIsNoLonger(p.ascii, piece);
    }
  }

  /** Part of what the last write was to store is stored, and the upload fails. */
  lemma PartWritten(s: State, i: nat, t: nat, u: State, boss: Session, me: Thread, locks: LockMap, was: Files,
                    files: Files, arriving: Bytes, segments: seq<Bytes>, partial: Bytes)
    returns (v: State)
    requires Busy(s, i, t, u, boss, me, locks, files) && me.phase.Moving?
             && me.progress.Received?
    requires partial != [] ==> exists piece :: T.PartOf(partial, piece, me.params.ascii, Flatten(segments), arriving)
    requires files == was || files == was[me.params.path := ContentOrEmpty(files, me.params.path)]
    requires ContentOrEmpty(files, me.params.path)
             == Overlay(ContentOrEmpty(was, me.params.path), me.params.offset, me.progress.written)
    ensures Busy(s, i, t, v, boss,
                 me.(phase := Finished(IoError), progress := me.progress.(written := me.progress.written + partial)),
                 locks,
                 was[me.params.path := Overlay(ContentOrEmpty(was, me.params.path), me.params.offset,
                                               me.progress.written + partial)])
  {
    hide Reaches, Overlay, OnDiskAll, OnDisk;
    PartialFits(me.params, arriving, segments, partial);
    OverlayAdjacentAnywhere(ContentOrEmpty(was, me.params.path), me.params.offset, me.progress.written, partial);
    v := BusyNext(s, i, t, u, WriteFails(t, partial));
    assert v.files == was[me.params.path := ContentOrEmpty(v.files, me.params.path)];
  }

  /** The segments have been stored; what follows is part of a failed write, the end, or a failure. */
  lemma UploadEnds(s: State, i: nat, t: nat, u: State, boss: Session, me: Thread, locks: LockMap, was: Files,
                   files: Files, files': Files, c: H.Course)
    returns (v: State)
    requires Busy(s, i, t, u, boss, me, locks, files) && boss.threadState.Running?
    requires c.result.WasAborted? && !boss.shouldAbort ==> boss.handler.Waiting?
    requires boss.shouldAbort ==> !c.result.Ok?
    requires me.phase.Moving? && me.progress == Received(c.segments, OnDiskAll(me.params.ascii, c.segments))
    requires T.Stored(was, files', me.params.path, me.params.offset, me.params.ascii, c.arriving, c.result, c.segments,
                      c.partial)
    requires files == if c.segments == [] then was
                      else was[me.params.path := Overlay(ContentOrEmpty(was, me.params.path), me.params.offset,
                                                         OnDiskAll(me.params.ascii, c.segments))]
    ensures var progress := Received(c.segments, OnDiskAll(me.params.ascii, c.segments) + c.partial);
      Busy(s, i, t, v, Interrupted(boss, c.result), me.(phase := Finished(c.result), progress := progress), locks,
           files')
  {
    hide Reaches, Overlay, OnDiskAll, OnDisk, T.PartOf;
    var stored := OnDiskAll(me.params.ascii, c.segments);
    NothingOnDisk(me.params.ascii, ContentOrEmpty(was, me.params.path), me.params.offset);
    if c.partial != [] || (c.segments == [] && files' != was) {
      v := PartWritten(s, i, t, u, boss, me, locks, was, files, c.arriving, c.segments, c.partial);
    } else {
      assert stored + c.partial == stored;
      if c.result.Ok? {
        v := BusyNext(s, i, t, u, Finish(t));
      } else {
        v := Fails(s, i, t, u, boss, me, locks, files, c.result);
      }
    }
  }

  /** An upload stores its segments; if the last write fails, part of what it was to write. */
  lemma UploadMoves(s: State, i: nat, t: nat, u: State, boss: Session, me: Thread, locks: LockMap, files: Files,
                    files': Files, c: H.Course)
    returns (v: State, moved: Progress)
    requires Busy(s, i, t, u, boss, me, locks, files) && boss.threadState.Running?
    requires c.result.WasAborted? && !boss.shouldAbort ==> boss.handler.Waiting?
    requires me.phase.Begun? && me.params.operation.ReceiveFile? && (boss.shouldAbort ==> !c.result.Ok?)
    requires T.Stored(files, files', me.params.path, me.params.offset, me.params.ascii, c.arriving, c.result,
                      c.segments, c.partial)
    ensures moved == Received(c.segments, OnDiskAll(me.params.ascii, c.segments) + c.partial)
    ensures Busy(s, i, t, v, Interrupted(boss, c.result), me.(phase := Finished(c.result), progress := moved), locks,
                 files')
  {
    assert forall k | 0 <= k < |c.segments| :: 0 < |c.segments[k]| <= TRANSFER_BUFFER_SIZE;
    hide Reaches, Overlay, OnDiskAll, T.Stored, Busy, ThreadEnabled, Next;
    v := UploadOpens(s, i, t, u, boss, me, locks, files);
    var moving := me.(phase := Moving, progress := Received([], []));
    var stored := OnDiskAll(me.params.ascii, c.segments);
    var files1;
    v, moved, files1 := ReceivesAll(s, i, t, v, boss, moving, locks, files, c.segments);
    AfterNone(c.segments);
    AfterNone(stored);
    v := UploadEnds(s, i, t, v, boss, moving.(progress := moved), locks, files, files1, files', c);
    moved := Received(c.segments, stored + c.partial);
  }

  lemma AfterNone<X>(x: seq<X>)
    ensures [] + x == x
  {
  }

  lemma UploadOpens(s: State, i: nat, t: nat, u: State, boss: Session, me: Thread, locks: LockMap, files: Files)
    returns (v: State)
    requires Busy(s, i, t, u, boss, me, locks, files)
    requires me.phase.Begun? && me.params.operation.ReceiveFile?
    ensures Busy(s, i, t, v, boss, me.(phase := Moving, progress := Received([], [])), locks, files)
  {
    hide Reaches;
    v := BusyNext(s, i, t, u, Open(t));
  }

  // ----- every outcome of a transfer is a run of its thread -----

  /** The thread has moved exactly what the transfer has. */
  predicate Carried(p: Params, progress: Progress, c: H.Course) {
    match p.operation
    case SendFile => Passed(progress) == c.sent
    case ReceiveFile => progress == Received(c.segments, OnDiskAll(p.ascii, c.segments) + c.partial)
    case SendList => true
  }

  /** The transfer itself, whatever it has moved. */
  lemma MoveIsARun(s: State, i: nat, t: nat, u: State, boss: Session, me: Thread, locks: LockMap, files: Files,
                   files': Files, c: H.Course)
    returns (v: State, moved: Progress)
    requires Busy(s, i, t, u, boss, me, locks, files) && boss.threadState.Running?
    requires c.result.WasAborted? && !boss.shouldAbort ==> boss.handler.Waiting?
    requires me.phase.Begun? && me.progress.NoProgress? && H.Moved(me.params, files, files', c)
    requires me.params.operation.ReceiveFile? && boss.shouldAbort ==> !c.result.Ok?
    ensures Carried(me.params, moved, c)
    ensures Busy(s, i, t, v, Interrupted(boss, c.result), me.(phase := Finished(c.result), progress := moved), locks,
                 files')
  {
    hide Reaches, T.Stored, OnWire, OnDiskAll;
    moved := me.progress;
    if me.params.operation.ReceiveFile? {
      v, moved := UploadMoves(s, i, t, u, boss, me, locks, files, files', c);
    } else if me.params.operation.SendFile? {
      if c.result.Ok? {
        v, moved := DownloadEnds(s, i, t, u, boss, me, locks, files);
      } else {
        v, moved := DownloadFails(s, i, t, u, boss, me, locks, files, c.result, c.sent);
      }
    } else if c.result.Ok? {
      v := BusyNext(s, i, t, u, Open(t));
      v := BusyNext(s, i, t, v, Finish(t));
    } else {
      v := Fails(s, i, t, u, boss, me, locks, files, c.result);
    }
  }

  /** The reply, an ABOR that comes too late, the release of the lock and the end of the thread. */
  lemma ConclusionIsARun(s: State, i: nat, t: nat, u: State, boss: Session, me: Thread, locks: LockMap, files: Files,
                         ok: bool, late: bool)
    returns (v: State)
    requires Busy(s, i, t, u, boss, me, locks, files) && me.phase.Finished?
    requires late ==> boss.handler.Waiting? && boss.threadState.Running?
    ensures Reaches(s, i, Some(t), v) && i < |v.sessions|
    ensures var result, more := me.phase.result, if late then 1 else 0;
      var replied := if result.ConnError? && boss.shouldQuit then boss else WithReply(boss, ok);
      v.sessions[i] == replied.(threadState := Idle, params := None, handled := replied.handled + more,
                                finals := replied.finals + more,
                                shouldAbort := late || (boss.shouldAbort && !result.WasAborted?))
    ensures v.locks == H.GivenUp(locks, me.params) && v.files == files
  {
    hide Reaches;
    v := BusyNext(s, i, t, u, Announce(t, ok));
    var announced, spoken := NextOwner(u, Announce(t, ok)), NextThread(u, Announce(t, ok));
    if late {
      v, announced := AbortArrives(s, i, t, v, announced, spoken, locks, files);
    }
    v := Unlocks(s, i, t, v, announced, spoken, locks, files);
  }

  lemma Unlocks(s: State, i: nat, t: nat, u: State, boss: Session, me: Thread, locks: LockMap, files: Files)
    returns (v: State)
    requires Busy(s, i, t, u, boss, me, locks, files) && me.phase.Announced?
    ensures Reaches(s, i, Some(t), v) && i < |v.sessions|
    ensures v.sessions[i] == boss.(threadState := Idle, params := None)
    ensures v.locks == H.GivenUp(locks, me.params) && v.files == files
  {
    hide Reaches;
    v := BusyNext(s, i, t, u, Unlock(t));
    v := BusyNext(s, i, t, v, Complete(t));
    ReachesNext(s, i, Some(t), v, Exit(t));
    v := Next(v, Exit(t));
  }

  /** The ABORs handled while a transfer ran: the one that stopped it, and one that came too late. */
  function Aborts(c: H.Course, late: bool): nat {
    (if c.result.WasAborted? && !c.raised then 1 else 0) + if late then 1 else 0
  }

  /** The thread of this session that was started has found the result, and moved exactly what the transfer has. */
  ghost predicate FoundBy(s: State, i: nat, t: nat, v: State, c: H.Course) {
    && t in s.threads && s.threads[t].owner == i && t in v.threads && v.threads[t].base == s.threads[t].base
      && v.threads[t].params == s.threads[t].params
    && v.threads[t].phase == Finished(c.result) && Carried(v.threads[t].params, v.threads[t].progress, c)
  }

  /**
   * From s a transfer thread of this session can find the result, having moved exactly what the transfer has, and leave
   * the world so, its session resting or closed.
   */
  ghost predicate Transfers(s: State, i: nat, h: Handler, b: World, lines: nat, aborts: nat, c: H.Course) {
    exists t, v, u ::
      && FoundBy(s, i, t, v, c) && v.files == b.files && Reaches(s, i, Some(t), v) && Reaches(v, i, Some(t), u)
      && Mirrors(u, i, h, b, lines, aborts)
  }

  /** From s the command thread alone can leave the world so and be closed. */
  ghost predicate Closes(s: State, i: nat, t: Option<nat>, b: World, lines: nat, aborts: nat) {
    exists u :: Reaches(s, i, t, u) && Mirrors(u, i, Closed, b, lines, aborts)
  }

  /** The thread that was started begins. */
  lemma TransferBegins(s: State, i: nat, t: nat, w: World, lines: nat, aborts: nat) returns (u: State)
    requires Mirrors(s, i, Waiting, w, lines, aborts) && w.own.thread.Starting? && Carries(s, t, i, w.own.params)
    ensures Busy(s, i, t, u, s.sessions[i].(threadState := Running), s.threads[t].(phase := Begun), w.locks, w.files)
  {
    ReachesItself(s, i, Some(t));
    hide Reaches;
    u := BusyNext(s, i, t, s, Begin(t));
  }

  /**
   * Whatever a transfer has done, the protocol's transfer thread of this session may do: it reaches a state in which it
   * has moved exactly the same, and then ends. ABORs that have been sent meanwhile are command lines the protocol
   * counts.
   */
  lemma TransferIsARun(s: State, i: nat, a: World, b: World, lines: nat, aborts: nat, c: H.Course, late: bool)
    requires Mirrors(s, i, Waiting, a, lines, aborts) && a.own.thread.Starting? && a.own.params.Some?
    requires H.Announced(a.own.(thread := Idle, params := None), b.own, c.result, late) && c.raised == a.own.abort
    requires b.locks == H.GivenUp(a.locks, a.own.params.value) && H.Moved(a.own.params.value, a.files, b.files, c)
    ensures Transfers(s, i, Waiting, b, lines, aborts + Aborts(c, late), c)
  {
    hide H.GivenUp, H.Moved, Reaches, Carried;
    var t :| Carries(s, t, i, a.own.params);
    RaisedUploadFails(a.own.params.value, a.files, b.files, c);
    var v, moved;
    var boss, me := s.sessions[i].(threadState := Running), s.threads[t].(phase := Begun);
    var u := TransferBegins(s, i, t, a, lines, aborts);
    v, moved := MoveIsARun(s, i, t, u, boss, me, a.locks, a.files, b.files, c);
    assert FoundBy(s, i, t, v, c);
    ReachesItself(v, i, Some(t));
    u :=
      ConclusionIsARun(v, i, t, v, Interrupted(boss, c.result), me.(phase := Finished(c.result), progress := moved),
                       a.locks, b.files, b.own.finals > a.own.finals, late);
    assert Mirrors(u, i, Waiting, b, lines, aborts + Aborts(c, late));
  }

  lemma RaisedUploadFails(p: Params, before: Files, after: Files, c: H.Course)
    requires H.Moved(p, before, after, c)
    ensures p.operation.ReceiveFile? && c.raised ==> !c.result.Ok?
  {
  }

  // ----- the end of a session -----

  function Quitting(w: World, quit: bool): World { w.(own := w.own.(quit := quit)) }

  lemma CloseIsARun(s: State, i: nat, t: Option<nat>, w: World, lines: nat, aborts: nat)
    requires Mirrors(s, i, Waiting, w, lines, aborts)
    ensures Closes(s, i, t, Quitting(w, true), lines, aborts)
  {
    ReachesItself(s, i, t);
    ReachesNext(s, i, t, s, Close(i));
    var u := Next(s, Close(i));
    ThreadStays(s, u, i, w.own.params);
  }

  /** The session closes while its thread runs. */
  lemma ClosesBusy(s: State, i: nat, t: nat, u: State, boss: Session, me: Thread, locks: LockMap, files: Files)
    returns (v: State)
    requires Busy(s, i, t, u, boss, me, locks, files) && boss.handler.Waiting?
    ensures Busy(s, i, t, v, boss.(handler := Closed, shouldQuit := true), me, locks, files)
  {
    ReachesNext(s, i, Some(t), u, Close(i));
    v := Next(u, Close(i));
  }

  /** A transfer that fails for want of a connection once the session is closed; an ABOR may have come before. */
  lemma CutOffIsARun(s: State, i: nat, a: World, b: World, lines: nat, aborts: nat, c: H.Course, late: bool)
    requires Mirrors(s, i, Waiting, a, lines, aborts) && a.own.thread.Starting? && a.own.params.Some?
    requires H.Announced(Quitting(a, true).own.(thread := Idle, params := None), b.own, c.result, late)
    requires c.result.ConnError? && H.Moved(a.own.params.value, a.files, b.files, c)
    requires b.locks == H.GivenUp(a.locks, a.own.params.value)
    ensures Transfers(s, i, Closed, b, lines, aborts + Aborts(c, late), c)
  {
    hide H.Moved, H.GivenUp, Reaches, Carried;
    var t :| Carries(s, t, i, a.own.params);
    var v, moved;
    var boss, me := s.sessions[i].(threadState := Running), s.threads[t].(phase := Begun);
    var u := TransferBegins(s, i, t, a, lines, aborts);
    if late {
      u, boss := AbortArrives(s, i, t, u, boss, me, a.locks, a.files);
    }
    u := ClosesBusy(s, i, t, u, boss, me, a.locks, a.files);
    boss := boss.(handler := Closed, shouldQuit := true);
    v, moved := MoveIsARun(s, i, t, u, boss, me, a.locks, a.files, b.files, c);
    assert FoundBy(s, i, t, v, c);
    ReachesItself(v, i, Some(t));
    u :=
      ConclusionIsARun(v, i, t, v, boss, me.(phase := Finished(c.result), progress := moved), a.locks, b.files, true,
                       false);
    assert Mirrors(u, i, Closed, b, lines, aborts + Aborts(c, late));
  }

  /**
   * The session quits while its transfer is live: the protocol's command thread closes before the transfer fails for
   * want of a connection, and after any other end of it.
   */
  lemma LastTransferIsARun(s: State, i: nat, a: World, b: World, lines: nat, aborts: nat, c: H.Course, late: bool)
    requires Mirrors(s, i, Waiting, a, lines, aborts) && a.own.thread.Starting? && a.own.params.Some?
    requires H.Announced(Quitting(a, true).own.(thread := Idle, params := None), b.own, c.result, late)
    requires b.locks == H.GivenUp(a.locks, a.own.params.value) && H.Moved(a.own.params.value, a.files, b.files, c)
    requires c.raised == a.own.abort
    ensures Transfers(s, i, Closed, b, lines, aborts + Aborts(c, late), c)
  {
    hide H.Moved, H.GivenUp, Reaches, Mirrors, FoundBy;
    if c.result.ConnError? {
      CutOffIsARun(s, i, a, b, lines, aborts, c, late);
    } else {
      var ended := Quitting(b, a.own.quit);
      TransferIsARun(s, i, a, ended, lines, aborts, c, late);
      var t, v, w :| FoundBy(s, i, t, v, c) && v.files == ended.files && Reaches(s, i, Some(t), v)
                     && Reaches(v, i, Some(t), w) && Mirrors(w, i, Waiting, ended, lines, aborts + Aborts(c, late));
      CloseIsARun(w, i, Some(t), ended, lines, aborts + Aborts(c, late));
      var u :| Reaches(w, i, Some(t), u)
               && Mirrors(u, i, Closed, Quitting(ended, true), lines, aborts + Aborts(c, late));
      ReachesOn(v, i, Some(t), w, u);
    }
  }
}
