/**
 * Whole transfers, from the client's command line to the end of the thread: what the client finds in its file, or on
 * its connection, after RETR, APPE, and a STOR that is interrupted and resumed any number of times; and that all goes
 * well when nothing is in the way.
 */
module WholeTransfers {
  import opened Common
  import opened CommandTable
  import opened CommandHistory
  import opened Decimals
  import opened ReplyTexts
  import opened LockSpec
  import opened LockTable
  import opened FileStore
  import opened Handlers
  import opened HandlerRuns
  import opened CommandLoop
  import opened ClientView
  import P = TransferProtocol
  import SP = SessionPaths
  import T = Transfer

  // ----- the transfer a command has started -----

  /** The transfer a handler has just started, over this connection; its lock is given back, and its client told. */
  method Transferred(s: CommandThread, locks: FileLocks, fs: T.FileSystem, socket: T.DataSocket, socketOpen: bool,
                     aborting: bool, ghost before: LockMap)
    returns (result: P.Result, ghost course: Course)
    requires s.Valid() && s.threadState.Starting? && locks.Valid() && fs as object != socket && !s.shouldQuit
    requires Sound(before) && Owns(before, locks.locks, s.params.value)
    modifies s`threadState, s`params, s`shouldAbort, s`hasDataMode, s`finals, s`sendFailed, s`last, s`refused,
             locks, locks.Entries(), fs, socket
    ensures s.Valid() && s.threadState.Idle? && locks.Valid() && locks.locks == before
    ensures fresh(locks.Entries() - old(locks.Entries())) && s.shouldQuit == old(s.shouldQuit)
    ensures !s.sendFailed ==> s.finals == old(s.finals) + 1
    ensures (s.last == COMPLETE <==> result.Ok?) && (old(s.sendFailed) ==> s.sendFailed)
    ensures !aborting && !old(s.shouldAbort) ==> !s.shouldAbort
    ensures course.result == result && course.arriving == old(socket.incoming)
    ensures socket.sent == old(socket.sent) + course.sent && Moved(old(s.params.value), old(fs.files), fs.files, course)
    ensures fs.failures >= old(fs.failures) && s.refused >= old(s.refused) && socket.failures >= old(socket.failures)
    ensures !aborting && !old(s.shouldAbort) && socketOpen && fs.failures == old(fs.failures)
            && s.refused == old(s.refused) && socket.failures == old(socket.failures) ==>
              course.met == T.Met(true, true, false, false, false)
  {
    hide FileLocks.Valid, Sound, Owns, GivenUp, Moved, CompletionText;
    OwnerGivesBack(before, locks.locks, s.params.value);
    var late;
    result, late, course := s.RunTransfer(locks, fs, socket, socketOpen, aborting);
    CompletionTells(result, result);
  }

  lemma OwnerGivesBack(before: LockMap, now: LockMap, p: P.Params)
    requires Sound(before) && Owns(before, now, p)
    ensures (p.lockAcquired ==> PathValid(p.path)) && GivenUp(now, p) == before
  {
    if !p.operation.SendList? { ReleaseUndoesAcquire(before, p.path, ModeFor(p.operation)); }
  }

  /** A command on an idle session has started its transfer by the protocol's rules, or not touched the locks. */
  lemma StartedIsLaunched(req: P.Request, a: World, b: World, response: int)
    requires Outcome(req, a, b, response) && a.own.thread.Idle? && P.OperationOf(req.op).Some?
    ensures if b.own.thread.Starting? then
              Launches(req, a, b) && Owns(a.locks, b.locks, b.own.params.value)
              && b.own == a.own.(thread := P.Starting, params := Some(P.ParamsOf(P.ValidatedRequest(a.files, req))))
              && b.files == P.ValidatedFiles(a.files, req)
            else b.locks == a.locks && b.own.thread.Idle? && Answered(a.own, b.own, response)
  {
    hide P.Validates;
  }

  // ----- RETR -----

  lemma RetrLaunched(view: SP.View, pending: Pending, ascii: bool, argument: string, a: World, b: World)
    requires pending.offset >= 0 && SP.Resolved(view, argument).Some?
    requires Launches(RequestOf(RETR, view, pending, ascii, Some(argument)), a, b)
    ensures var path := SP.Resolved(view, argument).value;
      && path in a.files && pending.offset <= |a.files[path]| && b.files == a.files
      && b.own.params == Some(P.Params(P.SendFile, path, pending.offset, ascii, true))
  {
  }

  /** What a download has sent, and when it has sent all. */
  lemma DownloadSends(p: P.Params, before: Files, after: Files, c: Course)
    requires p.operation.SendFile? && Moved(p, before, after, c)
    requires p.path in before && p.offset <= |before[p.path]|
    ensures var wire := P.OnWire(p.ascii, before[p.path][p.offset..]);
      after == before && c.sent <= wire && (c.result.Ok? ==> c.sent == wire)
    ensures c.met == T.Met(true, true, false, false, false) ==> c.result.Ok?
  {
  }

  /**
   * RETR and its transfer. Whatever happens, the lock table is as before, the client is answered once, and only a front
   * part of the file from the offset on has been sent; if the client is told that the transfer is complete, all of it.
   * And that it is told if the file is there, free of writers, long enough and the user's to read, and nothing fails,
   * is refused or aborted.
   */
  method Download(s: CommandThread, table: HandlerTable, locks: FileLocks, fs: T.FileSystem, dirs: set<Path>,
                  argument: string, a: Answers, socketOpen: bool, aborting: bool)
    returns (started: bool, sent: Bytes, ghost broken: bool)
    requires s.Valid() && s.threadState.Idle? && !s.shouldQuit && locks.Valid() && Sendable(argument) && |a.time| <= 14
    requires table.Valid() && table.Registered() == Registrations(STANDARD)
    modifies s, locks, locks.Entries(), fs
    ensures s.Valid() && s.threadState.Idle? && locks.Valid() && locks.locks == old(locks.locks)
            && fs.files == old(fs.files)
    ensures !s.sendFailed && !old(s.sendFailed) ==> s.finals == old(s.finals) + 1
    ensures started ==>
              SP.Resolved(old(s.view), argument).Some? &&
              var path := SP.Resolved(old(s.view), argument).value;
              && path in fs.files && old(s.restartOffset) <= |fs.files[path]|
              && var wire := P.OnWire(old(s.ascii), fs.files[path][old(s.restartOffset)..]);
                 sent <= wire && (s.last == COMPLETE ==> sent == wire)
    ensures !started ==> sent == [] && s.last != COMPLETE
    ensures Readable(old(s.view), old(s.hasDataMode), argument, old(s.restartOffset), fs.files, dirs, locks.locks)
            && socketOpen && !broken && !aborting && !old(s.shouldAbort) && !s.sendFailed
            && fs.failures == old(fs.failures) && s.refused == old(s.refused)
            ==> s.last == COMPLETE
  {
    hide FileLocks.Valid, HandlerTable.Valid, Registrations, Sound, Owns, SP.Allowed, SP.Resolved, CanAcquire, P.OnWire;
    hide Does, Outcome, Launches, Moved;
    locks.ValidIsSound();
    ghost var x, was, pending := Ready(s.SceneOf(fs), RETR), WorldOf(s, locks, fs), s.Remembered().(source := None);
    ghost var req := RequestOf(RETR, s.view, pending, s.ascii, Some(argument));
    sent, broken := [], false;
    var response := Send(s, table, locks, fs, dirs, "RETR", Some(argument), a, RETR);
    ghost var y := s.SceneOf(fs);
    EveryCommandIsOrderly(RETR, Some(argument), a, dirs, was.locks, x, y);
    StartedIsLaunched(req, was, WorldOf(s, locks, fs), response);
    started := s.threadState.Starting?;
    if started {
      RetrLaunched(old(s.view), pending, old(s.ascii), argument, was, WorldOf(s, locks, fs));
      ghost var p := s.params.value;
      ghost var course;
      var result;
      var socket := new T.DataSocket([]);
      ghost var failures := socket.failures;
      result, course := Transferred(s, locks, fs, socket, socketOpen, aborting, old(locks.locks));
      sent, broken := socket.sent, socket.failures > failures;
      assert [] + course.sent == course.sent;
      DownloadSends(p, was.files, fs.files, course);
    } else {
      ReadableStarts(argument, a, dirs, was.locks, x, y);
    }
  }

  /** Everything is as it should be for a download. */
  predicate Readable(view: SP.View, hasDataMode: bool, argument: string, offset: int, files: Files, dirs: set<Path>,
                     locks: LockMap)
  {
    && hasDataMode && SP.Allowed(view, argument, SP.READ) && SP.Resolved(view, argument).Some?
    && var path := SP.Resolved(view, argument).value;
       path in files && path !in dirs && CanAcquire(locks, path, Shared) && offset <= |files[path]|
  }

  lemma ReadableStarts(name: string, a: Answers, dirs: set<Path>, locks: LockMap, x: Scene, y: Scene)
    requires Does(RETR, Some(name), a, dirs, locks, x, y)
    ensures Readable(x.view, x.hasDataMode, name, x.pending.offset, x.files, dirs, locks) && Unhindered(x, y) ==>
              y.own.thread.Starting?
  {
    hide Does;
    if Readable(x.view, x.hasDataMode, name, x.pending.offset, x.files, dirs, locks) && Unhindered(x, y) {
      RetrMeans(name, a, dirs, locks, x, y);
    }
  }

  // ----- APPE -----

  /** Everything is as it should be for an upload. */
  predicate Writable(view: SP.View, hasDataMode: bool, argument: string, dirs: set<Path>, locks: LockMap) {
    && hasDataMode && SP.Allowed(view, argument, SP.WRITE) && SP.Resolved(view, argument).Some?
    && SP.Resolved(view, argument).value !in dirs && CanAcquire(locks, SP.Resolved(view, argument).value, Exclusive)
  }

  lemma AppeLaunched(view: SP.View, pending: Pending, ascii: bool, argument: string, a: World, b: World)
    requires pending.offset >= 0 && SP.Resolved(view, argument).Some?
    requires Launches(RequestOf(APPE, view, pending, ascii, Some(argument)), a, b)
    ensures var path := SP.Resolved(view, argument).value;
      && b.files == a.files
      && b.own.params == Some(P.Params(P.ReceiveFile, path, |ContentOrEmpty(a.files, path)|, ascii, true))
  {
  }

  /** Some of the data has been written over what was there, from the front; if so much is known, all of it. */
  ghost predicate Overlaid(was: Bytes, now: Bytes, offset: nat, data: Bytes, all: bool) {
    exists stored: Bytes :: stored <= data && (all ==> stored == data) && now == Overlay(was, offset, stored)
  }

  /** What an upload leaves, however it ends; and that it ends well if nothing is in its way. */
  lemma StoredFrom(before: Files, after: Files, p: P.Params, c: Course)
    requires p.operation.ReceiveFile? && !p.ascii && Moved(p, before, after, c)
    ensures Overlaid(ContentOrEmpty(before, p.path), ContentOrEmpty(after, p.path), p.offset, c.arriving, c.result.Ok?)
    ensures after - {p.path} == before - {p.path}
    ensures c.met == T.Met(true, true, false, false, false) ==> c.result.Ok?
  {
    hide Overlay;
    T.StoredIsPrefix(before, after, p.path, p.offset, c.arriving, c.result, c.segments, c.partial);
  }

  lemma OverlaidAtTheEnd(was: Bytes, now: Bytes, data: Bytes, all: bool)
    requires Overlaid(was, now, |was|, data, all)
    ensures exists stored: Bytes :: stored <= data && (all ==> stored == data) && now == was + stored
  {
    hide Overlay;
    var stored: Bytes :| stored <= data && (all ==> stored == data) && now == Overlay(was, |was|, stored);
    AppendAndFresh(was, stored);
  }

  lemma WritableAppends(name: string, a: Answers, dirs: set<Path>, locks: LockMap, x: Scene, y: Scene)
    requires Does(APPE, Some(name), a, dirs, locks, x, y)
    ensures Writable(x.view, x.hasDataMode, name, dirs, locks) && Unhindered(x, y) ==> y.own.thread.Starting?
  {
    hide Does;
    if Writable(x.view, x.hasDataMode, name, dirs, locks) && Unhindered(x, y) { AppeMeans(name, a, dirs, locks, x, y); }
  }

  /** Some of what has arrived is behind what was there, and if so much is known, all of it. */
  ghost predicate Appended(before: Files, after: Files, path: Path, data: Bytes, all: bool) {
    && after - {path} == before - {path}
    && exists stored: Bytes :: stored <= data && (all ==> stored == data)
                               && ContentOrEmpty(after, path) == ContentOrEmpty(before, path) + stored
  }

  /**
   * APPE and its transfer: what was in the file is still in front, and if the client is told that the transfer is
   * complete, all that it sent is behind it. And that it is told if nothing is in the way.
   */
  method Append(s: CommandThread, table: HandlerTable, locks: FileLocks, fs: T.FileSystem, dirs: set<Path>,
                argument: string, a: Answers, data: Bytes, socketOpen: bool, aborting: bool)
    returns (started: bool, ghost broken: bool)
    requires s.Valid() && s.threadState.Idle? && !s.shouldQuit && locks.Valid() && Sendable(argument) && |a.time| <= 14
    requires table.Valid() && table.Registered() == Registrations(STANDARD) && !s.ascii
    modifies s, locks, locks.Entries(), fs
    ensures s.Valid() && s.threadState.Idle? && locks.Valid() && locks.locks == old(locks.locks)
    ensures !started ==> fs.files == old(fs.files) && s.last != COMPLETE
    ensures started ==> SP.Resolved(old(s.view), argument).Some?
                        && Appended(old(fs.files), fs.files, SP.Resolved(old(s.view), argument).value, data,
                                    s.last == COMPLETE)
    ensures Writable(old(s.view), old(s.hasDataMode), argument, dirs, locks.locks)
            && socketOpen && !broken && !aborting && !old(s.shouldAbort) && !s.sendFailed
            && fs.failures == old(fs.failures) && s.refused == old(s.refused)
            ==> started && s.last == COMPLETE
  {
    hide FileLocks.Valid, HandlerTable.Valid, Registrations, Sound, Owns, SP.Allowed, SP.Resolved, CanAcquire;
    hide Does, Outcome, Launches, Moved;
    locks.ValidIsSound();
    ghost var x, was, pending := Ready(s.SceneOf(fs), APPE), WorldOf(s, locks, fs), NOTHING_PENDING;
    ghost var req := RequestOf(APPE, s.view, pending, s.ascii, Some(argument));
    broken := false;
    var response := Send(s, table, locks, fs, dirs, "APPE", Some(argument), a, APPE);
    ghost var y := s.SceneOf(fs);
    EveryCommandIsOrderly(APPE, Some(argument), a, dirs, was.locks, x, y);
    StartedIsLaunched(req, was, WorldOf(s, locks, fs), response);
    started := s.threadState.Starting?;
    if started {
      AppeLaunched(old(s.view), pending, old(s.ascii), argument, was, WorldOf(s, locks, fs));
      ghost var p := s.params.value;
      ghost var course;
      var result;
      var socket := new T.DataSocket(data);
      ghost var failures := socket.failures;
      result, course := Transferred(s, locks, fs, socket, socketOpen, aborting, old(locks.locks));
      broken := socket.failures > failures;
      StoredFrom(was.files, fs.files, p, course);
      OverlaidAtTheEnd(ContentOrEmpty(was.files, p.path), ContentOrEmpty(fs.files, p.path), data, result.Ok?);
    } else {
      WritableAppends(argument, a, dirs, was.locks, x, y);
    }
  }

  // ----- STOR, interrupted and resumed -----

  lemma PlainAnswered(req: P.Request, a: World, b: World, response: int)
    requires Outcome(req, a, b, response) && a.own.thread.Idle? && a.own.params.None? && req.op.Plain?
    ensures b.locks == a.locks && b.files == a.files && b.own.thread.Idle? && (b.own.abort ==> a.own.abort)
    ensures (a.own.sendFailed ==> b.own.sendFailed) && (!b.own.sendFailed ==> b.own.finals == a.own.finals + 1)
  {
  }

  /** PASV: a user that is logged in gets a data mode, and nothing else changes. */
  method AskForData(s: CommandThread, table: HandlerTable, locks: FileLocks, fs: T.FileSystem, dirs: set<Path>,
                    a: Answers)
    requires s.Valid() && s.threadState.Idle? && !s.shouldQuit && locks.Valid() && |a.time| <= 14
    requires table.Valid() && table.Registered() == Registrations(STANDARD)
    modifies s, locks, locks.Entries(), fs
    ensures s.Valid() && s.threadState.Idle? && !s.shouldQuit && locks.Valid() && locks.locks == old(locks.locks)
    ensures fresh(locks.Entries() - old(locks.Entries())) && fs.files == old(fs.files)
    ensures s.view == old(s.view) && s.ascii == old(s.ascii) && (s.shouldAbort ==> old(s.shouldAbort))
    ensures fs.failures >= old(fs.failures) && s.refused >= old(s.refused) && (old(s.sendFailed) ==> s.sendFailed)
    ensures s.view.authenticated && s.refused == old(s.refused) && !s.sendFailed ==> s.hasDataMode
  {
    hide FileLocks.Valid, HandlerTable.Valid, Registrations, Does, Outcome;
    ghost var x, was := Ready(s.SceneOf(fs), PASV), WorldOf(s, locks, fs);
    var response := Send(s, table, locks, fs, dirs, "PASV", None, a, PASV);
    EveryCommandIsOrderly(PASV, None, a, dirs, was.locks, x, s.SceneOf(fs));
    PasvMeans(a, dirs, was.locks, x, s.SceneOf(fs));
    PlainAnswered(RequestOf(PASV, old(s.view), NOTHING_PENDING, old(s.ascii), None), was, WorldOf(s, locks, fs),
                  response);
  }

  /** REST: a user that is logged in has set the offset, and nothing else changes. */
  method AskForOffset(s: CommandThread, table: HandlerTable, locks: FileLocks, fs: T.FileSystem, dirs: set<Path>,
                      n: nat, a: Answers)
    requires s.Valid() && s.threadState.Idle? && !s.shouldQuit && locks.Valid() && n <= LLONG_MAX && |a.time| <= 14
    requires table.Valid() && table.Registered() == Registrations(STANDARD)
    modifies s, locks, locks.Entries(), fs
    ensures s.Valid() && s.threadState.Idle? && !s.shouldQuit && locks.Valid() && locks.locks == old(locks.locks)
    ensures fresh(locks.Entries() - old(locks.Entries())) && fs.files == old(fs.files)
    ensures s.view == old(s.view) && s.ascii == old(s.ascii) && (s.shouldAbort ==> old(s.shouldAbort))
    ensures fs.failures >= old(fs.failures) && s.refused == old(s.refused) && (old(s.sendFailed) ==> s.sendFailed)
    ensures s.hasDataMode == old(s.hasDataMode) && (s.view.authenticated ==> s.restartOffset == n)
  {
    hide FileLocks.Valid, HandlerTable.Valid, Registrations, Does, Outcome, Decimal;
    DecimalIsSendable(n);
    ghost var x, was := Ready(s.SceneOf(fs), REST), WorldOf(s, locks, fs);
    ghost var pending := Prepared(s.Remembered(), ClearRename);
    var response := Send(s, table, locks, fs, dirs, "REST", Some(Decimal(n)), a, REST);
    EveryCommandIsOrderly(REST, Some(Decimal(n)), a, dirs, was.locks, x, s.SceneOf(fs));
    RestMeans(n, a, dirs, was.locks, x, s.SceneOf(fs));
    PlainAnswered(RequestOf(REST, old(s.view), pending, old(s.ascii), Some(Decimal(n))), was, WorldOf(s, locks, fs),
                  response);
  }

  lemma StorLaunched(view: SP.View, pending: Pending, argument: string, a: World, b: World)
    requires pending.offset >= 0 && SP.Resolved(view, argument).Some?
    requires Launches(RequestOf(STOR, view, pending, false, Some(argument)), a, b)
    ensures var path := SP.Resolved(view, argument).value;
      && b.files == (if pending.offset == 0 then a.files - {path} else a.files)
      && pending.offset <= |ContentOrEmpty(b.files, path)|
      && b.own.params == Some(P.Params(P.ReceiveFile, path, pending.offset, false, true))
  {
  }

  /** What a STOR that has not started has done to the files; and that it starts if nothing is in the way. */
  lemma StorOtherwise(name: string, a: Answers, dirs: set<Path>, locks: LockMap, x: Scene, y: Scene)
    requires Does(STOR, Some(name), a, dirs, locks, x, y) && !Starts(x, y) && x.pending.offset >= 0
    ensures y.files == x.files || (x.pending.offset == 0 && SP.Resolved(x.view, name).Some?
                                   && y.files == x.files - {SP.Resolved(x.view, name).value})
    ensures Writable(x.view, x.hasDataMode, name, dirs, locks) && Unhindered(x, y) ==>
              x.pending.offset > |ContentOrEmpty(x.files, SP.Resolved(x.view, name).value)|
  {
    if Writable(x.view, x.hasDataMode, name, dirs, locks) && Unhindered(x, y) { StorMeans(name, a, dirs, locks, x, y); }
  }

  /** The line STOR: the transfer has been started over a file that reaches the offset, or nothing is held. */
  method LaunchStore(s: CommandThread, table: HandlerTable, locks: FileLocks, fs: T.FileSystem, dirs: set<Path>,
                     argument: string, a: Answers)
    requires s.Valid() && s.threadState.Idle? && !s.shouldQuit && locks.Valid() && Sendable(argument) && |a.time| <= 14
    requires table.Valid() && table.Registered() == Registrations(STANDARD) && !s.ascii
    modifies s, locks, locks.Entries(), fs
    ensures s.Valid() && !s.shouldQuit && locks.Valid() && fresh(locks.Entries() - old(locks.Entries()))
    ensures s.view == old(s.view) && !s.ascii && s.shouldAbort == old(s.shouldAbort)
    ensures fs.failures >= old(fs.failures) && s.refused >= old(s.refused) && (old(s.sendFailed) ==> s.sendFailed)
    ensures s.threadState.Starting? ==>
              s.view.authenticated && SP.Resolved(s.view, argument).Some? &&
              var path := SP.Resolved(s.view, argument).value;
              && s.params == Some(P.Params(P.ReceiveFile, path, old(s.restartOffset), false, true))
              && Owns(old(locks.locks), locks.locks, s.params.value)
              && fs.files == (if old(s.restartOffset) == 0 then old(fs.files) - {path} else old(fs.files))
              && 0 <= old(s.restartOffset) <= |ContentOrEmpty(fs.files, path)|
    ensures !s.threadState.Starting? ==>
              && s.threadState.Idle? && locks.locks == old(locks.locks) && s.last != COMPLETE
              && (fs.files == old(fs.files)
                  || (s.view.authenticated && old(s.restartOffset) == 0 && SP.Resolved(s.view, argument).Some?
                      && fs.files == old(fs.files) - {SP.Resolved(s.view, argument).value}))
    ensures Writable(s.view, old(s.hasDataMode), argument, dirs, old(locks.locks))
            && old(s.restartOffset) <= |ContentOrEmpty(old(fs.files), SP.Resolved(s.view, argument).value)|
            && fs.failures == old(fs.failures) && s.refused == old(s.refused) && !s.sendFailed
            ==> s.threadState.Starting?
  {
    hide FileLocks.Valid, HandlerTable.Valid, Registrations, Sound, Owns, SP.Allowed, SP.Resolved, CanAcquire;
    hide Does, Outcome, Launches;
    ghost var x, was, pending := Ready(s.SceneOf(fs), STOR), WorldOf(s, locks, fs), s.Remembered().(source := None);
    ghost var req := RequestOf(STOR, s.view, pending, s.ascii, Some(argument));
    var response := Send(s, table, locks, fs, dirs, "STOR", Some(argument), a, STOR);
    ghost var y := s.SceneOf(fs);
    EveryCommandIsOrderly(STOR, Some(argument), a, dirs, was.locks, x, y);
    StartedIsLaunched(req, was, WorldOf(s, locks, fs), response);
    if !s.view.authenticated { WithoutLogin(STOR, Some(argument), a, dirs, was.locks, x, y); }
    if s.threadState.Starting? {
      StorLaunched(old(s.view), pending, argument, was, WorldOf(s, locks, fs));
    } else {
      StorOtherwise(argument, a, dirs, was.locks, x, y);
    }
  }

  /**
   * STOR and its transfer: what has arrived is written over what was there from the offset on, which lies within it;
   * all of it if the client is told that the transfer is complete. And that it is told if nothing is in the way.
   */
  method Store(s: CommandThread, table: HandlerTable, locks: FileLocks, fs: T.FileSystem, dirs: set<Path>,
               argument: string, a: Answers, data: Bytes, socketOpen: bool, aborting: bool)
    returns (started: bool, ghost broken: bool)
    requires s.Valid() && s.threadState.Idle? && !s.shouldQuit && locks.Valid() && Sendable(argument) && |a.time| <= 14
    requires table.Valid() && table.Registered() == Registrations(STANDARD) && !s.ascii
    modifies s, locks, locks.Entries(), fs
    ensures s.Valid() && s.threadState.Idle? && !s.shouldQuit && locks.Valid() && locks.locks == old(locks.locks)
    ensures s.view == old(s.view) && !s.ascii && fresh(locks.Entries() - old(locks.Entries()))
    ensures fs.failures >= old(fs.failures) && s.refused >= old(s.refused) && (old(s.sendFailed) ==> s.sendFailed)
    ensures !aborting && !old(s.shouldAbort) ==> !s.shouldAbort
    ensures started ==>
              s.view.authenticated && SP.Resolved(s.view, argument).Some? &&
              var path := SP.Resolved(s.view, argument).value;
              var was := if old(s.restartOffset) == 0 then [] else ContentOrEmpty(old(fs.files), path);
              && 0 <= old(s.restartOffset) <= |was| && fs.files - {path} == old(fs.files) - {path}
              && Overlaid(was, ContentOrEmpty(fs.files, path), old(s.restartOffset), data, s.last == COMPLETE)
    ensures !started ==> s.last != COMPLETE
                         && (fs.files == old(fs.files)
                             || (s.view.authenticated && old(s.restartOffset) == 0 
                                 && SP.Resolved(s.view, argument).Some?
                                 && fs.files == old(fs.files) - {SP.Resolved(s.view, argument).value}))
    ensures Writable(s.view, old(s.hasDataMode), argument, dirs, locks.locks)
            && old(s.restartOffset) <= |ContentOrEmpty(old(fs.files), SP.Resolved(s.view, argument).value)|
            && socketOpen && !broken && !aborting && !old(s.shouldAbort) && !s.sendFailed
            && fs.failures == old(fs.failures) && s.refused == old(s.refused)
            ==> started && s.last == COMPLETE
  {
    hide FileLocks.Valid, HandlerTable.Valid, Registrations, Sound, Owns, SP.Allowed, SP.Resolved, CanAcquire;
    hide Moved, Overlaid;
    locks.ValidIsSound();
    broken := false;
    LaunchStore(s, table, locks, fs, dirs, argument, a);
    started := s.threadState.Starting?;
    if started {
      ghost var p, between := s.params.value, fs.files;
      ghost var course;
      var result;
      var socket := new T.DataSocket(data);
      ghost var failures := socket.failures;
      result, course := Transferred(s, locks, fs, socket, socketOpen, aborting, old(locks.locks));
      broken := socket.failures > failures;
      StoredFrom(between, fs.files, p, course);
    }
  }

  /** Bytes behind those that are there already. */
  lemma OverlaidFront(now: Bytes, data: Bytes, n: nat, m: nat, all: bool)
    requires n <= m <= |data| && Overlaid(data[..n], now, n, data[n..m], all)
    ensures now <= data[..m] && (all ==> now == data[..m] && (now == data <==> m == |data|))
  {
    OverlaidAtTheEnd(data[..n], now, data[n..m], all);
    assert data[..n] + data[n..m] == data[..m];
    if m == |data| { assert data[..m] == data; }
  }

  /** One go at an upload: what the system answers, where the client's connection closes, and what happens to it. */
  datatype Try = Try(answers: Answers, cut: nat, socketOpen: bool, aborting: bool)

  /** How far this one gets, from the n bytes there are, if nothing fails. */
  function UpTo(t: Try, n: nat, size: nat): (m: nat)
    requires n <= size
    ensures n <= m <= size && (m == size <==> t.cut >= size || n == size)
  {
    if t.cut < n then n else if t.cut < size then t.cut else size
  }

  /**
   * One attempt at an upload, from the n bytes that are there already. The file is never more than the bytes sent, and
   * these if the client is told that the transfer is complete: it is the data exactly if that was the end of the data.
   * And it is told if nothing is in the way.
   */
  method Attempt(s: CommandThread, table: HandlerTable, locks: FileLocks, fs: T.FileSystem, dirs: set<Path>,
                 argument: string, data: Bytes, n: nat, t: Try)
    returns (started: bool, ghost broken: bool)
    requires s.Valid() && s.threadState.Idle? && !s.shouldQuit && locks.Valid() && Sendable(argument) && !s.ascii
    requires table.Valid() && table.Registered() == Registrations(STANDARD) && |t.answers.time| <= 14
    requires n <= |data| <= LLONG_MAX
    modifies s, locks, locks.Entries(), fs
    ensures s.Valid() && s.threadState.Idle? && !s.shouldQuit && locks.Valid() && locks.locks == old(locks.locks)
    ensures s.view == old(s.view) && !s.ascii && fresh(locks.Entries() - old(locks.Entries()))
    ensures fs.failures >= old(fs.failures) && s.refused >= old(s.refused) && (old(s.sendFailed) ==> s.sendFailed)
    ensures !t.aborting && !old(s.shouldAbort) ==> !s.shouldAbort
    ensures !started ==> s.last != COMPLETE
                         && (fs.files == old(fs.files)
                             || (n == 0 && SP.Resolved(s.view, argument).Some?
                                 && fs.files == old(fs.files) - {SP.Resolved(s.view, argument).value}))
    ensures started ==> SP.Resolved(s.view, argument).Some?
    ensures started && (n == 0 || ContentOrEmpty(old(fs.files), SP.Resolved(s.view, argument).value) == data[..n]) ==>
              var m, file := UpTo(t, n, |data|), ContentOrEmpty(fs.files, SP.Resolved(s.view, argument).value);
              file <= data[..m] && (s.last == COMPLETE ==> file == data[..m] && (file == data <==> m == |data|))
    ensures Writable(s.view, true, argument, dirs, locks.locks)
            && (n == 0 || ContentOrEmpty(old(fs.files), SP.Resolved(s.view, argument).value) == data[..n])
            && t.socketOpen && !broken && !t.aborting && !old(s.shouldAbort) && !s.sendFailed
            && fs.failures == old(fs.failures) && s.refused == old(s.refused)
            ==> started && s.last == COMPLETE
  {
    hide FileLocks.Valid, HandlerTable.Valid, Registrations, SP.Allowed, SP.Resolved, CanAcquire, Overlaid;
    AskForData(s, table, locks, fs, dirs, t.answers);
    AskForOffset(s, table, locks, fs, dirs, n, t.answers);
    ghost var was := fs.files;
    if Writable(s.view, true, argument, dirs, locks.locks) { AllowedIsLoggedIn(s.view, argument, SP.WRITE); }
    assert data[..0] == [];
    var m := UpTo(t, n, |data|);
    started, broken := Store(s, table, locks, fs, dirs, argument, t.answers, data[n..m], t.socketOpen, t.aborting);
    ghost var path := SP.Resolved(s.view, argument);
    if started && (n == 0 || ContentOrEmpty(was, path.value) == data[..n]) {
      OverlaidFront(ContentOrEmpty(fs.files, path.value), data, n, m, s.last == COMPLETE);
    }
  }

  // ----- any number of attempts -----

  /** An attempt to which all of the data is sent, over a connection that works. */
  predicate Reaches(t: Try, size: nat) { t.socketOpen && t.cut >= size }

  /**
   * An upload interrupted any number of times, by any failure or because the client's connection closes early, and each
   * time resumed with REST at what is there: once a transfer has been started the file is a front part of the data, and
   * when the client is told of one to which all of the rest has been sent that it is complete, it is the data. And the
   * upload gets done if one of the attempts sends all of it over a connection that works, unless it is aborted, the
   * system fails, or the file is not the client's to write.
   */
  method UploadAndResume(s: CommandThread, table: HandlerTable, locks: FileLocks, fs: T.FileSystem, dirs: set<Path>,
                         argument: string, data: Bytes, attempts: seq<Try>)
    returns (begun: bool, done: bool, ghost broken: set<nat>)
    requires s.Valid() && s.threadState.Idle? && !s.shouldQuit && locks.Valid() && Sendable(argument) && !s.ascii
    requires table.Valid() && table.Registered() == Registrations(STANDARD) && |data| <= LLONG_MAX
    requires forall t | t in attempts :: |t.answers.time| <= 14
    modifies s, locks, locks.Entries(), fs
    ensures s.Valid() && s.threadState.Idle? && locks.Valid() && locks.locks == old(locks.locks)
            && s.view == old(s.view)
    ensures begun ==> SP.Resolved(s.view, argument).Some?
                      && ContentOrEmpty(fs.files, SP.Resolved(s.view, argument).value) <= data
    ensures done ==> begun && ContentOrEmpty(fs.files, SP.Resolved(s.view, argument).value) == data
    ensures Writable(s.view, true, argument, dirs, locks.locks) && !old(s.shouldAbort) && !s.sendFailed
            && fs.failures == old(fs.failures) && s.refused == old(s.refused)
            && (forall t | t in attempts :: !t.aborting)
            && (exists k: nat | k < |attempts| :: Reaches(attempts[k], |data|) && k !in broken)
            ==> done
  {
    hide FileLocks.Valid, HandlerTable.Valid, Registrations, SP.Allowed, SP.Resolved, CanAcquire;
    begun, done, broken := false, false, {};
    var k := 0;
    while k < |attempts| && !done
      invariant k <= |attempts| && fresh(locks.Entries() - old(locks.Entries()))
      invariant s.Valid() && s.threadState.Idle? && !s.shouldQuit && locks.Valid() && locks.locks == old(locks.locks)
      invariant s.view == old(s.view) && !s.ascii
      invariant fs.failures >= old(fs.failures) && s.refused >= old(s.refused) && (old(s.sendFailed) ==> s.sendFailed)
      invariant !old(s.shouldAbort) && (forall t | t in attempts :: !t.aborting) ==> !s.shouldAbort
      invariant begun ==> SP.Resolved(s.view, argument).Some?
                          && ContentOrEmpty(fs.files, SP.Resolved(s.view, argument).value) <= data
      invariant done ==> begun && ContentOrEmpty(fs.files, SP.Resolved(s.view, argument).value) == data
      invariant Writable(s.view, true, argument, dirs, locks.locks) && !old(s.shouldAbort) && !s.sendFailed
                && fs.failures == old(fs.failures) && s.refused == old(s.refused)
                && (forall t | t in attempts :: !t.aborting) && !done ==>
                  forall j: nat | j < k :: Reaches(attempts[j], |data|) ==> j in broken
    {
      var t := attempts[k];
      var n := if begun then |ContentOrEmpty(fs.files, SP.Resolved(s.view, argument).value)| else 0;
      assert begun ==> ContentOrEmpty(fs.files, SP.Resolved(s.view, argument).value) == data[..n];
      var started;
      ghost var failed;
      started, failed := Attempt(s, table, locks, fs, dirs, argument, data, n, t);
      if started { begun, done := true, s.last == COMPLETE && UpTo(t, n, |data|) == |data|; }
      if failed { broken := broken + {k}; }
      k := k + 1;
    }
  }
}
