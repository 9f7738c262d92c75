/**
 * The command handlers (server/src/handler.c) on the lock table and the files, each run to completion. Whatever exit a
 * handler takes, the lock table is as before unless a transfer thread was started, which then owns exactly the one
 * grant, and exactly one of the two answers the client.
 */
module Handlers {
  import opened Common
  import opened Decimals
  import opened ReplyWire
  import opened CommandWire
  import opened CommandTable
  import opened CommandHistory
  import opened ReplyTexts
  import opened LockSpec
  import opened LockTable
  import opened FileStore
  import opened ParentDirectory
  import opened AddressWire
  import opened Paths
  import PL = PathLaws
  import P = TransferProtocol
  import SP = SessionPaths
  import T = Transfer

  // ----- what the contracts speak of -----

  /** The part of a session that transfers and replies change. */
  datatype Own = Own(thread: P.ThreadState, params: Option<P.Params>, abort: bool, quit: bool, finals: nat,
                     sendFailed: bool)

  /** One final reply has gone out, or could not be sent; nothing else has changed. */
  predicate Answered(a: Own, b: Own, response: int) {
    if response == 0 then b == a.(finals := a.finals + 1) else b == a.(sendFailed := true)
  }

  /** A thread has been started; it owes the reply. */
  predicate Started(a: Own, b: Own, p: P.Params) {
    a.thread.Idle? && b == a.(thread := P.Starting, params := Some(p))
  }

  /** The mode in which a transfer holds its file. */
  function ModeFor(operation: P.Operation): Mode { if operation.ReceiveFile? then Exclusive else Shared }

  /**
   * The lock table holds one grant more than before, the one a transfer with these parameters owns; listings own none.
   */
  predicate Owns(before: LockMap, now: LockMap, p: P.Params) {
    if p.operation.SendList? then !p.lockAcquired && now == before
    else p.lockAcquired && CanAcquire(before, p.path, ModeFor(p.operation))
         && now == TryAcquire(before, p.path, ModeFor(p.operation))
  }

  /** The path a command names, if it names one. */
  function Named(view: SP.View, argument: Option<string>): Option<Path> {
    if argument.None? then None else SP.Resolved(view, argument.value)
  }

  predicate IsIn(path: Option<Path>, names: set<Path>) { path.Some? && path.value in names }

  predicate FreeFor(locks: LockMap, path: Option<Path>, mode: Mode) {
    path.Some? && CanAcquire(locks, path.value, mode)
  }

  /**
   * The reply to a command turned down before it looks at any file: login, argument, data mode if one is needed,
   * permission, name.
   */
  function Refusal(view: SP.View, hasDataMode: bool, argument: Option<string>, needsMode: bool,
                   required: SP.Permission): (r: Option<Text>)
    ensures r.Some? ==> r.value.code >= 500 && !Launching(r.value)
    ensures r.None? ==> Named(view, argument).Some?
    ensures r == Some(NOT_LOGGED_IN) <==> !view.authenticated
    ensures r == Some(NO_ARGUMENT) <==> view.authenticated && argument.None?
    ensures r == Some(USE_PASV) <==> view.authenticated && argument.Some? && needsMode && !hasDataMode
    ensures r == Some(DENIED) <==> view.authenticated && argument.Some? && (needsMode ==> hasDataMode)
                                   && !SP.Allowed(view, argument.value, required)
    ensures r.None? ==> view.authenticated && argument.Some? && (needsMode ==> hasDataMode)
                        && SP.Allowed(view, argument.value, required)
  {
    if !view.authenticated then Some(NOT_LOGGED_IN)
    else if argument.None? then Some(NO_ARGUMENT)
    else if needsMode && !hasDataMode then Some(USE_PASV)
    else if !SP.Allowed(view, argument.value, required) then Some(DENIED)
    else if SP.Resolved(view, argument.value).None? then Some(INVALID_PATH)
    else None
  }

  /**
   * REST's argument as strtoll reads it: all of it a number that is not negative; larger numbers become the largest.
   */
  function RestartOffsetOf(argument: string): (r: Option<int>)
    ensures r.Some? ==> 0 <= r.value <= LLONG_MAX
  {
    var n := ScanNumber(argument);
    if n.None? || n.value.1 != "" || n.value.0 < 0 then None
    else Some(if n.value.0 > LLONG_MAX then LLONG_MAX else n.value.0)
  }

  /** Every offset a client can mean is the offset the server takes. */
  lemma RestRoundTrip(n: nat)
    ensures RestartOffsetOf(Decimal(n)) == Some(if n > LLONG_MAX then LLONG_MAX else n)
  {
    ScanDecimal(n, "");
    assert Decimal(n) + "" == Decimal(n);
  }

  /** REST takes a number with white space or a sign in front; nothing behind it, and nothing below zero. */
  lemma RestReads(spaces: string, sign: string, n: nat, tail: string)
    requires forall c | c in spaces :: IsSpace(c)
    requires sign in {"", "+", "-"} && (tail == "" || !IsDigit(tail[0]))
    ensures RestartOffsetOf(spaces + sign + Decimal(n) + tail)
            == if tail != "" || (sign == "-" && n > 0) then None else Some(if n > LLONG_MAX then LLONG_MAX else n)
  {
    ScanSigned(spaces, sign, n, tail);
  }

  /**
   * Whatever RNTO objects to before it takes its lock: the commands' order, permission, name, and a destination free
   * and in a directory.
   */
  function DestinationRefusal(view: SP.View, renamePending: bool, argument: Option<string>, files: set<Path>,
                              dirs: set<Path>): (r: Option<Text>)
    ensures r.Some? ==> Fits(r.value) && r.value.code >= 500
    ensures r.None? ==> renamePending && Named(view, argument).Some? && Named(view, argument).value !in files + dirs
  {
    if !view.authenticated then Some(NOT_LOGGED_IN)
    else if argument.None? then Some(NO_ARGUMENT)
    else if !renamePending then Some(RNFR_FIRST)
    else if !SP.Allowed(view, argument.value, SP.RENAME) then Some(Text(550, "Permission denied for destination"))
    else if SP.Resolved(view, argument.value).None? then Some(Text(550, "Invalid destination path"))
    else
      var to := SP.Resolved(view, argument.value).value;
      var parent := if |to| >= PATH_SIZE then None else ParentOf(to);
      if to in files + dirs then Some(Text(550, "Destination already exists"))
      else if parent.Some? && parent.value !in files + dirs then Some(Text(550, "Destination directory does not exist"))
      else if parent.Some? && parent.value !in dirs then Some(Text(550, "Invalid destination path"))
      else None
  }

  /** A file has moved to a name that was free. */
  predicate Renamed(before: Files, after: Files, from: Path, to: Path) {
    from in before && to !in before && after == before[to := before[from]] - {from}
  }

  function CompletionText(result: P.Result): (t: Text)
    ensures Fits(t)
  {
    match result
    case Ok => COMPLETE
    case WasAborted => Text(226, "ABOR command successful")
    case ConnError => ABORTED
    case IoError => Text(451, "Failed to read/write file")
    case InternalError => Text(451, "Internal server error during transfer")
  }

  /** Only a transfer that ends well is announced as complete, and every result has a reply of its own. */
  lemma CompletionTells(r: P.Result, q: P.Result)
    ensures CompletionText(r) == COMPLETE <==> r.Ok?
    ensures CompletionText(r).code == 226 <==> r.Ok? || r.WasAborted?
    ensures CompletionText(r) == CompletionText(q) <==> r == q
  {
    assert "Transfer complete" != "ABOR command successful";
    assert |"Failed to read/write file"| != |"Internal server error during transfer"|;
  }

  /** The reply of a transfer command that has made all its checks and still starts no transfer. */
  predicate Launching(last: Text) { last.code == 150 || last == CANT_OPEN || last == NOT_STARTED }

  /** And why: the announcement cannot be sent, the system refuses a connection or a thread, or a thread is live. */
  predicate Thwarted(last: Text, idle: bool, refused: bool, sendFailed: bool) {
    || (last.code == 150 && sendFailed)
    || (last == CANT_OPEN && refused)
    || (last == NOT_STARTED && (refused || !idle))
  }

  /** Without an argument the working directory is listed. */
  function ListedName(argument: Option<string>): string { if argument.Some? then argument.value else "." }

  /** LIST without an argument lists the working directory. */
  lemma ListsHere(view: SP.View, c: seq<string>)
    requires PL.CanonicalComponents(c) && view.cwd == Render(c)
    ensures Named(view, Some(ListedName(None))) == Named(view, Some(view.cwd))
  {
    PL.DotIsHere(c);
    PL.CanonicalIsFixed(view.cwd, c);
  }

  /**
   * What the users' data say to USER and PASS: whether the name is known, anonymous logins are on and the password is
   * right; and what a login brings: the home directory, whether it exists, and the permissions.
   */
  datatype Login = Login(known: bool, anonymous: bool, accepted: bool, home: string, homeExists: bool,
                         permissions: set<SP.Permission>)

  // ----- what a command does, as far as its client can tell -----

  /**
   * A session and the files at one moment, with the reply last sent, and how often a file operation has failed and the
   * system has refused the session something.
   */
  datatype Scene = Scene(own: Own, view: SP.View, waiting: bool, ascii: bool, hasDataMode: bool, last: Text,
                         pending: Pending, files: Files, failures: nat, refused: nat)

  /** A transfer has been started. */
  predicate Starts(x: Scene, y: Scene) { x.own.thread.Idle? && y.own.thread.Starting? }

  /** What has failed or been refused remains so. */
  predicate Onward(x: Scene, y: Scene) { y.failures >= x.failures && y.refused >= x.refused }

  /** The command has been turned down with this reply. */
  predicate Refuses(x: Scene, y: Scene, t: Text) { y.last == t && !Starts(x, y) && y.files == x.files && Onward(x, y) }

  /** The lock is held by others, or there is no memory for it. */
  predicate Busy(x: Scene, y: Scene, locks: LockMap, path: Path, mode: Mode) {
    Refuses(x, y, BUSY) && (!CanAcquire(locks, path, mode) || y.refused > x.refused)
  }

  /** All checks have been passed and the files are as they should be: only the system is in the way of a transfer. */
  predicate Proceeds(x: Scene, y: Scene, files: Files) {
    && y.files == files && Onward(x, y)
    && (Starts(x, y) || Thwarted(y.last, x.own.thread.Idle?, y.refused > x.refused, y.own.sendFailed))
  }

  predicate SameSettings(x: Scene, y: Scene) {
    y.view == x.view && y.waiting == x.waiting && y.ascii == x.ascii && (y.hasDataMode ==> x.hasDataMode)
  }

  /** A download under its lock. */
  predicate Downloads(path: Path, dirs: set<Path>, x: Scene, y: Scene) {
    if path in dirs then Refuses(x, y, Text(550, "Cannot download a directory"))
    else if path !in x.files then Refuses(x, y, NOT_FOUND)
    else if y.failures > x.failures then Refuses(x, y, CANT_READ)
    else if x.pending.offset > |x.files[path]| then Refuses(x, y, BAD_OFFSET)
    else Proceeds(x, y, x.files)
  }

  predicate Fetches(path: Path, dirs: set<Path>, locks: LockMap, x: Scene, y: Scene) {
    if path !in x.files && path !in dirs then Refuses(x, y, NOT_FOUND)
    else Busy(x, y, locks, path, Shared) || (CanAcquire(locks, path, Shared) && Downloads(path, dirs, x, y))
  }

  predicate RetrDoes(argument: Option<string>, dirs: set<Path>, locks: LockMap, x: Scene, y: Scene) {
    var refusal := Refusal(x.view, x.hasDataMode, argument, true, SP.READ);
    SameSettings(x, y)
    && if refusal.Some? then Refuses(x, y, refusal.value) else Fetches(Named(x.view, argument).value, dirs, locks, x, y)
  }

  /** An upload under its lock: a resumed one needs the file, a fresh one removes it. */
  predicate Uploads(path: Path, x: Scene, y: Scene) {
    if x.pending.offset > 0 then
      if path !in x.files then Refuses(x, y, Text(550, "File does not exist for resume"))
      else if y.failures > x.failures then Refuses(x, y, CANT_READ)
      else if x.pending.offset > |x.files[path]| then Refuses(x, y, BAD_OFFSET)
      else Proceeds(x, y, x.files)
    else if y.failures > x.failures then path in x.files && Refuses(x, y, Text(550, "Cannot overwrite existing file"))
    else Proceeds(x, y, x.files - {path})
  }

  /** What the system has refused for the lock does not matter behind it. */
  lemma ProceedsFrom(x: Scene, between: Scene, y: Scene, files: Files)
    requires between == x.(refused := between.refused, last := between.last) && between.refused >= x.refused
    requires Proceeds(between, y, files)
    ensures Proceeds(x, y, files)
  {
  }

  lemma UploadsFrom(path: Path, x: Scene, between: Scene, y: Scene)
    requires between == x.(refused := between.refused, last := between.last) && between.refused >= x.refused
    requires Uploads(path, between, y)
    ensures Uploads(path, x, y)
  {
  }

  predicate Stores(path: Path, dirs: set<Path>, locks: LockMap, x: Scene, y: Scene) {
    if path in dirs then Refuses(x, y, Text(550, "Cannot upload to a directory"))
    else Busy(x, y, locks, path, Exclusive) || (CanAcquire(locks, path, Exclusive) && Uploads(path, x, y))
  }

  predicate StorDoes(argument: Option<string>, dirs: set<Path>, locks: LockMap, x: Scene, y: Scene) {
    var refusal := Refusal(x.view, x.hasDataMode, argument, true, SP.WRITE);
    SameSettings(x, y)
    && if refusal.Some? then Refuses(x, y, refusal.value) else Stores(Named(x.view, argument).value, dirs, locks, x, y)
  }

  predicate AppendsLocked(path: Path, locks: LockMap, x: Scene, y: Scene) {
    || Busy(x, y, locks, path, Exclusive)
    || (CanAcquire(locks, path, Exclusive)
        && if y.failures > x.failures then path in x.files && Refuses(x, y, CANT_READ) else Proceeds(x, y, x.files))
  }

  predicate Appends(path: Path, dirs: set<Path>, locks: LockMap, x: Scene, y: Scene) {
    if path in dirs then Refuses(x, y, Text(550, "Cannot append to a directory")) else AppendsLocked(path, locks, x, y)
  }

  predicate AppeDoes(argument: Option<string>, dirs: set<Path>, locks: LockMap, x: Scene, y: Scene) {
    var refusal := Refusal(x.view, x.hasDataMode, argument, true, SP.WRITE);
    SameSettings(x, y) && y.pending == x.pending
    && if refusal.Some? then Refuses(x, y, refusal.value) else Appends(Named(x.view, argument).value, dirs, locks, x, y)
  }

  predicate Lists(path: Path, dirs: set<Path>, x: Scene, y: Scene) {
    if path !in x.files && path !in dirs then Refuses(x, y, Text(550, "Path not found")) else Proceeds(x, y, x.files)
  }

  predicate ListDoes(argument: Option<string>, dirs: set<Path>, x: Scene, y: Scene) {
    var refusal := Refusal(x.view, x.hasDataMode, Some(ListedName(argument)), true, SP.READ);
    SameSettings(x, y) && y.pending == x.pending
    && if refusal.Some? then Refuses(x, y, refusal.value)
       else Lists(Named(x.view, Some(ListedName(argument))).value, dirs, x, y)
  }

  predicate Deletes(path: Path, dirs: set<Path>, locks: LockMap, x: Scene, y: Scene) {
    if path in dirs then Refuses(x, y, Text(550, "Cannot delete directory with DELE (use RMD)"))
    else if path !in x.files then Refuses(x, y, NOT_FOUND)
    else Busy(x, y, locks, path, Exclusive)
         || (CanAcquire(locks, path, Exclusive)
             && if y.failures > x.failures then Refuses(x, y, Text(550, "Failed to delete file"))
                else y.last == DELETED && y.files == x.files - {path} && !Starts(x, y) && Onward(x, y))
  }

  predicate DeleDoes(argument: Option<string>, dirs: set<Path>, locks: LockMap, x: Scene, y: Scene) {
    var refusal := Refusal(x.view, x.hasDataMode, argument, false, SP.DELETE);
    SameSettings(x, y) && y.hasDataMode == x.hasDataMode && y.pending == x.pending
    && if refusal.Some? then Refuses(x, y, refusal.value) else Deletes(Named(x.view, argument).value, dirs, locks, x, y)
  }

  /** SIZE prints the size, MDTM the time. */
  predicate ProbesLocked(path: Path, locks: LockMap, time: Option<string>, x: Scene, y: Scene)
    requires path in x.files
  {
    || Busy(x, y, locks, path, Shared)
    || (CanAcquire(locks, path, Shared)
        && Refuses(x, y, if y.failures > x.failures then CANT_READ
                         else Text(213, if time.Some? then time.value else Decimal(|x.files[path]|))))
  }

  predicate Probes(path: Path, dirs: set<Path>, locks: LockMap, time: Option<string>, x: Scene, y: Scene) {
    if path in dirs then Refuses(x, y, Text(550, "Cannot get size of a directory"))
    else if path !in x.files then Refuses(x, y, NOT_FOUND)
    else ProbesLocked(path, locks, time, x, y)
  }

  predicate ProbeDoes(argument: Option<string>, dirs: set<Path>, locks: LockMap, time: Option<string>, x: Scene,
                      y: Scene)
  {
    var refusal := Refusal(x.view, x.hasDataMode, argument, false, SP.READ);
    SameSettings(x, y) && y.hasDataMode == x.hasDataMode && y.pending == x.pending
    && if refusal.Some? then Refuses(x, y, refusal.value)
       else Probes(Named(x.view, argument).value, dirs, locks, time, x, y)
  }

  predicate Marks(path: Path, dirs: set<Path>, locks: LockMap, x: Scene, y: Scene) {
    if path !in x.files && path !in dirs then
      Refuses(x, y, Text(550, "File or directory not found")) && y.pending == x.pending
    else (Busy(x, y, locks, path, Exclusive) && y.pending == x.pending)
         || (CanAcquire(locks, path, Exclusive) && Refuses(x, y, RENAME_READY)
             && y.pending == x.pending.(source := Some(path)))
  }

  predicate RnfrDoes(argument: Option<string>, dirs: set<Path>, locks: LockMap, x: Scene, y: Scene) {
    var refusal := Refusal(x.view, x.hasDataMode, argument, false, SP.RENAME);
    SameSettings(x, y) && y.hasDataMode == x.hasDataMode
    && if refusal.Some? then Refuses(x, y, refusal.value) && y.pending == x.pending
       else Marks(Named(x.view, argument).value, dirs, locks, x, y)
  }

  /** The rename itself, under the lock on its source; a directory moves without effect on the files. */
  predicate Renames(from: Path, to: Path, dirs: set<Path>, x: Scene, y: Scene) {
    if from !in x.files && from !in dirs then Refuses(x, y, Text(550, "Source file no longer exists"))
    else if y.failures > x.failures then Refuses(x, y, Text(550, "Rename failed"))
    else y.last == RENAMED && !Starts(x, y) && Onward(x, y)
         && if from in x.files then Renamed(x.files, y.files, from, to) else y.files == x.files
  }

  predicate RenamesTo(from: Path, to: Path, dirs: set<Path>, locks: LockMap, x: Scene, y: Scene) {
    && y.pending == x.pending.(source := None)
    && (Busy(x, y, locks, from, Exclusive)
        || (CanAcquire(locks, from, Exclusive) && Renames(from, to, dirs, x, y)))
  }

  predicate RntoDoes(argument: Option<string>, dirs: set<Path>, locks: LockMap, x: Scene, y: Scene) {
    var refusal := DestinationRefusal(x.view, x.pending.source.Some?, argument, x.files.Keys, dirs);
    SameSettings(x, y) && y.hasDataMode == x.hasDataMode &&
    if refusal.Some? then Refuses(x, y, refusal.value) && y.pending == x.pending
    else
      RenamesTo(x.pending.source.value, Named(x.view, argument).value, dirs, locks, x, y)
  }

  /** Nothing has changed between the scenes but the reply. */
  predicate Says(x: Scene, y: Scene, t: Text) {
    && y.last == t && y.own.thread == x.own.thread
    && y.view == x.view && y.waiting == x.waiting && y.ascii == x.ascii && y.hasDataMode == x.hasDataMode
    && y.pending == x.pending && y.files == x.files && y.failures == x.failures && y.refused == x.refused
  }

  predicate RestDoes(argument: Option<string>, x: Scene, y: Scene) {
    if !x.view.authenticated then Says(x, y, NOT_LOGGED_IN)
    else if argument.None? then Says(x, y, NO_ARGUMENT)
    else if RestartOffsetOf(argument.value).None? then Says(x, y, Text(501, "Invalid restart offset"))
    else
      var offset := RestartOffsetOf(argument.value).value;
      Says(x.(pending := x.pending.(offset := offset)), y,
           Text(350, "Restart position accepted (" + Decimal(offset) + ")"))
  }

  /** CWD, and CDUP, which asks for the parent and takes no argument. */
  predicate CwdDoes(up: bool, argument: Option<string>, dirs: set<Path>, x: Scene, y: Scene) {
    if !x.view.authenticated then Says(x, y, NOT_LOGGED_IN)
    else if up && argument.Some? then Says(x, y, Text(501, "CDUP does not take parameters"))
    else if !up && argument.None? then Says(x, y, NO_ARGUMENT)
    else
      var asked := if up then ".." else argument.value;
      if SP.Allowed(x.view, asked, SP.READ) && IsIn(SP.Resolved(x.view, asked), dirs) then
        Says(x.(view := SP.AfterCwd(x.view, asked, true)), y, DIRECTORY_CHANGED)
      else
        Says(x, y, Text(550, if up then "Failed to change to parent directory" else "Failed to change directory"))
  }

  predicate AborDoes(x: Scene, y: Scene) {
    && Says(x.(hasDataMode := false), y, if x.own.thread.Running? then ABORTED else NO_TRANSFER)
    && y.own.abort == (x.own.abort || x.own.thread.Running?)
  }

  // The commands that neither look at files nor start a transfer.

  predicate UserDoes(argument: Option<string>, login: Login, x: Scene, y: Scene) {
    if argument.None? then Says(x, y, NO_ARGUMENT)
    else if argument.value == "anonymous" then
      if login.anonymous then Says(x.(waiting := true), y, ANONYMOUS_PASSWORD) else Says(x, y, NO_ANONYMOUS)
    else if login.known then Says(x.(waiting := true), y, NEED_PASSWORD)
    else Says(x, y, NO_SUCH_USER)
  }

  /** A password is looked at only when one is awaited; one that is right logs in. */
  predicate PassDoes(login: Login, x: Scene, y: Scene) {
    if !x.waiting then Says(x, y, USER_FIRST)
    else if !login.accepted then Says(x, y, WRONG_PASSWORD)
    else Says(x.(view := SP.AfterLogin(x.view, login.home, login.homeExists, login.permissions), waiting := false), y,
              LOGGED_IN)
  }

  predicate QuitDoes(argument: Option<string>, goodbye: string, x: Scene, y: Scene) {
    && Says(x, y, if argument.Some? then NoParameters("QUIT")
                  else Text(221, if x.view.authenticated then "Closing connection" else Cut(goodbye, 255)))
    && y.own.quit == (x.own.quit || argument.None?)
  }

  /** REIN leaves the session as it began. */
  predicate ReinDoes(argument: Option<string>, x: Scene, y: Scene) {
    if argument.Some? then Says(x, y, NoParameters("REIN"))
    else Says(x.(view := SP.View(x.view.root, "/", "", {}, false), waiting := false, ascii := true,
                 hasDataMode := false, pending := NOTHING_PENDING), y, READY) && !y.own.abort
  }

  predicate PortDoes(argument: Option<string>, x: Scene, y: Scene) {
    if !x.view.authenticated then Says(x, y, NOT_LOGGED_IN)
    else if argument.None? then Says(x, y, NO_ARGUMENT)
    else if ParsePort(argument.value).None? then Says(x, y, BAD_PORT)
    else Says(x.(hasDataMode := true), y, PORT_SET)
  }

  /** A PASV whose reply cannot be sent closes its socket again. */
  predicate PasvDoes(argument: Option<string>, address: string, x: Scene, y: Scene) {
    if !x.view.authenticated then Says(x, y, NOT_LOGGED_IN)
    else if argument.Some? then Says(x, y, NoParameters("PASV"))
    else if y.refused == x.refused then
      Says(x.(hasDataMode := y.own.finals > x.own.finals), y, Text(227, Cut(address, 249)))
    else
      y.refused > x.refused && Says(x.(hasDataMode := y.hasDataMode, refused := y.refused), y, y.last)
      && y.last.code == 451
      && (y.hasDataMode ==> x.hasDataMode)
  }

  predicate TypeDoes(argument: Option<string>, x: Scene, y: Scene) {
    if !x.view.authenticated then Says(x, y, NOT_LOGGED_IN)
    else if argument.None? then Says(x, y, NO_ARGUMENT)
    else if Setting(argument.value) == "A" || Setting(argument.value) == "A N" then Says(x.(ascii := true), y, TYPE_A)
    else if Setting(argument.value) == "I" then Says(x.(ascii := false), y, TYPE_I)
    else Says(x, y, if Setting(argument.value) == "E" || Setting(argument.value) == "E N" then NO_EBCDIC else BAD_TYPE)
  }

  /** STRU and MODE know one setting each, and two that are not supported. */
  predicate SettingDoes(argument: Option<string>, known: char, others: set<char>, done: Text, unsupported: Text,
                        bad: Text, x: Scene, y: Scene)
  {
    Says(x, y, if !x.view.authenticated then NOT_LOGGED_IN
               else if argument.None? then NO_ARGUMENT
               else if Setting(argument.value) == [known] then done
               else if |Setting(argument.value)| == 1 && Setting(argument.value)[0] in others then unsupported
               else bad)
  }

  predicate PwdDoes(argument: Option<string>, x: Scene, y: Scene) {
    Says(x, y, if !x.view.authenticated then NOT_LOGGED_IN
               else if argument.Some? then NoParameters("PWD")
               else Text(257, Quoted(Cut(x.view.cwd, PWD_BUFFER - 1), " is current directory")))
  }

  /** MKD and RMD make their refusals by what is there; whether the system then does it is up to the system. */
  predicate MkdDoes(argument: Option<string>, dirs: set<Path>, x: Scene, y: Scene) {
    var refusal := Refusal(x.view, x.hasDataMode, argument, false, SP.MKDIR);
    if refusal.Some? then Says(x, y, refusal.value)
    else if IsIn(Named(x.view, argument), x.files.Keys + dirs) then Says(x, y, DIRECTORY_EXISTS)
    else if y.refused > x.refused then Says(x.(refused := y.refused), y, NOT_CREATED)
    else Says(x, y, Text(257, Quoted(argument.value, " directory created")))
  }

  predicate RmdDoes(argument: Option<string>, dirs: set<Path>, x: Scene, y: Scene) {
    var refusal := Refusal(x.view, x.hasDataMode, argument, false, SP.RMDIR);
    if refusal.Some? then Says(x, y, refusal.value) else Removes(Named(x.view, argument).value, dirs, x, y)
  }

  predicate Removes(path: Path, dirs: set<Path>, x: Scene, y: Scene) {
    if path !in x.files && path !in dirs then Says(x, y, NO_DIRECTORY)
    else if path !in dirs then Says(x, y, NOT_A_DIRECTORY)
    else if y.refused > x.refused then Says(x.(refused := y.refused), y, NOT_REMOVED)
    else Says(x, y, Text(250, "Directory removed"))
  }

  /**
   * How a transfer's end reaches the client: by the final reply, but for a connection error of a session that is
   * quitting. An ABOR that comes too late for the transfer leaves its flag up.
   */
  predicate Announced(a: Own, b: Own, result: P.Result, late: bool) {
    var done := a.(abort := late || (a.abort && !result.WasAborted?));
    if result.ConnError? && a.quit then b == done
    else b == done.(finals := done.finals + 1) || b == done.(sendFailed := true)
  }

  /** The thread has gone; an ABOR that comes too late leaves its flag up. */
  function Left(a: Own, late: bool): Own { a.(thread := P.Idle, params := None, abort := a.abort || late) }

  lemma AnnouncedAndLeft(a: Own, b: Own, result: P.Result, late: bool)
    requires Announced(a, b, result, false)
    ensures Announced(a.(thread := P.Idle, params := None), Left(b, late), result, late)
  {
  }

  /** The lock table after a transfer has ended. */
  function GivenUp(locks: LockMap, p: P.Params): LockMap {
    if p.lockAcquired && !p.operation.SendList? then Release(locks, p.path, ModeFor(p.operation)) else locks
  }

  /**
   * How a transfer went: its result, what it met with, whether the abort flag was up when it began, what the client had
   * to deliver, what has been sent, and the segments received with what a failed write has stored of one more.
   */
  datatype Course = Course(result: P.Result, met: T.Met, raised: bool, arriving: Bytes, sent: Bytes,
                           segments: seq<Bytes>, partial: Bytes)

  /**
   * What a transfer does: a download changes no file and sends the file from the offset on, or if it fails a front part
   * of that; an upload stores what arrives; and the result is as what they have met with makes it.
   */
  ghost predicate Moved(p: P.Params, before: Files, after: Files, c: Course) {
    match p.operation
    case SendFile =>
      && after == before && c.result == T.DownloadResult(before, p.path, p.offset, c.met)
      && if p.path in before && p.offset <= |before[p.path]| then
           var wire := P.OnWire(p.ascii, before[p.path][p.offset..]);
           c.sent <= wire && (c.result.Ok? ==> c.sent == wire)
         else c.sent == [] && !c.result.Ok?
    case ReceiveFile =>
      && T.Stored(before, after, p.path, p.offset, p.ascii, c.arriving, c.result, c.segments, c.partial)
      && c.sent == [] && (c.raised ==> !c.result.Ok?) && c.result == T.UploadResult(c.met)
    case SendList => after == before
  }

  /** What has been sent since. */
  ghost function Since(before: Bytes, now: Bytes): (r: Bytes)
    ensures before <= now ==> now == before + r
  {
    if before <= now then now[|before|..] else []
  }

  lemma DownloadMoved(p: P.Params, files: Files, before: Bytes, now: Bytes, c: Course, wire: Bytes)
    requires p.operation.SendFile? && c.sent == Since(before, now)
    requires p.path in files && p.offset <= |files[p.path]| ==> wire == P.OnWire(p.ascii, files[p.path][p.offset..])
    requires if p.path in files && p.offset <= |files[p.path]| then T.SentFront(now, before, wire)
             else now == before && !c.result.Ok?
    requires c.result.Ok? ==> now == before + wire
    requires c.result == T.DownloadResult(files, p.path, p.offset, c.met)
    ensures Moved(p, files, files, c) && now == before + c.sent
  {
    if p.path in files && p.offset <= |files[p.path]| {
      var k :| 0 <= k <= |wire| && now == before + wire[..k];
      assert Since(before, now) == wire[..k];
    }
  }

  /** Without the file, or beyond its end, a download does not end well. */
  lemma MissingIsNotOk(files: Files, path: Path, offset: nat, m: T.Met)
    ensures T.DownloadResult(files, path, offset, m).Ok? ==> path in files && offset <= |files[path]|
  {
  }

  /** With the flag up an upload does not end well. */
  lemma FlagIsNotOk(m: T.Met)
    ensures T.UploadResult(m).Ok? ==> !m.flag
  {
  }

  /** What a transfer meets with is what happens around it; the flag can be up only if it was, or an ABOR comes. */
  predicate Meets(m: T.Met, raised: bool, open: bool, aborting: bool, refused: bool, socketFailed: bool,
                  fileFailed: bool)
  {
    && m.open == open && m.memory == !refused && (m.flag ==> raised || aborting)
    && m.socketFailed == socketFailed && m.fileFailed == fileFailed
  }

  // ----- the session -----

  /** A session, as its command thread and its transfer thread use it. */
  class CommandThread {
    var view: SP.View
    // a name has been given and the password is awaited
    var waiting: bool
    var hasDataMode: bool
    var ascii: bool
    var restartOffset: int
    var renamePending: bool
    var renameFrom: Path
    var threadState: P.ThreadState
    var params: Option<P.Params>
    var shouldAbort: bool
    var shouldQuit: bool
    // final replies sent, whether any reply could not be sent, and the reply last attempted
    var finals: nat
    var sendFailed: bool
    var last: Text
    ghost var refused: nat

    function Mine(): Own
      reads this
    {
      Own(threadState, params, shouldAbort, shouldQuit, finals, sendFailed)
    }

    /** What the session remembers between commands. */
    function Remembered(): Pending
      reads this
    {
      Pending(if renamePending then Some(renameFrom) else None, restartOffset)
    }

    ghost function SceneOf(fs: T.FileSystem): Scene
      reads this, fs
    {
      Scene(Mine(), view, waiting, ascii, hasDataMode, last, Remembered(), fs.files, fs.failures, refused)
    }

    /** A thread exists exactly while the state is not idle, and its parameters with it. */
    predicate Valid()
      reads this
    {
      restartOffset >= 0 && (threadState.Idle? <==> params.None?)
    }

    constructor (root: string)
      ensures Valid() && Remembered() == NOTHING_PENDING && Mine() == Own(P.Idle, None, false, false, 0, false)
      ensures view == SP.View(root, "/", "", {}, false) && !waiting && ascii && !hasDataMode
    {
      waiting := false;
      view := SP.View(root, "/", "", {}, false);
      hasDataMode, ascii, restartOffset, renamePending, renameFrom := false, true, 0, false, "";
      threadState, params, shouldAbort, shouldQuit := P.Idle, None, false, false;
      finals, sendFailed, last := 0, false, Text(220, "FTP Server Ready");
    }

    // ----- session.c -----

    /** session_send_response: a reply that fits is lost only if it cannot be sent. */
    method SendResponse(t: Text) returns (response: int)
      requires Fits(t)
      modifies this`finals, this`sendFailed, this`last
      ensures (response == 0 || response == -1) && last == t && Answered(old(Mine()), Mine(), response)
    {
      last := t;
      var line := FormatResponse(PROTO_MAX_RESPONSE_LINE, t.code, ' ', t.message);
      if line.None? { return -1; }
      var sent: bool := *;
      if !sent {
        sendFailed := true;
        return -1;
      }
      finals := finals + 1;
      return 0;
    }

    /** The 150 reply, which is not final. */
    method SendPreliminary(message: string) returns (response: int)
      requires |message| + 7 <= PROTO_MAX_RESPONSE_LINE
      modifies this`sendFailed, this`last
      ensures last == Text(150, message)
      ensures if response == 0 then sendFailed == old(sendFailed) else response == -1 && sendFailed
    {
      last := Text(150, message);
      var line := FormatResponse(PROTO_MAX_RESPONSE_LINE, 150, ' ', message);
      if line.None? { return -1; }
      var sent: bool := *;
      if sent { return 0; }
      sendFailed := true;
      return -1;
    }

    /** Something the system may refuse: memory, a thread, a connection, a directory. */
    method Obtain() returns (granted: bool)
      modifies this`refused
      ensures refused == old(refused) + if granted then 0 else 1
    {
      granted := *;
      if !granted { refused := refused + 1; }
    }

    method CloseDataConnection()
      modifies this`hasDataMode
      ensures !hasDataMode
    {
      hasDataMode := false;
    }

    /** Succeeds only when no thread is live; the system may refuse memory or a thread. */
    method StartTransferThread(p: P.Params) returns (result: int)
      requires Valid()
      modifies this`threadState, this`params, this`refused
      ensures Valid() && refused >= old(refused)
      ensures result == 0 <==> old(threadState).Idle? && refused == old(refused)
      ensures if result == 0 then Started(old(Mine()), Mine(), p) else result == -1 && Mine() == old(Mine())
    {
      if !threadState.Idle? { return -1; }
      var granted := Obtain();
      if !granted { return -1; }
      params, threadState := Some(p), P.Starting;
      return 0;
    }

    // ----- the common parts of the handlers -----

    /** Makes the first checks and sends the refusal. */
    method Admit(argument: Option<string>, needsMode: bool, required: SP.Permission)
      returns (path: Option<Path>, response: int)
      modifies this`finals, this`sendFailed, this`last
      ensures path.None? <==> Refusal(view, hasDataMode, argument, needsMode, required).Some?
      ensures path.Some? ==>
                path == Named(view, argument) && argument.Some? && Mine() == old(Mine()) && last == old(last)
      ensures path.None? ==> Answered(old(Mine()), Mine(), response)
                             && Some(last) == Refusal(view, hasDataMode, argument, needsMode, required)
    {
      path, response := None, 0;
      if !view.authenticated { response := SendResponse(NOT_LOGGED_IN); return; }
      if argument.None? { response := SendResponse(NO_ARGUMENT); return; }
      if needsMode && !hasDataMode { response := SendResponse(USE_PASV); return; }
      if !SP.Allowed(view, argument.value, required) { response := SendResponse(DENIED); return; }
      path := SP.Resolved(view, argument.value);
      if path.None? { response := SendResponse(INVALID_PATH); }
    }

    /** Asks for the lock and sends the reply of a busy file. */
    method Acquire(locks: FileLocks, path: Path, mode: Mode) returns (acquired: bool, response: int)
      requires locks.Valid()
      modifies locks, locks.Entries(), this`finals, this`sendFailed, this`last, this`refused
      ensures locks.Valid() && Sound(locks.locks) && fresh(locks.Entries() - old(locks.Entries()))
      ensures refused >= old(refused)
      ensures !acquired ==> !CanAcquire(old(locks.locks), path, mode) || refused > old(refused)
      ensures acquired ==>
                CanAcquire(old(locks.locks), path, mode) && locks.locks == TryAcquire(old(locks.locks), path, mode)
                           && Sound(old(locks.locks)) && Mine() == old(Mine())
      ensures !acquired ==> locks.locks == old(locks.locks) && Answered(old(Mine()), Mine(), response) && last == BUSY
    {
      hide FileLocks.Valid, CanAcquire, TryAcquire, Sound;
      locks.ValidIsSound();
      var canAllocate := Obtain();
      if mode.Shared? {
        acquired := locks.TryAcquireShared(path, canAllocate);
      } else {
        acquired := locks.TryAcquireExclusive(path, canAllocate);
      }
      locks.ValidIsSound();
      response := 0;
      if !acquired { response := SendResponse(BUSY); }
    }

    /** The release that undoes an acquisition. */
    method GiveBack(locks: FileLocks, path: Path, mode: Mode, ghost before: LockMap)
      requires locks.Valid() && Sound(before) && CanAcquire(before, path, mode)
               && locks.locks == TryAcquire(before, path, mode)
      modifies locks, locks.Entries()
      ensures locks.Valid() && locks.locks == before && locks.Entries() <= old(locks.Entries())
    {
      ReleaseUndoesAcquire(before, path, mode);
      locks.ReleaseCommon(path, mode.Exclusive?);
    }

    /** With the data connection open: starts the thread, or says that it cannot be started. */
    method Start(p: P.Params) returns (response: int, started: bool)
      requires Valid()
      modifies this`hasDataMode, this`threadState, this`params, this`finals, this`sendFailed, this`last, this`refused
      ensures Valid() && refused >= old(refused)
      ensures if started then response == 0 && Started(old(Mine()), Mine(), p)
              else Answered(old(Mine()), Mine(), response) && last == NOT_STARTED
                   && (refused > old(refused) || !old(threadState).Idle?)
    {
      response := StartTransferThread(p);
      started := response == 0;
      if !started {
        response := SendResponse(NOT_STARTED);
        CloseDataConnection();
      }
    }

    /**
     * Announces a transfer, opens the data connection and starts the thread; RETR and STOR forget the offset once it is
     * open.
     */
    method Launch(opening: string, p: P.Params, forgets: bool) returns (response: int, started: bool, connected: bool)
      requires Valid() && |opening| + 7 <= PROTO_MAX_RESPONSE_LINE
      modifies this`restartOffset, this`hasDataMode, this`threadState, this`params, this`finals, this`sendFailed,
               this`last, this`refused
      ensures Valid() && restartOffset == (if connected && forgets then 0 else old(restartOffset))
              && refused >= old(refused)
      ensures if started then connected && response == 0 && Started(old(Mine()), Mine(), p)
              else Answered(old(Mine()), Mine(), response)
                   && Thwarted(last, old(threadState).Idle?, refused > old(refused), sendFailed) && Launching(last)
    {
      started, connected := false, false;
      response := SendPreliminary(opening);
      if response != 0 { return -1, false, false; }
      connected := Obtain();
      if !connected {
        response := SendResponse(CANT_OPEN);
        return;
      }
      if forgets { restartOffset := 0; }
      response, started := Start(p);
    }

    // ----- RETR -----

    /** With the shared lock held: the file is checked again, and the transfer launched. */
    method LaunchDownload(fs: T.FileSystem, dirs: set<Path>, path: Path, argument: string)
      returns (response: int, started: bool, connected: bool)
      requires Valid() && |argument| < PROTO_MAX_CMD_ARG
      modifies this`restartOffset, this`hasDataMode, this`threadState, this`params, this`finals, this`sendFailed,
               this`last, this`refused, fs`failures
      ensures Valid() && restartOffset == (if connected then 0 else old(restartOffset)) && refused >= old(refused)
      ensures if started then response == 0
                              && Started(old(Mine()), Mine(),
                                         P.Params(P.SendFile, path, old(restartOffset), ascii, true))
              else Answered(old(Mine()), Mine(), response)
      ensures Downloads(path, dirs, old(SceneOf(fs)), SceneOf(fs))
      ensures started ==> connected && path in fs.files && path !in dirs && old(restartOffset) <= |fs.files[path]|
    {
      started, connected := false, false;
      var offset := restartOffset;
      if path !in fs.files && path !in dirs { response := SendResponse(NOT_FOUND); return; }
      if path in dirs { response := SendResponse(Text(550, "Cannot download a directory")); return; }
      var fileSize := fs.FileSize(path);
      if fileSize < 0 { response := SendResponse(CANT_READ); return; }
      if offset > fileSize { response := SendResponse(BAD_OFFSET); return; }
      OpeningsFit(ascii, argument, fileSize - offset);
      response, started, connected :=
        Launch(OpeningDownload(ascii, argument, fileSize - offset), P.Params(P.SendFile, path, offset, ascii, true),
               true);
    }

    /** Takes the shared lock, and gives it back unless a thread has been started. */
    method Download(locks: FileLocks, fs: T.FileSystem, dirs: set<Path>, path: Path, argument: string)
      returns (response: int, started: bool, connected: bool)
      requires Valid() && locks.Valid() && |argument| < PROTO_MAX_CMD_ARG
      modifies this`restartOffset, this`hasDataMode, this`threadState, this`params, this`finals, this`sendFailed,
               this`last, this`refused, locks, locks.Entries(), fs`failures
      ensures Valid() && locks.Valid() && fresh(locks.Entries() - old(locks.Entries()))
      ensures restartOffset == (if connected then 0 else old(restartOffset))
      ensures Busy(old(SceneOf(fs)), SceneOf(fs), old(locks.locks), path, Shared)
              || (CanAcquire(old(locks.locks), path, Shared) && Downloads(path, dirs, old(SceneOf(fs)), SceneOf(fs)))
      ensures if started then
                var p := P.Params(P.SendFile, path, old(restartOffset), ascii, true);
                && response == 0 && connected && Started(old(Mine()), Mine(), p)
                  && Owns(old(locks.locks), locks.locks, p)
                && path in fs.files && path !in dirs && p.offset <= |fs.files[path]|
              else Answered(old(Mine()), Mine(), response) && locks.locks == old(locks.locks)
    {
      hide FileLocks.Valid, CanAcquire, TryAcquire, Sound;
      started, connected := false, false;
      var acquired;
      acquired, response := Acquire(locks, path, Shared);
      if !acquired { return; }
      response, started, connected := LaunchDownload(fs, dirs, path, argument);
      if !started { GiveBack(locks, path, Shared, old(locks.locks)); }
    }

    /** Looks for the file first. */
    method Fetch(locks: FileLocks, fs: T.FileSystem, dirs: set<Path>, path: Path, argument: string)
      returns (response: int, started: bool, connected: bool)
      requires Valid() && locks.Valid() && |argument| < PROTO_MAX_CMD_ARG
      modifies this`restartOffset, this`hasDataMode, this`threadState, this`params, this`finals, this`sendFailed,
               this`last, this`refused, locks, locks.Entries(), fs`failures
      ensures Valid() && locks.Valid() && fresh(locks.Entries() - old(locks.Entries()))
      ensures restartOffset == (if connected then 0 else old(restartOffset))
      ensures Fetches(path, dirs, old(locks.locks), old(SceneOf(fs)), SceneOf(fs))
      ensures if started then
                var p := P.Params(P.SendFile, path, old(restartOffset), ascii, true);
                && response == 0 && connected && Started(old(Mine()), Mine(), p)
                  && Owns(old(locks.locks), locks.locks, p)
                && path in fs.files && path !in dirs && p.offset <= |fs.files[path]|
              else Answered(old(Mine()), Mine(), response) && locks.locks == old(locks.locks)
    {
      hide FileLocks.Valid, CanAcquire, TryAcquire, Sound, Downloads, Busy;
      started, connected := false, false;
      if path !in fs.files && path !in dirs { response := SendResponse(NOT_FOUND); return; }
      response, started, connected := Download(locks, fs, dirs, path, argument);
    }

    method HandleRetr(locks: FileLocks, fs: T.FileSystem, dirs: set<Path>, argument: Option<string>)
      returns (response: int, started: bool, effect: Effect)
      requires Valid() && locks.Valid() && (argument.Some? ==> |argument.value| < PROTO_MAX_CMD_ARG)
      modifies this`restartOffset, this`hasDataMode, this`threadState, this`params, this`finals, this`sendFailed,
               this`last, this`refused, locks, locks.Entries(), fs`failures
      ensures Valid() && locks.Valid() && fresh(locks.Entries() - old(locks.Entries()))
      ensures Remembered() == Concluded(old(Remembered()), RETR, effect) && Possible(Handled(RETR, effect))
      ensures RetrDoes(argument, dirs, old(locks.locks), old(SceneOf(fs)), SceneOf(fs))
      ensures !started ==> Answered(old(Mine()), Mine(), response) && locks.locks == old(locks.locks)
      ensures started ==> response == 0 && IsIn(Named(view, argument), fs.files.Keys) && effect.Consumed?
                          && SP.Allowed(view, argument.value, SP.READ)
      ensures started ==>
                var p := P.Params(P.SendFile, Named(view, argument).value, old(restartOffset), ascii, true);
                Started(old(Mine()), Mine(), p) && Owns(old(locks.locks), locks.locks, p)
                  && p.offset <= |fs.files[p.path]|
    {
      hide FileLocks.Valid, SP.Allowed, SP.Resolved, CanAcquire, TryAcquire, Sound, Refusal, Named, Fetches, Owns,
           Started;
      started, effect := false, NoEffect;
      var path;
      path, response := Admit(argument, true, SP.READ);
      if path.None? { return; }
      var connected;
      response, started, connected := Fetch(locks, fs, dirs, path.value, argument.value);
      effect := if connected then Consumed else NoEffect;
    }

    // ----- STOR and APPE -----

    /** A resumed upload needs the file, a fresh one removes it. */
    method PrepareUpload(fs: T.FileSystem, path: Path) returns (ready: bool, response: int)
      requires Valid()
      modifies this`finals, this`sendFailed, this`last, fs
      ensures Valid() && (ready ==> Mine() == old(Mine()) && fs.failures == old(fs.failures))
      ensures ready ==> if restartOffset > 0 then
                          fs.files == old(fs.files) && path in fs.files && restartOffset <= |fs.files[path]|
                        else fs.files == old(fs.files) - {path}
      ensures !ready ==> Answered(old(Mine()), Mine(), response) && fs.files == old(fs.files) && !Launching(last)
                         && Uploads(path, old(SceneOf(fs)), SceneOf(fs))
    {
      ready, response := false, 0;
      if restartOffset > 0 {
        if path !in fs.files { response := SendResponse(Text(550, "File does not exist for resume")); return; }
        var fileSize := fs.FileSize(path);
        if fileSize < 0 { response := SendResponse(CANT_READ); return; }
        if restartOffset > fileSize { response := SendResponse(BAD_OFFSET); return; }
      } else if path in fs.files {
        var deleted := fs.Delete(path);
        if !deleted { response := SendResponse(Text(550, "Cannot overwrite existing file")); return; }
      }
      ready := true;
    }

    /** With the exclusive lock held. */
    method LaunchUpload(fs: T.FileSystem, dirs: set<Path>, path: Path, argument: string)
      returns (response: int, started: bool, connected: bool)
      requires Valid() && |argument| < PROTO_MAX_CMD_ARG && path !in dirs
      modifies this`restartOffset, this`hasDataMode, this`threadState, this`params, this`finals, this`sendFailed,
               this`last, this`refused, fs
      ensures Valid() && restartOffset == (if connected then 0 else old(restartOffset)) && refused >= old(refused)
      ensures Uploads(path, old(SceneOf(fs)), SceneOf(fs))
      ensures if started then
                connected && response == 0
                && Started(old(Mine()), Mine(), P.Params(P.ReceiveFile, path, old(restartOffset), ascii, true))
                && fs.files == (if old(restartOffset) > 0 then old(fs.files) else old(fs.files) - {path})
                && (old(restartOffset) > 0 ==> path in fs.files && old(restartOffset) <= |fs.files[path]|)
              else
                Answered(old(Mine()), Mine(), response)
                && (fs.files != old(fs.files) <==> old(restartOffset) == 0 && path in old(fs.files) && Launching(last))
                && (fs.files != old(fs.files) ==> fs.files == old(fs.files) - {path})
    {
      hide Thwarted;
      started, connected := false, false;
      var ready;
      ready, response := PrepareUpload(fs, path);
      if !ready { return; }
      OpeningsFit(ascii, argument, 0);
      response, started, connected :=
        Launch(OpeningUpload(ascii, argument), P.Params(P.ReceiveFile, path, restartOffset, ascii, true), true);
    }

    /** Takes the exclusive lock, and gives it back unless a thread has been started. */
    method Upload(locks: FileLocks, fs: T.FileSystem, dirs: set<Path>, path: Path, argument: string)
      returns (response: int, started: bool, connected: bool)
      requires Valid() && locks.Valid() && |argument| < PROTO_MAX_CMD_ARG && path !in dirs
      modifies this`restartOffset, this`hasDataMode, this`threadState, this`params, this`finals, this`sendFailed,
               this`last, this`refused, locks, locks.Entries(), fs
      ensures Valid() && locks.Valid() && fresh(locks.Entries() - old(locks.Entries()))
      ensures restartOffset == (if connected then 0 else old(restartOffset))
      ensures Busy(old(SceneOf(fs)), SceneOf(fs), old(locks.locks), path, Exclusive)
              || (CanAcquire(old(locks.locks), path, Exclusive) && Uploads(path, old(SceneOf(fs)), SceneOf(fs)))
      ensures if started then
                var p := P.Params(P.ReceiveFile, path, old(restartOffset), ascii, true);
                && response == 0 && connected && Started(old(Mine()), Mine(), p)
                  && Owns(old(locks.locks), locks.locks, p)
                && fs.files == (if p.offset > 0 then old(fs.files) else old(fs.files) - {path})
                && (p.offset > 0 ==> path in fs.files && p.offset <= |fs.files[path]|)
              else
                Answered(old(Mine()), Mine(), response) && locks.locks == old(locks.locks)
                && (fs.files != old(fs.files) <==> old(restartOffset) == 0 && path in old(fs.files) && Launching(last))
                && (fs.files != old(fs.files) ==>
                      CanAcquire(old(locks.locks), path, Exclusive) && fs.files == old(fs.files) - {path})
    {
      hide FileLocks.Valid, CanAcquire, TryAcquire, Sound, Uploads;
      started, connected := false, false;
      var acquired;
      acquired, response := Acquire(locks, path, Exclusive);
      if !acquired { return; }
      ghost var between := SceneOf(fs);
      response, started, connected := LaunchUpload(fs, dirs, path, argument);
      UploadsFrom(path, old(SceneOf(fs)), between, SceneOf(fs));
      if !started { GiveBack(locks, path, Exclusive, old(locks.locks)); }
    }

    /** Looks first whether the name is a directory's. */
    method StoreAt(locks: FileLocks, fs: T.FileSystem, dirs: set<Path>, path: Path, argument: string)
      returns (response: int, started: bool, connected: bool)
      requires Valid() && locks.Valid() && |argument| < PROTO_MAX_CMD_ARG
      modifies this`restartOffset, this`hasDataMode, this`threadState, this`params, this`finals, this`sendFailed,
               this`last, this`refused, locks, locks.Entries(), fs
      ensures Valid() && locks.Valid() && fresh(locks.Entries() - old(locks.Entries()))
      ensures restartOffset == (if connected then 0 else old(restartOffset))
      ensures Stores(path, dirs, old(locks.locks), old(SceneOf(fs)), SceneOf(fs))
      ensures if started then
                var p := P.Params(P.ReceiveFile, path, old(restartOffset), ascii, true);
                && response == 0 && connected && Started(old(Mine()), Mine(), p)
                  && Owns(old(locks.locks), locks.locks, p) && path !in dirs
                && fs.files == (if p.offset > 0 then old(fs.files) else old(fs.files) - {path})
                && (p.offset > 0 ==> path in fs.files && p.offset <= |fs.files[path]|)
              else
                Answered(old(Mine()), Mine(), response) && locks.locks == old(locks.locks)
                && (fs.files != old(fs.files) <==> old(restartOffset) == 0 && path in old(fs.files) && Launching(last))
                && (fs.files != old(fs.files) ==>
                      CanAcquire(old(locks.locks), path, Exclusive) && fs.files == old(fs.files) - {path})
    {
      hide FileLocks.Valid, CanAcquire, TryAcquire, Sound, Uploads, Busy;
      started, connected := false, false;
      if path in dirs { response := SendResponse(Text(550, "Cannot upload to a directory")); return; }
      response, started, connected := Upload(locks, fs, dirs, path, argument);
    }

    method HandleStor(locks: FileLocks, fs: T.FileSystem, dirs: set<Path>, argument: Option<string>)
      returns (response: int, started: bool, effect: Effect)
      requires Valid() && locks.Valid() && (argument.Some? ==> |argument.value| < PROTO_MAX_CMD_ARG)
      modifies this`restartOffset, this`hasDataMode, this`threadState, this`params, this`finals, this`sendFailed,
               this`last, this`refused, locks, locks.Entries(), fs
      ensures Valid() && locks.Valid() && fresh(locks.Entries() - old(locks.Entries()))
      ensures Remembered() == Concluded(old(Remembered()), STOR, effect) && Possible(Handled(STOR, effect))
      ensures StorDoes(argument, dirs, old(locks.locks), old(SceneOf(fs)), SceneOf(fs))
      ensures !started ==> Answered(old(Mine()), Mine(), response) && locks.locks == old(locks.locks)
      // a failure loses the file exactly if it comes after the checks of a fresh upload
      ensures !started ==>
                (fs.files != old(fs.files) <==>
                   old(restartOffset) == 0 && IsIn(Named(view, argument), old(fs.files).Keys) && Launching(last))
      ensures !started && fs.files != old(fs.files) ==>
                FreeFor(old(locks.locks), Named(view, argument), Exclusive)
                && fs.files == old(fs.files) - {Named(view, argument).value}
      ensures started ==> response == 0 && effect.Consumed? && Named(view, argument).Some?
                          && SP.Allowed(view, argument.value, SP.WRITE) && Named(view, argument).value !in dirs
      ensures started ==>
                var p := P.Params(P.ReceiveFile, Named(view, argument).value, old(restartOffset), ascii, true);
                && Started(old(Mine()), Mine(), p) && Owns(old(locks.locks), locks.locks, p)
                && fs.files == (if p.offset > 0 then old(fs.files) else old(fs.files) - {p.path})
                && (p.offset > 0 ==> p.path in fs.files && p.offset <= |fs.files[p.path]|)
    {
      hide FileLocks.Valid, SP.Allowed, SP.Resolved, CanAcquire, TryAcquire, Sound, Refusal, Named, Stores, Owns,
           Started, Launching;
      started, effect := false, NoEffect;
      var path;
      path, response := Admit(argument, true, SP.WRITE);
      if path.None? { return; }
      var connected;
      response, started, connected := StoreAt(locks, fs, dirs, path.value, argument.value);
      effect := if connected then Consumed else NoEffect;
    }

    /** With the exclusive lock held: the transfer is launched at the end of the file. */
    method LaunchAppend(fs: T.FileSystem, path: Path, argument: string) returns (response: int, started: bool)
      requires Valid() && |argument| < PROTO_MAX_CMD_ARG
      modifies this`restartOffset, this`hasDataMode, this`threadState, this`params, this`finals, this`sendFailed,
               this`last, this`refused, fs`failures
      ensures Valid() && restartOffset == old(restartOffset)
      ensures if fs.failures > old(fs.failures) then
                path in fs.files && Refuses(old(SceneOf(fs)), SceneOf(fs), CANT_READ)
              else Proceeds(old(SceneOf(fs)), SceneOf(fs), fs.files)
      ensures if started then
                response == 0
                && Started(old(Mine()), Mine(),
                           P.Params(P.ReceiveFile, path, |ContentOrEmpty(fs.files, path)|, ascii, true))
              else Answered(old(Mine()), Mine(), response)
    {
      started := false;
      var offset := 0;
      if path in fs.files {
        offset := fs.FileSize(path);
        if offset < 0 { response := SendResponse(CANT_READ); return; }
      }
      OpeningsFit(ascii, argument, 0);
      var connected;
      response, started, connected :=
        Launch(OpeningUpload(ascii, argument), P.Params(P.ReceiveFile, path, offset, ascii, true), false);
    }

    /** Takes the exclusive lock, and gives it back unless a thread has been started. */
    method AppendLocked(locks: FileLocks, fs: T.FileSystem, path: Path, argument: string)
      returns (response: int, started: bool)
      requires Valid() && locks.Valid() && |argument| < PROTO_MAX_CMD_ARG
      modifies this`restartOffset, this`hasDataMode, this`threadState, this`params, this`finals, this`sendFailed,
               this`last, this`refused, locks, locks.Entries(), fs`failures
      ensures Valid() && locks.Valid() && fresh(locks.Entries() - old(locks.Entries()))
      ensures Remembered() == old(Remembered())
      ensures AppendsLocked(path, old(locks.locks), old(SceneOf(fs)), SceneOf(fs))
      ensures if started then
                var p := P.Params(P.ReceiveFile, path, |ContentOrEmpty(fs.files, path)|, ascii, true);
                response == 0 && Started(old(Mine()), Mine(), p) && Owns(old(locks.locks), locks.locks, p)
              else Answered(old(Mine()), Mine(), response) && locks.locks == old(locks.locks)
    {
      hide FileLocks.Valid, CanAcquire, TryAcquire, Sound, Proceeds, Started;
      started := false;
      var acquired;
      acquired, response := Acquire(locks, path, Exclusive);
      if !acquired { return; }
      ghost var between := SceneOf(fs);
      response, started := LaunchAppend(fs, path, argument);
      if fs.failures <= old(fs.failures) { ProceedsFrom(old(SceneOf(fs)), between, SceneOf(fs), fs.files); }
      if !started { GiveBack(locks, path, Exclusive, old(locks.locks)); }
    }

    /** Looks first whether the name is a directory's. */
    method AppendTo(locks: FileLocks, fs: T.FileSystem, dirs: set<Path>, path: Path, argument: string)
      returns (response: int, started: bool)
      requires Valid() && locks.Valid() && |argument| < PROTO_MAX_CMD_ARG
      modifies this`restartOffset, this`hasDataMode, this`threadState, this`params, this`finals, this`sendFailed,
               this`last, this`refused, locks, locks.Entries(), fs`failures
      ensures Valid() && locks.Valid() && fresh(locks.Entries() - old(locks.Entries()))
      ensures Remembered() == old(Remembered())
      ensures Appends(path, dirs, old(locks.locks), old(SceneOf(fs)), SceneOf(fs))
      ensures if started then
                var p := P.Params(P.ReceiveFile, path, |ContentOrEmpty(fs.files, path)|, ascii, true);
                response == 0 && Started(old(Mine()), Mine(), p) && Owns(old(locks.locks), locks.locks, p)
                && path !in dirs
              else Answered(old(Mine()), Mine(), response) && locks.locks == old(locks.locks)
    {
      hide FileLocks.Valid, AppendsLocked, Started, Owns;
      started := false;
      if path in dirs { response := SendResponse(Text(550, "Cannot append to a directory")); return; }
      response, started := AppendLocked(locks, fs, path, argument);
    }

    method HandleAppe(locks: FileLocks, fs: T.FileSystem, dirs: set<Path>, argument: Option<string>)
      returns (response: int, started: bool)
      requires Valid() && locks.Valid() && (argument.Some? ==> |argument.value| < PROTO_MAX_CMD_ARG)
      modifies this`restartOffset, this`hasDataMode, this`threadState, this`params, this`finals, this`sendFailed,
               this`last, this`refused, locks, locks.Entries(), fs`failures
      ensures Valid() && locks.Valid() && fresh(locks.Entries() - old(locks.Entries()))
      ensures Remembered() == old(Remembered())
      ensures AppeDoes(argument, dirs, old(locks.locks), old(SceneOf(fs)), SceneOf(fs))
      ensures !started ==> Answered(old(Mine()), Mine(), response) && locks.locks == old(locks.locks)
      ensures started ==> response == 0 && Named(view, argument).Some?
                          && SP.Allowed(view, argument.value, SP.WRITE) && Named(view, argument).value !in dirs
      ensures started ==>
                var path := Named(view, argument).value;
                var p := P.Params(P.ReceiveFile, path, |ContentOrEmpty(fs.files, path)|, ascii, true);
                Started(old(Mine()), Mine(), p) && Owns(old(locks.locks), locks.locks, p)
    {
      hide FileLocks.Valid, SP.Allowed, SP.Resolved, CanAcquire, TryAcquire, Sound, Refusal, Named, Appends, Owns,
           Started;
      started := false;
      var path;
      path, response := Admit(argument, true, SP.WRITE);
      if path.None? { return; }
      response, started := AppendTo(locks, fs, dirs, path.value, argument.value);
    }

    // ----- LIST and NLST -----

    /** LIST and NLST start a transfer without any lock. */
    method List(fs: T.FileSystem, dirs: set<Path>, namesOnly: bool, path: Path) returns (response: int, started: bool)
      requires Valid()
      modifies this`restartOffset, this`hasDataMode, this`threadState, this`params, this`finals, this`sendFailed,
               this`last, this`refused
      ensures Valid() && Remembered() == old(Remembered())
      ensures if started then
                response == 0 && path in fs.files.Keys + dirs
                && Started(old(Mine()), Mine(), P.Params(P.SendList, path, 0, ascii, false))
              else Answered(old(Mine()), Mine(), response)
      ensures Lists(path, dirs, old(SceneOf(fs)), SceneOf(fs))
    {
      hide Thwarted;
      started := false;
      if path !in fs.files && path !in dirs {
        response := SendResponse(Text(550, "Path not found"));
        return;
      }
      var connected;
      var opening := if namesOnly then "Opening data connection for name list"
                     else "Opening data connection for directory listing";
      response, started, connected := Launch(opening, P.Params(P.SendList, path, 0, ascii, false), false);
    }

    /** LIST and NLST start a transfer without any lock. */
    method HandleList(fs: T.FileSystem, dirs: set<Path>, namesOnly: bool, argument: Option<string>)
      returns (response: int, started: bool)
      requires Valid()
      modifies this`restartOffset, this`hasDataMode, this`threadState, this`params, this`finals, this`sendFailed,
               this`last, this`refused
      ensures Valid() && Remembered() == old(Remembered())
      ensures if started then
                response == 0 && IsIn(Named(view, Some(ListedName(argument))), fs.files.Keys + dirs)
                && Started(old(Mine()), Mine(),
                           P.Params(P.SendList, Named(view, Some(ListedName(argument))).value, 0, ascii, false))
              else Answered(old(Mine()), Mine(), response)
      ensures ListDoes(argument, dirs, old(SceneOf(fs)), SceneOf(fs))
    {
      hide SP.Allowed, SP.Resolved, Refusal, Named, Lists;
      started := false;
      var path;
      path, response := Admit(Some(ListedName(argument)), true, SP.READ);
      if path.None? { return; }
      response, started := List(fs, dirs, namesOnly, path.value);
    }

    // ----- DELE, SIZE and MDTM -----

    method DeleteLocked(fs: T.FileSystem, dirs: set<Path>, path: Path) returns (response: int)
      modifies this`finals, this`sendFailed, this`last, fs
      ensures Answered(old(Mine()), Mine(), response)
      ensures if path in dirs then last == Text(550, "Cannot delete directory with DELE (use RMD)")
              else if path !in old(fs.files) then last == NO_MORE_FILE
              else if fs.failures > old(fs.failures) then last == Text(550, "Failed to delete file")
              else last == DELETED
      ensures fs.files == (if last == DELETED then old(fs.files) - {path} else old(fs.files))
              && fs.failures >= old(fs.failures)
    {
      if path !in fs.files && path !in dirs { response := SendResponse(NO_MORE_FILE); return; }
      if path in dirs { response := SendResponse(Text(550, "Cannot delete directory with DELE (use RMD)")); return; }
      var deleted := fs.Delete(path);
      if !deleted { response := SendResponse(Text(550, "Failed to delete file")); return; }
      response := SendResponse(DELETED);
    }

    /** Deletes under the lock. */
    method DeleteAt(locks: FileLocks, fs: T.FileSystem, dirs: set<Path>, path: Path) returns (response: int)
      requires locks.Valid()
      modifies this`finals, this`sendFailed, this`last, this`refused, locks, locks.Entries(), fs
      ensures locks.Valid() && locks.locks == old(locks.locks) && fresh(locks.Entries() - old(locks.Entries()))
      ensures Answered(old(Mine()), Mine(), response)
      ensures Deletes(path, dirs, old(locks.locks), old(SceneOf(fs)), SceneOf(fs))
      ensures if last == DELETED then path in old(fs.files) && CanAcquire(old(locks.locks), path, Exclusive)
                                      && fs.files == old(fs.files) - {path}
              else fs.files == old(fs.files)
    {
      hide FileLocks.Valid, CanAcquire, TryAcquire, Sound;
      if path !in fs.files && path !in dirs { response := SendResponse(NOT_FOUND); return; }
      if path in dirs {
        response := SendResponse(Text(550, "Cannot delete directory with DELE (use RMD)"));
        return;
      }
      var acquired;
      acquired, response := Acquire(locks, path, Exclusive);
      if !acquired { return; }
      response := DeleteLocked(fs, dirs, path);
      GiveBack(locks, path, Exclusive, old(locks.locks));
    }

    method HandleDele(locks: FileLocks, fs: T.FileSystem, dirs: set<Path>, argument: Option<string>)
      returns (response: int)
      requires locks.Valid()
      modifies this`finals, this`sendFailed, this`last, this`refused, locks, locks.Entries(), fs
      ensures locks.Valid() && locks.locks == old(locks.locks) && fresh(locks.Entries() - old(locks.Entries()))
      ensures Answered(old(Mine()), Mine(), response)
      ensures DeleDoes(argument, dirs, old(locks.locks), old(SceneOf(fs)), SceneOf(fs))
      ensures if last == DELETED then
                IsIn(Named(view, argument), old(fs.files).Keys)
                && FreeFor(old(locks.locks), Named(view, argument), Exclusive)
                && SP.Allowed(view, argument.value, SP.DELETE)
                && fs.files == old(fs.files) - {Named(view, argument).value}
              else fs.files == old(fs.files)
    {
      hide FileLocks.Valid, SP.Allowed, SP.Resolved, CanAcquire, TryAcquire, Sound, Refusal, Named, Deletes;
      var path;
      path, response := Admit(argument, false, SP.DELETE);
      if path.None? { return; }
      response := DeleteAt(locks, fs, dirs, path.value);
    }

    /** Holds the shared lock only while it asks the file system. */
    method ProbeLocked(locks: FileLocks, fs: T.FileSystem, path: Path, time: Option<string>) returns (response: int)
      requires locks.Valid() && (time.Some? ==> |time.value| <= 14) && path in fs.files
      modifies this`finals, this`sendFailed, this`last, this`refused, locks, locks.Entries(), fs`failures
      ensures locks.Valid() && locks.locks == old(locks.locks) && fresh(locks.Entries() - old(locks.Entries()))
      ensures Answered(old(Mine()), Mine(), response)
      ensures ProbesLocked(path, old(locks.locks), time, old(SceneOf(fs)), SceneOf(fs))
    {
      hide FileLocks.Valid, CanAcquire, TryAcquire, Sound, Decimal;
      var acquired;
      acquired, response := Acquire(locks, path, Shared);
      if !acquired { return; }
      var fileSize := fs.FileSize(path);
      GiveBack(locks, path, Shared, old(locks.locks));
      if fileSize < 0 { response := SendResponse(CANT_READ); return; }
      SizeLength(fileSize);
      response := SendResponse(Text(213, if time.Some? then time.value else Decimal(fileSize)));
    }

    method Probe(locks: FileLocks, fs: T.FileSystem, dirs: set<Path>, path: Path, time: Option<string>)
      returns (response: int)
      requires locks.Valid() && (time.Some? ==> |time.value| <= 14)
      modifies this`finals, this`sendFailed, this`last, this`refused, locks, locks.Entries(), fs`failures
      ensures locks.Valid() && locks.locks == old(locks.locks) && fresh(locks.Entries() - old(locks.Entries()))
      ensures Answered(old(Mine()), Mine(), response)
      ensures Probes(path, dirs, old(locks.locks), time, old(SceneOf(fs)), SceneOf(fs))
    {
      hide FileLocks.Valid, ProbesLocked;
      if path !in fs.files && path !in dirs { response := SendResponse(NOT_FOUND); return; }
      if path in dirs { response := SendResponse(Text(550, "Cannot get size of a directory")); return; }
      response := ProbeLocked(locks, fs, path, time);
    }

    /** SIZE and MDTM. */
    method HandleProbe(locks: FileLocks, fs: T.FileSystem, dirs: set<Path>, argument: Option<string>,
                       time: Option<string>)
      returns (response: int)
      requires locks.Valid() && (time.Some? ==> |time.value| <= 14)
      modifies this`finals, this`sendFailed, this`last, this`refused, locks, locks.Entries(), fs`failures
      ensures locks.Valid() && locks.locks == old(locks.locks) && fresh(locks.Entries() - old(locks.Entries()))
      ensures Answered(old(Mine()), Mine(), response)
      ensures ProbeDoes(argument, dirs, old(locks.locks), time, old(SceneOf(fs)), SceneOf(fs))
    {
      hide FileLocks.Valid, SP.Allowed, SP.Resolved, CanAcquire, TryAcquire, Sound, Refusal, Named, Probes;
      var path;
      path, response := Admit(argument, false, SP.READ);
      if path.None? { return; }
      response := Probe(locks, fs, dirs, path.value, time);
    }

    // ----- RNFR and RNTO -----

    /** Takes the lock and gives it back at once. */
    method SeeFree(locks: FileLocks, path: Path) returns (free: bool, response: int)
      requires locks.Valid()
      modifies this`finals, this`sendFailed, this`last, this`refused, locks, locks.Entries()
      ensures locks.Valid() && locks.locks == old(locks.locks) && fresh(locks.Entries() - old(locks.Entries()))
      ensures refused >= old(refused)
      ensures if free then CanAcquire(locks.locks, path, Exclusive) && Mine() == old(Mine())
              else Answered(old(Mine()), Mine(), response) && last == BUSY
                   && (!CanAcquire(locks.locks, path, Exclusive) || refused > old(refused))
    {
      hide FileLocks.Valid, CanAcquire, TryAcquire, Sound;
      free, response := Acquire(locks, path, Exclusive);
      if free { GiveBack(locks, path, Exclusive, old(locks.locks)); }
    }

    /** Stores the source of a rename to come. */
    method Remember(path: Path) returns (response: int)
      modifies this`renamePending, this`renameFrom, this`finals, this`sendFailed, this`last
      ensures Remembered() == old(Remembered()).(source := Some(path))
      ensures Answered(old(Mine()), Mine(), response) && last == RENAME_READY
    {
      renameFrom, renamePending := path, true;
      response := SendResponse(RENAME_READY);
    }

    /** Looks for the file and whether it is free. */
    method Mark(locks: FileLocks, fs: T.FileSystem, dirs: set<Path>, path: Path) returns (response: int, effect: Effect)
      requires locks.Valid()
      modifies this`renamePending, this`renameFrom, this`finals, this`sendFailed, this`last, this`refused, locks,
               locks.Entries()
      ensures locks.Valid() && locks.locks == old(locks.locks) && fresh(locks.Entries() - old(locks.Entries()))
      ensures Answered(old(Mine()), Mine(), response) && (effect.SourceStored? <==> last == RENAME_READY)
      ensures Marks(path, dirs, old(locks.locks), old(SceneOf(fs)), SceneOf(fs))
      ensures effect == NoEffect || effect == SourceStored(path)
      ensures effect.SourceStored? ==> path in fs.files.Keys + dirs && CanAcquire(locks.locks, path, Exclusive)
      ensures Remembered() == if effect.SourceStored? then old(Remembered()).(source := Some(path))
                              else old(Remembered())
    {
      hide FileLocks.Valid, CanAcquire, TryAcquire, Sound;
      effect := NoEffect;
      if path !in fs.files && path !in dirs {
        response := SendResponse(Text(550, "File or directory not found"));
        return;
      }
      var free;
      free, response := SeeFree(locks, path);
      if !free { return; }
      effect := SourceStored(path);
      response := Remember(path);
    }

    /** RNFR takes the lock and gives it back to see that nobody else holds it, then remembers the file. */
    method HandleRnfr(locks: FileLocks, fs: T.FileSystem, dirs: set<Path>, argument: Option<string>)
      returns (response: int, effect: Effect)
      requires locks.Valid()
      modifies this`renamePending, this`renameFrom, this`finals, this`sendFailed, this`last, this`refused, locks,
               locks.Entries()
      ensures locks.Valid() && locks.locks == old(locks.locks) && fresh(locks.Entries() - old(locks.Entries()))
      ensures Answered(old(Mine()), Mine(), response) && (effect.SourceStored? <==> last == RENAME_READY)
      ensures RnfrDoes(argument, dirs, old(locks.locks), old(SceneOf(fs)), SceneOf(fs))
      ensures Remembered() == Concluded(old(Remembered()), RNFR, effect) && Possible(Handled(RNFR, effect))
      ensures effect.SourceStored? ==>
                Named(view, argument) == Some(effect.path) && SP.Allowed(view, argument.value, SP.RENAME)
                && effect.path in fs.files.Keys + dirs && CanAcquire(locks.locks, effect.path, Exclusive)
    {
      hide FileLocks.Valid, SP.Allowed, SP.Resolved, CanAcquire, TryAcquire, Sound, Refusal, Named, Marks;
      effect := NoEffect;
      var path;
      path, response := Admit(argument, false, SP.RENAME);
      if path.None? { return; }
      response, effect := Mark(locks, fs, dirs, path.value);
    }

    /** Makes RNTO's checks and sends the refusal. */
    method AdmitDestination(fs: T.FileSystem, dirs: set<Path>, argument: Option<string>)
      returns (to: Option<Path>, response: int)
      modifies this`finals, this`sendFailed, this`last
      ensures var refusal := DestinationRefusal(view, renamePending, argument, fs.files.Keys, dirs);
        if refusal.None? then to == Named(view, argument) && to.Some? && Mine() == old(Mine()) && last == old(last)
        else to.None? && Answered(old(Mine()), Mine(), response) && last == refusal.value
    {
      hide SP.Resolved, ParentOf;
      response := 0;
      var refusal := DestinationRefusal(view, renamePending, argument, fs.files.Keys, dirs);
      if refusal.None? { return Named(view, argument), 0; }
      to := None;
      response := SendResponse(refusal.value);
    }

    /** With the lock on the source held: both names are looked at again. */
    method RenameLocked(fs: T.FileSystem, dirs: set<Path>, from: Path, to: Path) returns (response: int)
      modifies this`finals, this`sendFailed, this`last, fs
      ensures Answered(old(Mine()), Mine(), response)
      ensures if from !in old(fs.files) && from !in dirs then last == Text(550, "Source file no longer exists")
              else if to in old(fs.files) || to in dirs then last == Text(550, "Destination already exists")
              else if fs.failures > old(fs.failures) then last == Text(550, "Rename failed")
              else last == RENAMED
      ensures fs.failures >= old(fs.failures)
      ensures if last == RENAMED && from in old(fs.files) then Renamed(old(fs.files), fs.files, from, to)
              else fs.files == old(fs.files)
    {
      if from !in fs.files && from !in dirs {
        response := SendResponse(Text(550, "Source file no longer exists"));
        return;
      }
      if to in fs.files || to in dirs { response := SendResponse(Text(550, "Destination already exists")); return; }
      var renamed := fs.Rename(from, to);
      if !renamed { response := SendResponse(Text(550, "Rename failed")); return; }
      response := SendResponse(RENAMED);
    }

    /** Renames under the lock on the source. */
    method Rename(locks: FileLocks, fs: T.FileSystem, dirs: set<Path>, from: Path, to: Path) returns (response: int)
      requires locks.Valid() && to !in fs.files && to !in dirs
      modifies this`finals, this`sendFailed, this`last, this`refused, locks, locks.Entries(), fs
      ensures locks.Valid() && locks.locks == old(locks.locks) && fresh(locks.Entries() - old(locks.Entries()))
      ensures Answered(old(Mine()), Mine(), response)
      ensures Busy(old(SceneOf(fs)), SceneOf(fs), old(locks.locks), from, Exclusive)
              || (CanAcquire(old(locks.locks), from, Exclusive)
                  && Renames(from, to, dirs, old(SceneOf(fs)), SceneOf(fs)))
    {
      hide FileLocks.Valid, CanAcquire, TryAcquire, Sound;
      var acquired;
      acquired, response := Acquire(locks, from, Exclusive);
      if !acquired { return; }
      response := RenameLocked(fs, dirs, from, to);
      GiveBack(locks, from, Exclusive, old(locks.locks));
    }

    /** Renames, and forgets the source whatever becomes of it. */
    method RenameTo(locks: FileLocks, fs: T.FileSystem, dirs: set<Path>, to: Path) returns (response: int)
      requires locks.Valid() && to !in fs.files && to !in dirs && renamePending
      modifies this`renamePending, this`renameFrom, this`finals, this`sendFailed, this`last, this`refused, locks,
               locks.Entries(), fs
      ensures locks.Valid() && locks.locks == old(locks.locks) && fresh(locks.Entries() - old(locks.Entries()))
      ensures Answered(old(Mine()), Mine(), response) && Remembered() == old(Remembered()).(source := None)
      ensures RenamesTo(old(renameFrom), to, dirs, old(locks.locks), old(SceneOf(fs)), SceneOf(fs))
      ensures fs.files != old(fs.files) ==> CanAcquire(old(locks.locks), old(renameFrom), Exclusive)
                                            && Renamed(old(fs.files), fs.files, old(renameFrom), to)
    {
      hide FileLocks.Valid, CanAcquire, TryAcquire, Sound, Renamed;
      response := Rename(locks, fs, dirs, renameFrom, to);
      renamePending, renameFrom := false, "";
    }

    /** RNTO forgets the source exactly if it has come as far as trying to lock it. */
    method HandleRnto(locks: FileLocks, fs: T.FileSystem, dirs: set<Path>, argument: Option<string>)
      returns (response: int, effect: Effect)
      requires locks.Valid()
      modifies this`renamePending, this`renameFrom, this`finals, this`sendFailed, this`last, this`refused, locks,
               locks.Entries(), fs
      ensures locks.Valid() && locks.locks == old(locks.locks) && fresh(locks.Entries() - old(locks.Entries()))
      ensures Answered(old(Mine()), Mine(), response)
      ensures Remembered() == Concluded(old(Remembered()), RNTO, effect) && Possible(Handled(RNTO, effect))
      ensures RntoDoes(argument, dirs, old(locks.locks), old(SceneOf(fs)), SceneOf(fs))
      ensures fs.files != old(fs.files) ==>
                effect.Consumed? && Named(view, argument).Some?
                && CanAcquire(old(locks.locks), old(renameFrom), Exclusive)
                && Renamed(old(fs.files), fs.files, old(renameFrom), Named(view, argument).value)
      ensures effect.Consumed?
              <==> DestinationRefusal(view, old(renamePending), argument, old(fs.files).Keys, dirs).None?
    {
      hide FileLocks.Valid, SP.Allowed, SP.Resolved, CanAcquire, TryAcquire, Sound, Named, DestinationRefusal,
           RenamesTo;
      effect := NoEffect;
      var to;
      to, response := AdmitDestination(fs, dirs, argument);
      if to.None? { return; }
      response := RenameTo(locks, fs, dirs, to.value);
      effect := Consumed;
    }

    // ----- REST, CWD, CDUP, ABOR and the others -----

    method HandleRest(ghost fs: T.FileSystem, argument: Option<string>) returns (response: int, effect: Effect)
      requires Valid()
      modifies this`restartOffset, this`finals, this`sendFailed, this`last
      ensures Valid() && Answered(old(Mine()), Mine(), response) && (effect.OffsetAccepted? <==> last.code == 350)
      ensures Remembered() == Concluded(old(Remembered()), REST, effect) && Possible(Handled(REST, effect))
      ensures effect == if view.authenticated && argument.Some? && RestartOffsetOf(argument.value).Some?
                        then OffsetAccepted(RestartOffsetOf(argument.value).value) else NoEffect
      ensures RestDoes(argument, old(SceneOf(fs)), SceneOf(fs))
    {
      hide SP.Allowed, SP.Resolved, RestartOffsetOf, Decimal;
      effect := NoEffect;
      if !view.authenticated { response := SendResponse(NOT_LOGGED_IN); return; }
      if argument.None? { response := SendResponse(NO_ARGUMENT); return; }
      var offset := RestartOffsetOf(argument.value);
      if offset.None? { response := SendResponse(Text(501, "Invalid restart offset")); return; }
      restartOffset, effect := offset.value, OffsetAccepted(offset.value);
      SizeLength(offset.value);
      response := SendResponse(Text(350, "Restart position accepted (" + Decimal(offset.value) + ")"));
    }

    method HandleCwd(ghost fs: T.FileSystem, dirs: set<Path>, argument: Option<string>) returns (response: int)
      modifies this`view, this`finals, this`sendFailed, this`last
      ensures Answered(old(Mine()), Mine(), response)
      ensures CwdDoes(false, argument, dirs, old(SceneOf(fs)), SceneOf(fs))
    {
      hide SP.Resolved;
      if !view.authenticated { response := SendResponse(NOT_LOGGED_IN); return; }
      if argument.None? { response := SendResponse(NO_ARGUMENT); return; }
      var ok := ChangeDirectory(dirs, argument.value);
      if !ok { response := SendResponse(Text(550, "Failed to change directory")); return; }
      response := SendResponse(DIRECTORY_CHANGED);
    }

    method HandleCdup(ghost fs: T.FileSystem, dirs: set<Path>, argument: Option<string>) returns (response: int)
      modifies this`view, this`finals, this`sendFailed, this`last
      ensures Answered(old(Mine()), Mine(), response)
      ensures CwdDoes(true, argument, dirs, old(SceneOf(fs)), SceneOf(fs))
    {
      hide SP.Resolved;
      if !view.authenticated { response := SendResponse(NOT_LOGGED_IN); return; }
      if argument.Some? { response := SendResponse(Text(501, "CDUP does not take parameters")); return; }
      var ok := ChangeDirectory(dirs, "..");
      if !ok { response := SendResponse(Text(550, "Failed to change to parent directory")); return; }
      response := SendResponse(DIRECTORY_CHANGED);
    }

    /** session_change_directory, as SessionPaths has it. */
    method ChangeDirectory(dirs: set<Path>, path: string) returns (ok: bool)
      modifies this`view
      ensures ok <==> SP.Allowed(old(view), path, SP.READ) && IsIn(SP.Resolved(old(view), path), dirs)
      ensures view == if ok then SP.AfterCwd(old(view), path, true) else old(view)
    {
      ok := SP.Allowed(view, path, SP.READ) && IsIn(SP.Resolved(view, path), dirs);
      if ok { view := SP.AfterCwd(view, path, true); }
    }

    /** ABOR raises the flag of a running transfer only, and answers by itself; the transfer answers once more. */
    method HandleAbor(ghost fs: T.FileSystem) returns (response: int)
      modifies this`shouldAbort, this`hasDataMode, this`finals, this`sendFailed, this`last
      ensures AborDoes(old(SceneOf(fs)), SceneOf(fs))
      ensures Answered(if threadState.Running? then old(Mine()).(abort := true) else old(Mine()), Mine(), response)
    {
      if !threadState.Running? {
        CloseDataConnection();
        response := SendResponse(NO_TRANSFER);
        return;
      }
      shouldAbort := true;
      CloseDataConnection();
      response := SendResponse(ABORTED);
    }

    method HandleUser(ghost fs: T.FileSystem, argument: Option<string>, login: Login) returns (response: int)
      modifies this`waiting, this`finals, this`sendFailed, this`last
      ensures Answered(old(Mine()), Mine(), response) && UserDoes(argument, login, old(SceneOf(fs)), SceneOf(fs))
    {
      if argument.None? { response := SendResponse(NO_ARGUMENT); return; }
      var isAnonymous := argument.value == "anonymous";
      if !isAnonymous && !login.known { response := SendResponse(NO_SUCH_USER); return; }
      if isAnonymous && !login.anonymous { response := SendResponse(NO_ANONYMOUS); return; }
      waiting := true;
      response := SendResponse(if isAnonymous then ANONYMOUS_PASSWORD else NEED_PASSWORD);
    }

    method HandlePass(ghost fs: T.FileSystem, login: Login) returns (response: int)
      modifies this`view, this`waiting, this`finals, this`sendFailed, this`last
      ensures Answered(old(Mine()), Mine(), response) && PassDoes(login, old(SceneOf(fs)), SceneOf(fs))
    {
      hide SP.AfterLogin;
      if !waiting { response := SendResponse(USER_FIRST); return; }
      if !login.accepted { response := SendResponse(WRONG_PASSWORD); return; }
      view, waiting := SP.AfterLogin(view, login.home, login.homeExists, login.permissions), false;
      response := SendResponse(LOGGED_IN);
    }

    method HandleQuit(ghost fs: T.FileSystem, argument: Option<string>, goodbye: string) returns (response: int)
      modifies this`shouldQuit, this`finals, this`sendFailed, this`last
      ensures Answered(if argument.Some? then old(Mine()) else old(Mine()).(quit := true), Mine(), response)
      ensures QuitDoes(argument, goodbye, old(SceneOf(fs)), SceneOf(fs))
    {
      if argument.Some? { response := SendResponse(NoParameters("QUIT")); return; }
      shouldQuit := true;
      response := SendResponse(Text(221, if view.authenticated then "Closing connection" else Cut(goodbye, 255)));
    }

    /** session_reset_state, without a live transfer. */
    method Reset(ghost fs: T.FileSystem)
      requires Valid() && threadState.Idle?
      modifies this`view, this`waiting, this`hasDataMode, this`ascii, this`shouldAbort, this`restartOffset,
               this`renamePending, this`renameFrom
      ensures Valid() && Mine() == old(Mine()).(abort := false)
      ensures SceneOf(fs) == old(SceneOf(fs)).(own := Mine(), view := SP.View(old(view).root, "/", "", {}, false),
                                               waiting := false, ascii := true, hasDataMode := false,
                                               pending := NOTHING_PENDING)
    {
      CloseDataConnection();
      view, waiting, ascii, shouldAbort := SP.View(view.root, "/", "", {}, false), false, true, false;
      restartOffset, renamePending, renameFrom := 0, false, "";
    }

    method HandleRein(ghost fs: T.FileSystem, argument: Option<string>) returns (response: int, effect: Effect)
      requires Valid() && threadState.Idle?
      modifies this`view, this`waiting, this`hasDataMode, this`ascii, this`shouldAbort, this`restartOffset,
               this`renamePending, this`renameFrom, this`finals, this`sendFailed, this`last
      ensures Valid()
      ensures Answered(if argument.Some? then old(Mine()) else old(Mine()).(abort := false), Mine(), response)
      ensures Remembered() == Concluded(old(Remembered()), REIN, effect) && Possible(Handled(REIN, effect))
      ensures ReinDoes(argument, old(SceneOf(fs)), SceneOf(fs))
    {
      effect := NoEffect;
      if argument.Some? { response := SendResponse(NoParameters("REIN")); return; }
      Reset(fs);
      effect := Consumed;
      response := SendResponse(READY);
    }

    method HandlePort(ghost fs: T.FileSystem, argument: Option<string>) returns (response: int)
      modifies this`hasDataMode, this`finals, this`sendFailed, this`last
      ensures Answered(old(Mine()), Mine(), response) && PortDoes(argument, old(SceneOf(fs)), SceneOf(fs))
    {
      hide ParsePort;
      if !view.authenticated { response := SendResponse(NOT_LOGGED_IN); return; }
      if argument.None? { response := SendResponse(NO_ARGUMENT); return; }
      if ParsePort(argument.value).None? { response := SendResponse(BAD_PORT); return; }
      hasDataMode := true;
      response := SendResponse(PORT_SET);
    }

    /** The passive mode and its address, if the system has them. */
    method EnterPassive() returns (failure: Option<Text>)
      modifies this`hasDataMode, this`refused
      ensures if failure.None? then refused == old(refused) && hasDataMode
              else refused > old(refused) && failure.value.code == 451 && Fits(failure.value)
                   && (hasDataMode ==> old(hasDataMode))
    {
      var known := Obtain();
      if !known { return Some(Text(451, "Failed to get server address")); }
      hasDataMode := Obtain();
      if !hasDataMode { return Some(Text(451, "Failed to enter passive mode")); }
      var printed := Obtain();
      if printed { return None; }
      CloseDataConnection();
      return Some(Text(451, "Failed to format PASV response"));
    }

    method HandlePasv(ghost fs: T.FileSystem, argument: Option<string>, address: string) returns (response: int)
      modifies this`hasDataMode, this`finals, this`sendFailed, this`last, this`refused
      ensures Answered(old(Mine()), Mine(), response) && PasvDoes(argument, address, old(SceneOf(fs)), SceneOf(fs))
    {
      hide Cut;
      if !view.authenticated { response := SendResponse(NOT_LOGGED_IN); return; }
      if argument.Some? { response := SendResponse(NoParameters("PASV")); return; }
      var failure := EnterPassive();
      if failure.Some? { response := SendResponse(failure.value); return; }
      response := TellPassive(address);
    }

    /** Sends the address, or closes the socket again. */
    method TellPassive(address: string) returns (response: int)
      modifies this`hasDataMode, this`finals, this`sendFailed, this`last
      ensures Answered(old(Mine()), Mine(), response) && last == Text(227, Cut(address, 249))
      ensures hasDataMode == (old(hasDataMode) && response == 0)
    {
      response := SendResponse(Text(227, Cut(address, 249)));
      if response != 0 { CloseDataConnection(); }
    }

    method HandleType(ghost fs: T.FileSystem, argument: Option<string>) returns (response: int)
      modifies this`ascii, this`finals, this`sendFailed, this`last
      ensures Answered(old(Mine()), Mine(), response) && TypeDoes(argument, old(SceneOf(fs)), SceneOf(fs))
    {
      hide Setting;
      if !view.authenticated { response := SendResponse(NOT_LOGGED_IN); return; }
      if argument.None? { response := SendResponse(NO_ARGUMENT); return; }
      var setting := Setting(argument.value);
      if setting == "A" || setting == "A N" {
        ascii := true;
        response := SendResponse(TYPE_A);
      } else if setting == "I" {
        ascii := false;
        response := SendResponse(TYPE_I);
      } else {
        response := SendResponse(if setting == "E" || setting == "E N" then NO_EBCDIC else BAD_TYPE);
      }
    }

    /** STRU and MODE. */
    method HandleSetting(ghost fs: T.FileSystem, argument: Option<string>, known: char, others: set<char>, done: Text,
                         unsupported: Text, bad: Text)
      returns (response: int)
      requires Fits(done) && Fits(unsupported) && Fits(bad)
      modifies this`finals, this`sendFailed, this`last
      ensures Answered(old(Mine()), Mine(), response)
      ensures SettingDoes(argument, known, others, done, unsupported, bad, old(SceneOf(fs)), SceneOf(fs))
    {
      hide Setting;
      if !view.authenticated { response := SendResponse(NOT_LOGGED_IN); return; }
      if argument.None? { response := SendResponse(NO_ARGUMENT); return; }
      var setting := Setting(argument.value);
      if setting == [known] { response := SendResponse(done); return; }
      response := SendResponse(if |setting| == 1 && setting[0] in others then unsupported else bad);
    }

    method HandlePwd(ghost fs: T.FileSystem, argument: Option<string>) returns (response: int)
      modifies this`finals, this`sendFailed, this`last
      ensures Answered(old(Mine()), Mine(), response) && PwdDoes(argument, old(SceneOf(fs)), SceneOf(fs))
    {
      hide Quoted;
      if !view.authenticated { response := SendResponse(NOT_LOGGED_IN); return; }
      if argument.Some? { response := SendResponse(NoParameters("PWD")); return; }
      LongestPwdFits(view.cwd);
      response := SendResponse(Text(257, Quoted(Cut(view.cwd, PWD_BUFFER - 1), " is current directory")));
    }

    method HandleMkd(fs: T.FileSystem, dirs: set<Path>, argument: Option<string>) returns (response: int)
      requires argument.Some? ==> |argument.value| < PROTO_MAX_CMD_ARG
      modifies this`finals, this`sendFailed, this`last, this`refused
      ensures Answered(old(Mine()), Mine(), response) && MkdDoes(argument, dirs, old(SceneOf(fs)), SceneOf(fs))
    {
      hide SP.Allowed, SP.Resolved, Named, Refusal, Quoted;
      var path;
      path, response := Admit(argument, false, SP.MKDIR);
      if path.None? { return; }
      if path.value in fs.files || path.value in dirs { response := SendResponse(DIRECTORY_EXISTS); return; }
      var made := Obtain();
      if !made { response := SendResponse(NOT_CREATED); return; }
      CreatedFits(argument.value);
      response := SendResponse(Text(257, Quoted(argument.value, " directory created")));
    }

    method Remove(fs: T.FileSystem, dirs: set<Path>, path: Path) returns (response: int)
      modifies this`finals, this`sendFailed, this`last, this`refused
      ensures Answered(old(Mine()), Mine(), response) && Removes(path, dirs, old(SceneOf(fs)), SceneOf(fs))
    {
      if path !in fs.files && path !in dirs { response := SendResponse(NO_DIRECTORY); return; }
      if path !in dirs { response := SendResponse(NOT_A_DIRECTORY); return; }
      var removed := Obtain();
      if !removed { response := SendResponse(NOT_REMOVED); return; }
      response := SendResponse(Text(250, "Directory removed"));
    }

    method HandleRmd(fs: T.FileSystem, dirs: set<Path>, argument: Option<string>) returns (response: int)
      modifies this`finals, this`sendFailed, this`last, this`refused
      ensures Answered(old(Mine()), Mine(), response) && RmdDoes(argument, dirs, old(SceneOf(fs)), SceneOf(fs))
    {
      hide SP.Allowed, SP.Resolved, Named, Refusal, Removes;
      var path;
      path, response := Admit(argument, false, SP.RMDIR);
      if path.None? { return; }
      response := Remove(fs, dirs, path.value);
    }

    // ----- the transfer thread (transfer.c) -----

    /** A download, by type. */
    method MoveOut(fs: T.FileSystem, socket: T.DataSocket, flag: T.AbortFlag, p: P.Params, socketOpen: bool,
                   memory: bool)
      returns (result: P.Result, ghost course: Course)
      requires p.operation.SendFile?
      modifies socket`sent, socket`failures, fs`failures, flag
      ensures course.result == result && course.raised == old(flag.raised) && course.arriving == socket.incoming
      ensures course.met == T.Met(socketOpen, memory, flag.raised, socket.failures > old(socket.failures),
                                  fs.failures > old(fs.failures))
      ensures flag.raised ==> old(flag.raised) || flag.coming
      ensures socket.failures >= old(socket.failures) && fs.failures >= old(fs.failures)
      ensures socket.sent == old(socket.sent) + course.sent && Moved(p, fs.files, fs.files, course)
    {
      hide T.SentFront, Moved, T.DownloadResult;
      ghost var wire := if p.path in fs.files && p.offset <= |fs.files[p.path]| then
        P.OnWire(p.ascii, fs.files[p.path][p.offset..]) else [];
      if p.ascii {
        result := T.SendFileAscii(fs, socket, p.path, p.offset, socketOpen, memory, flag);
      } else {
        result := T.SendFile(fs, socket, p.path, p.offset, socketOpen, memory, flag);
      }
      ghost var met := T.Met(socketOpen, memory, flag.raised, socket.failures > old(socket.failures),
                             fs.failures > old(fs.failures));
      course := Course(result, met, old(flag.raised), socket.incoming, Since(old(socket.sent), socket.sent), [], []);
      MissingIsNotOk(fs.files, p.path, p.offset, met);
      DownloadMoved(p, fs.files, old(socket.sent), socket.sent, course, wire);
    }

    /** The transfer itself, by operation and type; `aborting` is whether an ABOR comes while it lasts. */
    method Move(fs: T.FileSystem, socket: T.DataSocket, p: P.Params, socketOpen: bool, aborting: bool)
      returns (result: P.Result, ghost course: Course)
      requires fs as object != socket
      modifies fs, socket, this`refused
      ensures course.result == result && course.raised == shouldAbort && course.arriving == old(socket.incoming)
      ensures Meets(course.met, shouldAbort, socketOpen, aborting, refused > old(refused),
                    socket.failures > old(socket.failures), fs.failures > old(fs.failures))
      ensures refused >= old(refused) && socket.failures >= old(socket.failures) && fs.failures >= old(fs.failures)
      ensures socket.sent == old(socket.sent) + course.sent && Moved(p, old(fs.files), fs.files, course)
    {
      hide T.Stored, P.OnWire, T.UploadResult, T.DownloadResult;
      var memory := Obtain();
      var flag := new T.AbortFlag(shouldAbort, aborting);
      ghost var segments, partial := [], [];
      match p.operation {
        case SendFile =>
          result, course := MoveOut(fs, socket, flag, p, socketOpen, memory);
          return;
        case ReceiveFile =>
          if p.ascii {
            result, segments, partial := T.ReceiveFileAscii(fs, socket, p.path, p.offset, socketOpen, memory, flag);
          } else {
            result, segments, partial := T.ReceiveFile(fs, socket, p.path, p.offset, socketOpen, memory, flag);
          }
        case SendList => result := *;
      }
      ghost var met := T.Met(socketOpen, memory, flag.raised, socket.failures > old(socket.failures),
                             fs.failures > old(fs.failures));
      FlagIsNotOk(met);
      course := Course(result, met, shouldAbort, old(socket.incoming), [], segments, partial);
    }

    /** The thread's final reply, which a connection error spares a session that is quitting. */
    method Announce(result: P.Result)
      modifies this`finals, this`sendFailed, this`last, this`shouldAbort
      ensures Announced(old(Mine()), Mine(), result, false)
      ensures !(result.ConnError? && shouldQuit) ==> last == CompletionText(result)
    {
      if !(result.ConnError? && shouldQuit) {
        var sent := SendResponse(CompletionText(result));
      }
      if result.WasAborted? { shouldAbort := false; }
    }

    /** The thread's release of the lock it was handed, in the mode its operation implies. */
    method ReleaseOwned(locks: FileLocks, p: P.Params)
      requires locks.Valid() && PathValid(p.path)
      modifies locks, locks.Entries()
      ensures locks.Valid() && locks.Entries() <= old(locks.Entries())
      ensures locks.locks == if p.operation.SendList? then old(locks.locks)
                             else Release(old(locks.locks), p.path, ModeFor(p.operation))
    {
      if p.operation.ReceiveFile? {
        locks.ReleaseCommon(p.path, true);
      } else if p.operation.SendFile? {
        locks.ReleaseCommon(p.path, false);
      }
    }

    /** Releases the lock and leaves the session idle; an ABOR may still come in between. */
    method Leave(locks: FileLocks, p: P.Params, result: P.Result, aborting: bool) returns (late: bool)
      requires Valid() && locks.Valid() && (p.lockAcquired ==> PathValid(p.path))
      modifies this`threadState, this`params, this`shouldAbort, locks, locks.Entries()
      ensures Valid() && locks.Valid() && locks.Entries() <= old(locks.Entries()) && (late ==> aborting)
      ensures Mine() == Left(old(Mine()), late) && locks.locks == GivenUp(old(locks.locks), p)
    {
      hide FileLocks.Valid, Release;
      late := *;
      late := late && aborting;
      if late { shouldAbort := true; }
      if p.lockAcquired { ReleaseOwned(locks, p); }
      params := None;
      threadState := if result.WasAborted? then P.Aborted else P.Completing;
      threadState := P.Idle;
    }

    /** Answers the client and leaves. */
    method Conclude(locks: FileLocks, p: P.Params, result: P.Result, aborting: bool) returns (late: bool)
      requires Valid() && locks.Valid() && (p.lockAcquired ==> PathValid(p.path))
      modifies this`threadState, this`params, this`shouldAbort, this`finals, this`sendFailed, this`last,
               locks, locks.Entries()
      ensures Valid() && locks.Valid() && locks.Entries() <= old(locks.Entries()) && (late ==> aborting)
      ensures Announced(old(Mine()).(thread := P.Idle, params := None), Mine(), result, late)
      ensures !(result.ConnError? && shouldQuit) ==> last == CompletionText(result)
      ensures locks.locks == GivenUp(old(locks.locks), p)
    {
      hide FileLocks.Valid, GivenUp, CompletionText, Announced, Left;
      Announce(result);
      ghost var announced := Mine();
      late := Leave(locks, p, result, aborting);
      AnnouncedAndLeft(old(Mine()), announced, result, late);
    }

    /** Moves the file, answers the client, releases the lock and leaves the session idle. */
    method RunTransfer(locks: FileLocks, fs: T.FileSystem, socket: T.DataSocket, socketOpen: bool, aborting: bool)
      returns (result: P.Result, late: bool, ghost course: Course)
      requires Valid() && threadState.Starting? && locks.Valid() && fs as object != socket
      requires params.value.lockAcquired ==> PathValid(params.value.path)
      modifies this`threadState, this`params, this`shouldAbort, this`hasDataMode, this`finals, this`sendFailed,
               this`last, this`refused, locks, locks.Entries(), fs, socket
      ensures Valid() && locks.Valid() && fresh(locks.Entries() - old(locks.Entries())) && (late ==> aborting)
      ensures Announced(old(Mine()).(thread := P.Idle, params := None), Mine(), result, late)
      ensures !(result.ConnError? && shouldQuit) ==> last == CompletionText(result)
      ensures locks.locks == GivenUp(old(locks.locks), old(params.value))
      ensures course.result == result && course.raised == old(shouldAbort) && course.arriving == old(socket.incoming)
      ensures Meets(course.met, old(shouldAbort), socketOpen, aborting, refused > old(refused),
                    socket.failures > old(socket.failures), fs.failures > old(fs.failures))
      ensures refused >= old(refused) && socket.failures >= old(socket.failures) && fs.failures >= old(fs.failures)
      ensures socket.sent == old(socket.sent) + course.sent
      ensures Moved(old(params.value), old(fs.files), fs.files, course)
    {
      hide FileLocks.Valid, Release, CompletionText, Moved, Announced, GivenUp, Meets;
      threadState := P.Running;
      var p := params.value;
      result, course := Move(fs, socket, p, socketOpen, aborting);
      CloseDataConnection();
      late := Conclude(locks, p, result, aborting);
    }
  }
}
