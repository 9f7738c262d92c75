/**
 * Dispatching a command line through the handler table (server/src/command.c): whatever the line, its outcome is one
 * that HandlerRuns turns into a run of the protocol, and what the session remembers is a function of its history.
 */
module CommandLoop {
  import opened Common
  import opened CommandWire
  import opened CommandTable
  import opened CommandHistory
  import opened ReplyTexts
  import opened LockSpec
  import opened LockTable
  import opened FileStore
  import opened Handlers
  import opened HandlerRuns
  import P = TransferProtocol
  import T = Transfer
  import SP = SessionPaths

  /** What the rest of the server contributes to a command: what a login brings, and texts to print. */
  datatype Answers = Answers(login: Login, goodbye: string, address: string, time: string)

  ghost function WorldOf(s: CommandThread, locks: FileLocks, fs: T.FileSystem): World
    reads s, locks, fs
  {
    World(s.Mine(), locks.locks, fs.files)
  }

  // ----- what each command does -----

  predicate StartsDownload(verb: Verb) { verb.RETR? || verb.LIST? || verb.NLST? }

  predicate StartsUpload(verb: Verb) { verb.STOR? || verb.APPE? }

  predicate ChangesFiles(verb: Verb) { verb.DELE? || verb.RNTO? }

  predicate Looks(verb: Verb) { verb.SIZE? || verb.MDTM? || verb.RNFR? }

  predicate ForDirectories(verb: Verb) { verb.CWD? || verb.CDUP? || verb.PWD? || verb.MKD? || verb.RMD? }

  predicate ForData(verb: Verb) { verb.PORT? || verb.PASV? || verb.TYPE? || verb.STRU? || verb.MODE? }

  predicate ForSession(verb: Verb) { verb.USER? || verb.PASS? || verb.QUIT? || verb.REIN? || verb.REST? || verb.ABOR? }

  predicate OnlySpeaks(verb: Verb) { verb.ACCT? || verb.SMNT? || verb.SYST? || verb.NOOP? || verb.FEAT? }

  predicate IsPlain(verb: Verb) { ForDirectories(verb) || ForData(verb) || ForSession(verb) || OnlySpeaks(verb) }

  predicate DownloadDoes(verb: Verb, argument: Option<string>, dirs: set<Path>, locks: LockMap, x: Scene, y: Scene) {
    if verb.RETR? then RetrDoes(argument, dirs, locks, x, y) else ListDoes(argument, dirs, x, y)
  }

  predicate UploadDoes(verb: Verb, argument: Option<string>, dirs: set<Path>, locks: LockMap, x: Scene, y: Scene) {
    if verb.STOR? then StorDoes(argument, dirs, locks, x, y) else AppeDoes(argument, dirs, locks, x, y)
  }

  predicate ChangeDoes(verb: Verb, argument: Option<string>, dirs: set<Path>, locks: LockMap, x: Scene, y: Scene) {
    if verb.DELE? then DeleDoes(argument, dirs, locks, x, y) else RntoDoes(argument, dirs, locks, x, y)
  }

  predicate LookDoes(verb: Verb, argument: Option<string>, a: Answers, dirs: set<Path>, locks: LockMap, x: Scene,
                     y: Scene)
  {
    if verb.RNFR? then RnfrDoes(argument, dirs, locks, x, y)
    else ProbeDoes(argument, dirs, locks, if verb.SIZE? then None else Some(a.time), x, y)
  }

  predicate DirectoriesDo(verb: Verb, argument: Option<string>, dirs: set<Path>, x: Scene, y: Scene) {
    match verb
    case CWD => CwdDoes(false, argument, dirs, x, y)
    case CDUP => CwdDoes(true, argument, dirs, x, y)
    case PWD => PwdDoes(argument, x, y)
    case MKD => MkdDoes(argument, dirs, x, y)
    case _ => RmdDoes(argument, dirs, x, y)
  }

  predicate DataDoes(verb: Verb, argument: Option<string>, a: Answers, x: Scene, y: Scene) {
    match verb
    case PORT => PortDoes(argument, x, y)
    case PASV => PasvDoes(argument, a.address, x, y)
    case TYPE => TypeDoes(argument, x, y)
    case STRU => SettingDoes(argument, 'F', {'R', 'P'}, STRU_SET, NO_STRU, BAD_STRU, x, y)
    case _ => SettingDoes(argument, 'S', {'B', 'C'}, MODE_SET, NO_MODE, BAD_MODE, x, y)
  }

  predicate SessionDoes(verb: Verb, argument: Option<string>, a: Answers, x: Scene, y: Scene) {
    match verb
    case USER => UserDoes(argument, a.login, x, y)
    case PASS => PassDoes(a.login, x, y)
    case QUIT => QuitDoes(argument, a.goodbye, x, y)
    case REIN => ReinDoes(argument, x, y)
    case REST => RestDoes(argument, x, y)
    case _ => AborDoes(x, y)
  }

  predicate ConstantDoes(verb: Verb, x: Scene, y: Scene) {
    match verb
    case ACCT => Says(x, y, NO_ACCT)
    case SMNT => Says(x, y, NO_SMNT)
    case SYST => Says(x, y, SYSTEM)
    case NOOP => Says(x, y, OKAY)
    case _ => Says(x, y, END_OF_FEATURES)
  }

  predicate PlainDoes(verb: Verb, argument: Option<string>, a: Answers, dirs: set<Path>, x: Scene, y: Scene) {
    if ForDirectories(verb) then DirectoriesDo(verb, argument, dirs, x, y)
    else if ForData(verb) then DataDoes(verb, argument, a, x, y)
    else if ForSession(verb) then SessionDoes(verb, argument, a, x, y)
    else ConstantDoes(verb, x, y)
  }

  /** What the handler of each command does, in terms of the two scenes and the lock table before. */
  predicate Does(verb: Verb, argument: Option<string>, a: Answers, dirs: set<Path>, locks: LockMap, x: Scene,
                 y: Scene)
  {
    if StartsDownload(verb) then DownloadDoes(verb, argument, dirs, locks, x, y)
    else if StartsUpload(verb) then UploadDoes(verb, argument, dirs, locks, x, y)
    else if ChangesFiles(verb) then ChangeDoes(verb, argument, dirs, locks, x, y)
    else if Looks(verb) then LookDoes(verb, argument, a, dirs, locks, x, y)
    else PlainDoes(verb, argument, a, dirs, x, y)
  }

  // ----- what the handlers' contracts make of an outcome -----

  lemma RetrLaunches(req: P.Request, a: World, b: World)
    requires req.op.Retr? && req.path in a.files && req.offset <= |a.files[req.path]| && b.files == a.files
    requires var p := P.Params(P.SendFile, req.path, req.offset, req.ascii, true);
      Started(a.own, b.own, p) && Owns(a.locks, b.locks, p)
    ensures Launches(req, a, b)
  {
  }

  lemma ListLaunches(req: P.Request, a: World, b: World)
    requires req.op.List? && b.files == a.files && b.locks == a.locks
    requires Started(a.own, b.own, P.Params(P.SendList, req.path, req.offset, req.ascii, false))
    ensures Launches(req, a, b)
  {
  }

  /** The commands that may start a transfer to the client. */
  method HandleDownload(s: CommandThread, verb: Verb, locks: FileLocks, fs: T.FileSystem, dirs: set<Path>,
                        argument: Option<string>)
    returns (response: int, effect: Effect)
    requires s.Valid() && locks.Valid() && (argument.Some? ==> |argument.value| < PROTO_MAX_CMD_ARG)
             && StartsDownload(verb)
    modifies s`restartOffset, s`hasDataMode, s`threadState, s`params, s`finals, s`sendFailed, s`last, s`refused, locks,
             locks.Entries(), fs`failures
    ensures s.Valid() && locks.Valid() && fresh(locks.Entries() - old(locks.Entries()))
    ensures Outcome(RequestOf(verb, s.view, old(s.Remembered()), s.ascii, argument),
                    old(WorldOf(s, locks, fs)), WorldOf(s, locks, fs), response)
    ensures DownloadDoes(verb, argument, dirs, old(locks.locks), old(s.SceneOf(fs)), s.SceneOf(fs))
    ensures s.Remembered() == Concluded(old(s.Remembered()), verb, effect) && Possible(Handled(verb, effect))
  {
    hide FileLocks.Valid, TryAcquire, CanAcquire, SP.Allowed, SP.Resolved, Refusal, Named, RetrDoes, ListDoes;
    hide Launches, Changes, Flags, CommandThread.SceneOf, CommandThread.Mine, Started, Owns;
    effect := NoEffect;
    ghost var req := RequestOf(verb, s.view, s.Remembered(), s.ascii, argument);
    var started;
    if verb.RETR? {
      response, started, effect := s.HandleRetr(locks, fs, dirs, argument);
      if started { RetrLaunches(req, old(WorldOf(s, locks, fs)), WorldOf(s, locks, fs)); }
    } else {
      response, started := s.HandleList(fs, dirs, verb.NLST?, argument);
      if started { ListLaunches(req, old(WorldOf(s, locks, fs)), WorldOf(s, locks, fs)); }
    }
  }

  /** ... and from the client. */
  method HandleUpload(s: CommandThread, verb: Verb, locks: FileLocks, fs: T.FileSystem, dirs: set<Path>,
                      argument: Option<string>)
    returns (response: int, effect: Effect)
    requires s.Valid() && locks.Valid() && (argument.Some? ==> |argument.value| < PROTO_MAX_CMD_ARG)
             && StartsUpload(verb)
    modifies s`restartOffset, s`hasDataMode, s`threadState, s`params, s`finals, s`sendFailed, s`last, s`refused,
             locks, locks.Entries(), fs
    ensures s.Valid() && locks.Valid() && fresh(locks.Entries() - old(locks.Entries()))
    ensures Outcome(RequestOf(verb, s.view, old(s.Remembered()), s.ascii, argument),
                    old(WorldOf(s, locks, fs)), WorldOf(s, locks, fs), response)
    ensures UploadDoes(verb, argument, dirs, old(locks.locks), old(s.SceneOf(fs)), s.SceneOf(fs))
    ensures s.Remembered() == Concluded(old(s.Remembered()), verb, effect) && Possible(Handled(verb, effect))
  {
    hide FileLocks.Valid, TryAcquire, CanAcquire, SP.Allowed, SP.Resolved, Refusal, StorDoes, AppeDoes,
         CommandThread.SceneOf;
    effect := NoEffect;
    var started;
    if verb.STOR? {
      response, started, effect := s.HandleStor(locks, fs, dirs, argument);
    } else {
      response, started := s.HandleAppe(locks, fs, dirs, argument);
    }
  }

  lemma DeletedIsEffect(files: Files, req: P.Request)
    requires req.op.Dele? && req.path in files
    ensures P.Validates(files, req) && P.EffectFiles(files, req) == files - {req.path}
  {
  }

  lemma RenamedIsEffect(before: Files, after: Files, req: P.Request)
    requires req.op.Rnto? && Renamed(before, after, req.path, req.op.to)
    ensures P.Validates(before, req) && after == P.EffectFiles(before, req)
  {
  }

  /** The commands that change files by themselves. */
  method HandleChange(s: CommandThread, verb: Verb, locks: FileLocks, fs: T.FileSystem, dirs: set<Path>,
                      argument: Option<string>)
    returns (response: int, effect: Effect)
    requires s.Valid() && locks.Valid() && ChangesFiles(verb)
    modifies s`renamePending, s`renameFrom, s`finals, s`sendFailed, s`last, s`refused, locks,
             locks.Entries(), fs
    ensures s.Valid() && locks.Valid() && fresh(locks.Entries() - old(locks.Entries()))
    ensures Outcome(RequestOf(verb, s.view, old(s.Remembered()), s.ascii, argument),
                    old(WorldOf(s, locks, fs)), WorldOf(s, locks, fs), response)
    ensures ChangeDoes(verb, argument, dirs, old(locks.locks), old(s.SceneOf(fs)), s.SceneOf(fs))
    ensures s.Remembered() == Concluded(old(s.Remembered()), verb, effect) && Possible(Handled(verb, effect))
  {
    hide FileLocks.Valid, TryAcquire, CanAcquire, SP.Allowed, SP.Resolved, Refusal, DeleDoes, RntoDoes;
    hide P.EffectFiles, P.Validates, Renamed, DestinationRefusal;
    effect := NoEffect;
    ghost var req := RequestOf(verb, s.view, s.Remembered(), s.ascii, argument);
    if verb.DELE? {
      response := s.HandleDele(locks, fs, dirs, argument);
      if s.last == DELETED { DeletedIsEffect(old(fs.files), req); }
    } else {
      response, effect := s.HandleRnto(locks, fs, dirs, argument);
      if fs.files != old(fs.files) { RenamedIsEffect(old(fs.files), fs.files, req); }
    }
  }

  /** The commands that only look at a file, under a lock they give back. */
  method HandleLook(s: CommandThread, verb: Verb, locks: FileLocks, fs: T.FileSystem, dirs: set<Path>,
                    argument: Option<string>, a: Answers)
    returns (response: int, effect: Effect)
    requires s.Valid() && locks.Valid() && |a.time| <= 14 && Looks(verb)
    modifies s`renamePending, s`renameFrom, s`finals, s`sendFailed, s`last, s`refused, locks, locks.Entries(),
             fs`failures
    ensures s.Valid() && locks.Valid() && fresh(locks.Entries() - old(locks.Entries()))
    ensures Outcome(RequestOf(verb, s.view, old(s.Remembered()), s.ascii, argument),
                    old(WorldOf(s, locks, fs)), WorldOf(s, locks, fs), response)
    ensures LookDoes(verb, argument, a, dirs, old(locks.locks), old(s.SceneOf(fs)), s.SceneOf(fs))
    ensures s.Remembered() == Concluded(old(s.Remembered()), verb, effect) && Possible(Handled(verb, effect))
  {
    hide FileLocks.Valid, TryAcquire, CanAcquire, SP.Allowed, SP.Resolved, Refusal, RnfrDoes, ProbeDoes, Launches,
         Changes, Flags, Named;
    effect := NoEffect;
    if verb.RNFR? {
      response, effect := s.HandleRnfr(locks, fs, dirs, argument);
    } else {
      response := s.HandleProbe(locks, fs, dirs, argument, if verb.SIZE? then None else Some(a.time));
    }
  }

  /** The commands for directories. */
  method HandleDirectories(s: CommandThread, verb: Verb, fs: T.FileSystem, dirs: set<Path>, argument: Option<string>)
    returns (response: int)
    requires s.Valid() && (argument.Some? ==> |argument.value| < PROTO_MAX_CMD_ARG) && ForDirectories(verb)
    modifies s`view, s`finals, s`sendFailed, s`last, s`refused
    ensures s.Valid() && s.Remembered() == old(s.Remembered())
    ensures Answered(old(s.Mine()), s.Mine(), response)
    ensures DirectoriesDo(verb, argument, dirs, old(s.SceneOf(fs)), s.SceneOf(fs))
  {
    hide CwdDoes, PwdDoes, MkdDoes, RmdDoes;
    match verb {
      case CWD => response := s.HandleCwd(fs, dirs, argument);
      case CDUP => response := s.HandleCdup(fs, dirs, argument);
      case PWD => response := s.HandlePwd(fs, argument);
      case MKD => response := s.HandleMkd(fs, dirs, argument);
      case RMD => response := s.HandleRmd(fs, dirs, argument);
    }
  }

  /** The commands that set how data are transferred. */
  method HandleData(s: CommandThread, verb: Verb, fs: T.FileSystem, argument: Option<string>,
                    a: Answers)
    returns (response: int)
    requires s.Valid() && ForData(verb)
    modifies s`hasDataMode, s`ascii, s`finals, s`sendFailed, s`last, s`refused
    ensures s.Valid() && s.Remembered() == old(s.Remembered())
    ensures Answered(old(s.Mine()), s.Mine(), response)
    ensures DataDoes(verb, argument, a, old(s.SceneOf(fs)), s.SceneOf(fs))
  {
    hide PortDoes, PasvDoes, TypeDoes, SettingDoes;
    match verb {
      case PORT => response := s.HandlePort(fs, argument);
      case PASV => response := s.HandlePasv(fs, argument, a.address);
      case TYPE => response := s.HandleType(fs, argument);
      case STRU => response := s.HandleSetting(fs, argument, 'F', {'R', 'P'}, STRU_SET, NO_STRU, BAD_STRU);
      case MODE => response := s.HandleSetting(fs, argument, 'S', {'B', 'C'}, MODE_SET, NO_MODE, BAD_MODE);
    }
  }

  /** The commands that have one answer to everything. */
  method HandleConstant(s: CommandThread, verb: Verb, fs: T.FileSystem)
    returns (response: int)
    requires s.Valid() && OnlySpeaks(verb)
    modifies s`finals, s`sendFailed, s`last
    ensures s.Valid() && s.Remembered() == old(s.Remembered())
    ensures Answered(old(s.Mine()), s.Mine(), response)
    ensures ConstantDoes(verb, old(s.SceneOf(fs)), s.SceneOf(fs))
  {
    match verb {
      case ACCT => response := s.SendResponse(NO_ACCT);
      case SMNT => response := s.SendResponse(NO_SMNT);
      case SYST => response := s.SendResponse(SYSTEM);
      case NOOP => response := s.SendResponse(OKAY);
      case FEAT => response := s.SendResponse(END_OF_FEATURES);
    }
  }

  /** The commands for the session itself. */
  method HandleSession(s: CommandThread, verb: Verb, fs: T.FileSystem, argument: Option<string>,
                       a: Answers)
    returns (response: int, effect: Effect)
    requires s.Valid() && ForSession(verb) && (verb.REIN? ==> s.threadState.Idle?)
    modifies s
    ensures s.Valid()
    ensures AnsweredPlainly(verb, argument, old(s.Mine()), s.Mine(), response)
    ensures SessionDoes(verb, argument, a, old(s.SceneOf(fs)), s.SceneOf(fs))
    ensures s.Remembered() == Concluded(old(s.Remembered()), verb, effect) && Possible(Handled(verb, effect))
  {
    hide UserDoes, PassDoes, QuitDoes, ReinDoes, RestDoes, AborDoes, RestartOffsetOf;
    effect := NoEffect;
    match verb {
      case USER => response := s.HandleUser(fs, argument, a.login);
      case PASS => response := s.HandlePass(fs, a.login);
      case QUIT => response := s.HandleQuit(fs, argument, a.goodbye);
      case REIN => response, effect := s.HandleRein(fs, argument);
      case REST => response, effect := s.HandleRest(fs, argument);
      case ABOR => response := s.HandleAbor(fs);
    }
  }

  /** What a plain command may do to its session's share of the protocol. */
  predicate AnsweredPlainly(verb: Verb, argument: Option<string>, a: Own, b: Own, response: int) {
    if verb.ABOR? && a.thread.Running? then Answered(a.(abort := true), b, response)
    else if verb.QUIT? && argument.None? then Answered(a.(quit := true), b, response)
    else if verb.REIN? && argument.None? then Answered(a.(abort := false), b, response)
    else Answered(a, b, response)
  }

  lemma PlainOutcome(verb: Verb, argument: Option<string>, req: P.Request, a: World, b: World, response: int)
    requires IsPlain(verb) && req.op == (if verb.ABOR? then P.Abor else P.Plain)
    requires AnsweredPlainly(verb, argument, a.own, b.own, response) && b.locks == a.locks && b.files == a.files
    requires verb.REIN? ==> a.own.thread.Idle? && a.own.params.None?
    ensures Outcome(req, a, b, response) && (b.own.quit ==> a.own.quit || verb.QUIT?)
  {
  }

  /** The commands that touch neither locks nor files. */
  method HandlePlain(s: CommandThread, verb: Verb, fs: T.FileSystem, dirs: set<Path>, argument: Option<string>,
                     a: Answers)
    returns (response: int, effect: Effect)
    requires s.Valid() && (argument.Some? ==> |argument.value| < PROTO_MAX_CMD_ARG)
             && (verb.REIN? ==> s.threadState.Idle?)
    requires IsPlain(verb)
    modifies s
    ensures s.Valid()
    ensures AnsweredPlainly(verb, argument, old(s.Mine()), s.Mine(), response)
    ensures PlainDoes(verb, argument, a, dirs, old(s.SceneOf(fs)), s.SceneOf(fs))
    ensures s.Remembered() == Concluded(old(s.Remembered()), verb, effect) && Possible(Handled(verb, effect))
  {
    hide DirectoriesDo, DataDoes, SessionDoes, ConstantDoes, Answered;
    hide CommandThread.SceneOf, CommandThread.Remembered, CommandThread.Mine;
    effect := NoEffect;
    if ForDirectories(verb) {
      response := HandleDirectories(s, verb, fs, dirs, argument);
    } else if ForData(verb) {
      response := HandleData(s, verb, fs, argument, a);
    } else if ForSession(verb) {
      response, effect := HandleSession(s, verb, fs, argument, a);
    } else {
      response := HandleConstant(s, verb, fs);
    }
  }

  /** ... as the protocol allows it. */
  method HandleUnlocked(s: CommandThread, verb: Verb, ghost locks: FileLocks, fs: T.FileSystem, dirs: set<Path>,
                        argument: Option<string>, a: Answers)
    returns (response: int, effect: Effect)
    requires s.Valid() && (argument.Some? ==> |argument.value| < PROTO_MAX_CMD_ARG) && IsPlain(verb)
    requires verb.REIN? ==> s.threadState.Idle?
    modifies s
    ensures s.Valid()
    ensures Outcome(RequestOf(verb, old(s.view), old(s.Remembered()), old(s.ascii), argument),
                    old(WorldOf(s, locks, fs)), WorldOf(s, locks, fs), response)
    ensures PlainDoes(verb, argument, a, dirs, old(s.SceneOf(fs)), s.SceneOf(fs))
    ensures s.Remembered() == Concluded(old(s.Remembered()), verb, effect) && Possible(Handled(verb, effect))
    ensures s.shouldQuit ==> old(s.shouldQuit) || verb.QUIT?
  {
    hide PlainDoes, AnsweredPlainly, Outcome, Named, CommandThread.SceneOf;
    ghost var req := RequestOf(verb, s.view, s.Remembered(), s.ascii, argument);
    ghost var was := WorldOf(s, locks, fs);
    response, effect := HandlePlain(s, verb, fs, dirs, argument, a);
    PlainOutcome(verb, argument, req, was, WorldOf(s, locks, fs), response);
  }

  /** Every handler does what the protocol allows on the request its command stands for. */
  method HandleVerb(s: CommandThread, verb: Verb, locks: FileLocks, fs: T.FileSystem, dirs: set<Path>,
                    argument: Option<string>, a: Answers)
    returns (response: int, effect: Effect)
    requires s.Valid() && locks.Valid() && (argument.Some? ==> |argument.value| < PROTO_MAX_CMD_ARG) && |a.time| <= 14
    requires verb.REIN? ==> s.threadState.Idle?
    modifies s, locks, locks.Entries(), fs
    ensures s.Valid() && locks.Valid() && fresh(locks.Entries() - old(locks.Entries()))
    ensures Outcome(RequestOf(verb, old(s.view), old(s.Remembered()), old(s.ascii), argument),
                    old(WorldOf(s, locks, fs)), WorldOf(s, locks, fs), response)
    ensures Does(verb, argument, a, dirs, old(locks.locks), old(s.SceneOf(fs)), s.SceneOf(fs))
    ensures s.Remembered() == Concluded(old(s.Remembered()), verb, effect) && Possible(Handled(verb, effect))
    ensures s.shouldQuit ==> old(s.shouldQuit) || verb.QUIT?
  {
    hide FileLocks.Valid, DownloadDoes, UploadDoes, ChangeDoes, LookDoes, PlainDoes, Outcome, RequestOf;
    hide CommandThread.SceneOf, CommandThread.Remembered, CommandThread.Mine, WorldOf, Concluded, Possible;
    if StartsDownload(verb) {
      response, effect := HandleDownload(s, verb, locks, fs, dirs, argument);
    } else if StartsUpload(verb) {
      response, effect := HandleUpload(s, verb, locks, fs, dirs, argument);
    } else if ChangesFiles(verb) {
      response, effect := HandleChange(s, verb, locks, fs, dirs, argument);
    } else if Looks(verb) {
      response, effect := HandleLook(s, verb, locks, fs, dirs, argument, a);
    } else {
      response, effect := HandleUnlocked(s, verb, locks, fs, dirs, argument, a);
    }
  }

  // ----- one command line -----

  /** The pre-handlers. */
  method RunBefore(s: CommandThread, before: Before)
    requires s.Valid()
    modifies s`restartOffset, s`renamePending, s`renameFrom
    ensures s.Valid() && s.Remembered() == Prepared(old(s.Remembered()), before)
  {
    if before.ClearAll? || before.ClearRestart? { s.restartOffset := 0; }
    if before.ClearAll? || before.ClearRename? { s.renamePending, s.renameFrom := false, ""; }
  }

  /**
   * The request of a recognised command, as its handler sees it after the pre-handler; any other line stands for a
   * plain one.
   */
  function EventRequest(event: Event, view: SP.View, pending: Pending, ascii: bool, argument: Option<string>): P.Request
    requires pending.offset >= 0
  {
    if event.Unrecognised? then P.Request(P.Plain, "", 0, ascii)
    else RequestOf(event.verb, view, Prepared(pending, BeforeOf(event.verb)), ascii, argument)
  }

  /** What its handler finds, after the pre-handler. */
  function Ready(x: Scene, verb: Verb): Scene { x.(pending := Prepared(x.pending, BeforeOf(verb))) }

  /** cmd_dispatch: a command without handler changes nothing. */
  method Dispatch(s: CommandThread, table: HandlerTable, locks: FileLocks, fs: T.FileSystem, dirs: set<Path>,
                  cmd: Command, a: Answers)
    returns (result: int, event: Event)
    requires s.Valid() && table.Valid() && table.Registered() == Registrations(STANDARD) && locks.Valid()
    requires (cmd.argument.Some? ==> |cmd.argument.value| < PROTO_MAX_CMD_ARG) && |a.time| <= 14
    requires cmd.name == "REIN" ==> s.threadState.Idle?
    modifies s, locks, locks.Entries(), fs
    ensures s.Valid() && locks.Valid() && fresh(locks.Entries() - old(locks.Entries()))
    ensures event.Unrecognised? <==> forall v: Verb :: cmd.name != Name(v)
    ensures event.Handled? ==>
              cmd.name == Name(event.verb)
              && Outcome(EventRequest(event, old(s.view), old(s.Remembered()), old(s.ascii), cmd.argument),
                         old(WorldOf(s, locks, fs)), WorldOf(s, locks, fs), result)
    ensures event.Handled? ==>
              Does(event.verb, cmd.argument, a, dirs, old(locks.locks), Ready(old(s.SceneOf(fs)), event.verb),
                   s.SceneOf(fs))
    ensures event.Unrecognised? ==>
              result == -1 && WorldOf(s, locks, fs) == old(WorldOf(s, locks, fs)) && s.SceneOf(fs) == old(s.SceneOf(fs))
    ensures s.Remembered() == Step(old(s.Remembered()), event) && Possible(event)
    ensures s.shouldQuit ==> old(s.shouldQuit) || (event.Handled? && event.verb.QUIT?)
  {
    hide FileLocks.Valid, Registrations, Outcome, RequestOf, Does;
    StandardTable(cmd.name);
    var index := table.Find(cmd.name);
    if index < 0 { return -1, Unrecognised; }
    ghost var v: Verb :| cmd.name == Name(v);
    var entry := table.slots[index].entry;
    assert entry == Entry(v, BeforeOf(v));
    assert Name(REIN) == "REIN";
    RunBefore(s, entry.before);
    assert s.SceneOf(fs) == Ready(old(s.SceneOf(fs)), v);
    var effect;
    result, effect := HandleVerb(s, entry.handler, locks, fs, dirs, cmd.argument, a);
    NamesDiffer(v);
    event := Handled(entry.handler, effect);
  }

  lemma NamesDiffer(v: Verb)
    ensures forall w: Verb | Name(w) == Name(v) :: w == v
  {
    forall w: Verb | Name(w) == Name(v) ensures w == v { NameInjective(w, v); }
  }

  /** The event is that of the command in the line, if there is one in the table. */
  ghost predicate Describes(line: string, event: Event) {
    && (event.Handled? <==> Parsed(line).Some? && exists v: Verb :: Parsed(line).value.name == Name(v))
    && (event.Handled? ==> Parsed(line).value.name == Name(event.verb))
  }

  function ArgumentIn(line: string): Option<string> {
    if Parsed(line).Some? then Parsed(line).value.argument else None
  }

  /** What a line does: what its command's handler does after the pre-handler, or the reply to what is no command. */
  ghost predicate LineDoes(line: string, event: Event, a: Answers, dirs: set<Path>, locks: LockMap, x: Scene, y: Scene)
  {
    if event.Unrecognised? then Says(x, y, if Parsed(line).None? then UNRECOGNIZED else NOT_IMPLEMENTED)
    else Does(event.verb, ArgumentIn(line), a, dirs, locks, Ready(x, event.verb), y)
  }

  /** Answers a line that is no command. */
  method Decline(s: CommandThread, ghost locks: FileLocks, ghost fs: T.FileSystem, t: Text) returns (response: int)
    requires s.Valid() && Fits(t)
    modifies s`finals, s`sendFailed, s`last
    ensures s.Valid() && s.Remembered() == old(s.Remembered())
    ensures OnlyAnswers(old(WorldOf(s, locks, fs)), WorldOf(s, locks, fs), response)
    ensures Says(old(s.SceneOf(fs)), s.SceneOf(fs), t)
  {
    response := s.SendResponse(t);
  }

  /** One line of the command loop: what cannot be parsed or has no handler is answered here. */
  method HandleLine(s: CommandThread, table: HandlerTable, locks: FileLocks, fs: T.FileSystem, dirs: set<Path>,
                    line: string, a: Answers)
    returns (response: int, event: Event)
    requires s.Valid() && table.Valid() && table.Registered() == Registrations(STANDARD) && locks.Valid()
             && |a.time| <= 14
    requires s.threadState.Idle? || (Parsed(line).Some? ==> Parsed(line).value.name != "REIN")
    modifies s, locks, locks.Entries(), fs
    ensures s.Valid() && locks.Valid() && fresh(locks.Entries() - old(locks.Entries())) && Describes(line, event)
    ensures Outcome(EventRequest(event, old(s.view), old(s.Remembered()), old(s.ascii), ArgumentIn(line)),
                    old(WorldOf(s, locks, fs)), WorldOf(s, locks, fs), response)
    ensures LineDoes(line, event, a, dirs, old(locks.locks), old(s.SceneOf(fs)), s.SceneOf(fs))
    ensures s.Remembered() == Step(old(s.Remembered()), event) && Possible(event)
    ensures s.shouldQuit ==> old(s.shouldQuit) || (event.Handled? && event.verb.QUIT?)
  {
    hide FileLocks.Valid, Registrations, Parsed, Launches, Changes, Flags, RequestOf, Does;
    hide CommandThread.SceneOf, CommandThread.Remembered, CommandThread.Mine, WorldOf, Says, OnlyAnswers;
    var cmd := ParseCommand(line);
    if cmd.None? {
      response := Decline(s, locks, fs, UNRECOGNIZED);
      return response, Unrecognised;
    }
    LimitsOfParsed(line);
    response, event := Dispatch(s, table, locks, fs, dirs, cmd.value, a);
    if event.Unrecognised? {
      response := Decline(s, locks, fs, NOT_IMPLEMENTED);
    }
  }
}
