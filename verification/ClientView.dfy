/**
 * What the commands mean to a client: which lines the client's formatter makes of them, and what each does to the
 * session and to the files, said in terms of components, permissions and what is there.
 */
module ClientView {
  import opened Common
  import opened Decimals
  import opened CommandWire
  import opened CommandTable
  import opened CommandHistory
  import opened ReplyTexts
  import opened AddressWire
  import opened LockSpec
  import opened LockTable
  import opened FileStore
  import opened ParentDirectory
  import opened Paths
  import opened PathResolution
  import opened PathLaws
  import opened Handlers
  import opened HandlerRuns
  import opened CommandLoop
  import P = TransferProtocol
  import SP = SessionPaths
  import T = Transfer

  // ----- from the client's line to the handler -----

  /** An argument the client can send as it is. */
  predicate Sendable(argument: string) {
    argument != "" && Safe(argument) && IsTrimmed(argument) && |argument| < PROTO_MAX_CMD_ARG
  }

  function LineFor(name: string, argument: Option<string>): string {
    FormatCommand(name, if argument.Some? then [argument.value] else [])
  }

  /** The client's line is parsed as the command it was made of. */
  lemma LineIsParsed(v: Verb, argument: Option<string>)
    requires argument.Some? ==> Sendable(argument.value)
    ensures Parsed(LineFor(Name(v), argument)) == Some(Command(Name(v), argument))
  {
    NameIsUpper(v);
    if argument.Some? {
      assert JoinArguments([argument.value]) == argument.value;
      CommandRoundTrip(Name(v), [argument.value]);
    } else {
      BareCommandRoundTrip(Name(v));
    }
  }

  lemma NameIsUpper(v: Verb)
    ensures CommandName(Name(v)) && Uppercase(Name(v)) == Name(v)
  {
    hide Uppercase;
    KeyOfName(v);
    var s := Name(v);
    assert 3 <= |s| <= 4 && forall i | 0 <= i < |s| :: 'A' <= s[i] <= 'Z';
  }

  lemma LineIsHandled(line: string, event: Event, v: Verb)
    requires Describes(line, event) && Parsed(line).Some? && Parsed(line).value.name == Name(v)
    ensures event.Handled? && event.verb == v
  {
    if event.Handled? { NameInjective(event.verb, v); }
  }

  /** Sends a command by its name: its own handler runs, behind its pre-handler. */
  method Send(s: CommandThread, table: HandlerTable, locks: FileLocks, fs: T.FileSystem, dirs: set<Path>, name: string,
              argument: Option<string>, a: Answers, ghost v: Verb)
    returns (response: int)
    requires s.Valid() && table.Valid() && table.Registered() == Registrations(STANDARD) && locks.Valid()
             && |a.time| <= 14
    requires name == Name(v) && (argument.Some? ==> Sendable(argument.value)) && (v.REIN? ==> s.threadState.Idle?)
    modifies s, locks, locks.Entries(), fs
    ensures s.Valid() && locks.Valid() && fresh(locks.Entries() - old(locks.Entries()))
    ensures Does(v, argument, a, dirs, old(locks.locks), Ready(old(s.SceneOf(fs)), v), s.SceneOf(fs))
    ensures Outcome(RequestOf(v, old(s.view), Prepared(old(s.Remembered()), BeforeOf(v)), old(s.ascii), argument),
                    old(WorldOf(s, locks, fs)), WorldOf(s, locks, fs), response)
    ensures s.shouldQuit ==> old(s.shouldQuit) || v.QUIT?
  {
    hide FileLocks.Valid, HandlerTable.Valid, Registrations, Parsed, Does, Outcome, RequestOf, FormatCommand;
    hide CommandThread.SceneOf, WorldOf;
    var line := LineFor(name, argument);
    LineIsParsed(v, argument);
    assert Name(REIN) == "REIN";
    if name == "REIN" { NameInjective(v, REIN); }
    var event;
    response, event := HandleLine(s, table, locks, fs, dirs, line, a);
    LineIsHandled(line, event, v);
  }

  // ----- who may do what -----

  /** The commands a client may use before it has logged in; all others are refused. */
  predicate NeedsNoLogin(v: Verb) {
    v in {USER, PASS, ACCT, SMNT, QUIT, REIN, ABOR, SYST, NOOP, FEAT}
  }

  predicate QuietWithoutLogin(v: Verb, a: Answers, x: Scene, y: Scene) {
    !x.view.authenticated ==>
      && y.files == x.files && !Starts(x, y)
      && (!NeedsNoLogin(v) ==> y.last == NOT_LOGGED_IN && y.view == x.view && y.ascii == x.ascii)
      && (y.view.authenticated ==> v.PASS? && x.waiting && a.login.accepted)
  }

  predicate ChangesItsShare(v: Verb, argument: Option<string>, a: Answers, x: Scene, y: Scene) {
    && (y.view != x.view ==> v in {CWD, CDUP, REIN} || (v.PASS? && x.waiting && a.login.accepted))
    && (y.ascii != x.ascii ==> v in {TYPE, REIN})
    && (y.hasDataMode && !x.hasDataMode ==> x.view.authenticated && v in {PORT, PASV})
    && (y.waiting && !x.waiting ==> v.USER? && (a.login.known || argument == Some("anonymous")))
  }

  /** The permission a command needs before it touches a file or starts a transfer. */
  function Needed(v: Verb): SP.Permission {
    if v in {STOR, APPE} then SP.WRITE else if v.DELE? then SP.DELETE else if v in {RNFR, RNTO} then SP.RENAME
    else SP.READ
  }

  predicate Permitted(v: Verb, argument: Option<string>, locks: LockMap, x: Scene, y: Scene) {
    && (y.files != x.files ==>
          v in {STOR, DELE, RNTO} && argument.Some? && SP.Allowed(x.view, argument.value, Needed(v)))
    && (Starts(x, y) ==>
          v in {RETR, STOR, APPE, LIST, NLST} && x.hasDataMode
          && SP.Allowed(x.view, if argument.Some? then argument.value else ".", Needed(v))
          && (v in {RETR, STOR, APPE} ==>
                argument.Some? && SP.Resolved(x.view, argument.value).Some?
                && CanAcquire(locks, SP.Resolved(x.view, argument.value).value,
                              if v.RETR? then Shared else Exclusive)))
  }

  predicate Orderly(v: Verb, argument: Option<string>, a: Answers, locks: LockMap, x: Scene, y: Scene) {
    && QuietWithoutLogin(v, a, x, y) && ChangesItsShare(v, argument, a, x, y) && Permitted(v, argument, locks, x, y)
    && Onward(x, y) && (!Starts(x, y) ==> y.last.code != 226)
  }

  lemma DownloadOrderly(v: Verb, argument: Option<string>, a: Answers, dirs: set<Path>, locks: LockMap, x: Scene,
                        y: Scene)
    requires StartsDownload(v) && DownloadDoes(v, argument, dirs, locks, x, y)
    ensures Orderly(v, argument, a, locks, x, y)
  {
    hide SP.Allowed, SP.Resolved, CanAcquire, Setting, RestartOffsetOf, Decimal, Quoted, SP.AfterLogin;
  }

  lemma UploadOrderly(v: Verb, argument: Option<string>, a: Answers, dirs: set<Path>, locks: LockMap, x: Scene,
                      y: Scene)
    requires StartsUpload(v) && UploadDoes(v, argument, dirs, locks, x, y)
    ensures Orderly(v, argument, a, locks, x, y)
  {
    hide SP.Allowed, SP.Resolved, CanAcquire, Setting, RestartOffsetOf, Decimal, Quoted, SP.AfterLogin;
  }

  lemma ChangeOrderly(v: Verb, argument: Option<string>, a: Answers, dirs: set<Path>, locks: LockMap, x: Scene,
                      y: Scene)
    requires ChangesFiles(v) && ChangeDoes(v, argument, dirs, locks, x, y)
    ensures Orderly(v, argument, a, locks, x, y)
  {
    hide SP.Allowed, SP.Resolved, CanAcquire, Setting, RestartOffsetOf, Decimal, Quoted, SP.AfterLogin;
  }

  lemma LookOrderly(v: Verb, argument: Option<string>, a: Answers, dirs: set<Path>, locks: LockMap, x: Scene, y: Scene)
    requires Looks(v) && LookDoes(v, argument, a, dirs, locks, x, y)
    ensures Orderly(v, argument, a, locks, x, y)
  {
    hide SP.Allowed, SP.Resolved, CanAcquire, Setting, RestartOffsetOf, Decimal, Quoted, SP.AfterLogin;
  }

  lemma MovingOrderly(v: Verb, argument: Option<string>, a: Answers, dirs: set<Path>, locks: LockMap, x: Scene,
                      y: Scene)
    requires v in {CWD, CDUP} && CwdDoes(v.CDUP?, argument, dirs, x, y)
    ensures Orderly(v, argument, a, locks, x, y)
  {
    hide SP.Allowed, SP.Resolved, SP.AfterCwd, CanAcquire;
  }

  lemma DirectoriesOrderly(v: Verb, argument: Option<string>, a: Answers, dirs: set<Path>, locks: LockMap, x: Scene,
                           y: Scene)
    requires ForDirectories(v) && DirectoriesDo(v, argument, dirs, x, y)
    ensures Orderly(v, argument, a, locks, x, y)
  {
    hide SP.Allowed, SP.Resolved, CanAcquire, Quoted, CwdDoes;
    if v in {CWD, CDUP} { MovingOrderly(v, argument, a, dirs, locks, x, y); }
  }

  lemma DataOrderly(v: Verb, argument: Option<string>, a: Answers, dirs: set<Path>, locks: LockMap, x: Scene, y: Scene)
    requires ForData(v) && DataDoes(v, argument, a, x, y)
    ensures Orderly(v, argument, a, locks, x, y)
  {
    hide SP.Allowed, SP.Resolved, CanAcquire, Setting, RestartOffsetOf, Decimal, Quoted, SP.AfterLogin;
  }

  lemma SessionOrderly(v: Verb, argument: Option<string>, a: Answers, dirs: set<Path>, locks: LockMap, x: Scene,
                       y: Scene)
    requires ForSession(v) && SessionDoes(v, argument, a, x, y)
    ensures Orderly(v, argument, a, locks, x, y)
  {
    hide SP.Allowed, SP.Resolved, CanAcquire, Setting, RestartOffsetOf, Decimal, Quoted, SP.AfterLogin;
  }

  lemma ConstantsOrderly(v: Verb, argument: Option<string>, a: Answers, dirs: set<Path>, locks: LockMap, x: Scene,
                         y: Scene)
    requires OnlySpeaks(v) && ConstantDoes(v, x, y)
    ensures Orderly(v, argument, a, locks, x, y)
  {
    hide SP.Allowed, SP.Resolved, CanAcquire, Setting, RestartOffsetOf, Decimal, Quoted, SP.AfterLogin;
  }

  lemma EveryCommandIsOrderly(v: Verb, argument: Option<string>, a: Answers, dirs: set<Path>, locks: LockMap, x: Scene,
                             y: Scene)
    requires Does(v, argument, a, dirs, locks, x, y)
    ensures Orderly(v, argument, a, locks, x, y)
  {
    hide DownloadDoes, UploadDoes, ChangeDoes, LookDoes, DirectoriesDo, DataDoes, SessionDoes, ConstantDoes, Orderly;
    if StartsDownload(v) { DownloadOrderly(v, argument, a, dirs, locks, x, y); }
    else if StartsUpload(v) { UploadOrderly(v, argument, a, dirs, locks, x, y); }
    else if ChangesFiles(v) { ChangeOrderly(v, argument, a, dirs, locks, x, y); }
    else if Looks(v) { LookOrderly(v, argument, a, dirs, locks, x, y); }
    else if ForDirectories(v) { DirectoriesOrderly(v, argument, a, dirs, locks, x, y); }
    else if ForData(v) { DataOrderly(v, argument, a, dirs, locks, x, y); }
    else if ForSession(v) { SessionOrderly(v, argument, a, dirs, locks, x, y); }
    else { ConstantsOrderly(v, argument, a, dirs, locks, x, y); }
  }

  /** Without a login no file changes and no transfer starts, and most commands are refused before anything else. */
  lemma WithoutLogin(v: Verb, argument: Option<string>, a: Answers, dirs: set<Path>, locks: LockMap, x: Scene, y: Scene)
    requires Does(v, argument, a, dirs, locks, x, y) && !x.view.authenticated
    ensures y.files == x.files && !Starts(x, y)
    ensures !NeedsNoLogin(v) ==> y.last == NOT_LOGGED_IN && y.view == x.view && y.ascii == x.ascii
    ensures y.view.authenticated ==> v.PASS? && x.waiting && a.login.accepted
  {
    hide Does, Starts;
    EveryCommandIsOrderly(v, argument, a, dirs, locks, x, y);
  }

  /** What a session may see changes only by CWD, CDUP, a right password or REIN; and so on for its settings. */
  lemma ViewChangesBy(v: Verb, argument: Option<string>, a: Answers, dirs: set<Path>, locks: LockMap, x: Scene,
                      y: Scene)
    requires Does(v, argument, a, dirs, locks, x, y)
    ensures y.view != x.view ==> v in {CWD, CDUP, REIN} || (v.PASS? && x.waiting && a.login.accepted)
    ensures y.ascii != x.ascii ==> v in {TYPE, REIN}
    ensures y.hasDataMode && !x.hasDataMode ==> x.view.authenticated && v in {PORT, PASV}
    ensures y.waiting && !x.waiting ==> v.USER? && (a.login.known || argument == Some("anonymous"))
  {
    hide Does;
    EveryCommandIsOrderly(v, argument, a, dirs, locks, x, y);
  }

  /**
   * A file changes, or a transfer starts, only by the command of a user that is logged in and has the permission for
   * the path it names; and a transfer only in a data mode and on a lock that was free.
   */
  lemma OnlyWithPermission(v: Verb, argument: Option<string>, a: Answers, dirs: set<Path>, locks: LockMap, x: Scene,
                           y: Scene)
    requires Does(v, argument, a, dirs, locks, x, y)
    ensures y.files != x.files ==>
              v in {STOR, DELE, RNTO} && argument.Some? && SP.Allowed(x.view, argument.value, Needed(v))
    ensures Starts(x, y) ==>
              v in {RETR, STOR, APPE, LIST, NLST} && x.hasDataMode
              && SP.Allowed(x.view, if argument.Some? then argument.value else ".", Needed(v))
              && (v in {RETR, STOR, APPE} ==>
                    argument.Some? && SP.Resolved(x.view, argument.value).Some?
                    && CanAcquire(locks, SP.Resolved(x.view, argument.value).value,
                                  if v.RETR? then Shared else Exclusive))
  {
    hide Does, Starts;
    EveryCommandIsOrderly(v, argument, a, dirs, locks, x, y);
  }

  // ----- directories -----

  predicate Ordinary(view: SP.View) { SP.ADMIN !in view.permissions }

  /**
   * CWD of an ordinary user goes exactly to a directory that is there and whose components extend the home's, and
   * nowhere otherwise.
   */
  lemma CwdMeans(name: string, a: Answers, dirs: set<Path>, locks: LockMap, x: Scene, y: Scene, h: seq<string>)
    requires Does(CWD, Some(name), a, dirs, locks, x, y) && Ordinary(x.view) && Absolute(x.view.cwd)
    requires CanonicalComponents(h) && h != [] && x.view.home == Render(h)
    ensures var c := Components(x.view.cwd, name);
      if x.view.authenticated && SP.READ in x.view.permissions && (forall w | w in c :: CleanName(w)) && h <= c
         && IsIn(SP.Resolved(x.view, name), dirs)
      then y.view == x.view.(cwd := Render(c)) && y.last.code == 250
      else y.view == x.view && y.last.code in {530, 550}
  {
    hide SP.Resolved, SP.Allowed, Components, Normalize, CanonicalComponents;
    SP.AllowedIff(x.view, name, SP.READ, h);
    AcceptedIff(x.view.cwd, name);
    if Normalize(x.view.cwd, name).Some? { AcceptedIsCanonical(x.view.cwd, name); }
  }

  /** CDUP goes to the parent directory, if that is not above the home, and it is there. */
  lemma CdupMeans(a: Answers, dirs: set<Path>, locks: LockMap, x: Scene, y: Scene, h: seq<string>, c: seq<string>)
    requires Does(CDUP, None, a, dirs, locks, x, y) && Ordinary(x.view) && SP.READ in x.view.permissions
    requires x.view.authenticated && CanonicalComponents(h) && h != [] && x.view.home == Render(h)
    requires CanonicalComponents(c) && h <= c && x.view.cwd == Render(c)
    requires |c| < MAX_COMPONENTS && |Render(c)| + 3 < PATH_SIZE
    ensures if h < c && IsIn(SP.Resolved(x.view, ".."), dirs) then
              y.view == x.view.(cwd := Render(c[..|c| - 1])) && y.last.code == 250
            else y.view == x.view && y.last.code == 550
  {
    hide SP.Resolved, SP.Allowed, Components, Normalize, CanonicalComponents;
    SP.AllowedIff(x.view, "..", SP.READ, h);
    ParentIff(c);
    ParentComponents(c);
    var front := c[..|c| - 1];
    assert h <= front <==> h < c;
  }

  /** PWD prints the working directory in quotes, if its buffer holds it. */
  lemma PwdMeans(a: Answers, dirs: set<Path>, locks: LockMap, x: Scene, y: Scene)
    requires Does(PWD, None, a, dirs, locks, x, y) && x.view.authenticated && |x.view.cwd| < PWD_BUFFER
    ensures y.last == Text(257, "\"" + x.view.cwd + "\"" + " is current directory")
  {
  }

  // ----- login -----

  /** A password is waited for exactly after a known name, or that of a guest where guests are welcome. */
  lemma UserMeans(name: string, a: Answers, dirs: set<Path>, locks: LockMap, x: Scene, y: Scene)
    requires Does(USER, Some(name), a, dirs, locks, x, y)
    ensures var welcome := if name == "anonymous" then a.login.anonymous else a.login.known;
      y.view == x.view && y.waiting == (x.waiting || welcome) && y.last.code == (if welcome then 331 else 530)
  {
  }

  lemma PassMeans(password: Option<string>, a: Answers, dirs: set<Path>, locks: LockMap, x: Scene, y: Scene)
    requires Does(PASS, password, a, dirs, locks, x, y)
    ensures if x.waiting && a.login.accepted then
              y.last.code == 230
              && y.view == SP.AfterLogin(x.view, a.login.home, a.login.homeExists, a.login.permissions)
            else y.view == x.view && y.last.code in {503, 530}
  {
    hide SP.AfterLogin;
  }

  /**
   * A known user with the right password is logged in with its own permissions and home; otherwise nothing changes,
   * unless the password is that of a name given before.
   */
  lemma LoginMeans(name: string, password: Option<string>, a: Answers, dirs: set<Path>, locks: LockMap, x: Scene,
                   y: Scene, z: Scene, h: seq<string>)
    requires Does(USER, Some(name), a, dirs, locks, x, y) && Does(PASS, password, a, dirs, locks, Ready(y, PASS), z)
    requires name != "anonymous" && CanonicalComponents(h) && h != [] && a.login.home == Render(h)
    ensures if a.login.known && a.login.accepted then
              z.view.authenticated && z.view.permissions == a.login.permissions && z.view.home == Render(h)
              && z.last.code == 230 && z.view.root == x.view.root
              && z.view.cwd == (if a.login.homeExists && SP.Resolved(x.view, Render(h)).Some? then Render(h)
                                else x.view.cwd)
            else !a.login.accepted || !x.waiting ==> z.view == x.view
  {
    hide Does, SP.Resolved;
    UserMeans(name, a, dirs, locks, x, y);
    PassMeans(password, a, dirs, locks, Ready(y, PASS), z);
    SP.LoginLooksForHome(x.view, h);
    assert Render(h) != "" by { assert h[0] in h; }
  }

  // ----- settings -----

  lemma TypeMeans(a: Answers, dirs: set<Path>, locks: LockMap, x: Scene, y: Scene, z: Scene)
    requires x.view.authenticated && Does(TYPE, Some("I"), a, dirs, locks, x, y)
    requires Does(TYPE, Some("A"), a, dirs, locks, x, z)
    ensures !y.ascii && z.ascii && y.last.code == 200 && z.last.code == 200
  {
    assert Setting("I") == "I" && Setting("A") == "A";
  }

  lemma DecimalIsSendable(n: nat)
    requires n <= LLONG_MAX
    ensures Sendable(Decimal(n))
  {
    ValueOfDecimal(n);
    SizeLength(n);
  }

  /** PASV gives a user a data mode, if the system has one and the reply is sent. */
  lemma PasvMeans(a: Answers, dirs: set<Path>, locks: LockMap, x: Scene, y: Scene)
    requires Does(PASV, None, a, dirs, locks, x, y)
    ensures y.view == x.view && y.ascii == x.ascii && y.pending == x.pending
    ensures x.view.authenticated && y.refused == x.refused && y.own.finals > x.own.finals ==>
              y.hasDataMode && y.last.code == 227
  {
  }

  /** So does PORT with every address a client can write. */
  lemma PortMeans(address: Address, a: Answers, dirs: set<Path>, locks: LockMap, x: Scene, y: Scene)
    requires IsAddress(address) && FormatPort(Dotted(address), address.port).Some?
    requires Does(PORT, FormatPort(Dotted(address), address.port), a, dirs, locks, x, y)
    ensures y.view == x.view && y.ascii == x.ascii && y.pending == x.pending
    ensures x.view.authenticated ==> y.hasDataMode && y.last.code == 200
  {
    hide FormatPort, Dotted, ParsePort, IsAddress;
    PortRoundTrip(address);
  }

  /** The one structure and the one mode there are. */
  lemma SettingMeans(a: Answers, dirs: set<Path>, locks: LockMap, x: Scene, y: Scene, z: Scene)
    requires x.view.authenticated && Does(STRU, Some("F"), a, dirs, locks, x, y)
    requires Does(MODE, Some("S"), a, dirs, locks, x, z)
    ensures y.last.code == 200 && z.last.code == 200
  {
    assert Setting("F") == "F" && Setting("S") == "S";
  }

  /** REST takes every offset a client can mean. */
  lemma RestMeans(n: nat, a: Answers, dirs: set<Path>, locks: LockMap, x: Scene, y: Scene)
    requires Does(REST, Some(Decimal(n)), a, dirs, locks, x, y) && n <= LLONG_MAX
    ensures y.view == x.view && y.ascii == x.ascii && y.hasDataMode == x.hasDataMode && y.refused == x.refused
    ensures x.view.authenticated ==> y.pending.offset == n && y.last.code == 350
  {
    RestRoundTrip(n);
  }

  // ----- files -----

  /** Nothing has failed between the scenes, and the system has refused nothing. */
  predicate Smooth(x: Scene, y: Scene) { y.failures == x.failures && y.refused == x.refused }

  /** ... and every reply has been sent, and no transfer was under way. */
  predicate Unhindered(x: Scene, y: Scene) { Smooth(x, y) && !y.own.sendFailed && x.own.thread.Idle? }

  /** A download starts exactly if its file is there, free of writers and reaches as far as the offset. */
  lemma RetrMeans(name: string, a: Answers, dirs: set<Path>, locks: LockMap, x: Scene, y: Scene)
    requires Does(RETR, Some(name), a, dirs, locks, x, y) && Unhindered(x, y)
    requires x.hasDataMode && SP.Allowed(x.view, name, SP.READ) && SP.Resolved(x.view, name).Some?
    ensures var path := SP.Resolved(x.view, name).value;
      y.own.thread.Starting? <==>
        path in x.files && path !in dirs && CanAcquire(locks, path, Shared) && x.pending.offset <= |x.files[path]|
  {
  }

  /** An upload starts exactly if its name is not a directory's, free, and reaches as far as the offset. */
  lemma StorMeans(name: string, a: Answers, dirs: set<Path>, locks: LockMap, x: Scene, y: Scene)
    requires Does(STOR, Some(name), a, dirs, locks, x, y) && Unhindered(x, y) && x.pending.offset >= 0
    requires x.hasDataMode && SP.Allowed(x.view, name, SP.WRITE) && SP.Resolved(x.view, name).Some?
    ensures var path := SP.Resolved(x.view, name).value;
      && (y.own.thread.Starting? <==>
            path !in dirs && CanAcquire(locks, path, Exclusive)
            && x.pending.offset <= |ContentOrEmpty(x.files, path)|)
      && y.files == if y.own.thread.Starting? && x.pending.offset == 0 then x.files - {path} else x.files
  {
  }

  lemma AppeMeans(name: string, a: Answers, dirs: set<Path>, locks: LockMap, x: Scene, y: Scene)
    requires Does(APPE, Some(name), a, dirs, locks, x, y) && Unhindered(x, y)
    requires x.hasDataMode && SP.Allowed(x.view, name, SP.WRITE) && SP.Resolved(x.view, name).Some?
    ensures var path := SP.Resolved(x.view, name).value;
      y.own.thread.Starting? <==> path !in dirs && CanAcquire(locks, path, Exclusive)
  {
  }

  /** SIZE tells the size and MDTM the time of a file that is there and not being written. */
  lemma SizeMeans(name: string, a: Answers, dirs: set<Path>, locks: LockMap, x: Scene, y: Scene, z: Scene)
    requires Does(SIZE, Some(name), a, dirs, locks, x, y) && Does(MDTM, Some(name), a, dirs, locks, x, z)
    requires Smooth(x, y) && Smooth(x, z) && SP.Allowed(x.view, name, SP.READ) && SP.Resolved(x.view, name).Some?
    ensures var path := SP.Resolved(x.view, name).value;
      if path in x.files && path !in dirs && CanAcquire(locks, path, Shared)
      then y.last == Text(213, Decimal(|x.files[path]|)) && z.last == Text(213, a.time)
      else y.last.code in {450, 550} && z.last == y.last
  {
  }

  /** DELE removes exactly a file that is there and that nobody holds. */
  lemma DeleMeans(name: string, a: Answers, dirs: set<Path>, locks: LockMap, x: Scene, y: Scene)
    requires Does(DELE, Some(name), a, dirs, locks, x, y) && Smooth(x, y)
    requires SP.Allowed(x.view, name, SP.DELETE) && SP.Resolved(x.view, name).Some?
    ensures var path := SP.Resolved(x.view, name).value;
      if path in x.files && path !in dirs && CanAcquire(locks, path, Exclusive)
      then y.last.code == 250 && y.files == x.files - {path}
      else y.last.code in {450, 550} && y.files == x.files
  {
  }

  lemma AllowedIsLoggedIn(view: SP.View, path: string, required: SP.Permission)
    requires SP.Allowed(view, path, required)
    ensures view.authenticated
  {
  }

  lemma RnfrMeans(from: string, a: Answers, dirs: set<Path>, locks: LockMap, x: Scene, y: Scene)
    requires Does(RNFR, Some(from), a, dirs, locks, x, y) && Smooth(x, y)
    requires x.view.authenticated && SP.Allowed(x.view, from, SP.RENAME) && SP.Resolved(x.view, from).Some?
    ensures var source := SP.Resolved(x.view, from).value;
      && y.files == x.files && y.view == x.view && y.pending.offset == x.pending.offset
      && y.pending.source == (if (source in x.files || source in dirs) && CanAcquire(locks, source, Exclusive)
                              then Some(source) else x.pending.source)
  {
    hide SP.Allowed, SP.Resolved, CanAcquire;
  }

  lemma RntoMeans(to: string, a: Answers, dirs: set<Path>, locks: LockMap, x: Scene, y: Scene)
    requires Does(RNTO, Some(to), a, dirs, locks, x, y) && Smooth(x, y)
    ensures var source := x.pending.source;
      if source.Some? && CanAcquire(locks, source.value, Exclusive) && source.value in x.files
         && DestinationRefusal(x.view, true, Some(to), x.files.Keys, dirs).None?
      then y.files == x.files[SP.Resolved(x.view, to).value := x.files[source.value]] - {source.value}
           && y.last.code == 250
      else y.files == x.files
  {
    hide SP.Allowed, SP.Resolved, CanAcquire, ParentOf;
  }

  /**
   * A destination below the server's root is accepted exactly if the user may rename to it, its name is not too long,
   * nothing is there, and its components but the last lead to a directory.
   */
  lemma DestinationMeans(view: SP.View, to: string, files: set<Path>, dirs: set<Path>)
    requires Absolute(view.cwd) && view.root != "" && view.root[|view.root| - 1] != '/'
    requires Normalize(view.cwd, to).Some? && Components(view.cwd, to) != []
    ensures var c := Components(view.cwd, to);
      DestinationRefusal(view, true, Some(to), files, dirs).None? <==>
        && SP.Allowed(view, to, SP.RENAME) && |view.root + Join(c)| < PATH_SIZE
        && view.root + Join(c) !in files + dirs && view.root + Join(c[..|c| - 1]) in dirs
  {
    hide SP.Allowed, Components, Normalize, CanonicalComponents, ParentOf;
    var c := Components(view.cwd, to);
    AcceptedIsCanonical(view.cwd, to);
    SP.UseAgreesWithCheck(view, to);
    assert Word(c[|c| - 1]) by { AllWords(c); }
    assert c == c[..|c| - 1] + [c[|c| - 1]];
    ParentOfResolved(view.root, c[..|c| - 1], c[|c| - 1]);
    RootAndName(view.root, c);
    if SP.Allowed(view, to, SP.RENAME) { AllowedIsLoggedIn(view, to, SP.RENAME); }
  }

  lemma AllWords(c: seq<string>)
    requires CanonicalComponents(c) && c != []
    ensures Word(c[|c| - 1])
  {
  }

  lemma RootAndName(root: string, c: seq<string>)
    requires c != []
    ensures root + "/" + Render(c)[1..] == root + Join(c)
  {
    assert Join(c) == "/" + Join(c)[1..];
  }

  /**
   * RNFR and RNTO, one behind the other, move a file that is there and that nobody holds to a name that is free, in a
   * directory that is there.
   */
  lemma RenameMeans(from: string, to: string, a: Answers, dirs: set<Path>, locks: LockMap, x: Scene, y: Scene, z: Scene)
    requires Does(RNFR, Some(from), a, dirs, locks, x, y) && Does(RNTO, Some(to), a, dirs, locks, Ready(y, RNTO), z)
    requires Smooth(x, y) && Smooth(y, z) && x.pending == NOTHING_PENDING
    requires SP.Allowed(x.view, from, SP.RENAME) && SP.Allowed(x.view, to, SP.RENAME)
    requires SP.Resolved(x.view, from).Some? && SP.Resolved(x.view, to).Some?
    ensures var source, target := SP.Resolved(x.view, from).value, SP.Resolved(x.view, to).value;
      if source in x.files && CanAcquire(locks, source, Exclusive)
         && DestinationRefusal(x.view, true, Some(to), x.files.Keys, dirs).None?
      then z.files == x.files[target := x.files[source]] - {source} && z.last.code == 250
      else z.files == x.files
  {
    hide Does, SP.Allowed, SP.Resolved, CanAcquire, DestinationRefusal;
    AllowedIsLoggedIn(x.view, from, SP.RENAME);
    RnfrMeans(from, a, dirs, locks, x, y);
    RntoMeans(to, a, dirs, locks, Ready(y, RNTO), z);
  }

  /** MKD creates exactly what the user may create and is not there. */
  lemma MkdMeans(name: string, a: Answers, dirs: set<Path>, locks: LockMap, x: Scene, y: Scene)
    requires Does(MKD, Some(name), a, dirs, locks, x, y) && Smooth(x, y)
    ensures y.last.code == 257 <==>
              SP.Allowed(x.view, name, SP.MKDIR) && SP.Resolved(x.view, name).Some?
              && SP.Resolved(x.view, name).value !in x.files.Keys + dirs
  {
    hide SP.Resolved, CwdDoes;
  }

  /** RMD removes exactly a directory that is there and that the user may remove. */
  lemma RmdMeans(name: string, a: Answers, dirs: set<Path>, locks: LockMap, x: Scene, y: Scene)
    requires Does(RMD, Some(name), a, dirs, locks, x, y) && Smooth(x, y)
    ensures y.last.code == 250 <==>
              SP.Allowed(x.view, name, SP.RMDIR) && SP.Resolved(x.view, name).Some?
              && SP.Resolved(x.view, name).value in dirs
  {
    hide SP.Resolved, CwdDoes;
  }

  /** A listing starts exactly of what is there and the user may read; without an argument, of where the session is. */
  lemma ListMeans(argument: Option<string>, a: Answers, dirs: set<Path>, locks: LockMap, x: Scene, y: Scene)
    requires Does(LIST, argument, a, dirs, locks, x, y) && Unhindered(x, y)
    ensures var name := if argument.Some? then argument.value else ".";
      y.own.thread.Starting? <==>
        x.hasDataMode && SP.Allowed(x.view, name, SP.READ) && SP.Resolved(x.view, name).Some?
        && SP.Resolved(x.view, name).value in x.files.Keys + dirs
  {
    hide SP.Resolved;
  }

  // ----- starting over -----

  /** After REIN nothing is allowed, nothing is pending and no transfer can start, until the client logs in again. */
  lemma ReinMeans(a: Answers, dirs: set<Path>, locks: LockMap, x: Scene, y: Scene)
    requires Does(REIN, None, a, dirs, locks, x, y)
    ensures y.view.root == x.view.root && y.view.cwd == "/" && y.files == x.files
    ensures forall path, required :: !SP.Allowed(y.view, path, required)
    ensures y.pending == NOTHING_PENDING && !y.hasDataMode && !y.waiting && !y.own.abort && y.last.code == 220
  {
  }

  /** QUIT ends the session behind its goodbye, whoever sends it. */
  lemma QuitMeans(a: Answers, dirs: set<Path>, locks: LockMap, x: Scene, y: Scene)
    requires Does(QUIT, None, a, dirs, locks, x, y)
    ensures y.own.quit && y.last.code == 221 && y.view == x.view && y.files == x.files
  {
  }

  /** ABOR raises the flag exactly for a transfer that is running, and takes the data mode away. */
  lemma AborMeans(argument: Option<string>, a: Answers, dirs: set<Path>, locks: LockMap, x: Scene, y: Scene)
    requires Does(ABOR, argument, a, dirs, locks, x, y) && !x.own.abort
    ensures y.own.abort <==> x.own.thread.Running?
    ensures y.last.code == (if x.own.thread.Running? then 426 else 225)
    ensures y.view == x.view && y.files == x.files && y.pending == x.pending && !y.hasDataMode
  {
  }
}
