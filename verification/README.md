# SimpleFTP, modelled and verified in Dafny

SimpleFTP is a multithreaded FTP server in C with a small client in Python. This project models the parts of it where correctness is not
visible in any one function, and proves what they promise.

* **Locks and transfers.** A command thread takes a per-path reader/writer lock, opens a data connection and hands the lock to a transfer
  thread, which moves the file, sends the final reply and releases the lock. `LockTable` is the linked list of lock entries on the heap,
  proved to implement the map of `LockSpec`. `TransferProtocol` is a step relation over any number of sessions, the lock map and the
  files; `LockHandOff`, `Isolation` and `ProtocolTheorems` prove its invariants over every run. `WriterWaiting` treats blocked writers.
  `Handlers`, `CommandLoop` and `ClientThread` are the handlers themselves, the dispatcher and the thread that serves a client, run on the
  linked list and the transfer loops; every handler's contract says exactly when it makes which reply and what it changes. `ClientView`
  says what each command means to the client that sends it, in terms of components, permissions and what is there. `HandlerRuns` and
  `TransferRuns` mirror the state of such a session in a protocol state, in which the other sessions may be at any point, and show that
  every outcome of a command is a run of that session's command thread and every outcome of a transfer a run of its transfer thread, with
  the same bytes sent or stored. `ManyClients` runs any number of clients on one lock table and one file system, taking turns in any
  order: together they are a run of the protocol. `WholeTransfers` follows RETR, APPE and an interrupted STOR from the client's line to
  the end of the thread: what they leave, and that they end well if nothing is in the way; and `AfterReply` looks at what happens between
  a thread's final reply and its end.
* **Bytes.** `LineEndings` and `Transfer` are the conversions and the four chunked transfer loops, with REST and APPE offsets.
* **Names.** `Paths`, `PathResolution`, `PathLaws`, `SessionPaths` and `ParentDirectory` take a client's path to the absolute name under
  which a file is opened and locked.
* **Session state.** `CommandTable` and `CommandHistory` say what a REST or RNFR leaves pending, over whole histories; `DataSockets`
  follows the data sockets against a concurrently closing transfer thread; `Connections` counts clients; `PassivePorts` searches for a
  free port.
* **Wire formats.** `ReplyWire`, `ReplyTexts`, `CommandWire` and `AddressWire` carry replies, commands and addresses between the server's
  C formatters and parsers and the client's Python ones (sections 2.3, 4.1, 4.2 and 5.3 of RFC 959).

Code that changes things in place is modelled by classes, arrays and loops, each method proved against a specification function; the laws
are lemmas about those functions. What the system leaves open (scheduling, I/O results, partial reads and writes, memory, thread creation,
clocks) is nondeterministic, a parameter, or a step that may or may not happen. `hide` clauses in a proof only keep it short.

Where the code does not do what its shape suggests, the code is followed and the exact condition proved:

* A rename locks only its source, and may land on a file that another session has since begun to send or store. That is the one step by
  which a session can change a file another has locked (`Isolation.OthersUntouched`). After any step a holder can rely on its file exactly
  if the step was no such rename or brought the contents that were there (`Isolation.HolderOkIff`, `Isolation.StoreOkIff`). Downloads and
  uploads that end well are exact in every run that is harmless in this sense to the one file they move, whatever happens to all others
  (`ProtocolTheorems.SnapshotDownload`, `ProtocolTheorems.ExactUpload`, `ProtocolTheorems.NoLandingIsHarmless`).
  `RenameRace.LandingSpoilsDownload` and `RenameRace.LandingSpoilsUpload` are reachable runs in which a landing rename spoils a download
  and an upload that end well.
* An ASCII upload converts every received segment on its own. It leaves the file that the converted stream would exactly if no segment
  ends between a CR and its LF, or what lay behind is what takes the places gained (`Transfer.AsciiUploadExactIff`).
* A user whose home is `/` may enter only `/` itself (`SessionPaths.RootHomeAdmitsOnlyRoot`), and one whose home ends in a slash otherwise
  may enter nothing (`SessionPaths.SlashHomeAdmitsOnlyRoot`).
* The close of a data connection is taken for the end of the data. A client whose connection closes early may be told that its upload is
  complete; an upload that ends well has stored all the client meant to send exactly if all of it arrived before the close
  (`WholeTransfers.Attempt`, with the witness `Transfer.ClosedEarly`).
* The final reply of a transfer precedes the release of its lock and the end of its thread. The next transfer command is not refused
  exactly if its lock is free, its file as it should be and the session idle (`AfterReply.CanStartIff`); a client that does not wait may
  see its file refused as busy (`AfterReply.BusyUntilUnlock`), or lose the file it has just been told is stored
  (`AfterReply.AnsweredUploadCanBeLost`).
* CDUP in a directory whose name, or number of components, leaves no room for two more dots stays there, and says that it has moved
  (`PathLaws.ParentIff`).
* A PASS after a USER with an unknown name still checks the password of the name given before (`ClientView.LoginMeans`).
* Resolving `p` and then `q` is resolving `p/q` for every `p` but the empty one (`PathLaws.EmptyFirstStepDiffers`).
* A fresh STOR removes the old file before the data connection is open. A STOR that starts no transfer loses the file exactly if it is
  fresh, the file was there, and the failure comes after the checks: the 150 reply cannot be sent, the connection cannot be opened, or the
  thread cannot be started (`Handlers.CommandThread.HandleStor`); `TransferProtocol.FailedStorLosesTheFile` is such a run.
* A REST that is turned down keeps the offset of an earlier one, and so does a RETR or STOR that opens no data connection
  (`CommandHistory.RestartOffset`).
* The 16-bit size of the port range is zero for the range 0..65535, and only for that one (`PassivePorts.RangeSizeExactIff`).
* The Telnet filter drops one more byte after an unknown IAC sequence than its comment says (`CommandWire.UnknownSequenceLosesAByte`). Its
  branch for negotiation commands cannot be reached, because the test before it covers the same bytes; so the option byte of a negotiation
  goes into the command (`CommandWire.NegotiationLeavesItsOption`).

## Model

| member | source | states |
|---|---|---|
| LockSpec.ReleaseUndoesAcquire | server/src/filelock.c:148-286 | a release after a successful try-acquire in the same mode restores the whole map, including the absence of an entry created for it |
| LockSpec.UnmatchedRelease | server/src/filelock.c:240-286 | a release nobody has matched changes nothing at all |
| LockSpec.GrantsExclude | server/src/filelock.c:164-173 | after a grant a second one is possible exactly if both are shared |
| LockSpec.SoundAfterAcquire | server/src/filelock.c:148-238 | acquisitions keep: no idle entry, at most one writer, no writer beside readers |
| LockSpec.SoundAfterRelease | server/src/filelock.c:240-286 | so do releases, matched or not |
| LockSpec.SoundAfterWait | server/src/filelock.c:179-207 | so do the queueing and the grant of a blocked writer |
| LockTable.FileLocks.Find | server/src/filelock.c:44-69 | finds the entry of a path and its predecessor exactly if the map has the path |
| LockTable.FileLocks.GetOrCreate | server/src/filelock.c:71-99 | the entry of a path, or a fresh idle one at the head; fails only without memory |
| LockTable.FileLocks.RemoveEntry | server/src/filelock.c:101-119 | unlinks exactly the given entry |
| LockTable.FileLocks.TryAcquireShared | server/src/filelock.c:148-177 | succeeds exactly if no writer holds or awaits the path, counts one reader, and changes nothing on failure |
| LockTable.FileLocks.TryAcquireExclusive | server/src/filelock.c:209-238 | succeeds exactly if nobody holds the path, marks its writer, and changes nothing on failure |
| LockTable.FileLocks.BeginExclusive | server/src/filelock.c:179-200 | a blocking acquisition up to its first wait: the caller is queued, or granted if the path is free |
| LockTable.FileLocks.RetestExclusive | server/src/filelock.c:195-203 | after a wake-up the guard is tested again on the same entry |
| LockTable.FileLocks.ReleaseCommon | server/src/filelock.c:240-296 | one holder less in the given mode, an entry in use by nobody unlinked, one with a waiting writer kept |
| LockTable.FileLocks.IsExclusiveLocked | server/src/filelock.c:298-318 | whether the path has a writer |
| LockTable.FileLocks.SharedLockCount | server/src/filelock.c:320-340 | the number of readers of the path |
| WriterWaiting.NoLostWakeup | server/src/filelock.c:195-203 | in every reachable state a blocked writer whose guard holds has been signalled and is granted the lock at its next test |
| WriterWaiting.BlockedEntryStays | server/src/filelock.c:165-173 | while a writer is blocked its entry stays and no reader is added to it |
| WriterWaiting.GuardOpensOnlyOnRelease | server/src/filelock.c:258-283 | the guard of a blocked writer opens only in a release of its path, which signals every writer there |
| LockHandOff.ThreadsAgreeKept | server/src/session.c:1123-1168 | every step keeps: a session has at most one live transfer thread, with the parameters it was given, and is idle exactly without one |
| LockHandOff.StepCounts | server/src/handler.c:642-668 | a step changes the number of holders of each lock by exactly what it takes or gives back |
| LockHandOff.LocksAgreeKept | server/src/handler.c:794-820 | every step keeps the lock table equal to the number of holders of each path and mode |
| ProtocolTheorems.LocksMatchHolders | server/src/transfer.c:929-946 | in every reachable state the readers and writers of a path are the command threads and transfer threads holding it; a writer is alone |
| ProtocolTheorems.QuietServerHoldsNothing | server/src/handler.c:642-668 | when no transfer is live and no command in progress, the lock table is empty, whichever exits were taken |
| ProtocolTheorems.ReleasesAreMatched | server/src/transfer.c:929-946 | no release in a run is unmatched: it lowers a positive count of its own mode |
| ProtocolTheorems.TakenIsGivenOrHeld | server/src/handler.c:578-668 | over every run each grant is given back exactly once in its mode, or still held |
| ProtocolTheorems.OneThreadPerSession | server/src/session.c:1133-1160 | at most one live transfer thread per session |
| ReplyLaw.HandlerStepBalanced | server/src/server.c:115-154 | steps of command threads keep the balance of commands and final replies |
| ReplyLaw.ThreadStepBalanced | server/src/transfer.c:890-920 | so do steps of transfer threads |
| ProtocolTheorems.RepliesConserved | server/src/server.c:115-154 | final replies sent, plus the one the command thread owes, plus the one a live transfer owes, are the command lines handled |
| Isolation.OthersUntouched | server/src/handler.c:1376-1408 | a step changes a file that another command or transfer has locked only if it is a rename that lands on it |
| Isolation.HolderOkIff | server/src/transfer.c:73-130 | a holder that can rely on its file, as handed over and overlaid with what it wrote itself, still can after a step exactly if the step is no rename that lands on it with other contents |
| Isolation.StoreOkIff | server/src/handler.c:1382-1408 | and so can all holders, exactly if the step is harmless to each |
| ProtocolTheorems.SnapshotDownload | server/src/transfer.c:73-130 | from the grant of the shared lock to the end, in any interleaving harmless to its file: what a RETR that ends well has sent is the file at the grant, from the offset on; in ASCII mode with each LF as CRLF |
| ProtocolTheorems.OnlyLandingsMatter | server/src/handler.c:575-668 | only renames that land on the very file a transfer holds can harm it; without one a run is harmless, whatever the other sessions do |
| ProtocolTheorems.SnapshotFront | server/src/transfer.c:73-130 | in the same runs, however a download ends and at any time before, what has been sent is a front part of the same |
| ProtocolTheorems.NoLandingIsHarmless | server/src/handler.c:575-668 | so a transfer command whose file no rename lands on is served by a harmless run |
| ProtocolTheorems.HandOffPassesTheFile | server/src/handler.c:642-668 | in every reachable state the hand-off passes on the file seen: a fresh STOR none, an APPE the offset at its end, a resumed STOR or RETR an offset within it |
| ProtocolTheorems.BaseIsConstant | server/src/session.c:1141-1148 | neither the parameters nor that record change while the thread lives |
| ProtocolTheorems.ExactUpload | server/src/transfer.c:180-235 | from the grant of the exclusive lock until it unlocks, in any interleaving harmless to its file: an upload that ends well leaves the file at the grant, emptied by a fresh STOR, overlaid with exactly what it received, without holes |
| RenameRace.LandingSpoilsUpload | server/src/handler.c:1376-1408 | a reachable run in which a rename lands on a file being uploaded, and the upload that ends well leaves something else |
| RenameRace.LandingSpoilsDownload | server/src/handler.c:1376-1408 | a reachable run in which a rename lands on a file being downloaded, and the download that ends well has sent something else |
| TransferProtocol.FailedStorLosesTheFile | server/src/handler.c:754-791 | a fresh STOR of a file that is there may fail after its lock is granted, with an error reply, the lock table as before and the file gone |
| Handlers.CommandThread.SendResponse | server/src/session.c:1031-1061 | a reply that fits its line is lost only if it cannot be sent |
| Handlers.CommandThread.StartTransferThread | server/src/session.c:1123-1168 | a thread is started only when none is live, and keeps the parameters; a failure changes nothing |
| Handlers.CommandThread.Launch | server/src/handler.c:616-661 | either a thread owes the reply, or the client has been answered; the restart offset goes once the connection is open |
| Handlers.CommandThread.Admit | server/src/handler.c:531-553 | the refusals for login, argument, data mode, permission and name, in that order |
| Handlers.CommandThread.HandleRetr | server/src/handler.c:527-671 | each refusal comes exactly in its case, and the transfer starts otherwise, unless the system is in the way: a directory, no such file, a busy lock, an offset behind the end; a started thread owns exactly the shared lock, the resolved path and the offset; any other exit leaves the lock table as it was and answers once |
| Handlers.CommandThread.HandleStor | server/src/handler.c:673-823 | the same with the exclusive lock: for a resumed upload the file has to be there and reach the offset, a fresh one has removed it; without a transfer the file is lost exactly if it was there, the upload fresh and the failure one of the last three |
| Handlers.CommandThread.HandleAppe | server/src/handler.c:825-945 | the same, starting at the end of the file; only a directory or a busy lock is refused |
| Handlers.CommandThread.HandleDele | server/src/handler.c:1431-1516 | each refusal comes exactly in its case; otherwise it removes the file, and only with the lock free; the lock table is as it was |
| Handlers.CommandThread.HandleProbe | server/src/handler.c:1583-1712 | each refusal comes exactly in its case; otherwise SIZE prints the size of the file and MDTM its time; the lock table is as before |
| Handlers.CommandThread.HandleRnfr | server/src/handler.c:1271-1317 | each refusal comes exactly in its case; otherwise it remembers exactly the resolved path; the lock table is as it was |
| Handlers.CommandThread.AdmitDestination | server/src/handler.c:1325-1374 | RNTO gets as far as its lock exactly if it follows an RNFR, is permitted, and its destination is free and in a directory |
| Handlers.CommandThread.HandleRnto | server/src/handler.c:1319-1429 | forgets the source exactly if nothing is wrong before the lock; then says so if the lock is taken or the source gone, and otherwise moves the file, unless the system refuses; leaves the lock table as it was |
| Handlers.CommandThread.HandleRest | server/src/handler.c:947-974 | accepts exactly the arguments that are numbers of zero or more, and keeps the number; otherwise the earlier one stays |
| Handlers.RestRoundTrip | server/src/handler.c:953-962 | every number written in decimal is the offset taken, up to the largest long long |
| Handlers.RestReads | server/src/handler.c:953-962 | white space and a sign in front of a number are read as C reads them; anything behind it and any number below zero is turned down |
| Handlers.CommandThread.HandleList | server/src/handler.c:976-1158 | refuses exactly what the user may not read or is not there, and starts a transfer without a lock otherwise, unless the system is in the way |
| Handlers.ListsHere | server/src/handler.c:988-989 | LIST without an argument lists the working directory |
| Handlers.CommandThread.HandleCwd | server/src/handler.c:185-199 | moves exactly to an allowed directory that is there, and says so exactly then |
| Handlers.CommandThread.HandleCdup | server/src/handler.c:201-221 | asks for the parent in the same way, and takes no argument |
| Handlers.CommandThread.HandleAbor | server/src/handler.c:1518-1549 | raises the flag exactly if a transfer is running, closes the data connection, and answers 426 or 225 by itself |
| Handlers.CommandThread.HandleUser | server/src/handler.c:94-146 | waits for a password exactly for a known user or an admitted anonymous one |
| Handlers.CommandThread.HandlePass | server/src/handler.c:148-175 | looks at a password exactly if one is awaited, and logs in exactly with the right one |
| Handlers.CommandThread.HandleQuit | server/src/handler.c:233-308 | says goodbye and quits, unless it has an argument |
| Handlers.CommandThread.HandleRein | server/src/handler.c:310-336 | leaves the session as it began, unless it has an argument |
| Handlers.CommandThread.HandlePort | server/src/handler.c:338-371 | enters active mode exactly for an address that parses |
| Handlers.CommandThread.HandlePasv | server/src/handler.c:373-432 | enters passive mode and tells the address; a socket whose reply is lost is closed again |
| Handlers.CommandThread.HandleType | server/src/handler.c:434-463 | A and I set the type, EBCDIC is not supported, anything else is no type |
| Handlers.CommandThread.HandlePwd | server/src/handler.c:1160-1183 | prints the working directory in quotes |
| Handlers.CommandThread.HandleMkd | server/src/handler.c:1185-1224 | refuses exactly what the user may not create or is there |
| Handlers.CommandThread.HandleRmd | server/src/handler.c:1226-1269 | refuses exactly what the user may not remove, is not there, or is no directory |
| Handlers.CommandThread.RunTransfer | server/src/transfer.c:823-968 | the result is exactly the one its causes make: a missing connection, memory refused, the abort flag, a failed socket or file operation, and Ok without any of them; one final reply that tells it, spared only to a quitting session that lost its connection; the lock released in the mode of the operation; the session idle; a download has sent a front part of the file from the offset on, all of it if it ends well; an upload of either type and with any result has stored its segments |
| Handlers.CompletionTells | server/src/transfer.c:890-918 | every result has a final reply of its own; only one that ends well is announced as complete, and 226 stands for it or for an abort |
| HandlerRuns.LaunchIsARun | server/src/handler.c:571-661 | a handler that starts a transfer does what the protocol does between receiving the request and the hand-off |
| HandlerRuns.ChangeIsARun | server/src/handler.c:1377-1500 | a DELE or RNTO that has changed the files, and a fresh STOR that failed after removing its file, are runs that take the lock, change the files, answer and give the lock back |
| HandlerRuns.CommandIsARun | server/src/server.c:115-154 | whatever a command has done, by any exit, the protocol's command thread of that session may do on receiving the request, with the other sessions in any state |
| TransferRuns.TransferIsARun | server/src/transfer.c:823-968 | whatever a transfer has moved and however it ends, the protocol's transfer thread may do: it reaches a state in which it has sent or received exactly the same, and then ends; with the ABORs that came meanwhile, in time or too late |
| TransferRuns.LastTransferIsARun | server/src/session.c:132-174 | also when the session is closed while the transfer is live |
| CommandLoop.Dispatch | server/src/command.c:140-169 | a name in the table runs its own handler behind its pre-handler, with what that does to the session, the files and the reply; any other changes nothing |
| CommandLoop.RunBefore | server/src/handler.c:46-88 | the pre-handlers forget the restart offset, the pending rename, or both |
| CommandLoop.HandleVerb | server/src/command.c:140-169 | every command does what its own handler promises, with its own argument, and what the protocol allows on the request it stands for; it leaves pending what the history says |
| CommandLoop.HandleLine | server/src/server.c:115-154 | any line does what the command in it does, or is told that there is none; it is answered once or has started a transfer that will answer |
| ClientView.LineIsParsed | client/src/ftp/core/commands.py:36-49 | the client's line for any command and any argument it can send parses to that command |
| ClientView.Send | server/src/command.c:292-345 | a command sent by its name runs the handler of that name, and what it does is that handler's work |
| ClientView.EveryCommandIsOrderly | server/src/handler.c:46-92 | every command keeps to what it may change, needs the login and the permission for it, and reports no completed transfer of its own |
| ClientView.WithoutLogin | server/src/handler.c:26-44 | without a login no file changes, no transfer starts, and every command that needs one is refused and changes nothing; only a right password logs in |
| ClientView.ViewChangesBy | server/src/handler.c:94-336 | what a session may see changes only by CWD, CDUP, a right password or REIN, its type by TYPE or REIN, and a data mode comes only from PORT and PASV of a user that is logged in |
| ClientView.OnlyWithPermission | server/src/handler.c:527-1516 | a file changes or a transfer starts only by a command whose user is logged in and has the permission of that command for the path it names; a transfer only in a data mode and with its lock free |
| ClientView.CwdMeans | server/src/handler.c:185-199 | CWD of an ordinary user moves exactly to a directory that is there and whose components extend the home, and answers 250 exactly then |
| ClientView.CdupMeans | server/src/handler.c:201-221 | CDUP moves to the directory of all components but the last, exactly if that is not above the home and is there |
| ClientView.PwdMeans | server/src/handler.c:1160-1183 | PWD prints the working directory in quotes |
| ClientView.UserMeans | server/src/session.c:176-195 | a password is waited for exactly after a known name, or the name of a guest where guests are welcome |
| ClientView.LoginMeans | server/src/session.c:176-268 | USER and PASS log a known user with the right password in, with its own permissions and home and in its home if that is there; otherwise nothing changes, unless a name given before is still waiting |
| ClientView.TypeMeans | server/src/handler.c:434-463 | TYPE I and TYPE A set the type |
| ClientView.PasvMeans | server/src/handler.c:373-432 | PASV gives a user that is logged in a data mode if the system has a socket and the reply is sent |
| ClientView.PortMeans | server/src/handler.c:338-371 | so does PORT with every address a client can write |
| ClientView.SettingMeans | server/src/handler.c:465-523 | STRU F and MODE S are accepted |
| ClientView.RestMeans | server/src/handler.c:947-974 | every offset in decimal is taken and changes nothing else |
| ClientView.RetrMeans | server/src/handler.c:527-671 | with permission and nothing in the way RETR starts exactly if the file is there, no directory, free of writers, and reaches the offset |
| ClientView.StorMeans | server/src/handler.c:673-823 | STOR starts exactly if the name is no directory, nobody holds it, and the file reaches the offset; it has removed the file exactly if it starts at zero |
| ClientView.AppeMeans | server/src/handler.c:825-945 | APPE starts exactly if the name is no directory and nobody holds it |
| ClientView.ListMeans | server/src/handler.c:976-1066 | LIST starts exactly for what is there and the user may read |
| ClientView.SizeMeans | server/src/handler.c:1583-1712 | SIZE prints the size and MDTM the time exactly of a file that is there and has no writer |
| ClientView.DeleMeans | server/src/handler.c:1431-1516 | DELE removes exactly a file that is there and that nobody holds |
| ClientView.DestinationMeans | server/src/handler.c:1340-1372 | RNTO accepts a destination exactly if the user may rename to it, its name is not too long, nothing is there, and its components but the last lead to a directory |
| ClientView.RenameMeans | server/src/handler.c:1271-1429 | RNFR and RNTO one behind the other move a file that is there, that nobody holds, to an acceptable destination, and change nothing otherwise |
| ClientView.MkdMeans | server/src/handler.c:1185-1224 | MKD creates exactly what the user may create and is not there |
| ClientView.RmdMeans | server/src/handler.c:1226-1269 | RMD removes exactly a directory that is there and that the user may remove |
| ClientView.ReinMeans | server/src/session.c:93-130 | after REIN nothing is allowed and nothing pending until the next login |
| ClientView.QuitMeans | server/src/handler.c:233-308 | QUIT ends the session behind its goodbye |
| ClientView.AborMeans | server/src/handler.c:1518-1549 | ABOR raises the flag exactly for a running transfer and takes the data mode away |
| ClientThread.ServeLine | server/src/server.c:115-154 | one line is received by the protocol as the request it stands for, and dealt with by steps of its command thread alone; it settles one more reply and adds to what is held only the grant of the transfer it starts |
| ClientThread.Destroy | server/src/session.c:132-174 | the clean-up waits for the live transfer, leaves the lock table without its grant, and leaves it unanswered only for want of a connection |
| ClientThread.Serve | server/src/server.c:80-160 | over any lines, with transfers ending at any time between them: what is pending is the function of the history, replies equal lines, the lock table ends as it began, and the whole session is a run of the protocol in which no other session moves |
| ManyClients.TakeTurnAmong | server/src/server.c:80-160 | any client may take the next turn - a line, the end of its transfer, or its leaving - while all others keep their places; it is a run of the protocol |
| ManyClients.ServeAll | server/src/server.c:80-160 | any number of clients on one lock table and one file system, in any order of turns: a run of the protocol from its first state, every line of every client answered, and the lock table empty when all have left |
| WholeTransfers.Download | server/src/handler.c:527-671 | RETR from the client's line to the end of its thread: the lock table as before, one final reply, a front part of the file from the offset on sent, all of it if the client is told that it is complete; and it is told exactly that if the file is there, free, long enough and the user's to read, and nothing fails, is refused or aborted |
| WholeTransfers.Append | server/src/handler.c:825-945 | APPE likewise: what was there stays in front and behind it is what arrived, all of it if the client is told that it is complete; and it is told so if nothing is in the way |
| WholeTransfers.Store | server/src/handler.c:673-823 | STOR likewise: what arrives is written over what was there from the offset on, all of it if the client is told that it is complete; and it is told so if nothing is in the way |
| WholeTransfers.Attempt | server/src/handler.c:673-823 | PASV, REST and STOR from the n bytes that are there, with a client that closes after byte m: the file is never more than the first m bytes, these if the client is told that it is complete, and then the whole data exactly if m was its end; and it is told so if nothing is in the way |
| WholeTransfers.UploadAndResume | server/src/handler.c:673-823 | an upload interrupted by any failure or an early close, and resumed at the size reached: once begun the file is always a front part of the data; it is the data after a complete transfer to which all of the rest was sent, and that comes about if some attempt sends all of it over a connection that works, unless it is aborted or the system fails |
| AfterReply.CanStartIff | server/src/handler.c:571-661 | a transfer command gets its thread, by steps of its own command thread, exactly if its lock is free, its file passes the checks and the session is idle |
| AfterReply.RefusedUntilExit | server/src/transfer.c:929-963 | until the thread of an earlier transfer has gone it does not, whatever that thread has told the client |
| AfterReply.BusyUntilUnlock | server/src/transfer.c:890-946 | from the final reply to the release of the lock the file is busy to all but readers beside a reader |
| AfterReply.AnsweredUploadCanBeLost | server/src/transfer.c:890-963 | from every state in which a session may store a file: a run in which it is told that the file is stored, and its next STOR of it is answered by an error and leaves no file |
| CommandTable.HandlerTable.Find | server/src/command.c:64-80 | finds a slot exactly if the name is registered |
| CommandTable.HandlerTable.Register | server/src/command.c:82-122 | adds or replaces one name; fails exactly for a new name in a full table |
| CommandTable.RegisterStandard | server/src/command.c:292-345 | fills the table with the standard handlers, without failure |
| CommandTable.StandardTable | server/src/command.c:292-345 | each standard command finds its own handler behind the right clearing step, and no other name finds any |
| CommandHistory.PendingRename | server/src/command.c:300-342 | a rename is pending exactly if a successful RNFR has been followed only by NOOP, FEAT, unrecognised lines or RNTOs turned down before their lock, and it is that RNFR's |
| CommandHistory.RestartOffset | server/src/command.c:317-342 | the offset is that of the last accepted REST followed only by commands that keep it, and zero without one |
| CommandHistory.NeverBoth | server/src/handler.c:46-88 | a rename and a restart offset are never pending together |
| LineEndings.CrlfToLfUndoesLfToCrlf | server/src/utils.c:67-126 | collapsing undoes expanding for every byte string, stray CRs included |
| LineEndings.LfToCrlfUndoesCrlfToLfIff | server/src/utils.c:67-126 | expanding undoes collapsing exactly if every LF follows a CR |
| LineEndings.LfToCrlfConcat | server/src/utils.c:103-126 | expansion distributes over concatenation, so chunks on the way out do no harm |
| LineEndings.LfToCrlfLength | server/src/transfer.c:286-332 | expansion adds one byte per LF, so the doubled buffer always suffices |
| LineEndings.CrlfToLfConcat | server/src/utils.c:67-101 | two pieces converted apart differ from the whole by at most the CR a split leaves behind |
| LineEndings.SegmentedLength | server/src/transfer.c:414-491 | converting segment by segment gives exactly one byte more per split CRLF |
| LineEndings.SegmentationHarmlessIff | server/src/transfer.c:414-491 | and the same bytes exactly if no boundary splits one |
| LineEndings.LfToCrlfBuffer | server/src/utils.c:103-126 | the loop writes the expansion if it fits, and fails otherwise |
| LineEndings.CrlfToLfBuffer | server/src/utils.c:67-101 | the loop writes the collapsed text if it fits, and fails otherwise |
| FileStore.OverlayAt | server/src/filesys.c:764-831 | what a write at an offset within the file leaves, byte by byte |
| FileStore.OverlayAdjacent | server/src/filesys.c:803-830 | two adjacent writes make one |
| Transfer.DataSocket.SendAll | server/src/network.c:396-413 | partial sends add up to all of the data, or to a prefix on failure |
| Transfer.FileSystem.ReadChunk | server/src/filesys.c:692-762 | partial reads add up to the chunk, short only at the end of the file |
| Transfer.FileSystem.WriteChunk | server/src/filesys.c:764-831 | partial writes add up to the overlay, or to that of a prefix on failure; other files are untouched |
| Transfer.SendFile | server/src/transfer.c:37-150 | the result exactly by its cause: Ok exactly with a connection, memory, an offset within the file, no failed read or send, and no abort before the end; the file is sent from the offset on, and only ever a front part of that |
| Transfer.SendFileAscii | server/src/transfer.c:257-381 | the same for the expansion of the file from the offset on; the conversion never fails |
| Transfer.ReceiveFile | server/src/transfer.c:152-255 | the result exactly by its cause: Ok exactly with a connection, memory, no failed receive or write, and no abort; what arrives is stored at the offset, all of it if it ends well, and after a failed write a part of its piece |
| Transfer.ReceiveFileAscii | server/src/transfer.c:383-512 | the same with every segment converted on its own, and after a failed write part of one more conversion |
| Transfer.StoredIsPrefix | server/src/transfer.c:180-235 | whatever stops a binary upload, the file is overlaid with a front part of what arrived |
| Transfer.ClosedEarly | server/src/transfer.c:207-219 | an upload may end well with any front part of the data, if the connection closes there |
| FileStore.AppendAndFresh | server/src/handler.c:878-888 | an append adds the data at the end, a fresh upload leaves just the data |
| Transfer.AsciiUploadExactIff | server/src/transfer.c:414-491 | at any offset within the file, what an ASCII upload stores is longer by the number of split CRLFs; the file is right exactly without any, or if what lay behind takes the places gained |
| Transfer.AsciiRoundTrip | server/src/transfer.c:257-512 | a file downloaded and stored again in ASCII mode is the same exactly if its stream arrives unsplit |
| Paths.CollapseInPlace | server/src/protocol.c:386-412 | the two-pointer compaction in place leaves every run of slashes as one |
| Paths.NormalizePath | server/src/protocol.c:374-420 | slashes turned, runs collapsed, the trailing one dropped, within the length limit |
| Paths.TokensOfNormalizeSlashes | server/src/protocol.c:374-420 | normalising slashes keeps the components of a path |
| Paths.LimitHarmless | server/src/session.c:1208-1246 | the fixed component array makes no difference until it is full |
| PathResolution.ResolveComponents | server/src/session.c:1208-1246 | the tokeniser with its component stack computes the clamped fold, in which a dot stays, two dots take one off and a word adds one (`PathLaws.DotStays`, `PathLaws.DotDotLeaves`, `PathLaws.NameEnters`) |
| PathResolution.BuildPath | server/src/session.c:1247-1262 | the buffer is filled with the rendered components, cut at its size |
| PathResolution.NormalizeAndValidatePath | server/src/session.c:1183-1268 | joining, normalising, resolving, rendering and validating together |
| PathLaws.ResolutionIsFold | server/src/session.c:1183-1268 | within the limits the components of a path are the fold of the words of base and path, never above the root |
| PathLaws.AcceptedIsCanonical | server/src/session.c:1183-1268 | every accepted path is the rendering of proper components |
| PathLaws.CanonicalIsFixed | server/src/session.c:1183-1268 | a canonical path is left as it is, under any base |
| PathLaws.NormalizeIsIdempotent | server/src/session.c:1183-1268 | normalising an accepted path again under any base changes nothing |
| PathLaws.ResolveTwice | server/src/session.c:1183-1268 | resolving p and then relative q is resolving p/q |
| PathLaws.EmptyFirstStepDiffers | server/src/session.c:1186-1206 | with an empty p it is not, from any directory but the root |
| PathLaws.NameEnters | server/src/session.c:1239-1242 | within the limits a name behind a path leads into that entry |
| PathLaws.DotStays | server/src/session.c:1226-1230 | a dot leads nowhere |
| PathLaws.DotDotLeaves | server/src/session.c:1231-1238 | two dots lead to the parent, and from the root nowhere |
| PathLaws.ThereAndBack | server/src/session.c:1208-1246 | entering a directory and leaving it again leads nowhere |
| PathLaws.ParentIff | server/src/session.c:1183-1268 | from a canonical directory two dots lead to all its components but the last exactly if the component array and the buffer have room for them, and otherwise nowhere |
| PathLaws.RootIsItsParent | server/src/session.c:1183-1268 | there is nothing above the root |
| PathLaws.DotIsHere | server/src/session.c:1183-1268 | a dot names the directory it is read in |
| PathLaws.AcceptedIff | server/src/protocol.c:350-372 | a path is turned down exactly for a component with two dots in a row or a control character |
| SessionPaths.Session.CheckPathAccess | server/src/session.c:292-358 | the access check answers exactly by login, admin right, permission and home; what that means is `SessionPaths.AllowedIff`, `SessionPaths.NoHomeAllowedIff` and `SessionPaths.SlashHomeAdmitsOnlyRoot` |
| SessionPaths.Session.ResolvePath | server/src/session.c:435-472 | the absolute name is the root joined with the normalised path |
| SessionPaths.Session.ChangeDirectory | server/src/session.c:360-418 | moves exactly to an allowed, existing directory, and stays otherwise |
| SessionPaths.Session.Authenticated | server/src/session.c:232-268 | a login enters the home directory if it exists |
| SessionPaths.JoinPrefixIff | server/src/session.c:340-352 | the string test up to a slash is the prefix test on components |
| SessionPaths.AllowedIff | server/src/session.c:292-358 | access is granted exactly to a user that is logged in and an administrator, or has the permission asked for and names an accepted path whose components extend those of the home |
| SessionPaths.NoHomeAllowedIff | server/src/session.c:292-358 | without a home, exactly to a user that is logged in and an administrator, or has the permission and names an accepted path |
| SessionPaths.RootHomeAdmitsOnlyRoot | server/src/session.c:292-358 | with the root as home, exactly to administrators, and with the permission to the root alone |
| SessionPaths.SlashHomeAdmitsOnlyRoot | server/src/session.c:292-358 | with any other home that ends in a slash, to administrators alone |
| SessionPaths.UseAgreesWithCheck | server/src/session.c:445-467 | the name used is the root joined with the components that were checked |
| SessionPaths.SameNameIffSameComponents | server/src/filesys.c:60-72 | two spellings give one absolute name, hence one lock, exactly if their components are equal |
| SessionPaths.StaysInHome | server/src/session.c:360-418 | whatever directories a user that is no administrator asks for, the working directory stays below the home |
| SessionPaths.StaysPutWithoutRead | server/src/session.c:360-418 | without a login, or without the right to read, it stays where it is |
| SessionPaths.LoginLooksForHome | server/src/session.c:232-268 | the directory a login looks for is the one the name of the home stands for |
| SessionPaths.LoginStaysInHome | server/src/session.c:232-268 | from the login on: in the home if it is there, and below it ever after; otherwise in the directory of the login |
| ParentDirectory.GetParentDirectory | server/src/filesys.c:869-942 | trailing slashes and the last component are cut off in place |
| ParentDirectory.ParentOfEntry | server/src/filesys.c:898-941 | the parent of a name in a directory is that directory |
| ParentDirectory.ParentOfResolved | server/src/handler.c:1359-1374 | the destination directory RNTO looks at is the root joined with all components but the last |
| DataSockets.DataConnection.SetPort | server/src/session.c:474-507 | both sockets closed, active mode |
| DataSockets.DataConnection.SetPasv | server/src/session.c:509-562 | one new listening socket and passive mode, or none |
| DataSockets.DataConnection.CloseDataConnection | server/src/session.c:751-784 | both sockets closed, no mode |
| DataSockets.DataConnection.OpenDataConnection | server/src/session.c:564-749 | success leaves the data socket alone open, failure makes no socket, whatever the transfer thread closes meanwhile |
| DataSockets.DataConnection.AwaitAndAccept | server/src/session.c:612-735 | up to three accepts, each only on the listening socket waited for, which success closes |
| DataSockets.DataConnection.Reinitialize | server/src/handler.c:321-331 | resetting the fields after the close forgets no open socket |
| DataSockets.WholeSession | server/src/session.c:132-174 | over any commands and any closing in between, every socket ever made is closed exactly once |
| Connections.CountedOnce | server/src/server.c:160-166 | whichever of the four ways a connection ends, it is counted in once and out at most once, and exactly once when its thread has gone |
| Connections.CountIsExact | server/src/server.c:268-383 | over all interleavings the counter is its raises less its drops, which is the number of connections open, within a positive limit; a client is refused exactly at it |
| PassivePorts.RangeSizeExactIff | server/src/network.c:157-165 | the 16-bit range size is exact for every range but the full one |
| PassivePorts.CreateListeningSocketRange | server/src/network.c:149-191 | the wrapping search asks for ports of the range only, each at most once, and gives up only after all of them |
| ReplyWire.FormatResponse | server/src/protocol.c:138-168 | formats exactly the codes 100 to 599 whose line leaves room for the terminator |
| ReplyWire.ControlConnection.RecvLine | client/src/ftp/core/connection.py:127-141 | reads exactly up to the first CRLF and strips it |
| ReplyWire.ControlConnection.RecvMultiline | client/src/ftp/core/connection.py:143-165 | reads exactly the lines of one reply |
| ReplyWire.ReplyIsRead | client/src/ftp/core/connection.py:127-165 | the lines the server sends are the lines the client reads, the rest left unread |
| ReplyWire.ParseUndoesReply | client/src/ftp/core/parser.py:68-109 | parsing gives back the code and the text, stripped of outer white space |
| ReplyWire.ReplyRoundTrip | server/src/protocol.c:138-168 | both together, with anything at all behind the reply |
| ReplyTexts.InnerLinesFit | server/src/handler.c:266-306 | so do the inner lines of FEAT and QUIT |
| ReplyTexts.LongestPwdFits | server/src/handler.c:1160-1183 | PWD in the longest working directory fills its line to 1014 characters |
| ReplyTexts.OpeningsFit | server/src/handler.c:616-620 | the 150 replies fit for every argument and size |
| CommandWire.ControlSocket.ReceiveLine | server/src/network.c:342-385 | a line received is the first of the stream and fits the buffer |
| CommandWire.FilterTelnet | server/src/protocol.c:30-86 | the filter loop computes the Telnet filter |
| CommandWire.FilterUndoesEscapeIff | server/src/protocol.c:36-80 | the filter undoes the Telnet encoding exactly for lines without a bare IP byte |
| CommandWire.NegotiationLeavesItsOption | server/src/protocol.c:48-64 | of a three-byte negotiation only two bytes are dropped; its option byte stays in the command |
| CommandWire.UnknownSequenceLosesAByte | server/src/protocol.c:65-75 | after an IAC that begins nothing known, the byte behind it and one more are dropped |
| CommandWire.TrimWhitespace | server/src/utils.c:34-53 | trims in place |
| CommandWire.TrimmedSplits | server/src/utils.c:34-53 | trimming takes white space off both ends and nothing else |
| CommandWire.ToUppercase | server/src/utils.c:55-65 | upper-cases in place |
| CommandWire.ParseCommand | server/src/protocol.c:14-136 | the parser with its buffers computes the parsed command |
| CommandWire.LimitsOfParsed | server/src/protocol.c:107-133 | a parsed command has a name of one to seven characters and an argument of one to 511 |
| CommandWire.CommandIsReceived | client/src/ftp/core/commands.py:36-49 | the line the server receives is the line the client sent, and no other can be taken from the stream |
| CommandWire.CommandRoundTrip | client/src/ftp/core/commands.py:36-49 | and parses to the name in upper case and the arguments joined by spaces |
| CommandWire.BareCommandRoundTrip | client/src/ftp/core/commands.py:36-49 | also without arguments |
| AddressWire.PortRoundTrip | client/src/ftp/core/parser.py:140-165 | every address in a PORT command by the client is the address the server connects to |
| AddressWire.PasvRoundTrip | server/src/protocol.c:197-211 | every address in a 227 reply, read and parsed by the client, is the address the server listens on |
| AddressWire.PasvMessageIsParsed | client/src/ftp/core/parser.py:111-138 | the pattern search finds the six numbers of the message |
| AddressWire.ParsePortReads | server/src/protocol.c:170-195 | six bytes written with commas are parsed as they were |
| AddressWire.PasvParameters | server/src/protocol.c:321-348 | an address and port split into six bytes |
| Decimals.ScanDecimal | server/src/protocol.c:170-195 | a decimal numeral in front of anything that is no digit is read as its number |

## Left out

- LockTable.FileLocks.BeginExclusive: `file_lock_acquire_shared` and the readers it blocks are not modelled; they are not counted, so the entry they wait on may be removed, and no handler calls it.
- ProtocolTheorems.ExactUpload: only for runs without a rename that lands on the file with other contents while it is held, because RNTO locks only its source; the counterexample is proved.
- ProtocolTheorems.SnapshotDownload: the same.
- ProtocolTheorems.RepliesConserved: a session that is quitting or has lost its control connection is exempt, as it is in the code.
- ClientThread.Serve: each command and each transfer of this client runs in one piece, with the other sessions in any state; what they may do in between is the subject of `ManyClients` and `TransferProtocol`. REIN waits for a live transfer to end, because the code resets the state of a thread under it.
- ManyClients.ServeAll: turns are whole commands and whole transfers; steps of several clients inside them interleave in `TransferProtocol` only. New clients do not arrive on the way.
- Handlers.CommandThread.HandleMkd: whether the system creates the directory is its answer; MKD and RMD change no modelled directory, and RMD of one that is not empty is refused by the system.
- Handlers.CommandThread.HandlePasv: which of its failures the system has is left open, and the address in the reply is a parameter.
- Handlers.CommandThread.HandleUser: the users and their passwords are parameters.
- Handlers.CommandThread.HandleQuit: the goodbye text is a parameter.
- Handlers.CommandThread.HandleProbe: the time MDTM prints, as it prints it, is a parameter of at most 14 characters.
- Handlers.CommandThread.HandleRnto: moves files only; a directory is renamed without effect on the names below it.
- CommandWire.ParseCommand: a line is a C string, so it ends at its first NUL.
- ReplyWire.ControlConnection.RecvLine: characters are bytes below 128; the client's UTF-8 decoding is not modelled.
- AddressWire.ParsePortReads: numbers of 2^64 and more, which `sscanf` clamps, are taken modulo 2^32 like smaller ones.
- DataSockets.DataConnection.OpenDataConnection: sockets have distinct numbers, where the system reuses descriptors.
- A reply of a transfer thread sent between the lines of a multi-line reply (FEAT, QUIT) is not modelled on the wire.
- The abort flag: an ABOR after the transfer loop has ended leaves it set, and the next upload is aborted by it; no claim is made that it is clear when idle.
- Renaming a directory above an open file, symbolic and hard links: the store is keyed by path.
- Path characters of 128 and above, whose sign is the compiler's choice.
- A fresh STOR of nothing creates no file; absent and empty contents are the same in the theorems about contents.
- The linked list is shown under one global lock at a time; counters do not overflow, and allocation may fail only for new entries.
- `cmd_unregister_handler`, which the server never calls, and the listing of commands, which it only logs.
- Password checking (a placeholder in the code), directory listings, recursive deletion, statistics, logging, timeouts, urgent data.
- The Windows branches, the client's user interface, its transfer manager and its other commands.
