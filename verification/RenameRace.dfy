/**
 * What a landing rename can do. RNTO locks its source only and looks for its destination before it takes that lock, so
 * by the time the rename happens another session may be sending or storing a file of the new name.
 */
module RenameRace {
  import opened Common
  import opened LockSpec
  import opened FileStore
  import opened TransferProtocol
  import opened Isolation
  import opened ProtocolTheorems

  const SOURCE: Path := "/a"
  const TARGET: Path := "/b"
  const OTHER: Path := "/c"
  const RENAME := Request(Rnto(TARGET), SOURCE, 0, false)
  const WRITER := Counts(0, 1, 0)
  const READER := Counts(1, 0, 0)

  /** The session whose rename lands. */
  function Renaming(h: Handler): Session { NEW_SESSION.(handler := h, handled := 1) }

  lemma ReachableNext(s: State, step: Step, t: State)
    requires Reachable(s) && Enabled(s, step) && Next(s, step) == t
    ensures Reachable(t)
  {
    var init, steps :| Init(init) && Run(init, steps, s);
    assert Run(s, [step], t);
    RunJoin(init, steps, s, [step], t);
  }

  /** One more step at the front of a run. */
  lemma RunFirst(s: State, step: Step, t: State, steps: seq<Step>, u: State)
    requires Enabled(s, step) && Next(s, step) == t && Run(t, steps, u)
    ensures Run(s, [step] + steps, u)
  {
    assert ([step] + steps)[1..] == steps;
  }

  // ----- under an upload -----

  const STORE := Request(Stor, TARGET, 0, false)
  const STORING := Params(ReceiveFile, TARGET, 0, false, true)

  function Storing(h: Handler, threadState: ThreadState, params: Option<Params>): Session {
    NEW_SESSION.(handler := h, threadState := threadState, params := params, handled := 1)
  }

  function Uploading(phase: Phase, progress: Progress): map<nat, Thread> {
    map[7 := Thread(1, STORING, None, phase, progress)]
  }

  // One session's rename is checked while the new name is free,
  const START := State([NEW_SESSION, NEW_SESSION], map[], map[], map[SOURCE := [1, 1]])
  const RENAME_STARTED := START.(sessions := [Renaming(Started(RENAME)), NEW_SESSION])
  const RENAME_LOCKED := START.(
    sessions := [Renaming(Holding(RENAME, Granted, Some([1, 1]))), NEW_SESSION], locks := map[SOURCE := WRITER])
  const RENAME_CHECKED := RENAME_LOCKED.(sessions := [Renaming(Holding(RENAME, Checked, Some([1, 1]))), NEW_SESSION])
  // then another session begins to store that name,
  const STORE_STARTED := RENAME_CHECKED.(sessions := [RENAME_CHECKED.sessions[0], Storing(Started(STORE), Idle, None)])
  const STORE_LOCKED := RENAME_CHECKED.(
    sessions := [RENAME_CHECKED.sessions[0], Storing(Holding(STORE, Granted, None), Idle, None)],
    locks := map[SOURCE := WRITER, TARGET := WRITER])
  const STORE_CHECKED := STORE_LOCKED.(
    sessions := [RENAME_CHECKED.sessions[0], Storing(Holding(STORE, Checked, None), Idle, None)])
  const STORE_SPAWNED := STORE_LOCKED.(
    sessions := [RENAME_CHECKED.sessions[0], Storing(Waiting, Starting, Some(STORING))],
    threads := Uploading(Spawned, NoProgress))
  const STORE_BEGUN := STORE_LOCKED.(
    sessions := [RENAME_CHECKED.sessions[0], Storing(Waiting, Running, Some(STORING))],
    threads := Uploading(Begun, NoProgress))
  const STORE_OPEN := STORE_BEGUN.(threads := Uploading(Moving, Received([], [])))
  // then the rename happens, under the upload, which ends well.
  const RENAMED := STORE_OPEN.(
    sessions := [Renaming(Holding(RENAME, Done, None)), STORE_OPEN.sessions[1]], files := map[TARGET := [1, 1]])
  const STORE_WRITTEN := RENAMED.(threads := Uploading(Moving, Received([[2]], [2])), files := map[TARGET := [2, 1]])
  const STORED := STORE_WRITTEN.(threads := Uploading(Finished(Ok), Received([[2]], [2])))

  // Its steps, from the end.
  const STORE_END := [ReceiveChunk(7, [2])] + [Finish(7)]
  const STORE_HIT := [Effect(0)] + STORE_END
  const STORE_RUN := [Validate(1)] + ([HandOff(1, 7)] + ([Begin(7)] + ([Open(7)] + STORE_HIT)))

  lemma RenameIsChecked()
    ensures Enabled(START, Receive(0, RENAME)) && Next(START, Receive(0, RENAME)) == RENAME_STARTED
    ensures Enabled(RENAME_STARTED, Acquire(0)) && Next(RENAME_STARTED, Acquire(0)) == RENAME_LOCKED
    ensures Enabled(RENAME_LOCKED, Validate(0)) && Next(RENAME_LOCKED, Validate(0)) == RENAME_CHECKED
    ensures Enabled(RENAME_CHECKED, Receive(1, STORE)) && Next(RENAME_CHECKED, Receive(1, STORE)) == STORE_STARTED
  {
  }

  lemma StoreCanStart()
    ensures Reachable(STORE_STARTED)
  {
    assert Init(START) && Run(START, [], START);
    RenameIsChecked();
    hide Next, Enabled, Reachable;
    ReachableNext(START, Receive(0, RENAME), RENAME_STARTED);
    ReachableNext(RENAME_STARTED, Acquire(0), RENAME_LOCKED);
    ReachableNext(RENAME_LOCKED, Validate(0), RENAME_CHECKED);
    ReachableNext(RENAME_CHECKED, Receive(1, STORE), STORE_STARTED);
  }

  lemma StoreIsHandedOff()
    ensures Enabled(STORE_STARTED, Acquire(1)) && Next(STORE_STARTED, Acquire(1)) == STORE_LOCKED
    ensures Enabled(STORE_LOCKED, Validate(1)) && Next(STORE_LOCKED, Validate(1)) == STORE_CHECKED
    ensures Enabled(STORE_CHECKED, HandOff(1, 7)) && Next(STORE_CHECKED, HandOff(1, 7)) == STORE_SPAWNED
  {
    assert ValidatedFiles(STORE_LOCKED.files, STORE) == STORE_LOCKED.files;
  }

  lemma StoreOpens()
    ensures Enabled(STORE_SPAWNED, Begin(7)) && Next(STORE_SPAWNED, Begin(7)) == STORE_BEGUN
    ensures Enabled(STORE_BEGUN, Open(7)) && Next(STORE_BEGUN, Open(7)) == STORE_OPEN
  {
  }

  lemma StoreIsHit()
    ensures Enabled(STORE_OPEN, Effect(0)) && Next(STORE_OPEN, Effect(0)) == RENAMED
  {
  }

  lemma StoreFinishes()
    ensures Enabled(STORE_WRITTEN, Finish(7)) && Next(STORE_WRITTEN, Finish(7)) == STORED
  {
  }

  lemma WrittenOver()
    ensures Overlay([1, 1], 0, [2]) == [2, 1] && Overlay([], 0, [2]) == [2]
  {
    assert Overlay([1, 1], 0, [2]) == [2, 1];
  }

  lemma StoreWrites()
    ensures Enabled(RENAMED, ReceiveChunk(7, [2])) && Next(RENAMED, ReceiveChunk(7, [2])) == STORE_WRITTEN
  {
    hide Overlay;
    WrittenOver();
    var me := RENAMED.threads[7];
    assert me.progress.segments + [[2]] == [[2]] && me.progress.written + [2] == [2];
    assert WriteFile(RENAMED.files, me, [2]) == STORE_WRITTEN.files;
  }

  lemma StoreRuns()
    ensures Run(STORE_LOCKED, STORE_RUN, STORED) && Followed(ByHandler(1), STORE_RUN) == Some(ByThread(7))
  {
    StoreFinishes();
    OneStep(STORE_WRITTEN, Finish(7));
    hide Next, Enabled, Run;
    StoreIsHandedOff();
    StoreOpens();
    StoreIsHit();
    StoreWrites();
    RunFirst(RENAMED, ReceiveChunk(7, [2]), STORE_WRITTEN, [Finish(7)], STORED);
    RunFirst(STORE_OPEN, Effect(0), RENAMED, STORE_END, STORED);
    RunFirst(STORE_BEGUN, Open(7), STORE_OPEN, STORE_HIT, STORED);
    RunFirst(STORE_SPAWNED, Begin(7), STORE_BEGUN, [Open(7)] + STORE_HIT, STORED);
    RunFirst(STORE_CHECKED, HandOff(1, 7), STORE_SPAWNED, [Begin(7)] + ([Open(7)] + STORE_HIT), STORED);
    RunFirst(STORE_LOCKED, Validate(1), STORE_CHECKED, [HandOff(1, 7)] + ([Begin(7)] + ([Open(7)] + STORE_HIT)),
             STORED);
    ThreadKeeps([Begin(7)] + ([Open(7)] + STORE_HIT));
    FollowedToThread([Begin(7)] + ([Open(7)] + STORE_HIT));
  }

  lemma OneStep(s: State, step: Step)
    requires Enabled(s, step)
    ensures Run(s, [step], Next(s, step))
  {
  }

  lemma {:induction false} ThreadKeeps(steps: seq<Step>)
    requires forall i | 0 <= i < |steps| :: !steps[i].Exit?
    ensures Followed(ByThread(7), steps) == Some(ByThread(7))
    decreases |steps|
  {
    if steps != [] { ThreadKeeps(steps[1..]); }
  }

  lemma FollowedToThread(steps: seq<Step>)
    requires Followed(ByThread(7), steps) == Some(ByThread(7))
    ensures Followed(ByHandler(1), [Validate(1)] + ([HandOff(1, 7)] + steps)) == Some(ByThread(7))
  {
    var rest := [HandOff(1, 7)] + steps;
    assert ([Validate(1)] + rest)[1..] == rest && rest[1..] == steps;
  }

  /** Here an upload received the byte 2 alone and ended well, but a byte of the renamed file follows it. */
  lemma LandingSpoilsUpload()
    ensures Reachable(STORE_STARTED) && TransferRun(STORE_STARTED, 1, STORE_RUN, STORED, 7)
    ensures Enabled(STORE_OPEN, Effect(0)) && !Harmless(STORE_OPEN, Effect(0), ByThread(7))
    ensures EndedWell(STORED.threads[7]) && STORED.threads[7].progress.segments == [[2]]
    ensures ContentOrEmpty(STORED.files, TARGET) == [2, 1] != Overlay([], 0, OnDiskAll(STORE.ascii, [[2]]))
  {
    StoreIsHit();
    WrittenOver();
    assert !Harmless(STORE_OPEN, Effect(0), ByThread(7));
    hide Next, Enabled, Run, Followed, Harmless, Reachable;
    StoreCanStart();
    StoreIsHandedOff();
    StoreOpens();
    StoreRuns();
  }

  // ----- under a download -----

  const MOVE := Request(Rnto(TARGET), OTHER, 0, false)
  const FETCH := Request(Retr, TARGET, 0, false)
  const FETCHING := Params(SendFile, TARGET, 0, false, true)
  const PENDING := Renaming(Holding(RENAME, Checked, Some([1])))

  /** The session that first renames a file to the same name and then fetches it. */
  function Fetching(h: Handler, threadState: ThreadState, params: Option<Params>, handled: nat, finals: nat): Session {
    NEW_SESSION.(handler := h, threadState := threadState, params := params, handled := handled, finals := finals)
  }

  function With(fetcher: Session, threads: map<nat, Thread>, locks: LockMap, files: Files): State {
    State([PENDING, fetcher], threads, locks, files)
  }

  const HELD: LockMap := map[SOURCE := WRITER]
  const BOTH: LockMap := map[SOURCE := WRITER, OTHER := WRITER]
  const READ: LockMap := map[SOURCE := WRITER, TARGET := READER]
  const BEFORE: Files := map[SOURCE := [1], OTHER := [3]]
  const MOVED: Files := map[SOURCE := [1], TARGET := [3]]

  // A rename is checked while the new name is free, then another session renames a file to that name,
  const BEGIN := State([NEW_SESSION, NEW_SESSION], map[], map[], BEFORE)
  const CHECKED := With(NEW_SESSION, map[], HELD, BEFORE)
  const MOVE_STARTED := With(Fetching(Started(MOVE), Idle, None, 1, 0), map[], HELD, BEFORE)
  const MOVE_LOCKED := With(Fetching(Holding(MOVE, Granted, Some([3])), Idle, None, 1, 0), map[], BOTH, BEFORE)
  const MOVE_CHECKED := With(Fetching(Holding(MOVE, Checked, Some([3])), Idle, None, 1, 0), map[], BOTH, BEFORE)
  const MOVE_DONE := With(Fetching(Holding(MOVE, Done, None), Idle, None, 1, 0), map[], BOTH, MOVED)
  const MOVE_REPLIED := With(Fetching(Replied(MOVE), Idle, None, 1, 1), map[], BOTH, MOVED)
  const MOVE_OVER := With(Fetching(Waiting, Idle, None, 1, 1), map[], HELD, MOVED)
  // and begins to fetch it.
  const FETCH_STARTED := With(Fetching(Started(FETCH), Idle, None, 2, 1), map[], HELD, MOVED)
  const FETCH_LOCKED := With(Fetching(Holding(FETCH, Granted, Some([3])), Idle, None, 2, 1), map[], READ, MOVED)
  const FETCH_CHECKED := With(Fetching(Holding(FETCH, Checked, Some([3])), Idle, None, 2, 1), map[], READ, MOVED)

  function Downloading(phase: Phase, progress: Progress): map<nat, Thread> {
    map[7 := Thread(1, FETCHING, Some([3]), phase, progress)]
  }

  const FETCH_SPAWNED :=
    With(Fetching(Waiting, Starting, Some(FETCHING), 2, 1), Downloading(Spawned, NoProgress), READ, MOVED)
  const FETCH_BEGUN :=
    With(Fetching(Waiting, Running, Some(FETCHING), 2, 1), Downloading(Begun, NoProgress), READ, MOVED)
  const FETCH_OPEN := FETCH_BEGUN.(threads := Downloading(Moving, Sent(0, 1, [])))
  // The first rename lands, and the other file is sent.
  const LANDED := FETCH_OPEN.(
    sessions := [Renaming(Holding(RENAME, Done, None)), FETCH_OPEN.sessions[1]], files := map[TARGET := [1]])
  const FETCH_READ := LANDED.(threads := Downloading(Moving, Sent(1, 0, [1])))
  const FETCHED := FETCH_READ.(threads := Downloading(Finished(Ok), Sent(1, 0, [1])))

  const FETCH_END := [SendChunk(7)] + [Finish(7)]
  const FETCH_HIT := [Effect(0)] + FETCH_END
  const FETCH_RUN := [Validate(1)] + ([HandOff(1, 7)] + ([Begin(7)] + ([Open(7)] + FETCH_HIT)))

  lemma FirstRenameIsChecked()
    ensures Reachable(CHECKED)
  {
    var started := BEGIN.(sessions := [Renaming(Started(RENAME)), NEW_SESSION]);
    var locked := BEGIN.(sessions := [Renaming(Holding(RENAME, Granted, Some([1]))), NEW_SESSION], locks := HELD);
    assert Init(BEGIN) && Run(BEGIN, [], BEGIN);
    assert Enabled(BEGIN, Receive(0, RENAME)) && Next(BEGIN, Receive(0, RENAME)) == started;
    assert Enabled(started, Acquire(0)) && Next(started, Acquire(0)) == locked;
    assert Enabled(locked, Validate(0)) && Next(locked, Validate(0)) == CHECKED;
    hide Next, Enabled, Reachable;
    ReachableNext(BEGIN, Receive(0, RENAME), started);
    ReachableNext(started, Acquire(0), locked);
    ReachableNext(locked, Validate(0), CHECKED);
  }

  lemma MoveSteps()
    ensures Enabled(CHECKED, Receive(1, MOVE)) && Next(CHECKED, Receive(1, MOVE)) == MOVE_STARTED
    ensures Enabled(MOVE_STARTED, Acquire(1)) && Next(MOVE_STARTED, Acquire(1)) == MOVE_LOCKED
    ensures Enabled(MOVE_LOCKED, Validate(1)) && Next(MOVE_LOCKED, Validate(1)) == MOVE_CHECKED
    ensures Enabled(MOVE_CHECKED, Effect(1)) && Next(MOVE_CHECKED, Effect(1)) == MOVE_DONE
  {
  }

  lemma MoveEnds()
    ensures Enabled(MOVE_DONE, ReplyHeld(1, true)) && Next(MOVE_DONE, ReplyHeld(1, true)) == MOVE_REPLIED
    ensures Enabled(MOVE_REPLIED, ReleaseHeld(1)) && Next(MOVE_REPLIED, ReleaseHeld(1)) == MOVE_OVER
    ensures Enabled(MOVE_OVER, Receive(1, FETCH)) && Next(MOVE_OVER, Receive(1, FETCH)) == FETCH_STARTED
  {
  }

  lemma FetchCanStart()
    ensures Reachable(FETCH_STARTED)
  {
    FirstRenameIsChecked();
    MoveSteps();
    MoveEnds();
    hide Next, Enabled, Reachable;
    ReachableNext(CHECKED, Receive(1, MOVE), MOVE_STARTED);
    ReachableNext(MOVE_STARTED, Acquire(1), MOVE_LOCKED);
    ReachableNext(MOVE_LOCKED, Validate(1), MOVE_CHECKED);
    ReachableNext(MOVE_CHECKED, Effect(1), MOVE_DONE);
    ReachableNext(MOVE_DONE, ReplyHeld(1, true), MOVE_REPLIED);
    ReachableNext(MOVE_REPLIED, ReleaseHeld(1), MOVE_OVER);
    ReachableNext(MOVE_OVER, Receive(1, FETCH), FETCH_STARTED);
  }

  lemma FetchOpens()
    ensures Enabled(FETCH_STARTED, Acquire(1)) && Next(FETCH_STARTED, Acquire(1)) == FETCH_LOCKED
    ensures Enabled(FETCH_LOCKED, Validate(1)) && Next(FETCH_LOCKED, Validate(1)) == FETCH_CHECKED
  {
  }

  lemma FetchSpawns()
    ensures Enabled(FETCH_CHECKED, HandOff(1, 7)) && Next(FETCH_CHECKED, HandOff(1, 7)) == FETCH_SPAWNED
    ensures Enabled(FETCH_SPAWNED, Begin(7)) && Next(FETCH_SPAWNED, Begin(7)) == FETCH_BEGUN
    ensures Enabled(FETCH_BEGUN, Open(7)) && Next(FETCH_BEGUN, Open(7)) == FETCH_OPEN
  {
  }

  lemma FetchIsHit()
    ensures Enabled(FETCH_OPEN, Effect(0)) && Next(FETCH_OPEN, Effect(0)) == LANDED
    ensures !Harmless(FETCH_OPEN, Effect(0), ByThread(7))
  {
  }

  lemma FetchReads()
    ensures Enabled(LANDED, SendChunk(7)) && Next(LANDED, SendChunk(7)) == FETCH_READ
  {
    assert [1][0..1] == [1] && [] + [1] == [1];
  }

  lemma FetchFinishes()
    ensures Enabled(FETCH_READ, Finish(7)) && Next(FETCH_READ, Finish(7)) == FETCHED
  {
  }

  lemma FetchRuns()
    ensures Run(FETCH_LOCKED, FETCH_RUN, FETCHED) && Followed(ByHandler(1), FETCH_RUN) == Some(ByThread(7))
  {
    FetchFinishes();
    OneStep(FETCH_READ, Finish(7));
    hide Next, Enabled, Run;
    FetchOpens();
    FetchSpawns();
    FetchIsHit();
    FetchReads();
    RunFirst(LANDED, SendChunk(7), FETCH_READ, [Finish(7)], FETCHED);
    RunFirst(FETCH_OPEN, Effect(0), LANDED, FETCH_END, FETCHED);
    RunFirst(FETCH_BEGUN, Open(7), FETCH_OPEN, FETCH_HIT, FETCHED);
    RunFirst(FETCH_SPAWNED, Begin(7), FETCH_BEGUN, [Open(7)] + FETCH_HIT, FETCHED);
    RunFirst(FETCH_CHECKED, HandOff(1, 7), FETCH_SPAWNED, [Begin(7)] + ([Open(7)] + FETCH_HIT), FETCHED);
    RunFirst(FETCH_LOCKED, Validate(1), FETCH_CHECKED, [HandOff(1, 7)] + ([Begin(7)] + ([Open(7)] + FETCH_HIT)),
             FETCHED);
    ThreadKeeps([Begin(7)] + ([Open(7)] + FETCH_HIT));
    FollowedToThread([Begin(7)] + ([Open(7)] + FETCH_HIT));
  }

  /** Here a download locked the file [3], ended well, and has sent [1]. */
  lemma LandingSpoilsDownload()
    ensures Reachable(FETCH_STARTED) && TransferRun(FETCH_STARTED, 1, FETCH_RUN, FETCHED, 7)
    ensures Enabled(FETCH_OPEN, Effect(0)) && !Harmless(FETCH_OPEN, Effect(0), ByThread(7))
    ensures EndedWell(FETCHED.threads[7]) && Content(FETCH_STARTED.files, TARGET) == Some([3])
    ensures FETCHED.threads[7].progress.data == [1] != OnWire(FETCH.ascii, [3][FETCH.offset..])
  {
    FetchCanStart();
    FetchOpens();
    FetchIsHit();
    FetchRuns();
    hide Next, Enabled, Run, Followed, Harmless, Reachable;
  }
}
