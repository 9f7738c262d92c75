/**
 * Any number of clients of one server (server/src/server.c), each served by its own thread on the one lock table and
 * the one file system, in any order of turns. Together they are a run of TransferProtocol, so all that holds in its
 * reachable states holds between any two turns; and when the last client has left, the lock table is empty, whatever
 * the clients did.
 */
module ManyClients {
  import opened Common
  import opened CommandTable
  import opened LockSpec
  import opened LockTable
  import opened Handlers
  import opened HandlerRuns
  import opened CommandLoop
  import opened ClientThread
  import P = TransferProtocol
  import PT = ProtocolTheorems
  import T = Transfer

  /** What happens next: a client's line is handled, its live transfer ends, or it leaves. */
  datatype Turn = Line(k: nat, line: string, answers: Answers) | Ends(k: nat) | Leaves(k: nat)

  /**
   * Where a client stands: whether it has left, with its last transfer unanswered or not, and how many lines it has
   * sent.
   */
  datatype Standing = Standing(gone: bool, cutOff: bool, lines: nat)

  const NEWCOMER := Standing(false, false, 0)

  /** The client is mirrored in its session of the protocol state, and all its lines are answered or owed an answer. */
  ghost predicate Placed(state: P.State, k: nat, own: Own, at: Standing, aborts: nat) {
    var w := World(own, state.locks, state.files);
    && Mirrors(state, k, if at.gone then P.Closed else P.Waiting, w, at.lines, aborts) && Resting(w)
    && (at.gone ==> own.thread.Idle?)
    && (!own.sendFailed ==>
          if at.gone then own.finals + (if at.cutOff then 1 else 0) == at.lines else Settled(own) == at.lines)
  }

  /** A client keeps its place while another one moves. */
  lemma PlaceKept(state: P.State, k: nat, now: P.State, j: nat, own: Own, at: Standing,
                  aborts: nat)
    requires Placed(state, j, own, at, aborts) && Advances(state, k, now) && j != k
    ensures Placed(now, j, own, at, aborts)
  {
    if own.thread.Starting? {
      var t :| Carries(state, t, j, own.params);
      assert Carries(now, t, j, own.params);
    }
  }

  ghost predicate AllPlaced(state: P.State, clients: seq<CommandThread>, at: seq<Standing>, aborts: seq<nat>)
    reads clients
  {
    && |state.sessions| == |clients| == |at| == |aborts|
    && forall k | 0 <= k < |clients| :: clients[k].Valid() && Placed(state, k, clients[k].Mine(), at[k], aborts[k])
  }

  /** One turn of one client; a client that has quit leaves, and one that is gone does nothing. */
  method TakeTurn(c: CommandThread, table: HandlerTable, locks: FileLocks, fs: T.FileSystem, dirs: set<Path>,
                  turn: Turn, at: Standing, ghost state: P.State, ghost k: nat, ghost aborts: nat)
    returns (at': Standing, ghost now: P.State, ghost aborts': nat)
    requires c.Valid() && table.Valid() && table.Registered() == Registrations(STANDARD) && locks.Valid()
    requires turn.Line? ==> |turn.answers.time| <= 14
    requires locks.locks == state.locks && fs.files == state.files && Placed(state, k, c.Mine(), at, aborts)
    modifies c, locks, locks.Entries(), fs
    ensures c.Valid() && locks.Valid() && fresh(locks.Entries() - old(locks.Entries()))
    ensures locks.locks == now.locks && fs.files == now.files && Placed(now, k, c.Mine(), at', aborts')
    ensures Advances(state, k, now) && (turn.Leaves? || at.gone ==> at'.gone)
  {
    hide FileLocks.Valid, HandlerTable.Valid, Registrations, Advances, KeepsHolding, DealsWith;
    at', now, aborts' := at, state, aborts;
    StaysPut(state, k);
    if at.gone { return; }
    if turn.Leaves? || c.shouldQuit {
      var cutOff;
      cutOff, now, aborts' := Destroy(c, locks, fs, state, k, at.lines, aborts);
      at' := Standing(true, cutOff, at.lines);
    } else if turn.Ends? {
      now, aborts' := FinishTransfer(c, locks, fs, state, k, at.lines, aborts);
    } else {
      var event;
      event, now, aborts' := ServeNext(c, table, locks, fs, dirs, turn.line, turn.answers, state, k, at.lines, aborts);
      at' := at.(lines := at.lines + 1);
    }
  }

  predicate Distinct(clients: seq<CommandThread>) {
    forall j, k | 0 <= j < k < |clients| :: clients[j] != clients[k]
  }

  /** A client takes its turn among the others. */
  method TakeTurnAmong(clients: seq<CommandThread>, table: HandlerTable, locks: FileLocks, fs: T.FileSystem,
                       dirs: set<Path>, turn: Turn, at: seq<Standing>, ghost state: P.State, ghost aborts: seq<nat>)
    returns (at': seq<Standing>, ghost now: P.State, ghost aborts': seq<nat>)
    requires Distinct(clients) && turn.k < |clients| && AllPlaced(state, clients, at, aborts)
    requires table.Valid() && table.Registered() == Registrations(STANDARD) && locks.Valid()
    requires turn.Line? ==> |turn.answers.time| <= 14
    requires locks.locks == state.locks && fs.files == state.files
    modifies clients, locks, locks.Entries(), fs
    ensures locks.Valid() && fresh(locks.Entries() - old(locks.Entries()))
    ensures locks.locks == now.locks && fs.files == now.files && AllPlaced(now, clients, at', aborts')
    ensures P.Leads(state, now) && (turn.Leaves? ==> at'[turn.k].gone)
    ensures forall j | 0 <= j < |at| && at[j].gone :: at'[j].gone
  {
    hide FileLocks.Valid, HandlerTable.Valid, Registrations, Placed, Advances;
    var k := turn.k;
    ghost var owns := seq(|clients|, i requires 0 <= i < |clients| reads clients => clients[i].Mine());
    var place;
    ghost var count;
    place, now, count := TakeTurn(clients[k], table, locks, fs, dirs, turn, at[k], state, k, aborts[k]);
    at', aborts' := at[k := place], aborts[k := count];
    AdvancesIs(state, k, now);
    forall j | 0 <= j < |clients|
      ensures clients[j].Valid() && Placed(now, j, clients[j].Mine(), at'[j], aborts'[j])
    {
      if j != k { PlaceKept(state, k, now, j, owns[j], at[j], aborts[j]); }
    }
  }

  lemma AdvancesIs(s: P.State, i: nat, u: P.State)
    requires Advances(s, i, u)
    ensures P.Leads(s, u) && |u.sessions| == |s.sessions|
  {
  }

  /** In a reachable state in which all sessions are closed and idle nobody holds a lock. */
  lemma AllGoneHoldsNothing(s: P.State)
    requires PT.Reachable(s)
    requires forall i | 0 <= i < |s.sessions| :: s.sessions[i].handler.Closed? && s.sessions[i].threadState.Idle?
    ensures s.locks == map[]
  {
    PT.ReachableInv(s);
    assert s.threads.Keys == {};
    PT.QuietServerHoldsNothing(s);
  }

  lemma AllGone(state: P.State, clients: seq<CommandThread>, at: seq<Standing>, aborts: seq<nat>)
    requires AllPlaced(state, clients, at, aborts) && PT.Reachable(state)
    requires forall k | 0 <= k < |clients| :: at[k].gone
    ensures state.locks == map[]
    ensures forall k | 0 <= k < |clients| ::
              clients[k].threadState.Idle?
              && (!clients[k].sendFailed ==> clients[k].finals + (if at[k].cutOff then 1 else 0) == at[k].lines)
  {
    forall k | 0 <= k < |state.sessions|
      ensures state.sessions[k].handler.Closed? && state.sessions[k].threadState.Idle?
    {
      assert Placed(state, k, clients[k].Mine(), at[k], aborts[k]);
    }
    AllGoneHoldsNothing(state);
  }

  /** The clients of a fresh server are mirrored in a fresh protocol state. */
  lemma AllFresh(state: P.State, clients: seq<CommandThread>)
    requires P.Init(state) && |state.sessions| == |clients|
    requires forall k | 0 <= k < |clients| ::
               clients[k].Valid() && clients[k].Mine() == Own(P.Idle, None, false, false, 0, false)
    ensures AllPlaced(state, clients, seq(|clients|, _ => NEWCOMER), seq(|clients|, _ => 0))
    ensures PT.Reachable(state)
  {
    assert P.Run(state, [], state);
  }

  /**
   * The whole life of a server: its clients take turns in any order, and in the end all leave. It is a run of the
   * protocol from its first state; every client has been answered once for every line it sent, but for a last transfer
   * whose connection was closed under it; and no lock is left behind.
   */
  method ServeAll(clients: seq<CommandThread>, table: HandlerTable, locks: FileLocks, fs: T.FileSystem, dirs: set<Path>,
                  turns: seq<Turn>, ghost state: P.State)
    returns (at: seq<Standing>, ghost now: P.State, ghost aborts: seq<nat>)
    requires Distinct(clients) && table.Valid() && table.Registered() == Registrations(STANDARD)
    requires forall k | 0 <= k < |clients| ::
               clients[k].Valid() && clients[k].Mine() == Own(P.Idle, None, false, false, 0, false)
    requires forall turn | turn in turns :: turn.k < |clients| && (turn.Line? ==> |turn.answers.time| <= 14)
    requires P.Init(state) && |state.sessions| == |clients|
    requires locks.Valid() && locks.locks == map[] && fs.files == state.files
    modifies clients, locks, locks.Entries(), fs
    ensures P.Leads(state, now) && AllPlaced(now, clients, at, aborts) && fs.files == now.files
    ensures locks.Valid() && locks.locks == map[]
    ensures forall k | 0 <= k < |clients| ::
              clients[k].threadState.Idle?
              && (!clients[k].sendFailed ==> clients[k].finals + (if at[k].cutOff then 1 else 0) == at[k].lines)
  {
    hide FileLocks.Valid, HandlerTable.Valid, Registrations, Placed, P.Leads, PT.Reachable;
    AllFresh(state, clients);
    at, now := seq(|clients|, _ => NEWCOMER), state;
    aborts := seq(|clients|, _ => 0);
    StaysPut(state, 0);
    ghost var next;
    for i := 0 to |turns|
      invariant locks.Valid() && fresh(locks.Entries() - old(locks.Entries()))
      invariant locks.locks == now.locks && fs.files == now.files && AllPlaced(now, clients, at, aborts)
      invariant P.Leads(state, now)
    {
      at, next, aborts := TakeTurnAmong(clients, table, locks, fs, dirs, turns[i], at, now, aborts);
      P.LeadsOn(state, now, next);
      now := next;
    }
    for k := 0 to |clients|
      invariant locks.Valid() && fresh(locks.Entries() - old(locks.Entries()))
      invariant locks.locks == now.locks && fs.files == now.files && AllPlaced(now, clients, at, aborts)
      invariant P.Leads(state, now) && forall j | 0 <= j < k :: at[j].gone
    {
      at, next, aborts := TakeTurnAmong(clients, table, locks, fs, dirs, Leaves(k), at, now, aborts);
      P.LeadsOn(state, now, next);
      now := next;
    }
    PT.ReachableOn(state, now);
    AllGone(now, clients, at, aborts);
  }
}
