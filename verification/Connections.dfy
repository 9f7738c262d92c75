/**
 * Counting client connections (server/src/server.c). The accept loop and every client thread go their ways one step at
 * a time; a connection can end in four places, each of which first tears it down and then lowers the counter in a step
 * of its own.
 */
module Connections {

  /** Where the accept loop is with the connection it has just counted in. */
  datatype Acceptor =
    | Accepting
    | Counted(c: nat)
    | SessionFailed(c: nat)
    | SocketClosed(c: nat)
    | HasSession(c: nat)
    | ThreadFailed(c: nat)
    | SessionDestroyed(c: nat)
    | Discarded(c: nat)

  /** Where a client thread is. */
  datatype Client = Greeting | NotGreeted | UngreetedDestroyed | InLoop | LoopEnded | Destroyed | CountedOut

  /** `gone` are the connections whose thread has returned or whose turn of the accept loop is over. */
  datatype State = State(current: int, acceptor: Acceptor, clients: map<nat, Client>, gone: set<nat>)

  datatype Step =
    // the accept loop
    | Count(c: nat)
    | Refuse
    | CreateSession
    | FailSession
    | CloseSocket
    | CountOutSocket
    | StartThread
    | FailThread
    | DestroySession
    | CountOutSession
    | AcceptAgain
    // the thread of client c
    | Greet(c: nat)
    | FailGreeting(c: nat)
    | DestroyUngreeted(c: nat)
    | CountOutUngreeted(c: nat)
    | EndLoop(c: nat)
    | DestroyServed(c: nat)
    | CountOutServed(c: nat)
    | Return(c: nat)

  const START := State(0, Accepting, map[], {})

  predicate Used(s: State, c: nat) {
    (!s.acceptor.Accepting? && s.acceptor.c == c) || c in s.clients || c in s.gone
  }

  predicate Busy(maxConnections: int, s: State) { maxConnections > 0 && s.current >= maxConnections }

  predicate IsAt(s: State, c: nat, stage: Client) { c in s.clients && s.clients[c] == stage }

  /** The limit is tested and the counter raised in one critical section; a limit of zero or less means none. */
  predicate Enabled(maxConnections: int, s: State, step: Step) {
    match step
    case Count(c) => s.acceptor.Accepting? && !Used(s, c) && !Busy(maxConnections, s)
    case Refuse => s.acceptor.Accepting? && Busy(maxConnections, s)
    case CreateSession => s.acceptor.Counted?
    case FailSession => s.acceptor.Counted?
    case CloseSocket => s.acceptor.SessionFailed?
    case CountOutSocket => s.acceptor.SocketClosed?
    case StartThread => s.acceptor.HasSession?
    case FailThread => s.acceptor.HasSession?
    case DestroySession => s.acceptor.ThreadFailed?
    case CountOutSession => s.acceptor.SessionDestroyed?
    case AcceptAgain => s.acceptor.Discarded?
    case Greet(c) => IsAt(s, c, Greeting)
    case FailGreeting(c) => IsAt(s, c, Greeting)
    case DestroyUngreeted(c) => IsAt(s, c, NotGreeted)
    case CountOutUngreeted(c) => IsAt(s, c, UngreetedDestroyed)
    case EndLoop(c) => IsAt(s, c, InLoop)
    case DestroyServed(c) => IsAt(s, c, LoopEnded)
    case CountOutServed(c) => IsAt(s, c, Destroyed)
    case Return(c) => IsAt(s, c, CountedOut)
  }

  function Next(maxConnections: int, s: State, step: Step): State
    requires Enabled(maxConnections, s, step)
  {
    match step
    case Count(c) => s.(acceptor := Counted(c), current := s.current + 1)
    case Refuse => s
    case CreateSession => s.(acceptor := HasSession(s.acceptor.c))
    case FailSession => s.(acceptor := SessionFailed(s.acceptor.c))
    case CloseSocket => s.(acceptor := SocketClosed(s.acceptor.c))
    case CountOutSocket => s.(acceptor := Discarded(s.acceptor.c), current := s.current - 1)
    case StartThread => s.(acceptor := Accepting, clients := s.clients[s.acceptor.c := Greeting])
    case FailThread => s.(acceptor := ThreadFailed(s.acceptor.c))
    case DestroySession => s.(acceptor := SessionDestroyed(s.acceptor.c))
    case CountOutSession => s.(acceptor := Discarded(s.acceptor.c), current := s.current - 1)
    case AcceptAgain => s.(acceptor := Accepting, gone := s.gone + {s.acceptor.c})
    case Greet(c) => s.(clients := s.clients[c := InLoop])
    case FailGreeting(c) => s.(clients := s.clients[c := NotGreeted])
    case DestroyUngreeted(c) => s.(clients := s.clients[c := UngreetedDestroyed])
    case CountOutUngreeted(c) => s.(clients := s.clients[c := CountedOut], current := s.current - 1)
    case EndLoop(c) => s.(clients := s.clients[c := LoopEnded])
    case DestroyServed(c) => s.(clients := s.clients[c := Destroyed])
    case CountOutServed(c) => s.(clients := s.clients[c := CountedOut], current := s.current - 1)
    case Return(c) => s.(clients := s.clients - {c}, gone := s.gone + {c})
  }

  ghost predicate Run(maxConnections: int, s: State, steps: seq<Step>, t: State)
    decreases |steps|
  {
    if steps == [] then s == t
    else Enabled(maxConnections, s, steps[0]) && Run(maxConnections, Next(maxConnections, s, steps[0]), steps[1..], t)
  }

  // ----- what has been counted -----

  /** The connection a step counts in, or out. */
  function CountsIn(step: Step): set<nat> { if step.Count? then {step.c} else {} }

  function CountsOut(s: State, step: Step): set<nat> {
    match step
    case CountOutSocket => if s.acceptor.Accepting? then {} else {s.acceptor.c}
    case CountOutSession => if s.acceptor.Accepting? then {} else {s.acceptor.c}
    case CountOutUngreeted(c) => {c}
    case CountOutServed(c) => {c}
    case _ => {}
  }

  /** How often a run counts a connection in, and out. */
  ghost function Ups(maxConnections: int, s: State, steps: seq<Step>, c: nat): nat
    decreases |steps|
  {
    if steps == [] || !Enabled(maxConnections, s, steps[0]) then 0
    else (if c in CountsIn(steps[0]) then 1 else 0)
         + Ups(maxConnections, Next(maxConnections, s, steps[0]), steps[1..], c)
  }

  ghost function Downs(maxConnections: int, s: State, steps: seq<Step>, c: nat): nat
    decreases |steps|
  {
    if steps == [] || !Enabled(maxConnections, s, steps[0]) then 0
    else (if c in CountsOut(s, steps[0]) then 1 else 0)
         + Downs(maxConnections, Next(maxConnections, s, steps[0]), steps[1..], c)
  }

  /** The connections that have been counted in and not yet out. */
  function Open(s: State): set<nat> {
    (if s.acceptor.Accepting? || s.acceptor.Discarded? then {} else {s.acceptor.c})
    + (set c | c in s.clients && !s.clients[c].CountedOut?)
  }

  /** A connection is in one place only, and the counter counts those that are open. */
  ghost predicate Inv(maxConnections: int, s: State) {
    && (!s.acceptor.Accepting? ==> s.acceptor.c !in s.clients && s.acceptor.c !in s.gone)
    && s.clients.Keys !! s.gone
    && s.current == |Open(s)|
    && (maxConnections > 0 ==> s.current <= maxConnections)
  }

  predicate IsOpen(s: State, c: nat) {
    if !s.acceptor.Accepting? && s.acceptor.c == c then !s.acceptor.Discarded?
    else c in s.clients && !s.clients[c].CountedOut?
  }

  lemma OpenAre(s: State, c: nat)
    requires !s.acceptor.Accepting? ==> s.acceptor.c !in s.clients
    ensures c in Open(s) <==> IsOpen(s, c)
  {
  }

  predicate OfAcceptor(step: Step) {
    step.Count? || step.Refuse? || step.CreateSession? || step.FailSession? || step.CloseSocket? || step.CountOutSocket?
    || step.StartThread? || step.FailThread? || step.DestroySession? || step.CountOutSession? || step.AcceptAgain?
  }

  lemma AcceptorMoves(maxConnections: int, s: State, step: Step, c: nat)
    requires Inv(maxConnections, s) && Enabled(maxConnections, s, step) && OfAcceptor(step)
    ensures IsOpen(Next(maxConnections, s, step), c) <==>
              (IsOpen(s, c) || c in CountsIn(step)) && c !in CountsOut(s, step)
    ensures (c in CountsIn(step) ==> !IsOpen(s, c)) && (c in CountsOut(s, step) ==> IsOpen(s, c))
  {
  }

  lemma ClientMoves(maxConnections: int, s: State, step: Step, c: nat)
    requires Inv(maxConnections, s) && Enabled(maxConnections, s, step) && !OfAcceptor(step)
    ensures IsOpen(Next(maxConnections, s, step), c) <==>
              (IsOpen(s, c) || c in CountsIn(step)) && c !in CountsOut(s, step)
    ensures (c in CountsIn(step) ==> !IsOpen(s, c)) && (c in CountsOut(s, step) ==> IsOpen(s, c))
  {
  }

  /** Each connection stays in one place. */
  lemma PlacesKept(maxConnections: int, s: State, step: Step)
    requires Inv(maxConnections, s) && Enabled(maxConnections, s, step)
    ensures var t := Next(maxConnections, s, step);
      && (!t.acceptor.Accepting? ==> t.acceptor.c !in t.clients && t.acceptor.c !in t.gone) && t.clients.Keys !! t.gone
      && t.current == s.current + |CountsIn(step)| - |CountsOut(s, step)|
  {
  }

  lemma OpenMovesAt(maxConnections: int, s: State, step: Step, c: nat)
    requires Inv(maxConnections, s) && Enabled(maxConnections, s, step)
    ensures c in Open(Next(maxConnections, s, step)) <==>
              (c in Open(s) || c in CountsIn(step)) && c !in CountsOut(s, step)
    ensures (c in CountsIn(step) ==> c !in Open(s)) && (c in CountsOut(s, step) ==> c in Open(s))
  {
    PlacesKept(maxConnections, s, step);
    OpenAre(s, c);
    OpenAre(Next(maxConnections, s, step), c);
    hide Open, IsOpen, Next, CountsOut, CountsIn;
    if OfAcceptor(step) { AcceptorMoves(maxConnections, s, step, c); } else { ClientMoves(maxConnections, s, step, c); }
  }

  lemma OpenMoves(maxConnections: int, s: State, step: Step)
    requires Inv(maxConnections, s) && Enabled(maxConnections, s, step)
    ensures Open(Next(maxConnections, s, step)) == Open(s) + CountsIn(step) - CountsOut(s, step)
    ensures CountsIn(step) !! Open(s) && CountsOut(s, step) <= Open(s)
  {
    hide Open, Next, CountsOut, CountsIn, Inv, Enabled;
    forall c: nat
      ensures c in Open(Next(maxConnections, s, step)) <==>
                (c in Open(s) || c in CountsIn(step)) && c !in CountsOut(s, step)
      ensures (c in CountsIn(step) ==> c !in Open(s)) && (c in CountsOut(s, step) ==> c in Open(s))
    {
      OpenMovesAt(maxConnections, s, step, c);
    }
  }

  lemma InvKept(maxConnections: int, s: State, step: Step)
    requires Inv(maxConnections, s) && Enabled(maxConnections, s, step)
    ensures Inv(maxConnections, Next(maxConnections, s, step))
  {
    OpenMoves(maxConnections, s, step);
    PlacesKept(maxConnections, s, step);
    hide Open, CountsOut;
    SizeMoves(Open(s), CountsIn(step), CountsOut(s, step));
  }

  lemma SizeMoves(open: set<nat>, up: set<nat>, down: set<nat>)
    requires up !! open && down <= open
    ensures |open + up - down| == |open| + |up| - |down|
  {
    assert open + up == (open + up - down) + down;
    assert |open + up| == |open| + |up|;
  }

  /** Used connections stay used, and a step makes one used only by counting it in. */
  lemma UsedMoves(maxConnections: int, s: State, step: Step, c: nat)
    requires Inv(maxConnections, s) && Enabled(maxConnections, s, step)
    ensures var t := Next(maxConnections, s, step);
      && (Used(t, c) <==> Used(s, c) || c in CountsIn(step)) && (c in CountsIn(step) ==> !Used(s, c))
      && (c in Open(s) ==> Used(s, c))
      && (c in s.gone ==> c in t.gone && c !in Open(s))
  {
  }

  /**
   * Over a run each connection is counted in when it comes up and counted out when it stops being open, and not else.
   */
  lemma {:induction false} CountedOverRun(maxConnections: int, s: State, steps: seq<Step>, t: State, c: nat)
    requires Inv(maxConnections, s) && Run(maxConnections, s, steps, t)
    ensures Inv(maxConnections, t)
    ensures Ups(maxConnections, s, steps, c) + (if Used(s, c) then 1 else 0) == (if Used(t, c) then 1 else 0)
    ensures Downs(maxConnections, s, steps, c) + (if Used(s, c) && c !in Open(s) then 1 else 0)
            == (if Used(t, c) && c !in Open(t) then 1 else 0)
    decreases |steps|
  {
    if steps != [] {
      InvKept(maxConnections, s, steps[0]);
      OpenMoves(maxConnections, s, steps[0]);
      UsedMoves(maxConnections, s, steps[0], c);
      CountedOverRun(maxConnections, Next(maxConnections, s, steps[0]), steps[1..], t, c);
    }
  }

  /** A connection is counted in at most once, out at most as often, and exactly once each when its thread has gone. */
  lemma CountedOnce(maxConnections: int, steps: seq<Step>, t: State, c: nat)
    requires Run(maxConnections, START, steps, t)
    ensures Downs(maxConnections, START, steps, c) <= Ups(maxConnections, START, steps, c) <= 1
    ensures c in Open(t) <==> Downs(maxConnections, START, steps, c) < Ups(maxConnections, START, steps, c)
    ensures c in t.gone ==> Ups(maxConnections, START, steps, c) == 1 == Downs(maxConnections, START, steps, c)
  {
    CountedOverRun(maxConnections, START, steps, t, c);
  }

  /** How often a run raises the counter, and lowers it. */
  ghost function AllUps(maxConnections: int, s: State, steps: seq<Step>): nat
    decreases |steps|
  {
    if steps == [] || !Enabled(maxConnections, s, steps[0]) then 0
    else |CountsIn(steps[0])| + AllUps(maxConnections, Next(maxConnections, s, steps[0]), steps[1..])
  }

  ghost function AllDowns(maxConnections: int, s: State, steps: seq<Step>): nat
    decreases |steps|
  {
    if steps == [] || !Enabled(maxConnections, s, steps[0]) then 0
    else |CountsOut(s, steps[0])| + AllDowns(maxConnections, Next(maxConnections, s, steps[0]), steps[1..])
  }

  lemma {:induction false} CurrentOverRun(maxConnections: int, s: State, steps: seq<Step>, t: State)
    requires Inv(maxConnections, s) && Run(maxConnections, s, steps, t)
    ensures Inv(maxConnections, t)
    ensures t.current == s.current + AllUps(maxConnections, s, steps) - AllDowns(maxConnections, s, steps)
    decreases |steps|
  {
    if steps != [] {
      InvKept(maxConnections, s, steps[0]);
      PlacesKept(maxConnections, s, steps[0]);
      CurrentOverRun(maxConnections, Next(maxConnections, s, steps[0]), steps[1..], t);
    }
  }

  /**
   * Over all interleavings the counter is the number of times it was raised less the times it was lowered, which is the
   * number of connections open; a positive limit holds, and a client is refused exactly when that many are open.
   */
  lemma CountIsExact(maxConnections: int, steps: seq<Step>, t: State)
    requires Run(maxConnections, START, steps, t)
    ensures t.current == AllUps(maxConnections, START, steps) - AllDowns(maxConnections, START, steps) == |Open(t)|
    ensures maxConnections > 0 ==> t.current <= maxConnections
    ensures Enabled(maxConnections, t, Refuse) <==>
              t.acceptor.Accepting? && maxConnections > 0 && |Open(t)| == maxConnections
    ensures t.acceptor.Accepting? && t.clients == map[] ==> t.current == 0
  {
    assert Open(START) == {};
    CurrentOverRun(maxConnections, START, steps, t);
    assert t.acceptor.Accepting? && t.clients == map[] ==> Open(t) == {};
  }
}
