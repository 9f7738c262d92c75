/**
 * The data sockets of a session (server/src/session.c): the command thread opens them, and the transfer thread may
 * close them whenever the session lock is free. Sockets are numbered in the order in which they are made.
 */
module DataSockets {

  const INVALID_SOCKET := -1

  datatype DataMode = NO_MODE | ACTIVE | PASSIVE

  /** Every socket made is one of the two held or has been closed, never both, and none is closed twice. */
  ghost predicate Conserved(made: nat, data: int, listen: int, closed: seq<int>) {
    && (forall s :: 0 <= s < made <==> (s != INVALID_SOCKET && (s == data || s == listen)) || s in closed)
    && (data != INVALID_SOCKET ==> data != listen && data !in closed)
    && (listen != INVALID_SOCKET ==> listen !in closed)
    && (forall i, j | 0 <= i < j < |closed| :: closed[i] != closed[j])
  }

  lemma DataClosed(made: nat, data: int, listen: int, closed: seq<int>)
    requires Conserved(made, data, listen, closed) && data != INVALID_SOCKET
    ensures Conserved(made, INVALID_SOCKET, listen, closed + [data])
  {
    assert forall s :: s in closed + [data] <==> s in closed || s == data;
  }

  lemma ListenClosed(made: nat, data: int, listen: int, closed: seq<int>)
    requires Conserved(made, data, listen, closed) && listen != INVALID_SOCKET
    ensures Conserved(made, data, INVALID_SOCKET, closed + [listen])
  {
    assert forall s :: s in closed + [listen] <==> s in closed || s == listen;
  }

  class DataConnection {
    var mode: DataMode
    var dataSocket: int
    var listenSocket: int
    var shouldQuit: bool
    var made: nat
    ghost var closed: seq<int>

    ghost function Held(): set<int>
      reads this
    {
      {dataSocket, listenSocket} - {INVALID_SOCKET}
    }

    /**
     * What holds whenever the lock is free: at most one socket is open, a listening one only in passive mode, and none
     * without a mode.
     */
    ghost predicate Valid()
      reads this
    {
      && Conserved(made, dataSocket, listenSocket, closed)
      && (dataSocket == INVALID_SOCKET || listenSocket == INVALID_SOCKET)
      && (listenSocket != INVALID_SOCKET ==> mode.PASSIVE?)
      && (mode.NO_MODE? ==> dataSocket == INVALID_SOCKET)
    }

    constructor ()
      ensures Valid() && made == 0 && mode.NO_MODE? && !shouldQuit
    {
      mode, dataSocket, listenSocket, shouldQuit, made, closed := NO_MODE, INVALID_SOCKET, INVALID_SOCKET, false, 0, [];
    }

    // ----- with the lock held -----

    /** The result of connect, accept or listen: a new socket, or none. */
    method NewSocket() returns (s: int)
      modifies this`made
      ensures (s == INVALID_SOCKET && made == old(made)) || (s == old(made) && made == old(made) + 1)
    {
      var succeeds: bool := *;
      if !succeeds { return INVALID_SOCKET; }
      s, made := made, made + 1;
    }

    /** Closes whichever socket is open. */
    method CloseOpen()
      requires Conserved(made, dataSocket, listenSocket, closed)
      modifies this`dataSocket, this`listenSocket, this`closed
      ensures Conserved(made, dataSocket, listenSocket, closed) && dataSocket == INVALID_SOCKET
              && listenSocket == INVALID_SOCKET
    {
      if dataSocket != INVALID_SOCKET {
        DataClosed(made, dataSocket, listenSocket, closed);
        closed := closed + [dataSocket];
        dataSocket := INVALID_SOCKET;
      }
      if listenSocket != INVALID_SOCKET {
        ListenClosed(made, dataSocket, listenSocket, closed);
        closed := closed + [listenSocket];
        listenSocket := INVALID_SOCKET;
      }
    }

    // ----- the transfer thread's moment -----

    /** The lock is released and taken again; meanwhile the transfer thread may have closed the data connection. */
    method Unlocked()
      requires Valid()
      modifies this
      ensures Valid() && made == old(made)
      ensures (mode == old(mode) && dataSocket == old(dataSocket) && listenSocket == old(listenSocket)
               && closed == old(closed))
              || (mode.NO_MODE? && dataSocket == INVALID_SOCKET && listenSocket == INVALID_SOCKET)
    {
      var closes: bool := *;
      if closes { CloseDataConnection(); }
      shouldQuit := *;
    }

    // ----- the operations -----

    method CloseDataConnection()
      requires Valid()
      modifies this`dataSocket, this`listenSocket, this`closed, this`mode
      ensures Valid() && mode.NO_MODE? && Held() == {}
    {
      CloseOpen();
      mode := NO_MODE;
    }

    method SetPort()
      requires Valid()
      modifies this
      ensures Valid() && mode.ACTIVE? && Held() == {} && made == old(made)
    {
      CloseOpen();
      mode := ACTIVE;
    }

    method SetPasv() returns (ok: bool)
      requires Valid()
      modifies this
      ensures Valid() && dataSocket == INVALID_SOCKET
      ensures ok ==> mode.PASSIVE? && listenSocket == old(made) && made == old(made) + 1
      ensures !ok ==> mode == old(mode) && Held() == {} && made == old(made)
    {
      CloseOpen();
      listenSocket := NewSocket();
      if listenSocket == INVALID_SOCKET { return false; }
      mode := PASSIVE;
      return true;
    }

    /** Opens the data connection, in passive mode waiting for the client without the lock. */
    method OpenDataConnection() returns (ok: bool)
      requires Valid()
      modifies this
      ensures Valid()
      ensures ok ==> dataSocket != INVALID_SOCKET && listenSocket == INVALID_SOCKET
      ensures !ok ==> dataSocket == INVALID_SOCKET && made == old(made)
      ensures made <= old(made) + 1
    {
      if dataSocket != INVALID_SOCKET { return true; }
      if mode.ACTIVE? {
        ok := Connect();
      } else if mode.PASSIVE? {
        if listenSocket == INVALID_SOCKET { return false; }
        ok := AwaitAndAccept();
      } else {
        return false;
      }
    }

    method Connect() returns (ok: bool)
      requires Valid() && mode.ACTIVE? && dataSocket == INVALID_SOCKET
      modifies this`dataSocket, this`made
      ensures Valid() && ok == (dataSocket != INVALID_SOCKET)
      ensures ok ==> made == old(made) + 1
      ensures !ok ==> made == old(made)
    {
      dataSocket := NewSocket();
      ok := dataSocket != INVALID_SOCKET;
    }

    /**
     * Waits for a connection and accepts it, trying up to three times, each time on condition that the listening socket
     * is the same.
     */
    method AwaitAndAccept() returns (ok: bool)
      requires Valid() && mode.PASSIVE? && listenSocket != INVALID_SOCKET
      modifies this
      ensures Valid() && ok == (dataSocket != INVALID_SOCKET)
      ensures ok ==> listenSocket == INVALID_SOCKET && made == old(made) + 1 && old(listenSocket) in closed
      ensures !ok ==> made == old(made)
    {
      var listenSock := listenSocket;
      var ready: int :| -1 <= ready <= 1;
      Unlocked();
      if ready <= 0 { return false; }
      if listenSocket != listenSock { return false; }
      if shouldQuit { return false; }
      var acceptRetries := 3;
      while acceptRetries > 0
        invariant Valid() && made == old(made) && acceptRetries <= 3
        invariant listenSocket == listenSock && dataSocket == INVALID_SOCKET && mode.PASSIVE?
        decreases acceptRetries
      {
        ok := Accept();
        if ok { return true; }
        var wouldBlock: bool := *;
        if wouldBlock && acceptRetries > 1 {
          Unlocked();
          if shouldQuit || listenSocket != listenSock { return false; }
          acceptRetries := acceptRetries - 1;
          continue;
        }
        return false;
      }
      return false;
    }

    /** One accept; success closes the listening socket before the lock is released. */
    method Accept() returns (ok: bool)
      requires Valid() && listenSocket != INVALID_SOCKET
      modifies this`dataSocket, this`listenSocket, this`made, this`closed
      ensures Valid() && mode == old(mode)
      ensures ok ==>
                dataSocket == old(made) && made == old(made) + 1 && listenSocket == INVALID_SOCKET
                && closed == old(closed) + [old(listenSocket)]
      ensures !ok ==> dataSocket == INVALID_SOCKET && made == old(made) && listenSocket == old(listenSocket)
    {
      dataSocket := NewSocket();
      if dataSocket == INVALID_SOCKET { return false; }
      ListenClosed(made, dataSocket, listenSocket, closed);
      closed := closed + [listenSocket];
      listenSocket := INVALID_SOCKET;
      return true;
    }

    /** REIN: the data connection is closed, and the fields are reset in a second critical section. */
    method Reinitialize()
      requires Valid()
      modifies this
      ensures Valid() && mode.NO_MODE? && Held() == {} && made == old(made)
    {
      CloseDataConnection();
      Unlocked();
      mode, dataSocket, listenSocket := NO_MODE, INVALID_SOCKET, INVALID_SOCKET;
    }
  }

  datatype DataCommand = Port | Pasv | Open | CloseIt | Reinit

  /**
   * A whole session: commands in any order, the transfer thread closing between them, and the final clean-up close
   * every socket made exactly once.
   */
  method WholeSession(commands: seq<DataCommand>) returns (c: DataConnection)
    ensures fresh(c) && c.Valid() && c.Held() == {} && c.mode.NO_MODE?
    ensures |c.closed| == c.made && forall s :: 0 <= s < c.made <==> s in c.closed
    ensures forall i, j | 0 <= i < j < |c.closed| :: c.closed[i] != c.closed[j]
  {
    c := new DataConnection();
    for i := 0 to |commands|
      invariant c.Valid() && fresh(c)
    {
      var ok;
      match commands[i] {
        case Port => c.SetPort();
        case Pasv => ok := c.SetPasv();
        case Open => ok := c.OpenDataConnection();
        case CloseIt => c.CloseDataConnection();
        case Reinit => c.Reinitialize();
      }
      c.Unlocked();
    }
    c.shouldQuit := true;
    c.CloseDataConnection();
    DistinctFill(c.closed, c.made);
  }

  lemma HeadIsIn(s: seq<int>)
    ensures s == [] || s[0] in s
  {
  }

  /** A list without repetitions that contains exactly the numbers below n has n entries. */
  lemma {:induction false} DistinctFill(s: seq<int>, n: nat)
    requires forall i, j | 0 <= i < j < |s| :: s[i] != s[j]
    requires forall k :: 0 <= k < n <==> k in s
    ensures |s| == n
    decreases n
  {
    if n > 0 {
      assert n - 1 in s;
      var i :| 0 <= i < |s| && s[i] == n - 1;
      var rest := s[..i] + s[i + 1..];
      forall k | k in rest ensures 0 <= k < n - 1 {
        var j :| 0 <= j < |rest| && rest[j] == k;
        assert k == s[if j < i then j else j + 1];
        assert k in s;
      }
      forall k | 0 <= k < n - 1 ensures k in rest {
        assert k in s;
        var j :| 0 <= j < |s| && s[j] == k;
        assert rest[if j < i then j else j - 1] == k;
      }
      DistinctFill(rest, n - 1);
    } else {
      HeadIsIn(s);
    }
  }
}
