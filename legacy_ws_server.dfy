/** The older WebSocket server variant: the same welcome, pong and heartbeat logic as the
    backend server and one broadcast to every open client, without subscriptions. */
module LegacyWsServer {
  import opened Common
  import opened Transport
  import opened Liveness

  /** The invariant over the state values: the clients are distinct sockets that have not
      closed, each with a ready-state and a liveness mark; every other socket seen is CLOSED. */
  ghost predicate Inv(st: Sockets) {
    && NoDup(st.clients)
    && (forall s :: s in st.clients ==> s in st.readyState && st.readyState[s] != Closed && s in st.alive)
    && (forall s :: s in st.readyState && s !in st.clients ==> st.readyState[s] == Closed)
  }

  /** A fresh socket joins the clients. */
  lemma InvConnect(st: Sockets, s: SocketId, e: seq<Effect>)
    requires Inv(st) && s !in st.readyState
    ensures Inv(Sockets(st.clients + [s], st.readyState[s := Open], st.alive[s := true], e))
  {
    assert s !in st.clients;
    var c := st.clients + [s];
    forall i, j | 0 <= i < j < |c| ensures c[i] != c[j] {
      if j == |st.clients| {
        assert c[i] == st.clients[i];
      } else {
        assert c[i] == st.clients[i] && c[j] == st.clients[j];
      }
    }
  }

  /** A closed socket leaves the clients. */
  lemma InvClose(st: Sockets, s: SocketId, e: seq<Effect>)
    requires Inv(st) && s in st.clients
    ensures Inv(Sockets(Remove(st.clients, s), st.readyState[s := Closed], st.alive, e))
  {
  }

  class Server {
    /** `wss.clients`: the connected sockets, in connection order. */
    var clients: seq<SocketId>
    /** The ready-state of every socket the server has seen. */
    var readyState: map<SocketId, ReadyState>
    /** The `alive` WeakMap. */
    var alive: map<SocketId, bool>
    /** Everything sent, pinged and terminated so far, in order. */
    var effects: seq<Effect>

    ghost function State(): Sockets
      reads this
    {
      Sockets(clients, readyState, alive, effects)
    }

    ghost predicate Valid()
      reads this
    {
      Inv(State())
    }

    constructor ()
      ensures Valid()
      ensures clients == [] && readyState == map[] && alive == map[] && effects == []
    {
      clients, readyState, alive, effects := [], map[], map[], [];
    }

    /** `sendJson(socket, payload)`: nothing is sent to a socket that is not OPEN. */
    method SendJson(s: SocketId, p: Outbound)
      requires s in readyState
      modifies this`effects
      ensures effects == old(effects) + SendToOpen([s], readyState, p)
      ensures readyState[s] != Open ==> effects == old(effects)
      ensures readyState[s] == Open ==> effects == old(effects) + [Send(s, p)]
    {
      if readyState[s] != Open {
        return;
      }
      effects := effects + [Send(s, p)];
    }

    /** `broadcast(wss, payload)`: one serialised payload to every OPEN client. */
    method Broadcast(p: Outbound)
      requires Valid()
      modifies this`effects
      ensures effects == old(effects) + SendToOpen(clients, readyState, p)
    {
      for i := 0 to |clients|
        invariant effects == old(effects) + SendToOpen(clients[..i], readyState, p)
      {
        SendToOpenAppend(clients[..i], clients[i], readyState, p);
        assert clients[..i + 1] == clients[..i] + [clients[i]];
        if readyState[clients[i]] == Open {
          effects := effects + [Send(clients[i], p)];
        }
      }
      assert clients[..|clients|] == clients;
    }

    /** `broadcastMatchCreated(match)`. */
    method BroadcastMatchCreated(created: Match)
      requires Valid()
      modifies this`effects
      ensures effects == old(effects) + SendToOpen(clients, readyState, MatchCreated(created))
    {
      Broadcast(MatchCreated(created));
    }

    /** The `connection` handler: the new OPEN socket is marked alive and sent the welcome
        frame. */
    method Connect(s: SocketId)
      requires Valid() && s !in readyState
      modifies this
      ensures Valid()
      ensures clients == old(clients) + [s]
      ensures readyState == old(readyState)[s := Open] && alive == old(alive)[s := true]
      ensures effects == old(effects) + [Send(s, Welcome)]
    {
      InvConnect(State(), s, effects + [Send(s, Welcome)]);
      clients := clients + [s];
      readyState := readyState[s := Open];
      alive := alive[s := true];
      SendJson(s, Welcome);
    }

    /** The `pong` handler. */
    method Pong(s: SocketId)
      requires Valid() && s in clients
      modifies this`alive
      ensures Valid()
      ensures alive == old(alive)[s := true]
    {
      alive := alive[s := true];
    }

    /** The transport starting a closing handshake on a connected socket. */
    method StartClosing(s: SocketId)
      requires Valid() && s in clients
      modifies this`readyState
      ensures Valid()
      ensures readyState == old(readyState)[s := Closing]
    {
      readyState := readyState[s := Closing];
    }

    /** A socket's close: the `ws` library drops it from `wss.clients`. */
    method Close(s: SocketId)
      requires Valid() && s in clients
      modifies this
      ensures Valid()
      ensures clients == Remove(old(clients), s) && readyState == old(readyState)[s := Closed]
      ensures alive == old(alive) && effects == old(effects)
    {
      InvClose(State(), s, effects);
      clients := Remove(clients, s);
      readyState := readyState[s := Closed];
    }

    /** `socket.terminate()` together with the `close` event that follows it, as one step. */
    method TerminateSocket(s: SocketId)
      requires Valid() && s in clients
      modifies this
      ensures Valid()
      ensures clients == Remove(old(clients), s) && readyState == old(readyState)[s := Closed]
      ensures alive == old(alive) && effects == old(effects) + [Effect.Terminate(s)]
    {
      effects := effects + [Effect.Terminate(s)];
      Close(s);
    }

    /** The heartbeat's visit of one connected socket. */
    method Visit(s: SocketId)
      requires Valid() && s in clients
      modifies this
      ensures Valid()
      ensures s in old(readyState) && s in old(alive) && Beaten(old(State()), s, State())
    {
      if readyState[s] != Open {
        return;
      }
      if alive[s] == false {
        TerminateSocket(s);
        return;
      }
      alive := alive[s := false];
      effects := effects + [Ping(s)];
    }

    /** One iteration of the heartbeat loop: visit `cs[i]`. */
    method Advance(cs: seq<SocketId>, i: nat, ghost s0: Sockets)
      requires i < |cs| && Valid() && TickSoFar(cs, i, s0, State())
      modifies this
      ensures Valid() && TickSoFar(cs, i + 1, s0, State())
    {
      ghost var pre := State();
      NoDupAt(cs, i);
      Visit(cs[i]);
      TickStep(cs, i, s0, pre, State());
    }

    /** One 30 s heartbeat tick over a snapshot of `wss.clients`. */
    method Heartbeat()
      requires Valid()
      modifies this
      ensures Valid()
      ensures effects == old(effects) + TickEffects(old(clients), old(readyState), old(alive))
      ensures clients == Survivors(old(clients), old(readyState), old(alive))
      ensures readyState.Keys == old(readyState).Keys && alive.Keys == old(alive).Keys
      ensures forall s :: s in old(clients) ==> (readyState[s], alive[s]) == AfterBeat(old(readyState)[s], old(alive)[s])
      ensures forall s :: s in old(readyState) && s !in old(clients) ==> readyState[s] == old(readyState)[s]
      ensures forall s :: s in old(alive) && s !in old(clients) ==> alive[s] == old(alive)[s]
    {
      var cs := clients;
      ghost var s0 := State();
      TickStart(s0);
      for i := 0 to |cs|
        invariant Valid() && TickSoFar(cs, i, s0, State())
      {
        Advance(cs, i, s0);
      }
      TickDone(s0, State());
    }
  }
}
