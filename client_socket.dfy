/** The browser side of the socket: the connection hook's refs and state, the handlers it
    installs on each socket it opens, the exponential reconnect backoff, and the subscribe
    frames it sends. Socket events and timer expiry come from the environment, which calls
    the handler methods below; sockets are numbered in the order the client creates them. */
module ClientSocket {
  import opened Common

  /** `maxReconnectAttempts`. */
  const MaxReconnectAttempts: nat := 5

  function Pow2(n: nat): (r: nat)
    ensures r >= 1
  {
    if n == 0 then 1 else 2 * Pow2(n - 1)
  }

  /** The delay `onclose` waits before reconnecting, or `None` once the attempts are used up. */
  function Backoff(attempts: nat): (r: Option<nat>)
    ensures r.Some? <==> attempts < MaxReconnectAttempts
  {
    if attempts < MaxReconnectAttempts then Some(Pow2(attempts) * 1000) else None
  }

  /** Every delay a reconnect timer can have. */
  const BackoffDelays: set<nat> := {1000, 2000, 4000, 8000, 16000}

  lemma BackoffIsListed(attempts: nat)
    requires attempts < MaxReconnectAttempts
    ensures Backoff(attempts).value in BackoffDelays
  {
    assert Pow2(1) == 2;
    assert Pow2(4) == 2 * Pow2(3);
  }

  /** The delays scheduled by `closes` closes in a row, starting with `attempts` used and each
      followed by its timer, with no successful open in between. */
  function Backoffs(attempts: nat, closes: nat): seq<nat>
    decreases closes
  {
    if closes == 0 then []
    else match Backoff(attempts)
      case None => []
      case Some(delay) => [delay] + Backoffs(attempts + 1, closes - 1)
  }

  const BackoffTable: seq<nat> := [1000, 2000, 4000, 8000, 16000]

  /** From `attempts` used the delays are the rest of the table, as far as the closes go. */
  lemma {:induction false} BackoffsFollowTable(attempts: nat, closes: nat)
    requires attempts <= MaxReconnectAttempts
    ensures var upTo := if attempts + closes < 5 then attempts + closes else 5;
            Backoffs(attempts, closes) == BackoffTable[attempts..upTo]
    decreases closes
  {
    if closes > 0 && attempts < MaxReconnectAttempts {
      BackoffsFollowTable(attempts + 1, closes - 1);
      assert Pow2(1) == 2 && Pow2(2) == 4 && Pow2(3) == 8 && Pow2(4) == 16;
      assert Backoff(attempts) == Some(BackoffTable[attempts]);
    }
  }

  /** From a fresh start, in a row of closes with no successful open in between, the delays
      are one, two, four, eight and sixteen seconds, and no more than five reconnects are
      scheduled. An open resets the count and starts a new row. */
  lemma BackoffsFromStart(closes: nat)
    ensures Backoffs(0, closes) == [1000, 2000, 4000, 8000, 16000][..if closes < 5 then closes else 5]
  {
    BackoffsFollowTable(0, closes);
  }

  /** The number of reconnects still to come is bounded by the attempts left, and each delay
      doubles the one before. */
  lemma {:induction false} BackoffsShape(attempts: nat, closes: nat)
    ensures attempts <= MaxReconnectAttempts ==> |Backoffs(attempts, closes)| <= MaxReconnectAttempts - attempts
    ensures attempts > MaxReconnectAttempts ==> Backoffs(attempts, closes) == []
    ensures forall i :: 0 < i < |Backoffs(attempts, closes)| ==>
              Backoffs(attempts, closes)[i] == 2 * Backoffs(attempts, closes)[i - 1]
    decreases closes
  {
    if closes > 0 && attempts < MaxReconnectAttempts {
      BackoffsShape(attempts + 1, closes - 1);
      var rest := Backoffs(attempts + 1, closes - 1);
      var all := Backoffs(attempts, closes);
      assert all == [Pow2(attempts) * 1000] + rest;
      if |rest| > 0 {
        assert rest[0] == Pow2(attempts + 1) * 1000;
      }
      forall i | 0 < i < |all| ensures all[i] == 2 * all[i - 1] {
        assert all[i] == rest[i - 1];
      }
    }
  }

  /** A frame the client sends: `{type: 'subscribe' | 'unsubscribe', matchId}`. */
  datatype ClientFrame = Subscribe(matchId: string) | Unsubscribe(matchId: string)

  /** A parsed server message; its fields are not inspected here. */
  datatype ServerMessage = ServerMessage(kind: string, body: string)

  datatype TimerState = Pending | Fired | Cleared

  /** A `setTimeout` the hook started: its delay and whether it is still to fire. */
  datatype Timer = Timer(delay: nat, state: TimerState)

  /** `socket.close()`: an open or connecting socket starts its closing handshake. */
  function AfterClose(s: ReadyState): ReadyState {
    if s == Connecting || s == Open then Closing else s
  }

  class Client {
    /** The `isConnected` state. */
    var isConnected: bool
    /** The `lastMessage` state. */
    var lastMessage: Option<ServerMessage>
    /** `reconnectAttempts.current`. */
    var attempts: nat
    /** `wsRef.current`: the socket in use, if any. */
    var socket: Option<nat>
    /** The ready states of every socket the client has created. */
    var sockets: seq<ReadyState>
    /** Every reconnect timer started, in order. */
    var timers: seq<Timer>
    /** `reconnectTimeoutRef.current`: the last timer started. */
    var timerRef: Option<nat>
    /** The frames sent, each with the socket it went out on. */
    var sent: seq<(nat, ClientFrame)>

    ghost predicate Valid()
      reads this
    {
      && (socket.Some? ==> socket.value < |sockets|)
      && (timerRef.Some? ==> timerRef.value < |timers|)
      && (forall i :: 0 <= i < |timers| ==> timers[i].delay in BackoffDelays)
      && (forall i :: 0 <= i < |sent| ==> sent[i].0 < |sockets|)
    }

    /** The hook's initial state, before `connect` runs. */
    constructor ()
      ensures Valid()
      ensures !isConnected && lastMessage == None && attempts == 0
      ensures socket == None && sockets == [] && timers == [] && timerRef == None && sent == []
    {
      isConnected := false;
      lastMessage := None;
      attempts := 0;
      socket := None;
      sockets := [];
      timers := [];
      timerRef := None;
      sent := [];
    }

    /** `connect()`: a new socket, connecting, becomes the one in use. */
    method Connect()
      requires Valid()
      modifies this
      ensures Valid()
      ensures sockets == old(sockets) + [Connecting] && socket == Some(|old(sockets)|)
      ensures isConnected == old(isConnected) && lastMessage == old(lastMessage) && attempts == old(attempts)
      ensures timers == old(timers) && timerRef == old(timerRef) && sent == old(sent)
    {
      socket := Some(|sockets|);
      sockets := sockets + [Connecting];
    }

    /** `onopen` of socket `k`: connected, and the attempt count starts over. */
    method OnOpen(k: nat)
      requires Valid() && k < |sockets| && sockets[k] == Connecting
      modifies this
      ensures Valid()
      ensures sockets == old(sockets)[k := Open]
      ensures isConnected && attempts == 0
      ensures lastMessage == old(lastMessage) && socket == old(socket)
      ensures timers == old(timers) && timerRef == old(timerRef) && sent == old(sent)
    {
      sockets := sockets[k := Open];
      isConnected := true;
      attempts := 0;
    }

    /** `onmessage`: a message that parses becomes the last message; one that does not is
        dropped and nothing changes. */
    method OnMessage(data: string, parse: string -> Option<ServerMessage>)
      requires Valid()
      modifies this
      ensures Valid()
      ensures parse(data).Some? ==> lastMessage == parse(data)
      ensures parse(data).None? ==> lastMessage == old(lastMessage)
      ensures isConnected == old(isConnected) && attempts == old(attempts) && socket == old(socket)
      ensures sockets == old(sockets) && timers == old(timers) && timerRef == old(timerRef) && sent == old(sent)
    {
      var message := parse(data);
      if message.Some? {
        lastMessage := message;
      }
    }

    /** `onclose` of socket `k` (whether or not it is still the one in use): disconnected,
        and while attempts remain a reconnect timer of `2^attempts` seconds is started. */
    method OnClose(k: nat)
      requires Valid() && k < |sockets| && sockets[k] != Closed
      modifies this
      ensures Valid()
      ensures sockets == old(sockets)[k := Closed] && !isConnected
      ensures match Backoff(old(attempts))
                case None => timers == old(timers) && timerRef == old(timerRef)
                case Some(delay) =>
                  timers == old(timers) + [Timer(delay, Pending)] && timerRef == Some(|old(timers)|)
      ensures lastMessage == old(lastMessage) && attempts == old(attempts) && socket == old(socket) && sent == old(sent)
    {
      sockets := sockets[k := Closed];
      isConnected := false;
      if attempts < MaxReconnectAttempts {
        var delay := Pow2(attempts) * 1000;
        BackoffIsListed(attempts);
        timerRef := Some(|timers|);
        timers := timers + [Timer(delay, Pending)];
      }
    }

    /** A reconnect timer fires: one more attempt is counted, then `connect()` runs. */
    method TimerFires(t: nat)
      requires Valid() && t < |timers| && timers[t].state == Pending
      modifies this
      ensures Valid()
      ensures timers == old(timers)[t := Timer(old(timers)[t].delay, Fired)]
      ensures attempts == old(attempts) + 1
      ensures sockets == old(sockets) + [Connecting] && socket == Some(|old(sockets)|)
      ensures isConnected == old(isConnected) && lastMessage == old(lastMessage)
      ensures timerRef == old(timerRef) && sent == old(sent)
    {
      timers := timers[t := Timer(timers[t].delay, Fired)];
      attempts := attempts + 1;
      Connect();
    }

    /** `disconnect()`: the last timer started is cleared if it has not fired, the socket in
        use is asked to close, and the reference to it is dropped. The socket's own `onclose`
        is left installed, so its close event still follows the reconnect rule. */
    method Disconnect()
      requires Valid()
      modifies this
      ensures Valid()
      ensures timers == if old(timerRef).Some? && old(timers)[old(timerRef).value].state == Pending
                        then old(timers)[old(timerRef).value := Timer(old(timers)[old(timerRef).value].delay, Cleared)]
                        else old(timers)
      ensures sockets == if old(socket).Some?
                         then old(sockets)[old(socket).value := AfterClose(old(sockets)[old(socket).value])]
                         else old(sockets)
      ensures socket == None
      ensures isConnected == old(isConnected) && lastMessage == old(lastMessage) && attempts == old(attempts)
      ensures timerRef == old(timerRef) && sent == old(sent)
    {
      if timerRef.Some? && timers[timerRef.value].state == Pending {
        var t := timerRef.value;
        timers := timers[t := Timer(timers[t].delay, Cleared)];
      }
      if socket.Some? {
        var k := socket.value;
        sockets := sockets[k := AfterClose(sockets[k])];
      }
      socket := None;
    }

    /** Sends a frame on the socket in use, but only when that socket is open. */
    method SendIfOpen(frame: ClientFrame)
      requires Valid()
      modifies this
      ensures Valid()
      ensures sent == if old(socket).Some? && old(sockets)[old(socket).value] == Open
                      then old(sent) + [(old(socket).value, frame)]
                      else old(sent)
      ensures isConnected == old(isConnected) && lastMessage == old(lastMessage) && attempts == old(attempts)
      ensures socket == old(socket) && sockets == old(sockets) && timers == old(timers) && timerRef == old(timerRef)
    {
      if socket.Some? && sockets[socket.value] == Open {
        sent := sent + [(socket.value, frame)];
      }
    }

    /** `subscribe(matchId)`. */
    method SubscribeTo(matchId: string)
      requires Valid()
      modifies this
      ensures Valid()
      ensures sent == if old(socket).Some? && old(sockets)[old(socket).value] == Open
                      then old(sent) + [(old(socket).value, Subscribe(matchId))]
                      else old(sent)
      ensures isConnected == old(isConnected) && lastMessage == old(lastMessage) && attempts == old(attempts)
      ensures socket == old(socket) && sockets == old(sockets) && timers == old(timers) && timerRef == old(timerRef)
    {
      SendIfOpen(Subscribe(matchId));
    }

    /** `unsubscribe(matchId)`. */
    method UnsubscribeFrom(matchId: string)
      requires Valid()
      modifies this
      ensures Valid()
      ensures sent == if old(socket).Some? && old(sockets)[old(socket).value] == Open
                      then old(sent) + [(old(socket).value, Unsubscribe(matchId))]
                      else old(sent)
      ensures isConnected == old(isConnected) && lastMessage == old(lastMessage) && attempts == old(attempts)
      ensures socket == old(socket) && sockets == old(sockets) && timers == old(timers) && timerRef == old(timerRef)
    {
      SendIfOpen(Unsubscribe(matchId));
    }
  }
}
