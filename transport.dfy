/** What both WebSocket servers share: the frames they push, the effects they have on
    sockets (a send, a ping, a termination), the per-socket heartbeat decision and the
    fan-out of one serialised payload to the open sockets of a collection. */
module Transport {
  import opened Common

  /** Server-to-client payloads (JSON serialisation is not modelled). */
  datatype Outbound =
    | Welcome                          // {type:"welcome"}
    | MatchCreated(created: Match)     // {type:"match_created", match}
    | CommentaryUpdate(data: Commentary) // {type:"commentary", data}
    | Subscribed(matchId: MatchId)     // {type:"subscribe", matchId}
    | Unsubscribed(matchId: MatchId)   // {type:"unsubscribed", matchId}
    | ErrorReply(message: string)      // {type:"error", message}

  /** An effect on the transport, in the order the server causes it. */
  datatype Effect = Send(socket: SocketId, payload: Outbound) | Ping(socket: SocketId) | Terminate(socket: SocketId)

  /** One serialised payload sent to each OPEN socket of `targets`, in iteration order;
      the others are skipped. */
  function SendToOpen(targets: seq<SocketId>, state: map<SocketId, ReadyState>, p: Outbound): (r: seq<Effect>)
    requires forall t :: t in targets ==> t in state
    ensures |r| <= |targets|
  {
    if targets == [] then []
    else (if state[targets[0]] == Open then [Send(targets[0], p)] else []) + SendToOpen(targets[1..], state, p)
  }

  /** `SendToOpen` sends exactly the given payload, and only to open sockets of `targets`. */
  lemma {:induction false} SendToOpenTargets(targets: seq<SocketId>, state: map<SocketId, ReadyState>, p: Outbound, e: Effect)
    requires forall t :: t in targets ==> t in state
    ensures e in SendToOpen(targets, state, p) <==> e.Send? && e.payload == p && e.socket in targets && state[e.socket] == Open
  {
    if targets != [] {
      SendToOpenTargets(targets[1..], state, p, e);
      assert e.Send? && e.socket in targets ==> e.socket == targets[0] || e.socket in targets[1..];
    }
  }

  /** Each open socket of a duplicate-free collection gets the payload exactly once. */
  lemma {:induction false} SendToOpenOnce(targets: seq<SocketId>, state: map<SocketId, ReadyState>, p: Outbound, t: SocketId)
    requires forall u :: u in targets ==> u in state
    requires NoDup(targets)
    ensures multiset(SendToOpen(targets, state, p))[Send(t, p)] == if t in targets && state[t] == Open then 1 else 0
  {
    if targets != [] {
      assert NoDup(targets[1..]) by {
        forall i, j | 0 <= i < j < |targets| - 1 ensures targets[1..][i] != targets[1..][j] {
          assert targets[i + 1] != targets[j + 1];
        }
      }
      assert targets[0] !in targets[1..] by {
        forall k | 0 <= k < |targets| - 1 ensures targets[1..][k] != targets[0] { assert targets[k + 1] != targets[0]; }
      }
      SendToOpenOnce(targets[1..], state, p, t);
      assert t in targets <==> t == targets[0] || t in targets[1..];
    }
  }

  /** Sending to one more target appends at most one send. */
  lemma {:induction false} SendToOpenAppend(a: seq<SocketId>, x: SocketId, state: map<SocketId, ReadyState>, p: Outbound)
    requires forall t :: t in a ==> t in state
    requires x in state
    ensures SendToOpen(a + [x], state, p) == SendToOpen(a, state, p) + (if state[x] == Open then [Send(x, p)] else [])
  {
    if a == [] {
      assert a + [x] == [x];
    } else {
      var head := if state[a[0]] == Open then [Send(a[0], p)] else [];
      var tail := SendToOpen(a[1..], state, p);
      var last := if state[x] == Open then [Send(x, p)] else [];
      assert (a + [x])[0] == a[0];
      assert (a + [x])[1..] == a[1..] + [x];
      assert SendToOpen(a + [x], state, p) == head + SendToOpen(a[1..] + [x], state, p);
      SendToOpenAppend(a[1..], x, state, p);
      assert SendToOpen(a, state, p) == head + tail;
      assert head + (tail + last) == (head + tail) + last;
    }
  }

  /** What one heartbeat tick does to one socket. */
  datatype Beat = Skip | Reap | Probe

  /** The heartbeat decision: not OPEN is skipped, OPEN and marked dead is terminated,
      otherwise it is marked dead and pinged. */
  function BeatFor(state: ReadyState, alive: bool): (b: Beat)
    ensures b == Skip <==> state != Open
    ensures b == Reap <==> state == Open && !alive
    ensures b == Probe <==> state == Open && alive
  {
    if state != Open then Skip else if !alive then Reap else Probe
  }

  /** What the tick does to the transport for one socket. */
  function BeatEffects(s: SocketId, b: Beat): (r: seq<Effect>)
    ensures b == Skip <==> r == []
    ensures b == Reap <==> r == [Terminate(s)]
    ensures b == Probe <==> r == [Ping(s)]
  {
    match b
    case Skip => []
    case Reap => [Terminate(s)]
    case Probe => [Ping(s)]
  }

  /** The effects of one heartbeat tick over `clients`, in iteration order. */
  function TickEffects(clients: seq<SocketId>, state: map<SocketId, ReadyState>, alive: map<SocketId, bool>): (r: seq<Effect>)
    requires forall t :: t in clients ==> t in state && t in alive
    ensures |r| <= |clients|
  {
    if clients == [] then []
    else BeatEffects(clients[0], BeatFor(state[clients[0]], alive[clients[0]])) + TickEffects(clients[1..], state, alive)
  }

  /** A tick pings exactly the open sockets marked alive and terminates exactly the open
      sockets marked dead. */
  lemma {:induction false} TickEffectsAre(clients: seq<SocketId>, state: map<SocketId, ReadyState>, alive: map<SocketId, bool>, t: SocketId)
    requires forall u :: u in clients ==> u in state && u in alive
    ensures Ping(t) in TickEffects(clients, state, alive) <==> t in clients && state[t] == Open && alive[t]
    ensures Terminate(t) in TickEffects(clients, state, alive) <==> t in clients && state[t] == Open && !alive[t]
    ensures forall e :: e in TickEffects(clients, state, alive) ==> !e.Send?
  {
    if clients != [] {
      TickEffectsAre(clients[1..], state, alive, t);
      assert t in clients <==> t == clients[0] || t in clients[1..];
    }
  }

  /** The sockets a tick keeps: all but the terminated ones, order kept. */
  function Survivors(clients: seq<SocketId>, state: map<SocketId, ReadyState>, alive: map<SocketId, bool>): (r: seq<SocketId>)
    requires forall t :: t in clients ==> t in state && t in alive
    ensures |r| <= |clients|
  {
    if clients == [] then []
    else
      (if BeatFor(state[clients[0]], alive[clients[0]]) == Reap then [] else [clients[0]])
      + Survivors(clients[1..], state, alive)
  }

  /** A tick keeps exactly the sockets it does not terminate. */
  lemma {:induction false} SurvivorsAre(clients: seq<SocketId>, state: map<SocketId, ReadyState>, alive: map<SocketId, bool>, t: SocketId)
    requires forall u :: u in clients ==> u in state && u in alive
    ensures t in Survivors(clients, state, alive) <==> t in clients && BeatFor(state[t], alive[t]) != Reap
  {
    if clients != [] {
      SurvivorsAre(clients[1..], state, alive, t);
      assert t in clients <==> t == clients[0] || t in clients[1..];
    }
  }

  lemma {:induction false} SurvivorsAppend(a: seq<SocketId>, x: SocketId, state: map<SocketId, ReadyState>, alive: map<SocketId, bool>)
    requires forall t :: t in a ==> t in state && t in alive
    requires x in state && x in alive
    ensures Survivors(a + [x], state, alive)
            == Survivors(a, state, alive) + (if BeatFor(state[x], alive[x]) == Reap then [] else [x])
  {
    if a == [] {
      assert a + [x] == [x];
    } else {
      var head := if BeatFor(state[a[0]], alive[a[0]]) == Reap then [] else [a[0]];
      assert (a + [x])[0] == a[0];
      assert (a + [x])[1..] == a[1..] + [x];
      assert Survivors(a + [x], state, alive) == head + Survivors(a[1..] + [x], state, alive);
      SurvivorsAppend(a[1..], x, state, alive);
    }
  }

  lemma {:induction false} TickEffectsAppend(a: seq<SocketId>, x: SocketId, state: map<SocketId, ReadyState>, alive: map<SocketId, bool>)
    requires forall t :: t in a ==> t in state && t in alive
    requires x in state && x in alive
    ensures TickEffects(a + [x], state, alive)
            == TickEffects(a, state, alive) + BeatEffects(x, BeatFor(state[x], alive[x]))
  {
    if a == [] {
      assert a + [x] == [x];
    } else {
      var head := BeatEffects(a[0], BeatFor(state[a[0]], alive[a[0]]));
      var tail := TickEffects(a[1..], state, alive);
      var last := BeatEffects(x, BeatFor(state[x], alive[x]));
      assert (a + [x])[0] == a[0];
      assert (a + [x])[1..] == a[1..] + [x];
      assert TickEffects(a + [x], state, alive) == head + TickEffects(a[1..] + [x], state, alive);
      TickEffectsAppend(a[1..], x, state, alive);
      assert TickEffects(a, state, alive) == head + tail;
      assert head + (tail + last) == (head + tail) + last;
    }
  }

  /** One socket's (state, alive) after a tick; a terminated socket ends up CLOSED. */
  function AfterBeat(state: ReadyState, alive: bool): (ReadyState, bool) {
    match BeatFor(state, alive)
    case Skip => (state, alive)
    case Reap => (Closed, alive)
    case Probe => (state, false)
  }

  /** `n` heartbeat ticks with no pong in between. */
  function Silent(state: ReadyState, alive: bool, n: nat): (ReadyState, bool)
    decreases n
  {
    if n == 0 then (state, alive)
    else
      var next := AfterBeat(state, alive);
      Silent(next.0, next.1, n - 1)
  }

  /** An OPEN socket that never answers a ping is terminated on the second tick at the
      latest, whatever its mark was, and stays closed afterwards. */
  lemma {:induction false} SilentSocketIsReaped(alive: bool, n: nat)
    requires n >= 2
    ensures Silent(Open, alive, n).0 == Closed
  {
    var first := AfterBeat(Open, alive);
    if alive {
      assert first == (Open, false);
      var second := AfterBeat(Open, false);
      assert second == (Closed, false);
      ClosedStaysClosed(false, n - 2);
    } else {
      assert first == (Closed, false);
      ClosedStaysClosed(false, n - 1);
    }
  }

  lemma {:induction false} ClosedStaysClosed(alive: bool, n: nat)
    ensures Silent(Closed, alive, n) == (Closed, alive)
  {
    if n > 0 {
      ClosedStaysClosed(alive, n - 1);
    }
  }

  /** `n` heartbeat ticks, each ping answered by a pong before the next tick; the pong
      handler sets the mark again. */
  function Answered(state: ReadyState, alive: bool, n: nat): (ReadyState, bool)
    decreases n
  {
    if n == 0 then (state, alive)
    else
      var next := AfterBeat(state, alive);
      Answered(next.0, true, n - 1)
  }

  /** A live OPEN socket that answers every ping is never terminated: after any number of
      ticks it is still OPEN and marked alive, so the next tick pings it again. */
  lemma {:induction false} PongingSocketSurvives(n: nat)
    ensures Answered(Open, true, n) == (Open, true)
    ensures BeatFor(Answered(Open, true, n).0, Answered(Open, true, n).1) == Probe
  {
    if n > 0 {
      assert AfterBeat(Open, true) == (Open, false);
      PongingSocketSurvives(n - 1);
    }
  }
}
