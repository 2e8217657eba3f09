/** The backend WebSocket server: the match subscription registry, the per-socket
    subscription sets and liveness marks, the protocol handler, the two broadcasters and
    the 30 s heartbeat. Every event callback of the server is one atomic method. */
module WsServer {
  import opened Common
  import opened Transport
  import opened Liveness

  /** An inbound text frame after `JSON.parse` and the type/matchId checks. */
  datatype Inbound =
    | BadJson                              // JSON.parse threw
    | SubscribeRequest(matchId: MatchId)   // type 'subscribe' with a string matchId
    | UnsubscribeRequest(matchId: MatchId) // type 'unsubscribe' with a string matchId
    | Ignored                              // any other well-formed JSON value

  /** `matchSubscribers`: match id to the set of subscribed sockets. */
  type Registry = map<MatchId, seq<SocketId>>

  predicate InEntry(reg: Registry, m: MatchId, s: SocketId) {
    m in reg && s in reg[m]
  }

  /** No match id is kept with an empty subscriber set. */
  ghost predicate NoEmptyEntry(reg: Registry) {
    forall m :: m in reg ==> reg[m] != []
  }

  ghost predicate EntriesAreSets(reg: Registry) {
    forall m :: m in reg ==> NoDup(reg[m])
  }

  /** The registry after `subscribe(m, s)`: the entry is created when absent and `s` is
      added to it; nothing else changes. */
  function AddSubscriber(reg: Registry, m: MatchId, s: SocketId): (r: Registry)
    ensures r.Keys == reg.Keys + {m}
    ensures r[m] == Add(if m in reg then reg[m] else [], s)
    ensures forall k :: k in reg && k != m ==> r[k] == reg[k]
    ensures forall k, t :: InEntry(r, k, t) <==> InEntry(reg, k, t) || (k == m && t == s)
    ensures NoEmptyEntry(reg) ==> NoEmptyEntry(r)
    ensures EntriesAreSets(reg) ==> EntriesAreSets(r)
  {
    var subscribers := if m in reg then reg[m] else [];
    reg[m := Add(subscribers, s)]
  }

  /** The registry after `unsubscribe(m, s)`: `s` leaves the entry, which is deleted once
      empty; without an entry nothing changes. */
  function RemoveSubscriber(reg: Registry, m: MatchId, s: SocketId): (r: Registry)
    ensures m !in reg ==> r == reg
    ensures m in reg ==> (m in r <==> Remove(reg[m], s) != [])
    ensures m in r ==> r[m] == Remove(reg[m], s)
    ensures r.Keys <= reg.Keys && forall k :: k in reg && k != m ==> k in r && r[k] == reg[k]
    ensures forall k, t :: InEntry(r, k, t) <==> InEntry(reg, k, t) && !(k == m && t == s)
    ensures NoEmptyEntry(reg) ==> NoEmptyEntry(r)
    ensures EntriesAreSets(reg) ==> EntriesAreSets(r)
  {
    if m !in reg then reg
    else
      var rest := Remove(reg[m], s);
      if |rest| == 0 then reg - {m} else reg[m := rest]
  }

  /** Subscribing twice is the same as subscribing once. */
  lemma SubscribeIdempotent(reg: Registry, m: MatchId, s: SocketId)
    ensures AddSubscriber(AddSubscriber(reg, m, s), m, s) == AddSubscriber(reg, m, s)
  {
  }

  /** Unsubscribing right after subscribing a socket that was not subscribed restores the
      registry exactly, including a deleted entry. */
  lemma SubscribeUnsubscribeRoundTrip(reg: Registry, m: MatchId, s: SocketId)
    requires NoEmptyEntry(reg)
    requires !InEntry(reg, m, s)
    ensures RemoveSubscriber(AddSubscriber(reg, m, s), m, s) == reg
  {
    var entry := if m in reg then reg[m] else [];
    RemoveAdded(entry, s);
    var r := RemoveSubscriber(AddSubscriber(reg, m, s), m, s);
    assert r.Keys == reg.Keys;
    forall k | k in reg ensures r[k] == reg[k] {
    }
  }

  /** The registry after `cleanupSubscriptions` has unsubscribed `s` from each of `ms`,
      in order. */
  function RemoveFromAll(reg: Registry, ms: seq<MatchId>, s: SocketId): (r: Registry)
    decreases |ms|
  {
    if ms == [] then reg
    else RemoveSubscriber(RemoveFromAll(reg, ms[..|ms| - 1], s), ms[|ms| - 1], s)
  }

  /** Cleanup removes `s` from the entries of `ms` and leaves every other membership as it
      was; it never leaves an empty entry behind. */
  lemma {:induction false} RemoveFromAllMembership(reg: Registry, ms: seq<MatchId>, s: SocketId)
    ensures forall k, t :: InEntry(RemoveFromAll(reg, ms, s), k, t) <==> InEntry(reg, k, t) && !(t == s && k in ms)
    ensures NoEmptyEntry(reg) ==> NoEmptyEntry(RemoveFromAll(reg, ms, s))
    ensures EntriesAreSets(reg) ==> EntriesAreSets(RemoveFromAll(reg, ms, s))
  {
    if ms != [] {
      var init := ms[..|ms| - 1];
      RemoveFromAllMembership(reg, init, s);
      assert forall k :: k in ms <==> k in init || k == ms[|ms| - 1];
    }
  }

  /** When `ms` lists every match `s` is subscribed to (the two-way invariant), cleanup
      leaves `s` in no registry entry. */
  lemma CleanupForgetsSocket(reg: Registry, ms: seq<MatchId>, s: SocketId)
    requires forall k :: InEntry(reg, k, s) ==> k in ms
    ensures forall k :: !InEntry(RemoveFromAll(reg, ms, s), k, s)
  {
    RemoveFromAllMembership(reg, ms, s);
  }

  /** The server's invariant, over the values of its state: `clients` is a set of sockets
      that have not closed, each with a ready-state, a liveness mark and its own set of
      match ids; every other socket seen is CLOSED; no registry entry is empty, every
      registry member is a client, and for every client `s`, `m` is in `s`'s own set if and
      only if `s` is in the entry of `m`. A closed socket keeps its own set, which cleanup
      does not clear, so the two-way invariant is not claimed for it. */
  ghost predicate Inv(clients: seq<SocketId>, readyState: map<SocketId, ReadyState>, alive: map<SocketId, bool>,
                      subscriptions: map<SocketId, seq<MatchId>>, reg: Registry)
  {
    && NoDup(clients)
    && (forall s :: s in clients ==>
          s in readyState && readyState[s] != Closed && s in alive && s in subscriptions && NoDup(subscriptions[s]))
    && (forall s :: s in readyState && s !in clients ==> readyState[s] == Closed)
    && NoEmptyEntry(reg)
    && EntriesAreSets(reg)
    && (forall m, t :: m in reg && t in reg[m] ==> t in clients)
    && (forall s, m :: s in clients && s in subscriptions ==> (m in subscriptions[s] <==> InEntry(reg, m, s)))
  }

  /** A fresh socket joins with an empty set and in no entry. */
  lemma InvConnect(clients: seq<SocketId>, readyState: map<SocketId, ReadyState>, alive: map<SocketId, bool>,
                   subscriptions: map<SocketId, seq<MatchId>>, reg: Registry, s: SocketId)
    requires Inv(clients, readyState, alive, subscriptions, reg)
    requires s !in readyState
    ensures Inv(clients + [s], readyState[s := Open], alive[s := true], subscriptions[s := []], reg)
  {
    assert s !in clients;
    var c := clients + [s];
    forall i, j | 0 <= i < j < |c| ensures c[i] != c[j] {
      if j == |clients| {
        assert c[i] == clients[i];
      } else {
        assert c[i] == clients[i] && c[j] == clients[j];
      }
    }
  }

  /** A subscribe message keeps the invariant. */
  lemma InvSubscribe(clients: seq<SocketId>, readyState: map<SocketId, ReadyState>, alive: map<SocketId, bool>,
                     subscriptions: map<SocketId, seq<MatchId>>, reg: Registry, s: SocketId, m: MatchId)
    requires Inv(clients, readyState, alive, subscriptions, reg)
    requires s in clients
    ensures Inv(clients, readyState, alive, subscriptions[s := Add(subscriptions[s], m)], AddSubscriber(reg, m, s))
  {
  }

  /** An unsubscribe message keeps the invariant, whether or not `s` was subscribed. */
  lemma InvUnsubscribe(clients: seq<SocketId>, readyState: map<SocketId, ReadyState>, alive: map<SocketId, bool>,
                       subscriptions: map<SocketId, seq<MatchId>>, reg: Registry, s: SocketId, m: MatchId)
    requires Inv(clients, readyState, alive, subscriptions, reg)
    requires s in clients
    ensures Inv(clients, readyState, alive, subscriptions[s := Remove(subscriptions[s], m)], RemoveSubscriber(reg, m, s))
  {
  }

  /** Closing a client and cleaning up its subscriptions keeps the invariant, although the
      closed socket's own set is left in place. */
  lemma InvClose(clients: seq<SocketId>, readyState: map<SocketId, ReadyState>, alive: map<SocketId, bool>,
                 subscriptions: map<SocketId, seq<MatchId>>, reg: Registry, s: SocketId)
    requires Inv(clients, readyState, alive, subscriptions, reg)
    requires s in clients
    ensures Inv(Remove(clients, s), readyState[s := Closed], alive, subscriptions, RemoveFromAll(reg, subscriptions[s], s))
    ensures forall m, t :: InEntry(RemoveFromAll(reg, subscriptions[s], s), m, t) <==> InEntry(reg, m, t) && t != s
  {
    var ms := subscriptions[s];
    var reg' := RemoveFromAll(reg, ms, s);
    RemoveFromAllMembership(reg, ms, s);
    forall m, t | InEntry(reg', m, t) ensures t != s && t in Remove(clients, s) {
      assert InEntry(reg, m, t) && !(t == s && m in ms);
      assert t in clients;
    }
    forall m, t | m in reg' && t in reg'[m] ensures t in Remove(clients, s) {
      assert InEntry(reg', m, t);
    }
  }

  /** Changing a client's liveness mark or moving it to CLOSING keeps the invariant. */
  lemma InvMark(clients: seq<SocketId>, readyState: map<SocketId, ReadyState>, alive: map<SocketId, bool>,
                subscriptions: map<SocketId, seq<MatchId>>, reg: Registry, s: SocketId, b: bool, st: ReadyState)
    requires Inv(clients, readyState, alive, subscriptions, reg)
    requires s in clients && st != Closed
    ensures Inv(clients, readyState, alive[s := b], subscriptions, reg)
    ensures Inv(clients, readyState[s := st], alive, subscriptions, reg)
  {
  }

  /** The server's state as a value: the fields of `Server`. */
  datatype ServerState = ServerState(sockets: Sockets, subscriptions: map<SocketId, seq<MatchId>>, registry: Registry)

  ghost predicate StateInv(st: ServerState) {
    Inv(st.sockets.clients, st.sockets.readyState, st.sockets.alive, st.subscriptions, st.registry)
  }

  /** Where a heartbeat that started in `st0` stands in `st` after visiting `cs[..i]` of its
      snapshot `cs` of the clients: the socket-level progress, the invariant, the registry
      restricted to the remaining clients and the subscription sets untouched. */
  ghost predicate Progress(cs: seq<SocketId>, i: nat, st0: ServerState, st: ServerState) {
    && TickSoFar(cs, i, st0.sockets, st.sockets)
    && StateInv(st)
    && (forall m, t :: InEntry(st.registry, m, t) <==> InEntry(st0.registry, m, t) && t in st.sockets.clients)
    && st.subscriptions == st0.subscriptions
  }

  /** What `Server.Visit(s)` does, as a relation between the states before and after. */
  ghost predicate Visited(pre: ServerState, s: SocketId, post: ServerState)
    requires s in pre.sockets.readyState && s in pre.sockets.alive
  {
    && Beaten(pre.sockets, s, post.sockets)
    && StateInv(post)
    && post.subscriptions == pre.subscriptions
    && (forall m, t :: InEntry(post.registry, m, t) <==> InEntry(pre.registry, m, t) && t in post.sockets.clients)
  }

  /** Visiting the socket under the cursor advances the heartbeat by one. */
  lemma ProgressStep(cs: seq<SocketId>, i: nat, st0: ServerState, pre: ServerState, post: ServerState)
    requires i < |cs| && Progress(cs, i, st0, pre)
    requires cs[i] in pre.sockets.readyState && cs[i] in pre.sockets.alive && Visited(pre, cs[i], post)
    ensures Progress(cs, i + 1, st0, post)
  {
    TickStep(cs, i, st0.sockets, pre.sockets, post.sockets);
  }

  class Server {
    /** `wss.clients`: the connected sockets, in connection order. */
    var clients: seq<SocketId>
    /** The ready-state of every socket the server has seen. */
    var readyState: map<SocketId, ReadyState>
    /** The `alive` WeakMap. */
    var alive: map<SocketId, bool>
    /** The `subscriptions` WeakMap: each socket's own set of match ids. */
    var subscriptions: map<SocketId, seq<MatchId>>
    /** `matchSubscribers`. */
    var matchSubscribers: Registry
    /** Everything sent, pinged and terminated so far, in order. */
    var effects: seq<Effect>

    ghost predicate Valid()
      reads this
    {
      Inv(clients, readyState, alive, subscriptions, matchSubscribers)
    }

    constructor ()
      ensures Valid()
      ensures clients == [] && readyState == map[] && alive == map[]
      ensures subscriptions == map[] && matchSubscribers == map[] && effects == []
    {
      clients, readyState, alive := [], map[], map[];
      subscriptions, matchSubscribers, effects := map[], map[], [];
    }

    /** `subscribe(matchId, socket)`. */
    method Subscribe(m: MatchId, s: SocketId)
      modifies this`matchSubscribers
      ensures matchSubscribers == AddSubscriber(old(matchSubscribers), m, s)
    {
      if m !in matchSubscribers {
        matchSubscribers := matchSubscribers[m := []];
      }
      var subscribers := matchSubscribers[m];
      matchSubscribers := matchSubscribers[m := Add(subscribers, s)];
    }

    /** `unsubscribe(matchId, socket)`. */
    method Unsubscribe(m: MatchId, s: SocketId)
      modifies this`matchSubscribers
      ensures matchSubscribers == RemoveSubscriber(old(matchSubscribers), m, s)
    {
      if m !in matchSubscribers {
        return;
      }
      var subscribers := Remove(matchSubscribers[m], s);
      matchSubscribers := matchSubscribers[m := subscribers];
      if |subscribers| == 0 {
        matchSubscribers := matchSubscribers - {m};
      }
    }

    /** `cleanupSubscriptions(socket)`: unsubscribes the socket from every match of its own
        set, and leaves that set as it is. */
    method CleanupSubscriptions(s: SocketId)
      modifies this`matchSubscribers
      ensures s !in subscriptions ==> matchSubscribers == old(matchSubscribers)
      ensures s in subscriptions ==> matchSubscribers == RemoveFromAll(old(matchSubscribers), subscriptions[s], s)
    {
      if s !in subscriptions {
        return;
      }
      var subs := subscriptions[s];
      for i := 0 to |subs|
        invariant matchSubscribers == RemoveFromAll(old(matchSubscribers), subs[..i], s)
      {
        assert subs[..i + 1][..i] == subs[..i];
        Unsubscribe(subs[i], s);
      }
      assert subs[..|subs|] == subs;
    }

    /** `sendJson(socket, payload)`: nothing is sent to a socket that is not OPEN. */
    method SendJson(s: SocketId, p: Outbound)
      requires s in readyState
      modifies this`effects
      ensures effects == old(effects) + SendToOpen([s], readyState, p)
      ensures readyState[s] != Open ==> effects == old(effects)
      ensures readyState[s] == Open ==> effects == old(effects) + [Send(s, p)]
    {
      if readyState[s] != Open {
        return;
      }
      effects := effects + [Send(s, p)];
    }

    /** `broadcastToMatch(matchId, payload)`: a no-op without subscribers; otherwise the one
        serialised payload goes to each OPEN subscriber. */
    method BroadcastToMatch(m: MatchId, p: Outbound)
      requires Valid()
      modifies this`effects
      ensures m !in matchSubscribers ==> effects == old(effects)
      ensures m in matchSubscribers ==> effects == old(effects) + SendToOpen(matchSubscribers[m], readyState, p)
    {
      if m !in matchSubscribers || |matchSubscribers[m]| == 0 {
        return;
      }
      var subscribers := matchSubscribers[m];
      for i := 0 to |subscribers|
        invariant effects == old(effects) + SendToOpen(subscribers[..i], readyState, p)
      {
        SendToOpenAppend(subscribers[..i], subscribers[i], readyState, p);
        assert subscribers[..i + 1] == subscribers[..i] + [subscribers[i]];
        if readyState[subscribers[i]] == Open {
          effects := effects + [Send(subscribers[i], p)];
        }
      }
      assert subscribers[..|subscribers|] == subscribers;
    }

    /** `broadcastToAll(wss, payload)`: every OPEN client, subscribed or not. */
    method BroadcastToAll(p: Outbound)
      requires Valid()
      modifies this`effects
      ensures effects == old(effects) + SendToOpen(clients, readyState, p)
    {
      for i := 0 to |clients|
        invariant effects == old(effects) + SendToOpen(clients[..i], readyState, p)
      {
        PrefixMembers(clients, i);
        SplitAt(clients, i);
        SendToOpenAppend(clients[..i], clients[i], readyState, p);
        if readyState[clients[i]] == Open {
          effects := effects + [Send(clients[i], p)];
        }
      }
      assert clients[..|clients|] == clients;
    }

    /** `broadcastMatchCreated(match)`. */
    method BroadcastMatchCreated(created: Match)
      requires Valid()
      modifies this`effects
      ensures effects == old(effects) + SendToOpen(clients, readyState, MatchCreated(created))
    {
      BroadcastToAll(MatchCreated(created));
    }

    /** `broadcastCommentary(matchId, comment)`. */
    method BroadcastCommentary(m: MatchId, comment: Commentary)
      requires Valid()
      modifies this`effects
      ensures m !in matchSubscribers ==> effects == old(effects)
      ensures m in matchSubscribers ==>
                effects == old(effects) + SendToOpen(matchSubscribers[m], readyState, CommentaryUpdate(comment))
    {
      BroadcastToMatch(m, CommentaryUpdate(comment));
    }

    /** The `connection` handler: a fresh OPEN socket is marked alive, given an empty set of
        subscriptions and sent the welcome frame. */
    method Connect(s: SocketId)
      requires Valid()
      requires s !in readyState
      modifies this
      ensures Valid()
      ensures clients == old(clients) + [s]
      ensures readyState == old(readyState)[s := Open] && alive == old(alive)[s := true]
      ensures subscriptions == old(subscriptions)[s := []] && matchSubscribers == old(matchSubscribers)
      ensures effects == old(effects) + [Send(s, Welcome)]
    {
      InvConnect(clients, readyState, alive, subscriptions, matchSubscribers, s);
      clients := clients + [s];
      readyState := readyState[s := Open];
      alive := alive[s := true];
      subscriptions := subscriptions[s := []];
      SendJson(s, Welcome);
    }

    /** The `pong` handler. */
    method Pong(s: SocketId)
      requires Valid() && s in clients
      modifies this`alive
      ensures Valid()
      ensures alive == old(alive)[s := true]
    {
      InvMark(clients, readyState, alive, subscriptions, matchSubscribers, s, true, Open);
      alive := alive[s := true];
    }

    /** The transport starting a closing handshake on a connected socket. */
    method StartClosing(s: SocketId)
      requires Valid() && s in clients
      modifies this`readyState
      ensures Valid()
      ensures readyState == old(readyState)[s := Closing]
    {
      InvMark(clients, readyState, alive, subscriptions, matchSubscribers, s, true, Closing);
      readyState := readyState[s := Closing];
    }

    /** The `close` event: the socket leaves `wss.clients` and every registry entry; its own
        subscription set and liveness mark are left as they were. */
    method Close(s: SocketId)
      requires Valid() && s in clients
      modifies this
      ensures Valid()
      ensures clients == Remove(old(clients), s)
      ensures readyState == old(readyState)[s := Closed]
      ensures alive == old(alive) && subscriptions == old(subscriptions) && effects == old(effects)
      ensures matchSubscribers == RemoveFromAll(old(matchSubscribers), old(subscriptions)[s], s)
      ensures forall m, t :: InEntry(matchSubscribers, m, t) <==> InEntry(old(matchSubscribers), m, t) && t != s
    {
      InvClose(clients, readyState, alive, subscriptions, matchSubscribers, s);
      readyState := readyState[s := Closed];
      clients := Remove(clients, s);
      CleanupSubscriptions(s);
    }

    /** `socket.terminate()` together with the `close` event that follows it, as one step. */
    method TerminateSocket(s: SocketId)
      requires Valid() && s in clients
      modifies this
      ensures Valid()
      ensures clients == Remove(old(clients), s)
      ensures readyState == old(readyState)[s := Closed]
      ensures alive == old(alive) && subscriptions == old(subscriptions)
      ensures effects == old(effects) + [Effect.Terminate(s)]
      ensures forall m, t :: InEntry(matchSubscribers, m, t) <==> InEntry(old(matchSubscribers), m, t) && t != s
    {
      effects := effects + [Effect.Terminate(s)];
      Close(s);
    }

    /** The `error` handler terminates the socket. */
    method OnError(s: SocketId)
      requires Valid() && s in clients
      modifies this
      ensures Valid()
      ensures clients == Remove(old(clients), s) && readyState == old(readyState)[s := Closed]
      ensures alive == old(alive) && subscriptions == old(subscriptions)
      ensures effects == old(effects) + [Effect.Terminate(s)]
      ensures forall m :: !InEntry(matchSubscribers, m, s)
      ensures forall m, t :: InEntry(matchSubscribers, m, t) <==> InEntry(old(matchSubscribers), m, t) && t != s
    {
      TerminateSocket(s);
    }

    /** A subscribe request: the socket joins the entry and its own set, and is told so. */
    method OnSubscribe(s: SocketId, m: MatchId)
      requires Valid() && s in clients
      modifies this
      ensures Valid()
      ensures clients == old(clients) && readyState == old(readyState) && alive == old(alive)
      ensures matchSubscribers == AddSubscriber(old(matchSubscribers), m, s)
      ensures subscriptions == old(subscriptions)[s := Add(old(subscriptions)[s], m)]
      ensures effects == old(effects) + SendToOpen([s], readyState, Subscribed(m))
    {
      InvSubscribe(clients, readyState, alive, subscriptions, matchSubscribers, s, m);
      Subscribe(m, s);
      subscriptions := subscriptions[s := Add(subscriptions[s], m)];
      SendJson(s, Subscribed(m));
    }

    /** An unsubscribe request: the socket leaves the entry and its own set, and is told
        so even when it was not subscribed. */
    method OnUnsubscribe(s: SocketId, m: MatchId)
      requires Valid() && s in clients
      modifies this
      ensures Valid()
      ensures clients == old(clients) && readyState == old(readyState) && alive == old(alive)
      ensures matchSubscribers == RemoveSubscriber(old(matchSubscribers), m, s)
      ensures subscriptions == old(subscriptions)[s := Remove(old(subscriptions)[s], m)]
      ensures effects == old(effects) + SendToOpen([s], readyState, Unsubscribed(m))
    {
      InvUnsubscribe(clients, readyState, alive, subscriptions, matchSubscribers, s, m);
      Unsubscribe(m, s);
      subscriptions := subscriptions[s := Remove(subscriptions[s], m)];
      SendJson(s, Unsubscribed(m));
    }

    /** `handleMessage(socket, data)`: unparseable text gets an error reply, a subscribe or
        unsubscribe request is acted on, anything else is ignored. */
    method HandleMessage(s: SocketId, frame: Inbound)
      requires Valid() && s in clients
      modifies this
      ensures Valid()
      ensures clients == old(clients) && readyState == old(readyState) && alive == old(alive)
      ensures frame.BadJson? ==>
                && effects == old(effects) + SendToOpen([s], readyState, ErrorReply("Invalid JSON"))
                && matchSubscribers == old(matchSubscribers) && subscriptions == old(subscriptions)
      ensures frame.SubscribeRequest? ==>
                && matchSubscribers == AddSubscriber(old(matchSubscribers), frame.matchId, s)
                && subscriptions == old(subscriptions)[s := Add(old(subscriptions)[s], frame.matchId)]
                && effects == old(effects) + SendToOpen([s], readyState, Subscribed(frame.matchId))
      ensures frame.UnsubscribeRequest? ==>
                && matchSubscribers == RemoveSubscriber(old(matchSubscribers), frame.matchId, s)
                && subscriptions == old(subscriptions)[s := Remove(old(subscriptions)[s], frame.matchId)]
                && effects == old(effects) + SendToOpen([s], readyState, Unsubscribed(frame.matchId))
      ensures frame.Ignored? ==>
                effects == old(effects) && matchSubscribers == old(matchSubscribers) && subscriptions == old(subscriptions)
    {
      match frame
      case BadJson =>
        SendJson(s, ErrorReply("Invalid JSON"));
      case SubscribeRequest(m) =>
        OnSubscribe(s, m);
      case UnsubscribeRequest(m) =>
        OnUnsubscribe(s, m);
      case Ignored =>
    }

    /** The heartbeat's visit of one connected socket: a socket that is not OPEN is left
        alone, an OPEN socket not marked alive is terminated, any other is marked dead and
        pinged. */
    method Visit(s: SocketId)
      requires Valid() && s in clients
      modifies this
      ensures Valid()
      ensures s in old(readyState) && s in old(alive) && Visited(old(State()), s, State())
    {
      if readyState[s] != Open {
        return;
      }
      if !alive[s] {
        TerminateSocket(s);
        return;
      }
      InvMark(clients, readyState, alive, subscriptions, matchSubscribers, s, false, Open);
      alive := alive[s := false];
      effects := effects + [Ping(s)];
    }

    /** The whole state, as a value. */
    ghost function State(): ServerState
      reads this
    {
      ServerState(Sockets(clients, readyState, alive, effects), subscriptions, matchSubscribers)
    }

    /** One iteration of the heartbeat loop: visit `cs[i]`. */
    method Advance(cs: seq<SocketId>, i: nat, ghost st0: ServerState)
      requires i < |cs| && Progress(cs, i, st0, State())
      modifies this
      ensures Progress(cs, i + 1, st0, State())
    {
      ghost var pre := State();
      NoDupAt(cs, i);
      Visit(cs[i]);
      ProgressStep(cs, i, st0, pre, State());
    }

    /** One 30 s heartbeat tick over a snapshot of `wss.clients`. */
    method Heartbeat()
      requires Valid()
      modifies this
      ensures Valid()
      ensures effects == old(effects) + TickEffects(old(clients), old(readyState), old(alive))
      ensures clients == Survivors(old(clients), old(readyState), old(alive))
      ensures readyState.Keys == old(readyState).Keys && alive.Keys == old(alive).Keys
      ensures forall s :: s in old(clients) ==> (readyState[s], alive[s]) == AfterBeat(old(readyState)[s], old(alive)[s])
      ensures forall s :: s in old(readyState) && s !in old(clients) ==> readyState[s] == old(readyState)[s]
      ensures forall s :: s in old(alive) && s !in old(clients) ==> alive[s] == old(alive)[s]
      ensures forall m, t :: InEntry(matchSubscribers, m, t) <==> InEntry(old(matchSubscribers), m, t) && t in clients
      ensures subscriptions == old(subscriptions)
    {
      var cs := clients;
      ghost var st0 := State();
      TickStart(st0.sockets);
      for i := 0 to |cs|
        invariant Progress(cs, i, st0, State())
      {
        Advance(cs, i, st0);
      }
      TickDone(st0.sockets, State().sockets);
    }
  }
}
