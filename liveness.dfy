/** The 30 s heartbeat tick that both WebSocket servers run over a snapshot of their
    clients, tracked step by step on the socket-level part of the server state. */
module Liveness {
  import opened Common
  import opened Transport

  /** What a server keeps about its sockets: `wss.clients`, each socket's ready-state, the
      `alive` WeakMap and the transport effects so far. */
  datatype Sockets = Sockets(
    clients: seq<SocketId>, readyState: map<SocketId, ReadyState>, alive: map<SocketId, bool>, effects: seq<Effect>)

  /** The snapshot `cs` the tick iterates over, with a cursor `i`. */
  ghost predicate Snapshot(cs: seq<SocketId>, i: nat, s0: Sockets) {
    i <= |cs| && NoDup(cs) && (forall t :: t in cs ==> t in s0.readyState && t in s0.alive)
  }

  /** The effects and the client list after visiting `cs[..i]`. */
  ghost predicate TraceSoFar(cs: seq<SocketId>, i: nat, s0: Sockets, st: Sockets)
    requires Snapshot(cs, i, s0)
  {
    && st.effects == s0.effects + TickEffects(cs[..i], s0.readyState, s0.alive)
    && st.clients == Survivors(cs[..i], s0.readyState, s0.alive) + cs[i..]
  }

  /** The ready-states and liveness marks after visiting `cs[..i]`. */
  ghost predicate MarksSoFar(cs: seq<SocketId>, i: nat, s0: Sockets, st: Sockets)
    requires Snapshot(cs, i, s0)
  {
    && st.readyState.Keys == s0.readyState.Keys && st.alive.Keys == s0.alive.Keys
    && (forall j :: 0 <= j < i ==>
          (st.readyState[cs[j]], st.alive[cs[j]]) == AfterBeat(s0.readyState[cs[j]], s0.alive[cs[j]]))
    && (forall j :: i <= j < |cs| ==>
          st.readyState[cs[j]] == s0.readyState[cs[j]] && st.alive[cs[j]] == s0.alive[cs[j]])
    && (forall s :: s in s0.readyState && s !in cs ==> st.readyState[s] == s0.readyState[s])
    && (forall s :: s in s0.alive && s !in cs ==> st.alive[s] == s0.alive[s])
  }

  /** Where a tick that started in `s0` stands in `st` after visiting `cs[..i]`. */
  ghost predicate TickSoFar(cs: seq<SocketId>, i: nat, s0: Sockets, st: Sockets) {
    Snapshot(cs, i, s0) && TraceSoFar(cs, i, s0, st) && MarksSoFar(cs, i, s0, st)
  }

  /** One visit of socket `x`, as a relation between the states before and after: not OPEN
      is left alone, OPEN and marked dead is terminated (and so leaves the clients and ends
      CLOSED), any other is marked dead and pinged. */
  ghost predicate Beaten(pre: Sockets, x: SocketId, post: Sockets)
    requires x in pre.readyState && x in pre.alive
  {
    var b := BeatFor(pre.readyState[x], pre.alive[x]);
    var after := AfterBeat(pre.readyState[x], pre.alive[x]);
    && post.effects == pre.effects + BeatEffects(x, b)
    && post.clients == (if b == Reap then Remove(pre.clients, x) else pre.clients)
    && post.readyState == pre.readyState[x := after.0]
    && post.alive == pre.alive[x := after.1]
  }

  /** Visiting the socket under the cursor advances the tick by one. */
  lemma TickStep(cs: seq<SocketId>, i: nat, s0: Sockets, pre: Sockets, post: Sockets)
    requires i < |cs| && TickSoFar(cs, i, s0, pre)
    requires cs[i] in pre.readyState && cs[i] in pre.alive && Beaten(pre, cs[i], post)
    ensures TickSoFar(cs, i + 1, s0, post)
  {
    TraceStep(cs, i, s0, pre, post);
    MarksStep(cs, i, s0, pre, post);
  }

  lemma TraceStep(cs: seq<SocketId>, i: nat, s0: Sockets, pre: Sockets, post: Sockets)
    requires i < |cs| && Snapshot(cs, i, s0) && TraceSoFar(cs, i, s0, pre)
    requires MarksSoFar(cs, i, s0, pre)
    requires cs[i] in pre.readyState && cs[i] in pre.alive && Beaten(pre, cs[i], post)
    ensures Snapshot(cs, i + 1, s0) && TraceSoFar(cs, i + 1, s0, post)
  {
    var s := cs[i];
    assert pre.readyState[s] == s0.readyState[s] && pre.alive[s] == s0.alive[s];
    var b := BeatEffects(s, BeatFor(s0.readyState[s], s0.alive[s]));
    assert post.effects == s0.effects + TickEffects(cs[..i + 1], s0.readyState, s0.alive) by {
      HeartbeatEffectsStep(cs, i, s0.readyState, s0.alive);
      assert post.effects == (s0.effects + TickEffects(cs[..i], s0.readyState, s0.alive)) + b;
    }
    assert post.clients == Survivors(cs[..i + 1], s0.readyState, s0.alive) + cs[i + 1..] by {
      HeartbeatClientsStep(cs, i, s0.readyState, s0.alive);
    }
  }

  lemma MarksStep(cs: seq<SocketId>, i: nat, s0: Sockets, pre: Sockets, post: Sockets)
    requires i < |cs| && Snapshot(cs, i, s0) && MarksSoFar(cs, i, s0, pre)
    requires cs[i] in pre.readyState && cs[i] in pre.alive && Beaten(pre, cs[i], post)
    ensures Snapshot(cs, i + 1, s0) && MarksSoFar(cs, i + 1, s0, post)
  {
    var s := cs[i];
    NoDupAt(cs, i);
    assert pre.readyState[s] == s0.readyState[s] && pre.alive[s] == s0.alive[s];
    forall j | 0 <= j < |cs| && j != i ensures cs[j] != s {
    }
  }

  /** At the start of the tick nothing has been visited. */
  lemma TickStart(s0: Sockets)
    requires NoDup(s0.clients) && forall t :: t in s0.clients ==> t in s0.readyState && t in s0.alive
    ensures TickSoFar(s0.clients, 0, s0, s0)
  {
    assert s0.clients[..0] == [] && s0.clients[0..] == s0.clients;
  }

  /** A tick that has visited its whole snapshot: the effects are `TickEffects`, the clients
      are the survivors, each visited socket moved by `AfterBeat` and every other socket is
      as it was. */
  lemma TickDone(s0: Sockets, st: Sockets)
    requires TickSoFar(s0.clients, |s0.clients|, s0, st)
    ensures st.effects == s0.effects + TickEffects(s0.clients, s0.readyState, s0.alive)
    ensures st.clients == Survivors(s0.clients, s0.readyState, s0.alive)
    ensures st.readyState.Keys == s0.readyState.Keys && st.alive.Keys == s0.alive.Keys
    ensures forall s :: s in s0.clients ==> (st.readyState[s], st.alive[s]) == AfterBeat(s0.readyState[s], s0.alive[s])
    ensures forall s :: s in s0.readyState && s !in s0.clients ==> st.readyState[s] == s0.readyState[s]
    ensures forall s :: s in s0.alive && s !in s0.clients ==> st.alive[s] == s0.alive[s]
  {
    var cs := s0.clients;
    assert cs[..|cs|] == cs && cs[|cs|..] == [];
    forall s | s in cs ensures (st.readyState[s], st.alive[s]) == AfterBeat(s0.readyState[s], s0.alive[s]) {
      var j :| 0 <= j < |cs| && cs[j] == s;
    }
  }

  /** How the tick's effects grow when the snapshot cursor passes `cs[i]`. */
  lemma HeartbeatEffectsStep(cs: seq<SocketId>, i: nat, rs: map<SocketId, ReadyState>, al: map<SocketId, bool>)
    requires i < |cs|
    requires forall t :: t in cs ==> t in rs && t in al
    ensures TickEffects(cs[..i + 1], rs, al) == TickEffects(cs[..i], rs, al) + BeatEffects(cs[i], BeatFor(rs[cs[i]], al[cs[i]]))
  {
    var before := cs[..i];
    assert forall t :: t in before ==> t in cs;
    assert cs[..i + 1] == before + [cs[i]];
    TickEffectsAppend(before, cs[i], rs, al);
  }

  /** How the client list changes when the snapshot cursor passes `cs[i]`: a reaped socket
      leaves it, any other stays where it is. */
  lemma HeartbeatClientsStep(cs: seq<SocketId>, i: nat, rs: map<SocketId, ReadyState>, al: map<SocketId, bool>)
    requires NoDup(cs) && i < |cs|
    requires forall t :: t in cs ==> t in rs && t in al
    ensures Survivors(cs[..i + 1], rs, al) + cs[i + 1..]
            == if BeatFor(rs[cs[i]], al[cs[i]]) == Reap then Remove(Survivors(cs[..i], rs, al) + cs[i..], cs[i])
               else Survivors(cs[..i], rs, al) + cs[i..]
  {
    var s, before, after := cs[i], cs[..i], cs[i + 1..];
    var done := Survivors(before, rs, al);
    SurvivorsSplit(cs, i, rs, al);
    if BeatFor(rs[s], al[s]) == Reap {
      SurvivorsSkipReaped(cs, i, rs, al);
      SurvivorsShrink(done, s, after);
    } else {
      assert done + [s] + after == done + ([s] + after);
    }
  }

  lemma SurvivorsSplit(cs: seq<SocketId>, i: nat, rs: map<SocketId, ReadyState>, al: map<SocketId, bool>)
    requires i < |cs|
    requires forall t :: t in cs ==> t in rs && t in al
    ensures cs[i..] == [cs[i]] + cs[i + 1..]
    ensures Survivors(cs[..i + 1], rs, al)
            == Survivors(cs[..i], rs, al) + (if BeatFor(rs[cs[i]], al[cs[i]]) == Reap then [] else [cs[i]])
  {
    assert forall t :: t in cs[..i] ==> t in cs;
    SplitAt(cs, i);
    SurvivorsAppend(cs[..i], cs[i], rs, al);
  }

  lemma SurvivorsSkipReaped(cs: seq<SocketId>, i: nat, rs: map<SocketId, ReadyState>, al: map<SocketId, bool>)
    requires NoDup(cs) && i < |cs|
    requires forall t :: t in cs ==> t in rs && t in al
    ensures cs[i] !in Survivors(cs[..i], rs, al) && cs[i] !in cs[i + 1..]
  {
    NoDupAt(cs, i);
    assert forall t :: t in cs[..i] ==> t in cs;
    SurvivorsAre(cs[..i], rs, al, cs[i]);
  }

  /** Removing the socket at the cursor from `done + [x] + rest`. */
  lemma SurvivorsShrink(done: seq<SocketId>, x: SocketId, rest: seq<SocketId>)
    requires x !in done && x !in rest
    ensures Remove(done + ([x] + rest), x) == done + rest
  {
    RemoveConcat(done, [x] + rest, x);
    RemoveConcat([x], rest, x);
    assert Remove([x], x) == [];
  }

}
