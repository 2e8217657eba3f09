/** The replay engine of the backend: every 2 s it selects the commentary rows that became
    due since its checkpoint, spreads their delivery over the next 2 s and advances the
    checkpoint to the tick's clock reading. */
module Replay {
  import opened Common
  import opened Transport
  import opened WsServer

  /** `setInterval` period of the tick, and the spread of one tick's deliveries, in ms. */
  const Period: int := 2000

  /** The rows of the table with `lo < createdAt <= hi`, in table order. */
  function Window(table: seq<Commentary>, lo: int, hi: int): (r: seq<Commentary>)
    ensures forall c :: c in r <==> c in table && lo < c.createdAt <= hi
  {
    Filter(table, (c: Commentary) => lo < c.createdAt <= hi)
  }

  /** Each row occurs in the window as often as in the table when its time is inside it, and
      not at all otherwise. */
  lemma WindowCount(table: seq<Commentary>, lo: int, hi: int, c: Commentary)
    ensures multiset(Window(table, lo, hi))[c] == if lo < c.createdAt <= hi then multiset(table)[c] else 0
  {
    FilterMultiset(table, (x: Commentary) => lo < x.createdAt <= hi, c);
  }

  ghost predicate SortedByCreation(s: seq<Commentary>) {
    forall i, j :: 0 <= i < j < |s| ==> s[i].createdAt <= s[j].createdAt
  }

  /** `orderBy(commentary.createdAt)`: the query's answer is the window in ascending
      creation time. The database does not fix the order of rows with equal times, so an
      answer is any such arrangement. */
  ghost predicate Answers(table: seq<Commentary>, lo: int, hi: int, rows: seq<Commentary>) {
    SortedByCreation(rows) && multiset(rows) == multiset(Window(table, lo, hi))
  }

  /** A row placed before the first row of `s` created no earlier than it. */
  function Insert(c: Commentary, s: seq<Commentary>): (r: seq<Commentary>)
    ensures multiset(r) == multiset(s) + multiset{c}
  {
    if s == [] then [c]
    else if c.createdAt <= s[0].createdAt then [c] + s
    else
      assert s == [s[0]] + s[1..];
      [s[0]] + Insert(c, s[1..])
  }

  lemma {:induction false} InsertSorted(c: Commentary, s: seq<Commentary>)
    requires SortedByCreation(s)
    ensures SortedByCreation(Insert(c, s))
  {
    if s != [] && c.createdAt > s[0].createdAt {
      var rest := Insert(c, s[1..]);
      assert SortedByCreation(s[1..]) by {
        forall i, j | 0 <= i < j < |s| - 1 ensures s[1..][i].createdAt <= s[1..][j].createdAt {
          assert s[1..][i] == s[i + 1] && s[1..][j] == s[j + 1];
        }
      }
      InsertSorted(c, s[1..]);
      forall k | 0 <= k < |rest| ensures s[0].createdAt <= rest[k].createdAt {
        assert rest[k] in multiset(rest);
        assert rest[k] in multiset(s[1..]) || rest[k] == c;
        if rest[k] != c {
          var m :| 0 <= m < |s[1..]| && s[1..][m] == rest[k];
          assert s[m + 1] == rest[k];
        }
      }
    }
  }

  /** Rows in ascending creation time, equal times in their original order. */
  function SortByCreation(s: seq<Commentary>): (r: seq<Commentary>)
    ensures multiset(r) == multiset(s)
    ensures SortedByCreation(r)
  {
    if s == [] then []
    else
      assert s == [s[0]] + s[1..];
      var rest := SortByCreation(s[1..]);
      InsertSorted(s[0], rest);
      Insert(s[0], rest)
  }

  /** One answer the database may give: the stable sort of the window. */
  function Query(table: seq<Commentary>, lo: int, hi: int): (r: seq<Commentary>)
    ensures Answers(table, lo, hi, r)
  {
    SortByCreation(Window(table, lo, hi))
  }

  /** An answer holds exactly the rows of the window, each as often as the table does. */
  lemma AnswerRows(table: seq<Commentary>, lo: int, hi: int, rows: seq<Commentary>, c: Commentary)
    requires Answers(table, lo, hi, rows)
    ensures c in rows <==> c in table && lo < c.createdAt <= hi
    ensures multiset(rows)[c] == if lo < c.createdAt <= hi then multiset(table)[c] else 0
  {
    WindowCount(table, lo, hi, c);
    assert c in rows <==> c in multiset(rows);
    assert c in table <==> c in multiset(table);
  }

  /** `(2000 / N) * i`: the offset of row `i` of `N`, evaluated exactly. */
  function Delay(n: nat, i: nat): real
    requires i < n
  {
    (Period as real / n as real) * i as real
  }

  /** The first row goes out at once. */
  lemma DelayFirst(n: nat)
    requires 0 < n
    ensures Delay(n, 0) == 0.0
  {
  }

  /** Later rows go out strictly later, and all of them before the next tick. */
  lemma DelayOrder(n: nat, i: nat, j: nat)
    requires i < j < n
    ensures Delay(n, i) < Delay(n, j) < Period as real
  {
    var step := Period as real / n as real;
    assert step > 0.0;
    assert step * n as real == Period as real;
    assert step * i as real < step * j as real;
    assert step * j as real < step * n as real;
  }

  /** Row `i` of `N` goes out at `i / N` of the period. */
  lemma DelayFraction(n: nat, i: nat)
    requires i < n
    ensures Delay(n, i) * n as real == Period as real * i as real
  {
  }

  /** A pending `setTimeout` delivery: when it fires (tick time plus delay) and the row. */
  datatype Timer = Timer(due: real, event: Commentary)

  /** The deliveries one successful tick at `now` schedules for its rows, in row order. */
  function Schedule(now: int, rows: seq<Commentary>): (r: seq<Timer>)
    ensures |r| == |rows|
    ensures forall i :: 0 <= i < |r| ==> r[i].event == rows[i]
  {
    seq(|rows|, i requires 0 <= i < |rows| => Timer(now as real + Delay(|rows|, i), rows[i]))
  }

  /** The deliveries of one tick start at the tick, keep the rows' order, and all fall
      before the next tick. */
  lemma ScheduleTimes(now: int, rows: seq<Commentary>, i: nat, j: nat)
    requires i < j < |rows|
    ensures Schedule(now, rows)[0].due == now as real
    ensures Schedule(now, rows)[i].due < Schedule(now, rows)[j].due < (now + Period) as real
  {
    DelayFirst(|rows|);
    DelayOrder(|rows|, i, j);
  }

  /** What the `await db.select()` of a tick produced. */
  datatype QueryResult = Failed | Rows(rows: seq<Commentary>)

  /** A tick as the checkpoint sees it: the clock reading and whether the query succeeded. */
  datatype TickRun = TickRun(now: int, ok: bool)

  /** The checkpoint after the ticks `ts`, from the initial checkpoint `cp0`. */
  function Checkpoint(cp0: int, ts: seq<TickRun>): int
    decreases |ts|
  {
    if ts == [] then cp0
    else
      var last := ts[|ts| - 1];
      if last.ok then last.now else Checkpoint(cp0, ts[..|ts| - 1])
  }

  class Engine {
    /** `lastSimulationCheck`, in ms since the epoch. */
    var lastSimulationCheck: int
    /** The deliveries scheduled and not yet fired. */
    var pending: seq<Timer>
    /** The checkpoint the process started with, and every tick run since. */
    ghost var start: int
    ghost var history: seq<TickRun>

    /** The checkpoint is the one the ticks so far leave behind. */
    ghost predicate Valid()
      reads this
    {
      lastSimulationCheck == Checkpoint(start, history)
    }

    /** The checkpoint starts at the process start time. */
    constructor (start: int)
      ensures lastSimulationCheck == start && pending == []
      ensures this.start == start && history == [] && Valid()
    {
      lastSimulationCheck := start;
      pending := [];
      this.start := start;
      history := [];
    }

    /** One tick at clock reading `now`, whose query answered `result`: a failed query
        changes nothing; otherwise each row is scheduled and the checkpoint becomes `now`,
        also when no row came back. The tick is recorded in the history. */
    method Tick(now: int, ghost table: seq<Commentary>, result: QueryResult)
      requires Valid()
      requires result.Rows? ==> Answers(table, lastSimulationCheck, now, result.rows)
      modifies this
      ensures Valid() && start == old(start)
      ensures history == old(history) + [TickRun(now, result.Rows?)]
      ensures result.Failed? ==> lastSimulationCheck == old(lastSimulationCheck) && pending == old(pending)
      ensures result.Rows? ==> lastSimulationCheck == now && pending == old(pending) + Schedule(now, result.rows)
    {
      ghost var ran := history;
      history := history + [TickRun(now, result.Rows?)];
      assert history[..|history| - 1] == ran;
      if result.Failed? {
        return;
      }
      RecordRows(now, result.rows);
    }

    /** The successful branch of `Tick`: the rows are scheduled, then the checkpoint moves. */
    method RecordRows(now: int, newEvents: seq<Commentary>)
      modifies this`pending, this`lastSimulationCheck
      ensures lastSimulationCheck == now && pending == old(pending) + Schedule(now, newEvents)
    {
      ghost var before := pending;
      for i := 0 to |newEvents|
        invariant pending == before + Schedule(now, newEvents)[..i]
      {
        var delay := (Period as real / |newEvents| as real) * i as real;
        assert Schedule(now, newEvents)[i] == Timer(now as real + delay, newEvents[i]);
        pending := pending + [Timer(now as real + delay, newEvents[i])];
        assert Schedule(now, newEvents)[..i + 1] == Schedule(now, newEvents)[..i] + [Schedule(now, newEvents)[i]];
      }
      assert Schedule(now, newEvents)[..|newEvents|] == Schedule(now, newEvents);
      lastSimulationCheck := now;
    }

    /** The `k`-th pending delivery fires: `broadcastCommentary(event.matchId, event)`. */
    method Fire(k: nat, server: Server)
      requires k < |pending| && server.Valid()
      modifies this`pending, server`effects
      ensures pending == old(pending[..k] + pending[k + 1..])
      ensures var c := old(pending[k].event);
              && (c.matchId !in server.matchSubscribers ==> server.effects == old(server.effects))
              && (c.matchId in server.matchSubscribers ==>
                    server.effects == old(server.effects)
                                      + SendToOpen(server.matchSubscribers[c.matchId], server.readyState, CommentaryUpdate(c)))
    {
      var event := pending[k].event;
      pending := pending[..k] + pending[k + 1..];
      server.BroadcastCommentary(event.matchId, event);
    }

    /** On every run of ticks whose clock never went backwards, a row created at `c` has
        been selected exactly once when `start < c <= lastSimulationCheck`, and never
        otherwise. */
    lemma SelectedOnceSoFar(c: int)
      requires Valid() && Monotone(start, history)
      ensures Selections(start, history, c) == if start < c <= lastSimulationCheck then 1 else 0
    {
      SelectedExactlyOnce(start, history, c);
    }
  }

  /** How many of the ticks `ts` select a row created at `c`. */
  function Selections(cp0: int, ts: seq<TickRun>, c: int): nat
    decreases |ts|
  {
    if ts == [] then 0
    else
      var last := ts[|ts| - 1];
      var cp := Checkpoint(cp0, ts[..|ts| - 1]);
      Selections(cp0, ts[..|ts| - 1], c) + if last.ok && cp < c <= last.now then 1 else 0
  }

  /** Clock readings that never go backwards and never precede the initial checkpoint. */
  ghost predicate Monotone(cp0: int, ts: seq<TickRun>) {
    && (forall i :: 0 <= i < |ts| ==> cp0 <= ts[i].now)
    && (forall i, j :: 0 <= i < j < |ts| ==> ts[i].now <= ts[j].now)
  }

  /** The checkpoint lies between its start and any clock reading not below the ticks'. */
  lemma {:induction false} CheckpointBounds(cp0: int, ts: seq<TickRun>, bound: int)
    requires Monotone(cp0, ts)
    requires cp0 <= bound && forall i :: 0 <= i < |ts| ==> ts[i].now <= bound
    ensures cp0 <= Checkpoint(cp0, ts) <= bound
    decreases |ts|
  {
    if ts != [] {
      var init := ts[..|ts| - 1];
      assert forall i :: 0 <= i < |init| ==> init[i] == ts[i];
      CheckpointBounds(cp0, init, bound);
    }
  }

  /** Over ticks whose clock never goes backwards, failed ticks included, a row is selected
      exactly once when it was created after the initial checkpoint and no later than the
      final one, and never otherwise; in particular rows from before the process started are
      never replayed. */
  lemma {:induction false} SelectedExactlyOnce(cp0: int, ts: seq<TickRun>, c: int)
    requires Monotone(cp0, ts)
    ensures Selections(cp0, ts, c) == if cp0 < c <= Checkpoint(cp0, ts) then 1 else 0
    decreases |ts|
  {
    if ts != [] {
      var init := ts[..|ts| - 1];
      var last := ts[|ts| - 1];
      assert forall i :: 0 <= i < |init| ==> init[i] == ts[i];
      assert Monotone(cp0, init);
      SelectedExactlyOnce(cp0, init, c);
      CheckpointBounds(cp0, init, last.now);
    }
  }
}
