/** The clock arithmetic of the seed script: reading dates, deciding whether a match is
    live, the start and end times given to a match created over the API, the pause between
    created matches, and the rows the direct database seeding writes (match times, the
    commentary rows with their temporal offsets, and the batches of 500 they go out in). */
module SeedTimes {
  import opened Common
  import opened SeedText
  import opened SeedData
  import MatchStatus

  /** `new Date(text).getTime()`: milliseconds since the epoch, or `None` for an invalid date.
      Date-string parsing is not modelled; the parser is a parameter. */
  type DateParser = string -> Option<int>

  /** `parseDate(value)`: a falsy value is no date, any other is what the parser makes of it. */
  function ParseDate(value: Field<string>, parse: DateParser): Option<int> {
    if Falsy(value) then None else parse(value.v)
  }

  /** `isLiveMatch(match)` at the instant `now`. */
  function IsLiveMatch(startTime: Field<string>, endTime: Field<string>, now: int, parse: DateParser): bool {
    var start := ParseDate(startTime, parse);
    var end := ParseDate(endTime, parse);
    if start.None? || end.None? then false
    else now >= start.value && now < end.value
  }

  /** `isLiveMatch` agrees with the status classifier of the backend: a match is live to the
      seed script exactly when `getMatchStatus` would call it live. */
  lemma IsLiveMatchIsLiveStatus(startTime: Field<string>, endTime: Field<string>, now: int, parse: DateParser)
    ensures IsLiveMatch(startTime, endTime, now, parse)
            <==> MatchStatus.GetMatchStatus(ParseDate(startTime, parse), ParseDate(endTime, parse), now) == Some(Live)
  {
  }

  /** Neither a falsy start nor a falsy end time can be live. */
  lemma FalsyTimesNotLive(startTime: Field<string>, endTime: Field<string>, now: int, parse: DateParser)
    requires Falsy(startTime) || Falsy(endTime)
    ensures !IsLiveMatch(startTime, endTime, now, parse)
  {
  }

  /** `SEED_MATCH_DURATION_MINUTES` when it is not set. */
  const DefaultMatchDurationMinutes: int := 120

  /** The five minutes a forced or default start lies before `now`. */
  const FiveMinutesMs: int := 5 * 60 * 1000

  datatype MatchTimes = MatchTimes(startTime: int, endTime: int)

  /** The start and end after the filling step: both missing gives a match that started five
      minutes ago, a missing end lies one duration after the start, a missing start one
      duration before the end. */
  function FilledTimes(start: Option<int>, end: Option<int>, now: int, durationMs: int): (Option<int>, Option<int>) {
    if start.None? && end.None? then (Some(now - FiveMinutesMs), Some(now - FiveMinutesMs + durationMs))
    else
      var end' := if start.Some? && end.None? then Some(start.value + durationMs) else end;
      var start' := if start.None? && end'.Some? then Some(end'.value - durationMs) else start;
      (start', end')
  }

  /** `buildMatchTimes(seedMatch)` with the clock at `now`, the configured duration and the
      `SEED_FORCE_LIVE` switch; `None` stands for the `throw`. */
  function BuildMatchTimes(startTime: Field<string>, endTime: Field<string>, now: int, durationMinutes: int,
                           forceLive: bool, parse: DateParser): Option<MatchTimes>
  {
    var durationMs := durationMinutes * 60 * 1000;
    var filled := FilledTimes(ParseDate(startTime, parse), ParseDate(endTime, parse), now, durationMs);
    var start, end := filled.0, filled.1;
    var forced :=
      if forceLive && start.Some? && end.Some? && !(now >= start.value && now < end.value) then
        (Some(now - FiveMinutesMs), Some(now - FiveMinutesMs + durationMs))
      else (start, end);
    if forced.0.None? || forced.1.None? then None
    else Some(MatchTimes(forced.0.value, forced.1.value))
  }

  /** The `throw` of `buildMatchTimes` is unreachable: after the filling step both times
      are always set. */
  lemma BuildMatchTimesNeverThrows(startTime: Field<string>, endTime: Field<string>, now: int, durationMinutes: int,
                                   forceLive: bool, parse: DateParser)
    ensures BuildMatchTimes(startTime, endTime, now, durationMinutes, forceLive, parse).Some?
  {
  }

  /** Without `SEED_FORCE_LIVE` the times are the parsed ones, a missing one filled in one
      duration away from the other, and both missing start five minutes before `now`. */
  lemma BuildMatchTimesFills(startTime: Field<string>, endTime: Field<string>, now: int, durationMinutes: int,
                             parse: DateParser)
    ensures var r := BuildMatchTimes(startTime, endTime, now, durationMinutes, false, parse).value;
            var start, end, d := ParseDate(startTime, parse), ParseDate(endTime, parse), durationMinutes * 60000;
            && (start.Some? && end.Some? ==> r == MatchTimes(start.value, end.value))
            && (start.Some? && end.None? ==> r == MatchTimes(start.value, start.value + d))
            && (start.None? && end.Some? ==> r == MatchTimes(end.value - d, end.value))
            && (start.None? && end.None? ==> r == MatchTimes(now - 300000, now - 300000 + d))
  {
  }

  /** With `SEED_FORCE_LIVE` and a duration of more than five minutes, the match is always
      live at `now`; times that were already live are kept as filled in. */
  lemma BuildMatchTimesForcedLive(startTime: Field<string>, endTime: Field<string>, now: int, durationMinutes: int,
                                  parse: DateParser)
    requires durationMinutes * 60000 > FiveMinutesMs
    ensures var r := BuildMatchTimes(startTime, endTime, now, durationMinutes, true, parse).value;
            r.startTime <= now < r.endTime
    ensures var r := BuildMatchTimes(startTime, endTime, now, durationMinutes, true, parse).value;
            var kept := BuildMatchTimes(startTime, endTime, now, durationMinutes, false, parse).value;
            kept.startTime <= now < kept.endTime ==> r == kept
  {
  }

  /** With a duration of five minutes or less a forced start does not make the match live:
      the forced end is not after `now`. */
  lemma ShortForcedMatchNotLive(now: int, durationMinutes: int, parse: DateParser)
    requires durationMinutes * 60000 <= FiveMinutesMs
    ensures var r := BuildMatchTimes(Undefined, Undefined, now, durationMinutes, true, parse).value;
            !(r.startTime <= now < r.endTime)
  {
  }

  const NewMatchDelayMinMs: int := 2000
  const NewMatchDelayMaxMs: int := 3000

  /** `randomMatchDelay()`, with `draw` the value `Math.random()` returned. */
  function RandomMatchDelay(draw: real): (r: int)
    requires 0.0 <= draw < 1.0
    ensures NewMatchDelayMinMs <= r <= NewMatchDelayMaxMs
  {
    var range := NewMatchDelayMaxMs - NewMatchDelayMinMs;
    var offset := (draw * (range + 1) as real).Floor;
    assert 0 <= offset <= range by {
      assert 0.0 <= draw * (range + 1) as real < (range + 1) as real;
    }
    NewMatchDelayMinMs + offset
  }

  /** Every whole number of milliseconds between the two bounds is a possible delay. */
  lemma RandomMatchDelayCovers(k: int)
    requires 0 <= k <= NewMatchDelayMaxMs - NewMatchDelayMinMs
    ensures RandomMatchDelay(k as real / 1001.0) == NewMatchDelayMinMs + k
  {
    assert k as real / 1001.0 * 1001.0 == k as real;
  }

  // ---------------------------------------------------------------------------------
  // Direct database seeding.

  /** A row written to the matches table, before the database gives it an id. */
  datatype MatchInsert = MatchInsert(
    sport: Field<string>, homeTeam: Field<string>, awayTeam: Field<string>,
    startTime: int, endTime: int, homeScore: int, awayScore: int, status: Status)

  /** `value || 0` for a JSON number. */
  function OrZero(f: Field<int>): int {
    if f.Val? then f.v else 0
  }

  /** The row for the seed match at `index`, with the clock read once as `baseNow`. */
  function MatchInsertFor(m: SeedMatch, index: nat, baseNow: int): MatchInsert {
    var start := baseNow + (index * 60 + 10) * 1000;
    MatchInsert(m.sport, m.homeTeam, m.awayTeam, start, start + 120 * 60 * 1000,
                OrZero(m.homeScore), OrZero(m.awayScore), Live)
  }

  /** The rows of the matches insert: one per seed match, none for an empty list. */
  function MatchInserts(ms: seq<SeedMatch>, baseNow: int): (r: seq<MatchInsert>)
    ensures |r| == |ms|
  {
    seq(|ms|, i requires 0 <= i < |ms| => MatchInsertFor(ms[i], i, baseNow))
  }

  /** The seeded matches start ten seconds after `baseNow` and one minute apart, each lasts
      two hours, all are live, and teams, sport and (defaulted) scores are the seed's. */
  lemma MatchInsertsSchedule(ms: seq<SeedMatch>, baseNow: int)
    ensures var r := MatchInserts(ms, baseNow);
      && (forall i :: 0 <= i < |r| ==> r[i].startTime == baseNow + 10000 + 60000 * i)
      && (forall i :: 0 <= i < |r| ==> r[i].endTime - r[i].startTime == 7200000)
      && (forall i, j :: 0 <= i < j < |r| ==> r[j].startTime - r[i].startTime == 60000 * (j - i))
      && (forall i :: 0 <= i < |r| ==> r[i].status == Live)
      && (forall i :: 0 <= i < |r| ==>
            r[i].sport == ms[i].sport && r[i].homeTeam == ms[i].homeTeam && r[i].awayTeam == ms[i].awayTeam)
      && (forall i :: 0 <= i < |r| ==>
            r[i].homeScore == (if ms[i].homeScore.Val? then ms[i].homeScore.v else 0) &&
            r[i].awayScore == (if ms[i].awayScore.Val? then ms[i].awayScore.v else 0))
  {
  }

  /** `array.find(predicate)`: the first element that satisfies it. */
  function Find<T>(s: seq<T>, p: T -> bool): (r: Option<T>)
    ensures r.Some? ==> r.value in s && p(r.value)
  {
    if s == [] then None else if p(s[0]) then Some(s[0]) else Find(s[1..], p)
  }

  /** `find` finds nothing exactly when no element qualifies, and otherwise the first one. */
  lemma {:induction false} FindFirst<T>(s: seq<T>, p: T -> bool)
    ensures Find(s, p).None? <==> forall i :: 0 <= i < |s| ==> !p(s[i])
    ensures Find(s, p).Some? ==> exists i :: 0 <= i < |s| && s[i] == Find(s, p).value && forall j :: 0 <= j < i ==> !p(s[j])
  {
    if s != [] && !p(s[0]) {
      FindFirst(s[1..], p);
      if Find(s[1..], p).Some? {
        var i :| 0 <= i < |s[1..]| && s[1..][i] == Find(s, p).value && forall j :: 0 <= j < i ==> !p(s[1..][j]);
        assert s[i + 1] == Find(s, p).value;
        forall j | 0 <= j < i + 1 ensures !p(s[j]) {
          if j > 0 { assert s[j] == s[1..][j - 1]; }
        }
      } else {
        forall i | 0 <= i < |s| ensures !p(s[i]) {
          if i > 0 { assert s[i] == s[1..][i - 1]; }
        }
      }
    }
  }

  function HasSeedId(n: int): SeedMatch -> bool {
    (m: SeedMatch) => m.id == IntRef(n)
  }

  function HasTeams(home: Field<string>, away: Field<string>): Match -> bool {
    (m: Match) => Val(m.homeTeam) == home && Val(m.awayTeam) == away
  }

  function HasId(id: MatchRef): Match -> bool {
    (m: Match) => id == StrRef(m.id)
  }

  /** The stored match an entry belongs to: for a numeric id, the stored match with the
      teams of the first seed match of that id; otherwise the stored match of that id. */
  function DbMatchFor(e: FeedEntry, ms: seq<SeedMatch>, all: seq<Match>): Option<Match> {
    match e.matchId
    case IntRef(n) =>
      var seedMatch := Find(ms, HasSeedId(n));
      if seedMatch.None? then None
      else Find(all, HasTeams(seedMatch.value.homeTeam, seedMatch.value.awayTeam))
    case _ => Find(all, HasId(e.matchId))
  }

  /** A commentary row as the mapping callback builds it. */
  datatype CommentaryInsert = CommentaryInsert(matchId: MatchRef, entry: FeedEntry, createdAt: int)

  /** The mapping callback: `null` without a stored match, else the row with the stored
      match's id and a time `minute * 10` seconds after the match's start. */
  function CommentaryValue(e: FeedEntry, ms: seq<SeedMatch>, all: seq<Match>): Option<CommentaryInsert> {
    var dbMatch := DbMatchFor(e, ms, all);
    if dbMatch.None? then None
    else
      var matchId := if e.matchId.IntRef? then StrRef(dbMatch.value.id) else e.matchId;
      var offsetSeconds := OrZero(e.minute) * 10;
      Some(CommentaryInsert(matchId, e, dbMatch.value.startTime + offsetSeconds * 1000))
  }

  /** `.filter(c => c !== null && typeof c.matchId === 'string')`. */
  function KeepRows(s: seq<Option<CommentaryInsert>>): seq<CommentaryInsert> {
    if s == [] then []
    else (if s[0].Some? && s[0].value.matchId.StrRef? then [s[0].value] else []) + KeepRows(s[1..])
  }

  function MappedRows(feed: seq<FeedEntry>, ms: seq<SeedMatch>, all: seq<Match>): (r: seq<Option<CommentaryInsert>>)
    ensures |r| == |feed|
  {
    seq(|feed|, i requires 0 <= i < |feed| => CommentaryValue(feed[i], ms, all))
  }

  /** `commentaryValues` of `seedDatabase`. */
  function CommentaryValues(feed: seq<FeedEntry>, ms: seq<SeedMatch>, all: seq<Match>): seq<CommentaryInsert> {
    KeepRows(MappedRows(feed, ms, all))
  }

  /** A row is written exactly for an entry that has a stored match; it carries that match's
      id and is timed `minute * 10` seconds after its start (a missing minute counts as 0).
      For a numeric id the stored match has the teams of the seed match of that id. */
  lemma CommentaryValueShape(e: FeedEntry, ms: seq<SeedMatch>, all: seq<Match>)
    ensures CommentaryValue(e, ms, all).Some? <==> DbMatchFor(e, ms, all).Some?
    ensures var row := CommentaryValue(e, ms, all);
            row.Some? ==>
              var dbMatch := DbMatchFor(e, ms, all).value;
              && dbMatch in all
              && row.value.matchId == StrRef(dbMatch.id)
              && row.value.entry == e
              && row.value.createdAt == dbMatch.startTime + (if e.minute.Val? then e.minute.v else 0) * 10000
    ensures e.matchId.IntRef? && DbMatchFor(e, ms, all).Some? ==>
              var seedMatch := Find(ms, HasSeedId(e.matchId.n));
              && seedMatch.Some? && seedMatch.value.id == e.matchId
              && Val(DbMatchFor(e, ms, all).value.homeTeam) == seedMatch.value.homeTeam
              && Val(DbMatchFor(e, ms, all).value.awayTeam) == seedMatch.value.awayTeam
  {
  }

  /** Only the `null` results of the callback are filtered out: every row it builds has a
      string match id, so the `typeof` test never drops one. */
  lemma {:induction false} KeepRowsDropsOnlyNull(s: seq<Option<CommentaryInsert>>)
    requires forall i :: 0 <= i < |s| && s[i].Some? ==> s[i].value.matchId.StrRef?
    ensures |KeepRows(s)| == |s| - Nulls(s)
    ensures forall x :: x in KeepRows(s) <==> Some(x) in s
  {
    if s != [] {
      KeepRowsDropsOnlyNull(s[1..]);
      assert forall x :: Some(x) in s <==> Some(x) == s[0] || Some(x) in s[1..];
    }
  }

  function Nulls(s: seq<Option<CommentaryInsert>>): nat {
    if s == [] then 0 else (if s[0].None? then 1 else 0) + Nulls(s[1..])
  }

  /** The rows written are one per entry that has a stored match, in feed order. */
  lemma CommentaryValuesAre(feed: seq<FeedEntry>, ms: seq<SeedMatch>, all: seq<Match>)
    ensures |CommentaryValues(feed, ms, all)| == |feed| - Nulls(MappedRows(feed, ms, all))
    ensures forall x :: x in CommentaryValues(feed, ms, all) <==>
              exists i :: 0 <= i < |feed| && CommentaryValue(feed[i], ms, all) == Some(x)
  {
    var s := MappedRows(feed, ms, all);
    forall i | 0 <= i < |s| && s[i].Some? ensures s[i].value.matchId.StrRef? {
      CommentaryValueShape(feed[i], ms, all);
    }
    KeepRowsDropsOnlyNull(s);
    forall x ensures Some(x) in s <==> exists i :: 0 <= i < |feed| && CommentaryValue(feed[i], ms, all) == Some(x) {
      if Some(x) in s {
        var i :| 0 <= i < |s| && s[i] == Some(x);
        assert CommentaryValue(feed[i], ms, all) == Some(x);
      }
      if exists i :: 0 <= i < |feed| && CommentaryValue(feed[i], ms, all) == Some(x) {
        var i :| 0 <= i < |feed| && CommentaryValue(feed[i], ms, all) == Some(x);
        assert s[i] == Some(x);
      }
    }
  }

  /** An entry of a seeded match lands inside that match's two hours exactly when its minute
      is below 720. */
  lemma CreatedAtWithinMatch(m: SeedMatch, index: nat, baseNow: int, minute: Field<int>)
    ensures var row := MatchInsertFor(m, index, baseNow);
            var createdAt := row.startTime + OrZero(minute) * 10 * 1000;
            row.startTime <= createdAt < row.endTime <==> 0 <= OrZero(minute) < 720
  {
  }

  const ChunkSize: nat := 500

  function Min(a: int, b: int): int {
    if a <= b then a else b
  }

  /** The slices `values.slice(i, i + 500)` for `i = 0, 500, 1000, ...`. */
  function Chunks<T>(values: seq<T>): seq<seq<T>>
    decreases |values|
  {
    if |values| == 0 then []
    else
      var n := Min(ChunkSize, |values|);
      [values[..n]] + Chunks(values[n..])
  }

  function Flatten<T>(css: seq<seq<T>>): seq<T> {
    if css == [] then [] else css[0] + Flatten(css[1..])
  }

  /** The batches put back together give the whole list, in order. */
  lemma {:induction false} ChunksFlatten<T>(values: seq<T>)
    ensures Flatten(Chunks(values)) == values
    decreases |values|
  {
    if |values| > 0 {
      var n := Min(ChunkSize, |values|);
      ChunksFlatten(values[n..]);
      assert values[..n] + values[n..] == values;
    }
  }

  /** Every batch holds between 1 and 500 rows, and every batch but the last exactly 500. */
  lemma {:induction false} ChunksSizes<T>(values: seq<T>)
    ensures forall i :: 0 <= i < |Chunks(values)| ==> 0 < |Chunks(values)[i]| <= ChunkSize
    ensures forall i :: 0 <= i < |Chunks(values)| - 1 ==> |Chunks(values)[i]| == ChunkSize
    decreases |values|
  {
    if |values| > 0 {
      var n := Min(ChunkSize, |values|);
      ChunksSizes(values[n..]);
      var cs := Chunks(values);
      var tail := Chunks(values[n..]);
      assert cs == [values[..n]] + tail;
      assert n < ChunkSize ==> tail == [];
      forall i | 0 <= i < |cs| ensures 0 < |cs[i]| <= ChunkSize && (i < |cs| - 1 ==> |cs[i]| == ChunkSize) {
        if i > 0 {
          assert cs[i] == tail[i - 1];
        }
      }
    }
  }

  /** There are `ceil(|values| / 500)` batches. */
  lemma {:induction false} ChunksCount<T>(values: seq<T>)
    ensures |Chunks(values)| == (|values| + ChunkSize - 1) / ChunkSize
    decreases |values|
  {
    if |values| > 0 {
      var n := Min(ChunkSize, |values|);
      ChunksCount(values[n..]);
    }
  }

  lemma ChunksFrom<T>(values: seq<T>, i: nat)
    requires i < |values|
    ensures Chunks(values[i..])
            == [values[i..Min(i + ChunkSize, |values|)]] + Chunks(values[Min(i + ChunkSize, |values|)..])
  {
    var n := Min(ChunkSize, |values| - i);
    assert values[i..][..n] == values[i..Min(i + ChunkSize, |values|)];
    assert values[i..][n..] == values[Min(i + ChunkSize, |values|)..];
  }

  /** The insert loop of `seedDatabase`: the batches it hands to the database, in order. */
  method InsertInChunks<T>(values: seq<T>) returns (batches: seq<seq<T>>)
    ensures batches == Chunks(values)
  {
    batches := [];
    var i := 0;
    while i < |values|
      invariant batches + Chunks(values[Min(i, |values|)..]) == Chunks(values)
      decreases |values| - i
    {
      ChunksFrom(values, i);
      var batch := values[i..Min(i + ChunkSize, |values|)];
      batches := batches + [batch];
      i := i + ChunkSize;
    }
    assert values[Min(i, |values|)..] == [];
  }
}
