/** `buildRandomizedFeed`: the expanded feed is split into one bucket per integer match
    id (every other matchId shares the `null` bucket), the buckets of cricket matches are
    normalised, and the buckets are then drained one entry at a time, never drawing from
    the bucket drawn last while another bucket still has entries. `Math.random()` is the
    oracle `random`: its `k`-th value is the draw of the `k`-th iteration. */
module SeedRandom {
  import opened Common
  import opened SeedText
  import opened SeedData
  import opened SeedCricket

  /** A bucket key: an integer match id, or `None` for the shared `null` bucket. */
  type BucketKey = Option<int>

  /** `Number.isInteger(entry.matchId) ? entry.matchId : null`. */
  function KeyOf(e: FeedEntry): BucketKey {
    if e.matchId.IntRef? then Some(e.matchId.n) else None
  }

  function InBucket(b: BucketKey): FeedEntry -> bool {
    (e: FeedEntry) => KeyOf(e) == b
  }

  /** The keys of `buckets` in insertion order: as first seen in the feed. */
  function BucketKeys(feed: seq<FeedEntry>): (r: seq<BucketKey>)
    ensures NoDup(r)
  {
    if feed == [] then []
    else
      var keys := BucketKeys(feed[..|feed| - 1]);
      var key := KeyOf(feed[|feed| - 1]);
      if key in keys then keys else keys + [key]
  }

  lemma {:induction false} BucketKeysMembers(feed: seq<FeedEntry>, b: BucketKey)
    ensures b in BucketKeys(feed) <==> exists e :: e in feed && KeyOf(e) == b
  {
    if feed != [] {
      var init := feed[..|feed| - 1];
      BucketKeysMembers(init, b);
      assert feed == init + [feed[|feed| - 1]];
      assert forall e :: e in feed <==> e in init || e == feed[|feed| - 1];
    }
  }

  /** The bucket of key `b`: its entries in feed order. */
  function Bucket(feed: seq<FeedEntry>, b: BucketKey): seq<FeedEntry> {
    Filter(feed, InBucket(b))
  }

  /** `buckets` once the bucketing loop has seen `feed`. */
  function Buckets(feed: seq<FeedEntry>): map<BucketKey, seq<FeedEntry>> {
    map b | b in BucketKeys(feed) :: Bucket(feed, b)
  }

  /** One step of the bucketing loop. */
  function PushBucket(buckets: map<BucketKey, seq<FeedEntry>>, e: FeedEntry): map<BucketKey, seq<FeedEntry>> {
    var key := KeyOf(e);
    var withKey := if key in buckets then buckets else buckets[key := []];
    withKey[key := withKey[key] + [e]]
  }

  lemma BucketKeysStep(feed: seq<FeedEntry>, e: FeedEntry)
    ensures BucketKeys(feed + [e]) == if KeyOf(e) in BucketKeys(feed) then BucketKeys(feed) else BucketKeys(feed) + [KeyOf(e)]
  {
    assert (feed + [e])[..|feed|] == feed;
  }

  lemma BucketPush(feed: seq<FeedEntry>, e: FeedEntry, b: BucketKey)
    ensures Bucket(feed + [e], b)
            == (if b in BucketKeys(feed) then Bucket(feed, b) else []) + (if KeyOf(e) == b then [e] else [])
  {
    FilterDistributes(feed, [e], InBucket(b));
    if b !in BucketKeys(feed) {
      BucketKeysMembers(feed, b);
      FilterNone(feed, InBucket(b));
    }
  }

  lemma PushedAt(feed: seq<FeedEntry>, e: FeedEntry, b: BucketKey)
    requires b in PushBucket(Buckets(feed), e)
    ensures b in Buckets(feed + [e]) && PushBucket(Buckets(feed), e)[b] == Buckets(feed + [e])[b]
  {
    BucketKeysStep(feed, e);
    BucketPush(feed, e, b);
  }

  lemma PushedKeys(feed: seq<FeedEntry>, e: FeedEntry)
    ensures PushBucket(Buckets(feed), e).Keys == Buckets(feed + [e]).Keys
  {
    BucketKeysStep(feed, e);
  }

  lemma BucketsStep(feed: seq<FeedEntry>, e: FeedEntry)
    ensures PushBucket(Buckets(feed), e) == Buckets(feed + [e])
  {
    var pushed := PushBucket(Buckets(feed), e);
    var next := Buckets(feed + [e]);
    forall b | b in pushed ensures pushed[b] == next[b] {
      PushedAt(feed, e, b);
    }
    PushedKeys(feed, e);
  }

  /** The bucketing loop. */
  method BucketFeed(feed: seq<FeedEntry>) returns (buckets: map<BucketKey, seq<FeedEntry>>, keys: seq<BucketKey>)
    ensures buckets == Buckets(feed)
    ensures keys == BucketKeys(feed)
  {
    buckets := map[];
    keys := [];
    for i := 0 to |feed|
      invariant buckets == Buckets(feed[..i])
      invariant keys == BucketKeys(feed[..i])
    {
      var entry := feed[i];
      assert feed[..i + 1] == feed[..i] + [entry];
      BucketKeysStep(feed[..i], entry);
      BucketsStep(feed[..i], entry);
      ghost var before := buckets;
      var key := if entry.matchId.IntRef? then Some(entry.matchId.n) else None;
      if key !in buckets {
        buckets := buckets[key := []];
        keys := keys + [key];
      }
      buckets := buckets[key := buckets[key] + [entry]];
      assert buckets == PushBucket(before, entry);
    }
    assert feed[..|feed|] == feed;
  }

  /** `target?.match?.sport?.toLowerCase() === "cricket"` for an integer key; `targets`
      holds the matches `matchMap` gives for integer ids. */
  predicate IsCricket(targets: map<int, Match>, b: BucketKey) {
    b.Some? && b.value in targets && Lower(targets[b.value].sport) == "cricket"
  }

  /** A bucket after the normalisation loop. */
  function Prepare(targets: map<int, Match>, b: BucketKey, entries: seq<FeedEntry>): seq<FeedEntry> {
    if IsCricket(targets, b) then Normalized(entries, Val(targets[b.value].homeTeam), Val(targets[b.value].awayTeam))
    else entries
  }

  /** The buckets the interleaving draws from. */
  function Prepared(feed: seq<FeedEntry>, targets: map<int, Match>): map<BucketKey, seq<FeedEntry>> {
    map b | b in BucketKeys(feed) :: Prepare(targets, b, Bucket(feed, b))
  }

  /** The normalisation loop over the buckets in insertion order; each key is rewritten
      only in its own iteration, so every iteration sees the bucket as grouped. */
  method NormalizeBuckets(buckets: map<BucketKey, seq<FeedEntry>>, keys: seq<BucketKey>, targets: map<int, Match>)
    returns (prepared: map<BucketKey, seq<FeedEntry>>)
    requires NoDup(keys) && forall b :: b in keys ==> b in buckets
    ensures prepared.Keys == buckets.Keys
    ensures forall b :: b in prepared ==> prepared[b] == if b in keys then Prepare(targets, b, buckets[b]) else buckets[b]
  {
    prepared := buckets;
    for i := 0 to |keys|
      invariant prepared.Keys == buckets.Keys
      invariant forall b :: b in prepared ==> prepared[b] == if b in keys[..i] then Prepare(targets, b, buckets[b]) else buckets[b]
    {
      var matchId := keys[i];
      NoDupAt(keys, i);
      assert forall b :: b in keys[..i + 1] <==> b in keys[..i] || b == matchId by {
        assert keys[..i + 1] == keys[..i] + [matchId];
      }
      assert prepared[matchId] == buckets[matchId];
      prepared := NormalizeBucket(prepared, matchId, targets);
    }
    assert keys[..|keys|] == keys;
  }

  /** One iteration of the normalisation loop. */
  method NormalizeBucket(buckets: map<BucketKey, seq<FeedEntry>>, matchId: BucketKey, targets: map<int, Match>)
    returns (updated: map<BucketKey, seq<FeedEntry>>)
    requires matchId in buckets
    ensures updated == buckets[matchId := Prepare(targets, matchId, buckets[matchId])]
  {
    updated := buckets;
    var entries := buckets[matchId];
    if matchId.Some? && matchId.value in targets {
      var target := targets[matchId.value];
      if Lower(target.sport) == "cricket" {
        var normalized := NormalizeCricketFeed(entries, Val(target.homeTeam), Val(target.awayTeam));
        updated := updated[matchId := normalized];
      }
    }
  }

  /** One iteration's draw: which bucket, and the entry shifted off it. */
  datatype Draw = Draw(bucket: BucketKey, entry: FeedEntry)

  /** `candidates`: the keys whose bucket still has entries, in key order
      (`matchIds.filter((id) => (buckets.get(id) || []).length > 0)`). */
  function Candidates(rest: map<BucketKey, seq<FeedEntry>>, keys: seq<BucketKey>): (r: seq<BucketKey>)
    ensures forall b :: b in r ==> b in rest && |rest[b]| > 0
  {
    if keys == [] then []
    else (if keys[0] in rest && |rest[keys[0]]| > 0 then [keys[0]] else []) + Candidates(rest, keys[1..])
  }

  lemma {:induction false} CandidatesMembers(rest: map<BucketKey, seq<FeedEntry>>, keys: seq<BucketKey>, b: BucketKey)
    ensures b in Candidates(rest, keys) <==> b in keys && b in rest && |rest[b]| > 0
  {
    if keys != [] {
      CandidatesMembers(rest, keys[1..], b);
      assert b in keys <==> b == keys[0] || b in keys[1..];
    }
  }

  function Other(last: BucketKey): BucketKey -> bool {
    (b: BucketKey) => b != last
  }

  /** `selectable`: the candidates, without the last drawn bucket when that leaves any; the
      `null` bucket is never avoided, as `lastMatchId !== null` guards the rule. */
  function Selectable(candidates: seq<BucketKey>, last: BucketKey): (r: seq<BucketKey>)
    ensures |candidates| > 0 ==> |r| > 0
    ensures forall b :: b in r ==> b in candidates
  {
    if last.Some? && |candidates| > 1 then
      var withoutLast := Filter(candidates, Other(last));
      if |withoutLast| > 0 then withoutLast else candidates
    else candidates
  }

  /** `Math.floor(draw * n)` for a draw in [0, 1). */
  function Pick(draw: real, n: nat): (i: nat)
    requires 0.0 <= draw < 1.0 && n > 0
    ensures i < n
  {
    assert 0.0 <= draw * n as real < n as real by {
      assert draw * n as real <= draw * n as real + (1.0 - draw) * n as real;
    }
    (draw * n as real).Floor
  }

  /** `choice`: the selectable bucket the draw lands on. */
  function Choice(rest: map<BucketKey, seq<FeedEntry>>, keys: seq<BucketKey>, last: BucketKey, draw: real): (c: BucketKey)
    requires 0.0 <= draw < 1.0 && Candidates(rest, keys) != []
    ensures c in Candidates(rest, keys)
  {
    var selectable := Selectable(Candidates(rest, keys), last);
    selectable[Pick(draw, |selectable|)]
  }

  /** The buckets once `choice` has been shifted. */
  function Shift(rest: map<BucketKey, seq<FeedEntry>>, c: BucketKey): map<BucketKey, seq<FeedEntry>>
    requires c in rest && |rest[c]| > 0
  {
    rest[c := rest[c][1..]]
  }

  /** Oracle values `Math.random()` can return. */
  ghost predicate Draws(random: nat -> real) {
    forall k: nat :: 0.0 <= random(k) < 1.0
  }

  /** The draws the `while` loop makes from the buckets `rest`, once `k` of `total`
      entries are out and `last` was drawn last. */
  function Run(rest: map<BucketKey, seq<FeedEntry>>, keys: seq<BucketKey>, last: BucketKey,
               random: nat -> real, k: nat, total: nat): seq<Draw>
    requires Draws(random)
    decreases total - k
  {
    if k >= total || Candidates(rest, keys) == [] then []
    else
      var choice := Choice(rest, keys, last, random(k));
      [Draw(choice, rest[choice][0])] + Run(Shift(rest, choice), keys, choice, random, k + 1, total)
  }

  function Entries(t: seq<Draw>): (r: seq<FeedEntry>)
    ensures |r| == |t|
  {
    if t == [] then [] else [t[0].entry] + Entries(t[1..])
  }

  lemma {:induction false} EntriesConcat(a: seq<Draw>, b: seq<Draw>)
    ensures Entries(a + b) == Entries(a) + Entries(b)
  {
    if a == [] {
      assert a + b == b;
    } else {
      assert (a + b)[1..] == a[1..] + b;
      EntriesConcat(a[1..], b);
    }
  }

  /** The `while` loop. */
  method Interleave(buckets: map<BucketKey, seq<FeedEntry>>, keys: seq<BucketKey>, total: nat, random: nat -> real)
    returns (randomized: seq<FeedEntry>)
    requires Draws(random)
    ensures randomized == Entries(Run(buckets, keys, None, random, 0, total))
  {
    var rest := buckets;
    var last: BucketKey := None;
    randomized := [];
    while |randomized| < total
      invariant |randomized| <= total
      invariant Entries(Run(buckets, keys, None, random, 0, total))
                == randomized + Entries(Run(rest, keys, last, random, |randomized|, total))
      decreases total - |randomized|
    {
      var found, choice := SelectBucket(rest, keys, last, random(|randomized|));
      if !found {
        break;
      }
      var nextEntry := rest[choice][0];
      DrawStep(Entries(Run(buckets, keys, None, random, 0, total)), randomized, rest, keys, last, random, total);
      rest := rest[choice := rest[choice][1..]];
      randomized := randomized + [nextEntry];
      last := choice;
    }
  }

  /** The loop body up to the draw: `found` is false when no bucket has entries left
      (the `break`), otherwise `choice` is the drawn bucket. */
  method SelectBucket(rest: map<BucketKey, seq<FeedEntry>>, keys: seq<BucketKey>, last: BucketKey, draw: real)
    returns (found: bool, choice: BucketKey)
    requires 0.0 <= draw < 1.0
    ensures found <==> Candidates(rest, keys) != []
    ensures found ==> choice == Choice(rest, keys, last, draw) && choice in rest && |rest[choice]| > 0
  {
    var candidates := Candidates(rest, keys);
    if |candidates| == 0 {
      return false, None;
    }
    var selectable := candidates;
    if last.Some? && |candidates| > 1 {
      var withoutLast := Filter(candidates, Other(last));
      if |withoutLast| > 0 {
        selectable := withoutLast;
      }
    }
    found, choice := true, selectable[Pick(draw, |selectable|)];
  }

  /** One iteration of the loop keeps the rest of the output's value. */
  lemma DrawStep(whole: seq<FeedEntry>, done: seq<FeedEntry>, rest: map<BucketKey, seq<FeedEntry>>,
                 keys: seq<BucketKey>, last: BucketKey, random: nat -> real, total: nat)
    requires Draws(random) && |done| < total && Candidates(rest, keys) != []
    requires whole == done + Entries(Run(rest, keys, last, random, |done|, total))
    ensures var choice := Choice(rest, keys, last, random(|done|));
            whole == (done + [rest[choice][0]]) + Entries(Run(Shift(rest, choice), keys, choice, random, |done| + 1, total))
  {
    var choice := Choice(rest, keys, last, random(|done|));
    var tail := Run(Shift(rest, choice), keys, choice, random, |done| + 1, total);
    EntriesConcat([Draw(choice, rest[choice][0])], tail);
  }

  /** The draws `buildRandomizedFeed(feed, matchMap)` makes. */
  function Trace(feed: seq<FeedEntry>, targets: map<int, Match>, random: nat -> real): seq<Draw>
    requires Draws(random)
  {
    Run(Prepared(feed, targets), BucketKeys(feed), None, random, 0, |feed|)
  }

  /** The value `buildRandomizedFeed(feed, matchMap)` returns. */
  function Randomized(feed: seq<FeedEntry>, targets: map<int, Match>, random: nat -> real): seq<FeedEntry>
    requires Draws(random)
  {
    Entries(Trace(feed, targets, random))
  }

  method BuildRandomizedFeed(feed: seq<FeedEntry>, targets: map<int, Match>, random: nat -> real)
    returns (randomized: seq<FeedEntry>)
    requires Draws(random)
    ensures randomized == Randomized(feed, targets, random)
  {
    var buckets, matchIds := BucketFeed(feed);
    forall b | b in matchIds ensures b in buckets {
    }
    var prepared := NormalizeBuckets(buckets, matchIds, targets);
    PreparedIs(feed, targets, prepared);
    buckets := prepared;
    randomized := Interleave(buckets, matchIds, |feed|, random);
  }

  lemma PreparedIs(feed: seq<FeedEntry>, targets: map<int, Match>, prepared: map<BucketKey, seq<FeedEntry>>)
    requires prepared.Keys == Buckets(feed).Keys
    requires forall b :: b in prepared ==>
               prepared[b] == if b in BucketKeys(feed) then Prepare(targets, b, Buckets(feed)[b]) else Buckets(feed)[b]
    ensures prepared == Prepared(feed, targets)
  {
    var expected := Prepared(feed, targets);
    forall b | b in prepared ensures b in expected && prepared[b] == expected[b] {
      assert b in BucketKeys(feed);
    }
    assert prepared.Keys == expected.Keys;
  }

  // What the interleaving guarantees.

  lemma {:induction false} RunLength(rest: map<BucketKey, seq<FeedEntry>>, keys: seq<BucketKey>, last: BucketKey,
                                     random: nat -> real, k: nat, total: nat)
    requires Draws(random) && k <= total
    ensures |Run(rest, keys, last, random, k, total)| <= total - k
    decreases total - k
  {
    if k < total && Candidates(rest, keys) != [] {
      var choice := Choice(rest, keys, last, random(k));
      RunLength(Shift(rest, choice), keys, choice, random, k + 1, total);
    }
  }

  /** The output is never longer than the feed. */
  lemma RandomizedLength(feed: seq<FeedEntry>, targets: map<int, Match>, random: nat -> real)
    requires Draws(random)
    ensures |Randomized(feed, targets, random)| <= |feed|
  {
    RunLength(Prepared(feed, targets), BucketKeys(feed), None, random, 0, |feed|);
  }

  /** The entries drawn from bucket `b`, in draw order. */
  function Taken(t: seq<Draw>, b: BucketKey): seq<FeedEntry> {
    if t == [] then [] else (if t[0].bucket == b then [t[0].entry] else []) + Taken(t[1..], b)
  }

  lemma TakenCons(d: Draw, t: seq<Draw>, b: BucketKey)
    ensures Taken([d] + t, b) == (if d.bucket == b then [d.entry] else []) + Taken(t, b)
  {
    assert ([d] + t)[1..] == t;
  }

  lemma {:induction false} TakenConcat(a: seq<Draw>, c: seq<Draw>, b: BucketKey)
    ensures Taken(a + c, b) == Taken(a, b) + Taken(c, b)
  {
    if a == [] {
      assert a + c == c;
    } else {
      assert (a + c)[1..] == a[1..] + c;
      TakenConcat(a[1..], c, b);
    }
  }

  /** Every bucket is drained from its front: what is drawn from it is a prefix of it. */
  lemma {:induction false} RunDrainsInOrder(rest: map<BucketKey, seq<FeedEntry>>, keys: seq<BucketKey>, last: BucketKey,
                                            random: nat -> real, k: nat, total: nat, b: BucketKey)
    requires Draws(random)
    ensures Taken(Run(rest, keys, last, random, k, total), b) <= (if b in rest then rest[b] else [])
    decreases total - k
  {
    if |Run(rest, keys, last, random, k, total)| > 0 {
      RunCons(rest, keys, last, random, k, total);
      var choice := Choice(rest, keys, last, random(k));
      RunDrainsInOrder(Shift(rest, choice), keys, choice, random, k + 1, total, b);
      DrainsStep(rest, choice, Run(Shift(rest, choice), keys, choice, random, k + 1, total), b);
    } else {
      assert Run(rest, keys, last, random, k, total) == [];
    }
  }

  lemma DrainsStep(rest: map<BucketKey, seq<FeedEntry>>, choice: BucketKey, tail: seq<Draw>, b: BucketKey)
    requires choice in rest && |rest[choice]| > 0
    requires Taken(tail, b) <= (if b in Shift(rest, choice) then Shift(rest, choice)[b] else [])
    ensures Taken([Draw(choice, rest[choice][0])] + tail, b) <= (if b in rest then rest[b] else [])
  {
    TakenCons(Draw(choice, rest[choice][0]), tail, b);
    if b == choice {
      PrefixCons(rest[b][0], Taken(tail, b), rest[b][1..]);
      assert [rest[b][0]] + rest[b][1..] == rest[b];
    }
  }

  lemma PrefixCons<T>(x: T, p: seq<T>, s: seq<T>)
    requires p <= s
    ensures [x] + p <= [x] + s
  {
    assert ([x] + s)[..|p| + 1] == [x] + s[..|p|];
  }

  /** Every drawn entry belongs to the bucket it was drawn from. */
  ghost predicate Keyed(rest: map<BucketKey, seq<FeedEntry>>) {
    forall b, e :: b in rest && e in rest[b] ==> KeyOf(e) == b
  }

  lemma {:induction false} RunKeyed(rest: map<BucketKey, seq<FeedEntry>>, keys: seq<BucketKey>, last: BucketKey,
                                    random: nat -> real, k: nat, total: nat)
    requires Draws(random) && Keyed(rest)
    ensures forall d :: d in Run(rest, keys, last, random, k, total) ==> KeyOf(d.entry) == d.bucket
    decreases total - k
  {
    if k < total && Candidates(rest, keys) != [] {
      var choice := Choice(rest, keys, last, random(k));
      var rest' := Shift(rest, choice);
      assert Keyed(rest') by {
        forall b, e | b in rest' && e in rest'[b] ensures KeyOf(e) == b {
          assert e in rest[b];
        }
      }
      RunKeyed(rest', keys, choice, random, k + 1, total);
      assert rest[choice][0] in rest[choice];
    }
  }

  /** With every draw keyed, picking one bucket's entries out of the output is the same as
      picking that bucket's draws. */
  lemma {:induction false} EntriesOfBucket(t: seq<Draw>, b: BucketKey)
    requires forall d :: d in t ==> KeyOf(d.entry) == d.bucket
    ensures Filter(Entries(t), InBucket(b)) == Taken(t, b)
  {
    if t != [] {
      EntriesOfBucket(t[1..], b);
      TakenCons(t[0], t[1..], b);
      assert [t[0]] + t[1..] == t;
      assert t[0] in t;
    }
  }

  lemma PreparedKeyed(feed: seq<FeedEntry>, targets: map<int, Match>)
    ensures Keyed(Prepared(feed, targets))
  {
    var prepared := Prepared(feed, targets);
    forall b, e | b in prepared && e in prepared[b] ensures KeyOf(e) == b {
      if IsCricket(targets, b) {
        NormalizedMembers(Bucket(feed, b), Val(targets[b.value].homeTeam), Val(targets[b.value].awayTeam), e);
      }
    }
  }

  /** The output holds each bucket's entries in the bucket's order: for a match whose
      bucket is not normalised, its entries keep their feed order. */
  lemma RandomizedKeepsBucketOrder(feed: seq<FeedEntry>, targets: map<int, Match>, random: nat -> real, b: BucketKey)
    requires Draws(random)
    ensures Filter(Randomized(feed, targets, random), InBucket(b))
            <= if b in BucketKeys(feed) then Prepare(targets, b, Bucket(feed, b)) else []
    ensures !IsCricket(targets, b) ==> Filter(Randomized(feed, targets, random), InBucket(b)) <= Bucket(feed, b)
  {
    var prepared := Prepared(feed, targets);
    PreparedKeyed(feed, targets);
    RunKeyed(prepared, BucketKeys(feed), None, random, 0, |feed|);
    EntriesOfBucket(Trace(feed, targets, random), b);
    RunDrainsInOrder(prepared, BucketKeys(feed), None, random, 0, |feed|, b);
  }

  // The no-immediate-repeat rule.

  /** A non-empty run starts with the draw of `Choice`. */
  lemma RunCons(rest: map<BucketKey, seq<FeedEntry>>, keys: seq<BucketKey>, last: BucketKey,
                random: nat -> real, k: nat, total: nat)
    requires Draws(random) && |Run(rest, keys, last, random, k, total)| > 0
    ensures k < total && Candidates(rest, keys) != []
    ensures var choice := Choice(rest, keys, last, random(k));
            Run(rest, keys, last, random, k, total)
            == [Draw(choice, rest[choice][0])] + Run(Shift(rest, choice), keys, choice, random, k + 1, total)
  {
  }

  /** Drawing the last drawn integer bucket again means no other bucket had entries left. */
  lemma RepeatOnlyWhenAlone(rest: map<BucketKey, seq<FeedEntry>>, keys: seq<BucketKey>, last: BucketKey, draw: real)
    requires 0.0 <= draw < 1.0 && Candidates(rest, keys) != []
    requires last.Some? && Choice(rest, keys, last, draw) == last
    ensures forall b :: b in keys && b in rest && b != last ==> rest[b] == []
  {
    var candidates := Candidates(rest, keys);
    assert last in Selectable(candidates, last);
    if |candidates| > 1 {
      var withoutLast := Filter(candidates, Other(last));
      assert |withoutLast| == 0;
    } else {
      assert candidates == [candidates[0]];
    }
    assert forall b :: b in candidates ==> b == last;
    forall b | b in keys && b in rest && b != last ensures rest[b] == [] {
      CandidatesMembers(rest, keys, b);
    }
  }

  /** The two rules every trace of the loop keeps: each draw takes the head of a bucket
      that still has entries, and an integer bucket is drawn twice in a row only when
      every other bucket is empty. */
  ghost predicate Follows(rest: map<BucketKey, seq<FeedEntry>>, keys: seq<BucketKey>, last: BucketKey, t: seq<Draw>)
    decreases |t|
  {
    t == [] ||
    (var c := t[0].bucket;
     c in rest && |rest[c]| > 0 && t[0].entry == rest[c][0] &&
     (c == last && last.Some? ==> forall b :: b in keys && b in rest && b != c ==> rest[b] == []) &&
     Follows(Shift(rest, c), keys, c, t[1..]))
  }

  /** Every run of the loop keeps those rules. */
  lemma {:induction false} RunFollows(rest: map<BucketKey, seq<FeedEntry>>, keys: seq<BucketKey>, last: BucketKey,
                                      random: nat -> real, k: nat, total: nat)
    requires Draws(random)
    ensures Follows(rest, keys, last, Run(rest, keys, last, random, k, total))
    decreases total - k
  {
    if |Run(rest, keys, last, random, k, total)| > 0 {
      RunCons(rest, keys, last, random, k, total);
      var choice := Choice(rest, keys, last, random(k));
      if choice == last && last.Some? {
        RepeatOnlyWhenAlone(rest, keys, last, random(k));
      }
      RunFollows(Shift(rest, choice), keys, choice, random, k + 1, total);
    }
  }

  /** How the drained counts of the buckets other than `repeated` carry over one draw. */
  lemma DrainedStep(rest: map<BucketKey, seq<FeedEntry>>, keys: seq<BucketKey>, d: Draw,
                    tail: seq<Draw>, repeated: BucketKey)
    requires d.bucket in rest && |rest[d.bucket]| > 0 && forall b :: b in keys ==> b in rest
    requires forall b :: b in keys && b != repeated ==> |Taken(tail, b)| == |Shift(rest, d.bucket)[b]|
    ensures forall b :: b in keys && b != repeated ==> |Taken([d] + tail, b)| == |rest[b]|
  {
    forall b | b in keys && b != repeated
      ensures |Taken([d] + tail, b)| == |rest[b]|
    {
      TakenCons(d, tail, b);
    }
  }

  /** In a trace that keeps the rules, whenever the same integer bucket is drawn twice in
      a row, every other bucket has been drained completely by then. */
  lemma {:induction false} FollowsNoRepeat(rest: map<BucketKey, seq<FeedEntry>>, keys: seq<BucketKey>, last: BucketKey,
                                           t: seq<Draw>, i: nat)
    requires Follows(rest, keys, last, t) && forall b :: b in keys ==> b in rest
    requires i + 1 < |t| && t[i].bucket.Some? && t[i + 1].bucket == t[i].bucket
    ensures forall b :: b in keys && b != t[i].bucket ==> |Taken(t[..i + 1], b)| == |rest[b]|
    decreases i
  {
    var c := t[0].bucket;
    var rest' := Shift(rest, c);
    var tail := t[1..];
    assert t == [t[0]] + tail;
    ConsAt(t[0], tail, i);
    assert forall b :: b in keys ==> b in rest';
    if i == 0 {
      assert tail[0].bucket == c;
      assert forall b :: b in keys && b != c ==> |Taken([], b)| == |rest'[b]|;
      DrainedStep(rest, keys, t[0], [], c);
    } else {
      FollowsNoRepeat(rest', keys, c, tail, i - 1);
      DrainedStep(rest, keys, t[0], tail[..i], tail[i - 1].bucket);
    }
  }

  lemma ConsAt<T>(head: T, tail: seq<T>, i: nat)
    requires i < |tail|
    ensures ([head] + tail)[..i + 1] == [head] + tail[..i]
    ensures ([head] + tail)[i + 1] == tail[i]
    ensures i == 0 ==> ([head] + tail)[i] == head && tail[..i] == []
    ensures i > 0 ==> ([head] + tail)[i] == tail[i - 1]
  {
  }

  lemma EntriesPrefix(t: seq<Draw>, n: nat)
    requires n <= |t|
    ensures Entries(t)[..n] == Entries(t[..n])
    ensures forall j :: 0 <= j < |t| ==> Entries(t)[j] == t[j].entry
  {
    EntriesConcat(t[..n], t[n..]);
    assert t[..n] + t[n..] == t;
    EntriesAt(t);
  }

  lemma {:induction false} EntriesAt(t: seq<Draw>)
    ensures forall j :: 0 <= j < |t| ==> Entries(t)[j] == t[j].entry
  {
    if t != [] {
      EntriesAt(t[1..]);
      assert forall j :: 1 <= j < |t| ==> t[1..][j - 1] == t[j];
    }
  }

  /** What is drawn from a bucket in a prefix of the run is a prefix of what the whole run
      draws from it. */
  lemma TakenPrefix(t: seq<Draw>, n: nat, b: BucketKey)
    requires n <= |t|
    ensures Taken(t[..n], b) <= Taken(t, b)
  {
    assert t[..n] + t[n..] == t;
    TakenConcat(t[..n], t[n..], b);
  }

  /** When the output has two entries of the same integer match in a row, every other
      bucket has been emitted completely before the second of them. */
  lemma RandomizedNoRepeat(feed: seq<FeedEntry>, targets: map<int, Match>, random: nat -> real, i: nat)
    requires Draws(random)
    requires i + 1 < |Randomized(feed, targets, random)|
    requires KeyOf(Randomized(feed, targets, random)[i]).Some?
    requires KeyOf(Randomized(feed, targets, random)[i + 1]) == KeyOf(Randomized(feed, targets, random)[i])
    ensures var out := Randomized(feed, targets, random);
            forall b :: b in BucketKeys(feed) && b != KeyOf(out[i]) ==>
              Filter(out[..i + 1], InBucket(b)) == Prepare(targets, b, Bucket(feed, b))
  {
    var out := Randomized(feed, targets, random);
    var t := Trace(feed, targets, random);
    var prepared := Prepared(feed, targets);
    PreparedKeyed(feed, targets);
    RunKeyed(prepared, BucketKeys(feed), None, random, 0, |feed|);
    EntriesPrefix(t, i + 1);
    assert t[i].bucket == KeyOf(out[i]) && t[i + 1].bucket == KeyOf(out[i + 1]);
    RunFollows(prepared, BucketKeys(feed), None, random, 0, |feed|);
    FollowsNoRepeat(prepared, BucketKeys(feed), None, t, i);
    forall b | b in BucketKeys(feed) && b != KeyOf(out[i])
      ensures Filter(out[..i + 1], InBucket(b)) == Prepare(targets, b, Bucket(feed, b))
    {
      assert forall d :: d in t[..i + 1] ==> d in t;
      EntriesOfBucket(t[..i + 1], b);
      TakenPrefix(t, i + 1, b);
      RunDrainsInOrder(prepared, BucketKeys(feed), None, random, 0, |feed|, b);
    }
  }

  // The interleaving is a permutation of the buckets.

  /** The buckets of `keys`, one after the other. */
  function AllOf(keys: seq<BucketKey>, rest: map<BucketKey, seq<FeedEntry>>): seq<FeedEntry> {
    if keys == [] then [] else (if keys[0] in rest then rest[keys[0]] else []) + AllOf(keys[1..], rest)
  }

  lemma {:induction false} AllOfUnchanged(keys: seq<BucketKey>, rest: map<BucketKey, seq<FeedEntry>>, c: BucketKey, v: seq<FeedEntry>)
    requires c !in keys
    ensures AllOf(keys, rest[c := v]) == AllOf(keys, rest)
  {
    if keys != [] {
      assert keys[0] != c;
      AllOfUnchanged(keys[1..], rest, c, v);
    }
  }

  lemma {:induction false} AllOfShift(keys: seq<BucketKey>, rest: map<BucketKey, seq<FeedEntry>>, c: BucketKey)
    requires NoDup(keys) && c in keys && c in rest && |rest[c]| > 0
    ensures multiset(AllOf(keys, Shift(rest, c))) + multiset{rest[c][0]} == multiset(AllOf(keys, rest))
  {
    NoDupAt(keys, 0);
    assert keys[1..] == keys[0 + 1..];
    assert NoDup(keys[1..]) by {
      forall i, j | 0 <= i < j < |keys| - 1 ensures keys[1..][i] != keys[1..][j] {
        assert keys[i + 1] != keys[j + 1];
      }
    }
    if keys[0] == c {
      AllOfUnchanged(keys[1..], rest, c, rest[c][1..]);
      assert rest[c] == [rest[c][0]] + rest[c][1..];
    } else {
      assert c in keys[1..];
      AllOfShift(keys[1..], rest, c);
    }
  }

  lemma {:induction false} AllOfEmpty(keys: seq<BucketKey>, rest: map<BucketKey, seq<FeedEntry>>)
    requires forall b :: b in keys ==> b !in rest || rest[b] == []
    ensures AllOf(keys, rest) == []
  {
    if keys != [] {
      assert keys[0] in keys;
      assert forall b :: b in keys[1..] ==> b in keys;
      AllOfEmpty(keys[1..], rest);
    }
  }

  /** Given room for all of them, the run emits exactly the entries of the buckets. */
  lemma {:induction false} RunPermutes(rest: map<BucketKey, seq<FeedEntry>>, keys: seq<BucketKey>, last: BucketKey,
                                       random: nat -> real, k: nat, total: nat)
    requires Draws(random) && NoDup(keys) && k <= total
    requires |AllOf(keys, rest)| <= total - k
    ensures multiset(Entries(Run(rest, keys, last, random, k, total))) == multiset(AllOf(keys, rest))
    decreases total - k
  {
    if Candidates(rest, keys) == [] {
      forall b | b in keys ensures b !in rest || rest[b] == [] {
        CandidatesMembers(rest, keys, b);
      }
      AllOfEmpty(keys, rest);
    } else if k == total {
      assert AllOf(keys, rest) == [];
    } else {
      var choice := Choice(rest, keys, last, random(k));
      var tail := Run(Shift(rest, choice), keys, choice, random, k + 1, total);
      ShiftedRun(rest, keys, last, random, k, total);
      CandidatesMembers(rest, keys, choice);
      AllOfShift(keys, rest, choice);
      assert |multiset(AllOf(keys, Shift(rest, choice)))| + 1 == |multiset(AllOf(keys, rest))|;
      RunPermutes(Shift(rest, choice), keys, choice, random, k + 1, total);
    }
  }

  lemma ShiftedRun(rest: map<BucketKey, seq<FeedEntry>>, keys: seq<BucketKey>, last: BucketKey,
                   random: nat -> real, k: nat, total: nat)
    requires Draws(random) && k < total && Candidates(rest, keys) != []
    ensures var choice := Choice(rest, keys, last, random(k));
            multiset(Entries(Run(rest, keys, last, random, k, total)))
            == multiset{rest[choice][0]} + multiset(Entries(Run(Shift(rest, choice), keys, choice, random, k + 1, total)))
  {
    var choice := Choice(rest, keys, last, random(k));
    var tail := Run(Shift(rest, choice), keys, choice, random, k + 1, total);
    EntriesConcat([Draw(choice, rest[choice][0])], tail);
  }

  lemma {:induction false} AllOfCount(keys: seq<BucketKey>, m: map<BucketKey, seq<FeedEntry>>, x: FeedEntry, c: nat)
    requires NoDup(keys)
    requires forall b :: b in keys ==> b in m && multiset(m[b])[x] == if KeyOf(x) == b then c else 0
    ensures multiset(AllOf(keys, m))[x] == if KeyOf(x) in keys then c else 0
  {
    if keys != [] {
      NoDupAt(keys, 0);
      assert keys[1..] == keys[0 + 1..];
      assert NoDup(keys[1..]) by {
        forall i, j | 0 <= i < j < |keys| - 1 ensures keys[1..][i] != keys[1..][j] {
          assert keys[i + 1] != keys[j + 1];
        }
      }
      assert keys[0] in keys;
      assert forall b :: b in keys[1..] ==> b in keys;
      AllOfCount(keys[1..], m, x, c);
      assert KeyOf(x) in keys <==> KeyOf(x) == keys[0] || KeyOf(x) in keys[1..];
    }
  }

  /** Where no normalisation changes what a bucket holds, the output is a permutation of
      the feed. */
  lemma RandomizedPermutes(feed: seq<FeedEntry>, targets: map<int, Match>, random: nat -> real)
    requires Draws(random)
    requires forall b :: b in BucketKeys(feed) ==> multiset(Prepare(targets, b, Bucket(feed, b))) == multiset(Bucket(feed, b))
    ensures multiset(Randomized(feed, targets, random)) == multiset(feed)
  {
    var keys := BucketKeys(feed);
    var prepared := Prepared(feed, targets);
    var all := AllOf(keys, prepared);
    forall x ensures multiset(all)[x] == multiset(feed)[x] {
      forall b | b in keys ensures b in prepared && multiset(prepared[b])[x] == if KeyOf(x) == b then multiset(feed)[x] else 0 {
        FilterMultiset(feed, InBucket(b), x);
      }
      AllOfCount(keys, prepared, x, multiset(feed)[x]);
      BucketKeysMembers(feed, KeyOf(x));
    }
    assert multiset(all) == multiset(feed);
    assert |all| == |multiset(all)|;
    RunPermutes(prepared, keys, None, random, 0, |feed|);
  }

  /** With no cricket match among the targets the output is a permutation of the feed. */
  lemma RandomizedPermutesWithoutCricket(feed: seq<FeedEntry>, targets: map<int, Match>, random: nat -> real)
    requires Draws(random)
    requires forall n :: n in targets ==> Lower(targets[n].sport) != "cricket"
    ensures multiset(Randomized(feed, targets, random)) == multiset(feed)
  {
    forall b | b in BucketKeys(feed) ensures Prepare(targets, b, Bucket(feed, b)) == Bucket(feed, b) {
      if b.Some? && b.value in targets {
        var n := b.value;
        assert n in targets;
        assert Lower(targets[n].sport) != "cricket";
      }
    }
    RandomizedPermutes(feed, targets, random);
  }
}
