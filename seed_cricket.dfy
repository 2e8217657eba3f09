/** The reordering the seed script applies to a cricket match's feed: a stable sort by
    (innings rank, sequence, minute), grouping by innings, and within each innings the
    entries without a team first, then the team batting first, the other team, and the
    rest. */
module SeedCricket {
  import opened Common
  import opened SeedText
  import opened SeedData

  /** `Number.MAX_SAFE_INTEGER`, the sort value of a missing sequence or minute. */
  const MaxSafeInteger: int := 9007199254740991

  /** `Number.isFinite(x) ? x : Number.MAX_SAFE_INTEGER`. */
  function SortValue(f: Field<int>): int {
    if f.Val? then f.v else MaxSafeInteger
  }

  function Rank(e: FeedEntry): nat {
    InningsRank(e.period)
  }

  /** The comparator of the sort returns a value `<= 0` for `(a, b)`. */
  predicate KeyLe(a: FeedEntry, b: FeedEntry) {
    || Rank(a) < Rank(b)
    || (Rank(a) == Rank(b) && SortValue(a.sequence) < SortValue(b.sequence))
    || (Rank(a) == Rank(b) && SortValue(a.sequence) == SortValue(b.sequence) && SortValue(a.minute) <= SortValue(b.minute))
  }

  ghost predicate SortedByKey(s: seq<FeedEntry>) {
    forall i, j :: 0 <= i < j < |s| ==> KeyLe(s[i], s[j])
  }

  /** An entry placed before the first entry of `s` that does not sort before it. */
  function InsertEntry(x: FeedEntry, s: seq<FeedEntry>): (r: seq<FeedEntry>)
    ensures multiset(r) == multiset(s) + multiset{x}
  {
    if s == [] || KeyLe(x, s[0]) then [x] + s
    else
      assert s == [s[0]] + s[1..];
      [s[0]] + InsertEntry(x, s[1..])
  }

  lemma {:induction false} InsertEntrySorted(x: FeedEntry, s: seq<FeedEntry>)
    requires SortedByKey(s)
    ensures SortedByKey(InsertEntry(x, s))
  {
    if s != [] && !KeyLe(x, s[0]) {
      var rest := InsertEntry(x, s[1..]);
      assert SortedByKey(s[1..]) by {
        forall i, j | 0 <= i < j < |s| - 1 ensures KeyLe(s[1..][i], s[1..][j]) {
          assert s[1..][i] == s[i + 1] && s[1..][j] == s[j + 1];
        }
      }
      InsertEntrySorted(x, s[1..]);
      forall k | 0 <= k < |rest| ensures KeyLe(s[0], rest[k]) {
        assert rest[k] in multiset(rest);
        assert rest[k] in multiset(s[1..]) || rest[k] == x;
        if rest[k] != x {
          var m :| 0 <= m < |s[1..]| && s[1..][m] == rest[k];
          assert s[m + 1] == rest[k];
        }
      }
    }
  }

  /** `[...entries].sort(comparator)`: the sort of ECMAScript is stable, so the result is
      the insertion sort that keeps entries with equal keys in input order. */
  function SortEntries(s: seq<FeedEntry>): (r: seq<FeedEntry>)
    ensures multiset(r) == multiset(s)
  {
    if s == [] then []
    else
      assert s == [s[0]] + s[1..];
      InsertEntry(s[0], SortEntries(s[1..]))
  }

  lemma {:induction false} SortEntriesSorted(s: seq<FeedEntry>)
    ensures SortedByKey(SortEntries(s))
  {
    if s != [] {
      SortEntriesSorted(s[1..]);
      InsertEntrySorted(s[0], SortEntries(s[1..]));
    }
  }

  /** The comparator returns 0 for `(a, b)`: the two entries have the same sort key. */
  predicate KeyEq(a: FeedEntry, b: FeedEntry) {
    && Rank(a) == Rank(b)
    && SortValue(a.sequence) == SortValue(b.sequence)
    && SortValue(a.minute) == SortValue(b.minute)
  }

  /** The entries whose sort key equals that of `y`. */
  function SameKeyAs(y: FeedEntry): FeedEntry -> bool {
    e => KeyEq(e, y)
  }

  /** Two entries with the key of `y` compare as equal, so the first never sorts after the
      second. */
  lemma SameKeyLe(a: FeedEntry, b: FeedEntry, y: FeedEntry)
    ensures KeyEq(a, y) && KeyEq(b, y) ==> KeyLe(a, b)
  {
  }

  lemma FilterCons<T(!new)>(x: T, s: seq<T>, p: T -> bool)
    ensures Filter([x] + s, p) == (if p(x) then [x] else []) + Filter(s, p)
  {
    assert ([x] + s)[1..] == s;
  }

  /** Where an entry that does not sort before the head is inserted: after the head. */
  lemma InsertEntryPastHead(x: FeedEntry, s: seq<FeedEntry>)
    requires s != [] && !KeyLe(x, s[0])
    ensures InsertEntry(x, s) == [s[0]] + InsertEntry(x, s[1..])
  {
  }

  /** Two lists of which at most one is non-empty can be concatenated in either order. */
  lemma SwapAtMostOne<T>(a: seq<T>, b: seq<T>, c: seq<T>)
    requires a == [] || b == []
    ensures a + (b + c) == b + (a + c)
  {
  }

  /** Inserting an entry places it before every entry of equal key, and moves no other
      entry of that key. */
  lemma {:induction false} InsertEntryStable(x: FeedEntry, s: seq<FeedEntry>, y: FeedEntry)
    ensures Filter(InsertEntry(x, s), SameKeyAs(y)) == (if KeyEq(x, y) then [x] else []) + Filter(s, SameKeyAs(y))
  {
    var p := SameKeyAs(y);
    if s == [] || KeyLe(x, s[0]) {
      assert InsertEntry(x, s) == [x] + s;
      FilterCons(x, s, p);
    } else {
      var hx: seq<FeedEntry> := if KeyEq(x, y) then [x] else [];
      var hs: seq<FeedEntry> := if KeyEq(s[0], y) then [s[0]] else [];
      var tail := s[1..];
      var rest := InsertEntry(x, tail);
      InsertEntryPastHead(x, s);
      InsertEntryStable(x, tail, y);
      assert Filter([s[0]] + rest, p) == hs + Filter(rest, p) by {
        FilterCons(s[0], rest, p);
      }
      assert Filter(s, p) == hs + Filter(tail, p) by {
        assert s == [s[0]] + tail;
        FilterCons(s[0], tail, p);
      }
      assert hs == [] || hx == [] by {
        SameKeyLe(x, s[0], y);
      }
      SwapAtMostOne(hs, hx, Filter(tail, p));
    }
  }

  /** The sort is stable: for every key, the entries with that key come out in their input
      order, as `Array.prototype.sort` guarantees. */
  lemma {:induction false} SortEntriesStable(s: seq<FeedEntry>, y: FeedEntry)
    ensures Filter(SortEntries(s), SameKeyAs(y)) == Filter(s, SameKeyAs(y))
  {
    if s != [] {
      SortEntriesStable(s[1..], y);
      InsertEntryStable(s[0], SortEntries(s[1..]), y);
    }
  }

  lemma SortedRanks(s: seq<FeedEntry>)
    requires SortedByKey(s)
    ensures RanksNonDecreasing(s)
  {
  }

  ghost predicate RanksNonDecreasing(s: seq<FeedEntry>) {
    forall i, j :: 0 <= i < j < |s| ==> Rank(s[i]) <= Rank(s[j])
  }

  ghost predicate StrictlyIncreasing(ks: seq<nat>) {
    forall i, j :: 0 <= i < j < |ks| ==> ks[i] < ks[j]
  }

  /** The keys of the `grouped` map in insertion order: the ranks, as first seen. */
  function RankKeys(s: seq<FeedEntry>): (r: seq<nat>)
    ensures NoDup(r)
  {
    if s == [] then []
    else
      var keys := RankKeys(s[..|s| - 1]);
      var rank := Rank(s[|s| - 1]);
      if rank in keys then keys else keys + [rank]
  }

  lemma {:induction false} RankKeysMembers(s: seq<FeedEntry>, k: nat)
    ensures k in RankKeys(s) <==> exists e :: e in s && Rank(e) == k
  {
    if s != [] {
      var init := s[..|s| - 1];
      RankKeysMembers(init, k);
      assert s == init + [s[|s| - 1]];
      assert forall e :: e in s <==> e in init || e == s[|s| - 1];
    }
  }

  /** On a rank-sorted sequence the keys come out already in ascending order. */
  lemma {:induction false} RankKeysIncreasing(s: seq<FeedEntry>)
    requires RanksNonDecreasing(s)
    ensures StrictlyIncreasing(RankKeys(s))
  {
    if s != [] {
      var init := s[..|s| - 1];
      var last := s[|s| - 1];
      assert RanksNonDecreasing(init) by {
        forall i, j | 0 <= i < j < |init| ensures Rank(init[i]) <= Rank(init[j]) {
          assert init[i] == s[i] && init[j] == s[j];
        }
      }
      RankKeysIncreasing(init);
      var keys := RankKeys(init);
      forall i | 0 <= i < |keys| ensures keys[i] <= Rank(last) {
        KeyAtMostLast(s, keys[i]);
      }
    }
  }

  /** Every key seen before the last entry of a rank-sorted sequence is at most its rank. */
  lemma KeyAtMostLast(s: seq<FeedEntry>, k: nat)
    requires RanksNonDecreasing(s) && |s| > 0 && k in RankKeys(s[..|s| - 1])
    ensures k <= Rank(s[|s| - 1])
  {
    var init := s[..|s| - 1];
    RankKeysMembers(init, k);
    var e :| e in init && Rank(e) == k;
    var m :| 0 <= m < |init| && init[m] == e;
    assert s[m] == e;
  }

  /** `(a, b) => a - b` sort of the keys. */
  function InsertKey(x: nat, s: seq<nat>): (r: seq<nat>)
    ensures multiset(r) == multiset(s) + multiset{x}
  {
    if s == [] || x <= s[0] then [x] + s
    else
      assert s == [s[0]] + s[1..];
      [s[0]] + InsertKey(x, s[1..])
  }

  function SortKeys(s: seq<nat>): (r: seq<nat>)
    ensures multiset(r) == multiset(s)
  {
    if s == [] then []
    else
      assert s == [s[0]] + s[1..];
      InsertKey(s[0], SortKeys(s[1..]))
  }

  /** Sorting keys that are already ascending changes nothing. */
  lemma {:induction false} SortKeysAscending(s: seq<nat>)
    requires StrictlyIncreasing(s)
    ensures SortKeys(s) == s
  {
    if s != [] {
      assert StrictlyIncreasing(s[1..]) by {
        forall i, j | 0 <= i < j < |s| - 1 ensures s[1..][i] < s[1..][j] {
          assert s[1..][i] == s[i + 1] && s[1..][j] == s[j + 1];
        }
      }
      SortKeysAscending(s[1..]);
      if |s| > 1 {
        assert s[1..][0] == s[1];
      }
      assert [s[0]] + s[1..] == s;
    }
  }

  function InRank(k: nat): FeedEntry -> bool {
    (e: FeedEntry) => Rank(e) == k
  }

  /** `grouped.get(k)`: the entries of innings `k`, in sorted order. */
  function Group(s: seq<FeedEntry>, k: nat): seq<FeedEntry> {
    Filter(s, InRank(k))
  }

  /** The `grouped` map once the loop has seen `s`. */
  function Grouped(s: seq<FeedEntry>): map<nat, seq<FeedEntry>> {
    map k | k in RankKeys(s) :: Group(s, k)
  }

  /** One step of the grouping loop. */
  function PushRank(grouped: map<nat, seq<FeedEntry>>, e: FeedEntry): map<nat, seq<FeedEntry>> {
    var key := Rank(e);
    grouped[key := (if key in grouped then grouped[key] else []) + [e]]
  }

  lemma RankKeysStep(s: seq<FeedEntry>, e: FeedEntry)
    ensures RankKeys(s + [e]) == if Rank(e) in RankKeys(s) then RankKeys(s) else RankKeys(s) + [Rank(e)]
  {
    assert (s + [e])[..|s|] == s;
  }

  lemma GroupedStep(s: seq<FeedEntry>, e: FeedEntry)
    ensures PushRank(Grouped(s), e) == Grouped(s + [e])
  {
    var b := PushRank(Grouped(s), e);
    var g := Grouped(s + [e]);
    assert b.Keys == g.Keys by {
      RankKeysStep(s, e);
    }
    forall k | k in b ensures b[k] == g[k] {
      GroupValueStep(s, e, k);
    }
  }

  lemma GroupValueStep(s: seq<FeedEntry>, e: FeedEntry, k: nat)
    requires k in RankKeys(s) || k == Rank(e)
    ensures PushRank(Grouped(s), e)[k] == Group(s + [e], k)
  {
    FilterDistributes(s, [e], InRank(k));
    if k !in RankKeys(s) {
      RankKeysMembers(s, k);
      FilterNone(s, InRank(k));
    }
  }

  /** `!entry.team || entry.team === "neutral"`. */
  predicate Neutral(e: FeedEntry) {
    Falsy(e.team) || e.team == Val("neutral")
  }

  function IsNeutral(): FeedEntry -> bool {
    (e: FeedEntry) => Neutral(e)
  }

  function TeamIs(t: Field<string>): FeedEntry -> bool {
    (e: FeedEntry) => e.team == t
  }

  function IsOther(primary: Field<string>, secondary: Field<string>): FeedEntry -> bool {
    (e: FeedEntry) => !Neutral(e) && e.team != primary && e.team != secondary
  }

  /** `inningsEntries.find(entry => entry.team === home || entry.team === away)?.team`. */
  function PrimaryTeam(g: seq<FeedEntry>, home: Field<string>, away: Field<string>): (r: Field<string>)
    ensures r.Undefined? || r == home || r == away
    ensures (exists e :: e in g && (e.team == home || e.team == away)) ==> r == home || r == away
    ensures (forall e :: e in g ==> e.team != home && e.team != away) ==> r == Undefined
  {
    if g == [] then Undefined
    else if g[0].team == home || g[0].team == away then g[0].team
    else
      assert forall e :: e in g ==> e == g[0] || e in g[1..];
      PrimaryTeam(g[1..], home, away)
  }

  /** The primary team is the team of the first entry naming home or away, as `find` scans
      from the front. */
  lemma {:induction false} PrimaryIsFirst(g: seq<FeedEntry>, home: Field<string>, away: Field<string>, i: nat)
    requires i < |g| && (g[i].team == home || g[i].team == away)
    requires forall j :: 0 <= j < i ==> g[j].team != home && g[j].team != away
    ensures PrimaryTeam(g, home, away) == g[i].team
  {
    if i > 0 {
      assert g[0].team != home && g[0].team != away;
      PrimaryIsFirst(g[1..], home, away, i - 1);
    }
  }

  function SecondaryTeam(primary: Field<string>, home: Field<string>, away: Field<string>): Field<string> {
    if primary == home then away else home
  }

  /** The layout of one innings: neutral, primary, secondary, other. */
  function Layout(g: seq<FeedEntry>, home: Field<string>, away: Field<string>): seq<FeedEntry> {
    var primary := PrimaryTeam(g, home, away);
    var secondary := SecondaryTeam(primary, home, away);
    Filter(g, IsNeutral()) + Filter(g, TeamIs(primary)) + Filter(g, TeamIs(secondary)) + Filter(g, IsOther(primary, secondary))
  }

  /** What the layout loop has appended after the innings `ks`. */
  function Layouts(ks: seq<nat>, s: seq<FeedEntry>, home: Field<string>, away: Field<string>): seq<FeedEntry> {
    if ks == [] then []
    else Layouts(ks[..|ks| - 1], s, home, away) + Layout(Group(s, ks[|ks| - 1]), home, away)
  }

  /** The value `normalizeCricketFeed(entries, match)` returns. */
  function Normalized(entries: seq<FeedEntry>, home: Field<string>, away: Field<string>): seq<FeedEntry> {
    var sorted := SortEntries(entries);
    Layouts(SortKeys(RankKeys(sorted)), sorted, home, away)
  }

  /** The grouping loop. */
  method GroupByInnings(sorted: seq<FeedEntry>) returns (grouped: map<nat, seq<FeedEntry>>, keys: seq<nat>)
    ensures grouped == Grouped(sorted)
    ensures keys == RankKeys(sorted)
  {
    grouped := map[];
    keys := [];
    for i := 0 to |sorted|
      invariant grouped == Grouped(sorted[..i])
      invariant keys == RankKeys(sorted[..i])
    {
      assert sorted[..i + 1] == sorted[..i] + [sorted[i]];
      grouped, keys := PushEntry(sorted[..i], grouped, keys, sorted[i]);
    }
    assert sorted[..|sorted|] == sorted;
  }

  /** One round of the grouping loop: the entry joins the group of its rank, which is
      created, and its key recorded, when absent. */
  method PushEntry(ghost seen: seq<FeedEntry>, grouped: map<nat, seq<FeedEntry>>, keys: seq<nat>, entry: FeedEntry)
    returns (grouped': map<nat, seq<FeedEntry>>, keys': seq<nat>)
    requires grouped == Grouped(seen) && keys == RankKeys(seen)
    ensures grouped' == Grouped(seen + [entry]) && keys' == RankKeys(seen + [entry])
  {
    var key := InningsRank(entry.period);
    grouped' := grouped;
    keys' := keys;
    if key !in grouped' {
      grouped' := grouped'[key := []];
      keys' := keys' + [key];
    }
    grouped' := grouped'[key := grouped'[key] + [entry]];
    assert grouped' == PushRank(grouped, entry);
    GroupedStep(seen, entry);
    RankKeysStep(seen, entry);
  }

  lemma LayoutsStep(ks: seq<nat>, j: nat, s: seq<FeedEntry>, home: Field<string>, away: Field<string>)
    requires j < |ks|
    ensures Layouts(ks[..j + 1], s, home, away) == Layouts(ks[..j], s, home, away) + Layout(Group(s, ks[j]), home, away)
  {
    assert ks[..j + 1][..j] == ks[..j];
  }

  lemma GroupedAt(s: seq<FeedEntry>, k: nat)
    requires k in RankKeys(s)
    ensures k in Grouped(s) && Grouped(s)[k] == Group(s, k)
  {
  }

  /** The body of the layout loop for one innings. */
  method LayoutInnings(inningsEntries: seq<FeedEntry>, home: Field<string>, away: Field<string>) returns (laidOut: seq<FeedEntry>)
    ensures laidOut == Layout(inningsEntries, home, away)
  {
    var primaryTeam := PrimaryTeam(inningsEntries, home, away);
    var secondaryTeam := if primaryTeam == home then away else home;
    var neutral := Filter(inningsEntries, IsNeutral());
    var primary := Filter(inningsEntries, TeamIs(primaryTeam));
    var secondary := Filter(inningsEntries, TeamIs(secondaryTeam));
    var other := Filter(inningsEntries, IsOther(primaryTeam, secondaryTeam));
    laidOut := neutral + primary + secondary + other;
  }

  /** `normalizeCricketFeed(entries, match)` for a match with these team names. */
  method NormalizeCricketFeed(entries: seq<FeedEntry>, home: Field<string>, away: Field<string>) returns (ordered: seq<FeedEntry>)
    ensures ordered == Normalized(entries, home, away)
  {
    var sorted := SortEntries(entries);
    var grouped, keys := GroupByInnings(sorted);
    var inningsKeys := SortKeys(keys);
    forall k | k in inningsKeys ensures k in grouped && grouped[k] == Group(sorted, k) {
      assert k in multiset(inningsKeys);
      GroupedAt(sorted, k);
    }
    ordered := LayoutAllInnings(sorted, grouped, inningsKeys, home, away);
  }

  /** One round of the layout loop: the layout of innings `inningsKeys[j]` appended. */
  method AppendInnings(sorted: seq<FeedEntry>, grouped: map<nat, seq<FeedEntry>>, inningsKeys: seq<nat>, j: nat,
                       home: Field<string>, away: Field<string>, ordered: seq<FeedEntry>) returns (next: seq<FeedEntry>)
    requires j < |inningsKeys| && inningsKeys[j] in grouped && grouped[inningsKeys[j]] == Group(sorted, inningsKeys[j])
    requires ordered == Layouts(inningsKeys[..j], sorted, home, away)
    ensures next == Layouts(inningsKeys[..j + 1], sorted, home, away)
  {
    var key := inningsKeys[j];
    var inningsEntries := if key in grouped then grouped[key] else [];
    var laidOut := LayoutInnings(inningsEntries, home, away);
    LayoutsStep(inningsKeys, j, sorted, home, away);
    next := ordered + laidOut;
  }

  /** The layout loop over the sorted innings keys. */
  method LayoutAllInnings(sorted: seq<FeedEntry>, grouped: map<nat, seq<FeedEntry>>, inningsKeys: seq<nat>,
                       home: Field<string>, away: Field<string>) returns (ordered: seq<FeedEntry>)
    requires forall k :: k in inningsKeys ==> k in grouped && grouped[k] == Group(sorted, k)
    ensures ordered == Layouts(inningsKeys, sorted, home, away)
  {
    ordered := [];
    for j := 0 to |inningsKeys|
      invariant ordered == Layouts(inningsKeys[..j], sorted, home, away)
    {
      ordered := AppendInnings(sorted, grouped, inningsKeys, j, home, away, ordered);
    }
    assert inningsKeys[..|inningsKeys|] == inningsKeys;
  }

  // ---------------------------------------------------------------------------------
  // What the normalisation guarantees.

  lemma LayoutMembers(g: seq<FeedEntry>, home: Field<string>, away: Field<string>, e: FeedEntry)
    ensures e in Layout(g, home, away) ==> e in g
  {
  }

  lemma {:induction false} LayoutsMembers(ks: seq<nat>, s: seq<FeedEntry>, home: Field<string>, away: Field<string>, e: FeedEntry)
    ensures e in Layouts(ks, s, home, away) ==> e in s && Rank(e) in ks
  {
    if ks != [] {
      var init := ks[..|ks| - 1];
      LayoutsMembers(init, s, home, away, e);
      LayoutMembers(Group(s, ks[|ks| - 1]), home, away, e);
      assert forall k :: k in init ==> k in ks;
      assert ks[|ks| - 1] in ks;
    }
  }

  /** The output holds nothing but input entries. */
  lemma NormalizedMembers(entries: seq<FeedEntry>, home: Field<string>, away: Field<string>, e: FeedEntry)
    ensures e in Normalized(entries, home, away) ==> e in entries
  {
    if e in Normalized(entries, home, away) {
      var sorted := SortEntries(entries);
      LayoutsMembers(SortKeys(RankKeys(sorted)), sorted, home, away, e);
      assert e in multiset(sorted);
    }
  }

  /** Over ascending innings keys the output's innings ranks never decrease. */
  lemma {:induction false} LayoutsRanks(ks: seq<nat>, s: seq<FeedEntry>, home: Field<string>, away: Field<string>)
    requires StrictlyIncreasing(ks)
    ensures RanksNonDecreasing(Layouts(ks, s, home, away))
  {
    if ks != [] {
      var init := ks[..|ks| - 1];
      var k := ks[|ks| - 1];
      assert StrictlyIncreasing(init);
      LayoutsRanks(init, s, home, away);
      var a := Layouts(init, s, home, away);
      var b := Layout(Group(s, k), home, away);
      forall e | e in a ensures Rank(e) < k {
        LayoutsMembers(init, s, home, away, e);
        var m :| 0 <= m < |init| && init[m] == Rank(e);
        assert ks[m] < k;
      }
      forall e | e in b ensures Rank(e) == k {
        LayoutInRank(s, k, home, away, e);
      }
      ConcatRanks(a, b, k);
    }
  }

  lemma LayoutInRank(s: seq<FeedEntry>, k: nat, home: Field<string>, away: Field<string>, e: FeedEntry)
    ensures e in Layout(Group(s, k), home, away) ==> Rank(e) == k
  {
    LayoutMembers(Group(s, k), home, away, e);
  }

  lemma ConcatRanks(a: seq<FeedEntry>, b: seq<FeedEntry>, k: nat)
    requires RanksNonDecreasing(a)
    requires forall e :: e in a ==> Rank(e) < k
    requires forall e :: e in b ==> Rank(e) == k
    ensures RanksNonDecreasing(a + b)
  {
    var out := a + b;
    forall i, j | 0 <= i < j < |out| ensures Rank(out[i]) <= Rank(out[j]) {
      if j < |a| {
        assert out[i] == a[i] && out[j] == a[j];
      } else if i < |a| {
        assert out[i] == a[i] && out[j] == b[j - |a|];
        assert a[i] in a && b[j - |a|] in b;
      } else {
        assert out[i] == b[i - |a|] && out[j] == b[j - |a|];
        assert b[i - |a|] in b && b[j - |a|] in b;
      }
    }
  }

  /** The output is grouped by innings in ascending order. */
  lemma NormalizedRanks(entries: seq<FeedEntry>, home: Field<string>, away: Field<string>)
    ensures RanksNonDecreasing(Normalized(entries, home, away))
  {
    var sorted := SortEntries(entries);
    SortEntriesSorted(entries);
    SortedRanks(sorted);
    RankKeysIncreasing(sorted);
    SortKeysAscending(RankKeys(sorted));
    LayoutsRanks(RankKeys(sorted), sorted, home, away);
  }

  /** How often an entry occurs in the layout of its innings: once per part it belongs to. */
  lemma LayoutCount(g: seq<FeedEntry>, home: Field<string>, away: Field<string>, x: FeedEntry)
    ensures var primary := PrimaryTeam(g, home, away);
            var secondary := SecondaryTeam(primary, home, away);
            var c := multiset(g)[x];
            multiset(Layout(g, home, away))[x]
            == (if Neutral(x) then c else 0) + (if x.team == primary then c else 0)
               + (if x.team == secondary then c else 0)
               + (if !Neutral(x) && x.team != primary && x.team != secondary then c else 0)
  {
    var primary := PrimaryTeam(g, home, away);
    var secondary := SecondaryTeam(primary, home, away);
    FilterMultiset(g, IsNeutral(), x);
    FilterMultiset(g, TeamIs(primary), x);
    FilterMultiset(g, TeamIs(secondary), x);
    FilterMultiset(g, IsOther(primary, secondary), x);
  }

  /** The two team names are distinct real names: non-empty and not "neutral". */
  predicate GoodTeams(home: Field<string>, away: Field<string>) {
    && home.Val? && away.Val? && home != away
    && home.v != "" && home.v != "neutral" && away.v != "" && away.v != "neutral"
  }

  predicate NamesATeam(g: seq<FeedEntry>, home: Field<string>, away: Field<string>) {
    exists e :: e in g && (e.team == home || e.team == away)
  }

  /** With good team names and an innings that names one of them, the four parts split
      the innings: every entry is laid out exactly once. */
  lemma LayoutPermutes(g: seq<FeedEntry>, home: Field<string>, away: Field<string>)
    requires GoodTeams(home, away) && NamesATeam(g, home, away)
    ensures multiset(Layout(g, home, away)) == multiset(g)
  {
    var primary := PrimaryTeam(g, home, away);
    assert primary == home || primary == away;
    forall x ensures multiset(Layout(g, home, away))[x] == multiset(g)[x] {
      LayoutCount(g, home, away, x);
      PartitionOnce(x, primary, SecondaryTeam(primary, home, away), home, away);
    }
  }

  /** An entry belongs to exactly one of the four parts when the primary and secondary
      teams are the two good team names. */
  lemma PartitionOnce(x: FeedEntry, primary: Field<string>, secondary: Field<string>, home: Field<string>, away: Field<string>)
    requires GoodTeams(home, away)
    requires (primary == home && secondary == away) || (primary == away && secondary == home)
    ensures (if Neutral(x) then 1 else 0) + (if x.team == primary then 1 else 0) + (if x.team == secondary then 1 else 0)
            + (if !Neutral(x) && x.team != primary && x.team != secondary then 1 else 0) == 1
  {
  }

  /** The duplication: in an innings that names neither team, `primaryTeam` is `undefined`
      and an entry without a team is laid out twice, as neutral and as primary. */
  lemma LayoutDuplicatesTeamless(g: seq<FeedEntry>, home: Field<string>, away: Field<string>, x: FeedEntry)
    requires home.Val? && away.Val? && !NamesATeam(g, home, away)
    requires x.team.Undefined?
    ensures multiset(Layout(g, home, away))[x] == 2 * multiset(g)[x]
  {
    LayoutCount(g, home, away, x);
  }

  lemma {:induction false} LayoutsCount(ks: seq<nat>, s: seq<FeedEntry>, home: Field<string>, away: Field<string>, x: FeedEntry)
    requires NoDup(ks)
    ensures multiset(Layouts(ks, s, home, away))[x]
            == if Rank(x) in ks then multiset(Layout(Group(s, Rank(x)), home, away))[x] else 0
  {
    if ks != [] {
      var init := ks[..|ks| - 1];
      var k := ks[|ks| - 1];
      assert NoDup(init) by {
        forall i, j | 0 <= i < j < |init| ensures init[i] != init[j] { assert init[i] == ks[i] && init[j] == ks[j]; }
      }
      NoDupAt(ks, |ks| - 1);
      LayoutsCount(init, s, home, away, x);
      LayoutMembers(Group(s, k), home, away, x);
      InInitOrLast(ks, Rank(x));
      if x in Layout(Group(s, k), home, away) {
        assert Rank(x) == k;
      }
    }
  }

  lemma GroupCount(s: seq<FeedEntry>, k: nat, x: FeedEntry)
    ensures multiset(Group(s, k))[x] == if Rank(x) == k then multiset(s)[x] else 0
  {
    FilterMultiset(s, InRank(k), x);
  }

  /** With good team names and every innings naming one of them, the output is a
      permutation of the input. */
  lemma NormalizedPermutes(entries: seq<FeedEntry>, home: Field<string>, away: Field<string>)
    requires GoodTeams(home, away)
    requires forall k: nat :: NamesATeam(Group(SortEntries(entries), k), home, away) || Group(SortEntries(entries), k) == []
    ensures multiset(Normalized(entries, home, away)) == multiset(entries)
  {
    var sorted := SortEntries(entries);
    forall x ensures multiset(Normalized(entries, home, away))[x] == multiset(entries)[x] {
      NormalizedCount(entries, home, away, x);
      var g := Group(sorted, Rank(x));
      GroupCount(sorted, Rank(x), x);
      if x in entries {
        assert x in multiset(sorted);
        assert x in g;
        LayoutPermutes(g, home, away);
      }
    }
  }

  /** An entry occurs in the output as often as in the layout of its innings. */
  lemma NormalizedCount(entries: seq<FeedEntry>, home: Field<string>, away: Field<string>, x: FeedEntry)
    ensures multiset(Normalized(entries, home, away))[x]
            == if x in entries then multiset(Layout(Group(SortEntries(entries), Rank(x)), home, away))[x] else 0
  {
    var sorted := SortEntries(entries);
    var ks := RankKeys(sorted);
    SortEntriesSorted(entries);
    SortedRanks(sorted);
    RankKeysIncreasing(sorted);
    SortKeysAscending(ks);
    LayoutsCount(ks, sorted, home, away, x);
    RankKeysMembers(sorted, Rank(x));
    var g := Group(sorted, Rank(x));
    if x in entries {
      assert x in multiset(sorted);
    } else {
      assert x !in multiset(sorted);
      GroupCount(sorted, Rank(x), x);
      LayoutMembers(g, home, away, x);
    }
  }

  /** An innings of the input that names neither team but has an entry without a team
      sends that entry to the output twice. */
  lemma NormalizedDuplicatesTeamless(entries: seq<FeedEntry>, home: Field<string>, away: Field<string>, x: FeedEntry)
    requires home.Val? && away.Val?
    requires !NamesATeam(Group(SortEntries(entries), Rank(x)), home, away)
    requires x in entries && x.team.Undefined?
    ensures multiset(Normalized(entries, home, away))[x] == 2 * multiset(entries)[x]
  {
    var sorted := SortEntries(entries);
    NormalizedCount(entries, home, away, x);
    LayoutDuplicatesTeamless(Group(sorted, Rank(x)), home, away, x);
    GroupCount(sorted, Rank(x), x);
  }

  lemma {:induction false} FilterSorted(s: seq<FeedEntry>, p: FeedEntry -> bool)
    requires SortedByKey(s)
    ensures SortedByKey(Filter(s, p))
  {
    if s != [] {
      assert SortedByKey(s[1..]) by {
        forall i, j | 0 <= i < j < |s| - 1 ensures KeyLe(s[1..][i], s[1..][j]) {
          assert s[1..][i] == s[i + 1] && s[1..][j] == s[j + 1];
        }
      }
      FilterSorted(s[1..], p);
      var rest := Filter(s[1..], p);
      forall k | 0 <= k < |rest| ensures KeyLe(s[0], rest[k]) {
        assert rest[k] in s[1..];
        var m :| 0 <= m < |s[1..]| && s[1..][m] == rest[k];
        assert s[m + 1] == rest[k];
      }
    }
  }

  /** Each of the four parts of every innings keeps the (rank, sequence, minute) order. */
  lemma NormalizedPartsSorted(entries: seq<FeedEntry>, home: Field<string>, away: Field<string>, k: nat)
    ensures var g := Group(SortEntries(entries), k);
            var primary := PrimaryTeam(g, home, away);
            var secondary := SecondaryTeam(primary, home, away);
            && SortedByKey(Filter(g, IsNeutral()))
            && SortedByKey(Filter(g, TeamIs(primary)))
            && SortedByKey(Filter(g, TeamIs(secondary)))
            && SortedByKey(Filter(g, IsOther(primary, secondary)))
  {
    var g := Group(SortEntries(entries), k);
    var primary := PrimaryTeam(g, home, away);
    var secondary := SecondaryTeam(primary, home, away);
    SortEntriesSorted(entries);
    FilterSorted(SortEntries(entries), InRank(k));
    FilterSorted(g, IsNeutral());
    FilterSorted(g, TeamIs(primary));
    FilterSorted(g, TeamIs(secondary));
    FilterSorted(g, IsOther(primary, secondary));
  }
}
