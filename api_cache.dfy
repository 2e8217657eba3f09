/** The client's cache updaters: how a commentary entry or a match pushed over the socket
    is merged into the lists the client already holds. The cache itself is a parameter;
    these are the updater callbacks, from the cached list (if any) to the new one. */
module ApiCache {
  import opened Common

  /** `list.some(c => c.id === id)`. */
  predicate HasCommentary(cs: seq<Commentary>, id: string) {
    exists i :: 0 <= i < |cs| && cs[i].id == id
  }

  /** No two cached commentary entries share an id. */
  predicate UniqueCommentaryIds(cs: seq<Commentary>) {
    forall i, j :: 0 <= i < j < |cs| ==> cs[i].id != cs[j].id
  }

  /** The updater of `addCommentary`: `None` is a query with no data yet. */
  function AddCommentary(cached: Option<seq<Commentary>>, c: Commentary): seq<Commentary> {
    if cached.None? then [c]
    else if HasCommentary(cached.value, c.id) then cached.value
    else [c] + cached.value
  }

  /** No cache gives `[c]`; a known id leaves the list as it was; a new one goes in front
      of the old entries, which follow in their order. */
  lemma AddCommentaryCases(cached: Option<seq<Commentary>>, c: Commentary)
    ensures cached.None? ==> AddCommentary(cached, c) == [c]
    ensures cached.Some? && (exists i :: 0 <= i < |cached.value| && cached.value[i].id == c.id) ==>
              AddCommentary(cached, c) == cached.value
    ensures cached.Some? && (forall i :: 0 <= i < |cached.value| ==> cached.value[i].id != c.id) ==>
              AddCommentary(cached, c) == [c] + cached.value && |AddCommentary(cached, c)| == |cached.value| + 1
  {
  }

  /** After the update the list holds an entry with the id, and every old entry. */
  lemma AddCommentaryKeeps(cached: Option<seq<Commentary>>, c: Commentary)
    ensures HasCommentary(AddCommentary(cached, c), c.id)
    ensures cached.Some? ==> forall x :: x in cached.value ==> x in AddCommentary(cached, c)
    ensures forall x :: x in AddCommentary(cached, c) ==> x == c || (cached.Some? && x in cached.value)
  {
    var r := AddCommentary(cached, c);
    if cached.None? || !HasCommentary(cached.value, c.id) {
      assert r[0] == c;
    }
  }

  /** Delivering the same entry twice changes nothing the second time. */
  lemma AddCommentaryIdempotent(cached: Option<seq<Commentary>>, c: Commentary)
    ensures AddCommentary(Some(AddCommentary(cached, c)), c) == AddCommentary(cached, c)
  {
    AddCommentaryKeeps(cached, c);
  }

  /** A list without repeated ids stays so. */
  lemma AddCommentaryUniqueIds(cached: Option<seq<Commentary>>, c: Commentary)
    requires cached.Some? ==> UniqueCommentaryIds(cached.value)
    ensures UniqueCommentaryIds(AddCommentary(cached, c))
  {
    if cached.Some? && !HasCommentary(cached.value, c.id) {
      var r := AddCommentary(cached, c);
      forall i, j | 0 <= i < j < |r| ensures r[i].id != r[j].id {
        assert r[j] == cached.value[j - 1];
        if i > 0 {
          assert r[i] == cached.value[i - 1];
        }
      }
    }
  }

  /** `list.find(m => m.id === id)` found something. */
  predicate HasMatch(ms: seq<Match>, id: MatchId) {
    exists i :: 0 <= i < |ms| && ms[i].id == id
  }

  predicate UniqueMatchIds(ms: seq<Match>) {
    forall i, j :: 0 <= i < j < |ms| ==> ms[i].id != ms[j].id
  }

  /** `list.map(x => x.id === m.id ? m : x)`. */
  function ReplaceMatch(ms: seq<Match>, m: Match): (r: seq<Match>)
    ensures |r| == |ms|
  {
    seq(|ms|, i requires 0 <= i < |ms| => if ms[i].id == m.id then m else ms[i])
  }

  /** The updater of `updateMatch` for the `['matches']` list. */
  function UpdateMatches(cached: Option<seq<Match>>, m: Match): seq<Match> {
    if cached.None? then [m]
    else if HasMatch(cached.value, m.id) then ReplaceMatch(cached.value, m)
    else [m] + cached.value
  }

  /** No cache gives `[m]`; a known id is replaced where it stands, the length unchanged and
      every other entry kept; a new id goes in front. */
  lemma UpdateMatchesCases(cached: Option<seq<Match>>, m: Match)
    ensures cached.None? ==> UpdateMatches(cached, m) == [m]
    ensures cached.Some? && HasMatch(cached.value, m.id) ==>
              var r := UpdateMatches(cached, m);
              && |r| == |cached.value|
              && (forall i :: 0 <= i < |r| && cached.value[i].id == m.id ==> r[i] == m)
              && (forall i :: 0 <= i < |r| && cached.value[i].id != m.id ==> r[i] == cached.value[i])
    ensures cached.Some? && !HasMatch(cached.value, m.id) ==> UpdateMatches(cached, m) == [m] + cached.value
  {
  }

  /** After the update the match is in the list, and every entry with its id is it. */
  lemma UpdateMatchesLatest(cached: Option<seq<Match>>, m: Match)
    ensures m in UpdateMatches(cached, m)
    ensures forall x :: x in UpdateMatches(cached, m) && x.id == m.id ==> x == m
  {
    var r := UpdateMatches(cached, m);
    if cached.Some? && HasMatch(cached.value, m.id) {
      var i :| 0 <= i < |cached.value| && cached.value[i].id == m.id;
      assert r[i] == m;
    } else {
      assert r[0] == m;
    }
  }

  /** Pushing the same match twice changes nothing the second time. */
  lemma UpdateMatchesIdempotent(cached: Option<seq<Match>>, m: Match)
    ensures UpdateMatches(Some(UpdateMatches(cached, m)), m) == UpdateMatches(cached, m)
  {
    var r := UpdateMatches(cached, m);
    UpdateMatchesLatest(cached, m);
    var i :| 0 <= i < |r| && r[i] == m;
    assert HasMatch(r, m.id);
    assert ReplaceMatch(r, m) == r;
  }

  /** A list without repeated ids stays so. */
  lemma UpdateMatchesUniqueIds(cached: Option<seq<Match>>, m: Match)
    requires cached.Some? ==> UniqueMatchIds(cached.value)
    ensures UniqueMatchIds(UpdateMatches(cached, m))
  {
    if cached.Some? {
      var r := UpdateMatches(cached, m);
      if HasMatch(cached.value, m.id) {
        forall i, j | 0 <= i < j < |r| ensures r[i].id != r[j].id {
          assert r[i].id == cached.value[i].id && r[j].id == cached.value[j].id;
        }
      } else {
        forall i, j | 0 <= i < j < |r| ensures r[i].id != r[j].id {
          assert r[j] == cached.value[j - 1];
          if i > 0 {
            assert r[i] == cached.value[i - 1];
          }
        }
      }
    }
  }

  /** The two cache entries `updateMatch` writes: the single match by id and the list. */
  datatype MatchCache = MatchCache(details: map<MatchId, Match>, list: Option<seq<Match>>)

  /** `updateMatch(m)`: the detail entry of `m.id` becomes `m`, the list is updated. */
  function UpdateMatch(cache: MatchCache, m: Match): (r: MatchCache)
    ensures m.id in r.details && r.details[m.id] == m
    ensures forall id :: id in cache.details && id != m.id ==> id in r.details && r.details[id] == cache.details[id]
    ensures r.details.Keys == cache.details.Keys + {m.id}
    ensures r.list.Some? && m in r.list.value
  {
    UpdateMatchesLatest(cache.list, m);
    MatchCache(cache.details[m.id := m], Some(UpdateMatches(cache.list, m)))
  }
}
