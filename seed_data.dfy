/** The records of the seed file and the expansion of a feed to seed matches that have no
    commentary of their own: the entries of the first match of the same sport that has
    some are cloned, with that match's team names swapped for the target's. */
module SeedData {
  import opened Common
  import opened SeedText

  /** A `matchId` / `id` of the seed file: a JSON integer, a string, `null` or absent. */
  datatype MatchRef = Missing | NullRef | IntRef(n: int) | StrRef(s: string)

  /** One commentary entry of the seed feed; every property may be missing. */
  datatype FeedEntry = FeedEntry(
    matchId: MatchRef, minute: Field<int>, sequence: Field<int>, period: Field<string>,
    eventType: Field<string>, actor: Field<string>, team: Field<string>, message: Field<string>,
    metadata: Field<string>, tags: Field<seq<string>>)

  /** One match of the seed file. */
  datatype SeedMatch = SeedMatch(
    id: MatchRef, sport: Field<string>, homeTeam: Field<string>, awayTeam: Field<string>,
    startTime: Field<string>, endTime: Field<string>, homeScore: Field<int>, awayScore: Field<int>)

  /** `new Map([[template.homeTeam, target.homeTeam], [template.awayTeam, target.awayTeam]])`;
      when both template names are equal the later pair wins. */
  function Replacements(template: SeedMatch, target: SeedMatch): (r: map<Field<string>, Field<string>>)
    ensures r.Keys == {template.homeTeam, template.awayTeam}
    ensures r[template.awayTeam] == target.awayTeam
    ensures template.homeTeam != template.awayTeam ==> r[template.homeTeam] == target.homeTeam
  {
    map[template.homeTeam := target.homeTeam][template.awayTeam := target.awayTeam]
  }

  /** The clone of one entry for `target`. */
  function CloneEntry(e: FeedEntry, template: SeedMatch, target: SeedMatch): FeedEntry {
    e.(matchId := target.id,
       team := if e.team == template.homeTeam then target.homeTeam
               else if e.team == template.awayTeam then target.awayTeam
               else e.team,
       message := ReplaceTrailingTeam(e.message, Replacements(template, target)))
  }

  /** `cloneCommentaryEntries(entries, templateMatch, targetMatch)`. */
  function CloneCommentaryEntries(entries: seq<FeedEntry>, template: SeedMatch, target: SeedMatch): seq<FeedEntry> {
    seq(|entries|, i requires 0 <= i < |entries| => CloneEntry(entries[i], template, target))
  }

  /** A clone keeps the length and every property but three: the match id becomes the
      target's, a team named like the template's home (else away) team becomes the
      target's home (else away) team, and the message has its trailing team rewritten. */
  lemma CloneCommentaryEntriesShape(entries: seq<FeedEntry>, template: SeedMatch, target: SeedMatch)
    ensures var r := CloneCommentaryEntries(entries, template, target);
      && |r| == |entries|
      && (forall i :: 0 <= i < |r| ==> r[i].matchId == target.id)
      && (forall i :: 0 <= i < |r| && entries[i].team == template.homeTeam ==> r[i].team == target.homeTeam)
      && (forall i :: 0 <= i < |r| && entries[i].team != template.homeTeam && entries[i].team == template.awayTeam ==>
            r[i].team == target.awayTeam)
      && (forall i :: 0 <= i < |r| && entries[i].team != template.homeTeam && entries[i].team != template.awayTeam ==>
            r[i].team == entries[i].team)
      && (forall i :: 0 <= i < |r| ==> r[i].message == ReplaceTrailingTeam(entries[i].message, Replacements(template, target)))
      && (forall i :: 0 <= i < |r| ==>
            r[i].(matchId := entries[i].matchId, team := entries[i].team, message := entries[i].message) == entries[i])
  {
  }

  /** A cloned message that ends with a group naming the template's home team (distinct from
      its away team) ends with the target's home team instead. */
  lemma CloneRenamesTrailingHomeTeam(e: FeedEntry, template: SeedMatch, target: SeedMatch, p: nat, q: nat, y: string)
    requires e.message.Val? && TrailingAt(e.message.v, p, q)
    requires forall p': nat, q': nat :: p' < p ==> !TrailingAt(e.message.v, p', q')
    requires template.homeTeam == Val(e.message.v[p + 1..q]) && template.awayTeam != template.homeTeam
    requires target.homeTeam == Val(y) && y != "" && '$' !in y
    ensures CloneEntry(e, template, target).message == Val(e.message.v[..p] + "(" + y + ")")
  {
    ReplaceTrailingTeamRewrites(e.message.v, p, q, Replacements(template, target), y);
  }

  /** `byMatchId.has(id)`: the feed has an entry with this integer match id. */
  predicate HasEntries(feed: seq<FeedEntry>, id: MatchRef) {
    id.IntRef? && exists i | 0 <= i < |feed| :: feed[i].matchId == id
  }

  function ForMatch(id: MatchRef): FeedEntry -> bool {
    (e: FeedEntry) => e.matchId == id
  }

  /** `byMatchId.get(id)`: the entries of one match, in feed order. */
  function EntriesOf(feed: seq<FeedEntry>, id: MatchRef): seq<FeedEntry> {
    Filter(feed, ForMatch(id))
  }

  lemma EntriesOfMembers(feed: seq<FeedEntry>, id: MatchRef, e: FeedEntry)
    ensures e in EntriesOf(feed, id) <==> e in feed && e.matchId == id
  {
  }

  predicate IsTemplate(feed: seq<FeedEntry>, m: SeedMatch, sport: Field<string>) {
    m.sport == sport && HasEntries(feed, m.id)
  }

  /** `templateBySport.get(sport)`: the first seed match of that sport with entries. */
  function Template(feed: seq<FeedEntry>, ms: seq<SeedMatch>, sport: Field<string>): Option<SeedMatch> {
    if ms == [] then None
    else if IsTemplate(feed, ms[0], sport) then Some(ms[0])
    else Template(feed, ms[1..], sport)
  }

  /** There is a template exactly when some seed match of the sport has entries, and it
      is the first such match. */
  lemma {:induction false} TemplateIsFirst(feed: seq<FeedEntry>, ms: seq<SeedMatch>, sport: Field<string>)
    ensures Template(feed, ms, sport).None? <==> forall i :: 0 <= i < |ms| ==> !IsTemplate(feed, ms[i], sport)
    ensures Template(feed, ms, sport).Some? ==>
              exists i :: 0 <= i < |ms| && ms[i] == Template(feed, ms, sport).value && IsTemplate(feed, ms[i], sport) &&
                          forall j :: 0 <= j < i ==> !IsTemplate(feed, ms[j], sport)
  {
    if ms != [] && !IsTemplate(feed, ms[0], sport) {
      TemplateIsFirst(feed, ms[1..], sport);
      var r := Template(feed, ms[1..], sport);
      if r.Some? {
        var i :| 0 <= i < |ms[1..]| && ms[1..][i] == r.value && IsTemplate(feed, ms[1..][i], sport) &&
                 forall j :: 0 <= j < i ==> !IsTemplate(feed, ms[1..][j], sport);
        forall j | 0 <= j < i + 1 ensures !IsTemplate(feed, ms[j], sport) {
          if j > 0 { assert ms[j] == ms[1..][j - 1]; }
        }
        assert ms[i + 1] == r.value;
      } else {
        forall i | 0 <= i < |ms| ensures !IsTemplate(feed, ms[i], sport) {
          if i > 0 { assert ms[i] == ms[1..][i - 1]; }
        }
      }
    }
  }

  /** What the last loop appends for one seed match. */
  function ClonesFor(feed: seq<FeedEntry>, ms: seq<SeedMatch>, m: SeedMatch): seq<FeedEntry> {
    if HasEntries(feed, m.id) then []
    else
      match Template(feed, ms, m.sport)
      case None => []
      case Some(t) => CloneCommentaryEntries(EntriesOf(feed, t.id), t, m)
  }

  /** What the last loop appends for the first `n` seed matches, in their order. */
  function Clones(feed: seq<FeedEntry>, ms: seq<SeedMatch>, n: nat): seq<FeedEntry>
    requires n <= |ms|
  {
    if n == 0 then [] else Clones(feed, ms, n - 1) + ClonesFor(feed, ms, ms[n - 1])
  }

  /** The value `expandFeedForMatches(feed, seedMatches)` returns. */
  function Expanded(feed: seq<FeedEntry>, ms: seq<SeedMatch>): seq<FeedEntry> {
    if ms == [] then feed else feed + Clones(feed, ms, |ms|)
  }

  /** `e` is the clone, for a seed match without entries of its own, of an entry of the
      first seed match of the same sport that has entries. */
  ghost predicate ClonedFromTemplate(feed: seq<FeedEntry>, ms: seq<SeedMatch>, e: FeedEntry) {
    exists m, t, e0 :: m in ms && !HasEntries(feed, m.id) && Template(feed, ms, m.sport) == Some(t) &&
                       e0 in feed && e0.matchId == t.id && e == CloneEntry(e0, t, m)
  }

  /** Every appended entry is such a clone. */
  lemma {:induction false} ClonesAreFromTemplates(feed: seq<FeedEntry>, ms: seq<SeedMatch>, n: nat, e: FeedEntry)
    requires n <= |ms| && e in Clones(feed, ms, n)
    ensures ClonedFromTemplate(feed, ms, e)
  {
    var m := ms[n - 1];
    if e in Clones(feed, ms, n - 1) {
      ClonesAreFromTemplates(feed, ms, n - 1, e);
    } else {
      assert e in ClonesFor(feed, ms, m);
      var t := Template(feed, ms, m.sport).value;
      var src := EntriesOf(feed, t.id);
      var k :| 0 <= k < |src| && CloneCommentaryEntries(src, t, m)[k] == e;
      EntriesOfMembers(feed, t.id, src[k]);
      assert m in ms;
    }
  }

  /** Seed matches that all have entries of their own get no clones. */
  lemma {:induction false} NoClonesWithoutMissing(feed: seq<FeedEntry>, ms: seq<SeedMatch>, n: nat)
    requires n <= |ms| && forall m :: m in ms ==> HasEntries(feed, m.id)
    ensures Clones(feed, ms, n) == []
  {
    if n > 0 {
      var m := ms[n - 1];
      assert m in ms;
      assert HasEntries(feed, m.id);
      assert ClonesFor(feed, ms, m) == [];
      NoClonesWithoutMissing(feed, ms, n - 1);
    }
  }

  /** `expandFeedForMatches` returns the feed unchanged when there are no seed matches or
      when every seed match has entries; otherwise the feed is a prefix of the result and
      every entry after it is a clone made for a seed match without entries. */
  lemma ExpandedShape(feed: seq<FeedEntry>, ms: seq<SeedMatch>)
    ensures feed <= Expanded(feed, ms)
    ensures (forall m :: m in ms ==> HasEntries(feed, m.id)) ==> Expanded(feed, ms) == feed
    ensures forall k :: |feed| <= k < |Expanded(feed, ms)| ==> ClonedFromTemplate(feed, ms, Expanded(feed, ms)[k])
  {
    if ms != [] && forall m :: m in ms ==> HasEntries(feed, m.id) {
      NoClonesWithoutMissing(feed, ms, |ms|);
    }
    forall k | |feed| <= k < |Expanded(feed, ms)| ensures ClonedFromTemplate(feed, ms, Expanded(feed, ms)[k]) {
      ExpandedEntry(feed, ms, k);
    }
  }

  lemma ExpandedEntry(feed: seq<FeedEntry>, ms: seq<SeedMatch>, k: nat)
    requires |feed| <= k < |Expanded(feed, ms)|
    ensures ClonedFromTemplate(feed, ms, Expanded(feed, ms)[k])
  {
    var c := Clones(feed, ms, |ms|);
    assert Expanded(feed, ms) == feed + c;
    assert Expanded(feed, ms)[k] == c[k - |feed|];
    ClonesAreFromTemplates(feed, ms, |ms|, c[k - |feed|]);
  }

  lemma EntriesOfAppend(feed: seq<FeedEntry>, e: FeedEntry, id: MatchRef)
    ensures EntriesOf(feed + [e], id) == EntriesOf(feed, id) + (if e.matchId == id then [e] else [])
  {
    FilterDistributes(feed, [e], ForMatch(id));
  }

  lemma TemplateAppend(feed: seq<FeedEntry>, ms: seq<SeedMatch>, m: SeedMatch, sport: Field<string>)
    ensures Template(feed, ms + [m], sport)
            == if Template(feed, ms, sport).Some? then Template(feed, ms, sport)
               else if IsTemplate(feed, m, sport) then Some(m) else None
  {
    var r := Template(feed, ms + [m], sport);
    var l := Template(feed, ms, sport);
    TemplateIsFirst(feed, ms + [m], sport);
    TemplateIsFirst(feed, ms, sport);
    var ms' := ms + [m];
    assert forall k :: 0 <= k < |ms| ==> ms'[k] == ms[k];
    if l.Some? {
      var i :| 0 <= i < |ms| && ms[i] == l.value && IsTemplate(feed, ms[i], sport) &&
               forall j :: 0 <= j < i ==> !IsTemplate(feed, ms[j], sport);
      var i' :| 0 <= i' < |ms'| && ms'[i'] == r.value && IsTemplate(feed, ms'[i'], sport) &&
                forall j :: 0 <= j < i' ==> !IsTemplate(feed, ms'[j], sport);
      assert i == i';
    } else if IsTemplate(feed, m, sport) {
      assert ms'[|ms|] == m;
      var i' :| 0 <= i' < |ms'| && ms'[i'] == r.value && IsTemplate(feed, ms'[i'], sport) &&
                forall j :: 0 <= j < i' ==> !IsTemplate(feed, ms'[j], sport);
      assert i' == |ms|;
    }
  }

  /** The integer match ids that occur in `feed`. */
  function IntIds(feed: seq<FeedEntry>): set<int> {
    set e | e in feed && e.matchId.IntRef? :: e.matchId.n
  }

  /** `byMatchId` after the first loop over `feed`. */
  function Groups(feed: seq<FeedEntry>): map<int, seq<FeedEntry>> {
    map n | n in IntIds(feed) :: EntriesOf(feed, IntRef(n))
  }

  /** `byMatchId` holds exactly the integer ids that have entries, each with its entries in
      feed order. */
  lemma GroupsAre(feed: seq<FeedEntry>, n: int)
    ensures n in Groups(feed) <==> HasEntries(feed, IntRef(n))
    ensures n in Groups(feed) ==> Groups(feed)[n] == EntriesOf(feed, IntRef(n))
  {
    if HasEntries(feed, IntRef(n)) {
      var i :| 0 <= i < |feed| && feed[i].matchId == IntRef(n);
      assert feed[i] in feed;
    }
  }

  /** One step of the first loop. */
  function PushEntry(byMatchId: map<int, seq<FeedEntry>>, e: FeedEntry): map<int, seq<FeedEntry>> {
    if !e.matchId.IntRef? then byMatchId
    else
      var key := e.matchId.n;
      byMatchId[key := (if key in byMatchId then byMatchId[key] else []) + [e]]
  }

  lemma GroupStep(feed: seq<FeedEntry>, e: FeedEntry)
    ensures PushEntry(Groups(feed), e) == Groups(feed + [e])
  {
    var b := PushEntry(Groups(feed), e);
    var g := Groups(feed + [e]);
    forall n ensures n in b <==> n in g {
      GroupsAre(feed, n);
      GroupsAre(feed + [e], n);
      HasEntriesAppend(feed, e, IntRef(n));
    }
    forall n | n in b ensures b[n] == g[n] {
      GroupsAre(feed, n);
      GroupsAre(feed + [e], n);
      HasEntriesAppend(feed, e, IntRef(n));
      EntriesOfAppend(feed, e, IntRef(n));
      if !HasEntries(feed, IntRef(n)) {
        NoEntries(feed, IntRef(n));
      }
    }
    assert b.Keys == g.Keys;
  }

  lemma NoEntries(feed: seq<FeedEntry>, id: MatchRef)
    requires id.IntRef? && !HasEntries(feed, id)
    ensures EntriesOf(feed, id) == []
  {
    forall x | x in feed ensures !ForMatch(id)(x) {
      var i :| 0 <= i < |feed| && feed[i] == x;
    }
    FilterNone(feed, ForMatch(id));
  }

  /** The first loop: the entries with an integer match id, grouped by that id. */
  method GroupByMatchId(feed: seq<FeedEntry>) returns (byMatchId: map<int, seq<FeedEntry>>)
    ensures byMatchId == Groups(feed)
  {
    byMatchId := map[];
    for i := 0 to |feed|
      invariant byMatchId == Groups(feed[..i])
    {
      var entry := feed[i];
      ghost var before := byMatchId;
      if entry.matchId.IntRef? {
        var key := entry.matchId.n;
        if key !in byMatchId {
          byMatchId := byMatchId[key := []];
        }
        byMatchId := byMatchId[key := byMatchId[key] + [entry]];
      }
      assert byMatchId == PushEntry(before, entry);
      assert byMatchId == Groups(feed[..i + 1]) by {
        assert feed[..i + 1] == feed[..i] + [entry];
        GroupStep(feed[..i], entry);
      }
    }
    assert feed[..|feed|] == feed;
  }

  lemma HasEntriesAppend(feed: seq<FeedEntry>, e: FeedEntry, id: MatchRef)
    ensures HasEntries(feed + [e], id) <==> HasEntries(feed, id) || (id.IntRef? && e.matchId == id)
  {
    var f := feed + [e];
    assert forall j :: 0 <= j < |feed| ==> f[j] == feed[j];
    assert f[|feed|] == e;
  }

  /** `templateBySport` maps each sport to its template among `ms`. */
  ghost predicate TemplatesOf(templateBySport: map<Field<string>, SeedMatch>, feed: seq<FeedEntry>, ms: seq<SeedMatch>) {
    && (forall s :: s in templateBySport <==> Template(feed, ms, s).Some?)
    && (forall s :: s in templateBySport ==> templateBySport[s] == Template(feed, ms, s).value)
  }

  /** The second loop: per sport, the first seed match that has entries. */
  method PickTemplates(feed: seq<FeedEntry>, byMatchId: map<int, seq<FeedEntry>>, seedMatches: seq<SeedMatch>)
    returns (templateBySport: map<Field<string>, SeedMatch>)
    requires byMatchId == Groups(feed)
    ensures TemplatesOf(templateBySport, feed, seedMatches)
  {
    templateBySport := map[];
    for j := 0 to |seedMatches|
      invariant TemplatesOf(templateBySport, feed, seedMatches[..j])
    {
      var m := seedMatches[j];
      assert seedMatches[..j + 1] == seedMatches[..j] + [m];
      forall s ensures Template(feed, seedMatches[..j + 1], s)
                       == if Template(feed, seedMatches[..j], s).Some? then Template(feed, seedMatches[..j], s)
                          else if IsTemplate(feed, m, s) then Some(m) else None {
        TemplateAppend(feed, seedMatches[..j], m, s);
      }
      if m.id.IntRef? {
        GroupsAre(feed, m.id.n);
      }
      var hasEntries := m.id.IntRef? && m.id.n in byMatchId;
      if m.sport !in templateBySport && hasEntries {
        templateBySport := templateBySport[m.sport := m];
      }
    }
    assert seedMatches[..|seedMatches|] == seedMatches;
  }

  /** The body of the last loop for one seed match: nothing when it has entries or no
      template of its sport exists, else the clones of the template's entries. */
  method ClonesForMatch(feed: seq<FeedEntry>, byMatchId: map<int, seq<FeedEntry>>,
                        templateBySport: map<Field<string>, SeedMatch>, seedMatches: seq<SeedMatch>, m: SeedMatch)
    returns (clones: seq<FeedEntry>)
    requires byMatchId == Groups(feed)
    requires TemplatesOf(templateBySport, feed, seedMatches)
    ensures clones == ClonesFor(feed, seedMatches, m)
  {
    if m.id.IntRef? {
      GroupsAre(feed, m.id.n);
    }
    if m.id.IntRef? && m.id.n in byMatchId {
      return [];
    }
    if m.sport !in templateBySport {
      return [];
    }
    var templateMatch := templateBySport[m.sport];
    TemplateIsFirst(feed, seedMatches, m.sport);
    assert IsTemplate(feed, templateMatch, m.sport);
    GroupsAre(feed, templateMatch.id.n);
    var templateEntries := if templateMatch.id.IntRef? && templateMatch.id.n in byMatchId then byMatchId[templateMatch.id.n] else [];
    clones := CloneCommentaryEntries(templateEntries, templateMatch, m);
  }

  lemma ClonesNext(feed: seq<FeedEntry>, ms: seq<SeedMatch>, k: nat)
    requires k < |ms|
    ensures feed + Clones(feed, ms, k + 1) == (feed + Clones(feed, ms, k)) + ClonesFor(feed, ms, ms[k])
  {
  }

  /** The last loop: the clones for every seed match, appended to the feed. */
  method AppendClones(feed: seq<FeedEntry>, byMatchId: map<int, seq<FeedEntry>>,
                      templateBySport: map<Field<string>, SeedMatch>, seedMatches: seq<SeedMatch>)
    returns (expanded: seq<FeedEntry>)
    requires byMatchId == Groups(feed)
    requires TemplatesOf(templateBySport, feed, seedMatches)
    ensures expanded == feed + Clones(feed, seedMatches, |seedMatches|)
  {
    expanded := feed;
    for k := 0 to |seedMatches|
      invariant expanded == feed + Clones(feed, seedMatches, k)
    {
      var clones := ClonesForMatch(feed, byMatchId, templateBySport, seedMatches, seedMatches[k]);
      ClonesNext(feed, seedMatches, k);
      expanded := expanded + clones;
    }
  }

  /** `expandFeedForMatches(feed, seedMatches)`: group the integer-keyed entries by match,
      pick a template per sport, and append clones for the seed matches without entries. */
  method ExpandFeedForMatches(feed: seq<FeedEntry>, seedMatches: seq<SeedMatch>) returns (expanded: seq<FeedEntry>)
    ensures expanded == Expanded(feed, seedMatches)
  {
    if |seedMatches| == 0 {
      return feed;
    }
    var byMatchId := GroupByMatchId(feed);
    var templateBySport := PickTemplates(feed, byMatchId, seedMatches);
    expanded := AppendClones(feed, byMatchId, templateBySport, seedMatches);
  }
}