/** Text helpers of the seed script: the innings rank read from a period label, the batting
    side it implies, and the rewrite of a trailing "(Team)" in a commentary message. Strings
    are sequences of UTF-16 code units, as in JavaScript. */
module SeedText {
  import opened Common

  /** A JavaScript value is falsy as a string field when it is missing, `null` or `""`. */
  predicate Falsy(f: Field<string>) {
    f.Undefined? || f.Null? || f == Val("")
  }

  predicate IsDigit(c: char) {
    '0' <= c <= '9'
  }

  /** `toLowerCase` on the ASCII range; other characters are kept. */
  function LowerChar(c: char): (r: char)
    ensures 'A' <= c <= 'Z' ==> r as int == c as int + 32
    ensures !('A' <= c <= 'Z') ==> r == c
  {
    if 'A' <= c <= 'Z' then (c as int + 32) as char else c
  }

  function Lower(s: string): (r: string)
    ensures |r| == |s| && forall i :: 0 <= i < |s| ==> r[i] == LowerChar(s[i])
  {
    seq(|s|, i requires 0 <= i < |s| => LowerChar(s[i]))
  }

  predicate OccursAt(s: string, w: string, i: int) {
    0 <= i && i + |w| <= |s| && s[i..i + |w|] == w
  }

  /** `s.includes(w)`. */
  predicate Contains(s: string, w: string) {
    exists i | 0 <= i <= |s| - |w| :: OccursAt(s, w, i)
  }

  /** The end of the run of digits that starts at `p`. */
  function DigitRunEnd(s: string, p: nat): (e: nat)
    requires p <= |s|
    ensures p <= e <= |s|
    ensures forall k :: p <= k < e ==> IsDigit(s[k])
    ensures e == |s| || !IsDigit(s[e])
    decreases |s| - p
  {
    if p < |s| && IsDigit(s[p]) then DigitRunEnd(s, p + 1) else p
  }

  predicate OrdinalSuffixAt(s: string, e: nat) {
    e + 2 <= |s| && s[e..e + 2] in ["st", "nd", "rd", "th"]
  }

  /** `/(\d+)(st|nd|rd|th)/` matches at `p` with the digits `s[p..e]`: one or more digits,
      then one of the four suffixes. */
  ghost predicate RegexMatch(s: string, p: nat, e: nat) {
    p < e <= |s| && (forall k :: p <= k < e ==> IsDigit(s[k])) && OrdinalSuffixAt(s, e)
  }

  lemma MatchDigitAt(s: string, p: nat, e: nat, k: nat)
    requires RegexMatch(s, p, e)
    ensures p <= k < e ==> IsDigit(s[k])
  {
  }

  lemma RunDigitAt(s: string, p: nat, k: nat)
    requires p <= |s|
    ensures p <= k < DigitRunEnd(s, p) ==> IsDigit(s[k])
  {
  }

  lemma SuffixNotDigit(s: string, e: nat)
    requires OrdinalSuffixAt(s, e)
    ensures !IsDigit(s[e])
  {
    assert s[e..e + 2][0] == s[e];
  }

  /** The decision the matcher takes at `p`: the greedy digit run, followed by a suffix. */
  predicate OrdinalAt(s: string, p: nat) {
    p < |s| && IsDigit(s[p]) && OrdinalSuffixAt(s, DigitRunEnd(s, p))
  }

  /** At a given start the regex has exactly one way to match, ending at the digit run's
      end: a shorter run would leave a digit where the suffix must begin. */
  lemma OrdinalAtIsRegexMatch(s: string, p: nat, e: nat)
    requires p <= |s|
    ensures RegexMatch(s, p, e) ==> OrdinalAt(s, p) && e == DigitRunEnd(s, p)
    ensures OrdinalAt(s, p) ==> RegexMatch(s, p, DigitRunEnd(s, p))
  {
    if RegexMatch(s, p, e) {
      assert IsDigit(s[p]);
      var end := DigitRunEnd(s, p);
      MatchDigitAt(s, p, e, end);
      RunDigitAt(s, p, e);
      SuffixNotDigit(s, e);
    }
  }

  /** The leftmost start at or after `from` where the ordinal regex matches. */
  function FirstOrdinal(s: string, from: nat): (r: Option<nat>)
    requires from <= |s|
    ensures r.Some? ==> from <= r.value < |s| && OrdinalAt(s, r.value)
    ensures r.Some? ==> forall p :: from <= p < r.value ==> !OrdinalAt(s, p)
    ensures r.None? ==> forall p :: from <= p <= |s| ==> !OrdinalAt(s, p)
    decreases |s| - from
  {
    if from == |s| then None
    else if OrdinalAt(s, from) then Some(from)
    else FirstOrdinal(s, from + 1)
  }

  /** `Number(digits)` for a string of decimal digits. */
  function DecimalValue(ds: string): nat
    requires forall k :: 0 <= k < |ds| ==> IsDigit(ds[k])
    decreases |ds|
  {
    if ds == [] then 0
    else
      var last := ds[|ds| - 1];
      assert IsDigit(last);
      DecimalValue(ds[..|ds| - 1]) * 10 + (last as int - '0' as int)
  }

  /** `inningsRank(period)`: 0 for a falsy period; otherwise, on the lowercased text, the
      number of the leftmost "<digits>st|nd|rd|th", else 1 to 4 for the first of "first",
      "second", "third", "fourth" that occurs, else 0. */
  function InningsRank(period: Field<string>): nat
  {
    if Falsy(period) then 0
    else
      var lower := Lower(period.v);
      match FirstOrdinal(lower, 0)
      case Some(p) =>
        var e := DigitRunEnd(lower, p);
        assert forall k :: 0 <= k < e - p ==> lower[p..e][k] == lower[p + k];
        DecimalValue(lower[p..e])
      case None =>
        if Contains(lower, "first") then 1
        else if Contains(lower, "second") then 2
        else if Contains(lower, "third") then 3
        else if Contains(lower, "fourth") then 4
        else 0
  }

  /** A falsy period is innings 0; a period without an ordinal is numbered by the first of
      the four words it contains, in the order "first", "second", "third", "fourth". */
  lemma InningsRankWords(period: Field<string>)
    ensures Falsy(period) ==> InningsRank(period) == 0
    ensures !Falsy(period) && FirstOrdinal(Lower(period.v), 0).None? ==>
              InningsRank(period) == if Contains(Lower(period.v), "first") then 1
                                     else if Contains(Lower(period.v), "second") then 2
                                     else if Contains(Lower(period.v), "third") then 3
                                     else if Contains(Lower(period.v), "fourth") then 4
                                     else 0
  {
  }

  /** When the ordinal regex matches, the rank is the number its digit group spells, read
      from the leftmost match. */
  lemma InningsRankOrdinal(period: string, p: nat, e: nat)
    requires period != ""
    requires RegexMatch(Lower(period), p, e)
    requires forall p': nat, e': nat :: p' < p ==> !RegexMatch(Lower(period), p', e')
    ensures InningsRank(Val(period)) == DecimalValue(Lower(period)[p..e])
  {
    var lower := Lower(period);
    OrdinalAtIsRegexMatch(lower, p, e);
    var first := FirstOrdinal(lower, 0);
    assert first.Some?;
    OrdinalAtIsRegexMatch(lower, first.value, DigitRunEnd(lower, first.value));
  }

  /** A leading ordinal gives its number. */
  lemma InningsRankFirstInnings()
    ensures InningsRank(Val("1st Innings")) == 1
  {
    var one := Lower("1st Innings");
    LowerOne("1st ", 'I', "nnings", 'i');
    assert "1st Innings" == "1st " + ['I'] + "nnings";
    assert one == "1st innings";
    assert OrdinalAt(one, 0) by {
      assert DigitRunEnd(one, 1) == 1;
      assert one[1..3] == "st";
    }
    assert one[0..1] == "1";
    assert DecimalValue("1") == 1 by { assert "1"[..0] == ""; }
  }

  /** Without digits the spelled-out word decides. */
  lemma InningsRankSecondInnings()
    ensures InningsRank(Val("Second innings")) == 2
  {
    var second := Lower("Second innings");
    LowerOne("", 'S', "econd innings", 's');
    assert "Second innings" == "" + ['S'] + "econd innings";
    assert second == "second" + " innings";
    NoOrdinalWithoutDigits(second);
    NoBigram(second, "first");
    assert OccursAt(second, "second", 0);
  }

  /** Lower-casing a text whose only upper-case letter is `c`, between `a` and `rest`. */
  lemma LowerOne(a: string, c: char, rest: string, l: char)
    requires 'A' <= c <= 'Z' && l as int == c as int + 32
    requires forall i :: 0 <= i < |a| ==> !('A' <= a[i] <= 'Z')
    requires forall i :: 0 <= i < |rest| ==> !('A' <= rest[i] <= 'Z')
    ensures Lower(a + [c] + rest) == a + [l] + rest
  {
  }

  /** A label with neither an ordinal nor a spelled-out innings is innings 0. */
  lemma InningsRankUnknown()
    ensures InningsRank(Val("Pre-match")) == 0
  {
    var pre := Lower("Pre-match");
    LowerOne("", 'P', "re-match", 'p');
    assert "Pre-match" == "" + ['P'] + "re-match";
    assert pre == "pre-match";
    NoOrdinalWithoutDigits(pre);
    NoBigram(pre, "first");
    NoBigram(pre, "second");
    NoBigram(pre, "third");
    NoBigram(pre, "fourth");
  }

  /** A text in which the first two letters of `w` never occur in a row does not contain `w`. */
  lemma NoBigram(s: string, w: string)
    requires |w| >= 2 && forall i :: 0 <= i < |s| - 1 ==> s[i] != w[0] || s[i + 1] != w[1]
    ensures !Contains(s, w)
  {
    forall i | 0 <= i <= |s| - |w| ensures !OccursAt(s, w, i) {
      assert s[i..i + |w|][0] == s[i];
      assert s[i..i + |w|][1] == s[i + 1];
    }
  }

  lemma NoOrdinalWithoutDigits(s: string)
    requires forall k :: 0 <= k < |s| ==> !IsDigit(s[k])
    ensures FirstOrdinal(s, 0).None?
  {
  }

  /** Field names are compared with `===`. */
  function CricketBattingTeam(period: Field<string>, homeTeam: Field<string>, awayTeam: Field<string>): Field<string>
  {
    var rank := InningsRank(period);
    if rank == 1 then homeTeam else if rank == 2 then awayTeam else Null
  }

  /** Read from the period text: the leftmost ordinal "1st…" names the home team, "2nd…"
      the away team, and any other number no team. */
  lemma CricketBattingTeamOrdinal(period: string, p: nat, e: nat, homeTeam: Field<string>, awayTeam: Field<string>)
    requires period != ""
    requires RegexMatch(Lower(period), p, e)
    requires forall p': nat, e': nat :: p' < p ==> !RegexMatch(Lower(period), p', e')
    ensures CricketBattingTeam(Val(period), homeTeam, awayTeam)
            == if DecimalValue(Lower(period)[p..e]) == 1 then homeTeam
               else if DecimalValue(Lower(period)[p..e]) == 2 then awayTeam
               else Null
  {
    InningsRankOrdinal(period, p, e);
  }

  /** A falsy period names no team. Without an ordinal, a period containing "first" names
      the home team, one containing "second" but not "first" the away team, and one
      containing neither no team. */
  lemma CricketBattingTeamWords(period: Field<string>, homeTeam: Field<string>, awayTeam: Field<string>)
    ensures Falsy(period) ==> CricketBattingTeam(period, homeTeam, awayTeam) == Null
    ensures !Falsy(period) && FirstOrdinal(Lower(period.v), 0).None? ==>
              && (Contains(Lower(period.v), "first") ==> CricketBattingTeam(period, homeTeam, awayTeam) == homeTeam)
              && (!Contains(Lower(period.v), "first") && Contains(Lower(period.v), "second") ==>
                    CricketBattingTeam(period, homeTeam, awayTeam) == awayTeam)
              && (!Contains(Lower(period.v), "first") && !Contains(Lower(period.v), "second") ==>
                    CricketBattingTeam(period, homeTeam, awayTeam) == Null)
  {
    InningsRankWords(period);
  }

  /** The labels of the seed feed: the first innings is batted by the home team, the
      second by the away team, and a pre-match entry by neither. */
  lemma CricketBattingTeamLabels(homeTeam: Field<string>, awayTeam: Field<string>)
    ensures CricketBattingTeam(Val("1st Innings"), homeTeam, awayTeam) == homeTeam
    ensures CricketBattingTeam(Val("Second innings"), homeTeam, awayTeam) == awayTeam
    ensures CricketBattingTeam(Val("Pre-match"), homeTeam, awayTeam) == Null
  {
    InningsRankFirstInnings();
    InningsRankSecondInnings();
    InningsRankUnknown();
  }

  /** `\s` of JavaScript regular expressions. */
  predicate IsSpace(c: char) {
    || c in {'\t', '\n', '\U{000B}', '\U{000C}', '\r', ' ', '\U{00A0}', '\U{1680}'}
    || '\U{2000}' <= c <= '\U{200A}'
    || c in {'\U{2028}', '\U{2029}', '\U{202F}', '\U{205F}', '\U{3000}', '\U{FEFF}'}
  }

  /** `/\(([^)]+)\)\s*$/` matches from `p` with the closing parenthesis at `q`: an opening
      parenthesis, one or more characters other than `)`, a `)`, then only white space up to
      the end of the text. */
  ghost predicate TrailingAt(s: string, p: nat, q: nat) {
    && p + 1 < q < |s|
    && s[p] == '(' && s[q] == ')'
    && (forall k :: p < k < q ==> s[k] != ')')
    && (forall k :: q < k < |s| ==> IsSpace(s[k]))
  }

  /** The first `)` at or after `from`. */
  function NextClose(s: string, from: nat): (r: Option<nat>)
    requires from <= |s|
    ensures r.Some? ==> from <= r.value < |s| && s[r.value] == ')' && forall k :: from <= k < r.value ==> s[k] != ')'
    ensures r.None? ==> forall k :: from <= k < |s| ==> s[k] != ')'
    decreases |s| - from
  {
    if from == |s| then None
    else if s[from] == ')' then Some(from)
    else NextClose(s, from + 1)
  }

  /** `NextClose` from `from` finds a `)` that no earlier `)` precedes. */
  lemma {:induction false} NextCloseReaches(s: string, from: nat, q: nat)
    requires from <= q < |s| && s[q] == ')'
    requires forall k :: from <= k < q ==> s[k] != ')'
    ensures NextClose(s, from) == Some(q)
    decreases q - from
  {
    if from < q {
      NextCloseReaches(s, from + 1, q);
    }
  }

  predicate AllSpace(s: string) {
    forall k :: 0 <= k < |s| ==> IsSpace(s[k])
  }

  /** Whether the trailing group regex matches from `p`, and where it closes. */
  function TrailingFrom(s: string, p: nat): (r: Option<nat>)
    requires p < |s|
    ensures r.Some? ==> TrailingAt(s, p, r.value)
    ensures r.None? ==> forall q: nat :: !TrailingAt(s, p, q)
  {
    if s[p] != '(' || p + 1 == |s| then None
    else
      match NextClose(s, p + 1)
      case None => None
      case Some(q) =>
        if q > p + 1 && AllSpace(s[q + 1..]) then
          assert forall k :: q < k < |s| ==> s[q + 1..][k - q - 1] == s[k];
          Some(q)
        else
          TrailingClosesFirst(s, p);
          None
  }

  /** A group that matches from `p` closes at the first `)` after it. */
  lemma TrailingClosesFirst(s: string, p: nat)
    requires p < |s|
    ensures forall q: nat :: TrailingAt(s, p, q) ==> NextClose(s, p + 1) == Some(q) && AllSpace(s[q + 1..])
  {
    forall q: nat | TrailingAt(s, p, q)
      ensures NextClose(s, p + 1) == Some(q) && AllSpace(s[q + 1..])
    {
      NextCloseReaches(s, p + 1, q);
      assert forall k :: q < k < |s| ==> s[q + 1..][k - q - 1] == s[k];
    }
  }

  lemma NoCloseInside(s: string, p: nat, q: nat, k: nat)
    requires TrailingAt(s, p, q)
    ensures p < k < q ==> s[k] != ')'
  {
  }

  /** From a given start the group can close in one place only: at the first `)`. */
  lemma TrailingUnique(s: string, p: nat, q: nat, q': nat)
    requires TrailingAt(s, p, q) && TrailingAt(s, p, q')
    ensures q == q'
  {
    NoCloseInside(s, p, q, q');
    NoCloseInside(s, p, q', q);
  }

  /** The leftmost match of the trailing group regex at or after `from`. */
  function FindTrailing(s: string, from: nat): (r: Option<(nat, nat)>)
    requires from <= |s|
    ensures r.Some? ==> from <= r.value.0 && TrailingAt(s, r.value.0, r.value.1)
    ensures r.Some? ==> forall p: nat, q: nat :: from <= p < r.value.0 ==> !TrailingAt(s, p, q)
    ensures r.None? ==> forall p: nat, q: nat :: from <= p ==> !TrailingAt(s, p, q)
    decreases |s| - from
  {
    if from == |s| then None
    else
      match TrailingFrom(s, from)
      case Some(q) => Some((from, q))
      case None => FindTrailing(s, from + 1)
  }

  /** The replacement template of `String.prototype.replace` for a pattern without capture
      groups (the GetSubstitution steps of ECMA-262): `$$`, `$&`, `` $` `` and `$'` are
      expanded, every other `$` is literal. */
  function Substitute(t: string, matched: string, before: string, after: string): string
    decreases |t|
  {
    if t == [] then []
    else if t[0] == '$' && |t| >= 2 && t[1] in {'$', '&', '`', '\''} then
      (match t[1]
       case '$' => "$"
       case '&' => matched
       case '`' => before
       case _ => after)
      + Substitute(t[2..], matched, before, after)
    else [t[0]] + Substitute(t[1..], matched, before, after)
  }

  /** A template without `$` is inserted as written. */
  lemma {:induction false} SubstitutePlain(t: string, matched: string, before: string, after: string)
    requires '$' !in t
    ensures Substitute(t, matched, before, after) == t
    decreases |t|
  {
    if t != [] {
      assert t[1..] == t[1..];
      assert '$' !in t[1..] by {
        forall k | 0 <= k < |t| - 1 ensures t[1..][k] != '$' { assert t[1..][k] == t[k + 1]; }
      }
      SubstitutePlain(t[1..], matched, before, after);
    }
  }

  /** `replaceTrailingTeam(message, replacements)`: a non-string message, one without a
      trailing "(X)", or one whose X maps to a falsy value is returned as it is; otherwise
      the trailing group, white space included, becomes "(Y)". */
  function ReplaceTrailingTeam(message: Field<string>, replacements: map<Field<string>, Field<string>>): (r: Field<string>)
    ensures !message.Val? ==> r == message
    ensures message.Val? && FindTrailing(message.v, 0).None? ==> r == message
    ensures r.Null? ==> message.Null?
  {
    if !message.Val? then message
    else
      var s := message.v;
      match FindTrailing(s, 0)
      case None => message
      case Some((p, q)) =>
        var key := Val(s[p + 1..q]);
        var nextTeam := if key in replacements then replacements[key] else Undefined;
        if Falsy(nextTeam) then message
        else Val(s[..p] + Substitute("(" + nextTeam.v + ")", s[p..], s[..p], ""))
  }

  /** A message whose trailing group names no mapped team is returned as it is. */
  lemma ReplaceTrailingTeamUnmapped(s: string, replacements: map<Field<string>, Field<string>>)
    requires forall p: nat, q: nat :: TrailingAt(s, p, q) ==>
               Val(s[p + 1..q]) !in replacements || Falsy(replacements[Val(s[p + 1..q])])
    ensures ReplaceTrailingTeam(Val(s), replacements) == Val(s)
  {
    var found := FindTrailing(s, 0);
    if found.Some? {
      assert TrailingAt(s, found.value.0, found.value.1);
    }
  }

  /** When the message ends with "(X)" and white space, X maps to a non-empty team Y and Y
      has no `$`, the result keeps everything before the group and ends in "(Y)". */
  lemma ReplaceTrailingTeamRewrites(s: string, p: nat, q: nat, replacements: map<Field<string>, Field<string>>, y: string)
    requires TrailingAt(s, p, q)
    requires forall p': nat, q': nat :: p' < p ==> !TrailingAt(s, p', q')
    requires Val(s[p + 1..q]) in replacements && replacements[Val(s[p + 1..q])] == Val(y)
    requires y != "" && '$' !in y
    ensures ReplaceTrailingTeam(Val(s), replacements) == Val(s[..p] + "(" + y + ")")
  {
    var found := FindTrailing(s, 0);
    assert TrailingAt(s, found.value.0, found.value.1);
    assert found.value.0 == p;
    TrailingUnique(s, p, q, found.value.1);
    assert found == Some((p, q));
    assert !Falsy(Val(y));
    var t := "(" + y + ")";
    assert '$' !in t;
    SubstitutePlain(t, s[p..], s[..p], "");
    assert s[..p] + t == s[..p] + "(" + y + ")";
  }
}
