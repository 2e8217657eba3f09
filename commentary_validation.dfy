/** The input schemas for commentary: the query of the commentary list (an optional
    `limit`) and the body of a new commentary entry. Each schema is a parser from the raw
    input to the typed value it lets through, or to a rejection. */
module CommentaryValidation {
  import opened Common

  /** A decoded JSON value. Decoded numbers are finite doubles; an overflowing numeral that
      decodes to an infinity is not modelled, so every number is real. */
  datatype Json =
    | JNull
    | JBool(b: bool)
    | JNumber(n: real)
    | JString(s: string)
    | JArray(items: seq<Json>)
    | JObject(fields: map<string, Json>)

  /** `Number.isInteger` on a finite number. */
  predicate IsInteger(x: real) {
    x.Floor as real == x
  }

  // ---------------------------------------------------------------------------------
  // The list query.

  /** The `limit` member of a parsed query string: missing, one value, several values
      (the parameter repeated) or a nested object (`limit[a]=1`). */
  datatype QueryValue = Absent | Text(s: string) | Many(values: seq<string>) | Nested

  /** `Number(text)` for a finite result; `None` for NaN and the infinities.
      JavaScript's number syntax is not modelled; the conversion is a parameter. */
  type ToNumber = string -> Option<real>

  /** `Number(value)`: an array converts through its comma-joined text, so an empty array
      is `Number("")`, one element is that element, and two or more are NaN (no number
      contains a comma); an object is NaN. */
  function Coerce(value: QueryValue, toNumber: ToNumber): Option<real>
    requires !value.Absent?
  {
    match value
    case Text(s) => toNumber(s)
    case Many(values) =>
      if |values| == 0 then toNumber("")
      else if |values| == 1 then toNumber(values[0])
      else None
    case Nested => None
  }

  datatype LimitResult = Invalid | NoLimit | Limit(value: real)

  /** `listCommentaryQuerySchema` applied to the query's `limit`: optional, and otherwise
      coerced to a number that must be positive and at most 100. */
  function ParseLimit(value: QueryValue, toNumber: ToNumber): LimitResult {
    if value.Absent? then NoLimit
    else
      var n := Coerce(value, toNumber);
      if n.Some? && n.value > 0.0 && n.value <= 100.0 then Limit(n.value) else Invalid
  }

  /** A limit is returned exactly when its number lies in `(0, 100]`, it is the number the
      input converts to, and a missing limit is no limit. */
  lemma ParseLimitCases(value: QueryValue, toNumber: ToNumber)
    ensures ParseLimit(value, toNumber) == NoLimit <==> value.Absent?
    ensures ParseLimit(value, toNumber).Limit? ==>
              && !value.Absent?
              && Coerce(value, toNumber) == Some(ParseLimit(value, toNumber).value)
              && 0.0 < ParseLimit(value, toNumber).value <= 100.0
    ensures !value.Absent? && Coerce(value, toNumber).Some? && 0.0 < Coerce(value, toNumber).value <= 100.0 ==>
              ParseLimit(value, toNumber) == Limit(Coerce(value, toNumber).value)
  {
  }

  /** The limit need not be whole: a text converting to 2.5 is let through as 2.5. */
  lemma FractionalLimitAccepted(s: string, toNumber: ToNumber)
    requires toNumber(s) == Some(2.5)
    ensures ParseLimit(Text(s), toNumber) == Limit(2.5)
  {
  }

  /** An empty `limit=` converts to 0, which is not positive. */
  lemma EmptyLimitRejected(toNumber: ToNumber)
    requires toNumber("") == Some(0.0)
    ensures ParseLimit(Text(""), toNumber) == Invalid
    ensures ParseLimit(Many([]), toNumber) == Invalid
  {
  }

  /** A repeated `limit` parameter is always rejected. */
  lemma RepeatedLimitRejected(values: seq<string>, toNumber: ToNumber)
    requires |values| >= 2
    ensures ParseLimit(Many(values), toNumber) == Invalid
  {
  }

  // ---------------------------------------------------------------------------------
  // The body of a new commentary entry.

  /** What `createCommentarySchema` lets through: nine members, none optional. */
  datatype NewCommentary = NewCommentary(
    minute: nat, sequence: int, period: string, eventType: string, actor: string, team: string,
    message: string, metadata: map<string, Json>, tags: seq<string>)

  const CommentaryKeys: set<string> :=
    {"minute", "sequence", "period", "eventType", "actor", "team", "message", "metadata", "tags"}

  /** `z.array(z.string())` on the items of an array. */
  function Strings(items: seq<Json>): (r: Option<seq<string>>)
    ensures r.Some? ==> |r.value| == |items|
  {
    if items == [] then Some([])
    else if !items[0].JString? then None
    else
      var rest := Strings(items[1..]);
      if rest.None? then None else Some([items[0].s] + rest.value)
  }

  function StringItems(ss: seq<string>): (r: seq<Json>)
    ensures |r| == |ss|
  {
    if ss == [] then [] else [JString(ss[0])] + StringItems(ss[1..])
  }

  lemma {:induction false} StringsRoundTrip(ss: seq<string>)
    ensures Strings(StringItems(ss)) == Some(ss)
  {
    if ss != [] {
      StringsRoundTrip(ss[1..]);
      assert StringItems(ss)[1..] == StringItems(ss[1..]);
      assert ss == [ss[0]] + ss[1..];
    }
  }

  lemma {:induction false} StringsInverse(items: seq<Json>)
    requires Strings(items).Some?
    ensures StringItems(Strings(items).value) == items
  {
    if items != [] {
      StringsInverse(items[1..]);
      var ss := Strings(items).value;
      assert ss == [items[0].s] + Strings(items[1..]).value;
      assert ss[1..] == Strings(items[1..]).value;
      assert items == [JString(ss[0])] + items[1..];
    }
  }

  function TextOf(fields: map<string, Json>, key: string): Option<string> {
    if key in fields && fields[key].JString? then Some(fields[key].s) else None
  }

  function IntegerOf(fields: map<string, Json>, key: string): Option<int> {
    if key in fields && fields[key].JNumber? && IsInteger(fields[key].n) then Some(fields[key].n.Floor) else None
  }

  /** `createCommentarySchema.safeParse(body)`: the typed entry, unknown members stripped,
      or `None` when any member is missing or of the wrong kind. */
  function ParseNewCommentary(body: Json): Option<NewCommentary> {
    if !body.JObject? then None
    else
      var f := body.fields;
      var minute, sequence := IntegerOf(f, "minute"), IntegerOf(f, "sequence");
      var period, eventType := TextOf(f, "period"), TextOf(f, "eventType");
      var actor, team, message := TextOf(f, "actor"), TextOf(f, "team"), TextOf(f, "message");
      var tags := if "tags" in f && f["tags"].JArray? then Strings(f["tags"].items) else None;
      if minute.None? || minute.value < 0 || sequence.None? || period.None? || eventType.None?
         || actor.None? || team.None? || message.None? || |message.value| < 1
         || "metadata" !in f || !f["metadata"].JObject? || tags.None?
      then None
      else
        Some(NewCommentary(minute.value, sequence.value, period.value, eventType.value, actor.value,
                           team.value, message.value, f["metadata"].fields, tags.value))
  }

  /** The entry as a JSON object with exactly the nine members. */
  function Encode(c: NewCommentary): Json {
    JObject(map[
      "minute" := JNumber(c.minute as real), "sequence" := JNumber(c.sequence as real),
      "period" := JString(c.period), "eventType" := JString(c.eventType),
      "actor" := JString(c.actor), "team" := JString(c.team), "message" := JString(c.message),
      "metadata" := JObject(c.metadata), "tags" := JArray(StringItems(c.tags))])
  }

  /** A body is accepted exactly when it is an object whose nine members are all present and
      well-typed: `minute` a non-negative integer, `sequence` any integer, `message` a
      non-empty string, `metadata` an object and `tags` an array of strings. */
  lemma ParseNewCommentaryAccepts(body: Json)
    ensures ParseNewCommentary(body).Some? <==>
      && body.JObject?
      && CommentaryKeys <= body.fields.Keys
      && body.fields["minute"].JNumber? && IsInteger(body.fields["minute"].n) && body.fields["minute"].n >= 0.0
      && body.fields["sequence"].JNumber? && IsInteger(body.fields["sequence"].n)
      && body.fields["period"].JString? && body.fields["eventType"].JString?
      && body.fields["actor"].JString? && body.fields["team"].JString?
      && body.fields["message"].JString? && |body.fields["message"].s| >= 1
      && body.fields["metadata"].JObject?
      && body.fields["tags"].JArray? && (forall i :: 0 <= i < |body.fields["tags"].items| ==> body.fields["tags"].items[i].JString?)
  {
    if body.JObject? && "tags" in body.fields && body.fields["tags"].JArray? {
      StringsAll(body.fields["tags"].items);
    }
  }

  lemma {:induction false} StringsAll(items: seq<Json>)
    ensures Strings(items).Some? <==> forall i :: 0 <= i < |items| ==> items[i].JString?
  {
    if items != [] {
      StringsAll(items[1..]);
      assert forall i :: 1 <= i < |items| ==> items[i] == items[1..][i - 1];
    }
  }

  /** Any entry with a non-empty message survives encoding and parsing unchanged. */
  lemma ParseEncode(c: NewCommentary)
    requires |c.message| >= 1
    ensures ParseNewCommentary(Encode(c)) == Some(c)
  {
    StringsRoundTrip(c.tags);
    assert (c.minute as real).Floor == c.minute;
    assert (c.sequence as real).Floor == c.sequence;
  }

  /** What is accepted is the input's nine members and nothing else: encoding the result
      gives the input with every other member dropped. */
  lemma EncodeParse(body: Json)
    requires ParseNewCommentary(body).Some?
    ensures Encode(ParseNewCommentary(body).value).fields.Keys == CommentaryKeys
    ensures forall k :: k in CommentaryKeys ==> k in body.fields && Encode(ParseNewCommentary(body).value).fields[k] == body.fields[k]
  {
    var f := body.fields;
    StringsInverse(f["tags"].items);
    assert IsInteger(f["minute"].n) && IsInteger(f["sequence"].n);
  }

  /** Leaving out any one of the nine members rejects the body. */
  lemma MissingMemberRejected(fields: map<string, Json>, key: string)
    requires key in CommentaryKeys && key !in fields
    ensures ParseNewCommentary(JObject(fields)).None?
  {
  }

  /** A negative or fractional minute, a fractional sequence and an empty message are each
      rejected; a negative sequence is not. */
  lemma NewCommentaryBounds(c: NewCommentary)
    requires |c.message| >= 1
    ensures ParseNewCommentary(JObject(Encode(c).fields["minute" := JNumber(-1.0)])).None?
    ensures ParseNewCommentary(JObject(Encode(c).fields["minute" := JNumber(c.minute as real + 0.5)])).None?
    ensures ParseNewCommentary(JObject(Encode(c).fields["sequence" := JNumber(c.sequence as real + 0.5)])).None?
    ensures ParseNewCommentary(JObject(Encode(c).fields["message" := JString("")])).None?
    ensures ParseNewCommentary(Encode(c.(sequence := -1))) == Some(c.(sequence := -1))
  {
    ParseEncode(c.(sequence := -1));
    assert (c.minute as real + 0.5).Floor == c.minute;
    assert (c.sequence as real + 0.5).Floor == c.sequence;
  }
}
