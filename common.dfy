/** Shared value types of the relay: optional values, JSON-ish fields, the persisted
    match and commentary rows, and small sequence helpers used by several components. */
module Common {

  datatype Option<T> = None | Some(value: T)

  /** A JSON property as JavaScript sees it: missing (`undefined`), `null`, or a value. */
  datatype Field<T> = Undefined | Null | Val(v: T)

  /** Match ids of the persisted tables are uuid strings. */
  type MatchId = string

  /** Sockets are compared by object identity; an id stands for that identity. */
  type SocketId = nat

  /** The `readyState` of a `ws` socket. */
  datatype ReadyState = Connecting | Open | Closing | Closed

  /** The `match_status` enum of the matches table. */
  datatype Status = Scheduled | Live | Finished

  /** A row of the matches table; timestamps are milliseconds since the epoch. */
  datatype Match = Match(
    id: MatchId, sport: string, homeTeam: string, awayTeam: string, status: Status,
    startTime: int, endTime: Option<int>, homeScore: int, awayScore: int, createdAt: int)

  /** A row of the commentary table; `metadata` (jsonb) is kept as opaque text. */
  datatype Commentary = Commentary(
    id: string, matchId: MatchId, minute: Option<int>, sequence: int, period: Option<string>,
    eventType: string, actor: Option<string>, team: Option<string>, message: string,
    metadata: Option<string>, tags: Option<seq<string>>, createdAt: int)

  /** A JavaScript `Set` iterates in insertion order and holds each element once. */
  ghost predicate NoDup<T>(s: seq<T>) {
    forall i, j :: 0 <= i < j < |s| ==> s[i] != s[j]
  }

  /** An element of a duplicate-free sequence occurs neither before nor after its index. */
  lemma NoDupAt<T>(s: seq<T>, i: nat)
    requires NoDup(s) && i < |s|
    ensures s[i] !in s[..i] && s[i] !in s[i + 1..]
  {
    forall k | 0 <= k < i ensures s[..i][k] != s[i] {
      assert s[..i][k] == s[k];
    }
    var after := s[i + 1..];
    forall k | 0 <= k < |after| ensures after[k] != s[i] {
      assert after[k] == s[i + 1 + k];
    }
  }

  /** An element of a non-empty sequence is in its body or is its last element. */
  lemma InInitOrLast<T>(s: seq<T>, x: T)
    requires |s| > 0
    ensures x in s <==> x in s[..|s| - 1] || x == s[|s| - 1]
  {
    assert s == s[..|s| - 1] + [s[|s| - 1]];
  }

  /** How a sequence splits around its element at `i`. */
  lemma SplitAt<T>(s: seq<T>, i: nat)
    requires i < |s|
    ensures s[..i + 1] == s[..i] + [s[i]]
    ensures s[i..] == [s[i]] + s[i + 1..]
  {
  }

  lemma PrefixMembers<T>(s: seq<T>, i: nat)
    requires i <= |s|
    ensures forall t :: t in s[..i] ==> t in s
  {
  }

  /** `set.delete(x)` on an insertion-ordered set. */
  function Remove<T(==,!new)>(s: seq<T>, x: T): (r: seq<T>)
    ensures forall y :: y in r <==> y in s && y != x
    ensures NoDup(s) ==> NoDup(r)
    ensures x !in s ==> r == s
    ensures |r| <= |s|
  {
    if s == [] then []
    else if s[0] == x then Remove(s[1..], x)
    else
      var rest := Remove(s[1..], x);
      assert NoDup(s) ==> s[0] !in s[1..] && NoDup(s[1..]) by {
        if NoDup(s) {
          forall k | 0 <= k < |s| - 1 ensures s[1..][k] != s[0] { assert s[k + 1] != s[0]; }
        }
      }
      [s[0]] + rest
  }

  lemma {:induction false} RemoveConcat<T(!new)>(a: seq<T>, b: seq<T>, x: T)
    ensures Remove(a + b, x) == Remove(a, x) + Remove(b, x)
  {
    if a == [] {
      assert a + b == b;
    } else {
      assert (a + b)[0] == a[0];
      assert (a + b)[1..] == a[1..] + b;
      RemoveConcat(a[1..], b, x);
    }
  }

  /** Deleting an element that was just added to a set that lacked it gives the old set back. */
  lemma RemoveAdded<T(!new)>(a: seq<T>, x: T)
    requires x !in a
    ensures Remove(a + [x], x) == a
  {
    RemoveConcat(a, [x], x);
    assert Remove([x], x) == [];
  }

  /** `set.add(x)` on an insertion-ordered set: appended at the end when new. */
  function Add<T(==,!new)>(s: seq<T>, x: T): (r: seq<T>)
    ensures forall y :: y in r <==> y in s || y == x
    ensures NoDup(s) ==> NoDup(r)
    ensures x in s ==> r == s
    ensures x !in s ==> r == s + [x]
  {
    if x in s then s else s + [x]
  }

  function Filter<T(!new)>(s: seq<T>, p: T -> bool): (r: seq<T>)
    ensures |r| <= |s|
    ensures forall x :: x in r <==> x in s && p(x)
    ensures forall x :: x in r ==> p(x)
  {
    if s == [] then [] else (if p(s[0]) then [s[0]] else []) + Filter(s[1..], p)
  }

  lemma {:induction false} FilterDistributes<T(!new)>(a: seq<T>, b: seq<T>, p: T -> bool)
    ensures Filter(a + b, p) == Filter(a, p) + Filter(b, p)
  {
    if a == [] {
      assert a + b == b;
    } else {
      assert (a + b)[1..] == a[1..] + b;
      FilterDistributes(a[1..], b, p);
    }
  }

  lemma {:induction false} FilterNone<T(!new)>(s: seq<T>, p: T -> bool)
    requires forall x :: x in s ==> !p(x)
    ensures Filter(s, p) == []
  {
    if s != [] {
      assert s[0] in s;
      assert forall x :: x in s[1..] ==> x in s;
      FilterNone(s[1..], p);
    }
  }

  lemma {:induction false} FilterMultiset<T(!new)>(s: seq<T>, p: T -> bool, x: T)
    ensures multiset(Filter(s, p))[x] == if p(x) then multiset(s)[x] else 0
  {
    if s != [] {
      FilterMultiset(s[1..], p, x);
      assert s == [s[0]] + s[1..];
    }
  }
}
