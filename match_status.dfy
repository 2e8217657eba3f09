/** Match status from the clock: scheduled before the start, finished from the end on, live
    in between, and no answer at all when either timestamp does not parse. */
module MatchStatus {
  import opened Common

  /** `getMatchStatus(startTime, endTime, now)`. A timestamp is its `getTime()` in ms, or
      `None` when `new Date(...)` gave an invalid date (NaN). */
  function GetMatchStatus(start: Option<int>, end: Option<int>, now: int): (r: Option<Status>)
    ensures r.None? <==> start.None? || end.None?
    ensures r == Some(Scheduled) <==> start.Some? && end.Some? && now < start.value
    ensures r == Some(Finished) <==> start.Some? && end.Some? && start.value <= now && end.value <= now
    ensures r == Some(Live) <==> start.Some? && end.Some? && start.value <= now < end.value
  {
    if start.None? || end.None? then None
    else if now < start.value then Some(Scheduled)
    else if now >= end.value then Some(Finished)
    else Some(Live)
  }

  /** What one sync does: the status it leaves stored, and the `updateStatus` call it
      makes, if any. */
  datatype SyncStep = SyncStep(stored: Status, call: Option<Status>)

  /** `syncMatchStatus` as a function of the stored row and the clock: a missing end time
      becomes `''`, which never parses, so nothing is updated. */
  function Sync(stored: Status, start: int, end: Option<int>, now: int): (r: SyncStep)
    ensures end.None? ==> r == SyncStep(stored, None)
    ensures r.call.Some? <==> end.Some? && GetMatchStatus(Some(start), end, now) != Some(stored)
    ensures r.call.Some? ==> r.stored == r.call.value && Some(r.stored) == GetMatchStatus(Some(start), end, now)
    ensures r.call.None? ==> r.stored == stored
  {
    match GetMatchStatus(Some(start), end, now)
    case None => SyncStep(stored, None)
    case Some(next) => if stored != next then SyncStep(next, Some(next)) else SyncStep(stored, None)
  }

  /** A second sync at the same clock reading makes no call and changes nothing. */
  lemma SyncTwiceNoCall(stored: Status, start: int, end: Option<int>, now: int)
    ensures var once := Sync(stored, start, end, now);
            Sync(once.stored, start, end, now) == SyncStep(once.stored, None)
  {
  }

  /** How the `updateStatus` promise settled. */
  datatype Update = Resolved | Rejected

  /** A row of the matches table that `syncMatchStatus` reads and assigns in place. */
  class TrackedMatch {
    var status: Status
    const startTime: int
    const endTime: Option<int>
    /** The statuses passed to `updateStatus`, in order. */
    var updates: seq<Status>

    constructor (status: Status, startTime: int, endTime: Option<int>)
      ensures this.status == status && this.startTime == startTime && this.endTime == endTime
      ensures updates == []
    {
      this.status := status;
      this.startTime := startTime;
      this.endTime := endTime;
      updates := [];
    }

    /** `syncMatchStatus(match, updateStatus)` at clock reading `now`; `settle` is how the
        update call settles. A rejected update propagates (`None`) and leaves the stored
        status unchanged. */
    method SyncMatchStatus(now: int, settle: Update) returns (r: Option<Status>)
      modifies this`status, this`updates
      ensures var step := Sync(old(status), startTime, endTime, now);
              && updates == old(updates) + (if step.call.Some? then [step.call.value] else [])
              && (step.call.None? || settle == Resolved ==> status == step.stored && r == Some(status))
              && (step.call.Some? && settle == Rejected ==> status == old(status) && r == None)
    {
      var nextStatus := GetMatchStatus(Some(startTime), endTime, now);
      if nextStatus.None? {
        return Some(status);
      }
      if status != nextStatus.value {
        updates := updates + [nextStatus.value];
        if settle == Rejected {
          return None;
        }
        status := nextStatus.value;
      }
      return Some(status);
    }
  }
}
