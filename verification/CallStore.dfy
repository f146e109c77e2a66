/** The call table and the event table, and the statements the service runs on them. */
module CallStorage {
  import opened Prelude

  datatype Status =
    | Queued | Originating | Ringing | Answered | Playing
    | Completed | NoAnswer | Busy | Congestion | Failed | Unreachable | Rejected | Cancelled

  predicate IsRetryable(s: Status) {
    s in {NoAnswer, Busy, Congestion, Failed, Unreachable, Rejected}
  }

  predicate IsTerminal(s: Status) {
    s in {Completed, NoAnswer, Busy, Congestion, Failed, Unreachable, Rejected, Cancelled}
  }

  /** The hangup_cause column: a cause code with its text, or why originating failed. */
  datatype Cause = Cleared(code: int, text: string) | NotAccepted(error: string) | InternalError

  datatype Row = Row(
    mobile: string, code: string, status: Status,
    channel: Option<string>, hangupCause: Option<Cause>, asteriskReason: Option<string>,
    duration: Option<int>, retryCount: nat, parent: Option<Id>,
    createdAt: Time, updatedAt: Time, expiresAt: Time)

  datatype Kind =
    | QueuedLogged | OriginatingLogged | ResponseLogged | RingingLogged | AnsweredLogged
    | DialplanStarted | PlayingLogged | PlaybackCompleted | HangupLogged | FailedLogged

  /** The detail column, before it is formatted as text. */
  datatype Detail =
    | NoDetail
    | ResponseDetail(response: string, reason: string, channel: Option<string>)
    | ChannelDetail(channel: Option<string>)
    | HangupDetail(cause: int, text: string, channel: Option<string>)
    | ErrorDetail(error: string)

  datatype Event = Event(requestId: Id, kind: Kind, detail: Detail, at: Time)

  /** `events` is in insertion order, the order of its autoincrement key. */
  datatype Db = Db(calls: map<Id, Row>, events: seq<Event>)

  const TTL: Time := 300.0

  /** The columns an UPDATE of the status may write. */
  datatype Update = Update(
    status: Status, hangupCause: Option<Cause>, asteriskReason: Option<string>,
    duration: Option<int>, channel: Option<string>)

  function StatusOnly(status: Status): Update {
    Update(status, None, None, None, None)
  }

  /** A terminal status is never overwritten by a non-terminal one. */
  predicate Permits(stored: Status, written: Status) {
    IsTerminal(stored) ==> IsTerminal(written)
  }

  function Written(row: Row, u: Update, now: Time): Row {
    row.(status := u.status, updatedAt := now,
         hangupCause := Coalesce(u.hangupCause, row.hangupCause),
         asteriskReason := Coalesce(u.asteriskReason, row.asteriskReason),
         duration := Coalesce(u.duration, row.duration),
         channel := Coalesce(u.channel, row.channel))
  }

  /** The status and the update time are written, and of the other columns the given ones. */
  predicate OnlyGiven(row: Row, u: Update, now: Time, row': Row) {
    && row'.status == u.status && row'.updatedAt == now
    && row'.hangupCause == (if u.hangupCause.Some? then u.hangupCause else row.hangupCause)
    && row'.asteriskReason == (if u.asteriskReason.Some? then u.asteriskReason else row.asteriskReason)
    && row'.duration == (if u.duration.Some? then u.duration else row.duration)
    && row'.channel == (if u.channel.Some? then u.channel else row.channel)
    && row'.mobile == row.mobile && row'.code == row.code && row'.retryCount == row.retryCount
    && row'.parent == row.parent && row'.createdAt == row.createdAt && row'.expiresAt == row.expiresAt
  }

  function NewRow(mobile: string, code: string, parent: Option<Id>, now: Time): Row {
    Row(mobile, code, Queued, None, None, None, None, 0, parent, now, now, now + TTL)
  }

  // ----- The statements -----

  function AddEvent(db: Db, id: Id, kind: Kind, detail: Detail, now: Time): Db {
    db.(events := db.events + [Event(id, kind, detail, now)])
  }

  function CreateCall(db: Db, id: Id, mobile: string, code: string, parent: Option<Id>, now: Time): Db {
    AddEvent(db.(calls := db.calls[id := NewRow(mobile, code, parent, now)]), id, QueuedLogged, NoDetail, now)
  }

  function UpdateStatus(db: Db, id: Id, u: Update, now: Time): (Db, bool) {
    if id in db.calls && Permits(db.calls[id].status, u.status) then
      (db.(calls := db.calls[id := Written(db.calls[id], u, now)]), true)
    else
      (db, false)
  }

  function IncrementRetry(db: Db, id: Id, now: Time): Db {
    if id in db.calls then
      var row := db.calls[id];
      db.(calls := db.calls[id := row.(retryCount := row.retryCount + 1, updatedAt := now)])
    else db
  }

  predicate Expired(row: Row, now: Time) {
    row.expiresAt < now
  }

  function LiveCalls(calls: map<Id, Row>, now: Time): map<Id, Row> {
    map id | id in calls && !Expired(calls[id], now) :: calls[id]
  }

  /** The events of calls that are still in the table. */
  function Owned(events: seq<Event>, calls: map<Id, Row>): seq<Event> {
    if events == [] then []
    else
      var kept := Owned(events[..|events| - 1], calls);
      var e := events[|events| - 1];
      if e.requestId in calls then kept + [e] else kept
  }

  function ExpireCalls(db: Db, now: Time): Db {
    var live := LiveCalls(db.calls, now);
    Db(live, Owned(db.events, live))
  }

  /** The events of one call, in insertion order. */
  function EventsOf(events: seq<Event>, id: Id): seq<Event> {
    if events == [] then []
    else
      var before := EventsOf(events[..|events| - 1], id);
      var e := events[|events| - 1];
      if e.requestId == id then before + [e] else before
  }

  /** Where a stable sort puts `e` into a list already in time order. */
  function Place(sorted: seq<Event>, e: Event): seq<Event> {
    if sorted == [] || sorted[|sorted| - 1].at <= e.at then sorted + [e]
    else Place(sorted[..|sorted| - 1], e) + [sorted[|sorted| - 1]]
  }

  /** `ORDER BY at ASC`, equal times in insertion order. */
  function ByTime(events: seq<Event>): seq<Event> {
    if events == [] then []
    else Place(ByTime(events[..|events| - 1]), events[|events| - 1])
  }

  function Timeline(db: Db, id: Id): seq<Event> {
    ByTime(EventsOf(db.events, id))
  }

  /** A row the query `WHERE channel=? ORDER BY created_at DESC LIMIT 1` may return. Rows
      created at the same moment leave it open which of them that is. */
  ghost predicate LookedUp(db: Db, channel: string, found: Option<Id>) {
    match found
    case None => forall id :: id in db.calls ==> db.calls[id].channel != Some(channel)
    case Some(id) =>
      && id in db.calls && db.calls[id].channel == Some(channel)
      && forall other :: other in db.calls && db.calls[other].channel == Some(channel) ==>
           db.calls[other].createdAt <= db.calls[id].createdAt
  }

  // ----- Facts about the queries -----

  ghost predicate InTimeOrder(events: seq<Event>) {
    forall i, j :: 0 <= i < j < |events| ==> events[i].at <= events[j].at
  }

  ghost predicate AllBy(events: seq<Event>, limit: Time) {
    forall i :: 0 <= i < |events| ==> events[i].at <= limit
  }

  lemma OrderSnoc(events: seq<Event>, last: Event)
    ensures InTimeOrder(events + [last]) <==> InTimeOrder(events) && AllBy(events, last.at)
  {
    var all := events + [last];
    if InTimeOrder(all) {
      forall i | 0 <= i < |events| ensures events[i].at <= last.at {
        assert all[i].at <= all[|events|].at;
      }
      forall i, j | 0 <= i < j < |events| ensures events[i].at <= events[j].at {
        assert all[i].at <= all[j].at;
      }
    }
  }

  lemma {:induction false} PlaceKeepsOrder(sorted: seq<Event>, e: Event, limit: Time)
    requires InTimeOrder(sorted) && AllBy(sorted, limit) && e.at <= limit
    ensures InTimeOrder(Place(sorted, e)) && AllBy(Place(sorted, e), limit)
    ensures multiset(Place(sorted, e)) == multiset(sorted) + multiset{e}
  {
    if sorted == [] || sorted[|sorted| - 1].at <= e.at {
      OrderSnoc(sorted, e);
    } else {
      var front, last := sorted[..|sorted| - 1], sorted[|sorted| - 1];
      assert sorted == front + [last];
      OrderSnoc(front, last);
      PlaceKeepsOrder(front, e, last.at);
      OrderSnoc(Place(front, e), last);
    }
  }

  lemma {:induction false} EventsHaveLimit(events: seq<Event>) returns (limit: Time)
    ensures AllBy(events, limit)
  {
    if events == [] {
      limit := 0.0;
    } else {
      limit := EventsHaveLimit(events[..|events| - 1]);
      if events[|events| - 1].at > limit {
        limit := events[|events| - 1].at;
      }
    }
  }

  lemma PlaceSorts(sorted: seq<Event>, e: Event)
    requires InTimeOrder(sorted)
    ensures InTimeOrder(Place(sorted, e)) && multiset(Place(sorted, e)) == multiset(sorted) + multiset{e}
  {
    var limit := EventsHaveLimit(sorted);
    PlaceKeepsOrder(sorted, e, if e.at > limit then e.at else limit);
  }

  /** The timeline query returns the call's events, each once, in time order. */
  lemma {:induction false} ByTimeSorts(events: seq<Event>)
    ensures InTimeOrder(ByTime(events)) && multiset(ByTime(events)) == multiset(events)
  {
    if events != [] {
      var front, last := events[..|events| - 1], events[|events| - 1];
      ByTimeSorts(front);
      PlaceSorts(ByTime(front), last);
      assert events == front + [last];
    }
  }

  /** A list already in time order is returned as inserted. */
  lemma {:induction false} ByTimeKeepsSorted(events: seq<Event>)
    requires InTimeOrder(events)
    ensures ByTime(events) == events
  {
    if events != [] {
      var front, last := events[..|events| - 1], events[|events| - 1];
      assert events == front + [last];
      OrderSnoc(front, last);
      ByTimeKeepsSorted(front);
    }
  }

  lemma EventsOfSnoc(events: seq<Event>, e: Event, id: Id)
    ensures EventsOf(events + [e], id) == if e.requestId == id then EventsOf(events, id) + [e] else EventsOf(events, id)
  {
    assert (events + [e])[..|events|] == events;
  }

  /** Deleting orphan events leaves every other call's events unchanged and in order. */
  lemma {:induction false} OwnedKeepsOthers(events: seq<Event>, calls: map<Id, Row>, id: Id)
    ensures EventsOf(Owned(events, calls), id) == if id in calls then EventsOf(events, id) else []
  {
    if events != [] {
      var front, e := events[..|events| - 1], events[|events| - 1];
      OwnedKeepsOthers(front, calls, id);
      EventsOfSnoc(Owned(front, calls), e, id);
    }
  }

  /** Some row bound to the channel was created last. */
  lemma {:induction false} LatestExists(calls: map<Id, Row>, channel: string, bound: set<Id>) returns (latest: Id)
    requires bound != {} && forall id :: id in bound ==> id in calls && calls[id].channel == Some(channel)
    ensures latest in bound && forall other :: other in bound ==> calls[other].createdAt <= calls[latest].createdAt
    decreases |bound|
  {
    latest :| latest in bound;
    var rest := bound - {latest};
    if rest != {} {
      var best := LatestExists(calls, channel, rest);
      if calls[best].createdAt > calls[latest].createdAt {
        latest := best;
      }
    }
  }

  class CallStore {
    var calls: map<Id, Row>
    var events: seq<Event>

    function Contents(): Db
      reads this
    {
      Db(calls, events)
    }

    constructor ()
      ensures Contents() == Db(map[], [])
    {
      calls, events := map[], [];
    }

    /** A UUID is assumed not to collide with a stored one. */
    method CreateCallRecord(id: Id, mobile: string, code: string, parent: Option<Id>, now: Time)
      requires id !in calls
      modifies this
      ensures Contents() == CreateCall(old(Contents()), id, mobile, code, parent, now)
      ensures calls == old(calls)[id := Row(mobile, code, Queued, None, None, None, None, 0, parent, now, now,
                                            now + 300.0)]
      ensures events == old(events) + [Event(id, QueuedLogged, NoDetail, now)]
    {
      calls := calls[id := NewRow(mobile, code, parent, now)];
      RecordEvent(id, QueuedLogged, NoDetail, now);
    }

    method UpdateCallStatus(id: Id, u: Update, now: Time) returns (changed: bool)
      modifies this`calls
      ensures (Contents(), changed) == UpdateStatus(old(Contents()), id, u, now)
      ensures id !in old(calls) ==> !changed
      ensures id in old(calls) ==>
                var over := {Completed, NoAnswer, Busy, Congestion, Failed, Unreachable, Rejected, Cancelled};
                changed == (old(calls)[id].status in over ==> u.status in over)
      ensures !changed ==> calls == old(calls)
      ensures changed ==>
                && calls.Keys == old(calls).Keys
                && (forall other :: other in calls && other != id ==> calls[other] == old(calls)[other])
                && OnlyGiven(old(calls)[id], u, now, calls[id])
    {
      var record := GetCallRecord(id);
      if record == None {
        return false;
      }
      if IsTerminal(record.value.status) && !IsTerminal(u.status) {
        return false;
      }
      var row := record.value.(status := u.status, updatedAt := now);
      if u.hangupCause != None {
        row := row.(hangupCause := u.hangupCause);
      }
      if u.asteriskReason != None {
        row := row.(asteriskReason := u.asteriskReason);
      }
      if u.duration != None {
        row := row.(duration := u.duration);
      }
      if u.channel != None {
        row := row.(channel := u.channel);
      }
      calls := calls[id := row];
      return true;
    }

    method RecordEvent(id: Id, kind: Kind, detail: Detail, now: Time)
      modifies this`events
      ensures Contents() == AddEvent(old(Contents()), id, kind, detail, now)
    {
      events := events + [Event(id, kind, detail, now)];
    }

    method GetCallRecord(id: Id) returns (row: Option<Row>)
      ensures row == if id in calls then Some(calls[id]) else None
    {
      row := if id in calls then Some(calls[id]) else None;
    }

    method GetCallByChannel(channel: string) returns (found: Option<Id>)
      ensures LookedUp(Contents(), channel, found)
      ensures found.None? <==> forall id :: id in calls ==> calls[id].channel != Some(channel)
      ensures found.Some? ==>
                && found.value in calls && calls[found.value].channel == Some(channel)
                && forall id :: id in calls && calls[id].channel == Some(channel) ==>
                     calls[id].createdAt <= calls[found.value].createdAt
    {
      var bound := set id | id in calls && calls[id].channel == Some(channel);
      if bound == {} {
        found := None;
        assert forall id :: id in calls ==> id !in bound;
      } else {
        ghost var latest := LatestExists(calls, channel, bound);
        var id :| id in bound && forall other :: other in bound ==> calls[other].createdAt <= calls[id].createdAt;
        found := Some(id);
        assert forall other :: other in calls && calls[other].channel == Some(channel) ==> other in bound;
      }
    }

    method GetEvents(id: Id) returns (timeline: seq<Event>)
      ensures timeline == Timeline(Contents(), id)
      ensures InTimeOrder(timeline) && multiset(timeline) == multiset(EventsOf(events, id))
    {
      ByTimeSorts(EventsOf(events, id));
      timeline := ByTime(EventsOf(events, id));
    }

    /** The new count, or 0 when the row is gone. */
    method IncrementRetryCount(id: Id, now: Time) returns (count: nat)
      modifies this`calls
      ensures Contents() == IncrementRetry(old(Contents()), id, now)
      ensures calls == if id in old(calls)
                       then old(calls)[id := old(calls)[id].(retryCount := old(calls)[id].retryCount + 1,
                                                             updatedAt := now)]
                       else old(calls)
      ensures count == if id in old(calls) then old(calls[id].retryCount) + 1 else 0
    {
      if id in calls {
        calls := calls[id := calls[id].(retryCount := calls[id].retryCount + 1, updatedAt := now)];
      }
      var record := GetCallRecord(id);
      count := if record.Some? then record.value.retryCount else 0;
    }

    method CleanupExpired(now: Time) returns (deleted: nat)
      modifies this
      ensures Contents() == ExpireCalls(old(Contents()), now)
      ensures forall id :: id in calls <==> id in old(calls) && now <= old(calls)[id].expiresAt
      ensures forall id :: id in calls ==> calls[id] == old(calls)[id]
      ensures deleted == |set id | id in old(calls) && Expired(old(calls)[id], now)|
    {
      deleted := |set id | id in calls && Expired(calls[id], now)|;
      calls := LiveCalls(calls, now);
      events := Owned(events, calls);
    }
  }
}
