/** The API operations: admission, retry, the background call, and the status response. */
module Routes {
  import opened Prelude
  import opened SlidingWindow
  import opened RateLimiting
  import opened CallStorage
  import opened CallCommands
  import opened CallRuns
  import opened EventHandling
  import opened Originating
  import V = Validation

  /** Which of the three checks, in this order, turned a call away, if any did. */
  datatype Gate = NoCapacity | HourlyFull | NumberFull(wait: int) | Open

  /** A call refused by the number check keeps the entry the hourly check made for it. */
  function Admit(limits: Limits, s: LimiterState, mobile: string, now: Time): (LimiterState, Gate) {
    if !HasCapacity(limits, s) then (s, NoCapacity)
    else
      var (s1, hourlyOk) := CheckHourly(limits, s, now);
      if !hourlyOk then (s1, HourlyFull)
      else
        match CheckNumber(limits, s1, mobile, now)
        case (s2, Admitted) => (s2, Open)
        case (s2, Refused(wait)) => (s2, NumberFull(wait))
  }

  /** What the background call is scheduled with. */
  datatype BackgroundCall = BackgroundCall(id: Id, mobile: string, code: string, repeat: int)

  datatype CallOutcome = InvalidRequest | CallLimited(gate: Gate) | CallAccepted(call: BackgroundCall)

  datatype RetryOutcome =
    | NotFound | NotRetryable(status: Status) | CodeMissing | RetryLimited(gate: Gate)
    | RetryAccepted(call: BackgroundCall)

  /** The mobile and code a retry would use, or why there is none. */
  datatype RetryPlan = NoRetry(why: RetryOutcome) | RetryWith(mobile: string, code: string)

  function PlanRetry(db: Db, parent: Id, newCode: Option<string>): RetryPlan {
    if parent !in db.calls then NoRetry(NotFound)
    else
      var record := db.calls[parent];
      if !IsRetryable(record.status) then NoRetry(NotRetryable(record.status))
      else if newCode.Some? && newCode.value != "" then RetryWith(record.mobile, newCode.value)
      else if record.code != "" then RetryWith(record.mobile, record.code)
      else NoRetry(CodeMissing)
  }

  function RetryRepeat(repeat: Option<int>): int {
    if repeat.Some? && repeat.value != 0 then repeat.value else 2
  }

  datatype StatusResponse = StatusResponse(
    status: Status, mobile: string, duration: Option<int>, hangupCause: Option<Cause>, asteriskReason: Option<string>,
    isTerminal: bool, isAnswered: bool, canRetry: bool, retryCount: nat, parent: Option<Id>,
    createdAt: Time, updatedAt: Time, timeline: seq<Event>)

  function BuildStatusResponse(row: Row, events: seq<Event>): (r: StatusResponse)
    ensures r.isTerminal <==>
              row.status in {Completed, NoAnswer, Busy, Congestion, Failed, Unreachable, Rejected, Cancelled}
    ensures row.status in {Queued, Originating, Ringing, Answered, Playing} ==> !r.isTerminal && !r.canRetry
    ensures r.canRetry <==> row.status in {NoAnswer, Busy, Congestion, Failed, Unreachable, Rejected}
    ensures r.isTerminal && !r.canRetry <==> row.status in {Completed, Cancelled}
    ensures r.isAnswered <==> IsAnswered(CallView(Some(row), events))
    ensures r.status == row.status && r.mobile == row.mobile && r.retryCount == row.retryCount && r.parent == row.parent
    ensures r.duration == row.duration && r.hangupCause == row.hangupCause && r.asteriskReason == row.asteriskReason
    ensures r.createdAt == row.createdAt && r.updatedAt == row.updatedAt && r.timeline == events
  {
    StatusResponse(
      row.status, row.mobile, row.duration, row.hangupCause, row.asteriskReason,
      IsTerminal(row.status), AnsweredOrLater(row.status) || Evidence(events), IsRetryable(row.status),
      row.retryCount, row.parent, row.createdAt, row.updatedAt, events)
  }

  predicate PickedUp(status: Status, events: seq<Event>) {
    || status == Answered || status == Playing || status == Completed
    || exists i :: 0 <= i < |events| && PickUpEntry(events[i].kind)
  }

  predicate PickUpEntry(kind: Kind) {
    kind == AnsweredLogged || kind == DialplanStarted || kind == PlayingLogged || kind == PlaybackCompleted
  }

  /** The answered flag: by the status, or by an entry of the timeline. */
  lemma AnsweredFlagIff(row: Row, events: seq<Event>)
    ensures BuildStatusResponse(row, events).isAnswered <==> PickedUp(row.status, events)
  {
    assert forall i :: 0 <= i < |events| ==> (PickUpEntry(events[i].kind) <==> ShowsAnswer(events[i].kind));
  }

  /** The flags announce what the operations do: a retry with a code is planned exactly when the call is
      reported retryable, and a step back is refused exactly when it is reported terminal. */
  lemma FlagsAnnounceOperations(db: Db, id: Id, events: seq<Event>, code: string, now: Time)
    requires id in db.calls && code != ""
    ensures var r := BuildStatusResponse(db.calls[id], events);
            && (r.canRetry <==> PlanRetry(db, id, Some(code)).RetryWith?)
            && (r.isTerminal <==> !UpdateStatus(db, id, StatusOnly(Ringing), now).1)
  {
  }

  /** After a hangup, whatever the cause, a client polls a call that is over, and that can be retried
      unless it completed or had been cancelled. */
  lemma PolledAfterHangup(v: CallView, id: Id, channel: string, cause: int, text: string, at: Time)
    requires BoundTo(v, channel)
    ensures var v' := Act(v, id, Hangup(channel, cause, text, at));
            && v'.row.Some?
            && var r := BuildStatusResponse(v'.row.value, v'.timeline);
               r.isTerminal && (r.canRetry <==> r.status != Completed && v.row.value.status != Cancelled)
  {
    HangupLeavesRetryableUnlessCompleted(v, id, channel, cause, text, at);
  }

  /** The three checks in their order: capacity, hour, number; what each leaves behind. */
  lemma GatesInOrder(limits: Limits, s: LimiterState, mobile: string, now: Time)
    ensures var (s', gate) := Admit(limits, s, mobile, now);
            var recent := Since(s.hourly, now - 3600.0);
            var kept := Since(if mobile in s.numbers then s.numbers[mobile] else [], now - limits.window);
            && (gate.NoCapacity? <==> s.active >= limits.maxConcurrent)
            && (gate.HourlyFull? <==> s.active < limits.maxConcurrent && |recent| >= limits.hourlyLimit)
            && (gate.NumberFull? <==>
                  && s.active < limits.maxConcurrent && |recent| < limits.hourlyLimit
                  && |kept| >= limits.perNumber)
            && (gate.NumberFull? ==> gate.wait == Truncate(kept[0] - (now - limits.window)))
            && s'.active == s.active
            && s'.hourly == (if gate.NoCapacity? then s.hourly else if gate.HourlyFull? then recent else recent + [now])
            && s'.numbers == if gate.Open? then s.numbers[mobile := kept + [now]] else s.numbers
  {
    var s1 := CheckHourly(limits, s, now).0;
    assert s1.numbers == s.numbers && s1.active == s.active;
    assert Retained(limits, s1, mobile, now) ==
           Since(if mobile in s.numbers then s.numbers[mobile] else [], now - limits.window);
  }

  lemma EvidenceInAnyOrder(events: seq<Event>, sorted: seq<Event>)
    requires multiset(events) == multiset(sorted)
    ensures Evidence(events) <==> Evidence(sorted)
  {
    if i :| 0 <= i < |events| && ShowsAnswer(events[i].kind) {
      assert events[i] in multiset(sorted);
    }
    if i :| 0 <= i < |sorted| && ShowsAnswer(sorted[i].kind) {
      assert sorted[i] in multiset(events);
    }
  }

  /** `GET /otp/status/{request_id}`: not found, or the row with its timeline in time order; the
      answered flag is that of the call, whatever the order its events were logged in. */
  method GetCallStatus(store: CallStore, id: Id) returns (response: Option<StatusResponse>)
    ensures response.None? <==> id !in store.calls
    ensures response.Some? ==>
              && response.value == BuildStatusResponse(store.calls[id], Timeline(store.Contents(), id))
              && InTimeOrder(response.value.timeline)
              && multiset(response.value.timeline) == multiset(View(store.Contents(), id).timeline)
              && (response.value.isAnswered <==> IsAnswered(View(store.Contents(), id)))
  {
    var record := store.GetCallRecord(id);
    if record.None? {
      return None;
    }
    var events := store.GetEvents(id);
    ByTimeSorts(EventsOf(store.events, id));
    EvidenceInAnyOrder(EventsOf(store.events, id), events);
    return Some(BuildStatusResponse(record.value, events));
  }

  lemma ValidCodeIff(rawCode: string, cc: V.Unicode)
    ensures V.ValidCode(rawCode, cc) <==>
            var code := V.Strip(rawCode, cc);
            4 <= |code| <= 8 && forall i :: 0 <= i < |code| ==> cc.decimal(code[i])
  {
  }

  /** `POST /otp/call` up to the scheduling of the background call. */
  method SendOtpCall(limiter: RateLimiter, store: CallStore, cc: V.Unicode, rawMobile: string, rawCode: string,
                     repeat: int, id: Id, now: Time) returns (outcome: CallOutcome)
    requires id !in store.calls
    modifies limiter, store
    ensures outcome.InvalidRequest? <==>
              !(&& V.NormalizeMobile(rawMobile, cc).Some?
                && 4 <= |V.Strip(rawCode, cc)| <= 8
                && (forall i :: 0 <= i < |V.Strip(rawCode, cc)| ==> cc.decimal(V.Strip(rawCode, cc)[i]))
                && 1 <= repeat <= 3)
    ensures outcome.InvalidRequest? ==> limiter.State() == old(limiter.State())
    ensures !outcome.InvalidRequest? ==>
              var mobile := V.NormalizeMobile(rawMobile, cc).value;
              var (s', gate) := Admit(limiter.limits, old(limiter.State()), mobile, now);
              && limiter.State() == s'
              && outcome == (if gate.Open? then CallAccepted(BackgroundCall(id, mobile, V.Strip(rawCode, cc), repeat))
                             else CallLimited(gate))
              && (outcome.CallAccepted? ==>
                    store.Contents() == CreateCall(old(store.Contents()), id, mobile, V.Strip(rawCode, cc), None, now))
    ensures !outcome.CallAccepted? ==> store.Contents() == old(store.Contents())
  {
    ValidCodeIff(rawCode, cc);
    var normalized := V.NormalizeMobile(rawMobile, cc);
    if normalized.None? || !V.ValidCode(rawCode, cc) || !V.ValidRepeat(repeat) {
      return InvalidRequest;
    }
    var mobile := normalized.value;
    var gate := PassGates(limiter, mobile, now);
    if !gate.Open? {
      return CallLimited(gate);
    }
    store.CreateCallRecord(id, mobile, V.Strip(rawCode, cc), None, now);
    return CallAccepted(BackgroundCall(id, mobile, V.Strip(rawCode, cc), repeat));
  }

  method PassGates(limiter: RateLimiter, mobile: string, now: Time) returns (gate: Gate)
    modifies limiter
    ensures (limiter.State(), gate) == Admit(limiter.limits, old(limiter.State()), mobile, now)
  {
    var ok := limiter.CheckConcurrentCapacity();
    if !ok {
      return NoCapacity;
    }
    ok := limiter.CheckHourlyLimit(now);
    if !ok {
      return HourlyFull;
    }
    var verdict := limiter.CheckNumberLimit(mobile, now);
    match verdict {
      case Admitted => return Open;
      case Refused(wait) => return NumberFull(wait);
    }
  }

  /** `POST /otp/call/{request_id}/retry` with nothing interleaved. */
  method RetryCall(limiter: RateLimiter, store: CallStore, parent: Id, newCode: Option<string>, repeat: Option<int>,
                   id: Id, now: Time)
    returns (outcome: RetryOutcome)
    requires id !in store.calls
    modifies limiter, store
    ensures parent !in old(store.calls) <==> outcome == NotFound
    ensures parent in old(store.calls) &&
            old(store.calls)[parent].status !in {NoAnswer, Busy, Congestion, Failed, Unreachable, Rejected} ==>
              && outcome == NotRetryable(old(store.calls)[parent].status)
              && limiter.State() == old(limiter.State()) && store.Contents() == old(store.Contents())
    ensures parent in old(store.calls) &&
            old(store.calls)[parent].status in {NoAnswer, Busy, Congestion, Failed, Unreachable, Rejected} ==>
              && !outcome.NotRetryable?
              && (outcome == CodeMissing <==>
                    (newCode == None || newCode == Some("")) && old(store.calls)[parent].code == "")
    ensures outcome.RetryAccepted? ==>
              && outcome.call.id == id && outcome.call.mobile == old(store.calls)[parent].mobile
              && outcome.call.code == (if newCode.Some? && newCode.value != "" then newCode.value
                                       else old(store.calls)[parent].code)
              && outcome.call.repeat == (if repeat.Some? && repeat.value != 0 then repeat.value else 2)
    ensures match PlanRetry(old(store.Contents()), parent, newCode)
            case NoRetry(why) =>
              outcome == why && limiter.State() == old(limiter.State()) && store.Contents() == old(store.Contents())
            case RetryWith(mobile, code) =>
              var (s', gate) := Admit(limiter.limits, old(limiter.State()), mobile, now);
              && limiter.State() == s'
              && outcome == (if gate.Open? then RetryAccepted(BackgroundCall(id, mobile, code, RetryRepeat(repeat)))
                             else RetryLimited(gate))
              && store.Contents() ==
                   if gate.Open? then
                     IncrementRetry(CreateCall(old(store.Contents()), id, mobile, code, Some(parent), now), parent, now)
                   else old(store.Contents())
  {
    var record := store.GetCallRecord(parent);
    if record.None? {
      return NotFound;
    }
    if !IsRetryable(record.value.status) {
      return NotRetryable(record.value.status);
    }
    var code := if newCode.Some? && newCode.value != "" then newCode.value else record.value.code;
    if code == "" {
      return CodeMissing;
    }
    var gate := PassGates(limiter, record.value.mobile, now);
    if !gate.Open? {
      return RetryLimited(gate);
    }
    store.CreateCallRecord(id, record.value.mobile, code, Some(parent), now);
    var _ := store.IncrementRetryCount(parent, now);
    return RetryAccepted(BackgroundCall(id, record.value.mobile, code, RetryRepeat(repeat)));
  }

  /** The error column's text for each way originating can fail. */
  function ErrorText(e: OriginateError): (t: string)
    ensures e.Connection? ==> t == e.text
    ensures e.Refused? && e.reason.Some? ==> t == e.reason.value
  {
    match e
    case NotConnected => "AMI unavailable"
    case TimedOut => "AMI response timeout"
    case Connection(text) => text
    case SendFailed => "internal error"
    case NoReply => "no AMI response"
    case Refused(Some(reason)) => reason
    case Refused(None) => "AMI refused"
  }

  /** What the reply makes a background call do when nothing raises. */
  function DialCommands(id: Id, connected: bool, reply: Reply, now: Time): seq<Command> {
    match OutcomeOf(connected, reply)
    case None => HandedOn(connected, reply, now)
    case Some(e) => [FailOriginate(id, ErrorText(e), now)]
  }

  function TryCommands(id: Id, raised: Option<string>, connected: bool, reply: Reply, now: Time): seq<Command> {
    if raised.Some? then [FailInternally(id, raised.value, now)] else DialCommands(id, connected, reply, now)
  }

  /** The commands a background call runs; `raised` is what the originator raised, if it did. */
  function CallCommandsOf(id: Id, raised: Option<string>, connected: bool, reply: Reply, now: Time): seq<Command> {
    [MarkOriginating(id, now), LogOriginating(id, now)] + TryCommands(id, raised, connected, reply, now)
  }

  method MarkStarted(store: CallStore, id: Id, now: Time)
    modifies store
    ensures Leads(old(store.Contents()), [MarkOriginating(id, now), LogOriginating(id, now)], store.Contents())
  {
    ghost var db0 := store.Contents();
    var _ := store.UpdateCallStatus(id, StatusOnly(Originating), now);
    ghost var db1 := store.Contents();
    store.RecordEvent(id, OriginatingLogged, NoDetail, now);
    LeadsNowhere(db0);
    LeadsSnoc(db0, [], db0, MarkOriginating(id, now), db1);
    LeadsSnoc(db0, [] + [MarkOriginating(id, now)], db1, LogOriginating(id, now), store.Contents());
    assert [] + [MarkOriginating(id, now)] + [LogOriginating(id, now)] ==
           [MarkOriginating(id, now), LogOriginating(id, now)];
  }

  method RecordFailure(store: CallStore, id: Id, error: string, now: Time)
    modifies store
    ensures Leads(old(store.Contents()), [FailOriginate(id, error, now)], store.Contents())
  {
    ghost var db := store.Contents();
    var _ := store.UpdateCallStatus(id, FailureUpdate(NotAccepted(error)), now);
    store.RecordEvent(id, FailedLogged, ErrorDetail(error), now);
    LeadsNowhere(db);
    LeadsSnoc(db, [], db, FailOriginate(id, error, now), store.Contents());
    assert [] + [FailOriginate(id, error, now)] == [FailOriginate(id, error, now)];
  }

  method RecordInternalError(store: CallStore, id: Id, error: string, now: Time)
    modifies store
    ensures Leads(old(store.Contents()), [FailInternally(id, error, now)], store.Contents())
  {
    ghost var db := store.Contents();
    var _ := store.UpdateCallStatus(id, FailureUpdate(InternalError), now);
    store.RecordEvent(id, FailedLogged, ErrorDetail(error), now);
    LeadsNowhere(db);
    LeadsSnoc(db, [], db, FailInternally(id, error, now), store.Contents());
    assert [] + [FailInternally(id, error, now)] == [FailInternally(id, error, now)];
  }

  /** The action sent when the manager is connected: to the number, with the code and the count, ringing
      for half a minute. */
  function SentFor(originator: CallOriginator, connected: bool, id: Id, mobile: string, code: string, repeat: int)
    : Option<OriginateAction>
  {
    if connected then
      Some(ActionFor(originator.trunk, originator.callerId, originator.BuildContext(), id, mobile, code, repeat, 30))
    else None
  }

  /** The body of the `try`. */
  method Dial(store: CallStore, originator: CallOriginator, handler: EventHandler, connected: bool,
              id: Id, mobile: string, code: string, repeat: int, reply: Reply, now: Time)
    returns (sent: Option<OriginateAction>)
    requires handler.store == store
    modifies store
    ensures Leads(old(store.Contents()), DialCommands(id, connected, reply, now), store.Contents())
    ensures sent == SentFor(originator, connected, id, mobile, code, repeat)
  {
    ghost var db := store.Contents();
    var error;
    error, sent := originator.Originate(handler, connected, id, mobile, code, repeat, 30, reply, now);
    if error.Some? {
      ghost var failure := [FailOriginate(id, ErrorText(error.value), now)];
      ghost var db' := store.Contents();
      RecordFailure(store, id, ErrorText(error.value), now);
      LeadsConcat(db, [], db', failure, store.Contents());
      assert [] + failure == failure;
    }
  }

  /** The slot taken at the start, and held while dialling, is always returned; the originate result, or
      what it raised, decides what the tables go through. */
  method ExecuteCall(limiter: RateLimiter, store: CallStore, originator: CallOriginator, handler: EventHandler,
                     raised: Option<string>, connected: bool, id: Id, mobile: string, code: string, repeat: int,
                     reply: Reply, now: Time)
    returns (sent: Option<OriginateAction>, ghost during: LimiterState)
    requires handler.store == store
    modifies limiter, store
    ensures during == old(limiter.State()).(active := old(limiter.activeCount) + 1)
    ensures limiter.State() == old(limiter.State())
    ensures Leads(old(store.Contents()), CallCommandsOf(id, raised, connected, reply, now), store.Contents())
    ensures sent == SentFor(originator, raised.None? && connected, id, mobile, code, repeat)
  {
    limiter.AcquireSlot();
    ghost var db0 := store.Contents();
    MarkStarted(store, id, now);
    ghost var started := [MarkOriginating(id, now), LogOriginating(id, now)];
    ghost var db1 := store.Contents();
    sent := None;
    during := limiter.State();
    if raised.Some? {
      RecordInternalError(store, id, raised.value, now);
      LeadsConcat(db0, started, db1, [FailInternally(id, raised.value, now)], store.Contents());
    } else {
      sent := Dial(store, originator, handler, connected, id, mobile, code, repeat, reply, now);
      LeadsConcat(db0, started, db1, DialCommands(id, connected, reply, now), store.Contents());
    }
    limiter.ReleaseSlot();
  }
}
