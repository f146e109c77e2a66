/** What one handled event, one background step or one cleanup does to the tables, and what
    the same step looks like from a single call. */
module CallCommands {
  import opened Prelude
  import opened CallStorage

  datatype ChannelState = RingingState | UpState | OtherState

  datatype Command =
    | Insert(id: Id, mobile: string, code: string, parent: Option<Id>, at: Time)
    | CountRetry(id: Id, at: Time)
    | MarkOriginating(id: Id, at: Time)
    | LogOriginating(id: Id, at: Time)
    | FailOriginate(id: Id, error: string, at: Time)
    | FailInternally(id: Id, error: string, at: Time)
    | OriginateResponse(id: Id, response: string, reason: string, via: Option<string>, at: Time)
    | NewState(channel: string, state: ChannelState, at: Time)
    | Hangup(channel: string, cause: int, text: string, at: Time)
    | CallStart(id: Id, bind: Option<string>, at: Time)
    | PlaybackStart(id: Id, at: Time)
    | PlaybackDone(id: Id, at: Time)
    | Expire(at: Time)
    | Ignore(at: Time)

  // ----- Cause and reason maps -----

  /** Q.850 cause values, section 2.2.7 of ITU-T Q.850. */
  function CauseStatus(cause: int): Option<Status> {
    match cause
    case 16 => Some(Completed)
    case 17 => Some(Busy)
    case 18 => Some(NoAnswer)
    case 19 => Some(NoAnswer)
    case 20 => Some(NoAnswer)
    case 21 => Some(Rejected)
    case 22 => Some(Unreachable)
    case 27 => Some(Unreachable)
    case 28 => Some(Failed)
    case 34 => Some(Congestion)
    case 38 => Some(Congestion)
    case 41 => Some(Congestion)
    case 42 => Some(Congestion)
    case 50 => Some(Failed)
    case _ => None
  }

  /** An unmapped cause falls back on whether the stored status says the call was answered. */
  function HangupStatus(stored: Status, cause: int): Status {
    match CauseStatus(cause)
    case Some(s) => s
    case None => if stored in {Answered, Playing} then Completed else Failed
  }

  function ReasonStatus(reason: string): Status {
    if reason == "1" then NoAnswer
    else if reason == "4" then Answered
    else if reason == "5" then Busy
    else if reason == "8" then Congestion
    else Failed
  }

  predicate ResponseFails(response: string, reason: string) {
    response == "Failure" || reason in {"0", "1", "5", "8"}
  }

  function ResponseUpdate(reason: string): Update {
    StatusOnly(ReasonStatus(reason)).(asteriskReason := Some(reason))
  }

  function HangupUpdate(stored: Status, cause: int, text: string): Update {
    StatusOnly(HangupStatus(stored, cause)).(hangupCause := Some(Cleared(cause, text)))
  }

  function FailureUpdate(cause: Cause): Update {
    StatusOnly(Failed).(hangupCause := Some(cause))
  }

  // ----- Effects on the tables -----

  function OnFailure(db: Db, id: Id, cause: Cause, error: string, at: Time): Db {
    AddEvent(UpdateStatus(db, id, FailureUpdate(cause), at).0, id, FailedLogged, ErrorDetail(error), at)
  }

  function OnResponse(db: Db, id: Id, response: string, reason: string, via: Option<string>, at: Time): Db {
    var logged := AddEvent(db, id, ResponseLogged, ResponseDetail(response, reason, via), at);
    if ResponseFails(response, reason) then UpdateStatus(logged, id, ResponseUpdate(reason), at).0 else logged
  }

  function OnNewState(db: Db, found: Option<Id>, channel: string, state: ChannelState, at: Time): Db {
    match (found, state)
    case (Some(id), RingingState) =>
      AddEvent(UpdateStatus(db, id, StatusOnly(Ringing), at).0, id, RingingLogged, ChannelDetail(Some(channel)), at)
    case (Some(id), UpState) =>
      AddEvent(UpdateStatus(db, id, StatusOnly(Answered), at).0, id, AnsweredLogged, ChannelDetail(Some(channel)), at)
    case _ => db
  }

  function OnHangup(db: Db, found: Option<Id>, channel: string, cause: int, text: string, at: Time): Db
    requires found.Some? ==> found.value in db.calls
  {
    match found
    case None => db
    case Some(id) =>
      var stored := db.calls[id].status;
      var logged := AddEvent(db, id, HangupLogged, HangupDetail(cause, text, Some(channel)), at);
      if IsTerminal(stored) then logged else UpdateStatus(logged, id, HangupUpdate(stored, cause, text), at).0
  }

  function OnCallStart(db: Db, id: Id, bind: Option<string>, at: Time): Db {
    var bound := if bind.Some? then UpdateStatus(db, id, StatusOnly(Answered).(channel := bind), at).0 else db;
    AddEvent(bound, id, DialplanStarted, ChannelDetail(bind), at)
  }

  function OnPlayback(db: Db, id: Id, status: Status, kind: Kind, at: Time): Db {
    AddEvent(UpdateStatus(db, id, StatusOnly(status), at).0, id, kind, NoDetail, at)
  }

  /** The step relation. Only the channel lookup can leave the outcome open. */
  ghost predicate Next(db: Db, c: Command, db': Db) {
    match c
    case Insert(id, mobile, code, parent, at) =>
      id !in db.calls && EventsOf(db.events, id) == [] && db' == CreateCall(db, id, mobile, code, parent, at)
    case CountRetry(id, at) => db' == IncrementRetry(db, id, at)
    case MarkOriginating(id, at) => db' == UpdateStatus(db, id, StatusOnly(Originating), at).0
    case LogOriginating(id, at) => db' == AddEvent(db, id, OriginatingLogged, NoDetail, at)
    case FailOriginate(id, error, at) => db' == OnFailure(db, id, NotAccepted(error), error, at)
    case FailInternally(id, error, at) => db' == OnFailure(db, id, InternalError, error, at)
    case OriginateResponse(id, response, reason, via, at) => db' == OnResponse(db, id, response, reason, via, at)
    case NewState(channel, state, at) =>
      exists found :: LookedUp(db, channel, found) && db' == OnNewState(db, found, channel, state, at)
    case Hangup(channel, cause, text, at) =>
      exists found :: LookedUp(db, channel, found) && db' == OnHangup(db, found, channel, cause, text, at)
    case CallStart(id, bind, at) => db' == OnCallStart(db, id, bind, at)
    case PlaybackStart(id, at) => db' == OnPlayback(db, id, Playing, PlayingLogged, at)
    case PlaybackDone(id, at) => db' == OnPlayback(db, id, Completed, PlaybackCompleted, at)
    case Expire(at) => db' == ExpireCalls(db, at)
    case Ignore(_) => db' == db
  }

  // ----- One call on its own -----

  /** All the tables say about one call. */
  datatype CallView = CallView(row: Option<Row>, timeline: seq<Event>)

  function View(db: Db, id: Id): CallView {
    CallView(if id in db.calls then Some(db.calls[id]) else None, EventsOf(db.events, id))
  }

  function Logged(v: CallView, id: Id, kind: Kind, detail: Detail, at: Time): CallView {
    v.(timeline := v.timeline + [Event(id, kind, detail, at)])
  }

  function Updated(v: CallView, u: Update, at: Time): CallView {
    if v.row.Some? && Permits(v.row.value.status, u.status) then
      v.(row := Some(Written(v.row.value, u, at)))
    else v
  }

  predicate BoundTo(v: CallView, channel: string) {
    v.row.Some? && v.row.value.channel == Some(channel)
  }

  /** The step a command makes in the life of the call it concerns: one small automaton. */
  function Act(v: CallView, id: Id, c: Command): CallView {
    match c
    case Insert(_, mobile, code, parent, at) =>
      Logged(v.(row := Some(NewRow(mobile, code, parent, at))), id, QueuedLogged, NoDetail, at)
    case CountRetry(_, at) =>
      if v.row.Some? then
        var row := v.row.value;
        v.(row := Some(row.(retryCount := row.retryCount + 1, updatedAt := at)))
      else v
    case MarkOriginating(_, at) => Updated(v, StatusOnly(Originating), at)
    case LogOriginating(_, at) => Logged(v, id, OriginatingLogged, NoDetail, at)
    case FailOriginate(_, error, at) =>
      Logged(Updated(v, FailureUpdate(NotAccepted(error)), at), id, FailedLogged, ErrorDetail(error), at)
    case FailInternally(_, error, at) =>
      Logged(Updated(v, FailureUpdate(InternalError), at), id, FailedLogged, ErrorDetail(error), at)
    case OriginateResponse(_, response, reason, via, at) =>
      var logged := Logged(v, id, ResponseLogged, ResponseDetail(response, reason, via), at);
      if ResponseFails(response, reason) then Updated(logged, ResponseUpdate(reason), at) else logged
    case NewState(channel, state, at) =>
      if !BoundTo(v, channel) || state.OtherState? then v
      else if state.RingingState? then
        Logged(Updated(v, StatusOnly(Ringing), at), id, RingingLogged, ChannelDetail(Some(channel)), at)
      else
        Logged(Updated(v, StatusOnly(Answered), at), id, AnsweredLogged, ChannelDetail(Some(channel)), at)
    case Hangup(channel, cause, text, at) =>
      if !BoundTo(v, channel) then v
      else
        var stored := v.row.value.status;
        var logged := Logged(v, id, HangupLogged, HangupDetail(cause, text, Some(channel)), at);
        if IsTerminal(stored) then logged else Updated(logged, HangupUpdate(stored, cause, text), at)
    case CallStart(_, bind, at) =>
      var bound := if bind.Some? then Updated(v, StatusOnly(Answered).(channel := bind), at) else v;
      Logged(bound, id, DialplanStarted, ChannelDetail(bind), at)
    case PlaybackStart(_, at) => Logged(Updated(v, StatusOnly(Playing), at), id, PlayingLogged, NoDetail, at)
    case PlaybackDone(_, at) => Logged(Updated(v, StatusOnly(Completed), at), id, PlaybackCompleted, NoDetail, at)
    case Expire(at) => if v.row.None? || Expired(v.row.value, at) then CallView(None, []) else v
    case Ignore(_) => v
  }

  predicate ByChannel(c: Command) {
    c.NewState? || c.Hangup?
  }

  /** Whether a command that names no channel concerns the call. */
  predicate Names(c: Command, id: Id) {
    match c
    case NewState(_, _, _) => false
    case Hangup(_, _, _, _) => false
    case Expire(_) => true
    case Ignore(_) => false
    case _ => c.id == id
  }

  // ----- The tables as a product of such automata -----

  lemma ViewOfAddEvent(db: Db, id: Id, kind: Kind, detail: Detail, at: Time, other: Id)
    ensures View(AddEvent(db, id, kind, detail, at), other) ==
            if other == id then Logged(View(db, other), id, kind, detail, at) else View(db, other)
  {
    EventsOfSnoc(db.events, Event(id, kind, detail, at), other);
  }

  lemma ViewOfUpdate(db: Db, id: Id, u: Update, at: Time, other: Id)
    ensures View(UpdateStatus(db, id, u, at).0, other) ==
            if other == id then Updated(View(db, other), u, at) else View(db, other)
  {
  }

  lemma ViewOfUpdateAndEvent(db: Db, id: Id, u: Update, kind: Kind, detail: Detail, at: Time, other: Id)
    ensures View(AddEvent(UpdateStatus(db, id, u, at).0, id, kind, detail, at), other) ==
            if other == id then Logged(Updated(View(db, other), u, at), id, kind, detail, at) else View(db, other)
    ensures View(UpdateStatus(AddEvent(db, id, kind, detail, at), id, u, at).0, other) ==
            if other == id then Updated(Logged(View(db, other), id, kind, detail, at), u, at) else View(db, other)
  {
    ViewOfUpdate(db, id, u, at, other);
    ViewOfAddEvent(UpdateStatus(db, id, u, at).0, id, kind, detail, at, other);
    ViewOfAddEvent(db, id, kind, detail, at, other);
    ViewOfUpdate(AddEvent(db, id, kind, detail, at), id, u, at, other);
  }

  lemma ViewOfExpire(db: Db, at: Time, id: Id)
    ensures View(ExpireCalls(db, at), id) == Act(View(db, id), id, Expire(at))
  {
    OwnedKeepsOthers(db.events, LiveCalls(db.calls, at), id);
  }

  /** A command that names no channel moves the calls it names by their automaton, and no other. */
  lemma NamedStep(db: Db, c: Command, db': Db, id: Id)
    requires Next(db, c, db') && !ByChannel(c)
    ensures View(db', id) == if Names(c, id) then Act(View(db, id), id, c) else View(db, id)
  {
    match c
    case Insert(i, mobile, code, parent, at) =>
      ViewOfAddEvent(db.(calls := db.calls[i := NewRow(mobile, code, parent, at)]), i, QueuedLogged, NoDetail, at, id);
    case CountRetry(i, at) =>
    case MarkOriginating(i, at) => ViewOfUpdate(db, i, StatusOnly(Originating), at, id);
    case LogOriginating(i, at) => ViewOfAddEvent(db, i, OriginatingLogged, NoDetail, at, id);
    case FailOriginate(i, error, at) =>
      ViewOfUpdateAndEvent(db, i, FailureUpdate(NotAccepted(error)), FailedLogged, ErrorDetail(error), at, id);
    case FailInternally(i, error, at) =>
      ViewOfUpdateAndEvent(db, i, FailureUpdate(InternalError), FailedLogged, ErrorDetail(error), at, id);
    case OriginateResponse(i, response, reason, via, at) =>
      ViewOfAddEvent(db, i, ResponseLogged, ResponseDetail(response, reason, via), at, id);
      ViewOfUpdateAndEvent(
        db, i, ResponseUpdate(reason), ResponseLogged, ResponseDetail(response, reason, via), at, id);
    case CallStart(i, bind, at) =>
      ViewOfAddEvent(db, i, DialplanStarted, ChannelDetail(bind), at, id);
      ViewOfUpdateAndEvent(db, i, StatusOnly(Answered).(channel := bind), DialplanStarted, ChannelDetail(bind), at, id);
    case PlaybackStart(i, at) =>
      ViewOfUpdateAndEvent(db, i, StatusOnly(Playing), PlayingLogged, NoDetail, at, id);
    case PlaybackDone(i, at) =>
      ViewOfUpdateAndEvent(db, i, StatusOnly(Completed), PlaybackCompleted, NoDetail, at, id);
    case Expire(at) => ViewOfExpire(db, at, id);
    case Ignore(_) =>
  }

  lemma ViewOfNewState(db: Db, found: Option<Id>, channel: string, state: ChannelState, at: Time, id: Id)
    requires LookedUp(db, channel, found)
    ensures View(OnNewState(db, found, channel, state, at), id) ==
            if found == Some(id) then Act(View(db, id), id, NewState(channel, state, at)) else View(db, id)
  {
    if found.Some? && state.RingingState? {
      ViewOfUpdateAndEvent(db, found.value, StatusOnly(Ringing), RingingLogged, ChannelDetail(Some(channel)), at, id);
    } else if found.Some? && state.UpState? {
      ViewOfUpdateAndEvent(db, found.value, StatusOnly(Answered), AnsweredLogged, ChannelDetail(Some(channel)), at, id);
    }
  }

  lemma ViewOfHangup(db: Db, found: Option<Id>, channel: string, cause: int, text: string, at: Time, id: Id)
    requires LookedUp(db, channel, found)
    ensures View(OnHangup(db, found, channel, cause, text, at), id) ==
            if found == Some(id) then Act(View(db, id), id, Hangup(channel, cause, text, at)) else View(db, id)
  {
    if found.Some? {
      var detail := HangupDetail(cause, text, Some(channel));
      var update := HangupUpdate(db.calls[found.value].status, cause, text);
      ViewOfAddEvent(db, found.value, HangupLogged, detail, at, id);
      ViewOfUpdateAndEvent(db, found.value, update, HangupLogged, detail, at, id);
    }
  }

  /** A channel event moves the call the lookup found, and no other. */
  lemma ChannelStep(db: Db, c: Command, db': Db, id: Id) returns (found: Option<Id>)
    requires Next(db, c, db') && ByChannel(c)
    ensures LookedUp(db, c.channel, found)
    ensures View(db', id) == if found == Some(id) then Act(View(db, id), id, c) else View(db, id)
  {
    if c.NewState? {
      found :| LookedUp(db, c.channel, found) && db' == OnNewState(db, found, c.channel, c.state, c.at);
      ViewOfNewState(db, found, c.channel, c.state, c.at, id);
    } else {
      found :| LookedUp(db, c.channel, found) && db' == OnHangup(db, found, c.channel, c.cause, c.text, c.at);
      ViewOfHangup(db, found, c.channel, c.cause, c.text, c.at, id);
    }
  }

  /** Every step either leaves a call alone or moves it by its own automaton. */
  lemma Localised(db: Db, c: Command, db': Db, id: Id)
    requires Next(db, c, db')
    ensures View(db', id) == View(db, id) || View(db', id) == Act(View(db, id), id, c)
    ensures View(db', id) != View(db, id) ==> ByChannel(c) || Names(c, id)
  {
    if ByChannel(c) {
      var _ := ChannelStep(db, c, db', id);
    } else {
      NamedStep(db, c, db', id);
    }
  }

  /** Consecutive states of a run, one command between each and the next. */
  ghost predicate Execution(dbs: seq<Db>, cs: seq<Command>) {
    |dbs| == |cs| + 1 && forall i :: 0 <= i < |cs| ==> Next(dbs[i], cs[i], dbs[i + 1])
  }

  lemma ExecutionFront(dbs: seq<Db>, cs: seq<Command>)
    requires Execution(dbs, cs) && cs != []
    ensures Execution(dbs[..|cs|], cs[..|cs| - 1])
    ensures Next(dbs[|cs| - 1], cs[|cs| - 1], dbs[|cs|])
  {
  }

  lemma ExecutionSnoc(dbs: seq<Db>, cs: seq<Command>, c: Command, db': Db)
    requires Execution(dbs, cs) && Next(dbs[|cs|], c, db')
    ensures Execution(dbs + [db'], cs + [c])
  {
    var longer, more := dbs + [db'], cs + [c];
    forall i | 0 <= i < |more| ensures Next(longer[i], more[i], longer[i + 1]) {
      if i < |cs| {
        assert Next(dbs[i], cs[i], dbs[i + 1]);
      }
    }
  }
}
