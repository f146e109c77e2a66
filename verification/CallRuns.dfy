/** What every run keeps about the status and the timeline of a call. */
module CallRuns {
  import opened Prelude
  import opened CallStorage
  import opened CallCommands
  import opened Projection

  // ----- The terminal set, statement by statement -----

  /** What a handler does to the tables between two awaits. `WriteStatus` is the whole guarded
      update; module `SplitUpdates` takes its read and its write apart. */
  datatype Statement =
    | InsertCall(id: Id, mobile: string, code: string, parent: Option<Id>, at: Time)
    | WriteStatus(id: Id, u: Update, at: Time)
    | InsertEvent(id: Id, kind: Kind, detail: Detail, at: Time)
    | CountOne(id: Id, at: Time)
    | DeleteExpired(at: Time)

  function Apply(db: Db, s: Statement): Db {
    match s
    case InsertCall(id, mobile, code, parent, at) => CreateCall(db, id, mobile, code, parent, at)
    case WriteStatus(id, u, at) => UpdateStatus(db, id, u, at).0
    case InsertEvent(id, kind, detail, at) => AddEvent(db, id, kind, detail, at)
    case CountOne(id, at) => IncrementRetry(db, id, at)
    case DeleteExpired(at) => ExpireCalls(db, at)
  }

  function ApplyAll(db: Db, ss: seq<Statement>): Db {
    if ss == [] then db else Apply(ApplyAll(db, ss[..|ss| - 1]), ss[|ss| - 1])
  }

  function StatusOf(db: Db, id: Id): Option<Status> {
    if id in db.calls then Some(db.calls[id].status) else None
  }

  predicate Closed(db: Db, id: Id) {
    id in db.calls ==> IsTerminal(db.calls[id].status)
  }

  /** The hangup handler's last statement: what it decides rests on `stale`, the record it read. */
  function HangupWrite(id: Id, stale: Status, cause: int, text: string, at: Time): seq<Statement> {
    if IsTerminal(stale) then [] else [WriteStatus(id, HangupUpdate(stale, cause, text), at)]
  }

  function HangupStatements(id: Id, stale: Status, channel: string, cause: int, text: string, at: Time)
    : seq<Statement>
  {
    [InsertEvent(id, HangupLogged, HangupDetail(cause, text, Some(channel)), at)] +
    HangupWrite(id, stale, cause, text, at)
  }

  /** Whatever statements interleave, with whatever stale decisions behind them, a terminal row
      stays in the terminal set until it is deleted. */
  lemma {:induction false} TerminalSetIsAbsorbing(db: Db, ss: seq<Statement>, id: Id)
    requires Closed(db, id)
    requires forall i :: 0 <= i < |ss| && ss[i].InsertCall? ==> ss[i].id != id
    ensures Closed(ApplyAll(db, ss), id)
  {
    if ss != [] {
      TerminalSetIsAbsorbing(db, ss[..|ss| - 1], id);
    }
  }

  /** The statements behind a command, given the row its channel lookup found. */
  ghost function StatementsOf(c: Command, found: Option<Id>, stored: Status): seq<Statement> {
    match c
    case Insert(id, mobile, code, parent, at) => [InsertCall(id, mobile, code, parent, at)]
    case CountRetry(id, at) => [CountOne(id, at)]
    case MarkOriginating(id, at) => [WriteStatus(id, StatusOnly(Originating), at)]
    case LogOriginating(id, at) => [InsertEvent(id, OriginatingLogged, NoDetail, at)]
    case FailOriginate(id, error, at) =>
      [WriteStatus(id, FailureUpdate(NotAccepted(error)), at), InsertEvent(id, FailedLogged, ErrorDetail(error), at)]
    case FailInternally(id, error, at) =>
      [WriteStatus(id, FailureUpdate(InternalError), at), InsertEvent(id, FailedLogged, ErrorDetail(error), at)]
    case OriginateResponse(id, response, reason, via, at) =>
      [InsertEvent(id, ResponseLogged, ResponseDetail(response, reason, via), at)] +
      if ResponseFails(response, reason) then [WriteStatus(id, ResponseUpdate(reason), at)] else []
    case NewState(channel, state, at) =>
      if found.None? || state.OtherState? then []
      else
        var (status, kind) := if state.RingingState? then (Ringing, RingingLogged) else (Answered, AnsweredLogged);
        [WriteStatus(found.value, StatusOnly(status), at),
         InsertEvent(found.value, kind, ChannelDetail(Some(channel)), at)]
    case Hangup(channel, cause, text, at) =>
      if found.None? then [] else HangupStatements(found.value, stored, channel, cause, text, at)
    case CallStart(id, bind, at) =>
      (if bind.Some? then [WriteStatus(id, StatusOnly(Answered).(channel := bind), at)] else []) +
      [InsertEvent(id, DialplanStarted, ChannelDetail(bind), at)]
    case PlaybackStart(id, at) =>
      [WriteStatus(id, StatusOnly(Playing), at), InsertEvent(id, PlayingLogged, NoDetail, at)]
    case PlaybackDone(id, at) =>
      [WriteStatus(id, StatusOnly(Completed), at), InsertEvent(id, PlaybackCompleted, NoDetail, at)]
    case Expire(at) => [DeleteExpired(at)]
    case Ignore(_) => []
  }

  /** A response and a hangup are logged before the status is written, everything else after. */
  lemma StatementOrder(c: Command, found: Option<Id>, stored: Status)
    requires |StatementsOf(c, found, stored)| == 2
    ensures var ss := StatementsOf(c, found, stored);
            if c.OriginateResponse? || c.Hangup? then ss[0].InsertEvent? && ss[1].WriteStatus?
            else ss[0].WriteStatus? && ss[1].InsertEvent?
  {
  }

  lemma ApplyShort(db: Db, ss: seq<Statement>)
    requires |ss| <= 2
    ensures ApplyAll(db, ss) ==
            if ss == [] then db else if |ss| == 1 then Apply(db, ss[0]) else Apply(Apply(db, ss[0]), ss[1])
  {
    if |ss| == 2 {
      assert ss[..1][..0] == [];
      assert ApplyAll(db, ss[..1]) == Apply(db, ss[0]);
    }
  }

  function StoredStatus(db: Db, found: Option<Id>): Status {
    if found.Some? && found.value in db.calls then db.calls[found.value].status else Queued
  }

  /** The statements of the handler, run in one piece with what its lookup found. */
  ghost predicate InOnePiece(db: Db, c: Command, found: Option<Id>, db': Db) {
    && (ByChannel(c) ==> LookedUp(db, c.channel, found))
    && db' == ApplyAll(db, StatementsOf(c, found, StoredStatus(db, found)))
  }

  lemma NamedInTurn(db: Db, c: Command, found: Option<Id>)
    requires !ByChannel(c) && (c.Insert? ==> c.id !in db.calls && EventsOf(db.events, c.id) == [])
    ensures var ss := StatementsOf(c, found, Queued);
            && |ss| <= 2
            && Next(db, c, if ss == [] then db
                           else if |ss| == 1 then Apply(db, ss[0]) else Apply(Apply(db, ss[0]), ss[1]))
  {
  }

  lemma NamedIsStatements(db: Db, c: Command, found: Option<Id>)
    requires !ByChannel(c) && (c.Insert? ==> c.id !in db.calls && EventsOf(db.events, c.id) == [])
    ensures Next(db, c, ApplyAll(db, StatementsOf(c, found, StoredStatus(db, found))))
  {
    assert StatementsOf(c, found, StoredStatus(db, found)) == StatementsOf(c, found, Queued);
    NamedInTurn(db, c, found);
    ApplyShort(db, StatementsOf(c, found, Queued));
  }

  lemma NamedIsDeterminate(db: Db, c: Command, db': Db, db'': Db)
    requires Next(db, c, db') && Next(db, c, db'') && !ByChannel(c)
    ensures db' == db''
  {
  }

  function OnChannel(db: Db, c: Command, found: Option<Id>): Db
    requires ByChannel(c) && (found.Some? ==> found.value in db.calls)
  {
    if c.NewState? then OnNewState(db, found, c.channel, c.state, c.at)
    else OnHangup(db, found, c.channel, c.cause, c.text, c.at)
  }

  lemma ChannelIsStatements(db: Db, c: Command, found: Option<Id>)
    requires ByChannel(c) && LookedUp(db, c.channel, found)
    ensures OnChannel(db, c, found) == ApplyAll(db, StatementsOf(c, found, StoredStatus(db, found)))
  {
    ApplyShort(db, StatementsOf(c, found, StoredStatus(db, found)));
  }

  /** A command is exactly its handler's block of statements run in one piece, so statement-level
      runs include every command-level one. */
  lemma CommandIsStatements(db: Db, c: Command, db': Db)
    requires c.Insert? ==> c.id !in db.calls && EventsOf(db.events, c.id) == []
    ensures Next(db, c, db') <==> exists found: Option<Id> :: InOnePiece(db, c, found, db')
  {
    if !ByChannel(c) {
      forall found: Option<Id> ensures Next(db, c, ApplyAll(db, StatementsOf(c, found, StoredStatus(db, found)))) {
        NamedIsStatements(db, c, found);
      }
      if Next(db, c, db') {
        NamedIsDeterminate(db, c, db', ApplyAll(db, StatementsOf(c, None, StoredStatus(db, None))));
        assert InOnePiece(db, c, None, db');
      }
    } else {
      forall found: Option<Id> | LookedUp(db, c.channel, found)
        ensures OnChannel(db, c, found) == ApplyAll(db, StatementsOf(c, found, StoredStatus(db, found)))
      {
        ChannelIsStatements(db, c, found);
      }
      if Next(db, c, db') {
        var found: Option<Id> :| LookedUp(db, c.channel, found) && db' == OnChannel(db, c, found);
        assert InOnePiece(db, c, found, db');
      }
    }
  }

  // ----- When a terminal status is final -----

  /** The commands that give a terminal row another terminal status. */
  predicate Overwrites(stored: Status, c: Command) {
    match c
    case OriginateResponse(_, response, reason, _, _) =>
      ResponseFails(response, reason) && IsTerminal(ReasonStatus(reason)) && ReasonStatus(reason) != stored
    case PlaybackDone(_, _) => stored != Completed
    case FailOriginate(_, _, _) => stored != Failed
    case FailInternally(_, _, _) => stored != Failed
    case _ => false
  }

  /** From the given step on, no command for the call gives it another terminal status. */
  ghost predicate NothingOverwrites(cs: seq<Command>, id: Id, stored: Status, first: nat) {
    forall i :: first <= i < |cs| && Names(cs[i], id) ==> !Overwrites(stored, cs[i])
  }

  ghost predicate LivesFrom(dbs: seq<Db>, id: Id, first: nat) {
    forall i :: first <= i < |dbs| ==> id in dbs[i].calls
  }

  ghost predicate StatusStays(dbs: seq<Db>, id: Id, s: Status, first: nat) {
    forall i :: first <= i < |dbs| ==> StatusOf(dbs[i], id) == Some(s)
  }

  lemma TerminalStepIff(v: CallView, id: Id, c: Command)
    requires v.row.Some? && IsTerminal(v.row.value.status) && !c.Insert? && Act(v, id, c).row.Some?
    ensures Act(v, id, c).row.value.status != v.row.value.status <==> Overwrites(v.row.value.status, c)
  {
  }

  /** No command but those of the call itself changes its terminal status, events on a channel it
      shares with other calls included. */
  lemma TerminalMove(db: Db, c: Command, db': Db, id: Id)
    requires Next(db, c, db') && id in db.calls && id in db'.calls && IsTerminal(db.calls[id].status)
    ensures db'.calls[id].status != db.calls[id].status <==> Names(c, id) && Overwrites(db.calls[id].status, c)
  {
    if ByChannel(c) {
      Localised(db, c, db', id);
      if View(db', id) != View(db, id) {
        TerminalStepIff(View(db, id), id, c);
      }
    } else {
      NamedStep(db, c, db', id);
      if Names(c, id) && !c.Insert? {
        TerminalStepIff(View(db, id), id, c);
      }
    }
  }

  /** The reported flag promises that the status will not change further. Over a run, from any state
      with a terminal row and while that row lives, it is so exactly when no later command of the
      call overwrites the status. */
  lemma TerminalIsFinalIff(dbs: seq<Db>, cs: seq<Command>, id: Id, first: nat, s: Status)
    requires Execution(dbs, cs) && first <= |cs| && LivesFrom(dbs, id, first)
    requires StatusOf(dbs[first], id) == Some(s) && IsTerminal(s)
    ensures StatusStays(dbs, id, s, first) <==> NothingOverwrites(cs, id, s, first)
  {
    if StatusStays(dbs, id, s, first) {
      forall i | first <= i < |cs| && Names(cs[i], id) ensures !Overwrites(s, cs[i]) {
        assert StatusOf(dbs[i], id) == Some(s) && StatusOf(dbs[i + 1], id) == Some(s);
        TerminalMove(dbs[i], cs[i], dbs[i + 1], id);
      }
    }
    if NothingOverwrites(cs, id, s, first) {
      forall i | first <= i < |dbs| ensures StatusOf(dbs[i], id) == Some(s) {
        StatusHeld(dbs, cs, id, s, first, i);
      }
    }
  }

  lemma StatusKept(db: Db, c: Command, db': Db, id: Id, s: Status)
    requires Next(db, c, db') && StatusOf(db, id) == Some(s) && IsTerminal(s) && id in db'.calls
    requires Names(c, id) ==> !Overwrites(s, c)
    ensures StatusOf(db', id) == Some(s)
  {
    TerminalMove(db, c, db', id);
  }

  lemma StatusKeptAt(dbs: seq<Db>, cs: seq<Command>, id: Id, s: Status, k: nat)
    requires Execution(dbs, cs) && k < |cs| && StatusOf(dbs[k], id) == Some(s) && IsTerminal(s)
    requires id in dbs[k + 1].calls && (Names(cs[k], id) ==> !Overwrites(s, cs[k]))
    ensures StatusOf(dbs[k + 1], id) == Some(s)
  {
    StatusKept(dbs[k], cs[k], dbs[k + 1], id, s);
  }

  lemma {:induction false} StatusHeld(dbs: seq<Db>, cs: seq<Command>, id: Id, s: Status, first: nat, last: nat)
    requires Execution(dbs, cs) && LivesFrom(dbs, id, first)
    requires first <= last < |dbs| && StatusOf(dbs[first], id) == Some(s) && IsTerminal(s)
    requires NothingOverwrites(cs, id, s, first)
    ensures StatusOf(dbs[last], id) == Some(s)
    decreases last
  {
    if first < last {
      StatusHeld(dbs, cs, id, s, first, last - 1);
      StatusKeptAt(dbs, cs, id, s, last - 1);
    }
  }

  lemma {:induction false} AlwaysUnshared(own: string -> Id, dbs: seq<Db>, cs: seq<Command>, i: nat)
    requires Execution(dbs, cs) && Unshared(own, dbs[0]) && i <= |cs|
    requires RespectOwners(own, cs)
    ensures Unshared(own, dbs[i])
  {
    if i > 0 {
      AlwaysUnshared(own, dbs, cs, i - 1);
      StaysUnshared(own, dbs[i - 1], cs[i - 1], dbs[i]);
    }
  }

  lemma ActKeepsTerminal(v: CallView, id: Id, c: Command)
    requires v.row.Some? ==> IsTerminal(v.row.value.status)
    requires !c.Insert?
    ensures Act(v, id, c).row.Some? ==> IsTerminal(Act(v, id, c).row.value.status)
  {
  }

  lemma ClosedStaysClosed(db: Db, c: Command, db': Db, id: Id)
    requires Next(db, c, db') && Closed(db, id) && !(c.Insert? && c.id == id)
    ensures Closed(db', id)
  {
    Localised(db, c, db', id);
    if View(db', id) != View(db, id) {
      ActKeepsTerminal(View(db, id), id, c);
    }
  }

  /** Over a run, a call that is over stays over while its row lives. */
  lemma {:induction false} ClosedAlong(dbs: seq<Db>, cs: seq<Command>, id: Id, first: nat, last: nat)
    requires Execution(dbs, cs) && first <= last < |dbs| && Closed(dbs[first], id)
    requires forall i :: first <= i <= last ==> id in dbs[i].calls
    ensures Closed(dbs[last], id)
    decreases last
  {
    if first < last {
      ClosedAlong(dbs, cs, id, first, last - 1);
      ClosedAt(dbs, cs, id, last - 1);
    }
  }

  lemma ClosedAt(dbs: seq<Db>, cs: seq<Command>, id: Id, k: nat)
    requires Execution(dbs, cs) && k < |cs| && Closed(dbs[k], id) && id in dbs[k].calls
    ensures Closed(dbs[k + 1], id)
  {
    ClosedStaysClosed(dbs[k], cs[k], dbs[k + 1], id);
  }

  /** A hangup handled in one piece never changes the status of a terminal row. */
  lemma HangupKeepsTerminalStatus(db: Db, c: Command, db': Db, id: Id)
    requires Next(db, c, db') && c.Hangup? && id in db.calls && IsTerminal(db.calls[id].status)
    ensures id in db'.calls && db'.calls[id] == db.calls[id]
  {
    Localised(db, c, db', id);
  }

  lemma WriteOnTerminalRow(db: Db, id: Id, stale: Status, cause: int, text: string, at: Time)
    requires id in db.calls && IsTerminal(db.calls[id].status)
    ensures StatusOf(ApplyAll(db, HangupWrite(id, stale, cause, text, at)), id) ==
            Some(if IsTerminal(stale) then db.calls[id].status else HangupStatus(stale, cause))
  {
    ApplyShort(db, HangupWrite(id, stale, cause, text, at));
  }

  /** Split at its awaits a hangup can override a terminal status, and this is exactly when: its
      lookup, whatever statements of its own and of others ran since, saw a status that was not
      terminal, and what the cause maps to from there is not what is stored by now. */
  lemma StaleHangupOverwritesIff(db: Db, between: seq<Statement>, id: Id, cause: int, text: string, at: Time)
    requires id in db.calls
    requires var now := ApplyAll(db, between); id in now.calls && IsTerminal(now.calls[id].status)
    ensures var stale, now := db.calls[id].status, ApplyAll(db, between);
            StatusOf(ApplyAll(now, HangupWrite(id, stale, cause, text, at)), id) != StatusOf(now, id) <==>
            !IsTerminal(stale) && HangupStatus(stale, cause) != now.calls[id].status
  {
    WriteOnTerminalRow(ApplyAll(db, between), id, db.calls[id].status, cause, text, at);
  }

  lemma ApplyOneMore(db: Db, ss: seq<Statement>, s: Statement)
    ensures ApplyAll(db, ss + [s]) == Apply(ApplyAll(db, ss), s)
  {
    assert (ss + [s])[..|ss|] == ss;
  }

  /** A call that has been announced on channel `c` and is playing. */
  lemma PlayingCall() returns (ss: seq<Statement>)
    ensures var db := ApplyAll(Db(map[], []), ss);
            LookedUp(db, "c", Some("r")) && StatusOf(db, "r") == Some(Playing)
  {
    var start := InsertCall("r", "09123456789", "1234", None, 0.0);
    var bind := WriteStatus("r", StatusOnly(Answered).(channel := Some("c")), 1.0);
    var play := WriteStatus("r", StatusOnly(Playing), 2.0);
    ApplyShort(Db(map[], []), [start, bind]);
    ApplyOneMore(Db(map[], []), [start, bind], play);
    ss := [start, bind] + [play];
    assert ApplyAll(Db(map[], []), ss).calls.Keys == {"r"};
  }

  /** The comment's own case, from empty tables: the hangup handler reads `playing`, the playback event
      completes the call, and the handler's late write turns the completion into a busy line. */
  lemma StaleHangupOverwritesCompletion()
    ensures exists seen: seq<Statement>, between: seq<Statement> ::
              var looked := ApplyAll(Db(map[], []), seen);
              var now := ApplyAll(looked, between);
              && LookedUp(looked, "c", Some("r")) && StatusOf(looked, "r") == Some(Playing)
              && StatusOf(now, "r") == Some(Completed)
              && StatusOf(ApplyAll(now, HangupWrite("r", Playing, 17, "", 4.0)), "r") == Some(Busy)
  {
    var seen := PlayingCall();
    var looked := ApplyAll(Db(map[], []), seen);
    var log := InsertEvent("r", HangupLogged, HangupDetail(17, "", Some("c")), 4.0);
    var done := WriteStatus("r", StatusOnly(Completed), 3.0);
    ApplyShort(looked, [log, done]);
    WriteOnTerminalRow(ApplyAll(looked, [log, done]), "r", Playing, 17, "", 4.0);
  }

  // ----- Every hangup ends the call -----

  /** What a call that is not over becomes when it is cleared. */
  predicate ClearedAs(stored: Status, cause: int, s: Status) {
    var mapped := {16, 17, 18, 19, 20, 21, 22, 27, 28, 34, 38, 41, 42, 50};
    && (s == Completed <==> cause == 16 || (cause !in mapped && stored in {Answered, Playing}))
    && (s == Busy <==> cause == 17)
    && (s == NoAnswer <==> cause in {18, 19, 20})
    && (s == Rejected <==> cause == 21)
    && (s == Unreachable <==> cause in {22, 27})
    && (s == Congestion <==> cause in {34, 38, 41, 42})
    && (s == Failed <==> cause in {28, 50} || (cause !in mapped && stored !in {Answered, Playing}))
  }

  lemma HangupStatusIff(stored: Status, cause: int)
    ensures ClearedAs(stored, cause, HangupStatus(stored, cause))
  {
  }

  /** Cause by cause, what a hangup leads a call to that is not over. */
  lemma HangupOutcomeIff(v: CallView, id: Id, channel: string, cause: int, text: string, at: Time)
    requires BoundTo(v, channel) && !IsTerminal(v.row.value.status)
    ensures var v' := Act(v, id, Hangup(channel, cause, text, at));
            && v'.row.Some? && ClearedAs(v.row.value.status, cause, v'.row.value.status)
            && v'.row.value.hangupCause == Some(Cleared(cause, text))
            && v'.timeline == v.timeline + [Event(id, HangupLogged, HangupDetail(cause, text, Some(channel)), at)]
  {
    HangupStatusIff(v.row.value.status, cause);
  }

  /** What a failing response with a reason code makes of a call that is not over. */
  predicate ReportedAs(reason: string, s: Status) {
    && (s == NoAnswer <==> reason == "1")
    && (s == Answered <==> reason == "4")
    && (s == Busy <==> reason == "5")
    && (s == Congestion <==> reason == "8")
    && (s == Failed <==> reason !in {"1", "4", "5", "8"})
  }

  lemma ReasonStatusIff(reason: string)
    ensures ReportedAs(reason, ReasonStatus(reason))
  {
  }

  /** After a hangup a call is over, whatever the cause and whatever it was before, and can be
      retried unless it completed or had been cancelled. */
  lemma HangupLeavesRetryableUnlessCompleted(v: CallView, id: Id, channel: string, cause: int, text: string, at: Time)
    requires BoundTo(v, channel)
    ensures var v' := Act(v, id, Hangup(channel, cause, text, at));
            && v'.row.Some? && IsTerminal(v'.row.value.status)
            && (IsRetryable(v'.row.value.status) <==>
                v'.row.value.status != Completed && v.row.value.status != Cancelled)
  {
  }

  predicate Closable(v: CallView, channel: string) {
    v.row.Some? ==> IsTerminal(v.row.value.status) || v.row.value.channel == Some(channel)
  }

  predicate Rebinds(c: Command, id: Id, channel: string) {
    (c.CallStart? && c.id == id && c.bind.Some? && c.bind != Some(channel)) || (c.Insert? && c.id == id)
  }

  lemma ActKeepsClosable(v: CallView, id: Id, c: Command, channel: string)
    requires Closable(v, channel)
    requires !(c.CallStart? && c.bind.Some? && c.bind != Some(channel)) && !c.Insert?
    ensures Closable(Act(v, id, c), channel)
  {
  }

  lemma ClosableStep(db: Db, c: Command, db': Db, id: Id, channel: string)
    requires Next(db, c, db') && Closable(View(db, id), channel) && !Rebinds(c, id, channel)
    ensures Closable(View(db', id), channel)
  {
    Localised(db, c, db', id);
    if View(db', id) != View(db, id) {
      ActKeepsClosable(View(db, id), id, c, channel);
    }
  }

  lemma {:induction false} StaysClosable(dbs: seq<Db>, cs: seq<Command>, id: Id, channel: string, first: nat, last: nat)
    requires Execution(dbs, cs) && first <= last < |dbs|
    requires Closable(View(dbs[first], id), channel)
    requires forall i :: first <= i < last ==> !Rebinds(cs[i], id, channel)
    ensures Closable(View(dbs[last], id), channel)
    decreases last
  {
    if first < last {
      StaysClosable(dbs, cs, id, channel, first, last - 1);
      ClosableStep(dbs[last - 1], cs[last - 1], dbs[last], id, channel);
    }
  }

  lemma HangupCloses(own: string -> Id, db: Db, c: Command, db': Db, id: Id)
    requires Next(db, c, db') && Unshared(own, db) && c.Hangup? && own(c.channel) == id
    requires Closable(View(db, id), c.channel)
    ensures Closed(db', id)
  {
    ProjectedStep(own, db, c, db', id);
  }

  lemma AnnouncementMakesClosable(db: Db, c: Command, db': Db, id: Id, channel: string)
    requires Next(db, c, db') && c.CallStart? && c.id == id && c.bind == Some(channel)
    ensures Closable(View(db', id), channel)
  {
    NamedStep(db, c, db', id);
  }

  /** Once the dialplan has announced a channel for a call, a hangup of that channel with any
      cause leaves the call terminal, whatever happened in between and to whatever other calls. */
  lemma HangupEndsTheCall(own: string -> Id, dbs: seq<Db>, cs: seq<Command>, id: Id, channel: string,
                          start: nat, end: nat)
    requires Execution(dbs, cs) && Unshared(own, dbs[0])
    requires RespectOwners(own, cs)
    requires start < end < |cs|
    requires cs[start].CallStart? && cs[start].id == id && cs[start].bind == Some(channel)
    requires cs[end].Hangup? && cs[end].channel == channel
    requires forall i :: start < i < end ==> !Rebinds(cs[i], id, channel)
    ensures Closed(dbs[end + 1], id)
  {
    AnnouncementMakesClosable(dbs[start], cs[start], dbs[start + 1], id, channel);
    StaysClosable(dbs, cs, id, channel, start + 1, end);
    AlwaysUnshared(own, dbs, cs, end);
    HangupCloses(own, dbs[end], cs[end], dbs[end + 1], id);
  }

  // ----- The answered flag -----

  predicate AnsweredOrLater(s: Status) {
    s in {Answered, Playing, Completed}
  }

  predicate ShowsAnswer(k: Kind) {
    k in {AnsweredLogged, DialplanStarted, PlayingLogged, PlaybackCompleted}
  }

  predicate Evidence(timeline: seq<Event>) {
    exists i :: 0 <= i < |timeline| && ShowsAnswer(timeline[i].kind)
  }

  predicate IsFailureFour(d: Detail) {
    d.ResponseDetail? && d.response == "Failure" && d.reason == "4"
  }

  /** A failed originate whose reason code nevertheless says "answered". */
  predicate FailureFour(timeline: seq<Event>) {
    exists i :: 0 <= i < |timeline| && IsFailureFour(timeline[i].detail)
  }

  predicate IsAnswered(v: CallView) {
    (v.row.Some? && AnsweredOrLater(v.row.value.status)) || Evidence(v.timeline)
  }

  /** What backs the status of a call with entries in its timeline. */
  ghost predicate Backed(v: CallView) {
    v.row.Some? ==>
      && (v.row.value.channel.Some? ==> Evidence(v.timeline))
      && (v.row.value.status in {Playing, Completed} ==> Evidence(v.timeline))
      && (v.row.value.status == Answered ==> Evidence(v.timeline) || FailureFour(v.timeline))
  }

  lemma TimelineSnoc(timeline: seq<Event>, e: Event)
    ensures Evidence(timeline + [e]) <==> Evidence(timeline) || ShowsAnswer(e.kind)
    ensures FailureFour(timeline + [e]) <==> FailureFour(timeline) || IsFailureFour(e.detail)
  {
    var all := timeline + [e];
    assert all[|timeline|] == e;
    assert forall i :: 0 <= i < |timeline| ==> all[i] == timeline[i];
  }

  /** The entry a command adds to the timeline of the call it moves, if any. */
  function EntryOf(v: CallView, id: Id, c: Command): Option<Event> {
    var v' := Act(v, id, c);
    if |v'.timeline| == |v.timeline| + 1 then Some(v'.timeline[|v.timeline|]) else None
  }

  lemma ActAppends(v: CallView, id: Id, c: Command)
    requires !c.Expire?
    ensures Act(v, id, c).timeline == match EntryOf(v, id, c) case Some(e) => v.timeline + [e] case None => v.timeline
  {
  }

  lemma ActKeepsBacked(v: CallView, id: Id, c: Command)
    requires Backed(v)
    ensures Backed(Act(v, id, c))
  {
    if !c.Expire? {
      ActAppends(v, id, c);
      if EntryOf(v, id, c).Some? {
        TimelineSnoc(v.timeline, EntryOf(v, id, c).value);
      }
    }
  }

  /** In every state of every run from empty tables, the status of every call is backed. */
  lemma {:induction false} StatusIsBacked(dbs: seq<Db>, cs: seq<Command>, id: Id)
    requires Execution(dbs, cs) && dbs[0] == Db(map[], [])
    ensures Backed(View(dbs[|cs|], id))
  {
    if cs != [] {
      var n := |cs| - 1;
      ExecutionFront(dbs, cs);
      StatusIsBacked(dbs[..|cs|], cs[..n], id);
      Localised(dbs[n], cs[n], dbs[n + 1], id);
      ActKeepsBacked(View(dbs[n], id), id, cs[n]);
    }
  }

  /** Without a failure carrying reason 4 the flag says exactly what the timeline says. */
  lemma AnsweredIffLogged(dbs: seq<Db>, cs: seq<Command>, id: Id)
    requires Execution(dbs, cs) && dbs[0] == Db(map[], [])
    requires id in dbs[|cs|].calls && !FailureFour(View(dbs[|cs|], id).timeline)
    ensures IsAnswered(View(dbs[|cs|], id)) <==> Evidence(View(dbs[|cs|], id).timeline)
  {
    StatusIsBacked(dbs, cs, id);
  }

  /** The commands that can move a call out of `Answered` and log nothing that shows an answer. */
  predicate TakesBack(c: Command) {
    match c
    case MarkOriginating(_, _) => true
    case FailOriginate(_, _, _) => true
    case FailInternally(_, _, _) => true
    case OriginateResponse(_, response, reason, _, _) =>
      ResponseFails(response, reason) && ReasonStatus(reason) != Answered
    case _ => false
  }

  lemma TakenBackByMoveIff(v: CallView, id: Id, c: Command)
    requires Backed(v) && v.row.Some? && !c.Insert? && Act(v, id, c).row.Some?
    ensures IsAnswered(v) && !IsAnswered(Act(v, id, c)) <==>
            v.row.value.status == Answered && !Evidence(v.timeline) && TakesBack(c)
  {
    if !c.Expire? {
      ActAppends(v, id, c);
      if EntryOf(v, id, c).Some? {
        TimelineSnoc(v.timeline, EntryOf(v, id, c).value);
      }
    }
  }

  lemma TakenBackByStepIff(db: Db, c: Command, db': Db, id: Id)
    requires Next(db, c, db') && Backed(View(db, id)) && id in db.calls && id in db'.calls
    ensures IsAnswered(View(db, id)) && !IsAnswered(View(db', id)) <==>
            db.calls[id].status == Answered && !Evidence(View(db, id).timeline) && Names(c, id) && TakesBack(c)
  {
    if ByChannel(c) {
      Localised(db, c, db', id);
    } else {
      NamedStep(db, c, db', id);
    }
    if View(db', id) == Act(View(db, id), id, c) && !c.Insert? {
      TakenBackByMoveIff(View(db, id), id, c);
    }
  }

  lemma BackedAt(dbs: seq<Db>, cs: seq<Command>, id: Id, k: nat)
    requires Execution(dbs, cs) && dbs[0] == Db(map[], []) && k <= |cs|
    ensures Backed(View(dbs[k], id))
  {
    StatusIsBacked(dbs[..k + 1], cs[..k], id);
  }

  /** Exactly when a step of a run takes the flag back from a call that keeps its row; and then the
      timeline holds a failure carrying reason 4. */
  lemma AnswerTakenBackIff(dbs: seq<Db>, cs: seq<Command>, id: Id, k: nat)
    requires Execution(dbs, cs) && dbs[0] == Db(map[], []) && k < |cs|
    requires id in dbs[k].calls && id in dbs[k + 1].calls
    ensures IsAnswered(View(dbs[k], id)) && !IsAnswered(View(dbs[k + 1], id)) <==>
            && StatusOf(dbs[k], id) == Some(Answered) && !Evidence(View(dbs[k], id).timeline)
            && Names(cs[k], id) && TakesBack(cs[k])
    ensures IsAnswered(View(dbs[k], id)) && !IsAnswered(View(dbs[k + 1], id)) ==>
            FailureFour(View(dbs[k], id).timeline)
  {
    BackedAt(dbs, cs, id, k);
    TakenBackByStepIff(dbs[k], cs[k], dbs[k + 1], id);
  }

  lemma EvidenceStays(timeline: seq<Event>, longer: seq<Event>)
    requires timeline <= longer && Evidence(timeline)
    ensures Evidence(longer)
  {
    var i :| 0 <= i < |timeline| && ShowsAnswer(timeline[i].kind);
    assert longer[i] == timeline[i];
  }

  /** A call once reported answered, with no failure carrying reason 4 in its timeline by then, is
      reported answered for as long as its row lives, whatever happens afterwards. */
  lemma AnsweredStays(dbs: seq<Db>, cs: seq<Command>, id: Id, first: nat, last: nat)
    requires Execution(dbs, cs) && dbs[0] == Db(map[], []) && first <= last < |dbs|
    requires forall i :: first <= i <= last ==> id in dbs[i].calls
    requires IsAnswered(View(dbs[first], id)) && !FailureFour(View(dbs[first], id).timeline)
    ensures IsAnswered(View(dbs[last], id))
  {
    BackedAt(dbs, cs, id, first);
    TimelineGrows(dbs, cs, id, first, last);
    EvidenceStays(View(dbs[first], id).timeline, View(dbs[last], id).timeline);
  }

  // ----- The timeline -----

  lemma TimelineGrowsByStep(db: Db, c: Command, db': Db, id: Id)
    requires Next(db, c, db') && id in db.calls && id in db'.calls
    ensures EventsOf(db.events, id) <= EventsOf(db'.events, id)
  {
    Localised(db, c, db', id);
    if View(db', id) != View(db, id) && !c.Expire? {
      ActAppends(View(db, id), id, c);
    }
  }

  lemma {:induction false} TimelineGrows(dbs: seq<Db>, cs: seq<Command>, id: Id, first: nat, last: nat)
    requires Execution(dbs, cs) && first <= last < |dbs|
    requires forall i :: first <= i <= last ==> id in dbs[i].calls
    ensures EventsOf(dbs[first].events, id) <= EventsOf(dbs[last].events, id)
    decreases last
  {
    if first < last {
      TimelineGrows(dbs, cs, id, first, last - 1);
      TimelineGrowsByStep(dbs[last - 1], cs[last - 1], dbs[last], id);
    }
  }

  ghost predicate TimesAscend(cs: seq<Command>) {
    forall i, j :: 0 <= i < j < |cs| ==> cs[i].at <= cs[j].at
  }

  /** The timeline is sorted, and opens with the moment the row was created. */
  ghost predicate WellKept(v: CallView, clock: Time) {
    InTimeOrder(v.timeline) && AllBy(v.timeline, clock) && Opened(v)
  }

  lemma EntryTime(v: CallView, id: Id, c: Command)
    ensures EntryOf(v, id, c).Some? && !c.Expire? ==> EntryOf(v, id, c).value.at == c.at
  {
  }

  lemma ActKeepsOrder(v: CallView, id: Id, c: Command, clock: Time)
    requires InTimeOrder(v.timeline) && AllBy(v.timeline, clock) && clock <= c.at
    ensures InTimeOrder(Act(v, id, c).timeline) && AllBy(Act(v, id, c).timeline, c.at)
  {
    if !c.Expire? {
      ActAppends(v, id, c);
      EntryTime(v, id, c);
      if EntryOf(v, id, c).Some? {
        OrderSnoc(v.timeline, EntryOf(v, id, c).value);
      }
    }
  }

  ghost predicate Opened(v: CallView) {
    v.row.Some? ==>
      v.timeline != [] && v.timeline[0].kind == QueuedLogged && v.timeline[0].at == v.row.value.createdAt
  }

  lemma ActKeepsOpened(v: CallView, id: Id, c: Command)
    requires Opened(v) && (c.Insert? ==> v.timeline == [])
    ensures Opened(Act(v, id, c))
  {
  }

  lemma WellKeptStep(db: Db, c: Command, db': Db, id: Id, clock: Time)
    requires Next(db, c, db') && WellKept(View(db, id), clock) && clock <= c.at
    ensures WellKept(View(db', id), c.at)
  {
    Localised(db, c, db', id);
    if View(db', id) != View(db, id) {
      ActKeepsOrder(View(db, id), id, c, clock);
      ActKeepsOpened(View(db, id), id, c);
    }
  }

  lemma {:induction false} TimelinesAreWellKept(dbs: seq<Db>, cs: seq<Command>, id: Id, clock: Time)
    requires Execution(dbs, cs) && dbs[0] == Db(map[], [])
    requires TimesAscend(cs) && forall i :: 0 <= i < |cs| ==> cs[i].at <= clock
    ensures WellKept(View(dbs[|cs|], id), clock)
  {
    if cs != [] {
      var n := |cs| - 1;
      ExecutionFront(dbs, cs);
      TimelinesAreWellKept(dbs[..|cs|], cs[..n], id, cs[n].at);
      WellKeptStep(dbs[n], cs[n], dbs[n + 1], id, cs[n].at);
    }
  }

  /** With a clock that does not go back, the timeline a client polls starts with `queued`, only
      ever grows while the row lives, and is the order in which the events were logged. */
  lemma PolledTimeline(dbs: seq<Db>, cs: seq<Command>, id: Id, clock: Time, first: nat)
    requires Execution(dbs, cs) && dbs[0] == Db(map[], [])
    requires TimesAscend(cs) && forall i :: 0 <= i < |cs| ==> cs[i].at <= clock
    requires first <= |cs| && forall i :: first <= i <= |cs| ==> id in dbs[i].calls
    ensures Timeline(dbs[|cs|], id) == EventsOf(dbs[|cs|].events, id)
    ensures Timeline(dbs[first], id) <= Timeline(dbs[|cs|], id)
    ensures Timeline(dbs[first], id) != [] && Timeline(dbs[first], id)[0].kind == QueuedLogged
  {
    TimelinesAreWellKept(dbs, cs, id, clock);
    TimelinesAreWellKept(dbs[..first + 1], cs[..first], id, clock);
    ByTimeKeepsSorted(EventsOf(dbs[|cs|].events, id));
    ByTimeKeepsSorted(EventsOf(dbs[first].events, id));
    TimelineGrows(dbs, cs, id, first, |cs|);
  }

  lemma {:induction false} OwnedHaveRows(events: seq<Event>, calls: map<Id, Row>)
    ensures forall i :: 0 <= i < |Owned(events, calls)| ==> Owned(events, calls)[i].requestId in calls
  {
    if events != [] {
      OwnedHaveRows(events[..|events| - 1], calls);
    }
  }

  /** Cleanup deletes the expired calls with their events and every orphan event, and touches
      no surviving row and no surviving timeline. */
  lemma CleanupIsPrecise(db: Db, now: Time, id: Id)
    ensures var db' := ExpireCalls(db, now);
            && View(db', id) ==
                 (if id in db.calls && now <= db.calls[id].expiresAt then View(db, id) else CallView(None, []))
            && forall i :: 0 <= i < |db'.events| ==> db'.events[i].requestId in db'.calls
  {
    ViewOfExpire(db, now, id);
    OwnedHaveRows(db.events, LiveCalls(db.calls, now));
  }
}
