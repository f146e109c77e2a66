/** What the routes do with nothing interleaved is a run of the service's state machine. */
module RouteSteps {
  import opened Prelude
  import opened RateLimiting
  import opened CallStorage
  import opened CallCommands
  import opened CallRuns
  import Dialplan
  import opened DialplanCalls
  import EventHandling
  import opened Originating
  import opened Routes
  import opened Service
  import V = Validation

  /** Steps of the service, one after the other. */
  ghost predicate Stretch(cfg: Config, ws: seq<World>, steps: seq<Step>) {
    |ws| == |steps| + 1 && forall i :: 0 <= i < |steps| ==> Advance(cfg, ws[i], steps[i], ws[i + 1])
  }

  ghost predicate Reaches(cfg: Config, w: World, w': World) {
    exists ws: seq<World>, steps: seq<Step> :: Stretch(cfg, ws, steps) && ws[0] == w && ws[|steps|] == w'
  }

  lemma ReachesItself(cfg: Config, w: World)
    ensures Reaches(cfg, w, w)
  {
    assert Stretch(cfg, [w], []);
  }

  lemma StretchSnoc(cfg: Config, ws: seq<World>, steps: seq<Step>, st: Step, w': World)
    requires Stretch(cfg, ws, steps) && Advance(cfg, ws[|steps|], st, w')
    ensures Stretch(cfg, ws + [w'], steps + [st])
  {
    var ws', steps' := ws + [w'], steps + [st];
    forall i | 0 <= i < |steps'| ensures Advance(cfg, ws'[i], steps'[i], ws'[i + 1]) {
      if i < |steps| {
        assert Advance(cfg, ws[i], steps[i], ws[i + 1]);
      }
    }
  }

  lemma ReachesNext(cfg: Config, w: World, w': World, st: Step, w'': World)
    requires Reaches(cfg, w, w') && Advance(cfg, w', st, w'')
    ensures Reaches(cfg, w, w'')
  {
    var ws: seq<World>, steps: seq<Step> :| Stretch(cfg, ws, steps) && ws[0] == w && ws[|steps|] == w';
    StretchSnoc(cfg, ws, steps, st, w'');
    assert (ws + [w''])[0] == w && (ws + [w''])[|steps + [st]|] == w'';
  }

  // ----- The background call -----

  /** The background call up to its `try`. */
  lemma StartSteps(cfg: Config, w: World, id: Id, now: Time, db1: Db, db2: Db) returns (w': World)
    requires InPhase(w, id, Scheduled) && w.clock <= now
    requires Next(w.db, MarkOriginating(id, now), db1) && Next(db1, LogOriginating(id, now), db2)
    ensures Reaches(cfg, w, w')
    ensures w' == w.(clock := now, db := db2, limiter := w.limiter.(active := w.limiter.active + 1),
                     execs := w.execs[id := Dialing])
  {
    var taken := Rest(cfg, w, ExecAcquire(id, now));
    var marked := Rest(cfg, taken, ExecMark(id, now)).(db := db1);
    w' := Rest(cfg, marked, ExecLog(id, now)).(db := db2);
    ReachesItself(cfg, w);
    ReachesNext(cfg, w, w, ExecAcquire(id, now), taken);
    ReachesNext(cfg, w, taken, ExecMark(id, now), marked);
    ReachesNext(cfg, w, marked, ExecLog(id, now), w');
    assert w.execs[id := Acquired][id := Marked][id := Dialing] == w.execs[id := Dialing];
  }

  /** The responses a reply makes the originator hand on are events the service may receive. */
  lemma {:induction false} ForwardedSteps(cfg: Config, start: World, w: World, messages: seq<EventHandling.Message>,
                                          now: Time, db': Db) returns (w': World)
    requires Reaches(cfg, start, w) && w.clock == now && Leads(w.db, Forwarded(messages, now), db')
    ensures Reaches(cfg, start, w') && w' == w.(db := db')
  {
    var cs := Forwarded(messages, now);
    var dbs :| Execution(dbs, cs) && dbs[0] == w.db && dbs[|cs|] == db';
    if cs == [] {
      w' := w;
    } else {
      var front, m := messages[..|messages| - 1], messages[|messages| - 1];
      if |Forwarded(front, now)| == |cs| {
        w' := ForwardedSteps(cfg, start, w, front, now, db');
      } else {
        var n := |cs| - 1;
        ExecutionFront(dbs, cs);
        assert Leads(w.db, Forwarded(front, now), dbs[n]);
        var before := ForwardedSteps(cfg, start, w, front, now, dbs[n]);
        w' := before.(db := db');
        ReachesNext(cfg, start, before, Ami(cs[n], now), w');
      }
    }
  }

  /** The end of the `try` with what was raised or declined, and the `finally`. */
  lemma EndSteps(cfg: Config, start: World, w: World, id: Id, failure: Option<Failure>, now: Time, db': Db)
    returns (w': World)
    requires Reaches(cfg, start, w) && InPhase(w, id, Dialing) && w.clock == now && w.limiter.active > 0
    requires Next(w.db, CommandOf(cfg, w, ExecEnd(id, failure, now)), db')
    ensures Reaches(cfg, start, w')
    ensures w' == w.(db := db', limiter := w.limiter.(active := w.limiter.active - 1), execs := w.execs - {id})
  {
    var ended := Rest(cfg, w, ExecEnd(id, failure, now)).(db := db');
    w' := Rest(cfg, ended, ExecRelease(id, now));
    ReachesNext(cfg, start, w, ExecEnd(id, failure, now), ended);
    ReachesNext(cfg, start, ended, ExecRelease(id, now), w');
    assert w.execs[id := Finishing] - {id} == w.execs - {id};
  }

  lemma LeadsOne(db: Db, c: Command, db': Db)
    requires Leads(db, [c], db')
    ensures Next(db, c, db')
  {
    var dbs :| Execution(dbs, [c]) && dbs[0] == db && dbs[1] == db';
    assert Next(dbs[0], [c][0], dbs[1]);
  }

  lemma LeadsApart(db: Db, a: Command, b: Command, rest: seq<Command>, db': Db) returns (db1: Db, db2: Db)
    requires Leads(db, [a, b] + rest, db')
    ensures Next(db, a, db1) && Next(db1, b, db2) && Leads(db2, rest, db')
  {
    var cs := [a, b] + rest;
    var dbs :| Execution(dbs, cs) && dbs[0] == db && dbs[|cs|] == db';
    db1, db2 := dbs[1], dbs[2];
    assert Next(dbs[0], cs[0], dbs[1]) && Next(dbs[1], cs[1], dbs[2]);
    var tail := dbs[2..];
    forall i | 0 <= i < |rest| ensures Next(tail[i], rest[i], tail[i + 1]) {
      assert Next(dbs[i + 2], cs[i + 2], dbs[i + 2 + 1]);
    }
    assert Execution(tail, rest);
  }

  lemma DialSteps(cfg: Config, start: World, w: World, id: Id, raised: Option<string>, connected: bool, reply: Reply,
                  now: Time, db': Db) returns (w': World)
    requires Reaches(cfg, start, w) && InPhase(w, id, Dialing) && w.clock == now && w.limiter.active > 0
    requires Leads(w.db, TryCommands(id, raised, connected, reply, now), db')
    ensures Reaches(cfg, start, w')
    ensures w' == w.(db := db', limiter := w.limiter.(active := w.limiter.active - 1), execs := w.execs - {id})
  {
    if raised.Some? {
      LeadsOne(w.db, FailInternally(id, raised.value, now), db');
      w' := EndSteps(cfg, start, w, id, Some(Raised(raised.value)), now, db');
    } else if OutcomeOf(connected, reply).Some? {
      var error := ErrorText(OutcomeOf(connected, reply).value);
      LeadsOne(w.db, FailOriginate(id, error, now), db');
      w' := EndSteps(cfg, start, w, id, Some(Declined(error)), now, db');
    } else {
      var answered := ForwardedSteps(cfg, start, w, reply.messages[1..], now, db');
      w' := EndSteps(cfg, start, answered, id, None, now, db');
    }
  }

  /** Whatever `ExecuteCall` may do to the tables when it runs undisturbed, the service can do by steps
      of that background call and events of the manager; and nothing else of it changes, but that the
      call is over. */
  lemma ExecuteCallIsARun(cfg: Config, w: World, id: Id, raised: Option<string>, connected: bool, reply: Reply,
                          now: Time, db': Db)
    requires InPhase(w, id, Scheduled) && w.clock <= now
    requires Leads(w.db, CallCommandsOf(id, raised, connected, reply, now), db')
    ensures Reaches(cfg, w, w.(clock := now, db := db', execs := w.execs - {id}))
  {
    var db1, db2 := LeadsApart(w.db, MarkOriginating(id, now), LogOriginating(id, now),
                               TryCommands(id, raised, connected, reply, now), db');
    var started := StartSteps(cfg, w, id, now, db1, db2);
    var w' := DialSteps(cfg, w, started, id, raised, connected, reply, now, db');
    assert w.execs[id := Dialing] - {id} == w.execs - {id};
  }

  lemma MarkedRow(db: Db, id: Id, now: Time, db1: Db)
    requires id in db.calls && db.calls[id].status == Queued && Next(db, MarkOriginating(id, now), db1)
    ensures View(db1, id) == CallView(Some(db.calls[id].(status := Originating, updatedAt := now)),
                                      EventsOf(db.events, id))
  {
    NamedStep(db, MarkOriginating(id, now), db1, id);
  }

  lemma LoggedStart(db1: Db, id: Id, now: Time, db2: Db)
    requires Next(db1, LogOriginating(id, now), db2)
    ensures View(db2, id) == Logged(View(db1, id), id, OriginatingLogged, NoDetail, now)
  {
    NamedStep(db1, LogOriginating(id, now), db2, id);
  }

  lemma QueuedThenMarked(db: Db, id: Id, now: Time, db1: Db, db2: Db)
    requires id in db.calls && db.calls[id].status == Queued
    requires Next(db, MarkOriginating(id, now), db1) && Next(db1, LogOriginating(id, now), db2)
    ensures id in db2.calls && db2.calls[id] == db.calls[id].(status := Originating, updatedAt := now)
    ensures EventsOf(db2.events, id) == EventsOf(db.events, id) + [Event(id, OriginatingLogged, NoDetail, now)]
  {
    MarkedRow(db, id, now, db1);
    LoggedStart(db1, id, now, db2);
  }

  lemma FailedThen(db: Db, id: Id, cause: Cause, error: string, now: Time)
    requires id in db.calls && db.calls[id].status == Originating
    ensures var db' := OnFailure(db, id, cause, error, now);
            && id in db'.calls
            && db'.calls[id] == db.calls[id].(status := Failed, hangupCause := Some(cause), updatedAt := now)
            && EventsOf(db'.events, id) == EventsOf(db.events, id) + [Event(id, FailedLogged, ErrorDetail(error), now)]
  {
    ViewOfUpdateAndEvent(db, id, FailureUpdate(cause), FailedLogged, ErrorDetail(error), now, id);
  }

  /** What a queued call is after its background call has run undisturbed: failed with the internal error
      or with what was declined, and both logged; or originating, when the action was accepted and no
      response came with the acknowledgment. */
  lemma BackgroundCallOutcome(db: Db, id: Id, raised: Option<string>, connected: bool, reply: Reply, now: Time, db': Db)
    requires id in db.calls && db.calls[id].status == Queued
    requires Leads(db, CallCommandsOf(id, raised, connected, reply, now), db')
    ensures var row := db.calls[id].(updatedAt := now);
            var marked := EventsOf(db.events, id) + [Event(id, OriginatingLogged, NoDetail, now)];
            var failure := OutcomeOf(connected, reply);
            && (raised.Some? ==>
                  && View(db', id).row == Some(row.(status := Failed, hangupCause := Some(InternalError)))
                  && View(db', id).timeline == marked + [Event(id, FailedLogged, ErrorDetail(raised.value), now)])
            && (raised.None? && failure.Some? ==>
                  var error := ErrorText(failure.value);
                  && View(db', id).row == Some(row.(status := Failed, hangupCause := Some(NotAccepted(error))))
                  && View(db', id).timeline == marked + [Event(id, FailedLogged, ErrorDetail(error), now)])
            && (raised.None? && failure.None? && HandedOn(connected, reply, now) == [] ==>
                  && View(db', id).row == Some(row.(status := Originating))
                  && View(db', id).timeline == marked)
  {
    var db1, db2 := LeadsApart(db, MarkOriginating(id, now), LogOriginating(id, now),
                               TryCommands(id, raised, connected, reply, now), db');
    QueuedThenMarked(db, id, now, db1, db2);
    if raised.Some? {
      LeadsOne(db2, FailInternally(id, raised.value, now), db');
      FailedThen(db2, id, InternalError, raised.value, now);
    } else if OutcomeOf(connected, reply).Some? {
      var error := ErrorText(OutcomeOf(connected, reply).value);
      LeadsOne(db2, FailOriginate(id, error, now), db');
      FailedThen(db2, id, NotAccepted(error), error, now);
    } else if HandedOn(connected, reply, now) == [] {
      var dbs :| Execution(dbs, []) && dbs[0] == db2 && dbs[0] == db';
    }
  }

  // ----- What can be retried -----

  /** A call can be read for a retry exactly when it is there, in one of six statuses, and a code for it
      is given or stored. */
  lemma RetryLoadIff(cfg: Config, w: World, task: int, parent: Id, newCode: Option<string>, at: Time)
    requires w.clock <= at && task !in w.retries
    ensures Enabled(cfg, w, RetryLoad(task, parent, newCode, at)) <==>
            && parent in w.db.calls
            && w.db.calls[parent].status in {NoAnswer, Busy, Congestion, Failed, Unreachable, Rejected}
            && ((newCode.Some? && newCode.value != "") || w.db.calls[parent].code != "")
  {
  }

  lemma CompletedIsNotLoaded(cfg: Config, w: World, task: int, parent: Id, newCode: Option<string>, at: Time)
    requires StatusOf(w.db, parent) == Some(Completed)
    ensures !Enabled(cfg, w, RetryLoad(task, parent, newCode, at))
  {
  }

  /** After a full dialplan run, in every state up to the next failure reported for the call, a retry of it
      is refused for being completed. */
  lemma CompletedRunIsNotRetried(dbs: seq<Db>, cs: seq<Command>, id: Id, trace: seq<Dialplan.Action>,
                                 clock: int -> Time, done: nat, i: nat, newCode: Option<string>)
    requires Execution(dbs, cs) && LivesFrom(dbs, id, 0) && FinishesAt(cs, trace, clock, id, done)
    requires done < i <= |cs| && NothingOverwrites(cs[..i], id, Completed, done + 1)
    ensures PlanRetry(dbs[i], id, newCode) == NoRetry(NotRetryable(Completed))
  {
    DoneCompletes(dbs[done], cs[done], dbs[done + 1], id);
    StatusHeld(dbs[..i + 1], cs[..i], id, Completed, done + 1, i);
  }

  // ----- Requests and retries -----

  /** A request that passes validation has, as one step, exactly the effect of `SendOtpCall`. */
  lemma SendOtpCallIsAStep(cfg: Config, w: World, id: Id, rawMobile: string, rawCode: string, at: Time, w': World)
    requires Advance(cfg, w, Request(id, rawMobile, rawCode, at), w')
    ensures var mobile := V.NormalizeMobile(rawMobile, cfg.classes).value;
            var (s', gate) := Admit(cfg.limits, w.limiter, mobile, at);
            && w'.limiter == s'
            && w'.db == (if gate.Open? then CreateCall(w.db, id, mobile, V.Strip(rawCode, cfg.classes), None, at)
                         else w.db)
            && w'.execs == (if gate.Open? then w.execs[id := Scheduled] else w.execs)
  {
  }

  /** The state after a retry that has run through, from the contract of `RetryCall`. */
  ghost predicate RetriedAs(cfg: Config, w: World, parent: Id, newCode: Option<string>, id: Id, now: Time, w': World)
    requires PlanRetry(w.db, parent, newCode).RetryWith?
  {
    var plan := PlanRetry(w.db, parent, newCode);
    var (s', gate) := Admit(cfg.limits, w.limiter, plan.mobile, now);
    && w'.limiter == s'
    && w'.db == (if gate.Open? then
                   IncrementRetry(CreateCall(w.db, id, plan.mobile, plan.code, Some(parent), now), parent, now)
                 else w.db)
    && w'.execs == (if gate.Open? then w.execs[id := Scheduled] else w.execs)
    && w'.retries == w.retries && w'.clock == now
  }

  lemma RefusedRetry(cfg: Config, w: World, task: int, parent: Id, newCode: Option<string>, id: Id, now: Time)
    returns (w': World)
    requires w.clock <= now && task !in w.retries && Fresh(w, id) && PlanRetry(w.db, parent, newCode).RetryWith?
    requires !Admit(cfg.limits, w.limiter, PlanRetry(w.db, parent, newCode).mobile, now).1.Open?
    ensures Reaches(cfg, w, w') && RetriedAs(cfg, w, parent, newCode, id, now, w')
  {
    var loaded := Rest(cfg, w, RetryLoad(task, parent, newCode, now));
    w' := Rest(cfg, loaded, RetryAdmit(task, id, now));
    ReachesItself(cfg, w);
    ReachesNext(cfg, w, w, RetryLoad(task, parent, newCode, now), loaded);
    ReachesNext(cfg, w, loaded, RetryAdmit(task, id, now), w');
    assert loaded.retries - {task} == w.retries;
  }

  lemma AdmittedRetry(cfg: Config, w: World, task: int, parent: Id, newCode: Option<string>, id: Id, now: Time)
    returns (w': World)
    requires w.clock <= now && task !in w.retries && Fresh(w, id) && PlanRetry(w.db, parent, newCode).RetryWith?
    requires id !in w.db.calls && EventsOf(w.db.events, id) == []
    requires Admit(cfg.limits, w.limiter, PlanRetry(w.db, parent, newCode).mobile, now).1.Open?
    ensures Reaches(cfg, w, w') && RetriedAs(cfg, w, parent, newCode, id, now, w')
  {
    var plan := PlanRetry(w.db, parent, newCode);
    var loaded := Rest(cfg, w, RetryLoad(task, parent, newCode, now));
    var db1 := CreateCall(w.db, id, plan.mobile, plan.code, Some(parent), now);
    var inserted := Rest(cfg, loaded, RetryAdmit(task, id, now)).(db := db1);
    w' := Rest(cfg, inserted, RetryCount(task, now)).(db := IncrementRetry(db1, parent, now));
    ReachesItself(cfg, w);
    ReachesNext(cfg, w, w, RetryLoad(task, parent, newCode, now), loaded);
    ReachesNext(cfg, w, loaded, RetryAdmit(task, id, now), inserted);
    ReachesNext(cfg, w, inserted, RetryCount(task, now), w');
    assert inserted.retries - {task} == w.retries;
  }

  /** Whatever `RetryCall` does when it runs undisturbed, the service can do in its two or three steps. */
  lemma RetryCallIsARun(cfg: Config, w: World, task: int, parent: Id, newCode: Option<string>, id: Id, now: Time)
    requires w.clock <= now && task !in w.retries && Fresh(w, id) && PlanRetry(w.db, parent, newCode).RetryWith?
    requires id !in w.db.calls && EventsOf(w.db.events, id) == []
    ensures exists w': World :: Reaches(cfg, w, w') && RetriedAs(cfg, w, parent, newCode, id, now, w')
  {
    if Admit(cfg.limits, w.limiter, PlanRetry(w.db, parent, newCode).mobile, now).1.Open? {
      var w' := AdmittedRetry(cfg, w, task, parent, newCode, id, now);
    } else {
      var w' := RefusedRetry(cfg, w, task, parent, newCode, id, now);
    }
  }
}
