/** States the service can reach, built up step by step, and what they show to be false. */
module Scenarios {
  import opened Prelude
  import opened SlidingWindow
  import opened RateLimiting
  import opened LimiterRuns
  import opened CallStorage
  import opened CallCommands
  import opened CallRuns
  import opened Routes
  import opened Service
  import opened ServiceRuns
  import opened ServiceTheorems
  import V = Validation

  ghost predicate Reachable(cfg: Config, w: World) {
    exists ws, steps :: Behaviour(cfg, ws, steps) && ws[|steps|] == w
  }

  lemma BehaviourSnoc(cfg: Config, ws: seq<World>, steps: seq<Step>, st: Step, w': World)
    requires Behaviour(cfg, ws, steps) && Advance(cfg, ws[|steps|], st, w')
    ensures Behaviour(cfg, ws + [w'], steps + [st])
  {
    var ws', steps' := ws + [w'], steps + [st];
    forall i | 0 <= i < |steps'| ensures Advance(cfg, ws'[i], steps'[i], ws'[i + 1]) {
      if i < |steps| {
        assert Advance(cfg, ws[i], steps[i], ws[i + 1]);
      }
    }
  }

  lemma ReachableNext(cfg: Config, w: World, st: Step, w': World)
    requires Reachable(cfg, w) && Advance(cfg, w, st, w')
    ensures Reachable(cfg, w')
  {
    var ws, steps :| Behaviour(cfg, ws, steps) && ws[|steps|] == w;
    BehaviourSnoc(cfg, ws, steps, st, w');
    assert (ws + [w'])[|steps + [st]|] == w';
  }

  lemma ReachableInv(cfg: Config, w: World)
    requires Reachable(cfg, w)
    ensures Inv(cfg, w)
  {
    var ws, steps :| Behaviour(cfg, ws, steps) && ws[|steps|] == w;
    InvHolds(cfg, ws, steps);
  }

  lemma IdleWorld(cfg: Config) returns (w: World)
    ensures Reachable(cfg, w) && Initial(w) && w.clock == 0.0
  {
    w := World(0.0, Db(map[], []), IDLE, EMPTY_LOG, [], map[], map[]);
    assert Behaviour(cfg, [w], []);
  }

  /** A step whose effect on the tables is known. */
  lemma Proceed(cfg: Config, w: World, st: Step, db': Db) returns (w': World)
    requires Reachable(cfg, w) && Enabled(cfg, w, st) && Next(w.db, CommandOf(cfg, w, st), db')
    ensures Reachable(cfg, w') && Advance(cfg, w, st, w') && w' == Rest(cfg, w, st).(db := db')
  {
    w' := Rest(cfg, w, st).(db := db');
    ReachableNext(cfg, w, st, w');
  }

  lemma PlainCodeIsValid(cc: V.Unicode)
    ensures V.ValidCode("1234", cc)
  {
    var code := "1234";
    assert code[0] == '1' && code[3] == '4';
    assert V.StripLeft(code, cc) == code && V.StripRight(code, cc) == code;
    assert forall i :: 0 <= i < |code| ==> cc.decimal(code[i]);
  }

  const PLAIN_MOBILE := "09000000000"

  lemma PlainMobileIsCanonical(cc: V.Unicode)
    ensures V.Canonical(PLAIN_MOBILE, cc)
  {
    assert forall i :: 0 <= i < 9 ==> PLAIN_MOBILE[2..][i] == '0';
    assert PLAIN_MOBILE[0] == '0' && PLAIN_MOBILE[1] == '9';
  }

  /** An accepted request for a canonical number, as a step. */
  lemma RequestAdvances(cfg: Config, w: World, id: Id, mobile: string, at: Time) returns (w': World)
    requires w.clock <= at && Fresh(w, id) && id !in w.db.calls && EventsOf(w.db.events, id) == []
    requires V.Canonical(mobile, cfg.classes) && Admit(cfg.limits, w.limiter, mobile, at).1.Open?
    ensures Advance(cfg, w, Request(id, mobile, "1234", at), w') && LetsIn(cfg, w, Request(id, mobile, "1234", at))
    ensures w'.clock == at && w'.limiter == Admit(cfg.limits, w.limiter, mobile, at).0
    ensures w'.births == w.births + [Birth(id, mobile, None, at)] && w'.execs == w.execs[id := Scheduled]
    ensures w'.db.calls == w.db.calls[id := NewRow(mobile, V.Strip("1234", cfg.classes), None, at)]
    ensures w'.db.events == w.db.events + [Event(id, QueuedLogged, NoDetail, at)]
  {
    PlainCodeIsValid(cfg.classes);
    V.CanonicalIsFixed(mobile, cfg.classes);
    var st := Request(id, mobile, "1234", at);
    var c := CommandOf(cfg, w, st);
    w' := Rest(cfg, w, st).(db := CreateCall(w.db, id, c.mobile, c.code, None, at));
  }

  lemma RequestCounts(cfg: Config, w: World, st: Step, w': World)
    requires Reachable(cfg, w) && Advance(cfg, w, st, w') && LetsIn(cfg, w, st)
    ensures Reachable(cfg, w') && w'.limiter.active == w.limiter.active && Waiting(w') == Waiting(w) + 1
  {
    ReachableNext(cfg, w, st, w');
    assert TaskIds(w) by {
      ReachableInv(cfg, w);
    }
    WaitingAfterAdmission(cfg, w, st, w');
  }

  /** The same, from a state that can be reached. */
  lemma PlaceCall(cfg: Config, w: World, id: Id, mobile: string, at: Time) returns (w': World)
    requires Reachable(cfg, w) && V.Canonical(mobile, cfg.classes) && Admit(cfg.limits, w.limiter, mobile, at).1.Open?
    requires w.clock <= at && Fresh(w, id) && id !in w.db.calls && EventsOf(w.db.events, id) == []
    ensures Reachable(cfg, w') && w'.limiter.active == w.limiter.active && Waiting(w') == Waiting(w) + 1
    ensures w'.clock == at && w'.limiter == Admit(cfg.limits, w.limiter, mobile, at).0
    ensures w'.births == w.births + [Birth(id, mobile, None, at)] && w'.execs == w.execs[id := Scheduled]
    ensures w'.db.calls == w.db.calls[id := NewRow(mobile, V.Strip("1234", cfg.classes), None, at)]
    ensures w'.db.events == w.db.events + [Event(id, QueuedLogged, NoDetail, at)]
  {
    w' := RequestAdvances(cfg, w, id, mobile, at);
    RequestCounts(cfg, w, Request(id, mobile, "1234", at), w');
  }

  // ----- First calls admitted one after the other, none of them running yet -----

  /** Identifiers that differ in length. */
  function IdOf(k: nat): Id {
    seq(k, _ => 'a')
  }

  ghost predicate LinedUp(cfg: Config, w: World, k: nat) {
    && Reachable(cfg, w) && w.limiter.active == 0
    && (forall i :: 0 <= i < |w.births| ==> |w.births[i].id| < k)
    && (forall id :: id in w.db.calls ==> |id| < k)
    && (forall i :: 0 <= i < |w.db.events| ==> |w.db.events[i].requestId| < k)
  }

  lemma NobodyWaits(w: World)
    requires Initial(w)
    ensures w.limiter.active + Waiting(w) == 0
  {
    assert ScheduledCalls(w.execs) == {} && InsertedRetries(w.retries) == {};
  }

  lemma NobodyYet(cfg: Config) returns (w: World)
    ensures LinedUp(cfg, w, 0) && Waiting(w) == 0 && w.clock == 0.0 && w.limiter == IDLE && w.db == Db(map[], [])
    ensures w.births == []
  {
    w := IdleWorld(cfg);
    NobodyWaits(w);
  }

  lemma {:induction false} NoEventsOf(events: seq<Event>, id: Id)
    requires forall i :: 0 <= i < |events| ==> |events[i].requestId| < |id|
    ensures EventsOf(events, id) == []
  {
    if events != [] {
      NoEventsOf(events[..|events| - 1], id);
    }
  }

  lemma OneMore(cfg: Config, w: World, k: nat, mobile: string, at: Time) returns (w': World)
    requires LinedUp(cfg, w, k) && w.clock <= at
    requires V.Canonical(mobile, cfg.classes) && Admit(cfg.limits, w.limiter, mobile, at).1.Open?
    ensures LinedUp(cfg, w', k + 1) && w'.clock == at && w'.limiter == Admit(cfg.limits, w.limiter, mobile, at).0
    ensures w'.db.calls == w.db.calls[IdOf(k) := NewRow(mobile, V.Strip("1234", cfg.classes), None, at)]
    ensures w'.births == w.births + [Birth(IdOf(k), mobile, None, at)]
    ensures IdOf(k) !in w.db.calls && Waiting(w') == Waiting(w) + 1
  {
    NoEventsOf(w.db.events, IdOf(k));
    w' := PlaceCall(cfg, w, IdOf(k), mobile, at);
  }

  lemma AdmitsWithRoom(limits: Limits, s: LimiterState, mobile: string, at: Time)
    requires s.active < limits.maxConcurrent && |Since(s.hourly, at - HOUR)| < limits.hourlyLimit
    requires |Since(HistoryOf(s, mobile), at - limits.window)| < limits.perNumber
    ensures var (s', gate) := Admit(limits, s, mobile, at);
            && gate.Open? && s'.active == s.active
            && s'.hourly == Since(s.hourly, at - HOUR) + [at]
            && s'.numbers == s.numbers[mobile := Since(HistoryOf(s, mobile), at - limits.window) + [at]]
  {
    var s1 := CheckHourly(limits, s, at).0;
    assert HistoryOf(s1, mobile) == HistoryOf(s, mobile);
  }

  // ----- The bound on live rows -----

  /** So many calls to one key at moment 0, and none to any other. */
  ghost predicate OneKey(w: World, k: nat, mobile: string) {
    && |w.db.calls| == k && AllOf(w.db, mobile) && |w.births| == k && AllBorn(w.births, mobile)
    && HistoryWithin(w.limiter, k, mobile)
  }

  ghost predicate HistoryWithin(s: LimiterState, k: nat, mobile: string) {
    && |s.hourly| <= k && |HistoryOf(s, mobile)| <= k && NoneAfter(HistoryOf(s, mobile), 0.0)
    && forall m :: m in s.numbers ==> m == mobile
  }

  ghost predicate AllBorn(births: seq<Birth>, mobile: string) {
    forall i :: 0 <= i < |births| ==> births[i].mobile == mobile && births[i].at == 0.0
  }

  ghost predicate AllOf(db: Db, mobile: string) {
    forall id :: id in db.calls ==> db.calls[id].mobile == mobile && db.calls[id].expiresAt >= TTL
  }

  lemma RoomForOneMore(limits: Limits, s: LimiterState, k: nat, mobile: string)
    requires s.active < limits.maxConcurrent && k < limits.perNumber && k < limits.hourlyLimit
    requires HistoryWithin(s, k, mobile)
    ensures var (s', gate) := Admit(limits, s, mobile, 0.0);
            gate.Open? && HistoryWithin(s', k + 1, mobile)
  {
    SinceShrinks(s.hourly, 0.0 - HOUR, 0.0 - HOUR);
    SinceShrinks(HistoryOf(s, mobile), 0.0 - limits.window, 0.0 - limits.window);
    SinceBounds(HistoryOf(s, mobile), 0.0 - limits.window, 0.0);
    AdmitsWithRoom(limits, s, mobile, 0.0);
  }

  lemma OneKeyGrows(w: World, w': World, k: nat, mobile: string, code: string)
    requires OneKey(w, k, mobile) && HistoryWithin(w'.limiter, k + 1, mobile) && IdOf(k) !in w.db.calls
    requires w'.db.calls == w.db.calls[IdOf(k) := NewRow(mobile, code, None, 0.0)]
    requires w'.births == w.births + [Birth(IdOf(k), mobile, None, 0.0)]
    ensures OneKey(w', k + 1, mobile)
  {
  }

  lemma OneMoreToIt(cfg: Config, mobile: string, k: nat, w: World) returns (w': World)
    requires cfg.limits.maxConcurrent >= 1 && k < cfg.limits.perNumber && k < cfg.limits.hourlyLimit
    requires V.Canonical(mobile, cfg.classes)
    requires LinedUp(cfg, w, k) && w.clock == 0.0 && OneKey(w, k, mobile)
    ensures LinedUp(cfg, w', k + 1) && w'.clock == 0.0 && OneKey(w', k + 1, mobile)
  {
    RoomForOneMore(cfg.limits, w.limiter, k, mobile);
    w' := OneMore(cfg, w, k, mobile, 0.0);
    OneKeyGrows(w, w', k, mobile, V.Strip("1234", cfg.classes));
  }

  lemma {:induction false} CallsToOneNumber(cfg: Config, mobile: string, k: nat) returns (w: World)
    requires cfg.limits.maxConcurrent >= 1 && k <= cfg.limits.perNumber && k <= cfg.limits.hourlyLimit
    requires V.Canonical(mobile, cfg.classes)
    ensures LinedUp(cfg, w, k) && w.clock == 0.0 && OneKey(w, k, mobile)
  {
    if k == 0 {
      w := NobodyYet(cfg);
    } else {
      var before := CallsToOneNumber(cfg, mobile, k - 1);
      w := OneMoreToIt(cfg, mobile, k - 1, before);
    }
  }

  lemma RoomAfterWindow(limits: Limits, s: LimiterState, mobile: string, later: Time)
    requires s.active < limits.maxConcurrent && |s.hourly| < limits.hourlyLimit
    requires NoneAfter(HistoryOf(s, mobile), 0.0) && later >= limits.window
    ensures Admit(limits, s, mobile, later).1.Open?
  {
    SinceShrinks(s.hourly, later - HOUR, later - HOUR);
    SinceNothing(HistoryOf(s, mobile), later - limits.window);
    AdmitsWithRoom(limits, s, mobile, later);
  }

  /** One call more, as soon as the earlier ones have left the window. */
  lemma CallAfterWindow(cfg: Config, mobile: string, later: Time) returns (w: World)
    requires cfg.limits.maxConcurrent >= 1 && cfg.limits.hourlyLimit > cfg.limits.perNumber
    requires later >= 0.0 && later >= cfg.limits.window && V.Canonical(mobile, cfg.classes)
    ensures Reachable(cfg, w) && w.clock == later && |w.db.calls| == cfg.limits.perNumber + 1 && AllOf(w.db, mobile)
  {
    var before := CallsToOneNumber(cfg, mobile, cfg.limits.perNumber);
    RoomAfterWindow(cfg.limits, before.limiter, mobile, later);
    w := OneMore(cfg, before, cfg.limits.perNumber, mobile, later);
  }

  /** The window has to outlast the rows: with any limit per number and a window no longer than a row
      lives, more rows of one number than the limit can survive an expiry. */
  lemma LiveRowBoundNeedsLongWindow(cfg: Config, mobile: string)
    requires cfg.limits.maxConcurrent >= 1 && cfg.limits.hourlyLimit > cfg.limits.perNumber
    requires cfg.limits.window <= TTL && V.Canonical(mobile, cfg.classes)
    ensures exists w: World, st: Step, w': World :: Reachable(cfg, w) && st.ExpireRows? && Advance(cfg, w, st, w')
              && |RowsOf(w'.db, Some(mobile))| > cfg.limits.perNumber
  {
    var later := if cfg.limits.window > 0.0 then cfg.limits.window else 0.0;
    var w := CallAfterWindow(cfg, mobile, later);
    var w' := Proceed(cfg, w, ExpireRows(later), ExpireCalls(w.db, later));
    assert RowsOf(w'.db, Some(mobile)) == w.db.calls.Keys;
    assert |w.db.calls.Keys| == |w.db.calls|;
  }

  // ----- What a status response promises -----

  lemma QueuedCall(cfg: Config) returns (w: World)
    requires cfg.limits.maxConcurrent >= 1 && cfg.limits.hourlyLimit >= 1
    ensures Reachable(cfg, w) && w.clock == 0.0 && InPhase(w, "r", Scheduled)
    ensures StatusOf(w.db, "r") == Some(Queued) && !Evidence(View(w.db, "r").timeline)
  {
    var w0 := IdleWorld(cfg);
    PlainMobileIsCanonical(cfg.classes);
    AdmitsWithRoom(cfg.limits, w0.limiter, PLAIN_MOBILE, 0.0);
    w := PlaceCall(cfg, w0, "r", PLAIN_MOBILE, 0.0);
    EventsOfSnoc([], Event("r", QueuedLogged, NoDetail, 0.0), "r");
    TimelineSnoc([], Event("r", QueuedLogged, NoDetail, 0.0));
  }

  lemma MarkCall(cfg: Config, w: World) returns (w': World)
    requires Reachable(cfg, w) && InPhase(w, "r", Scheduled) && StatusOf(w.db, "r") == Some(Queued)
    ensures Reachable(cfg, w') && w'.clock == w.clock && InPhase(w', "r", Marked)
    ensures StatusOf(w'.db, "r") == Some(Originating) && w'.db.events == w.db.events
  {
    var taken := Proceed(cfg, w, ExecAcquire("r", w.clock), w.db);
    w' := Proceed(cfg, taken, ExecMark("r", w.clock), UpdateStatus(w.db, "r", StatusOnly(Originating), w.clock).0);
  }

  lemma LogCall(cfg: Config, w: World) returns (w': World)
    requires Reachable(cfg, w) && InPhase(w, "r", Marked) && "r" in w.db.calls
    ensures Reachable(cfg, w') && w'.clock == w.clock && InPhase(w', "r", Dialing)
    ensures w'.db == AddEvent(w.db, "r", OriginatingLogged, NoDetail, w.clock)
  {
    w' := Proceed(cfg, w, ExecLog("r", w.clock), AddEvent(w.db, "r", OriginatingLogged, NoDetail, w.clock));
  }

  /** A call whose originate has been sent, with nothing heard of it yet. */
  lemma DialledCall(cfg: Config) returns (w: World)
    requires cfg.limits.maxConcurrent >= 1 && cfg.limits.hourlyLimit >= 1
    ensures Reachable(cfg, w) && w.clock == 0.0 && InPhase(w, "r", Dialing)
    ensures StatusOf(w.db, "r") == Some(Originating) && !Evidence(View(w.db, "r").timeline)
  {
    var queued := QueuedCall(cfg);
    var marked := MarkCall(cfg, queued);
    w := LogCall(cfg, marked);
    ViewOfAddEvent(marked.db, "r", OriginatingLogged, NoDetail, 0.0, "r");
    TimelineSnoc(View(marked.db, "r").timeline, Event("r", OriginatingLogged, NoDetail, 0.0));
  }

  /** An originate that is not accepted: the call fails, and nothing shows an answer. */
  lemma DeclineCall(cfg: Config, w: World) returns (w': World)
    requires Reachable(cfg, w) && InPhase(w, "r", Dialing) && "r" in w.db.calls
    ensures Reachable(cfg, w') && w'.clock == w.clock && StatusOf(w'.db, "r") == Some(Failed)
    ensures Advance(cfg, w, ExecEnd("r", Some(Declined("timeout")), w.clock), w')
    ensures Evidence(View(w'.db, "r").timeline) <==> Evidence(View(w.db, "r").timeline)
  {
    var now := w.clock;
    var st := ExecEnd("r", Some(Declined("timeout")), now);
    var cause := NotAccepted("timeout");
    w' := Proceed(cfg, w, st, OnFailure(w.db, "r", cause, "timeout", now));
    ViewOfUpdateAndEvent(w.db, "r", FailureUpdate(cause), FailedLogged, ErrorDetail("timeout"), now, "r");
    TimelineSnoc(View(w.db, "r").timeline, Event("r", FailedLogged, ErrorDetail("timeout"), now));
  }

  /** `is_terminal` does not mean what it promises: wherever a call can be placed at all, a call that
      failed to originate, and was reported retryable, can be completed by a late playback event. */
  lemma TerminalStatusCanChange(cfg: Config)
    requires cfg.limits.maxConcurrent >= 1 && cfg.limits.hourlyLimit >= 1
    ensures exists w: World, st: Step, w': World, id: Id :: Reachable(cfg, w) && Advance(cfg, w, st, w')
              && StatusOf(w.db, id) == Some(Failed) && StatusOf(w'.db, id) == Some(Completed)
  {
    var dialled := DialledCall(cfg);
    var w := DeclineCall(cfg, dialled);
    var done := PlaybackDone("r", w.clock);
    var w' := Proceed(cfg, w, Ami(done, w.clock), OnPlayback(w.db, "r", Completed, PlaybackCompleted, w.clock));
  }

  /** A failed response with reason 4 makes a dialled call look answered. */
  lemma LooksAnswered(cfg: Config, w: World) returns (w': World)
    requires Reachable(cfg, w) && InPhase(w, "r", Dialing)
    requires StatusOf(w.db, "r") == Some(Originating) && !Evidence(View(w.db, "r").timeline)
    ensures Reachable(cfg, w') && InPhase(w', "r", Dialing)
    ensures StatusOf(w'.db, "r") == Some(Answered) && !Evidence(View(w'.db, "r").timeline)
  {
    var now := w.clock;
    var response := OriginateResponse("r", "Failure", "4", None, now);
    w' := Proceed(cfg, w, Ami(response, now), OnResponse(w.db, "r", "Failure", "4", None, now));
    NamedStep(w.db, response, w'.db, "r");
    TimelineSnoc(View(w.db, "r").timeline, Event("r", ResponseLogged, ResponseDetail("Failure", "4", None), now));
  }

  /** `is_answered` is not for good either: a failure with reason 4 sets it, and the originate that
      then times out clears it again. */
  lemma AnswerCanBeTakenBack(cfg: Config)
    requires cfg.limits.maxConcurrent >= 1 && cfg.limits.hourlyLimit >= 1
    ensures exists w: World, st: Step, w': World, id: Id :: Reachable(cfg, w) && Advance(cfg, w, st, w')
              && id in w.db.calls && id in w'.db.calls
              && IsAnswered(View(w.db, id)) && !IsAnswered(View(w'.db, id))
  {
    var dialled := DialledCall(cfg);
    var w := LooksAnswered(cfg, dialled);
    var w' := DeclineCall(cfg, w);
    assert IsAnswered(View(w.db, "r")) && !IsAnswered(View(w'.db, "r"));
  }
}
