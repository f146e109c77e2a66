/** What the documented limit on concurrent calls is worth, given that the check comes before the slot
    is taken. */
module Capacity {
  import opened Prelude
  import opened SlidingWindow
  import opened RateLimiting
  import opened LimiterRuns
  import opened CallStorage
  import opened Routes
  import opened Service
  import opened ServiceRuns
  import opened ServiceTheorems
  import opened Scenarios
  import V = Validation

  /** There is a slot for every admitted call, running or not. */
  ghost predicate Roomy(cfg: Config, w: World) {
    w.limiter.active + Waiting(w) <= cfg.limits.maxConcurrent
  }

  // ----- What happens to the calls already admitted -----

  ghost predicate Quiet(cfg: Config, w: World, st: Step, w': World) {
    Advance(cfg, w, st, w') && !LetsIn(cfg, w, st)
  }

  /** One state leads to the other with no further call admitted in between. */
  ghost predicate LeadsQuietly(cfg: Config, w: World, w': World) {
    exists ws: seq<World>, steps: seq<Step> :: QuietRun(cfg, ws, steps) && ws[0] == w && ws[|steps|] == w'
  }

  ghost predicate QuietRun(cfg: Config, ws: seq<World>, steps: seq<Step>) {
    |ws| == |steps| + 1 && forall i :: 0 <= i < |steps| ==> Quiet(cfg, ws[i], steps[i], ws[i + 1])
  }

  lemma QuietStart(cfg: Config, w: World)
    ensures LeadsQuietly(cfg, w, w)
  {
    assert QuietRun(cfg, [w], []);
  }

  lemma ConsEnds(w: World, ws: seq<World>, st: Step, steps: seq<Step>)
    requires |ws| == |steps| + 1
    ensures ([w] + ws)[0] == w && ([w] + ws)[|[st] + steps|] == ws[|steps|]
  {
  }

  lemma QuietCons(cfg: Config, w: World, st: Step, w': World, w'': World)
    requires Quiet(cfg, w, st, w') && LeadsQuietly(cfg, w', w'')
    ensures LeadsQuietly(cfg, w, w'')
  {
    var ws: seq<World>, steps: seq<Step> :| QuietRun(cfg, ws, steps) && ws[0] == w' && ws[|steps|] == w'';
    QuietRunCons(cfg, w, st, ws, steps);
    ConsEnds(w, ws, st, steps);
  }

  lemma QuietRunCons(cfg: Config, w: World, st: Step, ws: seq<World>, steps: seq<Step>)
    requires QuietRun(cfg, ws, steps) && Quiet(cfg, w, st, ws[0])
    ensures QuietRun(cfg, [w] + ws, [st] + steps)
  {
    var ws', steps' := [w] + ws, [st] + steps;
    forall i | 0 <= i < |steps'| ensures Quiet(cfg, ws'[i], steps'[i], ws'[i + 1]) {
      if i > 0 {
        assert Quiet(cfg, ws[i - 1], steps[i - 1], ws[i]);
      }
    }
  }

  lemma QuietStep(cfg: Config, w: World, st: Step, w': World)
    requires TaskIds(w) && Quiet(cfg, w, st, w')
    ensures TaskIds(w') && w'.limiter.active + Waiting(w') <= w.limiter.active + Waiting(w)
  {
    TaskIdsStep(cfg, w, st, w');
    WaitingOtherwise(cfg, w, st, w');
  }

  lemma {:induction false} QuietNeverGains(cfg: Config, ws: seq<World>, steps: seq<Step>)
    requires QuietRun(cfg, ws, steps) && TaskIds(ws[0])
    ensures TaskIds(ws[|steps|])
    ensures ws[|steps|].limiter.active + Waiting(ws[|steps|]) <= ws[0].limiter.active + Waiting(ws[0])
  {
    if steps != [] {
      var n := |steps| - 1;
      assert QuietRun(cfg, ws[..n + 1], steps[..n]);
      QuietNeverGains(cfg, ws[..n + 1], steps[..n]);
      QuietStep(cfg, ws[n], steps[n], ws[n + 1]);
    }
  }

  /** An admitted retry counts itself in its parent and is scheduled. */
  lemma CountOne(cfg: Config, w: World, task: int) returns (w': World)
    requires TaskIds(w) && task in w.retries && w.retries[task].Inserted?
    ensures Quiet(cfg, w, RetryCount(task, w.clock), w') && w'.retries == w.retries - {task}
    ensures w'.limiter.active == w.limiter.active && Waiting(w') == Waiting(w)
  {
    var st := RetryCount(task, w.clock);
    w' := Rest(cfg, w, st).(db := IncrementRetry(w.db, w.retries[task].parent, w.clock));
    WaitingOnRetry(cfg, w, st, w');
  }

  lemma StartOne(cfg: Config, w: World, id: Id) returns (w': World)
    requires InPhase(w, id, Scheduled)
    ensures Quiet(cfg, w, ExecAcquire(id, w.clock), w') && w'.retries == w.retries
    ensures w'.limiter.active == w.limiter.active + 1 && Waiting(w') == Waiting(w) - 1
  {
    var st := ExecAcquire(id, w.clock);
    w' := Rest(cfg, w, st);
    WaitingOnCall(cfg, w, st, w');
  }

  lemma InsertedShrinks(retries: map<int, RetryTask>, task: int)
    requires task in InsertedRetries(retries)
    ensures |InsertedRetries(retries - {task})| < |InsertedRetries(retries)|
  {
    InsertedDrop(retries, task);
  }

  /** Left to themselves, all admitted calls can come to hold a slot at once. */
  lemma {:induction false} AllStart(cfg: Config, w: World) returns (w': World)
    requires TaskIds(w)
    ensures LeadsQuietly(cfg, w, w') && w'.limiter.active == w.limiter.active + Waiting(w)
    decreases Waiting(w), |InsertedRetries(w.retries)|
  {
    if InsertedRetries(w.retries) != {} {
      var task := Member(InsertedRetries(w.retries));
      var counted := CountOne(cfg, w, task);
      InsertedShrinks(w.retries, task);
      QuietStep(cfg, w, RetryCount(task, w.clock), counted);
      w' := AllStart(cfg, counted);
      QuietCons(cfg, w, RetryCount(task, w.clock), counted, w');
    } else if ScheduledCalls(w.execs) != {} {
      var id := Member(ScheduledCalls(w.execs));
      var started := StartOne(cfg, w, id);
      QuietStep(cfg, w, ExecAcquire(id, w.clock), started);
      w' := AllStart(cfg, started);
      QuietCons(cfg, w, ExecAcquire(id, w.clock), started, w');
    } else {
      w' := w;
      QuietStart(cfg, w);
    }
  }

  /** In every state of every behaviour: the calls already admitted can exceed the documented limit,
      with no other call let in, if and only if they are more than the limit now, running or not. */
  lemma LimitCanBreakIffCrowded(cfg: Config, ws: seq<World>, steps: seq<Step>)
    requires Behaviour(cfg, ws, steps)
    ensures (exists w': World :: LeadsQuietly(cfg, ws[|steps|], w') && w'.limiter.active > cfg.limits.maxConcurrent)
            <==> !Roomy(cfg, ws[|steps|])
  {
    InvHolds(cfg, ws, steps);
    var w := ws[|steps|];
    if w': World :| LeadsQuietly(cfg, w, w') && w'.limiter.active > cfg.limits.maxConcurrent {
      var us: seq<World>, sts: seq<Step> :| QuietRun(cfg, us, sts) && us[0] == w && us[|sts|] == w';
      QuietNeverGains(cfg, us, sts);
    }
    if !Roomy(cfg, w) {
      var w' := AllStart(cfg, w);
      assert LeadsQuietly(cfg, w, w') && w'.limiter.active > cfg.limits.maxConcurrent;
    }
  }

  // ----- Admissions that keep the limit -----

  /** If the step admits a call, the calls admitted before it leave a slot for it. */
  ghost predicate LeavesRoom(cfg: Config, w: World, st: Step) {
    Enabled(cfg, w, st) && LetsIn(cfg, w, st) ==> w.limiter.active + Waiting(w) < cfg.limits.maxConcurrent
  }

  /** An admission keeps room for everyone exactly when the calls holding a slot and those waiting
      for theirs, counted together, were below the limit; no other step takes room away. */
  lemma RoomStep(cfg: Config, w: World, st: Step, w': World)
    requires TaskIds(w) && Roomy(cfg, w) && Advance(cfg, w, st, w')
    ensures Roomy(cfg, w') <==> LeavesRoom(cfg, w, st)
  {
    if LetsIn(cfg, w, st) {
      WaitingAfterAdmission(cfg, w, st, w');
    } else {
      WaitingOtherwise(cfg, w, st, w');
    }
  }

  lemma {:induction false} RoomWhileLeft(cfg: Config, ws: seq<World>, steps: seq<Step>)
    requires Behaviour(cfg, ws, steps)
    requires forall i :: 0 <= i < |steps| ==> LeavesRoom(cfg, ws[i], steps[i])
    ensures Roomy(cfg, ws[|steps|])
  {
    if steps == [] {
      NobodyWaits(ws[0]);
    } else {
      var n := |steps| - 1;
      BehaviourFront(cfg, ws, steps);
      RoomWhileLeft(cfg, ws[..|steps|], steps[..n]);
      InvHolds(cfg, ws[..|steps|], steps[..n]);
      assert LeavesRoom(cfg, ws[n], steps[n]);
      RoomStep(cfg, ws[n], steps[n], ws[n + 1]);
    }
  }

  lemma RoomAtStep(cfg: Config, ws: seq<World>, steps: seq<Step>, i: nat)
    requires Behaviour(cfg, ws, steps) && i < |steps| && Roomy(cfg, ws[i])
    ensures Roomy(cfg, ws[i + 1]) <==> LeavesRoom(cfg, ws[i], steps[i])
  {
    assert Behaviour(cfg, ws[..i + 1], steps[..i]);
    InvHolds(cfg, ws[..i + 1], steps[..i]);
    assert Advance(cfg, ws[i], steps[i], ws[i + 1]);
    RoomStep(cfg, ws[i], steps[i], ws[i + 1]);
  }

  lemma RoomUpTo(cfg: Config, ws: seq<World>, steps: seq<Step>, i: nat)
    requires Behaviour(cfg, ws, steps) && i <= |steps|
    requires forall k :: 0 <= k < |steps| ==> LeavesRoom(cfg, ws[k], steps[k])
    ensures Roomy(cfg, ws[i])
  {
    assert Behaviour(cfg, ws[..i + 1], steps[..i]);
    RoomWhileLeft(cfg, ws[..i + 1], steps[..i]);
  }

  /** Over a behaviour, there is a slot for every admitted call throughout if and only if every call
      is admitted while those holding a slot and those waiting for one are together below the limit. */
  lemma RoomThroughoutIff(cfg: Config, ws: seq<World>, steps: seq<Step>)
    requires Behaviour(cfg, ws, steps)
    ensures (forall i :: 0 <= i < |ws| ==> Roomy(cfg, ws[i])) <==>
            (forall i :: 0 <= i < |steps| ==> LeavesRoom(cfg, ws[i], steps[i]))
  {
    if forall i :: 0 <= i < |ws| ==> Roomy(cfg, ws[i]) {
      forall i | 0 <= i < |steps| ensures LeavesRoom(cfg, ws[i], steps[i]) {
        assert Roomy(cfg, ws[i]) && Roomy(cfg, ws[i + 1]);
        RoomAtStep(cfg, ws, steps, i);
      }
    }
    if forall i :: 0 <= i < |steps| ==> LeavesRoom(cfg, ws[i], steps[i]) {
      forall i | 0 <= i < |ws| ensures Roomy(cfg, ws[i]) {
        RoomUpTo(cfg, ws, steps, i);
      }
    }
  }

  ghost predicate PromptAt(cfg: Config, w: World, st: Step) {
    Enabled(cfg, w, st) && LetsIn(cfg, w, st) ==> Waiting(w) == 0
  }

  lemma PromptLeavesRoom(cfg: Config, w: World, st: Step, w': World)
    requires TaskIds(w) && Advance(cfg, w, st, w') && PromptAt(cfg, w, st)
    ensures LeavesRoom(cfg, w, st)
  {
    if LetsIn(cfg, w, st) {
      WaitingAfterAdmission(cfg, w, st, w');
    }
  }

  /** So when no admitted call is waiting for its slot at any admission, the concurrency limit holds
      throughout, and the free channels reported are exactly what is left of it. */
  lemma CapacityHoldsWhenPrompt(cfg: Config, ws: seq<World>, steps: seq<Step>)
    requires Behaviour(cfg, ws, steps)
    requires forall i :: 0 <= i < |steps| ==> PromptAt(cfg, ws[i], steps[i])
    ensures Roomy(cfg, ws[|steps|])
    ensures ws[|steps|].limiter.active + Available(cfg.limits, ws[|steps|].limiter) == cfg.limits.maxConcurrent
  {
    forall i | 0 <= i < |steps| ensures LeavesRoom(cfg, ws[i], steps[i]) {
      assert Behaviour(cfg, ws[..i + 1], steps[..i]);
      InvHolds(cfg, ws[..i + 1], steps[..i]);
      assert Advance(cfg, ws[i], steps[i], ws[i + 1]);
      PromptLeavesRoom(cfg, ws[i], steps[i], ws[i + 1]);
    }
    RoomWhileLeft(cfg, ws, steps);
  }

  // ----- Configurations under which the limit breaks -----

  lemma QuietlyReachable(cfg: Config, w: World, w': World)
    requires Reachable(cfg, w) && LeadsQuietly(cfg, w, w')
    ensures Reachable(cfg, w')
  {
    var ws: seq<World>, steps: seq<Step> :| QuietRun(cfg, ws, steps) && ws[0] == w && ws[|steps|] == w';
    QuietRunReaches(cfg, ws, steps);
  }

  lemma {:induction false} QuietRunReaches(cfg: Config, ws: seq<World>, steps: seq<Step>)
    requires QuietRun(cfg, ws, steps) && Reachable(cfg, ws[0])
    ensures Reachable(cfg, ws[|steps|])
  {
    if steps != [] {
      var n := |steps| - 1;
      assert QuietRun(cfg, ws[..n + 1], steps[..n]);
      QuietRunReaches(cfg, ws[..n + 1], steps[..n]);
      assert Quiet(cfg, ws[n], steps[n], ws[n + 1]);
      ReachableNext(cfg, ws[n], steps[n], ws[n + 1]);
    }
  }

  lemma CrowdBreaksLimit(cfg: Config, w: World) returns (w': World)
    requires Reachable(cfg, w)
    ensures Reachable(cfg, w') && w'.limiter.active == w.limiter.active + Waiting(w)
  {
    assert TaskIds(w) by {
      ReachableInv(cfg, w);
    }
    w' := AllStart(cfg, w);
    QuietlyReachable(cfg, w, w');
  }

  ghost predicate AllDifferent(mobiles: seq<string>) {
    forall i, j :: 0 <= i < j < |mobiles| ==> mobiles[i] != mobiles[j]
  }

  ghost predicate AllCanonical(mobiles: seq<string>, cc: V.Unicode) {
    forall i :: 0 <= i < |mobiles| ==> V.Canonical(mobiles[i], cc)
  }

  ghost predicate OnlyThese(s: LimiterState, mobiles: seq<string>) {
    |s.hourly| <= |mobiles| && forall m :: m in s.numbers ==> m in mobiles
  }

  lemma NewNumberPasses(limits: Limits, s: LimiterState, mobiles: seq<string>, mobile: string)
    requires s.active < limits.maxConcurrent && |mobiles| < limits.hourlyLimit
    requires OnlyThese(s, mobiles) && mobile !in mobiles
    ensures var (s', gate) := Admit(limits, s, mobile, 0.0);
            gate.Open? && OnlyThese(s', mobiles + [mobile])
  {
    SinceShrinks(s.hourly, 0.0 - HOUR, 0.0 - HOUR);
    AdmitsWithRoom(limits, s, mobile, 0.0);
  }

  lemma DifferentPrefix(mobiles: seq<string>, n: nat, cc: V.Unicode)
    requires n < |mobiles| && AllDifferent(mobiles) && AllCanonical(mobiles, cc)
    ensures AllDifferent(mobiles[..n]) && AllCanonical(mobiles[..n], cc) && mobiles[n] !in mobiles[..n]
    ensures V.Canonical(mobiles[n], cc)
  {
  }

  lemma OneNumberMore(cfg: Config, w: World, mobiles: seq<string>, mobile: string) returns (w': World)
    requires cfg.limits.maxConcurrent >= 1 && |mobiles| < cfg.limits.hourlyLimit
    requires LinedUp(cfg, w, |mobiles|) && w.clock == 0.0 && OnlyThese(w.limiter, mobiles)
    requires mobile !in mobiles && V.Canonical(mobile, cfg.classes)
    ensures LinedUp(cfg, w', |mobiles| + 1) && w'.clock == 0.0 && Waiting(w') == Waiting(w) + 1
    ensures OnlyThese(w'.limiter, mobiles + [mobile])
  {
    NewNumberPasses(cfg.limits, w.limiter, mobiles, mobile);
    w' := OneMore(cfg, w, |mobiles|, mobile, 0.0);
  }

  /** Requests for different numbers, all at one moment. */
  lemma {:induction false} AllAtOnce(cfg: Config, mobiles: seq<string>) returns (w: World)
    requires cfg.limits.maxConcurrent >= 1 && |mobiles| <= cfg.limits.hourlyLimit
    requires AllDifferent(mobiles) && AllCanonical(mobiles, cfg.classes)
    ensures LinedUp(cfg, w, |mobiles|) && w.clock == 0.0 && Waiting(w) == |mobiles| && OnlyThese(w.limiter, mobiles)
  {
    if mobiles == [] {
      w := NobodyYet(cfg);
    } else {
      var n := |mobiles| - 1;
      DifferentPrefix(mobiles, n, cfg.classes);
      var before := AllAtOnce(cfg, mobiles[..n]);
      w := OneNumberMore(cfg, before, mobiles[..n], mobiles[n]);
      assert mobiles == mobiles[..n] + [mobiles[n]];
    }
  }

  /** With any limit, one request more than it at one moment, each for another number, puts more calls
      on the line than the limit allows. */
  lemma CapacityCanBeExceeded(cfg: Config, mobiles: seq<string>)
    requires cfg.limits.maxConcurrent >= 1 && |mobiles| == cfg.limits.maxConcurrent + 1 <= cfg.limits.hourlyLimit
    requires AllDifferent(mobiles) && AllCanonical(mobiles, cfg.classes)
    ensures exists w: World :: Reachable(cfg, w) && w.limiter.active > cfg.limits.maxConcurrent
  {
    var crowd := AllAtOnce(cfg, mobiles);
    var w := CrowdBreaksLimit(cfg, crowd);
  }

  lemma StaleTimesPass(limits: Limits, s: LimiterState, g: Log, clock: Time, mobile: string, at: Time)
    requires Tracks(limits, s, g, clock) && at >= clock + HOUR && at >= clock + limits.window && clock <= at
    requires s.active < limits.maxConcurrent && limits.hourlyLimit >= 1
    ensures Admit(limits, s, mobile, at).1.Open?
  {
    SinceNothing(g.hourly, at - HOUR);
    assert Since(s.hourly, at - HOUR) == Since(g.hourly, at - HOUR);
    SinceNothing(TimesOf(g.admitted, mobile), at - limits.window);
    assert Since(HistoryOf(s, mobile), at - limits.window) == Since(TimesOf(g.admitted, mobile), at - limits.window);
    AdmitsWithRoom(limits, s, mobile, at);
  }

  /** However low the rates, calls admitted one by one can all be waiting at once. */
  lemma {:induction false} OneByOne(cfg: Config, k: nat) returns (w: World)
    requires cfg.limits.maxConcurrent >= 1 && cfg.limits.hourlyLimit >= 1
    ensures LinedUp(cfg, w, k) && Waiting(w) == k
  {
    if k == 0 {
      w := NobodyYet(cfg);
    } else {
      var before := OneByOne(cfg, k - 1);
      var at := before.clock + HOUR + (if cfg.limits.window > 0.0 then cfg.limits.window else 0.0);
      assert LimiterInv(cfg, before) by {
        ReachableInv(cfg, before);
      }
      StaleTimesPass(cfg.limits, before.limiter, before.log, before.clock, PLAIN_MOBILE, at);
      PlainMobileIsCanonical(cfg.classes);
      w := OneMore(cfg, before, k - 1, PLAIN_MOBILE, at);
    }
  }

  lemma NobodyGetsIn(cfg: Config, w: World, st: Step)
    requires cfg.limits.maxConcurrent == 0 || cfg.limits.hourlyLimit == 0
    requires Enabled(cfg, w, st)
    ensures !LetsIn(cfg, w, st)
  {
  }

  lemma {:induction false} NobodyActive(cfg: Config, ws: seq<World>, steps: seq<Step>)
    requires cfg.limits.maxConcurrent == 0 || cfg.limits.hourlyLimit == 0
    requires Behaviour(cfg, ws, steps)
    ensures ws[|steps|].limiter.active + Waiting(ws[|steps|]) == 0
  {
    if steps == [] {
      NobodyWaits(ws[0]);
    } else {
      var n := |steps| - 1;
      BehaviourFront(cfg, ws, steps);
      NobodyActive(cfg, ws[..|steps|], steps[..n]);
      InvHolds(cfg, ws[..|steps|], steps[..n]);
      NobodyGetsIn(cfg, ws[n], steps[n]);
      WaitingOtherwise(cfg, ws[n], steps[n], ws[n + 1]);
    }
  }

  /** No configuration that lets any call in enforces the documented limit: it holds in every state
      that can be reached exactly when no call can be placed at all. */
  lemma LimitIsEnforcedIff(cfg: Config)
    ensures (forall w: World :: Reachable(cfg, w) ==> w.limiter.active <= cfg.limits.maxConcurrent) <==>
            cfg.limits.maxConcurrent == 0 || cfg.limits.hourlyLimit == 0
  {
    if cfg.limits.maxConcurrent == 0 || cfg.limits.hourlyLimit == 0 {
      forall w: World | Reachable(cfg, w) ensures w.limiter.active <= cfg.limits.maxConcurrent {
        var ws, steps :| Behaviour(cfg, ws, steps) && ws[|steps|] == w;
        NobodyActive(cfg, ws, steps);
      }
    } else {
      var crowd := OneByOne(cfg, cfg.limits.maxConcurrent + 1);
      var w := CrowdBreaksLimit(cfg, crowd);
    }
  }
}
