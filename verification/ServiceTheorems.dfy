/** The guarantees of the service as a whole, for every behaviour of the state machine. */
module ServiceTheorems {
  import opened Prelude
  import opened SlidingWindow
  import opened RateLimiting
  import opened LimiterRuns
  import opened CallStorage
  import opened CallCommands
  import opened CallRuns
  import opened Service
  import opened ServiceRuns
  import V = Validation

  ghost predicate Inv(cfg: Config, w: World) {
    LimiterInv(cfg, w) && HourlyCovers(w.log) && Lineage(cfg, w) && ParentInv(w) && Accounted(w) && SlotInv(w)
  }

  lemma InitialInv(cfg: Config, w: World)
    requires Initial(w)
    ensures Inv(cfg, w)
  {
    assert Holding(w.execs) == {};
  }

  lemma InvStep(cfg: Config, w: World, st: Step, w': World)
    requires Inv(cfg, w) && Advance(cfg, w, st, w')
    ensures Inv(cfg, w')
  {
    LimiterStep(cfg, w, st, w');
    CoversStep(cfg, w, st, w');
    LineageStep(cfg, w, st, w');
    ParentStep(cfg, w, st, w');
    AccountStep(cfg, w, st, w');
    SlotStep(cfg, w, st, w');
  }

  lemma {:induction false} InvHolds(cfg: Config, ws: seq<World>, steps: seq<Step>)
    requires Behaviour(cfg, ws, steps)
    ensures Inv(cfg, ws[|steps|])
  {
    if steps == [] {
      InitialInv(cfg, ws[0]);
    } else {
      var n := |steps| - 1;
      BehaviourFront(cfg, ws, steps);
      InvHolds(cfg, ws[..|steps|], steps[..n]);
      InvStep(cfg, ws[n], steps[n], ws[n + 1]);
    }
  }

  // ----- Rate limits, end to end -----

  /** Counting first calls and retries alike, no interval (x - W, x] ever sees more calls created
      for a number than allowed, whatever is interleaved. */
  lemma CallsPerNumber(cfg: Config, ws: seq<World>, steps: seq<Step>, mobile: string, x: Time)
    requires Behaviour(cfg, ws, steps)
    ensures |Within(TimesOf(AdmissionsOf(ws[|steps|].births), mobile), x - cfg.limits.window, x)|
            <= cfg.limits.perNumber
  {
    InvHolds(cfg, ws, steps);
    assert |Window(TimesOf(ws[|steps|].log.admitted, mobile), cfg.limits.window, x)| <= cfg.limits.perNumber;
  }

  /** The calls born after a cutoff, of one number or of all. */
  ghost function BornSince(births: seq<Birth>, mobile: Option<string>, cutoff: Time): set<Id> {
    if births == [] then {}
    else
      var before := BornSince(births[..|births| - 1], mobile, cutoff);
      var b := births[|births| - 1];
      if b.at > cutoff && (mobile.Some? ==> b.mobile == mobile.value) then before + {b.id} else before
  }

  lemma {:induction false} BornSinceHas(births: seq<Birth>, mobile: Option<string>, cutoff: Time, i: nat)
    requires i < |births| && births[i].at > cutoff && (mobile.Some? ==> births[i].mobile == mobile.value)
    ensures births[i].id in BornSince(births, mobile, cutoff)
  {
    if i < |births| - 1 {
      BornSinceHas(births[..|births| - 1], mobile, cutoff, i);
    }
  }

  /** The admission times of one number or of all. */
  function TimesFor(admitted: seq<Admission>, mobile: Option<string>): seq<Time> {
    match mobile
    case Some(m) => TimesOf(admitted, m)
    case None => AllTimes(admitted)
  }

  lemma {:induction false} BornSinceSizeOf(births: seq<Birth>, m: string, cutoff: Time)
    ensures |BornSince(births, Some(m), cutoff)| <= |Since(TimesOf(AdmissionsOf(births), m), cutoff)|
  {
    if births != [] {
      var front, b := births[..|births| - 1], births[|births| - 1];
      BornSinceSizeOf(front, m, cutoff);
      assert AdmissionsOf(births) == AdmissionsOf(front) + [Admission(b.mobile, b.at)];
      TimesOfSnoc(AdmissionsOf(front), b.mobile, b.at, m);
      SinceSnoc(TimesOf(AdmissionsOf(front), m), b.at, cutoff);
    }
  }

  lemma {:induction false} BornSinceSizeOfAll(births: seq<Birth>, cutoff: Time)
    ensures |BornSince(births, None, cutoff)| <= |Since(AllTimes(AdmissionsOf(births)), cutoff)|
  {
    if births != [] {
      var front, b := births[..|births| - 1], births[|births| - 1];
      BornSinceSizeOfAll(front, cutoff);
      assert AllTimes(AdmissionsOf(births)) == AllTimes(AdmissionsOf(front)) + [b.at];
      SinceSnoc(AllTimes(AdmissionsOf(front)), b.at, cutoff);
    }
  }

  lemma BornSinceSize(births: seq<Birth>, mobile: Option<string>, cutoff: Time)
    ensures |BornSince(births, mobile, cutoff)| <= |Since(TimesFor(AdmissionsOf(births), mobile), cutoff)|
  {
    match mobile
    case Some(m) => BornSinceSizeOf(births, m, cutoff);
    case None => BornSinceSizeOfAll(births, cutoff);
  }

  /** The rows present, of one number or of all. */
  ghost function RowsOf(db: Db, mobile: Option<string>): set<Id> {
    set id | id in db.calls && (mobile.Some? ==> db.calls[id].mobile == mobile.value)
  }

  lemma SubsetSize<T>(a: set<T>, b: set<T>)
    requires a <= b
    ensures |a| <= |b|
  {
    if a != {} {
      var x :| x in a;
      SubsetSize(a - {x}, b - {x});
    }
  }

  lemma YoungRows(cfg: Config, w: World, mobile: Option<string>, cutoff: Time)
    requires BirthInv(cfg, w) && RowInv(w) && forall id :: id in w.db.calls ==> w.db.calls[id].createdAt > cutoff
    ensures |RowsOf(w.db, mobile)| <= |Since(TimesFor(w.log.admitted, mobile), cutoff)|
  {
    forall id | id in RowsOf(w.db, mobile) ensures id in BornSince(w.births, mobile, cutoff) {
      var row := w.db.calls[id];
      assert RowMatches(w.births, id, row);
      var i :| 0 <= i < |w.births| && w.births[i] == Birth(id, row.mobile, row.parent, row.createdAt);
      BornSinceHas(w.births, mobile, cutoff, i);
    }
    SubsetSize(RowsOf(w.db, mobile), BornSince(w.births, mobile, cutoff));
    BornSinceSize(w.births, mobile, cutoff);
  }

  lemma RowsAreYoung(births: seq<Birth>, db: Db, now: Time)
    requires forall id :: id in db.calls ==> RowMatches(births, id, db.calls[id])
    ensures forall id :: id in ExpireCalls(db, now).calls ==> ExpireCalls(db, now).calls[id].createdAt >= now - TTL
  {
    forall id | id in ExpireCalls(db, now).calls ensures db.calls[id].createdAt >= now - TTL {
      assert RowMatches(births, id, db.calls[id]);
    }
  }

  lemma WindowsBounded(cfg: Config, w: World, mobile: string)
    requires LimiterInv(cfg, w)
    ensures |Since(w.log.hourly, w.clock - HOUR)| <= cfg.limits.hourlyLimit
    ensures |Since(TimesOf(w.log.admitted, mobile), w.clock - cfg.limits.window)| <= cfg.limits.perNumber
  {
    WithinIsSince(w.log.hourly, w.clock - HOUR, w.clock);
    assert |Window(w.log.hourly, HOUR, w.clock)| <= cfg.limits.hourlyLimit;
    WithinIsSince(TimesOf(w.log.admitted, mobile), w.clock - cfg.limits.window, w.clock);
    assert |Window(TimesOf(w.log.admitted, mobile), cfg.limits.window, w.clock)| <= cfg.limits.perNumber;
  }

  /** Right after expired rows are deleted, the table holds at most the hourly limit of rows, and,
      when the window outlasts the rows, at most the per-number limit for each number. */
  lemma LiveRowBound(cfg: Config, ws: seq<World>, steps: seq<Step>, mobile: string)
    requires Behaviour(cfg, ws, steps) && steps != [] && steps[|steps| - 1].ExpireRows?
    ensures |RowsOf(ws[|steps|].db, None)| <= cfg.limits.hourlyLimit
    ensures cfg.limits.window > TTL ==> |RowsOf(ws[|steps|].db, Some(mobile))| <= cfg.limits.perNumber
  {
    var n := |steps| - 1;
    BehaviourFront(cfg, ws, steps);
    InvHolds(cfg, ws[..|steps|], steps[..n]);
    InvHolds(cfg, ws, steps);
    var w := ws[n + 1];
    assert w.db == ExpireCalls(ws[n].db, steps[n].at);
    RowsAreYoung(ws[n].births, ws[n].db, steps[n].at);
    TableBound(cfg, w);
    if cfg.limits.window > TTL {
      NumberBound(cfg, w, mobile);
    }
  }

  lemma TableBound(cfg: Config, w: World)
    requires BirthInv(cfg, w) && RowInv(w) && LimiterInv(cfg, w) && HourlyCovers(w.log)
    requires forall id :: id in w.db.calls ==> w.db.calls[id].createdAt >= w.clock - TTL
    ensures |RowsOf(w.db, None)| <= cfg.limits.hourlyLimit
  {
    YoungRows(cfg, w, None, w.clock - HOUR);
    WindowsBounded(cfg, w, "");
    assert |Since(AllTimes(w.log.admitted), w.clock - HOUR)| <= |Since(w.log.hourly, w.clock - HOUR)|;
  }

  lemma NumberBound(cfg: Config, w: World, mobile: string)
    requires BirthInv(cfg, w) && RowInv(w) && LimiterInv(cfg, w) && cfg.limits.window > TTL
    requires forall id :: id in w.db.calls ==> w.db.calls[id].createdAt >= w.clock - TTL
    ensures |RowsOf(w.db, Some(mobile))| <= cfg.limits.perNumber
  {
    var cutoff := w.clock - cfg.limits.window;
    assert forall id :: id in w.db.calls ==> w.db.calls[id].createdAt > cutoff;
    YoungRows(cfg, w, Some(mobile), cutoff);
    WindowsBounded(cfg, w, mobile);
  }

  // ----- Conservation across the two lists of the limiter -----

  ghost function SumLengths(numbers: map<string, seq<Time>>): nat {
    if numbers == map[] then 0
    else
      var m :| m in numbers;
      |numbers[m]| + SumLengths(numbers - {m})
  }

  function Without(admitted: seq<Admission>, mobile: string): seq<Admission> {
    if admitted == [] then []
    else
      var before := Without(admitted[..|admitted| - 1], mobile);
      var a := admitted[|admitted| - 1];
      if a.mobile == mobile then before else before + [a]
  }

  lemma {:induction false} WithoutKeepsOthers(admitted: seq<Admission>, mobile: string, other: string)
    requires other != mobile
    ensures TimesOf(Without(admitted, mobile), other) == TimesOf(admitted, other)
  {
    if admitted != [] {
      var front, a := admitted[..|admitted| - 1], admitted[|admitted| - 1];
      WithoutKeepsOthers(front, mobile, other);
      TimesOfSnoc(Without(front, mobile), a.mobile, a.at, other);
    }
  }

  lemma AllTimesSnoc(admitted: seq<Admission>, a: Admission, cutoff: Time)
    ensures |Since(AllTimes(admitted + [a]), cutoff)| ==
            |Since(AllTimes(admitted), cutoff)| + (if a.at > cutoff then 1 else 0)
  {
    assert AllTimes(admitted + [a]) == AllTimes(admitted) + [a.at];
    SinceSnoc(AllTimes(admitted), a.at, cutoff);
  }

  lemma {:induction false} WithoutSplits(admitted: seq<Admission>, mobile: string, cutoff: Time)
    ensures |Since(AllTimes(admitted), cutoff)| ==
            |Since(TimesOf(admitted, mobile), cutoff)| + |Since(AllTimes(Without(admitted, mobile)), cutoff)|
  {
    if admitted != [] {
      var front, a := admitted[..|admitted| - 1], admitted[|admitted| - 1];
      WithoutSplits(front, mobile, cutoff);
      assert admitted == front + [a];
      AllTimesSnoc(front, a, cutoff);
      if a.mobile == mobile {
        SinceSnoc(TimesOf(front, mobile), a.at, cutoff);
      } else {
        AllTimesSnoc(Without(front, mobile), a, cutoff);
      }
    }
  }

  /** Histories that are windows of one log are together no longer than that log's window. */
  lemma {:induction false} SumWithinLog(numbers: map<string, seq<Time>>, admitted: seq<Admission>, cutoff: Time)
    requires forall m :: m in numbers ==> numbers[m] == Since(TimesOf(admitted, m), cutoff)
    ensures SumLengths(numbers) <= |Since(AllTimes(admitted), cutoff)|
    decreases |numbers|
  {
    if numbers != map[] {
      var m :| m in numbers && SumLengths(numbers) == |numbers[m]| + SumLengths(numbers - {m});
      var rest := numbers - {m};
      forall other | other in rest ensures rest[other] == Since(TimesOf(Without(admitted, m), other), cutoff) {
        WithoutKeepsOthers(admitted, m, other);
      }
      assert rest.Keys == numbers.Keys - {m};
      SumWithinLog(rest, Without(admitted, m), cutoff);
      WithoutSplits(admitted, m, cutoff);
    }
  }

  lemma {:induction false} SumCountsKeys(numbers: map<string, seq<Time>>)
    requires forall m :: m in numbers ==> numbers[m] != []
    ensures |numbers| <= SumLengths(numbers)
    decreases |numbers|
  {
    if numbers != map[] {
      var m :| m in numbers && SumLengths(numbers) == |numbers[m]| + SumLengths(numbers - {m});
      assert (numbers - {m}).Keys == numbers.Keys - {m};
      SumCountsKeys(numbers - {m});
      assert |numbers.Keys| == |numbers| && |(numbers - {m}).Keys| == |numbers - {m}|;
    }
  }

  lemma CleanedHistories(limits: Limits, s: LimiterState, g: Log, clock: Time, now: Time, m: string)
    requires NumbersAgree(limits, s, g, clock) && clock <= now && m in Cleaned(limits, s, now).numbers
    ensures Cleaned(limits, s, now).numbers[m] == Since(TimesOf(g.admitted, m), now - limits.window)
  {
    assert HistoryOf(s, m) == s.numbers[m];
  }

  lemma CleanedSum(limits: Limits, s: LimiterState, g: Log, clock: Time, now: Time)
    requires NumbersAgree(limits, s, g, clock) && HourlyAgrees(s, g, clock) && HourlyCovers(g)
    requires clock <= now && limits.window <= HOUR
    ensures SumLengths(Cleaned(limits, s, now).numbers) <= |Cleaned(limits, s, now).hourly|
  {
    var numbers, start := Cleaned(limits, s, now).numbers, now - limits.window;
    forall m | m in numbers ensures numbers[m] == Since(TimesOf(g.admitted, m), start) {
      CleanedHistories(limits, s, g, clock, now, m);
    }
    SumWithinLog(numbers, g.admitted, start);
    assert |Since(AllTimes(g.admitted), start)| <= |Since(g.hourly, start)|;
    SinceShrinks(g.hourly, now - HOUR, start);
    assert Since(s.hourly, now - HOUR) == Since(g.hourly, now - HOUR);
  }

  lemma CleanedConserves(cfg: Config, w: World, now: Time)
    requires LimiterInv(cfg, w) && HourlyCovers(w.log) && w.clock <= now && cfg.limits.window <= HOUR
    ensures var s := Cleaned(cfg.limits, w.limiter, now);
            |s.numbers| <= SumLengths(s.numbers) <= |s.hourly| <= cfg.limits.hourlyLimit
  {
    CleanedSum(cfg.limits, w.limiter, w.log, w.clock, now);
    StepTidy(cfg.limits, w.limiter, Cleanup(now));
    SumCountsKeys(Cleaned(cfg.limits, w.limiter, now).numbers);
  }

  /** With a window of at most an hour, right after the limiter is cleaned the per-number
      histories together are no longer than the hourly list, itself within the hourly limit; so
      the numbers tracked are bounded too. */
  lemma HistoriesWithinHourly(cfg: Config, ws: seq<World>, steps: seq<Step>)
    requires Behaviour(cfg, ws, steps) && steps != [] && steps[|steps| - 1].CleanLimiter?
    requires cfg.limits.window <= HOUR
    ensures var s := ws[|steps|].limiter;
            |s.numbers| <= SumLengths(s.numbers) <= |s.hourly| <= cfg.limits.hourlyLimit
  {
    var n := |steps| - 1;
    BehaviourFront(cfg, ws, steps);
    InvHolds(cfg, ws[..|steps|], steps[..n]);
    CleanedConserves(cfg, ws[n], steps[n].at);
  }

  // ----- Retries -----

  /** For every call still in the table, the retry count and the retries about to count themselves
      are exactly the retries of it still in the table, expiry notwithstanding. */
  lemma RetryCountIsExact(cfg: Config, ws: seq<World>, steps: seq<Step>, p: Id)
    requires Behaviour(cfg, ws, steps) && p in ws[|steps|].db.calls
    ensures var w := ws[|steps|];
            w.db.calls[p].retryCount + |Pending(w, p)| == |Children(w.db, p)|
  {
    InvHolds(cfg, ws, steps);
  }

  /** A path from a birth to an original call: every step goes to the parent, which is older. */
  ghost predicate Ancestry(births: seq<Birth>, path: seq<int>) {
    && path != []
    && (forall k :: 0 <= k < |path| ==> 0 <= path[k] < |births|)
    && (forall k :: 0 <= k < |path| - 1 ==>
          path[k + 1] < path[k] && births[path[k]].parent == Some(births[path[k + 1]].id))
    && births[path[|path| - 1]].parent == None
  }

  ghost predicate OneNumber(births: seq<Birth>, path: seq<int>, mobile: string) {
    forall k :: 0 <= k < |path| ==> 0 <= path[k] < |births| && births[path[k]].mobile == mobile
  }

  lemma {:induction false} AncestryExists(births: seq<Birth>, i: nat) returns (path: seq<int>)
    requires i < |births| && forall k :: 0 <= k < |births| ==> HasEarlierParent(births, k)
    ensures Ancestry(births, path) && path[0] == i && OneNumber(births, path, births[i].mobile)
    decreases i
  {
    assert HasEarlierParent(births, i);
    if births[i].parent.None? {
      path := [i];
    } else {
      var j :| 0 <= j < i && births[j].id == births[i].parent.value && births[j].mobile == births[i].mobile;
      var rest := AncestryExists(births, j);
      path := [i] + rest;
    }
  }

  /** The step reads the call to be retried, in one of the statuses a retry is possible from. */
  ghost predicate LoadedIn(w: World, st: Step, p: Id) {
    && st.RetryLoad? && st.parent == p && p in w.db.calls
    && w.db.calls[p].status in {NoAnswer, Busy, Congestion, Failed, Unreachable, Rejected}
  }

  ghost predicate WasLoaded(ws: seq<World>, steps: seq<Step>, p: Id) {
    exists j :: 0 <= j < |steps| && j < |ws| && LoadedIn(ws[j], steps[j], p)
  }

  lemma LoadedLater(ws: seq<World>, steps: seq<Step>, n: nat, p: Id)
    requires n < |steps| && |ws| == |steps| + 1 && WasLoaded(ws[..n + 1], steps[..n], p)
    ensures WasLoaded(ws, steps, p)
  {
    var j :| 0 <= j < n && LoadedIn(ws[..n + 1][j], steps[..n][j], p);
    assert ws[..n + 1][j] == ws[j] && steps[..n][j] == steps[j];
  }

  /** Where the retries at hand and the births with a parent come from in one step. */
  lemma RetriesStep(cfg: Config, w: World, st: Step, w': World)
    requires Advance(cfg, w, st, w')
    ensures forall t :: t in w'.retries && w'.retries[t].Loaded? ==>
              || (t in w.retries && w.retries[t].Loaded? && w'.retries[t].parent == w.retries[t].parent)
              || LoadedIn(w, st, w'.retries[t].parent)
    ensures w.births <= w'.births
    ensures forall i :: |w.births| <= i < |w'.births| && w'.births[i].parent.Some? ==>
              exists t :: t in w.retries && w.retries[t].Loaded? && w'.births[i].parent == Some(w.retries[t].parent)
  {
    HistoryStep(cfg, w, st, w');
    if LetsIn(cfg, w, st) && st.RetryAdmit? {
      assert st.task in w.retries && w.retries[st.task].Loaded?;
    }
  }

  /** What a state knows of retried calls was read by some step. */
  ghost predicate AllLoaded(ws: seq<World>, steps: seq<Step>, w: World) {
    && (forall t :: t in w.retries && w.retries[t].Loaded? ==> WasLoaded(ws, steps, w.retries[t].parent))
    && forall i :: 0 <= i < |w.births| && w.births[i].parent.Some? ==> WasLoaded(ws, steps, w.births[i].parent.value)
  }

  lemma LoadedAfterStep(cfg: Config, ws: seq<World>, steps: seq<Step>, n: nat, w: World, w': World)
    requires |steps| == n + 1 && |ws| == n + 2 && w == ws[n] && Advance(cfg, w, steps[n], w')
    requires AllLoaded(ws[..n + 1], steps[..n], w)
    ensures AllLoaded(ws, steps, w')
  {
    RetriesStep(cfg, w, steps[n], w');
    forall t | t in w'.retries && w'.retries[t].Loaded? ensures WasLoaded(ws, steps, w'.retries[t].parent) {
      if !LoadedIn(w, steps[n], w'.retries[t].parent) {
        LoadedLater(ws, steps, n, w.retries[t].parent);
      }
    }
    forall i | 0 <= i < |w'.births| && w'.births[i].parent.Some?
      ensures WasLoaded(ws, steps, w'.births[i].parent.value)
    {
      LoadedLater(ws, steps, n, w'.births[i].parent.value);
    }
  }

  lemma {:induction false} RetriesWereLoaded(cfg: Config, ws: seq<World>, steps: seq<Step>)
    requires Behaviour(cfg, ws, steps)
    ensures AllLoaded(ws, steps, ws[|steps|])
  {
    if steps != [] {
      var n := |steps| - 1;
      BehaviourFront(cfg, ws, steps);
      RetriesWereLoaded(cfg, ws[..n + 1], steps[..n]);
      LoadedAfterStep(cfg, ws, steps, n, ws[n], ws[n + 1]);
    }
  }

  /** Retries form a forest: every call ever created leads, parent by parent and ever earlier, to an
      original call; all on the way share one canonical number; every parent on the way was, at some
      step, read to be retried in one of the six retryable statuses; and every one that is still in the
      table is terminal. */
  lemma RetryForest(cfg: Config, ws: seq<World>, steps: seq<Step>, i: nat) returns (path: seq<int>)
    requires Behaviour(cfg, ws, steps) && i < |ws[|steps|].births|
    ensures var w := ws[|steps|];
            && Ancestry(w.births, path) && path[0] == i
            && OneNumber(w.births, path, w.births[i].mobile) && V.Canonical(w.births[i].mobile, cfg.classes)
            && forall k :: 1 <= k < |path| ==>
                 Closed(w.db, w.births[path[k]].id) && WasLoaded(ws, steps, w.births[path[k]].id)
  {
    InvHolds(cfg, ws, steps);
    RetriesWereLoaded(cfg, ws, steps);
    var w := ws[|steps|];
    path := AncestryExists(w.births, i);
    forall k | 1 <= k < |path|
      ensures Closed(w.db, w.births[path[k]].id) && WasLoaded(ws, steps, w.births[path[k]].id)
    {
      var child := path[k - 1];
      assert w.births[child].parent == Some(w.births[path[k - 1 + 1]].id);
    }
  }

  /** Every row's number is canonical, so what is dialled is the key the limits were checked for. */
  lemma RowsAreCanonical(cfg: Config, ws: seq<World>, steps: seq<Step>, id: Id)
    requires Behaviour(cfg, ws, steps) && id in ws[|steps|].db.calls
    ensures var mobile := ws[|steps|].db.calls[id].mobile;
            && V.NormalizeMobile(mobile, cfg.classes) == Some(mobile) && V.Sanitize(mobile) == mobile
  {
    InvHolds(cfg, ws, steps);
    var w := ws[|steps|];
    assert RowMatches(w.births, id, w.db.calls[id]);
    V.CanonicalIsFixed(w.db.calls[id].mobile, cfg.classes);
    V.CanonicalSurvivesSanitize(w.db.calls[id].mobile, cfg.classes);
  }

  // ----- Call slots -----

  /** The active count is the background calls between acquire and release, dead ones included;
      so a release always has something to return, and when no call holds a slot none is counted. */
  lemma SlotsAreConserved(cfg: Config, ws: seq<World>, steps: seq<Step>)
    requires Behaviour(cfg, ws, steps)
    ensures ws[|steps|].limiter.active == |Holding(ws[|steps|].execs)|
    ensures forall st :: Enabled(cfg, ws[|steps|], st) && st.ExecRelease? ==> ws[|steps|].limiter.active > 0
    ensures ws[|steps|].limiter.active == 0 <==>
            forall id :: id in ws[|steps|].execs ==> ws[|steps|].execs[id] == Scheduled
  {
    InvHolds(cfg, ws, steps);
    var w := ws[|steps|];
    forall st | Enabled(cfg, w, st) && st.ExecRelease? ensures w.limiter.active > 0 {
      assert st.id in Holding(w.execs);
    }
    if w.limiter.active == 0 {
      forall id | id in w.execs ensures w.execs[id] == Scheduled {
        assert id !in Holding(w.execs);
      }
    }
  }

  lemma DeadStaysDead(cfg: Config, w: World, st: Step, w': World, id: Id)
    requires TaskIds(w) && Advance(cfg, w, st, w') && InPhase(w, id, Dead)
    ensures InPhase(w', id, Dead)
  {
  }

  /** A call that died before its `try` never gives its slot back. */
  lemma {:induction false} DeadCallKeepsItsSlot(cfg: Config, ws: seq<World>, steps: seq<Step>, id: Id, first: nat)
    requires Behaviour(cfg, ws, steps) && first <= |steps| && InPhase(ws[first], id, Dead)
    ensures InPhase(ws[|steps|], id, Dead) && ws[|steps|].limiter.active > 0
  {
    InvHolds(cfg, ws, steps);
    if first < |steps| {
      var n := |steps| - 1;
      BehaviourFront(cfg, ws, steps);
      DeadCallKeepsItsSlot(cfg, ws[..|steps|], steps[..n], id, first);
      InvHolds(cfg, ws[..|steps|], steps[..n]);
      DeadStaysDead(cfg, ws[n], steps[n], ws[n + 1], id);
    }
    assert id in Holding(ws[|steps|].execs);
  }

  // ----- The status machine inside the service -----

  /** Once terminal, a call is terminal in every later state in which it has a row. */
  lemma {:induction false} TerminalForGood(cfg: Config, ws: seq<World>, steps: seq<Step>, id: Id, first: nat, last: nat)
    requires Behaviour(cfg, ws, steps) && first <= last < |ws|
    requires !Fresh(ws[first], id) && Closed(ws[first].db, id)
    ensures !Fresh(ws[last], id) && Closed(ws[last].db, id)
    decreases last
  {
    if first < last {
      TerminalForGood(cfg, ws, steps, id, first, last - 1);
      var w, st, w' := ws[last - 1], steps[last - 1], ws[last];
      assert Advance(cfg, w, st, w');
      CommandKinds(cfg, w, st);
      StaysStale(w.births, w, w', id);
      ClosedStaysClosed(w.db, CommandOf(cfg, w, st), w'.db, id);
    }
  }

  lemma {:induction false} TimesRise(cfg: Config, ws: seq<World>, steps: seq<Step>, i: nat, j: nat)
    requires Behaviour(cfg, ws, steps) && i < j < |steps|
    ensures steps[i].at <= steps[j].at
    decreases j
  {
    assert Advance(cfg, ws[j - 1], steps[j - 1], ws[j]) && Advance(cfg, ws[j], steps[j], ws[j + 1]);
    if i < j - 1 {
      TimesRise(cfg, ws, steps, i, j - 1);
    }
  }

  /** The tables of a behaviour, as an execution with rising times from empty tables. */
  lemma TablesOverTime(cfg: Config, ws: seq<World>, steps: seq<Step>) returns (dbs: seq<Db>, cs: seq<Command>)
    requires Behaviour(cfg, ws, steps)
    ensures Execution(dbs, cs) && dbs[0] == Db(map[], []) && TimesAscend(cs)
    ensures |cs| == |steps| && dbs[|cs|] == ws[|steps|].db
  {
    dbs, cs := TablesExecute(cfg, ws, steps);
    assert ws[0].db == dbs[0];
    forall i, j | 0 <= i < j < |cs| ensures cs[i].at <= cs[j].at {
      TimesRise(cfg, ws, steps, i, j);
    }
  }

  /** In every behaviour, a call once reported answered with no failure carrying reason 4 in its
      timeline is reported answered for as long as its row lives. */
  lemma AnsweredForGood(cfg: Config, ws: seq<World>, steps: seq<Step>, id: Id, first: nat, last: nat)
    requires Behaviour(cfg, ws, steps) && first <= last < |ws|
    requires forall i :: first <= i <= last ==> id in ws[i].db.calls
    requires IsAnswered(View(ws[first].db, id)) && !FailureFour(View(ws[first].db, id).timeline)
    ensures IsAnswered(View(ws[last].db, id))
  {
    var dbs, cs := TablesExecute(cfg, ws, steps);
    assert dbs[0] == ws[0].db && dbs[first] == ws[first].db && dbs[last] == ws[last].db;
    AnsweredStays(dbs, cs, id, first, last);
  }

  /** In every state of the service, what a client polls for a call is backed by its timeline, which
      starts with `queued` and is in time order as logged. */
  lemma PolledCallsAreSound(cfg: Config, ws: seq<World>, steps: seq<Step>, id: Id)
    requires Behaviour(cfg, ws, steps) && id in ws[|steps|].db.calls
    ensures var db := ws[|steps|].db;
            && Backed(View(db, id))
            && Timeline(db, id) == EventsOf(db.events, id)
            && Timeline(db, id) != [] && Timeline(db, id)[0].kind == QueuedLogged
            && Timeline(db, id)[0].at == db.calls[id].createdAt
  {
    var dbs, cs := TablesOverTime(cfg, ws, steps);
    var clock := if cs == [] then 0.0 else cs[|cs| - 1].at;
    StatusIsBacked(dbs, cs, id);
    TimelinesAreWellKept(dbs, cs, id, clock);
    ByTimeKeepsSorted(EventsOf(dbs[|cs|].events, id));
  }
}
