/** Whole runs of the limiter, compared with a log of admissions that is never pruned. */
module LimiterRuns {
  import opened Prelude
  import opened SlidingWindow
  import opened RateLimiting

  datatype Admission = Admission(mobile: string, at: Time)

  /** Everything the limiter ever admitted, oldest first. */
  datatype Log = Log(admitted: seq<Admission>, hourly: seq<Time>)

  const EMPTY_LOG := Log([], [])

  /** When `mobile` was admitted. */
  function TimesOf(admitted: seq<Admission>, mobile: string): seq<Time> {
    if admitted == [] then []
    else
      var before := TimesOf(admitted[..|admitted| - 1], mobile);
      var last := admitted[|admitted| - 1];
      if last.mobile == mobile then before + [last.at] else before
  }

  datatype Op = Number(mobile: string, at: Time) | Hourly(at: Time) | Cleanup(at: Time)

  function Perform(limits: Limits, s: LimiterState, op: Op): (LimiterState, bool) {
    match op
    case Number(mobile, at) =>
      var (s', v) := CheckNumber(limits, s, mobile, at);
      (s', v.Admitted?)
    case Hourly(at) => CheckHourly(limits, s, at)
    case Cleanup(at) => (Cleaned(limits, s, at), true)
  }

  function Record(g: Log, op: Op, ok: bool): Log {
    match op
    case Number(mobile, at) => if ok then g.(admitted := g.admitted + [Admission(mobile, at)]) else g
    case Hourly(at) => if ok then g.(hourly := g.hourly + [at]) else g
    case Cleanup(_) => g
  }

  /** The answer of a limiter that keeps the whole log and counts a window of it. */
  function LogAnswer(limits: Limits, g: Log, op: Op): bool {
    match op
    case Number(mobile, at) =>
      |Window(TimesOf(g.admitted, mobile), limits.window, at)| < limits.perNumber
    case Hourly(at) => |Window(g.hourly, HOUR, at)| < limits.hourlyLimit
    case Cleanup(_) => true
  }

  /** The state after a run from the idle limiter, with the log of what it admitted. */
  function Play(limits: Limits, ops: seq<Op>): (LimiterState, Log) {
    if ops == [] then (IDLE, EMPTY_LOG)
    else
      var (s, g) := Play(limits, ops[..|ops| - 1]);
      var op := ops[|ops| - 1];
      var (s', ok) := Perform(limits, s, op);
      (s', Record(g, op, ok))
  }

  ghost predicate Chronological(ops: seq<Op>) {
    forall i, j :: 0 <= i < j < |ops| ==> ops[i].at <= ops[j].at
  }

  // ----- The simulation between the pruned lists and the log -----

  /** From the current clock on, no window can tell a pruned history from the log. */
  ghost predicate NumbersAgree(limits: Limits, s: LimiterState, g: Log, clock: Time) {
    forall m, cutoff :: cutoff >= clock - limits.window ==>
      Since(HistoryOf(s, m), cutoff) == Since(TimesOf(g.admitted, m), cutoff)
  }

  ghost predicate HourlyAgrees(s: LimiterState, g: Log, clock: Time) {
    forall cutoff :: cutoff >= clock - HOUR ==> Since(s.hourly, cutoff) == Since(g.hourly, cutoff)
  }

  ghost predicate LogOrdered(g: Log, clock: Time) {
    && (forall m :: Ascending(TimesOf(g.admitted, m)) && NoneAfter(TimesOf(g.admitted, m), clock))
    && Ascending(g.hourly) && NoneAfter(g.hourly, clock)
  }

  /** No window of the log, ending at any moment whatever, holds more than its limit. */
  ghost predicate LogBounded(limits: Limits, g: Log) {
    && (forall m :: Bounded(TimesOf(g.admitted, m), limits.window, limits.perNumber))
    && Bounded(g.hourly, HOUR, limits.hourlyLimit)
  }

  ghost predicate Tracks(limits: Limits, s: LimiterState, g: Log, clock: Time) {
    && NumbersAgree(limits, s, g, clock)
    && HourlyAgrees(s, g, clock)
    && LogOrdered(g, clock)
    && LogBounded(limits, g)
  }

  /** Tracked histories are neither empty nor longer than the limit. */
  ghost predicate Tidy(limits: Limits, s: LimiterState) {
    && (forall m :: m in s.numbers ==> 1 <= |s.numbers[m]| <= limits.perNumber)
    && |s.hourly| <= limits.hourlyLimit
  }

  lemma TimesOfSnoc(admitted: seq<Admission>, mobile: string, at: Time, m: string)
    ensures TimesOf(admitted + [Admission(mobile, at)], m) ==
            TimesOf(admitted, m) + (if m == mobile then [at] else [])
  {
    assert (admitted + [Admission(mobile, at)])[..|admitted|] == admitted;
  }

  /** While the clock does not go back, a check counts exactly the log's window. */
  lemma AnswersMatch(limits: Limits, s: LimiterState, g: Log, clock: Time, op: Op)
    requires Tracks(limits, s, g, clock) && clock <= op.at
    ensures Perform(limits, s, op).1 == LogAnswer(limits, g, op)
  {
    match op
    case Number(mobile, at) =>
      WithinIsSince(TimesOf(g.admitted, mobile), at - limits.window, at);
    case Hourly(at) =>
      WithinIsSince(g.hourly, at - HOUR, at);
    case Cleanup(_) =>
  }

  /** Appending a time whose window still has room keeps every window within the limit. */
  lemma BoundedSnoc(ts: seq<Time>, t: Time, width: Time, limit: nat)
    requires NoneAfter(ts, t) && |Window(ts, width, t)| < limit
    requires Bounded(ts, width, limit)
    ensures Bounded(ts + [t], width, limit)
  {
    forall x ensures |Window(ts + [t], width, x)| <= limit {
      WithinSnoc(ts, t, x - width, x);
      assert |Window(ts, width, x)| <= limit;
      if x >= t {
        WithinIsSince(ts, t - width, t);
        WithinIsSince(ts, x - width, x);
        SinceShrinks(ts, t - width, x - width);
      }
    }
  }

  lemma PruneAndAppend(history: seq<Time>, log: seq<Time>, start: Time, at: Time, cutoff: Time)
    requires start <= cutoff && Since(history, cutoff) == Since(log, cutoff)
    ensures Since(Since(history, start) + [at], cutoff) == Since(log + [at], cutoff)
  {
    SinceSnoc(Since(history, start), at, cutoff);
    SinceSnoc(log, at, cutoff);
    SinceTwice(history, start, cutoff);
  }

  lemma AdmissionAgrees(limits: Limits, s: LimiterState, g: Log, clock: Time, mobile: string, at: Time)
    requires NumbersAgree(limits, s, g, clock) && clock <= at
    requires CheckNumber(limits, s, mobile, at).1.Admitted?
    ensures NumbersAgree(limits, CheckNumber(limits, s, mobile, at).0, Record(g, Number(mobile, at), true), at)
  {
    var s' := CheckNumber(limits, s, mobile, at).0;
    var g' := Record(g, Number(mobile, at), true);
    forall m, cutoff | cutoff >= at - limits.window
      ensures Since(HistoryOf(s', m), cutoff) == Since(TimesOf(g'.admitted, m), cutoff)
    {
      TimesOfSnoc(g.admitted, mobile, at, m);
      assert Since(HistoryOf(s, m), cutoff) == Since(TimesOf(g.admitted, m), cutoff);
      if m == mobile {
        PruneAndAppend(HistoryOf(s, m), TimesOf(g.admitted, m), at - limits.window, at, cutoff);
      }
    }
  }

  lemma AdmissionBounded(limits: Limits, g: Log, clock: Time, mobile: string, at: Time)
    requires LogOrdered(g, clock) && LogBounded(limits, g) && clock <= at
    requires LogAnswer(limits, g, Number(mobile, at))
    ensures var g' := Record(g, Number(mobile, at), true); LogOrdered(g', at) && LogBounded(limits, g')
  {
    var g' := Record(g, Number(mobile, at), true);
    forall m ensures && Ascending(TimesOf(g'.admitted, m)) && NoneAfter(TimesOf(g'.admitted, m), at)
                     && Bounded(TimesOf(g'.admitted, m), limits.window, limits.perNumber)
    {
      TimesOfSnoc(g.admitted, mobile, at, m);
      if m == mobile {
        BoundedSnoc(TimesOf(g.admitted, m), at, limits.window, limits.perNumber);
      }
    }
  }

  lemma NumberStep(limits: Limits, s: LimiterState, g: Log, clock: Time, mobile: string, at: Time)
    requires Tracks(limits, s, g, clock) && clock <= at
    requires LogAnswer(limits, g, Number(mobile, at))
    ensures var g' := Record(g, Number(mobile, at), true);
            Tracks(limits, CheckNumber(limits, s, mobile, at).0, g', at)
  {
    AnswersMatch(limits, s, g, clock, Number(mobile, at));
    AdmissionAgrees(limits, s, g, clock, mobile, at);
    AdmissionBounded(limits, g, clock, mobile, at);
  }

  lemma HourlyStep(limits: Limits, s: LimiterState, g: Log, clock: Time, at: Time, ok: bool)
    requires Tracks(limits, s, g, clock) && clock <= at
    requires ok == LogAnswer(limits, g, Hourly(at))
    ensures Tracks(limits, CheckHourly(limits, s, at).0, Record(g, Hourly(at), ok), at)
  {
    AnswersMatch(limits, s, g, clock, Hourly(at));
    var s' := CheckHourly(limits, s, at).0;
    var g' := Record(g, Hourly(at), ok);
    var recent := Since(s.hourly, at - HOUR);
    forall cutoff | cutoff >= at - HOUR ensures Since(s'.hourly, cutoff) == Since(g'.hourly, cutoff) {
      SinceTwice(s.hourly, at - HOUR, cutoff);
      SinceSnoc(recent, at, cutoff);
      SinceSnoc(g.hourly, at, cutoff);
    }
    if ok {
      BoundedSnoc(g.hourly, at, HOUR, limits.hourlyLimit);
    }
  }

  lemma CleanupStep(limits: Limits, s: LimiterState, g: Log, clock: Time, at: Time)
    requires Tracks(limits, s, g, clock) && clock <= at
    ensures Tracks(limits, Cleaned(limits, s, at), g, at)
  {
    var s' := Cleaned(limits, s, at);
    forall m, cutoff | cutoff >= at - limits.window
      ensures Since(HistoryOf(s', m), cutoff) == Since(TimesOf(g.admitted, m), cutoff)
    {
      SinceTwice(HistoryOf(s, m), at - limits.window, cutoff);
    }
    forall cutoff | cutoff >= at - HOUR ensures Since(s'.hourly, cutoff) == Since(g.hourly, cutoff) {
      SinceTwice(s.hourly, at - HOUR, cutoff);
    }
  }

  /** One operation keeps the pruned state and the log in step. */
  lemma StepTracks(limits: Limits, s: LimiterState, g: Log, clock: Time, op: Op)
    requires Tracks(limits, s, g, clock) && clock <= op.at
    ensures var (s', ok) := Perform(limits, s, op);
            Tracks(limits, s', Record(g, op, ok), op.at)
  {
    AnswersMatch(limits, s, g, clock, op);
    match op
    case Number(mobile, at) =>
      if LogAnswer(limits, g, op) {
        NumberStep(limits, s, g, clock, mobile, at);
      }
    case Hourly(at) => HourlyStep(limits, s, g, clock, at, LogAnswer(limits, g, op));
    case Cleanup(at) => CleanupStep(limits, s, g, clock, at);
  }

  lemma CleanupTidy(limits: Limits, s: LimiterState, now: Time)
    requires Tidy(limits, s)
    ensures Tidy(limits, Cleaned(limits, s, now))
  {
    SinceShrinks(s.hourly, now - HOUR, now - HOUR);
    forall m | m in s.numbers ensures |Since(s.numbers[m], now - limits.window)| <= |s.numbers[m]| {
      SinceShrinks(s.numbers[m], now - limits.window, now - limits.window);
    }
  }

  lemma StepTidy(limits: Limits, s: LimiterState, op: Op)
    requires Tidy(limits, s)
    ensures Tidy(limits, Perform(limits, s, op).0)
  {
    match op
    case Number(_, _) =>
    case Hourly(at) => SinceShrinks(s.hourly, at - HOUR, at - HOUR);
    case Cleanup(at) => CleanupTidy(limits, s, at);
  }

  lemma {:induction false} PlayTracks(limits: Limits, ops: seq<Op>, now: Time)
    requires Chronological(ops) && forall i :: 0 <= i < |ops| ==> ops[i].at <= now
    ensures Tracks(limits, Play(limits, ops).0, Play(limits, ops).1, now)
  {
    if ops != [] {
      var front, op := ops[..|ops| - 1], ops[|ops| - 1];
      PlayTracks(limits, front, op.at);
      StepTracks(limits, Play(limits, front).0, Play(limits, front).1, op.at, op);
    }
  }

  // ----- What callers get from every run -----

  /** After any run, pruning and cleanup have not changed the answer to any later check. */
  lemma PruningIsInvisible(limits: Limits, ops: seq<Op>, op: Op)
    requires Chronological(ops + [op])
    ensures Perform(limits, Play(limits, ops).0, op).1 == LogAnswer(limits, Play(limits, ops).1, op)
  {
    ChronologicalFront(ops, op);
    PlayTracks(limits, ops, op.at);
    AnswersMatch(limits, Play(limits, ops).0, Play(limits, ops).1, op.at, op);
  }

  lemma ChronologicalFront(ops: seq<Op>, op: Op)
    requires Chronological(ops + [op])
    ensures Chronological(ops) && forall i :: 0 <= i < |ops| ==> ops[i].at <= op.at
  {
    var all := ops + [op];
    forall i, j | 0 <= i < j < |ops| ensures ops[i].at <= ops[j].at {
      assert all[i] == ops[i] && all[j] == ops[j];
    }
    forall i | 0 <= i < |ops| ensures ops[i].at <= op.at {
      assert all[i] == ops[i] && all[|ops|] == op;
    }
  }

  lemma {:induction false} ChronologicalEnd(ops: seq<Op>) returns (end: Time)
    requires Chronological(ops)
    ensures forall i :: 0 <= i < |ops| ==> ops[i].at <= end
  {
    end := if ops == [] then 0.0 else ops[|ops| - 1].at;
  }

  /** Over whole runs, no interval (x - W, x] holds more admissions of a number than allowed. */
  lemma PerNumberSafety(limits: Limits, ops: seq<Op>, mobile: string, x: Time)
    requires Chronological(ops)
    ensures |Within(TimesOf(Play(limits, ops).1.admitted, mobile), x - limits.window, x)| <= limits.perNumber
  {
    var end := ChronologicalEnd(ops);
    PlayTracks(limits, ops, end);
    assert |Window(TimesOf(Play(limits, ops).1.admitted, mobile), limits.window, x)| <= limits.perNumber;
  }

  lemma HourlySafety(limits: Limits, ops: seq<Op>, x: Time)
    requires Chronological(ops)
    ensures |Within(Play(limits, ops).1.hourly, x - 3600.0, x)| <= limits.hourlyLimit
  {
    var end := ChronologicalEnd(ops);
    PlayTracks(limits, ops, end);
    assert |Window(Play(limits, ops).1.hourly, HOUR, x)| <= limits.hourlyLimit;
  }

  /** Memory stays bounded: every stored list is within its limit, and none is empty. */
  lemma {:induction false} StoredListsStaySmall(limits: Limits, ops: seq<Op>)
    ensures Tidy(limits, Play(limits, ops).0)
  {
    if ops != [] {
      var front := ops[..|ops| - 1];
      StoredListsStaySmall(limits, front);
      StepTidy(limits, Play(limits, front).0, ops[|ops| - 1]);
    }
  }

  /** No stored time is later than `now`. */
  ghost predicate StoredBy(s: LimiterState, now: Time) {
    (forall m :: m in s.numbers ==> NoneAfter(s.numbers[m], now)) && NoneAfter(s.hourly, now)
  }

  lemma StepStoredBy(limits: Limits, s: LimiterState, op: Op, now: Time)
    requires StoredBy(s, now) && op.at <= now
    ensures StoredBy(Perform(limits, s, op).0, now)
  {
    match op
    case Number(mobile, at) => SinceBounds(HistoryOf(s, mobile), at - limits.window, now);
    case Hourly(at) => SinceBounds(s.hourly, at - HOUR, now);
    case Cleanup(at) =>
      forall m | m in s.numbers ensures NoneAfter(Since(s.numbers[m], at - limits.window), now) {
        SinceBounds(s.numbers[m], at - limits.window, now);
      }
      SinceBounds(s.hourly, at - HOUR, now);
  }

  lemma {:induction false} PlayStoredBy(limits: Limits, ops: seq<Op>, now: Time)
    requires forall i :: 0 <= i < |ops| ==> ops[i].at <= now
    ensures StoredBy(Play(limits, ops).0, now)
  {
    if ops != [] {
      var front, op := ops[..|ops| - 1], ops[|ops| - 1];
      PlayStoredBy(limits, front, now);
      StepStoredBy(limits, Play(limits, front).0, op, now);
    }
  }

  /** After any run, cleanup keeps a number exactly when some entry of it is still in its window,
      and leaves only entries that are still in theirs. */
  lemma CleanupLeavesOnlyRecent(limits: Limits, ops: seq<Op>, now: Time)
    requires Chronological(ops + [Cleanup(now)])
    ensures var s, s' := Play(limits, ops).0, Cleaned(limits, Play(limits, ops).0, now);
            && (forall m :: m in s'.numbers <==>
                  m in s.numbers && exists i :: 0 <= i < |s.numbers[m]| && s.numbers[m][i] > now - limits.window)
            && (forall m, i :: m in s'.numbers && 0 <= i < |s'.numbers[m]| ==>
                  now - limits.window < s'.numbers[m][i] <= now)
            && (forall i :: 0 <= i < |s'.hourly| ==> now - HOUR < s'.hourly[i] <= now)
  {
    ChronologicalFront(ops, Cleanup(now));
    PlayStoredBy(limits, ops, now);
    RecentAfterCleanup(limits, Play(limits, ops).0, now);
  }

  lemma RecentAfterCleanup(limits: Limits, s: LimiterState, now: Time)
    requires StoredBy(s, now)
    ensures var s' := Cleaned(limits, s, now);
            && (forall m :: m in s'.numbers <==>
                  m in s.numbers && exists i :: 0 <= i < |s.numbers[m]| && s.numbers[m][i] > now - limits.window)
            && (forall m, i :: m in s'.numbers && 0 <= i < |s'.numbers[m]| ==>
                  now - limits.window < s'.numbers[m][i] <= now)
            && (forall i :: 0 <= i < |s'.hourly| ==> now - HOUR < s'.hourly[i] <= now)
  {
    var start := now - limits.window;
    forall m | m in s.numbers
      ensures Since(s.numbers[m], start) != [] <==> exists i :: 0 <= i < |s.numbers[m]| && s.numbers[m][i] > start
    {
      SinceNonEmptyIff(s.numbers[m], start);
    }
    forall m | m in s.numbers
      ensures forall i :: 0 <= i < |Since(s.numbers[m], start)| ==> start < Since(s.numbers[m], start)[i] <= now
    {
      SinceBounds(s.numbers[m], start, now);
    }
    SinceBounds(s.hourly, now - HOUR, now);
  }

  /** A longer run only adds to the log. */
  lemma {:induction false} LogGrows(limits: Limits, ops: seq<Op>, more: seq<Op>, mobile: string)
    ensures TimesOf(Play(limits, ops).1.admitted, mobile) <= TimesOf(Play(limits, ops + more).1.admitted, mobile)
  {
    if more == [] {
      assert ops + more == ops;
    } else {
      var front, op := more[..|more| - 1], more[|more| - 1];
      LogGrows(limits, ops, front, mobile);
      assert (ops + more)[..|ops + more| - 1] == ops + front;
      var g := Play(limits, ops + front).1;
      if op.Number? {
        TimesOfSnoc(g.admitted, op.mobile, op.at, mobile);
      }
    }
  }

  /** The exact wait a refusal at `now` stands for. */
  function ExactWait(limits: Limits, s: LimiterState, mobile: string, now: Time): Time
    requires CheckNumber(limits, s, mobile, now).1.Refused?
  {
    Retained(limits, s, mobile, now)[0] - (now - limits.window)
  }

  lemma RefusedHistory(log: seq<Time>, width: Time, limit: nat, now: Time)
    requires Ascending(log) && NoneAfter(log, now) && Bounded(log, width, limit)
    requires limit >= 1 && |Since(log, now - width)| >= limit
    ensures var kept := Since(log, now - width);
            && |kept| == limit && Ascending(kept)
            && (forall i :: 0 <= i < |kept| ==> now - width < kept[i] <= now)
  {
    WithinIsSince(log, now - width, now);
    assert |Window(log, width, now)| <= limit;
    SinceAscending(log, now - width, now);
  }

  lemma TruncateBelow(d: Time)
    requires d > 0.0
    ensures Truncate(d) as real <= d < Truncate(d) as real + 1.0
  {
  }

  /** What a refusal says about the history it counted and about the wait it reports. */
  ghost predicate RefusalFacts(limits: Limits, s: LimiterState, log: seq<Time>, mobile: string, now: Time)
    requires CheckNumber(limits, s, mobile, now).1.Refused?
  {
    var kept := Retained(limits, s, mobile, now);
    var d := ExactWait(limits, s, mobile, now);
    var reported := CheckNumber(limits, s, mobile, now).1.wait as real;
    && |kept| == limits.perNumber && Ascending(kept)
    && kept == Since(log, now - limits.window)
    && (forall i :: 0 <= i < |kept| ==> now - limits.window < kept[i] <= now)
    && 0.0 < d <= limits.window
    && reported <= d < reported + 1.0
  }

  lemma RefusalWhileTracking(limits: Limits, s: LimiterState, g: Log, mobile: string, now: Time)
    requires Tracks(limits, s, g, now) && CheckNumber(limits, s, mobile, now).1.Refused?
    ensures RefusalFacts(limits, s, TimesOf(g.admitted, mobile), mobile, now)
  {
    var log := TimesOf(g.admitted, mobile);
    assert Retained(limits, s, mobile, now) == Since(log, now - limits.window);
    RefusedHistory(log, limits.window, limits.perNumber, now);
    TruncateBelow(ExactWait(limits, s, mobile, now));
  }

  /** After any run, a refusal finds a sorted history of exactly the limit's length, and a
      wait inside the window; the reported seconds are the wait truncated. */
  lemma RefusalIsExact(limits: Limits, ops: seq<Op>, mobile: string, now: Time)
    requires Chronological(ops + [Number(mobile, now)])
    requires CheckNumber(limits, Play(limits, ops).0, mobile, now).1.Refused?
    ensures RefusalFacts(limits, Play(limits, ops).0, TimesOf(Play(limits, ops).1.admitted, mobile), mobile, now)
  {
    ChronologicalFront(ops, Number(mobile, now));
    PlayTracks(limits, ops, now);
    RefusalWhileTracking(limits, Play(limits, ops).0, Play(limits, ops).1, mobile, now);
  }

  /** A full window stays full until its first member leaves. */
  lemma WindowStaysFull(log: seq<Time>, more: seq<Time>, start: Time, start': Time)
    requires start <= start'
    requires forall i :: 0 <= i < |Since(log, start)| ==> Since(log, start)[i] > start'
    ensures |Since(log + more, start')| >= |Since(log, start)|
  {
    SinceTwice(log, start, start');
    SinceKeepsAll(Since(log, start), start');
    SincePrefix(log, more, start');
  }

  /** A full window does not empty before its first member leaves. */
  lemma WindowHolds(log: seq<Time>, more: seq<Time>, width: Time, limit: nat, now: Time, later: Time)
    requires NoneAfter(log + more, later) && now <= later
    requires var kept := Since(log, now - width); |kept| == limit >= 1 && Ascending(kept)
    requires later - width < Since(log, now - width)[0]
    ensures |Window(log + more, width, later)| >= limit
  {
    WithinIsSince(log + more, later - width, later);
    WindowStaysFull(log, more, now - width, later - width);
  }

  /** With nothing added, it has room from then on. */
  lemma WindowFreesUp(log: seq<Time>, width: Time, limit: nat, now: Time, later: Time)
    requires NoneAfter(log, later) && now <= later
    requires var kept := Since(log, now - width); |kept| == limit >= 1
    requires later - width >= Since(log, now - width)[0]
    ensures |Window(log, width, later)| < limit
  {
    WithinIsSince(log, later - width, later);
    SinceTwice(log, now - width, later - width);
    SinceDropsHead(Since(log, now - width), later - width);
  }

  /** The verdict at `later`, given the refusal at `now` and the admissions in between. */
  lemma LaterVerdict(limits: Limits, s: LimiterState, g: Log, s': LimiterState, g': Log,
                     mobile: string, now: Time, later: Time)
    requires Tracks(limits, s, g, now) && Tracks(limits, s', g', later) && now <= later
    requires CheckNumber(limits, s, mobile, now).1.Refused?
    requires TimesOf(g.admitted, mobile) <= TimesOf(g'.admitted, mobile)
    ensures var d := ExactWait(limits, s, mobile, now);
            var verdict := CheckNumber(limits, s', mobile, later).1;
            && (later < now + d ==> verdict.Refused?)
            && (later >= now + d && TimesOf(g.admitted, mobile) == TimesOf(g'.admitted, mobile) ==> verdict.Admitted?)
  {
    var log, grown := TimesOf(g.admitted, mobile), TimesOf(g'.admitted, mobile);
    assert grown == log + grown[|log|..];
    RefusalWhileTracking(limits, s, g, mobile, now);
    AnswersMatch(limits, s', g', later, Number(mobile, later));
    if later - limits.window < Since(log, now - limits.window)[0] {
      WindowHolds(log, grown[|log|..], limits.window, limits.perNumber, now, later);
    } else if log == grown {
      WindowFreesUp(log, limits.window, limits.perNumber, now, later);
    }
  }

  /** Until the exact wait is over every check of that number is refused; from then on the
      next one is admitted, whatever other numbers, hourly checks and cleanups came between. */
  lemma WaitIsNecessaryAndSufficient(limits: Limits, ops: seq<Op>, mobile: string, now: Time,
                                     more: seq<Op>, later: Time)
    requires Chronological(ops + [Number(mobile, now)])
    requires CheckNumber(limits, Play(limits, ops).0, mobile, now).1.Refused?
    requires Chronological(ops + more + [Number(mobile, later)]) && now <= later
    ensures var d := ExactWait(limits, Play(limits, ops).0, mobile, now);
            var verdict := CheckNumber(limits, Play(limits, ops + more).0, mobile, later).1;
            && (later < now + d ==> verdict.Refused?)
            && (later >= now + d
                && TimesOf(Play(limits, ops).1.admitted, mobile) == TimesOf(Play(limits, ops + more).1.admitted, mobile)
                ==> verdict.Admitted?)
  {
    ChronologicalFront(ops, Number(mobile, now));
    ChronologicalFront(ops + more, Number(mobile, later));
    var (s, g) := Play(limits, ops);
    var (s', g') := Play(limits, ops + more);
    PlayTracks(limits, ops, now);
    PlayTracks(limits, ops + more, later);
    LogGrows(limits, ops, more, mobile);
    LaterVerdict(limits, s, g, s', g', mobile, now, later);
  }

  lemma TracksLater(limits: Limits, s: LimiterState, g: Log, clock: Time, now: Time)
    requires Tracks(limits, s, g, clock) && clock <= now
    ensures Tracks(limits, s, g, now)
  {
  }

  /** Whether a check made exactly the reported number of seconds later is admitted. */
  ghost predicate ReportedWaitIsEnough(limits: Limits, s: LimiterState, mobile: string, now: Time)
    requires CheckNumber(limits, s, mobile, now).1.Refused?
  {
    CheckNumber(limits, s, mobile, now + CheckNumber(limits, s, mobile, now).1.wait as real).1.Admitted?
  }

  ghost predicate WaitIsWhole(limits: Limits, s: LimiterState, mobile: string, now: Time)
    requires CheckNumber(limits, s, mobile, now).1.Refused?
  {
    ExactWait(limits, s, mobile, now) == CheckNumber(limits, s, mobile, now).1.wait as real
  }

  lemma ReportedWaitWhileTracking(limits: Limits, s: LimiterState, g: Log, mobile: string, now: Time)
    requires Tracks(limits, s, g, now) && CheckNumber(limits, s, mobile, now).1.Refused?
    ensures ReportedWaitIsEnough(limits, s, mobile, now) <==> WaitIsWhole(limits, s, mobile, now)
  {
    var reported := CheckNumber(limits, s, mobile, now).1.wait as real;
    assert reported <= ExactWait(limits, s, mobile, now) < reported + 1.0 && reported >= 0.0 by {
      RefusalWhileTracking(limits, s, g, mobile, now);
    }
    TracksLater(limits, s, g, now, now + reported);
    LaterVerdict(limits, s, g, s, g, mobile, now, now + reported);
  }

  /** Waiting just the reported number of seconds is enough exactly when the wait is whole. */
  lemma ReportedWaitSufficesIffWhole(limits: Limits, ops: seq<Op>, mobile: string, now: Time)
    requires Chronological(ops + [Number(mobile, now)])
    requires CheckNumber(limits, Play(limits, ops).0, mobile, now).1.Refused?
    ensures ReportedWaitIsEnough(limits, Play(limits, ops).0, mobile, now) <==>
            WaitIsWhole(limits, Play(limits, ops).0, mobile, now)
  {
    ChronologicalFront(ops, Number(mobile, now));
    PlayTracks(limits, ops, now);
    ReportedWaitWhileTracking(limits, Play(limits, ops).0, Play(limits, ops).1, mobile, now);
  }

  /** The truncated wait can be too short: a number refused at 10.5 with an admission at 0.0
      is told to wait 589 seconds and is refused again after exactly that long. */
  lemma ReportedWaitCanBeTooShort()
    ensures var limits: Limits := LimitValues(1, 600.0, 20, 500);
            var s := Play(limits, [Number("09", 0.0)]).0;
            && CheckNumber(limits, s, "09", 10.5).1 == Refused(589)
            && CheckNumber(limits, s, "09", 10.5 + 589.0).1.Refused?
  {
    var limits: Limits := LimitValues(1, 600.0, 20, 500);
    var ops := [Number("09", 0.0)];
    assert ops[..0] == [] && [] + [0.0] == [0.0];
    assert Play(limits, []) == (IDLE, EMPTY_LOG);
    assert Play(limits, ops).0 == Perform(limits, IDLE, ops[0]).0;
    assert Perform(limits, IDLE, ops[0]).0.numbers == map["09" := [] + [0.0]];
    assert Play(limits, ops).0.numbers == map["09" := [0.0]];
    SinceSnoc([], 0.0, 10.5 - 600.0);
    SinceSnoc([], 0.0, 599.5 - 600.0);
  }
}
