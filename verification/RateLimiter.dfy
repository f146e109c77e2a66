/** The three-layer rate limiter: per-number window, hourly window, call slots. */
module RateLimiting {
  import opened Prelude
  import opened SlidingWindow

  datatype LimitValues = LimitValues(perNumber: nat, window: Time, maxConcurrent: nat, hourlyLimit: nat)

  /** With `perNumber == 0` the refusal path would read the head of an empty list. */
  type Limits = l: LimitValues | l.perNumber >= 1 witness LimitValues(3, 600.0, 20, 500)

  const HOUR: Time := 3600.0

  datatype LimiterState = LimiterState(numbers: map<string, seq<Time>>, hourly: seq<Time>, active: nat)

  const IDLE := LimiterState(map[], [], 0)

  /** The answer to a per-number check; a refusal reports a wait in whole seconds. */
  datatype Verdict = Admitted | Refused(wait: int)

  function HistoryOf(s: LimiterState, mobile: string): seq<Time> {
    if mobile in s.numbers then s.numbers[mobile] else []
  }

  /** The history a check at `now` counts. */
  function Retained(limits: Limits, s: LimiterState, mobile: string, now: Time): seq<Time> {
    Since(HistoryOf(s, mobile), now - limits.window)
  }

  /** A refusal does not write the pruned history back. */
  function CheckNumber(limits: Limits, s: LimiterState, mobile: string, now: Time): (LimiterState, Verdict) {
    var history := Retained(limits, s, mobile, now);
    if |history| >= limits.perNumber then
      (s, Refused(Truncate(history[0] - (now - limits.window))))
    else
      (s.(numbers := s.numbers[mobile := history + [now]]), Admitted)
  }

  /** A refusal does write the pruned list back. */
  function CheckHourly(limits: Limits, s: LimiterState, now: Time): (LimiterState, bool) {
    var recent := Since(s.hourly, now - HOUR);
    if |recent| >= limits.hourlyLimit then (s.(hourly := recent), false)
    else (s.(hourly := recent + [now]), true)
  }

  function Cleaned(limits: Limits, s: LimiterState, now: Time): LimiterState {
    var start := now - limits.window;
    s.(numbers := map m | m in s.numbers && Since(s.numbers[m], start) != [] :: Since(s.numbers[m], start),
       hourly := Since(s.hourly, now - HOUR))
  }

  /** Cleanup keeps the pruned histories that are not empty, and prunes the hourly list. */
  lemma CleanedIs(limits: Limits, s: LimiterState, now: Time, m: string)
    ensures var s' := Cleaned(limits, s, now);
            && (m in s'.numbers <==> m in s.numbers && Since(s.numbers[m], now - limits.window) != [])
            && (m in s'.numbers ==> s'.numbers[m] == Since(s.numbers[m], now - limits.window))
            && s'.hourly == Since(s.hourly, now - 3600.0) && s'.active == s.active
  {
  }

  predicate HasCapacity(limits: Limits, s: LimiterState) {
    s.active < limits.maxConcurrent
  }

  function Released(s: LimiterState): LimiterState {
    if s.active > 0 then s.(active := s.active - 1) else s
  }

  function Available(limits: Limits, s: LimiterState): nat {
    if s.active <= limits.maxConcurrent then limits.maxConcurrent - s.active else 0
  }

  class RateLimiter {
    const limits: Limits
    var numberHistory: map<string, seq<Time>>
    var hourlyCalls: seq<Time>
    var activeCount: nat

    function State(): LimiterState
      reads this
    {
      LimiterState(numberHistory, hourlyCalls, activeCount)
    }

    constructor (limits: Limits)
      ensures this.limits == limits && State() == IDLE
    {
      this.limits := limits;
      numberHistory, hourlyCalls, activeCount := map[], [], 0;
    }

    method CheckNumberLimit(mobile: string, now: Time) returns (v: Verdict)
      modifies this`numberHistory
      ensures (State(), v) == CheckNumber(limits, old(State()), mobile, now)
      ensures var kept := Since(if mobile in old(numberHistory) then old(numberHistory)[mobile] else [],
                                now - limits.window);
              && (v.Refused? <==> |kept| >= limits.perNumber)
              && (v.Refused? ==> v.wait == Truncate(kept[0] - (now - limits.window)))
              && numberHistory == (if v.Refused? then old(numberHistory)
                                   else old(numberHistory)[mobile := kept + [now]])
    {
      var windowStart := now - limits.window;
      var history := if mobile in numberHistory then numberHistory[mobile] else [];
      history := Since(history, windowStart);
      if |history| >= limits.perNumber {
        return Refused(Truncate(history[0] - windowStart));
      }
      history := history + [now];
      numberHistory := numberHistory[mobile := history];
      return Admitted;
    }

    method CheckHourlyLimit(now: Time) returns (ok: bool)
      modifies this`hourlyCalls
      ensures (State(), ok) == CheckHourly(limits, old(State()), now)
      ensures var recent := Since(old(hourlyCalls), now - 3600.0);
              && (ok <==> |recent| < limits.hourlyLimit)
              && hourlyCalls == if ok then recent + [now] else recent
    {
      hourlyCalls := Since(hourlyCalls, now - HOUR);
      if |hourlyCalls| >= limits.hourlyLimit {
        return false;
      }
      hourlyCalls := hourlyCalls + [now];
      return true;
    }

    method CheckConcurrentCapacity() returns (ok: bool)
      ensures ok == HasCapacity(limits, State())
      ensures ok <==> activeCount < limits.maxConcurrent
    {
      ok := !(activeCount >= limits.maxConcurrent);
    }

    method AcquireSlot()
      modifies this`activeCount
      ensures State() == old(State()).(active := old(activeCount) + 1)
    {
      activeCount := activeCount + 1;
    }

    method ReleaseSlot()
      modifies this`activeCount
      ensures State() == Released(old(State()))
      ensures activeCount == if old(activeCount) == 0 then 0 else old(activeCount) - 1
    {
      if activeCount > 0 {
        activeCount := activeCount - 1;
      }
    }

    method AvailableChannels() returns (n: nat)
      ensures n == Available(limits, State())
      ensures activeCount <= limits.maxConcurrent ==> activeCount + n == limits.maxConcurrent
      ensures activeCount > limits.maxConcurrent ==> n == 0
    {
      var free := limits.maxConcurrent - activeCount;
      n := if free > 0 then free else 0;
    }

    /** The loop visits the keys in an arbitrary order, deleting emptied histories. */
    method Cleanup(now: Time)
      modifies this`numberHistory, this`hourlyCalls
      ensures State() == Cleaned(limits, old(State()), now)
    {
      var windowStart := now - limits.window;
      var keys := numberHistory.Keys;
      ghost var before := numberHistory;
      while keys != {}
        invariant keys <= before.Keys && keys <= numberHistory.Keys <= before.Keys
        invariant forall m :: m in keys ==> numberHistory[m] == before[m]
        invariant forall m :: m in before && m !in keys ==>
                    (m in numberHistory <==> Since(before[m], windowStart) != [])
        invariant forall m :: m in numberHistory && m !in keys ==>
                    numberHistory[m] == Since(before[m], windowStart)
        invariant hourlyCalls == old(hourlyCalls)
        decreases |keys|
      {
        var mobile :| mobile in keys;
        var history := Since(numberHistory[mobile], windowStart);
        if history != [] {
          numberHistory := numberHistory[mobile := history];
        } else {
          numberHistory := map m | m in numberHistory && m != mobile :: numberHistory[m];
        }
        keys := keys - {mobile};
      }
      hourlyCalls := Since(hourlyCalls, now - HOUR);
    }
  }
}
