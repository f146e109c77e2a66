/** The limit per number, for telephone numbers rather than for the keys the limiter counts. */
module PhoneNumbers {
  import opened Prelude
  import opened SlidingWindow
  import opened RateLimiting
  import opened LimiterRuns
  import Routes
  import opened Service
  import opened ServiceRuns
  import opened ServiceTheorems
  import opened Scenarios
  import V = Validation

  /** When calls to a number were admitted, whatever script its digits were typed in. */
  function TimesOfNumber(admitted: seq<Admission>, digits: seq<int>, cc: V.Unicode): seq<Time> {
    if admitted == [] then []
    else
      var before := TimesOfNumber(admitted[..|admitted| - 1], digits, cc);
      var last := admitted[|admitted| - 1];
      if V.DigitValues(last.mobile, cc) == digits then before + [last.at] else before
  }

  /** Calls created, first calls and retries alike, to a number within a window of the limit. */
  ghost function CallsWithin(cfg: Config, w: World, digits: seq<int>, x: Time): nat {
    |Within(TimesOfNumber(AdmissionsOf(w.births), digits, cfg.classes), x - cfg.limits.window, x)|
  }

  lemma {:induction false} NumberIsKey(admitted: seq<Admission>, key: string, digits: seq<int>, cc: V.Unicode)
    requires forall i :: 0 <= i < |admitted| ==>
               (V.DigitValues(admitted[i].mobile, cc) == digits <==> admitted[i].mobile == key)
    ensures TimesOfNumber(admitted, digits, cc) == TimesOf(admitted, key)
  {
    if admitted != [] {
      NumberIsKey(admitted[..|admitted| - 1], key, digits, cc);
    }
  }

  /** With ASCII digits only, the calls to a number are the calls to one key. */
  lemma SomeKey(admitted: seq<Admission>, digits: seq<int>, cc: V.Unicode) returns (key: string)
    requires V.OnlyAscii(cc) && forall i :: 0 <= i < |admitted| ==> V.Canonical(admitted[i].mobile, cc)
    ensures TimesOfNumber(admitted, digits, cc) == TimesOf(admitted, key)
  {
    if k :| 0 <= k < |admitted| && V.DigitValues(admitted[k].mobile, cc) == digits {
      key := admitted[k].mobile;
      forall i | 0 <= i < |admitted| && V.DigitValues(admitted[i].mobile, cc) == digits
        ensures admitted[i].mobile == key
      {
        V.AsciiKeysAreNumbers(admitted[i].mobile, key, cc);
      }
    } else {
      key := "";
    }
    NumberIsKey(admitted, key, digits, cc);
  }

  lemma BoundedInAscii(cfg: Config, w: World, digits: seq<int>, x: Time)
    requires Inv(cfg, w) && V.OnlyAscii(cfg.classes)
    ensures CallsWithin(cfg, w, digits, x) <= cfg.limits.perNumber
  {
    var key := SomeKey(AdmissionsOf(w.births), digits, cfg.classes);
    assert |Window(TimesOf(w.log.admitted, key), cfg.limits.window, x)| <= cfg.limits.perNumber;
  }

  lemma {:induction false} AllInWindow(births: seq<Birth>, digits: seq<int>, cc: V.Unicode, width: Time)
    requires width > 0.0
    requires forall i :: 0 <= i < |births| ==> V.DigitValues(births[i].mobile, cc) == digits && births[i].at == 0.0
    ensures |Within(TimesOfNumber(AdmissionsOf(births), digits, cc), 0.0 - width, 0.0)| == |births|
  {
    if births != [] {
      var front, b := births[..|births| - 1], births[|births| - 1];
      AllInWindow(front, digits, cc, width);
      assert AdmissionsOf(births)[..|births| - 1] == AdmissionsOf(front);
      WithinSnoc(TimesOfNumber(AdmissionsOf(front), digits, cc), b.at, 0.0 - width, 0.0);
    }
  }

  lemma OtherKeyPasses(limits: Limits, s: LimiterState, k: nat, key: string, key': string)
    requires HistoryWithin(s, k, key) && key' != key
    requires s.active < limits.maxConcurrent && k < limits.hourlyLimit
    ensures Routes.Admit(limits, s, key', 0.0).1.Open?
  {
    SinceShrinks(s.hourly, 0.0 - HOUR, 0.0 - HOUR);
    AdmitsWithRoom(limits, s, key', 0.0);
  }

  /** A number used up under one key is called once more under the other, at the same moment. */
  lemma OnceMoreUnderOtherKey(cfg: Config, key: string, key': string) returns (w: World)
    requires cfg.limits.maxConcurrent >= 1 && cfg.limits.hourlyLimit > cfg.limits.perNumber
    requires V.Canonical(key, cfg.classes) && V.Canonical(key', cfg.classes) && key != key'
    requires V.DigitValues(key, cfg.classes) == V.DigitValues(key', cfg.classes)
    ensures Reachable(cfg, w) && |w.births| == cfg.limits.perNumber + 1
    ensures forall i :: 0 <= i < |w.births| ==>
              w.births[i].at == 0.0
              && V.DigitValues(w.births[i].mobile, cfg.classes) == V.DigitValues(key, cfg.classes)
  {
    var full := CallsToOneNumber(cfg, key, cfg.limits.perNumber);
    OtherKeyPasses(cfg.limits, full.limiter, cfg.limits.perNumber, key, key');
    w := OneMore(cfg, full, cfg.limits.perNumber, key', 0.0);
  }

  ghost predicate LimitPerNumberHolds(cfg: Config) {
    forall w: World, digits, x: Time :: Reachable(cfg, w) ==> CallsWithin(cfg, w, digits, x) <= cfg.limits.perNumber
  }

  lemma OverLimit(cfg: Config, w: World, digits: seq<int>)
    requires cfg.limits.window > 0.0 && |w.births| == cfg.limits.perNumber + 1
    requires forall i :: 0 <= i < |w.births| ==>
               w.births[i].at == 0.0 && V.DigitValues(w.births[i].mobile, cfg.classes) == digits
    ensures CallsWithin(cfg, w, digits, 0.0) > cfg.limits.perNumber
  {
    AllInWindow(w.births, digits, cfg.classes, cfg.limits.window);
  }

  lemma LimitFails(cfg: Config, c: char) returns (w: World, digits: seq<int>)
    requires cfg.limits.maxConcurrent >= 1 && cfg.limits.hourlyLimit > cfg.limits.perNumber && cfg.limits.window > 0.0
    requires cfg.classes.decimal(c) && !('0' <= c <= '9')
    ensures Reachable(cfg, w) && CallsWithin(cfg, w, digits, 0.0) > cfg.limits.perNumber
  {
    V.TwoKeys(c, cfg.classes);
    var key, key' := V.Uniform(c), V.Uniform(V.AsciiDigit(cfg.classes.value(c)));
    digits := V.DigitValues(key, cfg.classes);
    w := OnceMoreUnderOtherKey(cfg, key, key');
    OverLimit(cfg, w, digits);
  }

  /** The documented limit on calls to a number, over every window of every state the service can
      reach, holds if and only if no decimal outside ASCII is accepted as a digit: with one that is,
      the same number has a second history. */
  lemma LimitPerNumberHoldsIff(cfg: Config)
    requires cfg.limits.maxConcurrent >= 1 && cfg.limits.hourlyLimit > cfg.limits.perNumber && cfg.limits.window > 0.0
    ensures LimitPerNumberHolds(cfg) <==> V.OnlyAscii(cfg.classes)
  {
    if V.OnlyAscii(cfg.classes) {
      forall w: World, digits, x: Time | Reachable(cfg, w)
        ensures CallsWithin(cfg, w, digits, x) <= cfg.limits.perNumber
      {
        ReachableInv(cfg, w);
        BoundedInAscii(cfg, w, digits, x);
      }
    } else {
      var c :| cfg.classes.decimal(c) && !('0' <= c <= '9');
      var w, digits := LimitFails(cfg, c);
    }
  }
}
