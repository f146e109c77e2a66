/** Timestamp lists filtered by a half-open time window. */
module SlidingWindow {
  import opened Prelude

  /** `[t for t in ts if t > cutoff]`. */
  function Since(ts: seq<Time>, cutoff: Time): seq<Time> {
    if ts == [] then []
    else
      var kept := Since(ts[..|ts| - 1], cutoff);
      if ts[|ts| - 1] > cutoff then kept + [ts[|ts| - 1]] else kept
  }

  /** The members of `ts` in the half-open interval (lo, hi]. */
  function Within(ts: seq<Time>, lo: Time, hi: Time): seq<Time> {
    if ts == [] then []
    else
      var kept := Within(ts[..|ts| - 1], lo, hi);
      var t := ts[|ts| - 1];
      if lo < t <= hi then kept + [t] else kept
  }

  /** The sliding window of the given width that ends at `x`. */
  function Window(ts: seq<Time>, width: Time, x: Time): seq<Time> {
    Within(ts, x - width, x)
  }

  /** No window of this width, ending at any moment whatever, holds more than the limit. */
  ghost predicate Bounded(ts: seq<Time>, width: Time, limit: nat) {
    forall x :: |Window(ts, width, x)| <= limit
  }

  ghost predicate Ascending(ts: seq<Time>) {
    forall i, j :: 0 <= i < j < |ts| ==> ts[i] <= ts[j]
  }

  ghost predicate NoneAfter(ts: seq<Time>, now: Time) {
    forall i :: 0 <= i < |ts| ==> ts[i] <= now
  }

  lemma SinceSnoc(ts: seq<Time>, t: Time, cutoff: Time)
    ensures Since(ts + [t], cutoff) == if t > cutoff then Since(ts, cutoff) + [t] else Since(ts, cutoff)
  {
    assert (ts + [t])[..|ts|] == ts;
  }

  lemma WithinSnoc(ts: seq<Time>, t: Time, lo: Time, hi: Time)
    ensures Within(ts + [t], lo, hi) == if lo < t <= hi then Within(ts, lo, hi) + [t] else Within(ts, lo, hi)
  {
    assert (ts + [t])[..|ts|] == ts;
  }

  /** Filtering keeps exactly the members after the cutoff, each as often as before. */
  lemma {:induction false} SinceKeepsExactly(ts: seq<Time>, cutoff: Time, t: Time)
    ensures multiset(Since(ts, cutoff))[t] == if t > cutoff then multiset(ts)[t] else 0
  {
    if ts != [] {
      SinceKeepsExactly(ts[..|ts| - 1], cutoff, t);
      assert ts == ts[..|ts| - 1] + [ts[|ts| - 1]];
    }
  }

  /** Pruning first and filtering later is the same as filtering the whole list. */
  lemma {:induction false} SinceTwice(ts: seq<Time>, early: Time, late: Time)
    requires early <= late
    ensures Since(Since(ts, early), late) == Since(ts, late)
  {
    if ts != [] {
      var front, t := ts[..|ts| - 1], ts[|ts| - 1];
      SinceTwice(front, early, late);
      SinceSnoc(Since(front, early), t, late);
    }
  }

  lemma {:induction false} SinceShrinks(ts: seq<Time>, early: Time, late: Time)
    requires early <= late
    ensures |Since(ts, late)| <= |Since(ts, early)| <= |ts|
  {
    if ts != [] {
      SinceShrinks(ts[..|ts| - 1], early, late);
    }
  }

  /** Filtering keeps only members after the cutoff, and none after the latest. */
  lemma {:induction false} SinceBounds(ts: seq<Time>, cutoff: Time, now: Time)
    requires NoneAfter(ts, now)
    ensures forall i :: 0 <= i < |Since(ts, cutoff)| ==> cutoff < Since(ts, cutoff)[i] <= now
  {
    if ts != [] {
      SinceBounds(ts[..|ts| - 1], cutoff, now);
    }
  }

  /** Filtering keeps the order of a time-sorted list, and only late members. */
  lemma {:induction false} SinceAscending(ts: seq<Time>, cutoff: Time, now: Time)
    requires Ascending(ts) && NoneAfter(ts, now)
    ensures Ascending(Since(ts, cutoff)) && NoneAfter(Since(ts, cutoff), now)
    ensures forall i :: 0 <= i < |Since(ts, cutoff)| ==> Since(ts, cutoff)[i] > cutoff
  {
    if ts != [] {
      var front, t := ts[..|ts| - 1], ts[|ts| - 1];
      SinceAscending(front, cutoff, t);
    }
  }

  lemma {:induction false} SinceKeepsAll(ts: seq<Time>, cutoff: Time)
    requires forall i :: 0 <= i < |ts| ==> ts[i] > cutoff
    ensures Since(ts, cutoff) == ts
  {
    if ts != [] {
      SinceKeepsAll(ts[..|ts| - 1], cutoff);
    }
  }

  lemma {:induction false} SinceNonEmptyIff(ts: seq<Time>, cutoff: Time)
    ensures Since(ts, cutoff) != [] <==> exists i :: 0 <= i < |ts| && ts[i] > cutoff
  {
    if ts != [] {
      var front, t := ts[..|ts| - 1], ts[|ts| - 1];
      SinceNonEmptyIff(front, cutoff);
      assert forall i :: 0 <= i < |front| ==> ts[i] == front[i];
    }
  }

  lemma {:induction false} SinceNothing(ts: seq<Time>, cutoff: Time)
    requires NoneAfter(ts, cutoff)
    ensures Since(ts, cutoff) == []
  {
    if ts != [] {
      SinceNothing(ts[..|ts| - 1], cutoff);
    }
  }

  /** A cutoff at or past the first member costs the list at least that member. */
  lemma {:induction false} SinceDropsHead(ts: seq<Time>, cutoff: Time)
    requires ts != [] && ts[0] <= cutoff
    ensures |Since(ts, cutoff)| < |ts|
  {
    if |ts| > 1 {
      SinceDropsHead(ts[..|ts| - 1], cutoff);
    }
  }

  lemma {:induction false} SincePrefix(ts: seq<Time>, more: seq<Time>, cutoff: Time)
    ensures |Since(ts, cutoff)| <= |Since(ts + more, cutoff)|
  {
    if more == [] {
      assert ts + more == ts;
    } else {
      var front, t := more[..|more| - 1], more[|more| - 1];
      SincePrefix(ts, front, cutoff);
      SinceSnoc(ts + front, t, cutoff);
      assert ts + more == (ts + front) + [t];
    }
  }

  /** Looking back from a moment no member is later than, the window is a plain cutoff. */
  lemma {:induction false} WithinIsSince(ts: seq<Time>, lo: Time, hi: Time)
    requires NoneAfter(ts, hi)
    ensures Within(ts, lo, hi) == Since(ts, lo)
  {
    if ts != [] {
      WithinIsSince(ts[..|ts| - 1], lo, hi);
    }
  }
}
