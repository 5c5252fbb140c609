/** Recurrence in UTC (internal/autonomy/model.go) and missed runs
    (internal/autonomy/scheduler.go). */
module Recurrences {
  import opened Text
  import opened Receipts

  const DAY: Time := 86_400_000_000_000

  datatype Frequency = Once | Daily | Weekly

  /** `weekday` 0 is Sunday; an `end` of zero means none. */
  datatype Recurrence = Recurrence(frequency: Frequency, start: Time, end: Time, weekday: int)

  predicate ValidRecurrence(r: Recurrence) {
    && r.start != 0
    && (r.end != 0 ==> r.end > r.start)
    && (r.frequency == Weekly ==> 0 <= r.weekday <= 6)
  }

  /** 1 January of year 1, where instants start counting, was a Monday. */
  function Weekday(t: Time): int { (t / DAY + 1) % 7 }

  /** The instants a recurrence names, whether or not they precede its end. */
  predicate Matches(r: Recurrence, t: Time) {
    && t >= r.start && (t - r.start) % DAY == 0
    && (r.frequency == Once ==> t == r.start)
    && (r.frequency == Weekly ==> Weekday(t) == r.weekday)
  }

  predicate Named(r: Recurrence, t: Time) { Matches(r, t) && (r.end != 0 ==> t < r.end) }

  // ---------------------------------------------------------------- days

  lemma DayAfter(t: Time)
    ensures (t + DAY) / DAY == t / DAY + 1
    ensures Weekday(t + DAY) == (Weekday(t) + 1) % 7
  {
  }

  /** Days until the weekday comes round. */
  function DaysUntil(t: Time, weekday: int): nat { (weekday - Weekday(t)) % 7 }

  lemma OneDayCloser(t: Time, weekday: int)
    requires 0 <= weekday <= 6 && Weekday(t) != weekday
    ensures DaysUntil(t + DAY, weekday) == DaysUntil(t, weekday) - 1
  {
    DayAfter(t);
  }

  /** Between two consecutive multiples of a day from the start there is none. */
  lemma NothingBetween(start: Time, t: Time, u: Time)
    requires (t - start) % DAY == 0 && (u - start) % DAY == 0 && t < u
    ensures t + DAY <= u
  {
    var a, b := (t - start) / DAY, (u - start) / DAY;
    assert t - start == DAY * a && u - start == DAY * b;
    assert a < b;
  }

  lemma NextMultiple(start: Time, t: Time)
    requires (t - start) % DAY == 0
    ensures (t + DAY - start) % DAY == 0
  {
  }

  // ---------------------------------------------------------------- Next

  method NextDaily(r: Recurrence, after: Time) returns (next: Time)
    requires r.frequency == Daily
    ensures Matches(r, next) && next > after
    ensures forall t | Matches(r, t) && t > after :: next <= t
  {
    next := r.start;
    while next <= after
      invariant Matches(r, next)
      invariant forall t | Matches(r, t) && t > after :: next <= t
      decreases after - next
    {
      forall t | Matches(r, t) && t > after ensures next + DAY <= t {
        NothingBetween(r.start, next, t);
      }
      NextMultiple(r.start, next);
      next := next + DAY;
    }
  }

  method NextWeekly(r: Recurrence, after: Time) returns (next: Time)
    requires r.frequency == Weekly && 0 <= r.weekday <= 6
    ensures Matches(r, next) && next > after
    ensures forall t | Matches(r, t) && t > after :: next <= t
  {
    next := r.start;
    while next <= after || Weekday(next) != r.weekday
      invariant next >= r.start && (next - r.start) % DAY == 0
      invariant forall t | Matches(r, t) && t > after :: next <= t
      decreases if next <= after then after - next + 1 else 0, DaysUntil(next, r.weekday)
    {
      forall t | Matches(r, t) && t > after ensures next + DAY <= t {
        assert next != t;
        NothingBetween(r.start, next, t);
      }
      NextMultiple(r.start, next);
      if next > after {
        OneDayCloser(next, r.weekday);
      }
      next := next + DAY;
    }
  }

  /** The least named instant strictly after the given one, if there is any. */
  ghost predicate IsNext(r: Recurrence, after: Time, next: Option<Time>) {
    match next
    case Some(n) => Named(r, n) && n > after && forall t | Named(r, t) && t > after :: n <= t
    case None => forall t | t > after :: !Named(r, t)
  }

  method Next(r: Recurrence, after: Time) returns (next: Option<Time>)
    ensures !ValidRecurrence(r) ==> next.None?
    ensures next.Some? ==> Named(r, next.value) && next.value > after
    ensures ValidRecurrence(r) && (r.start > 0 || after >= 0) ==> IsNext(r, after, next)
  {
    if !ValidRecurrence(r) {
      return None;
    }
    var candidate: Time;
    match r.frequency {
      case Once =>
        if after >= r.start {
          return None;
        }
        candidate := r.start;
      case Daily => candidate := NextDaily(r, after);
      case Weekly => candidate := NextWeekly(r, after);
    }
    if candidate == 0 || (r.end != 0 && candidate >= r.end) {
      return None;
    }
    return Some(candidate);
  }

  // ---------------------------------------------------------------- missed runs

  datatype MissedPolicy = Skip | RunLatest

  ghost function DueInstants(r: Recurrence, from: Time, now: Time): set<Time> {
    set t: Time | from <= t <= now && Named(r, t)
  }

  lemma DueGrows(r: Recurrence, from: Time, cursor: Time, next: Time)
    requires from <= next && cursor < next && Named(r, next)
    requires forall t | Named(r, t) && t > cursor :: next <= t
    ensures DueInstants(r, from, next) == DueInstants(r, from, cursor) + {next}
    ensures |DueInstants(r, from, next)| == |DueInstants(r, from, cursor)| + 1
  {
  }

  lemma DuePart(r: Recurrence, from: Time, x: Time, now: Time)
    requires x <= now
    ensures DueInstants(r, from, x) <= DueInstants(r, from, now)
    ensures |DueInstants(r, from, x)| <= |DueInstants(r, from, now)|
    ensures |DueInstants(r, from, x)| == |DueInstants(r, from, now)| ==> DueInstants(r, from, x) == DueInstants(r, from,
                                                                                                                now)
  {
    var part, all := DueInstants(r, from, x), DueInstants(r, from, now);
    SubsetSize(part, all);
  }

  lemma LatestIff(r: Recurrence, from: Time, x: Time, now: Time)
    requires x <= now
    ensures (forall t | t in DueInstants(r, from, now) :: t <= x) <==>
            |DueInstants(r, from, now)| <= |DueInstants(r, from, x)|
    ensures |DueInstants(r, from, x)| <= |DueInstants(r, from, now)|
  {
    DuePart(r, from, x, now);
    if forall t | t in DueInstants(r, from, now) :: t <= x {
      assert DueInstants(r, from, now) == DueInstants(r, from, x);
    }
  }

  lemma SubsetSize<T>(part: set<T>, all: set<T>)
    requires part <= all
    ensures |part| <= |all| && (|part| == |all| ==> part == all)
  {
    assert all == part + (all - part);
    assert |all| == |part| + |all - part|;
  }

  /** MissedInstants. RUN_LATEST yields a due instant exactly when there is one; it is the
      latest exactly when at most `max` are due, and otherwise the max-th. */
  method MissedInstant(r: Recurrence, policy: MissedPolicy, from: Time, now: Time, max: int)
    returns (ok: bool, instant: Option<Time>)
    ensures ok <==> ValidRecurrence(r) && max >= 1
    ensures !ok || policy == Skip ==> instant.None?
    ensures ok && policy == RunLatest && from > 0 ==> (instant.None? <==> DueInstants(r, from, now) == {})
    ensures ok && policy == RunLatest && from > 0 && instant.Some? ==>
              var due, x := DueInstants(r, from, now), instant.value;
              && x in due
              && ((forall t | t in due :: t <= x) <==> |due| <= max)
              && (|due| > max ==> |DueInstants(r, from, x)| == max)
  {
    if !ValidRecurrence(r) || max < 1 {
      return false, None;
    }
    if policy == Skip {
      return true, None;
    }
    var result: seq<Time> := [];
    var cursor := from - 1;
    var exhausted := false;
    while |result| < max && !exhausted
      invariant from > 0 ==> |result| == |DueInstants(r, from, cursor)|
      invariant exhausted && from > 0 ==> forall t | t in DueInstants(r, from, now) :: t <= cursor
      invariant |result| <= max && cursor >= from - 1
      invariant result == [] ==> cursor == from - 1
      invariant result != [] ==> result[|result| - 1] == cursor
      invariant from > 0 && result != [] ==> cursor in DueInstants(r, from, now)
      decreases max - |result|, if exhausted then 0 else 1
    {
      var next := Next(r, cursor);
      if next.None? || next.value > now {
        exhausted := true;
      } else {
        if from > 0 {
          DueGrows(r, from, cursor, next.value);
        }
        result := result + [next.value];
        cursor := next.value;
      }
    }
    if result == [] {
      return true, None;
    }
    if from > 0 {
      LatestIff(r, from, cursor, now);
    }
    return true, Some(result[|result| - 1]);
  }
}
