/** Times of a recurring schedule and the occurrence ids made from them (internal/worker/schedule_watch.go,
    internal/events/schedule_projection.go). */
module ScheduleTimes {
  import opened Options
  import opened Decimal

  /** Nanoseconds after Go's zero time (year 1), which is 0. */
  type Time = int

  const SECOND := 1_000_000_000
  const UNIX_EPOCH := 62_135_596_800
  const MAX_SKIPPED := 25

  /** Seconds after the zero time, rounded down. */
  function Second(t: Time): int {
    t / SECOND
  }

  /** Two's-complement wrap-around of a 64-bit integer. */
  function Wrap(n: int): (r: int)
    ensures InInt64(r)
  {
    (n + INT64_BOUND) % (2 * INT64_BOUND) - INT64_BOUND
  }

  /** Go keeps a time's seconds in a 64-bit integer. */
  predicate Representable(t: Time) {
    InInt64(Second(t))
  }

  function Unix(t: Time): int {
    Wrap(Second(t) - UNIX_EPOCH)
  }

  function FromUnix(n: int): Time {
    Wrap(n + UNIX_EPOCH) * SECOND
  }

  function OccurrenceId(scheduleId: string, expected: Time): string {
    scheduleId + ":" + Print(Unix(expected))
  }

  function LastColon(id: string): (i: int)
    ensures -1 <= i < |id|
  {
    if id == "" then -1 else if id[|id| - 1] == ':' then |id| - 1 else LastColon(id[..|id| - 1])
  }

  function ExpectedFromOccurrenceId(id: string): Option<Time> {
    var i := LastColon(id);
    if i < 0 then None
    else
      match ParseInt(id[i + 1..])
      case None => None
      case Some(n) => Some(FromUnix(n))
  }

  lemma {:induction false} LastColonAt(head: string, tail: string)
    requires ':' !in tail
    ensures LastColon(head + ":" + tail) == |head|
  {
    var id := head + ":" + tail;
    if tail != "" {
      var short := tail[..|tail| - 1];
      LastColonAt(head, short);
      assert id[..|id| - 1] == head + ":" + short;
    }
  }

  lemma WrapUndoes(n: int)
    requires InInt64(n)
    ensures Wrap(Wrap(n - UNIX_EPOCH) + UNIX_EPOCH) == n
  {
    if n - UNIX_EPOCH < -INT64_BOUND {
      assert Wrap(n - UNIX_EPOCH) == n - UNIX_EPOCH + 2 * INT64_BOUND;
    } else {
      assert Wrap(n - UNIX_EPOCH) == n - UNIX_EPOCH;
    }
  }

  lemma IdParts(scheduleId: string, t: Time)
    ensures LastColon(OccurrenceId(scheduleId, t)) == |scheduleId|
    ensures OccurrenceId(scheduleId, t)[..|scheduleId|] == scheduleId
    ensures OccurrenceId(scheduleId, t)[|scheduleId| + 1..] == Print(Unix(t))
  {
    PrintHasNo(Unix(t), ':');
    LastColonAt(scheduleId, Print(Unix(t)));
  }

  lemma UnixRoundTrip(t: Time)
    requires Representable(t)
    ensures FromUnix(Unix(t)) == Second(t) * SECOND
  {
    WrapUndoes(Second(t));
  }

  /** expectedFromOccurrenceID undoes occurrenceID to the second, for every schedule id, colons included. */
  lemma OccurrenceIdRoundTrip(scheduleId: string, t: Time)
    requires Representable(t)
    ensures ExpectedFromOccurrenceId(OccurrenceId(scheduleId, t)) == Some(Second(t) * SECOND)
    ensures Second(t) * SECOND <= t < (Second(t) + 1) * SECOND
  {
    IdParts(scheduleId, t);
    ParsePrint(Unix(t));
    UnixRoundTrip(t);
  }

  /** Two occurrences share an id exactly when they belong to one schedule and fall in one second. */
  lemma OccurrenceIdInjective(a: string, s: Time, b: string, t: Time)
    requires Representable(s) && Representable(t)
    ensures OccurrenceId(a, s) == OccurrenceId(b, t) <==> a == b && Second(s) == Second(t)
  {
    if OccurrenceId(a, s) == OccurrenceId(b, t) {
      IdParts(a, s);
      IdParts(b, t);
      SameSecond(a, s, b, t);
    }
  }

  lemma SameSecond(a: string, s: Time, b: string, t: Time)
    requires Representable(s) && Representable(t) && OccurrenceId(a, s) == OccurrenceId(b, t)
    ensures Second(s) == Second(t)
  {
    OccurrenceIdRoundTrip(a, s);
    OccurrenceIdRoundTrip(b, t);
    ScaledEqual(Second(s), Second(t));
  }

  lemma ScaledEqual(m: int, n: int)
    requires m * SECOND == n * SECOND
    ensures m == n
  {
  }

  function SkippedCount(expected: Time, now: Time, interval: int): nat {
    if interval <= 0 || now <= expected then 0 else (now - expected) / interval
  }

  /** How many of them are recorded. */
  function RecordedSkips(expected: Time, now: Time, interval: int, max: nat): nat {
    var n := SkippedCount(expected, now, interval);
    if n > max then max else n
  }

  /** skippedOccurrences: exactly the first `max` times expected + k * interval, k >= 1, that came due by now. */
  method SkippedOccurrences(expected: Time, now: Time, interval: int, max: nat) returns (out: seq<Time>)
    ensures |out| == RecordedSkips(expected, now, interval, max) <= max
    ensures interval <= 0 ==> out == []
    ensures forall k :: 0 <= k < |out| ==> out[k] == expected + (k + 1) * interval && out[k] <= now
    ensures interval > 0 && |out| < max ==> expected + (|out| + 1) * interval > now
  {
    var n := SkippedCount(expected, now, interval);
    if interval > 0 {
      CountIsExact(expected, now, interval);
    }
    if n > max {
      n := max;
    }
    out := [];
    for k := 1 to n + 1
      invariant |out| == k - 1
      invariant forall j :: 0 <= j < |out| ==> out[j] == expected + (j + 1) * interval && out[j] <= now
    {
      DueByNow(expected, now, interval, k);
      out := out + [expected + k * interval];
    }
  }

  /** The count is right: that many occurrences came due after expected and no later than now, and no more. */
  lemma CountIsExact(expected: Time, now: Time, interval: int)
    requires interval > 0
    ensures var n := SkippedCount(expected, now, interval);
            (n > 0 ==> expected + n * interval <= now) && expected + (n + 1) * interval > now
  {
    if now > expected {
      var d := now - expected;
      assert d == (d / interval) * interval + d % interval;
    }
  }

  lemma DueByNow(expected: Time, now: Time, interval: int, k: nat)
    requires interval > 0 && 1 <= k <= SkippedCount(expected, now, interval)
    ensures expected + k * interval <= now
  {
    CountIsExact(expected, now, interval);
    var n := SkippedCount(expected, now, interval);
    assert k * interval <= n * interval;
  }

  /** Whole days from the first of January of the year 1 to that of a later one, in the Gregorian calendar. */
  function DaysBefore(year: nat): int
    requires year >= 1
  {
    var y := year - 1;
    365 * y + y / 4 - y / 100 + y / 400
  }

  /** The number in an occurrence id is the seconds since the first of January 1970. */
  lemma IdCountsFrom1970(scheduleId: string, t: Time)
    requires InInt64(Second(t) - DaysBefore(1970) * 24 * 60 * 60)
    ensures OccurrenceId(scheduleId, t) == scheduleId + ":" + Print(t / 1_000_000_000 - DaysBefore(1970) * 24 * 60 * 60)
  {
    EpochIs1970();
    WrapKeeps(Second(t) - UNIX_EPOCH);
  }

  lemma EpochIs1970()
    ensures UNIX_EPOCH == DaysBefore(1970) * 24 * 60 * 60
  {
    assert DaysBefore(1970) == 719_162;
  }

  lemma WrapKeeps(n: int)
    requires InInt64(n)
    ensures Wrap(n) == n
  {
  }
}
