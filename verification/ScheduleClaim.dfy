/** internal/worker/scheduler.go, fireSchedule: any number of scheduler instances, each with its own clock and stale
    reads, claim the occurrences of one recurring schedule by compare-and-set on next_run_at. */
module ScheduleClaim {
  import opened Options
  import opened ScheduleTimes

  type Run = nat

  /** What an instance read from the schedule row, and when, by its own clock. */
  datatype Snapshot = Snapshot(expected: Time, interval: int, readAt: Time)

  datatype Instance =
    | Idle
    | Holding(snapshot: Snapshot)
    | Announcing(claim: nat, next: nat)

  /** A won claim: the occurrence, the winner's clock, the interval it had read and the run it created, if any. */
  datatype Claim = Claim(expected: Time, now: Time, interval: int, run: Option<Run>)

  datatype Notice = Due(at: Time) | Created(at: Time, run: Run) | Skipped(at: Time) | Started(at: Time, run: Run)

  /** A logged event. The last two fields say which notice of which claim it is. */
  datatype Entry = Entry(notice: Notice, claim: nat, index: nat)

  datatype State = State(nextRunAt: Time, instances: map<nat, Instance>, claims: seq<Claim>, log: seq<Entry>)

  /** The database keeps microseconds. */
  const MICRO := 1000

  function Stored(t: Time): Time {
    t - t % MICRO
  }

  function Init(firstRunAt: Time): State {
    State(Stored(firstRunAt), map[], [], [])
  }

  function InstanceAt(s: State, i: nat): Instance {
    if i in s.instances then s.instances[i] else Idle
  }

  /** The value a claim writes into next_run_at. */
  function NextOf(c: Claim): Time {
    Stored(c.now + c.interval)
  }

  function Skips(c: Claim): nat {
    RecordedSkips(c.expected, c.now, c.interval, MAX_SKIPPED)
  }

  function SkippedAt(c: Claim, k: nat): Time {
    c.expected + k * c.interval
  }

  /** The events of one claim in the order they are logged: due, created, and one per recorded skip. */
  function Notices(c: Claim): seq<Notice> {
    [Due(c.expected)]
    + (if c.run.Some? then [Created(c.expected, c.run.value)] else [])
    + seq(Skips(c), k requires 0 <= k < Skips(c) => Skipped(SkippedAt(c, k + 1)))
  }

  datatype Step =
    | Read(instance: nat, intervalSeconds: nat, now: Time)
    | Fire(instance: nat, now: Time, run: Option<Run>)
    | Announce(instance: nat)
    | Crash(instance: nat)
    | RunStarts(claim: nat)

  /** A step that is not possible in a state leaves it as it is. */
  function Apply(s: State, step: Step): State {
    match step
    case Read(i, intervalSeconds, now) =>
      if InstanceAt(s, i) == Idle && s.nextRunAt <= now && intervalSeconds >= 1 then
        s.(instances := s.instances[i := Holding(Snapshot(s.nextRunAt, intervalSeconds * SECOND, now))])
      else s
    case Fire(i, now, run) =>
      var at := InstanceAt(s, i);
      if at.Holding? && at.snapshot.readAt <= now then
        var c := Claim(at.snapshot.expected, now, at.snapshot.interval, run);
        if s.nextRunAt == c.expected then
          s.(nextRunAt := NextOf(c), claims := s.claims + [c], instances := s.instances[i := Announcing(|s.claims|, 0)])
        else s.(instances := s.instances[i := Idle])
      else s
    case Announce(i) =>
      var at := InstanceAt(s, i);
      if at.Announcing? && at.claim < |s.claims| then
        var notices := Notices(s.claims[at.claim]);
        if at.next < |notices| then
          s.(log := s.log + [Entry(notices[at.next], at.claim, at.next)], instances := s.instances[i := at.(next := at.next + 1)])
        else s.(instances := s.instances[i := Idle])
      else s
    case Crash(i) =>
      s.(instances := s.instances[i := Idle])
    case RunStarts(claim) =>
      // the run of a claim begins an attempt; it may do so any number of times (redelivery), at any time after the claim
      if claim < |s.claims| && s.claims[claim].run.Some? then
        s.(log := s.log + [Entry(Started(s.claims[claim].expected, s.claims[claim].run.value), claim, 0)])
      else s
  }

  function After(s: State, steps: seq<Step>): State {
    if steps == [] then s else Apply(After(s, steps[..|steps| - 1]), steps[|steps| - 1])
  }

  // ---------------------------------------------------------------------------------------------------------
  // One claim
  // ---------------------------------------------------------------------------------------------------------

  /** A claim was won by an instance that had seen its occurrence due, with an interval of at least a second. */
  ghost predicate ProperClaim(c: Claim) {
    c.expected <= c.now && c.interval >= SECOND && c.interval % MICRO == 0 && c.expected % MICRO == 0
  }

  lemma SecondGrows(a: Time, b: Time)
    requires a + SECOND <= b
    ensures Second(a) < Second(b)
  {
  }

  lemma StoredKeeps(x: Time, y: Time)
    requires x <= y && x % MICRO == 0
    ensures x <= Stored(y)
  {
  }

  lemma MultipleOfMicro(c: Claim, k: nat)
    requires ProperClaim(c)
    ensures SkippedAt(c, k) % MICRO == 0
  {
    var m, n := c.interval / MICRO, c.expected / MICRO;
    assert k * c.interval == MICRO * (k * m);
    assert SkippedAt(c, k) == MICRO * (n + k * m);
  }

  lemma Scaled(j: nat, d: nat, x: nat)
    requires d > 0
    ensures (j + d) * x == j * x + d * x && d * x >= x
  {
  }

  lemma LaterSkip(c: Claim, j: nat, k: nat)
    requires c.interval >= SECOND && j < k
    ensures SkippedAt(c, j) + c.interval <= SkippedAt(c, k)
  {
    Scaled(j, k - j, c.interval);
  }

  lemma NextSkip(c: Claim, k: nat)
    ensures SkippedAt(c, k + 1) == SkippedAt(c, k) + c.interval && SkippedAt(c, 0) == c.expected
  {
  }

  /** Everything a claim fires or skips falls in a later second than the one before, and all of it in a second before
      the next occurrence's. */
  lemma ClaimWindow(c: Claim, j: nat, k: nat)
    requires ProperClaim(c) && j <= k <= Skips(c)
    ensures j < k ==> Second(SkippedAt(c, j)) < Second(SkippedAt(c, k))
    ensures Second(SkippedAt(c, k)) < Second(NextOf(c)) && SkippedAt(c, k) + c.interval <= NextOf(c)
    ensures SkippedAt(c, 0) == c.expected
  {
    if j < k {
      LaterSkip(c, j, k);
      SecondGrows(SkippedAt(c, j), SkippedAt(c, k));
    }
    NextSkip(c, k);
    DueSkip(c, k);
    MultipleOfMicro(c, k + 1);
    StoredKeeps(SkippedAt(c, k + 1), c.now + c.interval);
    SecondGrows(SkippedAt(c, k), NextOf(c));
  }

  /** The next occurrence is one interval after the winner's clock, cut to the microsecond. */
  lemma NextExact(c: Claim)
    ensures NextOf(c) % 1000 == 0 && c.now + c.interval - 1000 < NextOf(c) <= c.now + c.interval
  {
    StoredIsMultiple(c.now + c.interval);
  }

  /** There is one such time. */
  lemma OneMicrosecond(t: Time, a: Time, b: Time)
    requires a % 1000 == 0 && t - 1000 < a <= t && b % 1000 == 0 && t - 1000 < b <= t
    ensures a == b
  {
  }

  lemma SkipIsDue(c: Claim, k: nat)
    requires c.interval > 0
    ensures 1 <= k <= Skips(c) <==> 1 <= k <= 25 && SkippedAt(c, k) <= c.now
  {
    CountIsExact(c.expected, c.now, c.interval);
    var n := SkippedCount(c.expected, c.now, c.interval);
    if 1 <= k <= n {
      DueByNow(c.expected, c.now, c.interval, k);
    } else if k > n + 1 {
      Scaled(n + 1, k - n - 1, c.interval);
    }
  }

  /** What a claim announces, without the list: its occurrence as due; the run, if one was created; and as skipped, exactly
      the first 25 times expected + k * interval that came due by the winner's clock. */
  lemma NoticesAre(c: Claim, t: Time, run: Run)
    requires c.interval > 0
    ensures Due(t) in Notices(c) <==> t == c.expected
    ensures Created(t, run) in Notices(c) <==> t == c.expected && c.run == Some(run)
    ensures Skipped(t) in Notices(c) <==>
              exists k: nat {:trigger SkippedAt(c, k)} :: 1 <= k <= 25 && SkippedAt(c, k) <= c.now && t == SkippedAt(c, k)
    ensures Started(t, run) !in Notices(c)
  {
    var skips := seq(Skips(c), k requires 0 <= k < Skips(c) => Skipped(SkippedAt(c, k + 1)));
    assert forall x :: x in skips ==> x.Skipped?;
    if Skipped(t) in Notices(c) {
      var k :| 0 <= k < |skips| && skips[k] == Skipped(t);
      SkipIsDue(c, k + 1);
    }
    if k: nat :| 1 <= k <= 25 && SkippedAt(c, k) <= c.now && t == SkippedAt(c, k) {
      SkipIsDue(c, k);
      assert skips[k - 1] == Skipped(t);
    }
  }

  lemma DueSkip(c: Claim, k: nat)
    requires ProperClaim(c) && k <= Skips(c)
    ensures SkippedAt(c, k) <= c.now
  {
    if k > 0 {
      DueByNow(c.expected, c.now, c.interval, k);
    }
  }

  // ---------------------------------------------------------------------------------------------------------
  // Invariant
  // ---------------------------------------------------------------------------------------------------------

  /** The claims in the order they were won: each starts at or after what the one before wrote. */
  ghost predicate Chain(claims: seq<Claim>, next: Time) {
    && next % MICRO == 0
    && (forall i :: 0 <= i < |claims| ==> ProperClaim(claims[i]) && NextOf(claims[i]) <= next)
    && (forall i, j :: 0 <= i < j < |claims| ==> NextOf(claims[i]) <= claims[j].expected)
  }

  /** A logged event is the one its claim announces. */
  ghost predicate ProperEntry(claims: seq<Claim>, e: Entry) {
    && e.claim < |claims|
    && (if e.notice.Started? then claims[e.claim].run == Some(e.notice.run) && e.notice.at == claims[e.claim].expected
        else e.index < |Notices(claims[e.claim])| && e.notice == Notices(claims[e.claim])[e.index])
  }

  ghost predicate ProperLog(claims: seq<Claim>, log: seq<Entry>) {
    && (forall k :: 0 <= k < |log| ==> ProperEntry(claims, log[k]))
    && (forall k, l :: 0 <= k < l < |log| && !log[k].notice.Started? && !log[l].notice.Started? && log[k].claim == log[l].claim ==>
          log[k].index != log[l].index)
  }

  /** Entries of a claim from its n-th notice on are not logged yet. */
  ghost predicate NotYet(log: seq<Entry>, claim: nat, n: nat) {
    forall k :: 0 <= k < |log| && !log[k].notice.Started? && log[k].claim == claim ==> log[k].index < n
  }

  ghost predicate ProperInstance(s: State, i: nat) {
    match InstanceAt(s, i)
    case Idle => true
    case Holding(x) =>
      x.expected <= x.readAt && x.interval >= SECOND && x.interval % MICRO == 0 && x.expected % MICRO == 0
    case Announcing(claim, next) => claim < |s.claims| && NotYet(s.log, claim, next)
  }

  /** Two instances never announce the same claim. */
  ghost predicate Apart(s: State, i: nat, j: nat) {
    InstanceAt(s, i).Announcing? && InstanceAt(s, j).Announcing? ==> InstanceAt(s, i).claim != InstanceAt(s, j).claim
  }

  ghost predicate Inv(s: State) {
    // One value, so that a failed proof names the predicate and not each of its parts.
    var good :=
      && Chain(s.claims, s.nextRunAt)
      && ProperLog(s.claims, s.log)
      && (forall i: nat {:trigger ProperInstance(s, i)} :: ProperInstance(s, i))
      && (forall i: nat, j: nat {:trigger Apart(s, i, j)} :: i != j ==> Apart(s, i, j));
    good
  }

  lemma ChainGrows(claims: seq<Claim>, c: Claim)
    requires Chain(claims, c.expected) && ProperClaim(c)
    ensures Chain(claims + [c], NextOf(c))
  {
    ClaimWindow(c, 0, 0);
    var next := NextOf(c);
    StoredIsMultiple(c.now + c.interval);
    ChainExtends(claims, c, next);
  }

  lemma StoredIsMultiple(t: Time)
    ensures Stored(t) % MICRO == 0
  {
    assert Stored(t) == MICRO * (t / MICRO);
  }

  lemma ChainExtends(claims: seq<Claim>, c: Claim, next: Time)
    requires Chain(claims, c.expected) && ProperClaim(c) && next == NextOf(c) && c.expected <= next && next % MICRO == 0
    ensures Chain(claims + [c], next)
  {
    forall i | 0 <= i < |claims| ensures NextOf(claims[i]) <= c.expected {
    }
  }

  lemma LogUnderMoreClaims(claims: seq<Claim>, c: Claim, log: seq<Entry>)
    requires ProperLog(claims, log)
    ensures ProperLog(claims + [c], log) && NotYet(log, |claims|, 0)
  {
    forall k | 0 <= k < |log| ensures ProperEntry(claims + [c], log[k]) && log[k].claim < |claims| {
      assert ProperEntry(claims, log[k]);
      assert (claims + [c])[log[k].claim] == claims[log[k].claim];
    }
  }

  lemma LogGrows(claims: seq<Claim>, log: seq<Entry>, e: Entry)
    requires ProperLog(claims, log) && ProperEntry(claims, e)
    requires !e.notice.Started? ==> NotYet(log, e.claim, e.index)
    ensures ProperLog(claims, log + [e])
    ensures forall claim, n {:trigger NotYet(log + [e], claim, n)} ::
              NotYet(log, claim, n) && (e.notice.Started? || claim != e.claim || e.index < n) ==> NotYet(log + [e], claim, n)
  {
  }

  lemma NotYetMore(log: seq<Entry>, claim: nat, n: nat)
    requires NotYet(log, claim, n)
    ensures NotYet(log, claim, n + 1)
  {
  }

  lemma FireKeeps(s: State, i: nat, now: Time, run: Option<Run>)
    requires Inv(s)
    ensures Inv(Apply(s, Fire(i, now, run)))
  {
    var s' := Apply(s, Fire(i, now, run));
    assert ProperInstance(s, i);
    if s'.claims != s.claims {
      var c := s'.claims[|s.claims|];
      ChainGrows(s.claims, c);
      LogUnderMoreClaims(s.claims, c, s.log);
    }
    forall j: nat ensures ProperInstance(s', j) {
      assert ProperInstance(s, j);
    }
    forall j: nat, k: nat | j != k ensures Apart(s', j, k) {
      assert ProperInstance(s, j) && ProperInstance(s, k) && Apart(s, j, k);
    }
  }

  lemma AnnounceKeeps(s: State, i: nat)
    requires Inv(s)
    ensures Inv(Apply(s, Announce(i)))
  {
    var s' := Apply(s, Announce(i));
    assert ProperInstance(s, i);
    if s'.log != s.log {
      var e := s'.log[|s.log|];
      LogGrows(s.claims, s.log, e);
      forall j: nat ensures ProperInstance(s', j) {
        assert ProperInstance(s, j);
        if j == i {
          NotYetMore(s.log, e.claim, e.index);
        } else {
          assert Apart(s, i, j);
        }
      }
    } else {
      forall j: nat ensures ProperInstance(s', j) {
        assert ProperInstance(s, j);
      }
    }
    forall j: nat, k: nat | j != k ensures Apart(s', j, k) {
      assert Apart(s, j, k);
    }
  }

  lemma RunStartsKeeps(s: State, claim: nat)
    requires Inv(s)
    ensures Inv(Apply(s, RunStarts(claim)))
  {
    var s' := Apply(s, RunStarts(claim));
    if s'.log != s.log {
      LogGrows(s.claims, s.log, s'.log[|s.log|]);
    }
    forall j: nat ensures ProperInstance(s', j) {
      assert ProperInstance(s, j);
      assert InstanceAt(s', j) == InstanceAt(s, j);
    }
    forall j: nat, k: nat | j != k ensures Apart(s', j, k) {
      assert Apart(s, j, k);
    }
  }

  /** Every step keeps the invariant. */
  lemma StepKeeps(s: State, step: Step)
    requires Inv(s)
    ensures Inv(Apply(s, step))
  {
    match step
    case Fire(i, now, run) => FireKeeps(s, i, now, run);
    case Announce(i) => AnnounceKeeps(s, i);
    case RunStarts(claim) => RunStartsKeeps(s, claim);
    case _ =>
      var s' := Apply(s, step);
      forall j: nat ensures ProperInstance(s', j) {
        assert ProperInstance(s, j);
      }
      forall j: nat, k: nat | j != k ensures Apart(s', j, k) {
        assert Apart(s, j, k);
      }
  }

  lemma {:induction false} Reachable(first: Time, steps: seq<Step>)
    ensures Inv(After(Init(first), steps))
  {
    if steps == [] {
      forall i: nat ensures ProperInstance(Init(first), i) {
      }
    } else {
      Reachable(first, steps[..|steps| - 1]);
      StepKeeps(After(Init(first), steps[..|steps| - 1]), steps[|steps| - 1]);
    }
  }

  // ---------------------------------------------------------------------------------------------------------
  // Theorems over every run
  // ---------------------------------------------------------------------------------------------------------

  /** next_run_at never goes back, and moves exactly when a claim is won, then by at least the interval. */
  lemma NextRunAtIncreases(first: Time, steps: seq<Step>, step: Step)
    ensures var s := After(Init(first), steps); var s' := Apply(s, step);
            if |s'.claims| > |s.claims|
            then s'.claims[..|s.claims|] == s.claims && |s'.claims| == |s.claims| + 1 && s'.claims[|s.claims|].expected == s.nextRunAt
                 && s'.nextRunAt >= s.nextRunAt + s'.claims[|s.claims|].interval >= s.nextRunAt + SECOND
            else s'.nextRunAt == s.nextRunAt && s'.claims == s.claims
  {
    var s := After(Init(first), steps);
    Reachable(first, steps);
    StepKeeps(s, step);
    if |Apply(s, step).claims| > |s.claims| {
      ClaimWindow(Apply(s, step).claims[|s.claims|], 0, 0);
    }
  }

  /** The k-th time a claim accounts for: its own occurrence is number 0, its recorded skips 1, 2, ... */
  ghost predicate Accounts(claims: seq<Claim>, i: nat, k: nat) {
    i < |claims| && k <= Skips(claims[i])
  }

  /** In every run, whatever is fired or recorded as skipped, by whichever instance, has an occurrence id of its own:
      no id is claimed twice, none is both fired and skipped, none is skipped twice. */
  lemma EachOccurrenceOnce(first: Time, steps: seq<Step>, i: nat, j: nat, k: nat, l: nat, scheduleId: string)
    requires var claims := After(Init(first), steps).claims;
             && Accounts(claims, i, j) && Accounts(claims, k, l) && (i, j) != (k, l)
             && Representable(SkippedAt(claims[i], j)) && Representable(SkippedAt(claims[k], l))
    ensures var claims := After(Init(first), steps).claims;
            OccurrenceId(scheduleId, SkippedAt(claims[i], j)) != OccurrenceId(scheduleId, SkippedAt(claims[k], l))
  {
    var claims := After(Init(first), steps).claims;
    Reachable(first, steps);
    DifferentSeconds(claims, After(Init(first), steps).nextRunAt, i, j, k, l);
    OccurrenceIdInjective(scheduleId, SkippedAt(claims[i], j), scheduleId, SkippedAt(claims[k], l));
  }

  lemma DifferentSeconds(claims: seq<Claim>, next: Time, i: nat, j: nat, k: nat, l: nat)
    requires Chain(claims, next) && Accounts(claims, i, j) && Accounts(claims, k, l) && (i, j) != (k, l)
    ensures Second(SkippedAt(claims[i], j)) != Second(SkippedAt(claims[k], l))
  {
    if i < k {
      Before(claims, next, i, j, k, l);
    } else if k < i {
      Before(claims, next, k, l, i, j);
    } else if j < l {
      ClaimWindow(claims[i], j, l);
    } else {
      ClaimWindow(claims[i], l, j);
    }
  }

  lemma Before(claims: seq<Claim>, next: Time, i: nat, j: nat, k: nat, l: nat)
    requires Chain(claims, next) && Accounts(claims, i, j) && Accounts(claims, k, l) && i < k
    ensures Second(SkippedAt(claims[i], j)) < Second(SkippedAt(claims[k], l))
  {
    ClaimWindow(claims[i], j, j);
    ClaimWindow(claims[k], 0, l);
    SecondMonotone(NextOf(claims[i]), claims[k].expected);
  }

  lemma SecondMonotone(a: Time, b: Time)
    requires a <= b
    ensures Second(a) <= Second(b)
  {
  }

  /** Which time of its claim an event is about. */
  ghost predicate About(claims: seq<Claim>, e: Entry, k: nat) {
    && Accounts(claims, e.claim, k) && e.notice.at == SkippedAt(claims[e.claim], k)
    && (e.notice.Skipped? <==> k > 0)
  }

  /** Where the notice stands among those of its claim. */
  ghost predicate IndexFits(c: Claim, e: Entry, k: nat) {
    && (e.notice.Due? ==> e.index == 0)
    && (e.notice.Created? ==> e.index == 1)
    && (e.notice.Skipped? ==> e.index == k + (if c.run.Some? then 1 else 0))
  }

  lemma WhichTime(claims: seq<Claim>, e: Entry) returns (k: nat)
    requires ProperEntry(claims, e)
    ensures About(claims, e, k)
    ensures e.notice.Created? || e.notice.Started? ==> claims[e.claim].run == Some(e.notice.run)
    ensures IndexFits(claims[e.claim], e, k)
  {
    var c := claims[e.claim];
    if e.notice.Skipped? {
      k := e.index - (if c.run.Some? then 1 else 0);
    } else {
      k := 0;
    }
  }

  /** The log of every run keeps the promise the occurrence ledger needs: events of one occurrence id never mix a skip
      with a due, created or started event, all runs they name are the same, and none but a start is logged twice. */
  lemma LogSupportsTheLedger(first: Time, steps: seq<Step>, scheduleId: string, i: nat, j: nat)
    requires var log := After(Init(first), steps).log;
             && i < j < |log| && Representable(log[i].notice.at) && Representable(log[j].notice.at)
             && OccurrenceId(scheduleId, log[i].notice.at) == OccurrenceId(scheduleId, log[j].notice.at)
    ensures var log := After(Init(first), steps).log; var a, b := log[i].notice, log[j].notice;
            && (a.Skipped? <==> b.Skipped?)
            && !(a.Skipped? && b.Skipped?) && !(a.Due? && b.Due?) && !(a.Created? && b.Created?)
            && a.at == b.at
            && ((a.Created? || a.Started?) && (b.Created? || b.Started?) ==> a.run == b.run)
  {
    var s := After(Init(first), steps);
    Reachable(first, steps);
    var x, y := s.log[i], s.log[j];
    assert ProperEntry(s.claims, x) && ProperEntry(s.claims, y);
    var k := WhichTime(s.claims, x);
    var l := WhichTime(s.claims, y);
    OccurrenceIdInjective(scheduleId, x.notice.at, scheduleId, y.notice.at);
    if (x.claim, k) != (y.claim, l) {
      DifferentSeconds(s.claims, s.nextRunAt, x.claim, k, y.claim, l);
    }
  }

  /** The schedule row and the event log as one instance's uninterrupted fireSchedule sees them. */
  class ScheduleStore {
    var nextRunAt: Time
    var log: seq<Notice>

    constructor (first: Time)
      ensures nextRunAt == Stored(first) && log == []
    {
      nextRunAt, log := Stored(first), [];
    }

    /** The claim is won exactly when nobody moved next_run_at since the read; the winner writes the next time and logs
        every notice of its claim in order, and a loser changes nothing. */
    method FireSchedule(def: Snapshot, now: Time, run: Option<Run>) returns (won: bool)
      modifies this
      ensures won <==> old(nextRunAt) == def.expected
      ensures won ==> var c := Claim(def.expected, now, def.interval, run);
                      nextRunAt == NextOf(c) && log == old(log) + Notices(c)
      ensures won ==> nextRunAt % 1000 == 0 && now + def.interval - 1000 < nextRunAt <= now + def.interval
      ensures !won ==> nextRunAt == old(nextRunAt) && log == old(log)
    {
      won := nextRunAt == def.expected;
      if !won {
        return;
      }
      ghost var c := Claim(def.expected, now, def.interval, run);
      NextExact(c);
      nextRunAt := Stored(now + def.interval);
      log := log + [Due(def.expected)];
      if run.Some? {
        log := log + [Created(def.expected, run.value)];
      }
      AnnounceSkips(def, now, c);
    }

    method AnnounceSkips(def: Snapshot, now: Time, ghost c: Claim)
      requires c.expected == def.expected && c.now == now && c.interval == def.interval
      modifies this`log
      ensures log == old(log) + seq(Skips(c), k requires 0 <= k < Skips(c) => Skipped(SkippedAt(c, k + 1)))
    {
      var skipped := SkippedOccurrences(def.expected, now, def.interval, MAX_SKIPPED);
      ghost var announced, notices := log, seq(Skips(c), k requires 0 <= k < Skips(c) => Skipped(SkippedAt(c, k + 1)));
      for k := 0 to |skipped|
        invariant log == announced + notices[..k]
      {
        log := log + [Skipped(skipped[k])];
        assert notices[..k + 1] == notices[..k] + [notices[k]];
      }
      assert notices[..|skipped|] == notices;
    }
  }
}
