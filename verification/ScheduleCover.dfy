/** Over every run of the claim protocol, no occurrence disappears: what comes due is fired, recorded as skipped, or past
    the number of skips one claim records; and what a claim announces is logged. */
module ScheduleCover {
  import opened Options
  import opened ScheduleTimes
  import opened ScheduleClaim

  // ---------------------------------------------------------------------------------------------------------
  // The claims form one line
  // ---------------------------------------------------------------------------------------------------------

  /** What the first n claims leave as the next occurrence. */
  function Upcoming(claims: seq<Claim>, first: Time, n: nat): Time
    requires n <= |claims|
  {
    if n == 0 then Stored(first) else NextOf(claims[n - 1])
  }

  /** The first claim is of the first occurrence, each further one of what the one before wrote, and next_run_at is what
      the last one wrote. */
  ghost predicate Linked(s: State, first: Time) {
    && (forall i :: 0 <= i < |s.claims| ==> s.claims[i].expected == Upcoming(s.claims, first, i))
    && s.nextRunAt == Upcoming(s.claims, first, |s.claims|)
  }

  lemma {:induction false} AlwaysLinked(first: Time, steps: seq<Step>)
    ensures Linked(After(Init(first), steps), first)
  {
    if steps != [] {
      AlwaysLinked(first, steps[..|steps| - 1]);
      StepLinked(After(Init(first), steps[..|steps| - 1]), steps[|steps| - 1], first);
    }
  }

  lemma StepLinked(s: State, step: Step, first: Time)
    requires Linked(s, first)
    ensures Linked(Apply(s, step), first)
  {
    var s' := Apply(s, step);
    if s'.claims != s.claims {
      var c := s'.claims[|s.claims|];
      assert s'.claims == s.claims + [c];
      forall n | 0 <= n <= |s.claims| ensures Upcoming(s'.claims, first, n) == Upcoming(s.claims, first, n) {
      }
    }
  }

  /** Without the function that computes it: every claim is won at a time its occurrence has come due, and the next
      occurrence is one interval after that time, cut to the microsecond. */
  lemma NextOccurrenceExact(first: Time, steps: seq<Step>, i: nat)
    requires i < |After(Init(first), steps).claims|
    ensures var s := After(Init(first), steps);
            var c, next := s.claims[i], if i + 1 < |s.claims| then s.claims[i + 1].expected else s.nextRunAt;
            && c.expected <= c.now && c.interval >= 1_000_000_000
            && next % 1000 == 0 && c.now + c.interval - 1000 < next <= c.now + c.interval
  {
    AlwaysLinked(first, steps);
    Reachable(first, steps);
    NextExact(After(Init(first), steps).claims[i]);
  }

  lemma {:induction false} Between(claims: seq<Claim>, first: Time, t: Time, n: nat) returns (i: nat)
    requires n <= |claims| && Stored(first) <= t < Upcoming(claims, first, n)
    ensures i < n && Upcoming(claims, first, i) <= t < Upcoming(claims, first, i + 1)
    decreases n
  {
    if t < Upcoming(claims, first, n - 1) {
      i := Between(claims, first, t, n - 1);
    } else {
      i := n - 1;
    }
  }

  /** Every instant from the first occurrence to the next one to come belongs to one claim: it is at or after the claimed
      occurrence, less than an interval after the winner's clock, and before the occurrence that follows. */
  lemma EveryInstantIsClaimed(first: Time, steps: seq<Step>, t: Time) returns (i: nat)
    requires Stored(first) <= t < After(Init(first), steps).nextRunAt
    ensures var claims := After(Init(first), steps).claims;
            && i < |claims| && claims[i].expected <= t < claims[i].now + claims[i].interval
            && (i + 1 < |claims| ==> t < claims[i + 1].expected)
  {
    var claims := After(Init(first), steps).claims;
    AlwaysLinked(first, steps);
    i := Between(claims, first, t, |claims|);
    NextExact(claims[i]);
  }

  /** Every time expected + k * interval that has come due by the clock of the claim is accounted for: number 0 is the
      occurrence the claim fires, the next 25 are announced as skipped, and only those after them leave no trace. */
  lemma NothingDueDisappears(first: Time, steps: seq<Step>, i: nat, k: nat)
    requires i < |After(Init(first), steps).claims|
    requires var c := After(Init(first), steps).claims[i]; c.expected + k * c.interval <= c.now
    ensures var c := After(Init(first), steps).claims[i];
            || (k == 0 && Due(c.expected) in Notices(c))
            || (1 <= k <= 25 && Skipped(c.expected + k * c.interval) in Notices(c))
            || k > 25
  {
    Reachable(first, steps);
    DueIsTold(After(Init(first), steps).claims[i], k);
  }

  lemma DueIsTold(c: Claim, k: nat)
    requires c.interval > 0 && SkippedAt(c, k) <= c.now
    ensures k == 0 ==> Due(c.expected) in Notices(c)
    ensures 1 <= k <= 25 ==> Skipped(SkippedAt(c, k)) in Notices(c)
  {
    NoticesAre(c, c.expected, 0);
    NoticesAre(c, SkippedAt(c, k), 0);
  }

  /** A due schedule can be claimed: whoever is idle and sees it due, and fires before anyone else, wins its occurrence. */
  lemma DueIsClaimed(first: Time, steps: seq<Step>, i: nat, seconds: nat, now: Time, run: Option<Run>)
    requires var s := After(Init(first), steps); InstanceAt(s, i) == Idle && s.nextRunAt <= now && seconds >= 1
    ensures var s := After(Init(first), steps);
            var s' := After(Init(first), steps + [Read(i, seconds, now)] + [Fire(i, now, run)]);
            s'.claims == s.claims + [Claim(s.nextRunAt, now, seconds * 1_000_000_000, run)]
  {
    var s := After(Init(first), steps);
    assert (steps + [Read(i, seconds, now)])[..|steps|] == steps;
    var read := steps + [Read(i, seconds, now)];
    assert (read + [Fire(i, now, run)])[..|read|] == read;
    var held := Holding(Snapshot(s.nextRunAt, seconds * SECOND, now));
    assert After(Init(first), read) == s.(instances := s.instances[i := held]);
  }

  // ---------------------------------------------------------------------------------------------------------
  // What is announced is logged
  // ---------------------------------------------------------------------------------------------------------

  ghost predicate LoggedAt(log: seq<Entry>, e: Entry) {
    exists l :: 0 <= l < |log| && log[l] == e
  }

  /** The first n notices of the claim are in the log. */
  ghost predicate Logged(s: State, claim: nat, n: nat)
    requires claim < |s.claims|
  {
    && n <= |Notices(s.claims[claim])|
    && forall k :: 0 <= k < n ==> LoggedAt(s.log, Entry(Notices(s.claims[claim])[k], claim, k))
  }

  ghost predicate Announced(s: State, i: nat) {
    InstanceAt(s, i).Announcing? ==>
      InstanceAt(s, i).claim < |s.claims| && Logged(s, InstanceAt(s, i).claim, InstanceAt(s, i).next)
  }

  lemma LoggedStays(s: State, s': State, claim: nat, n: nat)
    requires claim < |s.claims| <= |s'.claims| && s'.claims[..|s.claims|] == s.claims
    requires |s.log| <= |s'.log| && s'.log[..|s.log|] == s.log && Logged(s, claim, n)
    ensures Logged(s', claim, n)
  {
    assert s'.claims[claim] == s'.claims[..|s.claims|][claim];
    forall k | 0 <= k < n ensures LoggedAt(s'.log, Entry(Notices(s'.claims[claim])[k], claim, k)) {
      assert LoggedAt(s.log, Entry(Notices(s.claims[claim])[k], claim, k));
      var l :| 0 <= l < |s.log| && s.log[l] == Entry(Notices(s.claims[claim])[k], claim, k);
      assert s'.log[l] == s'.log[..|s.log|][l];
    }
  }

  lemma OnlyGrows(s: State, step: Step)
    ensures var s' := Apply(s, step);
            && |s.claims| <= |s'.claims| && s'.claims[..|s.claims|] == s.claims
            && |s.log| <= |s'.log| && s'.log[..|s.log|] == s.log
  {
  }

  lemma AnnounceLogs(s: State, i: nat)
    requires Announced(s, i)
    ensures Announced(Apply(s, Announce(i)), i)
  {
    var s', at := Apply(s, Announce(i)), InstanceAt(s, i);
    if InstanceAt(s', i).Announcing? && s'.log != s.log {
      OnlyGrows(s, Announce(i));
      LoggedStays(s, s', at.claim, at.next);
      assert s'.log[|s.log|] == Entry(Notices(s.claims[at.claim])[at.next], at.claim, at.next);
    }
  }

  lemma StepLogs(s: State, step: Step, i: nat)
    requires Announced(s, i)
    ensures Announced(Apply(s, step), i)
  {
    if step == Announce(i) {
      AnnounceLogs(s, i);
    } else {
      var s' := Apply(s, step);
      OnlyGrows(s, step);
      if InstanceAt(s', i).Announcing? && InstanceAt(s', i) == InstanceAt(s, i) {
        LoggedStays(s, s', InstanceAt(s, i).claim, InstanceAt(s, i).next);
      }
    }
  }

  lemma {:induction false} AlwaysAnnounced(first: Time, steps: seq<Step>, i: nat)
    ensures Announced(After(Init(first), steps), i)
  {
    if steps != [] {
      AlwaysAnnounced(first, steps[..|steps| - 1], i);
      StepLogs(After(Init(first), steps[..|steps| - 1]), steps[|steps| - 1], i);
    }
  }

  /** An instance goes on announcing one notice at a time, in order, until all are logged; so unless it crashes, every
      notice of its claim ends up in the log. */
  lemma EveryNoticeIsLogged(first: Time, steps: seq<Step>, i: nat)
    requires InstanceAt(After(Init(first), steps), i).Announcing?
    ensures var s := After(Init(first), steps); var at, s' := InstanceAt(s, i), Apply(s, Announce(i));
            && at.claim < |s.claims|
            && var notices := Notices(s.claims[at.claim]);
               && (at.next < |notices| ==> InstanceAt(s', i) == Announcing(at.claim, at.next + 1))
               && (InstanceAt(s', i) == Idle ==> forall k :: 0 <= k < |notices| ==> LoggedAt(s.log, Entry(notices[k], at.claim, k)))
  {
    AlwaysAnnounced(first, steps, i);
  }
}
