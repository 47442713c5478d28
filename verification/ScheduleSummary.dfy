/** internal/events/schedule_projection.go: a schedule's summary, computed by a loop over its ledger rows and by
    aggregate queries. */
module ScheduleSummary {
  import opened Options
  import opened Permutations
  import opened ScheduleTimes
  import opened OccurrenceLedger

  /** A ledger row and its database id. */
  datatype Stored = Stored(id: nat, row: Row)

  datatype Summary = Summary(
    lastEventAt: Time,
    lastExpectedAt: Time,
    lastOccurrenceId: string,
    created: nat,
    skipped: nat,
    lastSkippedAt: Option<Time>,
    lastRunId: string,
    lastCreationLateness: Option<nat>,
    lastStartLateness: Option<nat>)

  const BLANK := Summary(0, 0, "", 0, 0, None, "", None, None)

  // ---------------------------------------------------------------------------------------------------------
  // What a summary is
  // ---------------------------------------------------------------------------------------------------------

  function Count(rows: seq<Stored>, outcome: Outcome): nat {
    if rows == [] then 0
    else Count(rows[..|rows| - 1], outcome) + (if rows[|rows| - 1].row.outcome == outcome then 1 else 0)
  }

  ghost predicate LastEventFits(rows: seq<Stored>, t: Time) {
    && t >= 0 && (forall r :: r in rows ==> r.row.lastEventAt <= t)
    && (t == 0 || exists r :: r in rows && r.row.lastEventAt == t)
  }

  /** No row is set later than r. */
  ghost predicate NoneLater(rows: seq<Stored>, r: Stored) {
    forall x :: x in rows ==> x.row.expectedAt <= r.row.expectedAt
  }

  ghost predicate LastOccurrenceFits(rows: seq<Stored>, expected: Time, occurrenceId: string) {
    if exists r :: r in rows && r.row.expectedAt > 0
    then exists r :: r in rows && NoneLater(rows, r) && r.row.expectedAt == expected && r.row.occurrenceId == occurrenceId
    else expected == 0 && occurrenceId == ""
  }

  ghost predicate Ran(rows: seq<Stored>) {
    exists r :: r in rows && r.row.outcome == IsCreated
  }

  /** r is a created row and no created row is set later. */
  ghost predicate LatestRun(rows: seq<Stored>, r: Stored) {
    && r in rows && r.row.outcome == IsCreated
    && forall x :: x in rows && x.row.outcome == IsCreated ==> x.row.expectedAt <= r.row.expectedAt
  }

  ghost predicate LastRunFits(rows: seq<Stored>, p: Summary) {
    if Ran(rows)
    then exists r :: LatestRun(rows, r) && FromRun(p, r)
    else p.lastRunId == "" && p.lastCreationLateness == None && p.lastStartLateness == None
  }

  predicate FromRun(p: Summary, r: Stored) {
    && p.lastRunId == r.row.runId
    && p.lastCreationLateness == r.row.creationLateness
    && p.lastStartLateness == r.row.startLateness
  }

  ghost predicate LastSkippedFits(rows: seq<Stored>, t: Option<Time>) {
    if exists r :: r in rows && r.row.outcome == IsSkipped
    then t.Some? && (forall r :: r in rows && r.row.outcome == IsSkipped ==> r.row.recordedAt <= t.value)
         && exists r :: r in rows && r.row.outcome == IsSkipped && r.row.recordedAt == t.value
    else t == None
  }

  ghost predicate Summarizes(p: Summary, rows: seq<Stored>) {
    && p.created == Count(rows, IsCreated) && p.skipped == Count(rows, IsSkipped)
    && LastEventFits(rows, p.lastEventAt)
    && LastOccurrenceFits(rows, p.lastExpectedAt, p.lastOccurrenceId)
    && LastRunFits(rows, p)
    && LastSkippedFits(rows, p.lastSkippedAt)
  }

  // ---------------------------------------------------------------------------------------------------------
  // Uniqueness
  // ---------------------------------------------------------------------------------------------------------

  /** Every row has its expected time set, and no two rows have the same one. */
  ghost predicate Set(rows: seq<Stored>) {
    && (forall r :: r in rows ==> r.row.expectedAt > 0)
    && (forall r, x :: r in rows && x in rows && r.row.expectedAt == x.row.expectedAt ==> r == x)
  }

  lemma {:induction false} CountIsOfTheMultiset(rows: seq<Stored>, other: seq<Stored>, outcome: Outcome)
    requires Permutes(rows, other)
    ensures Count(rows, outcome) == Count(other, outcome)
    decreases |rows|
  {
    SameMembers(rows, other);
    if rows != [] {
      var n := |rows| - 1;
      var r := rows[n];
      assert r in other;
      var i :| 0 <= i < |other| && other[i] == r;
      CountWithout(other, i, outcome);
      Removed(rows, other, i);
      CountIsOfTheMultiset(rows[..n], other[..i] + other[i + 1..], outcome);
    }
  }

  lemma Removed(rows: seq<Stored>, other: seq<Stored>, i: nat)
    requires Permutes(rows, other) && i < |other| && rows != [] && other[i] == rows[|rows| - 1]
    ensures Permutes(rows[..|rows| - 1], other[..i] + other[i + 1..])
  {
    var n := |rows| - 1;
    Without(rows, n);
    assert rows[..n] + rows[n + 1..] == rows[..n];
    Without(other, i);
  }

  lemma {:induction false} CountWithout(rows: seq<Stored>, i: nat, outcome: Outcome)
    requires i < |rows|
    ensures Count(rows, outcome) == Count(rows[..i] + rows[i + 1..], outcome) + (if rows[i].row.outcome == outcome then 1 else 0)
  {
    var n := |rows| - 1;
    if i == n {
      assert rows[..i] + rows[i + 1..] == rows[..n];
    } else {
      CountWithout(rows[..n], i, outcome);
      var rest := rows[..i] + rows[i + 1..];
      assert rest[..|rest| - 1] == rows[..n][..i] + rows[..n][i + 1..];
    }
  }

  /** Rows with set, distinct expected times have one summary, whatever order they are in. */
  lemma SummaryIsUnique(p: Summary, q: Summary, rows: seq<Stored>, other: seq<Stored>)
    requires Permutes(rows, other) && Set(rows) && Summarizes(p, rows) && Summarizes(q, other)
    ensures p == q
  {
    SameMembers(rows, other);
    CountIsOfTheMultiset(rows, other, IsCreated);
    CountIsOfTheMultiset(rows, other, IsSkipped);
    OneLastOccurrence(rows, other, p.lastExpectedAt, p.lastOccurrenceId, q.lastExpectedAt, q.lastOccurrenceId);
    OneLastRun(rows, other, p, q);
    OneLastSkipped(rows, other, p.lastSkippedAt, q.lastSkippedAt);
    OneLastEvent(rows, other, p.lastEventAt, q.lastEventAt);
  }

  lemma OneLastEvent(rows: seq<Stored>, other: seq<Stored>, t: Time, u: Time)
    requires (forall r :: r in rows <==> r in other) && LastEventFits(rows, t) && LastEventFits(other, u)
    ensures t == u
  {
  }

  lemma OneLastSkipped(rows: seq<Stored>, other: seq<Stored>, t: Option<Time>, u: Option<Time>)
    requires (forall r :: r in rows <==> r in other) && LastSkippedFits(rows, t) && LastSkippedFits(other, u)
    ensures t == u
  {
  }

  lemma OneLastOccurrence(rows: seq<Stored>, other: seq<Stored>, t: Time, id: string, u: Time, jd: string)
    requires (forall r :: r in rows <==> r in other) && Set(rows)
    requires LastOccurrenceFits(rows, t, id) && LastOccurrenceFits(other, u, jd)
    ensures t == u && id == jd
  {
  }

  lemma OneLastRun(rows: seq<Stored>, other: seq<Stored>, p: Summary, q: Summary)
    requires (forall r :: r in rows <==> r in other) && Set(rows)
    requires LastRunFits(rows, p) && LastRunFits(other, q)
    ensures p.lastRunId == q.lastRunId && p.lastCreationLateness == q.lastCreationLateness && p.lastStartLateness == q.lastStartLateness
  {
    assert Ran(rows) <==> Ran(other);
    if Ran(rows) {
      var r :| LatestRun(rows, r) && FromRun(p, r);
      var x :| LatestRun(other, x) && FromRun(q, x);
      assert r.row.expectedAt == x.row.expectedAt;
    }
  }

  // ---------------------------------------------------------------------------------------------------------
  // The loop
  // ---------------------------------------------------------------------------------------------------------

  lemma EventStep(rows: seq<Stored>, r: Stored, t: Time)
    requires LastEventFits(rows, t)
    ensures LastEventFits(rows + [r], if r.row.lastEventAt > t then r.row.lastEventAt else t)
  {
    if t != 0 {
      var x :| x in rows && x.row.lastEventAt == t;
      assert x in rows + [r];
    }
    assert r in rows + [r];
  }

  lemma OccurrenceStep(rows: seq<Stored>, r: Stored, t: Time, id: string)
    requires LastOccurrenceFits(rows, t, id)
    ensures if r.row.expectedAt > t then LastOccurrenceFits(rows + [r], r.row.expectedAt, r.row.occurrenceId)
            else LastOccurrenceFits(rows + [r], t, id)
  {
    var grown := rows + [r];
    assert r in grown;
    if exists x :: x in rows && x.row.expectedAt > 0 {
      var x :| x in rows && NoneLater(rows, x) && x.row.expectedAt == t && x.row.occurrenceId == id;
      assert x in grown;
      if r.row.expectedAt > t {
        assert NoneLater(grown, r);
      } else {
        assert NoneLater(grown, x);
      }
    } else if r.row.expectedAt > 0 {
      assert NoneLater(grown, r);
    }
  }

  lemma SkippedStep(rows: seq<Stored>, r: Stored, t: Option<Time>)
    requires LastSkippedFits(rows, t)
    ensures LastSkippedFits(rows + [r], if r.row.outcome == IsSkipped && (t == None || r.row.recordedAt > t.value)
                                        then Some(r.row.recordedAt) else t)
  {
    assert r in rows + [r];
    if t.Some? {
      var x :| x in rows && x.row.outcome == IsSkipped && x.row.recordedAt == t.value;
      assert x in rows + [r];
    }
  }

  /** The row the loop has taken as the latest run so far. */
  ghost predicate LatestSoFar(rows: seq<Stored>, latest: Option<Stored>) {
    if Ran(rows) then latest.Some? && LatestRun(rows, latest.value) else latest == None
  }

  lemma RunStep(rows: seq<Stored>, r: Stored, latest: Option<Stored>)
    requires LatestSoFar(rows, latest)
    ensures LatestSoFar(rows + [r], if r.row.outcome == IsCreated && (latest == None || r.row.expectedAt > latest.value.row.expectedAt)
                                    then Some(r) else latest)
  {
    assert r in rows + [r];
    if Ran(rows) {
      assert latest.value in rows + [r];
    }
  }

  lemma CountStep(rows: seq<Stored>, r: Stored, outcome: Outcome)
    ensures Count(rows + [r], outcome) == Count(rows, outcome) + (if r.row.outcome == outcome then 1 else 0)
  {
    assert (rows + [r])[..|rows|] == rows;
  }

  /** What the loop knows after these rows. */
  ghost predicate SoFar(done: seq<Stored>, p: Summary, latest: Option<Stored>) {
    && p.created == Count(done, IsCreated) && p.skipped == Count(done, IsSkipped)
    && LastEventFits(done, p.lastEventAt)
    && LastOccurrenceFits(done, p.lastExpectedAt, p.lastOccurrenceId)
    && LastSkippedFits(done, p.lastSkippedAt)
    && LatestSoFar(done, latest)
    && p.lastRunId == "" && p.lastCreationLateness == None && p.lastStartLateness == None
  }

  /** What one row changes. */
  ghost predicate Taken(r: Stored, p: Summary, latest: Option<Stored>, p': Summary, latest': Option<Stored>) {
    && p'.created == p.created + (if r.row.outcome == IsCreated then 1 else 0)
    && p'.skipped == p.skipped + (if r.row.outcome == IsSkipped then 1 else 0)
    && p'.lastEventAt == (if r.row.lastEventAt > p.lastEventAt then r.row.lastEventAt else p.lastEventAt)
    && (if r.row.expectedAt > p.lastExpectedAt
        then p'.lastExpectedAt == r.row.expectedAt && p'.lastOccurrenceId == r.row.occurrenceId
        else p'.lastExpectedAt == p.lastExpectedAt && p'.lastOccurrenceId == p.lastOccurrenceId)
    && p'.lastSkippedAt == (if r.row.outcome == IsSkipped && (p.lastSkippedAt == None || r.row.recordedAt > p.lastSkippedAt.value)
                            then Some(r.row.recordedAt) else p.lastSkippedAt)
    && latest' == (if r.row.outcome == IsCreated && (latest == None || r.row.expectedAt > latest.value.row.expectedAt)
                   then Some(r) else latest)
    && p'.lastRunId == p.lastRunId && p'.lastCreationLateness == p.lastCreationLateness
    && p'.lastStartLateness == p.lastStartLateness
  }

  lemma SoFarGrows(done: seq<Stored>, r: Stored, p: Summary, latest: Option<Stored>, p': Summary, latest': Option<Stored>)
    requires SoFar(done, p, latest) && Taken(r, p, latest, p', latest')
    ensures SoFar(done + [r], p', latest')
  {
    EventStep(done, r, p.lastEventAt);
    OccurrenceStep(done, r, p.lastExpectedAt, p.lastOccurrenceId);
    SkippedStep(done, r, p.lastSkippedAt);
    RunStep(done, r, latest);
    CountStep(done, r, IsCreated);
    CountStep(done, r, IsSkipped);
  }

  /** The body of the loop. */
  method Take(r: Stored, was: Summary, wasLatest: Option<Stored>) returns (p: Summary, latest: Option<Stored>)
    ensures Taken(r, was, wasLatest, p, latest)
  {
    p, latest := was, wasLatest;
    if r.row.lastEventAt > p.lastEventAt {
      p := p.(lastEventAt := r.row.lastEventAt);
    }
    if r.row.expectedAt > p.lastExpectedAt {
      p := p.(lastExpectedAt := r.row.expectedAt, lastOccurrenceId := r.row.occurrenceId);
    }
    if r.row.outcome == IsCreated {
      p := p.(created := p.created + 1);
      if latest == None || r.row.expectedAt > latest.value.row.expectedAt {
        latest := Some(r);
      }
    } else if r.row.outcome == IsSkipped {
      p := p.(skipped := p.skipped + 1);
      if p.lastSkippedAt == None || r.row.recordedAt > p.lastSkippedAt.value {
        p := p.(lastSkippedAt := Some(r.row.recordedAt));
      }
    }
  }

  /** SummarizeSchedule. */
  method SummarizeSchedule(rows: seq<Stored>) returns (p: Summary)
    ensures Summarizes(p, rows)
  {
    p := BLANK;
    var latest: Option<Stored> := None;
    ghost var done: seq<Stored> := [];
    for i := 0 to |rows|
      invariant done == rows[..i]
      invariant SoFar(done, p, latest)
    {
      ghost var was, wasLatest := p, latest;
      p, latest := Take(rows[i], p, latest);
      SoFarGrows(done, rows[i], was, wasLatest, p, latest);
      done := done + [rows[i]];
    }
    assert done == rows;
    ghost var loop := p;
    if latest.Some? {
      p := p.(lastRunId := latest.value.row.runId, lastCreationLateness := latest.value.row.creationLateness,
              lastStartLateness := latest.value.row.startLateness);
    }
    RunIsFilledIn(rows, loop, latest, p);
  }

  lemma RunIsFilledIn(rows: seq<Stored>, loop: Summary, latest: Option<Stored>, p: Summary)
    requires SoFar(rows, loop, latest)
    requires p == loop.(lastRunId := p.lastRunId, lastCreationLateness := p.lastCreationLateness, lastStartLateness := p.lastStartLateness)
    requires latest.Some? ==> FromRun(p, latest.value)
    requires latest == None ==> p == loop
    ensures Summarizes(p, rows)
  {
    if latest.Some? {
      assert LatestRun(rows, latest.value);
    }
  }

  // ---------------------------------------------------------------------------------------------------------
  // The queries
  // ---------------------------------------------------------------------------------------------------------

  datatype Column = ExpectedAt | RecordedAt | LastEventAt

  function Value(r: Stored, column: Column): Time {
    match column
    case ExpectedAt => r.row.expectedAt
    case RecordedAt => r.row.recordedAt
    case LastEventAt => r.row.lastEventAt
  }

  /** WHERE schedule_id = ? and, if given, AND outcome = ?. */
  function Where(rows: seq<Stored>, scheduleId: string, outcome: Option<Outcome>): seq<Stored> {
    if rows == [] then []
    else
      var n := |rows| - 1;
      var r := rows[n];
      Where(rows[..n], scheduleId, outcome)
      + (if r.row.scheduleId == scheduleId && (outcome == None || r.row.outcome == outcome.value) then [r] else [])
  }

  /** ORDER BY column DESC, id DESC, first row. */
  function First(rows: seq<Stored>, column: Column): (r: Option<Stored>)
    ensures r == None <==> rows == []
    ensures r.Some? ==> r.value in rows && forall x :: x in rows ==> Value(x, column) <= Value(r.value, column)
  {
    if rows == [] then None
    else
      var n := |rows| - 1;
      var best := First(rows[..n], column);
      if best == None || Value(rows[n], column) > Value(best.value, column)
         || (Value(rows[n], column) == Value(best.value, column) && rows[n].id > best.value.id)
      then Some(rows[n]) else best
  }

  /** summarizeFromDB. */
  function SummarizeFromDB(table: seq<Stored>, scheduleId: string): Summary {
    var created := Where(table, scheduleId, Some(IsCreated));
    var skipped := Where(table, scheduleId, Some(IsSkipped));
    var last := First(Where(table, scheduleId, None), ExpectedAt);
    var latestRun := First(created, ExpectedAt);
    var lastSkipped := First(skipped, RecordedAt);
    var newest := First(Where(table, scheduleId, None), LastEventAt);
    Summary(if newest.Some? then newest.value.row.lastEventAt else 0,
            if last.Some? then last.value.row.expectedAt else 0,
            if last.Some? then last.value.row.occurrenceId else "",
            |created|, |skipped|,
            if lastSkipped.Some? then Some(lastSkipped.value.row.recordedAt) else None,
            if latestRun.Some? then latestRun.value.row.runId else "",
            if latestRun.Some? then latestRun.value.row.creationLateness else None,
            if latestRun.Some? then latestRun.value.row.startLateness else None)
  }

  lemma {:induction false} WhereMembers(table: seq<Stored>, scheduleId: string, outcome: Option<Outcome>)
    ensures forall r :: r in Where(table, scheduleId, outcome) <==>
              r in table && r.row.scheduleId == scheduleId && (outcome == None || r.row.outcome == outcome.value)
  {
    if table != [] {
      var n := |table| - 1;
      WhereMembers(table[..n], scheduleId, outcome);
      assert table == table[..n] + [table[n]];
    }
  }

  lemma {:induction false} WhereCounts(table: seq<Stored>, scheduleId: string, outcome: Outcome)
    ensures |Where(table, scheduleId, Some(outcome))| == Count(Where(table, scheduleId, None), outcome)
  {
    if table != [] {
      var n := |table| - 1;
      WhereCounts(table[..n], scheduleId, outcome);
      CountStep(Where(table[..n], scheduleId, None), table[n], outcome);
      if table[n].row.scheduleId == scheduleId {
        assert Where(table, scheduleId, None) == Where(table[..n], scheduleId, None) + [table[n]];
      } else {
        assert Where(table, scheduleId, None) == Where(table[..n], scheduleId, None);
      }
    }
  }

  /** The queries summarize the schedule's rows whenever their times are set. */
  lemma QueriesSummarize(table: seq<Stored>, scheduleId: string)
    requires var rows := Where(table, scheduleId, None);
             forall r :: r in rows ==> r.row.expectedAt > 0 && r.row.lastEventAt >= 0
    ensures Summarizes(SummarizeFromDB(table, scheduleId), Where(table, scheduleId, None))
  {
    var rows := Where(table, scheduleId, None);
    var p := SummarizeFromDB(table, scheduleId);
    WhereCounts(table, scheduleId, IsCreated);
    WhereCounts(table, scheduleId, IsSkipped);
    WhereMembers(table, scheduleId, None);
    WhereMembers(table, scheduleId, Some(IsCreated));
    WhereMembers(table, scheduleId, Some(IsSkipped));
    assert LastEventFits(rows, p.lastEventAt);
    if rows != [] {
      var last := First(rows, ExpectedAt).value;
      assert forall x :: x in rows ==> Value(x, ExpectedAt) == x.row.expectedAt;
      assert NoneLater(rows, last);
    }
    QueriedRun(table, scheduleId);
    QueriedSkip(table, scheduleId);
  }

  lemma QueriedRun(table: seq<Stored>, scheduleId: string)
    ensures LastRunFits(Where(table, scheduleId, None), SummarizeFromDB(table, scheduleId))
  {
    var rows, created := Where(table, scheduleId, None), Where(table, scheduleId, Some(IsCreated));
    WhereMembers(table, scheduleId, None);
    WhereMembers(table, scheduleId, Some(IsCreated));
    if created != [] {
      var r := First(created, ExpectedAt).value;
      assert forall x :: x in created ==> Value(x, ExpectedAt) == x.row.expectedAt;
      assert LatestRun(rows, r);
    }
  }

  lemma QueriedSkip(table: seq<Stored>, scheduleId: string)
    ensures LastSkippedFits(Where(table, scheduleId, None), SummarizeFromDB(table, scheduleId).lastSkippedAt)
  {
    var rows, skipped := Where(table, scheduleId, None), Where(table, scheduleId, Some(IsSkipped));
    WhereMembers(table, scheduleId, None);
    WhereMembers(table, scheduleId, Some(IsSkipped));
    if skipped != [] {
      var r := First(skipped, RecordedAt).value;
      assert forall x :: x in skipped ==> Value(x, RecordedAt) == x.row.recordedAt;
      assert r in rows;
    }
  }

  /** The loop's answer for the schedule's rows in any order is the queries' answer. */
  lemma LoopEqualsQueries(p: Summary, rows: seq<Stored>, table: seq<Stored>, scheduleId: string)
    requires Summarizes(p, rows) && Permutes(rows, Where(table, scheduleId, None))
    requires Set(rows) && forall r :: r in rows ==> r.row.lastEventAt >= 0
    ensures p == SummarizeFromDB(table, scheduleId)
  {
    SameMembers(rows, Where(table, scheduleId, None));
    QueriesSummarize(table, scheduleId);
    SummaryIsUnique(p, SummarizeFromDB(table, scheduleId), rows, Where(table, scheduleId, None));
  }

  // ---------------------------------------------------------------------------------------------------------
  // Where the condition comes from
  // ---------------------------------------------------------------------------------------------------------

  /** A row as the ledger keeps it for a generated occurrence id of a time after year 1. */
  ghost predicate Generated(r: Stored, scheduleId: string, t: Time) {
    && t >= SECOND && Representable(t)
    && r.row.occurrenceId == OccurrenceId(scheduleId, t)
    && ExpectedFromOccurrenceId(r.row.occurrenceId) == Some(r.row.expectedAt)
  }

  /** Rows with generated ids, one row per id, have set and distinct expected times. */
  lemma GeneratedIdsAreSet(rows: seq<Stored>, scheduleId: string, times: seq<Time>)
    requires |times| == |rows| && forall i :: 0 <= i < |rows| ==> Generated(rows[i], scheduleId, times[i])
    requires forall i, j :: 0 <= i < j < |rows| ==> rows[i].row.occurrenceId != rows[j].row.occurrenceId
    ensures Set(rows)
  {
    forall i | 0 <= i < |rows| ensures rows[i].row.expectedAt > 0 {
      assert Generated(rows[i], scheduleId, times[i]);
      OccurrenceIdRoundTrip(scheduleId, times[i]);
    }
    forall i, j | 0 <= i < |rows| && 0 <= j < |rows| && i != j ensures rows[i].row.expectedAt != rows[j].row.expectedAt {
      SameTimeSameId(rows[i], rows[j], scheduleId, times[i], times[j]);
    }
  }

  lemma SameTimeSameId(r: Stored, x: Stored, scheduleId: string, s: Time, t: Time)
    requires Generated(r, scheduleId, s) && Generated(x, scheduleId, t) && r.row.occurrenceId != x.row.occurrenceId
    ensures r.row.expectedAt != x.row.expectedAt
  {
    OccurrenceIdRoundTrip(scheduleId, s);
    OccurrenceIdRoundTrip(scheduleId, t);
    OccurrenceIdInjective(scheduleId, s, scheduleId, t);
  }
}
