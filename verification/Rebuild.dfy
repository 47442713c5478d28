/** internal/events/projection.go: the run projection table rebuilt from the event log. */
module Rebuild {
  import opened Options
  import opened RunReducer
  import EventOrder
  import ByType = RunByType

  type Envelope = EventOrder.Envelope

  datatype TaskRow = TaskRow(id: nat, jobId: string, status: Option<Status>, deleted: bool)

  /** The columns recomputed from the attempt, finding, annotation and alert tables. */
  datatype Counts = Counts(
    attempts: nat,
    latestAttemptId: string,
    latestAttemptStatus: string,
    latestWorkerId: string,
    findings: nat,
    annotations: nat,
    alerts: nat)

  datatype Wanted = Wanted(run: RunProjection, counts: Counts)

  datatype Row = Row(id: nat, createdAt: Time, deleted: bool, run: RunProjection, counts: Counts)

  datatype Report = Report(examined: nat, missing: nat, wrong: nat, junk: nat)

  const PAGE := 500

  // ---------------------------------------------------------------------------------------------------------
  // What one run's events imply
  // ---------------------------------------------------------------------------------------------------------

  function EventsOf(events: seq<Envelope>, jobId: string): seq<Envelope> {
    if events == [] then []
    else
      var n := |events| - 1;
      EventsOf(events[..n], jobId) + (if events[n].jobId == jobId then [events[n]] else [])
  }

  function Read(e: Envelope): RunEvent {
    RunEvent(KindOf(e.kind), e.occurredAt)
  }

  function Log(events: seq<Envelope>): seq<RunEvent> {
    seq(|events|, i requires 0 <= i < |events| => Read(events[i]))
  }

  function Implied(events: seq<Envelope>, task: TaskRow, counts: Counts): Wanted {
    var p := Project(Log(EventOrder.Sorted(EventsOf(events, task.jobId))));
    Wanted(if p.status == None then p.(status := task.status) else p, counts)
  }

  lemma {:induction false} EventsOfMultiset(events: seq<Envelope>, jobId: string, e: Envelope)
    ensures multiset(EventsOf(events, jobId))[e] == (if e.jobId == jobId then multiset(events)[e] else 0)
  {
    if events != [] {
      var n := |events| - 1;
      EventsOfMultiset(events[..n], jobId, e);
      assert events == events[..n] + [events[n]];
    }
  }

  lemma {:induction false} EventsOfDistinct(events: seq<Envelope>, jobId: string)
    requires EventOrder.DistinctIds(events)
    ensures EventOrder.DistinctIds(EventsOf(events, jobId))
    ensures forall e :: e in EventsOf(events, jobId) ==> e in events
  {
    if events != [] {
      var n := |events| - 1;
      EventsOfDistinct(events[..n], jobId);
      forall e | e in EventsOf(events[..n], jobId) ensures e.id != events[n].id {
        assert e in events[..n];
      }
    }
  }

  /** computeRunProjection is canonical: however the same events are stored, the projection is the same. */
  lemma ImpliedIsCanonical(a: seq<Envelope>, b: seq<Envelope>, task: TaskRow, counts: Counts)
    requires multiset(a) == multiset(b) && EventOrder.DistinctIds(a)
    ensures Implied(a, task, counts) == Implied(b, task, counts)
  {
    forall e ensures multiset(EventsOf(a, task.jobId))[e] == multiset(EventsOf(b, task.jobId))[e] {
      EventsOfMultiset(a, task.jobId, e);
      EventsOfMultiset(b, task.jobId, e);
    }
    assert multiset(EventsOf(a, task.jobId)) == multiset(EventsOf(b, task.jobId));
    EventsOfDistinct(a, task.jobId);
    EventOrder.SortIsCanonical(EventsOf(a, task.jobId), EventsOf(b, task.jobId));
  }

  /** The event table holds an event of this type for the job. */
  ghost predicate Stored(events: seq<Envelope>, jobId: string, eventType: string) {
    exists e :: e in events && e.jobId == jobId && e.kind == eventType
  }

  lemma KindTells(a: string, b: string)
    ensures KindOf(a) == KindOf(b) <==> a == b
  {
    assert TypeText(KindOf(a)) == a && TypeText(KindOf(b)) == b;
  }

  lemma MembersOfJob(events: seq<Envelope>, jobId: string)
    ensures forall e :: e in EventOrder.Sorted(EventsOf(events, jobId)) <==> e in events && e.jobId == jobId
  {
    var mine := EventsOf(events, jobId);
    EventOrder.SortedIsOrdered(mine);
    forall e ensures e in EventOrder.Sorted(mine) <==> e in events && e.jobId == jobId {
      EventsOfMultiset(events, jobId, e);
      assert e in EventOrder.Sorted(mine) <==> e in multiset(EventOrder.Sorted(mine));
      assert e in events <==> e in multiset(events);
    }
  }

  lemma LoggedIsStored(events: seq<Envelope>, jobId: string, eventType: string)
    ensures ByType.Logged(Log(EventOrder.Sorted(EventsOf(events, jobId))), eventType) <==> Stored(events, jobId, eventType)
  {
    var sorted := EventOrder.Sorted(EventsOf(events, jobId));
    var log := Log(sorted);
    MembersOfJob(events, jobId);
    if ByType.Logged(log, eventType) {
      var i :| 0 <= i < |log| && log[i].kind == KindOf(eventType);
      KindTells(sorted[i].kind, eventType);
      assert sorted[i] in sorted;
    }
    if Stored(events, jobId, eventType) {
      var e :| e in events && e.jobId == jobId && e.kind == eventType;
      assert e in sorted;
      var i :| 0 <= i < |sorted| && sorted[i] == e;
      assert log[i].kind == KindOf(eventType);
    }
  }

  /** What the rebuild writes, in the texts of the job's own events: the one way it ended; or, if it has not ended and was
      not recovered, the furthest it got; or, if its events say nothing of that, what its task says. */
  lemma ImpliedByType(events: seq<Envelope>, task: TaskRow, counts: Counts)
    ensures var completed := Stored(events, task.jobId, "task.completed");
            var failed := Stored(events, task.jobId, "task.failed");
            var blocked := Stored(events, task.jobId, "task.blocked");
            var status := Implied(events, task, counts).run.status;
            && (completed && !failed && !blocked ==> status == Some(Completed))
            && (failed && !completed && !blocked ==> status == Some(Failed))
            && (blocked && !completed && !failed ==> status == Some(Blocked))
            && (!completed && !failed && !blocked && !Stored(events, task.jobId, "task.recovery_started") ==>
                  status == if Stored(events, task.jobId, "task.started") then Some(Running)
                            else if Stored(events, task.jobId, "task.queued") then Some(Queued)
                            else if || Stored(events, task.jobId, "task.created")
                                    || Stored(events, task.jobId, "task.rerun_created") then Some(Pending)
                            else task.status)
  {
    JobLogged(events, task.jobId);
    ByType.StatusByType(Log(EventOrder.Sorted(EventsOf(events, task.jobId))));
  }

  lemma JobLogged(events: seq<Envelope>, jobId: string)
    ensures var log := Log(EventOrder.Sorted(EventsOf(events, jobId)));
            && (ByType.Logged(log, "task.completed") <==> Stored(events, jobId, "task.completed"))
            && (ByType.Logged(log, "task.failed") <==> Stored(events, jobId, "task.failed"))
            && (ByType.Logged(log, "task.blocked") <==> Stored(events, jobId, "task.blocked"))
            && (ByType.Logged(log, "task.recovery_started") <==> Stored(events, jobId, "task.recovery_started"))
            && (ByType.Logged(log, "task.started") <==> Stored(events, jobId, "task.started"))
            && (ByType.Logged(log, "task.queued") <==> Stored(events, jobId, "task.queued"))
            && (ByType.Logged(log, "task.created") <==> Stored(events, jobId, "task.created"))
            && (ByType.Logged(log, "task.rerun_created") <==> Stored(events, jobId, "task.rerun_created"))
  {
    LoggedIsStored(events, jobId, "task.completed");
    LoggedIsStored(events, jobId, "task.failed");
    LoggedIsStored(events, jobId, "task.blocked");
    LoggedIsStored(events, jobId, "task.recovery_started");
    LoggedIsStored(events, jobId, "task.started");
    LoggedIsStored(events, jobId, "task.queued");
    LoggedIsStored(events, jobId, "task.created");
    LoggedIsStored(events, jobId, "task.rerun_created");
  }

  // ---------------------------------------------------------------------------------------------------------
  // Comparison to the microsecond
  // ---------------------------------------------------------------------------------------------------------

  function Micro(t: Time): Time {
    t - t % 1000
  }

  predicate SameTime(a: Time, b: Time) {
    Micro(a) == Micro(b)
  }

  predicate ProjectionsEqual(a: RunProjection, ac: Counts, b: RunProjection, bc: Counts) {
    && a.status == b.status
    && SameTime(a.queuedAt, b.queuedAt) && SameTime(a.startedAt, b.startedAt)
    && SameTime(a.completedAt, b.completedAt) && SameTime(a.lastEventAt, b.lastEventAt)
    && a.recoveryStarted == b.recoveryStarted && a.wasReclaimed == b.wasReclaimed
    && ac.findings == bc.findings && ac.attempts == bc.attempts
    && ac.latestAttemptId == bc.latestAttemptId && ac.latestAttemptStatus == bc.latestAttemptStatus
    && ac.latestWorkerId == bc.latestWorkerId
    && ac.annotations == bc.annotations && ac.alerts == bc.alerts
    && a.contradicted == b.contradicted && a.note == b.note
  }

  /** What the database keeps of a projection: no nanoseconds. */
  function Kept(p: RunProjection): RunProjection {
    p.(queuedAt := Micro(p.queuedAt), startedAt := Micro(p.startedAt), completedAt := Micro(p.completedAt),
       lastEventAt := Micro(p.lastEventAt))
  }

  lemma MicroTwice(t: Time)
    ensures Micro(Micro(t)) == Micro(t)
  {
    assert Micro(t) == 1000 * (t / 1000);
  }

  /** Two times are taken for the same exactly when they fall in one microsecond. */
  lemma SameMicrosecond(a: Time, b: Time)
    ensures SameTime(a, b) <==> exists m: nat {:trigger Within(a, m)} :: Within(a, m) && Within(b, m)
  {
    assert Within(a, a / 1000);
    assert Within(b, b / 1000);
  }

  /** The time falls in the m-th microsecond. */
  predicate Within(t: Time, m: nat) {
    m * 1000 <= t < (m + 1) * 1000
  }

  /** projectionsEqual holds exactly when the database would keep the same thing of both, so it is an equivalence. */
  lemma EqualMeansKeptTheSame(a: RunProjection, ac: Counts, b: RunProjection, bc: Counts)
    ensures ProjectionsEqual(a, ac, b, bc) <==> Kept(a) == Kept(b) && ac == bc
    ensures ProjectionsEqual(Kept(a), ac, a, ac)
  {
    forall t ensures Micro(Micro(t)) == Micro(t) {
      MicroTwice(t);
    }
  }

  // ---------------------------------------------------------------------------------------------------------
  // The pass over the tasks
  // ---------------------------------------------------------------------------------------------------------

  function Selected(tasks: seq<TaskRow>, prefix: string): (r: seq<TaskRow>) {
    if tasks == [] then []
    else
      var n := |tasks| - 1;
      Selected(tasks[..n], prefix) + (if !tasks[n].deleted && prefix <= tasks[n].jobId then [tasks[n]] else [])
  }

  function After(tasks: seq<TaskRow>, lastId: nat): seq<TaskRow> {
    if tasks == [] then []
    else if tasks[0].id > lastId then [tasks[0]] + After(tasks[1..], lastId)
    else After(tasks[1..], lastId)
  }

  ghost predicate Ascending(tasks: seq<TaskRow>) {
    && (forall i :: 0 <= i < |tasks| ==> tasks[i].id > 0)
    && (forall i, j :: 0 <= i < j < |tasks| ==> tasks[i].id < tasks[j].id)
  }

  ghost predicate DistinctJobs(tasks: seq<TaskRow>) {
    forall i, j :: 0 <= i < j < |tasks| ==> tasks[i].jobId != tasks[j].jobId
  }

  lemma {:induction false} SelectedMembers(tasks: seq<TaskRow>, prefix: string)
    ensures forall t :: t in Selected(tasks, prefix) <==> t in tasks && !t.deleted && prefix <= t.jobId
  {
    if tasks != [] {
      var n := |tasks| - 1;
      assert tasks == tasks[..n] + [tasks[n]];
      SelectedMembers(tasks[..n], prefix);
    }
  }

  lemma {:induction false} SelectedInOrder(tasks: seq<TaskRow>, prefix: string)
    requires Ascending(tasks) && DistinctJobs(tasks)
    ensures Ascending(Selected(tasks, prefix)) && DistinctJobs(Selected(tasks, prefix))
  {
    if tasks != [] {
      var n := |tasks| - 1;
      SelectedInOrder(tasks[..n], prefix);
      SelectedMembers(tasks[..n], prefix);
      forall t | t in Selected(tasks[..n], prefix) ensures t.id < tasks[n].id && t.jobId != tasks[n].jobId {
        var i :| 0 <= i < n && tasks[i] == t;
      }
      OrderSnoc(Selected(tasks[..n], prefix), tasks[n]);
    }
  }

  lemma OrderSnoc(tasks: seq<TaskRow>, t: TaskRow)
    requires Ascending(tasks) && DistinctJobs(tasks) && t.id > 0
    requires forall x :: x in tasks ==> x.id < t.id && x.jobId != t.jobId
    ensures Ascending(tasks + [t]) && DistinctJobs(tasks + [t])
  {
  }

  function FirstPage(tasks: seq<TaskRow>): seq<TaskRow> {
    if |tasks| <= PAGE then tasks else tasks[..PAGE]
  }

  /** What follows the last examined id is what has not been examined: no task is missed or met twice. */
  lemma {:induction false} AfterIsTheRest(done: seq<TaskRow>, rest: seq<TaskRow>, lastId: nat)
    requires Ascending(done + rest)
    requires lastId == if done == [] then 0 else done[|done| - 1].id
    ensures After(done + rest, lastId) == rest
  {
    var all := done + rest;
    if done == [] {
      forall t | t in rest ensures t.id > 0 {
        var i :| 0 <= i < |rest| && rest[i] == t;
        assert all[i] == t;
      }
      AfterAll(rest, lastId);
      assert all == rest;
    } else if |done| == 1 {
      forall t | t in rest ensures t.id > lastId {
        var i :| 0 <= i < |rest| && rest[i] == t;
        assert all[1 + i] == t;
      }
      AfterAll(rest, lastId);
      assert all[1..] == rest;
    } else {
      assert all[1..] == done[1..] + rest;
      assert all[0].id < all[|done| - 1].id;
      AfterIsTheRest(done[1..], rest, lastId);
    }
  }

  lemma {:induction false} AfterAll(tasks: seq<TaskRow>, lastId: nat)
    requires forall t :: t in tasks ==> t.id > lastId
    ensures After(tasks, lastId) == tasks
  {
    if tasks != [] {
      AfterAll(tasks[1..], lastId);
    }
  }

  predicate IsMissing(rows: map<string, Row>, task: TaskRow) {
    task.jobId !in rows
  }

  predicate IsRight(rows: map<string, Row>, task: TaskRow, want: Wanted) {
    && task.jobId in rows
    && !rows[task.jobId].deleted
    && ProjectionsEqual(rows[task.jobId].run, rows[task.jobId].counts, want.run, want.counts)
  }

  /** Rows without a projection, and rows that disagree with what their events imply. */
  ghost function Tally(rows: map<string, Row>, tasks: seq<TaskRow>, events: seq<Envelope>, counts: string -> Counts): (nat, nat) {
    if tasks == [] then (0, 0)
    else
      var n := |tasks| - 1;
      var (missing, wrong) := Tally(rows, tasks[..n], events, counts);
      if IsMissing(rows, tasks[n]) then (missing + 1, wrong)
      else if !IsRight(rows, tasks[n], Implied(events, tasks[n], counts(tasks[n].jobId))) then (missing, wrong + 1)
      else (missing, wrong)
  }

  ghost predicate AllRight(rows: map<string, Row>, tasks: seq<TaskRow>, events: seq<Envelope>, counts: string -> Counts) {
    forall t :: t in tasks ==> IsRight(rows, t, Implied(events, t, counts(t.jobId)))
  }

  lemma AllRightSnoc(rows: map<string, Row>, tasks: seq<TaskRow>, t: TaskRow, events: seq<Envelope>, counts: string -> Counts)
    ensures AllRight(rows, tasks + [t], events, counts) <==>
            AllRight(rows, tasks, events, counts) && IsRight(rows, t, Implied(events, t, counts(t.jobId)))
  {
    assert forall x :: x in tasks + [t] <==> x in tasks || x == t;
  }

  lemma AllRightLast(rows: map<string, Row>, tasks: seq<TaskRow>, events: seq<Envelope>, counts: string -> Counts)
    requires tasks != []
    ensures var n := |tasks| - 1;
            AllRight(rows, tasks, events, counts) <==>
            AllRight(rows, tasks[..n], events, counts) && IsRight(rows, tasks[n], Implied(events, tasks[n], counts(tasks[n].jobId)))
  {
    var n := |tasks| - 1;
    AllRightSnoc(rows, tasks[..n], tasks[n], events, counts);
    assert tasks == tasks[..n] + [tasks[n]];
  }

  /** Nothing missing and nothing wrong is reported exactly when every examined task has a right row. */
  lemma {:induction false} TallyIsZero(rows: map<string, Row>, tasks: seq<TaskRow>, events: seq<Envelope>, counts: string -> Counts)
    ensures Tally(rows, tasks, events, counts) == (0, 0) <==> AllRight(rows, tasks, events, counts)
  {
    if tasks != [] {
      var n := |tasks| - 1;
      TallyIsZero(rows, tasks[..n], events, counts);
      AllRightLast(rows, tasks, events, counts);
    }
  }

  /** The two numbers count the examined tasks that have no row, and those that have one that is not right. */
  lemma {:induction false} TallyCounts(rows: map<string, Row>, tasks: seq<TaskRow>, events: seq<Envelope>, counts: string -> Counts)
    requires DistinctJobs(tasks)
    ensures Tally(rows, tasks, events, counts) == (|Missing(rows, tasks)|, |Wrong(rows, tasks, events, counts)|)
  {
    if tasks != [] {
      var n := |tasks| - 1;
      forall x | x in tasks[..n] ensures x != tasks[n] {
        var i :| 0 <= i < n && tasks[i] == x;
      }
      TallyCounts(rows, tasks[..n], events, counts);
      TallySnoc(rows, tasks[..n], tasks[n], events, counts);
      assert tasks == tasks[..n] + [tasks[n]];
    }
  }

  lemma TallySnoc(rows: map<string, Row>, tasks: seq<TaskRow>, t: TaskRow, events: seq<Envelope>, counts: string -> Counts)
    requires t !in tasks && Tally(rows, tasks, events, counts) == (|Missing(rows, tasks)|, |Wrong(rows, tasks, events, counts)|)
    ensures Tally(rows, tasks + [t], events, counts) ==
            (|Missing(rows, tasks + [t])|, |Wrong(rows, tasks + [t], events, counts)|)
  {
    assert (tasks + [t])[..|tasks|] == tasks;
    MissingSnoc(rows, tasks, t);
    WrongSnoc(rows, tasks, t, events, counts);
  }

  lemma MissingSnoc(rows: map<string, Row>, tasks: seq<TaskRow>, t: TaskRow)
    requires t !in tasks
    ensures |Missing(rows, tasks + [t])| == |Missing(rows, tasks)| + (if IsMissing(rows, t) then 1 else 0)
  {
    assert Missing(rows, tasks + [t]) == Missing(rows, tasks) + (if IsMissing(rows, t) then {t} else {});
  }

  lemma WrongSnoc(rows: map<string, Row>, tasks: seq<TaskRow>, t: TaskRow, events: seq<Envelope>, counts: string -> Counts)
    requires t !in tasks
    ensures |Wrong(rows, tasks + [t], events, counts)| ==
            |Wrong(rows, tasks, events, counts)| + (if IsWrong(rows, t, events, counts) then 1 else 0)
  {
    assert Wrong(rows, tasks + [t], events, counts) ==
           Wrong(rows, tasks, events, counts) + (if IsWrong(rows, t, events, counts) then {t} else {});
  }

  ghost function Missing(rows: map<string, Row>, tasks: seq<TaskRow>): set<TaskRow> {
    set t | t in tasks && t.jobId !in rows
  }

  ghost predicate IsWrong(rows: map<string, Row>, t: TaskRow, events: seq<Envelope>, counts: string -> Counts) {
    t.jobId in rows && !IsRight(rows, t, Implied(events, t, counts(t.jobId)))
  }

  /** They have a row, deleted or different from what their events imply. */
  ghost function Wrong(rows: map<string, Row>, tasks: seq<TaskRow>, events: seq<Envelope>, counts: string -> Counts): set<TaskRow> {
    set t | t in tasks && IsWrong(rows, t, events, counts)
  }

  function JunkJobs(rows: map<string, Row>, tasks: seq<TaskRow>, prefix: string): set<string> {
    set j | j in rows && prefix <= j && !HasTask(tasks, j)
  }

  predicate HasTask(tasks: seq<TaskRow>, jobId: string) {
    exists t :: t in tasks && t.jobId == jobId
  }

  function JobsOf(tasks: seq<TaskRow>): set<string> {
    set t | t in tasks :: t.jobId
  }

  /** An examined task's row is right afterwards; it was not touched if it was right, and keeps its identity if it was
      repaired. */
  ghost predicate Fixed(was: map<string, Row>, rows: map<string, Row>, t: TaskRow, want: Wanted) {
    && IsRight(rows, t, want)
    && (IsRight(was, t, want) ==> rows[t.jobId] == was[t.jobId])
    && (t.jobId in was ==> rows[t.jobId].id == was[t.jobId].id && rows[t.jobId].createdAt == was[t.jobId].createdAt)
  }

  /** What an applying pass over these tasks does to the table: their rows are fixed and every other one is as it was. */
  ghost predicate Repaired(was: map<string, Row>, rows: map<string, Row>, tasks: seq<TaskRow>, events: seq<Envelope>,
                           counts: string -> Counts) {
    && (forall t {:trigger Implied(events, t, counts(t.jobId))} ::
          t in tasks ==> Fixed(was, rows, t, Implied(events, t, counts(t.jobId))))
    && rows - JobsOf(tasks) == was - JobsOf(tasks)
  }

  lemma RepairedGrows(was: map<string, Row>, rows: map<string, Row>, rows': map<string, Row>, tasks: seq<TaskRow>, t: TaskRow,
                      events: seq<Envelope>, counts: string -> Counts)
    requires Repaired(was, rows, tasks, events, counts) && t.jobId !in JobsOf(tasks)
    requires rows' - {t.jobId} == rows - {t.jobId}
    requires Fixed(was, rows', t, Implied(events, t, counts(t.jobId)))
    ensures Repaired(was, rows', tasks + [t], events, counts)
  {
    forall x | x in tasks + [t] ensures Fixed(was, rows', x, Implied(events, x, counts(x.jobId))) {
      if x in tasks {
        var want := Implied(events, x, counts(x.jobId));
        assert x.jobId in JobsOf(tasks);
        assert Fixed(was, rows, x, want);
        assert x.jobId in rows - {t.jobId};
        assert (rows' - {t.jobId})[x.jobId] == (rows - {t.jobId})[x.jobId];
      } else {
        assert x == t;
      }
    }
    var jobs := JobsOf(tasks + [t]);
    assert jobs == JobsOf(tasks) + {t.jobId};
    assert rows' - jobs == (rows' - {t.jobId}) - JobsOf(tasks);
    assert was - jobs == (was - JobsOf(tasks)) - {t.jobId};
    assert rows - jobs == (rows - JobsOf(tasks)) - {t.jobId} == (rows - {t.jobId}) - JobsOf(tasks);
  }

  /** The state of a pass after these tasks. */
  ghost predicate Progress(was: map<string, Row>, rows: map<string, Row>, report: Report, done: seq<TaskRow>, apply: bool,
                           events: seq<Envelope>, counts: string -> Counts) {
    && report.examined == |done| && report.junk == 0
    && (report.missing, report.wrong) == Tally(was, done, events, counts)
    && (!apply ==> rows == was)
    && (apply ==> Repaired(was, rows, done, events, counts))
  }

  lemma ProgressGrows(was: map<string, Row>, rows: map<string, Row>, rows': map<string, Row>, report: Report, report': Report,
                      done: seq<TaskRow>, t: TaskRow, apply: bool, events: seq<Envelope>, counts: string -> Counts)
    requires Progress(was, rows, report, done, apply, events, counts)
    requires t.jobId !in JobsOf(done)
    requires t.jobId in rows <==> t.jobId in was
    requires t.jobId in rows ==> rows[t.jobId] == was[t.jobId]
    requires var want := Implied(events, t, counts(t.jobId));
             && report' == report.(examined := report.examined + 1,
                                   missing := report.missing + (if IsMissing(rows, t) then 1 else 0),
                                   wrong := report.wrong + (if IsMissing(rows, t) || IsRight(rows, t, want) then 0 else 1))
             && rows' - {t.jobId} == rows - {t.jobId}
             && (!apply || IsRight(rows, t, want) ==> rows' == rows)
             && (apply ==> IsRight(rows', t, want))
             && (apply && t.jobId in rows ==>
                   rows'[t.jobId].id == rows[t.jobId].id && rows'[t.jobId].createdAt == rows[t.jobId].createdAt)
    ensures Progress(was, rows', report', done + [t], apply, events, counts)
  {
    assert (done + [t])[..|done|] == done;
    if apply {
      RepairedGrows(was, rows, rows', done, t, events, counts);
    }
  }

  class ProjectionStore {
    const tasks: seq<TaskRow>
    const events: seq<Envelope>
    const counts: string -> Counts
    var rows: map<string, Row>
    var nextId: nat

    constructor (tasks: seq<TaskRow>, events: seq<Envelope>, counts: string -> Counts, rows: map<string, Row>, nextId: nat)
      ensures this.tasks == tasks && this.events == events && this.counts == counts
      ensures this.rows == rows && this.nextId == nextId
    {
      this.tasks, this.events, this.counts, this.rows, this.nextId := tasks, events, counts, rows, nextId;
    }

    /** The task table is read in id order, and a job id names one task. */
    ghost predicate Valid() {
      Ascending(tasks) && DistinctJobs(tasks)
    }

    method ComputeRunProjection(task: TaskRow) returns (want: Wanted)
      ensures want == Implied(events, task, counts(task.jobId))
    {
      var stored := EventsOf(events, task.jobId);
      var a := new Envelope[|stored|](i requires 0 <= i < |stored| => stored[i]);
      assert a[..] == stored;
      EventOrder.SortEvents(a);
      var p := EMPTY;
      var log := Log(a[..]);
      for i := 0 to a.Length
        invariant a[..] == EventOrder.Sorted(stored)
        invariant p == Project(log[..i])
      {
        p := ReduceRun(p, RunEvent(KindOf(a[i].kind), a[i].occurredAt));
        assert log[..i + 1][..i] == log[..i];
      }
      assert log[..a.Length] == log;
      if p.status == None {
        p := p.(status := task.status);
      }
      want := Wanted(p, counts(task.jobId));
    }

    /** One task of the pass. */
    method Examine(task: TaskRow, apply: bool, now: Time, report: Report) returns (after: Report)
      modifies this
      ensures var want := Implied(events, task, counts(task.jobId));
              && after == report.(examined := report.examined + 1,
                                  missing := report.missing + (if IsMissing(old(rows), task) then 1 else 0),
                                  wrong := report.wrong + (if IsMissing(old(rows), task) || IsRight(old(rows), task, want) then 0 else 1))
              && rows - {task.jobId} == old(rows) - {task.jobId}
              && (!apply || IsRight(old(rows), task, want) ==> rows == old(rows) && nextId == old(nextId))
              && (apply ==> IsRight(rows, task, want))
              && (apply && task.jobId in old(rows) ==>
                    && rows[task.jobId].id == old(rows)[task.jobId].id
                    && rows[task.jobId].createdAt == old(rows)[task.jobId].createdAt)
    {
      after := report.(examined := report.examined + 1);
      var want := ComputeRunProjection(task);
      EqualMeansKeptTheSame(want.run, want.counts, want.run, want.counts);
      if task.jobId !in rows {
        after := after.(missing := after.missing + 1);
        if apply {
          rows := rows[task.jobId := Row(nextId, now, false, Kept(want.run), want.counts)];
          nextId := nextId + 1;
        }
      } else {
        var stored := rows[task.jobId];
        if stored.deleted || !ProjectionsEqual(stored.run, stored.counts, want.run, want.counts) {
          after := after.(wrong := after.wrong + 1);
          if apply {
            rows := rows[task.jobId := Row(stored.id, stored.createdAt, false, Kept(want.run), want.counts)];
          }
        }
      }
    }

    /** One page of the pass, examined in id order. */
    method ExaminePage(page: seq<TaskRow>, apply: bool, now: Time, before: Report, ghost was: map<string, Row>,
                       ghost examined: seq<TaskRow>)
      returns (report: Report, lastId: nat)
      requires page != [] && DistinctJobs(examined + page)
      requires Progress(was, rows, before, examined, apply, events, counts)
      modifies this
      ensures Progress(was, rows, report, examined + page, apply, events, counts)
      ensures lastId == page[|page| - 1].id
      ensures !apply ==> nextId == old(nextId)
    {
      report := before;
      lastId := page[0].id;
      ghost var done := examined;
      for i := 0 to |page|
        invariant done == examined + page[..i]
        invariant Progress(was, rows, report, done, apply, events, counts)
        invariant i > 0 ==> lastId == page[i - 1].id
        invariant !apply ==> nextId == old(nextId)
      {
        ghost var rows0, report0 := rows, report;
        lastId := page[i].id;
        StillToCome(examined, page, i);
        NotYet(done, page[i], was, rows, apply, events, counts);
        report := Examine(page[i], apply, now, report);
        ProgressGrows(was, rows0, rows, report0, report, done, page[i], apply, events, counts);
        done := done + [page[i]];
      }
      assert page[..|page|] == page;
    }

    /** The pass: check mode only reports; apply mode leaves exactly one right row per examined task and no junk. */
    method RebuildRunProjections(apply: bool, prefix: string, now: Time) returns (report: Report)
      requires Valid()
      modifies this
      ensures report.examined == |Selected(tasks, prefix)|
      ensures (report.missing, report.wrong) == Tally(old(rows), Selected(tasks, prefix), events, counts)
      ensures report.junk == |JunkJobs(old(rows), tasks, prefix)|
      ensures !apply ==> rows == old(rows) && nextId == old(nextId)
      ensures apply ==> AfterApplying(old(rows), rows, tasks, prefix, events, counts)
    {
      ghost var was := rows;
      report := ExamineAll(apply, prefix, now);
      ghost var mid := rows;
      JunkIsTheSame(was, rows, tasks, prefix, apply, events, counts);
      var junk := JunkJobs(rows, tasks, prefix);
      report := report.(junk := |junk|);
      if apply && |junk| > 0 {
        rows := rows - junk;
      }
      if apply {
        assert rows == mid - JunkJobs(was, tasks, prefix);
        AppliedInFull(was, mid, rows, tasks, prefix, events, counts);
      }
    }

    /** The paging loop. */
    method ExamineAll(apply: bool, prefix: string, now: Time) returns (report: Report)
      requires Valid()
      modifies this
      ensures Progress(old(rows), rows, report, Selected(tasks, prefix), apply, events, counts)
      ensures !apply ==> nextId == old(nextId)
    {
      report := Report(0, 0, 0, 0);
      var lastId := 0;
      ghost var all, done, was := Selected(tasks, prefix), [], rows;
      ghost var rest := all;
      NextPage(tasks, prefix, done, rest, lastId);
      var page := Page(lastId, prefix);
      while page != []
        invariant done + rest == all && page == FirstPage(rest) && DistinctJobs(done + page)
        invariant Progress(was, rows, report, done, apply, events, counts)
        invariant !apply ==> nextId == old(nextId)
        decreases |rest|
      {
        report, lastId := ExaminePage(page, apply, now, report, was, done);
        Regroup(done, page, rest);
        done, rest := done + page, rest[|page|..];
        NextPage(tasks, prefix, done, rest, lastId);
        page := Page(lastId, prefix);
      }
      Regroup(done, [], rest);
    }

    /** The next tasks after lastId in id order, at most a page of them. */
    method Page(lastId: nat, prefix: string) returns (page: seq<TaskRow>)
      ensures page == FirstPage(After(Selected(tasks, prefix), lastId))
    {
      page := After(Selected(tasks, prefix), lastId);
      if |page| > PAGE {
        page := page[..PAGE];
      }
    }
  }

  lemma Regroup(done: seq<TaskRow>, page: seq<TaskRow>, rest: seq<TaskRow>)
    requires page == FirstPage(rest)
    ensures (done + page) + rest[|page|..] == done + rest
    ensures page == [] ==> done + rest == done
  {
  }

  /** With `done` examined up to lastId, the next page is the first of the rest. */
  lemma NextPage(tasks: seq<TaskRow>, prefix: string, done: seq<TaskRow>, rest: seq<TaskRow>, lastId: nat)
    requires Ascending(tasks) && DistinctJobs(tasks)
    requires done + rest == Selected(tasks, prefix)
    requires lastId == if done == [] then 0 else done[|done| - 1].id
    ensures After(Selected(tasks, prefix), lastId) == rest
    ensures DistinctJobs(done + FirstPage(rest))
  {
    SelectedInOrder(tasks, prefix);
    AfterIsTheRest(done, rest, lastId);
    var page := FirstPage(rest);
    assert done + page == (done + rest)[..|done + page|];
  }

  lemma StillToCome(examined: seq<TaskRow>, page: seq<TaskRow>, i: nat)
    requires i < |page| && DistinctJobs(examined + page)
    ensures page[i].jobId !in JobsOf(examined + page[..i])
    ensures examined + page[..i + 1] == examined + page[..i] + [page[i]]
  {
    var all, done := examined + page, examined + page[..i];
    assert done == all[..|done|] && page[i] == all[|done|];
    forall t | t in done ensures t.jobId != page[i].jobId {
      var k :| 0 <= k < |done| && done[k] == t;
      assert all[k] == t;
    }
  }

  /** A task not examined yet still has the row, or the absence of one, that it had before the pass. */
  lemma NotYet(done: seq<TaskRow>, t: TaskRow, was: map<string, Row>, rows: map<string, Row>, apply: bool, events: seq<Envelope>,
               counts: string -> Counts)
    requires t.jobId !in JobsOf(done)
    requires !apply ==> rows == was
    requires apply ==> Repaired(was, rows, done, events, counts)
    ensures t.jobId in rows <==> t.jobId in was
    ensures t.jobId in rows ==> rows[t.jobId] == was[t.jobId]
  {
    if apply {
      OthersAsTheyWere(was, rows, JobsOf(done));
    }
  }

  lemma JunkIsTheSame(was: map<string, Row>, rows: map<string, Row>, tasks: seq<TaskRow>, prefix: string, apply: bool,
                      events: seq<Envelope>, counts: string -> Counts)
    requires !apply ==> rows == was
    requires apply ==> Repaired(was, rows, Selected(tasks, prefix), events, counts)
    ensures JunkJobs(rows, tasks, prefix) == JunkJobs(was, tasks, prefix)
  {
    SelectedMembers(tasks, prefix);
    var jobs := JobsOf(Selected(tasks, prefix));
    forall j | !HasTask(tasks, j) ensures j in rows <==> j in was {
      assert j !in jobs;
      assert j in rows <==> j in rows - jobs;
      assert j in was <==> j in was - jobs;
    }
  }

  /** What an applying pass leaves: every examined task has exactly one row and it is right, no row is without a task,
      right rows were not touched, repaired rows kept their identity, and rows outside the prefix are as they were. */
  ghost predicate AfterApplying(was: map<string, Row>, rows: map<string, Row>, tasks: seq<TaskRow>, prefix: string,
                                events: seq<Envelope>, counts: string -> Counts) {
    && AllRight(rows, Selected(tasks, prefix), events, counts)
    && (forall j :: j in rows && prefix <= j ==> HasTask(tasks, j))
    && (forall j :: j in was && j !in rows ==> prefix <= j && !HasTask(tasks, j))
    && (forall j :: j in rows && j !in was ==> j in JobsOf(Selected(tasks, prefix)))
    && (forall j :: j in was && j in rows ==> rows[j].id == was[j].id && rows[j].createdAt == was[j].createdAt)
    && (forall j :: j in was && j in rows && j !in JobsOf(Selected(tasks, prefix)) ==> rows[j] == was[j])
    && (forall t :: t in Selected(tasks, prefix) && IsRight(was, t, Implied(events, t, counts(t.jobId))) ==>
          rows[t.jobId] == was[t.jobId])
  }

  lemma AppliedInFull(was: map<string, Row>, mid: map<string, Row>, rows: map<string, Row>, tasks: seq<TaskRow>, prefix: string,
                      events: seq<Envelope>, counts: string -> Counts)
    requires Repaired(was, mid, Selected(tasks, prefix), events, counts)
    requires rows == mid - JunkJobs(was, tasks, prefix)
    ensures AfterApplying(was, rows, tasks, prefix, events, counts)
  {
    var all := Selected(tasks, prefix);
    SelectedMembers(tasks, prefix);
    JunkIsTheSame(was, mid, tasks, prefix, true, events, counts);
    forall t | t in all
      ensures t.jobId in rows && rows[t.jobId] == mid[t.jobId] && Fixed(was, rows, t, Implied(events, t, counts(t.jobId)))
    {
      assert Fixed(was, mid, t, Implied(events, t, counts(t.jobId)));
      assert HasTask(tasks, t.jobId);
    }
    OthersAsTheyWere(was, mid, JobsOf(all));
    forall j | j in was && j in rows ensures rows[j].id == was[j].id && rows[j].createdAt == was[j].createdAt {
      if j in JobsOf(all) {
        var t :| t in all && t.jobId == j;
        assert rows[t.jobId] == mid[t.jobId];
      }
    }
  }

  lemma OthersAsTheyWere(was: map<string, Row>, mid: map<string, Row>, jobs: set<string>)
    requires mid - jobs == was - jobs
    ensures forall j :: j !in jobs ==> (j in mid <==> j in was) && (j in mid ==> mid[j] == was[j])
  {
    forall j | j !in jobs ensures (j in mid <==> j in was) && (j in mid ==> mid[j] == was[j]) {
      assert j in mid <==> j in mid - jobs;
      assert j in was <==> j in was - jobs;
      if j in mid {
        assert (mid - jobs)[j] == mid[j] && (was - jobs)[j] == was[j];
      }
    }
  }

  /** The pass is idempotent: after an applying pass a second one has nothing to report. */
  lemma SecondPassFindsNothing(was: map<string, Row>, rows: map<string, Row>, tasks: seq<TaskRow>, prefix: string,
                               events: seq<Envelope>, counts: string -> Counts)
    requires AfterApplying(was, rows, tasks, prefix, events, counts)
    ensures Tally(rows, Selected(tasks, prefix), events, counts) == (0, 0)
    ensures JunkJobs(rows, tasks, prefix) == {}
  {
    TallyIsZero(rows, Selected(tasks, prefix), events, counts);
  }
}
