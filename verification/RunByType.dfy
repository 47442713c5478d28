/** internal/events/run_reducer.go, said in the texts of the event types: which status, times, flags and note a log gives. */
module RunByType {
  import opened Options
  import opened RunReducer

  /** An event of this type was logged. */
  ghost predicate Logged(log: seq<RunEvent>, eventType: string) {
    exists e :: e in log && e.kind == KindOf(eventType)
  }

  lemma KindsOfTexts()
    ensures KindOf("task.created") == TaskCreated && KindOf("task.rerun_created") == TaskRerunCreated
    ensures KindOf("task.queued") == TaskQueued && KindOf("task.started") == TaskStarted
    ensures KindOf("task.completed") == TaskCompleted && KindOf("task.failed") == TaskFailed
    ensures KindOf("task.blocked") == TaskBlocked && KindOf("task.recovery_started") == RecoveryStarted
  {
  }

  /** Which texts assert which status. */
  lemma OccursByType(log: seq<RunEvent>)
    ensures Occurs(log, Completed) <==> Logged(log, "task.completed")
    ensures Occurs(log, Failed) <==> Logged(log, "task.failed")
    ensures Occurs(log, Blocked) <==> Logged(log, "task.blocked")
    ensures Occurs(log, Running) <==> Logged(log, "task.started")
    ensures Occurs(log, Queued) <==> Logged(log, "task.queued")
    ensures Occurs(log, Pending) <==> Logged(log, "task.created") || Logged(log, "task.rerun_created")
    ensures Recovered(log) <==> Logged(log, "task.recovery_started")
  {
    KindsOfTexts();
  }

  ghost predicate Ended(log: seq<RunEvent>) {
    Logged(log, "task.completed") || Logged(log, "task.failed") || Logged(log, "task.blocked")
  }

  /** With one way of ending, that is the status, whatever else was logged and in whatever order. With none and no
      recovery, it is the furthest of created, queued and started. */
  lemma StatusByType(log: seq<RunEvent>)
    ensures Logged(log, "task.completed") && !Logged(log, "task.failed") && !Logged(log, "task.blocked") ==>
              Project(log).status == Some(Completed)
    ensures Logged(log, "task.failed") && !Logged(log, "task.completed") && !Logged(log, "task.blocked") ==>
              Project(log).status == Some(Failed)
    ensures Logged(log, "task.blocked") && !Logged(log, "task.completed") && !Logged(log, "task.failed") ==>
              Project(log).status == Some(Blocked)
    ensures !Ended(log) && !Logged(log, "task.recovery_started") ==>
              Project(log).status ==
              if Logged(log, "task.started") then Some(Running)
              else if Logged(log, "task.queued") then Some(Queued)
              else if Logged(log, "task.created") || Logged(log, "task.rerun_created") then Some(Pending)
              else None
  {
    OccursByType(log);
    Facts(log);
    FieldFolds(EMPTY, log, QueuedStamp);
    if !Ended(log) && !Logged(log, "task.recovery_started") {
      OpenLog(log);
    }
  }

  /** The same flags for every log: reclaimed exactly when a recovery was logged, contradicted exactly when two ways of
      ending were, and the last event is the latest one. */
  lemma FlagsByType(log: seq<RunEvent>)
    ensures var p := Project(log);
            && (p.wasReclaimed <==> Logged(log, "task.recovery_started"))
            && (p.recoveryStarted <==> Logged(log, "task.recovery_started"))
            && (p.contradicted <==> || (Logged(log, "task.completed") && Logged(log, "task.failed"))
                                    || (Logged(log, "task.completed") && Logged(log, "task.blocked"))
                                    || (Logged(log, "task.failed") && Logged(log, "task.blocked")))
    ensures forall e :: e in log ==> e.at <= Project(log).lastEventAt
    ensures log != [] ==> exists e :: e in log && e.at == Project(log).lastEventAt
  {
    OccursByType(log);
    Facts(log);
    Latest(log);
    if log != [] && Project(log).lastEventAt == 0 {
      assert log[0] in log;
    }
  }

  // ---------------------------------------------------------------------------------------------------------
  // Where the order decides
  // ---------------------------------------------------------------------------------------------------------

  lemma {:induction false} EndStays(cur: Option<Status>, log: seq<RunEvent>)
    requires Terminal(cur)
    ensures StatusFold(cur, log) == cur
  {
    if log != [] {
      EndStays(cur, log[..|log| - 1]);
    }
  }

  lemma {:induction false} StatusConcat(cur: Option<Status>, a: seq<RunEvent>, b: seq<RunEvent>)
    ensures StatusFold(cur, a + b) == StatusFold(StatusFold(cur, a), b)
  {
    if b == [] {
      assert a + b == a;
    } else {
      var n := |b| - 1;
      assert (a + b)[..|a + b| - 1] == a + b[..n] && (a + b)[|a + b| - 1] == b[n];
      StatusConcat(cur, a, b[..n]);
    }
  }

  lemma StatusIsFold(log: seq<RunEvent>)
    ensures Project(log).status == StatusFold(None, log)
  {
    FieldFolds(EMPTY, log, QueuedStamp);
  }

  lemma LastStatus(cur: Option<Status>, e: RunEvent)
    ensures StatusFold(cur, [e]) == NextStatus(cur, Recovery(e), Asserts(e))
  {
    assert [e][..0] == [];
  }

  lemma NotEndedYet(log: seq<RunEvent>)
    requires !Ended(log)
    ensures !Terminal(StatusFold(None, log))
  {
    OccursByType(log);
    Facts(log);
    StatusIsFold(log);
  }

  /** The first way of ending decides, even when it is contradicted later. */
  lemma FirstEndWins(before: seq<RunEvent>, e: RunEvent, rest: seq<RunEvent>)
    requires !Ended(before)
    ensures e.kind == KindOf("task.completed") ==> Project(before + [e] + rest).status == Some(Completed)
    ensures e.kind == KindOf("task.failed") ==> Project(before + [e] + rest).status == Some(Failed)
    ensures e.kind == KindOf("task.blocked") ==> Project(before + [e] + rest).status == Some(Blocked)
  {
    KindsOfTexts();
    NotEndedYet(before);
    Through(before, e, rest);
    var reached := NextStatus(StatusFold(None, before), Recovery(e), Asserts(e));
    if Terminal(reached) {
      EndStays(reached, rest);
    }
  }

  lemma Through(before: seq<RunEvent>, e: RunEvent, rest: seq<RunEvent>)
    ensures Project(before + [e] + rest).status ==
            StatusFold(NextStatus(StatusFold(None, before), Recovery(e), Asserts(e)), rest)
  {
    StatusIsFold(before + [e] + rest);
    StatusConcat(None, before + [e], rest);
    StatusConcat(None, before, [e]);
    LastStatus(StatusFold(None, before), e);
  }

  lemma {:induction false} SinceRecovery(rest: seq<RunEvent>)
    requires !Ended(rest) && !Logged(rest, "task.recovery_started")
    ensures StatusFold(Some(Queued), rest) == Some(if Logged(rest, "task.started") then Running else Queued)
  {
    if rest != [] {
      var n := |rest| - 1;
      var e := rest[n];
      assert rest == rest[..n] + [e];
      KindsOfTexts();
      assert forall x :: x in rest <==> x in rest[..n] || x == e;
      SinceRecovery(rest[..n]);
    }
  }

  /** A recovery puts an open run back: afterwards it is Running exactly when it was started again. */
  lemma RecoveryPutsBack(before: seq<RunEvent>, e: RunEvent, rest: seq<RunEvent>)
    requires !Ended(before) && !Ended(rest) && e.kind == KindOf("task.recovery_started")
    requires !Logged(rest, "task.recovery_started")
    ensures Project(before + [e] + rest).status == Some(if Logged(rest, "task.started") then Running else Queued)
  {
    KindsOfTexts();
    NotEndedYet(before);
    Through(before, e, rest);
    SinceRecovery(rest);
  }

  // ---------------------------------------------------------------------------------------------------------
  // Times
  // ---------------------------------------------------------------------------------------------------------

  /** t is the earliest time at which an event of one of the two types was logged, or not set if none was. */
  ghost predicate EarliestOf(log: seq<RunEvent>, one: string, other: string, t: Time) {
    && (t == 0 <==> !Logged(log, one) && !Logged(log, other))
    && (forall e :: e in log && (e.kind == KindOf(one) || e.kind == KindOf(other)) ==> t <= e.at)
    && (t != 0 ==> exists e :: e in log && (e.kind == KindOf(one) || e.kind == KindOf(other)) && e.at == t)
  }

  /** The times of a log without unset ones: queued by task.queued, started by task.started, finished by task.completed or
      task.failed. */
  lemma TimesByType(log: seq<RunEvent>)
    requires forall e :: e in log ==> e.at != 0
    ensures EarliestOf(log, "task.queued", "task.queued", Project(log).queuedAt)
    ensures EarliestOf(log, "task.started", "task.started", Project(log).startedAt)
    ensures EarliestOf(log, "task.completed", "task.failed", Project(log).completedAt)
  {
    KindsOfTexts();
    TimeOf(log, QueuedStamp, "task.queued", "task.queued");
    TimeOf(log, StartedStamp, "task.started", "task.started");
    TimeOf(log, CompletedStamp, "task.completed", "task.failed");
  }

  lemma TimeOf(log: seq<RunEvent>, f: Stamp, one: string, other: string)
    requires forall e :: e in log ==> e.at != 0
    requires forall e: RunEvent :: Feeds(f, Asserts(e)) <==> e.kind == KindOf(one) || e.kind == KindOf(other)
    ensures EarliestOf(log, one, other, Get(Project(log), f))
  {
    FieldFolds(EMPTY, log, f);
    Earliests(f, log);
  }

  // ---------------------------------------------------------------------------------------------------------
  // The note
  // ---------------------------------------------------------------------------------------------------------

  lemma {:induction false} NoNoteWithoutClash(log: seq<RunEvent>)
    requires !Project(log).contradicted
    ensures Project(log).note == ""
  {
    if log != [] {
      var n := |log| - 1;
      StatusStep(Project(log[..n]), log[n].at, Recovery(log[n]), Asserts(log[n]), log[n].kind);
      NoNoteWithoutClash(log[..n]);
    }
  }

  /** The first contradiction is noted as what came and what was there: the type without its prefix, and the status. */
  lemma FirstNote(log: seq<RunEvent>, e: RunEvent)
    requires !Project(log).contradicted && Terminal(Project(log).status)
    ensures var was, note := Project(log).status, Project(log + [e]).note;
            && (was == Some(Completed) && e.kind == KindOf("task.failed") ==> note == "failed" + " after " + "Completed")
            && (was == Some(Completed) && e.kind == KindOf("task.blocked") ==> note == "blocked" + " after " + "Completed")
            && (was == Some(Failed) && e.kind == KindOf("task.completed") ==> note == "completed" + " after " + "Failed")
            && (was == Some(Failed) && e.kind == KindOf("task.blocked") ==> note == "blocked" + " after " + "Failed")
            && (was == Some(Blocked) && e.kind == KindOf("task.completed") ==> note == "completed" + " after " + "Blocked")
            && (was == Some(Blocked) && e.kind == KindOf("task.failed") ==> note == "failed" + " after " + "Blocked")
  {
    var p := Project(log);
    assert (log + [e])[..|log|] == log;
    NoNoteWithoutClash(log);
    KindsOfTexts();
    StatusStep(p, e.at, Recovery(e), Asserts(e), e.kind);
    NoteTexts();
    if Clashing(p.status, Asserts(e)) {
      AddedToNothing(ClashNote(e.kind, p.status));
    }
  }

  /** A further contradiction is added after a semicolon, unless the note already says it. */
  lemma NextNote(log: seq<RunEvent>, e: RunEvent)
    requires Project(log).note != "" && Clashing(Project(log).status, Asserts(e))
    ensures var was, part := Project(log).note, ClashNote(e.kind, Project(log).status);
            Project(log + [e]).note == if exists i :: 0 <= i <= |was| && part <= was[i..] then was else was + "; " + part
  {
    assert (log + [e])[..|log|] == log;
    StatusStep(Project(log), e.at, Recovery(e), Asserts(e), e.kind);
  }

  lemma AddedToNothing(part: string)
    requires part != ""
    ensures AddNote("", part) == part
  {
    assert !Contains("", part);
  }

  lemma NoteTexts()
    ensures ClashNote(TaskFailed, Some(Completed)) == "failed" + " after " + "Completed"
    ensures ClashNote(TaskBlocked, Some(Completed)) == "blocked" + " after " + "Completed"
    ensures ClashNote(TaskCompleted, Some(Failed)) == "completed" + " after " + "Failed"
    ensures ClashNote(TaskBlocked, Some(Failed)) == "blocked" + " after " + "Failed"
    ensures ClashNote(TaskCompleted, Some(Blocked)) == "completed" + " after " + "Blocked"
    ensures ClashNote(TaskFailed, Some(Blocked)) == "failed" + " after " + "Blocked"
  {
    TypeSaysHow();
  }

  lemma TypeSaysHow()
    ensures TrimTask("task.failed") == "failed" && TrimTask("task.blocked") == "blocked" && TrimTask("task.completed") == "completed"
  {
    assert "task.failed"[5..] == "failed" && "task.blocked"[5..] == "blocked" && "task.completed"[5..] == "completed";
  }
}
