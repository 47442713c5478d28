/** Concrete behaviours that show what the two conditions of the protocol rule out, and what they do not. */
module DeliveryRaces {
  import opened Options
  import opened AttemptOwnership
  import opened Delivery

  const WORKER: ProcId := 1
  const OTHER: ProcId := 2

  function Row(status: RunStatus, published: bool): Run {
    Run(status, published, 1, None, 0)
  }

  /** The steps lead to s; when kept is set, the conditions of the protocol held throughout. */
  ghost predicate LeadsTo(steps: seq<Step>, s: State, kept: bool) {
    // One value, so that a failed proof names the predicate and not each of its parts.
    var good := Possible(steps) && After(steps) == s && (kept ==> Behaviour(steps));
    good
  }

  lemma Next(steps: seq<Step>, s: State, kept: bool, step: Step, s': State) returns (t: seq<Step>)
    requires LeadsTo(steps, s, kept) && Enabled(s, step) && (kept ==> Assumed(s, step)) && Apply(s, step) == s'
    ensures t == steps + [step] && LeadsTo(t, s', kept)
  {
    t := steps + [step];
    Then(steps, step);
  }

  function Queued1(): State {
    State(map[1 := Job(Row(Queued, false), [])], map[], map[], Scheduler(map[], {}, Publishing(1)))
  }

  function Created1(): State {
    State(map[1 := Job(Row(Pending, false), [])], map[], map[], NO_SCHEDULER)
  }

  lemma ReachCreated1() returns (t: seq<Step>)
    ensures LeadsTo(t, Created1(), true)
  {
    assert LeadsTo([], INIT, true);
    t := Next([], INIT, true, DoCreate(1), Created1());
  }

  function Read1(): State {
    Created1().(sched := Scheduler(map[1 := Row(Pending, false)], {}, Between))
  }

  lemma ReachRead1() returns (t: seq<Step>)
    ensures LeadsTo(t, Read1(), true)
  {
    t := ReachCreated1();
    assert ReadDue(Created1(), {1}).sched.due == Read1().sched.due;
    t := Next(t, Created1(), true, DoReadDue({1}), Read1());
  }

  lemma ReachQueued1() returns (t: seq<Step>)
    ensures LeadsTo(t, Queued1(), true)
  {
    t := ReachRead1();
    assert Read1().sched.due - {1} == map[];
    t := Next(t, Read1(), true, DoQueue(1), Queued1());
  }

  function Published1(): State {
    State(map[1 := Job(Row(Queued, true), [])], map[1 := Message(1, Available)], map[], NO_SCHEDULER)
  }

  lemma ReachPublished1() returns (t: seq<Step>)
    ensures LeadsTo(t, Published1(), true)
  {
    t := ReachQueued1();
    var s1 := State(Queued1().jobs, map[1 := Message(1, Available)], map[], Scheduler(map[], {}, Confirming(1)));
    t := Next(t, Queued1(), true, DoPublish(1), s1);
    t := Next(t, s1, true, DoConfirm, Published1());
  }

  /** Run 1 is published as entry 1 and handed to WORKER; OTHER has joined. */
  function Opened(): State {
    State(map[1 := Job(Row(Queued, true), [])], map[1 := Message(1, InFlight)],
          map[WORKER := Received(1), OTHER := Idle], NO_SCHEDULER)
  }

  lemma ReachOpened() returns (t: seq<Step>)
    ensures LeadsTo(t, Opened(), true)
  {
    t := ReachPublished1();
    var s0 := Published1();
    var s1 := s0.(procs := map[WORKER := Idle]);
    var s2 := s0.(procs := map[WORKER := Idle, OTHER := Idle]);
    t := Next(t, s0, true, DoJoin(WORKER), s1);
    t := Next(t, s1, true, DoJoin(OTHER), s2);
    t := Next(t, s2, true, DoDeliver(WORKER, 1), Opened());
  }

  function Busy(stage: Stage, m: MsgId, k: nat, row: Run): Phase {
    Working(stage, m, 1, k, row)
  }

  function Made(status: AttemptStatus, number: nat, owner: ProcId, m: MsgId): Attempt {
    Attempt(status, number, owner, m)
  }

  // ---------------------------------------------------------------------------------------------------------
  // A delivery taken over from a process that is only slow
  // ---------------------------------------------------------------------------------------------------------

  /** WORKER has claimed its attempt, OTHER takes the same delivery for a duplicate. */
  function Doubled(): State {
    State(map[1 := Job(Row(Queued, true), [Made(Claimed, 1, WORKER, 1)])], map[1 := Message(1, InFlight)],
          map[WORKER := Busy(MarkRunning, 1, 0, Row(Queued, true)), OTHER := Acking(1)], NO_SCHEDULER)
  }

  function BothReceived(): State {
    Opened().(procs := map[WORKER := Received(1), OTHER := Received(1)])
  }

  lemma ReachBothReceived() returns (t: seq<Step>)
    ensures LeadsTo(t, BothReceived(), false)
  {
    t := ReachOpened();
    var s0 := Opened();
    var s1 := s0.(procs := map[WORKER := Received(1), OTHER := Inspecting(1)]);
    t := Next(t, s0, false, DoReclaim(OTHER, 1), s1);
    t := Next(t, s1, false, DoInspect(OTHER, []), BothReceived());
  }

  /** The first claim of run 1 by WORKER, whatever OTHER is doing. */
  lemma FirstClaim(s: State)
    requires s.jobs == Opened().jobs && s.stream == Opened().stream && At(s, WORKER, Received(1))
    ensures CanClaim(s, WORKER)
    ensures Claim(s, WORKER) == s.(jobs := Doubled().jobs, procs := s.procs[WORKER := Busy(MarkRunning, 1, 0, Row(Queued, true))])
  {
    var j := s.jobs[1];
    assert Claims(s, 1);
    assert j.attempts + [Made(Claimed, 1, WORKER, 1)] == [Made(Claimed, 1, WORKER, 1)];
  }

  lemma ReachDoubled() returns (t: seq<Step>)
    ensures LeadsTo(t, Doubled(), false)
  {
    t := ReachBothReceived();
    var s0 := BothReceived();
    var s1 := State(Doubled().jobs, s0.stream, map[WORKER := Busy(MarkRunning, 1, 0, Row(Queued, true)), OTHER := Received(1)], NO_SCHEDULER);
    FirstClaim(s0);
    t := Next(t, s0, false, DoClaim(WORKER), s1);
    assert Unfinished(s1.jobs[1].attempts[0]);
    t := Next(t, s1, false, DoClaim(OTHER), Doubled());
  }

  /** WORKER has marked the run, OTHER has acknowledged the delivery. */
  function AckedDuplicate(): State {
    State(map[1 := Job(Row(Running, true), Doubled().jobs[1].attempts)], map[1 := Message(1, Acked)],
          map[WORKER := Busy(MarkStarted, 1, 0, Row(Running, true)), OTHER := Deleting(1)], NO_SCHEDULER)
  }

  lemma ReachAckedDuplicate() returns (t: seq<Step>)
    ensures LeadsTo(t, AckedDuplicate(), false)
  {
    t := ReachDoubled();
    var s0 := Doubled();
    var s1 := AckedDuplicate().(stream := s0.stream, procs := AckedDuplicate().procs[OTHER := Acking(1)]);
    t := Next(t, s0, false, DoRunning(WORKER), s1);
    t := Next(t, s1, false, DoAck(OTHER), AckedDuplicate());
  }

  /** Without the hand-over condition a Running run can be left with no delivery at all. */
  lemma LostWithoutHandover() returns (t: seq<Step>)
    ensures Possible(t) && 1 in After(t).jobs && |After(t).jobs[1].attempts| == 1
    ensures After(t).jobs[1].row.status == Running && Unfinished(After(t).jobs[1].attempts[0])
    ensures Gone(After(t), After(t).jobs[1].attempts[0].owner)
    ensures forall m :: m in After(t).stream ==> !Unacked(After(t), m)
  {
    t := ReachAckedDuplicate();
    var s := AckedDuplicate();
    t := Next(t, s, false, DoCrash(WORKER), s.(procs := s.procs[WORKER := Crashed]));
  }

  // ---------------------------------------------------------------------------------------------------------
  // A claim between the two finishing writes
  // ---------------------------------------------------------------------------------------------------------

  function Executing(): State {
    State(map[1 := Job(Row(Running, true), [Made(Started, 1, WORKER, 1)])], map[1 := Message(1, InFlight)],
          map[WORKER := Busy(Execute, 1, 0, Row(Running, true)), OTHER := Idle], NO_SCHEDULER)
  }

  function Marked(): State {
    Executing().(jobs := map[1 := Job(Row(Running, true), [Made(Claimed, 1, WORKER, 1)])],
                 procs := map[WORKER := Busy(MarkStarted, 1, 0, Row(Running, true)), OTHER := Idle])
  }

  function Claimed1(): State {
    Opened().(jobs := Doubled().jobs, procs := map[WORKER := Busy(MarkRunning, 1, 0, Row(Queued, true)), OTHER := Idle])
  }

  lemma ReachClaimed1() returns (t: seq<Step>)
    ensures LeadsTo(t, Claimed1(), true)
  {
    t := ReachOpened();
    FirstClaim(Opened());
    t := Next(t, Opened(), true, DoClaim(WORKER), Claimed1());
  }

  lemma ReachMarked() returns (t: seq<Step>)
    ensures LeadsTo(t, Marked(), true)
  {
    t := ReachClaimed1();
    t := Next(t, Claimed1(), true, DoRunning(WORKER), Marked());
  }

  lemma ReachExecuting() returns (t: seq<Step>)
    ensures LeadsTo(t, Executing(), true)
  {
    t := ReachMarked();
    var was := Made(Claimed, 1, WORKER, 1);
    assert [was][0 := was.(status := Started)] == [Made(Started, 1, WORKER, 1)];
    t := Next(t, Marked(), true, DoStarted(WORKER), Executing());
  }

  /** WORKER stands between its two finishing writes and OTHER has claimed through a duplicate entry. */
  function Overlapped(): State {
    State(map[1 := Job(Row(Running, true), [Made(Succeeded, 1, WORKER, 1), Made(Claimed, 2, OTHER, 2)])],
          map[1 := Message(1, InFlight), 2 := Message(1, InFlight)],
          map[WORKER := Busy(CompleteRun, 1, 0, Row(Running, true)), OTHER := Busy(MarkRunning, 2, 1, Row(Running, true))],
          NO_SCHEDULER)
  }

  function Succeeding(): State {
    State(map[1 := Job(Row(Running, true), [Made(Succeeded, 1, WORKER, 1)])],
          map[1 := Message(1, InFlight), 2 := Message(1, Available)],
          map[WORKER := Busy(CompleteRun, 1, 0, Row(Running, true)), OTHER := Idle], NO_SCHEDULER)
  }

  lemma ReachSucceeding() returns (t: seq<Step>)
    ensures LeadsTo(t, Succeeding(), true)
  {
    t := ReachExecuting();
    var s0 := Executing();
    var s1 := s0.(stream := Succeeding().stream);
    assert 1 in s0.stream && s0.stream[1].run == 1;
    t := Next(t, s0, true, DoInject(2, 1), s1);
    var was := Made(Started, 1, WORKER, 1);
    assert [was][0 := was.(status := Succeeded)] == [Made(Succeeded, 1, WORKER, 1)];
    t := Next(t, s1, true, DoFinish(WORKER, Success), Succeeding());
  }

  function HandedOut(): State {
    Succeeding().(stream := Overlapped().stream, procs := Succeeding().procs[OTHER := Received(2)])
  }

  lemma ReachHandedOut() returns (t: seq<Step>)
    ensures LeadsTo(t, HandedOut(), true)
  {
    t := ReachSucceeding();
    t := Next(t, Succeeding(), true, DoDeliver(OTHER, 2), HandedOut());
  }

  lemma ReachOverlapped() returns (t: seq<Step>)
    ensures LeadsTo(t, Overlapped(), false)
  {
    t := ReachHandedOut();
    assert Claims(HandedOut(), 1);
    assert [Made(Succeeded, 1, WORKER, 1)] + [Made(Claimed, 2, OTHER, 2)] == Overlapped().jobs[1].attempts;
    t := Next(t, HandedOut(), false, DoClaim(OTHER), Overlapped());
  }

  /** The first worker has completed the run. */
  function EndedBeside(): State {
    var s := Overlapped();
    State(map[1 := Job(Row(Completed, true), s.jobs[1].attempts)], s.stream, s.procs[WORKER := Acking(1)], NO_SCHEDULER)
  }

  lemma ReachEndedBeside() returns (t: seq<Step>)
    ensures LeadsTo(t, EndedBeside(), false)
  {
    t := ReachOverlapped();
    t := Next(t, Overlapped(), false, DoCompleted(WORKER), EndedBeside());
  }

  /** Without the claim condition a Completed run can become Running again. */
  lemma ReopenedWithoutClaimOrder() returns (t: seq<Step>, i: nat)
    ensures Possible(t) && i < |t| && Possible(t[..i])
    ensures 1 in After(t[..i]).jobs && After(t[..i]).jobs[1].row.status == Completed
    ensures 1 in After(t).jobs && After(t).jobs[1].row.status == Running
  {
    var t1 := ReachEndedBeside();
    var s1 := EndedBeside();
    var s2 := State(map[1 := Job(Row(Running, true), s1.jobs[1].attempts)], s1.stream,
                    s1.procs[OTHER := Busy(MarkStarted, 2, 1, Row(Running, true))], NO_SCHEDULER);
    t := Next(t1, s1, false, DoRunning(OTHER), s2);
    i := |t1|;
    assert t[..i] == t1;
  }

  // ---------------------------------------------------------------------------------------------------------
  // A crash after a retryable failure was recorded on the run
  // ---------------------------------------------------------------------------------------------------------

  /** The run is Failed, its attempt is not, and the worker is gone. */
  function HalfFailed(): State {
    State(map[1 := Job(Row(Failed, true), [Made(Started, 1, WORKER, 1)])], map[1 := Message(1, InFlight)],
          map[WORKER := Crashed, OTHER := Idle], NO_SCHEDULER)
  }

  function HalfFailing(): State {
    State(HalfFailed().jobs, HalfFailed().stream, map[WORKER := Busy(FailAttempt, 1, 0, Row(Failed, true)), OTHER := Idle],
          NO_SCHEDULER)
  }

  lemma ReachHalfFailing() returns (t: seq<Step>)
    ensures LeadsTo(t, HalfFailing(), true)
  {
    t := ReachExecuting();
    assert !HasChild(Executing(), 1);
    t := Next(t, Executing(), true, DoFinish(WORKER, RetryableFailure), HalfFailing());
  }

  lemma ReachHalfFailed() returns (t: seq<Step>)
    ensures LeadsTo(t, HalfFailed(), true)
  {
    t := ReachHalfFailing();
    t := Next(t, HalfFailing(), true, DoCrash(WORKER), HalfFailed());
  }

  function HalfFailedAgain(): State {
    HalfFailed().(procs := map[WORKER := Crashed, OTHER := Received(1)])
  }

  lemma ReachHalfFailedAgain() returns (t: seq<Step>)
    ensures LeadsTo(t, HalfFailedAgain(), true)
  {
    t := ReachHalfFailed();
    var s0 := HalfFailed();
    var s1 := s0.(procs := map[WORKER := Crashed, OTHER := Inspecting(1)]);
    t := Next(t, s0, true, DoReclaim(OTHER, 1), s1);
    assert UnfinishedOf(s0.jobs[1].attempts) == [0] by {
      assert s0.jobs[1].attempts[..0] == [];
      assert UnfinishedOf(s0.jobs[1].attempts[..0]) == [];
    }
    t := Next(t, s1, true, DoInspect(OTHER, [true]), HalfFailedAgain());
  }

  function HalfFailedAcking(): State {
    HalfFailed().(procs := map[WORKER := Crashed, OTHER := Acking(1)])
  }

  lemma ReachHalfFailedAcking() returns (t: seq<Step>)
    ensures LeadsTo(t, HalfFailedAcking(), true)
  {
    t := ReachHalfFailedAgain();
    t := Next(t, HalfFailedAgain(), true, DoClaim(OTHER), HalfFailedAcking());
  }

  /** With every condition kept, an unfinished attempt of a finished run can lose its delivery, and the retry the
      failure was entitled to is never created. */
  lemma OrphanAttemptAndLostRetry() returns (t: seq<Step>)
    ensures Behaviour(t) && 1 in After(t).jobs
    ensures var Job(row, attempts) := After(t).jobs[1];
            && row.status == Failed && row.retryIndex < MAX_RETRIES && !HasChild(After(t), 1)
            && |attempts| == 1 && Unfinished(attempts[0])
    ensures forall m :: m in After(t).stream ==> !Unacked(After(t), m)
  {
    t := ReachHalfFailedAcking();
    var s := HalfFailed().(stream := map[1 := Message(1, Acked)], procs := map[WORKER := Crashed, OTHER := Deleting(1)]);
    t := Next(t, HalfFailedAcking(), true, DoAck(OTHER), s);
  }
}
