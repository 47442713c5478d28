/** The worker, reclaimer and scheduler code itself, running on the shared state without interference: each method
    is a run of protocol steps and is specified by what it leaves behind. */
module DeliveryPlatform {
  import opened Options
  import opened AttemptOwnership
  import opened Delivery
  import opened DeliveryInvariant
  import opened DeliverySteps

  function RunResult(outcome: Outcome): RunStatus {
    if outcome == Success then Completed else Failed
  }

  function AttemptResult(outcome: Outcome): AttemptStatus {
    if outcome == Success then Succeeded else AttemptFailed
  }

  /** What handling one delivery adds: one attempt, one final status, and a retry child when one is due. */
  function Handled(jobs: map<RunId, Job>, r: RunId, p: ProcId, m: MsgId, outcome: Outcome, child: RunId): map<RunId, Job>
    requires r in jobs
  {
    var Job(row, attempts) := jobs[r];
    var done := jobs[r := Job(row.(status := RunResult(outcome)),
                              attempts + [Attempt(AttemptResult(outcome), |attempts| + 1, p, m)])];
    if outcome == RetryableFailure && row.retryIndex < MAX_RETRIES
    then done[child := Job(Run(Pending, false, row.chain, Some(r), row.retryIndex + 1), [])]
    else done
  }

  /** One verdict per unfinished attempt. */
  function Verdicts(claimedAt: seq<int>, owners: seq<WorkerHistory>, now: int, window: int): seq<bool>
    requires |claimedAt| == |owners|
  {
    seq(|owners|, i requires 0 <= i < |owners| => OwnerGone(claimedAt[i], EvidenceOf(owners[i]), now, window))
  }

  class Platform {
    var jobs: map<RunId, Job>
    var stream: map<MsgId, Message>
    var procs: map<ProcId, Phase>
    var sched: Scheduler

    function View(): State
      reads this
    {
      State(jobs, stream, procs, sched)
    }

    constructor ()
      ensures View() == INIT && Inv(View())
    {
      jobs, stream, procs, sched := map[], map[], map[], NO_SCHEDULER;
    }

    /** The delivery is ignored, or it ends the run with exactly one new attempt. */
    method ProcessTask(p: ProcId, outcome: Outcome, child: RunId)
      requires Inv(View()) && CanClaim(View(), p) && ClaimSafe(View(), p) && FreshRun(View(), child)
      modifies this
      ensures Inv(View()) && stream == old(stream) && sched == old(sched)
      ensures procs == old(procs[p := Acking(procs[p].msg)])
      ensures var m := old(procs[p].msg);
              var r := old(stream[procs[p].msg].run);
              jobs == if old(Claims(View(), r)) then Handled(old(jobs), r, p, m, outcome, child) else old(jobs)
    {
      var m := procs[p].msg;
      var r := stream[m].run;
      ClaimKeeps(View(), p);
      if r !in jobs || Terminal(jobs[r].row.status) || UnfinishedOf(jobs[r].attempts) != [] {
        assert !Claims(View(), r) by {
          if r in jobs && UnfinishedOf(jobs[r].attempts) != [] {
            assert UnfinishedOf(jobs[r].attempts)[0] in UnfinishedOf(jobs[r].attempts);
          }
        }
        procs := procs[p := Acking(m)];
        return;
      }
      assert Claims(View(), r);
      var row := jobs[r].row;
      var k := |jobs[r].attempts|;
      jobs := jobs[r := jobs[r].(attempts := jobs[r].attempts + [Attempt(Claimed, k + 1, p, m)])];
      procs := procs[p := Working(MarkRunning, m, r, k, row)];
      assert View() == Claim(old(View()), p);
      Perform(p, outcome, child, old(jobs));
    }

    /** From the claimed attempt to the end, before being the table before the claim. */
    method Perform(p: ProcId, outcome: Outcome, child: RunId, ghost before: map<RunId, Job>)
      requires Inv(View()) && AtStage(View(), p, MarkRunning) && FreshRun(View(), child)
      requires var ph := procs[p];
               && ph.run in before && ph.row == before[ph.run].row && ph.attempt == |before[ph.run].attempts|
               && jobs == before[ph.run := Job(ph.row, before[ph.run].attempts + [Attempt(Claimed, ph.attempt + 1, p, ph.msg)])]
      modifies this`jobs, this`procs
      ensures Inv(View()) && procs == old(procs[p := Acking(procs[p].msg)])
      ensures jobs == Handled(before, old(procs[p]).run, p, old(procs[p]).msg, outcome, child)
    {
      ghost var ph := procs[p];
      Start(p);
      LastStatus(before[ph.run].attempts, Attempt(Claimed, ph.attempt + 1, p, ph.msg), Started);
      HandledIsEnded(before, View(), ph.run, p, ph.msg, outcome);
      match outcome
      case Success => Succeed(p);
      case RetryableFailure => FailRetryable(p, child);
      case NonRetryableFailure => FailForGood(p);
    }

    method Start(p: ProcId)
      requires Inv(View()) && AtStage(View(), p, MarkRunning)
      modifies this`jobs, this`procs
      ensures Inv(View()) && AtStage(View(), p, Execute)
      ensures var ph := old(procs[p]);
              var row := ph.row.(status := Running);
              var attempts := old(jobs)[ph.run].attempts;
              && procs == old(procs)[p := ph.(stage := Execute, row := row)]
              && jobs == old(jobs)[ph.run := Job(row, attempts[ph.attempt := attempts[ph.attempt].(status := Started)])]
    {
      RunningKeeps(View(), p);
      var ph := procs[p];
      var row := ph.row.(status := Running);
      jobs := jobs[ph.run := jobs[ph.run].(row := row)];
      procs := procs[p := ph.(stage := MarkStarted, row := row)];
      assert View() == WriteRunning(old(View()), p);
      StartedKeeps(View(), p);
      SetAttempt(ph.run, ph.attempt, Started);
      procs := procs[p := ph.(stage := Execute, row := row)];
    }

    method SetAttempt(r: RunId, k: nat, status: AttemptStatus)
      requires r in jobs && k < |jobs[r].attempts|
      modifies this`jobs
      ensures View() == SaveAttempt(old(View()), r, k, status)
    {
      var j := jobs[r];
      jobs := jobs[r := j.(attempts := j.attempts[k := j.attempts[k].(status := status)])];
    }

    method Succeed(p: ProcId)
      requires Inv(View()) && AtStage(View(), p, Execute)
      modifies this`jobs, this`procs
      ensures Inv(View()) && procs == old(procs[p := Acking(procs[p].msg)])
      ensures jobs == Ended(old(View()), p, Completed, Succeeded)
    {
      FinishKeeps(View(), p, Success);
      var ph := procs[p];
      SetAttempt(ph.run, ph.attempt, Succeeded);
      procs := procs[p := ph.(stage := CompleteRun)];
      assert View() == Finish(old(View()), p, Success);
      CompletedKeeps(View(), p);
      if jobs[ph.run].attempts[ph.attempt].status == Succeeded {
        jobs := jobs[ph.run := jobs[ph.run].(row := ph.row.(status := Completed))];
      }
      procs := procs[p := Acking(ph.msg)];
    }

    method FailForGood(p: ProcId)
      requires Inv(View()) && AtStage(View(), p, Execute)
      modifies this`jobs, this`procs
      ensures Inv(View()) && procs == old(procs[p := Acking(procs[p].msg)])
      ensures jobs == Ended(old(View()), p, Failed, AttemptFailed)
    {
      FinishKeeps(View(), p, NonRetryableFailure);
      var ph := procs[p];
      SetAttempt(ph.run, ph.attempt, AttemptFailed);
      procs := procs[p := ph.(stage := FailRun)];
      assert View() == Finish(old(View()), p, NonRetryableFailure);
      RunFailedKeeps(View(), p);
      jobs := jobs[ph.run := jobs[ph.run].(row := ph.row.(status := Failed))];
      procs := procs[p := Acking(ph.msg)];
    }

    method FailRetryable(p: ProcId, child: RunId)
      requires Inv(View()) && AtStage(View(), p, Execute) && FreshRun(View(), child)
      modifies this`jobs, this`procs
      ensures Inv(View()) && procs == old(procs[p := Acking(procs[p].msg)])
      ensures var ph := old(procs[p]);
              var ended := Ended(old(View()), p, Failed, AttemptFailed);
              jobs == if ph.row.retryIndex < MAX_RETRIES
                      then ended[child := Job(Run(Pending, false, ph.row.chain, Some(ph.run), ph.row.retryIndex + 1), [])]
                      else ended
    {
      MarkFailed(p);
      CloseRetryable(p, child);
    }

    method MarkFailed(p: ProcId)
      requires Inv(View()) && AtStage(View(), p, Execute)
      modifies this`jobs, this`procs
      ensures Inv(View()) && AtStage(View(), p, FailAttempt)
      ensures var ph, row := old(procs[p]), old(procs[p].row).(status := Failed);
              && procs == old(procs)[p := ph.(stage := FailAttempt, row := row)]
              && jobs == SaveRow(old(View()), ph.run, row).jobs
    {
      FinishKeeps(View(), p, RetryableFailure);
      var ph := procs[p];
      assert PhaseOk(View(), p, ph);
      NoChildYet(View(), ph.run);
      if HasChild(View(), ph.run) {
        assert false;
      }
      var row := ph.row.(status := Failed);
      jobs := jobs[ph.run := jobs[ph.run].(row := row)];
      procs := procs[p := ph.(stage := FailAttempt, row := row)];
      assert View() == Finish(old(View()), p, RetryableFailure);
    }

    method CloseRetryable(p: ProcId, child: RunId)
      requires Inv(View()) && AtStage(View(), p, FailAttempt) && FreshRun(View(), child)
      modifies this`jobs, this`procs
      ensures Inv(View()) && procs == old(procs[p := Acking(procs[p].msg)])
      ensures var ph := old(procs[p]);
              var failed := SaveAttempt(old(View()), ph.run, ph.attempt, AttemptFailed).jobs;
              jobs == if ph.row.retryIndex < MAX_RETRIES
                      then failed[child := Job(Run(Pending, false, ph.row.chain, Some(ph.run), ph.row.retryIndex + 1), [])]
                      else failed
    {
      AttemptFailedKeeps(View(), p);
      var ph := procs[p];
      SetAttempt(ph.run, ph.attempt, AttemptFailed);
      if ph.row.retryIndex >= MAX_RETRIES {
        procs := procs[p := Acking(ph.msg)];
        return;
      }
      procs := procs[p := ph.(stage := SpawnChild)];
      SpawnKeeps(View(), p, child);
      jobs := jobs[child := Job(Run(Pending, false, ph.row.chain, Some(ph.run), ph.row.retryIndex + 1), [])];
      procs := procs[p := Acking(ph.msg)];
    }

    /** Whether this call was the one that acknowledged the entry; only then is it removed from the stream. */
    method AckAndDelete(p: ProcId) returns (acked: bool)
      requires Inv(View()) && CanAck(View(), p)
      modifies this`stream, this`procs
      ensures Inv(View()) && procs == old(procs)[p := Idle]
      ensures var m := old(procs[p].msg);
              && acked == (old(stream[procs[p].msg].place) == InFlight)
              && stream == if acked then old(stream)[m := Message(old(stream[procs[p].msg].run), Deleted)] else old(stream)
    {
      AckKeeps(View(), p);
      var m := procs[p].msg;
      if stream[m].place != InFlight {
        procs := procs[p := Idle];
        return false;
      }
      stream := stream[m := stream[m].(place := Acked)];
      procs := procs[p := Deleting(m)];
      assert View() == Ack(old(View()), p);
      DeleteKeeps(View(), p);
      stream := stream[m := stream[m].(place := Deleted)];
      procs := procs[p := Idle];
      return true;
    }

    /** ProcessStream: the delivery is acknowledged only after its run has been dealt with. */
    method ProcessStream(p: ProcId, outcome: Outcome, child: RunId)
      requires Inv(View()) && CanClaim(View(), p) && ClaimSafe(View(), p) && FreshRun(View(), child)
      modifies this
      ensures Inv(View()) && procs == old(procs)[p := Idle] && !Unacked(View(), old(procs[p].msg))
      ensures var r := old(stream[procs[p].msg].run);
              jobs == if old(Claims(View(), r)) then Handled(old(jobs), r, p, old(procs[p].msg), outcome, child) else old(jobs)
    {
      var s := View();
      assert PhaseOk(s, p, s.procs[p]);
      ProcessTask(p, outcome, child);
      var _ := AckAndDelete(p);
    }

    /** prepareRecovery, given what the tables hold about the owner of each unfinished attempt. It goes ahead unless the run
        is open and some owner has sent a heartbeat within the window and was not started again after the claim. False
        leaves everything as it was; true abandons every unfinished attempt of a run that is still open. */
    method PrepareRecovery(p: ProcId, claimedAt: seq<int>, owners: seq<WorkerHistory>, now: int, window: int)
        returns (proceed: bool)
      requires Inv(View()) && p in procs && procs[p].Inspecting? && procs[p].msg in stream
      requires var r := stream[procs[p].msg].run; r in jobs ==> |owners| == |UnfinishedOf(jobs[r].attempts)|
      requires |claimedAt| == |owners| && InspectSafe(View(), p, Verdicts(claimedAt, owners, now, window))
      modifies this`jobs, this`procs
      ensures Inv(View())
      ensures var r := old(stream[procs[p].msg].run);
              proceed <==> || r !in old(jobs) || old(jobs)[r].row.status == Completed || old(jobs)[r].row.status == Failed
                           || forall i :: 0 <= i < |owners| ==>
                                || (exists t :: t in owners[i].starts && t > claimedAt[i])
                                || (forall t :: t in owners[i].beats ==> now - t > window)
      ensures !proceed ==> jobs == old(jobs) && procs == old(procs)[p := Idle]
      ensures proceed ==> procs == old(procs[p := Received(procs[p].msg)])
      ensures proceed ==> var r := old(stream[procs[p].msg].run);
                          if r !in old(jobs) || Terminal(old(jobs)[r].row.status) then jobs == old(jobs)
                          else r in jobs && jobs == old(jobs)[r := jobs[r]] && jobs[r].row == old(jobs)[r].row
                               && GivenUp(old(jobs)[r].attempts, jobs[r].attempts)
    {
      var m := procs[p].msg;
      var r := stream[m].run;
      InspectKeeps(View(), p, Verdicts(claimedAt, owners, now, window));
      if r !in jobs {
        procs := procs[p := Received(m)];
        return true;
      }
      var unfinished := UnfinishedOf(jobs[r].attempts);
      var gone := Judge(claimedAt, owners, now, window);
      var plan := PlanRecovery(jobs[r].row.status, gone);
      VerdictsExact(claimedAt, owners, now, window);
      if plan.wait {
        procs := procs[p := Idle];
        return false;
      }
      if !plan.abandon {
        procs := procs[p := Received(m)];
        NothingToAbandon(jobs[r].attempts, gone);
        AllGivenUp(jobs[r].attempts);
        return true;
      }
      procs := procs[p := Abandoning(m, IndexSet(unfinished))];
      AllGivenUp(jobs[r].attempts);
      AbandonLoop(p, r, unfinished);
      return true;
    }

    method Judge(claimedAt: seq<int>, owners: seq<WorkerHistory>, now: int, window: int) returns (gone: seq<bool>)
      requires |claimedAt| == |owners|
      ensures gone == Verdicts(claimedAt, owners, now, window)
    {
      gone := [];
      for i := 0 to |owners|
        invariant |gone| == i
        invariant forall j :: 0 <= j < i ==> gone[j] == OwnerGone(claimedAt[j], EvidenceOf(owners[j]), now, window)
      {
        gone := gone + [OwnerGone(claimedAt[i], EvidenceOf(owners[i]), now, window)];
      }
    }

    method AbandonLoop(p: ProcId, r: RunId, unfinished: seq<nat>)
      requires Inv(View()) && p in procs && procs[p].Abandoning? && procs[p].msg in stream
      requires r == stream[procs[p].msg].run && r in jobs && unfinished == UnfinishedOf(jobs[r].attempts)
      requires procs[p].todo == IndexSet(unfinished)
      modifies this`jobs, this`procs
      ensures Inv(View()) && procs == old(procs[p := Received(procs[p].msg)])
      ensures jobs == old(jobs)[r := Job(old(jobs)[r].row, AllAbandoned(old(jobs)[r].attempts))]
    {
      ghost var s := View();
      NoneAbandoned(s, p, r);
      for i := 0 to |unfinished|
        invariant Inv(View()) && View() == Partly(s, p, r, i)
      {
        OneMoreAbandoned(s, p, r, i);
        AbandonOne(p, r, unfinished[i]);
      }
      AllDone(s, p, r);
      ResumeKeeps(View(), p);
      procs := procs[p := Received(procs[p].msg)];
    }

    method AbandonOne(p: ProcId, r: RunId, k: nat)
      requires Inv(View()) && CanAbandon(View(), p, k) && r == stream[procs[p].msg].run
      modifies this`jobs, this`procs
      ensures Inv(View()) && View() == old(Abandon(View(), p, k))
    {
      AbandonKeeps(View(), p, k);
      SetAttempt(r, k, Abandoned);
      procs := procs[p := Abandoning(procs[p].msg, procs[p].todo - {k})];
    }

    /** publishTask: on a refusal nothing is written; otherwise the entry exists and published_at is set. */
    method PublishTask(r: RunId, m: MsgId, accepted: bool)
      requires Inv(View()) && sched.at == Publishing(r) && r in jobs && m !in stream
      modifies this`jobs, this`stream, this`sched
      ensures Inv(View()) && sched == old(sched).(at := Between)
      ensures stream == if accepted then old(stream)[m := Message(r, Available)] else old(stream)
      ensures jobs == if accepted then old(jobs)[r := Job(old(jobs)[r].row.(published := true), old(jobs)[r].attempts)]
                      else old(jobs)
    {
      if !accepted {
        LocalKeeps(View(), sched.(at := Between));
        sched := sched.(at := Between);
        return;
      }
      PublishKeeps(View(), m);
      stream := stream[m := Message(r, Available)];
      sched := sched.(at := Confirming(r));
      assert View() == Publish(old(View()), m);
      ConfirmKeeps(View());
      jobs := jobs[r := jobs[r].(row := jobs[r].row.(published := true))];
      sched := sched.(at := Between);
    }

    /** queueAndPublish: every due task is Queued; it is published exactly when Redis accepted it, and stays
        Queued without a confirmed publish otherwise. */
    method QueueAndPublish(tasks: seq<RunId>, ids: seq<MsgId>, accepted: seq<bool>)
      requires Inv(View()) && sched.at == Between && |tasks| == |ids| == |accepted|
      requires forall i :: 0 <= i < |tasks| ==> tasks[i] in sched.due && ids[i] !in stream
      requires forall i, j :: 0 <= i < j < |tasks| ==> tasks[i] != tasks[j] && ids[i] != ids[j]
      modifies this`jobs, this`stream, this`sched
      ensures Inv(View()) && forall i :: 0 <= i < |tasks| ==> tasks[i] in old(jobs)
      ensures jobs == QueuedJobs(old(jobs), tasks, accepted)
      ensures stream == SentEntries(old(stream), tasks, ids, accepted)
    {
      ghost var s := View();
      assert AllIn(tasks, jobs);
      for i := 0 to |tasks|
        invariant Inv(View()) && Batched(s, View(), tasks, ids, accepted, i)
      {
        QueueNext(s, tasks, ids, accepted, i);
      }
      assert tasks[..|tasks|] == tasks && ids[..|tasks|] == ids && accepted[..|tasks|] == accepted;
    }

    method QueueNext(ghost s: State, tasks: seq<RunId>, ids: seq<MsgId>, accepted: seq<bool>, i: nat)
      requires |tasks| == |ids| == |accepted| && i < |tasks|
      requires forall i, j :: 0 <= i < j < |tasks| ==> tasks[i] != tasks[j] && ids[i] != ids[j]
      requires Inv(View()) && Batched(s, View(), tasks, ids, accepted, i)
      modifies this`jobs, this`stream, this`sched
      ensures Inv(View()) && Batched(s, View(), tasks, ids, accepted, i + 1)
    {
      OneMoreQueued(s.jobs, s.stream, tasks, ids, accepted, i);
      QueuePublishOne(tasks[i], ids[i], accepted[i]);
    }

    method QueuePublishOne(r: RunId, m: MsgId, accepted: bool)
      requires Inv(View()) && sched.at == Between && r in sched.due && m !in stream
      modifies this`jobs, this`stream, this`sched
      ensures Inv(View()) && sched.due == old(sched).due - {r} && sched.at == Between
      ensures r in old(jobs) && jobs == old(jobs)[r := Job(old(jobs)[r].row.(status := Queued, published := accepted), [])]
      ensures stream == if accepted then old(stream)[m := Message(r, Available)] else old(stream)
    {
      QueueOne(r);
      PublishTask(r, m, accepted);
    }

    method QueueOne(r: RunId)
      requires Inv(View()) && sched.at == Between && r in sched.due
      modifies this`jobs, this`sched
      ensures Inv(View()) && sched.due == old(sched).due - {r} && sched.at == Publishing(r)
      ensures r in old(jobs) && jobs == old(jobs)[r := Job(old(jobs)[r].row.(status := Queued), [])]
      ensures !old(jobs)[r].row.published
    {
      assert RowOk(View(), r);
      QueueKeeps(View(), r);
      jobs := jobs[r := jobs[r].(row := sched.due[r].(status := Queued))];
      sched := sched.(due := sched.due - {r}, at := Publishing(r));
    }
  }

  predicate AllIn(tasks: seq<RunId>, jobs: map<RunId, Job>) {
    forall i :: 0 <= i < |tasks| ==> tasks[i] in jobs
  }

  /** The first i tasks of the batch are dealt with; the others are still to be queued, under ids not in use. */
  predicate Batched(s: State, s': State, tasks: seq<RunId>, ids: seq<MsgId>, accepted: seq<bool>, i: nat)
    requires i <= |tasks| == |ids| == |accepted|
  {
    && AllIn(tasks, s.jobs) && s'.sched.at == Between
    && s'.jobs == QueuedJobs(s.jobs, tasks[..i], accepted[..i])
    && s'.stream == SentEntries(s.stream, tasks[..i], ids[..i], accepted[..i])
    && forall j :: i <= j < |tasks| ==> tasks[j] in s'.sched.due && ids[j] !in s'.stream
  }

  function QueuedJobs(jobs: map<RunId, Job>, tasks: seq<RunId>, accepted: seq<bool>): (after: map<RunId, Job>)
    requires |tasks| == |accepted| && forall i :: 0 <= i < |tasks| ==> tasks[i] in jobs
    ensures after.Keys == jobs.Keys
  {
    if tasks == [] then jobs
    else
      var n := |tasks| - 1;
      var done := QueuedJobs(jobs, tasks[..n], accepted[..n]);
      done[tasks[n] := Job(done[tasks[n]].row.(status := Queued, published := accepted[n]), [])]
  }

  function SentEntries(stream: map<MsgId, Message>, tasks: seq<RunId>, ids: seq<MsgId>, accepted: seq<bool>): map<MsgId, Message>
    requires |tasks| == |ids| == |accepted|
  {
    if tasks == [] then stream
    else
      var n := |tasks| - 1;
      var done := SentEntries(stream, tasks[..n], ids[..n], accepted[..n]);
      if accepted[n] then done[ids[n] := Message(tasks[n], Available)] else done
  }

  lemma OneMoreQueued(jobs: map<RunId, Job>, stream: map<MsgId, Message>, tasks: seq<RunId>, ids: seq<MsgId>, accepted: seq<bool>, i: nat)
    requires |tasks| == |ids| == |accepted| && i < |tasks| && forall j :: 0 <= j < |tasks| ==> tasks[j] in jobs
    ensures var done := QueuedJobs(jobs, tasks[..i], accepted[..i]);
            QueuedJobs(jobs, tasks[..i + 1], accepted[..i + 1]) ==
            done[tasks[i] := Job(done[tasks[i]].row.(status := Queued, published := accepted[i]), [])]
    ensures var sent := SentEntries(stream, tasks[..i], ids[..i], accepted[..i]);
            SentEntries(stream, tasks[..i + 1], ids[..i + 1], accepted[..i + 1]) ==
            if accepted[i] then sent[ids[i] := Message(tasks[i], Available)] else sent
  {
    assert tasks[..i + 1][..i] == tasks[..i] && ids[..i + 1][..i] == ids[..i] && accepted[..i + 1][..i] == accepted[..i];
  }

  /** Each due task ends Queued, published exactly when Redis accepted it; no other run is touched. */
  lemma {:induction false} QueuedJobsAt(jobs: map<RunId, Job>, tasks: seq<RunId>, accepted: seq<bool>, r: RunId)
    requires |tasks| == |accepted| && r in jobs && forall i :: 0 <= i < |tasks| ==> tasks[i] in jobs
    requires forall i, j :: 0 <= i < j < |tasks| ==> tasks[i] != tasks[j]
    ensures r !in tasks ==> QueuedJobs(jobs, tasks, accepted)[r] == jobs[r]
    ensures forall i :: 0 <= i < |tasks| && tasks[i] == r ==>
              QueuedJobs(jobs, tasks, accepted)[r] == Job(jobs[r].row.(status := Queued, published := accepted[i]), [])
  {
    if tasks != [] {
      var n := |tasks| - 1;
      QueuedJobsAt(jobs, tasks[..n], accepted[..n], r);
      assert forall x :: x in tasks <==> x in tasks[..n] || x == tasks[n];
    }
  }

  /** The stream gains exactly the accepted entries. */
  lemma {:induction false} SentEntriesAt(stream: map<MsgId, Message>, tasks: seq<RunId>, ids: seq<MsgId>, accepted: seq<bool>, m: MsgId)
    requires |tasks| == |ids| == |accepted|
    requires forall i, j :: 0 <= i < j < |tasks| ==> ids[i] != ids[j]
    ensures var stream' := SentEntries(stream, tasks, ids, accepted);
            && (m !in ids ==> (m in stream' <==> m in stream) && (m in stream ==> stream'[m] == stream[m]))
            && (forall i :: 0 <= i < |tasks| && ids[i] == m && accepted[i] ==> m in stream' && stream'[m] == Message(tasks[i], Available))
            && (forall i :: 0 <= i < |tasks| && ids[i] == m && !accepted[i] ==> (m in stream' <==> m in stream))
  {
    if tasks != [] {
      var n := |tasks| - 1;
      SentEntriesAt(stream, tasks[..n], ids[..n], accepted[..n], m);
      assert forall x :: x in ids <==> x in ids[..n] || x == ids[n];
    }
  }

  /** Finishing the attempt that was just appended is the same as appending it finished. */
  lemma HandledIsEnded(jobs: map<RunId, Job>, s: State, r: RunId, p: ProcId, m: MsgId, outcome: Outcome)
    requires r in jobs && AtStage(s, p, Execute) && s.procs[p].run == r && s.procs[p].attempt == |jobs[r].attempts|
    requires s.procs[p].row == jobs[r].row.(status := Running)
    requires s.jobs == jobs[r := Job(s.procs[p].row, jobs[r].attempts + [Attempt(Started, |jobs[r].attempts| + 1, p, m)])]
    ensures Ended(s, p, RunResult(outcome), AttemptResult(outcome)) ==
            jobs[r := Job(jobs[r].row.(status := RunResult(outcome)),
                          jobs[r].attempts + [Attempt(AttemptResult(outcome), |jobs[r].attempts| + 1, p, m)])]
  {
    LastStatus(jobs[r].attempts, Attempt(Started, |jobs[r].attempts| + 1, p, m), AttemptResult(outcome));
  }

  lemma LastStatus(attempts: seq<Attempt>, a: Attempt, status: AttemptStatus)
    ensures (attempts + [a])[|attempts| := (attempts + [a])[|attempts|].(status := status)] == attempts + [a.(status := status)]
  {
  }

  /** Every attempt that was claimed or started is abandoned; the others are as they were. */
  ghost predicate GivenUp(was: seq<Attempt>, attempts: seq<Attempt>) {
    && |attempts| == |was|
    && forall k :: 0 <= k < |was| ==>
         attempts[k] == if was[k].status == Claimed || was[k].status == Started then was[k].(status := Abandoned) else was[k]
  }

  lemma AllGivenUp(attempts: seq<Attempt>)
    ensures GivenUp(attempts, AllAbandoned(attempts))
  {
  }

  /** What the verdicts say, in terms of the tables. */
  lemma VerdictsExact(claimedAt: seq<int>, owners: seq<WorkerHistory>, now: int, window: int)
    requires |claimedAt| == |owners|
    ensures false !in Verdicts(claimedAt, owners, now, window) <==>
            forall i :: 0 <= i < |owners| ==>
              || (exists t :: t in owners[i].starts && t > claimedAt[i])
              || (forall t :: t in owners[i].beats ==> now - t > window)
  {
    var gone := Verdicts(claimedAt, owners, now, window);
    forall i | 0 <= i < |owners|
      ensures gone[i] <==> || (exists t :: t in owners[i].starts && t > claimedAt[i])
                           || (forall t :: t in owners[i].beats ==> now - t > window)
    {
      GoneExact(claimedAt[i], owners[i], now, window);
    }
    if false in gone {
      var i :| 0 <= i < |gone| && gone[i] == false;
      assert !gone[i];
    }
  }

  lemma NothingToAbandon(attempts: seq<Attempt>, gone: seq<bool>)
    requires |gone| == |UnfinishedOf(attempts)|
    ensures gone == [] ==> AllAbandoned(attempts) == attempts
  {
    if gone == [] {
      forall k: nat | k < |attempts| ensures !Unfinished(attempts[k]) {
        assert k !in UnfinishedOf(attempts);
      }
    }
  }

  /** The attempts with these ones abandoned. */
  function AbandonedAt(attempts: seq<Attempt>, ks: seq<nat>): seq<Attempt> {
    seq(|attempts|, k requires 0 <= k < |attempts| => if k in ks then attempts[k].(status := Abandoned) else attempts[k])
  }

  /** The recovery of r has left these attempts, and has these still to abandon. */
  function Halfway(s: State, p: ProcId, r: RunId, attempts: seq<Attempt>, todo: set<nat>): State
    requires p in s.procs && s.procs[p].Abandoning? && r in s.jobs
  {
    s.(jobs := s.jobs[r := Job(s.jobs[r].row, attempts)], procs := s.procs[p := Abandoning(s.procs[p].msg, todo)])
  }

  /** The recovery of r has written the first i of its abandon list. */
  function Partly(s: State, p: ProcId, r: RunId, i: nat): State
    requires p in s.procs && s.procs[p].Abandoning? && r in s.jobs && i <= |UnfinishedOf(s.jobs[r].attempts)|
  {
    var attempts := s.jobs[r].attempts;
    var ks := UnfinishedOf(attempts);
    Halfway(s, p, r, AbandonedAt(attempts, ks[..i]), IndexSet(ks[i..]))
  }

  lemma NoneAbandoned(s: State, p: ProcId, r: RunId)
    requires p in s.procs && s.procs[p].Abandoning? && r in s.jobs
    requires s.procs[p].todo == IndexSet(UnfinishedOf(s.jobs[r].attempts))
    ensures Partly(s, p, r, 0) == s
  {
    var attempts := s.jobs[r].attempts;
    assert UnfinishedOf(attempts)[0..] == UnfinishedOf(attempts) && AbandonedAt(attempts, []) == attempts;
  }

  lemma OneMoreAbandoned(s: State, p: ProcId, r: RunId, i: nat)
    requires p in s.procs && s.procs[p].Abandoning? && r in s.jobs && i < |UnfinishedOf(s.jobs[r].attempts)|
    requires s.procs[p].msg in s.stream && r == s.stream[s.procs[p].msg].run
    ensures var k := UnfinishedOf(s.jobs[r].attempts)[i];
            CanAbandon(Partly(s, p, r, i), p, k) && Abandon(Partly(s, p, r, i), p, k) == Partly(s, p, r, i + 1)
  {
    var attempts := s.jobs[r].attempts;
    DistinctIndices(attempts, i);
    IndexSetTail(UnfinishedOf(attempts), i);
    AbandonedSnoc(attempts, UnfinishedOf(attempts), i);
    var k := UnfinishedOf(attempts)[i];
    assert k in UnfinishedOf(attempts);
    AbandonHalfway(s, p, r, AbandonedAt(attempts, UnfinishedOf(attempts)[..i]), IndexSet(UnfinishedOf(attempts)[i..]), k);
  }

  lemma AbandonHalfway(s: State, p: ProcId, r: RunId, attempts: seq<Attempt>, todo: set<nat>, k: nat)
    requires p in s.procs && s.procs[p].Abandoning? && r in s.jobs
    requires s.procs[p].msg in s.stream && r == s.stream[s.procs[p].msg].run
    requires k in todo && k < |attempts|
    ensures var h := Halfway(s, p, r, attempts, todo);
            && CanAbandon(h, p, k)
            && Abandon(h, p, k) == Halfway(s, p, r, attempts[k := attempts[k].(status := Abandoned)], todo - {k})
  {
  }

  lemma AbandonedSnoc(attempts: seq<Attempt>, ks: seq<nat>, i: nat)
    requires i < |ks| && ks[i] < |attempts|
    ensures var done := AbandonedAt(attempts, ks[..i]);
            AbandonedAt(attempts, ks[..i + 1]) == done[ks[i] := done[ks[i]].(status := Abandoned)]
  {
    assert ks[..i + 1] == ks[..i] + [ks[i]];
  }

  lemma AllDone(s: State, p: ProcId, r: RunId)
    requires p in s.procs && s.procs[p].Abandoning? && r in s.jobs
    ensures var s' := Partly(s, p, r, |UnfinishedOf(s.jobs[r].attempts)|);
            s'.jobs[r].attempts == AllAbandoned(s.jobs[r].attempts) && s'.procs[p].todo == {}
  {
    var ks := UnfinishedOf(s.jobs[r].attempts);
    assert ks[..|ks|] == ks;
  }

  lemma IndexSetTail(ks: seq<nat>, i: nat)
    requires i < |ks| && ks[i] !in ks[i + 1..]
    ensures ks[i] in IndexSet(ks[i..]) && IndexSet(ks[i..]) - {ks[i]} == IndexSet(ks[i + 1..]) && ks[i] in ks
  {
    assert ks[i..] == [ks[i]] + ks[i + 1..];
  }

  lemma {:induction false} DistinctIndices(attempts: seq<Attempt>, i: nat)
    requires i < |UnfinishedOf(attempts)|
    ensures UnfinishedOf(attempts)[i] !in UnfinishedOf(attempts)[i + 1..]
  {
    var last := |attempts| - 1;
    var rest := UnfinishedOf(attempts[..last]);
    if i < |rest| {
      DistinctIndices(attempts[..last], i);
      assert rest[i] in rest;
    }
  }

  /** The run and its current attempt with their final statuses. */
  function Ended(s: State, p: ProcId, run: RunStatus, attempt: AttemptStatus): map<RunId, Job>
    requires AtStage(s, p, Execute)
  {
    var ph := s.procs[p];
    var attempts := s.jobs[ph.run].attempts;
    s.jobs[ph.run := Job(ph.row.(status := run), attempts[ph.attempt := attempts[ph.attempt].(status := attempt)])]
  }
}
