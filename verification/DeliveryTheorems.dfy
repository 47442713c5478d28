/** What the protocol guarantees in every state of every behaviour. */
module DeliveryTheorems {
  import opened Options
  import opened AttemptOwnership
  import opened Delivery
  import opened DeliveryInvariant
  import opened DeliverySteps

  lemma StepKeeps(s: State, step: Step)
    requires Inv(s) && Enabled(s, step) && Assumed(s, step)
    ensures Inv(Apply(s, step))
  {
    match step
    case DoCreate(r) => CreateKeeps(s, r);
    case DoReadDue(batch) => ReadDueKeeps(s, batch);
    case DoQueue(r) => QueueKeeps(s, r);
    case DoPublish(m) => PublishKeeps(s, m);
    case DoPublishFail => LocalKeeps(s, s.sched.(at := Between));
    case DoConfirm => ConfirmKeeps(s);
    case DoReadStranded(batch) => ReadStrandedKeeps(s, batch);
    case DoTakeStranded(r) => TakeStrandedKeeps(s, r);
    case DoSchedulerCrash => LocalKeeps(s, NO_SCHEDULER);
    case DoInject(m, r) => InjectKeeps(s, m, r);
    case DoJoin(p) => JoinKeeps(s, p);
    case DoCrash(p) => CrashKeeps(s, p);
    case DoDeliver(p, m) => DeliverKeeps(s, p, m);
    case DoReclaim(p, m) => ReclaimKeeps(s, p, m);
    case DoInspect(p, verdicts) => InspectKeeps(s, p, verdicts);
    case DoAbandon(p, k) => AbandonKeeps(s, p, k);
    case DoResume(p) => ResumeKeeps(s, p);
    case DoClaim(p) => ClaimKeeps(s, p);
    case DoRunning(p) => RunningKeeps(s, p);
    case DoStarted(p) => StartedKeeps(s, p);
    case DoFinish(p, outcome) => FinishKeeps(s, p, outcome);
    case DoCompleted(p) => CompletedKeeps(s, p);
    case DoRunFailed(p) => RunFailedKeeps(s, p);
    case DoAttemptFailed(p) => AttemptFailedKeeps(s, p);
    case DoSpawn(p, child) => SpawnKeeps(s, p, child);
    case DoAck(p) => AckKeeps(s, p);
    case DoDelete(p) => DeleteKeeps(s, p);
  }

  lemma {:induction false} Reachable(steps: seq<Step>)
    requires Behaviour(steps)
    ensures Inv(After(steps))
  {
    if steps != [] {
      var n := |steps| - 1;
      Reachable(steps[..n]);
      StepKeeps(After(steps[..n]), steps[n]);
    }
  }

  /** The state some behaviour leads to. */
  ghost predicate Reached(s: State) {
    exists steps :: Behaviour(steps) && After(steps) == s
  }

  lemma ReachedIsGood(s: State)
    requires Reached(s)
    ensures Inv(s)
  {
    var steps :| Behaviour(steps) && After(steps) == s;
    Reachable(steps);
  }

  // ---------------------------------------------------------------------------------------------------------
  // No run is lost
  // ---------------------------------------------------------------------------------------------------------

  /** A run that is Running, or Queued with a confirmed publish, has a stream entry that is neither acknowledged
      nor about to be; an unfinished attempt of a run that is not finished still has its own delivery. */
  lemma NoRunLost(s: State, r: RunId)
    requires Reached(s) && r in s.jobs
    ensures var Job(row, attempts) := s.jobs[r];
            && (row.status == Running || (row.status == Queued && row.published) ==>
                  exists m :: && Unacked(s, m) && s.stream[m].run == r
                              && forall p :: p in s.procs ==> s.procs[p] != Acking(m))
            && (forall k :: 0 <= k < |attempts| && Unfinished(attempts[k]) && !Terminal(row.status) ==>
                  Unacked(s, attempts[k].delivery) && s.stream[attempts[k].delivery].run == r)
  {
    ReachedIsGood(s);
    assert AttemptsOk(s, r) && RowOk(s, r);
    if s.jobs[r].row.status == Running {
      var m := s.jobs[r].attempts[0].delivery;
      assert m in s.stream && s.stream[m].run == r;
    }
    if !Settled(s, r) && Named(s, r) {
      var m :| Backing(s, r, m);
    }
  }

  /** Every run that is not finished is due, or what the stranded sweep selects, or backed by the stream. */
  lemma NothingFallsThrough(s: State, r: RunId)
    requires Reached(s) && r in s.jobs && !Terminal(s.jobs[r].row.status)
    ensures || s.jobs[r].row.status == Pending
            || (s.jobs[r].row.status == Queued && !s.jobs[r].row.published)
            || Backed(s, r)
  {
    ReachedIsGood(s);
    assert RowOk(s, r) && AttemptsOk(s, r);
    if s.jobs[r].row.status == Running {
      NoRunLost(s, r);
    }
  }

  // ---------------------------------------------------------------------------------------------------------
  // Attempts and terminal runs
  // ---------------------------------------------------------------------------------------------------------

  lemma AttemptDiscipline(s: State, r: RunId)
    requires Reached(s) && r in s.jobs
    ensures var Job(row, attempts) := s.jobs[r];
            && (forall k :: 0 <= k < |attempts| ==> attempts[k].number == k + 1)
            && (forall i, j :: 0 <= i < j < |attempts| ==> !(Unfinished(attempts[i]) && Unfinished(attempts[j])))
            && (row.status == Completed ==> exists k :: 0 <= k < |attempts| && attempts[k].status == Succeeded)
            && (row.status == Pending ==> attempts == [])
  {
    ReachedIsGood(s);
    assert AttemptsOk(s, r) && RowOk(s, r);
  }

  /** The row of r is as it was, but for published_at. */
  predicate RowStays(s: State, s': State, r: RunId)
    requires r in s.jobs
  {
    r in s'.jobs && s'.jobs[r].row == s.jobs[r].row.(published := s'.jobs[r].row.published)
  }

  /** A worker of a finished run writes no status but the one it has. */
  lemma WorkerLeavesRow(s: State, p: ProcId, outcome: Outcome, r: RunId)
    requires Inv(s) && r in s.jobs && Terminal(s.jobs[r].row.status) && p in s.procs
    ensures AtStage(s, p, MarkRunning) ==> RowStays(s, WriteRunning(s, p), r)
    ensures AtStage(s, p, Execute) ==> RowStays(s, Finish(s, p, outcome), r)
    ensures AtStage(s, p, CompleteRun) ==> RowStays(s, WriteCompleted(s, p), r)
    ensures AtStage(s, p, FailRun) ==> RowStays(s, WriteRunFailed(s, p), r)
  {
    assert PhaseOk(s, p, s.procs[p]);
  }

  /** The steps that save a run row a worker holds. */
  predicate SavesRow(step: Step) {
    step.DoRunning? || step.DoFinish? || step.DoCompleted? || step.DoRunFailed?
  }

  lemma SaversLeaveRow(s: State, step: Step, r: RunId)
    requires Inv(s) && Enabled(s, step) && r in s.jobs && Terminal(s.jobs[r].row.status) && SavesRow(step)
    ensures RowStays(s, Apply(s, step), r)
  {
    WorkerLeavesRow(s, step.p, if step.DoFinish? then step.outcome else Success, r);
  }

  /** Published_at is the only column of a finished run that a step may still write. */
  lemma FinishedRowStays(s: State, step: Step, r: RunId)
    requires Inv(s) && Enabled(s, step) && r in s.jobs && Terminal(s.jobs[r].row.status)
    ensures RowStays(s, Apply(s, step), r)
  {
    if SavesRow(step) {
      SaversLeaveRow(s, step, r);
    } else {
      OthersLeaveRow(s, step, r);
    }
  }

  lemma OthersLeaveRow(s: State, step: Step, r: RunId)
    requires SchedulerOk(s) && Enabled(s, step) && r in s.jobs && Terminal(s.jobs[r].row.status)
    requires !SavesRow(step)
    ensures RowStays(s, Apply(s, step), r)
  {
  }

  /** Once a run is Completed or Failed it stays what it is, in every later state. */
  lemma {:induction false} TerminalForever(steps: seq<Step>, i: nat, r: RunId)
    requires Behaviour(steps) && i <= |steps| && Behaviour(steps[..i])
    requires r in After(steps[..i]).jobs && Terminal(After(steps[..i]).jobs[r].row.status)
    ensures r in After(steps).jobs
    ensures var row, row' := After(steps[..i]).jobs[r].row, After(steps).jobs[r].row;
            row' == row.(published := row'.published)
  {
    if i == |steps| {
      assert steps[..i] == steps;
    } else {
      var n := |steps| - 1;
      assert steps[..n][..i] == steps[..i];
      TerminalForever(steps[..n], i, r);
      Reachable(steps[..n]);
      FinishedRowStays(After(steps[..n]), steps[n], r);
    }
  }

  // ---------------------------------------------------------------------------------------------------------
  // Retry lineage
  // ---------------------------------------------------------------------------------------------------------

  /** An execution chain has at most one run per retry index. */
  lemma {:induction false} OneRunPerIndex(s: State, a: RunId, b: RunId)
    requires JobsOk(s) && a in s.jobs && b in s.jobs
    requires s.jobs[a].row.chain == s.jobs[b].row.chain && s.jobs[a].row.retryIndex == s.jobs[b].row.retryIndex
    ensures a == b
    decreases s.jobs[a].row.retryIndex
  {
    assert LineageOk(s, a) && LineageOk(s, b) && NotSiblings(s, a, b);
    if s.jobs[a].row.retryIndex > 0 {
      OneRunPerIndex(s, s.jobs[a].row.parent.value, s.jobs[b].row.parent.value);
    }
  }

  /** Every run with a successor in its chain has failed. */
  lemma {:induction false} EarlierRunsFailed(s: State, a: RunId, b: RunId)
    requires JobsOk(s) && a in s.jobs && b in s.jobs
    requires s.jobs[a].row.chain == s.jobs[b].row.chain && s.jobs[a].row.retryIndex < s.jobs[b].row.retryIndex
    ensures s.jobs[a].row.status == Failed
    decreases s.jobs[b].row.retryIndex
  {
    assert LineageOk(s, b);
    var p := s.jobs[b].row.parent.value;
    if s.jobs[p].row.retryIndex == s.jobs[a].row.retryIndex {
      OneRunPerIndex(s, a, p);
    } else {
      EarlierRunsFailed(s, a, p);
    }
  }

  function ChainRuns(s: State, c: RunId): set<RunId> {
    set r | r in s.jobs && s.jobs[r].row.chain == c
  }

  lemma {:induction false} AtMostOnePerIndex(s: State, runs: set<RunId>, bound: nat)
    requires runs <= s.jobs.Keys
    requires forall a, b :: a in runs && b in runs && s.jobs[a].row.retryIndex == s.jobs[b].row.retryIndex ==> a == b
    requires forall a :: a in runs ==> s.jobs[a].row.retryIndex < bound
    ensures |runs| <= bound
    decreases bound
  {
    if bound == 0 {
      assert runs == {};
    } else if t :| t in runs && s.jobs[t].row.retryIndex == bound - 1 {
      AtMostOnePerIndex(s, runs - {t}, bound - 1);
    } else {
      AtMostOnePerIndex(s, runs, bound - 1);
    }
  }

  /** A chain is a line: root with index 0, each other run the only child of a Failed run, at most MaxRetries + 1. */
  lemma ChainIsALine(s: State, c: RunId)
    requires Reached(s)
    ensures var chain := ChainRuns(s, c);
            && |chain| <= 4
            && (forall a, b :: a in chain && b in chain && s.jobs[a].row.retryIndex == s.jobs[b].row.retryIndex ==> a == b)
            && (forall a, b :: a in chain && b in chain && s.jobs[a].row.retryIndex < s.jobs[b].row.retryIndex ==>
                  s.jobs[a].row.status == Failed)
            && (forall a :: a in chain && s.jobs[a].row.retryIndex > 0 ==>
                  && s.jobs[a].row.parent.Some? && s.jobs[a].row.parent.value in chain
                  && s.jobs[s.jobs[a].row.parent.value].row.retryIndex + 1 == s.jobs[a].row.retryIndex)
  {
    ReachedIsGood(s);
    var chain := ChainRuns(s, c);
    forall a, b | a in chain && b in chain && s.jobs[a].row.retryIndex == s.jobs[b].row.retryIndex ensures a == b {
      OneRunPerIndex(s, a, b);
    }
    forall a, b | a in chain && b in chain && s.jobs[a].row.retryIndex < s.jobs[b].row.retryIndex
      ensures s.jobs[a].row.status == Failed
    {
      EarlierRunsFailed(s, a, b);
    }
    forall a | a in chain ensures s.jobs[a].row.retryIndex <= MAX_RETRIES && LineageOk(s, a) {
      assert LineageOk(s, a);
    }
    AtMostOnePerIndex(s, chain, MAX_RETRIES + 1);
  }

  /** While a handler is running there is no retry child, and a success that is read back is there. */
  lemma DefensiveBranchesAreDead(s: State, p: ProcId)
    requires Reached(s) && p in s.procs
    ensures && (AtStage(s, p, Execute) ==> !HasChild(s, s.procs[p].run))
            && (AtStage(s, p, CompleteRun) ==> s.jobs[s.procs[p].run].attempts[s.procs[p].attempt].status == Succeeded)
  {
    ReachedIsGood(s);
    assert PhaseOk(s, p, s.procs[p]);
    if AtStage(s, p, Execute) {
      NoChildYet(s, s.procs[p].run);
    }
  }
}
