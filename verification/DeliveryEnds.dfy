/** What becomes of an attempt, and of a retry, whose worker died between the two writes of a failure. */
module DeliveryEnds {
  import opened Options
  import opened AttemptOwnership
  import opened Delivery
  import opened DeliveryInvariant
  import opened DeliverySteps
  import opened DeliveryTheorems
  import opened DeliveryRuns

  // ---------------------------------------------------------------------------------------------------------
  // Who is behind an unfinished attempt
  // ---------------------------------------------------------------------------------------------------------

  /** The process is working on the k-th attempt of r. */
  predicate OnIt(ph: Phase, r: RunId, k: nat) {
    ph.Working? && ph.run == r && ph.attempt == k
  }

  /** An unfinished attempt has a worker on it, or its owner is gone. */
  ghost predicate Owned(s: State, r: RunId)
    requires r in s.jobs
  {
    forall k: nat :: k < |s.jobs[r].attempts| && Unfinished(s.jobs[r].attempts[k]) ==>
      var owner := s.jobs[r].attempts[k].owner;
      owner in s.procs && (s.procs[owner] == Crashed || OnIt(s.procs[owner], r, k))
  }

  /** Nobody is about to abandon an unfinished attempt of a finished run. */
  ghost predicate TodoEnded(s: State, ph: Phase) {
    ph.Abandoning? && ph.msg in s.stream && s.stream[ph.msg].run in s.jobs ==>
      var j := s.jobs[s.stream[ph.msg].run];
      Terminal(j.row.status) ==> forall k: nat :: k in ph.todo && k < |j.attempts| ==> !Unfinished(j.attempts[k])
  }

  ghost predicate Ends(s: State) {
    && (forall r {:trigger Owned(s, r)} :: r in s.jobs ==> Owned(s, r))
    && (forall p {:trigger TodoEnded(s, s.procs[p])} :: p in s.procs ==> TodoEnded(s, s.procs[p]))
  }

  /** The stream entries keep their runs. */
  ghost predicate SameEntries(s: State, s': State) {
    forall m {:trigger m in s'.stream} {:trigger s'.stream[m]} :: m in s.stream ==> m in s'.stream && s'.stream[m].run == s.stream[m].run
  }

  ghost predicate KnownEntries(s: State) {
    forall p {:trigger s.procs[p]} :: p in s.procs && s.procs[p].Abandoning? ==> s.procs[p].msg in s.stream
  }

  lemma Known(s: State)
    requires Inv(s)
    ensures KnownEntries(s)
  {
    forall p | p in s.procs && s.procs[p].Abandoning? ensures s.procs[p].msg in s.stream {
      assert PhaseOk(s, p, s.procs[p]);
    }
  }

  /** No process moves and no run ends. */
  lemma StillEnds(s: State, s': State)
    requires Ends(s) && KnownEntries(s) && s'.procs == s.procs && SameEntries(s, s')
    requires forall r {:trigger s'.jobs[r]} :: r in s'.jobs ==>
               if r in s.jobs then s'.jobs[r].attempts == s.jobs[r].attempts && (Terminal(s'.jobs[r].row.status) ==> Terminal(s.jobs[r].row.status))
               else s'.jobs[r].attempts == []
    ensures Ends(s')
  {
    forall r | r in s'.jobs ensures Owned(s', r) {
      if r in s.jobs { assert Owned(s, r); }
    }
    forall p | p in s'.procs ensures TodoEnded(s', s'.procs[p]) {
      assert TodoEnded(s, s.procs[p]);
    }
  }

  /** One process that is not working moves, or any process crashes; the rows stay. */
  lemma HopEnds(s: State, s': State, p: ProcId, next: Phase)
    requires Ends(s) && KnownEntries(s) && s'.jobs == s.jobs && s'.procs == s.procs[p := next] && SameEntries(s, s')
    requires p in s.procs && (s.procs[p].Working? || s.procs[p] == Crashed) ==> next == Crashed
    requires TodoEnded(s', next)
    ensures Ends(s')
  {
    forall r | r in s'.jobs ensures Owned(s', r) {
      assert Owned(s, r);
    }
    forall q | q in s'.procs ensures TodoEnded(s', s'.procs[q]) {
      if q != p { assert TodoEnded(s, s.procs[q]); }
    }
  }

  /** A worker writes its row and its attempt. When that ends the run, no attempt is left unfinished but its own. */
  lemma WorkEnds(s: State, p: ProcId, row: Run, status: AttemptStatus, next: Phase)
    requires Inv(s) && Ends(s) && p in s.procs && s.procs[p].Working? && PhaseOk(s, p, s.procs[p])
    requires var ph := s.procs[p];
             var a := s.jobs[ph.run].attempts[ph.attempt];
             && (Unfinished(a.(status := status)) ==> Unfinished(a) && OnIt(next, ph.run, ph.attempt))
             && (Terminal(row.status) && !Terminal(s.jobs[ph.run].row.status) ==> Unfinished(a) || Settling(ph, ph.run))
    requires !next.Abandoning?
    ensures Ends(WorkerWritten(s, p, row, status, next))
  {
    var s' := WorkerWritten(s, p, row, status, next);
    Known(s);
    forall r | r in s'.jobs ensures Owned(s', r) {
      assert Owned(s, r);
    }
    forall q | q in s'.procs ensures TodoEnded(s', s'.procs[q]) {
      if q != p { WorkTodo(s, p, row, status, next, q); }
    }
  }

  lemma WorkTodo(s: State, p: ProcId, row: Run, status: AttemptStatus, next: Phase, q: ProcId)
    requires Inv(s) && Ends(s) && p in s.procs && s.procs[p].Working? && PhaseOk(s, p, s.procs[p]) && q in s.procs && q != p
    requires var ph := s.procs[p];
             var a := s.jobs[ph.run].attempts[ph.attempt];
             && (Unfinished(a.(status := status)) ==> Unfinished(a))
             && (Terminal(row.status) && !Terminal(s.jobs[ph.run].row.status) ==> Unfinished(a) || Settling(ph, ph.run))
    ensures TodoEnded(WorkerWritten(s, p, row, status, next), s.procs[q])
  {
    assert TodoEnded(s, s.procs[q]) && PhaseOk(s, q, s.procs[q]);
    assert AttemptsOk(s, s.procs[p].run);
  }

  lemma AbandonEnds(s: State, p: ProcId, k: nat)
    requires Inv(s) && Ends(s) && CanAbandon(s, p, k)
    ensures Ends(Abandon(s, p, k))
  {
    var s' := Abandon(s, p, k);
    Known(s);
    assert PhaseOk(s, p, s.procs[p]);
    forall r | r in s'.jobs ensures Owned(s', r) {
      assert Owned(s, r);
    }
    forall q | q in s'.procs ensures TodoEnded(s', s'.procs[q]) {
      assert TodoEnded(s, s.procs[q]);
    }
  }

  lemma ClaimEnds(s: State, p: ProcId)
    requires Inv(s) && Ends(s) && CanClaim(s, p)
    ensures Ends(Claim(s, p))
  {
    var s' := Claim(s, p);
    Known(s);
    forall r | r in s'.jobs ensures Owned(s', r) {
      assert Owned(s, r);
    }
    forall q | q in s'.procs ensures TodoEnded(s', s'.procs[q]) {
      if q != p { assert TodoEnded(s, s.procs[q]); }
    }
  }

  lemma SpawnEnds(s: State, p: ProcId, child: RunId)
    requires Inv(s) && Ends(s) && CanSpawn(s, p, child)
    ensures Ends(Spawn(s, p, child))
  {
    var s' := Spawn(s, p, child);
    Known(s);
    assert PhaseOk(s, p, s.procs[p]);
    forall r | r in s'.jobs ensures Owned(s', r) {
      if r != child { assert Owned(s, r); }
    }
    forall q | q in s'.procs ensures TodoEnded(s', s'.procs[q]) {
      if q != p { assert TodoEnded(s, s.procs[q]); }
    }
  }

  predicate SchedulerStep(step: Step) {
    || step.DoCreate? || step.DoReadDue? || step.DoQueue? || step.DoPublish? || step.DoPublishFail? || step.DoConfirm?
    || step.DoReadStranded? || step.DoTakeStranded? || step.DoSchedulerCrash? || step.DoInject?
  }

  predicate HopStep(step: Step) {
    || step.DoJoin? || step.DoCrash? || step.DoDeliver? || step.DoReclaim? || step.DoInspect? || step.DoResume?
    || step.DoAck? || step.DoDelete?
  }

  lemma SchedulerStepEnds(s: State, step: Step)
    requires Inv(s) && Ends(s) && Enabled(s, step) && SchedulerStep(step)
    ensures Ends(Apply(s, step))
  {
    Known(s);
    StillEnds(s, Apply(s, step));
  }

  lemma HopStepEnds(s: State, step: Step)
    requires Inv(s) && Ends(s) && Enabled(s, step) && HopStep(step)
    ensures Ends(Apply(s, step))
  {
    Known(s);
    HopLeaves(s, step);
    HopEntries(s, step);
    HopTodo(s, step);
    HopEnds(s, Apply(s, step), step.p, Apply(s, step).procs[step.p]);
  }

  lemma HopEntries(s: State, step: Step)
    requires Enabled(s, step) && HopStep(step)
    ensures SameEntries(s, Apply(s, step))
    ensures var p, next := step.p, Apply(s, step).procs;
            p in next && (p in s.procs && (s.procs[p].Working? || s.procs[p] == Crashed) ==> next[p] == Crashed)
  {
  }

  /** Only a run that is not finished gets an abandon list. */
  lemma HopTodo(s: State, step: Step)
    requires Enabled(s, step) && HopStep(step)
    ensures step.p in Apply(s, step).procs && TodoEnded(Apply(s, step), Apply(s, step).procs[step.p])
  {
    if step.DoInspect? {
      InspectTodo(s, step.p, step.verdicts);
    } else {
      NoTodo(s, step);
    }
  }

  lemma InspectTodo(s: State, p: ProcId, verdicts: seq<bool>)
    requires CanInspect(s, p, verdicts)
    ensures TodoEnded(Inspect(s, p, verdicts), Inspect(s, p, verdicts).procs[p])
  {
  }

  lemma NoTodo(s: State, step: Step)
    requires Enabled(s, step) && HopStep(step) && !step.DoInspect?
    ensures step.p in Apply(s, step).procs && !Apply(s, step).procs[step.p].Abandoning?
  {
  }

  lemma StartEnds(s: State, p: ProcId)
    requires Inv(s) && Ends(s) && p in s.procs
    ensures AtStage(s, p, MarkRunning) ==> Ends(WriteRunning(s, p))
    ensures AtStage(s, p, MarkStarted) ==> Ends(WriteStarted(s, p))
  {
    var ph := s.procs[p];
    assert PhaseOk(s, p, ph);
    if AtStage(s, p, MarkRunning) {
      var row := ph.row.(status := Running);
      SameAttempts(s.jobs[ph.run].attempts, ph.attempt, Claimed);
      WorkEnds(s, p, row, Claimed, ph.(stage := MarkStarted, row := row));
      assert WorkerWritten(s, p, row, Claimed, ph.(stage := MarkStarted, row := row)) == WriteRunning(s, p);
    }
    if AtStage(s, p, MarkStarted) {
      WorkEnds(s, p, s.jobs[ph.run].row, Started, ph.(stage := Execute));
      assert WorkerWritten(s, p, s.jobs[ph.run].row, Started, ph.(stage := Execute)) == WriteStarted(s, p);
    }
  }

  lemma FinishEnds(s: State, p: ProcId, outcome: Outcome)
    requires Inv(s) && Ends(s) && AtStage(s, p, Execute)
    ensures Ends(Finish(s, p, outcome))
  {
    var ph := s.procs[p];
    assert PhaseOk(s, p, ph);
    NoChildYet(s, ph.run);
    var row := s.jobs[ph.run].row;
    match outcome
    case Success =>
      WorkEnds(s, p, row, Succeeded, ph.(stage := CompleteRun));
      assert WorkerWritten(s, p, row, Succeeded, ph.(stage := CompleteRun)) == Finish(s, p, outcome);
    case RetryableFailure =>
      var failed := ph.row.(status := Failed);
      var next := ph.(stage := FailAttempt, row := failed);
      SameAttempts(s.jobs[ph.run].attempts, ph.attempt, Started);
      WorkEnds(s, p, failed, Started, next);
      assert WorkerWritten(s, p, failed, Started, next) == Finish(s, p, outcome);
    case NonRetryableFailure =>
      WorkEnds(s, p, row, AttemptFailed, ph.(stage := FailRun));
      assert WorkerWritten(s, p, row, AttemptFailed, ph.(stage := FailRun)) == Finish(s, p, outcome);
  }

  lemma SettleEnds(s: State, p: ProcId)
    requires Inv(s) && Ends(s) && p in s.procs
    ensures AtStage(s, p, CompleteRun) ==> Ends(WriteCompleted(s, p))
    ensures AtStage(s, p, FailRun) ==> Ends(WriteRunFailed(s, p))
    ensures AtStage(s, p, FailAttempt) ==> Ends(WriteAttemptFailed(s, p))
  {
    var ph := s.procs[p];
    assert PhaseOk(s, p, ph);
    if AtStage(s, p, CompleteRun) {
      var row := ph.row.(status := Completed);
      SameAttempts(s.jobs[ph.run].attempts, ph.attempt, Succeeded);
      WorkEnds(s, p, row, Succeeded, Acking(ph.msg));
      assert WorkerWritten(s, p, row, Succeeded, Acking(ph.msg)) == WriteCompleted(s, p);
    }
    if AtStage(s, p, FailRun) {
      var row := ph.row.(status := Failed);
      SameAttempts(s.jobs[ph.run].attempts, ph.attempt, AttemptFailed);
      WorkEnds(s, p, row, AttemptFailed, Acking(ph.msg));
      assert WorkerWritten(s, p, row, AttemptFailed, Acking(ph.msg)) == WriteRunFailed(s, p);
    }
    if AtStage(s, p, FailAttempt) {
      var next := WriteAttemptFailed(s, p).procs[p];
      WorkEnds(s, p, s.jobs[ph.run].row, AttemptFailed, next);
      assert WorkerWritten(s, p, s.jobs[ph.run].row, AttemptFailed, next) == WriteAttemptFailed(s, p);
    }
  }

  lemma WorkerStepEnds(s: State, step: Step)
    requires Inv(s) && Ends(s) && Enabled(s, step) && !SchedulerStep(step) && !HopStep(step)
    ensures Ends(Apply(s, step))
  {
    match step
    case DoAbandon(p, k) => AbandonEnds(s, p, k);
    case DoClaim(p) => ClaimEnds(s, p);
    case DoRunning(p) => StartEnds(s, p);
    case DoStarted(p) => StartEnds(s, p);
    case DoFinish(p, outcome) => FinishEnds(s, p, outcome);
    case DoCompleted(p) => SettleEnds(s, p);
    case DoRunFailed(p) => SettleEnds(s, p);
    case DoAttemptFailed(p) => SettleEnds(s, p);
    case DoSpawn(p, child) => SpawnEnds(s, p, child);
  }

  /** Every step keeps it. */
  lemma StepEnds(s: State, step: Step)
    requires Inv(s) && Ends(s) && Enabled(s, step)
    ensures Ends(Apply(s, step))
  {
    if SchedulerStep(step) {
      SchedulerStepEnds(s, step);
    } else if HopStep(step) {
      HopStepEnds(s, step);
    } else {
      WorkerStepEnds(s, step);
    }
  }

  ghost predicate Good(s: State) {
    Inv(s) && Ends(s)
  }

  lemma {:induction false} BehavesWell(steps: seq<Step>)
    requires Behaviour(steps)
    ensures Good(After(steps))
  {
    Reachable(steps);
    if steps != [] {
      var n := |steps| - 1;
      BehavesWell(steps[..n]);
      StepEnds(After(steps[..n]), steps[n]);
    }
  }

  lemma ReachedIsWell(s: State)
    requires Reached(s)
    ensures Good(s)
  {
    var steps :| Behaviour(steps) && After(steps) == s;
    BehavesWell(steps);
  }

  // ---------------------------------------------------------------------------------------------------------
  // What a step leaves alone
  // ---------------------------------------------------------------------------------------------------------

  /** A step of the scheduler or the transport moves no process and writes no attempt and no parent. */
  lemma SchedulerLeaves(s: State, step: Step, r: RunId)
    requires Enabled(s, step) && SchedulerStep(step) && SchedulerOk(s)
    ensures Apply(s, step).procs == s.procs
    ensures r in s.jobs ==> var j, jobs := s.jobs[r], Apply(s, step).jobs;
                            r in jobs && jobs[r].attempts == j.attempts && jobs[r].row.parent == j.row.parent
    ensures r !in s.jobs && r in Apply(s, step).jobs ==> Apply(s, step).jobs[r].row.parent == None
  {
    if step.DoQueue? {
      QueueLeaves(s, step.r, r);
    } else {
      OthersKeepJobs(s, step, r);
    }
  }

  lemma QueueLeaves(s: State, queued: RunId, r: RunId)
    requires CanQueue(s, queued) && SchedulerOk(s)
    ensures Queue(s, queued).jobs.Keys == s.jobs.Keys
    ensures r in s.jobs ==> var j, jobs := s.jobs[r], Queue(s, queued).jobs;
                            jobs[r].attempts == j.attempts && jobs[r].row.parent == j.row.parent
  {
  }

  lemma OthersKeepJobs(s: State, step: Step, r: RunId)
    requires Enabled(s, step) && SchedulerStep(step) && !step.DoQueue?
    ensures Apply(s, step).procs == s.procs
    ensures r in s.jobs ==> var j, jobs := s.jobs[r], Apply(s, step).jobs;
                            r in jobs && jobs[r].attempts == j.attempts && jobs[r].row.parent == j.row.parent
    ensures r !in s.jobs && r in Apply(s, step).jobs ==> Apply(s, step).jobs[r].row.parent == None
  {
  }

  /** A step that only moves a process writes no row, and leaves the process not working. */
  lemma HopLeaves(s: State, step: Step)
    requires Enabled(s, step) && HopStep(step)
    ensures Apply(s, step).jobs == s.jobs
    ensures var next := Apply(s, step).procs; step.p in next && next == s.procs[step.p := next[step.p]] && !next[step.p].Working?
    ensures step.p in s.procs && s.procs[step.p] == Crashed ==> Apply(s, step).procs[step.p] == Crashed
  {
  }

  /** The attempt the step's process may write: the one it works on, or the one it abandons. */
  predicate Writes(s: State, step: Step, r: RunId, k: nat)
    requires !SchedulerStep(step) && !HopStep(step)
  {
    && step.p in s.procs
    && var ph := s.procs[step.p];
       OnIt(ph, r, k) || (step.DoAbandon? && step.k == k && ph.Abandoning? && ph.msg in s.stream && s.stream[ph.msg].run == r)
  }

  lemma WorkerLeaves(s: State, step: Step, r: RunId, k: nat)
    requires Enabled(s, step) && !SchedulerStep(step) && !HopStep(step) && r in s.jobs
    ensures step.p in s.procs && s.procs[step.p] != Crashed
    ensures var next := Apply(s, step).procs; step.p in next && next == s.procs[step.p := next[step.p]]
    ensures r in Apply(s, step).jobs
    ensures k < |s.jobs[r].attempts| && !Writes(s, step, r, k) ==>
              k < |Apply(s, step).jobs[r].attempts| && Apply(s, step).jobs[r].attempts[k] == s.jobs[r].attempts[k]
  {
  }

  // ---------------------------------------------------------------------------------------------------------
  // An unfinished attempt of a finished run
  // ---------------------------------------------------------------------------------------------------------

  ghost predicate Orphan(s: State, r: RunId, k: nat) {
    r in s.jobs && Terminal(s.jobs[r].row.status) && k < |s.jobs[r].attempts| && Unfinished(s.jobs[r].attempts[k])
  }

  /** The attempt is as it was, and its owner still gone. */
  ghost predicate LeftAlone(s: State, s': State, r: RunId, k: nat)
    requires r in s.jobs && k < |s.jobs[r].attempts|
  {
    && r in s'.jobs && k < |s'.jobs[r].attempts| && s'.jobs[r].attempts[k] == s.jobs[r].attempts[k]
    && Gone(s', s.jobs[r].attempts[k].owner)
  }

  lemma OthersLeaveIt(s: State, step: Step, r: RunId, k: nat)
    requires Good(s) && Enabled(s, step) && (SchedulerStep(step) || HopStep(step))
    requires Orphan(s, r, k) && Gone(s, s.jobs[r].attempts[k].owner)
    ensures LeftAlone(s, Apply(s, step), r, k)
  {
    if SchedulerStep(step) {
      SchedulerLeaves(s, step, r);
    } else {
      HopLeaves(s, step);
    }
  }

  /** Workers write the attempts they own, and nobody abandons one of a finished run. */
  lemma WorkersLeaveIt(s: State, step: Step, r: RunId, k: nat)
    requires Good(s) && Enabled(s, step) && !SchedulerStep(step) && !HopStep(step)
    requires Orphan(s, r, k) && Gone(s, s.jobs[r].attempts[k].owner)
    ensures LeftAlone(s, Apply(s, step), r, k)
  {
    WorkerLeaves(s, step, r, k);
    NotWritten(s, step.p, step, r, k);
  }

  lemma NotWritten(s: State, p: ProcId, step: Step, r: RunId, k: nat)
    requires Good(s) && Orphan(s, r, k) && Gone(s, s.jobs[r].attempts[k].owner)
    requires !SchedulerStep(step) && !HopStep(step) && p == step.p && p in s.procs && Enabled(s, step)
    ensures !Writes(s, step, r, k)
  {
    assert PhaseOk(s, p, s.procs[p]) && TodoEnded(s, s.procs[p]);
  }

  lemma OrphanStep(s: State, step: Step, r: RunId, k: nat)
    requires Good(s) && Enabled(s, step) && Orphan(s, r, k) && Gone(s, s.jobs[r].attempts[k].owner)
    ensures LeftAlone(s, Apply(s, step), r, k) && Orphan(Apply(s, step), r, k)
  {
    if SchedulerStep(step) || HopStep(step) {
      OthersLeaveIt(s, step, r, k);
    } else {
      WorkersLeaveIt(s, step, r, k);
    }
    FinishedRowStays(s, step, r);
  }

  lemma GoodStep(s: State, step: Step)
    requires Good(s) && Enabled(s, step) && Assumed(s, step)
    ensures Good(Apply(s, step))
  {
    StepKeeps(s, step);
    StepEnds(s, step);
  }

  lemma {:induction false} OrphanForever(s: State, more: seq<Step>, s': State, r: RunId, k: nat)
    requires Good(s) && Orphan(s, r, k) && Gone(s, s.jobs[r].attempts[k].owner) && Leads(s, more, s')
    ensures LeftAlone(s, s', r, k) && Orphan(s', r, k)
    decreases more
  {
    if more != [] {
      OrphanStep(s, more[0], r, k);
      GoodStep(s, more[0]);
      OrphanForever(Apply(s, more[0]), more[1..], s', r, k);
    }
  }

  /** A live owner of such an attempt is about to finish it. */
  lemma OwnerFinishesIt(s: State, r: RunId, k: nat)
    requires Good(s) && Orphan(s, r, k) && !Gone(s, s.jobs[r].attempts[k].owner)
    ensures var p := s.jobs[r].attempts[k].owner;
            AtStage(s, p, FailAttempt) && !Orphan(WriteAttemptFailed(s, p), r, k)
  {
    assert Owned(s, r);
    var p := s.jobs[r].attempts[k].owner;
    assert PhaseOk(s, p, s.procs[p]);
  }

  lemma LiveOwnerEndsIt(s: State, r: RunId, k: nat) returns (more: seq<Step>, s': State)
    requires Good(s) && Orphan(s, r, k) && !Gone(s, s.jobs[r].attempts[k].owner)
    ensures Leads(s, more, s') && !Orphan(s', r, k)
  {
    var p := s.jobs[r].attempts[k].owner;
    OwnerFinishesIt(s, r, k);
    Taken(s, DoAttemptFailed(p));
    more, s' := [DoAttemptFailed(p)], WriteAttemptFailed(s, p);
  }

  /** The attempt is never finished, however the run goes on. */
  ghost predicate NeverFinished(s: State, r: RunId, k: nat) {
    forall more, s' {:trigger Leads(s, more, s')} :: Leads(s, more, s') ==> Orphan(s', r, k)
  }

  /** In every reachable state, an unfinished attempt of a finished run stays unfinished in every continuation if and only
      if its owner is gone. */
  lemma OrphanExact(s: State, r: RunId, k: nat)
    requires Reached(s) && Orphan(s, r, k)
    ensures NeverFinished(s, r, k) <==> Gone(s, s.jobs[r].attempts[k].owner)
  {
    ReachedIsWell(s);
    if Gone(s, s.jobs[r].attempts[k].owner) {
      forall more, s' | Leads(s, more, s') ensures Orphan(s', r, k) {
        OrphanForever(s, more, s', r, k);
      }
    } else {
      var more, s' := LiveOwnerEndsIt(s, r, k);
    }
  }

  // ---------------------------------------------------------------------------------------------------------
  // The retry child
  // ---------------------------------------------------------------------------------------------------------

  /** The worker has recorded the failure on the run and has not created the child. */
  predicate Retrying(s: State, p: ProcId, r: RunId) {
    p in s.procs && s.procs[p].Working? && s.procs[p].run == r && (s.procs[p].stage == FailAttempt || s.procs[p].stage == SpawnChild)
  }

  /** The run has failed, has no child, and nobody is left to create one. */
  ghost predicate Childless(s: State, r: RunId) {
    && r in s.jobs && s.jobs[r].row.status == Failed && !HasChild(s, r)
    && forall p :: p in s.procs ==> !Retrying(s, p, r)
  }

  /** A child is only made by a worker that is retrying. */
  lemma ChildOnlyBySpawn(s: State, step: Step, r: RunId)
    requires Good(s) && Enabled(s, step) && r in s.jobs && !HasChild(s, r)
    requires !(step.DoSpawn? && Retrying(s, step.p, r))
    ensures !HasChild(Apply(s, step), r)
  {
    var s' := Apply(s, step);
    if HasChild(s', r) {
      var c :| c in s'.jobs && s'.jobs[c].row.parent == Some(r);
      ParentKept(s, step, c);
    }
  }

  /** A step never changes the parent of a run, and only Spawn creates one with a parent. */
  lemma ParentKept(s: State, step: Step, c: RunId)
    requires Good(s) && Enabled(s, step)
    ensures c in s.jobs ==> c in Apply(s, step).jobs && Apply(s, step).jobs[c].row.parent == s.jobs[c].row.parent
    ensures c !in s.jobs && c in Apply(s, step).jobs ==>
              Apply(s, step).jobs[c].row.parent == if step.DoSpawn? then Some(s.procs[step.p].run) else None
  {
    if SchedulerStep(step) {
      SchedulerLeaves(s, step, c);
    } else if HopStep(step) {
      HopLeaves(s, step);
    } else {
      WorkerKeepsParent(s, step, c);
    }
  }

  lemma WorkerKeepsParent(s: State, step: Step, c: RunId)
    requires Good(s) && Enabled(s, step) && !SchedulerStep(step) && !HopStep(step)
    ensures c in s.jobs ==> c in Apply(s, step).jobs && Apply(s, step).jobs[c].row.parent == s.jobs[c].row.parent
    ensures c !in s.jobs && c in Apply(s, step).jobs ==> step.DoSpawn? && Apply(s, step).jobs[c].row.parent == Some(s.procs[step.p].run)
  {
    assert PhaseOk(s, step.p, s.procs[step.p]);
  }

  lemma HasChildStays(s: State, step: Step, r: RunId)
    requires Good(s) && Enabled(s, step) && HasChild(s, r)
    ensures HasChild(Apply(s, step), r)
  {
    var c :| c in s.jobs && s.jobs[c].row.parent == Some(r);
    ParentKept(s, step, c);
  }

  lemma ChildlessStep(s: State, step: Step, r: RunId)
    requires Good(s) && Enabled(s, step) && Childless(s, r)
    ensures Childless(Apply(s, step), r)
  {
    var s' := Apply(s, step);
    ChildOnlyBySpawn(s, step, r);
    FinishedRowStays(s, step, r);
    forall p | p in s'.procs ensures !Retrying(s', p, r) {
      NoNewRetry(s, step, r, p);
    }
  }

  /** Only the process that takes a step moves. */
  lemma OthersStand(s: State, step: Step, r: RunId, q: ProcId)
    requires SchedulerOk(s) && Enabled(s, step) && r in s.jobs && (SchedulerStep(step) || step.p != q)
    ensures q in Apply(s, step).procs <==> q in s.procs
    ensures q in s.procs ==> Apply(s, step).procs[q] == s.procs[q]
  {
    if SchedulerStep(step) {
      SchedulerLeaves(s, step, r);
    } else if HopStep(step) {
      HopLeaves(s, step);
    } else {
      WorkerLeaves(s, step, r, 0);
    }
  }

  /** Only a worker that executes the run can start to retry it, and nobody executes a finished run. */
  lemma NoNewRetry(s: State, step: Step, r: RunId, p: ProcId)
    requires Good(s) && Enabled(s, step) && r in s.jobs && Terminal(s.jobs[r].row.status) && p in Apply(s, step).procs
    requires p in s.procs ==> !Retrying(s, p, r)
    ensures !Retrying(Apply(s, step), p, r)
  {
    if SchedulerStep(step) || step.p != p {
      OthersStand(s, step, r, p);
    } else if HopStep(step) {
      HopLeaves(s, step);
    } else {
      assert PhaseOk(s, p, s.procs[p]);
      WorkerDoesNotRetry(s, step, r);
    }
  }

  lemma WorkerDoesNotRetry(s: State, step: Step, r: RunId)
    requires Enabled(s, step) && !SchedulerStep(step) && !HopStep(step) && step.p in s.procs && PhaseOk(s, step.p, s.procs[step.p])
    requires r in s.jobs && Terminal(s.jobs[r].row.status) && !Retrying(s, step.p, r)
    ensures !Retrying(Apply(s, step), step.p, r)
  {
  }

  lemma {:induction false} ChildlessForever(s: State, more: seq<Step>, s': State, r: RunId)
    requires Good(s) && Childless(s, r) && Leads(s, more, s')
    ensures Childless(s', r)
    decreases more
  {
    if more != [] {
      ChildlessStep(s, more[0], r);
      GoodStep(s, more[0]);
      ChildlessForever(Apply(s, more[0]), more[1..], s', r);
    }
  }

  /** The worker crashes between the failure it records on the run and the child it would create. */
  ghost predicate CrashesBetween(s: State, more: seq<Step>, p: ProcId, r: RunId)
    decreases more
  {
    more != [] && Enabled(s, more[0]) &&
    ((more[0] == DoCrash(p) && Retrying(s, p, r)) || CrashesBetween(Apply(s, more[0]), more[1..], p, r))
  }

  /** Once there is a child the worker is past that. */
  lemma {:induction false} ChildMeansNoCrash(s: State, more: seq<Step>, s': State, p: ProcId, r: RunId)
    requires Good(s) && HasChild(s, r) && Leads(s, more, s')
    ensures HasChild(s', r) && !CrashesBetween(s, more, p, r)
    decreases more
  {
    if p in s.procs {
      assert PhaseOk(s, p, s.procs[p]);
    }
    if more != [] {
      HasChildStays(s, more[0], r);
      GoodStep(s, more[0]);
      ChildMeansNoCrash(Apply(s, more[0]), more[1..], s', p, r);
    }
  }

  /** The next step on the way to the child. */
  lemma RetryStep(s: State, step: Step, p: ProcId, r: RunId)
    requires Good(s) && Enabled(s, step) && Retrying(s, p, r) && s.procs[p].row.retryIndex < MAX_RETRIES && step != DoCrash(p)
    ensures var s' := Apply(s, step);
            HasChild(s', r) || (Retrying(s', p, r) && s'.procs[p].row.retryIndex < MAX_RETRIES)
  {
    if SchedulerStep(step) || step.p != p {
      assert PhaseOk(s, p, s.procs[p]);
      OthersStand(s, step, r, p);
    } else {
      OwnRetryStep(s, step, r);
    }
  }

  lemma OwnRetryStep(s: State, step: Step, r: RunId)
    requires Enabled(s, step) && !SchedulerStep(step) && Retrying(s, step.p, r) && !step.DoCrash?
    requires s.procs[step.p].row.retryIndex < MAX_RETRIES
    ensures var s' := Apply(s, step);
            HasChild(s', r) || (Retrying(s', step.p, r) && s'.procs[step.p].row.retryIndex < MAX_RETRIES)
  {
    assert step.DoAttemptFailed? || step.DoSpawn?;
    if step.DoSpawn? {
      assert Apply(s, step).jobs[step.child].row.parent == Some(r);
    }
  }

  lemma CrashMakesChildless(s: State, p: ProcId, r: RunId)
    requires Good(s) && Retrying(s, p, r)
    ensures Childless(Go(s, p, Crashed), r)
  {
    assert PhaseOk(s, p, s.procs[p]);
    forall q | q in s.procs && q != p ensures !Retrying(s, q, r) {
      assert PairOk(s, p, q);
    }
  }

  /** From the recorded failure on: crashed in between, or the child is there, or the worker is still on its way. */
  lemma {:induction false} RetryPath(s: State, more: seq<Step>, s': State, p: ProcId, r: RunId)
    requires Good(s) && Retrying(s, p, r) && s.procs[p].row.retryIndex < MAX_RETRIES && Leads(s, more, s')
    ensures CrashesBetween(s, more, p, r) ==> Childless(s', r)
    ensures !CrashesBetween(s, more, p, r) ==>
              HasChild(s', r) || (Retrying(s', p, r) && s'.procs[p].row.retryIndex < MAX_RETRIES)
    ensures Good(s')
    decreases more
  {
    if more != [] {
      var next := Apply(s, more[0]);
      GoodStep(s, more[0]);
      GoodRun(next, more[1..], s');
      if more[0] == DoCrash(p) {
        CrashMakesChildless(s, p, r);
        ChildlessForever(next, more[1..], s', r);
      } else {
        RetryStep(s, more[0], p, r);
        if HasChild(next, r) {
          ChildMeansNoCrash(next, more[1..], s', p, r);
        } else {
          RetryPath(next, more[1..], s', p, r);
        }
      }
    }
  }

  lemma {:induction false} GoodRun(s: State, more: seq<Step>, s': State)
    requires Good(s) && Leads(s, more, s')
    ensures Good(s')
    decreases more
  {
    if more != [] {
      GoodStep(s, more[0]);
      GoodRun(Apply(s, more[0]), more[1..], s');
    }
  }

  /** The run never gets a child, however it goes on. */
  ghost predicate NeverRetried(s: State, r: RunId) {
    forall more, s' {:trigger Leads(s, more, s')} :: Leads(s, more, s') ==> !HasChild(s', r)
  }

  /** A worker on its way can get there. */
  lemma RetryArrives(s: State, p: ProcId, r: RunId) returns (more: seq<Step>, s': State)
    requires Good(s) && Retrying(s, p, r) && s.procs[p].row.retryIndex < MAX_RETRIES
    ensures Leads(s, more, s') && HasChild(s', r)
  {
    more, s' := RetryReady(s, p, r);
    var child := NewRun(s');
    more, s' := AndThen(s, more, s', DoSpawn(p, child));
    assert s'.jobs[child].row.parent == Some(r);
  }

  lemma RetryReady(s: State, p: ProcId, r: RunId) returns (more: seq<Step>, s': State)
    requires Good(s) && Retrying(s, p, r) && s.procs[p].row.retryIndex < MAX_RETRIES
    ensures Leads(s, more, s') && AtStage(s', p, SpawnChild) && s'.procs[p].run == r
  {
    assert PhaseOk(s, p, s.procs[p]);
    more, s' := [], s;
    if s.procs[p].stage == FailAttempt {
      Taken(s, DoAttemptFailed(p));
      more, s' := [DoAttemptFailed(p)], Apply(s, DoAttemptFailed(p));
    }
  }

  /** A run id nothing mentions. */
  lemma NewRun(s: State) returns (child: RunId)
    ensures FreshRun(s, child)
  {
    var named := set m | m in s.stream :: s.stream[m].run;
    child := FreshId(s.jobs.Keys + named);
    assert !Named(s, child);
  }

  /** A retryable failure below the limit never gets its child if and only if its worker crashed between recording the
      failure on the run and creating the child. */
  lemma LostRetryExact(s: State, p: ProcId, more: seq<Step>, s': State)
    requires Reached(s) && AtStage(s, p, Execute) && s.procs[p].row.retryIndex < MAX_RETRIES
    requires Leads(Finish(s, p, RetryableFailure), more, s')
    ensures NeverRetried(s', s.procs[p].run) <==> CrashesBetween(Finish(s, p, RetryableFailure), more, p, s.procs[p].run)
  {
    var r, failed := s.procs[p].run, Finish(s, p, RetryableFailure);
    ReachedIsWell(s);
    assert PhaseOk(s, p, s.procs[p]);
    NoChildYet(s, r);
    FinishKeeps(s, p, RetryableFailure);
    FinishEnds(s, p, RetryableFailure);
    assert Retrying(failed, p, r);
    RetryPath(failed, more, s', p, r);
    NeverRetriedExact(s', p, r);
  }

  lemma NeverRetriedExact(s: State, p: ProcId, r: RunId)
    requires Good(s) && (Childless(s, r) || HasChild(s, r) || (Retrying(s, p, r) && s.procs[p].row.retryIndex < MAX_RETRIES))
    ensures NeverRetried(s, r) <==> Childless(s, r)
  {
    if Childless(s, r) {
      forall more, s' | Leads(s, more, s') ensures !HasChild(s', r) {
        ChildlessForever(s, more, s', r);
      }
    } else if HasChild(s, r) {
      assert Leads(s, [], s);
    } else {
      var more, s' := RetryArrives(s, p, r);
    }
  }
}
