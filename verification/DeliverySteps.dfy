/** Every step keeps the invariant: frame lemmas first, then one lemma per step. */
module DeliverySteps {
  import opened Options
  import opened AttemptOwnership
  import opened Delivery
  import opened DeliveryInvariant

  // ---------------------------------------------------------------------------------------------------------
  // Frames
  // ---------------------------------------------------------------------------------------------------------

  /** What any step may do to a job: never reopen it, never reopen an attempt, only append attempts. */
  predicate JobEvolves(j: Job, j': Job) {
    && (Terminal(j.row.status) ==> Terminal(j'.row.status))
    && |j.attempts| <= |j'.attempts|
    && forall k :: 0 <= k < |j.attempts| ==>
         && j'.attempts[k] == j.attempts[k].(status := j'.attempts[k].status)
         && (Unfinished(j'.attempts[k]) ==> Unfinished(j.attempts[k]))
  }

  ghost predicate Evolves(s: State, s': State) {
    && (forall r {:trigger s'.jobs[r]} {:trigger r in s'.jobs} :: r in s.jobs ==> r in s'.jobs && JobEvolves(s.jobs[r], s'.jobs[r]))
    && (forall r {:trigger r in s'.jobs} :: r in s'.jobs && r !in s.jobs ==> !Named(s', r))
    && (forall m {:trigger s'.stream[m]} {:trigger m in s'.stream} :: m in s.stream ==>
          && m in s'.stream && s'.stream[m].run == s.stream[m].run
          && (s'.stream[m].place == Available ==> s.stream[m].place == Available))
    && (forall p {:trigger p in s'.procs} :: p in s.procs ==> p in s'.procs && (s.procs[p] == Crashed ==> s'.procs[p] == Crashed))
  }

  lemma SettledStays(s: State, s': State, r: RunId)
    requires Evolves(s, s') && r in s.jobs && Settled(s, r)
    ensures Settled(s', r)
  {
    assert r in s'.jobs;
  }

  /** A process that does not move stays consistent when what it relies on is left alone. */
  lemma PhaseFrame(s: State, s': State, q: ProcId)
    requires Evolves(s, s') && q in s.procs && q in s'.procs && s'.procs[q] == s.procs[q]
    requires PhaseOk(s, q, s.procs[q])
    requires var ph := s.procs[q];
             (ph.Abandoning? || ph.Received? || ph.Working? || ph.Acking?) && !Settled(s', s.stream[ph.msg].run) ==>
               && (Unacked(s, ph.msg) ==> Unacked(s', ph.msg))
               && var r := s.stream[ph.msg].run;
                  r in s.jobs ==> forall k :: |s.jobs[r].attempts| <= k < |s'.jobs[r].attempts| ==>
                                                s'.jobs[r].attempts[k].delivery != ph.msg
    requires var ph := s.procs[q];
             ph.Abandoning? ==> forall k :: k in ph.todo ==>
               var j' := s'.jobs[s.stream[ph.msg].run]; Unfinished(j'.attempts[k]) || j'.attempts[k].status == Abandoned
    requires var ph := s.procs[q];
             ph.Working? ==>
               && s'.jobs[ph.run].row == s.jobs[ph.run].row.(published := s'.jobs[ph.run].row.published)
               && s'.jobs[ph.run].attempts[ph.attempt] == s.jobs[ph.run].attempts[ph.attempt]
               && (HasChild(s', ph.run) ==> HasChild(s, ph.run))
               && (Settling(ph, ph.run) ==> NoneUnfinished(s'.jobs[ph.run].attempts))
    requires var ph := s.procs[q];
             ph.Deleting? ==> s'.stream[ph.msg].place == Acked || s'.stream[ph.msg].place == Deleted
    ensures PhaseOk(s', q, s'.procs[q])
  {
    var ph := s.procs[q];
    if ph.Idle? || ph.Crashed? {
    } else {
      var m := ph.msg;
      assert m in s'.stream;
      var r := s.stream[m].run;
      if r in s.jobs {
        assert r in s'.jobs && JobEvolves(s.jobs[r], s'.jobs[r]);
      }
    }
  }

  lemma AttemptsFrame(s: State, s': State, r: RunId)
    requires Evolves(s, s') && r in s.jobs && r in s'.jobs && s'.jobs[r] == s.jobs[r]
    requires AttemptsOk(s, r)
    requires forall m :: Unacked(s, m) && s.stream[m].run == r && !Settled(s, r) && !NoneThrough(s.jobs[r].attempts, m) ==> Unacked(s', m)
    ensures AttemptsOk(s', r)
  {
    forall k | 0 <= k < |s.jobs[r].attempts|
      ensures s.jobs[r].attempts[k].delivery in s'.stream && s.jobs[r].attempts[k].owner in s'.procs
    {
      assert s.jobs[r].attempts[k].delivery in s.stream;
    }
  }

  lemma RowFrame(s: State, s': State, r: RunId)
    requires Evolves(s, s') && r in s.jobs && r in s'.jobs && s'.jobs[r] == s.jobs[r]
    requires RowOk(s, r)
    requires Named(s', r) ==> Named(s, r)
    requires !Settled(s, r) && Backed(s, r) ==> Backed(s', r)
    ensures RowOk(s', r)
  {
    if Named(s, r) {
      NamedStays(s, s', r);
    }
  }

  lemma NamedStays(s: State, s': State, r: RunId)
    requires Evolves(s, s') && Named(s, r)
    ensures Named(s', r)
  {
    var m :| m in s.stream && s.stream[m].run == r;
    assert m in s'.stream;
  }

  /** Backing survives while no process of another kind of run starts acknowledging and nothing else is acked. */
  lemma BackedFrame(s: State, s': State, r: RunId)
    requires Evolves(s, s') && Backed(s, r)
    requires forall m :: Backing(s, r, m) ==> Unacked(s', m)
    requires forall q :: q in s'.procs && s'.procs[q].Acking? && (q !in s.procs || s.procs[q] != s'.procs[q]) ==>
               s'.procs[q].msg in s.stream && s.stream[s'.procs[q].msg].run != r
    ensures Backed(s', r)
  {
    var m :| Backing(s, r, m);
    assert m in s'.stream;
    assert Backing(s', r, m);
  }

  lemma LineageFrame(s: State, s': State)
    requires JobsOk(s) && s'.jobs.Keys == s.jobs.Keys
    requires forall r {:trigger s'.jobs[r]} :: r in s.jobs ==>
               && s'.jobs[r].row == s.jobs[r].row.(status := s'.jobs[r].row.status, published := s'.jobs[r].row.published)
               && (s.jobs[r].row.status == Failed ==> s'.jobs[r].row.status == Failed)
    ensures forall r :: r in s'.jobs ==> LineageOk(s', r)
    ensures forall a, b :: a in s'.jobs && b in s'.jobs ==> NotSiblings(s', a, b)
    ensures forall r: RunId :: HasChild(s', r) <==> HasChild(s, r)
  {
    forall r | r in s'.jobs ensures LineageOk(s', r) {
      assert LineageOk(s, r);
    }
    forall a, b | a in s'.jobs && b in s'.jobs ensures NotSiblings(s', a, b) {
      assert NotSiblings(s, a, b);
    }
    forall r: RunId ensures HasChild(s', r) <==> HasChild(s, r) {
      if HasChild(s, r) {
        var c :| c in s.jobs && s.jobs[c].row.parent == Some(r);
        assert s'.jobs[c].row.parent == Some(r);
      }
    }
  }

  /** Process p, and nobody else, has moved; only an entry p was acknowledging can have left the pending list. */
  ghost predicate Moved(s: State, s': State, p: ProcId) {
    && Evolves(s, s')
    && p in s'.procs && s'.procs == s.procs[p := s'.procs[p]] && s'.stream.Keys == s.stream.Keys
    && forall m :: Unacked(s, m) && !Unacked(s', m) ==> p in s.procs && s.procs[p] == Acking(m)
  }

  lemma MoveJobs(s: State, s': State, p: ProcId)
    requires JobsOk(s) && ProcsOk(s) && Moved(s, s', p)
    requires forall r {:trigger r in s'.jobs} :: r in s'.jobs ==>
               (r in s.jobs && s'.jobs[r] == s.jobs[r]) || (AttemptsOk(s', r) && RowOk(s', r))
    requires forall r {:trigger LineageOk(s', r)} :: r in s'.jobs ==> LineageOk(s', r)
    requires forall a, b {:trigger NotSiblings(s', a, b)} :: a in s'.jobs && b in s'.jobs ==> NotSiblings(s', a, b)
    requires forall r :: r in s.jobs && !Settled(s, r) && Backed(s, r) && s'.jobs[r] == s.jobs[r] ==> Backed(s', r)
    ensures JobsOk(s')
  {
    forall r | r in s'.jobs ensures AttemptsOk(s', r) && RowOk(s', r) {
      if r in s.jobs && s'.jobs[r] == s.jobs[r] {
        assert AttemptsOk(s, r) && RowOk(s, r);
        forall m | Unacked(s, m) && s.stream[m].run == r && !Settled(s, r) && !NoneThrough(s.jobs[r].attempts, m)
          ensures Unacked(s', m)
        {
          if p in s.procs {
            assert PhaseOk(s, p, s.procs[p]);
          }
        }
        AttemptsFrame(s, s', r);
        assert Named(s', r) ==> Named(s, r) by {
          if Named(s', r) {
            var m :| m in s'.stream && s'.stream[m].run == r;
            assert m in s.stream;
          }
        }
        RowFrame(s, s', r);
      }
    }
  }

  /** What p holds and works on after its move is compatible with what the others hold and work on. */
  ghost predicate Apart(s: State, s': State, p: ProcId)
    requires p in s'.procs
  {
    && (forall q, m :: q in s.procs && q != p && Holds(s'.procs[p], m) && Holds(s.procs[q], m) ==>
          MayShare(s', m, s'.procs[p], s.procs[q]))
    && (forall q :: q in s.procs && q != p && s'.procs[p].Working? && s.procs[q].Working? ==>
          s'.procs[p].run != s.procs[q].run)
  }

  /** A process that gives up nothing it shares and takes on nothing new. */
  ghost predicate HoldsOn(s: State, s': State, p: ProcId)
    requires p in s.procs && p in s'.procs
  {
    && (forall m :: Holds(s'.procs[p], m) ==> Holds(s.procs[p], m))
    && (forall r :: Settling(s.procs[p], r) ==> Settled(s', r) || Settling(s'.procs[p], r))
    && (s.procs[p].Received? && !s'.procs[p].Received? && s.procs[p].msg in s.stream ==>
          forall q :: q in s.procs && q != p && Holds(s.procs[q], s.procs[p].msg) ==> !Settling(s.procs[q], s.stream[s.procs[p].msg].run))
  }

  lemma StillShares(s: State, s': State, p: ProcId, q: ProcId, m: MsgId)
    requires ProcsOk(s) && Moved(s, s', p) && p in s.procs && q in s.procs && q != p && HoldsOn(s, s', p)
    requires Holds(s'.procs[p], m) && Holds(s.procs[q], m)
    ensures MayShare(s', m, s'.procs[p], s.procs[q])
  {
    assert PairOk(s, p, q);
    assert MayShare(s, m, s.procs[p], s.procs[q]);
    ShareStays(s, s', m, s.procs[p], s.procs[q]);
  }

  lemma ShareStays(s: State, s': State, m: MsgId, a: Phase, b: Phase)
    requires Evolves(s, s') && MayShare(s, m, a, b)
    ensures MayShare(s', m, a, b)
    ensures s'.stream[m].run == s.stream[m].run && (Settled(s, s.stream[m].run) ==> Settled(s', s.stream[m].run))
  {
    assert m in s'.stream;
    var r := s.stream[m].run;
    assert Named(s', r);
    if r in s.jobs && Settled(s, r) {
      SettledStays(s, s', r);
    }
  }

  lemma MoveProcs(s: State, s': State, p: ProcId)
    requires ProcsOk(s) && Moved(s, s', p) && Apart(s, s', p)
    requires forall q {:trigger PhaseOk(s', q, s'.procs[q])} :: q in s'.procs ==> PhaseOk(s', q, s'.procs[q])
    ensures ProcsOk(s')
  {
    forall a, b | a in s'.procs && b in s'.procs ensures PairOk(s', a, b) {
      MovePair(s, s', p, a, b);
    }
  }

  lemma MovePair(s: State, s': State, p: ProcId, a: ProcId, b: ProcId)
    requires ProcsOk(s) && Moved(s, s', p) && Apart(s, s', p) && a in s'.procs && b in s'.procs
    ensures PairOk(s', a, b)
  {
    if a != b {
      forall m | Holds(s'.procs[a], m) && Holds(s'.procs[b], m) ensures MayShare(s', m, s'.procs[a], s'.procs[b]) {
        if a != p && b != p {
          assert PairOk(s, a, b);
          ShareStays(s, s', m, s.procs[a], s.procs[b]);
        }
      }
      if a in s.procs && b in s.procs {
        assert PairOk(s, a, b);
      }
    }
  }

  // ---------------------------------------------------------------------------------------------------------
  // Writes of a live worker
  // ---------------------------------------------------------------------------------------------------------

  function WorkerWritten(s: State, p: ProcId, row: Run, status: AttemptStatus, next: Phase): State
    requires p in s.procs && s.procs[p].Working? && s.procs[p].run in s.jobs
    requires s.procs[p].attempt < |s.jobs[s.procs[p].run].attempts|
  {
    var ph := s.procs[p];
    var attempts := s.jobs[ph.run].attempts;
    Go(s.(jobs := s.jobs[ph.run := Job(row, attempts[ph.attempt := attempts[ph.attempt].(status := status)])]), p, next)
  }

  /** The worker goes on with the same attempt, consistently, or it is done because the run is finished. */
  ghost predicate GoesOn(s: State, ph: Phase, row: Run, status: AttemptStatus, next: Phase)
    requires ph.Working?
  {
    || (next == Acking(ph.msg) && Terminal(row.status))
    || (&& next.Working? && next.msg == ph.msg && next.run == ph.run && next.attempt == ph.attempt
        && StageOk(next.stage, row.status, status)
        && next.row == row.(published := next.row.published)
        && (next.stage == FailAttempt || next.stage == SpawnChild ==> !HasChild(s, ph.run))
        && (next.stage == SpawnChild ==> row.retryIndex < MAX_RETRIES)
        && (Settling(next, ph.run) ==>
              && ph.run in s.jobs && ph.attempt < |s.jobs[ph.run].attempts|
              && Unfinished(s.jobs[ph.run].attempts[ph.attempt])))
  }

  ghost predicate WriteOk(s: State, p: ProcId, row: Run, status: AttemptStatus, next: Phase) {
    && p in s.procs && s.procs[p].Working? && s.procs[p].run in s.jobs
    && s.procs[p].attempt < |s.jobs[s.procs[p].run].attempts|
    && var ph := s.procs[p];
       var j := s.jobs[ph.run];
       && row == j.row.(status := row.status, published := row.published)
       && (Terminal(j.row.status) ==> row.status == j.row.status)
       && row.status != Pending && row.status != Queued
       && (row.status == Completed ==> status == Succeeded)
       && (Unfinished(j.attempts[ph.attempt].(status := status)) ==> Unfinished(j.attempts[ph.attempt]))
       && (Settling(ph, ph.run) ==> Terminal(row.status))
       && GoesOn(s, ph, row, status, next)
  }

  lemma WorkerWriteKeeps(s: State, p: ProcId, row: Run, status: AttemptStatus, next: Phase)
    requires Inv(s) && WriteOk(s, p, row, status, next)
    ensures Inv(WorkerWritten(s, p, row, status, next))
  {
    assert PhaseOk(s, p, s.procs[p]);
    WorkerEvolves(s, p, row, status, next);
    WorkerWriteJobs(s, p, row, status, next);
    assert AttemptsOk(s, s.procs[p].run);
    WorkerWriteProcs(s, p, row, status, next);
    WorkerScheduler(s, p, row, status, next);
  }

  lemma WorkerWriteJobs(s: State, p: ProcId, row: Run, status: AttemptStatus, next: Phase)
    requires JobsOk(s) && ProcsOk(s) && WriteOk(s, p, row, status, next)
    requires Moved(s, WorkerWritten(s, p, row, status, next), p)
    ensures JobsOk(WorkerWritten(s, p, row, status, next))
    ensures forall r: RunId :: HasChild(WorkerWritten(s, p, row, status, next), r) <==> HasChild(s, r)
  {
    var s' := WorkerWritten(s, p, row, status, next);
    assert PhaseOk(s, p, s.procs[p]);
    assert AttemptsOk(s, s.procs[p].run) && RowOk(s, s.procs[p].run);
    LineageFrame(s, s');
    WorkerBacked(s, p, row, status, next);
    WorkerJob(s, p, row, status, next);
    MoveJobs(s, s', p);
  }

  lemma WorkerWriteProcs(s: State, p: ProcId, row: Run, status: AttemptStatus, next: Phase)
    requires ProcsOk(s) && WriteOk(s, p, row, status, next) && AttemptsOk(s, s.procs[p].run)
    requires Moved(s, WorkerWritten(s, p, row, status, next), p)
    requires forall r: RunId :: HasChild(WorkerWritten(s, p, row, status, next), r) <==> HasChild(s, r)
    ensures ProcsOk(WorkerWritten(s, p, row, status, next))
  {
    var s' := WorkerWritten(s, p, row, status, next);
    assert PhaseOk(s, p, s.procs[p]);
    WorkerSelf(s, p, row, status, next);
    WorkerHoldsOn(s, p, row, status, next);
    forall q, m | q in s.procs && q != p && Holds(s'.procs[p], m) && Holds(s.procs[q], m)
      ensures MayShare(s', m, s'.procs[p], s.procs[q])
    {
      StillShares(s, s', p, q, m);
    }
    forall q | q in s'.procs ensures PhaseOk(s', q, s'.procs[q]) {
      if q != p {
        WorkerOther(s, p, row, status, next, q);
      }
    }
    forall q | q in s.procs && q != p ensures !(s.procs[q].Working? && s.procs[q].run == s.procs[p].run) {
      assert PairOk(s, p, q);
    }
    MoveProcs(s, s', p);
  }

  lemma WorkerEvolves(s: State, p: ProcId, row: Run, status: AttemptStatus, next: Phase)
    requires p in s.procs && s.procs[p].Working? && PhaseOk(s, p, s.procs[p])
    requires var ph := s.procs[p];
             var j := s.jobs[ph.run];
             && (Terminal(j.row.status) ==> row.status == j.row.status)
             && (Unfinished(j.attempts[ph.attempt].(status := status)) ==> Unfinished(j.attempts[ph.attempt]))
    ensures Moved(s, WorkerWritten(s, p, row, status, next), p)
  {
    var s' := WorkerWritten(s, p, row, status, next);
    assert JobEvolves(s.jobs[s.procs[p].run], s'.jobs[s.procs[p].run]);
  }

  lemma WorkerBacked(s: State, p: ProcId, row: Run, status: AttemptStatus, next: Phase)
    requires p in s.procs && s.procs[p].Working? && PhaseOk(s, p, s.procs[p]) && RowOk(s, s.procs[p].run)
    requires Evolves(s, WorkerWritten(s, p, row, status, next)) && GoesOn(s, s.procs[p], row, status, next)
    ensures var s' := WorkerWritten(s, p, row, status, next);
            && (forall x :: x in s.jobs && !Settled(s', x) && Backed(s, x) ==> Backed(s', x))
            && (!Terminal(row.status) ==> Backed(s', s.procs[p].run))
  {
    var ph := s.procs[p];
    var s' := WorkerWritten(s, p, row, status, next);
    forall x | x in s.jobs && !Settled(s', x) && Backed(s, x) ensures Backed(s', x) {
      BackedFrame(s, s', x);
    }
    assert Named(s, ph.run) by {
      assert ph.msg in s.stream && s.stream[ph.msg].run == ph.run;
    }
    if !Terminal(row.status) {
      assert !Settled(s', ph.run) && !Settled(s, ph.run);
      assert Backed(s, ph.run);
      BackedFrame(s, s', ph.run);
    }
  }

  lemma WorkerHoldsOn(s: State, p: ProcId, row: Run, status: AttemptStatus, next: Phase)
    requires WriteOk(s, p, row, status, next) && PhaseOk(s, p, s.procs[p])
    ensures HoldsOn(s, WorkerWritten(s, p, row, status, next), p)
  {
  }

  lemma WorkerSelf(s: State, p: ProcId, row: Run, status: AttemptStatus, next: Phase)
    requires p in s.procs && s.procs[p].Working? && PhaseOk(s, p, s.procs[p])
    requires var j := s.jobs[s.procs[p].run];
             row == j.row.(status := row.status, published := row.published) && (Terminal(j.row.status) ==> row.status == j.row.status)
    requires GoesOn(s, s.procs[p], row, status, next) && LoneUnfinished(s.jobs[s.procs[p].run].attempts)
    requires forall r: RunId :: HasChild(WorkerWritten(s, p, row, status, next), r) <==> HasChild(s, r)
    ensures var s' := WorkerWritten(s, p, row, status, next); PhaseOk(s', p, s'.procs[p])
  {
    var ph := s.procs[p];
    var s' := WorkerWritten(s, p, row, status, next);
    assert s'.jobs[ph.run].attempts[ph.attempt].status == status;
    if Settling(next, ph.run) {
      NoneLeft(s.jobs[ph.run].attempts, ph.attempt, status);
    }
  }

  /** The lone unfinished attempt finishes. */
  lemma NoneLeft(attempts: seq<Attempt>, k: nat, status: AttemptStatus)
    requires LoneUnfinished(attempts) && k < |attempts| && Unfinished(attempts[k]) && !Unfinished(attempts[k].(status := status))
    ensures NoneUnfinished(attempts[k := attempts[k].(status := status)])
  {
  }

  lemma WorkerJob(s: State, p: ProcId, row: Run, status: AttemptStatus, next: Phase)
    requires p in s.procs && s.procs[p].Working? && PhaseOk(s, p, s.procs[p])
    requires var ph := s.procs[p];
             var j := s.jobs[ph.run];
             && AttemptsOk(s, ph.run) && RowOk(s, ph.run)
             && (Terminal(j.row.status) ==> row.status == j.row.status)
             && row.status != Pending && row.status != Queued
             && (row.status == Completed ==> status == Succeeded)
             && (Unfinished(j.attempts[ph.attempt].(status := status)) ==> Unfinished(j.attempts[ph.attempt]))
             && (!Terminal(row.status) ==> Backed(WorkerWritten(s, p, row, status, next), ph.run))
    ensures AttemptsOk(WorkerWritten(s, p, row, status, next), s.procs[p].run)
    ensures RowOk(WorkerWritten(s, p, row, status, next), s.procs[p].run)
  {
    var ph := s.procs[p];
    var s' := WorkerWritten(s, p, row, status, next);
    assert s'.jobs[ph.run].attempts[ph.attempt].status == status;
  }

  lemma WorkerOther(s: State, p: ProcId, row: Run, status: AttemptStatus, next: Phase, q: ProcId)
    requires ProcsOk(s) && p in s.procs && s.procs[p].Working? && PhaseOk(s, p, s.procs[p]) && q in s.procs && q != p
    requires Evolves(s, WorkerWritten(s, p, row, status, next))
    requires forall r: RunId :: HasChild(WorkerWritten(s, p, row, status, next), r) <==> HasChild(s, r)
    ensures var s' := WorkerWritten(s, p, row, status, next); PhaseOk(s', q, s'.procs[q])
  {
    var s' := WorkerWritten(s, p, row, status, next);
    assert PhaseOk(s, q, s.procs[q]) && PairOk(s, p, q);
    PhaseFrame(s, s', q);
  }

  lemma WorkerScheduler(s: State, p: ProcId, row: Run, status: AttemptStatus, next: Phase)
    requires SchedulerOk(s) && p in s.procs && s.procs[p].Working? && PhaseOk(s, p, s.procs[p]) && row.status != Pending
    ensures SchedulerOk(WorkerWritten(s, p, row, status, next))
  {
    var s' := WorkerWritten(s, p, row, status, next);
    if s.sched.at.Confirming? {
      var m :| m in s.stream && s.stream[m].run == s.sched.at.run;
      assert m in s'.stream && s'.stream[m].run == s.sched.at.run;
    }
  }

  lemma SameAttempts(attempts: seq<Attempt>, k: nat, status: AttemptStatus)
    requires k < |attempts| && attempts[k].status == status
    ensures attempts[k := attempts[k].(status := status)] == attempts
  {
  }

  lemma RunningKeeps(s: State, p: ProcId)
    requires Inv(s) && AtStage(s, p, MarkRunning)
    ensures Inv(WriteRunning(s, p))
  {
    var ph := s.procs[p];
    assert PhaseOk(s, p, ph);
    var row := ph.row.(status := Running);
    var next := ph.(stage := MarkStarted, row := row);
    WorkerWriteKeeps(s, p, row, Claimed, next);
    SameAttempts(s.jobs[ph.run].attempts, ph.attempt, Claimed);
    assert WorkerWritten(s, p, row, Claimed, next) == WriteRunning(s, p);
  }

  lemma StartedKeeps(s: State, p: ProcId)
    requires Inv(s) && AtStage(s, p, MarkStarted)
    ensures Inv(WriteStarted(s, p))
  {
    var ph := s.procs[p];
    assert PhaseOk(s, p, ph);
    WorkerWriteKeeps(s, p, s.jobs[ph.run].row, Started, ph.(stage := Execute));
    assert WorkerWritten(s, p, s.jobs[ph.run].row, Started, ph.(stage := Execute)) == WriteStarted(s, p);
  }

  /** A run that is still being executed has no retry child: the "already exists" branch is dead. */
  lemma NoChildYet(s: State, r: RunId)
    requires JobsOk(s) && r in s.jobs && s.jobs[r].row.status != Failed
    ensures !HasChild(s, r)
  {
    forall c | c in s.jobs ensures s.jobs[c].row.parent != Some(r) {
      assert LineageOk(s, c);
    }
  }

  lemma FinishKeeps(s: State, p: ProcId, outcome: Outcome)
    requires Inv(s) && AtStage(s, p, Execute)
    ensures Inv(Finish(s, p, outcome))
  {
    var ph := s.procs[p];
    assert PhaseOk(s, p, ph);
    NoChildYet(s, ph.run);
    var row := s.jobs[ph.run].row;
    match outcome
    case Success =>
      WorkerWriteKeeps(s, p, row, Succeeded, ph.(stage := CompleteRun));
      assert WorkerWritten(s, p, row, Succeeded, ph.(stage := CompleteRun)) == Finish(s, p, outcome);
    case RetryableFailure =>
      var failed := ph.row.(status := Failed);
      var next := ph.(stage := FailAttempt, row := failed);
      WorkerWriteKeeps(s, p, failed, Started, next);
      SameAttempts(s.jobs[ph.run].attempts, ph.attempt, Started);
      assert WorkerWritten(s, p, failed, Started, next) == Finish(s, p, outcome);
    case NonRetryableFailure =>
      WorkerWriteKeeps(s, p, row, AttemptFailed, ph.(stage := FailRun));
      assert WorkerWritten(s, p, row, AttemptFailed, ph.(stage := FailRun)) == Finish(s, p, outcome);
  }

  lemma CompletedKeeps(s: State, p: ProcId)
    requires Inv(s) && AtStage(s, p, CompleteRun)
    ensures Inv(WriteCompleted(s, p))
  {
    var ph := s.procs[p];
    assert PhaseOk(s, p, ph);
    var row := ph.row.(status := Completed);
    WorkerWriteKeeps(s, p, row, Succeeded, Acking(ph.msg));
    SameAttempts(s.jobs[ph.run].attempts, ph.attempt, Succeeded);
    assert WorkerWritten(s, p, row, Succeeded, Acking(ph.msg)) == WriteCompleted(s, p);
  }

  lemma RunFailedKeeps(s: State, p: ProcId)
    requires Inv(s) && AtStage(s, p, FailRun)
    ensures Inv(WriteRunFailed(s, p))
  {
    var ph := s.procs[p];
    assert PhaseOk(s, p, ph);
    var row := ph.row.(status := Failed);
    WorkerWriteKeeps(s, p, row, AttemptFailed, Acking(ph.msg));
    SameAttempts(s.jobs[ph.run].attempts, ph.attempt, AttemptFailed);
    assert WorkerWritten(s, p, row, AttemptFailed, Acking(ph.msg)) == WriteRunFailed(s, p);
  }

  lemma AttemptFailedKeeps(s: State, p: ProcId)
    requires Inv(s) && AtStage(s, p, FailAttempt)
    ensures Inv(WriteAttemptFailed(s, p))
  {
    var ph := s.procs[p];
    assert PhaseOk(s, p, ph);
    var row := s.jobs[ph.run].row;
    var next := if ph.row.retryIndex >= MAX_RETRIES then Acking(ph.msg) else ph.(stage := SpawnChild);
    WorkerWriteKeeps(s, p, row, AttemptFailed, next);
    assert WorkerWritten(s, p, row, AttemptFailed, next) == WriteAttemptFailed(s, p);
  }

  // ---------------------------------------------------------------------------------------------------------
  // Steps that only move a process, or a process and one stream entry
  // ---------------------------------------------------------------------------------------------------------

  /** Process p moves to next while the stream becomes entries. */
  function Hopped(s: State, p: ProcId, entries: map<MsgId, Message>, next: Phase): State {
    s.(stream := entries, procs := s.procs[p := next])
  }

  predicate HopOk(s: State, p: ProcId, entries: map<MsgId, Message>, next: Phase) {
    && (p in s.procs && s.procs[p] == Crashed ==> next == Crashed)
    && entries.Keys == s.stream.Keys
    && forall m {:trigger entries[m]} :: m in s.stream ==>
         var was, now := s.stream[m], entries[m];
         && now.run == was.run
         && (now.place == Available ==> was.place == Available)
         && (was.place == Acked || was.place == Deleted ==> now.place == Acked || now.place == Deleted)
         && (Unacked(s, m) && (now.place == Acked || now.place == Deleted) ==> p in s.procs && s.procs[p] == Acking(m))
  }

  lemma HopMoved(s: State, p: ProcId, entries: map<MsgId, Message>, next: Phase)
    requires HopOk(s, p, entries, next)
    ensures Moved(s, Hopped(s, p, entries, next), p)
  {
  }

  lemma HopOther(s: State, p: ProcId, entries: map<MsgId, Message>, next: Phase, q: ProcId)
    requires ProcsOk(s) && HopOk(s, p, entries, next) && q in s.procs && q != p
    ensures var s' := Hopped(s, p, entries, next); PhaseOk(s', q, s'.procs[q])
  {
    var s' := Hopped(s, p, entries, next);
    HopMoved(s, p, entries, next);
    assert PhaseOk(s, q, s.procs[q]);
    if p in s.procs {
      assert PairOk(s, p, q);
      if s.procs[p].Acking? && Holds(s.procs[q], s.procs[p].msg) {
        assert MayShare(s, s.procs[p].msg, s.procs[p], s.procs[q]);
      }
    }
    PhaseFrame(s, s', q);
  }

  /** The run whose delivery p starts to acknowledge is finished, or another entry backs it. */
  ghost predicate MayAck(s: State, s': State, p: ProcId)
    requires p in s'.procs
  {
    s'.procs[p].Acking? && !(p in s.procs && s.procs[p] == s'.procs[p]) ==>
      && s'.procs[p].msg in s.stream
      && var r := s.stream[s'.procs[p].msg].run;
         Settled(s, r) || Backed(s', r)
  }

  lemma HopKeeps(s: State, p: ProcId, entries: map<MsgId, Message>, next: Phase)
    requires Inv(s) && HopOk(s, p, entries, next)
    requires var s' := Hopped(s, p, entries, next);
             Apart(s, s', p) && MayAck(s, s', p) && PhaseOk(s', p, s'.procs[p])
    ensures Inv(Hopped(s, p, entries, next))
  {
    var s' := Hopped(s, p, entries, next);
    HopMoved(s, p, entries, next);
    forall q | q in s'.procs ensures PhaseOk(s', q, s'.procs[q]) {
      if q != p {
        HopOther(s, p, entries, next, q);
      }
    }
    MoveProcs(s, s', p);
    HopJobs(s, p, entries, next);
    HopScheduler(s, s');
  }

  lemma HopJobs(s: State, p: ProcId, entries: map<MsgId, Message>, next: Phase)
    requires JobsOk(s) && ProcsOk(s) && HopOk(s, p, entries, next)
    requires MayAck(s, Hopped(s, p, entries, next), p)
    ensures JobsOk(Hopped(s, p, entries, next))
  {
    var s' := Hopped(s, p, entries, next);
    HopMoved(s, p, entries, next);
    LineageFrame(s, s');
    forall r | r in s.jobs && !Settled(s, r) && Backed(s, r) ensures Backed(s', r) {
      if !(s'.procs[p].Acking? && s'.procs[p].msg in s.stream && s.stream[s'.procs[p].msg].run == r
           && !(p in s.procs && s.procs[p] == s'.procs[p])) {
        BackedFrame(s, s', r);
      }
    }
    MoveJobs(s, s', p);
  }

  lemma HopScheduler(s: State, s': State)
    requires SchedulerOk(s) && s'.jobs == s.jobs && s'.sched == s.sched && Evolves(s, s')
    ensures SchedulerOk(s')
  {
    if s.sched.at.Confirming? {
      NamedStays(s, s', s.sched.at.run);
    }
  }

  lemma DeliverKeeps(s: State, p: ProcId, m: MsgId)
    requires Inv(s) && CanDeliver(s, p, m)
    ensures Inv(Deliver(s, p, m))
  {
    var s' := Deliver(s, p, m);
    var r := s.stream[m].run;
    forall q | q in s.procs ensures !Holds(s.procs[q], m) {
      assert PhaseOk(s, q, s.procs[q]);
    }
    if !Settled(s, r) {
      assert AttemptsOk(s, r);
    }
    HopKeeps(s, p, s'.stream, Received(m));
  }

  lemma JoinKeeps(s: State, p: ProcId)
    requires Inv(s) && p !in s.procs
    ensures Inv(Go(s, p, Idle))
  {
    HopKeeps(s, p, s.stream, Idle);
    assert Hopped(s, p, s.stream, Idle) == Go(s, p, Idle);
  }

  lemma CrashKeeps(s: State, p: ProcId)
    requires Inv(s) && p in s.procs
    ensures Inv(Go(s, p, Crashed))
  {
    HopKeeps(s, p, s.stream, Crashed);
    assert Hopped(s, p, s.stream, Crashed) == Go(s, p, Crashed);
  }

  lemma ReclaimKeeps(s: State, p: ProcId, m: MsgId)
    requires Inv(s) && CanReclaim(s, p, m)
    ensures Inv(Reclaim(s, p, m))
  {
    HopKeeps(s, p, s.stream, Inspecting(m));
    assert Hopped(s, p, s.stream, Inspecting(m)) == Reclaim(s, p, m);
  }

  lemma ResumeKeeps(s: State, p: ProcId)
    requires Inv(s) && CanResume(s, p)
    ensures Inv(Resume(s, p))
  {
    assert PhaseOk(s, p, s.procs[p]);
    var m := s.procs[p].msg;
    var s' := Resume(s, p);
    HopMoved(s, p, s.stream, Received(m));
    assert Hopped(s, p, s.stream, Received(m)) == s';
    forall q | q in s.procs && q != p && Holds(s.procs[q], m) ensures MayShare(s', m, s'.procs[p], s.procs[q]) {
      StillShares(s, s', p, q, m);
    }
    HopKeeps(s, p, s.stream, Received(m));
  }

  lemma AckKeeps(s: State, p: ProcId)
    requires Inv(s) && CanAck(s, p)
    ensures Inv(Ack(s, p))
  {
    assert PhaseOk(s, p, s.procs[p]);
    var s' := Ack(s, p);
    HopKeeps(s, p, s'.stream, s'.procs[p]);
    assert Hopped(s, p, s'.stream, s'.procs[p]) == s';
  }

  lemma DeleteKeeps(s: State, p: ProcId)
    requires Inv(s) && CanDelete(s, p)
    ensures Inv(Delete(s, p))
  {
    assert PhaseOk(s, p, s.procs[p]);
    var s' := Delete(s, p);
    HopKeeps(s, p, s'.stream, Idle);
    assert Hopped(s, p, s'.stream, Idle) == s';
  }

  /** A recovery that is not deferred keeps the invariant exactly when the hand-over is safe. */
  lemma InspectKeeps(s: State, p: ProcId, verdicts: seq<bool>)
    requires Inv(s) && CanInspect(s, p, verdicts) && InspectSafe(s, p, verdicts)
    ensures Inv(Inspect(s, p, verdicts))
  {
    assert PhaseOk(s, p, s.procs[p]);
    var s' := Inspect(s, p, verdicts);
    var m := s.procs[p].msg;
    var r := s.stream[m].run;
    if r in s.jobs {
      assert AttemptsOk(s, r);
      var ks := UnfinishedOf(s.jobs[r].attempts);
      if verdicts == [] { assert ks == []; } else { assert verdicts[0] in verdicts; }
    }
    forall q | q in s.procs && q != p && Holds(s'.procs[p], m) && Holds(s.procs[q], m)
      ensures MayShare(s', m, s'.procs[p], s.procs[q])
    {
      InspectShares(s, p, verdicts, q);
    }
    HopKeeps(s, p, s.stream, s'.procs[p]);
    assert Hopped(s, p, s.stream, s'.procs[p]) == s';
  }

  /** A delivery is shared only with a worker that has finished every attempt, so there is nothing to abandon. */
  lemma InspectShares(s: State, p: ProcId, verdicts: seq<bool>, q: ProcId)
    requires ProcsOk(s) && CanInspect(s, p, verdicts) && InspectSafe(s, p, verdicts) && q in s.procs && q != p
    requires var m := s.procs[p].msg; Holds(Inspect(s, p, verdicts).procs[p], m) && Holds(s.procs[q], m)
    ensures var s' := Inspect(s, p, verdicts); MayShare(s', s.procs[p].msg, s'.procs[p], s.procs[q])
  {
    assert PhaseOk(s, q, s.procs[q]);
    var r := s.stream[s.procs[p].msg].run;
    if !Settled(s, r) {
      NothingUnfinished(s.jobs[r].attempts);
    }
  }

  lemma {:induction false} NothingUnfinished(attempts: seq<Attempt>)
    ensures NoneUnfinished(attempts) ==> UnfinishedOf(attempts) == []
  {
    if attempts != [] {
      NothingUnfinished(attempts[..|attempts| - 1]);
    }
  }

  /** While a worker has only the run left to finish, a delivery of that run would claim it. */
  lemma NotSettling(s: State, r: RunId, q: ProcId)
    requires ProcsOk(s) && q in s.procs && !Claims(s, r)
    ensures !Settling(s.procs[q], r)
  {
    assert PhaseOk(s, q, s.procs[q]);
  }

  // ---------------------------------------------------------------------------------------------------------
  // Claim, abandon, spawn
  // ---------------------------------------------------------------------------------------------------------

  /** A duplicate is acknowledged only when the entry behind the unfinished attempt remains. */
  lemma DuplicateKeeps(s: State, p: ProcId)
    requires Inv(s) && CanClaim(s, p) && !Claims(s, s.stream[s.procs[p].msg].run)
    ensures Inv(Claim(s, p))
  {
    var m := s.procs[p].msg;
    var r := s.stream[m].run;
    var s' := Claim(s, p);
    assert PhaseOk(s, p, s.procs[p]);
    if !Settled(s, r) {
      assert AttemptsOk(s, r);
      var k :| 0 <= k < |s.jobs[r].attempts| && Unfinished(s.jobs[r].attempts[k]);
      var other := s.jobs[r].attempts[k].delivery;
      assert Unacked(s, other) && other != m;
      forall q | q in s'.procs ensures s'.procs[q] != Acking(other) {
        if q != p { assert PhaseOk(s, q, s.procs[q]); }
      }
      assert Backing(s', r, other);
    }
    assert Hopped(s, p, s.stream, Acking(m)) == s';
    HopMoved(s, p, s.stream, Acking(m));
    forall q | q in s.procs ensures !Settling(s.procs[q], r) {
      NotSettling(s, r, q);
    }
    forall q | q in s.procs && q != p && Holds(s.procs[q], m) ensures MayShare(s', m, s'.procs[p], s.procs[q]) {
      StillShares(s, s', p, q, m);
    }
    HopKeeps(s, p, s.stream, Acking(m));
  }

  lemma ClaimMoves(s: State, p: ProcId)
    requires CanClaim(s, p) && Claims(s, s.stream[s.procs[p].msg].run)
    ensures Moved(s, Claim(s, p), p)
  {
    var r := s.stream[s.procs[p].msg].run;
    assert JobEvolves(s.jobs[r], Claim(s, p).jobs[r]);
  }

  lemma ClaimAttempts(s: State, p: ProcId)
    requires ProcsOk(s) && CanClaim(s, p) && Claims(s, s.stream[s.procs[p].msg].run) && AttemptsOk(s, s.stream[s.procs[p].msg].run)
    ensures var s' := Claim(s, p); var r := s.stream[s.procs[p].msg].run; r in s'.jobs && AttemptsOk(s', r)
  {
    assert PhaseOk(s, p, s.procs[p]);
  }

  lemma ClaimRow(s: State, p: ProcId)
    requires CanClaim(s, p) && Claims(s, s.stream[s.procs[p].msg].run) && RowOk(s, s.stream[s.procs[p].msg].run)
    requires Moved(s, Claim(s, p), p)
    ensures var s' := Claim(s, p); var r := s.stream[s.procs[p].msg].run; r in s'.jobs && RowOk(s', r)
  {
    var s' := Claim(s, p);
    var m := s.procs[p].msg;
    var r := s.stream[m].run;
    assert Named(s, r);
    assert Named(s', r) by { assert m in s'.stream; }
    BackedFrame(s, s', r);
  }

  lemma ClaimJob(s: State, p: ProcId)
    requires JobsOk(s) && ProcsOk(s) && CanClaim(s, p) && Claims(s, s.stream[s.procs[p].msg].run)
    ensures var s' := Claim(s, p); var r := s.stream[s.procs[p].msg].run;
            Moved(s, s', p) && AttemptsOk(s', r) && RowOk(s', r)
  {
    var r := s.stream[s.procs[p].msg].run;
    assert AttemptsOk(s, r) && RowOk(s, r);
    ClaimMoves(s, p);
    ClaimAttempts(s, p);
    ClaimRow(s, p);
  }

  lemma ClaimAlone(s: State, p: ProcId, q: ProcId)
    requires ProcsOk(s) && CanClaim(s, p) && ClaimSafe(s, p) && Claims(s, s.stream[s.procs[p].msg].run)
    requires q in s.procs
    ensures !(s.procs[q].Working? && s.procs[q].run == s.stream[s.procs[p].msg].run)
  {
    assert PhaseOk(s, q, s.procs[q]);
  }

  lemma ClaimOther(s: State, p: ProcId, q: ProcId)
    requires ProcsOk(s) && CanClaim(s, p) && ClaimSafe(s, p) && Claims(s, s.stream[s.procs[p].msg].run)
    requires Moved(s, Claim(s, p), p) && q in s.procs && q != p
    requires forall r: RunId :: HasChild(Claim(s, p), r) <==> HasChild(s, r)
    ensures var s' := Claim(s, p); PhaseOk(s', q, s'.procs[q])
  {
    ClaimAlone(s, p, q);
    assert PhaseOk(s, p, s.procs[p]) && PhaseOk(s, q, s.procs[q]) && PairOk(s, p, q);
    assert Holds(s.procs[q], s.procs[p].msg) ==> MayShare(s, s.procs[p].msg, s.procs[p], s.procs[q]);
    PhaseFrame(s, Claim(s, p), q);
  }

  lemma ClaimSelf(s: State, p: ProcId)
    requires JobsOk(s) && ProcsOk(s) && CanClaim(s, p) && Claims(s, s.stream[s.procs[p].msg].run)
    ensures var s' := Claim(s, p); PhaseOk(s', p, s'.procs[p])
  {
    var r := s.stream[s.procs[p].msg].run;
    assert PhaseOk(s, p, s.procs[p]) && RowOk(s, r);
    assert Named(s, r);
  }

  lemma ClaimProcs(s: State, p: ProcId)
    requires JobsOk(s) && ProcsOk(s) && CanClaim(s, p) && ClaimSafe(s, p) && Claims(s, s.stream[s.procs[p].msg].run)
    requires Moved(s, Claim(s, p), p)
    requires forall r: RunId :: HasChild(Claim(s, p), r) <==> HasChild(s, r)
    ensures ProcsOk(Claim(s, p))
  {
    var s' := Claim(s, p);
    ClaimSelf(s, p);
    forall q | q in s.procs && q != p ensures PhaseOk(s', q, s'.procs[q]) {
      ClaimOther(s, p, q);
    }
    forall q | q in s.procs ensures !(s.procs[q].Working? && s.procs[q].run == s'.procs[p].run) {
      ClaimAlone(s, p, q);
    }
    var m := s.procs[p].msg;
    forall q | q in s.procs && q != p && Holds(s.procs[q], m) ensures MayShare(s', m, s'.procs[p], s.procs[q]) {
      ClaimAlone(s, p, q);
      StillShares(s, s', p, q, m);
    }
    MoveProcs(s, s', p);
  }

  lemma ClaimKeeps(s: State, p: ProcId)
    requires Inv(s) && CanClaim(s, p) && ClaimSafe(s, p)
    ensures Inv(Claim(s, p))
  {
    var r := s.stream[s.procs[p].msg].run;
    if !Claims(s, r) {
      DuplicateKeeps(s, p);
    } else {
      NewClaimKeeps(s, p);
    }
  }

  lemma NewClaimKeeps(s: State, p: ProcId)
    requires Inv(s) && CanClaim(s, p) && ClaimSafe(s, p) && Claims(s, s.stream[s.procs[p].msg].run)
    ensures Inv(Claim(s, p))
  {
    var s' := Claim(s, p);
    ClaimJob(s, p);
    LineageFrame(s, s');
    ClaimProcs(s, p);
    ClaimJobs(s, p);
    RowsScheduler(s, s');
  }

  lemma ClaimJobs(s: State, p: ProcId)
    requires JobsOk(s) && ProcsOk(s) && CanClaim(s, p) && Claims(s, s.stream[s.procs[p].msg].run)
    ensures JobsOk(Claim(s, p))
  {
    var s' := Claim(s, p);
    ClaimJob(s, p);
    LineageFrame(s, s');
    MovedBacked(s, s', p);
    MoveJobs(s, s', p);
  }

  /** The scheduler's view survives when the runs it is looking at keep their rows. */
  lemma RowsScheduler(s: State, s': State)
    requires SchedulerOk(s) && s'.sched == s.sched && Evolves(s, s')
    requires forall r {:trigger s'.jobs[r]} :: r in s.jobs && r in s'.jobs ==> s'.jobs[r].row == s.jobs[r].row
    ensures SchedulerOk(s')
  {
    if s.sched.at.Confirming? {
      NamedStays(s, s', s.sched.at.run);
    }
  }

  lemma AbandonMoved(s: State, p: ProcId, k: nat)
    requires ProcsOk(s) && CanAbandon(s, p, k)
    ensures Moved(s, Abandon(s, p, k), p)
  {
    assert PhaseOk(s, p, s.procs[p]);
    var r := s.stream[s.procs[p].msg].run;
    assert JobEvolves(s.jobs[r], Abandon(s, p, k).jobs[r]);
  }

  lemma AbandonAttempts(s: State, p: ProcId, k: nat)
    requires JobsOk(s) && CanAbandon(s, p, k)
    ensures AttemptsOk(Abandon(s, p, k), s.stream[s.procs[p].msg].run)
  {
    assert AttemptsOk(s, s.stream[s.procs[p].msg].run);
  }

  lemma AbandonRow(s: State, p: ProcId, k: nat)
    requires JobsOk(s) && ProcsOk(s) && CanAbandon(s, p, k) && Moved(s, Abandon(s, p, k), p)
    ensures RowOk(Abandon(s, p, k), s.stream[s.procs[p].msg].run)
  {
    var s' := Abandon(s, p, k);
    var m := s.procs[p].msg;
    var r := s.stream[m].run;
    assert PhaseOk(s, p, s.procs[p]) && RowOk(s, r);
    assert Named(s, r);
    assert Named(s', r) by { assert m in s'.stream; }
    if s.jobs[r].row.status == Completed {
      var i :| 0 <= i < |s.jobs[r].attempts| && s.jobs[r].attempts[i].status == Succeeded;
      assert s'.jobs[r].attempts[i].status == Succeeded;
    }
    if !Settled(s, r) {
      BackedFrame(s, s', r);
    }
  }

  lemma AbandonOther(s: State, p: ProcId, k: nat, q: ProcId)
    requires ProcsOk(s) && CanAbandon(s, p, k) && Moved(s, Abandon(s, p, k), p) && q in s.procs && q != p
    requires forall r: RunId :: HasChild(Abandon(s, p, k), r) <==> HasChild(s, r)
    ensures var s' := Abandon(s, p, k); PhaseOk(s', q, s'.procs[q])
  {
    assert PhaseOk(s, p, s.procs[p]) && PhaseOk(s, q, s.procs[q]);
    PhaseFrame(s, Abandon(s, p, k), q);
  }

  lemma AbandonProcs(s: State, p: ProcId, k: nat)
    requires JobsOk(s) && ProcsOk(s) && CanAbandon(s, p, k) && Moved(s, Abandon(s, p, k), p)
    requires forall r: RunId :: HasChild(Abandon(s, p, k), r) <==> HasChild(s, r)
    ensures ProcsOk(Abandon(s, p, k))
  {
    var s' := Abandon(s, p, k);
    assert PhaseOk(s, p, s.procs[p]);
    forall q | q in s'.procs ensures PhaseOk(s', q, s'.procs[q]) {
      if q != p {
        AbandonOther(s, p, k, q);
      }
    }
    var m := s.procs[p].msg;
    forall q | q in s.procs && q != p && Holds(s.procs[q], m) ensures MayShare(s', m, s'.procs[p], s.procs[q]) {
      StillShares(s, s', p, q, m);
    }
    MoveProcs(s, s', p);
  }

  lemma AbandonKeeps(s: State, p: ProcId, k: nat)
    requires Inv(s) && CanAbandon(s, p, k)
    ensures Inv(Abandon(s, p, k))
  {
    var s' := Abandon(s, p, k);
    AbandonMoved(s, p, k);
    AbandonAttempts(s, p, k);
    AbandonRow(s, p, k);
    LineageFrame(s, s');
    AbandonProcs(s, p, k);
    MovedBacked(s, s', p);
    MoveJobs(s, s', p);
    RowsScheduler(s, s');
  }

  lemma MovedBacked(s: State, s': State, p: ProcId)
    requires Moved(s, s', p)
    requires s'.procs[p].Acking? ==>
               || (p in s.procs && s.procs[p] == s'.procs[p])
               || (s'.procs[p].msg in s.stream && Settled(s, s.stream[s'.procs[p].msg].run))
    ensures forall r :: r in s.jobs && !Settled(s, r) && Backed(s, r) ==> Backed(s', r)
  {
    forall r | r in s.jobs && !Settled(s, r) && Backed(s, r) ensures Backed(s', r) {
      BackedFrame(s, s', r);
    }
  }

  /** A new Pending run, with a parent that has failed and has no other child, or with none. */
  ghost predicate NewRunOk(s: State, child: RunId, row: Run) {
    && FreshRun(s, child) && row.status == Pending && !row.published && row.retryIndex <= MAX_RETRIES
    && match row.parent
       case None => row.retryIndex == 0 && row.chain == child
       case Some(r) =>
         && r in s.jobs && s.jobs[r].row.status == Failed && !HasChild(s, r)
         && s.jobs[r].row.chain == row.chain && s.jobs[r].row.retryIndex + 1 == row.retryIndex
  }

  lemma NewRunLineage(s: State, s': State, child: RunId, row: Run)
    requires JobsOk(s) && NewRunOk(s, child, row) && s'.jobs == s.jobs[child := Job(row, [])]
    ensures forall r :: r in s'.jobs ==> LineageOk(s', r)
    ensures forall a, b :: a in s'.jobs && b in s'.jobs ==> NotSiblings(s', a, b)
    ensures forall r: RunId :: row.parent != Some(r) && HasChild(s', r) ==> HasChild(s, r)
  {
    forall r | r in s'.jobs ensures LineageOk(s', r) {
      if r != child { assert LineageOk(s, r); }
    }
    forall a, b | a in s'.jobs && b in s'.jobs ensures NotSiblings(s', a, b) {
      if a != child && b != child { assert NotSiblings(s, a, b); }
    }
  }

  lemma SpawnProcs(s: State, p: ProcId, child: RunId)
    requires JobsOk(s) && ProcsOk(s) && CanSpawn(s, p, child) && Moved(s, Spawn(s, p, child), p)
    requires forall r: RunId :: r != s.procs[p].run && HasChild(Spawn(s, p, child), r) ==> HasChild(s, r)
    ensures ProcsOk(Spawn(s, p, child))
  {
    var s' := Spawn(s, p, child);
    assert PhaseOk(s, p, s.procs[p]);
    forall q | q in s'.procs ensures PhaseOk(s', q, s'.procs[q]) {
      if q != p {
        assert PhaseOk(s, q, s.procs[q]) && PairOk(s, p, q);
        PhaseFrame(s, s', q);
      }
    }
    var m := s.procs[p].msg;
    forall q | q in s.procs && q != p && Holds(s.procs[q], m) ensures MayShare(s', m, s'.procs[p], s.procs[q]) {
      StillShares(s, s', p, q, m);
    }
    MoveProcs(s, s', p);
  }

  lemma SpawnMoves(s: State, p: ProcId, child: RunId)
    requires Inv(s) && CanSpawn(s, p, child)
    ensures var s' := Spawn(s, p, child);
            && Moved(s, s', p) && !Named(s', child) && NewRunOk(s, child, s'.jobs[child].row)
            && s'.jobs[child].row.parent == Some(s.procs[p].run)
            && s.procs[p].msg in s.stream && Settled(s, s.stream[s.procs[p].msg].run)
  {
    assert PhaseOk(s, p, s.procs[p]);
    assert Spawn(s, p, child).stream == s.stream;
  }

  lemma SpawnKeeps(s: State, p: ProcId, child: RunId)
    requires Inv(s) && CanSpawn(s, p, child)
    ensures Inv(Spawn(s, p, child))
  {
    var s' := Spawn(s, p, child);
    SpawnMoves(s, p, child);
    NewRunLineage(s, s', child, s'.jobs[child].row);
    SpawnProcs(s, p, child);
    MovedBacked(s, s', p);
    MoveJobs(s, s', p);
    RowsScheduler(s, s');
  }

  // ---------------------------------------------------------------------------------------------------------
  // Steps of the API, the scheduler and the transport: no process moves
  // ---------------------------------------------------------------------------------------------------------

  ghost predicate Still(s: State, s': State) {
    && Evolves(s, s') && s'.procs == s.procs
    && forall m {:trigger s'.stream[m]} :: m in s.stream ==> s'.stream[m] == s.stream[m]
  }

  lemma StillBacked(s: State, s': State, r: RunId)
    requires Still(s, s') && Backed(s, r)
    ensures Backed(s', r)
  {
    BackedFrame(s, s', r);
  }

  lemma StillJobs(s: State, s': State)
    requires JobsOk(s) && Still(s, s')
    requires forall r {:trigger r in s'.jobs} :: r in s'.jobs ==>
               || (r in s.jobs && s'.jobs[r] == s.jobs[r] && (Named(s', r) ==> Named(s, r)))
               || (AttemptsOk(s', r) && RowOk(s', r))
    requires forall r {:trigger LineageOk(s', r)} :: r in s'.jobs ==> LineageOk(s', r)
    requires forall a, b {:trigger NotSiblings(s', a, b)} :: a in s'.jobs && b in s'.jobs ==> NotSiblings(s', a, b)
    ensures JobsOk(s')
  {
    forall r | r in s'.jobs ensures AttemptsOk(s', r) && RowOk(s', r) {
      if r in s.jobs && s'.jobs[r] == s.jobs[r] && (Named(s', r) ==> Named(s, r)) {
        assert AttemptsOk(s, r) && RowOk(s, r);
        AttemptsFrame(s, s', r);
        if Backed(s, r) { StillBacked(s, s', r); }
        RowFrame(s, s', r);
      }
    }
  }

  lemma StillProcs(s: State, s': State)
    requires ProcsOk(s) && Still(s, s')
    requires forall r {:trigger s'.jobs[r]} :: r in s.jobs ==> s'.jobs[r].attempts == s.jobs[r].attempts
    requires forall q {:trigger s.procs[q]} :: q in s.procs && s.procs[q].Working? && s.procs[q].run in s.jobs ==>
               var r := s.procs[q].run;
               && s'.jobs[r].row == s.jobs[r].row.(published := s'.jobs[r].row.published)
               && (HasChild(s', r) ==> HasChild(s, r))
    ensures ProcsOk(s')
  {
    forall q | q in s'.procs ensures PhaseOk(s', q, s'.procs[q]) {
      StillPhase(s, s', q);
    }
    forall a, b | a in s'.procs && b in s'.procs ensures PairOk(s', a, b) {
      StillPair(s, s', a, b);
    }
  }

  lemma StillPhase(s: State, s': State, q: ProcId)
    requires ProcsOk(s) && Still(s, s') && q in s.procs
    requires forall r {:trigger s'.jobs[r]} :: r in s.jobs ==> s'.jobs[r].attempts == s.jobs[r].attempts
    requires s.procs[q].Working? && s.procs[q].run in s.jobs ==>
               var r := s.procs[q].run;
               && s'.jobs[r].row == s.jobs[r].row.(published := s'.jobs[r].row.published)
               && (HasChild(s', r) ==> HasChild(s, r))
    ensures PhaseOk(s', q, s'.procs[q])
  {
    assert PhaseOk(s, q, s.procs[q]);
    PhaseFrame(s, s', q);
  }

  lemma StillPair(s: State, s': State, a: ProcId, b: ProcId)
    requires ProcsOk(s) && Still(s, s') && a in s.procs && b in s.procs
    ensures PairOk(s', a, b)
  {
    assert PairOk(s, a, b);
    if a != b {
      forall m | Holds(s.procs[a], m) && Holds(s.procs[b], m) ensures MayShare(s', m, s'.procs[a], s'.procs[b]) {
        ShareStays(s, s', m, s.procs[a], s.procs[b]);
      }
    }
  }

  /** Only the scheduler's own variables change. */
  lemma LocalKeeps(s: State, sched: Scheduler)
    requires Inv(s) && SchedulerOk(s.(sched := sched))
    ensures Inv(s.(sched := sched))
  {
    var s' := s.(sched := sched);
    assert forall r: RunId :: Named(s', r) <==> Named(s, r);
    LineageFrame(s, s');
    StillJobs(s, s');
    StillProcs(s, s');
  }

  lemma ReadDueKeeps(s: State, batch: set<RunId>)
    requires Inv(s) && CanReadDue(s, batch)
    ensures Inv(ReadDue(s, batch))
  {
    LocalKeeps(s, ReadDue(s, batch).sched);
  }

  lemma ReadStrandedKeeps(s: State, batch: set<RunId>)
    requires Inv(s) && CanReadStranded(s, batch)
    ensures Inv(ReadStranded(s, batch))
  {
    LocalKeeps(s, ReadStranded(s, batch).sched);
  }

  lemma TakeStrandedKeeps(s: State, r: RunId)
    requires Inv(s) && CanTakeStranded(s, r)
    ensures Inv(TakeStranded(s, r))
  {
    LocalKeeps(s, TakeStranded(s, r).sched);
  }

  lemma CreateKeeps(s: State, r: RunId)
    requires Inv(s) && FreshRun(s, r)
    ensures Inv(CreateRun(s, r))
  {
    var s' := CreateRun(s, r);
    assert forall x: RunId :: Named(s', x) <==> Named(s, x);
    assert Still(s, s');
    NewRunLineage(s, s', r, s'.jobs[r].row);
    StillJobs(s, s');
    StillProcs(s, s');
    RowsScheduler(s, s');
  }

  /** The row of r is rewritten; its attempts and its lineage are not. */
  ghost predicate RowWriteOk(s: State, r: RunId, row: Run) {
    && r in s.jobs
    && var was := s.jobs[r].row;
       && row == was.(status := row.status, published := row.published)
       && (row.status == was.status || (was.status == Pending && row.status == Queued))
       && (row.status == Queued && row.published ==> Named(s, r))
       && (row.status == Pending ==> !row.published)
  }

  lemma RowWriteStill(s: State, r: RunId, row: Run, sched: Scheduler)
    requires RowWriteOk(s, r, row)
    ensures var s' := SaveRow(s, r, row).(sched := sched);
            Still(s, s') && forall x: RunId :: Named(s', x) <==> Named(s, x)
  {
    var s' := SaveRow(s, r, row).(sched := sched);
    assert JobEvolves(s.jobs[r], s'.jobs[r]);
  }

  lemma RowWriteJob(s: State, r: RunId, row: Run, sched: Scheduler)
    requires RowWriteOk(s, r, row) && AttemptsOk(s, r) && RowOk(s, r)
    ensures var s' := SaveRow(s, r, row).(sched := sched); AttemptsOk(s', r) && RowOk(s', r)
  {
    var s' := SaveRow(s, r, row).(sched := sched);
    RowWriteStill(s, r, row, sched);
    if Backed(s, r) { StillBacked(s, s', r); }
  }

  lemma RowWriteJobs(s: State, r: RunId, row: Run, sched: Scheduler)
    requires JobsOk(s) && RowWriteOk(s, r, row)
    ensures var s' := SaveRow(s, r, row).(sched := sched);
            JobsOk(s') && Still(s, s') && forall x: RunId :: HasChild(s', x) <==> HasChild(s, x)
  {
    var s' := SaveRow(s, r, row).(sched := sched);
    assert AttemptsOk(s, r) && RowOk(s, r);
    RowWriteStill(s, r, row, sched);
    LineageFrame(s, s');
    RowWriteJob(s, r, row, sched);
    StillJobs(s, s');
  }

  lemma RowWriteKeeps(s: State, r: RunId, row: Run, sched: Scheduler)
    requires Inv(s) && RowWriteOk(s, r, row)
    requires SchedulerOk(SaveRow(s, r, row).(sched := sched))
    ensures Inv(SaveRow(s, r, row).(sched := sched))
  {
    var s' := SaveRow(s, r, row).(sched := sched);
    RowWriteJobs(s, r, row, sched);
    forall q | q in s.procs && s.procs[q].Working? && s.procs[q].run == r ensures s.jobs[r].row.status != Pending {
      assert PhaseOk(s, q, s.procs[q]);
    }
    StillProcs(s, s');
  }

  lemma QueueKeeps(s: State, r: RunId)
    requires Inv(s) && CanQueue(s, r)
    ensures Inv(Queue(s, r))
  {
    var s' := Queue(s, r);
    assert RowOk(s, r);
    RowWriteKeeps(s, r, s'.jobs[r].row, s'.sched);
    assert s' == SaveRow(s, r, s'.jobs[r].row).(sched := s'.sched);
  }

  lemma ConfirmKeeps(s: State)
    requires Inv(s) && CanConfirm(s)
    ensures Inv(Confirm(s))
  {
    var r := s.sched.at.run;
    var s' := Confirm(s);
    assert RowOk(s, r);
    RowWriteKeeps(s, r, s'.jobs[r].row, s'.sched);
    assert s' == SaveRow(s, r, s'.jobs[r].row).(sched := s'.sched);
  }

  /** A new entry, for a run that is no longer Pending or does not exist. */
  lemma EntryKeeps(s: State, m: MsgId, r: RunId, sched: Scheduler)
    requires Inv(s) && m !in s.stream && (r in s.jobs ==> s.jobs[r].row.status != Pending)
    requires SchedulerOk(Inject(s, m, r).(sched := sched))
    ensures Inv(Inject(s, m, r).(sched := sched))
  {
    var s' := Inject(s, m, r).(sched := sched);
    assert Still(s, s');
    LineageFrame(s, s');
    forall x: RunId | x != r && Named(s', x) ensures Named(s, x) {
      var n :| n in s'.stream && s'.stream[n].run == x;
      assert n in s.stream;
    }
    if r in s.jobs {
      assert AttemptsOk(s, r) && RowOk(s, r);
      assert Named(s', r) by { assert m in s'.stream; }
      assert Backing(s', r, m) by {
        forall p | p in s.procs ensures s.procs[p] != Acking(m) { assert PhaseOk(s, p, s.procs[p]); }
      }
      AttemptsFrame(s, s', r);
      assert RowOk(s', r);
    }
    StillJobs(s, s');
    StillProcs(s, s');
  }

  lemma PublishKeeps(s: State, m: MsgId)
    requires Inv(s) && CanPublish(s, m)
    ensures Inv(Publish(s, m))
  {
    var r := s.sched.at.run;
    var s' := Publish(s, m);
    assert Named(s', r) by { assert m in s'.stream; }
    EntryKeeps(s, m, r, s'.sched);
  }

  lemma InjectKeeps(s: State, m: MsgId, r: RunId)
    requires Inv(s) && CanInject(s, m, r)
    ensures Inv(Inject(s, m, r))
  {
    var s' := Inject(s, m, r);
    if r in s.jobs { assert RowOk(s, r); }
    if s.sched.at.Confirming? { NamedStays(s, s', s.sched.at.run); }
    EntryKeeps(s, m, r, s.sched);
    assert s' == s'.(sched := s.sched);
  }
}
