/** The inductive invariant of the delivery protocol, and why every step keeps it. */
module DeliveryInvariant {
  import opened Options
  import opened AttemptOwnership
  import opened Delivery

  // ---------------------------------------------------------------------------------------------------------
  // The invariant
  // ---------------------------------------------------------------------------------------------------------

  /** An unacknowledged entry for r that no process is about to acknowledge. */
  ghost predicate Backing(s: State, r: RunId, m: MsgId) {
    && Unacked(s, m) && s.stream[m].run == r
    && forall p :: p in s.procs ==> s.procs[p] != Acking(m)
  }

  ghost predicate Backed(s: State, r: RunId) {
    exists m :: Backing(s, r, m)
  }

  predicate LoneUnfinished(attempts: seq<Attempt>) {
    forall i, j :: 0 <= i < j < |attempts| ==> !Unfinished(attempts[i]) || !Unfinished(attempts[j])
  }

  ghost predicate AttemptsOk(s: State, r: RunId)
    requires r in s.jobs
  {
    var attempts := s.jobs[r].attempts;
    && LoneUnfinished(attempts)
    && forall k :: 0 <= k < |attempts| ==>
         && attempts[k].number == k + 1
         && attempts[k].owner in s.procs
         && attempts[k].delivery in s.stream
         && s.stream[attempts[k].delivery].run == r
         && s.stream[attempts[k].delivery].place != Available
         && (!Settled(s, r) && Unfinished(attempts[k]) ==> Unacked(s, attempts[k].delivery))
  }

  ghost predicate RowOk(s: State, r: RunId)
    requires r in s.jobs
  {
    var Job(row, attempts) := s.jobs[r];
    && (row.status == Pending ==> attempts == [] && !row.published && !Named(s, r))
    && (row.status == Running ==> attempts != [])
    && (row.status == Queued && row.published ==> Named(s, r))
    && (row.status == Completed ==> exists k :: 0 <= k < |attempts| && attempts[k].status == Succeeded)
    && (!Settled(s, r) && Named(s, r) ==> Backed(s, r))
  }

  ghost predicate LineageOk(s: State, r: RunId)
    requires r in s.jobs
  {
    var row := s.jobs[r].row;
    && row.retryIndex <= MAX_RETRIES
    && match row.parent
       case None => row.retryIndex == 0 && row.chain == r
       case Some(p) =>
         && p in s.jobs && s.jobs[p].row.status == Failed
         && s.jobs[p].row.chain == row.chain && s.jobs[p].row.retryIndex + 1 == row.retryIndex
  }

  predicate NotSiblings(s: State, a: RunId, b: RunId)
    requires a in s.jobs && b in s.jobs
  {
    s.jobs[a].row.parent.Some? && s.jobs[a].row.parent == s.jobs[b].row.parent ==> a == b
  }

  predicate NoneUnfinished(attempts: seq<Attempt>) {
    forall k :: 0 <= k < |attempts| ==> !Unfinished(attempts[k])
  }

  /** No unfinished attempt was claimed through m. */
  predicate NoneThrough(attempts: seq<Attempt>, m: MsgId) {
    forall k :: 0 <= k < |attempts| && attempts[k].delivery == m ==> !Unfinished(attempts[k])
  }

  /** What the database says at each stage of a live worker. */
  predicate StageOk(stage: Stage, status: RunStatus, attempt: AttemptStatus) {
    match stage
    case MarkRunning => attempt == Claimed && (status == Queued || status == Running)
    case MarkStarted => attempt == Claimed && status == Running
    case Execute => attempt == Started && status == Running
    case CompleteRun => attempt == Succeeded && status == Running
    case FailRun => attempt == AttemptFailed && status == Running
    case FailAttempt => attempt == Started && status == Failed
    case SpawnChild => attempt == AttemptFailed && status == Failed
  }

  ghost predicate WorkerOk(s: State, p: ProcId, ph: Phase)
    requires ph.Working?
  {
    && ph.run in s.jobs && ph.msg in s.stream
    && ph.attempt < |s.jobs[ph.run].attempts|
    && s.stream[ph.msg].run == ph.run
    && s.jobs[ph.run].attempts[ph.attempt].owner == p
    && s.jobs[ph.run].attempts[ph.attempt].delivery == ph.msg
    && StageOk(ph.stage, s.jobs[ph.run].row.status, s.jobs[ph.run].attempts[ph.attempt].status)
    && ph.row == s.jobs[ph.run].row.(published := ph.row.published)
    && (!Settled(s, ph.run) ==> Unacked(s, ph.msg))
    && (ph.stage == FailAttempt || ph.stage == SpawnChild ==> !HasChild(s, ph.run))
    && (ph.stage == SpawnChild ==> ph.row.retryIndex < MAX_RETRIES)
    && (Settling(ph, ph.run) ==> NoneUnfinished(s.jobs[ph.run].attempts))
  }

  /** The attempts to abandon belong to processes that take no further step. */
  ghost predicate TodoOk(s: State, r: RunId, todo: set<nat>)
    requires r in s.jobs
  {
    var attempts := s.jobs[r].attempts;
    forall k :: k in todo ==>
      && k < |attempts| && Gone(s, attempts[k].owner)
      && (Unfinished(attempts[k]) || attempts[k].status == Abandoned)
  }

  predicate OnlyTodoThrough(attempts: seq<Attempt>, m: MsgId, todo: set<nat>) {
    forall k :: 0 <= k < |attempts| && attempts[k].delivery == m && Unfinished(attempts[k]) ==> k in todo
  }

  ghost predicate PhaseOk(s: State, p: ProcId, ph: Phase) {
    match ph
    case Idle => true
    case Crashed => true
    case Deleting(m) => m in s.stream && (s.stream[m].place == Acked || s.stream[m].place == Deleted)
    case Inspecting(m) => m in s.stream && s.stream[m].place != Available
    case Abandoning(m, todo) =>
      && m in s.stream && s.stream[m].place != Available
      && s.stream[m].run in s.jobs
      && TodoOk(s, s.stream[m].run, todo)
      && (!Settled(s, s.stream[m].run) ==>
            Unacked(s, m) && OnlyTodoThrough(s.jobs[s.stream[m].run].attempts, m, todo))
    case Received(m) =>
      && m in s.stream && s.stream[m].place != Available
      && (!Settled(s, s.stream[m].run) ==> Unacked(s, m) && NoneThrough(s.jobs[s.stream[m].run].attempts, m))
    case Acking(m) =>
      && m in s.stream && s.stream[m].place != Available
      && (!Settled(s, s.stream[m].run) ==> NoneThrough(s.jobs[s.stream[m].run].attempts, m))
    case Working(_, m, _, _, _) =>
      m in s.stream && s.stream[m].place != Available && WorkerOk(s, p, ph)
  }

  /** One of the two has only the run left to finish, and the other has not begun. */
  predicate Yields(a: Phase, b: Phase, r: RunId) {
    (Settling(a, r) && b.Received?) || (Settling(b, r) && a.Received?)
  }

  /** Two phases may share a delivery. */
  ghost predicate MayShare(s: State, m: MsgId, a: Phase, b: Phase) {
    m in s.stream && (Settled(s, s.stream[m].run) || Yields(a, b, s.stream[m].run))
  }

  /** Two live processes hold one delivery only once its run is finished, or while one of them finishes it and the other
      has not begun; and at most one is inside the attempt part of ProcessTask for one run. */
  ghost predicate PairOk(s: State, p: ProcId, q: ProcId)
    requires p in s.procs && q in s.procs
  {
    p != q ==>
      && (forall m :: Holds(s.procs[p], m) && Holds(s.procs[q], m) ==> MayShare(s, m, s.procs[p], s.procs[q]))
      && !(s.procs[p].Working? && s.procs[q].Working? && s.procs[p].run == s.procs[q].run)
  }

  ghost predicate SchedulerOk(s: State) {
    && (forall r :: r in s.sched.due ==> r in s.jobs && s.jobs[r].row == s.sched.due[r] && s.sched.due[r].status == Pending)
    && (forall r :: r in s.sched.stranded ==> r in s.jobs && s.jobs[r].row.status != Pending)
    && match s.sched.at
       case Between => true
       case Publishing(r) => r in s.jobs && s.jobs[r].row.status != Pending
       case Confirming(r) => r in s.jobs && Named(s, r)
  }

  // The quantifiers below are instantiated by naming the predicate they guard.

  ghost predicate JobsOk(s: State) {
    && (forall r {:trigger AttemptsOk(s, r)} :: r in s.jobs ==> AttemptsOk(s, r))
    && (forall r {:trigger RowOk(s, r)} :: r in s.jobs ==> RowOk(s, r))
    && (forall r {:trigger LineageOk(s, r)} :: r in s.jobs ==> LineageOk(s, r))
    && (forall a, b {:trigger NotSiblings(s, a, b)} :: a in s.jobs && b in s.jobs ==> NotSiblings(s, a, b))
  }

  ghost predicate ProcsOk(s: State) {
    && (forall p {:trigger PhaseOk(s, p, s.procs[p])} :: p in s.procs ==> PhaseOk(s, p, s.procs[p]))
    && (forall p, q {:trigger PairOk(s, p, q)} :: p in s.procs && q in s.procs ==> PairOk(s, p, q))
  }

  ghost predicate Inv(s: State) {
    // One value, so that a failed proof names the predicate and not each of its parts.
    var good := JobsOk(s) && ProcsOk(s) && SchedulerOk(s);
    good
  }
}
