/** The delivery, attempt and retry protocol as a transition system.

    The shared state is what Postgres and the Redis stream hold; every process (worker or reclaimer) and the
    due-task scheduler keeps the local variables it has read, which may be stale. One step is one write with the
    reads that decide it, and a process may crash between any two of its steps. For the claim prefix (row, attempts,
    new attempt) and a recovery decision (row, unfinished attempts, evidence about their owners) this supposes that
    what was read first still holds when the step ends. For the look-up of a retry child and the read-back of a
    success it supposes nothing: as long as the worker is at that stage, the answer is always the same. */
module Delivery {
  import opened Options
  import opened AttemptOwnership

  type RunId = nat
  type MsgId = nat
  type ProcId = nat

  const MAX_RETRIES: nat := 3

  datatype Run = Run(
    status: RunStatus, published: bool, chain: RunId, parent: Option<RunId>, retryIndex: nat)

  datatype AttemptStatus = Claimed | Started | Succeeded | AttemptFailed | Abandoned

  /** delivery is the stream position every event of the attempt carries. */
  datatype Attempt = Attempt(status: AttemptStatus, number: nat, owner: ProcId, delivery: MsgId)

  /** A task row with the attempt rows that carry its job id, in creation order. */
  datatype Job = Job(row: Run, attempts: seq<Attempt>)

  /** Where a stream entry is: not yet read by the group, in the pending list, acknowledged, or removed. */
  datatype Place = Available | InFlight | Acked | Deleted

  datatype Message = Message(run: RunId, place: Place)

  /** The write a process inside ProcessTask makes next. */
  datatype Stage =
    | MarkRunning
    | MarkStarted
    | Execute
    | CompleteRun   // the attempt is Succeeded, the run is not Completed yet
    | FailRun       // the attempt is Failed, the run is not Failed yet
    | FailAttempt   // the run is Failed, the attempt is still Started
    | SpawnChild    // both are Failed, the retry child is not created yet

  datatype Phase =
    | Idle
    | Inspecting(msg: MsgId)                      // reclaimed, prepareRecovery has not run
    | Abandoning(msg: MsgId, todo: set<nat>)      // prepareRecovery is writing its abandon list
    | Received(msg: MsgId)                        // about to run ProcessTask's claim prefix
    | Working(stage: Stage, msg: MsgId, run: RunId, attempt: nat, row: Run)
    | Acking(msg: MsgId)
    | Deleting(msg: MsgId)
    | Crashed

  datatype SchedulerAt = Between | Publishing(run: RunId) | Confirming(run: RunId)

  datatype Scheduler = Scheduler(due: map<RunId, Run>, stranded: set<RunId>, at: SchedulerAt)

  datatype State = State(
    jobs: map<RunId, Job>, stream: map<MsgId, Message>, procs: map<ProcId, Phase>, sched: Scheduler)

  datatype Outcome = Success | RetryableFailure | NonRetryableFailure

  const NO_SCHEDULER := Scheduler(map[], {}, Between)

  const INIT := State(map[], map[], map[], NO_SCHEDULER)

  // ---------------------------------------------------------------------------------------------------------
  // Observations
  // ---------------------------------------------------------------------------------------------------------

  predicate Unfinished(a: Attempt) {
    a.status == Claimed || a.status == Started
  }

  /** The rows "status IN (Claimed, Started)" selects, by index, oldest first. */
  function UnfinishedOf(attempts: seq<Attempt>): (ks: seq<nat>)
    ensures forall k: nat :: k in ks <==> k < |attempts| && Unfinished(attempts[k])
  {
    if attempts == [] then []
    else
      var last := |attempts| - 1;
      var rest := UnfinishedOf(attempts[..last]);
      if Unfinished(attempts[last]) then rest + [last] else rest
  }

  /** The attempts with every unfinished one abandoned. */
  function AllAbandoned(attempts: seq<Attempt>): seq<Attempt> {
    seq(|attempts|, i requires 0 <= i < |attempts| =>
      if Unfinished(attempts[i]) then attempts[i].(status := Abandoned) else attempts[i])
  }

  function IndexSet(ks: seq<nat>): set<nat> {
    set k | k in ks
  }

  predicate Gone(s: State, p: ProcId) {
    p in s.procs && s.procs[p] == Crashed
  }

  /** The process may still write on behalf of m, or acknowledge it. */
  predicate Holds(ph: Phase, m: MsgId) {
    (ph.Abandoning? || ph.Received? || ph.Working? || ph.Acking?) && ph.msg == m
  }

  predicate Unacked(s: State, m: MsgId) {
    m in s.stream && (s.stream[m].place == Available || s.stream[m].place == InFlight)
  }

  predicate Settled(s: State, r: RunId) {
    r in s.jobs ==> Terminal(s.jobs[r].row.status)
  }

  ghost predicate Named(s: State, r: RunId) {
    exists m :: m in s.stream && s.stream[m].run == r
  }

  predicate HasChild(s: State, r: RunId) {
    exists c :: c in s.jobs && s.jobs[c].row.parent == Some(r)
  }

  predicate Settling(ph: Phase, r: RunId) {
    ph.Working? && ph.run == r && (ph.stage == CompleteRun || ph.stage == FailRun)
  }

  // ---------------------------------------------------------------------------------------------------------
  // Writes
  // ---------------------------------------------------------------------------------------------------------

  function SaveRow(s: State, r: RunId, row: Run): State
    requires r in s.jobs
  {
    s.(jobs := s.jobs[r := s.jobs[r].(row := row)])
  }

  function SaveAttempt(s: State, r: RunId, k: nat, status: AttemptStatus): State
    requires r in s.jobs && k < |s.jobs[r].attempts|
  {
    var j := s.jobs[r];
    s.(jobs := s.jobs[r := j.(attempts := j.attempts[k := j.attempts[k].(status := status)])])
  }

  function SetPlace(s: State, m: MsgId, place: Place): State
    requires m in s.stream
  {
    s.(stream := s.stream[m := s.stream[m].(place := place)])
  }

  function Go(s: State, p: ProcId, ph: Phase): State {
    s.(procs := s.procs[p := ph])
  }

  // ---------------------------------------------------------------------------------------------------------
  // The API and the scheduler
  // ---------------------------------------------------------------------------------------------------------

  ghost predicate FreshRun(s: State, r: RunId) {
    r !in s.jobs && !Named(s, r)
  }

  function CreateRun(s: State, r: RunId): State {
    s.(jobs := s.jobs[r := Job(Run(Pending, false, r, None, 0), [])])
  }

  /** publishDueTasks reads whole rows; due-ness depends on the clock, so any subset of the Pending runs. */
  predicate CanReadDue(s: State, batch: set<RunId>) {
    && s.sched.at == Between
    && forall r :: r in batch ==> r in s.jobs && s.jobs[r].row.status == Pending
  }

  function ReadDue(s: State, batch: set<RunId>): State
    requires CanReadDue(s, batch)
  {
    s.(sched := s.sched.(due := map r | r in batch :: s.jobs[r].row))
  }

  predicate CanQueue(s: State, r: RunId) {
    s.sched.at == Between && r in s.sched.due && r in s.jobs
  }

  /** MarkRunQueued saves the whole row as it was read. */
  function Queue(s: State, r: RunId): State
    requires CanQueue(s, r)
  {
    SaveRow(s, r, s.sched.due[r].(status := Queued)).(
      sched := s.sched.(due := s.sched.due - {r}, at := Publishing(r)))
  }

  predicate CanPublish(s: State, m: MsgId) {
    s.sched.at.Publishing? && m !in s.stream
  }

  function Publish(s: State, m: MsgId): State
    requires CanPublish(s, m)
  {
    s.(stream := s.stream[m := Message(s.sched.at.run, Available)],
       sched := s.sched.(at := Confirming(s.sched.at.run)))
  }

  predicate CanConfirm(s: State) {
    s.sched.at.Confirming? && s.sched.at.run in s.jobs
  }

  /** UpdateColumn writes published_at alone, whatever the row says by now. */
  function Confirm(s: State): State
    requires CanConfirm(s)
  {
    var r := s.sched.at.run;
    SaveRow(s, r, s.jobs[r].row.(published := true)).(sched := s.sched.(at := Between))
  }

  predicate CanReadStranded(s: State, batch: set<RunId>) {
    && s.sched.at == Between
    && forall r :: r in batch ==> r in s.jobs && s.jobs[r].row.status == Queued && !s.jobs[r].row.published
  }

  function ReadStranded(s: State, batch: set<RunId>): State {
    s.(sched := s.sched.(stranded := batch))
  }

  predicate CanTakeStranded(s: State, r: RunId) {
    s.sched.at == Between && r in s.sched.stranded
  }

  function TakeStranded(s: State, r: RunId): State {
    s.(sched := s.sched.(stranded := s.sched.stranded - {r}, at := Publishing(r)))
  }

  /** A duplicate of an entry, or an entry naming a run that does not exist. */
  ghost predicate CanInject(s: State, m: MsgId, r: RunId) {
    m !in s.stream && (r in s.jobs ==> Named(s, r))
  }

  function Inject(s: State, m: MsgId, r: RunId): State {
    s.(stream := s.stream[m := Message(r, Available)])
  }

  // ---------------------------------------------------------------------------------------------------------
  // Deliveries and recovery
  // ---------------------------------------------------------------------------------------------------------

  predicate At(s: State, p: ProcId, ph: Phase) {
    p in s.procs && s.procs[p] == ph
  }

  predicate CanDeliver(s: State, p: ProcId, m: MsgId) {
    At(s, p, Idle) && m in s.stream && s.stream[m].place == Available
  }

  function Deliver(s: State, p: ProcId, m: MsgId): State
    requires CanDeliver(s, p, m)
  {
    Go(SetPlace(s, m, InFlight), p, Received(m))
  }

  /** XAutoClaim hands out any pending entry that has been idle long enough, whoever holds it. The entry is one
      of a batch, so it may have been acknowledged by the time it is looked at. */
  predicate CanReclaim(s: State, p: ProcId, m: MsgId) {
    At(s, p, Idle) && m in s.stream && s.stream[m].place != Available
  }

  function Reclaim(s: State, p: ProcId, m: MsgId): State {
    Go(s, p, Inspecting(m))
  }

  /** One verdict per unfinished attempt, in the order the rows were read. */
  predicate CanInspect(s: State, p: ProcId, verdicts: seq<bool>) {
    && p in s.procs && s.procs[p].Inspecting? && s.procs[p].msg in s.stream
    && var r := s.stream[s.procs[p].msg].run;
       r in s.jobs ==> |verdicts| == |UnfinishedOf(s.jobs[r].attempts)|
  }

  function Inspect(s: State, p: ProcId, verdicts: seq<bool>): State
    requires CanInspect(s, p, verdicts)
  {
    var m := s.procs[p].msg;
    var r := s.stream[m].run;
    if r !in s.jobs then Go(s, p, Received(m))
    else
      var plan := PlanRecovery(s.jobs[r].row.status, verdicts);
      if plan.wait then Go(s, p, Idle)
      else if plan.abandon then
        Go(s, p, Abandoning(m, IndexSet(UnfinishedOf(s.jobs[r].attempts))))
      else Go(s, p, Received(m))
  }

  predicate CanAbandon(s: State, p: ProcId, k: nat) {
    && p in s.procs && s.procs[p].Abandoning? && k in s.procs[p].todo
    && s.procs[p].msg in s.stream
    && var r := s.stream[s.procs[p].msg].run;
       r in s.jobs && k < |s.jobs[r].attempts|
  }

  function Abandon(s: State, p: ProcId, k: nat): State
    requires CanAbandon(s, p, k)
  {
    var ph := s.procs[p];
    Go(SaveAttempt(s, s.stream[ph.msg].run, k, Abandoned), p, Abandoning(ph.msg, ph.todo - {k}))
  }

  predicate CanResume(s: State, p: ProcId) {
    p in s.procs && s.procs[p].Abandoning? && s.procs[p].todo == {}
  }

  function Resume(s: State, p: ProcId): State
    requires CanResume(s, p)
  {
    Go(s, p, Received(s.procs[p].msg))
  }

  // ---------------------------------------------------------------------------------------------------------
  // ProcessTask and the acknowledgement
  // ---------------------------------------------------------------------------------------------------------

  predicate CanClaim(s: State, p: ProcId) {
    p in s.procs && s.procs[p].Received? && s.procs[p].msg in s.stream
  }

  /** The claim prefix finds a run that may be worked on and no unfinished attempt. */
  predicate Claims(s: State, r: RunId) {
    && r in s.jobs && !Terminal(s.jobs[r].row.status)
    && forall k :: 0 <= k < |s.jobs[r].attempts| ==> !Unfinished(s.jobs[r].attempts[k])
  }

  function Claim(s: State, p: ProcId): State
    requires CanClaim(s, p)
  {
    var m := s.procs[p].msg;
    var r := s.stream[m].run;
    if !Claims(s, r) then Go(s, p, Acking(m))
    else
      var j := s.jobs[r];
      var k := |j.attempts|;
      Go(s.(jobs := s.jobs[r := j.(attempts := j.attempts + [Attempt(Claimed, k + 1, p, m)])]),
         p, Working(MarkRunning, m, r, k, j.row))
  }

  predicate AtStage(s: State, p: ProcId, stage: Stage) {
    && p in s.procs && s.procs[p].Working? && s.procs[p].stage == stage
    && s.procs[p].run in s.jobs && s.procs[p].attempt < |s.jobs[s.procs[p].run].attempts|
  }

  function WriteRunning(s: State, p: ProcId): State
    requires AtStage(s, p, MarkRunning)
  {
    var ph := s.procs[p];
    var row := ph.row.(status := Running);
    Go(SaveRow(s, ph.run, row), p, ph.(stage := MarkStarted, row := row))
  }

  function WriteStarted(s: State, p: ProcId): State
    requires AtStage(s, p, MarkStarted)
  {
    var ph := s.procs[p];
    Go(SaveAttempt(s, ph.run, ph.attempt, Started), p, ph.(stage := Execute))
  }

  /** The handler has returned; the first write of the branch its outcome selects. */
  function Finish(s: State, p: ProcId, outcome: Outcome): State
    requires AtStage(s, p, Execute)
  {
    var ph := s.procs[p];
    match outcome
    case Success =>
      Go(SaveAttempt(s, ph.run, ph.attempt, Succeeded), p, ph.(stage := CompleteRun))
    case RetryableFailure =>
      if HasChild(s, ph.run) then Go(s, p, Acking(ph.msg))
      else
        var row := ph.row.(status := Failed);
        Go(SaveRow(s, ph.run, row), p, ph.(stage := FailAttempt, row := row))
    case NonRetryableFailure =>
      Go(SaveAttempt(s, ph.run, ph.attempt, AttemptFailed), p, ph.(stage := FailRun))
  }

  /** The success is confirmed by reading the attempt back before the run is completed. */
  function WriteCompleted(s: State, p: ProcId): State
    requires AtStage(s, p, CompleteRun)
  {
    var ph := s.procs[p];
    if s.jobs[ph.run].attempts[ph.attempt].status != Succeeded then Go(s, p, Acking(ph.msg))
    else Go(SaveRow(s, ph.run, ph.row.(status := Completed)), p, Acking(ph.msg))
  }

  function WriteRunFailed(s: State, p: ProcId): State
    requires AtStage(s, p, FailRun)
  {
    var ph := s.procs[p];
    Go(SaveRow(s, ph.run, ph.row.(status := Failed)), p, Acking(ph.msg))
  }

  function WriteAttemptFailed(s: State, p: ProcId): State
    requires AtStage(s, p, FailAttempt)
  {
    var ph := s.procs[p];
    Go(SaveAttempt(s, ph.run, ph.attempt, AttemptFailed), p,
       if ph.row.retryIndex >= MAX_RETRIES then Acking(ph.msg) else ph.(stage := SpawnChild))
  }

  ghost predicate CanSpawn(s: State, p: ProcId, child: RunId) {
    AtStage(s, p, SpawnChild) && FreshRun(s, child)
  }

  function Spawn(s: State, p: ProcId, child: RunId): State
    requires AtStage(s, p, SpawnChild)
  {
    var ph := s.procs[p];
    Go(s.(jobs := s.jobs[child := Job(Run(Pending, false, ph.row.chain, Some(ph.run), ph.row.retryIndex + 1), [])]),
       p, Acking(ph.msg))
  }

  predicate CanAck(s: State, p: ProcId) {
    p in s.procs && s.procs[p].Acking? && s.procs[p].msg in s.stream
  }

  /** XAck answers 1 only for an entry that is still pending; only then is the entry deleted. */
  function Ack(s: State, p: ProcId): State
    requires CanAck(s, p)
  {
    var m := s.procs[p].msg;
    if s.stream[m].place == InFlight then Go(SetPlace(s, m, Acked), p, Deleting(m)) else Go(s, p, Idle)
  }

  predicate CanDelete(s: State, p: ProcId) {
    p in s.procs && s.procs[p].Deleting? && s.procs[p].msg in s.stream
  }

  function Delete(s: State, p: ProcId): State
    requires CanDelete(s, p)
  {
    Go(SetPlace(s, s.procs[p].msg, Deleted), p, Idle)
  }

  // ---------------------------------------------------------------------------------------------------------
  // Steps
  // ---------------------------------------------------------------------------------------------------------

  datatype Step =
    | DoCreate(r: RunId)
    | DoReadDue(batch: set<RunId>)
    | DoQueue(r: RunId)
    | DoPublish(m: MsgId)
    | DoPublishFail
    | DoConfirm
    | DoReadStranded(batch: set<RunId>)
    | DoTakeStranded(r: RunId)
    | DoSchedulerCrash
    | DoInject(m: MsgId, r: RunId)
    | DoJoin(p: ProcId)
    | DoCrash(p: ProcId)
    | DoDeliver(p: ProcId, m: MsgId)
    | DoReclaim(p: ProcId, m: MsgId)
    | DoInspect(p: ProcId, verdicts: seq<bool>)
    | DoAbandon(p: ProcId, k: nat)
    | DoResume(p: ProcId)
    | DoClaim(p: ProcId)
    | DoRunning(p: ProcId)
    | DoStarted(p: ProcId)
    | DoFinish(p: ProcId, outcome: Outcome)
    | DoCompleted(p: ProcId)
    | DoRunFailed(p: ProcId)
    | DoAttemptFailed(p: ProcId)
    | DoSpawn(p: ProcId, child: RunId)
    | DoAck(p: ProcId)
    | DoDelete(p: ProcId)

  ghost predicate Enabled(s: State, step: Step) {
    match step
    case DoCreate(r) => FreshRun(s, r)
    case DoReadDue(batch) => CanReadDue(s, batch)
    case DoQueue(r) => CanQueue(s, r)
    case DoPublish(m) => CanPublish(s, m)
    case DoPublishFail => s.sched.at.Publishing?
    case DoConfirm => CanConfirm(s)
    case DoReadStranded(batch) => CanReadStranded(s, batch)
    case DoTakeStranded(r) => CanTakeStranded(s, r)
    case DoSchedulerCrash => true
    case DoInject(m, r) => CanInject(s, m, r)
    case DoJoin(p) => p !in s.procs
    case DoCrash(p) => p in s.procs
    case DoDeliver(p, m) => CanDeliver(s, p, m)
    case DoReclaim(p, m) => CanReclaim(s, p, m)
    case DoInspect(p, verdicts) => CanInspect(s, p, verdicts)
    case DoAbandon(p, k) => CanAbandon(s, p, k)
    case DoResume(p) => CanResume(s, p)
    case DoClaim(p) => CanClaim(s, p)
    case DoRunning(p) => AtStage(s, p, MarkRunning)
    case DoStarted(p) => AtStage(s, p, MarkStarted)
    case DoFinish(p, _) => AtStage(s, p, Execute)
    case DoCompleted(p) => AtStage(s, p, CompleteRun)
    case DoRunFailed(p) => AtStage(s, p, FailRun)
    case DoAttemptFailed(p) => AtStage(s, p, FailAttempt)
    case DoSpawn(p, child) => CanSpawn(s, p, child)
    case DoAck(p) => CanAck(s, p)
    case DoDelete(p) => CanDelete(s, p)
  }

  ghost function Apply(s: State, step: Step): State
    requires Enabled(s, step)
  {
    match step
    case DoCreate(r) => CreateRun(s, r)
    case DoReadDue(batch) => ReadDue(s, batch)
    case DoQueue(r) => Queue(s, r)
    case DoPublish(m) => Publish(s, m)
    case DoPublishFail => s.(sched := s.sched.(at := Between))
    case DoConfirm => Confirm(s)
    case DoReadStranded(batch) => ReadStranded(s, batch)
    case DoTakeStranded(r) => TakeStranded(s, r)
    case DoSchedulerCrash => s.(sched := NO_SCHEDULER)
    case DoInject(m, r) => Inject(s, m, r)
    case DoJoin(p) => Go(s, p, Idle)
    case DoCrash(p) => Go(s, p, Crashed)
    case DoDeliver(p, m) => Deliver(s, p, m)
    case DoReclaim(p, m) => Reclaim(s, p, m)
    case DoInspect(p, verdicts) => Inspect(s, p, verdicts)
    case DoAbandon(p, k) => Abandon(s, p, k)
    case DoResume(p) => Resume(s, p)
    case DoClaim(p) => Claim(s, p)
    case DoAck(p) => Ack(s, p)
    case DoDelete(p) => Delete(s, p)
    case _ => Work(s, step)
  }

  /** A write of a process inside ProcessTask. */
  predicate InTask(step: Step) {
    || step.DoRunning? || step.DoStarted? || step.DoFinish? || step.DoCompleted? || step.DoRunFailed?
    || step.DoAttemptFailed? || step.DoSpawn?
  }

  ghost function Work(s: State, step: Step): State
    requires Enabled(s, step) && InTask(step)
  {
    match step
    case DoRunning(p) => WriteRunning(s, p)
    case DoStarted(p) => WriteStarted(s, p)
    case DoFinish(p, outcome) => Finish(s, p, outcome)
    case DoCompleted(p) => WriteCompleted(s, p)
    case DoRunFailed(p) => WriteRunFailed(s, p)
    case DoAttemptFailed(p) => WriteAttemptFailed(s, p)
    case DoSpawn(p, child) => Spawn(s, p, child)
  }

  // ---------------------------------------------------------------------------------------------------------
  // What the protocol relies on
  // ---------------------------------------------------------------------------------------------------------

  /** A new attempt is not claimed while a live worker stands between finishing its attempt and finishing the run. */
  ghost predicate ClaimSafe(s: State, p: ProcId)
    requires CanClaim(s, p)
  {
    var r := s.stream[s.procs[p].msg].run;
    Claims(s, r) ==> forall q :: q in s.procs ==> !Settling(s.procs[q], r)
  }

  /** The delivery has not been acknowledged meanwhile, and no other live process still acts on it but a worker that has
      only the run left to finish. */
  ghost predicate HandoverSafe(s: State, p: ProcId, m: MsgId)
    requires m in s.stream
  {
    && Unacked(s, m)
    && forall q :: q in s.procs && q != p && Holds(s.procs[q], m) ==> Settling(s.procs[q], s.stream[m].run)
  }

  /** An owner judged gone takes no further step, and a delivery that is taken over is really given up. */
  ghost predicate InspectSafe(s: State, p: ProcId, verdicts: seq<bool>)
    requires CanInspect(s, p, verdicts)
  {
    var m := s.procs[p].msg;
    var r := s.stream[m].run;
    (!Settled(s, r) && !PlanRecovery(s.jobs[r].row.status, verdicts).wait) ==>
      && HandoverSafe(s, p, m)
      && forall k :: 0 <= k < |s.jobs[r].attempts| && Unfinished(s.jobs[r].attempts[k]) ==>
           Gone(s, s.jobs[r].attempts[k].owner)
  }

  ghost predicate Assumed(s: State, step: Step)
    requires Enabled(s, step)
  {
    match step
    case DoClaim(p) => ClaimSafe(s, p)
    case DoInspect(p, verdicts) => InspectSafe(s, p, verdicts)
    case _ => true
  }

  /** Steps that can be taken one after the other, starting with an empty database and stream. */
  ghost predicate Possible(steps: seq<Step>)
    decreases |steps|, 0
  {
    steps != [] ==>
      var n := |steps| - 1;
      Possible(steps[..n]) && Enabled(After(steps[..n]), steps[n])
  }

  ghost function After(steps: seq<Step>): State
    requires Possible(steps)
    decreases |steps|, 1
  {
    if steps == [] then INIT
    else
      var n := |steps| - 1;
      Apply(After(steps[..n]), steps[n])
  }

  /** The same, with what the protocol relies on holding at every step. */
  ghost predicate Behaviour(steps: seq<Step>)
    ensures Behaviour(steps) ==> Possible(steps)
    decreases |steps|
  {
    && Possible(steps)
    && (steps != [] ==>
          var n := |steps| - 1;
          Behaviour(steps[..n]) && Assumed(After(steps[..n]), steps[n]))
  }

  /** One more step. */
  lemma Then(steps: seq<Step>, step: Step)
    requires Possible(steps) && Enabled(After(steps), step)
    ensures Possible(steps + [step]) && After(steps + [step]) == Apply(After(steps), step)
    ensures Behaviour(steps) && Assumed(After(steps), step) ==> Behaviour(steps + [step])
  {
    assert (steps + [step])[..|steps|] == steps;
  }
}
