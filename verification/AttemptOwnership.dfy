// internal/models/attempt_ownership.go: what a reclaimer concludes from the facts it has read.
module AttemptOwnership {
  import opened Options

  datatype RunStatus = Pending | Queued | Running | Completed | Failed

  predicate Terminal(status: RunStatus) {
    status == Completed || status == Failed
  }

  datatype OwnerEvidence = OwnerEvidence(lastHeartbeatAt: Option<int>, currentInstanceStartedAt: Option<int>)

  predicate OwnerGone(claimedAt: int, ev: OwnerEvidence, now: int, window: int) {
    if ev.currentInstanceStartedAt.Some? && ev.currentInstanceStartedAt.value > claimedAt then true
    else if ev.lastHeartbeatAt.None? then true
    else now - ev.lastHeartbeatAt.value > window
  }

  /** What the tables hold about the worker id that claimed an attempt: when it sent heartbeats, and when instances of it
      were started. */
  datatype WorkerHistory = WorkerHistory(beats: seq<int>, starts: seq<int>)

  /** The first row of a query ordered by a time, newest first. */
  function Newest(times: seq<int>): (t: Option<int>)
    ensures t == None <==> times == []
    ensures t.Some? ==> t.value in times && forall x :: x in times ==> x <= t.value
  {
    if times == [] then None
    else
      var rest := Newest(times[1..]);
      assert times == [times[0]] + times[1..];
      if rest.Some? && rest.value > times[0] then rest else Some(times[0])
  }

  /** attemptOwnerGone collects the newest heartbeat and the newest instance. */
  function EvidenceOf(h: WorkerHistory): OwnerEvidence {
    OwnerEvidence(Newest(h.beats), Newest(h.starts))
  }

  /** A claimer is judged gone exactly when its worker id was started again after the claim, or has sent no heartbeat that
      is at most a window old. */
  lemma GoneExact(claimedAt: int, h: WorkerHistory, now: int, window: int)
    ensures OwnerGone(claimedAt, EvidenceOf(h), now, window) <==>
            || (exists t :: t in h.starts && t > claimedAt)
            || (forall t :: t in h.beats ==> now - t > window)
  {
  }

  datatype RecoveryPlan = RecoveryPlan(wait: bool, abandon: bool)

  /** Leave the message alone, abandon the unfinished attempts first, or simply reprocess. */
  function PlanRecovery(status: RunStatus, ownerGone: seq<bool>): (plan: RecoveryPlan)
    ensures !(plan.wait && plan.abandon)
    ensures plan.wait <==> !Terminal(status) && false in ownerGone
    ensures plan.abandon <==> !Terminal(status) && true in ownerGone && false !in ownerGone
  {
    if Terminal(status) then RecoveryPlan(false, false)
    else if |ownerGone| == 0 then RecoveryPlan(false, false)
    else if exists i :: 0 <= i < |ownerGone| && !ownerGone[i] then RecoveryPlan(true, false)
    else assert ownerGone[0] in ownerGone; RecoveryPlan(false, true)
  }
}
