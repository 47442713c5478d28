/** After a total outage one fresh process and the scheduler can bring every run to an end. */
module DeliveryRecovery {
  import opened AttemptOwnership
  import opened Delivery
  import opened DeliveryInvariant
  import opened DeliveryTheorems
  import opened DeliveryRuns

  // ---------------------------------------------------------------------------------------------------------
  // The stages of a recovery
  // ---------------------------------------------------------------------------------------------------------

  /** Every process other than p is down and the scheduler holds nothing. */
  ghost predicate Quiet(s: State, p: ProcId) {
    s.sched.at == Between && forall q :: q in s.procs && q != p ==> s.procs[q] == Crashed
  }

  /** p has been handed an entry of r, and nothing stands in the way of working on it. */
  ghost predicate Ready(s: State, p: ProcId, r: RunId) {
    // One value, so that a failed proof names the predicate and not each of its parts.
    var good := Quiet(s, p) && CanClaim(s, p) && s.stream[s.procs[p].msg].run == r && Claims(s, r);
    good
  }

  ghost predicate Over(s: State, r: RunId) {
    r in s.jobs && Terminal(s.jobs[r].row.status)
  }

  /** The claim prefix succeeds and the handler reports success. */
  lemma FinishFrom(s: State, p: ProcId, r: RunId) returns (t: seq<Step>, s': State)
    requires Ready(s, p, r)
    ensures Leads(s, t, s') && Over(s', r)
  {
    Taken(s, DoClaim(p));
    t, s' := [DoClaim(p)], Apply(s, DoClaim(p));
    t, s' := AndThen(s, t, s', DoRunning(p));
    t, s' := AndThen(s, t, s', DoStarted(p));
    t, s' := SucceedFrom(s, t, s', p, r);
  }

  lemma SucceedFrom(s: State, a: seq<Step>, s1: State, p: ProcId, r: RunId) returns (t: seq<Step>, s': State)
    requires Leads(s, a, s1) && AtStage(s1, p, Execute) && s1.procs[p].run == r
    ensures Leads(s, t, s') && Over(s', r)
  {
    t, s' := AndThen(s, a, s1, DoFinish(p, Success));
    t, s' := AndThen(s, t, s', DoCompleted(p));
  }

  /** A fresh process gets hold of a pending or unread entry of a run with no unfinished attempt. */
  lemma TakeEntry(s: State, p: ProcId, r: RunId, m: MsgId) returns (t: seq<Step>, s': State)
    requires Quiet(s, p) && At(s, p, Idle) && Claims(s, r) && Unacked(s, m) && s.stream[m].run == r
    ensures Leads(s, t, s') && Ready(s', p, r)
  {
    if s.stream[m].place == Available {
      Taken(s, DoDeliver(p, m));
      t, s' := [DoDeliver(p, m)], Apply(s, DoDeliver(p, m));
    } else {
      Taken(s, DoReclaim(p, m));
      t, s' := [DoReclaim(p, m)], Apply(s, DoReclaim(p, m));
      NoneUnfinished(s.jobs[r].attempts);
      t, s' := AndThen(s, t, s', DoInspect(p, []));
    }
  }

  lemma {:induction false} NoneUnfinished(attempts: seq<Attempt>)
    requires forall k :: 0 <= k < |attempts| ==> !Unfinished(attempts[k])
    ensures UnfinishedOf(attempts) == []
  {
    if attempts != [] {
      NoneUnfinished(attempts[..|attempts| - 1]);
    }
  }

  function AllGone(n: nat): (v: seq<bool>)
    ensures |v| == n && false !in v && (n > 0 ==> true in v)
  {
    var v := seq(n, _ => true);
    assert n > 0 ==> v[0] in v;
    v
  }

  lemma AllGoneIsSafe(s: State, p: ProcId, r: RunId, k: nat, m: MsgId) returns (verdicts: seq<bool>)
    requires Quiet(s, p) && At(s, p, Inspecting(m)) && Unacked(s, m) && s.stream[m].run == r
    requires r in s.jobs && !Terminal(s.jobs[r].row.status) && AttemptsOk(s, r)
    requires k < |s.jobs[r].attempts| && Unfinished(s.jobs[r].attempts[k]) && s.jobs[r].attempts[k].owner != p
    ensures CanInspect(s, p, verdicts) && InspectSafe(s, p, verdicts)
    ensures Inspect(s, p, verdicts) == Go(s, p, Abandoning(m, {k}))
  {
    var ks := UnfinishedOf(s.jobs[r].attempts);
    assert k in ks;
    verdicts := AllGone(|ks|);
    assert forall j: nat :: j in ks <==> j == k;
    assert Inspect(s, p, verdicts).procs[p].Abandoning?;
    assert Inspect(s, p, verdicts).procs[p].todo == {k};
  }

  /** The lone unfinished attempt, whose owner is gone, is abandoned and its delivery taken over. */
  lemma TakeOver(s: State, p: ProcId, r: RunId, k: nat) returns (t: seq<Step>, s': State)
    requires Quiet(s, p) && At(s, p, Idle) && r in s.jobs && !Terminal(s.jobs[r].row.status) && AttemptsOk(s, r)
    requires k < |s.jobs[r].attempts| && Unfinished(s.jobs[r].attempts[k]) && s.jobs[r].attempts[k].owner != p
    ensures Leads(s, t, s') && Ready(s', p, r)
  {
    var m := s.jobs[r].attempts[k].delivery;
    Taken(s, DoReclaim(p, m));
    t, s' := [DoReclaim(p, m)], Apply(s, DoReclaim(p, m));
    assert AttemptsOk(s', r);
    var verdicts := AllGoneIsSafe(s', p, r, k, m);
    t, s' := AndThen(s, t, s', DoInspect(p, verdicts));
    t, s' := AbandonLast(s, t, s', p, r, k, m);
  }

  lemma AbandonLast(s: State, a: seq<Step>, s1: State, p: ProcId, r: RunId, k: nat, m: MsgId) returns (t: seq<Step>, s': State)
    requires Leads(s, a, s1) && Quiet(s1, p) && At(s1, p, Abandoning(m, {k})) && m in s1.stream && s1.stream[m].run == r
    requires r in s1.jobs && !Terminal(s1.jobs[r].row.status) && LoneUnfinished(s1.jobs[r].attempts)
    requires k < |s1.jobs[r].attempts| && Unfinished(s1.jobs[r].attempts[k])
    ensures Leads(s, t, s') && Ready(s', p, r)
  {
    t, s' := AndThen(s, a, s1, DoAbandon(p, k));
    assert {k} - {k} == {};
    t, s' := AndThen(s, t, s', DoResume(p));
  }

  /** The scheduler publishes a run that is due or stranded. */
  lemma Republish(s: State, r: RunId) returns (t: seq<Step>, s': State)
    requires s.sched == NO_SCHEDULER && r in s.jobs
    requires var row := s.jobs[r].row; row.status == Pending || (row.status == Queued && !row.published)
    ensures Leads(s, t, s') && s'.procs == s.procs && s'.sched.at == Between
    ensures r in s'.jobs && s'.jobs[r].row.status == Queued && s'.jobs[r].row.published
  {
    if s.jobs[r].row.status == Pending {
      Taken(s, DoReadDue({r}));
      t, s' := [DoReadDue({r})], Apply(s, DoReadDue({r}));
      assert r in s'.sched.due;
      t, s' := AndThen(s, t, s', DoQueue(r));
    } else {
      Taken(s, DoReadStranded({r}));
      t, s' := [DoReadStranded({r})], Apply(s, DoReadStranded({r}));
      t, s' := AndThen(s, t, s', DoTakeStranded(r));
    }
    t, s' := PublishConfirmed(s, t, s', r);
  }

  lemma PublishConfirmed(s: State, a: seq<Step>, s1: State, r: RunId) returns (t: seq<Step>, s': State)
    requires Leads(s, a, s1) && s1.sched.at == Publishing(r) && r in s1.jobs
    ensures Leads(s, t, s') && s'.procs == s1.procs && s'.sched.at == Between
    ensures r in s'.jobs && s'.jobs[r].row == s1.jobs[r].row.(published := true)
  {
    var m := FreshId(s1.stream.Keys);
    t, s' := AndThen(s, a, s1, DoPublish(m));
    t, s' := AndThen(s, t, s', DoConfirm);
  }

  /** A fresh process joins, gets hold of an entry of r and ends the run. */
  lemma FinishWith(s: State, p: ProcId, r: RunId, m: MsgId) returns (t: seq<Step>, s': State)
    requires Quiet(s, p) && p !in s.procs && r in s.jobs && !Terminal(s.jobs[r].row.status) && AttemptsOk(s, r)
    requires Unacked(s, m) && s.stream[m].run == r
    ensures Leads(s, t, s') && Over(s', r)
  {
    Taken(s, DoJoin(p));
    var joined := Apply(s, DoJoin(p));
    var ready: State;
    if k :| 0 <= k < |s.jobs[r].attempts| && Unfinished(s.jobs[r].attempts[k]) {
      assert AttemptsOk(joined, r);
      t, ready := TakeOver(joined, p, r, k);
    } else {
      assert Claims(joined, r);
      t, ready := TakeEntry(joined, p, r, m);
    }
    Onwards(s, [DoJoin(p)], joined, t, ready);
    var rest, end := FinishFrom(ready, p, r);
    Onwards(s, [DoJoin(p)] + t, ready, rest, end);
    t, s' := [DoJoin(p)] + t + rest, end;
  }

  /** The entry that backs a run which is Running or published. */
  lemma EntryOf(s: State, r: RunId) returns (m: MsgId)
    requires Reached(s) && r in s.jobs
    requires s.jobs[r].row.status == Running || (s.jobs[r].row.status == Queued && s.jobs[r].row.published)
    ensures Unacked(s, m) && s.stream[m].run == r && AttemptsOk(s, r)
  {
    ReachedIsGood(s);
    assert AttemptsOk(s, r);
    NoRunLost(s, r);
    m :| Unacked(s, m) && s.stream[m].run == r && forall p :: p in s.procs ==> s.procs[p] != Acking(m);
  }

  /** Whatever happened before, when every process is down and the scheduler starts afresh, any run that is not
      finished can still be brought to an end: nothing is stranded. */
  lemma RecoverAfterOutage(steps: seq<Step>, r: RunId) returns (t: seq<Step>)
    requires Behaviour(steps) && r in After(steps).jobs && !Terminal(After(steps).jobs[r].row.status)
    requires After(steps).sched == NO_SCHEDULER
    requires forall q :: q in After(steps).procs ==> After(steps).procs[q] == Crashed
    ensures steps <= t && Behaviour(t) && Over(After(t), r)
  {
    var p := FreshId(After(steps).procs.Keys);
    t := Published(steps, p, r);
    var s := After(t);
    assert Reached(s);
    var m := EntryOf(s, r);
    var rest, end := FinishWith(s, p, r, m);
    Continued(t, rest, end);
    t := t + rest;
  }

  /** First make sure the run is in the stream. */
  lemma Published(steps: seq<Step>, p: ProcId, r: RunId) returns (t: seq<Step>)
    requires Behaviour(steps) && r in After(steps).jobs && !Terminal(After(steps).jobs[r].row.status)
    requires After(steps).sched == NO_SCHEDULER && Quiet(After(steps), p) && p !in After(steps).procs
    ensures steps <= t && Behaviour(t) && Quiet(After(t), p) && p !in After(t).procs && r in After(t).jobs
    ensures var row := After(t).jobs[r].row; row.status == Running || (row.status == Queued && row.published)
  {
    var row := After(steps).jobs[r].row;
    if row.status == Pending || (row.status == Queued && !row.published) {
      var more, s' := Republish(After(steps), r);
      Continued(steps, more, s');
      t := steps + more;
    } else {
      t := steps;
    }
  }
}
