/** The two conditions of the protocol are exact: where one of them does not hold, some continuation breaks a promise. */
module DeliveryExact {
  import opened Options
  import opened AttemptOwnership
  import opened Delivery
  import opened DeliveryInvariant
  import opened DeliverySteps
  import opened DeliveryTheorems
  import opened DeliveryRuns
  import opened DeliveryEnds

  // ---------------------------------------------------------------------------------------------------------
  // Broken promises
  // ---------------------------------------------------------------------------------------------------------

  /** An unfinished attempt of an open run whose delivery has been acknowledged. */
  ghost predicate Unbacked(s: State, r: RunId) {
    && r in s.jobs && !Terminal(s.jobs[r].row.status)
    && exists k :: 0 <= k < |s.jobs[r].attempts| && Unfinished(s.jobs[r].attempts[k]) && !Unacked(s, s.jobs[r].attempts[k].delivery)
  }

  /** Two unfinished attempts at once. */
  ghost predicate Doubled(s: State, r: RunId) {
    r in s.jobs && !LoneUnfinished(s.jobs[r].attempts)
  }

  ghost predicate Reopened(s: State, s': State, r: RunId) {
    r in s.jobs && r in s'.jobs && Terminal(s.jobs[r].row.status) && !Terminal(s'.jobs[r].row.status)
  }

  /** Between these two states of a run a promise is broken. */
  ghost predicate Broken(mid: State, end: State) {
    exists r :: Unbacked(end, r) || Doubled(end, r) || Reopened(mid, end, r)
  }

  /** Some continuation, with everything the protocol relies on, breaks a promise. */
  ghost predicate Harmed(s: State) {
    exists a, mid, b, end {:trigger Leads(s, a, mid), Leads(mid, b, end)} :: Leads(s, a, mid) && Leads(mid, b, end) && Broken(mid, end)
  }

  lemma {:induction false} InvRun(s: State, more: seq<Step>, s': State)
    requires Inv(s) && Leads(s, more, s')
    ensures Inv(s')
    ensures forall r {:trigger r in s'.jobs} :: r in s.jobs && Terminal(s.jobs[r].row.status) ==> RowStays(s, s', r)
    decreases more
  {
    if more != [] {
      StepKeeps(s, more[0]);
      var next := Apply(s, more[0]);
      InvRun(next, more[1..], s');
      forall r | r in s.jobs && Terminal(s.jobs[r].row.status) ensures RowStays(s, s', r) {
        FinishedRowStays(s, more[0], r);
        assert r in s'.jobs;
      }
    }
  }

  lemma NothingBroken(mid: State, end: State)
    requires Inv(end)
    requires forall r {:trigger r in end.jobs} :: r in mid.jobs && Terminal(mid.jobs[r].row.status) ==> RowStays(mid, end, r)
    ensures !Broken(mid, end)
  {
    forall r ensures !Unbacked(end, r) && !Doubled(end, r) && !Reopened(mid, end, r) {
      if r in end.jobs {
        assert AttemptsOk(end, r);
      }
    }
  }

  /** From a good state nothing is ever broken. */
  lemma GoodIsUnharmed(s: State)
    requires Inv(s)
    ensures !Harmed(s)
  {
    forall a, mid, b, end | Leads(s, a, mid) && Leads(mid, b, end) ensures !Broken(mid, end) {
      InvRun(s, a, mid);
      InvRun(mid, b, end);
      NothingBroken(mid, end);
    }
  }

  // ---------------------------------------------------------------------------------------------------------
  // The claim
  // ---------------------------------------------------------------------------------------------------------

  /** A claim next to a worker that has only the run left to finish: that worker ends the run, and the claimer reopens it. */
  lemma ClaimReopens(s: State, p: ProcId) returns (a: seq<Step>, mid: State, b: seq<Step>, end: State)
    requires Inv(s) && CanClaim(s, p) && !ClaimSafe(s, p)
    ensures Leads(Claim(s, p), a, mid) && Leads(mid, b, end) && Reopened(mid, end, s.stream[s.procs[p].msg].run)
  {
    var r := s.stream[s.procs[p].msg].run;
    var q :| q in s.procs && Settling(s.procs[q], r);
    assert PhaseOk(s, q, s.procs[q]);
    var s1 := Claim(s, p);
    assert s1.procs[q] == s.procs[q];
    assert s1.jobs[r].attempts[s.procs[q].attempt] == s.jobs[r].attempts[s.procs[q].attempt];
    var step := if s.procs[q].stage == CompleteRun then DoCompleted(q) else DoRunFailed(q);
    Taken(s1, step);
    a, mid := [step], Apply(s1, step);
    Taken(mid, DoRunning(p));
    b, end := [DoRunning(p)], Apply(mid, DoRunning(p));
  }

  /** From a good state, a claim is harmless if and only if no live worker stands between finishing its attempt and
      finishing the run. */
  lemma ClaimExact(s: State, p: ProcId)
    requires Inv(s) && CanClaim(s, p)
    ensures ClaimSafe(s, p) <==> !Harmed(Claim(s, p))
  {
    if ClaimSafe(s, p) {
      ClaimKeeps(s, p);
      GoodIsUnharmed(Claim(s, p));
    } else {
      var a, mid, b, end := ClaimReopens(s, p);
      assert Broken(mid, end);
    }
  }

  // ---------------------------------------------------------------------------------------------------------
  // The recovery decision
  // ---------------------------------------------------------------------------------------------------------

  /** The recovery has gone ahead: p has the delivery, and the run has no unfinished attempt. */
  function Ahead(s: State, p: ProcId, m: MsgId): State
    requires m in s.stream && s.stream[m].run in s.jobs
  {
    var r := s.stream[m].run;
    s.(jobs := s.jobs[r := Job(s.jobs[r].row, AllAbandoned(s.jobs[r].attempts))], procs := s.procs[p := Received(m)])
  }

  /** The reclaimer decides to go ahead with an open run. */
  ghost predicate GoesAhead(s: State, p: ProcId, verdicts: seq<bool>) {
    && CanInspect(s, p, verdicts)
    && var r := s.stream[s.procs[p].msg].run;
       r in s.jobs && !Terminal(s.jobs[r].row.status) && !PlanRecovery(s.jobs[r].row.status, verdicts).wait
  }

  lemma OneCleared(attempts: seq<Attempt>, k: nat)
    requires LoneUnfinished(attempts) && k < |attempts| && Unfinished(attempts[k])
    ensures attempts[k := attempts[k].(status := Abandoned)] == AllAbandoned(attempts)
    ensures IndexSet(UnfinishedOf(attempts)) == {k} && UnfinishedOf(attempts) != []
  {
    assert k in UnfinishedOf(attempts);
  }

  lemma NoneCleared(attempts: seq<Attempt>)
    requires NoneUnfinished(attempts)
    ensures AllAbandoned(attempts) == attempts && UnfinishedOf(attempts) == []
  {
    NothingUnfinished(attempts);
  }

  /** What it then does, alone. */
  lemma GoAhead(s: State, p: ProcId, verdicts: seq<bool>) returns (t: seq<Step>)
    requires Inv(s) && GoesAhead(s, p, verdicts)
    ensures Leads(Inspect(s, p, verdicts), t, Ahead(s, p, s.procs[p].msg))
  {
    var m := s.procs[p].msg;
    var r := s.stream[m].run;
    var attempts := s.jobs[r].attempts;
    assert AttemptsOk(s, r);
    if k :| 0 <= k < |attempts| && Unfinished(attempts[k]) {
      OneCleared(attempts, k);
      t := AbandonOne(s, p, verdicts, k);
    } else {
      NoneCleared(attempts);
      assert verdicts == [];
      assert Inspect(s, p, verdicts).jobs == s.jobs == s.jobs[r := Job(s.jobs[r].row, attempts)];
      t := [];
    }
  }

  lemma AbandonOne(s: State, p: ProcId, verdicts: seq<bool>, k: nat) returns (t: seq<Step>)
    requires GoesAhead(s, p, verdicts)
    requires var attempts := s.jobs[s.stream[s.procs[p].msg].run].attempts;
             && k < |attempts| && IndexSet(UnfinishedOf(attempts)) == {k} && UnfinishedOf(attempts) != []
             && attempts[k := attempts[k].(status := Abandoned)] == AllAbandoned(attempts)
    ensures Leads(Inspect(s, p, verdicts), t, Ahead(s, p, s.procs[p].msg))
  {
    var m := s.procs[p].msg;
    var s1 := Inspect(s, p, verdicts);
    assert verdicts[0] in verdicts;
    assert s1.procs[p] == Abandoning(m, {k});
    Taken(s1, DoAbandon(p, k));
    var s2 := Apply(s1, DoAbandon(p, k));
    assert {k} - {k} == {};
    var end;
    t, end := AndThen(s1, [DoAbandon(p, k)], s2, DoResume(p));
    assert end == Ahead(s, p, m);
  }

  /** At most one worker is settling a run. */
  ghost predicate OneSettling(s: State, r: RunId) {
    forall a, b :: a in s.procs && b in s.procs && Settling(s.procs[a], r) && Settling(s.procs[b], r) ==> a == b
  }

  ghost predicate NobodySettling(s: State, r: RunId) {
    forall q :: q in s.procs ==> !Settling(s.procs[q], r)
  }

  /** A worker that has only the run left to finish may crash instead. */
  lemma Quieted(s: State, a: seq<Step>, s1: State, r: RunId) returns (b: seq<Step>, s2: State)
    requires Leads(s, a, s1) && OneSettling(s1, r)
    ensures Leads(s, b, s2) && NobodySettling(s2, r)
    ensures s2.jobs == s1.jobs && s2.stream == s1.stream && s2.procs.Keys == s1.procs.Keys
    ensures forall q :: q in s1.procs && !Settling(s1.procs[q], r) ==> s2.procs[q] == s1.procs[q]
  {
    if q :| q in s1.procs && Settling(s1.procs[q], r) {
      b, s2 := AndThen(s, a, s1, DoCrash(q));
    } else {
      b, s2 := a, s1;
    }
  }

  /** A delivery that has been acknowledged is claimed again: the new attempt has nothing behind it. */
  lemma ClaimsUnbacked(s: State, a: seq<Step>, s1: State, p: ProcId, m: MsgId, r: RunId) returns (b: seq<Step>, end: State)
    requires Leads(s, a, s1) && OneSettling(s1, r) && At(s1, p, Received(m)) && m in s1.stream && s1.stream[m].run == r
    requires Claims(s1, r) && !Unacked(s1, m)
    ensures Leads(s, b, end) && Unbacked(end, r)
  {
    var s2;
    b, s2 := Quieted(s, a, s1, r);
    assert Claims(s2, r);
    b, end := AndThen(s, b, s2, DoClaim(p));
    var k := |s2.jobs[r].attempts|;
    assert end.jobs[r].attempts[k] == Attempt(Claimed, k + 1, p, m);
  }

  /** Two processes have been handed one delivery: one claims the run, the other takes it for a duplicate and acknowledges. */
  lemma SharedIsAcked(s: State, a: seq<Step>, s1: State, p: ProcId, q: ProcId, m: MsgId, r: RunId) returns (b: seq<Step>, end: State)
    requires Leads(s, a, s1) && OneSettling(s1, r) && p != q && At(s1, p, Received(m)) && At(s1, q, Received(m))
    requires m in s1.stream && s1.stream[m].run == r && Claims(s1, r) && s1.stream[m].place == InFlight
    ensures Leads(s, b, end) && Unbacked(end, r)
  {
    var s2;
    b, s2 := Quieted(s, a, s1, r);
    assert Claims(s2, r);
    var s3;
    b, s3 := AndThen(s, b, s2, DoClaim(q));
    var k := |s2.jobs[r].attempts|;
    assert s3.jobs[r].attempts[k] == Attempt(Claimed, k + 1, q, m);
    b, end := DuplicateAcks(s, b, s3, p, m, r, k);
  }

  lemma DuplicateAcks(s: State, a: seq<Step>, s1: State, p: ProcId, m: MsgId, r: RunId, k: nat) returns (b: seq<Step>, end: State)
    requires Leads(s, a, s1) && At(s1, p, Received(m)) && m in s1.stream && s1.stream[m].run == r && s1.stream[m].place == InFlight
    requires r in s1.jobs && !Terminal(s1.jobs[r].row.status) && k < |s1.jobs[r].attempts|
    requires Unfinished(s1.jobs[r].attempts[k]) && s1.jobs[r].attempts[k].delivery == m
    ensures Leads(s, b, end) && Unbacked(end, r)
  {
    var s2;
    b, s2 := AndThen(s, a, s1, DoClaim(p));
    b, end := AndThen(s, b, s2, DoAck(p));
  }

  /** A process that was abandoning as well gets to the same point. */
  lemma {:induction false} DrainTodo(s: State, a: seq<Step>, s1: State, q: ProcId, m: MsgId, todo: set<nat>, r: RunId)
    returns (b: seq<Step>, s2: State)
    requires Leads(s, a, s1) && At(s1, q, Abandoning(m, todo)) && m in s1.stream && s1.stream[m].run == r && Claims(s1, r)
    requires forall k :: k in todo ==> k < |s1.jobs[r].attempts|
    ensures Leads(s, b, s2) && Claims(s2, r) && s2.stream == s1.stream && s2.procs == s1.procs[q := Received(m)]
    decreases todo
  {
    if todo == {} {
      b, s2 := AndThen(s, a, s1, DoResume(q));
    } else {
      var k :| k in todo;
      b, s2 := AndThen(s, a, s1, DoAbandon(q, k));
      b, s2 := DrainTodo(s, b, s2, q, m, todo - {k}, r);
    }
  }

  /** Once it has gone ahead, the run may be claimed. */
  lemma AheadClaims(s: State, p: ProcId, verdicts: seq<bool>)
    requires Inv(s) && GoesAhead(s, p, verdicts)
    ensures var m := s.procs[p].msg; Claims(Ahead(s, p, m), s.stream[m].run) && OneSettling(Ahead(s, p, m), s.stream[m].run)
  {
    var s2, r := Ahead(s, p, s.procs[p].msg), s.stream[s.procs[p].msg].run;
    forall a, b | a in s2.procs && b in s2.procs && Settling(s2.procs[a], r) && Settling(s2.procs[b], r) ensures a == b {
      assert PairOk(s, a, b);
    }
  }

  /** Another process that is not working holds the delivery: in the end it has an attempt and no entry behind it. */
  lemma SharedIsLost(s: State, p: ProcId, verdicts: seq<bool>, q: ProcId) returns (b: seq<Step>, end: State)
    requires Inv(s) && GoesAhead(s, p, verdicts) && Unacked(s, s.procs[p].msg)
    requires q in s.procs && q != p && Holds(s.procs[q], s.procs[p].msg) && !s.procs[q].Working?
    ensures Leads(Inspect(s, p, verdicts), b, end) && Unbacked(end, s.stream[s.procs[p].msg].run)
  {
    var m := s.procs[p].msg;
    var r := s.stream[m].run;
    var s1, s2 := Inspect(s, p, verdicts), Ahead(s, p, m);
    assert PhaseOk(s, q, s.procs[q]);
    AheadClaims(s, p, verdicts);
    b := GoAhead(s, p, verdicts);
    if s.procs[q].Acking? {
      var s3;
      b, s3 := AndThen(s1, b, s2, DoAck(q));
      assert OneSettling(s3, r);
      b, end := ClaimsUnbacked(s1, b, s3, p, m, r);
    } else if s.procs[q].Received? {
      b, end := SharedIsAcked(s1, b, s2, p, q, m, r);
    } else {
      var s3;
      b, s3 := DrainTodo(s1, b, s2, q, m, s.procs[q].todo, r);
      assert OneSettling(s3, r);
      b, end := SharedIsAcked(s1, b, s3, p, q, m, r);
    }
  }

  // The owner of an abandoned attempt goes on with it next to the new one.

  /** It is about to start its attempt. */
  lemma StartsBeside(s: State, a: seq<Step>, s1: State, o: ProcId, r: RunId, k: nat) returns (b: seq<Step>, end: State)
    requires Leads(s, a, s1) && AtStage(s1, o, MarkStarted) && s1.procs[o].run == r && s1.procs[o].attempt != k
    requires k < |s1.jobs[r].attempts| && Unfinished(s1.jobs[r].attempts[k])
    ensures Leads(s, b, end) && Doubled(end, r)
  {
    b, end := AndThen(s, a, s1, DoStarted(o));
    var mine, attempts := s1.procs[o].attempt, end.jobs[r].attempts;
    assert Unfinished(attempts[mine]) && Unfinished(attempts[k]);
  }

  /** It is about to mark the run. */
  lemma MarksBeside(s: State, a: seq<Step>, s1: State, o: ProcId, r: RunId, k: nat) returns (b: seq<Step>, end: State)
    requires Leads(s, a, s1) && AtStage(s1, o, MarkRunning) && s1.procs[o].run == r && s1.procs[o].attempt != k
    requires k < |s1.jobs[r].attempts| && Unfinished(s1.jobs[r].attempts[k])
    ensures Leads(s, b, end) && Doubled(end, r)
  {
    var s2;
    b, s2 := AndThen(s, a, s1, DoRunning(o));
    b, end := StartsBeside(s, b, s2, o, r, k);
  }

  /** It is executing: it succeeds and completes the run, which the new attempt marks Running. */
  lemma CompletesBeside(s: State, a: seq<Step>, s1: State, o: ProcId, p: ProcId, r: RunId)
    returns (b: seq<Step>, mid: State, c: seq<Step>, end: State)
    requires Leads(s, a, s1) && o != p && AtStage(s1, o, Execute) && s1.procs[o].run == r
    requires AtStage(s1, p, MarkRunning) && s1.procs[p].run == r
    ensures Leads(s, b, mid) && Leads(mid, c, end) && Reopened(mid, end, r)
  {
    b, mid := Completes(s, a, s1, o, r);
    assert mid.procs[p] == s1.procs[p];
    Taken(mid, DoRunning(p));
    c, end := [DoRunning(p)], Apply(mid, DoRunning(p));
  }

  lemma Completes(s: State, a: seq<Step>, s1: State, o: ProcId, r: RunId) returns (b: seq<Step>, s2: State)
    requires Leads(s, a, s1) && AtStage(s1, o, Execute) && s1.procs[o].run == r
    ensures Leads(s, b, s2) && o in s2.procs && s2.procs == s1.procs[o := s2.procs[o]]
    ensures r in s2.jobs && s2.jobs[r].row.status == Completed && |s2.jobs[r].attempts| == |s1.jobs[r].attempts|
  {
    b, s2 := AndThen(s, a, s1, DoFinish(o, Success));
    b, s2 := AndThen(s, b, s2, DoCompleted(o));
  }

  /** The attempts the recovery has given up, with a new one claimed behind them. */
  lemma ClaimedBeside(s: State, p: ProcId, verdicts: seq<bool>, o: ProcId) returns (b: seq<Step>, s3: State)
    requires Inv(s) && GoesAhead(s, p, verdicts) && o in s.procs && o != p
    requires s.procs[o].Working? && s.procs[o].run == s.stream[s.procs[p].msg].run && !Settling(s.procs[o], s.procs[o].run)
    ensures Leads(Inspect(s, p, verdicts), b, s3) && p in s3.procs && s3.procs == s.procs[p := s3.procs[p]]
    ensures var r, k := s.procs[o].run, |s.jobs[s.procs[o].run].attempts|;
            && AtStage(s3, p, MarkRunning) && s3.procs[p].run == r && |s3.jobs[r].attempts| == k + 1
            && s3.procs[p].attempt == k && Unfinished(s3.jobs[r].attempts[k])
  {
    var m := s.procs[p].msg;
    var r := s.stream[m].run;
    var s2 := Ahead(s, p, m);
    AheadClaims(s, p, verdicts);
    forall q | q in s2.procs ensures !Settling(s2.procs[q], r) {
      if q != p { assert PairOk(s, q, o); }
    }
    b := GoAhead(s, p, verdicts);
    b, s3 := AndThen(Inspect(s, p, verdicts), b, s2, DoClaim(p));
  }

  /** The owner of an unfinished attempt is not gone, yet the recovery goes ahead. */
  lemma LiveOwnerHarms(s: State, p: ProcId, verdicts: seq<bool>, o: ProcId)
    requires Inv(s) && GoesAhead(s, p, verdicts) && o in s.procs && o != p
    requires s.procs[o].Working? && s.procs[o].run == s.stream[s.procs[p].msg].run && !Settling(s.procs[o], s.procs[o].run)
    ensures Harmed(Inspect(s, p, verdicts))
  {
    var s1, r := Inspect(s, p, verdicts), s.procs[o].run;
    assert PhaseOk(s, o, s.procs[o]);
    var b, s3 := ClaimedBeside(s, p, verdicts, o);
    assert s3.procs[o] == s.procs[o];
    var k := |s.jobs[r].attempts|;
    if s.procs[o].stage == MarkRunning {
      var c, end := MarksBeside(s1, b, s3, o, r, k);
      HarmedBy(s1, c, end);
    } else if s.procs[o].stage == MarkStarted {
      var c, end := StartsBeside(s1, b, s3, o, r, k);
      HarmedBy(s1, c, end);
    } else {
      var c, mid, d, end := CompletesBeside(s1, b, s3, o, p, r);
      assert Broken(mid, end);
    }
  }

  lemma HarmedBy(s: State, a: seq<Step>, end: State)
    requires Leads(s, a, end) && exists r :: Unbacked(end, r) || Doubled(end, r)
    ensures Harmed(s)
  {
    assert Leads(end, [], end);
    assert Broken(end, end);
  }

  lemma UnsafeHarms(s: State, p: ProcId, verdicts: seq<bool>)
    requires Good(s) && CanInspect(s, p, verdicts) && !InspectSafe(s, p, verdicts)
    ensures Harmed(Inspect(s, p, verdicts))
  {
    var m := s.procs[p].msg;
    var r := s.stream[m].run;
    var s1, attempts := Inspect(s, p, verdicts), s.jobs[r].attempts;
    assert GoesAhead(s, p, verdicts);
    if !Unacked(s, m) {
      var t := GoAhead(s, p, verdicts);
      AheadClaims(s, p, verdicts);
      var b, end := ClaimsUnbacked(s1, t, Ahead(s, p, m), p, m, r);
      HarmedBy(s1, b, end);
    } else if k :| 0 <= k < |attempts| && Unfinished(attempts[k]) && !Gone(s, attempts[k].owner) {
      assert Owned(s, r) && PhaseOk(s, attempts[k].owner, s.procs[attempts[k].owner]);
      LiveOwnerHarms(s, p, verdicts, attempts[k].owner);
    } else {
      var q :| q in s.procs && q != p && Holds(s.procs[q], m) && !Settling(s.procs[q], r);
      assert PhaseOk(s, q, s.procs[q]);
      var b, end := SharedIsLost(s, p, verdicts, q);
      HarmedBy(s1, b, end);
    }
  }

  /** From a good state, a recovery decision is harmless if and only if, when it goes ahead with an open run, the delivery
      is not acknowledged, nobody else still acts on it but a worker that has only the run left to finish, and the owners
      of the unfinished attempts are really gone. */
  lemma InspectExact(s: State, p: ProcId, verdicts: seq<bool>)
    requires Good(s) && CanInspect(s, p, verdicts)
    ensures InspectSafe(s, p, verdicts) <==> !Harmed(Inspect(s, p, verdicts))
  {
    if InspectSafe(s, p, verdicts) {
      InspectKeeps(s, p, verdicts);
      GoodIsUnharmed(Inspect(s, p, verdicts));
    } else {
      UnsafeHarms(s, p, verdicts);
    }
  }
}
