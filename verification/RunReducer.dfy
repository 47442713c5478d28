/** internal/events/run_reducer.go: the run projection as a fold over events, and exactly which parts of it do not
    depend on the order in which the events arrive. */
module RunReducer {
  import opened Options
  import opened Permutations

  /** Nanoseconds after Go's zero time, which is 0 and means "not set". */
  type Time = nat

  datatype Status = Pending | Queued | Running | Completed | Failed | Blocked

  /** The event types the reducer tells apart. */
  datatype Kind =
    | TaskCreated | TaskRerunCreated | TaskQueued | TaskStarted | TaskCompleted | TaskFailed | TaskBlocked
    | RecoveryStarted
    | OtherKind(text: string)

  datatype RunEvent = RunEvent(kind: Kind, at: Time)

  function TypeText(kind: Kind): string {
    match kind
    case TaskCreated => "task.created"
    case TaskRerunCreated => "task.rerun_created"
    case TaskQueued => "task.queued"
    case TaskStarted => "task.started"
    case TaskCompleted => "task.completed"
    case TaskFailed => "task.failed"
    case TaskBlocked => "task.blocked"
    case RecoveryStarted => "task.recovery_started"
    case OtherKind(text) => text
  }

  function KindOf(eventType: string): (kind: Kind)
    ensures TypeText(kind) == eventType
  {
    if eventType == "task.created" then TaskCreated
    else if eventType == "task.rerun_created" then TaskRerunCreated
    else if eventType == "task.queued" then TaskQueued
    else if eventType == "task.started" then TaskStarted
    else if eventType == "task.completed" then TaskCompleted
    else if eventType == "task.failed" then TaskFailed
    else if eventType == "task.blocked" then TaskBlocked
    else if eventType == "task.recovery_started" then RecoveryStarted
    else OtherKind(eventType)
  }

  datatype RunProjection = RunProjection(
    status: Option<Status>,
    queuedAt: Time,
    startedAt: Time,
    completedAt: Time,
    lastEventAt: Time,
    recoveryStarted: bool,
    wasReclaimed: bool,
    contradicted: bool,
    note: string)

  const EMPTY := RunProjection(None, 0, 0, 0, 0, false, false, false, "")

  function Rank(s: Option<Status>): nat {
    match s
    case None => 0
    case Some(Pending) => 10
    case Some(Queued) => 20
    case Some(Running) => 30
    case Some(_) => 40
  }

  predicate Terminal(s: Option<Status>) {
    Rank(s) == 40
  }

  predicate Recovery(e: RunEvent) {
    e.kind == RecoveryStarted
  }

  function StatusFor(kind: Kind): Option<Status> {
    match kind
    case TaskCreated => Some(Pending)
    case TaskRerunCreated => Some(Pending)
    case TaskQueued => Some(Queued)
    case TaskStarted => Some(Running)
    case TaskCompleted => Some(Completed)
    case TaskFailed => Some(Failed)
    case TaskBlocked => Some(Blocked)
    case _ => None
  }

  /** The status an event asserts; a recovery asserts none. */
  function Asserts(e: RunEvent): Option<Status> {
    if Recovery(e) then None else StatusFor(e.kind)
  }

  function Earliest(current: Time, at: Time): Time {
    if current == 0 || at < current then at else current
  }

  function StatusText(s: Option<Status>): string {
    match s
    case None => ""
    case Some(Pending) => "Pending"
    case Some(Queued) => "Queued"
    case Some(Running) => "Running"
    case Some(Completed) => "Completed"
    case Some(Failed) => "Failed"
    case Some(Blocked) => "Blocked"
  }

  function TrimTask(kind: string): string {
    if "task." <= kind then kind[5..] else kind
  }

  predicate Contains(text: string, part: string) {
    exists i :: 0 <= i <= |text| && part <= text[i..]
  }

  function AddNote(note: string, part: string): string {
    if Contains(note, part) then note
    else (if note == "" then "" else note + "; ") + part
  }

  /** A second, different terminal status. */
  predicate Clash(cur: Option<Status>, status: Status) {
    Terminal(cur) && Terminal(Some(status)) && cur != Some(status)
  }

  predicate Clashing(cur: Option<Status>, asserted: Option<Status>) {
    asserted.Some? && Clash(cur, asserted.value)
  }

  /** Only ever forward: Pending < Queued < Running < terminal. */
  function Forward(cur: Option<Status>, status: Status): Option<Status> {
    if cur == None then Some(status)
    else if Clash(cur, status) then cur
    else if Rank(Some(status)) > Rank(cur) then Some(status)
    else cur
  }

  function ClashNote(kind: Kind, cur: Option<Status>): string {
    TrimTask(TypeText(kind)) + " after " + StatusText(cur)
  }

  function Moved(cur: RunProjection, kind: Kind, status: Status): RunProjection {
    var next := cur.(status := Forward(cur.status, status));
    if Clash(cur.status, status) then next.(contradicted := true, note := AddNote(cur.note, ClashNote(kind, cur.status)))
    else next
  }

  function Stamped(cur: RunProjection, status: Status, at: Time): (r: RunProjection)
    ensures r == cur.(queuedAt := r.queuedAt, startedAt := r.startedAt, completedAt := r.completedAt)
  {
    match status
    case Queued => cur.(queuedAt := Earliest(cur.queuedAt, at))
    case Running => cur.(startedAt := Earliest(cur.startedAt, at))
    case Completed => cur.(completedAt := Earliest(cur.completedAt, at))
    case Failed => cur.(completedAt := Earliest(cur.completedAt, at))
    case _ => cur
  }

  /** ReduceRun once the event type has been read. */
  function Reduce(cur: RunProjection, at: Time, recovery: bool, asserted: Option<Status>, kind: Kind): RunProjection {
    var seen := if at > cur.lastEventAt then cur.(lastEventAt := at) else cur;
    if recovery then
      var back := seen.(wasReclaimed := true, recoveryStarted := true);
      if Terminal(back.status) then back else back.(status := Some(Queued))
    else
      match asserted
      case None => seen
      case Some(status) => Moved(Stamped(seen, status, at), kind, status)
  }

  function ReduceRun(cur: RunProjection, e: RunEvent): RunProjection {
    Reduce(cur, e.at, Recovery(e), Asserts(e), e.kind)
  }

  /** The events folded one after the other, starting from p. */
  function Fold(p: RunProjection, log: seq<RunEvent>): RunProjection {
    if log == [] then p else ReduceRun(Fold(p, log[..|log| - 1]), log[|log| - 1])
  }

  function Project(log: seq<RunEvent>): RunProjection {
    Fold(EMPTY, log)
  }

  // ---------------------------------------------------------------------------------------------------------
  // What the fold computes, said without the fold
  // ---------------------------------------------------------------------------------------------------------

  ghost predicate Occurs(log: seq<RunEvent>, s: Status) {
    exists e :: e in log && Asserts(e) == Some(s)
  }

  ghost predicate Finished(log: seq<RunEvent>) {
    Occurs(log, Completed) || Occurs(log, Failed) || Occurs(log, Blocked)
  }

  ghost predicate Recovered(log: seq<RunEvent>) {
    exists e :: e in log && Recovery(e)
  }

  /** Two different terminal statuses are claimed. */
  ghost predicate Contradictory(log: seq<RunEvent>) {
    || (Occurs(log, Completed) && Occurs(log, Failed))
    || (Occurs(log, Completed) && Occurs(log, Blocked))
    || (Occurs(log, Failed) && Occurs(log, Blocked))
  }

  lemma OccursGrows(log: seq<RunEvent>, e: RunEvent, s: Status)
    ensures Occurs(log + [e], s) <==> Occurs(log, s) || Asserts(e) == Some(s)
  {
    if Occurs(log, s) {
      var x :| x in log && Asserts(x) == Some(s);
      assert x in log + [e];
    }
    if Asserts(e) == Some(s) {
      assert e in log + [e];
    }
  }

  lemma AllOccur(log: seq<RunEvent>, e: RunEvent)
    ensures forall s :: Occurs(log + [e], s) <==> Occurs(log, s) || Asserts(e) == Some(s)
    ensures Recovered(log + [e]) <==> Recovered(log) || Recovery(e)
  {
    forall s ensures Occurs(log + [e], s) <==> Occurs(log, s) || Asserts(e) == Some(s) {
      OccursGrows(log, e, s);
    }
    if Recovered(log) {
      var x :| x in log && Recovery(x);
      assert x in log + [e];
    }
    if Recovery(e) {
      assert e in log + [e];
    }
  }

  // ---------------------------------------------------------------------------------------------------------
  // One field at a time
  // ---------------------------------------------------------------------------------------------------------

  function NextStatus(cur: Option<Status>, recovery: bool, asserted: Option<Status>): Option<Status> {
    if recovery then (if Terminal(cur) then cur else Some(Queued))
    else if asserted == None then cur
    else Forward(cur, asserted.value)
  }

  function StatusFold(cur: Option<Status>, log: seq<RunEvent>): Option<Status> {
    if log == [] then cur
    else
      var n := |log| - 1;
      NextStatus(StatusFold(cur, log[..n]), Recovery(log[n]), Asserts(log[n]))
  }

  datatype Stamp = QueuedStamp | StartedStamp | CompletedStamp

  function Get(p: RunProjection, f: Stamp): Time {
    match f
    case QueuedStamp => p.queuedAt
    case StartedStamp => p.startedAt
    case CompletedStamp => p.completedAt
  }

  predicate Feeds(f: Stamp, asserted: Option<Status>) {
    match f
    case QueuedStamp => asserted == Some(Queued)
    case StartedStamp => asserted == Some(Running)
    case CompletedStamp => asserted == Some(Completed) || asserted == Some(Failed)
  }

  function StampFold(f: Stamp, cur: Time, log: seq<RunEvent>): Time {
    if log == [] then cur
    else
      var n := |log| - 1;
      var before := StampFold(f, cur, log[..n]);
      if Feeds(f, Asserts(log[n])) then Earliest(before, log[n].at) else before
  }

  lemma StampStep(p: RunProjection, at: Time, recovery: bool, asserted: Option<Status>, kind: Kind, f: Stamp)
    requires recovery ==> asserted == None
    ensures Get(Reduce(p, at, recovery, asserted, kind), f) ==
            if Feeds(f, asserted) then Earliest(Get(p, f), at) else Get(p, f)
  {
  }

  lemma StatusStep(p: RunProjection, at: Time, recovery: bool, asserted: Option<Status>, kind: Kind)
    requires recovery ==> asserted == None
    ensures var p' := Reduce(p, at, recovery, asserted, kind);
            && p'.status == NextStatus(p.status, recovery, asserted)
            && p'.contradicted == (p.contradicted || Clashing(p.status, asserted))
            && p'.note == (if Clashing(p.status, asserted) then AddNote(p.note, ClashNote(kind, p.status)) else p.note)
  {
  }

  lemma FlagStep(p: RunProjection, at: Time, recovery: bool, asserted: Option<Status>, kind: Kind)
    ensures var p' := Reduce(p, at, recovery, asserted, kind);
            && p'.lastEventAt == (if at > p.lastEventAt then at else p.lastEventAt)
            && p'.wasReclaimed == (p.wasReclaimed || recovery)
            && p'.recoveryStarted == (p.recoveryStarted || recovery)
  {
  }

  lemma {:induction false} FieldFolds(p: RunProjection, log: seq<RunEvent>, f: Stamp)
    ensures Fold(p, log).status == StatusFold(p.status, log)
    ensures Get(Fold(p, log), f) == StampFold(f, Get(p, f), log)
  {
    if log != [] {
      var n := |log| - 1;
      FieldFolds(p, log[..n], f);
      StampStep(Fold(p, log[..n]), log[n].at, Recovery(log[n]), Asserts(log[n]), log[n].kind, f);
      StatusStep(Fold(p, log[..n]), log[n].at, Recovery(log[n]), Asserts(log[n]), log[n].kind);
    }
  }

  lemma {:induction false} FoldConcat(p: RunProjection, a: seq<RunEvent>, b: seq<RunEvent>)
    ensures Fold(p, a + b) == Fold(Fold(p, a), b)
  {
    if b == [] {
      assert a + b == a;
    } else {
      var n := |b| - 1;
      FoldConcat(p, a, b[..n]);
      assert (a + b)[..|a + b| - 1] == a + b[..n];
    }
  }

  // ---------------------------------------------------------------------------------------------------------
  // Flags, finality, contradiction and the latest event: order-free for every log
  // ---------------------------------------------------------------------------------------------------------

  predicate FactsAre(p: RunProjection, completed: bool, failed: bool, blocked: bool, recovered: bool) {
    // One value, so that a failed proof names the predicate and not each of its parts.
    var good :=
      && (Terminal(p.status) <==> completed || failed || blocked)
      && (p.contradicted <==> (completed && failed) || (completed && blocked) || (failed && blocked))
      && (p.wasReclaimed <==> recovered) && (p.recoveryStarted <==> recovered)
      && (p.status == Some(Completed) ==> completed) && (p.status == Some(Failed) ==> failed)
      && (p.status == Some(Blocked) ==> blocked);
    good
  }

  lemma FactsStep(p: RunProjection, at: Time, recovery: bool, asserted: Option<Status>, kind: Kind,
                  completed: bool, failed: bool, blocked: bool, recovered: bool)
    requires FactsAre(p, completed, failed, blocked, recovered) && (recovery ==> asserted == None)
    ensures FactsAre(Reduce(p, at, recovery, asserted, kind), completed || asserted == Some(Completed),
                     failed || asserted == Some(Failed), blocked || asserted == Some(Blocked), recovered || recovery)
  {
    StatusStep(p, at, recovery, asserted, kind);
    FlagStep(p, at, recovery, asserted, kind);
  }

  /** Flags, finality and contradiction depend only on which events occur. */
  lemma {:induction false} Facts(log: seq<RunEvent>)
    ensures FactsAre(Project(log), Occurs(log, Completed), Occurs(log, Failed), Occurs(log, Blocked), Recovered(log))
  {
    if log != [] {
      var n := |log| - 1;
      var e := log[n];
      Facts(log[..n]);
      assert log == log[..n] + [e];
      AllOccur(log[..n], e);
      FactsStep(Project(log[..n]), e.at, Recovery(e), Asserts(e), e.kind,
                Occurs(log[..n], Completed), Occurs(log[..n], Failed), Occurs(log[..n], Blocked), Recovered(log[..n]));
    }
  }

  ghost predicate IsLatest(log: seq<RunEvent>, t: Time) {
    && (forall e :: e in log ==> e.at <= t)
    && (t == 0 || exists e :: e in log && e.at == t)
  }

  lemma {:induction false} Latest(log: seq<RunEvent>)
    ensures IsLatest(log, Project(log).lastEventAt)
  {
    if log != [] {
      var n := |log| - 1;
      var e := log[n];
      Latest(log[..n]);
      FlagStep(Project(log[..n]), e.at, Recovery(e), Asserts(e), e.kind);
      assert log == log[..n] + [e];
      if Project(log[..n]).lastEventAt != 0 {
        var x :| x in log[..n] && x.at == Project(log[..n]).lastEventAt;
        assert x in log;
      }
    }
  }

  /** For every log: the flags, "is terminal", Contradicted and the latest time are the same for every arrival
      order, and Contradicted says exactly that two different terminal statuses occur. */
  lemma OrderFreeFacts(a: seq<RunEvent>, b: seq<RunEvent>)
    requires Permutes(a, b)
    ensures var p, q := Project(a), Project(b);
            && p.wasReclaimed == q.wasReclaimed && p.recoveryStarted == q.recoveryStarted
            && p.contradicted == q.contradicted && (Terminal(p.status) <==> Terminal(q.status))
            && p.lastEventAt == q.lastEventAt
    ensures Project(a).contradicted <==> Contradictory(a)
    ensures Terminal(Project(a).status) <==> Finished(a)
  {
    SameMembers(a, b);
    Facts(a);
    Facts(b);
    Latest(a);
    Latest(b);
    forall s ensures Occurs(a, s) <==> Occurs(b, s) {
    }
  }

  // ---------------------------------------------------------------------------------------------------------
  // Timestamps
  // ---------------------------------------------------------------------------------------------------------

  ghost predicate FedAtZero(f: Stamp, log: seq<RunEvent>) {
    exists e :: e in log && Feeds(f, Asserts(e)) && e.at == 0
  }

  ghost predicate FedLater(f: Stamp, log: seq<RunEvent>) {
    exists e :: e in log && Feeds(f, Asserts(e)) && e.at != 0
  }

  ghost predicate IsFirst(f: Stamp, log: seq<RunEvent>, t: Time) {
    && (forall e :: e in log && Feeds(f, Asserts(e)) ==> t <= e.at)
    && (t == 0 ==> !FedLater(f, log))
    && (t != 0 ==> exists e :: e in log && Feeds(f, Asserts(e)) && e.at == t)
  }

  /** Unless unset and set times are mixed, a timestamp is the earliest time among its events. */
  lemma {:induction false} Earliests(f: Stamp, log: seq<RunEvent>)
    requires !FedAtZero(f, log) || !FedLater(f, log)
    ensures IsFirst(f, log, StampFold(f, 0, log))
  {
    if log != [] {
      var n := |log| - 1;
      var e := log[n];
      var before := log[..n];
      assert log == before + [e];
      assert FedAtZero(f, before) ==> FedAtZero(f, log);
      assert FedLater(f, before) ==> FedLater(f, log);
      Earliests(f, before);
      var t := StampFold(f, 0, before);
      if t != 0 {
        var x :| x in before && Feeds(f, Asserts(x)) && x.at == t;
        assert x in log;
      }
      if Feeds(f, Asserts(e)) { assert e in log; }
    }
  }

  lemma StampSnoc(f: Stamp, cur: Time, log: seq<RunEvent>, e: RunEvent)
    ensures StampFold(f, cur, log + [e]) ==
            if Feeds(f, Asserts(e)) then Earliest(StampFold(f, cur, log), e.at) else StampFold(f, cur, log)
  {
    assert (log + [e])[..|log|] == log;
  }

  ghost predicate StampOrderFree(f: Stamp, log: seq<RunEvent>) {
    forall other :: Permutes(log, other) ==> Get(Project(other), f) == Get(Project(log), f)
  }

  /** The zero time put last leaves the column unset; a set time put right after it leaves that time. */
  lemma StampMixed(f: Stamp, log: seq<RunEvent>) returns (a: seq<RunEvent>, b: seq<RunEvent>)
    requires FedAtZero(f, log) && FedLater(f, log)
    ensures Permutes(log, a) && Permutes(log, b)
    ensures StampFold(f, 0, a) != StampFold(f, 0, b)
  {
    var z :| z in log && Feeds(f, Asserts(z)) && z.at == 0;
    var x :| x in log && Feeds(f, Asserts(x)) && x.at != 0;
    var most, rest := TakeOutTwo(log, z, x);
    a := most + [z];
    b := rest + [z] + [x];
    StampEnds(f, most, rest, z, x);
  }

  lemma StampEnds(f: Stamp, most: seq<RunEvent>, rest: seq<RunEvent>, z: RunEvent, x: RunEvent)
    requires Feeds(f, Asserts(z)) && z.at == 0 && Feeds(f, Asserts(x))
    ensures StampFold(f, 0, most + [z]) == 0 && StampFold(f, 0, rest + [z] + [x]) == x.at
  {
    StampSnoc(f, 0, most, z);
    StampSnoc(f, 0, rest, z);
    StampSnoc(f, 0, rest + [z], x);
  }

  lemma StampSame(f: Stamp, log: seq<RunEvent>, other: seq<RunEvent>)
    requires Permutes(log, other) && !(FedAtZero(f, log) && FedLater(f, log))
    ensures StampFold(f, 0, other) == StampFold(f, 0, log)
  {
    SameMembers(log, other);
    Earliests(f, log);
    Earliests(f, other);
  }

  lemma StampOf(f: Stamp, log: seq<RunEvent>)
    ensures Get(Project(log), f) == StampFold(f, 0, log)
  {
    FieldFolds(EMPTY, log, f);
  }

  /** queued_at, started_at and completed_at are the same for every arrival order exactly when the log does not mix
      an event with the zero time and one with a set time for that column. */
  lemma StampExact(f: Stamp, log: seq<RunEvent>)
    ensures StampOrderFree(f, log) <==> !(FedAtZero(f, log) && FedLater(f, log))
  {
    if FedAtZero(f, log) && FedLater(f, log) {
      var a, b := StampMixed(f, log);
      StampOf(f, a);
      StampOf(f, b);
      assert Get(Project(a), f) != Get(Project(b), f);
    } else {
      forall other | Permutes(log, other) ensures Get(Project(other), f) == Get(Project(log), f) {
        StampSame(f, log, other);
        StampOf(f, log);
        StampOf(f, other);
      }
    }
  }

  // ---------------------------------------------------------------------------------------------------------
  // Status
  // ---------------------------------------------------------------------------------------------------------

  /** A terminal status stays through any further events. */
  lemma {:induction false} TerminalSticks(cur: Option<Status>, log: seq<RunEvent>)
    requires Terminal(cur)
    ensures StatusFold(cur, log) == cur
  {
    if log != [] {
      TerminalSticks(cur, log[..|log| - 1]);
    }
  }

  lemma {:induction false} StatusConcat(cur: Option<Status>, a: seq<RunEvent>, b: seq<RunEvent>)
    ensures StatusFold(cur, a + b) == StatusFold(StatusFold(cur, a), b)
  {
    if b == [] {
      assert a + b == a;
    } else {
      StatusConcat(cur, a, b[..|b| - 1]);
      assert (a + b)[..|a + b| - 1] == a + b[..|b| - 1];
    }
  }

  /** The status of a log with no terminal event, in closed form. */
  ghost function OpenStatus(log: seq<RunEvent>): Option<Status> {
    if Recovered(log) then Some(Queued)
    else if Occurs(log, Running) then Some(Running)
    else if Occurs(log, Queued) then Some(Queued)
    else if Occurs(log, Pending) then Some(Pending)
    else None
  }

  lemma {:induction false} OpenLog(log: seq<RunEvent>)
    requires !Finished(log) && !(Recovered(log) && Occurs(log, Running))
    ensures StatusFold(None, log) == OpenStatus(log)
  {
    if log != [] {
      var n := |log| - 1;
      assert log == log[..n] + [log[n]];
      AllOccur(log[..n], log[n]);
      OpenLog(log[..n]);
    }
  }

  ghost predicate StatusOrderFree(log: seq<RunEvent>) {
    forall other :: Permutes(log, other) ==> Project(other).status == Project(log).status
  }

  /** The events for which the final status depends on their order. */
  ghost predicate OrderSensitive(log: seq<RunEvent>) {
    Contradictory(log) || (Recovered(log) && Occurs(log, Running) && !Finished(log))
  }

  lemma FirstTerminalWins(log: seq<RunEvent>, e: RunEvent) returns (other: seq<RunEvent>)
    requires e in log && Terminal(Asserts(e))
    ensures Permutes(log, other) && Project(other).status == Asserts(e)
  {
    var rest := TakeOut(log, e);
    other := [e] + rest;
    FieldFolds(EMPTY, other, QueuedStamp);
    StatusConcat(None, [e], rest);
    assert [e][..0] == [];
    assert StatusFold(None, [e][..0]) == None;
    TerminalSticks(StatusFold(None, [e]), rest);
  }

  lemma TwoTerminals(log: seq<RunEvent>) returns (x: RunEvent, y: RunEvent)
    requires Contradictory(log)
    ensures x in log && y in log && Terminal(Asserts(x)) && Terminal(Asserts(y)) && Asserts(x) != Asserts(y)
  {
    if Occurs(log, Completed) {
      x :| x in log && Asserts(x) == Some(Completed);
      if Occurs(log, Failed) {
        y :| y in log && Asserts(y) == Some(Failed);
      } else {
        y :| y in log && Asserts(y) == Some(Blocked);
      }
    } else {
      x :| x in log && Asserts(x) == Some(Failed);
      y :| y in log && Asserts(y) == Some(Blocked);
    }
  }

  /** A recovery put last leaves the run Queued; a start put after it leaves it Running. */
  lemma RecoveryOrRunning(log: seq<RunEvent>) returns (a: seq<RunEvent>, b: seq<RunEvent>)
    requires Recovered(log) && Occurs(log, Running) && !Finished(log)
    ensures Permutes(log, a) && Permutes(log, b)
    ensures Project(a).status == Some(Queued) && Project(b).status == Some(Running)
  {
    var r :| r in log && Recovery(r);
    var x :| x in log && Asserts(x) == Some(Running);
    var most, rest := TakeOutTwo(log, r, x);
    a := most + [r];
    b := rest + [r] + [x];
    SameMembers(log, a);
    RecoveryLast(most, r);
    RecoveryLast(rest, r);
    StatusOf(b);
    assert b[..|b| - 1] == rest + [r];
  }

  lemma RecoveryLast(log: seq<RunEvent>, r: RunEvent)
    requires Recovery(r) && !Finished(log)
    ensures StatusFold(None, log + [r]) == Project(log + [r]).status == Some(Queued)
  {
    StatusOf(log);
    StatusOf(log + [r]);
    assert (log + [r])[..|log|] == log;
  }

  lemma StatusOf(log: seq<RunEvent>)
    ensures Project(log).status == StatusFold(None, log)
    ensures Terminal(StatusFold(None, log)) <==> Finished(log)
    ensures StatusFold(None, log) == Some(Completed) ==> Occurs(log, Completed)
    ensures StatusFold(None, log) == Some(Failed) ==> Occurs(log, Failed)
    ensures StatusFold(None, log) == Some(Blocked) ==> Occurs(log, Blocked)
  {
    FieldFolds(EMPTY, log, QueuedStamp);
    Facts(log);
  }

  lemma OccursSame(log: seq<RunEvent>, other: seq<RunEvent>)
    requires Permutes(log, other)
    ensures forall s :: Occurs(log, s) <==> Occurs(other, s)
    ensures Recovered(log) <==> Recovered(other)
  {
    SameMembers(log, other);
    forall s ensures Occurs(log, s) <==> Occurs(other, s) {
    }
  }

  /** The status of a finished log that does not contradict itself. */
  lemma ClosedLog(log: seq<RunEvent>)
    requires Finished(log) && !Contradictory(log)
    ensures StatusFold(None, log) ==
            if Occurs(log, Completed) then Some(Completed) else if Occurs(log, Failed) then Some(Failed) else Some(Blocked)
  {
    StatusOf(log);
    OnlyOne(StatusFold(None, log), Occurs(log, Completed), Occurs(log, Failed), Occurs(log, Blocked));
  }

  lemma OnlyOne(s: Option<Status>, completed: bool, failed: bool, blocked: bool)
    requires Terminal(s) && !(completed && failed) && !(completed && blocked) && !(failed && blocked)
    requires (s == Some(Completed) ==> completed) && (s == Some(Failed) ==> failed) && (s == Some(Blocked) ==> blocked)
    ensures s == if completed then Some(Completed) else if failed then Some(Failed) else Some(Blocked)
  {
  }

  lemma StatusSame(log: seq<RunEvent>, other: seq<RunEvent>)
    requires Permutes(log, other) && !OrderSensitive(log)
    ensures StatusFold(None, other) == StatusFold(None, log)
  {
    OccursSame(log, other);
    if Finished(log) {
      ClosedLog(log);
      ClosedLog(other);
    } else {
      OpenLog(log);
      OpenLog(other);
    }
  }

  /** current_status is the same for every arrival order exactly when the log is not order-sensitive. */
  lemma StatusExact(log: seq<RunEvent>)
    ensures StatusOrderFree(log) <==> !OrderSensitive(log)
  {
    if Contradictory(log) {
      var x, y := TwoTerminals(log);
      var a := FirstTerminalWins(log, x);
      var b := FirstTerminalWins(log, y);
      assert Project(a).status != Project(b).status;
    } else if OrderSensitive(log) {
      var a, b := RecoveryOrRunning(log);
      assert Project(a).status != Project(b).status;
    } else {
      forall other | Permutes(log, other) ensures Project(other).status == Project(log).status {
        StatusSame(log, other);
        StatusOf(log);
        StatusOf(other);
      }
    }
  }

  // ---------------------------------------------------------------------------------------------------------
  // Applying a log again
  // ---------------------------------------------------------------------------------------------------------

  lemma ContainsInside(head: string, part: string, tail: string)
    ensures Contains(head + part + tail, part)
  {
    assert (head + part + tail)[|head|..] == part + tail;
  }

  lemma ContainsAdded(note: string, part: string, old_: string)
    ensures Contains(AddNote(note, part), part)
    ensures Contains(note, old_) ==> Contains(AddNote(note, part), old_)
  {
    if !Contains(note, part) {
      var head := if note == "" then "" else note + "; ";
      ContainsInside(head, part, "");
      assert head + part + "" == AddNote(note, part);
      if Contains(note, old_) {
        StillContained(note, old_, (if note == "" then "" else "; ") + part);
        assert note + ((if note == "" then "" else "; ") + part) == AddNote(note, part);
      }
    }
  }

  lemma StillContained(note: string, part: string, tail: string)
    requires Contains(note, part)
    ensures Contains(note + tail, part)
  {
    var i :| 0 <= i <= |note| && part <= note[i..];
    var rest := note[i..][|part|..];
    assert note == note[..i] + part + rest;
    ContainsInside(note[..i], part, rest + tail);
    assert note[..i] + part + (rest + tail) == note + tail;
  }

  /** Every contradicting event of a log is in its note. */
  ghost predicate Noted(log: seq<RunEvent>, p: RunProjection) {
    Terminal(p.status) ==>
      forall e :: e in log && Clashing(p.status, Asserts(e)) ==> Contains(p.note, ClashNote(e.kind, p.status))
  }

  lemma {:induction false} NotesComplete(log: seq<RunEvent>)
    ensures Noted(log, Project(log))
  {
    if log != [] {
      var n := |log| - 1;
      var e := log[n];
      var before, p, p' := log[..n], Project(log[..n]), Project(log);
      assert log == before + [e];
      NotesComplete(before);
      Facts(before);
      StatusStep(p, e.at, Recovery(e), Asserts(e), e.kind);
      forall x | x in log && Terminal(p'.status) && Clashing(p'.status, Asserts(x))
        ensures Contains(p'.note, ClashNote(x.kind, p'.status))
      {
        if Terminal(p.status) {
          ContainsAdded(p.note, ClashNote(e.kind, p.status), ClashNote(x.kind, p.status));
        } else if x in before {
          NotTerminalYet(before, x);
        }
      }
    }
  }

  lemma NotTerminalYet(log: seq<RunEvent>, x: RunEvent)
    requires x in log && !Terminal(Project(log).status)
    ensures !Terminal(Asserts(x))
  {
    if Asserts(x).Some? {
      assert Occurs(log, Asserts(x).value);
    }
    Facts(log);
  }

  /** A zero time erases what was there before, so the start no longer matters. */
  lemma {:induction false} StampForgets(f: Stamp, c: Time, d: Time, log: seq<RunEvent>)
    requires FedAtZero(f, log)
    ensures StampFold(f, c, log) == StampFold(f, d, log)
  {
    var n := |log| - 1;
    assert log == log[..n] + [log[n]];
    if !(Feeds(f, Asserts(log[n])) && log[n].at == 0) {
      assert FedAtZero(f, log[..n]);
      StampForgets(f, c, d, log[..n]);
    }
  }

  lemma {:induction false} StampSaturated(f: Stamp, c: Time, log: seq<RunEvent>)
    requires forall e :: e in log && Feeds(f, Asserts(e)) ==> 0 < c <= e.at
    ensures StampFold(f, c, log) == c
  {
    if log != [] {
      var n := |log| - 1;
      assert log == log[..n] + [log[n]];
      StampSaturated(f, c, log[..n]);
    }
  }

  lemma StampAgain(f: Stamp, log: seq<RunEvent>)
    ensures StampFold(f, StampFold(f, 0, log), log) == StampFold(f, 0, log)
  {
    if FedAtZero(f, log) {
      StampForgets(f, StampFold(f, 0, log), 0, log);
    } else {
      Earliests(f, log);
      StampSaturated(f, StampFold(f, 0, log), log);
    }
  }

  /** After a recovery the earlier open status no longer matters. */
  lemma {:induction false} RecoveryForgets(c: Option<Status>, d: Option<Status>, log: seq<RunEvent>)
    requires Recovered(log) && !Finished(log) && !Terminal(c) && !Terminal(d)
    ensures StatusFold(c, log) == StatusFold(d, log)
  {
    var n := |log| - 1;
    assert log == log[..n] + [log[n]];
    AllOccur(log[..n], log[n]);
    StaysOpen(c, log[..n]);
    StaysOpen(d, log[..n]);
    if !Recovery(log[n]) {
      RecoveryForgets(c, d, log[..n]);
    }
  }

  lemma {:induction false} StaysOpen(c: Option<Status>, log: seq<RunEvent>)
    requires !Finished(log) && !Terminal(c)
    ensures !Terminal(StatusFold(c, log))
  {
    if log != [] {
      var n := |log| - 1;
      assert log == log[..n] + [log[n]];
      AllOccur(log[..n], log[n]);
      StaysOpen(c, log[..n]);
    }
  }

  lemma {:induction false} StatusSaturated(c: Option<Status>, log: seq<RunEvent>)
    requires !Recovered(log)
    requires forall e :: e in log && Asserts(e).Some? ==> c != None && Rank(Asserts(e)) <= Rank(c)
    ensures StatusFold(c, log) == c
  {
    if log != [] {
      var n := |log| - 1;
      assert log == log[..n] + [log[n]];
      AllOccur(log[..n], log[n]);
      StatusSaturated(c, log[..n]);
    }
  }

  lemma StatusAgain(log: seq<RunEvent>)
    ensures StatusFold(StatusFold(None, log), log) == StatusFold(None, log)
  {
    var c := StatusFold(None, log);
    FieldFolds(EMPTY, log, QueuedStamp);
    Facts(log);
    if Terminal(c) {
      TerminalSticks(c, log);
    } else if Recovered(log) {
      RecoveryForgets(c, None, log);
    } else {
      OpenLog(log);
      forall e | e in log && Asserts(e).Some? ensures c != None && Rank(Asserts(e)) <= Rank(c) {
        assert Occurs(log, Asserts(e).value);
      }
      StatusSaturated(c, log);
    }
  }

  /** p and q differ at most in the status, before it is terminal, and in the three timestamps. */
  predicate OnlyProgress(p: RunProjection, q: RunProjection) {
    && q == p.(status := q.status, queuedAt := q.queuedAt, startedAt := q.startedAt, completedAt := q.completedAt)
    && (Terminal(p.status) ==> q.status == p.status)
    && (!Terminal(p.status) ==> !Terminal(q.status))
  }

  /** What a projection has already taken in from an event. */
  ghost predicate Absorbed(p: RunProjection, e: RunEvent) {
    && e.at <= p.lastEventAt
    && (Recovery(e) ==> p.wasReclaimed && p.recoveryStarted)
    && (Terminal(Asserts(e)) ==> Terminal(p.status))
    && (Clashing(p.status, Asserts(e)) ==> p.contradicted && Contains(p.note, ClashNote(e.kind, p.status)))
  }

  lemma AllAbsorbed(log: seq<RunEvent>, e: RunEvent)
    requires e in log
    ensures Absorbed(Project(log), e)
  {
    Latest(log);
    FlagsAbsorbed(log, e);
    NotesComplete(log);
    ClashAbsorbed(log, e);
  }

  lemma FlagsAbsorbed(log: seq<RunEvent>, e: RunEvent)
    requires e in log
    ensures var p := Project(log);
            && (Recovery(e) ==> p.wasReclaimed && p.recoveryStarted)
            && (Terminal(Asserts(e)) ==> Terminal(p.status))
  {
    if Recovery(e) { assert Recovered(log); }
    if Asserts(e).Some? { assert Occurs(log, Asserts(e).value); }
    Facts(log);
  }

  lemma ClashAbsorbed(log: seq<RunEvent>, e: RunEvent)
    requires e in log
    ensures Clashing(Project(log).status, Asserts(e)) ==> Project(log).contradicted
  {
    if Asserts(e).Some? { assert Occurs(log, Asserts(e).value); }
    Facts(log);
  }

  lemma AbsorbedAgain(p: RunProjection, q: RunProjection, e: RunEvent)
    requires OnlyProgress(p, q) && Absorbed(p, e)
    ensures OnlyProgress(p, ReduceRun(q, e))
  {
    StatusStep(q, e.at, Recovery(e), Asserts(e), e.kind);
    FlagStep(q, e.at, Recovery(e), Asserts(e), e.kind);
  }

  /** Replaying part of a log over its own projection touches only the status and the three timestamps. */
  lemma {:induction false} RestUnchanged(log: seq<RunEvent>, n: nat)
    requires n <= |log|
    ensures OnlyProgress(Project(log), Fold(Project(log), log[..n]))
  {
    if n > 0 {
      assert log[..n][..n - 1] == log[..n - 1];
      RestUnchanged(log, n - 1);
      AllAbsorbed(log, log[n - 1]);
      AbsorbedAgain(Project(log), Fold(Project(log), log[..n - 1]), log[n - 1]);
    }
  }

  /** Folding a log and then the same log again is folding it once: nothing in the record changes. */
  lemma Idempotent(log: seq<RunEvent>)
    ensures Project(log + log) == Project(log)
  {
    var p := Project(log);
    FoldConcat(EMPTY, log, log);
    RestUnchanged(log, |log|);
    assert log[..|log|] == log;
    StatusAgain(log);
    forall f: Stamp ensures Get(Fold(p, log), f) == Get(p, f) && Fold(p, log).status == p.status {
      FieldFolds(EMPTY, log, f);
      FieldFolds(p, log, f);
      StampAgain(f, log);
    }
    assert Get(Fold(p, log), QueuedStamp) == Get(p, QueuedStamp);
    assert Get(Fold(p, log), StartedStamp) == Get(p, StartedStamp);
    assert Get(Fold(p, log), CompletedStamp) == Get(p, CompletedStamp);
  }

  // ---------------------------------------------------------------------------------------------------------
  // The note, and the whole record
  // ---------------------------------------------------------------------------------------------------------

  predicate EndsWith(text: string, tail: string) {
    |tail| <= |text| && text[|text| - |tail|..] == tail
  }

  lemma EndsLonger(head: string, text: string, tail: string)
    requires EndsWith(text, tail)
    ensures EndsWith(head + text, tail)
  {
    assert (head + text)[|head + text| - |tail|..] == text[|text| - |tail|..];
  }

  /** A note is written exactly for a contradiction, and names the kept status last. */
  ghost predicate NoteFits(p: RunProjection) {
    if p.contradicted then p.note != "" && Terminal(p.status) && EndsWith(p.note, StatusText(p.status)) else p.note == ""
  }

  lemma ClashNoteEnds(kind: Kind, s: Option<Status>)
    ensures ClashNote(kind, s) != "" && EndsWith(ClashNote(kind, s), StatusText(s))
  {
    EndsLonger(TrimTask(TypeText(kind)) + " after ", StatusText(s), StatusText(s));
  }

  lemma NoteGrows(p: RunProjection, kind: Kind)
    requires NoteFits(p) && Terminal(p.status)
    ensures var note := AddNote(p.note, ClashNote(kind, p.status)); note != "" && EndsWith(note, StatusText(p.status))
  {
    var part := ClashNote(kind, p.status);
    ClashNoteEnds(kind, p.status);
    if !Contains(p.note, part) {
      EndsLonger(if p.note == "" then "" else p.note + "; ", part, StatusText(p.status));
    }
  }

  lemma NoteStep(p: RunProjection, at: Time, recovery: bool, asserted: Option<Status>, kind: Kind)
    requires NoteFits(p) && (recovery ==> asserted == None)
    ensures NoteFits(Reduce(p, at, recovery, asserted, kind))
  {
    StatusStep(p, at, recovery, asserted, kind);
    if Clashing(p.status, asserted) {
      NoteGrows(p, kind);
    }
  }

  lemma {:induction false} NoteAlwaysFits(log: seq<RunEvent>)
    ensures NoteFits(Project(log))
  {
    if log != [] {
      var n := |log| - 1;
      NoteAlwaysFits(log[..n]);
      NoteStep(Project(log[..n]), log[n].at, Recovery(log[n]), Asserts(log[n]), log[n].kind);
    }
  }

  lemma DifferentEnds(text: string, a: Option<Status>, b: Option<Status>)
    requires Terminal(a) && Terminal(b) && a != b && EndsWith(text, StatusText(a))
    ensures !EndsWith(text, StatusText(b))
  {
    FifthFromTheEnd(text, StatusText(a));
    FifthFromTheEnd(text, StatusText(b));
  }

  lemma FifthFromTheEnd(text: string, tail: string)
    requires |tail| >= 5
    ensures EndsWith(text, tail) ==> text[|text| - 5] == tail[|tail| - 5]
  {
  }

  ghost predicate NoteOrderFree(log: seq<RunEvent>) {
    forall other :: Permutes(log, other) ==> Project(other).note == Project(log).note
  }

  lemma TwoNotes(log: seq<RunEvent>) returns (a: seq<RunEvent>, b: seq<RunEvent>)
    requires Contradictory(log)
    ensures Permutes(log, a) && Permutes(log, b) && Project(a).note != Project(b).note
  {
    var x, y := TwoTerminals(log);
    a := FirstTerminalWins(log, x);
    b := FirstTerminalWins(log, y);
    OrderFreeFacts(log, a);
    OrderFreeFacts(log, b);
    NoteAlwaysFits(a);
    NoteAlwaysFits(b);
    DifferentEnds(Project(a).note, Project(a).status, Project(b).status);
  }

  /** contradiction_note is the same for every arrival order exactly when no two different terminal statuses occur. */
  lemma NoteExact(log: seq<RunEvent>)
    ensures NoteOrderFree(log) <==> !Contradictory(log)
  {
    if Contradictory(log) {
      var a, b := TwoNotes(log);
    } else {
      forall other | Permutes(log, other) ensures Project(other).note == Project(log).note {
        OrderFreeFacts(log, other);
        NoteAlwaysFits(log);
        NoteAlwaysFits(other);
      }
    }
  }

  /** The same record for every arrival order. */
  ghost predicate OrderFree(log: seq<RunEvent>) {
    forall other :: Permutes(log, other) ==> Project(other) == Project(log)
  }

  ghost predicate MixesTimes(log: seq<RunEvent>) {
    exists f: Stamp :: FedAtZero(f, log) && FedLater(f, log)
  }

  lemma SameRecord(log: seq<RunEvent>, other: seq<RunEvent>)
    requires Permutes(log, other) && !OrderSensitive(log) && !MixesTimes(log)
    ensures Project(other) == Project(log)
  {
    OrderFreeFacts(log, other);
    StatusExact(log);
    NoteExact(log);
    forall f: Stamp ensures Get(Project(other), f) == Get(Project(log), f) {
      StampExact(f, log);
    }
    assert Get(Project(other), QueuedStamp) == Get(Project(log), QueuedStamp);
    assert Get(Project(other), StartedStamp) == Get(Project(log), StartedStamp);
    assert Get(Project(other), CompletedStamp) == Get(Project(log), CompletedStamp);
  }

  /** The comment over ReduceRun made exact: the whole projection is the same for every arrival order if and only if no two
      different terminal statuses occur, a recovery does not meet a start without a terminal, and no column mixes a zero
      with a set time. */
  lemma ProjectionExact(log: seq<RunEvent>)
    ensures OrderFree(log) <==> !OrderSensitive(log) && !MixesTimes(log)
  {
    if OrderFree(log) {
      StatusExact(log);
      forall f: Stamp ensures !(FedAtZero(f, log) && FedLater(f, log)) {
        StampExact(f, log);
      }
    }
    if !OrderSensitive(log) && !MixesTimes(log) {
      forall other | Permutes(log, other) ensures Project(other) == Project(log) {
        SameRecord(log, other);
      }
    }
  }
}
