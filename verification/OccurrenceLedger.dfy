/** internal/events/schedule_projection.go, ReduceOccurrence: the ledger row of one schedule occurrence as a fold over
    its events, and exactly which columns do not depend on the order of arrival. */
module OccurrenceLedger {
  import opened Options
  import opened Permutations
  import opened ScheduleTimes

  datatype Kind = Due | RunCreated | Skip | AttemptStarted

  datatype ScheduleEvent = ScheduleEvent(kind: Kind, at: Time, scheduleId: string, occurrenceId: string, runId: string)

  datatype Outcome = Unset | IsDue | IsCreated | IsSkipped

  /** Lateness is kept in nanoseconds. */
  datatype Row = Row(
    scheduleId: string,
    occurrenceId: string,
    expectedAt: Time,
    outcome: Outcome,
    runId: string,
    recordedAt: Time,
    lastEventAt: Time,
    creationLateness: Option<nat>,
    startLateness: Option<nat>)

  const EMPTY := Row("", "", 0, Unset, "", 0, 0, None, None)

  function Lateness(at: Time, expected: Time): nat {
    if at < expected then 0 else at - expected
  }

  predicate RunBearing(e: ScheduleEvent) {
    e.kind == RunCreated || e.kind == AttemptStarted
  }

  function NextRecorded(cur: Time, at: Time): Time {
    if cur == 0 || at < cur then at else cur
  }

  function NextOutcome(cur: Outcome, kind: Kind): Outcome {
    match kind
    case Due => if cur == Unset then IsDue else cur
    case Skip => if cur == Unset || cur == IsDue then IsSkipped else cur
    case _ => if cur == Unset || cur == IsDue then IsCreated else cur
  }

  /** ReduceOccurrence once the occurrence id has been read. */
  function Reduce(cur: Row, e: ScheduleEvent, parsed: Option<Time>): Row {
    var next := cur.(
      scheduleId := if cur.scheduleId == "" then e.scheduleId else cur.scheduleId,
      occurrenceId := if cur.occurrenceId == "" then e.occurrenceId else cur.occurrenceId,
      expectedAt := if cur.expectedAt == 0 && parsed.Some? then parsed.value else cur.expectedAt,
      recordedAt := NextRecorded(cur.recordedAt, e.at),
      lastEventAt := if e.at > cur.lastEventAt then e.at else cur.lastEventAt,
      outcome := NextOutcome(cur.outcome, e.kind));
    if RunBearing(e) && next.outcome == IsCreated then
      var named := if next.runId == "" then next.(runId := e.runId) else next;
      if e.kind == RunCreated && named.creationLateness == None then
        named.(creationLateness := Some(Lateness(e.at, named.expectedAt)))
      else if e.kind == AttemptStarted && named.startLateness == None then
        named.(startLateness := Some(Lateness(e.at, named.expectedAt)))
      else named
    else next
  }

  function ReduceOccurrence(cur: Row, e: ScheduleEvent): Row {
    Reduce(cur, e, ExpectedFromOccurrenceId(e.occurrenceId))
  }

  function Fold(p: Row, log: seq<ScheduleEvent>): Row {
    if log == [] then p else ReduceOccurrence(Fold(p, log[..|log| - 1]), log[|log| - 1])
  }

  function Ledger(log: seq<ScheduleEvent>): Row {
    Fold(EMPTY, log)
  }

  // ---------------------------------------------------------------------------------------------------------
  // Each column on its own
  // ---------------------------------------------------------------------------------------------------------

  function OutcomeOf(log: seq<ScheduleEvent>): Outcome {
    if log == [] then Unset else NextOutcome(OutcomeOf(log[..|log| - 1]), log[|log| - 1].kind)
  }

  /** The first run an event names. */
  function FirstRun(log: seq<ScheduleEvent>): string {
    if log == [] then ""
    else
      var n := |log| - 1;
      var before := FirstRun(log[..n]);
      if before == "" && RunBearing(log[n]) then log[n].runId else before
  }

  /** The lateness of the first event of that kind. */
  function FirstLateness(log: seq<ScheduleEvent>, kind: Kind, expected: Time): Option<nat> {
    if log == [] then None
    else
      var n := |log| - 1;
      var before := FirstLateness(log[..n], kind, expected);
      if before == None && log[n].kind == kind then Some(Lateness(log[n].at, expected)) else before
  }

  function RecordedOf(log: seq<ScheduleEvent>): Time {
    if log == [] then 0 else NextRecorded(RecordedOf(log[..|log| - 1]), log[|log| - 1].at)
  }

  /** All events are about one occurrence. */
  ghost predicate OneOccurrence(log: seq<ScheduleEvent>, scheduleId: string, occurrenceId: string) {
    forall e :: e in log ==> e.scheduleId == scheduleId && e.occurrenceId == occurrenceId
  }

  /** The columns of the row, given what the log implies for each. */
  ghost predicate Columns(p: Row, outcome: Outcome, recorded: Time, expected: Time, run: string, created: Option<nat>,
                          started: Option<nat>) {
    // One value, so that a failed proof names the predicate and not each of its parts.
    var good :=
      && p.outcome == outcome && p.recordedAt == recorded && p.expectedAt == expected
      && p.runId == (if outcome == IsCreated then run else "")
      && p.creationLateness == (if outcome == IsCreated then created else None)
      && p.startLateness == (if outcome == IsCreated then started else None)
      && (outcome == Unset || outcome == IsDue ==> run == "" && created == None && started == None);
    good
  }

  lemma ColumnsStep(p: Row, e: ScheduleEvent, parsed: Option<Time>, outcome: Outcome, recorded: Time, run: string,
                    created: Option<nat>, started: Option<nat>)
    requires Columns(p, outcome, recorded, p.expectedAt, run, created, started)
    ensures var p' := Reduce(p, e, parsed);
            Columns(p', NextOutcome(outcome, e.kind), NextRecorded(recorded, e.at),
                    if p.expectedAt == 0 && parsed.Some? then parsed.value else p.expectedAt,
                    if run == "" && RunBearing(e) then e.runId else run,
                    if created == None && e.kind == RunCreated then Some(Lateness(e.at, p'.expectedAt)) else created,
                    if started == None && e.kind == AttemptStarted then Some(Lateness(e.at, p'.expectedAt)) else started)
  {
  }

  /** What a fixed occurrence id gives as the expected time. */
  function Expected(parsed: Option<Time>): Time {
    if parsed.Some? then parsed.value else 0
  }

  /** The row of one occurrence in terms of its columns. */
  lemma {:induction false} LedgerColumns(log: seq<ScheduleEvent>, scheduleId: string, occurrenceId: string, parsed: Option<Time>)
    requires OneOccurrence(log, scheduleId, occurrenceId) && parsed == ExpectedFromOccurrenceId(occurrenceId)
    ensures Columns(Ledger(log), OutcomeOf(log), RecordedOf(log), if log == [] then 0 else Expected(parsed), FirstRun(log),
                    FirstLateness(log, RunCreated, Expected(parsed)), FirstLateness(log, AttemptStarted, Expected(parsed)))
  {
    if log != [] {
      var n := |log| - 1;
      LedgerColumns(log[..n], scheduleId, occurrenceId, parsed);
      assert log[n] in log;
      ColumnsStep(Ledger(log[..n]), log[n], parsed, OutcomeOf(log[..n]), RecordedOf(log[..n]), FirstRun(log[..n]),
                  FirstLateness(log[..n], RunCreated, Expected(parsed)), FirstLateness(log[..n], AttemptStarted, Expected(parsed)));
    }
  }

  // ---------------------------------------------------------------------------------------------------------
  // Outcome, run and lateness: the first decisive event wins
  // ---------------------------------------------------------------------------------------------------------

  ghost predicate SkipOccurs(log: seq<ScheduleEvent>) {
    exists e :: e in log && e.kind == Skip
  }

  ghost predicate RunOccurs(log: seq<ScheduleEvent>) {
    exists e :: e in log && RunBearing(e)
  }

  ghost predicate DueOccurs(log: seq<ScheduleEvent>) {
    exists e :: e in log && e.kind == Due
  }

  /** The outcome of events that do not mix a skip with a run, in closed form. */
  lemma {:induction false} OutcomeClosed(log: seq<ScheduleEvent>)
    requires !(SkipOccurs(log) && RunOccurs(log))
    ensures OutcomeOf(log) ==
            if SkipOccurs(log) then IsSkipped else if RunOccurs(log) then IsCreated else if DueOccurs(log) then IsDue else Unset
  {
    if log != [] {
      var n := |log| - 1;
      var before, e := log[..n], log[n];
      assert log == before + [e] && e in log;
      assert SkipOccurs(log) <==> SkipOccurs(before) || e.kind == Skip;
      assert RunOccurs(log) <==> RunOccurs(before) || RunBearing(e);
      assert DueOccurs(log) <==> DueOccurs(before) || e.kind == Due;
      OutcomeClosed(before);
    }
  }

  /** A skip or a run that comes first decides. */
  lemma {:induction false} FirstDecides(e: ScheduleEvent, rest: seq<ScheduleEvent>)
    requires e.kind != Due
    ensures OutcomeOf([e] + rest) == if e.kind == Skip then IsSkipped else IsCreated
  {
    var log := [e] + rest;
    if rest == [] {
      assert log[..0] == [];
    } else {
      FirstDecides(e, rest[..|rest| - 1]);
      assert log[..|log| - 1] == [e] + rest[..|rest| - 1];
    }
  }

  ghost predicate OutcomeFoldFree(log: seq<ScheduleEvent>) {
    forall other :: Permutes(log, other) ==> OutcomeOf(other) == OutcomeOf(log)
  }

  /** The outcome is the same for every arrival order exactly when a skip and a run do not both occur. */
  lemma OutcomeFoldExact(log: seq<ScheduleEvent>)
    ensures OutcomeFoldFree(log) <==> !(SkipOccurs(log) && RunOccurs(log))
  {
    if SkipOccurs(log) && RunOccurs(log) {
      var a, b := SkipOrRun(log);
      assert OutcomeOf(a) != OutcomeOf(b);
    } else {
      forall other | Permutes(log, other) ensures OutcomeOf(other) == OutcomeOf(log) {
        SameMembers(log, other);
        OutcomeClosed(log);
        OutcomeClosed(other);
      }
    }
  }

  lemma SkipOrRun(log: seq<ScheduleEvent>) returns (a: seq<ScheduleEvent>, b: seq<ScheduleEvent>)
    requires SkipOccurs(log) && RunOccurs(log)
    ensures Permutes(log, a) && OutcomeOf(a) == IsSkipped
    ensures Permutes(log, b) && OutcomeOf(b) == IsCreated
  {
    var x :| x in log && x.kind == Skip;
    a := SkipFirst(log, x);
    var y :| y in log && RunBearing(y);
    var rest := TakeOut(log, y);
    FirstDecides(y, rest);
    b := [y] + rest;
  }

  lemma SkipFirst(log: seq<ScheduleEvent>, x: ScheduleEvent) returns (a: seq<ScheduleEvent>)
    requires x in log && x.kind == Skip
    ensures Permutes(log, a) && OutcomeOf(a) == IsSkipped
  {
    var rest := TakeOut(log, x);
    FirstDecides(x, rest);
    a := [x] + rest;
  }

  /** What the run_id column holds. */
  function RunOf(log: seq<ScheduleEvent>): string {
    if OutcomeOf(log) == IsCreated then FirstRun(log) else ""
  }

  predicate Names(e: ScheduleEvent) {
    RunBearing(e) && e.runId != ""
  }

  ghost predicate OneRun(log: seq<ScheduleEvent>) {
    forall x, y :: x in log && y in log && Names(x) && Names(y) ==> x.runId == y.runId
  }

  ghost predicate Named(log: seq<ScheduleEvent>) {
    exists e :: e in log && Names(e)
  }

  lemma {:induction false} FirstRunIsNamed(log: seq<ScheduleEvent>)
    ensures FirstRun(log) != "" <==> Named(log)
    ensures FirstRun(log) != "" ==> exists e :: e in log && Names(e) && e.runId == FirstRun(log)
  {
    if log != [] {
      var n := |log| - 1;
      FirstRunIsNamed(log[..n]);
      assert log == log[..n] + [log[n]];
      if FirstRun(log[..n]) != "" {
        var e :| e in log[..n] && Names(e) && e.runId == FirstRun(log[..n]);
        assert e in log;
      }
      assert log[n] in log;
    }
  }

  lemma {:induction false} NamedFirst(e: ScheduleEvent, rest: seq<ScheduleEvent>)
    requires Names(e)
    ensures FirstRun([e] + rest) == e.runId
  {
    var log := [e] + rest;
    if rest == [] {
      assert log[..0] == [];
    } else {
      NamedFirst(e, rest[..|rest| - 1]);
      assert log[..|log| - 1] == [e] + rest[..|rest| - 1];
    }
  }

  lemma RunFirst(log: seq<ScheduleEvent>, e: ScheduleEvent) returns (other: seq<ScheduleEvent>)
    requires e in log && Names(e)
    ensures Permutes(log, other) && RunOf(other) == e.runId
  {
    var rest := TakeOut(log, e);
    other := [e] + rest;
    FirstDecides(e, rest);
    NamedFirst(e, rest);
  }

  ghost predicate RunFoldFree(log: seq<ScheduleEvent>) {
    forall other :: Permutes(log, other) ==> RunOf(other) == RunOf(log)
  }

  lemma RunSame(log: seq<ScheduleEvent>, other: seq<ScheduleEvent>)
    requires Permutes(log, other) && (!Named(log) || (!SkipOccurs(log) && OneRun(log)))
    ensures RunOf(other) == RunOf(log)
  {
    SameMembers(log, other);
    FirstRunIsNamed(log);
    FirstRunIsNamed(other);
    if Named(log) {
      var e :| e in log && Names(e);
      assert RunOccurs(log) && !SkipOccurs(other);
      OutcomeClosed(log);
      OutcomeClosed(other);
    }
  }

  /** run_id is the same for every arrival order exactly when no event names a run, or no skip occurs and all the events
      that name a run name the same one. */
  lemma RunFoldExact(log: seq<ScheduleEvent>)
    ensures RunFoldFree(log) <==> !Named(log) || (!SkipOccurs(log) && OneRun(log))
  {
    if !Named(log) || (!SkipOccurs(log) && OneRun(log)) {
      forall other | Permutes(log, other) ensures RunOf(other) == RunOf(log) {
        RunSame(log, other);
      }
    } else if SkipOccurs(log) {
      var e :| e in log && Names(e);
      var a := RunFirst(log, e);
      var x :| x in log && x.kind == Skip;
      var b := SkipFirst(log, x);
      assert RunOf(a) != RunOf(b);
    } else {
      var x, y :| x in log && y in log && Names(x) && Names(y) && x.runId != y.runId;
      var a := RunFirst(log, x);
      var b := RunFirst(log, y);
      assert RunOf(a) != RunOf(b);
    }
  }

  /** What a lateness column holds. */
  function LatenessOf(log: seq<ScheduleEvent>, kind: Kind, expected: Time): Option<nat> {
    if OutcomeOf(log) == IsCreated then FirstLateness(log, kind, expected) else None
  }

  ghost predicate Has(log: seq<ScheduleEvent>, kind: Kind) {
    exists e :: e in log && e.kind == kind
  }

  /** All events of the kind were equally late. */
  ghost predicate OneLateness(log: seq<ScheduleEvent>, kind: Kind, expected: Time) {
    forall x, y :: x in log && y in log && x.kind == kind && y.kind == kind ==> Lateness(x.at, expected) == Lateness(y.at, expected)
  }

  lemma {:induction false} FirstLatenessIsOfAnEvent(log: seq<ScheduleEvent>, kind: Kind, expected: Time)
    ensures FirstLateness(log, kind, expected) != None <==> Has(log, kind)
    ensures Has(log, kind) ==> exists e :: e in log && e.kind == kind && FirstLateness(log, kind, expected) == Some(Lateness(e.at, expected))
  {
    if log != [] {
      var n := |log| - 1;
      FirstLatenessIsOfAnEvent(log[..n], kind, expected);
      assert log == log[..n] + [log[n]];
      if Has(log[..n], kind) {
        var e :| e in log[..n] && e.kind == kind && FirstLateness(log[..n], kind, expected) == Some(Lateness(e.at, expected));
        assert e in log;
      }
      assert log[n] in log;
    }
  }

  lemma {:induction false} LatenessFirst(e: ScheduleEvent, rest: seq<ScheduleEvent>, expected: Time)
    ensures FirstLateness([e] + rest, e.kind, expected) == Some(Lateness(e.at, expected))
  {
    var log := [e] + rest;
    if rest == [] {
      assert log[..0] == [];
    } else {
      LatenessFirst(e, rest[..|rest| - 1], expected);
      assert log[..|log| - 1] == [e] + rest[..|rest| - 1];
    }
  }

  lemma LateFirst(log: seq<ScheduleEvent>, e: ScheduleEvent, expected: Time) returns (other: seq<ScheduleEvent>)
    requires e in log && RunBearing(e)
    ensures Permutes(log, other) && LatenessOf(other, e.kind, expected) == Some(Lateness(e.at, expected))
  {
    var rest := TakeOut(log, e);
    other := [e] + rest;
    FirstDecides(e, rest);
    LatenessFirst(e, rest, expected);
  }

  ghost predicate LatenessFoldFree(log: seq<ScheduleEvent>, kind: Kind, expected: Time) {
    forall other :: Permutes(log, other) ==> LatenessOf(other, kind, expected) == LatenessOf(log, kind, expected)
  }

  lemma LatenessSame(log: seq<ScheduleEvent>, other: seq<ScheduleEvent>, kind: Kind, expected: Time)
    requires Permutes(log, other) && (kind == RunCreated || kind == AttemptStarted)
    requires !Has(log, kind) || (!SkipOccurs(log) && OneLateness(log, kind, expected))
    ensures LatenessOf(other, kind, expected) == LatenessOf(log, kind, expected)
  {
    SameMembers(log, other);
    FirstLatenessIsOfAnEvent(log, kind, expected);
    FirstLatenessIsOfAnEvent(other, kind, expected);
    if Has(log, kind) {
      var e :| e in log && e.kind == kind;
      assert RunBearing(e) && RunOccurs(log) && !SkipOccurs(other);
      OutcomeClosed(log);
      OutcomeClosed(other);
    }
  }

  /** A lateness column is the same for every arrival order exactly when its event does not occur, or no skip occurs and
      all its events were equally late; in particular when it occurs once and no skip does. */
  lemma LatenessFoldExact(log: seq<ScheduleEvent>, kind: Kind, expected: Time)
    requires kind == RunCreated || kind == AttemptStarted
    ensures LatenessFoldFree(log, kind, expected) <==> !Has(log, kind) || (!SkipOccurs(log) && OneLateness(log, kind, expected))
  {
    if !Has(log, kind) || (!SkipOccurs(log) && OneLateness(log, kind, expected)) {
      forall other | Permutes(log, other) ensures LatenessOf(other, kind, expected) == LatenessOf(log, kind, expected) {
        LatenessSame(log, other, kind, expected);
      }
    } else if SkipOccurs(log) {
      var e :| e in log && e.kind == kind;
      var a := LateFirst(log, e, expected);
      var x :| x in log && x.kind == Skip;
      var b := SkipFirst(log, x);
      assert LatenessOf(a, kind, expected) != LatenessOf(b, kind, expected);
    } else {
      var x, y :| x in log && y in log && x.kind == kind && y.kind == kind && Lateness(x.at, expected) != Lateness(y.at, expected);
      var a := LateFirst(log, x, expected);
      var b := LateFirst(log, y, expected);
      assert LatenessOf(a, kind, expected) != LatenessOf(b, kind, expected);
    }
  }

  // ---------------------------------------------------------------------------------------------------------
  // Times
  // ---------------------------------------------------------------------------------------------------------

  ghost predicate AtZero(log: seq<ScheduleEvent>) {
    exists e :: e in log && e.at == 0
  }

  ghost predicate AfterZero(log: seq<ScheduleEvent>) {
    exists e :: e in log && e.at > 0
  }

  ghost predicate BeforeZero(log: seq<ScheduleEvent>) {
    exists e :: e in log && e.at < 0
  }

  ghost predicate IsEarliest(log: seq<ScheduleEvent>, t: Time) {
    && (forall e :: e in log ==> t <= e.at)
    && (exists e :: e in log && e.at == t)
  }

  lemma {:induction false} Recorded(log: seq<ScheduleEvent>)
    ensures BeforeZero(log) || (log != [] && !AtZero(log)) ==> IsEarliest(log, RecordedOf(log))
    ensures !BeforeZero(log) ==> RecordedOf(log) >= 0
    ensures !AfterZero(log) && !BeforeZero(log) ==> RecordedOf(log) == 0
  {
    if log != [] {
      var n := |log| - 1;
      var before, e := log[..n], log[n];
      assert log == before + [e] && e in log;
      assert forall x :: x in before ==> x in log;
      assert forall x :: x in log ==> x in before || x == e;
      Recorded(before);
      if IsEarliest(before, RecordedOf(before)) {
        var x :| x in before && x.at == RecordedOf(before);
        assert x in log;
      }
    }
  }

  lemma RecordedSnoc(log: seq<ScheduleEvent>, e: ScheduleEvent)
    ensures RecordedOf(log + [e]) == NextRecorded(RecordedOf(log), e.at)
  {
    assert (log + [e])[..|log|] == log;
  }

  lemma RecordedMixed(log: seq<ScheduleEvent>) returns (a: seq<ScheduleEvent>, b: seq<ScheduleEvent>)
    requires AtZero(log) && AfterZero(log) && !BeforeZero(log)
    ensures Permutes(log, a) && Permutes(log, b) && RecordedOf(a) != RecordedOf(b)
  {
    var z :| z in log && z.at == 0;
    var x :| x in log && x.at > 0;
    var most, rest := TakeOutTwo(log, z, x);
    a := most + [z];
    b := rest + [z] + [x];
    Recorded(most);
    Recorded(rest);
    RecordedSnoc(most, z);
    RecordedSnoc(rest, z);
    RecordedSnoc(rest + [z], x);
  }

  ghost predicate RecordedFoldFree(log: seq<ScheduleEvent>) {
    forall other :: Permutes(log, other) ==> RecordedOf(other) == RecordedOf(log)
  }

  lemma RecordedSame(log: seq<ScheduleEvent>, other: seq<ScheduleEvent>)
    requires Permutes(log, other) && !(AtZero(log) && AfterZero(log) && !BeforeZero(log))
    ensures RecordedOf(other) == RecordedOf(log)
  {
    SameMembers(log, other);
    Recorded(log);
    Recorded(other);
  }

  /** recorded_at is the same for every arrival order exactly when the zero time is not mixed with later times only. */
  lemma RecordedFoldExact(log: seq<ScheduleEvent>)
    ensures RecordedFoldFree(log) <==> !(AtZero(log) && AfterZero(log) && !BeforeZero(log))
  {
    if AtZero(log) && AfterZero(log) && !BeforeZero(log) {
      var a, b := RecordedMixed(log);
    } else {
      forall other | Permutes(log, other) ensures RecordedOf(other) == RecordedOf(log) {
        RecordedSame(log, other);
      }
    }
  }

  lemma {:induction false} Latest(log: seq<ScheduleEvent>)
    ensures forall e :: e in log ==> e.at <= Ledger(log).lastEventAt
    ensures Ledger(log).lastEventAt == 0 || exists e :: e in log && e.at == Ledger(log).lastEventAt
    ensures Ledger(log).lastEventAt >= 0
  {
    if log != [] {
      var n := |log| - 1;
      Latest(log[..n]);
      assert log == log[..n] + [log[n]];
      assert log[n] in log;
      LatestStep(Ledger(log[..n]), log[n], ExpectedFromOccurrenceId(log[n].occurrenceId));
      if Ledger(log[..n]).lastEventAt != 0 {
        var e :| e in log[..n] && e.at == Ledger(log[..n]).lastEventAt;
        assert e in log;
      }
    }
  }

  lemma LatestStep(p: Row, e: ScheduleEvent, parsed: Option<Time>)
    ensures Reduce(p, e, parsed).lastEventAt == if e.at > p.lastEventAt then e.at else p.lastEventAt
  {
  }

  // ---------------------------------------------------------------------------------------------------------
  // The columns of the row
  // ---------------------------------------------------------------------------------------------------------

  lemma SimpleStep(p: Row, e: ScheduleEvent, parsed: Option<Time>, run: string)
    requires p.runId == (if p.outcome == IsCreated then run else "") && (p.outcome == Unset || p.outcome == IsDue ==> run == "")
    ensures var p' := Reduce(p, e, parsed);
            && p'.outcome == NextOutcome(p.outcome, e.kind) && p'.recordedAt == NextRecorded(p.recordedAt, e.at)
            && var run' := if run == "" && RunBearing(e) then e.runId else run;
               && p'.runId == (if p'.outcome == IsCreated then run' else "")
               && (p'.outcome == Unset || p'.outcome == IsDue ==> run' == "")
  {
  }

  /** The columns that do not depend on the occurrence id. */
  lemma {:induction false} SimpleColumns(log: seq<ScheduleEvent>)
    ensures Ledger(log).outcome == OutcomeOf(log) && Ledger(log).recordedAt == RecordedOf(log) && Ledger(log).runId == RunOf(log)
    ensures OutcomeOf(log) == Unset || OutcomeOf(log) == IsDue ==> FirstRun(log) == ""
  {
    if log != [] {
      var n := |log| - 1;
      SimpleColumns(log[..n]);
      SimpleStep(Ledger(log[..n]), log[n], ExpectedFromOccurrenceId(log[n].occurrenceId), FirstRun(log[..n]));
    }
  }

  /** Every arrival order gives the same value in this column. */
  ghost predicate OrderFree<T>(log: seq<ScheduleEvent>, column: Row -> T) {
    forall other :: Permutes(log, other) ==> column(Ledger(other)) == column(Ledger(log))
  }

  function OutcomeColumn(p: Row): Outcome { p.outcome }
  function RunColumn(p: Row): string { p.runId }
  function RecordedColumn(p: Row): Time { p.recordedAt }

  /** The latenesses of creation and of start. */
  function LatenessColumn(kind: Kind): Row -> Option<nat> {
    if kind == RunCreated then (p: Row) => p.creationLateness else (p: Row) => p.startLateness
  }

  /** The outcome is the same for every arrival order exactly when a skip and a run do not both occur. */
  lemma OutcomeExact(log: seq<ScheduleEvent>)
    ensures OrderFree(log, OutcomeColumn) <==> !(SkipOccurs(log) && RunOccurs(log))
  {
    forall other ensures OutcomeColumn(Ledger(other)) == OutcomeOf(other) {
      SimpleColumns(other);
    }
    OutcomeFoldExact(log);
  }

  /** run_id is the same for every arrival order exactly when no event names a run, or no skip occurs and all the events
      that name a run name the same one. */
  lemma RunExact(log: seq<ScheduleEvent>)
    ensures OrderFree(log, RunColumn) <==> !Named(log) || (!SkipOccurs(log) && OneRun(log))
  {
    forall other ensures RunColumn(Ledger(other)) == RunOf(other) {
      SimpleColumns(other);
    }
    RunFoldExact(log);
  }

  /** recorded_at is the same for every arrival order exactly when the zero time is not mixed with later times only. */
  lemma RecordedExact(log: seq<ScheduleEvent>)
    ensures OrderFree(log, RecordedColumn) <==> !(AtZero(log) && AfterZero(log) && !BeforeZero(log))
  {
    forall other ensures RecordedColumn(Ledger(other)) == RecordedOf(other) {
      SimpleColumns(other);
    }
    RecordedFoldExact(log);
  }

  lemma LatenessColumnIs(log: seq<ScheduleEvent>, kind: Kind, scheduleId: string, occurrenceId: string)
    requires OneOccurrence(log, scheduleId, occurrenceId) && (kind == RunCreated || kind == AttemptStarted)
    ensures LatenessColumn(kind)(Ledger(log)) == LatenessOf(log, kind, Expected(ExpectedFromOccurrenceId(occurrenceId)))
  {
    LedgerColumns(log, scheduleId, occurrenceId, ExpectedFromOccurrenceId(occurrenceId));
  }

  /** For one occurrence, a lateness is the same for every arrival order exactly when its event does not occur, or no skip
      occurs and all its events were equally late; in particular when it occurs once and no skip does. */
  lemma LatenessExact(log: seq<ScheduleEvent>, kind: Kind, scheduleId: string, occurrenceId: string)
    requires OneOccurrence(log, scheduleId, occurrenceId) && (kind == RunCreated || kind == AttemptStarted)
    ensures var expected := Expected(ExpectedFromOccurrenceId(occurrenceId));
            OrderFree(log, LatenessColumn(kind)) <==> !Has(log, kind) || (!SkipOccurs(log) && OneLateness(log, kind, expected))
  {
    var expected := Expected(ExpectedFromOccurrenceId(occurrenceId));
    forall other | Permutes(log, other) ensures LatenessColumn(kind)(Ledger(other)) == LatenessOf(other, kind, expected) {
      SameMembers(log, other);
      LatenessColumnIs(other, kind, scheduleId, occurrenceId);
    }
    LatenessColumnIs(log, kind, scheduleId, occurrenceId);
    LatenessFoldExact(log, kind, expected);
  }

  /** The remaining columns never depend on the order: last_event_at, and for one occurrence expected_at. */
  lemma AlwaysOrderFree(log: seq<ScheduleEvent>, other: seq<ScheduleEvent>, scheduleId: string, occurrenceId: string)
    requires Permutes(log, other) && OneOccurrence(log, scheduleId, occurrenceId)
    ensures Ledger(other).lastEventAt == Ledger(log).lastEventAt && Ledger(other).expectedAt == Ledger(log).expectedAt
  {
    SameMembers(log, other);
    assert OneOccurrence(other, scheduleId, occurrenceId);
    Latest(log);
    Latest(other);
    LedgerColumns(log, scheduleId, occurrenceId, ExpectedFromOccurrenceId(occurrenceId));
    LedgerColumns(other, scheduleId, occurrenceId, ExpectedFromOccurrenceId(occurrenceId));
  }
}
