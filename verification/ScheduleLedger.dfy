/** The claim protocol supplies what the ledger reducer needs: in every run of any number of scheduler instances, the
    ledger row of each occurrence comes out the same however its events arrive. */
module ScheduleLedger {
  import opened Options
  import opened Permutations
  import opened ScheduleTimes
  import C = ScheduleClaim
  import L = OccurrenceLedger

  /** scheduleEventFrom: the ledger event of a logged notice, with the time it was logged and the name of its run. */
  function EventOf(n: C.Notice, at: Time, scheduleId: string, name: C.Run -> string): L.ScheduleEvent {
    var id := OccurrenceId(scheduleId, n.at);
    match n
    case Due(_) => L.ScheduleEvent(L.Due, at, scheduleId, id, "")
    case Skipped(_) => L.ScheduleEvent(L.Skip, at, scheduleId, id, "")
    case Created(_, run) => L.ScheduleEvent(L.RunCreated, at, scheduleId, id, name(run))
    case Started(_, run) => L.ScheduleEvent(L.AttemptStarted, at, scheduleId, id, name(run))
  }

  /** The events of one occurrence id among the logged ones. */
  function About(log: seq<C.Entry>, times: seq<Time>, scheduleId: string, name: C.Run -> string, id: string): seq<L.ScheduleEvent>
    requires |times| == |log|
  {
    if log == [] then []
    else
      var n := |log| - 1;
      var e := EventOf(log[n].notice, times[n], scheduleId, name);
      About(log[..n], times[..n], scheduleId, name, id) + (if e.occurrenceId == id then [e] else [])
  }

  lemma {:induction false} FromTheLog(log: seq<C.Entry>, times: seq<Time>, scheduleId: string, name: C.Run -> string, id: string,
                                      e: L.ScheduleEvent) returns (i: nat)
    requires |times| == |log| && e in About(log, times, scheduleId, name, id)
    ensures i < |log| && e == EventOf(log[i].notice, times[i], scheduleId, name) && e.occurrenceId == id
  {
    var n := |log| - 1;
    if e in About(log[..n], times[..n], scheduleId, name, id) {
      i := FromTheLog(log[..n], times[..n], scheduleId, name, id, e);
    } else {
      i := n;
    }
  }

  /** Logged times are set, and the occurrences' own times are ones Go can hold. */
  ghost predicate Clocked(log: seq<C.Entry>, times: seq<Time>) {
    |times| == |log| && forall i :: 0 <= i < |log| ==> times[i] > 0 && Representable(log[i].notice.at)
  }

  lemma Carried(a: C.Notice, b: C.Notice, s: Time, t: Time, scheduleId: string, name: C.Run -> string)
    requires (a.Skipped? <==> b.Skipped?) && !(a.Created? && b.Created?)
    requires (a.Created? || a.Started?) && (b.Created? || b.Started?) ==> a.run == b.run
    ensures var x, y := EventOf(a, s, scheduleId, name), EventOf(b, t, scheduleId, name);
            && (x.kind == L.Skip <==> y.kind == L.Skip)
            && (L.RunBearing(x) && L.RunBearing(y) ==> x.runId == y.runId)
            && !(x.kind == y.kind == L.RunCreated)
  {
  }

  lemma IdOf(n: C.Notice, at: Time, scheduleId: string, name: C.Run -> string)
    ensures EventOf(n, at, scheduleId, name).occurrenceId == OccurrenceId(scheduleId, n.at) && EventOf(n, at, scheduleId, name).at == at
  {
  }

  /** Two logged events of one id. */
  lemma CompatibleAt(first: Time, steps: seq<C.Step>, times: seq<Time>, scheduleId: string, name: C.Run -> string, i: nat, j: nat)
    requires Clocked(C.After(C.Init(first), steps).log, times) && i < j < |C.After(C.Init(first), steps).log|
    requires var log := C.After(C.Init(first), steps).log;
             EventOf(log[i].notice, times[i], scheduleId, name).occurrenceId == EventOf(log[j].notice, times[j], scheduleId, name).occurrenceId
    ensures var log := C.After(C.Init(first), steps).log;
            var x, y := EventOf(log[i].notice, times[i], scheduleId, name), EventOf(log[j].notice, times[j], scheduleId, name);
            && (x.kind == L.Skip <==> y.kind == L.Skip)
            && (L.RunBearing(x) && L.RunBearing(y) ==> x.runId == y.runId)
            && !(x.kind == y.kind == L.RunCreated)
  {
    var log := C.After(C.Init(first), steps).log;
    IdOf(log[i].notice, times[i], scheduleId, name);
    IdOf(log[j].notice, times[j], scheduleId, name);
    C.LogSupportsTheLedger(first, steps, scheduleId, i, j);
    Carried(log[i].notice, log[j].notice, times[i], times[j], scheduleId, name);
  }

  /** What two events of one occurrence have in common. */
  ghost predicate Fit(x: L.ScheduleEvent, y: L.ScheduleEvent) {
    && (x.kind == L.Skip <==> y.kind == L.Skip)
    && (L.RunBearing(x) && L.RunBearing(y) ==> x.runId == y.runId)
    && (x.kind == y.kind == L.RunCreated ==> x.at == y.at)
    && x.at > 0
  }

  lemma FitAt(first: Time, steps: seq<C.Step>, times: seq<Time>, scheduleId: string, name: C.Run -> string, i: nat, j: nat,
              x: L.ScheduleEvent, y: L.ScheduleEvent)
    requires var log := C.After(C.Init(first), steps).log;
             && Clocked(log, times) && i < |log| && j < |log|
             && x == EventOf(log[i].notice, times[i], scheduleId, name) && y == EventOf(log[j].notice, times[j], scheduleId, name)
    requires x.occurrenceId == y.occurrenceId
    ensures Fit(x, y)
  {
    var log := C.After(C.Init(first), steps).log;
    IdOf(log[i].notice, times[i], scheduleId, name);
    if i < j {
      CompatibleAt(first, steps, times, scheduleId, name, i, j);
    } else if j < i {
      CompatibleAt(first, steps, times, scheduleId, name, j, i);
    }
  }

  /** Whichever two they are. */
  lemma Compatible(first: Time, steps: seq<C.Step>, times: seq<Time>, scheduleId: string, name: C.Run -> string, id: string,
                   x: L.ScheduleEvent, y: L.ScheduleEvent)
    requires var log := C.After(C.Init(first), steps).log;
             && Clocked(log, times)
             && x in About(log, times, scheduleId, name, id) && y in About(log, times, scheduleId, name, id)
    ensures Fit(x, y)
  {
    var log := C.After(C.Init(first), steps).log;
    var i := FromTheLog(log, times, scheduleId, name, id, x);
    var j := FromTheLog(log, times, scheduleId, name, id, y);
    FitAt(first, steps, times, scheduleId, name, i, j, x, y);
  }

  lemma {:induction false} OneOccurrence(log: seq<C.Entry>, times: seq<Time>, scheduleId: string, name: C.Run -> string, id: string)
    requires |times| == |log|
    ensures L.OneOccurrence(About(log, times, scheduleId, name, id), scheduleId, id)
  {
    forall e | e in About(log, times, scheduleId, name, id) ensures e.scheduleId == scheduleId && e.occurrenceId == id {
      var i := FromTheLog(log, times, scheduleId, name, id, e);
    }
  }

  /** What the ledger's columns ask of the events of one occurrence. */
  ghost predicate Supported(events: seq<L.ScheduleEvent>, scheduleId: string, id: string) {
    && L.OneOccurrence(events, scheduleId, id)
    && !(L.SkipOccurs(events) && L.RunOccurs(events)) && (!L.Named(events) || (!L.SkipOccurs(events) && L.OneRun(events)))
    && !L.AtZero(events)
    && (forall x, y :: x in events && y in events && x.kind == y.kind == L.RunCreated ==> x.at == y.at)
  }

  lemma AllFit(events: seq<L.ScheduleEvent>, scheduleId: string, id: string)
    requires L.OneOccurrence(events, scheduleId, id)
    requires forall x, y {:trigger Fit(x, y)} :: x in events && y in events ==> Fit(x, y)
    ensures Supported(events, scheduleId, id)
  {
    forall x, y | x in events && y in events
      ensures (x.kind == L.Skip <==> y.kind == L.Skip) && (L.RunBearing(x) && L.RunBearing(y) ==> x.runId == y.runId)
      ensures (x.kind == y.kind == L.RunCreated ==> x.at == y.at) && x.at > 0
    {
      assert Fit(x, y);
    }
  }

  lemma ProtocolSupports(first: Time, steps: seq<C.Step>, times: seq<Time>, scheduleId: string, name: C.Run -> string, id: string)
    requires Clocked(C.After(C.Init(first), steps).log, times)
    ensures Supported(About(C.After(C.Init(first), steps).log, times, scheduleId, name, id), scheduleId, id)
  {
    var events := About(C.After(C.Init(first), steps).log, times, scheduleId, name, id);
    OneOccurrence(C.After(C.Init(first), steps).log, times, scheduleId, name, id);
    forall x, y | x in events && y in events ensures Fit(x, y) {
      Compatible(first, steps, times, scheduleId, name, id, x, y);
    }
    AllFit(events, scheduleId, id);
  }

  /** In every run of the claim protocol, the outcome, run, expected, recorded and last times and the creation lateness
      of an occurrence's row are the same for every order in which its events arrive. */
  lemma LedgerIsOrderFree(first: Time, steps: seq<C.Step>, times: seq<Time>, scheduleId: string, name: C.Run -> string,
                          id: string, arrived: seq<L.ScheduleEvent>)
    requires var log := C.After(C.Init(first), steps).log;
             Clocked(log, times) && Permutes(About(log, times, scheduleId, name, id), arrived)
    ensures var log := C.After(C.Init(first), steps).log;
            var row, sorted := L.Ledger(arrived), L.Ledger(About(log, times, scheduleId, name, id));
            && row.outcome == sorted.outcome && row.runId == sorted.runId && row.expectedAt == sorted.expectedAt
            && row.recordedAt == sorted.recordedAt && row.lastEventAt == sorted.lastEventAt
            && row.creationLateness == sorted.creationLateness
  {
    var events := About(C.After(C.Init(first), steps).log, times, scheduleId, name, id);
    ProtocolSupports(first, steps, times, scheduleId, name, id);
    SameColumns(events, arrived, scheduleId, id);
  }

  lemma SameColumns(events: seq<L.ScheduleEvent>, arrived: seq<L.ScheduleEvent>, scheduleId: string, id: string)
    requires Permutes(events, arrived) && Supported(events, scheduleId, id)
    ensures var row, sorted := L.Ledger(arrived), L.Ledger(events);
            && row.outcome == sorted.outcome && row.runId == sorted.runId && row.expectedAt == sorted.expectedAt
            && row.recordedAt == sorted.recordedAt && row.lastEventAt == sorted.lastEventAt
            && row.creationLateness == sorted.creationLateness
  {
    L.AlwaysOrderFree(events, arrived, scheduleId, id);
    L.OutcomeExact(events);
    L.RunExact(events);
    L.RecordedExact(events);
    L.LatenessExact(events, L.RunCreated, scheduleId, id);
    if L.Has(events, L.RunCreated) {
      var e :| e in events && e.kind == L.RunCreated;
      assert L.RunBearing(e);
    }
    assert L.OutcomeColumn(L.Ledger(arrived)) == L.OutcomeColumn(L.Ledger(events));
    assert L.RunColumn(L.Ledger(arrived)) == L.RunColumn(L.Ledger(events));
    assert L.RecordedColumn(L.Ledger(arrived)) == L.RecordedColumn(L.Ledger(events));
    assert L.LatenessColumn(L.RunCreated)(L.Ledger(arrived)) == L.LatenessColumn(L.RunCreated)(L.Ledger(events));
  }

  /** The start lateness, the one column a run may report more than once, is the same for every arrival order exactly when
      all the starts of the occurrence were equally late. */
  lemma StartLatenessExact(first: Time, steps: seq<C.Step>, times: seq<Time>, scheduleId: string, name: C.Run -> string, id: string)
    requires Clocked(C.After(C.Init(first), steps).log, times)
    ensures var events := About(C.After(C.Init(first), steps).log, times, scheduleId, name, id);
            L.OrderFree(events, L.LatenessColumn(L.AttemptStarted)) <==>
            L.OneLateness(events, L.AttemptStarted, L.Expected(ExpectedFromOccurrenceId(id)))
  {
    var events := About(C.After(C.Init(first), steps).log, times, scheduleId, name, id);
    ProtocolSupports(first, steps, times, scheduleId, name, id);
    L.LatenessExact(events, L.AttemptStarted, scheduleId, id);
    if L.Has(events, L.AttemptStarted) {
      var e :| e in events && e.kind == L.AttemptStarted;
      assert L.RunBearing(e);
    }
  }

  // ---------------------------------------------------------------------------------------------------------
  // What the row says of the occurrence
  // ---------------------------------------------------------------------------------------------------------

  lemma {:induction false} InAbout(log: seq<C.Entry>, times: seq<Time>, scheduleId: string, name: C.Run -> string, l: nat)
    requires |times| == |log| && l < |log|
    ensures var e := EventOf(log[l].notice, times[l], scheduleId, name);
            e in About(log, times, scheduleId, name, e.occurrenceId)
  {
    var n := |log| - 1;
    if l < n {
      InAbout(log[..n], times[..n], scheduleId, name, l);
    }
  }

  lemma CreatedOutcome(events: seq<L.ScheduleEvent>, scheduleId: string, id: string, e: L.ScheduleEvent)
    requires Supported(events, scheduleId, id) && e in events && e.kind == L.RunCreated
    ensures L.OutcomeOf(events) == L.IsCreated
  {
    assert L.RunBearing(e);
    L.OutcomeClosed(events);
  }

  lemma CreatedRun(events: seq<L.ScheduleEvent>, scheduleId: string, id: string, e: L.ScheduleEvent)
    requires Supported(events, scheduleId, id) && e in events && e.kind == L.RunCreated && e.runId != ""
    ensures L.FirstRun(events) == e.runId
  {
    assert L.Names(e);
    L.FirstRunIsNamed(events);
  }

  lemma CreatedLateness(events: seq<L.ScheduleEvent>, scheduleId: string, id: string, e: L.ScheduleEvent, expected: Time)
    requires Supported(events, scheduleId, id) && e in events && e.kind == L.RunCreated
    ensures L.FirstLateness(events, L.RunCreated, expected) == Some(if e.at < expected then 0 else e.at - expected)
  {
    L.FirstLatenessIsOfAnEvent(events, L.RunCreated, expected);
  }

  lemma RowOfCreated(events: seq<L.ScheduleEvent>, scheduleId: string, id: string, e: L.ScheduleEvent, expected: Time)
    requires Supported(events, scheduleId, id) && e in events && e.kind == L.RunCreated && e.runId != ""
    requires ExpectedFromOccurrenceId(id) == Some(expected)
    ensures var row := L.Ledger(events);
            && row.outcome == L.IsCreated && row.runId == e.runId && row.expectedAt == expected
            && row.creationLateness == Some(if e.at < expected then 0 else e.at - expected)
  {
    L.LedgerColumns(events, scheduleId, id, Some(expected));
    CreatedOutcome(events, scheduleId, id, e);
    CreatedRun(events, scheduleId, id, e);
    CreatedLateness(events, scheduleId, id, e, expected);
    Read(L.Ledger(events), L.RecordedOf(events), expected, e.runId,
         Some(if e.at < expected then 0 else e.at - expected), L.FirstLateness(events, L.AttemptStarted, expected));
  }

  /** The columns of a created occurrence. */
  lemma Read(p: L.Row, recorded: Time, expected: Time, run: string, created: Option<nat>, started: Option<nat>)
    requires L.Columns(p, L.IsCreated, recorded, expected, run, created, started)
    ensures p.outcome == L.IsCreated && p.runId == run && p.expectedAt == expected && p.creationLateness == created
  {
  }

  lemma RowOfSkipped(events: seq<L.ScheduleEvent>, scheduleId: string, id: string, e: L.ScheduleEvent, expected: Time)
    requires Supported(events, scheduleId, id) && e in events && e.kind == L.Skip && ExpectedFromOccurrenceId(id) == Some(expected)
    ensures var row := L.Ledger(events);
            && row.outcome == L.IsSkipped && row.runId == "" && row.expectedAt == expected
            && row.creationLateness == None && row.startLateness == None
  {
    L.LedgerColumns(events, scheduleId, id, Some(expected));
    L.OutcomeClosed(events);
  }

  lemma RowOfDue(events: seq<L.ScheduleEvent>, scheduleId: string, id: string, expected: Time)
    requires Supported(events, scheduleId, id) && events != [] && ExpectedFromOccurrenceId(id) == Some(expected)
    requires forall e :: e in events ==> e.kind == L.Due
    ensures L.Ledger(events).outcome == L.IsDue && L.Ledger(events).runId == "" && L.Ledger(events).expectedAt == expected
  {
    L.LedgerColumns(events, scheduleId, id, Some(expected));
    assert events[0] in events;
    L.OutcomeClosed(events);
  }

  /** In every run of the claim protocol and for every arrival order: an occurrence whose run was created is in the ledger
      as created, with that run, its expected time to the second, and how late the run was; one that was passed over is in
      it as skipped, with no run. */
  lemma LedgerTellsTheClaim(first: Time, steps: seq<C.Step>, times: seq<Time>, scheduleId: string, name: C.Run -> string,
                            l: nat, arrived: seq<L.ScheduleEvent>)
    requires var log := C.After(C.Init(first), steps).log; Clocked(log, times) && l < |log|
    requires var log := C.After(C.Init(first), steps).log;
             Permutes(About(log, times, scheduleId, name, OccurrenceId(scheduleId, log[l].notice.at)), arrived)
    ensures var notice := C.After(C.Init(first), steps).log[l].notice;
            var expected, row := notice.at / 1_000_000_000 * 1_000_000_000, L.Ledger(arrived);
            && row.expectedAt == expected
            && (notice.Created? && name(notice.run) != "" ==>
                  && row.outcome == L.IsCreated && row.runId == name(notice.run)
                  && row.creationLateness == Some(if times[l] < expected then 0 else times[l] - expected))
            && (notice.Skipped? ==> row.outcome == L.IsSkipped && row.runId == "" && row.creationLateness == None)
  {
    var log := C.After(C.Init(first), steps).log;
    var id := OccurrenceId(scheduleId, log[l].notice.at);
    IdOf(log[l].notice, times[l], scheduleId, name);
    InAbout(log, times, scheduleId, name, l);
    OccurrenceIdRoundTrip(scheduleId, log[l].notice.at);
    ProtocolSupports(first, steps, times, scheduleId, name, id);
    LedgerIsOrderFree(first, steps, times, scheduleId, name, id, arrived);
    ToldOf(About(log, times, scheduleId, name, id), log[l].notice, times[l], scheduleId, name);
  }

  lemma ToldOf(events: seq<L.ScheduleEvent>, notice: C.Notice, at: Time, scheduleId: string, name: C.Run -> string)
    requires var e := EventOf(notice, at, scheduleId, name);
             && e in events && Supported(events, scheduleId, e.occurrenceId)
             && ExpectedFromOccurrenceId(e.occurrenceId) == Some(notice.at / 1_000_000_000 * 1_000_000_000)
    ensures var expected, row := notice.at / 1_000_000_000 * 1_000_000_000, L.Ledger(events);
            && row.expectedAt == expected
            && (notice.Created? && name(notice.run) != "" ==>
                  && row.outcome == L.IsCreated && row.runId == name(notice.run)
                  && row.creationLateness == Some(if at < expected then 0 else at - expected))
            && (notice.Skipped? ==> row.outcome == L.IsSkipped && row.runId == "" && row.creationLateness == None)
  {
    var e, expected := EventOf(notice, at, scheduleId, name), notice.at / 1_000_000_000 * 1_000_000_000;
    L.LedgerColumns(events, scheduleId, e.occurrenceId, Some(expected));
    if notice.Created? && name(notice.run) != "" {
      RowOfCreated(events, scheduleId, e.occurrenceId, e, expected);
    }
    if notice.Skipped? {
      RowOfSkipped(events, scheduleId, e.occurrenceId, e, expected);
    }
  }
}
