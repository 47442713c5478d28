/** internal/live/priority.go: live events and what may happen to them when a client cannot keep up. */
module LiveEvents {
  datatype Event = Event(id: nat, kind: string, subject: string, chainId: string, attemptId: string, severity: string)

  datatype Priority = Informational | Normal | Critical

  const SUMMARY := "platform.summary"

  const CRITICAL_TYPES: seq<string> := [
    "task.failed", "run.lost", "worker.offline", "queue.no_consumer", "alert.opened", "schedule.missed",
    "monitoring.degraded", "component.offline", "pii.policy_violated", "pii.policy_reload_failed",
    "pii.policy_validation_failed"]

  const INFORMATIONAL_PREFIXES: seq<string> := [
    "task.progress", "attempt.heartbeat", "queue.pending_count", "queue.oldest_age", "queue.consumer_count",
    "queue.read", "worker.heartbeat_age", "worker.capacity_used"]

  /** The type is one of the listed names or below one. */
  predicate Under(kind: string, name: string) {
    kind == name || name + "." <= kind
  }

  predicate UnderSome(kind: string, names: seq<string>) {
    names != [] && (Under(kind, names[0]) || UnderSome(kind, names[1..]))
  }

  predicate Listed(kind: string, names: seq<string>) {
    names != [] && (kind == names[0] || Listed(kind, names[1..]))
  }

  function PriorityOf(kind: string): Priority {
    if Listed(kind, CRITICAL_TYPES) then Critical
    else if UnderSome(kind, INFORMATIONAL_PREFIXES) then Informational
    else Normal
  }

  function PriorityOfEvent(e: Event): Priority {
    if e.kind == "alert.opened" && e.severity != "" && e.severity != "CRITICAL" then Normal
    else PriorityOf(e.kind)
  }

  // ---------------------------------------------------------------------------------------------------------
  // The tiers by name
  // ---------------------------------------------------------------------------------------------------------

  /** A high-frequency sample, or something below one. */
  predicate Sample(kind: string) {
    UnderSome(kind, INFORMATIONAL_PREFIXES)
  }

  /** A terminal or health-degrading change. */
  predicate Alarm(kind: string) {
    Listed(kind, CRITICAL_TYPES)
  }

  /** A recorded fact that may not be lost silently: neither a summary nor a sample. */
  predicate Fact(e: Event) {
    e.kind != "platform.summary" && !Sample(e.kind)
  }

  /** The eleven critical types. */
  lemma AlarmsAre(kind: string)
    ensures Alarm(kind) <==>
            (|| kind == "task.failed" || kind == "run.lost" || kind == "worker.offline" || kind == "queue.no_consumer"
             || kind == "alert.opened" || kind == "schedule.missed" || kind == "monitoring.degraded"
             || kind == "component.offline" || kind == "pii.policy_violated" || kind == "pii.policy_reload_failed"
             || kind == "pii.policy_validation_failed")
  {
    var names := CRITICAL_TYPES;
    ListedIs(kind, names);
    assert |names| == 11;
    assert Listed(kind, names) <==>
           (|| kind == names[0] || kind == names[1] || kind == names[2] || kind == names[3] || kind == names[4]
            || kind == names[5] || kind == names[6] || kind == names[7] || kind == names[8] || kind == names[9]
            || kind == names[10]);
  }

  lemma {:induction false} ListedIs(kind: string, names: seq<string>)
    ensures Listed(kind, names) <==> exists i :: 0 <= i < |names| && kind == names[i]
  {
    if names != [] {
      ListedIs(kind, names[1..]);
      if kind != names[0] && (exists i :: 0 <= i < |names| && kind == names[i]) {
        var i :| 0 <= i < |names| && kind == names[i];
        assert names[1..][i - 1] == kind;
      }
    }
  }

  lemma {:induction false} UnderSomeIs(kind: string, names: seq<string>)
    ensures UnderSome(kind, names) <==> exists i :: 0 <= i < |names| && Under(kind, names[i])
  {
    if names != [] {
      UnderSomeIs(kind, names[1..]);
      if !Under(kind, names[0]) && (exists i :: 0 <= i < |names| && Under(kind, names[i])) {
        var i :| 0 <= i < |names| && Under(kind, names[i]);
        assert Under(kind, names[1..][i - 1]);
      }
    }
  }

  lemma Joined()
    ensures "task.progress" + "." == "task.progress." && "attempt.heartbeat" + "." == "attempt.heartbeat."
    ensures "queue.pending_count" + "." == "queue.pending_count." && "queue.oldest_age" + "." == "queue.oldest_age."
    ensures "queue.consumer_count" + "." == "queue.consumer_count." && "queue.read" + "." == "queue.read."
    ensures "worker.heartbeat_age" + "." == "worker.heartbeat_age."
    ensures "worker.capacity_used" + "." == "worker.capacity_used."
  {
  }

  /** The eight samples, and everything below one of them. */
  lemma SamplesAre(kind: string)
    ensures Sample(kind) <==>
            (|| kind == "task.progress" || "task.progress." <= kind
             || kind == "attempt.heartbeat" || "attempt.heartbeat." <= kind
             || kind == "queue.pending_count" || "queue.pending_count." <= kind
             || kind == "queue.oldest_age" || "queue.oldest_age." <= kind
             || kind == "queue.consumer_count" || "queue.consumer_count." <= kind
             || kind == "queue.read" || "queue.read." <= kind
             || kind == "worker.heartbeat_age" || "worker.heartbeat_age." <= kind
             || kind == "worker.capacity_used" || "worker.capacity_used." <= kind)
  {
    var names := INFORMATIONAL_PREFIXES;
    UnderSomeIs(kind, names);
    Joined();
    assert |names| == 8;
    assert UnderSome(kind, names) <==>
           (|| Under(kind, names[0]) || Under(kind, names[1]) || Under(kind, names[2]) || Under(kind, names[3])
            || Under(kind, names[4]) || Under(kind, names[5]) || Under(kind, names[6]) || Under(kind, names[7]));
  }

  // Alarms and samples that begin alike differ at one place.

  lemma AlarmLetters(kind: string)
    requires Alarm(kind)
    ensures |kind| >= 8
    ensures kind[0] != 't' || kind[5] == 'f'
    ensures kind[0] != 'a' || kind[1] == 'l'
    ensures kind[0] != 'q' || kind[6] == 'n'
    ensures kind[0] != 'w' || kind[7] == 'o'
  {
    AlarmsAre(kind);
  }

  lemma SampleLetters(kind: string)
    requires Sample(kind)
    ensures |kind| >= 8
    ensures || (kind[0] == 't' && kind[5] == 'p') || (kind[0] == 'a' && kind[1] == 't')
            || (kind[0] == 'q' && kind[6] != 'n') || (kind[0] == 'w' && kind[7] != 'o')
  {
    SamplesAre(kind);
  }

  lemma NoSampleIsAnAlarm(kind: string)
    requires Alarm(kind)
    ensures !Sample(kind)
  {
    AlarmLetters(kind);
    if Sample(kind) {
      SampleLetters(kind);
      assert false;
    }
  }

  /** An event is dropped silently exactly when it is a sample; it is critical exactly when its type is and it is not an
      alert of lower severity. */
  lemma TierByName(e: Event)
    ensures PriorityOfEvent(e) == Informational <==> Sample(e.kind)
    ensures PriorityOfEvent(e) == Critical <==>
            Alarm(e.kind) && !(e.kind == "alert.opened" && e.severity != "" && e.severity != "CRITICAL")
  {
    if Alarm(e.kind) {
      NoSampleIsAnAlarm(e.kind);
    }
  }
}
