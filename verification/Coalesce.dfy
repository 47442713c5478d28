/** internal/live/priority.go: suppressing a repeated signal for the same resource, with a memory that is pruned. */
module Coalesce {
  import opened LiveEvents
  import LiveHub

  /** Nanoseconds after Go's zero time. */
  type Time = nat

  const WINDOW := 250_000_000
  const PRUNE_EVERY := 1_000_000_000

  type Key = string

  function KeyOf(kind: string, subject: string): Key {
    kind + "|" + subject
  }

  /** A call once its type has been ranked. */
  datatype Call = Call(key: Key, critical: bool, now: Time)

  function CallOf(kind: string, subject: string, now: Time): Call {
    Call(KeyOf(kind, subject), PriorityOf(kind) == Critical, now)
  }

  predicate Suppressed(memory: map<Key, Time>, c: Call) {
    !c.critical && c.key in memory && c.now - memory[c.key] < WINDOW
  }

  /** The memory after one call, when nothing is ever forgotten. */
  function Remembered(memory: map<Key, Time>, c: Call): map<Key, Time> {
    if c.critical || Suppressed(memory, c) then memory else memory[c.key := c.now]
  }

  /** The never-forgetting memory after all these calls. */
  function MemoryAfter(calls: seq<Call>): map<Key, Time> {
    if calls == [] then map[] else Remembered(MemoryAfter(calls[..|calls| - 1]), calls[|calls| - 1])
  }

  predicate SuppressedAt(calls: seq<Call>, i: nat)
    requires i < |calls|
  {
    Suppressed(MemoryAfter(calls[..i]), calls[i])
  }

  ghost predicate Monotone(calls: seq<Call>) {
    forall i, j :: 0 <= i < j < |calls| ==> calls[i].now <= calls[j].now
  }

  /** The pruned memory differs from the full one only in entries a whole window old. */
  ghost predicate Faithful(pruned: map<Key, Time>, full: map<Key, Time>, now: Time) {
    && (forall k :: k in pruned ==> k in full && pruned[k] == full[k])
    && (forall k :: k in full && k !in pruned ==> full[k] + WINDOW <= now)
    && (forall k :: k in full ==> full[k] <= now)
  }

  /** A call decides the same with both memories, and they still agree afterwards. */
  lemma FaithfulStep(pruned: map<Key, Time>, full: map<Key, Time>, c: Call)
    requires Faithful(pruned, full, c.now)
    ensures Suppressed(pruned, c) <==> Suppressed(full, c)
    ensures Faithful(Remembered(pruned, c), Remembered(full, c), c.now)
  {
  }

  lemma MonotoneSnoc(calls: seq<Call>, c: Call)
    requires Monotone(calls) && (calls != [] ==> calls[|calls| - 1].now <= c.now)
    ensures Monotone(calls + [c]) && (calls + [c])[..|calls|] == calls
  {
  }

  class Coalescer {
    var lastPublished: map<Key, Time>
    var lastPrune: Time
    var suppressed: nat
    ghost var calls: seq<Call>

    /** The pruned memory stands for the full one at the time of the last call. */
    ghost predicate Valid()
      reads this
    {
      && Monotone(calls)
      && Faithful(lastPublished, MemoryAfter(calls), if calls == [] then 0 else calls[|calls| - 1].now)
    }

    constructor ()
      ensures Valid() && calls == []
    {
      lastPublished, lastPrune, suppressed, calls := map[], 0, 0, [];
    }

    /** pruneCoalesceLocked: at most once a second, everything a window old is forgotten. */
    method Prune(now: Time)
      modifies this`lastPublished, this`lastPrune
      ensures forall k :: k in lastPublished ==> k in old(lastPublished) && lastPublished[k] == old(lastPublished)[k]
      ensures forall k :: k in old(lastPublished) && k !in lastPublished ==> now - old(lastPublished)[k] >= WINDOW
    {
      if now - lastPrune < PRUNE_EVERY {
        return;
      }
      lastPrune := now;
      lastPublished := map k | k in lastPublished && !(now - lastPublished[k] >= WINDOW) :: lastPublished[k];
    }

    /** shouldCoalesce: with a clock that does not go back, the decision is the one a memory that never forgets makes. */
    method ShouldCoalesce(kind: string, subject: string, now: Time) returns (yes: bool)
      requires Valid()
      requires calls != [] ==> calls[|calls| - 1].now <= now // the clock does not go back
      modifies this
      ensures Valid() && calls == old(calls) + [CallOf(kind, subject, now)]
      ensures yes <==> SuppressedAt(calls, |old(calls)|)
      ensures yes <==> !Alarm(kind) && Fresh(calls, |old(calls)|, kind + "|" + subject)
      ensures suppressed == old(suppressed) + (if yes then 1 else 0)
    {
      var c := CallOf(kind, subject, now);
      MonotoneSnoc(calls, c);
      NextExactly(calls, kind, subject, now);
      FaithfulStep(lastPublished, MemoryAfter(calls), c);
      if c.critical {
        calls := calls + [c];
        return false;
      }
      ghost var full := MemoryAfter(calls);
      Prune(now);
      FaithfulStep(lastPublished, full, c);
      calls := calls + [c];
      if c.key in lastPublished && now - lastPublished[c.key] < WINDOW {
        suppressed := suppressed + 1;
        return true;
      }
      lastPublished := lastPublished[c.key := now];
      return false;
    }
  }

  /** Publish on the production hub: a suppressed event reaches nobody, any other is published as on a plain hub. */
  method PublishCoalesced(hub: LiveHub.Hub, coalescer: Coalescer, e: Event, now: Time)
    requires hub.Valid() && coalescer.Valid()
    requires coalescer.calls != [] ==> coalescer.calls[|coalescer.calls| - 1].now <= now
    modifies hub, coalescer
    ensures hub.Valid() && coalescer.Valid() && coalescer.calls == old(coalescer.calls) + [CallOf(e.kind, e.subject, now)]
    ensures hub.log == old(hub.log) + (if !Alarm(e.kind) && Fresh(coalescer.calls, |old(coalescer.calls)|, e.kind + "|" + e.subject) then [] else [e])
    ensures Alarm(e.kind) ==> hub.log == old(hub.log) + [e]
  {
    var yes := coalescer.ShouldCoalesce(e.kind, e.subject, now);
    if !yes {
      hub.Publish(e);
    }
  }

  // ---------------------------------------------------------------------------------------------------------
  // What the decisions guarantee
  // ---------------------------------------------------------------------------------------------------------

  /** The call was let through and remembered. */
  ghost predicate Admitted(calls: seq<Call>, i: nat) {
    i < |calls| && !calls[i].critical && !SuppressedAt(calls, i)
  }

  ghost predicate AdmittedWith(calls: seq<Call>, i: nat, key: Key) {
    Admitted(calls, i) && calls[i].key == key
  }

  lemma AdmittedBefore(calls: seq<Call>, n: nat, i: nat, key: Key)
    requires n <= |calls|
    ensures i < n ==> (AdmittedWith(calls, i, key) <==> AdmittedWith(calls[..n], i, key))
  {
    if i < n {
      assert calls[..n][..i] == calls[..i];
    }
  }

  /** What the memory holds for a key is the time of an admitted call. */
  lemma {:induction false} MemoryIsOfAnAdmitted(calls: seq<Call>, key: Key) returns (i: nat)
    requires key in MemoryAfter(calls)
    ensures AdmittedWith(calls, i, key) && calls[i].now == MemoryAfter(calls)[key]
  {
    var n := |calls| - 1;
    if AdmittedWith(calls, n, key) {
      i := n;
    } else {
      i := MemoryIsOfAnAdmitted(calls[..n], key);
      AdmittedBefore(calls, n, i, key);
    }
  }

  /** It is the latest one. */
  lemma {:induction false} MemoryIsTheLatest(calls: seq<Call>, key: Key, i: nat)
    requires Monotone(calls) && AdmittedWith(calls, i, key)
    ensures key in MemoryAfter(calls) && calls[i].now <= MemoryAfter(calls)[key]
  {
    var n := |calls| - 1;
    if i < n {
      AdmittedBefore(calls, n, i, key);
      MemoryIsTheLatest(calls[..n], key, i);
    }
  }

  /** Every suppressed call has an admitted one with the same key less than a window before it. */
  lemma SuppressedHasAFreshOne(calls: seq<Call>, i: nat) returns (j: nat)
    requires i < |calls| && SuppressedAt(calls, i)
    ensures j < i && AdmittedWith(calls, j, calls[i].key) && calls[i].now - calls[j].now < 250_000_000 && !calls[i].critical
  {
    var key := calls[i].key;
    j := MemoryIsOfAnAdmitted(calls[..i], key);
    AdmittedBefore(calls, i, j, key);
  }

  /** Two admitted calls with the same key are at least a window apart. */
  lemma AdmittedAreApart(calls: seq<Call>, i: nat, j: nat, key: Key)
    requires Monotone(calls) && i < j && AdmittedWith(calls, i, key) && AdmittedWith(calls, j, key)
    ensures calls[j].now - calls[i].now >= 250_000_000
  {
    AdmittedBefore(calls, j, i, key);
    MemoryIsTheLatest(calls[..j], key, i);
  }

  /** A call with this key was let through less than a quarter of a second before the i-th. */
  ghost predicate Fresh(calls: seq<Call>, i: nat, key: Key)
    requires i < |calls|
  {
    exists j :: 0 <= j < i && AdmittedWith(calls, j, key) && calls[i].now - calls[j].now < 250_000_000
  }

  /** A call is suppressed if and only if it is not critical and such a call came before. */
  lemma SuppressedExactly(calls: seq<Call>, i: nat)
    requires Monotone(calls) && i < |calls|
    ensures SuppressedAt(calls, i) <==> !calls[i].critical && Fresh(calls, i, calls[i].key)
  {
    if SuppressedAt(calls, i) {
      var j := SuppressedHasAFreshOne(calls, i);
    } else if Fresh(calls, i, calls[i].key) {
      var j :| 0 <= j < i && AdmittedWith(calls, j, calls[i].key) && calls[i].now - calls[j].now < 250_000_000;
      AdmittedBefore(calls, i, j, calls[i].key);
      MemoryIsTheLatest(calls[..i], calls[i].key, j);
    }
  }

  lemma NextExactly(calls: seq<Call>, kind: string, subject: string, now: Time)
    requires Monotone(calls + [CallOf(kind, subject, now)])
    ensures var next := calls + [CallOf(kind, subject, now)];
            SuppressedAt(next, |calls|) <==> !Alarm(kind) && Fresh(next, |calls|, kind + "|" + subject)
  {
    SuppressedExactly(calls + [CallOf(kind, subject, now)], |calls|);
  }

  /** The key tells type and subject apart when the types hold no bar. */
  lemma KeyIsInjective(kind: string, subject: string, kind': string, subject': string)
    requires '|' !in kind && '|' !in kind'
    ensures KeyOf(kind, subject) == KeyOf(kind', subject') <==> kind == kind' && subject == subject'
  {
    var key, key' := KeyOf(kind, subject), KeyOf(kind', subject');
    assert key[|kind|] == '|' && key'[|kind'|] == '|';
    assert key[..|kind|] == kind && key'[..|kind'|] == kind';
    assert key[|kind| + 1..] == subject && key'[|kind'| + 1..] == subject';
    if key == key' {
      SameBar(kind, subject, kind', subject');
      SameBar(kind', subject', kind, subject);
    }
  }

  lemma SameBar(kind: string, subject: string, kind': string, subject': string)
    requires '|' !in kind' && KeyOf(kind, subject) == KeyOf(kind', subject')
    ensures |kind| >= |kind'|
  {
    var key := KeyOf(kind, subject);
    assert key[|kind|] == '|';
    assert forall i :: 0 <= i < |kind'| ==> key[i] == kind'[i];
  }

  /** With a bar in a type it does not: two different resources share a key. */
  lemma KeyIsAmbiguousWithABar()
    ensures KeyOf("a|b", "c") == KeyOf("a", "b|c")
  {
    assert "a|b" + "|" + "c" == "a|b|c";
    assert "a" + "|" + "b|c" == "a|b|c";
  }
}
