/** dashboard/src/lib/liveClient.ts: a client that reconnects a little behind its cursor and drops what it has seen,
    against a server that replays committed events and then streams published ones. One run between two resyncs. */
module LiveClient {
  import opened Permutations

  const RESUME_OVERLAP := 5
  const SEEN_CAP := 1000

  /** The id check: ids already seen are refused, the oldest of more than SEEN_CAP is forgotten. */
  function Remember(seen: seq<nat>, id: nat): seq<nat> {
    var grown := seen + [id];
    if |grown| > SEEN_CAP then grown[1..] else grown
  }

  function Resume(cursor: nat): nat {
    if cursor < RESUME_OVERLAP then 0 else cursor - RESUME_OVERLAP
  }

  class Client {
    var cursor: nat
    var seen: seq<nat>

    constructor (watermark: nat)
      ensures cursor == watermark && seen == []
    {
      cursor, seen := watermark, [];
    }

    /** isNew; events without an id cannot be told apart and always pass. */
    method IsNew(id: nat) returns (isNew: bool)
      modifies this`seen
      ensures isNew <==> id == 0 || id !in old(seen)
      ensures seen == if id != 0 && isNew then Remember(old(seen), id) else old(seen)
    {
      if id == 0 {
        return true;
      }
      if id in seen {
        return false;
      }
      seen := seen + [id];
      if |seen| > SEEN_CAP {
        seen := seen[1..];
      }
      return true;
    }

    /** One event frame: passes the id check or is dropped; the cursor never goes back. */
    method Receive(id: nat) returns (passed: bool)
      modifies this
      ensures passed <==> id == 0 || id !in old(seen)
      ensures cursor == if passed && id > old(cursor) then id else old(cursor)
      ensures seen == if id != 0 && passed then Remember(old(seen), id) else old(seen)
    {
      passed := IsNew(id);
      if passed && id > cursor {
        cursor := id;
      }
    }
  }

  // ---------------------------------------------------------------------------------------------------------
  // Client and server together
  // ---------------------------------------------------------------------------------------------------------

  /** The connection: what the server has still to send on it, and everything it has put on it. */
  datatype Link = Down | Up(queue: seq<nat>, sent: set<nat>)

  datatype State = State(
    committed: set<nat>,
    published: set<nat>,
    link: Link,
    cursor: nat,
    seen: seq<nat>,
    passed: seq<nat>)

  function Init(watermark: nat, committed: set<nat>, published: set<nat>): State {
    State(committed, published, Down, watermark, [], [])
  }

  datatype Step =
    | Commit(id: nat)
    | Publish(id: nat)
    | Connect(rows: seq<nat>)
    | Deliver
    | Drop

  ghost predicate Answer(committed: set<nat>, after: nat, rows: seq<nat>) {
    && (forall i, j :: 0 <= i < j < |rows| ==> rows[i] < rows[j])
    && (forall id: nat :: id in rows <==> id in committed && id > after)
  }

  /** A step that is not possible in a state leaves it as it is. */
  ghost function Apply(s: State, step: Step): State {
    match step
    case Commit(id) =>
      if id > 0 then s.(committed := s.committed + {id}) else s
    case Publish(id) =>
      if id in s.committed && id !in s.published then
        var t := s.(published := s.published + {id});
        if s.link.Up? && id !in s.link.sent then t.(link := Up(s.link.queue + [id], s.link.sent + {id})) else t
      else s
    case Connect(rows) =>
      if s.link.Down? && Answer(s.committed, Resume(s.cursor), rows) then
        s.(link := Up(rows, Ids(rows)))
      else s
    case Deliver =>
      if s.link.Up? && s.link.queue != [] then
        var id := s.link.queue[0];
        var t := s.(link := Up(s.link.queue[1..], s.link.sent));
        if id in s.seen then t
        else t.(seen := Remember(s.seen, id), cursor := if id > s.cursor then id else s.cursor, passed := s.passed + [id])
      else s
    case Drop => s.(link := Down)
  }

  function Ids(s: seq<nat>): set<nat> {
    set id | id in s
  }

  /** Events that reach or await the client are at most 4 ids behind its cursor. */
  ghost predicate Lag(s: State, watermark: nat) {
    && (forall id :: id in s.committed && id > watermark && id !in s.passed ==> id + 4 >= s.cursor)
    && (s.link.Up? && s.link.queue != [] ==> s.link.queue[0] + 4 >= s.cursor)
  }

  ghost function After(s: State, steps: seq<Step>): State {
    if steps == [] then s else Apply(After(s, steps[..|steps| - 1]), steps[|steps| - 1])
  }

  /** The lag bound holds all along. */
  ghost predicate Timely(s: State, steps: seq<Step>, watermark: nat) {
    && Lag(After(s, steps), watermark)
    && (steps != [] ==> Timely(s, steps[..|steps| - 1], watermark))
  }

  // ---------------------------------------------------------------------------------------------------------
  // Invariant
  // ---------------------------------------------------------------------------------------------------------

  function Recent(s: seq<nat>): seq<nat> {
    if |s| <= SEEN_CAP then s else s[|s| - SEEN_CAP..]
  }

  /** No passed event is more than 4 ids behind one that passed before it. */
  ghost predicate NearlyAscending(s: seq<nat>) {
    forall i, j :: 0 <= i < j < |s| ==> s[j] + 4 >= s[i]
  }

  ghost predicate Passed(s: State) {
    && Distinct(s.passed) && NearlyAscending(s.passed)
    && s.seen == Recent(s.passed)
    && (forall id :: id in s.passed ==> id <= s.cursor)
  }

  /** An event after the watermark that has not passed is on the connection, or will be when it is published. */
  ghost predicate Coming(s: State, id: nat) {
    id in s.passed || (s.link.Up? && id in s.link.queue) || id !in s.published
  }

  ghost predicate Inv(s: State, watermark: nat) {
    // One value, so that a failed proof names the predicate and not each of its parts.
    var good :=
      && s.cursor >= watermark
      && s.published <= s.committed
      && Passed(s)
      && (forall id :: id in s.committed ==> id > 0)
      && (s.link.Up? ==> forall id :: id in s.link.sent ==> id in s.link.queue || id in s.passed)
      && (s.link.Up? ==> forall id :: id in s.committed && id > watermark ==> Coming(s, id));
    good
  }

  // -- the seen set is large enough

  function Range(low: int, n: nat): (r: set<int>)
    ensures |r| == n && forall i :: i in r <==> low <= i < low + n
  {
    if n == 0 then {} else Range(low, n - 1) + {low + (n - 1)}
  }

  /** Distinct numbers in a range of n are at most n. */
  lemma Pigeonhole(s: seq<nat>, low: int, n: nat)
    requires Distinct(s) && forall id :: id in s ==> low <= id < low + n
    ensures |s| <= n
  {
    DistinctSize(s);
    SubsetSize((set id: int | id in s), Range(low, n));
  }

  lemma {:induction false} DistinctSize(s: seq<nat>)
    requires Distinct(s)
    ensures |set id: int | id in s| == |s|
  {
    if s != [] {
      var n := |s| - 1;
      DistinctSize(s[..n]);
      assert s == s[..n] + [s[n]];
      assert (set id: int | id in s) == (set id: int | id in s[..n]) + {s[n]};
      assert s[n] !in s[..n];
    }
  }

  lemma SubsetSize(a: set<int>, b: set<int>)
    requires a <= b
    ensures |a| <= |b|
  {
    assert b == a + (b - a);
  }

  /** An event that is at most 4 behind the cursor and has passed before is still remembered. */
  lemma StillSeen(s: State, id: nat)
    requires Passed(s) && id in s.passed && id + 4 >= s.cursor
    ensures id in s.seen
  {
    var i :| 0 <= i < |s.passed| && s.passed[i] == id;
    var later := s.passed[i..];
    forall x | x in later ensures id - 4 <= x < id - 4 + 9 {
      var k :| 0 <= k < |later| && later[k] == x;
      assert s.passed[i + k] == x && x in s.passed;
    }
    assert Distinct(later);
    Pigeonhole(later, id - 4, 9);
    if |s.passed| > SEEN_CAP {
      assert s.seen[i - (|s.passed| - SEEN_CAP)] == id;
    }
  }

  // -- steps

  lemma RememberIsRecent(passed: seq<nat>, id: nat)
    ensures Remember(Recent(passed), id) == Recent(passed + [id])
  {
  }

  lemma PassKeeps(s: State, id: nat)
    requires Passed(s) && id !in s.seen && id + 4 >= s.cursor
    ensures Passed(s.(seen := Remember(s.seen, id), cursor := if id > s.cursor then id else s.cursor, passed := s.passed + [id]))
    ensures id !in s.passed
  {
    if id in s.passed {
      StillSeen(s, id);
    }
    RememberIsRecent(s.passed, id);
    DistinctSnoc(s.passed, id);
    forall i | 0 <= i < |s.passed| ensures id + 4 >= s.passed[i] {
      assert s.passed[i] in s.passed;
    }
  }

  lemma DeliverKeeps(s: State, watermark: nat)
    requires Inv(s, watermark) && Lag(s, watermark) && s.link.Up? && s.link.queue != []
    ensures Inv(Apply(s, Deliver), watermark)
  {
    var s' := Apply(s, Deliver);
    var id := s.link.queue[0];
    assert s.link.queue == [id] + s.link.queue[1..];
    if id in s.seen {
      assert id in s.passed;
    } else {
      PassKeeps(s, id);
    }
    assert forall x :: x in s.passed || x == id <==> x in s'.passed || (id in s.seen && x == id);
    forall x | x in s'.committed && x > watermark ensures Coming(s', x) {
      assert Coming(s, x);
    }
  }

  lemma ConnectKeeps(s: State, rows: seq<nat>, watermark: nat)
    requires Inv(s, watermark) && Lag(s, watermark)
    ensures Inv(Apply(s, Connect(rows)), watermark)
  {
    var s' := Apply(s, Connect(rows));
    if s.link.Down? && s'.link.Up? {
      forall id | id in s'.committed && id > watermark ensures Coming(s', id) {
        if id !in s.passed {
          assert id + 4 >= s.cursor && id > 0;
          assert id in rows;
        }
      }
    }
  }

  lemma StepKeeps(s: State, step: Step, watermark: nat)
    requires Inv(s, watermark) && Lag(s, watermark)
    ensures Inv(Apply(s, step), watermark)
  {
    match step
    case Deliver =>
      if s.link.Up? && s.link.queue != [] {
        DeliverKeeps(s, watermark);
      }
    case Connect(rows) => ConnectKeeps(s, rows, watermark);
    case Publish(id) =>
      var s' := Apply(s, step);
      if s.link.Up? {
        forall x | x in s'.committed && x > watermark ensures Coming(s', x) {
          assert Coming(s, x);
        }
      }
    case Commit(id) =>
      var s' := Apply(s, step);
      if s.link.Up? {
        forall x | x in s'.committed && x > watermark ensures Coming(s', x) {
          if x in s.committed {
            assert Coming(s, x);
          }
        }
      }
    case Drop =>
  }

  ghost predicate ProperStart(committed: set<nat>, published: set<nat>) {
    published <= committed && forall id :: id in committed ==> id > 0
  }

  lemma {:induction false} Reachable(watermark: nat, committed: set<nat>, published: set<nat>, steps: seq<Step>)
    requires ProperStart(committed, published) && Timely(Init(watermark, committed, published), steps, watermark)
    ensures Inv(After(Init(watermark, committed, published), steps), watermark)
  {
    if steps != [] {
      Reachable(watermark, committed, published, steps[..|steps| - 1]);
      StepKeeps(After(Init(watermark, committed, published), steps[..|steps| - 1]), steps[|steps| - 1], watermark);
    }
  }

  // ---------------------------------------------------------------------------------------------------------
  // Theorems over every sequence of drops and reconnects
  // ---------------------------------------------------------------------------------------------------------

  /** At most once: no event passes the id check twice, although only 1000 ids are remembered. */
  lemma AtMostOnce(watermark: nat, committed: set<nat>, published: set<nat>, steps: seq<Step>)
    requires ProperStart(committed, published) && Timely(Init(watermark, committed, published), steps, watermark)
    ensures Distinct(After(Init(watermark, committed, published), steps).passed)
  {
    Reachable(watermark, committed, published, steps);
  }

  /** Nothing is lost: while connected, every published event after the watermark has passed or is on the connection; and
      while disconnected, every one that has not passed is after the point the client will resume from. */
  lemma NothingLost(watermark: nat, committed: set<nat>, published: set<nat>, steps: seq<Step>, id: nat)
    requires ProperStart(committed, published) && Timely(Init(watermark, committed, published), steps, watermark)
    requires var s := After(Init(watermark, committed, published), steps); id in s.published && id > watermark
    ensures var s := After(Init(watermark, committed, published), steps);
            id in s.passed || (if s.link.Up? then id in s.link.queue else id > Resume(s.cursor))
  {
    Reachable(watermark, committed, published, steps);
    var s := After(Init(watermark, committed, published), steps);
    if s.link.Up? {
      assert Coming(s, id);
    }
  }

  /** Exactly once: when the connection has delivered everything and everything is published, every event after the
      watermark has passed the id check exactly once. */
  lemma ExactlyOnce(watermark: nat, committed: set<nat>, published: set<nat>, steps: seq<Step>, id: nat)
    requires ProperStart(committed, published) && Timely(Init(watermark, committed, published), steps, watermark)
    requires var s := After(Init(watermark, committed, published), steps);
             s.link.Up? && s.link.queue == [] && id in s.published && id > watermark
    ensures multiset(After(Init(watermark, committed, published), steps).passed)[id] == 1
  {
    var s := After(Init(watermark, committed, published), steps);
    AtMostOnce(watermark, committed, published, steps);
    NothingLost(watermark, committed, published, steps, id);
    CountOne(s.passed, id);
  }

  lemma {:induction false} CountOne(s: seq<nat>, id: nat)
    requires Distinct(s)
    ensures multiset(s)[id] == if id in s then 1 else 0
  {
    if s != [] {
      var n := |s| - 1;
      CountOne(s[..n], id);
      assert s == s[..n] + [s[n]];
    }
  }

  lemma Then(s: State, steps: seq<Step>, step: Step)
    ensures After(s, steps + [step]) == Apply(After(s, steps), step)
  {
    assert (steps + [step])[..|steps|] == steps;
  }

  // ---------------------------------------------------------------------------------------------------------
  // When an event is lost
  // ---------------------------------------------------------------------------------------------------------

  /** Whatever happens next, the event never passes. */
  ghost predicate LostForever(s: State, id: nat) {
    forall more {:trigger After(s, more)} :: id !in After(s, more).passed
  }

  /** Published, not passed, not on the connection, and not after the point the client would resume from. */
  ghost predicate Missed(s: State, id: nat) {
    id in s.published && id !in s.passed && !(s.link.Up? && id in s.link.queue) && id <= Resume(s.cursor)
  }

  lemma {:induction false} MissedStays(s: State, more: seq<Step>, id: nat)
    requires Missed(s, id)
    ensures Missed(After(s, more), id)
  {
    if more != [] {
      MissedStays(s, more[..|more| - 1], id);
      MissedStep(After(s, more[..|more| - 1]), more[|more| - 1], id);
    }
  }

  lemma MissedStep(s: State, step: Step, id: nat)
    requires Missed(s, id)
    ensures Missed(Apply(s, step), id)
  {
    if step.Deliver? && s.link.Up? && s.link.queue != [] {
      assert s.link.queue == [s.link.queue[0]] + s.link.queue[1..];
    }
  }

  /** What every state has, with or without the lag bound. */
  ghost predicate Sound(s: State) {
    s.published <= s.committed && forall id :: id in s.seen ==> id in s.passed
  }

  lemma {:induction false} AlwaysSound(s: State, steps: seq<Step>)
    requires Sound(s)
    ensures Sound(After(s, steps))
  {
    if steps != [] {
      AlwaysSound(s, steps[..|steps| - 1]);
    }
  }

  lemma {:induction false} Largest(ids: set<nat>) returns (most: nat)
    requires ids != {}
    ensures most in ids && forall id :: id in ids ==> id <= most
  {
    var one :| one in ids;
    var others := ids - {one};
    assert forall id :: id in ids <==> id == one || id in others;
    most := one;
    if others != {} {
      var rest := Largest(others);
      most := if one < rest then rest else one;
    }
  }

  /** The rows the server would answer with. */
  lemma {:induction false} Listed(ids: set<nat>) returns (rows: seq<nat>)
    ensures forall i, j :: 0 <= i < j < |rows| ==> rows[i] < rows[j]
    ensures forall id :: id in rows <==> id in ids
  {
    rows := [];
    if ids != {} {
      var most := Largest(ids);
      var before := Listed(ids - {most});
      forall i | 0 <= i < |before| ensures before[i] < most {
        assert before[i] in before;
      }
      rows := before + [most];
    }
  }

  /** An event on the connection that has not passed passes once it is reached. */
  lemma {:induction false} Arrives(s: State, before: seq<Step>, id: nat) returns (more: seq<Step>)
    requires var now := After(s, before); Sound(now) && now.link.Up? && id in now.link.queue && id !in now.passed
    ensures id in After(s, more).passed
    decreases |After(s, before).link.queue|
  {
    var now := After(s, before);
    assert now.link.queue == [now.link.queue[0]] + now.link.queue[1..];
    Then(s, before, Deliver);
    more := before + [Deliver];
    if now.link.queue[0] != id {
      more := Arrives(s, more, id);
    }
  }

  /** An event after the resume point arrives if the client reconnects. */
  lemma Refetched(s: State, id: nat) returns (more: seq<Step>)
    requires Sound(s) && id in s.published && id !in s.passed && id > Resume(s.cursor)
    ensures id in After(s, more).passed
  {
    var rows := Listed(set x | x in s.committed && x > Resume(s.cursor));
    Then(s, [], Drop);
    Then(s, [Drop], Connect(rows));
    assert [] + [Drop] == [Drop];
    assert Answer(s.committed, Resume(s.cursor), rows);
    more := Arrives(s, [Drop] + [Connect(rows)], id);
  }

  lemma LostExactly(s: State, id: nat)
    requires Sound(s) && id in s.published
    ensures LostForever(s, id) <==> Missed(s, id)
  {
    if Missed(s, id) {
      forall more ensures id !in After(s, more).passed {
        MissedStays(s, more, id);
      }
    } else if id in s.passed {
      assert After(s, []) == s;
    } else if s.link.Up? && id in s.link.queue {
      var more := Arrives(s, [], id);
    } else {
      var more := Refetched(s, id);
    }
  }

  /** In every run, timely or not, a published event is lost for ever if and only if it has not passed, is not on the
      connection, and the client has come so far that it lies at or before the resume point. */
  lemma LostExact(watermark: nat, committed: set<nat>, published: set<nat>, steps: seq<Step>, id: nat)
    requires ProperStart(committed, published) && id in After(Init(watermark, committed, published), steps).published
    ensures var s := After(Init(watermark, committed, published), steps);
            LostForever(s, id) <==> id !in s.passed && !(s.link.Up? && id in s.link.queue) && id <= Resume(s.cursor)
  {
    AlwaysSound(Init(watermark, committed, published), steps);
    LostExactly(After(Init(watermark, committed, published), steps), id);
  }

  /** The bound is sharp: any event at least 5 ids behind the cursor that is committed while the client is connected and
      published while it is not is lost for ever once the client is back. */
  lemma FiveBehindIsLost(watermark: nat, id: nat, last: nat) returns (steps: seq<Step>)
    requires watermark < id && id + 5 <= last
    ensures var s := After(Init(watermark, {last}, {last}), steps);
            s.link.Up? && s.link.queue == [] && s.cursor == last && id in s.published && id > watermark && LostForever(s, id)
  {
    var s0 := Init(watermark, {last}, {last});
    var first := FirstVisit(s0, last);
    var t := first + [Commit(id)];
    Then(s0, first, Commit(id));
    Then(s0, t, Drop);
    t := t + [Drop];
    Then(s0, t, Publish(id));
    t := t + [Publish(id)];
    var away := State({id, last}, {id, last}, Down, last, [last], [last]);
    assert After(s0, t) == away;
    Then(s0, t, Connect([last]));
    steps := t + [Connect([last])] + [Deliver];
    Then(s0, t + [Connect([last])], Deliver);
    SecondVisit(away, id, last);
    LostExactly(After(s0, steps), id);
  }

  lemma FirstVisit(s0: State, last: nat) returns (steps: seq<Step>)
    requires s0 == Init(s0.cursor, {last}, {last}) && s0.cursor < last
    ensures After(s0, steps) == State({last}, {last}, Up([], {last}), last, [last], [last])
  {
    steps := [] + [Connect([last])] + [Deliver];
    Then(s0, [], Connect([last]));
    Then(s0, [] + [Connect([last])], Deliver);
    var rows := [last];
    assert Answer(s0.committed, Resume(s0.cursor), rows);
    assert Ids(rows) == {last};
    assert rows[1..] == [];
    assert Remember([], last) == rows && [] + rows == rows;
  }

  lemma SecondVisit(away: State, id: nat, last: nat)
    requires away == State({id, last}, {id, last}, Down, last, [last], [last]) && id + 5 <= last
    ensures Apply(Apply(away, Connect([last])), Deliver) == away.(link := Up([], {last}))
  {
    var rows := [last];
    assert Answer(away.committed, Resume(away.cursor), rows);
    assert Ids(rows) == {last};
    assert rows[1..] == [];
  }
}
