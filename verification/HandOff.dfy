/** internal/handlers/live_handler.go, GetLive: subscribe, then replay from the database, then drain the channel, while
    other goroutines commit event rows and publish them in any order. One connection to a hub that does not coalesce. */
module HandOff {
  import opened Permutations
  import opened LiveEvents
  import opened LiveHub

  const REPLAY_CAP := 500

  datatype Phase =
    | Connecting             // headers sent, not subscribed yet
    | Subscribed             // in the hub, replay query not run yet
    | Replaying(rows: seq<nat>) // rows still to be written
    | Draining
    | Resynced               // more rows than the cap: the client is told to fetch a snapshot

  /** Events are named by their row id. */
  datatype State = State(
    committed: map<nat, Event>,
    published: set<nat>,
    phase: Phase,
    cut: bool,
    channel: seq<nat>,
    delivered: set<nat>,
    written: seq<nat>)

  /** What the connection is for: the resume point, the subscription's filter, and the path and permission filters. */
  datatype Request = Request(after: nat, scope: Event -> bool, visible: Event -> bool)

  const INIT := State(map[], {}, Connecting, false, [], {}, [])

  predicate Noise(e: Event) {
    e.kind == "task.progress" || e.kind == "attempt.heartbeat"
  }

  predicate Listening(s: State) {
    s.phase != Connecting && !s.cut
  }

  /** The rows the replay query selects. */
  predicate Replayable(e: Event, r: Request) {
    !Noise(e) && r.scope(e) && r.visible(e)
  }

  ghost predicate Selects(s: State, r: Request, id: nat) {
    id in s.committed && id > r.after && Replayable(s.committed[id], r)
  }

  /** The query's answer: every selected row, by ascending id. */
  ghost predicate Answer(s: State, r: Request, rows: seq<nat>) {
    && (forall i, j :: 0 <= i < j < |rows| ==> rows[i] < rows[j])
    && (forall id: nat :: id in rows <==> Selects(s, r, id))
  }

  datatype Step =
    | Commit(id: nat, event: Event)
    | Publish(id: nat)
    | Subscribe
    | Query(rows: seq<nat>)
    | WriteRow
    | Drain

  /** Publish on the hub, as seen by this connection. */
  function Offer(s: State, e: Event, id: nat, r: Request): State {
    if !Listening(s) || !r.scope(e) then s
    else if |s.channel| < BUFFER_SIZE then s.(channel := s.channel + [id])
    else if PriorityOfEvent(e) == Informational then s
    else s.(cut := true)
  }

  /** A step that is not possible in a state leaves it as it is. */
  ghost function Apply(s: State, step: Step, r: Request): State {
    match step
    case Commit(id, event) =>
      if id > 0 && id !in s.committed && event.id == id then s.(committed := s.committed[id := event]) else s
    case Publish(id) =>
      // LogEventWith publishes each row it has written once, unless it is noise
      if id in s.committed && id !in s.published && !Noise(s.committed[id]) then
        Offer(s.(published := s.published + {id}), s.committed[id], id, r)
      else s
    case Subscribe =>
      if s.phase == Connecting then s.(phase := Subscribed) else s
    case Query(rows) =>
      if s.phase == Subscribed && Answer(s, r, rows) then
        s.(phase := if |rows| > REPLAY_CAP then Resynced else Replaying(rows))
      else s
    case WriteRow =>
      if s.phase.Replaying? then
        if s.phase.rows == [] then s.(phase := Draining)
        else
          var id := s.phase.rows[0];
          s.(phase := Replaying(s.phase.rows[1..]), written := s.written + [id], delivered := s.delivered + {id})
      else s
    case Drain =>
      if s.phase == Draining && s.channel != [] then
        var id := s.channel[0];
        var rest := s.(channel := s.channel[1..]);
        if id in s.committed && r.visible(s.committed[id]) && id !in s.delivered && r.scope(s.committed[id])
        then rest.(written := s.written + [id])
        else rest
      else s
  }

  ghost function After(steps: seq<Step>, r: Request): State {
    if steps == [] then INIT else Apply(After(steps[..|steps| - 1], r), steps[|steps| - 1], r)
  }

  // ---------------------------------------------------------------------------------------------------------
  // Invariant
  // ---------------------------------------------------------------------------------------------------------

  /** The rows still to be replayed. */
  function Pending(s: State): seq<nat> {
    if s.phase.Replaying? then s.phase.rows else []
  }

  ghost predicate Replayed(s: State) {
    s.phase.Replaying? || s.phase == Draining
  }

  /** A fact this client must get. */
  ghost predicate Owed(s: State, r: Request, id: nat) {
    && id in s.published && id in s.committed && id > r.after
    && Fact(s.committed[id]) && r.scope(s.committed[id]) && r.visible(s.committed[id])
  }

  ghost predicate OnTheWay(s: State, id: nat) {
    id in s.written || id in Pending(s) || id in s.channel
  }

  /** Every written event is a committed one this client asked for and may see. */
  ghost predicate Entitled(s: State, r: Request, id: nat) {
    id in s.committed && r.scope(s.committed[id]) && r.visible(s.committed[id])
  }

  ghost predicate NoRepeat(s: State) {
    && Distinct(s.written) && Distinct(Pending(s)) && Distinct(s.channel)
    && (forall id :: id in s.channel && id in s.written ==> id in s.delivered)
    && (forall id :: id in Pending(s) ==> id !in s.written)
    && (forall id :: id in s.delivered ==> id in s.written)
    && (s.phase != Draining ==> forall id :: id in s.written ==> id in s.delivered)
  }

  ghost predicate Inv(s: State, r: Request) {
    // One value, so that a failed proof names the predicate and not each of its parts.
    var good :=
      && (forall id :: id in s.published ==> id in s.committed && !Noise(s.committed[id]))
      && (forall id :: id in s.channel ==> id in s.published)
      && (forall id :: id in s.written && id !in s.delivered ==> id in s.published)
      && (s.phase == Connecting || s.phase == Subscribed ==> s.written == [] && s.delivered == {})
      && (s.phase == Connecting ==> s.channel == [])
      && NoRepeat(s)
      && (forall id :: id in s.written || id in Pending(s) ==> Entitled(s, r, id))
      && (Replayed(s) && !s.cut ==> forall id :: Owed(s, r, id) ==> OnTheWay(s, id));
    good
  }

  lemma CommitKeeps(s: State, r: Request, id: nat, event: Event)
    requires Inv(s, r)
    ensures Inv(Apply(s, Commit(id, event), r), r)
  {
    var s' := Apply(s, Commit(id, event), r);
    forall x | Owed(s', r, x) && Replayed(s') && !s'.cut ensures OnTheWay(s', x) {
      assert Owed(s, r, x);
      assert OnTheWay(s, x);
    }
  }

  lemma PublishKeeps(s: State, r: Request, id: nat)
    requires Inv(s, r)
    ensures Inv(Apply(s, Publish(id), r), r)
  {
    var s' := Apply(s, Publish(id), r);
    if s' != s {
      assert id !in s.channel;
      DistinctSnoc(s.channel, id);
      forall x | Owed(s', r, x) && Replayed(s') && !s'.cut ensures OnTheWay(s', x) {
        if x != id {
          assert Owed(s, r, x);
          assert OnTheWay(s, x);
        }
      }
    }
  }

  lemma QueryKeeps(s: State, r: Request, rows: seq<nat>)
    requires Inv(s, r)
    ensures Inv(Apply(s, Query(rows), r), r)
  {
    var s' := Apply(s, Query(rows), r);
    if s' != s {
      assert Distinct(rows);
      forall x | Owed(s', r, x) && Replayed(s') ensures OnTheWay(s', x) {
        assert Selects(s, r, x);
      }
    }
  }

  lemma DistinctTail(s: seq<nat>)
    requires Distinct(s) && s != []
    ensures Distinct(s[1..]) && s[0] !in s[1..] && forall x :: x in s <==> x == s[0] || x in s[1..]
  {
    assert s == [s[0]] + s[1..];
  }

  lemma WriteRowRepeatsNothing(s: State, r: Request)
    requires NoRepeat(s) && s.phase.Replaying?
    ensures NoRepeat(Apply(s, WriteRow, r))
  {
    if s.phase.rows != [] {
      DistinctTail(s.phase.rows);
      DistinctSnoc(s.written, s.phase.rows[0]);
    }
  }

  lemma WriteRowKeeps(s: State, r: Request)
    requires Inv(s, r)
    ensures Inv(Apply(s, WriteRow, r), r)
  {
    var s' := Apply(s, WriteRow, r);
    if s.phase.Replaying? {
      WriteRowRepeatsNothing(s, r);
      if s.phase.rows != [] {
        DistinctTail(s.phase.rows);
      }
      forall x | Owed(s', r, x) && !s'.cut ensures OnTheWay(s', x) {
        assert Owed(s, r, x);
        assert OnTheWay(s, x);
      }
    }
  }

  lemma DrainRepeatsNothing(s: State, r: Request)
    requires NoRepeat(s) && s.phase == Draining && s.channel != []
    ensures NoRepeat(Apply(s, Drain, r))
  {
    DistinctTail(s.channel);
    if s.channel[0] !in s.written {
      DistinctSnoc(s.written, s.channel[0]);
    }
  }

  lemma DrainKeeps(s: State, r: Request)
    requires Inv(s, r)
    ensures Inv(Apply(s, Drain, r), r)
  {
    var s' := Apply(s, Drain, r);
    if s.phase == Draining && s.channel != [] {
      DrainRepeatsNothing(s, r);
      DistinctTail(s.channel);
      forall x | Owed(s', r, x) && !s'.cut ensures OnTheWay(s', x) {
        assert Owed(s, r, x);
        assert OnTheWay(s, x);
      }
    }
  }

  /** Every step keeps the invariant. */
  lemma StepKeeps(s: State, r: Request, step: Step)
    requires Inv(s, r)
    ensures Inv(Apply(s, step, r), r)
  {
    match step
    case Commit(id, event) => CommitKeeps(s, r, id, event);
    case Publish(id) => PublishKeeps(s, r, id);
    case Subscribe =>
    case Query(rows) => QueryKeeps(s, r, rows);
    case WriteRow => WriteRowKeeps(s, r);
    case Drain => DrainKeeps(s, r);
  }

  lemma {:induction false} Reachable(steps: seq<Step>, r: Request)
    ensures Inv(After(steps, r), r)
  {
    if steps != [] {
      Reachable(steps[..|steps| - 1], r);
      StepKeeps(After(steps[..|steps| - 1], r), r, steps[|steps| - 1]);
    }
  }

  // ---------------------------------------------------------------------------------------------------------
  // Theorems over every interleaving
  // ---------------------------------------------------------------------------------------------------------

  /** No gap: once the replay query has run, on a connection that is neither cut nor resynced, every published fact after
      the resume point that the client asked for and may see is written, among the rows to replay, or in the channel. */
  lemma NoGap(steps: seq<Step>, r: Request, id: nat)
    requires var s := After(steps, r); Replayed(s) && !s.cut && Owed(s, r, id)
    ensures OnTheWay(After(steps, r), id)
  {
    Reachable(steps, r);
  }

  /** So when everything has been drained, everything owed has been written. */
  lemma DrainedMeansDelivered(steps: seq<Step>, r: Request, id: nat)
    requires var s := After(steps, r); s.phase == Draining && !s.cut && s.channel == [] && Owed(s, r, id)
    ensures id in After(steps, r).written
  {
    NoGap(steps, r, id);
  }

  /** No duplicate, even though a row can be both replayed and published; and nothing is written that the client did not
      ask for or may not see. */
  lemma NoDuplicate(steps: seq<Step>, r: Request)
    ensures Distinct(After(steps, r).written)
    ensures forall id :: id in After(steps, r).written ==> Entitled(After(steps, r), r, id)
  {
    Reachable(steps, r);
  }

  // ---------------------------------------------------------------------------------------------------------
  // It gets there
  // ---------------------------------------------------------------------------------------------------------

  /** A fact that has been committed is published by the step that publishes it; only progress and heartbeats are not. */
  lemma FactsArePublished(s: State, r: Request, id: nat)
    requires id in s.committed
    ensures id in Apply(s, Publish(id), r).published <==>
            id in s.published || (s.committed[id].kind != "task.progress" && s.committed[id].kind != "attempt.heartbeat")
    ensures Fact(s.committed[id]) ==> id in Apply(s, Publish(id), r).published
  {
    SamplesAre(s.committed[id].kind);
  }

  /** A connection is cut only by a matching event that is no sample and finds 256 events waiting. */
  lemma CutOnlyWhenFull(s: State, r: Request, step: Step)
    requires !s.cut && Apply(s, step, r).cut
    ensures step.Publish? && step.id in s.committed && r.scope(s.committed[step.id]) && !Sample(s.committed[step.id].kind)
    ensures |s.channel| >= 256
  {
    TierByName(s.committed[step.id]);
  }

  /** Up to 500 rows are replayed; more than that, and the client is told to start over. */
  lemma ReplaysUpTo500(s: State, r: Request, rows: seq<nat>)
    requires s.phase == Subscribed && Answer(s, r, rows)
    ensures Apply(s, Query(rows), r).phase == if |rows| <= 500 then Replaying(rows) else Resynced
  {
  }

  lemma Then(steps: seq<Step>, step: Step, r: Request)
    ensures After(steps + [step], r) == Apply(After(steps, r), step, r)
  {
    assert (steps + [step])[..|steps|] == steps;
  }

  /** Nothing was committed or published in between, and the connection was not cut. */
  ghost predicate OnlyServed(s: State, s': State) {
    s'.committed == s.committed && s'.published == s.published && s'.cut == s.cut
  }

  lemma {:induction false} RowsGetWritten(steps: seq<Step>, r: Request) returns (more: seq<Step>)
    requires After(steps, r).phase.Replaying?
    ensures After(more, r).phase == Draining && OnlyServed(After(steps, r), After(more, r))
    decreases |After(steps, r).phase.rows|
  {
    Then(steps, WriteRow, r);
    more := steps + [WriteRow];
    if After(steps, r).phase.rows != [] {
      more := RowsGetWritten(more, r);
    }
  }

  lemma {:induction false} ChannelGetsDrained(steps: seq<Step>, r: Request) returns (more: seq<Step>)
    requires After(steps, r).phase == Draining
    ensures After(more, r).phase == Draining && After(more, r).channel == [] && OnlyServed(After(steps, r), After(more, r))
    decreases |After(steps, r).channel|
  {
    more := steps;
    if After(steps, r).channel != [] {
      Then(steps, Drain, r);
      more := ChannelGetsDrained(steps + [Drain], r);
    }
  }

  /** Once the replay query has run, serving the connection alone brings everything owed so far to the client. */
  lemma EverythingOwedArrives(steps: seq<Step>, r: Request) returns (more: seq<Step>)
    requires Replayed(After(steps, r)) && !After(steps, r).cut
    ensures OnlyServed(After(steps, r), After(more, r))
    ensures forall id :: Owed(After(steps, r), r, id) ==> id in After(more, r).written
  {
    more := steps;
    if After(steps, r).phase.Replaying? {
      more := RowsGetWritten(steps, r);
    }
    more := ChannelGetsDrained(more, r);
    forall id | Owed(After(steps, r), r, id) ensures id in After(more, r).written {
      DrainedMeansDelivered(more, r, id);
    }
  }
}
