/** internal/live/live_hub.go: the hub, its bounded client buffers and its cut-or-drop policy. */
module LiveHub {
  import opened Options
  import opened LiveEvents

  const BUFFER_SIZE := 256

  /** A client's channel: its subscription, what is buffered in it, and whether it is still open. */
  datatype Channel = Channel(wants: Event -> bool, summary: bool, buffer: seq<Event>, open: bool)

  /** What a client has read, and the part of the published log its subscription covers. */
  datatype History = History(taken: seq<Event>, joined: nat, left: nat)

  /** The facts among these events, in order. */
  function Facts(s: seq<Event>): seq<Event> {
    if s == [] then [] else Facts(s[..|s| - 1]) + (if Fact(s[|s| - 1]) then [s[|s| - 1]] else [])
  }

  /** The facts a client with this filter must get. */
  function Due(s: seq<Event>, wants: Event -> bool): seq<Event> {
    if s == [] then []
    else
      var e := s[|s| - 1];
      Due(s[..|s| - 1], wants) + (if Fact(e) && wants(e) then [e] else [])
  }

  lemma FactsSnoc(s: seq<Event>, e: Event)
    ensures Facts(s + [e]) == Facts(s) + (if Fact(e) then [e] else [])
  {
    assert (s + [e])[..|s|] == s;
  }

  lemma DueSnoc(s: seq<Event>, e: Event, wants: Event -> bool)
    ensures Due(s + [e], wants) == Due(s, wants) + (if Fact(e) && wants(e) then [e] else [])
  {
    assert (s + [e])[..|s|] == s;
  }

  /** What one publish does to one open channel: with room, the event is buffered; a full one loses a sample and is closed
      by anything else. */
  function Offered(c: Channel, e: Event): Channel {
    if !c.wants(e) then c
    else if |c.buffer| < 256 then c.(buffer := c.buffer + [e])
    else if Sample(e.kind) then c
    else c.(open := false)
  }

  function OfferedSummary(c: Channel, e: Event): Channel {
    if c.summary && |c.buffer| < 256 then c.(buffer := c.buffer + [e]) else c
  }

  /** A sample is dropped for want of room. */
  predicate Drops(c: Channel, e: Event) {
    c.wants(e) && |c.buffer| >= 256 && Sample(e.kind)
  }

  predicate DropsSummary(c: Channel) {
    c.summary && |c.buffer| >= 256
  }

  ghost function Dropping(was: seq<Channel>, done: set<nat>, e: Event): set<nat> {
    set ch | ch in done && ch < |was| && Drops(was[ch], e)
  }

  ghost function DroppingSummary(was: seq<Channel>, done: set<nat>): set<nat> {
    set ch | ch in done && ch < |was| && DropsSummary(was[ch])
  }

  lemma DroppingGrows(was: seq<Channel>, done: set<nat>, ch: nat, e: Event)
    requires ch !in done && ch < |was|
    ensures |Dropping(was, done + {ch}, e)| == |Dropping(was, done, e)| + (if Drops(was[ch], e) then 1 else 0)
  {
    assert Dropping(was, done + {ch}, e) == Dropping(was, done, e) + (if Drops(was[ch], e) then {ch} else {});
  }

  lemma DroppingSummaryGrows(was: seq<Channel>, done: set<nat>, ch: nat)
    requires ch !in done && ch < |was|
    ensures |DroppingSummary(was, done + {ch})| == |DroppingSummary(was, done)| + (if DropsSummary(was[ch]) then 1 else 0)
  {
    assert DroppingSummary(was, done + {ch}) == DroppingSummary(was, done) + (if DropsSummary(was[ch]) then {ch} else {});
  }

  /** What was read and what is buffered are, samples and summaries aside, exactly the facts published while the
      subscription lasted that match it, in order. */
  ghost predicate Exact(c: Channel, h: History, log: seq<Event>) {
    && h.joined <= h.left <= |log| && |c.buffer| <= BUFFER_SIZE
    && (c.open ==> h.left == |log|)
    && Facts(h.taken + c.buffer) == Due(log[h.joined..h.left], c.wants)
  }

  lemma DueGrows(log: seq<Event>, joined: nat, e: Event, wants: Event -> bool)
    requires joined <= |log|
    ensures Due((log + [e])[joined..|log|], wants) == Due(log[joined..|log|], wants)
    ensures Due((log + [e])[joined..|log| + 1], wants) == Due(log[joined..|log|], wants) + (if Fact(e) && wants(e) then [e] else [])
  {
    assert (log + [e])[joined..|log|] == log[joined..|log|];
    assert (log + [e])[joined..|log| + 1] == log[joined..|log|] + [e];
    DueSnoc(log[joined..|log|], e, wants);
  }

  lemma TakenGrows(taken: seq<Event>, buffer: seq<Event>, e: Event)
    ensures Facts(taken + (buffer + [e])) == Facts(taken + buffer) + (if Fact(e) then [e] else [])
  {
    assert taken + (buffer + [e]) == (taken + buffer) + [e];
    FactsSnoc(taken + buffer, e);
  }

  lemma OfferKeeps(c: Channel, h: History, log: seq<Event>, e: Event)
    requires Exact(c, h, log) && c.open
    ensures var c' := Offered(c, e); Exact(c', if c'.open then h.(left := h.left + 1) else h, log + [e])
  {
    DueGrows(log, h.joined, e, c.wants);
    if c.wants(e) && |c.buffer| < BUFFER_SIZE {
      TakenGrows(h.taken, c.buffer, e);
    } else if c.wants(e) && Sample(e.kind) {
      assert !Fact(e);
    }
  }

  lemma ClosedKeeps(c: Channel, h: History, log: seq<Event>, e: Event)
    requires Exact(c, h, log) && !c.open
    ensures Exact(c, h, log + [e])
  {
    assert (log + [e])[h.joined..h.left] == log[h.joined..h.left];
  }

  lemma StillExact(c: Channel, h: History, log: seq<Event>, e: Event)
    requires Exact(c, h, log)
    ensures var c' := if c.open then Offered(c, e) else c;
            Exact(c', if c'.open then h.(left := h.left + 1) else h, log + [e])
  {
    if c.open {
      OfferKeeps(c, h, log, e);
    } else {
      ClosedKeeps(c, h, log, e);
    }
  }

  lemma SummaryKeeps(c: Channel, h: History, log: seq<Event>, e: Event)
    requires Exact(c, h, log) && e.kind == SUMMARY
    ensures Exact(OfferedSummary(c, e), h, log)
  {
    TakenGrows(h.taken, c.buffer, e);
  }

  lemma TakeKeeps(c: Channel, h: History, log: seq<Event>)
    requires Exact(c, h, log) && c.buffer != []
    ensures Exact(c.(buffer := c.buffer[1..]), h.(taken := h.taken + [c.buffer[0]]), log)
  {
    assert (h.taken + [c.buffer[0]]) + c.buffer[1..] == h.taken + c.buffer;
  }

  class Hub {
    var channels: seq<Channel>
    var subscribers: set<nat>
    var connects: nat
    var disconnects: nat
    var published: nat
    var slowCuts: nat
    var dropped: nat
    ghost var log: seq<Event>
    ghost var history: seq<History>

    ghost predicate ChannelOk(ch: nat)
      reads this
    {
      && ch < |channels| && ch < |history|
      && (channels[ch].open <==> ch in subscribers)
      && Exact(channels[ch], history[ch], log)
    }

    /** Every client, connected or not, has an exact stretch of the log; the counters agree with the subscribers. */
    ghost predicate Valid()
      reads this
    {
      && |history| == |channels|
      && (forall ch {:trigger ChannelOk(ch)} :: 0 <= ch < |channels| ==> ChannelOk(ch))
      && (forall ch :: ch in subscribers ==> ch < |channels|)
      && connects == disconnects + |subscribers|
      && published == |log|
    }

    constructor ()
      ensures Valid() && channels == [] && subscribers == {} && log == [] && connects == 0
    {
      channels, subscribers, log, history := [], {}, [], [];
      connects, disconnects, published, slowCuts, dropped := 0, 0, 0, 0, 0;
    }

    method Subscribe(wants: Event -> bool, summary: bool) returns (ch: nat)
      requires Valid()
      modifies this
      ensures Valid() && ch == |old(channels)| && ch in subscribers && log == old(log)
      ensures channels == old(channels) + [Channel(wants, summary, [], true)]
      ensures history == old(history) + [History([], |log|, |log|)]
      ensures subscribers == old(subscribers) + {ch} && connects == old(connects) + 1 && disconnects == old(disconnects)
    {
      ch := |channels|;
      channels := channels + [Channel(wants, summary, [], true)];
      history := history + [History([], |log|, |log|)];
      subscribers := subscribers + {ch};
      connects := connects + 1;
      assert ch !in old(subscribers);
      forall c | 0 <= c < |channels| ensures ChannelOk(c) {
        if c < ch {
          assert old(ChannelOk(c));
        }
      }
    }

    /** A second Unsubscribe, or one after the hub cut the client, changes nothing. */
    method Unsubscribe(ch: nat)
      requires Valid()
      modifies this
      ensures Valid() && log == old(log) && history == old(history)
      ensures subscribers == old(subscribers) - {ch}
      ensures ch in old(subscribers) ==> channels == old(channels)[ch := old(channels)[ch].(open := false)] && disconnects == old(disconnects) + 1
      ensures ch !in old(subscribers) ==> channels == old(channels) && disconnects == old(disconnects)
      ensures connects == old(connects)
    {
      if ch in subscribers {
        assert ChannelOk(ch);
        Close(ch);
        disconnects := disconnects + 1;
        forall c | 0 <= c < |channels| ensures ChannelOk(c) {
          assert old(ChannelOk(c));
        }
      }
    }

    /** close(ch) together with the removal from the subscribers: only ever done to an open channel. */
    method Close(ch: nat)
      requires ch < |channels| && channels[ch].open && ch in subscribers
      modifies this`channels, this`subscribers
      ensures channels == old(channels)[ch := old(channels)[ch].(open := false)]
      ensures subscribers == old(subscribers) - {ch} && |subscribers| + 1 == |old(subscribers)|
    {
      channels := channels[ch := channels[ch].(open := false)];
      subscribers := subscribers - {ch};
    }

    /** ch <- event with a default branch: only ever done to an open channel. */
    method TrySend(ch: nat, e: Event) returns (sent: bool)
      requires ch < |channels| && channels[ch].open
      modifies this`channels
      ensures sent <==> |old(channels)[ch].buffer| < BUFFER_SIZE
      ensures channels == if sent then old(channels)[ch := old(channels)[ch].(buffer := old(channels)[ch].buffer + [e])] else old(channels)
    {
      sent := |channels[ch].buffer| < BUFFER_SIZE;
      if sent {
        channels := channels[ch := channels[ch].(buffer := channels[ch].buffer + [e])];
      }
    }

    /** The channels of the clients handled so far have been offered the event; the others are untouched. */
    ghost predicate Partly(was: seq<Channel>, wasSubscribed: set<nat>, done: set<nat>, e: Event)
      reads this
    {
      && |channels| == |was|
      && (forall ch :: ch in wasSubscribed ==> ch < |was|)
      && (forall ch :: 0 <= ch < |was| && ch in done ==> channels[ch] == Offered(was[ch], e))
      && (forall ch :: 0 <= ch < |was| && ch !in done ==> channels[ch] == was[ch])
      && (forall ch :: 0 <= ch < |was| ==> (ch in subscribers <==> ch in wasSubscribed && (ch in done ==> Offered(was[ch], e).open)))
      && (forall ch :: ch in subscribers ==> ch in wasSubscribed)
    }

    /** The tier the publish looks up. */
    method Informs(e: Event) returns (yes: bool)
      ensures yes <==> Sample(e.kind)
    {
      TierByName(e);
      yes := PriorityOfEvent(e) == Informational;
    }

    /** One client of a publish. */
    method Offer(ch: nat, e: Event, ghost was: seq<Channel>, ghost wasSubscribed: set<nat>, ghost done: set<nat>)
      requires Partly(was, wasSubscribed, done, e) && ch in wasSubscribed && ch !in done && was[ch].open
      requires connects == disconnects + |subscribers|
      modifies this`channels, this`subscribers, this`disconnects, this`slowCuts, this`dropped
      ensures Partly(was, wasSubscribed, done + {ch}, e)
      ensures connects == disconnects + |subscribers|
      ensures slowCuts - old(slowCuts) == disconnects - old(disconnects)
      ensures dropped == old(dropped) + (if Drops(was[ch], e) then 1 else 0)
    {
      if channels[ch].wants(e) {
        var sent := TrySend(ch, e);
        if !sent {
          var informational := Informs(e);
          if informational {
            dropped := dropped + 1;
          } else {
            Close(ch);
            slowCuts := slowCuts + 1;
            disconnects := disconnects + 1;
          }
        }
      }
    }

    /** Every open channel is offered the event once, in some order; afterwards each client still has its exact stretch
        of the log, and a client that could not take a fact is cut with an exact prefix. */
    method Publish(e: Event)
      requires Valid()
      modifies this
      ensures Valid() && log == old(log) + [e] && connects == old(connects)
      ensures slowCuts - old(slowCuts) == disconnects - old(disconnects)
      ensures dropped == old(dropped) + |Dropping(old(channels), old(subscribers), e)|
      ensures |channels| == |old(channels)|
      ensures forall ch :: 0 <= ch < |channels| ==>
                channels[ch] == if ch in old(subscribers) then Offered(old(channels)[ch], e) else old(channels)[ch]
      ensures forall ch :: ch in subscribers <==> ch in old(subscribers) && Offered(old(channels)[ch], e).open
      ensures forall ch :: ch in old(subscribers) && old(channels)[ch].wants(e) && |old(channels)[ch].buffer| == 256 ==>
                (ch in subscribers <==> Sample(e.kind))
    {
      forall ch | ch in subscribers ensures channels[ch].open {
        assert ChannelOk(ch);
      }
      ghost var was, wasSubscribed, wasHistory := channels, subscribers, history;
      published := published + 1;
      OfferAll(e);
      log := log + [e];
      history := seq(|history|, ch requires 0 <= ch < |wasHistory| && |wasHistory| == |channels| reads this =>
                   if channels[ch].open then wasHistory[ch].(left := wasHistory[ch].left + 1) else wasHistory[ch]);
      forall ch | 0 <= ch < |channels| ensures ChannelOk(ch) {
        assert old(ChannelOk(ch));
        StillExact(was[ch], wasHistory[ch], old(log), e);
      }
    }

    /** The loop over the subscribers, which Go visits in no particular order. */
    method OfferAll(e: Event)
      requires forall ch :: ch in subscribers ==> ch < |channels| && channels[ch].open
      requires connects == disconnects + |subscribers|
      modifies this`channels, this`subscribers, this`disconnects, this`slowCuts, this`dropped
      ensures Partly(old(channels), old(subscribers), old(subscribers), e)
      ensures connects == disconnects + |subscribers|
      ensures slowCuts - old(slowCuts) == disconnects - old(disconnects)
      ensures dropped == old(dropped) + |Dropping(old(channels), old(subscribers), e)|
    {
      ghost var was, wasSubscribed := channels, subscribers;
      var todo := subscribers;
      while todo != {}
        invariant todo <= wasSubscribed
        invariant Partly(was, wasSubscribed, wasSubscribed - todo, e)
        invariant connects == disconnects + |subscribers|
        invariant slowCuts - old(slowCuts) == disconnects - old(disconnects)
        invariant dropped == old(dropped) + |Dropping(was, wasSubscribed - todo, e)|
      {
        var ch :| ch in todo;
        DroppingGrows(was, wasSubscribed - todo, ch, e);
        Offer(ch, e, was, wasSubscribed, wasSubscribed - todo);
        assert wasSubscribed - todo + {ch} == wasSubscribed - (todo - {ch});
        todo := todo - {ch};
      }
      assert wasSubscribed - todo == wasSubscribed;
    }

    /** The synthetic summary goes to the clients that asked for it, is dropped where there is no room, and cuts nobody. */
    method PublishSummary(e: Event)
      requires Valid() && e.kind == SUMMARY
      modifies this
      ensures Valid() && log == old(log) && subscribers == old(subscribers) && history == old(history)
      ensures connects == old(connects) && disconnects == old(disconnects) && published == old(published)
      ensures dropped == old(dropped) + |DroppingSummary(old(channels), subscribers)| && slowCuts == old(slowCuts)
      ensures |channels| == |old(channels)|
      ensures forall ch :: 0 <= ch < |channels| ==>
                channels[ch] == if ch in subscribers then OfferedSummary(old(channels)[ch], e) else old(channels)[ch]
    {
      ghost var was := channels;
      forall ch | ch in subscribers ensures channels[ch].open {
        assert ChannelOk(ch);
      }
      var todo := subscribers;
      while todo != {}
        invariant todo <= subscribers && subscribers == old(subscribers) && history == old(history) && log == old(log)
        invariant connects == old(connects) && disconnects == old(disconnects) && published == old(published)
        invariant dropped == old(dropped) + |DroppingSummary(was, subscribers - todo)| && slowCuts == old(slowCuts)
        invariant |channels| == |was|
        invariant forall ch :: 0 <= ch < |was| ==>
                    channels[ch] == if ch in subscribers && ch !in todo then OfferedSummary(was[ch], e) else was[ch]
      {
        var ch :| ch in todo;
        DroppingSummaryGrows(was, subscribers - todo, ch);
        assert subscribers - todo + {ch} == subscribers - (todo - {ch});
        if channels[ch].summary {
          var sent := TrySend(ch, e);
          if !sent {
            dropped := dropped + 1;
          }
        }
        todo := todo - {ch};
      }
      assert subscribers - todo == subscribers;
      forall ch | 0 <= ch < |channels| ensures ChannelOk(ch) {
        assert old(ChannelOk(ch));
        SummaryKeeps(was[ch], history[ch], log, e);
      }
    }

    /** A client reads the next buffered event; a closed channel can still be drained. */
    method Consume(ch: nat) returns (r: Option<Event>)
      requires Valid() && ch < |channels|
      modifies this
      ensures Valid() && log == old(log) && subscribers == old(subscribers) && connects == old(connects)
      ensures disconnects == old(disconnects) && published == old(published)
      ensures var buffer := old(channels)[ch].buffer;
              if buffer == [] then r == None && channels == old(channels) && history == old(history)
              else r == Some(buffer[0]) && channels == old(channels)[ch := old(channels)[ch].(buffer := buffer[1..])]
                   && history == old(history)[ch := old(history)[ch].(taken := old(history)[ch].taken + [buffer[0]])]
    {
      r := None;
      if channels[ch].buffer != [] {
        r := Some(channels[ch].buffer[0]);
        assert ChannelOk(ch);
        TakeKeeps(channels[ch], history[ch], log);
        history := history[ch := history[ch].(taken := history[ch].taken + [channels[ch].buffer[0]])];
        channels := channels[ch := channels[ch].(buffer := channels[ch].buffer[1..])];
        forall c | 0 <= c < |channels| ensures ChannelOk(c) {
          assert old(ChannelOk(c));
        }
      }
    }
  }

  /** What Valid means for a client that is still connected: everything it has read or can still read is, samples and
      summaries aside, every matching fact published since it subscribed, once each and in order; it never holds more
      than a full buffer. */
  lemma ConnectedClientMissesNothing(hub: Hub, ch: nat)
    requires hub.Valid() && ch in hub.subscribers
    ensures ch < |hub.channels| && ch < |hub.history| && hub.history[ch].joined <= |hub.log|
    ensures var c, h := hub.channels[ch], hub.history[ch];
            && Facts(h.taken + c.buffer) == Due(hub.log[h.joined..], c.wants)
            && |c.buffer| <= 256
  {
    assert hub.ChannelOk(ch);
    assert hub.log[hub.history[ch].joined..hub.history[ch].left] == hub.log[hub.history[ch].joined..];
  }

  /** A client that left or was cut has every matching fact from when it subscribed up to that moment and no later one. */
  lemma ClosedClientHasAPrefix(hub: Hub, ch: nat)
    requires hub.Valid() && ch < |hub.channels| && ch !in hub.subscribers
    ensures ch < |hub.history| && hub.history[ch].joined <= hub.history[ch].left <= |hub.log|
    ensures var c, h := hub.channels[ch], hub.history[ch];
            Facts(h.taken + c.buffer) == Due(hub.log[h.joined..h.left], c.wants)
  {
    assert hub.ChannelOk(ch);
  }

  lemma {:induction false} FactsMembers(s: seq<Event>, e: Event)
    ensures e in Facts(s) ==> e in s
  {
    if s != [] {
      FactsMembers(s[..|s| - 1], e);
      assert s == s[..|s| - 1] + [s[|s| - 1]];
    }
  }

  lemma {:induction false} DueMembers(s: seq<Event>, wants: Event -> bool, i: nat)
    requires i < |s| && wants(s[i]) && s[i].kind != "platform.summary" && !Sample(s[i].kind)
    ensures s[i] in Due(s, wants)
  {
    var n := |s| - 1;
    if i < n {
      DueMembers(s[..n], wants, i);
    }
  }

  /** Event by event: whatever was published since the client subscribed, matches its subscription and is neither a sample
      nor the summary has been read or can still be read. */
  lemma EveryFactReachesTheClient(hub: Hub, ch: nat, i: nat)
    requires hub.Valid() && ch in hub.subscribers && ch < |hub.channels| && ch < |hub.history|
    requires hub.history[ch].joined <= i < |hub.log| && hub.channels[ch].wants(hub.log[i])
    requires hub.log[i].kind != "platform.summary" && !Sample(hub.log[i].kind)
    ensures hub.log[i] in hub.history[ch].taken || hub.log[i] in hub.channels[ch].buffer
  {
    ConnectedClientMissesNothing(hub, ch);
    var since := hub.log[hub.history[ch].joined..];
    DueMembers(since, hub.channels[ch].wants, i - hub.history[ch].joined);
    FactsMembers(hub.history[ch].taken + hub.channels[ch].buffer, hub.log[i]);
  }
}
