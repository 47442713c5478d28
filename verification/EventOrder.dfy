/** internal/events/producer.go: the order in which events are replayed. */
module EventOrder {
  import opened TextOrder
  import Sort = InsertionSort

  type Time = nat

  datatype Envelope = Envelope(id: nat, jobId: string, kind: string, occurredAt: Time, producerId: string, producerSeq: int)

  predicate EventLess(a: Envelope, b: Envelope) {
    if a.occurredAt != b.occurredAt then a.occurredAt < b.occurredAt
    else if a.producerId != b.producerId then TextLess(a.producerId, b.producerId)
    else if a.producerSeq != b.producerSeq then a.producerSeq < b.producerSeq
    else a.id < b.id
  }

  /** EventLess is a strict total order on events with distinct ids: nothing precedes itself, of two events exactly
      one precedes the other, and it is transitive. */
  lemma StrictTotalOrder(a: Envelope, b: Envelope, c: Envelope)
    ensures !EventLess(a, a)
    ensures a.id != b.id ==> (EventLess(a, b) <==> !EventLess(b, a))
    ensures EventLess(a, b) && EventLess(b, c) ==> EventLess(a, c)
  {
    TextTrichotomy(a.producerId, b.producerId);
    TextTrichotomy(b.producerId, c.producerId);
    TextTrichotomy(a.producerId, c.producerId);
    if TextLess(a.producerId, b.producerId) && TextLess(b.producerId, c.producerId) {
      TextTransitive(a.producerId, b.producerId, c.producerId);
    }
  }

  /** No later event precedes an earlier one. */
  ghost predicate Ordered(s: seq<Envelope>) {
    forall i, j :: 0 <= i < j < |s| ==> !EventLess(s[j], s[i])
  }

  ghost predicate DistinctIds(s: seq<Envelope>) {
    forall i, j :: 0 <= i < j < |s| ==> s[i].id != s[j].id
  }

  function Sorted(s: seq<Envelope>): seq<Envelope> {
    Sort.Sorted(s, EventLess)
  }

  lemma Asymmetric(a: Envelope, b: Envelope)
    requires EventLess(a, b)
    ensures !EventLess(b, a)
  {
    TextTrichotomy(a.producerId, b.producerId);
  }

  /** If c precedes neither of a chain a, b, it does not precede the earlier one either. */
  lemma NegativelyTransitive(c: Envelope, b: Envelope, a: Envelope)
    requires !EventLess(c, b) && !EventLess(b, a)
    ensures !EventLess(c, a)
  {
    TextTrichotomy(b.producerId, c.producerId);
    TextTrichotomy(a.producerId, b.producerId);
    TextTrichotomy(a.producerId, c.producerId);
    if TextLess(a.producerId, b.producerId) && TextLess(b.producerId, c.producerId) {
      TextTransitive(a.producerId, b.producerId, c.producerId);
    }
  }

  lemma SortedIsOrdered(s: seq<Envelope>)
    ensures Ordered(Sorted(s)) && multiset(Sorted(s)) == multiset(s)
  {
    forall a, b | EventLess(a, b) ensures !EventLess(b, a) {
      Asymmetric(a, b);
    }
    forall a, b, c | !EventLess(c, b) && !EventLess(b, a) ensures !EventLess(c, a) {
      NegativelyTransitive(c, b, a);
    }
    Sort.SortedIsOrdered(s, EventLess);
  }

  /** Events are replayed by time; at one time by the producer's name; of one producer by its sequence numbers; and what is
      still level by row id. */
  lemma ReplayOrder(s: seq<Envelope>, i: nat, j: nat)
    requires i < j < |s|
    ensures |Sorted(s)| == |s|
    ensures var a, b := Sorted(s)[i], Sorted(s)[j];
            && a.occurredAt <= b.occurredAt
            && (a.occurredAt == b.occurredAt ==> a.producerId == b.producerId || TextLess(a.producerId, b.producerId))
            && (a.occurredAt == b.occurredAt && a.producerId == b.producerId ==> a.producerSeq <= b.producerSeq)
            && (a.occurredAt == b.occurredAt && a.producerId == b.producerId && a.producerSeq == b.producerSeq ==> a.id <= b.id)
  {
    SortedIsOrdered(s);
    assert |multiset(Sorted(s))| == |Sorted(s)| && |multiset(s)| == |s|;
    TextTrichotomy(Sorted(s)[i].producerId, Sorted(s)[j].producerId);
  }

  /** SortEvents: the array is rearranged in place into its ordered permutation. */
  method SortEvents(a: array<Envelope>)
    modifies a
    ensures a[..] == Sorted(old(a[..]))
    ensures Ordered(a[..]) && multiset(a[..]) == multiset(old(a[..]))
  {
    Sort.SortInPlace(a, EventLess);
    SortedIsOrdered(old(a[..]));
  }

  lemma LastIsShared(a: seq<Envelope>, b: seq<Envelope>)
    requires multiset(a) == multiset(b) && a != [] && Ordered(a) && Ordered(b) && DistinctIds(a)
    ensures |a| == |b| && a[|a| - 1] == b[|b| - 1]
  {
    assert |multiset(a)| == |a| && |multiset(b)| == |b|;
    var x, y := a[|a| - 1], b[|b| - 1];
    assert x in multiset(b) && y in multiset(a);
    var i :| 0 <= i < |b| && b[i] == x;
    var j :| 0 <= j < |a| && a[j] == y;
    StrictTotalOrder(x, y, x);
  }

  lemma DropLast(s: seq<Envelope>)
    requires s != []
    ensures s == s[..|s| - 1] + [s[|s| - 1]]
    ensures multiset(s[..|s| - 1]) == multiset(s) - multiset{s[|s| - 1]}
    ensures Ordered(s) ==> Ordered(s[..|s| - 1])
    ensures DistinctIds(s) ==> DistinctIds(s[..|s| - 1])
  {
    assert s == s[..|s| - 1] + [s[|s| - 1]];
  }

  /** Two orderings of the same events with distinct ids are the same sequence. */
  lemma {:induction false} OrderingIsUnique(a: seq<Envelope>, b: seq<Envelope>)
    requires multiset(a) == multiset(b) && Ordered(a) && Ordered(b) && DistinctIds(a)
    ensures a == b
    decreases |a|
  {
    if a == [] {
      assert |multiset(b)| == |b| == |multiset(a)|;
    } else {
      LastIsShared(a, b);
      var n := |a| - 1;
      DropLast(a);
      DropLast(b);
      OrderingIsUnique(a[..n], b[..n]);
    }
  }

  /** However the rows came out of the database, sorting them gives the same sequence. */
  lemma SortIsCanonical(a: seq<Envelope>, b: seq<Envelope>)
    requires multiset(a) == multiset(b) && DistinctIds(a)
    ensures Sorted(a) == Sorted(b)
  {
    SortedIsOrdered(a);
    SortedIsOrdered(b);
    DistinctIdsOfPermutation(a, Sorted(a));
    OrderingIsUnique(Sorted(a), Sorted(b));
  }

  ghost function IdSet(s: seq<Envelope>): set<nat> {
    set i | 0 <= i < |s| :: s[i].id
  }

  lemma IdSetSnoc(s: seq<Envelope>, e: Envelope)
    ensures IdSet(s + [e]) == IdSet(s) + {e.id}
    ensures DistinctIds(s + [e]) <==> DistinctIds(s) && e.id !in IdSet(s)
  {
    forall i | 0 <= i < |s| ensures (s + [e])[i] == s[i] {
    }
    assert (s + [e])[|s|] == e;
  }

  lemma {:induction false} DistinctIdsCount(s: seq<Envelope>)
    ensures |IdSet(s)| <= |s|
    ensures DistinctIds(s) <==> |IdSet(s)| == |s|
  {
    if s != [] {
      var n := |s| - 1;
      DistinctIdsCount(s[..n]);
      assert s == s[..n] + [s[n]];
      IdSetSnoc(s[..n], s[n]);
    }
  }

  lemma DistinctIdsOfPermutation(a: seq<Envelope>, b: seq<Envelope>)
    requires multiset(a) == multiset(b) && DistinctIds(a)
    ensures DistinctIds(b)
  {
    assert |a| == |multiset(a)| == |multiset(b)| == |b|;
    forall x ensures x in a <==> x in b {
      assert x in a <==> x in multiset(a);
      assert x in b <==> x in multiset(b);
    }
    forall id ensures id in IdSet(a) <==> id in IdSet(b) {
      if id in IdSet(a) {
        var i :| 0 <= i < |a| && a[i].id == id;
        assert a[i] in b;
      }
      if id in IdSet(b) {
        var i :| 0 <= i < |b| && b[i].id == id;
        assert b[i] in a;
      }
    }
    assert IdSet(a) == IdSet(b);
    DistinctIdsCount(a);
    DistinctIdsCount(b);
  }
}
