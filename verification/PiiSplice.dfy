/** internal/pii/pii_transformation.go: replacements are spliced in from the back, so earlier offsets stay true. */
module PiiSplice {
  import opened Options
  import Sort = InsertionSort

  datatype Transformation = Transformation(start: int, end: int, replacement: string)

  // ---------------------------------------------------------------------------------------------------------
  // The program
  // ---------------------------------------------------------------------------------------------------------

  /** payload[:start] + replacement + payload[end:], or None where Go would panic: a slice out of range. */
  function Splice(payload: string, t: Transformation): Option<string> {
    if 0 <= t.start <= |payload| && 0 <= t.end <= |payload|
    then Some(payload[..t.start] + t.replacement + payload[t.end..])
    else None
  }

  function SpliceAll(payload: string, ts: seq<Transformation>): Option<string> {
    if ts == [] then Some(payload)
    else
      match SpliceAll(payload, ts[..|ts| - 1])
      case None => None
      case Some(text) => Splice(text, ts[|ts| - 1])
  }

  predicate StartsLater(a: Transformation, b: Transformation) {
    a.start > b.start
  }

  /** Largest start first. */
  function Sorted(ts: seq<Transformation>): seq<Transformation> {
    Sort.Sorted(ts, StartsLater)
  }

  lemma SortedMembers(ts: seq<Transformation>)
    ensures forall t :: t in Sorted(ts) <==> t in ts
  {
    Sort.SortedIsOrdered(ts, StartsLater);
  }

  /** ApplyTransformations, on any spans: sorted in place and spliced in one after the other. */
  method ApplyTransformations(payload: string, a: array<Transformation>) returns (out: Option<string>)
    modifies a
    ensures out == SpliceAll(payload, Sorted(old(a[..])))
    ensures a[..] == Sorted(old(a[..])) && multiset(a[..]) == multiset(old(a[..]))
  {
    Sort.SortInPlace(a, StartsLater);
    Sort.SortedIsOrdered(old(a[..]), StartsLater);
    out := SpliceInTurn(payload, a[..]);
  }

  method SpliceInTurn(payload: string, ts: seq<Transformation>) returns (out: Option<string>)
    ensures out == SpliceAll(payload, ts)
  {
    var text := payload;
    for i := 0 to |ts|
      invariant SpliceAll(payload, ts[..i]) == Some(text)
    {
      OneMoreSplice(payload, ts, i);
      var t := ts[i];
      if !(0 <= t.start <= |text| && 0 <= t.end <= |text|) {
        PanicStays(payload, ts, i + 1);
        return None;
      }
      text := text[..t.start] + t.replacement + text[t.end..];
    }
    assert ts[..|ts|] == ts;
    return Some(text);
  }

  lemma OneMoreSplice(payload: string, ts: seq<Transformation>, i: nat)
    requires i < |ts|
    ensures SpliceAll(payload, ts[..i + 1]) ==
            match SpliceAll(payload, ts[..i]) case None => None case Some(text) => Splice(text, ts[i])
  {
    assert ts[..i + 1][..i] == ts[..i];
  }

  lemma {:induction false} PanicStays(payload: string, ts: seq<Transformation>, n: nat)
    requires n <= |ts| && SpliceAll(payload, ts[..n]) == None
    ensures SpliceAll(payload, ts) == None
    decreases |ts| - n
  {
    if n < |ts| {
      OneMoreSplice(payload, ts, n);
      PanicStays(payload, ts, n + 1);
    } else {
      assert ts[..n] == ts;
    }
  }

  // ---------------------------------------------------------------------------------------------------------
  // When it panics
  // ---------------------------------------------------------------------------------------------------------

  /** By how much these replacements are longer than what they hide, all together. */
  function Grown(ts: seq<Transformation>): int {
    if ts == [] then 0
    else
      var n := |ts| - 1;
      Grown(ts[..n]) + |ts[n].replacement| - (ts[n].end - ts[n].start)
  }

  /** Each span ends within the text as the spans before it leave it. */
  ghost predicate Fits(payload: string, ts: seq<Transformation>) {
    forall i :: 0 <= i < |ts| ==> ts[i].end <= |payload| + Grown(ts[..i])
  }

  ghost predicate Forward(ts: seq<Transformation>) {
    forall t :: t in ts ==> 0 <= t.start <= t.end
  }

  lemma FitsSnoc(payload: string, ts: seq<Transformation>)
    requires ts != []
    ensures var n := |ts| - 1;
            Fits(payload, ts) <==> Fits(payload, ts[..n]) && ts[n].end <= |payload| + Grown(ts[..n])
  {
    var n := |ts| - 1;
    forall i | 0 <= i < n ensures ts[..n][..i] == ts[..i] && ts[..n][i] == ts[i] {
    }
  }

  lemma ForwardPart(ts: seq<Transformation>)
    requires Forward(ts) && ts != []
    ensures Forward(ts[..|ts| - 1]) && 0 <= ts[|ts| - 1].start <= ts[|ts| - 1].end
  {
    assert ts[|ts| - 1] in ts;
  }

  lemma SpliceLength(text: string, t: Transformation)
    requires 0 <= t.start <= t.end
    ensures Splice(text, t).Some? <==> t.end <= |text|
    ensures Splice(text, t).Some? ==> |Splice(text, t).value| == |text| + |t.replacement| - (t.end - t.start)
  {
  }

  /** On any spans, in whatever order and however they overlap: nothing is sliced out of range if and only if every span
      ends within the text as the ones before it leave it; and then the length is what they add up to. */
  lemma {:induction false} PanicExact(payload: string, ts: seq<Transformation>)
    requires Forward(ts)
    ensures SpliceAll(payload, ts).Some? <==> Fits(payload, ts)
    ensures SpliceAll(payload, ts).Some? ==> |SpliceAll(payload, ts).value| == |payload| + Grown(ts)
  {
    if ts != [] {
      var n := |ts| - 1;
      ForwardPart(ts);
      PanicExact(payload, ts[..n]);
      FitsSnoc(payload, ts);
      if SpliceAll(payload, ts[..n]).Some? {
        SpliceLength(SpliceAll(payload, ts[..n]).value, ts[n]);
      }
    }
  }

  /** The replacement is at least as long as what it hides. */
  predicate Covers(t: Transformation) {
    |t.replacement| >= t.end - t.start
  }

  lemma {:induction false} NeverShrinks(ts: seq<Transformation>)
    requires forall t :: t in ts ==> Covers(t)
    ensures Grown(ts) >= 0
  {
    if ts != [] {
      var n := |ts| - 1;
      assert ts == ts[..n] + [ts[n]] && ts[n] in ts;
      NeverShrinks(ts[..n]);
    }
  }

  /** Spans within the text never panic if no replacement is shorter than what it hides, whatever overlaps. */
  lemma LongEnoughFits(payload: string, ts: seq<Transformation>)
    requires forall t :: t in ts ==> InBounds(payload, t) && Covers(t)
    ensures Fits(payload, ts) && SpliceAll(payload, ts).Some?
  {
    forall i | 0 <= i < |ts| ensures ts[i].end <= |payload| + Grown(ts[..i]) {
      forall t | t in ts[..i] ensures Covers(t) {
        assert t in ts;
      }
      NeverShrinks(ts[..i]);
      assert ts[i] in ts;
    }
    PanicExact(payload, ts);
  }

  // ---------------------------------------------------------------------------------------------------------
  // What it means
  // ---------------------------------------------------------------------------------------------------------

  predicate InBounds(payload: string, t: Transformation) {
    0 <= t.start <= t.end <= |payload|
  }

  /** One span ends before the other starts, and they start in different places. */
  predicate Apart(a: Transformation, b: Transformation) {
    a.start != b.start && (a.end <= b.start || b.end <= a.start)
  }

  ghost predicate Spliceable(payload: string, ts: set<Transformation>) {
    && (forall t :: t in ts ==> InBounds(payload, t))
    && (forall a, b :: a in ts && b in ts && a != b ==> Apart(a, b))
  }

  /** The text rendered from left to right: where a span starts, its replacement; elsewhere the next character. */
  ghost function Rendered(payload: string, ts: set<Transformation>, at: nat): string
    requires Spliceable(payload, ts) && at <= |payload|
    decreases |payload| - at, 1
  {
    if t :| t in ts && t.start == at then
      t.replacement + (if t.end > at then Rendered(payload, ts, t.end) else Onward(payload, ts, at))
    else Onward(payload, ts, at)
  }

  /** The character at this place, and then the rest. */
  ghost function Onward(payload: string, ts: set<Transformation>, at: nat): string
    requires Spliceable(payload, ts) && at <= |payload|
    decreases |payload| - at, 0
  {
    if at == |payload| then "" else [payload[at]] + Rendered(payload, ts, at + 1)
  }

  /** The condition on the transformations as they are given. */
  ghost predicate Proper(payload: string, ts: seq<Transformation>) {
    && (forall t :: t in ts ==> InBounds(payload, t))
    && AllApart(ts)
  }

  ghost predicate AllApart(ts: seq<Transformation>) {
    forall i, j :: 0 <= i < j < |ts| ==> Apart(ts[i], ts[j])
  }

  function SetOf(ts: seq<Transformation>): set<Transformation> {
    set t | t in ts
  }

  lemma ProperIsSpliceable(payload: string, ts: seq<Transformation>)
    requires Proper(payload, ts)
    ensures Spliceable(payload, SetOf(ts))
  {
    forall a, b | a in SetOf(ts) && b in SetOf(ts) && a != b ensures Apart(a, b) {
      var i :| 0 <= i < |ts| && ts[i] == a;
      var j :| 0 <= j < |ts| && ts[j] == b;
      if i < j {
        assert Apart(ts[i], ts[j]);
      } else {
        assert Apart(ts[j], ts[i]);
      }
    }
  }

  /** What a span renders, from where it starts. */
  lemma StepAt(payload: string, ts: set<Transformation>, t: Transformation)
    requires Spliceable(payload, ts) && t in ts
    ensures InBounds(payload, t)
    ensures Rendered(payload, ts, t.start) ==
            t.replacement + (if t.end > t.start then Rendered(payload, ts, t.end) else Onward(payload, ts, t.start))
  {
    forall x | x in ts && x.start == t.start ensures x == t {
      assert x == t || Apart(x, t);
    }
  }

  lemma OneMore(payload: string, a: nat, b: nat, tail: string)
    requires a < b <= |payload|
    ensures [payload[a]] + (payload[a + 1..b] + tail) == payload[a..b] + tail
  {
    assert payload[a..b] == [payload[a]] + payload[a + 1..b];
  }

  /** Where no span starts, the text is copied. */
  lemma {:induction false} Copied(payload: string, ts: set<Transformation>, a: nat, b: nat)
    requires Spliceable(payload, ts) && a <= b <= |payload|
    requires forall t :: t in ts ==> !(a <= t.start < b)
    ensures Rendered(payload, ts, a) == payload[a..b] + Rendered(payload, ts, b)
    decreases b - a
  {
    if a < b {
      Copied(payload, ts, a + 1, b);
      OneMore(payload, a, b, Rendered(payload, ts, b));
    } else {
      assert payload[a..b] == "";
    }
  }

  /** A span that starts before a position does not change what is rendered from there on. */
  lemma {:induction false} NotBefore(payload: string, ts: set<Transformation>, t: Transformation, at: nat)
    requires Spliceable(payload, ts + {t}) && Spliceable(payload, ts) && t.start < at <= |payload|
    ensures Rendered(payload, ts + {t}, at) == Rendered(payload, ts, at)
    ensures Onward(payload, ts + {t}, at) == Onward(payload, ts, at)
    decreases |payload| - at
  {
    if at < |payload| {
      NotBefore(payload, ts, t, at + 1);
    }
    if x :| x in ts && x.start == at {
      StepAt(payload, ts, x);
      StepAt(payload, ts + {t}, x);
      if x.end > at {
        NotBefore(payload, ts, t, x.end);
      }
    }
  }

  /** What follows a span, with and without it. */
  lemma AfterSpan(payload: string, ts: set<Transformation>, t: Transformation)
    requires Spliceable(payload, ts + {t}) && Spliceable(payload, ts) && InBounds(payload, t) && forall x :: x in ts ==> x.start != t.start
    ensures Rendered(payload, ts + {t}, t.start) == t.replacement + Rendered(payload, ts, t.end)
  {
    StepAt(payload, ts + {t}, t);
    if t.end > t.start {
      NotBefore(payload, ts, t, t.end);
    } else if t.start < |payload| {
      NotBefore(payload, ts, t, t.start + 1);
    }
  }

  /** One splice: what has been rendered for the later spans, with one more span before them. */
  lemma OneSplice(payload: string, ts: set<Transformation>, t: Transformation)
    requires Spliceable(payload, ts + {t}) && Spliceable(payload, ts) && InBounds(payload, t)
    requires forall x :: x in ts ==> t.end <= x.start && t.start != x.start
    ensures Splice(Rendered(payload, ts, 0), t) == Some(Rendered(payload, ts + {t}, 0))
  {
    var cur, tail := Rendered(payload, ts, 0), Rendered(payload, ts, t.end);
    Copied(payload, ts, 0, t.end);
    assert cur == payload[..t.end] + tail;
    assert cur[..t.start] == payload[..t.start] && cur[t.end..] == tail;
    forall x | x in ts + {t} ensures !(0 <= x.start < t.start) {
      assert x in ts ==> t.end <= x.start;
    }
    Copied(payload, ts + {t}, 0, t.start);
    AfterSpan(payload, ts, t);
    assert payload[0..t.start] == payload[..t.start];
    assert payload[..t.start] + (t.replacement + tail) == payload[..t.start] + t.replacement + tail;
  }

  lemma ApartSnoc(s: seq<Transformation>, t: Transformation)
    requires AllApart(s) && forall x :: x in s ==> Apart(x, t)
    ensures AllApart(s + [t])
  {
  }

  lemma {:induction false} InsertedIsApart(s: seq<Transformation>, t: Transformation)
    requires AllApart(s) && forall x :: x in s ==> Apart(x, t)
    ensures AllApart(Sort.Inserted(s, t, StartsLater))
  {
    if s != [] && StartsLater(t, s[|s| - 1]) {
      var n := |s| - 1;
      InsertedIsApart(s[..n], t);
      Sort.InsertedMembers(s[..n], t, StartsLater);
      assert s[n] in s;
      forall x | x in s[..n] ensures Apart(x, s[n]) {
        var i :| 0 <= i < n && s[i] == x;
      }
      ApartSnoc(Sort.Inserted(s[..n], t, StartsLater), s[n]);
    } else {
      ApartSnoc(s, t);
    }
  }

  lemma {:induction false} SortedIsApart(s: seq<Transformation>)
    requires AllApart(s)
    ensures AllApart(Sorted(s))
  {
    if s != [] {
      var n := |s| - 1;
      SortedIsApart(s[..n]);
      Sort.SortedIsOrdered(s[..n], StartsLater);
      forall x | x in s[..n] ensures Apart(x, s[n]) {
        var i :| 0 <= i < n && s[i] == x;
      }
      InsertedIsApart(Sorted(s[..n]), s[n]);
    }
  }

  lemma NextSplice(payload: string, ts: seq<Transformation>, i: nat)
    requires Proper(payload, ts) && Sort.Ordered(ts, StartsLater) && i < |ts|
    ensures SetOf(ts[..i + 1]) == SetOf(ts[..i]) + {ts[i]}
    ensures Spliceable(payload, SetOf(ts[..i])) && Spliceable(payload, SetOf(ts[..i + 1])) && InBounds(payload, ts[i])
    ensures forall x :: x in SetOf(ts[..i]) ==> ts[i].end <= x.start && ts[i].start != x.start
  {
    assert ts[..i + 1] == ts[..i] + [ts[i]];
    assert ts[i] in ts;
    forall x | x in SetOf(ts[..i]) ensures ts[i].end <= x.start && ts[i].start != x.start {
      var k :| 0 <= k < i && ts[k] == x;
      assert Apart(ts[k], ts[i]) && ts[k] in ts && !StartsLater(ts[i], ts[k]);
    }
    ProperIsSpliceable(payload, ts);
    assert forall x :: x in SetOf(ts[..i + 1]) ==> x in SetOf(ts);
  }

  lemma {:induction false} OrderedSplice(payload: string, ts: seq<Transformation>, n: nat)
    requires Proper(payload, ts) && Sort.Ordered(ts, StartsLater) && n <= |ts|
    ensures Spliceable(payload, SetOf(ts[..n]))
    ensures SpliceAll(payload, ts[..n]) == Some(Rendered(payload, SetOf(ts[..n]), 0))
  {
    if n == 0 {
      NoSplice(payload, ts);
    } else {
      OrderedSplice(payload, ts, n - 1);
      OrderedStep(payload, ts, n - 1);
    }
  }

  lemma NoSplice(payload: string, ts: seq<Transformation>)
    ensures Spliceable(payload, SetOf(ts[..0])) && SpliceAll(payload, ts[..0]) == Some(Rendered(payload, SetOf(ts[..0]), 0))
  {
    assert SetOf(ts[..0]) == {};
    Copied(payload, {}, 0, |payload|);
    assert payload[0..|payload|] + "" == payload;
  }

  lemma OrderedStep(payload: string, ts: seq<Transformation>, i: nat)
    requires Proper(payload, ts) && Sort.Ordered(ts, StartsLater) && i < |ts|
    requires Spliceable(payload, SetOf(ts[..i])) && SpliceAll(payload, ts[..i]) == Some(Rendered(payload, SetOf(ts[..i]), 0))
    ensures Spliceable(payload, SetOf(ts[..i + 1]))
    ensures SpliceAll(payload, ts[..i + 1]) == Some(Rendered(payload, SetOf(ts[..i + 1]), 0))
  {
    NextSplice(payload, ts, i);
    OneMoreSplice(payload, ts, i);
    OneSplice(payload, SetOf(ts[..i]), ts[i]);
  }

  /** Spans that are in bounds and apart, given in any order, are each replaced once and every gap is kept: the splice
      from the back is the rendering from left to right, and never out of range. */
  lemma SplicedIsRendered(payload: string, ts: seq<Transformation>)
    requires Proper(payload, ts)
    ensures Spliceable(payload, SetOf(ts))
    ensures SpliceAll(payload, Sorted(ts)) == Some(Rendered(payload, SetOf(ts), 0))
  {
    Sort.SortedIsOrdered(ts, StartsLater);
    SortedIsApart(ts);
    var sorted := Sorted(ts);
    OrderedSplice(payload, sorted, |sorted|);
    assert sorted[..|sorted|] == sorted;
    assert SetOf(sorted) == SetOf(ts);
  }
}
