/** What a rewritten string shows and what it hides, said finding by finding. */
module PiiRedaction {
  import opened Options
  import opened PiiOverlap
  import PiiPath
  import opened PiiJson
  import opened PiiJsonTheorems
  import S = PiiSplice

  /** What stands in the output where a finding stood. */
  function Shown(host: Host, e: Evaluated): string {
    match e.action
    case Redact => "[" + e.finding.kind + "-REDACTED]"
    case Block => "[" + e.finding.kind + "-REDACTED]"
    case Mask(strategy) => host.mask(e.finding.text, strategy)
    case Observe => e.finding.text
  }

  /** The findings sit in the text one after the other, none of them before the given place. */
  predicate LeftToRight(text: string, fs: seq<Evaluated>, at: nat) {
    fs == [] || (
      var f := fs[0].finding;
      && at <= f.start < f.end <= |text| && text[f.start..f.end] == f.text
      && LeftToRight(text, fs[1..], f.end))
  }

  /** The text from a place on, every gap as it is and every finding as it is shown. */
  function Woven(host: Host, text: string, fs: seq<Evaluated>, at: nat): string
    requires at <= |text| && LeftToRight(text, fs, at)
    decreases fs
  {
    if fs == [] then text[at..]
    else
      var f := fs[0].finding;
      text[at..f.start] + Shown(host, fs[0]) + Woven(host, text, fs[1..], f.end)
  }

  lemma {:induction false} NoneBefore(text: string, fs: seq<Evaluated>, at: nat, e: Evaluated)
    requires LeftToRight(text, fs, at) && e in fs
    ensures at <= e.finding.start < e.finding.end <= |text|
    decreases fs
  {
    if e != fs[0] {
      NoneBefore(text, fs[1..], fs[0].finding.end, e);
    }
  }

  /** The spans from a place on are those of the rewriting findings from there on. */
  ghost predicate SpansOf(host: Host, ts: set<S.Transformation>, fs: seq<Evaluated>, at: nat) {
    && (forall e :: e in fs && Rewrites(e) ==> ToTransformation(host, e) in ts)
    && (forall t :: t in ts && t.start >= at ==> exists e :: e in fs && Rewrites(e) && ToTransformation(host, e) == t)
  }

  lemma SpansAfter(host: Host, text: string, ts: set<S.Transformation>, fs: seq<Evaluated>, at: nat)
    requires fs != [] && LeftToRight(text, fs, at) && SpansOf(host, ts, fs, at)
    ensures SpansOf(host, ts, fs[1..], fs[0].finding.end)
    ensures forall t :: t in ts ==> !(at <= t.start < fs[0].finding.start)
    ensures !Rewrites(fs[0]) ==> forall t :: t in ts ==> !(fs[0].finding.start <= t.start < fs[0].finding.end)
  {
    forall t | t in ts && t.start >= at
      ensures t.start >= fs[0].finding.start
      ensures t.start >= fs[0].finding.end || !Rewrites(fs[0]) ==> exists e :: e in fs[1..] && Rewrites(e) && ToTransformation(host, e) == t
      ensures !Rewrites(fs[0]) ==> t.start >= fs[0].finding.end
    {
      var e :| e in fs && Rewrites(e) && ToTransformation(host, e) == t;
      if e != fs[0] {
        assert e in fs[1..];
        NoneBefore(text, fs[1..], fs[0].finding.end, e);
      }
    }
  }

  lemma {:induction false} WovenIsRendered(host: Host, text: string, ts: set<S.Transformation>, fs: seq<Evaluated>, at: nat)
    requires S.Spliceable(text, ts) && at <= |text| && LeftToRight(text, fs, at) && SpansOf(host, ts, fs, at)
    ensures S.Rendered(text, ts, at) == Woven(host, text, fs, at)
    decreases fs
  {
    if fs == [] {
      S.Copied(text, ts, at, |text|);
      assert text[at..|text|] + "" == text[at..];
    } else {
      var f := fs[0].finding;
      SpansAfter(host, text, ts, fs, at);
      WovenIsRendered(host, text, ts, fs[1..], f.end);
      S.Copied(text, ts, at, f.start);
      ShownAt(host, text, ts, fs[0]);
      Regroup(text[at..f.start], Shown(host, fs[0]), S.Rendered(text, ts, f.end));
    }
  }

  lemma Regroup(a: string, b: string, c: string)
    ensures a + (b + c) == a + b + c
  {
  }

  /** One finding: its replacement if it has one, and otherwise its own text. */
  lemma ShownAt(host: Host, text: string, ts: set<S.Transformation>, e: Evaluated)
    requires S.Spliceable(text, ts) && Found(e.finding, text)
    requires Rewrites(e) ==> ToTransformation(host, e) in ts
    requires !Rewrites(e) ==> forall t :: t in ts ==> !(e.finding.start <= t.start < e.finding.end)
    ensures S.Rendered(text, ts, e.finding.start) == Shown(host, e) + S.Rendered(text, ts, e.finding.end)
  {
    if Rewrites(e) {
      S.StepAt(text, ts, ToTransformation(host, e));
    } else {
      S.Copied(text, ts, e.finding.start, e.finding.end);
    }
  }

  /** The finding names this leaf, and its text is there at its offsets. */
  predicate InLeaf(e: Evaluated, path: string, text: string) {
    var f := e.finding;
    f.fieldPath == path && 0 <= f.start < f.end <= |text| && text[f.start..f.end] == f.text
  }

  /** Of two findings of the leaf, one ends before the other starts. */
  ghost predicate NoneOverlap(es: seq<Evaluated>, path: string, text: string) {
    forall i, j :: 0 <= i < j < |es| && InLeaf(es[i], path, text) && InLeaf(es[j], path, text) ==>
      es[i].finding.end <= es[j].finding.start || es[j].finding.end <= es[i].finding.start
  }

  lemma {:induction false} MineIsApart(es: seq<Evaluated>, path: string, text: string)
    requires NoneOverlap(es, path, text)
    ensures PiiOverlap.Apart(Mine(es, path, text))
  {
    if es != [] {
      var n := |es| - 1;
      MineIsApart(es[..n], path, text);
      MineMembers(es[..n], path, text);
      var before := Mine(es[..n], path, text);
      forall k | 0 <= k < |before| && InLeaf(es[n], path, text) ensures !Conflict(before[k], es[n]) {
        assert before[k] in before;
        var i :| 0 <= i < n && es[..n][i] == before[k];
      }
    }
  }

  /** The findings of a leaf, from left to right. */
  ghost predicate Arranged(es: seq<Evaluated>, path: string, text: string, fs: seq<Evaluated>) {
    LeftToRight(text, fs, 0) && forall e :: e in fs <==> e in es && InLeaf(e, path, text)
  }

  /** Where the findings of a leaf do not overlap, its output is its normalised text with every gap kept and every finding
      as it is shown: a redacted or blocked one as the name of its kind, a masked one masked, an observed one as it was.
      With observed ones only, the leaf is not touched, not even normalised. */
  lemma LeafShows(host: Host, es: seq<Evaluated>, path: string, leaf: string, fs: seq<Evaluated>)
    requires NoneOverlap(es, path, host.nfc(leaf)) && Arranged(es, path, host.nfc(leaf), fs)
    ensures LeafOut(host, es, path, leaf) ==
            Some(if exists e :: e in fs && e.action != Observe then Woven(host, host.nfc(leaf), fs, 0) else leaf)
  {
    var text := host.nfc(leaf);
    MineIsApart(es, path, text);
    if exists e :: e in fs && e.action != Observe {
      var spans := set e | e in es && Belongs(e, path, text) && Rewrites(e) :: ToTransformation(host, e);
      LeafWithApartFindings(host, es, path, leaf);
      assert SpansOf(host, spans, fs, 0);
      WovenIsRendered(host, text, spans, fs, 0);
    } else {
      LeafWithoutFindings(host, es, path, leaf);
    }
  }

  /** So it is in the document: the leaf comes out in its place, shown finding by finding. */
  lemma DocumentShows(host: Host, es: seq<Evaluated>, root: Json, steps: seq<PiiPath.Step>, leaf: string, fs: seq<Evaluated>)
    requires At(root, steps) == Some(Str(leaf))
    requires var path := PiiPath.PathFrom("", steps); NoneOverlap(es, path, host.nfc(leaf)) && Arranged(es, path, host.nfc(leaf), fs)
    ensures At(Rewritten(host, es, "", root), steps) ==
            Some(Str(if exists e :: e in fs && e.action != Observe then Woven(host, host.nfc(leaf), fs, 0) else leaf))
  {
    LeafIsRewritten(host, es, "", root, steps, leaf);
    LeafShows(host, es, PiiPath.PathFrom("", steps), leaf, fs);
  }

  // ---------------------------------------------------------------------------------------------------------
  // There is such an arrangement
  // ---------------------------------------------------------------------------------------------------------

  ghost predicate Separate(text: string, ms: set<Evaluated>, at: nat) {
    && (forall e :: e in ms ==> Found(e.finding, text) && at <= e.finding.start)
    && (forall a, b :: a in ms && b in ms && a != b ==> !Overlaps(a.finding, b.finding))
  }

  lemma {:induction false} Leftmost(ms: set<Evaluated>) returns (first: Evaluated)
    requires ms != {}
    ensures first in ms && forall e :: e in ms ==> first.finding.start <= e.finding.start
  {
    var one :| one in ms;
    var others := ms - {one};
    assert forall e :: e in ms <==> e == one || e in others;
    first := one;
    if others != {} {
      var rest := Leftmost(others);
      first := if rest.finding.start < one.finding.start then rest else one;
    }
  }

  lemma {:induction false} Arrange(text: string, ms: set<Evaluated>, at: nat) returns (fs: seq<Evaluated>)
    requires Separate(text, ms, at)
    ensures LeftToRight(text, fs, at) && forall e :: e in fs <==> e in ms
    decreases ms
  {
    fs := [];
    if ms != {} {
      var first := Leftmost(ms);
      var others := ms - {first};
      forall e | e in others ensures first.finding.end <= e.finding.start {
        assert !Overlaps(first.finding, e.finding);
      }
      var rest := Arrange(text, others, first.finding.end);
      fs := [first] + rest;
      assert fs[1..] == rest;
    }
  }

  /** Findings of one leaf that do not overlap can be arranged. */
  lemma LeafIsArranged(es: seq<Evaluated>, path: string, text: string) returns (fs: seq<Evaluated>)
    requires NoneOverlap(es, path, text)
    ensures Arranged(es, path, text, fs)
  {
    var mine := Mine(es, path, text);
    MineIsApart(es, path, text);
    MineMembers(es, path, text);
    var ms := set e | e in mine;
    forall a: Evaluated, b: Evaluated | a in ms && b in ms && a != b ensures !Overlaps(a.finding, b.finding) {
      var i :| 0 <= i < |mine| && mine[i] == a;
      var j :| 0 <= j < |mine| && mine[j] == b;
      assert if i < j then !Conflict(mine[i], mine[j]) else !Conflict(mine[j], mine[i]);
    }
    fs := Arrange(text, ms, 0);
  }

  // ---------------------------------------------------------------------------------------------------------
  // What is hidden
  // ---------------------------------------------------------------------------------------------------------

  /** The two findings are shown alike whatever they hide: redacted or blocked with the same kind, or the same text. */
  predicate Alike(a: Evaluated, b: Evaluated) {
    && a.action == b.action
    && (a.action == Redact || a.action == Block ==> a.finding.kind == b.finding.kind)
    && (a.action != Redact && a.action != Block ==> a.finding.text == b.finding.text)
  }

  /** The texts agree outside their findings, and the findings are alike one by one. */
  predicate SameOutside(t: string, fs: seq<Evaluated>, at: nat, u: string, gs: seq<Evaluated>, there: nat)
    requires at <= |t| && LeftToRight(t, fs, at) && there <= |u| && LeftToRight(u, gs, there)
    decreases fs
  {
    if fs == [] || gs == [] then fs == gs && t[at..] == u[there..]
    else
      && t[at..fs[0].finding.start] == u[there..gs[0].finding.start] && Alike(fs[0], gs[0])
      && SameOutside(t, fs[1..], fs[0].finding.end, u, gs[1..], gs[0].finding.end)
  }

  lemma {:induction false} SameWoven(host: Host, t: string, fs: seq<Evaluated>, at: nat, u: string, gs: seq<Evaluated>, there: nat)
    requires at <= |t| && LeftToRight(t, fs, at) && there <= |u| && LeftToRight(u, gs, there)
    requires SameOutside(t, fs, at, u, gs, there)
    ensures Woven(host, t, fs, at) == Woven(host, u, gs, there)
    ensures (exists e :: e in fs && e.action != Observe) <==> (exists e :: e in gs && e.action != Observe)
    decreases fs
  {
    if fs != [] && gs != [] {
      SameWoven(host, t, fs[1..], fs[0].finding.end, u, gs[1..], gs[0].finding.end);
      assert forall e :: e in fs <==> e == fs[0] || e in fs[1..];
      assert forall e :: e in gs <==> e == gs[0] || e in gs[1..];
    }
  }

  /** Two leaves that differ only in what is redacted or blocked come out the same: the output says nothing of it, not even
      how long it was. */
  lemma RedactedIsHidden(host: Host, es: seq<Evaluated>, leaf: string, fs: seq<Evaluated>,
                         es': seq<Evaluated>, leaf': string, fs': seq<Evaluated>, path: string)
    requires NoneOverlap(es, path, host.nfc(leaf)) && Arranged(es, path, host.nfc(leaf), fs)
    requires NoneOverlap(es', path, host.nfc(leaf')) && Arranged(es', path, host.nfc(leaf'), fs')
    requires SameOutside(host.nfc(leaf), fs, 0, host.nfc(leaf'), fs', 0)
    requires exists e :: e in fs && e.action != Observe
    ensures LeafOut(host, es, path, leaf) == LeafOut(host, es', path, leaf')
  {
    LeafShows(host, es, path, leaf, fs);
    LeafShows(host, es', path, leaf', fs');
    SameWoven(host, host.nfc(leaf), fs, 0, host.nfc(leaf'), fs', 0);
  }
}
