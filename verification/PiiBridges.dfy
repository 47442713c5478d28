/** What a bridging finding does to a text: resolving overlaps once, as the callers do, and again inside the rewrite can
    leave two spans that overlap. */
module PiiBridges {
  import opened Options
  import opened PiiOverlap
  import opened PiiJson
  import S = PiiSplice
  import Sort = InsertionSort

  const TEXT := "0123456789"

  /** An e-mail address found in these columns of the text. */
  function Span(text: string, start: nat, end: nat, priority: int): Evaluated
    requires start <= end <= |text|
  {
    Evaluated(Finding("EMAIL", text[start..end], "", "", start, end, 0), priority, Redact)
  }

  function A(): Evaluated { Span(TEXT, 1, 4, 2) }
  function B(): Evaluated { Span(TEXT, 6, 9, 2) }
  function C(): Evaluated { Span(TEXT, 3, 7, 9) }

  /** What the scanner found. */
  function Scanned(): seq<Evaluated> {
    [Span(TEXT, 0, 2, 1), Span(TEXT, 8, 10, 1), C(), A(), B()]
  }

  /** Two findings that a third, apart from both, does not touch are displaced one after the other. */
  lemma BothDisplaced(x: Evaluated, y: Evaluated, c: Evaluated, a: Evaluated, b: Evaluated)
    requires PiiOverlap.Apart([x, y, c]) && Conflict(a, x) && WinsOver(a, x)
    requires !Conflict(b, a) && Conflict(b, y) && WinsOver(b, y)
    ensures Resolved([x, y, c, a, b]) == [a, b, c]
  {
    ResolvedKeepsApart([x, y, c]);
    Displaced([x, y, c], a, 0);
    assert [x, y, c][0 := a] == [a, y, c];
    ResolvedSnoc([x, y, c], a);
    assert [x, y, c] + [a] == [x, y, c, a];
    Displaced([a, y, c], b, 1);
    assert [a, y, c][1 := b] == [a, b, c];
    ResolvedSnoc([x, y, c, a], b);
    assert [x, y, c, a] + [b] == [x, y, c, a, b];
  }

  /** The findings that are passed on: the strongest one first lost nothing, then two weaker ones each displaced one of
      the first two, and all three are kept. */
  lemma ResolvedOnce()
    ensures Resolved(Scanned()) == [A(), B(), C()]
  {
    BothDisplaced(Span(TEXT, 0, 2, 1), Span(TEXT, 8, 10, 1), C(), A(), B());
  }

  /** Resolved again, the bridge displaces the first of them and overlaps the second. */
  lemma ResolvedTwice()
    ensures Resolved([A(), B(), C()]) == [C(), B()] && Overlaps(C().finding, B().finding)
    ensures !NeverBridges([A(), B(), C()])
  {
    BridgeLeavesAnOverlap(A(), B(), C());
  }

  lemma {:induction false} MineAll(es: seq<Evaluated>, path: string, text: string)
    requires forall e :: e in es ==> Belongs(e, path, text)
    ensures Mine(es, path, text) == es
  {
    if es != [] {
      var n := |es| - 1;
      assert es[n] in es && es == es[..n] + [es[n]];
      MineAll(es[..n], path, text);
    }
  }

  /** Two edits, the later one first. */
  lemma EditsOfTwo(host: Host, c: Evaluated, b: Evaluated)
    requires Rewrites(c) && Rewrites(b) && c.finding.start < b.finding.start
    ensures var edits := Transformations(host, [c, b]);
            edits != [] && S.Sorted(edits) == [ToTransformation(host, b), ToTransformation(host, c)]
  {
    var tc, tb := ToTransformation(host, c), ToTransformation(host, b);
    assert [c, b][..1] == [c] && [c][..0] == [];
    assert Transformations(host, [c]) == [tc];
    assert Transformations(host, [c, b]) == [tc, tb];
    Sort.SortedPair(tc, tb, S.StartsLater);
  }

  lemma SpliceTwo(text: string, t: S.Transformation, u: S.Transformation)
    ensures S.SpliceAll(text, [t, u]) ==
            match S.Splice(text, t) case None => None case Some(next) => S.Splice(next, u)
  {
    assert [t, u][..1] == [t] && [t][..0] == [];
    assert S.SpliceAll(text, [t]) == S.Splice(text, t);
  }

  /** The leaf of three findings of which the last bridges the first two: the second is spliced in, and then the bridge,
      at the old offsets, into what that left. */
  lemma BridgedLeaf(host: Host, a: Evaluated, b: Evaluated, c: Evaluated, path: string, leaf: string)
    requires var text := host.nfc(leaf); Belongs(a, path, text) && Belongs(b, path, text) && Belongs(c, path, text)
    requires !Conflict(b, a) && Conflict(c, a) && Conflict(c, b) && WinsOver(c, a)
    requires Rewrites(c) && Rewrites(b) && c.finding.start < b.finding.start
    ensures LeafOut(host, [a, b, c], path, leaf) ==
            match S.Splice(host.nfc(leaf), ToTransformation(host, b))
            case None => None
            case Some(next) => S.Splice(next, ToTransformation(host, c))
  {
    MineAll([a, b, c], path, host.nfc(leaf));
    BridgeLeavesAnOverlap(a, b, c);
    EditsOfTwo(host, c, b);
    SpliceTwo(host.nfc(leaf), ToTransformation(host, b), ToTransformation(host, c));
  }

  /** A span of three replaced near the end, and then one of four whose last character is the replacement's first. */
  lemma SpliceIntoReplacement(text: string, redacted: string)
    requires |text| == 10 && |redacted| > 1
    ensures var next := text[..6] + redacted + text[9..];
            && S.Splice(text, S.Transformation(6, 9, redacted)) == Some(next)
            && S.Splice(next, S.Transformation(3, 7, redacted)) == Some(text[..3] + redacted + redacted[1..] + text[9..])
  {
    var next := text[..6] + redacted + text[9..];
    assert next[..3] == text[..3];
    assert next[7..] == redacted[1..] + text[9..];
    assert text[..3] + redacted + (redacted[1..] + text[9..]) == text[..3] + redacted + redacted[1..] + text[9..];
  }

  lemma Redaction(host: Host)
    ensures Replacement(host, B()) == Replacement(host, C()) == REDACTED
  {
    assert "[" + "EMAIL" + "-REDACTED]" == REDACTED;
  }

  const REDACTED := "[EMAIL-REDACTED]"

  /** The second replacement is spliced into the first, which loses its first character: of the text 0123456789 is left
      012[EMAIL-REDACTED]EMAIL-REDACTED]9. */
  lemma ReplacementIsSplit(host: Host)
    requires host.nfc(TEXT) == TEXT
    ensures LeafOut(host, [A(), B(), C()], "", TEXT) == Some(TEXT[..3] + REDACTED + REDACTED[1..] + TEXT[9..])
  {
    BridgedLeaf(host, A(), B(), C(), "", TEXT);
    Redaction(host);
    SpliceIntoReplacement(TEXT, REDACTED);
  }

  const SHORT := "012345678"

  function Masked(start: nat, end: nat, priority: int): Evaluated
    requires start <= end <= |SHORT|
  {
    Span(SHORT, start, end, priority).(action := Mask("FIXED"))
  }

  /** With a mask shorter than what it hides, the rewrite slices out of range. */
  lemma ShortMaskPanics(host: Host)
    requires host.nfc(SHORT) == SHORT && forall text :: |host.mask(text, "FIXED")| == 1
    ensures LeafOut(host, [Masked(1, 4, 2), Masked(6, 9, 2), Masked(3, 8, 9)], "", SHORT) == None
  {
    var a, b, c := Masked(1, 4, 2), Masked(6, 9, 2), Masked(3, 8, 9);
    BridgedLeaf(host, a, b, c, "", SHORT);
    var next := SHORT[..6] + host.mask(b.finding.text, "FIXED") + SHORT[9..];
    assert S.Splice(SHORT, ToTransformation(host, b)) == Some(next);
    assert |next| == 7;
  }
}
