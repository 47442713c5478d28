/** What a rewritten document keeps and what it changes. */
module PiiJsonTheorems {
  import opened Options
  import opened PiiOverlap
  import opened PiiPath
  import opened PiiJson
  import S = PiiSplice

  // ---------------------------------------------------------------------------------------------------------
  // Shape
  // ---------------------------------------------------------------------------------------------------------

  /** Same objects with the same keys in the same order, same arrays, same numbers and literals; only strings may differ. */
  ghost predicate SameShape(a: Json, b: Json)
    decreases a
  {
    match a
    case Obj(members) =>
      && b.Obj? && |b.members| == |members|
      && forall i :: 0 <= i < |members| ==> b.members[i].key == members[i].key && SameShape(members[i].value, b.members[i].value)
    case Arr(items) => b.Arr? && |b.items| == |items| && forall i :: 0 <= i < |items| ==> SameShape(items[i], b.items[i])
    case Str(_) => b.Str?
    case Atom(_) => b == a
  }

  lemma {:induction false} ShapeIsKept(host: Host, es: seq<Evaluated>, path: string, node: Json)
    ensures SameShape(node, Rewritten(host, es, path, node))
    decreases node
  {
    match node
    case Obj(members) =>
      var out := Rewritten(host, es, path, node);
      forall i | 0 <= i < |members|
        ensures out.members[i].key == members[i].key && SameShape(members[i].value, out.members[i].value)
      {
        assert out.members[i] == RewrittenMember(host, es, path, members[i]);
        ShapeIsKept(host, es, ChildPath(path, members[i].key), members[i].value);
      }
    case Arr(items) =>
      forall i | 0 <= i < |items| ensures SameShape(items[i], Rewritten(host, es, path, node).items[i]) {
        ShapeIsKept(host, es, IndexPath(path, i), items[i]);
      }
    case Str(_) =>
    case Atom(_) =>
  }

  /** With nothing to rewrite, the document is the same. */
  lemma {:induction false} UnchangedIsTheSame(host: Host, es: seq<Evaluated>, path: string, node: Json)
    requires !ChangesIn(host, es, path, node)
    ensures Rewritten(host, es, path, node) == node
    decreases node
  {
    match node
    case Obj(members) =>
      var out := Rewritten(host, es, path, node);
      forall i | 0 <= i < |members| ensures out.members[i] == members[i] {
        assert out.members[i] == RewrittenMember(host, es, path, members[i]);
        UnchangedIsTheSame(host, es, ChildPath(path, members[i].key), members[i].value);
      }
      assert out.members == members;
    case Arr(items) =>
      var out := Rewritten(host, es, path, node);
      forall i | 0 <= i < |items| ensures out.items[i] == items[i] {
        UnchangedIsTheSame(host, es, IndexPath(path, i), items[i]);
      }
      assert out.items == items;
    case Str(_) =>
    case Atom(_) =>
  }

  // ---------------------------------------------------------------------------------------------------------
  // Leaves
  // ---------------------------------------------------------------------------------------------------------

  function KeyAt(members: seq<Member>, key: string): (i: int)
    ensures -1 <= i < |members|
    ensures i >= 0 ==> members[i].key == key
    ensures i < 0 ==> forall j :: 0 <= j < |members| ==> members[j].key != key
  {
    if members == [] then -1
    else
      var n := |members| - 1;
      var i := KeyAt(members[..n], key);
      if i >= 0 then i else if members[n].key == key then n else -1
  }

  /** The node these steps lead to. */
  function At(node: Json, steps: seq<Step>): Option<Json>
    decreases steps
  {
    if steps == [] then Some(node)
    else
      match steps[0]
      case Key(name) =>
        if node.Obj? && KeyAt(node.members, name) >= 0 then At(node.members[KeyAt(node.members, name)].value, steps[1..]) else None
      case Index(i) =>
        if node.Arr? && i < |node.items| then At(node.items[i], steps[1..]) else None
  }

  /** No object has a key twice. */
  ghost predicate WellFormed(node: Json)
    decreases node
  {
    match node
    case Obj(members) =>
      && (forall i, j :: 0 <= i < j < |members| ==> members[i].key != members[j].key)
      && forall i :: 0 <= i < |members| ==> WellFormed(members[i].value)
    case Arr(items) => forall i :: 0 <= i < |items| ==> WellFormed(items[i])
    case _ => true
  }

  lemma {:induction false} KeyAtSame(a: seq<Member>, b: seq<Member>, key: string)
    requires |a| == |b| && forall i :: 0 <= i < |a| ==> a[i].key == b[i].key
    ensures KeyAt(a, key) == KeyAt(b, key)
  {
    if a != [] {
      KeyAtSame(a[..|a| - 1], b[..|a| - 1], key);
    }
  }

  /** A leaf comes out as its own findings say, and where it was; every string leaf of the document is one of these. */
  lemma {:induction false} LeafIsRewritten(host: Host, es: seq<Evaluated>, path: string, node: Json, steps: seq<Step>, leaf: string)
    requires At(node, steps) == Some(Str(leaf))
    ensures At(Rewritten(host, es, path, node), steps) == Some(Str(Ready(LeafOut(host, es, PathFrom(path, steps), leaf), leaf)))
    decreases steps
  {
    if steps != [] {
      var out := Rewritten(host, es, path, node);
      match steps[0]
      case Key(name) =>
        var i := KeyAt(node.members, name);
        forall j | 0 <= j < |node.members| ensures out.members[j] == RewrittenMember(host, es, path, node.members[j]) {
        }
        KeyAtSame(node.members, out.members, name);
        LeafIsRewritten(host, es, ChildPath(path, name), node.members[i].value, steps[1..], leaf);
      case Index(i) =>
        LeafIsRewritten(host, es, IndexPath(path, i), node.items[i], steps[1..], leaf);
    }
  }

  /** A leaf no rewriting finding belongs to is not touched, not even normalised. */
  lemma LeafWithoutFindings(host: Host, es: seq<Evaluated>, path: string, leaf: string)
    requires forall e :: e in es && Belongs(e, path, host.nfc(leaf)) ==> !Rewrites(e)
    ensures LeafOut(host, es, path, leaf) == Some(leaf)
  {
    var edits := Edits(host, es, path, leaf);
    assert edits != [] ==> edits[0] in edits;
    KeptBelong(es, path, host.nfc(leaf));
    TransformationsOf(host, KeptIn(host, es, path, leaf));
  }

  /** A leaf whose rewriting kept findings do not overlap: each of them is replaced at its own offsets of the normalised
      text and every gap is kept; nothing panics. */
  lemma LeafIsRendered(host: Host, es: seq<Evaluated>, path: string, leaf: string)
    requires Edits(host, es, path, leaf) != [] && S.AllApart(Edits(host, es, path, leaf))
    ensures var edits := S.SetOf(Edits(host, es, path, leaf));
            S.Spliceable(host.nfc(leaf), edits) && LeafOut(host, es, path, leaf) == Some(S.Rendered(host.nfc(leaf), edits, 0))
  {
    EditsInBounds(host, es, path, leaf);
    S.SplicedIsRendered(host.nfc(leaf), Edits(host, es, path, leaf));
  }

  lemma EditsInBounds(host: Host, es: seq<Evaluated>, path: string, leaf: string)
    ensures forall t :: t in Edits(host, es, path, leaf) ==> S.InBounds(host.nfc(leaf), t)
  {
    KeptBelong(es, path, host.nfc(leaf));
    TransformationsOf(host, KeptIn(host, es, path, leaf));
  }

  /** Where that condition comes from: no finding of the leaf bridges two others. */
  lemma UnbridgedLeafIsApart(host: Host, es: seq<Evaluated>, path: string, leaf: string)
    requires NeverBridges(Mine(es, path, host.nfc(leaf)))
    ensures S.AllApart(Edits(host, es, path, leaf)) && LeafOut(host, es, path, leaf).Some?
  {
    ApartExactly(Mine(es, path, host.nfc(leaf)));
    KeptBelong(es, path, host.nfc(leaf));
    TransformationsAreProper(host, KeptIn(host, es, path, leaf), path, host.nfc(leaf));
    S.SplicedIsRendered(host.nfc(leaf), Edits(host, es, path, leaf));
  }

  /** Whatever overlaps, a leaf is rewritten without slicing out of range if and only if each of its edits, from the back,
      ends within the text as those before it leave it. */
  lemma LeafPanicExact(host: Host, es: seq<Evaluated>, path: string, leaf: string)
    ensures LeafOut(host, es, path, leaf).Some? <==> S.Fits(host.nfc(leaf), S.Sorted(Edits(host, es, path, leaf)))
  {
    var edits := Edits(host, es, path, leaf);
    EditsInBounds(host, es, path, leaf);
    S.SortedMembers(edits);
    S.PanicExact(host.nfc(leaf), S.Sorted(edits));
  }

  /** No replacement is shorter than what it hides. */
  ghost predicate NeverShorter(host: Host, es: seq<Evaluated>) {
    forall e :: e in es && Rewrites(e) ==> |Replacement(host, e)| >= e.finding.end - e.finding.start
  }

  lemma LongEnoughLeaf(host: Host, es: seq<Evaluated>, path: string, leaf: string)
    requires NeverShorter(host, es)
    ensures LeafOut(host, es, path, leaf).Some?
  {
    var edits := Edits(host, es, path, leaf);
    EditsInBounds(host, es, path, leaf);
    KeptBelong(es, path, host.nfc(leaf));
    TransformationsOf(host, KeptIn(host, es, path, leaf));
    S.SortedMembers(edits);
    S.LongEnoughFits(host.nfc(leaf), S.Sorted(edits));
  }

  /** A leaf whose findings do not overlap in the first place: every one of them that rewrites is replaced. */
  lemma LeafWithApartFindings(host: Host, es: seq<Evaluated>, path: string, leaf: string)
    requires PiiOverlap.Apart(Mine(es, path, host.nfc(leaf)))
    requires exists e :: e in es && Belongs(e, path, host.nfc(leaf)) && Rewrites(e)
    ensures var spans := set e | e in es && Belongs(e, path, host.nfc(leaf)) && Rewrites(e) :: ToTransformation(host, e);
            S.Spliceable(host.nfc(leaf), spans) && LeafOut(host, es, path, leaf) == Some(S.Rendered(host.nfc(leaf), spans, 0))
  {
    var text := host.nfc(leaf);
    var mine := Mine(es, path, text);
    MineMembers(es, path, text);
    ResolvedKeepsApart(mine);
    TransformationsOf(host, mine);
    TransformationsAreProper(host, mine, path, text);
    var spans := set e | e in es && Belongs(e, path, text) && Rewrites(e) :: ToTransformation(host, e);
    var edits := Edits(host, es, path, leaf);
    forall t ensures t in S.SetOf(edits) <==> t in spans {
    }
    assert S.SetOf(edits) == spans;
    var e :| e in es && Belongs(e, path, text) && Rewrites(e);
    assert ToTransformation(host, e) in edits;
    LeafIsRendered(host, es, path, leaf);
  }

  // ---------------------------------------------------------------------------------------------------------
  // Findings
  // ---------------------------------------------------------------------------------------------------------

  /** The finding's text sits at its offsets in the leaf these steps lead to, and its path names that leaf. */
  ghost predicate FoundAt(host: Host, e: Evaluated, path: string, node: Json, steps: seq<Step>) {
    match At(node, steps)
    case Some(Str(leaf)) => Belongs(e, PathFrom(path, steps), host.nfc(leaf))
    case _ => false
  }

  /** A finding that scanning some leaf produced is always applied, so a document is never refused for its own findings. */
  lemma {:induction false} FoundMeansApplied(host: Host, e: Evaluated, path: string, node: Json, steps: seq<Step>)
    requires FoundAt(host, e, path, node, steps)
    ensures AppliesIn(host, e, path, node)
    decreases steps
  {
    if steps != [] {
      match steps[0]
      case Key(name) =>
        var i := KeyAt(node.members, name);
        FoundMeansApplied(host, e, ChildPath(path, name), node.members[i].value, steps[1..]);
        assert AppliesIn(host, e, ChildPath(path, node.members[i].key), node.members[i].value);
      case Index(i) =>
        FoundMeansApplied(host, e, IndexPath(path, i), node.items[i], steps[1..]);
    }
  }

  /** And the other way: an applied finding's text was found at its offsets in a leaf with its path. */
  lemma {:induction false} AppliedMeansFound(host: Host, e: Evaluated, path: string, node: Json) returns (steps: seq<Step>)
    requires WellFormed(node) && AppliesIn(host, e, path, node)
    ensures FoundAt(host, e, path, node, steps)
    decreases node
  {
    match node
    case Obj(members) =>
      var i :| 0 <= i < |members| && AppliesIn(host, e, ChildPath(path, members[i].key), members[i].value);
      var rest := AppliedMeansFound(host, e, ChildPath(path, members[i].key), members[i].value);
      steps := [Key(members[i].key)] + rest;
      assert steps[1..] == rest;
      assert KeyAt(members, members[i].key) == i;
    case Arr(items) =>
      var i :| 0 <= i < |items| && AppliesIn(host, e, IndexPath(path, i), items[i]);
      var rest := AppliedMeansFound(host, e, IndexPath(path, i), items[i]);
      steps := [Index(i)] + rest;
      assert steps[1..] == rest;
    case Str(_) =>
      steps := [];
  }

  /** What success promises: every finding's text was found at its offsets in a leaf with its path. What refusal
      means: some finding's was not. */
  lemma SuccessMeansAllFound(host: Host, es: seq<Evaluated>, root: Json)
    requires WellFormed(root)
    ensures (forall e :: e in es ==> AppliesIn(host, e, "", root)) <==>
            (forall e :: e in es ==> exists steps :: FoundAt(host, e, "", root, steps))
  {
    forall e ensures AppliesIn(host, e, "", root) <==> exists steps :: FoundAt(host, e, "", root, steps) {
      if AppliesIn(host, e, "", root) {
        var steps := AppliedMeansFound(host, e, "", root);
      }
      if steps :| FoundAt(host, e, "", root, steps) {
        FoundMeansApplied(host, e, "", root, steps);
      }
    }
  }

  // ---------------------------------------------------------------------------------------------------------
  // When a rewrite panics
  // ---------------------------------------------------------------------------------------------------------

  /** The leaf these steps lead to has an edit that ends beyond the text as the edits before it leave it. */
  ghost predicate OverrunAt(host: Host, es: seq<Evaluated>, path: string, node: Json, steps: seq<Step>) {
    match At(node, steps)
    case Some(Str(leaf)) => !S.Fits(host.nfc(leaf), S.Sorted(Edits(host, es, PathFrom(path, steps), leaf)))
    case _ => false
  }

  lemma {:induction false} OverrunPanics(host: Host, es: seq<Evaluated>, path: string, node: Json, steps: seq<Step>)
    requires OverrunAt(host, es, path, node, steps)
    ensures PanicsIn(host, es, path, node)
    decreases steps
  {
    if steps == [] {
      LeafPanicExact(host, es, path, node.text);
    } else {
      match steps[0]
      case Key(name) =>
        var i := KeyAt(node.members, name);
        OverrunPanics(host, es, ChildPath(path, name), node.members[i].value, steps[1..]);
        assert PanicsIn(host, es, ChildPath(path, node.members[i].key), node.members[i].value);
      case Index(i) =>
        OverrunPanics(host, es, IndexPath(path, i), node.items[i], steps[1..]);
    }
  }

  lemma {:induction false} PanicIsOverrun(host: Host, es: seq<Evaluated>, path: string, node: Json) returns (steps: seq<Step>)
    requires WellFormed(node) && PanicsIn(host, es, path, node)
    ensures OverrunAt(host, es, path, node, steps)
    decreases node
  {
    match node
    case Obj(members) =>
      var i :| 0 <= i < |members| && PanicsIn(host, es, ChildPath(path, members[i].key), members[i].value);
      var rest := PanicIsOverrun(host, es, ChildPath(path, members[i].key), members[i].value);
      steps := [Key(members[i].key)] + rest;
      assert steps[1..] == rest;
      assert KeyAt(members, members[i].key) == i;
    case Arr(items) =>
      var i :| 0 <= i < |items| && PanicsIn(host, es, IndexPath(path, i), items[i]);
      var rest := PanicIsOverrun(host, es, IndexPath(path, i), items[i]);
      steps := [Index(i)] + rest;
      assert steps[1..] == rest;
    case Str(text) =>
      steps := [];
      LeafPanicExact(host, es, path, text);
  }

  /** A document panics if and only if an edit of one of its leaves ends beyond the text as the edits before it leave it. */
  lemma PanicsExactly(host: Host, es: seq<Evaluated>, root: Json)
    requires WellFormed(root)
    ensures PanicsIn(host, es, "", root) <==> exists steps :: OverrunAt(host, es, "", root, steps)
  {
    if PanicsIn(host, es, "", root) {
      var steps := PanicIsOverrun(host, es, "", root);
    }
    if steps :| OverrunAt(host, es, "", root, steps) {
      OverrunPanics(host, es, "", root, steps);
    }
  }

  /** No document panics if no replacement is shorter than what it hides. */
  lemma {:induction false} LongEnoughNeverPanics(host: Host, es: seq<Evaluated>, path: string, node: Json)
    requires NeverShorter(host, es)
    ensures !PanicsIn(host, es, path, node)
    decreases node
  {
    match node
    case Obj(members) =>
      forall i | 0 <= i < |members| ensures !PanicsIn(host, es, ChildPath(path, members[i].key), members[i].value) {
        LongEnoughNeverPanics(host, es, ChildPath(path, members[i].key), members[i].value);
      }
    case Arr(items) =>
      forall i | 0 <= i < |items| ensures !PanicsIn(host, es, IndexPath(path, i), items[i]) {
        LongEnoughNeverPanics(host, es, IndexPath(path, i), items[i]);
      }
    case Str(text) => LongEnoughLeaf(host, es, path, text);
    case Atom(_) =>
  }

  /** The path does not begin with an empty key. */
  predicate NoEmptyStart(steps: seq<Step>) {
    steps == [] || steps[0] != Key("")
  }

  /** A finding goes to the one leaf it was found in, unless an empty key hides the start of a path. */
  lemma OneLeafPerFinding(host: Host, e: Evaluated, root: Json, a: seq<Step>, b: seq<Step>)
    requires FoundAt(host, e, "", root, a) && FoundAt(host, e, "", root, b) && NoEmptyStart(a) && NoEmptyStart(b)
    ensures a == b
  {
    PathsEqualExactly(a, b);
  }
}
