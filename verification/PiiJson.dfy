/** internal/pii/pii_fieldpath_caretaker.go: findings are written into the JSON document they were found in, or the
    document is refused. */
module PiiJson {
  import opened Options
  import opened PiiOverlap
  import opened PiiPath
  import S = PiiSplice

  /** A decoded document. Numbers are kept as they were written; true, false and null are atoms too. */
  datatype Json = Obj(members: seq<Member>) | Arr(items: seq<Json>) | Str(text: string) | Atom(literal: string)

  datatype Member = Member(key: string, value: Json)

  /** The code this one calls: the JSON decoder and encoder, Unicode NFC, and the masking strategies. */
  datatype Host = Host(
    decode: string -> Option<Json>,
    marshal: Json -> Option<string>,
    nfc: string -> string,
    mask: (string, string) -> string)

  // ---------------------------------------------------------------------------------------------------------
  // One string
  // ---------------------------------------------------------------------------------------------------------

  /** The finding's text sits at its offsets. */
  predicate Found(f: Finding, text: string) {
    0 <= f.start < f.end <= |text| && text[f.start..f.end] == f.text
  }

  predicate Belongs(e: Evaluated, path: string, text: string) {
    e.finding.fieldPath == path && Found(e.finding, text)
  }

  /** The findings of one string, in order. */
  function Mine(es: seq<Evaluated>, path: string, text: string): seq<Evaluated> {
    if es == [] then []
    else
      var n := |es| - 1;
      Mine(es[..n], path, text) + (if Belongs(es[n], path, text) then [es[n]] else [])
  }

  predicate Rewrites(e: Evaluated) {
    e.action != Observe
  }

  function Replacement(host: Host, e: Evaluated): string {
    match e.action
    case Mask(strategy) => host.mask(e.finding.text, strategy)
    case _ => "[" + e.finding.kind + "-REDACTED]"
  }

  function ToTransformation(host: Host, e: Evaluated): S.Transformation {
    S.Transformation(e.finding.start, e.finding.end, Replacement(host, e))
  }

  function Transformations(host: Host, kept: seq<Evaluated>): seq<S.Transformation> {
    if kept == [] then []
    else
      var n := |kept| - 1;
      Transformations(host, kept[..n]) + (if Rewrites(kept[n]) then [ToTransformation(host, kept[n])] else [])
  }

  lemma {:induction false} MineMembers(es: seq<Evaluated>, path: string, text: string)
    ensures forall e :: e in Mine(es, path, text) <==> e in es && Belongs(e, path, text)
  {
    if es != [] {
      var n := |es| - 1;
      MineMembers(es[..n], path, text);
      assert es == es[..n] + [es[n]];
    }
  }

  lemma {:induction false} TransformationsOf(host: Host, kept: seq<Evaluated>)
    ensures forall t :: t in Transformations(host, kept) <==> exists e :: e in kept && Rewrites(e) && ToTransformation(host, e) == t
  {
    if kept != [] {
      var n := |kept| - 1;
      TransformationsOf(host, kept[..n]);
      assert kept == kept[..n] + [kept[n]];
      forall t ensures t in Transformations(host, kept) <==> exists e :: e in kept && Rewrites(e) && ToTransformation(host, e) == t {
        if e :| e in kept && Rewrites(e) && ToTransformation(host, e) == t {
          assert e in kept[..n] || e == kept[n];
        }
      }
    }
  }

  /** Kept findings of one string give transformations the splice can take. */
  lemma {:induction false} TransformationsAreProper(host: Host, kept: seq<Evaluated>, path: string, text: string)
    requires PiiOverlap.Apart(kept) && forall e :: e in kept ==> Belongs(e, path, text)
    ensures S.Proper(text, Transformations(host, kept))
  {
    if kept != [] {
      var n := |kept| - 1;
      var before, last := kept[..n], kept[n];
      assert last in kept;
      TransformationsAreProper(host, before, path, text);
      TransformationsOf(host, before);
      forall t | t in Transformations(host, before) && Rewrites(last) ensures S.Apart(t, ToTransformation(host, last)) {
        var e :| e in before && Rewrites(e) && ToTransformation(host, e) == t;
        var i :| 0 <= i < n && kept[i] == e;
        assert !Conflict(kept[i], kept[n]) && e in kept;
      }
    }
  }

  lemma KeptBelong(es: seq<Evaluated>, path: string, text: string)
    ensures forall e :: e in Resolved(Mine(es, path, text)) ==> e in es && Belongs(e, path, text)
  {
    MineMembers(es, path, text);
    forall e | e in Resolved(Mine(es, path, text)) ensures e in es && Belongs(e, path, text) {
      ResolvedFrom(Mine(es, path, text), e);
    }
  }

  /** The findings of one string that are left after its overlaps are resolved. */
  function KeptIn(host: Host, es: seq<Evaluated>, path: string, leaf: string): seq<Evaluated> {
    Resolved(Mine(es, path, host.nfc(leaf)))
  }

  /** The transformations of one string. */
  function Edits(host: Host, es: seq<Evaluated>, path: string, leaf: string): seq<S.Transformation> {
    Transformations(host, KeptIn(host, es, path, leaf))
  }

  /** What becomes of a string: itself if there is nothing to rewrite, otherwise its NFC text with the kept findings
      spliced in from the back; None where that slices out of range and Go panics. */
  function LeafOut(host: Host, es: seq<Evaluated>, path: string, leaf: string): Option<string> {
    var edits := Edits(host, es, path, leaf);
    if edits == [] then Some(leaf) else S.SpliceAll(host.nfc(leaf), S.Sorted(edits))
  }

  // ---------------------------------------------------------------------------------------------------------
  // The document
  // ---------------------------------------------------------------------------------------------------------

  /** The document with every string rewritten; a string whose rewriting panics is left as it is. */
  function Rewritten(host: Host, es: seq<Evaluated>, path: string, node: Json): Json
    decreases node
  {
    match node
    case Obj(members) =>
      Obj(seq(|members|, i requires 0 <= i < |members| => RewrittenMember(host, es, path, members[i])))
    case Arr(items) =>
      Arr(seq(|items|, i requires 0 <= i < |items| => Rewritten(host, es, IndexPath(path, i), items[i])))
    case Str(text) => Str(Ready(LeafOut(host, es, path, text), text))
    case Atom(_) => node
  }

  function Ready(out: Option<string>, leaf: string): string {
    if out.Some? then out.value else leaf
  }

  function RewrittenMember(host: Host, es: seq<Evaluated>, path: string, m: Member): Member
    decreases m
  {
    Member(m.key, Rewritten(host, es, ChildPath(path, m.key), m.value))
  }

  /** Some string below the node takes this finding. */
  ghost predicate AppliesIn(host: Host, e: Evaluated, path: string, node: Json)
    decreases node
  {
    match node
    case Obj(members) =>
      exists i :: 0 <= i < |members| && AppliesIn(host, e, ChildPath(path, members[i].key), members[i].value)
    case Arr(items) =>
      exists i :: 0 <= i < |items| && AppliesIn(host, e, IndexPath(path, i), items[i])
    case Str(text) => Belongs(e, path, host.nfc(text))
    case Atom(_) => false
  }

  /** Rewriting some string below the node panics. */
  ghost predicate PanicsIn(host: Host, es: seq<Evaluated>, path: string, node: Json)
    decreases node
  {
    match node
    case Obj(members) =>
      exists i :: 0 <= i < |members| && PanicsIn(host, es, ChildPath(path, members[i].key), members[i].value)
    case Arr(items) =>
      exists i :: 0 <= i < |items| && PanicsIn(host, es, IndexPath(path, i), items[i])
    case Str(text) => LeafOut(host, es, path, text) == None
    case Atom(_) => false
  }

  /** Some string below the node is rewritten. */
  ghost predicate ChangesIn(host: Host, es: seq<Evaluated>, path: string, node: Json)
    decreases node
  {
    match node
    case Obj(members) =>
      exists i :: 0 <= i < |members| && ChangesIn(host, es, ChildPath(path, members[i].key), members[i].value)
    case Arr(items) =>
      exists i :: 0 <= i < |items| && ChangesIn(host, es, IndexPath(path, i), items[i])
    case Str(text) => Edits(host, es, path, text) != []
    case Atom(_) => false
  }

  // ---------------------------------------------------------------------------------------------------------
  // The program
  // ---------------------------------------------------------------------------------------------------------

  /** rewriteJSONString: the findings whose path and text fit this string are marked applied and spliced in. */
  method RewriteString(host: Host, es: seq<Evaluated>, path: string, leaf: string, applied: array<bool>)
    returns (out: Option<string>, did: bool)
    requires applied.Length == |es|
    modifies applied
    ensures out == LeafOut(host, es, path, leaf) && (did <==> Edits(host, es, path, leaf) != [])
    ensures forall i :: 0 <= i < |es| ==> applied[i] == (old(applied[i]) || Belongs(es[i], path, host.nfc(leaf)))
  {
    var text := host.nfc(leaf);
    var mine := Claim(es, path, text, applied);
    var kept := ResolveOverlaps(mine);
    var edits := Collect(host, kept);
    if |edits| == 0 {
      return Some(leaf), false;
    }
    var a := new S.Transformation[|edits|](i requires 0 <= i < |edits| => edits[i]);
    assert a[..] == edits;
    out := S.ApplyTransformations(text, a);
    did := true;
  }

  method Claim(es: seq<Evaluated>, path: string, text: string, applied: array<bool>) returns (mine: seq<Evaluated>)
    requires applied.Length == |es|
    modifies applied
    ensures mine == Mine(es, path, text)
    ensures forall i :: 0 <= i < |es| ==> applied[i] == (old(applied[i]) || Belongs(es[i], path, text))
  {
    mine := [];
    for i := 0 to |es|
      invariant mine == Mine(es[..i], path, text)
      invariant forall j :: 0 <= j < i ==> applied[j] == (old(applied[j]) || Belongs(es[j], path, text))
      invariant forall j :: i <= j < |es| ==> applied[j] == old(applied[j])
    {
      assert es[..i + 1][..i] == es[..i];
      var f := es[i].finding;
      if f.fieldPath == path && !(f.start < 0 || f.end > |text| || f.start >= f.end || text[f.start..f.end] != f.text) {
        applied[i] := true;
        mine := mine + [es[i]];
      }
    }
    assert es[..|es|] == es;
  }

  method Collect(host: Host, kept: seq<Evaluated>) returns (edits: seq<S.Transformation>)
    ensures edits == Transformations(host, kept)
  {
    edits := [];
    for i := 0 to |kept|
      invariant edits == Transformations(host, kept[..i])
    {
      assert kept[..i + 1][..i] == kept[..i];
      if kept[i].action != Observe {
        edits := edits + [S.Transformation(kept[i].finding.start, kept[i].finding.end, Replacement(host, kept[i]))];
      }
    }
    assert kept[..|kept|] == kept;
  }

  /** The flags after a part of the document: what was applied before, or applies in that part. */
  ghost predicate Marks(flags: seq<bool>, was: seq<bool>, host: Host, es: seq<Evaluated>, path: string, node: Json) {
    && |flags| == |was| == |es|
    && forall i :: 0 <= i < |es| ==> flags[i] == (was[i] || AppliesIn(host, es[i], path, node))
  }

  /** rewrite: the node with every string below it rewritten, unless one of them panics. */
  method RewriteNode(host: Host, es: seq<Evaluated>, path: string, node: Json, applied: array<bool>)
    returns (out: Option<Json>, changed: bool)
    requires applied.Length == |es|
    modifies applied
    ensures out == if PanicsIn(host, es, path, node) then None else Some(Rewritten(host, es, path, node))
    ensures out.Some? ==> (changed <==> ChangesIn(host, es, path, node))
    ensures out.Some? ==> Marks(applied[..], old(applied[..]), host, es, path, node)
    decreases node
  {
    match node
    case Obj(members) =>
      out, changed := RewriteMembers(host, es, path, node, applied);
    case Arr(items) =>
      out, changed := RewriteItems(host, es, path, node, applied);
    case Str(text) =>
      var s, did := RewriteString(host, es, path, text, applied);
      out, changed := if s.Some? then Some(Str(s.value)) else None, did;
    case Atom(_) =>
      out, changed := Some(node), false;
  }

  /** How far the loop over the members of an object has come: what it has written, and what it has marked. */
  ghost predicate MembersDone(done: seq<Member>, changed: bool, host: Host, es: seq<Evaluated>, path: string,
                              members: seq<Member>, n: nat)
    requires n <= |members|
  {
    && |done| == n
    && (forall i :: 0 <= i < n ==> done[i] == RewrittenMember(host, es, path, members[i]))
    && (forall i :: 0 <= i < n ==> !PanicsIn(host, es, ChildPath(path, members[i].key), members[i].value))
    && (changed <==> exists i :: 0 <= i < n && ChangesIn(host, es, ChildPath(path, members[i].key), members[i].value))
  }

  ghost predicate MarksMembers(flags: seq<bool>, was: seq<bool>, host: Host, es: seq<Evaluated>, path: string,
                               members: seq<Member>, n: nat)
    requires n <= |members|
  {
    && |flags| == |was| == |es|
    && forall i :: 0 <= i < |es| ==>
         flags[i] == (was[i] || exists k :: 0 <= k < n && AppliesIn(host, es[i], ChildPath(path, members[k].key), members[k].value))
  }

  method RewriteMembers(host: Host, es: seq<Evaluated>, path: string, node: Json, applied: array<bool>)
    returns (out: Option<Json>, changed: bool)
    requires applied.Length == |es| && node.Obj?
    modifies applied
    ensures out == if PanicsIn(host, es, path, node) then None else Some(Rewritten(host, es, path, node))
    ensures out.Some? ==> (changed <==> ChangesIn(host, es, path, node))
    ensures out.Some? ==> Marks(applied[..], old(applied[..]), host, es, path, node)
    decreases node, 0
  {
    var members := node.members;
    var done: seq<Member> := [];
    changed := false;
    ghost var was := applied[..];
    for k := 0 to |members|
      invariant MembersDone(done, changed, host, es, path, members, k)
      invariant MarksMembers(applied[..], was, host, es, path, members, k)
    {
      ghost var before := applied[..];
      var value, did := RewriteNode(host, es, ChildPath(path, members[k].key), members[k].value, applied);
      if value == None {
        return None, changed;
      }
      MembersGrow(applied[..], before, was, host, es, path, members, k);
      MembersDoneGrows(done, changed, host, es, path, members, k);
      changed := changed || did;
      done := done + [Member(members[k].key, value.value)];
    }
    out := Some(Obj(done));
    assert done == Rewritten(host, es, path, node).members;
  }

  lemma MembersDoneGrows(done: seq<Member>, changed: bool, host: Host, es: seq<Evaluated>, path: string,
                         members: seq<Member>, k: nat)
    requires k < |members| && MembersDone(done, changed, host, es, path, members, k)
    requires !PanicsIn(host, es, ChildPath(path, members[k].key), members[k].value)
    ensures MembersDone(done + [RewrittenMember(host, es, path, members[k])],
                        changed || ChangesIn(host, es, ChildPath(path, members[k].key), members[k].value),
                        host, es, path, members, k + 1)
  {
    var grown := done + [RewrittenMember(host, es, path, members[k])];
    forall i | 0 <= i < k + 1 ensures grown[i] == RewrittenMember(host, es, path, members[i]) {
    }
    SomeOfOneMore(k, i requires 0 <= i < |members| => ChangesIn(host, es, ChildPath(path, members[i].key), members[i].value));
  }

  lemma SomeOfOneMore(k: nat, p: nat --> bool)
    requires forall i: nat :: i <= k ==> p.requires(i)
    ensures (exists i: nat :: i < k + 1 && p(i)) <==> (exists i: nat :: i < k && p(i)) || p(k)
  {
  }

  lemma MembersGrow(flags: seq<bool>, before: seq<bool>, was: seq<bool>, host: Host, es: seq<Evaluated>, path: string,
                    members: seq<Member>, k: nat)
    requires k < |members| && MarksMembers(before, was, host, es, path, members, k)
    requires Marks(flags, before, host, es, ChildPath(path, members[k].key), members[k].value)
    ensures MarksMembers(flags, was, host, es, path, members, k + 1)
  {
  }

  /** The same for the items of an array. */
  ghost predicate ItemsDone(done: seq<Json>, changed: bool, host: Host, es: seq<Evaluated>, path: string, items: seq<Json>, n: nat)
    requires n <= |items|
  {
    && |done| == n
    && (forall i :: 0 <= i < n ==> done[i] == Rewritten(host, es, IndexPath(path, i), items[i]))
    && (forall i :: 0 <= i < n ==> !PanicsIn(host, es, IndexPath(path, i), items[i]))
    && (changed <==> exists i :: 0 <= i < n && ChangesIn(host, es, IndexPath(path, i), items[i]))
  }

  ghost predicate MarksItems(flags: seq<bool>, was: seq<bool>, host: Host, es: seq<Evaluated>, path: string,
                             items: seq<Json>, n: nat)
    requires n <= |items|
  {
    && |flags| == |was| == |es|
    && forall i :: 0 <= i < |es| ==>
         flags[i] == (was[i] || exists k :: 0 <= k < n && AppliesIn(host, es[i], IndexPath(path, k), items[k]))
  }

  method RewriteItems(host: Host, es: seq<Evaluated>, path: string, node: Json, applied: array<bool>)
    returns (out: Option<Json>, changed: bool)
    requires applied.Length == |es| && node.Arr?
    modifies applied
    ensures out == if PanicsIn(host, es, path, node) then None else Some(Rewritten(host, es, path, node))
    ensures out.Some? ==> (changed <==> ChangesIn(host, es, path, node))
    ensures out.Some? ==> Marks(applied[..], old(applied[..]), host, es, path, node)
    decreases node, 0
  {
    var items := node.items;
    var done: seq<Json> := [];
    changed := false;
    ghost var was := applied[..];
    for k := 0 to |items|
      invariant ItemsDone(done, changed, host, es, path, items, k)
      invariant MarksItems(applied[..], was, host, es, path, items, k)
    {
      ghost var before := applied[..];
      var value, did := RewriteNode(host, es, IndexPath(path, k), items[k], applied);
      if value == None {
        return None, changed;
      }
      ItemsGrow(applied[..], before, was, host, es, path, items, k);
      ItemsDoneGrows(done, changed, host, es, path, items, k);
      changed := changed || did;
      done := done + [value.value];
    }
    out := Some(Arr(done));
    assert done == Rewritten(host, es, path, node).items;
  }

  lemma ItemsDoneGrows(done: seq<Json>, changed: bool, host: Host, es: seq<Evaluated>, path: string, items: seq<Json>, k: nat)
    requires k < |items| && ItemsDone(done, changed, host, es, path, items, k)
    requires !PanicsIn(host, es, IndexPath(path, k), items[k])
    ensures ItemsDone(done + [Rewritten(host, es, IndexPath(path, k), items[k])],
                      changed || ChangesIn(host, es, IndexPath(path, k), items[k]), host, es, path, items, k + 1)
  {
    var grown := done + [Rewritten(host, es, IndexPath(path, k), items[k])];
    forall i | 0 <= i < k + 1 ensures grown[i] == Rewritten(host, es, IndexPath(path, i), items[i]) {
    }
    SomeOfOneMore(k, i requires 0 <= i < |items| => ChangesIn(host, es, IndexPath(path, i), items[i]));
  }

  lemma ItemsGrow(flags: seq<bool>, before: seq<bool>, was: seq<bool>, host: Host, es: seq<Evaluated>, path: string,
                  items: seq<Json>, k: nat)
    requires k < |items| && MarksItems(before, was, host, es, path, items, k)
    requires Marks(flags, before, host, es, IndexPath(path, k), items[k])
    ensures MarksItems(flags, was, host, es, path, items, k + 1)
  {
  }

  datatype Outcome = Written(payload: string) | Refused | Panicked

  /** ApplyFindingsToJSONChecked: refused when the payload is not JSON, a finding fits no string or the result cannot be
      encoded; the payload itself when nothing is to be rewritten; the encoded rewritten document otherwise. */
  method ApplyFindingsChecked(host: Host, payload: string, es: seq<Evaluated>) returns (r: Outcome)
    ensures host.decode(payload) == None ==> r == Refused
    ensures host.decode(payload).Some? ==>
              var root := host.decode(payload).value;
              if PanicsIn(host, es, "", root) then r == Panicked
              else if exists e :: e in es && !AppliesIn(host, e, "", root) then r == Refused
              else if !ChangesIn(host, es, "", root) then r == Written(payload)
              else r == Encoded(host.marshal(Rewritten(host, es, "", root)))
  {
    var decoded := host.decode(payload);
    if decoded == None {
      return Refused;
    }
    var root := decoded.value;
    var applied := new bool[|es|](i => false);
    var newRoot, changed := RewriteNode(host, es, "", root, applied);
    if newRoot == None {
      return Panicked;
    }
    var unapplied := CountUnapplied(applied);
    UnappliedMeansMissing(applied[..], host, es, root);
    if unapplied > 0 {
      return Refused;
    }
    if !changed {
      return Written(payload);
    }
    return Encoded(host.marshal(newRoot.value));
  }

  function Encoded(out: Option<string>): Outcome {
    if out.Some? then Written(out.value) else Refused
  }

  method CountUnapplied(applied: array<bool>) returns (n: nat)
    ensures n > 0 <==> false in applied[..]
  {
    n := 0;
    for i := 0 to applied.Length
      invariant n > 0 <==> false in applied[..i]
    {
      assert applied[..i + 1] == applied[..i] + [applied[i]];
      if !applied[i] {
        n := n + 1;
      }
    }
    assert applied[..applied.Length] == applied[..];
  }

  lemma UnappliedMeansMissing(flags: seq<bool>, host: Host, es: seq<Evaluated>, root: Json)
    requires Marks(flags, seq(|es|, j => false), host, es, "", root)
    ensures false in flags <==> exists e :: e in es && !AppliesIn(host, e, "", root)
  {
    if false in flags {
      var i :| 0 <= i < |flags| && !flags[i];
      assert es[i] in es && !AppliesIn(host, es[i], "", root);
    }
    if e :| e in es && !AppliesIn(host, e, "", root) {
      var i :| 0 <= i < |es| && es[i] == e;
      assert !flags[i];
    }
  }
}
