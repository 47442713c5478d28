/** internal/pii/pii_overlap.go: of findings that conflict, the strongest is kept. */
module PiiOverlap {
  import opened TextOrder

  datatype Finding = Finding(
    kind: string,
    text: string,
    detectorId: string,
    fieldPath: string,
    start: int,
    end: int,
    confidence: int)

  datatype Action = Redact | Block | Mask(strategy: string) | Observe

  datatype Evaluated = Evaluated(finding: Finding, priority: int, action: Action)

  predicate Overlaps(a: Finding, b: Finding) {
    a.start < b.end && b.start < a.end
  }

  /** An empty path is compatible with every path. */
  predicate Conflict(a: Evaluated, b: Evaluated) {
    && (a.finding.fieldPath == "" || b.finding.fieldPath == "" || a.finding.fieldPath == b.finding.fieldPath)
    && Overlaps(a.finding, b.finding)
  }

  predicate WinsOver(a: Evaluated, b: Evaluated) {
    if a.priority != b.priority then a.priority > b.priority
    else if a.finding.confidence != b.finding.confidence then a.finding.confidence > b.finding.confidence
    else if |a.finding.text| != |b.finding.text| then |a.finding.text| > |b.finding.text|
    else TextLess(a.finding.detectorId, b.finding.detectorId)
  }

  lemma WinsIsStrict(a: Evaluated, b: Evaluated, c: Evaluated)
    ensures !WinsOver(a, a)
    ensures WinsOver(a, b) && WinsOver(b, c) ==> WinsOver(a, c)
  {
    TextTrichotomy(a.finding.detectorId, a.finding.detectorId);
    if TextLess(a.finding.detectorId, b.finding.detectorId) && TextLess(b.finding.detectorId, c.finding.detectorId) {
      TextTransitive(a.finding.detectorId, b.finding.detectorId, c.finding.detectorId);
    }
  }

  /** The first kept finding the candidate conflicts with, or -1. */
  function FirstConflict(kept: seq<Evaluated>, c: Evaluated): (i: int)
    ensures -1 <= i < |kept|
    ensures i >= 0 ==> Conflict(c, kept[i])
    ensures forall j :: 0 <= j < (if i < 0 then |kept| else i) ==> !Conflict(c, kept[j])
  {
    if kept == [] then -1
    else
      var n := |kept| - 1;
      var i := FirstConflict(kept[..n], c);
      if i >= 0 then i else if Conflict(c, kept[n]) then n else -1
  }

  /** What one candidate does to the kept findings. */
  function Contest(kept: seq<Evaluated>, c: Evaluated): seq<Evaluated> {
    var i := FirstConflict(kept, c);
    if i < 0 then kept + [c] else if WinsOver(c, kept[i]) then kept[i := c] else kept
  }

  function Resolved(es: seq<Evaluated>): seq<Evaluated> {
    if es == [] then [] else Contest(Resolved(es[..|es| - 1]), es[|es| - 1])
  }

  /** The inner loop of ResolveOverlaps. */
  method FindConflict(kept: seq<Evaluated>, candidate: Evaluated) returns (conflictIndex: int)
    ensures conflictIndex == FirstConflict(kept, candidate)
  {
    for i := 0 to |kept|
      invariant forall j :: 0 <= j < i ==> !Conflict(candidate, kept[j])
    {
      var existing := kept[i];
      if candidate.finding.fieldPath != "" && existing.finding.fieldPath != ""
         && candidate.finding.fieldPath != existing.finding.fieldPath
      {
        continue;
      }
      if Overlaps(candidate.finding, existing.finding) {
        return i;
      }
    }
    return -1;
  }

  /** ResolveOverlaps. */
  method ResolveOverlaps(evaluated: seq<Evaluated>) returns (kept: seq<Evaluated>)
    ensures kept == Resolved(evaluated)
  {
    kept := [];
    for n := 0 to |evaluated|
      invariant kept == Resolved(evaluated[..n])
    {
      var candidate := evaluated[n];
      assert evaluated[..n + 1][..n] == evaluated[..n];
      var conflictIndex := FindConflict(kept, candidate);
      if conflictIndex == -1 {
        kept := kept + [candidate];
      } else if WinsOver(candidate, kept[conflictIndex]) {
        kept := kept[conflictIndex := candidate];
      }
    }
    assert evaluated[..|evaluated|] == evaluated;
  }

  // ---------------------------------------------------------------------------------------------------------
  // What is kept
  // ---------------------------------------------------------------------------------------------------------

  /** Findings that conflict with a common one conflict with each other. */
  ghost predicate Transitive(es: seq<Evaluated>) {
    forall a, b, c {:trigger Chained(a, b, c)} :: a in es && b in es && c in es ==> Chained(a, b, c)
  }

  ghost predicate Chained(a: Evaluated, b: Evaluated, c: Evaluated) {
    Conflict(a, b) && Conflict(b, c) ==> Conflict(a, c)
  }

  ghost predicate Apart(kept: seq<Evaluated>) {
    forall i, j :: 0 <= i < j < |kept| ==> !Conflict(kept[i], kept[j])
  }

  /** k speaks for e: it is e, or it conflicts with e. */
  ghost predicate SpeaksFor(k: Evaluated, e: Evaluated) {
    k == e || Conflict(k, e)
  }

  ghost predicate Covered(kept: seq<Evaluated>, e: Evaluated) {
    exists k :: k in kept && SpeaksFor(k, e)
  }

  ghost predicate Unbeaten(kept: seq<Evaluated>, es: seq<Evaluated>) {
    forall k, e :: k in kept && e in es && Conflict(k, e) ==> !WinsOver(e, k)
  }

  /** One finding per class of conflicting ones, and none beaten by another of its class. */
  ghost predicate Representatives(kept: seq<Evaluated>, es: seq<Evaluated>) {
    && (forall k :: k in kept ==> k in es)
    && Apart(kept)
    && (forall e :: e in es ==> Covered(kept, e))
    && Unbeaten(kept, es)
  }

  lemma ConflictIsSymmetric(a: Evaluated, b: Evaluated)
    ensures Conflict(a, b) <==> Conflict(b, a)
  {
  }

  /** No finding so far conflicts with a candidate that none of the kept ones conflicts with. */
  lemma Newcomer(kept: seq<Evaluated>, es: seq<Evaluated>, c: Evaluated, e: Evaluated)
    requires Representatives(kept, es) && Transitive(es + [c]) && e in es
    requires forall k :: k in kept ==> !Conflict(c, k)
    ensures !Conflict(c, e)
  {
    var k :| k in kept && SpeaksFor(k, e);
    assert k in es + [c] && e in es + [c] && c in es + [c];
    ConflictIsSymmetric(k, e);
    assert Chained(c, e, k);
  }

  lemma CoverGrows(kept: seq<Evaluated>, more: seq<Evaluated>, e: Evaluated)
    requires Covered(kept, e) && forall k :: k in kept ==> k in more
    ensures Covered(more, e)
  {
    var k :| k in kept && SpeaksFor(k, e);
    assert k in more;
  }

  lemma ApartGrows(kept: seq<Evaluated>, c: Evaluated)
    requires Apart(kept) && forall k :: k in kept ==> !Conflict(k, c)
    ensures Apart(kept + [c])
  {
  }

  lemma Join(kept: seq<Evaluated>, es: seq<Evaluated>, c: Evaluated)
    requires Representatives(kept, es) && Transitive(es + [c])
    requires forall k :: k in kept ==> !Conflict(c, k)
    ensures Representatives(kept + [c], es + [c])
  {
    forall e | e in es ensures !Conflict(c, e) && !Conflict(e, c) {
      Newcomer(kept, es, c, e);
      ConflictIsSymmetric(c, e);
    }
    ApartGrows(kept, c);
    forall e | e in es + [c] ensures Covered(kept + [c], e) {
      if e in es {
        CoverGrows(kept, kept + [c], e);
      } else {
        assert c in kept + [c] && SpeaksFor(c, e);
      }
    }
    UnbeatenGrows(kept, es, c);
  }

  lemma UnbeatenGrows(kept: seq<Evaluated>, es: seq<Evaluated>, c: Evaluated)
    requires Unbeaten(kept, es) && forall e :: e in es ==> !Conflict(c, e)
    requires forall k :: k in kept ==> !Conflict(k, c)
    ensures Unbeaten(kept + [c], es + [c])
  {
    WinsIsStrict(c, c, c);
    forall k, e | k in kept + [c] && e in es + [c] && Conflict(k, e) ensures !WinsOver(e, k) {
      assert k in kept || k == c;
      assert e in es || e == c;
    }
  }

  lemma Stay(kept: seq<Evaluated>, es: seq<Evaluated>, c: Evaluated, i: nat)
    requires Representatives(kept, es) && Transitive(es + [c]) && i < |kept| && Conflict(c, kept[i]) && !WinsOver(c, kept[i])
    ensures Representatives(kept, es + [c])
  {
    StillCovered(kept, es, c, i);
    forall k | k in kept && Conflict(k, c) ensures k == kept[i] {
      OnlyOne(kept, es, c, i, k);
    }
    StillUnbeaten(kept, es, c, i);
  }

  lemma StillCovered(kept: seq<Evaluated>, es: seq<Evaluated>, c: Evaluated, i: nat)
    requires (forall e :: e in es ==> Covered(kept, e)) && i < |kept| && Conflict(c, kept[i])
    ensures forall e :: e in es + [c] ==> Covered(kept, e)
  {
    assert kept[i] in kept;
    ConflictIsSymmetric(c, kept[i]);
    assert SpeaksFor(kept[i], c);
  }

  lemma StillUnbeaten(kept: seq<Evaluated>, es: seq<Evaluated>, c: Evaluated, i: nat)
    requires Unbeaten(kept, es) && i < |kept| && !WinsOver(c, kept[i])
    requires forall k :: k in kept && Conflict(k, c) ==> k == kept[i]
    ensures Unbeaten(kept, es + [c])
  {
    forall k, e | k in kept && e in es + [c] && Conflict(k, e) ensures !WinsOver(e, k) {
      assert e in es || e == c;
    }
  }

  /** A candidate conflicts with at most one kept finding. */
  lemma OnlyOne(kept: seq<Evaluated>, es: seq<Evaluated>, c: Evaluated, i: nat, k: Evaluated)
    requires Representatives(kept, es) && Transitive(es + [c]) && i < |kept| && Conflict(c, kept[i])
    requires k in kept && Conflict(k, c)
    ensures k == kept[i]
  {
    var j :| 0 <= j < |kept| && kept[j] == k;
    assert kept[i] in kept && kept[i] in es && k in es;
    assert kept[i] in es + [c] && k in es + [c] && c in es + [c];
    assert Chained(k, c, kept[i]);
    ConflictIsSymmetric(k, kept[i]);
  }

  lemma Replace(kept: seq<Evaluated>, es: seq<Evaluated>, c: Evaluated, i: nat)
    requires Representatives(kept, es) && Transitive(es + [c]) && i < |kept| && Conflict(c, kept[i]) && WinsOver(c, kept[i])
    ensures Representatives(kept[i := c], es + [c])
  {
    var new_ := kept[i := c];
    assert kept[i] in kept;
    assert new_[i] == c && c in new_;
    forall e | e in es + [c] ensures Covered(new_, e) {
      if e in es {
        assert Covered(kept, e);
        ReplaceCovers(kept, es, c, i, e);
      } else {
        assert SpeaksFor(c, e);
      }
    }
    ReplaceApart(kept, es, c, i);
    ReplaceUnbeaten(kept, es, c, i);
  }

  lemma ReplaceApart(kept: seq<Evaluated>, es: seq<Evaluated>, c: Evaluated, i: nat)
    requires Transitive(es + [c]) && i < |kept| && Conflict(c, kept[i]) && Apart(kept) && forall k :: k in kept ==> k in es
    ensures Apart(kept[i := c])
    ensures forall j :: 0 <= j < |kept| && j != i ==> !Conflict(kept[j], c)
  {
    var loser := kept[i];
    assert loser in kept && loser in es + [c] && c in es + [c];
    forall j | 0 <= j < |kept| && j != i ensures !Conflict(kept[j], c) && !Conflict(c, kept[j]) {
      assert kept[j] in kept && kept[j] in es + [c];
      assert Chained(kept[j], c, loser);
      ConflictIsSymmetric(kept[j], loser);
      ConflictIsSymmetric(kept[j], c);
    }
  }

  lemma ReplaceCovers(kept: seq<Evaluated>, es: seq<Evaluated>, c: Evaluated, i: nat, e: Evaluated)
    requires Transitive(es + [c]) && i < |kept| && Conflict(c, kept[i]) && kept[i] in es && e in es && Covered(kept, e)
    ensures Covered(kept[i := c], e)
  {
    var new_ := kept[i := c];
    var k :| k in kept && SpeaksFor(k, e);
    var j :| 0 <= j < |kept| && kept[j] == k;
    if j == i {
      TakesOver(es, c, k, e);
      assert new_[i] == c && c in new_;
    } else {
      assert new_[j] == k && k in new_;
    }
  }

  /** The winner speaks for whatever the loser spoke for. */
  lemma TakesOver(es: seq<Evaluated>, c: Evaluated, loser: Evaluated, e: Evaluated)
    requires Transitive(es + [c]) && loser in es && e in es && Conflict(c, loser) && SpeaksFor(loser, e)
    ensures SpeaksFor(c, e)
  {
    assert loser in es + [c] && e in es + [c] && c in es + [c];
    assert Chained(c, loser, e);
  }

  lemma ReplaceUnbeaten(kept: seq<Evaluated>, es: seq<Evaluated>, c: Evaluated, i: nat)
    requires Unbeaten(kept, es) && (forall k :: k in kept ==> k in es)
    requires Transitive(es + [c]) && i < |kept| && Conflict(c, kept[i]) && WinsOver(c, kept[i])
    requires forall j :: 0 <= j < |kept| && j != i ==> !Conflict(kept[j], c)
    ensures Unbeaten(kept[i := c], es + [c])
  {
    var new_ := kept[i := c];
    var loser := kept[i];
    assert loser in kept && loser in es && loser in es + [c] && c in es + [c];
    forall k, e | k in new_ && e in es + [c] && Conflict(k, e) ensures !WinsOver(e, k) {
      var j :| 0 <= j < |new_| && new_[j] == k;
      if j == i {
        WinsIsStrict(c, c, c);
        if e in es && e != loser {
          ConflictIsSymmetric(loser, c);
          assert Chained(loser, c, e);
          WinsIsStrict(e, c, loser);
        } else if e == loser {
          WinsIsStrict(e, c, loser);
          WinsIsStrict(loser, loser, loser);
        }
      } else {
        assert k == kept[j] && k in kept;
      }
    }
  }

  lemma ContestRepresents(kept: seq<Evaluated>, es: seq<Evaluated>, c: Evaluated)
    requires Representatives(kept, es) && Transitive(es + [c])
    ensures Representatives(Contest(kept, c), es + [c])
  {
    var i := FirstConflict(kept, c);
    if i < 0 {
      Join(kept, es, c);
    } else if WinsOver(c, kept[i]) {
      Replace(kept, es, c, i);
    } else {
      Stay(kept, es, c, i);
    }
  }

  lemma TransitivePart(es: seq<Evaluated>, c: Evaluated)
    requires Transitive(es + [c])
    ensures Transitive(es)
  {
    forall x, y, z | x in es && y in es && z in es ensures Chained(x, y, z) {
      assert x in es + [c] && y in es + [c] && z in es + [c];
    }
  }

  /** When conflict is transitive on the findings, exactly one finding of each class is kept, and none is beaten by
      another of its class. */
  lemma {:induction false} ResolvedRepresents(es: seq<Evaluated>)
    requires Transitive(es)
    ensures Representatives(Resolved(es), es)
  {
    if es != [] {
      var n := |es| - 1;
      assert es == es[..n] + [es[n]];
      TransitivePart(es[..n], es[n]);
      ResolvedRepresents(es[..n]);
      ContestRepresents(Resolved(es[..n]), es[..n], es[n]);
    }
  }

  /** One per class: two kept findings that speak for the same non-empty one are the same. */
  lemma OnePerClass(kept: seq<Evaluated>, es: seq<Evaluated>, e: Evaluated, i: nat, j: nat)
    requires Transitive(es) && Representatives(kept, es) && e in es && e.finding.start < e.finding.end
    requires i < j < |kept| && SpeaksFor(kept[i], e)
    ensures !SpeaksFor(kept[j], e)
  {
    var k, l := kept[i], kept[j];
    assert k in kept && l in kept;
    assert !Conflict(k, l);
    assert Chained(k, e, l);
    ConflictIsSymmetric(l, e);
  }

  // ---------------------------------------------------------------------------------------------------------
  // When kept findings do not conflict
  // ---------------------------------------------------------------------------------------------------------

  /** No kept finding but the i-th conflicts with c. */
  ghost predicate Alone(kept: seq<Evaluated>, i: int, c: Evaluated) {
    forall j :: 0 <= j < |kept| && j != i ==> !Conflict(c, kept[j])
  }

  /** The kept findings but the i-th do not conflict. */
  ghost predicate ApartBut(kept: seq<Evaluated>, i: int) {
    forall j, k :: 0 <= j < k < |kept| && j != i && k != i ==> !Conflict(kept[j], kept[k])
  }

  /** The candidate beats the first kept finding it conflicts with, and conflicts with another one too. */
  ghost predicate Bridges(kept: seq<Evaluated>, c: Evaluated) {
    var i := FirstConflict(kept, c);
    i >= 0 && WinsOver(c, kept[i]) && !Alone(kept, i, c)
  }

  lemma ReplacedApart(kept: seq<Evaluated>, i: nat, c: Evaluated)
    requires i < |kept|
    ensures Apart(kept[i := c]) <==> ApartBut(kept, i) && Alone(kept, i, c)
  {
    var next := kept[i := c];
    if Apart(next) {
      forall j | 0 <= j < |kept| && j != i ensures !Conflict(c, kept[j]) {
        assert next[j] == kept[j] && next[i] == c;
        ConflictIsSymmetric(c, kept[j]);
      }
      forall j, k | 0 <= j < k < |kept| && j != i && k != i ensures !Conflict(kept[j], kept[k]) {
        assert next[j] == kept[j] && next[k] == kept[k];
      }
    }
    if ApartBut(kept, i) && Alone(kept, i, c) {
      forall j, k | 0 <= j < k < |next| ensures !Conflict(next[j], next[k]) {
        if k == i {
          ConflictIsSymmetric(c, kept[j]);
        }
      }
    }
  }

  lemma JoinedApart(kept: seq<Evaluated>, c: Evaluated)
    requires Alone(kept, -1, c)
    ensures Apart(kept + [c]) <==> Apart(kept)
  {
    var next := kept + [c];
    if Apart(kept) {
      forall k | k in kept ensures !Conflict(k, c) {
        var j :| 0 <= j < |kept| && kept[j] == k;
        ConflictIsSymmetric(c, k);
      }
      ApartGrows(kept, c);
    }
    if Apart(next) {
      forall j, k | 0 <= j < k < |kept| ensures !Conflict(kept[j], kept[k]) {
        assert next[j] == kept[j] && next[k] == kept[k];
      }
    }
  }

  /** Exactly when one candidate leaves findings that do not conflict, whatever was kept before. */
  lemma ContestApartExact(kept: seq<Evaluated>, c: Evaluated)
    ensures Apart(Contest(kept, c)) <==>
            var i := FirstConflict(kept, c);
            if i >= 0 && WinsOver(c, kept[i]) then ApartBut(kept, i) && Alone(kept, i, c) else Apart(kept)
    ensures Apart(kept) ==> (Apart(Contest(kept, c)) <==> !Bridges(kept, c))
  {
    var i := FirstConflict(kept, c);
    if i < 0 {
      JoinedApart(kept, c);
    } else {
      ReplacedApart(kept, i, c);
    }
  }

  /** No candidate of the run bridges. */
  ghost predicate NeverBridges(es: seq<Evaluated>) {
    forall n {:trigger es[..n]} :: 0 <= n < |es| ==> !Bridges(Resolved(es[..n]), es[n])
  }

  ghost predicate ApartThroughout(es: seq<Evaluated>) {
    forall n {:trigger es[..n]} :: 0 <= n <= |es| ==> Apart(Resolved(es[..n]))
  }

  /** Kept findings never conflict, at any point of the run, if and only if no candidate bridges. Whether they conflict at
      the end is ContestApartExact of the last candidate, and so on back; see MendedBridge. */
  lemma ApartExactly(es: seq<Evaluated>)
    ensures ApartThroughout(es) <==> NeverBridges(es)
    ensures NeverBridges(es) ==> Apart(Resolved(es))
  {
    if ApartThroughout(es) {
      forall n | 0 <= n < |es| ensures !Bridges(Resolved(es[..n]), es[n]) {
        assert Apart(Resolved(es[..n])) && Apart(Resolved(es[..n + 1]));
        ResolvedStep(es, n);
        ContestApartExact(Resolved(es[..n]), es[n]);
      }
    }
    if NeverBridges(es) {
      forall n | 0 <= n <= |es| ensures Apart(Resolved(es[..n])) {
        ApartSoFar(es, n);
      }
      assert es[..|es|] == es;
    }
  }

  lemma ResolvedStep(es: seq<Evaluated>, n: nat)
    requires n < |es|
    ensures Resolved(es[..n + 1]) == Contest(Resolved(es[..n]), es[n])
  {
    assert es[..n + 1][..n] == es[..n];
  }

  lemma {:induction false} ApartSoFar(es: seq<Evaluated>, n: nat)
    requires NeverBridges(es) && n <= |es|
    ensures Apart(Resolved(es[..n]))
  {
    if n > 0 {
      ApartSoFar(es, n - 1);
      ResolvedStep(es, n - 1);
      assert !Bridges(Resolved(es[..n - 1]), es[n - 1]);
      ContestApartExact(Resolved(es[..n - 1]), es[n - 1]);
    }
  }

  /** A transitive conflict is never bridged. */
  lemma TransitiveNeverBridges(es: seq<Evaluated>)
    requires Transitive(es)
    ensures NeverBridges(es)
  {
    forall n | 0 <= n < |es| ensures !Bridges(Resolved(es[..n]), es[n]) {
      var part := es[..n + 1];
      forall x, y, z | x in part && y in part && z in part ensures Chained(x, y, z) {
        assert x in es && y in es && z in es;
      }
      assert part == es[..n] + [es[n]];
      TransitivePart(es[..n], es[n]);
      ResolvedRepresents(es[..n]);
      ResolvedRepresents(part);
      ResolvedStep(es, n);
      ContestApartExact(Resolved(es[..n]), es[n]);
    }
  }

  /** Kept findings of one text, or of one path, that do not conflict do not overlap. */
  lemma KeptAreDisjoint(es: seq<Evaluated>, i: nat, j: nat)
    requires NeverBridges(es) && i < j < |Resolved(es)|
    requires Resolved(es)[i].finding.fieldPath == Resolved(es)[j].finding.fieldPath
    ensures !Overlaps(Resolved(es)[i].finding, Resolved(es)[j].finding)
  {
    ApartExactly(es);
  }

  lemma ContestFrom(kept: seq<Evaluated>, c: Evaluated, k: Evaluated)
    requires k in Contest(kept, c)
    ensures k in kept || k == c
  {
    var i := FirstConflict(kept, c);
    if i >= 0 && WinsOver(c, kept[i]) {
      var j :| 0 <= j < |kept| && kept[i := c][j] == k;
      assert j != i ==> kept[j] == k;
    }
  }

  /** Whatever is kept was given. */
  lemma {:induction false} ResolvedFrom(es: seq<Evaluated>, k: Evaluated)
    requires k in Resolved(es)
    ensures k in es
  {
    var n := |es| - 1;
    ContestFrom(Resolved(es[..n]), es[n], k);
    if k != es[n] {
      ResolvedFrom(es[..n], k);
      assert k in es[..n];
    }
  }

  lemma ContestApart(kept: seq<Evaluated>, c: Evaluated)
    requires Apart(kept + [c])
    ensures Contest(kept, c) == kept + [c] && Apart(kept)
  {
    var all := kept + [c];
    assert all[|kept|] == c;
    forall i, j | 0 <= i < j < |kept| ensures !Conflict(kept[i], kept[j]) {
      assert all[i] == kept[i] && all[j] == kept[j];
    }
    forall j | 0 <= j < |kept| ensures !Conflict(c, kept[j]) {
      assert all[j] == kept[j];
      ConflictIsSymmetric(c, kept[j]);
    }
  }

  /** Findings that do not conflict are all kept, in order. */
  lemma {:induction false} ResolvedKeepsApart(es: seq<Evaluated>)
    requires Apart(es)
    ensures Resolved(es) == es
  {
    if es != [] {
      var n := |es| - 1;
      assert es == es[..n] + [es[n]];
      ContestApart(es[..n], es[n]);
      ResolvedKeepsApart(es[..n]);
    }
  }

  /** Without the condition kept findings overlap: any finding that beats the first of two apart findings and conflicts
      with both displaces only the first. */
  lemma BridgeLeavesAnOverlap(a: Evaluated, b: Evaluated, c: Evaluated)
    requires !Conflict(b, a) && Conflict(c, a) && Conflict(c, b) && WinsOver(c, a)
    ensures Resolved([a, b, c]) == [c, b] && Overlaps(c.finding, b.finding)
    ensures !NeverBridges([a, b, c])
  {
    ResolvedPair(a, b);
    ResolvedSnoc([a, b], c);
    assert [a, b] + [c] == [a, b, c];
    Displaced([a, b], c, 0);
    assert [a, b][0 := c] == [c, b];
    ThirdBridges(a, b, c);
  }

  lemma ThirdBridges(a: Evaluated, b: Evaluated, c: Evaluated)
    requires !Conflict(b, a) && Conflict(c, a) && Conflict(c, b) && WinsOver(c, a)
    ensures !NeverBridges([a, b, c])
  {
    var es := [a, b, c];
    assert es[..2] == [a, b] && es[2] == c;
    ResolvedPair(a, b);
    Displaced([a, b], c, 0);
    AlsoConflicts([a, b], c, 0, 1);
    BridgedAt(es, 2);
  }

  /** A bridge can be mended: a fourth finding that displaces the bridge and is apart from the other one leaves findings
      that do not conflict, although those kept before did. Being apart at the end is therefore less than being apart
      throughout. */
  lemma MendedBridge(a: Evaluated, b: Evaluated, c: Evaluated, d: Evaluated)
    requires !Conflict(b, a) && Conflict(c, a) && Conflict(c, b) && WinsOver(c, a)
    requires Conflict(d, c) && WinsOver(d, c) && !Conflict(d, b)
    ensures Resolved([a, b, c, d]) == [d, b] && Apart(Resolved([a, b, c, d])) && !NeverBridges([a, b, c, d])
  {
    BridgeLeavesAnOverlap(a, b, c);
    ResolvedSnoc([a, b, c], d);
    assert [a, b, c] + [d] == [a, b, c, d];
    Displaced([c, b], d, 0);
    assert [c, b][0 := d] == [d, b];
    StillBridged([a, b, c], d);
  }

  lemma StillBridged(es: seq<Evaluated>, d: Evaluated)
    requires !NeverBridges(es)
    ensures !NeverBridges(es + [d])
  {
    var n :| 0 <= n < |es| && Bridges(Resolved(es[..n]), es[n]);
    assert (es + [d])[..n] == es[..n] && (es + [d])[n] == es[n];
    BridgedAt(es + [d], n);
  }

  lemma ResolvedSnoc(es: seq<Evaluated>, c: Evaluated)
    ensures Resolved(es + [c]) == Contest(Resolved(es), c)
  {
    assert (es + [c])[..|es|] == es;
  }

  /** The candidate beats the first kept finding it conflicts with. */
  lemma Displaced(kept: seq<Evaluated>, c: Evaluated, i: nat)
    requires i < |kept| && Conflict(c, kept[i]) && WinsOver(c, kept[i]) && forall j :: 0 <= j < i ==> !Conflict(c, kept[j])
    ensures FirstConflict(kept, c) == i && Contest(kept, c) == kept[i := c]
  {
    FirstIs(kept, c, i);
  }

  lemma AlsoConflicts(kept: seq<Evaluated>, c: Evaluated, i: nat, j: nat)
    requires FirstConflict(kept, c) == i < j < |kept| && WinsOver(c, kept[i]) && Conflict(c, kept[j])
    ensures Bridges(kept, c)
  {
  }

  lemma FirstIs(kept: seq<Evaluated>, c: Evaluated, i: nat)
    requires i < |kept| && Conflict(c, kept[i]) && forall j :: 0 <= j < i ==> !Conflict(c, kept[j])
    ensures FirstConflict(kept, c) == i
  {
  }

  lemma BridgedAt(es: seq<Evaluated>, n: nat)
    requires n < |es| && Bridges(Resolved(es[..n]), es[n])
    ensures !NeverBridges(es)
  {
  }

  lemma ResolvedPair(a: Evaluated, b: Evaluated)
    requires !Conflict(b, a)
    ensures Resolved([a, b]) == [a, b]
  {
    assert [a, b][..1] == [a] && [a][..0] == [];
    assert Resolved([a]) == [a];
  }

  // ---------------------------------------------------------------------------------------------------------
  // Who wins
  // ---------------------------------------------------------------------------------------------------------

  predicate Spans(f: Finding, x: int) {
    f.start <= x < f.end
  }

  /** Findings conflict exactly when their spans share a position and their paths do not tell them apart. */
  lemma ConflictMeans(a: Evaluated, b: Evaluated)
    requires a.finding.start < a.finding.end && b.finding.start < b.finding.end
    ensures Conflict(a, b) <==>
            && (exists x :: Spans(a.finding, x) && Spans(b.finding, x))
            && (a.finding.fieldPath == b.finding.fieldPath || a.finding.fieldPath == "" || b.finding.fieldPath == "")
  {
    var x := if a.finding.start < b.finding.start then b.finding.start else a.finding.start;
    if Overlaps(a.finding, b.finding) {
      assert Spans(a.finding, x) && Spans(b.finding, x);
    }
  }

  /** The second is stronger: of higher priority; or level in that and more confident; or level in both and longer; or level
      in all three and from the detector whose id comes first. */
  predicate Stronger(a: Evaluated, b: Evaluated) {
    || a.priority < b.priority
    || (a.priority == b.priority && a.finding.confidence < b.finding.confidence)
    || (a.priority == b.priority && a.finding.confidence == b.finding.confidence && |a.finding.text| < |b.finding.text|)
    || (a.priority == b.priority && a.finding.confidence == b.finding.confidence && |a.finding.text| == |b.finding.text|
        && TextLess(b.finding.detectorId, a.finding.detectorId))
  }

  /** Of two findings that conflict one is kept: the later one if it is stronger, and otherwise the earlier one. */
  lemma StrongerIsKept(a: Evaluated, b: Evaluated)
    requires Conflict(b, a)
    ensures Resolved([a, b]) == [if Stronger(a, b) then b else a]
  {
    assert [a, b][..1] == [a] && [a][..0] == [];
    assert Resolved([a]) == [a];
    FirstIs([a], b, 0);
    assert [a][0 := b] == [b];
  }

  /** Where conflict is transitive, nothing that conflicts with a kept finding is stronger, in whatever order they came. */
  lemma KeptIsStrongest(es: seq<Evaluated>, kept: Evaluated, e: Evaluated)
    requires Transitive(es) && kept in Resolved(es) && e in es && Conflict(kept, e)
    ensures !Stronger(kept, e)
  {
    ResolvedRepresents(es);
    assert !WinsOver(e, kept);
  }
}
