/** Sequences with the same elements in any order, and sequences without repetition. */
module Permutations {
  ghost predicate Distinct<T>(s: seq<T>) {
    forall i, j :: 0 <= i < j < |s| ==> s[i] != s[j]
  }

  lemma DistinctSnoc<T>(s: seq<T>, e: T)
    requires Distinct(s) && e !in s
    ensures Distinct(s + [e])
  {
  }

  ghost predicate Permutes<T>(a: seq<T>, b: seq<T>) {
    multiset(a) == multiset(b)
  }

  lemma SameMembers<T>(a: seq<T>, b: seq<T>)
    requires Permutes(a, b)
    ensures |a| == |b| && forall e :: e in a <==> e in b
  {
    assert |multiset(a)| == |a| && |multiset(b)| == |b|;
    forall e ensures e in a <==> e in b {
      assert e in a <==> e in multiset(a);
      assert e in b <==> e in multiset(b);
    }
  }

  /** One element less. */
  lemma Without<T>(s: seq<T>, i: nat)
    requires i < |s|
    ensures multiset(s[..i] + s[i + 1..]) == multiset(s) - multiset{s[i]}
  {
    assert s == s[..i] + [s[i]] + s[i + 1..];
  }

  /** The other elements, so that e can be put first or last. */
  lemma TakeOut<T>(log: seq<T>, e: T) returns (rest: seq<T>)
    requires e in log
    ensures Permutes(log, rest + [e]) && Permutes(log, [e] + rest)
    ensures forall x :: x in rest ==> x in log
    ensures forall x :: x in log && x != e ==> x in rest
  {
    var i :| 0 <= i < |log| && log[i] == e;
    rest := log[..i] + log[i + 1..];
    Without(log, i);
    assert log == log[..i] + [e] + log[i + 1..];
  }

  /** The others again, so that y can follow x at the end. */
  lemma TakeOutTwo<T>(log: seq<T>, x: T, y: T) returns (most: seq<T>, rest: seq<T>)
    requires x in log && y in log && x != y
    ensures Permutes(log, most + [x]) && Permutes(log, rest + [x] + [y])
    ensures forall e :: e in most || e in rest ==> e in log
  {
    most := TakeOut(log, x);
    rest := TakeOut(most, y);
    assert multiset(rest + [x] + [y]) == multiset(rest) + multiset{y} + multiset{x};
  }
}
