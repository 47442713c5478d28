/** The in-place sort behind sort.SliceStable and sort.Slice, for any strict weak order. */
module InsertionSort {
  /** No element precedes an earlier one. */
  ghost predicate Ordered<T>(s: seq<T>, less: (T, T) -> bool) {
    forall i, j :: 0 <= i < j < |s| ==> !less(s[j], s[i])
  }

  ghost predicate StrictWeakOrder<T(!new)>(less: (T, T) -> bool) {
    && (forall a, b :: less(a, b) ==> !less(b, a))
    && (forall a, b, c :: !less(c, b) && !less(b, a) ==> !less(c, a))
  }

  /** Each element is put after the ones it does not precede, so equal ones keep their order. */
  function Inserted<T>(s: seq<T>, e: T, less: (T, T) -> bool): seq<T> {
    if s == [] || !less(e, s[|s| - 1]) then s + [e]
    else Inserted(s[..|s| - 1], e, less) + [s[|s| - 1]]
  }

  function Sorted<T>(s: seq<T>, less: (T, T) -> bool): seq<T> {
    if s == [] then [] else Inserted(Sorted(s[..|s| - 1], less), s[|s| - 1], less)
  }

  lemma {:induction false} InsertedMembers<T>(s: seq<T>, e: T, less: (T, T) -> bool)
    ensures multiset(Inserted(s, e, less)) == multiset(s) + multiset{e}
    ensures forall x :: x in Inserted(s, e, less) <==> x == e || x in s
  {
    if s != [] && less(e, s[|s| - 1]) {
      var n := |s| - 1;
      InsertedMembers(s[..n], e, less);
      assert s == s[..n] + [s[n]];
    }
  }

  lemma OrderedSnoc<T>(s: seq<T>, e: T, less: (T, T) -> bool)
    requires Ordered(s, less) && forall x :: x in s ==> !less(e, x)
    ensures Ordered(s + [e], less)
  {
  }

  lemma {:induction false} InsertedIsOrdered<T(!new)>(s: seq<T>, e: T, less: (T, T) -> bool)
    requires Ordered(s, less) && StrictWeakOrder(less)
    ensures Ordered(Inserted(s, e, less), less)
  {
    if s == [] {
    } else if less(e, s[|s| - 1]) {
      var n := |s| - 1;
      InsertedIsOrdered(s[..n], e, less);
      InsertedMembers(s[..n], e, less);
      OrderedSnoc(Inserted(s[..n], e, less), s[n], less);
    } else {
      forall x | x in s ensures !less(e, x) {
        var i :| 0 <= i < |s| && s[i] == x;
      }
      OrderedSnoc(s, e, less);
    }
  }

  /** Sorting gives the ordered permutation. */
  lemma {:induction false} SortedIsOrdered<T(!new)>(s: seq<T>, less: (T, T) -> bool)
    requires StrictWeakOrder(less)
    ensures Ordered(Sorted(s, less), less) && multiset(Sorted(s, less)) == multiset(s)
    ensures forall x :: x in Sorted(s, less) <==> x in s
  {
    if s != [] {
      var n := |s| - 1;
      SortedIsOrdered(s[..n], less);
      InsertedIsOrdered(Sorted(s[..n], less), s[n], less);
      InsertedMembers(Sorted(s[..n], less), s[n], less);
      assert s == s[..n] + [s[n]];
    }
  }

  lemma SortedPair<T>(a: T, b: T, less: (T, T) -> bool)
    ensures Sorted([a, b], less) == if less(b, a) then [b, a] else [a, b]
  {
    assert [a, b][..1] == [a] && [a][..0] == [];
    assert Sorted<T>([], less) == [];
    assert Inserted<T>([], a, less) == [a];
    assert Sorted([a], less) == [a];
    assert [a][..0] == [] && Inserted<T>([], b, less) == [b];
  }

  method SortInPlace<T>(a: array<T>, less: (T, T) -> bool)
    modifies a
    ensures a[..] == Sorted(old(a[..]), less)
  {
    ghost var was := a[..];
    for i := 0 to a.Length
      invariant a[..i] == Sorted(was[..i], less) && a[i..] == was[i..]
    {
      assert a[i] == a[i..][0] == was[i];
      assert was[..i + 1][..i] == was[..i];
      Sink(a, i, less);
    }
    assert a[..a.Length] == a[..] && was[..a.Length] == was;
  }

  /** One pass: the element at i moves left past every element it precedes. */
  method Sink<T>(a: array<T>, i: nat, less: (T, T) -> bool)
    requires i < a.Length
    modifies a
    ensures a[..i + 1] == Inserted(old(a[..i]), old(a[i]), less) && a[i + 1..] == old(a[i + 1..])
  {
    var j := i;
    ghost var left, e := a[..i], a[i];
    Halfway(left, e, i, less);
    while j > 0 && less(a[j], a[j - 1])
      invariant 0 <= j <= i && a[j] == e
      invariant a[..i + 1] == left[..j] + [e] + left[j..]
      invariant Inserted(left[..j], e, less) + left[j..] == Inserted(left, e, less)
      invariant a[i + 1..] == old(a[i + 1..])
    {
      assert a[j - 1] == a[..i + 1][j - 1] == left[j - 1];
      MovePast(left, e, j, less);
      a[j], a[j - 1] := a[j - 1], a[j];
      j := j - 1;
    }
    assert j > 0 ==> a[..i + 1][j - 1] == left[j - 1];
    Settle(left, e, j, less);
  }

  lemma Halfway<T>(left: seq<T>, e: T, i: nat, less: (T, T) -> bool)
    requires i == |left|
    ensures left[..i] == left && left[i..] == [] && left[..i] + [e] + left[i..] == left + [e]
    ensures Inserted(left[..i], e, less) + left[i..] == Inserted(left, e, less)
  {
    assert left[..i] == left;
  }

  lemma MovePast<T>(left: seq<T>, e: T, j: nat, less: (T, T) -> bool)
    requires 0 < j <= |left| && less(e, left[j - 1])
    ensures Inserted(left[..j], e, less) + left[j..] == Inserted(left[..j - 1], e, less) + left[j - 1..]
    ensures (left[..j] + [e] + left[j..])[j := left[j - 1]][j - 1 := e] == left[..j - 1] + [e] + left[j - 1..]
  {
    assert left[..j][..j - 1] == left[..j - 1];
    assert [left[j - 1]] + left[j..] == left[j - 1..];
  }

  lemma Settle<T>(left: seq<T>, e: T, j: nat, less: (T, T) -> bool)
    requires j <= |left| && (j > 0 ==> !less(e, left[j - 1]))
    ensures Inserted(left[..j], e, less) + left[j..] == left[..j] + [e] + left[j..]
  {
  }
}
