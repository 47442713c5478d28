/** The conditions the live package builds for the event table, and what they mean. */
module SqlConditions {
  import opened LiveEvents

  datatype Cond =
    | TypeLike(pattern: string)
    | TypeNotLike(pattern: string)
    | JobIs(value: string)
    | ChainIs(value: string)
    | And(left: Cond, right: Cond)
    | Or(left: Cond, right: Cond)

  /** SQL LIKE: % stands for any text, _ for any one character. */
  predicate Like(text: string, pattern: string) {
    if pattern == "" then text == ""
    else if pattern[0] == '%' then Like(text, pattern[1..]) || (text != "" && Like(text[1..], pattern))
    else text != "" && (pattern[0] == '_' || pattern[0] == text[0]) && Like(text[1..], pattern[1..])
  }

  predicate Holds(c: Cond, e: Event) {
    match c
    case TypeLike(pattern) => Like(e.kind, pattern)
    case TypeNotLike(pattern) => !Like(e.kind, pattern)
    case JobIs(value) => e.subject == value
    case ChainIs(value) => e.chainId == value
    case And(left, right) => Holds(left, e) && Holds(right, e)
    case Or(left, right) => Holds(left, e) || Holds(right, e)
  }

  /** A text LIKE takes literally. */
  predicate Literal(text: string) {
    '%' !in text && '_' !in text && '\\' !in text
  }

  lemma {:induction false} AnythingGoes(text: string)
    ensures Like(text, "%")
  {
    assert "%"[1..] == "";
    if text != "" {
      AnythingGoes(text[1..]);
    }
  }

  /** A literal text followed by % is a prefix test. */
  lemma {:induction false} LikeIsPrefix(text: string, prefix: string)
    requires Literal(prefix)
    ensures Like(text, prefix + "%") <==> prefix <= text
  {
    if prefix == "" {
      assert prefix + "%" == "%";
      AnythingGoes(text);
    } else {
      var pattern := prefix + "%";
      assert pattern[0] == prefix[0] && pattern[1..] == prefix[1..] + "%";
      assert prefix[0] in prefix;
      if text != "" {
        LikeIsPrefix(text[1..], prefix[1..]);
        assert text == [text[0]] + text[1..] && prefix == [prefix[0]] + prefix[1..];
      }
    }
  }

  /** Conditions joined with OR. */
  function AnyOf(parts: seq<Cond>): Cond
    requires parts != []
  {
    if |parts| == 1 then parts[0] else Or(AnyOf(parts[..|parts| - 1]), parts[|parts| - 1])
  }

  lemma {:induction false} AnyOfHolds(parts: seq<Cond>, e: Event)
    requires parts != []
    ensures Holds(AnyOf(parts), e) <==> exists c :: c in parts && Holds(c, e)
  {
    var n := |parts| - 1;
    assert parts == parts[..n] + [parts[n]];
    if n > 0 {
      AnyOfHolds(parts[..n], e);
      var first, last := AnyOf(parts[..n]), parts[n];
      assert AnyOf(parts) == Or(first, last);
      assert Holds(Or(first, last), e) <==> Holds(first, e) || Holds(last, e);
      assert forall c :: c in parts <==> c in parts[..n] || c == last;
    }
  }
}
