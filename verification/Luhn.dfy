/** internal/pii/pii_tools.go, isValidLuhn: the check digit of Annex B of ISO/IEC 7812-1. */
module Luhn {
  import opened Decimal
  import opened Utf8

  /** Which characters Unicode calls letters and digits. */
  datatype Tables = Tables(letter: char -> bool, digit: char -> bool)

  /** The tables are those of ASCII on ASCII characters. */
  ghost predicate AgreesOnAscii(u: Tables) {
    forall c: char :: c as int < 0x80 ==>
      && (u.digit(c) <==> IsDigit(c))
      && (u.letter(c) <==> ('a' <= c <= 'z') || ('A' <= c <= 'Z'))
  }

  function Digit(c: char): nat
    requires IsDigit(c)
  {
    c as int - '0' as int
  }

  /** Separators are ignored. */
  function Strip(u: Tables, text: string): string {
    if text == "" then ""
    else (if u.letter(text[0]) || u.digit(text[0]) then [text[0]] else []) + Strip(u, text[1..])
  }

  /** A byte less '0', which wraps around below zero. */
  function Value(b: nat): nat {
    if b >= '0' as int then b - '0' as int else b + 256 - '0' as int
  }

  function Weighed(d: nat, doubled: bool): nat {
    if !doubled then d else if 2 * d > 9 then 2 * d - 9 else 2 * d
  }

  /** Every second digit, counted from the right, is doubled. */
  predicate Doubled(s: string, i: nat) {
    i < |s| && (|s| - 1 - i) % 2 == 1
  }

  /** The sum of the weighed digits from position i on. */
  function SumFrom(s: string, i: nat): nat
    requires AllDigits(s) && i <= |s|
    decreases |s| - i
  {
    if i == |s| then 0 else Weighed(Digit(s[i]), Doubled(s, i)) + SumFrom(s, i + 1)
  }

  ghost predicate Valid(number: string) {
    number != "" && AllDigits(number) && SumFrom(number, 0) % 10 == 0
  }

  /** The sum the program computes, over bytes and from position i on. */
  function ByteSum(bytes: seq<nat>, i: nat): nat
    requires i <= |bytes|
    decreases |bytes| - i
  {
    if i == |bytes| then 0 else Weighed(Value(bytes[i]), (|bytes| - 1 - i) % 2 == 1) + ByteSum(bytes, i + 1)
  }

  ghost predicate Accepted(u: Tables, number: string) {
    number != "" && (forall c :: c in number ==> u.digit(c)) && ByteSum(Encoded(number), 0) % 10 == 0
  }

  method IsValidLuhn(u: Tables, text: string) returns (ok: bool)
    ensures ok <==> Accepted(u, Strip(u, text))
  {
    var number := Strip(u, text);
    for i := 0 to |number|
      invariant forall j :: 0 <= j < i ==> u.digit(number[j])
    {
      if !u.digit(number[i]) {
        return false;
      }
    }
    var bytes := Encoded(number);
    if |bytes| == 0 {
      return false;
    }
    var sum, shouldDouble := 0, false;
    var i := |bytes|;
    while i > 0
      invariant 0 <= i <= |bytes|
      invariant sum == ByteSum(bytes, i)
      invariant shouldDouble <==> (|bytes| - i) % 2 == 1
    {
      i := i - 1;
      var digit := Value(bytes[i]);
      if shouldDouble {
        digit := digit * 2;
        if digit > 9 {
          digit := digit - 9;
        }
      }
      sum := sum + digit;
      shouldDouble := !shouldDouble;
    }
    return sum % 10 == 0;
  }

  lemma {:induction false} SumsAgree(s: string, bytes: seq<nat>, i: nat)
    requires AllDigits(s) && i <= |s| == |bytes| && forall i :: 0 <= i < |s| ==> bytes[i] == s[i] as int
    ensures ByteSum(bytes, i) == SumFrom(s, i)
    decreases |s| - i
  {
    if i < |s| {
      SumsAgree(s, bytes, i + 1);
      assert Value(bytes[i]) == Digit(s[i]);
    }
  }

  /** On an ASCII text, separators and all, the program decides whether what is left is a valid number. */
  lemma AsciiIsDecided(u: Tables, text: string)
    requires AgreesOnAscii(u) && forall c :: c in text ==> c as int < 0x80
    ensures Accepted(u, Strip(u, text)) <==> Valid(Strip(u, text))
  {
    var number := Strip(u, text);
    StripTakesFrom(u, text);
    assert (forall c :: c in number ==> u.digit(c)) <==> AllDigits(number);
    if AllDigits(number) {
      AsciiIsItself(number);
      SumsAgree(number, Encoded(number), 0);
    }
  }

  lemma {:induction false} StripTakesFrom(u: Tables, text: string)
    ensures forall c :: c in Strip(u, text) ==> c in text
  {
    if text != "" {
      StripTakesFrom(u, text[1..]);
    }
  }

  /** Different digits weigh differently, doubled or not. */
  lemma WeighedIsInjective(a: nat, b: nat, doubled: bool)
    requires a <= 9 && b <= 9 && a != b
    ensures Weighed(a, doubled) <= 9 && Weighed(b, doubled) <= 9 && Weighed(a, doubled) != Weighed(b, doubled)
  {
  }

  lemma {:induction false} SumAfter(s: string, t: string, k: nat, i: nat)
    requires AllDigits(s) && AllDigits(t) && |s| == |t| && k < i <= |s|
    requires forall j :: 0 <= j < |s| && j != k ==> s[j] == t[j]
    ensures SumFrom(s, i) == SumFrom(t, i)
    decreases |s| - i
  {
    if i < |s| {
      SumAfter(s, t, k, i + 1);
    }
  }

  lemma {:induction false} SumDiffers(s: string, t: string, k: nat, i: nat)
    requires AllDigits(s) && AllDigits(t) && |s| == |t| && i <= k < |s|
    requires forall j :: 0 <= j < |s| && j != k ==> s[j] == t[j]
    ensures SumFrom(s, i) - SumFrom(t, i) == Weighed(Digit(s[k]), Doubled(s, k)) - Weighed(Digit(t[k]), Doubled(t, k))
    decreases |s| - i
  {
    if i == k {
      SumAfter(s, t, k, k + 1);
    } else {
      SumDiffers(s, t, k, i + 1);
    }
  }

  /** A multiple of ten shifted by less than ten is one again only if the shift is zero. */
  lemma Shifted(x: int, y: int)
    requires x % 10 == 0 && -10 < x - y < 10
    ensures y % 10 == 0 <==> x == y
  {
  }

  /** Changing one digit of a valid number makes it invalid. */
  lemma OneWrongDigit(s: string, t: string, k: nat)
    requires Valid(s) && |s| == |t| && k < |s| && s[k] != t[k]
    requires forall j :: 0 <= j < |s| && j != k ==> s[j] == t[j]
    ensures !Valid(t)
  {
    if AllDigits(t) {
      SumDiffers(s, t, k, 0);
      WeighedIsInjective(Digit(s[k]), Digit(t[k]), Doubled(s, k));
      Shifted(SumFrom(s, 0), SumFrom(t, 0));
    }
  }

  lemma {:induction false} SumSwapped(s: string, t: string, k: nat, i: nat)
    requires AllDigits(s) && AllDigits(t) && |s| == |t| && i <= k < |s| - 1
    requires s[k] == t[k + 1] && s[k + 1] == t[k]
    requires forall j :: 0 <= j < |s| && j != k && j != k + 1 ==> s[j] == t[j]
    ensures SumFrom(s, i) - SumFrom(t, i) ==
            Weighed(Digit(s[k]), Doubled(s, k)) + Weighed(Digit(s[k + 1]), Doubled(s, k + 1))
            - Weighed(Digit(t[k]), Doubled(s, k)) - Weighed(Digit(t[k + 1]), Doubled(s, k + 1))
    decreases |s| - i
  {
    if i == k {
      SwapHere(s, t, k);
    } else {
      SumSwapped(s, t, k, i + 1);
    }
  }

  lemma SwapHere(s: string, t: string, k: nat)
    requires AllDigits(s) && AllDigits(t) && |s| == |t| && k < |s| - 1
    requires forall j :: k + 2 <= j < |s| ==> s[j] == t[j]
    ensures SumFrom(s, k) - SumFrom(t, k) ==
            Weighed(Digit(s[k]), Doubled(s, k)) + Weighed(Digit(s[k + 1]), Doubled(s, k + 1))
            - Weighed(Digit(t[k]), Doubled(s, k)) - Weighed(Digit(t[k + 1]), Doubled(s, k + 1))
  {
    SumBeyond(s, t, k + 2);
  }

  lemma {:induction false} SumBeyond(s: string, t: string, i: nat)
    requires AllDigits(s) && AllDigits(t) && |s| == |t| && i <= |s| && s[i..] == t[i..]
    ensures SumFrom(s, i) == SumFrom(t, i)
    decreases |s| - i
  {
    if i < |s| {
      assert s[i] == s[i..][0] == t[i..][0] == t[i];
      assert s[i + 1..] == s[i..][1..] == t[i..][1..] == t[i + 1..];
      SumBeyond(s, t, i + 1);
    }
  }

  /** Swapping two neighbouring digits of a valid number is detected exactly when they differ and are not 0 and 9. */
  lemma NeighboursSwapped(s: string, t: string, k: nat)
    requires Valid(s) && |s| == |t| && k < |s| - 1 && s[k] == t[k + 1] && s[k + 1] == t[k]
    requires forall j :: 0 <= j < |s| && j != k && j != k + 1 ==> s[j] == t[j]
    ensures !Valid(t) <==> s[k] != s[k + 1] && {s[k], s[k + 1]} != {'0', '9'}
  {
    forall j | 0 <= j < |t| ensures IsDigit(t[j]) {
      if j == k {
        assert IsDigit(s[k + 1]);
      } else if j == k + 1 {
        assert IsDigit(s[k]);
      } else {
        assert IsDigit(s[j]);
      }
    }
    SumSwapped(s, t, k, 0);
    SwapWeight(Digit(s[k]), Digit(s[k + 1]), Doubled(s, k));
    Alternates(s, k);
    Shifted(SumFrom(s, 0), SumFrom(t, 0));
    SameChars(s[k], s[k + 1]);
  }

  lemma Alternates(s: string, k: nat)
    requires k < |s| - 1
    ensures Doubled(s, k) <==> !Doubled(s, k + 1)
  {
  }

  lemma SwapWeight(a: nat, b: nat, doubled: bool)
    requires a <= 9 && b <= 9
    ensures var d := Weighed(a, doubled) + Weighed(b, !doubled) - Weighed(b, doubled) - Weighed(a, !doubled);
            -10 < d < 10 && (d == 0 <==> a == b || (a == 0 && b == 9) || (a == 9 && b == 0))
  {
  }

  lemma SameChars(a: char, b: char)
    requires IsDigit(a) && IsDigit(b)
    ensures {a, b} == {'0', '9'} <==> (Digit(a) == 0 && Digit(b) == 9) || (Digit(a) == 9 && Digit(b) == 0)
  {
    if {a, b} == {'0', '9'} {
      assert a in {'0', '9'} && b in {'0', '9'} && '0' in {a, b} && '9' in {a, b};
    }
  }

  /** The last digit is not doubled, the one before it is. */
  lemma DoublingStartsBeforeTheLast()
    ensures Valid("18") && !Valid("81")
  {
    assert SumFrom("18", 2) == 0 && SumFrom("81", 2) == 0;
    assert SumFrom("18", 1) == 8 && SumFrom("81", 1) == 1;
  }

  /** Every text of digits is completed to a valid number by exactly one check digit. */
  lemma OneCheckDigit(s: string) returns (d: char)
    requires AllDigits(s)
    ensures IsDigit(d) && Valid(s + [d])
    ensures forall c :: IsDigit(c) && Valid(s + [c]) ==> c == d
  {
    var zero := s + ['0'];
    var r := (10 - SumFrom(zero, 0) % 10) % 10;
    d := ('0' as int + r) as char;
    var number := s + [d];
    SumDiffers(number, zero, |s|, 0);
    assert SumFrom(number, 0) == SumFrom(zero, 0) + r;
    forall c | IsDigit(c) && Valid(s + [c]) ensures c == d {
      if c != d {
        OneWrongDigit(s + [c], number, |s|);
      }
    }
  }

  /** Of an ASCII text, stripping leaves the letters and digits, in order. */
  lemma {:induction false} StripKeeps(u: Tables, head: string, c: char, tail: string)
    requires AgreesOnAscii(u) && c as int < 0x80
    ensures Strip(u, head + [c] + tail) ==
            Strip(u, head) + (if 'a' <= c <= 'z' || 'A' <= c <= 'Z' || '0' <= c <= '9' then [c] else []) + Strip(u, tail)
    decreases head
  {
    var text := head + [c] + tail;
    if head == "" {
      assert text[0] == c && text[1..] == tail;
    } else {
      assert text[0] == head[0] && text[1..] == head[1..] + [c] + tail;
      StripKeeps(u, head[1..], c, tail);
    }
  }
}
