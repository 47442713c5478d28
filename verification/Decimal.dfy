/** Decimal text: Go's %d, and strconv.ParseInt(text, 10, 64). */
module Decimal {
  import opened Options

  const INT64_BOUND := 0x8000_0000_0000_0000

  predicate InInt64(n: int) {
    -INT64_BOUND <= n < INT64_BOUND
  }

  predicate IsDigit(c: char) {
    '0' <= c <= '9'
  }

  predicate AllDigits(s: string) {
    forall i :: 0 <= i < |s| ==> IsDigit(s[i])
  }

  function Digits(n: nat): (s: string)
    ensures |s| > 0 && AllDigits(s)
  {
    if n < 10 then [('0' as int + n) as char] else Digits(n / 10) + [('0' as int + n % 10) as char]
  }

  function Print(n: int): string {
    if n < 0 then "-" + Digits(-n) else Digits(n)
  }

  /** The number a string of digits writes. */
  function Value(s: string): nat
    requires AllDigits(s)
  {
    if s == "" then 0 else 10 * Value(s[..|s| - 1]) + (s[|s| - 1] as int - '0' as int)
  }

  function ParseInt(s: string): (r: Option<int>)
    ensures r.Some? ==> InInt64(r.value)
  {
    if s == "" then None
    else
      var signed := s[0] == '-' || s[0] == '+';
      var digits := if signed then s[1..] else s;
      if digits == "" || !AllDigits(digits) then None
      else
        var n := (if s[0] == '-' then -1 else 1) * Value(digits);
        if InInt64(n) then Some(n) else None
  }

  lemma {:induction false} ValueOfDigits(n: nat)
    ensures Value(Digits(n)) == n
  {
    if n >= 10 {
      ValueOfDigits(n / 10);
      var head, d := Digits(n / 10), ('0' as int + n % 10) as char;
      assert Digits(n) == head + [d];
      assert (head + [d])[..|head|] == head;
      assert n == 10 * (n / 10) + n % 10;
    } else {
      assert Digits(n)[..0] == "";
    }
  }

  /** ParseInt undoes %d on every 64-bit integer. */
  lemma ParsePrint(n: int)
    requires InInt64(n)
    ensures ParseInt(Print(n)) == Some(n)
  {
    var digits := Digits(if n < 0 then -n else n);
    ValueOfDigits(if n < 0 then -n else n);
    if n < 0 {
      assert Print(n)[1..] == digits;
    } else {
      assert IsDigit(digits[0]);
    }
  }

  /** Printed numbers hold nothing but digits and a sign. */
  lemma PrintHasNo(n: int, c: char)
    requires !IsDigit(c) && c != '-'
    ensures c !in Print(n)
  {
    var digits := Digits(if n < 0 then -n else n);
    assert AllDigits(digits);
  }

  /** Numbers are printed in base ten, most significant digit first. */
  lemma PrintTenfold(n: nat, d: nat)
    requires d < 10
    ensures Print(d) == ["0123456789"[d]]
    ensures n > 0 ==> Print(10 * n + d) == Print(n) + ["0123456789"[d]]
  {
    assert "0123456789"[d] == ('0' as int + d) as char;
    assert (10 * n + d) / 10 == n && (10 * n + d) % 10 == d;
  }
}
