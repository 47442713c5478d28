/** UTF-8 (section 3 of RFC 3629): a Go string is the bytes of its characters, and len counts those. */
module Utf8 {
  /** The bytes of a character. */
  function BytesOf(c: char): (bytes: seq<nat>)
    ensures bytes != [] && forall b :: b in bytes ==> b < 256
  {
    var code := c as int;
    if code < 0x80 then [code]
    else if code < 0x800 then [0xC0 + code / 0x40, 0x80 + code % 0x40]
    else if code < 0x1_0000 then [0xE0 + code / 0x1000, 0x80 + code / 0x40 % 0x40, 0x80 + code % 0x40]
    else [0xF0 + code / 0x4_0000, 0x80 + code / 0x1000 % 0x40, 0x80 + code / 0x40 % 0x40, 0x80 + code % 0x40]
  }

  function Encoded(s: string): (bytes: seq<nat>)
    ensures bytes == [] <==> s == ""
    ensures forall b :: b in bytes ==> b < 256
  {
    if s == "" then [] else BytesOf(s[0]) + Encoded(s[1..])
  }

  lemma {:induction false} AsciiIsItself(s: string)
    requires forall c :: c in s ==> c as int < 0x80
    ensures |Encoded(s)| == |s| && forall i :: 0 <= i < |s| ==> Encoded(s)[i] == s[i] as int
  {
    if s != "" {
      assert s[0] in s && forall c :: c in s[1..] ==> c in s;
      AsciiIsItself(s[1..]);
      assert Encoded(s) == [s[0] as int] + Encoded(s[1..]);
    }
  }
}
