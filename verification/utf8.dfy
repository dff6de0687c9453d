/** `str.encode('utf-8')`. A Dafny `char` is a Unicode scalar value, so,
    as for every Python string without lone surrogates, encoding cannot
    fail. */
module Utf8 {
  import opened Bytes

  /** The one to four bytes of a code point. */
  function EncodeChar(c: char): (r: seq<Byte>)
    ensures 1 <= |r| <= 4
    ensures |r| == LengthFromLead(r[0])
  {
    var cp := c as int;
    if cp < 0x80 then [cp]
    else if cp < 0x800 then [0xC0 + cp / 0x40, 0x80 + cp % 0x40]
    else if cp < 0x1_0000 then [0xE0 + cp / 0x1000, 0x80 + (cp / 0x40) % 0x40, 0x80 + cp % 0x40]
    else [0xF0 + cp / 0x4_0000, 0x80 + (cp / 0x1000) % 0x40, 0x80 + (cp / 0x40) % 0x40, 0x80 + cp % 0x40]
  }

  /** The length of an encoded character, read off its first byte. */
  function LengthFromLead(lead: Byte): nat {
    if lead < 0x80 then 1
    else if lead < 0xE0 then 2
    else if lead < 0xF0 then 3
    else 4
  }

  /** The code point an encoded character stands for. */
  function CodePoint(r: seq<Byte>): int
    requires 1 <= |r| <= 4
  {
    var b := seq(|r|, i requires 0 <= i < |r| => r[i] as int);
    if |r| == 1 then b[0]
    else if |r| == 2 then (b[0] - 0xC0) * 0x40 + (b[1] - 0x80)
    else if |r| == 3 then (b[0] - 0xE0) * 0x1000 + (b[1] - 0x80) * 0x40 + (b[2] - 0x80)
    else (b[0] - 0xF0) * 0x4_0000 + (b[1] - 0x80) * 0x1000 + (b[2] - 0x80) * 0x40 + (b[3] - 0x80)
  }

  lemma CodePointOfEncodeChar(c: char)
    ensures CodePoint(EncodeChar(c)) == c as int
  {
    var cp := c as int;
    if cp >= 0x1_0000 {
      assert cp == (cp / 0x4_0000) * 0x4_0000 + ((cp / 0x1000) % 0x40) * 0x1000 + ((cp / 0x40) % 0x40) * 0x40 + cp % 0x40;
    } else if cp >= 0x800 {
      assert cp == (cp / 0x1000) * 0x1000 + ((cp / 0x40) % 0x40) * 0x40 + cp % 0x40;
    }
  }

  /** `s.encode('utf-8')` */
  function Encode(s: string): (r: seq<Byte>)
    ensures |s| <= |r| <= 4 * |s|
  {
    if s == [] then [] else EncodeChar(s[0]) + Encode(s[1..])
  }

  /** Different strings have different encodings. */
  lemma {:induction false} EncodeInjective(a: string, b: string)
    requires Encode(a) == Encode(b)
    ensures a == b
  {
    if a != [] && b != [] {
      var ea, eb := EncodeChar(a[0]), EncodeChar(b[0]);
      var e := Encode(a);
      assert e == ea + Encode(a[1..]) && e == eb + Encode(b[1..]);
      assert ea[0] == e[0] == eb[0];
      assert |ea| == |eb|;
      assert ea == e[..|ea|] == eb;
      CodePointOfEncodeChar(a[0]);
      CodePointOfEncodeChar(b[0]);
      assert a[0] == b[0];
      assert Encode(a[1..]) == e[|ea|..] == Encode(b[1..]);
      EncodeInjective(a[1..], b[1..]);
      assert a == [a[0]] + a[1..];
      assert b == [b[0]] + b[1..];
    }
  }
}
