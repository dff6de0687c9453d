/** Base64 as auth.py uses it: `base64.b64encode`, which writes the
    encoding of section 4 of RFC 4648 with `=` padding, and
    `base64.b64decode` with its default non-validating decoder, which reads
    the text as ASCII, skips every character outside the alphabet, stops at
    the padding that closes a quantum, and fails when the data characters do
    not make whole bytes. */
module Base64 {
  import opened Wrappers
  import opened Bytes

  const Pad: char := '='

  /** The character for a 6-bit value: `A`-`Z`, `a`-`z`, `0`-`9`, `+`, `/`. */
  function SextetChar(v: int): (c: char)
    requires 0 <= v < 64
    ensures c != Pad && c as int < 128
  {
    if v < 26 then ('A' as int + v) as char
    else if v < 52 then ('a' as int + (v - 26)) as char
    else if v < 62 then ('0' as int + (v - 52)) as char
    else if v == 62 then '+'
    else '/'
  }

  /** The 6-bit value of an alphabet character, `None` for any other. */
  function SextetValue(c: char): (r: Option<int>)
    ensures r.Some? ==> 0 <= r.value < 64 && SextetChar(r.value) == c
    ensures forall v :: 0 <= v < 64 && SextetChar(v) == c ==> r == Some(v)
  {
    if 'A' <= c <= 'Z' then Some(c as int - 'A' as int)
    else if 'a' <= c <= 'z' then Some(c as int - 'a' as int + 26)
    else if '0' <= c <= '9' then Some(c as int - '0' as int + 52)
    else if c == '+' then Some(62)
    else if c == '/' then Some(63)
    else None
  }

  /** The 6-bit groups of three bytes, most significant first. */
  function Sextets(b0: Byte, b1: Byte, b2: Byte): (int, int, int, int) {
    (b0 / 4, (b0 % 4) * 16 + b1 / 16, (b1 % 16) * 4 + b2 / 64, b2 % 64)
  }

  /** Three bytes as four characters. */
  function Quantum(b0: Byte, b1: Byte, b2: Byte): string {
    var (v0, v1, v2, v3) := Sextets(b0, b1, b2);
    [SextetChar(v0), SextetChar(v1), SextetChar(v2), SextetChar(v3)]
  }

  /** A last byte: its eight bits padded with zeros to two characters, then
      `==`. */
  function FinalOne(b0: Byte): string {
    var (v0, v1, _, _) := Sextets(b0, 0, 0);
    [SextetChar(v0), SextetChar(v1), Pad, Pad]
  }

  /** Two last bytes: their sixteen bits padded with zeros to three
      characters, then `=`. */
  function FinalTwo(b0: Byte, b1: Byte): string {
    var (v0, v1, v2, _) := Sextets(b0, b1, 0);
    [SextetChar(v0), SextetChar(v1), SextetChar(v2), Pad]
  }

  /** A character `b64encode` can write. */
  predicate IsEncodingChar(c: char) {
    SextetValue(c).Some? || c == Pad
  }

  /** `base64.b64encode(b)`: four characters per three bytes, the last group
      padded with `=`. */
  function Encode(b: seq<Byte>): (s: string)
    ensures |s| == (|b| + 2) / 3 * 4
    decreases |b|
  {
    if |b| == 0 then ""
    else if |b| == 1 then FinalOne(b[0])
    else if |b| == 2 then FinalTwo(b[0], b[1])
    else
      Quantum(b[0], b[1], b[2]) + Encode(b[3..])
  }

  /** `b64encode` writes only alphabet characters and `=`. */
  lemma {:induction false} EncodeChars(b: seq<Byte>)
    ensures forall i :: 0 <= i < |Encode(b)| ==> IsEncodingChar(Encode(b)[i])
    decreases |b|
  {
    if |b| >= 3 {
      EncodeChars(b[3..]);
      var q, t := Quantum(b[0], b[1], b[2]), Encode(b[3..]);
      assert Encode(b) == q + t;
      forall i | 0 <= i < |q + t| ensures IsEncodingChar((q + t)[i]) {
        if i >= 4 {
          assert (q + t)[i] == t[i - 4];
        }
      }
    }
  }

  /** The decoder's state between characters: the position within the
      current quantum, the bits of the last character not yet written out,
      the `=` characters seen since the last data character, and the bytes
      written so far. */
  datatype Decoder = Decoder(quadPos: nat, leftChar: int, pads: nat, out: seq<Byte>)

  predicate WellFormed(d: Decoder) {
    && d.quadPos < 4 && 0 <= d.leftChar
    && (d.quadPos == 0 ==> d.leftChar == 0)
    && (d.quadPos == 1 ==> d.leftChar < 64)
    && (d.quadPos == 2 ==> d.leftChar < 16)
    && (d.quadPos == 3 ==> d.leftChar < 4)
  }

  const Start: Decoder := Decoder(0, 0, 0, [])

  /** One data character of value `v`: every character after the first of
      a quantum completes a byte. */
  function Feed(d: Decoder, v: int): (d': Decoder)
    requires WellFormed(d) && 0 <= v < 64
    ensures WellFormed(d') && d'.pads == 0
    ensures d'.quadPos == (d.quadPos + 1) % 4
    ensures |d'.out| == if d.quadPos == 0 then |d.out| else |d.out| + 1
  {
    match d.quadPos
    case 0 => Decoder(1, v, 0, d.out)
    case 1 => Decoder(2, v % 16, 0, d.out + [d.leftChar * 4 + v / 16])
    case 2 => Decoder(3, v % 4, 0, d.out + [d.leftChar * 16 + v / 4])
    case 3 => Decoder(0, 0, 0, d.out + [d.leftChar * 64 + v])
  }

  /** Bits of the current quantum read but not yet written out, in units
      that make `4 * |out|` at most three times the characters consumed. */
  function Slack(quadPos: nat): nat
    requires quadPos < 4
  {
    if quadPos == 0 then 0 else 4 - quadPos
  }

  /** The decoding loop over the rest of the text. A `=` ends the input once
      it completes the padding of a quantum holding two or three data
      characters; elsewhere it is ignored. Leftover bits of a closed quantum
      are dropped. At the end of the text, a quantum left open is an error. */
  function Run(s: string, d: Decoder): (r: Option<seq<Byte>>)
    requires WellFormed(d)
    decreases |s|
  {
    if s == [] then
      if d.quadPos == 0 then Some(d.out) else None
    else if s[0] == Pad then
      if d.quadPos >= 2 && d.quadPos + d.pads + 1 >= 4 then Some(d.out)
      else if d.quadPos >= 2 then Run(s[1..], d.(pads := d.pads + 1))
      else Run(s[1..], d)
    else
      match SextetValue(s[0])
      case Some(v) => Run(s[1..], Feed(d, v))
      case None => Run(s[1..], d)
  }

  predicate IsAscii(s: string) {
    forall i :: 0 <= i < |s| ==> s[i] as int < 128
  }

  /** The decoder only appends: what it has written stays a prefix, and it
      writes at most three bytes per four characters it reads. */
  lemma {:induction false} RunBounds(s: string, d: Decoder)
    requires WellFormed(d)
    ensures Run(s, d).Some? ==> d.out <= Run(s, d).value
    ensures Run(s, d).Some? ==> 4 * |Run(s, d).value| <= 4 * |d.out| + Slack(d.quadPos) + 3 * |s|
    decreases |s|
  {
    if s != [] {
      if s[0] == Pad {
        if !(d.quadPos >= 2 && d.quadPos + d.pads + 1 >= 4) {
          RunBounds(s[1..], if d.quadPos >= 2 then d.(pads := d.pads + 1) else d);
        }
      } else {
        match SextetValue(s[0])
        case Some(v) => RunBounds(s[1..], Feed(d, v));
        case None => RunBounds(s[1..], d);
      }
    }
  }

  /** `base64.b64decode(s)`; `None` where Python raises. */
  function Decode(s: string): (r: Option<seq<Byte>>)
    ensures !IsAscii(s) ==> r.None?
    ensures r.Some? ==> 4 * |r.value| <= 3 * |s|
  {
    if IsAscii(s) then RunBounds(s, Start); Run(s, Start) else None
  }

  /** The decoder reads one alphabet character. */
  lemma RunData(v: int, rest: string, d: Decoder)
    requires WellFormed(d) && 0 <= v < 64
    ensures Run([SextetChar(v)] + rest, d) == Run(rest, Feed(d, v))
  {
    assert ([SextetChar(v)] + rest)[1..] == rest;
  }

  /** The decoder reads the closing `=` of a quantum: the pads seen so far
      and this one complete it. */
  lemma RunClosingPad(rest: string, d: Decoder)
    requires WellFormed(d) && d.quadPos >= 2 && d.quadPos + d.pads + 1 >= 4
    ensures Run([Pad] + rest, d) == Some(d.out)
  {
  }

  /** The decoder reads a `=` that does not yet complete the padding. */
  lemma RunOpenPad(rest: string, d: Decoder)
    requires WellFormed(d) && d.quadPos >= 2 && d.quadPos + d.pads + 1 < 4
    ensures Run([Pad] + rest, d) == Run(rest, d.(pads := d.pads + 1))
  {
    assert ([Pad] + rest)[1..] == rest;
  }

  /** `==` closes a quantum holding two data characters. */
  lemma RunDoublePad(d: Decoder)
    requires WellFormed(d) && d.quadPos == 2 && d.pads == 0
    ensures Run([Pad, Pad], d) == Some(d.out)
  {
    RunOpenPad([Pad], d);
    assert [Pad, Pad] == [Pad] + [Pad] && [Pad] == [Pad] + [];
    RunClosingPad([], d.(pads := 1));
  }

  /** Feeding the sextets of three bytes walks the decoder through the
      quantum, writing each byte as soon as its last bits arrive. */
  lemma FeedFirst(b0: Byte, b1: Byte, b2: Byte, out: seq<Byte>)
    ensures Feed(Decoder(0, 0, 0, out), Sextets(b0, b1, b2).0) == Decoder(1, b0 / 4, 0, out)
  {
  }

  lemma FeedSecond(b0: Byte, b1: Byte, b2: Byte, out: seq<Byte>)
    ensures Feed(Decoder(1, b0 / 4, 0, out), Sextets(b0, b1, b2).1) == Decoder(2, b1 / 16, 0, out + [b0])
  {
    var v1 := Sextets(b0, b1, b2).1;
    assert v1 / 16 == b0 % 4 && v1 % 16 == b1 / 16;
  }

  lemma FeedThird(b0: Byte, b1: Byte, b2: Byte, out: seq<Byte>)
    ensures Feed(Decoder(2, b1 / 16, 0, out), Sextets(b0, b1, b2).2) == Decoder(3, b2 / 64, 0, out + [b1])
  {
    var v2 := Sextets(b0, b1, b2).2;
    assert v2 / 4 == b1 % 16 && v2 % 4 == b2 / 64;
  }

  lemma FeedFourth(b0: Byte, b1: Byte, b2: Byte, out: seq<Byte>)
    ensures Feed(Decoder(3, b2 / 64, 0, out), Sextets(b0, b1, b2).3) == Decoder(0, 0, 0, out + [b2])
  {
  }

  /** Reading one full quantum from the start of a quantum writes its three
      bytes and starts the next quantum afresh. */
  lemma RunQuantum(b0: Byte, b1: Byte, b2: Byte, rest: string, out: seq<Byte>)
    ensures Run(Quantum(b0, b1, b2) + rest, Decoder(0, 0, 0, out))
         == Run(rest, Decoder(0, 0, 0, out + [b0, b1, b2]))
  {
    var (v0, v1, v2, v3) := Sextets(b0, b1, b2);
    var s2 := [SextetChar(v2), SextetChar(v3)] + rest;
    assert Quantum(b0, b1, b2) + rest == [SextetChar(v0), SextetChar(v1)] + s2;
    RunFirstPair(b0, b1, b2, s2, out);
    RunSecondPair(b0, b1, b2, rest, out);
  }

  /** The first two characters of a quantum write its first byte. */
  lemma RunFirstPair(b0: Byte, b1: Byte, b2: Byte, s2: string, out: seq<Byte>)
    ensures var (v0, v1, _, _) := Sextets(b0, b1, b2);
      Run([SextetChar(v0), SextetChar(v1)] + s2, Decoder(0, 0, 0, out))
        == Run(s2, Decoder(2, b1 / 16, 0, out + [b0]))
  {
    var (v0, v1, _, _) := Sextets(b0, b1, b2);
    var s1 := [SextetChar(v1)] + s2;
    calc {
      Run([SextetChar(v0), SextetChar(v1)] + s2, Decoder(0, 0, 0, out));
      { assert [SextetChar(v0), SextetChar(v1)] + s2 == [SextetChar(v0)] + s1; }
      Run([SextetChar(v0)] + s1, Decoder(0, 0, 0, out));
      { RunData(v0, s1, Decoder(0, 0, 0, out)); FeedFirst(b0, b1, b2, out); }
      Run(s1, Decoder(1, b0 / 4, 0, out));
      { RunData(v1, s2, Decoder(1, b0 / 4, 0, out)); FeedSecond(b0, b1, b2, out); }
      Run(s2, Decoder(2, b1 / 16, 0, out + [b0]));
    }
  }

  /** The last two characters of a quantum write its other two bytes. */
  lemma RunSecondPair(b0: Byte, b1: Byte, b2: Byte, rest: string, out: seq<Byte>)
    ensures var (_, _, v2, v3) := Sextets(b0, b1, b2);
      Run([SextetChar(v2), SextetChar(v3)] + rest, Decoder(2, b1 / 16, 0, out + [b0]))
        == Run(rest, Decoder(0, 0, 0, out + [b0, b1, b2]))
  {
    var (_, _, v2, v3) := Sextets(b0, b1, b2);
    var s3 := [SextetChar(v3)] + rest;
    calc {
      Run([SextetChar(v2), SextetChar(v3)] + rest, Decoder(2, b1 / 16, 0, out + [b0]));
      { assert [SextetChar(v2), SextetChar(v3)] + rest == [SextetChar(v2)] + s3; }
      Run([SextetChar(v2)] + s3, Decoder(2, b1 / 16, 0, out + [b0]));
      { RunData(v2, s3, Decoder(2, b1 / 16, 0, out + [b0])); FeedThird(b0, b1, b2, out + [b0]); }
      Run(s3, Decoder(3, b2 / 64, 0, out + [b0] + [b1]));
      { RunData(v3, rest, Decoder(3, b2 / 64, 0, out + [b0] + [b1])); FeedFourth(b0, b1, b2, out + [b0] + [b1]); }
      Run(rest, Decoder(0, 0, 0, out + [b0] + [b1] + [b2]));
      { assert out + [b0] + [b1] + [b2] == out + [b0, b1, b2]; }
      Run(rest, Decoder(0, 0, 0, out + [b0, b1, b2]));
    }
  }

  /** The last group of one byte, padded with `==`. */
  lemma RunLastOne(b0: Byte, out: seq<Byte>)
    ensures Run(Encode([b0]), Decoder(0, 0, 0, out)) == Some(out + [b0])
  {
    var (v0, v1, _, _) := Sextets(b0, 0, 0);
    var s1 := [SextetChar(v1)] + [Pad, Pad];
    calc {
      Run(Encode([b0]), Decoder(0, 0, 0, out));
      { assert Encode([b0]) == FinalOne(b0) == [SextetChar(v0)] + s1; }
      Run([SextetChar(v0)] + s1, Decoder(0, 0, 0, out));
      { RunData(v0, s1, Decoder(0, 0, 0, out)); FeedFirst(b0, 0, 0, out); }
      Run(s1, Decoder(1, b0 / 4, 0, out));
      { RunData(v1, [Pad, Pad], Decoder(1, b0 / 4, 0, out)); FeedSecond(b0, 0, 0, out); }
      Run([Pad, Pad], Decoder(2, 0, 0, out + [b0]));
      { RunDoublePad(Decoder(2, 0, 0, out + [b0])); }
      Some(out + [b0]);
    }
  }

  /** The last group of two bytes, padded with `=`. */
  lemma RunLastTwo(b0: Byte, b1: Byte, out: seq<Byte>)
    ensures Run(Encode([b0, b1]), Decoder(0, 0, 0, out)) == Some(out + [b0, b1])
  {
    var (v0, v1, v2, _) := Sextets(b0, b1, 0);
    var s2 := [SextetChar(v2)] + [Pad];
    var s1 := [SextetChar(v1)] + s2;
    calc {
      Run(Encode([b0, b1]), Decoder(0, 0, 0, out));
      { assert Encode([b0, b1]) == FinalTwo(b0, b1) == [SextetChar(v0)] + s1; }
      Run([SextetChar(v0)] + s1, Decoder(0, 0, 0, out));
      { RunData(v0, s1, Decoder(0, 0, 0, out)); FeedFirst(b0, b1, 0, out); }
      Run(s1, Decoder(1, b0 / 4, 0, out));
      { RunData(v1, s2, Decoder(1, b0 / 4, 0, out)); FeedSecond(b0, b1, 0, out); }
      Run(s2, Decoder(2, b1 / 16, 0, out + [b0]));
      { RunData(v2, [Pad], Decoder(2, b1 / 16, 0, out + [b0])); FeedThird(b0, b1, 0, out + [b0]); }
      Run([Pad], Decoder(3, 0, 0, out + [b0] + [b1]));
      { assert [Pad] == [Pad] + []; RunClosingPad([], Decoder(3, 0, 0, out + [b0] + [b1])); }
      Some(out + [b0] + [b1]);
      { assert out + [b0] + [b1] == out + [b0, b1]; }
      Some(out + [b0, b1]);
    }
  }

  /** Decoding what `Encode` wrote, from the start of a quantum, appends the
      encoded bytes. */
  lemma {:induction false} RunEncode(b: seq<Byte>, out: seq<Byte>)
    ensures Run(Encode(b), Decoder(0, 0, 0, out)) == Some(out + b)
    decreases |b|
  {
    if |b| == 0 {
      assert out + b == out;
    } else if |b| < 3 {
      RunLast(b, out);
    } else {
      RunEncode(b[3..], out + [b[0], b[1], b[2]]);
      RunFirstQuantum(b, out);
    }
  }

  /** If the bytes after the first three decode back, so do all of them. */
  lemma RunFirstQuantum(b: seq<Byte>, out: seq<Byte>)
    requires |b| >= 3
    requires Run(Encode(b[3..]), Decoder(0, 0, 0, out + [b[0], b[1], b[2]]))
          == Some(out + [b[0], b[1], b[2]] + b[3..])
    ensures Run(Encode(b), Decoder(0, 0, 0, out)) == Some(out + b)
  {
    EncodeStep(b);
    RunQuantum(b[0], b[1], b[2], Encode(b[3..]), out);
    SplitQuantum(b, out);
  }

  /** The first three bytes, then the rest. */
  lemma SplitQuantum(b: seq<Byte>, out: seq<Byte>)
    requires |b| >= 3
    ensures out + [b[0], b[1], b[2]] + b[3..] == out + b
  {
    assert b == [b[0], b[1], b[2]] + b[3..];
  }

  /** A last group of one or two bytes. */
  lemma RunLast(b: seq<Byte>, out: seq<Byte>)
    requires 1 <= |b| <= 2
    ensures Run(Encode(b), Decoder(0, 0, 0, out)) == Some(out + b)
  {
    if |b| == 1 {
      assert b == [b[0]];
      RunLastOne(b[0], out);
    } else {
      assert b == [b[0], b[1]];
      RunLastTwo(b[0], b[1], out);
    }
  }

  /** Three or more bytes: a full quantum, then the rest. */
  lemma EncodeStep(b: seq<Byte>)
    requires |b| >= 3
    ensures Encode(b) == Quantum(b[0], b[1], b[2]) + Encode(b[3..])
  {
  }

  /** `b64decode(b64encode(b)) == b` */
  lemma DecodeEncode(b: seq<Byte>)
    ensures Decode(Encode(b)) == Some(b)
  {
    var s := Encode(b);
    EncodeChars(b);
    forall i | 0 <= i < |s| ensures s[i] as int < 128 {
      if s[i] != Pad {
        assert SextetChar(SextetValue(s[i]).value) == s[i];
      }
    }
    assert IsAscii(s);
    RunEncode(b, []);
    assert [] + b == b;
  }

  /** Different byte strings have different encodings. */
  lemma EncodeInjective(a: seq<Byte>, b: seq<Byte>)
    requires a != b
    ensures Encode(a) != Encode(b)
  {
    DecodeEncode(a);
    DecodeEncode(b);
  }

  /** The number of alphabet characters in a text. */
  function DataCount(s: string): nat {
    if s == [] then 0
    else (if SextetValue(s[0]).Some? then 1 else 0) + DataCount(s[1..])
  }

  /** A text without padding whose alphabet characters do not close the
      current quantum fails to decode. */
  lemma {:induction false} OpenQuantumRejected(s: string, d: Decoder)
    requires WellFormed(d)
    requires Pad !in s
    requires (d.quadPos + DataCount(s)) % 4 != 0
    ensures Run(s, d).None?
    decreases |s|
  {
    if s != [] {
      assert s[0] != Pad;
      assert Pad !in s[1..] by {
        assert forall i :: 0 <= i < |s[1..]| ==> s[1..][i] == s[i + 1];
      }
      match SextetValue(s[0])
      case Some(v) => OpenQuantumRejected(s[1..], Feed(d, v));
      case None => OpenQuantumRejected(s[1..], d);
    }
  }
}
