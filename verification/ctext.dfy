/**
  The bytes a C program sees for a piece of source text. Literal text
  reaches both generators as the UTF-8 bytes of the source file, so a
  character outside ASCII takes two to four `char`s there, and `strlen`
  counts bytes, not characters.
*/
module CText {

  /** One byte, as an `unsigned char` holds it. */
  type Byte = b: int | 0 <= b < 256

  /** The byte of the double quote that delimits a literal. */
  const QUOTE: Byte := '"' as int

  /** The value of a plain `char` holding `b` on a target where `char` is signed (two's complement). */
  function SignedChar(b: Byte): (v: int)
    ensures -128 <= v < 128 && v % 256 == b
    ensures b < 0x80 <==> v >= 0
  {
    if b < 0x80 then b else b - 256
  }

  // ----- UTF-8 -----

  /** How many bytes a UTF-8 sequence takes, read off its lead byte. */
  function Width(lead: Byte): nat {
    if lead < 0x80 then 1 else if lead < 0xE0 then 2 else if lead < 0xF0 then 3 else 4
  }

  /** The code point a one- to four-byte UTF-8 sequence stands for. */
  function DecodeChar(r: seq<Byte>): int {
    if |r| == 0 then -1
    else if |r| == 1 then r[0]
    else if |r| == 2 then (r[0] as int - 0xC0) * 64 + (r[1] as int - 0x80)
    else if |r| == 3 then ((r[0] as int - 0xE0) * 64 + (r[1] as int - 0x80)) * 64 + (r[2] as int - 0x80)
    else (((r[0] as int - 0xF0) * 64 + (r[1] as int - 0x80)) * 64 + (r[2] as int - 0x80)) * 64 + (r[3] as int - 0x80)
  }

  /**
    The UTF-8 encoding of one character: ASCII stays one byte; otherwise a
    lead byte announcing the width is followed by continuation bytes
    carrying six bits each.
  */
  function EncodeChar(c: char): (r: seq<Byte>)
    ensures 1 <= |r| <= 4 && |r| == Width(r[0])
    ensures |r| == 1 <==> c as int < 0x80
    ensures |r| == 1 ==> r[0] == c as int
    ensures |r| > 1 ==> r[0] >= 0xC0
    ensures forall i :: 1 <= i < |r| ==> 0x80 <= r[i] < 0xC0
    ensures DecodeChar(r) == c as int
  {
    var n := c as int;
    if n < 0x80 then [n]
    else if n < 0x800 then [0xC0 + n / 64, 0x80 + n % 64]
    else if n < 0x10000 then [0xE0 + n / 64 / 64, 0x80 + n / 64 % 64, 0x80 + n % 64]
    else [0xF0 + n / 64 / 64 / 64, 0x80 + n / 64 / 64 % 64, 0x80 + n / 64 % 64, 0x80 + n % 64]
  }

  /** The bytes of a text, character by character. */
  function Utf8(s: string): (r: seq<Byte>)
    ensures |r| >= |s|
  {
    if |s| == 0 then [] else EncodeChar(s[0]) + Utf8(s[1..])
  }

  /** The code points of a text. */
  function Codes(s: string): (r: seq<int>)
    ensures |r| == |s|
  {
    if |s| == 0 then [] else [s[0] as int] + Codes(s[1..])
  }

  /** Reads a byte sequence back as code points; a truncated last sequence decodes as a whole. */
  function Decode(bs: seq<Byte>): seq<int>
    decreases |bs|
  {
    if |bs| == 0 then []
    else if Width(bs[0]) > |bs| then [DecodeChar(bs)]
    else [DecodeChar(bs[..Width(bs[0])])] + Decode(bs[Width(bs[0])..])
  }

  /** The encoding loses nothing: decoding the bytes gives back every character. */
  lemma {:induction false} DecodeUtf8(s: string)
    ensures Decode(Utf8(s)) == Codes(s)
  {
    if |s| > 0 {
      var head := EncodeChar(s[0]);
      var bs := Utf8(s);
      assert bs == head + Utf8(s[1..]);
      assert bs[0] == head[0];
      assert bs[..|head|] == head;
      assert bs[|head|..] == Utf8(s[1..]);
      DecodeUtf8(s[1..]);
    }
  }

  /** A text takes one byte per character exactly when it is ASCII, and then the bytes are the codes. */
  lemma {:induction false} AsciiBytes(s: string)
    ensures |Utf8(s)| == |s| <==> forall i :: 0 <= i < |s| ==> s[i] as int < 0x80
    ensures (forall i :: 0 <= i < |s| ==> s[i] as int < 0x80) ==> Utf8(s) == Codes(s)
  {
    if |s| > 0 {
      AsciiBytes(s[1..]);
      assert forall i :: 1 <= i < |s| ==> s[i] == s[1..][i - 1];
    }
  }

  /**
    The byte 0 occurs only as the encoding of NUL and the quote byte only as
    the encoding of `"`, so a C loop that stops at either byte stops at the
    same character.
  */
  lemma {:induction false} ControlBytesAreCharacters(s: string)
    ensures 0 in Utf8(s) <==> '\0' in s
    ensures QUOTE in Utf8(s) <==> '"' in s
  {
    if |s| > 0 {
      ControlBytesAreCharacters(s[1..]);
      var head := EncodeChar(s[0]);
      assert Utf8(s) == head + Utf8(s[1..]);
      assert 0 in head <==> s[0] == '\0';
      assert QUOTE in head <==> s[0] == '"';
      assert s == [s[0]] + s[1..];
    }
  }

  // ----- C strings -----

  /** The C string a `char *` denotes: every byte before the first NUL; `strlen` is its length. */
  function CStr(bs: seq<Byte>): (r: seq<Byte>)
    ensures r <= bs
    ensures forall i :: 0 <= i < |r| ==> r[i] != 0
    ensures |r| < |bs| ==> bs[|r|] == 0
  {
    if |bs| == 0 || bs[0] == 0 then [] else [bs[0]] + CStr(bs[1..])
  }

  /** The literal `"é"` as C holds it: four bytes, the accented letter taking two. */
  lemma QuotedEAcute()
    ensures Utf8("\"\U{e9}\"") == [QUOTE, 0xC3, 0xA9, QUOTE]
    ensures CStr(Utf8("\"\U{e9}\"")) == [QUOTE, 0xC3, 0xA9, QUOTE]
  {
    var s := "\"\U{e9}\"";
    assert EncodeChar(s[1]) == [0xC3, 0xA9];
    assert Utf8(s[2..]) == [QUOTE] by {
      assert s[2..][1..] == [];
    }
    assert s[1..][1..] == s[2..];
    var bs: seq<Byte> := [QUOTE, 0xC3, 0xA9, QUOTE];
    assert CStr(bs[3..]) == bs[3..] by { assert bs[3..][1..] == []; }
    assert bs[2..][1..] == bs[3..] && bs[1..][1..] == bs[2..];
  }
}
