/**
 * `encodeURIComponent` and `decodeURIComponent`, over code points. A JavaScript string is the sequence of
 * its code points; a surrogate in such a sequence is one that has no partner.
 */
module UriText {
  import opened Prelude

  type Point = p: int | 0 <= p <= 0x10FFFF
  type Byte = b: int | 0 <= b <= 0xFF
  type Text = seq<Point>

  const PERCENT: Point := 0x25
  const UPPER_A: Point := 0x41

  predicate Surrogate(p: Point) { 0xD800 <= p <= 0xDFFF }

  /** Letters, digits and `- _ . ! ~ * ' ( )`. */
  predicate Unreserved(p: Point) {
    || 0x30 <= p <= 0x39 || 0x41 <= p <= 0x5A || 0x61 <= p <= 0x7A
    || p == 0x2D || p == 0x5F || p == 0x2E || p == 0x21 || p == 0x7E || p == 0x2A || p == 0x27 || p == 0x28 || p == 0x29
  }

  // ---------------------------------------------------------------- UTF-8

  function Utf8(p: Point): (bytes: seq<Byte>) {
    if p < 0x80 then [p]
    else if p < 0x800 then [0xC0 + p / 64, 0x80 + p % 64]
    else
      var q := p / 64;
      if p < 0x10000 then [0xE0 + q / 64, 0x80 + q % 64, 0x80 + p % 64]
      else
        var r := q / 64;
        [0xF0 + r / 64, 0x80 + r % 64, 0x80 + q % 64, 0x80 + p % 64]
  }

  predicate Continuation(b: Byte) { 0x80 <= b <= 0xBF }

  /** The number of bytes a leading byte announces; 0 for a byte that cannot lead. */
  function Announced(b: Byte): nat {
    if b < 0x80 then 1
    else if 0xC0 <= b <= 0xDF then 2
    else if 0xE0 <= b <= 0xEF then 3
    else if 0xF0 <= b <= 0xF7 then 4
    else 0
  }

  /** The code point of exactly one UTF-8 encoding; overlong forms, surrogates and points past the end are none. */
  function FromUtf8(bytes: seq<Byte>): Option<Point> {
    if |bytes| == 0 || Announced(bytes[0]) != |bytes| || exists i | 1 <= i < |bytes| :: !Continuation(bytes[i]) then None
    else if |bytes| == 1 then Some(bytes[0])
    else if |bytes| == 2 then
      var p := Low(0xC0, bytes[0]) * 64 + Low(0x80, bytes[1]);
      if p < 0x80 then None else Some(p)
    else if |bytes| == 3 then
      var p := (Low(0xE0, bytes[0]) * 64 + Low(0x80, bytes[1])) * 64 + Low(0x80, bytes[2]);
      if p < 0x800 || Surrogate(p) then None else Some(p)
    else
      var p := ((Low(0xF0, bytes[0]) * 64 + Low(0x80, bytes[1])) * 64 + Low(0x80, bytes[2])) * 64 + Low(0x80, bytes[3]);
      if p < 0x10000 || p > 0x10FFFF then None else Some(p)
  }

  /** The bits of a byte below its marker. */
  function Low(marker: int, b: Byte): nat
    requires marker <= b
  {
    b - marker
  }

  lemma Utf8RoundTrip(p: Point)
    requires !Surrogate(p)
    ensures FromUtf8(Utf8(p)) == Some(p) && |Utf8(p)| == Announced(Utf8(p)[0])
  {
  }

  /** Bytes are read as a code point exactly when they are its UTF-8 encoding, and no surrogate has one. */
  lemma ReadsExactlyUtf8(bytes: seq<Byte>, p: Point)
    ensures FromUtf8(bytes) == Some(p) <==> bytes == Utf8(p) && !(0xD800 <= p <= 0xDFFF)
  {
    if FromUtf8(bytes) == Some(p) {
      assert |bytes| == Announced(bytes[0]);
      if |bytes| == 2 {
        TwoBytes(bytes);
      } else if |bytes| == 3 {
        ThreeBytes(bytes);
      } else if |bytes| == 4 {
        FourBytes(bytes);
      }
    } else if bytes == Utf8(p) && !Surrogate(p) {
      Utf8RoundTrip(p);
    }
  }

  lemma TwoBytes(bytes: seq<Byte>)
    requires |bytes| == 2 && FromUtf8(bytes).Some?
    ensures Utf8(FromUtf8(bytes).value) == bytes && !Surrogate(FromUtf8(bytes).value)
  {
  }

  lemma ThreeBytes(bytes: seq<Byte>)
    requires |bytes| == 3 && FromUtf8(bytes).Some?
    ensures Utf8(FromUtf8(bytes).value) == bytes && !Surrogate(FromUtf8(bytes).value)
  {
  }

  lemma FourBytes(bytes: seq<Byte>)
    requires |bytes| == 4 && FromUtf8(bytes).Some?
    ensures Utf8(FromUtf8(bytes).value) == bytes && !Surrogate(FromUtf8(bytes).value)
  {
  }

  // ---------------------------------------------------------------- percent encoding

  function Escape(b: Byte): (t: Text)
    ensures |t| == 3
  {
    [PERCENT, HexDigit(b / 16, UPPER_A), HexDigit(b % 16, UPPER_A)]
  }

  function EscapeAll(bytes: seq<Byte>): (t: Text)
    ensures |t| == 3 * |bytes|
  {
    if bytes == [] then [] else Escape(bytes[0]) + EscapeAll(bytes[1..])
  }

  function EncodePoint(p: Point): Text {
    if Unreserved(p) then [p] else EscapeAll(Utf8(p))
  }

  /** Fails on a surrogate without a partner. */
  function Encode(s: Text): Option<Text> {
    if s == [] then Some([])
    else if Surrogate(s[0]) || Encode(s[1..]).None? then None
    else Some(EncodePoint(s[0]) + Encode(s[1..]).value)
  }

  function ReadByte(t: Text): Option<Byte> {
    if |t| < 3 || t[0] != PERCENT || HexValue(t[1]).None? || HexValue(t[2]).None? then None
    else Some(HexValue(t[1]).value * 16 + HexValue(t[2]).value)
  }

  function ReadBytes(t: Text, count: nat): Option<seq<Byte>> {
    if count == 0 then Some([])
    else if ReadByte(t).None? || ReadBytes(t[3..], count - 1).None? then None
    else Some([ReadByte(t).value] + ReadBytes(t[3..], count - 1).value)
  }

  /** The code point whose escapes begin the text, and how many points the escapes take. */
  function ReadPoint(t: Text): (r: Option<(Point, nat)>)
    ensures r.Some? ==> 3 <= r.value.1 <= |t|
  {
    if ReadByte(t).None? then None
    else
      var count := Announced(ReadByte(t).value);
      var bytes := ReadBytes(t, count);
      if count == 0 || bytes.None? || FromUtf8(bytes.value).None? then None
      else
        ReadBytesFit(t, count);
        Some((FromUtf8(bytes.value).value, 3 * count))
  }

  lemma {:induction false} ReadBytesFit(t: Text, count: nat)
    ensures ReadBytes(t, count).Some? ==> 3 * count <= |t|
  {
    if count > 0 && ReadByte(t).Some? { ReadBytesFit(t[3..], count - 1); }
  }

  /** Fails on a malformed escape. */
  function Decode(t: Text): Option<Text>
    decreases |t|
  {
    if t == [] then Some([])
    else if t[0] != PERCENT then Before([t[0]], Decode(t[1..]))
    else
      var read := ReadPoint(t);
      if read.None? then None else Before([read.value.0], Decode(t[read.value.1..]))
  }

  function Before(s: Text, rest: Option<Text>): Option<Text> {
    if rest.None? then None else Some(s + rest.value)
  }

  // ---------------------------------------------------------------- decoding undoes encoding

  lemma ReadEscape(b: Byte, rest: Text)
    ensures ReadByte(Escape(b) + rest) == Some(b)
  {
    HexRoundTrip(b / 16, UPPER_A);
    HexRoundTrip(b % 16, UPPER_A);
  }

  lemma {:induction false} ReadEscapes(bytes: seq<Byte>, rest: Text)
    ensures ReadBytes(EscapeAll(bytes) + rest, |bytes|) == Some(bytes)
  {
    if bytes != [] {
      var tail := EscapeAll(bytes[1..]) + rest;
      ReadEscapes(bytes[1..], rest);
      ReadEscape(bytes[0], tail);
      assert EscapeAll(bytes) + rest == Escape(bytes[0]) + tail;
      assert (Escape(bytes[0]) + tail)[3..] == tail;
      assert bytes == [bytes[0]] + bytes[1..];
    }
  }

  lemma ReadEncodedPoint(p: Point, rest: Text)
    requires !Surrogate(p) && !Unreserved(p)
    ensures ReadPoint(EncodePoint(p) + rest) == Some((p, |EncodePoint(p)|))
  {
    var bytes := Utf8(p);
    Utf8RoundTrip(p);
    ReadEscapes(bytes, rest);
    assert EncodePoint(p) + rest == Escape(bytes[0]) + (EscapeAll(bytes[1..]) + rest);
    ReadEscape(bytes[0], EscapeAll(bytes[1..]) + rest);
  }

  lemma DecodeEncodedPoint(p: Point, rest: Text)
    requires !Surrogate(p)
    ensures Decode(EncodePoint(p) + rest) == Before([p], Decode(rest))
  {
    var t := EncodePoint(p) + rest;
    if Unreserved(p) {
      assert t[1..] == rest;
    } else {
      ReadEncodedPoint(p, rest);
      assert t[|EncodePoint(p)|..] == rest;
      assert t[0] == PERCENT;
    }
  }

  lemma BeforeTwice(a: Text, b: Text, rest: Option<Text>)
    ensures Before(a, Before(b, rest)) == Before(a + b, rest)
  {
    if rest.Some? { assert a + (b + rest.value) == a + b + rest.value; }
  }

  lemma DecodeFirst(p: Point, s: Text, t: Text, rest: Text)
    requires !Surrogate(p) && Decode(t + rest) == Before(s, Decode(rest))
    ensures Decode(EncodePoint(p) + t + rest) == Before([p] + s, Decode(rest))
  {
    assert EncodePoint(p) + t + rest == EncodePoint(p) + (t + rest);
    DecodeEncodedPoint(p, t + rest);
    BeforeTwice([p], s, Decode(rest));
  }

  /** Decoding undoes encoding; what follows the encoded text is decoded on its own. */
  lemma {:induction false} DecodeEncode(s: Text, rest: Text)
    requires Encode(s).Some?
    ensures Decode(Encode(s).value + rest) == Before(s, Decode(rest))
  {
    if s == [] {
      assert Encode(s).value + rest == rest;
      BeforeNothing(Decode(rest));
    } else {
      DecodeEncode(s[1..], rest);
      DecodeFirst(s[0], s[1..], Encode(s[1..]).value, rest);
      assert [s[0]] + s[1..] == s;
    }
  }

  lemma BeforeNothing(rest: Option<Text>)
    ensures Before([], rest) == rest
  {
    if rest.Some? { assert [] + rest.value == rest.value; }
  }

  /** A code point is written as itself, or as a percent sign and two upper-case digits for each byte of its UTF-8. */
  lemma EncodesPointwise(p: Point, rest: Text)
    requires Encode(rest).Some? && !(0xD800 <= p <= 0xDFFF)
    ensures Encode([p] + rest) == Some(EncodePoint(p) + Encode(rest).value)
    ensures EncodePoint(p) == [p] <==>
      || 'A' as int <= p <= 'Z' as int || 'a' as int <= p <= 'z' as int || '0' as int <= p <= '9' as int
      || p == '-' as int || p == '_' as int || p == '.' as int || p == '!' as int || p == '~' as int || p == '*' as int
      || p == '\'' as int || p == '(' as int || p == ')' as int
    ensures EncodePoint(p) != [p] ==> EncodePoint(p) == EscapeAll(Utf8(p))
  {
    assert ([p] + rest)[1..] == rest;
    assert |EscapeAll(Utf8(p))| >= 3;
  }

  lemma {:induction false} EscapesAreUpperCase(bytes: seq<Byte>, i: nat)
    requires i < |bytes|
    ensures var t := EscapeAll(bytes);
      && |t| == 3 * |bytes| && t[3 * i] == '%' as int
      && t[3 * i + 1] == "0123456789ABCDEF"[bytes[i] / 16] as int
      && t[3 * i + 2] == "0123456789ABCDEF"[bytes[i] % 16] as int
  {
    if i > 0 {
      EscapesAreUpperCase(bytes[1..], i - 1);
    }
  }

  /** Encoding succeeds exactly on strings without a lone surrogate. */
  lemma {:induction false} EncodeSucceeds(s: Text)
    ensures Encode(s).Some? <==> forall p | p in s :: !Surrogate(p)
  {
    if s != [] {
      EncodeSucceeds(s[1..]);
      assert s == [s[0]] + s[1..];
    }
  }

  /** Encoded text holds unreserved characters, percent signs and hexadecimal digits only. */
  predicate Clean(p: Point) { Unreserved(p) || p == PERCENT }

  lemma {:induction false} EscapesAreClean(bytes: seq<Byte>)
    ensures forall p | p in EscapeAll(bytes) :: Clean(p)
  {
    if bytes != [] { EscapesAreClean(bytes[1..]); }
  }

  lemma {:induction false} EncodedIsClean(s: Text)
    requires Encode(s).Some?
    ensures forall p | p in Encode(s).value :: Clean(p)
  {
    if s != [] {
      EncodedIsClean(s[1..]);
      EscapesAreClean(Utf8(s[0]));
    }
  }

  /** Decoding leaves a text without percent signs alone, and shortens any other that it accepts. */
  lemma {:induction false} DecodeShortens(t: Text)
    ensures PERCENT !in t ==> Decode(t) == Some(t)
    ensures PERCENT in t && Decode(t).Some? ==> |Decode(t).value| < |t|
    ensures Decode(t).Some? ==> |Decode(t).value| <= |t|
    decreases |t|
  {
    if t != [] {
      assert t == [t[0]] + t[1..];
      if t[0] != PERCENT {
        DecodeShortens(t[1..]);
      } else if ReadPoint(t).Some? {
        DecodeShortens(t[ReadPoint(t).value.1..]);
      }
    }
  }
}
