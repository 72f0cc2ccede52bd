/** Base32 secrets: `generateSecret` and `decodeBase32` in src/common/crypto/totp.service.ts. */
module Base32 {
  import opened Prelude

  type Byte = b: int | 0 <= b <= 0xFF
  type Bit = b: int | 0 <= b <= 1
  type Bits = seq<Bit>

  const ALPHABET: string := "ABCDEFGHIJKLMNOPQRSTUVWXYZ234567"

  // ---------------------------------------------------------------- binary numerals

  function Power2(n: nat): nat {
    if n == 0 then 1 else 2 * Power2(n - 1)
  }

  /** The binary numeral of a number, padded on the left with zeros to a width. */
  function ToBits(n: nat, width: nat): (bits: Bits)
    ensures |bits| == width
  {
    if width == 0 then [] else ToBits(n / 2, width - 1) + [n % 2]
  }

  function FromBits(bits: Bits): (n: nat)
    ensures n < Power2(|bits|)
  {
    if bits == [] then 0 else 2 * FromBits(bits[..|bits| - 1]) + bits[|bits| - 1]
  }

  lemma {:induction false} NumeralRoundTrip(n: nat, width: nat)
    requires n < Power2(width)
    ensures FromBits(ToBits(n, width)) == n
  {
    if width > 0 {
      NumeralRoundTrip(n / 2, width - 1);
      assert ToBits(n, width)[..width - 1] == ToBits(n / 2, width - 1);
    }
  }

  lemma {:induction false} BitsRoundTrip(bits: Bits)
    ensures ToBits(FromBits(bits), |bits|) == bits
  {
    if bits != [] {
      BitsRoundTrip(bits[..|bits| - 1]);
      assert bits == bits[..|bits| - 1] + [bits[|bits| - 1]];
    }
  }

  function Zeros(n: nat): (bits: Bits)
    ensures |bits| == n
  {
    if n == 0 then [] else Zeros(n - 1) + [0]
  }

  // ---------------------------------------------------------------- what the two loops compute

  function BitsOf(bytes: seq<Byte>): (bits: Bits)
    ensures |bits| == 8 * |bytes|
  {
    if bytes == [] then [] else ToBits(bytes[0], 8) + BitsOf(bytes[1..])
  }

  /** Up to five bits, padded on the right with zeros. */
  function Chunk(bits: Bits): (chunk: Bits)
    ensures |chunk| == 5
  {
    if |bits| >= 5 then bits[..5] else bits + Zeros(5 - |bits|)
  }

  function Letter(chunk: Bits): char
    requires |chunk| == 5
  {
    assert Power2(5) == 32;
    ALPHABET[FromBits(chunk)]
  }

  function Rest(bits: Bits): Bits {
    if |bits| >= 5 then bits[5..] else []
  }

  function EncodeBits(bits: Bits): string
    decreases |bits|
  {
    if bits == [] then "" else [Letter(Chunk(bits))] + EncodeBits(Rest(bits))
  }

  function Encode(bytes: seq<Byte>): string { EncodeBits(BitsOf(bytes)) }

  /** The first position of a character, or its absence. */
  function IndexOf(s: string, c: char): (r: Option<nat>)
    ensures r.Some? ==> r.value < |s| && s[r.value] == c
    ensures r.None? ==> c !in s
  {
    if s == [] then None
    else if s[0] == c then Some(0)
    else
      var rest := IndexOf(s[1..], c);
      assert s == [s[0]] + s[1..];
      if rest.None? then None else Some(rest.value + 1)
  }

  /** Fails on a character outside the alphabet. */
  function DecodeBits(letters: string): Option<Bits> {
    if letters == [] then Some([])
    else
      var index, rest := IndexOf(ALPHABET, letters[0]), DecodeBits(letters[1..]);
      if index.None? || rest.None? then None else Some(ToBits(index.value, 5) + rest.value)
  }

  /** Whole bytes only; up to seven bits at the end are dropped. */
  function BytesOf(bits: Bits): seq<Byte> {
    if |bits| < 8 then []
    else
      assert Power2(8) == 256;
      [FromBits(bits[..8])] + BytesOf(bits[8..])
  }

  /** Padding signs at the end are taken off. */
  function Unpadded(value: string): string {
    if value != [] && value[|value| - 1] == '=' then Unpadded(value[..|value| - 1]) else value
  }

  function Decode(upper: string -> string, value: string): Option<seq<Byte>> {
    var bits := DecodeBits(upper(Unpadded(value)));
    if bits.None? then None else Some(BytesOf(bits.value))
  }

  // ---------------------------------------------------------------- the round trip

  lemma AlphabetIsDistinct()
    ensures forall i, j | 0 <= i < j < 32 :: ALPHABET[i] != ALPHABET[j]
  {
    assert forall i | 0 <= i < 26 :: ALPHABET[i] as int == 'A' as int + i;
    assert forall i | 26 <= i < 32 :: ALPHABET[i] as int == '2' as int + i - 26;
  }

  lemma LetterIndex(n: nat)
    requires n < 32
    ensures IndexOf(ALPHABET, ALPHABET[n]) == Some(n)
  {
    AlphabetIsDistinct();
    var r := IndexOf(ALPHABET, ALPHABET[n]);
    assert ALPHABET[n] in ALPHABET;
  }

  lemma ChunkRoundTrip(chunk: Bits)
    requires |chunk| == 5
    ensures IndexOf(ALPHABET, Letter(chunk)).Some? && ToBits(IndexOf(ALPHABET, Letter(chunk)).value, 5) == chunk
  {
    assert Power2(5) == 32;
    LetterIndex(FromBits(chunk));
    BitsRoundTrip(chunk);
  }

  function Padding(length: nat): (n: nat)
    ensures n < 5
  {
    (5 - length % 5) % 5
  }

  lemma DecodeFirstLetter(bits: Bits, rest: Bits)
    requires bits != [] && DecodeBits(EncodeBits(Rest(bits))) == Some(rest)
    ensures DecodeBits(EncodeBits(bits)) == Some(Chunk(bits) + rest)
  {
    ChunkRoundTrip(Chunk(bits));
    assert EncodeBits(bits)[1..] == EncodeBits(Rest(bits));
  }

  lemma ChunkThenRest(bits: Bits, zeros: Bits)
    ensures |bits| >= 5 ==> Chunk(bits) + (Rest(bits) + zeros) == bits + zeros
    ensures |bits| < 5 && zeros == [] ==> Chunk(bits) + (Rest(bits) + zeros) == Chunk(bits)
  {
    if |bits| >= 5 { assert bits[..5] + (bits[5..] + zeros) == bits + zeros; }
  }

  lemma FillUp(bits: Bits)
    requires bits != []
    ensures var zeros := Zeros(Padding(|Rest(bits)|));
      Chunk(bits) + (Rest(bits) + zeros) == bits + Zeros(Padding(|bits|))
  {
    PaddingStep(|bits|);
    ChunkThenRest(bits, Zeros(Padding(|Rest(bits)|)));
  }

  lemma PaddingStep(length: nat)
    requires length > 0
    ensures Padding(length) == if length >= 5 then Padding(length - 5) else 5 - length
  {
  }

  /** Decoding the letters gives the bits back, filled up with zeros to a multiple of five. */
  lemma {:induction false} DecodeEncodedBits(bits: Bits)
    ensures DecodeBits(EncodeBits(bits)) == Some(bits + Zeros(Padding(|bits|)))
    decreases |bits|
  {
    if bits == [] {
      assert bits + Zeros(Padding(0)) == [];
    } else {
      var zeros := Zeros(Padding(|Rest(bits)|));
      DecodeEncodedBits(Rest(bits));
      DecodeFirstLetter(bits, Rest(bits) + zeros);
      FillUp(bits);
    }
  }

  lemma FirstByte(b: Byte, rest: Bits)
    ensures BytesOf(ToBits(b, 8) + rest) == [b] + BytesOf(rest)
  {
    var bits := ToBits(b, 8) + rest;
    assert bits[..8] == ToBits(b, 8) && bits[8..] == rest;
    assert Power2(8) == 256;
    NumeralRoundTrip(b, 8);
  }

  lemma {:induction false} BytesOfBits(bytes: seq<Byte>, extra: Bits)
    requires |extra| < 8
    ensures BytesOf(BitsOf(bytes) + extra) == bytes
  {
    if bytes != [] {
      BytesOfBits(bytes[1..], extra);
      var rest := BitsOf(bytes[1..]);
      FirstByte(bytes[0], rest + extra);
      Regroup(ToBits(bytes[0], 8), rest, extra);
      assert bytes == [bytes[0]] + bytes[1..];
    }
  }

  lemma {:induction false} EncodedIsAlphabet(bits: Bits)
    ensures forall c | c in EncodeBits(bits) :: c in ALPHABET
    ensures |EncodeBits(bits)| == (|bits| + 4) / 5
    decreases |bits|
  {
    if bits != [] { EncodedIsAlphabet(Rest(bits)); }
  }

  lemma NoPadding(value: string)
    requires forall c | c in value :: c in ALPHABET
    ensures Unpadded(value) == value
  {
    if value != [] { assert value[|value| - 1] in value; }
  }

  /** Upper-casing leaves text over the alphabet alone. */
  ghost predicate KeepsAlphabet(upper: string -> string) {
    forall s :: (forall c | c in s :: c in ALPHABET) ==> upper(s) == s
  }

  /** Decoding undoes encoding for any number of bytes. */
  lemma RoundTrip(upper: string -> string, bytes: seq<Byte>)
    requires KeepsAlphabet(upper)
    ensures Decode(upper, Encode(bytes)) == Some(bytes)
  {
    EncodedIsAlphabet(BitsOf(bytes));
    NoPadding(Encode(bytes));
    DecodeEncodedBits(BitsOf(bytes));
    BytesOfBits(bytes, Zeros(Padding(8 * |bytes|)));
  }

  // ---------------------------------------------------------------- the same number in base 32

  lemma FromBitsAppend(bits: Bits, bit: Bit)
    ensures FromBits(bits + [bit]) == 2 * FromBits(bits) + bit
  {
    assert (bits + [bit])[..|bits|] == bits;
  }

  lemma TimesDouble(x: nat, p: nat)
    ensures x * (2 * p) == 2 * (x * p)
  {
  }

  lemma {:induction false} FromBitsConcat(a: Bits, b: Bits)
    ensures FromBits(a + b) == FromBits(a) * Power2(|b|) + FromBits(b)
  {
    if b == [] {
      assert a + b == a;
    } else {
      var front, last := b[..|b| - 1], b[|b| - 1];
      FromBitsConcat(a, front);
      FromBitsAppend(a + front, last);
      assert a + b == a + front + [last];
      TimesDouble(FromBits(a), Power2(|front|));
    }
  }

  lemma ByteAfter(bits: Bits, b: Byte)
    ensures FromBits(bits + ToBits(b, 8)) == FromBits(bits) * 0x100 + b
  {
    FromBitsConcat(bits, ToBits(b, 8));
    assert Power2(8) == 256;
    NumeralRoundTrip(b, 8);
  }

  /** The value of a letter: A to Z count from 0, 2 to 7 from 26 (section 6 of RFC 4648). */
  function LetterValue(c: char): Option<nat> {
    if 'A' <= c <= 'Z' then Some(c as int - 'A' as int)
    else if '2' <= c <= '7' then Some(26 + c as int - '2' as int)
    else None
  }

  lemma LetterValueIsIndex(c: char)
    ensures IndexOf(ALPHABET, c) == LetterValue(c)
  {
    assert forall i | 0 <= i < 26 :: ALPHABET[i] as int == 'A' as int + i;
    assert forall i | 26 <= i < 32 :: ALPHABET[i] as int == '2' as int + i - 26;
    if LetterValue(c).Some? {
      assert ALPHABET[LetterValue(c).value] == c;
      LetterIndex(LetterValue(c).value);
    }
  }

  /** The number that letters write in base 32, the first letter counting most. */
  function LettersValue(letters: string): Option<nat> {
    if letters == "" then Some(0)
    else
      var front, last := LettersValue(letters[..|letters| - 1]), LetterValue(letters[|letters| - 1]);
      if front.None? || last.None? then None else Some(32 * front.value + last.value)
  }

  /** The number that bytes write in base 256, the first byte counting most. */
  function BytesValue(bytes: seq<Byte>): nat {
    if bytes == [] then 0 else 0x100 * BytesValue(bytes[..|bytes| - 1]) + bytes[|bytes| - 1]
  }

  lemma {:induction false} DecodeOneMore(letters: string, c: char)
    ensures DecodeBits(letters + [c]) ==
      if DecodeBits(letters).None? || LetterValue(c).None? then None
      else Some(DecodeBits(letters).value + ToBits(LetterValue(c).value, 5))
  {
    LetterValueIsIndex(c);
    if letters == "" {
      OneLetter(c);
      assert letters + [c] == [c];
      assert forall bits: Bits :: [] + bits == bits;
    } else {
      DecodeOneMore(letters[1..], c);
      assert (letters + [c])[1..] == letters[1..] + [c] && (letters + [c])[0] == letters[0];
      if DecodeBits(letters).Some? && LetterValue(c).Some? {
        hide ToBits, LetterValue, IndexOf;
        Regroup(ToBits(IndexOf(ALPHABET, letters[0]).value, 5), DecodeBits(letters[1..]).value, ToBits(LetterValue(c).value, 5));
      }
    }
  }

  lemma OneLetter(c: char)
    ensures DecodeBits([c]) == if IndexOf(ALPHABET, c).None? then None else Some(ToBits(IndexOf(ALPHABET, c).value, 5))
  {
    hide ToBits, IndexOf;
    assert [c][1..] == [];
    assert DecodeBits([]) == Some([]);
    if IndexOf(ALPHABET, c).Some? {
      assert ToBits(IndexOf(ALPHABET, c).value, 5) + [] == ToBits(IndexOf(ALPHABET, c).value, 5);
    }
  }

  /** Letters are decoded exactly when all are in the alphabet, to the bits of the number they write. */
  lemma {:induction false} LettersWriteBits(letters: string)
    ensures DecodeBits(letters).Some? <==> LettersValue(letters).Some?
    ensures DecodeBits(letters).Some? ==> FromBits(DecodeBits(letters).value) == LettersValue(letters).value
  {
    if letters != "" {
      var front, c := letters[..|letters| - 1], letters[|letters| - 1];
      assert letters == front + [c];
      LettersWriteBits(front);
      DecodeOneMore(front, c);
      if DecodeBits(letters).Some? {
        assert Power2(5) == 32;
        FromBitsConcat(DecodeBits(front).value, ToBits(LetterValue(c).value, 5));
        NumeralRoundTrip(LetterValue(c).value, 5);
      }
    }
  }

  lemma {:induction false} BitsOneMore(bytes: seq<Byte>, b: Byte)
    ensures BitsOf(bytes + [b]) == BitsOf(bytes) + ToBits(b, 8)
  {
    if bytes == [] {
      assert BitsOf([b][1..]) == [];
    } else {
      BitsOneMore(bytes[1..], b);
      assert (bytes + [b])[1..] == bytes[1..] + [b];
    }
  }

  lemma {:induction false} BytesWriteBits(bytes: seq<Byte>)
    ensures FromBits(BitsOf(bytes)) == BytesValue(bytes)
  {
    if bytes != [] {
      var front, b := bytes[..|bytes| - 1], bytes[|bytes| - 1];
      assert bytes == front + [b];
      BytesWriteBits(front);
      BitsOneMore(front, b);
      ByteAfter(BitsOf(front), b);
    }
  }

  lemma {:induction false} ZerosAreZero(n: nat)
    ensures FromBits(Zeros(n)) == 0
  {
    if n > 0 {
      ZerosAreZero(n - 1);
      FromBitsAppend(Zeros(n - 1), 0);
    }
  }

  /** A number with bits appended on the right. */
  function Shift(n: nat, count: nat): nat { n * Power2(count) }

  lemma Shifted(bits: Bits, n: nat)
    ensures FromBits(bits + Zeros(n)) == Shift(FromBits(bits), n)
  {
    FromBitsConcat(bits, Zeros(n));
    ZerosAreZero(n);
  }

  lemma {:induction false} EncodedLength(bits: Bits)
    ensures 5 * |EncodeBits(bits)| == |bits| + Padding(|bits|)
    decreases |bits|
  {
    if bits != [] {
      EncodedLength(Rest(bits));
      PaddingStep(|bits|);
    }
  }

  lemma EncodedNumber(bytes: seq<Byte>)
    ensures LettersValue(Encode(bytes)) == Some(Shift(BytesValue(bytes), Padding(8 * |bytes|)))
  {
    hide EncodeBits, BitsOf, DecodeBits, FromBits, BytesValue, LettersValue, Shift, Zeros, Padding;
    DecodeEncodedBits(BitsOf(bytes));
    LettersWriteBits(EncodeBits(BitsOf(bytes)));
    Shifted(BitsOf(bytes), Padding(8 * |bytes|));
    BytesWriteBits(bytes);
  }

  /** The letters, as few as hold all bits, write the number of the bytes in base 32, shifted to a multiple of five bits. */
  lemma EncodesTheSameNumber(bytes: seq<Byte>)
    ensures 0 <= 5 * |Encode(bytes)| - 8 * |bytes| < 5
    ensures LettersValue(Encode(bytes)) == Some(Shift(BytesValue(bytes), 5 * |Encode(bytes)| - 8 * |bytes|))
  {
    EncodedLength(BitsOf(bytes));
    hide EncodeBits, BitsOf, BytesValue, LettersValue, Shift, Padding;
    EncodedNumber(bytes);
  }

  /** The bytes are a number of some bits without the last bits that fill no byte. */
  ghost predicate IsTruncated(bytes: seq<Byte>, length: nat, value: nat) {
    && 0 <= length - 8 * |bytes| < 8
    && Shift(BytesValue(bytes), length - 8 * |bytes|) <= value < Shift(BytesValue(bytes) + 1, length - 8 * |bytes|)
  }

  lemma {:induction false} UnpaddedIsPrefix(value: string)
    ensures Unpadded(value) <= value
    ensures forall i | |Unpadded(value)| <= i < |value| :: value[i] == '='
    ensures Unpadded(value) == "" || Unpadded(value)[|Unpadded(value)| - 1] != '='
  {
    if value != "" && value[|value| - 1] == '=' { UnpaddedIsPrefix(value[..|value| - 1]); }
  }

  /**
   * Decoding takes off the padding, then upper-cases, and fails exactly on a character outside the alphabet. The bytes
   * are the number the letters write, without the bits that fill no byte.
   */
  lemma DecodesExactly(upper: string -> string, text: string, padding: string)
    requires (forall c | c in padding :: c == '=') && (text == "" || text[|text| - 1] != '=')
    ensures Decode(upper, text + padding).Some? <==> LettersValue(upper(text)).Some?
    ensures Decode(upper, text + padding).Some? ==>
      IsTruncated(Decode(upper, text + padding).value, 5 * |upper(text)|, LettersValue(upper(text)).value)
  {
    var value := text + padding;
    UnpaddedIsPrefix(value);
    assert forall i | |text| <= i < |value| :: value[i] in padding;
    assert text != "" ==> value[|text| - 1] == text[|text| - 1];
    assert |Unpadded(value)| == |text|;
    assert value[..|text|] == text;
    assert Unpadded(value) == text;
    hide BytesOf, LettersValue, FromBits, IsTruncated, Unpadded, DecodeBits;
    LettersWriteBits(upper(text));
    if DecodeBits(upper(text)).Some? {
      DecodedLength(upper(text));
      WholeBytes(DecodeBits(upper(text)).value);
    }
  }

  lemma {:induction false} DecodedLength(letters: string)
    requires DecodeBits(letters).Some?
    ensures |DecodeBits(letters).value| == 5 * |letters|
  {
    if letters != "" { DecodedLength(letters[1..]); }
  }

  lemma {:induction false} BytesLength(bits: Bits)
    ensures 0 <= |bits| - 8 * |BytesOf(bits)| < 8
    decreases |bits|
  {
    if |bits| >= 8 { BytesLength(bits[8..]); }
  }

  lemma WholeOf(whole: Bits, extra: Bits, n: nat)
    requires |whole| == 8 * n && |extra| < 8 && |BytesOf(whole + extra)| == n
    ensures IsTruncated(BytesOf(whole + extra), 8 * n + |extra|, FromBits(whole + extra))
  {
    WholeAndExtra(whole, extra, n);
    WholeBytesExactly(whole, n);
    Between(whole, extra);
    hide BytesOf, BytesValue, FromBits, Shift, BitsOf;
  }

  /** The whole bytes of some bits are the number without its last bits. */
  lemma WholeBytes(bits: Bits)
    ensures IsTruncated(BytesOf(bits), |bits|, FromBits(bits))
  {
    BytesLength(bits);
    hide BytesOf, FromBits, IsTruncated;
    var n := |BytesOf(bits)|;
    assert bits == bits[..8 * n] + bits[8 * n..];
    WholeOf(bits[..8 * n], bits[8 * n..], n);
  }

  lemma Between(a: Bits, b: Bits)
    ensures Shift(FromBits(a), |b|) <= FromBits(a + b) < Shift(FromBits(a) + 1, |b|)
  {
    FromBitsConcat(a, b);
    OneMoreTime(FromBits(a), Power2(|b|));
  }

  lemma OneMoreTime(q: nat, d: nat)
    ensures (q + 1) * d == q * d + d
  {
  }

  lemma {:induction false} WholeAndExtra(whole: Bits, extra: Bits, n: nat)
    requires |whole| == 8 * n && |extra| < 8
    ensures BytesOf(whole + extra) == BytesOf(whole)
  {
    if n == 0 {
      assert whole + extra == extra;
    } else {
      WholeAndExtra(whole[8..], extra, n - 1);
      assert (whole + extra)[8..] == whole[8..] + extra && (whole + extra)[..8] == whole[..8];
    }
  }

  lemma {:induction false} WholeBytesExactly(bits: Bits, n: nat)
    requires |bits| == 8 * n
    ensures BitsOf(BytesOf(bits)) == bits && BytesValue(BytesOf(bits)) == FromBits(bits)
  {
    if n > 0 {
      WholeBytesExactly(bits[8..], n - 1);
      assert BytesOf(bits)[1..] == BytesOf(bits[8..]);
      BitsRoundTrip(bits[..8]);
      assert bits == bits[..8] + bits[8..];
    }
    BytesWriteBits(BytesOf(bits));
  }

  // ---------------------------------------------------------------- the loops

  ghost function EncodeFrom(bits: Bits, index: nat): string {
    if index < |bits| then EncodeBits(bits[index..]) else ""
  }

  lemma EncodeFromStep(bits: Bits, index: nat)
    requires index < |bits|
    ensures EncodeFrom(bits, index) == [Letter(Chunk(bits[index..]))] + EncodeFrom(bits, index + 5)
  {
    var tail := bits[index..];
    if index + 5 < |bits| {
      assert Rest(tail) == bits[index + 5..];
    } else {
      assert Rest(tail) == [] && EncodeBits(Rest(tail)) == "";
    }
  }

  /** The digits of the bytes, eight for each. */
  method BitString(bytes: seq<Byte>) returns (bits: Bits)
    ensures bits == BitsOf(bytes)
  {
    bits := [];
    for i := 0 to |bytes|
      invariant bits + BitsOf(bytes[i..]) == BitsOf(bytes)
    {
      assert bytes[i..][1..] == bytes[i + 1..];
      bits := bits + ToBits(bytes[i], 8);
    }
  }

  method GenerateSecret(random: seq<Byte>) returns (output: string)
    ensures output == Encode(random)
  {
    var bits := BitString(random);
    output := "";
    assert bits == [] || bits[0..] == bits;
    var index := 0;
    while index < |bits|
      invariant output + EncodeFrom(bits, index) == EncodeBits(bits)
    {
      EncodeFromStep(bits, index);
      output := output + [Letter(Chunk(bits[index..]))];
      index := index + 5;
    }
  }

  ghost function Prepend(bits: Bits, rest: Option<Bits>): Option<Bits> {
    if rest.None? then None else Some(bits + rest.value)
  }

  lemma PrependNothing(rest: Option<Bits>)
    ensures Prepend([], rest) == rest
  {
    if rest.Some? { assert [] + rest.value == rest.value; }
  }

  lemma DecodeLetter(bits: Bits, letters: string, i: nat)
    requires i < |letters|
    ensures var index := IndexOf(ALPHABET, letters[i]);
      Prepend(bits, DecodeBits(letters[i..])) ==
      if index.None? then None else Prepend(bits + ToBits(index.value, 5), DecodeBits(letters[i + 1..]))
  {
    var index, rest := IndexOf(ALPHABET, letters[i]), DecodeBits(letters[i + 1..]);
    assert letters[i..][1..] == letters[i + 1..];
    if index.Some? && rest.Some? {
      assert bits + (ToBits(index.value, 5) + rest.value) == bits + ToBits(index.value, 5) + rest.value;
    }
  }

  /** The digits of the letters, five for each. */
  method LetterBits(letters: string) returns (result: Option<Bits>)
    ensures result == DecodeBits(letters)
  {
    var bits: Bits := [];
    assert letters[0..] == letters;
    PrependNothing(DecodeBits(letters));
    for i := 0 to |letters|
      invariant DecodeBits(letters) == Prepend(bits, DecodeBits(letters[i..]))
    {
      DecodeLetter(bits, letters, i);
      var index := IndexOf(ALPHABET, letters[i]);
      if index.None? { return None; }
      bits := bits + ToBits(index.value, 5);
    }
    assert letters[|letters|..] == [] && bits + [] == bits;
    return Some(bits);
  }

  /** The whole bytes of the digits. */
  method Octets(bits: Bits) returns (bytes: seq<Byte>)
    ensures bytes == BytesOf(bits)
  {
    bytes := [];
    var index := 0;
    assert bits[0..] == bits;
    while index + 8 <= |bits|
      invariant index <= |bits|
      invariant bytes + BytesFrom(bits, index) == BytesOf(bits)
    {
      BytesStep(bits, index);
      bytes := bytes + [FromBits(bits[index..index + 8])];
      index := index + 8;
    }
  }

  ghost function BytesFrom(bits: Bits, index: nat): seq<Byte>
    requires index <= |bits|
  {
    BytesOf(bits[index..])
  }

  method DecodeBase32(upper: string -> string, value: string) returns (result: Option<seq<Byte>>)
    ensures result == Decode(upper, value)
  {
    var bits := LetterBits(upper(Unpadded(value)));
    if bits.None? { return None; }
    var bytes := Octets(bits.value);
    return Some(bytes);
  }

  lemma BytesStep(bits: Bits, index: nat)
    requires index + 8 <= |bits|
    ensures FromBits(bits[index..index + 8]) <= 0xFF
    ensures BytesFrom(bits, index) == [FromBits(bits[index..index + 8])] + BytesFrom(bits, index + 8)
  {
    assert Power2(8) == 256;
    assert bits[index..][..8] == bits[index..index + 8] && bits[index..][8..] == bits[index + 8..];
  }
}
