/** One-time codes: `generateCode` and `verify` in src/common/crypto/totp.service.ts. */
module Totp {
  import opened Prelude
  import opened Base32

  /** An HMAC-SHA-1 value. */
  type Mac = m: seq<Byte> | |m| == 20 witness seq(20, _ => 0)
  type Hmac = (seq<Byte>, seq<Byte>) -> Mac

  const PERIOD_MS: int := 30_000
  const TWO_31: int := 0x8000_0000
  const TWO_32: int := 0x1_0000_0000

  datatype Error = CounterOutOfRange | InvalidSecret

  // ---------------------------------------------------------------- the moving factor

  function Counter(now: Time): int { now / PERIOD_MS }

  /** The conversion `& 0xffffffff` does: the low 32 bits, read as a signed number. */
  function ToInt32(n: int): int {
    var low := n % TWO_32;
    if low >= TWO_31 then low - TWO_32 else low
  }

  function UInt32BE(value: int): (bytes: seq<Byte>)
    requires 0 <= value < TWO_32
    ensures |bytes| == 4
  {
    var high := value / 0x100;
    var higher := high / 0x100;
    [higher / 0x100, higher % 0x100, high % 0x100, value % 0x100]
  }

  /** The eight bytes that are signed, or nothing when a write is out of range and throws. */
  function CounterBytes(counter: int): Option<seq<Byte>> {
    var high, low := counter / TWO_32, ToInt32(counter);
    if !(0 <= high < TWO_32) || low < 0 then None else Some(UInt32BE(high) + UInt32BE(low))
  }

  lemma BigEndianAppend(bytes: seq<Byte>, b: Byte)
    ensures BytesValue(bytes + [b]) == 0x100 * BytesValue(bytes) + b
  {
    assert (bytes + [b])[..|bytes|] == bytes;
  }

  lemma BigEndian4(bytes: seq<Byte>, prefix: seq<Byte>)
    requires |bytes| == 4
    ensures BytesValue(prefix + bytes)
         == 0x100 * (0x100 * (0x100 * (0x100 * BytesValue(prefix) + bytes[0]) + bytes[1]) + bytes[2]) + bytes[3]
  {
    BigEndianAppend(prefix, bytes[0]);
    BigEndianAppend(prefix + [bytes[0]], bytes[1]);
    BigEndianAppend(prefix + [bytes[0]] + [bytes[1]], bytes[2]);
    BigEndianAppend(prefix + [bytes[0]] + [bytes[1]] + [bytes[2]], bytes[3]);
    assert prefix + bytes == prefix + [bytes[0]] + [bytes[1]] + [bytes[2]] + [bytes[3]];
  }

  /**
   * The counter is written, as the eight-byte big-endian number that section 5.2 of RFC 4226 asks for,
   * exactly when it is not negative, fits, and bit 31 is clear; otherwise the write throws.
   */
  lemma CounterIsWrittenBigEndian(counter: int)
    ensures CounterBytes(counter).Some? <==>
      0 <= counter < 0x1_0000_0000_0000_0000 && counter % 0x1_0000_0000 < 0x8000_0000
    ensures CounterBytes(counter).Some? ==> |CounterBytes(counter).value| == 8 && BytesValue(CounterBytes(counter).value) == counter
  {
    if CounterBytes(counter).Some? {
      var high, low := counter / TWO_32, counter % TWO_32;
      BigEndian4(UInt32BE(high), []);
      BigEndian4(UInt32BE(low), UInt32BE(high));
      assert [] + UInt32BE(high) == UInt32BE(high);
    }
  }

  // ---------------------------------------------------------------- truncation

  function Offset(mac: Mac): (n: nat)
    ensures n + 3 < |mac|
  {
    mac[|mac| - 1] % 0x10
  }

  function Truncated(mac: Mac): (value: nat)
    ensures value < TWO_31
  {
    var o := Offset(mac);
    var first: int := mac[o] % 0x80;
    var two: int := first * 0x100 + mac[o + 1];
    var three: int := two * 0x100 + mac[o + 2];
    three * 0x100 + mac[o + 3]
  }

  lemma Split8(bits: Bits)
    requires |bits| == 8
    ensures FromBits(bits) == bits[0] * 128 + FromBits(bits[1..]) && FromBits(bits[1..]) < 128
  {
    assert bits == bits[..1] + bits[1..];
    FromBitsConcat(bits[..1], bits[1..]);
    assert Power2(7) == 128;
  }

  /** The low seven bits of a byte. */
  lemma SevenBits(b: Byte)
    ensures FromBits(ToBits(b, 8)[1..]) == b % 0x80
  {
    var bits := ToBits(b, 8);
    Split8(bits);
    assert FromBits(bits) == b by {
      assert Power2(8) == 256;
      NumeralRoundTrip(b, 8);
    }
  }

  /** The truncated value is the last 31 bits of the four bytes at the offset (section 5.3 of RFC 4226). */
  lemma TruncationIsTheLast31Bits(mac: Mac)
    ensures var o := Offset(mac); Truncated(mac) == FromBits(BitsOf(mac[o..o + 4])[1..])
  {
    var o := Offset(mac);
    var a, b, c, d := mac[o], mac[o + 1], mac[o + 2], mac[o + 3];
    SevenBits(a);
    var bits := ToBits(a, 8)[1..];
    ByteAfter(bits, b);
    ByteAfter(bits + ToBits(b, 8), c);
    ByteAfter(bits + ToBits(b, 8) + ToBits(c, 8), d);
    FourBytes(mac[o..o + 4]);
  }

  lemma FourBytes(bytes: seq<Byte>)
    requires |bytes| == 4
    ensures BitsOf(bytes)[1..] == ToBits(bytes[0], 8)[1..] + ToBits(bytes[1], 8) + ToBits(bytes[2], 8) + ToBits(bytes[3], 8)
  {
    assert BitsOf(bytes[3..]) == ToBits(bytes[3], 8) by { assert bytes[3..][1..] == []; }
    assert BitsOf(bytes[2..]) == ToBits(bytes[2], 8) + ToBits(bytes[3], 8) by { assert bytes[2..][1..] == bytes[3..]; }
    assert BitsOf(bytes[1..]) == ToBits(bytes[1], 8) + (ToBits(bytes[2], 8) + ToBits(bytes[3], 8)) by {
      assert bytes[1..][1..] == bytes[2..];
    }
  }

  // ---------------------------------------------------------------- six digits

  predicate Digit(c: char) { '0' <= c <= '9' }

  function Decimal(n: nat): string {
    if n < 10 then [('0' as int + n) as char] else Decimal(n / 10) + [('0' as int + n % 10) as char]
  }

  function PadStart(s: string, width: nat): string
    decreases width - |s|
  {
    if |s| >= width then s else PadStart("0" + s, width)
  }

  function DecimalValue(s: string): nat
    requires forall c | c in s :: Digit(c)
  {
    if s == [] then 0
    else
      assert Digit(s[|s| - 1]);
      10 * DecimalValue(s[..|s| - 1]) + (s[|s| - 1] as int - '0' as int)
  }

  function Power10(n: nat): nat { if n == 0 then 1 else 10 * Power10(n - 1) }

  lemma {:induction false} DecimalIsValue(n: nat, width: nat)
    requires n < Power10(width) && width > 0
    ensures 1 <= |Decimal(n)| <= width && forall c | c in Decimal(n) :: Digit(c)
    ensures DecimalValue(Decimal(n)) == n
  {
    if n >= 10 {
      DecimalIsValue(n / 10, width - 1);
      assert Decimal(n)[..|Decimal(n)| - 1] == Decimal(n / 10);
    }
  }

  lemma {:induction false} ZeroInFront(s: string)
    requires forall c | c in s :: Digit(c)
    ensures DecimalValue("0" + s) == DecimalValue(s)
  {
    if s != [] {
      ZeroInFront(s[..|s| - 1]);
      assert ("0" + s)[..|s|] == "0" + s[..|s| - 1];
    }
  }

  lemma {:induction false} PadStartKeeps(s: string, width: nat)
    requires (forall c | c in s :: Digit(c)) && |s| <= width
    ensures |PadStart(s, width)| == width && forall c | c in PadStart(s, width) :: Digit(c)
    ensures DecimalValue(PadStart(s, width)) == DecimalValue(s)
    decreases width - |s|
  {
    if |s| < width {
      ZeroInFront(s);
      PadStartKeeps("0" + s, width);
    }
  }

  function SixDigits(value: nat): string { PadStart(Decimal(value % 1_000_000), 6) }

  predicate IsCode(code: string) { |code| == 6 && forall i | 0 <= i < 6 :: Digit(code[i]) }

  /** A code has six digits, whose number is the value modulo a million (section 5.3 of RFC 4226). */
  lemma CodeHasSixDigits(value: nat)
    ensures IsCode(SixDigits(value)) && (forall c | c in SixDigits(value) :: Digit(c))
    ensures DecimalValue(SixDigits(value)) == value % 1_000_000
  {
    assert Power10(6) == 1_000_000;
    DecimalIsValue(value % 1_000_000, 6);
    PadStartKeeps(Decimal(value % 1_000_000), 6);
  }

  // ---------------------------------------------------------------- codes over time

  function CodeAt(hmac: Hmac, upper: string -> string, secret: string, now: Time): Result<string, Error> {
    var buffer, key := CounterBytes(Counter(now)), Decode(upper, secret);
    if buffer.None? then Err(CounterOutOfRange)
    else if key.None? then Err(InvalidSecret)
    else Ok(SixDigits(Truncated(hmac(key.value, buffer.value))))
  }

  /** The number in the last 31 bits of the four bytes that the low half of the last byte points to. */
  ghost predicate DynamicallyTruncates(mac: Mac, value: nat) {
    var o: int := mac[19] % 16;
    var a: int, b: int, c: int, d: int := mac[o], mac[o + 1], mac[o + 2], mac[o + 3];
    value == a % 128 * 16_777_216 + b * 65_536 + c * 256 + d
  }

  lemma TruncatedDoes(mac: Mac)
    ensures DynamicallyTruncates(mac, Truncated(mac))
  {
  }

  /** A code as sections 5.2 and 5.3 of RFC 4226 describe it, for the number of half minutes since the epoch. */
  ghost predicate IsHotp(hmac: Hmac, key: seq<Byte>, now: Time, message: seq<Byte>, value: nat, code: string) {
    && |message| == 8 && BytesValue(message) * 30_000 <= now < (BytesValue(message) + 1) * 30_000
    && DynamicallyTruncates(hmac(key, message), value)
    && |code| == 6 && (forall c | c in code :: '0' <= c <= '9') && DecimalValue(code) == value % 1_000_000
  }

  /**
   * A code is made exactly for a decodable secret at a moment whose number of half minutes can be written, and is the
   * six digits that the standard derives from them.
   */
  lemma CodesAreHotp(hmac: Hmac, upper: string -> string, secret: string, now: Time)
    ensures CodeAt(hmac, upper, secret, now).Ok? <==>
      && Decode(upper, secret).Some?
      && 0 <= now / 30_000 < 0x1_0000_0000_0000_0000 && now / 30_000 % 0x1_0000_0000 < 0x8000_0000
    ensures CodeAt(hmac, upper, secret, now).Ok? ==>
      exists message, value ::
        IsHotp(hmac, Decode(upper, secret).value, now, message, value, CodeAt(hmac, upper, secret, now).value)
  {
    var counter := Counter(now);
    CounterIsWrittenBigEndian(counter);
    if CodeAt(hmac, upper, secret, now).Ok? {
      var message := CounterBytes(counter).value;
      var value := Truncated(hmac(Decode(upper, secret).value, message));
      CodeHasSixDigits(value);
      TruncatedDoes(hmac(Decode(upper, secret).value, message));
      assert IsHotp(hmac, Decode(upper, secret).value, now, message, value, CodeAt(hmac, upper, secret, now).value);
    }
  }

  /** What `\s` matches. */
  predicate Space(c: char) {
    var n := c as int;
    || 0x09 <= n <= 0x0D || n == 0x20 || n == 0xA0 || n == 0x1680 || 0x2000 <= n <= 0x200A
    || n == 0x2028 || n == 0x2029 || n == 0x202F || n == 0x205F || n == 0x3000 || n == 0xFEFF
  }

  function Stripped(code: string): string {
    if code == [] then [] else if Space(code[0]) then Stripped(code[1..]) else [code[0]] + Stripped(code[1..])
  }

  /** White space anywhere in a given code is skipped, and nothing else is. */
  lemma {:induction false} WhiteSpaceIsSkipped(a: string, c: char, b: string)
    ensures Stripped(a + [c] + b) == Stripped(a) + (if IsWhiteSpace(c) then "" else [c]) + Stripped(b)
    ensures Stripped("") == ""
  {
    if a == "" {
      assert a + [c] + b == [c] + b && ([c] + b)[1..] == b;
      assert "" + Stripped(b) == Stripped(b);
    } else {
      WhiteSpaceIsSkipped(a[1..], c, b);
      assert (a + [c] + b)[1..] == a[1..] + [c] + b && (a + [c] + b)[0] == a[0];
      hide Space, IsWhiteSpace;
    }
  }

  /** White space and line terminators of ECMAScript. */
  ghost predicate IsWhiteSpace(c: char) {
    c in {'\t', '\n', '\U{0B}', '\U{0C}', '\r', ' ', '\U{A0}', '\U{1680}', '\U{2000}', '\U{2001}', '\U{2002}', '\U{2003}',
          '\U{2004}', '\U{2005}', '\U{2006}', '\U{2007}', '\U{2008}', '\U{2009}', '\U{200A}', '\U{2028}', '\U{2029}',
          '\U{202F}', '\U{205F}', '\U{3000}', '\U{FEFF}'}
  }

  /** Whether one of three codes is the given one; an error while making one of them is thrown. */
  function AnyEqual(a: Result<string, Error>, b: Result<string, Error>, c: Result<string, Error>,
                    code: string): Result<bool, Error> {
    if a.Err? then Err(a.error)
    else if b.Err? then Err(b.error)
    else if c.Err? then Err(c.error)
    else Ok(a.value == code || b.value == code || c.value == code)
  }

  /** `verify`: the codes of the moment and of one period before and after it. */
  function Verified(hmac: Hmac, upper: string -> string, secret: string, code: string, now: Time): Result<bool, Error> {
    if !IsCode(Stripped(code)) then Ok(false)
    else AnyEqual(CodeAt(hmac, upper, secret, now - PERIOD_MS), CodeAt(hmac, upper, secret, now),
                  CodeAt(hmac, upper, secret, now + PERIOD_MS), Stripped(code))
  }

  lemma CodeDependsOnCounter(hmac: Hmac, upper: string -> string, secret: string, t: Time, u: Time)
    requires Counter(t) == Counter(u)
    ensures CodeAt(hmac, upper, secret, t) == CodeAt(hmac, upper, secret, u)
  {
  }

  /** Within 30 seconds of a moment the counter is that of the moment or a neighbour. */
  lemma NearbyCounters(t: Time, now: Time)
    requires now - PERIOD_MS <= t <= now + PERIOD_MS
    ensures Counter(t) in {Counter(now - PERIOD_MS), Counter(now), Counter(now + PERIOD_MS)}
  {
    assert Counter(now - PERIOD_MS) == Counter(now) - 1 && Counter(now + PERIOD_MS) == Counter(now) + 1;
  }

  /** The counter can be written and the secret read. */
  ghost predicate Usable(upper: string -> string, secret: string, now: Time) {
    && Decode(upper, secret).Some?
    && forall c | Counter(now) - 1 <= c <= Counter(now) + 1 :: CounterBytes(c).Some?
  }

  lemma VerifyAnswers(hmac: Hmac, upper: string -> string, secret: string, code: string, now: Time)
    ensures Verified(hmac, upper, secret, code, now).Ok? <==> !IsCode(Stripped(code)) || Usable(upper, secret, now)
    ensures !(|Stripped(code)| == 6 && forall c | c in Stripped(code) :: '0' <= c <= '9') ==>
      Verified(hmac, upper, secret, code, now) == Ok(false)
  {
    var c := Counter(now);
    assert Counter(now - PERIOD_MS) == c - 1 && Counter(now + PERIOD_MS) == c + 1;
    assert (CounterBytes(c - 1).Some? && CounterBytes(c).Some? && CounterBytes(c + 1).Some?)
      <==> forall d | c - 1 <= d <= c + 1 :: CounterBytes(d).Some?;
  }

  /**
   * A code verifies exactly when, without its spaces, it is the code of some moment at most 30 seconds away:
   * in particular a code made at t verifies at every time within 30 seconds of t.
   */
  lemma VerifiesExactlyNearbyCodes(hmac: Hmac, upper: string -> string, secret: string, code: string, now: Time)
    requires Usable(upper, secret, now)
    ensures Verified(hmac, upper, secret, code, now) == Ok(true) <==>
            exists t :: now - 30_000 <= t <= now + 30_000 && CodeAt(hmac, upper, secret, t) == Ok(Stripped(code))
  {
    VerifyAnswers(hmac, upper, secret, code, now);
    if t :| now - PERIOD_MS <= t <= now + PERIOD_MS && CodeAt(hmac, upper, secret, t) == Ok(Stripped(code)) {
      NearbyCodeVerifies(hmac, upper, secret, code, now, t);
    }
  }

  lemma NearbyCodeVerifies(hmac: Hmac, upper: string -> string, secret: string, code: string, now: Time, t: Time)
    requires Usable(upper, secret, now) && now - PERIOD_MS <= t <= now + PERIOD_MS
    requires CodeAt(hmac, upper, secret, t) == Ok(Stripped(code))
    ensures Verified(hmac, upper, secret, code, now) == Ok(true)
  {
    VerifyAnswers(hmac, upper, secret, code, now);
    NearbyCounters(t, now);
    CodeHasSixDigits(Truncated(hmac(Decode(upper, secret).value, CounterBytes(Counter(t)).value)));
    if Counter(t) == Counter(now - PERIOD_MS) { CodeDependsOnCounter(hmac, upper, secret, t, now - PERIOD_MS); }
    if Counter(t) == Counter(now) { CodeDependsOnCounter(hmac, upper, secret, t, now); }
    if Counter(t) == Counter(now + PERIOD_MS) { CodeDependsOnCounter(hmac, upper, secret, t, now + PERIOD_MS); }
  }

  lemma {:induction false} DigitsAreNotSpaces(code: string)
    requires forall c | c in code :: Digit(c)
    ensures Stripped(code) == code
  {
    if code != [] {
      assert Digit(code[0]);
      DigitsAreNotSpaces(code[1..]);
      assert code == [code[0]] + code[1..];
    }
  }

  /** A generated secret yields, at any writable moment, a code that verifies for 30 seconds before and after. */
  lemma GeneratedSecretsVerify(hmac: Hmac, upper: string -> string, random: seq<Byte>, t: Time, now: Time)
    requires KeepsAlphabet(upper) && now - 30_000 <= t <= now + 30_000
    requires forall c | Counter(now) - 1 <= c <= Counter(now) + 1 :: CounterBytes(c).Some?
    ensures var code := CodeAt(hmac, upper, Encode(random), t);
      code.Ok? && Verified(hmac, upper, Encode(random), code.value, now) == Ok(true)
  {
    RoundTrip(upper, random);
    NearbyCounters(t, now);
    assert Counter(now - PERIOD_MS) == Counter(now) - 1 && Counter(now + PERIOD_MS) == Counter(now) + 1;
    var code := CodeAt(hmac, upper, Encode(random), t);
    CodeHasSixDigits(Truncated(hmac(random, CounterBytes(Counter(t)).value)));
    DigitsAreNotSpaces(code.value);
    VerifiesExactlyNearbyCodes(hmac, upper, Encode(random), code.value, now);
  }

  // ---------------------------------------------------------------- the service

  method WriteUInt32BE(buffer: array<Byte>, value: int, offset: nat) returns (ok: bool)
    requires offset + 4 <= buffer.Length
    modifies buffer
    ensures ok <==> 0 <= value < TWO_32
    ensures ok ==> buffer[..] == old(buffer[..offset]) + UInt32BE(value) + old(buffer[offset + 4..])
    ensures !ok ==> buffer[..] == old(buffer[..])
  {
    if !(0 <= value < TWO_32) { return false; }
    var rest := value;
    buffer[offset + 3], rest := rest % 0x100, rest / 0x100;
    buffer[offset + 2], rest := rest % 0x100, rest / 0x100;
    buffer[offset + 1], rest := rest % 0x100, rest / 0x100;
    buffer[offset] := rest;
    return true;
  }

  class TotpService {
    const hmac: Hmac
    const toUpperCase: string -> string

    constructor (hmac: Hmac, toUpperCase: string -> string)
      ensures this.hmac == hmac && this.toUpperCase == toUpperCase
    {
      this.hmac, this.toUpperCase := hmac, toUpperCase;
    }

    method GenerateCode(secret: string, now: Time) returns (r: Result<string, Error>)
      ensures r == CodeAt(hmac, toUpperCase, secret, now)
    {
      var counter := Counter(now);
      var buffer := new Byte[8](_ => 0);
      var ok := WriteUInt32BE(buffer, counter / TWO_32, 0);
      if !ok { return Err(CounterOutOfRange); }
      assert buffer[..4] == UInt32BE(counter / TWO_32);
      ok := WriteUInt32BE(buffer, ToInt32(counter), 4);
      if !ok { return Err(CounterOutOfRange); }
      assert buffer[..] == UInt32BE(counter / TWO_32) + UInt32BE(ToInt32(counter));
      var key := DecodeBase32(toUpperCase, secret);
      if key.None? { return Err(InvalidSecret); }
      var mac := hmac(key.value, buffer[..]);
      return Ok(SixDigits(Truncated(mac)));
    }

    method Verify(secret: string, code: string, now: Time) returns (r: Result<bool, Error>)
      ensures r == Verified(hmac, toUpperCase, secret, code, now)
    {
      var normalized := Stripped(code);
      if !IsCode(normalized) { return Ok(false); }
      var before := GenerateCode(secret, now - PERIOD_MS);
      var current := GenerateCode(secret, now);
      var after := GenerateCode(secret, now + PERIOD_MS);
      return AnyEqual(before, current, after, normalized);
    }
  }
}
