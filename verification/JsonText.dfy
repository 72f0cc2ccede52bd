/** JSON values and their text: the quoting and printing that `JSON.stringify` does, over UTF-16 code units. */
module JsonText {
  import opened Prelude

  type Unit = u: int | 0 <= u <= 0xFFFF
  type Text = seq<Unit>

  const QUOTE: Unit := 0x22
  const COMMA: Unit := 0x2C
  const COLON: Unit := 0x3A
  const LOWER_A: Unit := 0x61
  const BACKSLASH: Unit := 0x5C
  const OPEN_LIST: Unit := 0x5B
  const CLOSE_LIST: Unit := 0x5D
  const OPEN_OBJECT: Unit := 0x7B
  const CLOSE_OBJECT: Unit := 0x7D
  const NULL: Text := [0x6E, 0x75, 0x6C, 0x6C]
  const TRUE: Text := [0x74, 0x72, 0x75, 0x65]
  const FALSE: Text := [0x66, 0x61, 0x6C, 0x73, 0x65]
  const UNDEFINED: Text := [0x75, 0x6E, 0x64, 0x65, 0x66, 0x69, 0x6E, 0x65, 0x64]

  datatype Entry<+V> = Entry(key: Text, value: V)

  /** A value; a number is known by its digits, and a member without a value is `undefined`. */
  datatype Json =
    | Null
    | Bool(flag: bool)
    | Number(digits: Text)
    | String(text: Text)
    | List(items: seq<Json>)
    | Object(members: seq<Entry<Option<Json>>>)

  // ---------------------------------------------------------------- strings

  function UnicodeEscape(u: Unit): Text {
    var h := u / 16;
    var g := h / 16;
    [BACKSLASH, 0x75] + [HexDigit(g / 16, LOWER_A), HexDigit(g % 16, LOWER_A), HexDigit(h % 16, LOWER_A), HexDigit(u % 16, LOWER_A)]
  }

  predicate High(u: Unit) { 0xD800 <= u <= 0xDBFF }

  predicate Low(u: Unit) { 0xDC00 <= u <= 0xDFFF }

  /** The short escapes: backspace, tab, newline, form feed, carriage return, quote, backslash. */
  function ShortEscape(u: Unit): Option<Unit> {
    if u == 0x08 then Some(0x62)
    else if u == 0x09 then Some(0x74)
    else if u == 0x0A then Some(0x6E)
    else if u == 0x0C then Some(0x66)
    else if u == 0x0D then Some(0x72)
    else if u == QUOTE || u == BACKSLASH then Some(u)
    else None
  }

  /** One code unit that is not half of a surrogate pair. */
  function Escaped(u: Unit): Text {
    if ShortEscape(u).Some? then [BACKSLASH, ShortEscape(u).value]
    else if u < 0x20 || High(u) || Low(u) then UnicodeEscape(u)
    else [u]
  }

  function Body(s: Text): Text {
    if s == [] then []
    else if |s| >= 2 && High(s[0]) && Low(s[1]) then s[..2] + Body(s[2..])
    else Escaped(s[0]) + Body(s[1..])
  }

  function Quote(s: Text): Text {
    [QUOTE] + Body(s) + [QUOTE]
  }

  function Unescape(u: Unit): Option<Unit> {
    if u == 0x62 then Some(0x08)
    else if u == 0x74 then Some(0x09)
    else if u == 0x6E then Some(0x0A)
    else if u == 0x66 then Some(0x0C)
    else if u == 0x72 then Some(0x0D)
    else if u == QUOTE || u == BACKSLASH then Some(u)
    else None
  }

  function Unhex(t: Text): Option<Unit>
    requires |t| == 4
  {
    var a, b, c, d := HexValue(t[0]), HexValue(t[1]), HexValue(t[2]), HexValue(t[3]);
    if a.None? || b.None? || c.None? || d.None? then None
    else
      Some(((a.value * 16 + b.value) * 16 + c.value) * 16 + d.value)
  }

  /** Reads a string after its opening quote; gives its units and what follows its closing quote. */
  function ReadBody(t: Text): Option<(Text, Text)> {
    if t == [] then None
    else if t[0] == QUOTE then Some(([], t[1..]))
    else if t[0] != BACKSLASH then Before(t[0], ReadBody(t[1..]))
    else if |t| < 2 then None
    else if t[1] == 0x75 then
      if |t| < 6 || Unhex(t[2..6]).None? then None else Before(Unhex(t[2..6]).value, ReadBody(t[6..]))
    else if Unescape(t[1]).None? then None
    else Before(Unescape(t[1]).value, ReadBody(t[2..]))
  }

  function Before(u: Unit, rest: Option<(Text, Text)>): Option<(Text, Text)> {
    if rest.None? then None else Some(([u] + rest.value.0, rest.value.1))
  }

  lemma UnhexRoundTrip(u: Unit)
    ensures Unhex(UnicodeEscape(u)[2..]) == Some(u)
  {
    var h := u / 16;
    var g := h / 16;
    HexRoundTrip(g / 16, LOWER_A);
    HexRoundTrip(g % 16, LOWER_A);
    HexRoundTrip(h % 16, LOWER_A);
    HexRoundTrip(u % 16, LOWER_A);
  }

  lemma ReadPlain(u: Unit, rest: Text)
    requires u != QUOTE && u != BACKSLASH
    ensures ReadBody([u] + rest) == Before(u, ReadBody(rest))
  {
    assert ([u] + rest)[1..] == rest;
  }

  lemma ReadEscaped(u: Unit, rest: Text)
    ensures ReadBody(Escaped(u) + rest) == Before(u, ReadBody(rest))
  {
    var t := Escaped(u) + rest;
    if ShortEscape(u).Some? {
      assert t[2..] == rest;
    } else if u < 0x20 || High(u) || Low(u) {
      UnhexRoundTrip(u);
      assert t[2..6] == UnicodeEscape(u)[2..] && t[6..] == rest;
    } else {
      ReadPlain(u, rest);
    }
  }

  lemma PairStep(s: Text, tail: Text, rest: Text)
    requires |s| >= 2 && High(s[0]) && Low(s[1])
    requires ReadBody(Body(s[2..]) + tail) == Some((s[2..], rest))
    ensures ReadBody(Body(s) + tail) == Some((s, rest))
  {
    var after := Body(s[2..]) + tail;
    ReadPlain(s[1], after);
    ReadPlain(s[0], [s[1]] + after);
    assert Body(s) + tail == [s[0]] + ([s[1]] + after);
    assert [s[0]] + ([s[1]] + s[2..]) == s;
  }

  lemma UnitStep(s: Text, tail: Text, rest: Text)
    requires |s| >= 1 && !(|s| >= 2 && High(s[0]) && Low(s[1]))
    requires ReadBody(Body(s[1..]) + tail) == Some((s[1..], rest))
    ensures ReadBody(Body(s) + tail) == Some((s, rest))
  {
    var after := Body(s[1..]) + tail;
    ReadEscaped(s[0], after);
    assert Body(s) + tail == Escaped(s[0]) + after;
    assert [s[0]] + s[1..] == s;
  }

  /** Reading a quoted string gives it back, whatever follows it and whatever units it holds. */
  lemma {:induction false} QuoteRoundTrip(s: Text, rest: Text)
    ensures ReadBody(Body(s) + ([QUOTE] + rest)) == Some((s, rest))
  {
    var tail := [QUOTE] + rest;
    if s == [] {
      assert Body(s) + tail == tail && tail[1..] == rest;
    } else if |s| >= 2 && High(s[0]) && Low(s[1]) {
      QuoteRoundTrip(s[2..], rest);
      PairStep(s, tail, rest);
    } else {
      QuoteRoundTrip(s[1..], rest);
      UnitStep(s, tail, rest);
    }
  }

  lemma QuoteTail(a: Text, r: Text)
    ensures |Quote(a) + r| > 0 && (Quote(a) + r)[1..] == Body(a) + ([QUOTE] + r)
  {
    assert Quote(a) + r == [QUOTE] + (Body(a) + ([QUOTE] + r));
  }

  lemma QuotePrefix(a: Text, b: Text, r: Text, s: Text)
    requires Quote(a) + r == Quote(b) + s
    ensures a == b && r == s
  {
    QuoteTail(a, r);
    QuoteTail(b, s);
    QuoteRoundTrip(a, r);
    QuoteRoundTrip(b, s);
  }

  /** The code units of ASCII text. */
  function Units(s: string): (t: Text)
    requires forall i | 0 <= i < |s| :: s[i] as int < 0x80
    ensures |t| == |s| && forall i | 0 <= i < |s| :: t[i] == s[i] as int
  {
    seq(|s|, i requires 0 <= i < |s| && s[i] as int < 0x80 => s[i] as int)
  }

  /** A quoted string is written unit by unit between two quotes. */
  lemma QuotesJson(u: Unit, s: Text)
    requires !(High(u) && s != [] && Low(s[0]))
    ensures Quote([]) == ['\"' as int, '\"' as int]
    ensures Quote([u] + s) == ['\"' as int] + Escaped(u) + Quote(s)[1..]
  {
    hide Escaped;
    var t := [u] + s;
    assert t[1..] == s && t[0] == u;
    assert Body(t) == Escaped(u) + Body(s);
    assert Quote(s)[1..] == Body(s) + [QUOTE];
  }

  /** A surrogate pair is written as it is. */
  lemma QuotesPairs(high: Unit, low: Unit, s: Text)
    requires High(high) && Low(low)
    ensures Quote([high, low] + s) == ['\"' as int, high, low] + Quote(s)[1..]
  {
    hide Escaped;
    var t := [high, low] + s;
    assert t[2..] == s && t[..2] == [high, low];
    assert Body(t) == [high, low] + Body(s);
    assert Quote(s)[1..] == Body(s) + [QUOTE];
  }

  /**
   * Quote and backslash are escaped by a backslash, five control characters by their letter, other control characters
   * and lone surrogates by four lower-case digits; nothing else is escaped.
   */
  lemma EscapesJson(u: Unit)
    ensures Escaped(u) ==
      if u == '\"' as int || u == '\\' as int then ['\\' as int, u]
      else if u == 8 then ['\\' as int, 'b' as int] else if u == 9 then ['\\' as int, 't' as int]
      else if u == 10 then ['\\' as int, 'n' as int] else if u == 12 then ['\\' as int, 'f' as int]
      else if u == 13 then ['\\' as int, 'r' as int]
      else if u < 0x20 || 0xD800 <= u <= 0xDFFF then UnicodeEscape(u)
      else [u]
  {
  }

  function LowerDigit(n: nat): int
    requires n < 16
  {
    "0123456789abcdef"[n] as int
  }

  lemma HexDigitIsLower(n: nat)
    requires n < 16
    ensures HexDigit(n, LOWER_A) == LowerDigit(n)
  {
  }

  /** The four digits are those of the unit, the highest first. */
  lemma FourDigits(u: Unit, a: nat, b: nat, c: nat, d: nat)
    requires a < 16 && b < 16 && c < 16 && d < 16 && u == ((a * 16 + b) * 16 + c) * 16 + d
    ensures UnicodeEscape(u) == ['\\' as int, 'u' as int, LowerDigit(a), LowerDigit(b), LowerDigit(c), LowerDigit(d)]
  {
    var h := u / 16;
    var g := h / 16;
    assert g / 16 == a && g % 16 == b && h % 16 == c && u % 16 == d;
    hide HexDigit, LowerDigit;
    HexDigitIsLower(a);
    HexDigitIsLower(b);
    HexDigitIsLower(c);
    HexDigitIsLower(d);
  }

  // ---------------------------------------------------------------- values

  predicate NumberUnit(u: Unit) {
    0x30 <= u <= 0x39 || u == 0x2B || u == 0x2D || u == 0x2E || u == 0x65 || u == 0x45
  }

  /** Every number in the value is written with number characters, beginning with a digit or a minus. */
  ghost predicate Wellformed(v: Json) {
    match v
    case Number(digits) =>
      digits != [] && (0x30 <= digits[0] <= 0x39 || digits[0] == 0x2D) && forall u | u in digits :: NumberUnit(u)
    case List(items) => forall i | 0 <= i < |items| :: Wellformed(items[i])
    case Object(members) => forall i | 0 <= i < |members| :: members[i].value.Some? ==> Wellformed(members[i].value.value)
    case _ => true
  }

  function Join(texts: seq<Text>): Text {
    if texts == [] then []
    else if |texts| == 1 then texts[0]
    else texts[0] + [COMMA] + Join(texts[1..])
  }

  /** `"key":text` for each entry. */
  function Pairs(entries: seq<Entry<Text>>): seq<Text> {
    if entries == [] then [] else [Quote(entries[0].key) + [COLON] + entries[0].value] + Pairs(entries[1..])
  }

  /** The text of a value with its members in the order it has them. */
  function Print(v: Json): Text
    decreases v
  {
    match v
    case Null => NULL
    case Bool(flag) => if flag then TRUE else FALSE
    case Number(digits) => digits
    case String(text) => Quote(text)
    case List(items) => [OPEN_LIST] + Join(PrintEach(items)) + [CLOSE_LIST]
    case Object(members) => [OPEN_OBJECT] + Join(Pairs(PrintMembers(members))) + [CLOSE_OBJECT]
  }

  function PrintEach(items: seq<Json>): seq<Text>
    decreases items
  {
    if items == [] then [] else [Print(items[0])] + PrintEach(items[1..])
  }

  function PrintSlot(slot: Option<Json>): Text
    decreases slot
  {
    if slot.None? then UNDEFINED else Print(slot.value)
  }

  function PrintMembers(members: seq<Entry<Option<Json>>>): seq<Entry<Text>>
    decreases members
  {
    if members == [] then []
    else [Entry(members[0].key, PrintSlot(members[0].value))] + PrintMembers(members[1..])
  }

  /** The text of the values that hold no others, and of empty lists and objects. */
  lemma PrintsScalars(text: Text)
    ensures Print(Null) == Units("null") && Print(Bool(true)) == Units("true") && Print(Bool(false)) == Units("false")
    ensures Print(Number(text)) == text && Print(String(text)) == Quote(text)
    ensures Print(List([])) == Units("[]") && Print(Object([])) == Units("{}")
    ensures PrintSlot(None) == Units("undefined")
  {
  }

  /** The text of a list, item by item. */
  lemma PrintsItems(v: Json, items: seq<Json>)
    ensures Print(List([v] + items)) ==
      ['[' as int] + Print(v) + (if items == [] then [] else [',' as int]) + Print(List(items))[1..]
  {
    assert ([v] + items)[1..] == items;
    assert PrintEach([v] + items) == [Print(v)] + PrintEach(items);
    assert Print(List(items))[1..] == Join(PrintEach(items)) + [CLOSE_LIST];
    hide Print;
    JoinFirst(Print(v), PrintEach(items));
  }

  /** The text of an object, member by member in the order it has them. */
  lemma PrintsMembers(key: Text, slot: Option<Json>, members: seq<Entry<Option<Json>>>)
    ensures Print(Object([Entry(key, slot)] + members)) ==
      ['{' as int] + Quote(key) + [':' as int] + PrintSlot(slot) + (if members == [] then [] else [',' as int])
      + Print(Object(members))[1..]
  {
    var rest, pair := Pairs(PrintMembers(members)), Quote(key) + [COLON] + PrintSlot(slot);
    MemberFirst(Entry(key, slot), members);
    assert rest == [] <==> members == [];
    ObjectText(members);
    ObjectText([Entry(key, slot)] + members);
    hide Print, PrintSlot, Quote, Join, Pairs, PrintMembers;
    JoinFirst(pair, rest);
    assert Print(Object(members))[1..] == Join(rest) + [CLOSE_OBJECT];
    Pieces([OPEN_OBJECT], Quote(key), [COLON], PrintSlot(slot), if rest == [] then [] else [COMMA], Join(rest), [CLOSE_OBJECT]);
  }

  lemma Pieces(a: Text, b: Text, c: Text, d: Text, e: Text, f: Text, g: Text)
    ensures a + (b + c + d + e + f) + g == a + b + c + d + e + (f + g)
  {
  }

  lemma ObjectText(members: seq<Entry<Option<Json>>>)
    ensures Print(Object(members)) == [OPEN_OBJECT] + Join(Pairs(PrintMembers(members))) + [CLOSE_OBJECT]
  {
  }

  lemma JoinFirst(text: Text, texts: seq<Text>)
    ensures Join([text] + texts) == text + (if texts == [] then [] else [COMMA]) + Join(texts)
  {
    assert ([text] + texts)[1..] == texts;
  }

  lemma MemberFirst(member: Entry<Option<Json>>, members: seq<Entry<Option<Json>>>)
    ensures Pairs(PrintMembers([member] + members))
         == [Quote(member.key) + [COLON] + PrintSlot(member.value)] + Pairs(PrintMembers(members))
  {
    assert ([member] + members)[1..] == members;
    var texts := PrintMembers([member] + members);
    assert texts[1..] == PrintMembers(members);
  }

  /** What may follow a value: the end, a comma or a closing bracket. */
  ghost predicate Stops(r: Text) {
    r == [] || r[0] == COMMA || r[0] == CLOSE_LIST || r[0] == CLOSE_OBJECT
  }

  ghost function LeadingDigits(t: Text): nat {
    if t == [] || !NumberUnit(t[0]) then 0 else 1 + LeadingDigits(t[1..])
  }

  lemma {:induction false} DigitsEndAtStop(a: Text, r: Text)
    requires Stops(r) && forall u | u in a :: NumberUnit(u)
    ensures LeadingDigits(a + r) == |a|
  {
    if a == [] {
      assert a + r == r;
    } else {
      DigitsEndAtStop(a[1..], r);
      assert (a + r)[1..] == a[1..] + r;
    }
  }

  lemma DigitsPrefix(a: Text, b: Text, r: Text, s: Text)
    requires a + r == b + s && Stops(r) && Stops(s)
    requires (forall u | u in a :: NumberUnit(u)) && (forall u | u in b :: NumberUnit(u))
    ensures a == b && r == s
  {
    DigitsEndAtStop(a, r);
    DigitsEndAtStop(b, s);
    assert a == (a + r)[..|a|] && b == (b + s)[..|b|];
    assert r == (a + r)[|a|..] && s == (b + s)[|b|..];
  }

  /** The kind of a value shows in the first unit of its text. */
  function Opening(v: Json): (u: Unit)
    ensures u != CLOSE_LIST && u != UNDEFINED[0]
  {
    match v
    case Null => NULL[0]
    case Bool(flag) => if flag then TRUE[0] else FALSE[0]
    case Number(digits) => 0x30
    case String(text) => QUOTE
    case List(items) => OPEN_LIST
    case Object(members) => OPEN_OBJECT
  }

  lemma PrintOpens(v: Json, r: Text)
    requires Wellformed(v)
    ensures Print(v) != [] && (Print(v) + r)[0] == Print(v)[0]
    ensures if v.Number? then 0x30 <= Print(v)[0] <= 0x39 || Print(v)[0] == 0x2D else Print(v)[0] == Opening(v)
  {
  }

  lemma KindsAgree(v: Json, w: Json, r: Text, s: Text)
    requires Wellformed(v) && Wellformed(w) && Print(v) + r == Print(w) + s
    ensures Opening(v) == Opening(w)
  {
    PrintOpens(v, r);
    PrintOpens(w, s);
  }

  lemma WordPrefix(word: Text, r: Text, s: Text)
    requires word + r == word + s
    ensures r == s
  {
    assert r == (word + r)[|word|..];
    assert s == (word + s)[|word|..];
  }

  lemma Inside(open: Unit, a: Text, b: Text, close: Unit, r: Text, s: Text)
    requires [open] + a + [close] + r == [open] + b + [close] + s
    ensures a + [close] + r == b + [close] + s
  {
    assert [open] + a + [close] + r == [open] + (a + [close] + r);
    assert [open] + b + [close] + s == [open] + (b + [close] + s);
    WordPrefix([open], a + [close] + r, b + [close] + s);
  }

  /** No text of a value is a proper prefix of another in place, and equal texts are equal values. */
  lemma {:induction false} PrintPrefix(v: Json, w: Json, r: Text, s: Text)
    requires Wellformed(v) && Wellformed(w) && Stops(r) && Stops(s)
    requires Print(v) + r == Print(w) + s
    ensures v == w && r == s
    decreases v
  {
    KindsAgree(v, w, r, s);
    match v
    case Null => WordPrefix(NULL, r, s);
    case Bool(flag) => WordPrefix(Print(v), r, s);
    case Number(digits) => DigitsPrefix(digits, w.digits, r, s);
    case String(text) => QuotePrefix(text, w.text, r, s);
    case List(items) =>
      Inside(OPEN_LIST, Join(PrintEach(items)), Join(PrintEach(w.items)), CLOSE_LIST, r, s);
      EachPrefix(items, w.items, r, s);
    case Object(members) =>
      Inside(OPEN_OBJECT, Join(Pairs(PrintMembers(members))), Join(Pairs(PrintMembers(w.members))), CLOSE_OBJECT, r, s);
      MembersPrefix(members, w.members, r, s);
  }

  ghost function AfterFirst(texts: seq<Text>, close: Unit, r: Text): Text
    requires texts != []
  {
    if |texts| == 1 then [close] + r else [COMMA] + (Join(texts[1..]) + [close] + r)
  }

  lemma JoinSplits(texts: seq<Text>, close: Unit, r: Text)
    requires texts != []
    ensures Join(texts) + [close] + r == texts[0] + AfterFirst(texts, close, r)
  {
  }

  lemma AfterFirstAgrees(a: seq<Text>, b: seq<Text>, close: Unit, r: Text, s: Text)
    requires a != [] && b != [] && close != COMMA
    requires AfterFirst(a, close, r) == AfterFirst(b, close, s)
    ensures |a| == 1 <==> |b| == 1
    ensures Join(a[1..]) + [close] + r == Join(b[1..]) + [close] + s
  {
    assert AfterFirst(a, close, r)[0] == AfterFirst(b, close, s)[0];
    assert AfterFirst(a, close, r)[1..] == AfterFirst(b, close, s)[1..];
    if |a| == 1 { assert a[1..] == [] == b[1..]; }
  }

  lemma EachOpens(a: seq<Json>, r: Text)
    requires forall i | 0 <= i < |a| :: Wellformed(a[i])
    ensures var t := Join(PrintEach(a)) + [CLOSE_LIST] + r; (a == [] <==> t[0] == CLOSE_LIST) && (a == [] ==> t[1..] == r)
  {
    if a != [] {
      JoinSplits(PrintEach(a), CLOSE_LIST, r);
      PrintOpens(a[0], AfterFirst(PrintEach(a), CLOSE_LIST, r));
    }
  }

  lemma {:induction false} EachPrefix(a: seq<Json>, b: seq<Json>, r: Text, s: Text)
    requires forall i | 0 <= i < |a| :: Wellformed(a[i])
    requires forall i | 0 <= i < |b| :: Wellformed(b[i])
    requires Stops(r) && Stops(s)
    requires Join(PrintEach(a)) + [CLOSE_LIST] + r == Join(PrintEach(b)) + [CLOSE_LIST] + s
    ensures a == b && r == s
    decreases a
  {
    EachOpens(a, r);
    EachOpens(b, s);
    if a != [] {
      var x, y := PrintEach(a), PrintEach(b);
      JoinSplits(x, CLOSE_LIST, r);
      JoinSplits(y, CLOSE_LIST, s);
      PrintPrefix(a[0], b[0], AfterFirst(x, CLOSE_LIST, r), AfterFirst(y, CLOSE_LIST, s));
      AfterFirstAgrees(x, y, CLOSE_LIST, r, s);
      EachPrefix(a[1..], b[1..], r, s);
      assert a == [a[0]] + a[1..] && b == [b[0]] + b[1..];
    }
  }

  lemma {:induction false} SlotPrefix(a: Option<Json>, b: Option<Json>, r: Text, s: Text)
    requires a.Some? ==> Wellformed(a.value)
    requires b.Some? ==> Wellformed(b.value)
    requires Stops(r) && Stops(s)
    requires PrintSlot(a) + r == PrintSlot(b) + s
    ensures a == b && r == s
    decreases a
  {
    if a.Some? { PrintOpens(a.value, r); }
    if b.Some? { PrintOpens(b.value, s); }
    if a.Some? && b.Some? {
      PrintPrefix(a.value, b.value, r, s);
    } else {
      assert (UNDEFINED + r)[0] == UNDEFINED[0] == (UNDEFINED + s)[0];
      WordPrefix(UNDEFINED, r, s);
    }
  }

  ghost predicate MembersWellformed(members: seq<Entry<Option<Json>>>) {
    forall i | 0 <= i < |members| :: members[i].value.Some? ==> Wellformed(members[i].value.value)
  }

  lemma MembersOpen(a: seq<Entry<Option<Json>>>, r: Text)
    ensures var t := Join(Pairs(PrintMembers(a))) + [CLOSE_OBJECT] + r;
      (a == [] <==> t[0] == CLOSE_OBJECT) && (a == [] ==> t[1..] == r)
  {
    if a != [] { JoinSplits(Pairs(PrintMembers(a)), CLOSE_OBJECT, r); }
  }

  lemma {:induction false} MembersPrefix(a: seq<Entry<Option<Json>>>, b: seq<Entry<Option<Json>>>, r: Text, s: Text)
    requires MembersWellformed(a) && MembersWellformed(b) && Stops(r) && Stops(s)
    requires Join(Pairs(PrintMembers(a))) + [CLOSE_OBJECT] + r == Join(Pairs(PrintMembers(b))) + [CLOSE_OBJECT] + s
    ensures a == b && r == s
    decreases a
  {
    MembersOpen(a, r);
    MembersOpen(b, s);
    if a != [] {
      var x, y := Pairs(PrintMembers(a)), Pairs(PrintMembers(b));
      JoinSplits(x, CLOSE_OBJECT, r);
      JoinSplits(y, CLOSE_OBJECT, s);
      MemberPrefix(a[0], b[0], AfterFirst(x, CLOSE_OBJECT, r), AfterFirst(y, CLOSE_OBJECT, s));
      AfterFirstAgrees(x, y, CLOSE_OBJECT, r, s);
      MembersPrefix(a[1..], b[1..], r, s);
      assert a == [a[0]] + a[1..] && b == [b[0]] + b[1..];
    }
  }

  lemma KeyThenValue(key: Text, value: Text, r: Text)
    ensures Quote(key) + [COLON] + value + r == Quote(key) + ([COLON] + (value + r))
  {
  }

  lemma {:induction false} MemberPrefix(a: Entry<Option<Json>>, b: Entry<Option<Json>>, r: Text, s: Text)
    requires a.value.Some? ==> Wellformed(a.value.value)
    requires b.value.Some? ==> Wellformed(b.value.value)
    requires Stops(r) && Stops(s)
    requires Quote(a.key) + [COLON] + PrintSlot(a.value) + r == Quote(b.key) + [COLON] + PrintSlot(b.value) + s
    ensures a == b && r == s
    decreases a
  {
    KeyThenValue(a.key, PrintSlot(a.value), r);
    KeyThenValue(b.key, PrintSlot(b.value), s);
    QuotePrefix(a.key, b.key, [COLON] + (PrintSlot(a.value) + r), [COLON] + (PrintSlot(b.value) + s));
    WordPrefix([COLON], PrintSlot(a.value) + r, PrintSlot(b.value) + s);
    SlotPrefix(a.value, b.value, r, s);
  }

  /** Printing is injective. */
  lemma PrintInjective(v: Json, w: Json)
    requires Wellformed(v) && Wellformed(w) && Print(v) == Print(w)
    ensures v == w
  {
    assert Print(v) + [] == Print(w) + [];
    PrintPrefix(v, w, [], []);
  }
}
