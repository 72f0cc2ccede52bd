/**
 * Canonical action paths and their patterns: `validateActionPath`, `validatePathPattern` and `pathMatches`
 * in src/notifications/notification-action-targets.service.ts.
 */
module ActionPaths {
  import opened Prelude
  import opened UriText

  const SLASH: Point := 0x2F
  const DOT: Point := 0x2E
  const STAR: Point := 0x2A
  const WILDCARD: Text := [SLASH, STAR, STAR]

  predicate StartsWith(s: Text, prefix: Text) { |prefix| <= |s| && s[..|prefix|] == prefix }

  predicate EndsWith(s: Text, suffix: Text) { |suffix| <= |s| && s[|s| - |suffix|..] == suffix }

  /** A backslash, a question mark or a hash. */
  predicate Delimiter(p: Point) { p == 0x5C || p == 0x3F || p == 0x23 }

  predicate Control(p: Point) { p <= 0x1F || p == 0x7F }

  predicate DotSegment(segment: Text) { segment == [DOT] || segment == [DOT, DOT] }

  predicate DoubleSlash(s: Text) {
    |s| >= 2 && ((s[0] == SLASH && s[1] == SLASH) || DoubleSlash(s[1..]))
  }

  // ---------------------------------------------------------------- segments

  function Split(s: Text): (segments: seq<Text>)
    ensures segments != []
  {
    if s == [] then [[]]
    else
      var rest := Split(s[1..]);
      if s[0] == SLASH then [[]] + rest else [[s[0]] + rest[0]] + rest[1..]
  }

  function Join(segments: seq<Text>): Text {
    if segments == [] then []
    else if |segments| == 1 then segments[0]
    else segments[0] + ([SLASH] + Join(segments[1..]))
  }

  function EncodeAll(segments: seq<Text>): (r: Option<seq<Text>>)
    ensures r.Some? ==> |r.value| == |segments|
  {
    if segments == [] then Some([])
    else if Encode(segments[0]).None? || EncodeAll(segments[1..]).None? then None
    else Some([Encode(segments[0]).value] + EncodeAll(segments[1..]).value)
  }

  // ---------------------------------------------------------------- the validator

  function ValidateActionPath(path: Text): Option<Text> {
    if !StartsWith(path, [SLASH]) || StartsWith(path, [SLASH, SLASH])
       || exists i | 0 <= i < |path| :: Delimiter(path[i]) then None
    else
      var decoded := Decode(path);
      if decoded.None? then None
      else if Decode(decoded.value).Some? && Decode(decoded.value) != decoded then None
      else if Unsafe(decoded.value) then None
      else
        var canonical := EncodeAll(Split(decoded.value));
        if canonical.None? || Join(canonical.value) != path then None else Some(Join(canonical.value))
  }

  predicate Unsafe(decoded: Text) {
    || StartsWith(decoded, [SLASH, SLASH])
    || DoubleSlash(decoded)
    || (exists i | 0 <= i < |decoded| :: Delimiter(decoded[i]) || Control(decoded[i]))
    || (exists i | 0 <= i < |Split(decoded)| :: DotSegment(Split(decoded)[i]))
  }

  function PatternBase(pattern: Text): Text {
    if EndsWith(pattern, WILDCARD) then
      var prefix := pattern[..|pattern| - 3];
      if prefix == [] then [SLASH] else prefix
    else pattern
  }

  predicate ValidPathPattern(pattern: Text) {
    (STAR in pattern ==> EndsWith(pattern, WILDCARD)) && ValidateActionPath(PatternBase(pattern)).Some?
  }

  predicate PathMatches(pattern: Text, path: Text) {
    if !EndsWith(pattern, WILDCARD) then pattern == path
    else path == PatternBase(pattern) || StartsWith(path, PatternBase(pattern) + [SLASH])
  }

  // ---------------------------------------------------------------- splitting and joining

  predicate SlashFree(segment: Text) { SLASH !in segment }

  lemma {:induction false} JoinSplit(s: Text)
    ensures Join(Split(s)) == s
  {
    if s != [] {
      JoinSplit(s[1..]);
      var rest := Split(s[1..]);
      if s[0] == SLASH {
        assert ([[]] + rest)[1..] == rest;
      } else {
        assert ([[s[0]] + rest[0]] + rest[1..])[1..] == rest[1..];
      }
      assert s == [s[0]] + s[1..];
    }
  }

  lemma {:induction false} SplitJoin(segments: seq<Text>)
    requires segments != [] && forall i | 0 <= i < |segments| :: SlashFree(segments[i])
    ensures Split(Join(segments)) == segments
  {
    if |segments| == 1 {
      SplitSegment(segments[0]);
      assert segments == [segments[0]];
    } else {
      SplitJoin(segments[1..]);
      SplitAfter(segments[0], Join(segments[1..]));
      assert segments == [segments[0]] + segments[1..];
    }
  }

  lemma {:induction false} SplitSegment(a: Text)
    requires SlashFree(a)
    ensures Split(a) == [a]
  {
    if a != [] {
      SplitSegment(a[1..]);
      assert a == [a[0]] + a[1..];
    }
  }

  lemma {:induction false} SplitAfter(a: Text, rest: Text)
    requires SlashFree(a)
    ensures Split(a + ([SLASH] + rest)) == [a] + Split(rest)
  {
    var s := a + ([SLASH] + rest);
    if a == [] {
      assert s == [SLASH] + rest && s[1..] == rest;
    } else {
      SplitAfter(a[1..], rest);
      assert s[1..] == a[1..] + ([SLASH] + rest);
      assert a == [a[0]] + a[1..];
      assert ([a[1..]] + Split(rest))[1..] == Split(rest);
    }
  }

  lemma {:induction false} SplitIsSlashFree(s: Text)
    ensures forall i | 0 <= i < |Split(s)| :: SlashFree(Split(s)[i])
  {
    if s != [] { SplitIsSlashFree(s[1..]); }
  }

  // ---------------------------------------------------------------- which paths are accepted

  /** What a segment of an accepted path may be, once decoded. */
  ghost predicate GoodSegment(segment: Text) {
    && segment != ['.' as int] && segment != ['.' as int, '.' as int]
    && forall p | p in segment ::
         && p != '/' as int && p != '\\' as int && p != '?' as int && p != '#' as int
         && 0x20 <= p && p != 0x7F && !(0xD800 <= p <= 0xDFFF)
  }

  /**
   * The decoded segments of the accepted paths: an empty one before the leading slash, none empty
   * between two slashes, and no percent sign anywhere unless a second decoding would fail.
   */
  ghost predicate GoodSegments(segments: seq<Text>) {
    && |segments| >= 2
    && segments[0] == []
    && (forall i | 0 <= i < |segments| :: GoodSegment(segments[i]))
    && (forall i | 0 < i < |segments| - 1 :: segments[i] != [])
    && (PERCENT in Join(segments) ==> Decode(Join(segments)).None?)
  }

  lemma {:induction false} EncodeAllSucceeds(segments: seq<Text>)
    ensures EncodeAll(segments).Some? <==> forall i | 0 <= i < |segments| :: Encode(segments[i]).Some?
    ensures EncodeAll(segments).Some? ==>
      forall i | 0 <= i < |segments| :: Encode(segments[i]) == Some(EncodeAll(segments).value[i])
  {
    if segments != [] { EncodeAllSucceeds(segments[1..]); }
  }

  lemma EncodedSegmentIsClean(segment: Text)
    requires Encode(segment).Some?
    ensures SlashFree(Encode(segment).value)
    ensures forall p | p in Encode(segment).value :: !Delimiter(p)
  {
    EncodedIsClean(segment);
  }

  lemma DecodeSlash(rest: Text)
    ensures Decode([SLASH] + rest) == Before([SLASH], Decode(rest))
  {
    assert ([SLASH] + rest)[1..] == rest;
  }

  lemma DecodeOneMore(a: Text, t: Text, s: Text)
    requires Encode(a).Some? && Decode(t) == Some(s)
    ensures Decode(Encode(a).value + ([SLASH] + t)) == Some(a + ([SLASH] + s))
  {
    DecodeEncode(a, [SLASH] + t);
    DecodeSlash(t);
  }

  /** Segment by segment, decoding undoes encoding. */
  lemma {:induction false} DecodeJoined(segments: seq<Text>)
    requires segments != [] && EncodeAll(segments).Some?
    ensures Decode(Join(EncodeAll(segments).value)) == Some(Join(segments))
  {
    var encoded := EncodeAll(segments).value;
    if |segments| == 1 {
      DecodeEncode(segments[0], []);
      assert Encode(segments[0]).value + [] == encoded[0] && segments[0] + [] == segments[0];
    } else {
      DecodeJoined(segments[1..]);
      assert encoded[1..] == EncodeAll(segments[1..]).value;
      DecodeOneMore(segments[0], Join(encoded[1..]), Join(segments[1..]));
    }
  }

  /** Two slashes in a row are an empty segment that is neither the first nor the last. */
  lemma {:induction false} DoubleSlashIsEmptySegment(s: Text)
    ensures DoubleSlash(s) <==> exists i :: 0 < i < |Split(s)| - 1 && Split(s)[i] == []
  {
    if |s| >= 2 {
      DoubleSlashIsEmptySegment(s[1..]);
      var rest := Split(s[1..]);
      if s[0] == SLASH {
        assert Split(s) == [[]] + rest;
        assert forall i | 0 < i < |rest| :: Split(s)[i + 1] == rest[i];
        assert s[1] == SLASH <==> rest[0] == [] && |rest| >= 2;
        if s[1] == SLASH { assert Split(s)[1] == []; }
        if i :| 0 < i < |Split(s)| - 1 && Split(s)[i] == [] && i > 1 {
          assert rest[i - 1] == [];
        }
      } else {
        assert forall i | 0 < i < |rest| :: Split(s)[i] == rest[i];
      }
    }
  }

  lemma {:induction false} JoinHas(segments: seq<Text>, p: Point)
    requires segments != [] && p != SLASH
    ensures p in Join(segments) <==> exists i :: 0 <= i < |segments| && p in segments[i]
  {
    if |segments| > 1 {
      JoinHas(segments[1..], p);
      if i :| 0 <= i < |segments| && p in segments[i] {
        if i > 0 { assert p in segments[1..][i - 1]; }
      }
    }
  }

  /** A path that passes has good segments, and is their encoding. */
  lemma AcceptedHasGoodSegments(path: Text)
    requires ValidateActionPath(path).Some?
    ensures Decode(path).Some?
    ensures GoodSegments(Split(Decode(path).value)) && EncodeAll(Split(Decode(path).value)).Some?
    ensures path == Join(EncodeAll(Split(Decode(path).value)).value)
  {
    var decoded := Decode(path).value;
    var segments := Split(decoded);
    JoinSplit(decoded);
    AcceptedStartsEmpty(path);
    SplitIsSlashFree(decoded);
    EncodeAllSucceeds(segments);
    DoubleSlashIsEmptySegment(decoded);
    DecodeShortens(decoded);
    forall i | 0 <= i < |segments| ensures GoodSegment(segments[i]) {
      EncodeSucceeds(segments[i]);
      forall p | p in segments[i] ensures !Delimiter(p) && !Control(p) { SplitHas(decoded, i, p); }
    }
  }

  lemma SplitHas(s: Text, i: nat, p: Point)
    requires i < |Split(s)| && p in Split(s)[i]
    ensures p in s
  {
    SplitIsSlashFree(s);
    JoinSplit(s);
    JoinHas(Split(s), p);
  }

  lemma AcceptedStartsEmpty(path: Text)
    requires path != [] && path[0] == SLASH && Decode(path).Some?
    ensures var segments := Split(Decode(path).value); |segments| >= 2 && segments[0] == []
  {
    DecodeSlash(path[1..]);
    assert path == [SLASH] + path[1..];
    var decoded := Decode(path).value;
    assert decoded[0] == SLASH;
  }

  lemma PathOf(segments: seq<Text>)
    requires GoodSegments(segments) && EncodeAll(segments).Some?
    ensures var path := Join(EncodeAll(segments).value);
      && StartsWith(path, [SLASH]) && !StartsWith(path, [SLASH, SLASH])
      && forall i | 0 <= i < |path| :: !Delimiter(path[i])
  {
    var encoded := EncodeAll(segments).value;
    var path := Join(encoded);
    EncodeAllSucceeds(segments);
    assert encoded[0] == [];
    assert path == [SLASH] + Join(encoded[1..]);
    forall i | 0 <= i < |encoded| ensures SlashFree(encoded[i]) && forall p | p in encoded[i] :: !Delimiter(p) {
      EncodedSegmentIsClean(segments[i]);
    }
    forall i | 0 <= i < |path| ensures !Delimiter(path[i]) {
      if path[i] != SLASH { JoinHas(encoded, path[i]); }
    }
    SplitJoin(encoded);
    if StartsWith(path, [SLASH, SLASH]) {
      assert path[1..][0] == SLASH;
      assert Split(path)[1] == Split(path[1..])[0] == [];
      EncodedEmpty(segments[1]);
    }
  }

  lemma EncodedEmpty(segment: Text)
    requires Encode(segment).Some?
    ensures Encode(segment).value == [] <==> segment == []
  {
  }

  /** Good segments, encoded and joined, pass. */
  lemma GoodSegmentsAreAccepted(segments: seq<Text>)
    requires GoodSegments(segments) && EncodeAll(segments).Some?
    ensures ValidateActionPath(Join(EncodeAll(segments).value)) == Some(Join(EncodeAll(segments).value))
  {
    var path := Join(EncodeAll(segments).value);
    var decoded := Join(segments);
    PathOf(segments);
    DecodeJoined(segments);
    SplitJoin(segments);
    DecodeShortens(decoded);
    DoubleSlashIsEmptySegment(decoded);
    assert !DoubleSlash(decoded);
    forall i | 0 <= i < |decoded| ensures !Delimiter(decoded[i]) && !Control(decoded[i]) {
      if decoded[i] != SLASH { JoinHas(segments, decoded[i]); }
    }
  }

  /** The accepted paths are exactly the encodings of good segment lists. */
  lemma AcceptedExactly(path: Text)
    ensures ValidateActionPath(path).Some? <==>
            exists segments :: GoodSegments(segments) && EncodeAll(segments).Some? && path == Join(EncodeAll(segments).value)
  {
    if ValidateActionPath(path).Some? { AcceptedHasGoodSegments(path); }
    if segments :| GoodSegments(segments) && EncodeAll(segments).Some? && path == Join(EncodeAll(segments).value) {
      GoodSegmentsAreAccepted(segments);
    }
  }

  // ---------------------------------------------------------------- decoding an accepted path

  /** The decoded segments of a path. */
  function SegmentsOf(path: Text): seq<Text>
    requires Decode(path).Some?
  {
    Split(Decode(path).value)
  }

  /** Each segment of an accepted path is the encoding of one decoded segment, and decodes to it. */
  lemma SegmentsCorrespond(path: Text)
    requires ValidateActionPath(path).Some?
    ensures Decode(path).Some? && |Split(path)| == |SegmentsOf(path)|
    ensures forall i | 0 <= i < |Split(path)| ::
      Encode(SegmentsOf(path)[i]) == Some(Split(path)[i]) && Decode(Split(path)[i]) == Some(SegmentsOf(path)[i])
  {
    AcceptedHasGoodSegments(path);
    var segments := SegmentsOf(path);
    var encoded := EncodeAll(segments).value;
    EncodeAllSucceeds(segments);
    forall i | 0 <= i < |encoded| ensures SlashFree(encoded[i]) && Decode(encoded[i]) == Some(segments[i]) {
      EncodedSegmentIsClean(segments[i]);
      DecodeEncode(segments[i], []);
      assert encoded[i] + [] == encoded[i] && segments[i] + [] == segments[i];
    }
    SplitJoin(encoded);
  }

  /** Every destination has one accepted spelling: accepted paths that decode alike are the same path. */
  lemma OneSpelling(a: Text, b: Text)
    requires ValidateActionPath(a).Some? && ValidateActionPath(b).Some?
    ensures Decode(a).Some? && Decode(b).Some? && (Decode(a) == Decode(b) <==> a == b)
  {
    SegmentsCorrespond(a);
    SegmentsCorrespond(b);
    if Decode(a) == Decode(b) {
      assert Split(a) == Split(b);
      JoinSplit(a);
      JoinSplit(b);
    }
  }

  /** Decoding an accepted path a second time either changes nothing or fails: it never names another path. */
  lemma SecondDecodeNeverDiffers(path: Text)
    requires ValidateActionPath(path).Some?
    ensures var decoded := Decode(path).value;
      Decode(decoded) == if PERCENT in decoded then None else Some(decoded)
  {
    DecodeShortens(Decode(path).value);
  }

  // ---------------------------------------------------------------- dot segments

  function NextSlash(s: Text): (n: nat)
    ensures n <= |s| && (n < |s| ==> s[n] == SLASH)
  {
    if s == [] || s[0] == SLASH then 0 else 1 + NextSlash(s[1..])
  }

  function WithoutLastSegment(output: Text): Text {
    if output == [] then []
    else if output[|output| - 1] == SLASH then output[..|output| - 1]
    else WithoutLastSegment(output[..|output| - 1])
  }

  /** `remove_dot_segments` of section 5.2.4 of RFC 3986. */
  function RemoveDots(input: Text, output: Text): Text
    decreases |input|
  {
    if input == [] then output
    else if StartsWith(input, [DOT, DOT, SLASH]) then RemoveDots(input[3..], output)
    else if StartsWith(input, [DOT, SLASH]) then RemoveDots(input[2..], output)
    else if StartsWith(input, [SLASH, DOT, SLASH]) then RemoveDots(input[2..], output)
    else if input == [SLASH, DOT] then RemoveDots([SLASH], output)
    else if StartsWith(input, [SLASH, DOT, DOT, SLASH]) then RemoveDots(input[3..], WithoutLastSegment(output))
    else if input == [SLASH, DOT, DOT] then RemoveDots([SLASH], WithoutLastSegment(output))
    else if DotSegment(input) then output
    else
      var n := if input[0] == SLASH then 1 + NextSlash(input[1..]) else NextSlash(input);
      RemoveDots(input[n..], output + input[..n])
  }

  lemma {:induction false} SplitAtNextSlash(s: Text)
    ensures Split(s)[0] == s[..NextSlash(s)]
    ensures NextSlash(s) < |s| ==> Split(s) == [Split(s)[0]] + Split(s[NextSlash(s) + 1..])
  {
    if s != [] && s[0] != SLASH {
      SplitAtNextSlash(s[1..]);
      var n := NextSlash(s[1..]);
      assert s[..n + 1] == [s[0]] + s[1..][..n];
      if n < |s[1..]| { assert s[1..][n + 1..] == s[n + 2..]; }
    }
  }

  ghost predicate NoDotSegment(segments: seq<Text>) {
    forall i | 0 <= i < |segments| :: !DotSegment(segments[i])
  }

  lemma LeadingSegment(segment: Text, rest: Text)
    requires SlashFree(segment) && (rest == segment || StartsWith(rest, segment + [SLASH]))
    ensures Split(rest)[0] == segment
  {
    if rest == segment {
      SplitSegment(segment);
    } else {
      var after := rest[|segment| + 1..];
      assert rest == rest[..|segment| + 1] + after == segment + ([SLASH] + after);
      SplitAfter(segment, after);
    }
  }

  lemma StartsBehind(first: Point, rest: Text, prefix: Text)
    ensures StartsWith([first] + rest, [first] + prefix) <==> StartsWith(rest, prefix)
    ensures [first] + rest == [first] + prefix <==> rest == prefix
  {
    assert forall s: Text :: ([first] + s)[1..] == s;
    if |prefix| <= |rest| {
      assert ([first] + rest)[..|prefix| + 1] == [first] + rest[..|prefix|];
    }
  }

  /** Behind a slash and in front of a segment that is not a dot segment, none of the first rules applies. */
  lemma OnlyTheLastRule(rest: Text)
    requires !DotSegment(Split(rest)[0])
    ensures var input := [SLASH] + rest;
      && !StartsWith(input, [DOT, DOT, SLASH]) && !StartsWith(input, [DOT, SLASH])
      && !StartsWith(input, [SLASH, DOT, SLASH]) && input != [SLASH, DOT]
      && !StartsWith(input, [SLASH, DOT, DOT, SLASH]) && input != [SLASH, DOT, DOT] && !DotSegment(input)
  {
    var one, two: Text := [DOT], [DOT, DOT];
    if rest == one || StartsWith(rest, one + [SLASH]) { LeadingSegment(one, rest); }
    if rest == two || StartsWith(rest, two + [SLASH]) { LeadingSegment(two, rest); }
    StartsBehind(SLASH, rest, one);
    StartsBehind(SLASH, rest, one + [SLASH]);
    StartsBehind(SLASH, rest, two);
    StartsBehind(SLASH, rest, two + [SLASH]);
    assert [SLASH] + (one + [SLASH]) == [SLASH, DOT, SLASH] && [SLASH] + one == [SLASH, DOT];
    assert [SLASH] + (two + [SLASH]) == [SLASH, DOT, DOT, SLASH] && [SLASH] + two == [SLASH, DOT, DOT];
    var input := [SLASH] + rest;
    assert |input| >= 2 ==> input[..2][0] == SLASH && [DOT, SLASH][0] == DOT;
    assert |input| >= 3 ==> input[..3][0] == SLASH && [DOT, DOT, SLASH][0] == DOT;
    assert input[0] == SLASH && one[0] == DOT == two[0];
  }

  lemma {:induction false} NoDotsNothingRemoved(rest: Text, output: Text)
    requires NoDotSegment(Split(rest))
    ensures RemoveDots([SLASH] + rest, output) == output + ([SLASH] + rest)
    decreases |rest|
  {
    var input := [SLASH] + rest;
    assert input[1..] == rest;
    OnlyTheLastRule(rest);
    SplitAtNextSlash(rest);
    var n := 1 + NextSlash(rest);
    assert input == input[..n] + input[n..];
    if n < |input| {
      var after := rest[n..];
      assert input[n..] == [SLASH] + after;
      assert forall i | 0 <= i < |Split(after)| :: Split(after)[i] == Split(rest)[i + 1];
      NoDotsNothingRemoved(after, output + input[..n]);
    }
  }

  lemma DotsDecodeToDots(segment: Text)
    requires DotSegment(segment)
    ensures Decode(segment) == Some(segment)
  {
    DecodeShortens(segment);
  }

  /** No segment of an accepted path is a dot segment, decoded or not. */
  lemma AcceptedHasNoDots(path: Text)
    requires ValidateActionPath(path).Some?
    ensures NoDotSegment(Split(path)) && NoDotSegment(SegmentsOf(path))
  {
    SegmentsCorrespond(path);
    AcceptedHasGoodSegments(path);
    forall i | 0 <= i < |Split(path)| ensures !DotSegment(Split(path)[i]) {
      assert GoodSegment(SegmentsOf(path)[i]);
      if DotSegment(Split(path)[i]) { DotsDecodeToDots(Split(path)[i]); }
    }
  }

  /** Dot-segment removal leaves an accepted path as it is. */
  lemma DotRemovalKeepsAcceptedPaths(path: Text)
    requires ValidateActionPath(path).Some?
    ensures RemoveDots(path, []) == path
  {
    AcceptedHasNoDots(path);
    var rest := path[1..];
    assert path == [SLASH] + rest;
    assert Split(path) == [[]] + Split(rest);
    assert forall i | 0 <= i < |Split(rest)| :: Split(rest)[i] == Split(path)[i + 1];
    NoDotsNothingRemoved(rest, []);
  }

  // ---------------------------------------------------------------- patterns

  lemma SplitFirst(first: Point, s: Text)
    ensures Split([first] + s) ==
      if first == SLASH then [[]] + Split(s) else [[first] + Split(s)[0]] + Split(s)[1..]
  {
    assert ([first] + s)[1..] == s;
  }

  lemma {:induction false} SplitConcat(a: Text, rest: Text)
    ensures Split(a + ([SLASH] + rest)) == Split(a) + Split(rest)
  {
    if a == [] {
      SplitAfter([], rest);
    } else {
      var tail := a[1..] + ([SLASH] + rest);
      SplitConcat(a[1..], rest);
      assert [a[0]] + a[1..] == a && a + ([SLASH] + rest) == [a[0]] + tail;
      PrefixSplit(a[0], a[1..], tail, Split(rest));
    }
  }

  lemma PrefixSplit(first: Point, a: Text, b: Text, more: seq<Text>)
    requires Split(b) == Split(a) + more
    ensures Split([first] + b) == Split([first] + a) + more
  {
    var x := Split(a);
    SplitFirst(first, a);
    SplitFirst(first, b);
    if first == SLASH {
      Regroup([[]], x, more);
    } else {
      TailOf(x, more);
      Regroup([[first] + x[0]], x[1..], more);
    }
  }

  lemma TailOf(a: seq<Text>, b: seq<Text>)
    requires a != []
    ensures (a + b)[0] == a[0] && (a + b)[1..] == a[1..] + b
  {
  }

  lemma {:induction false} JoinConcat(a: seq<Text>, b: seq<Text>)
    requires a != [] && b != []
    ensures Join(a + b) == Join(a) + ([SLASH] + Join(b))
  {
    if |a| == 1 {
      assert (a + b)[1..] == b;
    } else {
      JoinConcat(a[1..], b);
      assert (a + b)[1..] == a[1..] + b;
    }
  }

  lemma InSubtree(base: Text, path: Text)
    requires StartsWith(path, base + [SLASH])
    ensures Split(base) <= Split(path)
  {
    var rest := path[|base| + 1..];
    assert path == path[..|base| + 1] + rest;
    assert path == base + ([SLASH] + rest);
    SplitConcat(base, rest);
  }

  lemma SegmentPrefix(base: Text, path: Text)
    requires Split(base) <= Split(path)
    ensures path == base || StartsWith(path, base + [SLASH])
  {
    JoinSplit(base);
    JoinSplit(path);
    var more := Split(path)[|Split(base)|..];
    assert Split(path) == Split(base) + more;
    if more == [] {
      assert Split(path) == Split(base);
    } else {
      JoinConcat(Split(base), more);
      assert path[..|base| + 1] == base + [SLASH];
    }
  }

  /** A text lies in the subtree of another exactly when its segments continue the other's. */
  lemma SubtreeIsSegmentPrefix(base: Text, path: Text)
    ensures path == base || StartsWith(path, base + [SLASH]) <==> Split(base) <= Split(path)
  {
    if StartsWith(path, base + [SLASH]) { InSubtree(base, path); }
    if Split(base) <= Split(path) { SegmentPrefix(base, path); }
  }

  lemma PrefixesCorrespond(base: Text, path: Text)
    requires ValidateActionPath(base).Some? && ValidateActionPath(path).Some?
    ensures Split(base) <= Split(path) <==> SegmentsOf(base) <= SegmentsOf(path)
  {
    SegmentsCorrespond(base);
    SegmentsCorrespond(path);
    var b, p := SegmentsOf(base), SegmentsOf(path);
    if |b| <= |p| {
      assert forall i | 0 <= i < |b| :: b[i] == p[i] <==> Split(base)[i] == Split(path)[i];
      assert b <= p <==> forall i | 0 <= i < |b| :: b[i] == p[i];
      assert Split(base) <= Split(path) <==> forall i | 0 <= i < |b| :: Split(base)[i] == Split(path)[i];
    }
  }

  /** A wildcard pattern matches the paths whose decoded segments continue those of its base. */
  lemma WildcardMatchesSubtree(pattern: Text, path: Text)
    requires ValidPathPattern(pattern) && EndsWith(pattern, WILDCARD) && ValidateActionPath(path).Some?
    ensures Decode(PatternBase(pattern)).Some? && Decode(path).Some?
    ensures PathMatches(pattern, path) <==> SegmentsOf(PatternBase(pattern)) <= SegmentsOf(path)
  {
    SubtreeIsSegmentPrefix(PatternBase(pattern), path);
    PrefixesCorrespond(PatternBase(pattern), path);
  }

  /** The pattern for the root matches the root alone, although its segments look like a prefix of every path. */
  lemma RootWildcardMatchesOnlyTheRoot(path: Text)
    requires ValidateActionPath(path).Some?
    ensures ValidPathPattern(WILDCARD)
    ensures PathMatches(WILDCARD, path) <==> path == [SLASH]
  {
    assert WILDCARD[..0] == [] && PatternBase(WILDCARD) == [SLASH];
    RootIsAccepted();
    assert [SLASH] + [SLASH] == [SLASH, SLASH];
  }

  /** A pattern is an accepted path without a star, or one with a slash and two stars behind it, or those alone. */
  lemma PatternsExactly(pattern: Text)
    ensures ValidPathPattern(pattern) <==>
      || ('*' as int !in pattern && ValidateActionPath(pattern).Some?)
      || pattern == ['/' as int, '*' as int, '*' as int]
      || exists base: Text :: base != [] && ValidateActionPath(base).Some? && pattern == base + ['/' as int, '*' as int, '*' as int]
    ensures !EndsWith(pattern, WILDCARD) ==> forall path :: PathMatches(pattern, path) <==> path == pattern
  {
    RootIsAccepted();
    if EndsWith(pattern, WILDCARD) {
      var base := pattern[..|pattern| - 3];
      assert pattern == base + WILDCARD;
      assert base == [] ==> pattern == WILDCARD;
    }
    forall base: Text | base != [] && ValidateActionPath(base).Some? && pattern == base + WILDCARD ensures ValidPathPattern(pattern) {
      assert pattern[..|pattern| - 3] == base && EndsWith(pattern, WILDCARD);
    }
  }

  lemma RootIsAccepted()
    ensures ValidateActionPath([SLASH]) == Some([SLASH])
  {
    var segments: seq<Text> := [[], []];
    EncodeAllSucceeds(segments);
    assert EncodeAll(segments).value == segments;
    assert Join(segments) == [SLASH];
    GoodSegmentsAreAccepted(segments);
  }
}
