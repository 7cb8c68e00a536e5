/** The body of a POST: every way a client may spell {"text":"..."}, and the reader that takes
    each of them back to the text. */
module JsonText {
  import opened Basics
  import opened Unicode

  // ----- spelling one character -----

  /** As it is, by a two-character escape, or by its code units in hexadecimal; `caps` says
      which digits are capitals, and those not mentioned are not. U+FFFD may also be meant by
      the escape of half a surrogate pair. */
  datatype Spelling = Raw | Short | Hex(caps: seq<bool>) | Half(unit: Unit, caps: seq<bool>)

  predicate Legal(c: Scalar, sp: Spelling) {
    match sp
    case Raw => c >= 0x20 && c != 0x22 && c != 0x5C
    case Short => c in {0x22, 0x5C, 0x2F, 0x08, 0x0C, 0x0A, 0x0D, 0x09}
    case Hex(_) => true
    case Half(u, _) => c == REPLACEMENT && (High(u) || Low(u))
  }

  predicate FirstHalf(sp: Spelling) {
    sp.Half? && High(sp.unit)
  }

  predicate SecondHalf(sp: Spelling) {
    sp.Half? && Low(sp.unit)
  }

  /** Every character in a legal way, and no two halves that would make a pair. */
  predicate AllLegal(s: seq<Scalar>, how: seq<Spelling>) {
    && |how| == |s| && (forall k | 0 <= k < |s| :: Legal(s[k], how[k]))
    && forall k | 0 < k < |s| :: !(FirstHalf(how[k - 1]) && SecondHalf(how[k]))
  }

  lemma LegalTail(s: seq<Scalar>, how: seq<Spelling>)
    requires AllLegal(s, how) && s != []
    ensures Legal(s[0], how[0]) && AllLegal(s[1..], how[1..])
    ensures |s| > 1 ==> !(FirstHalf(how[0]) && SecondHalf(how[1]))
  {
    var t, rest := s[1..], how[1..];
    forall k | 0 <= k < |t|
      ensures Legal(t[k], rest[k]) && (k > 0 ==> !(FirstHalf(rest[k - 1]) && SecondHalf(rest[k])))
    {
      assert Legal(s[k + 1], how[k + 1]);
    }
  }

  lemma LegalCons(c: Scalar, sp: Spelling, s: seq<Scalar>, how: seq<Spelling>)
    requires Legal(c, sp) && AllLegal(s, how) && (s != [] ==> !(FirstHalf(sp) && SecondHalf(how[0])))
    ensures AllLegal([c] + s, [sp] + how)
  {
    var t, all := [c] + s, [sp] + how;
    forall k | 0 < k < |t|
      ensures Legal(t[k], all[k]) && !(FirstHalf(all[k - 1]) && SecondHalf(all[k]))
    {
      assert Legal(s[k - 1], how[k - 1]);
    }
  }

  /** The letter of a two-character escape. */
  function Letter(c: Scalar): Byte {
    if c == 0x08 then 0x62
    else if c == 0x0C then 0x66
    else if c == 0x0A then 0x6E
    else if c == 0x0D then 0x72
    else if c == 0x09 then 0x74
    else if c < 0x100 then c else 0
  }

  function Digit(d: int, upper: bool): Byte
    requires 0 <= d < 16
  {
    if d < 10 then 0x30 + d else if upper then 0x37 + d else 0x57 + d
  }

  function Capital(caps: seq<bool>, k: nat): bool {
    k < |caps| && caps[k]
  }

  function HexUnit(u: Unit, caps: seq<bool>): seq<Byte> {
    [0x5C, 0x75, Digit(u / 0x1000, Capital(caps, 0)), Digit(u / 0x100 % 0x10, Capital(caps, 1)),
     Digit(u / 0x10 % 0x10, Capital(caps, 2)), Digit(u % 0x10, Capital(caps, 3))]
  }

  function Spelled(c: Scalar, sp: Spelling): seq<Byte> {
    match sp
    case Raw => Utf8(c)
    case Short => [0x5C, Letter(c)]
    case Hex(caps) =>
      var u := Utf16(c);
      HexUnit(u[0], caps) + if |u| == 2 then HexUnit(u[1], caps[Min(4, |caps|)..]) else []
    case Half(u, caps) => HexUnit(u, caps)
  }

  function SpelledText(s: seq<Scalar>, how: seq<Spelling>): seq<Byte>
    requires |how| == |s|
  {
    if s == [] then [] else Spelled(s[0], how[0]) + SpelledText(s[1..], how[1..])
  }

  // ----- reading one character -----

  function DigitValue(b: Byte): (d: Option<int>)
    ensures d.Some? ==> 0 <= d.value < 16
  {
    if 0x30 <= b < 0x3A then Some(b - 0x30)
    else if 0x41 <= b < 0x47 then Some(b - 0x37)
    else if 0x61 <= b < 0x67 then Some(b - 0x57)
    else None
  }

  function ReadUnit(b: seq<Byte>): Option<Unit> {
    if |b| < 6 || b[0] != 0x5C || b[1] != 0x75 then None
    else
      var d0, d1, d2, d3 := DigitValue(b[2]), DigitValue(b[3]), DigitValue(b[4]), DigitValue(b[5]);
      if d0.None? || d1.None? || d2.None? || d3.None? then None
      else Some(d0.value * 0x1000 + d1.value * 0x100 + d2.value * 0x10 + d3.value)
  }

  function Unescape(b: Byte): Option<Scalar> {
    if b == 0x22 || b == 0x5C || b == 0x2F then Some(b)
    else if b == 0x62 then Some(0x08)
    else if b == 0x66 then Some(0x0C)
    else if b == 0x6E then Some(0x0A)
    else if b == 0x72 then Some(0x0D)
    else if b == 0x74 then Some(0x09)
    else None
  }

  /** The first character of a string's contents and its size. An unpaired surrogate or a byte
      that starts no character becomes U+FFFD; a bare control character is an error. */
  function ReadChar(b: seq<Byte>): (r: Option<(Scalar, nat)>)
    ensures r.Some? ==> 1 <= r.value.1 <= |b|
  {
    if b == [] || b[0] < 0x20 || b[0] == 0x22 then None
    else if b[0] == 0x5C then
      var u := ReadUnit(b);
      if u.None? then if |b| >= 2 && Unescape(b[1]).Some? then Some((Unescape(b[1]).value, 2)) else None
      else if !High(u.value) && !Low(u.value) then Some((u.value as Scalar, 6))
      else
        var low := ReadUnit(b[6..]);
        if High(u.value) && low.Some? && Low(low.value)
        then Some((0x10000 + Bits(u.value, 0xD800) * 0x400 + Bits(low.value, 0xDC00), 12))
        else Some((REPLACEMENT, 6))
    else
      var r := DecodeRune(b);
      if r.Some? then r else Some((REPLACEMENT, 1))
  }

  /** The contents up to the closing quote, and what follows it. */
  function ReadString(b: seq<Byte>): Option<(seq<Scalar>, seq<Byte>)>
    decreases |b|
  {
    if b == [] then None
    else if b[0] == 0x22 then Some(([], b[1..]))
    else
      var c := ReadChar(b);
      if c.None? then None
      else
        var more := ReadString(b[c.value.1..]);
        if more.None? then None else Some(([c.value.0] + more.value.0, more.value.1))
  }

  lemma ReadUnitOfHex(u: Unit, caps: seq<bool>, rest: seq<Byte>)
    ensures ReadUnit(HexUnit(u, caps) + rest) == Some(u)
  {
    var b := HexUnit(u, caps) + rest;
    assert b[..6] == HexUnit(u, caps);
    assert u / 0x100 == u / 0x1000 * 0x10 + u / 0x100 % 0x10;
    assert u / 0x10 == u / 0x100 * 0x10 + u / 0x10 % 0x10;
    assert u == u / 0x10 * 0x10 + u % 0x10;
  }

  lemma ReadCharOfHex(c: Scalar, caps: seq<bool>, rest: seq<Byte>)
    ensures ReadChar(Spelled(c, Hex(caps)) + rest) == Some((c, |Spelled(c, Hex(caps))|))
  {
    var b := Spelled(c, Hex(caps)) + rest;
    var u := Utf16(c);
    if |u| == 1 {
      assert b == HexUnit(u[0], caps) + rest;
      ReadUnitOfHex(u[0], caps, rest);
    } else {
      var low := HexUnit(u[1], caps[Min(4, |caps|)..]) + rest;
      assert b == HexUnit(u[0], caps) + low;
      ReadUnitOfHex(u[0], caps, low);
      ReadUnitOfHex(u[1], caps[Min(4, |caps|)..], rest);
      assert b[6..] == low;
      DecodeFirst(c, []);
    }
  }

  /** What follows is the escape of a second half. */
  predicate LowNext(b: seq<Byte>) {
    ReadUnit(b).Some? && Low(ReadUnit(b).value)
  }

  lemma ReadCharOfHalf(u: Unit, caps: seq<bool>, rest: seq<Byte>)
    requires High(u) || Low(u)
    requires High(u) ==> !LowNext(rest)
    ensures ReadChar(HexUnit(u, caps) + rest) == Some((REPLACEMENT, 6))
  {
    var b := HexUnit(u, caps) + rest;
    ReadUnitOfHex(u, caps, rest);
    assert b[6..] == rest;
  }

  /** Whatever way a character is spelled, it is read back. */
  lemma ReadCharOfSpelled(c: Scalar, sp: Spelling, rest: seq<Byte>)
    requires Legal(c, sp) && (FirstHalf(sp) ==> !LowNext(rest))
    ensures ReadChar(Spelled(c, sp) + rest) == Some((c, |Spelled(c, sp)|))
  {
    match sp
    case Raw =>
      DecodeOfUtf8(c, rest);
      assert (Utf8(c) + rest)[0] == Utf8(c)[0];
    case Short =>
      var b := Spelled(c, sp) + rest;
      assert b[0] == 0x5C && b[1] == Letter(c);
    case Hex(caps) =>
      ReadCharOfHex(c, caps, rest);
    case Half(u, caps) =>
      ReadCharOfHalf(u, caps, rest);
  }

  /** Only a spelling of a second half starts like one. */
  lemma SpelledNotLow(c: Scalar, sp: Spelling, rest: seq<Byte>)
    requires Legal(c, sp) && !SecondHalf(sp)
    ensures !LowNext(Spelled(c, sp) + rest)
  {
    var b := Spelled(c, sp) + rest;
    match sp
    case Raw =>
      assert b[0] == Utf8(c)[0];
    case Short =>
      assert b[1] == Letter(c);
    case Hex(caps) =>
      var u := Utf16(c);
      var more := (if |u| == 2 then HexUnit(u[1], caps[Min(4, |caps|)..]) else []) + rest;
      assert b == HexUnit(u[0], caps) + more;
      ReadUnitOfHex(u[0], caps, more);
    case Half(u, caps) =>
      ReadUnitOfHex(u, caps, rest);
  }

  lemma ReadOn(first: seq<Byte>, more: seq<Byte>, c: Scalar, s: seq<Scalar>, tail: seq<Byte>)
    requires ReadChar(first + more) == Some((c, |first|)) && ReadString(more) == Some((s, tail))
    ensures ReadString(first + more) == Some(([c] + s, tail))
  {
    assert (first + more)[|first|..] == more;
  }

  lemma SpelledFirst(s: seq<Scalar>, how: seq<Spelling>, rest: seq<Byte>)
    requires |how| == |s| && s != []
    ensures SpelledText(s, how) + rest == Spelled(s[0], how[0]) + (SpelledText(s[1..], how[1..]) + rest)
  {
  }

  /** After a first half there is no second one. */
  lemma NextNotLow(s: seq<Scalar>, how: seq<Spelling>, tail: seq<Byte>)
    requires AllLegal(s, how) && s != []
    ensures FirstHalf(how[0]) ==> !LowNext(SpelledText(s[1..], how[1..]) + ([0x22] + tail))
  {
    LegalTail(s, how);
    if |s| > 1 {
      LegalTail(s[1..], how[1..]);
      SpelledFirst(s[1..], how[1..], [0x22] + tail);
      if FirstHalf(how[0]) {
        SpelledNotLow(s[1], how[1], SpelledText(s[1..][1..], how[1..][1..]) + ([0x22] + tail));
      }
    }
  }

  lemma {:induction false} ReadStringOfSpelled(s: seq<Scalar>, how: seq<Spelling>, tail: seq<Byte>)
    requires AllLegal(s, how)
    ensures ReadString(SpelledText(s, how) + ([0x22] + tail)) == Some((s, tail))
  {
    var end := [0x22] + tail;
    if s == [] {
      assert SpelledText(s, how) + end == end;
      assert end[1..] == tail;
    } else {
      LegalTail(s, how);
      ReadStringOfSpelled(s[1..], how[1..], tail);
      SpelledFirst(s, how, end);
      NextNotLow(s, how, tail);
      ReadCharOfSpelled(s[0], how[0], SpelledText(s[1..], how[1..]) + end);
      ReadOn(Spelled(s[0], how[0]), SpelledText(s[1..], how[1..]) + end, s[0], s[1..], tail);
      assert [s[0]] + s[1..] == s;
    }
  }

  // ----- the body -----

  predicate Space(b: Byte) {
    b in {0x20, 0x09, 0x0A, 0x0D}
  }

  predicate AllSpace(b: seq<Byte>) {
    forall k | 0 <= k < |b| :: Space(b[k])
  }

  /** The whitespace before and after each of the tokens. */
  datatype Gaps = Gaps(open: seq<Byte>, key: seq<Byte>, colon: seq<Byte>, text: seq<Byte>, close: seq<Byte>,
                       end: seq<Byte>)
  {
    predicate Valid() {
      AllSpace(open) && AllSpace(key) && AllSpace(colon) && AllSpace(text) && AllSpace(close) && AllSpace(end)
    }

    function Size(): nat {
      |open| + |key| + |colon| + |text| + |close| + |end|
    }
  }

  function KeyToken(): seq<Byte> { [0x22, 0x74, 0x65, 0x78, 0x74, 0x22] }

  /** After the text. */
  function BodyEnd(g: Gaps): seq<Byte> {
    g.close + ([0x7D] + g.end)
  }

  /** From the string on. */
  function BodyText(s: seq<Scalar>, how: seq<Spelling>, g: Gaps): seq<Byte>
    requires |how| == |s|
  {
    SpelledText(s, how) + ([0x22] + BodyEnd(g))
  }

  function Body(s: seq<Scalar>, how: seq<Spelling>, g: Gaps): seq<Byte>
    requires |how| == |s|
  {
    g.open + ([0x7B] + (g.key + (KeyToken() + (g.colon + ([0x3A] + (g.text + ([0x22] + BodyText(s, how, g))))))))
  }

  function SkipSpace(b: seq<Byte>): seq<Byte> {
    if b == [] || !Space(b[0]) then b else SkipSpace(b[1..])
  }

  /** What follows a token that may have whitespace before it. */
  function After(b: seq<Byte>, token: seq<Byte>): Option<seq<Byte>> {
    var t := SkipSpace(b);
    if token <= t then Some(t[|token|..]) else None
  }

  /** The text of a body with the one key "text". */
  function ReadBody(b: seq<Byte>): Option<seq<Scalar>> {
    var open := After(b, [0x7B]);
    var key := if open.Some? then After(open.value, KeyToken()) else None;
    var colon := if key.Some? then After(key.value, [0x3A]) else None;
    var quote := if colon.Some? then After(colon.value, [0x22]) else None;
    var text := if quote.Some? then ReadString(quote.value) else None;
    var close := if text.Some? then After(text.value.1, [0x7D]) else None;
    if close.Some? && SkipSpace(close.value) == [] then Some(text.value.0) else None
  }

  /** As the handler gets it: a Go string. */
  function ReadText(b: seq<Byte>): Option<seq<Byte>> {
    var s := ReadBody(b);
    if s.Some? then Some(Encode8(s.value)) else None
  }

  lemma {:induction false} SkipsGap(gap: seq<Byte>, rest: seq<Byte>)
    requires AllSpace(gap) && (rest != [] ==> !Space(rest[0]))
    ensures SkipSpace(gap + rest) == rest
  {
    if gap == [] {
      assert gap + rest == rest;
    } else {
      assert (gap + rest)[1..] == gap[1..] + rest;
      SkipsGap(gap[1..], rest);
    }
  }

  lemma AfterGap(gap: seq<Byte>, token: seq<Byte>, rest: seq<Byte>)
    requires AllSpace(gap) && token != [] && !Space(token[0])
    ensures After(gap + (token + rest), token) == Some(rest)
  {
    SkipsGap(gap, token + rest);
    assert (token + rest)[..|token|] == token && (token + rest)[|token|..] == rest;
  }

  /** Every spelling of a body is read back to the very text. */
  lemma ReadBodyOfBody(s: seq<Scalar>, how: seq<Spelling>, g: Gaps)
    requires AllLegal(s, how) && g.Valid()
    ensures ReadBody(Body(s, how, g)) == Some(s)
  {
    var text := BodyText(s, how, g);
    var colon := g.text + ([0x22] + text);
    var key := g.colon + ([0x3A] + colon);
    var open := g.key + (KeyToken() + key);
    AfterGap(g.open, [0x7B], open);
    AfterGap(g.key, KeyToken(), key);
    AfterGap(g.colon, [0x3A], colon);
    AfterGap(g.text, [0x22], text);
    ReadStringOfSpelled(s, how, BodyEnd(g));
    AfterGap(g.close, [0x7D], g.end);
    SkipsGap(g.end, []);
    assert g.end + [] == g.end;
  }

  lemma BodyLength(s: seq<Scalar>, how: seq<Spelling>, g: Gaps)
    requires |how| == |s|
    ensures |Body(s, how, g)| == 11 + g.Size() + |SpelledText(s, how)|
  {
  }

  // ----- every body is valid UTF-8 -----

  lemma ValidConcat(a: seq<Byte>, b: seq<Byte>)
    requires ValidUtf8(a) && ValidUtf8(b)
    ensures ValidUtf8(a + b)
  {
    EncodeOfRunes(a);
    EncodeOfRunes(b);
    Encode8Concat(Runes(a), Runes(b));
    RunesOfEncode(Runes(a) + Runes(b));
  }

  lemma {:induction false} AsciiIsValid(b: seq<Byte>)
    requires forall k | 0 <= k < |b| :: b[k] < 0x80
    ensures ValidUtf8(b)
  {
    if b != [] {
      AsciiIsValid(b[1..]);
    }
  }

  lemma SpelledIsValid(c: Scalar, sp: Spelling)
    requires Legal(c, sp)
    ensures ValidUtf8(Spelled(c, sp))
  {
    if sp.Raw? {
      RunesOfEncode([c]);
      assert Encode8([c]) == Utf8(c);
    } else {
      AsciiIsValid(Spelled(c, sp));
    }
  }

  lemma {:induction false} TextIsValid(s: seq<Scalar>, how: seq<Spelling>)
    requires AllLegal(s, how)
    ensures ValidUtf8(SpelledText(s, how))
  {
    if s != [] {
      LegalTail(s, how);
      SpelledIsValid(s[0], how[0]);
      TextIsValid(s[1..], how[1..]);
      ValidConcat(Spelled(s[0], how[0]), SpelledText(s[1..], how[1..]));
    }
  }

  lemma TokenBefore(gap: seq<Byte>, token: seq<Byte>, rest: seq<Byte>)
    requires AllSpace(gap) && (forall k | 0 <= k < |token| :: token[k] < 0x80) && ValidUtf8(rest)
    ensures ValidUtf8(gap + (token + rest))
  {
    AsciiIsValid(gap);
    AsciiIsValid(token);
    ValidConcat(token, rest);
    ValidConcat(gap, token + rest);
  }

  lemma BodyTextIsValid(s: seq<Scalar>, how: seq<Spelling>, g: Gaps)
    requires AllLegal(s, how) && g.Valid()
    ensures ValidUtf8(BodyText(s, how, g))
  {
    TextIsValid(s, how);
    AsciiIsValid([0x22] + BodyEnd(g));
    ValidConcat(SpelledText(s, how), [0x22] + BodyEnd(g));
  }

  lemma RestIsValid(g: Gaps, text: seq<Byte>)
    requires g.Valid() && ValidUtf8(text)
    ensures ValidUtf8(g.colon + ([0x3A] + (g.text + ([0x22] + text))))
  {
    TokenBefore(g.text, [0x22], text);
    TokenBefore(g.colon, [0x3A], g.text + ([0x22] + text));
  }

  lemma BodyIsValid(s: seq<Scalar>, how: seq<Spelling>, g: Gaps)
    requires AllLegal(s, how) && g.Valid()
    ensures ValidUtf8(Body(s, how, g))
  {
    BodyTextIsValid(s, how, g);
    var text := BodyText(s, how, g);
    var key := g.colon + ([0x3A] + (g.text + ([0x22] + text)));
    RestIsValid(g, text);
    TokenBefore(g.key, KeyToken(), key);
    TokenBefore(g.open, [0x7B], g.key + (KeyToken() + key));
  }

  // ----- nothing else is read -----

  predicate IsCapital(b: Byte) {
    0x41 <= b < 0x47
  }

  /** The digits of an escape that are capitals. */
  function CapsOf(b: seq<Byte>): seq<bool>
    requires |b| >= 6
  {
    [IsCapital(b[2]), IsCapital(b[3]), IsCapital(b[4]), IsCapital(b[5])]
  }

  lemma DigitOfValue(b: Byte)
    requires DigitValue(b).Some?
    ensures Digit(DigitValue(b).value, IsCapital(b)) == b
  {
  }

  lemma SplitUnit(d0: int, d1: int, d2: int, d3: int)
    requires 0 <= d0 < 0x10 && 0 <= d1 < 0x10 && 0 <= d2 < 0x10 && 0 <= d3 < 0x10
    ensures var u := d0 * 0x1000 + d1 * 0x100 + d2 * 0x10 + d3;
            u / 0x1000 == d0 && u / 0x100 % 0x10 == d1 && u / 0x10 % 0x10 == d2 && u % 0x10 == d3
  {
    var u := d0 * 0x1000 + d1 * 0x100 + d2 * 0x10 + d3;
    assert u / 0x10 == d0 * 0x100 + d1 * 0x10 + d2;
    assert u / 0x100 == d0 * 0x10 + d1;
  }

  /** An escape that is read is the spelling of its unit, with its own capitals. */
  lemma HexOfUnit(b: seq<Byte>, caps: seq<bool>)
    requires ReadUnit(b).Some? && CapsOf(b) <= caps
    ensures HexUnit(ReadUnit(b).value, caps) == b[..6]
  {
    var d0, d1, d2, d3 := DigitValue(b[2]), DigitValue(b[3]), DigitValue(b[4]), DigitValue(b[5]);
    SplitUnit(d0.value, d1.value, d2.value, d3.value);
    DigitOfValue(b[2]);
    DigitOfValue(b[3]);
    DigitOfValue(b[4]);
    DigitOfValue(b[5]);
    assert forall k | 0 <= k < 4 :: Capital(caps, k) == CapsOf(b)[k];
    assert b[..6] == [b[0], b[1], b[2], b[3], b[4], b[5]];
  }

  lemma JoinPair(u: Unit, low: Unit)
    requires High(u) && Low(low)
    ensures Utf16(0x10000 + Bits(u, 0xD800) * 0x400 + Bits(low, 0xDC00)) == [u, low]
  {
  }

  lemma PairIsSpelled(b: seq<Byte>) returns (sp: Spelling)
    requires ReadUnit(b).Some? && High(ReadUnit(b).value) && LowNext(b[6..])
    ensures ReadChar(b).Some? && Legal(ReadChar(b).value.0, sp) && sp.Hex?
    ensures |b| >= 12 && ReadChar(b).value.1 == 12 && b[..12] == Spelled(ReadChar(b).value.0, sp)
  {
    var caps, more := CapsOf(b), CapsOf(b[6..]);
    var u, low := ReadUnit(b).value, ReadUnit(b[6..]).value;
    sp := Hex(caps + more);
    JoinPair(u, low);
    HexOfUnit(b, caps + more);
    HexOfUnit(b[6..], more);
    assert (caps + more)[4..] == more;
    assert b[..12] == b[..6] + b[6..][..6];
  }

  lemma EscapeIsSpelled(b: seq<Byte>) returns (sp: Spelling)
    requires ReadChar(b).Some? && b[0] == 0x5C
    ensures var (c, n) := ReadChar(b).value;
            && Legal(c, sp) && b[..n] == Spelled(c, sp) && n in {2, 6, 12}
            && (FirstHalf(sp) ==> !LowNext(b[n..])) && (SecondHalf(sp) ==> LowNext(b))
  {
    var u := ReadUnit(b);
    if u.None? {
      sp := Short;
      assert b[..2] == [b[0], b[1]];
    } else if High(u.value) && LowNext(b[6..]) {
      sp := PairIsSpelled(b);
    } else {
      sp := if High(u.value) || Low(u.value) then Half(u.value, CapsOf(b)) else Hex(CapsOf(b));
      HexOfUnit(b, CapsOf(b));
    }
  }

  lemma DropAscii(a: seq<Byte>, rest: seq<Byte>)
    requires ValidUtf8(a + rest) && forall k | 0 <= k < |a| :: a[k] < 0x80
    ensures ValidUtf8(rest)
    decreases |a|
  {
    if a == [] {
      assert a + rest == rest;
    } else {
      assert (a + rest)[0] == a[0] && (a + rest)[1..] == a[1..] + rest;
      DropAscii(a[1..], rest);
    }
  }

  /** In valid UTF-8, whatever is read as a character is a spelling of it. */
  lemma CharIsSpelled(b: seq<Byte>) returns (sp: Spelling)
    requires ValidUtf8(b) && ReadChar(b).Some?
    ensures var (c, n) := ReadChar(b).value;
            && Legal(c, sp) && b[..n] == Spelled(c, sp) && ValidUtf8(b[n..])
            && (FirstHalf(sp) ==> !LowNext(b[n..])) && (SecondHalf(sp) ==> LowNext(b))
  {
    var (c, n) := ReadChar(b).value;
    if b[0] == 0x5C {
      sp := EscapeIsSpelled(b);
      assert b == b[..n] + b[n..];
      EscapeIsAscii(c, sp);
      DropAscii(b[..n], b[n..]);
    } else {
      sp := Raw;
      Utf8OfDecode(b);
    }
  }

  lemma EscapeIsAscii(c: Scalar, sp: Spelling)
    requires Legal(c, sp) && !sp.Raw?
    ensures forall k | 0 <= k < |Spelled(c, sp)| :: Spelled(c, sp)[k] < 0x80
  {
  }

  lemma {:induction false} StringIsSpelled(b: seq<Byte>) returns (how: seq<Spelling>)
    requires ValidUtf8(b) && ReadString(b).Some?
    ensures var (s, tail) := ReadString(b).value;
            && AllLegal(s, how) && ValidUtf8(tail) && b == SpelledText(s, how) + ([0x22] + tail)
            && (s != [] && SecondHalf(how[0]) ==> LowNext(b))
    decreases |b|
  {
    if b[0] == 0x22 {
      how := [];
      assert b == [0x22] + b[1..];
      DropAscii([0x22], b[1..]);
    } else {
      var (c, n) := ReadChar(b).value;
      var sp := CharIsSpelled(b);
      var rest := StringIsSpelled(b[n..]);
      var (s, tail) := ReadString(b[n..]).value;
      LegalCons(c, sp, s, rest);
      how := [sp] + rest;
      SpelledCons(c, sp, s, rest, [0x22] + tail);
      assert b == b[..n] + b[n..];
    }
  }

  lemma SpelledCons(c: Scalar, sp: Spelling, s: seq<Scalar>, how: seq<Spelling>, rest: seq<Byte>)
    requires |how| == |s|
    ensures SpelledText([c] + s, [sp] + how) + rest == Spelled(c, sp) + (SpelledText(s, how) + rest)
  {
    assert ([c] + s)[1..] == s && ([sp] + how)[1..] == how;
  }

  lemma {:induction false} SkipIs(b: seq<Byte>) returns (gap: seq<Byte>)
    ensures AllSpace(gap) && b == gap + SkipSpace(b)
  {
    if b == [] || !Space(b[0]) {
      gap := [];
    } else {
      var more := SkipIs(b[1..]);
      gap := [b[0]] + more;
    }
  }

  lemma AfterIs(b: seq<Byte>, token: seq<Byte>) returns (gap: seq<Byte>)
    requires ValidUtf8(b) && After(b, token).Some? && forall k | 0 <= k < |token| :: token[k] < 0x80
    ensures AllSpace(gap) && b == gap + (token + After(b, token).value) && ValidUtf8(After(b, token).value)
  {
    var rest := After(b, token).value;
    gap := SkipIs(b);
    assert SkipSpace(b) == token + rest;
    DropAscii(gap, token + rest);
    DropAscii(token, rest);
  }

  /** From the key on. */
  lemma KeyIsSpelled(b: seq<Byte>) returns (colon: seq<Byte>, text: seq<Byte>)
    requires ValidUtf8(b) && After(b, [0x3A]).Some? && After(After(b, [0x3A]).value, [0x22]).Some?
    ensures var rest := After(After(b, [0x3A]).value, [0x22]).value;
            && AllSpace(colon) && AllSpace(text) && ValidUtf8(rest)
            && b == colon + ([0x3A] + (text + ([0x22] + rest)))
  {
    colon := AfterIs(b, [0x3A]);
    text := AfterIs(After(b, [0x3A]).value, [0x22]);
  }

  /** The end of a body. */
  lemma EndIsSpelled(b: seq<Byte>) returns (close: seq<Byte>, end: seq<Byte>)
    requires ValidUtf8(b) && After(b, [0x7D]).Some? && SkipSpace(After(b, [0x7D]).value) == []
    ensures AllSpace(close) && AllSpace(end) && b == close + ([0x7D] + end)
  {
    close := AfterIs(b, [0x7D]);
    end := SkipIs(After(b, [0x7D]).value);
    assert end + [] == end;
  }

  lemma BodyIsSpelled(b: seq<Byte>) returns (how: seq<Spelling>, g: Gaps)
    requires ValidUtf8(b) && ReadBody(b).Some?
    ensures AllLegal(ReadBody(b).value, how) && g.Valid() && b == Body(ReadBody(b).value, how, g)
  {
    var open := AfterIs(b, [0x7B]);
    var inside := After(b, [0x7B]).value;
    var key := AfterIs(inside, KeyToken());
    var colon, text := KeyIsSpelled(After(inside, KeyToken()).value);
    var quoted := After(After(After(inside, KeyToken()).value, [0x3A]).value, [0x22]).value;
    how := StringIsSpelled(quoted);
    var close, end := EndIsSpelled(ReadString(quoted).value.1);
    g := Gaps(open, key, colon, text, close, end);
    assert quoted == BodyText(ReadBody(b).value, how, g);
  }

  ghost predicate IsBodyOf(b: seq<Byte>, s: seq<Scalar>, how: seq<Spelling>, g: Gaps) {
    AllLegal(s, how) && g.Valid() && b == Body(s, how, g)
  }

  /** The reader reads exactly the bodies there are: in valid UTF-8, a text is read from b if
      and only if b spells it. So no other key, no second value and nothing after the end is
      taken, and no body means two texts. */
  lemma ReadBodyExactly(b: seq<Byte>, s: seq<Scalar>)
    requires ValidUtf8(b)
    ensures ReadBody(b) == Some(s) <==> exists how, g :: IsBodyOf(b, s, how, g)
  {
    if ReadBody(b) == Some(s) {
      var how, g := BodyIsSpelled(b);
      assert IsBodyOf(b, s, how, g);
    }
    forall how, g | IsBodyOf(b, s, how, g)
      ensures ReadBody(b) == Some(s)
    {
      ReadBodyOfBody(s, how, g);
    }
  }
}
