/** UTF-8 and UTF-16 as Go reads and writes them, and why text survives both. */
module Unicode {
  import opened Basics

  type Byte = x: int | 0 <= x < 0x100
  type Unit = x: int | 0 <= x < 0x10000

  /** A Unicode scalar value. */
  type Scalar = x: int | 0 <= x < 0xD800 || 0xE000 <= x < 0x110000

  /** What a byte or unit carries above its marker. */
  function Bits(x: int, marker: int): int {
    x - marker
  }

  const REPLACEMENT: Scalar := 0xFFFD

  // ----- UTF-8 -----

  function Utf8(c: Scalar): (b: seq<Byte>)
    ensures 1 <= |b| <= 4
  {
    if c < 0x80 then [c]
    else if c < 0x800 then [0xC0 + c / 0x40, 0x80 + c % 0x40]
    else if c < 0x10000 then [0xE0 + c / 0x1000, 0x80 + c / 0x40 % 0x40, 0x80 + c % 0x40]
    else [0xF0 + c / 0x40000, 0x80 + c / 0x1000 % 0x40, 0x80 + c / 0x40 % 0x40, 0x80 + c % 0x40]
  }

  function Encode8(s: seq<Scalar>): seq<Byte> {
    if s == [] then [] else Utf8(s[0]) + Encode8(s[1..])
  }

  predicate Continues(b: Byte) {
    0x80 <= b < 0xC0
  }

  /** The second bytes that may follow a leading byte. */
  predicate Second(b0: Byte, b1: Byte) {
    if b0 == 0xE0 then 0xA0 <= b1 < 0xC0
    else if b0 == 0xED then 0x80 <= b1 < 0xA0
    else if b0 == 0xF0 then 0x90 <= b1 < 0xC0
    else if b0 == 0xF4 then 0x80 <= b1 < 0x90
    else Continues(b1)
  }

  /** The first character of b and its size; None if it is not well formed. */
  function DecodeRune(b: seq<Byte>): (r: Option<(Scalar, nat)>)
    ensures r.Some? ==> 1 <= r.value.1 <= |b|
  {
    if b == [] then None
    else if b[0] < 0x80 then Some((b[0], 1))
    else if 0xC2 <= b[0] < 0xE0 && |b| >= 2 && Continues(b[1]) then
      Some((Bits(b[0], 0xC0) * 0x40 + Bits(b[1], 0x80), 2))
    else if 0xE0 <= b[0] < 0xF0 && |b| >= 3 && Second(b[0], b[1]) && Continues(b[2]) then
      Some((Bits(b[0], 0xE0) * 0x1000 + Bits(b[1], 0x80) * 0x40 + Bits(b[2], 0x80), 3))
    else if 0xF0 <= b[0] < 0xF5 && |b| >= 4 && Second(b[0], b[1]) && Continues(b[2]) && Continues(b[3]) then
      Some((Bits(b[0], 0xF0) * 0x40000 + Bits(b[1], 0x80) * 0x1000 + Bits(b[2], 0x80) * 0x40 + Bits(b[3], 0x80), 4))
    else None
  }

  /** Conversion to runes: a byte that starts no character becomes U+FFFD. */
  function Runes(b: seq<Byte>): seq<Scalar>
    decreases |b|
  {
    if b == [] then []
    else
      var r := DecodeRune(b);
      if r.Some? then [r.value.0] + Runes(b[r.value.1..]) else [REPLACEMENT] + Runes(b[1..])
  }

  predicate ValidUtf8(b: seq<Byte>)
    decreases |b|
  {
    b != [] ==> DecodeRune(b).Some? && ValidUtf8(b[DecodeRune(b).value.1..])
  }

  /** What is written is read back, whatever follows. */
  lemma DecodeOfUtf8(c: Scalar, rest: seq<Byte>)
    ensures DecodeRune(Utf8(c) + rest) == Some((c, |Utf8(c)|))
  {
    var b := Utf8(c) + rest;
    if c < 0x80 {
    } else if c < 0x800 {
      assert b[0] == 0xC0 + c / 0x40 && b[1] == 0x80 + c % 0x40;
    } else if c < 0x10000 {
      assert b[0] == 0xE0 + c / 0x1000 && b[1] == 0x80 + c / 0x40 % 0x40 && b[2] == 0x80 + c % 0x40;
      SplitThree(c);
    } else {
      assert b[0] == 0xF0 + c / 0x40000 && b[1] == 0x80 + c / 0x1000 % 0x40;
      assert b[2] == 0x80 + c / 0x40 % 0x40 && b[3] == 0x80 + c % 0x40;
      SplitFour(c);
    }
  }

  lemma SplitThree(c: int)
    requires 0 <= c
    ensures c == c / 0x1000 * 0x1000 + c / 0x40 % 0x40 * 0x40 + c % 0x40
  {
    assert c / 0x1000 == c / 0x40 / 0x40;
  }

  lemma SplitFour(c: int)
    requires 0 <= c
    ensures c == c / 0x40000 * 0x40000 + c / 0x1000 % 0x40 * 0x1000 + c / 0x40 % 0x40 * 0x40 + c % 0x40
  {
    SplitThree(c);
    assert c / 0x40000 == c / 0x1000 / 0x40;
  }

  lemma JoinThree(x: int, y: int, z: int)
    requires 0 <= x && 0 <= y < 0x40 && 0 <= z < 0x40
    ensures var c := x * 0x1000 + y * 0x40 + z; c / 0x40 == x * 0x40 + y && c / 0x1000 == x && c % 0x40 == z
  {
  }

  lemma JoinFour(w: int, x: int, y: int, z: int)
    requires 0 <= w && 0 <= x < 0x40 && 0 <= y < 0x40 && 0 <= z < 0x40
    ensures var c := w * 0x40000 + x * 0x1000 + y * 0x40 + z;
            c / 0x40 == w * 0x1000 + x * 0x40 + y && c / 0x1000 == w * 0x40 + x && c / 0x40000 == w && c % 0x40 == z
  {
  }

  lemma ThreeBytes(b0: Byte, b1: Byte, b2: Byte)
    requires 0xE0 <= b0 < 0xF0 && Second(b0, b1) && Continues(b2)
    ensures Utf8(Bits(b0, 0xE0) * 0x1000 + Bits(b1, 0x80) * 0x40 + Bits(b2, 0x80)) == [b0, b1, b2]
  {
    JoinThree(Bits(b0, 0xE0), Bits(b1, 0x80), Bits(b2, 0x80));
  }

  lemma FourBytes(b0: Byte, b1: Byte, b2: Byte, b3: Byte)
    requires 0xF0 <= b0 < 0xF5 && Second(b0, b1) && Continues(b2) && Continues(b3)
    ensures Utf8(Bits(b0, 0xF0) * 0x40000 + Bits(b1, 0x80) * 0x1000 + Bits(b2, 0x80) * 0x40 + Bits(b3, 0x80))
            == [b0, b1, b2, b3]
  {
    JoinFour(Bits(b0, 0xF0), Bits(b1, 0x80), Bits(b2, 0x80), Bits(b3, 0x80));
  }

  /** What is read as a character is its one encoding. */
  lemma Utf8OfDecode(b: seq<Byte>)
    requires DecodeRune(b).Some?
    ensures var r := DecodeRune(b).value; Utf8(r.0) == b[..r.1]
  {
    var n := DecodeRune(b).value.1;
    if n == 3 {
      ThreeBytes(b[0], b[1], b[2]);
      assert b[..3] == [b[0], b[1], b[2]];
    } else if n == 4 {
      FourBytes(b[0], b[1], b[2], b[3]);
      assert b[..4] == [b[0], b[1], b[2], b[3]];
    }
  }

  /** Writing text and reading it back gives the text. */
  lemma {:induction false} RunesOfEncode(s: seq<Scalar>)
    ensures ValidUtf8(Encode8(s)) && Runes(Encode8(s)) == s
  {
    if s != [] {
      var b := Encode8(s);
      DecodeOfUtf8(s[0], Encode8(s[1..]));
      assert b[|Utf8(s[0])|..] == Encode8(s[1..]);
      RunesOfEncode(s[1..]);
    }
  }

  lemma RunesFirst(b: seq<Byte>)
    requires DecodeRune(b).Some?
    ensures var n := DecodeRune(b).value.1; Encode8(Runes(b)) == b[..n] + Encode8(Runes(b[n..]))
  {
    var r := DecodeRune(b).value;
    Utf8OfDecode(b);
    assert Runes(b)[0] == r.0 && Runes(b)[1..] == Runes(b[r.1..]);
  }

  lemma JoinRunes(b: seq<Byte>)
    requires DecodeRune(b).Some?
    requires var rest := b[DecodeRune(b).value.1..]; Encode8(Runes(rest)) == rest
    ensures Encode8(Runes(b)) == b
  {
    RunesFirst(b);
  }

  /** Every valid byte string is the encoding of its runes. */
  lemma {:induction false} EncodeOfRunes(b: seq<Byte>)
    requires ValidUtf8(b)
    ensures Encode8(Runes(b)) == b
    decreases |b|
  {
    if b != [] {
      EncodeOfRunes(b[DecodeRune(b).value.1..]);
      JoinRunes(b);
    }
  }

  // ----- UTF-16 -----

  function Utf16(c: Scalar): (u: seq<Unit>)
    ensures 1 <= |u| <= 2
  {
    if c < 0x10000 then [c] else [0xD800 + (c - 0x10000) / 0x400, 0xDC00 + (c - 0x10000) % 0x400]
  }

  function Encode16(s: seq<Scalar>): seq<Unit> {
    if s == [] then [] else Utf16(s[0]) + Encode16(s[1..])
  }

  predicate High(u: Unit) {
    0xD800 <= u < 0xDC00
  }

  predicate Low(u: Unit) {
    0xDC00 <= u < 0xE000
  }

  /** An unpaired surrogate becomes U+FFFD. */
  function Decode16(u: seq<Unit>): seq<Scalar>
    decreases |u|
  {
    if u == [] then []
    else if !High(u[0]) && !Low(u[0]) then [u[0] as Scalar] + Decode16(u[1..])
    else if High(u[0]) && |u| >= 2 && Low(u[1]) then
      [0x10000 + Bits(u[0], 0xD800) * 0x400 + Bits(u[1], 0xDC00)] + Decode16(u[2..])
    else [REPLACEMENT] + Decode16(u[1..])
  }

  lemma DecodeFirst(c: Scalar, rest: seq<Unit>)
    ensures Decode16(Utf16(c) + rest) == [c] + Decode16(rest)
  {
    var u := Utf16(c) + rest;
    assert u[|Utf16(c)|..] == rest;
    if c >= 0x10000 {
      var d := c - 0x10000;
      assert u[0] == 0xD800 + d / 0x400 && u[1] == 0xDC00 + d % 0x400;
      assert d == d / 0x400 * 0x400 + d % 0x400;
    }
  }

  /** Surrogate pairs included, encoding loses nothing. */
  lemma {:induction false} DecodeOfEncode(s: seq<Scalar>)
    ensures Decode16(Encode16(s)) == s
  {
    if s != [] {
      DecodeFirst(s[0], Encode16(s[1..]));
      DecodeOfEncode(s[1..]);
    }
  }

  lemma EncodeFirst(s: seq<Scalar>, rest: seq<Unit>)
    requires s != []
    ensures Encode16(s) + rest == Utf16(s[0]) + (Encode16(s[1..]) + rest)
  {
  }

  lemma ConsAppend<T>(s: seq<T>, rest: seq<T>)
    requires s != []
    ensures [s[0]] + (s[1..] + rest) == s + rest
  {
  }

  lemma {:induction false} DecodeAfter(s: seq<Scalar>, rest: seq<Unit>)
    ensures Decode16(Encode16(s) + rest) == s + Decode16(rest)
  {
    if s == [] {
      assert Encode16(s) + rest == rest;
    } else {
      var more := Encode16(s[1..]) + rest;
      EncodeFirst(s, rest);
      DecodeFirst(s[0], more);
      DecodeAfter(s[1..], rest);
      ConsAppend(s, Decode16(rest));
    }
  }

  /** After any text, a surrogate without its other half is read as U+FFFD, and the reading
      goes on with the very next unit. */
  lemma LoneSurrogate(s: seq<Scalar>, x: Unit, rest: seq<Unit>)
    requires 0xDC00 <= x < 0xE000 || (0xD800 <= x < 0xDC00 && (rest == [] || !(0xDC00 <= rest[0] < 0xE000)))
    ensures Decode16(Encode16(s) + ([x] + rest)) == s + ([0xFFFD] + Decode16(rest))
  {
    DecodeAfter(s, [x] + rest);
    assert ([x] + rest)[1..] == rest;
  }

  lemma {:induction false} Encode16Concat(a: seq<Scalar>, b: seq<Scalar>)
    ensures Encode16(a + b) == Encode16(a) + Encode16(b)
  {
    if a == [] {
      assert a + b == b;
    } else {
      assert (a + b)[1..] == a[1..] + b;
      Encode16Concat(a[1..], b);
    }
  }

  lemma {:induction false} Encode8Concat(a: seq<Scalar>, b: seq<Scalar>)
    ensures Encode8(a + b) == Encode8(a) + Encode8(b)
  {
    if a == [] {
      assert a + b == b;
    } else {
      assert (a + b)[1..] == a[1..] + b;
      Encode8Concat(a[1..], b);
    }
  }

  /** A character below U+10000 and outside the surrogates appears as a unit exactly where it
      appears in the text. */
  lemma {:induction false} UnitsOfEncode(s: seq<Scalar>, c: Scalar)
    requires c < 0x10000
    ensures c in Encode16(s) <==> c in s
  {
    if s != [] {
      UnitsOfEncode(s[1..], c);
      assert s == [s[0]] + s[1..];
    }
  }

  /** The zero byte appears exactly where U+0000 does. */
  lemma {:induction false} ZeroByte(s: seq<Scalar>)
    ensures 0 in Encode8(s) <==> 0 in s
  {
    if s != [] {
      ZeroByte(s[1..]);
      assert s == [s[0]] + s[1..];
    }
  }
}
