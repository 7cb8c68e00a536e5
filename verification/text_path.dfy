/** Text on its way from a POST through the Windows clipboard to the next GET. */
module TextPath {
  import opened Basics
  import opened Unicode
  import opened JsonText

  /** A Go string. */
  type Text = seq<Byte>

  // ----- the clipboard's block of memory -----

  function Bytes(u: seq<Unit>): seq<Byte> {
    if u == [] then [] else [u[0] % 0x100, u[0] / 0x100] + Bytes(u[1..])
  }

  /** Whole units of a block; an odd last byte is not read. */
  function Units(b: seq<Byte>): (u: seq<Unit>)
    ensures |u| == |b| / 2
  {
    if |b| < 2 then [] else [Bits(b[0], 0) + 0x100 * Bits(b[1], 0)] + Units(b[2..])
  }

  function FirstZero(u: seq<Unit>): (n: nat)
    ensures n <= |u|
  {
    if u == [] || u[0] == 0 then 0 else 1 + FirstZero(u[1..])
  }

  /** The text as units, with its terminator. */
  function Block(text: Text): seq<Byte> {
    Bytes(Encode16(Runes(text)) + [0])
  }

  /** None is "no text". */
  function ReadBlock(block: seq<Byte>): Option<Text> {
    var u := Units(block);
    var end := FirstZero(u);
    if end == 0 then None else Some(Encode8(Decode16(u[..end])))
  }

  lemma {:induction false} UnitsOfBytes(u: seq<Unit>, tail: seq<Byte>)
    ensures Units(Bytes(u) + tail) == u + Units(tail)
  {
    if u == [] {
      assert Bytes(u) + tail == tail;
    } else {
      var rest := Bytes(u[1..]) + tail;
      UnitsOfBytes(u[1..], tail);
      FirstUnit(u[0], rest);
      assert Bytes(u) + tail == [u[0] % 0x100, u[0] / 0x100] + rest;
      assert [u[0]] + (u[1..] + Units(tail)) == u + Units(tail);
    }
  }

  lemma FirstUnit(x: Unit, rest: seq<Byte>)
    ensures Units([x % 0x100, x / 0x100] + rest) == [x] + Units(rest)
  {
    var b: seq<Byte> := [x % 0x100, x / 0x100] + rest;
    assert b[2..] == rest;
  }

  lemma {:induction false} FirstZeroIs(u: seq<Unit>, n: nat)
    requires n <= |u| && (forall k | 0 <= k < n :: u[k] != 0) && (n == |u| || u[n] == 0)
    ensures FirstZero(u) == n
  {
    if n > 0 {
      FirstZeroIs(u[1..], n - 1);
    }
  }

  /** Text without NUL comes back from its block, whatever follows the terminator and
      however much longer the block is: surrogate pairs and an odd last byte included. */
  lemma BlockRoundTrip(text: Text, tail: seq<Byte>)
    requires ValidUtf8(text) && text != [] && 0 !in text
    ensures ReadBlock(Block(text) + tail) == Some(text)
  {
    var s := Runes(text);
    var u := Encode16(s);
    EncodeOfRunes(text);
    ZeroByte(s);
    UnitsOfEncode(s, 0);
    UnitsOfBytes(u + [0], tail);
    var all := u + [0] + Units(tail);
    assert forall k | 0 <= k < |u| :: all[k] == u[k] && u[k] in u;
    FirstZeroIs(all, |u|);
    assert all[..|u|] == u;
    DecodeOfEncode(s);
    assert |u| > 0;
  }

  lemma {:induction false} UnitAt(b: seq<Byte>, i: nat)
    requires i < |b| / 2
    ensures Units(b)[i] == Bits(b[2 * i], 0) + 0x100 * Bits(b[2 * i + 1], 0)
  {
    if i > 0 {
      UnitAt(b[2..], i - 1);
    }
  }

  lemma ZeroUnit(b: seq<Byte>, k: nat)
    requires k < |b| / 2
    ensures Units(b)[k] == 0 <==> b[2 * k] == 0 && b[2 * k + 1] == 0
  {
    UnitAt(b, k);
  }

  /** What is read is the units up to the first zero one, or up to the end if there is none;
      an unpaired surrogate among them is U+FFFD (`Unicode.LoneSurrogate`). */
  lemma ReadBlockExactly(block: seq<Byte>, end: nat)
    requires end <= |block| / 2
    requires forall k | 0 <= k < end :: block[2 * k] != 0 || block[2 * k + 1] != 0
    requires end == |block| / 2 || (block[2 * end] == 0 && block[2 * end + 1] == 0)
    ensures ReadBlock(block) == if end == 0 then None else Some(Encode8(Decode16(Units(block)[..end])))
  {
    var u := Units(block);
    forall k: nat | k < |u|
      ensures u[k] == 0 <==> block[2 * k] == 0 && block[2 * k + 1] == 0
    {
      ZeroUnit(block, k);
    }
    FirstZeroIs(u, end);
  }

  lemma {:induction false} NoZeroDecoded(u: seq<Unit>)
    requires forall k | 0 <= k < |u| :: u[k] != 0
    ensures 0 !in Decode16(u) && (u != [] ==> Decode16(u) != [])
    decreases |u|
  {
    if u != [] {
      NoZeroDecoded(u[1..]);
      if |u| >= 2 {
        NoZeroDecoded(u[2..]);
      }
    }
  }

  lemma {:induction false} BeforeFirstZero(u: seq<Unit>)
    ensures forall k | 0 <= k < FirstZero(u) :: u[k] != 0
  {
    if u != [] && u[0] != 0 {
      BeforeFirstZero(u[1..]);
      assert forall k | 0 < k < FirstZero(u) :: u[k] == u[1..][k - 1];
    }
  }

  /** Whatever another program left in the clipboard, what is read is valid text, not empty
      and without NUL. */
  lemma ReadIsClean(block: seq<Byte>)
    ensures ReadBlock(block).Some? ==>
              var t := ReadBlock(block).value; ValidUtf8(t) && t != [] && 0 !in t
  {
    var u := Units(block);
    var end := FirstZero(u);
    if end > 0 {
      BeforeFirstZero(u);
      NoZeroDecoded(u[..end]);
      RunesOfEncode(Decode16(u[..end]));
      ZeroByte(Decode16(u[..end]));
    }
  }

  // ----- reading and writing the clipboard -----

  datatype Failure = Busy | Unavailable | Broken

  /** How the calls of one read go; `failure` is the error of the one that fails. */
  datatype ReadFate = ReadFate(starts: bool, getsData: bool, locks: bool, cleans: bool, failure: Failure)

  datatype ReadResult = NoText | Unread(failure: Failure) | Read(text: Text)

  function ReadOutcome(block: Option<seq<Byte>>, f: ReadFate): ReadResult {
    if !f.starts || !f.cleans then Unread(f.failure)
    else if block.None? then NoText
    else if !f.getsData || |block.value| == 0 then Unread(f.failure)
    else if |block.value| < 2 then NoText
    else if !f.locks then Unread(f.failure)
    else var t := ReadBlock(block.value); if t.None? then NoText else Read(t.value)
  }

  /** `handle` is the memory allocated, if any; `tail` what a larger block holds beyond what
      is written. */
  datatype WriteFate = WriteFate(
    cancelled: bool, handle: Option<nat>, locks: bool, starts: bool, empties: bool, sets: bool, cleans: bool,
    tail: seq<Byte>, failure: Failure)

  /** The clipboard's new block, and the error if there is one. Once emptied, the clipboard
      is left empty if the data cannot be set. */
  function WriteOutcome(block: Option<seq<Byte>>, text: Text, f: WriteFate): (Option<seq<Byte>>, Option<Failure>) {
    if f.cancelled || f.handle.None? || !f.locks || !f.starts || !f.empties then (block, Some(f.failure))
    else if !f.sets then (None, Some(f.failure))
    else (Some(Block(text) + f.tail), if f.cleans then None else Some(f.failure))
  }

  /** A failed write either leaves the clipboard as it was, empties it, or, if only the
      cleanup failed, has written the whole text: never a part of it. */
  lemma WriteIsWhole(block: Option<seq<Byte>>, text: Text, f: WriteFate)
    requires ValidUtf8(text) && text != [] && 0 !in text
    ensures var (after, failure) := WriteOutcome(block, text, f);
            && (after == block || after.None? || (after.Some? && ReadBlock(after.value) == Some(text)))
            && (failure.None? ==> after.Some? && ReadBlock(after.value) == Some(text))
  {
    BlockRoundTrip(text, f.tail);
  }

  class WindowsClipboard {
    var block: Option<seq<Byte>>
    /** Memory handles this process has to free. */
    var live: set<nat>

    constructor (block: Option<seq<Byte>>)
      ensures this.block == block && live == {}
    {
      this.block, live := block, {};
    }

    /** The copy out of the locked block. */
    method MoveMemory(units: array<Unit>, from: seq<Byte>)
      requires units.Length == |from| / 2
      modifies units
      ensures units[..] == Units(from)
    {
      for i := 0 to units.Length
        invariant forall k | 0 <= k < i :: units[k] == Units(from)[k]
      {
        UnitAt(from, i);
        units[i] := Bits(from[2 * i], 0) + 0x100 * Bits(from[2 * i + 1], 0);
      }
    }

    method ReadText(f: ReadFate) returns (r: ReadResult)
      ensures r == ReadOutcome(block, f)
    {
      if !f.starts || !f.cleans {
        return Unread(f.failure);
      }
      if block.None? {
        return NoText;
      }
      var size := |block.value|;
      if !f.getsData || size == 0 {
        return Unread(f.failure);
      }
      if size < 2 {
        return NoText;
      }
      if !f.locks {
        return Unread(f.failure);
      }
      var units := new Unit[size / 2];
      MoveMemory(units, block.value);
      var end := 0;
      while end < units.Length && units[end] != 0
        invariant 0 <= end <= units.Length && forall k | 0 <= k < end :: units[k] != 0
      {
        end := end + 1;
      }
      FirstZeroIs(units[..], end);
      if end == 0 {
        return NoText;
      }
      assert units[..end] == units[..][..end];
      r := Read(Encode8(Decode16(units[..end])));
    }

    /** Only memory still owned may be freed. */
    method Free(handle: nat)
      requires handle in live
      modifies this`live
      ensures live == old(live) - {handle}
    {
      live := live - {handle};
    }

    /** Whatever fails, the memory is freed exactly if the system did not take it over. */
    method WriteText(text: Text, f: WriteFate) returns (failure: Option<Failure>)
      requires f.handle.Some? ==> f.handle.value !in live
      modifies this
      ensures var emptied := !f.cancelled && f.handle.Some? && f.locks && f.starts && f.empties;
              && block == (if !emptied then old(block) else if f.sets then Some(Block(text) + f.tail) else None)
              && failure == if emptied && f.sets && f.cleans then None else Some(f.failure)
      ensures (block, failure) == WriteOutcome(old(block), text, f)
      ensures live == old(live)
    {
      if f.cancelled {
        return Some(f.failure);
      }
      var units := Encode16(Runes(text));
      units := units + [0];
      if f.handle.None? {
        return Some(f.failure);
      }
      var handle := f.handle.value;
      live := live + {handle};
      var owned := true;
      failure := Some(f.failure);
      if f.locks && f.starts && f.empties {
        block := None;
        if f.sets {
          block := Some(Bytes(units) + f.tail);
          live := live - {handle};
          owned := false;
          failure := if f.cleans then None else Some(f.failure);
        }
      }
      if owned {
        Free(handle);
      }
    }
  }

  // ----- the API's two handlers -----

  const MAX_TEXT_BYTES: nat := 1_048_576
  const MAX_BODY_BYTES: nat := MAX_TEXT_BYTES * 6 + 4096

  /** The limit the simple entry reads a clipboard body with. */
  const OUTER_BODY_BYTES: nat := MAX_TEXT_BYTES * 6 + 4096

  datatype Reply = Refused(status: nat, code: string) | Stored(bytes: nat) | Empty | TextReply(text: Text)

  /** `decoded` is the text if the body is one JSON object with exactly a text string; the
      decoder only ever yields valid UTF-8. */
  datatype Post = Post(json: bool, body: seq<Byte>, decoded: Option<Text>)

  function FailureReply(e: Failure): Reply {
    match e
    case Busy => Refused(503, "clipboard_busy")
    case Unavailable => Refused(503, "clipboard_unavailable")
    case Broken => Refused(500, "internal_error")
  }

  /** Why a post is turned down before the clipboard is touched. */
  function Objection(p: Post): Option<Reply> {
    if !p.json then Some(Refused(415, "invalid_request"))
    else if |p.body| > MAX_BODY_BYTES then Some(Refused(413, "text_too_large"))
    else if !ValidUtf8(p.body) then Some(Refused(400, "invalid_text"))
    else if p.decoded.None? then Some(Refused(400, "invalid_request"))
    else if p.decoded.value == [] || 0 in p.decoded.value then Some(Refused(400, "invalid_text"))
    else if |p.decoded.value| > MAX_TEXT_BYTES then Some(Refused(413, "text_too_large"))
    else None
  }

  function PostOutcome(block: Option<seq<Byte>>, p: Post, f: WriteFate): (Option<seq<Byte>>, Reply) {
    var no := Objection(p);
    if no.Some? then (block, no.value)
    else
      var (after, failure) := WriteOutcome(block, p.decoded.value, f);
      (after, if failure.Some? then FailureReply(failure.value) else Stored(|p.decoded.value|))
  }

  /** A JSON post within the body bound whose text is valid, not empty, without NUL and within
      1 MiB. */
  predicate Postable(p: Post) {
    && p.json && |p.body| <= 6 * 1_048_576 + 4096 && ValidUtf8(p.body)
    && p.decoded.Some? && p.decoded.value != [] && 0 !in p.decoded.value && |p.decoded.value| <= 1_048_576
  }

  /** A post is answered as stored if and only if it is postable and every step of the write
      goes well, the closing of the clipboard included; and then with the length of the text. */
  lemma StoredExactly(block: Option<seq<Byte>>, p: Post, f: WriteFate, n: nat)
    ensures PostOutcome(block, p, f).1 == Stored(n) <==>
            && Postable(p) && n == |p.decoded.value|
            && !f.cancelled && f.handle.Some? && f.locks && f.starts && f.empties && f.sets && f.cleans
  {
  }

  /** Which refusal a post gets. */
  lemma RefusedExactly(block: Option<seq<Byte>>, p: Post, f: WriteFate)
    ensures var reply := PostOutcome(block, p, f).1;
            var read := p.json && |p.body| <= 6 * 1_048_576 + 4096;
            var text := read && ValidUtf8(p.body) && p.decoded.Some?;
            && (reply.Refused? && reply.status == 415 <==> !p.json)
            && (reply == Refused(413, "text_too_large") <==>
                  && p.json
                  && (!read || (text && p.decoded.value != [] && 0 !in p.decoded.value
                                && |p.decoded.value| > 1_048_576)))
            && (reply == Refused(400, "invalid_text") <==>
                  read && (!ValidUtf8(p.body) || (text && (p.decoded.value == [] || 0 in p.decoded.value))))
            && (reply == Refused(400, "invalid_request") <==> read && ValidUtf8(p.body) && p.decoded.None?)
    ensures var (after, reply) := PostOutcome(block, p, f);
            if Postable(p)
            then reply.Stored? || reply == match f.failure
                                           case Busy => Refused(503, "clipboard_busy")
                                           case Unavailable => Refused(503, "clipboard_unavailable")
                                           case Broken => Refused(500, "internal_error")
            else after == block && reply.Refused?
  {
  }

  function GetOutcome(block: Option<seq<Byte>>, f: ReadFate): Reply {
    var r := ReadOutcome(block, f);
    match r
    case NoText => Empty
    case Unread(e) => FailureReply(e)
    case Read(text) =>
      if text == [] then Empty
      else if !ValidUtf8(text) || 0 in text then Refused(500, "invalid_text")
      else if |text| > MAX_TEXT_BYTES then Refused(413, "text_too_large")
      else TextReply(text)
  }

  /** The block is read whole: whatever there is to be read is had. */
  predicate GetsBlock(block: seq<Byte>, f: ReadFate) {
    f.getsData && block != [] && (|block| == 1 || f.locks)
  }

  /** A GET says "empty" only if its calls went well and there is no text: no format, one
      byte, or a zero first unit. A read that fails is refused with the code of its failure,
      even after the text was had. Everything else is the text, or too much of it. */
  lemma GetExactly(block: Option<seq<Byte>>, f: ReadFate)
    ensures var r := GetOutcome(block, f);
            var had := f.starts && f.cleans && (block.Some? ==> GetsBlock(block.value, f));
            && (r.Empty? <==>
                  had && (block.None? || |block.value| == 1 || (block.value[0] == 0 && block.value[1] == 0)))
            && (!had ==> r == match f.failure
                              case Busy => Refused(503, "clipboard_busy")
                              case Unavailable => Refused(503, "clipboard_unavailable")
                              case Broken => Refused(500, "internal_error"))
            && (had && !r.Empty? ==>
                  && ReadBlock(block.value).Some?
                  && r == if |ReadBlock(block.value).value| <= 1_048_576 then TextReply(ReadBlock(block.value).value)
                          else Refused(413, "text_too_large"))
  {
    if block.Some? && |block.value| >= 2 {
      ReadIsClean(block.value);
      ZeroUnit(block.value, 0);
    }
  }

  predicate AllGoesWell(f: ReadFate) {
    f.starts && f.getsData && f.locks && f.cleans
  }

  /** Any text a POST accepts is returned by the next GET, byte for byte. */
  lemma PostThenGet(block: Option<seq<Byte>>, p: Post, wf: WriteFate, rf: ReadFate)
    requires p.decoded.Some? ==> ValidUtf8(p.decoded.value)
    requires PostOutcome(block, p, wf).1.Stored? && AllGoesWell(rf)
    ensures GetOutcome(PostOutcome(block, p, wf).0, rf) == TextReply(p.decoded.value)
  {
    BlockRoundTrip(p.decoded.value, wf.tail);
    BytesLength(Encode16(Runes(p.decoded.value)) + [0]);
  }

  lemma {:induction false} BytesLength(u: seq<Unit>)
    ensures |Bytes(u)| == 2 * |u|
  {
    if u != [] {
      BytesLength(u[1..]);
    }
  }

  /** The GET handler's own validity check never fires on this clipboard: what it returns is
      always valid, within the bound, not empty and without NUL. */
  lemma GetReturnsCleanText(block: Option<seq<Byte>>, f: ReadFate)
    ensures var r := GetOutcome(block, f);
            && r != Refused(500, "invalid_text")
            && (r.TextReply? ==> ValidUtf8(r.text) && r.text != [] && 0 !in r.text && |r.text| <= MAX_TEXT_BYTES)
  {
    if block.Some? {
      ReadIsClean(block.value);
    }
  }

  class Handlers {
    const clipboard: WindowsClipboard

    constructor (clipboard: WindowsClipboard)
      ensures this.clipboard == clipboard
    {
      this.clipboard := clipboard;
    }

    method WriteClipboard(p: Post, f: WriteFate) returns (reply: Reply)
      requires f.handle.Some? ==> f.handle.value !in clipboard.live
      modifies clipboard
      ensures (clipboard.block, reply) == PostOutcome(old(clipboard.block), p, f)
      ensures clipboard.live == old(clipboard.live)
    {
      if !p.json {
        return Refused(415, "invalid_request");
      }
      if |p.body| > MAX_BODY_BYTES {
        return Refused(413, "text_too_large");
      }
      if !ValidUtf8(p.body) {
        return Refused(400, "invalid_text");
      }
      if p.decoded.None? {
        return Refused(400, "invalid_request");
      }
      var text := p.decoded.value;
      if text == [] || 0 in text {
        return Refused(400, "invalid_text");
      }
      if |text| > MAX_TEXT_BYTES {
        return Refused(413, "text_too_large");
      }
      var failure := clipboard.WriteText(text, f);
      reply := if failure.Some? then FailureReply(failure.value) else Stored(|text|);
    }

    method ReadClipboard(f: ReadFate) returns (reply: Reply)
      ensures reply == GetOutcome(clipboard.block, f)
    {
      var r := clipboard.ReadText(f);
      if r.NoText? || (r.Read? && r.text == []) {
        return Empty;
      }
      if r.Unread? {
        return FailureReply(r.failure);
      }
      if !ValidUtf8(r.text) || 0 in r.text {
        return Refused(500, "invalid_text");
      }
      if |r.text| > MAX_TEXT_BYTES {
        return Refused(413, "text_too_large");
      }
      reply := TextReply(r.text);
    }
  }

  // ----- no false rejection by size -----

  lemma SpelledShort(c: Scalar, sp: Spelling)
    requires Legal(c, sp)
    ensures |Spelled(c, sp)| <= 6 * |Utf8(c)|
  {
  }

  lemma {:induction false} SixTimesAtMost(s: seq<Scalar>, how: seq<Spelling>)
    requires AllLegal(s, how)
    ensures |SpelledText(s, how)| <= 6 * |Encode8(s)|
  {
    if s != [] {
      LegalTail(s, how);
      SpelledShort(s[0], how[0]);
      SixTimesAtMost(s[1..], how[1..]);
    }
  }

  /** Every text within the bound, however a client escapes it, with up to 4085 bytes of extra
      whitespace, is within both body limits. */
  lemma NoFalseSizeRejection(s: seq<Scalar>, how: seq<Spelling>, g: Gaps)
    requires AllLegal(s, how) && |Encode8(s)| <= MAX_TEXT_BYTES && g.Size() <= 4085
    ensures |Body(s, how, g)| <= MAX_BODY_BYTES && |Body(s, how, g)| <= OUTER_BODY_BYTES
  {
    SixTimesAtMost(s, how);
    BodyLength(s, how, g);
  }

  /** A post of this text, spelled in this way, decoded as `ReadText` decodes it. */
  predicate Carries(p: Post, s: seq<Scalar>, how: seq<Spelling>, g: Gaps) {
    && p.json && AllLegal(s, how) && g.Valid() && g.Size() <= 4085
    && p.body == Body(s, how, g) && p.decoded == ReadText(p.body)
  }

  /** No spelling of a text that may be posted is turned down, and the text is what is posted. */
  lemma NoSpellingRejected(p: Post, s: seq<Scalar>, how: seq<Spelling>, g: Gaps)
    requires Carries(p, s, how, g) && s != [] && 0 !in s && |Encode8(s)| <= MAX_TEXT_BYTES
    ensures p.decoded == Some(Encode8(s)) && Objection(p) == None
  {
    ReadBodyOfBody(s, how, g);
    NoFalseSizeRejection(s, how, g);
    BodyIsValid(s, how, g);
    ZeroByte(s);
  }

  /** What a GET returned, posted back in any legal spelling with up to 4085 bytes of extra
      whitespace, is not turned down; and if the clipboard takes it, the next GET returns the
      same text again. */
  lemma GetPostGet(block: Option<seq<Byte>>, f: ReadFate, how: seq<Spelling>, g: Gaps,
                   later: Option<seq<Byte>>, p: Post, wf: WriteFate, rf: ReadFate)
    requires GetOutcome(block, f).TextReply? && Carries(p, Runes(GetOutcome(block, f).text), how, g)
    ensures Objection(p) == None
    ensures PostOutcome(later, p, wf).1.Stored? && AllGoesWell(rf) ==>
              GetOutcome(PostOutcome(later, p, wf).0, rf) == GetOutcome(block, f)
  {
    var s := Runes(GetOutcome(block, f).text);
    GetReturnsCleanText(block, f);
    EncodeOfRunes(GetOutcome(block, f).text);
    ZeroByte(s);
    NoSpellingRejected(p, s, how, g);
    if PostOutcome(later, p, wf).1.Stored? && AllGoesWell(rf) {
      PostThenGet(later, p, wf, rf);
    }
  }

  lemma {:induction false} ControlText(n: nat) returns (s: seq<Scalar>, how: seq<Spelling>)
    ensures AllLegal(s, how) && |s| == n && |Encode8(s)| == n && |SpelledText(s, how)| == 6 * n
  {
    if n == 0 {
      s, how := [], [];
    } else {
      var rest, others := ControlText(n - 1);
      s, how := [1] + rest, [Hex([])] + others;
      LegalCons(1, Hex([]), rest, others);
      assert s[1..] == rest && how[1..] == others;
    }
  }

  /** The bound leaves nothing to spare: there is a text of exactly 1 MiB that fits if and only
      if there are at most 4085 bytes of extra whitespace. */
  lemma BoundIsExact() returns (s: seq<Scalar>, how: seq<Spelling>)
    ensures AllLegal(s, how) && |Encode8(s)| == MAX_TEXT_BYTES
    ensures forall g: Gaps :: |Body(s, how, g)| <= MAX_BODY_BYTES <==> g.Size() <= 4085
  {
    s, how := ControlText(MAX_TEXT_BYTES);
    forall g: Gaps
      ensures |Body(s, how, g)| <= MAX_BODY_BYTES <==> g.Size() <= 4085
    {
      BodyLength(s, how, g);
    }
  }
}
