/** Text with tokens in it, as the shortcut builder writes it: one string with a placeholder
    for each token, and the tokens by their UTF-16 offsets. */
module RichText {
  import opened Basics
  import opened Unicode

  const PLACEHOLDER: Scalar := 0xFFFC

  datatype Part = Literal(text: seq<Scalar>) | Token(id: nat)

  /** `attachments` is keyed by offset; every range has length 1. */
  datatype Rich = Rich(text: seq<Scalar>, attachments: map<nat, nat>)

  function Offset(text: seq<Scalar>): nat {
    |Encode16(text)|
  }

  function AddPart(r: Rich, p: Part): Rich {
    match p
    case Literal(t) => r.(text := r.text + t)
    case Token(id) => Rich(r.text + [PLACEHOLDER], r.attachments[Offset(r.text) := id])
  }

  function RichOf(parts: seq<Part>): Rich {
    if parts == [] then Rich([], map[]) else AddPart(RichOf(parts[..|parts| - 1]), parts[|parts| - 1])
  }

  /** The offsets in the order in which the tokens were placed. */
  function Offsets(parts: seq<Part>): seq<nat> {
    if parts == [] then []
    else
      var before := parts[..|parts| - 1];
      Offsets(before) + if parts[|parts| - 1].Token? then [Offset(RichOf(before).text)] else []
  }

  // ----- what the host sees -----

  /** One UTF-16 position: a unit of text, or a token. */
  datatype Cell = Char(unit: Unit) | Mark(id: nat)

  /** The string and the attachments read together, position by position. */
  function Cells(r: Rich): seq<Cell> {
    var u := Encode16(r.text);
    seq(|u|, k requires 0 <= k < |u| => if k in r.attachments then Mark(r.attachments[k]) else Char(u[k]))
  }

  function CellsOf(u: seq<Unit>): seq<Cell> {
    seq(|u|, k requires 0 <= k < |u| => Char(u[k]))
  }

  function PartCells(p: Part): seq<Cell> {
    match p
    case Literal(t) => CellsOf(Encode16(t))
    case Token(id) => [Mark(id)]
  }

  /** What the parts mean, whatever way they are written down. */
  function Meant(parts: seq<Part>): seq<Cell> {
    if parts == [] then [] else Meant(parts[..|parts| - 1]) + PartCells(parts[|parts| - 1])
  }

  ghost predicate Clean(parts: seq<Part>) {
    forall p | p in parts && p.Literal? :: PLACEHOLDER !in p.text
  }

  lemma PlaceholderUnit()
    ensures Encode16([PLACEHOLDER]) == [PLACEHOLDER]
  {
    assert [PLACEHOLDER][1..] == [];
    assert Encode16([PLACEHOLDER]) == Utf16(PLACEHOLDER) + Encode16([]);
  }

  /** The attachments are exactly the positions of the placeholders. */
  ghost predicate Addressed(r: Rich) {
    var u := Encode16(r.text);
    forall k: nat :: k in r.attachments <==> k < |u| && u[k] == PLACEHOLDER
  }

  lemma LiteralKeepsAddresses(r: Rich, t: seq<Scalar>)
    requires Addressed(r) && PLACEHOLDER !in t
    ensures Addressed(AddPart(r, Literal(t)))
  {
    var u, v := Encode16(r.text), Encode16(r.text + t);
    Encode16Concat(r.text, t);
    UnitsOfEncode(t, PLACEHOLDER);
    forall k: nat | |u| <= k < |v|
      ensures v[k] != PLACEHOLDER
    {
      assert v[k] == Encode16(t)[k - |u|];
    }
  }

  lemma LiteralAdded(r: Rich, t: seq<Scalar>)
    requires Addressed(r) && PLACEHOLDER !in t
    ensures Addressed(AddPart(r, Literal(t))) && Cells(AddPart(r, Literal(t))) == Cells(r) + CellsOf(Encode16(t))
  {
    var more := AddPart(r, Literal(t));
    var u, w := Encode16(r.text), Encode16(t);
    Encode16Concat(r.text, t);
    LiteralKeepsAddresses(r, t);
    var got, want := Cells(more), Cells(r) + CellsOf(w);
    forall k | 0 <= k < |u| + |w|
      ensures got[k] == want[k]
    {
      if k >= |u| {
        assert k !in r.attachments;
        assert want[k] == CellsOf(w)[k - |u|] == Char(w[k - |u|]);
      }
    }
    assert got == want;
  }

  lemma TokenAdded(r: Rich, id: nat)
    requires Addressed(r)
    ensures Addressed(AddPart(r, Token(id))) && Cells(AddPart(r, Token(id))) == Cells(r) + [Mark(id)]
    ensures Offset(r.text) !in r.attachments
  {
    var more := AddPart(r, Token(id));
    var u := Encode16(r.text);
    Encode16Concat(r.text, [PLACEHOLDER]);
    PlaceholderUnit();
    assert Encode16(more.text) == u + [PLACEHOLDER];
  }

  /** Read together, the string and the attachments give back exactly what was placed, and
      every attachment addresses one placeholder, every placeholder one attachment. */
  lemma {:induction false} RichSaysWhatWasMeant(parts: seq<Part>)
    requires Clean(parts)
    ensures Addressed(RichOf(parts)) && Cells(RichOf(parts)) == Meant(parts)
  {
    if parts == [] {
      assert Encode16([]) == [];
    } else {
      var before, last := parts[..|parts| - 1], parts[|parts| - 1];
      assert last in parts;
      RichSaysWhatWasMeant(before);
      match last {
        case Literal(t) => LiteralAdded(RichOf(before), t);
        case Token(id) => TokenAdded(RichOf(before), id);
      }
    }
  }

  /** The offsets strictly increase, so no token overwrites another. */
  lemma {:induction false} OffsetsIncrease(parts: seq<Part>)
    requires Clean(parts)
    ensures var o := Offsets(parts);
            && (forall i, j | 0 <= i < j < |o| :: o[i] < o[j])
            && (forall i | 0 <= i < |o| :: o[i] < Offset(RichOf(parts).text) && o[i] in RichOf(parts).attachments)
            && |RichOf(parts).attachments| == |o|
  {
    if parts != [] {
      var before, last := parts[..|parts| - 1], parts[|parts| - 1];
      OffsetsIncrease(before);
      RichSaysWhatWasMeant(before);
      var r := RichOf(before);
      match last {
        case Literal(t) => Encode16Concat(r.text, t);
        case Token(id) =>
          TokenAdded(r, id);
          Encode16Concat(r.text, [PLACEHOLDER]);
          PlaceholderUnit();
      }
    }
  }

  // ----- splitting it again -----

  /** Adjacent literals joined, empty ones dropped. */
  function Merge(parts: seq<Part>): seq<Part> {
    if parts == [] then []
    else Extend(Merge(parts[..|parts| - 1]), parts[|parts| - 1])
  }

  function Extend(parts: seq<Part>, p: Part): seq<Part> {
    if p.Token? then parts + [p]
    else if p.text == [] then parts
    else if parts != [] && parts[|parts| - 1].Literal? then
      parts[..|parts| - 1] + [Literal(parts[|parts| - 1].text + p.text)]
    else parts + [p]
  }

  /** Splits a reading at its tokens: the units between two tokens are one literal. `run` are
      the units since the last token. */
  function Split(cells: seq<Cell>, run: seq<Unit>): seq<Part>
    decreases |cells|
  {
    if cells == [] then Pending(run)
    else
      match cells[0]
      case Char(u) => Split(cells[1..], run + [u])
      case Mark(id) => Pending(run) + [Token(id)] + Split(cells[1..], [])
  }

  function Pending(run: seq<Unit>): seq<Part> {
    if run == [] then [] else [Literal(Decode16(run))]
  }

  lemma {:induction false} SplitLiteral(u: seq<Unit>, rest: seq<Cell>, run: seq<Unit>)
    ensures Split(CellsOf(u) + rest, run) == Split(rest, run + u)
    decreases |u|
  {
    if u == [] {
      assert CellsOf(u) + rest == rest && run + u == run;
    } else {
      assert (CellsOf(u) + rest)[1..] == CellsOf(u[1..]) + rest;
      SplitLiteral(u[1..], rest, run + [u[0]]);
      assert run + [u[0]] + u[1..] == run + u;
    }
  }

  /** Merging from the front, with `text` the literal still open. */
  function MergeFrom(parts: seq<Part>, text: seq<Scalar>): seq<Part>
    decreases |parts|
  {
    if parts == [] then Open(text)
    else
      match parts[0]
      case Literal(t) => MergeFrom(parts[1..], text + t)
      case Token(id) => Open(text) + [Token(id)] + MergeFrom(parts[1..], [])
  }

  function Open(text: seq<Scalar>): seq<Part> {
    if text == [] then [] else [Literal(text)]
  }

  lemma {:induction false} MergeFromSnoc(parts: seq<Part>, text: seq<Scalar>, p: Part)
    ensures MergeFrom(parts + [p], text) == Extend(MergeFrom(parts, text), p)
    decreases |parts|
  {
    var all := parts + [p];
    if parts == [] {
      assert all[1..] == [];
      match p {
        case Literal(t) =>
          assert MergeFrom(all, text) == MergeFrom([], text + t) == Open(text + t);
          assert t == [] ==> text + t == text;
          assert text == [] ==> text + t == t;
        case Token(id) => assert MergeFrom(all, text) == Open(text) + [Token(id)] + MergeFrom([], []);
      }
    } else {
      assert all[1..] == parts[1..] + [p];
      match parts[0] {
        case Literal(t) => MergeFromSnoc(parts[1..], text + t, p);
        case Token(id) =>
          MergeFromSnoc(parts[1..], [], p);
          ExtendAfter(Open(text) + [Token(id)], MergeFrom(parts[1..], []), p);
      }
    }
  }

  lemma ExtendAfter(front: seq<Part>, back: seq<Part>, p: Part)
    requires front != [] && front[|front| - 1].Token?
    ensures Extend(front + back, p) == front + Extend(back, p)
  {
    if back == [] {
      assert front + back == front;
    } else {
      assert (front + back)[..|front + back| - 1] == front + back[..|back| - 1];
    }
  }

  lemma {:induction false} MergeIsMergeFrom(parts: seq<Part>)
    ensures Merge(parts) == MergeFrom(parts, [])
  {
    if parts != [] {
      var before := parts[..|parts| - 1];
      MergeIsMergeFrom(before);
      MergeFromSnoc(before, [], parts[|parts| - 1]);
      assert before + [parts[|parts| - 1]] == parts;
    }
  }

  lemma {:induction false} MeantFront(p: Part, parts: seq<Part>)
    ensures Meant([p] + parts) == PartCells(p) + Meant(parts)
  {
    var all := [p] + parts;
    if parts == [] {
      assert all == [p] && all[..0] == [];
      assert Meant(all) == Meant([]) + PartCells(p);
    } else {
      assert all[..|all| - 1] == [p] + parts[..|parts| - 1];
      MeantFront(p, parts[..|parts| - 1]);
    }
  }

  lemma {:induction false} SplitMeant(parts: seq<Part>, text: seq<Scalar>)
    ensures Split(Meant(parts), Encode16(text)) == MergeFrom(parts, text)
    decreases |parts|
  {
    DecodeOfEncode(text);
    if parts != [] {
      var rest := parts[1..];
      assert parts == [parts[0]] + rest;
      MeantFront(parts[0], rest);
      match parts[0] {
        case Literal(t) =>
          SplitLiteral(Encode16(t), Meant(rest), Encode16(text));
          Encode16Concat(text, t);
          SplitMeant(rest, text + t);
        case Token(id) =>
          assert ([Mark(id)] + Meant(rest))[1..] == Meant(rest);
          assert Encode16([]) == [];
          SplitMeant(rest, []);
      }
    } else {
      assert Encode16(text) == [] <==> text == [];
    }
  }

  /** Token placement is reversible: splitting the string at the recorded offsets gives the
      parts back, with adjacent literals merged, surrogate pairs included. */
  lemma PlacementReversible(parts: seq<Part>)
    requires Clean(parts)
    ensures Split(Cells(RichOf(parts)), []) == Merge(parts)
  {
    RichSaysWhatWasMeant(parts);
    SplitMeant(parts, []);
    MergeIsMergeFrom(parts);
  }

  /** The source's loop. */
  method BuildRich(parts: seq<Part>) returns (r: Rich)
    ensures r == RichOf(parts)
  {
    var text: seq<Scalar> := [];
    var attachments: map<nat, nat> := map[];
    for i := 0 to |parts|
      invariant Rich(text, attachments) == RichOf(parts[..i])
    {
      assert parts[..i + 1][..i] == parts[..i];
      match parts[i] {
        case Literal(t) =>
          text := text + t;
        case Token(id) =>
          var offset := |Encode16(text)|;
          attachments := attachments[offset := id];
          text := text + [PLACEHOLDER];
      }
    }
    assert parts[..|parts|] == parts;
    r := Rich(text, attachments);
  }
}
