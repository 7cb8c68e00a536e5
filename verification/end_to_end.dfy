/** A shortcut at one end, the agent's own server and clipboard at the other. */
module EndToEnd {
  import opened Basics
  import opened Workflow
  import opened ShortcutRules
  import opened ShortcutTheorems
  import opened Unicode
  import JsonText
  import TextPath

  // ----- the phone's strings and the desktop's bytes -----

  function Chars(text: TextPath.Text): (s: string)
    ensures |s| == |Runes(text)|
  {
    var r := Runes(text);
    seq(|r|, i requires 0 <= i < |r| => r[i] as char)
  }

  function Scalars(s: string): seq<Scalar> {
    seq(|s|, i requires 0 <= i < |s| => s[i] as int)
  }

  function Wire(s: string): TextPath.Text {
    Encode8(Scalars(s))
  }

  /** A string is what its bytes are read as, and only then are two strings' bytes the same. */
  lemma CharsOfWire(s: string)
    ensures ValidUtf8(Wire(s)) && Chars(Wire(s)) == s
  {
    RunesOfEncode(Scalars(s));
    assert forall i | 0 <= i < |s| :: Chars(Wire(s))[i] == Scalars(s)[i] as char;
  }

  lemma WireOfChars(text: TextPath.Text)
    requires ValidUtf8(text)
    ensures Wire(Chars(text)) == text && (text != [] ==> Chars(text) != "")
  {
    assert Scalars(Chars(text)) == Runes(text);
    EncodeOfRunes(text);
  }

  // ----- what the server's answers are to a shortcut -----

  /** The reply of an effect is the API's answer to a GET: ok, with the text if there is one;
      or not ok. */
  predicate Brings(env: Env, e: Effect, answer: TextPath.Reply)
    requires e.Http?
  {
    match answer
    case Empty => OkReply(env, e) && AnswerText(env, e).Missing?
    case TextReply(text) => OkReply(env, e) && AnswerText(env, e) == Has(Chars(text))
    case Stored(_) => false
    case Refused(_, _) => !OkReply(env, e)
  }

  /** The simple pair's check for text that is not empty. */
  ghost predicate ChecksEmpty(env: Env) {
    forall x :: env.matches(NonEmpty, x) <==> x != ""
  }

  /** The log of a whole run of one shipped list, with a transfer that was answered well. */
  ghost predicate RunAnswered(env: Env, v: Variant, log: seq<Effect>, k: nat) {
    k < |log| && GoodTransfer(env, BaseAt(env, v), log[k]) && log == RunOf(env, v).log
  }

  lemma AnsweredEnds(env: Env, v: Variant, log: seq<Effect>, k: nat)
    requires k < |log| && log[k].Http? && RunAnswered(env, v, log, k)
    ensures log[k + 1..] == Ending(env, v, log[k])
  {
    EveryRunIsSafe(env, v);
  }

  /** The log of a run of a pull whose transfer was answered with this answer of the API. */
  ghost predicate Pulled(env: Env, v: Variant, log: seq<Effect>, k: nat, answer: TextPath.Reply) {
    !v.send && (v.simple ==> ChecksEmpty(env)) && RunAnswered(env, v, log, k) && Brings(env, log[k], answer)
  }

  /** From the desktop's clipboard, whatever is in it, to the phone's: with the agent's own
      server a pull that was answered well sets exactly the text that was read, which is never
      empty, and reports it; or there was none, and it says so. */
  lemma PullBringsTheText(env: Env, v: Variant, log: seq<Effect>, k: nat, block: Option<seq<Byte>>,
                          fate: TextPath.ReadFate)
    requires Pulled(env, v, log, k, TextPath.GetOutcome(block, fate))
    ensures var answer := TextPath.GetOutcome(block, fate);
            var told := Notify(Delivered, Text(env.field(env.parse(log[k].reply), KeyDeviceName)));
            if answer.TextReply?
            then Chars(answer.text) != "" && log[k + 1..] == [ClipboardSet(Has(Chars(answer.text))), told]
            else log[k + 1..] == [Notify(DesktopEmpty, "")]
  {
    AnsweredEnds(env, v, log, k);
    TextPath.GetReturnsCleanText(block, fate);
    var answer := TextPath.GetOutcome(block, fate);
    if answer.TextReply? {
      WireOfChars(answer.text);
    }
    EndingBrings(env, v, log[k], answer);
  }

  lemma EndingBrings(env: Env, v: Variant, e: Effect, answer: TextPath.Reply)
    requires e.Http? && OkReply(env, e) && !v.send && (v.simple ==> ChecksEmpty(env)) && Brings(env, e, answer)
    requires answer.TextReply? ==> Chars(answer.text) != ""
    ensures Ending(env, v, e) ==
            if answer.TextReply?
            then [ClipboardSet(Has(Chars(answer.text))),
                  Notify(Delivered, Text(env.field(env.parse(e.reply), KeyDeviceName)))]
            else [Notify(DesktopEmpty, "")]
  {
    assert v.simple ==> !env.matches(NonEmpty, "");
  }

  lemma EndingNotEmpty(env: Env, v: Variant, e: Effect, answer: TextPath.Reply, value: Value)
    requires e.Http? && OkReply(env, e) && !v.send && (v.simple ==> ChecksEmpty(env)) && Brings(env, e, answer)
    requires answer.TextReply? ==> Chars(answer.text) != ""
    requires ClipboardSet(value) in Ending(env, v, e)
    ensures value.Has? && value.text != ""
  {
    assert v.simple ==> !env.matches(NonEmpty, "");
  }

  /** So with the agent's own server no run sets an empty received text. */
  lemma NothingEmptyArrives(env: Env, v: Variant, log: seq<Effect>, k: nat, block: Option<seq<Byte>>,
                            fate: TextPath.ReadFate, value: Value)
    requires Pulled(env, v, log, k, TextPath.GetOutcome(block, fate))
    requires ClipboardSet(value) in log[k + 1..]
    ensures value.Has? && value.text != ""
  {
    AnsweredEnds(env, v, log, k);
    var answer := TextPath.GetOutcome(block, fate);
    TextPath.GetReturnsCleanText(block, fate);
    if answer.TextReply? {
      WireOfChars(answer.text);
    }
    EndingNotEmpty(env, v, log[k], answer, value);
  }

  // ----- from phone to phone -----

  /** The POST a transfer makes: its one field, spelled in some way and read as the server
      reads it. */
  ghost predicate Posts(e: Effect, p: TextPath.Post)
    requires e.Http?
  {
    |e.json| == 1 && exists how, g :: TextPath.Carries(p, Scalars(e.json[0].1), how, g)
  }

  lemma SentIsPayload(env: Env, v: Variant, log: seq<Effect>, k: nat)
    requires v.send && RunAnswered(env, v, log, k)
    ensures |log[k].json| == 1 && log[k].json[0].1 == Payload(env)
  {
    EveryRunIsSafe(env, v);
    PayloadOnly(env, v, ConfigText(env, v), log, k);
  }

  lemma PayloadOnly(env: Env, v: Variant, src: Value, log: seq<Effect>, k: nat)
    requires v.send && Safe(env, v, src, log) && Answered(env, BaseOf(env, env.parse(src)), log, k)
    ensures |log[k].json| == 1 && log[k].json[0].1 == Payload(env)
  {
    assert PermittedAt(env, v, src, log, k);
    PathsDiffer(BaseOf(env, env.parse(src)));
  }

  /** The log of a run of a send whose transfer, answered well, made this POST. */
  ghost predicate Sent(env: Env, s: Variant, sent: seq<Effect>, i: nat, p: TextPath.Post) {
    s.send && RunAnswered(env, s, sent, i) && Posts(sent[i], p)
  }

  lemma CarriedDecodes(p: TextPath.Post, x: string)
    requires exists how, g :: TextPath.Carries(p, Scalars(x), how, g)
    ensures p.decoded == Some(Wire(x))
  {
    var how, g :| TextPath.Carries(p, Scalars(x), how, g);
    JsonText.ReadBodyOfBody(Scalars(x), how, g);
  }

  lemma SentDecodes(env: Env, s: Variant, sent: seq<Effect>, i: nat, p: TextPath.Post)
    requires Sent(env, s, sent, i, p)
    ensures p.decoded == Some(Wire(Payload(env)))
  {
    SentIsPayload(env, s, sent, i);
    CarriedDecodes(p, Payload(env));
  }

  lemma PulledSets(env: Env, v: Variant, log: seq<Effect>, k: nat, block: Option<seq<Byte>>, fate: TextPath.ReadFate,
                   x: string)
    requires Pulled(env, v, log, k, TextPath.GetOutcome(block, fate))
             && TextPath.GetOutcome(block, fate) == TextPath.TextReply(Wire(x))
    ensures k < |log| && ClipboardSet(Has(x)) in log[k + 1..]
  {
    PullBringsTheText(env, v, log, k, block, fate);
    CharsOfWire(x);
  }

  /** One phone sends, the desktop stores it, another phone (of either entry) pulls: its
      clipboard is set to exactly what the first one's user gave. */
  lemma SentThenPulled(from: Env, s: Variant, sent: seq<Effect>, i: nat,
                       p: TextPath.Post, block: Option<seq<Byte>>, wf: TextPath.WriteFate, rf: TextPath.ReadFate,
                       to: Env, v: Variant, log: seq<Effect>, k: nat)
    requires Sent(from, s, sent, i, p)
    requires TextPath.PostOutcome(block, p, wf).1.Stored? && TextPath.AllGoesWell(rf)
    requires Pulled(to, v, log, k, TextPath.GetOutcome(TextPath.PostOutcome(block, p, wf).0, rf))
    ensures k < |log| && ClipboardSet(Has(Payload(from))) in log[k + 1..]
  {
    SentDecodes(from, s, sent, i, p);
    CharsOfWire(Payload(from));
    TextPath.PostThenGet(block, p, wf, rf);
    PulledSets(to, v, log, k, TextPath.PostOutcome(block, p, wf).0, rf, Payload(from));
  }
}
