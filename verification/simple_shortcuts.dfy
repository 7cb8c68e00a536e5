/** The two shortcuts of the simple entry, and the safety of their every run. */
module SimpleShortcuts {
  import opened Basics
  import opened Workflow
  import opened Builder
  import opened ShortcutRules

  // ----- the simple pair -----

  function Receive(): Prog {
    Cons(Act(Word(Received), FieldOf(Out(Sub(Word(Transfer), Response)), KeyText)),
      Require(Word(EmptyResult), W(Received), NonEmpty, DesktopEmpty, SetReceived(Received)))
  }

  function TailPull(): Prog {
    Request(Word(Transfer), W(Base), Result(Pair), TransferPath(), NoBody, Receive())
  }

  function SendPayload(): Prog {
    Request(Word(Transfer), W(Base), Result(Pair), TransferPath(), TextBody(Result(ChoosePayload)), Finish())
  }

  function RejectThenSend(): Prog {
    StopIf(Word(RejectSecret), W(Secret), HasValue, Word(Secret), IsCredential, SendPayload())
  }

  function SecretThenSend(): Prog {
    Cons(Act(Word(Secret), MatchText(Result(ChoosePayload), SecretShape)), RejectThenSend())
  }

  function NeedThenSend(): Prog {
    Require(Word(EmptyPayload), Result(ChoosePayload), NonEmpty, NothingToSend, SecretThenSend())
  }

  function ChooseThen(rest: Prog): Prog {
    Cons(If(Word(ChoosePayload), ShareInput, HasValue,
            Cons(Act(Word(SharedPayload), GetText([Tok(W(ShareText))])), Nil), true,
            Cons(Act(Word(CopiedPayload), GetText([Tok(W(ClipboardText))])), Nil)),
      rest)
  }

  function Tail(send: bool): Prog { if send then ChooseThen(NeedThenSend()) else TailPull() }

  /** The last action of a pairing branch: its text is the group's result. */
  function TokenText(n: Name, from: Name): Prog {
    Cons(Act(Word(n), GetText([Tok(W(from))])), Nil)
  }

  function AfterClear(send: bool): Prog {
    if send then StopWith(Word(Paired), PairedOnly, None, TokenText(PairedToken, NewToken))
    else TokenText(PairedToken, NewToken)
  }

  function ClearConsumed(): Prog {
    Cons(Act(Word(ConsumedTicket), GetText([])),
         Cons(Act(Word(ClearConsumedTicket), Op.SetClipboard(W(ConsumedTicket))), Nil))
  }

  function ClearIfUnshared(send: bool): Prog {
    Cons(If(Word(ClearPairingClipboard), ShareInput, NoValue, ClearConsumed(), false, Nil), AfterClear(send))
  }

  function ReadbackGuard(send: bool): Prog {
    StopIf(Word(ReadbackFailed), W(ReadbackMatch), NoValue, Word(ReadbackFailed), ReadbackProblem,
           ClearIfUnshared(send))
  }

  function Readback(send: bool): Prog {
    Cons(Act(Word(ReadDictionary), DetectDictionary(W(ReadConfig))),
      Cons(Act(Word(ReadToken), FieldOf(W(ReadDictionary), KeyToken)),
        Cons(Act(Word(ReadbackMatch), MatchExactly(W(ReadToken), W(NewToken))),
          ReadbackGuard(send))))
  }

  function SavedGuard(send: bool): Prog {
    StopIf(Word(SaveFailed), W(ReadConfig), NoValue, Word(SaveFailed), SaveProblem, Readback(send))
  }

  function PairedConfigText(): seq<Piece> {
    [Lit(ConfigHead()), Tok(W(Base)), Lit(ConfigMid()), Tok(W(NewToken)), Lit(ConfigEnd())]
  }

  function SaveNew(send: bool): Prog {
    Cons(Act(Word(PairedConfig), GetText(PairedConfigText())),
      Cons(Act(Word(NameConfig), NameItem(W(PairedConfig))),
        Cons(Act(Word(SaveConfig), SaveFile(W(NameConfig))),
          Cons(Act(Word(ReadConfig), OpenFile),
            SavedGuard(send)))))
  }

  function PairReply(): Ref { Out(Sub(Word(PairRequest), Response)) }

  function CheckReplyVersion(send: bool): Prog {
    Checked(PairReply(), ResponseVersion, KeyVersion, ResponseVersionCheck, VersionOne, SaveNew(send))
  }

  function CheckNewToken(send: bool): Prog {
    Checked(PairReply(), NewToken, KeyToken, NewTokenCheck, TokenShape, CheckReplyVersion(send))
  }

  function AskPairing(send: bool): Prog {
    Request(Word(PairRequest), W(Base), W(Ticket), PairPath(), TicketBody(W(Ticket)), CheckNewToken(send))
  }

  function NewPairBranch(send: bool): Prog {
    Checked(W(Config), Ticket, KeyTicket, TicketCheck, TokenShape, AskPairing(send))
  }

  function OldTokenBranch(): Prog {
    Checked(W(Config), OldToken, KeyToken, OldTokenCheck, TokenShape, TokenText(SavedToken, OldToken))
  }

  function PairThenTail(send: bool): Prog {
    Cons(If(Word(Pair), W(Pairing), HasValue, NewPairBranch(send), true, OldTokenBranch()), Tail(send))
  }

  function CheckBase(send: bool): Prog {
    Checked(W(Config), Base, KeyBaseUrl, BaseCheck, SimpleBase, PairThenTail(send))
  }

  function CheckTransport(send: bool): Prog {
    Checked(W(Config), Transport, KeyTransport, TransportCheck, CloudflareWord, CheckBase(send))
  }

  function CheckFields(send: bool): Prog {
    Checked(W(Config), Version, KeyVersion, VersionCheck, VersionOne, CheckTransport(send))
  }

  function ParseThenCheck(send: bool): Prog {
    Cons(Act(Word(Config), DetectDictionary(Result(ConfigSource))), CheckFields(send))
  }

  function ShapeThenCheck(send: bool): Prog {
    Require(Word(Shape), Result(ConfigSource), SimpleConfigShape, Help, ParseThenCheck(send))
  }

  function LoadBranch(): Prog {
    Cons(Act(Word(LoadConfig), OpenFile),
      StopIf(Word(MissingConfig), W(LoadConfig), NoValue, Word(MissingConfig), Help,
        Cons(Act(Word(SavedText), DetectText(W(LoadConfig))), Nil)))
  }

  function TakeCandidate(): Prog {
    Cons(Act(Word(NewConfig), GetText([Tok(Result(PairSource))])), Nil)
  }

  function ChooseThenCheck(send: bool): Prog {
    Cons(If(Word(ConfigSource), W(Pairing), HasValue, TakeCandidate(), true, LoadBranch()), ShapeThenCheck(send))
  }

  function MatchThenChoose(send: bool): Prog {
    Cons(Act(Word(Pairing), MatchText(Result(PairSource), SimpleTicketShape)), ChooseThenCheck(send))
  }

  function SourceThen(rest: Prog): Prog {
    Cons(If(Word(PairSource), ShareInput, HasValue,
            Cons(Act(Word(PairShare), GetText([Tok(W(ShareText))])), Nil), true,
            Cons(Act(Word(PairClip), GetText([Tok(W(ClipboardText))])), Nil)),
      rest)
  }

  function FetchThen(rest: Prog): Prog {
    Cons(Act(Word(About), Comment),
      Cons(Act(Word(ShareText), DetectText(ShareInput)),
        Cons(Act(Word(Clipboard), GetClipboard),
          Cons(Act(Word(ClipboardText), DetectText(W(Clipboard))), rest))))
  }

  function SimpleProgram(send: bool): Prog {
    FetchThen(SourceThen(MatchThenChoose(send)))
  }

  // ----- the transfer -----

  /** The two inputs, as the host gave them. */
  ghost predicate InputsKept(env: Env, st: St) {
    && Word(ShareText) in st.out && st.out[Word(ShareText)] == env.share
    && Word(ClipboardText) in st.out && st.out[Word(ClipboardText)] == env.clipboard([])
  }

  /** The inputs and the checked base are where the rest looks. */
  ghost predicate Based(env: Env, v: Variant, src: Value, st: St) {
    && v.simple && Good(env, v, src, st) && !st.stopped && Validated(env, v, env.parse(src))
    && NoTransfer(BaseOf(env, env.parse(src)), st.log)
    && Word(Base) in st.out && st.out[Word(Base)] == env.field(env.parse(src), KeyBaseUrl)
    && InputsKept(env, st)
  }

  lemma KeptBased(env: Env, v: Variant, src: Value, st: St, next: St, changed: set<Name>)
    requires Based(env, v, src, st) && Kept(st, next, changed) && changed !! {Base, ShareText, ClipboardText}
    requires Good(env, v, src, next) && !next.stopped && NoTransfer(BaseOf(env, env.parse(src)), next.log)
    ensures Based(env, v, src, next)
  {
    assert Base !in changed && ShareText !in changed && ClipboardText !in changed;
  }

  /** And the group's result is the token this run may use. */
  ghost predicate Armed(env: Env, v: Variant, src: Value, st: St) {
    && Based(env, v, src, st)
    && ResultId(Word(Pair)) in st.out
    && TokenInUse(env, v, env.parse(src), st.log, Text(st.out[ResultId(Word(Pair))]))
    && (v.send ==> NoRequest(st.log))
  }

  lemma KeptArmed(env: Env, v: Variant, src: Value, st: St, next: St, changed: set<Name>)
    requires Armed(env, v, src, st) && Kept(st, next, changed) && changed !! {Base, ShareText, ClipboardText, Pair}
    requires next.log == st.log && !next.stopped && !next.dangling
    ensures Armed(env, v, src, next)
  {
    KeptBased(env, v, src, st, next, changed);
    assert Pair !in changed;
  }

  lemma TransferPermitted(env: Env, v: Variant, src: Value, st: St, body: Body)
    requires Armed(env, v, src, st)
    requires if v.send then body.TextBody? && MayPost(env, v, Text(Look(env, st, body.payload))) else body.NoBody?
    ensures Permitted(env, v, src, st.log, RequestEffect(env, st, W(Base), Result(Pair), TransferPath(), body))
  {
  }

  lemma ReceiveGood(env: Env, src: Value, st: St)
    requires Transferred(env, Variant(true, false), src, st)
    ensures Ended(env, Variant(true, false), src, Run(env, Receive(), st))
  {
    var v := Variant(true, false);
    var e := st.log[|st.log| - 1];
    var text := env.field(env.parse(e.reply), KeyText);
    var need := Require(Word(EmptyResult), W(Received), NonEmpty, DesktopEmpty, SetReceived(Received));
    var s1 := ActRuns(env, Word(Received), FieldOf(Out(Sub(Word(Transfer), Response)), KeyText), need, st);
    assert s1.log == st.log;
    var s2 := RequireRuns(env, EmptyResult, W(Received), NonEmpty, DesktopEmpty, SetReceived(Received), s1);
    if env.matches(NonEmpty, Text(text)) {
      SetReceivedEnds(env, v, src, Received, st, s2);
    } else {
      NothingTakenEnds(env, v, src, st, Run(env, need, s1));
    }
  }

  lemma TailPullGood(env: Env, src: Value, st: St)
    requires Armed(env, Variant(true, false), src, st)
    ensures Ended(env, Variant(true, false), src, Run(env, TailPull(), st))
  {
    var v := Variant(true, false);
    TransferPermitted(env, v, src, st, NoBody);
    var next := TransferGood(env, v, src, W(Base), Result(Pair), NoBody, Receive(), st);
    if OkReply(env, RequestEffect(env, st, W(Base), Result(Pair), TransferPath(), NoBody)) {
      ReceiveGood(env, src, next);
    }
  }

  lemma SendPayloadGood(env: Env, v: Variant, src: Value, st: St)
    requires v.send && Armed(env, v, src, st) && ResultId(Word(ChoosePayload)) in st.out
    requires MayPost(env, v, Text(st.out[ResultId(Word(ChoosePayload))]))
    ensures Ended(env, v, src, Run(env, SendPayload(), st))
  {
    var body := TextBody(Result(ChoosePayload));
    TransferPermitted(env, v, src, st, body);
    var next := TransferGood(env, v, src, W(Base), Result(Pair), body, Finish(), st);
    if OkReply(env, RequestEffect(env, st, W(Base), Result(Pair), TransferPath(), body)) {
      FinishEnds(env, v, src, next);
    }
  }

  lemma RejectThenSendGood(env: Env, v: Variant, src: Value, st: St)
    requires v.send && Armed(env, v, src, st) && ResultId(Word(ChoosePayload)) in st.out && Word(Secret) in st.out
    requires var payload := Text(st.out[ResultId(Word(ChoosePayload))]);
             payload == Payload(env) && env.matches(NonEmpty, payload)
                 && st.out[Word(Secret)] == TextMatch(env.matches(SecretShape, payload), payload)
    ensures Ended(env, v, src, Run(env, RejectThenSend(), st))
  {
    var next := StopIfRuns(env, RejectSecret, W(Secret), HasValue, Word(Secret), IsCredential, SendPayload(), st);
    if Holds(env, st, W(Secret), HasValue) {
      NoticeEnds(env, v, src, st.log, Run(env, RejectThenSend(), st));
    } else {
      assert Kept(st, next, {RejectSecret});
      KeptArmed(env, v, src, st, next, {RejectSecret});
      SendPayloadGood(env, v, src, next);
    }
  }

  lemma SecretThenSendGood(env: Env, v: Variant, src: Value, st: St)
    requires v.send && Armed(env, v, src, st)
    requires ResultId(Word(ChoosePayload)) in st.out && Text(st.out[ResultId(Word(ChoosePayload))]) == Payload(env)
    requires env.matches(NonEmpty, Payload(env))
    ensures Ended(env, v, src, Run(env, SecretThenSend(), st))
  {
    var next := ActRuns(env, Word(Secret), MatchText(Result(ChoosePayload), SecretShape), RejectThenSend(), st);
    assert next.log == st.log;
    assert Kept(st, next, {Secret});
    KeptArmed(env, v, src, st, next, {Secret});
    RejectThenSendGood(env, v, src, next);
  }

  lemma NeedThenSendGood(env: Env, v: Variant, src: Value, st: St)
    requires v.send && Armed(env, v, src, st)
    requires ResultId(Word(ChoosePayload)) in st.out && Text(st.out[ResultId(Word(ChoosePayload))]) == Payload(env)
    ensures Ended(env, v, src, Run(env, NeedThenSend(), st))
  {
    var next := RequireRuns(env, EmptyPayload, Result(ChoosePayload), NonEmpty, NothingToSend, SecretThenSend(), st);
    if env.matches(NonEmpty, Text(st.out[ResultId(Word(ChoosePayload))])) {
      assert Kept(st, next, {EmptyPayload});
      KeptArmed(env, v, src, st, next, {EmptyPayload});
      SecretThenSendGood(env, v, src, next);
    } else {
      NoticeEnds(env, v, src, st.log, Run(env, NeedThenSend(), st));
    }
  }

  lemma ChoosePayloadRuns(env: Env, rest: Prog, st: St) returns (next: St)
    requires !st.stopped && !st.dangling && InputsKept(env, st)
    ensures next.log == st.log && !next.stopped && !next.dangling
    ensures ResultId(Word(ChoosePayload)) in next.out && Text(next.out[ResultId(Word(ChoosePayload))]) == Payload(env)
    ensures Kept(st, next, {ChoosePayload, SharedPayload, CopiedPayload})
    ensures Run(env, ChooseThen(rest), st) == Run(env, rest, next)
  {
    assert PiecesIn([Tok(W(ShareText))], st.out.Keys) && PiecesIn([Tok(W(ClipboardText))], st.out.Keys);
    SpellOne(env, Enter(st, ShareInput), Tok(W(ShareText)));
    SpellOne(env, Enter(st, ShareInput), Tok(W(ClipboardText)));
    next := ChoiceRuns(env, ChoosePayload, ShareInput, SharedPayload, GetText([Tok(W(ShareText))]),
                       CopiedPayload, GetText([Tok(W(ClipboardText))]), rest, st);
  }

  lemma ChoosePayloadArmed(env: Env, v: Variant, src: Value, rest: Prog, st: St) returns (next: St)
    requires Armed(env, v, src, st)
    ensures Armed(env, v, src, next) && Run(env, ChooseThen(rest), st) == Run(env, rest, next)
    ensures ResultId(Word(ChoosePayload)) in next.out && Text(next.out[ResultId(Word(ChoosePayload))]) == Payload(env)
  {
    next := ChoosePayloadRuns(env, rest, st);
    KeptArmed(env, v, src, st, next, {ChoosePayload, SharedPayload, CopiedPayload});
  }

  lemma TailGood(env: Env, v: Variant, src: Value, st: St)
    requires Armed(env, v, src, st)
    ensures Ended(env, v, src, Run(env, Tail(v.send), st))
  {
    if v.send {
      var next := ChoosePayloadArmed(env, v, src, NeedThenSend(), st);
      NeedThenSendGood(env, v, src, next);
    } else {
      TailPullGood(env, src, st);
    }
  }

  // ----- pairing -----

  /** The configuration has been checked; its dictionary is at hand. */
  ghost predicate Configured(env: Env, v: Variant, src: Value, st: St) {
    Based(env, v, src, st) && Word(Config) in st.out && st.out[Word(Config)] == env.parse(src)
  }

  /** The pairing request `e` of this run was answered well; `e` is its only request. */
  ghost predicate Asked(env: Env, v: Variant, src: Value, e: Effect, st: St) {
    && Based(env, v, src, st)
    && e in st.log && IsPairing(v, BaseOf(env, env.parse(src)), e) && OkReply(env, e)
  }

  /** And its token and version have been checked. */
  ghost predicate Granted(env: Env, v: Variant, src: Value, e: Effect, st: St) {
    && Asked(env, v, src, e, st) && GoodPairing(env, v, BaseOf(env, env.parse(src)), e)
    && Word(NewToken) in st.out && Text(st.out[Word(NewToken)]) == ReplyText(env, e, KeyToken)
  }

  lemma KeptAsked(env: Env, v: Variant, src: Value, e: Effect, st: St, next: St, changed: set<Name>, more: seq<Effect>)
    requires Asked(env, v, src, e, st) && Kept(st, next, changed) && changed !! {Base, ShareText, ClipboardText}
    requires next.log == st.log + more && (forall x | x in more :: !x.Http?)
    requires Good(env, v, src, next) && !next.stopped
    ensures Asked(env, v, src, e, next)
  {
    KeptBased(env, v, src, st, next, changed);
  }

  lemma KeptGranted(env: Env, v: Variant, src: Value, e: Effect, st: St, next: St, changed: set<Name>,
                    more: seq<Effect>)
    requires Granted(env, v, src, e, st) && Kept(st, next, changed)
             && changed !! {Base, ShareText, ClipboardText, NewToken}
    requires next.log == st.log + more && (forall x | x in more :: !x.Http?)
    requires Good(env, v, src, next) && !next.stopped
    ensures Granted(env, v, src, e, next)
  {
    KeptAsked(env, v, src, e, st, next, changed, more);
    assert NewToken !in changed;
  }

  lemma QuietKept(st: St, next: St)
    requires next.log == st.log
    ensures next.log == st.log + []
  {
  }

  /** The pairing branch's outcome: ended, or, for a pull, with the new token as its result. */
  ghost predicate BranchDone(env: Env, v: Variant, src: Value, done: St) {
    if done.stopped then Ended(env, v, src, done)
    else
      && Based(env, v, src, done)
      && TokenInUse(env, v, env.parse(src), done.log, Text(done.last))
      && (v.send ==> NoRequest(done.log))
  }

  /** A pull goes on with the new token as the branch's last text. */
  lemma PairedTokenGood(env: Env, v: Variant, src: Value, e: Effect, st: St)
    requires !v.send && Granted(env, v, src, e, st)
    ensures BranchDone(env, v, src, Run(env, TokenText(PairedToken, NewToken), st))
  {
    var text := [Tok(W(NewToken))];
    SpellOne(env, st, text[0]);
    assert PiecesIn(text, st.out.Keys);
    var s1 := ActRuns(env, Word(PairedToken), GetText(text), Nil, st);
    assert s1.log == st.log;
    assert Kept(st, s1, {PairedToken});
    KeptBased(env, v, src, st, s1, {PairedToken});
    NewTokenInUse(env, v, src, e, st.log);
  }

  lemma NewTokenInUse(env: Env, v: Variant, src: Value, e: Effect, log: seq<Effect>)
    requires v.simple && e in log && GoodPairing(env, v, BaseOf(env, env.parse(src)), e)
    ensures TokenInUse(env, v, env.parse(src), log, ReplyText(env, e, KeyToken))
  {
  }

  lemma AfterClearGood(env: Env, v: Variant, src: Value, e: Effect, st: St)
    requires Granted(env, v, src, e, st)
    ensures BranchDone(env, v, src, Run(env, AfterClear(v.send), st))
  {
    if v.send {
      StopRuns(env, Word(Paired), PairedOnly, None, TokenText(PairedToken, NewToken), st);
      NoticeEnds(env, v, src, st.log, Run(env, AfterClear(true), st));
    } else {
      PairedTokenGood(env, v, src, e, st);
    }
  }

  lemma ClearConsumedRuns(env: Env, st: St)
    requires !st.stopped && !st.dangling
    ensures var done := Run(env, ClearConsumed(), st);
            && !done.stopped && !done.dangling && done.log == st.log + [ClipboardSet(Has(""))]
            && Kept(st, done, {ConsumedTicket, ClearConsumedTicket})
  {
    var set' := Cons(Act(Word(ClearConsumedTicket), Op.SetClipboard(W(ConsumedTicket))), Nil);
    var s1 := ActRuns(env, Word(ConsumedTicket), GetText([]), set', st);
    assert s1.log == st.log;
    var s2 := ActRuns(env, Word(ClearConsumedTicket), Op.SetClipboard(W(ConsumedTicket)), Nil, s1);
  }

  /** What must have happened just before the consumed ticket may be cleared. */
  ghost predicate ReadBack(env: Env, e: Effect, log: seq<Effect>)
    requires e.Http?
  {
    var n := |log|;
    && n >= 2 && log[n - 2].Saved? && log[n - 1].Opened? && log[n - 1].value.Has?
    && env.exactly(ReplyText(env, e, KeyToken), Text(env.field(env.parse(log[n - 1].value), KeyToken)))
  }

  lemma ClearedGood(env: Env, v: Variant, src: Value, e: Effect, st: St, done: St)
    requires Granted(env, v, src, e, st) && ReadBack(env, e, st.log) && env.share.Missing?
    requires !done.stopped && !done.dangling && done.log == st.log + [ClipboardSet(Has(""))]
    requires Kept(st, done, {ConsumedTicket, ClearConsumedTicket})
    ensures Granted(env, v, src, e, done)
  {
    assert MayClear(env, v, BaseOf(env, env.parse(src)), st.log);
    SafeSnoc(env, v, src, st.log, ClipboardSet(Has("")));
    KeptGranted(env, v, src, e, st, done, {ConsumedTicket, ClearConsumedTicket}, [ClipboardSet(Has(""))]);
  }

  lemma LeaveGranted(env: Env, v: Variant, src: Value, e: Effect, st: St, n: Name)
    requires Granted(env, v, src, e, st)
    ensures Granted(env, v, src, e, Leave(st, Word(n)))
  {
  }

  lemma ClearIfUnsharedGood(env: Env, v: Variant, src: Value, e: Effect, st: St)
    requires Granted(env, v, src, e, st) && ReadBack(env, e, st.log)
    ensures BranchDone(env, v, src, Run(env, ClearIfUnshared(v.send), st))
  {
    var inner := Enter(st, ShareInput);
    assert Granted(env, v, src, e, inner);
    var done := IfRuns(env, ClearPairingClipboard, ShareInput, NoValue, ClearConsumed(), AfterClear(v.send), st);
    if env.share.Missing? {
      ClearConsumedRuns(env, inner);
      ClearedGood(env, v, src, e, inner, done);
    }
    LeaveGranted(env, v, src, e, done, ClearPairingClipboard);
    AfterClearGood(env, v, src, e, Leave(done, Word(ClearPairingClipboard)));
  }

  /** A block that leaves the log and the other names alone. */
  lemma PassedGranted(env: Env, v: Variant, src: Value, e: Effect, st: St, next: St, n: Name)
    requires Granted(env, v, src, e, st) && Same(st, next, n) && n !in {Base, ShareText, ClipboardText, NewToken}
    requires next.log == st.log && !next.stopped && !next.dangling
    ensures Granted(env, v, src, e, next)
  {
    QuietKept(st, next);
    assert Kept(st, next, {n});
    KeptGranted(env, v, src, e, st, next, {n}, []);
  }

  lemma GrantedStops(env: Env, v: Variant, src: Value, e: Effect, st: St, done: St)
    requires Granted(env, v, src, e, st) && StoppedWithNotice(st.log, done)
    ensures BranchDone(env, v, src, done)
  {
    NoticeEnds(env, v, src, st.log, done);
  }

  lemma ReadbackGuardGood(env: Env, v: Variant, src: Value, e: Effect, st: St)
    requires Granted(env, v, src, e, st) && Word(ReadbackMatch) in st.out
    requires st.out[Word(ReadbackMatch)].Has? ==> ReadBack(env, e, st.log)
    ensures BranchDone(env, v, src, Run(env, ReadbackGuard(v.send), st))
  {
    var next :=
        StopIfRuns(env, ReadbackFailed, W(ReadbackMatch), NoValue, Word(ReadbackFailed), ReadbackProblem,
                   ClearIfUnshared(v.send), st);
    if st.out[Word(ReadbackMatch)].Missing? {
      GrantedStops(env, v, src, e, st, Run(env, ReadbackGuard(v.send), st));
    } else {
      PassedGranted(env, v, src, e, st, next, ReadbackFailed);
      ClearIfUnsharedGood(env, v, src, e, next);
    }
  }

  /** The saved file's token is compared with the new one. */
  lemma ReadbackRuns(env: Env, send: bool, st: St) returns (next: St)
    requires !st.stopped && !st.dangling && Word(ReadConfig) in st.out && Word(NewToken) in st.out
    ensures Run(env, Readback(send), st) == Run(env, ReadbackGuard(send), next)
    ensures !next.stopped && !next.dangling && next.log == st.log
            && Kept(st, next, {ReadDictionary, ReadToken, ReadbackMatch})
    ensures Word(ReadbackMatch) in next.out
    ensures next.out[Word(ReadbackMatch)].Has? <==>
              env.exactly(Text(st.out[Word(NewToken)]), Text(env.field(env.parse(st.out[Word(ReadConfig)]), KeyToken)))
  {
    var match' := Cons(Act(Word(ReadbackMatch), MatchExactly(W(ReadToken), W(NewToken))), ReadbackGuard(send));
    var field' := Cons(Act(Word(ReadToken), FieldOf(W(ReadDictionary), KeyToken)), match');
    var s1 := ActRuns(env, Word(ReadDictionary), DetectDictionary(W(ReadConfig)), field', st);
    assert s1.log == st.log;
    var s2 := ActRuns(env, Word(ReadToken), FieldOf(W(ReadDictionary), KeyToken), match', s1);
    assert s2.log == st.log;
    next := ActRuns(env, Word(ReadbackMatch), MatchExactly(W(ReadToken), W(NewToken)), ReadbackGuard(send), s2);
    assert next.log == st.log;
  }

  /** The new configuration has been saved and the file opened again. */
  ghost predicate Reopened(st: St) {
    && |st.log| >= 2 && st.log[|st.log| - 2].Saved? && st.log[|st.log| - 1].Opened?
    && Word(ReadConfig) in st.out && st.out[Word(ReadConfig)] == st.log[|st.log| - 1].value
  }

  /** The file that was read back holds the new token. */
  lemma ReadBackHolds(env: Env, v: Variant, src: Value, e: Effect, st: St)
    requires Granted(env, v, src, e, st) && Reopened(st) && st.out[Word(ReadConfig)].Has?
    requires env.exactly(Text(st.out[Word(NewToken)]), Text(env.field(env.parse(st.out[Word(ReadConfig)]), KeyToken)))
    ensures ReadBack(env, e, st.log)
  {
  }

  lemma ReadbackKept(env: Env, v: Variant, src: Value, e: Effect, st: St, next: St)
    requires Granted(env, v, src, e, st) && !next.stopped && !next.dangling && next.log == st.log
    requires Kept(st, next, {ReadDictionary, ReadToken, ReadbackMatch})
    ensures Granted(env, v, src, e, next)
  {
    QuietKept(st, next);
    KeptGranted(env, v, src, e, st, next, {ReadDictionary, ReadToken, ReadbackMatch}, []);
  }

  lemma ReadbackGood(env: Env, v: Variant, src: Value, e: Effect, st: St)
    requires Granted(env, v, src, e, st) && Reopened(st) && st.out[Word(ReadConfig)].Has?
    ensures BranchDone(env, v, src, Run(env, Readback(v.send), st))
  {
    var next := ReadbackRuns(env, v.send, st);
    ReadbackKept(env, v, src, e, st, next);
    if next.out[Word(ReadbackMatch)].Has? {
      ReadBackHolds(env, v, src, e, st);
    }
    ReadbackGuardGood(env, v, src, e, next);
  }

  lemma SavedGuardGood(env: Env, v: Variant, src: Value, e: Effect, st: St)
    requires Granted(env, v, src, e, st) && Reopened(st)
    ensures BranchDone(env, v, src, Run(env, SavedGuard(v.send), st))
  {
    var next :=
        StopIfRuns(env, SaveFailed, W(ReadConfig), NoValue, Word(SaveFailed), SaveProblem, Readback(v.send), st);
    if st.out[Word(ReadConfig)].Missing? {
      GrantedStops(env, v, src, e, st, Run(env, SavedGuard(v.send), st));
    } else {
      PassedGranted(env, v, src, e, st, next, SaveFailed);
      ReadbackGood(env, v, src, e, next);
    }
  }

  lemma SpellConfig(env: Env, st: St)
    ensures Spell(env, st, PairedConfigText())
         == ConfigHead()
             + (Text(Look(env, st, W(Base))) + (ConfigMid() + (Text(Look(env, st, W(NewToken))) + ConfigEnd())))
  {
    var p := PairedConfigText();
    assert p[1..] == [Tok(W(Base)), Lit(ConfigMid()), Tok(W(NewToken)), Lit(ConfigEnd())];
    assert p[1..][1..] == [Lit(ConfigMid()), Tok(W(NewToken)), Lit(ConfigEnd())];
    assert p[1..][1..][1..] == [Tok(W(NewToken)), Lit(ConfigEnd())];
    SpellTwo(env, st, Tok(W(NewToken)), Lit(ConfigEnd()));
    assert Spell(env, st, p[1..][1..]) == ConfigMid() + Spell(env, st, p[1..][1..][1..]);
    assert Spell(env, st, p[1..]) == Text(Look(env, st, W(Base))) + Spell(env, st, p[1..][1..]);
  }

  function WriteNew(send: bool): Prog {
    Cons(Act(Word(SaveConfig), SaveFile(W(NameConfig))), Cons(Act(Word(ReadConfig), OpenFile), SavedGuard(send)))
  }

  lemma PairedConfigPerforms(env: Env, st: St)
    requires Word(Base) in st.out && Word(NewToken) in st.out
    ensures Perform(env, st, GetText(PairedConfigText())) ==
            (Has(NewConfigText(Text(st.out[Word(Base)]), Text(st.out[Word(NewToken)]))), [])
    ensures RefsIn(GetText(PairedConfigText()), st.out.Keys)
  {
    SpellConfig(env, st);
  }

  /** The new configuration is spelled out and named. */
  lemma NameNewRuns(env: Env, send: bool, st: St) returns (next: St)
    requires !st.stopped && !st.dangling && Word(Base) in st.out && Word(NewToken) in st.out
    ensures Run(env, SaveNew(send), st) == Run(env, WriteNew(send), next)
    ensures next.log == st.log && !next.stopped && !next.dangling && Kept(st, next, {PairedConfig, NameConfig})
    ensures Word(NameConfig) in next.out
    ensures next.out[Word(NameConfig)] == Has(NewConfigText(Text(st.out[Word(Base)]), Text(st.out[Word(NewToken)])))
  {
    PairedConfigPerforms(env, st);
    var name := Cons(Act(Word(NameConfig), NameItem(W(PairedConfig))), WriteNew(send));
    var s1 := ActRuns(env, Word(PairedConfig), GetText(PairedConfigText()), name, st);
    assert s1.log == st.log;
    next := ActRuns(env, Word(NameConfig), NameItem(W(PairedConfig)), WriteNew(send), s1);
    assert next.log == st.log;
  }

  lemma WriteNewRuns(env: Env, send: bool, st: St) returns (next: St)
    requires !st.stopped && !st.dangling && Word(NameConfig) in st.out
    ensures Run(env, WriteNew(send), st) == Run(env, SavedGuard(send), next)
    ensures var saved := Saved(Text(st.out[Word(NameConfig)]));
            next.log == st.log + [saved, Opened(env.file(st.log + [saved]))]
    ensures Reopened(next) && !next.stopped && !next.dangling && Kept(st, next, {SaveConfig, ReadConfig})
  {
    var open := Cons(Act(Word(ReadConfig), OpenFile), SavedGuard(send));
    var s1 := ActRuns(env, Word(SaveConfig), SaveFile(W(NameConfig)), open, st);
    next := ActRuns(env, Word(ReadConfig), OpenFile, SavedGuard(send), s1);
  }

  lemma WrittenIsSafe(env: Env, v: Variant, src: Value, log: seq<Effect>, text: string, read: Value)
    requires Safe(env, v, src, log) && MaySave(env, v, src, log, text)
    ensures Safe(env, v, src, log + [Saved(text), Opened(read)])
  {
    SafeSnoc(env, v, src, log, Saved(text));
    SafeSnoc(env, v, src, log + [Saved(text)], Opened(read));
    assert log + [Saved(text), Opened(read)] == log + [Saved(text)] + [Opened(read)];
  }

  lemma WrittenGranted(env: Env, v: Variant, src: Value, e: Effect, st: St, next: St, text: string, read: Value)
    requires Granted(env, v, src, e, st) && MaySave(env, v, src, st.log, text)
    requires next.log == st.log + [Saved(text), Opened(read)] && !next.stopped && !next.dangling
    requires Kept(st, next, {SaveConfig, ReadConfig})
    ensures Granted(env, v, src, e, next)
  {
    WrittenIsSafe(env, v, src, st.log, text, read);
    KeptGranted(env, v, src, e, st, next, {SaveConfig, ReadConfig}, [Saved(text), Opened(read)]);
  }

  lemma WriteNewGood(env: Env, v: Variant, src: Value, e: Effect, st: St)
    requires Granted(env, v, src, e, st) && Word(NameConfig) in st.out
    requires MaySave(env, v, src, st.log, Text(st.out[Word(NameConfig)]))
    ensures BranchDone(env, v, src, Run(env, WriteNew(v.send), st))
  {
    var next := WriteNewRuns(env, v.send, st);
    var text := Text(st.out[Word(NameConfig)]);
    WrittenGranted(env, v, src, e, st, next, text, env.file(st.log + [Saved(text)]));
    SavedGuardGood(env, v, src, e, next);
  }

  lemma SaveNewGood(env: Env, v: Variant, src: Value, e: Effect, st: St)
    requires Granted(env, v, src, e, st)
    ensures BranchDone(env, v, src, Run(env, SaveNew(v.send), st))
  {
    var next := NameNewRuns(env, v.send, st);
    QuietKept(st, next);
    KeptGranted(env, v, src, e, st, next, {PairedConfig, NameConfig}, []);
    assert MaySave(env, v, src, next.log, Text(next.out[Word(NameConfig)]));
    WriteNewGood(env, v, src, e, next);
  }

  /** The reply parsed. */
  ghost predicate Replied(env: Env, v: Variant, src: Value, e: Effect, st: St) {
    && Asked(env, v, src, e, st)
    && Sub(Word(PairRequest), Response) in st.out && st.out[Sub(Word(PairRequest), Response)] == env.parse(e.reply)
  }

  /** One checked field of the reply. */
  lemma ReplyFieldGood(env: Env, v: Variant, src: Value, e: Effect, f: Name, key: Key, check: Name, pattern: Pattern,
                       rest: Prog, st: St)
    returns (next: St)
    requires Replied(env, v, src, e, st) && f != check && {f, check} !! {Base, ShareText, ClipboardText, PairRequest}
    ensures Replied(env, v, src, e, next) && Kept(st, next, {f, check})
    ensures Word(f) in next.out && next.out[Word(f)] == env.field(env.parse(e.reply), key)
    ensures var done := Run(env, Checked(PairReply(), f, key, check, pattern, rest), st);
            if env.matches(pattern, ReplyText(env, e, key)) then done == Run(env, rest, next)
            else Ended(env, v, src, done) && done.stopped
  {
    next := CheckedRuns(env, PairReply(), f, key, check, pattern, rest, st);
    QuietKept(st, next);
    KeptAsked(env, v, src, e, st, next, {f, check}, []);
    assert PairRequest !in {f, check};
    if !env.matches(pattern, ReplyText(env, e, key)) {
      NoticeEnds(env, v, src, st.log, Run(env, Checked(PairReply(), f, key, check, pattern, rest), st));
    }
  }

  lemma CheckReplyVersionGood(env: Env, v: Variant, src: Value, e: Effect, st: St)
    requires Replied(env, v, src, e, st) && env.matches(TokenShape, ReplyText(env, e, KeyToken))
    requires Word(NewToken) in st.out && st.out[Word(NewToken)] == env.field(env.parse(e.reply), KeyToken)
    ensures BranchDone(env, v, src, Run(env, CheckReplyVersion(v.send), st))
  {
    var next :=
        ReplyFieldGood(env, v, src, e, ResponseVersion, KeyVersion, ResponseVersionCheck, VersionOne, SaveNew(v.send),
                       st);
    if env.matches(VersionOne, ReplyText(env, e, KeyVersion)) {
      assert NewToken !in {ResponseVersion, ResponseVersionCheck};
      SaveNewGood(env, v, src, e, next);
    }
  }

  lemma CheckNewTokenGood(env: Env, v: Variant, src: Value, e: Effect, st: St)
    requires Replied(env, v, src, e, st)
    ensures BranchDone(env, v, src, Run(env, CheckNewToken(v.send), st))
  {
    var next :=
        ReplyFieldGood(env, v, src, e, NewToken, KeyToken, NewTokenCheck, TokenShape, CheckReplyVersion(v.send), st);
    if env.matches(TokenShape, ReplyText(env, e, KeyToken)) {
      CheckReplyVersionGood(env, v, src, e, next);
    }
  }

  lemma AskPairingGood(env: Env, v: Variant, src: Value, st: St)
    requires Configured(env, v, src, st) && NoRequest(st.log)
    requires Word(Ticket) in st.out && st.out[Word(Ticket)] == env.field(env.parse(src), KeyTicket)
    requires env.matches(TokenShape, Text(env.field(env.parse(src), KeyTicket)))
    ensures BranchDone(env, v, src, Run(env, AskPairing(v.send), st))
  {
    var base := BaseOf(env, env.parse(src));
    var body := TicketBody(W(Ticket));
    var e := RequestEffect(env, st, W(Base), W(Ticket), PairPath(), body);
    assert IsPairing(v, base, e);
    SafeSnoc(env, v, src, st.log, e);
    var next := RequestRuns(env, PairRequest, W(Base), W(Ticket), PairPath(), body, CheckNewToken(v.send), st);
    if OkReply(env, e) {
      PathsDiffer(base);
      assert Kept(st, next, {PairRequest});
      KeptBased(env, v, src, st, next, {PairRequest});
      CheckNewTokenGood(env, v, src, e, next);
    } else {
      BadReplyEnds(env, v, src, st.log, e, Run(env, AskPairing(v.send), st));
    }
  }

  /** One checked field of the configuration, once its base is known to be good. */
  lemma ConfigFieldGood(env: Env, v: Variant, src: Value, f: Name, key: Key, check: Name, pattern: Pattern,
                        rest: Prog, st: St)
    returns (next: St)
    requires Configured(env, v, src, st) && f != check && {f, check} !! {Base, ShareText, ClipboardText, Config}
    ensures Configured(env, v, src, next) && next.log == st.log
    ensures Word(f) in next.out && next.out[Word(f)] == env.field(env.parse(src), key)
    ensures var done := Run(env, Checked(W(Config), f, key, check, pattern, rest), st);
            if env.matches(pattern, Text(env.field(env.parse(src), key))) then done == Run(env, rest, next)
            else Ended(env, v, src, done) && done.stopped
  {
    next := CheckedRuns(env, W(Config), f, key, check, pattern, rest, st);
    KeptBased(env, v, src, st, next, {f, check});
    assert Config !in {f, check};
    if !env.matches(pattern, Text(env.field(env.parse(src), key))) {
      NoticeEnds(env, v, src, st.log, Run(env, Checked(W(Config), f, key, check, pattern, rest), st));
    }
  }

  lemma NewPairBranchGood(env: Env, v: Variant, src: Value, st: St)
    requires Configured(env, v, src, st) && NoRequest(st.log)
    ensures BranchDone(env, v, src, Run(env, NewPairBranch(v.send), st))
  {
    var next := ConfigFieldGood(env, v, src, Ticket, KeyTicket, TicketCheck, TokenShape, AskPairing(v.send), st);
    if env.matches(TokenShape, Text(env.field(env.parse(src), KeyTicket))) {
      AskPairingGood(env, v, src, next);
    }
  }

  lemma SavedTokenInUse(env: Env, v: Variant, src: Value, log: seq<Effect>)
    requires NoRequest(log) && env.matches(TokenShape, TokenOf(env, env.parse(src)))
    ensures TokenInUse(env, v, env.parse(src), log, TokenOf(env, env.parse(src)))
    ensures NoTransfer(BaseOf(env, env.parse(src)), log)
  {
  }

  lemma OldTokenBranchGood(env: Env, v: Variant, src: Value, st: St)
    requires Configured(env, v, src, st) && NoRequest(st.log)
    ensures BranchDone(env, v, src, Run(env, OldTokenBranch(), st))
  {
    var rest := TokenText(SavedToken, OldToken);
    var next := ConfigFieldGood(env, v, src, OldToken, KeyToken, OldTokenCheck, TokenShape, rest, st);
    if env.matches(TokenShape, TokenOf(env, env.parse(src))) {
      var text := [Tok(W(OldToken))];
      SpellOne(env, next, text[0]);
      assert PiecesIn(text, next.out.Keys);
      var last := ActRuns(env, Word(SavedToken), GetText(text), Nil, next);
      assert last.log == st.log;
      assert Kept(next, last, {SavedToken});
      KeptBased(env, v, src, next, last, {SavedToken});
      SavedTokenInUse(env, v, src, last.log);
    }
  }

  /** A finished branch leaves its token as the group's result. */
  lemma LeaveArmed(env: Env, v: Variant, src: Value, done: St)
    requires BranchDone(env, v, src, done) && !done.stopped
    ensures Armed(env, v, src, Leave(done, Word(Pair)))
  {
    var next := Leave(done, Word(Pair));
    assert Kept(done, next, {Pair});
    KeptBased(env, v, src, done, next, {Pair});
  }

  lemma PairThenTailGood(env: Env, v: Variant, src: Value, st: St)
    requires Configured(env, v, src, st) && NoRequest(st.log) && Word(Pairing) in st.out
    ensures Ended(env, v, src, Run(env, PairThenTail(v.send), st))
  {
    var inner := Enter(st, W(Pairing));
    assert Configured(env, v, src, inner);
    var done := EitherRuns(env, Pair, W(Pairing), HasValue, NewPairBranch(v.send), OldTokenBranch(), Tail(v.send), st);
    if Holds(env, st, W(Pairing), HasValue) {
      NewPairBranchGood(env, v, src, inner);
    } else {
      OldTokenBranchGood(env, v, src, inner);
    }
    if !done.stopped {
      LeaveArmed(env, v, src, done);
      TailGood(env, v, src, Leave(done, Word(Pair)));
    }
  }

  // ----- checking the configuration -----

  /** The configuration text has been chosen and parsed; nothing has been asked. */
  ghost predicate Parsed(env: Env, v: Variant, src: Value, st: St) {
    && v.simple && Good(env, v, src, st) && !st.stopped && NoRequest(st.log)
    && InputsKept(env, st) && Word(Pairing) in st.out
    && Word(Config) in st.out && st.out[Word(Config)] == env.parse(src)
  }

  lemma ParsedFieldGood(env: Env, v: Variant, src: Value, f: Name, key: Key, check: Name, pattern: Pattern,
                        rest: Prog, st: St)
    returns (next: St)
    requires Parsed(env, v, src, st) && f != check && {f, check} !! {ShareText, ClipboardText, Pairing, Config}
    ensures Parsed(env, v, src, next)
    ensures Word(f) in next.out && next.out[Word(f)] == env.field(env.parse(src), key)
    ensures var done := Run(env, Checked(W(Config), f, key, check, pattern, rest), st);
            if env.matches(pattern, Text(env.field(env.parse(src), key))) then done == Run(env, rest, next)
            else Ended(env, v, src, done)
  {
    next := CheckedRuns(env, W(Config), f, key, check, pattern, rest, st);
    assert ShareText !in {f, check} && ClipboardText !in {f, check} && Pairing !in {f, check} && Config !in {f, check};
    if !env.matches(pattern, Text(env.field(env.parse(src), key))) {
      NoticeEnds(env, v, src, st.log, Run(env, Checked(W(Config), f, key, check, pattern, rest), st));
    }
  }

  predicate VersionGood(env: Env, src: Value) {
    env.matches(VersionOne, Text(env.field(env.parse(src), KeyVersion)))
  }

  predicate TransportGood(env: Env, src: Value) {
    env.matches(CloudflareWord, Text(env.field(env.parse(src), KeyTransport)))
  }

  lemma CheckBaseGood(env: Env, v: Variant, src: Value, st: St)
    requires Parsed(env, v, src, st) && VersionGood(env, src) && TransportGood(env, src)
    ensures Ended(env, v, src, Run(env, CheckBase(v.send), st))
  {
    var next := ParsedFieldGood(env, v, src, Base, KeyBaseUrl, BaseCheck, SimpleBase, PairThenTail(v.send), st);
    if env.matches(SimpleBase, BaseOf(env, env.parse(src))) {
      PairThenTailGood(env, v, src, next);
    }
  }

  lemma CheckTransportGood(env: Env, v: Variant, src: Value, st: St)
    requires Parsed(env, v, src, st) && VersionGood(env, src)
    ensures Ended(env, v, src, Run(env, CheckTransport(v.send), st))
  {
    var next :=
        ParsedFieldGood(env, v, src, Transport, KeyTransport, TransportCheck, CloudflareWord, CheckBase(v.send), st);
    if TransportGood(env, src) {
      CheckBaseGood(env, v, src, next);
    }
  }

  lemma CheckFieldsGood(env: Env, v: Variant, src: Value, st: St)
    requires Parsed(env, v, src, st)
    ensures Ended(env, v, src, Run(env, CheckFields(v.send), st))
  {
    var next := ParsedFieldGood(env, v, src, Version, KeyVersion, VersionCheck, VersionOne, CheckTransport(v.send), st);
    if VersionGood(env, src) {
      CheckTransportGood(env, v, src, next);
    }
  }

  // ----- choosing the configuration -----

  /** The inputs have been read; nothing but quiet effects so far. */
  ghost predicate Fetched(env: Env, st: St) {
    !st.stopped && !st.dangling && AllQuiet(st.log) && InputsKept(env, st)
  }

  lemma KeptFetched(env: Env, st: St, next: St, changed: set<Name>)
    requires Fetched(env, st) && Kept(st, next, changed) && changed !! {ShareText, ClipboardText}
    requires !next.stopped && !next.dangling && AllQuiet(next.log)
    ensures Fetched(env, next)
  {
    assert ShareText !in changed && ClipboardText !in changed;
  }

  lemma ParseThenCheckGood(env: Env, v: Variant, src: Value, st: St)
    requires v.simple && Fetched(env, st) && Word(Pairing) in st.out
    requires ResultId(Word(ConfigSource)) in st.out && st.out[ResultId(Word(ConfigSource))] == src
    ensures Ended(env, v, src, Run(env, ParseThenCheck(v.send), st))
  {
    var next := ActRuns(env, Word(Config), DetectDictionary(Result(ConfigSource)), CheckFields(v.send), st);
    assert next.log == st.log;
    QuietIsSafe(env, v, src, st.log);
    CheckFieldsGood(env, v, src, next);
  }

  lemma ShapeThenCheckGood(env: Env, v: Variant, src: Value, st: St)
    requires v.simple && Fetched(env, st) && Word(Pairing) in st.out
    requires ResultId(Word(ConfigSource)) in st.out && st.out[ResultId(Word(ConfigSource))] == src
    ensures Ended(env, v, src, Run(env, ShapeThenCheck(v.send), st))
  {
    QuietIsSafe(env, v, src, st.log);
    var next := RequireRuns(env, Shape, Result(ConfigSource), SimpleConfigShape, Help, ParseThenCheck(v.send), st);
    if env.matches(SimpleConfigShape, Text(src)) {
      ParseThenCheckGood(env, v, src, next);
    } else {
      NoticeEnds(env, v, src, st.log, Run(env, ShapeThenCheck(v.send), st));
    }
  }

  lemma LoadBranchRuns(env: Env, st: St)
    requires !st.stopped && !st.dangling && AllQuiet(st.log)
    ensures var done := Run(env, LoadBranch(), st);
            && AllQuiet(done.log) && !done.dangling && (done.stopped <==> env.file(st.log).Missing?)
            && (!done.stopped ==>
                && Kept(st, done, {LoadConfig, MissingConfig, SavedText})
                && done.last == env.file(st.log))
            && done.log == st.log + [Opened(env.file(st.log))] + if done.stopped then [Notify(Help, "")] else []
  {
    var detect := Cons(Act(Word(SavedText), DetectText(W(LoadConfig))), Nil);
    var guard := StopIf(Word(MissingConfig), W(LoadConfig), NoValue, Word(MissingConfig), Help, detect);
    var s1 := ActRuns(env, Word(LoadConfig), OpenFile, guard, st);
    var s2 := StopIfRuns(env, MissingConfig, W(LoadConfig), NoValue, Word(MissingConfig), Help, detect, s1);
    if Holds(env, s1, W(LoadConfig), NoValue) {
      var done := Run(env, guard, s1);
      assert forall e | e in done.log :: e in done.log[..|s1.log|] || e == done.log[|s1.log|];
    } else {
      var s3 := ActRuns(env, Word(SavedText), DetectText(W(LoadConfig)), Nil, s2);
      assert s3.log == s2.log;
    }
  }

  lemma TakeCandidateRuns(env: Env, st: St)
    requires Fetched(env, st) && ResultId(Word(PairSource)) in st.out
    ensures var done := Run(env, TakeCandidate(), st);
            && !done.stopped && !done.dangling && done.log == st.log && Kept(st, done, {NewConfig})
            && done.last == Has(Text(st.out[ResultId(Word(PairSource))]))
  {
    assert PiecesIn([Tok(Result(PairSource))], st.out.Keys);
    SpellOne(env, st, Tok(Result(PairSource)));
    var next := ActRuns(env, Word(NewConfig), GetText([Tok(Result(PairSource))]), Nil, st);
    assert next.log == st.log;
  }

  lemma LeftFetched(env: Env, st: St, done: St, changed: set<Name>)
    requires Fetched(env, st) && Word(Pairing) in st.out && Kept(st, done, changed)
             && changed !! {ShareText, ClipboardText, Pairing}
    requires !done.stopped && !done.dangling && AllQuiet(done.log)
    ensures Fetched(env, Leave(done, Word(ConfigSource))) && Word(Pairing) in done.out
  {
    assert ShareText !in changed && ClipboardText !in changed && Pairing !in changed;
  }

  /** The source of pairing data as the host gave it. */
  ghost predicate Sourced(env: Env, v: Variant, st: St) {
    && v.simple && Fetched(env, st) && st.log == []
    && ResultId(Word(PairSource)) in st.out && st.out[ResultId(Word(PairSource))] == Has(Offered(env, v))
  }

  /** And matched. */
  ghost predicate Matched(env: Env, v: Variant, st: St) {
    && Sourced(env, v, st)
    && Word(Pairing) in st.out && st.out[Word(Pairing)].Has? == env.matches(SimpleTicketShape, Offered(env, v))
  }

  /** After the choice: stopped quietly, or with the chosen text as the group's result. */
  lemma ChooseRuns(env: Env, v: Variant, rest: Prog, st: St) returns (done: St)
    requires Matched(env, v, st)
    ensures AllQuiet(done.log) && !done.dangling
    ensures done.stopped ==> done.log != [] && done.log[|done.log| - 1].Notify?
    ensures !done.stopped ==>
              Fetched(env, Leave(done, Word(ConfigSource))) && Word(Pairing) in done.out
                  && done.last == ConfigText(env, v)
    ensures Run(env, Cons(If(Word(ConfigSource), W(Pairing), HasValue, TakeCandidate(), true, LoadBranch()), rest), st)
         == if done.stopped then done else Run(env, rest, Leave(done, Word(ConfigSource)))
  {
    var inner := Enter(st, W(Pairing));
    done := EitherRuns(env, ConfigSource, W(Pairing), HasValue, TakeCandidate(), LoadBranch(), rest, st);
    if Holds(env, st, W(Pairing), HasValue) {
      TakeCandidateRuns(env, inner);
      LeftFetched(env, st, done, {NewConfig});
    } else {
      LoadBranchRuns(env, inner);
      if !done.stopped {
        LeftFetched(env, st, done, {LoadConfig, MissingConfig, SavedText});
      }
    }
  }

  lemma ChooseThenCheckGood(env: Env, v: Variant, st: St)
    requires Matched(env, v, st)
    ensures Ended(env, v, ConfigText(env, v), Run(env, ChooseThenCheck(v.send), st))
  {
    var done := ChooseRuns(env, v, ShapeThenCheck(v.send), st);
    if done.stopped {
      QuietEnds(env, v, ConfigText(env, v), done);
    } else {
      ShapeThenCheckGood(env, v, ConfigText(env, v), Leave(done, Word(ConfigSource)));
    }
  }

  lemma MatchThenChooseGood(env: Env, v: Variant, st: St)
    requires Sourced(env, v, st)
    ensures Ended(env, v, ConfigText(env, v), Run(env, MatchThenChoose(v.send), st))
  {
    var next :=
        ActRuns(env, Word(Pairing), MatchText(Result(PairSource), SimpleTicketShape), ChooseThenCheck(v.send), st);
    assert next.log == st.log;
    ChooseThenCheckGood(env, v, next);
  }

  /** Nothing has happened but the reading of the inputs. */
  ghost predicate Given(env: Env, st: St) {
    Fetched(env, st) && st.log == []
  }

  lemma SourceRuns(env: Env, v: Variant, rest: Prog, st: St) returns (next: St)
    requires v.simple && Given(env, st)
    ensures Sourced(env, v, next) && Run(env, SourceThen(rest), st) == Run(env, rest, next)
  {
    assert PiecesIn([Tok(W(ShareText))], st.out.Keys) && PiecesIn([Tok(W(ClipboardText))], st.out.Keys);
    next := ChoiceRuns(env, PairSource, ShareInput, PairShare, GetText([Tok(W(ShareText))]),
                       PairClip, GetText([Tok(W(ClipboardText))]), rest, st);
    KeptFetched(env, st, next, {PairSource, PairShare, PairClip});
    SpellOne(env, Enter(st, ShareInput), Tok(W(ShareText)));
    SpellOne(env, Enter(st, ShareInput), Tok(W(ClipboardText)));
  }

  lemma FetchRunsQuietly(env: Env, rest: Prog) returns (next: St)
    ensures Given(env, next) && Run(env, FetchThen(rest), Start) == Run(env, rest, next)
  {
    var p3 := Cons(Act(Word(ClipboardText), DetectText(W(Clipboard))), rest);
    var p2 := Cons(Act(Word(Clipboard), GetClipboard), p3);
    var p1 := Cons(Act(Word(ShareText), DetectText(ShareInput)), p2);
    var s1 := ActRuns(env, Word(About), Comment, p1, Start);
    assert s1.log == [];
    var s2 := ActRuns(env, Word(ShareText), DetectText(ShareInput), p2, s1);
    assert s2.log == [];
    var s3 := ActRuns(env, Word(Clipboard), GetClipboard, p3, s2);
    assert s3.log == [];
    next := ActRuns(env, Word(ClipboardText), DetectText(W(Clipboard)), rest, s3);
    assert next.log == [];
  }

  /** Every run of the simple pair keeps to the rules. */
  lemma SimpleRunsAreSafe(env: Env, v: Variant)
    requires v.simple
    ensures Ended(env, v, ConfigText(env, v), Run(env, SimpleProgram(v.send), Start))
  {
    var fetched := FetchRunsQuietly(env, SourceThen(MatchThenChoose(v.send)));
    var sourced := SourceRuns(env, v, MatchThenChoose(v.send), fetched);
    MatchThenChooseGood(env, v, sourced);
  }
}
