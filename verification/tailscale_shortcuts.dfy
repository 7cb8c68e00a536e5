/** The two shortcuts of the Tailscale entry, and the safety of their every run. */
module TailscaleShortcuts {
  import opened Basics
  import opened Workflow
  import opened Builder
  import opened ShortcutRules

  // ----- the Tailscale pair -----

  function Receive(): Prog {
    Cons(Act(Word(ReceivedText), FieldOf(Out(Sub(Word(Transfer), Response)), KeyText)),
      StopIf(Word(EmptyResult), W(ReceivedText), NoValue, Word(EmptyResult), DesktopEmpty, SetReceived(ReceivedText)))
  }

  function TailPull(): Prog {
    Request(Word(Transfer), W(BaseUrl), W(TokenField), TransferPath(), NoBody, Receive())
  }

  function TailSendChecked(): Prog {
    Cons(Act(Word(CredentialPayload), MatchText(Result(ChoosePayload), PairingShape)),
      StopIf(Word(RejectCredential), W(CredentialPayload), HasValue, Word(RejectCredential), IsCredential,
        Request(Word(Transfer), W(BaseUrl), W(TokenField), TransferPath(), TextBody(Result(ChoosePayload)),
          Finish())))
  }

  function ChoosePayloadThen(rest: Prog): Prog {
    Cons(If(Word(ChoosePayload), ShareInput, HasValue,
            Cons(Act(Word(SharedText), DetectText(ShareInput)), Nil), true,
            Cons(Act(Word(CopiedText), GetText([Tok(W(ClipboardText))])), Nil)),
      rest)
  }

  function TailSend(): Prog {
    ChoosePayloadThen(Require(Word(EmptyPayload), Result(ChoosePayload), NonEmpty, NothingToSend, TailSendChecked()))
  }

  function Tail(send: bool): Prog { if send then TailSend() else TailPull() }

  function ClearThen(rest: Prog): Prog {
    Cons(Act(Word(ClearPairing), GetText([])), Cons(Act(Word(ClearClipboard), Op.SetClipboard(W(ClearPairing))), rest))
  }

  /** The end of the pairing branch: a send stops there, a pull goes on. */
  function AfterClear(send: bool): Prog {
    if send then StopWith(Word(Paired), PairedOnly, None, Nil) else Nil
  }

  function ClearBranch(send: bool): Prog {
    StopIf(Word(SaveFailed), W(VerifySavedConfig), NoValue, Word(SaveFailed), SaveProblem,
      ClearThen(AfterClear(send)))
  }

  function SaveBranch(send: bool): Prog {
    Cons(Act(Word(NameConfig), NameItem(Result(ChooseConfig))),
      Cons(Act(Word(SaveConfig), SaveFile(W(NameConfig))),
        Cons(Act(Word(VerifySavedConfig), OpenFile),
          ClearBranch(send))))
  }

  function PairBranch(send: bool): Prog {
    Request(Word(StatusRequest), W(BaseUrl), W(TokenField), StatusPath(), NoBody, SaveBranch(send))
  }

  function PairThenTail(send: bool): Prog {
    Cons(If(Word(Pair), W(PairingCandidate), HasValue, PairBranch(send), false, Nil), Tail(send))
  }

  function WaitThenPair(send: bool): Prog {
    Cons(Act(Word(ConnectWait), Delay), PairThenTail(send))
  }

  function JoinThenPair(send: bool): Prog {
    Cons(Act(Word(Connect), TailscaleConnect), WaitThenPair(send))
  }

  function CheckToken(send: bool): Prog {
    Checked(W(Config), TokenField, KeyToken, TokenValid, TokenShape, JoinThenPair(send))
  }

  function CheckBase(send: bool): Prog {
    Checked(W(Config), BaseUrl, KeyBaseUrl, BaseValid, TailscaleBase, CheckToken(send))
  }

  function CheckFields(send: bool): Prog {
    Checked(W(Config), Version, KeyVersion, VersionValid, VersionOne, CheckBase(send))
  }

  function CheckThenJoin(send: bool): Prog {
    Cons(Act(Word(Config), DetectDictionary(Result(ChooseConfig))), CheckFields(send))
  }

  function LoadBranch(): Prog {
    Cons(Act(Word(LoadConfig), OpenFile),
      StopIf(Word(MissingConfig), W(LoadConfig), NoValue, Word(MissingConfig), Help,
        Cons(Act(Word(SavedConfigText), DetectText(W(LoadConfig))), Nil)))
  }

  function TakeClipboard(): Prog {
    Cons(Act(Word(NewConfig), GetText([Tok(W(ClipboardText))])), Nil)
  }

  function ShapeThenCheck(send: bool): Prog {
    Require(Word(ConfigShape), Result(ChooseConfig), PairingShape, Help, CheckThenJoin(send))
  }

  function ChooseThenCheck(send: bool): Prog {
    Cons(If(Word(ChooseConfig), W(PairingCandidate), HasValue, TakeClipboard(), true, LoadBranch()),
         ShapeThenCheck(send))
  }

  function FetchThen(rest: Prog): Prog {
    Cons(Act(Word(About), Comment),
      Cons(Act(Word(Clipboard), GetClipboard),
        Cons(Act(Word(ClipboardText), DetectText(W(Clipboard))),
          Cons(Act(Word(PairingCandidate), MatchText(W(ClipboardText), PairingShape)), rest))))
  }

  function TailscaleProgram(send: bool): Prog {
    FetchThen(ChooseThenCheck(send))
  }

  // ----- the Tailscale pair is safe -----

  /** The configuration in hand is checked, and its fields are where the rest looks. */
  ghost predicate Ready(env: Env, v: Variant, src: Value, st: St) {
    var cfg := env.parse(src);
    && !v.simple && Good(env, v, src, st) && !st.stopped && Validated(env, v, cfg)
    && NoTransfer(BaseOf(env, cfg), st.log)
    && env.matches(PairingShape, Text(src))
    && Word(BaseUrl) in st.out && st.out[Word(BaseUrl)] == env.field(cfg, KeyBaseUrl)
    && Word(TokenField) in st.out && st.out[Word(TokenField)] == env.field(cfg, KeyToken)
    && Word(ClipboardText) in st.out && st.out[Word(ClipboardText)] == env.clipboard([])
        && Word(PairingCandidate) in st.out
    && ResultId(Word(ChooseConfig)) in st.out && st.out[ResultId(Word(ChooseConfig))] == src
  }

  lemma TransferPermitted(env: Env, v: Variant, src: Value, st: St, body: Body)
    requires Ready(env, v, src, st)
    requires NoTransfer(BaseOf(env, env.parse(src)), st.log)
    requires if v.send then body.TextBody? && MayPost(env, v, Text(Look(env, st, body.payload))) && NoRequest(st.log)
             else body.NoBody?
    ensures Permitted(env, v, src, st.log, RequestEffect(env, st, W(BaseUrl), W(TokenField), TransferPath(), body))
  {
    var cfg := env.parse(src);
    assert TokenInUse(env, v, cfg, st.log, TokenOf(env, cfg));
  }

  lemma ReceiveGood(env: Env, src: Value, st: St)
    requires Transferred(env, Variant(false, false), src, st)
    ensures Ended(env, Variant(false, false), src, Run(env, Receive(), st))
  {
    var v := Variant(false, false);
    var e := st.log[|st.log| - 1];
    var guard :=
        StopIf(Word(EmptyResult), W(ReceivedText), NoValue, Word(EmptyResult), DesktopEmpty, SetReceived(ReceivedText));
    var s1 := ActRuns(env, Word(ReceivedText), FieldOf(Out(Sub(Word(Transfer), Response)), KeyText), guard, st);
    assert s1.log == st.log;
    var s2 := StopIfRuns(env, EmptyResult, W(ReceivedText), NoValue, Word(EmptyResult), DesktopEmpty,
                         SetReceived(ReceivedText), s1);
    var text := env.field(env.parse(e.reply), KeyText);
    assert s1.out[Word(ReceivedText)] == text;
    if text.Missing? {
      NothingTakenEnds(env, v, src, st, Run(env, guard, s1));
    } else {
      SetReceivedEnds(env, v, src, ReceivedText, st, s2);
    }
  }

  lemma TailPullGood(env: Env, src: Value, st: St)
    requires Ready(env, Variant(false, false), src, st)
    ensures Ended(env, Variant(false, false), src, Run(env, TailPull(), st))
  {
    var v := Variant(false, false);
    TransferPermitted(env, v, src, st, NoBody);
    var next := TransferGood(env, v, src, W(BaseUrl), W(TokenField), NoBody, Receive(), st);
    if OkReply(env, RequestEffect(env, st, W(BaseUrl), W(TokenField), TransferPath(), NoBody)) {
      ReceiveGood(env, src, next);
    }
  }

  // A send.

  lemma TailSendCheckedGood(env: Env, src: Value, st: St)
    requires Ready(env, Variant(false, true), src, st) && NoRequest(st.log)
    requires ResultId(Word(ChoosePayload)) in st.out && Text(st.out[ResultId(Word(ChoosePayload))]) == Payload(env)
    requires env.matches(NonEmpty, Payload(env))
    ensures Ended(env, Variant(false, true), src, Run(env, TailSendChecked(), st))
  {
    var v := Variant(false, true);
    var payload := Text(st.out[ResultId(Word(ChoosePayload))]);
    var send :=
        Request(Word(Transfer), W(BaseUrl), W(TokenField), TransferPath(), TextBody(Result(ChoosePayload)), Finish());
    var guard :=
        StopIf(Word(RejectCredential), W(CredentialPayload), HasValue, Word(RejectCredential), IsCredential, send);
    var s1 := ActRuns(env, Word(CredentialPayload), MatchText(Result(ChoosePayload), PairingShape), guard, st);
    assert s1.log == st.log;
    var s2 := StopIfRuns(env, RejectCredential, W(CredentialPayload), HasValue, Word(RejectCredential), IsCredential,
                         send, s1);
    if env.matches(PairingShape, payload) {
      NoticeEnds(env, v, src, s1.log, Run(env, guard, s1));
    } else {
      SameKeepsReady(env, v, src, st, s1, CredentialPayload);
      SameKeepsReady(env, v, src, s1, s2, RejectCredential);
      TransferPermitted(env, v, src, s2, TextBody(Result(ChoosePayload)));
      var s3 := TransferGood(env, v, src, W(BaseUrl), W(TokenField), TextBody(Result(ChoosePayload)), Finish(), s2);
      if OkReply(env,
                 RequestEffect(env, s2, W(BaseUrl), W(TokenField), TransferPath(), TextBody(Result(ChoosePayload)))) {
        FinishEnds(env, v, src, s3);
      }
    }
  }

  /** Blocks of other names leave the checked configuration in place. */
  lemma SameKeepsReady(env: Env, v: Variant, src: Value, st: St, next: St, n: Name)
    requires Ready(env, v, src, st) && Same(st, next, n)
    requires n != BaseUrl && n != TokenField && n != ClipboardText && n != PairingCandidate && n != ChooseConfig
    requires Good(env, v, src, next) && !next.stopped && NoTransfer(BaseOf(env, env.parse(src)), next.log)
    ensures Ready(env, v, src, next)
  {
  }

  lemma KeptReady(env: Env, v: Variant, src: Value, st: St, next: St, changed: set<Name>)
    requires Ready(env, v, src, st) && Kept(st, next, changed)
    requires changed !! {BaseUrl, TokenField, ClipboardText, PairingCandidate, ChooseConfig}
    requires Good(env, v, src, next) && !next.stopped && NoTransfer(BaseOf(env, env.parse(src)), next.log)
    ensures Ready(env, v, src, next)
  {
    assert BaseUrl !in changed && TokenField !in changed && ClipboardText !in changed && PairingCandidate !in changed
        && ChooseConfig !in changed;
  }

  lemma TailSendNeedGood(env: Env, src: Value, st: St)
    requires Ready(env, Variant(false, true), src, st) && NoRequest(st.log)
    requires ResultId(Word(ChoosePayload)) in st.out && Text(st.out[ResultId(Word(ChoosePayload))]) == Payload(env)
    ensures Ended(env, Variant(false, true), src,
                 Run(env, Require(Word(EmptyPayload), Result(ChoosePayload), NonEmpty, NothingToSend,
                                  TailSendChecked()), st))
  {
    var v := Variant(false, true);
    var need := Require(Word(EmptyPayload), Result(ChoosePayload), NonEmpty, NothingToSend, TailSendChecked());
    var next := RequireRuns(env, EmptyPayload, Result(ChoosePayload), NonEmpty, NothingToSend, TailSendChecked(), st);
    if env.matches(NonEmpty, Text(st.out[ResultId(Word(ChoosePayload))])) {
      SameKeepsReady(env, v, src, st, next, EmptyPayload);
      TailSendCheckedGood(env, src, next);
    } else {
      NoticeEnds(env, v, src, st.log, Run(env, need, st));
    }
  }

  /** Share input first, else the clipboard. */
  lemma ChoosePayloadRuns(env: Env, rest: Prog, st: St) returns (next: St)
    requires !st.stopped && !st.dangling && Word(ClipboardText) in st.out
             && st.out[Word(ClipboardText)] == env.clipboard([])
    ensures next.log == st.log && !next.stopped && !next.dangling
    ensures ResultId(Word(ChoosePayload)) in next.out && Text(next.out[ResultId(Word(ChoosePayload))]) == Payload(env)
    ensures Kept(st, next, {ChoosePayload, SharedText, CopiedText})
    ensures Run(env, ChoosePayloadThen(rest), st) == Run(env, rest, next)
  {
    assert PiecesIn([Tok(W(ClipboardText))], st.out.Keys);
    SpellOne(env, Enter(st, ShareInput), Tok(W(ClipboardText)));
    next := ChoiceRuns(env, ChoosePayload, ShareInput, SharedText, DetectText(ShareInput),
                       CopiedText, GetText([Tok(W(ClipboardText))]), rest, st);
  }

  lemma ChoosePayloadReady(env: Env, src: Value, rest: Prog, st: St) returns (next: St)
    requires Ready(env, Variant(false, true), src, st)
    ensures Ready(env, Variant(false, true), src, next) && next.log == st.log
    ensures ResultId(Word(ChoosePayload)) in next.out && Text(next.out[ResultId(Word(ChoosePayload))]) == Payload(env)
    ensures Run(env, ChoosePayloadThen(rest), st) == Run(env, rest, next)
  {
    next := ChoosePayloadRuns(env, rest, st);
    KeptReady(env, Variant(false, true), src, st, next, {ChoosePayload, SharedText, CopiedText});
  }

  lemma TailSendGood(env: Env, src: Value, st: St)
    requires Ready(env, Variant(false, true), src, st) && NoRequest(st.log)
    ensures Ended(env, Variant(false, true), src, Run(env, TailSend(), st))
  {
    var need := Require(Word(EmptyPayload), Result(ChoosePayload), NonEmpty, NothingToSend, TailSendChecked());
    var next := ChoosePayloadReady(env, src, need, st);
    TailSendNeedGood(env, src, next);
  }

  // Pairing.

  /** Checked, and a pairing request of this run has been answered well. */
  ghost predicate PairedUp(env: Env, v: Variant, src: Value, st: St) {
    && Ready(env, v, src, st)
    && (exists e :: e in st.log && GoodPairing(env, v, BaseOf(env, env.parse(src)), e))
    && NoTransfer(BaseOf(env, env.parse(src)), st.log)
  }

  /** Effects that ask for no new request leave a paired state paired. */
  lemma StillPaired(env: Env, v: Variant, src: Value, st: St, next: St, more: seq<Effect>)
    requires PairedUp(env, v, src, st) && Ready(env, v, src, next)
    requires next.log == st.log + more && forall e | e in more :: !e.Http?
    ensures PairedUp(env, v, src, next)
  {
    var e :| e in st.log && GoodPairing(env, v, BaseOf(env, env.parse(src)), e);
    assert e in next.log;
  }

  /** The saved text and what is read back, without judging them. */
  lemma SaveRuns(env: Env, src: Value, rest: Prog, st: St) returns (next: St)
    requires !st.stopped && !st.dangling && ResultId(Word(ChooseConfig)) in st.out
             && st.out[ResultId(Word(ChooseConfig))] == src
    ensures var read := env.file(st.log + [Saved(Text(src))]);
            && next.log == st.log + [Saved(Text(src)), Opened(read)]
            && Word(VerifySavedConfig) in next.out && next.out[Word(VerifySavedConfig)] == read
    ensures Kept(st, next, {NameConfig, SaveConfig, VerifySavedConfig}) && !next.stopped && !next.dangling
    ensures var save :=
            Cons(Act(Word(SaveConfig), SaveFile(W(NameConfig))), Cons(Act(Word(VerifySavedConfig), OpenFile), rest));
            Run(env, Cons(Act(Word(NameConfig), NameItem(Result(ChooseConfig))), save), st) == Run(env, rest, next)
  {
    var open := Cons(Act(Word(VerifySavedConfig), OpenFile), rest);
    var save := Cons(Act(Word(SaveConfig), SaveFile(W(NameConfig))), open);
    var s1 := ActRuns(env, Word(NameConfig), NameItem(Result(ChooseConfig)), save, st);
    assert s1.log == st.log;
    var s2 := ActRuns(env, Word(SaveConfig), SaveFile(W(NameConfig)), open, s1);
    next := ActRuns(env, Word(VerifySavedConfig), OpenFile, rest, s2);
  }

  lemma SaveIsSafe(env: Env, v: Variant, src: Value, st: St, read: Value)
    requires PairedUp(env, v, src, st)
    ensures Safe(env, v, src, st.log + [Saved(Text(src)), Opened(read)])
  {
    assert MaySave(env, v, src, st.log, Text(src));
    SafeSnoc(env, v, src, st.log, Saved(Text(src)));
    SafeSnoc(env, v, src, st.log + [Saved(Text(src))], Opened(read));
    assert st.log + [Saved(Text(src)), Opened(read)] == st.log + [Saved(Text(src))] + [Opened(read)];
  }

  lemma SaveGood(env: Env, v: Variant, src: Value, st: St, next: St, read: Value)
    requires PairedUp(env, v, src, st) && next.log == st.log + [Saved(Text(src)), Opened(read)]
    requires Kept(st, next, {NameConfig, SaveConfig, VerifySavedConfig}) && !next.stopped && !next.dangling
    ensures PairedUp(env, v, src, next)
  {
    SaveIsSafe(env, v, src, st, read);
    KeptReady(env, v, src, st, next, {NameConfig, SaveConfig, VerifySavedConfig});
    StillPaired(env, v, src, st, next, [Saved(Text(src)), Opened(read)]);
  }

  lemma ClearRuns(env: Env, rest: Prog, st: St) returns (next: St)
    requires !st.stopped && !st.dangling
    ensures Run(env, ClearThen(rest), st) == Run(env, rest, next)
    ensures next.log == st.log + [ClipboardSet(Has(""))] && !next.stopped && !next.dangling
    ensures Kept(st, next, {ClearPairing, ClearClipboard})
  {
    var set' := Cons(Act(Word(ClearClipboard), Op.SetClipboard(W(ClearPairing))), rest);
    var s1 := ActRuns(env, Word(ClearPairing), GetText([]), set', st);
    assert s1.log == st.log;
    next := ActRuns(env, Word(ClearClipboard), Op.SetClipboard(W(ClearPairing)), rest, s1);
  }

  lemma ClearGood(env: Env, v: Variant, src: Value, st: St, next: St)
    requires PairedUp(env, v, src, st) && MayClear(env, v, BaseOf(env, env.parse(src)), st.log)
    requires next.log == st.log + [ClipboardSet(Has(""))] && !next.stopped && !next.dangling
    requires Kept(st, next, {ClearPairing, ClearClipboard})
    ensures PairedUp(env, v, src, next)
  {
    SafeSnoc(env, v, src, st.log, ClipboardSet(Has("")));
    KeptReady(env, v, src, st, next, {ClearPairing, ClearClipboard});
    StillPaired(env, v, src, st, next, [ClipboardSet(Has(""))]);
  }

  lemma AfterClearGood(env: Env, v: Variant, src: Value, st: St)
    requires PairedUp(env, v, src, st) && MayClear(env, v, BaseOf(env, env.parse(src)), st.log)
    ensures var done := Run(env, ClearThen(AfterClear(v.send)), st);
            if done.stopped then Ended(env, v, src, done) else !v.send && PairedUp(env, v, src, done)
  {
    var next := ClearRuns(env, AfterClear(v.send), st);
    ClearGood(env, v, src, st, next);
    if v.send {
      StopRuns(env, Word(Paired), PairedOnly, None, Nil, next);
      NoticeEnds(env, v, src, next.log, Run(env, AfterClear(true), next));
    }
  }

  lemma SavedIsReadBack(env: Env, v: Variant, src: Value, st: St, next: St)
    requires PairedUp(env, v, src, st) && |st.log| >= 2 && st.log[|st.log| - 2].Saved?
    requires st.log[|st.log| - 1].Opened? && st.log[|st.log| - 1].value.Has?
    requires Same(st, next, SaveFailed) && next.log == st.log && !next.stopped && !next.dangling
    ensures PairedUp(env, v, src, next) && MayClear(env, v, BaseOf(env, env.parse(src)), next.log)
  {
    SameKeepsReady(env, v, src, st, next, SaveFailed);
  }

  /** The pairing branch after its request: stopped, or, for a pull, on with the transfer. */
  lemma ClearBranchRuns(env: Env, v: Variant, src: Value, st: St)
    requires PairedUp(env, v, src, st) && |st.log| >= 2 && st.log[|st.log| - 2].Saved? && st.log[|st.log| - 1].Opened?
    requires Word(VerifySavedConfig) in st.out && st.out[Word(VerifySavedConfig)] == st.log[|st.log| - 1].value
    ensures var done := Run(env, ClearBranch(v.send), st);
            if done.stopped then Ended(env, v, src, done) else !v.send && PairedUp(env, v, src, done)
  {
    var next :=
        StopIfRuns(env, SaveFailed, W(VerifySavedConfig), NoValue, Word(SaveFailed), SaveProblem,
                   ClearThen(AfterClear(v.send)), st);
    if st.out[Word(VerifySavedConfig)].Missing? {
      NoticeEnds(env, v, src, st.log, Run(env, ClearBranch(v.send), st));
    } else {
      SavedIsReadBack(env, v, src, st, next);
      AfterClearGood(env, v, src, next);
    }
  }

  lemma SaveBranchGood(env: Env, v: Variant, src: Value, st: St)
    requires PairedUp(env, v, src, st)
    ensures var done := Run(env, SaveBranch(v.send), st);
            if done.stopped then Ended(env, v, src, done) else !v.send && PairedUp(env, v, src, done)
  {
    var next := SaveRuns(env, src, ClearBranch(v.send), st);
    SaveGood(env, v, src, st, next, next.out[Word(VerifySavedConfig)]);
    ClearBranchRuns(env, v, src, next);
  }

  lemma PairRequestPermitted(env: Env, v: Variant, src: Value, st: St)
    requires Ready(env, v, src, st) && NoRequest(st.log)
    ensures var e := RequestEffect(env, st, W(BaseUrl), W(TokenField), StatusPath(), NoBody);
            IsPairing(v, BaseOf(env, env.parse(src)), e) && Permitted(env, v, src, st.log, e)
  {
  }

  lemma PairAnswered(env: Env, v: Variant, src: Value, st: St, e: Effect, next: St)
    requires Ready(env, v, src, st) && NoRequest(st.log) && IsPairing(v, BaseOf(env, env.parse(src)), e)
             && OkReply(env, e)
    requires Ready(env, v, src, next) && next.log == st.log + [e]
    ensures PairedUp(env, v, src, next)
  {
    PathsDiffer(BaseOf(env, env.parse(src)));
    assert e in next.log && GoodPairing(env, v, BaseOf(env, env.parse(src)), e);
  }

  /** The pairing request itself, and the state after it. */
  lemma PairRequestRuns(env: Env, v: Variant, src: Value, rest: Prog, st: St) returns (next: St)
    requires Ready(env, v, src, st) && NoRequest(st.log)
    ensures var done :=
            Run(env, Request(Word(StatusRequest), W(BaseUrl), W(TokenField), StatusPath(), NoBody, rest), st);
            if OkReply(env, RequestEffect(env, st, W(BaseUrl), W(TokenField), StatusPath(), NoBody))
            then done == Run(env, rest, next) && PairedUp(env, v, src, next)
            else Ended(env, v, src, done) && done.stopped
  {
    var e := RequestEffect(env, st, W(BaseUrl), W(TokenField), StatusPath(), NoBody);
    PairRequestPermitted(env, v, src, st);
    SafeSnoc(env, v, src, st.log, e);
    next := RequestRuns(env, StatusRequest, W(BaseUrl), W(TokenField), StatusPath(), NoBody, rest, st);
    if OkReply(env, e) {
      SameKeepsReady(env, v, src, st, next, StatusRequest);
      PairAnswered(env, v, src, st, e, next);
    } else {
      BadReplyEnds(env, v, src, st.log, e,
                   Run(env, Request(Word(StatusRequest), W(BaseUrl), W(TokenField), StatusPath(), NoBody, rest), st));
    }
  }

  lemma PairBranchGood(env: Env, v: Variant, src: Value, st: St)
    requires Ready(env, v, src, st) && NoRequest(st.log)
    ensures var done := Run(env, PairBranch(v.send), st);
            if done.stopped then Ended(env, v, src, done) else !v.send && PairedUp(env, v, src, done)
  {
    var next := PairRequestRuns(env, v, src, SaveBranch(v.send), st);
    if OkReply(env, RequestEffect(env, st, W(BaseUrl), W(TokenField), StatusPath(), NoBody)) {
      SaveBranchGood(env, v, src, next);
    }
  }

  lemma EnterLeaveReady(env: Env, v: Variant, src: Value, st: St, n: Name)
    requires Ready(env, v, src, st) && n != ChooseConfig
    ensures Ready(env, v, src, Leave(st, Word(n)))
  {
  }

  lemma TailGood(env: Env, v: Variant, src: Value, st: St)
    requires Ready(env, v, src, st)
             && (if v.send then NoRequest(st.log) else NoTransfer(BaseOf(env, env.parse(src)), st.log))
    ensures Ended(env, v, src, Run(env, Tail(v.send), st))
  {
    if v.send {
      TailSendGood(env, src, st);
    } else {
      TailPullGood(env, src, st);
    }
  }

  lemma PairThenTailGood(env: Env, v: Variant, src: Value, st: St)
    requires Ready(env, v, src, st) && NoRequest(st.log)
    ensures Ended(env, v, src, Run(env, PairThenTail(v.send), st))
  {
    var inner := Enter(st, W(PairingCandidate));
    assert Ready(env, v, src, inner);
    var done := IfRuns(env, Pair, W(PairingCandidate), HasValue, PairBranch(v.send), Tail(v.send), st);
    if Holds(env, st, W(PairingCandidate), HasValue) {
      PairBranchGood(env, v, src, inner);
    }
    if !done.stopped {
      EnterLeaveReady(env, v, src, done, Pair);
      TailGood(env, v, src, Leave(done, Word(Pair)));
    }
  }

  /** An action with one quiet effect keeps a checked state checked. */
  lemma QuietActReady(env: Env, v: Variant, src: Value, n: Name, op: Op, e: Effect, rest: Prog, st: St)
    returns (next: St)
    requires Ready(env, v, src, st) && NoRequest(st.log) && RefsIn(op, st.out.Keys)
    requires n != BaseUrl && n != TokenField && n != ClipboardText && n != PairingCandidate && n != ChooseConfig
    requires Perform(env, st, op).1 == [e] && (e.Joined? || e.Waited?)
    ensures Ready(env, v, src, next) && NoRequest(next.log)
            && Run(env, Cons(Act(Word(n), op), rest), st) == Run(env, rest, next)
  {
    next := ActRuns(env, Word(n), op, rest, st);
    SafeSnoc(env, v, src, st.log, e);
    SameKeepsReady(env, v, src, st, next, n);
  }

  lemma WaitThenPairGood(env: Env, v: Variant, src: Value, st: St)
    requires Ready(env, v, src, st) && NoRequest(st.log)
    ensures Ended(env, v, src, Run(env, WaitThenPair(v.send), st))
  {
    var next := QuietActReady(env, v, src, ConnectWait, Delay, Waited, PairThenTail(v.send), st);
    PairThenTailGood(env, v, src, next);
  }

  lemma JoinThenPairGood(env: Env, v: Variant, src: Value, st: St)
    requires Ready(env, v, src, st) && NoRequest(st.log)
    ensures Ended(env, v, src, Run(env, JoinThenPair(v.send), st))
  {
    var next := QuietActReady(env, v, src, Connect, TailscaleConnect, Joined, WaitThenPair(v.send), st);
    WaitThenPairGood(env, v, src, next);
  }

  // Checking the configuration.

  /** The configuration text has been chosen and has the right shape; `known` of its fields
      have been checked. */
  ghost predicate Chosen(env: Env, v: Variant, src: Value, st: St) {
    && !v.simple && Good(env, v, src, st) && !st.stopped && NoRequest(st.log)
    && env.matches(PairingShape, Text(src))
    && Word(ClipboardText) in st.out && st.out[Word(ClipboardText)] == env.clipboard([])
        && Word(PairingCandidate) in st.out
    && ResultId(Word(ChooseConfig)) in st.out && st.out[ResultId(Word(ChooseConfig))] == src
  }

  lemma KeptChosen(env: Env, v: Variant, src: Value, st: St, next: St, changed: set<Name>)
    requires Chosen(env, v, src, st) && Kept(st, next, changed) && next.log == st.log && !next.stopped && !next.dangling
    requires changed !! {ClipboardText, PairingCandidate, ChooseConfig}
    ensures Chosen(env, v, src, next)
  {
    assert ClipboardText !in changed && PairingCandidate !in changed && ChooseConfig !in changed;
  }

  /** One checked field: stopped well, or on with the field known to match. */
  lemma CheckedGood(env: Env, v: Variant, src: Value, f: Name, key: Key, check: Name, pattern: Pattern, rest: Prog,
                    st: St) returns (next: St)
    requires Chosen(env, v, src, st) && Word(Config) in st.out && st.out[Word(Config)] == env.parse(src) && f != check
    requires {f, check} !! {ClipboardText, PairingCandidate, ChooseConfig, Config}
    ensures var value := env.field(env.parse(src), key);
            var done := Run(env, Checked(W(Config), f, key, check, pattern, rest), st);
            && (if env.matches(pattern, Text(value)) then done == Run(env, rest, next) else Ended(env, v, src, done))
            && Word(f) in next.out && next.out[Word(f)] == value
    ensures Chosen(env, v, src, next) && Kept(st, next, {f, check}) && Word(Config) in next.out
            && next.out[Word(Config)] == env.parse(src)
  {
    next := CheckedRuns(env, W(Config), f, key, check, pattern, rest, st);
    KeptChosen(env, v, src, st, next, {f, check});
    assert Config !in {f, check};
    if !env.matches(pattern, Text(env.field(env.parse(src), key))) {
      NoticeEnds(env, v, src, st.log, Run(env, Checked(W(Config), f, key, check, pattern, rest), st));
    }
  }

  /** A chosen configuration, parsed. */
  ghost predicate Parsed(env: Env, v: Variant, src: Value, st: St) {
    Chosen(env, v, src, st) && Word(Config) in st.out && st.out[Word(Config)] == env.parse(src)
  }

  lemma CheckTokenGood(env: Env, v: Variant, src: Value, st: St)
    requires Parsed(env, v, src, st)
    requires env.matches(VersionOne, Text(env.field(env.parse(src), KeyVersion)))
    requires env.matches(TailscaleBase, BaseOf(env, env.parse(src)))
    requires Word(BaseUrl) in st.out && st.out[Word(BaseUrl)] == env.field(env.parse(src), KeyBaseUrl)
    ensures Ended(env, v, src, Run(env, CheckToken(v.send), st))
  {
    var next := CheckedGood(env, v, src, TokenField, KeyToken, TokenValid, TokenShape, JoinThenPair(v.send), st);
    if env.matches(TokenShape, TokenOf(env, env.parse(src))) {
      assert BaseUrl !in {TokenField, TokenValid};
      JoinThenPairGood(env, v, src, next);
    }
  }

  lemma CheckBaseGood(env: Env, v: Variant, src: Value, st: St)
    requires Parsed(env, v, src, st)
    requires env.matches(VersionOne, Text(env.field(env.parse(src), KeyVersion)))
    ensures Ended(env, v, src, Run(env, CheckBase(v.send), st))
  {
    var next := CheckedGood(env, v, src, BaseUrl, KeyBaseUrl, BaseValid, TailscaleBase, CheckToken(v.send), st);
    if env.matches(TailscaleBase, BaseOf(env, env.parse(src))) {
      CheckTokenGood(env, v, src, next);
    }
  }

  lemma CheckFieldsGood(env: Env, v: Variant, src: Value, st: St)
    requires Parsed(env, v, src, st)
    ensures Ended(env, v, src, Run(env, CheckFields(v.send), st))
  {
    var next := CheckedGood(env, v, src, Version, KeyVersion, VersionValid, VersionOne, CheckBase(v.send), st);
    if env.matches(VersionOne, Text(env.field(env.parse(src), KeyVersion))) {
      CheckBaseGood(env, v, src, next);
    }
  }

  lemma CheckThenJoinGood(env: Env, v: Variant, src: Value, st: St)
    requires Chosen(env, v, src, st)
    ensures Ended(env, v, src, Run(env, CheckThenJoin(v.send), st))
  {
    var next := ActRuns(env, Word(Config), DetectDictionary(Result(ChooseConfig)), CheckFields(v.send), st);
    assert next.log == st.log;
    assert Kept(st, next, {Config});
    KeptChosen(env, v, src, st, next, {Config});
    CheckFieldsGood(env, v, src, next);
  }

  // Choosing the configuration.

  /** The saved configuration is opened: stopped if there is none. */
  lemma LoadBranchRuns(env: Env, st: St)
    requires !st.stopped && !st.dangling && AllQuiet(st.log)
    ensures var done := Run(env, LoadBranch(), st);
            && AllQuiet(done.log) && !done.dangling && (done.stopped <==> env.file(st.log).Missing?)
            && (!done.stopped ==>
                && Kept(st, done, {LoadConfig, MissingConfig, SavedConfigText})
                && done.last == env.file(st.log))
            && done.log == st.log + [Opened(env.file(st.log))] + if done.stopped then [Notify(Help, "")] else []
  {
    var detect := Cons(Act(Word(SavedConfigText), DetectText(W(LoadConfig))), Nil);
    var guard := StopIf(Word(MissingConfig), W(LoadConfig), NoValue, Word(MissingConfig), Help, detect);
    var s1 := ActRuns(env, Word(LoadConfig), OpenFile, guard, st);
    var s2 := StopIfRuns(env, MissingConfig, W(LoadConfig), NoValue, Word(MissingConfig), Help, detect, s1);
    if Holds(env, s1, W(LoadConfig), NoValue) {
      var done := Run(env, guard, s1);
      assert forall e | e in done.log :: e in done.log[..|s1.log|] || e == done.log[|s1.log|];
    } else {
      var s3 := ActRuns(env, Word(SavedConfigText), DetectText(W(LoadConfig)), Nil, s2);
      assert s3.log == s2.log;
    }
  }

  /** Before the choice: the clipboard read, nothing done. */
  ghost predicate Fetched(env: Env, st: St) {
    && !st.stopped && !st.dangling && AllQuiet(st.log)
    && Word(ClipboardText) in st.out && st.out[Word(ClipboardText)] == env.clipboard([])
        && Word(PairingCandidate) in st.out
  }

  lemma ShapeThenCheckGood(env: Env, v: Variant, src: Value, st: St)
    requires !v.simple && Fetched(env, st) && ResultId(Word(ChooseConfig)) in st.out
             && st.out[ResultId(Word(ChooseConfig))] == src
    ensures Ended(env, v, src, Run(env, ShapeThenCheck(v.send), st))
  {
    QuietIsSafe(env, v, src, st.log);
    var next := RequireRuns(env, ConfigShape, Result(ChooseConfig), PairingShape, Help, CheckThenJoin(v.send), st);
    if env.matches(PairingShape, Text(src)) {
      CheckThenJoinGood(env, v, src, next);
    } else {
      NoticeEnds(env, v, src, st.log, Run(env, ShapeThenCheck(v.send), st));
    }
  }

  lemma TakeClipboardRuns(env: Env, st: St)
    requires Fetched(env, st)
    ensures var done := Run(env, TakeClipboard(), st);
            && !done.stopped && !done.dangling && done.log == st.log && Kept(st, done, {NewConfig})
            && done.last == Has(Text(st.out[Word(ClipboardText)]))
  {
    assert PiecesIn([Tok(W(ClipboardText))], st.out.Keys);
    SpellOne(env, st, Tok(W(ClipboardText)));
    var next := ActRuns(env, Word(NewConfig), GetText([Tok(W(ClipboardText))]), Nil, st);
    assert next.log == st.log;
  }

  lemma LeftFetched(env: Env, st: St, done: St, changed: set<Name>)
    requires Fetched(env, st) && Kept(st, done, changed) && changed !! {ClipboardText, PairingCandidate}
    requires !done.stopped && !done.dangling && AllQuiet(done.log)
    ensures Fetched(env, Leave(done, Word(ChooseConfig)))
  {
    assert ClipboardText !in changed && PairingCandidate !in changed;
  }

  /** The clipboard as the host gave it, matched. */
  ghost predicate FetchedFrom(env: Env, st: St) {
    && Fetched(env, st) && st.log == []
    && st.out[Word(PairingCandidate)].Has? == env.matches(PairingShape, Text(env.clipboard([])))
  }

  /** After the choice: stopped quietly, or with the chosen text as the group's result. */
  lemma ChooseRuns(env: Env, v: Variant, rest: Prog, st: St) returns (done: St)
    requires !v.simple && FetchedFrom(env, st)
    ensures AllQuiet(done.log) && !done.dangling
    ensures done.stopped ==> done.log != [] && done.log[|done.log| - 1].Notify?
    ensures !done.stopped ==> Fetched(env, Leave(done, Word(ChooseConfig))) && done.last == ConfigText(env, v)
    ensures Run(env,
                Cons(If(Word(ChooseConfig), W(PairingCandidate), HasValue, TakeClipboard(), true, LoadBranch()),
                     rest), st)
         == if done.stopped then done else Run(env, rest, Leave(done, Word(ChooseConfig)))
  {
    var inner := Enter(st, W(PairingCandidate));
    done := EitherRuns(env, ChooseConfig, W(PairingCandidate), HasValue, TakeClipboard(), LoadBranch(), rest, st);
    if Holds(env, st, W(PairingCandidate), HasValue) {
      TakeClipboardRuns(env, inner);
      LeftFetched(env, st, done, {NewConfig});
    } else {
      LoadBranchRuns(env, inner);
      if !done.stopped {
        LeftFetched(env, st, done, {LoadConfig, MissingConfig, SavedConfigText});
      }
    }
  }

  lemma ChooseThenCheckGood(env: Env, v: Variant, st: St)
    requires !v.simple && FetchedFrom(env, st)
    ensures Ended(env, v, ConfigText(env, v), Run(env, ChooseThenCheck(v.send), st))
  {
    var done := ChooseRuns(env, v, ShapeThenCheck(v.send), st);
    if done.stopped {
      QuietEnds(env, v, ConfigText(env, v), done);
    } else {
      ShapeThenCheckGood(env, v, ConfigText(env, v), Leave(done, Word(ChooseConfig)));
    }
  }

  lemma FetchClipboardRuns(env: Env, rest: Prog) returns (next: St)
    ensures FetchedFrom(env, next) && Run(env, FetchThen(rest), Start) == Run(env, rest, next)
  {
    var p3 := Cons(Act(Word(PairingCandidate), MatchText(W(ClipboardText), PairingShape)), rest);
    var p2 := Cons(Act(Word(ClipboardText), DetectText(W(Clipboard))), p3);
    var p1 := Cons(Act(Word(Clipboard), GetClipboard), p2);
    var s1 := ActRuns(env, Word(About), Comment, p1, Start);
    assert s1.log == [];
    var s2 := ActRuns(env, Word(Clipboard), GetClipboard, p2, s1);
    assert s2.log == [];
    var s3 := ActRuns(env, Word(ClipboardText), DetectText(W(Clipboard)), p3, s2);
    assert s3.log == [];
    next := ActRuns(env, Word(PairingCandidate), MatchText(W(ClipboardText), PairingShape), rest, s3);
    assert next.log == [];
  }

  /** Every run of the Tailscale pair keeps to the rules. */
  lemma TailscaleRunsAreSafe(env: Env, v: Variant)
    requires !v.simple
    ensures Ended(env, v, ConfigText(env, v), Run(env, TailscaleProgram(v.send), Start))
  {
    var next := FetchClipboardRuns(env, ChooseThenCheck(v.send));
    ChooseThenCheckGood(env, v, next);
  }
}
