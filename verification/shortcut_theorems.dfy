/** What holds of the four shortcuts as they are shipped: as flat action lists. */
module ShortcutTheorems {
  import opened Basics
  import opened Workflow
  import opened Builder
  import opened ShortcutRules
  import T = TailscaleShortcuts
  import S = SimpleShortcuts
  import opened RunLogs
  import TailscaleRuns
  import SimpleRuns

  function Program(v: Variant): Prog {
    if v.simple then S.SimpleProgram(v.send) else T.TailscaleProgram(v.send)
  }

  // ----- every label is used once -----

  /** Distinct labels, whose words are numbered from lo up to hi. */
  ghost predicate Tidy(p: Prog, lo: nat, hi: nat) {
    NoDup(Labels(p)) && forall l | l in Labels(p) :: Plain(l) && lo <= NameOf(l) < hi
  }

  /** Distinct labels of one stretch, then a tidy rest with later words. */
  lemma BlockTidy(p: Prog, block: seq<Label>, rest: Prog, lo: nat, mid: nat, hi: nat)
    requires Labels(p) == block + Labels(rest) && NoDup(block) && lo <= mid <= hi
    requires forall l | l in block :: Plain(l) && lo <= NameOf(l) < mid
    requires Tidy(rest, mid, hi)
    ensures Tidy(p, lo, hi)
  {
    NoDupConcat(block, Labels(rest));
  }

  lemma ActTidy(n: Name, op: Op, rest: Prog, lo: nat, hi: nat)
    requires lo <= n < hi && Tidy(rest, n + 1, hi)
    ensures Tidy(Cons(Act(Word(n), op), rest), lo, hi)
  {
    BlockTidy(Cons(Act(Word(n), op), rest), [Word(n)], rest, lo, n + 1, hi);
  }

  lemma StopLabels(l: Label, message: Message, about: Option<Ref>, rest: Prog)
    ensures Labels(StopWith(l, message, about, rest)) == [Sub(l, Notice), Sub(l, Halt)] + Labels(rest)
  {
    var halt := Cons(Stmt.Stop(Sub(l, Halt)), rest);
    assert Labels(halt) == [Sub(l, Halt)] + Labels(rest);
    assert LabelsOf(Act(Sub(l, Notice), Notification(message, about))) == [Sub(l, Notice)];
  }

  lemma StopTidy(n: Name, message: Message, rest: Prog, lo: nat, hi: nat)
    requires lo <= n < hi && Tidy(rest, n + 1, hi)
    ensures Tidy(StopWith(Word(n), message, None, rest), lo, hi)
  {
    StopLabels(Word(n), message, None, rest);
    BlockTidy(StopWith(Word(n), message, None, rest), [Sub(Word(n), Notice), Sub(Word(n), Halt)], rest, lo, n + 1, hi);
  }

  lemma StopIfLabels(l: Label, subject: Ref, cond: Condition, stop: Label, message: Message, rest: Prog)
    ensures Labels(StopIf(l, subject, cond, stop, message, rest))
            == [l, Sub(stop, Notice), Sub(stop, Halt)] + Labels(rest)
  {
    StopLabels(stop, message, None, Nil);
    assert LabelsOf(If(l, subject, cond, StopWith(stop, message, None, Nil), false, Nil))
        == [l, Sub(stop, Notice), Sub(stop, Halt)];
  }

  lemma StopIfTidy(n: Name, subject: Ref, cond: Condition, message: Message, rest: Prog, lo: nat, hi: nat)
    requires lo <= n < hi && Tidy(rest, n + 1, hi)
    ensures Tidy(StopIf(Word(n), subject, cond, Word(n), message, rest), lo, hi)
  {
    StopIfLabels(Word(n), subject, cond, Word(n), message, rest);
    BlockTidy(StopIf(Word(n), subject, cond, Word(n), message, rest),
              [Word(n), Sub(Word(n), Notice), Sub(Word(n), Halt)], rest, lo, n + 1, hi);
  }

  lemma RequireLabels(l: Label, v: Ref, pattern: Pattern, message: Message, rest: Prog)
    ensures Labels(Require(l, v, pattern, message, rest))
            == [Sub(l, Match), l, Sub(l, Notice), Sub(l, Halt)] + Labels(rest)
  {
    StopIfLabels(l, Out(Sub(l, Match)), NoValue, l, message, rest);
    assert LabelsOf(Act(Sub(l, Match), MatchText(v, pattern))) == [Sub(l, Match)];
  }

  lemma RequireTidy(n: Name, v: Ref, pattern: Pattern, message: Message, rest: Prog, lo: nat, hi: nat)
    requires lo <= n < hi && Tidy(rest, n + 1, hi)
    ensures Tidy(Require(Word(n), v, pattern, message, rest), lo, hi)
  {
    RequireLabels(Word(n), v, pattern, message, rest);
    BlockTidy(Require(Word(n), v, pattern, message, rest),
              [Sub(Word(n), Match), Word(n), Sub(Word(n), Notice), Sub(Word(n), Halt)], rest, lo, n + 1, hi);
  }

  lemma CheckedTidy(dict: Ref, f: Name, key: Key, check: Name, pattern: Pattern, rest: Prog, lo: nat, hi: nat)
    requires lo <= f < check < hi && Tidy(rest, check + 1, hi)
    ensures Tidy(Checked(dict, f, key, check, pattern, rest), lo, hi)
  {
    var need := Require(Word(check), W(f), pattern, Help, rest);
    RequireTidy(check, W(f), pattern, Help, rest, f + 1, hi);
    ActTidy(f, FieldOf(dict, key), need, lo, hi);
  }

  function ErrorLabels(l: Label): seq<Label> {
    [Sub(l, ErrorField), Sub(l, ErrorBranch), Sub(Sub(l, ApiError), Notice), Sub(Sub(l, ApiError), Halt),
     Sub(Sub(l, InvalidResponse), Notice), Sub(Sub(l, InvalidResponse), Halt)]
  }

  lemma ErrorBranchLabels(l: Label)
    ensures Labels(ErrorBranchOf(l)) == ErrorLabels(l)
  {
    StopLabels(Sub(l, ApiError), ServerSays, Some(Out(Sub(l, ErrorField))), Nil);
    StopLabels(Sub(l, InvalidResponse), BadReply, None, Nil);
    var tail := ErrorBranchOf(l).tail;
    assert LabelsOf(tail.head) == [Sub(l, ErrorBranch)] + Labels(tail.head.thn) + Labels(tail.head.els);
    assert Labels(tail) == LabelsOf(tail.head);
  }

  lemma OwnedByWord(n: Name, part: Part, inner: Part)
    ensures NameOf(Sub(Word(n), part)) == n && NameOf(Sub(Sub(Word(n), part), inner)) == n
  {
    assert NameOf(Word(n)) == n;
    assert NameOf(Sub(Sub(Word(n), part), inner)) == NameOf(Sub(Word(n), part));
  }

  lemma ErrorLabelsOwned(n: Name)
    ensures forall l | l in ErrorLabels(Word(n)) :: Plain(l) && NameOf(l) == n
  {
    OwnedByWord(n, ErrorField, Notice);
    OwnedByWord(n, ErrorBranch, Notice);
    OwnedByWord(n, ApiError, Notice);
    OwnedByWord(n, ApiError, Halt);
    OwnedByWord(n, InvalidResponse, Notice);
    OwnedByWord(n, InvalidResponse, Halt);
  }

  lemma CheckReplyLabels(l: Label, rest: Prog)
    ensures Labels(CheckReply(l, rest)) ==
            [Sub(l, Response), Sub(l, OkField), Sub(l, OkBranch), Sub(l, Continue)] + ErrorLabels(l) + Labels(rest)
  {
    ErrorBranchLabels(l);
    var ok := CheckReply(l, rest).tail;
    var branch := ok.tail;
    assert Labels(branch.head.thn) == [Sub(l, Continue)];
    assert LabelsOf(branch.head) == [Sub(l, OkBranch), Sub(l, Continue)] + ErrorLabels(l);
    assert Labels(ok) == [Sub(l, OkField)] + Labels(branch);
  }

  function RequestWords(l: Label): seq<Label> {
    [Sub(l, Address), Sub(l, Url), Sub(l, Fetch), Sub(l, Response), Sub(l, OkField), Sub(l, OkBranch), Sub(l, Continue)]
    + ErrorLabels(l)
  }

  lemma RequestLabels(l: Label, base: Ref, token: Ref, path: string, body: Body, rest: Prog)
    ensures Labels(Request(l, base, token, path, body, rest)) == RequestWords(l) + Labels(rest)
  {
    CheckReplyLabels(l, rest);
    var check := CheckReply(l, rest);
    var fetch := Cons(Act(Sub(l, Fetch), DownloadOp(l, token, body)), check);
    var url := Cons(Act(Sub(l, Url), MakeUrl(Out(Sub(l, Address)))), fetch);
    assert Labels(fetch) == [Sub(l, Fetch)] + Labels(check);
    assert Labels(url) == [Sub(l, Url)] + Labels(fetch);
    assert Labels(Request(l, base, token, path, body, rest)) == [Sub(l, Address)] + Labels(url);
  }

  lemma RequestWordsOwned(n: Name)
    ensures NoDup(RequestWords(Word(n))) && forall l | l in RequestWords(Word(n)) :: Plain(l) && NameOf(l) == n
  {
    ErrorLabelsOwned(n);
  }

  lemma RequestTidy(n: Name, base: Ref, token: Ref, path: string, body: Body, rest: Prog, lo: nat, hi: nat)
    requires lo <= n < hi && Tidy(rest, n + 1, hi)
    ensures Tidy(Request(Word(n), base, token, path, body, rest), lo, hi)
  {
    RequestLabels(Word(n), base, token, path, body, rest);
    RequestWordsOwned(n);
    BlockTidy(Request(Word(n), base, token, path, body, rest), RequestWords(Word(n)), rest, lo, n + 1, hi);
  }

  /** A group: its own word, then those of its branches, then those after it. */
  lemma GroupTidy(n: Name, subject: Ref, cond: Condition, thn: Prog, hasElse: bool, els: Prog, rest: Prog,
                  m1: nat, m2: nat, lo: nat, hi: nat)
    requires lo <= n < m1 <= m2 <= hi
    requires Tidy(thn, n + 1, m1) && (if hasElse then Tidy(els, m1, m2) else els == Nil) && Tidy(rest, m2, hi)
    ensures Tidy(Cons(If(Word(n), subject, cond, thn, hasElse, els), rest), lo, hi)
  {
    var lt, le := Labels(thn), if hasElse then Labels(els) else [];
    NoDupConcat(lt, le);
    NoDupConcat([Word(n)], lt + le);
    var s := If(Word(n), subject, cond, thn, hasElse, els);
    assert LabelsOf(s) == [Word(n)] + (lt + le);
    BlockTidy(Cons(s, rest), LabelsOf(s), rest, lo, m2, hi);
  }

  const LAST: nat := 78

  // The Tailscale pair.

  lemma FinishTidy()
    ensures Tidy(Finish(), DeviceName, LAST)
  {
    ActTidy(Success, Notification(Delivered, Some(W(DeviceName))), Nil, DeviceName + 1, LAST);
    ActTidy(DeviceName, FieldOf(Out(Sub(Word(Transfer), Response)), KeyDeviceName), Finish().tail, DeviceName, LAST);
  }

  lemma SetReceivedTidy(n: Name)
    ensures Tidy(SetReceived(n), ReceivedClipboard, LAST)
  {
    FinishTidy();
    ActTidy(ReceivedClipboard, Op.SetClipboard(W(n)), Finish(), ReceivedClipboard, LAST);
  }

  lemma TailscalePullTidy()
    ensures Tidy(T.TailPull(), ChoosePayload, LAST)
  {
    SetReceivedTidy(ReceivedText);
    var guard := T.Receive().tail;
    StopIfTidy(EmptyResult, W(ReceivedText), NoValue, DesktopEmpty, SetReceived(ReceivedText), ReceivedText + 1, LAST);
    ActTidy(ReceivedText, FieldOf(Out(Sub(Word(Transfer), Response)), KeyText), guard, ReceivedText, LAST);
    RequestTidy(Transfer, W(BaseUrl), W(TokenField), TransferPath(), NoBody, T.Receive(), ChoosePayload, LAST);
  }

  lemma TailscaleSendCheckedTidy()
    ensures Tidy(T.TailSendChecked(), CredentialPayload, LAST)
  {
    FinishTidy();
    var send :=
        Request(Word(Transfer), W(BaseUrl), W(TokenField), TransferPath(), TextBody(Result(ChoosePayload)), Finish());
    RequestTidy(Transfer, W(BaseUrl), W(TokenField), TransferPath(), TextBody(Result(ChoosePayload)), Finish(),
                RejectCredential + 1, LAST);
    StopIfTidy(RejectCredential, W(CredentialPayload), HasValue, IsCredential, send, RejectCredential, LAST);
    ActTidy(CredentialPayload, MatchText(Result(ChoosePayload), PairingShape), T.TailSendChecked().tail,
            CredentialPayload, LAST);
  }

  lemma TailscaleSendTidy()
    ensures Tidy(T.TailSend(), ChoosePayload, LAST)
  {
    TailscaleSendCheckedTidy();
    var need := Require(Word(EmptyPayload), Result(ChoosePayload), NonEmpty, NothingToSend, T.TailSendChecked());
    RequireTidy(EmptyPayload, Result(ChoosePayload), NonEmpty, NothingToSend, T.TailSendChecked(), EmptyPayload, LAST);
    ActTidy(SharedText, DetectText(ShareInput), Nil, ChoosePayload + 1, CopiedText);
    ActTidy(CopiedText, GetText([Tok(W(ClipboardText))]), Nil, CopiedText, EmptyPayload);
    GroupTidy(ChoosePayload, ShareInput, HasValue, T.TailSend().head.thn, true, T.TailSend().head.els, need,
              CopiedText, EmptyPayload, ChoosePayload, LAST);
  }

  lemma TailscaleClearTidy(send: bool)
    ensures Tidy(T.ClearBranch(send), SaveFailed, ChoosePayload)
  {
    StopTidy(Paired, PairedOnly, Nil, Paired, ChoosePayload);
    var set' := Cons(Act(Word(ClearClipboard), Op.SetClipboard(W(ClearPairing))), T.AfterClear(send));
    ActTidy(ClearClipboard, Op.SetClipboard(W(ClearPairing)), T.AfterClear(send), ClearClipboard, ChoosePayload);
    ActTidy(ClearPairing, GetText([]), set', ClearPairing, ChoosePayload);
    StopIfTidy(SaveFailed, W(VerifySavedConfig), NoValue, SaveProblem, T.ClearThen(T.AfterClear(send)), SaveFailed,
               ChoosePayload);
  }

  lemma TailscalePairTidy(send: bool)
    ensures Tidy(T.PairBranch(send), StatusRequest, ChoosePayload)
  {
    TailscaleClearTidy(send);
    var p := T.SaveBranch(send);
    ActTidy(VerifySavedConfig, OpenFile, T.ClearBranch(send), VerifySavedConfig, ChoosePayload);
    ActTidy(SaveConfig, SaveFile(W(NameConfig)), p.tail.tail, SaveConfig, ChoosePayload);
    ActTidy(NameConfig, NameItem(Result(ChooseConfig)), p.tail, NameConfig, ChoosePayload);
    RequestTidy(StatusRequest, W(BaseUrl), W(TokenField), StatusPath(), NoBody, p, StatusRequest, ChoosePayload);
  }

  lemma TailscaleCheckedTidy(send: bool)
    ensures Tidy(T.JoinThenPair(send), Connect, LAST)
  {
    TailscalePullTidy();
    TailscaleSendTidy();
    TailscalePairTidy(send);
    GroupTidy(Pair, W(PairingCandidate), HasValue, T.PairBranch(send), false, Nil, T.Tail(send), ChoosePayload,
              ChoosePayload, Pair, LAST);
    ActTidy(ConnectWait, Delay, T.PairThenTail(send), ConnectWait, LAST);
    ActTidy(Connect, TailscaleConnect, T.WaitThenPair(send), Connect, LAST);
  }

  lemma TailscaleFieldsTidy(send: bool)
    ensures Tidy(T.CheckThenJoin(send), Config, LAST)
  {
    TailscaleCheckedTidy(send);
    CheckedTidy(W(Config), TokenField, KeyToken, TokenValid, TokenShape, T.JoinThenPair(send), TokenField, LAST);
    CheckedTidy(W(Config), BaseUrl, KeyBaseUrl, BaseValid, TailscaleBase, T.CheckToken(send), BaseUrl, LAST);
    CheckedTidy(W(Config), Version, KeyVersion, VersionValid, VersionOne, T.CheckBase(send), Version, LAST);
    ActTidy(Config, DetectDictionary(Result(ChooseConfig)), T.CheckFields(send), Config, LAST);
  }

  lemma TailscaleChooseTidy(send: bool)
    ensures Tidy(T.ChooseThenCheck(send), ChooseConfig, LAST)
  {
    TailscaleFieldsTidy(send);
    RequireTidy(ConfigShape, Result(ChooseConfig), PairingShape, Help, T.CheckThenJoin(send), ConfigShape, LAST);
    ActTidy(NewConfig, GetText([Tok(W(ClipboardText))]), Nil, ChooseConfig + 1, LoadConfig);
    var detect := Cons(Act(Word(SavedConfigText), DetectText(W(LoadConfig))), Nil);
    ActTidy(SavedConfigText, DetectText(W(LoadConfig)), Nil, SavedConfigText, ConfigShape);
    StopIfTidy(MissingConfig, W(LoadConfig), NoValue, Help, detect, MissingConfig, ConfigShape);
    ActTidy(LoadConfig, OpenFile, T.LoadBranch().tail, LoadConfig, ConfigShape);
    GroupTidy(ChooseConfig, W(PairingCandidate), HasValue, T.TakeClipboard(), true, T.LoadBranch(),
              T.ShapeThenCheck(send),
              LoadConfig, ConfigShape, ChooseConfig, LAST);
  }

  lemma TailscaleTidy(send: bool)
    ensures Tidy(T.TailscaleProgram(send), 0, LAST)
  {
    TailscaleChooseTidy(send);
    var p := T.TailscaleProgram(send);
    ActTidy(PairingCandidate, MatchText(W(ClipboardText), PairingShape), T.ChooseThenCheck(send), PairingCandidate,
            LAST);
    ActTidy(ClipboardText, DetectText(W(Clipboard)), p.tail.tail.tail, ClipboardText, LAST);
    ActTidy(Clipboard, GetClipboard, p.tail.tail, Clipboard, LAST);
    ActTidy(About, Comment, p.tail, 0, LAST);
  }

  // The simple pair.

  lemma SimplePullTidy()
    ensures Tidy(S.TailPull(), ChoosePayload, LAST)
  {
    SetReceivedTidy(Received);
    RequireTidy(EmptyResult, W(Received), NonEmpty, DesktopEmpty, SetReceived(Received), EmptyResult, LAST);
    ActTidy(Received, FieldOf(Out(Sub(Word(Transfer), Response)), KeyText), S.Receive().tail, Received, LAST);
    RequestTidy(Transfer, W(Base), Result(Pair), TransferPath(), NoBody, S.Receive(), ChoosePayload, LAST);
  }

  /** The one block whose stop is named after an earlier action, not after its group. */
  lemma SecretTidy(op: Op, subject: Ref, message: Message, rest: Prog)
    requires Tidy(rest, Transfer, LAST)
    ensures Tidy(Cons(Act(Word(Secret), op),
                      StopIf(Word(RejectSecret), subject, HasValue, Word(Secret), message, rest)), Secret, LAST)
  {
    var guard := StopIf(Word(RejectSecret), subject, HasValue, Word(Secret), message, rest);
    StopIfLabels(Word(RejectSecret), subject, HasValue, Word(Secret), message, rest);
    assert LabelsOf(Act(Word(Secret), op)) == [Word(Secret)];
    var block := [Word(Secret), Word(RejectSecret), Sub(Word(Secret), Notice), Sub(Word(Secret), Halt)];
    BlockTidy(Cons(Act(Word(Secret), op), guard), block, rest, Secret, Transfer, LAST);
  }

  lemma SimpleSecretTidy()
    ensures Tidy(S.SecretThenSend(), Secret, LAST)
  {
    FinishTidy();
    RequestTidy(Transfer, W(Base), Result(Pair), TransferPath(), TextBody(Result(ChoosePayload)), Finish(), Transfer,
                LAST);
    SecretTidy(MatchText(Result(ChoosePayload), SecretShape), W(Secret), IsCredential, S.SendPayload());
  }

  lemma SimpleSendTidy()
    ensures Tidy(S.ChooseThen(S.NeedThenSend()), ChoosePayload, LAST)
  {
    SimpleSecretTidy();
    var p := S.ChooseThen(S.NeedThenSend());
    RequireTidy(EmptyPayload, Result(ChoosePayload), NonEmpty, NothingToSend, S.SecretThenSend(), EmptyPayload, LAST);
    ActTidy(SharedPayload, GetText([Tok(W(ShareText))]), Nil, ChoosePayload + 1, CopiedPayload);
    ActTidy(CopiedPayload, GetText([Tok(W(ClipboardText))]), Nil, CopiedPayload, EmptyPayload);
    GroupTidy(ChoosePayload, ShareInput, HasValue, p.head.thn, true, p.head.els, S.NeedThenSend(),
              CopiedPayload, EmptyPayload, ChoosePayload, LAST);
  }

  lemma SimpleClearTidy(send: bool)
    ensures Tidy(S.ClearIfUnshared(send), ClearPairingClipboard, OldToken)
  {
    ActTidy(PairedToken, GetText([Tok(W(NewToken))]), Nil, Paired, OldToken);
    ActTidy(PairedToken, GetText([Tok(W(NewToken))]), Nil, PairedToken, OldToken);
    StopTidy(Paired, PairedOnly, S.TokenText(PairedToken, NewToken), Paired, OldToken);
    ActTidy(ClearConsumedTicket, Op.SetClipboard(W(ConsumedTicket)), Nil, ClearConsumedTicket, Paired);
    ActTidy(ConsumedTicket, GetText([]), S.ClearConsumed().tail, ConsumedTicket, Paired);
    GroupTidy(ClearPairingClipboard, ShareInput, NoValue, S.ClearConsumed(), false, Nil, S.AfterClear(send),
              Paired, Paired, ClearPairingClipboard, OldToken);
  }

  lemma SimpleReadbackTidy(send: bool)
    ensures Tidy(S.SavedGuard(send), SaveFailed, OldToken)
  {
    SimpleClearTidy(send);
    var p := S.Readback(send);
    StopIfTidy(ReadbackFailed, W(ReadbackMatch), NoValue, ReadbackProblem, S.ClearIfUnshared(send), ReadbackFailed,
               OldToken);
    ActTidy(ReadbackMatch, MatchExactly(W(ReadToken), W(NewToken)), S.ReadbackGuard(send), ReadbackMatch, OldToken);
    ActTidy(ReadToken, FieldOf(W(ReadDictionary), KeyToken), p.tail.tail, ReadToken, OldToken);
    ActTidy(ReadDictionary, DetectDictionary(W(ReadConfig)), p.tail, ReadDictionary, OldToken);
    StopIfTidy(SaveFailed, W(ReadConfig), NoValue, SaveProblem, p, SaveFailed, OldToken);
  }

  lemma SimpleSaveTidy(send: bool)
    ensures Tidy(S.SaveNew(send), PairedConfig, OldToken)
  {
    SimpleReadbackTidy(send);
    var p := S.SaveNew(send);
    ActTidy(ReadConfig, OpenFile, S.SavedGuard(send), ReadConfig, OldToken);
    ActTidy(SaveConfig, SaveFile(W(NameConfig)), p.tail.tail.tail, SaveConfig, OldToken);
    ActTidy(NameConfig, NameItem(W(PairedConfig)), p.tail.tail, NameConfig, OldToken);
    ActTidy(PairedConfig, GetText(S.PairedConfigText()), p.tail, PairedConfig, OldToken);
  }

  lemma SimplePairTidy(send: bool)
    ensures Tidy(S.NewPairBranch(send), Ticket, OldToken)
  {
    SimpleSaveTidy(send);
    CheckedTidy(S.PairReply(), ResponseVersion, KeyVersion, ResponseVersionCheck, VersionOne, S.SaveNew(send),
                ResponseVersion, OldToken);
    CheckedTidy(S.PairReply(), NewToken, KeyToken, NewTokenCheck, TokenShape, S.CheckReplyVersion(send), NewToken,
                OldToken);
    RequestTidy(PairRequest, W(Base), W(Ticket), PairPath(), TicketBody(W(Ticket)), S.CheckNewToken(send),
                PairRequest, OldToken);
    CheckedTidy(W(Config), Ticket, KeyTicket, TicketCheck, TokenShape, S.AskPairing(send), Ticket, OldToken);
  }

  lemma SimplePairThenTailTidy(send: bool)
    ensures Tidy(S.PairThenTail(send), Pair, LAST)
  {
    SimplePairTidy(send);
    SimplePullTidy();
    SimpleSendTidy();
    ActTidy(SavedToken, GetText([Tok(W(OldToken))]), Nil, SavedToken, ChoosePayload);
    CheckedTidy(W(Config), OldToken, KeyToken, OldTokenCheck, TokenShape, S.TokenText(SavedToken, OldToken), OldToken,
                ChoosePayload);
    WiderTidy(S.NewPairBranch(send), Ticket, Pair + 1, OldToken);
    GroupTidy(Pair, W(Pairing), HasValue, S.NewPairBranch(send), true, S.OldTokenBranch(), S.Tail(send), OldToken,
              ChoosePayload, Pair, LAST);
  }

  lemma WiderTidy(p: Prog, lo: nat, lower: nat, hi: nat)
    requires Tidy(p, lo, hi) && lower <= lo
    ensures Tidy(p, lower, hi)
  {
  }

  lemma SimpleFieldsTidy(send: bool)
    ensures Tidy(S.ParseThenCheck(send), Config, LAST)
  {
    SimplePairThenTailTidy(send);
    WiderTidy(S.PairThenTail(send), Pair, BaseCheck + 1, LAST);
    CheckedTidy(W(Config), Base, KeyBaseUrl, BaseCheck, SimpleBase, S.PairThenTail(send), TransportCheck + 1, LAST);
    CheckedTidy(W(Config), Transport, KeyTransport, TransportCheck, CloudflareWord, S.CheckBase(send),
                VersionCheck + 1, LAST);
    CheckedTidy(W(Config), Version, KeyVersion, VersionCheck, VersionOne, S.CheckTransport(send), Version, LAST);
    ActTidy(Config, DetectDictionary(Result(ConfigSource)), S.CheckFields(send), Config, LAST);
  }

  lemma SimpleChooseTidy(send: bool)
    ensures Tidy(S.ChooseThenCheck(send), ConfigSource, LAST)
  {
    SimpleFieldsTidy(send);
    RequireTidy(Shape, Result(ConfigSource), SimpleConfigShape, Help, S.ParseThenCheck(send), Shape, LAST);
    ActTidy(NewConfig, GetText([Tok(Result(PairSource))]), Nil, ConfigSource + 1, LoadConfig);
    var detect := Cons(Act(Word(SavedText), DetectText(W(LoadConfig))), Nil);
    ActTidy(SavedText, DetectText(W(LoadConfig)), Nil, SavedConfigText, Shape);
    StopIfTidy(MissingConfig, W(LoadConfig), NoValue, Help, detect, MissingConfig, Shape);
    ActTidy(LoadConfig, OpenFile, S.LoadBranch().tail, LoadConfig, Shape);
    GroupTidy(ConfigSource, W(Pairing), HasValue, S.TakeCandidate(), true, S.LoadBranch(), S.ShapeThenCheck(send),
              LoadConfig, Shape, ConfigSource, LAST);
  }

  lemma SimpleSourceTidy(send: bool)
    ensures Tidy(S.SourceThen(S.MatchThenChoose(send)), PairSource, LAST)
  {
    SimpleChooseTidy(send);
    var p := S.SourceThen(S.MatchThenChoose(send));
    ActTidy(Pairing, MatchText(Result(PairSource), SimpleTicketShape), S.ChooseThenCheck(send), Pairing, LAST);
    ActTidy(PairShare, GetText([Tok(W(ShareText))]), Nil, PairShare, PairClip);
    ActTidy(PairClip, GetText([Tok(W(ClipboardText))]), Nil, PairClip, Pairing);
    GroupTidy(PairSource, ShareInput, HasValue, p.head.thn, true, p.head.els, S.MatchThenChoose(send), PairClip,
              Pairing, PairSource, LAST);
  }

  lemma SimpleTidy(send: bool)
    ensures Tidy(S.SimpleProgram(send), 0, LAST)
  {
    SimpleSourceTidy(send);
    var p := S.SimpleProgram(send);
    var rest := S.SourceThen(S.MatchThenChoose(send));
    WiderTidy(rest, PairSource, ClipboardText + 1, LAST);
    ActTidy(ClipboardText, DetectText(W(Clipboard)), rest, ClipboardText, LAST);
    ActTidy(Clipboard, GetClipboard, p.tail.tail.tail, Clipboard, LAST);
    ActTidy(ShareText, DetectText(ShareInput), p.tail.tail, ShareText, LAST);
    ActTidy(About, Comment, p.tail, 0, LAST);
  }

  /** In each of the four lists every action has its own identifier, and the groups are
      well bracketed. */
  lemma ListsAreWellFormed(v: Variant)
    ensures Nests(Program(v)) && NoDup(Ids(Flatten(Program(v)))) && Bracketed(Flatten(Program(v)), [])
  {
    TailscaleTidy(v.send);
    SimpleTidy(v.send);
    DistinctLabelsNest(Program(v));
    DistinctLabelsDistinctIds(Program(v));
    GroupsAreBracketed(Program(v));
  }

  /** A whole run of one shipped list. */
  function RunOf(env: Env, v: Variant): St {
    RunFlat(env, Flatten(Program(v)), 0, Start)
  }

  /** Every run of the four lists, whatever the clipboard, the share input, the saved file
      and the server's replies: each effect is permitted, given those before it and the
      configuration text the run found; what follows a transfer that was answered well is
      fixed to the last effect, which is always a notice; and every reference is to an action
      already executed. */
  lemma EveryRunIsSafe(env: Env, v: Variant)
    ensures Ended(env, v, ConfigText(env, v), RunOf(env, v))
  {
    ListsAreWellFormed(v);
    FlatteningPreservesMeaning(env, Program(v), Start);
    if v.simple {
      S.SimpleRunsAreSafe(env, v);
    } else {
      T.TailscaleRunsAreSafe(env, v);
    }
  }

  // ----- what a run reaches, and when -----

  /** The base address in the configuration a run works with. */
  function BaseAt(env: Env, v: Variant): string {
    BaseOf(env, env.parse(ConfigText(env, v)))
  }

  lemma RunIsSafe(env: Env, v: Variant)
    ensures Safe(env, v, ConfigText(env, v), RunOf(env, v).log)
  {
    EveryRunIsSafe(env, v);
  }

  lemma RunEnds(env: Env, v: Variant)
    ensures EndsSo(env, v, BaseAt(env, v), RunOf(env, v).log)
  {
    EveryRunIsSafe(env, v);
  }

  /** Effect number k is a transfer that was answered well. */
  predicate Answered(env: Env, base: string, log: seq<Effect>, k: nat) {
    k < |log| && GoodTransfer(env, base, log[k])
  }

  function AnswerText(env: Env, e: Effect): Value
    requires e.Http?
  {
    env.field(env.parse(e.reply), KeyText)
  }

  lemma EndingSets(env: Env, v: Variant, e: Effect, value: Value)
    requires e.Http?
    ensures ClipboardSet(value) in Ending(env, v, e) <==> !v.send && value == AnswerText(env, e) && Takes(env, v, value)
  {
  }

  lemma EndingTells(env: Env, v: Variant, e: Effect)
    requires e.Http?
    ensures (exists d :: Notify(Delivered, d) in Ending(env, v, e)) <==> v.send || Takes(env, v, AnswerText(env, e))
  {
    var told := Notify(Delivered, Text(env.field(env.parse(e.reply), KeyDeviceName)));
    assert v.send || Takes(env, v, AnswerText(env, e)) ==> told in Ending(env, v, e);
  }

  lemma SetsExactly(env: Env, v: Variant, base: string, log: seq<Effect>, k: nat, value: Value)
    requires EndsSo(env, v, base, log) && Answered(env, base, log, k)
    ensures ClipboardSet(value) in log[k + 1..] <==> !v.send && value == AnswerText(env, log[k]) && Takes(env, v, value)
  {
    EndingSets(env, v, log[k], value);
  }

  /** After its transfer was answered well, a pull sets a text if and only if it is the
      reply's and is one that the pull takes; a send sets none. */
  lemma ReceivedExactly(env: Env, v: Variant, k: nat, value: Value)
    requires Answered(env, BaseAt(env, v), RunOf(env, v).log, k)
    ensures var log := RunOf(env, v).log;
            ClipboardSet(value) in log[k + 1..] <==> !v.send && value == AnswerText(env, log[k]) && Takes(env, v, value)
  {
    EveryRunIsSafe(env, v);
    SetsExactly(env, v, BaseAt(env, v), RunOf(env, v).log, k, value);
  }

  /** In particular the Tailscale pull sets an empty received text if and only if the reply to
      its transfer has a text and that is empty. */
  lemma EmptyReceivedExactly(env: Env, v: Variant, k: nat)
    requires !v.simple && !v.send && Answered(env, BaseAt(env, v), RunOf(env, v).log, k)
    ensures var log := RunOf(env, v).log;
            ClipboardSet(Has("")) in log[k + 1..] <==> AnswerText(env, log[k]) == Has("")
  {
    ReceivedExactly(env, v, k, Has(""));
  }

  lemma DeliveryHasAnswer(env: Env, v: Variant, src: Value, log: seq<Effect>, n: nat) returns (k: nat)
    requires Safe(env, v, src, log) && n < |log| && log[n].Notify? && log[n].message == Delivered
    ensures k < n && Answered(env, BaseOf(env, env.parse(src)), log, k)
  {
    assert PermittedAt(env, v, src, log, n);
    var t :| t in log[..n] && GoodTransfer(env, BaseOf(env, env.parse(src)), t);
    k :| 0 <= k < n && log[k] == t;
  }

  /** Somewhere in the log delivery is reported. */
  ghost predicate Reports(log: seq<Effect>) {
    exists d :: Notify(Delivered, d) in log
  }

  /** Somewhere in the log is a transfer that was answered well, with a text that is taken. */
  ghost predicate Transfers(env: Env, v: Variant, base: string, log: seq<Effect>) {
    exists k: nat :: Answered(env, base, log, k) && (v.send || Takes(env, v, AnswerText(env, log[k])))
  }

  lemma ReportsExactly(env: Env, v: Variant, src: Value, base: string, log: seq<Effect>)
    requires base == BaseOf(env, env.parse(src)) && Safe(env, v, src, log) && EndsSo(env, v, base, log)
    ensures Reports(log) <==> Transfers(env, v, base, log)
  {
    if d :| Notify(Delivered, d) in log {
      var n: nat :| n < |log| && log[n] == Notify(Delivered, d);
      var k := DeliveryHasAnswer(env, v, src, log, n);
      assert log[k + 1..][n - k - 1] == log[n];
      EndingTells(env, v, log[k]);
    }
    if k: nat :|
        && Answered(env, base, log, k)
        && (v.send || Takes(env, v, AnswerText(env, log[k]))) {
      EndingTells(env, v, log[k]);
      var d :| Notify(Delivered, d) in log[k + 1..];
      assert Notify(Delivered, d) in log;
    }
  }

  /** A run reports delivery if and only if a transfer of it was answered well and, for a
      pull, with a text that it takes. */
  lemma DeliveredExactly(env: Env, v: Variant)
    ensures Reports(RunOf(env, v).log) <==> Transfers(env, v, BaseAt(env, v), RunOf(env, v).log)
  {
    RunIsSafe(env, v);
    RunEnds(env, v);
    ReportsExactly(env, v, ConfigText(env, v), BaseAt(env, v), RunOf(env, v).log);
  }

  lemma PrefixAt(log: seq<Effect>, prior: seq<Effect>, e: Effect)
    requires prior + [e] <= log
    ensures |prior| < |log| && log[|prior|] == e && log == prior + [e] + log[|prior| + 1..]
  {
    assert log[|prior|] == (prior + [e])[|prior|];
  }

  /** A log that comes to its transfer and ends as it should is fixed. */
  lemma LogIs(env: Env, v: Variant, base: string, r: Progress, log: seq<Effect>)
    requires Follows(env, v, base, r, log) && EndsSo(env, v, base, log)
    ensures log == if r.goesOn then TransferLog(env, v, base, r.token, r.log) else r.log
  {
    if r.goesOn {
      var e := TransferEffect(env, v, base, r.token, r.log);
      if (!v.send || MayPost(env, v, Payload(env))) && OkReply(env, e) {
        PrefixAt(log, r.log, e);
      }
    }
  }

  lemma RunFollows(env: Env, v: Variant)
    ensures Follows(env, v, BaseAt(env, v), Reached(env, v), RunOf(env, v).log)
  {
    ListsAreWellFormed(v);
    FlatteningPreservesMeaning(env, Program(v), Start);
    if v.simple {
      SimpleRuns.RunFollows(env, v);
    } else {
      TailscaleRuns.RunFollows(env, v);
    }
  }

  /** Every run of the four shipped lists, from its first effect to its last, is what one
      function says: where the configuration comes from, every check before any request, the
      pairing with what is saved, read back and cleared, then the transfer and what is made of
      its answer. */
  lemma EveryRunExactly(env: Env, v: Variant)
    ensures RunOf(env, v).log == RunLog(env, v)
  {
    RunFollows(env, v);
    RunEnds(env, v);
    LogIs(env, v, BaseAt(env, v), Reached(env, v), RunOf(env, v).log);
  }

  /** Straight after a transfer that was answered well, an empty text was set. */
  predicate SetsEmpty(env: Env, base: string, log: seq<Effect>, k: nat) {
    Answered(env, base, log, k) && AnswerText(env, log[k]) == Has("") && k + 1 < |log|
        && log[k + 1] == ClipboardSet(Has(""))
  }

  /** A usable saved file, no new pairing data, and a server whose reply has a text that is empty. */
  predicate Hollow(env: Env, v: Variant) {
    var src := env.file([]);
    var cfg := env.parse(src);
    var e := TransferEffect(env, v, BaseOf(env, cfg), TokenOf(env, cfg), [Opened(src), Joined, Waited]);
    && !Offers(env, v) && Usable(env, v, src)
    && OkReply(env, e) && AnswerText(env, e) == Has("")
  }

  lemma HollowHost(v: Variant) returns (env: Env)
    requires !v.simple
    ensures Hollow(env, v)
  {
    env := Env(Missing, _ => Missing, _ => Has("saved"), (_, _) => Has("reply"),
               (p, t) => p != PairingShape || t == "saved", (_, _) => true, d => d,
               (_, k) => if k == KeyText then Has("") else Has("x"), _ => true);
  }

  lemma HollowLog(env: Env, v: Variant)
    requires Hollow(env, v) && !v.simple && !v.send
    ensures SetsEmpty(env, BaseOf(env, env.parse(env.file([]))), RunLog(env, v), 3)
  {
    var src := env.file([]);
    var prior := [Opened(src), Joined, Waited];
    var e := TransferEffect(env, v, BaseOf(env, env.parse(src)), TokenOf(env, env.parse(src)), prior);
    assert [Opened(src)] + [Joined, Waited] == prior;
    assert Reached(env, v) == Progress(prior, true, TokenOf(env, env.parse(src)));
    assert RunLog(env, v) == prior + [e] + Ending(env, v, e);
  }

  /** A Tailscale pull can set an empty received text: "has no value", which its check asks,
      is not the case of a value that is empty. */
  lemma EmptyTextCanArrive(v: Variant) returns (env: Env)
    requires !v.simple && !v.send
    ensures SetsEmpty(env, BaseAt(env, v), RunOf(env, v).log, 3)
  {
    env := HollowHost(v);
    EveryRunExactly(env, v);
    HollowLog(env, v);
  }

  /** The address of the one pairing request and the one transfer. */
  predicate Expected(v: Variant, base: string, e: Effect) {
    e.Http? ==> IsPairing(v, base, e) || IsTransfer(base, e)
  }

  lemma SafeRequest(env: Env, v: Variant, src: Value, log: seq<Effect>, k: nat)
    requires k < |log| && PermittedAt(env, v, src, log, k)
    ensures var base := BaseOf(env, env.parse(src));
            Expected(v, base, log[k])
            && (log[k].Http? && !NoRequest(log[..k]) ==>
                && IsTransfer(base, log[k]) && NoTransfer(base, log[..k])
                && !v.send)
  {
  }

  lemma SafeMeansOnce(env: Env, v: Variant, src: Value, log: seq<Effect>, i: nat, j: nat)
    requires Safe(env, v, src, log) && i < j < |log| && log[i].Http? && log[j].Http?
    ensures var base := BaseOf(env, env.parse(src)); IsPairing(v, base, log[i]) && IsTransfer(base, log[j]) && !v.send
  {
    var base := BaseOf(env, env.parse(src));
    assert PermittedAt(env, v, src, log, i) && PermittedAt(env, v, src, log, j);
    SafeRequest(env, v, src, log, i);
    SafeRequest(env, v, src, log, j);
    assert log[i] == log[..j][i];
    assert log[i] in log[..j];
  }

  /** At most two requests, and only at the two addresses of the checked base: a pull may
      pair and then transfer; a send does one or the other. */
  ghost predicate AsksOnce(v: Variant, base: string, log: seq<Effect>) {
    && (forall e | e in log :: Expected(v, base, e))
    && (forall i: nat, j: nat | i < j < |log| && log[i].Http? && log[j].Http? ::
          IsPairing(v, base, log[i]) && IsTransfer(base, log[j]) && !v.send)
  }

  lemma SafeAsksOnce(env: Env, v: Variant, src: Value, log: seq<Effect>)
    requires Safe(env, v, src, log)
    ensures AsksOnce(v, BaseOf(env, env.parse(src)), log)
  {
    var base := BaseOf(env, env.parse(src));
    forall e | e in log
      ensures Expected(v, base, e)
    {
      var k: nat :| k < |log| && log[k] == e;
      assert PermittedAt(env, v, src, log, k);
      SafeRequest(env, v, src, log, k);
    }
    forall i: nat, j: nat | i < j < |log| && log[i].Http? && log[j].Http?
      ensures IsPairing(v, base, log[i]) && IsTransfer(base, log[j]) && !v.send
    {
      SafeMeansOnce(env, v, src, log, i, j);
    }
  }

  lemma EveryRunAsksOnce(env: Env, v: Variant)
    ensures AsksOnce(v, BaseOf(env, env.parse(ConfigText(env, v))), RunOf(env, v).log)
  {
    EveryRunIsSafe(env, v);
    SafeAsksOnce(env, v, ConfigText(env, v), RunOf(env, v).log);
  }
}
