/** Every run of the simple pair leaves the log it should. */
module SimpleRuns {
  import opened Basics
  import opened Workflow
  import opened Builder
  import opened ShortcutRules
  import opened RunLogs
  import opened SimpleShortcuts

  /** The inputs as they were read, and the base, are where the rest looks. */
  ghost predicate BaseAt(env: Env, cfg: Value, st: St) {
    && !st.stopped && !st.dangling && InputsKept(env, st)
    && Word(Base) in st.out && st.out[Word(Base)] == env.field(cfg, KeyBaseUrl)
  }

  lemma KeptBaseAt(env: Env, cfg: Value, st: St, next: St, changed: set<Name>)
    requires BaseAt(env, cfg, st) && Kept(st, next, changed) && !next.stopped && !next.dangling
    requires changed !! {Base, ShareText, ClipboardText}
    ensures BaseAt(env, cfg, next)
  {
    assert Base !in changed && ShareText !in changed && ClipboardText !in changed;
  }

  // ----- the transfer -----

  /** And the token of the run. */
  ghost predicate At(env: Env, cfg: Value, token: string, st: St) {
    BaseAt(env, cfg, st) && ResultId(Word(Pair)) in st.out && Text(st.out[ResultId(Word(Pair))]) == token
  }

  lemma PullAhead(env: Env, cfg: Value, token: string, st: St)
    requires At(env, cfg, token, st)
    ensures ComesTo(env, Variant(true, false), BaseOf(env, cfg), token, st.log, Run(env, TailPull(), st).log)
  {
    RequestComesTo(env, Variant(true, false), BaseOf(env, cfg), token, W(Base), Result(Pair), NoBody, Receive(), st);
  }

  lemma SecretAhead(env: Env, cfg: Value, token: string, st: St)
    requires At(env, cfg, token, st) && env.matches(NonEmpty, Payload(env))
    requires ResultId(Word(ChoosePayload)) in st.out && Text(st.out[ResultId(Word(ChoosePayload))]) == Payload(env)
    ensures ComesTo(env, Variant(true, true), BaseOf(env, cfg), token, st.log, Run(env, SecretThenSend(), st).log)
  {
    var s1 := ActRuns(env, Word(Secret), MatchText(Result(ChoosePayload), SecretShape), RejectThenSend(), st);
    assert s1.log == st.log;
    var s2 := StopIfRuns(env, RejectSecret, W(Secret), HasValue, Word(Secret), IsCredential, SendPayload(), s1);
    if !env.matches(SecretShape, Payload(env)) {
      RequestComesTo(env, Variant(true, true), BaseOf(env, cfg), token, W(Base), Result(Pair),
                     TextBody(Result(ChoosePayload)), Finish(), s2);
    }
  }

  lemma SendAhead(env: Env, cfg: Value, token: string, st: St)
    requires At(env, cfg, token, st)
    ensures ComesTo(env, Variant(true, true), BaseOf(env, cfg), token, st.log,
                    Run(env, ChooseThen(NeedThenSend()), st).log)
  {
    var s1 := ChoosePayloadRuns(env, NeedThenSend(), st);
    var s2 := RequireRuns(env, EmptyPayload, Result(ChoosePayload), NonEmpty, NothingToSend, SecretThenSend(), s1);
    if env.matches(NonEmpty, Payload(env)) {
      SecretAhead(env, cfg, token, s2);
    }
  }

  lemma TailAhead(env: Env, v: Variant, cfg: Value, token: string, st: St)
    requires v.simple && At(env, cfg, token, st)
    ensures ComesTo(env, v, BaseOf(env, cfg), token, st.log, Run(env, Tail(v.send), st).log)
  {
    if v.send {
      SendAhead(env, cfg, token, st);
    } else {
      PullAhead(env, cfg, token, st);
    }
  }

  // ----- the branches that give the token -----

  /** A branch that leaves this log, and goes on with the token as its last text, or not. */
  ghost predicate Leads(env: Env, cfg: Value, r: Progress, done: St) {
    && done.log == r.log && (done.stopped <==> !r.goesOn)
    && (r.goesOn ==> BaseAt(env, cfg, done) && Text(done.last) == r.token)
  }

  /** The new token of a good reply is at hand. */
  ghost predicate Granted(env: Env, cfg: Value, token: string, st: St) {
    BaseAt(env, cfg, st) && Word(NewToken) in st.out && Text(st.out[Word(NewToken)]) == token
  }

  lemma KeptGrantedAt(env: Env, cfg: Value, token: string, st: St, next: St, changed: set<Name>)
    requires Granted(env, cfg, token, st) && Kept(st, next, changed) && !next.stopped && !next.dangling
    requires changed !! {Base, ShareText, ClipboardText, NewToken}
    ensures Granted(env, cfg, token, next)
  {
    KeptBaseAt(env, cfg, st, next, changed);
    assert NewToken !in changed;
  }

  lemma TokenLeads(env: Env, cfg: Value, n: Name, from: Name, st: St)
    requires BaseAt(env, cfg, st) && Word(from) in st.out && n !in {Base, ShareText, ClipboardText}
    ensures Leads(env, cfg, Progress(st.log, true, Text(st.out[Word(from)])), Run(env, TokenText(n, from), st))
  {
    var text := [Tok(W(from))];
    SpellOne(env, st, text[0]);
    assert PiecesIn(text, st.out.Keys);
    var next := ActRuns(env, Word(n), GetText(text), Nil, st);
    assert next.log == st.log;
  }

  lemma PairedLeads(env: Env, cfg: Value, send: bool, token: string, st: St)
    requires Granted(env, cfg, token, st)
    ensures Leads(env, cfg, PairedProgress(send, st.log, token), Run(env, AfterClear(send), st))
  {
    if send {
      StopRuns(env, Word(Paired), PairedOnly, None, TokenText(PairedToken, NewToken), st);
    } else {
      TokenLeads(env, cfg, PairedToken, NewToken, st);
    }
  }

  lemma ClearLeads(env: Env, cfg: Value, send: bool, token: string, st: St)
    requires Granted(env, cfg, token, st)
    ensures Leads(env, cfg, ClearProgress(env, send, token, st.log), Run(env, ClearIfUnshared(send), st))
  {
    var inner := Enter(st, ShareInput);
    var done := IfRuns(env, ClearPairingClipboard, ShareInput, NoValue, ClearConsumed(), AfterClear(send), st);
    if env.share.Missing? {
      ClearConsumedRuns(env, inner);
      KeptGrantedAt(env, cfg, token, inner, done, {ConsumedTicket, ClearConsumedTicket});
    }
    assert Granted(env, cfg, token, Leave(done, Word(ClearPairingClipboard)));
    PairedLeads(env, cfg, send, token, Leave(done, Word(ClearPairingClipboard)));
  }

  lemma ReadbackLeads(env: Env, cfg: Value, send: bool, token: string, st: St)
    requires Granted(env, cfg, token, st) && Word(ReadConfig) in st.out && st.out[Word(ReadConfig)].Has?
    ensures Leads(env, cfg, ReadBackProgress(env, send, token, st.out[Word(ReadConfig)], st.log),
                  Run(env, Readback(send), st))
  {
    var s1 := ReadbackRuns(env, send, st);
    KeptGrantedAt(env, cfg, token, st, s1, {ReadDictionary, ReadToken, ReadbackMatch});
    var s2 := StopIfRuns(env, ReadbackFailed, W(ReadbackMatch), NoValue, Word(ReadbackFailed), ReadbackProblem,
                         ClearIfUnshared(send), s1);
    if s1.out[Word(ReadbackMatch)].Has? {
      assert Granted(env, cfg, token, s2);
      ClearLeads(env, cfg, send, token, s2);
    }
  }

  lemma SavedLeads(env: Env, cfg: Value, send: bool, token: string, st: St)
    requires Granted(env, cfg, token, st) && Word(ReadConfig) in st.out
    ensures Leads(env, cfg, ReadBackProgress(env, send, token, st.out[Word(ReadConfig)], st.log),
                  Run(env, SavedGuard(send), st))
  {
    var next := StopIfRuns(env, SaveFailed, W(ReadConfig), NoValue, Word(SaveFailed), SaveProblem, Readback(send), st);
    if st.out[Word(ReadConfig)].Has? {
      assert Granted(env, cfg, token, next);
      ReadbackLeads(env, cfg, send, token, next);
    }
  }

  lemma SaveLeads(env: Env, cfg: Value, send: bool, token: string, st: St)
    requires Granted(env, cfg, token, st)
    ensures Leads(env, cfg, SimpleSaving(env, send, BaseOf(env, cfg), token, st.log), Run(env, SaveNew(send), st))
  {
    var s1 := NameNewRuns(env, send, st);
    KeptGrantedAt(env, cfg, token, st, s1, {PairedConfig, NameConfig});
    var s2 := WriteNewRuns(env, send, s1);
    KeptGrantedAt(env, cfg, token, s1, s2, {SaveConfig, ReadConfig});
    SavedLeads(env, cfg, send, token, s2);
  }

  /** The parsed reply of the pairing request. */
  ghost predicate Replied(env: Env, cfg: Value, reply: Value, st: St) {
    BaseAt(env, cfg, st) && Sub(Word(PairRequest), Response) in st.out
        && st.out[Sub(Word(PairRequest), Response)] == reply
  }

  lemma ReplyFieldPasses(env: Env, cfg: Value, reply: Value, f: Name, key: Key, check: Name, pattern: Pattern,
                         rest: Prog, st: St)
    returns (next: St)
    requires Replied(env, cfg, reply, st) && f != check && {f, check} !! {Base, ShareText, ClipboardText, PairRequest}
    ensures Replied(env, cfg, reply, next) && next.log == st.log && Kept(st, next, {f, check})
    ensures Word(f) in next.out && next.out[Word(f)] == env.field(reply, key)
    ensures var done := Run(env, Checked(PairReply(), f, key, check, pattern, rest), st);
            if env.matches(pattern, Text(env.field(reply, key))) then done == Run(env, rest, next)
            else done.stopped && done.log == st.log + [Notify(Help, "")]
  {
    next := CheckedRuns(env, PairReply(), f, key, check, pattern, rest, st);
    KeptBaseAt(env, cfg, st, next, {f, check});
    assert PairRequest !in {f, check};
  }

  lemma VersionLeads(env: Env, cfg: Value, send: bool, reply: Value, st: St)
    requires Replied(env, cfg, reply, st)
    requires Word(NewToken) in st.out && st.out[Word(NewToken)] == env.field(reply, KeyToken)
    ensures Leads(env, cfg,
                  if env.matches(VersionOne, Text(env.field(reply, KeyVersion)))
                  then SimpleSaving(env, send, BaseOf(env, cfg), Text(env.field(reply, KeyToken)), st.log)
                  else Halted(st.log, Notify(Help, "")),
                  Run(env, CheckReplyVersion(send), st))
  {
    var next := ReplyFieldPasses(env, cfg, reply, ResponseVersion, KeyVersion, ResponseVersionCheck, VersionOne,
                                 SaveNew(send), st);
    assert NewToken !in {ResponseVersion, ResponseVersionCheck};
    if env.matches(VersionOne, Text(env.field(reply, KeyVersion))) {
      SaveLeads(env, cfg, send, Text(env.field(reply, KeyToken)), next);
    }
  }

  lemma ReplyLeads(env: Env, cfg: Value, send: bool, reply: Value, st: St)
    requires Replied(env, cfg, reply, st)
    ensures Leads(env, cfg, SimpleReply(env, send, BaseOf(env, cfg), reply, st.log), Run(env, CheckNewToken(send), st))
  {
    var next := ReplyFieldPasses(env, cfg, reply, NewToken, KeyToken, NewTokenCheck, TokenShape,
                                 CheckReplyVersion(send), st);
    if env.matches(TokenShape, Text(env.field(reply, KeyToken))) {
      VersionLeads(env, cfg, send, reply, next);
    }
  }

  lemma AskLeads(env: Env, cfg: Value, send: bool, st: St)
    requires BaseAt(env, cfg, st) && Word(Ticket) in st.out && st.out[Word(Ticket)] == env.field(cfg, KeyTicket)
    ensures Leads(env, cfg, SimplePairing(env, send, cfg, st.log), Run(env, AskPairing(send), st))
  {
    var e := TicketEffect(env, cfg, st.log);
    var body := TicketBody(W(Ticket));
    assert e == RequestEffect(env, st, W(Base), W(Ticket), PairPath(), body);
    var next := RequestRuns(env, PairRequest, W(Base), W(Ticket), PairPath(), body, CheckNewToken(send), st);
    if OkReply(env, e) {
      ReplyLeads(env, cfg, send, env.parse(e.reply), next);
    }
  }

  // ----- from the checks on -----

  /** The inputs as they were read, and whether they hold a ticket. */
  ghost predicate Read(env: Env, v: Variant, st: St) {
    && InputsKept(env, st) && Word(Pairing) in st.out
    && (st.out[Word(Pairing)].Has? <==> env.matches(SimpleTicketShape, Offered(env, v)))
  }

  /** And the parsed configuration. */
  ghost predicate ParsedAt(env: Env, v: Variant, cfg: Value, st: St) {
    !st.stopped && !st.dangling && Read(env, v, st) && Word(Config) in st.out && st.out[Word(Config)] == cfg
  }

  lemma FieldPasses(env: Env, v: Variant, cfg: Value, f: Name, key: Key, check: Name, pattern: Pattern, rest: Prog,
                    st: St)
    returns (next: St)
    requires ParsedAt(env, v, cfg, st) && f != check && {f, check} !! {ShareText, ClipboardText, Pairing, Config}
    ensures ParsedAt(env, v, cfg, next) && next.log == st.log && Kept(st, next, {f, check})
    ensures Word(f) in next.out && next.out[Word(f)] == env.field(cfg, key)
    ensures var done := Run(env, Checked(W(Config), f, key, check, pattern, rest), st);
            if env.matches(pattern, Text(env.field(cfg, key))) then done == Run(env, rest, next)
            else done.stopped && done.log == st.log + [Notify(Help, "")]
  {
    next := CheckedRuns(env, W(Config), f, key, check, pattern, rest, st);
    assert ShareText !in {f, check} && ClipboardText !in {f, check};
    assert Pairing !in {f, check} && Config !in {f, check};
  }

  /** The credential's check and the branch behind it. */
  ghost predicate BranchLeads(env: Env, v: Variant, cfg: Value, prior: seq<Effect>, done: St) {
    if env.matches(TokenShape, Credential(env, v, cfg))
    then Leads(env, cfg, if Offers(env, v) then SimplePairing(env, v.send, cfg, prior)
                         else Progress(prior, true, TokenOf(env, cfg)), done)
    else done.stopped && done.log == prior + [Notify(Help, "")]
  }

  lemma NewLeads(env: Env, v: Variant, cfg: Value, st: St)
    requires v.simple && Offers(env, v) && ParsedAt(env, v, cfg, st) && BaseAt(env, cfg, st)
    ensures BranchLeads(env, v, cfg, st.log, Run(env, NewPairBranch(v.send), st))
  {
    var next := FieldPasses(env, v, cfg, Ticket, KeyTicket, TicketCheck, TokenShape, AskPairing(v.send), st);
    KeptBaseAt(env, cfg, st, next, {Ticket, TicketCheck});
    if env.matches(TokenShape, Text(env.field(cfg, KeyTicket))) {
      AskLeads(env, cfg, v.send, next);
    }
  }

  lemma OldLeads(env: Env, v: Variant, cfg: Value, st: St)
    requires v.simple && !Offers(env, v) && ParsedAt(env, v, cfg, st) && BaseAt(env, cfg, st)
    ensures BranchLeads(env, v, cfg, st.log, Run(env, OldTokenBranch(), st))
  {
    var rest := TokenText(SavedToken, OldToken);
    var next := FieldPasses(env, v, cfg, OldToken, KeyToken, OldTokenCheck, TokenShape, rest, st);
    KeptBaseAt(env, cfg, st, next, {OldToken, OldTokenCheck});
    if env.matches(TokenShape, TokenOf(env, cfg)) {
      TokenLeads(env, cfg, SavedToken, OldToken, next);
    }
  }

  /** The run goes on as it should after the checks, or has stopped at the last of them. */
  ghost predicate Rest(env: Env, v: Variant, cfg: Value, ok: bool, prior: seq<Effect>, log: seq<Effect>) {
    if ok && env.matches(TokenShape, Credential(env, v, cfg)) then
      Follows(env, v, BaseOf(env, cfg),
              if Offers(env, v) then SimplePairing(env, v.send, cfg, prior)
                  else Progress(prior, true, TokenOf(env, cfg)),
              log)
    else log == prior + [Notify(Help, "")]
  }

  lemma PairFollows(env: Env, v: Variant, cfg: Value, st: St)
    requires v.simple && ParsedAt(env, v, cfg, st) && BaseAt(env, cfg, st)
    ensures Rest(env, v, cfg, true, st.log, Run(env, PairThenTail(v.send), st).log)
  {
    var inner := Enter(st, W(Pairing));
    assert ParsedAt(env, v, cfg, inner) && BaseAt(env, cfg, inner);
    var done := EitherRuns(env, Pair, W(Pairing), HasValue, NewPairBranch(v.send), OldTokenBranch(), Tail(v.send), st);
    if Offers(env, v) {
      NewLeads(env, v, cfg, inner);
    } else {
      OldLeads(env, v, cfg, inner);
    }
    if !done.stopped {
      TailAhead(env, v, cfg, Text(done.last), Leave(done, Word(Pair)));
    }
  }

  lemma BaseFollows(env: Env, v: Variant, cfg: Value, st: St)
    requires v.simple && ParsedAt(env, v, cfg, st)
    ensures Rest(env, v, cfg, env.matches(SimpleBase, BaseOf(env, cfg)), st.log, Run(env, CheckBase(v.send), st).log)
  {
    var next := FieldPasses(env, v, cfg, Base, KeyBaseUrl, BaseCheck, SimpleBase, PairThenTail(v.send), st);
    if env.matches(SimpleBase, BaseOf(env, cfg)) {
      PairFollows(env, v, cfg, next);
    }
  }

  predicate TransportIs(env: Env, cfg: Value) {
    env.matches(CloudflareWord, Text(env.field(cfg, KeyTransport)))
  }

  lemma TransportFollows(env: Env, v: Variant, cfg: Value, st: St)
    requires v.simple && ParsedAt(env, v, cfg, st)
    ensures Rest(env, v, cfg, TransportIs(env, cfg) && env.matches(SimpleBase, BaseOf(env, cfg)), st.log,
                 Run(env, CheckTransport(v.send), st).log)
  {
    var next :=
        FieldPasses(env, v, cfg, Transport, KeyTransport, TransportCheck, CloudflareWord, CheckBase(v.send), st);
    if TransportIs(env, cfg) {
      BaseFollows(env, v, cfg, next);
    }
  }

  lemma ChecksFollow(env: Env, v: Variant, cfg: Value, st: St)
    requires v.simple && ParsedAt(env, v, cfg, st)
    ensures Rest(env, v, cfg, Validated(env, v, cfg), st.log, Run(env, CheckFields(v.send), st).log)
  {
    var next := FieldPasses(env, v, cfg, Version, KeyVersion, VersionCheck, VersionOne, CheckTransport(v.send), st);
    if env.matches(VersionOne, Text(env.field(cfg, KeyVersion))) {
      TransportFollows(env, v, cfg, next);
    }
  }

  /** And the configuration text chosen. */
  ghost predicate Chose(env: Env, v: Variant, src: Value, st: St) {
    && !st.stopped && !st.dangling && Read(env, v, st)
    && ResultId(Word(ConfigSource)) in st.out && st.out[ResultId(Word(ConfigSource))] == src
  }

  lemma ShapeFollows(env: Env, v: Variant, src: Value, st: St)
    requires v.simple && Chose(env, v, src, st) && src.Has?
    ensures var log := Run(env, ShapeThenCheck(v.send), st).log;
            if Usable(env, v, src)
            then Follows(env, v, BaseOf(env, env.parse(src)), Prepared(env, v, src, st.log), log)
            else log == st.log + [Notify(Help, "")]
  {
    var s1 := RequireRuns(env, Shape, Result(ConfigSource), SimpleConfigShape, Help, ParseThenCheck(v.send), st);
    var s2 := ActRuns(env, Word(Config), DetectDictionary(Result(ConfigSource)), CheckFields(v.send), s1);
    assert s2.log == st.log;
    if env.matches(SimpleConfigShape, src.text) {
      ChecksFollow(env, v, env.parse(src), s2);
    }
  }

  // ----- the choice of the configuration -----

  lemma LoadLeaves(env: Env, v: Variant, st: St)
    requires Read(env, v, st) && !st.stopped && !st.dangling && st.log == []
    ensures var src, done := env.file([]), Run(env, LoadBranch(), st);
            if src.Missing? then done.stopped && done.log == [Opened(src), Notify(Help, "")]
            else !done.stopped && !done.dangling && done.log == [Opened(src)] && done.last == src && Read(env, v, done)
  {
    LoadBranchRuns(env, st);
    var changed := {LoadConfig, MissingConfig, SavedText};
    assert ShareText !in changed && ClipboardText !in changed && Pairing !in changed;
  }

  lemma TakeLeaves(env: Env, v: Variant, st: St)
    requires Matched(env, v, st) && Read(env, v, st)
    ensures var done := Run(env, TakeCandidate(), st);
            && !done.stopped && !done.dangling && done.log == [] && Read(env, v, done)
            && done.last == Has(Offered(env, v))
  {
    TakeCandidateRuns(env, st);
    assert ShareText !in {NewConfig} && ClipboardText !in {NewConfig} && Pairing !in {NewConfig};
  }

  lemma ChoiceFollows(env: Env, v: Variant, st: St)
    requires Matched(env, v, st) && Read(env, v, st)
    ensures Follows(env, v, BaseOf(env, env.parse(ConfigText(env, v))), Reached(env, v),
                    Run(env, ChooseThenCheck(v.send), st).log)
  {
    var src := ConfigText(env, v);
    var inner := Enter(st, W(Pairing));
    assert Matched(env, v, inner) && Read(env, v, inner);
    var done := EitherRuns(env, ConfigSource, W(Pairing), HasValue, TakeCandidate(), LoadBranch(),
                           ShapeThenCheck(v.send), st);
    if Offers(env, v) {
      TakeLeaves(env, v, inner);
    } else {
      LoadLeaves(env, v, inner);
    }
    if !done.stopped {
      var next := Leave(done, Word(ConfigSource));
      assert Chose(env, v, src, next);
      ShapeFollows(env, v, src, next);
    }
  }

  /** Up to the choice of the configuration. */
  lemma InputsRead(env: Env, v: Variant) returns (next: St)
    requires v.simple
    ensures Matched(env, v, next) && Read(env, v, next)
    ensures Run(env, SimpleProgram(v.send), Start) == Run(env, ChooseThenCheck(v.send), next)
  {
    var fetched := FetchRunsQuietly(env, SourceThen(MatchThenChoose(v.send)));
    var sourced := SourceRuns(env, v, MatchThenChoose(v.send), fetched);
    next := ActRuns(env, Word(Pairing), MatchText(Result(PairSource), SimpleTicketShape), ChooseThenCheck(v.send),
                    sourced);
    assert next.log == [];
  }

  lemma RunFollows(env: Env, v: Variant)
    requires v.simple
    ensures Follows(env, v, BaseOf(env, env.parse(ConfigText(env, v))), Reached(env, v),
                    Run(env, SimpleProgram(v.send), Start).log)
  {
    var next := InputsRead(env, v);
    ChoiceFollows(env, v, next);
  }
}
