/** Every run of the Tailscale pair leaves the log it should. */
module TailscaleRuns {
  import opened Basics
  import opened Workflow
  import opened Builder
  import opened ShortcutRules
  import opened RunLogs
  import opened TailscaleShortcuts

  /** The clipboard as it was read, and matched. */
  ghost predicate Read(env: Env, st: St) {
    && Word(ClipboardText) in st.out && st.out[Word(ClipboardText)] == env.clipboard([])
    && Word(PairingCandidate) in st.out
    && (st.out[Word(PairingCandidate)].Has? <==> env.matches(PairingShape, Text(env.clipboard([]))))
  }

  /** And the configuration text chosen. */
  ghost predicate Chose(env: Env, src: Value, st: St) {
    && !st.stopped && !st.dangling && Read(env, st)
    && ResultId(Word(ChooseConfig)) in st.out && st.out[ResultId(Word(ChooseConfig))] == src
  }

  /** And its checked fields at hand. */
  ghost predicate At(env: Env, src: Value, st: St) {
    && Chose(env, src, st)
    && Word(BaseUrl) in st.out && st.out[Word(BaseUrl)] == env.field(env.parse(src), KeyBaseUrl)
    && Word(TokenField) in st.out && st.out[Word(TokenField)] == env.field(env.parse(src), KeyToken)
  }

  lemma KeptChose(env: Env, src: Value, st: St, next: St, changed: set<Name>)
    requires Chose(env, src, st) && Kept(st, next, changed) && !next.stopped && !next.dangling
    requires changed !! {ClipboardText, PairingCandidate, ChooseConfig}
    ensures Chose(env, src, next)
  {
    assert ClipboardText !in changed && PairingCandidate !in changed && ChooseConfig !in changed;
  }

  lemma KeptAt(env: Env, src: Value, st: St, next: St, changed: set<Name>)
    requires At(env, src, st) && Kept(st, next, changed) && !next.stopped && !next.dangling
    requires changed !! {ClipboardText, PairingCandidate, ChooseConfig, BaseUrl, TokenField}
    ensures At(env, src, next)
  {
    KeptChose(env, src, st, next, changed);
    assert BaseUrl !in changed && TokenField !in changed;
  }

  // ----- the transfer -----

  /** The run comes to the transfer that `src` asks for, from here. */
  ghost predicate Ahead(env: Env, v: Variant, src: Value, prior: seq<Effect>, log: seq<Effect>) {
    ComesTo(env, v, BaseOf(env, env.parse(src)), TokenOf(env, env.parse(src)), prior, log)
  }

  lemma PullAhead(env: Env, src: Value, st: St)
    requires At(env, src, st)
    ensures Ahead(env, Variant(false, false), src, st.log, Run(env, TailPull(), st).log)
  {
    RequestComesTo(env, Variant(false, false), BaseOf(env, env.parse(src)), TokenOf(env, env.parse(src)),
                   W(BaseUrl), W(TokenField), NoBody, Receive(), st);
  }

  lemma SendCheckedAhead(env: Env, src: Value, st: St)
    requires At(env, src, st) && env.matches(NonEmpty, Payload(env))
    requires ResultId(Word(ChoosePayload)) in st.out && Text(st.out[ResultId(Word(ChoosePayload))]) == Payload(env)
    ensures Ahead(env, Variant(false, true), src, st.log, Run(env, TailSendChecked(), st).log)
  {
    var body := TextBody(Result(ChoosePayload));
    var send := Request(Word(Transfer), W(BaseUrl), W(TokenField), TransferPath(), body, Finish());
    var guard :=
        StopIf(Word(RejectCredential), W(CredentialPayload), HasValue, Word(RejectCredential), IsCredential, send);
    var s1 := ActRuns(env, Word(CredentialPayload), MatchText(Result(ChoosePayload), PairingShape), guard, st);
    assert s1.log == st.log;
    var s2 := StopIfRuns(env, RejectCredential, W(CredentialPayload), HasValue, Word(RejectCredential), IsCredential,
                         send, s1);
    if !env.matches(PairingShape, Payload(env)) {
      RequestComesTo(env, Variant(false, true), BaseOf(env, env.parse(src)), TokenOf(env, env.parse(src)),
                     W(BaseUrl), W(TokenField), body, Finish(), s2);
    }
  }

  lemma SendAhead(env: Env, src: Value, st: St)
    requires At(env, src, st)
    ensures Ahead(env, Variant(false, true), src, st.log, Run(env, TailSend(), st).log)
  {
    var need := Require(Word(EmptyPayload), Result(ChoosePayload), NonEmpty, NothingToSend, TailSendChecked());
    var s1 := ChoosePayloadRuns(env, need, st);
    KeptAt(env, src, st, s1, {ChoosePayload, SharedText, CopiedText});
    var s2 := RequireRuns(env, EmptyPayload, Result(ChoosePayload), NonEmpty, NothingToSend, TailSendChecked(), s1);
    if env.matches(NonEmpty, Payload(env)) {
      SendCheckedAhead(env, src, s2);
    }
  }

  lemma TailAhead(env: Env, v: Variant, src: Value, st: St)
    requires !v.simple && At(env, src, st)
    ensures Ahead(env, v, src, st.log, Run(env, Tail(v.send), st).log)
  {
    if v.send {
      SendAhead(env, src, st);
    } else {
      PullAhead(env, src, st);
    }
  }

  // ----- pairing -----

  /** A branch that leaves this log, and goes on or not. */
  ghost predicate Leads(env: Env, src: Value, r: Progress, done: St) {
    done.log == r.log && (done.stopped <==> !r.goesOn) && (r.goesOn ==> At(env, src, done))
  }

  lemma PairedLeads(env: Env, send: bool, src: Value, st: St)
    requires At(env, src, st)
    ensures Leads(env, src, PairedProgress(send, st.log + [ClipboardSet(Has(""))], TokenOf(env, env.parse(src))),
                  Run(env, ClearThen(AfterClear(send)), st))
  {
    var next := ClearRuns(env, AfterClear(send), st);
    KeptAt(env, src, st, next, {ClearPairing, ClearClipboard});
    if send {
      StopRuns(env, Word(Paired), PairedOnly, None, Nil, next);
    }
  }

  lemma ClearLeads(env: Env, send: bool, src: Value, st: St)
    requires At(env, src, st) && Word(VerifySavedConfig) in st.out
    ensures Leads(env, src,
                  if st.out[Word(VerifySavedConfig)].Missing? then Halted(st.log, Notify(SaveProblem, ""))
                  else PairedProgress(send, st.log + [ClipboardSet(Has(""))], TokenOf(env, env.parse(src))),
                  Run(env, ClearBranch(send), st))
  {
    var next := StopIfRuns(env, SaveFailed, W(VerifySavedConfig), NoValue, Word(SaveFailed), SaveProblem,
                           ClearThen(AfterClear(send)), st);
    if st.out[Word(VerifySavedConfig)].Has? {
      PairedLeads(env, send, src, next);
    }
  }

  lemma SaveLeads(env: Env, send: bool, src: Value, st: St)
    requires At(env, src, st)
    ensures Leads(env, src, TailscaleSaving(env, send, src, st.log), Run(env, SaveBranch(send), st))
  {
    var next := SaveRuns(env, src, ClearBranch(send), st);
    KeptAt(env, src, st, next, {NameConfig, SaveConfig, VerifySavedConfig});
    ClearLeads(env, send, src, next);
  }

  lemma PairLeads(env: Env, send: bool, src: Value, st: St)
    requires At(env, src, st)
    ensures Leads(env, src, TailscalePairing(env, send, src, st.log), Run(env, PairBranch(send), st))
  {
    var e := StatusEffect(env, env.parse(src), st.log);
    assert e == RequestEffect(env, st, W(BaseUrl), W(TokenField), StatusPath(), NoBody);
    var next := RequestRuns(env, StatusRequest, W(BaseUrl), W(TokenField), StatusPath(), NoBody, SaveBranch(send), st);
    if OkReply(env, e) {
      SaveLeads(env, send, src, next);
    }
  }

  // ----- from the checks on -----

  /** What is left of the run follows what should come after the checks. */
  ghost predicate AfterChecks(env: Env, v: Variant, src: Value, prior: seq<Effect>, log: seq<Effect>) {
    Follows(env, v, BaseOf(env, env.parse(src)), Prepared(env, v, src, prior), log)
  }

  lemma JoinedFollows(env: Env, v: Variant, src: Value, prior: seq<Effect>, st: St)
    requires !v.simple && At(env, src, st) && st.log == prior + [Joined, Waited]
    ensures AfterChecks(env, v, src, prior, Run(env, PairThenTail(v.send), st).log)
  {
    var inner := Enter(st, W(PairingCandidate));
    assert At(env, src, inner);
    assert Prepared(env, v, src, prior) == AfterPairing(env, v, src, inner.log);
    var done := IfRuns(env, Pair, W(PairingCandidate), HasValue, PairBranch(v.send), Tail(v.send), st);
    if Offers(env, v) {
      PairLeads(env, v.send, src, inner);
    }
    if !done.stopped {
      TailAhead(env, v, src, Leave(done, Word(Pair)));
    }
  }

  lemma JoinRuns(env: Env, send: bool, src: Value, st: St) returns (next: St)
    requires At(env, src, st)
    ensures At(env, src, next) && next.log == st.log + [Joined, Waited]
    ensures Run(env, JoinThenPair(send), st) == Run(env, PairThenTail(send), next)
  {
    var mid := ActRuns(env, Word(Connect), TailscaleConnect, WaitThenPair(send), st);
    assert At(env, src, mid);
    next := ActRuns(env, Word(ConnectWait), Delay, PairThenTail(send), mid);
  }

  lemma JoinFollows(env: Env, v: Variant, src: Value, st: St)
    requires !v.simple && At(env, src, st)
    ensures AfterChecks(env, v, src, st.log, Run(env, JoinThenPair(v.send), st).log)
  {
    var next := JoinRuns(env, v.send, src, st);
    JoinedFollows(env, v, src, st.log, next);
  }

  /** The parsed configuration is where the checks look. */
  ghost predicate Parsed(env: Env, src: Value, st: St) {
    Chose(env, src, st) && Word(Config) in st.out && st.out[Word(Config)] == env.parse(src)
  }

  lemma FieldPasses(env: Env, src: Value, f: Name, key: Key, check: Name, pattern: Pattern, rest: Prog, st: St)
    returns (next: St)
    requires Parsed(env, src, st) && f != check && {f, check} !! {ClipboardText, PairingCandidate, ChooseConfig, Config}
    ensures Parsed(env, src, next) && next.log == st.log && Kept(st, next, {f, check})
    ensures Word(f) in next.out && next.out[Word(f)] == env.field(env.parse(src), key)
    ensures var done := Run(env, Checked(W(Config), f, key, check, pattern, rest), st);
            if env.matches(pattern, Text(env.field(env.parse(src), key))) then done == Run(env, rest, next)
            else done.log == st.log + [Notify(Help, "")]
  {
    next := CheckedRuns(env, W(Config), f, key, check, pattern, rest, st);
    KeptChose(env, src, st, next, {f, check});
    assert Config !in {f, check};
  }

  lemma TokenFollows(env: Env, v: Variant, src: Value, st: St)
    requires !v.simple && Parsed(env, src, st)
    requires Word(BaseUrl) in st.out && st.out[Word(BaseUrl)] == env.field(env.parse(src), KeyBaseUrl)
    ensures var log := Run(env, CheckToken(v.send), st).log;
            if env.matches(TokenShape, TokenOf(env, env.parse(src))) then AfterChecks(env, v, src, st.log, log)
            else log == st.log + [Notify(Help, "")]
  {
    var next := FieldPasses(env, src, TokenField, KeyToken, TokenValid, TokenShape, JoinThenPair(v.send), st);
    assert BaseUrl !in {TokenField, TokenValid};
    if env.matches(TokenShape, TokenOf(env, env.parse(src))) {
      JoinFollows(env, v, src, next);
    }
  }

  lemma BaseFollows(env: Env, v: Variant, src: Value, st: St)
    requires !v.simple && Parsed(env, src, st)
    ensures var log := Run(env, CheckBase(v.send), st).log;
            if env.matches(TailscaleBase, BaseOf(env, env.parse(src)))
                && env.matches(TokenShape, TokenOf(env, env.parse(src)))
            then AfterChecks(env, v, src, st.log, log)
            else log == st.log + [Notify(Help, "")]
  {
    var next := FieldPasses(env, src, BaseUrl, KeyBaseUrl, BaseValid, TailscaleBase, CheckToken(v.send), st);
    if env.matches(TailscaleBase, BaseOf(env, env.parse(src))) {
      TokenFollows(env, v, src, next);
    }
  }

  lemma ChecksFollow(env: Env, v: Variant, src: Value, st: St)
    requires !v.simple && Parsed(env, src, st)
    ensures var log := Run(env, CheckFields(v.send), st).log;
            if Validated(env, v, env.parse(src)) then AfterChecks(env, v, src, st.log, log)
            else log == st.log + [Notify(Help, "")]
  {
    var next := FieldPasses(env, src, Version, KeyVersion, VersionValid, VersionOne, CheckBase(v.send), st);
    if env.matches(VersionOne, Text(env.field(env.parse(src), KeyVersion))) {
      BaseFollows(env, v, src, next);
    }
  }

  lemma ShapeFollows(env: Env, v: Variant, src: Value, st: St)
    requires !v.simple && Chose(env, src, st) && src.Has?
    ensures var log := Run(env, ShapeThenCheck(v.send), st).log;
            if Usable(env, v, src) then AfterChecks(env, v, src, st.log, log)
            else log == st.log + [Notify(Help, "")]
  {
    var s1 := RequireRuns(env, ConfigShape, Result(ChooseConfig), PairingShape, Help, CheckThenJoin(v.send), st);
    var s2 := ActRuns(env, Word(Config), DetectDictionary(Result(ChooseConfig)), CheckFields(v.send), s1);
    assert s2.log == st.log;
    if env.matches(PairingShape, src.text) {
      ChecksFollow(env, v, src, s2);
    }
  }

  // ----- the choice of the configuration -----

  lemma LoadLeaves(env: Env, st: St)
    requires Read(env, st) && !st.stopped && !st.dangling && st.log == []
    ensures var src, done := env.file([]), Run(env, LoadBranch(), st);
            if src.Missing? then done.stopped && done.log == [Opened(src), Notify(Help, "")]
            else !done.stopped && !done.dangling && done.log == [Opened(src)] && done.last == src && Read(env, done)
  {
    LoadBranchRuns(env, st);
    assert ClipboardText !in {LoadConfig, MissingConfig, SavedConfigText};
    assert PairingCandidate !in {LoadConfig, MissingConfig, SavedConfigText};
  }

  lemma TakeLeaves(env: Env, st: St)
    requires Read(env, st) && !st.stopped && !st.dangling && st.log == []
    ensures var done := Run(env, TakeClipboard(), st);
            && !done.stopped && !done.dangling && done.log == [] && Read(env, done)
            && done.last == Has(Text(env.clipboard([])))
  {
    TakeClipboardRuns(env, st);
    assert ClipboardText !in {NewConfig} && PairingCandidate !in {NewConfig};
  }

  lemma ChoiceFollows(env: Env, v: Variant, st: St)
    requires !v.simple && Read(env, st) && !st.stopped && !st.dangling && st.log == []
    ensures Follows(env, v, BaseOf(env, env.parse(ConfigText(env, v))), Reached(env, v),
                    Run(env, ChooseThenCheck(v.send), st).log)
  {
    var src := ConfigText(env, v);
    var inner := Enter(st, W(PairingCandidate));
    assert Read(env, inner);
    var done := EitherRuns(env, ChooseConfig, W(PairingCandidate), HasValue, TakeClipboard(), LoadBranch(),
                           ShapeThenCheck(v.send), st);
    if Offers(env, v) {
      TakeLeaves(env, inner);
    } else {
      LoadLeaves(env, inner);
    }
    if !done.stopped {
      var next := Leave(done, Word(ChooseConfig));
      assert Chose(env, src, next);
      ShapeFollows(env, v, src, next);
    }
  }

  lemma RunFollows(env: Env, v: Variant)
    requires !v.simple
    ensures Follows(env, v, BaseOf(env, env.parse(ConfigText(env, v))), Reached(env, v),
                    Run(env, TailscaleProgram(v.send), Start).log)
  {
    var fetched := FetchClipboardRuns(env, ChooseThenCheck(v.send));
    ChoiceFollows(env, v, fetched);
  }
}
