/** When the four shortcuts do what they do: every run, step by step, from what the host and
    the server give it. Nothing here refers to programs, labels or groups. */
module ShortcutSteps {
  import opened Basics
  import opened Workflow
  import opened Builder
  import opened ShortcutRules
  import opened RunLogs
  import opened ShortcutTheorems

  // ----- what the host gives -----

  /** Where pairing data is looked for: the simple pair looks at what was shared first. */
  function Given(env: Env, v: Variant): string {
    if v.simple && env.share.Has? then env.share.text else Text(env.clipboard([]))
  }

  predicate Pairs(env: Env, v: Variant) {
    env.matches(if v.simple then SimpleTicketShape else PairingShape, Given(env, v))
  }

  function Source(env: Env, v: Variant): Value {
    if Pairs(env, v) then Has(Given(env, v)) else env.file([])
  }

  function Config(env: Env, v: Variant): Value {
    env.parse(Source(env, v))
  }

  function FieldText(env: Env, dictionary: Value, key: Key): string {
    Text(env.field(dictionary, key))
  }

  function Address(env: Env, v: Variant): string {
    FieldText(env, Config(env, v), KeyBaseUrl)
  }

  /** A configuration that passes every check there is. */
  predicate Fit(env: Env, v: Variant) {
    var cfg := Config(env, v);
    && Source(env, v).Has?
    && env.matches(if v.simple then SimpleConfigShape else PairingShape, Source(env, v).text)
    && env.matches(VersionOne, FieldText(env, cfg, KeyVersion))
    && env.matches(if v.simple then SimpleBase else TailscaleBase, Address(env, v))
    && (v.simple ==> env.matches(CloudflareWord, FieldText(env, cfg, KeyTransport)))
    && env.matches(TokenShape, FieldText(env, cfg, if v.simple && Pairs(env, v) then KeyTicket else KeyToken))
  }

  /** What is said of a reply that is not ok. */
  function Complaint(env: Env, reply: Value): Effect {
    var text := env.field(env.parse(reply), KeyErrorMessage);
    if text.Has? then Notify(ServerSays, text.text) else Notify(BadReply, "")
  }

  predicate SaysOk(env: Env, reply: Value) {
    env.truth(env.field(env.parse(reply), KeyOk))
  }

  // ----- the same configuration as the one in the log's definition -----

  lemma SameConfig(env: Env, v: Variant)
    ensures Offers(env, v) <==> Pairs(env, v)
    ensures ConfigText(env, v) == Source(env, v)
    ensures Usable(env, v, Source(env, v)) <==> Fit(env, v)
    ensures BaseAt(env, v) == Address(env, v)
  {
  }

  lemma RunIs(env: Env, v: Variant, log: seq<Effect>)
    requires log == RunOf(env, v).log
    ensures log == RunLog(env, v)
  {
    EveryRunExactly(env, v);
  }

  lemma UnfitLog(env: Env, v: Variant)
    requires !Fit(env, v)
    ensures RunLog(env, v) == (if Pairs(env, v) then [] else [Opened(env.file([]))]) + [Notify(Help, "")]
  {
    SameConfig(env, v);
  }

  /** Without a fit configuration a run asks nobody anything: it says so and stops. */
  lemma UnfitStops(env: Env, v: Variant, log: seq<Effect>)
    requires !Fit(env, v) && log == RunOf(env, v).log
    ensures log == (if Pairs(env, v) then [] else [Opened(env.file([]))]) + [Notify(Help, "")]
  {
    RunIs(env, v, log);
    UnfitLog(env, v);
  }

  // ----- pairing -----

  /** The pairing request: the simple one redeems the ticket, the other asks for the status
      with the new token. */
  function PairingRequest(env: Env, v: Variant, prior: seq<Effect>): Effect {
    var cfg, base := Config(env, v), Address(env, v);
    if v.simple
    then Http(base + "/pair", true, None, [(KeyVersion, "1"), (KeyTicket, FieldText(env, cfg, KeyTicket))],
              env.reply(prior, base + "/pair"))
    else Http(base + "/status", false, Some("Bearer " + FieldText(env, cfg, KeyToken)), [],
              env.reply(prior, base + "/status"))
  }

  /** The Tailscale pair connects first. */
  function Connecting(v: Variant): seq<Effect> {
    if v.simple then [] else [Joined, Waited]
  }

  /** A run up to its pairing request, that included. */
  function Asked(env: Env, v: Variant): seq<Effect> {
    Connecting(v) + [PairingRequest(env, v, Connecting(v))]
  }

  function PairingReply(env: Env, v: Variant): Value {
    PairingRequest(env, v, Connecting(v)).reply
  }

  /** The reply grants the pairing: it is ok and, for the simple pair, has a token of the right
      shape and version 1. */
  predicate Grants(env: Env, v: Variant, reply: Value) {
    && SaysOk(env, reply)
    && (v.simple ==>
          && env.matches(TokenShape, FieldText(env, env.parse(reply), KeyToken))
          && env.matches(VersionOne, FieldText(env, env.parse(reply), KeyVersion)))
  }

  /** The token after that pairing, and the configuration to save. */
  function NewToken(env: Env, v: Variant, reply: Value): string {
    FieldText(env, if v.simple then env.parse(reply) else Config(env, v), KeyToken)
  }

  function NewFile(env: Env, v: Variant, reply: Value): string {
    if v.simple
    then "{\"version\":1,\"transport\":\"cloudflare\",\"base_url\":\"" +
         (Address(env, v) + ("\",\"token\":\"" + (NewToken(env, v, reply) + "\"}")))
    else Given(env, v)
  }

  /** A run up to the reading back of what the pairing saved, that included. */
  function ReadBack(env: Env, v: Variant): seq<Effect> {
    var saved := Asked(env, v) + [Saved(NewFile(env, v, PairingReply(env, v)))];
    saved + [Opened(env.file(saved))]
  }

  function FileRead(env: Env, v: Variant): Value {
    env.file(Asked(env, v) + [Saved(NewFile(env, v, PairingReply(env, v)))])
  }

  /** The file read back: for the simple pair it must hold the new token. */
  predicate KeepsToken(env: Env, v: Variant) {
    v.simple ==> env.exactly(NewToken(env, v, PairingReply(env, v)),
                             FieldText(env, env.parse(FileRead(env, v)), KeyToken))
  }

  /** The pairing data goes from the clipboard, if it came from there. */
  function Cleared(env: Env, v: Variant): seq<Effect> {
    ReadBack(env, v) + if !v.simple || env.share.Missing? then [ClipboardSet(Has(""))] else []
  }

  function PairingProgress(env: Env, v: Variant): Progress {
    if v.simple then SimplePairing(env, v.send, Config(env, v), Connecting(v))
    else TailscalePairing(env, v.send, Source(env, v), Connecting(v))
  }

  lemma ReachedPairing(env: Env, v: Variant)
    requires Fit(env, v) && Pairs(env, v)
    ensures Reached(env, v) == PairingProgress(env, v)
  {
    SameConfig(env, v);
    assert [] + [Joined, Waited] == [Joined, Waited];
  }

  lemma PairingLog(env: Env, v: Variant, log: seq<Effect>)
    requires Fit(env, v) && Pairs(env, v) && log == RunLog(env, v)
    ensures var r := PairingProgress(env, v);
            log == if r.goesOn then TransferLog(env, v, Address(env, v), r.token, r.log) else r.log
  {
    ReachedPairing(env, v);
    SameConfig(env, v);
  }

  lemma RefusedProgress(env: Env, v: Variant)
    requires !Grants(env, v, PairingReply(env, v))
    ensures var why := if SaysOk(env, PairingReply(env, v)) then Notify(Help, "")
                       else Complaint(env, PairingReply(env, v));
            PairingProgress(env, v) == Progress(Asked(env, v) + [why], false, "")
  {
  }

  lemma SavedFile(env: Env, v: Variant)
    ensures SaveLog(env, Asked(env, v), NewFile(env, v, PairingReply(env, v))) == ReadBack(env, v)
    ensures ReadAgain(env, Asked(env, v), NewFile(env, v, PairingReply(env, v))) == FileRead(env, v)
    ensures v.simple ==>
              NewFile(env, v, PairingReply(env, v))
              == NewConfigText(Address(env, v), NewToken(env, v, PairingReply(env, v)))
  {
    var file := NewFile(env, v, PairingReply(env, v));
    assert Asked(env, v) + [Saved(file)] + [Opened(FileRead(env, v))]
        == Asked(env, v) + [Saved(file), Opened(FileRead(env, v))];
  }

  /** What a granted pairing comes to. */
  function GrantedAs(env: Env, v: Variant): Progress {
    if FileRead(env, v).Missing? then Progress(ReadBack(env, v) + [Notify(SaveProblem, "")], false, "")
    else if !KeepsToken(env, v) then Progress(ReadBack(env, v) + [Notify(ReadbackProblem, "")], false, "")
    else if v.send then Progress(Cleared(env, v) + [Notify(PairedOnly, "")], false, "")
    else Progress(Cleared(env, v), true, NewToken(env, v, PairingReply(env, v)))
  }

  lemma GrantedTailscale(env: Env, v: Variant)
    requires !v.simple && Pairs(env, v) && Grants(env, v, PairingReply(env, v))
    ensures TailscalePairing(env, v.send, Source(env, v), Connecting(v)) == GrantedAs(env, v)
  {
    SavedFile(env, v);
  }

  lemma GrantedSimple(env: Env, v: Variant)
    requires v.simple && Grants(env, v, PairingReply(env, v))
    ensures SimplePairing(env, v.send, Config(env, v), Connecting(v)) == GrantedAs(env, v)
  {
    SavedFile(env, v);
  }

  lemma GrantedProgress(env: Env, v: Variant)
    requires Pairs(env, v) && Grants(env, v, PairingReply(env, v))
    ensures PairingProgress(env, v) == GrantedAs(env, v)
  {
    if v.simple {
      GrantedSimple(env, v);
    } else {
      GrantedTailscale(env, v);
    }
  }

  /** A fit configuration that was shared or copied for pairing: the pairing request is made,
      with this very ticket or token. If it is not granted, nothing is saved; the run says why
      and stops. */
  lemma PairingRefused(env: Env, v: Variant, log: seq<Effect>)
    requires Fit(env, v) && Pairs(env, v) && log == RunOf(env, v).log && !Grants(env, v, PairingReply(env, v))
    ensures log == Asked(env, v) + [if SaysOk(env, PairingReply(env, v)) then Notify(Help, "")
                                    else Complaint(env, PairingReply(env, v))]
  {
    RunIs(env, v, log);
    PairingLog(env, v, log);
    RefusedProgress(env, v);
  }

  lemma PairingSavedLog(env: Env, v: Variant, log: seq<Effect>)
    requires Fit(env, v) && Pairs(env, v) && log == RunLog(env, v) && Grants(env, v, PairingReply(env, v))
    requires v.send || FileRead(env, v).Missing? || !KeepsToken(env, v)
    ensures log == GrantedAs(env, v).log
  {
    PairingLog(env, v, log);
    GrantedProgress(env, v);
  }

  /** If it is granted, the new configuration is saved and read back. A file that cannot be
      read, or has not the new token, is reported, and the clipboard is left alone. Otherwise
      the pairing data goes, and a send stops. */
  lemma PairingSaved(env: Env, v: Variant, log: seq<Effect>)
    requires Fit(env, v) && Pairs(env, v) && log == RunOf(env, v).log && Grants(env, v, PairingReply(env, v))
    requires v.send || FileRead(env, v).Missing? || !KeepsToken(env, v)
    ensures log == if FileRead(env, v).Missing? then ReadBack(env, v) + [Notify(SaveProblem, "")]
                   else if !KeepsToken(env, v) then ReadBack(env, v) + [Notify(ReadbackProblem, "")]
                   else Cleared(env, v) + [Notify(PairedOnly, "")]
  {
    RunIs(env, v, log);
    PairingSavedLog(env, v, log);
  }

  // ----- the transfer -----

  /** The transfer: a send posts what the user gave, a pull posts nothing. */
  function Transfer(env: Env, v: Variant, token: string, prior: seq<Effect>): Effect {
    var url := Address(env, v) + "/clipboard/text";
    Http(url, v.send, Some("Bearer " + token), if v.send then [(KeyText, Payload(env))] else [], env.reply(prior, url))
  }

  /** What a run does with the reply to its transfer. A pull sets the text if there is one to
      take; delivery is reported only of what was delivered. */
  function Outcome(env: Env, v: Variant, reply: Value): seq<Effect> {
    var text := env.field(env.parse(reply), KeyText);
    var told := Notify(Delivered, FieldText(env, env.parse(reply), KeyDeviceName));
    if !SaysOk(env, reply) then [Complaint(env, reply)]
    else if v.send then [told]
    else if (if v.simple then env.matches(NonEmpty, Text(text)) else text.Has?) then [ClipboardSet(text), told]
    else [Notify(DesktopEmpty, "")]
  }

  /** The end of a run, from where it has a token. A send looks first at what it was given:
      nothing, and what has the shape of a credential, is not posted. */
  function FromToken(env: Env, v: Variant, token: string, prior: seq<Effect>): seq<Effect> {
    if v.send && !env.matches(NonEmpty, Payload(env)) then prior + [Notify(NothingToSend, "")]
    else if v.send && env.matches(if v.simple then SecretShape else PairingShape, Payload(env))
    then prior + [Notify(IsCredential, "")]
    else
      var e := Transfer(env, v, token, prior);
      prior + [e] + Outcome(env, v, e.reply)
  }

  lemma TransferIs(env: Env, v: Variant, token: string, prior: seq<Effect>)
    ensures TransferLog(env, v, Address(env, v), token, prior) == FromToken(env, v, token, prior)
  {
  }

  lemma PairedPullLog(env: Env, v: Variant, log: seq<Effect>)
    requires Fit(env, v) && Pairs(env, v) && log == RunLog(env, v) && Grants(env, v, PairingReply(env, v))
    requires !v.send && FileRead(env, v).Has? && KeepsToken(env, v)
    ensures log == FromToken(env, v, NewToken(env, v, PairingReply(env, v)), Cleared(env, v))
  {
    PairingLog(env, v, log);
    GrantedProgress(env, v);
    TransferIs(env, v, NewToken(env, v, PairingReply(env, v)), Cleared(env, v));
  }

  /** A pull that has paired goes on with the new token. */
  lemma PairedPullTransfers(env: Env, v: Variant, log: seq<Effect>)
    requires Fit(env, v) && Pairs(env, v) && log == RunOf(env, v).log && Grants(env, v, PairingReply(env, v))
    requires !v.send && FileRead(env, v).Has? && KeepsToken(env, v)
    ensures log == FromToken(env, v, NewToken(env, v, PairingReply(env, v)), Cleared(env, v))
  {
    RunIs(env, v, log);
    PairedPullLog(env, v, log);
  }

  /** A run with a fit saved file opens it, the Tailscale pair connects, and it transfers with
      the saved token. */
  lemma SavedRunTransfers(env: Env, v: Variant, log: seq<Effect>)
    requires Fit(env, v) && !Pairs(env, v) && log == RunOf(env, v).log
    ensures log == FromToken(env, v, FieldText(env, Config(env, v), KeyToken),
                             [Opened(env.file([]))] + Connecting(v))
  {
    RunIs(env, v, log);
    SameConfig(env, v);
    var prior := [Opened(env.file([]))] + Connecting(v);
    TransferIs(env, v, FieldText(env, Config(env, v), KeyToken), prior);
    assert v.simple ==> prior == [Opened(env.file([]))];
  }
}
