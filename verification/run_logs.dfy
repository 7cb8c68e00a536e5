/** What a run of each of the four shortcuts does, from its first effect to its last, as one
    function of the host and the server. */
module RunLogs {
  import opened Basics
  import opened Workflow
  import opened Builder
  import opened ShortcutRules

  // ----- the transfer -----

  function TransferEffect(env: Env, v: Variant, base: string, token: string, prior: seq<Effect>): Effect {
    var url := base + TransferPath();
    Http(url, v.send, Some("Bearer " + token), if v.send then [(KeyText, Payload(env))] else [], env.reply(prior, url))
  }

  /** A send looks at what it was given first. */
  function TransferLog(env: Env, v: Variant, base: string, token: string, prior: seq<Effect>): seq<Effect> {
    if v.send && !env.matches(NonEmpty, Payload(env)) then prior + [Notify(NothingToSend, "")]
    else if v.send && !MayPost(env, v, Payload(env)) then prior + [Notify(IsCredential, "")]
    else
      var e := TransferEffect(env, v, base, token, prior);
      prior + [e] + if OkReply(env, e) then Ending(env, v, e) else [ErrorNotice(env, env.parse(e.reply))]
  }

  // ----- pairing -----

  /** A log so far, whether the run goes on with its transfer, and the token for that. */
  datatype Progress = Progress(log: seq<Effect>, goesOn: bool, token: string)

  function Halted(log: seq<Effect>, last: Effect): Progress {
    Progress(log + [last], false, "")
  }

  /** A paired send stops; a paired pull goes on. */
  function PairedProgress(send: bool, log: seq<Effect>, token: string): Progress {
    if send then Halted(log, Notify(PairedOnly, "")) else Progress(log, true, token)
  }

  /** The file after a text was saved in it, read back. */
  function ReadAgain(env: Env, prior: seq<Effect>, text: string): Value {
    env.file(prior + [Saved(text)])
  }

  function SaveLog(env: Env, prior: seq<Effect>, text: string): seq<Effect> {
    prior + [Saved(text), Opened(ReadAgain(env, prior, text))]
  }

  function StatusEffect(env: Env, cfg: Value, prior: seq<Effect>): Effect {
    var url := BaseOf(env, cfg) + StatusPath();
    Http(url, false, Some("Bearer " + TokenOf(env, cfg)), [], env.reply(prior, url))
  }

  /** The text is saved, and the clipboard cleared after the file could be read again. */
  function TailscaleSaving(env: Env, send: bool, src: Value, prior: seq<Effect>): Progress {
    var log := SaveLog(env, prior, Text(src));
    if ReadAgain(env, prior, Text(src)).Missing? then Halted(log, Notify(SaveProblem, ""))
    else PairedProgress(send, log + [ClipboardSet(Has(""))], TokenOf(env, env.parse(src)))
  }

  /** All that only after the server has accepted the token. */
  function TailscalePairing(env: Env, send: bool, src: Value, prior: seq<Effect>): Progress {
    var e := StatusEffect(env, env.parse(src), prior);
    if OkReply(env, e) then TailscaleSaving(env, send, src, prior + [e])
    else Halted(prior + [e], ErrorNotice(env, env.parse(e.reply)))
  }

  function TicketEffect(env: Env, cfg: Value, prior: seq<Effect>): Effect {
    var url := BaseOf(env, cfg) + PairPath();
    Http(url, true, None, [(KeyVersion, "1"), (KeyTicket, Text(env.field(cfg, KeyTicket)))], env.reply(prior, url))
  }

  /** Shared pairing data is not in the clipboard, which then is left alone. */
  function ClearProgress(env: Env, send: bool, token: string, prior: seq<Effect>): Progress {
    PairedProgress(send, if env.share.Missing? then prior + [ClipboardSet(Has(""))] else prior, token)
  }

  /** The new token must be in the file. */
  function ReadBackProgress(env: Env, send: bool, token: string, read: Value, prior: seq<Effect>): Progress {
    if read.Missing? then Halted(prior, Notify(SaveProblem, ""))
    else if !env.exactly(token, Text(env.field(env.parse(read), KeyToken)))
        then Halted(prior, Notify(ReadbackProblem, ""))
    else ClearProgress(env, send, token, prior)
  }

  function SimpleSaving(env: Env, send: bool, base: string, token: string, prior: seq<Effect>): Progress {
    var text := NewConfigText(base, token);
    ReadBackProgress(env, send, token, ReadAgain(env, prior, text), SaveLog(env, prior, text))
  }

  /** The token and the version of a good reply are checked. */
  function SimpleReply(env: Env, send: bool, base: string, reply: Value, prior: seq<Effect>): Progress {
    var token := Text(env.field(reply, KeyToken));
    if env.matches(TokenShape, token) && env.matches(VersionOne, Text(env.field(reply, KeyVersion)))
    then SimpleSaving(env, send, base, token, prior)
    else Halted(prior, Notify(Help, ""))
  }

  /** The ticket is redeemed first. */
  function SimplePairing(env: Env, send: bool, cfg: Value, prior: seq<Effect>): Progress {
    var e := TicketEffect(env, cfg, prior);
    if OkReply(env, e) then SimpleReply(env, send, BaseOf(env, cfg), env.parse(e.reply), prior + [e])
    else Halted(prior + [e], ErrorNotice(env, env.parse(e.reply)))
  }

  // ----- the whole run -----

  /** Pairing data was shared or copied. */
  predicate Offers(env: Env, v: Variant) {
    env.matches(if v.simple then SimpleTicketShape else PairingShape, Offered(env, v))
  }

  /** The credential that a run starts from: the ticket of simple pairing data, else the token. */
  function Credential(env: Env, v: Variant, cfg: Value): string {
    Text(env.field(cfg, if v.simple && Offers(env, v) then KeyTicket else KeyToken))
  }

  /** A configuration text that passes every check. */
  predicate Usable(env: Env, v: Variant, src: Value) {
    && src.Has? && env.matches(if v.simple then SimpleConfigShape else PairingShape, src.text)
    && Validated(env, v, env.parse(src)) && env.matches(TokenShape, Credential(env, v, env.parse(src)))
  }

  /** Pairing, if anything was offered for it. */
  function AfterPairing(env: Env, v: Variant, src: Value, prior: seq<Effect>): Progress {
    if !Offers(env, v) then Progress(prior, true, TokenOf(env, env.parse(src)))
    else if v.simple then SimplePairing(env, v.send, env.parse(src), prior)
    else TailscalePairing(env, v.send, src, prior)
  }

  /** What comes between the checks and the transfer. */
  function Prepared(env: Env, v: Variant, src: Value, prior: seq<Effect>): Progress {
    AfterPairing(env, v, src, if v.simple then prior else prior + [Joined, Waited])
  }

  /** The run up to its transfer. */
  function Reached(env: Env, v: Variant): Progress {
    var src := ConfigText(env, v);
    var prior := if Offers(env, v) then [] else [Opened(src)];
    if Usable(env, v, src) then Prepared(env, v, src, prior) else Halted(prior, Notify(Help, ""))
  }

  function RunLog(env: Env, v: Variant): seq<Effect> {
    var r := Reached(env, v);
    if r.goesOn then TransferLog(env, v, BaseOf(env, env.parse(ConfigText(env, v))), r.token, r.log) else r.log
  }

  // ----- the same, up to the reply to the transfer if that was good -----

  ghost predicate ComesTo(env: Env, v: Variant, base: string, token: string, prior: seq<Effect>, log: seq<Effect>) {
    var e := TransferEffect(env, v, base, token, prior);
    if (!v.send || MayPost(env, v, Payload(env))) && OkReply(env, e) then prior + [e] <= log
    else log == TransferLog(env, v, base, token, prior)
  }

  ghost predicate Follows(env: Env, v: Variant, base: string, r: Progress, log: seq<Effect>) {
    if r.goesOn then ComesTo(env, v, base, r.token, r.log, log) else log == r.log
  }

  lemma RequestComesTo(env: Env, v: Variant, address: string, secret: string, base: Ref, token: Ref, body: Body,
                       rest: Prog, st: St)
    requires !st.stopped && !st.dangling && RequestRefs(st, base, token, body)
    requires forall part ::
               && token != Out(Sub(Word(Transfer), part))
               && body != TextBody(Out(Sub(Word(Transfer), part))) && body != TicketBody(Out(Sub(Word(Transfer), part)))
    requires RequestEffect(env, st, base, token, TransferPath(), body)
             == TransferEffect(env, v, address, secret, st.log)
    requires !v.send || MayPost(env, v, Payload(env))
    ensures ComesTo(env, v, address, secret, st.log,
                    Run(env, Request(Word(Transfer), base, token, TransferPath(), body, rest), st).log)
  {
    var next := RequestRuns(env, Transfer, base, token, TransferPath(), body, rest, st);
    RunExtends(env, rest, next);
  }

}
