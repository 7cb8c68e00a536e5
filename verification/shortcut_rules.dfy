/** What every effect of every run of the four shortcuts is entitled to, and what the
    builder's verbs do when run. */
module ShortcutRules {
  import opened Basics
  import opened Workflow
  import opened Builder

  /** The shortcut of each direction, for the Tailscale entry or the simple one. */
  datatype Variant = Variant(simple: bool, send: bool)

  function W(n: Name): Ref { Out(Word(n)) }

  function Result(n: Name): Ref { Out(ResultId(Word(n))) }

  function Finish(): Prog {
    Cons(Act(Word(DeviceName), FieldOf(Out(Sub(Word(Transfer), Response)), KeyDeviceName)),
      Cons(Act(Word(Success), Notification(Delivered, Some(W(DeviceName)))), Nil))
  }

  function SetReceived(n: Name): Prog {
    Cons(Act(Word(ReceivedClipboard), Op.SetClipboard(W(n))), Finish())
  }

  function StatusPath(): string { "/status" }

  function PairPath(): string { "/pair" }

  /** A field of a dictionary, and the check of it. */
  function Checked(dict: Ref, f: Name, key: Key, check: Name, pattern: Pattern, rest: Prog): Prog {
    Cons(Act(Word(f), FieldOf(dict, key)), Require(Word(check), W(f), pattern, Help, rest))
  }

  // ----- the configuration a run works with -----

  /** What the user gives a run: what was shared, if anything was, else the clipboard. */
  function Payload(env: Env): string {
    if env.share.Has? then env.share.text else Text(env.clipboard([]))
  }

  /** The text in which a run looks for pairing data. */
  function Offered(env: Env, v: Variant): string {
    if v.simple then Payload(env) else Text(env.clipboard([]))
  }

  /** That text if it is pairing data, else the saved file. */
  function ConfigText(env: Env, v: Variant): Value {
    if env.matches(if v.simple then SimpleTicketShape else PairingShape, Offered(env, v)) then Has(Offered(env, v))
    else env.file([])
  }

  // ----- what an effect is entitled to -----

  /** The base address of the configuration a run works with. */
  function BaseOf(env: Env, cfg: Value): string {
    Text(env.field(cfg, KeyBaseUrl))
  }

  function TokenOf(env: Env, cfg: Value): string {
    Text(env.field(cfg, KeyToken))
  }

  /** The checks that come before any request. */
  predicate Validated(env: Env, v: Variant, cfg: Value) {
    && env.matches(VersionOne, Text(env.field(cfg, KeyVersion)))
    && env.matches(if v.simple then SimpleBase else TailscaleBase, BaseOf(env, cfg))
    && (v.simple ==> env.matches(CloudflareWord, Text(env.field(cfg, KeyTransport))))
    && (!v.simple ==> env.matches(TokenShape, TokenOf(env, cfg)))
  }

  predicate IsPairing(v: Variant, base: string, e: Effect) {
    e.Http? && e.url == base + if v.simple then PairPath() else StatusPath()
  }

  predicate IsTransfer(base: string, e: Effect) {
    e.Http? && e.url == base + TransferPath()
  }

  predicate OkReply(env: Env, e: Effect) {
    e.Http? && env.truth(env.field(env.parse(e.reply), KeyOk))
  }

  predicate GoodTransfer(env: Env, base: string, e: Effect) {
    IsTransfer(base, e) && OkReply(env, e)
  }

  function ReplyText(env: Env, e: Effect, key: Key): string
    requires e.Http?
  {
    Text(env.field(env.parse(e.reply), key))
  }

  /** A pairing request that was answered well, and, for the simple entry, with a token of
      the right shape and version 1. */
  predicate GoodPairing(env: Env, v: Variant, base: string, e: Effect) {
    && IsPairing(v, base, e) && OkReply(env, e)
    && (v.simple ==>
        && env.matches(TokenShape, ReplyText(env, e, KeyToken))
        && env.matches(VersionOne, ReplyText(env, e, KeyVersion)))
  }

  predicate NoRequest(log: seq<Effect>) {
    forall e | e in log :: !e.Http?
  }

  predicate NoTransfer(base: string, log: seq<Effect>) {
    forall e | e in log :: !IsTransfer(base, e)
  }

  /** The one token a transfer may carry: the reply's if this run paired the simple entry,
      else the configuration's. */
  ghost predicate TokenInUse(env: Env, v: Variant, cfg: Value, prior: seq<Effect>, token: string) {
    && env.matches(TokenShape, token)
    && if v.simple && exists e :: e in prior && IsPairing(v, BaseOf(env, cfg), e)
       then exists e :: e in prior && GoodPairing(env, v, BaseOf(env, cfg), e) && token == ReplyText(env, e, KeyToken)
       else token == TokenOf(env, cfg)
  }

  /** What a send may post: what the user gave; never empty, never of the shape of that
      entry's credentials. */
  predicate MayPost(env: Env, v: Variant, x: string) {
    x == Payload(env) && env.matches(NonEmpty, x) && !env.matches(if v.simple then SecretShape else PairingShape, x)
  }

  ghost predicate RequestPermitted(env: Env, v: Variant, cfg: Value, prior: seq<Effect>, e: Effect)
    requires e.Http?
  {
    var base := BaseOf(env, cfg);
    && Validated(env, v, cfg)
    && (|| (IsPairing(v, base, e)
            && NoRequest(prior)
            && if v.simple
               then e.post && e.auth.None? && env.matches(TokenShape, Text(env.field(cfg, KeyTicket)))
                    && e.json == [(KeyVersion, "1"), (KeyTicket, Text(env.field(cfg, KeyTicket)))]
               else !e.post && e.auth == Some("Bearer " + TokenOf(env, cfg)) && e.json == [])
        || (IsTransfer(base, e)
            && NoTransfer(base, prior)
            && (exists t :: TokenInUse(env, v, cfg, prior, t) && e.auth == Some("Bearer " + t))
            && if v.send
               then e.post && NoRequest(prior) && |e.json| == 1 && e.json[0].0 == KeyText
                   && MayPost(env, v, e.json[0].1)
               else !e.post && e.json == []))
  }

  function ConfigHead(): string { "{\"version\":1,\"transport\":\"cloudflare\",\"base_url\":\"" }
  function ConfigMid(): string { "\",\"token\":\"" }
  function ConfigEnd(): string { "\"}" }

  /** The configuration that a simple pairing saves. */
  function NewConfigText(base: string, token: string): string {
    ConfigHead() + (base + (ConfigMid() + (token + ConfigEnd())))
  }

  /** The text that may overwrite the configuration file. */
  ghost predicate MaySave(env: Env, v: Variant, src: Value, prior: seq<Effect>, text: string) {
    var base := BaseOf(env, env.parse(src));
    exists e :: e in prior && GoodPairing(env, v, base, e)
      && if v.simple then text == ConfigHead() + (base + (ConfigMid() + (ReplyText(env, e, KeyToken) + ConfigEnd())))
         else text == Text(src) && env.matches(PairingShape, text)
  }

  /** Clearing the consumed pairing data: only straight after the saved file was read back;
      for the simple entry with the new token in it, and only if nothing was shared. */
  ghost predicate MayClear(env: Env, v: Variant, base: string, prior: seq<Effect>) {
    var n := |prior|;
    && n >= 2 && prior[n - 2].Saved? && prior[n - 1].Opened? && prior[n - 1].value.Has?
    && (v.simple ==>
          && env.share.Missing?
          && exists e :: e in prior && GoodPairing(env, v, base, e)
               && env.exactly(ReplyText(env, e, KeyToken), Text(env.field(env.parse(prior[n - 1].value), KeyToken))))
  }

  /** Receiving: only a pull, straight after its transfer was answered well with text. */
  predicate MayReceive(env: Env, v: Variant, base: string, prior: seq<Effect>, value: Value) {
    && !v.send && prior != []
    && var e := prior[|prior| - 1];
       && IsTransfer(base, e) && OkReply(env, e)
       && value == env.field(env.parse(e.reply), KeyText)
       && if v.simple then env.matches(NonEmpty, Text(value)) else value.Has?
  }

  ghost predicate Permitted(env: Env, v: Variant, src: Value, prior: seq<Effect>, e: Effect) {
    var cfg := env.parse(src);
    match e
    case Http(_, _, _, _, _) => RequestPermitted(env, v, cfg, prior, e)
    case Saved(text) => MaySave(env, v, src, prior, text)
    case ClipboardSet(value) =>
      || (value == Has("") && MayClear(env, v, BaseOf(env, cfg), prior))
      || MayReceive(env, v, BaseOf(env, cfg), prior, value)
    case Notify(m, _) => m == Delivered ==> exists t :: t in prior && GoodTransfer(env, BaseOf(env, cfg), t)
    case _ => true
  }

  ghost predicate PermittedAt(env: Env, v: Variant, src: Value, log: seq<Effect>, k: nat)
    requires k < |log|
  {
    Permitted(env, v, src, log[..k], log[k])
  }

  /** Every effect of a run is permitted, given those before it. `src` is the configuration
      text the run works with. */
  ghost predicate Safe(env: Env, v: Variant, src: Value, log: seq<Effect>) {
    forall k: nat | k < |log| :: PermittedAt(env, v, src, log, k)
  }

  lemma SafeSnoc(env: Env, v: Variant, src: Value, log: seq<Effect>, e: Effect)
    requires Safe(env, v, src, log) && Permitted(env, v, src, log, e)
    ensures Safe(env, v, src, log + [e])
  {
    var log' := log + [e];
    forall k: nat | k < |log'|
      ensures PermittedAt(env, v, src, log', k)
    {
      assert log'[..k] == if k < |log| then log[..k] else log;
      assert k < |log| ==> PermittedAt(env, v, src, log, k);
    }
  }

  // ----- the verbs, run once for all -----

  lemma Step(env: Env, p: Prog, st: St)
    requires p.Cons? && !st.stopped
    ensures Run(env, p, st) == Run(env, p.tail, RunStmt(env, p.head, st))
  {
  }

  lemma SpellOne(env: Env, st: St, a: Piece)
    ensures Spell(env, st, [a]) == PieceText(env, st, a)
  {
    assert [a][1..] == [];
  }

  lemma SpellTwo(env: Env, st: St, a: Piece, b: Piece)
    ensures Spell(env, st, [a, b]) == PieceText(env, st, a) + PieceText(env, st, b)
  {
    assert [a, b][1..] == [b];
    SpellOne(env, st, b);
  }

  /** What a stopping branch leaves: one notice. */
  lemma StopRuns(env: Env, l: Label, message: Message, about: Option<Ref>, rest: Prog, st: St)
    requires !st.stopped && !st.dangling && (about.Some? ==> RefIn(about.value, st.out.Keys))
    ensures var done := Run(env, StopWith(l, message, about, rest), st);
            && done.stopped && !done.dangling
            && done.log == st.log + [Notify(message, if about.Some? then Text(Look(env, st, about.value)) else "")]
  {
    var p := StopWith(l, message, about, rest);
    Step(env, p, st);
    var told := RunStmt(env, p.head, st);
    Step(env, p.tail, told);
    var halted := RunStmt(env, p.tail.head, told);
    assert Run(env, rest, halted) == halted;
  }

  /** A notice that something is missing or wrong. */
  predicate IsNotice(e: Effect) {
    e.Notify? && e.message != Delivered
  }

  /** A run that ended with one more notice and nothing else. */
  predicate StoppedWithNotice(before: seq<Effect>, done: St) {
    && done.stopped && !done.dangling && |done.log| == |before| + 1
    && done.log[..|before|] == before && IsNotice(done.log[|before|])
  }

  /** The outputs that others refer to (actions, group results, parsed replies), save those of `n`, are as they were. */
  ghost predicate Same(st: St, next: St, n: Name) {
    forall m | m != n ::
      && (Word(m) in st.out ==> Word(m) in next.out && next.out[Word(m)] == st.out[Word(m)])
      && (ResultId(Word(m)) in st.out ==>
          && ResultId(Word(m)) in next.out
          && next.out[ResultId(Word(m))] == st.out[ResultId(Word(m))])
      && (Sub(Word(m), Response) in st.out ==>
          && Sub(Word(m), Response) in next.out
          && next.out[Sub(Word(m), Response)] == st.out[Sub(Word(m), Response)])
  }

  lemma SameTrans(a: St, b: St, c: St, n: Name)
    requires Same(a, b, n) && Same(b, c, n)
    ensures Same(a, c, n)
  {
  }

  /** One action, with what it leaves. */
  lemma ActRuns(env: Env, id: Label, op: Op, rest: Prog, st: St) returns (next: St)
    requires !st.stopped
    ensures Run(env, Cons(Act(id, op), rest), st) == Run(env, rest, next)
    ensures !next.stopped && next.dangling == (st.dangling || !RefsIn(op, st.out.Keys))
    ensures next.out == st.out[id := Perform(env, st, op).0] && next.last == Perform(env, st, op).0
    ensures next.log == st.log + Perform(env, st, op).1
    ensures id.Word? ==> Same(st, next, id.name)
    ensures id.Sub? && id.parent.Word? && id.part != End ==> Same(st, next, id.parent.name)
  {
    next := Exec(env, st, id, op);
  }

  lemma StopIfRuns(env: Env, n: Name, subject: Ref, cond: Condition, stopLabel: Label, message: Message, rest: Prog,
                   st: St) returns (next: St)
    requires !st.stopped && !st.dangling && RefIn(subject, st.out.Keys) && message != Delivered
    ensures var done := Run(env, StopIf(Word(n), subject, cond, stopLabel, message, rest), st);
            if Holds(env, st, subject, cond)
            then StoppedWithNotice(st.log, done) && done.log == st.log + [Notify(message, "")]
            else done == Run(env, rest, next)
    ensures next == Leave(Enter(st, subject), Word(n))
    ensures Same(st, next, n) && next.log == st.log && !next.stopped && !next.dangling
  {
    var p := StopIf(Word(n), subject, cond, stopLabel, message, rest);
    Step(env, p, st);
    StopRuns(env, stopLabel, message, None, Nil, Enter(st, subject));
    next := Leave(Enter(st, subject), Word(n));
    if Holds(env, st, subject, cond) {
      assert Run(env, rest, RunStmt(env, p.head, st)) == RunStmt(env, p.head, st);
    }
  }

  /** After `require` the value matches, or the run has stopped with a notice. */
  lemma RequireRuns(env: Env, n: Name, v: Ref, pattern: Pattern, message: Message, rest: Prog, st: St)
    returns (next: St)
    requires !st.stopped && !st.dangling && RefIn(v, st.out.Keys) && message != Delivered
    ensures var done := Run(env, Require(Word(n), v, pattern, message, rest), st);
            if env.matches(pattern, Text(Look(env, st, v))) then done == Run(env, rest, next)
            else StoppedWithNotice(st.log, done) && done.log == st.log + [Notify(message, "")]
    ensures Same(st, next, n) && next.log == st.log && !next.stopped && !next.dangling
  {
    var p := Require(Word(n), v, pattern, message, rest);
    Step(env, p, st);
    var mid := Exec(env, st, Sub(Word(n), Match), MatchText(v, pattern));
    assert mid.log == st.log;
    next := StopIfRuns(env, n, Out(Sub(Word(n), Match)), NoValue, Word(n), message, rest, mid);
  }

  function AuthText(env: Env, st: St, token: Ref, body: Body): Option<string> {
    if body.TicketBody? then None else Some("Bearer " + Text(Look(env, st, token)))
  }

  function JsonText(env: Env, st: St, body: Body): seq<(Key, string)> {
    match body
    case NoBody => []
    case TextBody(p) => [(KeyText, Text(Look(env, st, p)))]
    case TicketBody(t) => [(KeyVersion, "1"), (KeyTicket, Text(Look(env, st, t)))]
  }

  /** The effect of a request. */
  function RequestEffect(env: Env, st: St, base: Ref, token: Ref, path: string, body: Body): Effect {
    var url := Text(Look(env, st, base)) + path;
    Http(url, !body.NoBody?, AuthText(env, st, token, body), JsonText(env, st, body), env.reply(st.log, url))
  }

  predicate RequestRefs(st: St, base: Ref, token: Ref, body: Body) {
    && RefIn(base, st.out.Keys)
    && match body
       case NoBody => RefIn(token, st.out.Keys)
       case TextBody(p) => RefIn(token, st.out.Keys) && RefIn(p, st.out.Keys)
       case TicketBody(t) => RefIn(t, st.out.Keys)
  }

  lemma JsonSpells(env: Env, st: St, body: Body)
    ensures SpellFields(env, st, JsonOf(body)) == JsonText(env, st, body)
  {
    var json := JsonOf(body);
    match body
    case NoBody =>
    case TextBody(p) =>
      SpellOne(env, st, Tok(p));
      assert json[1..] == [];
    case TicketBody(t) =>
      SpellOne(env, st, Lit("1"));
      SpellOne(env, st, Tok(t));
      var rest := json[1..];
      assert rest == [(KeyTicket, [Tok(t)])] && rest[1..] == [];
      assert SpellFields(env, st, rest) == [(KeyTicket, Text(Look(env, st, t)))];
  }

  lemma DownloadPerforms(env: Env, l: Label, token: Ref, body: Body, st: St)
    requires Sub(l, Url) in st.out
    ensures var url := Text(st.out[Sub(l, Url)]);
            var reply := env.reply(st.log, url);
            Perform(env, st, DownloadOp(l, token, body)) ==
            (reply, [Http(url, !body.NoBody?, AuthText(env, st, token, body), JsonText(env, st, body), reply)])
  {
    JsonSpells(env, st, body);
    SpellTwo(env, st, Lit("Bearer "), Tok(token));
  }

  lemma DownloadRefs(l: Label, token: Ref, body: Body, st: St)
    requires Sub(l, Url) in st.out && (body.TicketBody? || RefIn(token, st.out.Keys))
    requires body.TextBody? ==> RefIn(body.payload, st.out.Keys)
    requires body.TicketBody? ==> RefIn(body.ticket, st.out.Keys)
    ensures RefsIn(DownloadOp(l, token, body), st.out.Keys)
  {
    forall f | f in JsonOf(body)
      ensures PiecesIn(f.1, st.out.Keys)
    {
    }
  }

  /** The first two actions of a request: its address. */
  lemma AddressRuns(env: Env, n: Name, base: Ref, path: string, rest: Prog, st: St) returns (next: St)
    requires !st.stopped && !st.dangling && RefIn(base, st.out.Keys)
    ensures var l := Word(n);
            var url := Cons(Act(Sub(l, Url), MakeUrl(Out(Sub(l, Address)))), rest);
            Run(env, Cons(Act(Sub(l, Address), GetText([Tok(base), Lit(path)])), url), st) == Run(env, rest, next)
    ensures var url := Has(Text(Look(env, st, base)) + path);
            next.out == st.out[Sub(Word(n), Address) := url][Sub(Word(n), Url) := url]
    ensures next.log == st.log && !next.stopped && !next.dangling && Same(st, next, n)
  {
    var l := Word(n);
    SpellTwo(env, st, Tok(base), Lit(path));
    var url := Cons(Act(Sub(l, Url), MakeUrl(Out(Sub(l, Address)))), rest);
    var mid := ActRuns(env, Sub(l, Address), GetText([Tok(base), Lit(path)]), url, st);
    assert mid.log == st.log;
    next := ActRuns(env, Sub(l, Url), MakeUrl(Out(Sub(l, Address))), rest, mid);
    SameTrans(st, mid, next, n);
  }

  /** The first three actions of a request. */
  lemma FetchRuns(env: Env, n: Name, base: Ref, token: Ref, path: string, body: Body, rest: Prog, st: St)
    returns (next: St)
    requires !st.stopped && !st.dangling && RequestRefs(st, base, token, body)
    requires forall part ::
             && token != Out(Sub(Word(n), part)) && body != TextBody(Out(Sub(Word(n), part)))
             && body != TicketBody(Out(Sub(Word(n), part)))
    ensures var e := RequestEffect(env, st, base, token, path, body);
            && Run(env, Request(Word(n), base, token, path, body, rest), st)
                == Run(env, CheckReply(Word(n), rest), next)
            && next.log == st.log + [e] && !next.stopped && !next.dangling && Same(st, next, n)
            && Sub(Word(n), Fetch) in next.out && next.out[Sub(Word(n), Fetch)] == e.reply
  {
    var l := Word(n);
    var fetch := Cons(Act(Sub(l, Fetch), DownloadOp(l, token, body)), CheckReply(l, rest));
    var mid := AddressRuns(env, n, base, path, fetch, st);
    DownloadPerforms(env, l, token, body, mid);
    DownloadRefs(l, token, body, mid);
    assert AuthText(env, mid, token, body) == AuthText(env, st, token, body);
    assert JsonText(env, mid, body) == JsonText(env, st, body);
    next := ActRuns(env, Sub(l, Fetch), DownloadOp(l, token, body), CheckReply(l, rest), mid);
    SameTrans(st, mid, next, n);
  }

  /** What the user is told when a request was not answered well. */
  function ErrorNotice(env: Env, reply: Value): Effect {
    var text := env.field(reply, KeyErrorMessage);
    if text.Has? then Notify(ServerSays, text.text) else Notify(BadReply, "")
  }

  /** A run that ended with this very notice. */
  predicate StoppedSaying(before: seq<Effect>, e: Effect, done: St) {
    StoppedWithNotice(before, done) && done.log == before + [e]
  }

  lemma ErrorBranchStops(env: Env, l: Label, st: St)
    requires !st.stopped && !st.dangling && Sub(l, Response) in st.out
    ensures StoppedSaying(st.log, ErrorNotice(env, st.out[Sub(l, Response)]), Run(env, ErrorBranchOf(l), st))
  {
    var p := ErrorBranchOf(l);
    Step(env, p, st);
    var s1 := Exec(env, st, Sub(l, ErrorField), FieldOf(Out(Sub(l, Response)), KeyErrorMessage));
    Step(env, p.tail, s1);
    assert s1.log == st.log;
    var inner := Enter(s1, Out(Sub(l, ErrorField)));
    StopRuns(env, Sub(l, ApiError), ServerSays, Some(Out(Sub(l, ErrorField))), Nil, inner);
    StopRuns(env, Sub(l, InvalidResponse), BadReply, None, Nil, inner);
    assert RunStmt(env, p.tail.head, s1).stopped;
  }

  /** The boolean group of a request: on, or stopped. */
  lemma OkBranchRuns(env: Env, n: Name, rest: Prog, st: St) returns (next: St)
    requires !st.stopped && !st.dangling && Sub(Word(n), Response) in st.out && Sub(Word(n), OkField) in st.out
    ensures var l := Word(n);
            var go := Cons(Act(Sub(l, Continue), Nothing), Nil);
            var p := Cons(If(Sub(l, OkBranch), Out(Sub(l, OkField)), IsTrue, go, true, ErrorBranchOf(l)), rest);
            if env.truth(st.out[Sub(l, OkField)]) then Run(env, p, st) == Run(env, rest, next)
            else StoppedSaying(st.log, ErrorNotice(env, st.out[Sub(l, Response)]), Run(env, p, st))
    ensures Same(st, next, n) && next.log == st.log && !next.stopped && !next.dangling
    ensures Sub(Word(n), Response) in next.out && next.out[Sub(Word(n), Response)] == st.out[Sub(Word(n), Response)]
  {
    var l := Word(n);
    var go := Cons(Act(Sub(l, Continue), Nothing), Nil);
    var p := Cons(If(Sub(l, OkBranch), Out(Sub(l, OkField)), IsTrue, go, true, ErrorBranchOf(l)), rest);
    var inner := Enter(st, Out(Sub(l, OkField)));
    var taken := ActRuns(env, Sub(l, Continue), Nothing, Nil, inner);
    next := Leave(taken, Sub(l, OkBranch));
    ErrorBranchStops(env, l, inner);
    BranchRuns(env, p, st, taken, Run(env, ErrorBranchOf(l), inner));
    SameTrans(st, inner, taken, n);
    SameTrans(st, taken, next, n);
  }

  lemma CheckReplyRuns(env: Env, n: Name, rest: Prog, st: St) returns (next: St)
    requires !st.stopped && !st.dangling && Sub(Word(n), Fetch) in st.out
    ensures var parsed := env.parse(st.out[Sub(Word(n), Fetch)]);
            var done := Run(env, CheckReply(Word(n), rest), st);
            && (if env.truth(env.field(parsed, KeyOk)) then done == Run(env, rest, next)
                else StoppedSaying(st.log, ErrorNotice(env, parsed), done))
            && Sub(Word(n), Response) in next.out && next.out[Sub(Word(n), Response)] == parsed
    ensures Same(st, next, n) && next.log == st.log && !next.stopped && !next.dangling
  {
    var l := Word(n);
    var go := Cons(Act(Sub(l, Continue), Nothing), Nil);
    var branch := Cons(If(Sub(l, OkBranch), Out(Sub(l, OkField)), IsTrue, go, true, ErrorBranchOf(l)), rest);
    var ok := Cons(Act(Sub(l, OkField), FieldOf(Out(Sub(l, Response)), KeyOk)), branch);
    var s1 := ActRuns(env, Sub(l, Response), DetectDictionary(Out(Sub(l, Fetch))), ok, st);
    var s2 := ActRuns(env, Sub(l, OkField), FieldOf(Out(Sub(l, Response)), KeyOk), branch, s1);
    next := OkBranchRuns(env, n, rest, s2);
    SameTrans(st, s1, s2, n);
    SameTrans(st, s2, next, n);
  }

  /** A group with both branches, of which the second stops. */
  lemma BranchRuns(env: Env, p: Prog, st: St, taken: St, other: St)
    requires p.Cons? && p.head.If? && p.head.hasElse && !st.stopped && !taken.stopped && other.stopped
    requires taken == Run(env, p.head.thn, Enter(st, p.head.subject))
    requires other == Run(env, p.head.els, Enter(st, p.head.subject))
    ensures Run(env, p, st) ==
            if Holds(env, st, p.head.subject, p.head.cond) then Run(env, p.tail, Leave(taken, p.head.group)) else other
  {
    Step(env, p, st);
    assert Run(env, p.tail, other) == other;
  }

  /** The end of a run whose request was not answered well: the request and a notice. */
  predicate StoppedAfter(env: Env, before: seq<Effect>, e: Effect, done: St)
    requires e.Http?
  {
    done.stopped && !done.dangling && done.log == before + [e] + [ErrorNotice(env, env.parse(e.reply))]
  }

  lemma RequestRuns(env: Env, n: Name, base: Ref, token: Ref, path: string, body: Body, rest: Prog, st: St)
    returns (next: St)
    requires !st.stopped && !st.dangling && RequestRefs(st, base, token, body)
    requires forall part ::
             && token != Out(Sub(Word(n), part)) && body != TextBody(Out(Sub(Word(n), part)))
             && body != TicketBody(Out(Sub(Word(n), part)))
    ensures var e := RequestEffect(env, st, base, token, path, body);
            var done := Run(env, Request(Word(n), base, token, path, body, rest), st);
            && (if OkReply(env, e) then done == Run(env, rest, next) else StoppedAfter(env, st.log, e, done))
            && next.log == st.log + [e]
            && Sub(Word(n), Response) in next.out && next.out[Sub(Word(n), Response)] == env.parse(e.reply)
    ensures Same(st, next, n) && !next.stopped && !next.dangling
  {
    var mid := FetchRuns(env, n, base, token, path, body, rest, st);
    next := CheckReplyRuns(env, n, rest, mid);
  }

  /** The state of a run that has kept to the rules. */
  ghost predicate Good(env: Env, v: Variant, src: Value, done: St) {
    Safe(env, v, src, done.log) && !done.dangling
  }

  /** Whether a pull takes the reply's text: the simple one if it is not empty, the Tailscale
      one if there is any. */
  predicate Takes(env: Env, v: Variant, text: Value) {
    if v.simple then env.matches(NonEmpty, Text(text)) else text.Has?
  }

  /** All that follows a transfer that was answered well, to the end of the run. */
  function Ending(env: Env, v: Variant, e: Effect): seq<Effect>
    requires e.Http?
  {
    var reply := env.parse(e.reply);
    var text := env.field(reply, KeyText);
    var told := Notify(Delivered, Text(env.field(reply, KeyDeviceName)));
    if v.send then [told]
    else if Takes(env, v, text) then [ClipboardSet(text), told]
    else [Notify(DesktopEmpty, "")]
  }

  ghost predicate EndsSo(env: Env, v: Variant, base: string, log: seq<Effect>) {
    forall k: nat | k < |log| && GoodTransfer(env, base, log[k]) :: log[k + 1..] == Ending(env, v, log[k])
  }

  /** The end of a whole run: the rules kept, everything after a good transfer exactly as it
      should be, and a notice as the last effect. */
  ghost predicate Ended(env: Env, v: Variant, src: Value, done: St) {
    && Good(env, v, src, done) && EndsSo(env, v, BaseOf(env, env.parse(src)), done.log)
    && done.log != [] && done.log[|done.log| - 1].Notify?
  }

  lemma NoticeEnds(env: Env, v: Variant, src: Value, before: seq<Effect>, done: St)
    requires Safe(env, v, src, before) && NoTransfer(BaseOf(env, env.parse(src)), before)
             && StoppedWithNotice(before, done)
    ensures Ended(env, v, src, done)
  {
    var e := done.log[|before|];
    assert done.log == before + [e];
    SafeSnoc(env, v, src, before, e);
    forall k: nat | k < |done.log|
      ensures !IsTransfer(BaseOf(env, env.parse(src)), done.log[k])
    {
      assert k < |before| ==> done.log[k] == before[k] && before[k] in before;
    }
  }

  lemma BadReplyEnds(env: Env, v: Variant, src: Value, before: seq<Effect>, e: Effect, done: St)
    requires Safe(env, v, src, before + [e]) && NoTransfer(BaseOf(env, env.parse(src)), before)
    requires e.Http? && !OkReply(env, e) && StoppedAfter(env, before, e, done)
    ensures Ended(env, v, src, done)
  {
    SafeSnoc(env, v, src, before + [e], ErrorNotice(env, env.parse(e.reply)));
    forall k: nat | k < |done.log|
      ensures !GoodTransfer(env, BaseOf(env, env.parse(src)), done.log[k])
    {
      assert k < |before| ==> done.log[k] == before[k] && before[k] in before;
    }
  }

  /** A run that stopped quietly, before any request. */
  lemma QuietEnds(env: Env, v: Variant, src: Value, done: St)
    requires AllQuiet(done.log) && !done.dangling && done.log != [] && done.log[|done.log| - 1].Notify?
    ensures Ended(env, v, src, done)
  {
    QuietIsSafe(env, v, src, done.log);
    forall k: nat | k < |done.log|
      ensures !done.log[k].Http?
    {
      assert done.log[k] in done.log;
    }
  }

  lemma FinishRuns(env: Env, st: St)
    requires !st.stopped && !st.dangling && Sub(Word(Transfer), Response) in st.out
    ensures var done := Run(env, Finish(), st);
            && !done.dangling
            && done.log
                == st.log + [Notify(Delivered, Text(env.field(st.out[Sub(Word(Transfer), Response)], KeyDeviceName)))]
  {
    var last := Cons(Act(Word(Success), Notification(Delivered, Some(W(DeviceName)))), Nil);
    var s1 := ActRuns(env, Word(DeviceName), FieldOf(Out(Sub(Word(Transfer), Response)), KeyDeviceName), last, st);
    assert s1.log == st.log;
    var s2 := ActRuns(env, Word(Success), Notification(Delivered, Some(W(DeviceName))), Nil, s1);
  }

  lemma ToldIsPermitted(env: Env, v: Variant, src: Value, log: seq<Effect>, e: Effect, detail: string)
    requires Safe(env, v, src, log) && e in log && GoodTransfer(env, BaseOf(env, env.parse(src)), e)
    ensures Safe(env, v, src, log + [Notify(Delivered, detail)])
  {
    SafeSnoc(env, v, src, log, Notify(Delivered, detail));
  }

  lemma EndingIsSafe(env: Env, v: Variant, src: Value, before: seq<Effect>, e: Effect)
    requires Safe(env, v, src, before + [e]) && GoodTransfer(env, BaseOf(env, env.parse(src)), e)
    ensures Safe(env, v, src, before + [e] + Ending(env, v, e))
  {
    var log := before + [e];
    var reply := env.parse(e.reply);
    var text := env.field(reply, KeyText);
    var device := Text(env.field(reply, KeyDeviceName));
    assert log[|log| - 1] == e && e in log;
    if v.send {
      ToldIsPermitted(env, v, src, log, e, device);
    } else if Takes(env, v, text) {
      assert MayReceive(env, v, BaseOf(env, env.parse(src)), log, text);
      SafeSnoc(env, v, src, log, ClipboardSet(text));
      ToldIsPermitted(env, v, src, log + [ClipboardSet(text)], e, device);
      assert log + Ending(env, v, e) == log + [ClipboardSet(text)] + [Notify(Delivered, device)];
    } else {
      SafeSnoc(env, v, src, log, Notify(DesktopEmpty, ""));
    }
  }

  /** Only one effect of a run that made one transfer is a transfer. */
  lemma OnlyTransfer(env: Env, v: Variant, base: string, before: seq<Effect>, e: Effect)
    requires NoTransfer(base, before) && e.Http?
    ensures var log := before + [e] + Ending(env, v, e);
            forall k | 0 <= k < |log| && k != |before| :: !IsTransfer(base, log[k])
  {
    var log := before + [e] + Ending(env, v, e);
    forall k | 0 <= k < |log| && k != |before|
      ensures !IsTransfer(base, log[k])
    {
      if k < |before| {
        assert log[k] == before[k] && before[k] in before;
      } else {
        assert log[k] == Ending(env, v, e)[k - |before| - 1];
      }
    }
  }

  /** After a good transfer and its ending the run has ended. */
  lemma EndingEnds(env: Env, v: Variant, src: Value, before: seq<Effect>, e: Effect, done: St)
    requires Safe(env, v, src, before + [e]) && NoTransfer(BaseOf(env, env.parse(src)), before)
    requires GoodTransfer(env, BaseOf(env, env.parse(src)), e) && !done.dangling
             && done.log == before + [e] + Ending(env, v, e)
    ensures Ended(env, v, src, done)
  {
    var base := BaseOf(env, env.parse(src));
    EndingIsSafe(env, v, src, before, e);
    OnlyTransfer(env, v, base, before, e);
    assert done.log[|before| + 1..] == Ending(env, v, e);
    assert EndsSo(env, v, base, done.log);
  }

  lemma PathsDiffer(base: string)
    ensures base + StatusPath() != base + TransferPath() && base + PairPath() != base + TransferPath()
  {
    assert |base + StatusPath()| != |base + TransferPath()| && |base + PairPath()| != |base + TransferPath()|;
  }

  /** The state just after a good transfer, the last effect so far. */
  ghost predicate Transferred(env: Env, v: Variant, src: Value, st: St) {
    && Good(env, v, src, st) && !st.stopped && st.log != []
    && NoTransfer(BaseOf(env, env.parse(src)), st.log[..|st.log| - 1])
    && var e := st.log[|st.log| - 1];
       && GoodTransfer(env, BaseOf(env, env.parse(src)), e)
       && Sub(Word(Transfer), Response) in st.out && st.out[Sub(Word(Transfer), Response)] == env.parse(e.reply)
  }

  lemma TransferredEnds(env: Env, v: Variant, src: Value, st: St, done: St)
    requires Transferred(env, v, src, st) && !done.dangling && done.log == st.log + Ending(env, v, st.log[|st.log| - 1])
    ensures Ended(env, v, src, done)
  {
    var n := |st.log| - 1;
    assert st.log == st.log[..n] + [st.log[n]];
    EndingEnds(env, v, src, st.log[..n], st.log[n], done);
  }

  lemma FinishEnds(env: Env, v: Variant, src: Value, st: St)
    requires Transferred(env, v, src, st) && v.send
    ensures Ended(env, v, src, Run(env, Finish(), st))
  {
    FinishRuns(env, st);
    TransferredEnds(env, v, src, st, Run(env, Finish(), st));
  }

  /** The received text is set and the end told; `st` may have run on from `start` quietly. */
  lemma SetReceivedEnds(env: Env, v: Variant, src: Value, n: Name, start: St, st: St)
    requires Transferred(env, v, src, start) && !v.send && st.log == start.log && !st.stopped && !st.dangling
    requires Sub(Word(Transfer), Response) in st.out
    requires st.out[Sub(Word(Transfer), Response)] == start.out[Sub(Word(Transfer), Response)]
    requires var text := env.field(st.out[Sub(Word(Transfer), Response)], KeyText);
             Word(n) in st.out && st.out[Word(n)] == text && Takes(env, v, text)
    ensures Ended(env, v, src, Run(env, SetReceived(n), st))
  {
    var next := ActRuns(env, Word(ReceivedClipboard), Op.SetClipboard(W(n)), Finish(), st);
    FinishRuns(env, next);
    TransferredEnds(env, v, src, start, Run(env, SetReceived(n), st));
  }

  /** Nothing taken: the pull ends with its notice. */
  lemma NothingTakenEnds(env: Env, v: Variant, src: Value, start: St, done: St)
    requires Transferred(env, v, src, start) && !v.send && !done.dangling
    requires !Takes(env, v, env.field(start.out[Sub(Word(Transfer), Response)], KeyText))
    requires done.log == start.log + [Notify(DesktopEmpty, "")]
    ensures Ended(env, v, src, done)
  {
    TransferredEnds(env, v, src, start, done);
  }

  /** A transfer request, given what follows it ends well. */
  lemma TransferGood(env: Env, v: Variant, src: Value, base: Ref, token: Ref, body: Body, rest: Prog, st: St)
    returns (next: St)
    requires Good(env, v, src, st) && !st.stopped && RequestRefs(st, base, token, body)
    requires NoTransfer(BaseOf(env, env.parse(src)), st.log)
    requires forall part ::
               && token != Out(Sub(Word(Transfer), part))
               && body != TextBody(Out(Sub(Word(Transfer), part))) && body != TicketBody(Out(Sub(Word(Transfer), part)))
    requires Text(Look(env, st, base)) == BaseOf(env, env.parse(src))
    requires Permitted(env, v, src, st.log, RequestEffect(env, st, base, token, TransferPath(), body))
    ensures var e := RequestEffect(env, st, base, token, TransferPath(), body);
            var done := Run(env, Request(Word(Transfer), base, token, TransferPath(), body, rest), st);
            if OkReply(env, e) then Transferred(env, v, src, next) && done == Run(env, rest, next)
            else Ended(env, v, src, done)
  {
    var e := RequestEffect(env, st, base, token, TransferPath(), body);
    SafeSnoc(env, v, src, st.log, e);
    next := RequestRuns(env, Transfer, base, token, TransferPath(), body, rest, st);
    assert (st.log + [e])[..|st.log|] == st.log;
    if !OkReply(env, e) {
      BadReplyEnds(env, v, src, st.log, e,
                   Run(env, Request(Word(Transfer), base, token, TransferPath(), body, rest), st));
    }
  }

  /** As Same, for several names. */
  ghost predicate Kept(st: St, next: St, changed: set<Name>) {
    forall m | m !in changed ::
      && (Word(m) in st.out ==> Word(m) in next.out && next.out[Word(m)] == st.out[Word(m)])
      && (ResultId(Word(m)) in st.out ==>
          && ResultId(Word(m)) in next.out
          && next.out[ResultId(Word(m))] == st.out[ResultId(Word(m))])
      && (Sub(Word(m), Response) in st.out ==>
          && Sub(Word(m), Response) in next.out
          && next.out[Sub(Word(m), Response)] == st.out[Sub(Word(m), Response)])
  }

  /** A choice between two one-action branches. */
  lemma ChoiceRuns(env: Env, n: Name, subject: Ref, yes: Name, yesOp: Op, no: Name, noOp: Op, rest: Prog, st: St)
    returns (next: St)
    requires !st.stopped && !st.dangling && RefIn(subject, st.out.Keys)
    requires RefsIn(yesOp, st.out.Keys) && RefsIn(noOp, st.out.Keys)
    requires Perform(env, Enter(st, subject), yesOp).1 == [] && Perform(env, Enter(st, subject), noOp).1 == []
    ensures var p :=
            Cons(If(Word(n), subject, HasValue, Cons(Act(Word(yes), yesOp), Nil), true,
                    Cons(Act(Word(no), noOp), Nil)), rest);
            Run(env, p, st) == Run(env, rest, next)
    ensures next.log == st.log && !next.stopped && !next.dangling
    ensures Kept(st, next, {n, yes, no})
    ensures ResultId(Word(n)) in next.out
    ensures next.out[ResultId(Word(n))] ==
            Perform(env, Enter(st, subject), if Holds(env, st, subject, HasValue) then yesOp else noOp).0
  {
    var inner := Enter(st, subject);
    var chosen: St;
    if Holds(env, st, subject, HasValue) {
      chosen := ActRuns(env, Word(yes), yesOp, Nil, inner);
    } else {
      chosen := ActRuns(env, Word(no), noOp, Nil, inner);
    }
    next := Leave(chosen, Word(n));
    assert chosen.log == st.log;
    var p := Cons(If(Word(n), subject, HasValue, Cons(Act(Word(yes), yesOp), Nil), true,
                     Cons(Act(Word(no), noOp), Nil)), rest);
    Step(env, p, st);
  }

  /** A group without else branch, then what follows it. */
  lemma IfRuns(env: Env, n: Name, subject: Ref, cond: Condition, branch: Prog, rest: Prog, st: St) returns (done: St)
    requires !st.stopped
    ensures done == if Holds(env, st, subject, cond) then Run(env, branch, Enter(st, subject)) else Enter(st, subject)
    ensures Run(env, Cons(If(Word(n), subject, cond, branch, false, Nil), rest), st)
         == if done.stopped then done else Run(env, rest, Leave(done, Word(n)))
  {
    var p := Cons(If(Word(n), subject, cond, branch, false, Nil), rest);
    Step(env, p, st);
    done := if Holds(env, st, subject, cond) then Run(env, branch, Enter(st, subject)) else Enter(st, subject);
    if done.stopped {
      assert Run(env, rest, done) == done;
    }
  }

  /** A group with two branches, then what follows it. */
  lemma EitherRuns(env: Env, n: Name, subject: Ref, cond: Condition, yes: Prog, no: Prog, rest: Prog, st: St)
    returns (done: St)
    requires !st.stopped
    ensures done ==
            if Holds(env, st, subject, cond) then Run(env, yes, Enter(st, subject))
            else Run(env, no, Enter(st, subject))
    ensures Run(env, Cons(If(Word(n), subject, cond, yes, true, no), rest), st)
         == if done.stopped then done else Run(env, rest, Leave(done, Word(n)))
  {
    var p := Cons(If(Word(n), subject, cond, yes, true, no), rest);
    Step(env, p, st);
    done := if Holds(env, st, subject, cond) then Run(env, yes, Enter(st, subject))
            else Run(env, no, Enter(st, subject));
    if done.stopped {
      assert Run(env, rest, done) == done;
    }
  }

  /** Nothing but quiet effects so far, which no configuration text can make wrong. */
  predicate AllQuiet(log: seq<Effect>) {
    forall e | e in log :: IsNotice(e) || e.Opened?
  }

  lemma QuietIsSafe(env: Env, v: Variant, src: Value, log: seq<Effect>)
    requires AllQuiet(log)
    ensures Safe(env, v, src, log)
  {
    forall k: nat | k < |log|
      ensures PermittedAt(env, v, src, log, k)
    {
      assert log[k] in log;
    }
  }

  lemma CheckedRuns(env: Env, dict: Ref, f: Name, key: Key, check: Name, pattern: Pattern, rest: Prog, st: St)
    returns (next: St)
    requires !st.stopped && !st.dangling && RefIn(dict, st.out.Keys) && f != check
    ensures var value := env.field(Look(env, st, dict), key);
            var done := Run(env, Checked(dict, f, key, check, pattern, rest), st);
            && (if env.matches(pattern, Text(value)) then done == Run(env, rest, next)
                else StoppedSaying(st.log, Notify(Help, ""), done))
            && Word(f) in next.out && next.out[Word(f)] == value
    ensures Kept(st, next, {f, check}) && next.log == st.log && !next.stopped && !next.dangling
  {
    var need := Require(Word(check), W(f), pattern, Help, rest);
    var s1 := ActRuns(env, Word(f), FieldOf(dict, key), need, st);
    assert s1.log == st.log;
    next := RequireRuns(env, check, W(f), pattern, Help, rest, s1);
  }
}
