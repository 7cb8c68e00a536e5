/** The fields of the simple connection's `Service`, and what each critical section under
    its state lock `mu` does to them. The class at the end is the source's object; its
    methods are the critical sections, and `Protocol` interleaves them. */
module Service {
  import opened Basics

  /** The fields guarded by `mu`. "" is the source's cleared string, None its zero time or
      nil pointer. A runtime is known by its serial number; `api` is the token for which
      the inner API handler was built. */
  datatype Fields = Fields(
    active: bool, ready: bool, paired: bool,
    host: string, session: string, credential: string, ticket: string,
    expires: Option<Time>,
    attempts: nat, attemptWindow: Option<Time>,
    runtime: Option<nat>,
    api: Option<string>)

  const Blank := Fields(false, false, false, "", "", "", "", None, 0, None, None, None)

  const PAIRING_LIFE: Time := 5 * MINUTE
  const ATTEMPT_LIMIT: nat := 30
  const HOST_SUFFIX := ".trycloudflare.com"

  datatype Method = Get | Post | OtherMethod

  datatype Shortcut = SimpleSend | SimplePull

  /** A download is of anything under /shortcuts/; None is a name that is not served. */
  datatype Path =
    | Health
    | Setup(ticket: string)
    | Download(file: Option<Shortcut>)
    | Pair
    | Status
    | Clipboard
    | Elsewhere

  /** What decoding the body of a pairing request yields. */
  datatype PairInput = Malformed | Decoded(version: string, ticket: string, trailing: bool)

  /** `authorization` holds every Authorization header; `foreign` says that an Origin,
      Sec-Fetch-Site or shortcut-client header is present; `complete` that the body
      arrives whole and within its bound. */
  datatype Request = Request(
    verb: Method, path: Path, host: string,
    authorization: seq<string>, foreign: bool,
    complete: bool, body: PairInput)

  /** The clock readings of one pairing request, in the order the source takes them. */
  datatype Readings = Readings(check: Time, stamp: Time, compare: Time)

  datatype Reply =
    | Refused(code: nat)
    | HealthReply(session: string)
    | SetupPage(ticket: string, host: string)
    | File(shortcut: Shortcut)
    | PairedReply(token: string, host: string)
    | Forwarded(api: Option<string>)

  datatype Pairing = Pairing(host: string, ticket: string, expires: Option<Time>)

  /** The zero Pairing of the source. */
  const NoPairing := Pairing("", "", None)

  predicate Before(now: Time, deadline: Option<Time>) {
    deadline.Some? && now < deadline.value
  }

  predicate LabelChar(c: char) {
    'a' <= c <= 'z' || '0' <= c <= '9' || c == '-'
  }

  /** The tunnel hosts Start accepts. */
  predicate ValidHost(host: string) {
    var n := |host| - |HOST_SUFFIX|;
    && 0 < n <= 63
    && host[n..] == HOST_SUFFIX
    && host[0] != '-' && host[n - 1] != '-'
    && forall i | 0 <= i < n :: LabelChar(host[i])
  }

  /** A label of 1 to 63 small letters, digits and hyphens, with none at either end, before the
      one suffix. */
  ghost predicate IsTunnelHost(host: string, name: string) {
    && host == name + ".trycloudflare.com" && 1 <= |name| <= 63
    && name[0] != '-' && name[|name| - 1] != '-'
    && forall c | c in name :: 'a' <= c <= 'z' || '0' <= c <= '9' || c == '-'
  }

  lemma ValidHostExactly(host: string)
    ensures ValidHost(host) <==> exists name :: IsTunnelHost(host, name)
  {
    var n := |host| - |HOST_SUFFIX|;
    if ValidHost(host) {
      assert IsTunnelHost(host, host[..n]);
    }
    forall name | IsTunnelHost(host, name)
      ensures ValidHost(host)
    {
      assert host[..n] == name && host[n..] == ".trycloudflare.com";
      forall i | 0 <= i < n
        ensures LabelChar(host[i])
      {
        assert host[i] in name;
      }
    }
  }

  /** The check of the label, character by character. */
  method CheckHost(host: string) returns (ok: bool)
    ensures ok == ValidHost(host)
  {
    var n := |host| - |HOST_SUFFIX|;
    if n < 0 || host[n..] != HOST_SUFFIX {
      return false;
    }
    if n == 0 || n > 63 || host[0] == '-' || host[n - 1] == '-' {
      return false;
    }
    for i := 0 to n
      invariant forall k | 0 <= k < i :: LabelChar(host[k])
    {
      if !LabelChar(host[i]) {
        return false;
      }
    }
    ok := true;
  }

  function WithCredential(f: Fields, token: string): Fields {
    f.(credential := token, api := Some(token))
  }

  /** The secrets and the session go; `active`, the attempt counter, the runtime and the
      inner API stay. */
  function Cleared(f: Fields): Fields {
    f.(ready := false, paired := false, credential := "", ticket := "",
       host := "", session := "", expires := None)
  }

  predicate PairingPending(f: Fields, now: Time) {
    f.ready && f.ticket != "" && Before(now, f.expires)
  }

  predicate CanOffer(f: Fields) {
    f.ready && f.runtime.Some?
  }

  function Offer(f: Fields, ticket: string, now: Time): Fields {
    f.(ticket := ticket, expires := Some(now + PAIRING_LIFE))
  }

  function Revoked(f: Fields, token: string): Fields {
    WithCredential(f, token).(paired := false, ticket := "", expires := None)
  }

  predicate Authorized(f: Fields, r: Request) {
    && f.paired && f.credential != ""
    && |r.authorization| == 1 && r.authorization[0] == "Bearer " + f.credential
  }

  /** Requests whose body is read outside the lock, after a first check. */
  predicate ReadsBody(r: Request) {
    r.verb.Post? && (r.path.Pair? || r.path.Clipboard?)
  }

  /** A body that does not arrive is answered without a last critical section. */
  predicate BodyFails(r: Request) {
    ReadsBody(r) && !r.complete
  }

  predicate MayReadBody(f: Fields, r: Request) {
    f.active && f.ready && r.host == f.host && (r.path.Pair? || Authorized(f, r))
  }

  /** Whether the request comes as far as the pairing handler. */
  predicate ReachesPairing(f: Fields, r: Request) {
    f.host != "" && r.host == f.host && f.active && f.ready && !r.foreign && r.path.Pair? && r.verb.Post?
  }

  function CountAttempt(f: Fields, clock: Readings): Fields {
    var g := if f.attemptWindow.None? || clock.check - f.attemptWindow.value >= MINUTE
             then f.(attemptWindow := Some(clock.stamp), attempts := 0) else f;
    g.(attempts := g.attempts + 1)
  }

  predicate RedeemsTicket(f: Fields, input: PairInput, now: Time) {
    && input.Decoded? && !input.trailing && input.version == "1"
    && f.ticket != "" && Before(now, f.expires) && input.ticket == f.ticket
  }

  function PairCode(f: Fields, input: PairInput): nat {
    if input.Malformed? || input.trailing || input.version != "1" then 400 else 401
  }

  function PairOutcome(f: Fields, r: Request, clock: Readings, supply: Option<string>): (Fields, Reply) {
    var g := CountAttempt(f, clock);
    if g.attempts > ATTEMPT_LIMIT then (g, Refused(429))
    else if !RedeemsTicket(g, r.body, clock.compare) then (g, Refused(PairCode(g, r.body)))
    else if supply.None? then (g, Refused(500))
    else (WithCredential(g, supply.value).(paired := true, ticket := "", expires := None),
          PairedReply(supply.value, g.host))
  }

  /** The last critical section of every request. */
  function Outcome(f: Fields, r: Request, clock: Readings, supply: Option<string>): (Fields, Reply) {
    if f.host == "" || r.host != f.host then (f, Refused(403))
    else if r.path.Health? && r.verb.Get? then (f, HealthReply(f.session))
    else if !f.active || !f.ready then (f, Refused(503))
    else if r.verb.Get? && r.path.Download? then
      (f, if r.path.file.None? then Refused(404) else File(r.path.file.value))
    else if r.verb.Get? && r.path.Setup? then
      (f, if f.ticket == "" || r.path.ticket != f.ticket || !Before(clock.check, f.expires)
          then Refused(404) else SetupPage(f.ticket, f.host))
    else if r.foreign then (f, Refused(403))
    else if r.path.Pair? then
      if r.verb.Post? then PairOutcome(f, r, clock, supply) else (f, Refused(405))
    else if !r.path.Status? && !r.path.Clipboard? then (f, Refused(404))
    else if !Authorized(f, r) then (f, Refused(401))
    else (f, Forwarded(f.api))
  }

  /** The inner API's own bearer check: the first Authorization header against its token. */
  predicate InnerAccepts(api: Option<string>, r: Request) {
    && api.Some? && |r.authorization| > 0 && r.authorization[0] == "Bearer " + api.value
  }

  /** How the tunnel start ends once the credential is set. */
  datatype StartResult = NoTunnel | BadUrl | Unverified(host: string) | Verified(host: string)

  /** What a whole start does when nothing else runs beside it. */
  function Started(f: Fields, ended: bool, secrets: Option<(string, string)>, rt: nat, result: StartResult)
    : (Fields, bool)
  {
    if f.runtime.Some? && f.ready && !ended then (f, true)
    else
      var g := Cleared(f.(runtime := None));
      if secrets.None? then (g, false)
      else
        var h := WithCredential(g.(session := secrets.value.0), secrets.value.1);
        match result
        case NoTunnel => (Cleared(h), false)
        case BadUrl => (Cleared(h), false)
        case Unverified(host) => (Cleared(h.(host := host, runtime := None)), false)
        case Verified(host) => (h.(host := host, runtime := Some(rt), ready := true), true)
  }

  /** The source's object. Every method but Start is one critical section under `mu`. */
  class SimpleService {
    var active: bool
    var ready: bool
    var paired: bool
    var host: string
    var session: string
    var credential: string
    var ticket: string
    var expires: Option<Time>
    var attempts: nat
    var attemptWindow: Option<Time>
    var runtime: Option<nat>
    var api: Option<string>

    function View(): Fields
      reads this
    {
      Fields(active, ready, paired, host, session, credential, ticket, expires,
             attempts, attemptWindow, runtime, api)
    }

    constructor ()
      ensures View() == Blank
    {
      active, ready, paired := false, false, false;
      host, session, credential, ticket := "", "", "", "";
      expires, attempts, attemptWindow, runtime, api := None, 0, None, None, None;
    }

    method SetCredential(token: string)
      modifies this`credential, this`api
      ensures credential == token && api == Some(token)
      ensures View() == WithCredential(old(View()), token)
    {
      credential := token;
      api := Some(token);
    }

    method SetActive(on: bool)
      modifies this`active
      ensures View() == old(View()).(active := on)
    {
      active := on;
    }

    method NewPairing(now: Time, supply: Option<string>) returns (p: Option<Pairing>)
      modifies this`ticket, this`expires
      ensures p.Some? <==> ready && runtime.Some? && supply.Some?
      ensures p.None? ==> ticket == old(ticket) && expires == old(expires)
      ensures p.Some? ==>
        && ticket == supply.value && expires == Some(now + 300 * SECOND)
        && p.value == Pairing(host, supply.value, Some(now + 300 * SECOND))
      ensures p.Some? <==> CanOffer(old(View())) && supply.Some?
      ensures View() == if p.Some? then Offer(old(View()), supply.value, now) else old(View())
    {
      if !ready || runtime.None? || supply.None? {
        return None;
      }
      ticket := supply.value;
      expires := Some(now + PAIRING_LIFE);
      p := Some(Pairing(host, ticket, expires));
    }

    method Paired() returns (ok: bool)
      ensures ok <==> ready && paired
    {
      ok := ready && paired;
    }

    method Pending(now: Time) returns (ok: bool)
      ensures ok <==> ready && ticket != "" && expires.Some? && now < expires.value
      ensures ok == PairingPending(View(), now)
    {
      ok := ready && ticket != "" && Before(now, expires);
    }

    method Revoke(supply: Option<string>) returns (ok: bool)
      modifies this
      ensures ok <==> supply.Some?
      ensures ok ==>
        View() == old(View()).(credential := supply.value, api := Some(supply.value),
                               paired := false, ticket := "", expires := None)
      ensures View() == if ok then Revoked(old(View()), supply.value) else old(View())
    {
      if supply.None? {
        return false;
      }
      SetCredential(supply.value);
      paired := false;
      ticket := "";
      expires := None;
      ok := true;
    }

    method Clear()
      modifies this
      ensures View() == old(View()).(ready := false, paired := false, credential := "", ticket := "",
                                     host := "", session := "", expires := None)
      ensures View() == Cleared(old(View()))
    {
      ready := false;
      paired := false;
      credential := "";
      ticket := "";
      host := "";
      session := "";
      expires := None;
    }

    /** `ended` says whether the current tunnel's Done channel is closed. */
    method StartBegin(ended: bool) returns (live: bool, previous: Option<nat>)
      modifies this
      ensures live <==> old(runtime.Some? && ready && !ended)
      ensures View() == if live then old(View()) else Cleared(old(View()).(runtime := None))
      ensures previous == if live then None else old(runtime)
    {
      if runtime.Some? && ready && !ended {
        return true, None;
      }
      live, previous := false, runtime;
      runtime := None;
      Clear();
    }

    method StartIssue(newSession: string, token: string)
      modifies this
      ensures View() == old(View()).(session := newSession, credential := token, api := Some(token))
      ensures View() == WithCredential(old(View()).(session := newSession), token)
    {
      session := newSession;
      SetCredential(token);
    }

    method StartAttach(newHost: string, rt: nat)
      modifies this
      ensures View() == old(View()).(host := newHost, runtime := Some(rt))
    {
      host := newHost;
      runtime := Some(rt);
    }

    method StartUnverified(rt: nat)
      modifies this
      ensures View() == if old(runtime) == Some(rt) then Cleared(old(View()).(runtime := None)) else old(View())
    {
      if runtime == Some(rt) {
        runtime := None;
        Clear();
      }
    }

    method StartReady()
      modifies this
      ensures View() == old(View()).(ready := true)
    {
      ready := true;
    }

    /** Start with nothing interleaved: the order of its critical sections. `secrets` is
        None when a token or the listener cannot be had. */
    method Start(ended: bool, secrets: Option<(string, string)>, rt: nat, result: StartResult) returns (ok: bool)
      modifies this
      ensures old(runtime.Some? && ready && !ended) ==> ok && View() == old(View())
      ensures !old(runtime.Some? && ready && !ended) ==>
        && (ok <==> secrets.Some? && result.Verified?)
        && View() == Cleared(old(View())).(
             session := if ok then secrets.value.0 else "", credential := if ok then secrets.value.1 else "",
             host := if ok then result.host else "", runtime := if ok then Some(rt) else None, ready := ok,
             api := if secrets.Some? then Some(secrets.value.1) else old(api))
      ensures (View(), ok) == Started(old(View()), ended, secrets, rt, result)
    {
      var live, _ := StartBegin(ended);
      if live {
        return true;
      }
      if secrets.None? {
        return false;
      }
      StartIssue(secrets.value.0, secrets.value.1);
      if result.NoTunnel? || result.BadUrl? {
        Clear();
        return false;
      }
      StartAttach(result.host, rt);
      if result.Unverified? {
        StartUnverified(rt);
        return false;
      }
      StartReady();
      ok := true;
    }

    /** The goroutine that waited for tunnel `rt` to end. */
    method Watch(rt: nat)
      modifies this
      ensures View() == if old(runtime) == Some(rt) then Cleared(old(View())) else old(View())
    {
      if runtime == Some(rt) {
        Clear();
      }
    }

    method Close() returns (rt: Option<nat>)
      modifies this
      ensures rt == old(runtime)
      ensures View() == Cleared(old(View()).(runtime := None, active := false))
    {
      rt := runtime;
      runtime := None;
      active := false;
      Clear();
    }

    method IsAuthorized(r: Request) returns (ok: bool)
      ensures ok <==> paired && credential != "" && r.authorization == ["Bearer " + credential]
      ensures ok <==> Authorized(View(), r)
    {
      var expected := "Bearer " + credential;
      ok := paired && credential != "" && |r.authorization| == 1 && r.authorization[0] == expected;
    }

    /** The counting at the start of a pairing attempt. */
    method CountLocked(clock: Readings)
      modifies this`attempts, this`attemptWindow
      ensures var reopens := old(attemptWindow).None? || clock.check - old(attemptWindow).value >= 60 * SECOND;
              && attempts == (if reopens then 0 else old(attempts)) + 1
              && attemptWindow == if reopens then Some(clock.stamp) else old(attemptWindow)
      ensures View() == CountAttempt(old(View()), clock)
    {
      if attemptWindow.None? || clock.check - attemptWindow.value >= MINUTE {
        attemptWindow := Some(clock.stamp);
        attempts := 0;
      }
      attempts := attempts + 1;
    }

    method PairLocked(r: Request, clock: Readings, supply: Option<string>) returns (reply: Reply)
      requires r.verb.Post?
      modifies this`attempts, this`attemptWindow, this`paired, this`credential, this`api, this`ticket, this`expires
      ensures var reopens := old(attemptWindow).None? || clock.check - old(attemptWindow).value >= 60 * SECOND;
              && attempts == (if reopens then 0 else old(attempts)) + 1
              && attemptWindow == if reopens then Some(clock.stamp) else old(attemptWindow)
      ensures reply ==
              if attempts > 30 then Refused(429)
              else if r.body.Malformed? || r.body.trailing || r.body.version != "1" then Refused(400)
              else if !old(expires.Some? && clock.compare < expires.value) || old(ticket) == "" then Refused(401)
              else if r.body.ticket != old(ticket) then Refused(401)
              else if supply.None? then Refused(500)
              else PairedReply(supply.value, host)
      ensures if reply.PairedReply?
              then paired && credential == supply.value && api == Some(supply.value) && ticket == "" && expires.None?
              else
                && paired == old(paired) && credential == old(credential) && api == old(api)
                && ticket == old(ticket) && expires == old(expires)
      ensures (View(), reply) == PairOutcome(old(View()), r, clock, supply)
    {
      CountLocked(clock);
      if attempts > ATTEMPT_LIMIT {
        return Refused(429);
      }
      if r.body.Malformed? {
        return Refused(400);
      }
      if r.body.trailing || r.body.version != "1" {
        return Refused(400);
      }
      if ticket == "" || !Before(clock.compare, expires) || r.body.ticket != ticket {
        return Refused(401);
      }
      if supply.None? {
        return Refused(500);
      }
      SetCredential(supply.value);
      paired := true;
      ticket := "";
      expires := None;
      reply := PairedReply(supply.value, host);
    }

    /** The first check of a request whose body is to be read. */
    method AdmitBody(r: Request) returns (refusal: Option<Reply>)
      requires ReadsBody(r)
      ensures refusal ==
              if active && ready && r.host == host
                 && (r.path.Pair? || (paired && credential != "" && r.authorization == ["Bearer " + credential]))
              then None else Some(Refused(401))
      ensures refusal.None? <==> MayReadBody(View(), r)
    {
      var allowed := r.path.Pair?;
      if !allowed {
        allowed := IsAuthorized(r);
      }
      refusal := if active && ready && r.host == host && allowed then None else Some(Refused(401));
    }

    method ServeBuffered(r: Request, clock: Readings, supply: Option<string>) returns (reply: Reply)
      modifies this
      ensures host == old(host) && session == old(session) && active == old(active) && ready == old(ready)
      ensures !(r.path.Pair? && r.verb.Post?) ==>
        && View() == old(View())
        && reply ==
           if host == "" || r.host != host then Refused(403)
           else if r.path.Health? && r.verb.Get? then HealthReply(session)
           else if !active || !ready then Refused(503)
           else if r.verb.Get? && r.path.Download? then
             if r.path.file.Some? then File(r.path.file.value) else Refused(404)
           else if r.verb.Get? && r.path.Setup? then
             if ticket != "" && r.path.ticket == ticket && expires.Some? && clock.check < expires.value
             then SetupPage(ticket, host) else Refused(404)
           else if r.foreign then Refused(403)
           else if r.path.Pair? then Refused(405)
           else if !(r.path.Status? || r.path.Clipboard?) then Refused(404)
           else if paired && credential != "" && r.authorization == ["Bearer " + credential] then Forwarded(api)
           else Refused(401)
      ensures r.path.Pair? && r.verb.Post? ==>
        if host == "" || r.host != host then reply == Refused(403) && View() == old(View())
        else if !active || !ready then reply == Refused(503) && View() == old(View())
        else if r.foreign then reply == Refused(403) && View() == old(View())
        else (View(), reply) == PairOutcome(old(View()), r, clock, supply)
      ensures (View(), reply) == Outcome(old(View()), r, clock, supply)
    {
      if host == "" || r.host != host {
        return Refused(403);
      }
      if r.path.Health? && r.verb.Get? {
        return HealthReply(session);
      }
      if !active || !ready {
        return Refused(503);
      }
      if r.verb.Get? && (r.path.Setup? || r.path.Download?) {
        if r.path.Download? {
          return if r.path.file.None? then Refused(404) else File(r.path.file.value);
        }
        if ticket == "" || r.path.ticket != ticket || !Before(clock.check, expires) {
          return Refused(404);
        }
        return SetupPage(ticket, host);
      }
      if r.foreign {
        return Refused(403);
      }
      if r.path.Pair? {
        if !r.verb.Post? {
          return Refused(405);
        }
        reply := PairLocked(r, clock, supply);
        return;
      }
      if !r.path.Status? && !r.path.Clipboard? {
        return Refused(404);
      }
      var authorized := IsAuthorized(r);
      if !authorized {
        return Refused(401);
      }
      reply := Forwarded(api);
    }

    /** A whole request with nothing beside it. */
    method ServeHTTP(r: Request, clock: Readings, supply: Option<string>) returns (reply: Reply)
      modifies this
      ensures ReadsBody(r) && !MayReadBody(old(View()), r) ==> reply == Refused(401) && View() == old(View())
      ensures BodyFails(r) && MayReadBody(old(View()), r) ==> reply == Refused(413) && View() == old(View())
      ensures (ReadsBody(r) ==> r.complete && MayReadBody(old(View()), r)) ==>
                (View(), reply) == Outcome(old(View()), r, clock, supply)
    {
      if r.verb.Post? && (r.path.Pair? || r.path.Clipboard?) {
        var refusal := AdmitBody(r);
        if refusal.Some? {
          return refusal.value;
        }
        if !r.complete {
          return Refused(413);
        }
      }
      reply := ServeBuffered(r, clock, supply);
    }
  }
}
