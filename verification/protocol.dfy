/** Every interleaving of the simple connection: Start, which holds `lifecycle` but lets
    go of `mu` between its critical sections, its watchers, Close, Revoke, NewPairing,
    SetActive and any number of requests. One step is one critical section. */
module Protocol {
  import opened Basics
  import opened Service
  import opened Limiter

  // ----- the step relation -----

  /** Where the one Start that may be running stands. */
  datatype Starter =
    | Idle
    | Begun
    | Issued(session: string, token: string)
    | Attached(rt: nat, session: string, host: string)

  /** What an observer of the service can see happen, in order. */
  datatype Event =
    | Switched(on: bool)
    | Restarted
    | StartFailed
    | Opened(host: string)
    | TunnelLost
    | Closed
    | Offered(ticket: string, expires: Time)
    | RevokedAll
    | Attempted(call: Call, admitted: bool)
    | Redeemed(spent: string, token: string, at: Time)
    | Reached(request: Request)

  /** `watchers` are the runtimes whose watcher is still waiting, `ended` those whose
      tunnel process is over, `inflight` the requests that have not had their last
      critical section, `issued` every secret generated so far. */
  datatype Sys = Sys(
    f: Fields, starter: Starter, watchers: set<nat>, ended: set<nat>, nextRt: nat,
    inflight: map<nat, Request>, now: Time, issued: set<string>, log: seq<Event>)

  datatype Label =
    | SetActive(on: bool)
    | NewPairing(at: Time, supply: Option<string>)
    | Revoke(supply: Option<string>)
    | StartBegin
    | StartAbort
    | StartIssue(session: string, token: string)
    | StartNoTunnel
    | StartAttach(host: string)
    | StartUnverified
    | StartReady
    | TunnelEnds(rt: nat)
    | Watch(rt: nat)
    | Close
    | Arrive(id: nat, request: Request)
    | BodyFails(id: nat)
    | Serve(id: nat, clock: Readings, supply: Option<string>)

  function Boot(now: Time): Sys {
    Sys(Blank, Idle, {}, {}, 0, map[], now, {}, [])
  }

  predicate NewSecret(s: Sys, x: string) {
    x != "" && x !in s.issued
  }

  predicate CanSupply(s: Sys, supply: Option<string>) {
    supply.Some? ==> NewSecret(s, supply.value)
  }

  function Spend(s: Sys, supply: Option<string>): set<string> {
    if supply.Some? then s.issued + {supply.value} else s.issued
  }

  predicate StillLive(s: Sys) {
    s.f.runtime.Some? && s.f.ready && s.f.runtime.value !in s.ended
  }

  predicate Enabled(s: Sys, l: Label) {
    match l
    case SetActive(_) => true
    case NewPairing(at, supply) => s.now <= at && CanSupply(s, supply)
    case Revoke(supply) => CanSupply(s, supply)
    case StartBegin => s.starter.Idle?
    case StartAbort => s.starter.Begun?
    case StartIssue(session, token) => s.starter.Begun? && NewSecret(s, session) && NewSecret(s, token)
        && session != token
    case StartNoTunnel => s.starter.Issued?
    case StartAttach(host) => s.starter.Issued? && ValidHost(host)
    case StartUnverified => s.starter.Attached?
    case StartReady => s.starter.Attached?
    case TunnelEnds(rt) => rt < s.nextRt
    case Watch(rt) => rt in s.watchers && rt in s.ended
    case Close => s.starter.Idle?
    case Arrive(id, _) => id !in s.inflight
    case BodyFails(id) => id in s.inflight && Service.BodyFails(s.inflight[id])
    case Serve(id, clock, supply) =>
      && id in s.inflight && !Service.BodyFails(s.inflight[id])
      && s.now <= clock.check <= clock.stamp <= clock.compare && CanSupply(s, supply)
  }

  // The visible events of one step.

  function AttemptEvents(f: Fields, r: Request, clock: Readings): seq<Event> {
    if !ReachesPairing(f, r) then []
    else [Attempted(Call(clock.check, clock.stamp), CountAttempt(f, clock).attempts <= ATTEMPT_LIMIT)]
  }

  function ReplyEvents(f: Fields, r: Request, clock: Readings, supply: Option<string>): seq<Event> {
    match Outcome(f, r, clock, supply).1
    case PairedReply(token, _) => [Redeemed(f.ticket, token, clock.compare)]
    case Forwarded(_) => [Reached(r)]
    case _ => []
  }

  function Events(s: Sys, l: Label): seq<Event>
    requires Enabled(s, l)
  {
    match l
    case SetActive(on) => [Switched(on)]
    case NewPairing(at, supply) =>
      if CanOffer(s.f) && supply.Some? then [Offered(supply.value, at + PAIRING_LIFE)] else []
    case Revoke(supply) => if supply.Some? then [RevokedAll] else []
    case StartBegin => if StillLive(s) then [] else [Restarted]
    case StartNoTunnel => [StartFailed]
    case StartUnverified => if s.f.runtime == Some(s.starter.rt) then [StartFailed] else []
    case StartReady => [Opened(s.f.host)]
    case Watch(rt) => if s.f.runtime == Some(rt) then [TunnelLost] else []
    case Close => [Closed]
    case Serve(id, clock, supply) =>
      AttemptEvents(s.f, s.inflight[id], clock) + ReplyEvents(s.f, s.inflight[id], clock, supply)
    case _ => []
  }

  function StartStep(s: Sys, l: Label): Sys
    requires Enabled(s, l)
  {
    match l
    case StartBegin =>
      if StillLive(s) then s else s.(f := Cleared(s.f.(runtime := None)), starter := Begun)
    case StartAbort => s.(starter := Idle)
    case StartIssue(session, token) =>
      s.(f := WithCredential(s.f.(session := session), token), starter := Issued(session, token),
         issued := s.issued + {session, token})
    case StartNoTunnel => s.(f := Cleared(s.f), starter := Idle)
    case StartAttach(host) =>
      s.(f := s.f.(host := host, runtime := Some(s.nextRt)),
         starter := Attached(s.nextRt, s.starter.session, host), nextRt := s.nextRt + 1)
    case StartUnverified =>
      s.(f := if s.f.runtime == Some(s.starter.rt) then Cleared(s.f.(runtime := None)) else s.f, starter := Idle)
    case StartReady =>
      s.(f := s.f.(ready := true), starter := Idle, watchers := s.watchers + {s.starter.rt})
    case _ => s
  }

  function OtherStep(s: Sys, l: Label): Sys
    requires Enabled(s, l)
  {
    match l
    case SetActive(on) => s.(f := s.f.(active := on))
    case NewPairing(at, supply) =>
      s.(f := if CanOffer(s.f) && supply.Some? then Offer(s.f, supply.value, at) else s.f,
         now := at, issued := Spend(s, supply))
    case Revoke(supply) =>
      s.(f := if supply.Some? then Revoked(s.f, supply.value) else s.f, issued := Spend(s, supply))
    case TunnelEnds(rt) => s.(ended := s.ended + {rt})
    case Watch(rt) =>
      s.(f := if s.f.runtime == Some(rt) then Cleared(s.f) else s.f, watchers := s.watchers - {rt})
    case Close => s.(f := Cleared(s.f.(runtime := None, active := false)))
    case Arrive(id, r) =>
      if ReadsBody(r) && !MayReadBody(s.f, r) then s else s.(inflight := s.inflight[id := r])
    case BodyFails(id) => s.(inflight := s.inflight - {id})
    case Serve(id, clock, supply) =>
      s.(f := Outcome(s.f, s.inflight[id], clock, supply).0, inflight := s.inflight - {id},
         now := clock.compare, issued := Spend(s, supply))
    case _ => s
  }

  predicate IsStart(l: Label) {
    l.StartBegin? || l.StartAbort? || l.StartIssue? || l.StartNoTunnel? || l.StartAttach? || l.StartUnverified?
        || l.StartReady?
  }

  function Next(s: Sys, l: Label): Sys
    requires Enabled(s, l)
  {
    (if IsStart(l) then StartStep(s, l) else OtherStep(s, l)).(log := s.log + Events(s, l))
  }

  ghost predicate IsRun(states: seq<Sys>, labels: seq<Label>) {
    && |states| == |labels| + 1
    && (exists t :: states[0] == Boot(t))
    && forall i | 0 <= i < |labels| :: Enabled(states[i], labels[i]) && states[i + 1] == Next(states[i], labels[i])
  }

  ghost predicate Reachable(s: Sys) {
    exists states, labels :: IsRun(states, labels) && states[|states| - 1] == s
  }

  // ----- the reference monitor: what the visible events alone entitle anyone to -----

  /** `open` is the host of the live session, `offer` the one redeemable ticket with its
      expiry, `grant` the one token in force. */
  datatype Standing = Standing(active: bool, open: Option<string>, offer: Option<(string, Time)>, grant: Option<string>)

  function After(j: Standing, e: Event): Standing {
    match e
    case Switched(on) => j.(active := on)
    case Restarted => Standing(j.active, None, None, None)
    case StartFailed => Standing(j.active, None, None, None)
    case TunnelLost => Standing(j.active, None, None, None)
    case Closed => Standing(false, None, None, None)
    case Opened(h) => j.(open := Some(h))
    case Offered(t, e) => j.(offer := Some((t, e)))
    case RevokedAll => j.(offer := None, grant := None)
    case Redeemed(_, k, _) => j.(offer := None, grant := Some(k))
    case Attempted(_, _) => j
    case Reached(_) => j
  }

  function Judge(log: seq<Event>): Standing {
    if log == [] then Standing(false, None, None, None)
    else After(Judge(log[..|log| - 1]), log[|log| - 1])
  }

  predicate Entitles(j: Standing, r: Request) {
    && j.active && j.open == Some(r.host)
    && j.grant.Some? && r.authorization == ["Bearer " + j.grant.value]
  }

  /** The events the monitor allows next. */
  predicate Allows(j: Standing, e: Event) {
    match e
    case Reached(r) => Entitles(j, r)
    case Redeemed(t, k, at) => j.active && j.open.Some? && j.offer.Some? && j.offer.value.0 == t && at < j.offer.value.1
    case Offered(_, _) => j.open.Some?
    case Opened(_) => j == Standing(j.active, None, None, None)
    case _ => true
  }

  ghost predicate Lawful(log: seq<Event>) {
    forall k | 0 <= k < |log| :: Allows(Judge(log[..k]), log[k])
  }

  function AfterAll(j: Standing, es: seq<Event>): Standing
    decreases |es|
  {
    if es == [] then j else AfterAll(After(j, es[0]), es[1..])
  }

  predicate AllowsAll(j: Standing, es: seq<Event>)
    decreases |es|
  {
    es != [] ==> Allows(j, es[0]) && AllowsAll(After(j, es[0]), es[1..])
  }

  lemma JudgeSnoc(log: seq<Event>, e: Event)
    ensures Judge(log + [e]) == After(Judge(log), e)
  {
    assert (log + [e])[..|log|] == log;
  }

  lemma {:induction false} JudgeAppend(log: seq<Event>, es: seq<Event>)
    ensures Judge(log + es) == AfterAll(Judge(log), es)
    decreases |es|
  {
    if es == [] {
      assert log + es == log;
    } else {
      JudgeSnoc(log, es[0]);
      JudgeAppend(log + [es[0]], es[1..]);
      assert log + [es[0]] + es[1..] == log + es;
    }
  }

  lemma LawfulSnoc(log: seq<Event>, e: Event)
    requires Lawful(log) && Allows(Judge(log), e)
    ensures Lawful(log + [e])
  {
    var log' := log + [e];
    forall k | 0 <= k < |log'|
      ensures Allows(Judge(log'[..k]), log'[k])
    {
      assert log'[..k] == log[..k];
      assert log[..|log|] == log;
    }
  }

  lemma {:induction false} LawfulAppend(log: seq<Event>, es: seq<Event>, all: seq<Event>)
    requires Lawful(log) && AllowsAll(Judge(log), es) && all == log + es
    ensures Lawful(all)
    decreases |es|
  {
    if es == [] {
      assert all == log;
    } else {
      var more := log + [es[0]];
      JudgeSnoc(log, es[0]);
      LawfulSnoc(log, es[0]);
      assert all == more + es[1..];
      LawfulAppend(more, es[1..], all);
    }
  }

  // ----- the inductive invariant -----

  /** What the fields promise one another in every reachable state. */
  predicate FieldsAgree(f: Fields) {
    && (f.paired ==> f.ready)
    && (f.ticket != "" ==> f.ready && f.expires.Some?)
    && (f.ready ==> f.runtime.Some? && f.host != "" && f.session != "" && f.credential != "")
    && (f.credential != "" ==> f.api == Some(f.credential))
  }

  /** The running Start owns the session it is building, and only it. */
  predicate StarterAgrees(s: Sys) {
    && (s.f.runtime.Some? ==> s.f.runtime.value < s.nextRt)
    && (forall rt | rt in s.watchers :: rt < s.nextRt)
    && (s.f.ready ==> s.starter.Idle? && s.f.runtime.Some? && s.f.runtime.value in s.watchers)
    && (s.f.host != "" ==> s.f.ready || s.starter.Attached?)
    && match s.starter
       case Idle => true
       case Begun => s.f.runtime.None?
       case Issued(session, token) => s.f.runtime.None? && s.f.session == session && session != ""
           && s.f.credential != ""
       case Attached(rt, session, host) =>
         && s.f.runtime == Some(rt) && rt !in s.watchers
         && s.f.session == session && session != "" && s.f.host == host && ValidHost(host)
         && s.f.credential != ""
  }

  /** The fields under `mu` say exactly what the monitor says. */
  predicate MatchesMonitor(f: Fields, j: Standing) {
    && j.active == f.active
    && j.open == (if f.ready then Some(f.host) else None)
    && j.offer == (if f.ticket != "" && f.expires.Some? then Some((f.ticket, f.expires.value)) else None)
    && j.grant == (if f.paired then Some(f.credential) else None)
  }

  ghost predicate Inv(s: Sys) {
    && FieldsAgree(s.f)
    && StarterAgrees(s)
    && MatchesMonitor(s.f, Judge(s.log))
    && Lawful(s.log)
  }

  lemma StartKeepsFields(s: Sys, l: Label)
    requires FieldsAgree(s.f) && StarterAgrees(s) && Enabled(s, l) && IsStart(l)
    ensures FieldsAgree(StartStep(s, l).f) && StarterAgrees(StartStep(s, l))
  {
  }

  lemma ServeKeepsFields(f: Fields, r: Request, clock: Readings, supply: Option<string>)
    requires FieldsAgree(f) && (supply.Some? ==> supply.value != "")
    ensures var g := Outcome(f, r, clock, supply).0;
            FieldsAgree(g) && g.ready == f.ready && g.runtime == f.runtime && g.session == f.session && g.host == f.host
            && (f.credential != "" ==> g.credential != "")
  {
  }

  lemma OthersKeepFields(s: Sys, l: Label)
    requires FieldsAgree(s.f) && StarterAgrees(s) && Enabled(s, l) && !IsStart(l)
    ensures FieldsAgree(OtherStep(s, l).f) && StarterAgrees(OtherStep(s, l))
  {
    if l.Serve? {
      ServeKeepsFields(s.f, s.inflight[l.id], l.clock, l.supply);
    }
  }

  lemma StepKeepsFields(s: Sys, l: Label)
    requires FieldsAgree(s.f) && StarterAgrees(s) && Enabled(s, l)
    ensures FieldsAgree(Next(s, l).f) && StarterAgrees(Next(s, l))
  {
    if IsStart(l) {
      StartKeepsFields(s, l);
    } else {
      OthersKeepFields(s, l);
    }
  }

  lemma OneEvent(j: Standing, e: Event)
    ensures AfterAll(j, [e]) == After(j, e)
    ensures AllowsAll(j, [e]) <==> Allows(j, e)
  {
    assert [e][1..] == [];
  }

  lemma AttemptFirst(j: Standing, attempt: seq<Event>, reply: seq<Event>)
    requires |attempt| <= 1 && forall e | e in attempt :: e.Attempted?
    ensures AfterAll(j, attempt + reply) == AfterAll(j, reply)
    ensures AllowsAll(j, attempt + reply) <==> AllowsAll(j, reply)
  {
    if attempt == [] {
      assert attempt + reply == reply;
    } else {
      assert (attempt + reply)[1..] == reply;
      assert attempt[0] in attempt;
    }
  }

  /** One request against the monitor. */
  lemma OutcomeMatchesMonitor(f: Fields, r: Request, clock: Readings, supply: Option<string>, j: Standing)
    requires FieldsAgree(f) && MatchesMonitor(f, j)
    ensures var g := Outcome(f, r, clock, supply).0;
            var reply := ReplyEvents(f, r, clock, supply);
            if reply == [] then MatchesMonitor(g, j)
            else |reply| == 1 && Allows(j, reply[0]) && MatchesMonitor(g, After(j, reply[0]))
  {
  }

  lemma ServeMatchesMonitor(s: Sys, l: Label, j: Standing)
    requires FieldsAgree(s.f) && Enabled(s, l) && l.Serve? && MatchesMonitor(s.f, j)
    ensures MatchesMonitor(Next(s, l).f, AfterAll(j, Events(s, l)))
    ensures AllowsAll(j, Events(s, l))
  {
    var r := s.inflight[l.id];
    var reply := ReplyEvents(s.f, r, l.clock, l.supply);
    AttemptFirst(j, AttemptEvents(s.f, r, l.clock), reply);
    OutcomeMatchesMonitor(s.f, r, l.clock, l.supply, j);
    if reply != [] {
      assert reply == [reply[0]];
      OneEvent(j, reply[0]);
    }
  }

  /** The steps of a Start. */
  lemma StartMatchesMonitor(s: Sys, l: Label, j: Standing)
    requires FieldsAgree(s.f) && StarterAgrees(s) && Enabled(s, l) && IsStart(l) && MatchesMonitor(s.f, j)
    ensures MatchesMonitor(Next(s, l).f, AfterAll(j, Events(s, l)))
    ensures AllowsAll(j, Events(s, l))
  {
    if Events(s, l) != [] {
      OneEvent(j, Events(s, l)[0]);
    }
  }

  /** The steps of anyone else that are not an answer to a request. */
  lemma OthersMatchMonitor(s: Sys, l: Label, j: Standing)
    requires FieldsAgree(s.f) && Enabled(s, l) && !IsStart(l) && !l.Serve? && MatchesMonitor(s.f, j)
    ensures MatchesMonitor(Next(s, l).f, AfterAll(j, Events(s, l)))
    ensures AllowsAll(j, Events(s, l))
  {
    if Events(s, l) != [] {
      OneEvent(j, Events(s, l)[0]);
    }
  }

  lemma StepMatchesMonitor(s: Sys, l: Label, j: Standing)
    requires FieldsAgree(s.f) && StarterAgrees(s) && Enabled(s, l) && MatchesMonitor(s.f, j)
    ensures MatchesMonitor(Next(s, l).f, AfterAll(j, Events(s, l)))
    ensures AllowsAll(j, Events(s, l))
  {
    if l.Serve? {
      ServeMatchesMonitor(s, l, j);
    } else if IsStart(l) {
      StartMatchesMonitor(s, l, j);
    } else {
      OthersMatchMonitor(s, l, j);
    }
  }

  lemma StepKeepsInv(s: Sys, l: Label)
    requires Inv(s) && Enabled(s, l)
    ensures Inv(Next(s, l))
  {
    StepKeepsFields(s, l);
    StepMatchesMonitor(s, l, Judge(s.log));
    JudgeAppend(s.log, Events(s, l));
    LawfulAppend(s.log, Events(s, l), Next(s, l).log);
  }

  // ----- secrets are never reused -----

  function EventSecrets(e: Event): set<string> {
    match e
    case Offered(t, _) => {t}
    case Redeemed(t, k, _) => {t, k}
    case _ => {}
  }

  /** Two events that hand out or spend the same secret. */
  predicate Repeats(a: Event, b: Event) {
    || (a.Offered? && b.Offered? && a.ticket == b.ticket)
    || (a.Redeemed? && b.Redeemed? && (a.spent == b.spent || a.token == b.token))
  }

  ghost predicate SecretsOnce(log: seq<Event>, issued: set<string>, ticket: string) {
    && (forall i | 0 <= i < |log| :: EventSecrets(log[i]) <= issued)
    && (forall i, j | 0 <= i < j < |log| :: !Repeats(log[i], log[j]))
    && (forall i | 0 <= i < |log| && log[i].Redeemed? :: log[i].spent != ticket)
  }

  ghost predicate SecretInv(s: Sys) {
    && s.f.ticket in s.issued + {""}
    && "" !in s.issued
    && SecretsOnce(s.log, s.issued, s.f.ticket)
  }

  lemma SecretAppend(log: seq<Event>, issued: set<string>, ticket: string, e: Event, issued': set<string>,
                     ticket': string)
    requires SecretsOnce(log, issued, ticket) && issued <= issued' && EventSecrets(e) <= issued'
    requires e.Offered? ==> e.ticket !in issued
    requires e.Redeemed? ==> e.spent == ticket && e.token !in issued && e.spent != ticket'
    requires ticket' == ticket || ticket' !in issued
    ensures SecretsOnce(log + [e], issued', ticket')
  {
    var log' := log + [e];
    forall i, j | 0 <= i < j < |log'|
      ensures !Repeats(log'[i], log'[j])
    {
      if j == |log| {
        assert EventSecrets(log[i]) <= issued;
        if log[i].Redeemed? {
          assert log[i].token in EventSecrets(log[i]);
        }
        if log[i].Offered? {
          assert log[i].ticket in EventSecrets(log[i]);
        }
      }
    }
    forall i | 0 <= i < |log'| && log'[i].Redeemed?
      ensures log'[i].spent != ticket'
    {
      if i < |log| {
        assert log[i].spent in EventSecrets(log[i]);
      }
    }
  }

  lemma SecretKeep(log: seq<Event>, issued: set<string>, ticket: string, issued': set<string>, ticket': string)
    requires SecretsOnce(log, issued, ticket) && issued <= issued'
    requires ticket' == ticket || ticket' !in issued
    ensures SecretsOnce(log, issued', ticket')
  {
    forall i | 0 <= i < |log| && log[i].Redeemed?
      ensures log[i].spent != ticket'
    {
      assert log[i].spent in EventSecrets(log[i]);
    }
  }

  lemma ServeKeepsSecrets(s: Sys, l: Label)
    requires FieldsAgree(s.f) && SecretInv(s) && Enabled(s, l) && l.Serve?
    ensures SecretInv(Next(s, l))
  {
    var r := s.inflight[l.id];
    var t := Next(s, l);
    var attempt := AttemptEvents(s.f, r, l.clock);
    var reply := ReplyEvents(s.f, r, l.clock, l.supply);
    var mid := s.log + attempt;
    if attempt == [] {
      assert mid == s.log;
    } else {
      SecretAppend(s.log, s.issued, s.f.ticket, attempt[0], s.issued, s.f.ticket);
    }
    assert t.log == mid + reply;
    if reply == [] {
      assert t.log == mid;
      SecretKeep(mid, s.issued, s.f.ticket, t.issued, t.f.ticket);
    } else {
      SecretAppend(mid, s.issued, s.f.ticket, reply[0], t.issued, t.f.ticket);
    }
  }

  lemma StepKeepsSecrets(s: Sys, l: Label)
    requires FieldsAgree(s.f) && SecretInv(s) && Enabled(s, l)
    ensures SecretInv(Next(s, l))
  {
    if l.Serve? {
      ServeKeepsSecrets(s, l);
    } else {
      var t := Next(s, l);
      var es := Events(s, l);
      if es == [] {
        assert t.log == s.log;
        SecretKeep(s.log, s.issued, s.f.ticket, t.issued, t.f.ticket);
      } else {
        SecretAppend(s.log, s.issued, s.f.ticket, es[0], t.issued, t.f.ticket);
      }
    }
  }

  // ----- the pairing limiter is the fixed-window limiter, over the whole run -----

  function Calls(log: seq<Event>): seq<Call> {
    if log == [] then []
    else Calls(log[..|log| - 1]) + if log[|log| - 1].Attempted? then [log[|log| - 1].call] else []
  }

  /** The service's counter goes on past the limit; the limiter's stops there. */
  function AttemptWindow(f: Fields): Window {
    Window(f.attemptWindow, Min(f.attempts, ATTEMPT_LIMIT))
  }

  ghost predicate LimiterInv(s: Sys) {
    && Track(ATTEMPT_LIMIT, MINUTE, Calls(s.log)) == AttemptWindow(s.f)
    && Monotone(Calls(s.log))
    && (forall c | c in Calls(s.log) :: c.stamp <= s.now)
    && (forall k | 0 <= k < |s.log| && s.log[k].Attempted? ::
          s.log[k].admitted
              == Admits(Track(ATTEMPT_LIMIT, MINUTE, Calls(s.log[..k])), ATTEMPT_LIMIT, MINUTE, s.log[k].call))
  }

  lemma CallsAppend(log: seq<Event>, e: Event)
    ensures Calls(log + [e]) == Calls(log) + if e.Attempted? then [e.call] else []
  {
    assert (log + [e])[..|log|] == log;
  }

  lemma LimiterAppend(s: Sys, e: Event, t: Sys)
    requires LimiterInv(s) && t.log == s.log + [e] && s.now <= t.now
    requires !e.Attempted? ==> AttemptWindow(t.f) == AttemptWindow(s.f)
    requires e.Attempted? ==>
      && s.now <= e.call.check <= e.call.stamp <= t.now
      && Count(AttemptWindow(s.f), ATTEMPT_LIMIT, MINUTE, e.call)
         == AttemptWindow(t.f)
      && e.admitted == Admits(AttemptWindow(s.f), ATTEMPT_LIMIT, MINUTE, e.call)
    ensures LimiterInv(t)
  {
    var calls, calls' := Calls(s.log), Calls(t.log);
    CallsAppend(s.log, e);
    if e.Attempted? {
      assert calls'[..|calls|] == calls;
    } else {
      assert calls' == calls;
    }
    forall k | 0 <= k < |t.log| && t.log[k].Attempted?
      ensures t.log[k].admitted
              == Admits(Track(ATTEMPT_LIMIT, MINUTE, Calls(t.log[..k])), ATTEMPT_LIMIT, MINUTE, t.log[k].call)
    {
      if k < |s.log| {
        assert t.log[..k] == s.log[..k];
      } else {
        assert t.log[..k] == s.log;
      }
    }
  }

  /** One request counts as one call of the fixed-window limiter exactly when it reaches
      the pairing handler. */
  lemma OutcomeCounts(f: Fields, r: Request, clock: Readings, supply: Option<string>)
    ensures var c := Call(clock.check, clock.stamp);
            AttemptWindow(Outcome(f, r, clock, supply).0) ==
            if ReachesPairing(f, r) then Count(AttemptWindow(f), ATTEMPT_LIMIT, MINUTE, c) else AttemptWindow(f)
    ensures CountAttempt(f, clock).attempts <= ATTEMPT_LIMIT
       <==> Admits(AttemptWindow(f), ATTEMPT_LIMIT, MINUTE, Call(clock.check, clock.stamp))
  {
  }

  /** An answer after it does not count. */
  lemma LimiterIgnores(s: Sys, reply: seq<Event>, t: Sys)
    requires LimiterInv(s) && t.log == s.log + reply && s.now <= t.now && |reply| <= 1
    requires (reply != [] ==> !reply[0].Attempted?) && AttemptWindow(t.f) == AttemptWindow(s.f)
    ensures LimiterInv(t)
  {
    if reply == [] {
      assert t.log == s.log;
    } else {
      assert reply == [reply[0]];
      LimiterAppend(s, reply[0], t);
    }
  }

  /** What a request leaves in the log: an attempt, then perhaps an answer. */
  lemma LimiterCounts(s: Sys, attempt: Event, reply: seq<Event>, t: Sys)
    requires LimiterInv(s) && t.log == s.log + ([attempt] + reply) && s.now <= t.now && |reply| <= 1
    requires (reply != [] ==> !reply[0].Attempted?) && attempt.Attempted?
    requires s.now <= attempt.call.check <= attempt.call.stamp <= t.now
    requires Count(AttemptWindow(s.f), ATTEMPT_LIMIT, MINUTE, attempt.call) == AttemptWindow(t.f)
    requires attempt.admitted == Admits(AttemptWindow(s.f), ATTEMPT_LIMIT, MINUTE, attempt.call)
    ensures LimiterInv(t)
  {
    var mid := t.(log := s.log + [attempt]);
    LimiterAppend(s, attempt, mid);
    assert t.log == mid.log + reply;
    LimiterIgnores(mid, reply, t);
  }

  lemma StepKeepsLimiter(s: Sys, l: Label)
    requires LimiterInv(s) && Enabled(s, l)
    ensures LimiterInv(Next(s, l))
  {
    if l.Serve? {
      var r := s.inflight[l.id];
      OutcomeCounts(s.f, r, l.clock, l.supply);
      var attempt, reply := AttemptEvents(s.f, r, l.clock), ReplyEvents(s.f, r, l.clock, l.supply);
      if attempt == [] {
        assert attempt + reply == reply;
        LimiterIgnores(s, reply, Next(s, l));
      } else {
        assert attempt == [attempt[0]];
        LimiterCounts(s, attempt[0], reply, Next(s, l));
      }
    } else {
      var t := Next(s, l);
      var es := Events(s, l);
      assert AttemptWindow(t.f) == AttemptWindow(s.f);
      if es == [] {
        assert t.log == s.log;
      } else {
        LimiterAppend(s, es[0], t);
      }
    }
  }

  // ----- every reachable state -----

  ghost predicate WholeInv(s: Sys) {
    Inv(s) && SecretInv(s) && LimiterInv(s)
  }

  lemma {:induction false} RunKeepsInv(states: seq<Sys>, labels: seq<Label>, i: nat)
    requires IsRun(states, labels) && i < |states|
    ensures WholeInv(states[i])
  {
    if i > 0 {
      RunKeepsInv(states, labels, i - 1);
      var s, l := states[i - 1], labels[i - 1];
      StepKeepsInv(s, l);
      StepKeepsSecrets(s, l);
      StepKeepsLimiter(s, l);
    }
  }

  lemma ReachableInv(s: Sys)
    requires Reachable(s)
    ensures WholeInv(s)
  {
    var states, labels :| IsRun(states, labels) && states[|states| - 1] == s;
    RunKeepsInv(states, labels, |states| - 1);
  }
}
