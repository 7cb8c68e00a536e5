/** What holds of every reachable state and every run of the simple connection, said in
    terms of the events seen so far and their positions. */
module SessionTheorems {
  import opened Basics
  import opened Service
  import opened Limiter
  import opened Protocol

  // ----- "since": the latest event of a kind that nothing has ended -----

  predicate EndsSession(e: Event) {
    e.Restarted? || e.StartFailed? || e.TunnelLost? || e.Closed?
  }

  predicate EndsOpen(e: Event) {
    EndsSession(e) || e.Opened?
  }

  predicate EndsGrant(e: Event) {
    EndsSession(e) || e.RevokedAll? || e.Redeemed?
  }

  predicate EndsOffer(e: Event) {
    EndsGrant(e) || e.Offered?
  }

  predicate EndsActive(e: Event) {
    e.Switched? || e.Closed?
  }

  predicate HoldsSince(log: seq<Event>, j: nat, ends: Event -> bool) {
    j < |log| && forall i | j < i < |log| :: !ends(log[i])
  }

  /** The token of the latest successful pairing, with no revoke, close, restart, failed
      start or processed tunnel exit since. */
  ghost predicate Granted(log: seq<Event>, token: string) {
    exists j: nat :: HoldsSince(log, j, EndsGrant) && log[j].Redeemed? && log[j].token == token
  }

  /** The latest ticket, not spent, revoked or cleared since. */
  ghost predicate OnOffer(log: seq<Event>, ticket: string, expires: Time) {
    exists j: nat :: HoldsSince(log, j, EndsOffer) && log[j] == Offered(ticket, expires)
  }

  ghost predicate OpenAs(log: seq<Event>, host: string) {
    exists j: nat :: HoldsSince(log, j, EndsOpen) && log[j] == Opened(host)
  }

  ghost predicate SwitchedOn(log: seq<Event>) {
    exists j: nat :: HoldsSince(log, j, EndsActive) && log[j] == Switched(true)
  }

  lemma HoldsSnoc(log: seq<Event>, e: Event, ends: Event -> bool)
    ensures forall j: nat :: HoldsSince(log + [e], j, ends) <==> j == |log| || (!ends(e) && HoldsSince(log, j, ends))
  {
    var log' := log + [e];
    forall j: nat
      ensures HoldsSince(log', j, ends) <==> j == |log| || (!ends(e) && HoldsSince(log, j, ends))
    {
      if HoldsSince(log', j, ends) && j < |log| {
        assert log'[|log|] == e;
        forall i | j < i < |log|
          ensures !ends(log[i])
        {
          assert log'[i] == log[i];
        }
      }
    }
  }

  lemma GrantedSnoc(log: seq<Event>, e: Event, token: string)
    ensures Granted(log + [e], token) <==> (e.Redeemed? && e.token == token) || (!EndsGrant(e) && Granted(log, token))
  {
    HoldsSnoc(log, e, EndsGrant);
    var log' := log + [e];
    if e.Redeemed? && e.token == token {
      assert HoldsSince(log', |log|, EndsGrant) && log'[|log|] == e;
    }
    if !EndsGrant(e) && Granted(log, token) {
      var j: nat :| HoldsSince(log, j, EndsGrant) && log[j].Redeemed? && log[j].token == token;
      assert HoldsSince(log', j, EndsGrant) && log'[j] == log[j];
    }
  }

  lemma OnOfferSnoc(log: seq<Event>, e: Event, ticket: string, expires: Time)
    ensures OnOffer(log + [e], ticket, expires) <==>
            || e == Offered(ticket, expires)
            || (!EndsOffer(e) && OnOffer(log, ticket, expires))
  {
    HoldsSnoc(log, e, EndsOffer);
    var log' := log + [e];
    if e == Offered(ticket, expires) {
      assert HoldsSince(log', |log|, EndsOffer) && log'[|log|] == e;
    }
    if !EndsOffer(e) && OnOffer(log, ticket, expires) {
      var j: nat :| HoldsSince(log, j, EndsOffer) && log[j] == Offered(ticket, expires);
      assert HoldsSince(log', j, EndsOffer) && log'[j] == log[j];
    }
  }

  lemma OpenAsSnoc(log: seq<Event>, e: Event, host: string)
    ensures OpenAs(log + [e], host) <==> e == Opened(host) || (!EndsOpen(e) && OpenAs(log, host))
  {
    HoldsSnoc(log, e, EndsOpen);
    var log' := log + [e];
    if e == Opened(host) {
      assert HoldsSince(log', |log|, EndsOpen) && log'[|log|] == e;
    }
    if !EndsOpen(e) && OpenAs(log, host) {
      var j: nat :| HoldsSince(log, j, EndsOpen) && log[j] == Opened(host);
      assert HoldsSince(log', j, EndsOpen) && log'[j] == log[j];
    }
  }

  lemma SwitchedOnSnoc(log: seq<Event>, e: Event)
    ensures SwitchedOn(log + [e]) <==> e == Switched(true) || (!EndsActive(e) && SwitchedOn(log))
  {
    HoldsSnoc(log, e, EndsActive);
    var log' := log + [e];
    if e == Switched(true) {
      assert HoldsSince(log', |log|, EndsActive) && log'[|log|] == e;
    }
    if !EndsActive(e) && SwitchedOn(log) {
      var j: nat :| HoldsSince(log, j, EndsActive) && log[j] == Switched(true);
      assert HoldsSince(log', j, EndsActive) && log'[j] == log[j];
    }
  }

  lemma {:induction false} GrantMeans(log: seq<Event>, token: string)
    ensures Judge(log).grant == Some(token) <==> Granted(log, token)
  {
    if log != [] {
      var prefix, e := log[..|log| - 1], log[|log| - 1];
      assert log == prefix + [e];
      GrantMeans(prefix, token);
      GrantedSnoc(prefix, e, token);
    }
  }

  lemma {:induction false} OfferedMeans(log: seq<Event>, ticket: string, expires: Time)
    ensures Judge(log).offer == Some((ticket, expires)) <==> OnOffer(log, ticket, expires)
  {
    if log != [] {
      var prefix, e := log[..|log| - 1], log[|log| - 1];
      assert log == prefix + [e];
      OfferedMeans(prefix, ticket, expires);
      OnOfferSnoc(prefix, e, ticket, expires);
    }
  }

  lemma {:induction false} OpenMeans(log: seq<Event>, host: string)
    ensures Judge(log).open == Some(host) <==> OpenAs(log, host)
  {
    if log != [] {
      var prefix, e := log[..|log| - 1], log[|log| - 1];
      assert log == prefix + [e];
      OpenMeans(prefix, host);
      OpenAsSnoc(prefix, e, host);
    }
  }

  lemma {:induction false} ActiveMeans(log: seq<Event>)
    ensures Judge(log).active <==> SwitchedOn(log)
  {
    if log != [] {
      var prefix, e := log[..|log| - 1], log[|log| - 1];
      assert log == prefix + [e];
      ActiveMeans(prefix);
      SwitchedOnSnoc(prefix, e);
    }
  }

  /** The monitor's verdict is the positional one. */
  lemma JudgeMeans(log: seq<Event>, token: string, ticket: string, expires: Time, host: string)
    ensures Judge(log).grant == Some(token) <==> Granted(log, token)
    ensures Judge(log).offer == Some((ticket, expires)) <==> OnOffer(log, ticket, expires)
    ensures Judge(log).open == Some(host) <==> OpenAs(log, host)
    ensures Judge(log).active <==> SwitchedOn(log)
  {
    GrantMeans(log, token);
    OfferedMeans(log, ticket, expires);
    OpenMeans(log, host);
    ActiveMeans(log);
  }

  // ----- authorisation -----

  lemma BearerInjective(a: string, b: string)
    requires "Bearer " + a == "Bearer " + b
    ensures a == b
  {
    assert ("Bearer " + a)[7..] == a && ("Bearer " + b)[7..] == b;
  }

  /** What a request must show, against the events so far, to reach the clipboard API. */
  ghost predicate Deserves(log: seq<Event>, r: Request) {
    && SwitchedOn(log) && OpenAs(log, r.host)
    && exists token :: Granted(log, token) && r.authorization == ["Bearer " + token]
  }

  lemma EntitlesIsDeserves(log: seq<Event>, r: Request)
    ensures Entitles(Judge(log), r) <==> Deserves(log, r)
  {
    JudgeMeans(log, "", "", 0, r.host);
    if Entitles(Judge(log), r) {
      JudgeMeans(log, Judge(log).grant.value, "", 0, r.host);
    }
    if Deserves(log, r) {
      var token :| Granted(log, token) && r.authorization == ["Bearer " + token];
      JudgeMeans(log, token, "", 0, r.host);
    }
  }

  lemma ForwardedByMonitor(f: Fields, j: Standing, r: Request, clock: Readings, supply: Option<string>)
    requires FieldsAgree(f) && MatchesMonitor(f, j)
    ensures var reply := Outcome(f, r, clock, supply).1;
            && (reply.Forwarded? <==> Entitles(j, r) && !r.foreign && (r.path.Status? || r.path.Clipboard?))
            && (reply.Forwarded? ==> InnerAccepts(reply.api, r))
  {
    if Entitles(j, r) {
      assert r.authorization[0] == "Bearer " + f.credential;
    }
    if Authorized(f, r) {
      assert r.authorization == ["Bearer " + f.credential];
    }
  }

  /** Both directions: in its last critical section a request is forwarded to the
      clipboard API if and only if the events seen by then say so. The earlier check, and
      how long the body took, do not matter. The API it is forwarded to was built for
      that token, so its own bearer check agrees. */
  lemma ForwardedExactly(s: Sys, id: nat, clock: Readings, supply: Option<string>)
    requires Reachable(s) && Enabled(s, Serve(id, clock, supply))
    ensures var r := s.inflight[id];
            var reply := Outcome(s.f, r, clock, supply).1;
            && (reply.Forwarded? <==> Deserves(s.log, r) && !r.foreign && (r.path.Status? || r.path.Clipboard?))
            && (reply.Forwarded? ==> InnerAccepts(reply.api, r))
  {
    ReachableInv(s);
    EntitlesIsDeserves(s.log, s.inflight[id]);
    ForwardedByMonitor(s.f, Judge(s.log), s.inflight[id], clock, supply);
  }

  /** The same, over the whole history: every request that ever reached the clipboard API
      deserved it at its own moment. */
  lemma EveryReachedDeserved(s: Sys, k: nat)
    requires Reachable(s) && k < |s.log| && s.log[k].Reached?
    ensures Deserves(s.log[..k], s.log[k].request)
  {
    ReachableInv(s);
    EntitlesIsDeserves(s.log[..k], s.log[k].request);
  }

  /** Once ended, a token is never accepted again: not in this session, not in a later one. */
  lemma EndedTokenStaysDead(s: Sys, i: nat, j: nat, k: nat)
    requires Reachable(s) && i < j < k < |s.log|
    requires s.log[i].Redeemed? && EndsGrant(s.log[j]) && s.log[k].Reached?
    ensures s.log[k].request.authorization != ["Bearer " + s.log[i].token]
  {
    ReachableInv(s);
    var token := s.log[i].token;
    if s.log[k].request.authorization == ["Bearer " + token] {
      EveryReachedDeserved(s, k);
      var other :| Granted(s.log[..k], other) && s.log[k].request.authorization == ["Bearer " + other];
      assert "Bearer " + other == "Bearer " + token;
      BearerInjective(other, token);
      var g: nat :| HoldsSince(s.log[..k], g, EndsGrant) && s.log[..k][g].Redeemed? && s.log[..k][g].token == other;
      assert s.log[..k][j] == s.log[j];
      assert g >= j > i;
      assert Repeats(s.log[i], s.log[g]);
    }
  }

  /** A new ticket, by itself, ends no token. */
  lemma NewTicketKeepsToken(s: Sys, at: Time, supply: Option<string>, token: string)
    requires Reachable(s) && Enabled(s, NewPairing(at, supply))
    ensures Granted(Next(s, NewPairing(at, supply)).log, token) <==> Granted(s.log, token)
  {
    var es := Events(s, NewPairing(at, supply));
    if es == [] {
      assert s.log + es == s.log;
    } else {
      GrantedSnoc(s.log, es[0], token);
    }
  }

  // ----- tickets -----

  lemma PairedByMonitor(f: Fields, j: Standing, r: Request, clock: Readings, supply: Option<string>)
    requires FieldsAgree(f) && MatchesMonitor(f, j)
    ensures Outcome(f, r, clock, supply).1.PairedReply? <==>
            && r.path.Pair? && r.verb.Post? && !r.foreign && j.active && j.open == Some(r.host)
            && r.body.Decoded? && !r.body.trailing && r.body.version == "1"
            && j.offer.Some? && j.offer.value.0 == r.body.ticket && clock.compare < j.offer.value.1
            && CountAttempt(f, clock).attempts <= ATTEMPT_LIMIT
            && supply.Some?
  {
  }

  lemma OfferMeans(log: seq<Event>, ticket: string, now: Time)
    ensures (exists e :: OnOffer(log, ticket, e) && now < e) <==>
            var o := Judge(log).offer;
            o.Some? && o.value.0 == ticket && now < o.value.1
  {
    var o := Judge(log).offer;
    if o.Some? {
      JudgeMeans(log, "", o.value.0, o.value.1, "");
    }
    forall e | OnOffer(log, ticket, e)
      ensures o == Some((ticket, e))
    {
      JudgeMeans(log, "", ticket, e, "");
    }
  }

  /** Both directions: a pairing request succeeds if and only if it carries the ticket on
      offer before its expiry, within the attempt limit, and a token can be generated. */
  lemma RedeemedExactly(s: Sys, id: nat, clock: Readings, supply: Option<string>)
    requires Reachable(s) && Enabled(s, Serve(id, clock, supply))
    ensures var r := s.inflight[id];
            Outcome(s.f, r, clock, supply).1.PairedReply? <==>
            && r.path.Pair? && r.verb.Post? && !r.foreign && SwitchedOn(s.log) && OpenAs(s.log, r.host)
            && r.body.Decoded? && !r.body.trailing && r.body.version == "1"
            && (exists e :: OnOffer(s.log, r.body.ticket, e) && clock.compare < e)
            && Admits(Track(ATTEMPT_LIMIT, MINUTE, Calls(s.log)), ATTEMPT_LIMIT, MINUTE, Call(clock.check, clock.stamp))
            && supply.Some?
  {
    ReachableInv(s);
    var r := s.inflight[id];
    JudgeMeans(s.log, "", "", 0, r.host);
    OutcomeCounts(s.f, r, clock, supply);
    PairedByMonitor(s.f, Judge(s.log), r, clock, supply);
    if r.body.Decoded? {
      OfferMeans(s.log, r.body.ticket, clock.compare);
    }
  }

  /** Over a whole run, a ticket is redeemed at most once, whatever the number of
      concurrent requests; and every redemption was of a ticket then on offer, before its
      expiry. */
  lemma RedeemedOnce(s: Sys, i: nat, j: nat)
    requires Reachable(s) && i < j < |s.log| && s.log[i].Redeemed? && s.log[j].Redeemed?
    ensures s.log[i].spent != s.log[j].spent && s.log[i].token != s.log[j].token
  {
    ReachableInv(s);
    assert !Repeats(s.log[i], s.log[j]);
  }

  lemma RedeemedInTime(s: Sys, k: nat)
    requires Reachable(s) && k < |s.log| && s.log[k].Redeemed?
    ensures exists e :: OnOffer(s.log[..k], s.log[k].spent, e) && s.log[k].at < e
  {
    ReachableInv(s);
    var offer := Judge(s.log[..k]).offer.value;
    JudgeMeans(s.log[..k], "", offer.0, offer.1, "");
  }

  /** Between a ticket's offer and its redemption nothing has ended the offer. */
  lemma SpentOfferStands(s: Sys, i: nat, k: nat)
    requires Reachable(s) && i < k < |s.log| && s.log[i].Offered? && s.log[k].Redeemed?
             && s.log[k].spent == s.log[i].ticket
    ensures forall j | i < j < k :: !EndsOffer(s.log[j])
  {
    ReachableInv(s);
    RedeemedInTime(s, k);
    var prior := s.log[..k];
    var e :| OnOffer(prior, s.log[k].spent, e);
    var g: nat :| HoldsSince(prior, g, EndsOffer) && prior[g] == Offered(s.log[k].spent, e);
    assert prior[i] == s.log[i] && prior[g] == s.log[g];
    assert g == i;
    forall j | i < j < k
      ensures !EndsOffer(s.log[j])
    {
      assert prior[j] == s.log[j];
    }
  }

  /** Once superseded, spent, revoked or cleared, a ticket is never redeemed again: not in
      this session, not in a later one. */
  lemma EndedTicketStaysDead(s: Sys, i: nat, j: nat, k: nat)
    requires Reachable(s) && i < j < k < |s.log|
    requires s.log[i].Offered? && EndsOffer(s.log[j]) && s.log[k].Redeemed?
    ensures s.log[k].spent != s.log[i].ticket
  {
    if s.log[k].spent == s.log[i].ticket {
      SpentOfferStands(s, i, k);
    }
  }

  lemma SetupByMonitor(f: Fields, j: Standing, r: Request, clock: Readings, supply: Option<string>)
    requires FieldsAgree(f) && MatchesMonitor(f, j)
    ensures var reply := Outcome(f, r, clock, supply).1;
            && (reply.SetupPage? ==> r.path.Setup? && reply == SetupPage(r.path.ticket, r.host))
            && (reply.SetupPage? <==>
                  && r.path.Setup? && r.verb.Get? && j.active && j.open == Some(r.host)
                  && j.offer.Some? && j.offer.value.0 == r.path.ticket && clock.check < j.offer.value.1)
  {
  }

  /** A setup page is shown if and only if it is asked for under the very ticket on offer,
      before its expiry, at the open host of a switched-on service; and it is the page of
      that ticket and host. */
  lemma SetupPageExactly(s: Sys, id: nat, clock: Readings, supply: Option<string>)
    requires Reachable(s) && Enabled(s, Serve(id, clock, supply))
    ensures var r := s.inflight[id];
            var reply := Outcome(s.f, r, clock, supply).1;
            && (reply.SetupPage? <==>
                  && r.path.Setup? && r.verb.Get? && SwitchedOn(s.log) && OpenAs(s.log, r.host)
                  && exists e :: OnOffer(s.log, r.path.ticket, e) && clock.check < e)
            && (reply.SetupPage? ==> reply == SetupPage(r.path.ticket, r.host))
  {
    ReachableInv(s);
    var r := s.inflight[id];
    JudgeMeans(s.log, "", "", 0, r.host);
    SetupByMonitor(s.f, Judge(s.log), r, clock, supply);
    if r.path.Setup? {
      OfferMeans(s.log, r.path.ticket, clock.check);
    }
  }

  // ----- sessions -----

  lemma FieldsInEveryState(s: Sys)
    requires Reachable(s)
    ensures s.f.paired ==> s.f.ready
    ensures s.f.ticket != "" ==> s.f.ready
    ensures s.f.ready ==> s.f.runtime.Some? && s.f.host != "" && s.f.session != "" && s.f.credential != ""
    ensures s.f.credential != "" ==> s.f.api == Some(s.f.credential)
  {
    ReachableInv(s);
  }

  /** While a Start waits for its tunnel or its health check, no step of anyone else
      touches the session it is building; so its unguarded writes are its own, and the
      guard of its failure branch is always true. */
  lemma StartOwnsItsSession(s: Sys, l: Label)
    requires Reachable(s) && Enabled(s, l) && !s.starter.Idle?
    ensures !IsStart(l) ==>
      var t := Next(s, l);
      t.starter == s.starter && t.f.runtime == s.f.runtime && t.f.session == s.f.session && t.f.host == s.f.host
          && !t.f.ready
    ensures l.StartUnverified? ==> s.f.runtime == Some(s.starter.rt)
    ensures l.StartReady? ==>
      var t := Next(s, l).f;
      t.ready && t.runtime == Some(s.starter.rt) && t.session == s.starter.session && t.host == s.starter.host
          && ValidHost(t.host)
  {
    ReachableInv(s);
  }

  /** The health report a Start waits for can only be that of the session it is building;
      once the service is ready, only that of the open session. At any other time, and for
      any other host, there is none. */
  lemma HealthNamesTheSession(s: Sys, id: nat, clock: Readings, supply: Option<string>)
    requires Reachable(s) && Enabled(s, Serve(id, clock, supply)) && s.inflight[id].path.Health?
             && s.inflight[id].verb.Get?
    ensures var r := s.inflight[id];
            var reply := Outcome(s.f, r, clock, supply).1;
            reply == if s.starter.Attached? && r.host == s.starter.host then HealthReply(s.starter.session)
                     else if s.f.ready && r.host == s.f.host then HealthReply(s.f.session)
                     else Refused(403)
  {
    ReachableInv(s);
  }

  predicate SameSession(f: Fields, g: Fields) {
    g.ready == f.ready && g.runtime == f.runtime && g.session == f.session && g.host == f.host
  }

  /** The steps that end the session of runtime `rt`. */
  predicate EndsIt(s: Sys, l: Label, rt: nat) {
    l.Close? || (rt in s.ended && (l.StartBegin? || l == Watch(rt)))
  }

  lemma StartStepSession(s: Sys, l: Label, rt: nat)
    requires StarterAgrees(s) && Enabled(s, l) && IsStart(l) && s.f.ready && s.f.runtime == Some(rt)
    ensures l.StartBegin?
    ensures if rt in s.ended then StartStep(s, l).f == Cleared(StartStep(s, l).f) else StartStep(s, l).f == s.f
  {
  }

  lemma SessionStep(s: Sys, l: Label, rt: nat)
    requires FieldsAgree(s.f) && StarterAgrees(s) && Enabled(s, l) && s.f.ready && s.f.runtime == Some(rt)
    ensures if EndsIt(s, l, rt) then Next(s, l).f == Cleared(Next(s, l).f) else SameSession(s.f, Next(s, l).f)
  {
    if IsStart(l) {
      StartStepSession(s, l, rt);
    } else if l.Serve? {
      ServeKeepsFields(s.f, s.inflight[l.id], l.clock, l.supply);
    }
  }

  /** A live session ends only by its own tunnel's exit or by Close, and then all its
      secrets go; whatever else runs (watchers of other runtimes, a Start, requests)
      leaves its identity alone. */
  lemma OnlyItsOwnEndEndsASession(s: Sys, l: Label, rt: nat)
    requires Reachable(s) && Enabled(s, l) && s.f.ready && s.f.runtime == Some(rt)
    ensures if EndsIt(s, l, rt) then Next(s, l).f == Cleared(Next(s, l).f) else SameSession(s.f, Next(s, l).f)
  {
    ReachableInv(s);
    SessionStep(s, l, rt);
  }

  /** Every live session still has its watcher; when its tunnel has ended, that watcher
      may step, and then no secret is left. */
  lemma ExitIsNoticed(s: Sys, rt: nat)
    requires Reachable(s) && s.f.ready && s.f.runtime == Some(rt) && rt in s.ended
    ensures Enabled(s, Watch(rt))
    ensures var t := Next(s, Watch(rt)).f;
            !t.ready && !t.paired && t.credential == "" && t.ticket == "" && t.session == ""
  {
    ReachableInv(s);
  }

  // ----- pairing attempts -----

  /** Admitted pairing attempts whose check falls in [from, from + 60 s). */
  function AttemptsIn(log: seq<Event>, from: Time): nat {
    if log == [] then 0
    else
      var e := log[|log| - 1];
      AttemptsIn(log[..|log| - 1], from)
      + if e.Attempted? && e.admitted && from <= e.call.check < from + 60 * SECOND then 1 else 0
  }

  lemma AdmittedPrefix(calls: seq<Call>, c: Call, from: Time, n: nat)
    requires n <= |calls|
    ensures AdmittedIn(ATTEMPT_LIMIT, MINUTE, calls + [c], from, n) == AdmittedIn(ATTEMPT_LIMIT, MINUTE, calls, from, n)
  {
    if n > 0 {
      AdmittedPrefix(calls, c, from, n - 1);
      assert (calls + [c])[..n - 1] == calls[..n - 1];
    }
  }

  ghost predicate Recorded(log: seq<Event>) {
    forall k | 0 <= k < |log| && log[k].Attempted? ::
      log[k].admitted == Admits(Track(ATTEMPT_LIMIT, MINUTE, Calls(log[..k])), ATTEMPT_LIMIT, MINUTE, log[k].call)
  }

  lemma RecordedPrefix(log: seq<Event>, n: nat)
    requires Recorded(log) && n <= |log|
    ensures Recorded(log[..n])
  {
    forall k | 0 <= k < n && log[..n][k].Attempted?
      ensures log[..n][k].admitted
           == Admits(Track(ATTEMPT_LIMIT, MINUTE, Calls(log[..n][..k])), ATTEMPT_LIMIT, MINUTE, log[..n][k].call)
    {
      assert log[..n][..k] == log[..k] && log[k].Attempted?;
    }
  }

  lemma {:induction false} AttemptsAreCalls(log: seq<Event>, from: Time)
    requires Recorded(log)
    ensures AttemptsIn(log, from) == AdmittedIn(ATTEMPT_LIMIT, MINUTE, Calls(log), from, |Calls(log)|)
  {
    if log != [] {
      var prefix, e := log[..|log| - 1], log[|log| - 1];
      RecordedPrefix(log, |log| - 1);
      AttemptsAreCalls(prefix, from);
      if e.Attempted? {
        var calls := Calls(prefix);
        AdmittedPrefix(calls, e.call, from, |calls|);
        var calls' := calls + [e.call];
        assert Calls(log) == calls' && calls'[..|calls|] == calls;
        assert log[..|prefix|] == prefix && log[|prefix|].Attempted?;
        assert Admitted(ATTEMPT_LIMIT, MINUTE, calls', |calls|) == e.admitted;
        assert AdmittedIn(ATTEMPT_LIMIT, MINUTE, calls', from, |calls| + 1)
            == AdmittedIn(ATTEMPT_LIMIT, MINUTE, calls', from, |calls|)
               + if e.admitted && from <= e.call.check < from + MINUTE then 1 else 0;
      } else {
        assert Calls(log) == Calls(prefix);
      }
    }
  }

  /** In any minute at most 60 pairing attempts are let through to the ticket check, over
      the whole run: restarts, revokes and closes do not reset the counter. */
  lemma AttemptsBounded(s: Sys, from: Time)
    requires Reachable(s)
    ensures AttemptsIn(s.log, from) <= 60
  {
    ReachableInv(s);
    AttemptsAreCalls(s.log, from);
    AtMostTwice(ATTEMPT_LIMIT, MINUTE, Calls(s.log), from);
  }

  /** The outcomes of the attempts of a log, one for each of its calls. */
  function Verdicts(log: seq<Event>): (v: seq<bool>)
    ensures |v| == |Calls(log)|
  {
    if log == [] then []
    else Verdicts(log[..|log| - 1]) + if log[|log| - 1].Attempted? then [log[|log| - 1].admitted] else []
  }

  lemma {:induction false} VerdictIs(log: seq<Event>, k: nat)
    requires Recorded(log) && k < |Calls(log)|
    ensures Verdicts(log)[k] == Admitted(ATTEMPT_LIMIT, MINUTE, Calls(log), k)
  {
    var n := |log| - 1;
    var prefix, e := log[..n], log[n];
    var calls := Calls(prefix);
    if k < |calls| {
      RecordedPrefix(log, n);
      VerdictIs(prefix, k);
      assert Calls(log)[..k] == calls[..k];
    } else {
      assert e.Attempted? && Calls(log)[..k] == calls;
    }
  }

  lemma VerdictInWindow(calls: seq<Call>, i: nat, n: nat, k: nat)
    requires OneWindow(ATTEMPT_LIMIT, MINUTE, calls, i, n) && i <= k < n
    ensures Admitted(ATTEMPT_LIMIT, MINUTE, calls, k) <==> k - i < ATTEMPT_LIMIT
  {
    if i < k {
      WindowAdmitsExactly(ATTEMPT_LIMIT, MINUTE, calls, i, k);
    }
  }

  /** Of the attempts of a whole run that share a window, exactly the first 30 are let
      through, or all if there are fewer. */
  lemma WindowTakesTheFirst(s: Sys, i: nat, n: nat, k: nat)
    requires Reachable(s) && OneWindow(ATTEMPT_LIMIT, MINUTE, Calls(s.log), i, n) && i <= k < n
    ensures Verdicts(s.log)[k] <==> k - i < 30
  {
    ReachableInv(s);
    VerdictIs(s.log, k);
    VerdictInWindow(Calls(s.log), i, n, k);
  }
}
