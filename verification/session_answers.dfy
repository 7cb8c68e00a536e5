/** The answer to every request, the tickets handed out and the requests let in, each as a
    function of the events seen by then. */
module SessionAnswers {
  import opened Basics
  import opened Service
  import opened Limiter
  import opened Protocol
  import opened SessionTheorems

  ghost predicate TicketStands(log: seq<Event>, ticket: string, now: Time) {
    exists e :: OnOffer(log, ticket, e) && now < e
  }

  lemma StateAgrees(s: Sys)
    requires Reachable(s)
    ensures FieldsAgree(s.f) && StarterAgrees(s)
  {
    ReachableInv(s);
  }

  /** What the events say is what the fields say. */
  lemma FieldsMean(s: Sys, host: string, token: string)
    requires Reachable(s)
    ensures SwitchedOn(s.log) <==> s.f.active
    ensures OpenAs(s.log, host) <==> s.f.ready && s.f.host == host
    ensures Granted(s.log, token) <==> s.f.paired && s.f.credential == token
  {
    ReachableInv(s);
    JudgeMeans(s.log, token, "", 0, host);
  }

  lemma TicketMeans(s: Sys, ticket: string, now: Time)
    requires Reachable(s)
    ensures TicketStands(s.log, ticket, now)
       <==> s.f.ticket != "" && s.f.ticket == ticket && s.f.expires.Some? && now < s.f.expires.value
  {
    ReachableInv(s);
    OfferMeans(s.log, ticket, now);
  }

  lemma AuthorizedMeans(s: Sys, r: Request)
    requires Reachable(s)
    ensures Authorized(s.f, r) <==> exists token :: Granted(s.log, token) && r.authorization == ["Bearer " + token]
  {
    StateAgrees(s);
    FieldsMean(s, "", s.f.credential);
    if Authorized(s.f, r) {
      assert r.authorization == ["Bearer " + s.f.credential];
    }
    forall token | Granted(s.log, token) && r.authorization == ["Bearer " + token]
      ensures Authorized(s.f, r)
    {
      FieldsMean(s, "", token);
    }
  }

  lemma SomeOpen(s: Sys)
    requires Reachable(s)
    ensures (exists h :: OpenAs(s.log, h)) <==> s.f.ready
  {
    FieldsMean(s, s.f.host, "");
    forall h | OpenAs(s.log, h)
      ensures s.f.ready
    {
      FieldsMean(s, h, "");
    }
  }

  // ----- tickets -----

  /** A ticket is handed out if and only if some session is open and a token can be had; its
      expiry is five minutes on. */
  lemma OfferedExactly(s: Sys, at: Time, supply: Option<string>)
    requires Reachable(s) && Enabled(s, NewPairing(at, supply))
    ensures var offers := supply.Some? && exists h :: OpenAs(s.log, h);
            Next(s, NewPairing(at, supply)).log ==
            if offers then s.log + [Offered(supply.value, at + 300 * SECOND)] else s.log
  {
    StateAgrees(s);
    SomeOpen(s);
    assert s.log + [] == s.log;
  }

  /** A pairing is pending if and only if some ticket stands. */
  lemma PendingExactly(s: Sys, now: Time)
    requires Reachable(s)
    ensures PairingPending(s.f, now) <==> exists ticket :: TicketStands(s.log, ticket, now)
  {
    StateAgrees(s);
    TicketMeans(s, s.f.ticket, now);
    forall ticket | TicketStands(s.log, ticket, now)
      ensures PairingPending(s.f, now)
    {
      TicketMeans(s, ticket, now);
    }
  }

  // ----- the first check -----

  /** A post to the clipboard has its body read if and only if it deserves that when it
      arrives, a pairing request if and only if the service is on and open under its host;
      any other request always gets in. Nothing else changes. */
  lemma LetInExactly(s: Sys, id: nat, r: Request)
    requires Reachable(s) && Enabled(s, Arrive(id, r))
    ensures var t := Next(s, Arrive(id, r));
            && (id in t.inflight <==>
                  if r.verb.Post? && r.path.Clipboard? then Deserves(s.log, r)
                  else if r.verb.Post? && r.path.Pair? then SwitchedOn(s.log) && OpenAs(s.log, r.host)
                  else true)
            && t == s.(inflight := if id in t.inflight then s.inflight[id := r] else s.inflight)
  {
    AuthorizedMeans(s, r);
    FieldsMean(s, r.host, "");
    assert s.log + [] == s.log;
  }

  /** Each request is answered at most once: it is gone after its answer. */
  lemma AnsweredOnce(s: Sys, l: Label)
    requires Enabled(s, l) && (l.Serve? || l.BodyFails?)
    ensures Next(s, l).inflight == s.inflight - {l.id}
  {
  }

  // ----- the last critical section -----

  /** Fewer than 30 attempts came before this one in its window of one minute. */
  predicate UnderLimit(log: seq<Event>, c: Call) {
    var calls := Calls(log) + [c];
    |calls| - 1 - Opener(60 * SECOND, calls, |calls|) < 30
  }

  lemma UnderLimitMeans(s: Sys, clock: Readings)
    requires Reachable(s)
    ensures UnderLimit(s.log, Call(clock.check, clock.stamp)) <==> CountAttempt(s.f, clock).attempts <= ATTEMPT_LIMIT
  {
    ReachableInv(s);
    var c := Call(clock.check, clock.stamp);
    var calls := Calls(s.log) + [c];
    assert calls[..|calls| - 1] == Calls(s.log);
    AdmittedExactly(ATTEMPT_LIMIT, MINUTE, calls, |calls| - 1);
  }

  ghost function PairAnswer(log: seq<Event>, r: Request, clock: Readings, supply: Option<string>): Reply {
    if !UnderLimit(log, Call(clock.check, clock.stamp)) then Refused(429)
    else if r.body.Malformed? || r.body.trailing || r.body.version != "1" then Refused(400)
    else if !TicketStands(log, r.body.ticket, clock.compare) then Refused(401)
    else if supply.None? then Refused(500)
    else PairedReply(supply.value, r.host)
  }

  /** The answers to a host that is open or, while a Start verifies it, attached. */
  ghost function Answer(s: Sys, r: Request, clock: Readings, supply: Option<string>): Reply {
    var attached := s.starter.Attached? && s.starter.host == r.host;
    if !attached && !OpenAs(s.log, r.host) then Refused(403)
    else if r.path.Health? && r.verb.Get? then HealthReply(if attached then s.starter.session else s.f.session)
    else if attached || !SwitchedOn(s.log) then Refused(503)
    else if r.path.Download? && r.verb.Get? then
      if r.path.file.Some? then File(r.path.file.value) else Refused(404)
    else if r.path.Setup? && r.verb.Get? then
      if TicketStands(s.log, r.path.ticket, clock.check) then SetupPage(r.path.ticket, r.host) else Refused(404)
    else if r.foreign then Refused(403)
    else if r.path.Pair? then if r.verb.Post? then PairAnswer(s.log, r, clock, supply) else Refused(405)
    else if !r.path.Status? && !r.path.Clipboard? then Refused(404)
    else if exists token :: Granted(s.log, token) && r.authorization == ["Bearer " + token] then Forwarded(s.f.api)
    else Refused(401)
  }

  lemma PairAnswerExactly(s: Sys, r: Request, clock: Readings, supply: Option<string>)
    requires Reachable(s) && s.f.host == r.host
    ensures PairOutcome(s.f, r, clock, supply).1 == PairAnswer(s.log, r, clock, supply)
  {
    UnderLimitMeans(s, clock);
    if r.body.Decoded? {
      TicketMeans(s, r.body.ticket, clock.compare);
    }
  }

  /** Every answer of every request, from the events alone. */
  lemma AnsweredExactly(s: Sys, id: nat, clock: Readings, supply: Option<string>)
    requires Reachable(s) && Enabled(s, Serve(id, clock, supply))
    ensures Outcome(s.f, s.inflight[id], clock, supply).1 == Answer(s, s.inflight[id], clock, supply)
  {
    var r := s.inflight[id];
    StateAgrees(s);
    FieldsMean(s, r.host, "");
    AuthorizedMeans(s, r);
    if s.f.host == r.host {
      PairAnswerExactly(s, r, clock, supply);
    }
    if r.path.Setup? {
      TicketMeans(s, r.path.ticket, clock.check);
    }
  }

  lemma AttemptRecorded(s: Sys, r: Request, clock: Readings)
    requires Reachable(s)
    ensures var c := Call(clock.check, clock.stamp);
            AttemptEvents(s.f, r, clock) ==
            if r.path.Pair? && r.verb.Post? && !r.foreign && SwitchedOn(s.log) && OpenAs(s.log, r.host)
            then [Attempted(c, UnderLimit(s.log, c))] else []
  {
    StateAgrees(s);
    FieldsMean(s, r.host, "");
    UnderLimitMeans(s, clock);
  }

  lemma ReplyRecorded(f: Fields, r: Request, clock: Readings, supply: Option<string>)
    ensures ReplyEvents(f, r, clock, supply) ==
            match Outcome(f, r, clock, supply).1
            case PairedReply(token, _) => [Redeemed(r.body.ticket, token, clock.compare)]
            case Forwarded(_) => [Reached(r)]
            case _ => []
  {
  }

  /** And what the answer leaves in the events: an attempt, counted before its verdict, and
      a redemption or a request let through. */
  lemma RecordedExactly(s: Sys, id: nat, clock: Readings, supply: Option<string>)
    requires Reachable(s) && Enabled(s, Serve(id, clock, supply))
    ensures var r, c := s.inflight[id], Call(clock.check, clock.stamp);
            var attempt := if r.path.Pair? && r.verb.Post? && !r.foreign && SwitchedOn(s.log) && OpenAs(s.log, r.host)
                           then [Attempted(c, UnderLimit(s.log, c))] else [];
            var reply := match Answer(s, r, clock, supply)
                         case PairedReply(token, _) => [Redeemed(r.body.ticket, token, clock.compare)]
                         case Forwarded(_) => [Reached(r)]
                         case _ => [];
            Next(s, Serve(id, clock, supply)).log == s.log + (attempt + reply)
  {
    var r := s.inflight[id];
    AnsweredExactly(s, id, clock, supply);
    AttemptRecorded(s, r, clock);
    ReplyRecorded(s.f, r, clock, supply);
  }

  // ----- a tunnel's exit -----

  /** A live session whose tunnel ends: its watcher may step, and then it and its secrets are
      gone, and the events say so. */
  lemma ExitEndsTheSession(s: Sys, rt: nat)
    requires Reachable(s) && s.f.ready && s.f.runtime == Some(rt)
    ensures Enabled(s, TunnelEnds(rt))
    ensures var t := Next(s, TunnelEnds(rt));
            && t == s.(ended := s.ended + {rt}) && Enabled(t, Watch(rt))
            && Next(t, Watch(rt)) == t.(
                 f := s.f.(ready := false, paired := false, credential := "", ticket := "", host := "",
                           session := "", expires := None),
                 watchers := s.watchers - {rt}, log := s.log + [TunnelLost])
  {
    StateAgrees(s);
    assert s.log + [] == s.log;
  }
}
