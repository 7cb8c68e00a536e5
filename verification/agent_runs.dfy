/** The agent's whole-call functions are the runs of its relation in which nothing comes
    between. */
module AgentRuns {
  import opened Basics
  import opened Service
  import opened Protocol
  import opened Agent

  /** From a to b by the holder's own steps. */
  ghost predicate Alone(a: Desktop, moves: seq<Move>, b: Desktop)
    decreases |moves|
  {
    if moves == [] then a == b
    else
      && !moves[0].Others? && !moves[0].Rotate? && Possible(a, moves[0])
      && Alone(Moved(a, moves[0]), moves[1..], b)
  }

  lemma FirstStep(a: Desktop, m: Move, moves: seq<Move>, b: Desktop)
    requires !m.Others? && !m.Rotate? && Possible(a, m) && Alone(Moved(a, m), moves, b)
    ensures Alone(a, [m] + moves, b)
  {
    assert ([m] + moves)[1..] == moves;
  }

  lemma {:induction false} AloneThen(a: Desktop, first: seq<Move>, b: Desktop, second: seq<Move>, c: Desktop)
    requires Alone(a, first, b) && Alone(b, second, c)
    ensures Alone(a, first + second, c)
    decreases |first|
  {
    if first == [] {
      assert first + second == second;
    } else {
      AloneThen(Moved(a, first[0]), first[1..], b, second, c);
      FirstStep(a, first[0], first[1..] + second, c);
      assert first + second == [first[0]] + (first[1..] + second);
    }
  }

  lemma LastStep(a: Desktop, m: Move)
    requires !m.Others? && !m.Rotate? && Possible(a, m)
    ensures Alone(a, [m], Moved(a, m))
  {
  }

  predicate FreshSupply(s: Sys, w: World) {
    s.now <= w.now && CanSupply(s, w.supply)
  }

  /** The answers are ones the world can give here: unused secrets, a valid host, no reading
      of the clock before the last one. */
  predicate Answers(s: Sys, w: World) {
    && w.rt == s.nextRt && FreshSupply(s, w)
    && (w.secrets.Some? ==>
          && NewSecret(s, w.secrets.value.0) && NewSecret(s, w.secrets.value.1)
              && w.secrets.value.0 != w.secrets.value.1
          && (w.supply.Some? ==> w.supply.value != w.secrets.value.0 && w.supply.value != w.secrets.value.1))
    && (w.result.Unverified? || w.result.Verified? ==> ValidHost(w.result.host))
  }

  predicate TunnelOver(s: Sys) {
    s.f.runtime.Some? && s.f.runtime.value in s.ended
  }

  /** A start whose host cannot be verified. */
  lemma StartUnverifiedAlone(a: Desktop, w: World) returns (moves: seq<Move>, b: Desktop)
    requires a.at.Starting? && a.svc.starter.Begun? && Answers(a.svc, w) && w.secrets.Some? && w.result.Unverified?
    requires a.svc.f == Cleared(a.svc.f.(runtime := None))
    ensures Alone(a, moves, b) && b == a.(svc := b.svc, at := Free)
    ensures b.svc.f == Started(a.svc.f, w.tunnelEnded, w.secrets, w.rt, w.result).0
  {
    var issue := Act(StartIssue(w.secrets.value.0, w.secrets.value.1));
    var attach := Act(StartAttach(w.result.host));
    var s1 := Moved(a, issue);
    var s2 := Moved(s1, attach);
    moves, b := [Act(Label.StartUnverified)], Moved(s2, Act(Label.StartUnverified));
    LastStep(s2, Act(Label.StartUnverified));
    FirstStep(s1, attach, moves, b);
    FirstStep(a, issue, [attach] + moves, b);
    moves := [issue] + ([attach] + moves);
  }

  /** A start without secrets or without a tunnel. */
  lemma StartFailsAlone(a: Desktop, w: World) returns (moves: seq<Move>, b: Desktop)
    requires a.at.Starting? && a.svc.starter.Begun? && Answers(a.svc, w)
    requires w.secrets.None? || w.result.NoTunnel? || w.result.BadUrl?
    requires a.svc.f == Cleared(a.svc.f.(runtime := None))
    ensures Alone(a, moves, b) && b == a.(svc := b.svc, at := Free)
    ensures b.svc.f == Started(a.svc.f, w.tunnelEnded, w.secrets, w.rt, w.result).0
  {
    if w.secrets.None? {
      moves, b := [Act(StartAbort)], Moved(a, Act(StartAbort));
      LastStep(a, Act(StartAbort));
    } else {
      var issue := Act(StartIssue(w.secrets.value.0, w.secrets.value.1));
      var s1 := Moved(a, issue);
      moves, b := [Act(StartNoTunnel)], Moved(s1, Act(StartNoTunnel));
      LastStep(s1, Act(StartNoTunnel));
      FirstStep(a, issue, moves, b);
      moves := [issue] + moves;
    }
  }

  /** The last two steps of a start that comes up. */
  lemma AttachAlone(a: Desktop, host: string) returns (moves: seq<Move>, b: Desktop)
    requires a.at.Starting? && a.svc.starter.Issued? && ValidHost(host)
    ensures Alone(a, moves, b) && b == a.(svc := b.svc, at := Entering(a.at.pair))
    ensures b.svc.f == a.svc.f.(host := host, runtime := Some(a.svc.nextRt), ready := true)
    ensures b.svc.starter.Idle? && b.svc.now == a.svc.now && b.svc.issued == a.svc.issued
  {
    var attach := Act(StartAttach(host));
    var s1 := Moved(a, attach);
    moves, b := [Act(Label.StartReady)], Moved(s1, Act(Label.StartReady));
    LastStep(s1, Act(Label.StartReady));
    FirstStep(a, attach, moves, b);
    moves := [attach] + moves;
  }

  /** A start that comes up. */
  lemma StartOpensAlone(a: Desktop, w: World) returns (moves: seq<Move>, b: Desktop)
    requires a.at.Starting? && a.svc.starter.Begun? && Answers(a.svc, w) && w.secrets.Some? && w.result.Verified?
    requires a.svc.f == Cleared(a.svc.f.(runtime := None))
    ensures Alone(a, moves, b) && b == a.(svc := b.svc, at := Entering(a.at.pair))
    ensures b.svc.f == Started(a.svc.f, w.tunnelEnded, w.secrets, w.rt, w.result).0
    ensures b.svc.starter.Idle? && FreshSupply(b.svc, w)
  {
    var issue := Act(StartIssue(w.secrets.value.0, w.secrets.value.1));
    moves, b := AttachAlone(Moved(a, issue), w.result.host);
    FirstStep(a, issue, moves, b);
    moves := [issue] + moves;
  }

  lemma StartAlone(a: Desktop, w: World) returns (moves: seq<Move>, b: Desktop)
    requires a.at.Starting? && a.svc.starter.Idle? && Answers(a.svc, w) && (w.tunnelEnded <==> TunnelOver(a.svc))
    ensures var (f, ok) := Started(a.svc.f, w.tunnelEnded, w.secrets, w.rt, w.result);
            && Alone(a, moves, b) && b == a.(svc := b.svc, at := if ok then Entering(a.at.pair) else Free)
            && b.svc.f == f && (ok ==> b.svc.starter.Idle? && FreshSupply(b.svc, w))
  {
    var begun := Moved(a, Act(Label.StartBegin));
    if StillLive(a.svc) {
      moves, b := [Act(Label.StartBegin)], begun;
    } else {
      if w.secrets.Some? && w.result.Verified? {
        moves, b := StartOpensAlone(begun, w);
      } else if w.secrets.Some? && w.result.Unverified? {
        moves, b := StartUnverifiedAlone(begun, w);
      } else {
        moves, b := StartFailsAlone(begun, w);
      }
      FirstStep(a, Act(Label.StartBegin), moves, b);
      moves := [Act(Label.StartBegin)] + moves;
    }
  }

  /** A new pairing: offered and shown, or the lock let go. */
  lemma OfferAlone(a: Desktop, w: World) returns (moves: seq<Move>, b: Desktop)
    requires a.at.Offering? && FreshSupply(a.svc, w)
    ensures Alone(a, moves, b) && b.at.Free? && b.mode == a.mode
    ensures if CanOffer(a.svc.f) && w.supply.Some?
            then b.svc.f == Offer(a.svc.f, w.supply.value, w.now) && b.shown == OfferedPairing(b.svc.f)
            else b.svc.f == a.svc.f && b.shown == a.shown
  {
    var offer := Act(Label.NewPairing(w.now, w.supply));
    var s1 := Moved(a, offer);
    if s1.at.Noting? {
      moves, b := [Note], Moved(s1, Note);
    } else {
      moves, b := [], s1;
    }
    FirstStep(a, offer, moves, b);
    moves := [offer] + moves;
  }

  lemma AskAlone(a: Desktop, w: World) returns (moves: seq<Move>, b: Desktop)
    requires a.at.AskPaired? && FreshSupply(a.svc, w) && a.svc.f.active
    ensures Alone(a, moves, b) && b.at.Free? && b.mode == a.mode
    ensures var done := PairingOffered(a.svc.f, a.shown, a.at.pair, w); b.svc.f == done.f && b.shown == done.shown
  {
    var s1 := Moved(a, Look(w.now));
    if s1.at.Offering? {
      moves, b := OfferAlone(s1, w);
    } else if s1.at.AskPending? {
      var s2 := Moved(s1, Look(w.now));
      if s2.at.Offering? {
        moves, b := OfferAlone(s2, w);
      } else {
        moves, b := [], s2;
      }
      FirstStep(s1, Look(w.now), moves, b);
      moves := [Look(w.now)] + moves;
    } else {
      moves, b := [], s1;
    }
    FirstStep(a, Look(w.now), moves, b);
    moves := [Look(w.now)] + moves;
  }

  lemma ActivateAlone(a: Desktop, w: World) returns (moves: seq<Move>, b: Desktop)
    requires a.at.Activating? && FreshSupply(a.svc, w)
    ensures Alone(a, moves, b) && b.at.Free? && b.mode == a.mode
    ensures var done := PairingOffered(a.svc.f, a.shown, a.at.pair, w); b.svc.f == done.f && b.shown == done.shown
  {
    var s1 := Moved(a, Act(Label.SetActive(true)));
    moves, b := AskAlone(s1, w);
    FirstStep(a, Act(Label.SetActive(true)), moves, b);
    moves := [Act(Label.SetActive(true))] + moves;
  }

  lemma EnterAlone(a: Desktop, w: World) returns (moves: seq<Move>, b: Desktop)
    requires a.at.Entering? && a.svc.starter.Idle? && FreshSupply(a.svc, w)
    ensures Alone(a, moves, b) && b.at.Free?
    ensures if a.mode != SIMPLE && !w.saveOk
            then b.mode == a.mode && b.shown == a.shown && b.svc.f
                == Cleared(a.svc.f.(runtime := None, active := false))
            else
              var done := PairingOffered(a.svc.f, a.shown, a.at.pair, w);
              b.mode == SIMPLE && b.svc.f == done.f && b.shown == done.shown
  {
    var m := if a.mode == SIMPLE then Note else Save(w.saveOk);
    var s1 := Moved(a, m);
    if s1.at.Undoing? {
      moves, b := [Act(Label.Close)], Moved(s1, Act(Label.Close));
    } else {
      moves, b := ActivateAlone(s1, w);
    }
    FirstStep(a, m, moves, b);
    moves := [m] + moves;
  }

  /** The whole of "simple" and "pair" in one go is a run of the relation in which nothing
      comes between. */
  lemma SimplifiedIsARun(a: Desktop, pair: bool, w: World) returns (moves: seq<Move>, b: Desktop)
    requires a.at.Free? && a.svc.starter.Idle? && Answers(a.svc, w) && (w.tunnelEnded <==> TunnelOver(a.svc))
    ensures Alone(a, moves, b) && b.at.Free?
    ensures var done := Simplified(a.svc.f, a.mode, a.shown, pair, w);
            b.svc.f == done.f && b.mode == done.mode && b.shown == done.shown
  {
    var m := Begin(ToSimple(pair));
    var s1 := Moved(a, m);
    moves, b := StartAlone(s1, w);
    if b.at.Entering? {
      var more, c := EnterAlone(b, w);
      AloneThen(s1, moves, b, more, c);
      moves, b := moves + more, c;
    }
    FirstStep(a, m, moves, b);
    moves := [m] + moves;
  }

  /** The rest of "tailscale" after its save. */
  lemma AfterSaveAlone(a: Desktop) returns (moves: seq<Move>, b: Desktop)
    requires a.svc.starter.Idle? && (a.at.Closing? || a.at.Restoring?)
    ensures Alone(a, moves, b) && b.at.Free? && b.mode == a.mode
    ensures if a.at.Closing?
            then b.shown == NoPairing
                 && b.svc.f == if a.present then Cleared(a.svc.f.(runtime := None, active := false)) else a.svc.f
            else b.shown == a.shown
                 && b.svc.f == if a.present && a.mode == SIMPLE then a.svc.f.(active := true) else a.svc.f
  {
    if a.at.Closing? {
      var close := if a.present then Act(Label.Close) else Note;
      var s1 := Moved(a, close);
      moves, b := [Note], Moved(s1, Note);
      LastStep(s1, Note);
      FirstStep(a, close, moves, b);
      moves := [close] + moves;
    } else {
      var on := if a.present && a.mode == SIMPLE then Act(Label.SetActive(true)) else Note;
      moves, b := [on], Moved(a, on);
      LastStep(a, on);
    }
  }

  /** The rest of "tailscale" after its preparation. */
  lemma PreparedAlone(a: Desktop, w: World) returns (moves: seq<Move>, b: Desktop)
    requires a.at.Leaving? && a.svc.starter.Idle? && w.statusOk && w.prepareOk
    ensures Alone(a, moves, b) && b.at.Free?
    ensures var done := Tailscaled(a.svc.f, a.mode, a.shown, a.present, w);
            b.svc.f == done.f && b.mode == done.mode && b.shown == done.shown
  {
    var off := if a.present then Act(Label.SetActive(false)) else Note;
    var left := Moved(a, off);
    moves, b := AfterSaveAlone(Moved(left, Save(w.saveOk)));
    FirstStep(left, Save(w.saveOk), moves, b);
    FirstStep(a, off, [Save(w.saveOk)] + moves, b);
    moves := [off] + ([Save(w.saveOk)] + moves);
  }

  /** And so is that of "tailscale". */
  lemma TailscaledIsARun(a: Desktop, w: World) returns (moves: seq<Move>, b: Desktop)
    requires a.at.Free? && a.svc.starter.Idle?
    ensures Alone(a, moves, b) && b.at.Free?
    ensures var done := Tailscaled(a.svc.f, a.mode, a.shown, a.present, w);
            b.svc.f == done.f && b.mode == done.mode && b.shown == done.shown
  {
    var begin, prepared := Begin(ToTailscale), w.statusOk && w.prepareOk;
    var asked := Moved(a, begin);
    var answered := Moved(asked, Prepare(prepared));
    if prepared {
      moves, b := PreparedAlone(answered, w);
    } else {
      moves, b := [], answered;
    }
    FirstStep(asked, Prepare(prepared), moves, b);
    FirstStep(a, begin, [Prepare(prepared)] + moves, b);
    moves := [begin] + ([Prepare(prepared)] + moves);
  }

  /** "revoke": the service's token is replaced, and the QR goes; nothing changes if no token
      can be had. Without a service only the QR goes. */
  lemma RevokedIsARun(a: Desktop, w: World) returns (moves: seq<Move>, b: Desktop)
    requires a.at.Free? && FreshSupply(a.svc, w)
    ensures Alone(a, moves, b) && b.at.Free? && b.mode == a.mode && b.token == a.token
    ensures if a.present && w.supply.None?
            then b.svc.f == a.svc.f && b.shown == a.shown
            else
              && b.shown == NoPairing
              && b.svc.f == if a.present
                 then a.svc.f.(credential := w.supply.value, api := Some(w.supply.value),
                               paired := false, ticket := "", expires := None)
                 else a.svc.f
  {
    var begin := Begin(RevokePairing);
    var asked := Moved(a, begin);
    var revoke := if a.present then Act(Label.Revoke(w.supply)) else Note;
    var revoked := Moved(asked, revoke);
    if revoked.at.Forgetting? {
      moves, b := [Note], Moved(revoked, Note);
      LastStep(revoked, Note);
    } else {
      moves, b := [], revoked;
    }
    FirstStep(asked, revoke, moves, b);
    FirstStep(a, begin, [revoke] + moves, b);
    moves := [begin] + ([revoke] + moves);
  }

  /** The end of the agent closes the service and leaves the stored mode. */
  lemma ShutdownIsARun(a: Desktop) returns (moves: seq<Move>, b: Desktop)
    requires a.at.Free? && a.svc.starter.Idle?
    ensures Alone(a, moves, b) && b.at.Free? && b.mode == a.mode && b.token == a.token && b.shown == a.shown
    ensures b.svc.f == if a.present
            then a.svc.f.(active := false, ready := false, paired := false, credential := "", ticket := "",
                          host := "", session := "", expires := None, runtime := None)
            else a.svc.f
  {
    var begin := Begin(Shutdown);
    var asked := Moved(a, begin);
    var close := if a.present then Act(Label.Close) else Note;
    b := Moved(asked, close);
    LastStep(asked, close);
    FirstStep(a, begin, [close], b);
    moves := [begin] + [close];
  }
}
