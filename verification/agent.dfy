/** The agent's choice of entry: `configureConnection` under the mode lock, the stored
    mode, the QR it shows, and the service it drives, interleaved with the service's own
    watchers and requests. */
module Agent {
  import opened Basics
  import opened Service
  import opened Protocol

  const TAILSCALE := "tailscale"
  const SIMPLE := "simple"

  datatype Action = ToTailscale | ToSimple(pair: bool) | RevokePairing | Shutdown

  /** Where the holder of the mode lock stands; Free when nobody holds it. A switch to
      Tailscale remembers what it found, for comparison. */
  datatype Place =
    | Free
    | Preparing(found: Found) | Leaving(found: Found) | Saving(found: Found) | Restoring(found: Found)
    | Closing | Forgetting
    | Starting(pair: bool) | Entering(pair: bool) | Undoing | Activating(pair: bool)
    | AskPaired(pair: bool) | AskPending | Offering | Noting(pairing: Pairing)
    | Revoking
    | Shutting

  datatype Found = Found(mode: string, shown: Pairing, active: bool)

  /** `present` says that the service object exists; `shown` is `simplePairing`; `mode`
      and `token` are the store's in-memory mode and pairing token. */
  datatype Desktop = Desktop(svc: Sys, present: bool, mode: string, token: string, shown: Pairing, at: Place)

  datatype Move =
    | Others(l: Label)
    | Rotate(token: string)
    | Begin(action: Action)
    | Act(l: Label)
    | Prepare(ok: bool)
    | Save(ok: bool)
    | Look(now: Time)
    | Note

  function Launch(now: Time, mode: string, token: string): Desktop {
    Desktop(Boot(now), false, mode, token, NoPairing, Free)
  }

  /** What runs beside the holder of the mode lock. */
  predicate IsOthers(l: Label) {
    l.TunnelEnds? || l.Watch? || l.Arrive? || l.BodyFails? || l.Serve?
  }

  /** The service step the holder makes where it stands. */
  predicate Makes(a: Desktop, l: Label) {
    match a.at
    case Leaving(_) => a.present && l == SetActive(false)
    case Restoring(_) => a.present && a.mode == SIMPLE && l == SetActive(true)
    case Closing => a.present && l.Close?
    case Starting(_) => IsStart(l)
    case Undoing => l.Close?
    case Activating(_) => l == SetActive(true)
    case Offering => l.NewPairing?
    case Revoking => a.present && l.Revoke?
    case Shutting => a.present && l.Close?
    case _ => false
  }

  predicate Possible(a: Desktop, m: Move) {
    match m
    case Others(l) => IsOthers(l) && Enabled(a.svc, l)
    case Rotate(_) => true
    case Begin(_) => a.at.Free?
    case Act(l) => Makes(a, l) && Enabled(a.svc, l)
    case Prepare(_) => a.at.Preparing?
    case Save(_) => a.at.Saving? || (a.at.Entering? && a.mode != SIMPLE)
    case Look(now) => a.at.AskPaired? || (a.at.AskPending? && a.svc.now <= now)
    case Note =>
      || a.at.Forgetting? || a.at.Noting?
      || (!a.present && (a.at.Leaving? || a.at.Closing? || a.at.Revoking? || a.at.Shutting?))
      || (a.at.Restoring? && !(a.present && a.mode == SIMPLE))
      || (a.at.Entering? && a.mode == SIMPLE)
  }

  function Entry(a: Desktop, action: Action): Place {
    match action
    case ToTailscale => Preparing(Found(a.mode, a.shown, a.svc.f.active))
    case ToSimple(pair) => Starting(pair)
    case RevokePairing => Revoking
    case Shutdown => Shutting
  }

  /** Where the holder goes after its service step. */
  function Onward(a: Desktop, l: Label): Place
    requires Makes(a, l) && Enabled(a.svc, l)
  {
    match a.at
    case Leaving(found) => Saving(found)
    case Restoring(_) => Free
    case Closing => Forgetting
    case Starting(pair) =>
      if l.StartReady? || (l.StartBegin? && StillLive(a.svc)) then Entering(pair)
      else if Next(a.svc, l).starter.Idle? then Free
      else a.at
    case Activating(pair) => AskPaired(pair)
    case Offering =>
      if CanOffer(a.svc.f) && l.supply.Some?
      then Noting(Pairing(a.svc.f.host, l.supply.value, Some(l.at + PAIRING_LIFE))) else Free
    case Revoking => if l.supply.Some? then Forgetting else Free
    case _ => Free
  }

  function OnNote(a: Desktop): Desktop
    requires Possible(a, Note)
  {
    match a.at
    case Forgetting => a.(shown := NoPairing, at := Free)
    case Noting(p) => a.(shown := p, at := Free)
    case Leaving(found) => a.(at := Saving(found))
    case Closing => a.(at := Forgetting)
    case Revoking => a.(at := Forgetting)
    case Entering(pair) => a.(at := Activating(pair))
    case _ => a.(at := Free)
  }

  function Moved(a: Desktop, m: Move): Desktop
    requires Possible(a, m)
  {
    match m
    case Others(l) => a.(svc := Next(a.svc, l))
    case Rotate(token) => a.(token := token)
    case Begin(action) => a.(at := Entry(a, action), present := a.present || action.ToSimple?)
    case Act(l) => a.(svc := Next(a.svc, l), at := Onward(a, l))
    case Prepare(ok) => a.(at := if ok then Leaving(a.at.found) else Free)
    case Save(ok) =>
      if a.at.Saving? then
        if ok then a.(mode := TAILSCALE, at := Closing) else a.(at := Restoring(a.at.found))
      else
        if ok then a.(mode := SIMPLE, at := Activating(a.at.pair)) else a.(at := Undoing)
    case Look(now) =>
      if a.at.AskPaired? then
        a.(at := if a.at.pair then Offering else if a.svc.f.ready && a.svc.f.paired then Free else AskPending)
      else a.(at := if PairingPending(a.svc.f, now) then Free else Offering)
    case Note => OnNote(a)
  }

  ghost predicate IsDesktopRun(states: seq<Desktop>, moves: seq<Move>) {
    && |states| == |moves| + 1
    && (exists t, mode, token :: states[0] == Launch(t, mode, token))
    && forall i | 0 <= i < |moves| :: Possible(states[i], moves[i]) && states[i + 1] == Moved(states[i], moves[i])
  }

  ghost predicate ReachableDesktop(a: Desktop) {
    exists states, moves :: IsDesktopRun(states, moves) && states[|states| - 1] == a
  }

  // ----- the invariant -----

  /** The pairing that a redeemable ticket belongs to. */
  function OfferedPairing(f: Fields): Pairing {
    Pairing(f.host, f.ticket, f.expires)
  }

  predicate Agrees(a: Desktop) {
    var f := a.svc.f;
    && (f.active ==> a.mode == SIMPLE && a.present)
    && (a.svc.starter.Idle? || a.at.Starting?)
    && (a.at.Saving? || a.at.Restoring? || a.at.Closing? ==> !f.active)
    && (a.at.Starting? || a.at.Entering? || a.at.Undoing? || a.at.Activating? || a.at.AskPaired? || a.at.AskPending?
        || a.at.Offering? || a.at.Noting?
        ==> a.present)
    && (a.at.Activating? || a.at.AskPaired? || a.at.AskPending? || a.at.Offering? || a.at.Noting? ==> a.mode == SIMPLE)
    && (a.at.AskPaired? || a.at.AskPending? || a.at.Offering? || a.at.Noting? ==> f.active)
    && (!a.present || a.at.Forgetting? ==> f.ticket == "")
    && (f.ticket != "" && !a.at.Closing? ==>
          f.active || (a.mode == SIMPLE && a.present && (a.at.Saving? || a.at.Restoring?)))
    && (f.ticket != "" ==> OfferedPairing(f) == if a.at.Noting? then a.at.pairing else a.shown)
    && (a.at.Preparing? ==> f.active == a.at.found.active)
    && (a.at.Preparing? || a.at.Leaving? || a.at.Saving? || a.at.Restoring? ==>
          a.mode == a.at.found.mode && a.shown == a.at.found.shown
              && (a.at.found.active ==> a.mode == SIMPLE && a.present))
  }

  ghost predicate DesktopInv(a: Desktop) {
    WholeInv(a.svc) && Agrees(a)
  }

  /** What the service's own threads may do to the fields. */
  predicate OthersMay(f: Fields, g: Fields) {
    && g.active == f.active && g.runtime == f.runtime
    && (g.ticket == "" || OfferedPairing(g) == OfferedPairing(f))
  }

  lemma OthersRespect(s: Sys, l: Label)
    requires FieldsAgree(s.f) && StarterAgrees(s) && Enabled(s, l) && IsOthers(l)
    ensures OthersMay(s.f, Next(s, l).f) && Next(s, l).starter == s.starter
  {
  }

  lemma ActKeeps(a: Desktop, l: Label)
    requires FieldsAgree(a.svc.f) && StarterAgrees(a.svc) && Agrees(a) && Possible(a, Act(l))
    ensures Agrees(Moved(a, Act(l)))
  {
  }

  lemma MoveKeeps(a: Desktop, m: Move)
    requires FieldsAgree(a.svc.f) && StarterAgrees(a.svc) && Agrees(a) && Possible(a, m)
    ensures Agrees(Moved(a, m))
  {
    match m
    case Others(l) => OthersRespect(a.svc, l);
    case Act(l) => ActKeeps(a, l);
    case _ =>
  }

  // ----- theorems -----

  lemma RunSnoc(states: seq<Sys>, labels: seq<Label>, s: Sys, l: Label)
    requires IsRun(states, labels) && states[|states| - 1] == s && Enabled(s, l)
    ensures IsRun(states + [Next(s, l)], labels + [l])
  {
    var states', labels' := states + [Next(s, l)], labels + [l];
    assert states'[0] == states[0];
    forall i | 0 <= i < |labels'|
      ensures Enabled(states'[i], labels'[i]) && states'[i + 1] == Next(states'[i], labels'[i])
    {
      if i < |labels| {
        assert states'[i] == states[i] && states'[i + 1] == states[i + 1];
      }
    }
  }

  lemma ReachableNext(s: Sys, l: Label)
    requires Reachable(s) && Enabled(s, l)
    ensures Reachable(Next(s, l))
  {
    var states, labels :| IsRun(states, labels) && states[|states| - 1] == s;
    RunSnoc(states, labels, s, l);
  }

  lemma BootReachable(t: Time)
    ensures Reachable(Boot(t))
  {
    assert IsRun([Boot(t)], []);
  }

  lemma {:induction false} RunKeepsDesktop(states: seq<Desktop>, moves: seq<Move>, i: nat)
    requires IsDesktopRun(states, moves) && i < |states|
    ensures Agrees(states[i]) && Reachable(states[i].svc)
  {
    if i == 0 {
      var t, mode, token :| states[0] == Launch(t, mode, token);
      BootReachable(t);
    } else {
      RunKeepsDesktop(states, moves, i - 1);
      var a, m := states[i - 1], moves[i - 1];
      ReachableInv(a.svc);
      MoveKeeps(a, m);
      if m.Others? || m.Act? {
        ReachableNext(a.svc, m.l);
      }
    }
  }

  /** The service under the agent makes only runs of the service: everything proved of
      those holds here too. */
  lemma AgentRunsTheService(a: Desktop)
    requires ReachableDesktop(a)
    ensures Reachable(a.svc) && DesktopInv(a)
  {
    var states, moves :| IsDesktopRun(states, moves) && states[|states| - 1] == a;
    RunKeepsDesktop(states, moves, |states| - 1);
    ReachableInv(a.svc);
  }

  predicate TailscaleAdmits(a: Desktop) {
    a.mode == TAILSCALE
  }

  /** Mode exclusivity, through every failing branch and in the middle of every switch:
      an active service implies the stored mode "simple". So a request that the simple
      entry answers with more than a refusal or its health report finds the Tailscale
      gate shut. */
  lemma NeverBothAdmit(a: Desktop, id: nat, clock: Readings, supply: Option<string>)
    requires ReachableDesktop(a) && Enabled(a.svc, Serve(id, clock, supply))
    ensures a.svc.f.active ==> a.mode == SIMPLE
    ensures var reply := Outcome(a.svc.f, a.svc.inflight[id], clock, supply).1;
            TailscaleAdmits(a) ==> reply.Refused? || reply.HealthReply?
  {
    AgentRunsTheService(a);
  }

  /** Where a switch to Tailscale stands that found this. */
  predicate Switching(p: Place, found: Found) {
    ((p.Preparing? || p.Leaving? || p.Saving? || p.Restoring?) && p.found == found) || p.Closing? || p.Forgetting?
  }

  /** One switch to Tailscale: it begins at i, and from there to k the lock is held. */
  ghost predicate SwitchHolds(states: seq<Desktop>, moves: seq<Move>, i: nat, k: nat) {
    && IsDesktopRun(states, moves) && i < k < |states| && moves[i] == Begin(ToTailscale)
    && forall n | i < n <= k :: !states[n].at.Free?
  }

  lemma SwitchStep(a: Desktop, m: Move, found: Found)
    requires Switching(a.at, found) && Possible(a, m) && !Moved(a, m).at.Free?
    ensures var b := Moved(a, m);
            Switching(b.at, found) && (a.at.Restoring? || m == Save(false) ==> b.at.Restoring?)
  {
  }

  lemma {:induction false} SwitchStands(states: seq<Desktop>, moves: seq<Move>, i: nat, k: nat)
    requires SwitchHolds(states, moves, i, k)
    ensures Switching(states[k].at, Found(states[i].mode, states[i].shown, states[i].svc.f.active))
    ensures (exists m :: i < m < k && moves[m] == Save(false)) ==> states[k].at.Restoring?
    decreases k
  {
    if i + 1 < k {
      var n := k - 1;
      SwitchStands(states, moves, i, n);
      assert states[n + 1] == Moved(states[n], moves[n]);
      SwitchStep(states[n], moves[n], Found(states[i].mode, states[i].shown, states[i].svc.f.active));
    }
  }

  /** No switch, failed or not, and nothing else but a rotation changes the pairing token. */
  lemma {:induction false} OnlyRotationChangesToken(states: seq<Desktop>, moves: seq<Move>, i: nat, j: nat)
    requires IsDesktopRun(states, moves) && i <= j < |states| && forall k | i <= k < j :: !moves[k].Rotate?
    ensures states[j].token == states[i].token
  {
    if i < j {
      OnlyRotationChangesToken(states, moves, i, j - 1);
    }
  }

  /** From its first step at i to the release of the lock at j, with anything beside it: a
      switch to Tailscale that fails, at the Tailscale status, the preparation or the save,
      leaves the mode, the shown pairing and, unless it was rotated meanwhile, the pairing
      token that it found. The simple entry is as it was; only after a failed save it is
      switched on if and only if there is one and the mode is "simple". So an entry that was
      on is on again. */
  lemma FailedSwitchRestores(states: seq<Desktop>, moves: seq<Move>, i: nat, m: nat, j: nat)
    requires IsDesktopRun(states, moves) && i < m < j < |states|
    requires moves[i] == Begin(ToTailscale) && (moves[m] == Prepare(false) || moves[m] == Save(false))
    requires (forall n | i < n < j :: !states[n].at.Free?) && states[j].at.Free?
    ensures states[j].mode == states[i].mode && states[j].shown == states[i].shown
    ensures states[j].svc.f.active <==>
            if moves[m].Save? then states[j].present && states[j].mode == SIMPLE else states[i].svc.f.active
    ensures states[i].svc.f.active ==> states[j].svc.f.active
    ensures (forall n | i <= n < j :: !moves[n].Rotate?) ==> states[j].token == states[i].token
  {
    if forall n | i <= n < j :: !moves[n].Rotate? {
      OnlyRotationChangesToken(states, moves, i, j);
    }
    SwitchStands(states, moves, i, m);
    assert states[m + 1] == Moved(states[m], moves[m]);
    var n := j - 1;
    SwitchStands(states, moves, i, n);
    RunKeepsDesktop(states, moves, n);
    assert states[n + 1] == Moved(states[n], moves[n]);
  }

  /** The pairing URL of `connectionData`, read with the mode lock held by nobody else. */
  predicate ShowsQr(a: Desktop, now: Time) {
    && a.at.Free? && a.present
    && a.shown.ticket != "" && PairingPending(a.svc.f, now) && Before(now, a.shown.expires)
  }

  /** The request a phone makes with what the QR says. */
  predicate ScansQr(r: Request, p: Pairing) {
    && r.path.Pair? && r.verb.Post? && !r.foreign && r.host == p.host
    && r.body == Decoded("1", p.ticket, false)
  }

  /** A shown QR is live: it names the service's own host, ticket and expiry, the service
      is active, and redeeming it before the expiry and under the attempt limit succeeds. */
  lemma ShownQrIsLive(a: Desktop, now: Time)
    requires ReachableDesktop(a) && ShowsQr(a, now)
    ensures a.svc.f.active && a.svc.f.ready && a.mode == SIMPLE
    ensures a.shown == OfferedPairing(a.svc.f)
    ensures forall id, clock, supply ::
              Enabled(a.svc, Serve(id, clock, supply)) && ScansQr(a.svc.inflight[id], a.shown) && supply.Some?
              && clock.compare < a.shown.expires.value
              && CountAttempt(a.svc.f, clock).attempts <= ATTEMPT_LIMIT
              ==> Outcome(a.svc.f, a.svc.inflight[id], clock, supply).1 == PairedReply(supply.value, a.shown.host)
  {
    AgentRunsTheService(a);
  }

  /** Conversely, with the lock free a redeemable ticket is always the one shown: the
      desktop never hides a ticket that still works. */
  lemma LiveTicketIsShown(a: Desktop, now: Time)
    requires ReachableDesktop(a) && a.at.Free? && PairingPending(a.svc.f, now)
    ensures ShowsQr(a, now)
  {
    AgentRunsTheService(a);
  }

  // ----- the source's object, with nothing beside it -----

  /** What the calls of one `configureConnection` answer. */
  datatype World = World(
    statusOk: bool, prepareOk: bool, saveOk: bool,
    tunnelEnded: bool, secrets: Option<(string, string)>, rt: nat, result: StartResult,
    now: Time, supply: Option<string>)

  class Store {
    var mode: string
    var token: string

    constructor (mode: string, token: string)
      ensures this.mode == mode && this.token == token
    {
      this.mode, this.token := mode, token;
    }

    /** Update of the connection mode: the memory changes only after the file is saved. */
    method SetMode(next: string, saveOk: bool) returns (ok: bool)
      modifies this`mode
      ensures ok == saveOk && mode == if ok then next else old(mode)
    {
      if !saveOk {
        return false;
      }
      mode := next;
      ok := true;
    }
  }

  lemma StartedAgrees(f: Fields, w: World)
    requires FieldsAgree(f)
    requires w.secrets.Some? ==> w.secrets.value.0 != "" && w.secrets.value.1 != ""
    requires w.result.Verified? ==> ValidHost(w.result.host)
    ensures var (g, ok) := Started(f, w.tunnelEnded, w.secrets, w.rt, w.result);
            && FieldsAgree(g) && g.active == f.active
            && (ok ==> g.ready && (g.ticket == "" || g == f))
            && (!ok ==> !g.ready && g.ticket == "")
  {
  }

  /** What a switch leaves: the service's fields, the mode, the shown pairing, and whether it
      succeeded. */
  datatype Switch = Switch(f: Fields, mode: string, shown: Pairing, ok: bool)

  /** The last steps of "simple" and "pair", with the service started. */
  function PairingOffered(f: Fields, shown: Pairing, pair: bool, w: World): Switch {
    var g := f.(active := true);
    if !pair && ((g.ready && g.paired) || PairingPending(g, w.now)) then Switch(g, SIMPLE, shown, true)
    else if !CanOffer(g) || w.supply.None? then Switch(g, SIMPLE, shown, false)
    else
      var h := Offer(g, w.supply.value, w.now);
      Switch(h, SIMPLE, OfferedPairing(h), true)
  }

  /** "simple" and "pair" with nothing beside them. */
  function Simplified(f: Fields, mode: string, shown: Pairing, pair: bool, w: World): Switch {
    var (g, ok) := Started(f, w.tunnelEnded, w.secrets, w.rt, w.result);
    if !ok then Switch(g, mode, shown, false)
    else if mode != SIMPLE && !w.saveOk then Switch(Cleared(g.(runtime := None, active := false)), mode, shown, false)
    else PairingOffered(g, shown, pair, w)
  }

  /** A session is up and its tunnel runs. */
  predicate Up(f: Fields, w: World) {
    f.runtime.Some? && f.ready && !w.tunnelEnded
  }

  /** The last steps on a service that is up: a ticket is due if it is asked for, or the
      phone has no other way in; then the switch succeeds exactly if one can be had. */
  lemma PairingOfferedExactly(f: Fields, shown: Pairing, pair: bool, w: World)
    requires FieldsAgree(f) && f.ready
    ensures var t := PairingOffered(f, shown, pair, w);
            var due := pair || (!f.paired && !(f.ticket != "" && f.expires.Some? && w.now < f.expires.value));
            && (t.ok <==> due ==> w.supply.Some?) && t.mode == SIMPLE
            && t.f == f.(active := true, ticket := t.f.ticket, expires := t.f.expires)
            && if t.ok && due
               then
                 && t.f.ticket == w.supply.value && t.f.expires == Some(w.now + 300 * SECOND)
                 && t.shown == Pairing(f.host, t.f.ticket, t.f.expires)
               else t.f.ticket == f.ticket && t.f.expires == f.expires && t.shown == shown
  {
  }

  /** What "simple" and "pair" start from: the session that stood, or a new one. */
  function Session(f: Fields, w: World): Fields
    requires Up(f, w) || (w.secrets.Some? && w.result.Verified?)
  {
    if Up(f, w) then f
    else f.(ready := true, paired := false, session := w.secrets.value.0, credential := w.secrets.value.1,
            api := Some(w.secrets.value.1), host := w.result.host, runtime := Some(w.rt),
            ticket := "", expires := None)
  }

  lemma StartedExactly(f: Fields, w: World)
    requires FieldsAgree(f)
    ensures var (g, ok) := Started(f, w.tunnelEnded, w.secrets, w.rt, w.result);
            && (ok <==> Up(f, w) || (w.secrets.Some? && w.result.Verified?))
            && (ok ==> g == Session(f, w) && g.ready)
            && (!ok ==> !g.ready && g.runtime.None? && g.active == f.active && Cleared(g) == g)
  {
  }

  /** The whole of "simple" and "pair": without a session, or without the mode stored, there
      is no session left, and in the second case the service is off; otherwise the last steps
      are made on the session that stood or on the new one. */
  lemma SimplifiedExactly(f: Fields, mode: string, shown: Pairing, pair: bool, w: World)
    requires FieldsAgree(f)
    ensures var t := Simplified(f, mode, shown, pair, w);
            var up := Up(f, w) || (w.secrets.Some? && w.result.Verified?);
            if up && (mode == SIMPLE || w.saveOk)
            then t == PairingOffered(Session(f, w), shown, pair, w) && Session(f, w).ready
            else
              && !t.ok && t.mode == mode && t.shown == shown
              && !t.f.ready && t.f.runtime.None? && !t.f.paired && t.f.credential == "" && t.f.ticket == ""
              && t.f.host == "" && t.f.session == "" && t.f.expires.None? && t.f.active == (!up && f.active)
  {
    StartedExactly(f, w);
  }

  /** "tailscale" with nothing beside it. */
  function Tailscaled(f: Fields, mode: string, shown: Pairing, present: bool, w: World): Switch {
    if !w.statusOk || !w.prepareOk then Switch(f, mode, shown, false)
    else if !w.saveOk then Switch(if present then f.(active := mode == SIMPLE) else f, mode, shown, false)
    else Switch(if present then Cleared(f.(runtime := None, active := false)) else f, TAILSCALE, NoPairing, true)
  }

  class ConnectionAgent {
    const store: Store
    var simple: SimpleService?
    var simplePairing: Pairing

    ghost predicate Valid()
      reads this, store, simple
    {
      && (simple != null ==>
            var f := simple.View();
            && FieldsAgree(f)
            && (f.active ==> store.mode == SIMPLE)
            && (f.ticket != "" ==> f.active && simplePairing == OfferedPairing(f)))
    }

    constructor (store: Store)
      ensures Valid() && simple == null && this.store == store
    {
      this.store, simple, simplePairing := store, null, NoPairing;
    }

    method SwitchToTailscale(w: World) returns (ok: bool)
      requires Valid()
      modifies this, store, simple
      ensures Valid() && simple == old(simple) && store.token == old(store.token)
      ensures Switch(if simple != null then simple.View() else Blank, store.mode, simplePairing, ok) ==
              Tailscaled(old(if simple != null then simple.View() else Blank), old(store.mode), old(simplePairing),
                         simple != null, w)
      ensures ok <==> w.statusOk && w.prepareOk && w.saveOk
      ensures ok ==> store.mode == TAILSCALE && simplePairing == NoPairing
      ensures ok && simple != null ==>
                simple.View()
                    == Cleared(old(if simple != null then simple.View() else Blank).(runtime := None, active := false))
      ensures !ok ==> store.mode == old(store.mode) && simplePairing == old(simplePairing)
      ensures !ok && simple != null ==>
                simple.View() == old(if simple != null then simple.View() else Blank).(active := simple.active)
                && simple.active ==
                   if w.statusOk && w.prepareOk then store.mode == SIMPLE else old(simple != null && simple.active)
    {
      if !w.statusOk || !w.prepareOk {
        return false;
      }
      if simple != null {
        simple.SetActive(false);
      }
      var saved := store.SetMode(TAILSCALE, w.saveOk);
      if !saved {
        if simple != null && store.mode == SIMPLE {
          simple.SetActive(true);
        }
        return false;
      }
      if simple != null {
        var _ := simple.Close();
      }
      simplePairing := NoPairing;
      ok := true;
    }

    /** Creates the service if need be, and starts it. */
    method StartService(w: World) returns (ok: bool)
      requires Valid()
      requires w.secrets.Some? ==> w.secrets.value.0 != "" && w.secrets.value.1 != ""
      requires w.result.Verified? ==> ValidHost(w.result.host)
      modifies this`simple, simple
      ensures Valid() && simple != null && (if old(simple) == null then fresh(simple) else simple == old(simple))
      ensures (simple.View(), ok) ==
              Started(old(if simple != null then simple.View() else Blank), w.tunnelEnded, w.secrets, w.rt, w.result)
      ensures ok ==> simple.ready && (simple.ticket == "" || simple.active)
      ensures !ok ==> !simple.ready && simple.ticket == ""
    {
      if simple == null {
        simple := new SimpleService();
      }
      StartedAgrees(simple.View(), w);
      ok := simple.Start(w.tunnelEnded, w.secrets, w.rt, w.result);
    }

    /** The last steps of "simple" and "pair", with the service started. */
    method OfferPairing(service: SimpleService, pair: bool, w: World) returns (ok: bool)
      requires Valid() && simple == service && service.ready && store.mode == SIMPLE
      requires w.supply.Some? ==> w.supply.value != ""
      modifies this`simplePairing, service
      ensures Valid()
      ensures Switch(service.View(), SIMPLE, simplePairing, ok)
              == PairingOffered(old(service.View()), old(simplePairing), pair, w)
      ensures service.active && service.ready
      ensures service.View()
              == old(service.View()).(active := true, ticket := service.ticket, expires := service.expires)
      ensures var pending := old(service.ticket != "" && service.expires.Some? && w.now < service.expires.value);
              var needed := pair || (!old(service.paired) && !pending);
              && (ok <==> !needed || w.supply.Some?)
              && if needed && ok
                 then
                   && service.ticket == w.supply.value && service.expires == Some(w.now + 300 * SECOND)
                   && simplePairing == Pairing(service.host, service.ticket, service.expires)
                 else
                   && service.ticket == old(service.ticket) && service.expires == old(service.expires)
                   && simplePairing == old(simplePairing)
    {
      ghost var f := service.View();
      service.SetActive(true);
      assert service.View() == f.(active := true);
      var paired := service.Paired();
      var pending := service.Pending(w.now);
      if pair || (!paired && !pending) {
        var p := service.NewPairing(w.now, w.supply);
        if p.None? {
          return false;
        }
        simplePairing := p.value;
      }
      ok := true;
    }

    /** "simple" and "pair". */
    method SwitchToSimple(pair: bool, w: World) returns (ok: bool)
      requires Valid()
      requires w.secrets.Some? ==> w.secrets.value.0 != "" && w.secrets.value.1 != ""
      requires w.result.Verified? ==> ValidHost(w.result.host)
      requires w.supply.Some? ==> w.supply.value != ""
      modifies this, store, simple
      ensures Valid() && simple != null && (if old(simple) == null then fresh(simple) else simple == old(simple))
      ensures store.token == old(store.token)
      ensures Switch(simple.View(), store.mode, simplePairing, ok) ==
              Simplified(old(if simple != null then simple.View() else Blank), old(store.mode), old(simplePairing),
                         pair, w)
      ensures ok ==>
        && store.mode == SIMPLE && simple.active && simple.ready
        && (simple.paired || PairingPending(simple.View(), w.now))
        && (pair ==> w.supply.Some? && simple.ticket == w.supply.value)
      ensures !ok && store.mode != SIMPLE ==> !simple.active && !simple.ready && simple.ticket == ""
    {
      ok := StartService(w);
      if !ok {
        return;
      }
      if store.mode != SIMPLE {
        ok := store.SetMode(SIMPLE, w.saveOk);
        if !ok {
          var _ := simple.Close();
          return;
        }
      }
      ok := OfferPairing(simple, pair, w);
    }

    method RevokeAll(w: World) returns (ok: bool)
      requires Valid()
      requires w.supply.Some? ==> w.supply.value != ""
      modifies this, simple
      ensures Valid() && simple == old(simple)
      ensures ok <==> simple == null || w.supply.Some?
      ensures ok ==> simplePairing == NoPairing
      ensures ok && simple != null
              ==> simple.View() == Revoked(old(if simple != null then simple.View() else Blank), w.supply.value)
      ensures !ok ==>
              && simplePairing == old(simplePairing) && simple != null
              && simple.View() == old(if simple != null then simple.View() else Blank)
    {
      if simple != null {
        var revoked := simple.Revoke(w.supply);
        if !revoked {
          return false;
        }
      }
      simplePairing := NoPairing;
      ok := true;
    }
  }
}
