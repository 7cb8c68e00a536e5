/** One clipboard transaction: the retried open with its back-off, the nested cleanups, and
    the serialisation of transactions. */
module NativeSession {
  import opened Basics

  // ----- errors -----

  datatype Error =
    | Busy | NoText | Unavailable | Cancelled | Other(code: nat)
    | Wrapped(inner: Error)
    | Cleanup(operation: Option<Error>, cause: Error)

  /** errors.Is: a cleanup error wraps its cause, and only prints the operation's error. */
  predicate Is(e: Error, target: Error) {
    e == target || (e.Wrapped? && Is(e.inner, target)) || (e.Cleanup? && Is(e.cause, target))
  }

  /** How a call ends. */
  datatype Answer = Done | Failed(error: Error) | Panicked

  predicate IsBusy(a: Answer) {
    a.Failed? && Is(a.error, Busy)
  }

  // ----- what happens, in order -----

  /** Every call a transaction makes, with what it answered. Nothing else can influence it. */
  datatype Event =
    | Lock
    | Check(cut: bool)
    | Create(owner: nat, answer: Answer)
    | Reading(at: Time)
    | OpenCall(owner: nat, answer: Answer)
    | Wait(asked: Time, cut: bool)
    | Operate(answer: Answer)
    | CloseCall(answer: Answer)
    | Destroy(owner: nat, answer: Answer)
    | Unlock

  /** Where one transaction stands. Timed is just after a reading of the clock. */
  datatype Phase =
    | Ready | Locked | Checked
    | Owning(owner: nat) | Timed(owner: nat) | OpenBy(owner: nat) | Working(owner: nat) | Operated(owner: nat)
    | Closing(owner: nat)
    | Unwound | Over

  function AfterOpen(o: nat, a: Answer): Phase {
    if IsBusy(a) then Owning(o) else if a.Done? then OpenBy(o) else Closing(o)
  }

  function AfterCheck(p: Phase, cut: bool): Option<Phase> {
    match p
    case Locked => Some(if cut then Unwound else Checked)
    case Owning(o) => Some(if cut then Closing(o) else Owning(o))
    case Timed(o) => Some(if cut then Closing(o) else Owning(o))
    case OpenBy(o) => Some(if cut then Operated(o) else Working(o))
    case _ => None
  }

  /** The one order of events a transaction may have. */
  function Move(p: Phase, e: Event): Option<Phase> {
    match e
    case Lock => if p.Ready? then Some(Locked) else None
    case Check(cut) => AfterCheck(p, cut)
    case Create(o, a) => if p.Checked? then Some(if a.Done? then Owning(o) else Unwound) else None
    case Reading(_) => if p.Owning? then Some(Timed(p.owner)) else None
    case OpenCall(o, a) => if p == Timed(o) then Some(AfterOpen(o, a)) else None
    case Wait(_, cut) => if p.Timed? then Some(if cut then Closing(p.owner) else Owning(p.owner)) else None
    case Operate(_) => if p.Working? then Some(Operated(p.owner)) else None
    case CloseCall(_) => if p.Operated? then Some(Closing(p.owner)) else None
    case Destroy(o, _) => if p == Timed(o) || p == Closing(o) then Some(Unwound) else None
    case Unlock => if p.Unwound? then Some(Over) else None
  }

  function Walk(p: Phase, t: seq<Event>): Option<Phase> {
    if t == [] then Some(p)
    else
      var q := Walk(p, t[..|t| - 1]);
      if q.None? then None else Move(q.value, t[|t| - 1])
  }

  predicate IsTransaction(t: seq<Event>) {
    Walk(Ready, t) == Some(Over)
  }

  lemma WalkSnoc(p: Phase, t: seq<Event>, e: Event)
    ensures Walk(p, t + [e]) == if Walk(p, t).None? then None else Move(Walk(p, t).value, e)
  {
    assert (t + [e])[..|t|] == t;
  }

  lemma {:induction false} WalkConcat(p: Phase, a: seq<Event>, b: seq<Event>)
    ensures Walk(p, a + b) == if Walk(p, a).None? then None else Walk(Walk(p, a).value, b)
  {
    if b == [] {
      assert a + b == a;
    } else {
      var init, e := b[..|b| - 1], b[|b| - 1];
      WalkConcat(p, a, init);
      assert a + b == (a + init) + [e];
      WalkSnoc(p, a + init, e);
    }
  }

  lemma {:induction false} WalkPrefix(p: Phase, t: seq<Event>, k: int)
    requires Walk(p, t).Some? && 0 <= k <= |t|
    ensures Walk(p, t[..k]).Some?
    decreases |t|
  {
    if k == |t| {
      assert t[..k] == t;
    } else {
      WalkPrefix(p, t[..|t| - 1], k);
      assert t[..|t| - 1][..k] == t[..k];
    }
  }

  // ----- each owner is destroyed once, each open closed once before that -----

  function Created(t: seq<Event>, o: nat): nat {
    if t == [] then 0 else Created(t[..|t| - 1], o) + if t[|t| - 1] == Create(o, Done) then 1 else 0
  }

  function Destroyed(t: seq<Event>, o: nat): nat {
    if t == [] then 0 else Destroyed(t[..|t| - 1], o) + if t[|t| - 1].Destroy? && t[|t| - 1].owner == o then 1 else 0
  }

  function Opened(t: seq<Event>): nat {
    if t == [] then 0 else Opened(t[..|t| - 1]) + if t[|t| - 1].OpenCall? && t[|t| - 1].answer.Done? then 1 else 0
  }

  function Closed(t: seq<Event>): nat {
    if t == [] then 0 else Closed(t[..|t| - 1]) + if t[|t| - 1].CloseCall? then 1 else 0
  }

  predicate HasOwner(p: Phase) {
    p.Owning? || p.Timed? || p.OpenBy? || p.Working? || p.Operated? || p.Closing?
  }

  predicate HasOpen(p: Phase) {
    p.OpenBy? || p.Working? || p.Operated?
  }

  lemma {:induction false} WalkCounts(t: seq<Event>, o: nat)
    requires Walk(Ready, t).Some?
    ensures var p := Walk(Ready, t).value;
            && Created(t, o) == Destroyed(t, o) + (if HasOwner(p) && p.owner == o then 1 else 0)
            && Opened(t) == Closed(t) + (if HasOpen(p) then 1 else 0)
            && Created(t, o) <= 1 && Opened(t) <= 1
            && (p.Ready? || p.Locked? || p.Checked? ==> Created(t, o) == 0)
            && (p.Ready? || p.Locked? || p.Checked? || p.Owning? || p.Timed? ==> Opened(t) == 0)
  {
    if t != [] {
      WalkCounts(t[..|t| - 1], o);
    }
  }

  /** In a whole transaction each owner created is destroyed exactly once, the clipboard is
      closed exactly as often as it was opened, and by the time an owner is destroyed it
      has been closed. */
  lemma NothingLeaks(t: seq<Event>, o: nat)
    requires IsTransaction(t)
    ensures Created(t, o) == Destroyed(t, o) <= 1 && Opened(t) == Closed(t) <= 1
    ensures forall k | 0 <= k < |t| && t[k].Destroy? :: Opened(t[..k]) == Closed(t[..k])
  {
    WalkCounts(t, o);
    forall k | 0 <= k < |t| && t[k].Destroy?
      ensures Opened(t[..k]) == Closed(t[..k])
    {
      WalkPrefix(Ready, t, k + 1);
      assert t[..k + 1][..k] == t[..k];
      WalkCounts(t[..k], o);
    }
  }

  // ----- the answer of a transaction -----

  /** What a deferred cleanup does to the outcome. */
  function Settle(outcome: Answer, cleanup: Answer): Answer {
    match cleanup
    case Done => outcome
    case Panicked => Panicked
    case Failed(e) =>
      if outcome.Panicked? then Panicked
      else Failed(Cleanup(if outcome.Failed? then Some(outcome.error) else None, e))
  }

  /** The source's `sessionCleanupError`; None is nil. */
  function SessionCleanupError(operation: Option<Error>, cleanup: Option<Error>): Option<Error> {
    if cleanup.None? then operation else Some(Cleanup(operation, cleanup.value))
  }

  function AsAnswer(e: Option<Error>): Answer {
    if e.None? then Done else Failed(e.value)
  }

  /** Without panics a deferred cleanup is `sessionCleanupError`; and what its result is, is
      what the cleanup's error is if there is one, else what the operation's error is. */
  lemma CleanupErrorKeepsCause(operation: Option<Error>, cleanup: Option<Error>, target: Error)
    requires !target.Cleanup?
    ensures Settle(AsAnswer(operation), AsAnswer(cleanup)) == AsAnswer(SessionCleanupError(operation, cleanup))
    ensures var r := SessionCleanupError(operation, cleanup);
            (r.Some? && Is(r.value, target)) <==>
            if cleanup.Some? then Is(cleanup.value, target) else operation.Some? && Is(operation.value, target)
  {
  }

  /** How one event changes the answer so far. A stage that ends with a reading of the clock
      has run out of time; one that ends with a wait was cut short. */
  function NextAnswer(before: Answer, e: Event): Answer {
    match e
    case Check(cut) => if cut then Failed(Cancelled) else before
    case Create(_, a) => a
    case Reading(_) => Failed(Busy)
    case OpenCall(_, a) => a
    case Wait(_, _) => Failed(Cancelled)
    case Operate(a) => a
    case CloseCall(a) => Settle(before, a)
    case Destroy(_, a) => Settle(before, a)
    case _ => before
  }

  /** The answer the events call for: that of the last stage reached, changed by each cleanup
      after it. */
  function AnswerOf(t: seq<Event>): Answer {
    if t == [] then Done else NextAnswer(AnswerOf(t[..|t| - 1]), t[|t| - 1])
  }

  predicate IsCleanup(e: Event) {
    e.CloseCall? || e.Destroy?
  }

  /** Every cleanup succeeded. */
  predicate AllClean(t: seq<Event>) {
    forall e | e in t && IsCleanup(e) :: e.answer.Done?
  }

  /** What the phase says about the answer so far, with whether the operation was done and
      the cleanups succeeded. */
  predicate Tells(p: Phase, worked: bool, clean: bool, answer: Answer) {
    && (!p.Operated? && !p.Closing? && !p.Unwound? && !p.Over? ==> !worked && clean)
    && (p.Operated? ==> clean)
    && (p.Timed? ==> answer == Failed(Busy))
    && (p.Operated? || p.Closing? || p.Unwound? || p.Over? ==> (answer.Done? <==> worked && clean))
  }

  lemma TellsNext(p: Phase, e: Event, worked: bool, clean: bool, answer: Answer)
    requires Tells(p, worked, clean, answer) && Move(p, e).Some?
    ensures Tells(Move(p, e).value, worked || e == Operate(Done), clean
                  && (IsCleanup(e) ==> e.answer.Done?), NextAnswer(answer, e))
  {
  }

  lemma {:induction false} WalkTells(t: seq<Event>)
    requires Walk(Ready, t).Some?
    ensures Tells(Walk(Ready, t).value, Operate(Done) in t, AllClean(t), AnswerOf(t))
  {
    if t != [] {
      var init, last := t[..|t| - 1], t[|t| - 1];
      assert t == init + [last];
      WalkTells(init);
      TellsNext(Walk(Ready, init).value, last, Operate(Done) in init, AllClean(init), AnswerOf(init));
      assert Operate(Done) in t <==> Operate(Done) in init || last == Operate(Done);
      assert AllClean(t) <==> AllClean(init) && (IsCleanup(last) ==> last.answer.Done?);
    }
  }

  /** A transaction succeeds if and only if its operation did and so did every cleanup. */
  lemma SuccessExactly(t: seq<Event>)
    requires IsTransaction(t)
    ensures AnswerOf(t).Done? <==> Operate(Done) in t && AllClean(t)
  {
    WalkTells(t);
  }

  /** Only cleanups and the unlocking follow a cleanup. */
  lemma {:induction false} CleanupsComeLast(t: seq<Event>, k: int)
    requires Walk(Ready, t).Some? && 0 <= k < |t| && IsCleanup(t[k])
    ensures var p := Walk(Ready, t).value; p.Closing? || p.Unwound? || p.Over?
    ensures forall m | k <= m < |t| :: IsCleanup(t[m]) || t[m].Unlock?
    decreases |t|
  {
    var init := t[..|t| - 1];
    if k < |t| - 1 {
      CleanupsComeLast(init, k);
      assert forall m | 0 <= m < |init| :: t[m] == init[m];
    }
  }

  /** The last cleanup of t that failed. */
  ghost predicate LastFailure(t: seq<Event>, k: int, e: Error) {
    && 0 <= k < |t| && IsCleanup(t[k]) && t[k].answer == Failed(e)
    && forall m | k < m < |t| && IsCleanup(t[m]) :: t[m].answer.Done?
  }

  lemma {:induction false} FailureShows(t: seq<Event>, k: int, e: Error, target: Error)
    requires LastFailure(t, k, e) && !target.Cleanup? && forall m | k <= m < |t| :: IsCleanup(t[m]) || t[m].Unlock?
    ensures var r := AnswerOf(t);
            r.Panicked? || (r.Failed? && (Is(r.error, target) <==> Is(e, target)))
    decreases |t|
  {
    var init := t[..|t| - 1];
    if k < |t| - 1 {
      assert forall m | 0 <= m < |init| :: t[m] == init[m];
      assert LastFailure(init, k, e);
      FailureShows(init, k, e, target);
    }
  }

  /** A failed cleanup is never taken for the operation's own "no text" or "busy": what the
      reported error is, is what the last failed cleanup is. */
  lemma CleanupNeverMasked(t: seq<Event>, k: int, e: Error, target: Error)
    requires IsTransaction(t) && LastFailure(t, k, e) && !target.Cleanup?
    ensures var r := AnswerOf(t);
            r.Panicked? || (r.Failed? && (Is(r.error, target) <==> Is(e, target)))
  {
    CleanupsComeLast(t, k);
    FailureShows(t, k, e, target);
  }

  /** Cleanups that succeed report the answer of the last stage unchanged. */
  lemma {:induction false} CleanRunsReportStage(t: seq<Event>, k: int)
    requires 0 <= k <= |t| && AllClean(t) && forall m | k <= m < |t| :: IsCleanup(t[m]) || t[m].Unlock?
    ensures AnswerOf(t) == AnswerOf(t[..k])
    decreases |t|
  {
    if k == |t| {
      assert t[..k] == t;
    } else {
      var init := t[..|t| - 1];
      assert forall m | 0 <= m < |init| :: t[m] == init[m];
      assert t[|t| - 1] in t && t == init + [t[|t| - 1]];
      CleanRunsReportStage(init, k);
      assert init[..k] == t[..k];
    }
  }

  // ----- the clock -----

  /** The earliest time it can be after t, as far as t tells: the last reading, and the waits
      since that were not cut short. */
  function Earliest(t: seq<Event>): Option<Time> {
    if t == [] then None
    else
      var before := Earliest(t[..|t| - 1]);
      match t[|t| - 1]
      case Reading(at) => Some(at)
      case Wait(asked, cut) => if before.Some? && !cut then Some(before.value + asked) else before
      case _ => before
  }

  /** Readings never run backwards, and a wait that is not cut short lasts at least as long
      as asked. */
  ghost predicate Physical(t: seq<Event>) {
    forall k | 0 <= k < |t| && t[k].Reading? && Earliest(t[..k]).Some? :: Earliest(t[..k]).value <= t[k].at
  }

  lemma PhysicalSnoc(t: seq<Event>, e: Event)
    requires Physical(t) && (e.Reading? && Earliest(t).Some? ==> Earliest(t).value <= e.at)
    ensures Physical(t + [e])
  {
    var t' := t + [e];
    forall k | 0 <= k < |t'| && t'[k].Reading? && Earliest(t'[..k]).Some?
      ensures Earliest(t'[..k]).value <= t'[k].at
    {
      assert t'[..k] == t[..k];
      assert t[..|t|] == t;
    }
  }

  lemma WaitPasses(t: seq<Event>, asked: Time, cut: bool)
    ensures var before, after := Earliest(t), Earliest(t + [Wait(asked, cut)]);
            after == if before.Some? && !cut then Some(before.value + asked) else before
  {
    var t' := t + [Wait(asked, cut)];
    assert t'[|t'| - 1] == Wait(asked, cut) && t'[..|t'| - 1] == t;
  }

  lemma {:induction false} EarliestSuffix(base: seq<Event>, t: seq<Event>)
    requires Earliest(t).Some?
    ensures Earliest(base + t) == Earliest(t)
  {
    var init := t[..|t| - 1];
    assert (base + t)[..|base + t| - 1] == base + init;
    if Earliest(init).Some? {
      EarliestSuffix(base, init);
    }
  }

  lemma PhysicalSuffix(base: seq<Event>, t: seq<Event>)
    requires Physical(base + t)
    ensures Physical(t)
  {
    forall k | 0 <= k < |t| && t[k].Reading? && Earliest(t[..k]).Some?
      ensures Earliest(t[..k]).value <= t[k].at
    {
      assert (base + t)[..|base| + k] == base + t[..k];
      EarliestSuffix(base, t[..k]);
      assert (base + t)[|base| + k] == t[k];
    }
  }

  // ----- the back-off -----

  const FIRST_DELAY: Time := 10 * MILLISECOND
  const MAX_DELAY: Time := 160 * MILLISECOND
  const MAX_OPEN_WAIT: Time := SECOND

  /** The delay after k waits. */
  function DelayAt(k: nat): Time {
    if k == 0 then FIRST_DELAY else Min(2 * DelayAt(k - 1), MAX_DELAY)
  }

  /** The time k whole delays take. */
  function Budget(k: nat): Time {
    if k == 0 then 0 else Budget(k - 1) + DelayAt(k - 1)
  }

  function Opens(t: seq<Event>): nat {
    if t == [] then 0 else Opens(t[..|t| - 1]) + if t[|t| - 1].OpenCall? then 1 else 0
  }

  function Waits(t: seq<Event>): nat {
    if t == [] then 0 else Waits(t[..|t| - 1]) + if t[|t| - 1].Wait? then 1 else 0
  }

  /** What must stand before event k of a retry: an open only straight after an uncancelled
      check and a reading before the deadline; a wait only straight after a busy open and a
      reading before the deadline, of the delay now due but not past the deadline. */
  predicate Justified(t: seq<Event>, k: int, owner: nat, deadline: Time)
    requires 0 <= k < |t|
  {
    match t[k]
    case Reading(_) => k == 0 || t[k - 1] == Check(false) || (t[k - 1].OpenCall? && IsBusy(t[k - 1].answer))
    case Check(_) => k == 1 || (k > 1 && t[k - 1].Wait? && !t[k - 1].cut)
    case OpenCall(o, _) =>
      && o == owner && k >= 2 && t[k - 2] == Check(false) && t[k - 1].Reading? && t[k - 1].at < deadline
    case Wait(asked, _) =>
      && k >= 2 && t[k - 2].OpenCall? && t[k - 1].Reading? && t[k - 1].at < deadline
      && asked == Min(DelayAt(Waits(t[..k])), deadline - t[k - 1].at)
    case _ => false
  }

  ghost predicate AllJustified(t: seq<Event>, owner: nat, deadline: Time) {
    forall k | 0 <= k < |t| :: Justified(t, k, owner, deadline)
  }

  /** A retry so far. It starts with the reading its deadline counts from. */
  ghost predicate Retrying(t: seq<Event>, owner: nat, limit: Time) {
    t != [] && t[0].Reading? && AllJustified(t, owner, t[0].at + limit)
  }

  /** When a retry may end: cancelled, out of time by its latest reading, or answered. */
  predicate MayEnd(t: seq<Event>, limit: Time)
    requires t != [] && t[0].Reading?
  {
    match t[|t| - 1]
    case Check(cut) => cut
    case Wait(_, cut) => cut
    case Reading(at) => |t| > 1 && at >= t[0].at + limit
    case OpenCall(_, a) => !IsBusy(a)
    case _ => false
  }

  /** A whole retry. */
  ghost predicate IsRetry(t: seq<Event>, owner: nat, limit: Time) {
    Retrying(t, owner, limit) && MayEnd(t, limit)
  }

  lemma JustifiedStays(t: seq<Event>, more: seq<Event>, k: int, owner: nat, deadline: Time)
    requires 0 <= k < |t| && Justified(t, k, owner, deadline)
    ensures Justified(t + more, k, owner, deadline)
  {
    assert (t + more)[..k] == t[..k];
  }

  lemma CountsSnoc(t: seq<Event>, e: Event)
    ensures Opens(t + [e]) == Opens(t) + (if e.OpenCall? then 1 else 0)
    ensures Waits(t + [e]) == Waits(t) + (if e.Wait? then 1 else 0)
  {
    assert (t + [e])[..|t|] == t;
  }

  lemma RetrySnoc(t: seq<Event>, e: Event, owner: nat, limit: Time)
    requires Retrying(t, owner, limit) && Justified(t + [e], |t|, owner, t[0].at + limit)
    ensures Retrying(t + [e], owner, limit)
    ensures Waits(t + [e]) == Waits(t) + (if e.Wait? then 1 else 0)
  {
    var deadline := t[0].at + limit;
    CountsSnoc(t, e);
    forall k | 0 <= k < |t + [e]|
      ensures Justified(t + [e], k, owner, deadline)
    {
      if k < |t| {
        JustifiedStays(t, [e], k, owner, deadline);
      }
    }
  }

  /** No open once the deadline has been read, no wait asked past it; a retry ends with the
      first answer that is not busy; and it gives up as busy only once the deadline has been
      read, as cancelled only if told so. */
  lemma RetryKeepsDeadline(t: seq<Event>, owner: nat, limit: Time, k: int)
    requires IsRetry(t, owner, limit) && 0 <= k < |t|
    ensures t[k].OpenCall? ==> k >= 2 && t[k - 1].Reading? && t[k - 1].at < t[0].at + limit
    ensures t[k].Wait? ==> k >= 2 && t[k - 1].Reading? && 0 < t[k].asked && t[k - 1].at + t[k].asked <= t[0].at + limit
    ensures t[k].OpenCall? && !IsBusy(t[k].answer) ==> k == |t| - 1 && AnswerOf(t) == t[k].answer
    ensures !t[|t| - 1].OpenCall? ==>
              || (AnswerOf(t) == Failed(Busy) && t[|t| - 1].Reading? && t[|t| - 1].at >= t[0].at + limit)
              || (AnswerOf(t) == Failed(Cancelled)
                  && (t[|t| - 1] == Check(true) || (t[|t| - 1].Wait? && t[|t| - 1].cut)))
  {
    assert Justified(t, k, owner, t[0].at + limit);
    DelayCapped(Waits(t[..k]));
    if k < |t| - 1 {
      assert Justified(t, k + 1, owner, t[0].at + limit);
    }
  }

  lemma {:induction false} DelayCapped(k: nat)
    ensures 0 < DelayAt(k) <= MAX_DELAY && (k >= 4 ==> DelayAt(k) == MAX_DELAY)
  {
    if k > 0 {
      DelayCapped(k - 1);
      if k == 4 {
        assert DelayAt(1) == 20 * MILLISECOND;
        assert DelayAt(2) == 40 * MILLISECOND;
        assert DelayAt(3) == 80 * MILLISECOND;
      }
    }
  }

  lemma {:induction false} BudgetClosed(k: nat)
    requires k >= 4
    ensures Budget(k) == 150 * MILLISECOND + (k - 4) * MAX_DELAY
  {
    if k == 4 {
      assert DelayAt(1) == 20 * MILLISECOND && DelayAt(2) == 40 * MILLISECOND && DelayAt(3) == 80 * MILLISECOND;
      assert Budget(1) == 10 * MILLISECOND && Budget(2) == 30 * MILLISECOND && Budget(3) == 70 * MILLISECOND;
    } else {
      DelayCapped(k - 1);
      BudgetClosed(k - 1);
    }
  }

  /** An open that has not been waited after yet. */
  predicate Pending(t: seq<Event>) {
    && t != []
    && (t[|t| - 1].OpenCall? || (t[|t| - 1].Reading? && |t| > 1 && t[|t| - 2].OpenCall?))
  }

  predicate CutShort(t: seq<Event>) {
    t != [] && t[|t| - 1].Wait? && t[|t| - 1].cut
  }

  /** The delays kept to so far, or the time is up. */
  ghost predicate OnSchedule(t: seq<Event>, limit: Time)
    requires t != [] && t[0].Reading?
  {
    && Earliest(t).Some?
    && (CutShort(t) || Earliest(t).value >= t[0].at + limit || Earliest(t).value >= t[0].at + Budget(Waits(t)))
    && Opens(t) == Waits(t) + (if Pending(t) then 1 else 0)
    && (Opens(t) == 0 || Budget(Opens(t) - 1) < limit)
  }

  lemma FirstOnSchedule(t: seq<Event>, limit: Time)
    requires |t| == 1 && t[0].Reading?
    ensures OnSchedule(t, limit)
  {
    assert t[..0] == [];
  }

  lemma StepOnSchedule(t: seq<Event>, e: Event, owner: nat, limit: Time)
    requires Retrying(t + [e], owner, limit) && t != [] && OnSchedule(t, limit)
    requires e.Reading? ==> Earliest(t).value <= e.at
    ensures OnSchedule(t + [e], limit)
  {
    var t' := t + [e];
    assert t'[..|t|] == t;
    assert Justified(t', |t|, owner, t[0].at + limit);
    DelayCapped(Waits(t));
    CountsSnoc(t, e);
  }

  lemma RetryPrefix(t: seq<Event>, owner: nat, limit: Time)
    requires Retrying(t, owner, limit) && Physical(t) && |t| > 1
    ensures Retrying(t[..|t| - 1], owner, limit) && Physical(t[..|t| - 1])
  {
    var init := t[..|t| - 1];
    var deadline := t[0].at + limit;
    forall k | 0 <= k < |init|
      ensures Justified(init, k, owner, deadline)
    {
      assert Justified(t, k, owner, deadline);
      assert init[..k] == t[..k];
    }
    forall k | 0 <= k < |init| && init[k].Reading? && Earliest(init[..k]).Some?
      ensures Earliest(init[..k]).value <= init[k].at
    {
      assert init[..k] == t[..k] && init[k] == t[k];
    }
  }

  lemma {:induction false} RetryOnSchedule(t: seq<Event>, owner: nat, limit: Time)
    requires Retrying(t, owner, limit) && Physical(t)
    ensures OnSchedule(t, limit)
  {
    if |t| == 1 {
      FirstOnSchedule(t, limit);
    } else {
      var init, last := t[..|t| - 1], t[|t| - 1];
      assert t == init + [last];
      RetryPrefix(t, owner, limit);
      RetryOnSchedule(init, owner, limit);
      StepOnSchedule(init, last, owner, limit);
    }
  }

  function CeilDiv(a: int, b: int): int
    requires b > 0
  {
    (a + b - 1) / b
  }

  lemma Cancel(k: int, q: int, b: int)
    requires b > 0 && k * b < q * b
    ensures k < q
  {
  }

  lemma CeilAbove(k: int, a: int, b: int)
    requires b > 0 && k * b < a
    ensures k < CeilDiv(a, b)
  {
    var q := CeilDiv(a, b);
    assert a <= q * b;
    Cancel(k, q, b);
  }

  /** At most 4 + ceil((L - 150 ms) / 160 ms) opens for a limit L over 150 ms. */
  lemma OpensBounded(t: seq<Event>, owner: nat, limit: Time)
    requires Retrying(t, owner, limit) && Physical(t) && limit > 150 * MILLISECOND
    ensures Opens(t) <= 4 + CeilDiv(limit - 150 * MILLISECOND, MAX_DELAY)
  {
    RetryOnSchedule(t, owner, limit);
    var n := Opens(t);
    if n >= 5 {
      BudgetClosed(n - 1);
      CeilAbove(n - 5, limit - 150 * MILLISECOND, MAX_DELAY);
    } else {
      CeilAbove(0, limit - 150 * MILLISECOND, MAX_DELAY);
    }
  }

  /** Ten opens within the source's limit of one second. */
  lemma TenOpens(t: seq<Event>, owner: nat)
    requires Retrying(t, owner, MAX_OPEN_WAIT) && Physical(t)
    ensures Opens(t) <= 10
  {
    OpensBounded(t, owner, MAX_OPEN_WAIT);
  }

  // ----- the machine the transaction runs on -----

  /** The clock, the context and the foreign calls, each free to answer anything: but the
      clock does not run backwards, and a wait that is not cut short lasts at least as long
      as asked. Every call leaves its event, and only a call does. */
  class World {
    var clock: Time
    ghost var trace: seq<Event>

    ghost predicate Valid()
      reads this
    {
      Physical(trace) && (Earliest(trace).Some? ==> Earliest(trace).value <= clock)
    }

    constructor (clock: Time)
      ensures Valid() && trace == [] && this.clock == clock
    {
      this.clock, trace := clock, [];
    }

    method Pass() returns (now: Time)
      modifies this`clock
      ensures clock >= old(clock) && now == clock
    {
      var passed: Time :| passed >= 0;
      clock := clock + passed;
      now := clock;
    }

    method Record(ghost e: Event)
      requires Valid() && !e.Reading? && !e.Wait?
      modifies this
      ensures Valid() && trace == old(trace) + [e] && clock >= old(clock)
    {
      var _ := Pass();
      PhysicalSnoc(trace, e);
      assert (trace + [e])[..|trace|] == trace;
      trace := trace + [e];
    }

    method AnyAnswer() returns (a: Answer)
    {
      a := *;
    }

    method Now() returns (t: Time)
      requires Valid()
      modifies this
      ensures Valid() && trace == old(trace) + [Reading(t)] && t == clock >= old(clock)
    {
      t := Pass();
      PhysicalSnoc(trace, Reading(t));
      trace := trace + [Reading(t)];
    }

    method Context() returns (cut: bool)
      requires Valid()
      modifies this
      ensures Valid() && trace == old(trace) + [Check(cut)] && clock >= old(clock)
    {
      cut := *;
      Record(Check(cut));
    }

    method OpenClipboard(owner: nat) returns (a: Answer)
      requires Valid()
      modifies this
      ensures Valid() && trace == old(trace) + [OpenCall(owner, a)] && clock >= old(clock)
    {
      a := AnyAnswer();
      Record(OpenCall(owner, a));
    }

    method Sleep(asked: Time) returns (cut: bool)
      requires Valid() && asked > 0
      modifies this
      ensures Valid() && trace == old(trace) + [Wait(asked, cut)]
      ensures clock >= old(clock) && (!cut ==> clock >= old(clock) + asked)
    {
      cut := *;
      WaitPasses(trace, asked, cut);
      PhysicalSnoc(trace, Wait(asked, cut));
      var _ := Pass();
      clock := if cut then clock else clock + asked;
      trace := trace + [Wait(asked, cut)];
    }

    method LockThread()
      requires Valid()
      modifies this
      ensures Valid() && trace == old(trace) + [Lock]
    {
      Record(Lock);
    }

    method UnlockThread()
      requires Valid()
      modifies this
      ensures Valid() && trace == old(trace) + [Unlock]
    {
      Record(Unlock);
    }

    method CreateOwner() returns (owner: nat, a: Answer)
      requires Valid()
      modifies this
      ensures Valid() && trace == old(trace) + [Create(owner, a)]
    {
      owner := *;
      a := AnyAnswer();
      Record(Create(owner, a));
    }

    method Operation() returns (a: Answer)
      requires Valid()
      modifies this
      ensures Valid() && trace == old(trace) + [Operate(a)]
    {
      a := AnyAnswer();
      Record(Operate(a));
    }

    method CloseClipboard() returns (a: Answer)
      requires Valid()
      modifies this
      ensures Valid() && trace == old(trace) + [CloseCall(a)]
    {
      a := AnyAnswer();
      Record(CloseCall(a));
    }

    method DestroyOwner(owner: nat) returns (a: Answer)
      requires Valid()
      modifies this
      ensures Valid() && trace == old(trace) + [Destroy(owner, a)]
    {
      a := AnyAnswer();
      Record(Destroy(owner, a));
    }
  }

  /** The check and the reading a round starts with; None means that the open may follow. */
  method MayOpen(w: World, deadline: Time, ghost owner: nat, ghost limit: Time, ghost t: seq<Event>)
    returns (stop: Option<Answer>, ghost more: seq<Event>)
    requires w.Valid() && Retrying(t, owner, limit) && deadline == t[0].at + limit
    requires NextRound(t)
    modifies w
    ensures w.Valid() && w.trace == old(w.trace) + more && w.clock >= old(w.clock)
    ensures Retrying(t + more, owner, limit) && Waits(t + more) == Waits(t)
    ensures stop.Some? ==> MayEnd(t + more, limit) && stop.value == AnswerOf(t + more)
    ensures stop.None? ==>
              |more| == 2 && more[0] == Check(false) && more[1].Reading? && more[1].at < deadline
                  && old(w.clock) <= more[1].at
  {
    var cut := w.Context();
    more := [Check(cut)];
    RetrySnoc(t, Check(cut), owner, limit);
    assert (t + more)[..|t|] == t;
    if cut {
      return Some(Failed(Cancelled)), more;
    }
    var reading := w.Now();
    RetrySnoc(t + more, Reading(reading), owner, limit);
    assert t + more + [Reading(reading)] == t + (more + [Reading(reading)]);
    assert (t + more + [Reading(reading)])[..|t + more|] == t + more;
    more := more + [Reading(reading)];
    stop := if reading < deadline then None else Some(Failed(Busy));
  }

  /** The end of a round, after a busy open: the time left is read again, and waited for at
      most that. */
  method Pause(w: World, deadline: Time, delay: Time, ghost owner: nat, ghost limit: Time, ghost t: seq<Event>)
    returns (stop: Option<Answer>, ghost more: seq<Event>)
    requires w.Valid() && Retrying(t, owner, limit) && deadline == t[0].at + limit && delay == DelayAt(Waits(t))
    requires t[|t| - 1].OpenCall? && IsBusy(t[|t| - 1].answer)
    modifies w
    ensures w.Valid() && w.trace == old(w.trace) + more && Retrying(t + more, owner, limit)
    ensures stop.Some? ==> MayEnd(t + more, limit) && stop.value == AnswerOf(t + more)
    ensures stop.None? ==>
              NextRound(t + more) && Waits(t + more) == Waits(t) + 1 && w.clock > old(w.clock)
  {
    var later := w.Now();
    var remaining := deadline - later;
    more := [Reading(later)];
    RetrySnoc(t, Reading(later), owner, limit);
    var read := t + more;
    assert read[..|t|] == t;
    if remaining <= 0 {
      return Some(Failed(Busy)), more;
    }
    DelayCapped(Waits(t));
    var asked := Min(delay, remaining);
    var cut := w.Sleep(asked);
    assert (read + [Wait(asked, cut)])[..|read|] == read;
    RetrySnoc(read, Wait(asked, cut), owner, limit);
    assert read + [Wait(asked, cut)] == t + (more + [Wait(asked, cut)]);
    more := more + [Wait(asked, cut)];
    stop := if cut then Some(Failed(Cancelled)) else None;
  }

  /** A retry that is about to begin a round. */
  predicate NextRound(t: seq<Event>) {
    |t| == 1 || (t != [] && t[|t| - 1].Wait? && !t[|t| - 1].cut)
  }

  lemma AddOpen(t: seq<Event>, more: seq<Event>, owner: nat, limit: Time, a: Answer)
    requires Retrying(t + more, owner, limit) && t != [] && |more| == 2 && more[0] == Check(false)
    requires more[1].Reading? && more[1].at < t[0].at + limit
    ensures var tried := t + (more + [OpenCall(owner, a)]);
            && Retrying(tried, owner, limit) && Waits(tried) == Waits(t + more)
            && tried[0] == t[0] && tried[|tried| - 1] == OpenCall(owner, a) && AnswerOf(tried) == a
  {
    var before := t + more;
    var tried := before + [OpenCall(owner, a)];
    assert tried[..|before|] == before;
    RetrySnoc(before, OpenCall(owner, a), owner, limit);
    assert tried == t + (more + [OpenCall(owner, a)]);
  }

  /** One turn of the loop. None means go on. */
  method Round(w: World, deadline: Time, delay: Time, owner: nat, ghost limit: Time, ghost t: seq<Event>)
    returns (stop: Option<Answer>, ghost more: seq<Event>)
    requires w.Valid() && Retrying(t, owner, limit) && deadline == t[0].at + limit && delay == DelayAt(Waits(t))
             && NextRound(t)
    modifies w
    ensures w.Valid() && w.trace == old(w.trace) + more && Retrying(t + more, owner, limit)
    ensures stop.Some? ==> MayEnd(t + more, limit) && stop.value == AnswerOf(t + more)
    ensures stop.None? ==>
              && NextRound(t + more) && Waits(t + more) == Waits(t) + 1
              && w.clock > old(w.clock) && old(w.clock) < deadline
  {
    stop, more := MayOpen(w, deadline, owner, limit, t);
    if stop.Some? {
      return;
    }
    var a := w.OpenClipboard(owner);
    AddOpen(t, more, owner, limit, a);
    more := more + [OpenCall(owner, a)];
    ghost var tried := t + more;
    assert w.trace == old(w.trace) + more;
    if !IsBusy(a) {
      return Some(a), more;
    }
    ghost var pause;
    stop, pause := Pause(w, deadline, delay, owner, limit, tried);
    assert tried + pause == t + (more + pause);
    assert w.trace == old(w.trace) + (more + pause);
    more := more + pause;
  }

  /** The retried open. The measure is the time left. Its answer is the one its events call
      for, and they are a whole retry: nothing is left to choose. */
  method RetryOpenClipboard(w: World, limit: Time, owner: nat) returns (a: Answer, ghost t: seq<Event>)
    requires w.Valid()
    modifies w
    ensures w.Valid() && w.trace == old(w.trace) + t
    ensures IsRetry(t, owner, limit) && Physical(t) && a == AnswerOf(t)
  {
    var now := w.Now();
    var deadline := now + limit;
    var delay := FIRST_DELAY;
    t := [Reading(now)];
    assert t[..0] == [];
    while true
      invariant w.Valid() && w.trace == old(w.trace) + t && Retrying(t, owner, limit) && t[0] == Reading(now)
      invariant delay == DelayAt(Waits(t)) && deadline == now + limit && NextRound(t)
      decreases deadline - w.clock
    {
      ghost var more;
      var stop;
      stop, more := Round(w, deadline, delay, owner, limit, t);
      t := t + more;
      if stop.Some? {
        assert w.trace == old(w.trace) + t;
        PhysicalSuffix(old(w.trace), t);
        return stop.value, t;
      }
      delay := Min(delay * 2, MAX_DELAY);
    }
  }

  // ----- the transaction -----

  /** Where a retry leaves the transaction. */
  function RetryPhase(owner: nat, last: Event): Phase {
    match last
    case Reading(_) => Timed(owner)
    case Check(cut) => if cut then Closing(owner) else Owning(owner)
    case OpenCall(_, a) => AfterOpen(owner, a)
    case Wait(_, cut) => if cut then Closing(owner) else Owning(owner)
    case _ => Owning(owner)
  }

  lemma {:induction false} RetryWalks(t: seq<Event>, owner: nat, limit: Time)
    requires Retrying(t, owner, limit) && Physical(t)
    ensures Walk(Owning(owner), t) == Some(RetryPhase(owner, t[|t| - 1]))
  {
    if |t| == 1 {
      assert t[..0] == [];
    } else {
      RetryPrefix(t, owner, limit);
      RetryWalks(t[..|t| - 1], owner, limit);
      assert Justified(t, |t| - 1, owner, t[0].at + limit);
      assert t[..|t| - 1][|t| - 2] == t[|t| - 2];
    }
  }

  /** Events with no clock and no open in them. */
  predicate Timeless(t: seq<Event>) {
    forall k | 0 <= k < |t| :: !t[k].OpenCall? && !t[k].Wait? && !t[k].Reading?
  }

  lemma {:induction false} TimelessOpens(t: seq<Event>)
    requires Timeless(t)
    ensures Opens(t) == 0
  {
    if t != [] {
      TimelessOpens(t[..|t| - 1]);
    }
  }

  lemma {:induction false} OpensConcat(a: seq<Event>, b: seq<Event>)
    ensures Opens(a + b) == Opens(a) + Opens(b)
  {
    if b == [] {
      assert a + b == a;
    } else {
      OpensConcat(a, b[..|b| - 1]);
      assert (a + b)[..|a + b| - 1] == a + b[..|b| - 1];
    }
  }

  /** With the clipboard open: the operation, unless cancelled meanwhile, then Close. */
  method WhileOpen(w: World, owner: nat) returns (a: Answer, ghost t: seq<Event>)
    requires w.Valid()
    modifies w
    ensures w.Valid() && w.trace == old(w.trace) + t
    ensures Timeless(t) && Walk(OpenBy(owner), t) == Some(Closing(owner)) && a == AnswerOf(t)
  {
    var cut := w.Context();
    if cut {
      a := Failed(Cancelled);
      t := [Check(true)];
    } else {
      a := w.Operation();
      t := [Check(false), Operate(a)];
    }
    WorkedStage(owner, t, cut, a);
    var c := w.CloseClipboard();
    ghost var done := t + [CloseCall(c)];
    assert done[..|t|] == t;
    t := done;
    a := Settle(a, c);
  }

  lemma WorkedStage(owner: nat, t: seq<Event>, cut: bool, a: Answer)
    requires if cut then t == [Check(true)] && a == Failed(Cancelled) else t == [Check(false), Operate(a)]
    ensures Walk(OpenBy(owner), t) == Some(Operated(owner)) && AnswerOf(t) == a && Timeless(t)
  {
    if cut {
      assert t[..0] == [];
    } else {
      assert t[..1] == [Check(false)] && t[..1][..0] == [];
      assert Walk(OpenBy(owner), t[..1]) == Some(Working(owner));
    }
  }

  /** The retry of a stretch that starts with an owner, and nothing timed after it. */
  ghost predicate HasRetry(t: seq<Event>, owner: nat, limit: Time) {
    exists j | 0 < j <= |t| :: IsRetry(t[..j], owner, limit) && Physical(t[..j]) && Timeless(t[j..])
  }

  lemma EndWithDestroy(opening: seq<Event>, rest: seq<Event>, owner: nat, q: Phase, d: Answer)
    requires IsRetry(opening, owner, MAX_OPEN_WAIT) && Physical(opening) && Timeless(rest)
    requires Walk(Owning(owner), opening + rest) == Some(q) && (q == Timed(owner) || q == Closing(owner))
    ensures var t := opening + rest + [Destroy(owner, d)];
            && Walk(Owning(owner), t) == Some(Unwound) && HasRetry(t, owner, MAX_OPEN_WAIT)
            && AnswerOf(t) == Settle(AnswerOf(opening + rest), d)
  {
    var t := opening + rest + [Destroy(owner, d)];
    WalkSnoc(Owning(owner), opening + rest, Destroy(owner, d));
    assert t[..|opening + rest|] == opening + rest;
    assert t[..|opening|] == opening && t[|opening|..] == rest + [Destroy(owner, d)];
  }

  /** What follows a stage that went well answers as it would from the start. */
  lemma {:induction false} AnswerAfterDone(base: seq<Event>, t: seq<Event>)
    requires AnswerOf(base).Done?
    ensures AnswerOf(base + t) == AnswerOf(t)
  {
    if t == [] {
      assert base + t == base;
    } else {
      var init := t[..|t| - 1];
      assert (base + t)[..|base + t| - 1] == base + init;
      AnswerAfterDone(base, init);
    }
  }

  /** A finished retry, and what it leaves the transaction in. */
  lemma RetryLeaves(opening: seq<Event>, owner: nat)
    requires IsRetry(opening, owner, MAX_OPEN_WAIT) && Physical(opening)
    ensures AnswerOf(opening).Done? ==> Walk(Owning(owner), opening) == Some(OpenBy(owner))
    ensures !AnswerOf(opening).Done? ==>
              Walk(Owning(owner), opening) == Some(Timed(owner)) || Walk(Owning(owner), opening) == Some(Closing(owner))
  {
    RetryWalks(opening, owner, MAX_OPEN_WAIT);
  }

  lemma JoinOpen(opening: seq<Event>, rest: seq<Event>, owner: nat)
    requires AnswerOf(opening).Done? && Walk(Owning(owner), opening) == Some(OpenBy(owner))
    requires Walk(OpenBy(owner), rest) == Some(Closing(owner))
    ensures Walk(Owning(owner), opening + rest) == Some(Closing(owner)) && AnswerOf(opening + rest) == AnswerOf(rest)
  {
    WalkConcat(Owning(owner), opening, rest);
    AnswerAfterDone(opening, rest);
  }

  /** What stands between the retry and Destroy: nothing if it failed, else the operation's
      stage. */
  method AfterRetry(w: World, owner: nat, answer: Answer, ghost opening: seq<Event>)
    returns (a: Answer, ghost rest: seq<Event>)
    requires w.Valid() && IsRetry(opening, owner, MAX_OPEN_WAIT) && Physical(opening) && answer == AnswerOf(opening)
    modifies w
    ensures w.Valid() && w.trace == old(w.trace) + rest && Timeless(rest) && a == AnswerOf(opening + rest)
    ensures var q := Walk(Owning(owner), opening + rest); q == Some(Timed(owner)) || q == Some(Closing(owner))
  {
    RetryLeaves(opening, owner);
    if answer.Done? {
      a, rest := WhileOpen(w, owner);
      JoinOpen(opening, rest, owner);
    } else {
      a, rest := answer, [];
      assert opening + rest == opening;
    }
  }

  /** With the owner window: the open, what follows it, then Destroy. */
  method WithOwner(w: World, owner: nat) returns (a: Answer, ghost t: seq<Event>)
    requires w.Valid()
    modifies w
    ensures w.Valid() && w.trace == old(w.trace) + t
    ensures Walk(Owning(owner), t) == Some(Unwound) && a == AnswerOf(t)
    ensures HasRetry(t, owner, MAX_OPEN_WAIT)
  {
    ghost var opening;
    a, opening := RetryOpenClipboard(w, MAX_OPEN_WAIT, owner);
    ghost var rest;
    a, rest := AfterRetry(w, owner, a, opening);
    var d := w.DestroyOwner(owner);
    EndWithDestroy(opening, rest, owner, Walk(Owning(owner), opening + rest).value, d);
    t := opening + rest + [Destroy(owner, d)];
    a := Settle(a, d);
  }

  /** A transaction that gets as far as an owner retries within the limit of one second. */
  ghost predicate KeepsLimit(t: seq<Event>) {
    |t| > 3 && t[2].Create? && t[2].answer.Done? ==> HasRetry(t[3..], t[2].owner, MAX_OPEN_WAIT)
  }

  /** A transaction between the locking of the thread and its unlocking. */
  ghost predicate IsBody(t: seq<Event>) {
    && Walk(Locked, t) == Some(Unwound)
    && (|t| > 2 && t[1].Create? && t[1].answer.Done? ==> HasRetry(t[2..], t[1].owner, MAX_OPEN_WAIT))
  }

  lemma LimitLater(rest: seq<Event>, owner: nat)
    requires HasRetry(rest, owner, MAX_OPEN_WAIT)
    ensures HasRetry(rest + [Unlock], owner, MAX_OPEN_WAIT)
  {
    var j :| 0 < j <= |rest| && IsRetry(rest[..j], owner, MAX_OPEN_WAIT) && Physical(rest[..j]) && Timeless(rest[j..]);
    var t := rest + [Unlock];
    assert t[..j] == rest[..j] && t[j..] == rest[j..] + [Unlock];
  }

  lemma BodyWalks(owner: nat, a: Answer)
    ensures Walk(Locked, [Check(false), Create(owner, a)]) == Some(if a.Done? then Owning(owner) else Unwound)
    ensures AnswerOf([Check(false), Create(owner, a)]) == a
  {
    var t := [Check(false), Create(owner, a)];
    assert t[..1] == [Check(false)] && [Check(false)][..0] == [];
    assert Walk(Locked, [Check(false)]) == Some(Checked);
  }

  lemma CutBody()
    ensures IsBody([Check(true)]) && AnswerOf([Check(true)]) == Failed(Cancelled)
  {
    assert [Check(true)][..0] == [];
  }

  lemma OwnedBody(owner: nat, rest: seq<Event>)
    requires Walk(Owning(owner), rest) == Some(Unwound) && HasRetry(rest, owner, MAX_OPEN_WAIT)
    ensures var t := [Check(false), Create(owner, Done)] + rest; IsBody(t) && AnswerOf(t) == AnswerOf(rest)
  {
    var head := [Check(false), Create(owner, Done)];
    BodyWalks(owner, Done);
    WalkConcat(Locked, head, rest);
    AnswerAfterDone(head, rest);
    assert (head + rest)[2..] == rest;
  }

  lemma WholeTransaction(body: seq<Event>)
    requires IsBody(body)
    ensures var t := [Lock] + body + [Unlock]; IsTransaction(t) && KeepsLimit(t) && AnswerOf(t) == AnswerOf(body)
  {
    var t := [Lock] + body + [Unlock];
    assert [Lock][..0] == [];
    assert Walk(Ready, [Lock]) == Some(Locked) && AnswerOf([Lock]) == Done;
    WalkConcat(Ready, [Lock], body);
    WalkSnoc(Ready, [Lock] + body, Unlock);
    AnswerAfterDone([Lock], body);
    assert t[..|t| - 1] == [Lock] + body;
    if |t| > 3 && t[2].Create? && t[2].answer.Done? {
      assert t[2] == body[1] && |body| > 2 by {
        CreateIsNotLast(body);
      }
      LimitLater(body[2..], t[2].owner);
      assert t[3..] == body[2..] + [Unlock];
    }
  }

  lemma CreateIsNotLast(body: seq<Event>)
    requires Walk(Locked, body) == Some(Unwound)
    ensures |body| == 2 && body[1].Create? ==> !body[1].answer.Done?
  {
  }

  /** What runs with the thread locked. */
  method Body(w: World) returns (a: Answer, ghost t: seq<Event>)
    requires w.Valid()
    modifies w
    ensures w.Valid() && w.trace == old(w.trace) + t && IsBody(t) && a == AnswerOf(t)
  {
    var cut := w.Context();
    if cut {
      a, t := Failed(Cancelled), [Check(true)];
      CutBody();
      return;
    }
    var owner;
    owner, a := w.CreateOwner();
    t := [Check(false), Create(owner, a)];
    BodyWalks(owner, a);
    if a.Done? {
      ghost var rest;
      a, rest := WithOwner(w, owner);
      OwnedBody(owner, rest);
      t := t + rest;
    }
  }

  /** One transaction, from locking the thread to unlocking it. Whatever the calls answer, the
      events are a whole transaction whose retry keeps its limit, and the answer is the one
      they call for: that of the last stage reached, changed by the cleanups after it. */
  method Run(w: World) returns (a: Answer, ghost t: seq<Event>)
    requires w.Valid()
    modifies w
    ensures w.Valid() && w.trace == old(w.trace) + t
    ensures IsTransaction(t) && a == AnswerOf(t) && KeepsLimit(t)
  {
    w.LockThread();
    ghost var body;
    a, body := Body(w);
    w.UnlockThread();
    WholeTransaction(body);
    t := [Lock] + body + [Unlock];
  }

  /** A transaction starts with the locking, the check and the creation of the owner. */
  lemma {:induction false} WalkShape(t: seq<Event>)
    requires Walk(Ready, t).Some?
    ensures |t| > 0 ==> t[0].Lock?
    ensures |t| > 1 ==> t[1].Check?
    ensures |t| > 2 ==> t[2].Create? || t[2].Unlock?
    ensures var p := Walk(Ready, t).value;
            && (p.Ready? <==> |t| == 0) && (p.Locked? <==> |t| == 1) && (p.Checked? ==> |t| == 2)
            && (|t| == 2 ==> p.Checked? || p.Unwound?)
            && (|t| > 2 && !(t[2].Create? && t[2].answer.Done?) ==> (p.Unwound? || p.Over?) && Timeless(t))
            && (|t| == 3 && t[2].Create? ==> !p.Over?)
  {
    if t != [] {
      var init := t[..|t| - 1];
      WalkShape(init);
      assert forall k | 0 <= k < |init| :: t[k] == init[k];
    }
  }

  lemma TransactionShape(t: seq<Event>)
    requires IsTransaction(t)
    ensures |t| >= 3
    ensures t[2].Create? && t[2].answer.Done? ==> |t| > 3
    ensures !(t[2].Create? && t[2].answer.Done?) ==> Timeless(t)
    ensures Timeless(t[..3])
  {
    WalkShape(t);
  }

  lemma RetryOpens(rest: seq<Event>, owner: nat)
    requires HasRetry(rest, owner, MAX_OPEN_WAIT)
    ensures Opens(rest) <= 10
  {
    var j :| 0 < j <= |rest| && IsRetry(rest[..j], owner, MAX_OPEN_WAIT) && Physical(rest[..j]) && Timeless(rest[j..]);
    TenOpens(rest[..j], owner);
    TimelessOpens(rest[j..]);
    OpensConcat(rest[..j], rest[j..]);
    assert rest == rest[..j] + rest[j..];
  }

  /** So a whole transaction makes at most ten opens, whatever it meets. */
  lemma TransactionOpens(t: seq<Event>)
    requires IsTransaction(t) && KeepsLimit(t)
    ensures Opens(t) <= 10
  {
    TransactionShape(t);
    if t[2].Create? && t[2].answer.Done? {
      RetryOpens(t[3..], t[2].owner);
      TimelessOpens(t[..3]);
      OpensConcat(t[..3], t[3..]);
      assert t == t[..3] + t[3..];
    } else {
      TimelessOpens(t);
    }
  }

  // ----- transactions under the mutex of Synchronized -----

  /** `inside` are the clients past Lock, each with its own place in its transaction. */
  datatype Shared = Shared(held: bool, inside: map<nat, Phase>, log: seq<(nat, Event)>)

  datatype Act = Enter(id: nat) | Does(id: nat, event: Event) | Leave(id: nat)

  /** A client looks only at the mutex, and only to enter; inside it follows its own
      transaction. It may leave before its first event, if its context is cancelled. */
  predicate CanDo(s: Shared, a: Act) {
    match a
    case Enter(id) => !s.held && id !in s.inside
    case Does(id, e) => id in s.inside && Move(s.inside[id], e).Some?
    case Leave(id) => id in s.inside && (s.inside[id].Ready? || s.inside[id].Over?)
  }

  function Do(s: Shared, a: Act): Shared
    requires CanDo(s, a)
  {
    match a
    case Enter(id) => s.(held := true, inside := s.inside[id := Ready])
    case Does(id, e) => s.(inside := s.inside[id := Move(s.inside[id], e).value], log := s.log + [(id, e)])
    case Leave(id) => s.(held := false, inside := s.inside - {id})
  }

  ghost predicate IsHistory(states: seq<Shared>, acts: seq<Act>) {
    && |states| == |acts| + 1 && states[0] == Shared(false, map[], [])
    && forall i | 0 <= i < |acts| :: CanDo(states[i], acts[i]) && states[i + 1] == Do(states[i], acts[i])
  }

  function Tagged(id: nat, t: seq<Event>): seq<(nat, Event)> {
    seq(|t|, i requires 0 <= i < |t| => (id, t[i]))
  }

  function Joined(blocks: seq<(nat, seq<Event>)>): seq<(nat, Event)> {
    if blocks == [] then []
    else Joined(blocks[..|blocks| - 1]) + Tagged(blocks[|blocks| - 1].0, blocks[|blocks| - 1].1)
  }

  /** The log is whole transactions, each of one client, then what the holder has done. */
  ghost predicate Serial(s: Shared, blocks: seq<(nat, seq<Event>)>, holder: nat, current: seq<Event>) {
    && (forall b | b in blocks :: IsTransaction(b.1))
    && s.log == Joined(blocks) + Tagged(holder, current)
    && (if s.held then s.inside.Keys == {holder} && Walk(Ready, current) == Some(s.inside[holder])
        else s.inside == map[] && current == [])
  }

  lemma NothingDoneYet(t: seq<Event>)
    requires Walk(Ready, t) == Some(Ready)
    ensures t == []
  {
  }

  lemma LeaveSerial(s: Shared, blocks: seq<(nat, seq<Event>)>, holder: nat, current: seq<Event>)
    returns (more: seq<(nat, seq<Event>)>)
    requires Serial(s, blocks, holder, current) && CanDo(s, Leave(holder)) && s.held
    ensures Serial(Do(s, Leave(holder)), more, holder, [])
  {
    assert s.inside - {holder} == map[];
    if s.inside[holder].Over? {
      more := blocks + [(holder, current)];
      assert more[..|blocks|] == blocks;
      assert Joined(more) + Tagged(holder, []) == s.log;
    } else {
      NothingDoneYet(current);
      more := blocks;
    }
  }

  /** Over every interleaving of any number of clients, the whole event history is a
      concatenation of complete transactions that do not overlap, and at the end the
      unfinished one of the client that holds the mutex. */
  lemma {:induction false} TransactionsNeverOverlap(states: seq<Shared>, acts: seq<Act>, i: nat)
    returns (blocks: seq<(nat, seq<Event>)>, holder: nat, current: seq<Event>)
    requires IsHistory(states, acts) && i < |states|
    ensures Serial(states[i], blocks, holder, current)
  {
    if i == 0 {
      blocks, holder, current := [], 0, [];
    } else {
      blocks, holder, current := TransactionsNeverOverlap(states, acts, i - 1);
      var s, a := states[i - 1], acts[i - 1];
      match a {
        case Enter(id) =>
          assert Tagged(holder, []) == Tagged(id, []);
          holder := id;
        case Does(id, e) =>
          assert id in s.inside.Keys;
          WalkSnoc(Ready, current, e);
          assert Tagged(id, current + [e]) == Tagged(id, current) + [(id, e)];
          current := current + [e];
        case Leave(id) =>
          assert id in s.inside.Keys;
          blocks := LeaveSerial(s, blocks, holder, current);
          current := [];
      }
    }
  }
}
