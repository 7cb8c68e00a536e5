/** The order and the answer of one clipboard transaction, event by event. */
module NativeOrder {
  import opened Basics
  import opened NativeSession

  predicate OpenedWell(e: Event) {
    e.OpenCall? && e.answer.Done?
  }

  /** The end of a retry that did not open the clipboard. */
  predicate GaveUp(e: Event) {
    e == Check(true) || (e.Wait? && e.cut) || (e.OpenCall? && !e.answer.Done? && !IsBusy(e.answer))
  }

  /** What the phase says about the latest events. */
  predicate Latest(p: Phase, t: seq<Event>) {
    match p
    case Ready => t == []
    case Locked => t == [Lock]
    case Checked => t == [Lock, Check(false)]
    case Timed(_) => t != [] && t[|t| - 1].Reading?
    case OpenBy(o) => t != [] && t[|t| - 1] == OpenCall(o, Done)
    case Working(o) => |t| > 1 && t[|t| - 1] == Check(false) && t[|t| - 2] == OpenCall(o, Done)
    case Operated(o) =>
      |t| > 1 && (t[|t| - 1].Operate? || (t[|t| - 1] == Check(true) && t[|t| - 2] == OpenCall(o, Done)))
    case Closing(_) =>
      |t| > 1 && (t[|t| - 1].CloseCall? || (GaveUp(t[|t| - 1]) && !OpenedWell(t[|t| - 2])))
    case Unwound =>
      || t == [Lock, Check(true)]
      || (|t| == 3 && t[2].Create? && !t[2].answer.Done?)
      || (t != [] && t[|t| - 1].Destroy?)
    case Over => t != [] && t[|t| - 1].Unlock?
    case Owning(_) => t != [] && !OpenedWell(t[|t| - 1])
  }

  lemma {:induction false} WalkLatest(t: seq<Event>)
    requires Walk(Ready, t).Some?
    ensures Latest(Walk(Ready, t).value, t)
  {
    if t != [] {
      var init, last := t[..|t| - 1], t[|t| - 1];
      assert t == init + [last];
      WalkLatest(init);
    }
  }

  /** The owner a phase works with is the one created third. */
  lemma {:induction false} WalkOwner(t: seq<Event>)
    requires Walk(Ready, t).Some?
    ensures var p := Walk(Ready, t).value; HasOwner(p) ==> |t| > 2 && t[2] == Create(p.owner, Done)
  {
    if t != [] {
      var init, last := t[..|t| - 1], t[|t| - 1];
      WalkOwner(init);
      WalkLatest(init);
      assert |init| > 2 ==> t[2] == init[2];
    }
  }

  /** Event k moves the phase the events before it lead to. */
  lemma MovesOn(t: seq<Event>, k: int)
    requires Walk(Ready, t).Some? && 0 <= k < |t|
    ensures Walk(Ready, t[..k]).Some? && Move(Walk(Ready, t[..k]).value, t[k]).Some?
  {
    WalkPrefix(Ready, t, k + 1);
    assert t[..k + 1][..k] == t[..k];
  }

  /** In every transaction the owner is created only straight after the lock and a check that
      was not cancelled; the operation runs only straight after a good open and one more
      check; the clipboard is closed straight after the operation, or after that check if it
      was cancelled; the owner is destroyed only when the clipboard is closed again, or was
      never open; the thread is unlocked last. So no stage is skipped. */
  lemma StagesInOrder(t: seq<Event>, k: int)
    requires IsTransaction(t) && 0 <= k < |t|
    ensures match t[k]
      case Lock => k == 0
      case Create(_, _) => k == 2 && t[0] == Lock && t[1] == Check(false)
      case Operate(_) => k >= 2 && t[k - 1] == Check(false) && t[2].Create? && t[k - 2] == OpenCall(t[2].owner, Done)
      case CloseCall(_) =>
        k >= 2 && (t[k - 1].Operate? || (t[k - 1] == Check(true) && OpenedWell(t[k - 2])))
      case Destroy(o, _) =>
        && k >= 2 && t[2] == Create(o, Done)
        && (t[k - 1].CloseCall? || t[k - 1].Reading? || (GaveUp(t[k - 1]) && !OpenedWell(t[k - 2])))
      case Unlock =>
        && k == |t| - 1
        && (|| t[..k] == [Lock, Check(true)]
            || (k == 3 && t[2].Create? && !t[2].answer.Done?)
            || (k > 0 && t[k - 1].Destroy?))
      case _ => true
  {
    MovesOn(t, k);
    WalkLatest(t[..k]);
    WalkOwner(t[..k]);
    if t[k].Unlock? && k < |t| - 1 {
      MovesOn(t, k + 1);
      assert t[..k + 1][..k] == t[..k];
      WalkLatest(t[..k + 1]);
    }
  }

  // ----- the answer -----

  /** What a stage answers that is the last one. */
  function StageAnswer(e: Event): Answer {
    match e
    case Check(_) => Failed(Cancelled)
    case Wait(_, _) => Failed(Cancelled)
    case Reading(_) => Failed(Busy)
    case Create(_, a) => a
    case OpenCall(_, a) => a
    case Operate(a) => a
    case _ => Done
  }

  /** A stage that cleanups or the unlocking follow is one that ends. */
  lemma LastStage(t: seq<Event>, k: int)
    requires IsTransaction(t) && 0 <= k < |t| - 1 && (IsCleanup(t[k + 1]) || t[k + 1].Unlock?)
    ensures !t[k].Lock? && t[k] != Check(false)
  {
    StagesInOrder(t, k + 1);
    assert t[..k + 1][k] == t[k];
  }

  lemma AnswerAt(t: seq<Event>, k: int)
    requires 0 <= k < |t| && !IsCleanup(t[k]) && !t[k].Unlock? && !t[k].Lock? && t[k] != Check(false)
    ensures AnswerOf(t[..k + 1]) == StageAnswer(t[k])
  {
    assert t[..k + 1][k] == t[k];
  }

  /** With cleanups that succeed, the answer is that of the last stage: cancelled after a
      check or a wait, busy after a reading of the clock, and otherwise what the call itself
      answered. */
  lemma CleanAnswerExactly(t: seq<Event>, k: int)
    requires IsTransaction(t) && AllClean(t) && 0 <= k < |t| && !IsCleanup(t[k]) && !t[k].Unlock?
    requires forall m | k < m < |t| :: IsCleanup(t[m]) || t[m].Unlock?
    ensures AnswerOf(t) == StageAnswer(t[k])
  {
    WalkLatest(t);
    CleanRunsReportStage(t, k + 1);
    LastStage(t, k);
    AnswerAt(t, k);
  }

  predicate AnsweredPanic(e: Event) {
    (e.Create? || e.OpenCall? || e.Operate? || e.CloseCall? || e.Destroy?) && e.answer.Panicked?
  }

  predicate Ending(p: Phase) {
    p.Operated? || p.Closing? || p.Unwound? || p.Over?
  }

  ghost predicate SomePanic(t: seq<Event>) {
    exists k :: 0 <= k < |t| && AnsweredPanic(t[k])
  }

  lemma SomePanicSnoc(t: seq<Event>, e: Event)
    ensures SomePanic(t + [e]) <==> SomePanic(t) || AnsweredPanic(e)
  {
    var t' := t + [e];
    assert t'[|t|] == e;
    if SomePanic(t) {
      var k :| 0 <= k < |t| && AnsweredPanic(t[k]);
      assert t'[k] == t[k];
    }
  }

  /** Only a phase that ends the transaction has met a panic, and then its answer is one. */
  predicate TellsPanic(p: Phase, panic: bool, answer: Answer) {
    if Ending(p) then answer.Panicked? <==> panic else !panic
  }

  lemma TellsPanicNext(p: Phase, e: Event, panic: bool, answer: Answer)
    requires TellsPanic(p, panic, answer) && Move(p, e).Some?
    requires p.Timed? ==> answer == Failed(Busy)
    ensures TellsPanic(Move(p, e).value, panic || AnsweredPanic(e), NextAnswer(answer, e))
  {
  }

  lemma {:induction false} WalkPanics(t: seq<Event>)
    requires Walk(Ready, t).Some?
    ensures TellsPanic(Walk(Ready, t).value, SomePanic(t), AnswerOf(t))
  {
    if t != [] {
      var init, last := t[..|t| - 1], t[|t| - 1];
      assert t == init + [last];
      WalkPanics(init);
      WalkTells(init);
      SomePanicSnoc(init, last);
      TellsPanicNext(Walk(Ready, init).value, last, SomePanic(init), AnswerOf(init));
    }
  }

  /** A transaction panics if and only if one of its calls did: no cleanup swallows a panic,
      and none makes one. */
  lemma PanicsExactly(t: seq<Event>)
    requires IsTransaction(t)
    ensures AnswerOf(t).Panicked? <==> SomePanic(t)
  {
    WalkPanics(t);
  }

  // ----- the retry -----

  /** The delay after n waits. */
  function DelayMillis(n: nat): Time {
    if n == 0 then 10 else if n == 1 then 20 else if n == 2 then 40 else if n == 3 then 80 else 160
  }

  lemma DelayIs(n: nat)
    ensures DelayAt(n) == DelayMillis(n) * MILLISECOND
  {
    if n >= 4 {
      DelayCapped(n);
    } else {
      assert DelayAt(1) == 20 * MILLISECOND;
      assert DelayAt(2) == 40 * MILLISECOND;
      assert DelayAt(3) == 80 * MILLISECOND;
    }
  }

  predicate IsTimed(e: Event) {
    e.Reading? || e.OpenCall? || e.Wait?
  }

  /** Whatever reads the clock, opens or waits belongs to the one retry. */
  lemma TimedInRetry(t: seq<Event>, k: int) returns (j: int)
    requires IsTransaction(t) && KeepsLimit(t) && 0 <= k < |t| && IsTimed(t[k])
    ensures 3 <= k && k - 3 < j <= |t| - 3 && t[2].Create?
    ensures IsRetry(t[3..][..j], t[2].owner, MAX_OPEN_WAIT) && Timeless(t[3..][j..])
  {
    TransactionShape(t);
    var rest := t[3..];
    j :| 0 < j <= |rest| && IsRetry(rest[..j], t[2].owner, MAX_OPEN_WAIT) && Physical(rest[..j]) && Timeless(rest[j..]);
    assert forall m | 0 <= m < 3 :: t[..3][m] == t[m];
    assert forall m | 3 + j <= m < |t| :: rest[j..][m - 3 - j] == t[m];
  }

  /** The retry of every transaction, event by event. It starts with the reading its second
      counts from. An open follows a check that was not cancelled and a reading before the
      deadline; a wait follows a busy open and a reading before the deadline, for the delay
      that is due, 10, 20, 40, 80 and then always 160 ms, cut at the deadline. */
  lemma RetryInOrder(t: seq<Event>, k: int)
    requires IsTransaction(t) && KeepsLimit(t) && 0 <= k < |t| && IsTimed(t[k])
    ensures 3 <= k && t[2].Create? && t[3].Reading?
    ensures t[k].OpenCall? ==>
      && k >= 5 && t[k].owner == t[2].owner && t[k - 2] == Check(false)
      && t[k - 1].Reading? && t[k - 1].at < t[3].at + 1000 * MILLISECOND
    ensures t[k].Wait? ==>
      && k >= 5 && t[k - 2].OpenCall? && IsBusy(t[k - 2].answer) && t[k - 1].Reading?
      && var left := t[3].at + 1000 * MILLISECOND - t[k - 1].at;
         left > 0 && t[k].asked == Min(DelayMillis(Waits(t[3..k])) * MILLISECOND, left)
    ensures t[k].Reading? && k > 3 ==>
              t[k - 1] == Check(false) || (t[k - 1].OpenCall? && IsBusy(t[k - 1].answer))
  {
    var j := TimedInRetry(t, k);
    var retry := t[3..][..j];
    assert forall m | 3 <= m < 3 + j :: retry[m - 3] == t[m];
    assert Justified(retry, k - 3, t[2].owner, retry[0].at + MAX_OPEN_WAIT);
    assert retry[..k - 3] == t[3..k];
    DelayIs(Waits(t[3..k]));
    if t[k].Wait? {
      assert Justified(retry, k - 4, t[2].owner, retry[0].at + MAX_OPEN_WAIT);
    }
  }

  /** A transaction whose last stage is a reading of the clock read its deadline. */
  lemma OutOfTime(t: seq<Event>, k: int)
    requires IsTransaction(t) && KeepsLimit(t) && 0 <= k < |t| - 1 && t[k].Reading? && t[k + 1].Destroy?
    ensures k > 3 && t[3].Reading? && t[k].at >= t[3].at + 1000 * MILLISECOND
  {
    var j := TimedInRetry(t, k);
    var retry := t[3..][..j];
    assert retry[k - 3] == t[k] && retry[0] == t[3];
    assert forall m | 3 <= m < 3 + j :: retry[m - 3] == t[m];
    forall m | 0 <= m < |retry|
      ensures !retry[m].Destroy?
    {
      assert Justified(retry, m, t[2].owner, retry[0].at + MAX_OPEN_WAIT);
    }
  }
}
