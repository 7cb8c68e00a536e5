/** The fixed-window limiter: the API's `rateLimiter`, and the counting rule the pairing
    entry shares with it. */
module Limiter {
  import opened Basics

  /** `start` is None for the zero time, before the first call. */
  datatype Window = Window(start: Option<Time>, count: nat)

  /** One call: the reading that is compared with the window, and the reading that
      becomes the start if a new window opens. The API limiter reads the clock once. */
  datatype Call = Call(check: Time, stamp: Time)

  const Unused := Window(None, 0)

  predicate Opens(w: Window, span: Time, c: Call) {
    w.start.None? || c.check >= w.start.value + span
  }

  function Current(w: Window, span: Time, c: Call): Window {
    if Opens(w, span, c) then Window(Some(c.stamp), 0) else w
  }

  predicate Admits(w: Window, limit: nat, span: Time, c: Call) {
    Current(w, span, c).count < limit
  }

  function Count(w: Window, limit: nat, span: Time, c: Call): Window {
    var v := Current(w, span, c);
    if v.count < limit then v.(count := v.count + 1) else v
  }

  /** The window after a whole history of calls. */
  function Track(limit: nat, span: Time, calls: seq<Call>): Window {
    if calls == [] then Unused
    else Count(Track(limit, span, calls[..|calls| - 1]), limit, span, calls[|calls| - 1])
  }

  /** Whether call number i of the history was admitted. */
  predicate Admitted(limit: nat, span: Time, calls: seq<Call>, i: nat)
    requires i < |calls|
  {
    Admits(Track(limit, span, calls[..i]), limit, span, calls[i])
  }

  /** How many of the first n calls were admitted with their check inside [from, from + span). */
  function AdmittedIn(limit: nat, span: Time, calls: seq<Call>, from: Time, n: nat): nat
    requires n <= |calls|
  {
    if n == 0 then 0
    else AdmittedIn(limit, span, calls, from, n - 1)
         + if Admitted(limit, span, calls, n - 1) && from <= calls[n - 1].check < from + span then 1 else 0
  }

  /** A clock that never runs backwards, within a call and between calls. */
  ghost predicate Monotone(calls: seq<Call>) {
    && (forall i | 0 <= i < |calls| :: calls[i].check <= calls[i].stamp)
    && (forall i, j | 0 <= i < j < |calls| :: calls[i].stamp <= calls[j].check)
  }

  /** The call that opened the window in force after n calls, by the clock alone: the first
      one, and then the first that comes a whole span after the one before it. */
  function Opener(span: Time, calls: seq<Call>, n: nat): (o: nat)
    requires 0 < n <= |calls|
    ensures o < n
  {
    if n == 1 then 0
    else
      var o := Opener(span, calls, n - 1);
      if calls[n - 1].check >= calls[o].stamp + span then n - 1 else o
  }

  lemma TrackStep(limit: nat, span: Time, calls: seq<Call>, n: nat)
    requires 0 < n <= |calls|
    ensures Track(limit, span, calls[..n]) == Count(Track(limit, span, calls[..n - 1]), limit, span, calls[n - 1])
  {
    assert calls[..n][..n - 1] == calls[..n - 1];
  }

  lemma {:induction false} OpenerStarts(limit: nat, span: Time, calls: seq<Call>, n: nat)
    requires 0 < n <= |calls|
    ensures Track(limit, span, calls[..n])
         == Window(Some(calls[Opener(span, calls, n)].stamp), Min(limit, n - Opener(span, calls, n)))
  {
    TrackStep(limit, span, calls, n);
    if n == 1 {
      assert calls[..0] == [];
    } else {
      OpenerStarts(limit, span, calls, n - 1);
    }
  }

  /** A call is admitted if and only if fewer than the limit came before it in its window. */
  lemma AdmittedExactly(limit: nat, span: Time, calls: seq<Call>, i: nat)
    requires i < |calls|
    ensures Admitted(limit, span, calls, i) <==> i - Opener(span, calls, i + 1) < limit
  {
    TrackStep(limit, span, calls, i + 1);
    if i == 0 {
      assert calls[..0] == [];
    } else {
      OpenerStarts(limit, span, calls, i);
    }
  }

  /** The three situations of a window against the interval [from, from + span). */
  lemma {:induction false} IntervalInvariant(limit: nat, span: Time, calls: seq<Call>, from: Time, n: nat)
    requires Monotone(calls) && span > 0 && 0 < n <= |calls|
    ensures var c := calls[Opener(span, calls, n)].check;
            var k := AdmittedIn(limit, span, calls, from, n);
            && (c < from ==> k <= Track(limit, span, calls[..n]).count)
            && (from <= c < from + span ==> k <= limit + Track(limit, span, calls[..n]).count)
            && k <= 2 * limit
            && (calls[n - 1].check < from ==> k == 0)
  {
    TrackStep(limit, span, calls, n);
    if n == 1 {
      assert calls[..0] == [];
    } else {
      IntervalInvariant(limit, span, calls, from, n - 1);
      OpenerStarts(limit, span, calls, n - 1);
      OpenerStarts(limit, span, calls, n);
      assert calls[n - 2].check <= calls[n - 1].check;
      var before := Opener(span, calls, n - 1);
      assert calls[before].check <= calls[before].stamp;
    }
  }

  /** Any half-open interval one window long holds at most twice the limit. */
  lemma AtMostTwice(limit: nat, span: Time, calls: seq<Call>, from: Time)
    requires Monotone(calls) && span > 0
    ensures AdmittedIn(limit, span, calls, from, |calls|) <= 2 * limit
  {
    if |calls| > 0 {
      IntervalInvariant(limit, span, calls, from, |calls|);
    }
  }

  /** Calls i..n that share the window opened by call i. */
  ghost predicate OneWindow(limit: nat, span: Time, calls: seq<Call>, i: nat, n: nat) {
    && i < n <= |calls|
    && Opens(Track(limit, span, calls[..i]), span, calls[i])
    && forall j | i < j < n :: !Opens(Track(limit, span, calls[..j]), span, calls[j])
  }

  function AdmittedFrom(limit: nat, span: Time, calls: seq<Call>, i: nat, n: nat): nat
    requires i <= n <= |calls|
  {
    if n == i then 0
    else AdmittedFrom(limit, span, calls, i, n - 1) + if Admitted(limit, span, calls, n - 1) then 1 else 0
  }

  /** A window admits exactly min(limit, arrivals). */
  lemma {:induction false} WindowAdmitsExactly(limit: nat, span: Time, calls: seq<Call>, i: nat, n: nat)
    requires OneWindow(limit, span, calls, i, n)
    ensures AdmittedFrom(limit, span, calls, i, n) == Min(limit, n - i)
    ensures Track(limit, span, calls[..n]).count == Min(limit, n - i)
    decreases n
  {
    TrackStep(limit, span, calls, n);
    if n == i + 1 {
      assert AdmittedFrom(limit, span, calls, i, i) == 0;
    } else {
      WindowAdmitsExactly(limit, span, calls, i, n - 1);
    }
  }

  /** The source's limiter object. */
  class RateLimiter {
    const limit: nat
    const window: Time
    var windowStart: Option<Time>
    var count: nat
    ghost var history: seq<Call>

    ghost predicate Valid()
      reads this
    {
      Track(limit, window, history) == Window(windowStart, count)
    }

    constructor (limit: nat, window: Time)
      ensures Valid() && history == [] && this.limit == limit && this.window == window
    {
      this.limit, this.window := limit, window;
      windowStart, count, history := None, 0, [];
    }

    method Allow(now: Time) returns (ok: bool)
      requires Valid()
      modifies this
      ensures Valid() && history == old(history) + [Call(now, now)]
      ensures var reopens := old(windowStart).None? || now >= old(windowStart).value + window;
              && (ok <==> (if reopens then 0 else old(count)) < limit)
              && windowStart == (if reopens then Some(now) else old(windowStart))
              && count == (if reopens then 0 else old(count)) + if ok then 1 else 0
      ensures ok == Admitted(limit, window, history, |history| - 1)
    {
      ghost var was := history;
      history := history + [Call(now, now)];
      assert history[..|history| - 1] == was;
      if windowStart.None? || !(now < windowStart.value + window) {
        windowStart := Some(now);
        count := 0;
      }
      if count >= limit {
        return false;
      }
      count := count + 1;
      ok := true;
    }
  }
}
