/** The size-capped log: one current file and one backup, with every file operation free to
    fail. */
module RotatingLog {
  import opened Basics

  /** The writer's file field: nil, an open descriptor, or one that has been closed but is
      still in the field. */
  datatype Handle = NoFile | Open | Spent

  /** None is a file that does not exist. */
  datatype Log = Log(handle: Handle, size: nat, current: Option<string>, backup: Option<string>)

  /** How the file operations of one call go; `accepts` is how much a write takes at most. */
  datatype Fate = Fate(closes: bool, removes: bool, renames: bool, opens: bool, accepts: nat)

  function Contents(file: Option<string>): string {
    if file.Some? then file.value else ""
  }

  // ----- the operations -----

  /** Closing a spent descriptor fails; a rename fails on its own account only if there is a
      file to rename. */
  function Rotate(s: Log, fate: Fate): (Log, bool) {
    if !s.handle.Open? || !fate.closes then (s.(handle := Spent), false)
    else
      var removed := s.(handle := Spent, backup := if fate.removes then None else s.backup);
      if removed.current.Some? && !fate.renames then (removed, false)
      else
        var renamed := if removed.current.None? then removed else removed.(backup := removed.current, current := None);
        if !fate.opens then (renamed, false) else (Log(Open, 0, Some(""), renamed.backup), true)
  }

  function Append(s: Log, data: string, fate: Fate): (Log, nat) {
    if !s.handle.Open? then (s, 0)
    else
      var n := Min(fate.accepts, |data|);
      (s.(size := s.size + n, current := Some(Contents(s.current) + data[..n])), n)
  }

  predicate MustRotate(s: Log, max: nat, data: string) {
    s.size > 0 && s.size + |data| > max
  }

  /** The new state and the count of bytes taken; the call succeeds if it took them all. */
  function Written(s: Log, max: nat, data: string, fate: Fate): (Log, nat, bool) {
    if s.handle.NoFile? then (s, 0, false)
    else if MustRotate(s, max, data) then
      var (rotated, ok) := Rotate(s, fate);
      if !ok then (rotated, 0, false)
      else var (next, n) := Append(rotated, data, fate); (next, n, n == |data|)
    else
      var (next, n) := Append(s, data, fate);
      (next, n, s.handle.Open? && n == |data|)
  }

  function Closed(s: Log): Log {
    s.(handle := NoFile)
  }

  // ----- whole histories -----

  datatype Call = Write(data: string, fate: Fate) | Close

  /** The log as `newRotatingWriter` opens it. */
  function Opened(backup: Option<string>, current: string): Log {
    Log(Open, |current|, Some(current), backup)
  }

  function Next(s: Log, max: nat, c: Call): Log {
    match c
    case Write(data, fate) => Written(s, max, data, fate).0
    case Close => Closed(s)
  }

  function After(start: Log, max: nat, calls: seq<Call>): Log {
    if calls == [] then start else Next(After(start, max, calls[..|calls| - 1]), max, calls[|calls| - 1])
  }

  /** What a call added to the stream. */
  function Taken(s: Log, max: nat, c: Call): string {
    match c
    case Write(data, fate) => data[..Min(Written(s, max, data, fate).1, |data|)]
    case Close => ""
  }

  /** The initial backup, the initial file, and what each call took, in order. */
  function Items(start: Log, max: nat, calls: seq<Call>): seq<string> {
    if calls == [] then [Contents(start.backup), Contents(start.current)]
    else
      var before := calls[..|calls| - 1];
      Items(start, max, before) + [Taken(After(start, max, before), max, calls[|calls| - 1])]
  }

  function Flat(items: seq<string>): string {
    if items == [] then "" else Flat(items[..|items| - 1]) + items[|items| - 1]
  }

  lemma FlatSnoc(items: seq<string>, x: string)
    ensures Flat(items + [x]) == Flat(items) + x
  {
    assert (items + [x])[..|items|] == items;
  }

  lemma {:induction false} FlatConcat(a: seq<string>, b: seq<string>)
    ensures Flat(a + b) == Flat(a) + Flat(b)
  {
    if b == [] {
      assert a + b == a;
    } else {
      FlatConcat(a, b[..|b| - 1]);
      assert (a + b)[..|a + b| - 1] == a + b[..|b| - 1];
    }
  }

  /** The backup holds items b to c, the current file the items from c on. */
  ghost predicate Cut(items: seq<string>, s: Log, b: int, c: int) {
    && 0 <= b <= c <= |items|
    && Contents(s.backup) == Flat(items[b..c]) && Contents(s.current) == Flat(items[c..])
  }

  ghost predicate SizeKnown(s: Log) {
    s.handle.Open? ==> s.current.Some? && s.size == |s.current.value|
  }

  lemma RotateCut(items: seq<string>, s: Log, b: int, c: int, fate: Fate) returns (b': int, c': int)
    requires Cut(items, s, b, c)
    ensures Cut(items, Rotate(s, fate).0, b', c')
  {
    var r := Rotate(s, fate).0;
    assert items[c..c] == [] && items[|items|..] == [] && items[c..|items|] == items[c..];
    var started := s.handle.Open? && fate.closes;
    if started && s.current.Some? && fate.renames {
      b', c' := c, |items|;
    } else {
      b', c' := if started && fate.removes then c else b, c;
    }
  }

  lemma GrowCut(items: seq<string>, s: Log, b: int, c: int, x: string)
    requires Cut(items, s, b, c)
    ensures Cut(items + [x], s.(current := Some(Contents(s.current) + x)), b, c)
  {
    assert (items + [x])[c..] == items[c..] + [x] && (items + [x])[b..c] == items[b..c];
    FlatSnoc(items[c..], x);
  }

  /** An item nobody took. */
  lemma EmptyItemCut(items: seq<string>, s: Log, b: int, c: int)
    requires Cut(items, s, b, c)
    ensures Cut(items + [""], s, b, c)
  {
    assert (items + [""])[c..] == items[c..] + [""] && (items + [""])[b..c] == items[b..c];
    FlatSnoc(items[c..], "");
  }

  lemma AppendCut(items: seq<string>, s: Log, b: int, c: int, data: string, fate: Fate)
    requires Cut(items, s, b, c)
    ensures Append(s, data, fate).1 <= |data|
    ensures Cut(items + [data[..Append(s, data, fate).1]], Append(s, data, fate).0, b, c)
  {
    var n := Append(s, data, fate).1;
    if s.handle.Open? {
      GrowCut(items, s, b, c, data[..n]);
    } else {
      assert data[..0] == "";
      EmptyItemCut(items, s, b, c);
    }
  }

  lemma WrittenCut(items: seq<string>, s: Log, max: nat, b: int, c: int, data: string, fate: Fate)
    returns (b': int, c': int)
    requires Cut(items, s, b, c)
    ensures Cut(items + [Taken(s, max, Write(data, fate))], Next(s, max, Write(data, fate)), b', c')
  {
    b', c' := b, c;
    assert data[..0] == "";
    if s.handle.NoFile? {
      EmptyItemCut(items, s, b, c);
    } else if MustRotate(s, max, data) {
      b', c' := RotateCut(items, s, b, c, fate);
      var (rotated, ok) := Rotate(s, fate);
      if ok {
        AppendCut(items, rotated, b', c', data, fate);
      } else {
        EmptyItemCut(items, rotated, b', c');
      }
    } else {
      AppendCut(items, s, b, c, data, fate);
    }
  }

  lemma {:induction false} Cuts(backup: Option<string>, current: string, max: nat, calls: seq<Call>)
    returns (b: int, c: int)
    ensures Cut(Items(Opened(backup, current), max, calls), After(Opened(backup, current), max, calls), b, c)
  {
    var start := Opened(backup, current);
    if calls == [] {
      var items := Items(start, max, calls);
      assert items[0..1] == [Contents(backup)] && items[1..] == [current];
      FlatSnoc([], Contents(backup));
      FlatSnoc([], current);
      assert [] + [Contents(backup)] == [Contents(backup)] && [] + [current] == [current];
      b, c := 0, 1;
    } else {
      var before, call := calls[..|calls| - 1], calls[|calls| - 1];
      b, c := Cuts(backup, current, max, before);
      var s, items := After(start, max, before), Items(start, max, before);
      match call {
        case Write(data, fate) => b, c := WrittenCut(items, s, max, b, c, data, fate);
        case Close => EmptyItemCut(items, s, b, c);
      }
    }
  }

  lemma SplitSuffix(items: seq<string>, b: int, c: int)
    requires 0 <= b <= c <= |items|
    ensures items[b..c] + items[c..] == items[b..]
  {
  }

  lemma CutIsSuffix(items: seq<string>, s: Log, b: int, c: int)
    requires Cut(items, s, b, c)
    ensures Contents(s.backup) + Contents(s.current) == Flat(items[b..])
  {
    FlatConcat(items[b..c], items[c..]);
    SplitSuffix(items, b, c);
  }

  /** Nothing is reordered, repeated or lost from the middle, however the file operations
      go: the backup followed by the current file is always a contiguous suffix of the
      initial backup, the initial file and all that was written, cut at whole records. */
  lemma LogConserved(backup: Option<string>, current: string, max: nat, calls: seq<Call>) returns (k: int)
    ensures var items := Items(Opened(backup, current), max, calls);
            var s := After(Opened(backup, current), max, calls);
            0 <= k <= |items| && Contents(s.backup) + Contents(s.current) == Flat(items[k..])
  {
    var start := Opened(backup, current);
    var b, c := Cuts(backup, current, max, calls);
    k := b;
    CutIsSuffix(Items(start, max, calls), After(start, max, calls), b, c);
  }

  /** The counter is the length of the current file for as long as it can be written. */
  lemma {:induction false} SizeIsLength(backup: Option<string>, current: string, max: nat, calls: seq<Call>)
    ensures SizeKnown(After(Opened(backup, current), max, calls))
  {
    if calls != [] {
      SizeIsLength(backup, current, max, calls[..|calls| - 1]);
    }
  }

  /** After a write that succeeds, the current file is within the cap or is exactly the one
      oversized record; it ends with the record; and what the current file held before is
      still there, before it. */
  lemma WriteFits(backup: Option<string>, current: string, max: nat, calls: seq<Call>, data: string, fate: Fate)
    requires Written(After(Opened(backup, current), max, calls), max, data, fate).2
    ensures var s := After(Opened(backup, current), max, calls);
            var t := Written(s, max, data, fate).0;
            && t.current.Some? && (|t.current.value| <= max || t.current.value == data)
            && (|| t.current.value == Contents(s.current) + data
                || (t.backup == s.current && t.current.value == data))
            && t.size == |t.current.value|
  {
    SizeIsLength(backup, current, max, calls);
    assert data[..|data|] == data;
  }

  /** There is room for the record: the current file is empty, or the two together are within
      the cap. */
  predicate Fits(current: Option<string>, max: nat, data: string) {
    |Contents(current)| == 0 || |Contents(current)| + |data| <= max
  }

  /** When a write succeeds: the descriptor is open, the file takes the whole record, and,
      only if there is no room for it, the rotation's operations go well too. */
  lemma WriteSucceedsExactly(backup: Option<string>, current: string, max: nat, calls: seq<Call>,
                             data: string, fate: Fate)
    ensures var s := After(Opened(backup, current), max, calls);
            Written(s, max, data, fate).2 <==>
            && s.handle.Open? && fate.accepts >= |data|
            && (Fits(s.current, max, data) || (fate.closes && fate.renames && fate.opens))
  {
    SizeIsLength(backup, current, max, calls);
  }

  /** What a write that succeeds leaves: if there is room, the record after what the current
      file held, and the backup as it was; otherwise the old current file as the backup and
      the record alone. */
  lemma FilesAfterWrite(backup: Option<string>, current: string, max: nat, calls: seq<Call>,
                        data: string, fate: Fate)
    requires Written(After(Opened(backup, current), max, calls), max, data, fate).2
    ensures var s := After(Opened(backup, current), max, calls);
            var t := Written(s, max, data, fate).0;
            if Fits(s.current, max, data)
            then t.current == Some(Contents(s.current) + data) && t.backup == s.backup
            else t.current == Some(data) && t.backup == s.current
  {
    SizeIsLength(backup, current, max, calls);
    assert data[..|data|] == data && "" + data == data;
  }

  ghost predicate AllSucceed(calls: seq<Call>) {
    forall c | c in calls :: c.Write? && c.fate.closes && c.fate.renames && c.fate.opens && c.fate.accepts >= |c.data|
  }

  /** If no file operation fails and the writer is not closed, every write succeeds, so the
      file is never more than the cap unless it is a single oversized record. */
  lemma {:induction false} NothingFails(backup: Option<string>, current: string, max: nat, calls: seq<Call>)
    requires AllSucceed(calls)
    ensures After(Opened(backup, current), max, calls).handle.Open?
    ensures calls != [] ==>
              var c := calls[|calls| - 1];
              Written(After(Opened(backup, current), max, calls[..|calls| - 1]), max, c.data, c.fate).2
  {
    if calls != [] {
      assert calls[|calls| - 1] in calls;
      assert AllSucceed(calls[..|calls| - 1]);
      NothingFails(backup, current, max, calls[..|calls| - 1]);
    }
  }

  /** A writer that is not open takes nothing more, whatever the later file operations do:
      after one failed rotation, or Close, both files stay as they are for good. */
  lemma {:induction false} SpentStaysSpent(s: Log, max: nat, more: seq<Call>)
    requires !s.handle.Open?
    ensures var t := After(s, max, more); !t.handle.Open? && t.current == s.current && t.backup == s.backup
  {
    if more != [] {
      SpentStaysSpent(s, max, more[..|more| - 1]);
    }
  }

  /** The two files are as they were. */
  predicate StaysAs(s: Log, max: nat, more: seq<Call>) {
    After(s, max, more).current == s.current && After(s, max, more).backup == s.backup
  }

  predicate Succeeds(s: Log, max: nat, more: seq<Call>, data: string, fate: Fate) {
    Written(After(s, max, more), max, data, fate).2
  }

  /** For any record: some later write of it can succeed if and only if the descriptor is open. */
  lemma WritesAgainExactly(s: Log, max: nat, data: string)
    ensures (exists more, fate :: Succeeds(s, max, more, data, fate)) <==> s.handle.Open?
  {
    if s.handle.Open? {
      assert Succeeds(s, max, [], data, Fate(true, true, true, true, |data|));
    } else {
      forall more, fate
        ensures !Succeeds(s, max, more, data, fate)
      {
        SpentStaysSpent(s, max, more);
      }
    }
  }

  /** A rotation that fails is final: both files stay as they are for good. Some later write of
      a record can succeed if and only if the rotation did. */
  lemma FailedRotationIsFinal(s: Log, max: nat, fate: Fate, data: string)
    ensures var (r, ok) := Rotate(s, fate);
            && (!ok ==> forall more :: StaysAs(r, max, more))
            && ((exists more, later :: Succeeds(r, max, more, data, later)) <==> ok)
  {
    var (r, ok) := Rotate(s, fate);
    if !ok {
      forall more
        ensures StaysAs(r, max, more)
      {
        SpentStaysSpent(r, max, more);
      }
    }
    WritesAgainExactly(r, max, data);
  }

  // ----- the source's object -----

  class RotatingWriter {
    const max: nat
    var handle: Handle
    var size: nat
    var current: Option<string>
    var backup: Option<string>

    function View(): Log
      reads this
    {
      Log(handle, size, current, backup)
    }

    /** The two files as they are found; a missing current file is created. */
    constructor (max: nat, backup: Option<string>, found: Option<string>)
      ensures this.max == max && this.backup == backup && handle.Open?
      ensures current == Some(if found.Some? then found.value else "") && size == |current.value|
      ensures View() == Opened(backup, Contents(found))
    {
      this.max, this.backup := max, backup;
      handle, size, current := Handle.Open, |Contents(found)|, Some(Contents(found));
    }

    method RotateLocked(fate: Fate) returns (ok: bool)
      modifies this
      ensures ok <==> old(handle).Open? && fate.closes && (old(current).Some? ==> fate.renames) && fate.opens
      ensures if ok then handle.Open? && size == 0 && current == Some("") else handle.Spent? && size == old(size)
      ensures var moves := old(handle).Open? && fate.closes && old(current).Some? && fate.renames;
              && backup == (if moves then old(current)
                            else if old(handle).Open? && fate.closes && fate.removes then None
                            else old(backup))
              && (!ok ==> current == if moves then None else old(current))
      ensures (View(), ok) == Rotate(old(View()), fate)
    {
      var closed := handle.Open? && fate.closes;
      handle := Spent;
      if !closed {
        return false;
      }
      if fate.removes {
        backup := None;
      }
      if current.Some? {
        if !fate.renames {
          return false;
        }
        backup, current := current, None;
      }
      if !fate.opens {
        return false;
      }
      current := Some("");
      handle := Handle.Open;
      size := 0;
      ok := true;
    }

    method Write(data: string, fate: Fate) returns (n: nat, ok: bool)
      modifies this
      ensures var rotates := !old(handle).NoFile? && old(size) > 0 && old(size) + |data| > max;
              && (!rotates ==>
                    && handle == old(handle) && backup == old(backup)
                    && n == (if handle.Open? then Min(fate.accepts, |data|) else 0)
                    && size == old(size) + n
                    && current == if handle.Open? then Some(Contents(old(current)) + data[..n]) else old(current))
              && (rotates && handle.Open? ==>
                    && fate.closes && fate.opens
                    && n == Min(fate.accepts, |data|) && size == n && current == Some(data[..n])
                    && (old(current).Some? ==> backup == old(current)))
              && (rotates && !handle.Open? ==> n == 0 && View() == Rotate(old(View()), fate).0)
              && (ok <==> handle.Open? && n == |data|)
      ensures (View(), n, ok) == Written(old(View()), max, data, fate)
    {
      if handle.NoFile? {
        return 0, false;
      }
      if size > 0 && size + |data| > max {
        ok := RotateLocked(fate);
        if !ok {
          return 0, false;
        }
      }
      if !handle.Open? {
        return 0, false;
      }
      n := Min(fate.accepts, |data|);
      assert "" + data[..n] == data[..n];
      current := Some(Contents(current) + data[..n]);
      size := size + n;
      ok := n == |data|;
    }

    method Close(fate: Fate) returns (ok: bool)
      modifies this
      ensures View() == old(View()).(handle := NoFile)
      ensures View() == Closed(old(View()))
      ensures ok <==> old(handle).NoFile? || (old(handle).Open? && fate.closes)
    {
      if handle.NoFile? {
        return true;
      }
      ok := handle.Open? && fate.closes;
      handle := NoFile;
    }
  }
}
