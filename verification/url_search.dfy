/** The search for the tunnel's public address in its output, over a sliding buffer. */
module UrlSearch {
  import opened Basics

  // ----- the pattern -----

  function Scheme(): string { "https://" }

  function Domain(): string { ".trycloudflare.com" }

  predicate Alnum(c: char) {
    'a' <= c <= 'z' || '0' <= c <= '9'
  }

  /** The characters on either side of which a word boundary may fall. */
  predicate WordChar(c: char) {
    Alnum(c) || 'A' <= c <= 'Z' || c == '_'
  }

  predicate AllAlnum(s: string) {
    forall k | 0 <= k < |s| :: Alnum(s[k])
  }

  /** The label part as the pattern writes it: words joined by single hyphens. */
  ghost predicate WordsJoined(s: string)
    decreases |s|
  {
    && s != ""
    && (AllAlnum(s) || exists k | 0 < k < |s| :: s[k] == '-' && AllAlnum(s[..k]) && WordsJoined(s[k + 1..]))
  }

  ghost predicate IsUrl(u: string) {
    exists name :: WordsJoined(name) && u == Scheme() + name + Domain()
  }

  /** The pattern matches t[i..j]; the end boundary is judged against t alone. */
  ghost predicate MatchAt(t: string, i: int, j: int) {
    0 <= i <= j <= |t| && IsUrl(t[i..j]) && (j == |t| || !WordChar(t[j]))
  }

  ghost predicate HasMatch(t: string) {
    exists i, j :: MatchAt(t, i, j)
  }

  /** The match that starts first among those that start at or after `from`. */
  ghost predicate Leftmost(t: string, from: int, i: int, j: int) {
    from <= i && MatchAt(t, i, j) && forall k, m | MatchAt(t, k, m) && from <= k :: i <= k
  }

  ghost predicate LeftmostUrl(t: string, from: int, u: string) {
    exists i, j :: Leftmost(t, from, i, j) && u == t[i..j]
  }

  // ----- the label, checked character by character -----

  predicate LabelChar(c: char) {
    Alnum(c) || c == '-'
  }

  /** No hyphen at either end and no two in a row. */
  predicate IsLabel(s: string) {
    && s != "" && Alnum(s[0]) && Alnum(s[|s| - 1])
    && (forall k | 0 <= k < |s| :: LabelChar(s[k]))
    && (forall k | 0 < k < |s| :: s[k] == '-' ==> Alnum(s[k - 1]))
  }

  lemma LabelTail(s: string, k: int)
    requires IsLabel(s) && 0 < k < |s| && s[k] == '-'
    ensures IsLabel(s[k + 1..])
  {
    var rest := s[k + 1..];
    assert Alnum(s[k + 1]);
    forall m | 0 < m < |rest| && rest[m] == '-'
      ensures Alnum(rest[m - 1])
    {
      assert s[k + 1 + m] == '-';
    }
  }

  lemma FirstHyphen(s: string, from: int) returns (k: int)
    requires IsLabel(s) && !AllAlnum(s) && 0 <= from < |s| && AllAlnum(s[..from])
    ensures 0 < k < |s| && s[k] == '-' && AllAlnum(s[..k])
    decreases |s| - from
  {
    if s[from] == '-' {
      k := from;
    } else {
      assert AllAlnum(s[..from + 1]) by {
        assert s[..from + 1] == s[..from] + [s[from]];
      }
      assert s[..|s|] == s;
      k := FirstHyphen(s, from + 1);
    }
  }

  lemma {:induction false} LabelIsWords(s: string)
    requires IsLabel(s)
    ensures WordsJoined(s)
    decreases |s|
  {
    if !AllAlnum(s) {
      var k := FirstHyphen(s, 0);
      LabelTail(s, k);
      LabelIsWords(s[k + 1..]);
    }
  }

  lemma JoinLabel(s: string, k: int)
    requires 0 < k < |s| && s[k] == '-' && AllAlnum(s[..k]) && IsLabel(s[k + 1..])
    ensures IsLabel(s)
  {
    var rest := s[k + 1..];
    assert forall m | 0 <= m < k :: s[m] == s[..k][m];
    assert forall m | k < m < |s| :: s[m] == rest[m - k - 1];
    assert Alnum(s[0]) && Alnum(s[k - 1]);
    forall m | 0 < m < |s| && s[m] == '-'
      ensures Alnum(s[m - 1])
    {
      if m > k + 1 {
        assert rest[m - k - 1] == '-';
        assert rest[m - k - 2] == s[m - 1];
      }
    }
  }

  lemma {:induction false} WordsAreLabel(s: string)
    requires WordsJoined(s)
    ensures IsLabel(s)
    decreases |s|
  {
    if !AllAlnum(s) {
      var k :| 0 < k < |s| && s[k] == '-' && AllAlnum(s[..k]) && WordsJoined(s[k + 1..]);
      WordsAreLabel(s[k + 1..]);
      JoinLabel(s, k);
    }
  }

  // ----- leftmost search in one text -----

  function LabelEnd(t: string, k: nat): (e: nat)
    requires k <= |t|
    ensures k <= e <= |t| && (forall m | k <= m < e :: LabelChar(t[m])) && (e < |t| ==> !LabelChar(t[e]))
    decreases |t| - k
  {
    if k == |t| || !LabelChar(t[k]) then k else LabelEnd(t, k + 1)
  }

  /** End of the match that starts at i; 0 if none does. */
  function UrlEnd(t: string, i: nat): nat
    requires i <= |t|
  {
    if i + 8 > |t| || t[i..i + 8] != Scheme() then 0
    else
      var e := LabelEnd(t, i + 8);
      var j := e + 18;
      if IsLabel(t[i + 8..e]) && j <= |t| && t[e..j] == Domain() && (j == |t| || !WordChar(t[j])) then j else 0
  }

  lemma UrlEndMatches(t: string, i: nat)
    requires i <= |t| && UrlEnd(t, i) != 0
    ensures MatchAt(t, i, UrlEnd(t, i))
  {
    var e := LabelEnd(t, i + 8);
    LabelIsWords(t[i + 8..e]);
    assert t[i..e + 18] == Scheme() + t[i + 8..e] + Domain();
  }

  lemma SliceOfSlice(t: string, i: int, j: int, a: int, b: int)
    requires 0 <= i <= j <= |t| && 0 <= a <= b <= j - i
    ensures t[i..j][a..b] == t[i + a..i + b]
  {
    var u := t[i..j];
    forall k | 0 <= k < b - a
      ensures u[a..b][k] == t[i + a..i + b][k]
    {
      assert u[a..b][k] == u[a + k] == t[i + a + k];
    }
    assert u[a..b] == t[i + a..i + b];
  }

  /** Where the parts of a match stand. */
  lemma MatchParts(t: string, i: int, j: int) returns (e: int)
    requires MatchAt(t, i, j)
    ensures 0 <= i && i + 8 < e && e + 18 == j && j <= |t|
    ensures t[i..i + 8] == Scheme() && IsLabel(t[i + 8..e]) && t[e..j] == Domain()
  {
    var u := t[i..j];
    var name :| WordsJoined(name) && u == Scheme() + name + Domain();
    WordsAreLabel(name);
    e := j - 18;
    assert |Scheme()| == 8 && |Domain()| == 18;
    assert u[..8] == Scheme() && u[8..8 + |name|] == name && u[8 + |name|..] == Domain();
    assert |u| == 26 + |name| && e == i + 8 + |name|;
    SliceOfSlice(t, i, j, 0, 8);
    SliceOfSlice(t, i, j, 8, 8 + |name|);
    SliceOfSlice(t, i, j, 8 + |name|, |u|);
    assert t[i..i + 8] == Scheme();
    assert t[i + 8..e] == name;
    assert t[e..j] == Domain();
  }

  lemma MatchEndsThere(t: string, i: int, j: int)
    requires MatchAt(t, i, j)
    ensures 0 <= i <= |t| && UrlEnd(t, i) == j
  {
    var e := MatchParts(t, i, j);
    assert t[e] == t[e..j][0] == '.';
    assert forall m | i + 8 <= m < e :: t[m] == t[i + 8..e][m - i - 8];
    assert LabelEnd(t, i + 8) == e;
  }

  /** Start of the leftmost match at or after i. */
  function FindFrom(t: string, i: nat): (r: Option<nat>)
    requires i <= |t|
    ensures r.Some? ==> i <= r.value <= |t| && UrlEnd(t, r.value) != 0
    ensures forall k | i <= k <= |t| && (r.Some? ==> k < r.value) :: UrlEnd(t, k) == 0
    decreases |t| - i
  {
    if UrlEnd(t, i) != 0 then Some(i) else if i == |t| then None else FindFrom(t, i + 1)
  }

  /** The leftmost match, or "" if there is none. */
  function FindString(t: string): string {
    var r := FindFrom(t, 0);
    if r.None? || UrlEnd(t, r.value) < r.value || UrlEnd(t, r.value) > |t| then "" else t[r.value..UrlEnd(t, r.value)]
  }

  lemma FindStringFinds(t: string)
    ensures FindString(t) != "" <==> HasMatch(t)
    ensures FindString(t) != "" ==> LeftmostUrl(t, 0, FindString(t))
  {
    var r := FindFrom(t, 0);
    forall k, m | MatchAt(t, k, m)
      ensures r.Some? && r.value <= k && FindString(t) != ""
    {
      MatchEndsThere(t, k, m);
      var _ := MatchParts(t, k, m);
      UrlEndMatches(t, r.value);
      var _ := MatchParts(t, r.value, UrlEnd(t, r.value));
    }
    if r.Some? {
      UrlEndMatches(t, r.value);
      assert Leftmost(t, 0, r.value, UrlEnd(t, r.value));
    }
  }

  lemma LeftmostUnique(t: string, from: int, u: string, v: string)
    requires LeftmostUrl(t, from, u) && LeftmostUrl(t, from, v)
    ensures u == v
  {
    var i, j :| Leftmost(t, from, i, j) && u == t[i..j];
    var k, m :| Leftmost(t, from, k, m) && v == t[k..m];
    MatchEndsThere(t, i, j);
    MatchEndsThere(t, k, m);
  }

  // ----- the sliding buffer -----

  const BUFFER_LIMIT: nat := 8192
  const KEEP: nat := 4096

  /** `found` is everything ever sent on the channel. */
  datatype State = State(buffer: string, sent: bool, found: seq<string>)

  const Fresh := State("", false, [])

  function Trim(buffer: string): string {
    if |buffer| > BUFFER_LIMIT then buffer[|buffer| - KEEP..] else buffer
  }

  function Step(s: State, chunk: string): State {
    if s.sent then s
    else
      var text := s.buffer + chunk;
      var u := FindString(text);
      if u != "" then State("", true, s.found + [u]) else State(Trim(text), false, s.found)
  }

  /** What one call does: the leftmost match of what is kept and the chunk is sent, once, and
      then nothing is kept; without one, the text is, or its last 4096 characters if it is
      longer than 8192. */
  ghost predicate OneCall(s: State, chunk: string, t: State) {
    var text := s.buffer + chunk;
    if s.sent then t == s
    else
      && (t.sent <==> HasMatch(text))
      && if t.sent
         then
           && t.buffer == "" && |t.found| == |s.found| + 1 && t.found[..|s.found|] == s.found
           && LeftmostUrl(text, 0, t.found[|s.found|])
         else t.found == s.found && t.buffer == if |text| <= 8192 then text else text[|text| - 4096..]
  }

  lemma StepExactly(s: State, chunk: string)
    ensures OneCall(s, chunk, Step(s, chunk))
  {
    FindStringFinds(s.buffer + chunk);
  }

  /** After all chunks. */
  function After(chunks: seq<string>): State {
    if chunks == [] then Fresh else Step(After(chunks[..|chunks| - 1]), chunks[|chunks| - 1])
  }

  function Joined(chunks: seq<string>): string {
    if chunks == [] then "" else Joined(chunks[..|chunks| - 1]) + chunks[|chunks| - 1]
  }

  lemma Snoc(chunks: seq<string>, chunk: string)
    ensures After(chunks + [chunk]) == Step(After(chunks), chunk)
    ensures Joined(chunks + [chunk]) == Joined(chunks) + chunk
  {
    assert (chunks + [chunk])[..|chunks|] == chunks;
  }

  /** How many characters of the stream have left the buffer. */
  function Dropped(stream: string, s: State): int {
    |stream| - |s.buffer|
  }

  /** While nothing has been sent, the buffer is the end of the stream: all of it, or at
      least as much as is kept. */
  ghost predicate Holds(stream: string, s: State) {
    && |s.found| == (if s.sent then 1 else 0)
    && |s.buffer| <= BUFFER_LIMIT
    && (!s.sent ==>
          && |s.buffer| <= |stream| && s.buffer == stream[|stream| - |s.buffer|..]
          && (|s.buffer| == |stream| || |s.buffer| >= KEEP))
  }

  lemma TailSnoc(stream: string, d: int, chunk: string)
    requires 0 <= d <= |stream|
    ensures stream[d..] + chunk == (stream + chunk)[d..]
  {
  }

  lemma TailOfTail(t: string, d: int, k: int)
    requires 0 <= d <= |t| && 0 <= k <= |t| - d
    ensures t[d..][k..] == t[d + k..]
  {
  }

  lemma StepHolds(stream: string, s: State, chunk: string)
    requires Holds(stream, s)
    ensures Holds(stream + chunk, Step(s, chunk))
  {
    if !s.sent {
      var d := |stream| - |s.buffer|;
      var text := s.buffer + chunk;
      TailSnoc(stream, d, chunk);
      if |text| > BUFFER_LIMIT {
        TailOfTail(stream + chunk, d, |text| - KEEP);
      }
    }
  }

  lemma {:induction false} BufferIsTail(chunks: seq<string>)
    ensures Holds(Joined(chunks), After(chunks))
  {
    if chunks != [] {
      var before := chunks[..|chunks| - 1];
      BufferIsTail(before);
      StepHolds(Joined(before), After(before), chunks[|chunks| - 1]);
    }
  }

  // ----- a tail of the stream has the stream's own matches -----

  lemma MatchInTail(t: string, d: int, i: int, j: int)
    requires 0 <= d <= |t| && d <= i
    ensures MatchAt(t, i, j) <==> MatchAt(t[d..], i - d, j - d)
  {
    if i <= j <= |t| {
      assert t[d..][i - d..j - d] == t[i..j];
    }
  }

  lemma LeftmostInTail(t: string, d: int, u: string)
    requires 0 <= d <= |t| && LeftmostUrl(t[d..], 0, u)
    ensures LeftmostUrl(t, d, u)
  {
    var tail := t[d..];
    var i, j :| Leftmost(tail, 0, i, j) && u == tail[i..j];
    MatchInTail(t, d, d + i, d + j);
    forall k, m | MatchAt(t, k, m) && d <= k
      ensures d + i <= k
    {
      MatchInTail(t, d, k, m);
    }
    assert t[d + i..d + j] == u;
    assert Leftmost(t, d, d + i, d + j);
  }

  ghost predicate HasMatchFrom(t: string, d: int) {
    exists i, j :: MatchAt(t, i, j) && d <= i
  }

  lemma TailHasMatch(t: string, d: int)
    requires 0 <= d <= |t|
    ensures HasMatch(t[d..]) <==> HasMatchFrom(t, d)
  {
    if HasMatch(t[d..]) {
      var i, j :| MatchAt(t[d..], i, j);
      MatchInTail(t, d, d + i, d + j);
    }
    if HasMatchFrom(t, d) {
      var i, j :| MatchAt(t, i, j) && d <= i;
      MatchInTail(t, d, i, j);
    }
  }

  /** For all inputs: a call sends the leftmost of the matches that start in what has not
      been dropped before it, and sends nothing if there is none. */
  lemma CallSendsLeftmostKept(stream: string, s: State, chunk: string)
    requires Holds(stream, s) && !s.sent
    ensures var t := stream + chunk;
            var next := Step(s, chunk);
            && 0 <= Dropped(stream, s) <= |t|
            && (next.sent <==> HasMatchFrom(t, Dropped(stream, s)))
            && (next.sent ==> |next.found| == 1 && LeftmostUrl(t, Dropped(stream, s), next.found[0]))
            && (!next.sent ==> next.found == [])
  {
    var t, d := stream + chunk, Dropped(stream, s);
    var text := s.buffer + chunk;
    assert text == t[d..];
    FindStringFinds(text);
    TailHasMatch(t, d);
    if FindString(text) != "" {
      LeftmostInTail(t, d, FindString(text));
    }
  }

  // ----- the bounded search against the search of the whole stream -----

  /** The first n chunks are the shortest prefix that has a match. */
  ghost predicate FirstHit(chunks: seq<string>, n: int) {
    && 0 <= n <= |chunks| && HasMatch(Joined(chunks[..n]))
    && forall m | 0 <= m < n :: !HasMatch(Joined(chunks[..m]))
  }

  /** What the search is for: the leftmost match of the shortest chunk-aligned prefix of the
      stream that has one. */
  ghost predicate FirstUrl(chunks: seq<string>, u: string) {
    exists n :: FirstHit(chunks, n) && LeftmostUrl(Joined(chunks[..n]), 0, u)
  }

  /** A match that the last chunk completes ends in that chunk. */
  lemma NewMatchEndsLate(stream: string, chunk: string, i: int, j: int)
    requires !HasMatch(stream) && MatchAt(stream + chunk, i, j)
    ensures j > |stream|
  {
    if j <= |stream| {
      OldMatch(stream, chunk, i, j);
    }
  }

  lemma OldMatch(stream: string, chunk: string, i: int, j: int)
    requires MatchAt(stream + chunk, i, j) && j <= |stream|
    ensures MatchAt(stream, i, j)
  {
    assert (stream + chunk)[i..j] == stream[i..j];
  }

  /** Some prefix of the stream contains the address. */
  ghost predicate Genuine(chunks: seq<string>, u: string) {
    exists n, d :: 0 <= n <= |chunks| && LeftmostUrl(Joined(chunks[..n]), d, u)
  }

  lemma GenuineStays(before: seq<string>, chunk: string, u: string)
    requires Genuine(before, u)
    ensures Genuine(before + [chunk], u)
  {
    var n, d :| 0 <= n <= |before| && LeftmostUrl(Joined(before[..n]), d, u);
    assert (before + [chunk])[..n] == before[..n];
  }

  lemma NewIsGenuine(before: seq<string>, chunk: string)
    requires !After(before).sent
    ensures forall u | u in After(before + [chunk]).found :: Genuine(before + [chunk], u)
  {
    var chunks := before + [chunk];
    BufferIsTail(before);
    Snoc(before, chunk);
    CallSendsLeftmostKept(Joined(before), After(before), chunk);
    assert chunks[..|chunks|] == chunks;
  }

  /** For all inputs: whatever is sent is an address that the stream contained. */
  lemma {:induction false} SentIsGenuine(chunks: seq<string>)
    ensures forall u | u in After(chunks).found :: Genuine(chunks, u)
  {
    if chunks != [] {
      var before, chunk := chunks[..|chunks| - 1], chunks[|chunks| - 1];
      assert chunks == before + [chunk];
      SentIsGenuine(before);
      if After(before).sent {
        forall u | u in After(before).found
          ensures Genuine(chunks, u)
        {
          GenuineStays(before, chunk, u);
        }
      } else {
        NewIsGenuine(before, chunk);
      }
    }
  }

  /** Without any bound: the match the whole-stream search would choose is the one sent if it
      starts in what was kept. Otherwise only one that starts later can be. */
  lemma FirstHitSentExactlyIfKept(chunks: seq<string>, n: int, i: int, j: int)
    requires FirstHit(chunks, n) && 0 < n && Leftmost(Joined(chunks[..n]), 0, i, j)
    ensures var before, t := chunks[..n - 1], Joined(chunks[..n]);
            var d := Dropped(Joined(before), After(before));
            && !After(before).sent
            && (d <= i ==> After(chunks[..n]).found == [t[i..j]])
            && (i < d ==> forall u | u in After(chunks[..n]).found :: LeftmostUrl(t, d, u))
  {
    var before, t := chunks[..n - 1], Joined(chunks[..n]);
    assert chunks[..n] == before + [chunks[n - 1]];
    NothingSentWithoutMatch(chunks, n - 1);
    BufferIsTail(before);
    Snoc(before, chunks[n - 1]);
    CallSendsLeftmostKept(Joined(before), After(before), chunks[n - 1]);
    var d := Dropped(Joined(before), After(before));
    if d <= i {
      assert Leftmost(t, d, i, j) && LeftmostUrl(t, d, t[i..j]);
      LeftmostUnique(t, d, t[i..j], After(chunks[..n]).found[0]);
    }
  }

  lemma NothingSentWithoutMatch(chunks: seq<string>, n: int)
    requires 0 <= n <= |chunks| && forall m | 0 <= m <= n :: !HasMatch(Joined(chunks[..m]))
    ensures !After(chunks[..n]).sent
  {
    var before := chunks[..n];
    SentIsGenuine(before);
    BufferIsTail(before);
    if After(before).sent {
      var u := After(before).found[0];
      assert u in After(before).found && Genuine(before, u);
      var m, d :| 0 <= m <= |before| && LeftmostUrl(Joined(before[..m]), d, u);
      assert before[..m] == chunks[..m];
      assert HasMatch(Joined(chunks[..m]));
      assert false;
    }
  }

  // ----- which addresses the buffer never loses -----

  lemma EmptyHasNone()
    ensures !HasMatch("")
  {
    forall i, j
      ensures !MatchAt("", i, j)
    {
      if MatchAt("", i, j) {
        var _ := MatchParts("", i, j);
      }
    }
  }

  /** Once something is sent, nothing changes any more. */
  lemma {:induction false} SentIsFinal(chunks: seq<string>, n: int)
    requires 0 <= n <= |chunks| && After(chunks[..n]).sent
    ensures After(chunks) == After(chunks[..n])
  {
    if n == |chunks| {
      assert chunks[..n] == chunks;
    } else {
      var before := chunks[..|chunks| - 1];
      assert before[..n] == chunks[..n];
      SentIsFinal(before, n);
    }
  }

  /** A match that is new and not too long starts in what was kept. */
  lemma ShortIsKept(before: seq<string>, chunk: string, i: int, j: int)
    requires !After(before).sent && !HasMatch(Joined(before))
    requires MatchAt(Joined(before) + chunk, i, j) && j - i <= KEEP + 1
    ensures Dropped(Joined(before), After(before)) <= i
  {
    BufferIsTail(before);
    NewMatchEndsLate(Joined(before), chunk, i, j);
  }

  /** However the stream is cut, an address of at most KEEP + 1 characters is sent if it is
      the one looked for. */
  lemma ShortIsSent(chunks: seq<string>, u: string)
    requires FirstUrl(chunks, u) && |u| <= KEEP + 1
    ensures After(chunks).found == [u]
  {
    var n :| FirstHit(chunks, n) && LeftmostUrl(Joined(chunks[..n]), 0, u);
    EmptyHasNone();
    assert n > 0;
    var before, t := chunks[..n - 1], Joined(chunks[..n]);
    var i, j :| Leftmost(t, 0, i, j) && u == t[i..j];
    assert chunks[..n] == before + [chunks[n - 1]];
    Snoc(before, chunks[n - 1]);
    FirstHitSentExactlyIfKept(chunks, n, i, j);
    ShortIsKept(before, chunks[n - 1], i, j);
    BufferIsTail(chunks[..n]);
    SentIsFinal(chunks, n);
  }

  lemma {:induction false} SomeFirstHit(chunks: seq<string>, m: int) returns (n: int)
    requires 0 <= m <= |chunks| && HasMatch(Joined(chunks[..m]))
    ensures FirstHit(chunks, n)
    decreases m
  {
    if k :| 0 <= k < m && HasMatch(Joined(chunks[..k])) {
      n := SomeFirstHit(chunks, k);
    } else {
      n := m;
    }
  }

  lemma SomeFirstUrl(chunks: seq<string>, m: int) returns (u: string)
    requires 0 <= m <= |chunks| && HasMatch(Joined(chunks[..m]))
    ensures FirstUrl(chunks, u)
  {
    var n := SomeFirstHit(chunks, m);
    u := FindString(Joined(chunks[..n]));
    FindStringFinds(Joined(chunks[..n]));
  }

  lemma NothingFound(chunks: seq<string>)
    requires forall n | 0 <= n <= |chunks| :: !HasMatch(Joined(chunks[..n]))
    ensures After(chunks).found == []
  {
    NothingSentWithoutMatch(chunks, |chunks|);
    assert chunks[..|chunks|] == chunks;
    BufferIsTail(chunks);
  }

  /** The bounded search refines the search of the whole stream: if the address looked for is
      not longer than KEEP + 1, what is sent is the leftmost match of the shortest
      chunk-aligned prefix that has one, and nothing is sent exactly when no prefix has one. */
  lemma SearchRefines(chunks: seq<string>)
    requires forall u | FirstUrl(chunks, u) :: |u| <= KEEP + 1
    ensures forall u :: After(chunks).found == [u] <==> FirstUrl(chunks, u)
    ensures After(chunks).found == [] <==> forall n | 0 <= n <= |chunks| :: !HasMatch(Joined(chunks[..n]))
  {
    forall u | FirstUrl(chunks, u)
      ensures After(chunks).found == [u]
    {
      ShortIsSent(chunks, u);
    }
    if m :| 0 <= m <= |chunks| && HasMatch(Joined(chunks[..m])) {
      var _ := SomeFirstUrl(chunks, m);
    } else {
      NothingFound(chunks);
      forall u
        ensures !FirstUrl(chunks, u)
      {
      }
    }
  }

  // ----- every longer one can be lost -----

  function Pad(): (s: string)
    ensures |s| == BUFFER_LIMIT && forall k | 0 <= k < |s| :: s[k] == ' '
  {
    seq(BUFFER_LIMIT, _ => ' ')
  }

  /** The stream up to the last character of an address, and that character. */
  function Losing(u: string): seq<string>
    requires u != ""
  {
    [Pad() + u[..|u| - 1], u[|u| - 1..]]
  }

  lemma LosingJoined(u: string)
    requires u != ""
    ensures var first, last := Pad() + u[..|u| - 1], u[|u| - 1..];
            && Losing(u)[..0] == [] && Losing(u)[..1] == [first] && Losing(u)[..2] == Losing(u) == [first] + [last]
            && Joined([first]) == first && Joined(Losing(u)) == Pad() + u
  {
    var first, last := Pad() + u[..|u| - 1], u[|u| - 1..];
    Snoc([], first);
    assert [] + [first] == [first] && "" + first == first;
    Snoc([first], last);
    assert u[..|u| - 1] + last == u;
    assert first + last == Pad() + (u[..|u| - 1] + last);
  }

  lemma FixedMarks()
    ensures forall k | 0 <= k < 8 :: Scheme()[k] != '.' && (Scheme()[k] == ':' ==> k == 5)
    ensures forall k | 0 <= k < 18 :: Domain()[k] != ':' && (Domain()[k] == '.' ==> k == 0 || k == 14)
  {
  }

  /** Where the colon and the dots of an address stand. */
  lemma Marks(u: string)
    requires IsUrl(u)
    ensures |u| > 26 && u[..8] == Scheme() && u[|u| - 18..] == Domain()
    ensures forall k | 0 <= k < |u| && u[k] == ':' :: k == 5
    ensures forall k | 0 <= k < |u| && u[k] == '.' :: k == |u| - 18 || k == |u| - 4
  {
    assert u[0..|u|] == u;
    FixedMarks();
    var e := MatchParts(u, 0, |u|);
    assert forall k | 0 <= k < 8 :: u[k] == u[0..8][k];
    assert forall k | 8 <= k < e :: u[k] == u[8..e][k - 8] && LabelChar(u[k]);
    assert forall k | e <= k < |u| :: u[k] == u[e..|u|][k - e];
  }

  /** Two dots of a match, and its colon. */
  lemma MatchMarks(t: string, i: int, j: int)
    requires MatchAt(t, i, j)
    ensures 0 <= i && i + 26 < j <= |t| && t[i + 5] == ':' && t[j - 18] == '.' && t[j - 4] == '.'
  {
    var e := MatchParts(t, i, j);
    assert t[i..i + 8][5] == ':' && t[e..j][0] == '.' && t[e..j][14] == '.';
  }

  /** Without its last character there is no match yet. */
  lemma NoMatchYet(u: string)
    requires IsUrl(u)
    ensures !HasMatch(Pad() + u[..|u| - 1])
  {
    Marks(u);
    var first := Pad() + u[..|u| - 1];
    assert forall k | 0 <= k < |first| :: first[k] == if k < |Pad()| then ' ' else u[k - |Pad()|];
    forall i, j
      ensures !MatchAt(first, i, j)
    {
      if MatchAt(first, i, j) {
        MatchMarks(first, i, j);
      }
    }
  }

  /** With it there is one, and it is the address. */
  lemma OneMatch(u: string)
    requires IsUrl(u)
    ensures Leftmost(Pad() + u, 0, |Pad()|, |Pad()| + |u|)
  {
    Marks(u);
    var t := Pad() + u;
    assert t[|Pad()|..|Pad()| + |u|] == u;
    assert forall k | 0 <= k < |t| :: t[k] == if k < |Pad()| then ' ' else u[k - |Pad()|];
    forall i, j | MatchAt(t, i, j)
      ensures |Pad()| <= i
    {
      MatchMarks(t, i, j);
    }
  }

  /** In the end of a long address there is no match. */
  lemma NoMatchInEnd(u: string, kept: string)
    requires IsUrl(u) && |kept| < |u| && kept == u[|u| - |kept|..]
    ensures !HasMatch(kept)
  {
    Marks(u);
    assert forall k | 0 <= k < |kept| :: kept[k] == u[|u| - |kept| + k];
    forall i, j
      ensures !MatchAt(kept, i, j)
    {
      if MatchAt(kept, i, j) {
        MatchMarks(kept, i, j);
      }
    }
  }

  lemma Unmatched(s: State, chunk: string)
    requires !s.sent && !HasMatch(s.buffer + chunk)
    ensures Step(s, chunk) == State(Trim(s.buffer + chunk), false, s.found)
  {
    FindStringFinds(s.buffer + chunk);
  }

  lemma LosingFinds(u: string)
    requires IsUrl(u)
    ensures FirstUrl(Losing(u), u)
  {
    LosingJoined(u);
    NoMatchYet(u);
    OneMatch(u);
    EmptyHasNone();
    assert (Pad() + u)[|Pad()|..|Pad()| + |u|] == u;
    assert FirstHit(Losing(u), 2);
  }

  lemma LosingKeeps(u: string)
    requires IsUrl(u) && |u| > KEEP + 1
    ensures Trim(Pad() + u[..|u| - 1]) + u[|u| - 1..] == u[|u| - KEEP - 1..]
  {
  }

  /** Every longer address is lost when the stream is cut before its last character: it is the
      one looked for, and nothing is sent. */
  lemma LongUrlIsLost(u: string)
    requires IsUrl(u) && |u| > KEEP + 1
    ensures FirstUrl(Losing(u), u) && After(Losing(u)).found == []
  {
    LosingFinds(u);
    LosingJoined(u);
    NoMatchYet(u);
    var first, last := Pad() + u[..|u| - 1], u[|u| - 1..];
    Snoc([], first);
    assert [] + [first] == [first] && "" + first == first;
    Unmatched(Fresh, first);
    var kept := Trim(first);
    LosingKeeps(u);
    NoMatchInEnd(u, kept + last);
    Snoc([first], last);
    Unmatched(After([first]), last);
  }

  /** So the addresses that are sent however the stream is cut are exactly those of at most
      KEEP + 1 characters. */
  lemma NeverLostExactly(u: string)
    requires IsUrl(u)
    ensures (forall chunks | FirstUrl(chunks, u) :: After(chunks).found == [u]) <==> |u| <= KEEP + 1
  {
    if |u| <= KEEP + 1 {
      forall chunks | FirstUrl(chunks, u)
        ensures After(chunks).found == [u]
      {
        ShortIsSent(chunks, u);
      }
    } else {
      LongUrlIsLost(u);
    }
  }

  // ----- the source's object -----

  class UrlOutput {
    var buffer: string
    var sent: bool
    var found: seq<string>
    ghost var history: seq<string>

    function View(): State
      reads this
    {
      State(buffer, sent, found)
    }

    ghost predicate Valid()
      reads this
    {
      View() == After(history)
    }

    constructor ()
      ensures Valid() && history == []
    {
      buffer, sent, found, history := "", false, [], [];
    }

    /** The channel has room for one address and must not be full. */
    method Send(u: string)
      requires |found| < 1
      modifies this`found
      ensures found == old(found) + [u]
    {
      found := found + [u];
    }

    method Write(b: string) returns (n: nat)
      requires Valid()
      modifies this
      ensures OneCall(old(View()), b, View())
      ensures Valid() && history == old(history) + [b] && n == |b|
      ensures |buffer| <= BUFFER_LIMIT && |found| <= 1
    {
      ghost var before := After(history);
      BufferIsTail(history);
      Snoc(history, b);
      BufferIsTail(history + [b]);
      if !sent {
        buffer := buffer + b;
        var u := FindString(buffer);
        if u != "" {
          Send(u);
          sent := true;
          buffer := "";
        }
        if |buffer| > BUFFER_LIMIT {
          buffer := buffer[|buffer| - KEEP..];
        }
      }
      assert View() == Step(before, b);
      StepExactly(before, b);
      history := history + [b];
      n := |b|;
    }
  }
}
