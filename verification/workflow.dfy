/** The shortcut builder: nested programs, the flat action list with group markers that
    `Workflow` emits, a semantics for each, and why they agree. */
module Workflow {
  import opened Basics

  // ----- labels -----

  /** The label words of the four shortcuts, numbered in the order in which they come up. */
  type Name = nat

  const About: Name := 0
  const ShareText: Name := 1
  const Clipboard: Name := 2
  const ClipboardText: Name := 3
  const PairingCandidate: Name := 4
  const ChooseConfig: Name := 5
  const PairSource: Name := 6
  const PairShare: Name := 7
  const PairClip: Name := 8
  const Pairing: Name := 9
  const ConfigSource: Name := 10
  const NewConfig: Name := 11
  const LoadConfig: Name := 12
  const MissingConfig: Name := 13
  const SavedConfigText: Name := 14
  const SavedText: Name := 15
  const ConfigShape: Name := 16
  const Shape: Name := 17
  const Config: Name := 18
  const Version: Name := 19
  const VersionValid: Name := 20
  const VersionCheck: Name := 21
  const Transport: Name := 22
  const TransportCheck: Name := 23
  const BaseUrl: Name := 24
  const BaseValid: Name := 25
  const Base: Name := 26
  const BaseCheck: Name := 27
  const TokenField: Name := 28
  const TokenValid: Name := 29
  const Connect: Name := 30
  const ConnectWait: Name := 31
  const Pair: Name := 32
  const StatusRequest: Name := 33
  const Ticket: Name := 34
  const TicketCheck: Name := 35
  const PairRequest: Name := 36
  const NewToken: Name := 37
  const NewTokenCheck: Name := 38
  const ResponseVersion: Name := 39
  const ResponseVersionCheck: Name := 40
  const PairedConfig: Name := 41
  const NameConfig: Name := 42
  const SaveConfig: Name := 43
  const VerifySavedConfig: Name := 44
  const ReadConfig: Name := 45
  const SaveFailed: Name := 46
  const ClearPairing: Name := 47
  const ClearClipboard: Name := 48
  const ReadDictionary: Name := 49
  const ReadToken: Name := 50
  const ReadbackMatch: Name := 51
  const ReadbackFailed: Name := 52
  const ClearPairingClipboard: Name := 53
  const ConsumedTicket: Name := 54
  const ClearConsumedTicket: Name := 55
  const Paired: Name := 56
  const PairedToken: Name := 57
  const OldToken: Name := 58
  const OldTokenCheck: Name := 59
  const SavedToken: Name := 60
  const ChoosePayload: Name := 61
  const SharedText: Name := 62
  const CopiedText: Name := 63
  const SharedPayload: Name := 64
  const CopiedPayload: Name := 65
  const EmptyPayload: Name := 66
  const CredentialPayload: Name := 67
  const RejectCredential: Name := 68
  const Secret: Name := 69
  const RejectSecret: Name := 70
  const Transfer: Name := 71
  const ReceivedText: Name := 72
  const Received: Name := 73
  const EmptyResult: Name := 74
  const ReceivedClipboard: Name := 75
  const DeviceName: Name := 76
  const Success: Name := 77

  /** The suffixes the builder appends after a slash. */
  datatype Part =
    | Match | Else | End | Notice | Halt | Address | Url | Fetch | Response | OkField
    | OkBranch | Continue | ErrorField | ErrorBranch | ApiError | InvalidResponse

  /** A label and, through the builder's one-to-one `uid`, an action or group identifier. */
  datatype Label = Word(name: Name) | Sub(parent: Label, part: Part)

  function NameOf(id: Label): Name {
    match id
    case Word(n) => n
    case Sub(p, _) => NameOf(p)
  }

  // ----- actions -----

  datatype Pattern =
    | PairingShape | VersionOne | TailscaleBase | TokenShape | NonEmpty
    | SimpleTicketShape | SimpleConfigShape | CloudflareWord | SimpleBase | SecretShape

  /** What a parameter may refer to. */
  datatype Ref = Out(id: Label) | ShareInput

  datatype Piece = Lit(text: string) | Tok(ref: Ref)

  /** The notices of the shortcuts; only the last two quote a value. */
  datatype Message =
    | Help | SaveProblem | PairedOnly | NothingToSend | IsCredential | DesktopEmpty | ReadbackProblem | BadReply
    | ServerSays | Delivered

  /** The dictionary keys the shortcuts read and write, in the wire's spelling. */
  datatype Key =
    | KeyVersion | KeyTransport | KeyBaseUrl | KeyToken | KeyTicket | KeyText | KeyOk | KeyErrorMessage | KeyDeviceName

  /** The conditions written as WFCondition 100, 101 and 4. */
  datatype Condition = HasValue | NoValue | IsTrue

  datatype Op =
    | Comment
    | GetClipboard
    | DetectText(input: Ref)
    | MatchText(subject: Ref, pattern: Pattern)
    | MatchExactly(subject: Ref, whole: Ref)
    | GetText(text: seq<Piece>)
    | OpenFile
    | SaveFile(input: Ref)
    | DetectDictionary(input: Ref)
    | FieldOf(input: Ref, key: Key)
    | TailscaleConnect
    | Delay
    | MakeUrl(input: Ref)
    | Download(url: Ref, post: bool, auth: Option<seq<Piece>>, json: seq<(Key, seq<Piece>)>)
    | NameItem(input: Ref)
    | SetClipboard(input: Ref)
    | Notification(message: Message, about: Option<Ref>)
    | Nothing

  /** One entry of the flat list. Markers carry the group identifier; modes 0, 1, 2. */
  datatype Action =
    | Do(id: Label, op: Op)
    | Begin(group: Label, subject: Ref, cond: Condition)
    | Otherwise(group: Label)
    | Close(group: Label)
    | Exit(id: Label)

  // ----- nested programs -----

  datatype Stmt =
    | Act(id: Label, op: Op)
    | If(group: Label, subject: Ref, cond: Condition, thn: Prog, hasElse: bool, els: Prog)
    | Stop(id: Label)

  datatype Prog = Nil | Cons(head: Stmt, tail: Prog)

  function Flatten(p: Prog): seq<Action> {
    match p
    case Nil => []
    case Cons(s, rest) => FlattenStmt(s) + Flatten(rest)
  }

  function FlattenStmt(s: Stmt): seq<Action> {
    match s
    case Act(id, op) => [Do(id, op)]
    case Stop(id) => [Exit(id)]
    case If(g, subject, cond, thn, hasElse, els) =>
      [Begin(g, subject, cond)] + Flatten(thn)
      + (if hasElse then [Otherwise(g)] + Flatten(els) else [])
      + [Close(g)]
  }

  // ----- the host: values, environment, effects -----

  datatype Value = Missing | Has(text: string)

  datatype Effect =
    | Notify(message: Message, detail: string)
    | Joined
    | Waited
    | Opened(value: Value)
    | Saved(text: string)
    | ClipboardSet(value: Value)
    | Http(url: string, post: bool, auth: Option<string>, json: seq<(Key, string)>, reply: Value)

  /** Everything the host and the world decide. Replies, file contents and the clipboard
      may depend on all that happened before. */
  datatype Env = Env(
    share: Value,
    clipboard: seq<Effect> -> Value,
    file: seq<Effect> -> Value,
    reply: (seq<Effect>, string) -> Value,
    matches: (Pattern, string) -> bool,
    exactly: (string, string) -> bool,
    parse: Value -> Value,
    field: (Value, Key) -> Value,
    truth: Value -> bool)

  /** `last` is the output of the last action run, from which a group takes its result;
      `dangling` records a reference to an action that has not run. */
  datatype St = St(out: map<Label, Value>, last: Value, log: seq<Effect>, stopped: bool, dangling: bool)

  const Start := St(map[], Missing, [], false, false)

  function Text(v: Value): string {
    if v.Has? then v.text else ""
  }

  function Look(env: Env, st: St, r: Ref): Value {
    match r
    case ShareInput => env.share
    case Out(id) => if id in st.out then st.out[id] else Missing
  }

  predicate RefIn(r: Ref, ran: set<Label>) {
    r.Out? ==> r.id in ran
  }

  function PieceText(env: Env, st: St, piece: Piece): string {
    match piece
    case Lit(t) => t
    case Tok(r) => Text(Look(env, st, r))
  }

  function Spell(env: Env, st: St, pieces: seq<Piece>): string {
    if pieces == [] then "" else PieceText(env, st, pieces[0]) + Spell(env, st, pieces[1..])
  }

  function SpellFields(env: Env, st: St, json: seq<(Key, seq<Piece>)>): seq<(Key, string)> {
    if json == [] then []
    else [(json[0].0, Spell(env, st, json[0].1))] + SpellFields(env, st, json[1..])
  }

  predicate PiecesIn(pieces: seq<Piece>, ran: set<Label>) {
    forall p | p in pieces && p.Tok? :: RefIn(p.ref, ran)
  }

  /** Whether every reference of an action is to an action in `ran`. */
  predicate RefsIn(op: Op, ran: set<Label>) {
    match op
    case DetectText(r) => RefIn(r, ran)
    case MatchText(r, _) => RefIn(r, ran)
    case MatchExactly(r, w) => RefIn(r, ran) && RefIn(w, ran)
    case GetText(t) => PiecesIn(t, ran)
    case SaveFile(r) => RefIn(r, ran)
    case DetectDictionary(r) => RefIn(r, ran)
    case FieldOf(r, _) => RefIn(r, ran)
    case MakeUrl(r) => RefIn(r, ran)
    case Download(u, _, a, j) =>
      RefIn(u, ran) && (a.Some? ==> PiecesIn(a.value, ran)) && forall f | f in j :: PiecesIn(f.1, ran)
    case NameItem(r) => RefIn(r, ran)
    case SetClipboard(r) => RefIn(r, ran)
    case Notification(_, about) => about.Some? ==> RefIn(about.value, ran)
    case _ => true
  }

  function TextMatch(hit: bool, subject: string): Value {
    if hit then Has(subject) else Missing
  }

  /** Output and effects of one action. */
  function Perform(env: Env, st: St, op: Op): (Value, seq<Effect>) {
    match op
    case GetClipboard => (env.clipboard(st.log), [])
    case DetectText(r) => (Look(env, st, r), [])
    case MatchText(r, p) => var t := Text(Look(env, st, r)); (TextMatch(env.matches(p, t), t), [])
    case MatchExactly(r, w) =>
      var t := Text(Look(env, st, r)); (TextMatch(env.exactly(Text(Look(env, st, w)), t), t), [])
    case GetText(t) => (Has(Spell(env, st, t)), [])
    case OpenFile => (env.file(st.log), [Opened(env.file(st.log))])
    case SaveFile(r) => (Look(env, st, r), [Saved(Text(Look(env, st, r)))])
    case DetectDictionary(r) => (env.parse(Look(env, st, r)), [])
    case FieldOf(r, k) => (env.field(Look(env, st, r), k), [])
    case TailscaleConnect => (Missing, [Joined])
    case Delay => (Missing, [Waited])
    case MakeUrl(r) => (Look(env, st, r), [])
    case Download(u, post, a, j) =>
      var url := Text(Look(env, st, u));
      var reply := env.reply(st.log, url);
      var auth := if a.Some? then Some(Spell(env, st, a.value)) else None;
      (reply, [Http(url, post, auth, SpellFields(env, st, j), reply)])
    case NameItem(r) => (Look(env, st, r), [])
    case SetClipboard(r) => (Missing, [ClipboardSet(Look(env, st, r))])
    case Notification(m, about) => (Missing, [Notify(m, if about.Some? then Text(Look(env, st, about.value)) else "")])
    case _ => (Missing, [])
  }

  function Exec(env: Env, st: St, id: Label, op: Op): St {
    var (value, effects) := Perform(env, st, op);
    st.(out := st.out[id := value], last := value, log := st.log + effects,
        dangling := st.dangling || !RefsIn(op, st.out.Keys))
  }

  predicate Holds(env: Env, st: St, subject: Ref, cond: Condition) {
    match cond
    case HasValue => Look(env, st, subject).Has?
    case NoValue => Look(env, st, subject).Missing?
    case IsTrue => env.truth(Look(env, st, subject))
  }

  /** Entering a group: nothing has run in it yet. */
  function Enter(st: St, subject: Ref): St {
    st.(last := Missing, dangling := st.dangling || !RefIn(subject, st.out.Keys))
  }

  /** The output identifier of a group's end marker. */
  function ResultId(group: Label): Label {
    Sub(group, End)
  }

  /** Leaving a group: the "If result" is the output of the last action run in it. */
  function Leave(st: St, group: Label): St {
    st.(out := st.out[ResultId(group) := st.last])
  }

  // ----- the nested semantics -----

  function Run(env: Env, p: Prog, st: St): St {
    match p
    case Nil => st
    case Cons(s, rest) => if st.stopped then st else Run(env, rest, RunStmt(env, s, st))
  }

  function RunStmt(env: Env, s: Stmt, st: St): St {
    match s
    case Act(id, op) => Exec(env, st, id, op)
    case Stop(_) => st.(stopped := true)
    case If(g, subject, cond, thn, hasElse, els) =>
      var inner := if Holds(env, st, subject, cond) then Run(env, thn, Enter(st, subject))
                   else if hasElse then Run(env, els, Enter(st, subject))
                   else Enter(st, subject);
      if inner.stopped then inner else Leave(inner, g)
  }

  /** A run never takes an effect back. */
  lemma {:induction false} RunExtends(env: Env, p: Prog, st: St)
    ensures st.log <= Run(env, p, st).log
    decreases p
  {
    match p
    case Nil =>
    case Cons(s, rest) =>
      if !st.stopped {
        if s.If? {
          RunExtends(env, s.thn, Enter(st, s.subject));
          RunExtends(env, s.els, Enter(st, s.subject));
        }
        RunExtends(env, rest, RunStmt(env, s, st));
      }
  }

  // ----- the flat semantics -----

  /** The first marker of the group at or after i; only a Close if `elseToo` is false. */
  function Seek(acts: seq<Action>, i: nat, g: Label, elseToo: bool): (j: nat)
    requires i <= |acts|
    ensures i <= j <= |acts|
    decreases |acts| - i
  {
    if i == |acts| then i
    else if acts[i] == Close(g) || (elseToo && acts[i] == Otherwise(g)) then i
    else Seek(acts, i + 1, g, elseToo)
  }

  /** The host's walk over the list from pc. */
  function RunFlat(env: Env, acts: seq<Action>, pc: nat, st: St): St
    requires pc <= |acts|
    decreases |acts| - pc
  {
    if pc == |acts| || st.stopped then st
    else
      match acts[pc]
      case Do(id, op) => RunFlat(env, acts, pc + 1, Exec(env, st, id, op))
      case Exit(_) => st.(stopped := true)
      case Begin(g, subject, cond) =>
        var inner := Enter(st, subject);
        if Holds(env, st, subject, cond) then RunFlat(env, acts, pc + 1, inner)
        else
          var j := Seek(acts, pc + 1, g, true);
          if j < |acts| && acts[j].Otherwise? then RunFlat(env, acts, j + 1, inner) else RunFlat(env, acts, j, inner)
      case Otherwise(g) => RunFlat(env, acts, Seek(acts, pc + 1, g, false), st)
      case Close(g) => RunFlat(env, acts, pc + 1, Leave(st, g))
  }

  // ----- flattening preserves meaning -----

  function Groups(p: Prog): set<Label> {
    match p
    case Nil => {}
    case Cons(s, rest) => GroupsOf(s) + Groups(rest)
  }

  function GroupsOf(s: Stmt): set<Label> {
    match s
    case If(g, _, _, thn, hasElse, els) => {g} + Groups(thn) + if hasElse then Groups(els) else {}
    case _ => {}
  }

  /** No group is opened again inside itself. Groups side by side may share a label. */
  predicate Nests(p: Prog) {
    match p
    case Nil => true
    case Cons(s, rest) => NestsStmt(s) && Nests(rest)
  }

  predicate NestsStmt(s: Stmt) {
    match s
    case If(g, _, _, thn, hasElse, els) =>
      && g !in Groups(thn) && Nests(thn)
      && (hasElse ==> g !in Groups(els) && Nests(els))
    case _ => true
  }

  lemma {:induction false} FlattenGroups(p: Prog)
    ensures forall a | a in Flatten(p) && (a.Begin? || a.Otherwise? || a.Close?) :: a.group in Groups(p)
    decreases p
  {
    match p
    case Nil =>
    case Cons(s, rest) =>
      FlattenGroups(rest);
      match s
      case If(_, _, _, thn, _, els) =>
        FlattenGroups(thn);
        FlattenGroups(els);
      case _ =>
  }

  /** Seek passes over a stretch without markers of its group. */
  lemma SeekSkips(acts: seq<Action>, i: nat, j: nat, g: Label, elseToo: bool)
    requires i <= j <= |acts|
    requires forall k | i <= k < j :: acts[k] != Close(g) && acts[k] != Otherwise(g)
    ensures Seek(acts, i, g, elseToo) == Seek(acts, j, g, elseToo)
    decreases j - i
  {
    if i < j {
      SeekSkips(acts, i + 1, j, g, elseToo);
    }
  }

  /** Code occurs in a list at a position. */
  predicate At(acts: seq<Action>, pc: nat, code: seq<Action>) {
    pc + |code| <= |acts| && acts[pc..pc + |code|] == code
  }

  lemma AtParts(acts: seq<Action>, pc: nat, a: seq<Action>, b: seq<Action>)
    requires At(acts, pc, a + b)
    ensures At(acts, pc, a) && At(acts, pc + |a|, b)
  {
    assert acts[pc..pc + |a|] == (a + b)[..|a|];
    assert acts[pc + |a|..pc + |a| + |b|] == (a + b)[|a|..];
  }

  lemma SeekOver(acts: seq<Action>, pc: nat, p: Prog, g: Label, elseToo: bool)
    requires At(acts, pc, Flatten(p)) && g !in Groups(p)
    ensures Seek(acts, pc, g, elseToo) == Seek(acts, pc + |Flatten(p)|, g, elseToo)
  {
    FlattenGroups(p);
    forall k | pc <= k < pc + |Flatten(p)|
      ensures acts[k] != Close(g) && acts[k] != Otherwise(g)
    {
      assert acts[k] == acts[pc..pc + |Flatten(p)|][k - pc];
      assert acts[k] in Flatten(p);
    }
    SeekSkips(acts, pc, pc + |Flatten(p)|, g, elseToo);
  }

  /** Wherever the code of p stands, the host runs it as the nested program does, then
      goes on after it. */
  lemma {:induction false} FlatRuns(env: Env, acts: seq<Action>, pc: nat, p: Prog, st: St)
    requires At(acts, pc, Flatten(p)) && Nests(p)
    ensures RunFlat(env, acts, pc, st) == RunFlat(env, acts, pc + |Flatten(p)|, Run(env, p, st))
    decreases p, 1
  {
    match p
    case Nil =>
    case Cons(s, rest) =>
      AtParts(acts, pc, FlattenStmt(s), Flatten(rest));
      if !st.stopped {
        FlatRunsStmt(env, acts, pc, s, st);
        FlatRuns(env, acts, pc + |FlattenStmt(s)|, rest, RunStmt(env, s, st));
      }
  }

  lemma {:induction false} FlatRunsStmt(env: Env, acts: seq<Action>, pc: nat, s: Stmt, st: St)
    requires At(acts, pc, FlattenStmt(s)) && NestsStmt(s) && !st.stopped
    ensures RunFlat(env, acts, pc, st) == RunFlat(env, acts, pc + |FlattenStmt(s)|, RunStmt(env, s, st))
    decreases s, 1
  {
    match s
    case Act(_, _) =>
      assert acts[pc] == acts[pc..pc + 1][0];
    case Stop(_) =>
      assert acts[pc] == acts[pc..pc + 1][0];
    case If(g, subject, cond, thn, hasElse, els) =>
      IfLayout(acts, pc, s);
      FlatRunsIf(env, acts, pc, pc + |FlattenStmt(s)| - 1, s, st);
  }

  lemma {:induction false} FlatRunsIf(env: Env, acts: seq<Action>, pc: nat, close: nat, s: Stmt, st: St)
    requires s.If? && !st.stopped && Layout(acts, pc, close, s)
    requires s.group !in Groups(s.thn) && Nests(s.thn) && (s.hasElse ==> s.group !in Groups(s.els) && Nests(s.els))
    ensures var done := Inner(env, s, st);
            RunFlat(env, acts, pc, st)
                == RunFlat(env, acts, close + 1, if done.stopped then done else Leave(done, s.group))
    decreases s, 0
  {
    var mid := pc + 1 + |Flatten(s.thn)|;
    SeekOver(acts, pc + 1, s.thn, s.group, true);
    BeginGoes(env, acts, pc, mid, s.group, st);
    if Holds(env, st, s.subject, s.cond) {
      FlatTaken(env, acts, pc, mid, s, st);
    } else if s.hasElse {
      FlatRuns(env, acts, mid + 1, s.els, Enter(st, s.subject));
    }
    ClosesGroup(env, acts, close, s.group, Inner(env, s, st));
  }

  /** The state in which a conditional's group is left. */
  function Inner(env: Env, s: Stmt, st: St): St
    requires s.If?
  {
    if Holds(env, st, s.subject, s.cond) then Run(env, s.thn, Enter(st, s.subject))
    else if s.hasElse then Run(env, s.els, Enter(st, s.subject))
    else Enter(st, s.subject)
  }

  lemma {:induction false} FlatTaken(env: Env, acts: seq<Action>, pc: nat, mid: nat, s: Stmt, st: St)
    requires s.If? && Nests(s.thn) && Holds(env, st, s.subject, s.cond)
    requires At(acts, pc + 1, Flatten(s.thn)) && mid == pc + 1 + |Flatten(s.thn)|
    requires s.hasElse ==>
      && mid < |acts| && acts[mid] == Otherwise(s.group) && At(acts, mid + 1, Flatten(s.els))
          && s.group !in Groups(s.els)
      && mid + 1 + |Flatten(s.els)| < |acts| && acts[mid + 1 + |Flatten(s.els)|] == Close(s.group)
    ensures RunFlat(env, acts, pc + 1, Enter(st, s.subject))
         == RunFlat(env, acts, if s.hasElse then mid + 1 + |Flatten(s.els)| else mid, Inner(env, s, st))
    decreases s, -1
  {
    FlatRuns(env, acts, pc + 1, s.thn, Enter(st, s.subject));
    if s.hasElse {
      ElseReachesClose(env, acts, mid, s.group, s.els, Inner(env, s, st));
    }
  }

  /** From a begin marker the host enters the first branch, or goes to the next marker of
      the group: after it if it is an else marker. */
  lemma BeginGoes(env: Env, acts: seq<Action>, pc: nat, mid: nat, g: Label, st: St)
    requires pc < mid < |acts| && acts[pc].Begin? && acts[pc].group == g && !st.stopped
    requires Seek(acts, pc + 1, g, true) == Seek(acts, mid, g, true)
    requires acts[mid] == Close(g) || acts[mid] == Otherwise(g)
    ensures var inner := Enter(st, acts[pc].subject);
            RunFlat(env, acts, pc, st) ==
            if Holds(env, st, acts[pc].subject, acts[pc].cond) then RunFlat(env, acts, pc + 1, inner)
            else if acts[mid].Otherwise? then RunFlat(env, acts, mid + 1, inner)
            else RunFlat(env, acts, mid, inner)
  {
    assert Seek(acts, mid, g, true) == mid;
  }

  /** From an else marker the host comes to the closing marker. */
  lemma ElseReachesClose(env: Env, acts: seq<Action>, mid: nat, g: Label, els: Prog, st: St)
    requires mid < |acts| && acts[mid] == Otherwise(g) && At(acts, mid + 1, Flatten(els)) && g !in Groups(els)
    requires mid + 1 + |Flatten(els)| < |acts| && acts[mid + 1 + |Flatten(els)|] == Close(g)
    ensures RunFlat(env, acts, mid, st) == RunFlat(env, acts, mid + 1 + |Flatten(els)|, st)
  {
    SeekOver(acts, mid + 1, els, g, false);
    var close := mid + 1 + |Flatten(els)|;
    assert Seek(acts, close, g, false) == close;
  }

  lemma ClosesGroup(env: Env, acts: seq<Action>, close: nat, g: Label, st: St)
    requires close < |acts| && acts[close] == Close(g)
    ensures RunFlat(env, acts, close, st) == RunFlat(env, acts, close + 1, if st.stopped then st else Leave(st, g))
  {
  }

  /** Where the pieces of a conditional stand. */
  predicate Layout(acts: seq<Action>, pc: nat, close: nat, s: Stmt)
    requires s.If?
  {
    var mid := pc + 1 + |Flatten(s.thn)|;
    && mid <= close < |acts| && acts[close] == Close(s.group)
    && acts[pc] == Begin(s.group, s.subject, s.cond)
    && At(acts, pc + 1, Flatten(s.thn))
    && (if s.hasElse
        then close == mid + 1 + |Flatten(s.els)| && acts[mid] == Otherwise(s.group) && At(acts, mid + 1, Flatten(s.els))
        else close == mid)
  }

  lemma AtOne(acts: seq<Action>, pc: nat, x: Action)
    requires At(acts, pc, [x])
    ensures acts[pc] == x
  {
    assert acts[pc] == acts[pc..pc + 1][0];
  }

  lemma AtElse(acts: seq<Action>, mid: nat, g: Label, els: seq<Action>)
    requires At(acts, mid, [Otherwise(g)] + els)
    ensures acts[mid] == Otherwise(g) && At(acts, mid + 1, els)
  {
    AtParts(acts, mid, [Otherwise(g)], els);
    AtOne(acts, mid, Otherwise(g));
  }

  lemma AtFour(acts: seq<Action>, pc: nat, b: Action, t: seq<Action>, e: seq<Action>, c: Action)
    requires At(acts, pc, [b] + t + e + [c])
    ensures acts[pc] == b && At(acts, pc + 1, t) && At(acts, pc + 1 + |t|, e)
    ensures pc + 1 + |t| + |e| < |acts| && acts[pc + 1 + |t| + |e|] == c
  {
    AtParts(acts, pc, [b] + t + e, [c]);
    AtParts(acts, pc, [b] + t, e);
    AtParts(acts, pc, [b], t);
    AtOne(acts, pc, b);
    AtOne(acts, pc + 1 + |t| + |e|, c);
  }

  /** The code of a conditional's second branch, with its marker. */
  function ElseCode(s: Stmt): seq<Action>
    requires s.If?
  {
    if s.hasElse then [Otherwise(s.group)] + Flatten(s.els) else []
  }

  lemma IfCode(s: Stmt)
    requires s.If?
    ensures FlattenStmt(s) == [Begin(s.group, s.subject, s.cond)] + Flatten(s.thn) + ElseCode(s) + [Close(s.group)]
  {
  }

  lemma IfLayout(acts: seq<Action>, pc: nat, s: Stmt)
    requires s.If? && At(acts, pc, FlattenStmt(s))
    ensures Layout(acts, pc, pc + |FlattenStmt(s)| - 1, s)
  {
    IfCode(s);
    AtFour(acts, pc, Begin(s.group, s.subject, s.cond), Flatten(s.thn), ElseCode(s), Close(s.group));
    if s.hasElse {
      AtElse(acts, pc + 1 + |Flatten(s.thn)|, s.group, Flatten(s.els));
    }
  }

  /** Flattening preserves meaning, for every nested program. */
  lemma FlatteningPreservesMeaning(env: Env, p: Prog, st: St)
    requires Nests(p)
    ensures RunFlat(env, Flatten(p), 0, st) == Run(env, p, st)
  {
    FlatRuns(env, Flatten(p), 0, p, st);
  }

  // ----- exactly when every jump lands on its own marker -----

  /** From the begin marker of each conditional of p, whose code stands at pc, the host finds
      the conditional's own next marker; and from its else marker its own closing one. */
  predicate JumpsHome(acts: seq<Action>, pc: nat, p: Prog)
    requires pc + |Flatten(p)| <= |acts|
    decreases p
  {
    match p
    case Nil => true
    case Cons(s, rest) => JumpsHomeStmt(acts, pc, s) && JumpsHome(acts, pc + |FlattenStmt(s)|, rest)
  }

  predicate JumpsHomeStmt(acts: seq<Action>, pc: nat, s: Stmt)
    requires pc + |FlattenStmt(s)| <= |acts|
    decreases s
  {
    match s
    case If(g, _, _, thn, hasElse, els) =>
      var mid := pc + 1 + |Flatten(thn)|;
      && Seek(acts, pc + 1, g, true) == mid && JumpsHome(acts, pc + 1, thn)
      && (hasElse ==>
            Seek(acts, mid + 1, g, false) == mid + 1 + |Flatten(els)| && JumpsHome(acts, mid + 1, els))
    case _ => true
  }

  lemma {:induction false} GroupCloses(p: Prog, g: Label)
    requires g in Groups(p)
    ensures Close(g) in Flatten(p)
    decreases p
  {
    match p
    case Cons(s, rest) =>
      if g in Groups(rest) {
        GroupCloses(rest, g);
      } else {
        assert s.If?;
        if g in Groups(s.thn) {
          GroupCloses(s.thn, g);
        } else if g != s.group {
          GroupCloses(s.els, g);
        }
        assert Close(g) in FlattenStmt(s);
      }
  }

  /** Seek goes no further than a marker it looks for. */
  lemma SeekFinds(acts: seq<Action>, i: nat, k: nat, g: Label, elseToo: bool)
    requires i <= k < |acts| && (acts[k] == Close(g) || (elseToo && acts[k] == Otherwise(g)))
    ensures Seek(acts, i, g, elseToo) <= k
    decreases k - i
  {
    if i < k {
      SeekFinds(acts, i + 1, k, g, elseToo);
    }
  }

  /** The host passes over the code of p, looking for a marker of g, if and only if p does
      not open g. */
  lemma PassesExactly(acts: seq<Action>, pc: nat, p: Prog, g: Label, elseToo: bool)
    requires At(acts, pc, Flatten(p))
    ensures Seek(acts, pc, g, elseToo) >= pc + |Flatten(p)| <==> g !in Groups(p)
  {
    if g in Groups(p) {
      GroupCloses(p, g);
      var k :| 0 <= k < |Flatten(p)| && Flatten(p)[k] == Close(g);
      assert acts[pc + k] == acts[pc..pc + |Flatten(p)|][k];
      SeekFinds(acts, pc, pc + k, g, elseToo);
    } else {
      SeekOver(acts, pc, p, g, elseToo);
    }
  }

  lemma {:induction false} JumpsHomeAt(acts: seq<Action>, pc: nat, p: Prog)
    requires At(acts, pc, Flatten(p))
    ensures JumpsHome(acts, pc, p) <==> Nests(p)
    decreases p
  {
    match p
    case Nil =>
    case Cons(s, rest) =>
      AtParts(acts, pc, FlattenStmt(s), Flatten(rest));
      JumpsHomeAt(acts, pc + |FlattenStmt(s)|, rest);
      if s.If? {
        JumpsHomeIf(acts, pc, s);
      }
  }

  lemma {:induction false} JumpsHomeIf(acts: seq<Action>, pc: nat, s: Stmt)
    requires s.If? && At(acts, pc, FlattenStmt(s))
    ensures JumpsHomeStmt(acts, pc, s) <==> NestsStmt(s)
    decreases s
  {
    IfLayout(acts, pc, s);
    var mid := pc + 1 + |Flatten(s.thn)|;
    PassesExactly(acts, pc + 1, s.thn, s.group, true);
    SeekFinds(acts, pc + 1, mid, s.group, true);
    JumpsHomeAt(acts, pc + 1, s.thn);
    if s.hasElse {
      PassesExactly(acts, mid + 1, s.els, s.group, false);
      SeekFinds(acts, mid + 1, mid + 1 + |Flatten(s.els)|, s.group, false);
      JumpsHomeAt(acts, mid + 1, s.els);
    }
  }

  /** In the flat list of a program every jump lands on its own group's marker if and only if
      no group is opened again inside itself. */
  lemma JumpsHomeExactly(p: Prog)
    ensures JumpsHome(Flatten(p), 0, p) <==> Nests(p)
  {
    JumpsHomeAt(Flatten(p), 0, p);
  }

  /** A jump to the wrong marker can still be harmless: here there is nothing between the
      two. So the condition is exact for the jumps, and for the meaning only sufficient. */
  lemma ReusedGroupCanBeHarmless(env: Env, st: St)
    ensures var g := Word(Pair);
            var inner := Cons(If(g, ShareInput, HasValue, Nil, false, Nil), Nil);
            var p := Cons(If(g, ShareInput, HasValue, inner, false, Nil), Nil);
            !Nests(p) && RunFlat(env, Flatten(p), 0, st) == Run(env, p, st)
  {
    var g := Word(Pair);
    var inner := If(g, ShareInput, HasValue, Nil, false, Nil);
    var outer := If(g, ShareInput, HasValue, Cons(inner, Nil), false, Nil);
    var p := Cons(outer, Nil);
    var b, c := Begin(g, ShareInput, HasValue), Close(g);
    assert Flatten(Cons(inner, Nil)) == [b, c];
    var acts := [b, b, c, c];
    assert Flatten(p) == acts;
    if !st.stopped {
      HarmlessRuns(env, acts, g, st);
      var entered := Enter(st, ShareInput);
      assert RunStmt(env, inner, entered) == Leave(Enter(entered, ShareInput), g);
      assert Run(env, Cons(inner, Nil), entered) == Leave(Enter(entered, ShareInput), g);
      assert Run(env, p, st) == RunStmt(env, outer, st);
    }
  }

  lemma HarmlessRuns(env: Env, acts: seq<Action>, g: Label, st: St)
    requires !st.stopped && acts == [Begin(g, ShareInput, HasValue), Begin(g, ShareInput, HasValue), Close(g), Close(g)]
    ensures RunFlat(env, acts, 0, st) ==
            if env.share.Has? then Leave(Leave(Enter(Enter(st, ShareInput), ShareInput), g), g)
            else Leave(Leave(Enter(st, ShareInput), g), g)
  {
    var one := Enter(st, ShareInput);
    var two := Enter(one, ShareInput);
    assert Seek(acts, 2, g, true) == 2;
    assert Seek(acts, 1, g, true) == 2;
    assert RunFlat(env, acts, 4, Leave(Leave(two, g), g)) == Leave(Leave(two, g), g);
    assert RunFlat(env, acts, 4, Leave(Leave(one, g), g)) == Leave(Leave(one, g), g);
    assert RunFlat(env, acts, 3, Leave(two, g)) == Leave(Leave(two, g), g);
    assert RunFlat(env, acts, 3, Leave(one, g)) == Leave(Leave(one, g), g);
    assert RunFlat(env, acts, 2, two) == Leave(Leave(two, g), g);
    assert RunFlat(env, acts, 2, one) == Leave(Leave(one, g), g);
  }

  /** The condition is needed: with a group opened again inside itself, the host skips to
      the wrong marker. Here it never runs the else branch. */
  lemma ReusedGroupBreaks(env: Env)
    requires env.share.Missing?
    ensures var g := Word(Pair);
            var inner := Cons(If(g, ShareInput, HasValue, Nil, false, Nil), Nil);
            var p := Cons(If(g, ShareInput, HasValue, inner, true, Cons(Stop(Word(About)), Nil)), Nil);
            !Nests(p) && Run(env, p, Start).stopped && !RunFlat(env, Flatten(p), 0, Start).stopped
  {
    var g := Word(Pair);
    var inner := Cons(If(g, ShareInput, HasValue, Nil, false, Nil), Nil);
    var els := Cons(Stop(Word(About)), Nil);
    var p := Cons(If(g, ShareInput, HasValue, inner, true, els), Nil);
    assert Flatten(inner) == [Begin(g, ShareInput, HasValue), Close(g)];
    assert Flatten(els) == [Exit(Word(About))];
    var acts :=
        [Begin(g, ShareInput, HasValue), Begin(g, ShareInput, HasValue), Close(g), Otherwise(g), Exit(Word(About)),
         Close(g)];
    assert Flatten(p) == acts;
    assert Run(env, els, Enter(Start, ShareInput)).stopped;
    assert RunStmt(env, p.head, Start).stopped;
    assert Seek(acts, 1, g, true) == 2;
    assert Seek(acts, 4, g, false) == 5;
    var s1 := Leave(Enter(Start, ShareInput), g);
    assert RunFlat(env, acts, 6, Leave(s1, g)) == Leave(s1, g);
    assert RunFlat(env, acts, 3, s1) == RunFlat(env, acts, 5, s1);
  }

  // ----- the groups are well bracketed -----

  /** A checker that knows nothing of programs: `open` holds the open groups, innermost
      last, each with whether its else marker has been seen. */
  predicate Bracketed(acts: seq<Action>, open: seq<(Label, bool)>)
    decreases |acts|
  {
    if acts == [] then open == []
    else
      match acts[0]
      case Begin(g, _, _) => Bracketed(acts[1..], open + [(g, false)])
      case Otherwise(g) =>
        open != [] && open[|open| - 1] == (g, false) && Bracketed(acts[1..], open[..|open| - 1] + [(g, true)])
      case Close(g) => open != [] && open[|open| - 1].0 == g && Bracketed(acts[1..], open[..|open| - 1])
      case _ => Bracketed(acts[1..], open)
  }

  /** The code of any program opens and closes its own groups only. */
  lemma {:induction false} FlattenBracketed(p: Prog, rest: seq<Action>, open: seq<(Label, bool)>)
    ensures Bracketed(Flatten(p) + rest, open) <==> Bracketed(rest, open)
    decreases p
  {
    match p
    case Nil =>
      assert Flatten(p) + rest == rest;
    case Cons(s, more) =>
      assert Flatten(p) + rest == FlattenStmt(s) + (Flatten(more) + rest);
      FlattenBracketed(more, rest, open);
      StmtBracketed(s, Flatten(more) + rest, open);
  }

  lemma {:induction false} StmtBracketed(s: Stmt, tail: seq<Action>, open: seq<(Label, bool)>)
    ensures Bracketed(FlattenStmt(s) + tail, open) <==> Bracketed(tail, open)
    decreases s
  {
    match s
    case Act(id, op) =>
      assert ([Do(id, op)] + tail)[1..] == tail;
    case Stop(id) =>
      assert ([Exit(id)] + tail)[1..] == tail;
    case If(g, subject, cond, thn, _, els) =>
      FlattenBracketed(thn, AfterThen(s) + tail, open + [(g, false)]);
      FlattenBracketed(els, [Close(g)] + tail, open + [(g, true)]);
      AfterThenBracketed(s, tail, open);
      var body := Flatten(thn) + (AfterThen(s) + tail);
      BeginBracket(Begin(g, subject, cond), body, open);
      IfSplits(s, tail);
  }

  lemma IfSplits(s: Stmt, tail: seq<Action>)
    requires s.If?
    ensures FlattenStmt(s) + tail == [Begin(s.group, s.subject, s.cond)] + (Flatten(s.thn) + (AfterThen(s) + tail))
  {
  }

  /** The code of a conditional after its first branch. */
  function AfterThen(s: Stmt): seq<Action>
    requires s.If?
  {
    (if s.hasElse then [Otherwise(s.group)] + Flatten(s.els) else []) + [Close(s.group)]
  }

  lemma CloseBracket(g: Label, seen: bool, tail: seq<Action>, open: seq<(Label, bool)>)
    ensures Bracketed([Close(g)] + tail, open + [(g, seen)]) <==> Bracketed(tail, open)
  {
    assert ([Close(g)] + tail)[1..] == tail;
    assert (open + [(g, seen)])[..|open|] == open;
  }

  lemma ElseBracket(g: Label, tail: seq<Action>, open: seq<(Label, bool)>)
    ensures Bracketed([Otherwise(g)] + tail, open + [(g, false)]) <==> Bracketed(tail, open + [(g, true)])
  {
    assert ([Otherwise(g)] + tail)[1..] == tail;
    assert (open + [(g, false)])[..|open|] == open;
  }

  lemma BeginBracket(first: Action, tail: seq<Action>, open: seq<(Label, bool)>)
    requires first.Begin?
    ensures Bracketed([first] + tail, open) <==> Bracketed(tail, open + [(first.group, false)])
  {
    assert ([first] + tail)[1..] == tail;
  }

  lemma AfterThenBracketed(s: Stmt, tail: seq<Action>, open: seq<(Label, bool)>)
    requires s.If?
    requires Bracketed(Flatten(s.els) + ([Close(s.group)] + tail), open + [(s.group, true)])
        <==> Bracketed([Close(s.group)] + tail, open + [(s.group, true)])
    ensures Bracketed(AfterThen(s) + tail, open + [(s.group, false)]) <==> Bracketed(tail, open)
  {
    var g := s.group;
    if s.hasElse {
      var other := Flatten(s.els) + ([Close(g)] + tail);
      assert AfterThen(s) + tail == [Otherwise(g)] + other;
      ElseBracket(g, other, open);
      CloseBracket(g, true, tail, open);
    } else {
      assert AfterThen(s) + tail == [Close(g)] + tail;
      CloseBracket(g, false, tail, open);
    }
  }

  lemma GroupsAreBracketed(p: Prog)
    ensures Bracketed(Flatten(p), [])
  {
    FlattenBracketed(p, [], []);
    assert Flatten(p) + [] == Flatten(p);
  }

  // ----- references are to actions already run -----

  /** The identifiers a statement has certainly given an output when it is passed. */
  function Defines(s: Stmt): set<Label> {
    match s
    case Act(id, _) => {id}
    case If(g, _, _, _, _, _) => {ResultId(g)}
    case Stop(_) => {}
  }

  /** Nothing outside a group refers to an action inside it, only to its result. */
  predicate Scoped(p: Prog, ran: set<Label>) {
    match p
    case Nil => true
    case Cons(s, rest) => ScopedStmt(s, ran) && Scoped(rest, ran + Defines(s))
  }

  predicate ScopedStmt(s: Stmt, ran: set<Label>) {
    match s
    case Act(_, op) => RefsIn(op, ran)
    case Stop(_) => true
    case If(_, subject, _, thn, hasElse, els) =>
      RefIn(subject, ran) && Scoped(thn, ran) && (hasElse ==> Scoped(els, ran))
  }

  lemma RefsMonotone(op: Op, ran: set<Label>, more: set<Label>)
    requires RefsIn(op, ran) && ran <= more
    ensures RefsIn(op, more)
  {
  }

  /** On every run of a scoped program, every reference is to an action already executed on
      that run. */
  lemma {:induction false} ScopedNeverDangles(env: Env, p: Prog, ran: set<Label>, st: St)
    requires Scoped(p, ran) && ran <= st.out.Keys && !st.dangling
    ensures var done := Run(env, p, st);
            !done.dangling && st.out.Keys <= done.out.Keys
    decreases p
  {
    match p
    case Nil =>
    case Cons(s, rest) =>
      if !st.stopped {
        var mid := RunStmt(env, s, st);
        match s {
          case Act(id, op) => RefsMonotone(op, ran, st.out.Keys);
          case Stop(_) =>
          case If(_, subject, cond, thn, hasElse, els) =>
            var inner := Enter(st, subject);
            if Holds(env, st, subject, cond) {
              ScopedNeverDangles(env, thn, ran, inner);
            } else if hasElse {
              ScopedNeverDangles(env, els, ran, inner);
            }
        }
        if mid.stopped {
          assert Run(env, rest, mid) == mid;
        } else {
          ScopedNeverDangles(env, rest, ran + Defines(s), mid);
        }
      }
  }

  // ----- identifiers are distinct -----

  function IdOf(a: Action): Label {
    match a
    case Do(id, _) => id
    case Exit(id) => id
    case Begin(g, _, _) => g
    case Otherwise(g) => Sub(g, Else)
    case Close(g) => ResultId(g)
  }

  function Ids(acts: seq<Action>): seq<Label> {
    seq(|acts|, i requires 0 <= i < |acts| => IdOf(acts[i]))
  }

  ghost predicate NoDup<T(!new)>(s: seq<T>) {
    forall i, j | 0 <= i < j < |s| :: s[i] != s[j]
  }

  /** The labels a program is written with, one for each action and each group. */
  function Labels(p: Prog): seq<Label> {
    match p
    case Nil => []
    case Cons(s, rest) => LabelsOf(s) + Labels(rest)
  }

  function LabelsOf(s: Stmt): seq<Label> {
    match s
    case Act(id, _) => [id]
    case Stop(id) => [id]
    case If(g, _, _, thn, hasElse, els) => [g] + Labels(thn) + if hasElse then Labels(els) else []
  }

  /** Not one of the labels the builder makes up for else and end markers. */
  predicate Plain(l: Label) {
    l.Sub? ==> l.part != Else && l.part != End
  }

  /** The label an identifier belongs to. */
  function Owner(id: Label): Label {
    if id.Sub? && (id.part == Else || id.part == End) then id.parent else id
  }

  lemma NoDupConcat<T(!new)>(a: seq<T>, b: seq<T>)
    requires NoDup(a) && NoDup(b) && (forall x | x in a :: x !in b)
    ensures NoDup(a + b)
  {
    forall i, j | 0 <= i < j < |a + b|
      ensures (a + b)[i] != (a + b)[j]
    {
      if i < |a| <= j {
        assert a[i] in a && b[j - |a|] in b;
      }
    }
  }

  lemma NoDupParts<T(!new)>(a: seq<T>, b: seq<T>)
    requires NoDup(a + b)
    ensures NoDup(a) && NoDup(b) && (forall x | x in a :: x !in b)
  {
    forall i, j | 0 <= i < j < |a|
      ensures a[i] != a[j]
    {
      assert (a + b)[i] != (a + b)[j];
    }
    forall i, j | 0 <= i < j < |b|
      ensures b[i] != b[j]
    {
      assert (a + b)[|a| + i] != (a + b)[|a| + j];
    }
    forall x | x in a
      ensures x !in b
    {
      var i :| 0 <= i < |a| && a[i] == x;
      forall j | 0 <= j < |b|
        ensures b[j] != x
      {
        assert (a + b)[i] != (a + b)[|a| + j];
      }
    }
  }

  lemma IdsConcat(a: seq<Action>, b: seq<Action>)
    ensures Ids(a + b) == Ids(a) + Ids(b)
  {
  }

  /** Identifiers are distinct whose code belongs to disjoint sets of labels. */
  lemma JoinIds(a: seq<Action>, la: seq<Label>, b: seq<Action>, lb: seq<Label>)
    requires NoDup(Ids(a)) && NoDup(Ids(b)) && (forall x | x in la :: x !in lb)
    requires (forall id | id in Ids(a) :: Owner(id) in la) && (forall id | id in Ids(b) :: Owner(id) in lb)
    ensures NoDup(Ids(a + b)) && forall id | id in Ids(a + b) :: Owner(id) in la + lb
  {
    IdsConcat(a, b);
    NoDupConcat(Ids(a), Ids(b));
  }

  /** Action identifiers are distinct when the labels are. */
  lemma {:induction false} DistinctLabelsDistinctIds(p: Prog)
    requires NoDup(Labels(p)) && forall l | l in Labels(p) :: Plain(l)
    ensures NoDup(Ids(Flatten(p))) && forall id | id in Ids(Flatten(p)) :: Owner(id) in Labels(p)
    decreases p
  {
    match p
    case Nil =>
    case Cons(s, rest) =>
      NoDupParts(LabelsOf(s), Labels(rest));
      DistinctLabelsDistinctIds(rest);
      DistinctIdsStmt(s);
      JoinIds(FlattenStmt(s), LabelsOf(s), Flatten(rest), Labels(rest));
  }

  lemma {:induction false} DistinctIdsStmt(s: Stmt)
    requires NoDup(LabelsOf(s)) && forall l | l in LabelsOf(s) :: Plain(l)
    ensures NoDup(Ids(FlattenStmt(s))) && forall id | id in Ids(FlattenStmt(s)) :: Owner(id) in LabelsOf(s)
    decreases s
  {
    match s
    case Act(id, op) =>
      assert id in LabelsOf(s);
      assert Ids(FlattenStmt(s)) == [id];
    case Stop(id) =>
      assert id in LabelsOf(s);
      assert Ids(FlattenStmt(s)) == [id];
    case If(g, subject, cond, thn, hasElse, els) =>
      var lt := Labels(thn);
      var le := if hasElse then Labels(els) else [];
      assert LabelsOf(s) == [g] + (lt + le);
      assert g in LabelsOf(s);
      NoDupParts([g], lt + le);
      NoDupParts(lt, le);
      DistinctLabelsDistinctIds(thn);
      var t := Flatten(thn);
      var e := if hasElse then Flatten(els) else [];
      if hasElse {
        DistinctLabelsDistinctIds(els);
      }
      JoinIds(t, lt, e, le);
      // The three markers of the group belong to its own label, which owns nothing inside.
      MarkersJoin(s, t, e, lt + le);
  }

  lemma MarkersOutside(ids: seq<Label>, g: Label, inside: seq<Label>)
    requires Plain(g) && g !in inside && forall id | id in ids :: Owner(id) in inside
    ensures g !in ids && Sub(g, Else) !in ids && ResultId(g) !in ids
  {
    assert Owner(g) == g && Owner(Sub(g, Else)) == g && Owner(ResultId(g)) == g;
  }

  /** New first and last elements, and one in the middle, keep a sequence without duplicates so. */
  lemma NoDupFrame(x: Label, a: seq<Label>, m: seq<Label>, b: seq<Label>, z: Label)
    requires NoDup(a + b) && x !in a + b && z !in a + b && x != z && |m| <= 1
    requires forall y | y in m :: y !in a + b && y != x && y != z
    ensures NoDup([x] + a + m + b + [z])
  {
    NoDupParts(a, b);
    assert forall y | y in a :: y in a + b;
    assert forall y | y in b :: y in a + b;
    NoDupConcat([x], a);
    NoDupConcat([x] + a, m);
    NoDupConcat([x] + a + m, b);
    NoDupConcat([x] + a + m + b, [z]);
  }

  lemma FlattenIfIds(s: Stmt)
    requires s.If?
    ensures Ids(FlattenStmt(s)) ==
            [s.group] + Ids(Flatten(s.thn)) + (if s.hasElse then [Sub(s.group, Else)] else [])
            + Ids(if s.hasElse then Flatten(s.els) else []) + [ResultId(s.group)]
  {
    var b, c := [Begin(s.group, s.subject, s.cond)], [Close(s.group)];
    var t, x := Flatten(s.thn), ElseCode(s);
    IfCode(s);
    IdsConcat(b + t + x, c);
    IdsConcat(b + t, x);
    IdsConcat(b, t);
    ElseIds(s);
    assert Ids(b) == [s.group] && Ids(c) == [ResultId(s.group)];
    var m, e := if s.hasElse then [Sub(s.group, Else)] else [], Ids(if s.hasElse then Flatten(s.els) else []);
    assert Ids(b) + Ids(t) + (m + e) == Ids(b) + Ids(t) + m + e;
  }

  lemma ElseIds(s: Stmt)
    requires s.If?
    ensures Ids(ElseCode(s)) ==
            (if s.hasElse then [Sub(s.group, Else)] else []) + Ids(if s.hasElse then Flatten(s.els) else [])
  {
    if s.hasElse {
      IdsConcat([Otherwise(s.group)], Flatten(s.els));
      assert Ids([Otherwise(s.group)]) == [Sub(s.group, Else)];
    }
  }

  lemma MarkersJoin(s: Stmt, t: seq<Action>, e: seq<Action>, inside: seq<Label>)
    requires s.If? && Plain(s.group) && s.group !in inside
    requires t == Flatten(s.thn) && e == (if s.hasElse then Flatten(s.els) else [])
    requires NoDup(Ids(t + e)) && forall id | id in Ids(t + e) :: Owner(id) in inside
    ensures NoDup(Ids(FlattenStmt(s))) && forall id | id in Ids(FlattenStmt(s)) :: Owner(id) in [s.group] + inside
  {
    var m := if s.hasElse then [Sub(s.group, Else)] else [];
    FlattenIfIds(s);
    IdsConcat(t, e);
    MarkersOutside(Ids(t + e), s.group, inside);
    NoDupFrame(s.group, Ids(t), m, Ids(e), ResultId(s.group));
  }

  lemma {:induction false} GroupsAreLabels(p: Prog)
    ensures forall g | g in Groups(p) :: g in Labels(p)
    decreases p
  {
    match p
    case Nil =>
    case Cons(s, rest) =>
      GroupsAreLabels(rest);
      if s.If? {
        GroupsAreLabels(s.thn);
        GroupsAreLabels(s.els);
        assert forall g | g in GroupsOf(s) :: g in LabelsOf(s);
      }
      assert Labels(p) == LabelsOf(s) + Labels(rest);
  }

  /** Distinct labels are enough for flattening to preserve meaning. */
  lemma {:induction false} DistinctLabelsNest(p: Prog)
    requires NoDup(Labels(p))
    ensures Nests(p)
    decreases p
  {
    match p
    case Nil =>
    case Cons(s, rest) =>
      NoDupParts(LabelsOf(s), Labels(rest));
      DistinctLabelsNest(rest);
      if s.If? {
        var le := if s.hasElse then Labels(s.els) else [];
        assert LabelsOf(s) == [s.group] + (Labels(s.thn) + le);
        NoDupParts([s.group], Labels(s.thn) + le);
        NoDupParts(Labels(s.thn), le);
        assert s.group in [s.group];
        GroupsAreLabels(s.thn);
        DistinctLabelsNest(s.thn);
        if s.hasElse {
          GroupsAreLabels(s.els);
          DistinctLabelsNest(s.els);
        }
      }
  }
}
