# TailBlink: a verified model

TailBlink is a desktop clipboard agent. A phone reaches it through Tailscale or through a temporary
Cloudflare tunnel (the "simple connection"), with two pairs of iOS shortcuts that a small Python
builder compiles. This project models its hardest parts in Dafny and proves what they are for.
`dafny verify dfyconfig.toml` checks everything.

## What is modelled

**The simple connection** (`service.dfy`, `protocol.dfy`, `session_theorems.dfy`, `session_answers.dfy`,
`limiter.dfy`). `Service.SimpleService` is the source's object, one method per critical section under its state
lock `mu`; each method states its whole new state over the fields and equates it with a function of the old
ones. `Protocol` interleaves these critical sections: a `Start` with its six, any number of watchers of ended
tunnels, `Close`, `Revoke`, `NewPairing`, `SetActive`, and any number of requests whose bodies are read outside
the lock between a first check and a last one. An independent monitor (`Protocol.After`, `Allows`) knows only
the visible events; the inductive invariant says that the fields always equal its verdict. The theorems then
speak of positions in the event history: "the latest redemption, with nothing that ends it since". In these
terms `SessionAnswers` says who gets past the first check, when a ticket is handed out, what every request is
answered and what that adds to the events.

**The agent** (`agent.dfy`) runs that service, the stored mode and the QR it shows, with a save that may
fail at every point and the service's own threads running between any two of its steps. `ConnectionAgent`
is the same code as an object with nothing beside it; its whole-call functions are proved to be the runs of
the relation in which nothing comes between (`agent_runs.dfy`).

**The shortcut compiler** (`workflow.dfy`, `builder.dfy`). Nested programs and the flat list with group
markers each have a semantics. Every jump in the flat list lands on its own group's marker if and only if
no group is opened again inside itself, and then the two semantics agree. A jump to the wrong marker may be
harmless or not; there is an example of each.

**The four shortcuts** (`shortcut_rules.dfy`, `tailscale_shortcuts.dfy`, `simple_shortcuts.dfy`,
`run_logs.dfy`, `tailscale_runs.dfy`, `simple_runs.dfy`, `shortcut_theorems.dfy`, `shortcut_steps.dfy`).
`ShortcutRules.Permitted` says what each effect is entitled to, given those before it: a request only to the
checked base with checked version and credential, at most one of each
kind; the file overwritten only after a pairing request was answered ok, with the checked base and the
new token; the clipboard cleared only straight after the saved file was read back; received text only from
an ok transfer; nothing posted but what the user shared or else copied, and that neither empty nor looking
like a credential. Every run of the flat lists keeps to this, for every clipboard, share input, saved file
and server reply; "the configuration" is not left open but is the text the source would choose
(`ShortcutRules.ConfigText`). And every run is fixed from its first effect to its last: its log is one function
of the host and the server (`RunLogs.RunLog`), which knows nothing of labels, groups or outputs. So nothing holds
because a run stopped early. `ShortcutSteps` says the same case by case, from the host's answers alone.

**The bounded algorithms**: the sliding-buffer search for the tunnel's address (`url_search.dfy`), the
clipboard transaction with its capped back-off and nested cleanups, and its serialisation
(`native_session.dfy`, `native_order.dfy`), the rotating log under every combination of failing file operations
(`rotating_log.dfy`).

**The text path** (`unicode.dfy`, `json_text.dfy`, `text_path.dfy`, `rich_text.dfy`): UTF-8 and UTF-16 as Go
converts them, the body of a POST in every spelling and its reader, which reads exactly these spellings, the
clipboard block with its terminator and whatever follows it, the two API handlers, the JSON size bound, and the
builder's token placement by UTF-16 offset. `end_to_end.dfy` puts the shortcuts at one end of it and the
clipboard at the other: what one phone sends is what another one pulls.

## What is assumed

- Generated tokens never repeat and are not empty; comparison is equality. Clock readings within one run of
  the service do not decrease.
- A tunnel may end at any time, which covers the agent's own closing of it. Health verification succeeds,
  fails, or the tunnel ends.
- The shortcut host: begin, else and end markers are matched by group identifier; condition 100 is "has a
  value", 101 "has none", 4 "is true"; an end marker's output is that of the last action run in the branch
  taken; exit stops the run; a match outputs its text or nothing. Clipboard, file and replies may depend on
  everything that happened before. Pattern matching, dictionary parsing and field access are arbitrary
  functions.
- Identifiers made from distinct labels are distinct (`uuid5`).

## What the proofs found

- A jump of the flat list lands on its own group's marker exactly if no group is opened again inside itself
  (`Workflow.JumpsHomeExactly`). A wrong jump can change what the program does (`Workflow.ReusedGroupBreaks`) or
  be harmless (`Workflow.ReusedGroupCanBeHarmless`). The four shortcuts use every label once.
- The Tailscale pull can set an empty text on the phone (`ShortcutTheorems.EmptyTextCanArrive`): its check asks
  whether there is a value. It does so exactly when the reply to its transfer has a text and that is empty
  (`ShortcutTheorems.EmptyReceivedExactly`), which the agent's own server never sends
  (`EndToEnd.NothingEmptyArrives`).
- The address search never loses an address of at most 4097 characters, however the output is cut into chunks,
  and every longer one is lost by some cut (`UrlSearch.NeverLostExactly`). The whole-stream match is sent if it
  starts in what has not been dropped, and otherwise only one that starts later can be
  (`UrlSearch.FirstHitSentExactlyIfKept`).
- After one failed rotation the log writer keeps a closed descriptor in its field and takes nothing more, whatever
  the later file operations do (`RotatingLog.FailedRotationIsFinal`). What is on disk stays a contiguous suffix.
- The JSON bound is exact: 4085 bytes of extra whitespace fit, 4086 do not (`TextPath.BoundIsExact`).
- The guard `s.runtime == rt` in the failure branch of `Start` is always true (`SessionTheorems.StartOwnsItsSession`).
- The Tailscale gate is checked before its request is served, so exclusivity is a statement about the two gates
  at one moment (`Agent.NeverBothAdmit`), not about requests already let in.

## Model

| member | source | states |
|---|---|---|
| `Limiter.AtMostTwice` | internal/api/server.go:346-359 | over any history with a clock that does not run backwards, any half-open interval one window long holds at most twice the limit of admitted calls |
| `Limiter.WindowAdmitsExactly` | internal/api/server.go:346-359 | the calls that share a window: exactly min(limit, arrivals) are admitted |
| `Limiter.AdmittedExactly` | internal/api/server.go:346-359 | a call is admitted if and only if fewer calls than the limit came before it in its window, the windows being cut by the clock readings alone |
| `Limiter.RateLimiter.constructor` | internal/api/server.go:342-344 | starts with an empty history and an unused window |
| `Limiter.RateLimiter.Allow` | internal/api/server.go:346-359 | reopens the window exactly if there was none or a whole one has passed, admits exactly below the limit, counts what it admits; and its answer is the admission of this call in the whole history, which it extends by one |
| `Service.ValidHostExactly` | internal/simple/service.go:201-216 | the hosts accepted are exactly those of a label of 1 to 63 small letters, digits and hyphens, none at an end, before the one suffix |
| `Service.CheckHost` | internal/simple/service.go:201-216 | the loop over the label decides exactly that |
| `Service.SimpleService.constructor` | internal/simple/service.go:61-63 | every guarded field starts blank |
| `Service.SimpleService.SetCredential` | internal/simple/service.go:64-67 | the inner API is rebuilt for the very token that becomes the credential |
| `Service.SimpleService.SetActive` | internal/simple/service.go:73 | changes `active` and nothing else |
| `Service.SimpleService.NewPairing` | internal/simple/service.go:81-94 | a ticket exactly if ready, with a runtime and a token supply; it is the new one, for five minutes from now, at the open host; otherwise nothing changes; the paired token is left alone |
| `Service.SimpleService.Paired` | internal/simple/service.go:74 | ready and paired |
| `Service.SimpleService.Pending` | internal/simple/service.go:76-80 | ready, with a ticket whose expiry is still to come |
| `Service.SimpleService.Revoke` | internal/simple/service.go:95-107 | a new non-empty credential, no pairing, no ticket; unchanged if no token can be had |
| `Service.SimpleService.Clear` | internal/simple/service.go:108-116 | the secrets and the session go; `active`, the attempt counter, the runtime and the inner API stay |
| `Service.SimpleService.StartBegin` | internal/simple/service.go:120-132 | a live session is kept as it is; otherwise everything is cleared and the previous runtime handed out |
| `Service.SimpleService.StartIssue` | internal/simple/service.go:150-153 | session and credential are set before the tunnel exists |
| `Service.SimpleService.StartAttach` | internal/simple/service.go:172-175 | host and runtime are set, nothing else |
| `Service.SimpleService.StartUnverified` | internal/simple/service.go:177-186 | clears only if the runtime is still its own |
| `Service.SimpleService.StartReady` | internal/simple/service.go:187-189 | sets ready and nothing else |
| `Service.SimpleService.Start` | internal/simple/service.go:117-200 | with nothing interleaved: a live session is kept; otherwise it succeeds exactly if there are secrets and the host is verified, and then the session is the new one; after a failure nothing is left of it but the inner API |
| `Service.SimpleService.Watch` | internal/simple/service.go:190-198 | clears only the session of its own runtime |
| `Service.SimpleService.Close` | internal/simple/service.go:247-259 | runtime, active and every secret go; the runtime is handed out for closing |
| `Service.SimpleService.IsAuthorized` | internal/simple/service.go:289-293 | paired, with a credential, and exactly one Authorization header, which is that of the credential |
| `Service.SimpleService.CountLocked` | internal/simple/service.go:375-379 | a new window exactly if there was none or a minute has passed, and one attempt more in it |
| `Service.SimpleService.PairLocked` | internal/simple/service.go:370-413 | counts the attempt first; then more than 30, the body, the version, the ticket, its expiry and the token supply in that order, each with its answer; only a success changes anything else, and then exactly credential, inner API, pairing and ticket |
| `Service.SimpleService.ServeBuffered` | internal/simple/service.go:328-369 | the whole table of answers over the fields themselves, in the source's order of checks; only a pairing attempt changes anything |
| `Service.SimpleService.AdmitBody` | internal/simple/service.go:299-306 | the first check: a body is read exactly if the service is on, ready and asked for under its host, for a pairing or with the credential; otherwise 401 |
| `Service.SimpleService.ServeHTTP` | internal/simple/service.go:294-328 | a whole request with nothing beside it: 401 by the first check, 413 if the body does not arrive, and otherwise the last critical section; the first two change nothing |
| `Protocol.StepKeepsFields` | internal/simple/service.go:64-259 | every critical section keeps: paired implies ready, ticket implies ready, ready implies runtime, host, session and credential, credential implies an inner API for it; and the running Start owns what it builds |
| `Protocol.OutcomeMatchesMonitor` | internal/simple/service.go:328-413 | one request does only what the event monitor allows, and the fields then equal the monitor's new verdict |
| `Protocol.StepMatchesMonitor` | internal/simple/service.go:64-413 | the same for every step of the protocol |
| `Protocol.StepKeepsSecrets` | internal/simple/service.go:81-107 | over every step: no ticket is offered twice, none redeemed twice, no token handed out twice |
| `Protocol.StepKeepsLimiter` | internal/simple/service.go:375-383 | the attempt counter is the fixed-window limiter over all attempts of the whole run, across clears and restarts |
| `Protocol.OutcomeCounts` | internal/simple/service.go:375-383 | a request counts as one attempt exactly when it reaches the pairing handler, and the counter past the limit equals the limiter stopped at it |
| `Protocol.ReachableInv` | internal/simple/service.go:42-56 | all of these hold in every reachable state |
| `SessionTheorems.JudgeMeans` | internal/simple/service.go:64-259 | the monitor's verdict is the positional one: the latest redemption, offer, opening and switch that nothing has ended since (if and only if) |
| `SessionTheorems.ForwardedExactly` | internal/simple/service.go:328-369 | a request reaches the clipboard API if and only if, at its last critical section, its token is that of the latest redemption with nothing that ends it since, the service is switched on, the host matches, and no foreign header is present; and the inner API accepts that token |
| `SessionTheorems.EveryReachedDeserved` | internal/simple/service.go:294-369 | every request that ever reached the clipboard API deserved it at its own moment, however slowly its body was read (who gets as far as that is `SessionAnswers.LetInExactly`) |
| `SessionTheorems.EndedTokenStaysDead` | internal/simple/service.go:95-116 | a token that a revoke, close, restart, failed start, tunnel exit or newer pairing ended is never accepted again, in any session |
| `SessionTheorems.NewTicketKeepsToken` | internal/simple/service.go:81-94 | issuing a new ticket ends no token |
| `SessionTheorems.RedeemedExactly` | internal/simple/service.go:370-413 | a pairing request succeeds if and only if it carries the ticket on offer before its expiry, within the limit of 30 a minute, to the open host of a switched-on service, and a token can be had |
| `SessionTheorems.RedeemedOnce` | internal/simple/service.go:399-411 | over a whole run no ticket is redeemed twice and no token issued twice, for any number of concurrent requests |
| `SessionTheorems.RedeemedInTime` | internal/simple/service.go:399-402 | every redemption was of a ticket then on offer, strictly before its expiry |
| `SessionTheorems.EndedTicketStaysDead` | internal/simple/service.go:81-116 | a ticket superseded, spent, revoked or cleared is never redeemed afterwards, in any session |
| `SessionTheorems.SetupPageExactly` | internal/simple/page.go:34-50 | for every request: a setup page is shown if and only if it is a GET under the very ticket on offer, before its expiry, at the open host of a switched-on service; and it is the page of that ticket and host |
| `SessionTheorems.FieldsInEveryState` | internal/simple/service.go:42-116 | the implications among the fields, in every reachable state |
| `SessionTheorems.StartOwnsItsSession` | internal/simple/service.go:117-189 | while a Start waits, no other step touches its runtime, session or host, or sets ready; its final write completes its own session with a valid host |
| `SessionTheorems.HealthNamesTheSession` | internal/simple/service.go:336-343 | the health report is given exactly to the host being verified, with the session its Start is building, or to the open host with its session; nobody else gets one |
| `SessionTheorems.OnlyItsOwnEndEndsASession` | internal/simple/service.go:117-259 | a live session ends only by Close or after its own tunnel's exit, and then every secret is gone; any other step leaves its identity alone |
| `SessionTheorems.ExitIsNoticed` | internal/simple/service.go:190-198 | a live session whose tunnel ended still has its watcher, and that watcher's step leaves no secret |
| `SessionTheorems.AttemptsBounded` | internal/simple/service.go:375-383 | in any minute of the whole run at most 60 attempts come through to the ticket check |
| `SessionTheorems.WindowTakesTheFirst` | internal/simple/service.go:375-383 | of the attempts of the whole run that share a window exactly the first 30 come through to the ticket check |
| `SessionAnswers.OfferedExactly` | internal/simple/service.go:81-94 | in every reachable state: asking for a pairing adds to the events exactly an offer of the new ticket until five minutes on, if and only if some session is open and a ticket can be had |
| `SessionAnswers.PendingExactly` | internal/simple/service.go:76-80 | a pairing is pending if and only if some ticket is on offer before its expiry |
| `SessionAnswers.LetInExactly` | internal/simple/service.go:299-306 | in every reachable state: a clipboard post gets in if and only if it deserves that by the events so far, a pairing request if and only if the service is switched on and open under its host, any other request always; nothing else changes |
| `SessionAnswers.AnsweredOnce` | internal/simple/service.go:311-319 | an answered request is gone, the others stay |
| `SessionAnswers.AnsweredExactly` | internal/simple/service.go:329-413 | in every reachable state the answer to every request, of any path and method, is a function of the events: who is open, switched on, on offer, granted, and how many attempts the minute has seen |
| `SessionAnswers.RecordedExactly` | internal/simple/service.go:370-413 | and so is what it adds to the events: an attempt exactly if it comes as far as the pairing handler, then the redemption with its ticket, token and time, or the request let through |
| `SessionAnswers.ExitEndsTheSession` | internal/simple/service.go:190-198 | when the tunnel of a live session ends its watcher may step, and then exactly the secrets and the session are gone and the loss is an event |
| `Agent.MoveKeeps` | internal/agent/agent.go:268-330 | every step of a switch, a save that fails included, and every step beside it keeps the two-object invariant |
| `Agent.AgentRunsTheService` | internal/agent/agent.go:268-330 | the service under the agent makes only runs of the service, so every theorem above holds of it |
| `Agent.NeverBothAdmit` | internal/agent/agent.go:85-111 | active implies the stored mode "simple"; so while the Tailscale gate is open the simple entry answers nothing but refusals and its health report |
| `Agent.FailedSwitchRestores` | internal/agent/agent.go:272-290 | from the first step of a switch to Tailscale that fails, at the status, the preparation or the save, to the release of the lock, whatever runs beside it: the mode, the shown pairing and (unless rotated meanwhile) the pairing token are those it found; the simple entry is as it was, or after a failed save active if and only if there is one and the mode is "simple" |
| `Agent.ShownQrIsLive` | internal/agent/agent.go:248-266 | a shown pairing equals the service's own host, ticket and expiry, the service is active, and redeeming it in time and under the limit succeeds |
| `Agent.LiveTicketIsShown` | internal/agent/agent.go:262-264 | conversely, with the mode lock free a redeemable ticket is always the one shown |
| `AgentRuns.SimplifiedIsARun` | internal/agent/agent.go:295-318 | the whole-call function of "simple" and "pair" is, for every answer of the world, a run of the relation in which nothing comes between |
| `AgentRuns.TailscaledIsARun` | internal/agent/agent.go:272-294 | and so is that of "tailscale" |
| `AgentRuns.RevokedIsARun` | internal/agent/agent.go:319-325 | "revoke", uninterrupted: new credential, no pairing, no ticket, no QR; nothing at all changes if no token can be had; without a service only the QR goes |
| `AgentRuns.ShutdownIsARun` | internal/agent/agent.go:130-136 | the end of the agent clears the service and leaves the stored mode |
| `Agent.PairingOfferedExactly` | internal/agent/agent.go:311-318 | a ticket is due exactly if it is asked for, or there is neither a pairing nor a ticket that still stands; the step succeeds exactly if none is due or one can be had; the QR becomes the new ticket's, else stays |
| `Agent.SimplifiedExactly` | internal/agent/agent.go:295-318 | "simple" and "pair" as a whole: which start, save and supply make it succeed, on which session the pairing is offered, and what is left otherwise |
| `Agent.Store.SetMode` | internal/config/config.go:63-75 | the mode in memory changes exactly if the save succeeds |
| `Agent.ConnectionAgent.constructor` | internal/agent/agent.go:75-81 | no service, no pairing shown |
| `Agent.ConnectionAgent.SwitchToTailscale` | internal/agent/agent.go:272-294 | the whole new state for every way status, preparation and save can go; success exactly if all three succeed, and then the service is cleared; a failure leaves mode, token and shown pairing, and after a failed save the entry is active exactly if the mode is "simple" |
| `Agent.ConnectionAgent.StartService` | internal/agent/agent.go:298-304 | the service exists with the fields and the result of a start from its old fields, or from blank ones; ready exactly if it succeeded |
| `Agent.ConnectionAgent.OfferPairing` | internal/agent/agent.go:311-318 | succeeds exactly if no new pairing is needed or one can be had; needed if asked for, or with neither a pairing nor a standing ticket; then ticket, expiry and QR are the new ones, otherwise unchanged |
| `Agent.ConnectionAgent.SwitchToSimple` | internal/agent/agent.go:295-318 | the whole new state for every way the start, the save and the offer can go; on success mode "simple", active, ready, paired or pending; on a failed save everything closed |
| `Agent.ConnectionAgent.RevokeAll` | internal/agent/agent.go:319-325 | the shown pairing goes exactly if the credential could be replaced |
| `Workflow.FlatteningPreservesMeaning` | shortcuts/build.py:78-94 | for every nested program without reopened groups, running the flat list by group markers equals running the program, effects and outputs alike |
| `Workflow.JumpsHomeExactly` | shortcuts/build.py:78-94 | for every nested program: every begin and else marker of the flat list leads the host to the next marker of its own group if and only if no group is opened again inside itself |
| `Workflow.PassesExactly` | shortcuts/build.py:78-89 | the host, looking for a marker of a group, passes over the code of a program if and only if the program does not open that group |
| `Workflow.ReusedGroupBreaks` | shortcuts/build.py:78-89 | a group opened again inside itself: the two differ |
| `Workflow.ReusedGroupCanBeHarmless` | shortcuts/build.py:78-89 | another one where they do not |
| `Workflow.GroupsAreBracketed` | shortcuts/build.py:78-89 | every flat list is well bracketed, by a checker that knows only markers |
| `Workflow.ScopedNeverDangles` | shortcuts/build.py:56-76 | if nothing outside a group refers to an action inside it, every reference on every run is to an action already executed |
| `Workflow.DistinctLabelsDistinctIds` | shortcuts/build.py:53-66 | action identifiers are distinct when the labels are |
| `Workflow.DistinctLabelsNest` | shortcuts/build.py:78-89 | distinct labels are enough for flattening to preserve meaning |
| `Builder.ActionList.constructor` | shortcuts/build.py:49-51 | an empty list |
| `Builder.ActionList.Add` | shortcuts/build.py:56-66 | appends one action |
| `Builder.ActionList.Emit` | shortcuts/build.py:78-94 | appends exactly the flat form of a program |
| `Builder.ActionList.StopHere` | shortcuts/build.py:91-94 | appends the flat form of a notice and an exit |
| `Builder.ActionList.RequireMatch` | shortcuts/build.py:96-100 | appends the flat form of match, group 101, stop |
| `Builder.ActionList.RequestPlain` | shortcuts/build.py:102-127 | appends the flat form of a request with its boolean group and error branches |
| `Builder.ActionList.RequestPairing` | shortcuts/build_simple.py:19-25 | finds the emitted download by its identifier and patches it in place: the result is the flat form of a pairing request without authorization and with version and ticket |
| `ShortcutRules.StopIfRuns` | shortcuts/build.py:78-94 | a stopping group leaves one notice and a stopped run, or the state as it was but for its own result |
| `ShortcutRules.RequireRuns` | shortcuts/build.py:96-100 | after require the value matches, or the run has stopped with one notice |
| `ShortcutRules.RequestRuns` | shortcuts/build.py:102-127 | a request has exactly one HTTP effect with the spelled address, method, authorization and body, and goes on exactly if the reply's ok is true; otherwise it stops with one notice, the server's own message if it sent one |
| `TailscaleShortcuts.TailscaleRunsAreSafe` | shortcuts/build.py:130-210 | every run of the two Tailscale programs: each effect permitted, given those before it and the configuration text chosen (pairing data in the clipboard, else the saved file); all that follows a good transfer; a notice at the end; no dangling reference |
| `SimpleShortcuts.SimpleRunsAreSafe` | shortcuts/build_simple.py:28-98 | the same for the two simple programs, where pairing data may also be shared |
| `ShortcutTheorems.ListsAreWellFormed` | shortcuts/build.py:53-210 | in each of the four lists identifiers are distinct and groups well bracketed and never reopened |
| `ShortcutTheorems.EveryRunIsSafe` | shortcuts/build_simple.py:28-107 | every run of each of the four flat lists, for every environment: no request before version, base and credential are checked, overwriting and clearing only after the replies and the read-back that allow it, only the user's own text posted, received text only from an ok reply; after a transfer that was answered well exactly the effects that should follow; always a notice at the end; and every reference is to an executed action |
| `ShortcutTheorems.EveryRunExactly` | shortcuts/build_simple.py:28-98 | the log of every run of each of the four flat lists, from first effect to last, is what one function says: where the configuration comes from, every check before any request, the pairing request with what is saved, read back and cleared after it, then for a pull or an unpaired send the transfer and what is made of its answer |
| `ShortcutSteps.UnfitStops` | shortcuts/build_simple.py:40-54 | a run whose configuration fails one of the checks, which are listed, asks nobody anything: it says so and stops |
| `ShortcutSteps.PairingRefused` | shortcuts/build.py:102-127 | with fit pairing data the pairing request is made, with that ticket or token; if it is not granted nothing is saved, the reason is told and the run stops |
| `ShortcutSteps.PairingSaved` | shortcuts/build_simple.py:28-98 | if it is granted the new configuration is saved and read back; a file that is missing or has not the new token is reported; otherwise the pairing data goes from the clipboard it came from, and a send stops |
| `ShortcutSteps.PairedPullTransfers` | shortcuts/build_simple.py:28-98 | a pull goes on to its transfer with the new token |
| `ShortcutSteps.SavedRunTransfers` | shortcuts/build_simple.py:28-98 | without pairing data a run transfers with the saved token; a send posts what the user gave unless it is empty or a credential; what is made of each reply |
| `ShortcutTheorems.DeliveredExactly` | shortcuts/build.py:194-206 | a run reports delivery if and only if a transfer of it was answered well and, for a pull, with a text that it takes |
| `ShortcutTheorems.ReceivedExactly` | shortcuts/build.py:200-206 | after its transfer was answered well a pull sets a text on the phone if and only if it is the reply's and is one that it takes; a send sets none |
| `ShortcutTheorems.EmptyReceivedExactly` | shortcuts/build.py:200-206 | the Tailscale pull sets an empty received text if and only if the reply to its transfer has a text and that is empty |
| `ShortcutTheorems.EmptyTextCanArrive` | shortcuts/build.py:200-206 | there is a run of the shipped list in which it does |
| `ShortcutTheorems.EveryRunAsksOnce` | shortcuts/build.py:166-206 | a run makes at most one pairing request and one transfer, in that order, to the checked base of its configuration, and no other request; a send never makes both |
| `UrlSearch.LabelIsWords` | internal/tunnel/process.go:106 | what passes the character check is words joined by single hyphens, as the pattern writes it |
| `UrlSearch.WordsAreLabel` | internal/tunnel/process.go:106 | and conversely |
| `UrlSearch.FindStringFinds` | internal/tunnel/process.go:122 | the search returns the leftmost match, and "" exactly if there is none |
| `UrlSearch.StepExactly` | internal/tunnel/process.go:117-132 | one call: sends exactly if the text kept and the chunk together have a match, and then the leftmost, and keeps nothing; otherwise keeps all, or the last 4096 if more than 8192; after a send nothing changes |
| `UrlSearch.BufferIsTail` | internal/tunnel/process.go:120-130 | after every call the buffer is at most 8192 long and, while nothing is sent, the end of the stream: all of it or at least 4096 |
| `UrlSearch.CallSendsLeftmostKept` | internal/tunnel/process.go:117-132 | for all inputs: a call sends the leftmost of the matches that start in what was not dropped, and nothing if there is none |
| `UrlSearch.SearchRefines` | internal/tunnel/process.go:117-132 | if the address looked for is not longer than 4097, what is sent is the leftmost match of the shortest chunk-aligned prefix that has one (if and only if), and nothing is sent exactly if no prefix has one |
| `UrlSearch.FirstHitSentExactlyIfKept` | internal/tunnel/process.go:120-130 | without any bound: the whole-stream match is the one sent if it starts in what was kept; otherwise only one that starts later can be |
| `UrlSearch.SentIsGenuine` | internal/tunnel/process.go:122-124 | for all inputs: whatever is sent is an address the stream contained |
| `UrlSearch.ShortIsSent` | internal/tunnel/process.go:117-132 | however the output is cut, an address of at most 4097 characters is sent if it is the one looked for |
| `UrlSearch.LongUrlIsLost` | internal/tunnel/process.go:127-129 | every longer address is lost by some cut: it is the one looked for, and nothing is sent |
| `UrlSearch.NeverLostExactly` | internal/tunnel/process.go:117-132 | the addresses that are sent however the output is cut are exactly those of at most 4097 characters |
| `UrlSearch.UrlOutput.constructor` | internal/tunnel/process.go:108-113 | empty buffer, nothing sent |
| `UrlSearch.UrlOutput.Write` | internal/tunnel/process.go:117-132 | does that to its own fields, and follows the search over its whole history; at most one send, on a channel that then has room |
| `NativeSession.NothingLeaks` | internal/clipboard/native_session.go:22-42 | in a whole transaction each owner created is destroyed exactly once, every successful open is closed exactly once, and before any destroy |
| `NativeSession.CleanupErrorKeepsCause` | internal/clipboard/native_session.go:44-50 | a deferred cleanup does to the outcome what `sessionCleanupError` does, and the result is what the cleanup's error is if there is one, else what the operation's is |
| `NativeSession.CleanupNeverMasked` | internal/clipboard/native_session.go:44-50 | if a cleanup failed, the reported error is what the last failed cleanup is, never the operation's "no text" or "busy" |
| `NativeSession.CleanRunsReportStage` | internal/clipboard/native_session.go:44-47 | cleanups that succeed report the answer of the last stage reached unchanged |
| `NativeSession.SuccessExactly` | internal/clipboard/native_session.go:22-50 | a transaction succeeds if and only if its operation succeeded and so did every cleanup |
| `NativeSession.RetryKeepsDeadline` | internal/clipboard/native_session.go:52-78 | in a retry no open follows a reading at or past the deadline, counted from the reading it started with, and no wait is asked past it; the first answer that is not busy ends it and is its answer; it ends as busy only after reading the deadline, as cancelled only if told |
| `NativeSession.BudgetClosed` | internal/clipboard/native_session.go:54-76 | the first four delays take 150 ms and every later one 160 ms |
| `NativeSession.OpensBounded` | internal/clipboard/native_session.go:52-78 | for a limit L over 150 ms at most 4 + ceil((L - 150 ms) / 160 ms) opens |
| `NativeSession.TenOpens` | internal/clipboard/native_session.go:11-78 | at most ten opens within the limit of one second |
| `NativeSession.TransactionOpens` | internal/clipboard/native_session.go:22-78 | so a whole transaction makes at most ten opens, whatever it meets |
| `NativeSession.Pause` | internal/clipboard/native_session.go:65-75 | after a busy open: the clock is read, and the events stay those of a retry; none but a full wait of the delay due, cut at the deadline, lets it go on |
| `NativeSession.Round` | internal/clipboard/native_session.go:55-75 | one turn of the loop: it may go on only before the deadline and only after a busy open and its wait; otherwise its answer is the one its events call for |
| `NativeSession.RetryOpenClipboard` | internal/clipboard/native_session.go:52-78 | whatever the clock, the context and the opens answer, the recorded calls are a whole retry, consistent with a clock that does not run backwards, and the answer is the one they call for; with the time left as termination measure |
| `NativeSession.WhileOpen` | internal/clipboard/native_session.go:38-42 | the operation unless cancelled, panics included, then Close exactly once; the answer is that of the stage reached, settled with the close |
| `NativeSession.WithOwner` | internal/clipboard/native_session.go:34-42 | whatever open, operation and close answer, the owner is destroyed exactly once at the end, after a retry within one second; the answer is the one the events call for |
| `NativeSession.Run` | internal/clipboard/native_session.go:22-42 | whatever the calls answer, the recorded calls are one whole transaction whose retry keeps the limit of one second, and the answer is the one they call for: that of the last stage reached, changed by the cleanups after it |
| `NativeOrder.StagesInOrder` | internal/clipboard/native_session.go:22-42 | every transaction, event by event: what must stand straight before the creation, the operation, the close, the destruction and the unlocking, so that no stage and no check is skipped |
| `NativeOrder.RetryInOrder` | internal/clipboard/native_session.go:52-78 | its retry, event by event: an open only after a check and a reading within the second; a wait only after a busy open and a reading, for 10, 20, 40, 80 and then always 160 ms, cut at the deadline |
| `NativeOrder.OutOfTime` | internal/clipboard/native_session.go:60-69 | it gives up after a reading of the clock only if that is at or past the deadline |
| `NativeOrder.CleanAnswerExactly` | internal/clipboard/native_session.go:22-50 | with clean cleanups the answer is cancelled after a check or a wait, busy after a reading, and else what the last call answered |
| `NativeOrder.PanicsExactly` | internal/clipboard/native_session.go:22-42 | a transaction panics if and only if one of its calls did |
| `NativeSession.TransactionsNeverOverlap` | internal/clipboard/clipboard.go:22-57 | over every interleaving of any number of clients, the event history is a concatenation of complete transactions and the holder's unfinished one |
| `RotatingLog.LogConserved` | internal/logging/logging.go:71-103 | however the file operations go, backup then current is a contiguous suffix of the initial backup, the initial file and everything written, cut at whole records |
| `RotatingLog.SizeIsLength` | internal/logging/logging.go:71-103 | while the file can be written the counter is its length |
| `RotatingLog.WriteFits` | internal/logging/logging.go:71-85 | after a successful write the file is within the cap or is exactly the one oversized record, ends with it, and the file's earlier contents are just before it |
| `RotatingLog.FilesAfterWrite` | internal/logging/logging.go:71-103 | for every history and every successful write, on the files: if there is room (the file is empty or the two are within the cap) the record is added and the backup is unchanged; otherwise the old file is the backup and the record alone the new one |
| `RotatingLog.WriteSucceedsExactly` | internal/logging/logging.go:71-103 | a write succeeds if and only if the descriptor is open, the file takes the record, and, only if there is no room, closing, renaming and opening go well |
| `RotatingLog.NothingFails` | internal/logging/logging.go:71-103 | if no file operation fails, no write ever does |
| `RotatingLog.WritesAgainExactly` | internal/logging/logging.go:71-114 | for any record: some later write of it can succeed if and only if the descriptor is open |
| `RotatingLog.FailedRotationIsFinal` | internal/logging/logging.go:87-103 | after a failed rotation both files stay as they are for good; some later write can succeed if and only if the rotation did |
| `RotatingLog.RotatingWriter.constructor` | internal/logging/logging.go:52-69 | opens the file it finds, or an empty one, and counts its length |
| `RotatingLog.RotatingWriter.RotateLocked` | internal/logging/logging.go:87-103 | succeeds exactly if closing, renaming what there is and opening go well; the files, the counter and the descriptor in every case |
| `RotatingLog.RotatingWriter.Write` | internal/logging/logging.go:71-85 | rotates exactly if the file is not empty and the record does not fit; the files, the counter and the bytes taken in every case |
| `RotatingLog.RotatingWriter.Close` | internal/logging/logging.go:105-114 | closes once, without error exactly if there was nothing to close or the descriptor was open and closes; the files stay |
| `Unicode.RunesOfEncode` | internal/clipboard/backend_windows.go:86-93 | encoding to UTF-8 and converting to runes gives the text back |
| `Unicode.EncodeOfRunes` | internal/clipboard/backend_windows.go:86-93 | every valid byte string is the encoding of its runes |
| `Unicode.DecodeOfEncode` | internal/clipboard/backend_windows.go:86-94 | UTF-16 encoding loses nothing, surrogate pairs included |
| `Unicode.LoneSurrogate` | internal/clipboard/backend_windows.go:86 | after any text a surrogate without its other half is read as U+FFFD and the next unit is read as if it were not there |
| `TextPath.BlockRoundTrip` | internal/clipboard/backend_windows.go:48-94 | valid text without NUL is read back identically from its block, whatever follows the terminator and however long the block is |
| `TextPath.ReadIsClean` | internal/clipboard/backend_windows.go:78-86 | whatever is in the clipboard, what is read is valid, not empty and without NUL |
| `TextPath.ReadBlockExactly` | internal/clipboard/backend_windows.go:70-86 | what is read is the units up to the first zero one, or to the end if there is none; no text exactly if that is nothing |
| `TextPath.WriteIsWhole` | internal/clipboard/backend_windows.go:89-126 | a write leaves the old contents, nothing, or the whole text; a success leaves the text |
| `TextPath.WindowsClipboard.constructor` | internal/clipboard/backend_windows.go:40-42 | starts with what the clipboard holds and no memory to free |
| `TextPath.WindowsClipboard.MoveMemory` | internal/clipboard/backend_windows.go:71-72 | copies the block's whole units |
| `TextPath.WindowsClipboard.ReadText` | internal/clipboard/backend_windows.go:48-87 | every branch: no format, failed calls, a size of zero or one, an empty text, the text up to the first zero unit |
| `TextPath.WindowsClipboard.Free` | internal/clipboard/backend_windows.go:101-105 | only memory still owned is freed |
| `TextPath.WindowsClipboard.WriteText` | internal/clipboard/backend_windows.go:89-126 | emptied exactly if nothing fails before that, then the whole text exactly if it can be set; no failure exactly if every step went well; the memory freed exactly if the system did not take it over |
| `TextPath.PostThenGet` | internal/api/server.go:177-258 | any text a POST accepts is returned by the next GET byte for byte, with no write between |
| `TextPath.StoredExactly` | internal/api/server.go:209-258 | a post is answered as stored with n bytes if and only if it is JSON, within the body bound, valid, its text not empty, without NUL and within 1 MiB, every step of the write goes well, and n is the length of the text |
| `TextPath.RefusedExactly` | internal/api/server.go:209-270 | when exactly each refusal is given, 415, 413, the two of 400, and the code of a failed write; a refused post leaves the clipboard alone |
| `TextPath.GetExactly` | internal/api/server.go:177-207 | a GET says "empty" exactly if its calls went well and there is no text; a failed read is refused with the code of its failure; otherwise the text, or 413 if it is too long |
| `TextPath.GetReturnsCleanText` | internal/api/server.go:191-207 | the GET handler's own validity check never fires on this clipboard, and what it returns is within the bound |
| `TextPath.Handlers.WriteClipboard` | internal/api/server.go:209-258 | the checks in the source's order with their answers; the clipboard is touched only after all of them |
| `TextPath.Handlers.ReadClipboard` | internal/api/server.go:177-207 | the answers for no text, failures, invalid text, oversized text and text |
| `TextPath.SixTimesAtMost` | internal/api/server.go:23-27 | however a client escapes it, a string takes at most six bytes for each of its UTF-8 bytes |
| `TextPath.NoFalseSizeRejection` | internal/simple/service.go:307-316 | every text of at most 1 MiB, escaped in any legal way and with at most 4085 bytes of extra whitespace, is within the inner and the outer body limit |
| `JsonText.ReadCharOfSpelled` | internal/api/server.go:227-232 | a character is read back from every way to spell it: surrogate pairs, digits of either case, and half a pair as U+FFFD |
| `JsonText.ReadBodyOfBody` | internal/api/server.go:227-232 | every spelling of a body, with any whitespace, is read back to the very text |
| `JsonText.ReadBodyExactly` | internal/api/server.go:222-232 | and conversely: from valid UTF-8 a text is read if and only if it is a spelling of that text, so nothing before, between or after is let through |
| `JsonText.BodyIsValid` | internal/api/server.go:222-226 | and is valid UTF-8 |
| `TextPath.NoSpellingRejected` | internal/api/server.go:209-247 | no spelling of a text that may be posted, with at most 4085 bytes of extra whitespace, is turned down, and that text is what is posted |
| `TextPath.GetPostGet` | internal/api/server.go:177-258 | what a GET returned, posted back in any legal spelling with at most 4085 bytes of extra whitespace and read as `JsonText.ReadText` reads it, is not turned down, and the GET after it returns the same text |
| `TextPath.BoundIsExact` | internal/api/server.go:23-27 | there is a text of exactly 1 MiB whose body fits if and only if there are at most 4085 bytes of extra whitespace |
| `RichText.RichSaysWhatWasMeant` | shortcuts/build.py:24-36 | read together, string and attachments give back what was placed; every attachment addresses one placeholder and every placeholder one attachment |
| `RichText.OffsetsIncrease` | shortcuts/build.py:24-31 | the recorded UTF-16 offsets strictly increase, so no token overwrites another |
| `RichText.PlacementReversible` | shortcuts/build.py:24-36 | splitting the string at the offsets gives the parts back with adjacent literals merged |
| `RichText.BuildRich` | shortcuts/build.py:24-36 | the loop computes exactly that string and those attachments |
| `EndToEnd.PullBringsTheText` | internal/api/server.go:177-207 | with the agent's own server, for whatever is in the desktop's clipboard: a pull that was answered well sets exactly the text that was read, which is not empty, and reports it; or there was none and it says so |
| `EndToEnd.NothingEmptyArrives` | internal/api/server.go:177-207 | so no run then sets an empty received text |
| `EndToEnd.SentThenPulled` | internal/api/server.go:177-258 | one phone's send is stored, another phone's pull (of either entry) then sets exactly what the first one's user gave |

## Left out

- Win32 calls, tray, job objects, registry, process spawning, listeners, TLS, DNS and server timeouts: represented by free outcomes only.
- The health polling of `verify`: succeeds, fails, or the tunnel ended.
- Random generation and constant-time comparison: a supply of unused tokens, and equality.
- HTML templates, QR images, security headers, the dashboard host, and the contents of pages and downloads.
- Identity headers, the Tailscale command line, installer, packaging, signing and branding.
- The API's own limiter inside the simple entry: rebuilt with every credential, modelled by itself and not composed with the protocol.
- JSON: of a POST to the clipboard only bodies with the one key written plainly are read in the model, and other bodies may be decoded or not; a pairing body yields a version and a ticket or nothing; the text field of a reply is the text put into it.
- Regular expressions of the shortcuts: arbitrary predicates; only the address pattern is spelled out.
- Texts of notices: known by kind, so the last loop of `build_simple`, which rewords one of them, does nothing here. The `tailscale=False` builds used in quality checks are not modelled.
- `Workflow.FlatteningPreservesMeaning`: leaves out programs that open a group again inside itself. For the jumps that condition is exact (`Workflow.JumpsHomeExactly`); for the meaning it is only sufficient, since a wrong jump over nothing changes nothing (`Workflow.ReusedGroupCanBeHarmless`).
- `Agent.ConnectionAgent.SwitchToSimple`: with nothing beside it; what other threads may do in between is in the relation over `Agent.Desktop`.
- `Service.SimpleService.Start`: the closing of servers and tunnels is not in its state; a tunnel's end is a step of its own.
- `Builder.ActionList.Emit`: emits from a nested program; the straight-line calls of the two `build` functions are written as those programs.
- `RotatingLog.RotatingWriter.constructor`: the errors of opening and inspecting the file, after which there is no writer.
- Liveness: that a watcher or a waiting Start is ever scheduled.
