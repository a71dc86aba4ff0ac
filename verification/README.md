# Claude Commander: protocol and codec model

A Dafny model of the parts of Claude Commander whose correctness depends on ordering, arithmetic or
exact formats, with proofs about every run or every input. Each module models one source component.

- `AgentStatus` — lifecycle hooks arriving at a tmux pane, late, duplicated or interleaved; each
  report is one guarded transaction over the pane's options. The transaction implements the simple
  reducer, and turns are counted exactly once.
- `SseCodec`, `SnapshotCodec`, `SseCursor` — the wire codec of the workspace snapshot: the building
  blocks, the records in wire order, and the serializer and deserializer on their cursors.
- `AttachProtocol`, `TerminalAttach` — the browser's attach lifecycle, recovery and socket machine.
- `WebPoller`, `RemotePoller`, `Backoff` — the page's single-flight poller, the remote client's poll
  loop, and its saturating backoff.
- `AttachPump` — the client's byte pump: handshake, event loop, one published end.
- `PaneText`, `ResumeCommand` — reading an agent's state off its pane, and rewriting its command.
- `ProjectTree` — the sidebar's in-place reconciliation.
- `LegacyEdit`, `SingleFlight`, `TokenProtocol` — the edit of an old server step by step, the table
  of weak per-key locks, and the bearer token between page, storage and late answers.

`Strings` and `Wrappers` are shared by these.

Code that updates state is modelled by classes and methods proved against specification functions;
the theorems are lemmas about those functions over all runs. `dafny verify dfyconfig.toml` checks
the project.

## Where the code and its intent part

Each of these is proved with its exact condition or with a concrete run.

- Turn counts (`AgentStatus`): the pane's count is unbounded text arithmetic while the reducer
  saturates at the u32 maximum, so the two agree exactly up to there. A prompt that reopens a turn
  finished earlier, with another finished in between, makes that turn count twice.
- Visibility (`TerminalAttach`): between a socket's closing handshake and its close event, becoming
  visible opens a socket on a lifecycle that has already seen its final frame
  (`web/src/terminal.ts:401-408`).
- Refused sockets (`TerminalAttach`): the close of a refused socket restarts the attach if the socket's
  token is no longer the current one, which is meant for a token replaced by the user; a 401 over HTTP
  in between clears the token (`web/src/api.ts:69-79`), and the attach restarts without any.
- Legacy edits (`LegacyEdit`): an error says that nothing was saved, but a write whose answer is lost
  has been done.
- Resume commands (`ResumeCommand`): leading whitespace in a Codex or Muse command puts the resume
  tokens in front of the binary.
- Claude panes (`PaneText`): with fewer than 10 non-blank lines, a menu above the pane is read as the
  pane's own, unless the pane itself asks for the user. A Muse pane without 8 such lines, or without
  its status slot, is likewise open to what stands above it.
- Escape sequences (`PaneText`): the pattern tries an OSC that ends in BEL first, so one that ends in
  ESC backslash takes all the text up to a later BEL with it (`crates/claude-commander-core/src/agent.rs:24-27`).
- Vector lengths (`SseCodec`): a length of 2^31 or more wraps; up to 2^32 - 1 items the vector comes
  back empty, and its bytes are read as what follows.
- Tokens (`TokenProtocol`): `persistAcceptedToken` saves the current token when any poll succeeds,
  also one that carried an older token; a typo submitted meanwhile replaces a working saved token,
  and its refusal then erases the saved copy without saying that the token was rejected.
- Tree keys (`ProjectTree`): the key of a project omits the observations that a session row shows
  (`web/src/tree.ts:120`), so a row keeps an old tooltip exactly while its project's key is unchanged
  and what the tooltip shows of its sessions is not.

## Model

| member | source | states |
|---|---|---|
| `AgentStatus.Simulation` | crates/claude-commander-core/src/agent_status.rs:83-124 | for every stream of deliveries to a pane just launched, the composed status equals the fold of the simple reducer over exactly the accepted reports (a reset clearing the outcome first) if and only if the turn count is at most the u32 maximum |
| `AgentStatus.EveryCountIsReached` | crates/claude-commander-core/src/agent_status.rs:83-124 | every count is reached by some run, and from the u32 maximum plus one on the two do differ |
| `AgentStatus.StatusInvariant` | crates/claude-commander-core/src/agent_status.rs:214-313 | in every reachable pane the composed status agrees with the scalar count, outcome and time options, and the fold is that status with its count capped |
| `AgentStatus.Fences` | crates/claude-commander-core/src/agent_status.rs:286-308 | what one more delivery can move in any reachable pane: time and count never go back, the count by at most one; the root session only from empty or by a reset to another; another generation, an older time or, outside a reset, another root changes nothing |
| `AgentStatus.ExactlyOnce` | crates/claude-commander-core/src/agent_status.rs:265-308 | if no accepted prompt goes back to an earlier finished turn, the count has risen since the last reset by the distinct turns finished plus the accepted finishes without a turn id, under any duplication, delay or interleaving |
| `AgentStatus.TurnAccounting` | crates/claude-commander-core/src/agent_status.rs:265-308 | with no condition at all, the same equation with the number of recounted finishes added |
| `AgentStatus.DoubleCountIffReopened` | crates/claude-commander-core/src/agent_status.rs:293-308 | in a reachable pane, some report that the guard accepts would count a turn again if and only if the current turn already finished and another finished after it |
| `AgentStatus.ReopenedOnlyByAPrompt` | crates/claude-commander-core/src/agent_status.rs:265-285 | a pane gets into that state exactly by an accepted prompt naming a turn that finished since the reset and is not the last one |
| `AgentStatus.ReopenedTurnCountsTwice` | crates/claude-commander-core/src/agent_status.rs:265-285 | a run in which two distinct turns are counted three times |
| `AgentStatus.ReportsAreWellFormed` | crates/claude-commander-core/src/agent_status.rs:33-197 | only a Working event is marked as a new turn, only a session start as a reset, no turn id is empty, and a payload from a subagent yields no report |
| `AgentStatus.ShownState` | crates/claude-commander-core/src/agent_status.rs:33-124 | after any run the pane shows nothing until a report is accepted, and then exactly the state that the hook name and fields of the last accepted delivery call for, each of the ten states from its own hooks |
| `AgentStatus.ShownOutcome` | crates/claude-commander-core/src/agent_status.rs:83-124 | the state is Idle, Failed, RateLimited or Interrupted exactly while the last accepted event finished a turn, and then it is the one that goes with the outcome |
| `AgentStatus.ReportedIff` | crates/claude-commander-core/src/agent_status.rs:129-205 | which deliveries become a report: from a pane id and a generation that parse, a bare event or a payload of the main agent that names its session and calls for some state |
| `AgentStatus.ReportSays` | crates/claude-commander-core/src/agent_status.rs:154-205 | what a report takes from its delivery: session, turn, time, new-turn mark, and a reset exactly for a session start whose source is clear, resume or compact |
| `AgentStatus.AcceptedIff` | crates/claude-commander-core/src/agent_status.rs:265-308 | a delivery is accepted after a run exactly when it reports and is not older than, unrelated to or out of order with the reports accepted before it, told from those reports |
| `AgentStatus.StartsComeFirst` | crates/claude-commander-core/src/agent_status.rs:286-308 | a session start that resets nothing is only ever the first report a pane accepts |
| `AgentStatus.ApplyHook` | crates/claude-commander-core/src/agent_status.rs:83-124 | the field-by-field update yields the reducer the simulation is about, saturating the count |
| `AgentStatus.ReducerFences` | crates/claude-commander-core/src/agent_status.rs:83-99 | the reducer starts over for another generation, and ignores an event older than the status it has |
| `AgentStatus.BuildGuard` | crates/claude-commander-core/src/agent_status.rs:286-308 | the guard grown step by step holds of a pane exactly when the report may touch it |
| `AgentStatus.BuildCommands` | crates/claude-commander-core/src/agent_status.rs:234-285 | the command list, run in order with the status template expanded last, turns any pane into the accepted pane option by option |
| `AgentStatus.TmuxPane.IfShell` | crates/claude-commander-core/src/agent_status.rs:286-313 | one transaction: all the commands or none |
| `AgentStatus.TmuxPane.Deliver` | crates/claude-commander-core/src/agent_status.rs:129-313 | a delivery changes the pane as the step of the runs above, and leaves any other pane alone |
| `SnapshotCodec.SnapshotRoundTrip` | client/rust/src/frb_generated.rs:4718-4749 | decoding an encoded snapshot followed by any bytes gives the snapshot with times truncated to microseconds and stops at the first trailing byte, if all strings and vectors have at most 2^31 - 1 elements and no time lies in a leap second at the very end of representable time; and it gives that snapshot only if so |
| `SnapshotCodec.SnapshotPrefixFree` | client/rust/src/frb_generated.rs:8211-8228 | two encodings followed by anything are equal as byte streams only if the snapshots agree up to microseconds and what follows is equal |
| `SnapshotCodec.SnapshotDtoCodec` | client/rust/src/frb_generated.rs:8211-8228 | the snapshot encoder only puts bytes in front of what follows, and its reader is exact |
| `SnapshotCodec.SessionInfoCodec` | client/rust/src/frb_generated.rs:8141-8180 | the 29 fields of a session come back in order, up to microseconds, exactly when every part of it fits |
| `SnapshotCodec.ApprovalSummaryCodec` | client/rust/src/frb_generated.rs:3156-3184 | an approval summary comes back up to microseconds, exactly when its optional vector of rules, its strings and its time fit |
| `SseCodec.VecCodec` | client/rust/src/frb_generated.rs:7341-7348 | for any element codec, a vector is read back exactly when its length is at most 2^31 - 1 and its elements are |
| `SseCodec.LongVecComesBackEmpty` | client/rust/src/frb_generated.rs:3814-3824 | a vector of 2^31 items or more, up to 2^32 - 1, comes back empty, with its items unread in front of what follows |
| `SseCodec.BytesCodec` | client/rust/src/frb_generated.rs:3814-3824 | a byte vector is read back if and only if it has at most 2^31 - 1 elements: a longer one has its length cast to 32 bits |
| `SseCodec.TextCodec` | client/rust/src/frb_generated.rs:2960-2966 | a UTF-8 string likewise |
| `SseCodec.Utf8IsScalars` | client/rust/src/frb_generated.rs:2960-2966 | the byte strings taken for text are exactly the concatenated encodings of Unicode scalar values, by the bit arithmetic of section 3 of RFC 3629 |
| `SseCodec.U32Bytes` | client/rust/src/frb_generated.rs:4786-4791 | four bytes, least significant first |
| `SseCodec.UuidCodec` | client/rust/src/frb_generated.rs:2968-2974 | a 16-byte id always |
| `SseCodec.OptionCodec` | client/rust/src/frb_generated.rs:4025-4034 | an option is read back exactly when its content is |
| `SseCodec.TimeCodec` | client/rust/src/frb_generated.rs:6729-6734 | a time is read back truncated to microseconds, a leap second folded onto the next second, if and only if that second is representable |
| `SseCodec.TruncatedOnce` | client/rust/src/frb_generated.rs:2913-2922 | the truncation loses less than a microsecond, and nothing a second time |
| `SseCodec.I32Codec` | client/rust/src/frb_generated.rs:3632-3637 | two's-complement bytes of a 32-bit integer |
| `SseCodec.I64Codec` | client/rust/src/frb_generated.rs:3639-3644 | and of a 64-bit one |
| `SseCursor.SseSerializer.EncodeVec` | client/rust/src/frb_generated.rs:7341-7348 | the loop appends the length cast to 32 bits and then the items in order |
| `SseCursor.SseSerializer.EncodeSnapshot` | client/rust/src/frb_generated.rs:8211-8228 | the ten writes append exactly the encoded snapshot |
| `SseCursor.SseDeserializer.DecodeVec` | client/rust/src/frb_generated.rs:3814-3824 | the counted loop reads as the vector reader does, a negative length as no items, and panics as it does |
| `SseCursor.SseDeserializer.DecodeSnapshot` | client/rust/src/frb_generated.rs:4718-4749 | the ten reads follow the snapshot reader, value, panic and cursor |
| `SseCursor.Transfer` | client/rust/src/frb_generated.rs:4718-4749 | a snapshot written by the serializer and read by the deserializer with other bytes after it arrives, exactly when it fits, and leaves those bytes unread |
| `AttachProtocol.ReconnectPacing` | web/src/ws.ts:112-158 | over n closes in a row none of which follows a stable attach, the k-th delay is min(1000 * 2^(k-1), 15000), and for n at least 4 they sum to 15000 * (n - 3) |
| `AttachProtocol.StableAttachResets` | web/src/ws.ts:150-158 | a close after a stable attach starts the pacing over |
| `AttachProtocol.SettledStaysSettled` | web/src/ws.ts:123-158 | after a final frame no close asks for a reconnect |
| `AttachProtocol.CloseIsAnswered` | web/src/ws.ts:112-158 | after any frames and closes, a close is answered by the verdict of the last final frame, and without one by a reconnect after 1000 * 2^k ms up to 15 seconds, k being the closes in a row since a stable attach |
| `AttachProtocol.AttachLifecycle.OnControl` | web/src/ws.ts:123-148 | the lifecycle fields after a frame |
| `AttachProtocol.AttachLifecycle.OnClose` | web/src/ws.ts:150-158 | the decision of a close and the fields after it |
| `AttachProtocol.AtMostOncePerGone` | web/src/ws.ts:195-234 | over any run, recovery asks to re-attach at most once for each time the attach was reported gone |
| `AttachProtocol.NeverForAMissingSession` | web/src/ws.ts:222-234 | a session that every snapshot lacks is never re-attached |
| `AttachProtocol.ReattachesOnlyRunning` | web/src/ws.ts:222-234 | in any run, each re-attach answers a poll that saw the session running, and only after the attach was reported gone |
| `AttachProtocol.ProbesBackOff` | web/src/ws.ts:222-234 | the waits between probes of a running session grow with the number of probes, up to the cap |
| `AttachProtocol.GoneRecovery.OnPoll` | web/src/ws.ts:222-234 | one poll answers and updates as the specification of recovery |
| `TerminalAttach.AttachSafety` | web/src/terminal.ts:225-427 | in every reachable state at most one of live socket, pending reconnect and halt is present, and exactly one while a session is selected on a visible page; a pending reconnect is for the selected session, and its lifecycle is not final |
| `TerminalAttach.OpeningsAreJustified` | web/src/terminal.ts:251-427 | a new lifecycle starts exactly on user action, a recovery decision, or a refusal of a token that is no longer the current one or has a saved one to fall back to; a lifecycle that saw a final frame opens a socket exactly when the page becomes visible while its socket is closing |
| `TerminalAttach.GoneComesBack` | web/src/terminal.ts:251-261 | from an attach that ended gone until the user acts, a poll starts a new lifecycle exactly if it sees the session running and either an earlier poll did not, or 3 seconds, doubled for each failed probe up to a minute, have passed |
| `TerminalAttach.GoneComesBackInEveryRun` | web/src/terminal.ts:251-261 | the same at any point of any run, with the failed probes counted from the events |
| `TerminalAttach.ProbesAre` | web/src/ws.ts:195-234 | the probes that delay recovery are the re-attaches since the user last acted or the attach was last ready, after each of which the attach ended gone again |
| `TerminalAttach.AttachedToTheChosen` | web/src/terminal.ts:289-298 | after every run the socket is for the session that the user chose last, and the pane kind the one toggled to since |
| `TerminalAttach.AttachHears` | web/src/terminal.ts:322-388 | after every run the current attach is where its own frames and closes have brought it, across all its sockets, so that each close is answered as those say |
| `TerminalAttach.SendsTheCurrentToken` | web/src/terminal.ts:331-342 | a socket sends the token that is current when it opens, and no other later |
| `TerminalAttach.NoSocketAfterFinal` | web/src/terminal.ts:322-427 | over any run that avoids that window, a final lifecycle opens no socket |
| `TerminalAttach.ClosingWindowIsReachable` | web/src/terminal.ts:401-408 | the window is reachable: a refused attach is opened again before its close is heard |
| `TerminalAttach.TokenlessRestartIff` | web/src/terminal.ts:366-380 | a close starts another attach with no token exactly when its socket was refused and the page has meanwhile forgotten the token that socket sent |
| `TerminalAttach.NoTokenlessRestart` | web/src/terminal.ts:366-380 | over every run in which the current token is not refused over HTTP without a fallback, no close does so for a socket that sent a token |
| `TerminalAttach.TokenlessRestartIsReachable` | web/src/terminal.ts:366-380 | a run in which such a refusal comes between a socket's own refusal and its close, and the close restarts without a token |
| `TerminalAttach.AttachTerminal.CloseSocket` | web/src/terminal.ts:300-320 | drops the timer and the socket and nothing else |
| `TerminalAttach.AttachTerminal.OpenSocket` | web/src/terminal.ts:322-329 | replaces the socket by a fresh one of the current lifecycle |
| `TerminalAttach.AttachTerminal.StartAttach` | web/src/terminal.ts:289-298 | a fresh lifecycle, no halt, and fresh recovery for a user action only |
| `TerminalAttach.AttachTerminal.Click` | web/src/main.ts:301-317 | selecting a session |
| `TerminalAttach.AttachTerminal.DeleteSelected` | web/src/main.ts:265-274 | deleting the selected session detaches |
| `TerminalAttach.AttachTerminal.OnSelectedStatus` | web/src/terminal.ts:251-261 | a polled status re-attaches when recovery says so |
| `TerminalAttach.AttachTerminal.Resume` | web/src/terminal.ts:263-273 | resumes a halted attach |
| `TerminalAttach.AttachTerminal.OnUnauthorized` | web/src/main.ts:54-69 | forgets a refused token that is still current, or puts the saved one in its place and resumes |
| `TerminalAttach.AttachTerminal.ToggleShell` | web/src/terminal.ts:420-427 | re-attaches to the other pane kind |
| `TerminalAttach.AttachTerminal.OnOpen` | web/src/terminal.ts:331-342 | pins the token the socket authenticates with |
| `TerminalAttach.AttachTerminal.OnMessage` | web/src/terminal.ts:344-356 | a frame reaches the lifecycle, and readiness the recovery |
| `TerminalAttach.AttachTerminal.OnClose` | web/src/terminal.ts:358-388 | reconnect, new token, refusal or halt, by the lifecycle's decision |
| `TerminalAttach.AttachTerminal.ScheduleReconnect` | web/src/terminal.ts:393-399 | at most one timer |
| `TerminalAttach.AttachTerminal.OnTimer` | web/src/terminal.ts:395-398 | the timer opens a socket only for a session still selected and visible |
| `TerminalAttach.AttachTerminal.OnVisibilityChange` | web/src/terminal.ts:401-413 | becoming visible replaces a missing or closing socket |
| `WebPoller.AlwaysScheduled` | web/src/poll.ts:38-101 | over every interleaving, a timer never coexists with a run, and a started and unstopped poller has one or the other |
| `WebPoller.TasksAccounted` | web/src/poll.ts:38-101 | over every run the tasks started are exactly the starts and triggers that found none running, the firings of a pending timer, and the completions of a task during which another was asked for; a pending timer carries the interval set last |
| `WebPoller.TriggerIsServed` | web/src/poll.ts:65-94 | a trigger whose promise has resolved was followed by a task that started no earlier |
| `WebPoller.TriggersCoalesce` | web/src/poll.ts:65-94 | any number of triggers during one task cause exactly one more |
| `WebPoller.DuringOneTask` | web/src/poll.ts:65-94 | until the running task completes, no event starts another |
| `WebPoller.StopsForGood` | web/src/poll.ts:56-101 | a stopped idle poller starts nothing until it is started or triggered |
| `WebPoller.Poller.OnTrigger` | web/src/poll.ts:65-73 | joins the run in flight or starts one |
| `WebPoller.Poller.OnTaskCompleted` | web/src/poll.ts:75-94 | goes round the loop again if asked, else arms the timer |
| `WebPoller.Poller.OnSetInterval` | web/src/poll.ts:44-54 | re-arms a pending timer only |
| `RemotePoller.RunLoop` | crates/claude-commander-client/src/poller.rs:135-207 | the loop over its mutable variables and watch channels runs as the fold of its rounds |
| `RemotePoller.BumpsExactly` | crates/claude-commander-client/src/poller.rs:166-199 | a success bumps the feed exactly when the hash moved, the server generation moved, or there was no success before it or a failure since |
| `RemotePoller.FeedCounts` | crates/claude-commander-client/src/poller.rs:180-186 | the feed is the number of those rounds modulo 2^64 |
| `RemotePoller.ConnectionIs` | crates/claude-commander-client/src/poller.rs:147-221 | the connection shown is the outcome of the last round with its own reason, and each change of it is notified once |
| `RemotePoller.SuccessSleeps` | crates/claude-commander-client/src/poller.rs:166-190 | after a success the loop sleeps for the interval exactly when the server cannot push |
| `RemotePoller.NoLostChange` | crates/claude-commander-client/src/poller.rs:147-199 | the hash at the latest success equals the hash at the success that last bumped the feed |
| `RemotePoller.LoopVariables` | crates/claude-commander-client/src/poller.rs:147-199 | the loop's variables are what the history of rounds says they are |
| `RemotePoller.SleepsForTrueCount` | crates/claude-commander-client/src/poller.rs:150-197 | a failed round adds one sleep, and it is for the true number of failures since the last success if and only if that is at most the u32 maximum |
| `RemotePoller.SleepsTheExactBackoff` | crates/claude-commander-client/src/poller.rs:150-197 | up to that maximum, the time of the last sleep of the loop after a failed round is the exact-integer backoff at the true number of failures |
| `RemotePoller.NoticesChange` | crates/claude-commander-client/src/poller.rs:209-221 | no two consecutive connection notifications are equal |
| `Backoff.ExactBackoff` | crates/claude-commander-client/src/backoff.rs:33-43 | the saturating computation equals min(initial * factor^(n-1), max) over exact integers if and only if that product or the maximum fits u64 milliseconds |
| `Backoff.EachFailureMultiplies` | crates/claude-commander-client/src/backoff.rs:33-43 | where everything fits: no wait before a failure, the initial delay after the first, and each further one multiplies the wait, up to the maximum |
| `Backoff.SettlesAtMax` | crates/claude-commander-client/src/backoff.rs:33-43 | with a factor of 2 or more, an outage settles at the maximum |
| `Backoff.DelayNeverShrinks` | crates/claude-commander-client/src/backoff.rs:33-43 | and is non-decreasing in n for a factor of at least 1 |
| `AttachPump.RunPump` | crates/claude-commander-client/src/attach.rs:405-491 | the caller is handed the binary payloads in order and nothing else; the server is sent an in-order prefix of the caller's bytes in chunks of 1 to 8192; answered pings carry their payload; resizes and refreshes go out as asked, in order; the first ending event ends it, its end is published once, and a detach frame is sent last and only for client-initiated ends |
| `AttachPump.HandleEvent` | crates/claude-commander-client/src/attach.rs:405-491 | one branch of the select |
| `AttachPump.EndMeans` | crates/claude-commander-client/src/attach.rs:405-510 | what each published end says has happened, both ways: the session ended, the caller or the server detached, the server failed, the connection was lost |
| `AttachPump.HandshakeIs` | crates/claude-commander-client/src/attach.rs:338-390 | each answer of the handshake from exactly the messages that give it; the two refusals by whole message or prefix |
| `AttachPump.ConservedNext` | crates/claude-commander-client/src/attach.rs:405-491 | each event keeps the conservation of bytes, pongs and commands |
| `AttachPump.DeliveredIs` | crates/claude-commander-client/src/attach.rs:420-440 | until the caller leaves, it is handed every binary payload in full |
| `AttachPump.AwaitReady` | crates/claude-commander-client/src/attach.rs:338-368 | the first deciding message decides the handshake, and every ping before it is answered with its payload |
| `AttachPump.PumpThenWait` | crates/claude-commander-client/src/attach.rs:222-233 | a wait during or after a run answers the end that the run published; of a pump aborted before it published one, that the pump ended unexpectedly |
| `AttachPump.Wait` | crates/claude-commander-client/src/attach.rs:222-233 | the published end, else the first one seen on the channel |
| `PaneText.StripRestores` | crates/claude-commander-core/src/agent.rs:24-27 | stripping restores any ESC-free text interleaved with complete CSI and OSC sequences, as long as no BEL comes behind an OSC that ends in ESC backslash |
| `PaneText.EscapeIs` | crates/claude-commander-core/src/agent.rs:24-27 | what is stripped at a position: a CSI sequence, an OSC up to its first BEL, or one up to its own ESC backslash, and that only if there is no BEL anywhere behind it |
| `PaneText.BelSwallows` | crates/claude-commander-core/src/agent.rs:24-27 | if there is one, everything up to the first BEL is stripped, text and all |
| `PaneText.ClaudeTranscriptIndependence` | crates/claude-commander-core/src/agent.rs:536-580 | what stands above a Claude pane can never change its state if and only if the pane has 10 non-blank lines, or one of its own lines already asks for the user |
| `PaneText.ClaudeStateIs` | crates/claude-commander-core/src/agent.rs:536-580 | the state of every Claude pane by its last ten non-blank lines: the lowest one that asks decides how it waits; if none asks, the lowest live one what it is busy with; if none is live either, a bare prompt without a bare spinner is idle |
| `PaneText.AttentionIs` | crates/claude-commander-core/src/agent.rs:536-557 | a line asks for approval or for input exactly when it says so or offers a numbered entry behind its first prompt sign |
| `PaneText.OpenCodeStateIs` | crates/claude-commander-core/src/agent.rs:603-649 | the state of every OpenCode pane: the permission overlay anywhere, else the interrupt hint in the last three non-blank lines, else a completed turn |
| `PaneText.MuseStateIs` | crates/claude-commander-core/src/agent.rs:764-811 | the state of every Muse pane: a footer that asks in the last eight non-blank lines, else a working line in the status slot |
| `PaneText.StatusSlotIs` | crates/claude-commander-core/src/agent.rs:764-811 | the slot is the lowest line at column 0 above the upper of the last two rules |
| `PaneText.LinesRestore` | crates/claude-commander-core/src/agent.rs:122-129 | lines come back as they were written, with either line ending |
| `PaneText.MuseTranscriptIndependence` | crates/claude-commander-core/src/agent.rs:764-811 | nor that of a Muse pane, if and only if one of its last 8 non-blank lines asks for the user, or it has 8 of them together with a status slot (its two rules and a column-0 line above them), or no line could pass for a working status |
| `PaneText.ColouredTranscriptIndependence` | crates/claude-commander-core/src/agent.rs:113-129 | above an anchored pane of either kind, whole lines with colours and OSC sequences change nothing, from the bytes to the state, under the same condition |
| `PaneText.OpenCodeWorkingFromFooter` | crates/claude-commander-core/src/agent.rs:635-649 | whether OpenCode is working is read from the footer alone |
| `PaneText.TrailingOfPrefixed` | crates/claude-commander-core/src/agent.rs:122-129 | the window of trailing lines fills up from the pane first |
| `PaneText.StatusSlotOfPrefixed` | crates/claude-commander-core/src/agent.rs:764-811 | the status slot of a Muse pane does not depend on what is above it |
| `ResumeCommand.ResumeInsertsTokens` | crates/claude-commander-core/src/agent.rs:424-443 | the tokens of the resume command are the original ones with only the resume tokens inserted if and only if the harness takes a flag, or the program has no leading whitespace or no tokens |
| `ResumeCommand.ResumeKeepsHarness` | crates/claude-commander-core/src/agent.rs:310-323 | for every harness the tokens may be of, the program names the same harness before and after, if and only if the tokens are a flag, or the program has no leading whitespace, or it names no harness |
| `ResumeCommand.HarnessIs` | crates/claude-commander-core/src/agent.rs:310-323 | a program names a harness exactly when its first token is that binary, in any directory and with its letters in any case |
| `ResumeCommand.PathKeepsHarness` | crates/claude-commander-core/src/agent.rs:310-323 | a path in front of a program does not change which harness it names |
| `ResumeCommand.ResumesByFlag` | crates/claude-commander-core/src/agent.rs:424-443 | the resume command of each harness that takes a flag, with and without arguments |
| `ResumeCommand.ResumesBySubcommand` | crates/claude-commander-core/src/agent.rs:424-443 | and of each that takes a subcommand |
| `ResumeCommand.TokensOfResume` | crates/claude-commander-core/src/agent.rs:424-443 | the token list of the resume command for every program |
| `ResumeCommand.EmptyProgramsStayUnknown` | crates/claude-commander-core/src/agent.rs:310-323 | a program that names nothing still names nothing |
| `ProjectTree.Container.RenderTree` | web/src/tree.ts:179-218 | the children become exactly the model-order nodes, showing the keyed data of each project; a project with an unchanged key keeps its identical node, any other gets a new one; the cache holds exactly these; and the rows of an expanded project show the model's observations if and only if its key was not cached, or what the tooltips show of its sessions is as in the model the cached node was built from |
| `ProjectTree.Container.Reconcile` | web/src/tree.ts:207-216 | whatever the children were, the insert and move loop and the pruning leave exactly the given nodes |
| `ProjectTree.PlaceNext` | web/src/tree.ts:207-211 | one insertion extends the ordered front by the next node |
| `ProjectTree.KeptIsRetained` | web/src/tree.ts:212-215 | pruning children that start with the nodes leaves the nodes |
| `ProjectTree.GroupByProject` | web/src/tree.ts:38-46 | every project that has sessions, each with its own in snapshot order |
| `ProjectTree.TreeView.Update` | web/src/tree.ts:70-86 | it renders exactly when the model changed; afterwards the container shows the model's keyed data either way, and a project's observations exactly when they agree with the model its node was built from |
| `ProjectTree.TooltipsAgreeIff` | web/src/tree.ts:105-128 | a subtree built from one model has the right tooltips for another with the same key, exactly when the project is collapsed or its sessions' observations agree |
| `ProjectTree.SameKeyIff` | web/src/tree.ts:190-203 | two models give a project one key exactly when its sessions, its collapse, and the badge and selection of each of its rows are the same |
| `ProjectTree.SessionsOfJoined` | web/src/tree.ts:38-46 | grouping goes through the sessions one by one, in snapshot order |
| `ProjectTree.UpdateTwice` | web/src/tree.ts:70-86 | two updates that differ only in the observations: the second keeps every node, with the tooltips of the first |
| `ProjectTree.StaleTooltip` | web/src/tree.ts:190-203 | a session that was idle and is now working: after both updates its row says idle |
| `ProjectTree.Container.constructor` | web/src/tree.ts:177 | no children and no cached nodes |
| `ProjectTree.ProjectGroup` | web/src/tree.ts:137-175 | a new subtree shows the keyed data and the tooltips of its model |
| `LegacyEdit.EditLegacy` | crates/claude-commander-client/src/client.rs:631-695 | under any failures and interference: a program or restart request sends nothing; an error means that no write was acknowledged and that the one failing request is the last; success without warnings if and only if every requested field was confirmed at its requested value and the pull request was retargeted; the warnings say exactly what was not; the requests go out in order, none after a failure, with at most one toggle, after a read that differed; undisturbed, it ends in the requested settings |
| `LegacyEdit.ErrorLeaves` | crates/claude-commander-client/src/client.rs:631-695 | after an error the server is as if the edit had sent nothing, unless the last request was a write whose answer was lost, and then exactly that write has been done |
| `LegacyEdit.ErrorHidesAChangeIff` | crates/claude-commander-client/src/client.rs:690-694 | so an error hides a change if and only if such a write changed something |
| `LegacyEdit.ReplyIs` | crates/claude-commander-client/src/client.rs:631-695 | a request is carried out unless it is lost on the way there, and the client hears of it unless it is lost either way or the session is gone |
| `LegacyEdit.RenamedAllTheSame` | crates/claude-commander-client/src/client.rs:642-694 | a rename whose answer is lost: an error, and the new title |
| `LegacyEdit.EditSession` | crates/claude-commander-client/src/client.rs:613-629 | falls back only for the error of a server that does not know the combined edit |
| `LegacyEdit.OldServerIs` | crates/claude-commander-client/src/client.rs:620-627 | the old server is recognised exactly by an invalid-request error whose message says that the edit variant is unknown |
| `LegacyEdit.FlipIfDiffers` | crates/claude-commander-client/src/client.rs:667-684 | reads the flag late, toggles at most once, and warns when the answer is not the wanted value |
| `LegacyEdit.WithFlip` | crates/claude-commander-client/src/client.rs:642-687 | what the whole run confirmed, from its writes and its flip |
| `LegacyEdit.FirstSteps` | crates/claude-commander-client/src/client.rs:645-661 | each wanted write is acknowledged exactly when the run got past it |
| `SingleFlight.OneLockPerKey` | crates/claude-commander-core/src/singleflight.rs:14-24 | over all interleavings, two live handles are for the same key exactly when they share a lock |
| `SingleFlight.SingleFlightPerKey` | crates/claude-commander-core/src/singleflight.rs:1-25 | so at most one holder at a time works on a key |
| `SingleFlight.TurnIsGrantedIff` | crates/claude-commander-core/src/singleflight.rs:14-24 | over all interleavings, a turn is granted exactly when nobody works on the same key, whatever goes on under others |
| `SingleFlight.TurnPassesOn` | crates/claude-commander-core/src/singleflight.rs:14-24 | once it is given back, anybody else with a handle for the key can take it |
| `SingleFlight.LiveEntriesStay` | crates/claude-commander-core/src/singleflight.rs:15-24 | while a handle lives, no step prunes or overwrites the entry of its key |
| `SingleFlight.AliveIs` | crates/claude-commander-core/src/singleflight.rs:15-24 | over all interleavings, an entry counts as alive exactly while somebody has a handle for its key |
| `SingleFlight.Flights.ForKey` | crates/claude-commander-core/src/singleflight.rs:14-24 | a call, with handles dropped at any point of it, is a run of those steps; it returns the one lock of the key, and dead entries of other keys are gone |
| `SingleFlight.Flights.Retain` | crates/claude-commander-core/src/singleflight.rs:16 | the pruning keeps only entries whose lock was alive |
| `TokenProtocol.LateRefusalsAreSilent` | web/src/api.ts:171-177 | no run can tell a 401 for a replaced token from an answer that never came |
| `TokenProtocol.AtMostOneReportPerToken` | web/src/api.ts:171-177 | in every run the callback fires at most once between two settings of the token |
| `TokenProtocol.AtMostOneFallback` | web/src/main.ts:54-69 | a link token falls back to the saved one at most once, and without a link never |
| `TokenProtocol.ErasedOnlyWhenRefused` | web/src/token.ts:79-87 | in every reachable state the page erases the saved token only when that very token, still current, is refused |
| `TokenProtocol.RefusalIs` | web/src/main.ts:54-69 | what the refusal of the current token does to token, saved token and screen: reported once, a different saved token takes the place of a link's, any other is forgotten together with its saved copy |
| `TokenProtocol.MessageOnlyForTyped` | web/src/api.ts:61-79 | over every run, the rejection message is for exactly the tokens that the user typed and that have been neither refused nor persisted since |
| `TokenProtocol.TokenMoves` | web/src/api.ts:55-79 | the token changes only when the user types one or the server refuses the current one |
| `TokenProtocol.AcceptedIsSaved` | web/src/main.ts:90-102 | an accepted token is saved, unless it came from the storage or the storage fails |
| `TokenProtocol.BootIs` | web/src/main.ts:418-427 | a link's token first, else the saved one, and nothing written |
| `TokenProtocol.SavedIsAccepted` | web/src/main.ts:90-102 | if each persisting answer carried the current token, what the page saves has been accepted by the server |
| `TokenProtocol.UnacceptedSavedIff` | web/src/main.ts:90-102 | an unaccepted current token is saved exactly when its source is not storage, and only by an answer that carried another token |
| `TokenProtocol.WorkingTokenIsLost` | web/src/main.ts:90-128 | a run in which a poll in flight across a submit saves a typo over a working token, which is then erased without a message |
| `TokenProtocol.PlanRejection` | web/src/token.ts:79-87 | falls back exactly from a link's token to a different saved one; clears only the one refused |
| `TokenProtocol.Auth.Set` | web/src/api.ts:55-59 | a new token ends a rejection |
| `TokenProtocol.Auth.Reject` | web/src/api.ts:69-79 | a rejection exactly for the current token |
| `TokenProtocol.Page.constructor` | web/src/main.ts:418-427 | a link's token is tried ahead of the saved one |
| `TokenProtocol.Page.HandleRefusal` | web/src/api.ts:171-177 | acts as the step of the runs above |
| `TokenProtocol.Page.Refuse` | web/src/main.ts:54-69 | the callback |
| `TokenProtocol.Page.PersistAcceptedToken` | web/src/main.ts:90-102 | saves whatever token is current |

## Left out

- tmux: its format language, quoting and option parsing. The guard is a boolean over options and a
  command an update; `>=` between timestamps compares numbers, which for tmux's text comparison
  holds while the timestamps have equally many digits.
- Hook delivery: reading the payload from stdin, the clock and the tmux process are inputs.
- Regular expressions: the verdicts of the working-status and completed-turn patterns on a single
  line are parameters; the pattern of escape sequences is modelled.
- The detectors of the other harnesses (Codex and Oh My Pi) and the program table beyond the known names.
- The status of a pane without hooks (`AgentStatus::terminal`): terminal source, no outcome, no turns.
- HTTP, WebSocket, TLS, tokio and reqwest: only the outcome of each step is modelled. The minimum
  spacing between two polls of the remote loop is a sleep that carries no state. The content hash of
  a poll stands for the content.
- `poll.ts` assumes, as the model does, that a task does not call `trigger` before its first await.
- A `u32` counter incremented at its maximum wraps, as in a release build.
- The byte order of integers on the wire is little-endian; the source uses the native order.
- chrono and uuid: a time is seconds and nanoseconds in chrono's range, a leap second holding up to
  two seconds of nanoseconds; an id is 16 bytes. Whether a
  generation parses as a UUID is an input.
- Records on the wire: their straight-line readers and writers below the snapshot are functions;
  the cursors, the counted loops and the snapshot itself are methods. A session's 29 fields are
  grouped into four consecutive records, of which the wire has no trace. Vector allocation is not
  modelled, and the deserializer's cursor is the bytes still unread.
- The codecs of types that a snapshot does not contain, stream sinks, and error values.
- DOM rendering, hover and focus state, and node contents beyond the keyed data and the four parts of
  an observation that a tooltip is made of; how they are worded.
- Lock poisoning, and what the holders of a per-key lock do under it.
- The page's other requests, modals and messages; a request is what it carried and how it ended.
- Locks: the strong count of a lock is the handles handed out; a clone of a handle is a handle.
- TerminalAttach.AttachTerminal.OnClose: a closed socket's handlers count as detached, so an event
  of a replaced socket is not modelled.
