# Verification of the daemon's event path

A Dafny 4.11 model of the path that an agent's output takes through the daemon,
from a backend's raw stream to the dashboard's list of envelopes, and of the
protocol state machines beside it. `dafny verify dfyconfig.toml` checks it all.

- **Pi sanitiser and run machine** (`Pi*.dfy`, `Utf8.dfy`; `PiGrammar.dfy` says what a call is): removal of
  `call:name{...}` / `response:name{...}` markup and of `<|tok>` control tokens from
  text that arrives in arbitrary pieces. The batch function is the simple thing the
  streaming one must agree with. `PiStreamExact.ChunkInvariance` says exactly when it does,
  and `PiSanitizer` holds the code's own scanning loops, proved against the functions.
- **Pipe, pump, log** (`MessagePipe.dfy`, `Pump*.dfy`, `Envelope.dfy`, `EnvelopeCuts.dfy`,
  `EnvelopeText.dfy`, `ExecStart.dfy`):
  queue, wake channel, select loop, truncation, cancel and shutdown as a step relation in which
  timeouts and every failure of the database or the connection are steps. The arms of the pump and its
  loop are also methods, proved to be runs of it and to leave the log that `PumpChoices.dfy` asks for.
- **Cancel registry, Codex RPC table, mint window** (`CancelRegistry.dfy`, `CodexRpc.dfy`,
  `CodexClient.dfy`, `Mint.dfy`): transition relations over all interleavings, with classes whose
  locked sections are shown to be the transitions.
- **Codex configuration** (`CodexToml.dfy`, `CodexBlocks.dfy`, `CodexTables.dfy`, `CodexHeaders.dfy`,
  `CodexConfig.dfy`, `CodexMarked.dfy`, `CodexManaged.dfy`): printing and reading back TOML values, the managed block,
  and which of TOML's own table headers the daemon's pattern takes out.
- **Tool tracker, stderr sniffer, paging, stream decoding** (`ToolTracker.dfy`, `Sniffer.dfy`,
  `Paging.dfy`, `Decoder.dfy`), over the shared `Lines.dfy`, `Strings.dfy`, `Sequences.dfy` and `Wrappers.dfy`.

## What turned out not to hold

Each failure has a concrete input or run and, beside it, the theorem that says exactly when it happens.

- Streaming and batch sanitising differ on a token that straddles a removed call
  (`PiStreamUse.StraddlingToken`) and on tokens too long for the 64-byte hold-back. They agree on every split of a
  text if and only if it is `Good` (`PiStreamExact.ChunkInvariance`); in any case the batch result is an in-order
  subsequence of the streamed text (`PiStreamExact.StreamKeepsAll`).
- The comment on the message pipe says that the pump reads until the channel closes. Three arms do not: a result
  drain that times out, a failed insert outside the cancel branch, and a result channel closed empty
  (`PumpReader.Abandons`). The relay is then stuck for good exactly when something accepted is undelivered
  (`PumpReader.StuckExactly`); `PumpProgress.PinReachable` is such a run.
- A heartbeat can change what is logged of a later message, because a larger sequence number makes the line longer
  (`PumpConfluence.HeartbeatFlips`); so can the digits of a time stamp. Two runs on the same input agree up to
  heartbeats if and only if every message is cut alike beside the two outer lines it gets
  (`PumpConfluence.ConfluenceExactly`), in particular when these have the same lengths and the heartbeats stand in
  the same places, or when every message fits beside the longest.
- An insert that fails in the cancel branch is swallowed (`PumpProgress.CancelGap`). A finished log has a gap in its
  numbers exactly when that happened and the end row was persisted (`PumpSystem.GapExactly`).
- A client that is gone before the first line, and only that, leaves its session row running
  (`ExecStart.RowUpdates`).
- A message with content, output and an input over the cap can go out over the cap
  (`Envelope.TwoBulkTextsCanOverflow`). `EnvelopeCuts.CapMetExactly` says when, from the number of cuts that the two
  texts need against the 32 attempts, for every encoder that works rune by rune, as the daemon's does
  (`EnvelopeCuts.JsonCodec`); without an input the attempts always suffice (`EnvelopeCuts.NoInputFits`). No
  backend in daemon/pkg/agent sends a message with output together with content or an input.
- A begin marker that survives outside a block makes repeated rewriting lose text
  (`CodexConfig.StrayBeginExample`); `CodexConfig.Converges` says exactly when it converges, and
  `CodexMarked.ClearedExactly` which files leave no such marker.
- The comment on `stripCodexUserMcpServerTables` says that every `[mcp_servers.*]` table goes. The header pattern does
  not take every header that TOML reads as one: alone, `[mcp_servers]` and `[mcp_servers."a b".env]` stay
  (`CodexHeaders.HeadersThatStay`). `CodexHeaders.CaughtExactly` says which are taken and `CodexHeaders.HeadersLeft` which
  stand in front of the block after a rewrite. Of the tables within whose names are all plain, exactly those with a
  quoted `mcp_servers` or a blank around a later dot are missed (`CodexHeaders.PlainServers`).
- A reply already in its channel can be lost (`CodexRpc.AnswerCanBeLost`): while the caller's own context holds,
  exactly when the process has exited (`CodexRpc.LostExactly`).
- A tool start that reuses an id whose result is still due, and only that, adds a use without a result
  (`ToolTracker.Pairing`).
- A negative zero is printed as `0`; that is all that printing loses (`CodexToml.RenderInjective`).
- A lockout whose file removal fails is undone by a restart (`Mint.LockoutCanReopen`); a closed window can be followed
  by an open one exactly when the table is empty and the file still there (`Mint.ReopensExactly`).
- Two callers can be told that they fired one id's function if the id is registered again
  (`CancelRegistry.TwoToldFired`); at most one is told so for each registration (`CancelRegistry.FiredPerRegistration`),
  and no function is ever called twice (`CancelRegistry.CalledOnce`).

## Model

| member | source | states |
|---|---|---|
| PiSanitizer.NextMarkupPrefix | daemon/pkg/agent/pi.go:151-164 | finds the nearest of the two markup prefixes from a position, or reports that there is none |
| PiSanitizer.ScanMarkupEnd | daemon/pkg/agent/pi.go:166-203 | the scan over name, braces, quotes and closing tag ends exactly where the recursive definition of a call ends, and fails exactly when that has no end yet |
| PiSanitizer.StripStructuredMarkup | daemon/pkg/agent/pi.go:101-118 | the in-place loop computes the batch removal |
| PiSanitizer.SafeEmitLen | daemon/pkg/agent/pi.go:120-135 | what is held back is the longest suffix that may still become a prefix or a token |
| PiSanitizer.LooksLikeControlTokenPrefix | daemon/pkg/agent/pi.go:137-149 | accepts exactly a `<` with at most 63 further token bytes |
| PiSanitizer.StripToolCallMarkup | daemon/pkg/agent/pi.go:61-64 | the batch function removes the markup and then the tokens |
| PiSanitizer.DrainSanitizedText | daemon/pkg/agent/pi.go:82-99 | releases and holds back exactly what the incremental pass does |
| PiSanitizer.TextBuffer.DrainDelta | daemon/pkg/agent/pi.go:66-72 | the buffer becomes the text held back, the released text loses its tokens |
| PiSanitizer.TextBuffer.Flush | daemon/pkg/agent/pi.go:74-80 | empties the buffer and gives out the sanitised remainder |
| PiSanitizer.SanitizeDeltas | daemon/pkg/agent/pi.go:66-80 | a whole message through the buffer is the stream's text, and the batch text whenever the text is good |
| PiMarkupFacts.DrainStep | daemon/pkg/agent/pi.go:82-99 | key law of the incremental pass: for every later text, batch removal of both together is what was released followed by batch removal of what was held back and the later text, unless the cut fell in a closing tag |
| PiMarkupFacts.ScanExtend | daemon/pkg/agent/pi.go:166-203 | a finished brace and quote scan is not changed by text that follows |
| PiGrammar.CallExactly | daemon/pkg/agent/pi.go:151-203 | in every text a call is found at its head exactly when it begins with one of the two prefixes, a name, and braces that balance outside quoted stretches, and the call ends with them or with a closing tag behind them |
| PiGrammar.StripExactly | daemon/pkg/agent/pi.go:101-118 | the batch removal leaves a text without prefixes as it is, takes out the first call and goes on behind it, and stops at a prefix that begins no call |
| PiTokens.TokenLenIsMatch | daemon/pkg/agent/pi.go:25-27 | the head of a text is removed as a token exactly when a prefix has one of the two shapes of the expression, and the longest such prefix goes |
| PiTokens.SeamLaw | daemon/pkg/agent/pi.go:25-27 | removing tokens piece by piece gives the whole's result exactly at seams that no token crosses, and keeps strictly more at any other |
| PiStream.StreamIsBatch | daemon/pkg/agent/pi.go:66-99 | from any held text and for every split of a good text, streaming equals batch |
| PiStreamExact.StreamKeepsAll | daemon/pkg/agent/pi.go:61-99 | for every text and split the batch result is an in-order subsequence of what streaming leaves |
| PiStreamExact.ChunkInvariance | daemon/pkg/agent/pi.go:61-99 | streaming equals batch for all splits if and only if the text is good: no plain stretch holds a token too long for the hold-back and no token straddles a removed call |
| PiStreamUse.TameChunkInvariance | daemon/pkg/agent/pi.go:120-149 | texts in which every `<` with its run of token bytes is at most 64 bytes long and runs into no markup are sanitised alike for every split |
| PiStreamUse.StructuralInvariance | daemon/pkg/agent/pi.go:82-118 | without the token pass, and for every text without the closing tag, every split gives the batch result |
| PiStreamUse.StraddlingToken | daemon/pkg/agent/pi.go:61-64 | the concrete text on which batch and streaming differ |
| PiChunk.EmitChunked | daemon/pkg/agent/pi.go:34-59 | the loop sends exactly the chunks of the specification |
| PiChunk.ChunksConcat | daemon/pkg/agent/pi.go:34-59 | the chunks put together are the text, for every byte string, and none is empty |
| PiChunk.ChunksOfValid | daemon/pkg/agent/pi.go:34-59 | for valid UTF-8 every chunk is valid UTF-8, at most 65536 bytes, and all but the last nearly that |
| Utf8.BoundarySplits | daemon/internal/envelope/envelope.go:335-340 | cutting valid UTF-8 at a rune boundary gives two valid texts |
| Utf8.RuneExactly | daemon/internal/envelope/envelope.go:319-345 | bytes are taken for a rune exactly when they encode a Unicode code point |
| PiRun.Loop.Handle | daemon/pkg/agent/pi.go:364-504 | each arm of the event loop is one step of the run machine |
| PiRun.Loop.EndMessage | daemon/pkg/agent/pi.go:430-466 | message_end is its step of the run machine; what that decides is PiRun.EndDecides |
| PiRun.EndDecides | daemon/pkg/agent/pi.go:430-466 | from every state, for every well-formed attempt: the text is added to the output and no error left exactly when the reason, in any case and padding, is one of the five for an answer given in full; for each other reason the text is dropped and the error is spelled out |
| PiRun.Loop.Finish | daemon/pkg/agent/pi.go:524-567 | status, error and last message from how the process ended and what the stream left |
| PiRun.OutputIsSentText | daemon/pkg/agent/pi.go:342-518 | in every event run, bracketed or not, the output is the concatenation of the text messages sent |
| PiRun.RunOfAttempts | daemon/pkg/agent/pi.go:342-558 | in every bracketed run and for each way the process can end: the output is the text of the attempts that succeeded, usage is counted once for each, and status and error come from a deadline, a cancel or a read error, else from a fatal error, a failed exit or the error left, and completion needs a success |
| PiRun.RunBreaksOff | daemon/pkg/agent/pi.go:523-554 | a stream that ends within a message contributes nothing of it and never completes |
| PiRun.UsageIsSum | daemon/pkg/agent/pi.go:342-361 | for each model and kind of token the total is the sum over the attempts |
| PiRun.ToolsPassThrough | daemon/pkg/agent/pi.go:391-415 | thinking, tool events and the beginnings of runs and retries come out once each and in order |
| PiRun.ContributionIsBatch | daemon/pkg/agent/pi.go:443-455 | a successful attempt whose text is good contributes the batch result of its deltas |
| Envelope.SafeTruncateRunes | daemon/internal/envelope/envelope.go:319-333 | cuts at the last rune boundary not beyond the limit |
| Envelope.ShrinkMessagePayload | daemon/internal/envelope/envelope.go:268-317 | the loop of at most 32 halvings computes the specified shrinking |
| Envelope.ShrinkKeeps | daemon/internal/envelope/envelope.go:268-317 | truncation leaves valid prefixes, touches output only once content is gone and input only once both are, and changes nothing else |
| Envelope.LastCutNeeded | daemon/internal/envelope/envelope.go:268-317 | nothing is cut beyond need: before the last cut the line did not fit, and that cut kept half of its text or the budget, up to a split rune |
| Envelope.CapMet | daemon/internal/envelope/envelope.go:232-317 | with at most one bulk text, of any size, the cap is met within 32 attempts if and only if the line without bulk text and input fits at all |
| Envelope.TwoBulkTextsCanOverflow | daemon/internal/envelope/envelope.go:268-317 | with two texts of 64 KiB and an input over the cap the line that goes out is over the cap |
| EnvelopeCuts.CapMetWithin | daemon/internal/envelope/envelope.go:232-317 | for every message and encoder the line that goes out meets the cap if and only if one of the stages that 32 attempts reach does |
| EnvelopeCuts.CapMetExactly | daemon/internal/envelope/envelope.go:232-317 | for any two well-formed texts and any input, with an encoder that writes the longer of two well-formed texts no shorter: the cap is met if and only if the attempts cut everything and the bare line fits, or what the remaining attempts leave of the output fits beside the input |
| EnvelopeCuts.JsonCodec | daemon/internal/envelope/envelope.go:268-274 | the daemon's JSON encoding of strings is such an encoder, with at most six bytes per byte, though not on texts cut inside a rune |
| EnvelopeCuts.NoInputFits | daemon/internal/envelope/envelope.go:268-317 | without an input the attempts suffice for any two texts |
| EnvelopeCuts.CappedAlike | daemon/internal/envelope/envelope.go:232-317 | a message comes out alike under two lengths of the outer line if and only if it fits under both or neither and is cut equally often |
| Envelope.ChunkNeverTruncated | daemon/internal/envelope/envelope.go:232-242 | a message with one Pi chunk is never truncated |
| EnvelopeText.LineLenIsLength | daemon/internal/envelope/envelope.go:69-84 | the length held against the cap is the length of the encoded line, whatever the escaping and the outer object |
| Envelope.Builder.Build | daemon/internal/envelope/envelope.go:143-200 | numbers are handed out in order and only to envelopes that are not refused |
| Envelope.StatusFromAgentResult | daemon/internal/envelope/envelope.go:409-417 | a terminal status is passed through trimmed, anything else becomes failed |
| MessagePipe.PipeSafe | daemon/pkg/agent/message_pipe.go:36-84 | in every interleaving accepted sends are what was delivered, is in flight and is queued, in order; no wakeup is missed; the channel closes only with everything delivered |
| MessagePipe.AcceptedIsSent | daemon/pkg/agent/message_pipe.go:39-63 | exactly the messages sent before the close are accepted, in order |
| MessagePipe.RelayFinishes | daemon/pkg/agent/message_pipe.go:65-84 | once closed and read, the relay makes a bounded number of steps and can only stop with everything delivered |
| MessagePipe.Shared.Send | daemon/pkg/agent/message_pipe.go:36-45 | the locked part of Send is the send step and says whether a kick is due |
| MessagePipe.Shared.Take | daemon/pkg/agent/message_pipe.go:65-83 | one pass through the relay's locked part is the step from the top: wait, done, or holding the head |
| PumpLog.PayloadOf | daemon/internal/server/exec_pump.go:423-435 | every field of a message is found again in its payload |
| PumpLog.Pump.PersistAndWrite | daemon/internal/server/exec_pump.go:334-358 | the line is written only after its row is in, and a failed write is no error |
| PumpLog.Pump.HandleMessage | daemon/internal/server/exec_pump.go:173-218 | one message becomes its row and, when truncated, one error row, and the first backend session id is kept |
| PumpLog.Pump.DrainRemaining | daemon/internal/server/exec_pump.go:380-421 | a drain logs its messages one after another up to the first failed insert |
| PumpLog.Pump.FinalizeStream | daemon/internal/server/exec_pump.go:242-303 | end row and update announce the result: a terminal status goes out unchanged, a cancelled or status-less one under a shutdown mark is aborted, anything else has failed; or the update is failed when the insert is |
| PumpLog.EndAnnounces | daemon/internal/server/exec_pump.go:242-297 | the same of the specification, with output length, session id and what is written |
| PumpLoop.PumpAgentSession | daemon/internal/server/exec_pump.go:84-232 | for every sequence of choices, failed inserts included, the loop leaves session_started, the rows of the messages and due heartbeats handed over up to the first failed insert, and the end its arm asks for; the client gets every row as long as it is there; and the discipline of the log holds |
| PumpLoop.LoopRun | daemon/internal/server/exec_pump.go:122-232 | every sequence of choices is matched by a run of the step relation that takes in the same messages and heartbeats and has the same outcome |
| PumpLoop.LoopedOutcome | daemon/internal/server/exec_pump.go:114-232 | the same as PumpAgentSession from any log that holds what was taken so far |
| PumpSystem.LogDiscipline | daemon/internal/server/exec_pump.go:84-358 | in every run at every moment: numbers start at 0 and increase, without a gap while the stream is open; what was written is an in-order subsequence of the rows; after the end there is at most one end row, in last place, none after a failed insert outside the cancel drain, and exactly one terminal row update with the end row's status |
| PumpSystem.GapExactly | daemon/internal/server/exec_pump.go:124-146 | a finished log has a gap if and only if the cancel drain swallowed a failed insert and the end row came after it |
| PumpRuns.Lossless | daemon/internal/server/exec_pump.go:122-232 | in every run without cancel, timeout or failed insert the log is session_started, exactly the messages accepted, and one end row that announces the result the backend sent |
| PumpRuns.RowsOfMessage | daemon/internal/envelope/envelope.go:232-264 | a message is one unchanged row while its line has at most 1048576 bytes, and otherwise a row cut in content, output or input and one notice |
| PumpConfluence.ConfluenceExactly | daemon/internal/server/exec_pump.go:122-232 | two undisturbed runs on the same input, whichever of result and end of messages is seen first, have the same row update, and the same log up to heartbeats if and only if every message is cut alike beside the outer lines it gets, whose lengths depend on number and clock |
| PumpConfluence.Confluence | daemon/internal/server/exec_pump.go:165-229 | with the heartbeats in the same places and outer lines of the same lengths they have the same log up to the heartbeats' durations, for every encoder |
| PumpConfluence.ConfluenceWithoutBeats | daemon/internal/server/exec_pump.go:165-229 | without heartbeats, and with outer lines of the same lengths, their logs are the same row by row |
| PumpConfluence.ConfluenceWhenFitting | daemon/internal/server/exec_pump.go:153-171 | wherever the heartbeats stand and whatever the clocks show, they agree when every message fits beside the longest outer line |
| PumpConfluence.OneBeatMore | daemon/internal/server/exec_pump.go:153-206 | for every configuration and number of heartbeats, one heartbeat more before a message leaves the same log if and only if the message is cut alike at both numbers |
| PumpConfluence.HeartbeatFlips | daemon/internal/envelope/envelope.go:57-66 | with a number written in digits, two runs in which a heartbeat moves a full message from number 9 to 10 and so truncates it |
| PumpRuns.RegistryAlways | daemon/internal/server/cancel_registry.go:98-137 | in every run a stream the user cancelled first is never marked as a shutdown, and a shutdown mark stays |
| PumpRuns.ShutdownRun | daemon/internal/server/exec_pump.go:242-255 | a stream marked as shutdown at any time before it is finalised never ends as cancelled |
| PumpProgress.StreamEnds | daemon/internal/server/exec_pump.go:84-232 | once the backend has closed the pipe and sent its result or closed the result channel, the stream takes a bounded number of steps and can only stop when finished |
| PumpProgress.CancelGap | daemon/internal/server/exec_pump.go:124-146 | the run in which the cancel drain swallows a failed insert |
| PumpProgress.PinReachable | daemon/internal/server/exec_pump.go:214-229 | a run in which the result drain times out and the relay keeps a message |
| PumpProgress.PinnedForever | daemon/pkg/agent/message_pipe.go:11-15 | from there on that message is never delivered |
| PumpReader.RelayMustEnd | daemon/pkg/agent/message_pipe.go:65-84 | after the pump, with a reader left or nothing undelivered, the relay makes a bounded number of steps and can only stop done with everything delivered |
| PumpReader.RelayEndsExactly | daemon/internal/server/exec_pump.go:124-146 | once the pump has finished and the pipe is closed, the relay can still end with everything delivered if and only if the pump left a reader behind or nothing is undelivered |
| PumpReader.StuckExactly | daemon/internal/server/exec_pump.go:122-232 | over whole runs the relay is stuck exactly when a timed-out result drain, a failed insert outside the cancel branch or an empty result channel ended the reading and something accepted is undelivered |
| ExecStart.BeginStream | daemon/internal/server/handlers/exec.go:221-258 | the first row and line, and the log the pump starts from |
| ExecStart.RowUpdates | daemon/internal/server/handlers/exec.go:238-258 | every stream gets exactly one terminal row update unless the first write failed after its insert |
| CancelRegistry.CalledOnce | daemon/internal/server/cancel_registry.go:46-137 | in every interleaving, with ids used again at will, shutdown ids are requested ids, requested ids are registered ids, and each cancel function is called at most once |
| CancelRegistry.RegistryIsHistory | daemon/internal/server/cancel_registry.go:46-137 | after every run the registry holds and answers of each id exactly what its own history says since it was registered last, and its function has been called, or is about to be, exactly if it was cancelled |
| CancelRegistry.RegistrySafe | daemon/internal/server/cancel_registry.go:46-137 | with fresh ids at most one caller is told that it fired a stream's function, and a user's own cancel is never a shutdown |
| CancelRegistry.EveryRun | daemon/internal/server/cancel_registry.go:34-137 | both from the empty registry on |
| CancelRegistry.FiredPerRegistration | daemon/internal/server/cancel_registry.go:98-113 | without any rule on ids at most one caller is told that it fired for each registration |
| CancelRegistry.TwoToldFired | daemon/internal/server/cancel_registry.go:46-60 | an id registered again lets two callers be told so, for two functions |
| CancelRegistry.Locked.Cancel | daemon/internal/server/cancel_registry.go:98-113 | the locked part is the cancel step and returns the function to call only to the caller that fires |
| CancelRegistry.Locked.CancelAll | daemon/internal/server/cancel_registry.go:120-137 | marks everything not yet requested and collects each of those functions once, in any map order |
| CancelRegistry.AcceptedOnce | daemon/internal/server/handlers/sessions.go:218-251 | after an accepted cancel no later request for the stream is accepted, whatever happens in between |
| CodexRpc.RpcSafe | daemon/pkg/agent/codex.go:1265-1402 | in every interleaving: a pending call's channel is empty, each call is sent at most one reply, an answer is the process's answer to that very call, the done channel is closed at most once, and after the exit the table stays empty |
| CodexRpc.SendsNeverBlock | daemon/pkg/agent/codex.go:1371-1397 | the sends made under the lock find every channel empty |
| CodexRpc.NobodyStranded | daemon/pkg/agent/codex.go:1313-1335 | after the exit only finitely many steps remain and, when none does, every call has returned |
| CodexRpc.ReturnIsFinal | daemon/pkg/agent/codex.go:1313-1335 | what a call returned is never changed |
| CodexRpc.AnswerCanBeLost | daemon/pkg/agent/codex.go:1313-1326 | the run in which a delivered answer loses to the closed done channel |
| CodexRpc.AnswerKept | daemon/pkg/agent/codex.go:1313-1335 | in every run without an exit and without the end of the caller's context, a delivered answer waits in its channel or is returned |
| CodexRpc.ResponseArrives | daemon/pkg/agent/codex.go:1443-1470 | the answer to a call in the table stays on its way until exactly it is returned, unless the write failed, the caller gave up or the process exited |
| CodexRpc.LostExactly | daemon/pkg/agent/codex.go:1313-1335 | while the caller's context holds, a delivered answer can be lost if and only if the process has exited |
| CodexClient.Client.Begin | daemon/pkg/agent/codex.go:1265-1284 | refuses exactly on a finished context or an exited process, else is the request step |
| CodexClient.Client.HandleResponse | daemon/pkg/agent/codex.go:1443-1470 | the entry leaves the table and its channel, which had room, gets the process's answer or error; an unknown id changes nothing |
| CodexClient.Client.MarkProcessExited | daemon/pkg/agent/codex.go:1380-1397 | keeps the first error, closes the done channel at most once, gives every pending call the failure and empties the table |
| CodexToml.BasicString | daemon/pkg/agent/codex.go:450-480 | the loop writes the escaped form, which reads back as the string |
| CodexToml.QuoteReads | daemon/pkg/agent/codex.go:450-480 | for every string, reading the escaped form gives the string and leaves what followed |
| CodexToml.RenderReads | daemon/pkg/agent/codex.go:404-448 | reading a printed value, with anything after it, gives the value back up to the sign of a zero |
| CodexToml.RenderInjective | daemon/pkg/agent/codex.go:404-448 | two values print alike exactly when they differ at most in the sign of a zero |
| CodexToml.RenderInline | daemon/pkg/agent/codex.go:404-480 | printing fails exactly on a null at any depth and never yields a control character |
| CodexTables.StripCodexUserMcpServerTables | daemon/pkg/agent/codex.go:369-398 | the line loop computes the table removal |
| CodexTables.KeepIsOthers | daemon/pkg/agent/codex.go:369-398 | exactly the lines from a header that the pattern takes to the next other table go, and all others stay in their order |
| CodexTables.StripTablesFacts | daemon/pkg/agent/codex.go:369-398 | the text is those lines joined; no line that the header pattern takes is left, and a text without one is untouched |
| CodexHeaders.CaughtExactly | daemon/pkg/agent/codex.go:197-204 | of all table headers of TOML 1.0.0, in every spelling, the pattern takes exactly the tables whose first key is an unquoted `mcp_servers` and whose other keys hold no blank or bracket, or are one basic string without an escaped quote, or hold a quoted part that reads on as the end of a header |
| CodexHeaders.PlainServers | daemon/pkg/agent/codex.go:197-204 | with plain names, whichever way quoted, exactly those with an unquoted `mcp_servers` and no blank around a later dot |
| CodexHeaders.StaysExactly | daemon/pkg/agent/codex.go:365-398 | a header stays if and only if the pattern does not take it and it does not go on with a removal begun above |
| CodexHeaders.HeadersLeft | daemon/pkg/agent/codex.go:220-264 | which table headers stand in front of the block after a rewrite |
| CodexHeaders.HeadersThatStay | daemon/pkg/agent/codex.go:365-398 | two headers of the servers' tables that the pattern misses |
| CodexBlocks.StripBehind | daemon/pkg/agent/codex.go:193-195 | the block pattern takes out a block behind begin-free lines and nothing else |
| CodexBlocks.StripBetween | daemon/pkg/agent/codex.go:193-195 | a block between begin-free lines goes, the lines before and behind it stay as they are |
| CodexConfig.ClearAfterSet | daemon/pkg/agent/codex.go:229-269 | clearing after setting gives back what stood in front of the block |
| CodexConfig.Converges | daemon/pkg/agent/codex.go:220-269 | any sequence of two rewrites equals the last one alone if and only if no line left of the user's text begins like a begin marker |
| CodexConfig.StrayBeginExample | daemon/pkg/agent/codex.go:193-195 | the smallest file that changes again when the same rewrite is repeated |
| CodexConfig.HeadersOnlyInBlock | daemon/pkg/agent/codex.go:236-264 | no line that the header pattern takes for a server's stands outside the block |
| CodexMarked.WellMarkedConverges | daemon/pkg/agent/codex.go:220-269 | a file converges whose begin lines all open a block, if no begin marker follows an end marker on its line |
| CodexMarked.ClearedExactly | daemon/pkg/agent/codex.go:193-195 | these are exactly the files that clearing leaves without a begin line |
| CodexMarked.ConvergesUntabled | daemon/pkg/agent/codex.go:220-269 | and, where no header is left for the pattern to take, exactly the files that converge |
| CodexManaged.BodyTextBody | daemon/pkg/agent/codex.go:304-363 | no name, key or value can make a line between the markers begin like a marker |
| CodexManaged.BodyReads | daemon/pkg/agent/codex.go:304-363 | the tables read back are the saved servers |
| CodexManaged.RenderCodexMcpServersBlock | daemon/pkg/agent/codex.go:304-363 | fails exactly on an unreadable configuration, a name that is no bare key, a server that is no object or a null; otherwise yields the block |
| CodexManaged.HistoryForgets | daemon/pkg/agent/codex.go:220-269 | over every history of sets, clears and failures the user's text is what one rewrite makes of it and a set leaves no trace of earlier ones |
| CodexManaged.SetHolds | daemon/pkg/agent/codex.go:229-264 | what a set leaves: the lines no block and no server's table took, and a block that reads back as the servers |
| CodexManaged.ClearedFile | daemon/pkg/agent/codex.go:229-269 | what a clear leaves, also directly behind a set |
| CodexManaged.HistoryCleared | daemon/pkg/agent/codex.go:220-269 | a history that ends in a clear leaves no begin line, and behind a set the user's text alone |
| CodexManaged.ConfigFile.Ensure | daemon/pkg/agent/codex.go:220-291 | the file is as it was after a failed read or rendering, and a text that was written is private; after a set it holds the user's text and one block in which the saved servers can be read; after a clear no begin line is left exactly if it was well-marked, and of a file with one block the lines around it |
| ToolTracker.Pairing | daemon/pkg/agent/hermes.go:969-1083 | uses less results of an id are the one still owed plus the starts that reused the id too early, so pairing is exact if and only if there is no such start |
| ToolTracker.ResultAfterUse | daemon/pkg/agent/hermes.go:1036-1083 | at every point of the outgoing stream no id has more results than uses |
| ToolTracker.DeferredCarriesLastText | daemon/pkg/agent/hermes.go:1028-1083 | a deferred use carries the last non-empty cumulative argument text and stands directly before its result |
| ToolTracker.StartSends | daemon/pkg/agent/hermes.go:969-1034 | a start shows its use at once, with the tool's own input, or with what text and locations say; or nothing, when its arguments are still to come |
| ToolTracker.CompletionSends | daemon/pkg/agent/hermes.go:1036-1083 | a completion shows its own use when there was no start, the deferred use with the last arguments when the start waited, and then the result from the first output that is not empty |
| ToolTracker.ProgressSends | daemon/pkg/agent/hermes.go:1066-1077 | an update before the completion shows nothing |
| ToolTracker.Client.HandleToolCallStart | daemon/pkg/agent/hermes.go:969-1034 | the handler is the start step |
| ToolTracker.Client.HandleToolCallUpdate | daemon/pkg/agent/hermes.go:1036-1083 | the handler is the progress or completion step |
| Sniffer.Buffer.Write | daemon/pkg/agent/hermes.go:1758-1799 | one write adds its complete lines to the log and keeps the rest |
| Sniffer.ChunkingIrrelevant | daemon/pkg/agent/hermes.go:1758-1799 | the log depends only on the bytes written, not on how they were split |
| Sniffer.SnifferLog | daemon/pkg/agent/hermes.go:1758-1799 | it holds the last eight distinct error lines in first-seen order and whether any was terminal |
| Decoder.DecodeChunk | apps/dashboard/src/models/envelope.ts:66-76 | yields the decoded complete lines in order and keeps the rest |
| Decoder.StreamYieldsLog | apps/dashboard/src/models/envelope.ts:66-76 | for every split of the encoded lines exactly the envelopes of the complete lines come out |
| Mint.MintSafe | daemon/internal/server/mint/window.go:189-299 | over every history at most one token is minted, as the table's first row; a process counts at most five failures and the fifth closes the window; only a holder of the open window's lock commits |
| Mint.MintHistory | daemon/internal/server/mint/window.go:189-299 | from the first start on at most one token is minted, and none if the table was not empty |
| Mint.FifthCloses | daemon/internal/server/mint/window.go:270-299 | bad codes leave an open window open until exactly the fifth failure |
| Mint.ClosedIsFinal | daemon/internal/server/mint/window.go:270-299 | after the window closed this process neither mints nor counts |
| Mint.NeverOpensAgain | daemon/internal/server/mint/probe.go:57-87 | with a token in the table or the nonce gone, no crash, restart or failed removal opens a window again |
| Mint.StartOpens | daemon/internal/server/mint/probe.go:39-118 | a start opens a window exactly when it is local, the table can be read and is empty, and the nonce file can be looked at, is there and parses |
| Mint.LockoutCanReopen | daemon/internal/server/mint/window.go:270-284 | a lockout that cannot remove the file lasts only until the restart |
| Mint.LockoutIsFinal | daemon/internal/server/mint/window.go:270-284 | with the file removed it lasts for good |
| Mint.ReopensExactly | daemon/internal/server/mint/probe.go:57-118 | after a closed window one can open again if and only if the table is empty and the nonce file still there |
| Mint.MintWindow.Consume | daemon/internal/server/mint/window.go:189-267 | a call is the history's steps in a row; it answers OK, and then has minted and closed, exactly for a valid matching code at an open window with an empty table, the file there and no failing call |
| Mint.ConsumedIs | daemon/internal/server/handlers/mint.go:121-164 | what a call comes to case by case, also when a token is inserted between recheck and commit |
| Mint.ProbeStartup | daemon/internal/server/mint/probe.go:39-118 | the sequence of early returns is the start step, with its stale cleanup; it fails exactly on a table that cannot be read or, with an empty table, a file that cannot be looked at |
| Paging.Messages | daemon/internal/server/handlers/sessions.go:171-205 | the handler's loop yields the page: filtered rows, cursor behind the last row read, and whether there is more |
| Paging.FollowIsFilter | daemon/internal/server/handlers/sessions.go:171-205 | for every limit and filter, following the cursor yields exactly the rows of the listed types, each once and in order |
| Paging.Load | apps/dashboard/src/viewmodels/useSessionDetailViewModel.ts:42-84 | while the log grows, the loop is ready with exactly the rows of its last request, the first that reaches the end; it stops only if none of 200 does; the guard against pages that do not advance never fires |
| Paging.LoadFinished | apps/dashboard/src/viewmodels/useSessionDetailViewModel.ts:42-84 | a finished session is collected whole if and only if it has at most 200000 rows |

## Left out

- Bytes: Pi, envelope, sniffer and decoder texts are sequences of bytes written as `char`; Codex texts are sequences of code points.
- White space and case: `TrimSpace` and `ToLower` are modelled for ASCII only.
- Regular expressions: the control tokens, the block pattern and the table header are defined by hand; the sniffer's expressions are parameters.
- JSON: an encoder is a length function (`EnvelopeCuts.JsonLen` is the daemon's) or an injective function without line breaks; decoding into values is not modelled, and a payload is assumed to be valid UTF-8 when it is truncated.
- EncodeLine and builder marshal errors, which cannot occur on the modelled payloads, and the best-effort update of the backend session id, whose failure is only logged.
- Time: timers, deadlines and heartbeats are steps; durations, usage in `session_ended` and timestamps are not part of the rows.
- PiRun.RunOfAttempts: text outside an assistant message and errors inside one are not bracketed runs (PiRun.OutputIsSentText covers every run); token counts are unbounded integers, where the source adds 64-bit ones.
- Pi and Codex subprocess launch, argument building, session files and the reading of events into fields.
- CodexToml.RenderReads: a number is named by its shortest decimal form, so the conversion to and from a 64-bit float is not modelled.
- CodexToml.RenderInjective: for the same reason it is stated on decimal forms of numbers.
- CodexHeaders: a line is read on its own, so one inside a multi-line value counts as a header if it looks like one; keys such as `mcp_servers.x = ...` outside any table are not looked at by the code.
- CodexRpc: one done channel is followed from its making to its closing; the turn and notification handling behind the responses is not modelled.
- ToolTracker: pending entries are replaced in the map instead of changed through a shared pointer, and the JSON reading of streamed arguments stays symbolic.
- Mint: Argon2, token secrets and HTTP gates; whether a code matches is a parameter, and only one daemon process runs at a time.
- Database: a table is a sequence or a set, an insert or transaction is one atomic step that may fail.
- CancelRegistry.RegistrySafe: ids are fresh, as the handler makes them.
- Paging.Load: failing requests, authentication errors and unmounting end the loop and are not modelled.
- CodexManaged.ConfigFile.Ensure: after a failed write the file's text is arbitrary.
- HTTP middleware, catalogues, home paths, migrations, chat rendering and scripts, whose claims are settled by a single branch.
