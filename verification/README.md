# Protocol and stream models of Open ACE

Open ACE drives command-line agents on remote machines. This project models the parts of it
whose correctness depends on loops, state and interleavings, and proves what they keep. To
verify it, use `dafny verify dfyconfig.toml` (Dafny 4.11).

| files | what they model |
|---|---|
| `Wrappers` | A value that may be missing. |
| `Bytes`, `Rfc6455`, `WsReceiver`, `WsFrame`, `WsSessions`, `WsWire` | The WebSocket bridge: an encoder and decoder of frames (section 5.2 of RFC 6455), the receiver as a function on byte streams (sections 5.4 and 5.5), the loops of the bridge proved to compute that function, what it does to whole messages and sessions, and the same in literal bytes. |
| `ZCodeEvents`, `ZCodeTurn` | The de-duplication of the events of a ZCode turn, and the polling loop with its backoff. |
| `ZCodeCorrelation`, `ZCodeSession` | Requests and responses between any number of threads and one reader, as a step system; and the same methods run on their own. |
| `RestartProtocol`, `RestartExecutor` | The restart of CLI processes by any number of threads; and the restart method on objects, proved to be a run of that protocol. |
| `TerminalNewlines`, `TerminalHistory` | The chunked newline normaliser; the output history and its clients. |
| `TomlValues`, `TomlNested`, `TomlTables`, `Toml` | The TOML printer, and a reader for what it prints. |
| `Dicts`, `CodexSettings`, `CodexFile` | Python dicts, the deep merge, the normalised Codex settings, and the file they are merged into. |
| `PartsScanner` | Recovering text from concatenated JSON. |
| `PythonText`, `EnvFile`, `ComposeEnv` | The `.env` parser and updater, and the bootstrap of its secrets. |
| `ConfigFiles`, `ConfigStore`, `TokenRotation` | The agent's configuration file as steps on a disk that may crash, and token rotation. |

Concurrent code is a step system over values: a state, an `Enabled` predicate, a `Next`
function, and runs as sequences of steps; what is proved holds after every run. Code that works
in place is a class or a loop proved against a function on values. The environment is a
parameter or a free choice: how a socket cuts the stream, when a send fails, what a server
answers, when a process dies, where a crash hits, what a decoder, a hash or a TOML library
computes (with the assumptions on them stated as predicates such as `IsCodec`).

## What the code does not do

Where code and documentation disagree, the model follows the code.

- The cap on messages is never stale. The documentation of `get_max_message_size` warns that an
  old, larger cap may be honoured for one more call; `MaxMessageSize.Get` shows that it is not.
- Events without a seq are not forwarded once per turn, as the documentation of
  `_forward_events` says. The code remembers one poll, and for the tail poll the one before the
  last. `OncePerTurnCharacterised` gives the exact condition for every turn, with its tail poll
  or without; `RedeliveryCounterexample` and `TailRepeats` are the failures.
- A server request of the ZCode app-server is answered only if the process's stdin takes text.
  `_send_response` writes a `str`, and the executor opens a pipe that takes bytes
  (remote-agent/executor.py:1394-1402), so the write raises. If the reader was to answer, as it
  does to everything in an unattended session and to any method but two in an attended one, that
  ends the reader thread: `ReaderDiesOnBinaryPipe`, `DeadlyMessages`. The sandbox adapter's
  pipe takes both. `RepliesNeedATextPipe` and `NothingIsLost` are the exact conditions.
- `_request` removes its id from `_pending` when it returns, but not when the write raises
  something it does not handle, such as the ValueError of a closed stdin. Then the id stays:
  `RaisedStaysPending`, with the run `RaisedExample`.
- A chunk that begins with CR LF after a chunk that ends in CR leaves the normaliser's flag up,
  and a later LF goes out without its CR. `SplitInvariance` gives the exact condition on splits.
- `stop()` swallows errors, so a restart may leave two processes alive. `AtMostOneAlive` holds
  but for processes that `stop()` gave up on; `NeverTwoCharacterised` says exactly which runs
  keep to one process, and `FailedStopLeavesTwo` is a run that does not.
- The TOML printer lets control characters through, and takes a key that ends in a newline for
  a bare one. `TomlRoundTrip` says for which data the text can be read back: for all other data
  it is no TOML.
- So rewriting the Codex settings can lose all of them. An escaped control character in an old
  `config.toml` is valid TOML, is written back raw, and makes the new file unreadable; the next
  write then starts from nothing. `WriteIsExclusive` gives the exact condition on the old file
  and the request, `UncleanLosesAll` the family of files that are lost, `EscapeExample` one.
- A client that attaches to a terminal while output arrives may see bytes twice, and may see
  newer output before older; `SeenTwice` says which bytes, `InOrderExactly` when the order is
  kept, and `TwiceAndOutOfOrder` is a run in which both go wrong.
- Clearing the Codex token takes it back only from a file that can be read. In one that cannot,
  the token stays in the text: `ClearAfterWrite` is the exact condition.
- The version filter of token rotations is meant to keep overtaken tokens out. It forgets a
  version that was never saved: `Save` swallows errors, and a process that then starts on the
  old configuration file accepts an overtaken command again. `KeepsOutCharacterised` and
  `NeverFallsCharacterised` say exactly in which runs, `OvertakenAccepted` is such a run.

## Model

| member | source | states |
|---|---|---|
| Bytes.BigEndianRoundTrip | app/ws_frame.py:225-234 | `!H` and `!Q`: a number below 256^width is read back from its network bytes |
| Bytes.BigEndianIsPositional | app/ws_frame.py:225-234 | the first byte is the most significant: it counts 256^k with k bytes after it |
| Bytes.TwoBytes | app/ws_frame.py:225-228 | `!H`: 256 times the first byte plus the second |
| Bytes.XorAt | app/ws_frame.py:265-268 | `^`: bit i of the result is the sum modulo 2 of the two bits i, for every i |
| Bytes.XorZero | app/ws_frame.py:265-268 | a zero key byte leaves a byte alone |
| Bytes.XorTwice | app/ws_frame.py:265-268 | masking a byte twice with the same key byte restores it |
| Rfc6455.MaskedTwice | app/ws_frame.py:263-269 | unmasking inverts masking, for every payload and key (section 5.3) |
| Rfc6455.HeadRoundTrip | app/ws_frame.py:214-234 | the head decoder inverts the head encoder for all flags, opcodes and length forms, minimal or not |
| Rfc6455.HeadOnto | app/ws_frame.py:214-234 | every head the decoder accepts is the encoding of what it returns |
| Rfc6455.DecodeInvertsEncode | app/ws_frame.py:214-269 | a whole frame, masked or not, is read back, and exactly its bytes are consumed |
| Rfc6455.DecodeIsSound | app/ws_frame.py:214-269 | what is decoded re-encodes to the bytes consumed, so no two frames share an encoding |
| Rfc6455.DecodeCharacterised | app/ws_frame.py:214-269 | a stream decodes to a frame and a rest if and only if it is an encoding of the frame followed by the rest |
| WsReceiver.NextFrameProgress | app/ws_frame.py:209-261 | an accepted frame costs at least 6 bytes and fits the cap; a refused one costs its head only (2 to 10 bytes) |
| WsReceiver.ReceiveIsSound | app/ws_frame.py:178-333 | for every stream: what is unread is a suffix of it, and no message is longer than the cap |
| WsReceiver.PassesAreBounded | app/ws_frame.py:209-333 | termination: six bytes per pass that goes on |
| WsReceiver.ReplyIsLegal | app/ws_frame.py:166-175 | every frame the receiver emits has FIN set, no mask, a control opcode and at most 125 bytes |
| WsReceiver.RepliesAreOrderly | app/ws_frame.py:236-321 | pongs in order, at most one close frame, last, and only on an error (`OrderlyMeans` spells this out by position); never more frames than the peer takes |
| WsReceiver.OutcomeIgnoresWritability | app/ws_frame.py:166-175 | close frames that cannot be sent change neither verdict nor position |
| WsFrame.MaxMessageSize.Get | app/ws_frame.py:80-117 | for every history of environment values the cap is that of a fresh parse of the current one, 8388608 where it is missing or no positive number |
| WsFrame.RecvExactly | app/ws_frame.py:153-163 | however the socket cuts the stream: exactly n bytes, or all there is |
| WsFrame.Unmask | app/ws_frame.py:263-269 | the in-place loop computes the masked payload of section 5.3 |
| WsFrame.SendFrame | app/ws_frame.py:364-376 | the printer writes the section 5.2 encoding in the shortest length form, all or nothing |
| WsFrame.SafeSendClose | app/ws_frame.py:166-175 | a close frame is sent if the peer takes it; a failure is swallowed |
| WsFrame.ReadHead | app/ws_frame.py:210-234 | the reads of the head amount to the section 5.2 decoder on the stream |
| WsFrame.ReadFrame | app/ws_frame.py:209-269 | one frame with its checks, in the order oversized control, cap, mask, body, as on the stream |
| WsFrame.HandleControl | app/ws_frame.py:271-299 | control frames: verdicts, pongs, and where the call ends |
| WsFrame.HandleData | app/ws_frame.py:301-333 | data frames: `total_length` is the length of the fragments and never exceeds the cap |
| WsFrame.Pass | app/ws_frame.py:209-333 | one pass of the loop is one turn of the message automaton |
| WsFrame.ReceiveUnderCap | app/ws_frame.py:209-333 | the loop refines the specification for every stream, chunking and writability |
| WsFrame.RecvMessage | app/ws_frame.py:178-333 | a whole call: outcome, bytes consumed and bytes sent are those of the specification under the current cap |
| WsSessions.VerdictOnFrame | app/ws_frame.py:236-261 | the order of errors, and that a frame over the cap is refused with its key and payload unread |
| WsSessions.TransmissionRoundTrip | app/ws_frame.py:178-333 | a legal transmission whose control frames fit the cap: the message, the rest of the stream and the pongs due |
| WsSessions.FragmentedRoundTrip | app/ws_frame.py:178-333 | any split into fragments, keys, length forms and interleaved pings and pongs: the payload comes back whole, exactly its bytes are consumed, and each ping is answered in order |
| WsSessions.MessagesCharacterised | app/ws_frame.py:178-333 | the converse: a message is returned if and only if the stream begins with a legal transmission of it |
| WsSessions.InterruptionIsRefused | app/ws_frame.py:302-309 | a new data frame inside a message is a protocol error, after the pongs that were due |
| WsSessions.ExcessIsRefused | app/ws_frame.py:312-323 | a continuation past the cap is refused and nothing is delivered |
| WsSessions.SessionRoundTrip | app/ws_frame.py:178-333 | repeated calls return the messages of a stream in order, no byte skipped or read twice |
| WsSessions.PrinterRoundTrip | app/ws_frame.py:364-376 | what the printer writes is decoded to what was printed, and no legal form is shorter |
| WsWire.MaskedHello | app/ws_frame.py:178-333 | the masked text frame of section 5.7 of RFC 6455, byte for byte, is received as its message, whatever follows it |
| WsWire.FragmentedHello | app/ws_frame.py:178-333 | two fragments in literal bytes with a ping between them: one binary message, and the pong |
| WsWire.ServerExamples | app/ws_frame.py:364-376 | the bytes of an unmasked text frame and of the two extended length forms |
| WsWire.RepliesOnTheWire | app/ws_frame.py:166-175 | a pong echoes the payload; close frames carry 1002 or 1009, in network order, and the reason |
| WsWire.ReasonsOnTheWire | app/ws_frame.py:236-321 | the bytes of the six close frames for protocol errors, reasons included |
| WsWire.RefusedFrames | app/ws_frame.py:236-261 | control frames of 126 bytes or more, then frames over the cap, then unmasked frames are refused with their key and payload unread |
| WsWire.EndingFrames | app/ws_frame.py:271-333 | whatever has been gathered: how a close frame, a fragmented control frame, a reserved opcode and a stray continuation end the call |
| ZCodeEvents.ResponseIncreases | remote-agent/zcode_app_server.py:613-639 | within a response the numbered events forwarded strictly increase, above the last seq |
| ZCodeEvents.TurnInvariant | remote-agent/zcode_app_server.py:583-639 | every hash on record with a seq has one that has been passed, so the hash layer never suppresses a fresh numbered event |
| ZCodeEvents.TurnIncreases | remote-agent/zcode_app_server.py:470-639 | over any run of polls the seqs forwarded strictly increase; none is forwarded twice |
| ZCodeEvents.TurnForwardsTheLog | remote-agent/zcode_app_server.py:574-639 | when every response shows one log up to some entry, exactly the entries shown are forwarded, in order |
| ZCodeEvents.ResponseWithoutSeq | remote-agent/zcode_app_server.py:625-639 | of the events without seq exactly those outside the prior set are forwarded, repeats in one response included |
| ZCodeEvents.MemoryIsOnePoll | remote-agent/zcode_app_server.py:583-605 | what a poll is compared with is what the poll before it forwarded; for the tail poll, the one before that |
| ZCodeEvents.SeqlessForwarding | remote-agent/zcode_app_server.py:583-639 | a regular poll forwards an event without seq if and only if the previous poll did not |
| ZCodeEvents.OncePerTurnCharacterised | remote-agent/zcode_app_server.py:583-639 | in any turn such an event is forwarded at most once if and only if it shows up in no two regular polls but neighbours and, should the tail poll show it, in no regular poll or first in the one before the completing poll |
| ZCodeEvents.RedeliveryCounterexample | remote-agent/zcode_app_server.py:613-639 | shown by three polls in a row, it is forwarded by the first and the third |
| ZCodeEvents.TailRepeats | remote-agent/zcode_app_server.py:598-605 | the tail poll repeats what the completing poll has just forwarded |
| ZCodeTurn.PollsAreFew | remote-agent/zcode_app_server.py:581-607 | a poll that can still begin within timeout T is among the first 4 + T/2 |
| ZCodeTurn.EndsMeans | remote-agent/zcode_app_server.py:641-711 | what ends a turn: a turn.completed event, or a state update to idle |
| ZCodeTurn.TurnWorker.ForwardEvents | remote-agent/zcode_app_server.py:613-639 | the loop over a response: new state, events forwarded, and whether one of them ends the turn |
| ZCodeTurn.TurnWorker.DrainEventsUntilIdle | remote-agent/zcode_app_server.py:574-611 | state and output are those of the polls made; at most 4 + T/2 of them; without completion it stops only when the time is up, the session is stopped or the server has no answer, and then at once; it completes if and only if a forwarded event ended the turn, and then the tail has been asked for |
| ZCodeCorrelation.EveryRunIsCorrelated | remote-agent/zcode_app_server.py:784-815 | the invariant that ties every call, holder and the reader to the first response to the call's id |
| ZCodeCorrelation.OwnAnswerOnly | remote-agent/zcode_app_server.py:957-989 | a requester only gets a response to its own id, sent after it asked, and the first one |
| ZCodeCorrelation.PendingExactly | remote-agent/zcode_app_server.py:964-979 | an id is in `_pending` if and only if its call has not returned and no response to it has come; a call that raised has not returned |
| ZCodeCorrelation.RaisedStaysPending | remote-agent/zcode_app_server.py:964-975 | a call that raised stays so in every continuation, and its id stays in `_pending` until a response comes |
| ZCodeCorrelation.RaisedExample | remote-agent/zcode_app_server.py:968-975 | two steps that leave an id behind |
| ZCodeCorrelation.LateResponsesChangeNothing | remote-agent/zcode_app_server.py:801-810 | late and duplicate responses leave no trace |
| ZCodeCorrelation.WaitersAreWoken | remote-agent/zcode_app_server.py:976-989 | a waiting call can be woken if and only if its response has been handled, and time out if and only if not |
| ZCodeCorrelation.CallsRunTheirCourse | remote-agent/zcode_app_server.py:957-989 | over any run the stage of a call is decided by what its thread has done: a body is returned exactly after a write and a wait that was woken, and nothing after a failed write or a timeout, once the entry has been dropped |
| ZCodeCorrelation.NextActs | remote-agent/zcode_app_server.py:957-989 | and what its thread can do next is, too: nothing is skipped and nothing done twice |
| ZCodeCorrelation.RunsUntilExit | remote-agent/zcode_app_server.py:957-967 | the process runs until it exits; a call that begins later returns nothing at once |
| ZCodeCorrelation.HoldersSettle | remote-agent/zcode_app_server.py:801-810 | a holder is resolved at most once, over every continuation of a run |
| ZCodeCorrelation.EveryRequestHasOnePlace | remote-agent/zcode_app_server.py:817-940 | conservation: every server request is recorded, at the reader, claimed, answered or given up, and exactly one of these |
| ZCodeCorrelation.AnsweredAtMostOnce | remote-agent/zcode_app_server.py:817-940 | at most one reply per server request |
| ZCodeCorrelation.RepliesAreRight | remote-agent/zcode_app_server.py:844-912 | over any run: unattended, a question to the user got a decline and a permission an allow; attended, both got the user's answer; any other method got an error that names it, in either |
| ZCodeCorrelation.TextsAreTheUsers | remote-agent/zcode_app_server.py:914-940 | the text of each of the user's answers is that of a claim of the same id |
| ZCodeCorrelation.ClaimedAtMostOnce | remote-agent/zcode_app_server.py:924-932 | of any number of responders at most one claims a request; later claims change nothing |
| ZCodeCorrelation.ToldMeansClaimable | remote-agent/zcode_app_server.py:829-842 | a user who has been told of a request finds it on record unless it has been claimed |
| ZCodeCorrelation.AnswerIsPossible | remote-agent/zcode_app_server.py:914-955 | on a text pipe, at any point of any run, a request that was not given up can be answered in at most two more steps while the process runs |
| ZCodeCorrelation.RepliesNeedATextPipe | remote-agent/zcode_app_server.py:942-955 | so such a request can still be answered if and only if the pipe takes text |
| ZCodeCorrelation.LossesAreDropped | remote-agent/zcode_app_server.py:942-955 | the replies given up are as many as the writes with the process gone, failed, or to a binary pipe |
| ZCodeCorrelation.NothingIsLost | remote-agent/zcode_app_server.py:817-955 | without such a write every request is on record or answered, once nobody is about to write; with one, some request is lost |
| ZCodeCorrelation.ReaderDiesOnBinaryPipe | remote-agent/zcode_app_server.py:817-955 | over any run: while the process runs, the reader is dead if and only if it has answered a server request itself on a binary pipe |
| ZCodeCorrelation.DeadlyMessages | remote-agent/zcode_app_server.py:784-912 | of which message it dies: a server request that it answers itself, on a binary pipe |
| ZCodeCorrelation.DeadReaderStrandsCalls | remote-agent/zcode_app_server.py:756-782 | and from then on no call returns a response that had not arrived before |
| ZCodeSession.AppServerSession.HandleMessage | remote-agent/zcode_app_server.py:784-815 | the handler is the sequence of the reader's steps on that message |
| ZCodeSession.AppServerSession.HandleServerRequest | remote-agent/zcode_app_server.py:817-912 | recorded and forwarded in interactive mode; otherwise a question is declined, a permission allowed and any other method refused by name, at once |
| ZCodeSession.AppServerSession.SendInteractionResponse | remote-agent/zcode_app_server.py:914-940 | claim and reply; false, with nothing changed, for an id not on record |
| ZCodeSession.AppServerSession.Request | remote-agent/zcode_app_server.py:957-989 | a whole call returns the first response to its id among all that arrives in time, and leaves no id behind |
| RestartProtocol.AtMostOneAlive | remote-agent/executor.py:1567-1703 | after any interleaving at most one process of a session is alive, spawned but unregistered ones counted, but for those that stop() gave up on |
| RestartProtocol.BreaksAtMostOne | remote-agent/executor.py:1567-1703 | a step ends at-most-one-alive if and only if it starts a successor beside a live process of the session that stop() gave up on |
| RestartProtocol.NeverTwoCharacterised | remote-agent/executor.py:1567-1703 | a run never has two processes of a session alive if and only if no step of it does that |
| RestartProtocol.FailedStopLeavesTwo | remote-agent/executor.py:1596-1598 | a run in which a swallowed error leaves two alive |
| RestartProtocol.ReplacedAtMostOnce | remote-agent/executor.py:1683-1684 | each session object is replaced at most once, is in no entry of the registry from then on, and is dead but for those that stop() gave up on |
| RestartProtocol.StoppedBeforeSpawn | remote-agent/executor.py:1586-1650 | whoever spawns holds the lock of the registered object, and its process has ended or stop() gave up on it |
| RestartProtocol.DeadStaysDead | remote-agent/executor.py:1567-1703 | no continuation of a run brings a process back |
| RestartProtocol.ProcessesEnd | remote-agent/executor.py:1567-1703 | a process lives until it exits or a stop() ends it, and its exit is noticed by a poll or by that stop() |
| RestartProtocol.NoOrphans | remote-agent/executor.py:1635-1684 | every live process is registered, or about to be by the thread that holds the registered object's lock |
| RestartProtocol.LateCallerSpawnsNothing | remote-agent/executor.py:1588-1594 | a caller that finds another object succeeds without a restart; what it had seen has been replaced |
| RestartProtocol.NoDeadlock | remote-agent/executor.py:1586-1703 | a call under way can step, or the holder of the lock it waits for can |
| RestartProtocol.ReturnsMean | remote-agent/executor.py:1567-1703 | over any run, the step in which a call returns and what it returns: not found exactly without a registered session, no tool, spawn failed and an exception each for one step, and on success the pid of the registered process or of one registered before, or none if the process has ended |
| RestartExecutor.ProcessExecutor.UnderRestartLock | remote-agent/executor.py:1585-1703 | from the lock on, whatever other threads did before: the objects, the registry and the result are those of the protocol's steps; the pid of another caller's process, or how its own attempt ended |
| RestartExecutor.ProcessExecutor.RestartSession | remote-agent/executor.py:1567-1703 | one call on its own is a run of the protocol, for each way the environment behaves, and which result it returns for each |
| TerminalNewlines.OnePassGivesEachLfItsCr | remote-agent/terminal_server.py:514-522 | in the one-pass output every LF is preceded by CR |
| TerminalNewlines.OnePassFixpoints | remote-agent/terminal_server.py:514-522 | one pass leaves a stream alone if and only if every LF in it has its CR |
| TerminalNewlines.OnePassIdempotent | remote-agent/terminal_server.py:514-522 | normalising twice is normalising once |
| TerminalNewlines.OnePassKeepsTheRest | remote-agent/terminal_server.py:514-522 | with every CR LF read as LF the stream is the same before and after: nothing else is added, lost or moved |
| TerminalNewlines.FlagLeft | remote-agent/terminal_server.py:527-559 | when the flag is up after a chunk: it ends in CR, or the flag was up and it is nothing but CR LF |
| TerminalNewlines.EmittedVersusOnePass | remote-agent/terminal_server.py:527-561 | chunk and one pass differ, byte by byte, in at most one LF |
| TerminalNewlines.RelayedVersusOnePass | remote-agent/terminal_server.py:514-561 | over a stream of chunks: the output is the one-pass output less one CR for each LF missed |
| TerminalNewlines.SplitInvariance | remote-agent/terminal_server.py:514-561 | the output equals the one-pass output if and only if no split leaves the flag stale |
| TerminalNewlines.UnlessPairFollowsCr | remote-agent/terminal_server.py:514-561 | in particular when no chunk that ends in CR is followed by one that begins with CR LF |
| TerminalNewlines.StaleExample | remote-agent/terminal_server.py:531-538 | CR, then CR LF LF: the last LF goes out alone |
| TerminalNewlines.PipeTerminal.NormalizeLoneLf | remote-agent/terminal_server.py:514-561 | the loop computes the output and the flag of the specification |
| TerminalNewlines.PipeTerminal.RelayChunks | remote-agent/terminal_server.py:587-590 | chunk after chunk: the relayed stream, and when it is the one-pass stream |
| TerminalHistory.BufferIsAlwaysGood | remote-agent/terminal_server.py:458-465 | the buffer is a suffix of all output, at least min(64 KiB, total) and at most 128 KiB long |
| TerminalHistory.NothingDroppedBefore | remote-agent/terminal_server.py:458-465 | up to 128 KiB of output nothing has been dropped |
| TerminalHistory.OutputGoesOn | remote-agent/terminal_server.py:446-465 | whoever holds the buffer lock is sending a history and can end it |
| TerminalHistory.GapFree | remote-agent/terminal_server.py:433-477 | an attached client with its history has received every byte from the last 64 KiB before its history step to the last delivered, and nothing else |
| TerminalHistory.SeenTwice | remote-agent/terminal_server.py:446-477 | which bytes it has received twice |
| TerminalHistory.InOrderExactly | remote-agent/terminal_server.py:433-477 | an attached client has received the output in order if and only if its history begins where the broadcasts it had by then end, or later, or it had none; and if nothing was broadcast to it since, unless all that was buffered at its snapshot had been broadcast to it before |
| TerminalHistory.TwiceAndOutOfOrder | remote-agent/terminal_server.py:433-477 | a run after which an attached client has a byte twice and its output out of order |
| TerminalHistory.WithoutHistory | remote-agent/terminal_server.py:453-456 | after a failed history send only what came after attaching is there |
| TerminalHistory.TerminalServer.SendHistoryToWebSocket | remote-agent/terminal_server.py:446-456 | what is sent is the last 64 KiB of all output |
| TerminalHistory.TerminalServer.BroadcastOutput | remote-agent/terminal_server.py:458-477 | buffer, inboxes and the set of clients after a broadcast |
| TomlValues.ChainIsOnePass | remote-agent/cli_settings.py:108-123 | the chains of `replace` escape every character once, for keys and for values |
| TomlValues.EscapedRoundTrip | remote-agent/cli_settings.py:108-123 | reading inverts escaping on clean text, and fails on any other |
| TomlValues.KeyRoundTrip | remote-agent/cli_settings.py:108-112 | bare and quoted keys are read back; an unclean key makes the reader fail or stop at a newline |
| TomlValues.IntRoundTrip | remote-agent/cli_settings.py:126-127 | decimal integers are read back |
| TomlNested.ValueRoundTrip | remote-agent/cli_settings.py:115-136 | nested lists and inline tables are read back if and only if they are clean |
| TomlTables.TableBuilds | remote-agent/cli_settings.py:139-161 | the lines of a table build that table at its path and touch nothing else |
| TomlTables.OrderDoesNotMatter | remote-agent/cli_settings.py:139-161 | scalars first and tables after them come to the same table |
| Toml.LineRoundTrip | remote-agent/cli_settings.py:147-151 | a printed line is read back if and only if it is clean |
| Toml.HeadersOnceAndInOrder | remote-agent/cli_settings.py:139-161 | every table header is printed once, after that of its parent |
| Toml.TomlRoundTrip | remote-agent/cli_settings.py:164-168 | for every nested dict: reading the dump gives the same tables if and only if keys and strings are clean, and fails otherwise |
| Toml.EscapesLookLike | remote-agent/cli_settings.py:108-123 | the escapes of a string, character by character, and of a quoted key |
| Toml.InlineTablesLookLike | remote-agent/cli_settings.py:130-135 | an inline table in braces, with its commas and equals signs |
| Toml.TablesLookLike | remote-agent/cli_settings.py:139-161 | a table's own values come before the headers of its sub-tables, whatever the order of its entries |
| Toml.NewlineKeyExample | remote-agent/cli_settings.py:108-110 | a key that ends in a newline is printed bare and not read back |
| Toml.DumpTomlTable | remote-agent/cli_settings.py:139-161 | the recursion appends the lines of the table to the shared list |
| Toml.DumpToml | remote-agent/cli_settings.py:164-168 | the text of the dump, and its round trip |
| Dicts.DeepMergeDicts | remote-agent/cli_settings.py:66-74 | the loop computes the deep merge |
| Dicts.GetMerge | remote-agent/cli_settings.py:66-74 | the merge, key by key |
| Dicts.SetKeepsOrder | remote-agent/cli_settings.py:66-74 | a value set keeps the place of its key; a new key comes last |
| Dicts.MergeKeepsOrder | remote-agent/cli_settings.py:66-74 | the keys of the base in their order, then the new ones in theirs |
| Dicts.MergeIsIdempotent | remote-agent/cli_settings.py:66-74 | merge(merge(a, b), b) == merge(a, b), order of entries included |
| Dicts.MergeAt | remote-agent/cli_settings.py:66-74 | the merge, path by path: what the updates say nothing about is as it was, and at every other path stands what they say |
| Dicts.CleanByPaths | remote-agent/cli_settings.py:108-161 | a dict can be printed and read back if and only if that is so at each of its paths |
| CodexSettings.DynamicKeysDeclared | remote-agent/constants.py:54-73 | the extra credential names are exactly those that some model of some provider declares |
| CodexSettings.StrippedEnv | remote-agent/cli_settings.py:77-87 | no known or declared credential is left in the env block; every other variable and setting stays |
| CodexSettings.StripFailsExactly | remote-agent/cli_settings.py:77-87 | stripping raises if and only if `modelProviders` is there and no dict, or `env` is truthy and no dict |
| CodexSettings.AuthModeIsExclusive | remote-agent/cli_settings.py:334-341 | exactly one of the two auth fields, the token if there is one that is not empty; nothing else changes |
| CodexSettings.ProviderKeepsRest | remote-agent/cli_settings.py:322-330 | the active provider keeps its name and API or gets the defaults, and keeps every field that is not set |
| CodexSettings.ActiveIsNamed | remote-agent/cli_settings.py:271-281 | the active provider is the one that `model_provider` names, if that is a string and not empty, and openace otherwise |
| CodexSettings.NormalizedActive | remote-agent/cli_settings.py:312-319 | normalising leaves it the active one, and supplies `model_provider` if it is missing |
| CodexSettings.DefaultsByName | remote-agent/cli_settings.py:306-330 | by name: the summary setting and the provider's name and API get their defaults only where the caller gives none |
| CodexSettings.NormalizeKeepsRest | remote-agent/cli_settings.py:310-331 | two defaults are supplied; every other setting and every other provider stays |
| CodexSettings.RecalibrateAt | remote-agent/cli_settings.py:334-341 | setting the auth mode again touches the two auth fields of the active provider and no other path |
| CodexSettings.RecalibrateIsClean | remote-agent/cli_settings.py:334-341 | the result can be printed if and only if the token can and all but those two fields could |
| CodexFile.WrittenIsClean | remote-agent/cli_settings.py:432-440 | what is written can be printed if and only if the request can and everything in the old file that the request does not replace |
| CodexFile.WriteIsExclusive | remote-agent/cli_settings.py:367-440 | for any old file: after a write the active provider has exactly one auth field if and only if that holds; otherwise the file cannot be read and counts as empty |
| CodexFile.UncleanLosesAll | remote-agent/cli_settings.py:432-440 | one unclean key or string that the request does not replace, and the whole file is lost |
| CodexFile.EscapeExample | remote-agent/cli_settings.py:98-105 | a file with one escaped ESC is such a file |
| CodexFile.WritePreserves | remote-agent/cli_settings.py:432-440 | a leaf the normalised settings say nothing about, outside those two fields, keeps its value if and only if what is written can be printed |
| CodexFile.WriteSets | remote-agent/cli_settings.py:432-440 | a leaf of the normalised settings is in the file, with the same exception and the same condition |
| CodexFile.WriteRoutes | remote-agent/cli_settings.py:319-331 | the base URL of the active provider is the proxy's, exactly then |
| CodexFile.WriteByName | remote-agent/cli_settings.py:310-440 | by literal paths: after a write that can be printed the table of the provider that `model_provider` names, or openace, holds the proxy's URL and exactly one of token and `env_key`; after any other the file counts as empty |
| CodexFile.TokenLands | remote-agent/cli_settings.py:390-440 | a call as a whole: the token can be loaded afterwards if and only if it was given, had the proper format, was not opted out of, and the file could be printed |
| CodexFile.ClearIsSafe | remote-agent/cli_settings.py:451-505 | after clearing any file no token can be loaded for the active provider; a file from which none can be loaded is left alone, text and all; one with a token becomes exclusive and keeps every other leaf if and only if all else in it is clean, and is lost otherwise |
| CodexFile.ClearByName | remote-agent/cli_settings.py:451-505 | by literal paths: no token is left for the provider that the file names, or openace; without one the file is untouched; a cleared one gets `env_key` |
| CodexFile.ClearAfterWrite | remote-agent/cli_settings.py:367-505 | a clear right after a write changes the file if and only if the write persisted a token and could be printed; otherwise a token that was written stays in the text |
| CodexFile.ClearTwice | remote-agent/cli_settings.py:475-505 | a second clear of any file changes nothing |
| CodexFile.ExclusiveAfterRun | remote-agent/cli_settings.py:367-505 | over any sequence of writes and clears that begins with a write: exclusive if and only if the last write could be printed, empty otherwise |
| CodexFile.AlwaysExclusive | remote-agent/cli_settings.py:367-505 | so from a clean file clean requests and clears keep it exclusive in any order |
| CodexFile.CodexConfig.WriteCodexSettings | remote-agent/cli_settings.py:367-448 | the read-modify-write of the file, format check and opt-out included |
| CodexFile.CodexConfig.ClearCodexBearerToken | remote-agent/cli_settings.py:451-505 | the same for clearing |
| PartsScanner.ResyncIsFirstTopComma | remote-agent/session_sync.py:743-775 | the scan stops just past the first separating comma, in (i, len(s)] |
| PartsScanner.ResyncLands | remote-agent/session_sync.py:743-775 | it stops behind a malformed segment if and only if the segment is balanced, closed and free of separating commas |
| PartsScanner.ObjectsAreSelfContained | remote-agent/session_sync.py:743-775 | objects and arrays with strings in them, braces and escaped quotes inside the strings included, are such segments |
| PartsScanner.OpenOnesAreNot | remote-agent/session_sync.py:743-775 | an open brace, an open string and an outer comma are not |
| PartsScanner.SeparatorsAreSkipped | remote-agent/session_sync.py:715-722 | blanks and commas before an object change nothing |
| PartsScanner.ExtractsTheTexts | remote-agent/session_sync.py:700-740 | the texts of the objects come out in order, and such malformed segments change nothing |
| PartsScanner.NextObjectStart | remote-agent/session_sync.py:743-775 | the loop computes that position |
| PartsScanner.ExtractPartsText | remote-agent/session_sync.py:700-740 | the nested loops terminate and compute the extraction |
| EnvFile.RenderedRoundTrip | scripts/bootstrap_compose_env.py:30-39 | a rendered line is parsed to what was rendered |
| EnvFile.ParsesExactly | scripts/bootstrap_compose_env.py:30-39 | which lines bind anything: a name at the very start, an equals sign, and a text on one line |
| EnvFile.QuotesAreDropped | scripts/bootstrap_compose_env.py:35-38 | one pair of equal quotes around a value goes, with the white space around it; what is inside stays as it is |
| EnvFile.OthersAreKept | scripts/bootstrap_compose_env.py:35-38 | a trimmed value whose ends are not two equal quotes stays, different quotes at its ends included; white space around it goes |
| EnvFile.BlankIsEmpty | scripts/bootstrap_compose_env.py:30-39 | an empty value is bound to the empty text |
| EnvFile.ReadBackIffPlain | scripts/bootstrap_compose_env.py:30-39 | a value is read back if and only if it has no newline, no white space at either end, and not two equal quote characters as its ends |
| EnvFile.UpdateLaw | scripts/bootstrap_compose_env.py:113-128 | parsing the updated lines gives the parsed lines overridden by the additions |
| EnvFile.UpdateKeepsLines | scripts/bootstrap_compose_env.py:113-128 | all other lines keep place and content; new keys follow in order |
| EnvFile.UpdatedLinesAreEnded | scripts/bootstrap_compose_env.py:113-128 | lines stay apart: every line of the update ends like one, if all but the last did before |
| EnvFile.ParseEnv | scripts/bootstrap_compose_env.py:30-39 | the loop computes the parse, line by line, a later line winning |
| EnvFile.UpdateLines | scripts/bootstrap_compose_env.py:113-128 | the position map and the edits compute the update |
| ComposeEnv.SuccessValidates | scripts/bootstrap_compose_env.py:151-201 | a run that succeeds leaves a file that validates, keeps every value that was there, and invents a database password only if there is surely no older volume |
| ComposeEnv.SecondRunKeeps | scripts/bootstrap_compose_env.py:151-201 | a second run adds nothing and changes nothing, and the check passes |
| ComposeEnv.MissingGets | scripts/bootstrap_compose_env.py:97-110 | after a run that succeeds a missing setting has the shell's value, or production for the mode, or a random value of its own |
| ComposeEnv.RefusesExactly | scripts/bootstrap_compose_env.py:151-199 | a run is refused if and only if a setting differs between shell and file, the password is missing without proof that there is no volume, a shell value to be stored is unsafe, or a setting of the outcome fails |
| ComposeEnv.ChecksExactly | scripts/bootstrap_compose_env.py:163-180 | the check passes if and only if shell and file agree and every setting, the shell's first, meets its rule |
| ComposeEnv.ValidMeans | scripts/bootstrap_compose_env.py:42-55 | those rules in literal numbers and names |
| ComposeEnv.Validate | scripts/bootstrap_compose_env.py:42-55 | the settings reported are exactly those that fail, in the source's order |
| ComposeEnv.ComposeProject.Bootstrap | scripts/bootstrap_compose_env.py:151-201 | the decisions in order, and the file after them |
| ConfigFiles.SealedRoundTrip | remote-agent/config.py:174-228 | the checksum line is split off and validated, and the data comes back |
| ConfigFiles.PlainRoundTrip | remote-agent/config.py:188-195 | so does data written without a checksum |
| ConfigFiles.HeldIsRecovered | remote-agent/config.py:111-140 | a valid file is recovered whatever the backup holds |
| ConfigFiles.BackupIsRecovered | remote-agent/config.py:126-138 | a damaged file is made up for by the backup |
| ConfigFiles.EmptyFallsBack | remote-agent/config.py:117-130 | an empty object in the file counts as no configuration: the backup is used |
| ConfigFiles.ChecksumDecides | remote-agent/config.py:174-228 | a last line that is the tag and a word decides: the text before it is parsed if the word is its hash, and rejected otherwise |
| ConfigFiles.DamageIsDetected | remote-agent/config.py:111-140 | so a configuration whose checksum is wrong is never used: the backup is, or the defaults are |
| ConfigFiles.StoredOverDefaults | remote-agent/config.py:106-120 | what is stored wins over the defaults, key by key |
| ConfigFiles.NoFileNoBackup | remote-agent/config.py:111-140 | without a configuration file the backup is not looked at |
| ConfigStore.Disk.Write | remote-agent/config.py:383-384 | a write can stop after any prefix; the states on the way are those prefixes in that file, and nothing else differs |
| ConfigStore.AgentConfig.Save | remote-agent/config.py:367-399 | at every crash point the configuration is the old text or the whole new one; on a disk whose operations succeed it is the new one, and the backup the old |
| ConfigStore.AgentConfig.SaveAgentTokenAtomic | remote-agent/config.py:413-483 | the same for the atomic token save, which raises if and only if the old text is still there, and never on such a disk |
| ConfigStore.AgentConfig.ReplaceConfig | remote-agent/config.py:447-483 | after a failure the temporary file is gone, or its removal has been tried and failed |
| ConfigStore.CrashSafe | remote-agent/config.py:367-483 | so a new process recovers exactly the old or the new data |
| TokenRotation.RemoteAgent.CmdRotateToken | remote-agent/agent.py:809-884 | the data after a rotation, the fallback included, and what the disk can show at each crash point |
| TokenRotation.StepsAreOpen | remote-agent/agent.py:809-884 | the runs below leave nothing out: whatever a rotation or an update has brought to the disk, in either form, is a step |
| TokenRotation.StartsOnWhatWasSaved | remote-agent/config.py:106-140 | and they can begin without a configuration file, or on any that was saved |
| TokenRotation.DiskIsNeverAhead | remote-agent/agent.py:809-884 | over any run of rotations, other updates, failed saves, crashes and restarts the version on disk never exceeds that in memory |
| TokenRotation.NoMixedPair | remote-agent/agent.py:860-880 | so at any crash point of any rotation in such a run the disk never pairs another token with the new version |
| TokenRotation.VersionFallsExactly | remote-agent/agent.py:809-884 | a step lowers the version in memory if and only if a process starts in it, on a configuration file that the step has left unchanged, while the disk's version lags behind |
| TokenRotation.NeverFallsCharacterised | remote-agent/agent.py:809-884 | over any run of rotations, updates, failed saves, crashes and restarts the version never falls if and only if no step of the run does that |
| TokenRotation.OvertakenStaysOut | remote-agent/agent.py:830-842 | in such a run a command that has been overtaken at any time is refused ever after |
| TokenRotation.KeepsOutCharacterised | remote-agent/agent.py:830-842 | and only in such a run, if the server accepts any token at all |
| TokenRotation.OvertakenAccepted | remote-agent/agent.py:833-880 | after failed saves and a restart a command that had been overtaken is accepted again |
| TokenRotation.RotatedHolds | remote-agent/agent.py:825-880 | the stored data and the pair of token and version move together |
| TokenRotation.RotatesExactly | remote-agent/agent.py:825-880 | a command is taken if and only if its token is at least 16 characters long and accepted by the server and its version, if it has one, is above the stored one; then exactly those two entries change |
| TokenRotation.EndsWithTheBest | remote-agent/agent.py:825-880 | after any commands: the initial pair, or that of the highest version the probe accepts; within a process the version never falls |
| TokenRotation.OrderDoesNotMatter | remote-agent/agent.py:825-880 | two deliveries of the same commands, in any order and with any repetition, end the same |

## Left out

- Text messages are bytes: decoding UTF-8, and exceptions raised by `recv`, are not modelled.
- `recv_message` and `_drain_events_until_idle` are one function each in the source; here their loop bodies are split into methods.
- A send that fails has written nothing: partial writes of `sendall` are not modelled.
- The WebSocket handshake, and what closes mean to the peer.
- Events are equal exactly when their hashes are; what an event is turned into for the callbacks is not modelled.
- Creating and resuming ZCode sessions, and the retry in a fresh session.
- ZCodeSession: one call at a time; the interleavings are those of ZCodeCorrelation.
- RestartExecutor: the body of `_restart_session` is split into methods at the lock and at each step of the protocol.
- Ids of requests are fresh and ids of server requests distinct; exceptions other than a failed or a mistyped write are a single step.
- Restarts run against restarts only: no concurrent start or stop of a session, no process trees, no stream readers.
- RestartProtocol: `is_running` and `pid` are read in the same step as the registry.
- The terminal's own input, resizing, and the message sent when the process exits.
- Lines of a Windows code page are bytes already decoded.
- Floats and dates in TOML, and integers too long for Python to print.
- Toml.TomlRoundTrip: the reader accepts what the printer can print, not all of TOML.
- CodexFile: of the TOML library it is assumed that on what the printer prints it agrees with the reader of this model; on other texts it may return any dict, or none.
- Writes of Codex settings are whole: the lock, temporary files and permissions are not modelled.
- Settings dicts are values: that normalising writes into the caller's nested provider table is not captured.
- The list of well-known credential variables and the format of proxy tokens are parameters.
- The settings writers of the other tools.
- What JSON values look like is left to the decoder; only its progress and its verdicts on the segments matter.
- `.env` files are lists of lines: that writing and reading them again gives the same lines is not modelled.
- The name of the Compose project, file modes, and the lock around the bootstrap.
- Loss of data that was written but not synced: a crash keeps what the steps before it wrote.
- The rotation of backups, the Windows branch, and overrides from the environment.
- The confirmation and the error report that a rotation sends.
- Commands without a version bypass the filter; the result on delivery orders is about versioned ones.
