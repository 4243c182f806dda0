# Verification of the picoswarm session core

A Dafny 4.11 model of picoswarm (`pswarm`), a daemon that keeps agents on pseudo-terminals
and lets clients attach to them. It covers how output reaches an attached client, how
keystrokes reach the agent and where they stop, how the file inbox survives crashes, and how
the registry keeps its two indexes. `dafny verify dfyconfig.toml` checks everything.

## Main results

* **Output streaming** (`AttachProtocol`, `AttachProofs`, `AttachHistory`, `AttachTheorems`,
  `AttachFrames`).
  PTY reader thread, session task, any number of attach and view handlers and the registry
  entry are one transition system of 30 kinds of steps. A chunk broadcast, the final broadcast
  and the dropping of a handler's locals are split into one step per send or drop, and every
  interleaving is a run. In every reachable state: backlog and live output join without gap or
  duplicate; a client's output is one unbroken piece of the agent's output; the end of the
  session comes last, once, after all output and after the death mark; the `attached` flag is
  held by exactly one handler; there is at most one live event receiver; the session task never
  discards output while anybody is attached.
* **The client's loop** (`AttachClient`). For every order of sends, reads and failures: the
  client prints a start of the output it was sent and reports only what it was told. It reports
  the last frame *exactly* when it reads it before anything fails; a failing send of a queued
  keystroke makes it report a lost connection for a session that ended properly.
* **Replies** (`AttachReplies`). No request is lost; exactly when a view can be answered; exactly
  how long an acknowledged attach can still fail; a handler can always leave, and then the next
  client can attach.
* **Detach matcher** (`DetachMatcher`, `DetachKey`). The online matcher gives the answer for the
  whole input, however the terminal cuts it into reads, *exactly* for the triggers that satisfy
  `ChunkSafe`; every trigger that the configuration parser accepts does.
* **Keystrokes end to end** (`ClientInput`, `PtyInput`). What an attached client contributes to
  the PTY never goes past the detach trigger, in any run of terminal reads, client loop, handler
  and other writers. A failed PTY write does not stop later
  ones, so the contribution can have holes; it is certain to be a prefix exactly when nothing
  follows a short write (`PrefixIffNothingAfterShort`).
* **Inbox** (`Inbox`, `Decimal`). At-least-once delivery for every interleaving of posts, reader
  steps, restarts and crashes, including a crash between any two characters of a cursor write;
  exactly once without crashes. The drain loop is one run of that machine.
* **Registry** (`Registry`, `Removal`). Two hash indexes refine one table over every operation
  sequence, and the methods on the mutable entries and inbox files agree with it. A removal
  finishes without the lock: the mail of a listed agent survives every interleaving in which the
  agent stays listed *exactly* when no removal of its name is pending.
* **Codecs** (`Framing`, `SpawnTemplate`). Message sequences survive any split of the byte
  stream into reads; a spawn template element is accepted exactly when it reads as literals and
  `{name}`.

Loops and objects of the original are loops and classes here: `Ring.RingBuffer`,
`Session.SessionTask`, `Inbox.Reader`, `Registry.AgentEntry`, `Registry.AgentRegistry`,
`Framing.Sink`, `Framing.Source` and the methods named after the original functions. Each is
proved against a function or relation, and the theorems are about that or, for the session task
and the inbox reader, about a transition system that lemmas join to it (`TakeChunkRefines`,
`ServeSubscribeRefines`, `EndRefines`, `DrainIsRun`).

## Steps of the models

| definitions | source |
|---|---|
| `AttachProtocol.DoReadChunk`, `CloseReader` | `src/daemon/session.rs:129-151` |
| `AttachProtocol.MarkDead` (by a status poll) | `src/daemon/registry.rs:173-187`, `src/daemon/registry.rs:234-243` |
| `AttachProtocol.DoUnlist`, `DoDropEntry` (the last clone outside attach and view handlers goes) | `src/daemon/registry.rs:198-209` |
| `AttachProtocol.DoTakeChunk`, `DoSendOne`, `DoSendDone` | `src/daemon/output_session.rs:89-95` |
| `AttachProtocol.DoTakeEof`, `DoEndOne`, `DoEndDone`, `Session.ExitCode` | `src/daemon/output_session.rs:96-107`, `src/daemon/session.rs:91-101` |
| `AttachProtocol.DoServeRequest` | `src/daemon/output_session.rs:109-121` |
| `AttachProtocol.DoNoInboxes`, `DoDiscard`, `DoDrainDone` | `src/daemon/output_session.rs:122-131` |
| `AttachProtocol.DoNewAttach`, `StepAttach` from `CompareExchange` to `WriteBacklog` | `src/daemon/server.rs:469-541` |
| `AttachProtocol.StepRecv`, `StepFail`, `StepAttach` for `RecvNone` and `Detach` | `src/daemon/server.rs:545-613` |
| `AttachProtocol.StepAttach` for `DropEvents`, `DropGuard`, `DropHandles` (locals, last declared first) | `src/daemon/server.rs:447-455`, `src/daemon/server.rs:481-526` |
| `AttachProtocol.DoNewView`, `DoEndView` | `src/daemon/server.rs:293-305` |
| `AttachClient.OneTurn`, `ClientRun` | `src/client/attach.rs:114-144` |
| `PtyInput.Do` | `src/daemon/server.rs:317-331`, `src/daemon/server.rs:578-595` |
| `ClientInput.DoStep` (one message at a time) | `src/daemon/server.rs:568-606` |
| `Removal.Apply` | `src/daemon/registry.rs:150-266` |
| `Inbox.Do` | `src/client/inbox.rs:86-160` |
| `Registry.Insert`, `Lookup`, `Remove`, `RemoveIds` | `src/daemon/registry.rs:150-266` |
| `DetachKey.Parts`, `ModifierOf`, `CtrlRawByte`, `CsiU` | `src/config.rs:77-123`, `src/config.rs:223-236` |

## Assumptions

* Entry ids are fresh (UUID v4), mutexes are not poisoned, channels are FIFO and unbounded.
* A socket frame is sent and received whole; an inbox append is atomic.
* The payload codec is a parameter that round-trips. An encoded inbox message is a non-empty
  byte string without a raw newline and without a carriage return at its end, as JSON text is
  (section 7 of RFC 8259), and parses as JSON.
* At most one inbox reader runs at a time, the inbox is append-only while it is in use, and no
  cursor file outlives the inbox it belongs to.
* Line counts stay below 2^64.

## Where code and documentation differ

The model follows the code.

* `docs/protocol.md:194` says that a dead agent still answers `View`. It can be answered exactly
  when it is asked for before the session task sees the end of the PTY
  (`AttachReplies.NewViewIsAnswerable`); `AttachSample.DeadViewUnanswered` reaches a dead agent
  whose view is never answered, `AttachSample.DeadViewAnswered` one whose view is.
* `docs/protocol.md:144` has either `Ok` or `Error` after `Attach`. When the session task returns
  before it serves the subscription, the client gets `Ok` and then `Error`
  (`src/daemon/server.rs:521-537`, `AttachSample.OkThenErrorHappens`). That can still happen
  exactly as long as the subscription has not been served (`AttachReplies.AttachCanFail`).
* `docs/protocol.md:225` caps `Stdout` at 16 KB per frame. An attached client is sent a larger
  frame exactly when the agent had written more than that before the client subscribed and the
  backlog has gone out (`AttachFrames.AttachAboveCap`). A view is answered with one exactly when
  the agent has written more than that (`AttachFrames.ViewAboveCap`). Both happen
  (`AttachSample.LargeFrame`, `AttachSample.LargeView`).
* `src/config.rs:69-71` promises exactly one modifier and a printable key. Any two names of ctrl
  are accepted, with any plain key (`DetachKey.RepeatedCtrlIsAccepted`; the texts are
  `RepeatedCtrlExample` and `UnprintableKeyExample`). A text names exactly one modifier exactly
  when it has no plus sign after its first one (`DetachKey.TwoPartsIff`); the accepted texts are
  exactly those of `DetachKey.Accepts`.
* `docs/decision-log.md:870-871` says that only newline-terminated inbox lines count.
  `BufRead::lines` also yields an unterminated last line: the count agrees exactly for a file
  that is empty or ends with a newline (`Inbox.UnterminatedLineCounts`).
* `src/client/attach.rs:73` reports a session that ended without exit code. The daemon always
  sends one (`AttachFrames.EndTellsExitCode`).

## Model

| member | source | states |
|---|---|---|
| AttachTheorems.NoGapNoDuplicate | src/daemon/output_session.rs:87-135 | In every reachable state, for every live subscriber, backlog, received and queued output, and what the running broadcast still owes, are the last 64 KiB of the history at subscription followed by every byte taken since |
| AttachTheorems.ClientSeesUnbrokenOutput | src/daemon/server.rs:523-553 | The `Stdout` bytes written to any client at any time are one contiguous piece of the agent's output that starts one ring before the subscription, or at the first byte; without a subscription there are none |
| AttachTheorems.BacklogIsRing | src/daemon/output_session.rs:109-116 | A subscriber's backlog is the last 64 KiB of the output before it subscribed |
| AttachTheorems.EndIsLastAndComplete | src/daemon/output_session.rs:96-107 | In every run, a client that got `SessionEnded` has been sent everything the reader thread read in the whole run since one ring before the subscription, and the agent is marked dead |
| AttachTheorems.ReadsAreTakenInOrder | src/daemon/session.rs:129-151 | While the session task serves, everything read so far is in its history or on its way to it, in order |
| AttachHistory.RunHistory | src/daemon/session.rs:89-151 | In every run from the start: what was produced is every read, in order; the agent is dead iff a poll or the end of the PTY marked it; the exit code is what the child told at that end, or zero |
| AttachTheorems.EventsAreOutputThenEnd | src/daemon/session.rs:89-101 | An `Ended` event, received or queued, is the last of its handler's stream, whether or not the receiver still exists; `dead` is already set and every produced byte has been taken |
| AttachTheorems.EndIsNeverLost | src/daemon/output_session.rs:96-107 | When the session task has returned, every handler still streaming has an `Ended` in its queue |
| AttachTheorems.AttachIsExclusive | src/daemon/server.rs:447-517 | `attached` is set iff some handler is between its compare-exchange and its guard drop, and there is never a second one |
| AttachTheorems.OneReceiverPerAgent | src/daemon/server.rs:514-526 | Because receivers drop before the guard, at most one live event receiver exists, and only while `attached` is set |
| AttachTheorems.NoDrainWhileAttached | src/daemon/output_session.rs:122-131 | Drain-only mode is entered and stays only when the entry and every handler are completely gone, no view waits, the flag is clear and no receiver is open |
| AttachTheorems.EventChannelNeverJustCloses | src/daemon/server.rs:562-565 | The closed-channel branch of the attach loop is unreachable |
| AttachTheorems.StaleSendersGo | src/daemon/output_session.rs:90-95 | A receiver dropped before a broadcast starts is out of the subscriber list whenever the session task is idle again, in every continuation |
| AttachTheorems.ForgottenForever | src/daemon/output_session.rs:90-116 | A dropped subscriber that left the list never comes back, in any run |
| AttachTheorems.TranscriptIsWellFormed | src/daemon/server.rs:499-613 | The frames of an attach are `Error`, or `Ok Error`, or `Ok Stdout*` and at most one final `SessionEnded` or `Ok`, or a start of these |
| AttachTheorems.SecondAttachIsRefused | src/daemon/server.rs:499-513 | While a client is attached another attach gets one error frame and changes nothing for the first |
| AttachTheorems.ViewShowsRecentOutput | src/daemon/output_session.rs:117-121 | A view answer is the last 64 KiB of the output at the moment it was served |
| AttachTheorems.ViewIsServedNow | src/daemon/output_session.rs:117-121 | Serving a waiting view answers it with the last 64 KiB of all output taken so far |
| AttachReplies.NoViewAfterTheEnd | src/daemon/output_session.rs:96-107 | Once the session task has seen the end of the PTY no view is answered, whether asked for before or after, in any run |
| AttachReplies.ViewIsAnswerable | src/daemon/output_session.rs:87-135 | A waiting view can still be answered iff the session task is idle or in a broadcast |
| AttachReplies.NewViewIsAnswerable | src/daemon/server.rs:293-300 | A new view of a listed agent, dead or not, can be answered iff the session task has not seen the end of the PTY |
| AttachReplies.OkThenError | src/daemon/server.rs:521-537 | `Ok` and then `Error` means that the session task returned and never served the subscription |
| AttachReplies.AttachCanFail | src/daemon/server.rs:521-537 | An acknowledged attach that has not yet replayed its backlog can still get an error iff its subscription has not been served |
| AttachReplies.SessionCanEnd | src/daemon/output_session.rs:87-107 | From every state except draining the session can end without another request served, with all handlers untouched |
| AttachReplies.NoRequestIsLost | src/daemon/output_session.rs:39-56 | In every reachable state, everybody who waits for a subscription or a view is in the queue, unless the session task has returned |
| AttachReplies.SubscriptionCanBeServed | src/daemon/output_session.rs:109-116 | A waiting subscription can be served as long as the session task has not seen the end of the PTY |
| AttachReplies.HandlerCanLeave | src/daemon/server.rs:447-455 | From every point a handler that holds the flag can give it back, close its receiver and go, without anybody's help and without affecting anybody |
| AttachReplies.NextClientCanAttach | src/daemon/server.rs:499-517 | After that another client can take the flag |
| AttachClient.StreamLoop | src/client/attach.rs:114-144 | The loop computes `ClientRun` for every order of sends, reads, failing sends, failing reads and failing local writes |
| AttachClient.ClientReportsTruthfully | src/client/attach.rs:114-144 | Whatever fails: what is printed is a start of the output sent; a detach is reported only for a second `Ok`, an end only for that frame and code, and then all output has been printed |
| AttachClient.ReportsIffNothingFails | src/client/attach.rs:114-144 | The client reports a detach or an end iff there is such a last frame and it and all frames before it are read before any send, read or local write fails |
| AttachClient.DetachIsReported | src/client/attach.rs:117-135 | After the handler took a detach, the client reports it with all output printed iff nothing fails before it has read the acknowledgement |
| AttachClient.EndIsReported | src/client/attach.rs:117-134 | The same for the end of the session and its exit code |
| AttachClient.FailedSendHidesTheEnd | src/client/attach.rs:118-122 | A reachable session that ended properly, and a queued message whose failing send makes the client print nothing and report a lost connection |
| AttachClient.TriedIsOutgoing | src/client/attach.rs:118-122 | The messages the client tries to send are the first ones its threads queued, in order |
| AttachClient.PrintsAtOnce | src/client/attach.rs:126-131 | As long as nothing fails, what has been printed after any turns is exactly the output read so far |
| AttachTheorems.BroadcastRefines | src/daemon/output_session.rs:92-94 | The send steps of one chunk, undisturbed, are `SendAll` and `Reachable`, the functions `SessionTask.TakeChunk` is proved against |
| AttachTheorems.TakeChunkRefines | src/daemon/output_session.rs:89-95 | The same for a whole chunk, with ring and history |
| AttachTheorems.ServeSubscribeRefines | src/daemon/output_session.rs:109-116 | Serving a subscription does what `SessionTask.ServeSubscribe` does, whose demand for a new subscriber holds in every reachable state |
| AttachTheorems.EndRefines | src/daemon/output_session.rs:96-107 | The same as `BroadcastRefines` for the end of the session |
| AttachProofs.StepKeepsInv | src/daemon/server.rs:462-617 | Each of the 30 kinds of steps keeps the protocol invariant |
| AttachProofs.RunKeepsInv | src/daemon/server.rs:462-617 | Every run keeps it |
| AttachProofs.NeverSilentlyClosed | src/daemon/server.rs:562-565 | The invariant excludes a streaming handler with an empty queue and no sender |
| AttachProofs.KeepSendOne | src/daemon/output_session.rs:92-94 | Sending one chunk to one subscriber keeps the stream of the addressed and of every other handler, and drops a closed subscriber |
| AttachProofs.KeepSubscribed | src/daemon/output_session.rs:110-116 | A subscription served between any two other steps starts the right stream and leaves all others alone |
| AttachProofs.KeepEndOne | src/daemon/output_session.rs:100-104 | Telling one subscriber about the end keeps the stream of the addressed and of every other handler |
| AttachProofs.StepKeepsHandler | src/daemon/server.rs:499-613 | Each of the twelve steps of an attach handler keeps its frames, received events and channel in step with what the session task owes it |
| AttachProofs.StepKeepsGuard | src/daemon/server.rs:447-517 | Each such step takes the free flag, gives its own flag back, or leaves the flag alone |
| AttachProofs.KeepAttach | src/daemon/server.rs:462-617 | Hence each such step keeps the whole invariant |
| AttachFrames.StdoutFits | src/daemon/session.rs:130-140 | In every reachable state an output frame of an attach is the backlog, of at most 65536 bytes, or has at most 8192 bytes, and fits the frame limit when the codec overhead is bounded |
| AttachFrames.AttachAboveCap | src/daemon/server.rs:539-541 | An attached client has been sent a frame above 16 KiB iff the agent had written more than that when the subscription was served and something followed the first `Ok` |
| AttachFrames.SentBacklog | src/daemon/server.rs:539-541 | The first frame after the first `Ok` is the backlog, unless that is empty |
| AttachFrames.ViewAboveCap | src/daemon/server.rs:293-300 | A view is answered in one frame of at most 65536 bytes that fits the frame limit, above 16 KiB iff the agent has written more than that |
| AttachFrames.EndTellsExitCode | src/daemon/session.rs:91-101 | In every run, a client told about the end is told the exit code that the child told at the end of the PTY, or zero if it told none |
| AttachSample.SampleSession | src/daemon/server.rs:518-613 | A whole session is reachable: `Ok`, backlog, live output, `SessionEnded` |
| AttachSample.LargeFrame | src/daemon/server.rs:539-541 | A backlog frame larger than 16 KiB is reachable |
| AttachSample.LargeView | src/daemon/server.rs:293-300 | A view answer larger than 16 KiB is reachable, with nobody attached |
| AttachSample.ClientAttaches | src/daemon/server.rs:499-541 | From any quiet state a client can attach, and is sent exactly the ring, or no output frame when it is empty |
| AttachSample.DeadViewUnanswered | src/daemon/output_session.rs:96-107 | A listed, dead agent is reachable whose view no run ever answers |
| AttachSample.DeadViewAnswered | src/daemon/registry.rs:173-187 | A dead agent is reachable whose view has been answered |
| AttachSample.OkThenErrorHappens | src/daemon/server.rs:521-537 | A client that was sent `Ok` and then `Error` is reachable |
| AttachSample.OutputDiscarded | src/daemon/output_session.rs:122-131 | A removed agent whose output is discarded is reachable |
| Session.BroadcastDelivers | src/daemon/output_session.rs:92-94 | A broadcast appends the event once to every open subscriber's queue, changes no other queue, and retains exactly the open subscribers |
| Session.SessionTask.TakeChunk | src/daemon/output_session.rs:89-95 | Ring, channels and subscriber list after one chunk, against `LastN`, `SendAll` and `Reachable` |
| Session.SessionTask.ServeSubscribe | src/daemon/output_session.rs:109-116 | The reply is the ring; the subscriber is recorded iff the requester still waits |
| Session.SessionTask.EndSession | src/daemon/output_session.rs:96-107 | `dead` is set and `Ended`, with the child's own exit code or else zero, is sent once to each subscriber in order |
| Ring.RingBuffer.Push | src/daemon/output_session.rs:137-144 | Pushing bytes one by one into the circular array leaves the last `capacity` bytes of old contents and input, whatever the lengths |
| Ring.RingBuffer.PushByte | src/daemon/output_session.rs:139-142 | One byte, with wrap-around and eviction |
| Ring.RingBuffer.Copy | src/daemon/output_session.rs:112 | The copied backlog is the contents in order |
| Ring.RingHoldsSuffix | src/daemon/output_session.rs:83-95 | After any sequence of pushes the ring holds the last `capacity` bytes of everything ever pushed |
| DetachMatcher.FindDetachTrigger | src/client/attach.rs:212-225 | Returns the least index at which either encoding starts, with the length of the encoding that matched, or nothing iff there is none |
| DetachMatcher.PartialPrefixAtEnd | src/client/attach.rs:232-244 | Splits off the longest suffix that is a prefix of the CSI-u sequence |
| DetachMatcher.StdinLoop | src/client/attach.rs:154-207 | Sends the messages of `StdinRun`, cut off where the channel closes |
| DetachMatcher.WindowIsEnough | src/client/attach.rs:173-206 | Searching only the held tail and the new read finds the first hit of the whole input, and the new held tail is the longest of the whole input |
| DetachMatcher.RunAnswersSeen | src/client/attach.rs:161-207 | For any trigger, what has been sent is the answer for the input up to the read that first completes a match |
| DetachMatcher.FirstHitIsStable | src/client/attach.rs:212-225 | With a safe trigger, later input never moves the first hit |
| DetachMatcher.SafeRunAnswersInput | src/client/attach.rs:154-207 | With a safe trigger and any split into reads, the payloads concatenate to the input before the first trigger, with a detach iff there is one, else to all but the held tail |
| DetachMatcher.ChunkInvariantIffSafe | src/client/attach.rs:154-244 | The outcome is independent of the split into reads iff the trigger is safe: the raw byte is not strictly inside the sequence, or also starts it |
| DetachMatcher.UnsafeRunDiffers | src/client/attach.rs:178-206 | For every unsafe trigger, a two-read split of its own sequence gives another outcome |
| DetachMatcher.UnsafeExample | src/client/attach.rs:178-206 | A concrete unsafe trigger and input on which two splits differ |
| DetachMatcher.RunIsOnline | src/client/attach.rs:161-207 | Messages never depend on later reads, and after the detach nothing is sent |
| DetachMatcher.DetachIsPrompt | src/client/attach.rs:179-192 | For any trigger, the detach has been sent iff the input so far contains a trigger |
| DetachMatcher.RunIsWellFormed | src/client/attach.rs:179-206 | Non-empty stdin messages and at most one detach, which is last |
| DetachMatcher.HeldTailIsExact | src/client/attach.rs:173-206 | Without a trigger, what is withheld is the longest suffix of the whole input that can still become one, and shorter than the sequence |
| DetachMatcher.PayloadBound | src/client/attach.rs:157-203 | A stdin payload is shorter than a read plus the sequence |
| DetachMatcher.NothingAfterEnd | src/client/attach.rs:161-165 | From the end of the input, or a read error, on nothing is sent, whatever was held back |
| DetachKey.ParseDetachKey | src/config.rs:72-124 | Accepts iff every modifier is ctrl, there is one, and the key is one ASCII character; the raw byte is the key's low five bits, 127 for the question mark, or none; the sequence encodes the key's code; the result is chunk-invariant; which error is returned when |
| DetachKey.RawByteLaw | src/config.rs:223-236 | The ASCII control mapping in arithmetic |
| DetachKey.CsiULaw | src/config.rs:120-121 | Between ESC `[` and `;5u` stands the key's code in decimal, without leading zeros |
| DetachKey.ModifierNames | src/config.rs:91-97 | A text names a modifier iff it is one of its names but for the case of ASCII letters |
| DetachKey.CutAt | src/config.rs:77 | Cutting at the first plus sign, and each piece trimmed |
| Strings.TrimExact | src/config.rs:73 | Trimming takes all whitespace off both ends and nothing else |
| Strings.TrimPadded | src/client/inbox.rs:148 | Text without whitespace at its ends comes out of any padding |
| DetachKey.ScanModifiers | src/config.rs:87-101 | The first unknown modifier is reported; otherwise only-ctrl is recognised exactly |
| DetachKey.RepeatedCtrlIsAccepted | src/config.rs:87-117 | Any text of two names of ctrl and one plain ASCII character, printable or not, is accepted |
| DetachKey.RepeatedCtrlExample | src/config.rs:87-117 | Such a text with two modifiers |
| DetachKey.UnprintableKeyExample | src/config.rs:87-117 | An accepted text with a key that cannot be printed |
| DetachKey.TwoPartsIff | src/config.rs:77-82 | A text splits into one modifier and a key iff it has a plus sign and none after it |
| DetachKey.RawByteOutsideSequences | src/config.rs:119-123 | No raw control byte of any key occurs in the CSI-u sequence of any key after its first byte |
| DetachKey.TriggersAreSafe | src/config.rs:119-123 | Every configured trigger is safe and has a sequence of 6 to 8 bytes |
| DetachKey.SequencesAreDistinct | src/config.rs:120-121 | Different keys have different CSI-u sequences |
| ClientInput.HandleClient | src/daemon/server.rs:568-610 | The handler passes on the stdin payloads in order up to the first detach, which it acknowledges iff there is one |
| ClientInput.SubmittedInput | src/client/attach.rs:114-122 | What the handler is given, with window sizes anywhere in between, is a start of the input before the trigger, and all of it once a detach came through |
| ClientInput.ContributionEndsBeforeTrigger | src/daemon/server.rs:577-606 | For any terminal reads, client turns, handler run and other writers, what the client contributes to the PTY is made of starts of consecutive pieces of the input before the trigger; it is all of that input once the detach is acknowledged and the writes were complete, and a start of it unless something follows a short write |
| ClientInput.RunIsSound | src/daemon/server.rs:568-606 | Because the handler waits for each write, nothing of it is waiting or being written once the detach is acknowledged, and what it submitted is what it handled |
| ClientInput.WireComesFromStdin | src/client/attach.rs:114-122 | What the handler receives, minus window sizes, is a start of what the stdin thread sent |
| ClientInput.PartsOfWriter | src/daemon/server.rs:578-595 | A writer's parts are prefixes of its payloads, in the order submitted |
| ClientInput.StdinFits | src/client/attach.rs:157-177 | Stdin messages fit into a frame when the codec overhead is bounded |
| PtyInput.PtyInputIsSerial | src/daemon/server.rs:317-333 | In every run with partial and failing writes, the PTY input is a concatenation of one contiguous prefix per payload, and each writer's payloads are in submission order |
| PtyInput.SubmittedIsAll | src/daemon/server.rs:317-333 | In every run, what a writer has submitted is every payload it was given, in order |
| PtyInput.WholePayloads | src/daemon/server.rs:317-333 | Without failed writes it is whole payloads |
| PtyInput.ContributionIsPrefix | src/daemon/server.rs:590-594 | A writer that contributes nothing after a short write contributes a prefix of what it meant to |
| PtyInput.LateContributionShows | src/daemon/server.rs:590-594 | A contribution after a short write breaks the prefix for some choice of bytes |
| PtyInput.PrefixIffNothingAfterShort | src/daemon/server.rs:590-594 | A prefix is certain iff nothing follows a short write |
| PtyInput.ShortWriteExample | src/daemon/server.rs:590-594 | A reachable run in which a failed write leaves a hole |
| PtyInput.RunKeepsInv | src/daemon/server.rs:317-333 | Every run keeps the invariant of the write lock |
| Inbox.LinesOfLog | src/client/inbox.rs:112-119 | Reading the file back gives one line per post, in order |
| Inbox.Post | src/client/inbox.rs:43-84 | A post appends exactly one line iff the encoded line with its newline is below 4000 bytes and both file operations succeed; otherwise the log is unchanged and the error says why |
| Inbox.UnterminatedLineCounts | src/client/inbox.rs:112-119 | A reader counts the newline-terminated lines only, iff the file is empty or ends with a newline |
| Inbox.TornCursor | src/client/inbox.rs:145-160 | The decimal text of a cursor, cut anywhere, reads as the number without the missing digits, never as more |
| Inbox.Reader.Drain | src/client/inbox.rs:112-160 | Prints lines from the start position on, in order; stops at the end, at a corrupt line that it never passes, or at a failed cursor write; the exact cursor text left behind |
| Inbox.DrainPrints | src/client/inbox.rs:121-142 | What such a drain prints: every line of a file shorter than the cursor, the lines after the cursor of any other, up to where it stopped |
| Inbox.CursorForms | src/client/inbox.rs:145-150 | Digits read as their value in any padding and with an optional plus sign; a number that does not fit reads as zero |
| Inbox.OtherCursors | src/client/inbox.rs:145-150 | Any other text, and a missing file, reads as zero |
| Inbox.CarriageReturnIsDropped | src/client/inbox.rs:114-117 | A carriage return before the newline does not belong to the line |
| Inbox.UnterminatedLine | src/client/inbox.rs:114-117 | An unterminated last line is read as it stands |
| Inbox.LogIsPosted | src/client/inbox.rs:75-83 | In every run the log is what was there and every line posted since, in order |
| Inbox.ReadInbox | src/client/inbox.rs:86-102 | Outside an agent nothing happens; inside, the drain starts at the stored cursor, zero when it is missing or unreadable |
| Inbox.DrainIsRun | src/client/inbox.rs:112-143 | A drain in which nothing fails is the run of the reader machine that opens the file, prints and remembers each unread line, and polls again: same lines, cursor and cursor file |
| Inbox.NothingIsSkipped | src/client/inbox.rs:112-160 | In every reachable state, after any crash, no reader would start past a line that was never printed |
| Inbox.EachLineOnce | src/client/inbox.rs:112-143 | A reader has printed the lines from its start to its cursor, each once and in order, and never finds the file shorter than its cursor |
| Inbox.CrashRepeatsAtMostOneLine | src/client/inbox.rs:138-141 | A crash outside a cursor write makes the next reader repeat at most one line |
| Inbox.CrashInWriteDropsDigits | src/client/inbox.rs:152-160 | A crash inside a cursor write sends the next reader to the cursor without its unwritten digits |
| Inbox.RunKeepsInv | src/client/inbox.rs:86-160 | Every run of posts, reader steps, starts and crashes keeps the invariant |
| Decimal.TextRoundTrip | src/client/inbox.rs:157-158 | Decimal text is digits and reads back |
| Decimal.TextIsCanonical | src/client/inbox.rs:157-158 | No leading zeros |
| Decimal.PrefixDropsDigits | src/client/inbox.rs:145-158 | A prefix of a digit string has the value without the missing digits |
| Registry.IndexesRefineTable | src/daemon/registry.rs:118-266 | Any sequence of inserts, removals, prunes and shutdowns keeps the indexes mutually inverse and acts as the same sequence on one name-to-entry table |
| Registry.LookupAgrees | src/daemon/registry.rs:163-206 | From the empty registry a lookup is a table lookup, and a name in one index always leads to an entry in the other |
| Registry.InsertRefines | src/daemon/registry.rs:150-160 | Insertion refines the table operation: a taken name changes nothing |
| Registry.RemoveRefines | src/daemon/registry.rs:202-206 | Removal refines the table operation |
| Registry.PruneRefines | src/daemon/registry.rs:247-263 | Removing a set of ids refines the table operation |
| Registry.AgentEntry.Refresh | src/daemon/registry.rs:235-243 | `dead` only goes up, and only for a spawned entry whose child has exited |
| Registry.AgentEntry.Terminate | src/daemon/registry.rs:282-316 | Whether SIGKILL is sent: at once when forced, else unless the process is gone or a poll sees it exit |
| Registry.AgentRegistry.InsertEntry | src/daemon/registry.rs:150-160 | Succeeds iff the name is free in the table; both indexes, and the stale inbox files that are deleted, afterwards; no entry without a child is marked dead |
| Registry.AgentRegistry.LookupEntry | src/daemon/registry.rs:163-167 | Finds exactly the table's entry |
| Registry.AgentRegistry.TakeOut | src/daemon/registry.rs:201-206 | The locked part of a removal: both indexes lose the entry iff the name was there |
| Registry.AgentRegistry.Dispose | src/daemon/registry.rs:207-208 | The unlocked part: whether the child is killed; exactly the files of that name that can be deleted go; the mail of every listed agent survives iff the name is not listed again with mail that can be deleted |
| Registry.AgentRegistry.RemoveEntry | src/daemon/registry.rs:198-209 | Both parts with nothing in between; only that entry's child can be killed, and when |
| Registry.AgentRegistry.SuccessorLosesInbox | src/daemon/registry.rs:201-208 | With an insertion of the same name in between, the successor loses its inbox |
| Removal.MailIsSafeIffNothingPending | src/daemon/registry.rs:198-209 | The mail of a listed agent survives every interleaving of operations in which it stays listed iff no removal of its name is pending |
| Removal.PendingUntilDisposed | src/daemon/registry.rs:198-209 | Only taking out an agent makes a removal pending, and only finishing it takes it away |
| Removal.PostedMailSurvives | src/daemon/registry.rs:198-209 | A message posted while nothing is pending is there as long as its agent stays listed |
| Removal.SuccessorAtRisk | src/daemon/registry.rs:198-209 | Every agent that is removed and registered again under its name can lose its new mail to the first removal |
| Removal.FreshInbox | src/daemon/registry.rs:142-160 | A fresh agent starts without the files of an earlier one that can be deleted; no other file is touched |
| Removal.RemovedInboxGoes | src/daemon/registry.rs:198-266 | After a removal or a prune exactly that agent's deletable files are gone |
| Removal.IndexesIgnoreDisposal | src/daemon/registry.rs:150-266 | With removals split, every interleaving keeps the indexes consistent and acts as one table |
| Registry.AgentRegistry.HandleEvent | src/daemon/server.rs:396-414 | An event changes the last event of the entry with that name and of no other, iff the name is listed |
| Registry.AgentRegistry.List | src/daemon/registry.rs:84-187 | Exactly one summary per entry; Registered without a child, Dead iff it was marked or its child has exited, else Running; id, name, creation time and last event are the entry's own, and so is the working directory of a spawned one; a death mark is never taken back |
| Registry.AgentRegistry.PruneDead | src/daemon/registry.rs:230-266 | Removes exactly the spawned entries dead after the refresh or marked dead before the second sweep, returns their names without repeats, deletes their inbox files, keeps all others |
| Registry.AgentRegistry.AttachedNames | src/daemon/registry.rs:271-279 | Exactly the names of attached entries, without repeats |
| Registry.AgentRegistry.ShutdownAll | src/daemon/registry.rs:214-225 | Every child is killed and both indexes are empty |
| Registry.NamesAreDistinct | src/daemon/registry.rs:257-265 | Distinct ids in consistent indexes have distinct names |
| Framing.Le32RoundTrip | src/protocol.rs:233-262 | The length prefix reads back for every 32-bit length |
| Framing.Le32IsLittleEndian | src/protocol.rs:233-262 | Least significant byte first |
| Framing.Source.ReadMsg | src/protocol.rs:226-242 | Reading consumes exactly the first frame and classifies it, whatever the sizes of the pieces the bytes arrive in |
| Framing.Source.ReadExact | src/protocol.rs:232-240 | Exactly `n` bytes, or none when the stream is shorter |
| Framing.Sink.WriteMsg | src/protocol.rs:251-265 | The frame is sent whole iff its length fits 32 bits and the stream takes it; when the stream fails in the middle, the start of the frame has been sent |
| Framing.Sink.WriteMsgs | src/protocol.rs:251-265 | Messages in a row send their frames in a row, up to the first failure |
| Framing.Source.ReadMsgs | src/protocol.rs:226-242 | Messages read in a row from any pieces are `ReadAll` of the bytes, and what follows is left |
| Framing.FrameComesBack | src/protocol.rs:226-265 | A written frame reads back iff its payload is within 16 MiB; otherwise the reader refuses it before the payload |
| Framing.CutFrameIsEof | src/protocol.rs:231-241 | A frame cut short anywhere is the end of the stream |
| Framing.BadPayloadIsSkipped | src/protocol.rs:239-241 | A payload that does not decode is refused, and the stream goes on after it |
| Framing.FramesComeBack | src/protocol.rs:226-265 | The frames of any message sequence within the limit, cut into any pieces, read back as that sequence |
| SpawnTemplate.SubstituteElement | src/config.rs:169-201 | The scanning loop computes `Substitute`, errors included |
| SpawnTemplate.TokensExpand | src/config.rs:169-201 | Text made of literals and placeholders expands token by token, so braces in the name are never looked at again |
| SpawnTemplate.AcceptsExactlyTokens | src/config.rs:169-201 | An element is accepted iff it reads as literals and placeholders, and the result is that reading expanded |
| SpawnTemplate.OneReading | src/config.rs:169-201 | An element has at most one reading |
| SpawnTemplate.Distributes | src/config.rs:169-201 | Substitution distributes over concatenation of accepted elements |
| SpawnTemplate.ErrorIsFirstFault | src/config.rs:183-198 | Every refused element is a readable start followed by an opening brace that is never closed or that encloses another name, and the error says which |
| SpawnTemplate.FailsUnclosed | src/config.rs:183-187 | Every element of the first kind is refused as unclosed |
| SpawnTemplate.FailsUnknown | src/config.rs:188-196 | Every element of the second kind is refused with that name |
| SpawnTemplate.ElementErrors | src/config.rs:183-198 | There is no other error of an element |
| SpawnTemplate.ResolveSpawnArgv | src/config.rs:150-167 | One element in, one element out; success and each error exactly when; the first bad element decides |

## Left out

- AttachTheorems.AttachIsExclusive: `handle_attach` and the session loop are steps over values, not Dafny methods on shared objects, because Dafny has no threads; the sequential pieces (`Session.SessionTask`, `Ring.RingBuffer`, `ClientInput.HandleClient`, `AttachClient.StreamLoop`) are methods.
- AttachTheorems.ForgottenForever: says nothing about a subscriber while the broadcast that drops it is still running.
- AttachReplies.ViewIsAnswerable: says that an answer is possible, not that it comes; scheduling is not modelled.
- AttachClient.StreamLoop: any order of sends and reads is allowed, also those that the preference for sends rules out; a partly written local frame shows a prefix of it.
- ClientInput.ContributionEndsBeforeTrigger: bytes held back when stdin itself ends are dropped by the code and count as never sent.
- Inbox.Reader.Drain: lines are given as a list; an unreadable (not UTF-8) inbox file is not modelled.
- Inbox.ReadInbox: the endless repetition of `--follow` is not part of the method; in `Inbox.Do` the reader opens the file again and again.
- Inbox.NothingIsSkipped: an inbox wiped and refilled to at least the old cursor, two readers at once, and a `println!` that fails or is still buffered at a crash are excluded.
- Inbox.Post: an append that fails half-way; appends are atomic by assumption.
- Removal.MailIsSafeIffNothingPending: an inbox file that cannot be deleted is a choice of each step, not a fact about the file.
- Registry.AgentRegistry.PruneDead: a death mark set during the second sweep counts as set before it or after the call, depending on whether the entry was still to be looked at.
- Cancellation of `read_msg` inside `select!` (`src/daemon/server.rs:569`, `src/client/attach.rs:124`), which can lose part of a frame.
- Unforced shutdown: its check of attached clients is not atomic with the stop (`src/daemon/server.rs:189-211`).
- `handle_run`: the child is spawned before the insertion and only dropped when the name is taken (`src/daemon/server.rs:419-441`).
- PTY creation, exec, resizing, signals to and from the child beyond whether SIGKILL is sent.
- Version handshake, name validation, `display_argv`, and the other one-shot requests: only easy members.
- Terminal raw mode, window-change signals, debug log, daemonising, paths, command line, completions and listings: user interface and operating system plumbing.
- Payload encodings (postcard, JSON) beyond what is assumed above; Unicode normalisation and case folding beyond ASCII in key names.
