# vAuth: a verified model

vAuth is a virtual FIDO2 authenticator: a daemon that presents itself as a CTAPHID
device, keeps credentials in an encrypted store guarded by a hardware generation
counter, signs assertions, and asks the person at the machine for presence or
verification through a UI agent and a PAM verifier. This project models five parts of
it and proves what each keeps over whole runs:

- **The credential store** (`Credentials`, `StoreDocument`, `StoreProtocol`, `StoreRuns`,
  `StoreSanity`, `StoreRecovery`, `CredentialStore`, `Hex`, `BigEndian`). A machine is a visible file, the
  set of files that may be there after a power loss, and the counter. Runs mix saves that
  fail at any step, counter replies that are lost or late, loads, process restarts and
  power losses.
- **The assertion pipeline** (`AssertionMatches`, `AssertionSequence`, `CommandHandler`,
  `AssertionRuns`, `AssertionExample`): GetAssertion and GetNextAssertion against that store, with resets,
  cancellations and store failures in between.
- **The CTAPHID transport** (`Packet`, `FrameProcessor`, `Transport`, `EventLoop`): framing,
  reassembly and the event loop with its one worker.
- **The user interaction protocol** (`InteractionRegistry`, `InteractionService`,
  `InteractionTracker`, `InteractionFlows`): the daemon's registry of the pending interaction, the client's
  tracker, and the presence and verification requests that drive them, with calls of the
  agent at every point between.
- **The verifier protocol** (`VerifierConversation`, `DisplayText`, `VerifierCodec`,
  `VerifierEndpoints`): the conversation rules, two endpoints joined by two queues, the
  packet codec with its UTF-8 automaton (section 4 of RFC 3629), and the client, broker
  and worker loops.

Code that updates fields is a class with `modifies` clauses, code that loops is a method
with a loop, and each such method is proved equal to a function of the old state; the
lemmas are about those functions and hold for every sequence of events. What the outside
world does (write and sync outcomes, counter replies, clocks, sockets, child processes,
calls of the agent) is a parameter.

## Three properties that hold only under a condition

- *Whichever file survives a power loss is loadable.* In every run a survivor is taken by
  the next load if and only if it is at the counter or one ahead and within the 16 MiB that
  load accepts (`StoreRecovery.SurvivorLoadsIff`); and all survivors are at the counter or
  one ahead in every state of a run if and only if no load moved the counter past a file
  that could still survive (`StoreRecovery.NearThroughoutIff`). A load that finds a settled
  directory never does (`StoreRecovery.SettledIsNotPassed`).
  `StoreRecovery.UnsettledRecoveryLocksOut` gives the run where it fails: the directory sync
  of a save fails, the process restarts, the load advances the counter for the file it sees,
  and a power loss brings back the older directory, after which no load succeeds.
- *GetNextAssertion on a foreign channel disturbs nothing.* That is so if and only if it was
  not stopped before the handler is entered (`AssertionRuns.ForeignUndisturbedIff`): a
  request stopped that early resets the handler, whichever channel it came on.
  `AssertionExample.ForeignStopDisturbs` gives a run from an empty store.
- *The client accepts every event it is sent* holds if and only if nothing is sent to an
  agent after one of its interactions was closed silently (`InteractionTracker.AllAcceptedIff`);
  after such a close the client rejects everything else in that generation
  (`InteractionTracker.RejectedFromThenOn`). A presence request whose agent stays registered
  never closes silently; a verification request does exactly when a cancellation was accepted
  and the outcome is another one (`InteractionFlows.RequestVerification`).
  `InteractionFlows.NextStartRejected` gives the run.

## Model

| member | source | states |
|---|---|---|
| `Hex.HexEncode` | src/encoding/hex.cpp:16-27 | the loop computes the encoding that `DecodeEncode` and `EncodeDecode` are about |
| `Hex.HexDecode` | src/encoding/hex.cpp:29-40 | the loop gives the decoding, or rejects odd length and foreign characters, wherever they are |
| `Hex.DecodeEncode` | src/encoding/hex.cpp:16-40 | decoding an encoding returns the bytes |
| `Hex.EncodeDecode` | src/encoding/hex.cpp:4-40 | re-encoding an accepted text gives it back in upper case, so two texts with one value differ at most in case |
| `Hex.EncodeInjective` | src/encoding/hex.cpp:16-27 | different credential IDs never share a map key |
| `Hex.OddRejected` | src/encoding/hex.cpp:32-33 | no text of odd length is decoded |
| `Hex.DecodeIff` | src/encoding/hex.cpp:4-40 | exactly the texts of even length made of hexadecimal digits, in either case, are decoded |
| `Hex.DigitIs` | src/encoding/hex.cpp:16-27 | the digits written are those of 0123456789ABCDEF |
| `BigEndian.AppendUint64` | src/credentials/credential.cpp:187-191 | eight shifts write the 8-byte big-endian form |
| `BigEndian.ReadUint64` | src/credentials/credential.cpp:193-199 | reads the value of which the bytes are the 8-byte form |
| `BigEndian.GenerationRoundTrip` | src/credentials/credential.cpp:187-199 | the generation read from a header is the one written to it |
| `Credentials.PutOk` | src/credentials/credential.cpp:787-819 | registering keeps IDs unique, at most 4096 entries, creation orders distinct and within the generation, and one discoverable credential per owner, relying party and user |
| `Credentials.PutReplacesOne` | src/credentials/credential.cpp:787-819 | registering adds the credential as given with its owner and the next creation order, removes those of the same account, at most one, and leaves every other record unchanged |
| `Credentials.PutAcceptedIff` | src/credentials/credential.cpp:787-819 | exactly when a registration is accepted: every size limit and the algorithm spelled out, an ID not stored yet, a generation that can grow, and room for it without the credential it replaces |
| `Credentials.EraseOk` | src/credentials/credential.cpp:821-833 | erasing keeps the storage invariant |
| `Credentials.EraseExactly` | src/credentials/credential.cpp:821-833 | erasing is accepted exactly for an ID stored for that owner; then that credential alone goes and every other record is unchanged |
| `Credentials.IncrementOk` | src/credentials/credential.cpp:891-907 | counting a signature keeps the storage invariant |
| `Credentials.IncrementExactly` | src/credentials/credential.cpp:891-907 | counting is accepted exactly for an ID stored for that owner with a count left; then that count is one higher and nothing else changes |
| `Credentials.TargetOk` | src/credentials/credential.cpp:766-907 | whatever a mutating call wants to save satisfies the storage invariant at the next generation |
| `StoreDocument.ParsedEntries` | src/credentials/credential.cpp:644-719 | an accepted document has one entry per credential, each under the key of its own ID and valid |
| `StoreDocument.ParseDocument` | src/credentials/credential.cpp:644-719 | the parsing loop gives exactly the map of the entries, or rejects the document |
| `StoreDocument.Dump` | src/credentials/credential.cpp:605-619 | the saved document lists each credential once, in some order of the hash map |
| `StoreDocument.EntryRoundTrip` | src/credentials/credential.cpp:605-719 | a valid credential survives being written to an entry and parsed back, all its fields unchanged |
| `StoreDocument.ParseEntryIff` | src/credentials/credential.cpp:644-719 | an entry parses to a credential exactly if its fields hold it and it is valid; the algorithm number is read modulo 2^32, other fields are ignored |
| `StoreDocument.ParseAcceptsDump` | src/credentials/credential.cpp:605-719 | whatever was saved is accepted and rebuilds the same map, whichever order it was walked in |
| `StoreProtocol.FailureKeepsMemory` | src/credentials/credential.cpp:584-642 | an operation that throws leaves the map and the generation in memory as they were |
| `StoreProtocol.RefusedUntilReload` | src/credentials/credential.cpp:938-943 | once a reload is required every mutating call is refused and touches nothing |
| `StoreProtocol.CommitIsDurable` | src/credentials/credential.cpp:584-642 | when a save returns, its file is the only one that can survive, holds the saved map, and counter, file and memory have the same generation |
| `StoreProtocol.CommitReturnsIff` | src/credentials/credential.cpp:584-642 | exactly when a save returns, over all I/O outcomes: also after a lost counter reply if the second reading shows the step was made |
| `StoreProtocol.CommitThrows` | src/credentials/credential.cpp:584-642 | what a save that throws leaves: which files can survive, whether the counter moved, and that a reload is demanded exactly from the counter step on |
| `StoreProtocol.LoadSucceedsIff` | src/credentials/credential.cpp:721-764 | exactly when a load succeeds, that it then agrees with file and counter, and that a failed load leaves memory alone |
| `StoreRuns.CutShort` | src/credentials/credential.cpp:377-411 | stopping a save after any of its effects and then crashing is one of the modelled failures, so runs cover crashes at every step |
| `StoreRuns.StepGood` | src/credentials/credential.cpp:377-764 | every save, load and crash keeps: each file that may survive is the one base file at the counter or sound and one ahead, the last map a call returned with is the base as long as the counter stands, and ready memory at the counter is the base; a load that moves the counter needs a settled directory |
| `StoreRuns.RecoveryGoodIff` | src/credentials/credential.cpp:737-764 | a counter-moving load leaves one base file at the counter if and only if the directory was settled |
| `StoreRuns.GoodThroughoutIff` | src/credentials/credential.cpp:584-764 | over every run: there is one base file in all states if and only if every counter-moving load met a settled directory |
| `StoreRuns.NoRollback` | src/credentials/credential.cpp:721-764 | after any run, restarts included, no load accepts a file below an acknowledged generation; no condition on the run |
| `StoreRuns.ReloadOnly` | src/credentials/credential.cpp:721-764 | only a successful load or a restart ends the state in which a reload is required |
| `StoreSanity.EveryRunSane` | src/credentials/credential.cpp:584-764 | in every run, without condition, memory and every file that may survive satisfy the storage invariant at their own generation |
| `StoreSanity.StepMarked` | src/credentials/credential.cpp:584-907 | a signature count once committed for a credential is never lower in any file a later load could accept |
| `StoreSanity.IncrementReturns` | src/credentials/credential.cpp:891-907 | a counted signature is durable, one above every count committed before for that credential, and changes nothing else |
| `StoreSanity.EraseReturns` | src/credentials/credential.cpp:821-833 | once an erase returned, that ID is gone from memory and from the only file that can survive, and every other record is in both unchanged |
| `StoreSanity.ClearReturns` | src/credentials/credential.cpp:766-772 | once a clear returned, memory and the only file that can survive hold the empty map |
| `StoreSanity.PutReturns` | src/credentials/credential.cpp:787-819 | once a registration returned, memory and the only file that can survive hold the new credential as given, not the one of the same account, and every other record unchanged |
| `StoreSanity.TargetCovers` | src/credentials/credential.cpp:787-907 | no mutating call lowers a committed signature count |
| `StoreRecovery.SurvivorWasSaved` | src/credentials/credential.cpp:584-642 | in every run each file that may survive was written by a save of that run: one above the counter of its time, holding the document of the very map that save was to store |
| `StoreRecovery.SurvivorLoadsIff` | src/credentials/credential.cpp:721-764 | in every run, whichever file survives a power loss: the next load takes it if and only if it is at the counter or one ahead and within 16 MiB; then its map is the one a save stored, and file, counter and memory agree; otherwise no load takes it |
| `StoreRecovery.StepNearIff` | src/credentials/credential.cpp:740-764 | one save, load or crash keeps every survivor at the counter or one ahead if and only if it is not a load that moves the counter past one |
| `StoreRecovery.NearThroughoutIff` | src/credentials/credential.cpp:584-764 | over every run: all survivors are at the counter or one ahead in every state if and only if no load moved the counter past a file that could still survive |
| `StoreRecovery.SettledIsNotPassed` | src/credentials/credential.cpp:740-764 | a load on a settled directory passes no file |
| `StoreRecovery.CommittedStays` | src/credentials/credential.cpp:584-764 | once a commit returned, every load in any continuation, restarts and power losses included, yields exactly the committed map or a later generation; no condition on the run |
| `StoreRecovery.AcknowledgedSurvives` | src/credentials/credential.cpp:584-764 | if every recovery met a settled directory, what can survive is the last map a save or load returned with, or the newer file of a save of the run that was interrupted |
| `StoreRecovery.UnsettledRecoveryLocksOut` | src/credentials/credential.cpp:377-411 | the concrete run with an unsettled recovery after which every load fails |
| `AssertionMatches.NewestFirstUnique` | src/credentials/credential.cpp:875-888 | there is only one newest-first list of the matches, whatever order the hash map is walked in |
| `AssertionMatches.CollectDiscoverable` | src/credentials/credential.cpp:875-888 | with an empty allow list: exactly the matching discoverable credentials, strictly newest first |
| `AssertionMatches.ListedProperty` | src/credentials/credential.cpp:853-873 | the search over a prefix of the allow list has each selected credential once, in the order they are first named |
| `AssertionMatches.ListedExactly` | src/credentials/credential.cpp:853-873 | with an allow list, in terms of the store alone: found exactly if stored for that owner and relying party, discoverable or not, and named by a public-key descriptor; none twice; in the order of the first descriptor with that ID |
| `AssertionMatches.CollectListed` | src/credentials/credential.cpp:853-873 | the loop with its set of seen keys gives the list that `ListedExactly` is about |
| `AssertionMatches.SortProperty` | src/credentials/credential.cpp:882-887 | sorting keeps the members and orders them by falling creation order |
| `AssertionMatches.FoundNewestFirst` | src/credentials/credential.cpp:845-889 | the search result for an empty allow list is the newest-first list |
| `AssertionMatches.DiscoverableExactly` | src/credentials/credential.cpp:875-888 | without an allow list: found exactly if stored for that owner and relying party and discoverable, strictly newest first |
| `AssertionMatches.FoundCurrent` | src/credentials/credential.cpp:845-889 | every match is the stored record of the owner and relying party asked for, and no credential is found twice |
| `CredentialStore.AtomicWrite` | src/credentials/credential.cpp:377-411 | rename and directory sync in order; which of them happened for each failure |
| `CredentialStore.Store.SaveStorage` | src/credentials/credential.cpp:584-642 | the method's order of write, counter step and flag changes has the effect the run theorems are about |
| `CredentialStore.Store.SaveAndSwap` | src/credentials/credential.cpp:584-642 | the map in memory is replaced only after the commit |
| `CredentialStore.Store.Put` | src/credentials/credential.cpp:787-819 | validates, assigns owner and creation order, drops the prior credential of the account, commits |
| `CredentialStore.Store.Erase` | src/credentials/credential.cpp:821-833 | refused for an unknown ID or another owner; otherwise the effect that `EraseReturns` is about |
| `CredentialStore.Store.ClearStore` | src/credentials/credential.cpp:766-772 | commits the empty map |
| `CredentialStore.Store.IncrementSigCount` | src/credentials/credential.cpp:891-907 | refused for an unknown ID, another owner or the largest count, otherwise commits the count raised by one |
| `CredentialStore.Store.LoadStore` | src/credentials/credential.cpp:721-764 | the method's checks and counter step have the effect `LoadSucceedsIff` describes |
| `CredentialStore.Store.FindForAssertion` | src/credentials/credential.cpp:845-889 | refused while a reload is required; otherwise the search result, with an allow list exactly the credentials of that owner and relying party it names |
| `AssertionSequence.AdvancedIff` | src/authentication/authenticate.cpp:45-72 | a continuation is given exactly on the origin channel, to the same user and session, within 30 s and with one left; then it is the first remaining one, and otherwise nothing changes or all is dropped |
| `AssertionSequence.BegunIff` | src/authentication/authenticate.cpp:21-43 | opening throws exactly for a credential of another user; otherwise, on a real channel with something left, the whole rest waits for that channel and binding, timed from now, and else nothing does |
| `AssertionSequence.Sequence.Begin` | src/authentication/authenticate.cpp:21-43 | the method opens a sequence as `BegunIff` describes |
| `AssertionSequence.Sequence.Next` | src/authentication/authenticate.cpp:45-72 | the method advances as `AdvancedIff` describes |
| `AssertionSequence.Sequence.Clear` | src/authentication/authenticate.cpp:74-80 | nothing is pending afterwards |
| `CommandHandler.InteractionFor` | src/authentication/authenticate.hpp:29-40 | verification is asked for exactly when requested, and no interaction exactly when neither is |
| `CommandHandler.Flags` | src/authentication/authenticate.hpp:42-50 | the UP bit says present, the UV bit says verified, and no other bit is set |
| `CommandHandler.Handling.Reset` | src/ctap_command_handler.cpp:24-26 | drops the request, its flags and its sequence |
| `CommandHandler.Handling.Sign` | src/authentication/get_assertion_response.cpp:165-222 | an assertion comes out only after the durable count, with the raised snapshot count |
| `CommandHandler.Handling.HandleGetAssertion` | src/authentication/get_assertion_response.cpp:16-137 | the handler has the effect the run theorems are about, error codes included |
| `CommandHandler.Handling.AnswerFirst` | src/authentication/get_assertion_response.cpp:107-137 | the sequence is opened only after signing and counting succeeded |
| `CommandHandler.Handling.HandleGetNext` | src/ctap_command_handler.cpp:171-237 | a foreign channel is refused before anything is touched; otherwise one continuation is consumed |
| `CommandHandler.Handling.ExecuteGetAssertion` | src/device.cpp:117-142 | a GetAssertion stopped before the handler resets it and fails; otherwise the handler decides |
| `CommandHandler.Handling.ExecuteGetNext` | src/device.cpp:117-142 | the same for GetNextAssertion, on any channel |
| `AssertionRuns.StepKeeps` | src/ctap_command_handler.cpp:28-257 | every command, store failure and restart keeps: the snapshots of a live sequence equal the store, emitted counts are committed, flags match the opening request |
| `AssertionRuns.EmittedCountsIncrease` | src/authentication/get_assertion_response.cpp:165-222 | in every run the counts emitted for one registered credential strictly increase |
| `AssertionRuns.EmittedCountIsDurable` | src/authentication/get_assertion_response.cpp:173-221 | each emitted count is one above its stored value, is the stored value in the only file that can survive, and is never the wrapped zero |
| `AssertionRuns.FlagsAreApproved` | src/authentication/get_assertion_response.cpp:40-104 | in every run an emitted UV bit is set exactly if the opening GetAssertion had verification approved, the UP bit exactly if presence was approved or verification with `up`; continuations go to the same channel and binding |
| `AssertionRuns.OpeningsAreReal` | src/authentication/get_assertion_response.cpp:122-131 | the opening an assertion is attributed to is a GetAssertion of that run, with what the user approved in it |
| `AssertionRuns.ForeignUndisturbedIff` | src/device.cpp:117-142 | GetNextAssertion on a foreign channel is refused and changes neither store nor sequence if and only if it was not stopped before the handler is entered |
| `AssertionRuns.StoppedForeignDrops` | src/device.cpp:117-142 | after a request stopped that early nothing is answered until the next GetAssertion, whatever is asked |
| `AssertionExample.ForeignStopDisturbs` | src/device.cpp:117-142 | the concrete run: two registrations, a GetAssertion on channel 1, and a stopped request on channel 2 that takes the sequence away |
| `AssertionRuns.NextAnsweredIff` | src/authentication/get_assertion_response.cpp:139-163 | exactly when GetNextAssertion is answered |
| `AssertionRuns.GetAnsweredIff` | src/authentication/get_assertion_response.cpp:25-137 | exactly when GetAssertion is answered, that it answers with the first match, and that no continuation state exists unless authorisation, signing and the durable count all succeeded |
| `AssertionRuns.SignedIff` | src/authentication/get_assertion_response.cpp:165-222 | exactly when signing and counting succeed, down to the I/O outcomes of the save |
| `AssertionRuns.GetRefusals` | src/authentication/get_assertion_response.cpp:16-137 | what GetAssertion answers otherwise, as literal codes in their order of precedence; that a missing credential is told only to a user who approved; and that the total is given exactly with more than one match and no allow list |
| `AssertionRuns.NextRefusals` | src/ctap_command_handler.cpp:171-237 | what GetNextAssertion answers otherwise, that off its channel it changes nothing, and that any refusal on its channel ends the sequence |
| `AssertionRuns.OthersDrop` | src/ctap_command_handler.cpp:24-41 | every other command, a reset and a restart drop the sequence |
| `AssertionRuns.OwnNextIff` | src/authentication/authenticate.cpp:45-72 | with credentials left, the channel gets the next one exactly if nothing else fails and it asks at most 30 s after the last answer; one that is only late is refused and ends the sequence |
| `AssertionRuns.NextInTimeIff` | src/authentication/authenticate.cpp:21-72 | after any run and an answered GetAssertion: each GetNextAssertion of the channel gets the next credential of the list if and only if it comes at most 30 s after the answer before it, the opening included, from the same user and session and with nothing failing |
| `AssertionRuns.SequenceIsTheList` | src/authentication/get_assertion_response.cpp:122-163 | after any run, an empty-allow-list GetAssertion and then requests of that channel, user and session at most 30 s apart with nothing failing: all are answered, with the newest-first list, each credential once and in order, then NOT_ALLOWED, whatever foreign channels ask in between without being stopped before the handler |
| `Packet.Stringify` | src/packet.cpp:11-62 | the nested loops give the frames of the packet, or refuse a wrong or excessive length |
| `Packet.Fill` | src/packet.cpp:31-38 | a frame is filled with the next payload bytes, then zeros |
| `Packet.FirstFrameLayout` | src/packet.cpp:11-40 | the first frame byte by byte: channel and length most significant byte first, command, as much payload as fits, zeros |
| `Packet.ContinuationsShape` | src/packet.cpp:41-60 | continuation frames are 64 bytes, carry the channel, are numbered in order and are just as many as the rest needs |
| `Packet.FrameNumbersFit` | src/packet.cpp:41-60 | at most 128 continuations, so the sequence byte never wraps |
| `FrameProcessor.ProcessKeeps` | src/frame_processor.cpp:21-191 | while assembling, payload size is 57 + 59 * sequence, below the announced length, which is at most 7609; the sequence stays below 128; a completed report is as long as announced |
| `FrameProcessor.FirstFrameRefusals` | src/frame_processor.cpp:80-150 | which error each first frame that is not taken gets, in order of precedence, and that all but the last leave the message being assembled alone |
| `FrameProcessor.ContinuationRefusals` | src/frame_processor.cpp:21-78 | an out-of-order continuation drops the message and is reported; a foreign one or a wrong size is ignored; nothing else is an error |
| `FrameProcessor.ExpireIff` | src/frame_processor.cpp:179-191 | a message past its deadline is dropped and reported as a timeout on its channel, and no other |
| `FrameProcessor.Processor.ProcessFrame` | src/frame_processor.cpp:21-177 | the method has the effect of the frame function, all error outcomes included, and keeps the assembly invariant |
| `FrameProcessor.Processor.ExpireIncoming` | src/frame_processor.cpp:179-191 | a message past its deadline is dropped and reported, no other |
| `Transport.FirstStep` | src/frame_processor.cpp:80-176 | what the first frame of a packet does, admitted or not |
| `Transport.NextStep` | src/frame_processor.cpp:41-78 | the next continuation extends the assembly by its chunk or completes it |
| `Transport.ForeignStep` | src/frame_processor.cpp:41-137 | a frame of another channel before the deadline leaves the assembly alone and completes nothing |
| `Transport.RoundTrip` | src/frame_processor.cpp:21-177 | the frames of any packet, interleaved after the first with anything from other channels before the deadline, give exactly one report with its channel, command, length and payload if the channel admits the packet, and none for its channel otherwise |
| `EventLoop.CompletedReport` | src/frame_processor.cpp:85-137 | what a completed report guarantees the loop: an 8-byte INIT, a CANCEL only of the active channel, nothing else while a task is active |
| `EventLoop.PacketIsAddressed` | src/event.cpp:416-448 | however the handler ends the packet is for the channel of its request, command 0x90, and carries exactly the response if it fits, else the one code of that end: 0x39, the refusal, 0x2D, 0x27 or 0x7F |
| `EventLoop.StepKeeps` | src/event.cpp:271-492 | every turn of the loop and every publication of the worker keeps the loop invariant |
| `EventLoop.LoopIsSafe` | src/event.cpp:287-390 | in every run an active task excludes a partial message, 0 and broadcast are never allocated, the main thread never touches the handler while a worker runs, and the loop's own length, busy and channel guards never fire |
| `EventLoop.TasksAreAnswered` | src/event.cpp:313-492 | in every run each task's history is well formed: keepalives only to its channel, only before its final packet and not after a cancellation; at most one final packet, the one sent being addressed to its channel and short enough to frame; the live task is the active one |
| `EventLoop.SlotIsExclusive` | src/event.cpp:446-478 | the completion slot is empty whenever a worker publishes; collecting sends exactly the packet published, which is of that generation and addressed to that channel, or none if a same-channel INIT aborted it |
| `EventLoop.FinalIsTheHandlers` | src/event.cpp:416-478 | in every run the final packet sent for a task is the one its own worker published in a step of that run: the bytes its handler returned there, or the code for how it ended |
| `EventLoop.ReportEffects` | src/event.cpp:313-456 | what each completed report does to a sound loop, field by field: a CBOR request starts a worker, a broadcast INIT allocates the drawn channel, an INIT on the active channel aborts, a CANCEL is taken unless aborted, and nothing else has an effect |
| `EventLoop.NoReportNoEffect` | src/event.cpp:271-312 | whatever completes no report leaves tasks, channels and log alone |
| `EventLoop.KeepaliveIff` | src/event.cpp:480-492 | a keepalive is sent exactly if a task is active, not cancelled, and 100 ms have passed; the next is due 100 ms later |
| `EventLoop.Running.FrontHalf` | src/event.cpp:271-308 | the receiving half of a turn has the effect the run theorems are about |
| `EventLoop.Running.Act` | src/event.cpp:313-456 | the dispatch of INIT, CANCEL and CBOR has that effect |
| `EventLoop.Running.BackHalf` | src/event.cpp:460-492 | collecting sends the packet in the slot, and with the keepalive has the effect the run theorems are about |
| `EventLoop.Running.WorkerPublishes` | src/event.cpp:416-448 | the packet built in every exit of the handler and every catch clause is the one `PacketIsAddressed` is about, stored with the generation of the task |
| `InteractionRegistry.SameUserIsBinding` | src/dbus/interaction_registry.cpp:12-23 | the user comparison is equality of bindings |
| `InteractionRegistry.PendingKeeps` | src/dbus/interaction_registry.cpp:92-391 | every call keeps: an answer and a cancellation never coexist and each closes the interaction, a prompt is open exactly in the secret state, a stored secret belongs to the pending request and its user |
| `InteractionRegistry.OneResponsePerRequest` | src/dbus/interaction_registry.cpp:186-292 | over all interleavings a request takes at most one response, answer or cancellation, and none after a wait of it timed out or was stopped |
| `InteractionRegistry.AnswerIsReturned` | src/dbus/interaction_registry.cpp:252-292 | in every reachable state a wait on the current request returns an answer if and only if that answer was accepted for it and stop was not requested, late or not |
| `InteractionRegistry.SecretsAreRightful` | src/dbus/interaction_registry.cpp:207-337 | in every run a secret handed out was submitted before for exactly that prompt, request and binding; each prompt takes and gives at most one |
| `InteractionRegistry.ResponseAcceptedIff` | src/dbus/interaction_registry.cpp:186-205 | in every run an answer is accepted exactly for the current request of that user while presence is required and, by the log, nothing closed it |
| `InteractionRegistry.CancelAcceptedIff` | src/dbus/interaction_registry.cpp:232-250 | in every run a cancellation is accepted exactly once a state was shown and, by the log, nothing closed the request |
| `InteractionRegistry.SecretAcceptedIff` | src/dbus/interaction_registry.cpp:207-230 | in every run a secret is accepted exactly for the open prompt of that user if, by the log, none was taken for it and the request was not cancelled |
| `InteractionRegistry.SecretHandedOutIff` | src/dbus/interaction_registry.cpp:294-337 | in every run a wait hands out a secret exactly if it was taken for that prompt and not yet given, with no stop or cancellation, late or not |
| `InteractionRegistry.WaitsOtherwise` | src/dbus/interaction_registry.cpp:252-337 | in every run what a turn of either wait returns otherwise, in order of precedence, told from the log |
| `InteractionRegistry.TransitionsIff` | src/dbus/interaction_registry.cpp:25-88 | which states may follow which: two kinds that do not mix, presence required once, and nothing after a terminal state |
| `InteractionRegistry.TransitionExactly` | src/dbus/interaction_registry.cpp:122-184 | in every run when a state is taken, when it is shown and when suppressed by an accepted cancellation, and the pending interaction and prompt it leaves |
| `InteractionRegistry.IdsNeverRepeat` | src/dbus/interaction_registry.cpp:92-183 | in every run request IDs and prompt IDs only grow |
| `InteractionRegistry.RunKeeps` | src/dbus/interaction_registry.cpp:92-391 | every reachable state satisfies the registry invariant, including that the pending interaction holds exactly the logged response |
| `InteractionTracker.Client.Receive` | client/interaction_model.cpp:55-89 | the method accepts and updates as the tracker function does; a rejected event changes nothing |
| `InteractionTracker.MisfitsLeaveNoTrace` | client/interaction_model.cpp:55-89 | events of another generation or with malformed IDs are rejected in every state and leave no trace: the tracker is where the other events alone bring it |
| `InteractionTracker.FittingAcceptedIff` | client/interaction_model.cpp:55-89 | of the others, a start needs no or the same active request, any other state the active one, and a prompt ID is taken once; with the state each acceptance leaves |
| `InteractionTracker.AcceptedIff` | client/interaction_model.cpp:55-89 | of events shaped as the registry makes them, one is accepted exactly if no request up to it was followed by another before a terminal state |
| `InteractionTracker.Stuck` | client/interaction_model.cpp:65-74 | from the first such break on nothing is accepted: the tracker waits for the request that was left |
| `InteractionTracker.RunLinked` | src/dbus/interaction_registry.cpp:63-184 | in every run the events of one agent are so shaped, and the last one shows the state of its pending interaction |
| `InteractionTracker.AllAcceptedIff` | src/dbus/interaction_registry.cpp:122-184 | over every run the client accepts all events of its generation if and only if nothing is sent after one of its interactions was closed silently |
| `InteractionTracker.RejectedFromThenOn` | src/dbus/interaction_registry.cpp:356-373 | after a silent close every later event of that generation is rejected, in every continuation |
| `InteractionService.Interactions.Begin` | src/dbus/interaction_registry.cpp:92-120 | begins exactly if nothing is pending and IDs are left; the method keeps the fields equal to the run of its calls |
| `InteractionService.Interactions.MakeTransition` | src/dbus/interaction_registry.cpp:122-184 | the same for a transition, with its refusals, suppression and prompt IDs |
| `InteractionService.Interactions.RespondToPresence` | src/dbus/interaction_registry.cpp:186-205 | the same for an answer |
| `InteractionService.Interactions.SubmitSecret` | src/dbus/interaction_registry.cpp:207-230 | the same for a secret |
| `InteractionService.Interactions.Cancel` | src/dbus/interaction_registry.cpp:232-250 | the same for a cancellation |
| `InteractionService.Interactions.PresenceTurn` | src/dbus/interaction_registry.cpp:267-291 | the same for one turn of the presence wait |
| `InteractionService.Interactions.SecretTurn` | src/dbus/interaction_registry.cpp:310-336 | the same for one turn of the secret wait |
| `InteractionService.Interactions.Finish` | src/dbus/interaction_registry.cpp:356-377 | the request is not current afterwards |
| `InteractionService.Interactions.Drop` | src/dbus/interaction_registry.cpp:379-391 | nothing of that user is pending afterwards |
| `InteractionFlows.AgentStep` | src/dbus/interaction_registry.cpp:186-250 | between two steps of a flow the agent can neither revive an interaction nor change its state, nor its response once closed |
| `InteractionFlows.WaitForPresence` | src/dbus/interaction_registry.cpp:252-292 | the waiting loop, with agent calls before every turn, makes exactly the calls of the wait function; approved only if that request was answered so; no later response can be accepted |
| `InteractionFlows.FinalIsShown` | src/uv/src/auth.cpp:171-219 | after any result of the wait the matching terminal state is published, not suppressed |
| `InteractionFlows.RequestPresence` | src/uv/src/auth.cpp:156-219 | makes exactly the calls of the flow function; approved only if this very request was answered so in an unchanged context; closes silently exactly if its agent was registered at the start and no longer at the end; the request is over afterwards |
| `InteractionFlows.PresenceLaw` | src/uv/src/auth.cpp:156-219 | every end of a presence request has its reason in the log; the agent is shown that presence is required and then once the end belonging to what is returned: approved, denied, cancelled, timed out; exactly when it closes silently |
| `InteractionFlows.FinalShownIff` | src/dbus/interaction_registry.cpp:153-183 | the end of a verification is suppressed exactly if a cancellation was accepted and the end is another |
| `InteractionFlows.RequestVerification` | src/uv/src/auth.cpp:221-289 | makes exactly the calls of the flow function; approved only on the verifier's success in an unchanged context; once its start was shown, closes silently exactly if a cancellation was accepted and the outcome is another, or its agent is no longer registered at the end |
| `InteractionFlows.VerificationReturns` | src/uv/src/auth.cpp:221-289 | what a verification request returns for each outcome of the verifier, one for one |
| `InteractionFlows.VerificationLaw` | src/uv/src/auth.cpp:221-289 | what it returns and what the agent is shown: the start, progress, and the end belonging to the result unless suppressed; exactly when it closes silently |
| `InteractionFlows.ClientKeepsUp` | client/interaction_model.cpp:55-89 | as long as no interaction was closed silently the client accepts everything it is sent |
| `InteractionFlows.NextStartRejected` | src/dbus/interaction_registry.cpp:160-165 | the concrete run: cancelled just before it succeeds, closed silently, and the next start rejected |
| `VerifierConversation.LegalTranscript` | src/uv/src/verifier_conversation.cpp:44-102 | every accepted conversation starts once, has at most one secret outstanding, ends at the first completion or cancellation, and completes other than with an error only with none outstanding |
| `VerifierConversation.LegalIff` | src/uv/src/verifier_conversation.cpp:44-102 | the converse: a transcript is accepted exactly if each message may follow the one before it, said without states |
| `VerifierConversation.StepConsistent` | src/uv/src/verifier_conversation.cpp:44-102 | each send and receive over the two queues keeps the endpoints consistent with what is in flight |
| `VerifierConversation.CrossingMessagesAccepted` | src/uv/src/verifier_conversation.cpp:44-102 | in every run of two endpoints over unbounded queues, one that is not at an end never receives a message its state rejects, also when cancel, secret and completion cross |
| `VerifierConversation.CrossingHappens` | src/uv/src/verifier_conversation.cpp:44-102 | the crossing is reachable: a concrete run in which cancel and completion pass each other |
| `VerifierConversation.ResultsAgree` | src/uv/src/verifier_conversation.cpp:104-110 | in every run a result the daemon ends with is the verifier's, and a verifier that is cancelled was cancelled by the daemon |
| `DisplayText.ScansIff` | src/uv/src/verifier_protocol.cpp:61-136 | the automaton accepts exactly the UTF-8 encodings, of at most 512 bytes, of scalar values without C0, DEL and C1 controls |
| `DisplayText.UnitOfScalar` | src/uv/src/verifier_protocol.cpp:80-134 | the encoding of every scalar value is one step of the automaton, unless it is a control |
| `DisplayText.Utf8OfScalarOf` | src/uv/src/verifier_protocol.cpp:80-134 | every step of the automaton is the shortest encoding of a scalar value |
| `DisplayText.ValidateDisplayText` | src/uv/src/verifier_protocol.cpp:65-136 | the loop terminates and accepts exactly the display texts |
| `VerifierCodec.EncodeMessage` | src/uv/src/verifier_protocol.cpp:280-308 | the packet buffer ends up with the encoding, or none is made for an invalid message |
| `VerifierCodec.WritePayload` | src/uv/src/verifier_protocol.cpp:172-257 | the payload of each kind is written right after the header |
| `VerifierCodec.EncodedAs` | src/uv/src/verifier_protocol.cpp:172-308 | the packet of every message byte by byte |
| `VerifierCodec.EncodedIff` | src/uv/src/verifier_protocol.cpp:172-308 | exactly which messages have a packet, all limits spelled out |
| `VerifierCodec.WriteUint32` | src/uv/src/verifier_protocol.cpp:157-162 | writes the 4-byte big-endian form and nothing else |
| `VerifierCodec.DecodeEncode` | src/uv/src/verifier_protocol.cpp:280-395 | decoding the encoding of a valid message returns it |
| `VerifierCodec.EncodeDecode` | src/uv/src/verifier_protocol.cpp:280-395 | an accepted packet decodes to a valid message whose encoding is the same bytes |
| `VerifierCodec.EncodingFits` | src/uv/src/verifier_protocol.hpp:15-29 | every encoding fits the 1026-byte packet limit |
| `VerifierEndpoints.RunVerifierService` | src/uv/src/verifier_client.cpp:115-197 | the loop exchanges and returns what the client function does, for every script of arrivals, callbacks, stops and timeouts |
| `VerifierEndpoints.ClientObeys` | src/uv/src/verifier_client.cpp:115-197 | everything the client exchanges is permitted; it returns a result exactly when the conversation completed with it, and a conversation it cancelled means stop, cancellation or timeout |
| `VerifierEndpoints.ClientExactly` | src/uv/src/verifier_client.cpp:115-197 | over every script the client says exactly what its turns call for up to the first that does not go on, a cancel included when stop, user or deadline ends it and the send works, and ends as that turn says |
| `VerifierEndpoints.SecretsAreTheCallbacks` | src/uv/src/verifier_client.cpp:176-186 | the secrets in that transcript are, in order, exactly those the callback provided |
| `VerifierEndpoints.Drain` | src/uv/src/cancellable_process.cpp:464-530 | the inner loop forwards statuses and secrets between worker and daemon as the broker function does, stopping at a completion, a refused message or a failing send |
| `VerifierEndpoints.ReceivedExactly` | src/uv/src/cancellable_process.cpp:464-530 | what comes of each worker message: what both sides have then been told, and when it raises or is a cancellation |
| `VerifierEndpoints.RunWorker` | src/uv/src/cancellable_process.cpp:464-584 | the outer loop has the effect the broker lemmas are about: draining, cancellation, exit status against completion, deadline |
| `VerifierEndpoints.TurnedExactly` | src/uv/src/cancellable_process.cpp:512-584 | what a turn does after draining: cancellation, failing look, exit status against completion, deadline, with what the worker is told in each |
| `VerifierEndpoints.WorkedOk` | src/uv/src/cancellable_process.cpp:464-584 | however long the loop runs both conversations stay legal, the daemon's is never completed by it, the daemon has been told exactly what the worker said and the worker given exactly what the daemon answered; a result is the worker's completion and is success exactly with exit status 0 |
| `VerifierEndpoints.RunConnection` | src/uv/src/pam_verifier_service.cpp:260-331 | the connection has the effect `ResultIsEarned` is about, a failing spawn or send included |
| `VerifierEndpoints.AuthorizedIff` | src/session_validation.cpp:43-53 | a session is authorised exactly if it is found, of that user, active and not remote |
| `VerifierEndpoints.ResultIsEarned` | src/uv/src/pam_verifier_service.cpp:260-331 | success reaches the daemon if and only if the session was found, of that user, active and local before the spawn and again afterwards, the worker succeeded with no secret outstanding and exited 0, and sending the completion worked; denial if and only if the worker denied, its exit was seen and sending worked; no worker runs for an unauthorised session |
| `VerifierEndpoints.ApprovalIsEarned` | src/uv/src/auth.cpp:235-257 | end to end, for every script of both programs over a connection that delivers in order: an approved verification had all of that and an unchanged user context |

## Left out

- The store without a generation counter: only the mode with a counter is modelled.
- Encryption, TPM and FAPI calls, hashing and signatures: an encrypted file is a document that the store alone can write, and signing is an outcome.
- JSON text, file modes, owners, symbolic links and temporary names: a file is a tree of fields with a size, the disk a set of possible files.
- CBOR parsing and response bytes, and the MakeCredential response: a request is its parsed fields; registering is its `put` and its reset of the pending sequence.
- D-Bus, logind, sockets, pipes, process spawning and signals: only their outcomes are inputs. The failure state of the D-Bus service, after which nothing is published at all, is not modelled.
- `has`, `get_by_credId` and listing in the store, `vauthctl`, the UI model, logging and example agents: only easy members.
- Erasure of secrets from memory: not a property of values.
- `allocate_cid` drawing until a free ID is found: the draw is an input.
- Packets the event loop sends besides keepalives and final packets (INIT replies, PING echoes, error packets): only their causes are modelled.
- The second clock reading of a loop turn: the model reads the clock once before a frame is handled and once before the keepalive.
- 64-bit wrap of task generations in the event loop: generations are unbounded there. Request, prompt and store generation limits are modelled.
- `std::sort` in the search is an insertion sort; it orders the same way because creation orders are distinct. The order in which a hash map is walked is arbitrary.
- The checks of the verifier client before it connects and a failure to send its start message, and the peer check of the broker: no message has been exchanged yet.
- Blocking waits are sequences of turns, each with the clock and the stop request as inputs; condition variables and missed wake-ups are not modelled.
- Exceptions that end a command before a response is built are one outcome, without the status code the packet layer chooses for it.
- `VerificationResult` values other than the three named ones: the codec admits none.
- Interactions.PresenceTurn: one turn of the wait, with the deadline as an input; positive-timeout checks of the waits are left out.
- RequestVerification: takes the verifier service's outcome as an input; `VerifierEndpoints` is about that outcome.
