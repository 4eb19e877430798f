# Verification of mult's state, terminals and remote commands

`mult` is a terminal program that keeps workspaces of shells and coding agents.
This project models the parts of it that carry state or parse bytes, and proves
what they are for:

- **Terminal queries** (`TerminalQueries`, `ResponderFeed`): the detector that spots
  device and cursor queries in pane output, and the batched loop that drives it
  beside an emulator. The emulator is any state with a transition per byte.
- **Scrollback walk** (`ScrollbackWalk`): reading a long selection a screenful at a
  time by moving the view, against one slice of the whole history.
- **Pane table and attach protocol** (`PaneTable`, `AttachProtocol`, `OutputDelivery`,
  `HeldLease`, `Reattachment`, `AttachFaults`, `SessionStart`, `PtyRuntime`): leases,
  replays, live output, takeovers, reconnects. A pane carries a log of the output accepted
  since the last completed replay, and a lease the connection it was granted on; the
  theorems compare them with what the daemon puts out and can send.
- **Identifiers and identities** (`IdAllocator`, `IdRepair`, `SessionIdentities`,
  `ProjectModel`, `ProjectNormalization`, `ProjectOperations`, `ProjectRoundTrips`,
  `ProjectRemovals`, `ProjectState`): the wrap-around allocator, the repair of decoded IDs,
  the token tables, and every operation on a project. Entropy is an arbitrary stream of
  draws that may fail.
- **Messages** (`ChatMessages`): the size cap on a streamed chat message, over bytes.
- **Storage** (`StateMigration`, `SessionInheritance`, `StateDirectory`, `StateStore`): the
  migration chain, which sessions keep their tokens, load and save through a codec, and
  the directory while a save or a backup is under way.
- **Transcript journal** (`TranscriptCodec`, `TranscriptJournal`): the newline-framed
  log, cut by a crash at any byte.
- **Remote commands** (`ShellLexer`, `RemoteCommands`): the two-layer quoting, read back
  by a lexer written from section 2.2 of the POSIX.1-2017 Shell Command Language.
- **Project search** (`UnicodeText`, `FuzzyMatch`): word splitting, the greedy fuzzy
  matcher and its ranking.

A class stands for an object the program updates in place; each of its methods is
proved equal to a function of the state before, and the theorems are about those
functions. `nat -> Draw` is an entropy stream; a position in it says how much has been
drawn.

Five properties turn out false as the code or its comments put them. Each is kept as the
code has it, with an exact condition:

- A message that lands exactly on its content limit is full and gets no truncation
  notice, so later text disappears unmarked (`src/model.rs:40-43` promises one).
  `StreamedMessage` says when the notice is there, `DroppedWithoutNotice` gives the case.
- Saving has no size limit and loading has one, so a saved state loads back exactly when
  its encoding is within 16 MiB (`SaveThenLoad`). One long name makes a file that does
  not (`SavedButTooLargeToLoad`).
- Deleting the top ID of the range may move an allocator hint
  (`FreeingMovesHintExactlyWhen`, `FreeingTheTopMovesHint`), so a project saved after a
  removal loads back unmarked exactly when the hints outlive the removal
  (`RemovalStaysSettledIff`, `RemoveSaveLoadIff`).
- An attach begun while a lease is still held can report success and leave the terminal
  not running: the lease may be rejected midway, or, if it was granted on this very
  connection, taken over here by the daemon. With no lease held, or only the last there
  is, it never does. This holds of re-attaching, of attaching to an existing session and
  of starting one (`ReattachIsCleanIff`, `AttachExistingIsCleanIff`, `StartIsCleanIff`).
  Under a lease of this connection the old output may stand on screen before the replay
  as well (`AlwaysReplayedIff`), and the fault repeats: a rejected re-attachment leaves the
  terminal unbound under a lease of this connection, and each attach taken over here leaves
  it so again (`FaultIsReachable`, `FaultRepeatsIff`, `FaultPersists`).
- A renumbered session does not always get a token of its own: entries left over in the
  tables under the ID it takes become its token and its generation
  (`RenumberedChatIsMintedIff`, `RenumberedTerminalIsMintedIff`, `OrphanIsInherited`).

Run `dafny verify dfyconfig.toml` to check everything.

## Model

| member | source | states |
|---|---|---|
| `TerminalQueries.Step` | src/pty.rs:3495-3550 | one byte never leaves more than the capped parameters collected |
| `TerminalQueries.TerminalResponseDetector.Advance` | src/pty.rs:3495-3550 | the state machine over its fixed parameter buffer moves and answers as the value model does, for every state and byte |
| `TerminalQueries.TerminalResponseDetector.ObserveModeChange` | src/pty.rs:3469-3487 | a completed mode switch sets focus reporting and alternate scroll, and nothing else |
| `TerminalQueries.ScanAppend` | src/pty.rs:3495-3550 | state and queries of a stream are those of its pieces, wherever it is cut |
| `TerminalQueries.ControlSequenceRecognised` | src/pty.rs:3759-3776 | a whole control sequence of ECMA-48 section 5.4 asks exactly the query its body and final byte name, or nothing when its body is over the cap, and always returns to rest |
| `TerminalQueries.ParamsRoundTrip` | src/pty.rs:3787-3793 | decimal parameters written with `;` read back as themselves |
| `TerminalQueries.ReportCarriesPosition` | src/pty.rs:3778-3785 | a cursor report is itself a control sequence whose parameters are the one-based position |
| `ResponderFeed.FeedParserWithResponder` | src/pty.rs:3704-3757 | from any detector state and screen, the batched loop ends with the screen, detector and payload of feeding each byte on its own |
| `ResponderFeed.FeedParserByteAtATime` | src/pty.rs:6330-6355 | the reference loop means the same byte-by-byte feed |
| `ResponderFeed.ScanSequence` | src/pty.rs:3729-3741 | one scanned sequence moves screen and detector like its bytes one by one, its query being completed by the last of them |
| `ResponderFeed.AnswerOn` | src/pty.rs:3743-3754 | an answer is added unless it repeats a cursor report or passes the budget |
| `ResponderFeed.FindEscape` | src/pty.rs:3714-3719 | the run before the first escape holds no escape |
| `ResponderFeed.Parser.Process` | vendor/fnug-vt100/src/parser.rs:21-25 | a batch draws like its bytes one by one |
| `ResponderFeed.IdleRun` | src/pty.rs:3713-3723 | while the detector rests, text without escapes only reaches the screen |
| `ResponderFeed.FeedEndState` | src/pty.rs:3704-3757 | screen and detector follow the stream alone, whatever is answered |
| `ResponderFeed.CutIndependence` | src/pty.rs:3704-3757 | for any cut of a stream into chunks, the end screen and detector are those of the uncut stream |
| `ResponderFeed.ChunkAnswer` | src/pty.rs:3704-3757 | a chunk is answered with the first eight reports of its queries in order, no cursor report after another, in at most 64 bytes |
| `ResponderFeed.OfferedSelection` | src/pty.rs:3743-3754 | the byte cap never drops a report: the choice is by kind and count only |
| `ScrollbackWalk.VisibleWindow` | vendor/fnug-vt100/src/grid.rs:119-131 | a view is one window of the whole history |
| `ScrollbackWalk.ScreenfulText` | vendor/fnug-vt100/src/screen.rs:184-224 | the text of some rows of a view, with the break it owes, is that part of the selection over the history |
| `ScrollbackWalk.PastTheNewestRow` | src/pty.rs:1714-1718 | a range past the newest row gives the text up to it and one break if that row did not wrap |
| `ScrollbackWalk.OlderThanTheHistory` | src/pty.rs:1719-1725 | rows the history no longer holds are skipped: the text starts whole at the oldest row |
| `ScrollbackWalk.Parser.ContentsBetweenRows` | src/pty.rs:1689-1757 | for any view, history and range, exactly the selected text over the whole history, with the view put back; nothing for an empty screen, range or text |
| `ScrollbackWalk.Parser.WalkRows` | src/pty.rs:1708-1753 | the walk terminates and its pieces join up without loss or repeat |
| `ScrollbackWalk.Parser.ReadScreenful` | src/pty.rs:1728-1751 | one screenful with its break leaves exactly the rest of the selection to read |
| `ScrollbackWalk.Parser.BringToTop` | src/pty.rs:1709-1714 | the wanted row comes to the top as far as the history allows |
| `ScrollbackWalk.Parser.SetScrollback` | vendor/fnug-vt100/src/grid.rs:184-186 | an offset is capped at the history held |
| `PaneTable.WireIdRoundTrip` | src/pty.rs:4221-4240 | the wire ID and the key for a pane are inverse, for a key exactly when its ID leaves bit 63 free |
| `PaneTable.WireIdInjective` | src/pty.rs:4225-4230 | durable keys never share a pane; an ID with bit 63 would |
| `PaneTable.BindKeepsInverse` | src/pty.rs:837-840 | binding a durable key keeps index and bindings inverse |
| `PaneTable.ClearKeepsInverse` | src/pty.rs:2441-2449 | clearing an attachment keeps them inverse |
| `PaneTable.RemoveKeepsInverse` | src/pty.rs:1000-1010 | removing a terminal leaves no index entry to it |
| `PaneTable.MessageKeepsInverse` | src/pty.rs:2287-2421 | no message breaks the index or adds or drops a terminal |
| `PaneTable.MessageKeepsContiguous` | src/pty.rs:2310-2358 | no honest message, in any order, puts a gap, duplicate or foreign byte into a log |
| `PaneTable.MessageGrantsNothing` | src/pty.rs:2287-2421 | a pane without a lease is untouched by every message: only an attach gives one back |
| `PaneTable.InstallKeepsHeld` | src/pty.rs:2766-2785 | no connection leaves a lease of another server instance or client scope behind, none has granted one yet as it is made, and a resumed one changes no pane |
| `AttachProtocol.FailureCommitsNothing` | src/pty.rs:1988-2166 | a failed attach leaves the table as if none of its replies, and so no replay byte, had arrived |
| `AttachProtocol.StepIgnoresReplies` | src/pty.rs:2038-2163 | short of completion, a reply changes nothing outside the attach |
| `AttachProtocol.AttachFromKeepsSound` | src/pty.rs:1988-2166 | every attach, however it goes, keeps index, bindings and logs right |
| `AttachProtocol.PerformKeepsSound` | src/pty.rs:1988-1998 | the same from the first write on, reconnects included |
| `OutputDelivery.StopsRunningExactlyWhen` | src/pty.rs:2310-2408 | a running terminal stops exactly on its own exit, takeover, definite rejection, or output out of sequence or past the last sequence; otherwise log and watermark grow by the output delivered |
| `OutputDelivery.StreamIsTakenWhole` | src/pty.rs:2353-2357 | output in order is taken whole however it is cut, and no other pane changes |
| `OutputDelivery.ReplayIsCommittedWhole` | src/pty.rs:2038-2149 | a replay in order succeeds however it is cut, and commits exactly its bytes, lease and watermark |
| `HeldLease.AttachFollows` | src/pty.rs:1988-2166 | whatever arrives in whatever order, an attach that succeeds shows the output under the lease it held and then the replay, and leaves the terminal running if and only if that lease was not exited, taken over or rejected while held |
| `HeldLease.PerformFollows` | src/pty.rs:1988-2166 | the same with the first write and its reconnect |
| `Reattachment.AttachIsReplayed` | src/pty.rs:1988-2166 | holding no lease, or one of an earlier connection: whatever the daemon can send, success shows exactly the replay, and the terminal runs unless that lease was rejected meanwhile |
| `Reattachment.RejectionLeavesItUnbound` | src/pty.rs:2380-2408 | a rejection under the held lease, then any whole replay under a later one: the attach succeeds with the replay committed, the terminal unbound and the new lease held on this connection |
| `Reattachment.AlwaysCleanIff` | src/pty.rs:1988-2166 | one attach of a bound pane ends clean whatever the daemon can send, output, exit and takeover under a lease of this connection included, if and only if no held lease can still be rejected |
| `Reattachment.AlwaysReplayedIff` | src/pty.rs:1988-2166 | its success always shows the replay alone, if and only if no lease of this connection is held with output still to come |
| `Reattachment.ReattachIsCleanIff` | src/pty.rs:2612-2654 | a re-attachment that reports success leaves the terminal running and showing exactly the replay, whatever the daemon can send, if and only if it holds no lease that a later one can follow |
| `Reattachment.AttachExistingIsCleanIff` | src/pty.rs:1095-1143 | the same for attaching to an existing session |
| `Reattachment.ReattachShowsTheReplayIff` | src/pty.rs:2612-2654 | the same of a re-attachment: the replay alone, always, if and only if no output under a lease of this connection can come |
| `Reattachment.AttachExistingShowsTheReplayIff` | src/pty.rs:1095-1143 | and of attaching to an existing session |
| `SessionStart.StartIsCleanIff` | src/pty.rs:1145-1217 | a start that reports success is clean whatever the daemon can send before and during it, the attach tried first included, if and only if it is refused at once or no held lease can still be rejected |
| `AttachFaults.FaultRepeatsIff` | src/pty.rs:1095-1143 | attaching to a terminal left unbound under a lease of this connection: success gets it running if and only if that lease was not ended meanwhile, and otherwise leaves it as it was found |
| `AttachFaults.TakeoverRepeatsTheFault` | src/pty.rs:2372-2378 | once the held lease is taken over on this connection, every success leaves the terminal unbound again, whatever follows |
| `AttachFaults.TakeoverLeavesItUnbound` | src/pty.rs:2372-2378 | and there is such a success for every later lease and every replay, made only of what the daemon can send and without a rejection |
| `AttachFaults.FaultPersists` | src/pty.rs:1095-1143 | no number of such attaches on one connection gets the terminal running |
| `AttachFaults.OldOutputWouldReachTheScreen` | src/pty.rs:2612-2632 | only the daemon's delivery rule keeps old output off: honest output under the held lease would stand on screen ahead of the replay, and is sent here exactly when the lease was granted here |
| `PtyRuntimeObject.RunKeepsSound` | src/pty.rs:356-369 | after every run from an empty runtime, index and bindings are inverse and each log is the daemon's output from first sequence to watermark |
| `PtyRuntimeObject.RunningLogIsTheOutput` | src/pty.rs:2310-2358 | for a running terminal, the log is that slice byte for byte, and its pane leads back to it |
| `PtyRuntimeObject.ReachableReattachIsCleanIff` | src/pty.rs:2612-2654 | the clean re-attachment condition holds in every reachable state |
| `PtyRuntimeObject.ReachableAttachIsCleanIff` | src/pty.rs:1095-1143 | both conditions for attaching to an existing session, in every reachable state |
| `PtyRuntimeObject.LeasedPaneIsReachable` | src/pty.rs:1095-1143 | connecting, registering an identity and attaching is an admissible run that leaves the pane running under the lease granted, with any replay in its log |
| `PtyRuntimeObject.UncleanReattachIsReachable` | src/pty.rs:2612-2654 | after that run a re-attachment can report success and leave the terminal not running |
| `PtyRuntimeObject.FaultIsReachable` | src/pty.rs:2612-2654 | attached, reconnected, and re-attached with a rejection: an admissible run to a terminal left unbound under a lease of the connection there is |
| `PtyRuntimeObject.ReachableFaultPersists` | src/pty.rs:1095-1143 | after any run that ends so, the attaches taken over on that connection never get it running |
| `PtyRuntimeObject.HeldLeasesAreCurrent` | src/pty.rs:2756-2786 | in every reachable state a lease held was granted by the server instance and scope now connected |
| `PtyRuntimeObject.LeaseOutlivesConnectionIff` | src/pty.rs:2766-2785 | in every reachable state a lease outlives the next connection exactly when it is resumed by the very instance and scope that granted it |
| `PtyRuntimeObject.IdentityIsKept` | src/pty.rs:856-874 | no event but the removal of the terminal changes an identity once registered |
| `PtyRuntimeObject.ApplyKeepsSound` | src/pty.rs:834-840 | each kind of event keeps the invariant |
| `PtyRuntimeObject.PtyRuntime.Bind` | src/pty.rs:837-840 | binds both ways |
| `PtyRuntimeObject.PtyRuntime.Clear` | src/pty.rs:2441-2449 | drops binding, lease and watermark together and says whose they were |
| `PtyRuntimeObject.PtyRuntime.Remove` | src/pty.rs:1000-1010 | drops the pane and its index entry |
| `PtyRuntimeObject.PtyRuntime.Reset` | src/pty.rs:991-998 | an empty screen and no exit status, the lease untouched |
| `PtyRuntimeObject.PtyRuntime.Unreconcile` | src/pty.rs:2423-2435 | lease and watermark go, the binding stays |
| `PtyRuntimeObject.PtyRuntime.TakeOutput` | src/pty.rs:2319-2357 | output in sequence is taken; a gap or an overflow asks for a fresh replay |
| `PtyRuntimeObject.PtyRuntime.HandleServerMessage` | src/pty.rs:2287-2421 | every message changes the table as the message function says, stale leases included |
| `PtyRuntimeObject.PtyRuntime.DropLeases` | src/pty.rs:2780-2783 | the loop takes lease and watermark from every pane and touches nothing else |
| `PtyRuntimeObject.PtyRuntime.AttachReply` | src/pty.rs:2038-2149 | each reply moves, completes or ends the attach as the reply function says |
| `PtyRuntimeObject.PtyRuntime.AttachMessage` | src/pty.rs:2037-2164 | other messages are routed, except live output under the new lease and connection-wide errors, which end it |
| `PtyRuntimeObject.PtyRuntime.AttachLost` | src/pty.rs:2017-2036 | a resumed connection on which the request is written again restarts the attach with an empty pane and no lease; any other end ends it |
| `PtyRuntimeObject.PtyRuntime.ResumeAndResend` | src/pty.rs:2868-2883 | a greeting by another instance or scope fails the request as uncertain; by the same one the request goes on if it can be written |
| `PtyRuntimeObject.PtyRuntime.AttachLoop` | src/pty.rs:2010-2165 | the loop is the attach function over what is received |
| `PtyRuntimeObject.PtyRuntime.Attach` | src/pty.rs:1988-2166 | the same with the first write |
| `PtyRuntimeObject.PtyRuntime.AttachToExisting` | src/pty.rs:1095-1143 | a definite refusal clears the binding, an uncertain failure keeps it |
| `PtyRuntimeObject.PtyRuntime.Create` | src/pty.rs:1939-1986 | what arrives before the answer is routed, a resumed connection goes on waiting, and the answer, a connection-wide error or the loss is reported |
| `PtyRuntimeObject.PtyRuntime.StartSession` | src/pty.rs:1164-1217 | waiting out a stop, creating and attaching, each failure settled as above |
| `PtyRuntimeObject.PtyRuntime.Start` | src/pty.rs:1145-1162 | a running terminal is refused, a bound one attached to first, and only a missing session started anew |
| `PtyRuntimeObject.PtyRuntime.ReattachTerminal` | src/pty.rs:2612-2654 | nothing to do without a binding or an identity; a vanished session counts as an exit; other failures keep the binding |
| `PtyRuntimeObject.PtyRuntime.StopAsync` | src/pty.rs:1239-1269 | a stop that was sent ends the attachment at once |
| `IdAllocator.FirstAvailableInRange` | src/model.rs:1387-1401 | the scan of the used IDs finds the first free one of the range, without overflow |
| `IdAllocator.FindAvailable` | src/model.rs:1372-1385 | the two searches from the hint give the allocator function |
| `IdAllocator.TakeAvailable` | src/model.rs:1365-1370 | takes that ID, marks it used and gives the next hint |
| `IdAllocator.FirstFreeInCyclicOrder` | src/model.rs:1372-1385 | the free ID nearest to the hint going round `1..=max`; none exactly when every ID is used |
| `IdAllocator.FreeIdExists` | src/model.rs:1372-1385 | an ID is found whenever fewer than `max` are used |
| `IdAllocator.TakenIdIsFresh` | src/model.rs:1365-1370 | the ID is new, and the next hint is free, or zero exactly when the range is now full |
| `IdAllocator.StableHintIffFixed` | src/model.rs:1411-1422 | normalizing leaves a hint alone exactly when it is free and above every used ID, wraps to the first free one, or is zero in a full range |
| `IdAllocator.NormalizedHintIsStable` | src/model.rs:1411-1422 | normalizing once settles a hint |
| `IdAllocator.TakeKeepsHintStable` | src/model.rs:1365-1422 | allocating from a settled hint takes it and leaves a settled hint |
| `IdAllocator.FreeingMovesHintExactlyWhen` | src/model.rs:1411-1422 | freeing any IDs keeps the hint settled except from a full range, or when the top ID goes and the hint is not above the rest |
| `IdAllocator.FreeingTheTopMovesHint` | src/model.rs:1411-1422 | in any range above 6, both real ones included: with 5 and the top ID used the hint 1 is settled, and deleting the top moves it to 6 |
| `IdRepair.RepairStep` | src/model.rs:783-790 | one item keeps a first valid ID or gets a free one |
| `IdRepair.RepairIds` | src/model.rs:773-849 | the loop gives the repaired list and reports whether it differs |
| `IdRepair.RepairFitsIff` | src/model.rs:755-849 | repair succeeds exactly when the items fit the range |
| `IdRepair.RepairKeepsFirstHolders` | src/model.rs:773-849 | the result is distinct and valid, first holders of a valid ID keep it, and a new ID is one used nowhere in the list, even later |
| `IdRepair.RepairSettles` | src/model.rs:773-849 | good IDs are left alone, and repairing twice is repairing once |
| `SessionIdentities.GenerateIdentity` | src/model.rs:1274-1292 | draws until an acceptable identity, a failure or the last attempt |
| `SessionIdentities.MintIsFirstAcceptable` | src/model.rs:1274-1292 | gives exactly the first draw that is nonzero and not taken, if no draw before it failed and attempts suffice |
| `SessionIdentities.MintIsNew` | src/model.rs:1274-1292 | an identity minted is not one already taken |
| `SessionIdentities.RetainLive` | src/model.rs:627-644 | the in-place cut of one table is the table function |
| `SessionIdentities.RetainIsClean` | src/model.rs:627-644 | what is kept is live, unchanged, and distinct from all before it |
| `SessionIdentities.RetainDropsOnly` | src/model.rs:627-644 | a live entry is dropped only if its token was already seen |
| `SessionIdentities.RetainKeepsSurvivors` | src/model.rs:627-644 | an entry is kept exactly when its session is live, its token is not taken by another table, and no live session before it holds it |
| `SessionIdentities.RetainAll` | src/model.rs:627-644 | a table already clean is kept whole |
| `SessionIdentities.FillMissing` | src/model.rs:646-665 | mints a token for each session without one and reports whether it did |
| `SessionIdentities.FillCovers` | src/model.rs:646-665 | afterwards every listed session has a token, the old ones unchanged, all apart |
| `SessionIdentities.FillNothing` | src/model.rs:646-665 | a full table is kept and nothing is drawn |
| `ProjectModel.RenumberingKeepsTheRest` | src/model.rs:773-849 | renumbering touches nothing but IDs |
| `ProjectModel.ValidateAcceptsCoherent` | src/model.rs:515-602 | the counting checks accept exactly the projects with distinct valid IDs, tables for exactly the live sessions, tokens all apart, and generations only of live chats |
| `ProjectModel.TwoTablesCount` | src/model.rs:575-584 | counting distinct tokens of both tables decides whether all are apart |
| `ProjectNormalization.RepairedWorkspacesIs` | src/model.rs:755-849 | repair fails only when chats or terminals exceed the durable range (or workspaces 64 bits), and repairs each kind as above |
| `ProjectNormalization.NormalizeNextIdsSettles` | src/model.rs:711-753 | afterwards IDs are good and hints settled, a second pass changes nothing, and a settled project is left alone |
| `ProjectNormalization.NormalizationSettles` | src/model.rs:612-753 | from any decoded state, ID repair then table repair give a project validation accepts, which a second pass leaves alone without drawing entropy |
| `ProjectNormalization.CoherentIdentitiesStay` | src/model.rs:612-668 | an accepted project passes through unchanged, nothing drawn |
| `ProjectNormalization.ConsistentTokensSurvive` | src/model.rs:612-668 | every entry of tables already consistent survives |
| `ProjectNormalization.RepairedTablesSurvive` | src/model.rs:612-668 | whatever tables are decoded, afterwards the generations are exactly those that survive, and every surviving token is there |
| `ProjectNormalization.ValidIdsStay` | src/model.rs:773-849 | every valid ID of the decoded list is still in use after the repair |
| `ProjectNormalization.UnchangedMeansKept` | src/model.rs:612-668 | a pass that changes nothing dropped nothing |
| `ProjectNormalization.StatusesSettle` | src/storage.rs:677-693 | afterwards no chat is busy without a generation; nothing changes exactly when none was |
| `ProjectOperations.ApplyKeepsCoherent` | src/model.rs:851-1131 | each operation keeps an accepted project accepted |
| `ProjectOperations.RunKeepsValid` | src/model.rs:851-1231 | every run of operations keeps validation satisfied, whatever the entropy |
| `ProjectOperations.FailureChangesNothing` | src/model.rs:1179-1231 | an operation that fails for entropy or exhaustion changes nothing |
| `ProjectOperations.AddChatKeeps` | src/model.rs:899-925 | an added chat keeps the project accepted and settled hints settled |
| `ProjectOperations.AddTerminalKeeps` | src/model.rs:1061-1087 | the same for a terminal |
| `ProjectOperations.RemoveWorkspaceKeeps` | src/model.rs:1089-1103 | removing a workspace takes its sessions' tokens and generations with it, and keeps the project accepted |
| `ProjectOperations.RemoveChatKeeps` | src/model.rs:1105-1116 | removing a chat takes its token and generation |
| `ProjectOperations.RemoveTerminalKeeps` | src/model.rs:1118-1131 | removing a terminal takes its token |
| `ProjectOperations.GenerationsKeep` | src/model.rs:939-969 | beginning and clearing generations keep the project accepted |
| `ProjectOperations.AdditionsStaySettled` | src/model.rs:1193-1231 | a run of additions from a settled project ends settled: nothing for a load to repair |
| `ProjectRemovals.RemovalStaysSettledIff` | src/model.rs:1089-1131 | a removal leaves a settled project settled if and only if no kind that lost IDs had a full range, or lost its top ID under a hint not above the rest |
| `ProjectRoundTrips.RemovingUndoesAddChat` | src/model.rs:899-1116 | the chat added is the one asked for, last in its workspace, and removing it gives the project back but for the hint |
| `ProjectRoundTrips.RemovingUndoesAddTerminal` | src/model.rs:1061-1131 | the same for a terminal |
| `ProjectRoundTrips.RemovingUndoesPushWorkspace` | src/model.rs:869-1103 | the same for a workspace |
| `ProjectRoundTrips.OnlyTheCurrentGenerationClears` | src/model.rs:939-969 | the generation begun clears, an earlier one no longer does |
| `ProjectStateObject.ProjectState.NormalizeExistingIds` | src/model.rs:773-849 | renumbers in place as the repair function says and reports whether anything moved |
| `ProjectStateObject.ProjectState.NormalizeHints` | src/model.rs:716-752 | settles the three hints and reports whether any moved |
| `ProjectStateObject.ProjectState.NormalizeNextIds` | src/model.rs:711-753 | capacity check, repair and hints together |
| `ProjectStateObject.ProjectState.RetainTables` | src/model.rs:627-644 | cuts the three tables down in place |
| `ProjectStateObject.ProjectState.NormalizeSessionIdentities` | src/model.rs:612-668 | cuts, then fills, drawing exactly as the table function does |
| `ProjectStateObject.ProjectState.NormalizeUnownedAgentStatuses` | src/storage.rs:677-693 | idles every busy chat no generation owns and reports whether it did |
| `ProjectStateObject.ProjectState.AllocateSessionToken` | src/model.rs:1179-1191 | a token unlike any in either table |
| `ProjectStateObject.ProjectState.PushWorkspace` | src/model.rs:869-886 | adds an empty workspace last, or fails unchanged |
| `ProjectStateObject.ProjectState.AddChat` | src/model.rs:899-925 | token first, then ID, then the chat; a failure or a missing workspace leaves the state |
| `ProjectStateObject.ProjectState.AddTerminal` | src/model.rs:1061-1087 | the same for a terminal |
| `ProjectStateObject.ProjectState.RemoveWorkspace` | src/model.rs:1089-1103 | drops the workspace and its sessions' entries in all three tables |
| `ProjectStateObject.ProjectState.RemoveChat` | src/model.rs:1105-1116 | drops the chat and its entries |
| `ProjectStateObject.ProjectState.RemoveTerminal` | src/model.rs:1118-1131 | drops the terminal and its token |
| `ProjectStateObject.ProjectState.BeginAgentGeneration` | src/model.rs:939-961 | a new generation for a chat that exists |
| `ProjectStateObject.ProjectState.ClearAgentGeneration` | src/model.rs:963-969 | clears exactly the named generation |
| `ChatMessages.PushCappedMessageText` | src/model.rs:1339-1361 | the loop that retreats to a character boundary gives the capped append |
| `ChatMessages.FullStaysFull` | src/model.rs:1331-1361 | once an append is cut or refused, every later one is refused and changes nothing |
| `ChatMessages.MessageStaysBounded` | src/model.rs:27-39 | no run of deltas passes 64 KiB or breaks UTF-8 |
| `ChatMessages.StreamedMessage` | src/model.rs:995-1361 | a message is the whole stream, or the stream cut at a character at most three bytes short of the limit with the notice, or cut exactly at the limit without one when some deltas land on it |
| `ChatMessages.DroppedWithoutNotice` | src/model.rs:40-43 | a stream that stops on the limit and goes on loses text unmarked |
| `ChatMessages.BoundaryNearby` | src/model.rs:1353-1357 | a character boundary is at most three bytes back |
| `ChatMessages.Utf8Cut` | src/model.rs:1353-1358 | a cut at a boundary leaves whole characters on both sides |
| `ChatMessages.SameRoleRun` | src/model.rs:995-1028 | deltas of one role grow one message and leave the earlier ones alone |
| `StateMigration.RepairKeepsSessions` | src/storage.rs:637-675 | a repaired project carries every session in order, only invalid or repeated IDs and busy statuses without a surviving generation changed, with exactly the surviving generations and every surviving token |
| `StateMigration.RepairKeepsTokens` | src/storage.rs:637-675 | tables that name only valid IDs of the list, with no token twice, are kept entry for entry, whatever IDs are repaired |
| `StateMigration.RepairKeepsGenerations` | src/storage.rs:637-675 | a generation table of that kind is kept verbatim, and the busy chats kept are exactly those it owns |
| `SessionInheritance.RenumberedChatIsMintedIff` | src/model.rs:612-668 | a renumbered chat takes an ID no decoded chat had, gets a token newly drawn and unlike any surviving one if and only if no entry decoded under that ID survives, and otherwise goes on with that entry; it has a generation exactly when one survives there |
| `SessionInheritance.RenumberedTerminalIsMintedIff` | src/model.rs:612-668 | the same for a terminal, whose entry also gives way to a chat with its token |
| `SessionInheritance.RepairDrawsTheRest` | src/model.rs:646-665 | every token that no surviving entry gives is one of the draws of this repair |
| `SessionInheritance.OrphanIsInherited` | src/model.rs:612-668 | two chats under the ID 5 and entries left over under 1: the second becomes 1 and goes on with the left-over token and generation, nothing drawn |
| `StateMigration.MigrateV3IsRepair` | src/storage.rs:616-675 | version 3 comes out repaired as above, settled and local, and fails only as the repair does |
| `StateMigration.MigrationKeepsSessions` | src/storage.rs:568-606 | version 2 keeps every workspace, chat and terminal with its fields, repairs only invalid or repeated IDs, keeps every surviving token and exactly the surviving generations, and restores exactly the terminals that were running |
| `StateMigration.MigrationV2KeepsTables` | src/storage.rs:568-606 | consistent version-2 tables are kept verbatim, generations included |
| `StateMigration.MigrationV1KeepsSessions` | src/storage.rs:498-566 | version 1 the same, with a new namespace and no tables to keep |
| `StateMigration.MigrationKeepsTokens` | src/storage.rs:637-675 | a consistent version-3 token table is kept verbatim |
| `StateMigration.MigrationKeepsGenerations` | src/storage.rs:637-675 | a consistent version-3 generation table is kept verbatim and decides which busy chats stay busy |
| `StateMigration.MigrationIsAccepted` | src/storage.rs:616-623 | the last validation never refuses a migrated state |
| `StateMigration.MigrationExhaustsExactlyWhen` | src/storage.rs:637-675 | migration runs out of IDs exactly when the sessions exceed the durable range |
| `StateDirectory.SaveToDirectory` | src/storage.rs:709-753 | after every step, wherever it stops or fails, the state name holds the whole old or the whole new bytes and no other existing entry changed; success means the new bytes, synced |
| `StateDirectory.WriteAndRename` | src/storage.rs:725-746 | the temporary file is written, synced and renamed, each step such a state |
| `StateDirectory.BackupInvalidState` | src/storage.rs:370-412 | an undecodable file is moved whole to a new name, or stays; however it ends, the directory holds its bytes under one of the two |
| `StateDirectory.BackupKeepsBytesOnce` | src/storage.rs:370-412 | at every step its bytes are under exactly one name |
| `StateStore.LoadedIsSettled` | src/storage.rs:274-357 | whatever the file holds, a project that loads is one a load would not change |
| `StateStore.NeedsSaveIffChanged` | src/storage.rs:307-331 | a load asks for a save exactly when it changed what it decoded |
| `StateStore.SettledLoadsAsIs` | src/storage.rs:307-331 | a settled project loads as itself, nothing drawn |
| `StateStore.SaveThenLoad` | src/storage.rs:265-331 | a saved settled project loads back equal and unmarked exactly when its file is within the size limit |
| `StateStore.SavedButTooLargeToLoad` | src/storage.rs:265-286 | under any codec that carries names, one workspace with a name past 16 MiB is a project that saves and never loads |
| `StateStore.LoadAddSaveLoad` | src/storage.rs:265-331 | load, any run of additions, save, load: equal, with nothing to save |
| `StateStore.RemoveSaveLoadIff` | src/storage.rs:265-331 | after a removal, save and load give the project back unmarked if and only if the hints outlive the removal and the file is within the limit |
| `StateStore.RepairInPlace` | src/storage.rs:317-321 | the three repairs in order, stopping at the first failure, reporting any change |
| `StateStore.LoadV4OrV5` | src/storage.rs:307-331 | bump, repair, validate |
| `StateStore.LoadFile` | src/storage.rs:274-357 | every kind of file leads to the result the load function gives |
| `StateStore.Store.Save` | src/storage.rs:265-272 | only an accepted project of the current version is written, through the safe save; a failed save still leaves the whole old or the whole new file |
| `StateStore.Store.LoadWithIdentitySource` | src/storage.rs:274-357 | the directory changes only to move an undecodable file aside, once its replacement is ready, and even when that fails the bytes stand under exactly one name |
| `TranscriptCodec.RecordRoundTrip` | src/transcript.rs:146-154 | a record decodes to itself and its line holds no line feed |
| `TranscriptCodec.EscapeRoundTrip` | src/transcript.rs:153-154 | escaping removes line feeds and is undone by unescaping |
| `TranscriptJournals.SplitAppend` | src/transcript.rs:206-216 | splitting goes on where it stopped |
| `TranscriptJournals.AppendLine` | src/transcript.rs:153-154 | appending a whole line adds exactly that line |
| `TranscriptJournals.CutLines` | src/transcript.rs:206-216 | a cut keeps as many lines as line feeds |
| `TranscriptJournals.CutRecovery` | src/transcript.rs:191-274 | after a cut at any byte, truncating recovers exactly the records whose line feed survived and leaves a complete journal; refusing opens exactly at a record boundary and never changes the file |
| `TranscriptJournals.RecoveredIsComplete` | src/transcript.rs:191-274 | whatever opens is whole lines, numbered from one |
| `TranscriptJournals.AppendKeepsComplete` | src/transcript.rs:144-188 | an append that fits extends a complete journal by its record |
| `TranscriptJournals.LifetimeReadsBack` | src/transcript.rs:97-274 | after any run of appends and crashes, the file reads back as the records appended and not cut, numbered without a gap |
| `TranscriptJournals.ReadLines` | src/transcript.rs:210-252 | the checks line by line, in order, with the numbers expected |
| `TranscriptJournals.ReadAndRecover` | src/transcript.rs:191-274 | reads, and truncates the file only when asked to and only its partial tail |
| `TranscriptJournals.TranscriptJournal.OpenWithRecovery` | src/transcript.rs:97-138 | opens on what was recovered, ready for the next number |
| `TranscriptJournals.TranscriptJournal.Append` | src/transcript.rs:144-188 | succeeds exactly within the caps, adding one record and one line with the next number; otherwise nothing moves |
| `ShellLexer.PlainText` | src/remote.rs:148-168 | a word of plain characters reads as itself |
| `ShellLexer.DoubleVariable` | src/remote.rs:229-248 | `$NAME` in double quotes becomes the variable's value |
| `UnicodeText.WordsAreTheStretches` | src/app/open_workspace.rs:307-309 | the words are every longest stretch without white space, each once, from left to right |
| `RemoteCommands.EscapeForDoubleQuotes` | src/remote.rs:265-274 | the buffer loop escapes exactly what double quotes interpret |
| `RemoteCommands.QuotedIsOneWord` | src/remote.rs:252-261 | a quoted value is one word, verbatim, whatever it holds |
| `RemoteCommands.PathIsOneWord` | src/remote.rs:236-248 | the path token is one word, `~` being the home of the shell that reads it |
| `RemoteCommands.LocalShellSplitsSsh` | src/remote.rs:208-214 | the local shell gives `ssh` its option, the destination and one remote line, in any environment |
| `RemoteCommands.BothShellsAgree` | src/remote.rs:148-168 | for every target and command, the remote shell splits that line into exactly the intended tmux arguments |
| `RemoteCommands.RemoteShellSplitsTmux` | src/remote.rs:148-172 | the tmux line reads back as its argument vector, separators quoted |
| `RemoteCommands.WrappedCommandIsUntouched` | src/remote.rs:196-203 | after the `cd`, the remote shell reads the user's command as if alone |
| `RemoteCommands.LoginShellIsTheirs` | src/remote.rs:180-187 | a remote terminal is `cd` and the remote user's own login shell |
| `FuzzyMatch.GreedyLosesNothing` | src/app/open_workspace.rs:323-347 | any placement of the term is matched by the greedy one, no character further right |
| `FuzzyMatch.ScoresIffSubsequence` | src/app/open_workspace.rs:312-351 | a term scores exactly when it is a subsequence of the name |
| `FuzzyMatch.FuzzyTermScore` | src/app/open_workspace.rs:312-351 | the loop's score is that of the leftmost placement |
| `FuzzyMatch.MatchOne` | src/app/open_workspace.rs:323-347 | one turn places the next character first possible and adds what it earns |
| `FuzzyMatch.ExactNameIsBest` | src/app/open_workspace.rs:312-351 | no name scores higher for a term than the term itself |
| `FuzzyMatch.ProjectScoresIff` | src/app/open_workspace.rs:300-310 | a project scores exactly when every word typed is a subsequence of its name |
| `FuzzyMatch.OpenWorkspaceMatchesFor` | src/app/open_workspace.rs:273-298 | the list is a ranking of the matching projects, best first, ties in configuration order |
| `FuzzyMatch.EachMatchOnce` | src/app/open_workspace.rs:273-298 | each matching project is in it once, no other is |
| `FuzzyMatch.RankingIsForced` | src/app/open_workspace.rs:296 | such a ranking is unique, so any correct sort gives it |

## Left out

- Sockets, threads, autospawn, timeouts and retry backoff (`src/pty.rs`): connections, losses and expiries are what the environment hands to each attach.
- Deferred messages: an attach is given the results of its waits for a message, so answers to other requests pass by unchanged.
- Request numbers, the re-attachment queue and the agent-status requests (`src/pty.rs:1372`, `src/pty.rs:2571-2599`): request IDs are parameters and re-attachments are events of a run.
- Events and messages shown to the user: their text and merging, foreground-process reports and the command tracker are not part of a pane.
- The emulator's grid for output: a pane records the bytes its parser was fed, and `resize_parser` feeds none. The scrollback walk uses rows and cells as the vendored emulator stores them; colours and attributes do not matter to it.
- ContentsBetweenRows: the selection it returns joins a row to the next when the row wrapped, as the emulator records it; how rows come to wrap is not modelled.
- Deliverable: what the daemon can send to a connection is taken from its own rules (`src/bin/mult-server.rs:833-842`, `src/bin/mult-server.rs:1997-2003`, `src/bin/mult-server.rs:2783-2793`), which are not modelled further; `OldOutputWouldReachTheScreen` shows what rests on them. That output under a lease still arrives in sequence is not assumed.
- Connected: a run asks to resume the scope the client then has, as the program does; a connection made for an older scope is not an event.
- Streams: a daemon that misreports bytes is outside the contiguity theorem; that logs keep their length in step with the watermark does not depend on it.
- ReportCarriesPosition: cursor positions are below 65535, because screens are at most 1000 by 1000.
- IsUtf8: whole characters by lead and continuation bytes; overlong forms and surrogates are not excluded.
- MakeAnew: the names of the first workspace and terminal come from the environment in the program and are parameters or fixed here.
- NormalizeNextIds: on exhaustion the state is given back unchanged, where the program returns an error after changing part of a state its callers then drop.
- RepairIds: the program renumbers through one iterator over all workspaces; here the IDs are listed in that order, repaired, and put back.
- Collections longer than a 64-bit count.
- Permissions, owners, symbolic links, file modes, `flock` and `/dev/urandom` (`src/storage.rs`): a directory is a map from names to bytes whose steps may fail.
- Append: a write that fails part-way leaves the open journal and its file at odds; only whole writes and crash cuts are modelled.
- TranscriptCodec: a concrete escaped encoding stands in for JSON; state files use any codec that reads back what it writes.
- `session_name` and `head_file_token` (`src/remote.rs:102-120`, `src/remote.rs:221-227`): one-pass string rewrites with easy claims.
- Lower-casing in `FuzzyMatch` is a parameter; the path helpers beside the matcher are left out.
- FuzzyTermScore: scores are unbounded integers, since a term would need 2^58 characters to overflow 64 bits.
- Shells other than POSIX ones, and constructs beyond quoting, `$NAME` and operators: a line that uses them is unreadable to `ShellLexer`.
- Layout, key bindings, notices, configuration, the command line, git and agent processes: interface and plumbing.
