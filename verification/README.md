# Desktop session engine

A Dafny model of the event-sourced client of a coding-agent daemon, and proofs of what it promises.

The desktop client receives durable events, history pages and snapshots over a connection that drops,
duplicates and reorders them. It folds them into one session on screen. Around that fold are protocols: repairing
holes in the stream, attaching to another session, resubmitting a failed objective on another model, announcing
work that blocks a human, reviewing a patch, and sanitizing failure text. A second client, the ACP bridge, turns the
same events into one editor turn.

The project models seven parts, each in the form its source has: values and folds where the source computes values,
classes and loops where it updates things in place. Each such method is proved against a specification function, and
the theorems are about that function.

| part | files | main results |
|---|---|---|
| session projection | `Events`, `Projection`, `EventEffects`, `Retention`, `Store`, `StoreEffects`, `Convergence`, `Replay`, `StreamedText`, `SiblingRuns`, `ToolCards` | convergence under any order and duplication; what every kind of event and action does to the session; in-place replay refines the fold and never writes a published array; streamed text is conserved; sibling runs do not interfere; a finished run shows no running tool; retention is ordered in every reachable state |
| gap repair | `GapRepair` | no hole is lost over any interleaving of live events, pages, compacted snapshots and late repairs |
| attachment | `Attachment`, `AttachmentEffects`, `AttachmentWindows`, `AttachmentController` | attaches settle in request order; a refusal leaves the old session as its own frames made it; an acceptance is the fold of its held-back frames |
| model recovery | `Recovery`, `RecoveryBounds`, `RecoverySafety`, `RecoveryCauses`, `RecoveryController` | at most two resubmissions, one recovery in flight, fresh models; every automatic act answers a model failure of the bound run, where the objective was submitted; nothing is done for a retired chain; re-delivery changes nothing |
| patch review | `PatchReview`, `PatchReader`, `PatchHunks`, `PatchTargets`, `PatchTruncation`, `PatchRoundTrip`, `PatchGit`, `PatchSafety`, `PatchConservation` | printing and reading round-trips, git headers and their extended lines included; every line of a cleanly read text is shown or is a header, blank or binary payload; every returned hunk is whole, every path safe; jump targets are inside exactly when no hunk read without a new side reaches past it; truncation is safe, file by file |
| failure text | `Sanitizer`, `SanitizerLoops`, `SanitizerLocality`, `SanitizerHiding`, `SanitizerRaw`, `SanitizerText` | values of recognised keys, quoted or not, and words with a recognised prefix are hidden; other text comes through; output is bounded and free of control characters for every input |
| notifications, ACP turn | `Notifier`, `NotifierEffects`, `BlockingCards`, `AcpTurn`, `AcpStory` | what is pending and unknown is announced, once, in bounded memory; cards and pending work agree exactly when they do; a turn tells its run's story, answers as its client chose, and is isolated from other runs |

Three findings, stated with their exact conditions:

- The cards a rebuild leaves and the notifier's pending work agree for every event list, except when a question with an
  empty id was asked and the last word on that id is a resolution: its card is keyed by its sequence, so no resolution
  retires it (`BlockingCards.TwoFoldsAgree`, an if-and-only-if, and `BlockingCards.UnnamedQuestionKeepsItsCard`).
- The patch reader decides whether a file's new side exists when it reads a hunk, and a metadata line after the hunks can
  still make it appear. For every returned file, all jump targets lie in their hunks' new sides if and only if no hunk
  that was read while the new side was absent has a last row whose old line is past it
  (`PatchTargets.TargetsInsideExactly`). A caller can rule that out on the text alone: no line that renames or deletes
  a new side stands between a hunk header and the next git file header (`PatchTargets.TargetsStayInside`).
  `PatchTargets.LateRenameKeepsOldTargets` is a text on which the property fails.
- The grammar of a `diff --git` line takes the last space that can stand between the names. For reviewable unquoted
  names the line reads back as it was printed if and only if the new name holds no ` b/` with something after it
  (`PatchGit.HeaderNamesExactly`); otherwise it is split inside the new name (`PatchGit.LateSplitMisreads`).

What the environment decides is a parameter or a step: when and in which order frames, replies and repairs arrive, what
they hold, whether a command fails, what the visible scope is, which client answers a permission request.

Lemmas that `hide` definitions do so to keep each proof small; nothing is assumed.

## Model

| member | source | states |
|---|---|---|
| `ToolCards.FinishedRunHasNoRunningTools` | apps/desktop/src/daemonState.ts:1434-1446 | once a run has ended, no tool card of it is running, whatever follows, until one of its tools starts again |
| `Projection.FindLast` | apps/desktop/src/daemonState.ts:892-931 | a completion picks the latest running card of its tool and run, or none when there is none |
| `Projection.FindFirst` | apps/desktop/src/daemonState.ts:1013-1030 | an update picks the earliest matching row, or none when there is none |
| `Projection.ToolStartEdit` | apps/desktop/src/daemonState.ts:852-891 | a tool start refines the first card of the same ACP call, keeping its status, and otherwise adds one running card of that tool and run |
| `Projection.QuestionEdit` | apps/desktop/src/daemonState.ts:1082-1125 | a re-asked question revises the card of the same key in place, otherwise adds it |
| `Projection.NoteEdit` | apps/desktop/src/daemonState.ts:1209-1266 | a note is dropped, appended, or folded into the backstage row of its own run or of the session, and touches no other row |
| `Projection.FoldConcat` | apps/desktop/src/daemonState.ts:690-716 | replaying a history in two parts is replaying it at once |
| `EventEffects.CompletionWritesOutcome` | apps/desktop/src/daemonState.ts:892-922 | a completion writes success or failure, the artifact and a failure's message into the latest running card of its tool and run, and changes nothing else of any row |
| `EventEffects.CompletionWithoutCard` | apps/desktop/src/daemonState.ts:907-922 | without a running card a completion changes no row |
| `EventEffects.CompletionMovesActivity` | apps/desktop/src/daemonState.ts:922-931 | the working row then names the latest tool still running, unless a human is awaited or the run is a sibling |
| `EventEffects.ToolWords` | apps/desktop/src/daemonState.ts:852-866 | an ACP title splits at its first separator into kind and action; other tools keep their own name |
| `EventEffects.StartAddsOrRetitles` | apps/desktop/src/daemonState.ts:852-890 | a tool start adds one running card, and a repeated ACP start retitles the first card of its call instead |
| `EventEffects.StartMovesActivity` | apps/desktop/src/daemonState.ts:880-891 | the working row names a started tool, unless it is a sibling's or its card had already ended |
| `EventEffects.UpdateRetitles` | apps/desktop/src/daemonState.ts:932-954 | an update retitles the first card of its tool and run, and the working row only if it named that running card |
| `EventEffects.UpdateWithoutCard` | apps/desktop/src/daemonState.ts:932-954 | an update without a title or a card changes nothing |
| `EventEffects.DeltaExtendsOrAdds` | apps/desktop/src/daemonState.ts:824-850 | a delta lengthens the last row exactly when that is its own run, kind and model, and adds a row otherwise |
| `EventEffects.StartShowsRun` | apps/desktop/src/daemonState.ts:782-822 | a start adds the objective's row, remembers the objective of every run, and shows the run unless another is shown |
| `EventEffects.EndSettlesAndReports` | apps/desktop/src/daemonState.ts:1267-1331 | an end finishes the run's running tools, adds no row for success, a failure with the run's own objective, or the way it ended, and clears the run if it is the one shown |
| `EventEffects.TransitionMovesRun` | apps/desktop/src/daemonState.ts:1333-1372 | a terminal transition settles and clears the displayed run; any other is recorded, moves the activity line, and adopts a run when none is shown |
| `EventEffects.ApprovalShowsCard` | apps/desktop/src/daemonState.ts:1049-1070 | a requested approval adds its card |
| `EventEffects.ApprovalRetiresCard` | apps/desktop/src/daemonState.ts:1071-1080 | a resolved approval takes away its cards and nothing else |
| `EventEffects.KeptRows` | apps/desktop/src/daemonState.ts:1071-1080 | what stays after a card is taken away is every other row, in its order |
| `EventEffects.QuestionShowsCard` | apps/desktop/src/daemonState.ts:1082-1125 | a question shows its card, in place of the earlier one of the same id, and waits unless it is a sibling's |
| `EventEffects.QuestionRetiresCard` | apps/desktop/src/daemonState.ts:1126-1162 | a resolved question leaves a note for its card, and ends the waiting unless a sibling had asked |
| `EventEffects.BudgetKeepsOneRow` | apps/desktop/src/daemonState.ts:1013-1029 | a budget warning keeps one row per run and dimension, and token use below eight tenths adds none |
| `EventEffects.NoteGoesBackstage` | apps/desktop/src/daemonState.ts:1209-1265 | context and memory notes are counted into one backstage row per run, all others are rows of their own |
| `EventEffects.TrimsExactly` | apps/desktop/src/daemonState.ts:1222-1223 | what a note starts with is read after exactly its leading white space |
| `EventEffects.LinesCounted` | apps/desktop/src/daemonState.ts:1242-1253 | a context note counts one line, and one more for each line break |
| `EventEffects.OtherEffects` | apps/desktop/src/daemonState.ts:956-1207 | what retries, denials, patches, usage, queues and bookkeeping add and move |
| `Retention.RetainsSequence` | apps/desktop/src/daemonState.ts:661-678 | bisection answers membership exactly on the order that every reachable state keeps |
| `Retention.MergeEvents` | apps/desktop/src/daemonState.ts:679-688 | the map-and-sort merge yields the unique ordered list of everything delivered, later deliveries winning |
| `Retention.SortValues` | apps/desktop/src/daemonState.ts:679-688 | sorting the map's values loses and invents nothing |
| `Retention.MergedOrders` | apps/desktop/src/daemonState.ts:679-688 | a merge is strictly increasing and holds, for every sequence, the last event delivered for it |
| `Retention.IncreasingUnique` | apps/desktop/src/daemonState.ts:679-688 | an ordered list is determined by what it holds, so arrival order cannot show |
| `Retention.MergedIdempotent` | apps/desktop/src/daemonState.ts:612-716 | merging what is already retained changes nothing |
| `Store.MergeDurableEvent` | apps/desktop/src/daemonState.ts:612-659 | append, duplicate check and merge-and-replay as they run compute the specified next state and keep the order |
| `Store.MergeDurableOrdered` | apps/desktop/src/daemonState.ts:612-659 | each of the three paths keeps retained events increasing and at or below the watermark |
| `Store.FrameOrdered` | apps/desktop/src/daemonState.ts:442-525 | so does every frame, of this session or another |
| `Store.ReachableOrdered` | apps/desktop/src/daemonState.ts:256-440 | in every state reachable by any actions, retained events are strictly increasing and none exceeds the watermark |
| `StoreEffects.CompactedSnapshotShows` | apps/desktop/src/daemonState.ts:563-606 | a compacted snapshot shows its latest active run, its queue and its pending approvals in place of the earlier approval cards, and raises the watermark; everything else stays |
| `StoreEffects.OtherCatchupsShowNothing` | apps/desktop/src/daemonState.ts:563-583 | any other catch-up changes nothing of its session |
| `StoreEffects.FramesOfOtherSessions` | apps/desktop/src/daemonState.ts:462-518 | a frame of another session is ignored while one is shown, and adopted empty when none is |
| `StoreEffects.DisconnectKeepsTranscript` | apps/desktop/src/daemonState.ts:444-461 | a dropped connection leaves nothing to address, and keeps the transcript, the events and the gap |
| `StoreEffects.ConnectionActions` | apps/desktop/src/daemonState.ts:258-303 | starting, failing and succeeding to connect move the connection alone, and a failure quiets the run |
| `StoreEffects.SelectionStartsEmpty` | apps/desktop/src/daemonState.ts:324-338 | selecting a session or a new chat starts empty, re-attaching the shown session keeps it |
| `StoreEffects.AttachActions` | apps/desktop/src/daemonState.ts:316-323 | a started attach is shown, and a failed one is cleared only if it is the one shown |
| `StoreEffects.NoticeActions` | apps/desktop/src/daemonState.ts:387-436 | errors and queue notices replace each other and touch nothing else |
| `StoreEffects.LaunchShowsRun` | apps/desktop/src/daemonState.ts:356-385 | a launch shows its run at once, unless the run's own events came first; another session starts empty |
| `StoreEffects.JumpRecordsMissing` | apps/desktop/src/daemonState.ts:612-643 | a live event past the next one opens a gap of exactly the missing range, or widens the open one to it |
| `StoreEffects.PagesOpenNoGap` | apps/desktop/src/daemonState.ts:473-488 | the first event of a session and a history page open no gap |
| `StoreEffects.RepairClearsExactly` | apps/desktop/src/daemonState.ts:285-293 | a repair clears the gap exactly when it is the session's and reaches its end |
| `StoreEffects.UnfinishedHistoryWidens` | apps/desktop/src/daemonState.ts:339-354 | an unfinished history records everything up to its watermark, and up to the open gap's end |
| `StoreEffects.EventsMoveOnlyTheSession` | apps/desktop/src/daemonState.ts:473-518 | live events and pages move only what they carry, and an event that names the session confirms it |
| `Convergence.MergeDurableConverges` | apps/desktop/src/daemonState.ts:612-659 | after any one live event the projection is still the replay of the distinct events delivered so far |
| `Convergence.MergeHistoryConverges` | apps/desktop/src/daemonState.ts:473-488 | after a history page it is so again, whatever was on screen before |
| `Convergence.SessionConverges` | apps/desktop/src/daemonState.ts:473-716 | from a reset, over any undisturbed run of live and history frames in any order with any duplicates, the projection is the replay of the distinct delivered events in sequence order |
| `Convergence.ClientsAgree` | apps/desktop/src/daemonState.ts:473-716 | two clients that received the same set of events show the same session |
| `Convergence.HistoryHeals` | apps/desktop/src/daemonState.ts:473-488 | in any reachable state, after disconnects and provisional launches too, a history page restores the replay of what is retained |
| `Convergence.RunRetains` | apps/desktop/src/daemonState.ts:256-525 | disconnects, provisional launches and compacted snapshots lose no event and reorder none |
| `Convergence.DisturbedSessionConverges` | apps/desktop/src/daemonState.ts:442-716 | from a reset, over any run that stays in the session, with any disturbance before its last history page, the projection is the replay of all distinct delivered events |
| `Convergence.ReachableConverges` | apps/desktop/src/daemonState.ts:442-716 | the same from any reachable state: its retained events, a page and what follows |
| `GapRepair.NoHoleLost` | apps/desktop/src/daemonState.ts:600-643 | over every run of one attachment, each log event from the first one seen to the watermark is retained, inside the recorded gap, or one that a compacted snapshot skipped and no page has read back since |
| `GapRepair.StaleRepairClearsNothingNewer` | apps/desktop/src/daemonState.ts:285-293 | a repair that clears the gap, however late it lands, covered the whole gap, and every event of it is then retained |
| `GapRepair.RepairSafe` | apps/desktop/src/useDaemon.ts:593-640 | a repair retains its whole range and keeps every missing event recorded |
| `GapRepair.AppendSafe` | apps/desktop/src/daemonState.ts:612-643 | a live event that jumps ahead opens or widens the gap by exactly what is missing |
| `GapRepair.PageSafe` | apps/desktop/src/daemonState.ts:473-488 | a history page that continues the covered range keeps every hole recorded, and what it covers no longer counts as skipped |
| `GapRepair.CompactSafe` | apps/desktop/src/daemonState.ts:584-605 | a compacted snapshot raises the watermark, and continuity counts on from it |
| `GapRepair.StepsAreDispatches` | apps/desktop/src/useDaemon.ts:595-624 | each step of the repair model is what the reducer does with the actions the client dispatches |
| `Replay.AppendTranscript` | apps/desktop/src/daemonState.ts:764-768 | appending in place or by copy yields the same rows; the copy leaves the original alone |
| `Replay.ReplaceTranscriptItem` | apps/desktop/src/daemonState.ts:770-774 | the same for replacing a row |
| `Replay.SettleRunTools` | apps/desktop/src/daemonState.ts:1436-1446 | the loop settles exactly the run's tools, and when live copies before its first write |
| `Replay.StartTool` | apps/desktop/src/daemonState.ts:852-890 | the card is written first and its status read off the written array: in place or by copy, the outcome is the pure step |
| `Replay.CompleteToolCard` | apps/desktop/src/daemonState.ts:907-922 | the search from the end rewrites the latest running card of the tool and run, and no other |
| `Replay.CompleteTool` | apps/desktop/src/daemonState.ts:892-930 | the working row is found by scanning the array after the completion was written into it |
| `Replay.AfterToolActivity` | apps/desktop/src/daemonState.ts:1422-1432 | the scan finds the latest running tool of the displayed run |
| `Replay.UpdateTool` | apps/desktop/src/daemonState.ts:932-954 | a retitled card moves the working row only if that row named the card as it was |
| `Replay.CompleteRun` | apps/desktop/src/daemonState.ts:1267-1331 | cards settle, then the row for the end is appended to the array that settled |
| `Replay.ChangeRunState` | apps/desktop/src/daemonState.ts:1333-1372 | the test for an unchanged array, which in-place settling always passes, never loses a settled card |
| `Replay.ApplyEvent` | apps/desktop/src/daemonState.ts:776-1389 | one event, read and written in the source's order, in place or by copy, has the meaning of the pure step; live it writes no existing array |
| `Replay.RebuildFromEvents` | apps/desktop/src/daemonState.ts:690-716 | bulk replay into one fresh array is the pure fold |
| `Replay.PublishedStore.OnEvent` | apps/desktop/src/daemonState.ts:612-659 | a live event moves the store as specified, and every array ever published keeps its contents |
| `Replay.PublishedStore.OnHistory` | apps/desktop/src/daemonState.ts:473-488 | the same for a history page, which replays in place |
| `StreamedText.ReplayConservesText` | apps/desktop/src/daemonState.ts:824-850 | for every run and kind, the transcript's stream rows spell exactly that run's deltas of that kind, in order |
| `StreamedText.SessionConservesText` | apps/desktop/src/daemonState.ts:612-850 | the same of a live session under reordering and duplication |
| `SiblingRuns.ViewIsAutonomous` | apps/desktop/src/daemonState.ts:718-822 | what is shown of a run's lifecycle moves without looking at the transcript or the activity line |
| `SiblingRuns.DisplayedThroughout` | apps/desktop/src/daemonState.ts:1267-1372 | a displayed run stays displayed until its own end |
| `SiblingRuns.SiblingsDoNotInterfere` | apps/desktop/src/daemonState.ts:718-727 | while a run is displayed, deleting every event that names another run changes nothing of its active id, state, running flag, usage, prompts or objective, up to and including its own end |
| `Attachment.AttachesSettleInRequestOrder` | apps/desktop/src/useDaemon.ts:381-399 | over every run the settled attaches are the first ones requested, each once, in request order |
| `AttachmentEffects.NewChatExactly` | apps/desktop/src/useDaemon.ts:718-729 | a new chat is refused, with an error and nothing else changed, exactly while a run is launched or active or an attach is pending; otherwise it starts blank |
| `AttachmentEffects.BlankChatStaysBlank` | apps/desktop/src/useDaemon.ts:248-270 | a blank chat shows nothing of any session until an attach commits |
| `AttachmentEffects.AskStartsOrWaits` | apps/desktop/src/useDaemon.ts:381-399 | a request starts at once when none is pending, and otherwise waits behind the earlier ones |
| `AttachmentEffects.AnswerStartsNext` | apps/desktop/src/useDaemon.ts:332-399 | an answer settles the pending request and starts the next one |
| `AttachmentEffects.ConfirmedIsShown` | apps/desktop/src/useDaemon.ts:248-378 | over every run the session held for confirmed is the one the store shows |
| `AttachmentWindows.WindowHolds` | apps/desktop/src/useDaemon.ts:441-462 | until the answer, frames of the attaching session are held in arrival order and all others fold as they come |
| `AttachmentWindows.RefusedAttachLeavesSession` | apps/desktop/src/useDaemon.ts:347-378 | a refused attach to another session leaves the session exactly as its own frames made it |
| `AttachmentWindows.AcceptedAttachIsItsFrames` | apps/desktop/src/useDaemon.ts:280-299 | an accepted attach yields the fold of its held-back frames from a reset, each once and in arrival order |
| `AttachmentWindows.AcceptedAttachConverges` | apps/desktop/src/useDaemon.ts:280-299 | and hence the replay of the distinct events among them, through a compacted snapshot too when a history page follows it |
| `AttachmentWindows.ReattachContinues` | apps/desktop/src/useDaemon.ts:280-299 | re-attaching the session on screen keeps its projection and continues it with the held-back frames |
| `AttachmentWindows.UnfinishedHistoryIsRecorded` | apps/desktop/src/useDaemon.ts:357-372 | an attach that failed after it was accepted commits, and records the whole range up to its watermark as a gap |
| `AttachmentWindows.AcceptedThroughIsGreatest` | apps/desktop/src/useDaemon.ts:1062-1076 | the recorded watermark is the greatest one held back, and there is none exactly when no held-back frame has one |
| `AttachmentController.SessionAttachments.DeliverFrame` | apps/desktop/src/useDaemon.ts:248-270 | delivering a frame moves the references and the store as the protocol step does |
| `AttachmentController.SessionAttachments.EnqueueAttachment` | apps/desktop/src/useDaemon.ts:381-399 | an attach starts at once or queues behind the pending one |
| `AttachmentController.SessionAttachments.CommitAttachment` | apps/desktop/src/useDaemon.ts:280-299 | the delivery loop hands over every held-back frame, once and in order, after the selection |
| `AttachmentController.SessionAttachments.AcceptedAttachmentThrough` | apps/desktop/src/useDaemon.ts:1062-1076 | the loop finds the greatest watermark |
| `AttachmentController.SessionAttachments.AttachAnswered` | apps/desktop/src/useDaemon.ts:332-378 | an answer settles the pending attach and starts the next queued one |
| `AttachmentController.SessionAttachments.RouteFrame` | apps/desktop/src/useDaemon.ts:441-462 | the router holds, drops or delivers a frame as the protocol step does |
| `AttachmentController.SessionAttachments.NewSessionRequested` | apps/desktop/src/useDaemon.ts:718-729 | a new chat is refused during a launch, a pending attach or an active run, and otherwise blanks the session |
| `Recovery.FirstUntried` | apps/desktop/src/useModelRecovery.ts:155-157 | the candidate is the first discovered model that is configured and untried, and there is none only when no model is |
| `RecoveryBounds.AtMostTwoResubmissions` | apps/desktop/src/useModelRecovery.ts:141-181 | under every interleaving one objective causes at most two automatic resubmissions |
| `RecoveryBounds.OneRecoveryInFlight` | apps/desktop/src/useModelRecovery.ts:141-181 | no chain ever has two recoveries in flight |
| `RecoveryBounds.FreshModels` | apps/desktop/src/useModelRecovery.ts:148-160 | the models staged for a chain are pairwise distinct and differ from the model first selected |
| `RecoveryBounds.RunBounded` | apps/desktop/src/useModelRecovery.ts:58-181 | the invariant behind these holds after every run of submissions, replies, frames and scope changes |
| `RecoveryCauses.ActsOnlyOnModelFailure` | apps/desktop/src/useModelRecovery.ts:108-148 | over every run of durable events: whenever a model is staged or the objective resubmitted for a chain, an earlier event completed the run it is bound to, while it was bound to it, in a failure judged recoverable |
| `RecoveryCauses.OtherFailureRetires` | apps/desktop/src/useModelRecovery.ts:108-143 | any other failed end of the bound run retires an accepted chain that is not recovering |
| `RecoveryCauses.ModelFailureStartsRecovery` | apps/desktop/src/useModelRecovery.ts:141-148 | a model failure of the bound run starts a recovery, while no effect was seen and the budget lasts |
| `RecoveryCauses.BindsExactly` | apps/desktop/src/useModelRecovery.ts:84-94 | a chain is bound if and only if a start of its own objective is heard, new to its session, of a run not heard of before, in its session and where it was submitted |
| `RecoveryCauses.ActsWhereSubmitted` | apps/desktop/src/useModelRecovery.ts:131-139 | over every run: the controller acts only connected, attached and with nothing running, on the connection, repository, mode, view, draft and model choice of the submission, and in its session |
| `RecoveryCauses.SubmissionStartsChain` | apps/desktop/src/useModelRecovery.ts:58-64 | a submission replaces the chain, and follows it only when connected, not attaching and on the sessions view |
| `RecoveryCauses.AnswerSettlesSubmission` | apps/desktop/src/useModelRecovery.ts:65-76 | a refused or failed submission retires its chain, an accepted one is recorded |
| `RecoveryCauses.ConclusionReports` | apps/desktop/src/useModelRecovery.ts:121-129 | the completion of the bound run ends its chain and reports exactly the runs it had retried, and nothing is reported otherwise |
| `RecoveryCauses.ResubmissionRetries` | apps/desktop/src/useModelRecovery.ts:163-168 | a resubmission adds the run it retries to those, and no other reply does |
| `RecoveryCauses.ReportedRunsFailed` | apps/desktop/src/useModelRecovery.ts:108-168 | over every run of durable events: each run reported as recovered had failed, while the chain was bound to it, in a failure judged recoverable |
| `RecoverySafety.ActsOnlyInScope` | apps/desktop/src/useModelRecovery.ts:131-168 | a step stages or resubmits for a chain only while it is current, in its captured scope and without effects |
| `RecoverySafety.NothingAfterRetirement` | apps/desktop/src/useModelRecovery.ts:78-181 | once a chain is retired nothing is ever staged or resubmitted for it again |
| `RecoverySafety.NothingAfterEffect` | apps/desktop/src/useModelRecovery.ts:97-119 | over every run: once a tool, approval, question, patch, queue or unknown event, a wait for a human, or the conclusion of the bound run was accepted, no later step stages or resubmits for its chain |
| `RecoverySafety.AcceptedRetires` | apps/desktop/src/useModelRecovery.ts:97-119 | such an event retires the chain in the step that accepts it, and emits nothing |
| `RecoverySafety.InterruptionRetires` | apps/desktop/src/useModelRecovery.ts:51-60 | a new submission, a stop, a disconnect and a re-checked scope change retire a chain |
| `RecoverySafety.ScopeMovesExactly` | apps/desktop/src/useModelRecovery.ts:56-56 | a re-checked scope change stops the chain exactly when it left its scope, and touches nothing else |
| `RecoverySafety.SupersededIsHarmless` | apps/desktop/src/useModelRecovery.ts:168-179 | a late reply of a superseded chain changes neither the current chain nor any other chain and emits nothing |
| `RecoverySafety.RedeliveryIsIdempotent` | apps/desktop/src/useModelRecovery.ts:78-96 | delivering again, at any later time, an event that was delivered changes nothing at all |
| `RecoverySafety.BelowBaselineIsInert` | apps/desktop/src/useModelRecovery.ts:78-87 | an event at or below its session's baseline never reaches a chain |
| `RecoverySafety.OthersAreIgnored` | apps/desktop/src/useModelRecovery.ts:86-96 | an event that a bound chain does not accept, every condition spelled out, changes nothing for it or for any other chain |
| `RecoverySafety.GoingOnChangesNothing` | apps/desktop/src/useModelRecovery.ts:97-107 | an accepted start, delta, retry, budget, usage, note, bookkeeping or ordinary state is recorded as seen and changes nothing else |
| `RecoveryController.RecoveryReachesResubmission` | apps/desktop/src/useModelRecovery.ts:141-168 | answered in scope, a recovery stages the first untried model and resubmits the objective |
| `RecoveryController.ModelRecovery.SubmitObjective` | apps/desktop/src/useModelRecovery.ts:58-65 | a user submission replaces the current chain and captures the scope |
| `RecoveryController.ModelRecovery.ReceiveEvent` | apps/desktop/src/useModelRecovery.ts:78-119 | one durable event moves baseline, known runs and the current chain as the machine's step does |
| `RecoveryController.ModelRecovery.ReactTo` | apps/desktop/src/useModelRecovery.ts:97-119 | the switch on the kind of event: the listed kinds are harmless, states and ends are judged, every other kind is an effect |
| `RecoveryController.ModelRecovery.RecoverChain` | apps/desktop/src/useModelRecovery.ts:141-148 | a recovery starts only within budget, scope and safety, and otherwise stops the chain |
| `RecoveryController.ModelRecovery.ChooseCandidate` | apps/desktop/src/useModelRecovery.ts:153-160 | the second model read stages one candidate or gives up |
| `RecoveryController.ModelRecovery.ResubmitObjective` | apps/desktop/src/useModelRecovery.ts:160-168 | after staging the objective is resubmitted with a clean slate or given up |
| `RecoveryController.ModelRecovery.ResumeTask` | apps/desktop/src/useModelRecovery.ts:148-179 | every await, resumed with any reply or a failure, is the machine's step |
| `RecoveryController.ModelRecovery.MoveScope` | apps/desktop/src/useModelRecovery.ts:56-56 | a rendered scope change stops a chain that left its scope |
| `PatchReview.CreateFile` | apps/desktop/src/patchReview.ts:85-90 | a file header fails exactly when neither side exists; otherwise the file is named by its new side or, when deleted, its old one, is added, deleted or modified exactly when it is, and has no hunks yet |
| `PatchReview.StepAdvances` | apps/desktop/src/patchReview.ts:107-171 | every turn of the loop moves forward within the text |
| `PatchReader.Reader.Finish` | apps/desktop/src/patchReview.ts:101-105 | finishing keeps a file with a header, metadata or hunks, and reports the file limit |
| `PatchReader.Reader.ReadGitHeader` | apps/desktop/src/patchReview.ts:109-113 | a git header finishes the file before it, then opens its own or fails |
| `PatchReader.Reader.ReadFileHeader` | apps/desktop/src/patchReview.ts:114-120 | a file header opens a file with the metadata collected before it, or fails and leaves what was complete |
| `PatchReader.Reader.ReadRows` | apps/desktop/src/patchReview.ts:129-152 | the count-driven loop reads the rows the counts call for, with their line numbers, or reports the first violation |
| `PatchReader.Reader.ReadHunk` | apps/desktop/src/patchReview.ts:121-157 | a hunk is added whole or not at all |
| `PatchReader.Reader.ReadMetadata` | apps/desktop/src/patchReview.ts:158-168 | metadata updates the file being read; a binary payload is skipped to the next git header |
| `PatchReader.ParsePatchReview` | apps/desktop/src/patchReview.ts:93-180 | the whole reader, on every text, computes the specified review: files and notice |
| `PatchHunks.RowsAreWhole` | apps/desktop/src/patchReview.ts:129-152 | whatever the lines say, rows that were read are numbered consecutively from the header's starts for exactly its counts |
| `PatchHunks.EveryReturnedHunkIsWhole` | apps/desktop/src/patchReview.ts:121-180 | in every returned file, after an error too: every hunk is complete and numbered by its header, and additions and deletions are the real counts |
| `PatchTargets.SidesAreRecorded` | apps/desktop/src/patchReview.ts:141-145 | every hunk of every returned file is numbered by the side it was read on: old lines without a new side, its hunk's new side otherwise |
| `PatchTargets.TargetsInsideExactly` | apps/desktop/src/patchReview.ts:141-145 | for every returned file: all targets lie between 1 and the last line of their hunk's new side if and only if no hunk read without a new side reaches past it |
| `PatchTargets.TargetsStayInside` | apps/desktop/src/patchReview.ts:141-164 | so they do in every file whose new side exists, when no line renames or deletes a new side between a hunk header and the next git file header |
| `PatchTargets.LateRenameKeepsOldTargets` | apps/desktop/src/patchReview.ts:158-164 | a text whose late rename leaves a returned row's target past its hunk's new side |
| `PatchHunks.ContextsAreCounted` | apps/desktop/src/patchReview.ts:154-155 | the context rows that are subtracted are the real ones |
| `PatchTruncation.TruncationIsSafe` | apps/desktop/src/patchReview.ts:106-180 | cutting a patch at any line boundary keeps every file before the cut as it is, and of the file at the cut a prefix of its hunks, the last of which may lack its no-newline note |
| `PatchTruncation.ParseKeeps` | apps/desktop/src/patchReview.ts:101-180 | no later line, error or limit loses a finished file, or a completed hunk of the file being read |
| `PatchTruncation.RowsCut` | apps/desktop/src/patchReview.ts:133-152 | a hunk that completes in the cut text completes in the whole one with the same rows, up to one note |
| `PatchGit.DiffRoundTrip` | apps/desktop/src/patchReview.ts:93-173 | printing any well-formed sections within the limits, git headers with any extended lines, plain file text, or one before the other, and reading them gives the same paths, statuses, metadata, hunks and rows, and no notice |
| `PatchGit.HeaderNamesExactly` | apps/desktop/src/patchReview.ts:79-84 | for reviewable unquoted names a git header reads back its two names if and only if the new one holds no ` b/` with something after it |
| `PatchGit.LateSplitMisreads` | apps/desktop/src/patchReview.ts:79-84 | where it does, the header is never read as the two names it was printed from |
| `PatchGit.QuotedHeaderReads` | apps/desktop/src/patchReview.ts:65-84 | a header whose old name is quoted reads back both names, the new one quoted or not, whatever they hold |
| `PatchGit.ExtendedReadBack` | apps/desktop/src/patchReview.ts:158-168 | extended lines are kept as metadata in order, and the last that names a side or says what happened decides |
| `PatchGit.SectionReadsBack` | apps/desktop/src/patchReview.ts:107-173 | one printed section, after any earlier ones, reads back as the file it shows |
| `PatchConservation.LinesAreConserved` | apps/desktop/src/patchReview.ts:93-180 | for every text the hunks shown are, in order, the lines of a beginning of it used as hunk headers and rows; without a notice every line is used, and each is blank, a file header or a binary payload, or is shown |
| `PatchConservation.RowsAreLines` | apps/desktop/src/patchReview.ts:129-152 | the rows read are the lines they were read from, each once and in order |
| `PatchSafety.ReviewableIsSafe` | apps/desktop/src/patchReview.ts:33-37 | the reader's test of a path holds if and only if the path is relative, printable, without `\`, `%` or `:`, and has no empty, `.` or `..` part |
| `PatchSafety.ReturnedPathsAreSafe` | apps/desktop/src/patchReview.ts:65-180 | every path of every returned file, with or without a notice, is safe or says that the side does not exist |
| `PatchSafety.LimitsHold` | apps/desktop/src/patchReview.ts:101-151 | however large the text, at most 100 files, 1000 hunks and 20000 rows are returned |
| `PatchSafety.RowsFailTruly` | apps/desktop/src/patchReview.ts:131-151 | a hunk fails exactly because the text ends in it, at a line that is no row, or at a row too many |
| `PatchSafety.CarriageReturnIsIgnored` | apps/desktop/src/patchReview.ts:107-108 | a header, metadata or blank line means the same with a carriage return at its end |
| `PatchSafety.TimestampIsIgnored` | apps/desktop/src/patchReview.ts:65-74 | what follows a tab is no part of an unquoted name |
| `PatchSafety.QuotedNameReads` | apps/desktop/src/patchReview.ts:65-73 | a quoted name is decoded from its whole token, and from nothing else |
| `PatchSafety.SideIsStripped` | apps/desktop/src/patchReview.ts:74-76 | exactly one side prefix is stripped from a header's name |
| `PatchRoundTrip.HeaderReads` | apps/desktop/src/patchReview.ts:123-125 | a printed hunk header, with or without counts of one and with any section text, reads back its coordinates |
| `PatchRoundTrip.RowsReadBack` | apps/desktop/src/patchReview.ts:133-152 | rows are read by the counts, so any row text comes back |
| `PatchRoundTrip.PathReads` | apps/desktop/src/patchReview.ts:65-78 | a printed name reads back as the path it came from |
| `PatchRoundTrip.FileReadsBack` | apps/desktop/src/patchReview.ts:114-120 | a printed file header ends the file before it and opens the same file |
| `Sanitizer.OutputIsBoundedAndSafe` | apps/desktop/src/failure.ts:50-118 | for every text and contract the output has at most the allowed length, holds no control or bidirectional-override character, and ends in an ellipsis when the text was cut |
| `SanitizerLoops.QuoteEndIsTheClosingQuote` | apps/desktop/src/failure.ts:16-24 | a quoted token ends after its closing quote, at its line's end or at the text's end, and every earlier quote or line end in it is escaped |
| `Sanitizer.Scan1` | apps/desktop/src/failure.ts:77-115 | every turn of the redaction scan moves forward within the text, so it terminates |
| `SanitizerLoops.FindQuoteEnd` | apps/desktop/src/failure.ts:16-24 | the quote loop with its escapes computes the token's end |
| `SanitizerLoops.FindValueEnd` | apps/desktop/src/failure.ts:29-45 | the value loop with nested brackets and quotes computes the value's end |
| `SanitizerLoops.Strip` | apps/desktop/src/failure.ts:54-74 | the first pass computes the stripped text under both limits |
| `SanitizerLoops.Redact` | apps/desktop/src/failure.ts:75-115 | the second pass computes the redacted text |
| `SanitizerLoops.SanitizeFailureText` | apps/desktop/src/failure.ts:50-118 | the sanitizer as it runs computes its specification, bounded and safe |
| `SanitizerLoops.FlatJoinsWords` | apps/desktop/src/failure.ts:116-116 | flattened text is the words of the text, in order, one space apart |
| `SanitizerHiding.ScanHides` | apps/desktop/src/failure.ts:75-115 | once the scan reaches a recognised key with its separator, what it emits is the same whatever value follows |
| `SanitizerHiding.ValueIsHidden` | apps/desktop/src/failure.ts:50-118 | two texts that, once stripped, differ only in that value have the same output |
| `SanitizerRaw.SecretIsHidden` | apps/desktop/src/failure.ts:50-118 | the same on raw texts within the limits: replacing the value changes nothing the operator sees |
| `SanitizerRaw.LeadingSecretIsHidden` | apps/desktop/src/failure.ts:96-112 | a text that is a recognised key, `=` and a value: any two values within the limits give the same output |
| `SanitizerLocality.TurnLocal` | apps/desktop/src/failure.ts:77-115 | a turn that ends before the key is the same whatever comes after the key's separator |
| `SanitizerLocality.ScanShift` | apps/desktop/src/failure.ts:77-115 | what the scan makes of a text's end does not depend on its beginning |
| `SanitizerHiding.QuotedKeyTurn` | apps/desktop/src/failure.ts:78-95 | at a quoted key the scan emits the key, its colon and the mask, and goes on after the value, quoted, bracketed or bare |
| `SanitizerHiding.MaskIsQuotedAsValue` | apps/desktop/src/failure.ts:86-92 | a closed quote is masked by a closed quote, other values by the bare mask |
| `SanitizerHiding.QuotedKeyHides` | apps/desktop/src/failure.ts:78-95 | once the scan reaches a quoted key, what it emits is the same whatever value follows |
| `SanitizerHiding.QuotedValueIsHidden` | apps/desktop/src/failure.ts:50-118 | two texts that, once stripped, differ only in the value of a quoted key have the same output |
| `SanitizerHiding.LabelTurn` | apps/desktop/src/failure.ts:103-112 | at a label that needs no separator the scan emits the label and the mask, and goes on after the value |
| `SanitizerHiding.LabelHides` | apps/desktop/src/failure.ts:103-112 | once the scan reaches a label, what it emits is the same whatever value follows |
| `SanitizerHiding.LabelledValueIsHidden` | apps/desktop/src/failure.ts:50-118 | two texts that, once stripped, differ only in the value of a label have the same output |
| `SanitizerHiding.PrefixTurn` | apps/desktop/src/failure.ts:100-102 | at a word with a recognised prefix the scan emits the mask alone, and goes on after the word's value |
| `SanitizerHiding.PrefixHides` | apps/desktop/src/failure.ts:100-102 | once the scan reaches a recognised prefix, what it emits is the same whatever the word goes on with |
| `SanitizerHiding.PrefixedWordIsHidden` | apps/desktop/src/failure.ts:50-118 | two texts that, once stripped, differ only in such a word have the same output |
| `SanitizerRaw.QuotedSecretIsHidden` | apps/desktop/src/failure.ts:50-118 | on raw texts within the limits: replacing the value of a quoted key changes nothing the operator sees |
| `SanitizerRaw.PrefixedSecretIsHidden` | apps/desktop/src/failure.ts:50-118 | and neither does replacing the rest of a word with a recognised prefix |
| `SanitizerRaw.LeadingQuotedKeyIsMasked` | apps/desktop/src/failure.ts:78-95 | a quoted key, its colon and a value become the key, the colon and the mask |
| `SanitizerRaw.PlainSecretIsMasked` | apps/desktop/src/failure.ts:96-112 | `key=value` and `key:value`, the key in any case, become the key and the mask up to the value's delimiter |
| `SanitizerRaw.HeaderLineIsMasked` | apps/desktop/src/failure.ts:108-112 | after `:`, the value of a header, a password or a secret is the whole rest of the line |
| `SanitizerRaw.LabelledWordIsMasked` | apps/desktop/src/failure.ts:103-112 | the word after `bearer`, `token` or an API key label is masked without a separator |
| `SanitizerRaw.PrefixedWordIsMasked` | apps/desktop/src/failure.ts:97-102 | a word that begins, in any case, with a recognised prefix is masked whole, up to the delimiter after it |
| `SanitizerText.PlainTextSurvives` | apps/desktop/src/failure.ts:50-118 | text that names no key and no prefix, within the limits, is shown as its words, one space apart, whole |
| `SanitizerText.TruncatedExactly` | apps/desktop/src/failure.ts:50-53 | a text counts as cut exactly when it is longer than one of the limits |
| `SanitizerText.CutOnlyWhenTruncated` | apps/desktop/src/failure.ts:116-117 | within the limits everything is shown; beyond them a beginning and an ellipsis |
| `SanitizerText.OnlyTheBeginningIsRead` | apps/desktop/src/failure.ts:50-74 | of a text without escapes, only the beginning within the first limit is read, and no more than the second of what is kept |
| `SanitizerText.EscapesVanish` | apps/desktop/src/failure.ts:56-71 | a complete terminal escape leaves no trace: the text is stripped as if it were not there |
| `SanitizerHiding.KeyTurn` | apps/desktop/src/failure.ts:96-112 | at the key the scan keeps the label and takes the whole value, to its delimiter or to the end of the line |
| `Notifier.PendingStep` | apps/desktop/src/osNotifications.ts:103-118 | a key is pending after one more event exactly when it is raised by it, or was pending and is not resolved by it |
| `Notifier.PendingDistinct` | apps/desktop/src/osNotifications.ts:103-118 | no key is pending twice |
| `Notifier.MemoryBounded` | apps/desktop/src/osNotifications.ts:263-270 | over every run neither set holds more than 512 keys |
| `Notifier.AnnouncedOnce` | apps/desktop/src/osNotifications.ts:187-208 | a key is announced twice only if at least 512 other distinct keys were announced in between |
| `Notifier.ResolvedStaysSilent` | apps/desktop/src/osNotifications.ts:148-208 | whatever the frame, nothing it announces is remembered as resolved or as announced |
| `Notifier.AnnouncesOnlyNews` | apps/desktop/src/osNotifications.ts:191-208 | a batch announces only keys it holds that the memory does not |
| `Notifier.NewsIsAnnounced` | apps/desktop/src/osNotifications.ts:191-208 | and every such key is announced |
| `NotifierEffects.LiveRequestIsAnnounced` | apps/desktop/src/osNotifications.ts:148-156 | a live request is announced and remembered if and only if its key is unknown |
| `NotifierEffects.LiveResolutionIsRemembered` | apps/desktop/src/osNotifications.ts:148-153 | a live resolution announces nothing and is remembered |
| `NotifierEffects.OtherFramesAreSilent` | apps/desktop/src/osNotifications.ts:130-146 | every other event, and every frame without events or approvals, leaves the notifier alone |
| `NotifierEffects.ReplayAnnouncesPending` | apps/desktop/src/osNotifications.ts:158-170 | a replayed range announces exactly what it leaves pending and the memory, with the range's resolutions, does not hold |
| `NotifierEffects.SnapshotAnnouncesApprovals` | apps/desktop/src/osNotifications.ts:166-185 | a snapshot announces exactly its pending approvals the memory does not hold |
| `NotifierEffects.PendingHasLatestText` | apps/desktop/src/osNotifications.ts:66-118 | a pending notice carries the text of the last event about its key, and that event raised it |
| `Notifier.RememberKey` | apps/desktop/src/osNotifications.ts:263-270 | the eviction loop keeps the newest 512 keys in insertion order |
| `Notifier.PendingBlockingWork` | apps/desktop/src/osNotifications.ts:103-118 | the loop computes the pending work, each key once |
| `Notifier.BlockingWorkNotifier.ObserveFrame` | apps/desktop/src/osNotifications.ts:130-185 | one frame moves the notifier's memory and announcements as specified |
| `Notifier.BlockingWorkNotifier.AnnounceBatch` | apps/desktop/src/osNotifications.ts:191-208 | what is fresh is sent as one notification, and nothing is sent when nothing is |
| `BlockingCards.CardStep` | apps/desktop/src/daemonState.ts:1049-1162 | how one event moves the approval and question cards |
| `BlockingCards.CardsArePending` | apps/desktop/src/daemonState.ts:1049-1162 | after a rebuild a card is shown exactly when its key is pending, or it is a question with an empty id that was ever asked |
| `BlockingCards.TwoFoldsAgree` | apps/desktop/src/osNotifications.ts:66-118 | cards and pending work agree if and only if it is not the case that an empty-id question was asked and last resolved |
| `BlockingCards.UnnamedQuestionKeepsItsCard` | apps/desktop/src/daemonState.ts:1082-1162 | a concrete pair of events on which they differ |
| `AcpTurn.TurnIsIsolated` | crates/cli/src/acp.rs:228-247 | deleting every event of other runs changes no update, permission request, stop reason or other state of a turn that knows its run |
| `AcpTurn.NeverRebinds` | crates/cli/src/acp.rs:235-241 | a turn that knows its run never changes it |
| `AcpTurn.FirstStartedRunBinds` | crates/cli/src/acp.rs:235-247 | a turn told no run binds to the first one that starts, and is then the turn that knew it and heard only session-wide events before |
| `AcpTurn.ToolIdsAreProper` | crates/cli/src/acp.rs:252-292 | over every run the minted ids are 1, 2, 3, … each once, and every refinement and completion names an id started and not yet completed |
| `AcpTurn.TurnIsFaithful` | crates/cli/src/acp.rs:208-227 | only the bound run is ever cancelled, and every permission asked for is answered, in order |
| `AcpStory.TurnTellsStory` | crates/cli/src/acp.rs:191-306 | over every run of inputs the turn's acts are the story of its run, with tool ends matched to starts as closing brackets to opening ones, and it ends as its first ending input says |
| `AcpStory.ApprovalsFollowChoices` | crates/cli/src/acp.rs:364-393 | over every run each approval asked for before the end is resolved once, in order, and granted exactly when the client chose to allow it |
| `AcpStory.TextsAreTheRunsOwn` | crates/cli/src/acp.rs:249-283 | over every run the messages are the deltas of the turn's run, and the thoughts its notes and the session's, in order |
| `AcpStory.TurnEndsExactly` | crates/cli/src/acp.rs:204-306 | over every run the turn is cancelled exactly by a cancel or its run's cancellation, fails exactly by a read error or an answer not taken, and otherwise ends normally |
| `AcpTurn.Prompt` | crates/cli/src/acp.rs:191-306 | the loop over the session's messages computes the specified acts, end and binding |

## Left out

- The inbox, its unread badge and the sessions list: running estimates corrected by later reads.
- Row wording, failure diagnosis, action descriptions, notification texts and status messages: text only; `recoverableModelFailure` is a boolean of the failure event.
- Transcript row ids are structured values, so collisions between concatenated string ids are not modelled; an empty run id stands for an absent one.
- The budget row's floating-point ratio of 0.8 is compared as integers, five times the use against four times the limit.
- Events this client shows nothing of are two constructors, `Upkeep` and `Unrendered`; their payloads are not modelled, and a failure's error code is part of what classifies it, not of the event.
- GapRepair.NoHoleLost: covers one attachment whose log is numbered from one; a zero-watermark page is allowed only before anything was seen, and `HistoryIncomplete` is not a step, since it replaces the gap when a new attach commits.
- Convergence.SessionConverges: excludes disconnects, provisional launches and compacted snapshots of the session itself, which overwrite parts of the projection; `DisturbedSessionConverges` covers them up to the next history page.
- AttachmentWindows.AcceptedAttachConverges: asks that a compacted snapshot be followed by a history page, since until then the snapshot's own run and queue are shown.
- Attachment.AttachesSettleInRequestOrder: is about one connection; replacing the connection, which drops pending and queued attaches, and frames buffered during a launch are not modelled.
- RecoveryBounds.AtMostTwoResubmissions: staging a model is one await; what the shell does while staging, including its own re-checks of validity, is not modelled.
- PatchGit.DiffRoundTrip: prints unquoted names only, since decoding a quoted git name is a parameter of the reader (`QuotedHeaderReads` and `PatchSafety.QuotedNameReads` cover quoted ones); a header's new name holds no ` b/` with something after it (`HeaderNamesExactly` says why); a header alone is not followed by plain file text, which would be its own, and a binary payload ends its header.
- PatchTargets.TargetsStayInside: only a git file header counts as the next one, since a hunk's own rows can look like the plain `---` and `+++` lines.
- SanitizerHiding.ValueIsHidden: takes the decoding of quoted keys as a parameter that accepts only tokens ending in a quote and loses no `:`, `=`, space or tab of them, and the contract's keys as holding none of these.
- SanitizerRaw.SecretIsHidden: asks that the text before the value holds no escape character; `ValueIsHidden` does not.
- The sanitizer's characters are Unicode scalar values, so lone surrogates are not modelled.
- SanitizerHiding.PrefixedWordIsHidden: compares words that begin with the same recognised prefix, and takes no quoted key to spell one; the prefixes themselves are not secret.
- RecoveryCauses.ActsOnlyOnModelFailure: takes the judgement of a failure as a parameter; the error code it looks at belongs to it.
- AcpTurn.Prompt: reads its messages from a list; minted ids are unbounded numbers, and what a failed cancel prints is not modelled.
- React rendering, hooks wiring, transport, the native shell, the daemon and the Python and build scripts.
