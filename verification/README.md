# Verified models of MaterialMind

MaterialMind is a Go backend that runs coding agents. This project models the parts of it that carry real
invariants, and proves what its users and its own comments rely on. `dafny verify dfyconfig.toml` checks all of it.

Code that changes state step by step is written as classes and loops, each tied by its contract to a function or a
state machine on values; the laws over all inputs, runs and interleavings are lemmas about those.

| part of the system | files |
|---|---|
| file patch transaction and its approval | `Filesystem`, `PatchTransaction`, `TextReplacement`, `EditFile` |
| replayable event hub | `StreamLog` (the simple log), `StreamTable` (all runs), `Hub` (ring and channels) |
| context compaction | `TokenBudget`, `ContextSections`, `Summarizer`, `ContextBoundary`, `Compaction` |
| tool approvals | `Approvals` (steps under the lock), `ApprovalTable` (the engine's methods) |
| MCP connections and call watchdog | `Connections`, `ConnectionManager`, `CallTimeout` |
| sessions | `ToolCallRepair`, `StateScopes`, `SessionStore` |
| delegation batches | `DelegationSchedule`, `ToolBatch` |
| bounded output, transcript pages, permissions | `OutputBuffers`, `TranscriptPaging`, `ToolPolicy` |
| shared | `Wrappers`, `Utf8` (section 3 of RFC 3629) |

What the proofs found out about the code, each with a lemma that gives an input and one that gives the exact
condition:

- The edit tool promises that the old text occurs exactly once, but `strings.Count` skips overlaps, so `aa` is
  accepted in `aaa` (`OverlappingTextIsAccepted`); the promise holds exactly for texts of which no two overlapping
  occurrences fit into a file of the size allowed (`CountCheckIsExact`).
- An update is meant to keep the permissions of the file it replaces, and does exactly when the process umask takes
  none of them (`ModeIsKeptExactly`); under umask 022 a file its group may write loses that (`UpdateNarrowsMode`).
- A client that subscribes from 0 is never told that events were dropped: it gets the log from the beginning exactly
  when none were (`FirstSubscription`), and one event over the limit is enough (`FirstSubscriptionMisses`).
- A tool call that is compacted before its result arrives leaves the result behind in the retained context
  (`UnansweredCallIsSplit`); a cut stays clean whatever arrives exactly when every call before it has its answer
  (`CutStaysCleanExactlyWhenAnswered`).
- The summarizer's own call can exceed the share of the window set aside for it, as in a window of 4000 tokens
  (`OverdrawingRun`): all its prompts stay inside exactly when that share leaves 642 tokens beside the instruction and
  the summary to come (`PromptsFitTheWindow`), since the floor of 1024 tokens applies even where less is left. With
  the instruction and the allowance of the code that takes a window of 4697 tokens and a modest output reserve
  (`WindowsThatNeverOverdraw`).
- Two calls with one id in an event are never both matched, and a second repair replaces the real result
  (`DuplicateCallLosesItsResult`); repairing twice is repairing once exactly when the ids of an event's calls differ
  (`SecondRepairKeepsExactly`). Of responses that repeat an id one can be dropped (`RepeatedResponseIsDropped`); with
  distinct call ids the parts survive exactly when none is repeated or nothing is missing (`RealPartsSurvive`).
- A delegation is lost when a model call that is already cancelled takes the batch it waits in
  (`CancelledCallLosesDelegation`), and all calls of a mixed response are when the context preserved beside it does
  not decode (`UnreadableContextLosesCalls`); the calls read are all delivered exactly when neither happens
  (`EveryCallIsDeliveredOnce`).
- A caller's cancellation can land on a connection in the table (`InstalledCanBeCancelled`), exactly when the caller
  had given up before it was installed (`OnlyTheCallerCancelsLate`).
- A resume does not grant a full duration (`WaitingExpiryOutlivesPause`): the call can time out before the timer fires
  again exactly when an expiry is already waiting (`TimesOutUnfiredExactly`).
- The terminal's tail of well-formed text depends on how output was chunked for limits of one byte and of two
  (`TinyLimitDependsOnChunks`) and for no other limit (`TailsAgreeExactly`). The function that splits sections
  cuts inside a character of some text (`TinyBudgetCutsCharacters`) exactly for bounds of one to three bytes
  (`CharactersSurviveExactlyFromFour`); the summarizer passes it no bound below 1024.

## Model

| member | source | states |
|---|---|---|
| `Filesystem.FileStore.Rename` | internal/workspacetools/edit.go:531-551 | a rename moves the file or, failing, changes nothing; a failure the files do not explain is a fault |
| `Filesystem.FileStore.Link` | internal/workspacetools/edit.go:541-548 | a link gives the file a second name, refuses an existing target, and tells the two failures apart |
| `Filesystem.FileStore.ReadSnapshot` | internal/workspacetools/edit.go:456-495 | an absent path is no error; anything but a small text file is; a present file is read whole with its mode |
| `PatchTransaction.StagePatchFile` | internal/workspacetools/edit.go:579-604 | the result is written to a fresh sibling with the original's mode less the umask, and no other path changes |
| `PatchTransaction.ModeIsKeptExactly` | internal/workspacetools/edit.go:579-604 | an update leaves the mode of the file it replaces exactly when the umask takes none of its bits |
| `PatchTransaction.UpdateNarrowsMode` | internal/workspacetools/edit.go:579-604 | under umask 022 an update of a group-writable file takes the group's permission |
| `PatchTransaction.ValidateFileState` | internal/workspacetools/edit.go:615-630 | without faults it accepts exactly when the file is what the proposal was based on |
| `PatchTransaction.ValidatePatchState` | internal/workspacetools/edit.go:606-613 | without faults it accepts exactly when every base still matches |
| `PatchTransaction.MoveAside` | internal/workspacetools/edit.go:522-535 | moving an original to its backup keeps the files in step with the flags of the entries |
| `PatchTransaction.InstallCreate` | internal/workspacetools/edit.go:540-549 | linking a create into place keeps the files in step with the flags and the staged results ready |
| `PatchTransaction.InstallUpdate` | internal/workspacetools/edit.go:550-554 | renaming an update into place does so too |
| `PatchTransaction.RollbackStep` | internal/workspacetools/edit.go:632-646 | one step of the rollback brings its target back and leaves no other file behind, unless one of its two operations fails |
| `PatchTransaction.RecoverableStep` | internal/workspacetools/edit.go:634-646 | whichever of the two operations of a rollback step fail, no moved original is lost |
| `PatchTransaction.MoveOriginals` | internal/workspacetools/edit.go:522-535 | the loop over originals stops with a cause or moves them all, the files always matching the flags |
| `PatchTransaction.InstallAll` | internal/workspacetools/edit.go:537-558 | the loop over installs stops with a cause or installs them all, the files always matching the flags |
| `PatchTransaction.UndoAll` | internal/workspacetools/edit.go:632-646 | when nothing fails every known path is as before; whatever fails, each failure costs one target at most and every original is at its path or backup |
| `PatchTransaction.RollbackPatch` | internal/workspacetools/edit.go:632-656 | the cause is returned only when all is restored but leftover staged files; else a rollback failure with no data lost; in both each failure costs at most one target and one temporary |
| `PatchTransaction.RemoveArtifacts` | internal/workspacetools/edit.go:560-576 | cleanup removes temporaries only, goes on after a failure, leaves at most one behind for each, and succeeds only if none is left |
| `PatchTransaction.LedgerOfFinishedPatch` | internal/workspacetools/edit.go:537-558 | when every entry is through, exactly the requested creates, updates and deletes have taken place |
| `PatchTransaction.RecoverableLosesNothing` | internal/workspacetools/edit.go:632-656 | even after a failed rollback each original is at its own path or a backup, and untargeted files are unchanged |
| `PatchTransaction.ApplyPatch` | internal/workspacetools/edit.go:497-577 | the whole transaction under any failures: what each outcome says of every file and mode; each failure leaves at most one temporary and one target unrestored, and the one that stops a patch on matching files costs nothing, so a single failure never ends in a rollback failure and changes nothing; without faults it applies iff all bases match and targets are distinct |
| `TextReplacement.ApplyTextReplacements` | internal/workspacetools/edit.go:434-454 | the edits are applied in order, or refused for the first reason met |
| `TextReplacement.SingleEdit` | internal/workspacetools/edit.go:434-454 | one edit is refused for no occurrence, for two that do not overlap, or for its size, and else replaces one and keeps the rest |
| `TextReplacement.EditsCompose` | internal/workspacetools/edit.go:434-454 | a list of edits is its first part and then, on what that leaves, the rest |
| `TextReplacement.CountOne` | internal/workspacetools/edit.go:434-454 | a count of one means that no match starts at or after the end of the first |
| `TextReplacement.OnceCountsOnce` | internal/workspacetools/edit.go:434-454 | a single occurrence passes the count check; the converse for texts without a border |
| `TextReplacement.OverlappingTextIsAccepted` | internal/workspacetools/edit.go:434-454 | for every text with a border there is content in which it occurs twice and is accepted |
| `TextReplacement.CountCheckIsExact` | internal/workspacetools/edit.go:434-454 | in text of at most a given size the check guarantees a single occurrence exactly when no two overlapping occurrences fit in |
| `TextReplacement.ReplaceKeepsContext` | internal/workspacetools/edit.go:434-454 | an accepted edit replaces one occurrence and keeps what is before and after it |
| `EditFile.NormalizeFileChanges` | internal/workspacetools/edit.go:241-317 | the loop accepts exactly lists of at most 32 changes to distinct path texts, each in the form of its operation, and of at most 1 MiB of text together |
| `EditFile.MatchesPayload` | internal/workspacetools/edit.go:719-735 | it holds exactly when the approved payload is the one of this proposal |
| `EditFile.DiffsInOrder` | internal/workspacetools/edit.go:327-408 | the combined diff has each file's diff right behind those before it, at most a line end between |
| `EditFile.ProposalShows` | internal/workspacetools/edit.go:700-717 | the payload shows for each change its path, operation, rendered diff, and hashes and mode of what the file holds and becomes |
| `EditFile.BuildProposal` | internal/workspacetools/edit.go:327-408 | a proposal carries out the changes on what the files hold; without faults it fails only if there is none |
| `EditFile.ProposalIsUnique` | internal/workspacetools/edit.go:327-408 | the files determine the proposal, so an approved one is rebuilt as long as they stay |
| `EditFile.InstalledProposalMakesChanges` | internal/workspacetools/edit.go:327-408 | installing a proposal makes the requested changes, with the approved hashes and modes before and after |
| `EditFile.ApplyProposal` | internal/workspacetools/edit.go:497-577 | an applied proposal is what was approved, a conflict restores, and targets stay safe in every outcome |
| `EditFile.EditFileWithPolicy` | internal/workspacetools/edit.go:155-208 | applied means done as asked and as approved, an update keeping the mode exactly when the umask spares it; approval is asked for with the payload of what would be done, every diff in it; with at most one failure all changes are made or none, and each leaves at most one temporary; conflict and refusal leave files alone; without faults a call asks iff the changes can be proposed, and a confirmed one applies iff the rebuilt proposal is the approved one and targets are distinct |
| `EditFile.ConfirmedEdit` | internal/workspacetools/edit.go:155-208 | asked, approved and called again on untouched files: what was approved is what is done, and without faults it is done iff the changes can be proposed and targets are distinct |
| `StreamLog.RunExtends` | internal/engine/hub.go:67-169 | a run of steps never takes back an event, a delivery or a close |
| `StreamLog.DeliveryHasNoGap` | internal/engine/hub.go:83-90 | each subscriber gets consecutive numbers, none twice; an open one is up to date, so a slow one is closed, not skipped |
| `StreamLog.OnlySlowReadersAreDropped` | internal/engine/hub.go:67-169 | over all runs a subscriber stays open exactly until it is cancelled, the run ends, or its reader falls behind by more than the replay and the buffer together |
| `StreamLog.ResumptionIsLossless` | internal/engine/hub.go:121-169 | resuming after the last number received gives one contiguous piece of the log exactly when Truncated is not reported |
| `StreamLog.FirstSubscription` | internal/engine/hub.go:138-146 | a subscription from 0 is never flagged; it is complete exactly when the oldest retained number is 1 |
| `StreamLog.FirstSubscriptionMisses` | internal/engine/hub.go:138-146 | after one event more than the limit a subscription from 0 misses the beginning and is not flagged |
| `StreamLog.NothingSentTwice` | internal/engine/hub.go:171-180 | whatever follows, only numbers above the client's are sent, exactly when it named one the run has reached or the run is over |
| `StreamTable.RunsAreIndependent` | internal/engine/hub.go:61-114 | for a run that was created the table holds exactly the stream its own steps since then make, and drops it only when done |
| `StreamTable.EvictionTakesFinishedOnly` | internal/engine/hub.go:107-113 | over all runs a retention timer takes exactly the stream it was set for and finds it done; one created under that run since stays |
| `StreamTable.CompletionLeadsToEviction` | internal/engine/hub.go:93-114 | completing a run sets the timer that then removes exactly its stream |
| `Hub.OverwriteKeepsTail` | internal/engine/hub.go:78-82 | overwriting the oldest element of the ring and advancing modulo its length keeps it the tail of the log |
| `Hub.NewerIsSuffix` | internal/engine/hub.go:171-180 | filtering the retained events by number gives a suffix of the log |
| `Hub.RingRefinesLog` | internal/engine/hub.go:67-91 | the rotated buffer is the last min(n, limit) events; droppedThrough and nextSequence count the log |
| `Hub.ValidIsConsistent` | internal/engine/hub.go:67-169 | every valid stream object satisfies the invariant of the simple log |
| `Hub.RunStream.Record` | internal/engine/hub.go:74-82 | the ring update appends the next numbered event to the log |
| `Hub.RunStream.Broadcast` | internal/engine/hub.go:83-90 | each open channel gets the event or, when full, is closed once and dropped |
| `Hub.RunStream.Publish` | internal/engine/hub.go:67-91 | publishing refines the publish step of the simple log: in an unfinished run every open channel with room gets the event and stays open, one without is closed, and a closed one is left alone |
| `Hub.RunStream.Complete` | internal/engine/hub.go:93-105 | completing closes every open channel exactly once and ends the stream |
| `Hub.RunStream.EventsAfter` | internal/engine/hub.go:171-180 | the replay is the log from max(after, droppedThrough) on |
| `Hub.RunStream.SubscribeReplay` | internal/engine/hub.go:121-154 | a subscription refines the subscribe step, replays exactly the retained events above the number given, leaves the buffer beside them, and reports Truncated and the oldest number as the log has them |
| `Hub.RunStream.Cancel` | internal/engine/hub.go:155-167 | a cancelled subscriber is closed unless that was done already |
| `TokenBudget.PercentageIsFloor` | internal/engine/context_compaction.go:1176-1178 | the two-part percentage is the rounded-down percentage |
| `TokenBudget.PercentageStaysInRange` | internal/engine/context_compaction.go:1176-1178 | up to a hundred percent of any 64-bit count no intermediate value leaves the 64-bit range |
| `TokenBudget.CharsAreTokens` | internal/engine/context_compaction.go:1125-1138 | text fits the character budget exactly when it estimates to no more than the token budget |
| `TokenBudget.EstimateIsCeiling` | internal/engine/context_compaction.go:1125-1138 | two tokens are estimated for every five bytes begun, and one at least |
| `TokenBudget.SummaryLimitIsModest` | internal/engine/context_compaction.go:1180-1188 | the summary allowance is monotone, at least one and at most a quarter of the window |
| `ContextSections.SplitContextSection` | internal/engine/context_compaction.go:1103-1123 | the loop computes the fragments the laws below are about |
| `ContextSections.TruncateContextFragment` | internal/engine/context_compaction.go:1143-1152 | the loop computes the truncation the laws below are about |
| `ContextSections.SplitIsLossless` | internal/engine/context_compaction.go:1103-1123 | the fragments concatenate to the section |
| `ContextSections.SplitIsBounded` | internal/engine/context_compaction.go:1103-1123 | fragments are non-empty and within the bound |
| `ContextSections.FragmentsAreLong` | internal/engine/context_compaction.go:1103-1123 | a fragment fills its bound up to the last character, or ends at the last line end of its second half |
| `ContextSections.SplitKeepsCharacters` | internal/engine/context_compaction.go:1103-1152 | neither splitting nor truncating well-formed text cuts a character, for bounds of at least four |
| `ContextSections.TinyBudgetCutsCharacters` | internal/engine/context_compaction.go:1103-1123 | for bounds of one to three there is text that is cut inside a character |
| `ContextSections.CharactersSurviveExactlyFromFour` | internal/engine/context_compaction.go:1103-1123 | all well-formed text splits into well-formed fragments exactly for bounds of at least four or none |
| `ContextSections.TruncationWastesLittle` | internal/engine/context_compaction.go:1143-1152 | truncation drops fewer than four bytes of what would fit |
| `Summarizer.SummaryNeverVanishes` | internal/engine/context_compaction.go:768-780 | a visible summary is never replaced by an empty one |
| `Summarizer.SummaryIsLastVisible` | internal/engine/context_compaction.go:768-780 | the summary is the last reply with visible text, and empty only when there is none |
| `Summarizer.BudgetIsWhatIsLeft` | internal/engine/context_compaction.go:733-748 | a prompt gets what the share leaves beside instruction and summary, 1024 tokens only where less is left; a section what that leaves beside a full summary |
| `Summarizer.Add` | internal/engine/context_compaction.go:787-809 | a fragment is added, whole or cut to a prefix, or dropped only when the summary alone uses up the budget |
| `Summarizer.CallsAreFrugal` | internal/engine/context_compaction.go:768-809 | no call is made while the next fragment fits, none for an empty batch, and a fragment that fits goes in whole |
| `Summarizer.Summarize` | internal/engine/context_compaction.go:718-818 | for any replies every prompt fits the budget with 957 characters to spare and carries the summary so far; batches are the fragments in order; nothing is cut or dropped with a concise summarizer and room for its summary |
| `Summarizer.FragmentsCoverSections` | internal/engine/context_compaction.go:786-787 | the fragments of all sections put back together are the sections |
| `Summarizer.PromptsFitTheWindow` | internal/engine/context_compaction.go:733-748 | over all sections and replies every prompt, with instruction and summary, stays inside the call's share exactly when that share leaves 642 tokens |
| `Summarizer.OverdrawingRun` | internal/engine/context_compaction.go:733-818 | in a window of 4000 tokens three sections and short replies make a prompt that overdraws its share |
| `Summarizer.WindowsThatNeverOverdraw` | internal/engine/context_compaction.go:733-748 | with the code's instruction and summary allowance no prompt ever overdraws exactly for windows from 4697 tokens whose output reserve leaves room |
| `ContextBoundary.SafeBoundary` | internal/engine/context_compaction.go:938-969 | a boundary is safe exactly when no result after it answers a call before it and it does not start with a result |
| `ContextBoundary.CompactionCut` | internal/engine/context_compaction.go:606-651 | the loops compute the cut, or the error of a summary with nothing beside it |
| `ContextBoundary.TokenFitIsLeast` | internal/engine/context_compaction.go:617-629 | the backward loop finds the least index whose tail fits the budget |
| `ContextBoundary.RetainedAdds` | internal/engine/context_compaction.go:617-629 | what is retained counts each content once with its own size |
| `ContextBoundary.CutIsLeast` | internal/engine/context_compaction.go:606-651 | the cut is the least one that meets the minimum, fits the budget and is safe |
| `Compaction.CheckpointAdvances` | internal/engine/context_compaction.go:232-246 | the new prefix strictly exceeds the old and stays within the history |
| `Compaction.RetainedIsHistory` | internal/engine/context_compaction.go:191-246 | the tail retained of the working list is the tail retained of the history, summary merged or inserted |
| `Compaction.ErrorsOfCompaction` | internal/engine/context_compaction.go:204-246 | both consistency errors are dead; the budget error occurs exactly for a summary with nothing beside it |
| `Compaction.CompactionMeetsTarget` | internal/engine/context_compaction.go:606-629 | after a compaction the retained contents fit the target beside the fixed part and a full summary |
| `Compaction.BudgetsOfWindow` | internal/engine/context_compaction.go:606-716 | the trigger is 90 percent of the window less the output reserve, the target 30 percent, less the fixed part and a full summary |
| `Compaction.CompactionAnswers` | internal/engine/context_compaction.go:183-310 | if anything is sent it is the history behind the summary it is stored with: the one just written, the fallback when there is none, or the one before while that suffices |
| `Compaction.CompactionShortens` | internal/engine/context_compaction.go:183-310 | a request too large even with its summary is compacted if it can be: a longer prefix is summarized and what is retained meets the target |
| `Compaction.CutStaysCleanExactlyWhenAnswered` | internal/engine/context_compaction.go:938-969 | a clean cut stays clean, whatever arrives, exactly when every call before it has its answer |
| `Compaction.NewCutIsClean` | internal/engine/context_compaction.go:223-246 | a cut chosen on the working list is clean on the whole history |
| `Compaction.CompactionNeverSplitsCalls` | internal/engine/context_compaction.go:134-310 | over any requests on a growing, settled history no retained result has its call summarized and no tail starts with a result |
| `Compaction.UnansweredCallIsSplit` | internal/engine/context_compaction.go:134-310 | in a window of 10000 tokens a call compacted before it is answered is separated from its result |
| `Compaction.ProjectionIsExact` | internal/engine/context_compaction.go:462-502 | contents added after a measured request are projected on top of its measurement, each once |
| `Compaction.MeasurementIsAnchored` | internal/engine/context_compaction.go:462-502 | a measurement is used exactly for a list of at least its length with the same content at its end, and is a lower bound of the projection |
| `Compaction.MeasurementSurvivesCompaction` | internal/engine/context_compaction.go:444-488 | the list sent grows in place exactly unless all was summarized and the summary merges with the first content added; its measurement is valid for the next request then, and where that content is an empty one of the user |
| `Compaction.ContextCompactor.LoadCheckpoint` | internal/engine/context_compaction.go:865-898 | a stored checkpoint is used exactly when it is valid for a prefix of this history |
| `Compaction.ContextCompactor.RecordSentRequest` | internal/engine/context_compaction.go:421-437 | the record names the contents sent last and drops the old measurement |
| `Compaction.ContextCompactor.AfterModel` | internal/engine/context_compaction.go:380-410 | a positive count reported for a recorded request is kept in the run and the session |
| `Compaction.ContextCompactor.ProjectedInputTokens` | internal/engine/context_compaction.go:462-488 | the projection uses the run's record, else the session's, else is 0 |
| `Compaction.ContextCompactor.BeforeModel` | internal/engine/context_compaction.go:134-177 | a request goes out as it is exactly while estimate and projection are below the trigger, and otherwise with the summary stored in front of the history retained |
| `Compaction.ContextCompactor.CompactRequest` | internal/engine/context_compaction.go:183-310 | what is sent, stored and recorded by one compaction, in every branch: a summary written is stored and sent in front of exactly the history that follows its prefix, and on an error nothing changes |
| `Approvals.StepKeepsBounded` | internal/engine/approvals.go:183-232 | no step takes the undecided approvals over 32 |
| `Approvals.EarliestIsUnique` | internal/engine/approvals.go:297-310 | the decision a waiter gets does not depend on the order in which it looks |
| `Approvals.PollTakesEarliest` | internal/engine/approvals.go:280-316 | a look takes the earliest decision of the waiter's own approvals, or changes nothing |
| `Approvals.ApprovalsAreOrderly` | internal/engine/approvals.go:67-343 | over all interleavings: at most 32 undecided, each request decided, taken and started at most once, request before decision before start |
| `Approvals.StartsWereApproved` | internal/engine/approvals.go:67-343 | over all interleavings a tool call starts only if a step approved its request, by the caller's word or by an option that allows |
| `ApprovalTable.FirstAnswerEndsWait` | internal/engine/approvals.go:272-330 | a wait ends with the first look that has an answer, and with that answer |
| `Approvals.OverflowIsFinal` | internal/engine/approvals.go:193-211 | after an overflow nothing more is admitted, decided or taken |
| `Approvals.OverflowNeedsALot` | internal/engine/approvals.go:202-211 | overflow happens exactly for a new request when 32 are undecided |
| `Approvals.OwnApprovalIsNeverLost` | internal/engine/approvals.go:234-330 | whatever other owners do, an admitted approval stays, its decision stays, and its waiter gets it |
| `Approvals.WaitsWhileUndecided` | internal/engine/approvals.go:297-329 | a waiter whose approvals are admitted waits exactly while none of them is decided |
| `Approvals.SleeperIsWoken` | internal/engine/approvals.go:312-329 | a waiter asleep on the entries it saw is woken, whatever others do, exactly when a look would answer it |
| `ApprovalTable.ActiveRun.UnresolvedToolApprovalCount` | internal/engine/approvals.go:224-232 | the loop counts the undecided entries |
| `ApprovalTable.ActiveRun.RegisterPendingToolApproval` | internal/engine/approvals.go:183-222 | registering refines its step: admitted, found, or the run's approvals fail for good |
| `ApprovalTable.ActiveRun.ApplyOption` | internal/engine/approvals.go:102-117 | the first option of the name decides by whether its kind allows, an unknown one is refused, none leaves the caller's choice |
| `ApprovalTable.ActiveRun.ResolveToolApproval` | internal/engine/approvals.go:67-138 | resolving refines its step, succeeds exactly for an undecided entry and a known option, records what the caller or the option meant, and names the first reason otherwise |
| `ApprovalTable.ActiveRun.RemovePendingToolApproval` | internal/engine/approvals.go:234-245 | only the same entry is removed, not one admitted later under its id |
| `ApprovalTable.ActiveRun.PublishToolApprovalStarted` | internal/engine/approvals.go:332-343 | a start is published for an approving decision only |
| `ApprovalTable.ActiveRun.FindEarliest` | internal/engine/approvals.go:297-310 | the loop finds a missing approval or the earliest decided one |
| `ApprovalTable.ActiveRun.Look` | internal/engine/approvals.go:280-316 | one look under the lock refines the poll step and answers as it does |
| `ApprovalTable.ActiveRun.WaitForNextToolApproval` | internal/engine/approvals.go:272-330 | the first look that decides anything ends the wait with the earliest decision of the waiter's own approvals; the table has moved by the others' steps and that look |
| `ApprovalTable.ActiveRun.WaitForToolApprovals` | internal/engine/approvals.go:247-270 | the results are aligned with the requests |
| `ApprovalTable.AlignedExactlyWhenDistinct` | internal/engine/approvals.go:247-270 | every request has its answer in its place exactly when their ids are distinct |
| `Connections.StepKeepsSound` | internal/mcpruntime/manager.go:541-671 | every locked section, open, close and cancellation keeps the invariant of connections, attempts and sessions |
| `Connections.OneFlightPerKey` | internal/mcpruntime/manager.go:594-659 | per key at most one call is in flight, and it excludes an installed connection |
| `Connections.OnlyWantedConnections` | internal/mcpruntime/manager.go:597-669 | a returned connection has the key and fingerprint asked for; no cancelled attempt is installed, none once stopping |
| `Connections.OpensAreShared` | internal/mcpruntime/manager.go:594-669 | an undisturbed open is installed and returned, and a later call for the same key and fingerprint gets that connection as long as it is there |
| `Connections.WaitersAreWoken` | internal/mcpruntime/manager.go:609-621 | a waiting call's attempt is finished or in flight |
| `Connections.NoSessionLeaks` | internal/mcpruntime/manager.go:541-671 | when all calls and closes are done each opened session is installed or closed, and closed when stopping |
| `Connections.NoContextLeaks` | internal/mcpruntime/manager.go:605-669 | when every close is made, the context of a finished attempt lives on only for a connection in the table |
| `Connections.ClosingIsFinal` | internal/mcpruntime/manager.go:902-922 | whatever races with closeMatching, a matching connection's session is closed or about to be, and a matching attempt in flight never installs |
| `Connections.OnlyTheCallerCancelsLate` | internal/mcpruntime/manager.go:622-659 | a connection can lose its context while it stays in the table exactly when its own caller had given up before it was installed |
| `Connections.InstalledCanBeCancelled` | internal/mcpruntime/manager.go:622-659 | and that does happen |
| `ConnectionManager.Manager.Enter` | internal/mcpruntime/manager.go:594-640 | the first locked section refines its step; a stale connection never comes with an attempt to wait for |
| `ConnectionManager.Manager.Finish` | internal/mcpruntime/manager.go:653-669 | the second locked section refines its step; a late connection is handed back to be closed |
| `ConnectionManager.Manager.CloseMatching` | internal/mcpruntime/manager.go:902-922 | the matching connections leave the table and are returned to be closed; matching attempts are cancelled |
| `ConnectionManager.Manager.Shutdown` | internal/mcpruntime/manager.go:541-560 | all connections are returned to be closed, all attempts cancelled and awaited, once |
| `ConnectionManager.SoundWorldIsReady` | internal/mcpruntime/manager.go:594-669 | every reachable world meets what the locked sections rely on |
| `ConnectionManager.ControlNeverLeaks` | internal/mcpruntime/manager.go:833-868 | with one connection set, what was given is what has been closed, once the control is closed and all owed closes are made |
| `ConnectionManager.ControlLeaksExactly` | internal/mcpruntime/manager.go:833-868 | with distinct resources everything given is then closed exactly when no second connection was set while open |
| `ConnectionManager.SecondSetLeaks` | internal/mcpruntime/manager.go:833-843 | a second connection set while open takes the place of the first, which is never closed |
| `ConnectionManager.TransportControl.Set` | internal/mcpruntime/manager.go:833-843 | a connection is kept, or closed when the control is closed already |
| `ConnectionManager.TransportControl.AddCloser` | internal/mcpruntime/manager.go:845-854 | a closer is kept, or run when the control is closed already |
| `ConnectionManager.TransportControl.Close` | internal/mcpruntime/manager.go:856-868 | closing owes the closers and the connection |
| `CallTimeout.TimeoutNeedsInactivity` | internal/mcpruntime/call_timeout.go:34-84 | over all interleavings pauses are the outstanding handles, an idle watchdog is armed or expiring, and no timeout occurs while one is outstanding |
| `CallTimeout.VerdictIsFinal` | internal/mcpruntime/call_timeout.go:62-90 | once stopped the verdict does not change |
| `CallTimeout.PauseShields` | internal/mcpruntime/call_timeout.go:34-60 | a pause shields the call until its own resume, whatever else runs |
| `CallTimeout.WaitingExpiryOutlivesPause` | internal/mcpruntime/call_timeout.go:50-73 | a resume promises no full duration: an expiry already waiting ends the call |
| `CallTimeout.TimesOutUnfiredExactly` | internal/mcpruntime/call_timeout.go:34-84 | after any steps, a resume among them, the call can time out before the timer fires again exactly when it has already or an expiry is waiting |
| `CallTimeout.CallInactivityTimeout.Pause` | internal/mcpruntime/call_timeout.go:34-48 | a pause counts and disarms, and is inert once stopped |
| `CallTimeout.CallInactivityTimeout.CallResume` | internal/mcpruntime/call_timeout.go:44-60 | a handle resumes once |
| `CallTimeout.CallInactivityTimeout.Expire` | internal/mcpruntime/call_timeout.go:62-73 | an expiry stops and cancels unless stopped or paused |
| `CallTimeout.CallInactivityTimeout.Stop` | internal/mcpruntime/call_timeout.go:75-84 | stopping disarms and cancels |
| `ToolCallRepair.RepairInterruptedToolCalls` | internal/adksession/service.go:60-134 | the loop that grows the slice it scans ends and computes the repaired history |
| `ToolCallRepair.RepairIsComplete` | internal/adksession/service.go:60-134 | after the repair every event with calls is followed by a non-model event that answers all of them |
| `ToolCallRepair.ResultsComeFirst` | internal/adksession/service.go:74-122 | a rewritten event starts with one result for each call in order, real where there is one, followed by all that answers no call |
| `ToolCallRepair.RepairTwiceIsRepair` | internal/adksession/service.go:60-134 | a second repair changes nothing when call ids are distinct within events |
| `ToolCallRepair.DuplicateCallLosesItsResult` | internal/adksession/service.go:86-110 | for any calls that repeat an id there is a real result that the first repair keeps and the second replaces |
| `ToolCallRepair.AnsweringIsIdempotentExactly` | internal/adksession/service.go:74-122 | answering twice is answering once, whatever came back, exactly when call ids differ |
| `ToolCallRepair.SecondRepairKeepsExactly` | internal/adksession/service.go:60-134 | a second repair changes nothing, whatever follows an event, exactly when the ids of its calls differ |
| `ToolCallRepair.RealPartsSurvive` | internal/adksession/service.go:74-122 | the parts of the next event survive when its response ids are distinct; with distinct call ids exactly then or when nothing is missing |
| `ToolCallRepair.RepeatedResponseIsDropped` | internal/adksession/service.go:74-122 | of two responses of one id beside an unanswered call only one is kept |
| `ToolCallRepair.RepairExtends` | internal/adksession/service.go:60-134 | existing events keep their order and parts; only notices are inserted behind their calls |
| `StateScopes.SplitState` | internal/adksession/service.go:549-564 | the loop sorts each entry by its prefix; temporary ones go nowhere |
| `StateScopes.AdkPrefixes` | internal/adksession/service.go:549-564 | application entries are those under app:, the user's those under user:, and entries under temp: are dropped |
| `StateScopes.MergeOfSplit` | internal/adksession/service.go:549-575 | splitting and merging returns every entry but the temporary ones |
| `StateScopes.SplitOfMerge` | internal/adksession/service.go:549-575 | merging and splitting returns the scopes exactly when no session key looks like another scope's |
| `SessionStore.PersistedSession.AppendEvent` | internal/adksession/service.go:355-436 | an append is accepted exactly at the stored version with a new id, and commits event, state by prefix and version together; or it refuses for the first reason and changes nothing |
| `SessionStore.AcceptedHandleIsCurrent` | internal/adksession/service.go:380-400 | the version check passes only for a handle that has seen every own event |
| `SessionStore.AppendsAreSerial` | internal/adksession/service.go:270-475 | over all interleavings of handles no committed delta is lost and appends are serial |
| `SessionStore.SecondWriterIsRefused` | internal/adksession/service.go:355-436 | of two handles at one version only the first to append succeeds |
| `DelegationSchedule.RepliesArriveInOrder` | internal/engine/tool_batch.go:24-61 | unless a cancelled call takes a batch, the replies are those read, split and in order |
| `DelegationSchedule.ReadsAsLongAsWanted` | internal/engine/tool_batch.go:40-61 | a call reads on until a reply is split or an error, its caller has had enough, or nothing is left |
| `DelegationSchedule.HeldPartComesNext` | internal/engine/tool_batch.go:24-61 | the part held back is what the next call yields, unless that is cancelled, and it opens no stream |
| `DelegationSchedule.CallsAreConserved` | internal/engine/tool_batch.go:24-61 | every call of a reply read, as far as the reply is passed on or split and not turned into an error, is yielded, still waits, or was lost with a batch |
| `DelegationSchedule.LostExactlyToCancellation` | internal/engine/tool_batch.go:30-37 | a batch is lost exactly when a call that is already cancelled takes it |
| `ToolBatch.FilterPreserved` | internal/agentmodel/openai_responses.go:603-662 | the preserved context loses exactly the excluded calls, or does not decode |
| `ToolBatch.SplitMixedToolBatch` | internal/engine/tool_batch.go:81-142 | a mixed complete response is split in two, any other passed through |
| `ToolBatch.SplitIsPartition` | internal/engine/tool_batch.go:103-141 | each half has the calls of its kind in their order and no part is lost |
| `ToolBatch.HalvesAreComplete` | internal/engine/tool_batch.go:103-141 | both halves are whole responses; the deferred one ends the turn, and the usage is reported once |
| `ToolBatch.DeferredHoldsDelegations` | internal/engine/tool_batch.go:103-141 | the deferred half holds delegations only, and at least one |
| `ToolBatch.ContextForgetsDeferredCalls` | internal/engine/tool_batch.go:122-131 | the context preserved beside the ordinary half mentions no deferred call and drops nothing else |
| `ToolBatch.EveryCallIsDeliveredOnce` | internal/engine/tool_batch.go:24-142 | over sequential calls each function call read is delivered or waits exactly when no cancelled call takes a batch and every mixed response read can be split |
| `ToolBatch.WholeStreamsAreDelivered` | internal/engine/tool_batch.go:24-61 | of all that the wrapped model streams each call arrives exactly when, besides, nothing left unread holds one |
| `ToolBatch.KindsNeverMix` | internal/engine/tool_batch.go:24-142 | no reply mixes the two kinds, and the error for a batch already pending is dead |
| `ToolBatch.OnlyCancellationTakesBatches` | internal/engine/tool_batch.go:30-37 | a batch held back is taken without being yielded exactly when a cancelled model call takes it |
| `ToolBatch.CancelledCallLosesDelegation` | internal/engine/tool_batch.go:24-61 | a mixed response and then a cancelled call: the delegation is read, and neither yielded nor waiting |
| `ToolBatch.UnreadableContextLosesCalls` | internal/engine/tool_batch.go:40-61 | a mixed response whose preserved context does not decode is read and none of its calls arrives |
| `ToolBatch.MixedToolBatchModel.GenerateContent` | internal/engine/tool_batch.go:24-61 | one call yields and leaves pending what the schedule says |
| `OutputBuffers.BoundedCommandOutput.Write` | internal/workspacetools/command.go:636-682 | any write keeps the capture equal to its function of the whole stream |
| `OutputBuffers.BoundedCommandOutput.Result` | internal/workspacetools/command.go:684-693 | the report is the whole stream or exactly its first and last halves with the number of bytes between |
| `OutputBuffers.CaptureChunks` | internal/workspacetools/command.go:632-693 | report and live bytes do not depend on how the stream was chunked |
| `OutputBuffers.ClientTerminal.Write` | internal/acpruntime/terminal.go:215-240 | any write keeps a suffix of the stream within the limit, truncated exactly when something was dropped |
| `OutputBuffers.TrimTerminalOutput` | internal/acpruntime/terminal.go:318-327 | the cut moves forward to the first character start |
| `OutputBuffers.RetainChunks` | internal/acpruntime/terminal.go:215-240 | a run of writes keeps what the specification keeps, a bounded suffix with an exact flag, all of a stream that fits, all but less than four bytes of the limit on longer well-formed ones, and on settled streams the suffix that starts at the first character start in range |
| `OutputBuffers.KeptIsTail` | internal/acpruntime/terminal.go:215-240 | a run of any chunks keeps a suffix of the stream within the limit |
| `OutputBuffers.LittleIsWasted` | internal/acpruntime/terminal.go:318-327 | on well-formed text fewer than four bytes of the limit are wasted |
| `OutputBuffers.TinyLimitDependsOnChunks` | internal/acpruntime/terminal.go:215-240 | at limits of one byte and of two, two runs over one character keep different tails |
| `OutputBuffers.TailsAgreeExactly` | internal/acpruntime/terminal.go:215-240 | over all chunkings of all well-formed text the tails agree exactly when the limit is neither one nor two |
| `TranscriptPaging.Expand` | internal/engine/transcript.go:59-86 | the expanded start is the greatest closed start not above the page's own |
| `TranscriptPaging.ClosedMeans` | internal/engine/transcript.go:59-100 | closed means that each delegated item shown has the last call before the end that it belongs to on the page |
| `TranscriptPaging.Paginate` | internal/engine/transcript.go:35-52 | a page is the clamped window widened to the greatest start that shows all parents, and its cursor says where the next one ends |
| `TranscriptPaging.PageShowsParents` | internal/engine/transcript.go:54-86 | a closed page contains the indexed parent call of every delegated item it shows |
| `TranscriptPaging.FollowCursors` | internal/engine/transcript.go:35-86 | following the cursors ends, and the pages are the transcript, each item once and in order |
| `ToolPolicy.NormalizeRules` | internal/toolpolicy/policy.go:212-246 | rules are accepted exactly when each is valid and none repeated, and come out normalized and sorted |
| `ToolPolicy.NormalizePermissions` | internal/toolpolicy/policy.go:186-254 | permissions are accepted exactly when each tool has one valid one, and come out in canonical form, each with the mode, scope and rules of the one given for its tool |
| `ToolPolicy.AcceptableMeans` | internal/toolpolicy/policy.go:186-254 | acceptable means one permission for each tool, each with a valid mode and scope and valid rules no two of which clash |
| `ToolPolicy.NormalSays` | internal/toolpolicy/policy.go:212-246 | normalizing keeps tool, mode and scope and as many rules, each with matcher and mode of one given whose target normalizes to its own |
| `ToolPolicy.NothingIsMissing` | internal/toolpolicy/policy.go:245-252 | by counting, the error for a missing tool is dead |
| `ToolPolicy.OrderDoesNotMatter` | internal/toolpolicy/policy.go:186-254 | the order of permissions and rules decides neither acceptance nor result |
| `ToolPolicy.NormalizingIsIdempotent` | internal/toolpolicy/policy.go:186-254 | a result is accepted again and is its own canonical form |
| `ToolPolicy.ConfirmationForUrl` | internal/toolpolicy/policy.go:256-276 | an exact rule decides before one for the origin, and that before the tool's mode |
| `ToolPolicy.RulesAreObeyed` | internal/toolpolicy/policy.go:256-276 | with distinct targets a rule for the URL decides, one for its origin if there is none, and else the tool's mode |
| `ToolPolicy.ConfirmationIsDetermined` | internal/toolpolicy/policy.go:256-276 | with distinct targets only one mode can be the answer |

## Left out

- The filesystem: operations that fail leave it unchanged except a failed write, nobody else writes during a
  patch, special mode bits and directories are not modelled, and a lookup of the parent of a created file is a
  possible fault only.
- The older form of an edit call, one path with its edits, which becomes a list of one update.
- Paths are taken as cleaned; resolving a path, rendering a diff and hashing are arbitrary functions, the hash an
  injective one.
- The hub's table as an object: `Hub` models one stream in place, `StreamTable` the table of streams on values, and
  the channels of the stream that a second creation of a run replaces are not followed.
- JSON: estimates are an arbitrary size for each content, so failures to encode are not modelled, and a digest is
  the contents it digests.
- Texts are taken as trimmed where the code trims them; fixed headings and notes are modelled by their length or as
  a constructor rather than by their wording.
- Nil parts inside a content that is compacted, on which the boundary check would panic.
- The notifications of a compaction's progress, and the forced compaction after a provider's rejection, which makes
  the same request to compact.
- Rendering contents as sections: sections are any non-empty texts.
- `Summarizer.Summarize`: states only that a fed piece is a start of its fragment; that it ends between characters
  is `ContextSections.SplitKeepsCharacters`.
- `Compaction.CompactionNeverSplitsCalls`: concerns calls with a non-empty id, since the code tracks no others.
- The lookups of a run and its session around each approval; approval ids are arbitrary, not freshly drawn.
- `ApprovalTable.ActiveRun.WaitForNextToolApproval`: speaks of a wait over a finite schedule of others' steps.
- Opening a connection, OAuth and the tool catalogue: an open returns a session or an error at any moment.
- Real time: timers are steps that may happen while they are armed.
- A part of an event to repair carries one thing; in the code a part could carry a call and a response at once.
- SQLite: an append is one atomic step, and the two reads of a session are separate steps.
- Concurrent use of the delegation wrapper: its calls are sequential.
- Cleaning of line ends and of invalid UTF-8 in reported output; the buffers are stated on raw bytes.
- The order of permission targets is that of their ranks, and normalizing a URL is an arbitrary idempotent function.
- The ADK runner, LLM adapters, HTTP handlers, credential stores, skills, configuration and the frontend.
