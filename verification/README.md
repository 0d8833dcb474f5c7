# LinX core protocols in Dafny

LinX is a platform for running language-model agents. This project models the parts of its backend whose
correctness depends on state kept over many steps, and proves what those parts are for. `dafny verify
dfyconfig.toml` checks all of it.

| file | component |
|---|---|
| `SnapshotProtocol.dfy` | workspace snapshots of a persistent conversation: table rows, latest snapshot, object store, crashes |
| `HistoryWindow.dfy`, `HistoryCompaction.dfy`, `CompactionVisibility.dfy` | the turn-window split, the runtime window, paging, compaction of old messages into archives, and when that shows in the loaded window |
| `WorkspacePaths.dfy`, `RetentionText.dfy` | retention classes by the components of a path, and by its text as the code tests it |
| `WorkspaceDecay.dfy`, `WorkspaceArchive.dfy` | cleaning a workspace, and storing it as archive and manifest |
| `RetryCounters.dfy`, `RecoveryLoop.dfy` | the agent's multi-round recovery loop, its retry counters, time budget and completion check |
| `JsonText.dfy`, `BraceScanner.dfy`, `ToolPayload.dfy` | printing tool calls as JSON, finding them in model output, reading them back |
| `ContextCompression.dfy` | truncation and pruning of the prompt history |
| `Departments.dfy`, `ResourceAccess.dfy` | the two walks of the department tree, and who may see an agent or a skill |
| `Abac.dfy`, `ConditionLaws.dfy` | attribute-based policies and their engine; what conditions and dotted paths mean, and what a change to them can do |
| `PolicyLoader.dfy` | the stored form of policies, and the cache of enabled policies |
| `TokenSessions.dfy` | login tokens, refreshes, revocation by token and by session |
| `RequestResponse.dfy` | correlated requests between agents, with timeouts, late replies and close |
| `Common.dfy` | options, results, filtering, permutations, white space |

Code that changes state step by step (the snapshot service, compaction, cleaning, the recovery loop, the policy
loader and engine, the token lists, the communicator) is a class or a method with loops, whose postcondition ties
the new state to a transition function. The lemmas then speak about all runs of those transitions. What the clock,
the model, the tools, an upload, a deletion, a crash or a cancellation does is an input of the run.

Where the code does not meet a property that its documentation or its own other half promises, the project keeps
the code as it is, shows a run or an input, and states exactly when the property holds:

- The snapshot table has a unique index on conversation and generation, and a failed snapshot takes the next
  generation. From then on every attempt computes that same generation and is refused, so the restorable snapshot
  stays as it was until the conversation is archived (`FailureFreezesSnapshot`, `AttemptCommitsIff`). No object is
  forgotten before a conversation is archived (`NothingForgotten`); a crash between the archiving transaction and its
  deletions leaves objects that no row names, exactly which ones is stated (`CrashAfterArchivingForgets`).
- Compaction promises to take only what lies before the loader's window. It never shows, whatever the two windows and
  whatever order the query returns, if and only if there are few turns, the window is young, or fewer turns than the
  compaction window can follow a loaded message (`InvisibleIff`). Archiving compacts with ten turns where the loader
  shows forty by default, and so can be seen (`ArchivingCanShow`). The compaction query orders by time alone where the
  other queries break ties; the order is determined exactly when no two times are equal (`CompactionOrderDetermined`).
  So even a compaction with the loader's own window can take a loaded message: it never does if and only if there are
  few turns, the window is young, or no tie reaches across its start (`ScheduledInvisibleIff`).
- Scrolling back shows every message that was there at the first request exactly once, while others are added and
  deleted, if and only if none is deleted before the client comes to it (`PagingExactIff`).
- The cleaning treats a file under `output/` or `shared/` as scratch when its name looks like scratch, and the
  message it raises advises moving files there (`DeliveryDirectoryDurableIff`). Scratch directories are handed to
  the snapshot as excluded, so a durable file inside a directory with such a name survives the cleaning and is
  missing after the next restore (`CycleRestoresIff` for every file there was, `DurableFileLost` for one). A soft
  limit above the hard one makes it raise although inputs could still go (`ForcedIff`). The setting for how long
  scratch files stay (`ephemeral_ttl_hours`) is never read: a cleaning takes them all, whatever their age
  (`EarlyPassesExact`).
- Retry counters are read by key prefix: they count what they say exactly when no tool name is another followed by
  an underscore (`CountsAreStreaksIff`). The limit check looks at the key of the first failure only
  (`AllFailedRoundEndsIff`, `MixedFailuresSlip`): a streak at the limit ends the run, whatever came before the
  round, if and only if the first tool's last failure of the round is of the same kind as its first
  (`StreakEndsRunIff`). The completion check does not look at validation errors
  (`ValidationErrorAccepted`); passing it answers every call that did not succeed if and only if none failed to
  validate after the last round with a success (`AllAnsweredIff`, and `SuccessAnswersAllIff` for whole runs). The
  success of any tool answers the failure of any other (`OtherToolAnswers`); passing the check means that every tool
  made good its own failures if and only if there is no second tool (`OwnToolAnswersIff`). A run whose time is up
  before its first round has no output text to return (`OutputUnboundIff`).
- A written tool call is read back as itself exactly when its arguments do not look like an envelope
  (`RecoversIff`).
- The agent query compares raw columns where the predicate normalises them (`AgreementNeedsCanonicalLevel`,
  `AgreementNeedsCanonicalId`). One unreadable enabled policy row empties the engine, which then denies everything
  (`LoadAgreesIff`); from then on it holds exactly the enabled policies written since, until a load can read all
  rows (`EngineHoldsIff`).
- Revoking a token leaves the rest of its session alive (`RevokeTokenIsLocal`).
- A request is answered by any agent, not just the one that was asked (`AnySenderAnswers`): only the recipient can
  answer if and only if the receive check refuses every other agent's response with the request's id
  (`OnlyRecipientAnswersIff`).
- The communicator calls `authorize_send` and `authorize_receive` (`inter_agent_communication.py:350`, `:642`) and
  `log_message_sent` and `log_message_received` (`:366`, `:655`). The authorizer
  (`backend/message_bus/authorization.py:41-250`) and the auditor (`backend/message_bus/audit.py:62-270`) have none of
  them, and both are on by default. A request can succeed if and only if some response gets past both
  (`CanSucceedIff`), which with these components means that both are switched off (`ConfiguredSucceedsIff`). With the
  auditor on, exactly the requests that reached the stream are reported as failed to send (`MisreportedIff`).

## Model

| member | source | states |
|---|---|---|
| SnapshotProtocol.SnapshotSafety | backend/agent_framework/persistent_conversations.py:749-879 | After any run of uploads, commits, deletions, failed snapshots, archiving and crashes there is at most one ready row; the conversation refers to it, its generation exceeds every superseded row's and every object's still to be deleted, and both its objects hold the captured bytes |
| SnapshotProtocol.RestoreFindsCaptured | backend/agent_framework/persistent_conversations.py:526-548 | A restore after any run returns the archive of the last committed snapshot, never a missing object |
| SnapshotProtocol.AttemptCommitsIff | backend/agent_framework/persistent_conversations.py:778-831 | From any reachable state an undisturbed attempt becomes restorable if and only if the table has no unique index or its generation is free; otherwise rows and restorable content are untouched |
| SnapshotProtocol.FailureFreezesSnapshot | backend/database/models.py:496-503 | With the unique index, one recorded failure fixes what a restore returns through everything that follows short of archiving |
| SnapshotProtocol.RecordFailedBlocks | backend/agent_framework/persistent_conversations.py:847-879 | The generation a failed row takes is the one the next attempt will ask for |
| SnapshotProtocol.BlockedRun | backend/agent_framework/persistent_conversations.py:778-785 | Once that generation is taken, no run without archiving captures anything |
| SnapshotProtocol.ArchiveUnblocks | backend/agent_framework/conversation_lifecycle_manager.py:348-389 | Archiving frees the generation and keeps what is restorable |
| SnapshotProtocol.ArchiveSafe | backend/agent_framework/conversation_lifecycle_manager.py:354-385 | Archiving keeps the newest ready row and dooms only objects of lower generation |
| SnapshotProtocol.LatestReadyIsNewest | backend/agent_framework/persistent_conversations.py:526-534 | The ordered query returns a ready row of highest generation |
| SnapshotProtocol.NothingForgotten | backend/agent_framework/conversation_lifecycle_manager.py:348-388 | Over every run without archiving, whatever crashes and whatever deletions fail, each stored object is named by a row or lies where the next attempt writes; after that, archiving included, while nothing crashes and deletions work, it is that or about to be deleted |
| SnapshotProtocol.StoreStaysTidy | backend/agent_framework/persistent_conversations.py:833-845 | Over every run without crashes and failing deletions the store holds the ready row's two objects, what is about to be deleted, and what the next attempt writes over, and nothing else |
| SnapshotProtocol.AttemptCleansUp | backend/agent_framework/persistent_conversations.py:749-845 | A committed attempt with its deletions: when these work exactly the superseded row's two objects are gone from the store; when they fail the objects stay, and nothing is left to delete them |
| SnapshotProtocol.ArchivingDooms | backend/agent_framework/conversation_lifecycle_manager.py:365-377 | What archiving no longer names it dooms |
| SnapshotProtocol.CrashAfterArchivingForgets | backend/agent_framework/conversation_lifecycle_manager.py:384-388 | After archiving and a crash right behind it each object some row named is still stored, and accounted for if and only if it belongs to the kept snapshot or lies where the next attempt writes |
| SnapshotProtocol.SnapshotService.StoreSnapshot | backend/agent_framework/persistent_conversations.py:749-831 | Uploading and committing is a run of the protocol; for each place where it may fail or crash, before, at or after the commit, which outcome it reports, whether the new content was captured, and which old objects are left to delete |
| SnapshotProtocol.SnapshotService.CleanAndStore | backend/agent_framework/persistent_conversations.py:444-465 | The same with the cleaning before it, which may raise: created exactly when nothing fails and the generation is free |
| SnapshotProtocol.SnapshotService.DeletePrevious | backend/agent_framework/persistent_conversations.py:833-845 | The deletions after a commit touch only the superseded row's two objects, whether or not they succeed |
| SnapshotProtocol.SnapshotService.RecordFailedSnapshot | backend/agent_framework/persistent_conversations.py:847-879 | A failed row names no objects and, in every safe state, takes a generation above that of every row there was |
| SnapshotProtocol.SnapshotService.SnapshotRuntime | backend/agent_framework/persistent_conversations.py:433-477 | A whole attempt keeps the safety invariant; it creates a snapshot exactly when nothing fails and the generation is free, captures its content exactly when the commit was reached, even if an error follows, and adds a failed row exactly when it raises |
| SnapshotProtocol.SnapshotService.RestoreWorkdir | backend/agent_framework/persistent_conversations.py:526-548 | In every safe state the restore finds the object it looks for |
| SnapshotProtocol.SnapshotService.DropOtherRows | backend/agent_framework/conversation_lifecycle_manager.py:355-383 | Keeps the newest ready row alone and makes the conversation refer to it; the dropped rows' objects are those to delete |
| SnapshotProtocol.SnapshotService.ArchiveConversationRows | backend/agent_framework/conversation_lifecycle_manager.py:348-389 | The objects returned for deletion are exactly those that some dropped row named; at most one row is left, the next attempt is not blocked, the captured content stays |
| HistoryWindow.SplitMessagesByTurnWindow | backend/agent_framework/conversation_history_compaction.py:163-188 | The two halves joined are the input; with more turns than the window the recent half starts at a user message and holds exactly the window's number of turns |
| HistoryWindow.NumberTurns | backend/agent_framework/conversation_history_compaction.py:170-175 | Each message's turn is the number of user messages up to and including it |
| HistoryWindow.TurnStartUnique | backend/agent_framework/conversation_history_compaction.py:180-188 | There is one place only where the last n turns begin, so the split is determined |
| HistoryWindow.BeforeTotal | backend/agent_framework/conversation_history_compaction.py:404-444 | The order of the queries: by time, and at the same time by identifier |
| HistoryWindow.RuntimeWindowIsSuffix | backend/agent_framework/conversation_history_compaction.py:335-384 | The loader's anchored query returns a suffix of the chat messages, from the anchor's turn on, or the newest messages when there is no user turn |
| HistoryWindow.WindowIsRecentHalf | backend/agent_framework/conversation_history_compaction.py:321-395 | With more user turns than the window the loader returns exactly the recent half of the split |
| HistoryWindow.PageLeavesRest | backend/agent_framework/conversation_history_compaction.py:404-444 | A page is the newest part of what lies before the cursor, its oldest message leads to exactly the rest, and the flag says whether there is a rest |
| HistoryWindow.PagingExactIff | backend/agent_framework/conversation_history_compaction.py:397-459 | Scrolling back while messages are added after what is there and any are deleted: it ends, only the last page says nothing older is left, the pages joined oldest first show messages of the first request, each at most once and in order, and all of them if and only if none was deleted while it still lay before the cursor |
| HistoryWindow.PagingExact | backend/agent_framework/conversation_history_compaction.py:397-459 | In particular, with messages that stay as they are the pages joined oldest first are all chat messages, each once, in order |
| HistoryCompaction.HistoryConserved | backend/agent_framework/conversation_history_compaction.py:496-620 | Over every run of appends with any times, compactions with any tie order, failed summaries and crashes: archives in commit order followed by the live messages are a rearrangement of the history, sorted by time when it was appended so, and the history itself when no two times are equal; the archive counts add up to both counters |
| HistoryCompaction.CompactableIsPrefix | backend/agent_framework/conversation_history_compaction.py:496-512 | Whatever order the query returned, what is compacted is a prefix of it: the rows before the window that are old enough |
| HistoryCompaction.WithoutBatch | backend/agent_framework/conversation_history_compaction.py:601-602 | Deleting the compacted rows takes each of them once from the chat messages and leaves every other row as it was |
| HistoryCompaction.RestIsLeft | backend/agent_framework/conversation_history_compaction.py:496-602 | The rows of the query that were not compacted are again a result the query may return |
| HistoryCompaction.SummaryCoversArchivesOnly | backend/agent_framework/conversation_history_compaction.py:592-599 | When messages were appended in order of time, no live chat message is earlier than the point the summary covers, and all are later when times are distinct |
| HistoryCompaction.AppendsAdd | backend/database/models.py:422-440 | Messages with new ids are all kept in order, and the journal takes exactly those of users and assistants |
| HistoryCompaction.CommitEffects | backend/agent_framework/conversation_history_compaction.py:560-612 | A committed compaction takes the batch from the live rows into one new object and archive, adds its size to both counters, and moves the point the summary covers to its last message |
| HistoryCompaction.FailureEffects | backend/agent_framework/conversation_history_compaction.py:532-559 | A failed summary whose upload is deleted changes nothing; a failed deletion, or a crash after the upload, leaves exactly the uploaded object over |
| HistoryCompaction.CompactionOrderDetermined | backend/agent_framework/conversation_history_compaction.py:496-502 | The compaction query, ordered by time alone, returns the other queries' order for certain if and only if no two messages have equal times |
| CompactionVisibility.InvisibleIff | backend/agent_framework/conversation_history_compaction.py:474-512 | For any compaction window, any loader window and every order of ties the query may return: compaction never shows if and only if there are no more turns than its window, or the oldest loaded message is too young, or fewer turns than its window can follow a loaded message |
| CompactionVisibility.DropInvisibleIff | backend/agent_framework/conversation_history_compaction.py:335-384 | Deleting any batch of messages leaves the loaded window unchanged if and only if none of them is loaded, however far back the loader could reach instead |
| CompactionVisibility.CompactionInvisibleIff | backend/agent_framework/conversation_history_compaction.py:474-513 | When the query returns the other queries' order, compaction leaves the loaded window unchanged if and only if its window is at least the loader's, or there are no more turns than its window, or the oldest loaded message is too young |
| CompactionVisibility.ScheduledInvisibleIff | backend/agent_framework/conversation_history_compaction.py:496-512 | With the loader's own window it never shows if and only if there are no more turns than the window, or the oldest loaded message is too young, or no earlier user message and no later assistant message shares that message's time |
| CompactionVisibility.ScheduledCompactionInvisible | backend/agent_framework/conversation_history_compaction.py:474-513 | With the loader's own window and distinct times compaction never shows |
| CompactionVisibility.ArchivingCanShow | backend/agent_framework/conversation_lifecycle_manager.py:338-346 | With the ten turns of archiving and more than ten turns live it is invisible only while the oldest loaded message is too young |
| HistoryCompaction.ConversationHistory.CompactConversation | backend/agent_framework/conversation_history_compaction.py:464-620 | With the requested window, or the configured one when none or 0 is asked for: commits exactly when something is eligible and the summary succeeds; then the archive holds the head of what the query returned and the rest is left; otherwise rows, archives and counters are as before |
| HistoryCompaction.ConversationHistory.CompactWindow | backend/agent_framework/conversation_history_compaction.py:490-620 | The same for a given window |
| HistoryCompaction.ConversationHistory.ReadBatch | backend/agent_framework/conversation_history_compaction.py:496-512 | The query, the split and the age filter select the eligible messages |
| HistoryCompaction.ConversationHistory.CompactBatch | backend/agent_framework/conversation_history_compaction.py:514-612 | With something eligible the live rows lose exactly the batch when the summary succeeds, and nothing otherwise |
| HistoryCompaction.ConversationHistory.ArchiveBatch | backend/agent_framework/conversation_history_compaction.py:532-612 | Upload, summary and transaction, with the upload discarded when there is no summary |
| WorkspacePaths.CoversIsPrefix | backend/agent_framework/persistent_conversations.py:160-167 | On the texts of paths the exclusion test is the prefix relation on components |
| WorkspacePaths.NormalizePlain | backend/agent_framework/persistent_conversations.py:151-157 | The archive's member names and the manifest's relative paths normalise to the same text |
| WorkspacePaths.ReplacedAt | backend/agent_framework/conversation_workspace_decay.py:67-71 | Backslashes become slashes, and nothing else changes |
| WorkspacePaths.TrimmedLeft | backend/agent_framework/conversation_workspace_decay.py:67-71 | Slashes at the beginning go, all of them and nothing else |
| WorkspacePaths.TrimmedRight | backend/agent_framework/conversation_workspace_decay.py:67-71 | The same at the end |
| WorkspacePaths.DeliveryDirectoryDurableIff | backend/agent_framework/conversation_workspace_decay.py:144-165 | A file under output/ or shared/ is durable if and only if no component is `__pycache__` and its name is not a throwaway name; else it is ephemeral |
| WorkspacePaths.DeliveredRequirementsEphemeral | backend/agent_framework/conversation_workspace_decay.py:400-415 | output/requirements.txt is classed as ephemeral |
| WorkspacePaths.StatefulAncestors | backend/agent_framework/conversation_workspace_decay.py:395-398 | No directory above a stateful runtime path is ephemeral |
| RetentionText.ClassesAgree | backend/agent_framework/conversation_workspace_decay.py:144-166 | On the text of every path the rules as the code applies them, by prefixes, suffixes, patterns and search, give the class that the rules on components give |
| RetentionText.ContainsIsIn | backend/agent_framework/conversation_workspace_decay.py:412-413 | Searching the text for a directory name between slashes finds it if and only if it is a component |
| RetentionText.ThrowawayIff | backend/agent_framework/conversation_workspace_decay.py:33-37 | The base names that are thrown away are exactly the listed name, the suffixes, code_ with eight hexadecimal digits and a script extension, and requirements with at most one tag |
| WorkspaceDecay.DecayPartitions | backend/agent_framework/conversation_workspace_decay.py:219-312 | Durable and stateful files all survive any pattern of failed deletions, and deleted and surviving files divide the initial ones, survivors unchanged and in order |
| WorkspaceDecay.EarlyPassesExact | backend/agent_framework/conversation_workspace_decay.py:226-262 | The first two passes leave exactly the files that are neither scratch whose removal works nor inputs at or past their time whose removal works, in their order; and that is the whole cleaning when both soft limits hold then |
| WorkspaceDecay.OverdueLeftOnlyStuck | backend/agent_framework/conversation_workspace_decay.py:236-262 | Scratch files, and inputs at or past their time, are left by the whole cleaning only when their removal fails |
| WorkspaceDecay.NoneLeftEmpty | backend/agent_framework/conversation_workspace_decay.py:347-366 | With working removals of directories a cleaning leaves no directory empty that was not empty before |
| WorkspaceDecay.YoungInputsNeedPressure | backend/agent_framework/conversation_workspace_decay.py:243-294 | An input within its time is lost only when the first two passes left the workspace over a soft limit |
| WorkspaceDecay.TrimIsShortestSweep | backend/agent_framework/conversation_workspace_decay.py:273-294 | The pass under pressure attempts the shortest nonempty part of its list after which both soft limits hold, or all of it |
| WorkspaceDecay.OldestInputsFirst | backend/agent_framework/conversation_workspace_decay.py:273-284 | Under pressure an input that is gone precedes, by time and then path, every input that is left and could have been deleted |
| WorkspaceDecay.SortByAgeSorted | backend/agent_framework/conversation_workspace_decay.py:273-280 | The order of the pass under pressure is by modification time, ties by the path's text |
| WorkspaceDecay.PruneUpKeeps | backend/agent_framework/conversation_workspace_decay.py:347-366 | Removing empty directories upward never removes one that still leads to a file or directory |
| WorkspaceDecay.DecayFinishes | backend/agent_framework/conversation_workspace_decay.py:219-294 | When every deletion works no scratch file is left, every input left is younger than its time, and no input at all is left unless the soft limits hold |
| WorkspaceDecay.RaisesOnlyWhenForced | backend/agent_framework/conversation_workspace_decay.py:300-312 | With soft limits at most the hard ones and working deletions it raises if and only if the durable and stateful files alone exceed a hard limit |
| WorkspaceDecay.ForcedIff | backend/agent_framework/conversation_workspace_decay.py:104-119 | That holds for every workspace if and only if both soft limits are at most the hard ones, which the settings do not ensure |
| WorkspaceDecay.RaisesUnforced | backend/agent_framework/conversation_workspace_decay.py:300-312 | Otherwise a folder of young inputs makes it raise although nothing durable is there |
| WorkspaceDecay.WorkspaceFolder.DeletePath | backend/agent_framework/conversation_workspace_decay.py:347-366 | Removes the file and every directory above it that has become empty and can be removed, or changes nothing |
| WorkspaceDecay.WorkspaceFolder.DeleteMatching | backend/agent_framework/conversation_workspace_decay.py:236-262 | One pass tries every selected listed file once and reports exactly the paths that went |
| WorkspaceDecay.DeleteOldest | backend/agent_framework/conversation_workspace_decay.py:267-294 | The loop under pressure, checked after every attempt |
| WorkspaceDecay.Totals | backend/agent_framework/conversation_workspace_decay.py:336-345 | The sum of the sizes and the number of the files |
| WorkspaceDecay.DecayWorkspace | backend/agent_framework/conversation_workspace_decay.py:219-334 | Raises exactly when, enabled, the bytes or files left exceed a hard limit; otherwise returns the bytes and files left, the deleted paths, which with the files left divide those there were, and exactly the scratch paths left; disabled it changes nothing |
| WorkspaceArchive.WalkIsFlat | backend/agent_framework/persistent_conversations.py:215-237 | The archive walk that prunes at an excluded directory keeps exactly the paths the flat test keeps, in the same order |
| WorkspaceArchive.ListAscends | backend/agent_framework/persistent_conversations.py:180-182 | Walking sorted directories lists paths in the order that sorting them gives |
| WorkspaceArchive.SortedArrangement | backend/agent_framework/persistent_conversations.py:180 | Sorting any arrangement of an ascending list gives that list back |
| WorkspaceArchive.BuildManifestEntries | backend/agent_framework/persistent_conversations.py:170-202 | From the recursive listing in any order, sorted by path, the manifest lists exactly the members of the archive, in its order |
| WorkspaceArchive.RestoreIsPrunedTree | backend/agent_framework/persistent_conversations.py:205-237 | Extracting the archive into an empty directory gives the tree without its excluded parts, files with their data and directories, and nothing else |
| WorkspaceArchive.ExtractCloses | backend/agent_framework/persistent_conversations.py:205-212 | Extraction creates the directories a member needs, listed or not |
| WorkspaceArchive.ExcludedIffScratchOnPath | backend/agent_framework/persistent_conversations.py:449-460 | With the scratch paths of a cleaned workspace as exclusions, a path is left out if and only if it or a directory above it is ephemeral |
| WorkspaceArchive.SnapshotKeepsFileIff | backend/agent_framework/conversation_workspace_decay.py:321-326 | A file left by the cleaning comes back from the snapshot if and only if neither it nor a directory above it is ephemeral |
| WorkspaceArchive.RemainingLists | backend/agent_framework/conversation_workspace_decay.py:347-366 | The tree a cleaning leaves lists exactly the files and directories that are still there, with their contents |
| WorkspaceArchive.CycleRestoresIff | backend/agent_framework/persistent_conversations.py:433-548 | Cleaning, archiving and restoring, for every file there was before: it comes back, with its data, if and only if the cleaning left it and no path on the way to it is ephemeral, under any settings and any failing deletions |
| WorkspaceArchive.StatefulFilesKept | backend/agent_framework/conversation_workspace_decay.py:395-398 | Installed dependencies always come back |
| WorkspaceArchive.DurableFileLost | backend/agent_framework/conversation_workspace_decay.py:400-415 | Whatever the settings and deletions, the cleaning keeps output/run.log/report.pdf, which is durable, and the restore of the cleaned workspace lacks it |
| RetryCounters.CountsAreStreaksIff | backend/agent_framework/base_agent.py:5934-5973 | For every history over a set of tool names, the current retry count of each tool is its number of failures since its last success, if and only if no name is another followed by an underscore |
| RetryCounters.CountsAreStreaks | backend/agent_framework/base_agent.py:4518-4841 | The same for one history, with the form of all keys in the dictionary |
| RetryCounters.ExtendingNameMiscounts | backend/agent_framework/base_agent.py:5959-5973 | When one name extends another, a single failure of the longer is read as one of the shorter |
| RetryCounters.KeyHoldsStreak | backend/agent_framework/base_agent.py:5934-5955 | The counter of one key is the tool's streak at the last failure under that key |
| RetryCounters.ParseCountsExact | backend/agent_framework/base_agent.py:4172-4186 | Each parse counter is the number of such parse errors, whatever tools are called or cleared |
| RecoveryLoop.RunEnds | backend/agent_framework/base_agent.py:5190-5823 | Every run that returns is terminated with a reason after one to the maximum number of rounds, succeeds exactly with a final answer, and has consistent records, counters and errors |
| RecoveryLoop.RoundsWithinIff | backend/agent_framework/base_agent.py:5190-5823 | A number bounds the rounds of all runs if and only if it is at least the cap: none exceeds the cap, and some run reaches it |
| RecoveryLoop.DefaultRoundsWithinIff | backend/agent_framework/runtime_policy.py:123-138 | With the computed cap that is so if and only if the number is at least 160, or at least 32 and at least 24 and eight for each profile |
| RecoveryLoop.OutputUnboundIff | backend/agent_framework/base_agent.py:5197-5216 | A run that is not cancelled lacks its output text if and only if the time is up at the first check |
| RecoveryLoop.SuccessMeans | backend/agent_framework/base_agent.py:1480-1643 | A successful run ended on a text that passed the completion check; a strict demand for a file is met, and outside the advisory exit every recorded failure or timeout is followed by a recorded success in the same or a later round |
| RecoveryLoop.RecordsTellOfCalls | backend/agent_framework/base_agent.py:4518-4841 | At the end of every run the records tell of exactly the calls of its turns, each with its round, tool, formats and what became of it; only a round whose time was up may not have run its calls |
| RecoveryLoop.SuccessOverTurns | backend/agent_framework/base_agent.py:1480-1643 | A run that returns succeeds if and only if its time was not up and its last turn was a complete text, no tool call, after which either a demanded file is missing and the guard only advises, or none is, no file is pasted, no call is left failed, and the text is neither blank nor unfinished |
| RecoveryLoop.SuccessAnswersCalls | backend/agent_framework/base_agent.py:1592-1600 | Unless it ended on that advice, in a successful run every call of a turn that timed out or threw has a call that worked in the same or a later turn |
| RecoveryLoop.StrictDelivery | backend/agent_framework/base_agent.py:1726-1759 | Under the strict guard success implies that a call of the run's turns worked and produces the demanded file |
| RecoveryLoop.UnresolvedIff | backend/agent_framework/base_agent.py:1315-1333 | Comparing the latest failure with the latest success decides the question for all failures |
| RecoveryLoop.ValidationErrorAccepted | backend/agent_framework/base_agent.py:1302-1313 | A single call that never validated does not keep an answer from being accepted |
| RecoveryLoop.AllAnsweredIff | backend/agent_framework/base_agent.py:1302-1333 | For every list of records, each call that did not succeed is followed by a success in the same or a later round if and only if the check passes and no validation error lies after the last round with a success |
| RecoveryLoop.SuccessAnswersAllIff | backend/agent_framework/base_agent.py:1480-1643 | A successful run outside the advisory exit left no call unanswered if and only if no validation error lies after its last round with a success |
| RecoveryLoop.OtherToolAnswers | backend/agent_framework/base_agent.py:1592-1600 | The success of one tool, a round later, answers the failure of another |
| RecoveryLoop.OwnToolAnswersIff | backend/agent_framework/base_agent.py:1592-1600 | Over a set of tools, passing the check means that every failed call is followed by a success of its own tool, for all records, if and only if the set has at most one tool |
| RecoveryLoop.AllFailedRoundEndsIff | backend/agent_framework/base_agent.py:6035-6060 | A round in which all tools failed ends the run if and only if the first tool's streak, up to its last failure under the first failure's key, has reached the limit |
| RecoveryLoop.WorkedRoundGoesOn | backend/agent_framework/base_agent.py:5718-5750 | A round in which some tool worked ends nothing and records no error |
| RecoveryLoop.MalformedEndsIff | backend/agent_framework/base_agent.py:4152-4197 | A malformed answer ends the run if and only if its kind was recorded as often as the limit allows, and is otherwise recorded |
| RecoveryLoop.UniformRoundEndsIff | backend/agent_framework/base_agent.py:5718-5781 | When the first tool failed in one way only, the whole streak decides |
| RecoveryLoop.StreakEndsRunIff | backend/agent_framework/base_agent.py:6035-6060 | For a round in which all tools failed: whatever came before it and whatever the limit, a streak of the first tool at the limit ends the run, if and only if that tool's last failure of the round has the key of its first |
| RecoveryLoop.MixedFailuresSlip | backend/agent_framework/base_agent.py:6046-6060 | Two failures of two kinds in one round reach a limit of two and the run goes on |
| RecoveryLoop.RunCountsAreStreaks | backend/agent_framework/base_agent.py:4152-4197 | At the end of every run the counters are the streaks, and each parse counter is the number of recorded errors of its kind and at most the limit |
| RecoveryLoop.GraceOnce | backend/agent_framework/base_agent.py:2492-2553 | Over any sequence of checks the deadline moves at most once, from a check within the window after a compaction, and every check that passed lies within it |
| RecoveryLoop.FirstLateCheck | backend/agent_framework/base_agent.py:2495-2553 | The first check after the deadline moves it by the grace if and only if a compaction is no longer ago than the window and no grace was given; otherwise it finds the time up |
| RecoveryLoop.NoLateCheck | backend/agent_framework/base_agent.py:2495-2553 | Checks within the deadline change nothing |
| RecoveryLoop.DeadlineMovesOnce | backend/agent_framework/base_agent.py:2477-2553 | Over a whole run the deadline stays or is moved once, to the grace after a late check soon after a compaction of that run |
| RecoveryLoop.ConversationState.CurrentRetryCount | backend/agent_framework/base_agent.py:5965-5973 | The loop over the dictionary returns the largest matching counter, 0 without one |
| RecoveryLoop.ConversationState.ClearToolRetryCounts | backend/agent_framework/base_agent.py:5959-5963 | Removes exactly the matching counters |
| RecoveryLoop.ConversationState.ExecuteTools | backend/agent_framework/base_agent.py:4518-4841 | Runs the calls in order, each with a record that tells what became of it and its effect on the counters |
| RecoveryLoop.ConversationState.HandleParseErrors | backend/agent_framework/base_agent.py:4152-4197 | Ends the run exactly when this kind of error was recorded as often as the limit allows, and otherwise counts and records it; the invariant is kept |
| RecoveryLoop.ConversationState.HandleExecutionFailures | backend/agent_framework/base_agent.py:6035-6078 | Ends the run at the limit of the first failure's key, or else records exactly one error, of the first failure's tool and kind, and leaves counters and calls alone; the invariant is kept |
| RecoveryLoop.ConversationState.ConsumeRuntimeTimeout | backend/agent_framework/base_agent.py:2495-2553 | Times out exactly when the time is past the deadline and no grace is due; with grace due the deadline becomes the grace after now, and otherwise it stays |
| RecoveryLoop.ConversationState.Round | backend/agent_framework/base_agent.py:5195-5781 | One turn of the main loop, in the order of its checks |
| RecoveryLoop.ConversationState.RunLoop | backend/agent_framework/base_agent.py:5190-5781 | The main loop |
| RecoveryLoop.ExecuteTaskWithRecovery | backend/agent_framework/base_agent.py:5783-5855 | The end of a run: returned with its success, cancelled, or without an output text |
| BraceScanner.ExtractBalancedJsonObjects | backend/agent_framework/base_agent.py:3929-3971 | Returns the text and ends of each span of the scan, in order |
| BraceScanner.SpansCharacterised | backend/agent_framework/base_agent.py:3929-3971 | On any text the spans are exactly the places that open outside strings at depth 0 and first return to depth 0, in increasing order and disjoint |
| BraceScanner.PrintIsNeutral | backend/agent_framework/base_agent.py:2163-2169 | Inside an object the printed text of any JSON value leaves the scan as it found it, whatever its strings contain |
| BraceScanner.PrintedObjectsFound | backend/agent_framework/base_agent.py:3929-3971 | Printed objects between texts without quotes and braces are found at exactly their places, and nothing else is |
| BraceScanner.ExtractPrinted | backend/agent_framework/base_agent.py:3929-3971 | The extractor returns the printed objects themselves |
| ToolPayload.PlainRecovers | backend/agent_framework/base_agent.py:1988-2043 | A call with a non-blank name and arguments free of envelope keys is read back as itself |
| ToolPayload.WrappedNotRecovered | backend/agent_framework/base_agent.py:1972-1986 | A call whose arguments carry a non-null envelope key never is |
| ToolPayload.ToolKeyNotRecovered | backend/agent_framework/base_agent.py:2163-2169 | Nor is one whose arguments have a "tool" key |
| ToolPayload.RecoversIff | backend/agent_framework/base_agent.py:1988-2043 | A written call is read back as itself if and only if its name is not blank, it has no "tool" argument, and its first envelope key, if any, is null |
| ToolPayload.EnvelopeRoundTrip | backend/agent_framework/base_agent.py:2011-2027 | An object with a name under "name" or "tool_name" and an object of arguments under the first envelope key present is that call, whatever other keys it has |
| ToolPayload.PrintedEnvelopeRoundTrip | backend/agent_framework/base_agent.py:1954-1986 | So it is when the arguments are a printed object that the decoder inverts |
| ToolPayload.PositionalEnvelope | backend/agent_framework/base_agent.py:1972-1986 | Any other value under the envelope key is the one positional argument, as text |
| ToolPayload.FlatEnvelope | backend/agent_framework/base_agent.py:2000-2027 | Without an envelope key, or with null there, the other keys are the arguments, without the name and, outside the "tool" shape, the type |
| ToolPayload.ToolEnvelopeMerges | backend/agent_framework/base_agent.py:1999-2010 | Under "tool" wrapped arguments are added to the other keys and win over them |
| ToolPayload.NamelessRefused | backend/agent_framework/base_agent.py:2028-2043 | An object that names no tool is a missing field, and one whose name is no text or blank is an invalid type |
| ToolPayload.WrittenCallsRecovered | backend/agent_framework/base_agent.py:3929-3971 | Calls written between plain texts are all found and read back as themselves, in order |
| ContextCompression.CompressShape | backend/agent_framework/base_agent.py:4899-4973 | The result is the first message, an order-preserving selection of the middle with exactly its long texts cut to size, and the tail verbatim, whose length is the setting's but at least two; within the threshold nothing changes |
| ContextCompression.EstimateIsHalf | backend/agent_framework/base_agent.py:4843-4873 | The estimate is half the characters of all texts that count, up to one character a text, and no text is free |
| ContextCompression.CompressEstimate | backend/agent_framework/base_agent.py:4935-4956 | The estimate never grows and ends within the threshold or at what first message and tail cost |
| ContextCompression.CompressIdempotent | backend/agent_framework/base_agent.py:4899-4973 | Compressing twice is compressing once |
| ContextCompression.PruneSplit | backend/agent_framework/base_agent.py:4945-4953 | What is kept of older messages depends on newer ones only through the tokens these use |
| ContextCompression.PruneIsGreedy | backend/agent_framework/base_agent.py:4945-4951 | A message is kept if and only if it fits beside everything newer that was kept |
| ContextCompression.TruncateOld | backend/agent_framework/base_agent.py:4921-4930 | The loop truncates exactly the long texts before the tail and counts them |
| ContextCompression.PruneHead | backend/agent_framework/base_agent.py:4941-4954 | The loop keeps what the greedy selection keeps; kept and removed account for all |
| ContextCompression.CompressMessagesIfNeeded | backend/agent_framework/base_agent.py:4899-4973 | The whole compressor with its reported counts; without a report the history is unchanged |
| Departments.GetDepartmentAncestorIds | backend/access_control/skill_access.py:52-69 | The loop terminates on any table and returns the ancestor chain |
| Departments.GetDepartmentSubtreeIds | backend/access_control/skill_access.py:72-99 | The loop terminates on any table and returns the subtree |
| Departments.AncestorsExact | backend/access_control/agent_access.py:43-60 | Exactly the departments at or above the start, each once, cycles and missing rows included |
| Departments.SubtreeExact | backend/access_control/skill_access.py:72-99 | Exactly the departments at or below the start, each once |
| Departments.Duality | backend/access_control/skill_access.py:52-99 | d is among the ancestors of x if and only if x is in the subtree of d |
| ResourceAccess.QueryRefinesPredicate | backend/access_control/agent_access.py:155-185 | For canonical user ids and levels the query returns exactly the agents the predicate accepts, in their order |
| ResourceAccess.AgreementNeedsCanonicalLevel | backend/access_control/agent_access.py:34-40 | The stored levels on which query and predicate agree for every user are exactly the canonical ones |
| ResourceAccess.AgreementNeedsCanonicalId | backend/access_control/agent_access.py:128-152 | The same for the spelling of the user id |
| ResourceAccess.BuildContext | backend/access_control/agent_access.py:77-95 | The context carries the ancestor chain of the user's department |
| ResourceAccess.AgentVisibility | backend/access_control/agent_access.py:128-142 | An agent shows exactly to admins, its owner, everyone when its level says public, and for department or team the users whose department lies in the agent's subtree, whatever the case and white space of role and level |
| ResourceAccess.ManagementIsOwnership | backend/access_control/agent_access.py:145-152 | Only admins and the owner may manage; who may read may execute |
| ResourceAccess.SkillVisibility | backend/access_control/skill_access.py:148-170 | The same for skills with public and team |
| ResourceAccess.ManageableDepartments | backend/access_control/skill_access.py:102-131 | What a user may share to is what lies at or below a managed department, or their own department when they manage none |
| Abac.DecisionIsPermits | backend/access_control/abac.py:407-513 | The engine's answer is: some enabled allow policy for the request's type and action whose conditions hold, and no such deny policy, whatever the order of insertion and the priorities |
| Abac.DecideListMeans | backend/access_control/abac.py:449-513 | The loop's flag and early exit compute the same |
| Abac.SortSorts | backend/access_control/abac.py:382-405 | Listing sorts by descending priority and loses nothing |
| Abac.DecideInOrder | backend/access_control/abac.py:449-513 | The loop over the applicable policies |
| ConditionLaws.SmallGroups | backend/access_control/abac.py:198-209 | An empty group holds; a group of one holds as its condition does, and its negation as it does not |
| ConditionLaws.AndConcat | backend/access_control/abac.py:203-204 | An And group over two lists holds if and only if it holds over both |
| ConditionLaws.OrConcat | backend/access_control/abac.py:205-206 | An Or group over two nonempty lists holds if and only if it holds over one of them |
| ConditionLaws.NotReadsFirst | backend/access_control/abac.py:207-209 | A negation looks at its first condition and at no other |
| ConditionLaws.SplitJoin | backend/access_control/abac.py:111 | Splitting a dotted path gives the names it was joined from |
| ConditionLaws.JoinSplit | backend/access_control/abac.py:111 | Joining what splitting gives is the path again |
| ConditionLaws.ReadsStored | backend/access_control/abac.py:111-123 | A path of names reads the value stored at it in any context |
| ConditionLaws.StoredElsewhere | backend/access_control/abac.py:111-123 | Storing under one name leaves what is read under another |
| ConditionLaws.NothingBelowScalar | backend/access_control/abac.py:114-121 | Nothing is read through a value that is no object |
| ConditionLaws.LeafReadsStored | backend/access_control/abac.py:74-99 | A condition on a dotted path compares the value stored there, and fails when there is none |
| ConditionLaws.LeafNeedsPath | backend/access_control/abac.py:83-99 | A condition whose attribute is no text fails in every context |
| ConditionLaws.DecisionMeans | backend/access_control/abac.py:407-513 | A request is permitted if and only if some policy matches to allow and none to deny |
| ConditionLaws.NarrowingIsSafe | backend/access_control/abac.py:471-513 | Making an allowing policy hold less often, or a denying one more often, never turns a refusal into permission, among any other policies |
| ConditionLaws.FurtherConditionIsSafe | backend/access_control/abac.py:203-206 | So a further condition in the And group of an allowing policy, or a further alternative in the Or group of a denying one, never does |
| Abac.Engine.AddPolicy | backend/access_control/abac.py:344-354 | The dictionary gains or replaces exactly this policy |
| Abac.Engine.RemovePolicy | backend/access_control/abac.py:356-369 | The dictionary loses exactly this id; the result says whether it was there |
| Abac.Engine.ListPolicies | backend/access_control/abac.py:382-405 | The selected policies, all of them, by descending priority |
| Abac.Engine.Decide | backend/access_control/abac.py:407-513 | Decides as the loop over its sorted list does, which is as its policies define it |
| PolicyLoader.ConditionRoundTrip | backend/access_control/policy_loader.py:447-510 | A condition tree of any depth reads back as itself |
| PolicyLoader.TopRoundTrip | backend/access_control/policy_loader.py:432-485 | So does the top group, stored without a type |
| PolicyLoader.StoredConditionsMeanTheSame | backend/access_control/policy_loader.py:432-510 | Stored conditions evaluate as before in every context, and different trees are stored differently |
| PolicyLoader.DecodesIff | backend/access_control/policy_loader.py:466-510 | A JSON value is read as a condition tree if and only if it is a stored form of it: the written fields, whatever others are there, a missing type standing for a condition and an empty object or text for an empty list; nothing else can be read |
| PolicyLoader.RowRoundTrip | backend/access_control/policy_loader.py:384-430 | A policy reads back from its row as itself |
| PolicyLoader.RowDecodesIff | backend/access_control/policy_loader.py:405-430 | A row is read as a policy if and only if it has the policy's fields, its effect by name, and stores its conditions |
| PolicyLoader.CacheAgreement | backend/access_control/policy_loader.py:88-382 | After a startup load and any operations the engine holds exactly the enabled rows' policies, and what its loop decides, in whatever order they were added, is what these rows define |
| PolicyLoader.ApplyAgrees | backend/access_control/policy_loader.py:88-382 | Each single operation keeps the agreement |
| PolicyLoader.RowsAfter | backend/access_control/policy_loader.py:88-382 | What each operation makes of the rows, and that one which cannot be done changes nothing |
| PolicyLoader.LoadAgreesIff | backend/access_control/policy_loader.py:295-329 | A startup load agrees with the readable enabled rows if and only if all or none can be read; when one cannot, the engine denies every request |
| PolicyLoader.EngineHoldsIff | backend/access_control/policy_loader.py:88-382 | For any rows and any operations after a startup load: the engine holds the policy of an enabled row if and only if some step since it was last emptied wrote that row or loaded all rows, and nothing else; it agrees with the readable enabled rows if and only if that is so for each |
| PolicyLoader.Loader.CreatePolicy | backend/access_control/policy_loader.py:88-131 | Stores a new policy and caches it when enabled; refuses an existing id |
| PolicyLoader.Loader.Update | backend/access_control/policy_loader.py:203-259 | Replaces the row and brings the cache in line |
| PolicyLoader.Loader.DeletePolicy | backend/access_control/policy_loader.py:261-293 | Removes row and cache entry |
| PolicyLoader.Loader.SetPolicyEnabled | backend/access_control/policy_loader.py:342-382 | Enables or disables row and cache together |
| PolicyLoader.Loader.ListEnabledPolicies | backend/access_control/policy_loader.py:158-201 | The enabled policies, or none at all when one of their rows cannot be read |
| PolicyLoader.Loader.LoadPoliciesIntoEngine | backend/access_control/policy_loader.py:295-340 | Loads them on top of what is kept and returns how many: the number of enabled rows, or 0 when one of them cannot be read |
| TokenSessions.RevokedSessionStaysDead | backend/access_control/jwt_auth.py:442-448 | Once a session is revoked, through every further run without clearing no new token of it is issued and every token of it is rejected |
| TokenSessions.RevokedTokenStaysDead | backend/access_control/jwt_auth.py:396-440 | The same for one token identifier |
| TokenSessions.AcceptedIff | backend/access_control/jwt_auth.py:268-333 | At the end of every run a token is accepted if and only if its time has not passed and no step revoked it by token, identifier or session without a clearing after it; the blacklist query reports it if and only if its time has not passed and some step did |
| TokenSessions.SessionHasOneOwner | backend/access_control/jwt_auth.py:237-393 | Over every run of logins and refreshes all tokens of one session carry one user, name and role |
| TokenSessions.RevokeTokenIsLocal | backend/access_control/jwt_auth.py:396-425 | Revoking one token, anywhere in any run, changes at its end the acceptance of no token with another identifier |
| TokenSessions.LogoutByTokenOrSession | backend/access_control/jwt_auth.py:396-448 | After a login and through any later run without clearing: with the refresh token revoked the access token is accepted if and only if it is in time and nothing else revoked it, and refreshing fails; with the session revoked neither is accepted |
| TokenSessions.RefreshKeepsSessionAlive | backend/access_control/jwt_auth.py:237-393 | At the end of any run after a login its refresh token gives a new access token of the session, with the login's identity and a full lifetime, if and only if its own lifetime lasts and nothing revoked it |
| TokenSessions.SessionStore.DecodeToken | backend/access_control/jwt_auth.py:268-333 | Succeeds exactly for a token in time that neither list blocks, and says expired exactly when its time has passed |
| TokenSessions.SessionStore.RefreshAccessToken | backend/access_control/jwt_auth.py:360-393 | Succeeds exactly for a valid refresh token, and then issues an access token of the same user, name, role and session |
| TokenSessions.SessionStore.BlacklistToken | backend/access_control/jwt_auth.py:396-425 | Adds the identifier of a valid token; an expired token changes nothing and a revoked one raises |
| RequestResponse.RequestsAreIndependent | backend/agent_framework/inter_agent_communication.py:338-421 | Under any interleaving of sends, replies, timeouts, cancellations, resumptions and closes each request fares as if it were alone |
| RequestResponse.SuccessIff | backend/agent_framework/inter_agent_communication.py:371-421 | A request reports success with a reply if and only if that reply was the first thing to settle it and it has resumed |
| RequestResponse.OutcomeIff | backend/agent_framework/inter_agent_communication.py:383-421 | A request is told a reply, a timeout or a cancellation if and only if that was the first thing to settle it after it was sent, and it has resumed since |
| RequestResponse.RefusedIff | backend/agent_framework/inter_agent_communication.py:349-366 | A request is told it is refused if and only if the check said so, that the check raised if and only if it lacks the call, and that sending failed if and only if it got to the stream or the auditor and that failed |
| RequestResponse.SuccessCarriesOwnId | backend/agent_framework/inter_agent_communication.py:687-711 | The reply is a delivered response from another agent with the request's own id, and the receive check, if any, passed it |
| RequestResponse.AnySenderAnswers | backend/agent_framework/inter_agent_communication.py:631-660 | Whoever the request was sent to, any other agent's response with the id that gets past receive check and auditor completes it |
| RequestResponse.OnlyRecipientAnswersIff | backend/agent_framework/inter_agent_communication.py:322-421 | In every run the request's success comes from the agent it was sent to, if and only if no response with its id from another agent gets past receive check and auditor |
| RequestResponse.UncheckedNotTied | backend/agent_framework/inter_agent_communication.py:631-660 | With both switched off no request is tied to its recipient |
| RequestResponse.CanSucceedIff | backend/message_bus/authorization.py:41-250 | Some run completes a request if and only if some response gets past receive check and auditor; when either lacks the calls made on it none does |
| RequestResponse.ConfiguredSucceedsIff | backend/agent_framework/inter_agent_communication.py:61-97 | With the message bus's own authorizer and auditor a request can succeed if and only if both are switched off |
| RequestResponse.MisreportedIff | backend/message_bus/audit.py:62-270 | At the end of any run a request is on the stream and reported as failed to send if and only if it reached the stream and the auditor raises |
| RequestResponse.FuturesSettleOnce | backend/agent_framework/inter_agent_communication.py:687-711 | Once settled in a run, a future keeps its value through every further run |
| RequestResponse.ReplyTakenIff | backend/agent_framework/inter_agent_communication.py:687-711 | At the end of any run a message has an effect if and only if it is an acceptable response to a request that was sent and that nothing has settled |
| RequestResponse.PendingIsInFlight | backend/agent_framework/inter_agent_communication.py:364-421 | Without close the pending map holds exactly the requests that have not returned |
| RequestResponse.PendingSinceClose | backend/agent_framework/inter_agent_communication.py:609-629 | After a close, and any further run, the pending map holds exactly the requests sent since that have not returned |
| RequestResponse.CloseSettlesAll | backend/agent_framework/inter_agent_communication.py:609-629 | After close the map is empty, every waiting request is settled, and those still pending are cancelled |
| RequestResponse.Communicator.SendRequest | backend/agent_framework/inter_agent_communication.py:338-380 | Files the request, or reports a refusal, a raise or a failed send, the last also for a message the stream took when the auditor raises, and then leaves nothing filed |
| RequestResponse.Communicator.HandleIncomingMessage | backend/agent_framework/inter_agent_communication.py:631-711 | Settles the future of a filed pending request and otherwise changes nothing; raises exactly for a message from another agent when the authorizer lacks its call, or when its check passes and the auditor lacks its call |
| RequestResponse.Communicator.FinishRequest | backend/agent_framework/inter_agent_communication.py:383-421 | The result follows the future, and the request is always taken out of the map |
| RequestResponse.Communicator.CloseAll | backend/agent_framework/inter_agent_communication.py:609-629 | The loop cancels exactly the pending futures and empties the map |

## Left out

- Calls of language models, prompts, streaming to clients, logging, metrics, the contents of audit records.
- Heuristics on text (delivery intent, unfinished answers, inlined files, error categories, tag formats of tool calls): their verdicts are inputs.
- Docker, sandboxes, threads and the event loop; asynchronous code is a sequence of the steps between its waits.
- SQL, the object store's and the archive's byte formats; tables are maps or sequences, the store is a map, an archive is a list of members.
- Signatures, password hashes and the parsing of identifiers; tokens are their payloads, and identifiers the code draws are new.
- Two snapshots or two compactions of one conversation at a time, snapshots with a status other than ready, and users deleting messages or conversations.
- Timestamps, checksums, size estimates, storage tiers and expiry dates, which no modelled decision reads.
- The text of summaries and the older summaries they are merged with.
- The unavailable-tool branch of tool execution: calls are checked against the same registry when they are parsed.
- Unusual file names: white space at the ends, backslashes, symbolic links; files that change while a workspace is being cleaned.
- The archive's member for the workspace directory itself.
- The order in which a recursive listing yields files is kept between two listings; no modelled result depends on it.
- Case folding and white space outside ASCII; the five ideographs in the truncation marker are written as number signs.
- The eleven comparison operators of conditions: a comparison is a parameter of evaluation, with an exception counting as false; so is the JSON decoder that reads tool calls.
- Database errors in the policy loader, and policy objects changed by a caller after they were added.
- Single access tokens created outside a login or a refresh.
- What hands messages to the communicator: `start_listening` subscribes to broadcasts only and leaves consuming the stream to a later implementation; deliveries are inputs of the run.
- Request handlers, events, broadcasts and the offline queue of the communicator; authorisation verdicts are inputs.
- The list order of deleted and excluded paths, which the cleaning sorts; they are sets here.
- Registration, the agent registry, role tables, templates, capability matching and the user interface: they keep no state over many steps.
- RecoveryLoop.ExecuteTaskWithRecovery: the clock, compactions, model responses and tool outcomes of each turn are one input function of the round number, and exceptions inside a round other than those of tools are absent.
- ToolPayload.WrittenCallsRecovered: the JSON decoder is taken to invert the printer, and the parser's own filtering of candidate objects is not modelled.
