# LibreChat: conversation content, migrations and process protocols

A Dafny 4.11 model of the parts of LibreChat whose correctness rests on more than one function: the
algebra of edited content and context building in `BaseClient`, three database maintenance programs
that must survive partial failure, two protocols between processes, and three small exact machines.
`dafny verify dfyconfig.toml` checks everything.

| module | what it models |
|---|---|
| `EditedContent` | splicing completions onto retained content: a monoid, and what phase headers keep naming |
| `TokenCount`, `TokenWindow`, `ThreadWalk` | counting tokens, the window that fits, the thread of a message |
| `HistoricalFiles` | which message each earlier file is shown with |
| `SharedLinkMigration` | access entries for shared links, under failed and crashed runs |
| `FileNames`, `CodeFileDuplicates` | free names, and the renaming pass that makes names unique |
| `ClusterSweep` | master and workers: fleet size, shutdown, the one process-wide sweep |
| `DeleteUser`, `DeletionFence`, `DeletionOverlap`, `ScheduleSuspension`, `FencedSuspension` | one deletion attempt; many attempts on one fence; when two are at work at once; suspending and restoring schedules; the two together |
| `HealPing`, `Violations`, `MeiliReset` | ping and pong with timeouts; ban thresholds; batched flag reset |
| `Options`, `Text`, `Sequences` | JavaScript's missing and null values and white space; facts about sequences and sets |

Code that updates state is a class or a method with its loop, proved against a function; the
properties are then lemmas about that function. Outside answers (what a call replies, whether it took
effect, which documents a query returns, where a process dies) are inputs, so every lemma is about all
of them. Places where a promise turned out not to hold of the code are stated as what does hold:

- The token window is the longest run that fits, except when the budget is used up exactly and the next
  older message counts no tokens (`TokenWindow.WindowIsLongest`).
- Where parent links lead into a cycle of two or more messages, the oldest message's own thread is longer
  than the prefix of its descendant's thread; everywhere else the prefix law holds
  (`ThreadWalk.AncestorThreadsArePrefixes`, `ThreadWalk.MutualParentsBreakPrefixes`).
- A deletion attempt whose own start call threw takes any fence stamped in the same millisecond for its
  own. It releases only its own fences exactly when no attempt starts in the millisecond of another's
  start or recovery (`DeletionFence.FenceIsReleasedOnlyByItsHolder`).
- A recovery of a stale fence that landed though its call threw is forgotten by its attempt: the fence
  stays set after the attempt has ended. A finished attempt leaves a fence of its own on a living user
  exactly when that happened, or its release did not land, and nobody has touched the fence since
  (`DeletionFence.FinishedAttemptLeavesFence`).
- Deletion attempts exclude each other, and none suspends again what another has yet to give back, only as
  long as no fence is recovered (`DeletionOverlap.WorkIsExclusiveUnlessRecovered`,
  `FencedSuspension.RestoreMeetsItsOwn`). Two can be at work at once exactly when some attempt would recover
  at least fifteen minutes after another started (`DeletionOverlap.OverlapIffSomeoneOutlasted`).
- The comment on suspending schedules says a row edited after it was read is left alone, and the deletion
  code says that owners' edits are refused while the fence stands. The filters do not look at edits; the
  edit handler checks the fence once, before its own work, and writes without looking at the suspension;
  and the fence is released even when restoring failed. So an edit can be lost: an edit of a row left
  suspended is undone by the next attempt that is abandoned
  (`ScheduleSuspension.EditOfSuspendedRowIsLost`). An edit of any row survives exactly when the row is not
  suspended with another setting and no write that can still reach it carries one
  (`ScheduleSuspension.EditSurvivesIffUndisputed`).
- A file name keeps its shape around the counter unless it has an extension and ends in a slash
  (`FileNames.SuffixKeepsShape`, `FileNames.SlashBreaksShape`).
- The worker's wait for pongs ends only if no two clients share an id (`HealPing.WaitEndsIffIdsAreDistinct`,
  `HealPing.SharedIdNeverSettles`).
- The comment on bans says a count that is a multiple of the interval bans. The code acts when the count
  passes or reaches a multiple it was short of (`Violations.CrossesIffPassesMultiple`): a count that is a
  multiple is acted on exactly when the violation counted for something (`Violations.MultipleCrossesIffScored`,
  `Violations.MultipleWithoutCrossing`), and passing several multiples at once counts once
  (`Violations.TwoMultiplesOneCrossing`, `Violations.EveryThresholdCrossedIff`).
- A worker that dies before it is online leaves the count of active workers one short
  (`ClusterSweep.FleetAccounting`, `ClusterSweep.EarlyDeathSkewsCount`).
- A document that expires between two batches of the flag reset keeps its flag
  (`MeiliReset.Collection.BatchResetMeiliFlags`, `MeiliReset.ExpiredKeepsFlag`).

Assumptions: a worker's exit and its disconnect are one event; the number of workers is positive; shared
links are neither created nor edited during their migration and have distinct ids; a missing and a null
conversation or tenant key are the same key; each fence operation is one atomic compare-and-set, a start
takes effect less than fifteen minutes after it was stamped, and no stamp is from the future; suspension
tokens are fresh and each is read to suspend once, before it is read to restore; the ban interval is
positive; the messages of a conversation are distinct objects; the expiry clock does not run backwards.

## Model

| member | source | states |
|---|---|---|
| `EditedContent.MergePlacesEveryPart` | api/app/clients/BaseClient.js:1303-1356 | Length is retained plus completion less one if fused; retained parts below the seam are untouched; completion part i is at i + offset with the offset added to the bounds of a phase header and nothing else changed |
| `EditedContent.MergeIdentity` | api/app/clients/BaseClient.js:1281-1283 | The empty list is a two-sided identity |
| `EditedContent.FusesIsLocal` | api/app/clients/BaseClient.js:1285-1297 | Whether a boundary fuses is decided by the two parts beside it, however their lists were assembled |
| `EditedContent.FuseAssociative` | api/app/clients/BaseClient.js:1329-1353 | Fusing three parts gives the same text, phase and reasoning-label fields either way round |
| `EditedContent.MergeAssociative` | api/app/clients/BaseClient.js:1280-1357 | For a fixed edited type, merging is associative: fused text, phases, reasoning labels and every shifted bound agree |
| `EditedContent.ContinuingIsOneMerge` | api/app/clients/BaseClient.js:1280-1357 | Any number of continuations equals one merge of the retained content with all completions merged together |
| `EditedContent.MergeConservesText` | api/app/clients/BaseClient.js:1334-1356 | The answer text and the reasoning of the result are the concatenations of the inputs' |
| `EditedContent.CompletionPhaseKeepsItsParts` | api/app/clients/BaseClient.js:1298-1319 | A completion's phase header, with or without an end bound, stays in range and groups exactly the images of the parts it named; only a fused first part also begins with retained text |
| `EditedContent.CompletionPhaseKeepsItsMeaning` | api/app/clients/BaseClient.js:1298-1319 | So the stretch it groups reads as before, after the retained text its first part was joined to, if any |
| `EditedContent.RetainedPhaseKeepsItsMeaning` | api/app/clients/BaseClient.js:1329-1356 | A retained header, with or without an end bound, is untouched and groups the same parts; only one whose stretch ends with the fused part gains the completion's first text |
| `ThreadWalk.FindSummaryContentBlock` | api/app/clients/BaseClient.js:1077-1091 | The loop finds the block the summary specification names |
| `ThreadWalk.LastNonBlankSummaryWins` | api/app/clients/BaseClient.js:1066-1091 | That is the last block whose text is not blank, and none only if all are blank |
| `ThreadWalk.GetMessagesForConversation` | api/app/clients/BaseClient.js:1117-1185 | The loop terminates on any parent graph and returns the walk, each message resolved and mapped as asked |
| `ThreadWalk.WalkIsThread` | api/app/clients/BaseClient.js:1128-1184 | The walk is a repetition-free path of stored messages along parent links, ending at the requested message, that cannot be extended at the front |
| `ThreadWalk.WalkIsTheThread` | api/app/clients/BaseClient.js:1128-1184 | And it is the only such path: a path is the answer if and only if it is the thread |
| `ThreadWalk.AncestorThreadsArePrefixes` | api/app/clients/BaseClient.js:1132-1181 | Every ancestor's thread is the prefix up to it if and only if parent links do not lead from the message into a cycle of two or more messages |
| `ThreadWalk.MutualParentsBreakPrefixes` | api/app/clients/BaseClient.js:1132-1181 | Two messages that name each other as parent: each one's thread is both, ending with itself |
| `ThreadWalk.ThreadClosesIffCycle` | api/app/clients/BaseClient.js:1132-1181 | The oldest message of a thread names a later one as its parent if and only if they do |
| `ThreadWalk.AcyclicThreadsNeverClose` | api/app/clients/BaseClient.js:1132-1181 | On an acyclic graph they never do |
| `ThreadWalk.WalkIsAncestry` | api/app/clients/BaseClient.js:1130-1141 | On an acyclic graph the walk equals the plain recursive ancestor chain, with no visited set |
| `ThreadWalk.SummaryWalkIsSuffix` | api/app/clients/BaseClient.js:1147-1177 | In summary mode the walk is the suffix of the plain walk from the nearest message carrying a summary; no later element carries one |
| `ThreadWalk.SummarisedThread` | api/app/clients/BaseClient.js:1147-1177 | What is shown is one system message with that summary's text and token count, otherwise as stored, and then the rest untouched; without a summary, the plain thread |
| `TokenWindow.GetMessagesWithinTokenLimit` | api/app/clients/BaseClient.js:520-562 | Instructions, messages to refine and window rebuild the input in order; tokens are conserved; the window is taken newest first until full |
| `TokenWindow.WindowIsUnique` | api/app/clients/BaseClient.js:533-549 | Only one length satisfies the window's description |
| `TokenWindow.RemainingIsNonNegative` | api/app/clients/BaseClient.js:527-557 | Nothing is overdrawn once the three priming tokens fit; otherwise nothing is taken |
| `TokenWindow.LargerLimitExtends` | api/app/clients/BaseClient.js:533-549 | A larger limit only extends the suffix |
| `TokenWindow.WindowIsLongest` | api/app/clients/BaseClient.js:533-549 | It is the longest newest run that fits if and only if it is not an exactly full window followed by a message that counts nothing |
| `TokenWindow.FreeMessageLeftBehind` | api/app/clients/BaseClient.js:533-549 | The exception happens, with counts 0 and 4 under a budget of 7 |
| `TokenCount.Counter.ProcessValue` | api/app/clients/BaseClient.js:1212-1260 | The recursive counter adds exactly the specified tokens of a value, on arbitrarily nested parts |
| `TokenCount.GetTokenCountForMessage` | api/app/clients/BaseClient.js:1201-1271 | And so for a message, with the per-message and per-name constants of its model |
| `TokenCount.ItemsAdd` | api/app/clients/BaseClient.js:1213-1252 | Counting is additive over concatenation of content |
| `TokenCount.SameCountedSameTokens` | api/app/clients/BaseClient.js:1215-1225 | Values that agree once thoughts, errors, activity labels and images are dropped at every depth of nesting count the same |
| `TokenCount.InsertingUncounted` | api/app/clients/BaseClient.js:1215-1225 | Inserting or deleting such a part anywhere in a list changes neither the count nor what counts |
| `TokenCount.InsertingDeeper` | api/app/clients/BaseClient.js:1245-1251 | Nor does it inside a part, at any depth: what leaves the value of a part alone leaves the content around it alone |
| `TokenCount.FlatteningKeepsTokens` | api/app/clients/BaseClient.js:1245-1251 | Replacing a part by the list nested in it changes nothing |
| `TokenCount.MergeTokens` | api/app/clients/BaseClient.js:1201-1357 | Merging edited content counts as both inputs; the only difference is the tokenizer's own at the one text seam, so shifted phase bounds never count |
| `HistoricalFiles.RehydrateMessageFileRefs` | api/app/clients/BaseClient.js:132-156 | The loop produces the specified list, absent when empty or not a list |
| `HistoricalFiles.RehydrationKeepsOrder` | api/app/clients/BaseClient.js:137-155 | The ids of the rehydrated list are those of the authorized references, in order |
| `HistoricalFiles.RehydrationTrustsOnlyTheStore` | api/app/clients/BaseClient.js:139-153 | What a rehydrated entry says comes from the stored file and two named fields of the reference |
| `HistoricalFiles.CollectHistoricalFileIds` | api/app/clients/BaseClient.js:39-70 | Exactly the non-empty ids in files, attachments and steer parts |
| `HistoricalFiles.Client.Authorize` | api/app/clients/BaseClient.js:72-85 | Exactly the stored files of the user and tenant among the ids, under their own ids |
| `HistoricalFiles.ClaimExactly` | api/app/clients/BaseClient.js:1579-1591 | A message claims exactly its authorized ids not seen before, each once |
| `HistoricalFiles.EachFileGoesToItsFirstMessage` | api/app/clients/BaseClient.js:1541-1591 | Over the whole loop a message's context holds exactly the authorized, not attached ids whose first naming message it is, without repetition |
| `HistoricalFiles.RecordHoldsEachContext` | api/app/clients/BaseClient.js:1613-1622 | With distinct message ids the record holds each message's own context and nothing for messages without one |
| `HistoricalFiles.Client.ProcessMessages` | api/app/clients/BaseClient.js:1571-1637 | The loop over mutable messages leaves each as specified by the contexts, and records them |
| `HistoricalFiles.Client.AddPreviousAttachments` | api/app/clients/BaseClient.js:1536-1641 | The whole call: nothing without resendFiles, otherwise authorization followed by that loop |
| `HistoricalFiles.OwnedFileReachesOneMessage` | api/app/clients/BaseClient.js:1541-1637 | The id of every owned, referenced, not attached file stands for a file of the owner's, the same one unless they have two under the id, and that file ends in the context of exactly one message, the first that names the id |
| `HistoricalFiles.ContextsHoldOnlyOwnedFiles` | api/app/clients/BaseClient.js:1553-1590 | No file of another owner or tenant enters a context |
| `SharedLinkMigration.FailedByIndex` | config/migrate-shared-link-permissions.js:238-256 | Mapping reported operation indices back through `opIndexToLinkId` gives exactly the links one of whose writes was reported failed |
| `SharedLinkMigration.BulkWriteMoves` | config/migrate-shared-link-permissions.js:153-259 | An unordered bulk write moves entries only to what their link's write makes of them, and settles every link not reported failed |
| `SharedLinkMigration.Migration.ProcessBatch` | config/migrate-shared-link-permissions.js:153-259 | One batch under any answer of the database, a crash included |
| `SharedLinkMigration.Migration.Migrate` | config/migrate-shared-link-permissions.js:52-309 | A run, whatever befalls it, is a step; without failures it is a clean run; it aborts untouched on a false flag without force |
| `SharedLinkMigration.UnsetSettles` | config/migrate-shared-link-permissions.js:291-302 | The selective field removal, even cut short, takes the field only from links whose entries are in place |
| `SharedLinkMigration.UpsertIdempotent` | config/migrate-shared-link-permissions.js:166-189 | Writing an entry twice leaves what writing it once does, apart from when it was granted |
| `SharedLinkMigration.StepTransitive` | config/migrate-shared-link-permissions.js:126-306 | A run after a run does no more than one run may |
| `SharedLinkMigration.VisibilityIsNeverLost` | config/migrate-shared-link-permissions.js:197-306 | After any sequence of runs a link with a non-false flag still has it or has its public viewer entry; a link with a false or missing flag never gains one |
| `SharedLinkMigration.MigrationConverges` | config/migrate-shared-link-permissions.js:126-306 | One clean run after any sequence of failed, partial and crashed runs ends in the same links and entries as one clean run from the start, grant times aside |
| `FileNames.DecimalRoundTrip` | config/migrate-code-file-duplicates.js:29 | Decimal numerals read back as what was printed |
| `FileNames.SuffixKeepsShape` | config/migrate-code-file-duplicates.js:25-30 | The counter goes in before the extension; stem and extension are what the name was made of if and only if it has no extension or does not end in a slash |
| `FileNames.SlashBreaksShape` | config/migrate-code-file-duplicates.js:25-30 | The name `a.b/` becomes `a. (1).b` |
| `FileNames.SuffixInjective` | config/migrate-code-file-duplicates.js:26-30 | Different counters give different names, whatever the name |
| `FileNames.Pigeonhole` | config/migrate-code-file-duplicates.js:38-46 | If the first n candidates are all taken then n is at most the number of taken names |
| `FileNames.NextAvailableName` | config/migrate-code-file-duplicates.js:38-46 | The unbounded search ends within one try more than there are taken names, on the first free counter, and reserves the name |
| `CodeFileDuplicates.NewestFirstSorts` | config/migrate-code-file-duplicates.js:117-121 | The order is a permutation of the group, newest first |
| `CodeFileDuplicates.FileStore.ChooseNames` | config/migrate-code-file-duplicates.js:126-141 | One fresh, pairwise distinct replacement for each file but the newest |
| `CodeFileDuplicates.GroupKeepsSound` | config/migrate-code-file-duplicates.js:115-164 | Although groups are computed up front, handling one leaves every collision that remains inside the groups not yet handled or failed |
| `CodeFileDuplicates.FileStore.Migrate` | config/migrate-code-file-duplicates.js:97-164 | Without errors names are pairwise distinct in every scope and exactly the sum of count - 1 files are renamed; under any failing updates, whether or not the update that throws takes effect, no record is lost and only names of older group members change |
| `CodeFileDuplicates.NewestKeepsName` | config/migrate-code-file-duplicates.js:117-121 | The newest of each group keeps its record untouched |
| `CodeFileDuplicates.SecondRunFindsNothing` | config/migrate-code-file-duplicates.js:97-113 | There is nothing to group if and only if names are already unique |
| `ClusterSweep.MasterProcess.AssignRetentionSweepWorker` | api/server/experimental.js:174-194 | Equals the assignment function: a living assignee stays, else the last listening worker is told, else the last connected one |
| `ClusterSweep.MasterProcess.OnExit` | api/server/experimental.js:233-252 | The exit handler's whole new state, in and out of shutdown, equals the exit function that the run lemmas are about |
| `ClusterSweep.WorkerProcess.StartExpiredFileSweepOnce` | api/server/experimental.js:309-316 | Starts only with both flags and only if not started |
| `ClusterSweep.RunKeepsInvariant` | api/server/experimental.js:167-274 | Every run of fork, online, listening, exit, message, configuration and shutdown events keeps the system invariant |
| `ClusterSweep.AtMostOneSweeper` | api/server/experimental.js:174-252 | At most one living worker was ever told to sweep or started to |
| `ClusterSweep.SweepStartsWhenBothArrive` | api/server/experimental.js:294-325 | A worker has started the sweep once if both message and configuration have arrived, in either order and however often, and not otherwise |
| `ClusterSweep.ListeningFleetHasSweeper` | api/server/experimental.js:223-231 | Whenever the whole fleet listens, the recorded worker is living and is the only living one told |
| `ClusterSweep.SuccessorTakesOver` | api/server/experimental.js:236-239 | When the assignee dies another living worker is told at once, a listening one if there is one |
| `ClusterSweep.FleetAccounting` | api/server/experimental.js:233-274 | Outside shutdown the fleet is whole after every exit; in shutdown the countdown is the number of living workers; the active count is the number of living workers that went online if and only if every worker that exited had gone online before |
| `ClusterSweep.ShutdownOnlyShrinks` | api/server/experimental.js:243-274 | After the signal nothing is forked and the process ends at the last exit or at the timeout, not before |
| `ClusterSweep.EarlyDeathSkewsCount` | api/server/experimental.js:210-234 | A concrete run in which the active count is off |
| `DeleteUser.Cli.Run` | config/delete-user.js:121-268 | For every script of replies and throws, cut short anywhere, the program makes exactly the calls of the control machine, obeys the rules, and ends settled |
| `DeleteUser.Cli.AwaitDrain` | config/delete-user.js:171-183 | However often it polls, the loop goes on to erasing only when drained, and to the cleanup on a throw or at the deadline |
| `DeleteUser.EveryAttemptObeysTheRules` | config/delete-user.js:125-268 | Every attempt makes each call only when its rule allows, and one that ran to its end deleted the user, or tried restore if it tried to suspend, and purge cancellation and release if it was told it acquired the fence or its start threw |
| `DeleteUser.NoDataGoesUnquiesced` | config/delete-user.js:126-230 | In every attempt, data, schedules, groups and the user are deleted only once it acquired the fence, suspended schedules and (with processes running) saw deliveries drain to zero, or found no user |
| `DeleteUser.RestoreComesBeforeRelease` | config/delete-user.js:238-263 | In every attempt, the fence is released only after restore was tried, only if this attempt set it or may have, and never after the user is gone |
| `DeletionFence.StepKeepsInvariant` | packages/data-schemas/src/methods/user.ts:398-451 | With starts apart, whoever's stamp the fence carries set it, and a recovery outdates every older fence |
| `DeletionFence.ThrownStartReleases` | config/delete-user.js:126-131 | An attempt whose start threw releases a fence another set in the same millisecond |
| `DeletionFence.FenceIsReleasedOnlyByItsHolder` | packages/data-schemas/src/methods/user.ts:398-451 | Over all interleavings of any set of attempts with any throws, no attempt releases another's fence if and only if no start shares a millisecond with another's start or recovery |
| `DeletionOverlap.WorkIsExclusiveUnlessRecovered` | config/delete-user.js:126-253 | Two attempts are at work on a living user at once, from acquiring the fence to giving schedules back, only if some attempt recovered a stale fence, or tried to and was not told whether it did |
| `DeletionOverlap.OverlapIffSomeoneOutlasted` | packages/data-schemas/src/methods/user.ts:398-437 | With starts apart, some interleaving puts two attempts to work at once if and only if some attempt's recovery is stamped at least fifteen minutes after another's start |
| `DeletionOverlap.TakeOver` | packages/data-schemas/src/methods/user.ts:419-437 | Such an interleaving, beside live processes |
| `DeletionFence.FinishedAttemptLeavesFence` | config/delete-user.js:126-268 | Over every interleaving, a finished attempt leaves its own fence on a living user if and only if its release did not land, or its recovery landed though it threw, and nobody touched the fence since |
| `DeletionFence.ThrownRecoveryStands` | config/delete-user.js:126-155 | The second cause happens: from a start that finds a leftover fence, every attempt can run to its end with its own fence set |
| `ScheduleSuspension.NoSettingIsLost` | packages/data-schemas/src/methods/schedule.ts:1765-1888 | Under any interleaving of reads, stale, repeated and abandoned writes of any attempts and of edits by the owner or the engine, disputed ones apart, a row not being deleted is due what the edits made of it |
| `ScheduleSuspension.EditSurvivesIffUndisputed` | packages/data-schemas/src/methods/schedule.ts:396-447 | An edit of any row, by its owner or by the engine moving it on or disabling it, survives every continuation if and only if the row is being deleted, or is not suspended with another setting and no live queued write carries one; a queued restore is live only while its token holds the row or still has a suspension of it queued |
| `ScheduleSuspension.EditOfSuspendedRowIsLost` | packages/data-schemas/src/methods/schedule.ts:1781-1810 | The edit of a row an abandoned attempt left suspended is undone when the next attempt adopts the row and restores it |
| `FencedSuspension.RestoreMeetsItsOwn` | config/delete-user.js:159-253 | Attempts on the fence and their suspensions together: without a recovery, when an attempt comes to restore, every row its suspension took is still held by it, and restoring gives it back as due, which is what it was due at the start if it was not edited |
| `ScheduleSuspension.RestoreUndoesSuspend` | packages/data-schemas/src/methods/schedule.ts:1784-1888 | However much of a suspension landed, restoring gives every row back; rows taken over from an abandoned attempt come back as their owner set them |
| `ScheduleSuspension.Schedules.SuspendUserSchedulesForDeletion` | packages/data-schemas/src/methods/schedule.ts:1765-1813 | After a whole suspension every row not being deleted is held by the token; what rows are due never changes |
| `ScheduleSuspension.Schedules.RestoreUserSchedulesFromDeletion` | packages/data-schemas/src/methods/schedule.ts:1832-1888 | Three tries converge on the stragglers: success if and only if one lands whole, and then no row is left held |
| `HealPing.Worker.ReloadUnresponsiveClients` | client/sw/heal.js:36-56 | The activation follows the event machine over top-level clients, nested frames left out |
| `HealPing.EachPingSettlesOnce` | client/sw/heal.js:11-56 | Over every interleaving a ping is settled once, by its client's pong or its timeout, whichever is first; a client is waited for exactly until then; those navigated are exactly those that timed out first, once each |
| `HealPing.SharedIdNeverSettles` | client/sw/heal.js:24-34 | Two clients under one id: after both timeouts one ping is unsettled and nobody is waited for |
| `HealPing.WaitEndsIffIdsAreDistinct` | client/sw/heal.js:24-56 | After all timeouts every ping is settled if and only if ids are distinct, and then nobody is waited for |
| `Violations.CrossesIffPassesMultiple` | api/cache/banViolation.js:41-46 | A violation crosses if and only if it takes the count to or past a multiple of the interval it was short of |
| `Violations.MultipleCrossesIffScored` | api/cache/banViolation.js:11-46 | At a count that is a multiple, a non-negative score crosses if and only if it is positive |
| `Violations.MultipleWithoutCrossing` | api/cache/banViolation.js:11-46 | A violation of score 0 at a multiple does not |
| `Violations.TwoMultiplesOneCrossing` | api/cache/banViolation.js:41-46 | A violation worth two intervals passes two multiples and crosses once |
| `Violations.CrossingsAreBounded` | api/cache/banViolation.js:41-46 | Crossings never outnumber the whole intervals gone by, from any starting count |
| `Violations.EveryThresholdCrossedIff` | api/cache/banViolation.js:41-46 | They equal them if and only if no score skips a threshold |
| `Violations.SmallScoresSkipNone` | api/cache/banViolation.js:41-46 | Which holds when every score is at most the interval |
| `Violations.IntervalOfViolationsCrosses` | api/cache/banViolation.js:41-46 | Any stretch adding up to an interval contains a crossing |
| `Violations.SessionsEndOncePerInterval` | api/cache/banViolation.js:41-48 | Over any stored history, a user's sessions are ended at most once per interval of their scores, and exactly so if and only if none skips |
| `Violations.Stores.BanViolation` | api/cache/banViolation.js:31-84 | Sessions end at a crossing; bans are written for user and address only when the duration is positive |
| `Violations.Stores.LogViolation` | api/cache/logViolation.js:15-38 | Keeps counts equal to totals and session endings equal to crossings, per user and kind; logs one entry |
| `MeiliReset.SettingIsReadBack` | api/db/utils.js:74-89 | A size written in decimal is read back whatever follows it |
| `MeiliReset.LaterMatching` | api/db/utils.js:28-44 | As time passes and batches are reset, what a later query matches only shrinks, by exactly what was reset or expired |
| `MeiliReset.ExpiredKeepsFlag` | api/db/utils.js:28-44 | A document that expires after the first batch is flagged still, and no later query matches it |
| `MeiliReset.Collection.Find` | api/db/utils.js:28-34 | Any choice of up to the limit of the matching documents |
| `MeiliReset.Collection.BatchResetMeiliFlags` | api/db/utils.js:11-66 | Ends for every setting and every choice of batches; no visible document is left flagged; only documents that needed it at the start were reset, each counted once, missing only those that expired on the way |

## Left out

- HistoricalFiles.Client.ProcessMessages: messages are handled one after another; which of two messages with the same id finishes last, and so whose context the record keeps, is modelled as list order.
- DeletionFence.FenceIsReleasedOnlyByItsHolder: the HTTP deletion path is not modelled; it uses the same fence operations.
- MeiliReset.Collection.BatchResetMeiliFlags: the error wrapped around a failing database call is not modelled.
- CodeFileDuplicates.FileStore.Migrate: building the index afterwards and the detail samples are not part of the result.
- ClusterSweep.RunKeepsInvariant: a failing cache flush, which ends the process before anything is forked, is not an event.
- Violations.Stores.LogViolation: concurrent violations of one user (lost updates between read and write), the rounding of JavaScript numbers, scores that are not numbers, and the cookies cleared at a crossing.
- HealPing.Worker.ReloadUnresponsiveClients: one activation only; a second one pinging the same clients, a `postMessage` that throws and a failing navigation are not modelled.
- TokenWindow.GetMessagesWithinTokenLimit: every message has a numeric token count; a missing one makes JavaScript comparisons false and is not modelled.
- The tokenizer, number printing, the file sanitizer and the map functions of callers are parameters; the model of text is strings without encoding.
- Property values of parts other than the ones the merge and the counter read are opaque; non-numeric phase bounds count as missing.
- The migration's dry run, counters used for progress messages, delays and logging.
- Role lookup, prompts, the offline confirmation before the fence, and coordination set-up in the deletion program.
- Claim tokens and edit generations of schedules: an edit refused because another came first is no step of the model. Where they do not refuse the engine's own advances and disables, those are edits of the model, and are lost under the same condition as an owner's.
- FencedSuspension.RestoreMeetsItsOwn: the writes of a call land within the call; `ScheduleSuspension` has them land late.
- The rest of `BaseClient` (sending, saving, balance), which depends on code outside these files.
- Express wiring, login strategies, user interface and build configuration.
