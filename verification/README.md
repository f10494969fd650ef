# Nelle server: a verified model

Nelle's server is a thin layer of I/O over a handful of small algorithms and state machines. This project
models those in Dafny and proves what they promise, over every input, every chunking, every interleaving and
every run. Each file is one component:

| file | component |
|---|---|
| `Text.dfy`, `Seqs.dfy`, `Records.dfy` | JavaScript string operations, slicing facts, insertion-ordered records |
| `ModelsIni.dfy`, `ModelsIniLaws.dfy`, `ModelsIniGrammar.dfy` | the models.ini document: parse, print, edit in place, and what any line of a file reads as |
| `Catalog.dfy`, `CatalogReadings.dfy`, `CatalogLaws.dfy`, `CatalogMeaning.dfy`, `StoreLaws.dfy`, `PresetLaws.dfy`, `StoreRuns.dfy` | the model catalog whose only truth is that text, and the preset writer that shares the file |
| `Projection.dfy`, `ProjectionLaws.dfy`, `PromptText.dfy`, `VariantHistory.dfy` | the stored rows of a conversation, rebuilt from Pi's active branch without losing variants |
| `Messages.dfy`, `VariantRendering.dfy` | the active path, the rendered and labelled messages, and which prompts a stored conversation shows |
| `RunProtocol.dfy`, `RunStory.dfy`, `AnswerText.dfy`, `AsyncQueue.dfy` | a run between its awaits, aborts, all it tells its client, the answer it streams, and the queue to its one consumer |
| `ThinkingFilter.dfy`, `Streams.dfy` | the end-tag filter and the three stream splitters |
| `Pagination.dfy` | keyset pages under concurrent writes |
| `EditDistance.dfy` | the nearest accepted parameter key |
| `ZipDirectory.dfy` | the central-directory walk before an archive is unpacked |
| `LoadWait.dfy`, `DownloadTotal.dfy` | waiting for a model, and honest download numbers |
| `ContextTracker.dfy`, `Attachments.dfy`, `ReplyRoom.dfy` | live context readings, which attachments a window can answer to, and when an accepted message leaves room for its reply |

An object the server updates in place is a class; its methods keep the source's branches and loops and are
proved equal to a function on values, and the laws are lemmas about those functions. Text is `seq<char>`,
time is an integer number of milliseconds, and everything read from the network, the disk, the clock or Pi
is a parameter.

## Where the code falls short of its promise

Each of these is proved. The names before the semicolon give the exact condition, for all inputs; those after it
an input or a run that fails.

- A global parameter named like a property every JavaScript object inherits (`toString`, `constructor`, ...)
  cannot be removed, because `key in nextParams` finds the inherited name (`StoreLaws.GlobalsExactIff`;
  `StoreRuns.InheritedNameStays`).
- Removing the section that is the whole file empties it, the next sync takes the empty file for a missing
  one, and the model comes back (`StoreRuns.RemovalWorksIff`; `StoreRuns.SoleModelReturns`). The branch of
  `removeModel` that picks a neighbouring active model never changes the outcome: it runs only in that case,
  and then the sync has already picked the same model (`StoreRuns.NeighbourMakesNoDifference`).
- A regenerate's sync carries only the regenerated group, so the older answers of every other group on the
  branch are dropped from the table (`VariantHistory.RegenerateKeepsExactly`; `VariantHistory.OtherGroupIsLost`).
  A prompt is drawn exactly while its group's first answer is stored and hangs from it, so a sibling that
  outlives that answer is left without its prompt (`VariantRendering.PromptDrawnIff`;
  `VariantRendering.ReplyLosesItsPrompt`).
- A chat's typed text and attachments go to the first prompt of the conversation instead of its own when no
  answer on the branch shows exactly the streamed content, as when the model speaks before and after a tool call
  (`PromptText.OwnPromptIff`; `PromptText.FirstPromptOverwritten`).
- A title run that ends after the user has renamed the conversation tells the client of a title that was not stored
  (`RunStory.TitleToldIff`; `RunStory.RenamedMeanwhile`).
- An accepted abort ends in `run.aborted` unless another writer sets the row `ready` before the answer's sync,
  which then publishes it (`RunProtocol.AcceptedAbortWins`, `RunProtocol.ChatVerdict`). The compaction route's
  abort, used on a chat, is such a writer (`RunProtocol.ReleasedAbortPublishes`).
- A compaction is aborted exactly when an abort reaches it before its sync; after that it completes all the same
  (`RunProtocol.CompactVerdict`, `RunProtocol.SyncedCompactionSucceeds`; `RunProtocol.LateAbortCompletes`).
- Of all the run's steps exactly the title's finalizer turns an unavailable conversation ready
  (`RunProtocol.OnlyTheTitleForgetsUnavailable`; `RunProtocol.TitleRunForgets`).
- Text is queued after a chat's verdict exactly when its prompt rejects while the end-tag filter still holds
  some, aborted or failed (`AnswerText.HeldTextFollowsTheVerdict`; `AnswerText.FailedRunShowsHeldText`).
- The end-tag filter agrees with the whole-text rule for every chunking exactly when the tag ends within the
  first 21 characters (`ThinkingFilter.AgreesIff`; `ThinkingFilter.OutOfReachDiffers`, a chunking for each text).
- A conversation stamped in the cursor's own millisecond lands below the cursor exactly when its id is smaller
  (`Pagination.StampedBelowIff`). Past that millisecond a walk ends (`Pagination.WalkEnds`); within it the rows
  left can grow and a walk can go on for any number of fetches (`Pagination.SameInstantGrows`,
  `Pagination.NoEndWithinAMillisecond`, both in walks from the first page).
- An accepted message may still exhaust its reply: a scan without a recorded page count is priced as one page
  and rendered up to the budget, and a message without images is never priced. Whatever the documents turn out
  to hold, a message that can be accepted leaves room exactly when the window is unknown or reaches the minimum
  for the most images they can come to
  (`ReplyRoom.RoomAlwaysLeftIff`, `ReplyRoom.WorstCaseOnce`; `Attachments.UncountedScansOverrun`,
  `ReplyRoom.PlainMessageOverruns`).

## Model

| member | source | states |
|---|---|---|
| ModelsIni.GetSectionBounds | apps/server/src/contracts/modelsIni.ts:378-402 | the loop finds exactly the first section of the normalised name, up to the next header |
| ModelsIni.GetModelsIniSectionValues | apps/server/src/contracts/modelsIni.ts:54-71 | the loop collects the section's entries, a repeated key taking its last value at its first place |
| ModelsIni.UpsertModelsIniValues | apps/server/src/contracts/modelsIni.ts:81-129 | splicing in a loop with moving bounds equals the edit of one section's body, everything around it in place |
| ModelsIni.FindSectionInsertIndex | apps/server/src/contracts/modelsIni.ts:419-425 | a new key goes after the last line of the section that is not blank |
| ModelsIni.FindLastKeyIndex | apps/server/src/contracts/modelsIni.ts:409-417 | an existing key is rewritten at its last occurrence |
| ModelsIniGrammar.LineReads | apps/server/src/contracts/modelsIni.ts:324-348 | every line, whoever wrote it: it reads as key and value exactly when it is blanks, key, blanks, `=`, blanks, value, blanks with such a key; as a header exactly when it is a bracketed name with nothing or a comment behind it; as blank or comment, and otherwise as malformed |
| ModelsIniGrammar.EntryLineReads | apps/server/src/contracts/modelsIni.ts:336-342 | `w1 key w2 = w3 value w4` reads as that key and value, for all blanks, all trimmed one-line values and every key without `=` that opens nothing else |
| ModelsIniGrammar.HeaderLineReads | apps/server/src/contracts/modelsIni.ts:330-335 | a header reads as its name under leading blanks and with a trailing comment |
| ModelsIniGrammar.FileLines | apps/server/src/contracts/modelsIni.ts:29-41 | a file of any lines, each ended by any of the three line endings, parses to those lines, read one by one |
| ModelsIniGrammar.EveryText | apps/server/src/contracts/modelsIni.ts:29-41 | every text is such a file |
| ModelsIniGrammar.FileAnswers | apps/server/src/contracts/modelsIni.ts:54-71 | in the file itself: a section answers a value for a key exactly when some line in the section's body says so and no later line of it says otherwise |
| ModelsIniLaws.PrintAfterParse | apps/server/src/contracts/modelsIni.ts:29-48 | printing a parsed text returns it, newlines normalised and one final newline present |
| ModelsIniLaws.ParseAfterPrint | apps/server/src/contracts/modelsIni.ts:324-363 | reading back a printed document is the identity up to the marks edits leave; on parsed documents it is the identity; what a line reads as is `ModelsIniGrammar.LineReads` |
| ModelsIniLaws.ParsePrintParse | apps/server/src/contracts/modelsIni.ts:29-48 | a document parsed, printed and parsed again is the same document |
| ModelsIniLaws.WrittenFaithful | apps/server/src/contracts/modelsIni.ts:324-363 | a written entry survives print and parse exactly when its key cannot be read as other syntax |
| ModelsIniLaws.AppendedFaithful | apps/server/src/contracts/modelsIni.ts:371-376 | an appended header survives print and parse exactly when its name is printable |
| ModelsIniLaws.ReadThroughText | apps/server/src/contracts/modelsIni.ts:54-71 | every lookup answers the same after print and parse, values trimmed |
| ModelsIniLaws.UpsertThroughText | apps/server/src/contracts/modelsIni.ts:81-129 | through the text, an upsert is a map update of its section and a frame for every other section |
| ModelsIniLaws.GetAfterUpsert | apps/server/src/contracts/modelsIni.ts:81-129 | each written key reads back its last written value, each other key its old one |
| ModelsIniLaws.UpsertKeepsOtherLines | apps/server/src/contracts/modelsIni.ts:81-129 | on the printed lines: apart from the one line that speaks for each written key, every line survives in its order, earlier duplicates included; a missing section is only added at the end |
| ModelsIniLaws.UpsertOneLine | apps/server/src/contracts/modelsIni.ts:98-126 | writing one key changes one printed line: the last that speaks for the key, else a new one behind the section's last line that is not blank |
| ModelsIniLaws.UpsertInSteps | apps/server/src/contracts/modelsIni.ts:98-126 | writing several keys is writing them one after the other |
| ModelsIniLaws.RemoveKeysThroughText | apps/server/src/contracts/modelsIni.ts:131-150 | no line of a removed key is left, duplicates included; other keys, lines and sections read as before |
| ModelsIniLaws.RemoveSectionThroughText | apps/server/src/contracts/modelsIni.ts:152-163 | removing a section uncovers the next of its name, if any, and disturbs no other |
| Catalog.AppStore.SyncModelCatalogFromPreset | apps/server/src/models/store.ts:304-318 | the cached state becomes what the file says, the file itself restored from state when empty |
| Catalog.AppStore.UpsertModelSection | apps/server/src/models/store.ts:336-359 | the model's section is edited in place in the text |
| Catalog.AppStore.UpdateModel | apps/server/src/models/store.ts:234-263 | writes the requested fields and re-reads the catalog; unknown ids fail |
| Catalog.AppStore.UpdateGlobalModelParams | apps/server/src/models/store.ts:204-217 | strikes the stale globals, writes the new ones and re-reads |
| Catalog.AppStore.RemoveModel | apps/server/src/models/store.ts:287-302 | removes the section and re-reads; answers the removed model if there was one |
| Catalog.AppStore.WritePreset | apps/server/src/llama/preset.ts:48-68 | the second writer of the same file, over every model in turn |
| Catalog.PresetEdits | apps/server/src/llama/preset.ts:48-68 | the loop over the models equals the document of one model's edits after another |
| CatalogLaws.SyncGivesInSync | apps/server/src/models/store.ts:304-334 | after a sync the state is exactly a reading of the file |
| CatalogLaws.ResyncIsIdentity | apps/server/src/models/store.ts:304-318 | syncing again changes nothing |
| CatalogLaws.SyncedActive | apps/server/src/models/store.ts:432-472 | the active id is null exactly when no model exists and otherwise names one |
| CatalogMeaning.ListedIff | apps/server/src/models/store.ts:432-472 | a section is a model exactly when it is not `[*]` and its `hf-repo` is not empty |
| CatalogMeaning.SplitIff | apps/server/src/models/store.ts:502-513 | a reference is repository and quant exactly when it is `repository:quant`, both non-empty and no colon in the quant |
| CatalogMeaning.ModelSays | apps/server/src/models/store.ts:432-472 | on the models of a sync: the reference is what the section's `hf-repo` says, repository and quant are its two halves or both absent, and the pin is what `offline` says |
| CatalogMeaning.OnIff | apps/server/src/models/store.ts:474-478 | a value pins exactly when it is 1, true, yes or on, in any case and between any blanks |
| CatalogMeaning.NameSays | apps/server/src/models/store.ts:450-456 | a model is named by its alias, else as before, else by its reference |
| CatalogMeaning.ParametersSay | apps/server/src/models/store.ts:447-466 | its parameters are what its section says under every other key, trimmed |
| CatalogMeaning.GlobalsSay | apps/server/src/models/store.ts:424-430 | the globals are what `[*]` says |
| CatalogMeaning.ModelContextSays | apps/server/src/models/store.ts:536-600 | its context size is its own first setting, a cap or none; only a silent section takes the global one |
| CatalogMeaning.GlobalContextSays | apps/server/src/models/store.ts:586-605 | the global one is read from the globals the same way |
| CatalogMeaning.PositiveIntIff | apps/server/src/models/store.ts:586-600 | a setting is a cap exactly when it opens, behind blanks and a sign, with the digits of a positive number |
| CatalogLaws.WrittenModelReads | apps/server/src/models/store.ts:432-500 | a written section reads back as the model that was written, whatever the section held before |
| CatalogLaws.UpdateModelReadsBack | apps/server/src/models/store.ts:234-263 | read-after-write through the file: the requested name, pin (un-pinning sticks) and params; every other model, the globals and the active id kept |
| CatalogMeaning.UpdateTakes | apps/server/src/models/store.ts:234-263 | field by field what an update asks for: an empty name and whatever is left out keep what was there |
| StoreLaws.UpdateGlobalsReadsBack | apps/server/src/models/store.ts:204-217 | key by key what the globals answer after an update; every model keeps its fields, its context size derived anew |
| StoreLaws.GlobalsExactIff | apps/server/src/models/store.ts:204-217 | the update is exact precisely when no inherited property name was set before and left out now |
| StoreLaws.WritePresetIsIdempotent | apps/server/src/llama/preset.ts:48-68 | writing the preset changes no catalog reading, and writing it again changes not one character |
| PresetLaws.PresetStamps | apps/server/src/llama/preset.ts:48-68 | one writing leaves every model's section carrying its source values and no load keys |
| PresetLaws.PresetOfStamped | apps/server/src/llama/preset.ts:48-68 | writing over a document that already carries them changes no line |
| StoreRuns.RemoveModelReads | apps/server/src/models/store.ts:287-302 | removal drops that model and no other, the active id moving to the first model left |
| StoreRuns.RemovalWorksIff | apps/server/src/models/store.ts:287-334 | removal takes effect exactly when the file holds anything besides the removed section |
| StoreRuns.RemovedModelReturns | apps/server/src/models/store.ts:320-334 | a section that is the whole file is written back from state |
| StoreRuns.SoleModelReturns | apps/server/src/models/store.ts:287-302 | a two-line file whose model cannot be removed |
| StoreRuns.NeighbourMakesNoDifference | apps/server/src/models/store.ts:287-302 | whatever the file, removal leaves what the sync after the cut leaves: the neighbour branch changes nothing |
| StoreRuns.InheritedNameStays | apps/server/src/models/store.ts:204-217 | a two-line file whose global cannot be cleared |
| StoreRuns.RunKeepsHealthy | apps/server/src/models/store.ts:204-359 | any run of acceptable updates, global updates, removals and preset writes, each at its own time, keeps file and catalog in step with a live active id |
| Projection.SyncPiConversation | apps/server/src/pi/projection.ts:20-153 | the list built by pushing and unshifting is the adjusted branch, preceded by exactly the carried rows, each id once; what each row then says are the rows of `PromptText` |
| Projection.PrependExistingVariantGroup | apps/server/src/pi/projection.ts:246-281 | carries back exactly the group's answers and the rows they hang from |
| Projection.PrependVariantEntry | apps/server/src/pi/projection.ts:188-216 | an entry already listed is left alone, any other goes in front with every field |
| Projection.ReplaceConversationProjection | apps/server/src/conversations/repository.ts:586-617 | deleting and reinserting leaves one row per listed entry, missing facts filled from the old row |
| PromptText.PromptIs | apps/server/src/pi/projection.ts:155-186 | the run's prompt is the user's row hung from, else nearest above, the last answer that shows the run's content, else the first answer; one row or none |
| PromptText.PromptRow | apps/server/src/pi/projection.ts:87-107 | in the table: that row takes the typed text and the run's attachments; every other user's row keeps what it had, or Pi's text when new |
| PromptText.OwnPromptIff | apps/server/src/pi/projection.ts:155-186 | the text goes to the latest prompt exactly when its turn is found: an answer behind it shows the content, or no answer does and it is the first |
| PromptText.OwnPromptRow | apps/server/src/pi/projection.ts:87-186 | in the table: the latest prompt takes the typed text and attachments exactly then |
| PromptText.TypedPromptIsStored | apps/server/src/pi/projection.ts:87-186 | after a chat or regeneration of a history whose turn is found, its prompt holds what was typed and attached |
| PromptText.FirstPromptOverwritten | apps/server/src/pi/projection.ts:155-186 | two chats after which the first prompt holds the second text |
| PromptText.AnswerRow | apps/server/src/pi/projection.ts:45-105 | an answer's row shows Pi's text without a stray end tag; the run's own answer takes the run's model, performance and tool calls |
| PromptText.BranchRow | apps/server/src/pi/projection.ts:45-105 | parent, role and time of a row are Pi's; a compaction shows its summary |
| PromptText.ModelRow | apps/server/src/pi/projection.ts:60-84 | only answers name a model: the stored one, else the active one; thinking comes from Pi, else from the old row |
| ProjectionLaws.SyncConversation | apps/server/src/pi/projection.ts:109-153 | the whole sync leaves a table that depends on the branch, the old table and the metadata, not on the order of any loop |
| ProjectionLaws.WritingTheList | apps/server/src/conversations/repository.ts:586-617 | any list with the branch last and carried rows before it is written to the same table |
| ProjectionLaws.VariantFactsStay | apps/server/src/pi/projection.ts:72-84 | a row that stays keeps its role, parent, group, what it regenerates, performance and tool calls, on the branch or off it |
| ProjectionLaws.SyncSettles | apps/server/src/pi/projection.ts:109-141 | after a snapshot's or a run's sync, reading the same branch again leaves the very same table, whichever model is active |
| VariantHistory.GetRegenerationSource | apps/server/src/conversations/repository.ts:287-322 | finds the prompt (the parent, else the nearest user row before) and the group, or nothing |
| VariantHistory.PromptOfIff | apps/server/src/conversations/repository.ts:298-310 | that prompt is the user's row the answer hangs from or, when it hangs from none, the nearest above it, and there is none exactly when there is no such row |
| VariantHistory.StepKeepsInv | apps/server/src/pi/projection.ts:20-153 | every sync keeps groups flat and rows in step with the session |
| VariantHistory.RunStaysFlat | apps/server/src/conversations/repository.ts:315-321 | over any history a regenerated answer points at one that regenerates nothing, and its group is that answer's id |
| VariantHistory.StepKeepsGroup | apps/server/src/pi/projection.ts:109-142 | a step that walks or regenerates an answer of a group keeps all its answers with what they carry, and their prompts; off-branch rows unchanged |
| VariantHistory.HistoryKeepsGroup | apps/server/src/pi/projection.ts:109-142 | along any history of such steps the group never shrinks |
| VariantHistory.RegenerateKeepsExactly | apps/server/src/pi/projection.ts:109-115 | off the branch a regenerate keeps the regenerated group and the rows its answers hang from, and nothing else |
| VariantHistory.SyncKeepsExactly | apps/server/src/pi/projection.ts:116-141 | off the branch any other sync keeps exactly the groups of the branch's answers and the rows those hang from |
| VariantHistory.OtherGroupIsLost | apps/server/src/pi/projection.ts:109-115 | a conversation in which regenerating the second answer loses the first one's older variant |
| Messages.BuildActivePathEntryIds | apps/server/src/conversations/snapshot.ts:99-120 | ends on cyclic parents, and is the duplicate-free parent chain ending at the leaf, or every id when there is none |
| Messages.ActivePathUnique | apps/server/src/conversations/snapshot.ts:99-120 | that description leaves no choice: the path is determined by rows and leaf |
| Messages.AttachmentsByEntry | apps/server/src/contracts/messages.ts:49-57 | groups attachments by entry, in order, ignoring unbound ones |
| Messages.LabelAssistantVariants | apps/server/src/contracts/messages.ts:112-133 | labels in place: `k/n` with k one more than the answers created before it, ties in list order; single answers unlabelled |
| Messages.BuildConversationMessages | apps/server/src/contracts/messages.ts:45-109 | messages are drawn from rows in increasing position, each with its row's id, role, text, parent and attachments and its label, and exactly the rows that are drawn |
| Messages.RowOrder | apps/server/src/contracts/messages.ts:59-61 | of two messages the earlier is the one whose row stands first |
| Messages.LabelsAreABijection | apps/server/src/contracts/messages.ts:112-133 | a group's labels are a bijection onto 1..n in creation order |
| Messages.DrawnIff | apps/server/src/contracts/messages.ts:80-106 | a message is drawn unless it is a replayed prompt or an answer with nothing to show |
| VariantRendering.GroupsAreFlat | apps/server/src/pi/projection.ts:20-153 | the rows any history stores meet what rendering asks of a group whose first answer is among them |
| VariantRendering.PromptDrawnIff | apps/server/src/contracts/messages.ts:80-91 | after any history the prompt of an answer is drawn exactly when its group's first answer is stored and hangs from that prompt |
| VariantRendering.ReplyLosesItsPrompt | apps/server/src/pi/projection.ts:109-115 | a conversation in which a reply on the active path has lost its prompt |
| Messages.DrawnOnce | apps/server/src/contracts/messages.ts:45-109 | no message is drawn twice |
| RunProtocol.PiHarness.SetConversationStatus | apps/server/src/contracts/conversations.ts:305-332 | a transition outside the table is refused and changes nothing |
| RunProtocol.PiHarness.PushRunAbortedEvents | apps/server/src/pi/events.ts:56-70 | run.aborted, the warning if there is one, run.completed(aborted), in that order |
| RunProtocol.PiHarness.Stream | apps/server/src/pi/harness.ts:926-948 | a delta goes through the end-tag filter and what comes out is appended to the answer and queued |
| RunProtocol.PiHarness.PromptSettled | apps/server/src/pi/harness.ts:984-1071 | the step after the prompt settles: flush, fallback, sync, publish, title, or the catch and finally; what is published is `RunStory.AnnouncedIff` |
| RunProtocol.PiHarness.CompactionSettled | apps/server/src/pi/harness.ts:504-543 | the step after a compaction settles |
| RunProtocol.PiHarness.TitleGenerated | apps/server/src/pi/harness.ts:1138-1178 | the title run's end and finalizer |
| RunProtocol.PiHarness.SetGeneratedTitle | apps/server/src/conversations/repository.ts:430-450 | a generated title is stored unless the user has named the conversation |
| RunProtocol.PiHarness.AbortConversationRun | apps/server/src/pi/harness.ts:406-437 | which aborts are answered yes, and what they mark |
| RunProtocol.PiHarness.CompactionAbort | apps/server/src/pi/harness.ts:573-585 | the compaction route's abort |
| RunProtocol.PiHarness.AssertConversationSessionAvailable | apps/server/src/pi/harness.ts:1229-1238 | another request that finds the session gone marks the row unavailable and takes the run's slot away |
| RunProtocol.ReleaseIsAlwaysLegal | apps/server/src/contracts/conversations.ts:305-318 | ready and unavailable are reachable from every status, running only from ready and itself |
| RunProtocol.AcceptedAbortWins | apps/server/src/pi/harness.ts:815-1072 | under every interleaving an accepted abort, unless another writer sets the row ready, ends in run.aborted and then the one run.completed(aborted); likewise for the title run |
| RunProtocol.OneVerdict | apps/server/src/pi/harness.ts:815-1101 | every run has no end event before it is over and exactly one verdict after; it holds its slot until then unless another request drops it, and at its end slot and row are free |
| RunStory.EveryRunTells | apps/server/src/pi/harness.ts:815-1178 | whatever interleaves, the whole queue of every run: its start, text, one verdict of a fixed shape, text still held, and what a title run adds |
| RunStory.AnnouncedIff | apps/server/src/pi/harness.ts:504-1047 | the finished answer, or compaction, is queued exactly when the verdict is success, once and directly before it |
| RunStory.WarnedIff | apps/server/src/pi/events.ts:56-70 | an abort is told with a warning exactly when the last check after it, before the run ended, left one |
| RunStory.MarksTell | apps/server/src/pi/harness.ts:406-437 | in every run the abort flags, the answers given to aborts, a release of the row and a lost session hold exactly when such a step was taken, in the state that counts |
| RunStory.OutsideWrites | apps/server/src/contracts/conversations.ts:305-318 | who besides the run writes the row's status, to what and exactly when |
| RunStory.TitleToldIff | apps/server/src/pi/harness.ts:1094-1178 | the client is told of a title exactly when one is stored, unless the user renames the conversation while the title run is under way |
| RunStory.RenamedMeanwhile | apps/server/src/pi/harness.ts:1138-1143 | a run that tells the client of a title that was not stored |
| RunProtocol.RunEnds | apps/server/src/pi/harness.ts:815-1178 | whatever interleaves, each continuation of its own brings a run nearer to its end, from any state, and nothing sets it back |
| RunProtocol.FiveAtMost | apps/server/src/pi/harness.ts:815-1178 | in every run from its start at most five of the steps are its own |
| RunProtocol.ChatVerdict | apps/server/src/pi/harness.ts:984-1071 | an answer is published exactly when there is one, the sync may set the row running and it succeeds; otherwise the verdict is aborted exactly when an abort was asked for |
| RunProtocol.SessionVerdict | apps/server/src/pi/harness.ts:492-501 | once its session stands a run asked to stop is aborted, a compaction of an empty conversation fails, and any other run goes on |
| RunProtocol.CompactVerdict | apps/server/src/pi/harness.ts:504-543 | a compaction aborted by either route before its sync is aborted whatever the row's status |
| RunProtocol.SyncedCompactionSucceeds | apps/server/src/pi/harness.ts:512-526 | after its sync no abort changes a compaction's verdict |
| RunProtocol.LateAbortCompletes | apps/server/src/pi/harness.ts:512-526 | a compaction that answers an abort yes and completes |
| RunProtocol.ReleasedAbortPublishes | apps/server/src/pi/harness.ts:573-585 | a schedule in which an accepted abort is overtaken by the answer |
| RunProtocol.OnlyTheTitleForgetsUnavailable | apps/server/src/pi/harness.ts:1175-1178 | of all the run's steps only the title's finalizer turns unavailable into ready |
| RunProtocol.TitleRunForgets | apps/server/src/pi/harness.ts:1175-1178 | a chat found without its session during its title run whose row ends ready |
| AnswerText.HeldTextFollowsTheVerdict | apps/server/src/pi/harness.ts:966-1071 | in every run of a chat, whatever interleaves, text is queued behind the verdict exactly when the prompt rejected while the filter still held some |
| AnswerText.FailedRunShowsHeldText | apps/server/src/pi/harness.ts:966-1071 | a run from its start, without any abort, in which held text follows the verdict |
| AnswerText.AnswerArrivesWhole | apps/server/src/pi/harness.ts:926-1071 | the text a client is sent is the filtered answer whole and in order, then thinking only where a resolved prompt answered with blank space |
| AnswerText.MessageHoldsTheAnswer | apps/server/src/pi/harness.ts:926-1071 | the finished message holds the filtered answer, or the thinking alone where that was shown in its place |
| AnswerText.PublishedIff | apps/server/src/pi/harness.ts:984-1071 | a chat succeeds exactly when its prompt resolves, its sync goes through and answer and thinking are not both blank |
| AsyncQueue.AsyncQueue.Read | apps/server/src/lib/asyncQueue.ts:39-49 | one turn of the iterator: yield, park, return or raise |
| AsyncQueue.TurnIs | apps/server/src/lib/asyncQueue.ts:39-49 | a turn hands over the oldest value, parks exactly when there is none and more may come, and closes exactly when no more will |
| AsyncQueue.RunKeepsInv | apps/server/src/lib/asyncQueue.ts:7-51 | in every interleaving delivered and buffered make up what was pushed, parked means empty and not ended, and only truthy failures are raised |
| AsyncQueue.EndedBySomeone | apps/server/src/lib/asyncQueue.ts:7-38 | in every run it has ended exactly when `end` or `fail` was called, holds the last failure given, and has taken every push |
| AsyncQueue.EndsAfterDelivery | apps/server/src/lib/asyncQueue.ts:39-49 | the iterator returns or raises only after everything pushed was delivered |
| AsyncQueue.Drains | apps/server/src/lib/asyncQueue.ts:7-51 | after the end, as many reads as buffered values and one more deliver everything and close |
| ThinkingFilter.HeldBack | apps/server/src/contracts/reasoning.ts:171-199 | at every moment of every stream: until some opening can no longer become a tag everything is held and that is at most 20 characters; from then on nothing is |
| ThinkingFilter.OnlyAnEchoIsDropped | apps/server/src/contracts/reasoning.ts:171-199 | for every chunking the output is a suffix, and what is dropped is nothing or blank space around one end tag |
| ThinkingFilter.PlainAnswerUnchanged | apps/server/src/contracts/reasoning.ts:171-199 | text not opening with a tag passes unchanged |
| ThinkingFilter.AgreesIff | apps/server/src/contracts/reasoning.ts:137-199 | agreement with the whole-text rule for every chunking, exactly when the tag ends within 21 characters |
| ThinkingFilter.OutOfReachDiffers | apps/server/src/contracts/reasoning.ts:137-199 | for every text whose tag ends later, a chunking whose output differs from the whole-text rule |
| ThinkingFilter.EightBlanksInReach | apps/server/src/contracts/reasoning.ts:117-135 | at most eight leading blanks are always within reach |
| ThinkingFilter.EchoIsStripped | apps/server/src/contracts/reasoning.ts:137-149 | a tag between blanks in front of a text goes, with those blanks |
| Streams.SseObserver.Receive | apps/server/src/llama/proxy.ts:136-148 | a chunk drains every whole event and keeps the rest |
| Streams.SseDataReader.Receive | apps/server/src/llama/wire.ts:54-76 | a chunk yields the payloads of its finished data lines |
| Streams.SseObserver.Close | apps/server/src/llama/proxy.ts:70-79 | at the end a tail that is not all blank counts as one more event |
| Streams.LinePump.Receive | apps/server/src/lib/process.ts:61-80 | a chunk hands over its finished lines |
| Streams.ChunksDoNotMatter | apps/server/src/llama/proxy.ts:136-148 | any two partitions of a stream give the same pieces and tail |
| Streams.SseCutsFirst | apps/server/src/llama/proxy.ts:150-160 | a cut of two or four characters is made exactly at the first separator of either kind, and none exactly when there is none |
| Streams.DrainTiles | apps/server/src/llama/proxy.ts:136-148 | each piece with one separator behind it, in order, and then the tail are the stream |
| Streams.DataLinesOfTheStream | apps/server/src/llama/wire.ts:54-76 | what is yielded is the data lines of the whole stream's terminated lines |
| Streams.DataLineIff | apps/server/src/llama/wire.ts:65-71 | a line yields a payload exactly when it is `data:` and that payload with blanks or none around either |
| Streams.PumpedLines | apps/server/src/lib/process.ts:61-80 | the pump's lines are the newline split of the whole output |
| Pagination.ConversationRepository.EnsureConversation | apps/server/src/conversations/repository.ts:150-170 | creates a missing conversation stamped now and leaves an existing one alone |
| Pagination.ConversationRepository.PatchConversation | apps/server/src/conversations/repository.ts:385-428 | each patch stamps now and changes only its own row |
| Pagination.ListingShows | apps/server/src/conversations/search.ts:62-106 | a page holds the newest matches below the cursor, at most the clamped limit; pinned ones come with the first page only; a cursor is given exactly with a full page and is its last row |
| Pagination.NeverTwice | apps/server/src/conversations/search.ts:62-106 | no conversation appears on two keyset pages, whatever is written between them |
| Pagination.UntouchedExactlyOnce | apps/server/src/conversations/search.ts:62-106 | a matching row nobody touches is returned exactly once by a finished walk |
| Pagination.FetchUsesUp | apps/server/src/conversations/repository.ts:172-192 | each fetch ends the walk or leaves fewer rows below the cursor |
| Pagination.StampedBelowIff | apps/server/src/conversations/search.ts:74-79 | a stamped row lands below the cursor only in the cursor's own millisecond with a smaller id |
| Pagination.WalkEnds | apps/server/src/conversations/search.ts:62-106 | once the clock has passed the cursor the walk ends within the rows left plus one fetches, under any writes |
| Pagination.SameInstantGrows | apps/server/src/conversations/search.ts:74-79 | in a walk from its first page, within the cursor's millisecond, the rows left grow |
| Pagination.NoEndWithinAMillisecond | apps/server/src/conversations/search.ts:62-106 | for every n some walk from its first page makes n fetches unfinished while the clock stays in the cursor's millisecond |
| Pagination.QuietWalk | apps/server/src/conversations/repository.ts:172-192 | with no writes the pages put together are the sorted list |
| EditDistance.Levenshtein | apps/server/src/contracts/modelParams.ts:351-372 | the two-row loop computes the distance |
| EditDistance.Achieved | apps/server/src/contracts/modelParams.ts:351-372 | some insert, delete and substitute script costs exactly the distance |
| EditDistance.Shortest | apps/server/src/contracts/modelParams.ts:351-372 | no script costs less |
| EditDistance.ZeroIffEqual | apps/server/src/contracts/modelParams.ts:351-372 | zero only between equal strings |
| EditDistance.Symmetric | apps/server/src/contracts/modelParams.ts:351-372 | the same both ways |
| EditDistance.Triangle | apps/server/src/contracts/modelParams.ts:351-372 | the triangle inequality, by composing scripts |
| EditDistance.SuggestModelParamKey | apps/server/src/contracts/modelParams.ts:374-386 | the least (distance, key) among accepted keys, nothing exactly when that distance exceeds the limit |
| EditDistance.SuggestionUnique | apps/server/src/contracts/modelParams.ts:374-386 | one answer per accepted set, whatever the iteration order |
| ZipDirectory.FindEndOfCentralDirectory | apps/server/src/conversations/archive.ts:377-391 | the last end record whose comment reaches the end of the file, searched in bounds |
| ZipDirectory.AssertNoDuplicateZipEntries | apps/server/src/conversations/archive.ts:332-375 | for any bytes the walk stays in bounds, ends, and gives the refusal of the checks in order |
| ZipDirectory.AcceptedIff | apps/server/src/conversations/archive.ts:332-375 | acceptance holds exactly when the announced number of well-signed records tile the announced directory under distinct names |
| ZipDirectory.WrittenRecord | apps/server/src/conversations/archive.ts:353-372 | a record as laid out by APPNOTE section 4.3.12 is read back whole wherever it stands |
| ZipDirectory.WrittenArchive | apps/server/src/conversations/archive.ts:332-391 | every comment-free archive a writer lays out is accepted exactly when its names are distinct, and refused over a repeated name otherwise |
| LoadWait.EnsureModelRunnable | apps/server/src/llama/load.ts:90-294 | the first poll at which a condition on the polls alone calls for it ends the wait, and no outcome without its own: runnable, a failed download, a dead child past 3000 ms, silence for stallMs, or absoluteMaxMs passed |
| LoadWait.SignalIsEvidence | apps/server/src/llama/load.ts:160-195 | what counts as progress: the directory larger than ever measured, a frame newer than any seen, or a status that moved |
| LoadWait.PollUntilDecided | apps/server/src/llama/load.ts:154-294 | the loop ends with the first deciding poll of the whole history, within about absoluteMaxMs / pollMs polls, one report a poll |
| LoadWait.ReportsAreHonest | apps/server/src/llama/load.ts:197-240 | no report shows more downloaded than its total, nor a fraction outside 0 to 1 |
| LoadWait.Describe | apps/server/src/llama/load.ts:186-240 | what a poll reports: status, phase, bytes, and a fraction only from a total the bytes have not outrun |
| LoadWait.ReportSays | apps/server/src/llama/load.ts:186-240 | the order of sources: a load frame, the status's own progress, then bytes of the download, its blobs or the directory |
| LoadWait.FractionIs | apps/server/src/contracts/routerProgress.ts:22-51 | (stage + value) / stages for a listed stage, the bare value otherwise, nothing where nothing is measured |
| LoadWait.ProgressAdvances | apps/server/src/contracts/routerProgress.ts:22-51 | frames later by stage and value never report less |
| LoadWait.LatestIs | apps/server/src/llama/load.ts:316-371 | the watcher's number is that of the last frame that measured anything, and none exactly when no frame did |
| LoadWait.WatchedProgressNeverRewinds | apps/server/src/llama/load.ts:316-371 | the watcher's number never moves back, unmeasured frames in between |
| LoadWait.RouterDownloadProgress | apps/server/src/contracts/routerProgress.ts:74-113 | sums over the reporting files; a total only when every one knows its own |
| LoadWait.FilesAdd | apps/server/src/contracts/routerProgress.ts:86-103 | wherever a file stands in a frame, it adds what it reports, and its total where it reports at all |
| DownloadTotal.StripPartialSuffix | apps/server/src/llama/downloadTotal.ts:113-120 | drops the first of the partial suffixes the name ends with |
| DownloadTotal.SuffixIsDropped | apps/server/src/llama/downloadTotal.ts:113-120 | a name with any of the suffixes behind it gives the name |
| DownloadTotal.FileIs | apps/server/src/llama/downloadTotal.ts:42-91 | a blob belongs to the one file of its LFS id, else of its id |
| DownloadTotal.AttributeBlobs | apps/server/src/llama/downloadTotal.ts:42-91 | the maps and the running sum compute the total of the set of seeded and observed files; none is given exactly when a blob matches no file, a counted file has no size, or nothing counts |
| DownloadTotal.TotalIsTheSizes | apps/server/src/llama/downloadTotal.ts:42-91 | the total is the sizes of the files that count, each once, however they are listed |
| DownloadTotal.OrderDoesNotMatter | apps/server/src/llama/downloadTotal.ts:42-91 | blob order and repetition change nothing |
| DownloadTotal.TotalGrows | apps/server/src/llama/downloadTotal.ts:42-91 | more blobs never lower the total |
| DownloadTotal.FullIffComplete | apps/server/src/llama/downloadTotal.ts:42-91 | never more downloaded than the total, and as much exactly when every counted file is complete |
| ContextTracker.LiveContextTracker.Track | apps/server/src/conversations/context.ts:120-152 | each tick sends exactly what the throttling rule says over the whole history |
| ContextTracker.ReadingSays | apps/server/src/conversations/context.ts:155-190 | a reading is the prompt's own count, else the fallback one, and what was generated on top |
| ContextTracker.ThresholdsInTokens | apps/server/src/contracts/context.ts:20-39 | the ratio thresholds as integer comparisons of tokens |
| ContextTracker.StatusIsNeverStale | apps/server/src/conversations/context.ts:131-151 | what was last sent always has the current status |
| ContextTracker.FreshWithinInterval | apps/server/src/conversations/context.ts:131-151 | after every tick with a reading what was last sent is current or younger than the interval |
| ContextTracker.NeverRepeats | apps/server/src/conversations/context.ts:133-135 | no two readings sent in a row carry the same count |
| ContextTracker.RateIsBounded | apps/server/src/conversations/context.ts:138-151 | at most one reading to start with, one per status change and one per interval elapsed |
| Attachments.AffordableIff | apps/server/src/contracts/piContext.ts:144-175 | n images are affordable exactly on windows of at least the size the refusal names |
| Attachments.ExhaustedIff | apps/server/src/contracts/piContext.ts:115-137 | a reply is exhausted exactly below the minimum usable window |
| Attachments.BudgetIs | apps/server/src/contracts/piContext.ts:104-109 | the reply budget is a quarter of the window within 1024 and 8192, and 1024 without a window |
| Attachments.AvailableIs | apps/server/src/contracts/piContext.ts:115-121 | a reply takes its whole budget or all the room behind prompt and margin, and never less than one token |
| Attachments.RenderPdfPages | apps/server/src/attachments/ingest.ts:227-285 | the first pages up to the limit, in order, or a refusal when none may be rendered |
| Attachments.CheckBudget | apps/server/src/attachments/ingest.ts:301-352 | which refusal a message meets: vision missing, then the first scan over the budget, then the images together |
| Attachments.ResolveChatAttachments | apps/server/src/attachments/ingest.ts:301-401 | accepted exactly when every reference is known, the images fit the budget and the expansion fits the limits; then the expansion itself |
| Attachments.AcceptedLeavesRoom | apps/server/src/attachments/ingest.ts:326-352 | with honest page counts scans are sent in full, and the reply is exhausted exactly when no image is sent and the window is below the minimum for the base prompt |
| Attachments.ExpansionFollowsReferences | apps/server/src/attachments/ingest.ts:354-388 | attachments follow the order of the references |
| Attachments.UncountedScansOverrun | apps/server/src/attachments/ingest.ts:333-349 | an instance of what `ReplyRoom.RoomAlwaysLeftIff` rules on: two scans without page counts overrun the budget they were accepted under |
| ReplyRoom.ExhaustedExactly | apps/server/src/contracts/piContext.ts:115-175 | whatever is sent, images or none, the reply is exhausted exactly below the minimum window for that many images |
| ReplyRoom.RoomAlwaysLeftIff | apps/server/src/attachments/ingest.ts:301-401 | over all renderings that agree with the recorded counts, room is always left exactly when the window reaches the minimum for the worst case, told from the documents alone |
| ReplyRoom.WorstCaseOnce | apps/server/src/attachments/ingest.ts:326-401 | that worst case: the images fixed, and the page budget for each uncounted scan as far as files are left |
| ReplyRoom.PlainMessageOverruns | apps/server/src/contracts/piContext.ts:115-137 | a message without attachments accepted on a window of 8192 that cannot hold its reply |

## Left out

- UTF-16: a string is a sequence of characters, so lengths and comparisons of characters outside the basic plane are those of characters, not code units.
- Object key order: records keep insertion order for every key; JavaScript moves keys that look like array indices to the front.
- Numbers: token counts, byte counts and times are integers and ratios are reals; rounding, infinities and digits beyond a double are not modelled.
- I/O: HTTP, SQL text, JSON, the file system, `state.json`, process spawning, image and PDF decoding, hashing and compression are parameters or absent.
- Imports: `addHuggingFaceModel`, `duplicateModel`, `setActiveModel`, preset-file inspection, `validateModelsIniDocument` and the Hugging Face helpers only add easier members.
- Parameter checks: `validateModelParams`, the help-text parser and the option catalogue are not modelled; only the distance and the suggestion are.
- Seeding: `seedEntries`, used when a conversation is forked, and rebuilding a session from rows are not part of the projection model.
- Branch metadata: `ProjectionLaws.SyncSettles` takes a run's answer to be new to the table and to name its model, as the harness always builds it.
- Search: the search term is an arbitrary fixed predicate on titles; cursor encoding and its malformed inputs are not modelled, and pinned rows are read whole as the source does.
- Run set-up: session construction failures, a missing branch entry, `beginRun`'s busy error, rebuilding, `resetSession`, a second run started while the first has lost its slot and leftover finalizers of an earlier run on the same conversation are not part of the run protocol; closing a compaction's stream, one microtask after its last step, is folded into that step.
- Stream events: of what a run streams the model keeps the answer's text; reasoning, tool, context and performance events, a compaction's own failure event, and warnings other than the abort's, are not modelled. Nor is a conversation deleted under its run.
- Sessions: `VariantHistory.Append` takes Pi to append a run as a chain that opens with its prompt, so that no two answers of a session hang from one entry; Pi's own session file is not part of this model.
- Waiting: the first look at the router, the load request and pinning after success are not modelled; a wait begins with a model that is not runnable, with a clock that advances by the delay between polls, and without a download total of zero.
- File paths: the repo tree is taken to list each path once.
- Text decoding: the zip name decoder is an arbitrary function of bytes, and chunks reach the splitters as decoded text.
- Attachments' captured text, page image sizes and megapixel limits are data of the upload; only their sizes count.
