# Verified core of the agent runtime

A Dafny model of the small engines inside the t560 agent runtime, with proofs of what each of them is for.
`dafny verify dfyconfig.toml` checks everything.

| module | engine | what is proved, in one line |
|---|---|---|
| `EditableRegions` | region guard of the `write` and `edit` tools | the first version's protected text is there at the end of a run of writes and edits if and only if no accepted edit put END into a region |
| `Transcript`, `TranscriptLaws`, `QuietRepair`, `Gathering`, `PairingFields` | pairing of tool calls with results | which result the rebuilt list holds for each id, said on the fields of the messages; shape, conservation, fixpoints and idempotence; on which transcripts the repair stays quiet, when the list it then returns lacks the shape, and when it loses nothing |
| `Renaming`, `ToolCallIds`, `PassOrder` | provider-safe ids | pairing commutes with every one-to-one renaming; the strict renaming is one-to-one up to 998 ids; a second pass is the identity; when the renaming and the pairing pass may change places |
| `Session`, `SessionFields` | saved transcripts | what becomes of each message; the sanitizer is idempotent; a load returns what was saved, exactly when every stored message has a role |
| `MemoryEntry`, `MemoryLog`, `MemoryQuota`, `MemoryRetention`, `MemoryOps`, `MemoryFields`, `MemoryEffects` | log-structured memory store | backward scan, lookup and compaction agree with forward replay; quotas and retention limits hold after saves and prunes; titles stay unique, and exactly when; what each tool does to the fields of an entry |
| `Similarity` | sparse token vectors | Cauchy-Schwarz, so the similarity lies in [0, 1] and the bonus in 0..30 |
| `ShellLexer`, `ShellQuoting`, `ShellGuard`, `ShellBlocking` | exec guard | the lexers read exactly what a grammar of quoting writes; they agree with one pass, exactly when no segment ends dirty; a command that stops the machine is blocked however it is quoted or prefixed; `bash -c` nesting hides nothing |
| `OutputBuffers` | output of background processes | chunk queues refine "the last N characters"; nothing is lost exactly while a queue never overflows |
| `MailReader`, `SmtpTransparency` | mail wire layer | chunked reads refine the unchunked stream; dot-stuffing round-trips for every body |
| `CheckoutGate`, `AgentLoop`, `TurnTranscript` | tool loop and purchase gate | bounded requests, authorised purchases only, a trace and a transcript that are what provider and tools said, the model's own words only after verification; what a turn writes survives the sanitizer |

`Text` holds searching, splitting and trimming shared by all of them, `Replacing` what find-and-replace does to the
pieces of a text.

The `…Fields`, `…Effects`, `ShellQuoting` and `ShellBlocking` modules define what a call, a result, a quoted word, a
visible or a merged entry is a second time, from the raw fields and characters, and prove that the engines do just
that.

Code that updates variables step by step is modelled by methods and classes (`GuardedFile`, `Resolver`,
`SessionFile`, `MemoryFile`, `ProcessSession`, `BufferedSocket`, `CheckoutWorkflow`), each proved equal to a
specification function; the laws are lemmas about those functions. The local variables of one agent turn are
the record `AgentLoop.Run`, passed from method to method.

Seven things the code does that its comments and messages do not suggest, each with an input and its exact
condition:

- An accepted edit can still change the protected text of a file: when the replacement brings an END marker
  into a region, the rest of the region becomes protected, for good (`EditableRegions.EndInReplacement`;
  `EditableRegions.EditKeepsFrame` and `EditableRegions.RunKeepsChunks` say this is the only way).
- The pairing repair returns its input when nothing was counted as a change, so a repeated or reordered result
  inside one span stays (`QuietRepair.InSpanRepeatStays`, `QuietRepair.InSpanReorderStays`,
  `QuietRepair.ReturnedShapedIff`).
- A message without a role is stored by a save and left out by the next load (`Session.RolelessNotLoaded`,
  `Session.LoadAfterSave`).
- Renaming ids and pairing results are not interchangeable: a stray result can take the name of a later call
  (`PassOrder.StrayExample`). They are exactly when each sanitised form is first claimed by the same id before
  and after pairing (`PassOrder.CommuteIffClaimsSurvive`), for example when no result brings an id of its own or
  when the ids differ once sanitised (`PassOrder.CommuteIfLed`, `PassOrder.CommuteIfBasesDistinct`).
- A replace-mode memory save can leave two live entries of one title (`MemoryOps.ReplaceCanDuplicate`,
  `MemoryOps.SaveTitlesIff`).
- Trimming a shell segment changes its tokens when the segment ends in an escaped blank or in a blank inside
  an open quote (`ShellLexer.EscapedBlankLost`, `ShellLexer.QuotedBlankLost`, `ShellLexer.TrimKeepsTokensIff`).
- The failure streak of the agent loop can count failures as consecutive that are not: a successful login that
  asks for a code leaves the round before the streak is updated (`AgentLoop.StreakSpansLogin`,
  `AgentLoop.StreakIsTrailingIff`).

## Model

| member | source | states |
|---|---|---|
| `EditableRegions.ParseEditableRanges` | src/agents/tools/fs-tools.ts:20-40 | the cursor loop finds exactly the regions of the recursive parse |
| `EditableRegions.RegionFound` | src/agents/tools/fs-tools.ts:20-40 | after a head line, the first END closes the region, because END does not overlap itself |
| `EditableRegions.ParseRender` | src/agents/tools/fs-tools.ts:20-40 | a well-formed structure written out parses back to itself |
| `EditableRegions.RenderParse` | src/agents/tools/fs-tools.ts:20-40 | every text is the rendering of its parse, and that parse is well-formed |
| `EditableRegions.ProjectNonEditableContent` | src/agents/tools/fs-tools.ts:60-72 | the loop computes the concatenation of the protected chunks |
| `EditableRegions.ReparseProjection` | src/agents/tools/fs-tools.ts:20-40 | parsing a projection finds as many regions, all empty, around the same chunks |
| `EditableRegions.ProjectionDeterminesChunks` | src/agents/tools/fs-tools.ts:60-72 | two files have equal projections if and only if their protected chunks are equal pairwise |
| `EditableRegions.AssertWriteWithinAllowedRanges` | src/agents/tools/fs-tools.ts:95-114 | the check decides `WriteAllowed` |
| `EditableRegions.WriteAllowedIff` | src/agents/tools/fs-tools.ts:95-114 | a write to a file with regions is accepted if and only if it keeps every protected chunk, in order, and so the number of regions |
| `EditableRegions.CollectMatchRanges` | src/agents/tools/fs-tools.ts:46-58 | the loop finds the ranges of the non-overlapping matches from the left |
| `EditableRegions.AssertEditWithinAllowedRanges` | src/agents/tools/fs-tools.ts:74-93 | the check decides `EditAllowed`: the first match, or all of them, lie inside regions |
| `EditableRegions.EditAcceptedIff` | src/agents/tools/fs-tools.ts:42-93 | an edit goes through if and only if its search text is non-empty and found and, in a file with regions, the match to be replaced, or with replace-all every match, lies inside one region text |
| `EditableRegions.EditDocSound` | src/agents/tools/fs-tools.ts:252-262 | replacing a match inside a region changes that region's text and no protected chunk |
| `EditableRegions.ReplaceInRegionsSound` | src/agents/tools/fs-tools.ts:252-262 | split-and-join over the whole file equals replacing region by region |
| `EditableRegions.FrameAndTextDetermine` | src/agents/tools/fs-tools.ts:20-40 | a text has only one reading with given protected chunks, even among readings whose bodies hold END |
| `EditableRegions.EditKeepsFrame` | src/agents/tools/fs-tools.ts:74-93 | an accepted edit writes the old chunks around new region texts; the new file's protected chunks are the old ones if and only if no new region text lets an END close it early |
| `EditableRegions.EndsOfRender` | src/agents/tools/fs-tools.ts:20-40 | every END of a file lies in its heads, its closing markers, its tail or inside a body: none straddles a border |
| `EditableRegions.StepEnds` | src/agents/tools/fs-tools.ts:74-114 | a call keeps the protected chunks, or it is an edit that puts END into a region and then the file has more ENDs than before; regions never vanish |
| `EditableRegions.RunKeepsChunks` | src/agents/tools/fs-tools.ts:74-114 | over any run of writes and edits, accepted or refused, the first version's protected chunks are there at the end if and only if no accepted edit put END into a region |
| `Replacing.ReplaceRegion` | src/agents/tools/fs-tools.ts:258-260 | split-and-join copies the stretches no match touches and replaces inside the others on their own |
| `EditableRegions.EndInReplacement` | src/agents/tools/fs-tools.ts:252-262 | an accepted edit that writes END into a region does change the protected chunks |
| `EditableRegions.T560Valid` | src/agents/tools/fs-tools.ts:7-8 | the two markers of the code contain no line break, and END does not overlap itself |
| `EditableRegions.GuardedFile.Write` | src/agents/tools/fs-tools.ts:205-231 | the file becomes the new text if the write is allowed, else stays |
| `EditableRegions.GuardedFile.Edit` | src/agents/tools/fs-tools.ts:242-267 | refused for an empty or absent search text or a match outside regions; else the replaced text is stored |
| `Transcript.ScanSpan` | src/agents/session-transcript-repair.ts:191-230 | the inner loop ends at the next assistant and collects the first unseen result per call id, the other messages, and the counts of orphans and duplicates |
| `Transcript.PushResults` | src/agents/session-transcript-repair.ts:147-253 | the call loop pushes found or synthetic results in call order and drops ids already seen |
| `Transcript.RepairToolUseResultPairing` | src/agents/session-transcript-repair.ts:134-272 | the nested loops compute `Repaired`; the result is the rebuilt list only if something changed |
| `TranscriptLaws.RebuiltShape` | src/agents/session-transcript-repair.ts:147-272 | in the rebuilt list every result lies in the block right after an answering assistant that made its call, in call order, and no result id occurs twice |
| `TranscriptLaws.RebuiltKeepsNonResults` | src/agents/session-transcript-repair.ts:147-272 | all other messages are kept, in order, and none is added |
| `TranscriptLaws.RebuiltAnswersEachCall` | src/agents/session-transcript-repair.ts:239-253 | with synthetic results, every call of an answering assistant has exactly one result |
| `PairingFields.AsksIff` | src/agents/tool-call-id.ts:87-125 | the repair pairs an id for a message if and only if it is an assistant, not errored or aborted, with a tool-call block of that non-empty id; a result has the id of its call field, else of its use field |
| `PairingFields.ReturnedOwners` | src/agents/session-transcript-repair.ts:178-190 | in the rebuilt and in the returned list every result answers a call of the last assistant before it, which was neither errored nor aborted; so none stands behind an errored or aborted one |
| `PairingFields.RebuiltInBlockOrder` | src/agents/session-transcript-repair.ts:239-253 | nothing stands between an assistant and its results, and they are in the order of the blocks that first ask for them |
| `PairingFields.RebuiltResultsIff` | src/agents/session-transcript-repair.ts:147-253 | for each id the rebuilt list holds exactly the message given to the first assistant that asks and can be served: the first result of its span or, if allowed, one made up that names the tool of the first asking block; nothing else |
| `PairingFields.AddedAsked` | src/agents/session-transcript-repair.ts:243-250 | nothing is made up unless allowed, and only for blocks of assistants that were not cut short |
| `PairingFields.OrphansAreStrays` | src/agents/session-transcript-repair.ts:171-229 | the orphan counter is the number of results that the last assistant before them did not ask for |
| `QuietRepair.ReturnedNoOrphan` | src/agents/session-transcript-repair.ts:264-272 | rebuilt or not, the returned list holds no result outside the span of a matching call |
| `TranscriptLaws.ShapedIsFixed` | src/agents/session-transcript-repair.ts:134-272 | a transcript in shape is rebuilt as it is |
| `TranscriptLaws.FixedIffShaped` | src/agents/session-transcript-repair.ts:134-272 | the transcripts that pairing leaves alone are exactly those in shape |
| `TranscriptLaws.RepairIdempotent` | src/agents/session-transcript-repair.ts:134-272 | repairing a repaired transcript changes nothing, for the rebuilt and for the returned list |
| `QuietRepair.TurnQuiet` | src/agents/session-transcript-repair.ts:191-262 | one assistant's turn counts no change if and only if its span holds only fresh results of its calls or none, no answered id is called twice, and with synthetic results every call is answered |
| `QuietRepair.UnchangedIffQuiet` | src/agents/session-transcript-repair.ts:134-272 | the repair counts no change if and only if the transcript it is given is quiet: every result lies in the span of a matching call, a span with results holds nothing else, no id is answered in two spans or called twice where answered, and with synthetic results every call is answered |
| `QuietRepair.ReturnedShapedIff` | src/agents/session-transcript-repair.ts:264-272 | the returned list lacks the full shape if and only if the transcript was quiet and, in some span, a result stands against the order of the calls or repeats another |
| `QuietRepair.InSpanRepeatStays` | src/agents/session-transcript-repair.ts:217-220 | a second result of one id inside one span is returned unchanged |
| `QuietRepair.InSpanReorderStays` | src/agents/session-transcript-repair.ts:234-266 | so is a span whose results stand against the order of the calls |
| `TranscriptLaws.RebuiltConserves` | src/agents/session-transcript-repair.ts:134-272 | without synthetic results, no message is invented or copied |
| `Gathering.TurnGathers` | src/agents/session-transcript-repair.ts:191-262 | a turn keeps its whole span and puts the results in front if and only if they are fresh results of its calls, in call order, each call answered once |
| `Gathering.GatheredFacts` | src/agents/session-transcript-repair.ts:255-262 | gathering keeps the results and the other messages, each in their order |
| `Gathering.ReturnedGatheredIff` | src/agents/session-transcript-repair.ts:134-272 | pairing keeps every message and only gathers results in front of their span's others if and only if every result lies in the span of its call, in call order, each id answered once, or the transcript is quiet |
| `TranscriptLaws.RebuiltNoLonger` | src/agents/session-transcript-repair.ts:134-272 | without synthetic results, the list does not grow |
| `Renaming.RepairCommutes` | src/agents/session-transcript-repair.ts:134-272 | renaming ids one-to-one and then repairing equals repairing and then renaming: rebuilt list, added list, counts and changed flag |
| `Renaming.ReturnedCommutes` | src/agents/session-transcript-repair.ts:134-272 | the same for the returned list |
| `ToolCallIds.MakeUniqueToolCallId` | src/agents/tool-call-id.ts:34-81 | the search loops compute `MakeUnique` |
| `ToolCallIds.NumberedInjective` | src/agents/tool-call-id.ts:71-77 | the forms x2 to x999 of one candidate are pairwise distinct, though their bases are cut to different lengths |
| `ToolCallIds.StrictPicksUnused` | src/agents/tool-call-id.ts:34-81 | with fewer than 998 ids in use, strict mode picks an unused one |
| `ToolCallIds.MakeUniqueCanonical` | src/agents/tool-call-id.ts:14-81 | every chosen id is non-empty, alphanumeric and of the mode's length |
| `ToolCallIds.CanonicalKept` | src/agents/tool-call-id.ts:14-81 | a canonical id not in use is kept |
| `ToolCallIds.NameOfId` | src/agents/tool-call-id.ts:14-69 | the name an id gets: its letters and digits cut to the mode's length while that is free; in strict mode, when taken, the first 32 of them and a hash; fixed names for ids without any |
| `ToolCallIds.Resolver.ResolveId` | src/agents/tool-call-id.ts:221-230 | an id keeps the name it was first given; a new one gets a name that is then used, in strict mode with fewer than 998 used an unused one |
| `ToolCallIds.Resolver.RewriteBlocks` | src/agents/tool-call-id.ts:151-187 | every tool-call block with an id is renamed, the others are kept |
| `ToolCallIds.Resolver.RewriteMessage` | src/agents/tool-call-id.ts:151-212 | one message is renamed with the names known once its ids are resolved |
| `ToolCallIds.SanitizeToolCallIdsForTranscript` | src/agents/tool-call-id.ts:214-261 | the loop computes `Rewritten` |
| `ToolCallIds.RewriteIsRenaming` | src/agents/tool-call-id.ts:214-261 | rewriting with the names found so far equals renaming everything with the final names |
| `ToolCallIds.StrictRenamingOneToOne` | src/agents/tool-call-id.ts:214-261 | in strict mode, with at most 998 distinct ids, the transcript's renaming is one-to-one |
| `ToolCallIds.SanitizeThenRepair` | src/agents/tool-call-id.ts:214-261 | pairing a renamed transcript equals pairing the transcript and renaming it with the names found on the whole |
| `PassOrder.CommuteIffSameNames` | src/agents/tool-call-id.ts:214-261 | the two passes give the same in either order if and only if the paired transcript is given the names the whole one is |
| `PassOrder.CommuteIffClaimsSurvive` | src/agents/tool-call-id.ts:34-81 | where hashed forms meet no other name, they do if and only if every sanitised form of a kept id is first claimed by the same id before and after pairing |
| `PassOrder.CommuteIfLed` | src/agents/tool-call-id.ts:214-261 | they do when every id of a result was brought by a call before it |
| `PassOrder.CommuteIfBasesDistinct` | src/agents/tool-call-id.ts:14-81 | they do, in both modes and for any number of ids, when the sanitised ids are pairwise distinct |
| `PassOrder.StrayTakesName` | src/agents/tool-call-id.ts:221-230 | they do not when a stray result in front has the sanitised form of a later call's id |
| `PassOrder.StrayExample` | src/agents/tool-call-id.ts:221-230 | a result of `a_` in front of a call of `a`: the stray one takes the name |
| `ToolCallIds.SecondPassIdentity` | src/agents/tool-call-id.ts:214-261 | in both modes a second renaming pass is the identity |
| `Session.RepairToolCallInputs` | src/agents/session-transcript-repair.ts:69-120 | the loop keeps the well-formed blocks, drops an assistant left with none, and counts both |
| `Session.SanitizeSessionTranscript` | src/provider/session.ts:56-72 | the stub filter, the two repair loops and the counter loop over leading results compute `Sanitize` |
| `Session.StripRemovesNothing` | src/provider/session.ts:62-72 | the final strip of leading results never removes anything |
| `Session.SanitizeFacts` | src/provider/session.ts:56-72 | the sanitizer never lengthens, keeps the other messages its filters keep, in order, and leaves no stub or malformed block |
| `SessionFields.SanitizedFates` | src/provider/session.ts:39-72 | of the messages that are no results sanitizing leaves exactly their fates, in order: an assistant loses tool calls without input, id or name and goes if nothing is left or if it is an empty error, the others stay; every result left answers the last assistant before it |
| `Session.SanitizeIdempotent` | src/provider/session.ts:56-72 | sanitizing twice equals sanitizing once |
| `Session.SessionFile.Save` | src/provider/session.ts:85-98 | through two passes of the proved sanitizer, the file holds `Saved`, which is at most 40 messages and keeps the window's other messages |
| `Session.SessionFile.Load` | src/provider/session.ts:74-83 | the role filter and the proved sanitizer give `Loaded`; nothing when the file is missing |
| `Session.SaveKeepsWindow` | src/provider/session.ts:85-98 | a save stores at most 40 messages and every non-result message of the window, in order |
| `SessionFields.SavedFates` | src/provider/session.ts:85-98 | up to forty sanitized messages are all stored; of more, what is left of the last forty |
| `SessionFields.LoadedFates` | src/provider/session.ts:25-83 | a load leaves the fates of the items that are objects with a role |
| `Session.LoadAfterSave` | src/provider/session.ts:25-98 | a load returns exactly what was saved, if and only if every message of the window is an object with a role |
| `Session.RolelessNotLoaded` | src/provider/session.ts:25-30 | a message without one is saved and then not loaded |
| `MemoryEntry.ParsedIsWellFormed` | src/agents/tools/memory-tools.ts:506-541 | every entry the parser yields is well-formed |
| `MemoryEntry.WellFormedRoundTrip` | src/agents/tools/memory-tools.ts:506-563 | a well-formed entry is read back unchanged and is not taken for a delete marker |
| `MemoryEntry.DeleteRoundTrip` | src/agents/tools/memory-tools.ts:543-563 | a delete marker is read back as the id it deletes |
| `MemoryEntry.StableIffWellFormed` | src/agents/tools/memory-tools.ts:506-541 | the entries that storage preserves are exactly the well-formed ones |
| `MemoryEffects.EntryRead` | src/agents/tools/memory-tools.ts:506-541 | a line is an entry if and only if it has an id, a title, a content and a creation time that are not blank; then texts are trimmed, missing ones replaced, numbers brought between their bounds, labels and tier normalised or defaulted |
| `MemoryEffects.DeleteRead` | src/agents/tools/memory-tools.ts:543-563 | a line deletes an id if and only if its type is `delete`, in any case, and it has the id and a time |
| `MemoryEffects.LineDoes` | src/agents/tools/memory-tools.ts:565-618 | a delete marker deletes, another line that is an entry writes it, the rest does nothing |
| `MemoryFields.TaggedIs` | src/agents/tools/memory-tools.ts:144-162 | the tags kept are lower-cased and trimmed, each once, at most twenty; only blank ones and a twenty-first are left out |
| `MemoryLog.ReplayUnique` | src/agents/tools/memory-tools.ts:565-618 | no two live entries share an id |
| `MemoryLog.LiveIff` | src/agents/tools/memory-tools.ts:565-618 | an entry is live if and only if some line wrote it and no later line writes or deletes its id |
| `MemoryLog.LiveOrder` | src/agents/tools/memory-tools.ts:565-618 | the live entries stand in the order of their last writes |
| `MemoryLog.LoadStoreEntries` | src/agents/tools/memory-tools.ts:565-618 | the backward scan with its deleted and seen sets returns forward replay; bounded by n, the last n of it |
| `MemoryLog.FindStoreEntryById` | src/agents/tools/memory-tools.ts:728-762 | looking up one id from the end agrees with loading the store, scope included |
| `MemoryLog.ReplayAfter` | src/agents/tools/memory-tools.ts:565-618 | what later lines do depends on a log only through its live entries |
| `MemoryLog.CompactionPreserves` | src/agents/tools/memory-tools.ts:2094-2143 | compaction keeps loading and every lookup, also after any later lines; twice equals once; lines never grow |
| `MemoryLog.Compact` | src/agents/tools/memory-tools.ts:2094-2143 | the compaction step with its line counts; a dry run leaves the log |
| `MemoryQuota.PickVictimLeast` | src/agents/tools/memory-tools.ts:642-680 | the victim is a least entry of the policy's order |
| `MemoryEffects.WeakerFirst` | src/agents/tools/memory-tools.ts:642-680 | the weaker and staler of two entries is evicted first; under the oldest-first policy only the time of update counts |
| `MemoryEffects.LowWeights` | src/agents/tools/memory-tools.ts:642-656 | how importance, confidence, reinforcement and tier weigh against each other when age is ignored |
| `MemoryEffects.StaleWeights` | src/agents/tools/memory-tools.ts:642-680 | and when it is not |
| `MemoryEffects.AgeWeights` | src/agents/tools/memory-tools.ts:658-680 | a day since the update weighs two, a day since the last access three, and a step of importance 120 of these; an update time that cannot be read counts as no age, such an access time as the update's |
| `MemoryQuota.EnforceNamespaceQuota` | src/agents/tools/memory-tools.ts:682-726 | the loop, with its running byte total, evicts `Evicted` and appends their delete markers |
| `MemoryQuota.EvictedFacts` | src/agents/tools/memory-tools.ts:682-726 | evicted and remaining entries add up in number and bytes; no protected id goes; what is still over quota is protected |
| `MemoryEffects.EvictedNeeded` | src/agents/tools/memory-tools.ts:682-726 | as long as eviction goes on a limit is exceeded, and what goes next is unprotected with nothing unprotected before it |
| `MemoryQuota.EnforcedFacts` | src/agents/tools/memory-tools.ts:682-726 | the same on the log after replay, and other namespaces are untouched |
| `MemoryQuota.QuotaAfterSave` | src/agents/tools/memory-tools.ts:682-726 | the namespace holds at most maxEntries entries, and at most maxBytes bytes unless only the saved entry is left |
| `MemoryOps.PutTitles` | src/agents/tools/memory-tools.ts:783-791 | an appended entry keeps titles unique if and only if no other live entry has its title |
| `MemoryRetention.PruneFacts` | src/agents/tools/memory-tools.ts:1812-1848 | after a prune its scope holds at most the given number of entries and none too old; nothing outside the scope goes; what went for being too many is no newer than anything kept |
| `MemoryEffects.PruneRemoves` | src/agents/tools/memory-tools.ts:1812-1848 | a prune removes the visible entries that are too old and those with as many newer visible ones as may be kept, and nothing that has fewer ahead of it, ties included |
| `MemoryEffects.CriteriaClamped` | src/agents/tools/memory-tools.ts:1806-1813 | one of the two limits must be given; each is a whole number between its bounds |
| `MemoryOps.SaveReplay` | src/agents/tools/memory-tools.ts:1485-1572 | what a save leaves live: the old entries but the replaced and the evicted, and the saved one |
| `MemoryOps.SaveKeepsTitles` | src/agents/tools/memory-tools.ts:1223-1254 | a save keeps at most one live entry per namespace and non-empty title key when it updates, or when it replaces whatever else has its title |
| `MemoryOps.SaveTitlesIff` | src/agents/tools/memory-tools.ts:1485-1572 | a save, eviction included, leaves titles unique if and only if every other live entry of its title is replaced by it or evicted after it |
| `MemoryOps.ReplaceCanDuplicate` | src/agents/tools/memory-tools.ts:1511-1572 | two notes on an editor: saving the first again in replace mode deletes the second as a conflict and leaves the first beside the new entry of the same title |
| `MemoryOps.UpsertNeverLowers` | src/agents/tools/memory-tools.ts:1511-1572 | an upsert keeps id and namespace and never lowers trust tier or importance |
| `MemoryFields.RefusedIff` | src/agents/tools/memory-tools.ts:1485-1508 | a save is refused if and only if its title or content is blank, it looks like a secret, or its conflict strategy, in any case, is neither upsert nor replace |
| `MemoryFields.TitleKeyIsRuns` | src/agents/tools/memory-tools.ts:352-357 | a title's key is its runs of letters and digits, in lower case, with one space between them |
| `MemoryFields.ReplacesIff` | src/agents/tools/memory-tools.ts:1514-1530 | a save replaces if and only if it asks to and a live entry of its namespace is in conflict |
| `MemoryFields.PickIff` | src/agents/tools/memory-tools.ts:1223-1254 | a save updates the first entry with the title's key, or, if none has it, the first of the greatest similarity if that is at least 0.72; none for an empty key |
| `MemoryFields.MergeHoldsBoth` | src/agents/tools/memory-tools.ts:433-452 | merged content holds both texts, is one of them if that one holds the other, and else is the old text, a dated note and the new text |
| `MemoryFields.SaveWritesNew` | src/agents/tools/memory-tools.ts:1511-1566 | a save that replaces or has nothing to update leaves live a new entry whose fields are the normalised arguments |
| `MemoryFields.SaveMerges` | src/agents/tools/memory-tools.ts:1547-1566 | any other save leaves live the entry it updates: contents and tags merged, the greater importance and tier, the times of creation and access kept |
| `MemoryOps.SaveWithinQuota` | src/agents/tools/memory-tools.ts:1566-1572 | after every save its namespace is within the limits, up to the saved entry alone |
| `MemoryOps.StepKeepsTitles` | src/agents/tools/memory-tools.ts:1387-1403 | every recall, feedback, delete, prune, compaction and such save keeps titles unique |
| `MemoryOps.RunKeepsTitles` | src/agents/tools/memory-tools.ts:1466-1602 | so does every run of them |
| `MemoryOps.RunFromEmpty` | src/agents/tools/memory-tools.ts:1466-1602 | from the empty log, every such run has at most one live entry per namespace and title key |
| `MemoryOps.RunMore` | src/agents/tools/memory-tools.ts:1466-1602 | a run is its steps, one after the other |
| `MemoryOps.MemoryFile.SaveEntry` | src/agents/tools/memory-tools.ts:1485-1572 | refusal (no title, no content, unknown conflict strategy, a likely secret), conflict deletion, upsert, append and quota, as one step of the log |
| `MemoryOps.MemoryFile.Recall` | src/agents/tools/memory-tools.ts:1387-1403 | the entry found in scope, appended again reinforced when asked |
| `MemoryEffects.RecallReinforces` | src/agents/tools/memory-tools.ts:1387-1403 | a reinforcing recall adds one to the count and 0.02 to the confidence, within bounds, and touches no other entry; without it nothing is written |
| `MemoryOps.MemoryFile.Feedback` | src/agents/tools/memory-tools.ts:2046-2064 | the entry's counters, importance and confidence move within their bounds |
| `MemoryEffects.FeedbackMoves` | src/agents/tools/memory-tools.ts:2046-2064 | useful feedback raises importance, count and confidence by its weight, other feedback lowers them, within their bounds; no other field but two timestamps and no other entry changes |
| `MemoryEffects.NothingToTouch` | src/agents/tools/memory-tools.ts:2040-2043 | without a visible entry of the id the log stays |
| `MemoryOps.TitleNamesOne` | src/agents/tools/memory-tools.ts:764-781 | while titles are unique, a delete by title finds the only entry of that title in its scope |
| `MemoryOps.MemoryFile.Delete` | src/agents/tools/memory-tools.ts:1617-1657 | by id or reference, else by title: a marker for the entry found in scope; refused for a file reference, for nothing named, or nothing found |
| `MemoryEffects.FoundIff` | src/agents/tools/memory-tools.ts:620-636 | a lookup finds the live entry of the id if it is in the namespace and trusted enough, and nothing else |
| `MemoryEffects.DeleteById` | src/agents/tools/memory-tools.ts:1640-1657 | a delete by id removes that entry and no other |
| `MemoryEffects.DeleteByTitle` | src/agents/tools/memory-tools.ts:764-781 | a delete by title removes the visible entry of the title updated last, the first in the list of several, or nothing if there is none |
| `MemoryEffects.RefsComeBack` | src/agents/tools/memory-tools.ts:1617-1640 | the references the tools hand out name the entry again; file references name none |
| `MemoryOps.MemoryFile.Prune` | src/agents/tools/memory-tools.ts:1804-1848 | with some criterion, markers for the entries beyond the count or the age; a dry run only counts them |
| `MemoryOps.MemoryFile.CompactFile` | src/agents/tools/memory-tools.ts:2094-2143 | the log becomes the live entries in order; a dry run leaves it |
| `Similarity.EmbedTokens` | src/agents/tools/memory-tools.ts:370-385 | the vector counts, per bucket, the non-empty tokens hashed to it |
| `Similarity.FnvVectors` | src/agents/tools/memory-tools.ts:374-382 | the hash has the published FNV-1a test values, and a negative one is bucketed by its absolute value |
| `Similarity.EveryTokenCounted` | src/agents/tools/memory-tools.ts:370-385 | every non-empty token is counted in exactly one of the 128 buckets |
| `Similarity.CosineParts` | src/agents/tools/memory-tools.ts:387-410 | the sums over one map's entries, in any order, are the dense 128-bucket dot product and norms |
| `Similarity.CauchySchwarz` | src/agents/tools/memory-tools.ts:387-410 | the dot product squared is at most the product of the squared norms |
| `Similarity.CosineInUnit` | src/agents/tools/memory-tools.ts:976-978 | the similarity lies in [0, 1] and is symmetric; the rounded bonus lies in 0..30 |
| `Similarity.CosineSelf` | src/agents/tools/memory-tools.ts:387-410 | a non-empty vector is fully similar to itself |
| `Similarity.SimilarIffShared` | src/agents/tools/memory-tools.ts:387-410 | two vectors are similar at all if and only if they share a bucket |
| `Similarity.RoundNearest` | src/agents/tools/memory-tools.ts:976-978 | rounding goes to the nearest whole number, up from the middle |
| `ShellLexer.SplitShellSegments` | src/agents/self-protection.ts:75-132 | the character loop computes the trimmed, non-empty segments |
| `ShellLexer.SegmentsCut` | src/agents/self-protection.ts:75-132 | segments and separators woven together give the command back; every separator stands outside quotes and escapes, and no segment holds another break |
| `ShellLexer.CutIsSegments` | src/agents/self-protection.ts:75-132 | conversely, any such way of writing a command is the segmenter's |
| `ShellLexer.TokenizeShell` | src/agents/self-protection.ts:134-186 | the character loop computes the tokens of the lexer's steps |
| `ShellQuoting.PartsRead` | src/agents/self-protection.ts:75-186 | a segment written by the grammar of blanks, bare and escaped characters and single- and double-quoted stretches is read as its words, ends outside quotes and holds no break |
| `ShellQuoting.CommandRead` | src/agents/self-protection.ts:75-186 | a command put together from such segments and separators is cut where it was put together and read as the words of each |
| `ShellQuoting.EverySegment` | src/agents/self-protection.ts:75-186 | every text without a break that ends outside quotes and escapes is written by the grammar |
| `ShellQuoting.EveryCommand` | src/agents/self-protection.ts:75-186 | so is every command whose last segment closes its quotes: the grammar says what the lexers read for it |
| `ShellLexer.SegmentsThenTokens` | src/agents/self-protection.ts:75-186 | tokenizing the raw segments equals one lexer pass over the whole command |
| `ShellLexer.TrimKeepsTokensIff` | src/agents/self-protection.ts:107-129 | trimming a segment keeps its tokens if and only if the trimmed blanks are neither escaped nor inside an open quote; otherwise characters are lost |
| `ShellLexer.SplitThenTokenizeIff` | src/agents/self-protection.ts:75-186 | the two lexers agree with one pass, up to empty token lists, if and only if every segment ends so |
| `ShellLexer.EscapedBlankLost` | src/agents/self-protection.ts:107-129 | a command ending in an escaped blank on which they do not |
| `ShellLexer.QuotedBlankLost` | src/agents/self-protection.ts:107-129 | one ending in a blank inside an open quote |
| `ShellLexer.TokenCharsBounded` | src/agents/self-protection.ts:134-186 | tokens hold no more characters than their segment |
| `ShellGuard.FindCommandTokenIndex` | src/agents/self-protection.ts:192-222 | the loops find the command word |
| `ShellGuard.CommandIndexSkipsPrefix` | src/agents/self-protection.ts:192-222 | only assignments, flags, `env` and `sudo` stand in front of the command word, which is no assignment |
| `ShellBlocking.CommandWord` | src/agents/self-protection.ts:188-222 | behind assignments, `env` with its flags and assignments, and `sudo` with its flags and then assignments, the command word is the next one |
| `ShellBlocking.NameOf` | src/agents/self-protection.ts:407 | the command's name is the last part of its path in lower case, slashes at the end not counted |
| `ShellGuard.ScriptShorter` | src/agents/self-protection.ts:452-466 | an inline script is strictly shorter than its segment, so the recursion ends |
| `ShellGuard.AssertSegmentAllowed` | src/agents/self-protection.ts:397-466 | decides `SegmentAllowed`: power control, inline scripts, then the path rule |
| `ShellGuard.AssertExecCommandAllowed` | src/agents/self-protection.ts:562-575 | decides `Allowed` |
| `ShellGuard.AllowedIffEveryRun` | src/agents/self-protection.ts:397-575 | a command is allowed if and only if every segment it runs, at any depth of inline scripts, passes the checks |
| `ShellBlocking.OwnCheck` | src/agents/self-protection.ts:407-466 | a segment's own words pass if and only if they do not stop the machine and, unless the command is bash, sh or zsh, the path rule accepts them |
| `ShellBlocking.PowerIsBlocked` | src/agents/self-protection.ts:407-436 | a command one of whose segments stops, restarts or suspends the machine is blocked, however it is quoted, whatever its path and prefix |
| `ShellBlocking.ScriptIsChecked` | src/agents/self-protection.ts:452-466 | a shell handed a script with -c or -lc that is not allowed is not allowed |
| `ShellGuard.SplitVisible` | src/agents/self-protection.ts:75-132 | a blank at the end of a command changes no segment |
| `ShellGuard.WrapOnce` | src/agents/self-protection.ts:452-466 | handing any command to `bash -c` as one escaped word changes nothing |
| `ShellGuard.NestingIsTransparent` | src/agents/self-protection.ts:452-466 | nor does doing so any number of times |
| `OutputBuffers.LastNAppend` | src/agents/bash-process-registry.ts:252-257 | capping as text comes equals capping the whole |
| `OutputBuffers.CapPendingBuffer` | src/agents/bash-process-registry.ts:230-250 | the chunk loop leaves the last cap characters, with an exact counter |
| `OutputBuffers.Enqueue` | src/agents/bash-process-registry.ts:104-125 | one queued chunk: the last cap characters of queue and chunk, and whether any were cut |
| `OutputBuffers.ProcessSession.AppendOutput` | src/agents/bash-process-registry.ts:104-132 | every field stays what the history of appends and drains says: pending text, counters, total, aggregate, tail and truncated flag |
| `OutputBuffers.ProcessSession.DrainSession` | src/agents/bash-process-registry.ts:134-142 | hands out the pending text of both streams and empties them |
| `OutputBuffers.NothingLostIff` | src/agents/bash-process-registry.ts:104-142 | drained plus pending text is a stream's whole output if and only if its queue never overflowed |
| `OutputBuffers.UntruncatedLosesNothing` | src/agents/bash-process-registry.ts:104-142 | while the flag is down, drained plus pending is the whole output and the aggregate is complete |
| `OutputBuffers.TruncatedIffLost` | src/agents/bash-process-registry.ts:104-132 | the flag is up if and only if something was lost, of a stream or of the aggregate |
| `OutputBuffers.ProcessSession.PendingCap` | src/agents/bash-process-registry.ts:111-114 | the smaller of the two limits, 30000 characters when none is given for what is pending |
| `OutputBuffers.EverythingSplits` | src/agents/bash-process-registry.ts:104-132 | the total is the sum of both streams |
| `MailReader.BufferedSocket.Receive` | src/agents/tools/email-tool.ts:242-271 | the event callbacks append data and raise the ended and failed flags |
| `MailReader.BufferedSocket.WaitForData` | src/agents/tools/email-tool.ts:273-290 | returns at once when it can; else takes what arrives, and fails on timeout or error |
| `MailReader.BufferedSocket.ReadLine` | src/agents/tools/email-tool.ts:298-320 | the loop answers as the step function `Do` on a line |
| `MailReader.BufferedSocket.ReadBytes` | src/agents/tools/email-tool.ts:322-336 | the loop answers as the step function `Do` on a byte count |
| `MailReader.ReadsAndBreaks` | src/agents/tools/email-tool.ts:273-336 | a read is answered from the buffer if that holds a whole line or enough bytes; if not, it breaks on a failed connection and on silence, and the buffer stays |
| `MailReader.ReadsAtEnd` | src/agents/tools/email-tool.ts:298-336 | at the end of the stream the rest is the last line, and a short count is closed |
| `MailReader.OpRefines` | src/agents/tools/email-tool.ts:273-336 | whatever the chunking, a read gives what the unchunked stream gives, or breaks and takes nothing |
| `MailReader.RunRefines` | src/agents/tools/email-tool.ts:236-336 | over every run of reads, those that did not break answer as the unchunked stream does |
| `MailReader.RunClean` | src/agents/tools/email-tool.ts:236-336 | no read breaks when every wait is answered, nothing errs and the stream ends |
| `MailReader.ChunkingInvisible` | src/agents/tools/email-tool.ts:236-336 | two such networks carrying the same bytes give the same answers to every run |
| `MailReader.OpConserves` | src/agents/tools/email-tool.ts:298-336 | for one read, bytes taken plus bytes buffered are the bytes received |
| `MailReader.RunConserves` | src/agents/tools/email-tool.ts:236-336 | and so they are over every run |
| `SmtpTransparency.SplitNormalisedIsLines` | src/agents/tools/email-tool.ts:715-721 | the split finds exactly the body's lines, and none holds a line feed |
| `SmtpTransparency.SplitJoin` | src/agents/tools/email-tool.ts:715-721 | joining lines without CRLF and splitting again gives the lines |
| `SmtpTransparency.NoLoneDot` | src/agents/tools/email-tool.ts:715-721 | no line of the stuffed text is a single dot |
| `SmtpTransparency.TransparencyRoundTrip` | src/agents/tools/email-tool.ts:691-721 | for every body and whatever follows, the receiver of section 4.5.2 of RFC 5321 stops at the client's terminator and recovers the CRLF-normalised body |
| `SmtpTransparency.NormaliseIdempotent` | src/agents/tools/email-tool.ts:715-721 | normalising line breaks twice equals once |
| `CheckoutGate.CheckoutWorkflow.BeginTurn` | src/agents/checkout-workflow.ts:152-180 | a turn cancels, confirms or neither, cancelling first; the state is that of the longer history |
| `CheckoutGate.CheckoutWorkflow.Enforce` | src/agents/checkout-workflow.ts:182-213 | a risky call is let through if and only if the history authorises it |
| `CheckoutGate.GateSound` | src/agents/checkout-workflow.ts:152-213 | for every history of all sessions and every clock, the stored deadline is open if and only if some turn confirmed, none decided since, and it never ran out on the way |
| `CheckoutGate.TurnDecides` | src/agents/checkout-workflow.ts:152-180 | a cancelling message shuts the gate, a confirming one opens it for five minutes, one that is blank or neither changes nothing |
| `CheckoutGate.ChecksDecideNothing` | src/agents/checkout-workflow.ts:182-213 | checks and other sessions change nothing |
| `CheckoutGate.PendingIffRefused` | src/agents/checkout-workflow.ts:195-213 | the action waiting for a confirmation is the purchase last refused, with no decision and no purchase of the session since |
| `CheckoutGate.AuthorisedIffRecentConfirm` | src/agents/checkout-workflow.ts:152-213 | with a clock that does not run backwards: if and only if the session's latest confirm-or-cancel turn is a confirm under five minutes old |
| `CheckoutGate.SessionsAreIndependent` | src/agents/checkout-workflow.ts:42-53 | a session's state is that of its own events, however those of other sessions are interleaved |
| `AgentLoop.RegisterCompletionVerificationSignal` | src/provider/run.ts:3335-3355 | the flags and the prompt marker after one call |
| `AgentLoop.SignalsMeaning` | src/provider/run.ts:3332-3355 | verification is needed if and only if the request needs it or a mutating call succeeded; it is satisfied if and only if it is not needed or a verifying call succeeded at or after the last mutating one |
| `AgentLoop.LawfulMeaning` | src/provider/run.ts:3848-4070 | every purchase carried out was authorised by a history that includes this turn; no call of the model follows a blocked one, or a third counted failure in a row in compact mode |
| `AgentLoop.StreakIsTrailingIff` | src/provider/run.ts:3996-4056 | the compact guard's streak is never below the model's failures in a row, and equals their number if and only if no login that asked for a code lies behind a failure it still counts |
| `AgentLoop.StreakSpansLogin` | src/provider/run.ts:4000-4056 | two failures, a login that asks for a code, a failure: the streak is three, the failures in a row are one |
| `AgentLoop.TimelyPurchases` | src/provider/run.ts:3858-3906 | if no event comes earlier than those before it, then before every purchase the model's calls carried out the session's latest confirm-or-cancel turn is a confirm under five minutes old |
| `AgentLoop.Record` | src/provider/run.ts:3962-4056 | one call's outcome, signal and failure streak keep the turn's invariant, and the verification prompt counts as sent until a mutating call succeeds |
| `AgentLoop.Perform` | src/provider/run.ts:3858-3971 | check at the gate, run if allowed, record: outcome, time and history of the step are the oracle's, and the screenshots taken after it follow |
| `AgentLoop.ToldAt` | src/provider/run.ts:3858-3971 | step by step, an executed call of the model has the outcome its tool gave and the time of its check, and every other step of the rounds is a screenshot taken after a call |
| `AgentLoop.LinesMeaning` | src/provider/run.ts:3995-4048 | a call leaves its result in the transcript if and only if it is no login, failed, or needs no code; a login that needs one leaves an instruction or nothing |
| `AgentLoop.Leave` | src/provider/run.ts:3980-4060 | the lines, the login state, who waits and whether the round stops, after one call |
| `AgentLoop.ExecuteCalls` | src/provider/run.ts:3848-4060 | the calls of a reply are made in order, up to the first that asks for a code, is blocked, or completes the failure streak; the transcript gains exactly the lines of their outcomes |
| `AgentLoop.FollowUp` | src/provider/run.ts:3742-3846 | after a reply without calls the first prompt that is due is sent, and the rounds end if and only if none is |
| `AgentLoop.NoneDueIff` | src/provider/run.ts:3742-3846 | when none is: the answer is grounded or was asked for twice, asks for nothing that is saved, is verified or was asked to be, is not empty or was asked for, and no tool use or recovery is outstanding |
| `AgentLoop.Rounds` | src/provider/run.ts:3704-4070 | at most maxToolRounds requests, with the invariant kept; fewer only if the provider threw, somebody waits, the calls were stopped, or the model is done; the transcript is, round by round, the provider's replies with what their calls left or one prompt, each asked for only while nobody waits for a code and nothing has stopped the calls |
| `AgentLoop.RetryLogin` | src/provider/run.ts:4072-4103 | after the rounds a login is tried once more if and only if a code is expected that was never requested and nobody waits; what that does to trace, login state and waiting |
| `AgentLoop.FinalRequest` | src/provider/run.ts:4117-4136 | one more request if and only if tools ran, nobody waits for a code, and the model said nothing |
| `AgentLoop.Conclude` | src/provider/run.ts:4153-4262 | the model's own text is shown if and only if none of the overrides applies; each notice is shown exactly under its own condition |
| `AgentLoop.TrustworthyIf` | src/provider/run.ts:4232-4262 | an open turn without outstanding verification has every call executed, some success if any, and a verifying call at or after the last mutating one |
| `AgentLoop.TrustworthyProven` | src/provider/run.ts:3335-3355 | the same said of what the tools answered instead of what was recorded |
| `AgentLoop.RunTurn` | src/provider/run.ts:3699-4262 | over every provider, tool, clock and interleaving of other turns: at most maxToolRounds + 1 requests, every model call lawful, every purchase recently confirmed if the clock goes forward, every tool result the answer to the next call of the latest reply, at most one verification prompt more than mutations; the trace is what the tools answered and the transcript what provider and tools said, with bounded prompts; the model's own text is the last the provider gave, shown only after a trace that the tools' own answers prove |
| `TurnTranscript.TurnSurvivesSanitizing` | src/provider/run.ts:4024-4048 | for a turn whose replies are no errors and whose calls have names and ids used once, sanitizing what the loop wrote drops no message and only moves the instructions written between results behind them |
| `TurnTranscript.TurnThenSanitize` | src/provider/session.ts:56-72 | the same for every run of a turn followed by the proved sanitizer |

## Left out

- Characters are Dafny `char`, not UTF-16 units or UTF-8 bytes; mail bytes are characters too. Lower-casing is that of ASCII letters.
- JSON text, files, permissions and paths: a file is a variable, JSON encoding is the identity, and each memory log line is one element.
- The `$` patterns of JavaScript's `replace`: the replacement of a first-match edit is arbitrary text.
- Editable regions are proved for every marker pair without line breaks whose END does not overlap itself; the code's pair is one.
- sha1 is an arbitrary function to text of the asked length. For `strict9` ids only format and stability are proved, because its search gives no distinctness.
- The timestamp fallbacks of `makeUniqueToolCallId` are not compared with used ids in the code; one timestamp per pass.
- Timestamps of synthetic tool results are dropped. The duplicate counter of the repair report is modelled, but no law says what it counts.
- Text classifiers are parameters: conflict and secret detection, text similarity, checkout phrases and risk, mutation and verification of tool calls, identity and login intents.
- Times of memory entries that cannot be read count as 0; the code's delete by title compares them as not-a-number.
- The similarity is exact arithmetic over reals with exact roots, without floating-point rounding. Tokenizing and canonical tokens are not modelled.
- The exec guard's git, find, mv, delete, cmd and PowerShell rules on paths and arguments are one parameter, `Policy.rule`; home expansion and real paths are not modelled.
- MailReader.Valid: a script in which data follows the end or an error is excluded, as sockets do not deliver data then. One reader waits at a time. `consumeOptionalCrlf` looks only at what has arrived and is not modelled.
- The IMAP and SMTP dialogues above the reader, and the MIME message builder.
- The registry of process sessions, its sweeper, and caps that change while a process runs.
- AgentLoop: progress events, tool timeouts (they are failed outcomes), context building, the list of tools offered, the text of notices, and auto-saving memory at the end. Calls the runtime makes before the rounds are an arbitrary list.
- Dashboard, Telegram, terminal UI, onboarding, OAuth, vault and provider clients: input and output.
- Web ranking, formatters, tool-policy filters and configuration normalisers: easy or without a clean law.
