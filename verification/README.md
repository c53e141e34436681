# A model of the ADW workflow core

This project models, in Dafny, the deterministic core of the AI Developer Workflow: the code that has to keep a promise over
every input or every run. Agents, forges, host commands, processes and clocks are answers from outside. They are parameters,
sequences of answers, or free choices, and every theorem holds for all of them. Code that changes state step by step is an
imperative method proved against a function, and what the code promises is proved about that function, over any input or any
sequence of steps.

| module | what it models |
|---|---|
| `StreamParser`, `AgentHandler` | the incremental parser of an agent's output, the latches on top of it, and the outcome at `close` |
| `AgentReport` | what that outcome says, field by field, told from the lines the agent printed |
| `Globs`, `GlobMeaning` | glob matching through the compiled pattern, and what each wildcard stands for |
| `DocsGuards`, `DocsFlags` | the cheap overlap test of the living-docs index, and the couples of entries the regrowth check flags |
| `DocsRegistry`, `DocsText` | reading and printing the index, and what its text means line by line |
| `DocsRepairs`, `DocsMerging`, `DocsOverlap`, `DocsReportOrder` | repairing and merging its entries, the overlap report, and the order of what is reported |
| `DeviceLifecycle`, `DeviceLoops` | an emulator and a simulator for one workflow: both boot loops, the work and the teardown as one interleaved machine, and each loop as it is written |
| `DeviceReadiness` | when a device counts as booted, and what has been answered by the time the work begins or a boot has failed |
| `ConsolePorts`, `AdwIds` | the emulator's ports, and the names of ids and devices |
| `FixRoundGuard`, `FixRoundVerdict` | the count of suppressions and the verdict on a fix round, and both in terms of the lines as they are written |
| `RateLimitWait`, `PhaseRunner`, `PhaseHistory`, `PhaseOutcomes` | rate-limit waits, one call of the phase runner, any history of calls, crashes and restarts, and how one call ends |
| `Upgrade`, `UpgradeRuns`, `UpgradeBounds`, `UpgradeOutcomes` | one run of the upgrade orchestrator, any sequence of runs on one forge, what its failure cap bounds, and how one run ends |
| `Merge`, `MergeVerdicts` | one tick of the merge orchestrator, any sequence of ticks, and which answers lead to which stage |
| `RetryOrchestrator`, `CommandAgent`, `RemoteReconcile` | bounded loops over answers, with exact accounting |
| `PromotionTags`, `PromotionWriting`, `PromotionText` | promotion markers in a feature file: reading and writing them, what writing promises for any date, and what counts as a tag, a marker and a feature line |
| `JsStrings` | splitting, joining, trimming and tokens, as the strings of the source behave |

`dafny verify dfyconfig.toml` checks the whole project.

## Where the code differs from its comments, or from what one would expect

The model follows the code. Each of these is proved, most of them as an exact condition.

- A persisted `completed` phase entry is final if and only if none of three things happens (`PhaseHistory.CompletedIsFinalIff`).
  Recording the completed phase for old readers throws, and the error path marks it as failed over the entry
  (`PhaseHistory.RecordingErrorReopensThePhase`). The test for a completed phase cannot read the state, no list names the phase
  either, and it is marked as running (`PhaseHistory.UnreadTestRunsThePhaseAgain`). Or a write of another phase cannot read the state and
  starts from an empty one (`PhaseHistory.BlindWriteDropsTheOthers`).
- The deep merge of a phase entry keeps fields that a write does not mention, so a phase that timed out once and completes later
  still carries the timeout as its failure reason (`PhaseHistory.CompletedEntryKeepsAnOldReason`).
- The comment on the promotion serializer (`adws/core/promotionTagState.ts:79-86`) promises that writing twice is writing once for any
  date. That holds if and only if every token the marker's text adds is itself a marker and the text does not end in an empty line
  (`PromotionWriting.WritingIsIdempotentIff`). For a date without spaces this says that the date is well formed
  (`PromotionWriting.SettlesIffWellDated`); spaces behind a well-formed date do no harm, newlines do
  (`PromotionWriting.SpaceBehindADate`).
- The overlap report lists each shared file once if and only if no file has three owners with a doc among them twice
  (`DocsOverlap.ListsEachFileOnceIff`); otherwise it names a file once per couple of owners
  (`DocsOverlap.DuplicateEntryListsAFileTwice`).
- A repaired index reads as canonical unless no entry survives and the text above the entries is blank but not empty
  (`DocsRepairs.ReassessmentOfRepairedText`, `DocsRepairs.LoneDanglingEntryStaysNonCanonical`).
- An id made with an empty random part, which `Math.random()` returning 0 gives, does not have the recognised shape, so its device
  is not recognised as one of ours (`AdwIds.GeneratedIdHasShape`, `AdwIds.EmptyRandomPartIsNotRecognised`).
- An agent that exits with code 0 is never reported as logged out, whatever its output signalled
  (`AgentHandler.OutcomeTellsWhatTheTextSaid`), and what it printed behind its last newline is not read, a final result included
  (`AgentHandler.UnendedTailIsIgnored`).
- The upgrade's failure cap bounds the failures behind it if and only if the account that posts the comments has a name that ends
  in `[bot]` and no run misses the comments (`UpgradeBounds.CapHoldsIff`). Reading them is fail-open: an error reads as no comments
  (`adws/adwUpgrade.tsx:476-482`), so a run at the cap goes on, starts the agent and may fail once more
  (`UpgradeBounds.MissedCommentsPassTheCap`). At the cap and beyond it a run fails in exactly two ways, this one and a hash that
  cannot be computed (`UpgradeBounds.FailsAtTheCapIff`), the latter any number of times (`UpgradeBounds.HashErrorsAreNotCapped`).
- An agent run of the upgrade is counted if and only if a bot posts and the run ends as failed, or dies right after posting that it
  did (`UpgradeBounds.AgentRunIsCountedIff`). Runs whose agent throws, that lose their claim or that cannot comment are not counted, and
  may repeat without bound (`UpgradeBounds.SilentRunsAreNotCapped`, `UpgradeBounds.AnAgentMayThrow`, `UpgradeBounds.AClaimMayBeLost`).
- The terminal label stops an issue for good if and only if no run misses the labels, which are read fail-open as well
  (`UpgradeRuns.LabelIsTerminalIff`), and a claim with a standing pull request is not built again if and only if no run misses the
  pull request (`UpgradeBounds.ClaimIsBuiltOnceIff`).
- The overlap test of two globs is only a bound. It agrees with matching if and only if it does not call two globs overlapping whose
  compiled patterns cannot meet (`DocsGuards.OverlapIsExactIff`), which `a` and `a/b` cannot (`DocsGuards.OverlapIsNotExact`).
- A simulator whose creation succeeds without a readable UDID is never deleted: the attempt fails with nothing to tear down
  (`adws/core/deviceBringUp.ts:180-182`).
- A completed workflow stays completed over a run of merge ticks if and only if none of them both reads and writes its state: one that
  does abandons it, for good (`Merge.CompletedStaysIff`, `Merge.LeftStageIsKeptIff`).

## Model

| member | source | states |
|---|---|---|
| StreamParser.ChunkIndependence | adws/core/claudeStreamParser.ts:211-299 | however a text is cut into chunks, empty ones included, the facts, the callbacks and the buffer are those of one call on the whole text |
| StreamParser.FlagsMeanSignals | adws/core/claudeStreamParser.ts:152-209 | a detection flag is up exactly when it was up before or some complete line raised it, so none is ever lowered |
| StreamParser.LineRaisesExactly | adws/core/claudeStreamParser.ts:152-209 | which line raises which flag, for every kind of message |
| StreamParser.LastRejectedEventWins | adws/core/claudeStreamParser.ts:161-179 | the reset time is that of the last rejected event that carries one |
| StreamParser.TurnsAndToolsAreCounted | adws/core/claudeStreamParser.ts:226-299 | turns count the assistant lines, and every tool that is counted was reported |
| StreamParser.ParserState.ParseJsonlOutput | adws/core/claudeStreamParser.ts:211-299 | the field-by-field parser does what the fold over the complete lines says, unterminated tail included |
| StreamParser.ParserState.ReadLine | adws/core/claudeStreamParser.ts:224-299 | one line changes the fields as its message says; a malformed one goes into the output |
| StreamParser.ParserState.ApplyRateLimitEvent | adws/core/claudeStreamParser.ts:161-179 | a rejected event raises the flag and keeps known limits that it does not mention |
| StreamParser.ParserState.ApplyApiRetrySignal | adws/core/claudeStreamParser.ts:181-201 | a retry raises the flag of its signal; a server error and an unclassified one only from the second attempt on, the attempt being the number it compares as |
| StreamParser.ParserState.ApplyResultSignal | adws/core/claudeStreamParser.ts:203-209 | the status of a result raises the flag of its signal |
| StreamParser.ParserState.ReadAssistant | adws/core/claudeStreamParser.ts:226-299 | an assistant message counts a turn, adds its text and reports its tools |
| AgentHandler.LatchesMirrorTheParser | adws/agents/agentProcessHandler.ts:43-74 | after every `data` event of every run the latches equal the parser's flags, and the process was signalled once per latch |
| AgentHandler.OutcomeIsChunkIndependent | adws/agents/agentProcessHandler.ts:43-258 | two runs over the same text, however it arrived, end in the same state and resolve to the same result |
| AgentHandler.OutcomeTellsWhatTheTextSaid | adws/agents/agentProcessHandler.ts:102-258 | the priority of outcomes, traced back to the lines: a pause means some line signalled one, and an expired login is reported exactly when some line said so and nothing of higher rank applies |
| AgentHandler.OnlyCompleteLinesCount | adws/agents/agentProcessHandler.ts:43-258 | texts with the same complete lines give the same result |
| AgentHandler.UnendedTailIsIgnored | adws/agents/agentProcessHandler.ts:102-258 | what is printed behind the last newline changes nothing, since `close` does not read the buffer |
| AgentHandler.Handler.OnData | adws/agents/agentProcessHandler.ts:43-74 | the event handler does what the specification of a `data` event says |
| AgentHandler.Handler.LatchDetections | adws/agents/agentProcessHandler.ts:47-74 | each detection latches once and signals the process once |
| AgentHandler.Handler.OnClose | adws/agents/agentProcessHandler.ts:102-258 | the result is that of the specification, for every exit code and for an ending by a signal, and carries the count of denied tool calls |
| AgentReport.ResultIsWhatTheLinesSay | adws/agents/agentProcessHandler.ts:102-258 | for every text, cut anyhow: which result comes out, and each field of it, told from the complete lines, the exit code and the token limit alone. With code 0 and nothing of higher rank it is the last result line's: a success exactly when that is no error, its session, its text or all that was printed; and the denied calls and callbacks are those of the lines |
| AgentReport.LastResultWins | adws/core/claudeStreamParser.ts:258-261 | the result that counts is that of the last result line |
| AgentReport.OutputIsWhatTheLinesPrint | adws/core/claudeStreamParser.ts:226-299 | the output is the assistants' texts and the unreadable lines, in order; denied calls are counted on lines of their own and inside messages |
| AgentReport.CallbacksAreTheAssistants | adws/core/claudeStreamParser.ts:263-293 | the callbacks are those of the assistant lines in order: each tool with its number from the first line on and its turn, then the trimmed text |
| AgentReport.OneLineMore | adws/core/claudeStreamParser.ts:217-224 | a further line that its newline has ended is read, unless it is blank; one that is not ended is not |
| Globs.GlobToPieces | adws/core/conditionalDocsRegistry.ts:31-56 | the loop over the glob compiles it into the pattern of the recursive definition |
| Globs.MatchesIffCut | adws/core/conditionalDocsRegistry.ts:35-60 | the match succeeds exactly on strings that can be cut into one accepted word for each piece of the pattern |
| Globs.LiteralFront | adws/core/conditionalDocsRegistry.ts:31-60 | a path that matches begins with everything before the first wildcard |
| Globs.LiteralGlob | adws/core/conditionalDocsRegistry.ts:31-60 | a glob without a wildcard matches itself and nothing else |
| GlobMeaning.StarIff | adws/core/conditionalDocsRegistry.ts:44-46 | between two globs a star stands for a run without a slash, for every path |
| GlobMeaning.QuestionMarkIff | adws/core/conditionalDocsRegistry.ts:47-49 | a question mark stands for one character that is no slash |
| GlobMeaning.DoubleStarIff | adws/core/conditionalDocsRegistry.ts:40-43 | two stars stand for any run without a line terminator, slashes included |
| GlobMeaning.DoubleStarSlashIff | adws/core/conditionalDocsRegistry.ts:40-43 | a slash behind them is swallowed, so what lies in the directory itself matches too |
| GlobMeaning.OtherCharacterIff | adws/core/conditionalDocsRegistry.ts:31-54 | any other character stands for itself, and the empty glob for the empty path |
| GlobMeaning.GlobOfConcat | adws/core/conditionalDocsRegistry.ts:31-60 | a glob cut where no star joins another matches what its parts match, one behind the other |
| Globs.MeetIff | adws/core/conditionalDocsRegistry.ts:31-60 | a walk over two compiled globs finds out whether some path is matched by both, for any two globs |
| DocsGuards.OverlapIsSound | adws/core/docsGuards.ts:32-54 | whenever some path is matched by both globs, the syntactic test calls them overlapping |
| DocsGuards.RootIsPrefixOfMatch | adws/core/docsGuards.ts:32-47 | a path that a glob matches lies under its ownership root, segment by segment |
| DocsGuards.OverlapIsExactIff | adws/core/docsGuards.ts:32-54 | the syntactic test agrees with "some path is matched by both" if and only if the globs meet whenever it calls them overlapping |
| DocsGuards.OverlapIsNotExact | adws/core/docsGuards.ts:32-54 | the witness that it does not always: a directory and a file in it overlap and cannot meet |
| DocsGuards.OverlapIff | adws/core/docsGuards.ts:32-54 | two globs overlap for the test if and only if one has no root or they agree on every segment before the first wildcard of both |
| DocsGuards.LiteralOverlapIff | adws/core/docsGuards.ts:40-54 | without wildcards they overlap exactly when one is the other or lies under it at a slash |
| DocsGuards.FindPairOverlap | adws/core/docsGuards.ts:63-74 | finds the first overlapping pair of globs of two entries, or none when there is none |
| DocsGuards.CheckRegrowth | adws/core/docsGuards.ts:76-93 | the nested loops flag every overlapping couple of entries that own something, in order |
| DocsGuards.NoFlagsIffNoOverlap | adws/core/docsGuards.ts:76-93 | nothing is flagged exactly when no two entries overlap |
| DocsFlags.RegrowthIsFlaggedIff | adws/core/docsGuards.ts:63-93 | a flag is raised exactly for an entry and a later one whose globs overlap, with the first couple of their globs that does |
| DocsFlags.FlagsOfFirst | adws/core/docsGuards.ts:76-93 | flags come row by row: those of the first entry with each later one, then those of the others |
| DocsRegistry.ParseConditionalDocs | adws/core/conditionalDocsRegistry.ts:64-119 | the loop over the lines reads what the fold over the lines reads, blank content included |
| DocsRegistry.SerializeEntry | adws/core/conditionalDocsRegistry.ts:121-140 | an entry prints as its lines: `Conditions:` always, `Owns:` and `Decisions:` only when they have items |
| DocsRegistry.RoundTripIffCanonical | adws/core/conditionalDocsRegistry.ts:74-147 | a registry is read back as itself exactly when it is canonical |
| DocsRegistry.CanonicalRoundTrips | adws/core/conditionalDocsRegistry.ts:74-147 | in particular one with entries, newline-free fields and a newline-terminated preamble without entry lines |
| DocsRegistry.ParseIsCanonical | adws/core/conditionalDocsRegistry.ts:74-119 | whatever is read from any text is canonical |
| DocsRegistry.ParseSerializeParse | adws/core/conditionalDocsRegistry.ts:74-147 | reading, printing and reading again gives the first reading, for every text |
| DocsText.ParseIsByPlace | adws/core/conditionalDocsRegistry.ts:74-119 | for every text: the preamble is what stands above the first entry line, and each entry has the items that stand under each of its headings; other lines, and items under no heading, are passed over |
| DocsText.EntryInPrint | adws/core/conditionalDocsRegistry.ts:121-140 | an entry in print, character by character: path, `Owns:` and `Decisions:` only with items, `Conditions:` always, in this order |
| DocsText.RegistryInPrint | adws/core/conditionalDocsRegistry.ts:142-147 | a blank line between two entries and a newline behind the last; an empty index is its preamble |
| DocsRepairs.ApplyRepairs | adws/core/docsIndexHealth.ts:98-123 | the loops drop and prune exactly what the repairs name |
| DocsRepairs.FoundIffCalledFor | adws/core/docsIndexHealth.ts:69-96 | a repair is found exactly when some entry calls for it |
| DocsRepairs.RepairsLeaveSurvivors | adws/core/docsIndexHealth.ts:69-123 | applying what is found leaves the entries whose doc exists, in order, with their live globs |
| DocsRepairs.RepairsConverge | adws/core/docsIndexHealth.ts:69-123 | nothing is left to repair after one pass |
| DocsRepairs.OwnershipIsKept | adws/core/conditionalDocsRegistry.ts:161-170 | the owners of tracked files after the repair are the surviving owners of before, in order |
| DocsRepairs.ReassessmentOfRepairedText | adws/core/docsIndexHealth.ts:197-236 | assessing the printed repaired index finds nothing to repair, and finds it canonical except when no entry survives under a blank, non-empty preamble |
| DocsRepairs.LoneDanglingEntryStaysNonCanonical | adws/core/docsIndexHealth.ts:197-236 | an index that is one dangling entry is such a case |
| DocsMerging.UnionDistinct | adws/core/conditionalDocsRegistry.ts:172-184 | the union holds each item of the lists once, at its first place |
| DocsMerging.DistinctHasTheSame | adws/core/conditionalDocsRegistry.ts:172-184 | it has the items of the lists and no other, and none twice |
| DocsMerging.CollapseEntries | adws/core/conditionalDocsRegistry.ts:186-222 | the merged entry replaces the first collapsed one, the others keep their order, and the pruned paths are those asked for but the merged one; nothing changes when nothing is collapsed |
| DocsMerging.KeepWith | adws/core/conditionalDocsRegistry.ts:205-218 | the loop with its `inserted` flag puts the merged entry in once, in the place of the first collapsed one |
| DocsMerging.MergedOwnsIff | adws/core/conditionalDocsRegistry.ts:186-222 | the merged entry owns a file exactly when one of the merged entries did |
| DocsMerging.MergedHasTheirDecisions | adws/core/conditionalDocsRegistry.ts:186-204 | the merged entry has the path and conditions given, and a decision exactly when one of the merged entries had it |
| DocsMerging.DistinctKeepsOrder | adws/core/conditionalDocsRegistry.ts:172-184 | items kept once stand in the order of their first places |
| DocsMerging.OwnersAfterCollapse | adws/core/conditionalDocsRegistry.ts:161-222 | the owners of any files are those of before, with the merged entry standing for the collapsed ones |
| DocsMerging.CollapseIsIdempotent | adws/core/conditionalDocsRegistry.ts:186-222 | collapsing again changes nothing |
| DocsMerging.CollapsedIndexReadsBackIff | adws/core/conditionalDocsRegistry.ts:121-222 | a collapsed canonical index reads back as itself if and only if nothing was collapsed or the merged path and conditions hold no newline |
| DocsMerging.LastUpsertWins | adws/core/conditionalDocsRegistry.ts:224-235 | the last write for a doc wins and changes no entry but the first of that doc |
| DocsOverlap.FindOverlapViolations | adws/core/docsIndexHealth.ts:160-195 | the report built through the map is the grouping of all hits |
| DocsOverlap.SetInMap | adws/core/docsIndexHealth.ts:174-188 | one hit opens or extends the group of its key, and groups keep the order in which they were opened |
| DocsOverlap.KeysAreInjective | adws/core/docsIndexHealth.ts:154-158 | no two pairs of paths free of NUL share a key |
| DocsOverlap.GroupIsFaithful | adws/core/docsIndexHealth.ts:174-188 | there is one group for each pair that was hit, with the files of its hits in order |
| DocsOverlap.CoupledIffShared | adws/core/docsIndexHealth.ts:160-172 | a couple is counted exactly when two entries with these paths share the file |
| DocsOverlap.ReportIsPairwise | adws/core/docsIndexHealth.ts:154-188 | a pair has a violation, and only one, exactly when two entries with these paths share a file; it lists every shared file in order, once per couple |
| DocsOverlap.ListsEachFileOnceIff | adws/core/docsIndexHealth.ts:154-188 | every violation lists exactly the shared files, each once, if and only if every file has at most two owners or owners of different docs |
| DocsOverlap.DuplicateEntryListsAFileTwice | adws/core/docsIndexHealth.ts:154-188 | with a doc indexed twice it is listed twice |
| DocsOverlap.NoRegrowthNoOverlap | adws/core/docsGuards.ts:63-93 | whenever the regrowth check flags nothing the overlap report is empty |
| DocsReportOrder.ViolationsFollowTheFiles | adws/core/docsIndexHealth.ts:174-188 | violations stand in the order of the first file that each of them lists |
| DocsReportOrder.PairAt | adws/core/docsIndexHealth.ts:160-172 | the couples of a file's owners come in the order of the first owner, then of the second |
| DocsReportOrder.LessIff | adws/core/docsIndexHealth.ts:154-168 | paths are ordered by the first character in which they differ, a path before what it begins |
| DocsReportOrder.RepairsOfConcat | adws/core/docsIndexHealth.ts:84-96 | the repairs of an index are those of its entries, one after the other |
| DeviceLifecycle.EveryRunHolds | adws/core/deviceLifecycle.ts:131-197 | on every interleaving of the two loops and under every answer of the host, the invariant of both lanes, the work and the trace is kept |
| DeviceLifecycle.EveryDeviceIsRemovedOnce | adws/core/deviceLifecycle.ts:131-197 | every AVD whose creation succeeded, and every simulator whose creation gave a UDID, is ordered to be deleted exactly once before `withDevices` settles, also when the work throws; each attempt begins at most once, none past the third, and the work at most once |
| DeviceLifecycle.AvdIsDeletedBehindItsEmulator | adws/core/deviceBringUp.ts:197-231 | an AVD is deleted only when its emulator never ran, has exited or has had its process killed |
| DeviceLifecycle.OutcomeIsReported | adws/core/deviceLifecycle.ts:147-197 | the settled outcome is the work's own when it ran, else a missing tool, Android's first, else a failed boot with all its attempts used |
| DeviceLifecycle.EveryRunSettles | adws/core/deviceBringUp.ts:111-216 | every run is bounded, and one that cannot go on has settled |
| DeviceReadiness.WorkMeansBothHaveBooted | adws/core/deviceLifecycle.ts:168-197 | on every interleaving: the work begins only when, in one attempt each, the emulator has answered both that it is a device and that its boot is completed, each within 300 s of its start and before it exited, and the simulator's boot and its boot wait have succeeded |
| DeviceReadiness.FailureMeansBadAnswers | adws/core/deviceLifecycle.ts:131-155 | a failed boot is reported only when an answer failed each of the three attempts, the simulator's only when the emulator has booted, and a missing tool only when an answer missed it |
| DeviceReadiness.BootWaitIff | adws/core/deviceBringUp.ts:111-121 | a boot wait ends well exactly when the answer is there in time from an emulator that runs, and badly exactly when the time is up or the emulator has exited |
| DeviceReadiness.CommandSucceeds | adws/core/deviceBringUp.ts:144-195 | a command that succeeds leads to the next step, and a device is made by the creation that succeeds, a simulator only with a UDID |
| DeviceReadiness.AttemptFails | adws/core/deviceLifecycle.ts:131-144 | what a failed attempt leads to: its teardown when it has a device, else the next attempt, unless it was the third or the program is missing |
| DeviceReadiness.ExitWaitIff | adws/core/deviceBringUp.ts:197-216 | an emulator has its time to exit, is killed exactly when that is over and it still runs, and has the same time again |
| DeviceReadiness.WorkBeginsOnAGoodHost | adws/core/deviceLifecycle.ts:168-197 | when every answer is good the work begins, in the first attempt of both |
| DeviceLoops.Session.BringUpInAttempts | adws/core/deviceLifecycle.ts:131-144 | the loop over the attempts settles where the machine's lane settles after the same answers: on the same outcome, with the same device and the same events; a failed boot has used three attempts |
| DeviceLoops.Session.CleanUpAfter | adws/core/deviceLifecycle.ts:137-141 | a failed attempt's device is torn down, and a missing tool noted, before anything else begins |
| DeviceLoops.Session.BringUpAndroid | adws/core/deviceBringUp.ts:144-173 | an Android attempt is up where the lane is ready, and has failed, with what it had created, where the lane has |
| DeviceLoops.Session.StartAndroid | adws/core/deviceBringUp.ts:144-163 | its commands up to the start of the emulator |
| DeviceLoops.Session.CreateAvd | adws/core/deviceBringUp.ts:148-159 | its port and its AVD |
| DeviceLoops.Session.BringUpIos | adws/core/deviceBringUp.ts:175-195 | the same for a simulator's attempt, one without a UDID included |
| DeviceLoops.Session.WaitFor | adws/core/deviceBringUp.ts:111-121 | the poll is over with the answer, given in time by an emulator that runs, or else with the emulator's exit or the deadline |
| DeviceLoops.Session.AwaitExit | adws/core/deviceBringUp.ts:197-203 | the wait ends when the emulator has exited or its time is up |
| DeviceLoops.Session.ShutDownDevice | adws/core/deviceBringUp.ts:206-216 | a running emulator is asked to go, given time, killed and given time again |
| DeviceLoops.Session.TearDown | adws/core/deviceBringUp.ts:226-238 | the device is removed behind its shutdown, once |
| ConsolePorts.CandidatesArePermutation | adws/core/deviceCommands.ts:49-52 | whatever the id, the candidates are the 64 even ports, each once |
| ConsolePorts.PairsAreDisjoint | adws/core/deviceCommands.ts:49-52 | different candidates share no port of their pairs |
| ConsolePorts.AllocateConsolePort | adws/core/deviceBringUp.ts:27-32 | a port is found exactly when some even port of the range and the one above it are both free, and it is the first such candidate |
| AdwIds.GeneratedIdHasShape | adws/core/adwId.ts:1-22 | whatever the summary, the id has the recognised shape exactly when the random part is not empty |
| AdwIds.IdTellsTheSummary | adws/core/adwId.ts:1-22 | an id is its random part, then a slug of at most 20 characters with the beginning of the summary's letters and digits, or the time exactly when the summary has none |
| AdwIds.IdInWords | adws/core/adwId.ts:1-22 | the id in full: the random part and the words of the summary with hyphens between them, cut after 20 characters or before a hyphen that would be the last, or the time when there are no words |
| AdwIds.DecimalReadsBack | adws/core/adwId.ts:21-21 | the time in an id reads back, so different times give different ids |
| AdwIds.NamesAndIdsCorrespond | adws/core/deviceCommands.ts:113-122 | a device name is read as an id exactly when it is the name made for that id and the id has the shape |
| AdwIds.AdwIdIff | adws/core/deviceCommands.ts:113-122 | the shape of an id, character by character |
| AdwIds.GeneratedDevicesAreRecognised | adws/core/deviceCommands.ts:44-46 | the device of every generated id is recognised as that id's |
| AdwIds.EmptyRandomPartIsNotRecognised | adws/core/adwId.ts:13-22 | an empty random part makes a device that is not recognised |
| FixRoundGuard.CountIsTheMaximum | adws/core/fixRoundGuard.ts:110-115 | the greedy split count is the greatest number of disjoint occurrences in a line |
| FixRoundGuard.WithoutDuplicates | adws/core/fixRoundGuard.ts:77-85 | the filter with its set of seen keys keeps the first pattern of each normalised key |
| FixRoundGuard.FrameworkOnlyIsAPrefix | adws/core/fixRoundGuard.ts:57-96 | the framework's own patterns stand first under every repository section |
| FixRoundGuard.FrameworkReasonsStand | adws/core/fixRoundGuard.ts:57-132 | a round that the framework's patterns reject is rejected, for the same reasons, under every repository section |
| FixRoundGuard.RemovalsAreNotAdded | adws/core/fixRoundGuard.ts:52-68 | an entry that starts with `!` never becomes a pattern |
| FixRoundGuard.FrameworkPatternIff | adws/core/fixRoundGuardTable.ts:14-68 | the framework's patterns are those of the tables of the languages, and nothing else |
| FixRoundGuard.ListedPatternsAreAdded | adws/core/fixRoundGuard.ts:52-68 | a list of plain patterns, each an item in backticks, reads back as that list, less the ones that begin with `!` |
| FixRoundGuard.ReasonIff | adws/core/fixRoundGuard.ts:98-132 | a reason is given exactly when some file touches a protected path or adds more of a configured pattern than it removes, so a round is accepted exactly when no file does |
| FixRoundGuard.AcceptedRoundDoesNotRaise | adws/core/fixRoundGuard.ts:117-132 | an accepted round raises no configured pattern's count |
| FixRoundGuard.CountsNeverRise | adws/core/fixRoundGuard.ts:110-132 | over any sequence of accepted rounds no configured pattern stands in the file more often than at first |
| FixRoundVerdict.VerdictIff | adws/core/fixRoundGuard.ts:98-132 | a round is accepted if and only if no file touches a protected path or adds a pattern, of a language's table or of the section, more often than it removes it |
| FixRoundVerdict.SpellingIsIgnored | adws/core/fixRoundGuard.ts:47-50 | neither the case of a letter nor a space anywhere in a text makes a difference, and every other character does count |
| FixRoundVerdict.SpellingDoesNotCount | adws/core/fixRoundGuard.ts:109-115 | a count is the same whatever the spelling of a line, or of the pattern |
| FixRoundVerdict.CountsLineByLine | adws/core/fixRoundGuard.ts:109-115 | lines are counted one by one, each by the greatest number of disjoint occurrences in it |
| FixRoundVerdict.VerdictIgnoresSpelling | adws/core/fixRoundGuard.ts:117-132 | a line that differs from another in case and spacing only makes the same verdict |
| FixRoundVerdict.AddedSuppressionIsRejected | adws/core/fixRoundGuard.ts:117-132 | a file that adds a line holding a listed pattern in any spelling, and removes none, is rejected |
| FixRoundVerdict.NoiseIsIgnored | adws/core/fixRoundGuard.ts:52-68 | blank lines, fences and `n/a` may stand anywhere in a section without adding to it |
| FixRoundVerdict.CommentIsRemoved | adws/core/fixRoundGuard.ts:39-61 | a comment of the section is read over |
| FixRoundVerdict.OpenCommentHidesTheRest | adws/core/fixRoundGuard.ts:39-61 | one that is not closed hides everything behind it |
| RateLimitWait.SleepUntil | adws/core/rateLimitWaitPolicy.ts:71-78 | never returns early, no sleep exceeds the slice, and there are no more sleeps than the remaining time divided by the slice, rounded up |
| RateLimitWait.WaitForReset | adws/core/phaseRunner.ts:160-168 | the one sleep of a wait, through the sliced clock, ends at the wanted time or later |
| RateLimitWait.RideOut | adws/core/phaseRunner.ts:186-205 | a wait that is decided on ends no earlier than the reset, and a full minimum wait later when the reset was already past |
| RateLimitWait.DecisionTable | adws/core/rateLimitWaitPolicy.ts:45-69 | a wait is chosen exactly for a five-hour limit with a reset time; it ends at the reset when that lies ahead, and exactly a minimum wait from now otherwise |
| RateLimitWait.NoWaitIsShorter | adws/core/rateLimitWaitPolicy.ts:45-69 | no earlier end would keep what the wait promises |
| PhaseRunner.StateFile.WriteTopLevelState | adws/core/agentState.ts:186-216 | the loop over the phases merges each entry into its old one and leaves every other field and entry; a file that cannot be read counts as empty |
| PhaseRunner.CostTracker.Accumulate | adws/core/phaseRunner.ts:19-34 | the tracker's total grows by the cost |
| PhaseRunner.FailPhase | adws/core/phaseRunner.ts:123-147 | what a failing attempt persists, and whether it ends the process or throws, also when the mark or the handler's own write is lost |
| PhaseRunner.CompletePhase | adws/core/phaseRunner.ts:90-121 | the order of counting, persisting, marking and recording, with every step that may throw or be the last |
| PhaseRunner.MakeAttempt | adws/core/phaseRunner.ts:107-147 | one attempt that is not waited out: what is persisted, counted and returned |
| PhaseRunner.RunAttempts | adws/core/phaseRunner.ts:207-233 | the attempt loop: limits that can be waited out are, whatever else happens ends it, and each attempt begins only when the wait before it is over |
| PhaseRunner.RunPhase | adws/core/phaseRunner.ts:207-233 | one call: skipped when completed, else marked as running and attempted, with exactly these states persisted and this cost counted |
| PhaseHistory.CompletedIsFinalIff | adws/core/phaseRunner.ts:71-147 | across any calls, failures, crashes, restarts and failed reads a completed entry is never changed or removed and its function never called again, if and only if no call for the phase is reopened by a throw while recording it, no test of the completed phase fails to read the state and lets it run, and no write of another phase fails to read the state while it is completed |
| PhaseHistory.FreshRunsKeepTheRuleIff | adws/core/phaseRunner.ts:71-147 | the same for a workflow from its beginning |
| PhaseHistory.OwnCallOnTheLedger | adws/core/phaseRunner.ts:71-147 | exactly which calls break the rule for their own phase, and what the others leave |
| PhaseHistory.SiblingOnTheLedger | adws/core/agentState.ts:172-216 | a call for one phase leaves another's completed entry as it is in every state it persists, if and only if every one of its writes can read the state |
| PhaseHistory.SoundCallsKeepTheRule | adws/core/phaseRunner.ts:71-147 | when every read succeeds and no record throws, no call ever breaks the rule |
| PhaseHistory.RecordingErrorReopensThePhase | adws/core/phaseRunner.ts:55-98 | the first exception happens: the entry ends as failed and the function is called again |
| PhaseHistory.UnreadTestRunsThePhaseAgain | adws/core/phaseRunner.ts:71-88 | the second: a completed phase whose state cannot be read is marked as running and called again |
| PhaseHistory.CompletedEntryKeepsAnOldReason | adws/core/agentState.ts:186-216 | the entry that a call which returns leaves, whatever it waited out: completed, with its older failure reason unless a write could not read it |
| PhaseHistory.EveryResolvedAttemptIsCounted | adws/core/phaseRunner.ts:107-121 | the function is called once per attempt that takes place, and the tracker is given the cost of each that resolved |
| PhaseHistory.TotalIsWhatTheProcessSpent | adws/core/phaseRunner.ts:19-43 | at any time the tracker's total is the sum of the costs of the attempts that resolved in its process |
| PhaseOutcomes.EndOfCall | adws/core/phaseRunner.ts:123-233 | for every sequence of attempts: how a call ends, how often the function is called and what is counted, told from the first attempt that is not waited out |
| PhaseOutcomes.EntryAfterCall | adws/core/phaseRunner.ts:82-147 | what such a call leaves when its writes can read the state: status, start, end and reason of the phase's entry, and the workflow's stage |
| PhaseOutcomes.TraceShowsTheCall | adws/core/phaseRunner.ts:207-233 | the trace of a call has every state it persisted, in order, and its function as often as it was called |
| Upgrade.Forge.ExecuteUpgrade | adws/adwUpgrade.tsx:210-427 | a run ends at the first of the ordered gates that stops it, with the comment, label, pull request and agent run that belong to that gate and no other |
| Upgrade.Forge.Escalate | adws/adwUpgrade.tsx:265-276 | at the cap the label goes on first, then the comment; dying in between leaves the label |
| Upgrade.Forge.Rebuild | adws/adwUpgrade.tsx:278-347 | the gates from the worktree to the scenario project |
| Upgrade.Forge.Deliver | adws/adwUpgrade.tsx:349-396 | the gates of stamping, committing and pushing, a lost claim without a comment |
| Upgrade.Forge.OpenPr | adws/adwUpgrade.tsx:398-427 | the gates from the pull request on |
| Upgrade.Forge.MergePr | adws/adwUpgrade.tsx:409-427 | the gates from the `hitl` setting to the merge |
| Upgrade.Forge.EndWithComment | adws/adwUpgrade.tsx:145-200 | a gate's comment is posted once, and a run that cannot post it has crashed |
| Upgrade.Forge.FailWithoutHash | adws/adwUpgrade.tsx:226-237 | a hash that cannot be computed, or is blank, ends the run with a failure comment |
| Upgrade.SpellingDoesNotMatter | adws/core/adwLabels.ts:127-133 | a label counts as `wontfix` whatever the case of its letters and whatever punctuation stands between them |
| Upgrade.RetiredInAnySpelling | adws/core/adwLabels.ts:127-133 | so respelling a label of a pull request does not change whether it is retired |
| Upgrade.OnlyFailuresCarryTheSignature | adws/adwUpgrade.tsx:145-200 | only the failure comment begins with the counted line, whatever is written into the others |
| UpgradeRuns.AgentRunsIff | adws/adwUpgrade.tsx:218-304 | the agent runs if and only if, as far as the run could read them, there are no terminal label, no standing pull request for the claim branch and fewer failures than the cap, the hash is there, nothing threw, and the worktree is prepared |
| UpgradeRuns.CapStandsBefore | adws/adwUpgrade.tsx:265-396 | a failure behind the cap check happens only with fewer failures than the cap among the comments the run read, and opens no pull request |
| UpgradeRuns.EscalatesIff | adws/adwUpgrade.tsx:218-276 | when everything can be read, a run escalates exactly when the cap is reached and no pull request stands |
| UpgradeRuns.FailuresAreCapped | adws/adwUpgrade.tsx:265-396 | over any sequence of runs, with others adding comments and changing anything else in between, every failed run is counted for good, and of those that read the comments at most as many fail behind the cap check as the cap left room for |
| UpgradeRuns.EveryFailureHasCounted | adws/adwUpgrade.tsx:265-276 | when no run misses the comments, those are all that fail behind the cap check |
| UpgradeRuns.BlockedIssueIsLeftAlone | adws/adwUpgrade.tsx:218-224 | a run on an issue with the terminal label changes nothing, unless its read of the labels is missed |
| UpgradeRuns.LabelIsTerminal | adws/adwUpgrade.tsx:218-224 | once the label is on and stays on and no read misses it, all later runs together change nothing |
| UpgradeRuns.LabelIsTerminalIff | app_docs/feature-9gjajh-webhook-triggers.md:59 | with the label on, the runs change nothing in every such sequence if and only if no read may miss the labels |
| UpgradeRuns.ClaimIsBuiltOnce | adws/adwUpgrade.tsx:241-263 | while a pull request that is not `wontfix` stands for a claim branch and no read misses it, no run starts the agent for it |
| UpgradeRuns.NewPrStands | adws/adwUpgrade.tsx:241-263 | a pull request that a run opens stands, and one that stands is not disturbed |
| UpgradeRuns.ClaimBranchTellsTheHash | adws/adwUpgrade.tsx:239-239 | different hashes never claim the same branch |
| UpgradeRuns.OtherClaimsDoNotMatter | adws/adwUpgrade.tsx:239-263 | a run ends in the same way whatever pull request another hash's claim has |
| UpgradeBounds.FailsIff | adws/adwUpgrade.tsx:210-396 | a run fails if and only if the issue is open to it, its comment is posted, and the hash cannot be computed or the run passes the guards and a later gate fails it |
| UpgradeBounds.FailsAtTheCapIff | adws/adwUpgrade.tsx:218-276 | at the cap and beyond it that leaves two ways: the hash, or comments that were missed, with no pull request seen to stand and a later gate that fails |
| UpgradeBounds.HashErrorsAreNotCapped | adws/adwUpgrade.tsx:226-237 | runs of the first kind fail any number of times, each counted |
| UpgradeBounds.MissedCommentsPassTheCap | adws/adwUpgrade.tsx:476-482 | one of the second kind: at the cap a run that misses the comments starts the agent, fails and is counted once more |
| UpgradeBounds.CapHoldsIff | adws/core/upgradeFailureCap.ts:9-20 | for an issue open to the upgrade, the cap bounds the failures behind it over every sequence if and only if a bot posts the comments and no run may miss them |
| UpgradeBounds.AgentRunIsCountedIff | adws/adwUpgrade.tsx:297-396 | an agent run adds to the count if and only if a bot posts and the run ends as failed or dies right after posting that it did |
| UpgradeBounds.SilentRunsAreNotCapped | adws/adwUpgrade.tsx:297-396 | runs that start the agent and end before a pull request without a comment leave only their own number changed, so they repeat without bound |
| UpgradeBounds.AnAgentMayThrow | adws/adwUpgrade.tsx:297-311 | such a run occurs on every open issue with room below the cap: an agent that throws |
| UpgradeBounds.AClaimMayBeLost | adws/adwUpgrade.tsx:378-396 | and another one: a claim that is lost to another run |
| UpgradeBounds.OnlyABotIsCapped | adws/core/upgradeFailureCap.ts:9-20 | the runs of an account that is not a bot's leave the count as it is |
| UpgradeBounds.ClaimIsBuiltOnceIff | adws/adwUpgrade.tsx:241-263 | while a pull request stands, no run starts the agent for its claim, in every sequence, if and only if no read may miss the pull request |
| UpgradeOutcomes.OutcomeIff | adws/adwUpgrade.tsx:210-427 | exactly which answers make a run complete, fail or escalate; with any others it crashes |
| UpgradeOutcomes.RecordIff | adws/adwUpgrade.tsx:210-427 | exactly what a run leaves: the agent run, the pull request, the label and the one comment it owes, with the reason of the first step that failed |
| Merge.Workflow.ExecuteMerge | adws/adwMerge.tsx:82-224 | a tick persists the state and reports the reason of the specification, and attempts the merge exactly when that allows it |
| Merge.Workflow.End | adws/core/agentState.ts:186-216 | the write lays its fields over what it finds, or over nothing when it cannot read, and comes before the comment or notice |
| Merge.MergesAreGuarded | adws/adwMerge.tsx:138-191 | over any run a merge is attempted only on an open pull request, and when the labels read as holding `hitl`, only on an approved one |
| Merge.StaysAwaitingIff | adws/adwMerge.tsx:82-224 | a tick keeps `awaiting_merge` exactly when it defers for `hitl`, counts a missing pull request or writes nothing, for an unread state or for something that throws |
| Merge.LeftStageIsKeptIff | adws/adwMerge.tsx:89-98 | a workflow that no longer waits keeps its stage over any run if and only if it was abandoned already or no tick both reads and writes the state; otherwise it ends abandoned |
| Merge.CompletedStaysIff | adws/adwMerge.tsx:89-98 | in particular a completed workflow stays completed if and only if no tick both reads and writes |
| Merge.AbandonedIsForGood | adws/adwMerge.tsx:89-98 | an abandoned workflow stays abandoned over any run |
| Merge.MissesAddUp | adws/adwMerge.tsx:118-136 | misses add up over any run, whatever lies between; one still waiting has counted every one and is below the maximum |
| Merge.LastMissBlocks | adws/adwMerge.tsx:118-166 | in a run of deferrals and misses in any order the workflow is blocked exactly when the misses reach the maximum in total |
| MergeVerdicts.StageOfTick | adws/adwMerge.tsx:82-224 | which answers lead a workflow that waits to which stage, for each stage if and only if: `discarded` for a closed pull request, `human_gated` for red scenarios, `merge_blocked` for a failed merge or the last miss, `completed` for a merge, `abandoned` without a branch or a worktree |
| MergeVerdicts.WaitsOtherwise | adws/adwMerge.tsx:82-224 | whatever else is answered, it goes on waiting |
| MergeVerdicts.FieldsOfTick | adws/adwMerge.tsx:118-222 | what a tick does to the count of misses, the park reason and the branch, also when its write cannot read the state |
| MergeVerdicts.RunWasLedToItsStage | adws/adwMerge.tsx:82-224 | a run ends at a stage only if it began there or some tick saw what leads to it |
| MergeVerdicts.MergeIsAttemptedIff | adws/adwMerge.tsx:138-191 | the merge is attempted exactly on an open pull request, approved when the labels read as `hitl`, in a prepared worktree of a known branch |
| MergeVerdicts.ReportTells | adws/adwMerge.tsx:82-224 | the reason reported for every way to end, unless something throws on the way, in the write or in the notice |
| RetryOrchestrator.RetryWithResolution | adws/core/retryOrchestrator.ts:69-138 | the loop ends at the first moment the rounds are over; retries, resets, cost, usage and last failures are the sums over the rounds |
| RetryOrchestrator.CostState.TrackCost | adws/core/retryOrchestrator.ts:53-63 | cost and usage are the totals over every agent tracked so far |
| RetryOrchestrator.RunsAreAccountedFor | adws/core/retryOrchestrator.ts:69-138 | the runs are the retries plus the resets, plus one when it passed, and never more than the retries and resets allowed, also when it throws |
| RetryOrchestrator.CompactionNeedsAHandler | adws/core/retryOrchestrator.ts:89-98 | without a handler no compaction resets anything |
| RetryOrchestrator.RoundMeans | adws/core/retryOrchestrator.ts:82-133 | what makes a round a pass, a reset or a retry, and when its resolution is run and paid for |
| RetryOrchestrator.PassesIff | adws/core/retryOrchestrator.ts:82-133 | the rounds end with a pass exactly when some round within the allowance passes |
| RetryOrchestrator.EveryAgentIsThere | adws/core/retryOrchestrator.ts:53-133 | the agents paid for are every run and every resolution that took place |
| CommandAgent.RunRetryLoop | adws/agents/commandAgent.ts:86-148 | the loop ends at the first valid output, at the first error that comes for the third time in a row, or after ten corrections |
| CommandAgent.StreakIsTheConstantSuffix | adws/agents/commandAgent.ts:86-107 | the counter is the length of the constant stretch that the error history ends with |
| CommandAgent.StreakOfThree | adws/agents/commandAgent.ts:102-117 | it reaches three exactly when the last three errors are equal |
| RemoteReconcile.DeriveStageFromRemote | adws/core/remoteReconcile.ts:66-90 | at most five reads; the stage of the first two consecutive equal reads, if every read before tells a stage other than the one before it, else the state file's; no read without a branch |
| RemoteReconcile.StageTellsTheRemote | adws/core/remoteReconcile.ts:34-43 | each stage tells exactly one state of branch and pull request, and only a missing branch or an unknown state tells none |
| RemoteReconcile.SettledRemoteIsBelieved | adws/core/remoteReconcile.ts:66-90 | a remote that settles within the budget is believed: at that stage, or at one that two earlier reads agreed on |
| RemoteReconcile.ReportSettled | adws/core/remoteReconcile.ts:66-90 | a remote that settles on a stage within the budget, each read before it telling another than the one before, has that stage returned |
| RemoteReconcile.RestlessRemoteIsNot | adws/core/remoteReconcile.ts:79-89 | a remote that always tells a stage is believed within a number of reads exactly when two neighbours among them agree |
| PromotionTags.FindFeatureTagBlockBounds | adws/core/promotionTagState.ts:58-70 | the backward walk stops at the bounds of the specification |
| PromotionTags.FoundCutIsCut | adws/core/promotionTagState.ts:58-70 | what is found cuts the lines above the feature into other lines, a block of tag lines and blank ones |
| PromotionTags.CutIsFound | adws/core/promotionTagState.ts:58-70 | there is only one such cut, and it is found |
| PromotionTags.RewriteBlock | adws/core/promotionTagState.ts:72-114 | the splice replaces the block, or puts a new one above the feature line |
| PromotionTags.SerializePromotionTagState | adws/core/promotionTagState.ts:87-114 | the whole file is written as specified: unchanged without a feature line, and refused for a suggestion without a date |
| PromotionText.ParseIff | adws/core/promotionTagState.ts:30-46 | a file reads as declined when some tag line holds that marker, else as suggested when some tag line holds a dated one |
| PromotionText.TagLineIff | adws/core/promotionTagState.ts:16-24 | a tag line is not blank, and each of its words begins with an at sign |
| PromotionText.FeatureLineIff | adws/core/promotionTagState.ts:53-55 | the feature line begins, behind nothing but spaces, with the word and its colon |
| PromotionText.MarkerIff | adws/core/promotionTagState.ts:13-28 | the two kinds of markers as they are written |
| PromotionText.DateIff | adws/core/promotionTagState.ts:13-14 | a date is four digits, two and two, with hyphens between them |
| PromotionWriting.LinesAfter | adws/core/promotionTagState.ts:87-114 | the written file, cut into lines, has the new lines in the place of the block and is otherwise the same, also when the date holds newlines |
| PromotionWriting.NothingElseChanges | adws/core/promotionTagState.ts:72-114 | for every date, every line outside the block stays, and in it the tokens that are no markers stay in order, followed by those of the marker's text |
| PromotionWriting.WritingIsIdempotentIff | adws/core/promotionTagState.ts:72-114 | for every content, state and date: writing twice is writing once if and only if there is no feature line, or all the marker's text adds are markers and it does not end in an empty line |
| PromotionWriting.SettlesIffWellDated | adws/core/promotionTagState.ts:13-14 | for a date without spaces the condition is that it is well formed |
| PromotionWriting.SpaceBehindADate | adws/core/promotionTagState.ts:13-18 | spaces behind a well-formed date meet it exactly when no newline is among them |
| PromotionWriting.WrittenReadsAs | adws/core/promotionTagState.ts:30-46 | for every state and date the written file reads as its tag lines outside the block together with the marker's text on lines of its own |
| PromotionWriting.WrittenStateReadsBack | adws/core/promotionTagState.ts:30-114 | `declined` always reads back; `none` exactly when no marker stands outside the block; `suggested`, with any date, exactly when no decline stands outside or in the date's text and a suggestion does |

## Left out

- Spawning, files, the network, git, Slack, logging and the wording of comments behind their first line.
- `JSON.parse`, SHA-256 and the merging of token usage are parameters; nothing is assumed about them.
- The token-limit latch of the agent handler is a parameter, and the cost extractor is not modelled: they rest on `adws/cost`, which
  is not part of this model. Callbacks that throw are not modelled, nor the raw output written beside the state.
- Characters are Unicode characters, not UTF-16 units. Lower-casing is that of ASCII letters, or a parameter where nothing depends
  on it.
- Times and reset times are whole numbers, and costs are real numbers without rounding. Invalid dates are not modelled.
- The diff parser is not modelled: a changed file is its paths, added lines and removed lines. The rules for protected paths
  are a parameter: the category of the first rule that a path matches.
- DeviceLifecycle.EveryDeviceIsRemovedOnce: a simulator created without a readable UDID does not count as made, since the source keeps
  no handle to delete it by; a deletion counts when its command is given, also when that command fails.
- Index violations other than overlaps and the canonical form (orphans, duplicates, counts, decision records), and the bloat check.
- The two boot loops interleave, so the theorems about both are about a machine that moves at each answer of the host. The loops as
  written are proved to take its steps when run alone; that the runtime switches between them only at an answer is taken for granted.
  The text of command output, and what is logged of a failed teardown command, are not modelled. What a teardown runs before the
  deletion (asking an emulator to exit, shutting down a booted simulator) is a step of the lane or nothing, and not an event.
- `runPhase` without a phase name or without an adw id, `runPhasesSequential` and `runPhasesParallel`, and processes that race for one
  state file. A throw inside a rate-limit wait is modelled as the process ending there.
- Which pull request is preferred when several exist for a branch: the model takes the one that is found, and a new one is found
  after it is opened.
- Reads of the remote that throw, and callbacks of the retry loop that throw.
- AgentHandler.Handler.OnClose: leaves out the cost and usage fields of the result, which come from the cost extractor.
- PhaseRunner.RunPhase: says nothing of the model usage beside the cost, which goes through the same tracker.
- DocsOverlap.KeysAreInjective: holds for paths free of NUL, which no tracked path contains.
