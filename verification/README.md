# Refact: verified models of its stateful core

This project models nine components of Refact in Dafny and proves what they promise over every
input, every interleaving and every crash point. Each stateful component is given twice where its
source is imperative: as a state machine with theorems over all its runs, and as a class or method
with loops that is proved against that machine.

- **Human attention budget** (`Attention*.dfy`, `Questions.dfy`, `QuestionLaws.dfy`): questions to a human
  are deduplicated, batched, ranked, retired and answered by timeout defaults. The question registry
  under it is modelled too, and may act between any two steps of the budget.
- **Turn tool pool and catalogue cache** (`ToolPool.dfy`, `CatalogCache.dfy`): interleaved tasks with
  single-flight expansion, wake-ups, cancellation and eviction.
- **Native release claims** (`ReleaseClaims.dfy`, `ReleaseHistory.dfy`, `ReleaseOutcomes.dfy`,
  `ReleaseOpening.dfy`): a claim is durable before its effect and says afterwards what the installer did, among any
  number of processes, with failures, crashes and power losses at every step, on Windows and elsewhere.
- **VSIX verifier and CRC-32** (`VsixArchive.dfy`, `VsixHeaders.dfy`, `VsixWriter.dfy`, `VsixRoundTrip.dfy`,
  `Crc32.dfy`, `CrcNumbers.dfy`): index arithmetic after sections 4.3.7, 4.3.12 and 4.3.16 of PKWARE
  APPNOTE.TXT, held against a writer of such archives that shares none of its reads, and the
  algebra and the known values of the checksum.
- **Inline diff** (`InlineDiff.dfy`, `EditorState.dfy`): a merged document in two line coordinate
  systems, from which either text can be recovered.
- **GUI artifact** (`GuiInventory.dfy`, `GuiBudget.dfy`, `GuiPublish.dfy`, `GuiContents.dfy`,
  `GuiLiveness.dfy`, `GuiOversize.dfy`): a tree is listed within a budget, replayed and swapped in.
- **Worker health probe** (`HealthProbe.dfy`): an epoch-guarded watchdog with re-entrant callbacks.
- **Version precedence** (`Versions.dfy`, `LenientVersions.dfy`, `Precedence.dfy`, `Rounding.dfy`): parsing and comparing, against
  section 11 of SemVer 2.0.0, for numbers of any length and under correct rounding.
- **Smaller algorithms**: stream framing (`StreamFraming.dfy`, `StreamEffects.dfy`), cursors across CRLF (`Crlf.dfy`), log
  eviction (`LogSweep.dfy`).

`Ordering.dfy`, `Outcome.dfy` and `Powers.dfy` hold shared helpers. `dafny verify dfyconfig.toml` checks everything.

## Where the code falls short of what is expected of it

Each of these but the last two is proved as an equivalence, so the condition is exact; those two are
laws of all runs. Each has a lemma at an input where the code fails.

- Rejecting an inline diff gives the old text back if and only if the new text ends with a line break
  (or is empty) and, on an empty document, the additions before its first line are at most one
  character or end with an empty line (`RejectingGivesOld`). An unterminated last addition is not a
  whole line and stays (`UnterminatedSurvivesReject`); on an empty document the last added line
  stays in place of the line break (`EmptyDocumentKeepsAddition`).
- Presenting and accepting a diff on an empty document swaps lines unless the additions before its
  first line are nothing but line breaks (`PresentedIsMerged`, `AcceptingGivesNew`,
  `EmptyDocumentSwapsLines`).
- A published GUI is accepted by the next publication if and only if its owner marker is at most
  16 MiB; publishing never checks that size (`PublishedPassesValidation`). A tree of 16500 directories
  with long paths is published and refused afterwards (`OversizedMarkerIsRefused`).
- A health probe whose `recover` throws is dead afterwards, and `start` does not revive it, if and
  only if `recover` had not stopped or disposed the probe (`CompleteKeeps`,
  `ThrowingRecoverKillsProbe`). Over every run it is dead exactly while nobody has stopped it since
  such a throw (`ExactlyOneWhileRunning`).
- The first backoff is not capped: it is `min(max, initial)` if and only if `initial <= max`; later
  ones are the capped power unless the cap is negative (`BackoffClosedForm`, `FirstWaitIgnoresCap`).
- Adding carriage returns back restores a cursor if and only if every `\r` left of it is followed by
  `\n` left of it (`Crlf.RoundTrip`, `LoneReturnMovesCursor`).
- Versions compare as section 11 of SemVer 2.0.0 says, both ways round, if and only if the numbers on
  their common beginning are finite and their first difference is told apart by its numbers, or is
  rounded away while what follows happens to point the same way (`AgreesWithSemVer`,
  `TextsCompareAsSemVer`, `AccidentalAgreement`). Numbers below 2^53 always are
  (`SmallTextsCompareAsSemVer`); 9007199254740992.0.0 and 9007199254740993.0.0 compare equal
  (`RoundedVersionsCompareEqual`), and so do pre-releases with these numbers
  (`RoundedPrereleasesCompareEqual`).
- Comparing versions the other way round changes the sign if and only if no two infinite numbers meet
  at the deciding position (`CompareIsAntisymmetric`), and a version equals itself if and only if none
  of its numbers overflows to infinity (`EqualsItselfIffFinite`). Of two versions from 10^309 on each is
  below the other and below itself (`OverflowIsBelowItself`, `RoundedOverflowIsBelowItself`).
- A catalogue key that was never evicted is published at most once; it is built at most once if and
  only if no finished build was abandoned, or one was and nobody published or finished another
  (`BuiltAtMostOnce`, `CancelledBuildIsRepeated`).
- On Windows, where the ledger directory is not flushed, the install effect of a hash may be repeated
  after a power failure (`WindowsPowerLossReinstalls`). On every platform that is the only way: two
  effects of one hash have a power failure between them, so there is at most one more of them than
  there were failures (`RepeatsArePowerFailuresApart`, `InstalledOncePerPowerCycle`).
- The batch window does not hold back every question that is not urgent for its own full length: it
  runs from the first such question of the batch, so when that one is gone another may be handed out
  alone and earlier (`LaterQuestionNeedNotWait`). None is ever handed out before a batch has been open
  for a whole window since such a question was asked (`HeldBackForTheWindow`).

## Model

| member | source | states |
|---|---|---|
| `Questions.QuestionRegistry.Ask` | refact-agent/engine/crates/refact-chat-api/src/question.rs:418-449 | refused exactly for an invalid draft, a known id, a taken correlation or too many pending questions, with the right error; otherwise the question is pending under its id; on any outcome the registry evolves lawfully |
| `Questions.QuestionRegistry.Register` | refact-agent/engine/crates/refact-chat-api/src/question.rs:451-476 | for any record, pending or settled, with a new id or a known one: invalid, duplicate and surplus records are refused exactly when due, no settled record is changed, a pending one survives pruning |
| `Questions.QuestionRegistry.Settle` | refact-agent/engine/crates/refact-chat-api/src/question.rs:553-592 | exactly one settlement wins, only by the bound principal, every error has its exact cause, and a settled state is never left |
| `Questions.QuestionRegistry.Expire` | refact-agent/engine/crates/refact-chat-api/src/question.rs:594-601 | afterwards no pending question is past its deadline, and a default is used only where it was asked for and is safe |
| `Questions.QuestionRegistry.Prune` | refact-agent/engine/crates/refact-chat-api/src/question.rs:751-766 | only settled records go, and each that goes is older than each settled one that stays |
| `Questions.ExpireEvolves` | refact-agent/engine/crates/refact-chat-api/src/question.rs:733-749 | expiry keeps ids, stakes and settled states |
| `Questions.EvolvesTransitive` | refact-agent/engine/crates/refact-chat-api/src/question.rs:412-476 | lawful evolutions of the registry compose, so any number of them may fall between two steps of the budget |
| `QuestionLaws.PendingStaysOrderly` | refact-agent/engine/crates/refact-chat-api/src/question.rs:451-476 | over every history of calls no more than the limit is pending, and at most one question for each correlation |
| `QuestionLaws.RecordsAreComplete` | refact-agent/engine/crates/refact-chat-api/src/question.rs:145-187 | over every history each record names everybody in more than white space, its deadline lies ahead of the asking, and only a reversible question has a default |
| `QuestionLaws.SettlementHasCause` | refact-agent/engine/crates/refact-chat-api/src/question.rs:418-601 | over every history a settled question was settled by a call of its bound principal, with that answer and time, or by its deadline, with its safe default or none |
| `QuestionLaws.AnswerIsTaken` | refact-agent/engine/crates/refact-chat-api/src/question.rs:553-592 | an answer by the answerer before the deadline is taken as it is |
| `QuestionLaws.ForgottenAreOldest` | refact-agent/engine/crates/refact-chat-api/src/question.rs:751-766 | what is forgotten to keep to the limit was settled and asked no later than any settled record that stays |
| `AttentionSafety.NormalizeIdentifiesWords` | refact-agent/engine/src/attention.rs:309-311 | two texts share a dedup key exactly when they have the same words; normalizing twice is normalizing once |
| `AttentionSharing.KeyIdentifiesRequests` | refact-agent/engine/src/attention.rs:272-311 | two requests have one dedup key exactly when scope, kind, answerer, words, options, irreversibility and default are equal |
| `AttentionSharing.WordsAreSeparated` | refact-agent/engine/src/attention.rs:309-311 | white space, however much, ends a word and is nothing else |
| `AttentionSharing.InvalidRequestIs` | refact-agent/engine/src/attention.rs:237-270 | a request is turned away exactly when a name or the text is nothing but white space, or a default comes with a priority above Low, an approval or an irreversible question |
| `AttentionSharing.QuestionHasAsker` | refact-agent/engine/src/attention.rs:585-627 | over every run each live question was asked for by one request, and is put to the human in all fields as that request said |
| `AttentionSharing.WaitersAskTheSame` | refact-agent/engine/src/attention.rs:540-628 | over every run all who wait for one question asked the same of the same human, which is what the human is asked |
| `AttentionSharing.SharedExactlyWhenSame` | refact-agent/engine/src/attention.rs:555-576 | a request joins a live question exactly when it is materially the one that asked it |
| `AttentionSharing.PriorityIsAtLeast` | refact-agent/engine/src/attention.rs:569 | a live question is at least as urgent as every request that joined it |
| `AttentionSharing.PriorityIsThatOf` | refact-agent/engine/src/attention.rs:569 | and just as urgent as one of them |
| `AttentionSafety.RunKeepsInv` | refact-agent/engine/src/attention.rs:540-904 | every run keeps the joint invariant of maps, batch clock, history, owed defaults and what was handed out |
| `AttentionSafety.LiveQuestionsAreLinked` | refact-agent/engine/src/attention.rs:540-714 | over every run `by_key` and `tracked` are mutual inverses, no live question lacks a waiter, no (waiter, delivery) pair occurs twice |
| `AttentionSafety.OneQuestionPerKey` | refact-agent/engine/src/attention.rs:555-576 | two different live questions never have equal dedup keys |
| `AttentionSafety.LowPriorityIsBounded` | refact-agent/engine/src/attention.rs:577-584 | at most `max_outstanding` live questions have priority Low, although joining may raise priorities and sweeps may retire at any time |
| `AttentionSafety.HandedOutAtMostOnce` | refact-agent/engine/src/attention.rs:778-878 | over every run each id is handed out by `take_due` at most once and by `take_expired_defaults` at most once |
| `AttentionSafety.EveryEmittedDefaultIsSafe` | refact-agent/engine/src/attention_delivery.rs:65-74 | every default ever emitted is Low and reversible, so the consumer's assertions never fail |
| `AttentionSafety.EmittedDefaultHasOrigin` | refact-agent/engine/src/attention.rs:657-714 | every default ever owed or emitted was made by an earlier retirement of the run, and its deliveries belong to waiters present then |
| `AttentionSafety.HistoryIsBoundedAndLinked` | refact-agent/engine/src/attention.rs:657-714 | history stays within 64 entries; owed defaults are an in-order, duplicate-free subsequence of the defaults still in history |
| `AttentionSafety.TakingPromptsLeavesNothingOverdue` | refact-agent/engine/src/attention.rs:781-822 | after `take_due` a pending unseen question is not blocking and was asked less than a batch window ago, although the registry may act between any two of its lookups |
| `AttentionBatches.BatchHasOpened` | refact-agent/engine/src/attention.rs:585-627 | an open batch was opened by a question that is not urgent, and has been open ever since |
| `AttentionBatches.HeldBackForTheWindow` | refact-agent/engine/src/attention.rs:781-822 | over every run a question that is not blocking is handed out only when a batch has been open for the whole window since such a question was asked |
| `AttentionBatches.LaterQuestionNeedNotWait` | refact-agent/engine/src/attention.rs:781-822 | a reachable state in which the only question is due less than a window after it was asked |
| `AttentionSafety.DrainKeepsOrder` | refact-agent/engine/src/attention.rs:864-878 | splitting the owed defaults by deadline keeps the order of both halves and repeats nothing |
| `AttentionSafety.DrainPartitions` | refact-agent/engine/src/attention.rs:864-878 | each owed default goes to exactly one half |
| `AttentionSafety.EvictKeepsHistory` | refact-agent/engine/src/attention.rs:698-713 | evicting the oldest history entry with its owed default keeps the two queues linked |
| `Attention.DefaultFor` | refact-agent/engine/src/attention.rs:665-684 | a default exists exactly for a defaulted question with its answer and deadline, with that answer and deadline, and its deliveries are just those of the waiters present at retirement |
| `Attention.SweptBatchIsAwaited` | refact-agent/engine/src/attention.rs:882-904 | after a sweep a batch is open only while an unseen question that is not blocking waits for it |
| `Attention.RanksBeforeIsTotalPreorder` | refact-agent/engine/src/attention.rs:814-820 | the ranking of prompts is total and transitive |
| `AttentionBudgets.AttentionBudget.Join` | refact-agent/engine/src/attention.rs:540-628 | the class stays on a run of the machine; the result is exactly a shared admission, backpressure, the refusal of the service or a fresh admission, each under its own condition |
| `AttentionBudgets.AttentionBudget.AskQuestion` | refact-agent/engine/src/attention.rs:585-627 | a fresh question becomes live with its first waiter, or, exactly when the service refuses it, nothing changes |
| `AttentionBudgets.AttentionBudget.Leave` | refact-agent/engine/src/attention.rs:632-653 | only the last waiter settles and retires the question; the count of remaining waiters is exact |
| `AttentionBudgets.AttentionBudget.SweepSettled` | refact-agent/engine/src/attention.rs:882-904 | exactly the settled questions are retired, each once, and the batch closes only if nothing waits for it |
| `AttentionBudgets.AttentionBudget.TakeDue` | refact-agent/engine/src/attention.rs:781-822 | the prompts are exactly the due questions, each with its waiters counted and their deliveries, most stalled work first, then the oldest, then by id; they are marked as presented |
| `AttentionBudgets.AttentionBudget.TakeExpiredDefaults` | refact-agent/engine/src/attention.rs:864-878 | exactly the owed defaults past their deadline are given out, in order, and are owed no more |
| `AttentionDelivery.GroupDeliveries` | refact-agent/engine/src/attention_delivery.rs:17-40 | one group per tool call, holding all of its questions in arrival order and the first one's ask time |
| `AttentionDelivery.GroupedByToolCall` | refact-agent/engine/src/attention_delivery.rs:17-40 | two deliveries are in one group exactly when they are for the same tool call of the same chat |
| `AttentionDelivery.TimeoutAnswers` | refact-agent/engine/src/attention_delivery.rs:101-155 | a pending set is answered completely, in order and in each question's type, or not at all, and the reason is exact; only a yes/no default is trimmed and lower-cased |
| `AttentionDelivery.DefaultMeans` | refact-agent/engine/src/attention_delivery.rs:132-145 | a yes/no default is true exactly when, white space and case aside, it spells yes or true, and false exactly for no or false; other types take it as it is |
| `ToolPool.TurnToolPool.FromTools` | refact-agent/engine/src/app_state.rs:534-547 | the pool holds the given instances, filed under their keys in order |
| `ToolPool.TurnToolPool.Take` | refact-agent/engine/src/app_state.rs:549-555 | the oldest instance of the key is removed, and nothing else |
| `ToolPool.TurnToolPool.AddMissingTools` | refact-agent/engine/src/app_state.rs:567-573 | every instance is appended to the queue of its own key |
| `ToolPool.PutAllInOrder` | refact-agent/engine/src/app_state.rs:534-573 | first in, first out: added instances queue up behind those there, in their order, key by key |
| `ToolPool.TurnToolPool.VectorBuildsNeeded` | refact-agent/engine/src/app_state.rs:1069-1079 | the number of vectors is the largest deficit over the requested slots |
| `ToolPool.VectorsFillSlots` | refact-agent/engine/src/app_state.rs:1080-1086 | n vectors, each with an instance of a key, grow that key's queue by at least n |
| `ToolPool.RunKeepsAll` | refact-agent/engine/src/app_state.rs:830-878 | every state of every interleaving keeps single flight, the pending wake-up and conservation |
| `ToolPool.AtMostOneExpansion` | refact-agent/engine/src/app_state.rs:851-869 | two tasks are never expanding at once |
| `ToolPool.EveryInstanceIsInOnePlace` | refact-agent/engine/src/app_state.rs:511-573 | every built instance is in exactly one queue slot or in exactly one hand, or was destroyed with a cancelled future |
| `ToolPool.TakenToolMatchesRequest` | refact-agent/engine/src/app_state.rs:839-846 | an instance a task obtains has the key the task asked for |
| `ToolPool.BlockedWaiterCanBeWoken` | refact-agent/engine/src/app_state.rs:870-873 | no lost wake-up: in every reachable state with a blocked waiter some task, running alone for at most five steps, wakes it, whatever vector its expansion builds |
| `CatalogCache.EveryStateKeepsInv` | refact-agent/engine/src/app_state.rs:892-934 | every interleaving, with cancellation anywhere, keeps the lock discipline although lock entries are removed under waiting tasks |
| `CatalogCache.CacheStaysBounded` | refact-agent/engine/src/app_state.rs:611-619 | never more than 128 snapshots |
| `CatalogCache.BuiltAtMostOnce` | refact-agent/engine/src/app_state.rs:910-934 | a key never evicted is published at most once, and is built at most once exactly when no finished build was abandoned, or just one was and none was published or is being inserted |
| `CatalogCache.BuildsAreAccountedFor` | refact-agent/engine/src/app_state.rs:910-934 | over every run the builds of a key are the published, the abandoned and the pending ones |
| `CatalogCache.CancelledBuildIsRepeated` | refact-agent/engine/src/app_state.rs:919-930 | a run in which a caller is cancelled between building and inserting and the next one builds again |
| `CatalogCache.CallersShareOneSnapshot` | refact-agent/engine/src/app_state.rs:913-933 | all callers of a key never evicted return the one published snapshot |
| `CatalogCache.CachedIsReturned` | refact-agent/engine/src/app_state.rs:913-920 | over every run who finds the key cached gets it at once without a lock, and nobody begins to build what is cached |
| `CatalogCache.LockEntryHasReason` | refact-agent/engine/src/app_state.rs:599-623 | over every run a lock entry belongs to a caller on its way to that lock or holding it, unless some caller of the key was cancelled or served by the second look |
| `ReleaseClaims.EveryStateKeepsInv` | plugins/vscode/src/hostRelease.ts:54-87 | every interleaving of runs, failures, crashes and power losses keeps the ledger invariant, in full where directories are flushed and up to a power failure on Windows |
| `ReleaseClaims.InstalledAtMostOnce` | plugins/vscode/src/hostRelease.ts:79-84 | the install effect for one prepared hash happens at most once: ever, or on Windows up to a power failure |
| `ReleaseClaims.ClaimPrecedesEffect` | plugins/vscode/src/hostRelease.ts:79-82 | when the effect is dispatched the run's own claim, outcome unknown, is there, and is durable except on Windows |
| `ReleaseClaims.ClaimStatusIsTruthful` | plugins/vscode/src/hostRelease.ts:70-84 | an installer reported as returned had its effect; a declined hash was never installed, on Windows up to a power failure |
| `ReleaseOutcomes.OutcomeIsRecorded` | plugins/vscode/src/hostRelease.ts:79-84 | over every run, once a run has saved, its claim says that the installer returned exactly if it did, up to the next power failure |
| `ReleaseOutcomes.OutcomeIsDurable` | plugins/vscode/src/nativeHostRelease.ts:76-82 | elsewhere than on Windows it says so for good, on disk too, once the directory is flushed |
| `ReleaseOutcomes.ConsentPrecedesEffect` | plugins/vscode/src/hostRelease.ts:72-82 | an installer is called only by a run whose user consented, for the artifact that was prepared |
| `ReleaseOutcomes.RefusalIsRecorded` | plugins/vscode/src/hostRelease.ts:70-75 | a run whose user refused ends with a claim that says so, durable except on Windows |
| `ReleaseOpening.OpensIntoCleanLedger` | plugins/vscode/src/nativeHostRelease.ts:63-75 | over every run a claim file is made only beside whole claims of fewer than 128 other hashes, so the exclusive creation never fails |
| `ReleaseOpening.NobodyWaits` | plugins/vscode/src/nativeHostRelease.ts:64-66 | whoever finds the lock taken gives up |
| `ReleaseOpening.LockIsTakenWhileUsed` | plugins/vscode/src/nativeHostRelease.ts:63-75 | without crashes the lock is taken exactly while some run works under it |
| `ReleaseOpening.AskedOnlyUnclaimed` | plugins/vscode/src/hostRelease.ts:58 | nobody is asked about a hash that was claimed when its run looked, nor beside an unfinished claim |
| `ReleaseOpening.LedgerIsFiled` | plugins/vscode/src/hostRelease.ts:34-39 | over every run each file holds a claim of its own hash, and its ids are short and cannot lead out of a directory |
| `ReleaseOpening.UnflushedIsLost` | plugins/vscode/src/nativeHostRelease.ts:58-62 | flushing the directory makes its entries durable, but not contents that were never flushed |
| `ReleaseClaims.InstalledHashStaysClaimed` | plugins/vscode/src/nativeHostRelease.ts:58-82 | an installed hash keeps a durable readable claim through any later failure, on Windows a readable one up to a power failure |
| `ReleaseClaims.WindowsPowerLossReinstalls` | plugins/vscode/src/nativeHostRelease.ts:58-62 | on Windows, without the directory flush, every hash has a run that installs it, loses power and installs it again |
| `ReleaseClaims.LedgerStaysBounded` | plugins/vscode/src/nativeHostRelease.ts:63-75 | never more than 128 claims |
| `ReleaseHistory.ClaimsAreNeverEvicted` | plugins/vscode/src/nativeHostRelease.ts:63-82 | over every run a durable entry stays for good, and any entry up to the next power failure |
| `ReleaseHistory.DeclinedIsFinal` | plugins/vscode/src/hostRelease.ts:70-84 | on every platform a durable declined claim stays as it is through the rest of the run, and its hash is not installed any more |
| `ReleaseHistory.DeclinedIsNeverInstalled` | plugins/vscode/src/hostRelease.ts:70-84 | so it was never installed and never will be, unless on Windows a power failure came before the claim |
| `ReleaseHistory.InstalledOnceSincePowerFailure` | plugins/vscode/src/hostRelease.ts:79-84 | on every platform no hash was installed twice since the last power failure |
| `ReleaseHistory.RepeatsArePowerFailuresApart` | plugins/vscode/src/hostRelease.ts:79-84 | two effects of one hash have a power failure between them |
| `ReleaseHistory.InstalledOncePerPowerCycle` | plugins/vscode/src/hostRelease.ts:79-84 | a hash is installed at most once more often than the power failed |
| `Crc32.Compute` | plugins/vscode/src/hostReleaseArchive.ts:5-12 | the nested loop computes the checksum of the whole buffer, of which the rows below give values and laws |
| `Crc32.PolynomialValue` | plugins/vscode/src/hostReleaseArchive.ts:9 | the register constant is 0xedb88320 |
| `CrcNumbers.StepIsShift` | plugins/vscode/src/hostReleaseArchive.ts:9 | the register step on bits is the step on 32-bit numbers |
| `CrcNumbers.OnesValue` | plugins/vscode/src/hostReleaseArchive.ts:6-11 | the register starts from and is complemented with 0xffffffff |
| `CrcNumbers.Residue` | plugins/vscode/src/hostReleaseArchive.ts:5-12 | any buffer followed by its own checksum, lowest byte first, leaves the register at 0xdebb20e3 |
| `CrcNumbers.CrcOfZero` | plugins/vscode/src/hostReleaseArchive.ts:5-12 | the checksum of one zero byte is 0xd202ef8d |
| `CrcNumbers.CrcOfDigits` | plugins/vscode/src/hostReleaseArchive.ts:5-12 | the checksum of the text 123456789 is 0xcbf43926 |
| `Crc32.ShiftInjective` | plugins/vscode/src/hostReleaseArchive.ts:9 | the register step is injective |
| `Crc32.ShiftSurjective` | plugins/vscode/src/hostReleaseArchive.ts:9 | every register has a predecessor: with injectivity the step is a bijection |
| `Crc32.ShiftByIsLinear` | plugins/vscode/src/hostReleaseArchive.ts:9 | any number of steps is linear over exclusive or |
| `Crc32.AbsorbAllConcat` | plugins/vscode/src/hostReleaseArchive.ts:7-10 | the loop composes over concatenation |
| `Crc32.BytesAreBits` | plugins/vscode/src/hostReleaseArchive.ts:7-10 | byte-wise and bit-wise processing agree |
| `Crc32.BurstErrorsAreDetected` | plugins/vscode/src/hostReleaseArchive.ts:5-12 | two different buffers of one length that differ only within 32 consecutive bits have different checksums |
| `Crc32.FourCorruptBytesAreDetected` | plugins/vscode/src/hostReleaseArchive.ts:5-12 | corruption of up to four adjacent bytes, one byte included, is always detected |
| `VsixArchive.FindEnd` | plugins/vscode/src/hostReleaseArchive.ts:16-20 | all reads in bounds; the end record nearest the end whose comment reaches exactly to the end, or none in reach |
| `VsixArchive.ReadEntry` | plugins/vscode/src/hostReleaseArchive.ts:29-54 | all reads in bounds; the one entry that agrees with the central record, its local header and its checksum, or none exactly when there is none |
| `VsixArchive.ReadEndRecord` | plugins/vscode/src/hostReleaseArchive.ts:16-24 | the end record is found exactly when there is a consistent one nearest the end of the buffer |
| `VsixArchive.ReadDirectory` | plugins/vscode/src/hostReleaseArchive.ts:25-64 | the loop reads a directory exactly when there is one: entries tile it, with no range and no case-folded name used twice |
| `VsixArchive.DirectoryUnique` | plugins/vscode/src/hostReleaseArchive.ts:25-64 | a directory can be read in only one way |
| `VsixArchive.Verify` | plugins/vscode/src/hostReleaseArchive.ts:14-66 | accepts exactly the archives whose entries tile the central directory, with names different ignoring case, local ranges disjoint and before it, checksums right, and digests and version as requested |
| `VsixRoundTrip.PackAndVerify` | plugins/vscode/src/hostReleaseArchive.ts:14-66 | an archive written field by field, lowest byte first, from any stored and deflated files with safe names different ignoring case and within the limits, with or without descriptors, is accepted exactly when the request names its digest, the manifest of its files and its version |
| `VsixRoundTrip.FilesAreManifest` | plugins/vscode/src/hostReleaseArchive.ts:55-62 | the files found are exactly the written files below `extension/`, by their names there, but the package description |
| `VsixWriter.ItemIsFound` | plugins/vscode/src/hostReleaseArchive.ts:29-54 | a written file is read back from its two headers with its name and contents |
| `VsixWriter.SafePathIsGood` | plugins/vscode/src/hostRelease.ts:40-43 | a name is safe exactly when it is a list of parts, none empty, `.` or `..`, without control characters, `\` and `:`, of fewer than 4096 bytes |
| `VsixWriter.AllowedFlagsAre` | plugins/vscode/src/hostReleaseArchive.ts:37 | flags are allowed exactly when no bit but 1, 2, 3 and 11 is set |
| `VsixHeaders.AcceptedArchive` | plugins/vscode/src/hostReleaseArchive.ts:14-66 | what is accepted keeps to the limits, and its bytes carry the signatures, agree in both headers in all they both state, are not encrypted, and hold stored files as they are |
| `VsixArchive.LocalRangesFit` | plugins/vscode/src/hostReleaseArchive.ts:41-47 | the lengths of the local ranges sum to at most the start of the central directory |
| `VsixArchive.CentralRecordsTile` | plugins/vscode/src/hostReleaseArchive.ts:29-65 | the lengths of the central records sum to the directory's length |
| `InlineDiff.PresentedIsMerged` | plugins/vscode/src/interactiveDiff.ts:115-248 | the edited document spells out all parts of the diff, exactly for the faithful presentations |
| `InlineDiff.RollbackRecoversOld` | plugins/vscode/src/interactiveDiff.ts:333-366 | the merged text without the added lines is the old text, exactly when the new text ends a line |
| `InlineDiff.AcceptRecoversNew` | plugins/vscode/src/interactiveDiff.ts:369-389 | the merged text without the deleted lines is the new text |
| `InlineDiff.AcceptingGivesNew` | plugins/vscode/src/interactiveDiff.ts:107-389 | presenting and then accepting gives the new text, exactly for the faithful presentations |
| `InlineDiff.RejectingGivesOld` | plugins/vscode/src/interactiveDiff.ts:107-366 | presenting and then rejecting gives the old text with its final line break, exactly when the new text ends a line and an empty document keeps its line break |
| `InlineDiff.EmptyDocumentSwapsLines` | plugins/vscode/src/interactiveDiff.ts:117-148 | a concrete diff on an empty document that accepting turns around |
| `InlineDiff.EmptyDocumentKeepsAddition` | plugins/vscode/src/interactiveDiff.ts:117-366 | a concrete diff on an empty document, both texts ending lines, of which a reject keeps the added line |
| `InlineDiff.UnterminatedSurvivesReject` | plugins/vscode/src/interactiveDiff.ts:333-366 | a concrete diff whose unterminated last addition survives a reject |
| `InlineDiff.DeletingNothing` | plugins/vscode/src/interactiveDiff.ts:340-352 | with nothing remembered a rollback leaves the document alone |
| `EditorState.CollectEdits` | plugins/vscode/src/interactiveDiff.ts:142-247 | the two line counters give every insertion its place in the old document and every line its number in the merged one |
| `EditorState.StateOfEditor.PresentDiffToUser` | plugins/vscode/src/interactiveDiff.ts:107-251 | the document becomes the presentation and both kinds of lines are remembered, undisturbed by the announced edit |
| `EditorState.StateOfEditor.DislikeAndRollback` | plugins/vscode/src/interactiveDiff.ts:333-366 | exactly the added lines are deleted and everything remembered is forgotten |
| `EditorState.StateOfEditor.LikeAndAccept` | plugins/vscode/src/interactiveDiff.ts:369-419 | exactly the deleted lines go, the rollback of the mode change deletes nothing, and the shown change becomes the new text exactly when faithful |
| `EditorState.StateOfEditor.SwitchMode` | plugins/vscode/src/estate.ts:186-231 | leaving the diff mode rolls back, entering it presents the pending change on what is left |
| `EditorState.StateOfEditor.Reject` | plugins/vscode/src/estate.ts:192-195 | for every shown diff, changing mode restores the old text exactly when the new text ended a line and an empty document kept its line break |
| `EditorState.StateOfEditor.OnTextEdited` | plugins/vscode/src/estate.ts:303-330 | the handler never changes the text, ignores the machine's own edits and ends the diff on the user's |
| `EditorState.StateOfEditor.UserEdit` | plugins/vscode/src/estate.ts:312-320 | the user's own text stays as it is and nothing is left to delete |
| `GuiInventory.InventoryByLists` | refact-agent/engine/build_support/gui_artifact.rs:338-405 | however files are read, an inventory lists exactly the paths that are not left out, once each, in path order, each as it is in the tree |
| `GuiInventory.InventoryIsBounded` | refact-agent/engine/build_support/gui_artifact.rs:102-116 | at most 30000 entries and 2 GiB are ever listed |
| `GuiInventory.ShownExactly` | refact-agent/engine/build_support/gui_artifact.rs:317-336 | a source inventory leaves out exactly the outputs of builds, tests and tools at the root, by their names, and compiler caches anywhere |
| `GuiBudget.OnlyTotalsMatter` | refact-agent/engine/build_support/gui_artifact.rs:108-116 | the many small charges refuse a walk exactly when the grand totals of the tree exceed a limit, in whatever order and pieces they fall |
| `GuiBudget.PlannedIffSafe` | refact-agent/engine/build_support/gui_artifact.rs:363-390 | apart from the limits a tree is refused exactly for a node the walk comes across that has an invalid path, is too large or is special |
| `GuiBudget.RefusedExactlyWhen` | refact-agent/engine/build_support/gui_artifact.rs:338-405 | however files are read, a whole tree is listed exactly when all nodes are safe and its bytes, entries and reads stay within the limits |
| `GuiBudget.InventoryOfListBy` | refact-agent/engine/build_support/gui_artifact.rs:338-405 | however files are read, a list of a whole tree is its inventory exactly when the nodes are safe and the list with its reads is affordable; otherwise there is none |
| `GuiBudget.ShortReadsOnlyRefuse` | refact-agent/engine/build_support/gui_artifact.rs:298-309 | short reads change nothing in an inventory; they can only get it refused |
| `GuiInventory.InventoryDetermines` | refact-agent/engine/build_support/gui_artifact.rs:338-405 | trees with one inventory have the same paths, directories and, up to the hash, files |
| `GuiInventory.ReplayRebuilds` | refact-agent/engine/build_support/gui_artifact.rs:779-796 | replaying an inventory in order finds every parent already there and rebuilds the very tree |
| `GuiInventory.SplitJoin` | refact-agent/engine/build_support/gui_artifact.rs:118-128 | the text of a path splits into exactly its components |
| `GuiInventory.Walk` | refact-agent/engine/build_support/gui_artifact.rs:339-391 | the recursive loop with its shared budget computes the specified walk, whatever order directories are read in and whatever the reads return |
| `GuiInventory.ReadNames` | refact-agent/engine/build_support/gui_artifact.rs:353-363 | names read in any order come out sorted, each charged once |
| `GuiInventory.ReadFile` | refact-agent/engine/build_support/gui_artifact.rs:293-315 | a file is charged piece by piece, in whatever sizes reads return, and refused exactly when it or the budget is too large |
| `GuiInventory.TakeInventory` | refact-agent/engine/build_support/gui_artifact.rs:392-404 | the whole inventory, from an empty budget, whatever the reads return |
| `GuiPublish.RunKeepsInv` | refact-agent/engine/build_support/gui_artifact.rs:738-845 | every step of every run, with the source changing at will, keeps the publication invariant |
| `GuiPublish.DestinationIsPriorOrPublished` | refact-agent/engine/build_support/gui_artifact.rs:884-897 | on Linux the destination is at every step exactly the prior tree or the finished publication, and the prior tree after a refusal |
| `GuiPublish.PriorIsNeverLost` | refact-agent/engine/build_support/gui_artifact.rs:884-927 | elsewhere the prior tree is always at the destination or in the backup; on Linux there or in the retained stage |
| `GuiPublish.DonePublishes` | refact-agent/engine/build_support/gui_artifact.rs:738-845 | a finished publication holds exactly the manifest and the marker; with the source left alone, exactly the source and the marker |
| `GuiContents.ValidPathIs` | refact-agent/engine/build_support/gui_artifact.rs:118-128 | the text of a path is accepted exactly when it has at most 48 plain names of at most 255 characters and 1024 in all |
| `GuiContents.DoneIsUsable` | refact-agent/engine/build_support/gui_artifact.rs:675-698 | a finished publication has all four entry points, none of them empty, and plain paths only |
| `GuiContents.StagedMatches` | refact-agent/engine/build_support/gui_artifact.rs:779-796 | whatever becomes of the source meanwhile, all that was staged so far is what the manifest says |
| `GuiContents.OnlyOwnIsReplaced` | refact-agent/engine/build_support/gui_artifact.rs:855-882 | over every run nothing is moved out of the way but an intact publication of this engine, or by permission one without an owner |
| `GuiContents.CheckedTwice` | refact-agent/engine/build_support/gui_artifact.rs:826-828 | what is at the destination is looked at before anything is staged and again before anything is moved |
| `GuiLiveness.MarkerIsTransparent` | refact-agent/engine/build_support/gui_artifact.rs:816-823 | the marker changes nothing in the inventory but its own entry |
| `GuiLiveness.MarkerFits` | refact-agent/engine/build_support/gui_artifact.rs:816-823 | the marked tree can be listed exactly when the marker fits a file and its bytes, entry and chunks fit the rest of the budget |
| `GuiLiveness.PublicationCanSucceed` | refact-agent/engine/build_support/gui_artifact.rs:738-845 | with the source left alone, no error and a marker whose size fits a file and the rest of the budget some run completes the publication |
| `GuiPublish.PublishedPassesValidation` | refact-agent/engine/build_support/gui_artifact.rs:855-882 | if the marker can be decoded, the next publication accepts this one exactly when the marker is at most 16 MiB |
| `GuiOversize.OversizedMarkerIsRefused` | refact-agent/engine/build_support/gui_artifact.rs:804-882 | for any digest-like hash and any encoding that writes its paths out and keeps such lists within the limit of a file, some tree is published that the next publication refuses |
| `HealthProbe.CompleteKeeps` | plugins/vscode/src/launchRustHealth.ts:90-124 | an answer keeps "exactly one of timer and awaited probe", and does not leave the probe dead, exactly unless it makes `recover` throw without having stopped the probe |
| `HealthProbe.ExactlyOneWhileRunning` | plugins/vscode/src/launchRustHealth.ts:53-133 | over every run: exactly one of a timer and a current awaited probe while running and neither otherwise, or a dead probe, exactly when such a throw was not followed by a stop |
| `HealthProbe.DeadUntilStopped` | plugins/vscode/src/launchRustHealth.ts:53-60 | a dead probe ignores late answers and `start` |
| `HealthProbe.ThrowingRecoverKillsProbe` | plugins/vscode/src/launchRustHealth.ts:114-120 | a run whose throwing `recover` leaves a dead probe that `start` does not revive |
| `HealthProbe.RecoveryNeedsFailuresInARow` | plugins/vscode/src/launchRustHealth.ts:114-120 | `recover` runs exactly at the answer that completes `max(1, threshold)` failures in a row within one epoch |
| `HealthProbe.BackoffIsLevel` | plugins/vscode/src/launchRustHealth.ts:119-123 | the backoff depends only on the number of recoveries since the counters were cleared |
| `HealthProbe.BackoffClosedForm` | plugins/vscode/src/launchRustHealth.ts:121-122 | after k > 0 recoveries it is `min(max, initial * 2^k)` exactly when the cap is not negative, k is 1 or the first doubling is under the cap; for k = 0 exactly when `initial <= max` |
| `HealthProbe.RecoveryWaits` | plugins/vscode/src/launchRustHealth.ts:119-123 | in every run, after a recovery that leaves the probe alone the timer is set to the backoff of its level |
| `HealthProbe.OtherwiseWaitsInterval` | plugins/vscode/src/launchRustHealth.ts:53-118 | in every run a start, and every answer that counts and does not recover, sets the timer to the plain interval and the counter to none or one more; other answers change neither timer nor running |
| `HealthProbe.DisposedForGood` | plugins/vscode/src/launchRustHealth.ts:70-73 | after a dispose it never runs, waits or probes again, whatever is called and whatever answers |
| `HealthProbe.FirstWaitIgnoresCap` | plugins/vscode/src/launchRustHealth.ts:119-123 | with an initial backoff above the cap a run waits longer than the cap |
| `HealthProbe.WorkerHealthProbe.TimerFires` | plugins/vscode/src/launchRustHealth.ts:80-98 | firing sends one probe and keeps the invariant, whatever the probe callback calls |
| `HealthProbe.WorkerHealthProbe.ProbeAnswers` | plugins/vscode/src/launchRustHealth.ts:94-124 | the rest of a tick behaves as specified and keeps the invariant exactly under the stated condition |
| `HealthProbe.WorkerHealthProbe.StopProbing` | plugins/vscode/src/launchRustHealth.ts:62-68 | stopping restores the invariant from any consistent state |
| `StreamFraming.FramesAreConserved` | plugins/vscode/src/fetchAPI.ts:65-104 | for every cut into chunks, frames taken followed by the buffer's pieces are the pieces of the whole text, and the effects are those of the taken frames |
| `StreamEffects.StreamBringsAbout` | plugins/vscode/src/fetchAPI.ts:75-102 | for every cut into chunks: what was delivered is in order exactly what the taken data frames parse to, the error is that of the last frame taken that reports one, and the end was reported exactly if a done frame was taken, with the error until then |
| `StreamEffects.TerminalIs` | plugins/vscode/src/fetchAPI.ts:75-99 | a frame stops the loop exactly if it is data that says done or error, does not parse, or has a detail |
| `StreamEffects.CloseReports` | plugins/vscode/src/fetchAPI.ts:158-175 | closing makes a buffer that starts with `{` the error, by its detail or as it is, and reports the end if it is pending |
| `StreamFraming.NothingWaits` | plugins/vscode/src/fetchAPI.ts:140-157 | until a terminal frame was taken the buffer holds just the last piece |
| `StreamFraming.ChunkingDoesNotMatter` | plugins/vscode/src/fetchAPI.ts:140-157 | what is taken up to the first terminal frame depends on the text alone; without one the whole state does |
| `StreamFraming.EatIsFeed` | plugins/vscode/src/fetchAPI.ts:68-76 | splitting and joining again for every frame takes what one split shows |
| `StreamFraming.EndIsReportedOnce` | plugins/vscode/src/fetchAPI.ts:82-88 | over every run the end callback is called at most once, and a close leaves it called |
| `StreamFraming.PendingRequest.LookForCompletedData` | plugins/vscode/src/fetchAPI.ts:65-104 | the loop takes all complete frames up to the first terminal one |
| `Crlf.CleanupCrLf` | plugins/vscode/src/crlf.ts:4-24 | every cursor is moved and transmitted as specified |
| `Crlf.AddBackCrLf` | plugins/vscode/src/crlf.ts:26-42 | every cursor goes through the loop independently |
| `Crlf.RoundTrip` | plugins/vscode/src/crlf.ts:12-41 | adding back undoes cleaning for any integer cursor exactly when every carriage return left of it is paired there |
| `Crlf.RoundTripBetweenPairs` | plugins/vscode/src/crlf.ts:12-41 | on a text with only paired carriage returns that is every cursor not inside a pair |
| `Crlf.LoneReturnMovesCursor` | plugins/vscode/src/crlf.ts:12-41 | a lone carriage return moves the cursor behind it by one |
| `Crlf.CleanedCursorCutsAlike` | plugins/vscode/src/crlf.ts:14-18 | the cleaned cursor cuts the cleaned text where the cursor cut the text, exactly when it was not inside a pair |
| `Crlf.TransmittedCountsCodePoints` | plugins/vscode/src/crlf.ts:20-21 | the transmitted cursor counts code points left of it |
| `Crlf.TransmittedIsPosition` | plugins/vscode/src/crlf.ts:4-24 | for any text written in UTF-16 and a cursor between its code points, what is transmitted is the number of code points left of it in the cleaned text |
| `Versions.RunCompareVersions` | plugins/vscode/src/refactDaemon.ts:302-312 | the loops compute the three-way comparison |
| `Versions.CompareIsAntisymmetric` | plugins/vscode/src/refactDaemon.ts:302-312 | swapping the arguments swaps the sign exactly when no two infinite numbers meet at the position that decides |
| `Versions.CompareIsTransitive` | plugins/vscode/src/refactDaemon.ts:302-312 | the comparison is transitive, strictly where one side is strict |
| `Versions.CompareIsTotal` | plugins/vscode/src/refactDaemon.ts:302-312 | any two versions are comparable |
| `Versions.EqualsItselfIffFinite` | plugins/vscode/src/refactDaemon.ts:306-307 | a version equals itself exactly when its numbers are finite |
| `Rounding.OverflowIsBelowItself` | plugins/vscode/src/refactDaemon.ts:306-307 | with numbers infinite from 10^309 on, each of two such versions is below the other and below itself |
| `Rounding.RoundedOverflowIsBelowItself` | plugins/vscode/src/refactDaemon.ts:388-390 | under correct rounding that happens to 10^309 |
| `Precedence.AgreesWithSemVer` | plugins/vscode/src/refactDaemon.ts:302-312 | the comparison is the precedence of section 11 of SemVer 2.0.0, both ways round, exactly when the first position whose numbers differ points the way of the first difference in the texts; for numbers of any length and any monotone number parsing |
| `Precedence.ToldApartPointsRight` | plugins/vscode/src/refactDaemon.ts:302-439 | that holds whenever the numbers are finite up to the first difference and told apart there |
| `Precedence.ParseReadsBack` | plugins/vscode/src/refactDaemon.ts:375-396 | a well-formed version is read back as written, without `v` and build metadata |
| `LenientVersions.JunkIsSkipped` | plugins/vscode/src/refactDaemon.ts:375-386 | nothing before the first digit matters |
| `LenientVersions.NoDigitsIsZero` | plugins/vscode/src/refactDaemon.ts:375-386 | a text without digits, and no text at all, is version zero |
| `LenientVersions.MissingNumbersAreZero` | plugins/vscode/src/refactDaemon.ts:378-390 | one or two numbers are read as if zeros had been written for the missing ones |
| `Versions.BlanksAreTrimmed` | plugins/vscode/src/refactDaemon.ts:376 | white space around a version does not matter |
| `Precedence.TextsCompareAsSemVer` | plugins/vscode/src/refactDaemon.ts:302-439 | so the texts of well-formed versions compare as section 11 says under exactly that condition |
| `Precedence.SmallTextsCompareAsSemVer` | plugins/vscode/src/refactDaemon.ts:302-439 | with all numbers below 2^53 texts compare as section 11 says |
| `Rounding.ParseIntIsParser` | plugins/vscode/src/refactDaemon.ts:388-390 | correct rounding to doubles, ties to even, is monotone and exact below 2^53 |
| `Rounding.RoundedVersionsCompareEqual` | plugins/vscode/src/refactDaemon.ts:305-309 | under correct rounding 2^53 and 2^53 + 1 as major numbers compare equal, although one version is lower |
| `Rounding.RoundedPrereleasesCompareEqual` | plugins/vscode/src/refactDaemon.ts:425-431 | the same for numeric pre-release identifiers, after any three small numbers |
| `Rounding.AccidentalAgreement` | plugins/vscode/src/refactDaemon.ts:305-309 | major numbers rounded to one, and yet compared rightly because of the minor numbers |
| `Versions.LatestIsMaximal` | plugins/vscode/src/refactBinaryResolver.ts:279-286 | whatever sorted arrangement is popped from, the result is a candidate that no candidate exceeds |
| `Versions.VersionsCanBeSorted` | plugins/vscode/src/refactBinaryResolver.ts:279-286 | every list of texts, infinite numbers included, has a sorted arrangement |
| `Versions.CandidatesAre` | plugins/vscode/src/refactBinaryResolver.ts:279-286 | the candidates are exactly the published texts without the white space around them, where something is left |
| `LogSweep.SweepLogsDir` | refact-agent/engine/src/cache_maintenance.rs:29-73 | the summary counts and sums exactly the removed files |
| `LogSweep.RemovesShortestPrefix` | refact-agent/engine/src/cache_maintenance.rs:54-71 | with every removal succeeding, exactly the shortest oldest-first prefix goes that leaves nothing expired and no more than 2 GiB |
| `LogSweep.SurvivorsAreJustified` | refact-agent/engine/src/cache_maintenance.rs:57-71 | with failing removals, an expired file survives only if it could not be removed, and over the limit so does every survivor |
| `LogSweep.OnlyEligibleRemoved` | refact-agent/engine/src/cache_maintenance.rs:36-53 | only regular files whose names start with `rustbinary.`, with today's date nowhere in their names are ever removed, at the earlier of their time stamp and the date in their name |
| `LogSweep.ExpiredIsRemoved` | refact-agent/engine/src/cache_maintenance.rs:36-71 | every such file more than 14 days old that can be removed is |

## Left out

- A collision of the 64-bit correlation hash; the registry then refuses the question, which is modelled as a failed ask.
- `AttentionBudget::queue` and `wait`: a read-only listing and a call into the registry; they would only add easy members.
- Interference by the registry inside one call of the class `AttentionBudget`: the class is sequential, and the machine's `ServiceStep` between any two atomic steps covers it.
- The clock of the attention budget is assumed monotone.
- The tool pool's construction of instances and the catalogue's build are opaque; a newcomer may take an expander's fresh instance, so a take may still return none.
- That `build_locks` becomes empty: the second look returns without removing its entry (`LockEntryHasReason` says when one may stay).
- The path of the catalogue with its cache switched off: it builds anew on every call.
- The request checks between fetching and consent in `run`: one step that may fail.
- Hashing, text decoding, case folding, decompression and JSON are parameters, with the marker assumed to be decodable where that matters.
- Operating-system file identity, links and hard links: a link or special file is one kind of node.
- The diff library: assumed to give both texts in whole lines, without empty parts, removals before the additions that replace them.
- Documents with CRLF line ends in the inline diff: text is modelled with single line breaks.
- Overlapping asynchronous editor events: each event of the editor runs to its end before the next.
- Decorations, scrolling and the character-level highlights of a diff.
- The build inputs, toolchain and controller checks of the GUI artifact: a step that may refuse.
- Rounding of the health probe's delays.
- Multi-byte characters cut between chunks, and overlapping `readable` callbacks of a stream.
- Number parsing of versions is a parameter, assumed monotone, with correct rounding as one instance; an engine that is not even monotone past 20 digits is not covered.
- 64-bit wrap-around of byte totals in the log sweep, and the calendar arithmetic of its file names.
- `HostReleaseOwner.reconcile`, network clients, downloads, daemon start-up, the web view and the status bar.
