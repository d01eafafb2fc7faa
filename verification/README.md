# Verified model of Project A's stateful cores

The project models, in Dafny, the parts of the repository whose correctness is about many steps
rather than one: the dedupe transaction and point-of-use authority of the event contract, the
durable story and job store with its ticking workers, the replayed numeric market state, the
canonical JSON printer with its strict reader, and the ledgers and prefix-stable analyses that
replay or extend what they have said before. Each core has

- a file of step functions on plain values, one per operation, which are the specification;
- where the original updates objects, tables or files in place, a class with these fields whose
  methods are proved to take exactly those steps, or a loop proved against its function;
- a file of lemmas over whole runs: invariants kept by every step, and the theorems drawn from them.

| files | what they cover |
|---|---|
| `decimal_text.dfy`, `canonical_json.dfy` | numbers and documents as canonical text, and the strict reader |
| `semantic_evidence.dfy` | the evidence projection, its normal form, the identities of an event |
| `dedupe_steps.dfy`, `dedupe_authority.dfy`, `dedupe_runs.dfy`, `dedupe_guarantees.dfy`, `dedupe_interleaved.dfy` | receipts, both indexes, authorizations, all runs, raw calls interleaved |
| `hash_chain.dfy`, `stored_text.dfy`, `stored_logs.dfy`, `attempts_file.dfy` | the three hash-chained logs, two of which read printed text again |
| `analysis_steps.dfy`, `analysis_store.dfy`, `analysis_runs.dfy`, `analysis_guarantees.dfy`, `analysis_stale.dfy`, `analysis_names.dfy` | stories, jobs, leases, results, all runs of all workers |
| `numeric_steps.dfy`, `numeric_state.dfy`, `numeric_runs.dfy`, `numeric_orders.dfy`, `level_identity.dfy` | replay of market events, tracked level, arrival orders, level identity |
| `structure_read.dfy` | pivots, zigzag swings, labels, and what new bars cannot change |
| `dispatch_ledger.dfy`, `review_service.dfy`, `capture_engine.dfy` | dispatch attempts, review verdicts, capture results |

`dafny verify dfyconfig.toml` checks everything.

## Conventions

SHA-256 is a free constructor over its input, so equal digests mean equal inputs; where a digest is
truncated the full one is meant. Times are integers. Random tokens are numbers not used before.
What schema checks, browsers, models, providers, clocks and disks answer is a parameter of the step
that asks, so every answer at every moment is covered. Python objects compared with `is` carry an
identity. SQL tables are sequences and an immediate transaction is one step; an exception leaves no
trace of its transaction.

The run theorems speak of these calls:

- dedupe: `process_*` and `verify_and_authorize` as single units, consumption, advance, close and
  rollback in any order, under any injected failure; and, apart from these, the raw calls of two
  transactions in any interleaving;
- analysis store: the store calls of ticks, each worker pausing or dying anywhere between two of
  them, with triggers and closures between;
- review: the lock holder's stretches of work, each append split into its reading and its write,
  interleaved with the readings and writes of reviews that fail to take the lock (and still append
  an attempt), crashes, and removal of a dead holder's lock file;
- capture: every single write of an attempt, whole or torn, with crashes and files altered, removed
  or planted from outside between;
- logs: additions one after another, those that raise leaving no trace; for the attempts file also
  any number of overlapping appends; for the dispatch ledger two overlapping consumptions.

Where the code and what is said of it differ, the model follows the code:

- Whole numbers from 10^64 up are printed but refused when their text is read and printed again
  (`CanonicalJson.LargePowerIsNotReread`). The attempts file verifies by reading its own text and
  takes raw values from dispatches, so made only by appends it need not verify: exactly when it does
  is `AttemptsFile.AttemptsVerifyIff`, and for overlapping appends `RacesVerifyIff`. A line separator
  inside a string also ends the file (`SeparatorEndsTheFile`). The audit table is verified in the
  same way, but what its callers add always verifies (`StoredLogs.StoreAuditVerifies`).
- A technical failure is recorded without asking for the lease, so it can follow COMPLETED, and the
  story is then stuck (`AnalysisStale.CompletedIsLeftIff`, `StaleFailureHappens`, `StuckForever`).
- The order in which events arrive can decide what is accepted (`NumericOrders.EveryOrderAcceptedIff`
  says for which sets it does not).
- Swings are read with a threshold that moves with ATR, so they can be repainted
  (`StructureRead.HarmlessIff`, `WideBarRepaints`).
- Normalised evidence does not tell a number from its own text (`SemanticEvidence.NumberAndTextCoincide`).
- A lapsed capture lease counts as a failed attempt, so it shortens the retries left, but never
  ends them by itself; only a reported failure does (`AnalysisGuarantees.LapsesAreAccounted`,
  `LapsesNeverExhaust`).
- A review that is refused, whether for a conflicting fingerprint or because the lock is held,
  appends an attempt. After a completed verdict that line withholds the cached verdict for good; and
  so does, without any later attempt, a record that does not come back from its text or an overlap
  of appends (`ReviewRuns.ReplayReleasesIff`, `WithheldForGood`, `VerdictsLostAtOnce`).
- The dispatch ledger has no lock, so overlapping consumptions handle one retry twice and lose an
  attempt (`DispatchLedger.AttemptLostIff`).
- An analysis lease held under a name that begins with "capture:" is taken for a capture lease
  (`AnalysisNames.FencedIffOrdinary`); the program's own worker has no such name.
- A recorded capture is returned, and its lost result file restored, only until thirty minutes after
  its event (`CaptureRuns.LostFileIsRestored`, `LateIsLost`).
- Neighbouring zigzag swings can come closer than the threshold (`StructureRead.GapCanShrinkIff`).

## Model

| member | source | states |
|---|---|---|
| `DecimalText.EstimatedLengthIsExact` | contracts/validation.py:100-121 | The length estimate made before any text is built is exactly the length of the unstripped fixed form, so the second length check can never fire. |
| `DecimalText.SameNumberIff` | contracts/validation.py:50-59 | Two decimals are the same number exactly when their forms without trailing zeros are identical; this is the notion of numeric equality used everywhere else. |
| `DecimalText.RenderDecimalText` | contracts/validation.py:83-121 | Every accepted decimal prints as the fixed form of its lowest terms, so equal numbers print alike however they are spelt. |
| `DecimalText.RenderIntText` | contracts/validation.py:70-82 | An accepted integer prints as the decimal of the same value would. |
| `DecimalText.ReadNumberText` | contracts/event_v1.py:89-116 | Reading the printed text of any number gives that number back and leaves the rest of the text untouched. |
| `CanonicalJson.ReadRendered` | contracts/event_v1.py:89-116 | The strict reader gives back every accepted value of any nesting exactly as its text spells it, in front of any following text, and that is the printed value up to numeric equality. |
| `CanonicalJson.DocumentRoundTrip` | contracts/event_v1.py:89-116 | Reading a rendered document succeeds and gives it back as its text spells it, up to numeric equality the original, with no duplicate-key or trailing-text error. |
| `CanonicalJson.SameFormSameText` | contracts/validation.py:61-134 | The text depends on the value only up to numeric equality: key order and number spelling leave no trace. |
| `CanonicalJson.SameTextIff` | contracts/validation.py:61-134 | Two accepted documents print alike exactly when they are equal up to numeric equality. |
| `CanonicalJson.RereadAcceptedIff` | contracts/validation.py:71-121 | What was read back from a printed number is accepted for printing again exactly when the number is zero or below 10^64 in magnitude. |
| `CanonicalJson.LargePowerIsNotReread` | contracts/validation.py:71-121 | 1E+64 prints, and what is read back from its text is refused: the accepted set is not closed under a round trip. |
| `SemanticEvidence.NormalizeIff` | contracts/event_v1.py:673-680 | Two values normalise alike exactly when they are the same evidence: numbers by value, timestamps by instant, a number and its canonical text alike, everything else literally. |
| `SemanticEvidence.SemanticHashIff` | contracts/event_v1.py:716-720 | Two events share a semantic evidence hash exactly when their projections are the same evidence. |
| `SemanticEvidence.ReorderedEvidence` | contracts/event_v1.py:695-708 | Reordering the hpa or momentum entries leaves the hash unchanged. |
| `SemanticEvidence.OutsideFieldIgnored` | contracts/event_v1.py:682-708 | Changing any member outside the projection and the setup identity leaves the projection unchanged. |
| `SemanticEvidence.CanonicalHashFixesIdentity` | contracts/event_v1.py:682-720 | Equal canonical hashes imply equal semantic hash, setup id and event class, so an exact duplicate is always a semantic one. |
| `SemanticEvidence.NumberAndTextCoincide` | contracts/event_v1.py:673-680 | Normalisation conflates a number with its own text, shown on 1 and "1". |
| `DedupeAuthority.InMemoryDedupeAuthority.BeginReceiptTransaction` | contracts/event_v1.py:292-303 | A new transaction, numbered by the authority's counter, in its initial state, or what is raised: unavailable, not a replay context, or the injected failure. |
| `DedupeAuthority.ReceiptTransaction.RecordReceipt` | contracts/event_v1.py:369-375 | The object takes the step of the specification or raises and stays as it was. |
| `DedupeAuthority.ReceiptTransaction.ReserveExact` | contracts/event_v1.py:377-386 | The same for the exact reservation; the authority is only read. |
| `DedupeAuthority.ReceiptTransaction.ReserveSemantic` | contracts/event_v1.py:388-397 | The same for the semantic reservation. |
| `DedupeAuthority.ReceiptTransaction.PersistDecision` | contracts/event_v1.py:399-416 | The same for persisting a decision, which must agree with the reservations. |
| `DedupeAuthority.ReceiptTransaction.ApplyCommit` | contracts/event_v1.py:418-433 | The receipt row and both indexes change together or not at all. |
| `DedupeAuthority.ReceiptTransaction.Commit` | contracts/event_v1.py:435-450 | Transaction, authority and outcome after commit, with a failure or an unknown outcome possible. |
| `DedupeAuthority.ReceiptTransaction.InvalidatePending` | contracts/event_v1.py:541-545 | One pass turns every PENDING state INVALIDATED, keeps the others and clears the registered authorizations. |
| `DedupeAuthority.ReceiptTransaction.Rollback` | contracts/event_v1.py:452-460 | Only an open, uncommitted transaction rolls back. |
| `DedupeAuthority.ReceiptTransaction.Close` | contracts/event_v1.py:462-468 | Closing invalidates what is pending, once. |
| `DedupeAuthority.ReceiptTransaction.IssueAuthorization` | contracts/event_v1.py:475-499 | At most one authorization per generation and action, and only after commit. |
| `DedupeAuthority.ReceiptTransaction.ConsumeAuthorization` | contracts/event_v1.py:511-539 | Only the registered object itself, in the current generation, is consumed. |
| `DedupeAuthority.ReceiptTransaction.AdvanceGeneration` | contracts/event_v1.py:547-561 | An unused generation is left, with everything pending invalidated. |
| `DedupeAuthority.ProcessIdentified` | contracts/event_v1.py:838-870 | The calls of one receipt, in order, up to the first that raises, with the shape check of the built document between reservations and decision, take the specified step on transaction and authority. |
| `DedupeAuthority.ProcessInTransaction` | contracts/event_v1.py:873-891 | The same with preflight before and a rollback after a failure. |
| `DedupeAuthority.ProcessReceipt` | contracts/event_v1.py:894-911 | The same on a transaction of its own, if one can be begun, closed at the end. |
| `DedupeAuthority.VerifyAndAuthorize` | contracts/event_v1.py:918-963 | Verification issues exactly when the specification does - shape, bytes and eligibility against the rebuilt document - and otherwise changes nothing. |
| `DedupeRuns.RunKeepsInv` | contracts/event_v1.py:305-561 | Every run of any calls on any number of transactions, under any injected failures, keeps the whole invariant. |
| `DedupeRuns.VerifyEffect` | contracts/event_v1.py:918-963 | A document is authorized only if it carries the hashes of the one rebuilt from the receipt's own bytes, and a gated action only for a receipt that repeats nothing. |
| `DedupeRuns.ProcessFirst` | contracts/event_v1.py:838-870 | A first attempt applies exactly its own log entry with the decision the log calls for, or leaves the authority as it was. |
| `DedupeGuarantees.AtMostOnce` | contracts/event_v1.py:305-561 | Over every run, no transaction has an action consumed twice, and no action but AUDIT_ACCEPTANCE - DISPATCH among them - is consumed twice for one semantic evidence hash. |
| `DedupeGuarantees.IndexesAreTheLog` | contracts/event_v1.py:377-450 | After every run both indexes are the applied receipts grouped by key in commit order, each duplicate flag says exactly whether an earlier one has the key, and exact implies semantic. |
| `DedupeGuarantees.PriorIdsAreTheRepeated` | contracts/event_v1.py:377-397 | The prior ids of a decision are distinct event ids of applied receipts with its exact key or evidence hash: at most 16, and all of them when there are fewer. |
| `DedupeGuarantees.OnlyCommitsApply` | contracts/event_v1.py:838-870 | Processing changes the authority exactly when it succeeds or the commit outcome is unknown; a failure at any other stage changes neither index. |
| `DedupeGuarantees.TablesMatch` | contracts/event_v1.py:475-561 | In every transaction of every run, registered authorizations and PENDING states match one to one, all at the current generation, and so are all consumptions. |
| `DedupeGuarantees.StaleIsNeverConsumed` | contracts/event_v1.py:452-468 | Nothing issued before an advance or a close can be consumed after it, whatever happens next. |
| `DedupeGuarantees.AuthorizedDocumentIsOwn` | contracts/event_v1.py:918-963 | The evidence hash recorded on consumption is the one the verified document carries. |
| `DedupeGuarantees.FreshReceiptCommits` | contracts/event_v1.py:838-870 | An undisturbed first receipt commits exactly when its receipt id is unused and the document built from it has its shape, with the decision the log of applied receipts calls for; a refused document leaves the authority as it was, after both reservations. |
| `DedupeGuarantees.OwnDocumentDispatches` | contracts/event_v1.py:723-733 | The document built from a committed receipt is authorized for DISPATCH exactly when it has its shape, the event is ANALYSIS_READY and it repeats nothing, and is then consumed. |
| `DedupeInterleaved.BothAcceptedIff` | contracts/event_v1.py:305-450 | The lock is reentrant, so one thread can interleave the raw calls of two transactions. However two receipts of one fresh evidence hash are interleaved, repeated, failing or rolled back: if both end committed, both were accepted as new exactly when both semantic reservations precede either applied commit. |
| `DedupeInterleaved.UndisturbedBothAcceptedIff` | contracts/event_v1.py:838-866 | Interleaved in any way but undisturbed, both do commit, and both are accepted as new under exactly that condition. |
| `HashChain.Verify` | project_a_capture_service/audit.py:167-185 | The verification loop answers exactly whether every row's previous hash and own hash are right. |
| `HashChain.Log.Add` | project_a_capture_service/audit.py:88-103 | Appending adds one row chained to the last, or raises and adds none, and keeps a verified log verified. |
| `HashChain.AppendVerifies` | project_a_capture_service/audit.py:88-103 | Every capture log, whose chained fields are columns of their own, verifies when built by appends alone. |
| `HashChain.VerifiedIffBuilt` | project_a_capture_service/audit.py:167-185 | A log verifies exactly when appending its rows' fields in order builds it. |
| `HashChain.PrefixVerifies` | project_a_capture_service/audit.py:167-185 | Verification is closed under prefixes. |
| `HashChain.HeadFixesLog` | project_a_capture_service/audit.py:167-185 | Two verified logs with the same last hash are equal row for row, fields up to numeric equality. |
| `StoredText.ReprintIff` | contracts/validation.py:71-121 | A stored value, read back by plain json.loads, prints the same again exactly when every number in it is an int, zero, a whole number below 10^64 in magnitude, or a fraction that is a double's; at any nesting. |
| `StoredText.TextBreaks` | contracts/validation.py:61-69 | Printed text has a line end in it exactly when a string or key holds U+0085, U+2028 or U+2029, which the printer leaves as they are. |
| `StoredText.PartRefused` | project_a_ai_review/audit.py:211-215 | No proper beginning of a printed object is read as a document. |
| `StoredLogs.AuditTable.Add` | project_a_analysis/store.py:34-54 | One row chained to the last with the document as text, or the printer's exception and no row. |
| `StoredLogs.VerifyTable` | project_a_analysis/store.py:1095-1124 | The verification loop reads every text again and answers as the specification does: valid, broken, or an exception let through. |
| `StoredLogs.AuditVerifiesIff` | project_a_analysis/store.py:34-54 | A table built by any additions verifies exactly when every document added comes back the same from its own text, in the sense above. |
| `StoredLogs.TableIsChain` | project_a_analysis/store.py:1095-1124 | The table verifies exactly when every text is read and the rows so seen are a hash chain, so what is proved of chains holds of it. |
| `StoredLogs.StoreAuditVerifies` | project_a_analysis/store.py:202-1051 | The documents that the store's operations put on record hold strings, counts and nulls only, so after every sequence of operations, whatever the strings hold, the audit table verifies. |
| `AttemptsFile.AttemptsLog.AppendAttempt` | project_a_ai_review/audit.py:109-124 | The whole file is read for the last hash, then one line written; or an exception and the file as it was. |
| `AttemptsFile.AttemptsLog.VerifyChain` | project_a_ai_review/audit.py:204-222 | The loop over the lines answers exactly whether every line is read and is the next link. |
| `AttemptsFile.AttemptsLog.AttemptCount` | project_a_ai_review/audit.py:136-140 | The lines that are not blank are counted. |
| `AttemptsFile.AttemptsLog.FinalAttempt` | project_a_ai_review/audit.py:185-202 | The last readable line's object, nothing for an empty file, and a failure as soon as a line is not an object. |
| `AttemptsFile.AttemptsVerifyIff` | project_a_ai_review/audit.py:109-124 | A file built by any appends, one after another, verifies exactly when every record written comes back the same from its own text and none of its strings or keys holds a line separator. |
| `AttemptsFile.RacesVerifyIff` | project_a_ai_review/audit.py:109-124 | However many appends overlap on one file and however many die half way, it verifies exactly when moreover no line was written after another had come between its own reading and writing. |
| `AttemptsFile.SeparatorEndsTheFile` | project_a_ai_review/audit.py:112-116 | Once a record with a line separator is written, every further append raises. |
| `AttemptsFile.PrintableIsWritten` | project_a_ai_review/audit.py:109-124 | Until then exactly the printable records are written. |
| `AttemptsFile.LargePowerBreaksAttempts` | project_a_ai_review/audit.py:204-222 | A record whose correlation id is the number 1E+64 is written, and its own log no longer verifies. |
| `AnalysisTables.AnalysisStore.EnqueueTrigger` | project_a_analysis/store.py:175-294 | The tables after a LIQ or E1 trigger, or an exception and no change. |
| `AnalysisTables.AnalysisStore.ClaimCaptureJob` | project_a_analysis/store.py:633-684 | The same for claiming a capture, including putting back a lapsed lease. |
| `AnalysisTables.AnalysisStore.FailCapture` | project_a_analysis/store.py:686-732 | The same for a reported capture failure. |
| `AnalysisTables.AnalysisStore.Record` | project_a_analysis/store.py:734-809 | The same for recording a capture. |
| `AnalysisTables.AnalysisStore.ClaimNextJob` | project_a_analysis/store.py:811-842 | The same for claiming a job for analysis. |
| `AnalysisTables.AnalysisStore.BeginProviderAttempt` | project_a_analysis/store.py:868-897 | The same for the durable provider attempt. |
| `AnalysisTables.AnalysisStore.CompleteJob` | project_a_analysis/store.py:899-996 | The same for completing a job. |
| `AnalysisTables.AnalysisStore.RecordTechnicalFailure` | project_a_analysis/store.py:998-1022 | The row a technical failure appends, whatever the lease. |
| `AnalysisTables.AnalysisStore.Close` | project_a_analysis/store.py:1024-1051 | The same for closing a story. |
| `AnalysisTables.Tick` | project_a_analysis/worker.py:294-379 | An uninterrupted tick ends as the run of its store calls, in order, as moves of its worker. |
| `AnalysisRuns.RunKeepsInv` | project_a_analysis/store.py:605-1051 | Every run of ticking, stale and crashing workers, with triggers and closures in between, keeps the whole store invariant. |
| `AnalysisRuns.MaxE1Counts` | project_a_analysis/store.py:204-209 | MAX(e1_count) over a story's E1 jobs is one less than the number of its jobs, so the next count is the next number. |
| `AnalysisRuns.ActiveStoryPicks` | project_a_analysis/store.py:57-80 | An E1 goes to the story with the latest source time before its own if that story is open, and to none if that one is closed. |
| `AnalysisRuns.FirstPicks` | project_a_analysis/store.py:811-842 | The row a query with ORDER BY and LIMIT 1 picks: a wanted row that no wanted row precedes, or none when there is none. |
| `AnalysisRuns.RecordCaptureKeeps` | project_a_analysis/store.py:734-809 | Recording a capture is refused only for the lease or the evidence; the UNIQUE constraint fires only for a job claimed for analysis under a capture-like name. |
| `AnalysisGuarantees.ResultsComeInOrder` | project_a_analysis/store.py:811-842 | In every run each story's jobs are numbered 0..n without gap or repeat and those with results are exactly a prefix. |
| `AnalysisGuarantees.GuardIsNeverMet` | project_a_analysis/store.py:951-956 | No worker that holds a job, however stale, ever meets the story state monotonicity guard, and its capture is there. |
| `AnalysisGuarantees.UnclaimedCompletionMeetsGuard` | project_a_analysis/store.py:951-956 | Completing jobs without a claim does meet the guard. |
| `AnalysisStale.CompletedIsLeftIff` | project_a_analysis/store.py:998-1022 | For every system and move, a job's latest status is taken off COMPLETED exactly when the move is the give-up of a worker that still holds that job. |
| `AnalysisStale.StaleFailureHappens` | project_a_analysis/worker.py:294-379 | From an empty store two ordinary workers get there: a claim, a lease of 180 s that lapses, a second worker that completes, and the first one's failure; the job then has its result and TECHNICAL_FAILURE, for good. |
| `AnalysisStale.StuckForever` | project_a_analysis/store.py:811-842 | Over every further run such a job stays so, no later job of its story can be claimed, and none ever is. |
| `AnalysisGuarantees.StoriesAreOrderly` | project_a_analysis/store.py:951-984 | In every run a story has at most one CLOSED row, the last; counts strictly grow over ACTIVE rows; every row from the baseline's on carries its big picture and analysis. |
| `AnalysisGuarantees.ParentsGoDown` | project_a_analysis/store.py:212-213 | Parent links stay in the story, point to analyses with results and go strictly down in e1_count. |
| `AnalysisGuarantees.CapturesAreFenced` | project_a_analysis/store.py:633-806 | In every run, for every job not claimed for analysis under a capture-like name, each capture claim has exactly one end, nothing of the protocol follows CAPTURED, the capture table agrees, and at most five failures are reported, at waits of 30..900 s that never shrink. |
| `AnalysisGuarantees.OrdinaryNamesAreFenced` | project_a_analysis/store.py:633-809 | With worker names that do not read like a capture owner there are no such claims in any run, and the UNIQUE constraint of the capture table never fires. |
| `AnalysisGuarantees.LapsesAreAccounted` | project_a_analysis/store.py:639-732 | In every run, for every such job: capture claims are the lapsed, the reported, the captured and the one that may be running; failed attempts are lapses and retries; retries end only by a reported failure after at least four of them. |
| `AnalysisGuarantees.LapsesNeverExhaust` | project_a_analysis/store.py:639-661 | In a run in which no capture failure is reported no job is ever exhausted, however many leases lapse. |
| `AnalysisGuarantees.TokensAreFresh` | project_a_analysis/store.py:668-679 | No two capture claims of a run carry the same token. |
| `AnalysisGuarantees.StaleHolderIsFenced` | project_a_analysis/store.py:686-806 | Once a capture lease has ended or been taken over, its holder can never record a capture or a failure with it. |
| `AnalysisGuarantees.OneAttemptPerJob` | project_a_analysis/store.py:868-897 | In every run a job has at most one durable provider request. |
| `AnalysisNames.FencedIffOrdinary` | project_a_analysis/store.py:633-661 | Whatever workers start: in all their runs every job obeys that protocol, in all their runs every job's claims are so accounted for, and in all their runs the UNIQUE constraint stays silent, each exactly when no worker's name reads like a capture owner; for any such name a run from the empty store gets there. |
| `NumericState.NumericMarketState.RebuildFields` | project_a/numeric_state.py:833-1070 | The rebuild sets every field, the observations and Renko state shown beside included, to what the replay of the sorted events gives, or fails and leaves every field as it was. |
| `NumericState.OneEvent` | project_a/numeric_state.py:857-993 | The loop body takes the specified step for each family of event. |
| `NumericState.ScannersConflict` | project_a/numeric_state.py:1003-1021 | The scanner loop finds a conflict exactly when two scanner events of one kind about one bar disagree. |
| `NumericState.NumericMarketState.IngestEvent` | project_a/numeric_state.py:814-831 | Duplicates, conflicts, acceptance and refusal; whatever is not accepted leaves every field exactly as before. |
| `NumericState.NumericMarketState.SaveHistory` | project_a/numeric_state.py:1129-1134 | The history is the accepted events in their sorted order. |
| `NumericState.LoadHistory` | project_a/numeric_state.py:1136-1146 | A saved history loads without failure and shows the state of its events. |
| `NumericRuns.StateIsOfTheAcceptedSet` | project_a/numeric_state.py:814-834 | Two runs that accepted the same events, in any order and with any duplicates or refusals, show the same state. |
| `NumericRuns.SavedHistoryLoads` | project_a/numeric_state.py:1129-1146 | Every saved history is accepted record by record and shows the saved state, even where other arrival orders are refused. |
| `NumericRuns.PrefixRebuilds` | project_a/numeric_state.py:833-1021 | Every prefix of a sorted list that rebuilds, rebuilds: neither a transition nor a scanner conflict can go away. |
| `NumericRuns.TrackedLevelIsSafe` | project_a/numeric_state.py:868-993 | After every replay the tracked level exists, is active and on the side the latest confirmed fresh expansion expects; with none tracked every candidate is far; the history strictly alternates and ends in SELECTED exactly when a level is tracked; a level that ended is never selected again. |
| `NumericRuns.BestPicks` | project_a/numeric_state.py:954-977 | The selected level is a candidate that no candidate ranks before. |
| `NumericRuns.VersionsTie` | project_a/numeric_state.py:1149-1160 | The ranking leaves the level version out: of two versions otherwise alike the one inserted first is taken. |
| `NumericRuns.OneLevelReplays` | project_a/numeric_state.py:721-732 | The events of one level replay exactly when each lifecycle may follow the one before it. |
| `NumericOrders.ReplaysIff` | project_a/numeric_state.py:868-993 | A list of mixed events replays exactly when each level event may follow the last one of its own level before it. |
| `NumericOrders.RebuildsIff` | project_a/numeric_state.py:833-1021 | A set of events rebuilds exactly when its sorted list replays and no two scanner events disagree about one bar. |
| `NumericOrders.EveryOrderAcceptedIff` | project_a/numeric_state.py:814-834 | A set of events is accepted in full in every order of arrival exactly when, in its sorted list, of any two events of one level the later lifecycle may follow the earlier directly, and no two scanner events disagree. |
| `NumericRuns.StagesStand` | project_a/numeric_state.py:941-952 | The confirmed Renko stages are those confirmed since the last reset, invalidation or change of cycle. |
| `NumericRuns.RenkoStateShowsStanding` | project_a/numeric_state.py:1059-1070 | The Renko state shown has exactly the standing stages, by rank, and as maturity the one of highest rank. |
| `NumericRuns.PricePathIsRight` | project_a/numeric_state.py:852-861 | The price path holds every priced event in order, each step measured against the point before. |
| `NumericRuns.PairedWithTheOnlyMatch` | project_a/numeric_state.py:995-1046 | A scanner event is paired exactly when there is one directional expansion of its own symbol, feed, timeframe, bar and direction, and with that one. |
| `NumericRuns.ZonesFollowTheRatio` | project_a/numeric_state.py:637-661 | A distance is available exactly for fresh inputs and a price that has not reached the level, and its zone is that of the exact ratio. |
| `LevelIdentity.CanonicalDecimalIff` | project_a/numeric_state.py:100-110 | Two decimals have the same canonical text exactly when they are the same number. |
| `LevelIdentity.TicksIff` | project_a/numeric_state.py:331-341 | A price is n ticks exactly when it equals n times the tick size; nothing is rounded. |
| `LevelIdentity.PriceIdentityIff` | project_a/numeric_state.py:313-359 | Two levels on the grid get the same tick text and tick count exactly when price and tick size are equal numbers. |
| `StructureRead.DetectPivots` | analyze/swing_pivots.py:24-47 | The loop finds exactly the pivots of each kind, in order. |
| `StructureRead.PointsKept` | analyze/swing_pivots.py:24-47 | New bars only add pivots and points; none already there moves or goes. |
| `StructureRead.ZigzagSwings` | analyze/structure_state.py:50-65 | The loop computes the zigzag of its points. |
| `StructureRead.SwingSequence` | analyze/structure_read.py:39-57 | Highs and lows merged by index, then the zigzag; nothing for a missing threshold. |
| `StructureRead.NoRepaint` | analyze/structure_read.py:39-57 | For fixed k and threshold new bars keep every swing but the last; the swing in its place has its kind and is at least as extreme; kinds alternate. |
| `StructureRead.GapCanShrinkIff` | analyze/structure_state.py:50-65 | A later pivot can bring the last two swings closer than the threshold exactly when the last swing lies on the wrong side of the one before it. |
| `StructureRead.HarmlessIff` | analyze/structure_state.py:50-65 | A changed threshold is harmless, for the whole list of points and every beginning of it, exactly when no opposite-kind gap met along the fold lies between the old and the new one. |
| `StructureRead.BarsReadAlikeIff` | analyze/structure_read.py:39-57 | From bars: the swings read under two positive thresholds are the same after every single bar exactly when no opposite-kind gap met among the bars' points lies between the two; a bar that is a high and a low at once cannot make good a disagreement. |
| `StructureRead.ReadingKept` | analyze/structure_read.py:103-130 | When later bars change the ATR-made threshold without passing a gap met so far, nothing already read is repainted. |
| `StructureRead.WideBarRepaints` | analyze/structure_read.py:103-130 | From bars, threshold by ATR: one wide bar takes back two of the three swings read before it. |
| `StructureRead.Atr` | analyze/structure_state.py:21-32 | The mean true range of the last bars, nothing for too few. |
| `StructureRead.ReadTf` | analyze/structure_read.py:103-130 | Threshold, pivots, swings and labels of one timeframe, read in order. |
| `StructureRead.ConsecutiveHlLh` | analyze/structure_read.py:60-100 | The labels of all swings, and the longest run of confirming labels at their end. |
| `StructureRead.AlternatingLabels` | analyze/structure_read.py:60-100 | In an alternating list each swing from the third on is labelled against the one two places back. |
| `StructureRead.LabelsKept` | analyze/structure_read.py:60-100 | For fixed k and threshold new bars keep every label but the last, and a last HH or LL too. |
| `DispatchLedger.FileDispatchLedger.Save` | capture/project_a/consumer.py:55-67 | The record of one dispatch is replaced as a whole and no other changes. |
| `DispatchLedger.FindAttempt` | capture/project_a/consumer.py:89-92 | The first recorded attempt with the retry count, if any. |
| `DispatchLedger.ConsumeDispatch` | capture/project_a/consumer.py:70-151 | The ledger, the answer and whether the handler was called, for every delivery to any ledger, damaged records included. |
| `DispatchLedger.ConsumeKeepsFiles` | capture/project_a/consumer.py:70-151 | Recorded retry counts strictly increase, only the last attempt can have completed, and the record says exactly whether it did. |
| `DispatchLedger.RunKeepsInv` | capture/project_a/consumer.py:70-151 | Over every run a retry whose handler ran and was saved is never handled again; a second call for one retry means the first was lost before its save. |
| `DispatchLedger.CompletedAnswers` | capture/project_a/consumer.py:86-87 | COMPLETED is absorbing: after any further deliveries the same event gets the stored result without a call of the handler. |
| `DispatchLedger.LostIsRepeated` | capture/project_a/consumer.py:113-128 | A delivery lost before its save leaves the ledger as it was and is repeated under the same attempt id. |
| `DispatchLedger.UndisturbedIsConsume` | capture/project_a/consumer.py:70-151 | Load and save one after the other are the consumption of the specification. |
| `DispatchLedger.AttemptLostIff` | capture/project_a/consumer.py:55-151 | The ledger has no lock. However two consumptions of one dispatch are interleaved, an attempt made is missing from the ledger exactly when one saved while the other was between load and save, and then exactly one is; and one retry is attempted twice under exactly that condition. |
| `ReviewRuns.Review` | project_a_ai_review/service.py:186-398 | The sequential review makes the specified moves on the request's files, the attempts file as text, and releases exactly what it returns. |
| `ReviewRuns.TurnAway` | project_a_ai_review/service.py:380-387 | A review that fails to take the lock appends its failure all the same. |
| `ReviewRuns.Prepare` | project_a_ai_review/service.py:226-305 | Lock, metadata, preflight, cached verdict and attempt limit, up to the call of the model. |
| `ReviewRuns.ReplayCached` | project_a_ai_review/service.py:99-184 | The cached verdict is returned, silently withheld, or withheld with a failure appended, by its checks in their order. |
| `ReviewRuns.RequestDirectory.ChecksOut` | project_a_ai_review/service.py:142-166 | The attempts file is read again and verified, and its final attempt compared with the completed verdict. |
| `ReviewRuns.LogAnswer` | project_a_ai_review/service.py:321-360 | The answer is logged, or the invocation is lost. |
| `ReviewRuns.SaveCompleted` | project_a_ai_review/audit.py:155-165 | The completed verdict is written once, and only then released. |
| `ReviewRuns.RequestDirectory.EnsureRequestMetadata` | project_a_ai_review/audit.py:82-107 | The first fingerprint is kept; any other is refused. |
| `ReviewRuns.VerdictsAgree` | project_a_ai_review/service.py:226-360 | Over every run, with crashes, broken files and overlapping appends, all verdicts released for a request, fresh or cached, are one and the same under one fingerprint, and the model is invoked at most max_attempts times beyond the invocations whose line was not written. |
| `ReviewRuns.CompletedIsImmutable` | project_a_ai_review/audit.py:155-165 | The completed verdict never changes, attempt lines are only added, and after it only failures. |
| `ReviewRuns.ReplayReleasesIff` | project_a_ai_review/service.py:99-184 | A replay gets the verdict back exactly when it is the same request, passes its own checks, no attempt was recorded since, every record on file comes back the same from its text and breaks over no line, and no appends overlapped. |
| `ReviewRuns.WithheldForGood` | project_a_ai_review/service.py:142-166 | A completed verdict that any of the last three withholds once is withheld in every further run. |
| `ReviewRuns.VerdictsLostAtOnce` | project_a_ai_review/service.py:186-224 | Three runs from an empty directory release a verdict once and never again though no attempt follows it: a refused dispatch with the correlation id 1E+64, a retry_of with U+2028, and a refused dispatch whose append overlaps the verdict's. |
| `CaptureRuns.Capture` | project_a_capture_service/capture.py:526-689 | An uninterrupted capture refuses a request out of its time, makes the specified writes in order and returns a package exactly when the run hands one back. |
| `CaptureRuns.CaptureStore.BeginRequest` | project_a_capture_service/audit.py:105-134 | The pinned result of a request seen before, or a conflict for another request under the same id. |
| `CaptureRuns.CaptureStore.RecordResult` | project_a_capture_service/audit.py:136-154 | The result is pinned once; another is refused. |
| `CaptureRuns.CaptureStore.WriteImage` | project_a_capture_service/capture.py:470-479 | An image path is written once; other bytes are refused. |
| `CaptureRuns.CaptureStore.LoadReplay` | project_a_capture_service/capture.py:481-524 | The result file is restored to the pinned document, and the package is returned exactly when all pinned images are unaltered. |
| `CaptureRuns.CapturesAgree` | project_a_capture_service/capture.py:526-689 | Over every run, with crashes between or within writes and files altered, removed or planted outside, all successful captures return the same document and images; and unless one is planted, a result file exists only where the ledger has the result. |
| `CaptureRuns.PinnedIsFinal` | project_a_capture_service/audit.py:136-154 | Once recorded, result and request stay what they are over every further run. |
| `CaptureRuns.ReplaySucceedsIff` | project_a_capture_service/capture.py:494-544 | A replay succeeds exactly for the recorded request, from five seconds before to thirty minutes after its event, with every pinned image unaltered, whatever has become of the result file, which it restores exactly for that request in that time. |
| `CaptureRuns.LostFileIsRestored` | project_a_capture_service/capture.py:676-686 | After a crash between the ledger row and the result file the next capture of the request restores the file and returns the result, if it comes in that time; otherwise it changes nothing. |
| `CaptureRuns.LateIsLost` | project_a_capture_service/capture.py:539-541 | Captures that come later never restore the file nor return the result, whatever they try. |
| `CaptureRuns.UnboundFileStops` | project_a_capture_service/capture.py:549-557 | As long as a result file without a ledger row is left there, whatever is tried, no capture begins, nothing is recorded and nothing handed back. |
| `CaptureRuns.PlantedFileStops` | project_a_capture_service/capture.py:549-557 | A file planted before the first capture gets a request there. |

## Left out

- Sockets, browsers, CDP, Playwright, MCP, OpenAI, Telegram, Notion and FastAPI: foreign calls, present only as arbitrary answers.
- JSON Schema, pydantic and the long field checks of events, captures, grades and verdicts: opaque answers; they keep no state.
- Calendar parsing and formatting: a parameter with the laws it needs; all other times are integers.
- UTF-8, byte sizes, recursion depth and lone surrogates in JSON text: text is a sequence of characters, and the reader refuses an escape that is not one character.
- Decimal contexts and exponent limits when numbers are parsed, and division rounded to 50 digits: arithmetic is exact, so two distances equal after rounding need not tie here.
- Binary floats: prices in `structure_read.dfy` are reals, and rounding for display is not modelled; elsewhere a float is its shortest decimal, and the double nearest to a printed fraction is a parameter.
- What plain json.loads takes beyond the strict reader (repeated keys, NaN, lone surrogates, a number written with both point and exponent taken for an int): it matters only for stored text that was not printed by the program.
- StoredLogs.VerifyTable: takes the stored rows; the records it also returns for display are not modelled.
- Thread locks: each dedupe call is one step, as is each database transaction.
- AnalysisTables.AnalysisStore.RecordTechnicalFailure: does not model the TECHNICAL_FAILURE row of the attempts table, which nothing reads back.
- AnalysisTables.AnalysisStore.CompleteJob: does not model the VALIDATED row of the attempts table, which nothing reads back.
- AnalysisTables.AnalysisStore.EnqueueTrigger: does not model the request context document a job carries, only whether its baseline can supply the delta reads.
- The audit rows that store and capture operations append are modelled apart from the tables, by `StoredLogs.AuditTable` and `HashChain.Log`; worker heartbeats and read-only reports are left out.
- AnalysisGuarantees.CapturesAreFenced: leaves out jobs claimed for analysis under a name that begins with "capture:", in any case of letters; `AnalysisNames.FencedIffOrdinary` says that no less would do.
- AnalysisGuarantees.LapsesAreAccounted: leaves out the same jobs, for the same reason.
- NumericState.NumericMarketState.SaveHistory: returns the events; writing them as lines of base64 is not modelled.
- NumericState.LoadHistory: takes the parsed events; that parsing the saved bytes of an event gives that event again is not shown, nor is base64.
- A reader of the attempts file that meets another append's line half written: the write of one line is one step.
- ReviewRuns.VerdictsAgree: for reviews a write happens whole or not at all; files torn in mid-write, and lines written by an append that then reports a failure, are not modelled.
- Temporary files of atomic replacement, file permissions and path checks.
- `gates/*`, `publish/*`, `output/*`, `ingest/parser.py`, DXY and HTF state, tiers, request assembly, retention, alert triggers: truth tables and formatting, which would only add easy members.
