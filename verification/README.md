# NeedleProof: a model of its protocols and what they guarantee

NeedleProof answers questions about a closed document corpus and hands out receipts for its answers.
This project models the parts of the service that carry its guarantees and proves those guarantees
for every input, every run and every interleaving the model admits. `dafny verify dfyconfig.toml`
checks everything.

Code that changes state is modelled by classes and loops, each proved against a function of the old
state; the theorems are about those functions.

| part | modules | main results |
|---|---|---|
| token budget | `TokenTables`, `TokenDatabase`, `BudgetSafety`, `BudgetGrants` | committed capacity is recorded usage plus unspent reservations, counted once; both rolling limits hold at every point of every interleaving, and a reservation is granted exactly when they hold after the write |
| finalization, recovery, event delivery | `RunStore`, `RunLifecycle`, `CrashConvergence`, `RunOutcomes`, `EventDelivery` | a run whose finalizer operations succeed ends as intended; a delivered outcome is never contradicted later; one fault-free restart finishes any stopped run whose ledger appends and call records succeeded, and exactly which stores it finishes; every client is then sent the outcome |
| bounded absence | `MetricContext`, `AbsenceProtocol`, `AbsenceProducer`, `AbsenceAuthority`, `AbsenceOverIndex` | not-found against an arbitrary record means every metric occurrence was opened with its whole link chain and is benign; exactly what a probe opens and answers, and which records are authorized; producer and checker agree |
| hash-chained ledger | `HashLedger` | exactly which histories are accepted; equal heads mean equal chains or an explicit broken hash |
| text and arithmetic | `TextRuns`, `MetricTokens`, `ExactScan`, `KindAmbiguity`, `EvidenceMatch`, `DecimalForm`, `Periods`, `CandidateOrder`, `ClaimClassification`, `StatusMeaning`, `OrderIndependence`, `WordingOrder`, `OrderExample`, `TieExample`, `Chunker`, `ChunkGreed` | index narrowing equals the full scan, exactly when the scan fails closed on kind ambiguity, exact match enumeration, decimal normal form, period distinctness, what each claim status means, exactly when it is independent of the order of observations and of sets, chunk reconstruction, greedy and longest-carry chunking, and exactly when chunks fit |
| admission and tool budgets | `UsageWindow`, `UsageService`, `OpenedEvidence` | windows are exactly the standing admissions and never pass their limits, whoever asks seldom enough is admitted, a rollback erases exactly one; opened tokens are the sum over distinct opened chunks |

`Sums` (order-free sums over maps), `Listings` (lists of ids and requests to a table) and `Models` (shared vocabulary)
support the rest.

## What is assumed

- A database transaction, a row update, an atomic file replacement and a receipt read are single steps that take
  effect or do not. Clocks, randomness, search results and the outcome of each I/O step are parameters, so the
  theorems hold for every value of them.
- Text rules that the service writes as English patterns (numeric candidates, qualitative predicates, benign
  profiles, sentence boundaries, numeric and temporal patterns, which sentence binds values in conflict) are arbitrary
  deterministic functions. Two of them are separate: which sentences hold a relation and the metric at all, and what the
  relation decides there. The latter is a function of a sentence and of all that the code reads of the classified
  observations over it: kinds by number, kinds by phrase, and the list of places where the phrases are spelled. The
  set this list is sorted from is iterated in an arbitrary order, and only candidates at one span keep that order. (The
  other set the rule iterates, the measurements bound to the metric, is read for membership and for its last end.)
- The hash is an arbitrary function; nothing assumes it is injective.
- Letters are ASCII in the tokenizers. Case folding maps a character to an arbitrary nonempty string
  (section 3.13 of the Unicode Standard). The factor 1.32 is the rational 33/25.
- Budget safety assumes what the callers do: the clock is read before the transaction, a model call uses no more than
  the ceiling granted just before it, and a run is not released while a call of it is outstanding.
  `BudgetSafety.AppendExactly` says by how much the budget is passed when a call breaks that rule.

## Findings

- Claim status can depend on order, but only through qualitative values, and in two ways. First, the conflict rule
  looks for each kept raw text by its tokens, while deduplication compares words: `A.A.` and `A A` are one value, and
  only the one drafted first is looked for (`OrderExample.OrderCanMatter`, two orders of the draft, two statuses).
  Second, `AA` and `A.A.` are two values with equal token values, so both are found at the same spans, where the sort
  keeps the order of a set; a bridge relation reads the last one before it and the first one after it
  (`TieExample.TiesCanMatter`: one draft, two orders of the set, two statuses). Numbers and anchors never matter,
  however they are spelled (`OrderIndependence.NumbersAreOrderFree`).
  `OrderIndependence.OrderInsensitiveExactly` is the exact condition for the quoted sentences of a claim,
  `WordingOrder.OrderInsensitiveAnywayExactly` the one that holds whatever further context is quoted, and
  `WordingOrder.OrderInsensitiveInWords` reads it off the token values of the observations alone.
- A ledger append that fails leaves the counter one ahead, and so does a call record that fails. If the same process
  writes again, there is a gap that no number of restarts can seal (`CrashConvergence.GapNeverSeals`). Two runs reach
  such a gap: `CrashConvergence.FailedAppendNeverSeals` and `CrashConvergence.FailedCallRecordNeverSeals`. Convergence
  is claimed exactly where `CrashConvergence.ConvergesExactly` says.
- `docs/verification-boundary.md:141-142` says that a word/initialism ambiguity makes the exact scan fail closed. Over
  undotted all-capitals text it does (`KindAmbiguity.LooseRowRefuses`). Over dotted text it does exactly when the
  metric has no word of two or more letters (`KindAmbiguity.FailsClosedExactly`): the phrase variants respell
  initialisms only, so the metric `it` over a table that holds `i.t.` completes with nothing found
  (`KindAmbiguity.DottedShortFormSlips`). What the index never hides is a match of the same kind
  (`ExactScan.NarrowingLosesNothing`), which is what the absence theorems rest on.
- A chunk may exceed the token bound, since each part is rounded by itself: two one-word paragraphs under a bound of
  two make one chunk estimated at three (`Chunker.TwoWordsExceed`). Every chunk of every page stays within the bound if
  and only if the bound is one (`Chunker.PagesFitExactly`); `Chunker.PageLaw` is the bound that always holds.
- A reservation of a run that already has recorded usage is answered as if that usage came on top of it: the run is
  refused although the write would leave both windows within their limits (`BudgetGrants.BilledRunIsRefused`).
  `BudgetGrants.ReserveAnswers` is exact for every run; where a run reserves before its first call, as admission does,
  the answer is granted exactly if the budget holds afterwards (`BudgetGrants.FirstReservation`).
- A probe is not-found only if what is shown of each occurrence is benign as well as its whole context
  (`AbsenceAuthority.CompleteProbesAnswer`): a display window cut from a benign sentence can still send it to review.
- Events with different names are never provably different periods; within one calendar kind, or one named event, the
  rule is exact (`Periods.DistinctIffDisjointForever`).

## Model

| member | source | states |
|---|---|---|
| BudgetSafety.CommittedIsRecordedPlusUnspent | apps/api/src/needleproof_api/db.py:257-294 | committed capacity in a window is the recorded usage of the window plus the unspent part of every reservation: nothing is counted twice |
| BudgetSafety.RecordedWithinCommitted | apps/api/src/needleproof_api/db.py:257-294 | recorded usage in any window never exceeds committed capacity |
| BudgetSafety.LaterCutoff | apps/api/src/needleproof_api/db.py:257-294 | as the rolling window moves forward, committed capacity can only fall |
| BudgetSafety.SetReservation | apps/api/src/needleproof_api/db.py:199-235 | writing one reservation changes committed capacity by the difference of that run's unspent amounts and by nothing else |
| BudgetSafety.DropReservations | apps/api/src/needleproof_api/db.py:296-301 | releasing any set of reservations never raises committed capacity |
| BudgetSafety.AppendExactly | apps/api/src/needleproof_api/db.py:476-501 | recording a call adds its tokens and removes what the reservation still covered: the exact overshoot of a call beyond its ceiling |
| BudgetSafety.AppendEffect | apps/api/src/needleproof_api/db.py:476-501 | a call within its reservation leaves committed capacity no higher and the reservation unchanged |
| BudgetSafety.DeleteEffect | apps/api/src/needleproof_api/db.py:181-197 | retention never raises committed capacity and leaves the totals of the surviving runs alone |
| BudgetSafety.StepKeepsSafe | apps/api/src/needleproof_api/db.py:199-353 | every step of reserve, expand, append, release, cleanup, retention and clock keeps both limits and keeps every outstanding call covered |
| BudgetSafety.BudgetSafety | apps/api/src/needleproof_api/db.py:199-501 | over every interleaving, recorded and committed tokens stay within the hourly and the daily limit at every point |
| BudgetSafety.EmptyIsSafe | apps/api/src/needleproof_api/db.py:97-128 | a fresh database is a safe start |
| BudgetGrants.ReserveAnswers | apps/api/src/needleproof_api/db.py:199-235 | for a run without a reservation: refused for the hour exactly if the written tables would pass the hourly limit, else for the day exactly if they would pass the daily one, else granted and written; usage of the run recorded before counts on top |
| BudgetGrants.ExpandAnswers | apps/api/src/needleproof_api/db.py:303-353 | granted unchanged if the reservation covers usage and ceiling, else answered as a write of exactly that sum; a granted call is covered |
| BudgetGrants.GrantedIffWithinBudget | apps/api/src/needleproof_api/db.py:214-223 | where a reservation covers what its run has used, granted if and only if both limits hold after the write |
| BudgetGrants.FirstReservation | apps/api/src/needleproof_api/db.py:199-235 | a run without reservation and calls is granted if and only if both limits hold after the write |
| BudgetGrants.BilledRunIsRefused | apps/api/src/needleproof_api/db.py:214-223 | a run with a recorded call and no reservation is refused although the write would pass no limit |
| BudgetGrants.AppendCovers | apps/api/src/needleproof_api/db.py:476-501 | recording a call keeps the usage of its run within the reservation |
| BudgetGrants.ReleaseFrees | apps/api/src/needleproof_api/db.py:296-301 | a release gives back exactly what was left of the reservation |
| BudgetGrants.CleanupFrees | apps/api/src/needleproof_api/db.py:377-391 | after the cleanup, recorded usage and the unspent reservations of queued and running runs are exactly what is committed |
| BudgetGrants.RetentionForgets | apps/api/src/needleproof_api/db.py:181-197 | retention takes exactly the usage of the expired runs out of a window |
| BudgetGrants.RetentionReleases | apps/api/src/needleproof_api/db.py:181-197 | and exactly their unspent reservations |
| TokenDatabase.AppDatabase.SumCommittedModelTokens | apps/api/src/needleproof_api/db.py:257-294 | the single pass over call rows and the pass over reservations compute committed capacity |
| TokenDatabase.AppDatabase.SumModelTokensForRun | apps/api/src/needleproof_api/db.py:356-366 | the loop computes the recorded model tokens of one run |
| TokenDatabase.AppDatabase.SumCommitments | apps/api/src/needleproof_api/db.py:286-294 | the loop over reservations adds window usage and unspent remainder of each reserved run |
| TokenDatabase.AppDatabase.ReserveModelTokens | apps/api/src/needleproof_api/db.py:199-235 | grants and writes, or refuses by hour, by day or by constraint and writes nothing; the answer is exactly what the tables after the write say, usage of the run recorded before counted on top |
| TokenDatabase.AppDatabase.ExpandModelTokenReservation | apps/api/src/needleproof_api/db.py:303-353 | raises a reservation to usage plus ceiling exactly when the tables after the write keep both limits, and changes nothing else; refusals name the window |
| TokenDatabase.AppDatabase.AppendOpenAICall | apps/api/src/needleproof_api/db.py:476-501 | inserts the call and raises the reservation to actual usage in one transaction, or does neither |
| TokenDatabase.AppDatabase.ReleaseModelTokenReservation | apps/api/src/needleproof_api/db.py:296-301 | removes exactly the reservation of one run |
| TokenDatabase.AppDatabase.ReleaseTerminalOrOrphanTokenReservations | apps/api/src/needleproof_api/db.py:377-391 | keeps exactly the reservations of queued and running runs and reports how many went |
| TokenDatabase.AppDatabase.DeleteRunsCreatedBefore | apps/api/src/needleproof_api/db.py:181-197 | removes the expired runs with their reservations and calls and nothing else |
| TokenDatabase.AppDatabase.CreateRun | apps/api/src/needleproof_api/db.py:97-128 | adds one queued run, or refuses a known id |
| TokenDatabase.AppDatabase.UpdateRun | apps/api/src/needleproof_api/db.py:130-155 | changes the status of one existing run and nothing else |
| RunStore.InvestigationService.TryFinalize | apps/api/src/needleproof_api/service.py:719-740 | append, seal, commit with a failure possible at each point reaches the same store as the step-by-step finalizer |
| RunStore.InvestigationService.RecordInterruption | apps/api/src/needleproof_api/service.py:741-778 | after a failure the interruption event and row are written as the step-by-step finalizer writes them |
| RunStore.InvestigationService.FinalizeRun | apps/api/src/needleproof_api/service.py:719-782 | the whole finalizer, with any failures, is the composition of its atomic steps |
| RunStore.InvestigationService.CommitTerminal | apps/api/src/needleproof_api/service.py:784-800 | the row takes status, digest and path of the sealed receipt |
| RunStore.InvestigationService.RecoverSealedReceipt | apps/api/src/needleproof_api/service.py:295-332 | recovers a row from a valid receipt of the same digest, or reports missing, unreadable or invalid and changes nothing |
| RunStore.InvestigationService.ReconcilePendingReceipt | apps/api/src/needleproof_api/service.py:334-341 | on-demand recovery touches only rows that are recoverable |
| RunStore.InvestigationService.ReconcileAbandonedRun | apps/api/src/needleproof_api/service.py:343-387 | one startup pass over a run: recover, else record a recovery outcome, then release its reservation |
| RunLifecycle.FinalizerKeeps | apps/api/src/needleproof_api/service.py:719-782 | no finalizer operation changes a settled outcome |
| RunLifecycle.RecoverKeeps | apps/api/src/needleproof_api/service.py:295-332 | no receipt recovery changes a settled outcome |
| RunLifecycle.StepSound | apps/api/src/needleproof_api/service.py:295-800 | the invariant of row, file, finalizer and stream is kept by every step: work, finalizer, crash, restart, on-demand recovery, file damage, stream poll |
| RunLifecycle.ExecutionSound | apps/api/src/needleproof_api/service.py:295-800 | the invariant holds at every point of every execution |
| RunLifecycle.DeliveryIsSettled | apps/api/src/needleproof_api/main.py:319-407 | when the stream sends a terminal event, its type fits the row and the row is settled at that moment |
| RunLifecycle.StaysSettled | apps/api/src/needleproof_api/service.py:719-800 | a settled status is the status at every later point of the execution |
| RunLifecycle.DeliveredOutcomesAreFinal | apps/api/src/needleproof_api/main.py:319-407 | once a terminal event was delivered, every later row has a status that event stands for |
| RunLifecycle.DeliveriesAreBacked | apps/api/src/needleproof_api/main.py:420-474 | every delivery is backed by a valid receipt of the row's status, or by an interruption without receipt |
| CrashConvergence.CrashConverges | apps/api/src/needleproof_api/service.py:343-387 | from every point of every run whose ledger appends and call records succeeded, one fault-free startup pass leaves a terminal row, a valid receipt with the row's digest and status, and no reservation |
| CrashConvergence.ConvergesExactly | apps/api/src/needleproof_api/receipt.py:612-662 | for any store a pass may find, it converges if and only if the receipt is usable, or no event or call number is missing and an interruption can still come last |
| CrashConvergence.TwoPassesFinish | apps/api/src/needleproof_api/service.py:343-387 | a second pass finishes what one pass started when no event or call number is missing |
| CrashConvergence.GapNeverSeals | apps/api/src/needleproof_api/receipt.py:341-371 | a gap left by a failed append or call record is never sealed by any number of restarts |
| CrashConvergence.FailedAppendNeverSeals | apps/api/src/needleproof_api/receipt.py:341-365 | the run that reaches such a gap: one failed append, then the finalizer's own, and no restart ever finishes it |
| CrashConvergence.FailedCallRecordNeverSeals | apps/api/src/needleproof_api/receipt.py:367-371 | the same for one failed call record and a later one |
| CrashConvergence.StepTidy | apps/api/src/needleproof_api/service.py:719-782 | every step keeps event and call numbers without gaps, keeps only an interruption after the first terminal event, and keeps row and file consistent |
| CrashConvergence.ExecutionTidy | apps/api/src/needleproof_api/service.py:719-782 | the same over every execution |
| CrashConvergence.RecoveryPass | apps/api/src/needleproof_api/service.py:343-387 | what one fault-free pass does to any recoverable store |
| CrashConvergence.RestartIsReconcile | apps/api/src/needleproof_api/service.py:343-387 | the pass of the theorems is what the step machine does between a boot and the first served request |
| RunOutcomes.FinalizeUnderLuck | apps/api/src/needleproof_api/service.py:719-782 | whichever of the operations fail, the exact row, receipt, ledger and reservation that a finalization of an unfinished run leaves |
| RunOutcomes.FinalizeSucceeds | apps/api/src/needleproof_api/service.py:727-740 | if none fails: the intended status in the row, a valid receipt over the ledger with the outcome, its digest in the row, nothing reserved |
| RunOutcomes.FinalizeExactly | apps/api/src/needleproof_api/service.py:719-782 | from any store without a receipt file, a finalization without faults reaches its outcome if and only if the receipt it would seal is valid, else an interruption |
| RunOutcomes.LostCommitIsRecovered | apps/api/src/needleproof_api/service.py:295-387 | an outcome that was sealed but not committed is committed by the next restart |
| RunOutcomes.RestartOutcome | apps/api/src/needleproof_api/service.py:343-387 | a restart commits a usable receipt as it stands, and only without one records an interruption |
| RunOutcomes.OnDemandOutcome | apps/api/src/needleproof_api/service.py:334-341 | recovery on demand: exactly when it recovers, retries, gives up or has nothing to do |
| RunOutcomes.RunEndsAsIntended | apps/api/src/needleproof_api/service.py:719-782 | in every execution, whatever comes in between, a finalizer whose operations succeed has committed the intended outcome after three of them and released the run after four |
| RunOutcomes.IntendedOutcome | apps/api/src/needleproof_api/service.py:784-800 | what that end is for row, receipt and ledger, and that it is a converged run |
| RunOutcomes.WorkIsRecorded | apps/api/src/needleproof_api/receipt.py:341-371 | as long as a run works, its ledger and calls are exactly what its body recorded, in order |
| EventDelivery.FetchLists | apps/api/src/needleproof_api/db.py:452-475 | over a ledger without gaps a fetch lists exactly the events after the cursor, in order |
| EventDelivery.FetchKeeps | apps/api/src/needleproof_api/db.py:452-475 | over any ledger it keeps exactly the later events |
| EventDelivery.PollSends | apps/api/src/needleproof_api/main.py:337-392 | over a committed row a poll sends every event after the cursor in order, leaves out only outcomes the status contradicts, and ends behind the last event |
| EventDelivery.PollWaits | apps/api/src/needleproof_api/main.py:340-381 | over a row that announces nothing it stops before the first outcome and keeps the cursor there; over an unfounded one it closes |
| EventDelivery.OutcomeIsSent | apps/api/src/needleproof_api/main.py:337-392 | a poll on a finished run delivers its outcome to every client that has not seen it |
| EventDelivery.EveryRunIsAnswered | apps/api/src/needleproof_api/main.py:319-407 | from every point of every run whose appends and call records succeeded: after a restart a new client is sent every event of the ledger but the outcomes given up, and among them the outcome of the row |
| MetricContext.WalkPrevious | apps/api/src/needleproof_api/absence.py:516-590 | the backward loop terminates on any link graph and computes the open sentence before the metric |
| MetricContext.WalkFollowing | apps/api/src/needleproof_api/absence.py:516-590 | the forward loop terminates on any link graph and computes the rest of the chain |
| MetricContext.MetricOccurrenceWithOpenNeighbors | apps/api/src/needleproof_api/absence.py:516-590 | both walks joined, with the proof span and the bounded display |
| MetricContext.SpansSelectMetric | apps/api/src/needleproof_api/absence.py:500-590 | proof span and display span both select exactly the metric text, and the display is bounded |
| MetricContext.ForwardCompleteIff | apps/api/src/needleproof_api/absence.py:516-590 | the forward context is complete if and only if the next-chain is finite and wholly opened |
| MetricContext.ForwardComplete | apps/api/src/needleproof_api/absence.py:516-590 | a complete forward context is, white space aside, the texts of the chain in order |
| MetricContext.ForwardDistinct | apps/api/src/needleproof_api/absence.py:516-590 | a finite chain never meets a chunk twice |
| MetricContext.BackComplete | apps/api/src/needleproof_api/absence.py:516-590 | a complete backward context is, white space aside, the chain back to the last sentence boundary |
| MetricContext.ContextCompleteIff | apps/api/src/needleproof_api/absence.py:516-590 | a context is complete if and only if the whole rest is opened and finite, and back there is a boundary in the chunk or an opened chain to one that does not come back to it |
| MetricContext.LinkChunks | apps/api/src/needleproof_api/corpus.py:458-466 | the builder's loop links the chunks of a document in order and keeps their ids and texts |
| MetricContext.ForwardCompleteInDocument | apps/api/src/needleproof_api/absence.py:516-590 | on a document so linked, complete means the whole rest of the document is opened |
| MetricContext.CompleteContextIsFaithful | apps/api/src/needleproof_api/absence.py:500-590 | on such a document a complete context is the open sentence prefix, the metric and the whole rest, white space aside |
| AbsenceProtocol.RebuildChunk | apps/api/src/needleproof_api/absence.py:461-486 | the contexts of one chunk, rebuilt from the opened set, with their completeness and classification |
| AbsenceProtocol.DeriveAgainstCorpus | apps/api/src/needleproof_api/absence.py:427-497 | the checker's loops compute the conclusion stated over sets of occurrences |
| AbsenceProtocol.NotFoundIsSound | apps/api/src/needleproof_api/absence.py:427-497 | for an arbitrary record, not-found means every chunk holding the metric was opened, each occurrence's chain is inside the opened set, and each is benign |
| AbsenceProducer.Enumerate | apps/api/src/needleproof_api/absence.py:689-704 | a set listed once each, in an arbitrary order |
| AbsenceProducer.ExpandContext | apps/api/src/needleproof_api/absence.py:683-715 | the closure loop terminates with at most 50 chunks; it is flagged as limited exactly when the linked neighbourhood does not fit; what it opens lies in every closed set around the start and, unless limited, is closed itself |
| AbsenceProducer.AddFetched | apps/api/src/needleproof_api/absence.py:705-715 | fetched chunks join until the budget is full, and it is flagged exactly when they do not all fit |
| AbsenceProducer.AddValues | apps/api/src/needleproof_api/absence.py:747-761 | every found value is recorded for its chunk, once |
| AbsenceProducer.AnalyzeOccurrence | apps/api/src/needleproof_api/absence.py:724-761 | one more occurrence recorded and classified |
| AbsenceProducer.AnalyzeChunks | apps/api/src/needleproof_api/absence.py:718-761 | the findings describe exactly the occurrences of the opened chunks |
| AbsenceProducer.RunSearches | apps/api/src/needleproof_api/absence.py:602-658 | four searches are recorded in order, failed ones as failed, those that answer without repeats as the checker demands; the candidates are exactly what the answered searches found |
| AbsenceProducer.Agreement | apps/api/src/needleproof_api/absence.py:427-497 | on an unchanged corpus a produced record is not-found for the producer if and only if it is for the checker |
| AbsenceProducer.ProbeMetricAbsence | apps/api/src/needleproof_api/absence.py:593-782 | the whole probe: what search and scan found comes first, as far as the budget goes all of it that exists is opened and nothing else but what links lead to; the scan ids are exactly the chunks that hold the metric; the answer is exactly that of `AbsenceProducer.Answer` over the opened chunks, and its not-found is the checker's |
| AbsenceProducer.OpenedAgain | apps/api/src/needleproof_api/retrieval.py:449-483 | fetching the recorded ids again yields the chunks that were opened, in order |
| AbsenceAuthority.CompleteProbesAnswer | apps/api/src/needleproof_api/absence.py:593-782 | if all searches answer, the scan completes, nothing exceeds the budget and every chain is finite and opened, the answer is not-found when all occurrences are benign and review when one is not |
| AbsenceAuthority.AuthorizedExactly | apps/api/src/needleproof_api/absence.py:427-497 | a record that supports not-found is authorized if and only if it agrees with the corpus and every occurrence is benign, is for review if and only if it agrees and one is not, and is incomplete otherwise |
| AbsenceAuthority.ClosedExactly | apps/api/src/needleproof_api/absence.py:688-697 | opened chunks are closed exactly when the chunk before and the chunk after each is opened or does not exist |
| AbsenceOverIndex.PhraseLanguageIsValid | apps/api/src/needleproof_api/binding.py:275-308 | the phrase spans of the matcher meet every assumption made of a language |
| AbsenceOverIndex.IndexedIsExhaustive | apps/api/src/needleproof_api/retrieval.py:256-328 | the narrowed full-text scan is the exhaustive scan the protocol relies on |
| AbsenceOverIndex.NotFoundOverIndex | apps/api/src/needleproof_api/absence.py:427-497 | end to end: over the indexed table, not-found means every chunk with the complete metric phrase was opened and is harmless |
| HashLedger.ValidateChain | apps/api/src/needleproof_api/receipt.py:612-641 | accepts exactly the intact chains and names the first broken event and what is broken about it |
| HashLedger.RunLedger.HydrateFromTable | apps/api/src/needleproof_api/receipt.py:333-339 | counter and head are those of the last row |
| HashLedger.RunLedger.AppendEvent | apps/api/src/needleproof_api/receipt.py:341-365 | the counter advances even when the write fails; row and head change only when it succeeds |
| HashLedger.AcceptedExactly | apps/api/src/needleproof_api/receipt.py:333-365 | with hydration and failures anywhere, the rows are an accepted chain if and only if no process wrote after its own failed append |
| HashLedger.SuccessfulAppendsAccepted | apps/api/src/needleproof_api/receipt.py:612-641 | any successful appends, with hydration anywhere, are accepted with the right head |
| HashLedger.AppendsAreRecorded | apps/api/src/needleproof_api/receipt.py:341-365 | the rows are exactly the written appends, in order, each with its type, payload and time |
| HashLedger.EqualHeads | apps/api/src/needleproof_api/receipt.py:612-641 | two accepted chains with one head are equal, or exhibit a collision or a preimage of the zero hash |
| MetricTokens.TermsAreTokens | apps/api/src/needleproof_api/util.py:119-152 | the full-text terms of any text are the terms of its metric tokens, in order |
| MetricTokens.TokensCanonical | apps/api/src/needleproof_api/util.py:119-152 | token values are lower-case and alphanumeric, and only initialisms are dotted |
| ExactScan.CheckWindow | apps/api/src/needleproof_api/binding.py:275-308 | a window matches when its lexemes agree and only formatting separates them |
| ExactScan.WordPhraseSpans | apps/api/src/needleproof_api/binding.py:275-308 | the loop returns the span of every matching window, in order |
| ExactScan.PhraseSpansInside | apps/api/src/needleproof_api/binding.py:275-308 | spans are nonempty and lie inside the text |
| ExactScan.SpellingInProduct | apps/api/src/needleproof_api/util.py:295-320 | the product of compact and dotted variants contains every way a matching window can be written |
| ExactScan.IndexCoversSpans | apps/api/src/needleproof_api/util.py:295-320 | a text with a kind-preserving span is found by one of the phrase variants |
| ExactScan.NarrowingLosesNothing | apps/api/src/needleproof_api/retrieval.py:256-328 | filtering the narrowed candidates equals filtering every row |
| ExactScan.CompleteIsFullScan | apps/api/src/needleproof_api/retrieval.py:256-328 | a complete outcome is the full scan in table order, whichever path produced it |
| ExactScan.ScanAnswers | apps/api/src/needleproof_api/retrieval.py:256-328 | too broad exactly beyond a thousand candidates or five million characters, ambiguous exactly if not and some candidate matches only loosely, complete exactly otherwise |
| ExactScan.SmallTablesComplete | apps/api/src/needleproof_api/retrieval.py:256-328 | a table within both limits without a loose match is always scanned to the end |
| ExactScan.OverflowAgrees | apps/api/src/needleproof_api/retrieval.py:256-328 | narrowed and overflow path return the same rows whenever both complete |
| ExactScan.HoldingElements | apps/api/src/needleproof_api/retrieval.py:256-328 | the full scan holds exactly the rows with a span, once each |
| ExactScan.FindExactMetricChunks | apps/api/src/needleproof_api/retrieval.py:256-328 | count, refusal, database failure, fetch and check compute that outcome |
| KindAmbiguity.LooseMatchIsFound | apps/api/src/needleproof_api/util.py:295-320 | a match that ignores token kinds is a candidate when the text has no dots or the metric no dottable word |
| KindAmbiguity.LooseRowRefuses | apps/api/src/needleproof_api/retrieval.py:308-328 | such a row, anywhere in any table, keeps the exact scan from completing |
| KindAmbiguity.RespelledSlips | apps/api/src/needleproof_api/util.py:295-320 | a metric with a dottable word, written with dots, matches loosely and is found by no phrase variant |
| KindAmbiguity.FailsClosedExactly | apps/api/src/needleproof_api/retrieval.py:256-328 | the scan fails closed on every kind ambiguity over every table if and only if the metric has no word of two or more letters or overflows the variants |
| KindAmbiguity.DottedShortFormSlips | apps/api/src/needleproof_api/retrieval.py:256-328 | the concrete case: metric `it`, text `i.t.`, a complete scan that finds nothing |
| EvidenceMatch.Find | apps/api/src/needleproof_api/util.py:271-275 | the first occurrence at or after a position, or none |
| EvidenceMatch.FoldHaystack | apps/api/src/needleproof_api/util.py:258-267 | the folded text and, for every folded character boundary, the source offset it came from |
| EvidenceMatch.ResolveEvidenceTextMatches | apps/api/src/needleproof_api/util.py:243-286 | precisely the source spans whose folding is the folded needle, overlapping ones included, increasing and without repeats |
| DecimalForm.CanonicalIffEqual | apps/api/src/needleproof_api/binding.py:251-260 | two digit strings canonicalize equally if and only if they denote the same number, at any length |
| DecimalForm.CanonicalIsIdempotent | apps/api/src/needleproof_api/binding.py:251-260 | canonicalizing changes neither the number nor a canonical form |
| DecimalForm.NormalFormUnique | apps/api/src/needleproof_api/binding.py:251-260 | one number has one integer part and one fraction in normal form |
| DecimalForm.SignaturesIffEqual | apps/api/src/needleproof_api/binding.py:262-265 | two signatures canonicalize equally if and only if sign, currency, number and unit agree |
| Periods.DistinctIsSymmetric | apps/api/src/needleproof_api/verification.py:422-456 | provable distinctness is symmetric and irreflexive |
| Periods.FillingKeepsDistinct | apps/api/src/needleproof_api/verification.py:422-456 | supplying a missing year never revokes a proof of difference |
| Periods.Overlap | apps/api/src/needleproof_api/verification.py:422-456 | comparable periods that are not provably distinct share a moment under some reading |
| Periods.DistinctIffDisjointForever | apps/api/src/needleproof_api/verification.py:422-456 | provably distinct if and only if comparable and disjoint under every calendar and every filling of missing years |
| ClaimClassification.DeduplicateObservations | apps/api/src/needleproof_api/verification.py:731-746 | the loop keeps the first observation of each identity |
| ClaimClassification.DeduplicateKeeps | apps/api/src/needleproof_api/verification.py:731-746 | deduplication keeps every identity and no two observations of one |
| ClaimClassification.GroupPeriods | apps/api/src/needleproof_api/verification.py:1038-1044 | the loop maps each value to the set of its periods |
| ClaimClassification.FilterAuthorized | apps/api/src/needleproof_api/verification.py:1032-1036 | the authorized observations, all of them exactly when the lengths agree |
| ClaimClassification.GatherKinds | apps/api/src/needleproof_api/verification.py:655-667 | the loop maps every number and every phrase to the kinds it was classified under |
| ClaimClassification.GatherCandidates | apps/api/src/needleproof_api/verification.py:578-593 | the spans of a sentence that spell a kept qualitative value, token kinds ignored, each once and sorted by span from whatever order the set has |
| ClaimClassification.HasExplicitConflict | apps/api/src/needleproof_api/verification.py:648-722 | under every order of sets, the loops find exactly whether some quoted sentence that holds a relation and the metric binds distinct values in conflict |
| CandidateOrder.SortingSorts | apps/api/src/needleproof_api/verification.py:593 | sorting keeps each candidate and puts them in the order of their spans |
| CandidateOrder.TiesKeepTheirOrder | apps/api/src/needleproof_api/verification.py:593 | candidates at one span stay in the order in which the set was iterated |
| CandidateOrder.NoTiesOneListing | apps/api/src/needleproof_api/verification.py:578-593 | without two candidates at one span, the sorted list is the same for every order of the set |
| CandidateOrder.AnyFirst | apps/api/src/needleproof_api/verification.py:578-593 | with ties, any candidate at a span can come first there under some order of the set |
| ClaimClassification.GatherSentences | apps/api/src/needleproof_api/verification.py:1000-1030 | the sentences quoted by the context and by every observation |
| ClaimClassification.VerifyClaim | apps/api/src/needleproof_api/verification.py:1032-1144 | under every order of sets, loops and branches compute the status stated over sets of identities |
| StatusMeaning.StatusExactly | apps/api/src/needleproof_api/verification.py:1081-1144 | verified, conflict, date variant, possible conflict and not found, each if and only if the observations, periods, quoted sentences and checks of the claim say so; unverified exactly otherwise |
| StatusMeaning.ConflictIsQuoted | apps/api/src/needleproof_api/verification.py:1059-1063 | an explicit conflict is a quoted sentence that binds the values of the kept observations in conflict |
| StatusMeaning.CommonExactly | apps/api/src/needleproof_api/verification.py:1038-1058 | one common period is one known period under which all observations stand |
| StatusMeaning.ApartIsDisjoint | apps/api/src/needleproof_api/verification.py:1048-1058 | periods that tell different values apart are as many as the values and pairwise provably distinct |
| OrderIndependence.OrderInsensitiveExactly | apps/api/src/needleproof_api/verification.py:1032-1144 | status ignores order and repetition of observations and the order of sets if and only if values are never compared, or share one period, or, over the quoted sentences that bind, each spelled candidate is spelled by every observation of some identity and no span by two values |
| WordingOrder.OrderInsensitiveAnywayExactly | apps/api/src/needleproof_api/verification.py:648-722 | whatever further context is quoted, it does if and only if values are never compared, or share one period, or each wording that a binding sentence can spell is the only wording of some identity and the wording of one value only |
| WordingOrder.OrderInsensitiveInWords | apps/api/src/needleproof_api/verification.py:682-684 | where words may precede a relation, as a search anywhere in the sentence allows, the same with a condition on the token values of the observations alone |
| WordingOrder.QuotableExactly | apps/api/src/needleproof_api/verification.py:682-684 | under such a search, a text is spelled by some binding sentence if and only if it has a token |
| OrderIndependence.NumbersAreOrderFree | apps/api/src/needleproof_api/verification.py:655-664 | claims about numbers never depend on the order or repetition of observations or on the order of sets, however numbers and periods are spelled |
| WordingOrder.SameWordsAreOrderFree | apps/api/src/needleproof_api/verification.py:578-593 | neither do claims whose equal identities have equal token values and whose equal token values have equal qualitative values |
| WordingOrder.SameWordsSameSpans | apps/api/src/needleproof_api/binding.py:275-308 | texts with equal token values are found at the same spans of every sentence |
| WordingOrder.SpanTellsWords | apps/api/src/needleproof_api/binding.py:275-308 | a span of any sentence that one text spells is spelled by another if and only if their token values are equal |
| WordingOrder.PinnedByWording | apps/api/src/needleproof_api/verification.py:578-593 | a candidate is spelled in every draft order if and only if the wording that spells it is the only wording of some identity of its value |
| OrderExample.OrderCanMatter | apps/api/src/needleproof_api/verification.py:509-526 | `A.A.` and `A A` in the two orders, over a quoted bridge sentence, under any order of sets: possible conflict one way, verified the other |
| TieExample.TiesCanMatter | apps/api/src/needleproof_api/verification.py:509-526 | `AA` and `A.A.` in one draft, over a quoted bridge sentence: conflict under one order of the set of candidates, possible conflict under another |
| ClaimClassification.DateVariantMeansDisjoint | apps/api/src/needleproof_api/verification.py:1129-1140 | a date variant maps distinct values one-to-one to periods that stay disjoint under every filling |
| ClaimClassification.PairwiseIsSetwise | apps/api/src/needleproof_api/verification.py:459-464 | checking every pair of a listing is checking the set of periods |
| Chunker.NoTies | apps/api/src/needleproof_api/util.py:329-332 | 1.32 times a word count is never halfway between two integers |
| Chunker.EstimateBounds | apps/api/src/needleproof_api/util.py:329-332 | an estimate is at least one and within half a token of 1.32 times the words |
| Chunker.SplitOversizedParagraph | apps/api/src/needleproof_api/corpus.py:157-171 | the loop cuts the windows of the specification |
| Chunker.SegmentsLaw | apps/api/src/needleproof_api/corpus.py:157-171 | the segments say the paragraph's words in order once repetitions are left out, and each fits a positive bound |
| Chunker.BoundedTailOverlap | apps/api/src/needleproof_api/corpus.py:174-189 | the binary search finds the longest whole-word suffix within the budget |
| Chunker.FittingIsLongest | apps/api/src/needleproof_api/corpus.py:174-189 | that suffix fits, and no longer one does |
| Chunker.TrimCarry | apps/api/src/needleproof_api/corpus.py:212-213 | the loop drops leading words until carry and segment fit together |
| Chunker.TrimmedIsLongest | apps/api/src/needleproof_api/corpus.py:212-213 | what it keeps fits, and one more word would not |
| Chunker.CarrySound | apps/api/src/needleproof_api/corpus.py:210-215 | the carry ends the flushed chunk and leaves room for the next segment |
| Chunker.GatheredSound | apps/api/src/needleproof_api/corpus.py:202-221 | gathering keeps every segment once and in order, carries only suffixes, and never lets the running total pass the bound |
| Chunker.ChunkSegments | apps/api/src/needleproof_api/corpus.py:202-232 | the loop over segments computes the specified chunks |
| Chunker.Finish | apps/api/src/needleproof_api/corpus.py:222-231 | the remainder joins the last chunk exactly when it is short and fits, and is flushed otherwise |
| Chunker.ChunksLaw | apps/api/src/needleproof_api/corpus.py:192-232 | uncarried parts are exactly the segments in order, each carry ends what precedes it, and a chunk of k parts and w words has 66w <= 25(2 max + k) |
| Chunker.PageLaw | apps/api/src/needleproof_api/corpus.py:192-232 | the same for a whole page, split included |
| Chunker.PagesFitExactly | apps/api/src/needleproof_api/corpus.py:192-232 | every chunk of every page stays within the bound if and only if the bound is one |
| ChunkGreed.GatheredGreedily | apps/api/src/needleproof_api/corpus.py:202-221 | a chunk ends only where it is full or the next segment would pass the bound, everything before that fits, and the next chunk starts with the longest word suffix that fits or, after a full one, with nothing |
| ChunkGreed.CarryIsLongest | apps/api/src/needleproof_api/corpus.py:210-215 | the carry is the longest run of last words within the overlap and, with the segment, within the bound |
| ChunkGreed.RemainderJoins | apps/api/src/needleproof_api/corpus.py:222-231 | a remainder joins the chunk before it exactly if it is shorter than the overlap and both fit the bound |
| ChunkGreed.SegmentsAreFull | apps/api/src/needleproof_api/corpus.py:157-171 | a paragraph that fits stays whole; of one that does not, every window but the last has the full number of words |
| ChunkGreed.WidestWindow | apps/api/src/needleproof_api/corpus.py:157-171 | that number is the largest the bound allows |
| Chunker.OneWordPageExceeds | apps/api/src/needleproof_api/corpus.py:192-232 | for any larger bound, a page of that many one-word paragraphs begins with a chunk over it |
| Chunker.TwoWordsExceed | apps/api/src/needleproof_api/corpus.py:192-232 | the concrete case: two words, a bound of two, one chunk estimated at three |
| Chunker.ChunkPage | apps/api/src/needleproof_api/corpus.py:192-232 | the page method computes those chunks |
| UsageWindow.Prune | apps/api/src/needleproof_api/security.py:83-87 | the loop pops exactly the expired front |
| UsageWindow.PruneAll | apps/api/src/needleproof_api/security.py:89-100 | every window is pruned and no empty one is kept |
| UsageWindow.Remove | apps/api/src/needleproof_api/security.py:167-186 | the first equal time is removed, or nothing |
| UsageWindow.PublicUsageLimiter.PruneAttemptMaps | apps/api/src/needleproof_api/security.py:89-100 | pruning keeps windows and open attempts equal to what the standing admissions of the last hour say, and keeps no empty window |
| UsageWindow.PublicUsageLimiter.AdmitLocally | apps/api/src/needleproof_api/security.py:102-126 | admits exactly when both keys have room in the hour ending now, session first; a denial leaves the standing admissions as they were |
| UsageWindow.PublicUsageLimiter.Release | apps/api/src/needleproof_api/security.py:156-159 | a released run keeps its place and can no longer be rolled back |
| UsageWindow.PublicUsageLimiter.RollbackLocalAttempt | apps/api/src/needleproof_api/security.py:167-186 | a rolled-back run loses exactly its own place in both windows |
| UsageWindow.PublicUsageLimiter.Admit | apps/api/src/needleproof_api/security.py:102-154 | with the token budget asked last: admitted exactly when all three have room, otherwise as if never asked |
| UsageWindow.WindowsStayWithinLimits | apps/api/src/needleproof_api/security.py:83-186 | over every run of asking, finishing and rolling back, no key ever has more standing admissions in its last hour than its limit |
| UsageService.SeldomAskersAreAdmitted | apps/api/src/needleproof_api/security.py:102-124 | in every execution a request whose session and address asked less often than their limits in the hour before is admitted |
| UsageService.KeptIsAsked | apps/api/src/needleproof_api/security.py:83-100 | no window holds more than its key has asked for |
| UsageService.HourlyLimitsHold | apps/api/src/needleproof_api/security.py:83-124 | at every point of every execution, no session and no address holds more admissions of the last 3600 seconds than its limit |
| UsageWindow.NextWithinLimits | apps/api/src/needleproof_api/security.py:102-186 | every call keeps both limits |
| UsageWindow.PruneKeepsUnexpired | apps/api/src/needleproof_api/security.py:83-100 | popping from the front leaves exactly the unexpired standing admissions |
| UsageWindow.CancelRemoves | apps/api/src/needleproof_api/security.py:167-186 | removing any one equal time is removing that admission |
| UsageWindow.RollbackErases | apps/api/src/needleproof_api/security.py:161-186 | whatever calls came in between, after a rollback both windows of every key are as if the run had never been admitted |
| UsageWindow.ExecutionStands | apps/api/src/needleproof_api/security.py:102-186 | at every point of an execution the standing admissions are what its calls left |
| UsageWindow.UndoErases | apps/api/src/needleproof_api/security.py:161-186 | in every execution, a run admitted and rolled back leaves every window as the other calls alone leave it |
| OpenedEvidence.ResolveChunkIds | apps/api/src/needleproof_api/retrieval.py:420-447 | the nested loops list first occurrences over the frontiers |
| OpenedEvidence.FrontierIsNeighbourhood | apps/api/src/needleproof_api/retrieval.py:420-447 | on any link graph the frontier is the set of ids within that many links |
| OpenedEvidence.LinksExactly | apps/api/src/needleproof_api/retrieval.py:420-447 | one round leads to the chunk before and the chunk after, and to nothing else |
| OpenedEvidence.ResolvedExactly | apps/api/src/needleproof_api/retrieval.py:420-447 | resolving lists, once each, exactly the ids within the radius of a requested one |
| OpenedEvidence.GetChunks | apps/api/src/needleproof_api/retrieval.py:449-483 | the existing ones among the ids, in the order asked |
| OpenedEvidence.CountNew | apps/api/src/needleproof_api/agent.py:324-325 | adding the new chunks' estimates gives the sum over the union of opened and new ids |
| OpenedEvidence.DocumentChunksExactly | apps/api/src/needleproof_api/retrieval.py:485-495 | the chunks of a page range, each once |
| OpenedEvidence.InvestigationContext.UseTool | apps/api/src/needleproof_api/agent.py:223-230 | counts a tool call unless the limit is reached |
| OpenedEvidence.InvestigationContext.Open | apps/api/src/needleproof_api/agent.py:318-331 | opens all of the ids exactly when both limits hold for the union, and otherwise changes nothing |
| OpenedEvidence.InvestigationContext.ReadChunks | apps/api/src/needleproof_api/agent.py:299-331 | succeeds exactly when a call is left and the neighbourhood fits; opened tokens stay the sum over the distinct opened chunks |
| OpenedEvidence.InvestigationContext.InspectDocument | apps/api/src/needleproof_api/agent.py:347-403 | succeeds exactly when calls and inspections are left and the range is valid, short, known, showable and fits; a refused one still spends its call and inspection but opens nothing |

## Left out

- A row update that takes effect and then raises: every row update either takes effect or does not, and a failure means it did not.
- Admission capacity of the service (`create_run`, `_finish_task`, live sessions, shutdown): bookkeeping around the modelled admission, finalizer and release.
- Server-sent heartbeats, back-off and retry counters of the stream: timing only; a poll may see any state in any order.
- `RunStore`, `RunLifecycle` and `CrashConvergence` follow one run; runs share no row, file or ledger.
- Receipt contents other than status, digest, events and call numbers: schema checks, policy snapshots, migration lineage, older schema versions, and the answer and claims a completed receipt must carry. A completed receipt refused for those is a seal that fails; an interrupted receipt has no such check.
- TokenDatabase.AppDatabase.CreateRun: question, session, corpus and rehearsal columns are not modelled, and the creation time is a parameter.
- TokenDatabase.AppDatabase.UpdateRun: only the status column is modelled, the one the budget reads; the error for an unknown field is left out.
- RunStore.InvestigationService.CommitTerminal: answer, result, error and completion time of the row are not modelled.
- RunStore.InvestigationService.RecoverSealedReceipt: a receipt whose run or corpus identity is not the row's counts as a corrupt file.
- RunStore.InvestigationService.ReconcilePendingReceipt: the answer for a missing row is left out, and receipt identity is as in RecoverSealedReceipt.
- RunStore.InvestigationService.ReconcileAbandonedRun: models the pass with every step succeeding; failing steps are steps of `RunLifecycle`.
- AbsenceProducer.RunSearches: the count of exact hits is not recorded; nothing reads it.
- HashLedger.RunLedger.HydrateFromTable: the call counter it also restores is not part of the chain; call numbers are in `RunStore`.
- ClaimClassification.VerifyClaim: whether the absence probe was confirmed is a flag of the claim (the confirmation itself is `AbsenceProtocol.DeriveAgainstCorpus`), and which sentence binds values in conflict is an arbitrary rule of what the code reads.
- ClaimClassification.HasExplicitConflict: the relation patterns and the binding of a measurement to the metric are in that arbitrary rule.
- OrderIndependence.OrderInsensitiveExactly: exact over all conflict rules of that shape, as the relation patterns are not modelled; OrderCanMatter and TiesCanMatter use what the bridge relation decides.
- The English-pattern classifiers and their regular expressions: uninterpreted.
- Unicode normalization, line-break hyphens, diacritics and non-ASCII letters: texts are taken as already normalized.
- UsageWindow.PublicUsageLimiter.Admit: the token budget's answer is a parameter here, its own rules are in `TokenDatabase`, and the compensating release is there too. A run id is admitted once, as ids are freshly generated.
- UsageWindow.PublicUsageLimiter.Release: the database release that precedes it is `TokenDatabase.AppDatabase.ReleaseModelTokenReservation`; when that raises, this is not reached.
- Chunker.ChunkPage: paragraphs are inputs, since they are split by a regular expression; table extraction is left out. Floating-point rounding of quotients by 1.32 and of 0.9 times the bound is replaced by exact arithmetic.
- OpenedEvidence.InvestigationContext.UseTool: the ledger append on the refused path is left out.
- OpenedEvidence.InvestigationContext.ReadChunks: ledger appends around the call succeed; a failure of the last one would report an error after the chunks were opened.
- OpenedEvidence.InvestigationContext.InspectDocument: ledger appends around the call succeed, as for ReadChunks.
- The chunks a document holds are given with their table order; reading, hashing and indexing files is not modelled.
- Dense and hybrid search, scores and rank fusion, embeddings and model calls: outside the protocols; search results are arbitrary.
- Cookies, HTTP routing, HTML rendering, configuration validation, readiness checks and the command line.
