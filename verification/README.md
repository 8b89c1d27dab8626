# ArgosCareer: what its hard parts keep

A Dafny model of the parts of ArgosCareer that must stay right while processes die, stores
throw, networks lie about what arrived and several runs share one database, with proofs of
what they keep on every run. `dafny verify dfyconfig.toml` checks all of it.

## What is modelled

**Durable Telegram delivery.** `TelegramSplitter` cuts a rendered digest into messages.
`DeliveryRows` and `DeliveryStore` are the two tables behind a delivery; `TelegramTransport`
reads the answers of one request. `DeliveryMachine` is the protocol as a state machine whose
events are single store statements, network happenings, crashes and manual reconciliations;
a request stays on the wire after the process that issued it is gone. `DeliverySafety` proves
what every run of the machine keeps. `TelegramNotifier` is the program itself, with a process
death or a store exception possible between any two steps; a ghost log ties each step to an
event, so the theorems about runs are theorems about `Notify`. `DeliveryLease` treats the
lease alone, for any number of workers that do overlap.

**The Catho collector.** `CathoLock` interleaves single file-system calls of any number of
processes on the lock file and the takeover file; `CathoAlone` is what each operation comes to
when nobody interferes; `CathoLockFiles` is `acquireLock`, `refreshLock` and `releaseLock` call
by call, with the other processes running between any two calls. `CathoState` is the per-id lifecycle, its JSON form and the loader's validator;
`CathoCollector` is a collection run and any sequence of runs, stopped anywhere.

**Scoring runs.** `PostingRows` and `PostingsStore` are the postings table and its repository.
`ScoringClaims` is the admission protocol of delivery runs in any number of processes,
`ScoreBudget` the retry ceiling of one posting and `SpendOverRuns` the proof that all runs
together keep to it; `ScoringPool` is the table as one run sees it with the others
interleaved. `RunAccounting` is the breakdown a run writes down, `Digests` the digest,
`RunFates` what becomes of each posting, and `DeliverRun` is `executeDeliver` on every exit,
its outcome read off the log of all processes. `CollectionHistory` is the collecting side.

**Fast forms.** `DedupScan` (sliding window against brute force), `TitleWords`, `TitleMatch`
and `TitleSimilarity` (padded substrings and bigram counts against token lists and multiset
intersection), `CieePaging` (paging against the first items of a flat board) and `IsoWeek`
(week keys against the calendar).

`Wrappers` and `Utf16` hold what several modules share. Where a class keeps state the source
keeps in place, each method is proved against a function of the old state, and the theorems are
about those functions.

## What the model assumes

- *Delivery.* Attempts on one operation do not overlap: `notify` reads its chunk snapshot
  before it claims (src/delivery/infrastructure/telegram-notifier.ts:315 and 354), and
  src/scheduling/domain/run-lock.ts:104-115 serialises attempts. An answer the client reads as
  "not delivered" means nothing arrived, one it reads as an acknowledgement means it did
  (`TelegramTransport.Honest`). A failed read of a response body counts as a failed request, so
  the assumption also covers a body read that ends in a never-sent error code.
- *Catho lock.* No contender removes, as stale, the takeover file of a process that is still
  working under it (`CathoLock.NeverSteals`), and all clocks agree. Takeover files orphaned by a
  death may be recovered.
- *Catho lifecycle.* Candidate ids within one run are distinct (`Checkpoint.DistinctIds`).
- *Scoring claims.* No live run gets older than the staleness bound, nobody rescores a posting a
  live run holds (`ScoringClaims.Enabled`), and all runs have the same retry ceiling. An exception inside
  `releaseUnresolvedClaims` itself counts as the death of the run.
- *CIEE.* The board is served in pages of the requested size. Only the theorem about
  `truncated` needs its `last` flag to be true to the board.

## What turned out not to hold as stated

- A chunk confirmed by hand while its own send is undecided goes back to failed or uncertain
  when the send fails. `ConfirmedNeverChanges` and `ReconciledConfirmationIsFinal` say exactly
  when a confirmation is final.
- A complete operation can hold a chunk that is not confirmed, undelivered and closed to every
  later attempt (`ReconcilingMidSendCanStrandAChunk`). The one step that leads there is the last
  chunk being declared confirmed in mid-send (`CompleteIsConfirmedExactly`).
- Status writes are unconditional, so a worker that outlived its lease can reopen a completed
  operation (`StaleStatusWriteReopens`). `CompletedStaysClosed` says exactly when it stays closed.
- A contender that removes the takeover file of a process still working under it breaks the
  Catho lock: two unexpired leases (`StaleTakeoverRemovalBreaksExclusion`). No other step does
  (`ExclusionExactly`).
- A candidate id that occurs twice in a run can lose a collected payload; distinct ids are
  exactly what is needed (`DistinctIdsExactlyNeeded`).
- The failure breakdown adds up at every exit after the survivors of the pre-filter are
  counted. Deferrals are counted earlier, so an exception while recording them leaves a row
  that does not: the row adds up if and only if the deferrals do not exceed the filtered count
  (`RowCounts` in `Execute`, `FinalScoreFailureCounts`).
- A call to the scorer whose outcome the run never gets to write down is missing from the retry
  counter. The ceiling bounds consecutive failures up to those calls (`SpendIsBounded`), is the
  bound exactly when none is missing (`CeilingBoundsExactly`), and is no bound otherwise
  (`InterruptedCallsAreUnbounded`). Such a posting is also reported as not attempted although
  it was (`RunFates.FateFits`).

## Model

| member | source | states |
|---|---|---|
| TelegramSplitter.Pack | src/delivery/infrastructure/telegram-notifier.ts:152-171 | The packing loop computes the greedy grouping `Packed`, the one the theorems below are about |
| TelegramSplitter.PackIsOptimal | src/delivery/infrastructure/telegram-notifier.ts:152-171 | For non-empty parts that each fit: the chunks are a fitting order-preserving grouping of all the parts, and no other fitting grouping has fewer groups |
| TelegramSplitter.PackKeepsEverything | src/delivery/infrastructure/telegram-notifier.ts:152-171 | Joining the chunks with the separator gives the joined parts, whatever the limit |
| TelegramSplitter.GreedyStaysAhead | src/delivery/infrastructure/telegram-notifier.ts:152-171 | From any point of the loop, the groups still to come are no more than those of any fitting grouping of the same parts |
| TelegramSplitter.SplitAtomicPart | src/delivery/infrastructure/telegram-notifier.ts:175-190 | The code-point loop computes `AtomicPieces` |
| TelegramSplitter.AtomicPiecesKeepTheEntry | src/delivery/infrastructure/telegram-notifier.ts:175-190 | Limit at least 2: an entry that fits is one piece; the pieces of another are non-empty, fit, are full but for the last, concatenate back to it and never cut a surrogate pair |
| TelegramSplitter.SplitForTelegram | src/delivery/infrastructure/telegram-notifier.ts:196-213 | Throws exactly for limits below 2, and otherwise returns `Messages` |
| TelegramSplitter.FirstIndexExactly | src/delivery/infrastructure/telegram-notifier.ts:203-209 | The separator is found exactly if it occurs anywhere, and at its first occurrence |
| TelegramSplitter.PiecesLackSeparator | src/delivery/infrastructure/telegram-notifier.ts:203-209 | No piece of a split contains the separator, so the text is cut at all its separators |
| TelegramSplitter.EntriesExactly | src/delivery/infrastructure/telegram-notifier.ts:206-211 | A section that fits is one entry; an oversized one is cut at all its blank lines and nowhere else |
| TelegramSplitter.MessagesFit | src/delivery/infrastructure/telegram-notifier.ts:196-213 | For any text and any limit of at least 2, every message is non-empty and at most the limit long |
| TelegramSplitter.MessagesWellFormed | src/delivery/infrastructure/telegram-notifier.ts:175-213 | Every message of well-formed UTF-16 is well-formed |
| Utf16.WellFormedExactly | src/delivery/infrastructure/telegram-notifier.ts:173-190 | Well-formed means that every high surrogate is followed by a low one and every low one preceded by a high one |
| TelegramSplitter.MessagesRejoin | src/delivery/infrastructure/telegram-notifier.ts:196-213 | With no oversized and no empty section, rejoining the messages gives the text |
| TelegramSplitter.MessagesKeepEveryEntry | src/delivery/infrastructure/telegram-notifier.ts:196-213 | With oversized sections, the pieces the messages are packed from concatenate to the entries of the text; and if no entry is empty, rejoining the messages gives those pieces joined |
| TelegramTransport.IsCertainlyUndelivered | src/delivery/infrastructure/telegram-notifier.ts:93-112 | The cause-chain walk answers true exactly when one of the outermost five errors has a never-sent code and no error up to it is this client's own timeout |
| TelegramTransport.ReadAnswer | src/delivery/infrastructure/telegram-notifier.ts:486-615 | One iteration of the retry loop reads an answer as: ask again, acknowledged with its id, or not sent with the certainty the status or error warrants |
| TelegramTransport.AnswersRead | src/delivery/infrastructure/telegram-notifier.ts:517-615 | By status: 2xx with `ok` and an id is acknowledged, other 2xx and 5xx uncertain, 429 asked again while retries last, the rest certainly not sent |
| TelegramTransport.FailuresRead | src/delivery/infrastructure/telegram-notifier.ts:486-516 | A failed request is uncertain unless provably undelivered, and then tried again while retries last |
| TelegramTransport.UndeliveredExactly | src/delivery/infrastructure/telegram-notifier.ts:93-112 | A failed request counts as undelivered exactly for the six codes that precede sending, among the outermost five errors, no own timeout up to it |
| DeliveryStore.DeliveryOperationsRepository.Prepare | src/persistence/infrastructure/delivery-operations-repository.ts:17-75 | Inserts what is missing, changes nothing that is there, and throws exactly when the stored bodies differ |
| DeliveryStore.DeliveryOperationsRepository.Claim | src/persistence/infrastructure/delivery-operations-repository.ts:109-136 | Succeeds exactly on an open operation that is unclaimed, its own or expired; on failure nothing changes |
| DeliveryStore.DeliveryOperationsRepository.StartChunk | src/persistence/infrastructure/delivery-operations-repository.ts:77-101 | First statement: that chunk, if it is there, goes to sending with one more attempt, and no other row changes |
| DeliveryStore.DeliveryOperationsRepository.ConfirmChunk | src/persistence/infrastructure/delivery-operations-repository.ts:138-159 | That chunk, if it is there, is confirmed with its message id and time, and no other row changes |
| DeliveryStore.DeliveryOperationsRepository.FailChunk | src/persistence/infrastructure/delivery-operations-repository.ts:161-179 | First statement: that chunk, if it is there, is failed with its error, and no other row changes |
| DeliveryStore.DeliveryOperationsRepository.MarkChunkUncertain | src/persistence/infrastructure/delivery-operations-repository.ts:187-202 | First statement: that chunk, if it is there, is uncertain with its error, and no other row changes |
| DeliveryStore.DeliveryOperationsRepository.SetStatus | src/persistence/infrastructure/delivery-operations-repository.ts:102-106 | Second statement of starting, failing and doubting a chunk: the operation's status, unconditionally, and nothing else |
| DeliveryStore.DeliveryOperationsRepository.Complete | src/persistence/infrastructure/delivery-operations-repository.ts:210-222 | Closes the operation and drops its lease, the chunks untouched |
| DeliveryStore.DeliveryOperationsRepository.Release | src/persistence/infrastructure/delivery-operations-repository.ts:224-235 | Drops the lease of its own owner only |
| DeliveryStore.DeliveryOperationsRepository.ReconcileUncertainChunk | src/persistence/infrastructure/delivery-operations-repository.ts:241-310 | Resolves exactly uncertain or sending chunks, completes the operation when all are confirmed, and changes nothing when it throws |
| DeliverySafety.TranscriptIsConfirmedPrefix | src/delivery/infrastructure/telegram-notifier.ts:304-438 | On every run without reconciliation: the chat is the first k bodies, k the number confirmed, or the first k + 1 while chunk k is sending or uncertain |
| DeliverySafety.NothingSentTwice | src/delivery/infrastructure/telegram-notifier.ts:471-615 | Message number i is body number i: nothing twice, nothing out of order |
| DeliverySafety.AllConfirmedMeansDelivered | src/delivery/infrastructure/telegram-notifier.ts:371-434 | When every chunk is confirmed the chat is the digest |
| DeliverySafety.RowsKeepTheirShape | src/persistence/infrastructure/delivery-operations-repository.ts:77-310 | On every run, reconciliations included: confirmed*, at most one failed, sending or uncertain, pending*; bodies never change |
| DeliverySafety.ConfirmedNeverChanges | src/persistence/infrastructure/delivery-operations-repository.ts:138-222 | On every run: a confirmed chunk stays confirmed on all continuations if and only if no send of it is undecided, and stays the same row if and only if no attempt is sending it |
| DeliverySafety.CompleteMeansAllConfirmed | src/persistence/infrastructure/delivery-operations-repository.ts:210-222 | A complete operation has every chunk confirmed, on every run in which nobody declares the last chunk confirmed while its request is out or its failure unwritten |
| DeliverySafety.CompleteIsConfirmedExactly | src/persistence/infrastructure/delivery-operations-repository.ts:241-310 | That condition is exact: a step breaks it if and only if a continuation that keeps it ends complete with a chunk not confirmed |
| DeliverySafety.ReconciledConfirmationIsFinal | src/persistence/infrastructure/delivery-operations-repository.ts:241-310 | A manual confirmation holds on every continuation if and only if no send of that chunk is undecided |
| DeliverySafety.ReconcilingMidSendCanStrandAChunk | src/persistence/infrastructure/delivery-operations-repository.ts:161-185 | A run, with one mid-send reconciliation and one crash, to a complete operation with a failed chunk, an empty chat and no possible claim |
| DeliverySafety.PrepareAlwaysMatches | src/persistence/infrastructure/delivery-operations-repository.ts:17-75 | No reachable operation makes `prepare` throw for other content or insert rows twice |
| DeliverySafety.FullyConfirmedSendsNothing | src/delivery/infrastructure/telegram-notifier.ts:330-336 | Once all chunks are confirmed, no continuation sends anything or changes a row |
| DeliverySafety.PreparedAgainOnlyCloses | src/delivery/infrastructure/telegram-notifier.ts:330-336 | Preparing a fully confirmed digest again leaves closing it as the only move |
| DeliveryLease.LeaseExcludesOthers | src/persistence/infrastructure/delivery-operations-repository.ts:109-136 | From a claim to its expiry, with any statements of any workers: it stands, refreshes only extend it, and nobody else's claim succeeds |
| DeliveryLease.CompletedStaysClosed | src/persistence/infrastructure/delivery-operations-repository.ts:109-136 | After any statements of any workers, no claim succeeds on a completed operation if and only if the last of them that writes its status closes it |
| DeliveryLease.StaleStatusWriteReopens | src/persistence/infrastructure/delivery-operations-repository.ts:102-107 | One late status write makes a completed operation claimable by anyone |
| TelegramNotifier.Delivery.constructor | src/delivery/infrastructure/telegram-notifier.ts:304-330 | The bodies delivered are the messages of the rendered text, each non-empty and at most 4096 units, under an id of channel and content |
| TelegramNotifier.Delivery.SendMessageDetailed | src/delivery/infrastructure/telegram-notifier.ts:471-615 | Sends at least one and at most `maxRetries + 1` requests, again exactly while the answer proves nothing arrived and may be retried; the result is read from the last answer; a run of the machine |
| TelegramNotifier.Delivery.SendAll | src/delivery/infrastructure/telegram-notifier.ts:371-434 | The chunk loop under the lease is a run of the machine, ending at the first chunk that fails or with the operation complete |
| TelegramNotifier.Delivery.Notify | src/delivery/infrastructure/telegram-notifier.ts:304-438 | However an attempt ends it was a run of the machine, its reason is visible in the store, and unless the process died its lease is gone. Without faults: it is turned away exactly for a sending or uncertain chunk, a finished digest is delivered with nothing sent, and any other digest, a failed chunk included, is sent on when nobody else holds the lease |
| TelegramNotifier.Delivery.ReconcileByHand | src/persistence/infrastructure/delivery-operations-repository.ts:241-310 | Between attempts: succeeds exactly on an uncertain or sending chunk, resolves that one, leaves confirmed rows alone, and is an event of the machine |
| TelegramNotifier.Delivery.KeepTrying | src/delivery/infrastructure/telegram-notifier.ts:304-438 | Any number of attempts, each dying or throwing anywhere: the chat is always a prefix of the digest, and all of it once one reports success |
| CathoLock.UnexpiredLeasesExclude | collectors/catho/state.ts:231-390 | Whatever interleaves or dies, orphaned takeover files recovered included: unless somebody removes the takeover file of a process working under it, two processes never both have an unexpired lease |
| CathoLock.ExclusionExactly | collectors/catho/state.ts:274-289 | That condition is exact: a step removes such a file if and only if two unexpired leases are reachable after it with no further one |
| CathoLock.OnlyOwnerOrTakeoverRemoves | collectors/catho/state.ts:231-390 | A lock file goes only by its own token's release, or by a contender holding the takeover file that rechecked it as unrefreshed beyond the bound |
| CathoLock.DisplacedOwnerIsHarmless | collectors/catho/state.ts:340-390 | No step of a refresh or release by a displaced owner changes its successor's lock, and its refresh fails |
| CathoLock.ReleasesOnlyItsOwn | collectors/catho/state.ts:374-390 | However the calls of a release interleave with other processes, none of them removes or changes a lock file that carries another token |
| CathoLock.StaleTakeoverRemovalBreaksExclusion | collectors/catho/state.ts:279-288 | A run with a stale takeover file to two unexpired leases |
| CathoAlone.AcquiredAlone | collectors/catho/state.ts:231-323 | With nobody else around, the lock is acquired exactly when it is missing or stale with no live takeover, under a new token; otherwise nothing changes |
| CathoAlone.RefreshedAlone | collectors/catho/state.ts:340-370 | With nobody else around, a refresh redates the lock exactly when it is its own and unguarded |
| CathoAlone.ReleasedAlone | collectors/catho/state.ts:374-390 | With nobody else around, a release removes the lock file exactly when it is its own and unguarded, and leaves no takeover file behind |
| CathoLockFiles.StateLock.AcquireLock | collectors/catho/state.ts:231-323 | Call by call with others in between: returns a token exactly when the process ends up holding the lock, and then it holds it alone; undisturbed, exactly when the lock is free |
| CathoLockFiles.StateLock.RefreshLock | collectors/catho/state.ts:340-370 | True exactly when the process still holds the lock, redated to this call, and alone; undisturbed, exactly when the lock file is its own and unguarded |
| CathoLockFiles.StateLock.ReleaseLock | collectors/catho/state.ts:374-390 | Call by call with others in between: each of its calls in the log leaves alone any lock file but its own; undisturbed, its own unguarded lock file is gone afterwards |
| CathoState.ClassifiedExactly | collectors/catho/state.ts:427-465 | A page is expired on exactly the confirmed pattern, collected exactly when it arrived with JSON-LD, retryable otherwise; the payload carries the candidate's id |
| CathoState.PageOutcomeEvolves | collectors/catho/state.ts:397-489 | Folding a fetched page's outcome keeps payload id = key and the retry range, and loses, ingests or revives nothing |
| CathoState.OneLoad | collectors/catho/state.ts:397-489 | One load leaves the payload, expired, or one more counted failure, the fifth of which quarantines |
| CathoState.FailedLoadsQuarantine | collectors/catho/state.ts:471-489 | An unknown posting whose loads all fail is retryable with their number up to four, quarantined at the fifth, and not loaded again |
| CathoState.FetchedExactly | collectors/catho/state.ts:397-410 | Loaded are exactly the unknown and those with one to four failures |
| CathoState.EachLoadedOnce | collectors/catho/collect.ts:386-409 | With distinct ids, what a run leaves of a posting is what its one load leaves |
| CathoState.MarkIngested | collectors/catho/state.ts:551-560 | The loop turns exactly the collected entries among the ids into ingested |
| CathoState.MarkIngestedEvolves | collectors/catho/state.ts:551-560 | An id becomes ingested only with a payload of the acknowledged batch |
| CathoState.RequeueQuarantined | collectors/catho/state.ts:508-527 | Removes exactly the quarantined entries, among the ids given or all when none are, and reports each once |
| CathoState.CollectedPayloadsPendingIngest | collectors/catho/state.ts:535-544 | Returns the payload of every collected entry, once per entry, and nothing else |
| CathoState.SaveThenLoad | collectors/catho/state.ts:128-194 | Saving then loading is the identity if and only if every entry passes the validator's range check |
| CathoState.WellFormedSurvivesTheFile | collectors/catho/state.ts:128-194 | Every reachable state is read back as it was written |
| CathoState.LoadsExactly | collectors/catho/state.ts:158-187 | Only a document of version 2 whose entries all pass the validator is read as anything but empty |
| CathoState.DistinctIdsExactlyNeeded | collectors/catho/collect.ts:159-193 | Checkpointed payloads survive the rest of a run, whatever the pages answer, if and only if no id occurs twice |
| CathoState.RepeatedIdLosesAPayload | collectors/catho/collect.ts:353-426 | For every repeated id, page answers under which its collected payload is gone |
| CathoCollector.Checkpoint.SaveStateAtomic | collectors/catho/state.ts:189-194 | All or nothing, and what it wrote is what the loader reads |
| CathoCollector.Checkpoint.EligibleExactly | collectors/catho/collect.ts:353-355 | The candidates taken are exactly those that need a page load |
| CathoCollector.Checkpoint.EligibleInOrder | collectors/catho/collect.ts:353-355 | They stand in the order of the candidates, each as often |
| CathoCollector.Checkpoint.FetchPages | collectors/catho/collect.ts:353-426 | The page loop, stopped anywhere: memory is the start with the answers of the pages done folded in, the file is that with all but at most `checkpointEvery` of them |
| CathoCollector.Checkpoint.Ingest | collectors/catho/collect.ts:431-498 | Sends exactly what is pending; the file is marked ingested only after a 2xx answer, and then entirely |
| CathoCollector.Checkpoint.RunOnce | collectors/catho/collect.ts:336-500 | Stopped anywhere: the file is the one before with the answers of the first pages folded in, at most `checkpointEvery` answers missing, and has only evolved; unstopped, no answer is missing, the pages are all the budget allows, and nothing is posted exactly when nothing is pending and no page was left over |
| CathoCollector.Checkpoint.Requeue | collectors/catho/state.ts:508-527 | One atomic save that forgets exactly the quarantined entries named, or all |
| CathoCollector.Checkpoint.Campaign | collectors/catho/collect.ts:336-500 | Over any runs and requeues: a checkpointed payload is pending or was in a 2xx batch, ingested and expired never regress |
| PostingsStore.PostingsRepository.UpsertIn | src/persistence/infrastructure/postings-repository.ts:148-247 | First sighting inserts, later ones update without `firstSeenAt` and without erasing what is not restated; `wasNew` tells which |
| PostingsStore.PostingsRepository.UpsertMany | src/persistence/infrastructure/postings-repository.ts:141-146 | A page in order, each value flagged new exactly when no earlier one of its fingerprint exists |
| PostingsStore.PostingsRepository.MarkSeenIfPresent | src/persistence/infrastructure/postings-repository.ts:121-132 | Moves `lastSeenAt` forward on an existing row, nothing else |
| PostingsStore.PostingsRepository.ClaimForScoring | src/persistence/infrastructure/postings-repository.ts:461-496 | Returns each claimable row once, all of them and no others, and marks exactly those |
| PostingsStore.PostingsRepository.ReleaseUnresolvedClaims | src/persistence/infrastructure/postings-repository.ts:508-516 | No un-notified row carries the run's id afterwards; every other row is unchanged |
| PostingsStore.PostingsRepository.MarkNotifiedMany | src/persistence/infrastructure/postings-repository.ts:433-440 | Sets `notifiedAt` on exactly the named rows |
| PostingsStore.PostingsRepository.GetScoreFailureCount | src/persistence/infrastructure/postings-repository.ts:527-534 | The stored counter, 0 for a posting without a row |
| PostingsStore.PostingsRepository.RecordScoreFailure | src/persistence/infrastructure/postings-repository.ts:543-552 | One more failure on that row, if there is one |
| PostingsStore.PostingsRepository.ClearScoreFailures | src/persistence/infrastructure/postings-repository.ts:560-566 | Zero failures on that row, if there is one |
| PostingsStore.PostingsRepository.Rescore | src/persistence/infrastructure/postings-repository.ts:595-613 | Reopens exactly a posting whose last attempt failed, which is then claimable unless duplicate or discarded |
| ScoringClaims.LiveCandidatesDisjoint | src/persistence/infrastructure/postings-repository.ts:461-516 | Over any interleaving of runs, collections and manual edits: runs live at the same time share no candidate |
| ScoringClaims.ClaimTakesExactlyTheFree | src/persistence/infrastructure/postings-repository.ts:461-496 | A claim takes exactly the postings that are not notified, discarded or duplicate, held by no live run and not freshly left by a dead one |
| ScoringClaims.ReleasedForGood | src/persistence/infrastructure/postings-repository.ts:508-516 | After a release no continuation ever leaves the run's id on an un-notified posting |
| ScoringClaims.KeptByOthers | src/cli/main.ts:1003-1062 | No event of another process moves the claim, the notification or the failure counter of a live run's candidates |
| ScoringPool.Pool.Claim | src/cli/main.ts:1003-1062 | With any other processes before: the run holds exactly the postings claimable at that point of the log, each un-notified and not yet scored by it |
| ScoringPool.Pool.Release | src/cli/main.ts:1264-1281 | Afterwards no un-notified posting carries the run's id; the marks and scorer calls up to there are read off the log before its release |
| ScoreBudget.SpendIsBounded | src/cli/main.ts:1445-1557 | Over any history of one posting: consecutive failing calls never exceed the ceiling plus the calls never written down; a next call is possible exactly below the stored ceiling |
| ScoreBudget.CeilingBoundsExactly | src/cli/main.ts:1445-1557 | From a state with no call pending, the ceiling bounds consecutive failures on every continuation whose outcomes are all written if and only if no failing call is missing from the stored counter |
| ScoreBudget.AtMostMaxConsecutiveFailures | src/cli/main.ts:1445-1557 | When every call's outcome is written, the ceiling bounds consecutive failures over any number of runs |
| ScoreBudget.ExhaustedStaysExhausted | src/cli/main.ts:1445-1476 | At the ceiling no call is made again without a manual rescore |
| ScoreBudget.InterruptedCallsAreUnbounded | src/cli/main.ts:1478-1537 | For every n, a history with n consecutive failing calls none of which was written down |
| SpendOverRuns.RunsSpendByTheBudget | src/cli/main.ts:1428-1558 | Over any interleaving of runs, deaths and rescores: what they do to a posting is a history of the budget machine that ends in the counter stored in the table |
| SpendOverRuns.ConsecutiveFailuresAreBounded | src/cli/main.ts:1428-1558 | Over any sequence of runs a posting has at most the ceiling of consecutive failing calls behind it, plus those a run ended without writing down |
| RunAccounting.FinalScoreFailureCounts | src/cli/main.ts:1222-1254 | The breakdown adds up to filtered minus scored if and only if scored, deferred and failures do not exceed filtered; each named count is kept and the rest is named |
| RunAccounting.TalliesAddUp | src/cli/main.ts:1222-1254 | Every survivor has exactly one fate |
| RunAccounting.AccountedAddsUp | src/cli/main.ts:1222-1254 | When the counters are the tallies, what is left over is exactly the postings not attempted |
| DeliverRun.PartitionByOrigin | src/prefilter/domain/posting-origin.ts:57-68 | The national postings and the others, each in the given order, none lost or repeated |
| DeliverRun.Divide | src/cli/main.ts:1382-1414 | National postings first and never deferred, then international ones by rank up to the budget; deferred are the lowest ranked beyond it |
| Digests.ComposeDigest | src/delivery/domain/digest.ts:135-164 | Each section is exactly its entries, best score first: discards nowhere, entries without a link apart, no entry twice |
| Digests.RankedIsBestFirst | src/delivery/domain/digest.ts:117-127 | The order of a section: scores descend, entries with equal scores keep their order, and none is lost |
| RunFates.SettlesExactly | src/cli/main.ts:1646-1677 | What gets marked notified is exactly the evaluated postings (verdicts shown and exhausted failures, never a recoverable failure), and the digest has one true line for each |
| RunFates.FirstFateWithinBudget | src/cli/main.ts:1382-1414 | The division keeps the international budget: nothing national deferred, no more than the budget taken, nothing deferred before it is used up |
| RunFates.FirstFateScheduled | src/cli/main.ts:1381-1428 | Deferred are exactly the lowest ranked international postings, the others are attempted national first, by rank, each only after all before it |
| DeliverRun.Delivery.GiveUp | src/cli/main.ts:1451-1476 | At the ceiling: counted and reported as exhausted, no call made, the stored counter untouched |
| DeliverRun.Delivery.CallScorer | src/cli/main.ts:1478-1557 | One call with an exception possible at each step: the counters stay the tallies, the fate is what the scorer answered and matches what was written, and only a permanent answer stops the loop |
| DeliverRun.Delivery.ScoreAll | src/cli/main.ts:1428-1558 | The loop with its cancel, ceiling and batch-fatal exits: accounting holds at each, and a loop that reaches the end has attempted everyone |
| DeliverRun.Delivery.Admit | src/cli/main.ts:1335-1426 | Counts every survivor of the pre-filter, deferring within the budget, or throws before counting any |
| DeliverRun.Delivery.Announce | src/cli/main.ts:1599-1677 | After a successful notification exactly the evaluated postings are marked and the accepted digest tells of them; after a failed one, or an exception, none is marked |
| DeliverRun.Delivery.Finish | src/cli/main.ts:1222-1254 | The row's counts are the tallies of the fates; it adds up if and only if the deferrals do not exceed the filtered count |
| DeliverRun.Delivery.Execute | src/cli/main.ts:1124-1722 | On every exit the log shows this run's claim and release, or that it never claimed; between the states there: each candidate had its turn with the scorer at most once, in the order of the ranking, and its fate is what the scorer answered, exactly the evaluated ones are marked when a digest was sent, that digest tells of each with the scorer's verdict, each survivor has one counted fate within the budget, no un-notified posting keeps the run's id, and the breakdown is never reported as unclassified |
| CollectionHistory.HistoryIsRemembered | src/persistence/infrastructure/postings-repository.ts:121-247 | After any sightings: `firstSeenAt` is the first statement's, each coalesced field the last value stated, the rest the last statement's |
| CollectionHistory.LastSeenExactly | src/persistence/infrastructure/postings-repository.ts:121-132 | `lastSeenAt` is that of the last statement, or of the latest glimpse since when that is later |
| CollectionHistory.RunsAreHistory | src/cli/main.ts:315-447 | What one run tells a table that remembers a history continues that history |
| CollectionHistory.NewExactlyOnce | src/persistence/infrastructure/postings-repository.ts:148-247 | `wasNew` is true for the first statement of a posting and no other |
| CollectionHistory.NewOnesGrow | src/persistence/infrastructure/postings-repository.ts:141-247 | The table grows by one row per `wasNew` |
| CollectionHistory.Collect.CollectQuery | src/cli/main.ts:315-447 | A completed query has told the table exactly its old items as glimpses and its kept ones as statements, in order, and keeps both identities of the counters; one that throws has told a first part and counts nothing twice |
| CollectionHistory.Collect.ExecuteCollect | src/cli/main.ts:279-499 | A completed run has told the table exactly what its answers say; collected = normalized + tooOld + unnormalizable, normalized = new + alreadySeen, the table has grown by the new ones, and `received` is known exactly when every query knew |
| DedupScan.CompanyKey | src/persistence/application/dedup-similar-postings.ts:38-47 | The loop computes the key: the one prefix that drops only legal suffixes, all of them, and never the last word |
| DedupScan.KeyUnique | src/persistence/application/dedup-similar-postings.ts:38-47 | There is only one such prefix |
| DedupScan.GroupByCompany | src/persistence/application/dedup-similar-postings.ts:176-185 | Each company's group is exactly its postings in order, the keys once each in order of first occurrence |
| DedupScan.ByFirstSeenIsStable | src/persistence/application/dedup-similar-postings.ts:195-198 | A group is scanned in order of first sighting, complete, ties in their original order |
| DedupScan.AdvanceWindow | src/persistence/application/dedup-similar-postings.ts:203-212 | Moving the left edge right leaves exactly the in-window postings to its right |
| DedupScan.ScanOne | src/persistence/application/dedup-similar-postings.ts:202-240 | One step reports what brute force reports, truncates exactly when more in-window predecessors exist than the bound, and computes at most one similarity more than the bound |
| DedupScan.ScanGroup | src/persistence/application/dedup-similar-postings.ts:195-241 | The sliding scan equals comparing each posting with the newest bounded part of all in-window earlier ones, and counts truncations exactly |
| DedupScan.CanonicalIsOldestEligible | src/persistence/application/dedup-similar-postings.ts:217-225 | The match reported is the oldest eligible earlier posting, and none is reported exactly when there is none |
| DedupScan.DedupSimilarPostings | src/persistence/application/dedup-similar-postings.ts:170-249 | For every company in order of first occurrence the brute-force report, with at most n times (bound + 1) similarities computed in all |
| TitleWords.NormalizedIsJoined | src/prefilter/domain/title-match.ts:40-66 | Both normalizers produce exactly the text's tokens joined by single spaces |
| TitleMatch.PaddedIncludes | src/prefilter/domain/title-match.ts:94-103 | A padded substring occurs if and only if the words are a contiguous sublist |
| TitleMatch.TitleMatchIsWholeWords | src/prefilter/domain/title-match.ts:94-103 | `titleMatchesAny` holds if and only if some term's non-empty token list is a contiguous sublist of the title's |
| TitleMatch.KeywordMatchIsWholeWords | src/prefilter/domain/title-match.ts:136-166 | A one-word keyword matches exactly a whole collapsed word; a longer one exactly a phrase of spaced or of collapsed words |
| TitleMatch.CollapsedWordsAreGlued | src/prefilter/domain/title-match.ts:57-66 | Collapsed words are concatenations of consecutive spaced words, all used, in order |
| TitleMatch.OneWordCollapsesToItself | src/prefilter/domain/title-match.ts:136-158 | A keyword of one spaced word collapses to that word |
| TitleSimilarity.SignificantAreWords | src/posting/domain/title-similarity.ts:35-49 | Normalizing, splitting and filtering gives the title's words without the stop words |
| TitleSimilarity.ComputeBigrams | src/posting/domain/title-similarity.ts:51-56 | The loop gives every pair of neighbouring units, or the whole of a shorter string |
| TitleSimilarity.CountShared | src/posting/domain/title-similarity.ts:88-100 | The count-map loop computes the size of the multiset intersection |
| TitleSimilarity.ComputeTitleSimilarity | src/posting/domain/title-similarity.ts:71-106 | The result is the Dice coefficient by definition, with no division by zero |
| TitleSimilarity.Symmetric | src/posting/domain/title-similarity.ts:71-106 | Swapping the titles changes nothing |
| TitleSimilarity.UnitInterval | src/posting/domain/title-similarity.ts:71-106 | Between 0 and 1, and 1 if and only if the bigrams are the same and there are some |
| TitleSimilarity.WordOrderIrrelevant | src/posting/domain/title-similarity.ts:71-106 | Reordering the words of either title changes nothing |
| CieePaging.ThreeWays | src/posting/infrastructure/ciee-collector.ts:243-263 | Every scanned item is kept, rejected by its schema or rejected by the criteria |
| CieePaging.KeepExactly | src/posting/infrastructure/ciee-collector.ts:91-112 | Kept are exactly the vacancies with an allowed level whose city and area contain what was asked for |
| CieePaging.CriteriaExactly | src/posting/infrastructure/ciee-collector.ts:41-61 | Accepted are positive numbers only, 6000 results and pages of 100 by default |
| CieePaging.ScanItems | src/posting/infrastructure/ciee-collector.ts:243-263 | The item loop extends all three results from the items before a page to the items through it |
| CieePaging.Collect | src/posting/infrastructure/ciee-collector.ts:149-295 | Pages 0, 1, 2 and so on of one size are asked for; on every return the postings are those worth keeping among the received first items, and received = kept + rejected; without error on a truthful board these are the first `maxResults`, truncated exactly when there are more |
| IsoWeek.WeekIsTheStandards | scripts/report-supply.ts:60-76 | The division is exact and gives the week of section 2.2.10 of ISO 8601:2004, within 1 to 53, in the year of its Thursday |
| IsoWeek.WeeksAreChronological | scripts/report-supply.ts:60-76 | Week dates order as time does and tell weeks apart |
| IsoWeek.WeekTextOrder | scripts/report-supply.ts:57-76 | The keys sort as text in the order of their year and week |
| IsoWeek.DateTextOrder | src/market/domain/time-series.ts:10-15 | ISO dates sort as text in the order of the days they name, one text per day |
| IsoWeek.MondayDay | src/market/domain/time-series.ts:10-15 | Stepping back in milliseconds lands on the Monday of the week |
| IsoWeek.BucketingsAgree | src/market/domain/time-series.ts:10-15 | For years 1000 to 9999: two instants share a week key if and only if they share a Monday, and both keys sort chronologically |
| IsoWeek.FourDigitsExactly | src/market/domain/time-series.ts:10-15 | The range of that statement is exactly the years 1000 to 9999 |
| IsoWeek.EpochIsTheFirstOf1970 | src/market/domain/time-series.ts:10-15 | Day numbers start at Monday 0001-01-01, instants at Thursday 1970-01-01 |
| IsoWeek.MonthLengths | src/market/domain/time-series.ts:10-15 | The months have the lengths of the Gregorian calendar |
| IsoWeek.WeekTextReads | scripts/report-supply.ts:60-76 | A key is the year in four decimal digits, "-W" and the week in two |
| IsoWeek.DateTextReads | src/market/domain/time-series.ts:10-15 | A date text reads back, in decimal, as year, month and day of the very day |
| IsoWeek.CountByWeek | src/market/domain/time-series.ts:23-32 | The loop counts for every Monday exactly the entries of its week |
| IsoWeek.SameEntriesTogether | src/market/domain/time-series.ts:23-32 | Counting by Monday or by week key puts the same entries together |

## Left out

- TelegramNotifier.Delivery.Notify: rendering the digest, the 429 delay and the pause between messages are not modelled; the error texts of failures are placeholders.
- TelegramNotifier.Delivery.SendMessageDetailed: `maxRetries` is a natural number, as the constructor's configuration gives it.
- CathoLock.UnexpiredLeasesExclude: holds unless a takeover file is stolen, ExclusionExactly saying why; creating a file and writing its token are one step, and errors other than "exists" and "missing" are not modelled.
- CathoCollector.Checkpoint.RunOnce: the browser, the sitemap and the HTTP client are arbitrary outcomes; refreshing the lock inside the page loop is one of the faults that stop it.
- ScoreBudget.AtMostMaxConsecutiveFailures: holds for histories in which every outcome is written, exactly as CeilingBoundsExactly says; SpendIsBounded covers the others.
- DeliverRun.RankForScoring: any permutation; its ranking rule is not modelled, what follows from the order is.
- DeliverRun.Delivery.Execute: the pre-filter and the origin test are arbitrary functions of the posting; run rows other than its own, usage totals, the recurring-gap line and the section of period-gated postings are left out. The death of the process is an event of ScoringClaims, not an exit.
- ScoringPool.Pool.Claim: the dedup pass in the same transaction is modelled by itself in DedupScan; today it marks no duplicate.
- CollectionHistory.Collect.ExecuteCollect: no other writer between its transactions; seniority and years of experience, which scoring writes too, are not part of HistoryIsRemembered.
- DedupScan.DedupSimilarPostings: company and city come normalized; the key is a list of words instead of the joined string; the window is a whole number of days.
- TitleWords.NormalizedIsJoined: lower-casing and canonical decomposition are done symbol by symbol before the model starts; the similarity normalizer maps every run of separators to one space like the title one, so both are one function here.
- TitleSimilarity.ComputeTitleSimilarity: real instead of floating-point division.
- IsoWeek.CountByWeek: sorting the points afterwards; BucketingsAgree says that sorting their keys sorts them in time.
- SQL, Drizzle, SHA-256 and Zod: a statement or transaction is one atomic update of a map, a hash is the value it is taken of, and a schema is the set of values it accepts.
- Scoring itself, digest texts, market aggregates, the other collectors, the HTTP and MCP interfaces, configuration and backups: not part of this model.
