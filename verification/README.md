# Blindference coordination and settlement, in Dafny

Blindference has AI jobs answered by a leader and checked by verifiers. Each node posts a commitment hash; a coordinator decides from the hashes, and a payment service charges, rewards or refunds. This project models that coordination and proves properties of it. `dafny verify dfyconfig.toml` checks everything.

## What is modelled

**The quorum decision.** `HashTally` counts hashes the way the finalizer does (a dictionary in insertion order, the first largest count, a threshold of two thirds rounded up). `TextRequests` is the stored document of one text-mode request with every write that is made to it. `QuorumRuns` takes each call as one step and covers runs of whole calls with any resubmissions. In the race modules every call is split where it awaits between a read and a later write, and any number of calls interleave: `NodeCalls` has the steps of claims and polls, for both modes; `FinalizerRace` those of finalizers, the leader's post, key confirmations, permits and the closing write of a creation, and shows that the early, unconditional decisions of racing finalizers agree; `RaceOutcomes` says exactly when a request has one outcome, timeouts included, and shows it; `LostDecisions` exactly when a decision is written, lost or in hand, and that the order of arrival does not matter. `RaceLimits` shows, for any hashes, that the conditions of those theorems cannot be dropped. `QuorumService` is the service as a class over its table of requests; each method equals a function of `TextRequests`. `VerdictAggregator` and `RiskRequests` are the risk mode, `RiskRaces` its commits with every await between them, racing claims and polls, `RiskDecisions` exactly when a risk request is decided, and `CommitmentConsensus` is the three-node special case.

**Settlement and ledger.** `Ledger` gives the stored procedures the contract that their callers assume, and the credit service over them. `JobService` has submission, lookup, completion and the reward transfers, as functions and as a class; a completion callback has three steps (read, pay, write), and so has a submission that fails to forward its job (enroll, mark, unwind). `LedgerRuns` accounts for every credit over all runs in which these steps interleave and any call may fail, `CallbackRuns` says exactly when each job is settled once, `LedgerLaw` exactly when balances are what the stored statuses say, and `LedgerLimits` how they come not to be. `Settlement` joins the race modules to the ledger through notifiers whose posts may be lost, delayed or duplicated and whose callbacks overlap.

**The document store.** `Documents` has JSON documents, dotted keys and nested assignment; `DocumentStore` the update of both backends as functions; `Collections` the two collection classes with their loops; `BackendAgreement` compares the backends.

**Algorithms.** `RateLimit` (sliding window), `NodePool` and `NodeSelector` (screening, ranking, shuffling, picking), `KeyCodec` over `Numerals` (key halves through hex text and through big-endian bytes, payload layouts with the initialisation vector and tag sizes of section 5.2.1 of NIST SP 800-38D), `OutputCommitment` (whitespace normalisation and the commitment preimage).

A file whose source changes state step by step is a class or a method with loops, proved against a function; the theorems are about that function. Times are real numbers of seconds. Randomness (shuffle draws, generated ids), prices, chain answers and the success of network calls are parameters.

## Where the code and its promise part

- A callback tests the status when it reads the row and writes it later without looking again, so two callbacks that overlap both pay: two refusals return a charge twice, two successes offer a reward twice (`LedgerLimits.OverlappingCallbacksSettleTwice`). It takes no faulty node: two finalizers that agree each spawn a notifier (`RaceLimits.AgreeingFinalizersWriteTwice`). A submission whose forwarding only seemed to fail marks its row and refunds without reading it at all (`LedgerLimits.GivingUpOverridesSettlement`). Every job is settled once exactly if none of this happens (`CallbackRuns.SettledOnceExactly`, `Settlement.SettledOnceExactly`).
- A submission that breaks after its deduction, and a refund that fails, keep the charge (`JobService.FailedSubmissionIsFreeExactly`, `LedgerLimits.FailedRefundGuard`). A rejected or timed-out job that was paid through an escrow gets its price paid out as credits, because the payment mode is dropped before the row is stored and is read back as credits (`LedgerLimits.EscrowReturnGuard`, `LedgerLimits.EscrowRejectionPaysUnearnedCredits`). `LedgerLaw.CleanExactly` says that these and settling twice are all that can go wrong.
- A poll marks its own entry, reads again whether all entries are failed, and then writes `failed`, whatever happened meanwhile. A leader that posts within a poll gets its request both timed out and decided, in either order, without ever claiming again (`RaceLimits.PostWithinPollCrossesOutcomes`), and whichever notifier comes through first settles the job (`Settlement.AnyNoticeSettles`). A leader that claims again after submitting has the same effect (`RaceLimits.ReclaimLetsTimeoutPrecedeDecision`). `RaceOutcomes.OneOutcomePerRequest` gives the exact condition, `RaceOutcomes.OrderlyRunsAreHarmless` a discipline that is enough.
- A key confirmation, and the creation of a request itself, wait for the chain between fixing the metadata and writing them together with the status. A leader's post in between is erased and the request never decided (`RaceLimits.ConfirmationErasesResult`, `LostDecisions.ErasedResultIsNeverDecided`); a second confirmation, or a creation that returns late, puts an accepted request back to its first status (`RaceLimits.SecondConfirmationReopens`, `RaceLimits.CreationUndoesDecision`).
- A request whose prompt key is confirmed only after every node has submitted and every finalizer has given up is never decided, because confirming starts no finalizer (`RaceLimits.LateConfirmationLosesDecision`). `LostDecisions.QuietDecisionExactly` and `LostDecisions.ConfirmationIsWatchedExactly` give the exact condition.
- A risk request is created without entries, so a poll that looks for an entry that has not failed looks only at the nodes that have ever claimed: one member that claims and is late fails the whole request, and then nobody decides it, whoever posts (`RiskDecisions.LoneClaimerFailsRequest`, `RiskDecisions.StoppedIsNeverDecided`).
- A node that submits again with another hash lets racing finalizers write different decisions; repeating the same hash does no harm (`RaceLimits.ChangedHashBreaksAgreement`).
- A leader that was outvoted and posts its hash again after the acceptance puts it into the commitment field, in place of the winner (`LostDecisions.MoveShowsWinnerExactly`).
- The risk commit tests the status once, long before it writes: whoever calls its endpoint while a finalizer is on its way to commit has their own outcome written as well (`RiskDecisions.DirectCommitOverrides`).
- The two stores differ on an empty update with upsert of an existing row and on an increment of a queried column (`BackendAgreement.Diverges`), and two dotted updates that both touch one top-level field lose one of them when their reads and writes interleave (`Documents.InterleavingLosesSharedFields`).
- The TypeScript code combines key halves of more than 128 bits to some key where Python raises an error (`KeyCodec.CombinesAgreeExactly`).
- Without a leader post, the three-node function accepts what the finalizer would not decide (`CommitmentConsensus.AgreesWithCountExactly`).

## Model

| member | source | states |
|---|---|---|
| HashTally.RequiredIsCeiling | network/packages/icl/services/quorum_service.py:1753-1754 | the threshold is the ceiling of two thirds, always a strict majority, and leaves exactly a third rounded down |
| HashTally.DecideMeetsRule | network/packages/icl/services/quorum_service.py:1395-1464 | for any number of verifiers a hash is accepted iff two thirds of all nodes hold it, rejection iff all verdicts are in and no hash has two thirds; the confirm count is the largest number of votes of any hash and the reject count the rest of the quorum |
| HashTally.TwoThirdsIsUnique | network/packages/icl/services/quorum_service.py:1411-1413 | no two hashes can reach the threshold |
| HashTally.AcceptanceIsStable | network/packages/icl/services/quorum_service.py:1413-1431 | an acceptance made before all verdicts are in is never changed by later ones |
| HashTally.DecisionIgnoresRowOrder | network/packages/icl/services/quorum_service.py:1383-1411 | the decision does not depend on the order in which rows are read, although ties are broken by insertion order |
| HashTally.LeadingBeatsAll | network/packages/icl/services/quorum_service.py:1398-1411 | the first largest entry of the insertion-ordered counts has at least as many votes as any hash |
| HashTally.KeysInOrder | network/packages/icl/services/quorum_service.py:1395-1405 | the keys of the counts stand in the order in which their hashes are first met |
| HashTally.BestIsFirst | network/packages/icl/services/quorum_service.py:1411-1411 | every key before the winner's first place has fewer votes than the winner |
| TextRequests.UpsertKeepsOneRow | network/packages/icl/services/quorum_service.py:1104-1108 | storing a verdict keeps one row per verifier, replaces only that verifier's row and appends a first one |
| TextRequests.RowsAreBounded | network/packages/icl/services/quorum_service.py:1085-1108 | there are never more rows than verifiers, and equally many iff every verifier has voted |
| TextRequests.ConfidenceIsOfAgreeing | network/packages/icl/services/quorum_service.py:1396-1418 | the stored confidence lies between the least and the greatest of the leader and the agreeing verdicts, and stays as it was when another hash wins |
| TextRequests.ConfidenceIsAverage | network/packages/icl/services/quorum_service.py:1396-1418 | the confidence of an accepted leader hash is the sum of the leader's and the agreeing verifiers' confidences divided by their number, rounded down; otherwise what was stored |
| TextRequests.FinalizedByVotes | network/packages/icl/services/quorum_service.py:1395-1464 | after the finalizer the document is accepted with a hash iff two thirds hold it, rejected iff everybody voted and none has two thirds, and otherwise untouched; the counts are the largest one and the rest, and no other field changes |
| TextRequests.PolledExactly | network/packages/icl/services/quorum_service.py:1868-1958 | a poll changes a request only if it is unfinished, assigned to the node and claimed by it more than 300 seconds ago; then it fails that claim, keeps its time, and fails the request iff every other entry had failed |
| TextRequests.CreateIsWellFormed | network/packages/icl/services/quorum_service.py:366-374 | a new text request is queued, or pending its key, has a pending unclaimed entry for exactly the quorum members, and neither result, commitment nor rows |
| QuorumRuns.RunKeepsWellFormed | network/packages/icl/services/quorum_service.py:851-1126 | every run of leader and verifier submissions, claims, polls and finalizers keeps the document well-formed |
| QuorumRuns.HoldersAreVotes | network/packages/icl/services/quorum_service.py:1395-1408 | the number of ballots for a hash is the number of distinct assigned nodes that currently hold it |
| QuorumRuns.AcceptanceHasQuorum | network/packages/icl/services/quorum_service.py:1413-1431 | in every run with resubmissions, an acceptance means that two thirds of the distinct nodes hold the stored hash then, no other hash has that support, and the counts add up |
| QuorumRuns.RejectionHasNoQuorum | network/packages/icl/services/quorum_service.py:1451-1464 | in every run, a rejection means that every node has voted and no hash has two thirds |
| QuorumRuns.StepMoves | network/packages/icl/services/quorum_service.py:1370-1375 | every status change of one whole call is one the lifecycle allows: decisions only from queued, the key confirmation only to queued |
| QuorumRuns.LifecycleOverRuns | network/packages/icl/services/quorum_service.py:587-596 | over every run of whole calls accepted, rejected and failed are absorbing and pending_store_key is left only to queued; with calls interleaved see `RaceOutcomes.FinalStatusStaysExactly` |
| QuorumRuns.FailureIsJustified | network/packages/icl/services/quorum_service.py:1932-1946 | in runs of whole calls a request fails only in a call after which the leader and every verifier are marked failed, each more than 300 s after its claim; with calls interleaved see `RaceOutcomes.TimeoutWasSeen` |
| QuorumRuns.OnlyOverdueEntriesFail | network/packages/icl/services/quorum_service.py:1875-1898 | a whole call makes an entry failed only if it is a poll by the entry's own node with a claim older than 300 s |
| QuorumRuns.RunKeepsTimeoutsJustified | network/packages/icl/services/quorum_service.py:1825-1843 | with a monotone clock, every failed entry stays more than 300 s behind its recorded claim over any run of whole calls |
| NodeCalls.StepKeepsCovers | network/packages/icl/services/quorum_service.py:1825-1958 | however claims and polls interleave, each rewriting all entries as it read them, no member's entry is ever lost |
| NodeCalls.UndisturbedPollIsAtomic | network/packages/icl/services/quorum_service.py:1845-1958 | the steps of a poll (list, test the claim, read, mark, read again, fail), with nothing in between, do to entries and status what the one-step poll does |
| NodeCalls.UndisturbedClaimIsAtomic | network/packages/icl/services/quorum_service.py:1825-1843 | so do the two steps of a claim |
| FinalizerRace.RacingFinalizersAgree | network/packages/icl/services/quorum_service.py:1370-1482 | with every await of finalizers, posts, claims, polls, confirmations, permits and creations interleaved arbitrarily and nodes submitting any number of times, any two quorum decisions ever written are equal, hash included, if no node changes its hash, even if results get lost |
| FinalizerRace.PlayKeepsConsistent | network/packages/icl/services/quorum_service.py:1370-1482 | over every such interleaving entries cover the quorum, snapshots are prefixes of the votes, and every logged decision is still what the votes cast call for |
| FinalizerRace.BackedIsTwoThirds | network/packages/icl/services/quorum_service.py:1413-1464 | a logged acceptance means two thirds of the nodes hold its hash, a logged rejection that no hash has two thirds |
| FinalizerRace.EveryDecisionFitsWhatWasSeen | network/packages/icl/services/quorum_service.py:1383-1464 | with any resubmissions and any interleaving, a finalizer accepts only a hash that two thirds of the distinct nodes posted in what it read, and no other had that, and rejects only with a verdict of every verifier and no such hash |
| FinalizerRace.UndisturbedFinalizerIsAtomic | network/packages/icl/services/quorum_service.py:1370-1482 | a finalizer that nothing interleaves with equals the one-step finalizer |
| FinalizerRace.UndisturbedPostIsAtomic | network/packages/icl/services/quorum_service.py:851-968 | the two steps of a leader's post, with nothing in between, store what the one-step post stores and start one finalizer |
| FinalizerRace.UndisturbedConfirmationIsAtomic | network/packages/icl/services/quorum_service.py:543-600 | the two steps of a confirmation are the one-step confirmation, and those of an attachment of permits leave the document as it was |
| RaceOutcomes.OneOutcomePerRequest | network/packages/icl/services/quorum_service.py:1370-1482 | if no node changes its hash: at every moment all outcomes written so far, timeouts included, are equal and the document shows them, iff no decision is written onto a failed request, no timeout onto a decided one, and no confirmation or end of a creation onto either |
| RaceOutcomes.MoveSettlesExactly | network/packages/icl/services/quorum_service.py:1936-1946 | the one-move form: one outcome, shown by the document, survives a move iff the move is not such a write |
| RaceOutcomes.MoveShowsExactly | network/packages/icl/services/quorum_service.py:587-596 | the document shows the last outcome after a move iff the move is not a confirmation or an end of the creation that finds a final status |
| RaceOutcomes.FinalStatusStaysExactly | network/packages/icl/services/quorum_service.py:587-596 | with calls interleaved a final status stays iff the move is not a late write of another status |
| RaceOutcomes.TimeoutWasSeen | network/packages/icl/services/quorum_service.py:1932-1946 | over every interleaving a timeout is written only after some poll has read the request unfinished with the leader and every verifier marked failed |
| RaceOutcomes.OrderlyRunsAreHarmless | network/packages/icl/services/quorum_service.py:1934-1946 | if no node changes its hash, no stale metadata or status is put back, the leader's post is written while no claim, poll or other post is under way, and it claims no more afterwards, then a timeout is only ever written before the leader posts and the exact condition is met |
| LostDecisions.DecisionWrittenExactly | network/packages/icl/services/quorum_service.py:1370-1482 | with any resubmissions, timeouts, confirmations and lost results: once all finalizers are done a decision was written iff some finalizer, past its first read, read verdicts that are enough to decide |
| LostDecisions.QuietDecisionExactly | network/packages/icl/services/quorum_service.py:1370-1482 | whether or not the request began in pending_store_key or was still being created: once all have submitted, finalizers and creation are done and no timeout was written, a decision was written iff some finalizer read enough verdicts; without stale metadata or status put back, iff the leader's hash is not empty and a finalizer was under way at some moment after the creation and the key's confirmation; and the status then shows the count of all votes |
| LostDecisions.OrderlyDecisionExactly | network/packages/icl/services/quorum_service.py:1370-1482 | under the discipline of `RaceOutcomes.OrderlyRunsAreHarmless` such a request is decided iff moreover no timeout was written |
| LostDecisions.ResultStaysExactly | network/packages/icl/services/quorum_service.py:556-596 | the leader's result stays in the document after a move iff the move does not put back metadata that were fixed before it came |
| LostDecisions.ErasedResultIsNeverDecided | network/packages/icl/services/quorum_service.py:1376-1379 | once the document has lost the result and no finalizer or draft has it, nothing is decided unless the leader posts again, whatever else happens |
| LostDecisions.ConfirmationIsWatchedExactly | network/packages/icl/services/quorum_service.py:543-600 | a finalizer is under way after a key confirmation iff one is under way at that moment or some node submits later; the confirmation itself starts none |
| LostDecisions.QueuedDecisionIsNeverLost | network/packages/icl/services/quorum_service.py:1395-1482 | a request that never awaits its key and whose result no stale metadata overwrite is decided by the final count |
| LostDecisions.ArrivalOrderIsIrrelevant | network/packages/icl/services/quorum_service.py:851-977 | two runs with the same votes and no changed hashes, in any orders and interleavings, with results lost or not, write the same decision, winning hash included |
| LostDecisions.CompleteRunsEndAlike | network/packages/icl/services/quorum_service.py:851-977 | two such runs that are watched, undisturbed and complete end in the same status with the same winning hash |
| LostDecisions.MoveShowsWinnerExactly | network/packages/icl/services/quorum_service.py:877-966 | a move leaves the accepted hash in the commitment field iff it is not a leader's post of another hash onto an accepted request |
| LostDecisions.PlayShowsWinner | network/packages/icl/services/quorum_service.py:877-966 | if no node changes its hash, without such a post and without a late confirmation or creation, the commitment field shows the winner over every run |
| RaceLimits.ChangedHashBreaksAgreement | network/packages/icl/services/quorum_service.py:1104-1119 | for any two hashes: a verifier that changes its verdict makes two finalizers write an acceptance and a rejection |
| RaceLimits.AgreeingFinalizersWriteTwice | network/packages/icl/services/quorum_service.py:1370-1482 | for any two hashes, with single submissions: two finalizers that agree both write, and so both notify |
| RaceLimits.ReclaimLetsTimeoutPrecedeDecision | network/packages/icl/services/quorum_service.py:1833-1839 | for any two hashes: a leader that re-claims is timed out, the request fails, and a late finalizer still decides it |
| RaceLimits.PostWithinPollCrossesOutcomes | network/packages/icl/services/quorum_service.py:1904-1958 | for any hash, without a re-claim: the leader posts between a poll's last look at the entries and its write, and the request gets a timeout and an acceptance, in either order |
| RaceLimits.ConfirmationErasesResult | network/packages/icl/services/quorum_service.py:556-596 | for any hash: both nodes post between a confirmation's read and its write; finalizers are under way after it, but the request loses the result and is never decided although two thirds posted the hash |
| RaceLimits.SecondConfirmationReopens | network/packages/icl/services/quorum_service.py:556-596 | for any hash: a second confirmation that read the awaited key puts an accepted request back to queued, without its result |
| RaceLimits.CreationUndoesDecision | network/packages/icl/services/quorum_service.py:409-536 | for any hash: nodes have a stored request accepted before its creation returns, and the creation puts it back to queued or pending_store_key, without its result |
| RaceLimits.LateConfirmationLosesDecision | network/packages/icl/services/quorum_service.py:587-600 | for any hash: both nodes post it, both finalizers give up because the key is awaited, the key is confirmed, and the request stays queued although two thirds hold the hash |
| QuorumService.CountHashes | network/packages/icl/services/quorum_service.py:1395-1409 | the loop builds, in insertion order, exactly the vote count of every posted hash, and the confidences of those that equal the leader's |
| QuorumService.LargestCount | network/packages/icl/services/quorum_service.py:1411-1411 | `max` over the dictionary items gives the first key with the largest count |
| QuorumService.TallyRows | network/packages/icl/services/quorum_service.py:1392-1451 | counting and comparing with the threshold gives the decision of `HashTally` |
| QuorumService.DecideText | network/packages/icl/services/quorum_service.py:1413-1464 | the finalizer's writes are the finalizing function of `TextRequests` |
| QuorumService.ScanIsExact | network/packages/icl/services/quorum_service.py:1855-1900 | a scan lists, without repetition, exactly the queued, dispatched or running requests whose leader or verifier the node is and whose entry is not claimed, completed or failed |
| QuorumService.NoticesAnnounce | network/packages/icl/services/quorum_service.py:1432-1476 | what a finalizer sends is a success with a hash iff two thirds of the ballots hold that hash, a rejection without a hash iff every verifier has a row and no hash has two thirds, and otherwise nothing |
| QuorumService.ScanNoticesExactly | network/packages/icl/services/quorum_service.py:1936-1958 | a scan sends a timeout, without a hash, for exactly those requests that it fails, and nothing else |
| QuorumService.VerdictWords | network/packages/icl/services/quorum_service.py:1089-1091 | a verdict is good iff it is CONFIRM or REJECT in capital or small letters |
| QuorumService.Deduplicate | network/packages/icl/services/quorum_service.py:1868-1875 | the order-keeping removal of duplicates keeps the same ids, each once |
| QuorumService.TextQuorumService.CreateTextRequest | network/packages/icl/services/quorum_service.py:292-541 | adds exactly one fresh request to the table |
| QuorumService.TextQuorumService.InsertTextRequest | network/packages/icl/services/quorum_service.py:366-415 | stores a queued request with a pending entry for every member |
| QuorumService.TextQuorumService.OpenTextRequest | network/packages/icl/services/quorum_service.py:523-536 | puts the first status and the metadata without a result over the request, whatever it says by now |
| QuorumService.TextQuorumService.AttemptFinalize | network/packages/icl/services/quorum_service.py:1370-1482 | reads, decides and writes as one call; for a queued request with a leader hash and at most one row per verifier the outbox gains a success with hash h iff two thirds of the ballots hold h, a rejection iff every verifier has a row and no hash has two thirds, and nothing otherwise; an empty leader hash is an error |
| QuorumService.TextQuorumService.SubmitTextLeaderResult | network/packages/icl/services/quorum_service.py:851-986 | an unknown task and a bad verdict word change nothing; otherwise, whatever the status, the result is stored, the leader's entry completed with its claim time kept and every other entry and row kept, and the notices are those that the votes with this result call for |
| QuorumService.TextQuorumService.SubmitTextVerifierVerdict | network/packages/icl/services/quorum_service.py:1075-1126 | an unknown task, a node that is no verifier and a bad word change nothing; otherwise the verdict becomes the verifier's only row, all other rows and the entries stay, and the notices are those that the votes with this row call for |
| QuorumService.TextQuorumService.RecordNodeClaim | network/packages/icl/services/quorum_service.py:1825-1843 | the entry of any caller becomes a claim at the given time, and every other entry and field stays |
| QuorumService.TextQuorumService.ConfirmPromptKeyStore | network/packages/icl/services/quorum_service.py:543-600 | read and write in one go move pending_store_key to queued and change nothing else |
| QuorumService.TextQuorumService.ReadForConfirmation | network/packages/icl/services/quorum_service.py:556-565 | goes on only for a request that awaits its key, remembering the leader's result in its metadata |
| QuorumService.TextQuorumService.WriteConfirmation | network/packages/icl/services/quorum_service.py:587-596 | puts the remembered result and queued over the request, whatever it says by now |
| QuorumService.TextQuorumService.MarkNodeAssignmentFailed | network/packages/icl/services/quorum_service.py:1904-1958 | its three parts in one go mark one entry failed and fail the request, with a timeout notice, iff that was the last one of an unfinished request |
| QuorumService.TextQuorumService.MarkEntryFailed | network/packages/icl/services/quorum_service.py:1904-1931 | marks one entry failed and keeps its claim, nothing else |
| QuorumService.TextQuorumService.FindsAllFailed | network/packages/icl/services/quorum_service.py:1932-1936 | true iff the request is unfinished and every entry on record is failed |
| QuorumService.TextQuorumService.FailRequest | network/packages/icl/services/quorum_service.py:1937-1958 | writes failed and sends a timeout notice, whatever the request says by now |
| QuorumService.TextQuorumService.GetPendingAssignments | network/packages/icl/services/quorum_service.py:1845-1902 | a cached answer is the scan of the table seen less than 15 s before, and nothing changes; otherwise the answer is the scan of the present table, exactly the node's overdue claims are failed, and exactly the timeout notices of the requests that this fails are sent, in scan order |
| VerdictAggregator.Aggregate | network/packages/icl/services/verdict_aggregator.py:7-47 | accepted iff at least half of the assigned verifiers really sent a confirming last verdict, missing ones count as rejections with confidence 0, addresses compare case-insensitively, counts add up |
| VerdictAggregator.ConfirmsAreConfirming | network/packages/icl/services/verdict_aggregator.py:17-38 | the confirm count is the number of verifiers with a confirming last verdict |
| VerdictAggregator.SameKeyExactly | network/packages/icl/services/verdict_aggregator.py:15-18 | two addresses are the same verifier iff they differ at most in the case of Latin letters |
| VerdictAggregator.LastVerdictCounts | network/packages/icl/services/verdict_aggregator.py:13-24 | of several verdicts of one verifier the last one counts |
| VerdictAggregator.MissingVerdictRejects | network/packages/icl/services/verdict_aggregator.py:18-30 | a verifier without a verdict counts as rejecting with confidence 0 |
| VerdictAggregator.ConfidencesAreSummed | network/packages/icl/services/verdict_aggregator.py:39-45 | what is averaged is the sum of the listed confidences |
| VerdictAggregator.RoundIsNearest | network/packages/icl/services/verdict_aggregator.py:39-45 | the rounded confidence is a nearest integer to the average, and the even one on a tie |
| VerdictAggregator.ConfidenceIsBetween | network/packages/icl/services/verdict_aggregator.py:39-45 | the rounded confidence lies between the least and the greatest confidence that went in |
| VerdictAggregator.RiskIsStrictMajority | network/packages/icl/services/verdict_aggregator.py:46-46 | confirm >= reject is a strict majority of all nodes counting the leader, and is implied by the two-thirds rule for every number of verifiers |
| VerdictAggregator.RulesCoincideExactly | network/packages/icl/services/quorum_service.py:1753-1754 | the risk rule and the two-thirds rule accept the same counts iff there are 0, 1, 2, 3 or 5 verifiers |
| RiskRequests.RiskDecisionIsMajority | network/packages/icl/services/quorum_service.py:1297-1341 | the finalizer decides iff the request is queued and submitted, has a verifier, and every verifier has a row; then it accepts iff at least half of the verifiers hold the leader's opinion, with matching counts, rounded confidence and certificate |
| RiskRequests.OpinionExactly | network/packages/icl/services/quorum_service.py:1323-1335 | an answer counts as given; without one a verifier agrees iff its row carries the leader's hash |
| RiskRequests.SameHashIsAccepted | network/packages/icl/services/quorum_service.py:1318-1341 | if the leader posted a hash and every verifier's row has that hash and no answer of its own, all verifiers count as supporting it and the request is accepted with it |
| RiskRequests.RiskRowOrderIsIrrelevant | network/packages/icl/services/quorum_service.py:1311-1323 | the decision does not depend on the order of the stored rows |
| RiskRequests.RoundWaitsForAll | network/packages/icl/services/quorum_service.py:1318-1319 | over a whole round of submissions nothing is decided before the last verdict, and then what the full table calls for |
| RiskRequests.RoundOrderIsIrrelevant | network/packages/icl/services/quorum_service.py:988-1048 | two rounds with the same verdicts in different orders end in the same decision |
| RiskRequests.StoringKeepsRows | network/packages/icl/services/quorum_service.py:1003-1028 | the membership check and the upsert keep one row per assigned verifier |
| RiskRequests.AllInExactly | network/packages/icl/services/quorum_service.py:1311-1323 | with one row per assigned verifier, the finalizer goes on iff every verifier has a row |
| RiskRequests.CommitKeepsVerdicts | network/packages/icl/services/quorum_service.py:1220-1239 | the rows that a commit rewrites, whose hashes it drops, still give every verifier the verdict that was counted |
| RiskRequests.CommitIsIdempotent | network/packages/icl/services/quorum_service.py:1128-1341 | finalizing a committed request once more would change nothing, not even a row |
| RiskRequests.RiskQuorumService.CommitRequest | network/packages/icl/services/quorum_service.py:1128-1295 | refused iff no longer queued or without a verifier; otherwise the decision's hash is the given one, or the digest of the score if it is missing or empty, the request is accepted iff at least half of the verifiers sent a confirming verdict, the row of each counted verdict is rewritten, and the certificate is written before the decision |
| RiskRequests.RiskQuorumService.AttemptFinalizeRequest | network/packages/icl/services/quorum_service.py:1297-1368 | commits iff the request is ready and otherwise changes nothing; one notice goes out iff it committed, telling acceptance iff the request is accepted, with the decided hash |
| RiskRequests.RiskQuorumService.SubmitLeaderResult | network/packages/icl/services/quorum_service.py:793-844 | only the leader's result is stored, whatever the status: the posted hash if there is a non-empty one, else the digest of the score, with its confidence; a finalizer follows and notifies as it decides |
| RiskRequests.RiskQuorumService.SubmitVerifierVerdict | network/packages/icl/services/quorum_service.py:988-1048 | only an assigned verifier is stored, one row each, its assignment is marked completed, and a finalizer follows |
| RiskRaces.RacingCommitsAgree | network/packages/icl/services/quorum_service.py:1128-1345 | with any number of finalizers, commits, claims, polls and permits interleaved between all their reads and writes, and nodes repeating themselves: if no node changes what it says and nobody calls the commit directly, every decision written is the majority of the nodes' own rows, decision and certificate show it from the first one on, and the status shows the last outcome, timeouts included |
| RiskRaces.VerdictsAreMajority | network/packages/icl/services/quorum_service.py:1323-1341 | that decision accepts iff at least half of the verifiers' own rows confirm the leader, whether by an explicit answer or by the hash |
| RiskRaces.OneKindExactly | network/packages/icl/services/quorum_service.py:1268-1295 | a risk request gets both a timeout and a decision iff a commit is written onto a failed request or a timeout onto a decided one |
| RiskDecisions.DecisionWrittenExactly | network/packages/icl/services/quorum_service.py:1128-1136 | in any run, with direct commits, timeouts and lost submissions: once all finalizers and commits are done, a decision was written iff some commit passed its status test |
| RiskDecisions.StoppedIsNeverDecided | network/packages/icl/services/quorum_service.py:1128-1136 | a request that a poll failed before any commit had passed its status test is never decided, whoever posts or commits afterwards |
| RiskDecisions.LoneClaimerFailsRequest | network/packages/icl/services/quorum_service.py:1825-1958 | for every new risk request and every member: the member claims, polls 301 s later and so fails the request alone, and in no continuation is it decided |
| RiskDecisions.QuietRiskDecisionExactly | network/packages/icl/services/quorum_service.py:793-1368 | once posts, finalizers and commits are done, with nobody calling the commit directly and no stale metadata put over the submission: a request was decided iff the leader and every verifier have posted and no poll failed it before a commit had passed its status test |
| RiskDecisions.SubmissionStaysExactly | network/packages/icl/services/quorum_service.py:770-783 | the leader's submission stays in the document after a move iff the move does not put metadata without it over it |
| RiskDecisions.ErasedSubmissionIsNeverDecided | network/packages/icl/services/quorum_service.py:1299-1305 | once the document has lost the submission and no finalizer or draft has it, nothing is decided unless the leader posts again or somebody calls the commit directly |
| RiskDecisions.UndisturbedFinalizerIsAtomic | network/packages/icl/services/quorum_service.py:1128-1345 | a finalizer that nothing interleaves with equals the one-step finalizer |
| RiskDecisions.UndisturbedPostIsAtomic | network/packages/icl/services/quorum_service.py:988-1048 | the three steps of a verifier's post store its row, complete its entry and start one finalizer, as the one-step post does |
| RiskDecisions.DirectCommitOverrides | network/packages/icl/services/quorum_service.py:1128-1136 | while a finalizer is on its way to commit, a call of the commit with any proposal can be written as well, last; without verdicts it rejects |
| CommitmentConsensus.AgreesWithCountExactly | network/packages/icl/services/commitment_aggregator.py:19-40 | the three-node function decides like the general count at three nodes, except exactly when the leader posted nothing and both verifiers agree |
| CommitmentConsensus.VerifiedIsTwoOfThree | network/packages/icl/services/commitment_aggregator.py:23-35 | a hash is verified iff two of the three nodes posted it |
| CommitmentConsensus.BlameIsDeserved | network/packages/icl/services/commitment_aggregator.py:23-35 | a verified hash was posted by two nodes, the blamed node did not post it, and any node that posted another hash is blamed |
| CommitmentConsensus.ToleratesAThird | network/packages/icl/services/quorum_service.py:1395-1413 | for any number of nodes with a leader that posted, a hash is accepted iff at most a third of all nodes deviate from it in any way |
| Ledger.DeductThenRefund | network/packages/payment/services/credit_service.py:145-180 | refunding what was deducted restores all accounts |
| Ledger.CreditService.CheckBalance | network/packages/payment/services/credit_service.py:129-143 | true iff every currency with a positive charge is covered, an unknown user having none |
| Ledger.CreditService.Deduct | network/packages/payment/services/credit_service.py:222-269 | takes exactly the amount from an account that covers it in both currencies, and changes nothing else; otherwise fails without change |
| Ledger.CreditService.Refund | network/packages/payment/services/credit_service.py:145-180 | adds exactly the amount to an existing account and fails without change otherwise |
| Ledger.CreditService.AddCredits | network/packages/payment/services/credit_service.py:182-220 | adds exactly the amount, opening the account from zero if needed, and changes nothing else |
| JobService.StoredChargeReadsBack | network/packages/payment/services/job_service.py:145-170 | the decimal strings of a new row read back as the full charge, premium included; which charge that is say `JobService.EnrolledExactly` and `Numerals.DecimalIsUsual` |
| JobService.EnrolledExactly | network/packages/payment/services/job_service.py:53-171 | in terms of the request: which replies leave the price taken from the user alone (with the premium iff the job is insured and has a cUSDC price), which leave every account alone, and that a running row whose amounts read back as that price is appended iff the reply is Submitted |
| JobService.SubmittedExactly | network/packages/payment/services/job_service.py:53-242 | the same for a whole submission: a job that could not be forwarded is FAILED and its price is back iff the refund works |
| Numerals.DecimalIsUsual | network/packages/payment/services/job_service.py:145-170 | decimal numbers are printed and read with the ten Arabic digits, the first of two counting ten times |
| JobService.FailedSubmissionIsFreeExactly | network/packages/payment/services/job_service.py:53-242 | a submission that leaves no running job leaves every account as it was iff it did not fail between taking a positive charge and giving it back: an unanswered deduction, a failing insert, or a failing refund |
| JobService.RejectionUndoesCharge | network/packages/payment/services/job_service.py:364-375 | rejecting or timing out a job paid with credits restores all accounts exactly, premium included, iff the refund takes effect or the charge is zero |
| JobService.SuccessSpendsCharge | network/packages/payment/services/job_service.py:289-360 | completing a submitted job offers its BLIND price, or one BLIND without one, leaves the charge spent and stores the result hash, whether or not the transfer goes through |
| JobService.CompleteTouchesOneJob | network/packages/payment/services/job_service.py:266-407 | an uninterrupted callback changes at most the one running job that its identifier names |
| JobService.WrittenRowStopsLater | network/packages/payment/services/job_service.py:272-282 | once a callback has written its row, every callback that begins later for it stops at the status test, whatever either says |
| JobService.CompletionIsIdempotent | network/packages/payment/services/job_service.py:280-282 | a callback that comes after another one for the same job has ended changes nothing and reports the written status |
| JobService.LookupDependsOnIds | network/packages/payment/services/job_service.py:252-264 | looking a job up reads only identifiers, so settling jobs never redirects a callback |
| JobService.DistributeReward | network/packages/payment/services/chain_service.py:358-447 | nothing if the wallet is short; otherwise exactly three fifths of the reward, rounded down, to the leader and one fifth to each of the first two verifiers, a failing transfer not stopping the others; never more than the reward in all, and at most 2 wei short of it if two verifiers and all transfers go through |
| JobService.JobServiceObject.SubmitJob | network/packages/payment/services/job_service.py:29-242 | an uninterrupted submission takes the same price and appends the same row when it succeeds; enrolling, three forwarding attempts, marking and undoing amount to the submission function, with every call able to fail |
| JobService.JobServiceObject.EnrollJob | network/packages/payment/services/job_service.py:53-171 | on Submitted in credits mode the user's cUSDC falls by exactly the price plus the premium if insured and priced in cUSDC, by exactly the price otherwise, BLIND by its price, and nobody else's balance changes; one running row is appended whose amounts read back as these numbers; in escrow mode no account changes; and every other exit is that of the enrolling function |
| JobService.JobServiceObject.MarkJob | network/packages/payment/services/job_service.py:216-227 | marks the row FAILED, whatever it says by now, and changes nothing else |
| JobService.JobServiceObject.UnwindJob | network/packages/payment/services/job_service.py:228-235 | returns the charge of a credits-mode job, whatever the row says by now |
| JobService.JobServiceObject.GetJobByAnyId | network/packages/payment/services/job_service.py:252-264 | finds the first row with that job id, else the first with that identifier as its second id |
| JobService.JobServiceObject.BeginCompletion | network/packages/payment/services/job_service.py:266-286 | changes nothing, and goes on only for a row that it finds running, remembering what it read |
| JobService.JobServiceObject.PayCompletion | network/packages/payment/services/job_service.py:287-375 | pays the reward or the refund from what was read, whatever the row says by now; a refund that fails is swallowed |
| JobService.JobServiceObject.WriteCompletion | network/packages/payment/services/job_service.py:345-396 | writes status and result hash of the row, whatever it says by now, and nothing else |
| JobService.JobServiceObject.CompleteJob | network/packages/payment/services/job_service.py:266-407 | the whole new state and the reply of an uninterrupted callback, on every branch |
| LedgerRuns.CreditsAreAccountedFor | network/packages/payment/services/job_service.py:29-407 | over every run of deposits, submission steps and callback steps, interleaved in any way and with any calls failing: each user's balance in each currency, plus what was taken for their rows less what was given back, plus what submissions took without leaving a row, equals the deposits, and no balance is negative |
| CallbackRuns.SettledOnceExactly | network/packages/payment/services/job_service.py:29-407 | when nothing is under way, every row was paid or refunded at most once iff no callback ever found a row running, and no submission ever gave one up, while a callback was between its read and its write of it, and no submission gave up a row that was already written |
| CallbackRuns.StepSettlesOnceExactly | network/packages/payment/services/job_service.py:216-282 | one step commits the service to at most one settlement per row iff it was so before and the step does none of this |
| LedgerLaw.LawOfBalances | network/packages/payment/services/job_service.py:29-407 | if nothing was settled over something else, once everything is done: balance plus the charges of running and completed credits-mode jobs equals the deposits, plus the escrow charges paid out, less the charges that failed submissions and failed refunds kept |
| LedgerLaw.PlainLawExactly | network/packages/payment/services/job_service.py:167-375 | for such runs the law without those summands holds iff nothing was kept, if no escrow charge was paid out; and iff no escrow charge was paid out, if nothing was kept |
| LedgerLaw.CleanExactly | network/packages/payment/services/job_service.py:29-407 | over every run that has come to rest: each row was settled at most once and holds exactly what its status says, and nothing was taken without a row, iff nothing was settled over something else, no escrow charge was paid out and no positive charge was kept |
| LedgerLimits.OverlappingCallbacksSettleTwice | network/packages/payment/services/job_service.py:272-396 | for every job: two callbacks that both read it running both settle; two refusals return the charge twice, two successes offer the reward twice |
| LedgerLimits.CallbacksCanOverlap | network/packages/payment/services/job_service.py:272-282 | nothing keeps a second callback from reading a row as running while a first is under way with it |
| LedgerLimits.GivingUpOverridesSettlement | network/packages/payment/services/job_service.py:216-235 | for every charged job: a submission that gives up after a callback has written the row makes it FAILED and returns the charge, whatever was paid |
| LedgerLimits.EscrowReturnGuard | network/packages/payment/services/job_service.py:287-375 | a charge is paid out to an escrow job iff the callback is no success, the price positive, the refund works and the user has an account |
| LedgerLimits.FailedRefundGuard | network/packages/payment/services/job_service.py:364-375 | a refund keeps a charge iff it fails for a charged job with a positive price |
| LedgerLimits.EscrowRejectionPaysUnearnedCredits | network/packages/payment/services/job_service.py:167-287 | for every running escrow job with a positive price whose user has an account: rejecting it pays the price out |
| Settlement.SettlementIsJustified | network/packages/icl/services/quorum_service.py:2095-2159 | in every run with any resubmissions, any lost, delayed or duplicated posts and any overlap of callbacks: a job that its submission does not give up is COMPLETED only after an acceptance of its result hash, REFUNDED only after a rejection, FAILED only after a timeout was written; rewards follow only an acceptance, returned charges only a rejection or timeout; an answered notifier that names the job finds it final; and credits stay accounted for |
| Settlement.SettlementMatchesVotes | network/packages/payment/services/job_service.py:266-407 | if no node changes its hash, a completed job's request was never rejected and two thirds of the nodes hold its hash; a refunded job's was never accepted, no hash has two thirds, and it was never rewarded, however callbacks overlap |
| Settlement.AnnouncedIsReported | network/packages/icl/services/quorum_service.py:1432-1476 | what the uninterrupted finalizer announces is, notice by notice, the callback status and hash that the racing finalizer's outcome reports |
| Settlement.TimeoutIsReported | network/packages/icl/services/quorum_service.py:1937-1958 | the one notice of a poll that fails a request carries the timeout callback |
| Settlement.PostsAreBounded | network/packages/icl/services/quorum_service.py:2136-2158 | no notifier posts more than three times |
| Settlement.SettlementMatchesConsensus | network/packages/icl/services/quorum_service.py:1432-1476 | as long as no decision is written onto a failed request, no timeout onto a decided one and no confirmation or creation onto either, a settled job and everything ever paid or returned for it always agree with what its request shows, and one answered notifier that names the job is enough to settle it |
| Settlement.AnyNoticeSettles | network/packages/payment/services/job_service.py:266-407 | a running job can always be settled by any notifier that has not been answered, whatever its request shows by now |
| Settlement.SettledOnceExactly | network/packages/icl/services/quorum_service.py:2136-2158 | once no callback is under way with the job, it was settled exactly once if final and not at all if running iff no callback for it began while another was between its read and its write |
| Documents.PlanIsAssignment | network/packages/icl/db/database.py:241-263 | rewriting whole top-level fields gives the same document as assigning each path in order, for any mixture of dotted, undotted and overlapping keys |
| Documents.WrittenPath | network/packages/icl/db/database.py:246-254 | a written path reads back its value unless a later key overlaps it |
| Documents.UnwrittenPath | network/packages/icl/db/database.py:246-254 | a path incomparable with all written paths keeps its value, also where a scalar is replaced by an object |
| Documents.SplitByDots | network/packages/icl/db/database.py:242-247 | a key has one piece iff it has no dot, and then is that piece |
| Documents.SplitIsExact | network/packages/icl/db/database.py:242-247 | joining the pieces of a key with dots, in order, gives the key, and no piece contains a dot |
| Documents.SplitOfJoined | network/packages/icl/db/database.py:242-247 | and these are the only such pieces |
| Documents.DottedKeyWritesNested | network/packages/icl/db/database.py:246-254 | for undotted a, b and c, assigning to a.b.c puts the value into field c of the object in field b of the object in field a, and keeps everything beside that way |
| DocumentStore.TableUpdateNests | network/packages/icl/db/database.py:214-285 | so does an update of the table on the first matching row, for any such key |
| Documents.InterleavingLosesSharedFields | network/packages/icl/db/database.py:241-263 | when two such updates read before either writes, fields that both touch show only the second, all others what running them in turn would give |
| DocumentStore.IncrementExactly | network/packages/icl/db/database.py:68-73 | an increment adds to a number, counts a missing field as 0 and truth values as 0 and 1, and fails on anything else |
| DocumentStore.OperatorsInOrder | network/packages/icl/db/database.py:65-79 | a field is set, then incremented, and then no longer absent for a default; an empty update changes nothing |
| DocumentStore.InMemoryUpdateExactly | network/packages/icl/db/database.py:62-96 | the first matching document alone is replaced and the reply is one match; without one nothing happens, or with upsert one document is appended with its own or the given id, which is the reply; a failing increment changes nothing |
| DocumentStore.TableUpdateExactly | network/packages/icl/db/database.py:214-285 | without a matching row nothing happens unless upsert is asked; an empty update changes nothing; an inserted row has an id, which is the reply; a failing increment changes nothing |
| DocumentStore.MatchCountIsExact | network/packages/icl/db/database.py:265-273 | the reply of a table update is the number of matching rows |
| DocumentStore.OtherRowsStay | network/packages/icl/db/database.py:265-273 | rows that do not match keep their value and place |
| BackendAgreement.BackendsAgreeExactly | network/packages/icl/db/database.py:62-285 | for $set and $inc on disjoint undotted keys and at most one matching row, both backends leave the same table iff not (empty upsert of an existing row, or an inserted row whose incremented column is queried with a value other than zero) |
| BackendAgreement.DefaultsAgreeExactly | network/packages/icl/db/database.py:74-78 | for a $setOnInsert alone, both backends leave the same table iff no row matches or the matching row already has the field |
| BackendAgreement.UpsertKeepsKeyUnique | network/packages/icl/db/database.py:62-96 | on both backends an upsert whose query is repeated in $set keeps the queried columns a unique key |
| BackendAgreement.FlattenedIsIncAll | network/packages/icl/db/database.py:222-232 | resolving increments against the row that was read and then assigning equals incrementing in place, failures included |
| Collections.InMemoryCollection.FindOne | network/packages/icl/db/database.py:56-60 | the first matching document, or none |
| Collections.InMemoryCollection.InsertOne | network/packages/icl/db/database.py:50-54 | appends the document, giving it an id only if it has none |
| Collections.InMemoryCollection.UpdateOne | network/packages/icl/db/database.py:62-96 | only the first match changes, or with upsert one row is appended; a failing increment changes nothing |
| Collections.ApplyOperators | network/packages/icl/db/database.py:65-79 | the three operator loops apply $set, then $inc, then absent defaults |
| Collections.RewriteFields | network/packages/icl/db/database.py:241-261 | the loops over dotted keys return fields whose overlay is the in-order nested assignment; where that writes say `Documents.SplitIsExact` and `Documents.DottedKeyWritesNested` |
| Collections.SupabaseCollection.FindOne | network/packages/icl/db/database.py:204-212 | the first matching row, or none |
| Collections.SupabaseCollection.UpdateOne | network/packages/icl/db/database.py:214-285 | the whole new table and reply on every branch, including the dotted read-modify-write and the fallback insert |
| RateLimit.RateLimiter.Guard | network/packages/icl/middleware/rate_limit.py:14-30 | 127.0.0.1, ::1 and localhost pass; any other request, without a client filed under local, is admitted iff fewer than 120 of its host and path were admitted in the last 60 s of the full history, and its bucket then holds exactly those |
| RateLimit.EveryWindowIsBounded | network/packages/icl/middleware/rate_limit.py:23-29 | every window of 60 s, wherever it starts, holds at most 120 admitted requests |
| RateLimit.InWindowCounts | network/packages/icl/middleware/rate_limit.py:10-11 | what is counted is how many admitted times lie in a window of 60 s |
| RateLimit.RefusalIsNecessary | network/packages/icl/middleware/rate_limit.py:26-27 | a request is refused iff admitting it would overfill the window that ends with it |
| RateLimit.Prune | network/packages/icl/middleware/rate_limit.py:23-24 | popping old times from the front leaves exactly the times of the last 60 s |
| RateLimit.BucketKeyIsInjective | network/packages/icl/middleware/rate_limit.py:19-19 | two requests share a bucket only if host and path are the same |
| NodePool.GetActiveNodes | network/packages/icl/services/chain_service.py:146-250 | lists, each once, exactly the known nodes that pass the screening, and fails iff an active node has an empty tier list |
| NodePool.SelfRegisteredExactly | network/packages/icl/services/chain_service.py:74-144 | a node without operator data passes iff tier 0 suffices, no retention guarantee is asked, its heartbeat is recent and it has fewer than 3 failures |
| NodePool.OperatorExactly | network/packages/icl/services/chain_service.py:146-250 | a node with operator data passes iff it is active, has a high enough tier, retention if asked, a recent heartbeat or an unexpired attestation, fewer than 3 failures, and a mock or valid attestation |
| NodePool.HeartbeatIsExact | network/packages/icl/services/chain_service.py:74-144 | a heartbeat that no operator has stored is the runtime's last update, else its registration, else now |
| NodePool.SnapshotIsExact | network/packages/icl/services/chain_service.py:256-320 | a snapshot's reputation is a hundred times the accepted tasks on a mock chain, at least a hundred, else a hundred times the score; accepted and rejected are the stored counts, zero by default; an empty model list is no list |
| NodePool.SelectFromPool | network/packages/icl/services/node_selector.py:20-70 | for a given shuffle the selection is the one that every iteration order of the address set gives |
| NodeSelector.SelectionIsSound | network/packages/icl/services/node_selector.py:20-70 | for every shuffle: errors iff too few nodes; otherwise leader and verifiers are distinct, as many as asked for, from a top slice of at most twice the quorum in which nobody has less reputation than anybody outside, and candidates are the nodes that list the model or no models, in rank order |
| NodeSelector.RankingIsOrdered | network/packages/icl/services/node_selector.py:40-47 | the ranking key is a total order in which only equal addresses tie |
| NodeSelector.RankedByMerit | network/packages/icl/services/node_selector.py:40-47 | of two ranked nodes the earlier has no smaller reputation, on a tie no fewer accepted tasks, then no more rejected ones, then the earlier address |
| NodeSelector.TextIsLexicographic | network/packages/icl/services/node_selector.py:46-46 | addresses are compared character by character, a proper beginning first |
| NodeSelector.RankSorts | network/packages/icl/services/node_selector.py:40-47 | sorting by the key gives a ranked rearrangement |
| NodeSelector.RankedIsUnique | network/packages/icl/services/node_selector.py:40-47 | there is only one ranked arrangement of the same snapshots |
| NodeSelector.ListingOrderIsIrrelevant | network/packages/icl/services/chain_service.py:146-160 | permuting the listed nodes changes nothing about the selection |
| NodeSelector.EveryTopNodeCanLead | network/packages/icl/services/node_selector.py:51-57 | every node of the top slice is the leader for some shuffle |
| NodeSelector.Shuffle | network/packages/icl/services/node_selector.py:54-55 | the in-place shuffle performs exactly the drawn exchanges |
| NodeSelector.ShufflePermutes | network/packages/icl/services/node_selector.py:54-55 | every shuffle is a rearrangement |
| NodeSelector.SelectQuorum | network/packages/icl/services/node_selector.py:20-70 | filter, sort, slice, shuffle and pick together are the selection function; nobody who supports the model and is outside the first candidates has more reputation than a chosen node |
| KeyCodec.SplitsAgree | network/packages/agent-sdk/src/encryption.ts:56-63 | splitting through hex text and through big-endian bytes gives the same halves or the same error |
| KeyCodec.HighHalfComesFirst | network/packages/shared-py/blindference_utils/aes.py:61-67 | the key as a big-endian number is the high half times two to the power 128 plus the low half |
| KeyCodec.CombinesAgreeExactly | network/packages/shared-py/blindference_utils/aes.py:70-71 | both languages combine to the same 32 bytes iff both halves are below two to the power 128; otherwise Python raises |
| KeyCodec.KeyRoundTrip | network/packages/shared-py/blindference_utils/aes.py:61-71 | splitting and combining restores every 32-byte key, in and across both languages |
| KeyCodec.HalvesRoundTrip | network/packages/agent-sdk/src/encryption.ts:68-74 | combining and splitting restores the halves iff both are in range |
| KeyCodec.HalfBytesReads | network/packages/agent-sdk/src/encryption.ts:70-72 | the hex print, pad and parse path writes the big-endian bytes of a half in range |
| KeyCodec.WriteHex | network/packages/agent-sdk/src/encryption.ts:71-72 | the hex write replaces exactly the given stretch of the buffer |
| KeyCodec.CombineKeyHalves | network/packages/agent-sdk/src/encryption.ts:68-74 | two hex writes into a fresh 32-byte buffer give the combined key |
| KeyCodec.TextLayoutRoundTrip | network/packages/agent-sdk/src/encryption.ts:36-51 | the first 12 bytes are the IV, the next 16 the tag; unpacking undoes packing iff the IV has 12 and the tag 16 bytes, and packing undoes unpacking |
| KeyCodec.BytesLayoutRoundTrip | network/packages/shared-py/blindference_utils/aes.py:27-49 | the first 16 bytes are the IV, the next 16 the tag; packing succeeds iff both lengths are 16, and both round trips hold |
| OutputCommitment.SplitOfJoin | network/packages/shared-py/blindference_utils/commitment.py:6-14 | splitting a joined list of whitespace-free words returns the list |
| OutputCommitment.StripIsRedundant | network/packages/shared-py/blindference_utils/commitment.py:14-14 | stripping first changes nothing about the words |
| OutputCommitment.NormalFormIsExact | network/packages/shared-py/blindference_utils/commitment.py:6-14 | a normal form keeps the words; its only whitespace is single spaces between two other characters |
| OutputCommitment.SpacesAreExactly | network/packages/shared-py/blindference_utils/commitment.py:6-14 | text is split at exactly the characters that Python's string splitting takes for whitespace |
| OutputCommitment.NormalizeIsIdempotent | network/packages/shared-py/blindference_utils/commitment.py:6-14 | normalising twice is normalising once |
| OutputCommitment.NormalFormsAreWords | network/packages/shared-py/blindference_utils/commitment.py:6-14 | two outputs normalise equally iff they have the same word sequence |
| OutputCommitment.PreimageIsInjective | network/packages/shared-py/blindference_utils/commitment.py:21-22 | the preimage is the content id followed by the digest, and with a fixed-length digest it determines both |
| OutputCommitment.CommitmentsAgreeExactly | network/packages/shared-py/blindference_utils/commitment.py:17-22 | as far as the hash does not collide on the values at hand, two commitments are equal iff content ids and word sequences are |

## Left out

- React pages, wallet code, the CLI, HTTP routing, logging, notifier back-off times: plumbing; a network call succeeds, fails or is delayed as a parameter or a step.
- AES-GCM, SHA-256, keccak and CoFHE: uninterpreted; only layouts and key halves are modelled.
- Solidity contracts and chain transactions: their answers are parameters, and whether a transfer goes through is one.
- Disputes and the credit-refund route: they allow further transitions and refunds with mock resolution.
- The risk commit endpoint on text requests, and override quorums that repeat a verifier: each request keeps one mode and distinct members.
- RiskRaces.RacingCommitsAgree: a commit whose chain call fails stays under way for ever, as does any call that breaks off.
- RiskDecisions.QuietRiskDecisionExactly: asks for no direct commit and no stale metadata over the submission; without that, `RiskDecisions.DecisionWrittenExactly` gives the condition in terms of the status tests.
- RiskRequests.RiskQuorumService.SubmitVerifierVerdict: the uninterrupted post; `RiskRaces` splits storing the row, reading the entries and marking the entry.
- RaceOutcomes.OrderlyRunsAreHarmless: the discipline is sufficient; the exact condition is that of `RaceOutcomes.OneOutcomePerRequest`.
- FinalizerRace.RacingFinalizersAgree: asks that no node changes its hash; `RaceLimits.ChangedHashBreaksAgreement` shows why, the converse direction over runs is not stated, as a changed hash need not change the count.
- QuorumService.VerdictWords: only Latin letters are upper-cased; ligatures and letters of other scripts whose capital is one of these are left out.
- QuorumService.TextQuorumService.CreateTextRequest: the uninterrupted creation; permit handling, request-id lookup, text summaries and output links are not part of the document.
- QuorumService.TextQuorumService.ConfirmPromptKeyStore: the uninterrupted confirmation; the key fields it stores are left out.
- QuorumService.TextQuorumService.MarkNodeAssignmentFailed: its report to the staking contract is left out.
- QuorumService.TextQuorumService.GetPendingAssignments: an uninterrupted poll of the whole table, interleaved polls of one request being runs of `NodeCalls`; heartbeat recording is left out.
- RiskRequests.RiskQuorumService.CommitRequest: on-chain records, the result registry, reasons and texts are left out; the digest of a score is a parameter.
- JobService.JobServiceObject.EnrollJob: one step up to the insertion of the row, as no callback can name it before; quoted prices are natural numbers, and the pricing is floating point and left out.
- Settlement.SettlementIsJustified: asks that the submission of the job does not give it up; `LedgerLimits.GivingUpOverridesSettlement` shows what happens otherwise.
- JobService.JobServiceObject.CompleteJob: the uninterrupted callback; interleaved ones are runs of its three steps in `LedgerRuns`. A callback or submission that breaks off is one that stays under way, and for runs that end so only the laws without the condition that nothing is under way say something.
- JobService.DistributeReward: shares are exact floors of three fifths and one fifth, which abstracts the products of floating-point numbers.
- Ledger.CreditService.Deduct: the stored procedure is not part of this model; it is given the contract its caller assumes (atomic, never below zero).
- Deposit log scanning: a deposit is one trusted step with a non-negative amount.
- Collections.InMemoryCollection.UpdateOne: queries compare plain values; the query operators, and the equality of truth values with numbers, are left out.
- Collections.SupabaseCollection.UpdateOne: the table's update statement is a loop over matching rows; a row is never without an id; nested dictionaries are values, so two keys sharing one mutable value are not captured; its several requests are one step, apart from the interleaving lemma of `Documents`.
- RateLimit.RateLimiter.Guard: the clock is assumed not to run backwards.
- NodePool.GetActiveNodes: one time for the whole listing; time zones and date parsing are left out.
- VerdictAggregator.Aggregate: `round` is applied to the exact quotient, which abstracts floating-point division; reasons and output texts are left out.
- KeyCodec.CombineKeyHalves: halves are natural numbers, negative integers are left out.
- OutputCommitment.CommitmentsAgreeExactly: UTF-8 encoding is an uninterpreted function that separates the texts at hand.
