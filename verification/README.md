# Verified models of the kits

This project models the parts of the kits whose correctness depends on order, concurrency or interruption,
and proves what they promise. It covers five areas:

1. **SMS dispatch** (`SmsStatus`, `SmsStore`, `SmsTransactions`, `SmsProtocol`, `SmsSafety`, `SmsServices`,
   `SmsMarkers`, `SmsSettlement`, `SmsReconciliation`, `SmsTheorems`, `SmsBudget`, `SmsDelivery`, `SmsLeases`, `SmsWitnesses`). Queue workers, crash recovery, direct sends, reconciliation and receipt callbacks act
   concurrently on the same message, attempt, job and budget rows. `SmsServices` holds the services statement by
   statement; `SmsTransactions` computes what each transaction does, and `SmsMarkers`, `SmsSettlement` and
   `SmsReconciliation` say it in terms of rows, clock and policy alone; `SmsProtocol` is the transition system whose
   steps are single transactions, single provider calls and crashes; `SmsSafety` and `SmsTheorems` prove the
   invariant of every step and the properties of all runs; `SmsBudget`, `SmsDelivery` and `SmsLeases`
   do so for the budget, retries, receipts and leases; `SmsWitnesses` holds two short runs. On top of it, `OtpChallenge`,
   `OtpPromises` and `OtpService` decide
   one outcome among callers racing for one verification code.
2. **Area import** (`RowOrder`, `CodeOrder`, `ExternalSort`, `SourceAudit`, `AuditReport`, `SourceVerdict`,
   `AreaStore`, `AreaImport`, `AreaInherit`). A bounded-memory sort feeds a grouping audit; a batched import may be cut off
   between any two messages of its connection and replayed; only a dataset whose own rows digest to the source's
   becomes ready. A digest is represented by the lines it is taken over, that is, hashing is taken as injective.
3. **Rate limiting** (`RateWindow`, `RateLimiter`, `SendReservation`). The Redis scripts, against a log of all grants that is
   never trimmed and never expires.
4. **The SKU document** (`SkuCore`, `SkuAmount`, `SkuDocument`, `SkuHistory`, `SkuCatalogue`, `SkuService`,
   `SkuStructure`, `SkuEffects`, `SkuSaveOutcome`, `SkuFailedCommands`, `SkuSelector`, `SkuSelection`, `SkuDeadEnds`,
   `SkuSharedIds`). Commands on a product
   document, including commands that fail half way and are stored that way, over whole runs; which commands succeed
   and what a failed one leaves; and the consumer's selector, with exactly the documents on which it has dead ends.
5. **Paging and region trees** (`KeysetPaging`, `SnapshotLoader`, `RegionForest`).

`Basics` holds what they share. Code that works by changing state is a class or a method with loops, proved equal
to a specification function; the properties are then proved about that function. What the main operations promise is
besides stated once more without those functions, in literal terms of their inputs (the predicates named `…AsPromised`,
`Shows`, `EmitsSource` and `Published`), so that an error in a specification function would show.

## What turned out not to hold

The code is kept as it is. Each item has its exact condition, and an input or a run on which the promise fails.

- The interval between two grants of the limiter is kept on every run exactly when the interval is no longer than
  the window (`RateWindow.IntervalKeptIffItFits`), and only then is `retryAt` exact
  (`RateWindow.RetryAtIsExact`, `RateWindow.RetryAtNeedsTheIntervalToFit`). auth-kit itself never asks for a longer
  one: `reserveSend` uses one minute in an hour (`server/state.ts:100`) and its other call none (`server/auth.ts:93`).
- A reservation that is never finished blocks the phone for six minutes and then takes the whole hour's history
  with it. `SendReservation.UnfinishedAgreesIff` says at exactly which moments the answer still agrees with the
  hourly rule. Over runs, the next send is a sixth in its hour exactly when that hour already had five
  (`SendReservation.UnfinishedExceedsIff`); `SendReservation.UnfinishedBreaksTheHour` is such a run.
- Recovery before or after a late completion gives a message the same fate except for a retryable rejection of a
  job with attempts left, and then always a different one (`SmsTheorems.RecoveryCommutes`);
  `SmsWitnesses.RecoveryDecides` is a run that gets there.
- The late answer to a queued dispatch is always stored. That of a direct send is stored exactly while the message is
  pending, or unknown and the answer is not once more unknown (`SmsTheorems.LateResultIsRecorded`);
  `SmsWitnesses.LateUnknownRollsBack` is a run after which it is not.
- A save that fails is not undone. It changes an existing document exactly when its checks pass and, before the first
  combination that cannot be had, it asks for one that no stored SKU has (`SkuSaveOutcome.FailedSaveChangesIff`); what
  is lost is one sequence for each of those (`SkuSaveOutcome.FailedSaveStops`,
  `SkuHistory.FailedSaveOnlyBurnsSequences`). `SkuFailedCommands.FailedSaveBurnsASequence` is such a save.
- A patch command that fails is not undone either. Unless it is a replay or expects another structure version, it
  changes the document exactly when its first patch goes through, or sets another retail price before its supply
  price is refused (`SkuSaveOutcome.FailedPatchChangesIff`). `SkuFailedCommands.FailedPatchChangesAPrice` is such a
  patch, and the price it leaves has the old version.
- The consumer selector never has a dead end exactly when every value of an active SKU counts for the dimension the
  SKU has it in (`SkuDeadEnds.NoDeadEndsIff`). Where a value id is in two dimensions the later live one counts, and
  a save may bring that about: `SkuSharedIds.SharedIdIsADeadEnd` is two commands and one choice away from a dead end.
- Collecting a snapshot province by province misses nodes exactly when a level is skipped, and then, with true
  counts, the answer is a count mismatch (`SnapshotLoader.LoadSnapshot`); `SnapshotLoader.LoadSkippedLevel` is a
  table of two rows on which it is.
- The product of the value counts is judged by its partial products: rightly exactly when no dimension is empty or
  those in front of the first empty one are within the maximum (`SkuCore.JudgedRightIff`), wrongly for 101 values
  and an empty dimension (`SkuCore.EmptyDimensionMisjudged`). `SkuService.ValidateStructure` refuses empty
  dimensions first.

## Model

| member | source | states |
|---|---|---|
| `SmsStatus.StatusMoveTransitive` | packages/sms-kit/src/core/status.ts:10-36 | Whatever acceptance and delivery can reach in two legal moves they can reach in one, so `accepted`, `rejected` and every final delivery are absorbing across any number of changes. |
| `SmsServices.SendWorker.Lease` | packages/sms-kit/src/postgres/repositories/job-repository.ts:48-61 | Only a pending, due job is handed out, under its next lease generation and until now plus the lease; the worker gets its attempt counts, every other row is untouched, and an expired lease is not taken over. |
| `SmsServices.SendWorker.Prepare` | packages/sms-kit/src/application/send-worker.ts:67-103 | Usable work gets its one started attempt iff the message is pending under this current lease, the lease outlasts the provider call, no attempt is started, the circuit is closed, and the message holds a reservation already or fewer than the daily budget are held on the day of the marker; then the lease is renewed and the first reservation charged to that day. Unusable work whose attempts were all rejected is rejected and its reservation given back. Anything else is an error, named by its cause, that leaves the database as it was. |
| `SmsServices.SendWorker.Clear` | packages/sms-kit/src/application/send-worker.ts:108-113 | The lease is renewed iff it is still current, and stays renewed; the call succeeds iff it then outlasts the provider call. |
| `SmsServices.SendWorker.Complete` | packages/sms-kit/src/application/send-worker.ts:154-212 | Whatever the provider answered and however late: a decided message keeps its decision; an acceptance stores the reference and opens delivery; an unknown outcome of a pending message makes it unknown; a retryable rejection with attempts left under its own lease puts the job off by min(60 s, 1 s doubled each time); any other rejection ends message, attempt and job and gives the reservation back. |
| `SmsServices.SendWorker.CompleteAccepted` | packages/sms-kit/src/application/send-worker.ts:169-177 | A late acceptance wins over pending and unknown, opens delivery and reconciliation, and finishes the job only under its own lease. |
| `SmsServices.SendWorker.CompleteUnknown` | packages/sms-kit/src/application/send-worker.ts:179-189 | A late timeout changes nothing once recovery has recorded the same token; otherwise it makes acceptance unknown and starts reconciliation. |
| `SmsServices.SendWorker.FinalizeRejected` | packages/sms-kit/src/application/send-worker.ts:194-201 | A final rejection ends message and attempt, releases the budget, and fails the job only under its own lease. |
| `SmsServices.SendWorker.CompleteRejected` | packages/sms-kit/src/application/send-worker.ts:191-205 | A rejection ends the message and releases its budget, unless it is retryable, not exhausted, still pending and still leased, in which case only the attempt is rejected and the job put off. |
| `SmsServices.SendWorker.Dispatch` | packages/sms-kit/src/application/send-worker.ts:107-121 | From a committed marker to the completion: exactly the steps clear, send and complete of the protocol, or the shorter run of a dispatch that is given up. |
| `SmsServices.SendWorker.RunJob` | packages/sms-kit/src/application/send-worker.ts:65-122 | One leased job is exactly its marker step followed by its dispatch; the provider is called between transactions, never inside one. |
| `SmsServices.SendWorker.RunBatch` | packages/sms-kit/src/application/send-worker.ts:45-63 | A batch is one job after the other, each leased just before its dispatch, until the limit, the first failure, or nothing due; the count it returns is the number of jobs run. |
| `SmsServices.JobIsRun` | packages/sms-kit/src/application/send-worker.ts:65-122 | One job is a run of the protocol that makes at most one provider request. |
| `SmsServices.BatchIsRun` | packages/sms-kit/src/application/send-worker.ts:45-63 | A worker batch is a run of the protocol, so every property of all runs holds of it, with at most one provider request for each job it may take. |
| `SmsServices.SendService.Prepare` | packages/sms-kit/src/application/send-service.ts:369-387 | A new direct message is marked iff its template is usable, the circuit closed, the phone within its limits and fewer than the daily budget are held that day; an existing message of the key is returned without a token; every refusal names its cause and leaves no message behind. |
| `SmsServices.SendService.Complete` | packages/sms-kit/src/application/send-service.ts:430-439 | The direct result settles message, attempt, reference, reconciliation and budget together while the message waits for it, and rolls back as a whole otherwise. |
| `SmsServices.DispatchRecoveryService.RunBatch` | packages/sms-kit/src/application/dispatch-recovery-service.ts:11-73 | Of whatever the locking reads return: every marked message becomes unknown with its first started attempt, its job done and its delivery asked for; every expired job without a started attempt goes back to pending; nothing else changes; or, if one marked message already left pending, nothing at all. The result counts both. |
| `SmsServices.DispatchRecoveryService.ReturnExpired` | packages/sms-kit/src/application/dispatch-recovery-service.ts:19-25 | Exactly the expired jobs of messages without a started attempt go back to pending, and they are counted. |
| `SmsServices.DispatchRecoveryService.MarkAbandoned` | packages/sms-kit/src/application/dispatch-recovery-service.ts:36-70 | All named markers become acceptance-unknown with their jobs finished, or, if one message already left pending, none does. |
| `SmsServices.RecoveryOutcome` | packages/sms-kit/src/application/dispatch-recovery-service.ts:15-72 | Handing back unmarked jobs first and marking attempts second gives the same database as deciding each row on its own. |
| `SmsServices.MarksAreDistinct` | packages/sms-kit/src/application/dispatch-recovery-service.ts:30-35 | Direct and queued attempts of one batch never name the same message, since a started attempt is one or the other. |
| `SmsServices.ReconcileService.FindReport` | packages/sms-kit/src/application/reconcile-service.ts:117-136 | The result is the first final report naming this message on the first page that has one, every page before it being conclusive of nothing and followed by another; without such a report it is none. |
| `SmsServices.ReconcileService.Reconcile` | packages/sms-kit/src/application/reconcile-service.ts:67-181 | A message with nothing left to ask for ends its job. When thirty Shanghai midnights have passed since the day of its last marker its delivery is unknown for good. A first report of delivered or failed is stored as just that, with the message accepted and the job done, under a current lease only. In every other case the job is put off five minutes. An error leaves the database as it was. |
| `SmsMarkers.MarkerAsPromised` | packages/sms-kit/src/application/send-worker.ts:67-103 | For every database, lease, clock, policy and day of the marker: the marker transaction does exactly what its row for `SendWorker.Prepare` says, with the errors in the order of the source. |
| `SmsMarkers.DirectMarkerAsPromised` | packages/sms-kit/src/application/send-service.ts:369-387 | The same for direct sends. |
| `SmsSettlement.CompleteKeepsPromise` | packages/sms-kit/src/application/send-worker.ts:154-212 | For every database, token, result and time the queued completion leaves exactly the named row changes, or rolls back only where an attempt would move backward. |
| `SmsSettlement.DirectCompleteKeepsPromise` | packages/sms-kit/src/application/send-service.ts:430-439 | The same for the completion of a direct send. |
| `SmsSettlement.RecoverKeepsPromise` | packages/sms-kit/src/application/dispatch-recovery-service.ts:11-73 | The same for a recovery batch, row by row. |
| `SmsSettlement.BackoffIsDelay` | packages/sms-kit/src/application/send-worker.ts:33-36 | The delay of a retry is 1, 2, 4, 8, 16, 32 and then 60 seconds. |
| `SmsReconciliation.OutcomeAsPromised` | packages/sms-kit/src/application/reconcile-service.ts:67-181 | For every message, lease, list of answer pages and time the outcome by plan is the stated one: which case applies, by the instants of marker and clock, and what is stored. |
| `SmsReconciliation.ThirtyDays` | packages/sms-kit/src/application/reconcile-service.ts:86-97 | Thirty calendar days lie between two instants iff the later one is at least thirty days after the Shanghai midnight (16:00 UTC) that begins the day of the earlier. |
| `SmsSafety.EnqueueSound` | packages/sms-kit/src/postgres/repositories/message-repository.ts:72-111 | Creating a message with its send job, or finding it there, keeps every row and the budget books sound. |
| `SmsSafety.LeaseStepSound` | packages/sms-kit/src/postgres/repositories/job-repository.ts:48-61 | Handing out a lease keeps every row sound, and the worker's copy of the job agrees with the row it leased. |
| `SmsSafety.PrepareSound` | packages/sms-kit/src/application/send-worker.ts:67-103 | The marker transaction keeps every row, the budget books and everything other processes rely on. |
| `SmsSafety.PrepareOnlyAfterRejection` | packages/sms-kit/src/application/send-worker.ts:92-102 | A new queued attempt is the next number of its message, and every earlier attempt of it was definitively rejected. |
| `SmsSafety.DirectPrepareSound` | packages/sms-kit/src/application/send-service.ts:369-387 | A direct marker is the first and only attempt of a message that was not there before, and it keeps everything sound. |
| `SmsSafety.ClearStepSound` | packages/sms-kit/src/postgres/repositories/job-repository.ts:84-88 | Renewing a lease keeps everything sound. |
| `SmsSafety.QueuedCompleteSound` | packages/sms-kit/src/application/send-worker.ts:154-212 | The completion of a live queued dispatch never rolls back and keeps everything sound, whatever happened to the message meanwhile. |
| `SmsSafety.DirectCompleteSound` | packages/sms-kit/src/application/send-service.ts:430-439 | A committed direct completion keeps everything sound. |
| `SmsSafety.RecoverSound` | packages/sms-kit/src/application/dispatch-recovery-service.ts:11-73 | A recovery batch never rolls back in a sound database, and leaves it sound: a started marker is always on a pending message. |
| `SmsSafety.ReconcileStepSound` | packages/sms-kit/src/application/reconcile-service.ts:67-181 | Leasing, retiring, putting off, recording, finalizing and callbacks keep everything sound and touch nothing but delivery, a query promotion and the reconcile job. |
| `SmsSafety.HoldKeepsBudget` | packages/sms-kit/src/postgres/repositories/policy-repository.ts:51-71 | Charging a message that has no reservation keeps each day's counter equal to the number of reservations held on it. |
| `SmsSafety.ReleaseKeepsBudget` | packages/sms-kit/src/postgres/repositories/policy-repository.ts:73-80 | Releasing, once or again, keeps each day's counter equal to the number of reservations held on it. |
| `SmsTheorems.StepKeepsInv` | packages/sms-kit/src/ports/store.ts:427-610 | Every atomic step of every actor, from any state satisfying the invariant, leads to such a state and changes no row in a way another process could not cope with. |
| `SmsTheorems.ReachableInv` | packages/sms-kit/src/ports/store.ts:427-610 | The invariant holds in every reachable state, under every interleaving of workers, recovery, direct sends, reconcilers, callbacks and crashes. |
| `SmsTheorems.AtMostOneLiveAttempt` | packages/sms-kit/src/application/send-worker.ts:92-102 | In every reachable state all attempts of a message but the newest are rejected. |
| `SmsTheorems.NoUncertainResend` | packages/sms-kit/src/application/dispatch-recovery-service.ts:7-8 | When the provider is asked about a message again, every earlier request for it was under a smaller attempt number and that attempt is definitively rejected: an uncertain dispatch is never sent again. |
| `SmsTheorems.RequestsBounded` | packages/sms-kit/src/application/send-worker.ts:191-205 | Over any run no dispatch token is sent twice, and a queued message costs at most its job's maximum number of attempts in provider requests. |
| `SmsTheorems.DirectSentOnce` | packages/sms-kit/src/application/send-service.ts:381-388 | Over any run a direct message is requested from the provider at most once. |
| `SmsTheorems.BudgetConserved` | packages/sms-kit/src/application/send-worker.ts:85-102 | In every reachable state a reservation is held for a message iff it has an attempt and is not rejected, and each day's counter is exactly the number of reservations held on it. |
| `SmsBudget.BudgetIsKept` | packages/sms-kit/src/postgres/repositories/policy-repository.ts:51-71 | Over every run of every actor whose markers are placed under a daily budget of at most n, no day ever holds more than n reservations. |
| `SmsBudget.OpenCircuitStops` | packages/sms-kit/src/postgres/repositories/policy-repository.ts:58 | With the circuit open a marker of usable work, queued or direct, changes nothing at all. |
| `SmsBudget.PrepareStepAsPromised` | packages/sms-kit/src/application/send-worker.ts:67-103 | As a step of the protocol: a message that may be marked is marked and its process goes in flight; otherwise nothing happens, or unusable work is rejected. |
| `SmsBudget.DirectStepAsPromised` | packages/sms-kit/src/application/send-service.ts:369-387 | The same for direct sends. |
| `SmsTheorems.NeverStranded` | packages/sms-kit/src/application/dispatch-recovery-service.ts:19-70 | In every reachable state a queued pending message has an open send job, a direct pending one has a marker recovery can find, and an accepted or unknown message still waiting for delivery has an open reconcile job. |
| `SmsTheorems.QueriesAreNeverBlocked` | packages/sms-kit/src/application/reconcile-service.ts:76-92 | In every reachable state a waiting message agrees with its last attempt, so its query is put off before asking only while the clock is behind the dispatch marker. |
| `SmsTheorems.StatusesOnlyAdvance` | packages/sms-kit/src/core/status.ts:10-36 | Between any two states of one run, acceptance and delivery differ by at most one legal move, no attempt disappears, and a rejected attempt stays rejected. |
| `SmsTheorems.StaleLeaseChangesNoJob` | packages/sms-kit/src/application/send-worker.ts:163-205 | In any database, reachable or not, a worker whose lease token is no longer the current one gets past no fence and changes no send job. |
| `SmsTheorems.LateResultIsRecorded` | packages/sms-kit/src/application/send-service.ts:430-439 | In every reachable state the completion of a queued dispatch in flight commits (`send-worker.ts:154-212`), so no answer to it is lost to a rollback. That of a direct send commits iff its message is still pending, or is unknown and the answer is an acceptance or a rejection. |
| `SmsWitnesses.LateUnknownRollsBack` | packages/sms-kit/src/application/send-service.ts:430-439 | After a run of a direct marker, its request and its recovery, a late unknown outcome is an illegal transition and its transaction rolls back. |
| `SmsTheorems.SettleOutcome` | packages/sms-kit/src/application/send-worker.ts:169-211 | What each provider answer does to the acceptance and the reservation of the message it belongs to, pending or already recovered. |
| `SmsTheorems.RecoveryCommutes` | packages/sms-kit/src/application/dispatch-recovery-service.ts:36-70 | Recovery before or after the late completion of the same token leaves the same acceptance and reservation if and only if the result is not a retryable rejection of a queued job with attempts left. |
| `SmsWitnesses.RecoveryDecides` | packages/sms-kit/src/application/dispatch-recovery-service.ts:36-70 | A run of five steps after which a retryable rejection ends the message and releases its budget if recovery comes first, and leaves it pending with its budget held if the completion does. |
| `SmsTheorems.NothingLeftToRecover` | packages/sms-kit/src/application/dispatch-recovery-service.ts:19-35 | After a completion no recovery batch can name its message, so the other order of the two is the completion alone. |
| `SmsLeases.OnlyAbandonedAreRecovered` | packages/sms-kit/src/postgres/repositories/job-repository.ts:179-189 | Recovery changes a message only if the lease of its send job ran out before the horizon, or its direct marker is older than it: work in hand is left alone. |
| `SmsLeases.TakenOverAfterItsEnd` | packages/sms-kit/src/postgres/repositories/job-repository.ts:63-82 | In one step of anybody, a leased reconciliation job passes to another worker only by a leasing call made after the lease ran out, and then under the next generation. |
| `SmsLeases.NeverTakenOver` | packages/sms-kit/src/postgres/repositories/job-repository.ts:48-61 | No step hands a leased send job to another worker; the lease moves only when its holder renews it, which works only while it is in force. |
| `SmsDelivery.RetryWaits` | packages/sms-kit/src/application/send-worker.ts:203-208 | Over every run: after a retryable rejection the message is not touched and not sent, whatever anybody does, until its job is asked for after its delay, and then the job is handed out. |
| `SmsDelivery.CallbackDelivers` | packages/sms-kit/src/application/receipt-service.ts:107-140 | A callback stores the reported status on the message that has this reference and is not final yet, and changes nothing else. |
| `SmsDelivery.CallbackFindsMessage` | packages/sms-kit/src/postgres/repositories/message-repository.ts:156-178 | Over every run: an acceptance stores the provider's reference for good, so that any later callback under it finds the waiting message, and none under another reference does. |
| `OtpService.ChallengeService.IssueTransaction` | packages/sms-kit/src/application/challenge-service.ts:105-142 | Under the key's lock: an existing challenge is returned unchanged; a refused request is kept as a rejected challenge with its reason and supersedes nothing; otherwise every unconsumed challenge of the same subject and action without an end becomes superseded, all others stay, and a pending one is created with the attempts and the expiry asked for. |
| `OtpService.ChallengeService.Begin` | packages/sms-kit/src/application/challenge-service.ts:143-146 | The issue step of the protocol, with the answer a caller gets who finds the challenge decided. |
| `OtpService.ChallengeService.WaitForDirectOutcome` | packages/sms-kit/src/application/challenge-service.ts:182-201 | A replay reads after each turn of the others and, when its time is up, settles a still pending row as acceptance-unknown; it returns the row as stored, and always a decided one. |
| `OtpService.ChallengeService.Recheck` | packages/sms-kit/src/application/challenge-service.ts:192-200 | Under the row's lock only a row that is still pending is turned unknown. |
| `OtpService.ChallengeService.Deliver` | packages/sms-kit/src/application/challenge-service.ts:153-174 | The creator's steps are exactly: send once, mark an accepted send, and give up in every other case, whatever the others do between its transactions; its answer is the last one on record. |
| `OtpService.ChallengeService.SendOnce` | packages/sms-kit/src/application/challenge-service.ts:153-157 | The creator makes its one send and then either marks or gives up, by the outcome. |
| `OtpService.ChallengeService.MarkDelivery` | packages/sms-kit/src/application/challenge-service.ts:158-165 | An accepted send is announced only if the row, as marked, is accepted and not terminal; otherwise the creator fails with the row's own code. |
| `OtpService.ChallengeService.Abandon` | packages/sms-kit/src/application/challenge-service.ts:166-173 | Giving up returns the code that is stored, which is the creator's own only if nobody decided earlier. |
| `OtpService.ChallengeService.Issue` | packages/sms-kit/src/application/challenge-service.ts:94-175 | A whole call, interleaved with any schedule of other callers, is a run of the protocol with exactly the caller's own steps in their order, and its answer is recorded on the challenge. |
| `OtpService.ChallengeService.Verify` | packages/sms-kit/src/application/challenge-service.ts:203-231 | Verified iff the challenge is known, not yet verified, delivered, not expired, with an attempt left, and the code right; wrong under the same conditions with a wrong code, which costs exactly one attempt; each other verdict iff its own condition, and then nothing changes. |
| `OtpChallenge.StepKeepsInv` | packages/sms-kit/src/application/challenge-service.ts:94-231 | Every step of every caller keeps the answers of each challenge consistent, its counters exact and one active challenge per subject and action. |
| `OtpChallenge.CallersAgree` | packages/sms-kit/src/application/challenge-service.ts:143-174 | However callers of one idempotency key race, all are told the same until a newer issue supersedes the challenge, and from then on all are told that. |
| `OtpChallenge.OneSendPerKey` | packages/sms-kit/src/application/challenge-service.ts:177-181 | At most one provider send per idempotency key, over any run. |
| `OtpChallenge.OneActiveChallenge` | packages/sms-kit/src/postgres/repositories/challenge-repository.ts:61-75 | In every reachable state at most one challenge per subject and action is neither terminal nor consumed. |
| `OtpChallenge.GuessesAreBounded` | packages/sms-kit/src/application/challenge-service.ts:208-225 | Over any run at most `maxAttempts` wrong codes are evaluated for a challenge, and it verifies at most once. |
| `OtpPromises.VerifiedOnlyByRightCode` | packages/sms-kit/src/application/challenge-service.ts:203-231 | Over every run: a challenge is verified only by a right code, evaluated before its expiry while it was delivered and had an attempt left, and at that instant. |
| `OtpPromises.OnlyWrongCodesCost` | packages/sms-kit/src/application/challenge-service.ts:208-219 | In every state a step costs an attempt iff it evaluates a wrong code of that challenge that could be tried, and no step changes expiry or allowance. |
| `OtpPromises.ActKeepsPromise` | packages/sms-kit/src/application/challenge-service.ts:148-201 | What sending, marking, giving up, polling, timing out and consuming do to a challenge, in terms of its row and its caller. |
| `OtpChallenge.OutcomesAreFinal` | packages/sms-kit/src/postgres/repositories/challenge-repository.ts:94-110 | Between any two states of a run a terminal challenge keeps its code and status, an accepted one can only be superseded, and recorded answers and evaluations are never taken back. |
| `OtpChallenge.IssuedCanBeVerified` | packages/sms-kit/src/application/challenge-service.ts:203-225 | Once any caller was told the code was issued, the right code verifies, unless the challenge was superseded, expired, exhausted or already verified. |
| `RowOrder.RowsOrdered` | packages/area-kit/src/source/external-sort.ts:12-17 | The comparison of records is a total order: antisymmetric, transitive, and equal only on equal records. |
| `RowOrder.ComesBeforeIff` | packages/area-kit/src/source/external-sort.ts:12-17 | Strings are compared by the first place where they differ, a string before those it begins. |
| `RowOrder.SmallerCodeFirst` | packages/area-kit/src/source/external-sort.ts:12-17 | A record with a smaller code comes first, whatever else it holds. |
| `ExternalSort.Smallest` | packages/area-kit/src/source/external-sort.ts:29-33 | The chosen head is least among the readers that still have one, and none is chosen iff all are done. |
| `ExternalSort.Merge` | packages/area-kit/src/source/external-sort.ts:24-38 | The merge of sorted files is sorted and has every record of every file, with multiplicity. |
| `ExternalSort.Runs` | packages/area-kit/src/source/external-sort.ts:52-53 | The runs written to disk are each sorted and together hold exactly the input. |
| `ExternalSort.MergePass` | packages/area-kit/src/source/external-sort.ts:54-66 | A pass keeps the files sorted and the content the same, and there are strictly fewer of them, so the passes end. |
| `ExternalSort.ExternalSort` | packages/area-kit/src/source/external-sort.ts:40-69 | For any number of rows, through runs, passes and the final merge, the output is the sorted arrangement of the input. |
| `ExternalSort.SortedUnique` | packages/area-kit/src/source/external-sort.ts:12-17 | A bag of records has exactly one sorted arrangement. |
| `ExternalSort.SortIgnoresOrder` | packages/area-kit/src/source/external-sort.ts:40-69 | Two files with the same records in any order sort to the same sequence. |
| `SourceAudit.AuditLevel` | packages/area-kit/src/source/audit.ts:57-108 | The fold over sorted rows emits, in ascending code order, exactly the rows that are the only version of their code, well formed (2, 4, 6, 9 or 12 digits, a name, well-formed ancestors) and below an emitted row, each with its own name, ancestors, parent and level and as a group iff the evidence table names it; the level is clean iff every row is emitted; and the counters are those of the rows. |
| `SourceAudit.AuditEmitsSource` | packages/area-kit/src/source/audit.ts:57-108 | That is what any audited level holds, told from its source rows alone. |
| `SourceAudit.CleanIff` | packages/area-kit/src/source/audit.ts:57-108 | A level has no conflict, invalid row, missing parent or ancestor mismatch iff each of its rows is the only version of its code, well formed, and below an emitted row. |
| `SourceAudit.NextRow` | packages/area-kit/src/source/audit.ts:79-107 | One more row keeps the meaning of all loop variables: groups before the open one are reported, the open one is summed up. |
| `SourceAudit.Take` | packages/area-kit/src/source/audit.ts:84-106 | The row's own contribution to the counters and to its group. |
| `SourceAudit.FinishGroup` | packages/area-kit/src/source/audit.ts:64-72 | Closing a group reports a conflict, one canonical row, or nothing, so that the report is right for all rows so far. |
| `SourceAudit.FinishCloses` | packages/area-kit/src/source/audit.ts:64-72 | What each way of closing a group does to the accepted rows and the conflicting codes of the level. |
| `SourceAudit.NewGroupStarts` | packages/area-kit/src/source/audit.ts:81-85 | In sorted input a new code never returns: it is new to all rows before it. |
| `AuditReport.AuditSource` | packages/area-kit/src/source/audit.ts:37-121 | Each of the five levels is audited against the canonical rows of the level above, a broken file counts one invalid and offers no rows, and the report passes iff every level is clean. |
| `AuditReport.CleanLevelKeepsEveryRow` | packages/area-kit/src/source/audit.ts:57-108 | In a clean level every source row appears as its canonical row, and input is valid plus duplicate. |
| `AuditReport.PassingReport` | packages/area-kit/src/source/audit.ts:122-125 | In a passing report every file was readable, every record of it has its canonical row, and for each level input = valid + duplicate. |
| `SourceVerdict.ReadableIff` | packages/area-kit/src/source/audit.ts:57-96 | What is taken of the files beforehand is only that there are five and that each has as many ancestor columns as there are levels above it. |
| `SourceVerdict.PassedIff` | packages/area-kit/src/source/audit.ts:57-124 | The audit passes iff every file can be read and each record is the only version of its code, well formed, and below a record one level up whose ancestors and code are its ancestors. |
| `AuditReport.OrderIsNotObservable` | packages/area-kit/src/source/audit.ts:37-128 | Rows, counters and digests of all levels are the same however the files list their records. |
| `AuditReport.EmittedRowsFormAForest` | packages/area-kit/src/source/audit.ts:94-106 | Passing or not, the emitted rows form a forest: ascending codes of their level's length, each with its parent emitted one level up. |
| `AuditReport.AncestorsAreRootPaths` | packages/area-kit/src/source/audit.ts:94-104 | The stored ancestor codes are the path found by following parent codes to the root. |
| `AuditReport.CodesAreGlobal` | packages/area-kit/src/source/audit.ts:96-97 | No code names two emitted rows, on one level or on different ones. |
| `CodeOrder.InOrder` | packages/area-kit/src/postgres/import-backend.ts:172-176 | Reading by code order lists every stored code once, ascending. |
| `CodeOrder.ScanNext` | packages/area-kit/src/postgres/import-backend.ts:171-183 | A keyset page continues the scan with nothing missed or repeated, and a short page ends it. |
| `AreaStore.ImportSession.EnsureDataset` | packages/area-kit/src/postgres/import-backend.ts:48-66 | A new dataset is created importing, a failed one is resumed, one of another identity is refused unchanged; if the connection breaks, the change was made or it was not. |
| `AreaStore.ImportSession.AppendBatch` | packages/area-kit/src/postgres/import-backend.ts:67-113 | A batch is stored as a whole, only into an importing dataset, only if every row fits the stored ancestors and agrees with a stored row of its code; otherwise nothing changes. An earlier database audit is forgotten. |
| `AreaStore.ImportSession.CheckRows` | packages/area-kit/src/postgres/import-backend.ts:83-99 | The check passes iff codes are distinct and each row fits, and then the result holds the old rows and the new ones. |
| `AreaStore.ImportSession.CheckRow` | packages/area-kit/src/postgres/import-backend.ts:84-97 | A row fits iff its level and parent are its own, its ancestors are a stored root path, and a stored row of its code is identical. |
| `AreaStore.ImportSession.CheckAncestors` | packages/area-kit/src/postgres/import-backend.ts:88-93 | Each ancestor is stored on its level under the one before it. |
| `AreaStore.ImportSession.AuditDataset` | packages/area-kit/src/postgres/import-backend.ts:163-190 | The database audit is that of all five stored levels, whatever the page boundaries. |
| `AreaStore.ImportSession.AuditLevels` | packages/area-kit/src/postgres/import-backend.ts:169-185 | The five levels together: passed iff every stored row hangs right, with the lines of each level in code order. |
| `AreaStore.ImportSession.ScanCodes` | packages/area-kit/src/postgres/import-backend.ts:171-183 | Page by page the scan digests every stored row of the level once, in order, and checks each one's parent. |
| `AreaStore.ImportSession.MarkFailed` | packages/area-kit/src/postgres/import-backend.ts:191-197 | Only a dataset that is not ready can be marked failed, and nothing but its status changes. |
| `AreaStore.ImportSession.MarkReady` | packages/area-kit/src/postgres/import-backend.ts:198-208 | A dataset becomes ready only from importing and only if its own rows hang right and digest to the report's source digests; a refusal changes nothing. |
| `AreaStore.InsertedAt` | packages/area-kit/src/postgres/import-backend.ts:100-109 | After a batch exactly the old and the new codes are stored, new rows as given, other rows as they were. |
| `AreaStore.LinesMatchRegions` | packages/area-kit/src/postgres/import-backend.ts:172-180 | A level's digest lines are exactly the stored rows of that level. |
| `AreaStore.SummaryCovers` | packages/area-kit/src/postgres/import-backend.ts:165-189 | The dataset audit passes iff every level does, and holds each level's lines. |
| `AreaImport.BatchAccepted` | packages/area-kit/src/import/runner.ts:62-78 | While a verified source loads in level order, every batch of it is accepted, first time or replay, with any legal batch size. |
| `AreaImport.BatchLoads` | packages/area-kit/src/postgres/import-backend.ts:67-113 | An accepted batch extends the loaded prefix of its level and leaves the rows an ancestor-closed part of the canonical rows. |
| `AreaImport.DigestGateIsExact` | packages/area-kit/src/import/runner.ts:97-102 | For a partial import, the database audit passes with the source digests if and only if exactly the canonical rows are stored. |
| `AreaImport.AppendRows` | packages/area-kit/src/import/runner.ts:63-78 | Full batches and a short one load the whole level, count its rows and digest them; a broken connection leaves a sound prefix. |
| `AreaImport.AppendLevel` | packages/area-kit/src/import/runner.ts:62-81 | The level is loaded and its own gate never refuses a verified source. |
| `AreaImport.LoadLevels` | packages/area-kit/src/import/runner.ts:61-82 | When the level loop ends without error exactly the canonical rows are stored; however it ends, nothing stored earlier is lost. |
| `AreaImport.AuditAndPublish` | packages/area-kit/src/import/runner.ts:96-102 | A complete dataset is published, or the connection broke; no other refusal is possible, and no row changes. |
| `AreaImport.ImportVerified` | packages/area-kit/src/import/runner.ts:58-110 | One attempt, cut off anywhere or not: rows only grow, stay an ancestor-closed part of the canonical rows, a ready dataset is untouched, and success means ready. |
| `AreaImport.EnsuredIsSound` | packages/area-kit/src/postgres/import-backend.ts:48-66 | Creating or resuming a dataset leaves it sound and ready to load from its first level. |
| `AreaImport.AnyNumberOfAttempts` | packages/area-kit/src/import/runner.ts:58-110 | Over any number of attempts, each cut off anywhere, the rows are always an ancestor-closed part of the canonical rows, they never shrink, and once ready the dataset is complete and never changes again. |
| `AreaImport.AuditIsVerified` | packages/area-kit/src/import/runner.ts:21-38 | What the audit emits satisfies everything the import relies on, so the two halves fit. |
| `AreaImport.ImportAuditedSource` | packages/area-kit/src/import/runner.ts:40-120 | From the files to a ready dataset: a claimed audit is accepted iff a fresh audit of the same files says the same and passes; on success every record of every file is stored under its code with its own name, level, last ancestor as parent, and kind, and nothing else is stored. |
| `AreaImport.CompleteIsPublished` | packages/area-kit/src/import/runner.ts:19-60 | A dataset that is complete after a passing audit holds exactly the records of the files, each as it is. |
| `AreaInherit.ImportTarget.InheritSettings` | packages/area-kit/src/postgres/import-backend.ts:114-162 | One atomic transaction, refused unchanged in the stated cases, that leaves all source columns alone; a touched region of the source gives its settings to the same region of the target iff name, level, kind and parent agree for it and for everything above it; the others keep theirs, and the result counts the touched regions that did not carry over. |
| `AreaInherit.ImportTarget.CarryOver` | packages/area-kit/src/postgres/import-backend.ts:131-154 | Page by page every touched code of the source version is considered once. |
| `AreaInherit.ImportTarget.CarryPage` | packages/area-kit/src/postgres/import-backend.ts:142-151 | One page applies the settings that carry over and counts the rest. |
| `AreaInherit.CarriedExactly` | packages/area-kit/src/import/inherit.ts:3-10 | Exactly the touched regions whose whole root path means the same in both versions take over their settings, every other region keeps its own, and each touched region carries over or is counted as a conflict. |
| `AreaInherit.SameMeaningIff` | packages/area-kit/src/import/inherit.ts:3-10 | Two root paths are the same iff the region and, step by step, everything above it have the same columns. |
| `AreaInherit.CarriedAsPromised` | packages/area-kit/src/postgres/import-backend.ts:131-154 | A region of the target takes over the settings of the touched source region of its code iff the two agree at every step of their root paths; every other region keeps its own, and the conflicts are the touched codes that do not carry over. |
| `AreaInherit.AppliedCounts` | packages/area-kit/src/postgres/import-backend.ts:142-147 | Carried and conflicting codes together are all the codes considered. |
| `RateLimiter.LimitKeepsPromise` | packages/auth-kit/src/server/state.ts:11-31 | The window script refuses while a marker is open and names its end; otherwise it allows iff fewer than the limit of grants are younger than the window and the last is an interval old, and answers the later of the two times at which that changes. |
| `RateLimiter.FinishKeepsPromise` | packages/auth-kit/src/server/state.ts:104-123 | Completing a send moves the newest grant to now, drops the marker and answers one minute later, or the end of the hour of the oldest of five. |
| `RateLimiter.RedisKey.Limit` | packages/auth-kit/src/server/state.ts:11-31 | While a pending marker is open the call is refused and told its end. Otherwise it is allowed iff fewer than `limit` grants are left in the window and the last is an interval ago; a refusal is told the later of the two openings, a grant is added, renews the expiry or sets the six-minute marker, and is told when the next one opens. |
| `RateLimiter.RedisKey.FinishSend` | packages/auth-kit/src/server/state.ts:104-123 | The newest member moves to the completion time, the marker is dropped and the key lives another hour; the answer is a minute later, or an hour after the fifth newest if that is later. |
| `RateWindow.LiveIsLive` | packages/auth-kit/src/server/state.ts:15-17 | What a call sees after expiry and trimming is exactly the part of the whole history that lies in the window, even if the key had expired. |
| `RateWindow.ScriptFollowsLog` | packages/auth-kit/src/server/state.ts:11-31 | The script allows a call iff the untrimmed log of all grants admits it, and the key keeps standing for that log. |
| `RateWindow.RunFollowsLog` | packages/auth-kit/src/server/state.ts:66-93 | After any run with non-decreasing times the key stands for the full log: trimming and expiry lose nothing. |
| `RateWindow.RunIsSpaced` | packages/auth-kit/src/server/state.ts:16-24 | On every such run any two grants are the interval (or the window, if that is shorter) apart, and a full window apart when `limit` grants lie between. |
| `RateWindow.AtMostLimitPerWindow` | packages/auth-kit/src/server/state.ts:11-31 | On every such run at most `limit` calls are allowed in any interval (t - window, t]. |
| `RateWindow.IntervalKeptIffItFits` | packages/auth-kit/src/server/state.ts:18-20 | The interval between grants is kept on every run if and only if it is not longer than the window. |
| `RateWindow.AnswerIsExact` | packages/auth-kit/src/server/state.ts:24-31 | The returned time is exactly when the log left behind admits the next call, after a grant and after a denial. |
| `RateWindow.RetryAtIsExact` | packages/auth-kit/src/server/state.ts:66-93 | On every run, and while no other call is allowed in between, a later call is allowed if and only if its time has reached the returned `retryAt`. |
| `RateWindow.RetryAtNeedsTheIntervalToFit` | packages/auth-kit/src/server/state.ts:24-31 | With an interval longer than the window a call before the returned `retryAt` is allowed, for every such rule. |
| `SendReservation.TimelyRun` | packages/auth-kit/src/server/state.ts:95-123 | When every reservation is finished before its marker lapses, the key stands for the log of completions, and a send waits a minute after the previous completion and an hour after the fifth before it. |
| `SendReservation.FivePerHour` | packages/auth-kit/src/server/state.ts:95-101 | On every such run at most five sends are granted, and at most five completed, in any hour. |
| `SendReservation.FinishAnswerIsExact` | packages/auth-kit/src/server/state.ts:103-123 | After a completion the next reservation is granted exactly from the returned time on, never less than a minute later. |
| `SendReservation.UnfinishedReservation` | packages/auth-kit/src/server/state.ts:30 | A reservation that is not finished blocks every send until its marker lapses; at that instant the hourly rule decides; after it every send is granted. |
| `SendReservation.UnfinishedAgreesIff` | packages/auth-kit/src/server/state.ts:30 | The moments at which the answer to an unfinished reservation agrees with the hourly rule, exactly. |
| `SendReservation.UnfinishedExceedsIff` | packages/auth-kit/src/server/state.ts:30 | In every run with an open reservation, the send granted after its marker lapsed brings its hour over five grants iff that hour already had five. |
| `SendReservation.UnfinishedBreaksTheHour` | packages/auth-kit/src/server/state.ts:30 | There is a run with six grants in one hour. |
| `SkuCore.SkuCodeNamesItsOrigin` | packages/sku-kit/src/core.ts:55-62 | Two SKU codes are equal iff product code and sequence are, also across products whose codes are prefixes of one another. |
| `SkuCore.KeyIsTheSelection` | packages/sku-kit/src/core.ts:18-23 | Two combinations have the same key iff they choose the same values, in whatever order they list them. |
| `SkuCore.CalculatePotentialCombinations` | packages/sku-kit/src/core.ts:25-35 | For every maximum: accepts iff no partial product is over it; the count is the whole product, or the first partial product over the maximum. With no empty dimension it accepts iff the whole product is within the maximum. |
| `SkuCore.JudgedRightIff` | packages/sku-kit/src/core.ts:25-35 | The early stop gives the answer of the whole product iff no dimension is empty or the dimensions in front of the first empty one have no more combinations than the maximum. |
| `SkuCore.EmptyDimensionMisjudged` | packages/sku-kit/src/core.ts:25-35 | 101 values and an empty dimension have no combination at all and are refused with a maximum of 100. |
| `SkuAmount.NormalizationKeepsTheValue` | packages/sku-kit/src/core.ts:37-46 | Normalizing an amount keeps its worth to the cent and is idempotent. |
| `SkuAmount.CanonicalFormIsTheValue` | packages/sku-kit/src/core.ts:37-46 | Two amounts have the same canonical form iff they are worth the same. |
| `SkuService.CheckNames` | packages/sku-kit/src/server/service.ts:47-58 | Names pass iff none is empty and none repeats. |
| `SkuService.ValidateStructure` | packages/sku-kit/src/server/service.ts:45-65 | The structure passes iff it meets every stated limit, names are unique, and combinations are given exactly when there are dimensions; what passes has at most 5 dimensions of 1 to 100 values, at most 100 potential and at most 100 given combinations. |
| `SkuService.ResolvePairs` | packages/sku-kit/src/server/service.ts:67-84 | A combination resolves iff every pair refers to something and there is one value of every dimension, none twice; archived dimensions count. |
| `SkuService.BuildDimensions` | packages/sku-kit/src/server/service.ts:194-210 | First the dimensions asked for, live and in order under their own or a new id, each with the values asked for live and in order and its other former values archived; then every former dimension not asked for, archived with all its values. A draft key stands for the last thing named by it. |
| `SkuStructure.NewDimensionsAsPromised` | packages/sku-kit/src/server/service.ts:194-210 | For every document, command and set of new ids the dimensions of a save are these. |
| `SkuStructure.MappingsAsPromised` | packages/sku-kit/src/server/service.ts:194-206 | For every command a draft key is mapped iff something is named by it, and to the id of the last such dimension or value. |
| `SkuService.AllocateNext` | packages/sku-kit/src/server/service.ts:214-236 | In terms of keys and sequences: a combination without a key, or whose key was already asked for, or that needs a code when none is left, or whose archived SKU is not to be restored, stops the loop with everything else as it was; a stored key keeps its SKU, sequence, code and configuration (disabled when restored) and uses no sequence; a new key takes exactly the next sequence with its code and an empty inventory. |
| `SkuService.AllocateAll` | packages/sku-kit/src/server/service.ts:211-237 | The loop stops at the first problem with everything before it in place. |
| `SkuService.ArchiveRest` | packages/sku-kit/src/server/service.ts:238-240 | Active SKUs that are not kept are archived after the kept ones; those archived earlier and not restored are dropped. |
| `SkuService.SkuService.SaveConfiguration` | packages/sku-kit/src/server/service.ts:148-248 | The stored catalogue and the answer are those of one step of the catalogue's transition function, failed saves included. |
| `SkuService.SkuService.PatchSkuConfigurations` | packages/sku-kit/src/server/service.ts:250-302 | The same for patches, including what a patch changed before a bad price or version. |
| `SkuService.SkuService.CopySkuConfiguration` | packages/sku-kit/src/server/service.ts:304-335 | The same for copying configuration. |
| `SkuService.SkuService.SetLocalInventory` | packages/sku-kit/src/server/service.ts:415-442 | One step of the catalogue: the quantity asked for is stored under the next version and answered iff the SKU is live, has an inventory and the expected version; a replay gets its recorded answer; nothing else changes. |
| `SkuService.SkuService.SaveTransaction` | packages/sku-kit/src/server/service.ts:164-247 | Every failed check and every replay returns the document unchanged. Otherwise the save succeeds iff every combination can be had, and then the live SKUs are exactly the requested combinations in order, the rest are archived, one sequence is used per new combination and one receipt is added; if it fails, nothing but sequences and their inventories moves, and those iff a new combination came before the failing one. |
| `SkuService.SkuService.PatchTransaction` | packages/sku-kit/src/server/service.ts:264-301 | Patches apply one by one; the first problem ends the loop with the earlier ones, and the half-applied one, stored. On success exactly the named SKUs changed, each field by its own change, each version by one, and the answer lists them in order. |
| `SkuEffects.PatchKeepsPromise` | packages/sku-kit/src/server/service.ts:282-296 | For every SKU and patch: retail, supply, image and status each become what their own change says, a price in the form with two decimals and of the same worth, under the next version; a refused retail price changes nothing, a refused supply price leaves the retail price behind. |
| `SkuEffects.PatchTxKeepsPromise` | packages/sku-kit/src/server/service.ts:264-301 | For every sound document: a patch command that succeeds changes exactly the SKUs it names, each as its one patch says and from the version that patch expects. |
| `SkuEffects.CopyTxKeepsPromise` | packages/sku-kit/src/server/service.ts:314-334 | For every sound document: a copy that succeeds gives every target, under its next version, the source's value of each field named that it lacked or was to be overwritten, and changes nothing else. |
| `SkuEffects.StockKeepsPromise` | packages/sku-kit/src/server/service.ts:427-441 | For every document: what a stock command stores and answers, and why it is refused. |
| `SkuHistory.SaveKeeps` | packages/sku-kit/src/server/service.ts:164-247 | A save, successful or not, keeps keys and sequences distinct, sequences below `nextSequence` and that at most 100, codes correct, one inventory per issued sequence, receipts distinct; and every SKU descends from an earlier one or was newly issued. |
| `SkuHistory.FailedSaveOnlyBurnsSequences` | packages/sku-kit/src/server/service.ts:214-236 | A failed save leaves everything but `nextSequence` and the new sequences' empty inventories as it was. |
| `SkuSaveOutcome.SaveSucceedsIff` | packages/sku-kit/src/server/service.ts:166-236 | A save that is not a replay succeeds iff its checks pass and no combination is unknown, repeated, archived without being restored, or new with no code left for it. |
| `SkuSaveOutcome.SavedAsRequested` | packages/sku-kit/src/server/service.ts:211-247 | After a successful save the live SKUs are exactly the requested combinations, in order; then come, archived and retired under their next version, the SKUs that were live and are not requested; `nextSequence` grew by the number of combinations no stored SKU had. |
| `SkuSaveOutcome.AnswerAsPromised` | packages/sku-kit/src/server/service.ts:238-246 | The answer names the new version, each live SKU with its sequence, code, key and status, and the ids of the draft keys. |
| `SkuSaveOutcome.CodeIs` | packages/sku-kit/src/core.ts:55-62 | A SKU code is the product code and the two digits of its sequence. |
| `SkuSaveOutcome.FailedSaveChangesIff` | packages/sku-kit/src/server/service.ts:214-236 | For every document, command and environment: a failed save changes the document iff its checks pass and some combination before the first one that cannot be had names a key that no stored SKU has. |
| `SkuSaveOutcome.FailedSaveStops` | packages/sku-kit/src/server/service.ts:214-236 | A save that fails after its checks stops at the first combination that cannot be had, and `nextSequence` grew by the number of new combinations before it. |
| `SkuSaveOutcome.FailedPatchChangesIff` | packages/sku-kit/src/server/service.ts:264-301 | A failed patch command changes the document iff it is no replay, the structure version fits, and its first patch goes through or stores another retail price before its supply price is refused. |
| `SkuFailedCommands.FailedSaveBurnsASequence` | packages/sku-kit/src/server/service.ts:214-236 | On a product stored by an ordinary save, a save that lists one new combination twice fails with a combination conflict and leaves `nextSequence` one higher, with an inventory for a SKU that does not exist. |
| `SkuFailedCommands.FailedPatchChangesAPrice` | packages/sku-kit/src/server/service.ts:281-298 | On the same product a patch with a valid retail and an invalid supply price fails and stores the retail price under the old version. |
| `SkuHistory.PatchKeeps` | packages/sku-kit/src/server/service.ts:264-301 | A patch, finished or stopped half way, keeps the same invariant; versions never go back. |
| `SkuHistory.CopyKeeps` | packages/sku-kit/src/server/service.ts:314-334 | Copying keeps the same invariant. |
| `SkuHistory.StockKeeps` | packages/sku-kit/src/server/service.ts:427-441 | Setting stock keeps the same invariant. |
| `SkuCatalogue.RunKeeps` | packages/sku-kit/src/testing/index.ts:12-28 | Over any run of commands on any products the invariant holds of every document, product codes stay unique, no product disappears, and each document evolves: receipts are kept and no version decreases. |
| `SkuCatalogue.CodesAreUnique` | packages/sku-kit/src/core.ts:55-62 | In every reachable catalogue no two SKUs of a scope share a code. |
| `SkuCatalogue.NoCodeIsIssuedTwice` | packages/sku-kit/src/server/service.ts:230-236 | Over any run, a SKU whose code was issued before is a later form of a SKU that was there before: codes of failed or dropped SKUs never return. |
| `SkuCatalogue.SequencesGrow` | packages/sku-kit/src/server/service.ts:230-236 | Over any run `nextSequence` never decreases and is at most 100, and keys and sequences of a document stay distinct and below it. |
| `SkuCatalogue.CommandsTakeEffectOnce` | packages/sku-kit/src/server/service.ts:167-175 | After a success, and any run of other commands, the same command changes nothing and gets the recorded result, and a different command under its id is refused. |
| `SkuCatalogue.PatchesNeverShareAVersion` | packages/sku-kit/src/server/service.ts:264-298 | Two successful patches of one SKU, with any run in between, expect different versions, the later one the higher. |
| `SkuSelection.GetConsumerSelection` | packages/sku-kit/src/server/service.ts:368-393 | A selection is accepted iff every value is a live one and no two count for one dimension. The result lists the live dimensions in order, each with its live values in order; a value is selected iff chosen, selectable iff some shown SKU with all chosen values and this one can be bought, out of stock iff none can and one is sold out, impossible iff no shown SKU has them; and the SKU is named iff exactly one buyable SKU has exactly the chosen values. |
| `SkuSelector.OptionStatesLookAhead` | packages/sku-kit/src/server/service.ts:385-390 | The state of an option says what taking it would leave: selectable iff a buyable SKU still matches, out of stock iff none is buyable but a sold-out one matches, impossible iff no visible SKU matches. |
| `SkuSelection.ShownStatesLookAhead` | packages/sku-kit/src/server/service.ts:385-390 | An option shown and not yet chosen tells what choosing it would leave: selectable iff a buyable SKU, out of stock iff none but a sold-out one, impossible iff no shown SKU at all. |
| `SkuSelector.OneMatch` | packages/sku-kit/src/server/service.ts:380-381 | At most one SKU matches a full selection, because combination keys are unique. |
| `SkuSelector.FullSelectionResolves` | packages/sku-kit/src/server/service.ts:391-393 | A full selection that a buyable SKU matches shows that SKU. |
| `SkuSelector.NoDeadEnds` | packages/sku-kit/src/server/service.ts:385-391 | On a document whose active SKUs use live values that count for their own dimension, a customer who only takes selectable options of dimensions not yet chosen from always finds another in every such dimension, and ends with a shown SKU. |
| `SkuSelection.NoDeadEndsAreShown` | packages/sku-kit/src/server/service.ts:385-393 | Whoever only takes what each view shows as selectable, for dimensions not chosen from, is shown a selectable option of every such dimension, and once there is none the SKU. |
| `SkuSelector.UniqueValuesAreOwned` | packages/sku-kit/src/server/service.ts:368-384 | Where no two live values share an id, every value an active SKU uses counts for its own dimension. |
| `SkuDeadEnds.NoDeadEndsIff` | packages/sku-kit/src/server/service.ts:368-391 | For every sound document whose active SKUs use live values: whatever is shown and sold and whatever is chosen, a promising path never ends in a dead end iff every value of every active SKU counts for the dimension the SKU has it in. |
| `SkuSharedIds.SharedIdIsStored` | packages/sku-kit/src/server/service.ts:179-204 | A save of two new dimensions whose values bring explicit ids along, and a patch that enables the SKU, store a product whose dimensions share a value id. |
| `SkuSharedIds.SharedIdIsADeadEnd` | packages/sku-kit/src/server/service.ts:368-393 | In the product of that run there is a selectable first choice after which nothing can be chosen and no SKU is shown. |
| `KeysetPaging.OrderNodesOrdered` | packages/area-kit/src/postgres/read-view.ts:144-145 | The listing ascends strictly by sort, and by code among equal sorts, when codes are distinct. |
| `KeysetPaging.AfterCommutes` | packages/area-kit/src/postgres/read-view.ts:129 | Filtering by the cursor before ordering gives what dropping the listing up to the cursor gives. |
| `KeysetPaging.GetPage` | packages/area-kit/src/server/query.ts:86-96 | A request is served iff its limit is 1 to 200 and its cursor, if any, is of the same query. With distinct codes the page holds matching rows beyond the cursor, strictly by sort and then code, at most the limit; every such row not on it comes after all of it; there are more iff such a row exists, and then the page is full and its cursor names its last row. |
| `KeysetPaging.PageContinues` | packages/area-kit/src/server/query.ts:86-96 | From any position of the ordered list, a page of any legal size is exactly the next slice of it. |
| `KeysetPaging.Collect` | packages/addr-parse-kit/examples/area-kit-provider.ts:99-114 | Following cursors with any page size from 1 to 200 ends, and yields the whole matching list in order with nothing missing or repeated. |
| `SnapshotLoader.BelowIff` | packages/area-kit/src/postgres/read-view.ts:132-142 | A node is in the subtree of an ancestor exactly when a way through the table leads down to it by parent codes, one level at a time. |
| `SnapshotLoader.Add` | packages/addr-parse-kit/examples/area-kit-provider.ts:120-136 | Rows whose code was seen are skipped; the rest join in order; no code appears twice. |
| `SnapshotLoader.CollectLevel` | packages/addr-parse-kit/examples/area-kit-provider.ts:140-143 | After all provinces exactly the rows of the level below some province, by consecutive levels, were added. |
| `SnapshotLoader.CheckCounts` | packages/addr-parse-kit/examples/area-kit-provider.ts:155-167 | The check passes iff the dataset declares a count for every wanted level and each equals what was collected. |
| `SnapshotLoader.LoadSnapshot` | packages/addr-parse-kit/examples/area-kit-provider.ts:116-171 | With true counts, loading succeeds iff there is a province and no wanted level is skipped, and then the snapshot is exactly the rows of the wanted levels; with a province and a skipped level the answer is a count mismatch, and without a province that there are no nodes. It never returns a snapshot that disagrees with the counts. |
| `SnapshotLoader.GapSkipsALevel` | packages/addr-parse-kit/examples/area-kit-provider.ts:120-136 | A table of a province and a row two levels below it: its codes are distinct, the counts are true of it, and level 3 is skipped. |
| `SnapshotLoader.LoadSkippedLevel` | packages/addr-parse-kit/examples/area-kit-provider.ts:153-167 | Loading that table with true counts answers a count mismatch, whatever the page size. |
| `SnapshotLoader.CountsDecide` | packages/addr-parse-kit/examples/area-kit-provider.ts:153-167 | With true counts they agree iff every wanted row could be reached, so comparing numbers proves completeness. |
| `RegionForest.IndexCodes` | packages/addr-parse-kit/src/internal/snapshot.ts:36-53 | Codes are accepted iff none is empty and none repeats. |
| `RegionForest.CheckNode` | packages/addr-parse-kit/src/internal/snapshot.ts:56-72 | A node is accepted iff it is a root without a parent in the snapshot, or has one on a smaller level. |
| `RegionForest.LinkNodes` | packages/addr-parse-kit/src/internal/snapshot.ts:54-74 | Linking succeeds iff every node is valid, and then roots and child lists are those of the snapshot, in its order. |
| `RegionForest.BuildRegionIndex` | packages/addr-parse-kit/src/internal/snapshot.ts:32-115 | An index is built iff the snapshot is valid and some root has a child; then flattening the divisions gives exactly the nodes of levels 1 to 4 except childless roots, each once, with its name and under its own parent, and roots and siblings stand in the order of the snapshot; every parent link of the index leads to a smaller level, so that a parent walk on it ends. |
| `RegionForest.ListedIff` | packages/addr-parse-kit/src/internal/snapshot.ts:93-97 | Said of the snapshot alone, with the levels 1 to 4 written out: which nodes an index is expected to list, under which name and parent. |
| `RegionForest.DivisionsAsPromised` | packages/addr-parse-kit/src/internal/snapshot.ts:93-97 | The divisions of a valid snapshot hold exactly its listed nodes, each once, and roots and siblings are in snapshot order at every depth. |
| `RegionForest.ForestConserves` | packages/addr-parse-kit/src/internal/snapshot.ts:93-97 | No node of those levels is lost or moved by the trees. |
| `RegionForest.DivisionsOnce` | packages/addr-parse-kit/src/internal/snapshot.ts:93-97 | No code appears twice in the divisions. |
| `RegionForest.IsAncestor` | packages/addr-parse-kit/src/server/index.ts:166-173 | The walk ends, and finds an ancestor iff one of the given codes is met on the way up. |
| `RegionForest.WalkMeetsAncestors` | packages/addr-parse-kit/src/server/index.ts:166-173 | In a valid index the nodes met on the way up are exactly the nodes above. |

## Left out

- Tenants and scopes: every model is of one tenant and one scope; all statements of the source carry the same one.
- Random ids and tokens: a message and a challenge are named by their idempotency keys, a dispatch by message and attempt number, a lease by its generation, a SKU by its sequence; ids of new dimensions and values are parameters.
- Hashing, encryption, phone protection, code digits and proofs: a digest is the sequence of lines it covers; a code is right or wrong.
- Resource, policy and rate-limit decisions (`requireUsableTemplate`, `enforceIssuePolicy`, `enforcePhoneSendPolicy`): parameters of the steps that depend on them.
- Provider timeouts and the shape of provider requests: a provider call returns one of its results, or the process dies before completing.
- Retention maintenance, statistics, admin commands, test sends and event sinks of sms-kit.
- Receipt deduplication: the model lets a repeated callback try again, which allows more behaviours than the code, not fewer.
- The branch of `complete` for a failed reschedule (`send-worker.ts:206-210`): the job row is locked and known to be owned, so it is not reachable.
- SmsServices.ReconcileService.Reconcile: describes a job with nobody acting between its read and its write; in between, the protocol's separate steps `ReadDone`, `Retire`, `Reschedule`, `Record` and `Finalize` allow any interleaving, and all runs theorems cover it.
- SmsServices.SendWorker.RunBatch: which due job the database hands out next is a choice of the environment, given as one offer per job.
- OtpChallenge.CallersAgree: a commit whose reply is lost is not modelled; a creator whose mark was stored but not confirmed could report a failure while the challenge is accepted.
- OtpChallenge.OneSendPerKey: the direct send inside `issue` is one step with an arbitrary outcome; its own guarantee is `SmsTheorems.DirectSentOnce`.
- The issues file, samples and progress messages of the audit, and the JSON text form of records: records are compared field by field in a fixed order.
- CSV decoding and checksums: a level is a sequence of records with the promised columns, or broken.
- AreaImport.ImportVerified: the runner calls `inheritSettings` between loading and auditing when asked to; it is modelled as its own transaction (`AreaInherit.ImportTarget.InheritSettings`), which changes no source column and so nothing this contract speaks of.
- AreaStore.ImportSession.MarkReady: import timestamps, stored level counts and the stored report are not modelled.
- AreaStore.ImportSession.AuditDataset: no stored code is empty, and codes are unique in a dataset, as the constraints of `postgres/schema.ts:56-62` make them; a page scan that starts after the empty code would skip one.
- RateLimiter.RedisKey.Limit: the server clock that expires keys is taken to be the `now` argument, and calls on one key to have non-decreasing `now`; members of equal score are kept in arrival order.
- SendReservation.TimelyRun: `auth.ts` finishes a reservation only when issuing returns; runs in which it does not are covered by the four `Unfinished` lemmas.
- SkuCore.KeyIsTheSelection: dimensions are ordered by code units, the source orders them by `localeCompare`; they differ only for ids a locale treats as equal.
- Labels of dimensions and values: given in normal form; Unicode normalisation is not modelled.
- Price warnings, price ranges, images of the selector, previews, external inventory, authorization and management reads of sku-kit.
- SkuService.SkuService.SaveConfiguration: the check that a product code is not registered elsewhere is one step with the transaction, as the unique constraint of `postgres/schema.ts:31` makes it.
- KeysetPaging.Collect: the listing is fixed while it is followed, as in one snapshot of a ready dataset, and its codes are unique, as the schema makes them; the library key inside a cursor and the text of cursors are not modelled.
- `getTree` of area-kit, path summaries, keyword search and enablement filters: the matching rows are the input.
- RegionForest.BuildRegionIndex: names, aliases and metadata of the index are not modelled.
- Phone, name and address heuristics, HTTP routers, React components, schema files and the CLI.
