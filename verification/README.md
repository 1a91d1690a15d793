# Wallet ledger: a verified model

The system moves money between wallet accounts. A transfer is accepted under a requester's
idempotency key, assessed by a risk worker, possibly decided by an analyst, and posted to a
double-entry ledger by a transaction worker. Every step is one SERIALIZABLE transaction that writes
its rows and an outbox event together; publishers lease outbox rows and send them to a broker; the
workers consume the broker at least once, in any order across transfers, and remember what they
consumed in an inbox. What the system promises is a property of how these small transactions compose.

The project models that composition and proves it over every run:

- `Tables` gives each transaction as a function from tables to tables or a refusal. `Workers`,
  `TransferRepository`, `ConsumeLoop` and `PublishLoop` give the same operations as they run,
  statement by statement on mutable state with retries and interference, each proved against that
  function. `Protocol` is the step system, `ProtocolSteps` proves its invariant, and
  `ProtocolTheory`, `Routes`, `Ownership`, `Conflicts`, `Authority`, `Decisions`, `Observations`,
  `Descriptions`, `Acceptance` and `Frozen` say what the invariant means and pin every step to what its
  caller asked for. `Witnesses` and `FrozenWitness` hold concrete runs.
- `Journal`, `LedgerSpec`, `LedgerRepository` and `LedgerTheory` are the posting engine: exact
  aggregation, one change array reused across attempts, balance snapshots, reversals, reconciliation.
- `Backoff`, `Outbox` and `OutboxTheory` are leases, fencing tokens and retry over every interleaving
  of publishers, clock, broker and crashes.
- `World` joins the tables, the publishers, a partitioned broker and both consumer groups into one
  system, proves that its tables always follow a run of the protocol, and so carries the guarantees
  through it.
- `JsonSize`, `RateLimit` with `RateBound`, and `Velocity` are three self-contained algorithms, each refined
  to an independent reference: a printer, an unbounded map of token buckets together with bounds on counts
  and times alone, and an observation log.

`dafny verify dfyconfig.toml` checks everything.

## What the model assumes

- A SERIALIZABLE transaction is atomic. A transaction that aborts leaves nothing, and an attempt sees
  whatever tables other transactions left.
- Identifiers: the server assigns transfer identifiers, so a new pending transfer never takes the
  identifier of an existing journal entry and a direct posting never takes that of a transfer. A row
  is filed under its own identifier. Claim tokens are fresh. Event identifiers may collide, and the
  primary key then refuses the row.
- Broker records come from the outbox (`World` proves that its broker holds nothing else). The
  imperative consume loop is proved for arbitrary records, garbage included.
- Times are whole microseconds on one clock. The request event carries nanoseconds while the column
  keeps microseconds, and the risk worker compares them for equality, so this is a premise on callers.
- Unique keys and CHECK constraints come from the migrations.

## Where the code stops short

- Not every event is eventually consumed. A `review` assessment that reaches the transaction worker
  only after the analyst has decided is refused with a state conflict, now and forever
  (`Conflicts.OvertakenForever`); a concrete run reaches it (`Witnesses.OvertakingIsReachable`), and it
  is the only state conflict there is (`Conflicts.ConflictIffOvertaken`).
- A synchronous `Create` that replays a key taken by `CreatePending` answers with a transfer for which
  nothing was posted (`Witnesses.SharedKeyAnswersWithoutMoney`); money has moved exactly when the
  stored status is completed (`Acceptance.CreateReplay`).
- ADR 0008 says that posting rechecks account status. The code checks it at acceptance only
  (`Frozen.AcceptanceNeedsActive`) and posting does not read it (`Frozen.PostingIgnoresStatus`). A run in
  which an account frozen after acceptance still pays is `FrozenWitness.FrozenAccountPays`. A step moves a
  frozen account exactly when it settles a funded, approved transfer on it or posts to it directly
  (`Frozen.FrozenMovesIff`); with nothing in flight the account stays put in every continuation
  (`Frozen.FrozenStays`), and with a payable transfer in flight deliveries and one approval can move it
  (`Frozen.FrozenCanMove`).
- An analyst subject with surrounding blanks passes the handler's check, which trims, and is then
  refused by the columns (`Witnesses.PaddedSubjectIsRefused`); `Authority.DecidesExactly` says exactly who
  can decide.
- The rate limiter's bound holds while its map has room (`RateBound.ServeWithinRate`). Once 10,000 subjects
  are tracked, a capacity eviction forgets what its victim has spent: `RateBound.EvictionForgets` is a run in
  which a subject that was just refused is granted again.
- A velocity window that is not a whole number of milliseconds can lose a live transfer to key expiry
  if the store expires keys at their deadline (`Velocity.FractionalWindowLosesTransfer`).

## Model

| member | source | states |
|---|---|---|
| `World.EndToEnd` | internal/app/transactionworker/handler.go:46-162 | over every run of the whole system, with any interleaving of acceptance, publishing, at-least-once delivery, crashes and retries: a completed transfer has exactly one journal entry under its identifier, any other has none, the snapshots agree with the journal, and a published event is in the broker |
| `World.WorldRunKeeps` | internal/outbox/publisher.go:66-145 | tables, outbox leases and consumer offsets keep their joint invariant in every run, and no broker record is ever quarantined |
| `World.WorldRefinesProtocol` | internal/app/riskworker/run.go:152-193 | on the tables every run of the whole system is a run of the protocol, so every theorem about protocol runs holds end to end |
| `World.SystemEventLog` | internal/transfer/domain/lifecycle.go:126-218 | the faithful event log, for the whole system |
| `World.SystemAuthorised` | internal/app/riskworker/handler.go:119-138 | authorised posting, for the whole system |
| `World.SystemConflicts` | internal/app/transactionworker/handler.go:67-75 | a state conflict in the whole system is an overtaken request for review, and every later delivery of it is refused too |
| `World.SystemFirstCommittedWins` | internal/transfer/postgres/repository.go:145-208 | a key once committed names the same transfer in every continuation of the whole system |
| `World.CommittedOffsetsAreAccounted` | internal/app/transactionworker/run.go:119-191 | every record below a committed offset, even one committed by a stale worker, is a committed event and is in that worker's inbox unless it is foreign; nothing was quarantined |
| `World.CommittedIsNeverPoison` | internal/app/riskworker/run.go:195-233 | a record of a committed event is handled, skipped as foreign or retried, never set aside |
| `World.WorkersHandleTheirEvents` | internal/app/transactionworker/run.go:162-181 | by its type alone: the risk worker handles committed requests, the transaction worker committed assessments and review decisions, each as its transaction says, and every other event is skipped |
| `World.ReachableIsKeyed` | internal/transfer/postgres/risk_assessment.go:82-122 | the handlers' premise that rows are filed under their own identifiers holds in every reachable state |
| `ProtocolSteps.RunKeeps` | internal/app/transactionworker/handler.go:46-162 | every reachable state has, for every transfer, exactly the events, assessment, case, audit and entry that its status allows |
| `ProtocolSteps.AcceptKeeps` | internal/transfer/postgres/repository.go:381-421 | accepting a pending transfer keeps that shape for all transfers |
| `ProtocolSteps.TransactKeeps` | internal/transfer/postgres/repository.go:336-379 | so does accepting and posting at once |
| `ProtocolSteps.AssessKeeps` | internal/app/riskworker/handler.go:83-139 | so does any delivery, first or repeated, to the risk worker |
| `ProtocolSteps.SettleKeeps` | internal/app/transactionworker/handler.go:46-162 | so does any delivery, first or repeated, to the transaction worker |
| `ProtocolSteps.DecideKeeps` | internal/app/reviewcase/handler.go:64-116 | so does an analyst's decision |
| `ProtocolTheory.ExactlyOnceMoney` | internal/app/transactionworker/handler.go:112-162 | completed iff exactly one entry; the entry is source minus amount, destination plus amount; the net effect on every account is that or nothing |
| `ProtocolTheory.ProtocolConserves` | internal/ledger/domain/journal_entry.go:186-209 | the money of every currency over all accounts is zero in every reachable state |
| `ProtocolTheory.FaithfulEventLog` | internal/transfer/domain/lifecycle.go:126-218 | a transfer at version v has exactly one event per version 1..v in order, v is at most 4, and folding the events alone rebuilds the stored row up to the unpublished key |
| `ProtocolTheory.NoOrphans` | internal/transfer/postgres/risk_assessment.go:147-209 | no event, assessment, audit or case exists without its transfer |
| `Conflicts.ConflictIffOvertaken` | internal/app/transactionworker/handler.go:67-75 | a committed event meets a state conflict iff it is an unconsumed request for review whose case is already decided |
| `Conflicts.OvertakenForever` | internal/app/transactionworker/handler.go:71-75 | in every continuation of the run the event stays overtaken and every delivery of it meets a state conflict |
| `Conflicts.StoredVersionCoversEvent` | internal/app/transactionworker/handler.go:67-75 | the stored version is at least the event's, and at equality status and policy are the event's |
| `Conflicts.RiskWorkerNeverConflicts` | internal/app/riskworker/handler.go:104-117 | the risk worker never meets a state conflict, a missing transfer or a corrupt row |
| `Conflicts.RequestIsHandled` | internal/app/riskworker/handler.go:83-139 | a committed request whose policy is registered is always handled |
| `Conflicts.DecisionIsHandled` | internal/app/transactionworker/handler.go:112-162 | a committed decision that was not overtaken is handled, or its posting would leave 64 bits; no other ledger fault is reachable |
| `Conflicts.AwaitingOutcome` | internal/app/transactionworker/handler.go:112-162 | on the accounts' rows alone: the event that approved a transfer completes it iff funded, with one entry and one completed event; fails it for insufficient funds iff that is what the locks meet first, with one failed event and the ledger untouched; and is otherwise refused for overflow without a trace |
| `Conflicts.ShortTransferFails` | internal/app/transactionworker/handler.go:117-162 | in every reachable state an approved transfer whose source is short and whose destination has room becomes failed, consumed and announced |
| `Routes.RunRouted` | internal/transfer/postgres/repository.go:578-630 | in every run both accounts of every stored transfer are customer accounts of its currency |
| `Routes.TransferPosts` | internal/ledger/postgres/repository.go:419-479 | a routed transfer under a new identifier posts iff it is funded, is refused for insufficient funds iff the source is short and the destination has room or is locked later, and for overflow otherwise |
| `Routes.ApprovedPosts` | internal/app/transactionworker/handler.go:112-122 | the same in every reachable state for every approved transfer |
| `Frozen.PostingIgnoresStatus` | internal/app/transactionworker/handler.go:112-122 | the transaction worker does the same whatever the accounts' owners and status are |
| `Frozen.AcceptanceNeedsActive` | internal/transfer/postgres/repository.go:616-627 | neither kind of acceptance commits a transfer from or to an inactive account |
| `Frozen.FrozenMovesIff` | internal/app/transactionworker/handler.go:112-122 | in every reachable state a step moves an inactive account iff it settles a funded, approved transfer on it or posts to it directly |
| `Frozen.FrozenStays` | internal/transfer/postgres/repository.go:578-630 | an inactive account with no transfer in flight keeps its snapshot in every continuation without a reactivation or a direct posting |
| `Frozen.FrozenCanMove` | internal/app/transactionworker/handler.go:46-138 | an inactive account with a payable transfer in flight can be moved by deliveries and one approval alone |
| `FrozenWitness.FrozenAccountPays` | internal/app/transactionworker/handler.go:112-138 | a concrete run in which an account frozen after approval pays and the transfer completes |
| `Authority.AuthorisedPosting` | internal/app/riskworker/handler.go:119-138 | every asynchronously completed transfer has one assessment of its own amount that re-evaluates to an approval below every threshold, or to a review that exactly one audit record, the case and the published decision agree was approved |
| `Decisions.DecisionIsRecorded` | internal/app/reviewcase/handler.go:83-115 | in every reachable state a decision changes nothing or records exactly what the caller decided, under the caller's name and time, on the row, the case, one audit record and one event, and nothing else |
| `Decisions.CaseWasDecided` | internal/transfer/postgres/risk_assessment.go:125-143 | every decided case of a run was decided, with its outcome, actor and time, by an action of the run |
| `Decisions.CompletedAfterReviewWasApproved` | internal/app/reviewcase/handler.go:64-116 | a transfer completed after review was approved in the run by the actor on record |
| `Decisions.DeclinedNeverCompletes` | internal/app/transactionworker/handler.go:98-108 | after a recorded decline the transfer stays declined and nothing is posted for it, in every continuation |
| `Observations.ObservationDecides` | internal/app/riskworker/handler.go:118-151 | in every reachable state a delivery to the risk worker changes nothing or stores exactly its own observation, a live count as observed and a lost one as degraded, and moves the transfer where that observation decides |
| `Observations.FastSendersAreReviewed` | internal/risk/domain/policy.go:196-198 | a count at or above its limit sends any amount below the decline threshold to review |
| `Observations.AssessmentWasObserved` | internal/app/riskworker/handler.go:141-151 | every stored assessment of a run records what an action of the run observed |
| `Observations.ClearedWasObserved` | internal/app/riskworker/handler.go:118-138 | a transfer completed on its assessment alone was really observed below its own policy's limits by a delivery of the run |
| `Descriptions.EventsDescribeRows` | internal/transfer/events/risk_assessed.go:82-140 | every event of an asynchronous transfer describes the row it came with, in full, and names the event that caused it |
| `Descriptions.SyncEventDescribesRow` | internal/transfer/events/completed.go:21-62 | the one event of a transfer posted at once describes the move as made at the time of its entry |
| `Ownership.RunOwned` | internal/transfer/postgres/repository.go:609-612 | in every run the source account of every stored transfer belongs to its requester |
| `Ownership.RefusalsInOrder` | internal/transfer/postgres/repository.go:609-627 | each refusal of the accounts as an exact condition: ownership, existence, then the source's status, type and currency before the destination's |
| `Ownership.PendingAcceptedIff` | internal/transfer/postgres/repository.go:381-421 | under an unused key and identifier a pending transfer is accepted iff the source is the requester's, the destination exists and both are active customers of the currency; refused with the first failed check otherwise |
| `Ownership.CreateAcceptedIff` | internal/transfer/postgres/repository.go:336-379 | the same for the synchronous path, which must be funded too; short funds and overflow are told apart |
| `Ownership.StrangersAreRefused` | internal/transfer/postgres/repository.go:609-612 | nobody but the owner of the source gets a transfer accepted, by either path |
| `Authority.DecidesExactly` | internal/app/reviewcase/handler.go:64-129 | in every reachable state a decision is recorded iff the caller is an analyst whose subject is visible throughout, the transfer is under review, the clock is set and the event identifier is new; case, audit and outbox never refuse it |
| `Acceptance.StepRefinesBook` | internal/transfer/postgres/repository.go:336-421 | one step refines the abstract map from (requester, key) to the first committed transfer: a free key may take the offered one, nothing else changes |
| `Acceptance.RunRefinesBook` | internal/transfer/postgres/repository.go:336-421 | the tables of every run agree with the abstract map folded from its committed offers |
| `Acceptance.FirstCommittedWins` | internal/transfer/postgres/repository.go:145-208 | a key once committed names the same transfer in every continuation of the run |
| `Acceptance.PendingReplay` | internal/transfer/postgres/repository.go:395-410 | a held key answers the same source, destination, amount and currency with the stored row, anything else with a conflict, and changes nothing either way |
| `Acceptance.CreateReplay` | internal/transfer/postgres/repository.go:350-363 | the same for the synchronous path, and the money of the answer has moved iff its status is completed |
| `Witnesses.OvertakingIsReachable` | internal/app/transactionworker/handler.go:71-75 | a concrete run after which a committed event is refused whatever the delivery |
| `Witnesses.SharedKeyAnswersWithoutMoney` | internal/transfer/postgres/repository.go:350-363 | a concrete run in which a synchronous creation succeeds on a pending transfer with no entry |
| `Witnesses.PaddedSubjectIsRefused` | internal/app/reviewcase/handler.go:118-129 | on a reachable transfer under review a padded subject passes the trimmed check and is refused, while the plain one decides |
| `Workers.HandleRequest` | internal/app/riskworker/handler.go:83-139 | the handler's statements in order commit exactly the specified assessment transaction, or leave the database untouched |
| `Workers.StoreAssessment` | internal/app/riskworker/handler.go:118-138 | captures, evaluates, moves, stores and announces as the specified assessment, or nothing |
| `Workers.HandleDelivery` | internal/app/transactionworker/handler.go:46-80 | the same for the transaction worker's dispatch |
| `Workers.HandleAssessment` | internal/app/transactionworker/handler.go:51-79 | the same for a risk assessment |
| `Workers.HandleReviewDecision` | internal/app/transactionworker/handler.go:82-110 | the same for a review decision |
| `Workers.Post` | internal/app/transactionworker/handler.go:112-138 | posts and completes, or turns insufficient funds and nothing else into a failure |
| `Workers.Fail` | internal/app/transactionworker/handler.go:140-162 | records the failure and its event together |
| `Workers.Decide` | internal/app/reviewcase/handler.go:64-116 | four updates in order are one decision transaction, or nothing |
| `Transactions.Transaction.Reserve` | internal/inbox/postgres/inbox.go:28-61 | reports exactly whether the event is new to the consumer, and remembers it |
| `Transactions.Transaction.StoreTransition` | internal/transfer/postgres/risk_assessment.go:212-241 | writes only over the status and version that were read |
| `Transactions.Transaction.StoreRiskAssessment` | internal/transfer/postgres/risk_assessment.go:147-209 | refuses incoherent arguments, then a stale row, then a used key; otherwise advances the row, appends the assessment and opens a case exactly when review is required |
| `Transactions.Transaction.DecideCase` | internal/transfer/postgres/risk_assessment.go:125-143 | closes only an open case, with the columns' own rule for the subject |
| `Transactions.Transaction.AppendAudit` | internal/audit/postgres/writer.go:37-76 | one audit record per transfer and version, under the audit rule |
| `Transactions.Transaction.Post` | internal/ledger/postgres/repository.go:165-176 | posting inside the caller's transaction through the same engine; a refused entry leaves no trace |
| `TransferRepository.AuthorizeTransferAccounts` | internal/transfer/postgres/repository.go:578-630 | ownership, then existence, then status, type and currency, source before destination |
| `TransferRepository.CreatePendingOnce` | internal/transfer/postgres/repository.go:381-421 | one attempt is the specified transaction, or a conflict with no effect wherever it strikes |
| `TransferRepository.CreateOnce` | internal/transfer/postgres/repository.go:336-379 | the same for the synchronous path |
| `TransferRepository.CreatePending` | internal/transfer/postgres/repository.go:179-208 | at most three attempts; success is one transaction on the last state seen, anything else leaves that state, and so the key, as it was |
| `TransferRepository.Create` | internal/transfer/postgres/repository.go:145-174 | the same for the synchronous path |
| `ConsumeLoop.Worker.HandleRecord` | internal/app/riskworker/run.go:195-233 | a record is handled, skipped, quarantined exactly when it is poison, or stops the worker without a trace |
| `ConsumeLoop.Worker.Consume` | internal/app/riskworker/run.go:152-193 | through any poll, with arbitrary records, interference and failures, every record below a committed offset is in the inbox, foreign or quarantined |
| `ConsumeLoop.HandlerReserves` | internal/inbox/postgres/inbox.go:28-61 | a handler that succeeds has added exactly its event to its inbox |
| `LedgerTheory.SnapshotRefinesLedger` | internal/ledger/postgres/repository.go:397-479 | after any run from nothing, every snapshot is the exact sum of its postings, customers are nonnegative, versions count the entries, identifiers are unique and reversals justified |
| `LedgerTheory.PostPreserves` | internal/ledger/postgres/repository.go:397-417 | one posting keeps all of that |
| `LedgerTheory.PostedOutcome` | internal/ledger/postgres/repository.go:419-479 | a prepared entry on existing accounts posts iff every account takes its net, and is otherwise refused with the fault of the least account that does not |
| `LedgerTheory.RefusalMeans` | internal/ledger/postgres/repository.go:449-465 | what each refusal says of that account's row: another currency, a sum or version beyond 64 bits, or a customer's balance below zero, each iff |
| `LedgerTheory.RefusalCodes` | internal/ledger/postgres/repository.go:397-417 | the refusals no row is to blame for, in order: a reversal of nothing, of something reversed or of something else; a missing account; a taken identifier |
| `LedgerTheory.FirstReversalIsAdmitted` | internal/ledger/postgres/repository.go:481-512 | the first reversal of a stored entry is never refused as a reversal, and posts iff every account can give the effect back |
| `LedgerTheory.ReconcileReports` | internal/ledger/postgres/repository.go:100-110 | of any ledger at all, an account is reported iff its snapshot is not the exact sum of its postings, and the report names both |
| `LedgerTheory.ReconcileFindsNothing` | internal/ledger/postgres/repository.go:216-241 | reconciliation has nothing to report after any run |
| `LedgerTheory.Exchange` | internal/ledger/postgres/repository.go:326-378 | netting per account and then summing is summing the postings of the currency, in any order |
| `LedgerTheory.RunConserves` | internal/ledger/domain/journal_entry.go:186-209 | from any ledger, no run changes the money of any currency |
| `LedgerTheory.ReversedAtMostOnce` | internal/ledger/postgres/repository.go:481-512 | no entry has two reversals |
| `LedgerTheory.ChainNets` | internal/ledger/domain/journal_entry.go:87-124 | a chain of reversals nets to its first entry or to nothing, by the parity of its length, on every account |
| `LedgerTheory.GetRebuilds` | internal/ledger/postgres/repository.go:658-723 | reading back any posted entry, reversals of reversals included, rebuilds it and never reports corruption |
| `LedgerRepository.PreparePostings` | internal/ledger/postgres/repository.go:326-378 | one change per account, in order, with its exact net; refused exactly on mixed currencies or a net beyond 64 bits |
| `LedgerRepository.PrepareEntry` | internal/ledger/postgres/repository.go:278-324 | refuses exactly the invalid, mixed and overflowing entries |
| `LedgerRepository.LockAndCalculateBalances` | internal/ledger/postgres/repository.go:419-479 | the first fault in account order, then a missing account; on success every change was computed from rows read in this call, whatever the array held before |
| `LedgerRepository.CountFault` | internal/ledger/postgres/repository.go:470-479 | distinct locked rows number as many as the changes only if no account is missing |
| `LedgerRepository.UpdateBalances` | internal/ledger/postgres/repository.go:573-591 | rows written one at a time end up moved by exactly the entry's nets |
| `LedgerRepository.ValidatePersistedReversal` | internal/ledger/postgres/repository.go:481-512 | accepts exactly the positional inverse of a stored, not yet reversed entry |
| `LedgerRepository.Repository.PostOnce` | internal/ledger/postgres/repository.go:380-417 | all effects, the specified fault, or a conflict after any statement with no effect |
| `LedgerRepository.Repository.Post` | internal/ledger/postgres/repository.go:136-161 | at most three attempts over one change array; success is a single posting on the state the last attempt saw, failure changed nothing |
| `LedgerRepository.Repository.PostPrepared` | internal/ledger/postgres/repository.go:136-161 | the retry loop: stale contents of the change array never reach a row |
| `LedgerRepository.Repository.Get` | internal/ledger/postgres/repository.go:179-212 | the stored entry rebuilt through the domain constructors |
| `LedgerRepository.Repository.Reconcile` | internal/ledger/postgres/repository.go:216-241 | exactly the snapshots that differ from their postings, in account order |
| `Journal.ValidateBalancedPostings` | internal/ledger/domain/journal_entry.go:186-209 | accepts exactly the lists that sum to zero in every currency |
| `Journal.Validate` | internal/ledger/domain/journal_entry.go:149-184 | accepts exactly the valid entries |
| `Journal.Reverse` | internal/ledger/domain/journal_entry.go:87-124 | builds the positional inverse; fails only on an invalid source, its own identifier or an unset time |
| `Journal.NegatedTwice` | internal/ledger/domain/journal_entry.go:87-124 | reversing twice restores every posting |
| `Money.AdditionOverflows` | internal/ledger/domain/money.go:92-95 | the guard fires exactly when the sum leaves 64 bits, without leaving them itself |
| `Money.SubtractionOverflows` | internal/ledger/domain/money.go:97-100 | the same for differences |
| `Money.SubtractUndoesAdd` | internal/ledger/domain/money.go:46-67 | subtraction undoes a successful addition |
| `Lifecycle.AtMostThreeTransitions` | internal/transfer/domain/lifecycle.go:126-181 | any accepted sequence of transitions has at most three, the version counts them, and intent, policy and validity survive |
| `Lifecycle.ApplyAdvances` | internal/transfer/domain/lifecycle.go:168-218 | every transition is between valid lifecycles, adds one to the version and moves strictly towards the end |
| `Lifecycle.JournalEntry` | internal/transfer/domain/transfer.go:100-128 | exactly the valid transfers have an entry, balanced and valid, of their own request time |
| `Lifecycle.ApprovedEntry` | internal/app/transactionworker/handler.go:164-190 | exactly the approved lifecycles of a postable amount have an entry, recorded when it is posted |
| `Policy.NewPolicy` | internal/risk/domain/policy.go:125-149 | accepts exactly the nonempty, valid, duplicate-free lists, and files each threshold under its currency |
| `Policy.DecisionsExactly` | internal/risk/domain/policy.go:165-209 | approval and decline as exact conditions on the captured input |
| `Policy.ScoreIsExplained` | internal/risk/domain/policy.go:165-209 | every score has its exact condition and, unless the transfer is approved, one signal that carries it and names the reason |
| `Policy.EvaluationMonotone` | internal/risk/domain/policy.go:165-209 | a larger amount, a higher count or a lost observation never lowers the score or softens the decision |
| `Events.RequestedRoundTrip` | internal/transfer/events/requested.go:24-129 | parsing a produced request gives back the lifecycle up to the unpublished key |
| `Events.RiskAssessedRoundTrip` | internal/transfer/events/risk_assessed.go:40-140 | parsing a produced assessment gives back transfer, policy and decision |
| `Events.ReviewDecidedRoundTrip` | internal/transfer/events/review_decided.go:35-72 | parsing a produced decision gives back transfer and outcome |
| `Events.RequestedInverse` | internal/transfer/events/requested.go:24-82 | an accepted request is what its own lifecycle would publish, up to the envelope's time stamp |
| `Events.RiskAssessedInverse` | internal/transfer/events/risk_assessed.go:40-79 | an accepted assessment is what a lifecycle of that transfer, policy and decision would publish |
| `Events.ReviewDecidedInverse` | internal/transfer/events/review_decided.go:35-56 | an accepted review decision is what a lifecycle of that outcome would publish, up to a cause the parser ignores |
| `OutboxTheory.StepKeeps` | internal/outbox/postgres/repository.go:27-76 | every claim, send, mark, crash and tick keeps leases, grants and broker consistent |
| `OutboxTheory.SupersededTokenIsInert` | internal/outbox/postgres/repository.go:146-195 | two leases on one event never overlap unless the earlier was given back, and its token can no longer change the row |
| `OutboxTheory.PublishedIsAbsorbing` | internal/outbox/postgres/repository.go:57-76 | no step changes a published row |
| `OutboxTheory.NoLossNoPhantom` | internal/outbox/publisher.go:93-145 | a published row is in the broker, and the broker holds only committed events |
| `OutboxTheory.ClaimableWithinADay` | internal/outbox/postgres/repository.go:27-53 | an unpublished row left alone is claimable again within 24 hours, whatever crashed |
| `OutboxTheory.FailureWaits` | internal/outbox/postgres/repository.go:66-76 | a recorded rejection gives the row back, counts one more failure up to 2^31 - 1, and makes it due exactly min(base * 2^n, max) later, n being the failures before |
| `OutboxTheory.PublicationRecords` | internal/outbox/postgres/repository.go:57-64 | a recorded acknowledgement publishes the row now, gives it back and changes nothing else |
| `OutboxTheory.ClaimTakesOnlyDue` | internal/outbox/postgres/repository.go:27-42 | a claim takes only unpublished, due rows under no running lease, and the lease runs its full configured length |
| `OutboxTheory.ClaimIsEarliest` | internal/outbox/postgres/repository.go:27-37 | a due row is left behind only by a full batch of rows due earlier, or as early and earlier in sequence |
| `Outbox.Repository.Claim` | internal/outbox/postgres/repository.go:94-143 | leases due, unlocked rows, as many as the limit allows, none later than one left behind, returned by sequence |
| `Outbox.Repository.MarkPublished` | internal/outbox/postgres/repository.go:146-161 | publishes iff the token still holds the row |
| `Outbox.Repository.MarkFailed` | internal/outbox/postgres/repository.go:164-195 | reschedules iff the token still holds the row, with a saturating failure count |
| `Outbox.BatchIsEarliest` | internal/outbox/postgres/repository.go:27-37 | a batch that leaves a candidate behind is full, and the candidate was not due before any row taken |
| `PublishLoop.BatchPublisher.PublishBatch` | internal/outbox/publisher.go:93-145 | the loop's statements together with anybody else's are a run of the step system; each claimed row was published or rescheduled under the batch's token, at a known step, as its acknowledgement demands, up to the first lost claim; the counters count exactly these |
| `PublishLoop.BatchPublisher.Record` | internal/outbox/publisher.go:106-141 | recording an outcome changes the row as the step says, and is refused exactly when the claim was lost |
| `Backoff.RetryDelay` | internal/outbox/publisher.go:164-173 | the doubling loop computes min(base * 2^n, max) in 64 bits for every failure count |
| `Backoff.DelayClosedForm` | internal/outbox/publisher.go:147-173 | the closed form, monotone in n, and always a whole-second delay that MarkFailed accepts |
| `JsonSize.PostgresJsonbTextSize` | internal/event/envelope.go:312-349 | the in-place scan computes the scanner specification |
| `JsonSize.ScannerMatchesPrinter` | internal/event/envelope.go:312-349 | on the compact text of any value the scanner gives the length of the spaced text when no number has an exponent, and rejects otherwise |
| `JsonSize.FitsColumn` | internal/event/envelope.go:291-310 | a compacted payload is accepted exactly when it is an object without exponents whose spaced text fits the column |
| `RateLimit.PrincipalRateLimiter.Allow` | internal/adapter/http/reviewdecision/ratelimit.go:53-75 | answers from the subject's bucket; never more than 10,000 entries; the new map is the specified one |
| `RateLimit.FindOldest` | internal/adapter/http/reviewdecision/ratelimit.go:85-95 | a least recently seen subject, with the empty string as a sound sentinel |
| `RateLimit.SweepIdle` | internal/adapter/http/reviewdecision/ratelimit.go:77-83 | removes exactly the idle subjects |
| `RateLimit.GarbageCollectionInvisible` | internal/adapter/http/reviewdecision/ratelimit.go:53-83 | on a nondecreasing clock, with no capacity eviction, the answers are those of a limiter that forgets nobody |
| `RateLimit.PrincipalRateLimiter.ServeFromStart` | internal/adapter/http/reviewdecision/ratelimit.go:53-83 | the running limiter, from start-up and while it has room, gives those very answers |
| `RateBound.AtMostTheRate` | internal/adapter/http/reviewdecision/ratelimit.go:69-74 | in any stretch of d nanoseconds a subject is granted at most burst + d * perMinute / minute requests, whatever else is asked |
| `RateBound.FirstIsGranted` | internal/adapter/http/reviewdecision/ratelimit.go:66-74 | the first request of a subject is granted |
| `RateBound.SpacedIsGranted` | internal/adapter/http/reviewdecision/ratelimit.go:69-74 | a request at least one token's time after its subject's last grant is granted |
| `RateBound.ServeWithinRate` | internal/adapter/http/reviewdecision/ratelimit.go:36-75 | a new limiter keeps all three while its map has room |
| `RateBound.EvictionForgets` | internal/adapter/http/reviewdecision/ratelimit.go:66-95 | a run that fills the map: a subject is granted, refused, pushed out and granted again |
| `RateLimit.NewLimiter` | internal/adapter/http/reviewdecision/ratelimit.go:36-50 | a limiter exists for exactly the supported rates and starts empty |
| `Velocity.Observer.Observe` | internal/risk/redis/velocity.go:69-96 | the script's effect on one account's set, others untouched; refused exactly on invalid input |
| `Velocity.WindowRefinesLog` | internal/risk/redis/velocity.go:19-23 | on one nondecreasing clock the set is the log's live transfers, whatever the key expiry does, for whole-millisecond windows |
| `Velocity.ReobservationIsIdempotent` | internal/risk/redis/velocity.go:69-96 | re-observing a live transfer, at any later time at which it still counts, leaves the members as they were |
| `Velocity.FractionalWindowLosesTransfer` | internal/risk/redis/velocity.go:69-96 | for every window that is not whole milliseconds, two accepted observations after which expiry at the deadline has lost a live transfer |

## Left out

- HTTP routing, request decoding, status mapping, OIDC verification, metrics and tracing: plumbing over libraries.
- The Kafka, Redis and PostgreSQL clients, connection pools, environment configuration and `cmd/`: the broker is a log, Redis a map of scores, a transaction an atomic step.
- PostgreSQL internals: snapshot visibility, the SKIP LOCKED recheck (the locked set is a parameter), JSONB normalisation of escapes, negative zero, duplicate and reordered keys.
- JSON encoding of event payloads: payloads are records and round trips are field by field; only the size scanner works on text, one character per byte.
- Trimming and case of UUID text, currency parsing and status text: identifiers are 128-bit values and statuses a datatype; the trim of an analyst's subject is modelled because a refusal depends on it.
- Wallet creation and reads, the AI investigator, diagnostic sanitising and SHA-256 excerpts: easy members with no property across steps.
- Sub-microsecond times and time zones.
- World.WorldRunKeeps: states safety only; eventual publication and eventual consumption are not claimed, and for an overtaken review the latter is false.
- Protocol: one policy registry for the whole run, shared by all risk workers; an account's status is not consulted after acceptance, as in the code.
- PublishLoop.BatchPublisher.PublishBatch: the committed events are fixed while one batch runs; rows enqueued meanwhile are modelled in `World`.
- RateLimit.GarbageCollectionInvisible: the library's token bucket is modelled exactly over integers, without floating-point rounding.
- JsonSize.FitsColumn: takes the payload as already trimmed and compacted; removing insignificant whitespace is the JSON library's.
- Frozen.FrozenCanMove: gives a continuation for a transfer that could be paid now; one that could be paid only after other postings is not followed further.
- RateBound.ServeWithinRate: bounds a limiter whose map has room; what a subject is granted around its own eviction is not bounded, because the code does not bound it.
