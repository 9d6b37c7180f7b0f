# Verified model of the insurance event pipeline

A Dafny model of the claims, policy, audit and notification services, the outbox
relays that connect them through Kafka, and the dashboard's event client.  To verify:

    dafny verify dfyconfig.toml

## What is modelled

| file | contents |
|---|---|
| `Events.dfy` | topics, payloads, outbox emissions and messages; shared facts about sequences and sets |
| `Relay.dfy` | the relay's batch loop over the outbox table and a producer with a volatile buffer; how many batches a backlog costs |
| `AuditConsumer.dfy` | the audit consumer: poll, insert, broadcast, commit |
| `Pipeline.dfy` | both outboxes, any number of relays, the partitions and the consumer as one transition system with crashes and redelivery |
| `Conservation.dfy` | what loses an event and what cannot |
| `Ordering.dfy` | when the audit table repeats the commit order of an aggregate |
| `Claims.dfy` | filing and status transitions, with the status read before the lock |
| `ClaimMetrics.dfy` | the per-status counts and their relation to the status history |
| `Replay.dfy` | claims service and pipeline together: replaying audited status changes |
| `Policies.dfy` | creation, cancellation and updates from stale objects |
| `CrossService.dfy` | the verification call and what it guarantees when the claim commits |
| `Notifications.dfy` | the notification transaction, the e-mail task and its retries |
| `Numbers.dfy`, `ClaimNumbers.dfy`, `PolicySequence.dfy` | number formats, the maximum-plus-one generator, the PostgreSQL sequence and its seeding |
| `EventStream.dfy`, `EventsStore.dfy` | the reconnecting WebSocket client and the bounded feed |

The policy service's relay is the same program as the claims service's, so one model
stands for both; each relay of the pipeline works on the table of its own service.

Code that changes state step by step is a class whose methods are proved against a
function of the old state (`ApplyBatch`, `Ingest` and `Advance`, `Transitioned`,
`CancelledDb` and `UpdatedDb`, `Executed`, `Next`).  The transition systems use the same
functions, one step per database transaction, network event or callback, and the theorems
are about every sequence of steps.  What goes wrong in one call is a parameter of its method.
A request that reads a row and later writes it under a
lock is two steps.

## Hypotheses

The theorems that need more than the code guarantees name it as a predicate.

- `Conservation.CleanRun`: a batch commits with an empty client buffer
  (`UndrainedFlushLoses` breaks the conclusion without it), the client gives up no message
  while a batch is open (`DropInOpenBatchLoses`), and every handler call ends with its row
  stored (`PassedMessageIsLost`, `RefusedMessageIsLost`).  When one commit is safe is exact
  in `RelayCommitIsSafeIff`, `EmptyClientDecides` and `OffsetCommitIsSafeIff`.
- `Ordering.OrderlyRun` and `SoleRelays`: in addition one relay per outbox
  (`TwoRelaysReorder`; exact in `InOrderIffSoleRelays`), no failing produce
  (`FailedProduceReorders`), `created_at` strictly increasing within an aggregate and topic
  (`EqualTimesReorder`).  That the client keeps its order, that a dying client loses the tail
  of its buffer, and that the partition depends on the lane alone are contracts of the Kafka
  client; no run without them is shown.
- `Claims.FreshRun`: no transition is written on a stale status (`OverlapBreaksTheMachine`;
  exact in `ConnectedIffFresh`).
- `Notifications.AckedRun`: each enqueued attempt runs once (`RedeliverySendsTwice`; for
  logs and statuses `LogsAgreeIffInStep` is exact without it).
- `EventStream.Connects(..) <= 1`: the page calls connect() once per client, as
  frontend/lib/hooks/useEventStream.ts does (`SecondConnectLeaks`).

## Where the code and its documentation differ

The model follows the code.

- docs/TECHNICAL_DECISIONS.md says that the flush inside the relay's transaction guarantees
  that an event reached the broker before its row is marked, and README.md says that an
  event stays PENDING while Kafka is down.  The code ignores what `flush(5)` returns, and
  `produce` only fills a client buffer, so a row can be PUBLISHED and its event lost
  (`UndrainedFlushLoses`).
- docs/TECHNICAL_DECISIONS.md says that consumers handle duplicates by the IntegrityError on
  the event id.  The code takes every IntegrityError for a duplicate and commits past the
  message, also when another constraint refused its row (`RefusedMessageIsLost`).
- docs/TECHNICAL_DECISIONS.md calls RESOLVED terminal.  `transition_status` checks the
  caller's copy and does not check again under its lock, so a resolved claim can still be
  rejected (`OverlapBreaksTheMachine`).
- The policy-number migration sets the sequence to the stored maximum, or 0 for an empty
  table.  PostgreSQL refuses 0, below the sequence's minimum of 1, so seeding an empty
  table fails (`PolicySequence.Sequence.Seed`).
- Claim numbers have an undocumented limit: the generator takes the maximum by string
  order, which stops at 999999, so from 10^6 claims in a year on it repeats 1000000
  (`FreshIffBelowMillion`, `SerialFiling`).

## Model

| member | source | states |
|---|---|---|
| `Relay.SettleNext` | claims-service/apps/outbox/management/commands/run_outbox_relay.py:52-79 | Settling the next row of the batch changes that row alone; every other row of the table is as it was. |
| `Relay.AcceptedCountsNewlyPublished` | claims-service/apps/outbox/management/commands/run_outbox_relay.py:52-61 | The number of messages the producer accepted equals the number of rows that became PUBLISHED. |
| `Relay.BatchExists` | claims-service/apps/outbox/management/commands/run_outbox_relay.py:43-47 | The batch query always has an answer: for any table and any locked rows there is a list of at most n distinct free PENDING rows, oldest first, older than all it leaves out, and complete when it is short. |
| `Relay.BatchSize` | claims-service/apps/outbox/management/commands/run_outbox_relay.py:43-47 | A batch has exactly as many rows as are PENDING and unlocked, up to a hundred. |
| `Relay.BatchRows` | claims-service/apps/outbox/management/commands/run_outbox_relay.py:52-79 | Every row after a batch, read directly: accepted ones PUBLISHED, the others one attempt up and FAILED at ten, rows outside the batch untouched. |
| `Relay.AcceptedAt` | claims-service/apps/outbox/management/commands/run_outbox_relay.py:54-59 | What a batch hands over: for each accepted row, in order, one message with that row's topic, payload and key (or aggregate id), and none for the others. |
| `Relay.Producer.Produce` | claims-service/apps/outbox/management/commands/run_outbox_relay.py:55-59 | produce either appends the message to the volatile client buffer or raises and leaves it alone; the broker log does not move. |
| `Relay.Producer.Flush` | claims-service/apps/outbox/management/commands/run_outbox_relay.py:81 | The client settles some prefix of the buffer, perhaps none of it: of these messages some reach the log, in order, and the others expire; the rest keeps waiting; when all reached the broker the buffer is empty. |
| `Relay.Command.Publish` | claims-service/apps/outbox/management/commands/run_outbox_relay.py:53-76 | By produce's answer the row comes back PUBLISHED, or one attempt up and FAILED at the tenth; an accepted row puts one message with its own topic, key and payload into the buffer. |
| `Relay.Command.PublishAndSave` | claims-service/apps/outbox/management/commands/run_outbox_relay.py:52-79 | One round of the loop settles one more row of the batch and adds its message, if accepted, to the buffer; a save that raises leaves the table's copy as it was. |
| `Relay.Command.PublishAll` | claims-service/apps/outbox/management/commands/run_outbox_relay.py:52-79 | The loop settles each row of the batch by produce's answers, counts the accepted messages and buffers exactly these, in order; it stops after the row whose save raises. |
| `Relay.Command.ProcessBatch` | claims-service/apps/outbox/management/commands/run_outbox_relay.py:41-84 | One batch commits exactly when no save and no commit raises: then each row of the batch is settled by its answer, no other row moves, and the count is the number turned PUBLISHED; otherwise the table is unchanged but what was produced stays produced; without faults the log gets the accepted messages and the buffer is empty. |
| `RelayDrain.BatchKeepsAttempts` | claims-service/apps/outbox/management/commands/run_outbox_relay.py:52-79 | A batch keeps PENDING rows below ten attempts and FAILED rows at ten, adds no PENDING row, and leaves settled rows alone. |
| `RelayDrain.BatchSpends` | claims-service/apps/outbox/management/commands/run_outbox_relay.py:62-69 | The measure: the attempts still available over all PENDING rows fall by at least one for each row of a batch. |
| `RelayDrain.ShortBacklog` | claims-service/apps/outbox/management/commands/run_outbox_relay.py:43-47 | With fewer than 100 rows waiting every batch tries them all, so as many batches as the freshest row has attempts left empty the table. |
| `RelayDrain.LongBacklog` | claims-service/apps/outbox/management/commands/run_outbox_relay.py:41-84 | A run of non-empty batches is at most (attempts left)/100 + 10 long. |
| `RelayDrain.DrainBound` | claims-service/apps/outbox/management/commands/run_outbox_relay.py:21-84 | n PENDING rows cost an undisturbed relay at most n/10 + 10 non-empty batches, whatever pattern of produce failures occurs. |
| `RelayDrain.DrainedOutcome` | claims-service/apps/outbox/management/commands/run_outbox_relay.py:41-84 | When no batch is left, each row is PUBLISHED, or FAILED with exactly ten attempts, and rows settled earlier are untouched. |
| `AuditConsumer.AuditKafkaConsumer.ProcessEvent` | audit-service/apps/audit/services.py:13-63 | A known event id, or a row another constraint refuses, stores and broadcasts nothing; a new one is stored with the message's type, topic, service and payload, filed under its claim, else its policy, else by its type, and is broadcast unless group_send raised before sending. |
| `AuditConsumer.AuditKafkaConsumer.PollAndHandle` | audit-service/apps/audit/kafka_consumer.py:42-119 | One poll: the position always moves; the offset is committed past the message exactly on success and on any IntegrityError, unless the commit raises; malformed bytes and other exceptions commit nothing; without faults a new event is stored and broadcast once; a commit that raises after an IntegrityError ends the consumer. |
| `Pipeline.StepGrowsRows` | claims-service/apps/outbox/models.py:7-37 | No step deletes an outbox row or changes its content; a PUBLISHED or FAILED row never changes again. |
| `Pipeline.IngestOnce` | audit-service/apps/audit/services.py:26-53 | Handling a message keeps event ids unique in the audit table and broadcasts unique and only of stored events. |
| `Pipeline.LocksKept` | claims-service/apps/outbox/management/commands/run_outbox_relay.py:42-81 | Open batches of any number of relays hold disjoint, PENDING rows of the relay's own outbox, and attempts agree with statuses, in every interleaving with inserts, commits and aborts. |
| `Pipeline.RunSound` | audit-service/apps/audit/kafka_consumer.py:59-119 | Every invariant of the transition system (provenance, uniqueness, offset order, locks) holds along every run. |
| `Pipeline.EndToEndSafety` | audit-service/apps/audit/kafka_consumer.py:59-119 | In every run, with rollbacks, relay crashes, redelivery, lost acknowledgements and consumer restarts: each audit row is the image of a committed outbox row, no event is audited twice, and each event is broadcast at most once and only when audited. |
| `Pipeline.ContentIsCommitted` | audit-service/apps/audit/services.py:13-43 | In every run each buffered or logged message has the topic, key and payload of a committed outbox row, and each audit row has that row's topic, type, service and payload and the entity it is about. |
| `Pipeline.RowsAreInserted` | claims-service/apps/claims/events.py:66-75 | In every run the outbox rows are exactly the inserted ones, with the content and time they were inserted with. |
| `Pipeline.BroadcastUnlessRaised` | audit-service/apps/audit/services.py:29-63 | In every run an event is audited if and only if some handler call stored it, and an audited event was broadcast if and only if that call did not end with group_send raising before it was sent. |
| `Pipeline.AttemptsCountFailures` | claims-service/apps/outbox/management/commands/run_outbox_relay.py:62-69 | In every run a row's attempts are the committed batches in which produce raised for it, and it is FAILED if and only if there were ten. |
| `Pipeline.HistoryIsImmutable` | audit-service/apps/audit/models.py:8 | Later states only extend earlier ones: audit rows and broadcasts are never altered, removed or reordered, and outbox rows keep their content. |
| `Pipeline.BalanceKept` | claims-service/apps/outbox/management/commands/run_outbox_relay.py:42-81 | Each step keeps, for every row, the equation between successful produce calls, its status, open batches and rolled-back batches. |
| `Pipeline.DuplicateAccounting` | claims-service/apps/outbox/management/commands/run_outbox_relay.py:42-81 | With any number of concurrent relays no row is in two open batches, and the successful produce calls for a row are one if PUBLISHED, plus one if an open batch has produced it, plus one for each rolled-back batch that had. |
| `Pipeline.BatchIsARun` | claims-service/apps/outbox/management/commands/run_outbox_relay.py:41-84 | The steps of one batch in the transition system do to the table and the buffer exactly what the batch method promises for the same answers. |
| `Conservation.NoEventIsLost` | audit-service/apps/audit/kafka_consumer.py:46-117 | When every committing batch has drained its flush, no client gives up a message of an open batch and every handler call ends with its row stored, each committed outbox row is at every moment PENDING, or FAILED after ten attempts, or in the log at or above a committed offset, or audited; and all below a committed offset is audited. |
| `Conservation.DrainedMeansAuditedExactlyOnce` | audit-service/apps/audit/kafka_consumer.py:46-117 | When such a run has drained, the audit table holds every outbox row exactly once and nothing else. |
| `Conservation.LostForever` | audit-service/apps/audit/kafka_consumer.py:59-119 | A settled row with no copy in a client buffer or at or above a committed offset, and not audited, is never audited by any continuation. |
| `Conservation.ReachableIffNotLost` | audit-service/apps/audit/kafka_consumer.py:59-119 | A settled row can still reach the audit table if and only if a copy of it is buffered, lies at or above a committed offset, or is audited already. |
| `Conservation.BufferedStays` | claims-service/apps/outbox/management/commands/run_outbox_relay.py:54-59 | A buffered message leaves its buffer only into a partition or because the client gives it up. |
| `Conservation.AheadStays` | audit-service/apps/audit/kafka_consumer.py:86-117 | A message above the committed offset stays there until it is stored, unless the table refuses it or a commit jumps over passed messages. |
| `Conservation.WaysToLose` | audit-service/apps/audit/kafka_consumer.py:89-117 | Only these steps can lose an event: the client gives up a settled row's last copy, a batch commits with an undelivered row, the audit table refuses its message, or an offset commit jumps over messages passed without one. |
| `Conservation.RelayCommitIsSafeIff` | claims-service/apps/outbox/management/commands/run_outbox_relay.py:81 | A relay commit keeps "PUBLISHED means in the broker log" if and only if every message the batch produced has reached the log, which the code does not look at. |
| `Conservation.EmptyClientDecides` | claims-service/apps/outbox/management/commands/run_outbox_relay.py:52-81 | What the relay itself can see: in every run whose clients give up no message of an open batch, a commit is safe if no message of its batch is left in the relay's own client, and only then unless such a message has another copy in the log. |
| `Conservation.OffsetCommitIsSafeIff` | audit-service/apps/audit/kafka_consumer.py:89-108 | An offset commit, after a success or an IntegrityError, keeps "everything below the offset is audited" if and only if each message since the last commit, its own included, is audited or repeats one that this call stores. |
| `Conservation.UndrainedFlushLoses` | claims-service/apps/outbox/management/commands/run_outbox_relay.py:54-81 | A concrete failing run: flush delivers nothing, the batch commits, the client dies; the row is PUBLISHED and no continuation ever audits it. |
| `Conservation.DropInOpenBatchLoses` | claims-service/apps/outbox/management/commands/run_outbox_relay.py:54-81 | A failing run for that hypothesis: the client gives the message up before the commit, the commit finds an empty buffer, and no continuation ever audits the PUBLISHED row; an answer of zero from flush would not be enough. |
| `Conservation.PassedMessageIsLost` | audit-service/apps/audit/kafka_consumer.py:89-117 | A failing run from any sound state: a message whose insert raises, followed by one that completes, is lost for good when nothing else holds a copy. |
| `Conservation.RefusedMessageIsLost` | audit-service/apps/audit/kafka_consumer.py:99-107 | A message refused by a constraint other than the event id is committed past, and lost for good when nothing else holds a copy. |
| `Ordering.OpenedInOrder` | claims-service/apps/outbox/management/commands/run_outbox_relay.py:43-47 | With one relay an opened batch contains every earlier PENDING event of a lane before any later one. |
| `Ordering.OrderlyRunOrdered` | claims-service/apps/outbox/management/commands/run_outbox_relay.py:41-84 | With one relay and no produce failure every buffer, partition and the audit table stay ordered within each aggregate and topic, in every such run. |
| `Ordering.AuditFollowsCommitOrder` | claims-service/apps/outbox/management/commands/run_outbox_relay.py:43-61 | The audited events of an aggregate and topic, in audit order, are a prefix of its committed events in commit order, and all of them once drained. |
| `Ordering.TwoRelaysReorder` | claims-service/apps/outbox/management/commands/run_outbox_relay.py:43-47 | Any two relays on one outbox, among however many: a run that keeps every other hypothesis audits the later event first, because SKIP LOCKED lets the second relay pass the row the first one holds. |
| `Ordering.InOrderIffSoleRelays` | claims-service/apps/outbox/management/commands/run_outbox_relay.py:41-84 | The audit log follows the commit order in every orderly run, whatever the partitioner, if and only if no outbox has two relays. |
| `Ordering.FailedProduceReorders` | claims-service/apps/outbox/management/commands/run_outbox_relay.py:53-76 | No failing produce is needed: with one relay, a produce call that raises for an event and succeeds for the aggregate's next one in the same batch audits the later event alone, in an otherwise clean run. |
| `Ordering.EqualTimesReorder` | claims-service/apps/outbox/management/commands/run_outbox_relay.py:43-47 | Distinct created_at values are needed: with one relay and no failing produce, two events of an aggregate with equal times can be audited in the reverse order. |
| `Claims.ClaimService.constructor` | claims-service/apps/claims/services.py:18-25 | The service starts with no claim, history or outbox row. |
| `Claims.ClaimService.FileClaim` | claims-service/apps/claims/services.py:27-59 | Filing adds one FILED claim with its number, its first history entry and its claim.filed row, written out, together; when verification refuses, or the generated number is taken, it adds nothing and says which. |
| `Claims.ClaimService.TransitionStatus` | claims-service/apps/claims/services.py:61-123 | Succeeds exactly for the five allowed pairs of the caller's (possibly stale) status and the new one, approvals only with an amount; then status, amount, history entry and outbox rows, written out, change together on the locked row; a refusal changes nothing and says which check failed. |
| `Claims.EveryInterleavingAgrees` | claims-service/apps/claims/services.py:27-123 | Under every interleaving of stale reads and locked writes: the last entry is the stored status, the amount is the last approval's, every entry is a VALID_TRANSITIONS edge from a status held before, and a claim's outbox rows are exactly the image of its history. |
| `Claims.LegalAt` | claims-service/apps/claims/services.py:19-25 | Each transition of such a history is an allowed edge from a status the claim held earlier, with an amount whenever it approves. |
| `Claims.Edge` | claims-service/apps/claims/services.py:19-25 | A transition is allowed if and only if it raises the rank by one; none enters FILED or leaves RESOLVED, and every other status has a way on. |
| `Claims.AmountIffApproved` | claims-service/apps/claims/services.py:77-92 | approved_amount is non-null if and only if some history entry is APPROVED. |
| `Claims.OutboxCounts` | claims-service/apps/claims/events.py:20-75 | A claim's outbox rows count one claim.filed, one claim.status_changed per transition and one claim.resolved per RESOLVED entry. |
| `Claims.ConnectedIffFresh` | claims-service/apps/claims/services.py:68-89 | A run leaves every history a connected path if and only if each write found the stored status equal to the status its request had read, the re-check the code does not make. |
| `Claims.RankIsPosition` | claims-service/apps/claims/services.py:19-25 | In a connected history the i-th entry has rank i. |
| `Claims.ConnectedHistory` | claims-service/apps/claims/services.py:19-25 | A connected history has at most four entries, RESOLVED ends it, APPROVED and REJECTED never both occur, and it has at most one RESOLVED entry. |
| `Claims.CanBeResolved` | claims-service/apps/claims/services.py:19-25 | From any state every claim, whatever its status, can be brought to RESOLVED by requests that overlap nothing and leave the other claims alone. |
| `Claims.OverlapBreaksTheMachine` | claims-service/apps/claims/services.py:68-104 | A concrete run of overlapping requests: FILED, UNDER_REVIEW, APPROVED, RESOLVED, and then REJECTED. |
| `ClaimMetrics.GetMetrics` | claims-service/apps/claims/services.py:147-166 | claims_by_status gives every status its exact count in the table the first query saw, zeros included, adding up to that table's size; open_claims is the total less RESOLVED of the table the second query saw; the two fit together if and only if the number of open claims did not change in between. |
| `ClaimMetrics.CountsPartition` | claims-service/apps/claims/services.py:147-166 | The per-status counts add up to the number of claims, and open plus RESOLVED is that number too. |
| `ClaimMetrics.OpenDrifts` | claims-service/apps/claims/services.py:147-166 | Over any run between the two queries open_claims moves by the claims filed or reopened by a stale write less those closed, so open plus RESOLVED is the counted total if and only if these are equal. |
| `ClaimMetrics.BalancedIffConnected` | claims-service/apps/claims/services.py:99-104 | For legal histories, the counts equal entries in minus entries out for every status if and only if every history is a connected path; gaps of different claims cannot cancel. |
| `ClaimMetrics.FlowConservedIffFresh` | claims-service/apps/claims/services.py:61-166 | In every run the flow of the metrics is conserved if and only if no transition was written on a stale status. |
| `Replay.ReplayOfPrefix` | claims-service/apps/claims/services.py:99-113 | Replaying the first m transitions of a connected history never fails and gives the status held after the m-th. |
| `Replay.ClaimTransitions` | claims-service/apps/claims/events.py:34-51 | The committed claim.status_changed payloads of a claim are exactly the (from, to) pairs of its transitions, in order. |
| `Replay.TrailReplays` | audit-service/apps/audit/services.py:13-43 | The audit rows filed under a claim's id carry a prefix of its transitions and replay to a status it held. |
| `Replay.AuditedStatusIsReal` | claims-service/apps/claims/services.py:61-117 | End to end: for any run of the claims service without stale writes and any orderly run of the pipeline on its outbox, the audited status changes are the claim's first m transitions, replay without failing to the status held after the m-th, and give the current status once drained. |
| `Policies.Service.constructor` | policy-service/apps/policies/services.py:22-33 | The service starts with no policy and no outbox row. |
| `Policies.Service.CreatePolicy` | policy-service/apps/policies/services.py:35-77 | A known customer gets one ACTIVE policy with its number and coverage rows and one policy.created row announcing its columns, together; an unknown customer or a taken number gets nothing. |
| `Policies.Service.CancelPolicy` | policy-service/apps/policies/services.py:79-109 | Succeeds exactly when both the caller's status and the stored one under the lock are ACTIVE or SUSPENDED: the row becomes CANCELLED with the caller's reason and its other columns kept, and one policy.cancelled row carries that reason; otherwise nothing changes. |
| `Policies.Service.UpdatePolicy` | policy-service/apps/policies/services.py:111-133 | Succeeds exactly when the caller's object is ACTIVE or SUSPENDED: the updatable fields present in the request are laid over the stored columns, status, reason and other rows stay, and one event announces the caller's object, or none when no such field is present. |
| `Policies.Service.SetFields` | policy-service/apps/policies/services.py:119-123 | The loop over the updatable fields notes exactly those present in the request and sets them on the object, in any order. |
| `Policies.StatusMoves` | policy-service/apps/policies/services.py:79-133 | A successful cancel of a policy makes an ACTIVE or SUSPENDED row CANCELLED with the call's reason and its columns kept; no other call moves its status or its reason. |
| `Policies.CancelledIsForever` | policy-service/apps/policies/services.py:79-133 | Under every interleaving with stale objects a CANCELLED policy stays CANCELLED with the same reason, and a status changes only to CANCELLED. |
| `Policies.CancelledOnce` | policy-service/apps/policies/services.py:87-101 | In every interleaving at most one cancel of a policy succeeds; the policy is CANCELLED exactly when one did, the outbox then holds exactly one policy.cancelled row for it, and that row carries the stored reason. |
| `Policies.CancelledForReason` | policy-service/apps/policies/services.py:87-101 | In every run a CANCELLED policy was cancelled by one call of the run, and the stored reason and its one policy.cancelled row both carry that call's reason. |
| `Policies.UpdatesCommuteIff` | policy-service/apps/policies/services.py:119-129 | Two updates leave the same stored row in either order, whatever objects they were loaded into, if and only if they agree on the fields both set. |
| `Policies.NoLateUpdateIffFresh` | policy-service/apps/policies/services.py:111-133 | In every run no policy.updated row follows the policy.cancelled row of its policy if and only if each update that wrote something found the stored policy not CANCELLED, the re-check under a lock that only cancel_policy makes. |
| `Policies.StaleUpdateAfterCancel` | policy-service/apps/policies/services.py:111-133 | A concrete run outside that condition: an object loaded before a cancellation still updates the cancelled row, and its policy.updated event says ACTIVE. |
| `CrossService.VerifyPolicy` | claims-service/apps/claims/clients.py:48-88 | Which replies lead to which outcome, each of the four as an if-and-only-if, bodies without is_valid, of another shape or not JSON included: accepted, inactive (with the status reported), unavailable, or an exception no clause catches. |
| `CrossService.VerifyAgainst` | policy-service/apps/policies/services.py:135-147 | Client and endpoint together: an ACTIVE policy is accepted, any other existing one inactive with its own status, an unknown one inactive without. |
| `CrossService.ClaimsWereVerified` | claims-service/apps/claims/services.py:27-41 | Every committed claim has a verification that began when the policy was not cancelled, read it as ACTIVE, and came before the commit. |
| `CrossService.NoClaimAfterCancel` | claims-service/apps/claims/services.py:27-41 | A verification begun once the policy is cancelled never leads to a claim, in any continuation. |
| `CrossService.FilingRemembersBegin` | claims-service/apps/claims/services.py:27-30 | The beginning recorded with a filing is the moment its verification was begun, in any continuation. |
| `CrossService.FaultFilesNothing` | claims-service/apps/claims/clients.py:67-82 | A call that the network, the breaker or the server answered keeps that answer and cannot file a claim. |
| `CrossService.ActiveAtCommitIff` | claims-service/apps/claims/services.py:27-41 | When a claim commits its policy is ACTIVE if and only if no cancel of that policy succeeded between the read of the verification and the commit, and CANCELLED otherwise. |
| `CrossService.ClaimOnCancelledPolicy` | claims-service/apps/claims/services.py:27-41 | A concrete run outside that condition: a policy cancelled between the read and the commit still gets the claim. |
| `Notifications.Worker.constructor` | notification-service/apps/notifications/kafka_consumer.py:119-149 | The worker starts with no notification and no task. |
| `Notifications.Worker.HandleMessage` | notification-service/apps/notifications/kafka_consumer.py:119-149 | For each combination of faults: the task is enqueued unless insert or delay raises, the PENDING row is stored unless the commit raises too, and the offset is committed exactly for a stored row or an IntegrityError, duplicate or not, unless that commit raises, which ends the consumer after an IntegrityError. |
| `Notifications.Worker.SendEmailNotification` | notification-service/apps/notifications/tasks.py:19-123 | One execution: nothing for a missing row or a failed rendering; sending gives SENT, the time and a success entry; a failure gives FAILED, a failure entry and, below three retries, the next attempt queued. |
| `Notifications.HandlerIsARun` | notification-service/apps/notifications/kafka_consumer.py:119-149 | What the handler may do to rows and queue is what its steps do in the interleaved system. |
| `Notifications.EveryRowHasOneTask` | notification-service/apps/notifications/kafka_consumer.py:121-130 | In every run no event has two notifications, every committed notification had its task enqueued exactly once, and every queued task comes from one of those. |
| `Notifications.OrphanTaskDoesNothing` | notification-service/apps/notifications/tasks.py:26-34 | Once its transaction has rolled back an id never enters the table in any continuation, and its tasks, whenever and however often they run, change no notification and are not queued again. |
| `Notifications.LogsAgree` | notification-service/apps/notifications/tasks.py:49-106 | With one run per enqueued attempt each log is attempts 1..k with k at most 4, all failures except possibly the last; SENT, FAILED and PENDING agree with the last entry; and each queued task carries the next attempt of its row. |
| `Notifications.SpoiledByActions` | notification-service/apps/notifications/tasks.py:26-46 | A task counts as spoiled exactly when some execution of it came before its row was committed or raised while rendering. |
| `Notifications.FinishedIffNeverSpoiled` | notification-service/apps/notifications/tasks.py:26-106 | In every such run a committed notification with no task left was sent or has failed four times if and only if no execution of its task came before the commit or failed to render. |
| `Notifications.DrainedNotifications` | notification-service/apps/notifications/tasks.py:49-106 | Once the queue is empty, the notifications never spoiled are exactly those that were sent or failed four times. |
| `Notifications.LogsAgreeIffInStep` | notification-service/config/celery.py:11-15 | In every run, redeliveries after a late acknowledgement included, all logs and statuses agree if and only if every execution past rendering found its retry count equal to the attempts logged, an attempt left, and the row not SENT, a guard the task could check. |
| `Notifications.SentAtIsLastSend` | notification-service/apps/notifications/tasks.py:97-106 | In every run, redeliveries included, sent_at is the time of the last execution that sent the e-mail, and NULL if none did. |
| `Notifications.RedeliverySendsTwice` | notification-service/config/celery.py:11-15 | A concrete run outside that condition: a worker dies after sending and before acknowledging, the e-mail goes out twice and the log holds attempt 1 twice. |
| `Notifications.StrandedForever` | notification-service/apps/notifications/kafka_consumer.py:121-130 | A committed notification whose task is gone never changes again. |
| `Notifications.EarlyTaskStrandsTheRow` | notification-service/apps/notifications/kafka_consumer.py:121-130 | A concrete failing run: the task is enqueued before the commit, a worker takes it in between and finds nothing, and the notification stays PENDING in every continuation. |
| `Numbers.PaddedRoundTrip` | claims-service/apps/claims/models.py:17-24 | int() undoes the six-digit padded format for every n. |
| `Numbers.SixDigitsIff` | claims-service/apps/claims/models.py:24 | The padded number has six characters if and only if n < 10^6. |
| `Numbers.OrderIsValue` | claims-service/apps/claims/models.py:14 | Between digit strings of one length, string order is numeric order. |
| `Numbers.BelowMillion` | claims-service/apps/claims/models.py:14 | Below 10^6 padded numbers sort as numbers. |
| `Numbers.MillionSortsLow` | claims-service/apps/claims/models.py:14 | 1000000 sorts below 999999, which is where the order breaks. |
| `Numbers.NumberRoundTrip` | claims-service/apps/claims/models.py:18 | Both readers, the last part after a split and SPLIT_PART with a 32-bit cast, recover the suffix of every formatted number (the cast up to 2^31 - 1). |
| `Numbers.ReadersRead` | claims-service/apps/claims/models.py:18 | What the two readers take from any string: the part after the last dash, and the part after the second dash up to the third, capped at 2^31 - 1. |
| `Numbers.NumberText` | claims-service/apps/claims/models.py:9-24 | A claim number, written out: CLM-2025-000007. |
| `Numbers.SameNumber` | claims-service/apps/claims/models.py:7-24 | Two formatted numbers are equal if and only if year and suffix are. |
| `Numbers.PrefixSelectsYear` | claims-service/apps/claims/models.py:8-13 | The year's prefix matches a number if and only if it belongs to that year. |
| `Numbers.LastIsMaximal` | claims-service/apps/claims/models.py:11-16 | The row the query returns is one no matching row sorts above. |
| `ClaimNumbers.NumberedHas` | claims-service/apps/claims/models.py:7-24 | A number is stored if and only if its suffix is between 1 and the year's count. |
| `ClaimNumbers.LastOfYear` | claims-service/apps/claims/models.py:11-16 | With k claims of the year stored the string maximum is number k, and stays 999999 when k reaches 10^6. |
| `ClaimNumbers.GeneratedNumber` | claims-service/apps/claims/models.py:7-24 | The generator answers k + 1 while k < 10^6 and 1000000 from then on. |
| `ClaimNumbers.FreshIffBelowMillion` | claims-service/apps/claims/models.py:7-24 | The generated number is not yet stored if and only if the year holds fewer than 10^6 claims. |
| `ClaimNumbers.FreeIffNext` | claims-service/apps/claims/models.py:70-73 | A number generated earlier is still free if and only if it is the next one of its year; the later of two overlapping filings is refused. |
| `ClaimNumbers.NumbersAreContiguous` | claims-service/apps/claims/models.py:7-24 | In every interleaving of generated, saved, refused and rolled-back filings of all years, each year's stored numbers are exactly 1..k in filing order, with no gap and no repeat, and k never exceeds 10^6. |
| `ClaimNumbers.OnlySavesStore` | claims-service/apps/claims/models.py:7-24 | In every run reading holds the year's next number, or the ceiling; saving stores the held number exactly when it is free; rolling back stores nothing; both let go of it. |
| `ClaimNumbers.StoredBySaves` | claims-service/apps/claims/models.py:70-73 | In every run the stored claims are as many as the saves that found their number free. |
| `ClaimNumbers.SerialFiling` | claims-service/apps/claims/models.py:7-24 | Filed one after the other, exactly the first 10^6 attempts of a year succeed and every later one is refused. |
| `PolicySequence.SeedIsTheMaximum` | policy-service/apps/policies/migrations/0002_policy_number_sequence.py:9-12 | The seed is defined exactly when every stored number has an integer third part, and is then their least upper bound. |
| `PolicySequence.Sequence.constructor` | policy-service/apps/policies/migrations/0002_policy_number_sequence.py:7 | A created sequence starts before 1. |
| `PolicySequence.Sequence.Seed` | policy-service/apps/policies/migrations/0002_policy_number_sequence.py:8-13 | Seeding succeeds if and only if every suffix is a 32-bit integer and some suffix is not zero, so it fails on an empty table; it then sets the sequence to a stored suffix no other exceeds. |
| `PolicySequence.Sequence.GeneratePolicyNumber` | policy-service/apps/policies/models.py:32-39 | Each call advances the sequence by one and formats it with the year, until the sequence is exhausted. |
| `PolicySequence.DrawsGoUp` | policy-service/apps/policies/models.py:35-39 | In every interleaving, with rollbacks and year changes, the i-th number drawn has suffix seed + i. |
| `PolicySequence.ProducedAreDistinct` | policy-service/apps/policies/models.py:35-39 | No two draws of any run give the same number, whatever their years. |
| `PolicySequence.AvoidsIffNotAhead` | policy-service/apps/policies/migrations/0002_policy_number_sequence.py:9-12 | The sequence avoids the numbers stored at the start in every run if and only if none of them has a suffix ahead of it. |
| `PolicySequence.SavesAreNeverRefused` | policy-service/apps/policies/models.py:91-94 | In every interleaving a held number is neither stored nor held by another client, so no save meets the unique constraint. |
| `PolicySequence.OnlySavesStore` | policy-service/apps/policies/models.py:91-94 | In every run a draw holds the sequence's next number, a save of a held number always stores it, and nothing else stores or removes one. |
| `PolicySequence.SeededIsSafe` | policy-service/apps/policies/migrations/0002_policy_number_sequence.py:8-13 | After seeding, for any table and any run, no number drawn meets a stored one and no save is refused. |
| `EventStream.EventStreamClient.constructor` | frontend/lib/ws/client.ts:31-41 | The client starts idle, with a backoff of one second. |
| `EventStream.EventStreamClient.Connect` | frontend/lib/ws/client.ts:43-47 | connect() up to its await: a fetch is started unless the client is destroyed. |
| `EventStream.EventStreamClient.OnToken` | frontend/lib/ws/client.ts:47-57 | The rest of connect(): nothing after destroy, a reconnect timer without a token, else a new socket in the ws field. |
| `EventStream.EventStreamClient.OnOpen` | frontend/lib/ws/client.ts:59-62 | Opening resets the backoff. |
| `EventStream.EventStreamClient.OnError` | frontend/lib/ws/client.ts:82-84 | An error makes that socket, whichever the ws field names, closing, and changes nothing else. |
| `EventStream.EventStreamClient.OnClose` | frontend/lib/ws/client.ts:74-80 | A close clears the ws field and sets a timer unless destroyed. |
| `EventStream.EventStreamClient.OnTimer` | frontend/lib/ws/client.ts:90-92 | A timer that fires calls connect() again. |
| `EventStream.EventStreamClient.ScheduleReconnect` | frontend/lib/ws/client.ts:87-93 | Sets one timer after the capped backoff and doubles the backoff up to the cap. |
| `EventStream.EventStreamClient.Destroy` | frontend/lib/ws/client.ts:95-100 | Marks the client destroyed, clears the timer it knows and closes the socket it knows; every other timer and socket stays as it was. |
| `EventStream.LiveConserved` | frontend/lib/ws/client.ts:43-93 | Each callback before destroy() replaces one live thing (fetch, unclosed socket, pending timer) by another; only the caller's connect() adds one. |
| `EventStream.OneLivePerConnect` | frontend/lib/ws/client.ts:43-93 | In every callback order before destroy() the live things number exactly the connect() calls made, so one is live if and only if connect() was called once. |
| `EventStream.ErroredGoesDown` | frontend/lib/ws/client.ts:74-84 | A socket that has errored is closing at once, and closing or closed in every continuation. |
| `EventStream.QuietAfterDestroy` | frontend/lib/ws/client.ts:43-100 | After destroy() no socket, timer or fetch is ever created and nothing closed comes back, in every continuation. |
| `EventStream.RunsDown` | frontend/lib/ws/client.ts:43-100 | After destroy() each answered fetch, closed socket and fired timer uses up one live thing. |
| `EventStream.DestroyTearsDownIff` | frontend/lib/ws/client.ts:95-100 | destroy() leaves no pending timer and no socket that was not told to close if and only if its two fields name every such timer and socket. |
| `EventStream.SingleClientTearsDown` | frontend/lib/ws/client.ts:30-101 | With at most one connect() the fields name everything live until destroy(), which therefore tears everything down, in every callback order. |
| `EventStream.SecondConnectLeaks` | frontend/lib/ws/client.ts:43-100 | After two connect() calls destroy() closes only the newer socket. |
| `EventStream.DelaysDouble` | frontend/lib/ws/client.ts:87-93 | In every run the k-th delay since a socket last opened is min(1000 * 2^k, 30000) milliseconds. |
| `EventsStore.StoreIsTheNewest` | frontend/lib/stores/eventsStore.ts:14-24 | After any sequence of push and clear the store is exactly the newest min(500, m) of the m events pushed since the last clear, newest first. |

## Left out

- Django and DRF views, serializers, admin, settings, middleware, health checks, logging, Prometheus counters and templates: plumbing around the modelled calls. A metrics call that raises inside the relay's try block is therefore not modelled.
- PostgreSQL itself: atomic commit and rollback, row locks, SKIP LOCKED, immediate unique checks, a sequence that neither repeats nor rolls back, and a byte-wise collation for claim numbers are assumed.
- confluent_kafka, Celery, httpx and pybreaker: what a call answers (accepts or raises, delivers some prefix, the breaker answers or not) is a parameter of the method or an action of the transition system, and every answer is covered; the breaker's own states and the retry countdown are not modelled.
- Consumer-group rebalancing: each partition has one consumer; a restart resets every position to the committed offset.
- JSON encoding is taken as lossless and payloads as carrying their event id; a malformed message is one the handler rejects before its insert or the table refuses. uuid4 gives fresh ids, so outbox rows are keyed by the payload's event id.
- Columns that no modelled branch reads: last_error, published_at, occurred_at, names, e-mails, descriptions, claim notes and the claim and policy numbers inside payloads.
- `avg_resolution_days`, `claims_today`, the policy service's own metrics and all querysets for listing: arithmetic over clocks or plain filters.
- The absent channel layer of the audit broadcast: the model always has one.
- A transition to RESOLVED inserts its two outbox rows in one transaction; the pipeline inserts them in two steps, which allows strictly more runs.
- An e-mail task that dies between saving the status and inserting its log row: one execution is one step, and a worker lost after it is the unacknowledged execution.
- `int()` of a claim number accepts digits only (no sign, blanks or underscores), and CharField lengths are not checked; neither matters for numbers the services generate.
- onMessage and onState callbacks and frame parsing of the WebSocket client, and the Next.js pages around it: no state of the client depends on them.
- JWT, gateway, rate limiting, proxy routes, seeding commands and load tests: nothing stateful to prove.
- The locking query of a relay batch runs inside the database: its answer is a parameter of the batch method, required to be one the query may give.
- Subject, context and recipient of a notification: text built from the payload.
