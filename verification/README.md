# OpsHub core protocols, modelled and proved

OpsHub is an internal operations platform: approvals, access grants, assets, roles, sessions and the
outboxes that tell the rest of the world about them. This project models the parts of it whose
correctness is a property of whole runs rather than of one method, and proves those properties for
every input and every run.

Each source class that changes state is a Dafny class with the same methods. A method's contract ties
the new state to a transition function of the old one; the results are lemmas about every sequence of
such transitions.

| file | what it models |
|---|---|
| `RateLimit.dfy` | the Redis sliding-window script, with key expiry and drifting clocks |
| `OutboxRelay.dfy` | the single-flight guard of every outbox relay and its wake-up flag |
| `EmailRelay.dfy` | batches, bounded retries and how long a due row can wait |
| `WebhookDelivery.dfy` | back-off, the attempt cap, rollbacks and manual retries of a delivery |
| `NotificationRelay.dfy` | many relay workers, SKIP LOCKED, sends outside the transaction, lost transactions |
| `NotificationOutcomes.dfy` | how its rows advance and are given up, and that what it creates is pushed |
| `RequestEngine.dfy` | the universal request engine: items, approvals log, outbox, webhook fan-out, hooks |
| `RequestReplay.dfy` | what every serial run of it keeps: log, event stream and row agree |
| `RequestDecisions.dfy` | who decided and why, separation of duties, conservation of the fan-out |
| `RequestOutcomes.dfy` | what each call does and to whom it listens, and what a row says of its submit and its end |
| `RequestInterleaved.dfy` | the engine with many calls in flight between their read and their commit |
| `AccessRequests.dfy` | the access-request tables, coupled to the engine through its hooks |
| `AccessGrants.dfy` | how many grants a request gets, half-finished submits included |
| `AccessDecisions.dfy` | who granted an access request, when, and for how long |
| `Authz.dfy` | permission resolution, the per-user cache, scope matching |
| `AuthzStaleness.dfy` | how old an answer can be, with edits and resolves interleaved |
| `AuthzAdmin.dfy` | assignments, revocations, role creation, reconciliation with an identity provider |
| `AuthzClosure.dfy` | the escalation guard as a property of whole runs |
| `Sessions.dfy` | refresh-token families, replay detection, offboarding and reactivation |
| `Assets.dfy` | assets and their assignment history |
| `Offboarding.dfy` | the five-table clean-up of an approved offboarding |
| `OffboardingGrants.dfy` | runs in which offboardings and access requests meet |
| `Common.dfy` | options, row selection and cardinality |

`dafny verify dfyconfig.toml` checks everything.

## Conventions

Tables are sequences or maps and a row's position or key is its id; ids, tokens and families are fresh
when generated. Time is an integer in milliseconds, passed to a call as a parameter. Whether a send, a
query or a foreign hook succeeds is a parameter or a choice of step. Durations, limits, delays and
attempt caps are those of the source.

Serial means one call at a time. The request engine and the permission cache are also modelled with
reads and writes as separate steps, because their sources read before they write; the relay worker
protocol is modelled with every await as a separate step.

## Where the code and its promises part

- `retryDelivery` is documented as the way to retry a failed delivery. It does not reset `attempts`, and
  the relay only fetches rows below the cap, so a failed delivery is never attempted again
  (`WebhookDelivery.ManualRetryWorksIff`, `FailedIsNeverAttempted`, `RetryOfFailedWitness`).
- Separation of duties is documented as requester and approver being different people. With an active
  delegation the subject compared with the requester is the delegator, so a requester who is somebody's
  delegate may decide their own request (`RequestDecisions.RequesterDecidesIff`, `RequesterApprovesOwn`).
- The engine's transactions check nothing again. A commit acts as a call made at that moment would exactly
  when the row is still what it read, its delegation still answers and its guards still pass
  (`RequestInterleaved.CommitIsSerialIff`). Each of the three can fail: `StaleApprovalsRevive`,
  `LapsedDelegationCommits`, `LapsedPermissionCommits`.
- The role administration promises immediate enforcement. That holds exactly when no resolve of the user
  that was in flight at the change, and has been ever since, can still store at the invalidation a map that
  has not been true again in between (`AuthzStaleness.FreshAfterInvalidateIff`, `InFlightReadSurvives`).
- Granting a role again with a new expiry is accepted and answered with an assignment, but an equivalent
  row that has expired is returned as it is, so the grant has no effect until that row is revoked
  (`AuthzAdmin.AssignTakesEffectIff`, `RegrantOfExpiredRole`). The same row is kept by a reconciliation
  (`SyncReconciles`).
- A submit of an access request that stops between the engine call and the backlink leaves a row that
  the service decides directly, without the chain, and the inbox decides again
  (`AccessGrants.HalfSubmittedGrantsTwice`). Right grants stay right exactly if the request is not such a row
  with an open engine request that the service has approved or still may (`GrantsStayMatchedIff`).
- Offboarding revokes an employee's grants but not their open access requests, and approving one later
  grants again, whatever their status (`OffboardingGrants.OffboardedHoldsIff`, `OpenRequestStillGrants`; a
  run that does so is `OffboardedWithOpenRequest`, continued by `OffboardedIsGranted`). If nobody submits for
  them any more they stay without a grant exactly if, at the approval, they had no open request and no
  undecided row without an engine request (`OffboardedStaysWithoutIff`).
- A service approval of an access request promises a grant. It has none to return unless it decided the
  last step (`AccessRequests.ApproveAnswersGrantIffFinal`, `AccessGrants.FirstApprovalAnswersNothing`).
- Offboarding puts an asset back in stock but leaves its holder on record, and such an asset cannot be
  assigned until it is unassigned or retired (`Assets.StrandedExactly`, `StrandedStaysUnassignable`,
  `OffboardingStrands`).

## Model

| member | source | states |
|---|---|---|
| `RateLimit.SlidingWindow.Eval` | libs/platform/src/rate-limit/rate-limit.guard.ts:34-54 | one evaluation of the script leaves the key and the reply that the script specification gives, key expiry and the empty-set error included |
| `RateLimit.SlidingWindow.OldestStamp` | libs/platform/src/rate-limit/rate-limit.guard.ts:50 | the smallest score in the set |
| `RateLimit.AdmissionsAreBounded` | libs/platform/src/rate-limit/rate-limit.guard.ts:34-54 | no interval of length window - d holds more than limit admissions when callers' clocks may run back by d < window in all; with exact clocks that is every window, although the set is pruned and the key expires |
| `RateLimit.ScriptRefinesReference` | libs/platform/src/rate-limit/rate-limit.guard.ts:40-52 | every request is decided, to the remaining count and the wait, as by a limiter that keeps all past admissions and counts those in (now - window, now] |
| `RateLimit.DeniedUntilOldestLeaves` | libs/platform/src/rate-limit/rate-limit.guard.ts:49-52 | after a denial that saw oldest stamp o, every request before o + window is denied |
| `RateLimit.RetryAfterIsExact` | libs/platform/src/rate-limit/rate-limit.guard.ts:50-52 | a request after exactly the announced wait is admitted if nobody else was since o + window; the wait overshoots by less than a second and lies between 1 and the window in seconds, rounded up |
| `RateLimit.ScriptErrorOnlyWithoutLimit` | libs/platform/src/rate-limit/rate-limit.guard.ts:45-51 | in every run, whatever the clocks and the window, the script fails on the missing oldest score if and only if the limit is not positive, as no configured limit is |
| `OutboxRelay.RelayGuard.Relay` | libs/platform/src/outbox/abstract-outbox-relay.ts:103-108 | a call during a run only sets the wake flag; otherwise it takes the guard and opens a run |
| `OutboxRelay.RelayGuard.Settle` | libs/platform/src/outbox/abstract-outbox-relay.ts:143-151 | the finally block frees the guard and turns a set wake flag into exactly one scheduled follow-up |
| `OutboxRelay.RelayGuard.FireImmediate` | libs/platform/src/outbox/abstract-outbox-relay.ts:147-149 | a scheduled follow-up is one ordinary call |
| `OutboxRelay.SingleFlight` | libs/platform/src/outbox/abstract-outbox-relay.ts:103-113 | over every run one relay instance has at most one transaction open |
| `OutboxRelay.NoCallIsForgotten` | libs/platform/src/outbox/abstract-outbox-relay.ts:103-106 | every call is answered by a transaction opened at or after it, or is still remembered by the flag or a scheduled follow-up |
| `OutboxRelay.NoLostWakeUp` | libs/platform/src/outbox/abstract-outbox-relay.ts:143-151 | once nothing is left to do, every earlier call has been answered by a transaction that started at or after it, whichever runs threw |
| `OutboxRelay.AnsweredAfterOneRun` | libs/platform/src/outbox/abstract-outbox-relay.ts:103-106 | however many calls keep coming, a call that opens no transaction is answered by the very next step after the first transaction that settles, and a follow-up is already waiting to be that step |
| `OutboxRelay.BacklogShrinks` | libs/platform/src/outbox/abstract-outbox-relay.ts:143-151 | without new calls the number of remaining steps is bounded and ends in quiescence |
| `OutboxRelay.BurstSchedulesOneFollowUp` | libs/platform/src/outbox/abstract-outbox-relay.ts:103-106 | any number of calls during one run adds one follow-up, and none adds none |
| `EmailRelay.EmailOutbox.FetchBatch` | libs/modules/notifications/src/application/email-relay.service.ts:68-83 | the batch holds distinct fetchable rows, earliest first, at most batchSize, and leaves out only rows no earlier than those taken |
| `EmailRelay.EmailOutbox.RelayBatch` | libs/platform/src/outbox/abstract-outbox-relay.ts:119-136 | each row of the batch ends sent, pending with one more attempt, or failed at the cap |
| `EmailRelay.BatchRow` | libs/platform/src/outbox/abstract-outbox-relay.ts:119-136 | a pass changes each row of the batch once, by its own outcome, and no other row |
| `EmailRelay.BatchDrains` | libs/platform/src/outbox/abstract-outbox-relay.ts:126-130 | processing never raises the remaining attempts of the rows ahead, and lowers them by one for each of them in the batch |
| `EmailRelay.RetryFairness` | libs/modules/notifications/src/application/email-relay.service.ts:68-113 | with p fetchable rows scheduled no later, a due row is processed by pass floor(p * maxAttempts / batchSize) + 1 and sent or failed within floor(p * maxAttempts / batchSize) + maxAttempts, however rows ahead fail and ties fall |
| `EmailRelay.RowsTellTheirSends` | libs/platform/src/outbox/abstract-outbox-relay.ts:119-136 | over every run of one worker a row is sent if and only if a send of it succeeded, which happens at most once, failed if and only if all its attempts threw, and has as many attempts as sends that threw |
| `WebhookDelivery.DeliveryTable.MarkSent` | libs/modules/webhooks/src/application/webhook-relay.service.ts:106-111 | only the named row becomes delivered |
| `WebhookDelivery.DeliveryTable.MarkFailed` | libs/modules/webhooks/src/application/webhook-relay.service.ts:113-131 | the row takes the given status and count, due after the delay of that count, or now when it failed |
| `WebhookDelivery.DeliveryTable.RelayFailure` | libs/platform/src/outbox/abstract-outbox-relay.ts:126-130 | one failed request adds one attempt and fails the row at the fifth |
| `WebhookDelivery.DeliveryTable.RetryDelivery` | libs/modules/webhooks/src/application/webhooks.service.ts:99-107 | the row is pending and due now with its attempts unchanged; an unknown id is reported |
| `WebhookDelivery.AttemptsCountFailures` | libs/modules/webhooks/src/application/webhook-relay.service.ts:61-70 | attempts equals the committed failures and never exceeds 5, whatever is rolled back or retried by hand |
| `WebhookDelivery.AttemptsWaitForBackoff` | libs/modules/webhooks/src/application/webhook-relay.service.ts:113-130 | without manual retries the attempt after 0, 1, 2, 3 or 4 failures comes no earlier than 0, 1, 6, 21 or 81 minutes after creation |
| `WebhookDelivery.FailedTakesFiveFailures` | libs/modules/webhooks/src/application/webhook-relay.service.ts:10 | without manual retries a row is failed if and only if it has 5 committed failures, and then at least 4860 s have passed |
| `WebhookDelivery.ManualRetryWorksIff` | libs/modules/webhooks/src/application/webhooks.service.ts:96-107 | in every run a manual retry makes the row due if and only if its attempts, the failures so far, are not used up |
| `WebhookDelivery.FailedIsNeverAttempted` | libs/modules/webhooks/src/application/webhooks.service.ts:96-107 | a delivery that has failed is never attempted again, whatever is retried by hand |
| `WebhookDelivery.RetryOfFailedWitness` | libs/modules/webhooks/src/application/webhooks.service.ts:96-107 | a concrete run: five refusals, a manual retry, and the row is pending but never due |
| `WebhookDelivery.AttemptSettles` | libs/modules/webhooks/src/application/webhook-relay.service.ts:106-131 | a committed attempt leaves the row delivered, or with one more failure and due 1, 5, 15 or 60 minutes later, or failed with the fifth; a rolled-back one leaves it as it was |
| `WebhookDelivery.AttemptsAreDue` | libs/modules/webhooks/src/application/webhook-relay.service.ts:42-68 | over every run a delivery is due from its creation, and an attempt is made only on a pending row that is due, while its subscription is active |
| `NotificationRelay.NotificationTable.ExistsBySourceEventId` | libs/modules/notifications/src/application/notifications.service.ts:24 | answers whether a notification of the source exists |
| `NotificationRelay.NotificationTable.Create` | libs/modules/notifications/src/application/notifications.service.ts:27 | appends one notification, or none when the unique index on the source objects |
| `NotificationRelay.NotificationTable.Send` | libs/modules/notifications/src/application/notifications.service.ts:20-28 | afterwards the source has a notification, and one was created if and only if it had none |
| `NotificationRelay.AtMostOneNotification` | libs/modules/notifications/src/application/notification-relay.service.ts:101-136 | for any number of workers, batches, rollbacks and lost transactions, two notifications never share a source event; the unique index on the source carries this one |
| `NotificationRelay.DispatchedRowsAreNotified` | libs/modules/notifications/src/application/notification-relay.service.ts:101-143 | a row committed as dispatched was suppressed by a preference or has exactly one notification |
| `NotificationRelay.PushedOnceAfterCommit` | libs/platform/src/outbox/abstract-outbox-relay.ts:112-142 | a notification is pushed at most once, and only after its outbox row is committed as dispatched |
| `NotificationRelay.LocksStayExclusive` | libs/modules/notifications/src/application/notification-relay.service.ts:94-98 | rows locked by one live worker are never held by another, and stay pending until it commits |
| `NotificationOutcomes.RowsAdvance` | libs/platform/src/outbox/abstract-outbox-relay.ts:119-136 | over every run a row changes only by a commit, and then from pending to dispatched as it is, or to one more failed attempt |
| `NotificationOutcomes.DeadAtFiveAttempts` | libs/platform/src/outbox/abstract-outbox-relay.ts:126-130 | over every run a row is given up if and only if it has five failed attempts, and never has more |
| `NotificationOutcomes.CreatedIsPushed` | libs/platform/src/outbox/abstract-outbox-relay.ts:123-140 | a worker that creates a notification, marks its row sent next and commits without having lost its transaction releases exactly one push of it |
| `NotificationOutcomes.ReleasedIsPushedOrDropped` | libs/platform/src/outbox/abstract-outbox-relay.ts:138-140 | a released push waits until it is done or fails |
| `RequestEngine.Engine.Register` | libs/platform/src/requests/request-registry.ts:16-19 | the first definition of a type wins |
| `RequestEngine.Engine.Enqueue` | libs/platform/src/webhooks/webhook-enqueue.service.ts:23-53 | one outbox row, and one delivery row for each subscription that is active and lists the event |
| `RequestEngine.Engine.FindActiveDelegationTo` | libs/platform/src/authz/delegation.service.ts:122-136 | finds a delegation if and only if some row is to the actor, has started and has not ended, and then one that is and has |
| `RequestEngine.Engine.Submit` | libs/platform/src/requests/request-engine.service.ts:57-123 | the item, its deadline, its event and its deliveries, or the refusal and nothing written |
| `RequestEngine.Engine.GuardDecision` | libs/platform/src/requests/request-engine.service.ts:270-299 | the guards of a decision, in the order they are checked, with delegation and union of permissions |
| `RequestEngine.Engine.Approve` | libs/platform/src/requests/request-engine.service.ts:127-266 | row, log, hook, event and deliveries of an intermediate or final approval, or the refusal and nothing written |
| `RequestEngine.Engine.Reject` | libs/platform/src/requests/request-engine.service.ts:270-342 | row, log, hook, event and deliveries of a rejection, or the refusal and nothing written |
| `RequestEngine.Engine.Cancel` | libs/platform/src/requests/request-engine.service.ts:346-384 | the requester or an administrator closes an open request, or the refusal and nothing written |
| `RequestEngine.Engine.Expire` | libs/platform/src/requests/request-engine.service.ts:388-411 | an open request expires; a settled one is left alone without an error |
| `RequestEngine.Engine.GroupApprovals` | libs/platform/src/requests/request-engine.service.ts:478-490 | the one-pass grouping gives every listed request exactly the approvals getById selects for it |
| `RequestEngine.MaxStep` | libs/platform/src/requests/request-engine.service.ts:138 | an upper bound of the step numbers that is one of them |
| `RequestReplay.LogReplaysToRow` | libs/platform/src/requests/request-engine.service.ts:163-196 | over every serial run the log of a request is approved steps 1..k in order, then at most one rejection at the current step, and status, step, resolution time and step count follow from it |
| `RequestReplay.LogIsOrdered` | libs/platform/src/requests/request-engine.service.ts:423-427 | the steps of a request's log strictly increase, so the query's order by step and time is the order the log was written in |
| `RequestReplay.DecisionsAreBounded` | libs/platform/src/requests/request-engine.service.ts:549-556 | a request takes at most as many accepted decisions as its chain has steps |
| `RequestReplay.StreamReconstructsRow` | libs/platform/src/requests/request-engine.service.ts:242-245 | a request's events are submitted, step_approved 1..k, then at most one terminal event, and folding them gives the row's status and step |
| `RequestReplay.TerminalAbsorbs` | libs/platform/src/requests/request-engine.service.ts:549-556 | nothing about a settled request, its log or its events ever changes again |
| `RequestReplay.DefinitionsAreFixed` | libs/platform/src/requests/request-registry.ts:16-19 | a registered definition never changes under its requests |
| `RequestReplay.TotalStepsIsLast` | libs/platform/src/requests/request-engine.service.ts:76 | the stored step count is the step that decides, whenever the steps are 1..n in any order |
| `RequestReplay.StepKeepsInv` | libs/platform/src/requests/request-engine.service.ts:163-248 | every call keeps log, stream and row of every request in agreement |
| `RequestDecisions.DecisionsAreJustified` | libs/platform/src/requests/request-engine.service.ts:136-160 | each row of the log was written by a call at which the step's permission was held by the approver or the recorded delegator, a delegator is recorded if and only if a delegation to the approver had started and not ended, that delegator's, and, without self-approval, the subject was not the requester |
| `RequestDecisions.PermissionOfStep` | libs/platform/src/requests/request-engine.service.ts:136-137 | a step needs the permission its definition lists, wherever in the list it stands |
| `RequestDecisions.PermissionOfGap` | libs/platform/src/requests/request-engine.service.ts:134-137 | without a chain, and at a step the chain does not list, the permission is the type's own |
| `RequestDecisions.RequesterDecidesIff` | libs/platform/src/requests/request-engine.service.ts:142-160 | without self-approval a requester may decide their own request if and only if they act under a delegation and one of the two holds the permission |
| `RequestDecisions.RequesterApprovesOwn` | libs/platform/src/requests/request-engine.service.ts:142-149 | a concrete run in which a requester approves their own request as a delegate |
| `RequestDecisions.PurgeKeepsLookups` | libs/platform/src/authz/delegation.service.ts:139-144 | purging ended delegations never changes a later lookup |
| `RequestDecisions.FanoutIsConserved` | libs/platform/src/webhooks/webhook-enqueue.service.ts:23-53 | for every event of a run its delivery rows are in bijection with the subscriptions active and subscribed to it when it was committed |
| `RequestDecisions.FanoutCounts` | libs/platform/src/webhooks/webhook-enqueue.service.ts:29-52 | one delivery for each subscription that wants the event, none for any other |
| `RequestOutcomes.DecisionTakesEffectIff` | libs/platform/src/requests/request-engine.service.ts:127-160 | over every run a decision is logged if and only if the request is open and of a known type, the actor or the delegator holds the step's permission, the subject is not the requester unless the type allows it, and the hook does not throw; or else nothing changes |
| `RequestOutcomes.DecisionRunsItsHook` | libs/platform/src/requests/request-engine.service.ts:200-237 | a decision runs one hook, for its request and actor at its time: onReject, or onApprove if and only if it settles the request |
| `RequestOutcomes.CancelTakesEffectIff` | libs/platform/src/requests/request-engine.service.ts:346-361 | over every run an open request of a known type is cancelled if and only if the caller is its requester or holds rbac.manage; or else nothing changes |
| `RequestOutcomes.CancelledByRequesterOrAdmin` | libs/platform/src/requests/request-engine.service.ts:350-368 | every cancelled request of a run was cancelled, when its row says, by its requester or by somebody who held rbac.manage then |
| `RequestOutcomes.ExpireTakesEffectIff` | libs/platform/src/requests/request-engine.service.ts:388-410 | an open request of a known type expires unless its hook throws; a settled one is passed over without an error |
| `RequestOutcomes.ExpiredByExpiry` | libs/platform/src/requests/request-engine.service.ts:388-399 | every expired request of a run was expired by an expiry call, when its row says |
| `RequestOutcomes.ResolutionIsRecorded` | libs/platform/src/requests/request-engine.service.ts:178-196 | over every run a decided request carries the time and the note of the last row of its log, an open one neither, and a cancelled or expired one no note |
| `RequestOutcomes.RowsAreAsSubmitted` | libs/platform/src/requests/request-engine.service.ts:57-98 | every request of a run was submitted by its requester, and its kind, payload and deadline, the caller's or the type's hours of 3600000 ms, are those of the submit |
| `RequestOutcomes.SubmitTakesEffectIff` | libs/platform/src/requests/request-engine.service.ts:63-84 | a submit adds a request if and only if its type is registered and its hook does not throw; or else nothing changes |
| `RequestOutcomes.HandedOnByResolver` | libs/platform/src/requests/request-engine.service.ts:165-183 | over every run the assignee of a request changes exactly when an approval that is not the last has a resolver that names somebody |
| `RequestInterleaved.StepsAreNeverSkipped` | libs/platform/src/requests/request-engine.service.ts:127-248 | however reads and commits interleave, an approval of step s has approvals of 1..s-1 before it, the current step stays in the chain, and a resolution time is set exactly in terminal statuses |
| `RequestInterleaved.CommitsAreCounted` | libs/platform/src/requests/request-engine.service.ts:346-408 | however reads and commits interleave, log rows are the committed decisions, events are the submission plus the commits, and onApprove ran once per approved event |
| `RequestInterleaved.CommitIsSerialIff` | libs/platform/src/requests/request-engine.service.ts:175-186 | in every run a commit has the effect of some uninterrupted call at that moment if and only if the row is open and, where the transaction writes what it read, at the step and with the assignee it read, the delegation lookup may still answer with the same delegator, and the guards still pass |
| `RequestInterleaved.StaleApprovalsRevive` | libs/platform/src/requests/request-engine.service.ts:163-186 | a concrete interleaving: a rejected request comes back approved and its onApprove hook runs twice |
| `RequestInterleaved.LapsedPermissionCommits` | libs/platform/src/requests/request-engine.service.ts:151-163 | a concrete interleaving: the permission is withdrawn after the guard, and the commit approves what a call made then would be refused |
| `RequestInterleaved.LapsedDelegationCommits` | libs/platform/src/requests/request-engine.service.ts:142-163 | a concrete interleaving: the delegation ends after the lookup, and the log records a delegate who no longer is one |
| `AccessRequests.AccessRequestService.OnApprove` | libs/modules/access-requests/src/application/access-request.type-def.ts:93-116 | the domain row is approved and one grant is written; when it starts and ends is `AccessDecisions.GrantsStartAtApproval` |
| `AccessRequests.AccessRequestService.OnReject` | libs/modules/access-requests/src/application/access-request.type-def.ts:118-129 | only the status and reviewer of the one row change |
| `AccessRequests.AccessRequestService.OnExpire` | libs/modules/access-requests/src/application/access-request.type-def.ts:131-136 | only the status of the one row changes |
| `AccessRequests.AccessRequestService.Submit` | libs/modules/access-requests/src/application/access-request.service.ts:35-71 | domain row, engine request and backlink, or a refusal that leaves the domain row alone |
| `AccessRequests.AccessRequestService.Approve` | libs/modules/access-requests/src/application/access-request.service.ts:89-137 | a pending row is decided by the engine with its hook, which may throw, a row without a backlink directly; answers with the newest grant, if there is one |
| `AccessRequests.AccessRequestService.EngineApprove` | libs/modules/access-requests/src/application/access-request.service.ts:102-104 | the approval through the engine: its refusals, and otherwise the engine's step with the domain hook's writes in the same transaction |
| `AccessRequests.AccessRequestService.NewestGrant` | libs/modules/access-requests/src/application/access-request.service.ts:129-136 | a grant of the request with the latest start, or none if there is none |
| `AccessRequests.AccessRequestService.Reject` | libs/modules/access-requests/src/application/access-request.service.ts:139-166 | the same for a rejection, answering with the row |
| `AccessRequests.AccessRequestService.RevokeGrant` | libs/modules/access-requests/src/application/access-request.service.ts:168-185 | the grant is marked, unless it is missing or already revoked |
| `AccessRequests.DomainFollowsEngine` | libs/modules/access-requests/src/application/access-request.type-def.ts:93-136 | for a fully submitted request approved, rejected and expired hold in the domain exactly when they do in the engine, and pending exactly when the engine row is pending, in review or cancelled |
| `AccessRequests.GrantNeedsBothSteps` | libs/modules/access-requests/src/application/access-request.type-def.ts:53-56 | a fully submitted request is granted only with an approved step 1 and an approved step 2 in its log, under the two permissions of the chain |
| `AccessRequests.ApproveAnswersGrantIffFinal` | libs/modules/access-requests/src/application/access-request.service.ts:102-136 | an accepted service approval returns a grant if and only if it decided the last step |
| `AccessRequests.StepKeepsInv` | libs/modules/access-requests/src/application/access-request.service.ts:35-166 | every call, by any route, keeps the two tables coupled |
| `AccessDecisions.IsEngineRun` | libs/modules/access-requests/src/application/access-request.service.ts:35-166 | every run of the service and the inbox is, for the engine, one of its own runs, state by state, so what holds of engine runs holds here |
| `AccessDecisions.GrantsAreVetted` | libs/modules/access-requests/src/application/access-request.type-def.ts:40-56 | a fully submitted request is granted only with a first approval by, or on behalf of, a holder of access_request.approve and a second of access_request.security_approve, neither subject being the requester |
| `AccessDecisions.GrantsStartAtApproval` | libs/modules/access-requests/src/application/access-request.type-def.ts:93-115 | every grant, by either route, was made by one approval, starts at the time of that approval, ends durationHours of 3600000 ms later, and is the requester's |
| `AccessDecisions.GrantStartsAtSecondApproval` | libs/modules/access-requests/src/application/access-request.type-def.ts:99-115 | a fully submitted request is granted from the very moment the second row of its log was written |
| `AccessDecisions.ReviewerIsLastApprover` | libs/modules/access-requests/src/application/access-request.type-def.ts:102-129 | over every run the reviewer of a fully submitted request is the approver of the last row of its log once decided, and nobody before or when it expires |
| `AccessDecisions.SubmittedToEngine` | libs/modules/access-requests/src/application/access-request.service.ts:35-59 | the engine request of a fully submitted one is its requester's, is about this row, and lapses 604800000 ms after the submit |
| `AccessDecisions.DirectDecision` | libs/modules/access-requests/src/application/access-request.service.ts:105-128 | a pending row without an engine request is decided by the service in the caller's name, and the engine is left alone |
| `AccessDecisions.GrantsEndByRevocation` | libs/modules/access-requests/src/application/access-request.service.ts:168-185 | a grant gets a revocation date exactly when it is revoked by name while it has none, and keeps it |
| `AccessGrants.GrantsStayMatchedIff` | libs/modules/access-requests/src/application/access-request.service.ts:102-128 | from any point of any run at which a request's grants are right, they stay right whatever follows if and only if it is not an unlinked row, pending or approved, whose engine request is open |
| `AccessGrants.OneGrantIffApproved` | libs/modules/access-requests/src/application/access-request.type-def.ts:99-115 | from then on there is exactly one grant, of exactly the requested length, if the request is approved and none otherwise, whether the service, the inbox or the cron drives it |
| `AccessGrants.WholeRowsAreSound` | libs/modules/access-requests/src/application/access-request.service.ts:35-59 | every row that knows its engine request, and every legacy row that never had one, has its grants right and is not such a row |
| `AccessGrants.HalfSubmittedGrantsTwice` | libs/modules/access-requests/src/application/access-request.service.ts:35-59 | a concrete run through the guarded routes: a submit dies before the backlink, its requester, a security officer, approves the row directly, and the inbox grants it again |
| `AccessGrants.FirstApprovalAnswersNothing` | libs/modules/access-requests/src/application/access-request.service.ts:129-136 | a run: the service accepts the first of two approvals and there is no grant to return |
| `AccessGrants.StepKeepsOneItem` | libs/modules/access-requests/src/application/access-request.service.ts:51-53 | no two engine requests belong to one row |
| `AccessGrants.StepKeepsSound` | libs/modules/access-requests/src/application/access-request.service.ts:35-166 | no call, by any route, spoils or exposes a row that is right and not exposed |
| `Authz.AuthzService.Resolve` | libs/platform/src/auth/authz.service.ts:43-80 | a live cache entry, or the grouped join stored for 300 s, or the empty map when the database fails |
| `Authz.AuthzService.Invalidate` | libs/platform/src/auth/authz.service.ts:83-85 | exactly the user's entry is dropped |
| `Authz.AuthzService.AnyMatches` | libs/platform/src/auth/scope-evaluator.ts:25-27 | true if and only if some granted scope is global, or is the principal's own and so is the resource, or names the resource's team, department or region |
| `Authz.AuthzService.Check` | libs/platform/src/auth/authz.service.ts:92-103 | the decision on the resolved map, wildcard included; with no live cache entry and a failing database the answer is no |
| `Authz.JoinExact` | libs/platform/src/auth/authz.service.ts:49-65 | a row is in the join if and only if an unexpired assignment of the user has it through its role |
| `Authz.GroupExact` | libs/platform/src/auth/authz.service.ts:67-71 | grouping keeps every row as often as it occurs and adds no key |
| `Authz.EffectiveExact` | libs/platform/src/auth/authz.service.ts:48-71 | a scope is listed under a permission if and only if an unexpired assignment gives it |
| `Authz.CheckIff` | libs/platform/src/auth/authz.service.ts:92-103 | on fresh data check is true if and only if some unexpired assignment's role carries the permission or *, and, whenever resource and principal are given, the resource is in its scope by the attribute of that scope's kind |
| `Authz.OneAttributeDecides` | libs/platform/src/auth/scope-evaluator.ts:12-22 | a user all of whose assignments are of one scope kind gets the same answer for any two resources that agree in that kind's attribute |
| `Authz.GlobalAndSelf` | libs/platform/src/auth/scope-evaluator.ts:17-18 | a global grant allows every resource, one for oneself exactly the resources one owns |
| `Authz.OneGroupOnly` | libs/platform/src/auth/scope-evaluator.ts:19-21 | a grant for a team, department or region allows exactly the resources of that team, department or region |
| `AuthzStaleness.AnswersAreRecent` | libs/platform/src/auth/authz.service.ts:43-74 | whatever is edited, revoked or expires, an answer that did not fail is the true effective map of some instant in the last 300 s, plus the time a resolve may sit between read and store |
| `AuthzStaleness.FreshAfterInvalidate` | libs/platform/src/auth/authz.service.ts:83-85 | with a change at one step and an invalidation after it, every later answer is the map of an instant after the change, unless a resolve in flight ever since the change can still store a map not true since |
| `AuthzStaleness.FreshAfterInvalidateIff` | libs/modules/authz/src/application/authz-admin.service.ts:158-161 | every answer of every continuation is the map of an instant after the change if and only if there is no such resolve at the invalidation |
| `AuthzStaleness.FirstResolveIsCurrent` | libs/modules/authz/src/application/authz-admin.service.ts:158-161 | then until the next change every answer reflects the tables the change left |
| `AuthzStaleness.InFlightReadSurvives` | libs/platform/src/auth/authz.service.ts:48-74 | how long it can last: from any run, a resolve in flight across a change is answered with the old map until the last millisecond of its 300 s |
| `AuthzStaleness.ResolveIsAStep` | libs/platform/src/auth/authz.service.ts:43-80 | the service's resolve is a hit, or a read and a store, of the interleaved model |
| `AuthzAdmin.AuthzAdminService.FindEquivalent` | libs/modules/authz/src/infrastructure/persistence/role-assignment.drizzle-repository.ts:70-86 | a row with the same user, role and scope, or none if there is none |
| `AuthzAdmin.AuthzAdminService.Assign` | libs/modules/authz/src/infrastructure/persistence/role-assignment.drizzle-repository.ts:49-68 | one row per user, role and scope: an equivalent row is returned unchanged, otherwise one is added |
| `AuthzAdmin.AuthzAdminService.Revoke` | libs/modules/authz/src/infrastructure/persistence/role-assignment.drizzle-repository.ts:88-90 | exactly the row with the id is deleted |
| `AuthzAdmin.AuthzAdminService.SyncEmployeeRoleClaims` | libs/modules/authz/src/infrastructure/persistence/role-assignment.drizzle-repository.ts:92-110 | returns and stores the user's claims |
| `AuthzAdmin.AuthzAdminService.AssignRole` | libs/modules/authz/src/application/authz-admin.service.ts:129-177 | refuses in order an unknown role, a role beyond the actor's permissions, and a team, department or region without an id; otherwise the assignment has the scope asked for, global by default and with an id exactly for those three, and the claims and a cache from which the next resolve is current follow |
| `AuthzAdmin.AuthzAdminService.RevokeAssignment` | libs/modules/authz/src/application/authz-admin.service.ts:239-255 | the row is gone, the claims follow and the next resolve of its user is current; a missing id changes nothing |
| `AuthzAdmin.AuthzAdminService.CreateRole` | libs/modules/authz/src/application/authz-admin.service.ts:67-82 | refuses in order a key that is taken, a permission outside the catalog and a repeated permission, with nothing written; otherwise a new role with the given permissions |
| `AuthzAdmin.AuthzAdminService.SyncUserRolesByKeys` | libs/modules/authz/src/application/authz-admin.service.ts:191-237 | the tables are the reconciled ones, the claims are returned, and the next resolve of the user is current |
| `AuthzAdmin.AuthzAdminService.GrantMissing` | libs/modules/authz/src/application/authz-admin.service.ts:204-216 | one non-expiring global row for each desired role the user lacks |
| `AuthzAdmin.AuthzAdminService.RevokeExtra` | libs/modules/authz/src/application/authz-admin.service.ts:217-222 | exactly the user's global rows of roles not desired are gone |
| `AuthzAdmin.AuthzAdminService.DesiredRoleIds` | libs/modules/authz/src/application/authz-admin.service.ts:192-198 | the ids of the requested keys that name a role, each once |
| `AuthzAdmin.SyncReconciles` | libs/modules/authz/src/application/authz-admin.service.ts:191-225 | afterwards the user's global assignments are exactly the requested keys that name a role; scoped rows and other users' are untouched, a row already there is kept even if expired, new rows never expire, no role is held twice, and only this user's claims change |
| `AuthzAdmin.SyncIsIdempotent` | libs/modules/authz/src/application/authz-admin.service.ts:191-225 | a second sync with the same keys changes no table |
| `AuthzAdmin.ClaimsExact` | libs/modules/authz/src/infrastructure/persistence/role-assignment.drizzle-repository.ts:92-109 | the claims are strictly sorted and hold a key if and only if an unexpired assignment has a role with it |
| `AuthzAdmin.ClaimsFollowChanges` | libs/modules/authz/src/infrastructure/persistence/role-assignment.drizzle-repository.ts:92-110 | after a grant, a revocation or a sync the user's claims are sorted and hold a key if and only if an unexpired assignment has a role with it, and nobody else's claims change |
| `AuthzAdmin.BeforeIsLexicographic` | libs/modules/authz/src/infrastructure/persistence/role-assignment.drizzle-repository.ts:104 | the order of the claims: a proper prefix comes first, or else the first differing character decides |
| `AuthzAdmin.SortedIsUnique` | libs/modules/authz/src/infrastructure/persistence/role-assignment.drizzle-repository.ts:104 | a strictly sorted list is determined by its elements, so the order of the database's rows cannot matter |
| `AuthzAdmin.ReconciledExact` | libs/modules/authz/src/application/authz-admin.service.ts:200-222 | what granting the missing and revoking the extra leaves, row by row |
| `AuthzAdmin.AssignedIsValid` | libs/modules/authz/src/infrastructure/persistence/role-assignment.drizzle-repository.ts:49-68 | an insert keeps one row per user, role and scope |
| `AuthzAdmin.WithoutExact` | libs/modules/authz/src/infrastructure/persistence/role-assignment.drizzle-repository.ts:88-90 | deleting by id removes exactly the row with that id and keeps one row per user, role and scope |
| `AuthzAdmin.AssignTakesEffectIff` | libs/modules/authz/src/infrastructure/persistence/role-assignment.drizzle-repository.ts:49-53 | after an accepted grant its user holds it unexpired if and only if no equivalent row has expired |
| `AuthzAdmin.RegrantOfExpiredRole` | libs/modules/authz/src/infrastructure/persistence/role-assignment.drizzle-repository.ts:49-53 | a role that has expired is granted again without an expiry and is still not held |
| `AuthzAdmin.AssignChangesExactly` | libs/modules/authz/src/application/authz-admin.service.ts:149-161 | a grant gives its user exactly what the added row gives, and nothing if an equivalent row was there |
| `AuthzAdmin.RevokeChangesExactly` | libs/modules/authz/src/application/authz-admin.service.ts:239-246 | after a revocation everybody has exactly what the other assignments give |
| `AuthzAdmin.CreateChangesNobody` | libs/modules/authz/src/application/authz-admin.service.ts:67-82 | a new role carries exactly the permissions asked for, and nobody's permissions change |
| `AuthzClosure.PermissionsNeverGrow` | libs/modules/authz/src/application/authz-admin.service.ts:264-276 | without a wildcard in circulation at the start, and with existing role definitions fixed, no run of assignments, revocations, role creations, resolves and passing time brings into any user's hands, the cache or a resolve in flight a permission that was in none of them |
| `AuthzClosure.GuardStaysWithin` | libs/modules/authz/src/application/authz-admin.service.ts:264-276 | a guard that passed on any answer, however stale, clears a role only of permissions in circulation |
| `Sessions.AuthService.Login` | libs/modules/identity/src/application/auth.service.ts:73-79 | an active employee gets a token in a new family, others a refusal |
| `Sessions.AuthService.MintTokens` | libs/modules/identity/src/application/auth.service.ts:250-263 | one unrevoked row in the family with the configured lifetime |
| `Sessions.AuthService.RevokeById` | libs/modules/identity/src/infrastructure/persistence/refresh-token.drizzle-repository.ts:31-36 | exactly that token is revoked |
| `Sessions.AuthService.Refresh` | libs/modules/identity/src/application/auth.service.ts:178-215 | the refusals in order and what each of them still writes, or the rotation |
| `Sessions.AuthService.Logout` | libs/modules/identity/src/application/auth.service.ts:218-223 | a live token is revoked, anything else is ignored |
| `Sessions.AuthService.UpdateStatus` | libs/modules/identity/src/application/employee.service.ts:87-103 | the status changes and offboarding revokes every token; an unchanged status does nothing |
| `Sessions.FamiliesAreSound` | libs/modules/identity/src/application/auth.service.ts:178-263 | over every run the tokens of a family belong to one employee, at most one is unrevoked, and an offboarded employee has no unrevoked token |
| `Sessions.LoginSucceedsIff` | libs/modules/identity/src/application/auth.service.ts:73-79 | a login succeeds, and changes anything, if and only if the employee is known and active or on leave |
| `Sessions.LoginStartsFamily` | libs/modules/identity/src/application/auth.service.ts:73-79 | a login adds one unrevoked row, of the configured days of 86400000 ms, in a family no other row has, and changes nothing else |
| `Sessions.OffboardedCannotLogIn` | libs/modules/identity/src/application/auth.service.ts:244-247 | whoever is offboarded, by either route, is refused at every login until their status is changed |
| `Sessions.StatusFollows` | libs/modules/identity/src/application/employee.service.ts:87-103 | an employee's status is what the last change of it said, and nobody else's changes with it |
| `Sessions.RefreshSucceedsIff` | libs/modules/identity/src/application/auth.service.ts:178-214 | a refresh succeeds if and only if the token is stored, unrevoked and unexpired: the owner check that follows never refuses; an unknown token and a replayed one are told apart |
| `Sessions.InactiveOwnerSpendsToken` | libs/modules/identity/src/application/auth.service.ts:206-214 | in any state, reachable or not, a refresh whose owner is gone or offboarded is refused and still spends the token |
| `Sessions.RefreshRotates` | libs/modules/identity/src/application/auth.service.ts:206-214 | after a refresh the new token is the family's only unrevoked one |
| `Sessions.ReplayAndLogoutKill` | libs/modules/identity/src/application/auth.service.ts:186-188 | using a revoked token, or logging out with the live one, leaves the family without an unrevoked token |
| `Sessions.SessionsAreSeparate` | libs/modules/identity/src/application/auth.service.ts:178-223 | a refresh or logout leaves other families' rows alone, a change of status other employees', and a clean-up deletes exactly the rows that are revoked and expired |
| `Sessions.DeadFamilyIsRefusedForever` | libs/modules/identity/src/application/auth.service.ts:186-200 | from then on every token ever issued in the family is refused, whatever follows |
| `Sessions.OffboardingEndsSessions` | libs/modules/identity/src/application/employee.service.ts:94-103 | no token issued before an offboarding, by either route, ever refreshes again, reactivation included |
| `Sessions.StepKeepsInv` | libs/modules/identity/src/application/auth.service.ts:178-263 | every call keeps families sound |
| `Assets.AssetService.Create` | libs/modules/assets/src/application/asset.service.ts:29-44 | a new asset in stock, unless the tag is taken |
| `Assets.AssetService.Assign` | libs/modules/assets/src/application/asset.service.ts:60-95 | the refusals in order, or the asset marked and an open row added |
| `Assets.AssetService.Unassign` | libs/modules/assets/src/application/asset.service.ts:97-121 | the asset is in stock with no holder and its open rows are closed, or a refusal |
| `Assets.AssetService.Retire` | libs/modules/assets/src/application/asset.service.ts:123-148 | the asset is retired with no holder, or a refusal |
| `Assets.TablesAgree` | libs/modules/assets/src/infrastructure/persistence/asset.drizzle-repository.ts:78-112 | over every run an asset is assigned if and only if it has an open assignment row, that row is unique and its employee is the holder on record |
| `Assets.AssetFollows` | libs/modules/assets/src/application/asset.service.ts:60-148 | what every step makes of every asset: assigned to whom it was given, in stock with nobody after an unassign, retired with nobody after a retirement, each exactly when its guards allow, in stock with its holder on record after that holder's offboarding, and otherwise as it was |
| `Assets.HistoryIsExact` | libs/modules/assets/src/infrastructure/persistence/asset.drizzle-repository.ts:78-105 | a history row is written by the assignment it records and closed once, at the time of its asset's unassign or its employee's offboarding; no other row changes |
| `Assets.TagsAreUnique` | libs/modules/assets/src/application/asset.service.ts:29-33 | over every run no two assets carry the same tag |
| `Assets.StepKeepsInv` | libs/modules/assets/src/infrastructure/persistence/asset.drizzle-repository.ts:78-112 | every operation, the bulk return of an offboarding included, keeps the two tables in agreement |
| `Assets.StrandedExactly` | libs/modules/workforce/src/application/offboarding.type-def.ts:83-97 | an asset is in stock with a holder on record exactly after the offboarding of that holder, until it is unassigned or retired |
| `Assets.StrandedStaysUnassignable` | libs/modules/assets/src/application/asset.service.ts:70-72 | until then it cannot be assigned to anyone |
| `Assets.OffboardingStrands` | libs/modules/workforce/src/application/offboarding.type-def.ts:83-97 | a run: an asset is created, assigned and returned by its holder's offboarding, and is in stock with that holder on record |
| `Offboarding.OffboardingTypeDef.OnApprove` | libs/modules/workforce/src/application/offboarding.type-def.ts:56-104 | the five tables after the approval |
| `Offboarding.OffboardingTypeDef.ReturnAssets` | libs/modules/workforce/src/application/offboarding.type-def.ts:83-97 | the employee's open rows are closed and exactly the assets they held are in stock |
| `Offboarding.OffboardingTypeDef.RevokeTokens` | libs/modules/workforce/src/application/offboarding.type-def.ts:100-103 | every token of the employee is revoked, no other changes |
| `Offboarding.OffboardingIsComplete` | libs/modules/workforce/src/application/offboarding.type-def.ts:56-104 | the employee is offboarded and has no role assignment, unrevoked grant, open asset assignment or unrevoked token; what was live ends at the time of the approval and is otherwise as it was |
| `Offboarding.OffboardingIsFramed` | libs/modules/workforce/src/application/offboarding.type-def.ts:56-104 | no row of anybody else changes, earlier revocations and returns keep their date, and an asset changes if and only if the employee holds it |
| `Offboarding.OffboardingKeepsInvariants` | libs/modules/workforce/src/application/offboarding.type-def.ts:56-104 | the hook keeps the asset tables in agreement and the token families sound |
| `Offboarding.OffboardingIsIdempotent` | libs/modules/workforce/src/application/offboarding.type-def.ts:56-104 | running the hook again changes nothing |
| `OffboardingGrants.OffboardedHoldsIff` | libs/modules/workforce/src/application/offboarding.type-def.ts:56-104 | over joint runs, after an approved offboarding the employee holds a live grant if and only if some later step decided the last step of a request of theirs, or a row of theirs that knows no engine request, and no step after it revoked the grant it made, by name or in another approved offboarding of its grantee |
| `OffboardingGrants.StepGrants` | libs/modules/access-requests/src/application/access-request.type-def.ts:93-116 | a step adds a grant for an employee exactly if it is such a decision; no other step adds a grant, changes a grantee or takes back a revocation |
| `OffboardingGrants.StepRevokes` | libs/modules/workforce/src/application/offboarding.type-def.ts:76-80 | a grant is revoked after a step exactly if it was before, or the step revokes it by name or approves the offboarding of its grantee |
| `OffboardingGrants.OpenRequestStillGrants` | libs/modules/workforce/src/application/offboarding.type-def.ts:56-104 | from any point of any joint run at which an employee, offboarded or not, has an open access request, the run can go on without a new submit of theirs and with every status as it was, so that they hold a live grant |
| `OffboardingGrants.OffboardedStaysWithoutIff` | libs/modules/workforce/src/application/offboarding.type-def.ts:56-104 | when an offboarding has just been approved, every continuation without a submit for the employee ends with no live grant of theirs if and only if they have no open access request and no undecided row without an engine request |
| `OffboardingGrants.OffboardedWithOpenRequest` | libs/modules/workforce/src/application/offboarding.type-def.ts:56-104 | a run: an active employee asks for access, is offboarded by an approved request, and the access request is still open |
| `OffboardingGrants.OffboardedIsGranted` | libs/modules/access-requests/src/application/access-request.type-def.ts:93-116 | that run goes on until the offboarded employee holds a live grant |

## Left out

- RateLimit.AdmissionsAreBounded: is stated for windows longer than the clock drift; a caller's clock further off than the window is not covered.
- RequestReplay.LogReplaysToRow: is a serial result; under interleaved calls only the facts of `RequestInterleaved` hold.
- RequestEngine.Engine.GroupApprovals: lists approvals in the order they were written; `RequestReplay.LogIsOrdered` shows that in serial runs this is the query's order.
- RequestEngine.Engine.Submit: leaves out priority, the SLA deadline and the notification of the assignee, which nothing modelled here reads.
- RequestEngine.Engine.Approve: takes the answer of a step's assignee resolver, and whether a hook throws, as parameters, and leaves out scheduled notifications and afterApprove.
- RequestEngine.Engine.Reject: takes whether the hook throws as a parameter and leaves out the requester's notification.
- AccessRequests.AccessRequestService.Approve: its route's permission guard is a condition on runs (`AccessRequests.Legal`), since the source checks it before the service is called.
- AccessRequests.AccessRequestService.Reject: the same.
- AccessRequests.DomainFollowsEngine: is a serial result, since the engine does not check a row again when it commits.
- OffboardingGrants.OffboardedHoldsIff: speaks of offboardings approved as requests; a change of status alone revokes no grant in the source.
- AuthzAdmin.AuthzAdminService.SyncUserRolesByKeys: is one uninterrupted call; two syncs of one user at a time are not modelled.
- AuthzClosure.PermissionsNeverGrow: assumes that no existing role is redefined or deleted and that the identity-provider sync, which bypasses the guard by design, does not run.
- Sessions.AuthService.UpdateStatus: leaves out the fast-revocation key it sets in the cache, which only shortens an access token's life.
- Sessions.FamiliesAreSound: is a serial result; two refreshes of one token at the same moment are not modelled.
- Access tokens, their signature and the fast-revocation key a logout sets.
- Identity-provider login beyond the mint and the role reconciliation it shares with the other login.
- Rows the engine's notifications scheduler, the audit log and the asset outbox events write beside the modelled ones.
- The query for requests past their deadline, and delegation create and revoke: create's two guards are what runs assume of delegations.
- Request comments, SLA deadlines, priorities, list filters and paging, and afterApprove hooks, which run outside the transaction.
- Columns that nothing reads back: lastError, sentAt, deliveredAt, reviewedAt, updatedAt, notes, access type and target.
- What a rate-limited route does when Redis is unavailable (it lets the request through) and how bucket keys are chosen.
- A cache read that throws, which the source passes on to the caller, and a corrupt cache entry, which it ignores.
- Leave, overtime, onboarding and catalog request types: the same engine with simpler hooks.
- Webhook signatures, HTTP and subscription management, which reach the model as accepted or refused requests and as changing subscription sets.
- Timesheets, licenses, compliance findings, reports, storage and file uploads: independent guards and aggregates.
