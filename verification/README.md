# Proofs about the auth server's protocols

This project models the protocols that the server runs over its database tables, and proves what they keep
over whole runs. A table is a map; a row is a datatype; the clock is a parameter; UUIDs and random tokens are
fresh numbers; hashes and encryption are injective. Every request or transaction is one step, and a run is any
sequence of steps: requests and workers interleave freely, and a worker may stop for good between two of its steps.

Each protocol has two faces. The functions named `After…` say what one step does to the tables, and lemmas prove
properties of every run of them. The classes carry the source's methods, which update the tables step by step,
and each method is proved to do exactly what its `After…` function says. What a single step answers, and what it leaves
in which column, is stated a second time and independently of its definition: in the literal numbers, keys and status
codes of the source, as a caller can observe it.

| files | what they model |
|---|---|
| `Devices.dfy` | devices, push tokens and consent |
| `Deliveries.dfy`, `OverlappingRecords.dfy`, `DeliveryWorker.dfy` | the claim / send / record protocol of notification deliveries, with serial and with overlapping records |
| `WebhookOutbox.dfy`, `WebhookRuns.dfy`, `WebhookDispatcher.dfy` | the leased outbox of permission webhooks |
| `Permissions.dfy`, `PermissionAnswers.dfy`, `PermissionRuns.dfy`, `PermissionUpgrade.dfy`, `PermissionServices.dfy` | permission changes, their event log, the strict-upgrade check |
| `TokenRecords.dfy`, `TokenAnswers.dfy`, `TokenRuns.dfy`, `TokenGrace.dfy`, `TokenLockout.dfy`, `TokenCleanup.dfy`, `TokenServices.dfy` | codes, login transactions and refresh-token families |
| `JsonText.dfy`, `StableJson.dfy` | JSON text and canonical JSON |
| `NotificationSend.dfy`, `SendRuns.dfy`, `SendService.dfy` | idempotent sends and the purge of their keys |
| `UriText.dfy`, `ActionPaths.dfy`, `ActionTargets.dfy` | percent encoding, canonical action paths, patterns |
| `Base32.dfy`, `Totp.dfy` | base32 secrets and one-time codes |
| `Inbox.dfy` | keyset pagination |
| `Signup.dfy` | sliding-window limits and the guess cap |
| `Prelude.dfy` | shared vocabulary |

## Assumptions

- One shared clock for database and servers, which does not run backwards. The window limits of signup do not need this.
- In `Deliveries.dfy` a `recordResult` is one serial step. The source locks only its own row before it counts siblings,
  so two records can overlap: `OverlappingRecords.dfy` splits the step and says exactly when the status survives. There
  the three counts of one record see one moment.
- Signup's check and insert are one step, as are the read and the save of a manual webhook retry.
- A signup guess is one step. The source reads the row, increments and saves it without lock or transaction;
  `Signup.AtMostFiveMisses` and `Signup.GuessBudget` depend on this.
- `migrate` of a permission is one step. It locks only the assignments it saw before its bulk update;
  `PermissionRuns.StepReportsTheChange` and `PermissionRuns.LogReplaysToThePresent` depend on this.
- `authorizeWithAccount` checks the account and inserts the code in one step; `resetPassword` saves the account and
  revokes its tokens in one step.
- A refresh or code grant is **not** one step: consuming the credential and inserting the new token are two, with
  anything in between. What this costs is stated exactly, as an if-and-only-if. The checks of a grant belong to the
  first of the two steps.
- `PERMISSION_WEBHOOK_MAX_ATTEMPTS` and the webhook timeout are whole numbers of at least 1.
- Time exclusion of webhook POSTs holds in timely runs: the subscription lookup takes under 5 s, a POST is cut at
  its deadline, and an event is retried by hand only while no worker of that event is in flight.
  `WebhookRuns.RetryIsSafeExactly` shows that this last guard is the exact one.
- E-mail addresses and login ids come normalized.

## Where the code differs from what one might expect

- `docs/auth-flows.md` says a used refresh token gets one more rotation inside the grace window. The code writes
  nothing on that path, so it gets any number (`TokenGrace.AnyNumberOfRotations`).
- A token holder that is not active is refused before replay detection, so a replay by a disabled account changes
  nothing: a replay revokes the family exactly when its holder is active (`TokenRuns.ReplayKillsTheFamily`).
- The token endpoint never reads the status of the account behind a code, so a live code of a disabled account opens a
  new family (`TokenLockout.DisabledAccountsCodeStillOpens`). A lockout is complete exactly when the account has no live
  code and no grant by code on the way (`TokenLockout.LockoutIsCompleteIff`).
- Two overlapping records can leave a finished notification `accepted` for good (`OverlappingRecords.MissingRun`,
  `OverlappingRecords.MissedForGood`).
- A manual retry during an open POST lets a second POST of the event start (`WebhookRuns.ManualRetryOverlaps`).
- Canonical JSON hides member order only if the key comparison is strict (`StableJson.OrderIsHiddenIffStrict`).
- The pattern `/**` matches the root alone (`ActionPaths.RootWildcardMatchesOnlyTheRoot`).
- One-time codes cannot be made once bit 31 of the counter is set (`Totp.CounterIsWrittenBigEndian`).
- Inbox cursors carry milliseconds; rows of one millisecond can fall between two pages (`Inbox.MicrosecondsLoseRows`).
- Equal ranks make the upgrade check depend on the order in which the database lists ties, and only they do
  (`PermissionUpgrade.DecidedIffRanksDistinct`); a permission that was left can then come back by approvals alone
  (`PermissionUpgrade.TiesLetAPermissionReturn`).

## Model

| member | source | states |
|---|---|---|
| Devices.RunKeepsInv | src/notifications/notification-devices.service.ts:32-83 | every run keeps: token, fingerprint and `active` together; deleted implies disabled; fingerprints unique; one row per account and installation; an enabled consent only on an active device of the same account |
| Devices.OnlyOptInEnables | src/notifications/notification-devices.service.ts:279-316 | one step: a consent that is off before it and on after it was switched on by an explicit opt-in of its owner; no other operation turns a consent on |
| Devices.EnabledMeansLiveConsent | src/notifications/notification-devices.service.ts:343-355 | an enabled consent goes back to an opt-in after which the device was never disabled |
| Devices.RejectionHitsOnlyTheSentToken | src/notifications/notification-devices.service.ts:228-254 | a rejected token disables a device exactly when the device still holds that token, and touches no other device or consent |
| Devices.RegistrationMovesTheToken | src/notifications/notification-devices.service.ts:45-61 | after registration the token has exactly one holder; a former holder is disabled with all its consents, every other device is untouched |
| Devices.ConsentIsAsAsked | src/notifications/notification-devices.service.ts:256-316 | a request for one device is accepted exactly for a member and a reachable device of the account; then the consent is on or off as asked, stamped with the moment, and nothing else changes |
| Devices.ConsentEverywhereIsAsAsked | src/notifications/notification-devices.service.ts:191-226 | a request for all devices is accepted exactly for a member; then every reachable device is on or off as asked, and no other consent changes |
| Devices.UpdateDoes | src/notifications/notification-devices.service.ts:120-152 | who may update; the name afterwards; turning off clears token and fingerprint, revokes and stamps every consent of the device and keeps the first disable time |
| Devices.RemoveDoes | src/notifications/notification-devices.service.ts:154-172 | removing does the same and marks the device deleted |
| Devices.RegisterDoes | src/notifications/notification-devices.service.ts:32-83 | the registered device is active and undeleted with the token, name, platform and moment given, and keeps its own consents |
| Devices.NotificationDevicesService.DisableDevice | src/notifications/notification-devices.service.ts:343-355 | clears token and fingerprint, keeps the first disable time, revokes every consent of the device |
| Devices.NotificationDevicesService.Register | src/notifications/notification-devices.service.ts:32-83 | the new tables are those of the registration step; the row found or created belongs to the account and holds the token |
| Devices.NotificationDevicesService.Update | src/notifications/notification-devices.service.ts:120-152 | renames or disables; activating a disabled device is refused; an error changes nothing |
| Devices.NotificationDevicesService.Remove | src/notifications/notification-devices.service.ts:154-172 | disables and marks deleted, for the owner only |
| Devices.NotificationDevicesService.SaveSubscription | src/notifications/notification-devices.service.ts:279-316 | sets the consent of one device and service as asked: on with its time and no revocation, or off with the time of the revocation |
| Devices.NotificationDevicesService.SetSubscription | src/notifications/notification-devices.service.ts:256-277 | refused unless owned, assigned and eligible; otherwise the consent is as asked |
| Devices.NotificationDevicesService.ActiveDevices | src/notifications/notification-devices.service.ts:191-226 | the locking query finds exactly the eligible devices of the account, and every enabled consent of the account is on one of them |
| Devices.NotificationDevicesService.SetSubscriptionForAllDevices | src/notifications/notification-devices.service.ts:191-226 | the loop leaves the consent of every eligible device as asked and counts them |
| Devices.NotificationDevicesService.DisableInvalidToken | src/notifications/notification-devices.service.ts:228-254 | disables only an active, undeleted device that still has the fingerprint |
| Deliveries.RunKeepsInv | src/notifications/notification-delivery-worker.service.ts:132-246 | under any interleaving, the attempt rows explain each delivery's state, claims are consistent, statuses are aggregates |
| Deliveries.OwnerNeverDuplicates | src/notifications/notification-delivery-worker.service.ts:186-202 | a worker that owns its claim always records: the unique index on attempt numbers never fires |
| Deliveries.AtMostSixAttempts | src/notifications/notification-delivery-worker.service.ts:204-236 | in every run a delivery has at most six attempt rows, strictly rising in number, only the last of them final |
| Deliveries.FinalIsAbsorbing | src/notifications/notification-delivery-worker.service.ts:204-236 | a delivered or terminal row, and its attempts, never change again |
| Deliveries.RetriesWait | src/notifications/notification-delivery-worker.service.ts:204-236 | after a recorded answer a delivery is due again exactly for a transient one to the first five attempts, and then from 1, 5, 15, 60 or 360 minutes on; any other answer ends it |
| Deliveries.AnswersEnd | src/notifications/notification-delivery-worker.service.ts:192-236 | delivered exactly on success, the terminal reason of every other end, the attempt row that is added, and that the rest of the row stays |
| Deliveries.DueAgain | src/notifications/notification-delivery-worker.service.ts:136-149 | a new delivery is due from the start, a claimed one again after more than ten minutes of silence |
| Deliveries.ClaimsTheEarliest | src/notifications/notification-delivery-worker.service.ts:136-153 | no due unlocked row comes before the claimed one: earliest due time, rows without one first, then the oldest |
| Deliveries.LostClaimChangesNothing | src/notifications/notification-delivery-worker.service.ts:186-192 | a worker without its claim token changes no table, now or at any later moment |
| Deliveries.ReclaimSupersedes | src/notifications/notification-delivery-worker.service.ts:134-163 | claiming a delivery again takes the claim from every earlier worker |
| Deliveries.RecordEndsClaim | src/notifications/notification-delivery-worker.service.ts:204-236 | recording uses the claim up |
| Deliveries.RefreshAggregates | src/notifications/notification-delivery-worker.service.ts:248-277 | comparing three counts writes exactly delivered, partial or failed once all siblings are final, and nothing before |
| Deliveries.StatusIsTheAggregate | src/notifications/notification-delivery-worker.service.ts:204-276 | with serial records: a notification is accepted iff a delivery is open, else delivered / failed / partial as its deliveries say, and a final status never changes |
| Deliveries.RejectionDisablesOnlyTheSentToken | src/notifications/notification-delivery-worker.service.ts:237-243 | recording changes the device tables iff the claim is owned, the answer is `invalid_token`, and the device still holds the token that was sent |
| Deliveries.DispatchReducesWork | src/notifications/notification-delivery-worker.service.ts:76-112 | one claim and record lowers the open work, whatever is answered and however the clock moves |
| OverlappingRecords.UnoverlappedIsSerial | src/notifications/notification-delivery-worker.service.ts:181-246 | begun and committed at once, a record of two steps is the serial one |
| OverlappingRecords.AggregateIffOneCountedLast | src/notifications/notification-delivery-worker.service.ts:181-277 | in every run with overlapping records, once all deliveries of a notification are final, its status is their aggregate if and only if one of their records counted after all the others had committed; otherwise it reads `accepted` |
| OverlappingRecords.MissedForGood | src/notifications/notification-delivery-worker.service.ts:248-277 | a notification that missed its end reads `accepted` in every continuation |
| OverlappingRecords.OverlappingRecordsMissTheEnd | src/notifications/notification-delivery-worker.service.ts:252-263 | in every reachable state: when two workers own the last two open siblings, letting both count before either commits leaves all siblings final and the notification `accepted` |
| OverlappingRecords.MissingRun | src/notifications/notification-delivery-worker.service.ts:132-277 | such a run from empty delivery tables: accept for two devices, claim both, begin both records, commit both |
| DeliveryWorker.NotificationDeliveryWorkerService.ClaimNext | src/notifications/notification-delivery-worker.service.ts:132-179 | claims the first due unlocked row in the query's order under a fresh token, or nothing when none is due |
| DeliveryWorker.NotificationDeliveryWorkerService.Send | src/notifications/notification-delivery-worker.service.ts:81-108 | an unavailable device is not sent to: its delivery ends as terminal with reason `device_unavailable`, at whatever attempt |
| DeliveryWorker.UnavailableDevicesEnd | src/notifications/notification-delivery-worker.service.ts:76-112 | one round over a delivery: if its device is disabled, deleted or without a token at the claim, it ends as `device_unavailable` whatever the provider would say; else it is delivered exactly when the provider took the message |
| DeliveryWorker.NotificationDeliveryWorkerService.RecordResult | src/notifications/notification-delivery-worker.service.ts:181-246 | settles the row, adds the attempt, disables an invalid token, recounts; a transient answer makes the row due again from 1, 5, 15, 60 or 360 minutes on by attempt, any other never; a lost claim changes nothing |
| DeliveryWorker.NotificationDeliveryWorkerService.RefreshNotificationStatus | src/notifications/notification-delivery-worker.service.ts:248-277 | writes the counted status of one notification |
| DeliveryWorker.NotificationDeliveryWorkerService.DispatchOnce | src/notifications/notification-delivery-worker.service.ts:76-112 | keeps the invariant; false only when nothing is due; true lowers the open work |
| DeliveryWorker.NotificationDeliveryWorkerService.Tick | src/notifications/notification-delivery-worker.service.ts:114-130 | the drain loop ends within the open work and then nothing is due; a running worker does nothing |
| WebhookOutbox.RetryDelayDoubles | src/domain/permission-webhooks/permission-webhook.contract.ts:58-60 | the delay starts at 5 s and doubles until it stands at 5 min |
| WebhookOutbox.ClaimsTheEarliest | src/domain/permission-webhooks/permission-webhook-dispatcher.service.ts:134-177 | something is claimed exactly when a pending row below the maximum is due, unlocked and wanted by an active subscription; none of these comes before the claimed one |
| WebhookOutbox.LeaseLasts | src/domain/permission-webhooks/permission-webhook-dispatcher.service.ts:134-177 | a claimed row is claimed again, or swept at the maximum, exactly from the request timeout and five seconds on |
| WebhookOutbox.FailuresWait | src/domain/permission-webhooks/permission-webhook-dispatcher.service.ts:179-206 | a failed attempt is due again after its delay while attempts are left, else exhausted |
| WebhookOutbox.EnqueuedIsDue | src/domain/permission-webhooks/permission-webhooks.service.ts:130-169 | exactly the wanted events of an active subscription become rows, due at once |
| WebhookOutbox.RetriedIsDue | src/domain/permission-webhooks/permission-webhooks.service.ts:245-260 | a retried row of the service is pending, unattempted and due at once; another row stays |
| WebhookRuns.RunKeepsInv | src/domain/permission-webhooks/permission-webhook-dispatcher.service.ts:66-206 | every reachable row: attempts within the maximum; pending iff due for something; a token only on a pending, attempted row; pending at the maximum only while leased; exhausted only at the maximum |
| WebhookRuns.PostsAreBounded | src/domain/permission-webhooks/permission-webhook-dispatcher.service.ts:134-177 | POSTs of an event never exceed maximum × (1 + manual retries) |
| WebhookRuns.DeliveredWasAcknowledged | src/domain/permission-webhooks/permission-webhook-dispatcher.service.ts:85-106 | a row reads delivered only after a POST of its event was answered with a status from 200 to 299 and its worker wrote that back |
| WebhookRuns.StaleWorkerWritesNothing | src/domain/permission-webhooks/permission-webhook-dispatcher.service.ts:179-206 | a worker whose token was superseded can never write its row again |
| WebhookRuns.WhatMakesStale | src/domain/permission-webhooks/permission-webhooks.service.ts:245-260 | a manual retry, a reclaim and the worker's own write each supersede its token |
| WebhookRuns.ClosedUntilRetry | src/domain/permission-webhooks/permission-webhook-dispatcher.service.ts:66-114 | delivered and exhausted rows do not change unless retried by hand |
| WebhookRuns.PostsNeverOverlap | src/domain/permission-webhooks/permission-webhook-dispatcher.service.ts:134-177 | in a timely run, with manual retries of events that have no worker in flight, two POSTs of one event are never open at once, over any number of dispatchers |
| WebhookRuns.RetryIsSafeExactly | src/domain/permission-webhooks/permission-webhooks.service.ts:245-260 | in every state a timely run reaches, a manual retry is safe (no timely continuation has two open POSTs of the event) if and only if no worker of the event is in flight |
| WebhookRuns.ManualRetryOverlaps | src/domain/permission-webhooks/permission-webhooks.service.ts:245-260 | a run from empty tables: a manual retry during an open POST lets a second one start |
| WebhookDispatcher.PermissionWebhooksService.EnqueueMany | src/domain/permission-webhooks/permission-webhooks.service.ts:130-169 | one pending row per event, only for an active subscription that wants its type |
| WebhookDispatcher.PermissionWebhooksService.RetryDelivery | src/domain/permission-webhooks/permission-webhooks.service.ts:245-260 | where webhooks are enabled, resets attempts, token and due time of a row of the service |
| WebhookDispatcher.PermissionWebhooksService.SetStatus | src/domain/permission-webhooks/permission-webhooks.service.ts:186-197 | switches the subscription of one service; refused where webhooks are disabled, and for an activation without approved endpoint or usable secret |
| WebhookDispatcher.PermissionWebhookDispatcherService.ClaimNext | src/domain/permission-webhooks/permission-webhook-dispatcher.service.ts:134-177 | sweeps spent leases to exhausted, then leases the first due row under a fresh token |
| WebhookDispatcher.PermissionWebhookDispatcherService.Reschedule | src/domain/permission-webhooks/permission-webhook-dispatcher.service.ts:179-206 | compare-and-set on token and attempts: back off, or exhausted at the maximum |
| WebhookDispatcher.PermissionWebhookDispatcherService.MarkDelivered | src/domain/permission-webhooks/permission-webhook-dispatcher.service.ts:85-101 | compare-and-set on token and attempts closes the row as delivered |
| WebhookDispatcher.StatusesDecide | src/domain/permission-webhooks/permission-webhook-dispatcher.service.ts:66-114 | a round delivers its event exactly when the POST was answered with a status from 200 to 299; after anything else the event waits for its delay, or is exhausted at the maximum |
| WebhookDispatcher.PermissionWebhookDispatcherService.DispatchOnce | src/domain/permission-webhooks/permission-webhook-dispatcher.service.ts:66-114 | keeps the row invariant; false only when nothing is claimable; true lowers the open work, and the event reads delivered exactly when it was answered with a status from 200 to 299 |
| WebhookDispatcher.PermissionWebhookDispatcherService.Tick | src/domain/permission-webhooks/permission-webhook-dispatcher.service.ts:116-132 | the drain loop ends within the open work |
| PermissionRuns.RunKeepsInv | src/domain/account-permissions/account-permissions.service.ts:47-239 | keys stay unique per service, assignments point to a definition of their service, `suspended` is never written |
| PermissionRuns.StepReportsTheChange | src/domain/account-permissions/account-permissions.service.ts:61-165 | every step but the first-login grant logs an event for a holder exactly when it changes the holder's effective permission, with the permission before and after |
| PermissionRuns.LogReplaysToThePresent | src/domain/account-permissions/account-permissions.service.ts:47-239 | while subscribed, an account's events chain without a gap from its first grant, and replaying them gives its current effective permission |
| PermissionRuns.OriginIsFixed | src/domain/account-permissions/account-permissions.service.ts:176-239 | once an account has an assignment of a service, no later step changes the origin of its event log |
| PermissionRuns.FirstGrantHappensOnce | src/domain/account-permissions/account-permissions.service.ts:176-239 | in any run an account gets at most one silent first-login grant for a service |
| PermissionRuns.StepKeepsOnePending | src/domain/service-applications/service-applications.service.ts:142-245 | no step leaves an account with two pending applications for one service |
| PermissionAnswers.FirstLoginGrants | src/domain/account-permissions/account-permissions.service.ts:176-239 | without an assignment an account gets visitor, and a super admin superadmin, which sorts first from then on, silently; with one, even revoked, nothing; and when and how this fails |
| PermissionAnswers.PutGrants | src/domain/account-permissions/account-permissions.service.ts:47-120 | when a put is accepted and how it is refused; then the account holds that permission, told with reason `changed` unless it did already |
| PermissionAnswers.RevokeTakesAway | src/domain/account-permissions/account-permissions.service.ts:122-165 | accepted exactly for an assignment; then the account holds nothing, told with reason `revoked` if it held something |
| PermissionAnswers.CreateOnce | src/domain/permissions/permissions.service.ts:131-158 | a key is created exactly once for an existing service, in use |
| PermissionAnswers.StatusIsSet | src/domain/permissions/permissions.service.ts:160-190 | visitor never leaves use, and no status change removes a definition |
| PermissionAnswers.MigrationMovesHolders | src/domain/permissions/permissions.service.ts:196-280 | when a migration is accepted and how it is refused; then every active holder of the source holds the target and no one else changes |
| PermissionAnswers.RemovalNeedsTarget | src/domain/permissions/permissions.service.ts:282-315 | a held permission is removed only by migrating it, an unheld one at once, visitor never |
| PermissionAnswers.ApprovedExactly | src/domain/service-applications/service-applications.service.ts:247-378 | with distinct ranks an application is approved exactly when it is pending, names no other target, and the target is in use, strictly above the permission held by (sort order, creation), and neither visitor nor superadmin; and every refusal |
| PermissionAnswers.ApprovedClimbs | src/domain/service-applications/service-applications.service.ts:293-327 | even with ties an approval never goes down in sort order; then the account holds the target, told with reason `approved` |
| PermissionAnswers.RejectedExactly | src/domain/service-applications/service-applications.service.ts:380-430 | exactly a pending application is rejected, told with what it asked for; no permission changes |
| PermissionAnswers.AppliesExactly | src/domain/service-applications/service-applications.service.ts:142-245 | with distinct ranks, when a request is accepted: active account and service, a token that names the permission held, and a requested key in use strictly above it, which only a visitor may leave out; and every refusal |
| PermissionAnswers.ApplicationIsKept | src/domain/service-applications/service-applications.service.ts:142-245 | an accepted request leaves one pending application, the old one retargeted if there was one |
| PermissionUpgrade.UpgradeIsRankOrder | src/domain/service-applications/service-applications.service.ts:457-479 | the index comparison never goes down in sort order, nor in creation among equal sort orders; with distinct pairs it is exactly the strict order on (sortOrder, createdAt) among active definitions other than superadmin |
| PermissionUpgrade.DecidedIffRanksDistinct | src/domain/service-applications/service-applications.service.ts:457-479 | for any service, every listing the database may return gives the same answer for every pair if and only if the ranks are distinct |
| PermissionUpgrade.TiesGoBothWays | src/domain/service-applications/service-applications.service.ts:457-479 | of two tied definitions either is an upgrade of the other, under one listing or another |
| PermissionUpgrade.ApprovalsNeverDescend | src/domain/service-applications/service-applications.service.ts:293-327 | whatever the ranks, while only approvals change an assignment it never goes down in rank, and superadmin is neither entered nor left |
| PermissionUpgrade.TiesLetAPermissionReturn | src/domain/service-applications/service-applications.service.ts:293-327 | with a tie a run of two approvals leads from a permission back to it |
| PermissionUpgrade.ApprovalsOnlyClimb | src/domain/service-applications/service-applications.service.ts:293-327 | while ranks stay distinct and only approvals change an assignment, the held permission only climbs; superadmin is neither entered nor left |
| PermissionUpgrade.NoPermissionIsHeldTwice | src/domain/service-applications/service-applications.service.ts:293-327 | while ranks stay distinct and only approvals change an assignment, a permission that was left is never held again |
| PermissionServices.Database.EnqueueMany | src/domain/permission-webhooks/permission-webhooks.service.ts:130-169 | the log of every holder of a subscribed service grows by exactly the events that concern it, in order |
| PermissionServices.StepIsReported | src/domain/permission-webhooks/permission-webhooks.service.ts:130-169 | every operation but the silent grant gives each subscribed holder exactly its change, and keeps the invariant |
| PermissionServices.PermissionsService.EnsureSuperadminPermission | src/domain/permissions/permissions.service.ts:89-129 | the superadmin definition exists, is in use and sorts first |
| PermissionServices.PermissionsService.Create | src/domain/permissions/permissions.service.ts:131-158 | a new key is added; a taken key is refused |
| PermissionServices.PermissionsService.Update | src/domain/permissions/permissions.service.ts:160-190 | visitor stays in use, removal only through `remove` |
| PermissionServices.PermissionsService.Migrate | src/domain/permissions/permissions.service.ts:196-280 | moves every assignment to the target and removes the source; every subscribed holder whose effective permission changes gets one event with before and after, and no other holder gets any |
| PermissionServices.PermissionsService.Remove | src/domain/permissions/permissions.service.ts:282-315 | removes an unheld permission, migrates a held one, or refuses; every subscribed holder whose effective permission changes gets one event with before and after, and no other holder gets any |
| PermissionServices.AccountPermissionsService.Put | src/domain/account-permissions/account-permissions.service.ts:47-120 | writes the assignment; every subscribed holder whose effective permission changes gets one event with before and after, and no other holder gets any |
| PermissionServices.AccountPermissionsService.Revoke | src/domain/account-permissions/account-permissions.service.ts:122-165 | revokes the assignment, leaves a revoked one alone; every subscribed holder whose effective permission changes gets one event with before and after, and no other holder gets any |
| PermissionServices.AccountPermissionsService.FindActiveOrCreateVisitorForFirstLogin | src/domain/account-permissions/account-permissions.service.ts:176-239 | grants visitor to an ordinary account and superadmin to a super admin, once and without an event |
| PermissionServices.ServiceApplicationsService.CreateFromAccessToken | src/domain/service-applications/service-applications.service.ts:142-245 | one pending application per account and service; a repeat only retargets it |
| PermissionServices.ServiceApplicationsService.Approve | src/domain/service-applications/service-applications.service.ts:247-378 | a strict upgrade of an active assignment closes the application; every subscribed holder whose effective permission changes gets one event with before and after, and no other holder gets any; over a listing the new permission is not below the old in sort order |
| PermissionServices.ServiceApplicationsService.Reject | src/domain/service-applications/service-applications.service.ts:380-430 | closes the application; every subscribed holder whose effective permission changes gets one event with before and after, and no other holder gets any |
| TokenRuns.FamiliesComeFromOneCode | src/oidc/oidc.controller.ts:226-296 | every refresh token carries account and client of the one code its family started from; that code matched client, redirect URI and PKCE verifier, started no other family, and is gone |
| TokenAnswers.CodesAreGrantedExactly | src/oidc/oidc.controller.ts:226-264 | a code is granted exactly while live, to its client, redirect URI and verifier, for an account that exists, has no pending reset and holds a service permission |
| TokenAnswers.RefreshesAreGrantedExactly | src/oidc/oidc.controller.ts:266-296 | a refresh is granted exactly for an accepted token of the client whose holder is active, has no pending reset and holds a service permission |
| TokenAnswers.AcceptedExactly | src/oidc/token.service.ts:123-171 | a refresh token is accepted exactly while unexpired and active, or used within the grace; an unexpired used or revoked one is a replay otherwise |
| TokenAnswers.GrantsInsert | src/oidc/token.service.ts:46-121 | a grant inserts one active token for its lifetime, in a new family for a code and in the same one for a refresh |
| TokenAnswers.LivesAreFixed | src/oidc/authorization-code.service.ts:36-59 | codes live for 60 s, login transactions for 5 min, and rows go an hour after they expired |
| TokenAnswers.LoginsMakeCodesExactly | src/oidc/login.controller.ts:165-221 | a login makes a code exactly from a live transaction of the browser, for an active account without pending reset that holds a service permission; the transaction is gone either way |
| TokenAnswers.AuthorizesExactly | src/oidc/authorize-flow.service.ts:115-150 | a direct authorization makes a code exactly for an active account without pending reset |
| TokenAnswers.StatusesAreSet | src/domain/accounts/accounts.service.ts:178-217 | a status is set unless it disables the last active super admin; only a disabling revokes tokens, those of the account |
| TokenAnswers.ResetsAreSet | src/domain/accounts/accounts.service.ts:219-247 | a reset sets the flag and revokes the tokens of the account |
| TokenRuns.NoCodeIsHonouredTwice | src/oidc/authorization-code.service.ts:61-98 | a live code, once presented with anything at all, is refused in every continuation |
| TokenRuns.NoLoginIsHonouredTwice | src/oidc/login.controller.ts:165-197 | a login transaction makes at most one code, for the request it stored and the browser it was bound to |
| TokenRuns.RevocationIsFinalUnlessInFlight | src/oidc/token.service.ts:229-237 | after a family is revoked no token of it or descendant is ever accepted, if and only if no grant of it is between its two statements |
| TokenRuns.RevocationIsFinalAtTheEndpoint | src/oidc/oidc.controller.ts:266-296 | the same condition decides at the token endpoint: no continuation grants a refresh in the revoked family if and only if no grant of it is in flight |
| TokenRuns.ReplayKillsTheFamily | src/oidc/token.service.ts:141-171 | replaying a used or revoked token outside the grace window revokes its family exactly when its holder is active, and otherwise changes nothing; a revoked family stays dead in every continuation if and only if no other grant of it was in flight |
| TokenRuns.LockoutKillsTheFamilies | src/domain/accounts/accounts.service.ts:203-247 | a password reset, or a disabling that is not refused, revokes every family the account has, with the same exact condition for good |
| TokenRuns.RefusedChangesNothing | src/domain/accounts/accounts.service.ts:185-199 | the one disabling that is refused is that of the only active super admin, and it changes nothing |
| TokenLockout.DisabledAccountsCodeStillOpens | src/oidc/oidc.controller.ts:234-264 | in every reachable state where a disabled account without pending reset has a live code, two steps open a new family of it |
| TokenLockout.LockoutIsCompleteIff | src/oidc/oidc.controller.ts:226-264 | no family of a disabled account opens for as long as it stays disabled, if and only if it has no live code and no grant by code on the way |
| TokenLockout.ClosedStaysClosed | src/oidc/authorize-flow.service.ts:115-150 | once a disabled account has no live code and no grant by code, it gets neither, nor a family, for as long as it stays disabled |
| TokenGrace.SuccessorsComeWithinGrace | src/oidc/token.service.ts:153-165 | every successor of a token is granted within the grace window after the token's first use |
| TokenGrace.WithoutGraceOneActive | src/oidc/token.service.ts:199-207 | with grace off a family never has more than one active token |
| TokenGrace.AnyNumberOfRotations | src/oidc/token.service.ts:153-165 | inside the window one used token can gain any number of active successors |
| TokenGrace.RepeatableIsReached | src/oidc/token.service.ts:120-176 | such a token is reached from empty tables: authorize, redeem the code, use the refresh token once |
| TokenCleanup.CleanupsAreInvisible | src/oidc/token.service.ts:178-190 | leaving every cleanup out of a run changes no reply to a code, login or refresh request |
| TokenServices.TokenService.ConsumeRefreshToken | src/oidc/token.service.ts:123-171 | the conditional update, the expiry and grace checks and the family revocation, in the source's order |
| TokenServices.TokenService.Consume | src/oidc/token.service.ts:127-171 | the same without the throttled cleanup in front |
| TokenServices.TokenService.IssueTokens | src/oidc/token.service.ts:46-121 | exactly one new row; the token is accepted, for its account, client and family, exactly until it expires |
| TokenServices.TokenService.RevokeFamily | src/oidc/token.service.ts:229-237 | afterwards no token of the family is active or used; every other row is as before |
| TokenServices.TokenService.RevokeRefreshToken | src/oidc/token.service.ts:222-227 | the token is never accepted again, under any grace window and at any time; every other row is as before |
| TokenServices.TokenService.CleanupExpiredTokens | src/oidc/token.service.ts:178-190 | deletes the rows expired for over an hour; no code, login or refresh token is answered differently, now or later |
| TokenServices.AuthorizationCodeService.Create | src/oidc/authorization-code.service.ts:36-59 | consuming the new code gives back account and request at every moment of the next 60 s, and nothing afterwards |
| TokenServices.AuthorizationCodeService.Consume | src/oidc/authorization-code.service.ts:61-98 | deletes and returns a live code, and nothing else; a returned code is never returned again |
| TokenServices.HostedLoginTransactionService.Create | src/oidc/hosted-login-transaction.service.ts:33-55 | consuming the new transaction gives back session and request for 5 min, to the browser it was made for only |
| TokenServices.HostedLoginTransactionService.Consume | src/oidc/hosted-login-transaction.service.ts:57-78 | deletes and returns a live transaction of the same browser; a returned one is never returned again |
| TokenServices.HostedLoginTransactionService.Find | src/oidc/hosted-login-transaction.service.ts:80-98 | returns what consuming at that moment would return |
| TokenServices.AccountsService.UpdateStatus | src/domain/accounts/accounts.service.ts:178-217 | disabling revokes the account's refresh tokens; refused for the only active super admin, so a disabling leaves an active super admin if there was one |
| TokenServices.AccountsService.RevokeAccountRefreshTokens | src/domain/accounts/accounts.service.ts:236-247 | no refresh token of the account is accepted afterwards, at any time; every other row is as before |
| TokenServices.AccountsService.ResetPassword | src/domain/accounts/accounts.service.ts:219-247 | a reset revokes the account's refresh tokens |
| TokenServices.OidcController.CodeGrant | src/oidc/oidc.controller.ts:226-264 | consume, then check client, redirect URI, PKCE, account and service permission, then issue in a new family; a token is issued only if all of these hold |
| TokenServices.OidcController.RefreshGrant | src/oidc/oidc.controller.ts:266-296 | refuse an inactive holder, consume, check client, reset and service permission, issue in the same family; a token is issued only if all of these hold |
| TokenServices.LoginController.CompleteLogin | src/oidc/login.controller.ts:165-221 | the transaction is consumed before the code is made from the request it stored |
| JsonText.QuoteRoundTrip | src/notifications/notification-send.service.ts:301-304 | reading a quoted string gives it back, for every sequence of code units and whatever follows |
| JsonText.QuotesJson | src/notifications/notification-send.service.ts:301-304 | a string is quoted unit by unit |
| JsonText.EscapesJson | src/notifications/notification-send.service.ts:301-304 | which units are escaped, and how |
| JsonText.FourDigits | src/notifications/notification-send.service.ts:301-304 | the four lower-case digits of an escape are those of the unit |
| JsonText.PrintsItems | src/notifications/notification-send.service.ts:294-298 | the text of a list, item by item |
| JsonText.PrintsMembers | src/notifications/notification-send.service.ts:299-305 | the text of an object, member by member |
| JsonText.PrintsScalars | src/notifications/notification-send.service.ts:294-305 | the text of every value without parts, of empty lists and objects, and of a member without a value |
| JsonText.PrintPrefix | src/notifications/notification-send.service.ts:294-305 | value texts delimit themselves: equal text up to a separator means equal values and equal rest |
| StableJson.StablePrintsNormal | src/notifications/notification-send.service.ts:294-305 | sorting entries while printing prints the value whose members were sorted first |
| StableJson.SortRises | src/notifications/notification-send.service.ts:299-300 | keys come out in rising order, and entries already in order stay as they are |
| StableJson.EqualTextsAreSame | src/notifications/notification-send.service.ts:294-305 | equal canonical texts mean equal values up to member order at every level, for any comparison |
| StableJson.StableJsonIdentifies | src/notifications/notification-send.service.ts:290-305 | under a key comparison without ties, the canonical texts of two values are equal exactly when the values are equal up to member order at every level |
| StableJson.OrderIsHiddenIffStrict | src/notifications/notification-send.service.ts:299-300 | member order never shows exactly when the key comparison tells all different keys apart |
| NotificationSend.SelectionIsExact | src/notifications/notification-send.service.ts:232-250 | the selected devices are exactly the eligible ones asked for, each once; refused iff a named device is not eligible |
| NotificationSend.SendAnswers | src/notifications/notification-send.service.ts:62-182 | when a send is accepted, and in which order it is refused: the request itself, then an unexpired stored reply alone, then recipient, named devices and action |
| NotificationSend.NotifiesExactly | src/notifications/notification-send.service.ts:99-150 | a first send makes a notification exactly when some eligible device was asked for |
| NotificationSend.KeysAllowed | src/notifications/notification-send.service.ts:65-67 | an idempotency key is one to 200 letters, digits, periods, underscores, colons and hyphens |
| NotificationSend.MetadataAllowed | src/notifications/notification-send.service.ts:261-287 | metadata is at most 20 plain members under proper keys and 4096 units of text |
| NotificationSend.PurgeRemovesExpired | src/notifications/notification-retention.service.ts:50-52 | the purge removes exactly the expired keys |
| SendRuns.RetriesReplay | src/notifications/notification-send.service.ts:75-98 | within the week, and whatever happens in between, a second send under a key changes nothing: it replays the stored reply iff its body is the same up to member order, else it is a conflict |
| SendRuns.NextNotificationIsAWeekLater | src/notifications/notification-send.service.ts:81-98 | two notifications under one key are at least seven days apart |
| SendRuns.AcceptedCountsDevices | src/notifications/notification-send.service.ts:137-155 | in every reachable state `accepted` is the number of delivery rows, on distinct devices |
| SendRuns.SendReachesTheWanted | src/notifications/notification-send.service.ts:99-150 | a send that notifies has a delivery for exactly the eligible devices of the recipient that were asked for |
| SendRuns.PurgeIsInvisible | src/notifications/notification-retention.service.ts:50-52 | leaving every purge out of a run changes no reply and no notification or delivery |
| SendRuns.SendsRefineDeliveries | src/notifications/notification-send.service.ts:118-155 | every run of sends and workers is a legal run of the delivery protocol |
| SendService.NotificationSendService.ValidateMetadata | src/notifications/notification-send.service.ts:261-287 | the copying loop accepts exactly small metadata of plain members with proper keys, and returns it unchanged |
| SendService.NotificationSendService.Send | src/notifications/notification-send.service.ts:62-182 | the transaction in the source's order; every refusal leaves the tables alone |
| SendService.NotificationRetentionService.Purge | src/notifications/notification-retention.service.ts:50-52 | deletes exactly the expired keys |
| UriText.DecodeEncode | src/notifications/notification-action-targets.service.ts:204-245 | `decodeURIComponent` undoes `encodeURIComponent`, whatever follows |
| UriText.EncodeSucceeds | src/notifications/notification-action-targets.service.ts:233-241 | encoding fails exactly on a surrogate without a partner |
| UriText.EncodesPointwise | src/notifications/notification-action-targets.service.ts:233-241 | which code points stand for themselves; the others are written byte by byte of their UTF-8 |
| UriText.EscapesAreUpperCase | src/notifications/notification-action-targets.service.ts:233-241 | each byte is a percent sign and two upper-case digits |
| UriText.ReadsExactlyUtf8 | src/notifications/notification-action-targets.service.ts:204-218 | bytes are read as a code point exactly when they are its UTF-8: no overlong form, no surrogate |
| UriText.DecodeShortens | src/notifications/notification-action-targets.service.ts:209-218 | decoding leaves a text without percent signs alone and shortens every other it accepts |
| ActionPaths.AcceptedExactly | src/notifications/notification-action-targets.service.ts:192-245 | the accepted paths are exactly the encodings of good segment lists |
| ActionPaths.SegmentsCorrespond | src/notifications/notification-action-targets.service.ts:233-245 | on an accepted path encoding and decoding undo each other segment by segment |
| ActionPaths.OneSpelling | src/notifications/notification-action-targets.service.ts:204-245 | every destination has one accepted spelling: accepted paths that decode alike are the same path |
| ActionPaths.SecondDecodeNeverDiffers | src/notifications/notification-action-targets.service.ts:209-218 | decoding an accepted path twice either changes nothing or fails |
| ActionPaths.DotRemovalKeepsAcceptedPaths | src/notifications/notification-action-targets.service.ts:219-232 | dot-segment removal (section 5.2.4 of RFC 3986) leaves an accepted path as it is |
| ActionPaths.WildcardMatchesSubtree | src/notifications/notification-action-targets.service.ts:248-254 | a wildcard pattern matches exactly the paths whose decoded segments continue those of its base |
| ActionPaths.PatternsExactly | src/notifications/notification-action-targets.service.ts:180-190 | a pattern is an accepted path without a star, or one with slash and two stars behind it, or those alone; without a wildcard it matches itself only |
| ActionPaths.RootWildcardMatchesOnlyTheRoot | src/notifications/notification-action-targets.service.ts:252-253 | the pattern `/**` matches `/` and nothing else |
| ActionTargets.ResolvedActionsAreConfined | src/notifications/notification-action-targets.service.ts:101-125 | an action resolves exactly when its target is active and its canonical path lies within one of the target's patterns; the path is handed on as it came, with origin, fallback and schemes of the target |
| ActionTargets.SchemesAllowed | src/notifications/notification-action-targets.service.ts:25-56 | which application schemes are allowed |
| ActionTargets.TargetKeepsSpec | src/notifications/notification-action-targets.service.ts:58-99 | a target has the normalized origins and each path and scheme of its specification once |
| ActionTargets.NotificationActionTargetsService.ValidateRequestedSpec | src/notifications/notification-action-targets.service.ts:25-56 | the loop with its growing set accepts exactly distinct keys with valid bases, patterns and schemes |
| ActionTargets.NotificationActionTargetsService.ConfigureFromApprovedOnboarding | src/notifications/notification-action-targets.service.ts:58-99 | after an approved onboarding exactly the requested targets of the service are active, as requested, and no other service is touched; a refused specification changes nothing |
| ActionTargets.NotificationActionTargetsService.SetStatus | src/notifications/notification-action-targets.service.ts:138-156 | switches one target |
| Base32.RoundTrip | src/common/crypto/totp.service.ts:11-22 | decoding undoes encoding for any number of bytes (section 6 of RFC 4648) |
| Base32.EncodesTheSameNumber | src/common/crypto/totp.service.ts:11-22 | the letters write the number of the bytes in base 32, in as few letters as hold all bits |
| Base32.DecodesExactly | src/common/crypto/totp.service.ts:71-85 | padding is taken off, then the text upper-cased; decoding fails exactly on a foreign character, and the bytes are the number the letters write without the bits that fill no byte |
| Base32.GenerateSecret | src/common/crypto/totp.service.ts:11-22 | the two loops encode the random bytes |
| Base32.DecodeBase32 | src/common/crypto/totp.service.ts:71-85 | the two loops decode, or fail on a foreign character |
| Totp.CounterIsWrittenBigEndian | src/common/crypto/totp.service.ts:55-58 | the counter is written as eight big-endian bytes exactly when it is not negative, fits, and bit 31 is clear; otherwise the write throws |
| Totp.TruncationIsTheLast31Bits | src/common/crypto/totp.service.ts:62-67 | the truncated value is the last 31 bits of the four bytes at the offset, which is in bounds (section 5.3 of RFC 4226) |
| Totp.CodeHasSixDigits | src/common/crypto/totp.service.ts:68-68 | a code has six digits, whose number is the value modulo a million |
| Totp.CodesAreHotp | src/common/crypto/totp.service.ts:54-69 | when a code is made; it is the six-digit code of RFC 4226 (sections 5.2 and 5.3) for the number of half minutes since the epoch |
| Totp.WhiteSpaceIsSkipped | src/common/crypto/totp.service.ts:42-42 | white space anywhere in a given code is skipped, and nothing else |
| Totp.VerifiesExactlyNearbyCodes | src/common/crypto/totp.service.ts:41-52 | a code verifies exactly when, without its spaces, it is the code of some moment at most 30 s away |
| Totp.GeneratedSecretsVerify | src/common/crypto/totp.service.ts:41-69 | a generated secret yields a code that verifies 30 s before and after |
| Totp.TotpService.GenerateCode | src/common/crypto/totp.service.ts:54-69 | fills the buffer, decodes the secret, truncates; fails on an unwritable counter or a bad secret |
| Totp.TotpService.Verify | src/common/crypto/totp.service.ts:41-52 | compares with the codes of the moment and of one period before and after |
| Inbox.WalkDescends | src/notifications/notification-inbox.service.ts:14-51 | following cursors gives strictly descending rows, none twice, for any limit |
| Inbox.InboxIsNewestFirst | src/notifications/notification-inbox.service.ts:14-51 | the inbox is exactly the undeleted notifications of the account, newest first |
| Inbox.PageIsBehindCursor | src/notifications/notification-inbox.service.ts:14-51 | a page is the first rows strictly behind its cursor, which holds whole milliseconds |
| Inbox.WalkEnds | src/notifications/notification-inbox.service.ts:14-51 | following cursors ends within one request for each `limit` rows and one more |
| Inbox.WalkIsCompleteExactly | src/notifications/notification-inbox.service.ts:92-99 | the pages together are the inbox if and only if at every page boundary the next row lies below the cursor |
| Inbox.WholeMillisecondsAreComplete | src/notifications/notification-inbox.service.ts:92-99 | with times in whole milliseconds the pages are the whole inbox, in order |
| Inbox.MicrosecondsLoseRows | src/notifications/notification-inbox.service.ts:92-99 | two rows of one millisecond and pages of one row: the walk shows the later row alone, the earlier is on no page |
| Inbox.NotificationInboxService.GetMany | src/notifications/notification-inbox.service.ts:16-31 | the query: rows below the cursor, highest first, up to a number of them |
| Inbox.NotificationInboxService.ListPage | src/notifications/notification-inbox.service.ts:14-51 | one page and the cursor to the next |
| Inbox.NotificationInboxService.Remove | src/notifications/notification-inbox.service.ts:81-89 | marks a listed notification of the account deleted |
| Signup.WindowsHold | src/signup/signup.service.ts:120-144 | any half-open 30 minutes hold at most 5 rows of an e-mail, any hour at most 10 of an address |
| Signup.StartsExactly | src/signup/signup.service.ts:49-144 | a signup starts exactly for a free e-mail with fewer than five rows in half an hour, from no known address or one with fewer than ten in an hour; its row lives for five minutes |
| Signup.GuessesCount | src/signup/signup.service.ts:170-199 | a wrong guess at a live row with attempts left is counted, a right one consumes the row when asked to, and nothing else changes |
| Signup.AtMostFiveMisses | src/signup/signup.service.ts:170-199 | the wrong guesses counted against one row are its attempt count, never over 5 |
| Signup.GuessBudget | src/signup/signup.service.ts:120-199 | together the limits bound guessing: in any 25 minutes at most 25 wrong guesses count against all codes of one e-mail |
| Signup.SentCodeSucceedsExactly | src/signup/signup.service.ts:170-199 | after any run, a sent code found by a guess succeeds exactly when the guess is that code in any case of letters, fewer than five misses count against its row and five minutes have not passed; it is found when unconsumed and newest |
| Signup.ConsumedIsFinal | src/signup/signup.service.ts:193-196 | a consumed row is never found again |
| Signup.SignupService.AssertRateLimits | src/signup/signup.service.ts:120-144 | the e-mail limit first, then the address limit, which an absent or empty address does not have |
| Signup.SignupService.Start | src/signup/signup.service.ts:49-65 | inserts a fresh row, or refuses and changes nothing |
| Signup.SignupService.FindNewest | src/signup/signup.service.ts:175-178 | the newest unconsumed row of the e-mail, if there is one |
| Signup.SignupService.FindValidVerification | src/signup/signup.service.ts:170-199 | counts a wrong guess, consumes a right one when asked |
| Signup.SignupService.GenerateCode | src/signup/signup.service.ts:154-160 | six characters, each chosen by its random number among the 32 letters and digits that are not easily confused |

## Left out

- Controllers, guards, request validation classes, modules, migrations, pages and styles: plumbing.
- FCM, SMTP, DNS and webhook HTTP: a provider's answer is an arbitrary input; only the POST deadline is kept, as a time bound.
- AES-GCM, argon2, SHA-256, HMAC, JWT and RSA: injective or arbitrary functions. `verifyAccessToken` is not modelled.
- Audit log rows and diagnostic columns (`lastError`, response bodies, `providerMessageId`, `deliveredAt`, labels, application messages, app versions): read by no property here.
- That one active super admin always remains: `TokenServices.AccountsService.UpdateStatus` has the guard of a disabling, but locking is not guarded.
- Retention of notifications, devices and attempts: it deletes delivery rows without recounting statuses, so it stays outside the aggregate-status model.
- `configureFromApprovedOnboarding` of webhooks and the approval of a multi-service onboarding: long scripts without a transaction.
- `statusForServiceAccount`, device and permission lists, dashboards, account search, offset pages: reads that add only easy members.
- The trimming and the empty-key error of `findRequestedPermission`: the requested key comes trimmed.
- Base64url of inbox cursors and their syntax check: a cursor is its time and identifier.
- URL parsing: `normalizedHttpsBase` is an arbitrary partial function, and a resolved action keeps base and path apart.
- The signing input and claims of issued tokens, nonces and scopes; expired login cookies.
- NotificationSend.SelectionIsExact: the order of the selected devices is not stated, because nothing reads it.
- JsonText.PrintPrefix: a number is known by its digits, so that two numbers are equal when they print alike.
- Base32.RoundTrip: upper-casing is an arbitrary function that leaves text over the alphabet alone.
- Signup.SignupService.Start: the e-mail that carries the code is not sent; a failure there leaves the row in place, as here.
- ActionTargets.NotificationActionTargetsService.ValidateRequestedSpec: says whether a specification passes, not which of the errors is reported.
