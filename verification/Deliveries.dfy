/**
 * The claim / send / record protocol over `notification_deliveries`:
 * src/notifications/notification-delivery-worker.service.ts.
 *
 * Workers interleave freely. A claim that was handed out may be recorded at any later moment, or
 * never (the worker crashed), so a run is any sequence of the steps below.
 */
module Deliveries {
  import opened Prelude
  import Devices

  type DeliveryId = nat
  type NotificationId = nat
  type ClaimToken = nat
  type Pos = n: nat | n >= 1 witness 1

  datatype DeliveryStatus = Pending | Processing | Retry | Delivered | Terminal

  datatype NotificationStatus = Accepted | AllDelivered | Partial | Failed

  datatype ProviderStatus = Sent | Transient | Rejected | InvalidToken

  datatype SendResult = SendResult(status: ProviderStatus, code: Option<string>)

  datatype Delivery = Delivery(
    notification: NotificationId,
    device: Devices.DeviceId,
    status: DeliveryStatus,
    attempts: nat,
    nextAttemptAt: Option<Time>,
    claim: Option<ClaimToken>,
    terminalReason: Option<string>,
    createdAt: Time,
    updatedAt: Time)

  /** A row of `notification_delivery_attempts`; the table is kept in insertion order. */
  datatype Attempt = Attempt(delivery: DeliveryId, number: Pos, status: ProviderStatus, code: Option<string>)

  datatype Tables = Tables(
    deliveries: map<DeliveryId, Delivery>,
    attempts: seq<Attempt>,
    notifications: map<NotificationId, NotificationStatus>,
    devices: Devices.Tables,
    nextToken: ClaimToken)

  /** What `claimNext` returns to a worker. */
  datatype Claimed = Claimed(
    id: DeliveryId,
    notification: NotificationId,
    device: Devices.DeviceId,
    attempts: Pos,
    claim: ClaimToken,
    pushToken: Option<Devices.PushToken>,
    fingerprint: Option<Devices.Fingerprint>,
    deviceActive: bool,
    deviceDeleted: bool)

  const STALE_AFTER_MS: int := 600_000
  const RETRY_DELAYS_MS: seq<int> := [60_000, 300_000, 900_000, 3_600_000, 21_600_000]

  function Name(status: ProviderStatus): string {
    match status
    case Sent => "delivered"
    case Transient => "transient"
    case Rejected => "terminal"
    case InvalidToken => "invalid_token"
  }

  predicate Final(d: Delivery) {
    d.status == Delivered || d.status == Terminal
  }

  // ---------------------------------------------------------------- claiming

  predicate Due(d: Delivery, now: Time) {
    || ((d.status == Pending || d.status == Retry) && d.nextAttemptAt.Some? && d.nextAttemptAt.value <= now)
    || (d.status == Processing && d.updatedAt < now - STALE_AFTER_MS)
  }

  /** ORDER BY next_attempt_at ASC NULLS FIRST, created_at ASC. */
  predicate Precedes(a: Delivery, b: Delivery) {
    match (a.nextAttemptAt, b.nextAttemptAt)
    case (None, Some(_)) => true
    case (Some(_), None) => false
    case (None, None) => a.createdAt < b.createdAt
    case (Some(x), Some(y)) => x < y || (x == y && a.createdAt < b.createdAt)
  }

  /** No row of `ids` comes before row `id`. */
  predicate Leads(rows: map<DeliveryId, Delivery>, ids: set<DeliveryId>, id: DeliveryId)
    requires ids <= rows.Keys && id in ids
  {
    forall other | other in ids :: !Precedes(rows[other], rows[id])
  }

  lemma SomeRowLeads(rows: map<DeliveryId, Delivery>, ids: set<DeliveryId>)
    requires ids <= rows.Keys && ids != {}
    ensures exists id | id in ids :: Leads(rows, ids, id)
  {
    FirstExists(rows, Precedes, ids);
    var id :| id in ids && IsFirst(rows, Precedes, ids, id);
    assert Leads(rows, ids, id);
  }

  predicate Claimable(t: Tables, id: DeliveryId, now: Time, locked: set<DeliveryId>) {
    id in t.deliveries && id !in locked && Due(t.deliveries[id], now)
  }

  /** The row the claim query picks; rows that tie on both sort keys may come in any order. */
  ghost predicate IsNext(t: Tables, id: DeliveryId, now: Time, locked: set<DeliveryId>) {
    && Claimable(t, id, now, locked)
    && forall other | Claimable(t, other, now, locked) :: !Precedes(t.deliveries[other], t.deliveries[id])
  }

  ghost function AfterClaim(t: Tables, id: DeliveryId, now: Time): Tables
    requires id in t.deliveries
  {
    var d := t.deliveries[id];
    t.(deliveries := t.deliveries[id :=
         d.(status := Processing, attempts := d.attempts + 1, claim := Some(t.nextToken), updatedAt := now)],
       nextToken := t.nextToken + 1)
  }

  function ClaimOf(t: Tables, id: DeliveryId): Claimed
    requires id in t.deliveries && t.deliveries[id].device in t.devices.devices
  {
    var d := t.deliveries[id];
    var device := t.devices.devices[d.device];
    Claimed(id, d.notification, d.device, d.attempts + 1, t.nextToken,
            device.token, device.fingerprint, device.active, device.deletedAt.Some?)
  }

  // ---------------------------------------------------------------- recording

  function Settled(d: Delivery, attempts: Pos, result: SendResult, now: Time): Delivery {
    if result.status == Sent then
      d.(status := Delivered, claim := None, nextAttemptAt := None, terminalReason := None, updatedAt := now)
    else if result.status == Transient && attempts <= |RETRY_DELAYS_MS| then
      d.(status := Retry, claim := None, nextAttemptAt := Some(now + RETRY_DELAYS_MS[attempts - 1]),
         terminalReason := None, updatedAt := now)
    else
      d.(status := Terminal, claim := None, nextAttemptAt := None, updatedAt := now,
         terminalReason := Some(if result.status == Transient then "retry_exhausted"
                                else if result.code.Some? then result.code.value else Name(result.status)))
  }

  ghost function WithStatus(deliveries: map<DeliveryId, Delivery>, n: NotificationId,
                            status: DeliveryStatus): set<DeliveryId> {
    set id | id in deliveries && deliveries[id].notification == n && deliveries[id].status == status
  }

  ghost function Siblings(deliveries: map<DeliveryId, Delivery>, n: NotificationId): set<DeliveryId> {
    set id | id in deliveries && deliveries[id].notification == n
  }

  /** The one query of `refreshNotificationStatus`: the status the counts give, or none while a sibling is open. */
  ghost function Verdict(deliveries: map<DeliveryId, Delivery>, n: NotificationId): Option<NotificationStatus> {
    var delivered := |WithStatus(deliveries, n, Delivered)|;
    var terminal := |WithStatus(deliveries, n, Terminal)|;
    var total := |Siblings(deliveries, n)|;
    if delivered + terminal < total then None
    else Some(if delivered == total then AllDelivered else if delivered > 0 then Partial else Failed)
  }

  /** `refreshNotificationStatus`: count the siblings, and write a final status once all are final. */
  ghost function Refreshed(notifications: map<NotificationId, NotificationStatus>,
                           deliveries: map<DeliveryId, Delivery>, n: NotificationId): map<NotificationId, NotificationStatus> {
    if Verdict(deliveries, n).None? || n !in notifications then notifications
    else notifications[n := Verdict(deliveries, n).value]
  }

  datatype RecordOutcome = Recorded | ClaimLost | DuplicateAttempt

  ghost predicate Owns(t: Tables, c: Claimed) {
    c.id in t.deliveries && t.deliveries[c.id].claim == Some(c.claim)
  }

  /** `recordResult`, one transaction; a unique violation on (delivery, attempt number) rolls it back. */
  ghost function AfterRecord(t: Tables, c: Claimed, result: SendResult, now: Time): (Tables, RecordOutcome) {
    if !Owns(t, c) then (t, ClaimLost)
    else if exists row | row in t.attempts :: row.delivery == c.id && row.number == c.attempts then (t, DuplicateAttempt)
    else
      var deliveries := t.deliveries[c.id := Settled(t.deliveries[c.id], c.attempts, result, now)];
      var devices := if result.status == InvalidToken && c.fingerprint.Some?
                     then Devices.AfterRejection(t.devices, c.device, c.fingerprint.value, now) else t.devices;
      (Tables(deliveries,
              t.attempts + [Attempt(c.id, c.attempts, result.status, result.code)],
              Refreshed(t.notifications, deliveries, c.notification),
              devices, t.nextToken),
       Recorded)
  }

  // ---------------------------------------------------------------- what claims and answers do to a row

  /** A claim takes the row with the earliest due time, rows without one first, and among equals the oldest. */
  lemma ClaimsTheEarliest(t: Tables, id: DeliveryId, other: DeliveryId, now: Time, locked: set<DeliveryId>)
    requires IsNext(t, id, now, locked) && other in t.deliveries && other !in locked && Due(t.deliveries[other], now)
    ensures id in t.deliveries && id !in locked
    ensures var a, b := t.deliveries[id], t.deliveries[other];
      && (b.nextAttemptAt.None? ==> a.nextAttemptAt.None?)
      && (a.nextAttemptAt.Some? && b.nextAttemptAt.Some? ==> a.nextAttemptAt.value <= b.nextAttemptAt.value)
      && (a.nextAttemptAt == b.nextAttemptAt ==> a.createdAt <= b.createdAt)
  {
    assert Claimable(t, other, now, locked);
  }

  /** A new delivery is due from the start; a claimed one again once its worker has been silent for over ten minutes. */
  lemma DueAgain(t: Tables, id: DeliveryId, n: NotificationId, targets: map<DeliveryId, Devices.DeviceId>, now: Time, at: Time)
    ensures id in targets ==>
      var row := Opened(n, targets, now)[id];
      row.notification == n && row.device == targets[id] && row.attempts == 0 && (Due(row, at) <==> at >= now)
    ensures id in t.deliveries ==>
      var row := AfterClaim(t, id, now).deliveries[id];
      row.attempts == t.deliveries[id].attempts + 1 && !Final(row) && (Due(row, at) <==> at > now + 600_000)
  {
  }

  /**
   * A transient answer is waited out, for one, five or fifteen minutes, an hour or six hours by the number of the
   * attempt. Every other answer, and a sixth transient one, ends the delivery, so that it is never due again.
   */
  lemma RetriesWait(t: Tables, c: Claimed, result: SendResult, now: Time, at: Time)
    requires AfterRecord(t, c, result, now).1 == Recorded
    ensures var row := AfterRecord(t, c, result, now).0.deliveries[c.id];
      && (row.status == Retry <==> result.status == Transient && c.attempts <= 5)
      && (Final(row) <==> row.status != Retry)
      && (Due(row, at) <==>
            result.status == Transient && c.attempts <= 5
            && at >= now + [60_000, 300_000, 900_000, 3_600_000, 21_600_000][c.attempts - 1])
  {
  }

  /** How an answer ends a delivery, and what the attempt table keeps of it; the rest of the row stays. */
  lemma AnswersEnd(t: Tables, c: Claimed, result: SendResult, now: Time)
    requires AfterRecord(t, c, result, now).1 == Recorded
    ensures var t' := AfterRecord(t, c, result, now).0;
      var row, row' := t.deliveries[c.id], t'.deliveries[c.id];
      && (row'.status == Delivered <==> result.status == Sent)
      && (row'.status == Terminal ==> row'.terminalReason == Some(
            if result.status == Transient then "retry_exhausted"
            else if result.code.Some? then result.code.value
            else if result.status == InvalidToken then "invalid_token" else "terminal"))
      && (row'.status != Terminal ==> row'.terminalReason.None?)
      && row'.notification == row.notification && row'.device == row.device && row'.attempts == row.attempts
      && row'.createdAt == row.createdAt && row'.updatedAt == now
      && |t'.attempts| == |t.attempts| + 1
      && t'.attempts[|t.attempts|] == Attempt(c.id, c.attempts, result.status, result.code)
  {
  }

  // ---------------------------------------------------------------- runs

  /** The tables, and every claim handed out so far. */
  datatype System = System(t: Tables, claims: set<Claimed>)

  datatype Step =
    | Accept(notification: NotificationId, targets: map<DeliveryId, Devices.DeviceId>, now: Time)
    | Claim(id: DeliveryId, now: Time, locked: set<DeliveryId>)
    | Record(claimed: Claimed, result: SendResult, now: Time)
    | DevicesMove(devices: Devices.Tables)

  ghost predicate Legal(s: System, step: Step) {
    match step
    case Accept(n, targets, now) =>
      && n !in s.t.notifications && targets != map[]
      && targets.Keys !! s.t.deliveries.Keys
      && (forall id | id in targets :: targets[id] in s.t.devices.devices)
      && (forall a, b | a in targets && b in targets && targets[a] == targets[b] :: a == b)
    case Claim(id, now, locked) => IsNext(s.t, id, now, locked)
    case Record(c, result, now) => c in s.claims
    case DevicesMove(devices) => Devices.Moves(s.t.devices, devices)
  }

  /** The delivery rows `send` inserts, one for each selected device. */
  function Opened(n: NotificationId, targets: map<DeliveryId, Devices.DeviceId>, now: Time): map<DeliveryId, Delivery> {
    map id | id in targets :: Delivery(n, targets[id], Pending, 0, Some(now), None, None, now, now)
  }

  ghost function Next(s: System, step: Step): System {
    match step
    case Accept(n, targets, now) =>
      s.(t := s.t.(
        deliveries := s.t.deliveries + Opened(n, targets, now),
        notifications := s.t.notifications[n := Accepted]))
    case Claim(id, now, locked) =>
      if id in s.t.deliveries && s.t.deliveries[id].device in s.t.devices.devices
      then System(AfterClaim(s.t, id, now), s.claims + {ClaimOf(s.t, id)}) else s
    case Record(c, result, now) => s.(t := AfterRecord(s.t, c, result, now).0)
    case DevicesMove(devices) => s.(t := s.t.(devices := devices))
  }

  // ---------------------------------------------------------------- the invariant

  function RowsOf(attempts: seq<Attempt>, id: DeliveryId): seq<Attempt> {
    if attempts == [] then []
    else
      var rest := RowsOf(attempts[..|attempts| - 1], id);
      if attempts[|attempts| - 1].delivery == id then rest + [attempts[|attempts| - 1]] else rest
  }

  /** A recorded attempt that leaves the delivery open. */
  predicate LeavesOpen(row: Attempt) {
    row.status == Transient && row.number <= |RETRY_DELAYS_MS|
  }

  function LastNumber(rows: seq<Attempt>): nat {
    if rows == [] then 0 else rows[|rows| - 1].number
  }

  /** Rising attempt numbers, every one of which leaves the delivery open. */
  ghost predicate OpenRows(rows: seq<Attempt>) {
    rows == [] ||
    var n := |rows| - 1;
    OpenRows(rows[..n]) && LastNumber(rows[..n]) < rows[n].number && LeavesOpen(rows[n])
  }

  /** Open rows followed by the one that decided. */
  ghost predicate FinalRows(rows: seq<Attempt>) {
    rows != [] &&
    var n := |rows| - 1;
    OpenRows(rows[..n]) && LastNumber(rows[..n]) < rows[n].number && !LeavesOpen(rows[n])
  }

  /** The attempt rows of one delivery, in insertion order, explain the state of its row. */
  ghost predicate RowsExplain(d: Delivery, rows: seq<Attempt>) {
    && LastNumber(rows) <= d.attempts
    && (Final(d) <==> d.nextAttemptAt.None?)
    && (d.status == Processing <==> d.claim.Some?)
    && match d.status
       case Pending => rows == [] && d.attempts == 0
       case Processing => OpenRows(rows) && LastNumber(rows) < d.attempts
       case Retry => OpenRows(rows) && rows != [] && LastNumber(rows) == d.attempts
       case Delivered =>
         FinalRows(rows) && rows[|rows| - 1].status == Sent && d.terminalReason.None?
       case Terminal =>
         FinalRows(rows) && rows[|rows| - 1].status != Sent
         && (rows[|rows| - 1].status == Transient ==> d.terminalReason == Some("retry_exhausted"))
  }

  ghost predicate Aggregates(status: NotificationStatus, deliveries: map<DeliveryId, Delivery>, n: NotificationId) {
    var ids := Siblings(deliveries, n);
    && (status == Accepted <==> exists id | id in ids :: !Final(deliveries[id]))
    && (status == AllDelivered <==> forall id | id in ids :: deliveries[id].status == Delivered)
    && (status == Failed <==> forall id | id in ids :: deliveries[id].status == Terminal)
    && (status == Partial <==> && (forall id | id in ids :: Final(deliveries[id]))
                               && (exists id | id in ids :: deliveries[id].status == Delivered)
                               && (exists id | id in ids :: deliveries[id].status == Terminal))
  }

  ghost predicate LinksOk(t: Tables) {
    && (forall id | id in t.deliveries ::
          t.deliveries[id].device in t.devices.devices && t.deliveries[id].notification in t.notifications)
    && (forall row | row in t.attempts :: row.delivery in t.deliveries)
  }

  ghost predicate HistoryOk(t: Tables) {
    forall id | id in t.deliveries :: RowsExplain(t.deliveries[id], RowsOf(t.attempts, id))
  }

  ghost predicate ClaimOk(t: Tables, c: Claimed) {
    && c.claim < t.nextToken
    && c.id in t.deliveries
    && c.notification == t.deliveries[c.id].notification
    && c.device == t.deliveries[c.id].device
    && c.fingerprint == (if c.pushToken.Some? then Some(Devices.Fingerprint(c.pushToken.value)) else None)
    && (Owns(t, c) ==> c.attempts == t.deliveries[c.id].attempts)
  }

  ghost predicate ClaimsOk(s: System) {
    && (forall c | c in s.claims :: ClaimOk(s.t, c))
    && (forall c, c' | c in s.claims && c' in s.claims && c.claim == c'.claim :: c == c')
    && (forall id | id in s.t.deliveries && s.t.deliveries[id].claim.Some? ::
          s.t.deliveries[id].claim.value < s.t.nextToken)
  }

  ghost predicate StatusOk(t: Tables) {
    forall n | n in t.notifications ::
      Siblings(t.deliveries, n) != {} && Aggregates(t.notifications[n], t.deliveries, n)
  }

  ghost predicate Inv(s: System) {
    Devices.Inv(s.t.devices) && LinksOk(s.t) && HistoryOk(s.t) && ClaimsOk(s) && StatusOk(s.t)
  }

  ghost function Run(s: System, steps: seq<Step>): System {
    if steps == [] then s else Next(Run(s, steps[..|steps| - 1]), steps[|steps| - 1])
  }

  ghost predicate LegalRun(s: System, steps: seq<Step>) {
    steps == [] || (LegalRun(s, steps[..|steps| - 1]) && Legal(Run(s, steps[..|steps| - 1]), steps[|steps| - 1]))
  }

  lemma {:induction false} RunKeepsInv(s: System, steps: seq<Step>)
    requires Inv(s) && LegalRun(s, steps)
    ensures Inv(Run(s, steps))
  {
    if steps != [] {
      RunKeepsInv(s, steps[..|steps| - 1]);
      StepKeepsInv(Run(s, steps[..|steps| - 1]), steps[|steps| - 1]);
    }
  }

  lemma StepKeepsInv(s: System, step: Step)
    requires Inv(s) && Legal(s, step)
    ensures Inv(Next(s, step))
  {
    match step
    case Accept(n, targets, now) => AcceptKeepsInv(s, n, targets, now);
    case Claim(id, now, locked) => ClaimKeepsInv(s, id, now, locked);
    case Record(c, result, now) => RecordKeepsInv(s, c, result, now);
    case DevicesMove(devices) => DevicesMoveKeepsInv(s, devices);
  }

  lemma DevicesMoveKeepsInv(s: System, devices: Devices.Tables)
    requires Inv(s) && Legal(s, DevicesMove(devices))
    ensures Inv(Next(s, DevicesMove(devices)))
  {
    Devices.MoveKeepsInv(s.t.devices, devices);
    SameClaims(s, Next(s, DevicesMove(devices)));
  }

  lemma SameClaims(s: System, s': System)
    requires ClaimsOk(s) && s'.claims == s.claims
    requires s'.t.deliveries == s.t.deliveries && s'.t.nextToken == s.t.nextToken
    ensures ClaimsOk(s')
  {
    forall c | c in s'.claims ensures ClaimOk(s'.t, c) { assert ClaimOk(s.t, c); }
  }

  lemma {:induction false} RowsAreInTable(attempts: seq<Attempt>, id: DeliveryId)
    ensures forall row :: row in RowsOf(attempts, id) <==> row in attempts && row.delivery == id
  {
    if attempts != [] {
      var n := |attempts| - 1;
      RowsAreInTable(attempts[..n], id);
      assert attempts == attempts[..n] + [attempts[n]];
    }
  }

  lemma {:induction false} NoRows(attempts: seq<Attempt>, id: DeliveryId)
    requires forall row | row in attempts :: row.delivery != id
    ensures RowsOf(attempts, id) == []
  {
    if attempts != [] { NoRows(attempts[..|attempts| - 1], id); }
  }

  // Accept: a new notification with fresh delivery rows.

  lemma AcceptKeepsHistory(t: Tables, n: NotificationId, targets: map<DeliveryId, Devices.DeviceId>, now: Time)
    requires HistoryOk(t) && LinksOk(t) && targets.Keys !! t.deliveries.Keys
    ensures HistoryOk(t.(deliveries := t.deliveries + Opened(n, targets, now)))
  {
    var deliveries := t.deliveries + Opened(n, targets, now);
    forall id | id in deliveries ensures RowsExplain(deliveries[id], RowsOf(t.attempts, id)) {
      if id in targets {
        NoRows(t.attempts, id);
      }
    }
  }

  lemma AcceptKeepsStatus(t: Tables, n: NotificationId, targets: map<DeliveryId, Devices.DeviceId>, now: Time)
    requires StatusOk(t) && LinksOk(t) && targets.Keys !! t.deliveries.Keys && targets != map[]
    requires n !in t.notifications
    ensures StatusOk(t.(deliveries := t.deliveries + Opened(n, targets, now), notifications := t.notifications[n := Accepted]))
  {
    var deliveries, notifications := t.deliveries + Opened(n, targets, now), t.notifications[n := Accepted];
    forall m | m in notifications
      ensures Siblings(deliveries, m) != {} && Aggregates(notifications[m], deliveries, m)
    {
      if m == n { OpenedIsAccepted(t.deliveries, n, targets, now); } else { OpenedLeavesOthers(t, n, targets, now, m); }
    }
  }

  lemma OpenedIsAccepted(rows: map<DeliveryId, Delivery>, n: NotificationId, targets: map<DeliveryId,
                         Devices.DeviceId>, now: Time)
    requires targets != map[] && forall id | id in rows :: rows[id].notification != n
    ensures var deliveries := rows + Opened(n, targets, now);
      Siblings(deliveries, n) != {} && Aggregates(Accepted, deliveries, n)
  {
    var deliveries := rows + Opened(n, targets, now);
    var id :| id in targets;
    assert id in Siblings(deliveries, n) && deliveries[id].status == Pending;
  }

  lemma OpenedLeavesOthers(t: Tables, n: NotificationId, targets: map<DeliveryId, Devices.DeviceId>, now: Time,
                           m: NotificationId)
    requires StatusOk(t) && targets.Keys !! t.deliveries.Keys && m in t.notifications && m != n
    ensures var deliveries := t.deliveries + Opened(n, targets, now);
      Siblings(deliveries, m) != {} && Aggregates(t.notifications[m], deliveries, m)
  {
    assert Siblings(t.deliveries + Opened(n, targets, now), m) == Siblings(t.deliveries, m);
    assert Aggregates(t.notifications[m], t.deliveries, m);
  }

  lemma AcceptKeepsInv(s: System, n: NotificationId, targets: map<DeliveryId, Devices.DeviceId>, now: Time)
    requires Inv(s) && Legal(s, Accept(n, targets, now))
    ensures Inv(Next(s, Accept(n, targets, now)))
  {
    var s' := Next(s, Accept(n, targets, now));
    AcceptKeepsHistory(s.t, n, targets, now);
    AcceptKeepsStatus(s.t, n, targets, now);
    forall c | c in s'.claims ensures ClaimOk(s'.t, c) { assert ClaimOk(s.t, c); }
  }

  // Claim: the row moves to a fresh token.

  lemma ClaimKeepsClaims(s: System, id: DeliveryId, now: Time)
    requires ClaimsOk(s) && LinksOk(s.t) && Devices.Inv(s.t.devices) && id in s.t.deliveries
    ensures ClaimsOk(System(AfterClaim(s.t, id, now), s.claims + {ClaimOf(s.t, id)}))
  {
    var s' := System(AfterClaim(s.t, id, now), s.claims + {ClaimOf(s.t, id)});
    assert Devices.DeviceOk(s.t.devices.devices[s.t.deliveries[id].device]);
    forall c | c in s'.claims ensures ClaimOk(s'.t, c) {
      if c in s.claims { assert ClaimOk(s.t, c); }
    }
  }

  lemma ClaimKeepsStatus(t: Tables, id: DeliveryId, now: Time)
    requires StatusOk(t) && id in t.deliveries && !Final(t.deliveries[id])
    ensures StatusOk(AfterClaim(t, id, now))
  {
    var t' := AfterClaim(t, id, now);
    forall m | m in t'.notifications
      ensures Siblings(t'.deliveries, m) != {} && Aggregates(t'.notifications[m], t'.deliveries, m)
    {
      assert Siblings(t'.deliveries, m) == Siblings(t.deliveries, m);
      assert Aggregates(t.notifications[m], t.deliveries, m);
      if m == t.deliveries[id].notification {
        assert id in Siblings(t.deliveries, m) && !Final(t'.deliveries[id]);
      }
    }
  }

  lemma ClaimKeepsHistory(t: Tables, id: DeliveryId, now: Time)
    requires HistoryOk(t) && id in t.deliveries && !Final(t.deliveries[id])
    ensures HistoryOk(AfterClaim(t, id, now))
  {
    var t' := AfterClaim(t, id, now);
    forall x | x in t'.deliveries ensures RowsExplain(t'.deliveries[x], RowsOf(t'.attempts, x)) {
      assert RowsExplain(t.deliveries[x], RowsOf(t.attempts, x));
    }
  }

  lemma ClaimKeepsLinks(t: Tables, id: DeliveryId, now: Time)
    requires LinksOk(t) && id in t.deliveries
    ensures LinksOk(AfterClaim(t, id, now))
  {
  }

  lemma ClaimKeepsInv(s: System, id: DeliveryId, now: Time, locked: set<DeliveryId>)
    requires Inv(s) && Legal(s, Claim(id, now, locked))
    ensures Inv(Next(s, Claim(id, now, locked)))
  {
    ClaimKeepsClaims(s, id, now);
    ClaimKeepsStatus(s.t, id, now);
    ClaimKeepsHistory(s.t, id, now);
    ClaimKeepsLinks(s.t, id, now);
  }

  // Record: one attempt row, the delivery settles, the status is recounted.

  /** The unique index on (delivery, attempt number) never fires. */
  lemma OwnerNeverDuplicates(s: System, c: Claimed, result: SendResult, now: Time)
    requires HistoryOk(s.t) && ClaimsOk(s) && c in s.claims
    ensures AfterRecord(s.t, c, result, now).1 == (if Owns(s.t, c) then Recorded else ClaimLost)
  {
    if Owns(s.t, c) {
      RowsAreInTable(s.t.attempts, c.id);
      assert ClaimOk(s.t, c);
      assert RowsExplain(s.t.deliveries[c.id], RowsOf(s.t.attempts, c.id));
      OpenRowsAreFew(RowsOf(s.t.attempts, c.id));
    }
  }

  lemma SettledExplains(d: Delivery, rows: seq<Attempt>, row: Attempt, now: Time)
    requires RowsExplain(d, rows) && d.claim.Some? && row.number == d.attempts
    ensures RowsExplain(Settled(d, row.number, SendResult(row.status, row.code), now), rows + [row])
  {
    assert (rows + [row])[..|rows|] == rows;
  }

  lemma RecordKeepsHistory(s: System, c: Claimed, result: SendResult, now: Time)
    requires HistoryOk(s.t) && ClaimsOk(s) && c in s.claims && Owns(s.t, c)
    ensures HistoryOk(AfterRecord(s.t, c, result, now).0)
  {
    OwnerNeverDuplicates(s, c, result, now);
    assert ClaimOk(s.t, c);
    var t' := AfterRecord(s.t, c, result, now).0;
    assert t'.attempts[..|t'.attempts| - 1] == s.t.attempts;
    forall id | id in t'.deliveries ensures RowsExplain(t'.deliveries[id], RowsOf(t'.attempts, id)) {
      if id == c.id {
        SettledExplains(s.t.deliveries[id], RowsOf(s.t.attempts, id), Attempt(id, c.attempts, result.status, result.code), now);
      }
    }
  }

  lemma SubsetCount(a: set<DeliveryId>, b: set<DeliveryId>)
    requires a <= b
    ensures |a| <= |b| && (|a| == |b| <==> a == b)
  {
    assert b == a + (b - a);
    assert |b| == |a| + |b - a|;
  }

  /** The three counts decide the status exactly. */
  lemma RefreshAggregates(notifications: map<NotificationId, NotificationStatus>,
                          deliveries: map<DeliveryId, Delivery>, n: NotificationId)
    requires n in notifications && Siblings(deliveries, n) != {}
    requires (forall id | id in Siblings(deliveries, n) :: Final(deliveries[id])) || notifications[n] == Accepted
    ensures Aggregates(Refreshed(notifications, deliveries, n)[n], deliveries, n)
  {
    var delivered, terminal, all := WithStatus(deliveries, n, Delivered), WithStatus(deliveries, n, Terminal), Siblings(deliveries, n);
    assert |delivered + terminal| == |delivered| + |terminal|;
    SubsetCount(delivered + terminal, all);
    SubsetCount(delivered, all);
    var some :| some in all;
    if delivered + terminal == all {
      assert forall id | id in all :: id in delivered + terminal;
      if |delivered| == 0 { assert delivered == {}; }
      if |delivered| > 0 { var d :| d in delivered; }
      if delivered != all { var x :| x in all && x !in delivered; assert x in terminal; }
    } else {
      var open :| open in all && open !in delivered + terminal;
      assert !Final(deliveries[open]);
    }
  }

  lemma OwnedIsOpen(s: System, c: Claimed)
    requires HistoryOk(s.t) && ClaimsOk(s) && c in s.claims && Owns(s.t, c)
    ensures !Final(s.t.deliveries[c.id]) && s.t.deliveries[c.id].attempts == c.attempts
    ensures s.t.deliveries[c.id].notification == c.notification && s.t.deliveries[c.id].device == c.device
  {
    assert ClaimOk(s.t, c);
    assert RowsExplain(s.t.deliveries[c.id], RowsOf(s.t.attempts, c.id));
  }

  lemma RecordKeepsStatus(t: Tables, c: Claimed, result: SendResult, now: Time)
    requires StatusOk(t) && LinksOk(t) && Owns(t, c) && !Final(t.deliveries[c.id])
    requires c.notification == t.deliveries[c.id].notification
    ensures StatusOk(AfterRecord(t, c, result, now).0)
  {
    RefreshKeepsStatus(t, c.id, Settled(t.deliveries[c.id], c.attempts, result, now));
  }

  lemma RefreshKeepsStatus(t: Tables, id: DeliveryId, d: Delivery)
    requires StatusOk(t) && id in t.deliveries && !Final(t.deliveries[id])
    requires d.notification == t.deliveries[id].notification && d.notification in t.notifications
    ensures var deliveries := t.deliveries[id := d];
      StatusOk(t.(deliveries := deliveries, notifications := Refreshed(t.notifications, deliveries, d.notification)))
  {
    var deliveries := t.deliveries[id := d];
    var notifications := Refreshed(t.notifications, deliveries, d.notification);
    forall n | n in notifications
      ensures Siblings(deliveries, n) != {} && Aggregates(notifications[n], deliveries, n)
    {
      assert Siblings(t.deliveries, n) != {} && Aggregates(t.notifications[n], t.deliveries, n);
      hide Aggregates, Refreshed, Final;
      OneKeepsStatus(t, id, d, n);
    }
  }

  lemma OneKeepsStatus(t: Tables, id: DeliveryId, d: Delivery, n: NotificationId)
    requires id in t.deliveries && !Final(t.deliveries[id]) && d.notification == t.deliveries[id].notification
    requires n in t.notifications && Siblings(t.deliveries, n) != {} && Aggregates(t.notifications[n], t.deliveries, n)
    ensures var deliveries := t.deliveries[id := d];
      var notifications := Refreshed(t.notifications, deliveries, d.notification);
      n in notifications && Siblings(deliveries, n) != {} && Aggregates(notifications[n], deliveries, n)
  {
    var deliveries := t.deliveries[id := d];
    assert Siblings(deliveries, n) == Siblings(t.deliveries, n);
    if n == d.notification {
      assert id in Siblings(t.deliveries, n);
      RefreshAggregates(t.notifications, deliveries, n);
    }
  }

  lemma RecordKeepsClaims(s: System, c: Claimed, result: SendResult, now: Time)
    requires ClaimsOk(s)
    ensures ClaimsOk(s.(t := AfterRecord(s.t, c, result, now).0))
  {
    var s' := s.(t := AfterRecord(s.t, c, result, now).0);
    forall x | x in s'.claims ensures ClaimOk(s'.t, x) { assert ClaimOk(s.t, x); }
  }

  lemma RecordKeepsDevices(t: Tables, c: Claimed, result: SendResult, now: Time)
    requires Devices.Inv(t.devices)
    ensures var devices := AfterRecord(t, c, result, now).0.devices;
      Devices.Inv(devices) && t.devices.devices.Keys <= devices.devices.Keys
  {
    if c.fingerprint.Some? {
      var rejection := Devices.OpInvalidToken(c.device, c.fingerprint.value, now);
      Devices.StepKeepsInv(t.devices, rejection);
      Devices.DevicesRemain(t.devices, rejection);
    }
  }

  lemma RecordKeepsLinks(t: Tables, c: Claimed, result: SendResult, now: Time)
    requires LinksOk(t) && t.devices.devices.Keys <= AfterRecord(t, c, result, now).0.devices.devices.Keys
    ensures LinksOk(AfterRecord(t, c, result, now).0)
  {
  }

  lemma RecordKeepsInv(s: System, c: Claimed, result: SendResult, now: Time)
    requires Inv(s) && Legal(s, Record(c, result, now))
    ensures Inv(Next(s, Record(c, result, now)))
  {
    if Owns(s.t, c) {
      OwnedIsOpen(s, c);
      RecordKeepsClaims(s, c, result, now);
      RecordKeepsHistory(s, c, result, now);
      RecordKeepsStatus(s.t, c, result, now);
      RecordKeepsDevices(s.t, c, result, now);
      RecordKeepsLinks(s.t, c, result, now);
    }
  }

  // ---------------------------------------------------------------- what holds over every run

  const EMPTY: Tables := Tables(map[], [], map[], Devices.Tables(map[], map[]), 0)

  lemma EmptyInv()
    ensures Inv(System(EMPTY, {}))
  {
  }

  ghost predicate Rising(rows: seq<Attempt>) {
    forall i, j | 0 <= i < j < |rows| :: rows[i].number < rows[j].number
  }

  /** Rising numbers from 1 up leave no room for more rows than the last number. */
  lemma {:induction false} OpenRowsAreFew(rows: seq<Attempt>)
    requires OpenRows(rows)
    ensures Rising(rows) && |rows| <= LastNumber(rows) <= |RETRY_DELAYS_MS|
    ensures forall i | 0 <= i < |rows| :: LeavesOpen(rows[i]) && rows[i].number <= LastNumber(rows)
  {
    if rows != [] {
      var front := rows[..|rows| - 1];
      OpenRowsAreFew(front);
      assert forall i | 0 <= i < |front| :: rows[i] == front[i];
    }
  }

  lemma ExplainedRowsAreFew(d: Delivery, rows: seq<Attempt>)
    requires RowsExplain(d, rows)
    ensures |rows| <= |RETRY_DELAYS_MS| + 1 && Rising(rows)
    ensures forall i | 0 <= i < |rows| - 1 :: LeavesOpen(rows[i])
  {
    if Final(d) {
      var front := rows[..|rows| - 1];
      OpenRowsAreFew(front);
      assert forall i | 0 <= i < |front| :: rows[i] == front[i];
    } else if rows != [] {
      OpenRowsAreFew(rows);
    }
  }

  /**
   * Whatever the interleaving, crashes and reclaims, a delivery gets at most six attempt rows,
   * their numbers rise strictly, and only the last one can be a final verdict.
   */
  lemma AtMostSixAttempts(s: System, steps: seq<Step>, id: DeliveryId)
    requires Inv(s) && LegalRun(s, steps)
    ensures var rows := RowsOf(Run(s, steps).t.attempts, id);
      |rows| <= 6 && Rising(rows) && forall i | 0 <= i < |rows| - 1 :: LeavesOpen(rows[i])
  {
    RunKeepsInv(s, steps);
    RowsAreFew(Run(s, steps).t, id);
  }

  lemma RowsAreFew(t: Tables, id: DeliveryId)
    requires HistoryOk(t) && LinksOk(t)
    ensures var rows := RowsOf(t.attempts, id);
      |rows| <= 6 && Rising(rows) && forall i | 0 <= i < |rows| - 1 :: LeavesOpen(rows[i])
  {
    if id in t.deliveries {
      ExplainedRowsAreFew(t.deliveries[id], RowsOf(t.attempts, id));
    } else {
      NoRows(t.attempts, id);
    }
  }

  lemma RecordLeavesOthers(t: Tables, c: Claimed, result: SendResult, now: Time, id: DeliveryId)
    requires Owns(t, c) ==> c.id != id
    ensures var t' := AfterRecord(t, c, result, now).0;
      && (id in t'.deliveries <==> id in t.deliveries)
      && (id in t.deliveries ==> t'.deliveries[id] == t.deliveries[id])
      && RowsOf(t'.attempts, id) == RowsOf(t.attempts, id)
  {
    var t' := AfterRecord(t, c, result, now).0;
    assert t'.attempts == t.attempts || t'.attempts[..|t'.attempts| - 1] == t.attempts;
  }

  lemma FinalStepUnchanged(s: System, step: Step, id: DeliveryId)
    requires LinksOk(s.t) && HistoryOk(s.t) && ClaimsOk(s) && Legal(s, step)
    requires id in s.t.deliveries && Final(s.t.deliveries[id])
    ensures id in Next(s, step).t.deliveries && Next(s, step).t.deliveries[id] == s.t.deliveries[id]
    ensures RowsOf(Next(s, step).t.attempts, id) == RowsOf(s.t.attempts, id)
  {
    if step.Record? {
      if Owns(s.t, step.claimed) { OwnedIsOpen(s, step.claimed); }
      RecordLeavesOthers(s.t, step.claimed, step.result, step.now, id);
    }
  }

  /** `delivered` and `terminal` are absorbing: the row and its attempts never change again. */
  lemma {:induction false} FinalIsAbsorbing(s: System, steps: seq<Step>, id: DeliveryId)
    requires Inv(s) && LegalRun(s, steps)
    requires id in s.t.deliveries && Final(s.t.deliveries[id])
    ensures id in Run(s, steps).t.deliveries && Run(s, steps).t.deliveries[id] == s.t.deliveries[id]
    ensures RowsOf(Run(s, steps).t.attempts, id) == RowsOf(s.t.attempts, id)
  {
    if steps != [] {
      var before := steps[..|steps| - 1];
      RunKeepsInv(s, before);
      FinalIsAbsorbing(s, before, id);
      FinalStepUnchanged(Run(s, before), steps[|steps| - 1], id);
    }
  }

  lemma RecordReleases(t: Tables, c: Claimed, result: SendResult, now: Time, c': Claimed)
    requires !Owns(t, c') || (c == c' && AfterRecord(t, c, result, now).1 == Recorded)
    ensures !Owns(AfterRecord(t, c, result, now).0, c')
  {
  }

  lemma LostStepStaysLost(s: System, step: Step, c: Claimed)
    requires ClaimsOk(s) && Legal(s, step) && c in s.claims && !Owns(s.t, c)
    ensures c in Next(s, step).claims && !Owns(Next(s, step).t, c)
  {
    assert ClaimOk(s.t, c);
    if step.Record? { RecordReleases(s.t, step.claimed, step.result, step.now, c); }
  }

  /** A worker that lost its claim token changes no table, at any later moment. */
  lemma {:induction false} LostClaimChangesNothing(s: System, steps: seq<Step>, c: Claimed, result: SendResult,
                                                   now: Time)
    requires Inv(s) && LegalRun(s, steps) && c in s.claims && !Owns(s.t, c)
    ensures c in Run(s, steps).claims && !Owns(Run(s, steps).t, c)
    ensures AfterRecord(Run(s, steps).t, c, result, now) == (Run(s, steps).t, ClaimLost)
  {
    if steps != [] {
      RunKeepsInv(s, steps[..|steps| - 1]);
      LostClaimChangesNothing(s, steps[..|steps| - 1], c, result, now);
      LostStepStaysLost(Run(s, steps[..|steps| - 1]), steps[|steps| - 1], c);
    }
  }

  /** A claim is lost as soon as the delivery is claimed again ... */
  lemma ReclaimSupersedes(s: System, now: Time, locked: set<DeliveryId>, c: Claimed)
    requires Inv(s) && c in s.claims && Legal(s, Claim(c.id, now, locked))
    ensures !Owns(Next(s, Claim(c.id, now, locked)).t, c)
  {
    assert ClaimOk(s.t, c);
  }

  /** ... and once it has been recorded. */
  lemma RecordEndsClaim(s: System, c: Claimed, result: SendResult, now: Time)
    requires Inv(s) && c in s.claims
    ensures !Owns(AfterRecord(s.t, c, result, now).0, c)
  {
    if Owns(s.t, c) { OwnerNeverDuplicates(s, c, result, now); }
    RecordReleases(s.t, c, result, now, c);
  }

  lemma SettledMeansAllFinal(t: Tables, n: NotificationId, id: DeliveryId)
    requires StatusOk(t) && n in t.notifications && t.notifications[n] != Accepted
    requires id in t.deliveries && t.deliveries[id].notification == n
    ensures Final(t.deliveries[id])
  {
    assert Aggregates(t.notifications[n], t.deliveries, n);
    assert id in Siblings(t.deliveries, n);
  }

  lemma RecordWritesOneStatus(t: Tables, c: Claimed, result: SendResult, now: Time, n: NotificationId)
    requires n in t.notifications && (Owns(t, c) ==> c.notification != n)
    ensures var t' := AfterRecord(t, c, result, now).0;
      n in t'.notifications && t'.notifications[n] == t.notifications[n]
  {
  }

  lemma SettledStepUnchanged(s: System, step: Step, n: NotificationId)
    requires HistoryOk(s.t) && ClaimsOk(s) && StatusOk(s.t) && Legal(s, step)
    requires n in s.t.notifications && s.t.notifications[n] != Accepted
    ensures n in Next(s, step).t.notifications && Next(s, step).t.notifications[n] == s.t.notifications[n]
  {
    if step.Record? {
      var c := step.claimed;
      if Owns(s.t, c) {
        OwnedIsOpen(s, c);
        if c.notification == n { SettledMeansAllFinal(s.t, n, c.id); }
      }
      RecordWritesOneStatus(s.t, c, step.result, step.now, n);
    }
  }

  /**
   * A notification reads `accepted` exactly while one of its deliveries is open; otherwise it reads
   * delivered, failed or partial as its deliveries say, and then it never changes again.
   */
  lemma {:induction false} StatusIsTheAggregate(s: System, steps: seq<Step>, n: NotificationId)
    requires Inv(s) && LegalRun(s, steps)
    ensures n in Run(s, steps).t.notifications ==>
      Aggregates(Run(s, steps).t.notifications[n], Run(s, steps).t.deliveries, n)
    ensures n in s.t.notifications && s.t.notifications[n] != Accepted ==>
      n in Run(s, steps).t.notifications && Run(s, steps).t.notifications[n] == s.t.notifications[n]
  {
    RunKeepsInv(s, steps);
    if steps != [] && n in s.t.notifications && s.t.notifications[n] != Accepted {
      RunKeepsInv(s, steps[..|steps| - 1]);
      StatusIsTheAggregate(s, steps[..|steps| - 1], n);
      SettledStepUnchanged(Run(s, steps[..|steps| - 1]), steps[|steps| - 1], n);
    }
  }

  /** Recording a provider rejection disables the device exactly while it still holds the token that was sent. */
  lemma RejectionDisablesOnlyTheSentToken(s: System, c: Claimed, result: SendResult, now: Time)
    requires Inv(s) && c in s.claims
    ensures AfterRecord(s.t, c, result, now).0.devices != s.t.devices
      <==> Owns(s.t, c) && result.status == InvalidToken && c.pushToken.Some?
           && s.t.devices.devices[c.device].token == c.pushToken
  {
    assert ClaimOk(s.t, c);
    OwnerNeverDuplicates(s, c, result, now);
    RecordedDevices(s.t, c, result, now);
    if c.pushToken.Some? {
      Devices.RejectionHitsOnlyTheSentToken(s.t.devices, c.device, c.pushToken.value, now);
    }
  }

  lemma RecordedDevices(t: Tables, c: Claimed, result: SendResult, now: Time)
    ensures AfterRecord(t, c, result, now).0.devices ==
      if AfterRecord(t, c, result, now).1 == Recorded && result.status == InvalidToken && c.fingerprint.Some?
      then Devices.AfterRejection(t.devices, c.device, c.fingerprint.value, now) else t.devices
  {
  }

  // ---------------------------------------------------------------- draining terminates

  function OpenWeight(d: Delivery): nat {
    if Final(d) then 0 else 1 + (if d.attempts < 6 then 6 - d.attempts else 0)
  }

  ghost function OpenWork(t: Tables): nat { Sum(t.deliveries, OpenWeight) }

  lemma RecordedDeliveries(t: Tables, c: Claimed, result: SendResult, now: Time)
    requires AfterRecord(t, c, result, now).1 == Recorded
    ensures Owns(t, c)
    ensures AfterRecord(t, c, result, now).0.deliveries
         == t.deliveries[c.id := Settled(t.deliveries[c.id], c.attempts, result, now)]
  {
  }

  /** One claim followed by the record of its result settles the claimed row. */
  lemma DispatchSettles(s: System, id: DeliveryId, claimedAt: Time, result: SendResult, recordedAt: Time)
    requires Devices.Inv(s.t.devices) && LinksOk(s.t) && HistoryOk(s.t) && ClaimsOk(s)
    requires id in s.t.deliveries && Due(s.t.deliveries[id], claimedAt)
    ensures s.t.deliveries[id].device in s.t.devices.devices
    ensures var claimed, c := AfterClaim(s.t, id, claimedAt), ClaimOf(s.t, id);
      AfterRecord(claimed, c, result, recordedAt).0.deliveries
      == claimed.deliveries[id := Settled(claimed.deliveries[id], c.attempts, result, recordedAt)]
  {
    var claimed := System(AfterClaim(s.t, id, claimedAt), s.claims + {ClaimOf(s.t, id)});
    ClaimKeepsClaims(s, id, claimedAt);
    ClaimKeepsHistory(s.t, id, claimedAt);
    hide Devices.Inv, LinksOk, HistoryOk, ClaimsOk, AfterRecord;
    OwnerNeverDuplicates(claimed, ClaimOf(s.t, id), result, recordedAt);
    RecordedDeliveries(claimed.t, ClaimOf(s.t, id), result, recordedAt);
  }

  /** It takes work away, whatever the provider answers. */
  lemma DispatchReducesWork(s: System, id: DeliveryId, claimedAt: Time, result: SendResult, recordedAt: Time)
    requires Devices.Inv(s.t.devices) && LinksOk(s.t) && HistoryOk(s.t) && ClaimsOk(s)
    requires id in s.t.deliveries && Due(s.t.deliveries[id], claimedAt)
    ensures OpenWork(AfterRecord(AfterClaim(s.t, id, claimedAt), ClaimOf(s.t, id), result, recordedAt).0) < OpenWork(s.t)
  {
    DispatchSettles(s, id, claimedAt, result, recordedAt);
    hide Devices.Inv, LinksOk, HistoryOk, ClaimsOk, AfterRecord;
    var claimed, c := AfterClaim(s.t, id, claimedAt), ClaimOf(s.t, id);
    var settled := Settled(claimed.deliveries[id], c.attempts, result, recordedAt);
    SettlingReducesWork(s.t.deliveries, id, c.attempts, claimed.deliveries[id], result, recordedAt);
    assert claimed.deliveries[id := settled] == s.t.deliveries[id := settled];
  }

  lemma SettlingReducesWork(rows: map<DeliveryId, Delivery>, id: DeliveryId, attempts: Pos, claimed: Delivery,
                            result: SendResult, now: Time)
    requires id in rows && !Final(rows[id])
    requires attempts == rows[id].attempts + 1 == claimed.attempts
    ensures Sum(rows[id := Settled(claimed, attempts, result, now)], OpenWeight) < Sum(rows, OpenWeight)
  {
    var settled := Settled(claimed, attempts, result, now);
    SumUpdate(rows, OpenWeight, id, settled);
    assert OpenWeight(settled) < OpenWeight(rows[id]);
  }

  /** The two steps of one dispatch. */
  ghost function AfterDispatch(s: System, id: DeliveryId, claimedAt: Time, result: SendResult, recordedAt: Time): System
    requires id in s.t.deliveries && s.t.deliveries[id].device in s.t.devices.devices
  {
    Next(Next(s, Claim(id, claimedAt, {})), Record(ClaimOf(s.t, id), result, recordedAt))
  }

  lemma DispatchKeepsInv(s: System, id: DeliveryId, claimedAt: Time, result: SendResult, recordedAt: Time)
    requires Inv(s) && IsNext(s.t, id, claimedAt, {})
    ensures Inv(AfterDispatch(s, id, claimedAt, result, recordedAt))
    ensures OpenWork(AfterDispatch(s, id, claimedAt, result, recordedAt).t) < OpenWork(s.t)
  {
    var step := Claim(id, claimedAt, {});
    StepKeepsInv(s, step);
    StepKeepsInv(Next(s, step), Record(ClaimOf(s.t, id), result, recordedAt));
    DispatchReducesWork(s, id, claimedAt, result, recordedAt);
  }
}
