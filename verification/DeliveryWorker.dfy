/** The polling worker: src/notifications/notification-delivery-worker.service.ts. */
module DeliveryWorker {
  import opened Prelude
  import opened Deliveries
  import Devices

  /** The notification tables of the database, shared by every worker process. */
  class Database {
    var deliveries: map<DeliveryId, Delivery>
    var attempts: seq<Attempt>
    var notifications: map<NotificationId, NotificationStatus>
    var nextToken: ClaimToken
    ghost var claims: set<Claimed>

    constructor ()
      ensures deliveries == map[] && attempts == [] && notifications == map[] && nextToken == 0 && claims == {}
    {
      deliveries, attempts, notifications, nextToken, claims := map[], [], map[], 0, {};
    }
  }

  class NotificationDeliveryWorkerService {
    const db: Database
    const devices: Devices.NotificationDevicesService
    var running: bool

    constructor (db: Database, devices: Devices.NotificationDevicesService)
      ensures this.db == db && this.devices == devices && !running
    {
      this.db, this.devices, running := db, devices, false;
    }

    ghost function State(): Tables
      reads db, devices
    {
      Tables(db.deliveries, db.attempts, db.notifications, devices.State(), db.nextToken)
    }

    ghost function Sys(): System
      reads db, devices
    {
      System(State(), db.claims)
    }

    method ClaimNext(now: Time, locked: set<DeliveryId>) returns (claimed: Option<Claimed>)
      requires LinksOk(State())
      modifies db
      ensures claimed.None? ==> Sys() == old(Sys()) && forall id :: !Claimable(State(), id, now, locked)
      ensures claimed.Some? ==>
        var id := claimed.value.id;
        && IsNext(old(State()), id, now, locked)
        && claimed.value == ClaimOf(old(State()), id)
        && Sys() == System(AfterClaim(old(State()), id, now), old(db.claims) + {claimed.value})
    {
      var due := set id | id in db.deliveries && id !in locked && Due(db.deliveries[id], now);
      assert forall id :: Claimable(State(), id, now, locked) <==> id in due;
      if due == {} { return None; }
      SomeRowLeads(db.deliveries, due);
      var id :| id in due && Leads(db.deliveries, due, id);
      var row := db.deliveries[id];
      row := row.(status := Processing, attempts := row.attempts + 1, claim := Some(db.nextToken), updatedAt := now);
      var device := devices.devices[row.device];
      claimed := Some(Claimed(id, row.notification, row.device, row.attempts, db.nextToken,
                              device.token, device.fingerprint, device.active, device.deletedAt.Some?));
      db.deliveries := db.deliveries[id := row];
      db.nextToken := db.nextToken + 1;
      db.claims := db.claims + {claimed.value};
    }

    /** Counts the siblings and, once all are final, writes the final status. */
    method RefreshNotificationStatus(n: NotificationId)
      modifies db`notifications
      ensures db.notifications == Refreshed(old(db.notifications), db.deliveries, n)
    {
      var delivered := set id | id in db.deliveries && db.deliveries[id].notification == n && db.deliveries[id].status == Delivered;
      var terminal := set id | id in db.deliveries && db.deliveries[id].notification == n && db.deliveries[id].status == Terminal;
      var total := set id | id in db.deliveries && db.deliveries[id].notification == n;
      assert delivered == WithStatus(db.deliveries, n, Delivered) && terminal == WithStatus(db.deliveries, n, Terminal);
      assert total == Siblings(db.deliveries, n);
      if |delivered| + |terminal| < |total| { return; }
      var status := if |delivered| == |total| then AllDelivered else if |delivered| > 0 then Partial else Failed;
      if n in db.notifications {
        db.notifications := db.notifications[n := status];
      }
    }

    method RecordResult(c: Claimed, result: SendResult, now: Time) returns (outcome: RecordOutcome)
      modifies db`deliveries, db`attempts, db`notifications, devices
      ensures (State(), outcome) == AfterRecord(old(State()), c, result, now)
      ensures outcome == Recorded && result.status == Transient && c.attempts <= 5 ==>
        forall at :: Due(db.deliveries[c.id], at) <==>
          at >= now + [60_000, 300_000, 900_000, 3_600_000, 21_600_000][c.attempts - 1]
      ensures outcome == Recorded && (result.status != Transient || c.attempts > 5) ==>
        Final(db.deliveries[c.id]) && forall at :: !Due(db.deliveries[c.id], at)
    {
      if c.id !in db.deliveries || db.deliveries[c.id].claim != Some(c.claim) { return ClaimLost; }
      if exists i | 0 <= i < |db.attempts| :: db.attempts[i].delivery == c.id && db.attempts[i].number == c.attempts {
        return DuplicateAttempt;
      }
      db.attempts := db.attempts + [Attempt(c.id, c.attempts, result.status, result.code)];
      var row := db.deliveries[c.id];
      if result.status == Sent {
        row := row.(status := Delivered, claim := None, nextAttemptAt := None, terminalReason := None);
      } else if result.status == Transient && c.attempts <= |RETRY_DELAYS_MS| {
        row := row.(status := Retry, claim := None, nextAttemptAt := Some(now + RETRY_DELAYS_MS[c.attempts - 1]),
                    terminalReason := None);
      } else {
        var reason := if result.status == Transient then "retry_exhausted"
                      else if result.code.Some? then result.code.value else Name(result.status);
        row := row.(status := Terminal, claim := None, nextAttemptAt := None, terminalReason := Some(reason));
      }
      db.deliveries := db.deliveries[c.id := row.(updatedAt := now)];
      if result.status == InvalidToken && c.fingerprint.Some? {
        var _ := devices.DisableInvalidToken(c.device, c.fingerprint.value, now);
      }
      RefreshNotificationStatus(c.notification);
      return Recorded;
    }

    /** Claim one due delivery, send it, record the answer; an unavailable device is not sent to. */
    method DispatchOnce(claimAt: Time, reply: Claimed -> SendResult, recordAt: Time) returns (more: bool)
      requires Inv(Sys())
      modifies db, devices
      ensures Inv(Sys())
      ensures !more ==> Sys() == old(Sys()) && NothingDue(State(), claimAt)
      ensures more ==> OpenWork(State()) < OpenWork(old(State()))
      ensures more ==> Dispatched(old(Sys()), Sys(), claimAt, reply, recordAt)
    {
      ghost var before := Sys();
      var claimed := ClaimNext(claimAt, {});
      if claimed.None? { return false; }
      var c := claimed.value;
      var result := Send(c, reply);
      var _ := RecordResult(c, result, recordAt);
      DispatchDone(before, Sys(), c, claimAt, reply, recordAt);
      return true;
    }

    /** An unavailable device is not sent to: whatever the provider would say, its delivery ends there. */
    method Send(c: Claimed, reply: Claimed -> SendResult) returns (result: SendResult)
      ensures result == Answer(c, reply)
      ensures !(c.deviceActive && !c.deviceDeleted && c.pushToken.Some?) ==>
        forall d, now :: Settled(d, c.attempts, result, now).status == Terminal
          && Settled(d, c.attempts, result, now).terminalReason == Some("device_unavailable")
    {
      if !c.deviceActive || c.deviceDeleted || c.pushToken.None? {
        return SendResult(Rejected, Some("device_unavailable"));
      }
      return reply(c);
    }

    /**
     * Drains the due deliveries. With no other worker the loop ends after at most `OpenWork` rounds,
     * whatever the provider answers and however the clock moves, and then nothing is due.
     */
    method Tick(clock: nat -> Time, reply: (nat, Claimed) -> SendResult) returns (rounds: nat)
      requires Inv(Sys())
      modifies this, db, devices
      ensures Inv(Sys())
      ensures old(running) ==> rounds == 0 && Sys() == old(Sys()) && running
      ensures !old(running) ==>
                !running && rounds <= OpenWork(old(State())) && NothingDue(State(), clock(2 * rounds))
    {
      rounds := 0;
      if running { return; }
      running := true;
      var more := true;
      while more
        invariant Inv(Sys()) && rounds + OpenWork(State()) <= OpenWork(old(State()))
        invariant !more ==> NothingDue(State(), clock(2 * rounds))
        decreases more, OpenWork(State())
      {
        more := DispatchOnce(clock(2 * rounds), c => reply(rounds, c), clock(2 * rounds + 1));
        if more { rounds := rounds + 1; }
      }
      running := false;
    }
  }

  ghost predicate NothingDue(t: Tables, now: Time) {
    forall id :: !Claimable(t, id, now, {})
  }

  /** What a worker records: a device that cannot be reached is not sent to. */
  ghost function Answer(c: Claimed, reply: Claimed -> SendResult): SendResult {
    if c.deviceActive && !c.deviceDeleted && c.pushToken.Some? then reply(c)
    else SendResult(Rejected, Some("device_unavailable"))
  }

  /** The row of a delivery after one round. */
  ghost function RowAfter(s: System, id: DeliveryId, claimAt: Time, reply: Claimed -> SendResult, recordAt: Time): Option<Delivery>
    requires id in s.t.deliveries && s.t.deliveries[id].device in s.t.devices.devices
  {
    var t' := AfterDispatch(s, id, claimAt, Answer(ClaimOf(s.t, id), reply), recordAt).t;
    if id in t'.deliveries then Some(t'.deliveries[id]) else None
  }

  lemma RowIsSettled(s: System, id: DeliveryId, claimAt: Time, reply: Claimed -> SendResult, recordAt: Time)
    requires Inv(s) && id in s.t.deliveries && Due(s.t.deliveries[id], claimAt)
    ensures s.t.deliveries[id].device in s.t.devices.devices
    ensures var c := ClaimOf(s.t, id);
      RowAfter(s, id, claimAt, reply, recordAt)
      == Some(Settled(AfterClaim(s.t, id, claimAt).deliveries[id], c.attempts, Answer(c, reply), recordAt))
  {
    DispatchSettles(s, id, claimAt, Answer(ClaimOf(s.t, id), reply), recordAt);
    hide Inv, Due, AfterRecord, Settled, Answer;
  }

  /**
   * A delivery whose device is disabled, deleted or without a token when it is claimed ends there, whatever the
   * provider would have answered; any other is sent, and delivered exactly when the provider took the message.
   */
  lemma UnavailableDevicesEnd(s: System, id: DeliveryId, claimAt: Time, reply: Claimed -> SendResult, recordAt: Time)
    requires Inv(s) && id in s.t.deliveries && Due(s.t.deliveries[id], claimAt)
    ensures s.t.deliveries[id].device in s.t.devices.devices
    ensures RowAfter(s, id, claimAt, reply, recordAt).Some?
    ensures var row, device := RowAfter(s, id, claimAt, reply, recordAt).value, s.t.devices.devices[s.t.deliveries[id].device];
      if device.active && device.deletedAt.None? && device.token.Some?
      then row.status == Delivered <==> reply(ClaimOf(s.t, id)).status == Sent
      else row.status == Terminal && row.terminalReason == Some("device_unavailable")
  {
    hide Inv, Due, RowAfter, Settled, Answer;
    RowIsSettled(s, id, claimAt, reply, recordAt);
    SettledAnswer(ClaimOf(s.t, id), AfterClaim(s.t, id, claimAt).deliveries[id], reply, recordAt);
  }

  lemma SettledAnswer(c: Claimed, d: Delivery, reply: Claimed -> SendResult, now: Time)
    ensures var row := Settled(d, c.attempts, Answer(c, reply), now);
      if c.deviceActive && !c.deviceDeleted && c.pushToken.Some? then row.status == Delivered <==> reply(c).status == Sent
      else row.status == Terminal && row.terminalReason == Some("device_unavailable")
  {
  }

  /** One round claims the first due delivery of the order and records its answer. */
  ghost predicate Dispatched(s: System, s': System, claimAt: Time, reply: Claimed -> SendResult, recordAt: Time) {
    exists id | IsNext(s.t, id, claimAt, {}) && s.t.deliveries[id].device in s.t.devices.devices ::
      s' == AfterDispatch(s, id, claimAt, Answer(ClaimOf(s.t, id), reply), recordAt)
  }

  lemma DispatchDone(before: System, after: System, c: Claimed, claimAt: Time, reply: Claimed -> SendResult,
                     recordAt: Time)
    requires Inv(before) && IsNext(before.t, c.id, claimAt, {}) && c == ClaimOf(before.t, c.id)
    requires after.claims == before.claims + {c}
    requires after.t == AfterRecord(AfterClaim(before.t, c.id, claimAt), c, Answer(c, reply), recordAt).0
    ensures Inv(after) && OpenWork(after.t) < OpenWork(before.t) && Dispatched(before, after, claimAt, reply, recordAt)
  {
    DispatchKeepsInv(before, c.id, claimAt, Answer(c, reply), recordAt);
  }
}
