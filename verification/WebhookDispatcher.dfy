/** The services over the webhook outbox: the polling dispatcher and the administrative requests. */
module WebhookDispatcher {
  import opened Prelude
  import opened WebhookOutbox

  /** The two webhook tables, shared by every process. */
  class Database {
    var outbox: map<EventId, Row>
    var subscriptions: map<ServiceId, Subscription>
    var nextToken: ClaimToken

    constructor ()
      ensures State() == Tables(map[], map[], 0)
    {
      outbox, subscriptions, nextToken := map[], map[], 0;
    }

    ghost function State(): Tables reads this { Tables(outbox, subscriptions, nextToken) }
  }

  /** src/domain/permission-webhooks/permission-webhooks.service.ts. */
  class PermissionWebhooksService {
    const db: Database
    const enabled: bool

    constructor (db: Database, enabled: bool)
      ensures this.db == db && this.enabled == enabled
    {
      this.db, this.enabled := db, enabled;
    }

    method EnqueueMany(service: ServiceId, events: map<EventId, EventType>, now: Time)
      modifies db`outbox
      ensures db.State() == AfterEnqueue(old(db.State()), enabled, service, events, now)
    {
      if !enabled { return; }
      if service !in db.subscriptions || !db.subscriptions[service].active { return; }
      var subscription := db.subscriptions[service];
      var subscribed := map id | id in events && events[id] in subscription.eventTypes :: events[id];
      if subscribed == map[] {
        assert db.outbox + Enqueued(service, subscribed, now) == db.outbox;
        return;
      }
      db.outbox := db.outbox + Enqueued(service, subscribed, now);
    }

    method RetryDelivery(service: ServiceId, id: EventId, now: Time) returns (found: bool)
      modifies db`outbox
      ensures found <==> enabled && Retryable(old(db.State()), service, id)
      ensures db.State() == if enabled then AfterRetry(old(db.State()), service, id, now) else old(db.State())
    {
      if !enabled { return false; }
      if id !in db.outbox || db.outbox[id].service != service { return false; }
      var event := db.outbox[id];
      event := event.(status := Pending);
      event := event.(attempts := 0);
      event := event.(nextAttemptAt := Some(now));
      event := event.(claim := None);
      db.outbox := db.outbox[id := event];
      return true;
    }

    /** Activation is refused unless the endpoint is approved and, where one is asked for, the environment secret is long enough. */
    method SetStatus(service: ServiceId, active: bool, endpointApproved: bool, secretUsable: bool) returns (saved: bool)
      modifies db`subscriptions
      ensures saved <==> enabled && service in old(db.subscriptions) && (active ==> endpointApproved && secretUsable)
      ensures db.subscriptions == if saved
        then old(db.subscriptions)[service := old(db.subscriptions)[service].(active := active)]
        else old(db.subscriptions)
    {
      if !enabled || service !in db.subscriptions { return false; }
      if active && (!endpointApproved || !secretUsable) { return false; }
      db.subscriptions := db.subscriptions[service := db.subscriptions[service].(active := active)];
      return true;
    }
  }

  /**
   * What happens after a claim: `None` when the subscription is found disabled by then, otherwise the
   * answer of the POST, an HTTP status or nothing when it failed or hit the deadline.
   */
  type Endpoint = Claimed -> Option<Option<int>>

  ghost predicate NothingDue(cfg: Config, t: Tables, now: Time) {
    forall id :: !Claimable(cfg, t, id, now, {})
  }

  /** What one round leaves behind once it has claimed event `id`. */
  function AfterDispatch(cfg: Config, t: Tables, id: EventId, now: Time, endpoint: Endpoint, writeAt: Time): Tables
    requires id in t.outbox
  {
    var c := ClaimOf(t, id);
    var claimed := AfterClaim(cfg, t, id, now);
    AfterWrite(cfg, claimed, c, endpoint(c).Some? && Accepted(endpoint(c).value), writeAt)
  }

  ghost predicate Dispatched(cfg: Config, t: Tables, t': Tables, now: Time, endpoint: Endpoint, writeAt: Time) {
    exists id | IsNext(cfg, AfterSweep(cfg, t, now), id, now, {}) ::
      t' == AfterDispatch(cfg, AfterSweep(cfg, t, now), id, now, endpoint, writeAt)
  }

  /** The event was answered with an HTTP status from 200 to 299. */
  ghost predicate Acknowledged(endpoint: Endpoint, c: Claimed) {
    exists status | 200 <= status <= 299 :: endpoint(c) == Some(Some(status))
  }

  /**
   * A round delivers its event exactly when the POST was answered with a status from 200 to 299. After any other
   * answer, or none, the event waits for its next attempt, or is exhausted if this was the last.
   */
  lemma StatusesDecide(cfg: Config, t: Tables, id: EventId, now: Time, endpoint: Endpoint, writeAt: Time, at: Time)
    requires Claimable(cfg, t, id, now, {})
    ensures var row, row' := t.outbox[id], AfterDispatch(cfg, t, id, now, endpoint, writeAt).outbox[id];
      && row'.attempts == row.attempts + 1
      && (row'.status == Delivered <==> exists status | 200 <= status <= 299 :: endpoint(ClaimOf(t, id)) == Some(Some(status)))
      && (row'.status == Exhausted <==> !Acknowledged(endpoint, ClaimOf(t, id)) && row.attempts + 1 >= cfg.maxAttempts)
      && (row'.status == Pending ==> (Elapsed(row', at) <==> at >= writeAt + RetryDelayMs(row.attempts + 1)))
  {
    if endpoint(ClaimOf(t, id)).Some? && Accepted(endpoint(ClaimOf(t, id)).value) {
      assert endpoint(ClaimOf(t, id)) == Some(Some(endpoint(ClaimOf(t, id)).value.value));
    }
  }

  lemma SweepKeepsRows(cfg: Config, t: Tables, now: Time)
    requires RowsOk(cfg, t)
    ensures RowsOk(cfg, AfterSweep(cfg, t, now))
  {
  }

  lemma DispatchKeepsRows(cfg: Config, t: Tables, id: EventId, now: Time, endpoint: Endpoint, writeAt: Time)
    requires RowsOk(cfg, t) && Claimable(cfg, t, id, now, {})
    ensures RowsOk(cfg, AfterDispatch(cfg, t, id, now, endpoint, writeAt))
    ensures OpenWork(cfg, AfterDispatch(cfg, t, id, now, endpoint, writeAt)) < OpenWork(cfg, t)
  {
    var c := ClaimOf(t, id);
    ClaimReducesWork(cfg, t, id, now);
    var claimed := AfterClaim(cfg, t, id, now);
    forall x | x in claimed.outbox ensures RowOk(cfg, claimed.outbox[x]) { assert RowOk(cfg, t.outbox[x]); }
    WriteAddsNoWork(cfg, claimed, c, endpoint(c).Some? && Accepted(endpoint(c).value), writeAt);
  }

  /** src/domain/permission-webhooks/permission-webhook-dispatcher.service.ts. */
  class PermissionWebhookDispatcherService {
    const db: Database
    const cfg: Config
    var running: bool

    constructor (db: Database, cfg: Config)
      ensures this.db == db && this.cfg == cfg && !running
    {
      this.db, this.cfg, running := db, cfg, false;
    }

    /** First sweep expired final leases, then lease the first due event. */
    method ClaimNext(now: Time) returns (claimed: Option<Claimed>)
      modifies db
      ensures var swept := AfterSweep(cfg, old(db.State()), now);
        && (claimed.None? ==> db.State() == swept && NothingDue(cfg, swept, now))
        && (claimed.Some? ==>
              && IsNext(cfg, swept, claimed.value.id, now, {})
              && claimed.value == ClaimOf(swept, claimed.value.id)
              && db.State() == AfterClaim(cfg, swept, claimed.value.id, now))
    {
      db.outbox := map id | id in db.outbox :: Swept(cfg, db.outbox[id], now);
      ghost var swept := db.State();
      var due := set id | id in db.outbox && db.outbox[id].status == Pending && Elapsed(db.outbox[id], now)
        && db.outbox[id].attempts < cfg.maxAttempts && db.outbox[id].service in db.subscriptions
        && db.subscriptions[db.outbox[id].service].active
        && db.outbox[id].eventType in db.subscriptions[db.outbox[id].service].eventTypes;
      assert forall id :: Claimable(cfg, swept, id, now, {}) <==> id in due;
      if due == {} { return None; }
      SomeRowLeads(db.outbox, due);
      var id :| id in due && Leads(db.outbox, due, id);
      var row := db.outbox[id];
      row := row.(attempts := row.attempts + 1, nextAttemptAt := Some(now + LeaseMs(cfg)), claim := Some(db.nextToken));
      claimed := Some(Claimed(id, row.service, row.attempts, db.nextToken));
      db.outbox := db.outbox[id := row];
      db.nextToken := db.nextToken + 1;
    }

    method Reschedule(c: Claimed, now: Time)
      modifies db`outbox
      ensures db.State() == AfterWrite(cfg, old(db.State()), c, false, now)
    {
      var exhausted := c.attempts >= cfg.maxAttempts;
      if c.id in db.outbox && db.outbox[c.id].attempts == c.attempts && db.outbox[c.id].claim == Some(c.claim) {
        db.outbox := db.outbox[c.id := db.outbox[c.id].(
          status := if exhausted then Exhausted else Pending,
          nextAttemptAt := if exhausted then None else Some(now + RetryDelayMs(c.attempts)),
          claim := None)];
      }
    }

    method MarkDelivered(c: Claimed, now: Time)
      modifies db`outbox
      ensures db.State() == AfterWrite(cfg, old(db.State()), c, true, now)
    {
      if c.id in db.outbox && db.outbox[c.id].attempts == c.attempts && db.outbox[c.id].claim == Some(c.claim) {
        db.outbox := db.outbox[c.id := db.outbox[c.id].(status := Delivered, nextAttemptAt := None, claim := None)];
      }
    }

    method DispatchOnce(now: Time, endpoint: Endpoint, writeAt: Time) returns (more: bool)
      requires RowsOk(cfg, db.State())
      modifies db
      ensures RowsOk(cfg, db.State())
      ensures !more ==> db.State() == AfterSweep(cfg, old(db.State()), now) && NothingDue(cfg, db.State(), now)
      ensures more ==> Dispatched(cfg, old(db.State()), db.State(), now, endpoint, writeAt)
      ensures more ==> exists id ::
        var swept := AfterSweep(cfg, old(db.State()), now);
        && IsNext(cfg, swept, id, now, {}) && id in db.outbox
        && (db.outbox[id].status == Delivered <==>
              exists status | 200 <= status <= 299 :: endpoint(ClaimOf(swept, id)) == Some(Some(status)))
      ensures OpenWork(cfg, db.State()) <= OpenWork(cfg, old(db.State()))
      ensures more ==> OpenWork(cfg, db.State()) < OpenWork(cfg, old(db.State()))
    {
      ghost var swept := AfterSweep(cfg, db.State(), now);
      SweepKeepsRows(cfg, db.State(), now);
      SweepAddsNoWork(cfg, db.State(), now);
      var claimed := ClaimNext(now);
      if claimed.None? { return false; }
      var c := claimed.value;
      DispatchKeepsRows(cfg, swept, c.id, now, endpoint, writeAt);
      StatusesDecide(cfg, swept, c.id, now, endpoint, writeAt, writeAt);
      var answer := endpoint(c);
      if answer.None? {
        Reschedule(c, writeAt);
        return true;
      }
      var response := answer.value;
      if response.Some? && 200 <= response.value < 300 {
        MarkDelivered(c, writeAt);
      } else {
        Reschedule(c, writeAt);
      }
      return true;
    }

    /**
     * Drains the due events. Alone, the loop ends after at most `OpenWork` rounds, whatever the
     * endpoint answers and however the clock moves.
     */
    method Tick(clock: nat -> Time, endpoint: (nat, Claimed) -> Option<Option<int>>) returns (rounds: nat)
      requires RowsOk(cfg, db.State())
      modifies this, db
      ensures RowsOk(cfg, db.State())
      ensures old(running) ==> rounds == 0 && db.State() == old(db.State()) && running
      ensures !old(running) ==>
                !running && rounds <= OpenWork(cfg, old(db.State())) && NothingDue(cfg, db.State(), clock(2 * rounds))
    {
      rounds := 0;
      if running { return; }
      running := true;
      var more := true;
      while more
        invariant RowsOk(cfg, db.State()) && rounds + OpenWork(cfg, db.State()) <= OpenWork(cfg, old(db.State()))
        invariant !more ==> NothingDue(cfg, db.State(), clock(2 * rounds))
        decreases more, OpenWork(cfg, db.State())
      {
        more := DispatchOnce(clock(2 * rounds), c => endpoint(rounds, c), clock(2 * rounds + 1));
        if more { rounds := rounds + 1; }
      }
      running := false;
    }
  }
}
