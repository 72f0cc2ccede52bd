/**
 * The permission webhook outbox: lease, retry, exhaustion and manual retry, as row updates.
 * src/domain/permission-webhooks/permission-webhook-dispatcher.service.ts,
 * src/domain/permission-webhooks/permission-webhooks.service.ts.
 */
module WebhookOutbox {
  import opened Prelude

  type EventId = nat
  type ServiceId = nat
  type ClaimToken = nat
  type Pos = n: nat | n >= 1 witness 1

  datatype EventType = PermissionUpdated | ApplicationRejected

  datatype OutboxStatus = Pending | Delivered | Exhausted

  datatype Row = Row(
    service: ServiceId,
    eventType: EventType,
    status: OutboxStatus,
    attempts: nat,
    nextAttemptAt: Option<Time>,
    claim: Option<ClaimToken>,
    createdAt: Time)

  datatype Subscription = Subscription(active: bool, eventTypes: set<EventType>)

  datatype Tables = Tables(
    outbox: map<EventId, Row>,
    subscriptions: map<ServiceId, Subscription>,
    nextToken: ClaimToken)

  /** `permissionWebhookMaxAttempts` and `permissionWebhookRequestTimeoutMs`, as whole numbers. */
  datatype Config = Config(maxAttempts: Pos, timeoutMs: Pos)

  /** What a claim returns to its worker. */
  datatype Claimed = Claimed(id: EventId, service: ServiceId, attempts: Pos, claim: ClaimToken)

  const LEASE_MARGIN_MS: int := 5_000

  function LeaseMs(cfg: Config): int { cfg.timeoutMs + LEASE_MARGIN_MS }

  // ---------------------------------------------------------------- backoff

  function Pow2(n: nat): Pos {
    if n == 0 then 1 else 2 * Pow2(n - 1)
  }

  function RetryDelayMs(attempt: nat): int {
    var delay := 5_000 * Pow2(if attempt >= 1 then attempt - 1 else 0);
    if delay < 300_000 then delay else 300_000
  }

  /** The delay starts at five seconds and doubles until it stands at five minutes. */
  lemma {:induction false} RetryDelayDoubles(attempt: Pos)
    ensures RetryDelayMs(1) == 5_000
    ensures 5_000 <= RetryDelayMs(attempt) <= 300_000
    ensures RetryDelayMs(attempt + 1) == (if 2 * RetryDelayMs(attempt) < 300_000 then 2 * RetryDelayMs(attempt) else 300_000)
    ensures attempt >= 7 ==> RetryDelayMs(attempt) == 300_000
  {
    if attempt > 1 {
      RetryDelayDoubles(attempt - 1);
      assert Pow2(attempt) == 2 * Pow2(attempt - 1);
    }
  }

  // ---------------------------------------------------------------- single statements

  predicate Elapsed(row: Row, now: Time) {
    row.nextAttemptAt.Some? && row.nextAttemptAt.value <= now
  }

  predicate Sweepable(cfg: Config, row: Row, now: Time) {
    row.status == Pending && row.attempts >= cfg.maxAttempts && Elapsed(row, now)
  }

  function Swept(cfg: Config, row: Row, now: Time): Row {
    if Sweepable(cfg, row, now) then row.(status := Exhausted, nextAttemptAt := None, claim := None) else row
  }

  function AfterSweep(cfg: Config, t: Tables, now: Time): Tables {
    t.(outbox := map id | id in t.outbox :: Swept(cfg, t.outbox[id], now))
  }

  predicate Claimable(cfg: Config, t: Tables, id: EventId, now: Time, locked: set<EventId>) {
    && id in t.outbox && id !in locked
    && var row := t.outbox[id];
       && row.status == Pending && Elapsed(row, now) && row.attempts < cfg.maxAttempts
       && row.service in t.subscriptions
       && t.subscriptions[row.service].active
       && row.eventType in t.subscriptions[row.service].eventTypes
  }

  /** ORDER BY next_attempt_at ASC, created_at ASC. */
  predicate Precedes(a: Row, b: Row) {
    a.nextAttemptAt.Some? && b.nextAttemptAt.Some?
    && (a.nextAttemptAt.value < b.nextAttemptAt.value
        || (a.nextAttemptAt.value == b.nextAttemptAt.value && a.createdAt < b.createdAt))
  }

  /** No row of `ids` comes before row `id`. */
  predicate Leads(rows: map<EventId, Row>, ids: set<EventId>, id: EventId)
    requires ids <= rows.Keys && id in ids
  {
    forall other | other in ids :: !Precedes(rows[other], rows[id])
  }

  lemma SomeRowLeads(rows: map<EventId, Row>, ids: set<EventId>)
    requires ids <= rows.Keys && ids != {}
    ensures exists id | id in ids :: Leads(rows, ids, id)
  {
    FirstExists(rows, Precedes, ids);
    var id :| id in ids && IsFirst(rows, Precedes, ids, id);
    assert Leads(rows, ids, id);
  }

  ghost predicate IsNext(cfg: Config, t: Tables, id: EventId, now: Time, locked: set<EventId>) {
    && Claimable(cfg, t, id, now, locked)
    && forall other | Claimable(cfg, t, other, now, locked) :: !Precedes(t.outbox[other], t.outbox[id])
  }

  function AfterClaim(cfg: Config, t: Tables, id: EventId, now: Time): Tables
    requires id in t.outbox
  {
    var row := t.outbox[id];
    t.(outbox := t.outbox[id := row.(attempts := row.attempts + 1, nextAttemptAt := Some(now + LeaseMs(cfg)),
                                     claim := Some(t.nextToken))],
       nextToken := t.nextToken + 1)
  }

  function ClaimOf(t: Tables, id: EventId): Claimed
    requires id in t.outbox
  {
    Claimed(id, t.outbox[id].service, t.outbox[id].attempts + 1, t.nextToken)
  }

  /** The compare-and-set guard of every result update. */
  predicate Owns(t: Tables, c: Claimed) {
    c.id in t.outbox && t.outbox[c.id].attempts == c.attempts && t.outbox[c.id].claim == Some(c.claim)
  }

  function Rescheduled(cfg: Config, row: Row, attempts: Pos, now: Time): Row {
    if attempts >= cfg.maxAttempts then row.(status := Exhausted, nextAttemptAt := None, claim := None)
    else row.(status := Pending, nextAttemptAt := Some(now + RetryDelayMs(attempts)), claim := None)
  }

  /** A POST that got no answer is not accepted. */
  predicate Accepted(status: Option<int>) { status.Some? && 200 <= status.value < 300 }

  /** Write the outcome of an attempt, if the claim still stands. */
  function AfterWrite(cfg: Config, t: Tables, c: Claimed, ok: bool, now: Time): Tables {
    if !Owns(t, c) then t
    else t.(outbox := t.outbox[c.id :=
      if ok then t.outbox[c.id].(status := Delivered, nextAttemptAt := None, claim := None)
      else Rescheduled(cfg, t.outbox[c.id], c.attempts, now)])
  }

  function Enqueued(service: ServiceId, events: map<EventId, EventType>, now: Time): map<EventId, Row> {
    map id | id in events :: Row(service, events[id], Pending, 0, Some(now), None, now)
  }

  /** The subscribed part of a batch of events becomes pending rows. */
  function AfterEnqueue(t: Tables, enabled: bool, service: ServiceId, events: map<EventId, EventType>,
                        now: Time): Tables {
    if !enabled || service !in t.subscriptions || !t.subscriptions[service].active then t
    else
      var wanted := map id | id in events && events[id] in t.subscriptions[service].eventTypes :: events[id];
      t.(outbox := t.outbox + Enqueued(service, wanted, now))
  }

  predicate Retryable(t: Tables, service: ServiceId, id: EventId) {
    id in t.outbox && t.outbox[id].service == service
  }

  function AfterRetry(t: Tables, service: ServiceId, id: EventId, now: Time): Tables {
    if !Retryable(t, service, id) then t
    else t.(outbox := t.outbox[id := t.outbox[id].(status := Pending, attempts := 0, nextAttemptAt := Some(now), claim := None)])
  }

  // ---------------------------------------------------------------- when a row is claimed, and what becomes of it

  /** The claim query: due, below the maximum, wanted by an active subscription; the earliest due time first. */
  lemma ClaimsTheEarliest(cfg: Config, t: Tables, id: EventId, now: Time, locked: set<EventId>)
    ensures (exists x :: IsNext(cfg, t, x, now, locked)) <==>
      exists x | x in t.outbox ::
        && x !in locked && t.outbox[x].status == Pending && t.outbox[x].attempts < cfg.maxAttempts
        && t.outbox[x].nextAttemptAt.Some? && t.outbox[x].nextAttemptAt.value <= now
        && t.outbox[x].service in t.subscriptions && t.subscriptions[t.outbox[x].service].active
        && t.outbox[x].eventType in t.subscriptions[t.outbox[x].service].eventTypes
    ensures IsNext(cfg, t, id, now, locked) ==>
      forall x | Claimable(cfg, t, x, now, locked) ::
        var a, b := t.outbox[id], t.outbox[x];
        a.nextAttemptAt.value < b.nextAttemptAt.value
        || (a.nextAttemptAt == b.nextAttemptAt && a.createdAt <= b.createdAt)
  {
    var due := set x | x in t.outbox && Claimable(cfg, t, x, now, locked);
    if due != {} {
      SomeRowLeads(t.outbox, due);
      var x :| x in due && Leads(t.outbox, due, x);
      assert forall y | Claimable(cfg, t, y, now, locked) :: y in due;
      assert IsNext(cfg, t, x, now, locked);
    }
    forall x | x in t.outbox && x !in due ensures !Claimable(cfg, t, x, now, locked) {}
  }

  /** A lease lasts for the timeout of a POST and five seconds; then the row is claimed again, or swept at the maximum. */
  lemma LeaseLasts(cfg: Config, t: Tables, id: EventId, now: Time, at: Time)
    requires id in t.outbox && Claimable(cfg, t, id, now, {})
    ensures var t' := AfterClaim(cfg, t, id, now);
      && t'.outbox[id].attempts == t.outbox[id].attempts + 1
      && (Claimable(cfg, t', id, at, {}) <==> at >= now + cfg.timeoutMs + 5_000 && t.outbox[id].attempts + 1 < cfg.maxAttempts)
      && (AfterSweep(cfg, t', at).outbox[id].status == Exhausted <==>
            at >= now + cfg.timeoutMs + 5_000 && t.outbox[id].attempts + 1 >= cfg.maxAttempts)
  {
  }

  /** A failed attempt is retried after its delay while attempts are left, and is the last one otherwise. */
  lemma FailuresWait(cfg: Config, t: Tables, c: Claimed, now: Time, at: Time)
    requires Owns(t, c)
    ensures var row := AfterWrite(cfg, t, c, false, now).outbox[c.id];
      && (row.status == Exhausted <==> c.attempts >= cfg.maxAttempts)
      && (row.status == Pending <==> c.attempts < cfg.maxAttempts)
      && (Elapsed(row, at) <==> c.attempts < cfg.maxAttempts && at >= now + RetryDelayMs(c.attempts))
      && row.claim.None? && row.attempts == t.outbox[c.id].attempts
  {
  }

  /** Enqueued and retried rows are due at once, with no attempt behind them; nothing else changes. */
  lemma EnqueuedIsDue(t: Tables, enabled: bool, service: ServiceId, events: map<EventId, EventType>, now: Time, at: Time,
                      id: EventId)
    requires id !in t.outbox
    ensures var t' := AfterEnqueue(t, enabled, service, events, now);
      && (id in t'.outbox <==>
            && enabled && id in events && service in t.subscriptions && t.subscriptions[service].active
            && events[id] in t.subscriptions[service].eventTypes)
      && (id in t'.outbox ==>
            var row := t'.outbox[id];
            row.status == Pending && row.attempts == 0 && row.service == service && row.eventType == events[id]
            && row.claim.None? && (Elapsed(row, at) <==> at >= now))
  {
  }

  lemma RetriedIsDue(t: Tables, service: ServiceId, id: EventId, now: Time, at: Time)
    requires id in t.outbox
    ensures var row, row' := t.outbox[id], AfterRetry(t, service, id, now).outbox[id];
      if row.service != service then row' == row
      else row'.status == Pending && row'.attempts == 0 && row'.claim.None? && row'.createdAt == row.createdAt
           && (Elapsed(row', at) <==> at >= now)
  {
  }

  // ---------------------------------------------------------------- what every row keeps

  /**
   * Attempts stay within the maximum; a row is due for something exactly while pending; a claim token
   * sits only on a pending row that has been attempted; a pending row at the maximum is still leased;
   * exhausted means the maximum was used up.
   */
  predicate RowOk(cfg: Config, row: Row) {
    && row.attempts <= cfg.maxAttempts
    && (row.status == Pending <==> row.nextAttemptAt.Some?)
    && (row.claim.Some? ==> row.status == Pending && row.attempts >= 1)
    && (row.status == Pending && row.attempts == cfg.maxAttempts ==> row.claim.Some?)
    && (row.status == Exhausted ==> row.attempts == cfg.maxAttempts)
    && (row.status == Delivered ==> row.attempts >= 1)
  }

  ghost predicate RowsOk(cfg: Config, t: Tables) {
    forall id | id in t.outbox :: RowOk(cfg, t.outbox[id])
  }

  // ---------------------------------------------------------------- draining terminates

  function OpenWeight(maxAttempts: nat): Row -> nat {
    (row: Row) => if row.status == Pending && row.attempts < maxAttempts then maxAttempts - row.attempts else 0
  }

  ghost function OpenWork(cfg: Config, t: Tables): nat { Sum(t.outbox, OpenWeight(cfg.maxAttempts)) }

  lemma ClaimReducesWork(cfg: Config, t: Tables, id: EventId, now: Time)
    requires id in t.outbox && t.outbox[id].status == Pending && t.outbox[id].attempts < cfg.maxAttempts
    ensures OpenWork(cfg, AfterClaim(cfg, t, id, now)) < OpenWork(cfg, t)
  {
    SumUpdate(t.outbox, OpenWeight(cfg.maxAttempts), id, AfterClaim(cfg, t, id, now).outbox[id]);
  }

  lemma WriteAddsNoWork(cfg: Config, t: Tables, c: Claimed, ok: bool, now: Time)
    requires RowsOk(cfg, t)
    ensures OpenWork(cfg, AfterWrite(cfg, t, c, ok, now)) <= OpenWork(cfg, t)
  {
    if Owns(t, c) {
      SumUpdate(t.outbox, OpenWeight(cfg.maxAttempts), c.id, AfterWrite(cfg, t, c, ok, now).outbox[c.id]);
    }
  }

  lemma {:induction false} SweepAddsNoWork(cfg: Config, t: Tables, now: Time)
    ensures OpenWork(cfg, AfterSweep(cfg, t, now)) == OpenWork(cfg, t)
  {
    SameWeights(t.outbox, AfterSweep(cfg, t, now).outbox, OpenWeight(cfg.maxAttempts));
  }

  lemma {:induction false} SameWeights(a: map<EventId, Row>, b: map<EventId, Row>, weight: Row -> nat)
    requires a.Keys == b.Keys && forall id | id in a :: weight(a[id]) == weight(b[id])
    ensures Sum(a, weight) == Sum(b, weight)
    decreases |a|
  {
    if a == map[] {
      assert b == map[];
    } else {
      var id :| id in a;
      SumSplit(a, weight, id);
      SumSplit(b, weight, id);
      SameWeights(a - {id}, b - {id}, weight);
    }
  }
}
