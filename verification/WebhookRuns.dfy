/**
 * Any number of dispatchers over the permission webhook outbox, interleaved statement by statement.
 * A worker claims, looks its subscription up, posts, and writes the outcome back; it may crash
 * anywhere, and an administrator may retry a delivery by hand.
 */
module WebhookRuns {
  import opened Prelude
  import opened WebhookOutbox

  /** How far a claim has come. */
  datatype Phase =
    | LookingUp
    | Posting(since: Time)
    | Answered(answer: Option<int>)
    | Done(answer: Option<int>)
    | Crashed

  datatype Worker = Worker(claimed: WebhookOutbox.Claimed, claimedAt: Time, phase: Phase)

  /** Tables and clock, plus history: every claim ever made, the POSTs started, the retries asked for. */
  datatype System = System(
    t: Tables,
    now: Time,
    workers: map<ClaimToken, Worker>,
    posted: set<ClaimToken>,
    retries: map<EventId, nat>)

  datatype Step =
    | Advance(now: Time)
    | SetSubscription(service: ServiceId, subscription: Subscription)
    | Enqueue(enabled: bool, service: ServiceId, events: map<EventId, EventType>)
    | Sweep
    | Claim(id: EventId, locked: set<EventId>)
    | LookupFails(token: ClaimToken)
    | StartPost(token: ClaimToken)
    | EndPost(token: ClaimToken, answer: Option<int>)
    | Write(token: ClaimToken)
    | Crash(token: ClaimToken)
    | Retry(service: ServiceId, id: EventId)

  predicate SubscriptionActive(t: Tables, service: ServiceId) {
    service in t.subscriptions && t.subscriptions[service].active
  }

  ghost predicate Legal(cfg: Config, s: System, step: Step) {
    match step
    case Advance(now) => s.now <= now
    case SetSubscription(_, _) => true
    case Enqueue(_, _, events) => events.Keys !! s.t.outbox.Keys
    case Sweep => true
    case Claim(id, locked) => IsNext(cfg, s.t, id, s.now, locked)
    case LookupFails(k) =>
      k in s.workers && s.workers[k].phase == LookingUp && !SubscriptionActive(s.t, s.workers[k].claimed.service)
    case StartPost(k) =>
      k in s.workers && s.workers[k].phase == LookingUp && SubscriptionActive(s.t, s.workers[k].claimed.service)
    case EndPost(k, _) => k in s.workers && s.workers[k].phase.Posting?
    case Write(k) => k in s.workers && s.workers[k].phase.Answered?
    case Crash(k) => k in s.workers && !s.workers[k].phase.Done?
    case Retry(service, id) => true
  }

  function InPhase(s: System, k: ClaimToken, phase: Phase): System {
    if k in s.workers then s.(workers := s.workers[k := s.workers[k].(phase := phase)]) else s
  }

  function Count(retries: map<EventId, nat>, id: EventId): nat {
    if id in retries then retries[id] else 0
  }

  function Next(cfg: Config, s: System, step: Step): System {
    match step
    case Advance(now) => s.(now := now)
    case SetSubscription(service, subscription) =>
      s.(t := s.t.(subscriptions := s.t.subscriptions[service := subscription]))
    case Enqueue(enabled, service, events) => s.(t := AfterEnqueue(s.t, enabled, service, events, s.now))
    case Sweep => s.(t := AfterSweep(cfg, s.t, s.now))
    case Claim(id, locked) =>
      if id !in s.t.outbox then s
      else s.(t := AfterClaim(cfg, s.t, id, s.now),
              workers := s.workers[s.t.nextToken := Worker(ClaimOf(s.t, id), s.now, LookingUp)])
    case LookupFails(k) => InPhase(s, k, Answered(None))
    case StartPost(k) => InPhase(s, k, Posting(s.now)).(posted := s.posted + {k})
    case EndPost(k, answer) => InPhase(s, k, Answered(answer))
    case Write(k) =>
      if k in s.workers && s.workers[k].phase.Answered?
      then InPhase(s, k, Done(s.workers[k].phase.answer)).(
             t := AfterWrite(cfg, s.t, s.workers[k].claimed, Accepted(s.workers[k].phase.answer), s.now))
      else s
    case Crash(k) => InPhase(s, k, Crashed)
    case Retry(service, id) =>
      if Retryable(s.t, service, id)
      then s.(t := AfterRetry(s.t, service, id, s.now), retries := s.retries[id := Count(s.retries, id) + 1])
      else s
  }

  ghost function Run(cfg: Config, s: System, steps: seq<Step>): System {
    if steps == [] then s else Next(cfg, Run(cfg, s, steps[..|steps| - 1]), steps[|steps| - 1])
  }

  ghost predicate LegalRun(cfg: Config, s: System, steps: seq<Step>) {
    steps == []
    || (LegalRun(cfg, s, steps[..|steps| - 1])
        && Legal(cfg, Run(cfg, s, steps[..|steps| - 1]), steps[|steps| - 1]))
  }

  function Start(now: Time): System {
    System(Tables(map[], map[], 0), now, map[], {}, map[])
  }

  // ---------------------------------------------------------------- the invariant

  ghost predicate WorkerOk(cfg: Config, s: System, k: ClaimToken)
    requires k in s.workers
  {
    var c := s.workers[k].claimed;
    && k < s.t.nextToken && c.claim == k
    && c.id in s.t.outbox
    && c.attempts <= cfg.maxAttempts
    && (s.t.outbox[c.id].claim == Some(k) ==> s.t.outbox[c.id].attempts == c.attempts)
    && (s.workers[k].phase.Posting? ==> k in s.posted)
    && ((s.workers[k].phase.Answered? || s.workers[k].phase.Done?) && s.workers[k].phase.answer.Some? ==> k in s.posted)
  }

  ghost predicate WorkersOk(cfg: Config, s: System) {
    && (forall k | k in s.workers :: WorkerOk(cfg, s, k))
    && s.posted <= s.workers.Keys
    && (forall id | id in s.retries :: id in s.t.outbox)
  }

  /** A current token belongs to a worker that claimed this very row. */
  ghost predicate TokensOk(s: System) {
    forall id | id in s.t.outbox && s.t.outbox[id].claim.Some? ::
      var k := s.t.outbox[id].claim.value;
      k in s.workers && s.workers[k].claimed.id == id
  }

  ghost function ClaimsOf(s: System, id: EventId): set<ClaimToken> {
    WorkersOn(s.workers, id)
  }

  /** Between two manual retries the attempts column counts the claims. */
  ghost predicate CountsOk(cfg: Config, s: System) {
    forall id | id in s.t.outbox ::
      |ClaimsOf(s, id)| <= cfg.maxAttempts * Count(s.retries, id) + s.t.outbox[id].attempts
  }

  ghost predicate Inv(cfg: Config, s: System) {
    RowsOk(cfg, s.t) && WorkersOk(cfg, s) && TokensOk(s) && CountsOk(cfg, s)
  }

  lemma StepKeepsRows(cfg: Config, s: System, step: Step)
    requires RowsOk(cfg, s.t) && WorkersOk(cfg, s) && Legal(cfg, s, step)
    ensures RowsOk(cfg, Next(cfg, s, step).t)
  {
    var t' := Next(cfg, s, step).t;
    forall id | id in t'.outbox ensures RowOk(cfg, t'.outbox[id]) {
      assert id in s.t.outbox ==> RowOk(cfg, s.t.outbox[id]);
    }
  }

  lemma StepKeepsWorkers(cfg: Config, s: System, step: Step)
    requires RowsOk(cfg, s.t) && WorkersOk(cfg, s) && Legal(cfg, s, step)
    ensures WorkersOk(cfg, Next(cfg, s, step))
  {
    var s' := Next(cfg, s, step);
    forall k | k in s'.workers ensures WorkerOk(cfg, s', k) {
      if k in s.workers { StepKeepsWorker(cfg, s, step, k); }
    }
  }

  lemma StepKeepsWorker(cfg: Config, s: System, step: Step, k: ClaimToken)
    requires RowsOk(cfg, s.t) && k in s.workers && WorkerOk(cfg, s, k) && Legal(cfg, s, step)
    ensures k in Next(cfg, s, step).workers && WorkerOk(cfg, Next(cfg, s, step), k)
  {
  }

  lemma StepKeepsTokens(cfg: Config, s: System, step: Step)
    requires TokensOk(s) && WorkersOk(cfg, s) && Legal(cfg, s, step)
    ensures TokensOk(Next(cfg, s, step))
  {
    var s' := Next(cfg, s, step);
    forall k | k in s.workers ensures k < s.t.nextToken { assert WorkerOk(cfg, s, k); }
    forall id | id in s'.t.outbox && s'.t.outbox[id].claim.Some?
      ensures s'.t.outbox[id].claim.value in s'.workers && s'.workers[s'.t.outbox[id].claim.value].claimed.id == id
    {
    }
  }

  /** Tokens are never handed out twice. */
  lemma TokenIsNew(cfg: Config, s: System)
    requires WorkersOk(cfg, s)
    ensures s.t.nextToken !in s.workers
  {
    assert forall k | k in s.workers :: WorkerOk(cfg, s, k) && k < s.t.nextToken;
  }

  lemma ClaimIsCounted(cfg: Config, s: System, id: EventId, locked: set<EventId>, x: EventId)
    requires WorkersOk(cfg, s) && id in s.t.outbox
    ensures |ClaimsOf(Next(cfg, s, Claim(id, locked)), x)| == |ClaimsOf(s, x)| + (if x == id then 1 else 0)
  {
    TokenIsNew(cfg, s);
    NewWorkerIsCounted(s.workers, s.t.nextToken, Worker(ClaimOf(s.t, id), s.now, LookingUp), x);
  }

  ghost function WorkersOn(workers: map<ClaimToken, Worker>, id: EventId): set<ClaimToken> {
    set k | k in workers && workers[k].claimed.id == id
  }

  lemma NewWorkerIsCounted(workers: map<ClaimToken, Worker>, k: ClaimToken, worker: Worker, id: EventId)
    requires k !in workers
    ensures |WorkersOn(workers[k := worker], id)| == |WorkersOn(workers, id)| + (if worker.claimed.id == id then 1 else 0)
  {
    if worker.claimed.id == id {
      assert WorkersOn(workers[k := worker], id) == WorkersOn(workers, id) + {k};
    } else {
      assert WorkersOn(workers[k := worker], id) == WorkersOn(workers, id);
    }
  }

  lemma ClaimKeepsCounts(cfg: Config, s: System, id: EventId, locked: set<EventId>)
    requires CountsOk(cfg, s) && WorkersOk(cfg, s) && id in s.t.outbox
    ensures CountsOk(cfg, Next(cfg, s, Claim(id, locked)))
  {
    var s' := Next(cfg, s, Claim(id, locked));
    forall x | x in s'.t.outbox
      ensures |ClaimsOf(s', x)| <= cfg.maxAttempts * Count(s'.retries, x) + s'.t.outbox[x].attempts
    {
      ClaimIsCounted(cfg, s, id, locked, x);
      assert |ClaimsOf(s, x)| <= cfg.maxAttempts * Count(s.retries, x) + s.t.outbox[x].attempts;
    }
  }

  lemma RetryKeepsCounts(cfg: Config, s: System, service: ServiceId, id: EventId)
    requires RowsOk(cfg, s.t) && CountsOk(cfg, s)
    ensures CountsOk(cfg, Next(cfg, s, Retry(service, id)))
  {
    var s' := Next(cfg, s, Retry(service, id));
    if Retryable(s.t, service, id) {
      assert RowOk(cfg, s.t.outbox[id]);
      assert cfg.maxAttempts * (Count(s.retries, id) + 1) == cfg.maxAttempts * Count(s.retries, id) + cfg.maxAttempts;
    }
    forall x | x in s'.t.outbox
      ensures |ClaimsOf(s', x)| <= cfg.maxAttempts * Count(s'.retries, x) + s'.t.outbox[x].attempts
    {
      assert ClaimsOf(s', x) == ClaimsOf(s, x);
    }
  }

  lemma OtherKeepsCounts(cfg: Config, s: System, s': System)
    requires CountsOk(cfg, s) && WorkersOk(cfg, s)
    requires s'.workers.Keys == s.workers.Keys && s'.retries == s.retries
    requires forall k | k in s.workers :: s'.workers[k].claimed == s.workers[k].claimed
    requires forall id | id in s'.t.outbox && id in s.t.outbox :: s'.t.outbox[id].attempts == s.t.outbox[id].attempts
    ensures CountsOk(cfg, s')
  {
    forall id | id in s'.t.outbox
      ensures |ClaimsOf(s', id)| <= cfg.maxAttempts * Count(s'.retries, id) + s'.t.outbox[id].attempts
    {
      assert ClaimsOf(s', id) == ClaimsOf(s, id);
      if id !in s.t.outbox { NoClaimsYet(cfg, s, id); }
    }
  }

  lemma StepKeepsCounts(cfg: Config, s: System, step: Step)
    requires RowsOk(cfg, s.t) && CountsOk(cfg, s) && WorkersOk(cfg, s) && Legal(cfg, s, step)
    ensures CountsOk(cfg, Next(cfg, s, step))
  {
    if step.Claim? {
      ClaimKeepsCounts(cfg, s, step.id, step.locked);
    } else if step.Retry? {
      RetryKeepsCounts(cfg, s, step.service, step.id);
    } else {
      OthersKeepTables(cfg, s, step);
      hide Next, RowsOk, WorkersOk, CountsOk;
      OtherKeepsCounts(cfg, s, Next(cfg, s, step));
    }
  }

  /** No step but a claim or a retry makes a claim, counts a retry, or changes an attempts column. */
  lemma OthersKeepTables(cfg: Config, s: System, step: Step)
    requires Legal(cfg, s, step) && !step.Claim? && !step.Retry?
    ensures var s' := Next(cfg, s, step);
      && s'.workers.Keys == s.workers.Keys && s'.retries == s.retries
      && (forall k | k in s.workers :: s'.workers[k].claimed == s.workers[k].claimed)
      && (forall id | id in s'.t.outbox && id in s.t.outbox :: s'.t.outbox[id].attempts == s.t.outbox[id].attempts)
  {
  }

  lemma NoClaimsYet(cfg: Config, s: System, id: EventId)
    requires WorkersOk(cfg, s) && id !in s.t.outbox
    ensures ClaimsOf(s, id) == {} && Count(s.retries, id) == 0
  {
    forall k | k in s.workers ensures s.workers[k].claimed.id != id { assert WorkerOk(cfg, s, k); }
  }

  lemma StepKeepsInv(cfg: Config, s: System, step: Step)
    requires Inv(cfg, s) && Legal(cfg, s, step)
    ensures Inv(cfg, Next(cfg, s, step))
  {
    StepKeepsRows(cfg, s, step);
    StepKeepsWorkers(cfg, s, step);
    StepKeepsTokens(cfg, s, step);
    StepKeepsCounts(cfg, s, step);
  }

  /** Every reachable outbox row is well formed, whatever the dispatchers and administrators do. */
  lemma {:induction false} RunKeepsInv(cfg: Config, s: System, steps: seq<Step>)
    requires Inv(cfg, s) && LegalRun(cfg, s, steps)
    ensures Inv(cfg, Run(cfg, s, steps))
  {
    if steps != [] {
      RunKeepsInv(cfg, s, steps[..|steps| - 1]);
      StepKeepsInv(cfg, Run(cfg, s, steps[..|steps| - 1]), steps[|steps| - 1]);
    }
  }

  lemma StartInv(cfg: Config, now: Time)
    ensures Inv(cfg, Start(now))
  {
  }

  // ---------------------------------------------------------------- what holds over every run

  /** The workers whose POST of the event was started. */
  ghost function PostsOf(s: System, id: EventId): set<ClaimToken> {
    set k | k in s.posted && k in s.workers && s.workers[k].claimed.id == id
  }

  lemma Subset(a: set<ClaimToken>, b: set<ClaimToken>)
    requires a <= b
    ensures |a| <= |b|
  {
    assert b == a + (b - a);
  }

  /** However many dispatchers run and crash, an event is POSTed at most `max` times for each manual retry, and `max` times before. */
  lemma PostsAreBounded(cfg: Config, s: System, steps: seq<Step>, id: EventId)
    requires Inv(cfg, s) && LegalRun(cfg, s, steps)
    ensures var s' := Run(cfg, s, steps);
      |PostsOf(s', id)| <= cfg.maxAttempts * (1 + Count(s'.retries, id))
  {
    var s' := Run(cfg, s, steps);
    RunKeepsInv(cfg, s, steps);
    Subset(PostsOf(s', id), ClaimsOf(s', id));
    if id in s'.t.outbox {
      assert RowOk(cfg, s'.t.outbox[id]);
    } else {
      NoClaimsYet(cfg, s', id);
    }
    assert cfg.maxAttempts * (1 + Count(s'.retries, id)) == cfg.maxAttempts + cfg.maxAttempts * Count(s'.retries, id);
  }

  /** A POST of the event was answered 2xx, and its worker wrote that back. */
  ghost predicate Acknowledged(s: System, id: EventId) {
    exists k | k in s.workers :: s.workers[k].claimed.id == id && WroteSuccess(s.workers[k])
  }

  /** The POST got an HTTP status from 200 to 299. */
  predicate WroteSuccess(w: Worker) {
    w.phase.Done? && w.phase.answer.Some? && 200 <= w.phase.answer.value <= 299
  }

  lemma StepKeepsAcknowledged(cfg: Config, s: System, step: Step, id: EventId)
    requires WorkersOk(cfg, s) && Legal(cfg, s, step)
    requires id in s.t.outbox && s.t.outbox[id].status == Delivered ==> Acknowledged(s, id)
    requires id in Next(cfg, s, step).t.outbox && Next(cfg, s, step).t.outbox[id].status == Delivered
    ensures Acknowledged(Next(cfg, s, step), id)
  {
    var s' := Next(cfg, s, step);
    TokenIsNew(cfg, s);
    if step.Write? && AfterWrite(cfg, s.t, s.workers[step.token].claimed, Accepted(s.workers[step.token].phase.answer), s.now) != s.t
       && s.workers[step.token].claimed.id == id {
      assert s'.workers[step.token].phase == Done(s.workers[step.token].phase.answer);
    } else {
      var k :| k in s.workers && s.workers[k].claimed.id == id && WroteSuccess(s.workers[k]);
      assert s'.workers[k] == s.workers[k];
    }
  }

  /** A row reads delivered only after a POST of its event was answered 2xx. */
  lemma {:induction false} DeliveredWasAcknowledged(cfg: Config, now: Time, steps: seq<Step>, id: EventId)
    requires LegalRun(cfg, Start(now), steps)
    requires id in Run(cfg, Start(now), steps).t.outbox
    requires Run(cfg, Start(now), steps).t.outbox[id].status == Delivered
    ensures Acknowledged(Run(cfg, Start(now), steps), id)
    ensures PostsOf(Run(cfg, Start(now), steps), id) != {}
  {
    var before := steps[..|steps| - 1];
    StartInv(cfg, now);
    RunKeepsInv(cfg, Start(now), before);
    var s := Run(cfg, Start(now), before);
    if id in s.t.outbox && s.t.outbox[id].status == Delivered { DeliveredWasAcknowledged(cfg, now, before, id); }
    StepKeepsAcknowledged(cfg, s, steps[|steps| - 1], id);
    RunKeepsInv(cfg, Start(now), steps);
    var s' := Run(cfg, Start(now), steps);
    var k :| k in s'.workers && s'.workers[k].claimed.id == id && WroteSuccess(s'.workers[k]);
    assert WorkerOk(cfg, s', k);
    assert k in PostsOf(s', id);
  }

  /** The worker no longer holds the claim token of its row. */
  predicate Stale(s: System, k: ClaimToken) {
    k in s.workers && (s.workers[k].claimed.id in s.t.outbox ==> s.t.outbox[s.workers[k].claimed.id].claim != Some(k))
  }

  lemma StepKeepsStale(cfg: Config, s: System, step: Step, k: ClaimToken)
    requires WorkersOk(cfg, s) && Legal(cfg, s, step) && Stale(s, k)
    ensures Stale(Next(cfg, s, step), k)
  {
    TokenIsNew(cfg, s);
    assert WorkerOk(cfg, s, k);
  }

  /** A stale worker can never overwrite a row again: not a later success, and not a manual retry. */
  lemma {:induction false} StaleWorkerWritesNothing(cfg: Config, s: System, steps: seq<Step>, k: ClaimToken)
    requires Inv(cfg, s) && LegalRun(cfg, s, steps) && Stale(s, k)
    ensures var s' := Run(cfg, s, steps);
      Stale(s', k) && Next(cfg, s', Write(k)).t == s'.t
  {
    if steps != [] {
      hide Next, Legal, Stale;
      var before := steps[..|steps| - 1];
      StaleWorkerWritesNothing(cfg, s, before, k);
      RunKeepsInv(cfg, s, before);
      StepKeepsStale(cfg, Run(cfg, s, before), steps[|steps| - 1], k);
    }
    RunKeepsInv(cfg, s, steps);
    StaleWritesNothing(cfg, Run(cfg, s, steps), k);
  }

  lemma StaleWritesNothing(cfg: Config, s: System, k: ClaimToken)
    requires WorkersOk(cfg, s) && Stale(s, k)
    ensures Next(cfg, s, Write(k)).t == s.t
  {
    assert WorkerOk(cfg, s, k);
  }

  /** A manual retry, a reclaim and the worker's own write all make its claim stale. */
  lemma WhatMakesStale(cfg: Config, s: System, step: Step, k: ClaimToken)
    requires Inv(cfg, s) && Legal(cfg, s, step) && k in s.workers
    requires var id := s.workers[k].claimed.id;
      || (step.Retry? && step.id == id && Retryable(s.t, step.service, id))
      || (step.Claim? && step.id == id)
      || step == Write(k)
    ensures Stale(Next(cfg, s, step), k)
  {
    TokenIsNew(cfg, s);
    assert WorkerOk(cfg, s, k);
  }

  lemma ClosedStepUnchanged(cfg: Config, s: System, step: Step, id: EventId)
    requires RowsOk(cfg, s.t) && Legal(cfg, s, step) && !(step.Retry? && step.id == id)
    requires id in s.t.outbox && s.t.outbox[id].status != Pending
    ensures id in Next(cfg, s, step).t.outbox && Next(cfg, s, step).t.outbox[id] == s.t.outbox[id]
  {
    assert RowOk(cfg, s.t.outbox[id]);
  }

  /** Delivered and exhausted rows never change again, unless someone retries them by hand. */
  lemma {:induction false} ClosedUntilRetry(cfg: Config, s: System, steps: seq<Step>, id: EventId)
    requires Inv(cfg, s) && LegalRun(cfg, s, steps)
    requires forall i | 0 <= i < |steps| :: !(steps[i].Retry? && steps[i].id == id)
    requires id in s.t.outbox && s.t.outbox[id].status != Pending
    ensures id in Run(cfg, s, steps).t.outbox && Run(cfg, s, steps).t.outbox[id] == s.t.outbox[id]
  {
    if steps != [] {
      var before := steps[..|steps| - 1];
      ClosedUntilRetry(cfg, s, before, id);
      RunKeepsInv(cfg, s, before);
      ClosedStepUnchanged(cfg, Run(cfg, s, before), steps[|steps| - 1], id);
    }
  }

  // ---------------------------------------------------------------- the lease excludes overlapping POSTs

  /**
   * Real time: the subscription lookup after a claim takes less than the lease margin, the clock never passes the
   * hard deadline of an open POST, and nobody retries an event by hand while a worker of it is in flight.
   */
  ghost predicate Timely(cfg: Config, s: System, step: Step) {
    match step
    case Advance(now) =>
      forall k | k in s.workers && s.workers[k].phase.Posting? :: now <= s.workers[k].phase.since + cfg.timeoutMs
    case StartPost(k) => k in s.workers && s.now < s.workers[k].claimedAt + LEASE_MARGIN_MS
    case Retry(_, id) => NoneInFlight(s, id)
    case _ => true
  }

  /** What to check before a retry: no worker of the event is posting, or may still start to. */
  ghost predicate NoneInFlight(s: System, id: EventId) {
    forall k | k in s.workers && s.workers[k].claimed.id == id :: !InFlight(s, k)
  }

  ghost predicate TimelyRun(cfg: Config, s: System, steps: seq<Step>) {
    steps == []
    || (TimelyRun(cfg, s, steps[..|steps| - 1])
        && Timely(cfg, Run(cfg, s, steps[..|steps| - 1]), steps[|steps| - 1]))
  }

  /** The worker is posting, or may still start to. */
  predicate InFlight(s: System, k: ClaimToken)
    requires k in s.workers
  {
    s.workers[k].phase.Posting?
    || (s.workers[k].phase == LookingUp && s.now < s.workers[k].claimedAt + LEASE_MARGIN_MS)
  }

  ghost predicate LeaseOk(cfg: Config, s: System, k: ClaimToken)
    requires k in s.workers
  {
    var w := s.workers[k];
    && w.claimedAt <= s.now
    && (w.phase.Posting? ==>
          w.phase.since < w.claimedAt + LEASE_MARGIN_MS && s.now <= w.phase.since + cfg.timeoutMs)
    && (InFlight(s, k) ==>
          && w.claimed.id in s.t.outbox
          && s.t.outbox[w.claimed.id].claim == Some(k)
          && s.t.outbox[w.claimed.id].nextAttemptAt == Some(w.claimedAt + LeaseMs(cfg)))
  }

  ghost predicate LeasesOk(cfg: Config, s: System) {
    forall k | k in s.workers :: LeaseOk(cfg, s, k)
  }

  lemma StepKeepsLeases(cfg: Config, s: System, step: Step)
    requires WorkersOk(cfg, s) && LeasesOk(cfg, s) && Legal(cfg, s, step) && Timely(cfg, s, step)
    ensures LeasesOk(cfg, Next(cfg, s, step))
  {
    var s' := Next(cfg, s, step);
    TokenIsNew(cfg, s);
    forall k | k in s'.workers ensures LeaseOk(cfg, s', k) {
      if k in s.workers { assert LeaseOk(cfg, s, k) && WorkerOk(cfg, s, k); }
      if step.Write? { assert WorkerOk(cfg, s, step.token); }
    }
  }

  lemma {:induction false} RunKeepsLeases(cfg: Config, s: System, steps: seq<Step>)
    requires Inv(cfg, s) && LeasesOk(cfg, s) && LegalRun(cfg, s, steps) && TimelyRun(cfg, s, steps)
    ensures LeasesOk(cfg, Run(cfg, s, steps))
  {
    if steps != [] {
      var before := steps[..|steps| - 1];
      RunKeepsLeases(cfg, s, before);
      RunKeepsInv(cfg, s, before);
      StepKeepsLeases(cfg, Run(cfg, s, before), steps[|steps| - 1]);
    }
  }

  /** In a timely run two POSTs of one event are never open at the same moment, across all dispatchers. */
  lemma PostsNeverOverlap(cfg: Config, now: Time, steps: seq<Step>, a: ClaimToken, b: ClaimToken)
    requires LegalRun(cfg, Start(now), steps) && TimelyRun(cfg, Start(now), steps)
    requires var s := Run(cfg, Start(now), steps);
      && a in s.workers && b in s.workers
      && s.workers[a].phase.Posting? && s.workers[b].phase.Posting?
      && s.workers[a].claimed.id == s.workers[b].claimed.id
    ensures a == b
  {
    StartInv(cfg, now);
    RunKeepsLeases(cfg, Start(now), steps);
    var s := Run(cfg, Start(now), steps);
    assert LeaseOk(cfg, s, a) && LeaseOk(cfg, s, b);
  }

  // ---------------------------------------------------------------- manual retries

  /** Two POSTs of the event are open. */
  ghost predicate Overlap(s: System, id: EventId) {
    exists a, b :: PostsOpenly(s, a, id) && PostsOpenly(s, b, id) && a != b
  }

  predicate PostsOpenly(s: System, k: ClaimToken, id: EventId) {
    k in s.workers && s.workers[k].phase.Posting? && s.workers[k].claimed.id == id
  }

  ghost predicate OverlapsIn(cfg: Config, s: System, steps: seq<Step>, id: EventId) {
    LegalRun(cfg, s, steps) && TimelyRun(cfg, s, steps) && Overlap(Run(cfg, s, steps), id)
  }

  lemma OneMoreStep(cfg: Config, s: System, steps: seq<Step>, step: Step)
    ensures Run(cfg, s, steps + [step]) == Next(cfg, Run(cfg, s, steps), step)
    ensures LegalRun(cfg, s, steps + [step]) <==> LegalRun(cfg, s, steps) && Legal(cfg, Run(cfg, s, steps), step)
    ensures TimelyRun(cfg, s, steps + [step]) <==> TimelyRun(cfg, s, steps) && Timely(cfg, Run(cfg, s, steps), step)
  {
    assert (steps + [step])[..|steps|] == steps;
  }

  /** Extends a legal and timely run. */
  lemma Then(cfg: Config, s: System, steps: seq<Step>, step: Step) returns (more: seq<Step>)
    requires LegalRun(cfg, s, steps) && TimelyRun(cfg, s, steps)
    requires Legal(cfg, Run(cfg, s, steps), step) && Timely(cfg, Run(cfg, s, steps), step)
    ensures more == steps + [step] && LegalRun(cfg, s, more) && TimelyRun(cfg, s, more)
    ensures Run(cfg, s, more) == Next(cfg, Run(cfg, s, steps), step)
  {
    more := steps + [step];
    OneMoreStep(cfg, s, steps, step);
  }

  /** The row of the event is due and unclaimed, and its subscription wants it. */
  predicate Free(s: System, id: EventId) {
    && id in s.t.outbox
    && var row := s.t.outbox[id];
       && row.status == Pending && row.attempts == 0 && row.nextAttemptAt == Some(s.now)
       && SubscriptionActive(s.t, row.service) && row.eventType in s.t.subscriptions[row.service].eventTypes
  }

  /** A free row is claimed by one dispatcher when all others are locked, and posted at once. */
  lemma ClaimAndPost(cfg: Config, s: System, id: EventId)
    requires Free(s, id) && s.t.nextToken !in s.workers
    ensures var claim := Claim(id, s.t.outbox.Keys - {id});
      var s1 := Next(cfg, s, claim);
      var s2 := Next(cfg, s1, StartPost(s.t.nextToken));
      && Legal(cfg, s, claim) && Timely(cfg, s, claim)
      && Legal(cfg, s1, StartPost(s.t.nextToken)) && Timely(cfg, s1, StartPost(s.t.nextToken))
      && PostsOpenly(s2, s.t.nextToken, id)
      && forall k | k in s.workers :: k in s2.workers && s2.workers[k] == s.workers[k]
  {
    assert forall other | Claimable(cfg, s.t, other, s.now, s.t.outbox.Keys - {id}) :: other == id;
    assert Claimable(cfg, s.t, id, s.now, s.t.outbox.Keys - {id});
  }

  /** The retried row, once its subscription is active and wants its type. */
  lemma RetriedIsFree(cfg: Config, s: System, service: ServiceId, id: EventId)
    requires Retryable(s.t, service, id)
    ensures var subscribe := SetSubscription(service, Subscription(true, {s.t.outbox[id].eventType}));
      var s' := Next(cfg, Next(cfg, s, Retry(service, id)), subscribe);
      && Free(s', id) && s'.workers == s.workers && s'.now == s.now && s'.t.nextToken == s.t.nextToken
      && SubscriptionActive(s'.t, service) && s'.t.outbox[id].service == service
  {
  }

  lemma PostIfLookingUp(cfg: Config, s: System, k: ClaimToken, service: ServiceId, id: EventId)
    requires k in s.workers && s.workers[k].claimed.id == id && s.workers[k].claimed.service == service
    requires s.workers[k].phase == LookingUp && s.now < s.workers[k].claimedAt + LEASE_MARGIN_MS
    requires SubscriptionActive(s.t, service)
    ensures var s' := Next(cfg, s, StartPost(k));
      && Legal(cfg, s, StartPost(k)) && Timely(cfg, s, StartPost(k)) && PostsOpenly(s', k, id)
      && s'.t == s.t && s'.now == s.now && s'.workers.Keys == s.workers.Keys
  {
  }

  /** From a state with one open POST of a free event, two steps open a second. */
  lemma SecondPost(cfg: Config, s: System, steps: seq<Step>, id: EventId, k: ClaimToken) returns (more: seq<Step>)
    requires LegalRun(cfg, s, steps) && TimelyRun(cfg, s, steps)
    requires var mid := Run(cfg, s, steps); Free(mid, id) && mid.t.nextToken !in mid.workers && PostsOpenly(mid, k, id)
    ensures OverlapsIn(cfg, s, more, id)
    ensures exists locked :: more == steps + [Claim(id, locked)] + [StartPost(Run(cfg, s, steps).t.nextToken)]
  {
    hide Next, Legal, Timely, Free;
    var mid := Run(cfg, s, steps);
    var locked := mid.t.outbox.Keys - {id};
    ClaimAndPost(cfg, mid, id);
    more := Then(cfg, s, steps, Claim(id, locked));
    more := Then(cfg, s, more, StartPost(mid.t.nextToken));
    assert PostsOpenly(Run(cfg, s, more), k, id) && PostsOpenly(Run(cfg, s, more), mid.t.nextToken, id);
  }

  lemma FreeThroughPost(cfg: Config, s: System, k: ClaimToken, id: EventId)
    requires Free(s, id)
    ensures Free(Next(cfg, s, StartPost(k)), id)
  {
  }

  /** A retry while a worker of the event is in flight has an otherwise timely continuation with two open POSTs. */
  lemma UnsafeRetryOverlaps(cfg: Config, s: System, service: ServiceId, id: EventId, k: ClaimToken) returns (steps: seq<Step>)
    requires Inv(cfg, s) && ServicesOk(s) && Retryable(s.t, service, id)
    requires k in s.workers && s.workers[k].claimed.id == id && InFlight(s, k)
    ensures OverlapsIn(cfg, Next(cfg, s, Retry(service, id)), steps, id)
    ensures forall step | step in steps :: !step.Retry? && !step.Advance?
  {
    assert ServiceOk(s, k);
    TokenIsNew(cfg, s);
    hide Inv, Next, Free;
    var s0 := Next(cfg, s, Retry(service, id));
    var subscribe := SetSubscription(service, Subscription(true, {s.t.outbox[id].eventType}));
    RetriedIsFree(cfg, s, service, id);
    steps := Then(cfg, s0, [], subscribe);
    if s.workers[k].phase == LookingUp {
      var s1 := Run(cfg, s0, steps);
      PostIfLookingUp(cfg, s1, k, service, id);
      FreeThroughPost(cfg, s1, k, id);
      steps := Then(cfg, s0, steps, StartPost(k));
    }
    steps := SecondPost(cfg, s0, steps, id, k);
  }

  /** A claim knows the service of its event. */
  ghost predicate ServiceOk(s: System, k: ClaimToken)
    requires k in s.workers
  {
    s.workers[k].claimed.id in s.t.outbox && s.workers[k].claimed.service == s.t.outbox[s.workers[k].claimed.id].service
  }

  ghost predicate ServicesOk(s: System) { forall k | k in s.workers :: ServiceOk(s, k) }

  lemma {:induction false} RunKeepsServices(cfg: Config, s: System, steps: seq<Step>)
    requires ServicesOk(s) && LegalRun(cfg, s, steps)
    ensures ServicesOk(Run(cfg, s, steps))
  {
    if steps != [] {
      RunKeepsServices(cfg, s, steps[..|steps| - 1]);
      StepKeepsServices(cfg, Run(cfg, s, steps[..|steps| - 1]), steps[|steps| - 1]);
    }
  }

  lemma StepKeepsServices(cfg: Config, s: System, step: Step)
    requires ServicesOk(s) && Legal(cfg, s, step)
    ensures ServicesOk(Next(cfg, s, step))
  {
    var s' := Next(cfg, s, step);
    forall k | k in s'.workers ensures ServiceOk(s', k) { if k in s.workers { assert ServiceOk(s, k); } }
  }

  /**
   * In every state a timely run reaches, a manual retry is safe exactly when no worker of the event is in flight:
   * then no timely continuation has two open POSTs of the event, and otherwise one does.
   */
  lemma RetryIsSafeExactly(cfg: Config, now: Time, steps: seq<Step>, service: ServiceId, id: EventId)
    requires LegalRun(cfg, Start(now), steps) && TimelyRun(cfg, Start(now), steps)
    requires Retryable(Run(cfg, Start(now), steps).t, service, id)
    ensures var s := Run(cfg, Start(now), steps);
      NoneInFlight(s, id) <==> forall more :: !OverlapsIn(cfg, Next(cfg, s, Retry(service, id)), more, id)
  {
    var s := Run(cfg, Start(now), steps);
    StartInv(cfg, now);
    RunKeepsInv(cfg, Start(now), steps);
    RunKeepsLeases(cfg, Start(now), steps);
    RunKeepsServices(cfg, Start(now), steps);
    if NoneInFlight(s, id) {
      StepKeepsLeases(cfg, s, Retry(service, id));
      StepKeepsInv(cfg, s, Retry(service, id));
      forall more ensures !OverlapsIn(cfg, Next(cfg, s, Retry(service, id)), more, id) {
        if LegalRun(cfg, Next(cfg, s, Retry(service, id)), more) && TimelyRun(cfg, Next(cfg, s, Retry(service, id)), more) {
          LeasesForbidOverlap(cfg, Next(cfg, s, Retry(service, id)), more, id);
        }
      }
    } else {
      var k :| k in s.workers && s.workers[k].claimed.id == id && InFlight(s, k);
      var more := UnsafeRetryOverlaps(cfg, s, service, id, k);
    }
  }

  lemma LeasesForbidOverlap(cfg: Config, s: System, steps: seq<Step>, id: EventId)
    requires Inv(cfg, s) && LeasesOk(cfg, s) && LegalRun(cfg, s, steps) && TimelyRun(cfg, s, steps)
    ensures !Overlap(Run(cfg, s, steps), id)
  {
    RunKeepsLeases(cfg, s, steps);
    var s' := Run(cfg, s, steps);
    assert forall k | PostsOpenly(s', k, id) :: LeaseOk(cfg, s', k);
  }

  /**
   * Such a retry from the start: one event is enqueued, claimed and posted, retried during the POST, claimed and
   * posted again. Every step but the retry is timely.
   */
  lemma ManualRetryOverlaps(cfg: Config, now: Time) returns (before: seq<Step>, after: seq<Step>)
    ensures LegalRun(cfg, Start(now), before) && TimelyRun(cfg, Start(now), before)
    ensures Retryable(Run(cfg, Start(now), before).t, 0, 0)
    ensures OverlapsIn(cfg, Next(cfg, Run(cfg, Start(now), before), Retry(0, 0)), after, 0)
  {
    var s0 := Start(now);
    var subscribe := SetSubscription(0, Subscription(true, {PermissionUpdated}));
    var enqueue := Enqueue(true, 0, map[0 := PermissionUpdated]);
    before := Then(cfg, s0, [], subscribe);
    before := Then(cfg, s0, before, enqueue);
    var s2 := Run(cfg, s0, before);
    assert s2.t.outbox == map[0 := Row(0, PermissionUpdated, Pending, 0, Some(now), None, now)];
    ClaimAndPost(cfg, s2, 0);
    before := Then(cfg, s0, before, Claim(0, s2.t.outbox.Keys - {0}));
    before := Then(cfg, s0, before, StartPost(0));
    StartInv(cfg, now);
    RunKeepsInv(cfg, s0, before);
    RunKeepsServices(cfg, s0, before);
    after := UnsafeRetryOverlaps(cfg, Run(cfg, s0, before), 0, 0, 0);
  }
}
