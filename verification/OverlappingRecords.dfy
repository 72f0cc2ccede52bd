/**
 * What overlapping transactions of `recordResult` do to the status of a notification:
 * src/notifications/notification-delivery-worker.service.ts.
 *
 * A record is two steps here. `Begin` locks the worker's own row, settles it and counts the siblings; the count
 * sees its own row settled and every other row as last committed. `Commit` publishes row, attempt and status.
 * Between the two anything else may happen, except to the locked row.
 */
module OverlappingRecords {
  import opened Prelude
  import opened Deliveries
  import Devices

  /** An open record: when it counted, and the status its count gave. */
  datatype Transaction = Transaction(
    claimed: Deliveries.Claimed,
    result: SendResult,
    now: Time,
    countedAt: nat,
    verdict: Option<NotificationStatus>)

  /** The record that made a delivery final: when it counted and when it committed. */
  datatype Settling = Settling(countedAt: nat, committedAt: nat)

  type Rows = map<DeliveryId, Delivery>
  type Settlings = map<DeliveryId, Settling>

  /** `tick` numbers the steps; `settled` is history that no code reads. */
  datatype Race = Race(sys: Deliveries.System, open: map<DeliveryId, Transaction>, tick: nat, settled: Settlings)

  datatype Move =
    | Other(step: Deliveries.Step)
    | Begin(claimed: Deliveries.Claimed, result: SendResult, now: Time)
    | Commit(id: DeliveryId)
    | Abort(id: DeliveryId)

  /** A claim skips locked rows, and a record waits for the lock of its row. */
  ghost predicate Permitted(r: Race, move: Move) {
    match move
    case Other(step) =>
      !step.Record? && Deliveries.Legal(r.sys, step) && (step.Claim? ==> r.open.Keys <= step.locked)
    case Begin(c, _, _) => c in r.sys.claims && c.id !in r.open
    case Commit(id) => id in r.open
    case Abort(id) => id in r.open
  }

  function SettledRow(rows: Rows, tx: Transaction): Delivery
    requires tx.claimed.id in rows
  {
    Settled(rows[tx.claimed.id], tx.claimed.attempts, tx.result, tx.now)
  }

  /** What the transaction's own count sees. */
  function Seen(rows: Rows, tx: Transaction): Rows
    requires tx.claimed.id in rows
  {
    rows[tx.claimed.id := SettledRow(rows, tx)]
  }

  ghost function Counting(r: Race, c: Deliveries.Claimed, result: SendResult, now: Time): Transaction
    requires c.id in r.sys.t.deliveries
  {
    var tx := Transaction(c, result, now, r.tick, None);
    tx.(verdict := Verdict(Seen(r.sys.t.deliveries, tx), c.notification))
  }

  /** Row, attempt and device as a record writes them; the status as it was counted at the beginning. */
  ghost function Committed(t: Deliveries.Tables, tx: Transaction): Deliveries.Tables {
    var after := AfterRecord(t, tx.claimed, tx.result, tx.now).0;
    after.(notifications :=
      if tx.verdict.Some? && tx.claimed.notification in t.notifications
      then t.notifications[tx.claimed.notification := tx.verdict.value] else t.notifications)
  }

  ghost function Moved(r: Race, move: Move): Race {
    match move
    case Other(step) => r.(sys := Deliveries.Next(r.sys, step), tick := r.tick + 1)
    case Begin(c, result, now) =>
      if !Owns(r.sys.t, c) then r.(tick := r.tick + 1)
      else r.(open := r.open[c.id := Counting(r, c, result, now)], tick := r.tick + 1)
    case Commit(id) =>
      if id !in r.open then r.(tick := r.tick + 1)
      else
        var after := Committed(r.sys.t, r.open[id]);
        Race(r.sys.(t := after), r.open - {id}, r.tick + 1,
             if id in after.deliveries && Final(after.deliveries[id])
             then r.settled[id := Settling(r.open[id].countedAt, r.tick)] else r.settled)
    case Abort(id) => r.(open := r.open - {id}, tick := r.tick + 1)
  }

  ghost function Play(r: Race, moves: seq<Move>): Race {
    if moves == [] then r else Moved(Play(r, moves[..|moves| - 1]), moves[|moves| - 1])
  }

  ghost predicate Playable(r: Race, moves: seq<Move>) {
    moves == []
    || (Playable(r, moves[..|moves| - 1]) && Permitted(Play(r, moves[..|moves| - 1]), moves[|moves| - 1]))
  }

  // ---------------------------------------------------------------- a record without overlap

  /** Begun and committed at once, a record is the serial one. */
  lemma UnoverlappedIsSerial(r: Race, c: Deliveries.Claimed, result: SendResult, now: Time)
    requires Base(r.sys) && c in r.sys.claims && c.id !in r.open
    ensures var begun := Moved(r, Begin(c, result, now));
      var sys := if c.id in begun.open then Moved(begun, Commit(c.id)).sys else begun.sys;
      sys == Deliveries.Next(r.sys, Record(c, result, now))
  {
    OwnerNeverDuplicates(r.sys, c, result, now);
    if Owns(r.sys.t, c) { RecordedDeliveries(r.sys.t, c, result, now); }
  }

  // ---------------------------------------------------------------- the invariant

  ghost predicate Base(sys: Deliveries.System) {
    Devices.Inv(sys.t.devices) && LinksOk(sys.t) && HistoryOk(sys.t) && ClaimsOk(sys)
  }

  /** Every sibling but one was final, by commit, before a moment. */
  ghost predicate Cleared(rows: Rows, settled: Settlings, n: NotificationId, id: DeliveryId, at: nat) {
    forall other | other in Siblings(rows, n) && other != id :: other in settled && settled[other].committedAt < at
  }

  /** The open record's verdict: there is one exactly when it settles the last sibling, all others having committed. */
  ghost predicate TransactionOk(rows: Rows, settled: Settlings, id: DeliveryId, tx: Transaction) {
    && id in rows && tx.claimed.id == id && rows[id].notification == tx.claimed.notification
    && !Final(rows[id])
    && (tx.verdict.Some? <==>
          Final(SettledRow(rows, tx)) && Cleared(rows, settled, tx.claimed.notification, id, tx.countedAt))
    && (tx.verdict.Some? ==> tx.verdict == Verdict(Seen(rows, tx), tx.claimed.notification))
  }

  ghost predicate OpenOk(r: Race) {
    forall id | id in r.open ::
      && TransactionOk(r.sys.t.deliveries, r.settled, id, r.open[id])
      && r.open[id].claimed in r.sys.claims && Owns(r.sys.t, r.open[id].claimed)
      && r.open[id].countedAt < r.tick
  }

  ghost predicate SettlingsFit(rows: Rows, settled: Settlings, tick: nat) {
    && (forall id | id in settled :: id in rows && settled[id].countedAt < settled[id].committedAt < tick)
    && (forall id | id in rows :: Final(rows[id]) <==> id in settled)
  }

  ghost predicate SettlingsOk(r: Race) {
    SettlingsFit(r.sys.t.deliveries, r.settled, r.tick)
  }

  ghost predicate AllFinal(rows: Rows, n: NotificationId) {
    forall id | id in Siblings(rows, n) :: Final(rows[id])
  }

  /** One sibling's record counted after every other sibling's record had committed. */
  ghost predicate OneCountedLast(rows: Rows, settled: Settlings, n: NotificationId) {
    exists id | id in Siblings(rows, n) && id in settled :: Cleared(rows, settled, n, id, settled[id].countedAt)
  }

  /** Open: accepted. All final: the aggregate if one counted last, and otherwise still accepted. */
  ghost predicate StatusFollows(rows: Rows, settled: Settlings, status: NotificationStatus, n: NotificationId) {
    && Siblings(rows, n) != {}
    && if AllFinal(rows, n) && OneCountedLast(rows, settled, n) then Aggregates(status, rows, n) else status == Accepted
  }

  ghost predicate RaceInv(r: Race) {
    && Base(r.sys) && OpenOk(r) && SettlingsOk(r)
    && forall n | n in r.sys.t.notifications ::
         StatusFollows(r.sys.t.deliveries, r.settled, r.sys.t.notifications[n], n)
  }

  // ---------------------------------------------------------------- what a count means

  lemma VerdictMeans(rows: Rows, n: NotificationId)
    requires Siblings(rows, n) != {}
    ensures Verdict(rows, n).Some? <==> AllFinal(rows, n)
    ensures Verdict(rows, n).Some? ==> Aggregates(Verdict(rows, n).value, rows, n)
  {
    RefreshAggregates(map[n := Accepted], rows, n);
    if Verdict(rows, n).None? { assert Aggregates(Accepted, rows, n); }
    if Verdict(rows, n).Some? { assert Aggregates(Verdict(rows, n).value, rows, n); }
  }

  lemma SameStatuses(rows: Rows, rows': Rows, n: NotificationId, status: DeliveryStatus)
    requires Siblings(rows', n) == Siblings(rows, n)
    requires forall id | id in Siblings(rows, n) :: rows'[id].status == rows[id].status
    ensures WithStatus(rows', n, status) == WithStatus(rows, n, status)
  {
    assert forall id :: id in WithStatus(rows', n, status) <==> id in Siblings(rows', n) && rows'[id].status == status;
    assert forall id :: id in WithStatus(rows, n, status) <==> id in Siblings(rows, n) && rows[id].status == status;
  }

  /** Rows of other notifications do not count. */
  lemma VerdictIsLocal(rows: Rows, rows': Rows, n: NotificationId)
    requires Siblings(rows', n) == Siblings(rows, n)
    requires forall id | id in Siblings(rows, n) :: rows'[id].status == rows[id].status
    ensures Verdict(rows', n) == Verdict(rows, n)
  {
    SameStatuses(rows, rows', n, Delivered);
    SameStatuses(rows, rows', n, Terminal);
  }

  /** A count sees the other siblings that have committed, and the settled row. */
  lemma CountIsClear(rows: Rows, settled: Settlings, tick: nat, tx: Transaction)
    requires tx.claimed.id in rows && rows[tx.claimed.id].notification == tx.claimed.notification
    requires !Final(rows[tx.claimed.id]) && tx.countedAt == tick
    requires forall id | id in rows :: Final(rows[id]) <==> id in settled
    requires forall id | id in settled :: settled[id].committedAt < tick
    requires tx.verdict == Verdict(Seen(rows, tx), tx.claimed.notification)
    ensures TransactionOk(rows, settled, tx.claimed.id, tx)
  {
    var seen, n, id := Seen(rows, tx), tx.claimed.notification, tx.claimed.id;
    assert Siblings(seen, n) == Siblings(rows, n) && id in Siblings(seen, n);
    VerdictMeans(seen, n);
    assert forall other | other in Siblings(rows, n) && other != id :: seen[other] == rows[other];
    assert Cleared(rows, settled, n, id, tick) <==> forall other | other in Siblings(rows, n) && other != id :: Final(rows[other]);
  }

  /** A new record's verdict. */
  lemma BeginCounts(r: Race, c: Deliveries.Claimed, result: SendResult, now: Time)
    requires HistoryOk(r.sys.t) && ClaimsOk(r.sys) && SettlingsOk(r) && c in r.sys.claims && Owns(r.sys.t, c)
    ensures TransactionOk(r.sys.t.deliveries, r.settled, c.id, Counting(r, c, result, now))
  {
    OwnedIsOpen(r.sys, c);
    CountIsClear(r.sys.t.deliveries, r.settled, r.tick, Counting(r, c, result, now));
  }

  /** Another record's commit, claim or new notification leaves an open record's verdict right. */
  lemma TransactionStays(rows: Rows, rows': Rows, settled: Settlings, settled': Settlings, id: DeliveryId, tx: Transaction)
    requires TransactionOk(rows, settled, id, tx)
    requires Siblings(rows', tx.claimed.notification) == Siblings(rows, tx.claimed.notification)
    requires id in rows' && rows'[id] == rows[id]
    requires forall other | other in settled ::
      && other in rows && other in rows' && rows'[other] == rows[other]
      && other in settled' && settled'[other] == settled[other]
    requires forall other | other in settled' && other !in settled :: settled'[other].committedAt >= tx.countedAt
    ensures TransactionOk(rows', settled', id, tx)
  {
    var n := tx.claimed.notification;
    assert Cleared(rows', settled', n, id, tx.countedAt) <==> Cleared(rows, settled, n, id, tx.countedAt);
    if tx.verdict.Some? {
      var seen, seen' := Seen(rows, tx), Seen(rows', tx);
      assert Siblings(seen', n) == Siblings(seen, n);
      assert forall other | other in Siblings(seen, n) :: seen'[other].status == seen[other].status;
      VerdictIsLocal(seen, seen', n);
    }
  }

  // ---------------------------------------------------------------- every move keeps it

  /** Rows of one notification as they were, or one non-final row of it replaced by another: the status still follows. */
  lemma StatusStays(rows: Rows, rows': Rows, settled: Settlings, settled': Settlings, status: NotificationStatus,
                    n: NotificationId)
    requires StatusFollows(rows, settled, status, n)
    requires Siblings(rows', n) == Siblings(rows, n)
    requires forall id | id in Siblings(rows, n) ::
      && (id in settled' <==> id in settled) && (id in settled ==> settled'[id] == settled[id])
      && (Final(rows[id]) ==> rows'[id] == rows[id]) && (Final(rows'[id]) ==> Final(rows[id]))
    ensures StatusFollows(rows', settled', status, n)
  {
    assert AllFinal(rows', n) <==> AllFinal(rows, n);
    assert OneCountedLast(rows', settled', n) <==> OneCountedLast(rows, settled, n) by {
      forall id | id in Siblings(rows, n) && id in settled
        ensures Cleared(rows', settled', n, id, settled[id].countedAt) <==> Cleared(rows, settled, n, id, settled[id].countedAt)
      {
      }
    }
    if AllFinal(rows, n) { assert forall id | id in Siblings(rows, n) :: rows'[id] == rows[id]; }
  }

  lemma BeginKeepsOpen(r: Race, c: Deliveries.Claimed, result: SendResult, now: Time)
    requires Base(r.sys) && OpenOk(r) && SettlingsOk(r) && c in r.sys.claims
    ensures OpenOk(Moved(r, Begin(c, result, now)))
  {
    if Owns(r.sys.t, c) { BeginCounts(r, c, result, now); }
  }

  lemma BeginKeeps(r: Race, c: Deliveries.Claimed, result: SendResult, now: Time)
    requires RaceInv(r) && Permitted(r, Begin(c, result, now))
    ensures RaceInv(Moved(r, Begin(c, result, now)))
  {
    BeginKeepsOpen(r, c, result, now);
  }

  lemma AbortKeeps(r: Race, id: DeliveryId)
    requires RaceInv(r)
    ensures RaceInv(Moved(r, Abort(id)))
  {
  }

  // Commit: one row settles, one status may be written.

  function AfterSettling(rows: Rows, settled: Settlings, tick: nat, tx: Transaction): Settlings
    requires tx.claimed.id in rows
  {
    if Final(SettledRow(rows, tx)) then settled[tx.claimed.id := Settling(tx.countedAt, tick)] else settled
  }

  lemma CommitWrites(r: Race, id: DeliveryId)
    requires Base(r.sys) && OpenOk(r) && id in r.open
    ensures var tx, t, r' := r.open[id], r.sys.t, Moved(r, Commit(id));
      && r'.sys.t == Committed(t, tx) && r'.sys.claims == r.sys.claims
      && r'.sys.t.deliveries == Seen(t.deliveries, tx)
      && r'.sys.t.nextToken == t.nextToken
      && r'.sys.t.notifications.Keys == t.notifications.Keys
      && r'.settled == AfterSettling(t.deliveries, r.settled, r.tick, tx)
      && r'.open == r.open - {id} && r'.tick == r.tick + 1
  {
    var tx := r.open[id];
    OwnerNeverDuplicates(r.sys, tx.claimed, tx.result, tx.now);
    RecordedDeliveries(r.sys.t, tx.claimed, tx.result, tx.now);
  }

  lemma RecordKeepsBase(sys: Deliveries.System, c: Deliveries.Claimed, result: SendResult, now: Time)
    requires Base(sys) && c in sys.claims && Owns(sys.t, c)
    ensures Base(sys.(t := AfterRecord(sys.t, c, result, now).0))
  {
    RecordKeepsClaims(sys, c, result, now);
    RecordKeepsHistory(sys, c, result, now);
    RecordKeepsDevices(sys.t, c, result, now);
    RecordKeepsLinks(sys.t, c, result, now);
  }

  /** The values of the statuses do not matter to the rest. */
  lemma StatusesAreApart(sys: Deliveries.System, notifications: map<NotificationId, NotificationStatus>)
    requires Base(sys) && notifications.Keys == sys.t.notifications.Keys
    ensures Base(sys.(t := sys.t.(notifications := notifications)))
  {
    var sys' := sys.(t := sys.t.(notifications := notifications));
    forall c | c in sys'.claims ensures ClaimOk(sys'.t, c) { assert ClaimOk(sys.t, c); }
  }

  lemma RecordKeepsNotifications(t: Deliveries.Tables, c: Deliveries.Claimed, result: SendResult, now: Time)
    ensures AfterRecord(t, c, result, now).0.notifications.Keys == t.notifications.Keys
  {
  }

  lemma CommitKeepsBase(r: Race, id: DeliveryId)
    requires Base(r.sys) && OpenOk(r) && id in r.open
    ensures Base(Moved(r, Commit(id)).sys)
  {
    var tx := r.open[id];
    RecordKeepsBase(r.sys, tx.claimed, tx.result, tx.now);
    RecordKeepsNotifications(r.sys.t, tx.claimed, tx.result, tx.now);
    CommitWrites(r, id);
    StatusesAreApart(r.sys.(t := AfterRecord(r.sys.t, tx.claimed, tx.result, tx.now).0), Committed(r.sys.t, tx).notifications);
  }

  lemma SettlingFits(rows: Rows, settled: Settlings, tick: nat, tx: Transaction)
    requires SettlingsFit(rows, settled, tick) && tx.claimed.id in rows && tx.countedAt < tick
    requires !Final(rows[tx.claimed.id])
    ensures SettlingsFit(Seen(rows, tx), AfterSettling(rows, settled, tick, tx), tick + 1)
  {
  }

  lemma CommitKeepsSettlings(r: Race, id: DeliveryId)
    requires Base(r.sys) && OpenOk(r) && SettlingsOk(r) && id in r.open
    ensures SettlingsOk(Moved(r, Commit(id)))
  {
    CommitWrites(r, id);
    SettlingFits(r.sys.t.deliveries, r.settled, r.tick, r.open[id]);
  }

  /** An open record beside the committing one. */
  lemma BesideCommit(rows: Rows, settled: Settlings, tick: nat, tx: Transaction, j: DeliveryId, other: Transaction)
    requires SettlingsFit(rows, settled, tick) && tx.claimed.id in rows && !Final(rows[tx.claimed.id])
    requires TransactionOk(rows, settled, j, other) && other.countedAt < tick && j != tx.claimed.id
    ensures TransactionOk(Seen(rows, tx), AfterSettling(rows, settled, tick, tx), j, other)
  {
    assert Siblings(Seen(rows, tx), other.claimed.notification) == Siblings(rows, other.claimed.notification);
    TransactionStays(rows, Seen(rows, tx), settled, AfterSettling(rows, settled, tick, tx), j, other);
  }

  lemma CommitKeepsOpen(r: Race, id: DeliveryId)
    requires Base(r.sys) && OpenOk(r) && SettlingsOk(r) && id in r.open
    ensures OpenOk(Moved(r, Commit(id)))
  {
    CommitWrites(r, id);
    var r' := Moved(r, Commit(id));
    forall j | j in r'.open
      ensures TransactionOk(r'.sys.t.deliveries, r'.settled, j, r'.open[j])
      ensures r'.open[j].claimed in r'.sys.claims && Owns(r'.sys.t, r'.open[j].claimed) && r'.open[j].countedAt < r'.tick
    {
      BesideCommit(r.sys.t.deliveries, r.settled, r.tick, r.open[id], j, r.open[j]);
    }
  }

  /** The notification of the committing record: its count decides whether the aggregate is written. */
  lemma CommitDecides(rows: Rows, settled: Settlings, settled': Settlings, tick: nat, tx: Transaction)
    requires TransactionOk(rows, settled, tx.claimed.id, tx) && tx.countedAt < tick
    requires forall id | id in settled :: settled[id].countedAt < tick
    requires forall id | id in rows :: Final(rows[id]) <==> id in settled
    requires settled' == AfterSettling(rows, settled, tick, tx)
    ensures var rows', n := Seen(rows, tx), tx.claimed.notification;
      StatusFollows(rows', settled', if tx.verdict.Some? then tx.verdict.value else Accepted, n)
  {
    var rows', n, id := Seen(rows, tx), tx.claimed.notification, tx.claimed.id;
    assert Siblings(rows', n) == Siblings(rows, n) && id in Siblings(rows', n);
    assert Cleared(rows', settled', n, id, tx.countedAt) <==> Cleared(rows, settled, n, id, tx.countedAt);
    if tx.verdict.Some? {
      assert OneCountedLast(rows', settled', n);
      VerdictMeans(rows', n);
    } else if Final(SettledRow(rows, tx)) {
      forall w | w in Siblings(rows', n) && w in settled' ensures !Cleared(rows', settled', n, w, settled'[w].countedAt) {
        assert settled'[id].committedAt == tick;
      }
    }
  }

  /** Any other notification. */
  lemma CommitBeside(rows: Rows, settled: Settlings, tick: nat, tx: Transaction, status: NotificationStatus, n: NotificationId)
    requires SettlingsFit(rows, settled, tick) && tx.claimed.id in rows && n != rows[tx.claimed.id].notification
    requires StatusFollows(rows, settled, status, n)
    ensures StatusFollows(Seen(rows, tx), AfterSettling(rows, settled, tick, tx), status, n)
  {
    assert Siblings(Seen(rows, tx), n) == Siblings(rows, n);
    StatusStays(rows, Seen(rows, tx), settled, AfterSettling(rows, settled, tick, tx), status, n);
  }

  /** Before the commit its notification was still accepted. */
  lemma OpenIsAccepted(rows: Rows, settled: Settlings, status: NotificationStatus, id: DeliveryId)
    requires id in rows && !Final(rows[id]) && StatusFollows(rows, settled, status, rows[id].notification)
    ensures status == Accepted
  {
    assert id in Siblings(rows, rows[id].notification);
  }

  lemma CommitKeepsStatus(r: Race, id: DeliveryId, n: NotificationId)
    requires RaceInv(r) && id in r.open && n in r.sys.t.notifications
    ensures var r' := Moved(r, Commit(id));
      n in r'.sys.t.notifications && StatusFollows(r'.sys.t.deliveries, r'.settled, r'.sys.t.notifications[n], n)
  {
    CommitWrites(r, id);
    var rows, tx, status := r.sys.t.deliveries, r.open[id], r.sys.t.notifications[n];
    CommittedStatus(r.sys.t, tx, n);
    if n == tx.claimed.notification {
      OpenIsAccepted(rows, r.settled, status, id);
      CommitDecides(rows, r.settled, AfterSettling(rows, r.settled, r.tick, tx), r.tick, tx);
    } else {
      CommitBeside(rows, r.settled, r.tick, tx, status, n);
    }
  }

  lemma CommittedStatus(t: Deliveries.Tables, tx: Transaction, n: NotificationId)
    requires n in t.notifications
    ensures n in Committed(t, tx).notifications
    ensures Committed(t, tx).notifications[n] ==
      if n == tx.claimed.notification && tx.verdict.Some? then tx.verdict.value else t.notifications[n]
  {
  }

  lemma CommitKeeps(r: Race, id: DeliveryId)
    requires RaceInv(r) && id in r.open
    ensures RaceInv(Moved(r, Commit(id)))
  {
    CommitKeepsBase(r, id);
    CommitKeepsSettlings(r, id);
    CommitKeepsOpen(r, id);
    CommitWrites(r, id);
    var r' := Moved(r, Commit(id));
    forall n | n in r'.sys.t.notifications
      ensures StatusFollows(r'.sys.t.deliveries, r'.settled, r'.sys.t.notifications[n], n)
    {
      CommitKeepsStatus(r, id, n);
    }
  }

  // Other steps: nothing becomes final, and locked rows stay as they are.

  /** The rows of a step that settles nothing and leaves the locked rows alone. */
  ghost predicate Untouched(r: Race, rows': Rows) {
    var rows := r.sys.t.deliveries;
    && rows.Keys <= rows'.Keys
    && (forall id | id in rows :: rows'[id].notification == rows[id].notification)
    && (forall id | id in rows :: (Final(rows[id]) || id in r.open ==> rows'[id] == rows[id]) && (Final(rows'[id]) ==> Final(rows[id])))
    && (forall id | id in rows' && id !in rows :: !Final(rows'[id]) && rows'[id].notification !in r.sys.t.notifications)
  }

  lemma UntouchedSettles(r: Race, rows': Rows)
    requires SettlingsOk(r) && Untouched(r, rows')
    ensures SettlingsFit(rows', r.settled, r.tick + 1)
  {
  }

  lemma UntouchedSiblings(r: Race, rows': Rows, n: NotificationId)
    requires Untouched(r, rows') && n in r.sys.t.notifications
    ensures Siblings(rows', n) == Siblings(r.sys.t.deliveries, n)
  {
  }

  lemma UntouchedOpen(r: Race, rows': Rows, id: DeliveryId)
    requires LinksOk(r.sys.t) && OpenOk(r) && SettlingsOk(r) && Untouched(r, rows') && id in r.open
    ensures TransactionOk(rows', r.settled, id, r.open[id])
  {
    UntouchedSiblings(r, rows', r.open[id].claimed.notification);
    TransactionStays(r.sys.t.deliveries, rows', r.settled, r.settled, id, r.open[id]);
  }

  lemma UntouchedStatus(r: Race, rows': Rows, n: NotificationId)
    requires Untouched(r, rows') && n in r.sys.t.notifications
    requires StatusFollows(r.sys.t.deliveries, r.settled, r.sys.t.notifications[n], n)
    ensures StatusFollows(rows', r.settled, r.sys.t.notifications[n], n)
  {
    UntouchedSiblings(r, rows', n);
    StatusStays(r.sys.t.deliveries, rows', r.settled, r.settled, r.sys.t.notifications[n], n);
  }

  lemma AcceptKeepsBase(sys: Deliveries.System, n: NotificationId, targets: map<DeliveryId, Devices.DeviceId>, now: Time)
    requires Base(sys) && Deliveries.Legal(sys, Accept(n, targets, now))
    ensures Base(Deliveries.Next(sys, Accept(n, targets, now)))
  {
    AcceptKeepsHistory(sys.t, n, targets, now);
    AcceptKeepsClaims(sys, n, targets, now);
    hide HistoryOk, ClaimsOk, Devices.Inv;
  }

  lemma AcceptKeepsClaims(sys: Deliveries.System, n: NotificationId, targets: map<DeliveryId, Devices.DeviceId>, now: Time)
    requires ClaimsOk(sys) && Deliveries.Legal(sys, Accept(n, targets, now))
    ensures ClaimsOk(Deliveries.Next(sys, Accept(n, targets, now)))
  {
    var sys' := Deliveries.Next(sys, Accept(n, targets, now));
    forall c | c in sys'.claims ensures ClaimOk(sys'.t, c) { assert ClaimOk(sys.t, c); }
  }

  lemma DevicesMoveKeepsBase(sys: Deliveries.System, devices: Devices.Tables)
    requires Base(sys) && Deliveries.Legal(sys, DevicesMove(devices))
    ensures Base(Deliveries.Next(sys, DevicesMove(devices)))
  {
    Devices.MoveKeepsInv(sys.t.devices, devices);
    SameClaims(sys, Deliveries.Next(sys, DevicesMove(devices)));
  }

  lemma ClaimKeepsBase(sys: Deliveries.System, id: DeliveryId, now: Time, locked: set<DeliveryId>)
    requires Base(sys) && Deliveries.Legal(sys, Claim(id, now, locked))
    ensures Base(Deliveries.Next(sys, Claim(id, now, locked)))
  {
    ClaimKeepsClaims(sys, id, now);
    ClaimKeepsHistory(sys.t, id, now);
    ClaimKeepsLinks(sys.t, id, now);
  }

  lemma OtherIsUntouched(r: Race, step: Deliveries.Step)
    requires LinksOk(r.sys.t) && Permitted(r, Other(step))
    ensures Untouched(r, Deliveries.Next(r.sys, step).t.deliveries)
    ensures r.sys.claims <= Deliveries.Next(r.sys, step).claims
  {
  }

  lemma OtherKeepsNotifications(sys: Deliveries.System, step: Deliveries.Step, n: NotificationId)
    requires !step.Record? && Deliveries.Legal(sys, step)
    requires n in Deliveries.Next(sys, step).t.notifications
    ensures if n in sys.t.notifications then Deliveries.Next(sys, step).t.notifications[n] == sys.t.notifications[n]
            else step.Accept? && step.notification == n && Deliveries.Next(sys, step).t.notifications[n] == Accepted
  {
  }

  lemma NewIsAccepted(r: Race, n: NotificationId, targets: map<DeliveryId, Devices.DeviceId>, now: Time)
    requires LinksOk(r.sys.t) && n !in r.sys.t.notifications && targets != map[]
    ensures StatusFollows(r.sys.t.deliveries + Opened(n, targets, now), r.settled, Accepted, n)
  {
    var rows' := r.sys.t.deliveries + Opened(n, targets, now);
    var id :| id in targets;
    assert id in Siblings(rows', n) && !Final(rows'[id]);
  }

  lemma OtherKeepsBase(sys: Deliveries.System, step: Deliveries.Step)
    requires Base(sys) && !step.Record? && Deliveries.Legal(sys, step)
    ensures Base(Deliveries.Next(sys, step))
  {
    match step
    case Accept(n, targets, now) => AcceptKeepsBase(sys, n, targets, now);
    case Claim(id, now, locked) => ClaimKeepsBase(sys, id, now, locked);
    case DevicesMove(devices) => DevicesMoveKeepsBase(sys, devices);
  }

  lemma OtherKeepsStatus(r: Race, step: Deliveries.Step, n: NotificationId)
    requires RaceInv(r) && Permitted(r, Other(step)) && n in Deliveries.Next(r.sys, step).t.notifications
    ensures var t' := Deliveries.Next(r.sys, step).t;
      StatusFollows(t'.deliveries, r.settled, t'.notifications[n], n)
  {
    OtherIsUntouched(r, step);
    OtherKeepsNotifications(r.sys, step, n);
    if n in r.sys.t.notifications {
      UntouchedStatus(r, Deliveries.Next(r.sys, step).t.deliveries, n);
    } else {
      NewIsAccepted(r, n, step.targets, step.now);
    }
  }

  lemma OtherKeeps(r: Race, step: Deliveries.Step)
    requires RaceInv(r) && Permitted(r, Other(step))
    ensures RaceInv(Moved(r, Other(step)))
  {
    var r' := Moved(r, Other(step));
    OtherKeepsBase(r.sys, step);
    OtherIsUntouched(r, step);
    UntouchedSettles(r, r'.sys.t.deliveries);
    forall id | id in r'.open
      ensures TransactionOk(r'.sys.t.deliveries, r'.settled, id, r'.open[id])
      ensures r'.open[id].claimed in r'.sys.claims && Owns(r'.sys.t, r'.open[id].claimed) && r'.open[id].countedAt < r'.tick
    {
      UntouchedOpen(r, r'.sys.t.deliveries, id);
    }
    forall n | n in r'.sys.t.notifications
      ensures StatusFollows(r'.sys.t.deliveries, r'.settled, r'.sys.t.notifications[n], n)
    {
      OtherKeepsStatus(r, step, n);
    }
  }

  lemma {:induction false} PlayKeepsInv(r: Race, moves: seq<Move>)
    requires RaceInv(r) && Playable(r, moves)
    ensures RaceInv(Play(r, moves))
  {
    if moves != [] {
      PlayKeepsInv(r, moves[..|moves| - 1]);
      var before := Play(r, moves[..|moves| - 1]);
      match moves[|moves| - 1]
      case Other(step) => OtherKeeps(before, step);
      case Begin(c, result, now) => BeginKeeps(before, c, result, now);
      case Commit(id) => CommitKeeps(before, id);
      case Abort(id) => AbortKeeps(before, id);
    }
  }

  // ---------------------------------------------------------------- the exact condition

  /** No notification and no claim yet, for any devices. */
  function Opening(devices: Devices.Tables): Race {
    Race(Deliveries.System(Deliveries.Tables(map[], [], map[], devices, 0), {}), map[], 0, map[])
  }

  lemma OpeningInv(devices: Devices.Tables)
    requires Devices.Inv(devices)
    ensures RaceInv(Opening(devices))
  {
  }

  /**
   * In every run with overlapping records: once all deliveries of a notification are final, no record of them is
   * open, and its status is their aggregate if and only if the record of one of them counted after the records of all
   * the others had committed. Otherwise it still reads `accepted`. While a delivery is open it reads `accepted`.
   */
  lemma AggregateIffOneCountedLast(devices: Devices.Tables, moves: seq<Move>, n: NotificationId)
    requires Devices.Inv(devices) && Playable(Opening(devices), moves)
    requires n in Play(Opening(devices), moves).sys.t.notifications
    ensures var r := Play(Opening(devices), moves);
      var rows, status := r.sys.t.deliveries, r.sys.t.notifications[n];
      && (AllFinal(rows, n) ==>
            && (forall id | id in r.open :: r.open[id].claimed.notification != n)
            && (Aggregates(status, rows, n) <==> OneCountedLast(rows, r.settled, n))
            && (!OneCountedLast(rows, r.settled, n) ==> status == Accepted))
      && (!AllFinal(rows, n) ==> status == Accepted)
  {
    OpeningInv(devices);
    PlayKeepsInv(Opening(devices), moves);
    var r := Play(Opening(devices), moves);
    var rows, status := r.sys.t.deliveries, r.sys.t.notifications[n];
    assert StatusFollows(rows, r.settled, status, n);
    forall id | id in r.open && r.open[id].claimed.notification == n ensures !AllFinal(rows, n) {
      assert TransactionOk(rows, r.settled, id, r.open[id]) && id in Siblings(rows, n);
    }
  }

  /** A notification that missed its end keeps reading `accepted`, whatever happens afterwards. */
  lemma {:induction false} MissedForGood(r: Race, moves: seq<Move>, n: NotificationId)
    requires RaceInv(r) && Playable(r, moves) && n in r.sys.t.notifications
    requires AllFinal(r.sys.t.deliveries, n) && r.sys.t.notifications[n] == Accepted
    ensures var r' := Play(r, moves);
      && n in r'.sys.t.notifications && r'.sys.t.notifications[n] == Accepted && AllFinal(r'.sys.t.deliveries, n)
      && Siblings(r'.sys.t.deliveries, n) == Siblings(r.sys.t.deliveries, n)
  {
    if moves != [] {
      var before := moves[..|moves| - 1];
      MissedForGood(r, before, n);
      PlayKeepsInv(r, before);
      MissedStays(Play(r, before), moves[|moves| - 1], n);
    }
  }

  lemma MissedOther(r: Race, step: Deliveries.Step, n: NotificationId)
    requires LinksOk(r.sys.t) && Permitted(r, Other(step)) && n in r.sys.t.notifications
    requires AllFinal(r.sys.t.deliveries, n)
    ensures var t' := Deliveries.Next(r.sys, step).t;
      && n in t'.notifications && t'.notifications[n] == r.sys.t.notifications[n] && AllFinal(t'.deliveries, n)
      && Siblings(t'.deliveries, n) == Siblings(r.sys.t.deliveries, n)
  {
    OtherIsUntouched(r, step);
    UntouchedSiblings(r, Deliveries.Next(r.sys, step).t.deliveries, n);
    AcceptedRemains(r.sys, step, n);
    assert forall id | id in Siblings(r.sys.t.deliveries, n) :: Final(r.sys.t.deliveries[id]);
  }

  lemma SeenElsewhere(rows: Rows, tx: Transaction, n: NotificationId)
    requires tx.claimed.id in rows && !Final(rows[tx.claimed.id]) && AllFinal(rows, n)
    ensures rows[tx.claimed.id].notification != n
    ensures AllFinal(Seen(rows, tx), n) && Siblings(Seen(rows, tx), n) == Siblings(rows, n)
  {
    assert tx.claimed.id !in Siblings(rows, n);
  }

  lemma MissedCommit(r: Race, id: DeliveryId, n: NotificationId)
    requires Base(r.sys) && OpenOk(r) && id in r.open && n in r.sys.t.notifications
    requires AllFinal(r.sys.t.deliveries, n)
    ensures var t' := Moved(r, Commit(id)).sys.t;
      && n in t'.notifications && t'.notifications[n] == r.sys.t.notifications[n] && AllFinal(t'.deliveries, n)
      && Siblings(t'.deliveries, n) == Siblings(r.sys.t.deliveries, n)
  {
    CommitWrites(r, id);
    CommittedStatus(r.sys.t, r.open[id], n);
    SeenElsewhere(r.sys.t.deliveries, r.open[id], n);
  }

  lemma BeginAndAbortAreQuiet(r: Race, move: Move)
    requires move.Begin? || move.Abort?
    ensures Moved(r, move).sys == r.sys
  {
  }

  lemma MissedStays(r: Race, move: Move, n: NotificationId)
    requires RaceInv(r) && Permitted(r, move) && n in r.sys.t.notifications
    requires AllFinal(r.sys.t.deliveries, n) && r.sys.t.notifications[n] == Accepted
    ensures var r' := Moved(r, move);
      && n in r'.sys.t.notifications && r'.sys.t.notifications[n] == Accepted && AllFinal(r'.sys.t.deliveries, n)
      && Siblings(r'.sys.t.deliveries, n) == Siblings(r.sys.t.deliveries, n)
  {
    if move.Other? {
      MissedOther(r, move.step, n);
    } else if move.Commit? {
      MissedCommit(r, move.id, n);
    } else {
      BeginAndAbortAreQuiet(r, move);
    }
  }

  lemma AcceptedRemains(sys: Deliveries.System, step: Deliveries.Step, n: NotificationId)
    requires !step.Record? && Deliveries.Legal(sys, step) && n in sys.t.notifications
    ensures n in Deliveries.Next(sys, step).t.notifications
    ensures Deliveries.Next(sys, step).t.notifications[n] == sys.t.notifications[n]
  {
  }

  // ---------------------------------------------------------------- a run that misses the end

  lemma PlayOne(r: Race, moves: seq<Move>, move: Move)
    ensures Play(r, moves + [move]) == Moved(Play(r, moves), move)
    ensures Playable(r, moves + [move]) <==> Playable(r, moves) && Permitted(Play(r, moves), move)
  {
    assert (moves + [move])[..|moves|] == moves;
  }

  /** The state when the records of the last two open siblings have both begun and then both committed. */
  ghost function AfterOverlap(r: Race, a: Deliveries.Claimed, b: Deliveries.Claimed, result: SendResult, now: Time): Race {
    Moved(Moved(Moved(Moved(r, Begin(a, result, now)), Begin(b, result, now)), Commit(a.id)), Commit(b.id))
  }

  lemma BeginOpens(r: Race, c: Deliveries.Claimed, result: SendResult, now: Time)
    requires Owns(r.sys.t, c)
    ensures var r' := Moved(r, Begin(c, result, now));
      && r'.sys == r.sys && r'.settled == r.settled && r'.tick == r.tick + 1
      && r'.open == r.open[c.id := Counting(r, c, result, now)]
  {
  }

  lemma BothOpen(r: Race, a: Deliveries.Claimed, b: Deliveries.Claimed, result: SendResult, now: Time)
    requires RaceInv(r) && a in r.sys.claims && b in r.sys.claims && a.id != b.id
    requires Owns(r.sys.t, a) && Owns(r.sys.t, b) && a.id !in r.open && b.id !in r.open
    ensures var r' := Moved(Moved(r, Begin(a, result, now)), Begin(b, result, now));
      && RaceInv(r') && r'.sys == r.sys && r'.settled == r.settled && r'.tick == r.tick + 2
      && a.id in r'.open && r'.open[a.id].countedAt == r.tick && r'.open[a.id].claimed == a && r'.open[a.id].result == result
      && b.id in r'.open && r'.open[b.id].countedAt == r.tick + 1 && r'.open[b.id].claimed == b && r'.open[b.id].result == result
  {
    var r1 := Moved(r, Begin(a, result, now));
    BeginOpens(r, a, result, now);
    BeginKeeps(r, a, result, now);
    BeginOpens(r1, b, result, now);
    BeginKeeps(r1, b, result, now);
  }

  lemma CommitDelivers(r: Race, id: DeliveryId)
    requires RaceInv(r) && id in r.open && r.open[id].result.status == Sent
    ensures var r', rows := Moved(r, Commit(id)), r.sys.t.deliveries;
      && RaceInv(r') && r'.sys.t.notifications.Keys == r.sys.t.notifications.Keys
      && r'.settled == r.settled[id := Settling(r.open[id].countedAt, r.tick)]
      && r'.tick == r.tick + 1 && r'.open == r.open - {id}
      && id in rows && r'.sys.t.deliveries == rows[id := r'.sys.t.deliveries[id]]
      && Final(r'.sys.t.deliveries[id]) && r'.sys.t.deliveries[id].notification == rows[id].notification
  {
    CommitWrites(r, id);
    CommitKeeps(r, id);
  }

  lemma OwnerFacts(r: Race, c: Deliveries.Claimed)
    requires RaceInv(r) && c in r.sys.claims && Owns(r.sys.t, c)
    ensures r.sys.t.deliveries[c.id].notification == c.notification && c.notification in r.sys.t.notifications
    ensures SettlingsFit(r.sys.t.deliveries, r.settled, r.tick)
  {
    OwnedIsOpen(r.sys, c);
  }

  lemma StatusOf(r: Race, n: NotificationId)
    requires RaceInv(r) && n in r.sys.t.notifications
    ensures StatusFollows(r.sys.t.deliveries, r.settled, r.sys.t.notifications[n], n)
  {
  }

  lemma BothCommit(r: Race, a: DeliveryId, b: DeliveryId)
    requires RaceInv(r) && a in r.open && b in r.open && a != b
    requires r.open[a].result.status == Sent && r.open[b].result.status == Sent
    ensures var r', rows := Moved(Moved(r, Commit(a)), Commit(b)), r.sys.t.deliveries;
      var rows' := r'.sys.t.deliveries;
      && RaceInv(r') && r'.sys.t.notifications.Keys == r.sys.t.notifications.Keys
      && r'.settled == r.settled[a := Settling(r.open[a].countedAt, r.tick)][b := Settling(r.open[b].countedAt, r.tick + 1)]
      && a in rows && b in rows && rows'.Keys == rows.Keys && Final(rows'[a]) && Final(rows'[b])
      && (forall id | id in rows :: rows'[id].notification == rows[id].notification)
      && (forall id | id in rows && id != a && id != b :: rows'[id] == rows[id])
  {
    hide RaceInv, Moved;
    CommitDelivers(r, a);
    CommitDelivers(Moved(r, Commit(a)), b);
  }

  /** From any reachable state: all siblings are final, and the notification still reads `accepted`. */
  lemma OverlappingRecordsMissTheEnd(r: Race, a: Deliveries.Claimed, b: Deliveries.Claimed, result: SendResult, now: Time)
    requires RaceInv(r) && a in r.sys.claims && b in r.sys.claims && a.id != b.id
    requires Owns(r.sys.t, a) && Owns(r.sys.t, b) && a.id !in r.open && b.id !in r.open
    requires a.notification == b.notification && result.status == Sent
    requires forall id | id in Siblings(r.sys.t.deliveries, a.notification) && id != a.id && id != b.id ::
      Final(r.sys.t.deliveries[id])
    ensures var r', n := AfterOverlap(r, a, b, result, now), a.notification;
      && RaceInv(r') && n in r'.sys.t.notifications
      && AllFinal(r'.sys.t.deliveries, n) && r'.sys.t.notifications[n] == Accepted
  {
    hide RaceInv, Moved;
    OwnerFacts(r, a);
    OwnerFacts(r, b);
    BothOpen(r, a, b, result, now);
    BothCommit(Moved(Moved(r, Begin(a, result, now)), Begin(b, result, now)), a.id, b.id);
    var r' := AfterOverlap(r, a, b, result, now);
    OverlapIsMissed(r.sys.t.deliveries, r'.sys.t.deliveries, r.settled, r'.settled, r.tick, a.id, b.id, a.notification);
    StatusOf(r', a.notification);
  }

  lemma OverlapIsMissed(rows: Rows, rows': Rows, settled: Settlings, settled': Settlings, tick: nat, a: DeliveryId,
                        b: DeliveryId, n: NotificationId)
    requires a != b && a in rows && b in rows && rows[a].notification == n == rows[b].notification
    requires forall id | id in Siblings(rows, n) && id != a && id != b :: Final(rows[id])
    requires rows'.Keys == rows.Keys && (forall id | id in rows :: rows'[id].notification == rows[id].notification)
    requires forall id | id in rows && id != a && id != b :: rows'[id] == rows[id]
    requires Final(rows'[a]) && Final(rows'[b])
    requires SettlingsFit(rows, settled, tick)
    requires settled' == settled[a := Settling(tick, tick + 2)][b := Settling(tick + 1, tick + 3)]
    ensures AllFinal(rows', n) && !OneCountedLast(rows', settled', n)
  {
    assert Siblings(rows', n) == Siblings(rows, n);
    assert a in Siblings(rows', n) && b in Siblings(rows', n);
    forall w | w in Siblings(rows', n) && w in settled' ensures !Cleared(rows', settled', n, w, settled'[w].countedAt) {
      if w == a { assert settled'[b].committedAt == tick + 3; } else { assert settled'[a].committedAt == tick + 2; }
    }
  }

  lemma PlayOverlap(r: Race, moves: seq<Move>, a: Deliveries.Claimed, b: Deliveries.Claimed, result: SendResult, now: Time)
    returns (all: seq<Move>)
    requires Playable(r, moves) && RaceInv(Play(r, moves)) && result.status == Sent
    requires var mid := Play(r, moves);
      && a in mid.sys.claims && b in mid.sys.claims && a.id != b.id
      && Owns(mid.sys.t, a) && Owns(mid.sys.t, b) && a.id !in mid.open && b.id !in mid.open
    ensures Playable(r, all) && Play(r, all) == AfterOverlap(Play(r, moves), a, b, result, now)
  {
    var mid := Play(r, moves);
    BothOpen(mid, a, b, result, now);
    BeginOpens(mid, a, result, now);
    CommitDelivers(Moved(Moved(mid, Begin(a, result, now)), Begin(b, result, now)), a.id);
    PlayOne(r, moves, Begin(a, result, now));
    all := moves + [Begin(a, result, now)];
    PlayOne(r, all, Begin(b, result, now));
    all := all + [Begin(b, result, now)];
    PlayOne(r, all, Commit(a.id));
    all := all + [Commit(a.id)];
    PlayOne(r, all, Commit(b.id));
    all := all + [Commit(b.id)];
  }

  function AcceptTwo(d: Devices.DeviceId, e: Devices.DeviceId, now: Time): Move {
    Other(Accept(0, map[0 := d, 1 := e], now))
  }

  lemma TwoRows(d: Devices.DeviceId, e: Devices.DeviceId, now: Time)
    ensures Opened(0, map[0 := d, 1 := e], now)
         == map[0 := Delivery(0, d, Pending, 0, Some(now), None, None, now, now),
                1 := Delivery(0, e, Pending, 0, Some(now), None, None, now, now)]
  {
  }

  lemma AcceptedTwo(devices: Devices.Tables, d: Devices.DeviceId, e: Devices.DeviceId, now: Time)
    requires Devices.Inv(devices) && d in devices.devices && e in devices.devices && d != e
    ensures var r := Moved(Opening(devices), AcceptTwo(d, e, now));
      && Permitted(Opening(devices), AcceptTwo(d, e, now)) && RaceInv(r) && r.open == map[] && r.sys.claims == {}
      && r.sys.t.deliveries == Opened(0, map[0 := d, 1 := e], now)
  {
    OpeningInv(devices);
    AcceptTwoIsLegal(devices, d, e, now);
    AcceptedFirst(Opening(devices), map[0 := d, 1 := e], now);
  }

  lemma AcceptedFirst(r: Race, targets: map<DeliveryId, Devices.DeviceId>, now: Time)
    requires RaceInv(r) && Deliveries.Legal(r.sys, Accept(0, targets, now))
    requires r.open == map[] && r.sys.claims == {} && r.sys.t.deliveries == map[]
    ensures var r' := Moved(r, Other(Accept(0, targets, now)));
      && Permitted(r, Other(Accept(0, targets, now))) && RaceInv(r') && r'.open == map[] && r'.sys.claims == {}
      && r'.sys.t.deliveries == Opened(0, targets, now)
  {
    hide RaceInv, Opened;
    OtherKeeps(r, Accept(0, targets, now));
    assert map[] + Opened(0, targets, now) == Opened(0, targets, now);
  }

  lemma AcceptTwoIsLegal(devices: Devices.Tables, d: Devices.DeviceId, e: Devices.DeviceId, now: Time)
    requires d in devices.devices && e in devices.devices && d != e
    ensures Deliveries.Legal(Opening(devices).sys, Accept(0, map[0 := d, 1 := e], now))
  {
    var targets := map[0 := d, 1 := e];
    assert targets.Keys == {0, 1};
  }

  lemma ClaimedAlone(sys: Deliveries.System, id: DeliveryId, now: Time, locked: set<DeliveryId>)
    requires LinksOk(sys.t) && id in sys.t.deliveries && id !in locked && sys.t.deliveries.Keys == locked + {id}
    requires sys.t.deliveries[id].status == Pending && sys.t.deliveries[id].nextAttemptAt == Some(now)
    ensures Deliveries.Legal(sys, Claim(id, now, locked))
    ensures var sys', c := Deliveries.Next(sys, Claim(id, now, locked)), ClaimOf(sys.t, id);
      && sys'.claims == sys.claims + {c} && Owns(sys'.t, c) && c.id == id
      && c.notification == sys.t.deliveries[id].notification
      && sys'.t.deliveries == sys.t.deliveries[id := sys'.t.deliveries[id]]
      && sys'.t.deliveries[id].notification == sys.t.deliveries[id].notification
  {
    assert forall other :: Claimable(sys.t, other, now, locked) ==> other == id;
  }

  /** A pending row can be claimed when every other row is locked. */
  lemma ClaimAlone(r: Race, id: DeliveryId, now: Time, locked: set<DeliveryId>)
    requires RaceInv(r) && r.open == map[] && id in r.sys.t.deliveries && id !in locked
    requires r.sys.t.deliveries[id].status == Pending && r.sys.t.deliveries[id].nextAttemptAt == Some(now)
    requires r.sys.t.deliveries.Keys == locked + {id}
    ensures r.sys.t.deliveries[id].device in r.sys.t.devices.devices
    ensures var r', c := Moved(r, Other(Claim(id, now, locked))), ClaimOf(r.sys.t, id);
      && Permitted(r, Other(Claim(id, now, locked))) && RaceInv(r') && r'.open == map[]
      && r'.sys.claims == r.sys.claims + {c} && Owns(r'.sys.t, c) && c.id == id
      && c.notification == r.sys.t.deliveries[id].notification
      && r'.sys.t.deliveries == r.sys.t.deliveries[id := r'.sys.t.deliveries[id]]
      && r'.sys.t.deliveries[id].notification == r.sys.t.deliveries[id].notification
  {
    ClaimedAlone(r.sys, id, now, locked);
    OtherKeeps(r, Claim(id, now, locked));
  }

  /** Both deliveries claimed, each by its own worker. */
  ghost predicate BothClaimed(r: Race, a: Deliveries.Claimed, b: Deliveries.Claimed) {
    && RaceInv(r) && r.open == map[] && a in r.sys.claims && b in r.sys.claims
    && a.id == 0 && b.id == 1 && a.notification == 0 && b.notification == 0
    && Owns(r.sys.t, a) && Owns(r.sys.t, b) && r.sys.t.deliveries.Keys == {0, 1}
  }

  lemma ClaimBoth(r: Race, now: Time)
    requires RaceInv(r) && r.open == map[] && r.sys.t.deliveries.Keys == {0, 1}
    requires forall id | id in r.sys.t.deliveries ::
      var row := r.sys.t.deliveries[id]; row.notification == 0 && row.status == Pending && row.nextAttemptAt == Some(now)
    ensures r.sys.t.deliveries[0].device in r.sys.t.devices.devices
    ensures var r1 := Moved(r, Other(Claim(0, now, {1})));
      && Permitted(r, Other(Claim(0, now, {1}))) && Permitted(r1, Other(Claim(1, now, {0})))
      && 1 in r1.sys.t.deliveries && r1.sys.t.deliveries[1].device in r1.sys.t.devices.devices
      && BothClaimed(Moved(r1, Other(Claim(1, now, {0}))), ClaimOf(r.sys.t, 0), ClaimOf(r1.sys.t, 1))
  {
    hide RaceInv, Moved;
    ClaimAlone(r, 0, now, {1});
    var r1 := Moved(r, Other(Claim(0, now, {1})));
    ClaimAlone(r1, 1, now, {0});
  }

  lemma MissFromBothClaimed(r: Race, a: Deliveries.Claimed, b: Deliveries.Claimed, result: SendResult, now: Time)
    requires BothClaimed(r, a, b) && result.status == Sent
    ensures var t := AfterOverlap(r, a, b, result, now).sys.t;
      0 in t.notifications && AllFinal(t.deliveries, 0) && t.notifications[0] == Accepted
  {
    hide RaceInv, Moved, AfterOverlap;
    OverlappingRecordsMissTheEnd(r, a, b, result, now);
  }

  /** Such a run from the opening: accept for two devices, claim both, begin both records, commit both. */
  lemma MissingRun(devices: Devices.Tables, d: Devices.DeviceId, e: Devices.DeviceId, now: Time) returns (moves: seq<Move>)
    requires Devices.Inv(devices) && d in devices.devices && e in devices.devices && d != e
    ensures Playable(Opening(devices), moves)
    ensures var t := Play(Opening(devices), moves).sys.t;
      0 in t.notifications && AllFinal(t.deliveries, 0) && t.notifications[0] == Accepted
  {
    hide RaceInv, Moved, AfterOverlap;
    var r0 := Opening(devices);
    var accept, claimA, claimB := AcceptTwo(d, e, now), Other(Claim(0, now, {1})), Other(Claim(1, now, {0}));
    AcceptedTwo(devices, d, e, now);
    TwoRows(d, e, now);
    var r1 := Moved(r0, accept);
    ClaimBoth(r1, now);
    var r2 := Moved(r1, claimA);
    var a, b, result := ClaimOf(r1.sys.t, 0), ClaimOf(r2.sys.t, 1), SendResult(Sent, None);
    moves := PlayThree(r0, accept, claimA, claimB);
    MissFromBothClaimed(Moved(r2, claimB), a, b, result, now);
    moves := PlayOverlap(r0, moves, a, b, result, now);
  }

  lemma PlayThree(r: Race, x: Move, y: Move, z: Move) returns (moves: seq<Move>)
    requires Permitted(r, x) && Permitted(Moved(r, x), y) && Permitted(Moved(Moved(r, x), y), z)
    ensures Playable(r, moves) && Play(r, moves) == Moved(Moved(Moved(r, x), y), z)
  {
    PlayOne(r, [], x);
    PlayOne(r, [] + [x], y);
    PlayOne(r, [] + [x] + [y], z);
    moves := [] + [x] + [y] + [z];
  }
}
