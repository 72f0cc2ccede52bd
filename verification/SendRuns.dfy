/**
 * Sends over whole runs: retries, the retention purge, the delivery workers and the devices move
 * between any two of them. Each request runs under an advisory lock on its key, so it is one step.
 */
module SendRuns {
  import opened Prelude
  import opened JsonText
  import opened StableJson
  import opened NotificationSend
  import Devices
  import Deliveries

  datatype Step =
    | Send(k: Key, request: Request, around: Surroundings, now: Time, later: Time)
    | Purge(now: Time)
    | Work(step: Deliveries.Step)

  /** The tables, and the latest moment at which a send or a purge happened. */
  datatype State = State(store: Store, clock: Time)

  ghost predicate Legal(s: State, step: Step) {
    match step
    case Send(k, request, around, now, later) =>
      && s.clock <= now <= later
      && Lists(around.eligible, Destinations(s.store.sys.t.devices, k.0, request.account))
    case Purge(now) => s.clock <= now
    case Work(step) => !step.Accept? && Deliveries.Legal(s.store.sys, step)
  }

  ghost function Next(cmp: Collation, s: State, step: Step): State {
    match step
    case Send(k, request, around, now, later) => State(AfterSend(cmp, s.store, k, request, around, now, later).0, later)
    case Purge(now) => State(s.store.(records := Purged(s.store.records, now)), now)
    case Work(step) => State(s.store.(sys := Deliveries.Next(s.store.sys, step)), s.clock)
  }

  ghost function Run(cmp: Collation, s: State, steps: seq<Step>): State {
    if steps == [] then s else Next(cmp, Run(cmp, s, steps[..|steps| - 1]), steps[|steps| - 1])
  }

  ghost predicate LegalRun(cmp: Collation, s: State, steps: seq<Step>) {
    steps == []
    || (LegalRun(cmp, s, steps[..|steps| - 1]) && Legal(Run(cmp, s, steps[..|steps| - 1]), steps[|steps| - 1]))
  }

  ghost function Outcome(cmp: Collation, s: State, step: Step): Result<Reply, Error>
    requires step.Send?
  {
    AfterSend(cmp, s.store, step.k, step.request, step.around, step.now, step.later).1
  }

  // ---------------------------------------------------------------- retries within the week

  lemma LiveStepStays(cmp: Collation, s: State, step: Step, k: Key)
    requires Legal(s, step) && k in s.store.records && Next(cmp, s, step).clock < s.store.records[k].expiresAt
    ensures k in Next(cmp, s, step).store.records
    ensures Next(cmp, s, step).store.records[k] == s.store.records[k]
  {
  }

  lemma {:induction false} LiveStays(cmp: Collation, s: State, steps: seq<Step>, k: Key)
    requires LegalRun(cmp, s, steps) && k in s.store.records
    requires Run(cmp, s, steps).clock < s.store.records[k].expiresAt
    ensures s.clock <= Run(cmp, s, steps).clock
    ensures k in Run(cmp, s, steps).store.records
    ensures Run(cmp, s, steps).store.records[k] == s.store.records[k]
  {
    if steps != [] {
      var before, last := steps[..|steps| - 1], steps[|steps| - 1];
      assert Run(cmp, s, before).clock <= Run(cmp, s, steps).clock;
      LiveStays(cmp, s, before, k);
      LiveStepStays(cmp, Run(cmp, s, before), last, k);
    }
  }

  /** A first send is stored under its key, with the reply it gave. */
  lemma FirstSendIsStored(cmp: Collation, s: State, first: Step)
    requires first.Send? && Outcome(cmp, s, first).Ok? && !Outcome(cmp, s, first).value.replayed
    ensures first.k in Next(cmp, s, first).store.records
    ensures Next(cmp, s, first).store.records[first.k]
         == Record(StableJson.StableJson(cmp, first.request.payload), Outcome(cmp, s, first).value.response,
                   first.later + 604_800_000)
  {
  }

  /**
   * After a first send, and whatever happens in between, a second send under the same key within the
   * week changes no table: it replays the stored reply if its body is the same up to the order of
   * members at every level, and otherwise it is a conflict.
   */
  lemma RetriesReplay(cmp: Collation, s: State, first: Step, steps: seq<Step>, second: Step)
    requires first.Send? && second.Send? && second.k == first.k && Refusal(second.k.1, second.request).None?
    requires Outcome(cmp, s, first).Ok? && !Outcome(cmp, s, first).value.replayed
    requires LegalRun(cmp, Next(cmp, s, first), steps) && Legal(Run(cmp, Next(cmp, s, first), steps), second)
    requires second.now < first.later + 604_800_000
    requires Ordering(cmp) && Wellformed(first.request.payload) && Wellformed(second.request.payload)
    requires NoTies(cmp, first.request.payload)
    ensures var s' := Run(cmp, Next(cmp, s, first), steps);
      && Next(cmp, s', second).store == s'.store
      && Outcome(cmp, s', second) ==
           if Same(first.request.payload, second.request.payload)
           then Ok(Reply(Outcome(cmp, s, first).value.response, true)) else Err(PayloadConflict)
  {
    FirstSendIsStored(cmp, s, first);
    LiveStays(cmp, Next(cmp, s, first), steps, first.k);
    StableJsonIdentifies(cmp, first.request.payload, second.request.payload);
  }

  /** A send that inserts a notification. */
  ghost predicate Notifies(cmp: Collation, s: State, step: Step) {
    step.Send? && match Outcome(cmp, s, step)
                  case Ok(reply) => reply.response.Created? && !reply.replayed
                  case Err(_) => false
  }

  /** Two notifications under one key are a week apart, whatever the bodies of their requests. */
  lemma NextNotificationIsAWeekLater(cmp: Collation, s: State, first: Step, steps: seq<Step>, second: Step)
    requires first.Send? && second.Send? && second.k == first.k
    requires LegalRun(cmp, Next(cmp, s, first), steps) && Legal(Run(cmp, Next(cmp, s, first), steps), second)
    requires Notifies(cmp, s, first) && Notifies(cmp, Run(cmp, Next(cmp, s, first), steps), second)
    ensures second.now >= first.later + 604_800_000
  {
    FirstSendIsStored(cmp, s, first);
    if second.now < first.later + 604_800_000 {
      LiveStays(cmp, Next(cmp, s, first), steps, first.k);
    }
  }

  // ---------------------------------------------------------------- what every run keeps

  /** The notification of a stored reply has as many delivery rows as the reply says, on distinct devices. */
  ghost predicate RecordOk(sys: Deliveries.System, record: Record) {
    record.response.Created? ==>
      var n := record.response.notification;
      && n in sys.t.notifications
      && |Deliveries.Siblings(sys.t.deliveries, n)| == record.response.accepted
      && DistinctDevices(sys.t.deliveries, n)
  }

  ghost predicate DistinctDevices(rows: map<Deliveries.DeliveryId, Deliveries.Delivery>, n: Deliveries.NotificationId) {
    forall a, b | a in Deliveries.Siblings(rows, n) && b in Deliveries.Siblings(rows, n) && rows[a].device == rows[b].device :: a == b
  }

  ghost predicate IdsOk(s: Store) {
    && (forall n | n in s.sys.t.notifications :: n < s.nextId)
    && (forall id | id in s.sys.t.deliveries :: id < s.nextId)
  }

  ghost predicate RecordsOk(s: Store) {
    forall k | k in s.records :: RecordOk(s.sys, s.records[k])
  }

  ghost predicate Inv(s: Store) {
    Deliveries.Inv(s.sys) && IdsOk(s) && RecordsOk(s)
  }

  lemma EmptyInv()
    ensures Inv(Store(map[], Deliveries.System(Deliveries.EMPTY, {}), 0))
  {
    Deliveries.EmptyInv();
  }

  /** The accepting step of a send is one the delivery protocol allows. */
  lemma AcceptIsLegal(s: Store, selected: seq<DeviceId>, now: Time)
    requires IdsOk(s) && selected != [] && Distinct(selected)
    requires forall id | id in selected :: id in s.sys.t.devices.devices
    ensures Deliveries.Legal(s.sys, AcceptStep(selected, s.nextId, now))
  {
    var rows := Targets(selected, s.nextId + 1);
    assert s.nextId + 1 in rows;
    forall id | id in rows ensures rows[id] in s.sys.t.devices.devices { assert rows[id] in selected; }
  }

  lemma {:induction false} TargetsCount(selected: seq<DeviceId>, first: nat)
    ensures |Targets(selected, first)| == |selected|
  {
    if selected != [] {
      var last := |selected| - 1;
      TargetsCount(selected[..last], first);
      assert first + last !in Targets(selected[..last], first);
    }
  }

  /** A new notification has one row for each target. */
  lemma AcceptedRows(sys: Deliveries.System, n: Deliveries.NotificationId, targets: map<Deliveries.DeliveryId,
                     DeviceId>,
                     now: Time, record: Record)
    requires forall id | id in sys.t.deliveries :: sys.t.deliveries[id].notification != n
    requires forall a, b | a in targets && b in targets && targets[a] == targets[b] :: a == b
    requires record.response == Created(n, |targets|)
    ensures RecordOk(Deliveries.Next(sys, Deliveries.Accept(n, targets, now)), record)
  {
    var rows := sys.t.deliveries + Deliveries.Opened(n, targets, now);
    assert Deliveries.Siblings(rows, n) == targets.Keys;
    assert |targets.Keys| == |targets|;
    assert forall id | id in targets :: rows[id].device == targets[id];
  }

  lemma TargetsDistinct(selected: seq<DeviceId>, first: nat)
    requires Distinct(selected)
    ensures var rows := Targets(selected, first); forall a, b | a in rows && b in rows && rows[a] == rows[b] :: a == b
  {
  }

  /** A step of the delivery protocol keeps the rows of an existing notification and their devices. */
  lemma RowsStay(sys: Deliveries.System, step: Deliveries.Step, n: Deliveries.NotificationId)
    requires Deliveries.Legal(sys, step) && n in sys.t.notifications
    ensures n in Deliveries.Next(sys, step).t.notifications
    ensures Deliveries.Siblings(Deliveries.Next(sys, step).t.deliveries, n) == Deliveries.Siblings(sys.t.deliveries, n)
    ensures forall id | id in Deliveries.Siblings(sys.t.deliveries, n) ::
              Deliveries.Next(sys, step).t.deliveries[id].device == sys.t.deliveries[id].device
  {
  }

  lemma RecordStays(sys: Deliveries.System, step: Deliveries.Step, record: Record)
    requires Deliveries.Legal(sys, step) && RecordOk(sys, record)
    ensures RecordOk(Deliveries.Next(sys, step), record)
  {
    if record.response.Created? { RowsStay(sys, step, record.response.notification); }
  }

  lemma IdsStay(s: Store, step: Deliveries.Step)
    requires Deliveries.Legal(s.sys, step) && !step.Accept? && IdsOk(s)
    ensures IdsOk(s.(sys := Deliveries.Next(s.sys, step)))
  {
  }

  lemma RecordsStay(s: Store, step: Deliveries.Step)
    requires RecordsOk(s) && Deliveries.Legal(s.sys, step)
    ensures RecordsOk(s.(sys := Deliveries.Next(s.sys, step)))
  {
    forall k | k in s.records ensures RecordOk(Deliveries.Next(s.sys, step), s.records[k]) {
      RecordStays(s.sys, step, s.records[k]);
    }
  }

  lemma OpenedKeepsIds(s: Store, selected: seq<DeviceId>, now: Time)
    requires IdsOk(s)
    ensures IdsOk(Opened(s, selected, now))
  {
  }

  lemma OpenedKeepsInv(s: Store, selected: seq<DeviceId>, now: Time)
    requires Inv(s) && Distinct(selected)
    requires forall id | id in selected :: id in s.sys.t.devices.devices
    ensures Inv(Opened(s, selected, now))
  {
    if selected != [] {
      AcceptIsLegal(s, selected, now);
      Deliveries.StepKeepsInv(s.sys, AcceptStep(selected, s.nextId, now));
      OpenedKeepsIds(s, selected, now);
      RecordsStay(s, AcceptStep(selected, s.nextId, now));
    }
  }

  lemma StoredKeepsInv(s: Store, k: Key, record: Record)
    requires Inv(s) && RecordOk(s.sys, record)
    ensures Inv(s.(records := s.records[k := record]))
  {
  }

  lemma NewRecordOk(s: Store, selected: seq<DeviceId>, now: Time, hash: Text, expiresAt: Time)
    requires IdsOk(s) && Deliveries.LinksOk(s.sys.t) && Distinct(selected)
    ensures RecordOk(Opened(s, selected, now).sys, Record(hash, ResponseFor(selected, s.nextId), expiresAt))
  {
    if selected != [] {
      assert forall id | id in s.sys.t.deliveries :: s.sys.t.deliveries[id].notification in s.sys.t.notifications;
      hide IdsOk, Deliveries.LinksOk, RecordOk, Targets;
      TargetsDistinct(selected, s.nextId + 1);
      TargetsCount(selected, s.nextId + 1);
      AcceptedRows(s.sys, s.nextId, Targets(selected, s.nextId + 1), now,
                   Record(hash, ResponseFor(selected, s.nextId), expiresAt));
    }
  }

  ghost function Selected(s: State, step: Step): Result<seq<DeviceId>, Error>
    requires step.Send?
  {
    Select(s.store.sys.t.devices.devices, step.around.eligible, step.request.destination)
  }

  /** A first send opens rows for the devices it selected; every other send leaves the tables alone. */
  lemma SendOpensOrNothing(cmp: Collation, s: State, step: Step)
    requires step.Send? && Legal(s, step)
    ensures var outcome := Outcome(cmp, s, step);
      if outcome.Ok? && !outcome.value.replayed then
        && Selected(s, step).Ok?
        && outcome.value.response == ResponseFor(Selected(s, step).value, s.store.nextId)
        && Next(cmp, s, step).store ==
             Opened(s.store, Selected(s, step).value, step.later).(records := s.store.records[step.k :=
               Record(StableJson.StableJson(cmp, step.request.payload), outcome.value.response, step.later + IDEMPOTENCY_TTL_MS)])
      else Next(cmp, s, step).store == s.store
  {
  }

  lemma SelectedAreDevices(s: State, step: Step)
    requires step.Send? && Legal(s, step) && Selected(s, step).Ok?
    ensures Distinct(Selected(s, step).value)
    ensures forall id | id in Selected(s, step).value :: id in s.store.sys.t.devices.devices
  {
    SelectionIsExact(s.store.sys.t.devices.devices, step.around.eligible, step.request.destination);
    assert forall id | id in Selected(s, step).value :: id in step.around.eligible;
  }

  lemma SendKeepsInv(cmp: Collation, s: State, step: Step)
    requires Inv(s.store) && step.Send? && Legal(s, step)
    ensures Inv(Next(cmp, s, step).store)
  {
    SendOpensOrNothing(cmp, s, step);
    var outcome := Outcome(cmp, s, step);
    if outcome.Ok? && !outcome.value.replayed {
      SelectedAreDevices(s, step);
      var selected := Selected(s, step).value;
      var hash := StableJson.StableJson(cmp, step.request.payload);
      OpenedKeepsInv(s.store, selected, step.later);
      NewRecordOk(s.store, selected, step.later, hash, step.later + IDEMPOTENCY_TTL_MS);
      StoredKeepsInv(Opened(s.store, selected, step.later), step.k,
                     Record(hash, outcome.value.response, step.later + IDEMPOTENCY_TTL_MS));
    }
  }

  lemma StepKeepsInv(cmp: Collation, s: State, step: Step)
    requires Inv(s.store) && Legal(s, step)
    ensures Inv(Next(cmp, s, step).store)
  {
    match step
    case Send(_, _, _, _, _) => SendKeepsInv(cmp, s, step);
    case Purge(now) =>
    case Work(work) =>
      Deliveries.StepKeepsInv(s.store.sys, work);
      IdsStay(s.store, work);
      RecordsStay(s.store, work);
  }

  lemma {:induction false} RunKeepsInv(cmp: Collation, s: State, steps: seq<Step>)
    requires Inv(s.store) && LegalRun(cmp, s, steps)
    ensures Inv(Run(cmp, s, steps).store)
  {
    if steps != [] {
      RunKeepsInv(cmp, s, steps[..|steps| - 1]);
      StepKeepsInv(cmp, Run(cmp, s, steps[..|steps| - 1]), steps[|steps| - 1]);
    }
  }

  /** In every reachable state `accepted` is the number of delivery rows, and they are on distinct devices. */
  lemma AcceptedCountsDevices(cmp: Collation, s: State, steps: seq<Step>, k: Key)
    requires Inv(s.store) && LegalRun(cmp, s, steps) && k in Run(cmp, s, steps).store.records
    requires Run(cmp, s, steps).store.records[k].response.Created?
    ensures var store := Run(cmp, s, steps).store;
      var response := store.records[k].response;
      && |Deliveries.Siblings(store.sys.t.deliveries, response.notification)| == response.accepted
      && DistinctDevices(store.sys.t.deliveries, response.notification)
  {
    RunKeepsInv(cmp, s, steps);
  }

  // ---------------------------------------------------------------- whom a send reaches

  /** The notification has a delivery to the device. */
  ghost predicate Reaches(rows: map<Deliveries.DeliveryId, Deliveries.Delivery>, n: Deliveries.NotificationId, device: DeviceId) {
    exists id | id in rows :: rows[id].notification == n && rows[id].device == device
  }

  lemma AcceptedReaches(sys: Deliveries.System, n: Deliveries.NotificationId,
                        targets: map<Deliveries.DeliveryId, DeviceId>, now: Time, device: DeviceId)
    requires forall id | id in sys.t.deliveries :: sys.t.deliveries[id].notification != n
    ensures Reaches(Deliveries.Next(sys, Deliveries.Accept(n, targets, now)).t.deliveries, n, device)
       <==> device in targets.Values
  {
    var rows := sys.t.deliveries + Deliveries.Opened(n, targets, now);
    if id :| id in targets && targets[id] == device { assert rows[id].device == device; }
  }

  lemma TargetsHold(selected: seq<DeviceId>, first: nat, device: DeviceId)
    ensures device in Targets(selected, first).Values <==> device in selected
  {
    var rows := Targets(selected, first);
    if device in selected {
      var i :| 0 <= i < |selected| && selected[i] == device;
      assert first + i in rows && rows[first + i] == device;
    }
    if id :| id in rows && rows[id] == device { assert selected[id - first] == device; }
  }

  /** A send that notifies has a delivery for exactly the eligible devices of the recipient that were asked for. */
  lemma SendReachesTheWanted(cmp: Collation, s: State, step: Step, device: DeviceId)
    requires Inv(s.store) && Legal(s, step) && Notifies(cmp, s, step)
    ensures var devices := s.store.sys.t.devices;
      Reaches(Next(cmp, s, step).store.sys.t.deliveries, Outcome(cmp, s, step).value.response.notification, device)
      <==> && Devices.Reachable(devices, step.request.account, device)
           && (device, step.k.0) in devices.consents && devices.consents[(device, step.k.0)].enabled
           && devices.consents[(device, step.k.0)].account == step.request.account
           && (step.request.destination.Some? ==>
                 var d := step.request.destination.value;
                 if d.deviceIds.Given? then device in d.deviceIds.value
                 else d.platform.Given? ==> devices.devices[device].platform == d.platform.value)
  {
    SendIsAccept(cmp, s, step);
    SendOpensOrNothing(cmp, s, step);
    var selected := Selected(s, step).value;
    SelectionIsExact(s.store.sys.t.devices.devices, step.around.eligible, step.request.destination);
    assert s.store.nextId !in s.store.sys.t.notifications;
    AcceptedReaches(s.store.sys, s.store.nextId, Targets(selected, s.store.nextId + 1), step.later, device);
    TargetsHold(selected, s.store.nextId + 1, device);
  }

  // ---------------------------------------------------------------- the purge is invisible

  function Unpurged(steps: seq<Step>): seq<Step> {
    if steps == [] then []
    else
      var before := Unpurged(steps[..|steps| - 1]);
      if steps[|steps| - 1].Purge? then before else before + [steps[|steps| - 1]]
  }

  /** What the callers of `send` were told, in order. */
  ghost function Replies(cmp: Collation, s: State, steps: seq<Step>): seq<Result<Reply, Error>> {
    if steps == [] then []
    else
      var before, last := steps[..|steps| - 1], steps[|steps| - 1];
      if last.Send? then Replies(cmp, s, before) + [Outcome(cmp, Run(cmp, s, before), last)] else Replies(cmp, s, before)
  }

  /** Equal but for records that are expired in the first state. */
  ghost predicate Agree(a: State, b: State) {
    && a.store.sys == b.store.sys && a.store.nextId == b.store.nextId && b.clock <= a.clock
    && forall k :: LiveRecord(a.store, k, a.clock) == LiveRecord(b.store, k, a.clock)
  }

  function LiveRecord(s: Store, k: Key, now: Time): Option<Record> {
    if Live(s.records, k, now) then Some(s.records[k]) else None
  }

  lemma StillAgree(a: State, b: State, now: Time)
    requires Agree(a, b) && a.clock <= now
    ensures forall k :: LiveRecord(a.store, k, now) == LiveRecord(b.store, k, now)
  {
    forall k ensures LiveRecord(a.store, k, now) == LiveRecord(b.store, k, now) {
      assert LiveRecord(a.store, k, a.clock) == LiveRecord(b.store, k, a.clock);
    }
  }

  lemma PurgeAgrees(cmp: Collation, a: State, b: State, now: Time)
    requires Agree(a, b) && Legal(a, Purge(now))
    ensures Agree(Next(cmp, a, Purge(now)), b)
  {
    StillAgree(a, b, now);
    var a' := Next(cmp, a, Purge(now));
    forall k ensures LiveRecord(a'.store, k, now) == LiveRecord(b.store, k, now) {
      assert LiveRecord(a.store, k, now) == LiveRecord(b.store, k, now);
    }
  }

  lemma SendAgrees(cmp: Collation, a: State, b: State, step: Step)
    requires Agree(a, b) && step.Send? && Legal(a, step)
    ensures Legal(b, step) && Outcome(cmp, a, step) == Outcome(cmp, b, step)
    ensures Agree(Next(cmp, a, step), Next(cmp, b, step))
  {
    StillAgree(a, b, step.now);
    StillAgree(a, b, step.later);
    assert LiveRecord(a.store, step.k, step.now) == LiveRecord(b.store, step.k, step.now);
    var a', b' := Next(cmp, a, step), Next(cmp, b, step);
    forall k ensures LiveRecord(a'.store, k, step.later) == LiveRecord(b'.store, k, step.later) {
      assert LiveRecord(a.store, k, step.later) == LiveRecord(b.store, k, step.later);
    }
  }

  lemma WorkAgrees(cmp: Collation, a: State, b: State, step: Step)
    requires Agree(a, b) && step.Work? && Legal(a, step)
    ensures Legal(b, step) && Agree(Next(cmp, a, step), Next(cmp, b, step))
  {
    var a', b' := Next(cmp, a, step), Next(cmp, b, step);
    forall k ensures LiveRecord(a'.store, k, a.clock) == LiveRecord(b'.store, k, a.clock) {
      assert LiveRecord(a.store, k, a.clock) == LiveRecord(b.store, k, a.clock);
    }
  }

  /** Leaving every purge out of a run changes no reply and no notification or delivery row. */
  lemma {:induction false} PurgeIsInvisible(cmp: Collation, s: State, steps: seq<Step>)
    requires LegalRun(cmp, s, steps)
    ensures LegalRun(cmp, s, Unpurged(steps)) && Agree(Run(cmp, s, steps), Run(cmp, s, Unpurged(steps)))
    ensures Replies(cmp, s, steps) == Replies(cmp, s, Unpurged(steps))
    ensures Run(cmp, s, steps).store.sys == Run(cmp, s, Unpurged(steps)).store.sys
  {
    if steps != [] {
      var before, last := steps[..|steps| - 1], steps[|steps| - 1];
      PurgeIsInvisible(cmp, s, before);
      var a, b := Run(cmp, s, before), Run(cmp, s, Unpurged(before));
      hide Next, Outcome, Agree;
      if last.Purge? {
        PurgeAgrees(cmp, a, b, last.now);
      } else {
        assert (Unpurged(before) + [last])[..|Unpurged(before)|] == Unpurged(before);
        if last.Send? { SendAgrees(cmp, a, b, last); } else { WorkAgrees(cmp, a, b, last); }
      }
    }
  }

  // ---------------------------------------------------------------- sends are steps of the delivery protocol

  /** The delivery steps of a run. */
  ghost function Projected(cmp: Collation, s: State, steps: seq<Step>): seq<Deliveries.Step> {
    if steps == [] then []
    else
      var before, last := steps[..|steps| - 1], steps[|steps| - 1];
      var rest := Projected(cmp, s, before);
      var state := Run(cmp, s, before);
      if last.Work? then rest + [last.step]
      else if Notifies(cmp, state, last) then
        rest + [AcceptStep(Selected(state, last).value, state.store.nextId, last.later)]
      else rest
  }

  /** Every run of sends and workers is a legal run of the delivery protocol, so all that holds there holds here. */
  lemma {:induction false} SendsRefineDeliveries(cmp: Collation, s: State, steps: seq<Step>)
    requires Inv(s.store) && LegalRun(cmp, s, steps)
    ensures Deliveries.LegalRun(s.store.sys, Projected(cmp, s, steps))
    ensures Deliveries.Run(s.store.sys, Projected(cmp, s, steps)) == Run(cmp, s, steps).store.sys
  {
    if steps != [] {
      var before, last := steps[..|steps| - 1], steps[|steps| - 1];
      SendsRefineDeliveries(cmp, s, before);
      RunKeepsInv(cmp, s, before);
      var state, rest := Run(cmp, s, before), Projected(cmp, s, before);
      if last.Send? { SendIsAccept(cmp, state, last); }
      if Projected(cmp, s, steps) != rest {
        var all := Projected(cmp, s, steps);
        assert all[..|all| - 1] == rest;
      }
    }
  }

  lemma SendIsAccept(cmp: Collation, s: State, step: Step)
    requires Inv(s.store) && step.Send? && Legal(s, step)
    ensures if Notifies(cmp, s, step)
      then
        && Selected(s, step).Ok?
        && Deliveries.Legal(s.store.sys, AcceptStep(Selected(s, step).value, s.store.nextId, step.later))
        && Next(cmp, s, step).store.sys
             == Deliveries.Next(s.store.sys, AcceptStep(Selected(s, step).value, s.store.nextId, step.later))
      else Next(cmp, s, step).store.sys == s.store.sys
  {
    SendOpensOrNothing(cmp, s, step);
    if Notifies(cmp, s, step) {
      SelectedAreDevices(s, step);
      AcceptIsLegal(s.store, Selected(s, step).value, step.later);
    }
  }
}
