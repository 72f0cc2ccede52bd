/** The classes behind sends: src/notifications/notification-send.service.ts, notification-retention.service.ts. */
module SendService {
  import opened Prelude
  import opened JsonText
  import opened StableJson
  import opened NotificationSend
  import Devices
  import Deliveries
  import DeliveryWorker

  /** `notification_idempotency_keys`, and the source of fresh identifiers. */
  class IdempotencyTable {
    var records: map<Key, Record>
    var nextId: nat

    constructor ()
      ensures records == map[] && nextId == 0
    {
      records, nextId := map[], 0;
    }
  }

  class NotificationSendService {
    const db: DeliveryWorker.Database
    const devices: Devices.NotificationDevicesService
    const table: IdempotencyTable
    const localeCompare: Collation

    constructor (db: DeliveryWorker.Database, devices: Devices.NotificationDevicesService, table: IdempotencyTable,
                 localeCompare: Collation)
      ensures this.db == db && this.devices == devices && this.table == table && this.localeCompare == localeCompare
    {
      this.db, this.devices, this.table, this.localeCompare := db, devices, table, localeCompare;
    }

    ghost function State(): Store
      reads db, devices, table
    {
      Store(table.records,
            Deliveries.System(Deliveries.Tables(db.deliveries, db.attempts, db.notifications, devices.State(), db.nextToken),
                              db.claims),
            table.nextId)
    }

    /** Copies the metadata member by member; an accepted copy is the metadata itself. */
    method ValidateMetadata(metadata: Option<seq<Entry<Option<Json>>>>)
      returns (result: Result<Option<seq<Entry<Option<Json>>>>, Error>)
      ensures result == (if MetadataCheck(metadata).Some? then Err(MetadataCheck(metadata).value) else Ok(metadata))
    {
      if metadata.None? { return Ok(None); }
      var entries := metadata.value;
      if |entries| > 20 || |Print(Object(entries))| > 4096 { return Err(MetadataTooLarge); }
      var safe: seq<Entry<Option<Json>>> := [];
      for i := 0 to |entries|
        invariant safe == entries[..i]
        invariant forall j | 0 <= j < i :: MemberAllowed(entries[j])
      {
        if !MetadataKey(entries[i].key) { return Err(MetadataInvalid); }
        if !Plain(entries[i].value) { return Err(MetadataInvalid); }
        safe := safe + [entries[i]];
      }
      assert safe == entries;
      return Ok(Some(safe));
    }

    /** One transaction, holding the advisory lock of the key. */
    method Send(k: Key, request: Request, around: Surroundings, now: Time, later: Time) returns (r: Result<Reply,
                Error>)
      modifies db`deliveries, db`notifications, table
      ensures (State(), r) == AfterSend(localeCompare, old(State()), k, request, around, now, later)
    {
      if !ValidKey(k.1) { return Err(InvalidKey); }
      if Ambiguous(request) { return Err(AmbiguousDestination); }
      var metadata := ValidateMetadata(request.metadata);
      if metadata.Err? { return Err(metadata.error); }
      var payloadHash := StableJson.StableJson(localeCompare, request.payload);
      if k in table.records && table.records[k].expiresAt > now {
        if table.records[k].payloadHash != payloadHash { return Err(PayloadConflict); }
        return Ok(Reply(table.records[k].response, true));
      }
      if !around.recipientAllowed { return Err(RecipientNotAllowed); }
      var selected := Select(devices.devices, around.eligible, request.destination);
      if selected.Err? { return Err(selected.error); }
      if !around.actionAllowed { return Err(ActionNotAllowed); }
      var response := NoDestinations;
      if |selected.value| != 0 {
        var id := table.nextId;
        db.notifications := db.notifications[id := Deliveries.Accepted];
        db.deliveries := db.deliveries + Deliveries.Opened(id, Targets(selected.value, id + 1), later);
        table.nextId := id + 1 + |selected.value|;
        response := Created(id, |selected.value|);
      }
      table.records := table.records[k := Record(payloadHash, response, later + IDEMPOTENCY_TTL_MS)];
      return Ok(Reply(response, false));
    }
  }

  class NotificationRetentionService {
    const table: IdempotencyTable

    constructor (table: IdempotencyTable)
      ensures this.table == table
    {
      this.table := table;
    }

    method Purge(now: Time)
      modifies table`records
      ensures table.records == Purged(old(table.records), now)
    {
      var expired := set k | k in table.records && table.records[k].expiresAt <= now;
      table.records := table.records - expired;
    }
  }
}
