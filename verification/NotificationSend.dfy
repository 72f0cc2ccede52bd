/** One idempotent send: src/notifications/notification-send.service.ts. */
module NotificationSend {
  import opened Prelude
  import opened JsonText
  import opened StableJson
  import Devices
  import Deliveries

  type ServiceId = Devices.ServiceId
  type DeviceId = Devices.DeviceId

  const IDEMPOTENCY_TTL_MS: int := 604_800_000

  /** A property of a request object: left out, null, or a value. */
  datatype Field<+T> = Undefined | Absent | Given(value: T)

  datatype Destination = Destination(deviceIds: Field<seq<DeviceId>>, platform: Field<Devices.Platform>)

  /** `payload` is the whole request body, from which the other parts were read. */
  datatype Request = Request(
    payload: Json,
    account: Devices.AccountId,
    destination: Option<Destination>,
    metadata: Option<seq<Entry<Option<Json>>>>)

  datatype Response = Created(notification: Deliveries.NotificationId, accepted: nat) | NoDestinations

  /** A row of `notification_idempotency_keys`; SHA-256 is taken to be injective. */
  datatype Record = Record(payloadHash: Text, response: Response, expiresAt: Time)

  type Key = (ServiceId, Text)

  datatype Error =
    | InvalidKey
    | AmbiguousDestination
    | MetadataTooLarge
    | MetadataInvalid
    | PayloadConflict
    | RecipientNotAllowed
    | DestinationNotAllowed
    | ActionNotAllowed

  // ---------------------------------------------------------------- what is checked before the transaction

  predicate Letter(u: Unit) { 0x41 <= u <= 0x5A || 0x61 <= u <= 0x7A }

  predicate Digit(u: Unit) { 0x30 <= u <= 0x39 }

  /** Letters, digits, `.`, `_`, `:` and `-`, between 1 and 200 of them. */
  predicate ValidKey(key: Text) {
    1 <= |key| <= 200 && forall u | u in key :: Letter(u) || Digit(u) || u in [0x2E, 0x5F, 0x3A, 0x2D]
  }

  predicate Ambiguous(request: Request) {
    && request.destination.Some?
    && !request.destination.value.deviceIds.Undefined?
    && !request.destination.value.platform.Undefined?
  }

  /** A letter, then up to 63 letters, digits, `_`, `.` and `-`. */
  predicate MetadataKey(key: Text) {
    1 <= |key| <= 64 && Letter(key[0]) && forall i | 1 <= i < |key| :: Letter(key[i]) || Digit(key[i]) || key[i] in [0x5F, 0x2E, 0x2D]
  }

  predicate Plain(slot: Option<Json>) {
    slot.Some? && (slot.value.Null? || slot.value.String? || slot.value.Number? || slot.value.Bool?)
  }

  predicate MemberAllowed(member: Entry<Option<Json>>) {
    MetadataKey(member.key) && Plain(member.value)
  }

  function MetadataCheck(metadata: Option<seq<Entry<Option<Json>>>>): Option<Error> {
    if metadata.None? then None
    else if |metadata.value| > 20 || |Print(Object(metadata.value))| > 4096 then Some(MetadataTooLarge)
    else if exists i | 0 <= i < |metadata.value| :: !MemberAllowed(metadata.value[i]) then Some(MetadataInvalid)
    else None
  }

  function Refusal(key: Text, request: Request): Option<Error> {
    if !ValidKey(key) then Some(InvalidKey)
    else if Ambiguous(request) then Some(AmbiguousDestination)
    else MetadataCheck(request.metadata)
  }

  /** A key is one to two hundred letters, digits, periods, underscores, colons and hyphens. */
  lemma KeysAllowed(key: Text)
    ensures ValidKey(key) <==>
      && 1 <= |key| <= 200
      && forall u | u in key ::
           || 'A' as int <= u <= 'Z' as int || 'a' as int <= u <= 'z' as int || '0' as int <= u <= '9' as int
           || u == '.' as int || u == '_' as int || u == ':' as int || u == '-' as int
  {
  }

  /**
   * Metadata is too large with over 20 members or over 4096 units of text, and invalid with a member that is not a
   * string, number, boolean or null under a key of a letter and up to 63 letters, digits, underscores, periods and hyphens.
   */
  lemma MetadataAllowed(members: seq<Entry<Option<Json>>>)
    ensures MetadataCheck(None) == None
    ensures MetadataCheck(Some(members)) == Some(MetadataTooLarge) <==> |members| > 20 || |Print(Object(members))| > 4096
    ensures MetadataCheck(Some(members)) == None <==>
      && |members| <= 20 && |Print(Object(members))| <= 4096
      && forall m | m in members ::
           && m.value.Some? && !m.value.value.List? && !m.value.value.Object?
           && 1 <= |m.key| <= 64
           && ('A' as int <= m.key[0] <= 'Z' as int || 'a' as int <= m.key[0] <= 'z' as int)
           && forall i | 1 <= i < |m.key| ::
                || 'A' as int <= m.key[i] <= 'Z' as int || 'a' as int <= m.key[i] <= 'z' as int
                || '0' as int <= m.key[i] <= '9' as int
                || m.key[i] == '_' as int || m.key[i] == '.' as int || m.key[i] == '-' as int
  {
    assert (exists i | 0 <= i < |members| :: !MemberAllowed(members[i])) <==> exists m | m in members :: !MemberAllowed(m);
  }

  // ---------------------------------------------------------------- destinations

  /** Devices of the account that are reachable and have opted in to the service. */
  ghost function Destinations(t: Devices.Tables, service: ServiceId, account: Devices.AccountId): set<DeviceId> {
    set id | id in t.devices
      && Devices.Eligible(t, account, id)
      && (id, service) in t.consents
      && t.consents[(id, service)].account == account
      && t.consents[(id, service)].enabled
  }

  function OnPlatform(devices: map<DeviceId, Devices.Device>, ids: seq<DeviceId>,
                      platform: Devices.Platform): seq<DeviceId> {
    if ids == [] then []
    else
      var last := |ids| - 1;
      var before := OnPlatform(devices, ids[..last], platform);
      if ids[last] in devices && devices[ids[last]].platform == platform then before + [ids[last]] else before
  }

  function Select(devices: map<DeviceId, Devices.Device>, eligible: seq<DeviceId>, destination: Option<Destination>)
    : Result<seq<DeviceId>, Error>
  {
    if destination.Some? && destination.value.deviceIds.Given? then
      var requested := Unique(destination.value.deviceIds.value);
      if exists i | 0 <= i < |requested| :: requested[i] !in eligible then Err(DestinationNotAllowed) else Ok(requested)
    else if destination.Some? && destination.value.platform.Given? then
      Ok(OnPlatform(devices, eligible, destination.value.platform.value))
    else Ok(eligible)
  }

  lemma {:induction false} OnPlatformKeeps(devices: map<DeviceId, Devices.Device>, ids: seq<DeviceId>,
                                           platform: Devices.Platform)
    requires Distinct(ids)
    ensures Distinct(OnPlatform(devices, ids, platform))
    ensures forall id :: id in OnPlatform(devices, ids, platform) <==>
                           id in ids && id in devices && devices[id].platform == platform
  {
    if ids != [] {
      var last := |ids| - 1;
      OnPlatformKeeps(devices, ids[..last], platform);
      assert ids == ids[..last] + [ids[last]];
      assert ids[last] !in ids[..last];
    }
  }

  ghost predicate Wanted(devices: map<DeviceId, Devices.Device>, destination: Option<Destination>, id: DeviceId) {
    match destination
    case None => true
    case Some(d) =>
      if d.deviceIds.Given? then id in d.deviceIds.value
      else d.platform.Given? ==> id in devices && devices[id].platform == d.platform.value
  }

  /** Exactly the eligible devices that were asked for, each once; refused iff a named device is not eligible. */
  lemma SelectionIsExact(devices: map<DeviceId, Devices.Device>, eligible: seq<DeviceId>,
                         destination: Option<Destination>)
    requires Distinct(eligible)
    ensures var r := Select(devices, eligible, destination);
      && (r.Err? <==> destination.Some? && destination.value.deviceIds.Given?
                      && exists id :: id in destination.value.deviceIds.value && id !in eligible)
      && (r.Ok? ==> Distinct(r.value) && forall id :: id in r.value <==> id in eligible && Wanted(devices, destination, id))
  {
    if destination.Some? && destination.value.deviceIds.Given? {
      var requested := Unique(destination.value.deviceIds.value);
      UniqueKeeps(destination.value.deviceIds.value);
      assert forall id | id in requested :: exists i :: 0 <= i < |requested| && requested[i] == id;
    } else if destination.Some? && destination.value.platform.Given? {
      OnPlatformKeeps(devices, eligible, destination.value.platform.value);
    }
  }

  // ---------------------------------------------------------------- the transaction

  /** What the send reads from tables that are not modelled here, and the order of the device query. */
  datatype Surroundings = Surroundings(eligible: seq<DeviceId>, recipientAllowed: bool, actionAllowed: bool)

  datatype Reply = Reply(response: Response, replayed: bool)

  datatype Store = Store(records: map<Key, Record>, sys: Deliveries.System, nextId: nat)

  predicate Live(records: map<Key, Record>, k: Key, now: Time) {
    k in records && records[k].expiresAt > now
  }

  /** New rows take the identifiers from `nextId` on: the notification, then one for each delivery. */
  function Targets(selected: seq<DeviceId>, first: nat): (rows: map<Deliveries.DeliveryId, DeviceId>)
    ensures forall id :: id in rows <==> first <= id < first + |selected|
    ensures forall id | id in rows :: rows[id] == selected[id - first]
  {
    if selected == [] then map[]
    else Targets(selected[..|selected| - 1], first)[first + |selected| - 1 := selected[|selected| - 1]]
  }

  ghost function AcceptStep(selected: seq<DeviceId>, nextId: nat, now: Time): Deliveries.Step {
    Deliveries.Accept(nextId, Targets(selected, nextId + 1), now)
  }

  /** One notification and its delivery rows, or none when nobody is left to receive it. */
  ghost function Opened(s: Store, selected: seq<DeviceId>, now: Time): Store {
    if selected == [] then s
    else s.(sys := Deliveries.Next(s.sys, AcceptStep(selected, s.nextId, now)), nextId := s.nextId + 1 + |selected|)
  }

  function ResponseFor(selected: seq<DeviceId>, nextId: nat): Response {
    if selected == [] then NoDestinations else Created(nextId, |selected|)
  }

  /** `send`; any error rolls everything back. `now` is the expiry check, `later` the moment of the inserts. */
  ghost function AfterSend(cmp: Collation, s: Store, k: Key, request: Request, around: Surroundings, now: Time,
                           later: Time)
    : (Store, Result<Reply, Error>)
  {
    if Refusal(k.1, request).Some? then (s, Err(Refusal(k.1, request).value))
    else
      var hash := StableJson.StableJson(cmp, request.payload);
      if Live(s.records, k, now) then
        if s.records[k].payloadHash != hash then (s, Err(PayloadConflict))
        else (s, Ok(Reply(s.records[k].response, true)))
      else if !around.recipientAllowed then (s, Err(RecipientNotAllowed))
      else
        var selected := Select(s.sys.t.devices.devices, around.eligible, request.destination);
        if selected.Err? then (s, Err(selected.error))
        else if !around.actionAllowed then (s, Err(ActionNotAllowed))
        else
          var response := ResponseFor(selected.value, s.nextId);
          var record := Record(hash, response, later + IDEMPOTENCY_TTL_MS);
          (Opened(s, selected.value, later).(records := s.records[k := record]), Ok(Reply(response, false)))
  }

  /**
   * What a send answers: the request itself is checked first; a stored reply that has not expired answers alone;
   * otherwise recipient, named devices and action decide, in this order.
   */
  lemma SendAnswers(cmp: Collation, s: Store, k: Key, request: Request, around: Surroundings, now: Time, later: Time)
    ensures var (s', answer) := AfterSend(cmp, s, k, request, around, now, later);
      var stored := k in s.records && now < s.records[k].expiresAt;
      var ambiguous := request.destination.Some? && request.destination.value.deviceIds != Undefined
                       && request.destination.value.platform != Undefined;
      var named := request.destination.Some? && request.destination.value.deviceIds.Given?;
      && (answer.Ok? <==>
            && ValidKey(k.1) && !ambiguous && MetadataCheck(request.metadata) == None
            && (stored ==> s.records[k].payloadHash == StableJson.StableJson(cmp, request.payload))
            && (!stored ==>
                  && around.recipientAllowed && around.actionAllowed
                  && (named ==> forall id | id in request.destination.value.deviceIds.value :: id in around.eligible)))
      && (answer.Ok? ==> answer.value.replayed == stored && (stored ==> answer.value.response == s.records[k].response))
      && (answer.Err? || stored ==> s' == s)
      && (answer.Err? ==>
            if !ValidKey(k.1) then answer.error == InvalidKey
            else if ambiguous then answer.error == AmbiguousDestination
            else if MetadataCheck(request.metadata).Some? then answer.error == MetadataCheck(request.metadata).value
            else if stored then answer.error == PayloadConflict
            else if !around.recipientAllowed then answer.error == RecipientNotAllowed
            else if named && exists id :: id in request.destination.value.deviceIds.value && id !in around.eligible
            then answer.error == DestinationNotAllowed
            else answer.error == ActionNotAllowed)
  {
    var named := request.destination.Some? && request.destination.value.deviceIds.Given?;
    if named {
      var ids := request.destination.value.deviceIds.value;
      UniqueKeeps(ids);
      var requested := Unique(ids);
      assert forall id | id in ids :: exists i :: 0 <= i < |requested| && requested[i] == id;
    }
  }

  /** A first send makes a notification exactly when some eligible device was asked for. */
  lemma NotifiesExactly(cmp: Collation, s: Store, k: Key, request: Request, around: Surroundings, now: Time, later: Time)
    requires Distinct(around.eligible)
    requires AfterSend(cmp, s, k, request, around, now, later).1.Ok?
    requires !AfterSend(cmp, s, k, request, around, now, later).1.value.replayed
    ensures AfterSend(cmp, s, k, request, around, now, later).1.value.response.Created? <==>
      exists id | id in around.eligible :: Wanted(s.sys.t.devices.devices, request.destination, id)
  {
    SelectionIsExact(s.sys.t.devices.devices, around.eligible, request.destination);
    var selected := Select(s.sys.t.devices.devices, around.eligible, request.destination).value;
    if selected != [] { assert selected[0] in selected; }
  }

  lemma PurgeRemovesExpired(records: map<Key, Record>, now: Time, k: Key)
    ensures k in Purged(records, now) <==> k in records && now < records[k].expiresAt
    ensures k in Purged(records, now) ==> Purged(records, now)[k] == records[k]
  {
  }

  /** The idempotency part of the retention purge. */
  function Purged(records: map<Key, Record>, now: Time): map<Key, Record> {
    map k | k in records && !(records[k].expiresAt <= now) :: records[k]
  }
}
