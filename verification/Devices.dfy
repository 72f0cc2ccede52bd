/** Notification devices and per-service consent: src/notifications/notification-devices.service.ts. */
module Devices {
  import opened Prelude

  type AccountId = nat
  type DeviceId = nat
  type ServiceId = nat
  type PushToken = string

  datatype Platform = Ios | Android

  /** SHA-256 of a push token, taken to be injective. */
  datatype Fingerprint = Fingerprint(token: PushToken)

  /** A row of `notification_devices`; `token` stands for the encrypted push token. */
  datatype Device = Device(
    account: AccountId,
    installation: string,
    displayName: string,
    platform: Platform,
    active: bool,
    token: Option<PushToken>,
    fingerprint: Option<Fingerprint>,
    disabledAt: Option<Time>,
    deletedAt: Option<Time>,
    lastSeenAt: Time)

  /** A row of `notification_subscriptions`, keyed by device and service. */
  datatype Consent = Consent(
    account: AccountId,
    enabled: bool,
    consentedAt: Option<Time>,
    revokedAt: Option<Time>)

  type ConsentTable = map<(DeviceId, ServiceId), Consent>

  datatype Tables = Tables(devices: map<DeviceId, Device>, consents: ConsentTable)

  datatype Error = DeviceNotFound | ServiceNotAssigned | DeviceNotActive | TokenRequired

  // ---------------------------------------------------------------- single operations

  ghost predicate Eligible(t: Tables, account: AccountId, id: DeviceId) {
    && id in t.devices
    && t.devices[id].account == account
    && t.devices[id].active
    && t.devices[id].deletedAt.None?
    && t.devices[id].token.Some?
  }

  function Disabled(d: Device, now: Time): Device {
    d.(active := false, token := None, fingerprint := None,
       disabledAt := if d.disabledAt.Some? then d.disabledAt else Some(now))
  }

  function RevokeAll(consents: ConsentTable, id: DeviceId, now: Time): ConsentTable {
    map k | k in consents ::
      if k.0 == id then consents[k].(enabled := false, revokedAt := Some(now)) else consents[k]
  }

  ghost function AfterDisable(t: Tables, id: DeviceId, now: Time): Tables
    requires id in t.devices
  {
    Tables(t.devices[id := Disabled(t.devices[id], now)], RevokeAll(t.consents, id, now))
  }

  ghost function FindInstallation(t: Tables, account: AccountId, installation: string): Option<DeviceId> {
    if id :| id in t.devices && t.devices[id].account == account && t.devices[id].installation == installation
    then Some(id) else None
  }

  ghost function FindFingerprint(t: Tables, fingerprint: Fingerprint): Option<DeviceId> {
    if id :| id in t.devices && t.devices[id].fingerprint == Some(fingerprint) then Some(id) else None
  }

  /** A device registers its push token; a previous holder of the token is disabled. */
  ghost function AfterRegister(t: Tables, account: AccountId, installation: string, displayName: string,
                               platform: Platform,
                          token: PushToken, newId: DeviceId, now: Time): Tables {
    var own := FindInstallation(t, account, installation);
    var prior := FindFingerprint(t, Fingerprint(token));
    var cleared := if prior.Some? && prior != own && prior.value in t.devices then AfterDisable(t, prior.value, now) else t;
    var id := if own.Some? then own.value else newId;
    var row := Device(account, installation, displayName, platform, true, Some(token), Some(Fingerprint(token)),
                      None, None, now);
    cleared.(devices := cleared.devices[id := row])
  }

  ghost function AfterUpdate(t: Tables, account: AccountId, id: DeviceId, displayName: Option<string>,
                        active: Option<bool>, now: Time): Result<Tables, Error> {
    if id !in t.devices || t.devices[id].account != account then Err(DeviceNotFound)
    else
      var d := t.devices[id];
      var named := if displayName.Some? then t.(devices := t.devices[id := d.(displayName := displayName.value)]) else t;
      if active == Some(false) then Ok(AfterDisable(named, id, now))
      else if active == Some(true) && !d.active then Err(TokenRequired)
      else Ok(named)
  }

  ghost function AfterRemove(t: Tables, account: AccountId, id: DeviceId, now: Time): Result<Tables, Error> {
    if id !in t.devices || t.devices[id].account != account then Err(DeviceNotFound)
    else
      var off := AfterDisable(t, id, now);
      Ok(off.(devices := off.devices[id := off.devices[id].(deletedAt := Some(now))]))
  }

  function SavedConsent(consents: ConsentTable, account: AccountId, key: (DeviceId, ServiceId),
                        enabled: bool, now: Time): Consent {
    var row := if key in consents then consents[key] else Consent(account, false, None, None);
    row.(enabled := enabled,
         consentedAt := if enabled then Some(now) else row.consentedAt,
         revokedAt := if enabled then None else Some(now))
  }

  ghost function AfterSetConsent(t: Tables, account: AccountId, id: DeviceId, service: ServiceId,
                            member: bool, enabled: bool, now: Time): Result<Tables, Error> {
    if id !in t.devices || t.devices[id].account != account then Err(DeviceNotFound)
    else if !member then Err(ServiceNotAssigned)
    else if !Eligible(t, account, id) then Err(DeviceNotActive)
    else Ok(t.(consents := t.consents[(id, service) := SavedConsent(t.consents, account, (id, service), enabled, now)]))
  }

  ghost function EligibleIds(t: Tables, account: AccountId): set<DeviceId> {
    set id | id in t.devices && Eligible(t, account, id)
  }

  function SaveEach(consents: ConsentTable, account: AccountId, ids: set<DeviceId>, service: ServiceId,
                    enabled: bool, now: Time): ConsentTable {
    map k | k in consents.Keys + (set id | id in ids :: (id, service)) ::
      if k.0 in ids && k.1 == service then SavedConsent(consents, account, k, enabled, now)
      else consents[k]
  }

  ghost function AfterSetEverywhere(t: Tables, account: AccountId, service: ServiceId,
                                      member: bool, enabled: bool, now: Time): Result<Tables, Error> {
    if !member then Err(ServiceNotAssigned)
    else Ok(t.(consents := SaveEach(t.consents, account, EligibleIds(t, account), service, enabled, now)))
  }

  /** The provider rejected a token: disable the device only while it still holds that token. */
  ghost function AfterRejection(t: Tables, id: DeviceId, fingerprint: Fingerprint, now: Time): Tables {
    if id in t.devices && t.devices[id].fingerprint == Some(fingerprint) && t.devices[id].active
       && t.devices[id].deletedAt.None?
    then AfterDisable(t, id, now)
    else t
  }

  // ---------------------------------------------------------------- runs

  datatype Op =
    | OpRegister(account: AccountId, installation: string, displayName: string, platform: Platform, token: PushToken,
                 newId: DeviceId, now: Time)
    | OpUpdate(account: AccountId, id: DeviceId, rename: Option<string>, active: Option<bool>, now: Time)
    | OpRemove(account: AccountId, id: DeviceId, now: Time)
    | OpSetConsent(account: AccountId, id: DeviceId, service: ServiceId, member: bool, enabled: bool, now: Time)
    | OpSetEverywhere(account: AccountId, service: ServiceId, member: bool, enabled: bool, now: Time)
    | OpInvalidToken(id: DeviceId, fingerprint: Fingerprint, now: Time)

  ghost predicate Legal(t: Tables, op: Op) {
    op.OpRegister? ==> op.newId !in t.devices
  }

  /** A failing request rolls its transaction back. */
  ghost function OrElse(r: Result<Tables, Error>, t: Tables): Tables {
    if r.Ok? then r.value else t
  }

  ghost function Next(t: Tables, op: Op): Tables {
    match op
    case OpRegister(account, installation, displayName, platform, token, newId, now) =>
      AfterRegister(t, account, installation, displayName, platform, token, newId, now)
    case OpUpdate(account, id, rename, active, now) => OrElse(AfterUpdate(t, account, id, rename, active, now), t)
    case OpRemove(account, id, now) => OrElse(AfterRemove(t, account, id, now), t)
    case OpSetConsent(account, id, service, member, enabled, now) =>
      OrElse(AfterSetConsent(t, account, id, service, member, enabled, now), t)
    case OpSetEverywhere(account, service, member, enabled, now) =>
      OrElse(AfterSetEverywhere(t, account, service, member, enabled, now), t)
    case OpInvalidToken(id, fingerprint, now) => AfterRejection(t, id, fingerprint, now)
  }

  /** Some legal operation leads from `t` to `t'`. */
  ghost predicate Moves(t: Tables, t': Tables) {
    exists op :: Legal(t, op) && Next(t, op) == t'
  }

  ghost function Run(t: Tables, ops: seq<Op>): Tables {
    if ops == [] then t else Next(Run(t, ops[..|ops| - 1]), ops[|ops| - 1])
  }

  ghost predicate LegalRun(t: Tables, ops: seq<Op>) {
    ops == [] || (LegalRun(t, ops[..|ops| - 1]) && Legal(Run(t, ops[..|ops| - 1]), ops[|ops| - 1]))
  }

  // ---------------------------------------------------------------- what every run keeps

  ghost predicate DeviceOk(d: Device) {
    && (d.active <==> d.token.Some?)
    && d.fingerprint == (if d.token.Some? then Some(Fingerprint(d.token.value)) else None)
    && (d.deletedAt.Some? ==> !d.active)
    && (d.active <==> d.disabledAt.None?)
  }

  ghost predicate ConsentOk(t: Tables, k: (DeviceId, ServiceId))
    requires k in t.consents
  {
    && k.0 in t.devices
    && t.consents[k].account == t.devices[k.0].account
    && (t.consents[k].enabled ==>
          && t.devices[k.0].active
          && t.consents[k].consentedAt.Some?
          && t.consents[k].revokedAt.None?)
  }

  ghost predicate Inv(t: Tables) {
    && (forall id | id in t.devices :: DeviceOk(t.devices[id]))
    && (forall k | k in t.consents :: ConsentOk(t, k))
    && (forall a, b | a in t.devices && b in t.devices
          && t.devices[a].fingerprint.Some? && t.devices[a].fingerprint == t.devices[b].fingerprint :: a == b)
    && (forall a, b | a in t.devices && b in t.devices && t.devices[a].account == t.devices[b].account
          && t.devices[a].installation == t.devices[b].installation :: a == b)
  }

  lemma DisableKeepsInv(t: Tables, id: DeviceId, now: Time)
    requires Inv(t) && id in t.devices
    ensures Inv(AfterDisable(t, id, now))
  {
  }

  lemma ActivateKeepsInv(t: Tables, id: DeviceId, row: Device)
    requires Inv(t) && DeviceOk(row) && row.active
    requires id in t.devices ==> t.devices[id].account == row.account
    requires forall other | other in t.devices && other != id ::
      && t.devices[other].fingerprint != row.fingerprint
      && !(t.devices[other].account == row.account && t.devices[other].installation == row.installation)
    ensures Inv(t.(devices := t.devices[id := row]))
  {
    var t' := t.(devices := t.devices[id := row]);
    forall k | k in t'.consents ensures ConsentOk(t', k) { assert ConsentOk(t, k); }
  }

  lemma RegisterKeepsInv(t: Tables, account: AccountId, installation: string, displayName: string, platform: Platform,
                         token: PushToken, newId: DeviceId, now: Time)
    requires Inv(t) && newId !in t.devices
    ensures Inv(AfterRegister(t, account, installation, displayName, platform, token, newId, now))
  {
    var prior := FindFingerprint(t, Fingerprint(token));
    var own := FindInstallation(t, account, installation);
    var cleared := t;
    if prior.Some? && prior != own {
      DisableKeepsInv(t, prior.value, now);
      cleared := AfterDisable(t, prior.value, now);
    }
    var id := if own.Some? then own.value else newId;
    ActivateKeepsInv(cleared, id, Device(account, installation, displayName, platform, true, Some(token),
                                         Some(Fingerprint(token)), None, None, now));
  }

  lemma RemoveKeepsInv(t: Tables, id: DeviceId, now: Time)
    requires Inv(t) && id in t.devices
    ensures var off := AfterDisable(t, id, now);
      Inv(off.(devices := off.devices[id := off.devices[id].(deletedAt := Some(now))]))
  {
    DisableKeepsInv(t, id, now);
  }

  lemma RenameKeepsInv(t: Tables, id: DeviceId, displayName: string)
    requires Inv(t) && id in t.devices
    ensures Inv(t.(devices := t.devices[id := t.devices[id].(displayName := displayName)]))
  {
  }

  lemma SaveKeepsInv(t: Tables, account: AccountId, ids: set<DeviceId>, service: ServiceId, enabled: bool, now: Time)
    requires Inv(t)
    requires forall id | id in ids :: Eligible(t, account, id)
    ensures Inv(t.(consents := SaveEach(t.consents, account, ids, service, enabled, now)))
  {
    var t' := t.(consents := SaveEach(t.consents, account, ids, service, enabled, now));
    forall k | k in t'.consents ensures ConsentOk(t', k) {
      if k.0 in ids && k.1 == service {
        assert Eligible(t, account, k.0);
      } else {
        assert k in t.consents && ConsentOk(t, k);
      }
    }
  }

  lemma SaveOne(consents: ConsentTable, account: AccountId, id: DeviceId, service: ServiceId, enabled: bool, now: Time)
    ensures SaveEach(consents, account, {id}, service, enabled, now)
         == consents[(id, service) := SavedConsent(consents, account, (id, service), enabled, now)]
  {
  }

  lemma SaveEachExtends(consents: ConsentTable, account: AccountId, done: set<DeviceId>, id: DeviceId,
                        service: ServiceId, enabled: bool, now: Time)
    requires id !in done
    ensures SaveEach(SaveEach(consents, account, done, service, enabled, now), account, {id}, service, enabled, now)
         == SaveEach(consents, account, done + {id}, service, enabled, now)
  {
  }

  lemma StepKeepsInv(t: Tables, op: Op)
    requires Inv(t) && Legal(t, op)
    ensures Inv(Next(t, op))
  {
    match op
    case OpRegister(account, installation, displayName, platform, token, newId, now) =>
      RegisterKeepsInv(t, account, installation, displayName, platform, token, newId, now);
    case OpUpdate(account, id, rename, active, now) =>
      if id in t.devices {
        var named := if rename.Some? then t.(devices := t.devices[id := t.devices[id].(displayName := rename.value)]) else t;
        if rename.Some? { RenameKeepsInv(t, id, rename.value); }
        DisableKeepsInv(named, id, now);
      }
    case OpRemove(account, id, now) =>
      if id in t.devices { RemoveKeepsInv(t, id, now); }
    case OpSetConsent(account, id, service, member, enabled, now) =>
      if Eligible(t, account, id) {
        SaveOne(t.consents, account, id, service, enabled, now);
        SaveKeepsInv(t, account, {id}, service, enabled, now);
      }
    case OpSetEverywhere(account, service, member, enabled, now) =>
      SaveKeepsInv(t, account, EligibleIds(t, account), service, enabled, now);
    case OpInvalidToken(id, fingerprint, now) =>
      if id in t.devices { DisableKeepsInv(t, id, now); }
  }

  lemma MoveKeepsInv(t: Tables, t': Tables)
    requires Inv(t) && Moves(t, t')
    ensures Inv(t') && t.devices.Keys <= t'.devices.Keys
  {
    var op :| Legal(t, op) && Next(t, op) == t';
    StepKeepsInv(t, op);
    DevicesRemain(t, op);
  }

  lemma DevicesRemain(t: Tables, op: Op)
    ensures t.devices.Keys <= Next(t, op).devices.Keys
  {
  }

  /** Fingerprints stay unique, `active` means "holds a token", and consent sits only on active devices. */
  lemma {:induction false} RunKeepsInv(t: Tables, ops: seq<Op>)
    requires Inv(t) && LegalRun(t, ops)
    ensures Inv(Run(t, ops))
  {
    if ops != [] {
      RunKeepsInv(t, ops[..|ops| - 1]);
      StepKeepsInv(Run(t, ops[..|ops| - 1]), ops[|ops| - 1]);
    }
  }

  // ---------------------------------------------------------------- consent never returns by itself

  ghost predicate Enabled(t: Tables, id: DeviceId, service: ServiceId) {
    (id, service) in t.consents && t.consents[(id, service)].enabled
  }

  /** The owner of the device opts it in, and the request is accepted. */
  ghost predicate OptsIn(t: Tables, op: Op, id: DeviceId, service: ServiceId) {
    && id in t.devices
    && Eligible(t, t.devices[id].account, id)
    && match op
       case OpSetConsent(account, device, svc, member, enabled, _) =>
         device == id && svc == service && account == t.devices[id].account && member && enabled
       case OpSetEverywhere(account, svc, member, enabled, _) =>
         svc == service && account == t.devices[id].account && member && enabled
       case _ => false
  }

  /** The only step that can turn a consent on is an opt-in by the owner on an active device. */
  lemma OnlyOptInEnables(t: Tables, op: Op, id: DeviceId, service: ServiceId)
    requires Inv(t) && Legal(t, op)
    requires Enabled(Next(t, op), id, service) && !OptsIn(t, op, id, service)
    ensures Enabled(t, id, service)
  {
    match op
    case OpRegister(_, _, _, _, _, _, _) =>
    case OpUpdate(_, _, _, _, _) =>
    case OpRemove(_, _, _) =>
    case OpSetConsent(_, _, _, _, _, _) =>
    case OpSetEverywhere(account, svc, member, enabled, now) =>
      assert id in EligibleIds(t, account) ==> Eligible(t, account, id);
    case OpInvalidToken(_, _, _) =>
  }

  /** The consent stands and the device is active. */
  ghost predicate Stands(t: Tables, id: DeviceId, service: ServiceId) {
    Enabled(t, id, service) && id in t.devices && t.devices[id].active
  }

  /** The owner opted in at step `i`, and consent and device have stood after every step since. */
  ghost predicate LiveSince(t: Tables, ops: seq<Op>, i: nat, id: DeviceId, service: ServiceId)
    requires i < |ops|
  {
    && OptsIn(Run(t, ops[..i]), ops[i], id, service)
    && forall j | i < j <= |ops| :: Stands(Run(t, ops[..j]), id, service)
  }

  lemma EnabledStands(t: Tables, ops: seq<Op>, id: DeviceId, service: ServiceId)
    requires Inv(t) && LegalRun(t, ops) && Enabled(Run(t, ops), id, service)
    ensures Stands(Run(t, ops), id, service)
  {
    RunKeepsInv(t, ops);
    assert ConsentOk(Run(t, ops), (id, service));
  }

  lemma EnabledBefore(t: Tables, ops: seq<Op>, op: Op, id: DeviceId, service: ServiceId)
    requires Inv(t) && LegalRun(t, ops) && Legal(Run(t, ops), op)
    requires Enabled(Next(Run(t, ops), op), id, service) && !OptsIn(Run(t, ops), op, id, service)
    ensures Enabled(Run(t, ops), id, service)
  {
    RunKeepsInv(t, ops);
    OnlyOptInEnables(Run(t, ops), op, id, service);
  }

  lemma LiveSinceExtends(t: Tables, ops: seq<Op>, op: Op, i: nat, id: DeviceId, service: ServiceId)
    requires i < |ops| && LiveSince(t, ops, i, id, service) && Stands(Run(t, ops + [op]), id, service)
    ensures LiveSince(t, ops + [op], i, id, service)
  {
    var all := ops + [op];
    assert all[..i] == ops[..i] && all[..|all|] == all;
    forall j | i < j <= |all| ensures Stands(Run(t, all[..j]), id, service) {
      if j < |all| { assert all[..j] == ops[..j]; }
    }
  }

  /**
   * After any run, an enabled consent was given by an opt-in of the owner, and neither the
   * consent nor the device has been off at any moment since.
   */
  lemma {:induction false} EnabledMeansLiveConsent(t: Tables, ops: seq<Op>, id: DeviceId, service: ServiceId)
    requires Inv(t) && LegalRun(t, ops)
    requires !Enabled(t, id, service) && Enabled(Run(t, ops), id, service)
    ensures exists i: nat | i < |ops| :: LiveSince(t, ops, i, id, service)
  {
    var n := |ops| - 1;
    var before, op := ops[..n], ops[n];
    assert before + [op] == ops && ops[..|ops|] == ops;
    EnabledStands(t, ops, id, service);
    if OptsIn(Run(t, before), op, id, service) {
      assert LiveSince(t, ops, n, id, service);
    } else {
      EnabledBefore(t, before, op, id, service);
      EnabledMeansLiveConsent(t, before, id, service);
      var i: nat :| i < |before| && LiveSince(t, before, i, id, service);
      LiveSinceExtends(t, before, op, i, id, service);
    }
  }

  /** A provider rejection of token `sent` disables the device exactly while `sent` is its current token. */
  lemma RejectionHitsOnlyTheSentToken(t: Tables, id: DeviceId, sent: PushToken, now: Time)
    requires Inv(t)
    ensures AfterRejection(t, id, Fingerprint(sent), now) != t
      <==> id in t.devices && t.devices[id].token == Some(sent)
    ensures id in t.devices && t.devices[id].token == Some(sent) ==>
      var t' := AfterRejection(t, id, Fingerprint(sent), now);
      && !t'.devices[id].active
      && (forall service :: !Enabled(t', id, service))
      && (forall other | other in t.devices && other != id :: t'.devices[other] == t.devices[other])
      && (forall k | k in t.consents && k.0 != id :: t'.consents[k] == t.consents[k])
  {
    if id in t.devices { assert DeviceOk(t.devices[id]); }
  }

  /** After registration the token has one holder, and a former holder has lost token and consents. */
  lemma RegistrationMovesTheToken(t: Tables, account: AccountId, installation: string, displayName: string,
                                  platform: Platform,
                                  token: PushToken, newId: DeviceId, now: Time, holder: DeviceId)
    requires Inv(t) && newId !in t.devices
    ensures var t' := AfterRegister(t, account, installation, displayName, platform, token, newId, now);
      && (exists id | id in t'.devices :: t'.devices[id].account == account
            && t'.devices[id].installation == installation && t'.devices[id].token == Some(token))
      && (holder in t'.devices && t'.devices[holder].token == Some(token) ==>
            t'.devices[holder].account == account && t'.devices[holder].installation == installation)
      && (holder in t.devices && t.devices[holder].token == Some(token)
            && (t.devices[holder].account != account || t.devices[holder].installation != installation) ==>
            !t'.devices[holder].active && forall service :: !Enabled(t', holder, service))
      && (holder in t.devices && t.devices[holder].token != Some(token)
            && (t.devices[holder].account != account || t.devices[holder].installation != installation) ==>
            t'.devices[holder] == t.devices[holder])
  {
    RegisterKeepsInv(t, account, installation, displayName, platform, token, newId, now);
    var t' := AfterRegister(t, account, installation, displayName, platform, token, newId, now);
    var own := FindInstallation(t, account, installation);
    var id := if own.Some? then own.value else newId;
    assert t'.devices[id].account == account;
    if holder in t.devices { assert DeviceOk(t.devices[holder]); }
    if holder in t'.devices { assert DeviceOk(t'.devices[holder]); }
  }

  // ---------------------------------------------------------------- what the owner's requests do

  /** A device that can be reached: of the account, active, not deleted, holding a token. */
  ghost predicate Reachable(t: Tables, account: AccountId, id: DeviceId) {
    && id in t.devices && t.devices[id].account == account && t.devices[id].active
    && t.devices[id].deletedAt == None && t.devices[id].token != None
  }

  /** The consent is as the owner asked at a moment, and stamped with it; a revocation keeps the time of the consent. */
  ghost predicate AsAsked(t: Tables, t': Tables, account: AccountId, k: (DeviceId, ServiceId), enabled: bool, now: Time) {
    && k in t'.consents && t'.consents[k].enabled == enabled
    && (enabled ==> t'.consents[k].consentedAt == Some(now) && t'.consents[k].revokedAt == None)
    && (!enabled ==> t'.consents[k].revokedAt == Some(now)
                     && t'.consents[k].consentedAt == if k in t.consents then t.consents[k].consentedAt else None)
    && t'.consents[k].account == if k in t.consents then t.consents[k].account else account
  }

  /** A request for one device is accepted exactly for a reachable one, by a member, and sets the consent as asked. */
  lemma ConsentIsAsAsked(t: Tables, account: AccountId, id: DeviceId, service: ServiceId, member: bool, enabled: bool, now: Time)
    ensures var r := AfterSetConsent(t, account, id, service, member, enabled, now);
      && (r.Ok? <==> member && Reachable(t, account, id))
      && (r.Ok? ==>
            && (Enabled(r.value, id, service) <==> enabled)
            && AsAsked(t, r.value, account, (id, service), enabled, now)
            && r.value.devices == t.devices && r.value.consents - {(id, service)} == t.consents - {(id, service)})
      && (r.Err? ==> r.error == if id !in t.devices || t.devices[id].account != account then DeviceNotFound
                                else if !member then ServiceNotAssigned else DeviceNotActive)
  {
  }

  /** A request for all devices is accepted exactly by a member, and sets every reachable device as asked, and no other. */
  lemma ConsentEverywhereIsAsAsked(t: Tables, account: AccountId, service: ServiceId, member: bool, enabled: bool, now: Time,
                                   k: (DeviceId, ServiceId))
    ensures var r := AfterSetEverywhere(t, account, service, member, enabled, now);
      && (r.Ok? <==> member)
      && (r.Err? ==> r.error == ServiceNotAssigned)
      && (r.Ok? ==>
            && r.value.devices == t.devices
            && if k.1 == service && Reachable(t, account, k.0) then
                 (Enabled(r.value, k.0, service) <==> enabled) && AsAsked(t, r.value, account, k, enabled, now)
               else (k in r.value.consents <==> k in t.consents) && (k in t.consents ==> r.value.consents[k] == t.consents[k]))
  {
    if member {
      var t' := AfterSetEverywhere(t, account, service, member, enabled, now).value;
      assert k.0 in EligibleIds(t, account) <==> Reachable(t, account, k.0);
      assert k in t'.consents <==> k in t.consents || (k.0 in EligibleIds(t, account) && k.1 == service);
    }
  }

  lemma AllAsAsked(t: Tables, account: AccountId, service: ServiceId, enabled: bool, now: Time)
    ensures var t' := t.(consents := SaveEach(t.consents, account, EligibleIds(t, account), service, enabled, now));
      forall id | Reachable(t', account, id) :: AsAsked(t, t', account, (id, service), enabled, now)
  {
    var t' := t.(consents := SaveEach(t.consents, account, EligibleIds(t, account), service, enabled, now));
    forall id | Reachable(t', account, id) ensures AsAsked(t, t', account, (id, service), enabled, now) {
      ConsentEverywhereIsAsAsked(t, account, service, true, enabled, now, (id, service));
      assert Reachable(t, account, id);
    }
  }

  /** The device is off: no token, no fingerprint, disabled since the first time, and none of its consents enabled. */
  ghost predicate IsOff(t: Tables, t': Tables, id: DeviceId, now: Time)
    requires id in t.devices
  {
    && id in t'.devices && !t'.devices[id].active && t'.devices[id].token == None && t'.devices[id].fingerprint == None
    && t'.devices[id].disabledAt == (if t.devices[id].disabledAt.Some? then t.devices[id].disabledAt else Some(now))
    && (forall k | k in t.consents && k.0 == id ::
          k in t'.consents && t'.consents[k] == t.consents[k].(enabled := false, revokedAt := Some(now)))
    && (forall k | k in t.consents && k.0 != id :: k in t'.consents && t'.consents[k] == t.consents[k])
    && t'.consents.Keys == t.consents.Keys && t'.devices - {id} == t.devices - {id}
  }

  /** An update renames as asked and turns the device off when asked; it never turns one on. */
  lemma UpdateDoes(t: Tables, account: AccountId, id: DeviceId, rename: Option<string>, active: Option<bool>, now: Time)
    ensures var r := AfterUpdate(t, account, id, rename, active, now);
      && (r.Ok? <==> id in t.devices && t.devices[id].account == account && (active == Some(true) ==> t.devices[id].active))
      && (r.Err? ==> r.error == if id !in t.devices || t.devices[id].account != account then DeviceNotFound else TokenRequired)
      && (r.Ok? ==>
            && id in r.value.devices
            && r.value.devices[id].displayName == (if rename.Some? then rename.value else t.devices[id].displayName)
            && r.value.devices[id].deletedAt == t.devices[id].deletedAt
            && if active == Some(false) then IsOff(t, r.value, id, now)
               else r.value.consents == t.consents
                    && r.value.devices == t.devices[id := t.devices[id].(displayName := r.value.devices[id].displayName)])
  {
    if id in t.devices && rename.None? { assert t.devices[id := t.devices[id]] == t.devices; }
  }

  /** Removing turns the device off and marks it deleted, for its owner only. */
  lemma RemoveDoes(t: Tables, account: AccountId, id: DeviceId, now: Time)
    ensures var r := AfterRemove(t, account, id, now);
      && (r.Ok? <==> id in t.devices && t.devices[id].account == account)
      && (r.Ok? ==> IsOff(t, r.value, id, now) && r.value.devices[id].deletedAt == Some(now)
                    && r.value.devices[id].displayName == t.devices[id].displayName)
      && (r.Err? ==> r.error == DeviceNotFound)
  {
  }

  /** A registered device is active and undeleted, with the token, name and platform given, and keeps its own consents. */
  lemma RegisterDoes(t: Tables, account: AccountId, installation: string, displayName: string, platform: Platform,
                     token: PushToken, newId: DeviceId, now: Time, id: DeviceId)
    requires Inv(t) && newId !in t.devices
    requires if id in t.devices then t.devices[id].account == account && t.devices[id].installation == installation
             else id == newId && forall x | x in t.devices ::
                    !(t.devices[x].account == account && t.devices[x].installation == installation)
    ensures var t' := AfterRegister(t, account, installation, displayName, platform, token, newId, now);
      && id in t'.devices
      && t'.devices[id] == Device(account, installation, displayName, platform, true, Some(token), Some(Fingerprint(token)),
                                  None, None, now)
      && (forall k | k in t.consents && k.0 == id :: k in t'.consents && t'.consents[k] == t.consents[k])
  {
    var own, prior := FindInstallation(t, account, installation), FindFingerprint(t, Fingerprint(token));
    assert id in t.devices ==> own == Some(id);
    assert prior.Some? ==> prior.value in t.devices;
  }

  // ---------------------------------------------------------------- the service

  /** The two tables and the requests that update them, each inside one transaction. */
  class NotificationDevicesService {
    var devices: map<DeviceId, Device>
    var consents: ConsentTable

    ghost function State(): Tables reads this { Tables(devices, consents) }

    constructor ()
      ensures State() == Tables(map[], map[])
    {
      devices, consents := map[], map[];
    }

    method DisableDevice(id: DeviceId, now: Time)
      requires id in devices
      modifies this
      ensures State() == AfterDisable(old(State()), id, now)
    {
      var device := devices[id];
      device := device.(active := false, token := None, fingerprint := None);
      if device.disabledAt.None? {
        device := device.(disabledAt := Some(now));
      }
      devices := devices[id := device];
      consents := RevokeAll(consents, id, now);
    }

    method Register(account: AccountId, installation: string, displayName: string, platform: Platform, token: PushToken,
                    newId: DeviceId, now: Time) returns (id: DeviceId)
      requires Inv(State()) && newId !in devices
      modifies this
      ensures State() == AfterRegister(old(State()), account, installation, displayName, platform, token, newId, now)
      ensures id in devices && devices[id].account == account && devices[id].token == Some(token)
    {
      ghost var own := FindInstallation(State(), account, installation);
      ghost var prior := FindFingerprint(State(), Fingerprint(token));
      var fingerprint := Fingerprint(token);
      var known := exists d | d in devices :: devices[d].account == account && devices[d].installation == installation;
      id := newId;
      if known {
        id :| id in devices && devices[id].account == account && devices[id].installation == installation;
        assert own == Some(id);
      }
      if exists d | d in devices :: devices[d].fingerprint == Some(fingerprint) {
        var owner :| owner in devices && devices[owner].fingerprint == Some(fingerprint);
        assert prior == Some(owner);
        if !known || owner != id {
          DisableDevice(owner, now);
        }
      }
      devices := devices[id := Device(account, installation, displayName, platform, true, Some(token), Some(fingerprint),
                                      None, None, now)];
    }

    method Update(account: AccountId, id: DeviceId, displayName: Option<string>, active: Option<bool>, now: Time)
      returns (error: Option<Error>)
      modifies this
      ensures var r := AfterUpdate(old(State()), account, id, displayName, active, now);
        State() == OrElse(r, old(State())) && error == (if r.Err? then Some(r.error) else None)
    {
      if id !in devices || devices[id].account != account { return Some(DeviceNotFound); }
      if active == Some(true) && !devices[id].active { return Some(TokenRequired); }
      if displayName.Some? {
        devices := devices[id := devices[id].(displayName := displayName.value)];
      }
      if active == Some(false) { DisableDevice(id, now); }
      return None;
    }

    method Remove(account: AccountId, id: DeviceId, now: Time) returns (error: Option<Error>)
      modifies this
      ensures var r := AfterRemove(old(State()), account, id, now);
        State() == OrElse(r, old(State())) && error == (if r.Err? then Some(r.error) else None)
    {
      if id !in devices || devices[id].account != account { return Some(DeviceNotFound); }
      DisableDevice(id, now);
      devices := devices[id := devices[id].(deletedAt := Some(now))];
      return None;
    }

    method SaveSubscription(account: AccountId, id: DeviceId, service: ServiceId, enabled: bool, now: Time)
      requires Eligible(State(), account, id)
      modifies this`consents
      ensures consents == SaveEach(old(consents), account, {id}, service, enabled, now)
      ensures AsAsked(old(State()), State(), account, (id, service), enabled, now)
    {
      var key := (id, service);
      var row := if key in consents then consents[key] else Consent(account, false, None, None);
      row := row.(enabled := enabled);
      if enabled {
        row := row.(consentedAt := Some(now), revokedAt := None);
      } else {
        row := row.(revokedAt := Some(now));
      }
      SaveOne(consents, account, id, service, enabled, now);
      consents := consents[key := row];
    }

    method SetSubscription(account: AccountId, id: DeviceId, service: ServiceId, member: bool, enabled: bool, now: Time)
      returns (error: Option<Error>)
      modifies this`consents
      ensures var r := AfterSetConsent(old(State()), account, id, service, member, enabled, now);
        State() == OrElse(r, old(State())) && error == (if r.Err? then Some(r.error) else None)
      ensures error.None? ==> AsAsked(old(State()), State(), account, (id, service), enabled, now)
    {
      if id !in devices || devices[id].account != account { return Some(DeviceNotFound); }
      if !member { return Some(ServiceNotAssigned); }
      if !devices[id].active || devices[id].deletedAt.Some? || devices[id].token.None? { return Some(DeviceNotActive); }
      SaveOne(consents, account, id, service, enabled, now);
      SaveSubscription(account, id, service, enabled, now);
      return None;
    }

    /** The locking query: active, not deleted, holding a token. Every enabled consent of the account is on one of these. */
    method ActiveDevices(account: AccountId) returns (ids: set<DeviceId>)
      ensures ids == EligibleIds(State(), account)
      ensures Inv(State()) ==>
        forall k | k in consents && consents[k].account == account && consents[k].enabled :: k.0 in ids
    {
      assert Inv(State()) ==> forall k | k in consents && consents[k].enabled :: ConsentOk(State(), k) && DeviceOk(devices[k.0]);
      ids := set id | id in devices && devices[id].account == account && devices[id].active
                      && devices[id].deletedAt.None? && devices[id].token.Some?;
    }

    method SetSubscriptionForAllDevices(account: AccountId, service: ServiceId, member: bool, enabled: bool, now: Time)
      returns (error: Option<Error>, updated: nat)
      modifies this`consents
      ensures var r := AfterSetEverywhere(old(State()), account, service, member, enabled, now);
        State() == OrElse(r, old(State())) && error == (if r.Err? then Some(r.error) else None)
      ensures error.None? ==> updated == |EligibleIds(State(), account)|
      ensures error.None? ==> forall id | Reachable(State(), account, id) ::
        AsAsked(old(State()), State(), account, (id, service), enabled, now)
    {
      hide AsAsked, Reachable, SavedConsent;
      updated := 0;
      if !member { return Some(ServiceNotAssigned), 0; }
      ghost var before, ids := consents, EligibleIds(State(), account);
      var rest := ActiveDevices(account);
      ghost var done: set<DeviceId> := {};
      assert before == SaveEach(before, account, done, service, enabled, now);
      while rest != {}
        invariant rest + done == ids && rest !! done
        invariant forall id | id in ids :: Eligible(State(), account, id)
        invariant updated == |done|
        invariant consents == SaveEach(before, account, done, service, enabled, now)
        decreases rest
      {
        var id :| id in rest;
        SaveSubscription(account, id, service, enabled, now);
        SaveEachExtends(before, account, done, id, service, enabled, now);
        rest, done, updated := rest - {id}, done + {id}, updated + 1;
      }
      assert done == ids == EligibleIds(State(), account);
      AllAsAsked(old(State()), account, service, enabled, now);
      return None, updated;
    }

    method DisableInvalidToken(id: DeviceId, fingerprint: Fingerprint, now: Time) returns (changed: bool)
      modifies this
      ensures State() == AfterRejection(old(State()), id, fingerprint, now)
      ensures changed <==> id in old(devices) && old(devices)[id].fingerprint == Some(fingerprint)
                           && old(devices)[id].active && old(devices)[id].deletedAt.None?
    {
      if id !in devices || devices[id].fingerprint != Some(fingerprint) || !devices[id].active
         || devices[id].deletedAt.Some? {
        return false;
      }
      DisableDevice(id, now);
      return true;
    }
  }
}
