/**
 * Permission definitions, assignments, applications and the events they enqueue, as table updates.
 * src/domain/account-permissions/account-permissions.service.ts,
 * src/domain/permissions/permissions.service.ts,
 * src/domain/service-applications/service-applications.service.ts.
 */
module Permissions {
  import opened Prelude

  type AccountId = nat
  type ServiceId = nat
  type DefinitionId = nat
  type ApplicationId = nat
  type Key = string

  const VISITOR: Key := "visitor"
  const SUPERADMIN: Key := "superadmin"
  const SUPERADMIN_SORT_ORDER: int := -2000

  datatype DefinitionStatus = InUse | Deprecated | Removed

  datatype Definition = Definition(service: ServiceId, key: Key, status: DefinitionStatus, sortOrder: int, createdAt: Time)

  datatype AssignmentStatus = Active | Suspended | Revoked

  datatype Assignment = Assignment(definition: DefinitionId, status: AssignmentStatus)

  datatype ApplicationStatus = Pending | Approved | Rejected

  datatype Application = Application(account: AccountId, service: ServiceId, status: ApplicationStatus, target: Option<DefinitionId>)

  datatype Account = Account(active: bool, superAdmin: bool)

  datatype Reason = ByApproval | ByChange | ByRevocation

  datatype Event =
    | PermissionUpdated(account: AccountId, permission: Option<Key>, previous: Option<Key>, reason: Reason)
    | ApplicationRejected(account: AccountId, application: ApplicationId, requested: Option<Key>)

  /** An outbox row, at the moment of its insertion. */
  datatype Entry = Entry(service: ServiceId, event: Event)

  datatype EventKind = UpdatedKind | RejectedKind

  type Holder = (AccountId, ServiceId)

  datatype Tables = Tables(
    accounts: map<AccountId, Account>,
    services: map<ServiceId, bool>,
    definitions: map<DefinitionId, Definition>,
    assignments: map<Holder, Assignment>,
    applications: map<ApplicationId, Application>,
    subscribers: map<ServiceId, set<EventKind>>,
    log: seq<Entry>)

  datatype Error =
    | AccountNotFound | ServiceNotFound | PermissionNotFound | PermissionNotUsable | AssignmentNotFound
    | ProtectedVisitor | TargetInvalid | TargetRequired | KeyTaken | StatusNotAllowed
    | ApplicationNotFound | ApplicationNotPending | TargetMismatch | NoCurrentPermission | NotAnUpgrade
    | StaleToken | RequestRequired | NotRequestable

  // ---------------------------------------------------------------- reading

  function KindOf(event: Event): EventKind {
    if event.PermissionUpdated? then UpdatedKind else RejectedKind
  }

  /** The permission an account effectively holds in a service. */
  function Effective(t: Tables, h: Holder): Option<Key> {
    if h in t.assignments && t.assignments[h].status == Active && t.assignments[h].definition in t.definitions
    then Some(t.definitions[t.assignments[h].definition].key) else None
  }

  predicate Owned(t: Tables, service: ServiceId, id: DefinitionId) {
    id in t.definitions && t.definitions[id].service == service
  }

  ghost function FindByKey(t: Tables, service: ServiceId, key: Key): Option<DefinitionId> {
    if id :| Owned(t, service, id) && t.definitions[id].key == key then Some(id) else None
  }

  /** A failing request rolls its transaction back. */
  function Settle(r: Result<Tables, Error>, t: Tables): Tables {
    if r.Ok? then r.value else t
  }

  function ErrorOf(r: Result<Tables, Error>): Option<Error> {
    if r.Ok? then None else Some(r.error)
  }

  // ---------------------------------------------------------------- enqueueing

  function Wanted(kinds: set<EventKind>, service: ServiceId, events: seq<Event>): seq<Entry> {
    if events == [] then []
    else
      var n := |events| - 1;
      Wanted(kinds, service, events[..n]) + (if KindOf(events[n]) in kinds then [Entry(service, events[n])] else [])
  }

  /** `enqueueMany`: the subscribed events of an active subscription, in order. */
  function Enqueue(t: Tables, service: ServiceId, events: seq<Event>): (t': Tables)
    ensures t'.(log := t.log) == t && t.log <= t'.log
  {
    if service !in t.subscribers then t else t.(log := t.log + Wanted(t.subscribers[service], service, events))
  }

  // ---------------------------------------------------------------- account permissions

  function AfterPut(t: Tables, account: AccountId, service: ServiceId, id: DefinitionId): (r: Result<Tables, Error>)
    ensures r.Ok? ==> r.value.definitions == t.definitions && Owned(t, service, id)
                      && r.value.assignments == t.assignments[(account, service) := Assignment(id, Active)]
  {
    if account !in t.accounts then Err(AccountNotFound)
    else if service !in t.services then Err(ServiceNotFound)
    else if id !in t.definitions then Err(PermissionNotFound)
    else if t.definitions[id].service != service || t.definitions[id].status != InUse then Err(PermissionNotUsable)
    else
      var h := (account, service);
      var previous := Effective(t, h);
      var wasActive := h in t.assignments && t.assignments[h].status == Active;
      var saved := t.(assignments := t.assignments[h := Assignment(id, Active)]);
      Ok(if previous != Some(t.definitions[id].key) || !wasActive
         then Enqueue(saved, service, [PermissionUpdated(account, Some(t.definitions[id].key), previous, ByChange)])
         else saved)
  }

  function AfterRevoke(t: Tables, account: AccountId, service: ServiceId): (r: Result<Tables, Error>)
    ensures r.Ok? ==>
      var h := (account, service);
      r.value.definitions == t.definitions && h in t.assignments
      && r.value.assignments == t.assignments[h := t.assignments[h].(status := Revoked)]
  {
    var h := (account, service);
    if h !in t.assignments || t.assignments[h].definition !in t.definitions then Err(AssignmentNotFound)
    else if t.assignments[h].status == Revoked then Ok(t)
    else
      var row := t.assignments[h];
      Ok(Enqueue(t.(assignments := t.assignments[h := row.(status := Revoked)]), service,
                 [PermissionUpdated(account, None, Some(t.definitions[row.definition].key), ByRevocation)]))
  }

  /** `ensureSuperadminPermission`: the definition exists, is in use and sorts first afterwards. */
  ghost function AfterEnsureSuperadmin(t: Tables, service: ServiceId, newId: DefinitionId, now: Time): (Tables,
                                       DefinitionId) {
    var found := FindByKey(t, service, SUPERADMIN);
    if found.Some? && found.value in t.definitions then
      (t.(definitions := t.definitions[found.value :=
            t.definitions[found.value].(status := InUse, sortOrder := SUPERADMIN_SORT_ORDER)]), found.value)
    else
      (t.(definitions := t.definitions[newId := Definition(service, SUPERADMIN, InUse, SUPERADMIN_SORT_ORDER, now)]), newId)
  }

  /** `findActiveOrCreateVisitorForFirstLogin`: the first login grants visitor, or superadmin; no event. */
  ghost function AfterFirstLogin(t: Tables, account: AccountId, service: ServiceId, newId: DefinitionId,
                                 now: Time): Result<Tables, Error> {
    var h := (account, service);
    if h in t.assignments then Ok(t)
    else if account !in t.accounts then Err(AccountNotFound)
    else if t.accounts[account].superAdmin then
      if service !in t.services then Err(ServiceNotFound)
      else
        var (ensured, id) := AfterEnsureSuperadmin(t, service, newId, now);
        Ok(ensured.(assignments := t.assignments[h := Assignment(id, Active)]))
    else
      var visitor := FindByKey(t, service, VISITOR);
      if visitor.None? || visitor.value !in t.definitions || t.definitions[visitor.value].status != InUse then Err(PermissionNotFound)
      else Ok(t.(assignments := t.assignments[h := Assignment(visitor.value, Active)]))
  }

  // ---------------------------------------------------------------- definitions

  ghost function AfterCreate(t: Tables, service: ServiceId, newId: DefinitionId, key: Key, sortOrder: int,
                             now: Time): Result<Tables, Error> {
    if service !in t.services then Err(ServiceNotFound)
    else if FindByKey(t, service, key).Some? then Err(KeyTaken)
    else Ok(t.(definitions := t.definitions[newId := Definition(service, key, InUse, sortOrder, now)]))
  }

  function AfterSetStatus(t: Tables, service: ServiceId, id: DefinitionId, status: DefinitionStatus): Result<Tables,
                          Error> {
    if !Owned(t, service, id) then Err(PermissionNotFound)
    else if t.definitions[id].key == VISITOR && status != InUse then Err(ProtectedVisitor)
    else if status == Removed then Err(StatusNotAllowed)
    else Ok(t.(definitions := t.definitions[id := t.definitions[id].(status := status)]))
  }

  ghost function ActiveHolders(t: Tables, service: ServiceId, id: DefinitionId): set<AccountId> {
    set h | h in t.assignments && h.1 == service && t.assignments[h] == Assignment(id, Active) :: h.0
  }

  /** The unique index on (service, key). */
  ghost predicate KeysUnique(t: Tables) {
    forall a, b | a in t.definitions && b in t.definitions
      && t.definitions[a].service == t.definitions[b].service && t.definitions[a].key == t.definitions[b].key :: a == b
  }

  predicate IsPending(t: Tables, h: Holder, id: ApplicationId) {
    id in t.applications && t.applications[id].account == h.0 && t.applications[id].service == h.1
    && t.applications[id].status == Pending
  }

  /** At most one pending application for each account and service. */
  ghost predicate OnePending(t: Tables) {
    forall a, b, h: Holder | IsPending(t, h, a) && IsPending(t, h, b) :: a == b
  }

  function Reassigned(assignments: map<Holder, Assignment>, service: ServiceId, source: DefinitionId,
                      target: DefinitionId): map<Holder, Assignment> {
    map h | h in assignments ::
      if h.1 == service && assignments[h].definition == source then assignments[h].(definition := target) else assignments[h]
  }

  function MigrationEvents(holders: seq<AccountId>, from: Key, to: Key): seq<Event> {
    seq(|holders|, i requires 0 <= i < |holders| => PermissionUpdated(holders[i], Some(to), Some(from), ByChange))
  }

  /** `migrate`: every assignment moves, the source is removed, each active holder gets one event. */
  function AfterMigrate(t: Tables, service: ServiceId, source: DefinitionId, target: DefinitionId,
                        holders: seq<AccountId>): (r: Result<Tables, Error>)
    ensures r.Ok? ==> Owned(t, service, source) && Owned(t, service, target)
                      && r.value.assignments == Reassigned(t.assignments, service, source, target)
                      && r.value.definitions == t.definitions[source := t.definitions[source].(status := Removed)]
  {
    if !Owned(t, service, source) then Err(PermissionNotFound)
    else if t.definitions[source].key == VISITOR then Err(ProtectedVisitor)
    else if !Owned(t, service, target) then Err(PermissionNotFound)
    else if t.definitions[target].status != InUse || source == target then Err(TargetInvalid)
    else
      var moved := t.(
        assignments := Reassigned(t.assignments, service, source, target),
        definitions := t.definitions[source := t.definitions[source].(status := Removed)]);
      Ok(Enqueue(moved, service, MigrationEvents(holders, t.definitions[source].key, t.definitions[target].key)))
  }

  /** `remove`: an assigned definition needs a migration target. */
  ghost function AfterRemove(t: Tables, service: ServiceId, id: DefinitionId, target: Option<DefinitionId>,
                             holders: seq<AccountId>): Result<Tables, Error> {
    if !Owned(t, service, id) then Err(PermissionNotFound)
    else if t.definitions[id].key == VISITOR then Err(ProtectedVisitor)
    else if ActiveHolders(t, service, id) != {} then
      if target.None? then Err(TargetRequired) else AfterMigrate(t, service, id, target.value, holders)
    else Ok(t.(definitions := t.definitions[id := t.definitions[id].(status := Removed)]))
  }

  // ---------------------------------------------------------------- applications

  /** A listing of the definitions in use of a service, ORDER BY sort_order, created_at. */
  ghost predicate IsListing(definitions: map<DefinitionId, Definition>, service: ServiceId, xs: seq<DefinitionId>) {
    && (forall i | 0 <= i < |xs| :: xs[i] in definitions)
    && Lists(xs, InUseIds(definitions, service))
    && (forall i, j | 0 <= i < j < |xs| :: !RankBelow(definitions[xs[j]], definitions[xs[i]]))
  }

  ghost function InUseIds(definitions: map<DefinitionId, Definition>, service: ServiceId): set<DefinitionId> {
    set id | id in definitions && definitions[id].service == service && definitions[id].status == InUse
  }

  /** Lexicographic order on (sortOrder, createdAt). */
  predicate RankBelow(a: Definition, b: Definition) {
    a.sortOrder < b.sortOrder || (a.sortOrder == b.sortOrder && a.createdAt < b.createdAt)
  }

  function Requestable(definitions: map<DefinitionId, Definition>, xs: seq<DefinitionId>): seq<DefinitionId> {
    if xs == [] then []
    else
      var rest := Requestable(definitions, xs[1..]);
      if xs[0] in definitions && definitions[xs[0]].key == SUPERADMIN then rest else [xs[0]] + rest
  }

  /** `findIndex`: the first position, or -1. */
  function FindIndex(xs: seq<DefinitionId>, id: DefinitionId): int {
    if xs == [] then -1
    else if xs[0] == id then 0
    else
      var i := FindIndex(xs[1..], id);
      if i < 0 then -1 else i + 1
  }

  /** `assertStrictPermissionUpgrade`, over one query result. */
  predicate StrictUpgrade(definitions: map<DefinitionId, Definition>, listing: seq<DefinitionId>,
                          current: DefinitionId, requested: DefinitionId) {
    var xs := Requestable(definitions, listing);
    FindIndex(xs, current) >= 0 && FindIndex(xs, requested) > FindIndex(xs, current)
  }

  function AfterApprove(t: Tables, id: ApplicationId, target: DefinitionId,
                        listing: seq<DefinitionId>): (r: Result<Tables, Error>)
    ensures r.Ok? ==> id in t.applications && r.value.definitions == t.definitions
    ensures r.Ok? ==>
      var h := (t.applications[id].account, t.applications[id].service);
      Owned(t, h.1, target) && h in t.assignments && r.value.assignments == t.assignments[h := Assignment(target, Active)]
  {
    if id !in t.applications then Err(ApplicationNotFound)
    else
      var application := t.applications[id];
      var h := (application.account, application.service);
      if application.status != Pending then Err(ApplicationNotPending)
      else if application.target.Some? && application.target.value != target then Err(TargetMismatch)
      else if !Owned(t, application.service, target) || t.definitions[target].status != InUse then Err(PermissionNotUsable)
      else if t.definitions[target].key == VISITOR then Err(ProtectedVisitor)
      else if h !in t.assignments || t.assignments[h].status != Active || t.assignments[h].definition !in t.definitions
              || t.definitions[t.assignments[h].definition].status != InUse then Err(NoCurrentPermission)
      else if !StrictUpgrade(t.definitions, listing, t.assignments[h].definition, target) then Err(NotAnUpgrade)
      else
        Ok(Enqueue(t.(assignments := t.assignments[h := Assignment(target, Active)],
                      applications := t.applications[id := application.(status := Approved, target := Some(target))]),
                   application.service,
                   [PermissionUpdated(application.account, Some(t.definitions[target].key), Effective(t, h), ByApproval)]))
  }

  function AfterReject(t: Tables, id: ApplicationId): (r: Result<Tables, Error>)
    ensures r.Ok? ==> r.value.definitions == t.definitions && r.value.assignments == t.assignments
  {
    if id !in t.applications then Err(ApplicationNotFound)
    else
      var application := t.applications[id];
      if application.status != Pending then Err(ApplicationNotPending)
      else
        var requested := if application.target.Some? && application.target.value in t.definitions
                         then Some(t.definitions[application.target.value].key) else None;
        Ok(Enqueue(t.(applications := t.applications[id := application.(status := Rejected)]), application.service,
                   [ApplicationRejected(application.account, id, requested)]))
  }

  ghost function FindPending(t: Tables, h: Holder): Option<ApplicationId> {
    if id :| IsPending(t, h, id) then Some(id) else None
  }

  /** `createFromAccessToken`, after the token claims named `account`, `service` and `claimed`. */
  ghost function AfterApply(t: Tables, account: AccountId, service: ServiceId, claimed: Key, requestedKey: Option<Key>,
                            newId: ApplicationId, listing: seq<DefinitionId>): (r: Result<Tables, Error>)
    ensures r.Ok? ==> r.value.(applications := t.applications) == t
  {
    var h := (account, service);
    if account !in t.accounts || !t.accounts[account].active then Err(AccountNotFound)
    else if service !in t.services || !t.services[service] then Err(ServiceNotFound)
    else if h !in t.assignments || t.assignments[h].status != Active || t.assignments[h].definition !in t.definitions
            || t.definitions[t.assignments[h].definition].status != InUse then Err(NoCurrentPermission)
    else
      var current := t.assignments[h].definition;
      if claimed != t.definitions[current].key then Err(StaleToken)
      else if requestedKey.None? && t.definitions[current].key != VISITOR then Err(RequestRequired)
      else
        var requested := if requestedKey.None? then None else FindByKey(t, service, requestedKey.value);
        if requestedKey.Some? && (requested.None? || requested.value !in t.definitions || t.definitions[requested.value].status != InUse
                                  || requestedKey.value == VISITOR || requestedKey.value == SUPERADMIN) then Err(NotRequestable)
        else if requested.Some? && !StrictUpgrade(t.definitions, listing, current, requested.value) then Err(NotAnUpgrade)
        else
          var pending := FindPending(t, h);
          if pending.Some? && pending.value in t.applications then
            Ok(if requested.None? then t
               else t.(applications := t.applications[pending.value := t.applications[pending.value].(target := requested)]))
          else Ok(t.(applications := t.applications[newId := Application(account, service, Pending, requested)]))
  }
}
