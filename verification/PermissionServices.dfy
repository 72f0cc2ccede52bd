/** The three services that change permissions, over one database. */
module PermissionServices {
  import opened Prelude
  import opened Permissions
  import PermissionAnswers
  import PermissionRuns

  /** What a subscriber can rely on: for every holder of a subscribed service the log got exactly the change, if any. */
  ghost predicate Reported(t: Tables, t': Tables) {
    PermissionRuns.Inv(t') && forall h: Holder | PermissionRuns.Subscribed(t, h.1) :: PermissionRuns.Reports(t, t', h)
  }

  lemma StepIsReported(t: Tables, op: PermissionRuns.Op)
    requires !op.FirstLogin?
    ensures PermissionRuns.Inv(t) && PermissionRuns.Legal(t, op) ==> Reported(t, PermissionRuns.Next(t, op))
  {
    if PermissionRuns.Inv(t) && PermissionRuns.Legal(t, op) {
      PermissionRuns.StepKeepsInv(t, op);
      forall h: Holder | PermissionRuns.Subscribed(t, h.1) ensures PermissionRuns.Reports(t, PermissionRuns.Next(t, op), h) {
        PermissionRuns.StepReportsTheChange(t, op, h);
      }
    }
  }

  class Database {
    var accounts: map<AccountId, Account>
    var services: map<ServiceId, bool>
    var definitions: map<DefinitionId, Definition>
    var assignments: map<Holder, Assignment>
    var applications: map<ApplicationId, Application>
    var subscribers: map<ServiceId, set<EventKind>>
    var log: seq<Entry>

    constructor (accounts: map<AccountId, Account>, services: map<ServiceId, bool>)
      ensures State() == Tables(accounts, services, map[], map[], map[], map[], [])
    {
      this.accounts, this.services := accounts, services;
      definitions, assignments, applications, subscribers, log := map[], map[], map[], map[], [];
    }

    function State(): Tables
      reads this
    {
      Tables(accounts, services, definitions, assignments, applications, subscribers, log)
    }

    method EnqueueMany(service: ServiceId, events: seq<Event>)
      modifies this`log
      ensures State() == Enqueue(old(State()), service, events)
      ensures forall h: Holder | PermissionRuns.Subscribed(old(State()), h.1) ::
        PermissionRuns.EventsOf(log, h) == PermissionRuns.EventsOf(old(log), h)
          + (if h.1 == service then PermissionRuns.Concerning(events, h) else [])
    {
      ghost var before := State();
      forall h: Holder | PermissionRuns.Subscribed(before, h.1)
        ensures PermissionRuns.EventsOf(Enqueue(before, service, events).log, h) == PermissionRuns.EventsOf(before.log, h)
          + (if h.1 == service then PermissionRuns.Concerning(events, h) else [])
      {
        PermissionRuns.EnqueueAdds(before, service, events, h);
      }
      if service !in subscribers { return; }
      log := log + Wanted(subscribers[service], service, events);
    }
  }

  /** src/domain/permissions/permissions.service.ts. */
  class PermissionsService {
    const db: Database

    constructor (db: Database)
      ensures this.db == db
    {
      this.db := db;
    }

    method FindByServiceAndKey(service: ServiceId, key: Key) returns (found: Option<DefinitionId>)
      requires KeysUnique(db.State())
      ensures found == FindByKey(db.State(), service, key)
      ensures found.Some? ==> Owned(db.State(), service, found.value) && db.definitions[found.value].key == key
    {
      ghost var expected := FindByKey(db.State(), service, key);
      if id :| id in db.definitions && db.definitions[id].service == service && db.definitions[id].key == key {
        assert Owned(db.State(), service, id);
        return Some(id);
      }
      assert forall id :: !(Owned(db.State(), service, id) && db.definitions[id].key == key);
      return None;
    }

    method Create(service: ServiceId, newId: DefinitionId, key: Key, sortOrder: int,
                  now: Time) returns (error: Option<Error>)
      requires KeysUnique(db.State())
      modifies db`definitions
      ensures var r := AfterCreate(old(db.State()), service, newId, key, sortOrder, now);
        db.State() == Settle(r, old(db.State())) && error == ErrorOf(r)
    {
      if service !in db.services { return Some(ServiceNotFound); }
      var taken := FindByServiceAndKey(service, key);
      if taken.Some? { return Some(KeyTaken); }
      db.definitions := db.definitions[newId := Definition(service, key, InUse, sortOrder, now)];
      return None;
    }

    method EnsureSuperadminPermission(service: ServiceId, newId: DefinitionId, now: Time) returns (id: DefinitionId)
      requires KeysUnique(db.State()) && service in db.services && newId !in db.definitions
      modifies db`definitions
      ensures (db.State(), id) == AfterEnsureSuperadmin(old(db.State()), service, newId, now)
      ensures Owned(db.State(), service, id) && db.definitions[id].key == SUPERADMIN && db.definitions[id].status == InUse
    {
      var found := FindByServiceAndKey(service, SUPERADMIN);
      if found.Some? {
        id := found.value;
        var existing := db.definitions[id];
        if existing.status == InUse && existing.sortOrder == SUPERADMIN_SORT_ORDER {
          assert db.definitions[id := existing] == db.definitions;
          return id;
        }
        existing := existing.(status := InUse);
        existing := existing.(sortOrder := SUPERADMIN_SORT_ORDER);
        db.definitions := db.definitions[id := existing];
      } else {
        var _ := Create(service, newId, SUPERADMIN, SUPERADMIN_SORT_ORDER, now);
        id := newId;
      }
    }

    method Update(service: ServiceId, id: DefinitionId, status: DefinitionStatus) returns (error: Option<Error>)
      modifies db`definitions
      ensures var r := AfterSetStatus(old(db.State()), service, id, status);
        db.State() == Settle(r, old(db.State())) && error == ErrorOf(r)
    {
      if id !in db.definitions || db.definitions[id].service != service { return Some(PermissionNotFound); }
      if db.definitions[id].key == VISITOR && status != InUse { return Some(ProtectedVisitor); }
      if status == Removed { return Some(StatusNotAllowed); }
      db.definitions := db.definitions[id := db.definitions[id].(status := status)];
      return None;
    }

    /** `holders` is what the locking query returned: the active holders of the source, in some order. */
    method Migrate(service: ServiceId, source: DefinitionId, target: DefinitionId,
                   holders: seq<AccountId>) returns (error: Option<Error>)
      modifies db`assignments, db`definitions, db`log
      ensures var r := AfterMigrate(old(db.State()), service, source, target, holders);
        db.State() == Settle(r, old(db.State())) && error == ErrorOf(r)
      ensures PermissionRuns.Inv(old(db.State())) && Lists(holders, ActiveHolders(old(db.State()), service, source)) ==>
                Reported(old(db.State()), db.State())
    {
      hide Reported, PermissionRuns.Inv;
      StepIsReported(db.State(), PermissionRuns.Migrate(service, source, target, holders));
      if source !in db.definitions || db.definitions[source].service != service { return Some(PermissionNotFound); }
      if db.definitions[source].key == VISITOR { return Some(ProtectedVisitor); }
      if target !in db.definitions || db.definitions[target].service != service { return Some(PermissionNotFound); }
      if db.definitions[target].status != InUse { return Some(TargetInvalid); }
      if source == target { return Some(TargetInvalid); }
      var from, to := db.definitions[source].key, db.definitions[target].key;
      db.assignments := map h | h in db.assignments ::
        if h.1 == service && db.assignments[h].definition == source then db.assignments[h].(definition := target)
        else db.assignments[h];
      db.definitions := db.definitions[source := db.definitions[source].(status := Removed)];
      db.EnqueueMany(service, MigrationEvents(holders, from, to));
      return None;
    }

    method Remove(service: ServiceId, id: DefinitionId, target: Option<DefinitionId>,
                  holders: seq<AccountId>) returns (error: Option<Error>)
      modifies db`assignments, db`definitions, db`log
      ensures var r := AfterRemove(old(db.State()), service, id, target, holders);
        db.State() == Settle(r, old(db.State())) && error == ErrorOf(r)
      ensures PermissionRuns.Inv(old(db.State())) && Lists(holders, ActiveHolders(old(db.State()), service, id)) ==>
                Reported(old(db.State()), db.State())
    {
      StepIsReported(db.State(), PermissionRuns.Remove(service, id, target, holders));
      if id !in db.definitions || db.definitions[id].service != service { return Some(PermissionNotFound); }
      if db.definitions[id].key == VISITOR { return Some(ProtectedVisitor); }
      var holding := set h | h in db.assignments && h.1 == service && db.assignments[h] == Assignment(id, Active) :: h.0;
      assert holding == ActiveHolders(db.State(), service, id);
      if |holding| > 0 {
        assert holding != {};
        if target.None? { return Some(TargetRequired); }
        error := Migrate(service, id, target.value, holders);
        return;
      }
      assert holding == {};
      db.definitions := db.definitions[id := db.definitions[id].(status := Removed)];
      return None;
    }
  }

  /** src/domain/account-permissions/account-permissions.service.ts. */
  class AccountPermissionsService {
    const db: Database
    const permissions: PermissionsService

    constructor (db: Database, permissions: PermissionsService)
      ensures this.db == db && this.permissions == permissions
    {
      this.db, this.permissions := db, permissions;
    }

    method Put(account: AccountId, service: ServiceId, id: DefinitionId) returns (error: Option<Error>)
      modifies db`assignments, db`log
      ensures var r := AfterPut(old(db.State()), account, service, id);
        db.State() == Settle(r, old(db.State())) && error == ErrorOf(r)
      ensures PermissionRuns.Inv(old(db.State())) ==> Reported(old(db.State()), db.State())
      ensures error.None? ==> id in db.definitions && Effective(db.State(), (account, service)) == Some(db.definitions[id].key)
    {
      StepIsReported(db.State(), PermissionRuns.Put(account, service, id));
      if account !in db.accounts { return Some(AccountNotFound); }
      if service !in db.services { return Some(ServiceNotFound); }
      if id !in db.definitions { return Some(PermissionNotFound); }
      if db.definitions[id].service != service || db.definitions[id].status != InUse { return Some(PermissionNotUsable); }
      var h := (account, service);
      var previous := Effective(db.State(), h);
      var wasActive := h in db.assignments && db.assignments[h].status == Active;
      db.assignments := db.assignments[h := Assignment(id, Active)];
      if previous != Some(db.definitions[id].key) || !wasActive {
        db.EnqueueMany(service, [PermissionUpdated(account, Some(db.definitions[id].key), previous, ByChange)]);
      }
      return None;
    }

    method Revoke(account: AccountId, service: ServiceId) returns (error: Option<Error>)
      modifies db`assignments, db`log
      ensures var r := AfterRevoke(old(db.State()), account, service);
        db.State() == Settle(r, old(db.State())) && error == ErrorOf(r)
      ensures PermissionRuns.Inv(old(db.State())) ==> Reported(old(db.State()), db.State())
      ensures error.None? ==> Effective(db.State(), (account, service)) == None
    {
      StepIsReported(db.State(), PermissionRuns.Revoke(account, service));
      var h := (account, service);
      if h !in db.assignments || db.assignments[h].definition !in db.definitions { return Some(AssignmentNotFound); }
      var row := db.assignments[h];
      if row.status == Revoked {
        assert db.assignments[h := row] == db.assignments;
        return None;
      }
      db.assignments := db.assignments[h := row.(status := Revoked)];
      db.EnqueueMany(service, [PermissionUpdated(account, None, Some(db.definitions[row.definition].key), ByRevocation)]);
      return None;
    }

    method FindActiveOrCreateVisitorForFirstLogin(account: AccountId, service: ServiceId, newId: DefinitionId,
                                                  now: Time)
      returns (error: Option<Error>, granted: Option<DefinitionId>)
      requires permissions.db == db && KeysUnique(db.State()) && newId !in db.definitions
      modifies db`assignments, db`definitions
      ensures var r := AfterFirstLogin(old(db.State()), account, service, newId, now);
        db.State() == Settle(r, old(db.State())) && error == ErrorOf(r)
      ensures granted.Some? <==>
        error.None? && (account, service) in db.assignments && db.assignments[(account, service)].status == Active
      ensures granted.Some? ==> granted.value == db.assignments[(account, service)].definition
      ensures error.None? && (account, service) !in old(db.assignments) ==>
        account in db.accounts
        && Effective(db.State(), (account, service)) == Some(if db.accounts[account].superAdmin then "superadmin" else "visitor")
    {
      var h := (account, service);
      if h in db.assignments {
        return None, if db.assignments[h].status == Active then Some(db.assignments[h].definition) else None;
      }
      if account !in db.accounts { return Some(AccountNotFound), None; }
      var id: DefinitionId;
      if db.accounts[account].superAdmin {
        if service !in db.services { return Some(ServiceNotFound), None; }
        id := permissions.EnsureSuperadminPermission(service, newId, now);
      } else {
        var visitor := permissions.FindByServiceAndKey(service, VISITOR);
        if visitor.None? || db.definitions[visitor.value].status != InUse { return Some(PermissionNotFound), None; }
        id := visitor.value;
      }
      db.assignments := db.assignments[h := Assignment(id, Active)];
      return None, Some(id);
    }
  }

  /** src/domain/service-applications/service-applications.service.ts; `listing` is the sorted query result. */
  class ServiceApplicationsService {
    const db: Database
    const permissions: PermissionsService

    constructor (db: Database, permissions: PermissionsService)
      ensures this.db == db && this.permissions == permissions
    {
      this.db, this.permissions := db, permissions;
    }

    method CreateFromAccessToken(account: AccountId, service: ServiceId, claimed: Key, requestedKey: Option<Key>,
                                 newId: ApplicationId, listing: seq<DefinitionId>) returns (error: Option<Error>)
      requires permissions.db == db && KeysUnique(db.State()) && OnePending(db.State())
      modifies db`applications
      ensures var r := AfterApply(old(db.State()), account, service, claimed, requestedKey, newId, listing);
        db.State() == Settle(r, old(db.State())) && error == ErrorOf(r)
    {
      var h := (account, service);
      if account !in db.accounts || !db.accounts[account].active { return Some(AccountNotFound); }
      if service !in db.services || !db.services[service] { return Some(ServiceNotFound); }
      if h !in db.assignments || db.assignments[h].status != Active || db.assignments[h].definition !in db.definitions
         || db.definitions[db.assignments[h].definition].status != InUse { return Some(NoCurrentPermission); }
      var current := db.assignments[h].definition;
      if claimed != db.definitions[current].key { return Some(StaleToken); }
      if requestedKey.None? && db.definitions[current].key != VISITOR { return Some(RequestRequired); }
      var requested: Option<DefinitionId> := None;
      if requestedKey.Some? {
        requested := permissions.FindByServiceAndKey(service, requestedKey.value);
        if requested.None? || db.definitions[requested.value].status != InUse
           || requestedKey.value == VISITOR || requestedKey.value == SUPERADMIN { return Some(NotRequestable); }
        if !StrictUpgrade(db.definitions, listing, current, requested.value) { return Some(NotAnUpgrade); }
      }
      ghost var pending := FindPending(db.State(), h);
      if id :| id in db.applications && db.applications[id].account == account && db.applications[id].service == service
               && db.applications[id].status == Pending {
        assert IsPending(db.State(), h, id) && pending == Some(id);
        if requested.Some? {
          db.applications := db.applications[id := db.applications[id].(target := requested)];
        }
        return None;
      }
      assert forall id :: !IsPending(db.State(), h, id);
      db.applications := db.applications[newId := Application(account, service, Pending, requested)];
      return None;
    }

    method Approve(id: ApplicationId, target: DefinitionId, listing: seq<DefinitionId>) returns (error: Option<Error>)
      modifies db`assignments, db`applications, db`log
      ensures var r := AfterApprove(old(db.State()), id, target, listing);
        db.State() == Settle(r, old(db.State())) && error == ErrorOf(r)
      ensures PermissionRuns.Inv(old(db.State())) && PermissionRuns.Legal(old(db.State()), PermissionRuns.Approve(id, target, listing)) ==>
        Reported(old(db.State()), db.State())
      ensures error.None? && id in old(db.applications)
              && IsListing(old(db.definitions), old(db.applications)[id].service, listing) ==>
        PermissionAnswers.Climbs(old(db.State()), db.State(), id, target)
    {
      hide Reported, PermissionRuns.Inv, PermissionRuns.Legal, IsListing, StrictUpgrade, PermissionAnswers.Climbs;
      PermissionAnswers.ApprovedClimbs(db.State(), id, target, listing);
      StepIsReported(db.State(), PermissionRuns.Approve(id, target, listing));
      if id !in db.applications { return Some(ApplicationNotFound); }
      var application := db.applications[id];
      if application.status != Pending { return Some(ApplicationNotPending); }
      if application.target.Some? && application.target.value != target { return Some(TargetMismatch); }
      if target !in db.definitions || db.definitions[target].service != application.service
         || db.definitions[target].status != InUse { return Some(PermissionNotUsable); }
      if db.definitions[target].key == VISITOR { return Some(ProtectedVisitor); }
      var h := (application.account, application.service);
      if h !in db.assignments || db.assignments[h].status != Active || db.assignments[h].definition !in db.definitions
         || db.definitions[db.assignments[h].definition].status != InUse { return Some(NoCurrentPermission); }
      var current := db.assignments[h].definition;
      if !StrictUpgrade(db.definitions, listing, current, target) { return Some(NotAnUpgrade); }
      db.assignments := db.assignments[h := Assignment(target, Active)];
      application := application.(status := Approved);
      application := application.(target := Some(target));
      db.applications := db.applications[id := application];
      db.EnqueueMany(application.service,
        [PermissionUpdated(application.account, Some(db.definitions[target].key), Some(db.definitions[current].key), ByApproval)]);
      return None;
    }

    method Reject(id: ApplicationId) returns (error: Option<Error>)
      modifies db`applications, db`log
      ensures var r := AfterReject(old(db.State()), id);
        db.State() == Settle(r, old(db.State())) && error == ErrorOf(r)
      ensures PermissionRuns.Inv(old(db.State())) ==> Reported(old(db.State()), db.State())
    {
      StepIsReported(db.State(), PermissionRuns.Reject(id));
      if id !in db.applications { return Some(ApplicationNotFound); }
      var application := db.applications[id];
      if application.status != Pending { return Some(ApplicationNotPending); }
      db.applications := db.applications[id := application.(status := Rejected)];
      var requested := if application.target.Some? && application.target.value in db.definitions
                       then Some(db.definitions[application.target.value].key) else None;
      db.EnqueueMany(application.service, [ApplicationRejected(application.account, id, requested)]);
      return None;
    }
  }
}
