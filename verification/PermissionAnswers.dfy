/**
 * What each permission request answers and leaves behind, in terms of the columns a caller sees.
 * src/domain/account-permissions/account-permissions.service.ts,
 * src/domain/permissions/permissions.service.ts,
 * src/domain/service-applications/service-applications.service.ts.
 */
module PermissionAnswers {
  import opened Prelude
  import opened Permissions
  import opened PermissionUpgrade

  /** The definition of a service with a key is in use. */
  ghost predicate KeyInUse(t: Tables, service: ServiceId, key: Key) {
    exists id | id in t.definitions ::
      t.definitions[id].service == service && t.definitions[id].key == key && t.definitions[id].status == InUse
  }

  /** The account actively holds a definition that is in use. */
  ghost predicate HoldsInUse(t: Tables, h: Holder) {
    && h in t.assignments && t.assignments[h].status == Active
    && t.assignments[h].definition in t.definitions && t.definitions[t.assignments[h].definition].status == InUse
  }

  /** The log with one event, if the service subscribes to its kind. */
  ghost predicate Logs(t: Tables, t': Tables, service: ServiceId, kind: EventKind, event: Event) {
    t'.log == if service in t.subscribers && kind in t.subscribers[service] then t.log + [Entry(service, event)] else t.log
  }

  lemma EnqueueOne(t: Tables, service: ServiceId, event: Event)
    ensures Logs(t, Enqueue(t, service, [event]), service,
                 if event.PermissionUpdated? then UpdatedKind else RejectedKind, event)
  {
    if service in t.subscribers {
      assert Wanted(t.subscribers[service], service, [event][..0]) == [];
    }
  }

  // ---------------------------------------------------------------- assignments

  /**
   * A first login grants visitor, and superadmin to a super admin, without an event; superadmin is in use and sorts first
   * from then on. An account that has an assignment, even a revoked one, gets nothing.
   */
  lemma FirstLoginGrants(t: Tables, account: AccountId, service: ServiceId, newId: DefinitionId, now: Time)
    requires KeysUnique(t) && newId !in t.definitions
    ensures (account, service) in t.assignments ==> AfterFirstLogin(t, account, service, newId, now) == Ok(t)
    ensures (account, service) !in t.assignments ==>
      var h, r := (account, service), AfterFirstLogin(t, account, service, newId, now);
      && (r.Ok? <==>
            && account in t.accounts
            && if t.accounts[account].superAdmin then service in t.services else KeyInUse(t, service, "visitor"))
      && (r.Ok? ==>
            && Effective(r.value, h) == Some(if t.accounts[account].superAdmin then "superadmin" else "visitor")
            && r.value.assignments == t.assignments[h := r.value.assignments[h]] && r.value.log == t.log
            && (if t.accounts[account].superAdmin
                then r.value.definitions[r.value.assignments[h].definition].sortOrder == -2000
                     && KeyInUse(r.value, service, "superadmin")
                else r.value.definitions == t.definitions))
      && (r.Err? ==> r.error == if account !in t.accounts then AccountNotFound
                                else if t.accounts[account].superAdmin then ServiceNotFound else PermissionNotFound)
  {
    if account in t.accounts && !t.accounts[account].superAdmin {
      var visitor := FindByKey(t, service, VISITOR);
      assert visitor.Some? ==> Owned(t, service, visitor.value) && t.definitions[visitor.value].key == VISITOR;
      if id :| id in t.definitions && t.definitions[id].service == service && t.definitions[id].key == "visitor" {
        assert Owned(t, service, id);
      }
    }
  }

  /** Putting a permission that is in use makes it the one the account holds, with an event unless it was already. */
  lemma PutGrants(t: Tables, account: AccountId, service: ServiceId, id: DefinitionId)
    ensures var h, r := (account, service), AfterPut(t, account, service, id);
      && (r.Ok? <==>
            && account in t.accounts && service in t.services
            && id in t.definitions && t.definitions[id].service == service && t.definitions[id].status == InUse)
      && (r.Ok? ==>
            && Effective(r.value, h) == Some(t.definitions[id].key)
            && r.value.assignments[h].definition == id && r.value.assignments - {h} == t.assignments - {h}
            && (if Effective(t, h) == Some(t.definitions[id].key) then r.value.log == t.log
                else Logs(t, r.value, service, UpdatedKind,
                          PermissionUpdated(account, Some(t.definitions[id].key), Effective(t, h), ByChange))))
      && (r.Err? ==> r.error == if account !in t.accounts then AccountNotFound
                                else if service !in t.services then ServiceNotFound
                                else if id !in t.definitions then PermissionNotFound else PermissionNotUsable)
  {
    var h := (account, service);
    if id in t.definitions {
      EnqueueOne(t.(assignments := t.assignments[h := Assignment(id, Active)]), service,
                 PermissionUpdated(account, Some(t.definitions[id].key), Effective(t, h), ByChange));
    }
  }

  /** Revoking takes the permission away, with an event if there was one to take. */
  lemma RevokeTakesAway(t: Tables, account: AccountId, service: ServiceId)
    requires (account, service) in t.assignments ==>
      t.assignments[(account, service)].definition in t.definitions && t.assignments[(account, service)].status != Suspended
    ensures var h, r := (account, service), AfterRevoke(t, account, service);
      && (r.Ok? <==> h in t.assignments)
      && (r.Ok? ==>
            && Effective(r.value, h) == None && r.value.assignments - {h} == t.assignments - {h}
            && (if Effective(t, h) == None then r.value.log == t.log
                else Logs(t, r.value, service, UpdatedKind, PermissionUpdated(account, None, Effective(t, h), ByRevocation))))
      && (r.Err? ==> r.error == AssignmentNotFound)
  {
    var h := (account, service);
    if h in t.assignments {
      EnqueueOne(t.(assignments := t.assignments[h := t.assignments[h].(status := Revoked)]), service,
                 PermissionUpdated(account, None, Some(t.definitions[t.assignments[h].definition].key), ByRevocation));
    }
  }

  // ---------------------------------------------------------------- definitions

  /** A key is created once for a service, in use from then on. */
  lemma CreateOnce(t: Tables, service: ServiceId, newId: DefinitionId, key: Key, sortOrder: int, now: Time)
    requires newId !in t.definitions
    ensures var r := AfterCreate(t, service, newId, key, sortOrder, now);
      && (r.Ok? <==>
            service in t.services
            && !exists id | id in t.definitions :: t.definitions[id].service == service && t.definitions[id].key == key)
      && (r.Ok? ==>
            && KeyInUse(r.value, service, key) && r.value.definitions - {newId} == t.definitions
            && r.value.definitions[newId].sortOrder == sortOrder && r.value.definitions[newId].createdAt == now)
      && (r.Err? ==> r.error == if service !in t.services then ServiceNotFound else KeyTaken)
  {
    if id :| id in t.definitions && t.definitions[id].service == service && t.definitions[id].key == key {
      assert Owned(t, service, id);
    }
    var found, r := FindByKey(t, service, key), AfterCreate(t, service, newId, key, sortOrder, now);
    assert found.Some? ==> Owned(t, service, found.value) && t.definitions[found.value].key == key;
    if r.Ok? {
      assert r.value.definitions - {newId} == t.definitions;
      assert newId in r.value.definitions && r.value.definitions[newId].key == key;
    }
  }

  /** The visitor permission cannot leave use, and no status change removes a definition. */
  lemma StatusIsSet(t: Tables, service: ServiceId, id: DefinitionId, status: DefinitionStatus)
    ensures var r := AfterSetStatus(t, service, id, status);
      && (r.Ok? <==>
            && id in t.definitions && t.definitions[id].service == service
            && status != Removed && (t.definitions[id].key == "visitor" ==> status == InUse))
      && (r.Ok? ==> r.value.definitions[id] == t.definitions[id].(status := status)
                    && r.value.definitions - {id} == t.definitions - {id})
      && (r.Err? ==> r.error == if id !in t.definitions || t.definitions[id].service != service then PermissionNotFound
                                else if t.definitions[id].key == "visitor" then ProtectedVisitor else StatusNotAllowed)
  {
  }

  /** After a migration every active holder of the source holds the target, and no one else has changed. */
  lemma MigrationMovesHolders(t: Tables, service: ServiceId, source: DefinitionId, target: DefinitionId,
                              holders: seq<AccountId>, h: Holder)
    ensures var r := AfterMigrate(t, service, source, target, holders);
      && (r.Ok? <==>
            && source != target
            && source in t.definitions && t.definitions[source].service == service && t.definitions[source].key != "visitor"
            && target in t.definitions && t.definitions[target].service == service && t.definitions[target].status == InUse)
      && (r.Ok? ==>
            && r.value.definitions[source].status == Removed
            && r.value.definitions - {source} == t.definitions - {source}
            && Effective(r.value, h) ==
                 if h.1 == service && h in t.assignments && t.assignments[h] == Assignment(source, Active)
                 then Some(t.definitions[target].key) else Effective(t, h))
      && (r.Err? ==>
            r.error == if source !in t.definitions || t.definitions[source].service != service then PermissionNotFound
                       else if t.definitions[source].key == "visitor" then ProtectedVisitor
                       else if target !in t.definitions || t.definitions[target].service != service then PermissionNotFound
                       else TargetInvalid)
  {
  }

  /** A definition that someone holds is removed only by migrating to a target; visitor is never removed. */
  lemma RemovalNeedsTarget(t: Tables, service: ServiceId, id: DefinitionId, target: Option<DefinitionId>, holders: seq<AccountId>)
    ensures var r := AfterRemove(t, service, id, target, holders);
      var held := exists h | h in t.assignments :: h.1 == service && t.assignments[h] == Assignment(id, Active);
      && (r.Ok? ==>
            && id in t.definitions && t.definitions[id].service == service && t.definitions[id].key != "visitor"
            && r.value.definitions[id].status == Removed
            && (held ==> target.Some? && r == AfterMigrate(t, service, id, target.value, holders))
            && (!held ==> r.value.assignments == t.assignments && r.value.log == t.log))
      && (id in t.definitions && t.definitions[id].service == service && t.definitions[id].key != "visitor" && !held ==> r.Ok?)
      && (r.Err? && (target.None? || !held) ==>
            r.error == if id !in t.definitions || t.definitions[id].service != service then PermissionNotFound
                       else if t.definitions[id].key == "visitor" then ProtectedVisitor else TargetRequired)
  {
    if h :| h in t.assignments && h.1 == service && t.assignments[h] == Assignment(id, Active) {
      assert h.0 in ActiveHolders(t, service, id);
    } else {
      assert ActiveHolders(t, service, id) == {};
    }
  }

  // ---------------------------------------------------------------- applications

  /**
   * With distinct ranks an application is approved exactly when it is pending, names no other target, and the target is
   * a permission in use of the service, above the one in use that the account actively holds; neither is superadmin,
   * and the target is not visitor. Then the account holds the target.
   */
  lemma ApprovedExactly(t: Tables, id: ApplicationId, target: DefinitionId, listing: seq<DefinitionId>)
    requires id in t.applications && IsListing(t.definitions, t.applications[id].service, listing)
    requires RanksDistinct(t.definitions, t.applications[id].service)
    ensures var a, r := t.applications[id], AfterApprove(t, id, target, listing);
      var h := (a.account, a.service);
      r.Ok? <==>
        && a.status == Pending && (a.target == None || a.target == Some(target))
        && HoldsInUse(t, h) && target in t.definitions
        && var d, e := t.definitions[t.assignments[h].definition], t.definitions[target];
           && d.service == a.service == e.service && e.status == InUse
           && d.key != "superadmin" && e.key != "superadmin" && e.key != "visitor"
           && (d.sortOrder < e.sortOrder || (d.sortOrder == e.sortOrder && d.createdAt < e.createdAt))
    ensures var a, r := t.applications[id], AfterApprove(t, id, target, listing);
      r.Err? ==>
        r.error == if a.status != Pending then ApplicationNotPending
                   else if a.target != None && a.target != Some(target) then TargetMismatch
                   else if target !in t.definitions || t.definitions[target].service != a.service
                           || t.definitions[target].status != InUse then PermissionNotUsable
                   else if t.definitions[target].key == "visitor" then ProtectedVisitor
                   else if !HoldsInUse(t, (a.account, a.service)) then NoCurrentPermission else NotAnUpgrade
  {
    var a := t.applications[id];
    var h := (a.account, a.service);
    if h in t.assignments { UpgradeIsRankOrder(t.definitions, a.service, listing, t.assignments[h].definition, target); }
  }

  /** The account of an application has moved to the target, which is not below what it held, and the service was told. */
  ghost predicate Climbs(t: Tables, t': Tables, id: ApplicationId, target: DefinitionId)
    requires id in t.applications
  {
    var a := t.applications[id];
    var h := (a.account, a.service);
    && target in t.definitions && h in t.assignments && t.assignments[h].definition in t.definitions
    && t.definitions[t.assignments[h].definition].sortOrder <= t.definitions[target].sortOrder
    && Effective(t', h) == Some(t.definitions[target].key) && t'.assignments - {h} == t.assignments - {h}
    && t'.applications == t.applications[id := a.(status := Approved, target := Some(target))]
    && Logs(t, t', a.service, UpdatedKind,
            PermissionUpdated(a.account, Some(t.definitions[target].key), Effective(t, h), ByApproval))
  }

  /** Even with ties an approval never goes down in sort order. */
  lemma ApprovedClimbs(t: Tables, id: ApplicationId, target: DefinitionId, listing: seq<DefinitionId>)
    ensures id in t.applications && IsListing(t.definitions, t.applications[id].service, listing)
            && AfterApprove(t, id, target, listing).Ok? ==>
      && Climbs(t, AfterApprove(t, id, target, listing).value, id, target)
      && var h := (t.applications[id].account, t.applications[id].service);
         t.definitions[t.assignments[h].definition].sortOrder <= t.definitions[target].sortOrder
  {
    if id !in t.applications || AfterApprove(t, id, target, listing).Err?
       || !IsListing(t.definitions, t.applications[id].service, listing) { return; }
    var a := t.applications[id];
    var h := (a.account, a.service);
    UpgradeIsRankOrder(t.definitions, a.service, listing, t.assignments[h].definition, target);
    EnqueueOne(t.(assignments := t.assignments[h := Assignment(target, Active)],
                  applications := t.applications[id := a.(status := Approved, target := Some(target))]), a.service,
               PermissionUpdated(a.account, Some(t.definitions[target].key), Effective(t, h), ByApproval));
  }

  /** Exactly a pending application is rejected, with an event that names what it asked for; no permission changes. */
  lemma RejectedExactly(t: Tables, id: ApplicationId)
    ensures var r := AfterReject(t, id);
      && (r.Ok? <==> id in t.applications && t.applications[id].status == Pending)
      && (r.Ok? ==>
            var a := t.applications[id];
            && r.value.applications == t.applications[id := a.(status := Rejected)] && r.value.assignments == t.assignments
            && Logs(t, r.value, a.service, RejectedKind,
                    ApplicationRejected(a.account, id, if a.target.Some? && a.target.value in t.definitions
                                                       then Some(t.definitions[a.target.value].key) else None)))
      && (r.Err? ==> r.error == if id !in t.applications then ApplicationNotFound else ApplicationNotPending)
  {
    if id in t.applications {
      var a := t.applications[id];
      EnqueueOne(t.(applications := t.applications[id := a.(status := Rejected)]), a.service,
                 ApplicationRejected(a.account, id, if a.target.Some? && a.target.value in t.definitions
                                                    then Some(t.definitions[a.target.value].key) else None));
    }
  }

  /**
   * With distinct ranks a request is accepted exactly when account and service are active, the token names the
   * permission in use that the account actively holds, and the requested key, which only a visitor may leave out, is
   * that of a permission in use above it, other than visitor and superadmin.
   */
  lemma AppliesExactly(t: Tables, account: AccountId, service: ServiceId, claimed: Key, requested: Option<Key>,
                       newId: ApplicationId, listing: seq<DefinitionId>)
    requires KeysUnique(t) && IsListing(t.definitions, service, listing) && RanksDistinct(t.definitions, service)
    ensures var h := (account, service);
      AfterApply(t, account, service, claimed, requested, newId, listing).Ok? <==>
        && account in t.accounts && t.accounts[account].active && service in t.services && t.services[service]
        && HoldsInUse(t, h)
        && var d := t.definitions[t.assignments[h].definition];
           && claimed == d.key
           && (requested == None ==> d.key == "visitor")
           && (requested.Some? ==>
                 && requested.value != "visitor" && requested.value != "superadmin"
                 && d.service == service && d.key != "superadmin"
                 && exists id | id in t.definitions ::
                      var e := t.definitions[id];
                      && e.service == service && e.key == requested.value && e.status == InUse
                      && (d.sortOrder < e.sortOrder || (d.sortOrder == e.sortOrder && d.createdAt < e.createdAt)))
    ensures var h, r := (account, service), AfterApply(t, account, service, claimed, requested, newId, listing);
      r.Err? ==>
        if account !in t.accounts || !t.accounts[account].active then r.error == AccountNotFound
        else if service !in t.services || !t.services[service] then r.error == ServiceNotFound
        else if !HoldsInUse(t, h) then r.error == NoCurrentPermission
        else if claimed != t.definitions[t.assignments[h].definition].key then r.error == StaleToken
        else if requested == None then r.error == RequestRequired
        else if requested.value == "visitor" || requested.value == "superadmin" || !KeyInUse(t, service, requested.value)
        then r.error == NotRequestable
        else r.error == NotAnUpgrade
  {
    var h := (account, service);
    if HoldsInUse(t, h) && requested.Some? {
      var found := FindByKey(t, service, requested.value);
      assert found.Some? ==> Owned(t, service, found.value) && t.definitions[found.value].key == requested.value;
      forall id | id in t.definitions && t.definitions[id].service == service && t.definitions[id].key == requested.value
        ensures found == Some(id)
      {
        assert Owned(t, service, id);
      }
      if found.Some? {
        UpgradeIsRankOrder(t.definitions, service, listing, t.assignments[h].definition, found.value);
      }
    }
  }

  /** An accepted request leaves one pending application of the account, with the requested target. */
  lemma ApplicationIsKept(t: Tables, account: AccountId, service: ServiceId, claimed: Key, requested: Option<Key>,
                          newId: ApplicationId, listing: seq<DefinitionId>)
    requires OnePending(t) && newId !in t.applications
    requires AfterApply(t, account, service, claimed, requested, newId, listing).Ok?
    ensures var h, t' := (account, service), AfterApply(t, account, service, claimed, requested, newId, listing).value;
      exists id ::
        && IsPending(t', h, id)
        && (requested.Some? ==>
              var target := t'.applications[id].target;
              target.Some? && target.value in t.definitions && t.definitions[target.value].key == requested.value)
        && (requested == None ==>
              t'.applications[id].target == if id in t.applications then t.applications[id].target else None)
        && t'.applications - {id} == t.applications - {id}
        && (id == newId <==> forall x :: !IsPending(t, h, x))
  {
    var h, t' := (account, service), AfterApply(t, account, service, claimed, requested, newId, listing).value;
    if requested.Some? {
      var found := FindByKey(t, service, requested.value);
      assert found.Some? ==> Owned(t, service, found.value) && t.definitions[found.value].key == requested.value;
    }
    var pending := FindPending(t, h);
    if pending.Some? {
      assert IsPending(t, h, pending.value) && IsPending(t', h, pending.value);
    } else {
      assert IsPending(t', h, newId);
    }
  }
}
