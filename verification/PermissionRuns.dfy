/** The event log over every run of permission changes: it replays to the permissions in force. */
module PermissionRuns {
  import opened Prelude
  import opened Permissions

  datatype Op =
    | Put(account: AccountId, service: ServiceId, definition: DefinitionId)
    | Revoke(account: AccountId, service: ServiceId)
    | FirstLogin(account: AccountId, service: ServiceId, newDefinition: DefinitionId, now: Time)
    | Create(service: ServiceId, newDefinition: DefinitionId, key: Key, sortOrder: int, now: Time)
    | SetStatus(service: ServiceId, definition: DefinitionId, status: DefinitionStatus)
    | Migrate(service: ServiceId, source: DefinitionId, target: DefinitionId, holders: seq<AccountId>)
    | Remove(service: ServiceId, definition: DefinitionId, moveTo: Option<DefinitionId>, holders: seq<AccountId>)
    | Approve(application: ApplicationId, target: DefinitionId, listing: seq<DefinitionId>)
    | Reject(application: ApplicationId)
    | Apply(account: AccountId, service: ServiceId, claimed: Key, requested: Option<Key>, newApplication: ApplicationId,
            listing: seq<DefinitionId>)
    | Subscribe(service: ServiceId, kinds: set<EventKind>)
    | Unsubscribe(service: ServiceId)

  /** Fresh ids for new rows, and query results that list what the query selects. */
  ghost predicate Legal(t: Tables, op: Op) {
    match op
    case FirstLogin(_, _, newDefinition, _) => newDefinition !in t.definitions
    case Create(_, newDefinition, _, _, _) => newDefinition !in t.definitions
    case Migrate(service, source, _, holders) => Lists(holders, ActiveHolders(t, service, source))
    case Remove(service, definition, _, holders) => Lists(holders, ActiveHolders(t, service, definition))
    case Approve(application, _, listing) =>
      application in t.applications ==> IsListing(t.definitions, t.applications[application].service, listing)
    case Apply(_, service, _, _, newApplication, listing) =>
      newApplication !in t.applications && IsListing(t.definitions, service, listing)
    case _ => true
  }

  ghost function Outcome(t: Tables, op: Op): Result<Tables, Error> {
    match op
    case Put(account, service, definition) => AfterPut(t, account, service, definition)
    case Revoke(account, service) => AfterRevoke(t, account, service)
    case FirstLogin(account, service, newDefinition, now) => AfterFirstLogin(t, account, service, newDefinition, now)
    case Create(service, newDefinition, key, sortOrder, now) => AfterCreate(t, service, newDefinition, key, sortOrder, now)
    case SetStatus(service, definition, status) => AfterSetStatus(t, service, definition, status)
    case Migrate(service, source, target, holders) => AfterMigrate(t, service, source, target, holders)
    case Remove(service, definition, target, holders) => AfterRemove(t, service, definition, target, holders)
    case Approve(application, target, listing) => AfterApprove(t, application, target, listing)
    case Reject(application) => AfterReject(t, application)
    case Apply(account, service, claimed, requested, newApplication, listing) =>
      AfterApply(t, account, service, claimed, requested, newApplication, listing)
    case Subscribe(service, kinds) => Ok(t.(subscribers := t.subscribers[service := kinds]))
    case Unsubscribe(service) => Ok(t.(subscribers := t.subscribers - {service}))
  }

  ghost function Next(t: Tables, op: Op): Tables {
    Settle(Outcome(t, op), t)
  }

  ghost function Run(t: Tables, ops: seq<Op>): Tables {
    if ops == [] then t else Next(Run(t, ops[..|ops| - 1]), ops[|ops| - 1])
  }

  ghost predicate LegalRun(t: Tables, ops: seq<Op>) {
    ops == [] || (LegalRun(t, ops[..|ops| - 1]) && Legal(Run(t, ops[..|ops| - 1]), ops[|ops| - 1]))
  }

  // ---------------------------------------------------------------- the invariant

  /** Assignments point to a definition of their own service, and `suspended` is never written. */
  ghost predicate AssignmentOk(t: Tables, h: Holder)
    requires h in t.assignments
  {
    Owned(t, h.1, t.assignments[h].definition) && t.assignments[h].status != Suspended
  }

  ghost predicate Inv(t: Tables) {
    KeysUnique(t) && forall h | h in t.assignments :: AssignmentOk(t, h)
  }

  /** Definitions keep service and key, and a new one has a key of its own. */
  ghost predicate Evolves(t: Tables, t': Tables) {
    && (forall id | id in t.definitions :: id in t'.definitions
          && t'.definitions[id].service == t.definitions[id].service && t'.definitions[id].key == t.definitions[id].key)
    && (forall a, b | a in t'.definitions && a !in t.definitions && b in t'.definitions && a != b ::
          t'.definitions[a].service != t'.definitions[b].service || t'.definitions[a].key != t'.definitions[b].key)
  }

  lemma EnsureEvolves(t: Tables, service: ServiceId, newId: DefinitionId, now: Time)
    requires newId !in t.definitions
    ensures var r := AfterEnsureSuperadmin(t, service, newId, now);
      Evolves(t, r.0) && Owned(r.0, service, r.1) && r.0.assignments == t.assignments
  {
  }

  lemma FirstLoginEvolves(t: Tables, account: AccountId, service: ServiceId, newId: DefinitionId, now: Time)
    requires newId !in t.definitions
    ensures var r := AfterFirstLogin(t, account, service, newId, now);
      r.Ok? ==> && Evolves(t, r.value)
                && (forall h | h in r.value.assignments && h !in t.assignments ::
                      Owned(r.value, h.1, r.value.assignments[h].definition) && r.value.assignments[h].status == Active)
                && (forall h | h in t.assignments :: h in r.value.assignments && r.value.assignments[h] == t.assignments[h])
  {
    EnsureEvolves(t, service, newId, now);
  }

  /** What the steps other than a first login do to definitions and assignments. */
  ghost predicate Redefines(t: Tables, t': Tables, id: DefinitionId, status: DefinitionStatus) {
    id in t.definitions && t'.definitions == t.definitions[id := t.definitions[id].(status := status)]
  }

  lemma OthersEvolve(t: Tables, op: Op)
    requires Legal(t, op) && !op.FirstLogin?
    ensures Evolves(t, Next(t, op))
  {
    var t' := Next(t, op);
    assert op.Create? || t'.definitions == t.definitions || (exists id, status :: Redefines(t, t', id, status)) by {
      if op.SetStatus? && Outcome(t, op).Ok? { assert Redefines(t, t', op.definition, op.status); }
      if op.Migrate? && Outcome(t, op).Ok? { assert Redefines(t, t', op.source, Permissions.Removed); }
      if op.Remove? && Outcome(t, op).Ok? { assert Redefines(t, t', op.definition, Permissions.Removed); }
    }
  }

  lemma EvolvesKeepsKeys(t: Tables, t': Tables)
    requires KeysUnique(t) && Evolves(t, t')
    ensures KeysUnique(t')
  {
  }

  lemma OthersKeepAssignment(t: Tables, op: Op, h: Holder)
    requires !op.FirstLogin? && h in Next(t, op).assignments && Evolves(t, Next(t, op))
    requires h in t.assignments ==> AssignmentOk(t, h)
    ensures AssignmentOk(Next(t, op), h)
  {
    OthersAssignOwned(t, op, h);
    hide Next;
    if h in t.assignments { assert AssignmentOk(t, h); }
  }

  /** An assignment is left alone, or written for a definition of its service, and never as `suspended`. */
  lemma OthersAssignOwned(t: Tables, op: Op, h: Holder)
    requires !op.FirstLogin? && h in Next(t, op).assignments
    ensures var row := Next(t, op).assignments[h];
      (h in t.assignments && (row.definition == t.assignments[h].definition || Owned(t, h.1, row.definition))
       && (row.status == t.assignments[h].status || row.status != Suspended))
      || (Owned(t, h.1, row.definition) && row.status != Suspended)
  {
  }

  lemma StepEvolves(t: Tables, op: Op)
    requires Legal(t, op)
    ensures Evolves(t, Next(t, op))
  {
    if op.FirstLogin? {
      FirstLoginEvolves(t, op.account, op.service, op.newDefinition, op.now);
    } else {
      OthersEvolve(t, op);
    }
  }

  lemma StepKeepsAssignments(t: Tables, op: Op, h: Holder)
    requires Legal(t, op) && h in Next(t, op).assignments
    requires h in t.assignments ==> AssignmentOk(t, h)
    ensures AssignmentOk(Next(t, op), h)
  {
    if op.FirstLogin? {
      FirstLoginEvolves(t, op.account, op.service, op.newDefinition, op.now);
    } else {
      OthersEvolve(t, op);
      OthersKeepAssignment(t, op, h);
    }
  }

  lemma StepKeepsInv(t: Tables, op: Op)
    requires Inv(t) && Legal(t, op)
    ensures Inv(Next(t, op))
  {
    StepEvolves(t, op);
    EvolvesKeepsKeys(t, Next(t, op));
    forall h | h in Next(t, op).assignments ensures AssignmentOk(Next(t, op), h) { StepKeepsAssignments(t, op, h); }
  }

  lemma {:induction false} RunKeepsInv(t: Tables, ops: seq<Op>)
    requires Inv(t) && LegalRun(t, ops)
    ensures Inv(Run(t, ops))
  {
    if ops != [] {
      RunKeepsInv(t, ops[..|ops| - 1]);
      StepKeepsInv(Run(t, ops[..|ops| - 1]), ops[|ops| - 1]);
    }
  }

  lemma StepKeepsOnePending(t: Tables, op: Op)
    requires OnePending(t) && Legal(t, op)
    ensures OnePending(Next(t, op))
  {
    if op.Apply? {
      ApplyKeepsOnePending(t, op.account, op.service, op.claimed, op.requested, op.newApplication, op.listing);
    } else {
      var t' := Next(t, op);
      assert t'.applications.Keys == t.applications.Keys;
      forall id | id in t.applications
        ensures t'.applications[id].account == t.applications[id].account
        ensures t'.applications[id].service == t.applications[id].service
        ensures t'.applications[id].status == Pending ==> t.applications[id].status == Pending
      {
      }
      assert forall id, h: Holder :: IsPending(t', h, id) ==> IsPending(t, h, id);
    }
  }

  lemma ApplyKeepsOnePending(t: Tables, account: AccountId, service: ServiceId, claimed: Key, requested: Option<Key>,
                             newId: ApplicationId, listing: seq<DefinitionId>)
    requires OnePending(t) && newId !in t.applications
    ensures OnePending(Settle(AfterApply(t, account, service, claimed, requested, newId, listing), t))
  {
    var t' := Settle(AfterApply(t, account, service, claimed, requested, newId, listing), t);
    assert forall id, h: Holder :: IsPending(t', h, id) && id != newId ==> IsPending(t, h, id);
  }

  // ---------------------------------------------------------------- one step, one event

  /** The permission events of one holder, in log order. */
  function EventsOf(log: seq<Entry>, h: Holder): seq<Event> {
    if log == [] then []
    else
      var n := |log| - 1;
      EventsOf(log[..n], h)
        + (if log[n].service == h.1 && log[n].event.PermissionUpdated? && log[n].event.account == h.0 then [log[n].event] else [])
  }

  lemma {:induction false} EventsOfConcat(a: seq<Entry>, b: seq<Entry>, h: Holder)
    ensures EventsOf(a + b, h) == EventsOf(a, h) + EventsOf(b, h)
  {
    if b == [] {
      assert a + b == a;
    } else {
      var n := |b| - 1;
      EventsOfConcat(a, b[..n], h);
      assert (a + b)[..|a + b| - 1] == a + b[..n];
    }
  }

  predicate Concerns(event: Event, h: Holder) {
    event.PermissionUpdated? && event.account == h.0
  }

  predicate Subscribed(t: Tables, service: ServiceId) {
    service in t.subscribers && UpdatedKind in t.subscribers[service]
  }

  /** The events an enqueue adds for a holder of the same, subscribed service. */
  lemma {:induction false} WantedEvents(kinds: set<EventKind>, service: ServiceId, events: seq<Event>, h: Holder)
    requires UpdatedKind in kinds
    ensures h.1 == service ==> EventsOf(Wanted(kinds, service, events), h) == Concerning(events, h)
    ensures h.1 != service ==> EventsOf(Wanted(kinds, service, events), h) == []
  {
    if events != [] {
      var n := |events| - 1;
      WantedEvents(kinds, service, events[..n], h);
      var last := if KindOf(events[n]) in kinds then [Entry(service, events[n])] else [];
      EventsOfConcat(Wanted(kinds, service, events[..n]), last, h);
      assert last != [] ==> last[..0] == [];
    }
  }

  function Concerning(events: seq<Event>, h: Holder): seq<Event> {
    if events == [] then []
    else Concerning(events[..|events| - 1], h) + (if Concerns(events[|events| - 1], h) then [events[|events| - 1]] else [])
  }

  lemma {:induction false} OtherServiceEvents(kinds: set<EventKind>, service: ServiceId, events: seq<Event>, h: Holder)
    requires h.1 != service
    ensures EventsOf(Wanted(kinds, service, events), h) == []
  {
    if events != [] {
      var n := |events| - 1;
      OtherServiceEvents(kinds, service, events[..n], h);
      var last := if KindOf(events[n]) in kinds then [Entry(service, events[n])] else [];
      EventsOfConcat(Wanted(kinds, service, events[..n]), last, h);
      assert last != [] ==> last[..0] == [];
    }
  }

  lemma EnqueueAdds(t: Tables, service: ServiceId, events: seq<Event>, h: Holder)
    requires Subscribed(t, h.1)
    ensures EventsOf(Enqueue(t, service, events).log, h)
         == EventsOf(t.log, h) + (if h.1 == service then Concerning(events, h) else [])
  {
    if service in t.subscribers {
      EventsOfConcat(t.log, Wanted(t.subscribers[service], service, events), h);
      if h.1 == service {
        WantedEvents(t.subscribers[service], service, events, h);
      } else {
        OtherServiceEvents(t.subscribers[service], service, events, h);
      }
    }
  }

  lemma {:induction false} MigrationConcerns(holders: seq<AccountId>, from: Key, to: Key, h: Holder)
    requires forall i, j | 0 <= i < j < |holders| :: holders[i] != holders[j]
    ensures Concerning(MigrationEvents(holders, from, to), h)
         == if h.0 in holders then [PermissionUpdated(h.0, Some(to), Some(from), ByChange)] else []
  {
    if holders != [] {
      var n := |holders| - 1;
      MigrationConcerns(holders[..n], from, to, h);
      assert MigrationEvents(holders, from, to)[..n] == MigrationEvents(holders[..n], from, to);
      assert holders == holders[..n] + [holders[n]];
    }
  }

  /** The step is the first login that created the row of `h`. */
  ghost predicate GrantsFirst(t: Tables, op: Op, h: Holder) {
    op.FirstLogin? && h !in t.assignments && h in Next(t, op).assignments
  }

  /** What the step must add to the log for `h`: nothing if nothing changed, otherwise the change. */
  ghost predicate Reports(t: Tables, t': Tables, h: Holder) {
    var before, after := Effective(t, h), Effective(t', h);
    if before == after then EventsOf(t'.log, h) == EventsOf(t.log, h)
    else exists reason ::
      EventsOf(t'.log, h) == EventsOf(t.log, h) + [PermissionUpdated(h.0, after, before, reason)]
  }

  lemma PutReports(t: Tables, account: AccountId, service: ServiceId, id: DefinitionId, h: Holder)
    requires Subscribed(t, h.1) && AfterPut(t, account, service, id).Ok?
    ensures Reports(t, AfterPut(t, account, service, id).value, h)
  {
    var holder, key := (account, service), t.definitions[id].key;
    var saved := t.(assignments := t.assignments[holder := Assignment(id, Active)]);
    if Effective(t, holder) == Some(key) {
      assert AfterPut(t, account, service, id).value == saved;
    } else {
      var event := PermissionUpdated(account, Some(key), Effective(t, holder), ByChange);
      assert AfterPut(t, account, service, id).value == Enqueue(saved, service, [event]);
      SavedThenReported(t, saved, service, event, holder, h);
    }
  }

  /** A change of one holder, saved and then enqueued as one event. */
  lemma SavedThenReported(t: Tables, saved: Tables, service: ServiceId, event: Event, holder: Holder, h: Holder)
    requires Subscribed(t, h.1) && saved.subscribers == t.subscribers && saved.log == t.log
    requires holder.1 == service && event.PermissionUpdated? && event.account == holder.0
    requires event.previous == Effective(t, holder) && event.permission == Effective(saved, holder)
    requires event.previous != event.permission
    requires h != holder ==> Effective(saved, h) == Effective(t, h)
    ensures Reports(t, Enqueue(saved, service, [event]), h)
  {
    var t' := Enqueue(saved, service, [event]);
    EnqueueAdds(saved, service, [event], h);
    OneEvent(event, h);
    assert Effective(t', h) == Effective(saved, h);
  }

  lemma OneEvent(event: Event, h: Holder)
    ensures Concerning([event], h) == if Concerns(event, h) then [event] else []
  {
    assert [event][..0] == [];
  }

  lemma RevokeReports(t: Tables, account: AccountId, service: ServiceId, h: Holder)
    requires Subscribed(t, h.1) && AfterRevoke(t, account, service).Ok?
    requires AssignmentOk(t, (account, service))
    ensures Reports(t, AfterRevoke(t, account, service).value, h)
  {
    var holder := (account, service);
    var row := t.assignments[holder];
    if row.status != Permissions.Revoked {
      var saved := t.(assignments := t.assignments[holder := row.(status := Permissions.Revoked)]);
      var event := PermissionUpdated(account, None, Some(t.definitions[row.definition].key), ByRevocation);
      SavedThenReported(t, saved, service, event, holder, h);
    }
  }

  lemma KeysDiffer(t: Tables, a: DefinitionId, b: DefinitionId)
    requires KeysUnique(t) && a in t.definitions && b in t.definitions && a != b
    requires t.definitions[a].service == t.definitions[b].service
    ensures t.definitions[a].key != t.definitions[b].key
  {
  }

  lemma ApproveReports(t: Tables, id: ApplicationId, target: DefinitionId, listing: seq<DefinitionId>, h: Holder)
    requires Subscribed(t, h.1) && AfterApprove(t, id, target, listing).Ok?
    requires KeysUnique(t) && AssignmentOk(t, (t.applications[id].account, t.applications[id].service))
    ensures Reports(t, AfterApprove(t, id, target, listing).value, h)
  {
    var application := t.applications[id];
    var holder := (application.account, application.service);
    KeysDiffer(t, target, t.assignments[holder].definition);
    var saved := t.(assignments := t.assignments[holder := Assignment(target, Active)],
                    applications := t.applications[id := application.(status := Approved, target := Some(target))]);
    var event := PermissionUpdated(application.account, Some(t.definitions[target].key), Effective(t, holder), ByApproval);
    SavedThenReported(t, saved, application.service, event, holder, h);
  }

  lemma MigrateReports(t: Tables, service: ServiceId, source: DefinitionId, target: DefinitionId,
                       holders: seq<AccountId>, h: Holder)
    requires KeysUnique(t) && Subscribed(t, h.1) && Lists(holders, ActiveHolders(t, service, source))
    requires h in t.assignments ==> AssignmentOk(t, h)
    requires AfterMigrate(t, service, source, target, holders).Ok?
    ensures Reports(t, AfterMigrate(t, service, source, target, holders).value, h)
  {
    var from, to := t.definitions[source].key, t.definitions[target].key;
    KeysDiffer(t, source, target);
    var moved := t.(assignments := Reassigned(t.assignments, service, source, target),
                    definitions := t.definitions[source := t.definitions[source].(status := Permissions.Removed)]);
    EnqueueAdds(moved, service, MigrationEvents(holders, from, to), h);
    MigrationConcerns(holders, from, to, h);
    if h.1 == service {
      assert h.0 in holders <==> h.0 in ActiveHolders(t, service, source);
      assert h.0 in ActiveHolders(t, service, source) <==> h in t.assignments && t.assignments[h] == Assignment(source, Active);
    }
  }

  lemma RejectReports(t: Tables, id: ApplicationId, h: Holder)
    requires Subscribed(t, h.1) && AfterReject(t, id).Ok?
    ensures Reports(t, AfterReject(t, id).value, h)
  {
    var application := t.applications[id];
    var requested := if application.target.Some? && application.target.value in t.definitions
                     then Some(t.definitions[application.target.value].key) else None;
    var event := ApplicationRejected(application.account, id, requested);
    EnqueueAdds(t.(applications := t.applications[id := application.(status := Rejected)]), application.service, [event], h);
    OneEvent(event, h);
  }

  /** A step that keeps the log, the holder's assignment and the keys changes nothing to report. */
  lemma SilenceReports(t: Tables, t': Tables, h: Holder)
    requires t'.log == t.log && (h in t.assignments ==> AssignmentOk(t, h))
    requires (h in t'.assignments <==> h in t.assignments) && (h in t.assignments ==> t'.assignments[h] == t.assignments[h])
    requires forall id | id in t.definitions :: id in t'.definitions && t'.definitions[id].key == t.definitions[id].key
    ensures Reports(t, t', h)
  {
  }

  lemma QuietStepReports(t: Tables, op: Op, h: Holder)
    requires Legal(t, op) && !GrantsFirst(t, op, h)
    requires h in t.assignments ==> AssignmentOk(t, h)
    requires op.FirstLogin? || op.Create? || op.SetStatus? || op.Apply? || op.Subscribe? || op.Unsubscribe?
    ensures Reports(t, Next(t, op), h)
  {
    if op.FirstLogin? {
      FirstLoginIsSilent(t, op.account, op.service, op.newDefinition, op.now, h);
    } else {
      SilenceReports(t, Next(t, op), h);
    }
  }

  /** The first login reports nothing, and changes nothing to report for any other holder. */
  lemma FirstLoginIsSilent(t: Tables, account: AccountId, service: ServiceId, newId: DefinitionId, now: Time, h: Holder)
    requires newId !in t.definitions && (h in t.assignments ==> AssignmentOk(t, h))
    requires h in t.assignments || h != (account, service) || AfterFirstLogin(t, account, service, newId, now).Err?
    ensures Reports(t, Settle(AfterFirstLogin(t, account, service, newId, now), t), h)
  {
    EnsureEvolves(t, service, newId, now);
    SilenceReports(t, Settle(AfterFirstLogin(t, account, service, newId, now), t), h);
  }

  /**
   * A step other than the first-login grant adds an event for a subscribed holder exactly when it changes
   * the holder's effective permission, and the event carries the permission before and after.
   */
  lemma StepReportsTheChange(t: Tables, op: Op, h: Holder)
    requires Inv(t) && Legal(t, op) && Subscribed(t, h.1) && !GrantsFirst(t, op, h)
    ensures Reports(t, Next(t, op), h)
  {
    if h in t.assignments { assert AssignmentOk(t, h); }
    if Outcome(t, op).Ok? {
      match op
      case Put(account, service, definition) => PutReports(t, account, service, definition, h);
      case Revoke(account, service) => RevokeReports(t, account, service, h);
      case Approve(application, target, listing) => ApproveReports(t, application, target, listing, h);
      case Migrate(service, source, target, holders) => MigrateReports(t, service, source, target, holders, h);
      case Remove(service, definition, target, holders) =>
        if ActiveHolders(t, service, definition) != {} {
          MigrateReports(t, service, definition, target.value, holders, h);
        }
      case Reject(application) => RejectReports(t, application, h);
      case _ => QuietStepReports(t, op, h);
    }
  }

  // ---------------------------------------------------------------- the log replays

  /**
   * The first event starts from `from`, each continues where the one before ended, the last ends in `to`,
   * and each changes something.
   */
  ghost predicate Chain(from: Option<Key>, events: seq<Event>, to: Option<Key>) {
    if events == [] then from == to
    else
      var last := events[|events| - 1];
      last.PermissionUpdated? && last.permission == to && last.previous != to
      && Chain(from, events[..|events| - 1], last.previous)
  }

  /** Replaying the log: the last event wins. */
  function Replay(from: Option<Key>, events: seq<Event>): Option<Key> {
    if events == [] then from
    else
      var last := events[|events| - 1];
      if last.PermissionUpdated? then last.permission else Replay(from, events[..|events| - 1])
  }

  /** The permission at the start of the run, or the one the first login granted. */
  ghost function Origin(t: Tables, ops: seq<Op>, h: Holder): Option<Key> {
    if ops == [] then Effective(t, h)
    else
      var before := ops[..|ops| - 1];
      if GrantsFirst(Run(t, before), ops[|ops| - 1], h) then Effective(Run(t, ops), h) else Origin(t, before, h)
  }

  ghost predicate StaysSubscribed(t: Tables, ops: seq<Op>, service: ServiceId) {
    Subscribed(t, service) && (ops == [] || (StaysSubscribed(t, ops[..|ops| - 1], service) && Subscribed(Run(t, ops), service)))
  }

  lemma StaysSubscribedAtEnd(t: Tables, ops: seq<Op>, service: ServiceId)
    requires StaysSubscribed(t, ops, service)
    ensures Subscribed(Run(t, ops), service)
  {
  }

  lemma HoldersRemain(t: Tables, op: Op, h: Holder)
    requires h in t.assignments
    ensures h in Next(t, op).assignments
  {
  }

  lemma FirstLoginIsQuiet(t: Tables, op: Op, h: Holder)
    requires Legal(t, op) && GrantsFirst(t, op, h)
    ensures Next(t, op).log == t.log && Effective(t, h) == None
  {
  }

  /** The events the run has added for `h` so far, and that they chain from the origin to the present. */
  ghost predicate Chained(t: Tables, ops: seq<Op>, h: Holder, added: seq<Event>) {
    && EventsOf(Run(t, ops).log, h) == EventsOf(t.log, h) + added
    && Chain(Origin(t, ops, h), added, Effective(Run(t, ops), h))
    && (h !in Run(t, ops).assignments ==> added == [])
  }

  lemma ChainGrows(t: Tables, ops: seq<Op>, op: Op, h: Holder, added: seq<Event>) returns (more: seq<Event>)
    requires Inv(t) && LegalRun(t, ops + [op]) && StaysSubscribed(t, ops + [op], h.1)
    requires Chained(t, ops, h, added)
    ensures Chained(t, ops + [op], h, more)
  {
    var all := ops + [op];
    assert all[..|all| - 1] == ops;
    RunKeepsInv(t, ops);
    StaysSubscribedAtEnd(t, ops, h.1);
    var now := Run(t, ops);
    var next := Next(now, op);
    if h in now.assignments { HoldersRemain(now, op, h); }
    if GrantsFirst(now, op, h) {
      FirstLoginIsQuiet(now, op, h);
      more := added;
    } else {
      StepReportsTheChange(now, op, h);
      if Effective(now, h) == Effective(next, h) {
        more := added;
      } else {
        var reason :| EventsOf(next.log, h) ==
          EventsOf(now.log, h) + [PermissionUpdated(h.0, Effective(next, h), Effective(now, h), reason)];
        more := added + [PermissionUpdated(h.0, Effective(next, h), Effective(now, h), reason)];
        assert more[..|more| - 1] == added;
        assert EventsOf(t.log, h) + added + [more[|added|]] == EventsOf(t.log, h) + more;
      }
    }
  }

  lemma {:induction false} RunChains(t: Tables, ops: seq<Op>, h: Holder) returns (added: seq<Event>)
    requires Inv(t) && LegalRun(t, ops) && StaysSubscribed(t, ops, h.1)
    ensures Chained(t, ops, h, added)
  {
    if ops == [] {
      added := [];
    } else {
      var before := RunChains(t, ops[..|ops| - 1], h);
      assert ops[..|ops| - 1] + [ops[|ops| - 1]] == ops;
      added := ChainGrows(t, ops[..|ops| - 1], ops[|ops| - 1], h, before);
    }
  }

  /**
   * While a service stays subscribed, the events the run adds for an account chain without a gap from its
   * origin, and replaying them over the origin gives exactly its current effective permission.
   */
  lemma LogReplaysToThePresent(t: Tables, ops: seq<Op>, h: Holder)
    requires Inv(t) && LegalRun(t, ops) && StaysSubscribed(t, ops, h.1)
    ensures EventsOf(t.log, h) <= EventsOf(Run(t, ops).log, h)
    ensures var added := EventsOf(Run(t, ops).log, h)[|EventsOf(t.log, h)|..];
      && Chain(Origin(t, ops, h), added, Effective(Run(t, ops), h))
      && Replay(Origin(t, ops, h), added) == Effective(Run(t, ops), h)
  {
    var added := RunChains(t, ops, h);
    assert EventsOf(Run(t, ops).log, h)[|EventsOf(t.log, h)|..] == added;
  }

  lemma {:induction false} HoldersRemainHolders(t: Tables, ops: seq<Op>, i: nat, h: Holder)
    requires i <= |ops| && h in Run(t, ops[..i]).assignments
    ensures h in Run(t, ops).assignments
  {
    if i == |ops| {
      assert ops[..i] == ops;
    } else {
      var before := ops[..|ops| - 1];
      assert before[..i] == ops[..i];
      HoldersRemainHolders(t, before, i, h);
      HoldersRemain(Run(t, before), ops[|ops| - 1], h);
    }
  }

  /** An account gets at most one first-login grant for a service. */
  lemma FirstGrantHappensOnce(t: Tables, ops: seq<Op>, i: nat, j: nat, h: Holder)
    requires i < |ops| && j < |ops|
    requires GrantsFirst(Run(t, ops[..i]), ops[i], h) && GrantsFirst(Run(t, ops[..j]), ops[j], h)
    ensures i == j
  {
    if i < j { NoGrantAfter(t, ops, i, j, h); }
    if j < i { NoGrantAfter(t, ops, j, i, h); }
  }

  lemma NoGrantAfter(t: Tables, ops: seq<Op>, i: nat, j: nat, h: Holder)
    requires i < j < |ops| && GrantsFirst(Run(t, ops[..i]), ops[i], h)
    ensures !GrantsFirst(Run(t, ops[..j]), ops[j], h)
  {
    var upTo := ops[..i + 1];
    assert upTo[..|upTo| - 1] == ops[..i];
    assert ops[..j][..i + 1] == upTo;
    HoldersRemainHolders(t, ops[..j], i + 1, h);
  }

  /** A row that exists fixes its origin. */
  lemma {:induction false} OriginIsFixed(t: Tables, ops: seq<Op>, h: Holder)
    requires h in t.assignments
    ensures h in Run(t, ops).assignments && Origin(t, ops, h) == Effective(t, h)
  {
    if ops != [] {
      OriginIsFixed(t, ops[..|ops| - 1], h);
      HoldersRemain(Run(t, ops[..|ops| - 1]), ops[|ops| - 1], h);
    }
  }
}
