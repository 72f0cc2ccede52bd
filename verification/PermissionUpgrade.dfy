/**
 * The strict-upgrade check over the filtered, sorted list of definitions:
 * src/domain/service-applications/service-applications.service.ts.
 */
module PermissionUpgrade {
  import opened Prelude
  import opened Permissions
  import opened PermissionRuns

  /** Comparable definitions: of the service, in use, and not superadmin. */
  ghost predicate Comparable(definitions: map<DefinitionId, Definition>, service: ServiceId, id: DefinitionId) {
    id in definitions && definitions[id].service == service && definitions[id].status == InUse && definitions[id].key != "superadmin"
  }

  ghost predicate RanksDistinct(definitions: map<DefinitionId, Definition>, service: ServiceId) {
    forall a, b | Comparable(definitions, service, a) && Comparable(definitions, service, b) && a != b ::
      definitions[a].sortOrder != definitions[b].sortOrder || definitions[a].createdAt != definitions[b].createdAt
  }

  ghost predicate Sorted(definitions: map<DefinitionId, Definition>, xs: seq<DefinitionId>) {
    && (forall i | 0 <= i < |xs| :: xs[i] in definitions)
    && (forall i, j | 0 <= i < j < |xs| :: !RankBelow(definitions[xs[j]], definitions[xs[i]]) && xs[i] != xs[j])
  }

  lemma {:induction false} RequestableKeepsOrder(definitions: map<DefinitionId, Definition>, xs: seq<DefinitionId>)
    requires Sorted(definitions, xs)
    ensures Sorted(definitions, Requestable(definitions, xs))
    ensures forall x :: x in Requestable(definitions, xs) <==> x in xs && definitions[x].key != "superadmin"
  {
    if xs != [] {
      RequestableKeepsOrder(definitions, xs[1..]);
      var rest := Requestable(definitions, xs[1..]);
      var ys := Requestable(definitions, xs);
      assert xs == [xs[0]] + xs[1..];
      if ys != rest {
        forall j | 0 < j < |ys| ensures !RankBelow(definitions[ys[j]], definitions[ys[0]]) && ys[0] != ys[j] {
          assert ys[j] == rest[j - 1] && rest[j - 1] in rest;
          var k :| 0 <= k < |xs[1..]| && xs[1..][k] == ys[j];
          assert xs[k + 1] == ys[j];
        }
      }
    }
  }

  lemma {:induction false} FindIndexFinds(xs: seq<DefinitionId>, id: DefinitionId)
    ensures id in xs <==> FindIndex(xs, id) >= 0
    ensures id in xs ==> FindIndex(xs, id) < |xs| && xs[FindIndex(xs, id)] == id
  {
    if xs != [] && xs[0] != id {
      FindIndexFinds(xs[1..], id);
      assert xs == [xs[0]] + xs[1..];
    }
  }

  /**
   * Whatever order the database lists ties in, the index comparison never goes down in rank; with distinct
   * ranks it is exactly the strict lexicographic order on (sortOrder, createdAt) among comparable definitions.
   */
  lemma UpgradeIsRankOrder(definitions: map<DefinitionId, Definition>, service: ServiceId, listing: seq<DefinitionId>,
                           current: DefinitionId, requested: DefinitionId)
    requires IsListing(definitions, service, listing)
    ensures StrictUpgrade(definitions, listing, current, requested) ==>
      && Comparable(definitions, service, current) && Comparable(definitions, service, requested)
      && current != requested
      && var a, b := definitions[current], definitions[requested];
         a.sortOrder < b.sortOrder || (a.sortOrder == b.sortOrder && a.createdAt <= b.createdAt)
    ensures RanksDistinct(definitions, service) ==>
      (StrictUpgrade(definitions, listing, current, requested)
       <==> && Comparable(definitions, service, current) && Comparable(definitions, service, requested)
            && var a, b := definitions[current], definitions[requested];
               a.sortOrder < b.sortOrder || (a.sortOrder == b.sortOrder && a.createdAt < b.createdAt))
  {
    RequestableKeepsOrder(definitions, listing);
    var xs := Requestable(definitions, listing);
    FindIndexFinds(xs, current);
    FindIndexFinds(xs, requested);
    assert current in xs <==> Comparable(definitions, service, current);
    assert requested in xs <==> Comparable(definitions, service, requested);
  }

  // ---------------------------------------------------------------- ties

  /** One entry stands before another. */
  ghost predicate Before(xs: seq<DefinitionId>, a: DefinitionId, b: DefinitionId) {
    exists i, j :: 0 <= i < j < |xs| && xs[i] == a && xs[j] == b
  }

  lemma {:induction false} FilterKeepsBefore(definitions: map<DefinitionId, Definition>, xs: seq<DefinitionId>,
                                            a: DefinitionId, b: DefinitionId)
    requires forall x | x in xs :: x in definitions
    requires Before(xs, a, b) && definitions[a].key != "superadmin" && definitions[b].key != "superadmin"
    ensures Before(Requestable(definitions, xs), a, b)
  {
    var i, j :| 0 <= i < j < |xs| && xs[i] == a && xs[j] == b;
    var rest, all := Requestable(definitions, xs[1..]), Requestable(definitions, xs);
    if i == 0 {
      InRequestable(definitions, xs[1..], j - 1);
      var k :| 0 <= k < |rest| && rest[k] == b;
      assert all == [a] + rest && all[0] == a && all[k + 1] == b;
    } else {
      assert xs[1..][i - 1] == a && xs[1..][j - 1] == b;
      FilterKeepsBefore(definitions, xs[1..], a, b);
      var p, q :| 0 <= p < q < |rest| && rest[p] == a && rest[q] == b;
      if all != rest { assert all[p + 1] == a && all[q + 1] == b; }
    }
  }

  lemma {:induction false} InRequestable(definitions: map<DefinitionId, Definition>, xs: seq<DefinitionId>, i: nat)
    requires (forall x | x in xs :: x in definitions) && i < |xs| && definitions[xs[i]].key != "superadmin"
    ensures xs[i] in Requestable(definitions, xs)
  {
    if i > 0 { InRequestable(definitions, xs[1..], i - 1); }
  }

  lemma {:induction false} FindIndexOf(xs: seq<DefinitionId>, i: nat)
    requires i < |xs| && Distinct(xs)
    ensures FindIndex(xs, xs[i]) == i
  {
    if i > 0 { FindIndexOf(xs[1..], i - 1); }
  }

  /** Standing before is upgrading. */
  lemma BeforeIsUpgrade(definitions: map<DefinitionId, Definition>, service: ServiceId, listing: seq<DefinitionId>,
                        a: DefinitionId, b: DefinitionId)
    requires IsListing(definitions, service, listing) && Before(listing, a, b)
    requires Comparable(definitions, service, a) && Comparable(definitions, service, b)
    ensures StrictUpgrade(definitions, listing, a, b) && !StrictUpgrade(definitions, listing, b, a)
  {
    FilterKeepsBefore(definitions, listing, a, b);
    RequestableKeepsOrder(definitions, listing);
    var xs := Requestable(definitions, listing);
    var i, j :| 0 <= i < j < |xs| && xs[i] == a && xs[j] == b;
    FindIndexOf(xs, i);
    FindIndexOf(xs, j);
  }

  predicate Tied(d: Definition, e: Definition) { d.sortOrder == e.sortOrder && d.createdAt == e.createdAt }

  /** Exchanging two tied entries leaves a query result. */
  lemma ExchangeTied(definitions: map<DefinitionId, Definition>, service: ServiceId, listing: seq<DefinitionId>, i: nat, j: nat)
    requires IsListing(definitions, service, listing) && i < j < |listing|
    requires Tied(definitions[listing[i]], definitions[listing[j]])
    ensures IsListing(definitions, service, listing[i := listing[j]][j := listing[i]])
  {
    var other := listing[i := listing[j]][j := listing[i]];
    forall x ensures x in other <==> x in listing {
      if x in listing {
        var k :| 0 <= k < |listing| && listing[k] == x;
        assert other[if k == i then j else if k == j then i else k] == x;
      }
    }
  }

  lemma {:induction false} ListingOf(definitions: map<DefinitionId, Definition>, ids: set<DefinitionId>) returns (xs: seq<DefinitionId>)
    requires ids <= definitions.Keys
    ensures Lists(xs, ids)
    ensures forall i, j | 0 <= i < j < |xs| ::
      && xs[i] in definitions && xs[j] in definitions
      && !RankBelow(definitions[xs[j]], definitions[xs[i]])
    decreases ids
  {
    if ids == {} {
      xs := [];
    } else {
      FirstExists(definitions, RankBelow, ids);
      var first :| first in ids && IsFirst(definitions, RankBelow, ids, first);
      var rest := ListingOf(definitions, ids - {first});
      xs := [first] + rest;
      assert forall k | 0 <= k < |rest| :: rest[k] in ids - {first};
      assert forall other | other in ids :: !RankBelow(definitions[other], definitions[first]);
    }
  }

  lemma SomeListing(definitions: map<DefinitionId, Definition>, service: ServiceId) returns (listing: seq<DefinitionId>)
    ensures IsListing(definitions, service, listing)
  {
    listing := ListingOf(definitions, InUseIds(definitions, service));
    forall i | 0 <= i < |listing| ensures listing[i] in definitions { assert listing[i] in listing; }
  }

  /** Two tied definitions can each be an upgrade of the other, by the order in which the database lists them. */
  lemma TiesGoBothWays(definitions: map<DefinitionId, Definition>, service: ServiceId, a: DefinitionId, b: DefinitionId)
    returns (up: seq<DefinitionId>, down: seq<DefinitionId>)
    requires Comparable(definitions, service, a) && Comparable(definitions, service, b) && a != b
    requires Tied(definitions[a], definitions[b])
    ensures IsListing(definitions, service, up) && StrictUpgrade(definitions, up, a, b) && !StrictUpgrade(definitions, up, b, a)
    ensures IsListing(definitions, service, down) && StrictUpgrade(definitions, down, b, a) && !StrictUpgrade(definitions, down, a, b)
  {
    var listing := SomeListing(definitions, service);
    assert a in listing && b in listing;
    var i, j :| 0 <= i < |listing| && listing[i] == a && 0 <= j < |listing| && listing[j] == b;
    var lo, hi := if i < j then i else j, if i < j then j else i;
    var other := listing[lo := listing[hi]][hi := listing[lo]];
    ExchangeTied(definitions, service, listing, lo, hi);
    up, down := if i < j then listing else other, if i < j then other else listing;
    assert up[lo] == a && up[hi] == b && down[lo] == b && down[hi] == a;
    BeforeIsUpgrade(definitions, service, up, a, b);
    BeforeIsUpgrade(definitions, service, down, b, a);
  }

  /** All query results for the same data give the same answers. */
  ghost predicate Decided(definitions: map<DefinitionId, Definition>, service: ServiceId) {
    forall x, y, a, b | IsListing(definitions, service, x) && IsListing(definitions, service, y) ::
      StrictUpgrade(definitions, x, a, b) == StrictUpgrade(definitions, y, a, b)
  }

  /** The answer is the same for every query result and every pair exactly when the ranks are distinct. */
  lemma DecidedIffRanksDistinct(definitions: map<DefinitionId, Definition>, service: ServiceId)
    ensures Decided(definitions, service) <==> RanksDistinct(definitions, service)
  {
    if RanksDistinct(definitions, service) {
      forall x, y, a, b | IsListing(definitions, service, x) && IsListing(definitions, service, y)
        ensures StrictUpgrade(definitions, x, a, b) == StrictUpgrade(definitions, y, a, b)
      {
        UpgradeIsRankOrder(definitions, service, x, a, b);
        UpgradeIsRankOrder(definitions, service, y, a, b);
      }
    } else {
      var a, b :| Comparable(definitions, service, a) && Comparable(definitions, service, b) && a != b
        && Tied(definitions[a], definitions[b]);
      var up, down := TiesGoBothWays(definitions, service, a, b);
      assert StrictUpgrade(definitions, up, a, b) != StrictUpgrade(definitions, down, a, b);
    }
  }

  // ---------------------------------------------------------------- climbing

  /** Steps that leave the assignment of `h` to `approve`. */
  predicate LeavesAlone(t: Tables, op: Op, h: Holder) {
    match op
    case Put(account, service, _) => (account, service) != h
    case Revoke(account, service) => (account, service) != h
    case Migrate(service, _, _, _) => service != h.1
    case Remove(service, _, _, _) => service != h.1
    case _ => true
  }

  /** Only `approve` changes the assignment of `h`, and ranks stay distinct. */
  ghost predicate OnlyApprovals(t: Tables, ops: seq<Op>, h: Holder) {
    RanksDistinct(t.definitions, h.1)
    && (ops == [] ||
        (OnlyApprovals(t, ops[..|ops| - 1], h)
         && LeavesAlone(Run(t, ops[..|ops| - 1]), ops[|ops| - 1], h)
         && RanksDistinct(Run(t, ops).definitions, h.1)))
  }

  /** A definition other than superadmin keeps its rank for good. */
  lemma RankIsFixed(t: Tables, op: Op, id: DefinitionId)
    requires Legal(t, op) && id in t.definitions && t.definitions[id].key != "superadmin"
    ensures var t' := Next(t, op);
      id in t'.definitions && t'.definitions[id].sortOrder == t.definitions[id].sortOrder
      && t'.definitions[id].createdAt == t.definitions[id].createdAt && t'.definitions[id].key == t.definitions[id].key
  {
    if op.FirstLogin? { FirstLoginKeepsRanks(t, op.account, op.service, op.newDefinition, op.now, id); }
  }

  lemma FirstLoginKeepsRanks(t: Tables, account: AccountId, service: ServiceId, newId: DefinitionId, now: Time,
                             id: DefinitionId)
    requires newId !in t.definitions && id in t.definitions && t.definitions[id].key != "superadmin"
    ensures var r := AfterFirstLogin(t, account, service, newId, now);
      r.Ok? ==> id in r.value.definitions && r.value.definitions[id] == t.definitions[id]
  {
  }

  /** The second definition ranks above the first, by sort order and then by creation. */
  ghost predicate Higher(t: Tables, a: DefinitionId, b: DefinitionId) {
    && a in t.definitions && b in t.definitions
    && var d, e := t.definitions[a], t.definitions[b];
       d.sortOrder < e.sortOrder || (d.sortOrder == e.sortOrder && d.createdAt < e.createdAt)
  }

  /** Along such a step the held definition stays, or climbs to a strictly higher rank; superadmin is neither entered nor left. */
  lemma StepClimbs(t: Tables, op: Op, h: Holder)
    requires Inv(t) && Legal(t, op) && LeavesAlone(t, op, h) && h in t.assignments && RanksDistinct(t.definitions, h.1)
    ensures var t' := Next(t, op);
      && h in t'.assignments
      && (t'.assignments[h].definition == t.assignments[h].definition
          || (&& op.Approve?
              && Higher(t, t.assignments[h].definition, t'.assignments[h].definition)
              && t.definitions[t.assignments[h].definition].key != "superadmin"
              && t.definitions[t'.assignments[h].definition].key != "superadmin"))
  {
    HoldersRemain(t, op, h);
    if op.Approve? && Outcome(t, op).Ok? {
      var application := t.applications[op.application];
      UpgradeIsRankOrder(t.definitions, application.service, op.listing,
                         t.assignments[(application.account, application.service)].definition, op.target);
    }
  }

  /**
   * When only approvals change an assignment and ranks stay distinct, the held definition only climbs, even as
   * definitions are added or deprecated, and superadmin is neither entered nor left.
   */
  lemma {:induction false} ApprovalsOnlyClimb(t: Tables, ops: seq<Op>, h: Holder)
    requires Inv(t) && LegalRun(t, ops) && OnlyApprovals(t, ops, h) && h in t.assignments
    ensures var t' := Run(t, ops);
      && h in t'.assignments && t'.assignments[h].definition in t'.definitions
      && t.assignments[h].definition in t.definitions
      && (t'.assignments[h].definition == t.assignments[h].definition
          || (&& Higher(t', t.assignments[h].definition, t'.assignments[h].definition)
              && t.definitions[t.assignments[h].definition].key != "superadmin"
              && t'.definitions[t.assignments[h].definition].key != "superadmin"
              && t'.definitions[t'.assignments[h].definition].key != "superadmin"))
  {
    assert AssignmentOk(t, h);
    if ops != [] {
      var before, op := ops[..|ops| - 1], ops[|ops| - 1];
      ApprovalsOnlyClimb(t, before, h);
      RunKeepsInv(t, before);
      RunKeepsInv(t, ops);
      var now := Run(t, before);
      assert AssignmentOk(Run(t, ops), h) by { HoldersRemain(now, op, h); }
      RanksDistinctBefore(t, before, h);
      StepClimbs(now, op, h);
      var first, held := t.assignments[h].definition, now.assignments[h].definition;
      if now.definitions[held].key != "superadmin" { RankIsFixed(now, op, held); }
      if first != held { RankIsFixed(now, op, first); }
      if Next(now, op).assignments[h].definition != held {
        RankIsFixed(now, op, Next(now, op).assignments[h].definition);
        if first == held { FirstKeyIsStable(t, before, first); }
      }
    }
  }

  lemma RanksDistinctBefore(t: Tables, ops: seq<Op>, h: Holder)
    requires OnlyApprovals(t, ops, h)
    ensures RanksDistinct(Run(t, ops).definitions, h.1)
  {
  }

  /** Keys never change. */
  lemma {:induction false} FirstKeyIsStable(t: Tables, ops: seq<Op>, id: DefinitionId)
    requires LegalRun(t, ops) && id in t.definitions
    ensures id in Run(t, ops).definitions && Run(t, ops).definitions[id].key == t.definitions[id].key
  {
    if ops != [] {
      FirstKeyIsStable(t, ops[..|ops| - 1], id);
      StepEvolves(Run(t, ops[..|ops| - 1]), ops[|ops| - 1]);
    }
  }

  lemma {:induction false} RanksAreFixed(t: Tables, ops: seq<Op>, id: DefinitionId)
    requires LegalRun(t, ops) && id in t.definitions && t.definitions[id].key != "superadmin"
    ensures id in Run(t, ops).definitions
    ensures var d, d' := t.definitions[id], Run(t, ops).definitions[id];
      d'.sortOrder == d.sortOrder && d'.createdAt == d.createdAt && d'.key == d.key
  {
    if ops != [] {
      RanksAreFixed(t, ops[..|ops| - 1], id);
      RankIsFixed(Run(t, ops[..|ops| - 1]), ops[|ops| - 1], id);
    }
  }

  /** A run of two parts runs the second from where the first ended. */
  lemma {:induction false} RunInTwoParts(t: Tables, a: seq<Op>, b: seq<Op>, h: Holder)
    requires LegalRun(t, a + b) && OnlyApprovals(t, a + b, h)
    ensures LegalRun(t, a) && OnlyApprovals(t, a, h)
    ensures Run(t, a + b) == Run(Run(t, a), b)
    ensures LegalRun(Run(t, a), b) && OnlyApprovals(Run(t, a), b, h)
  {
    if b == [] {
      assert a + b == a;
      RanksDistinctBefore(t, a, h);
    } else {
      assert (a + b)[..|a + b| - 1] == a + b[..|b| - 1];
      RunInTwoParts(t, a, b[..|b| - 1], h);
    }
  }

  /** While ranks stay distinct, a permission that was left behind is never held again. */
  lemma NoPermissionIsHeldTwice(t: Tables, left: seq<Op>, later: seq<Op>, h: Holder)
    requires Inv(t) && LegalRun(t, left + later) && OnlyApprovals(t, left + later, h) && h in t.assignments
    requires h in Run(t, left).assignments ==> Run(t, left).assignments[h].definition != t.assignments[h].definition
    ensures h in Run(t, left + later).assignments
    ensures Run(t, left + later).assignments[h].definition != t.assignments[h].definition
  {
    RunInTwoParts(t, left, later, h);
    ApprovalsOnlyClimb(t, left, h);
    RunKeepsInv(t, left);
    var mid := Run(t, left);
    ApprovalsOnlyClimb(mid, later, h);
    RanksAreFixed(mid, later, t.assignments[h].definition);
    RanksAreFixed(mid, later, mid.assignments[h].definition);
  }

  // ---------------------------------------------------------------- what ties cost

  /** Only `approve` changes the assignment of `h`, whatever the ranks. */
  ghost predicate OnlyApproved(t: Tables, ops: seq<Op>, h: Holder) {
    ops == [] || (OnlyApproved(t, ops[..|ops| - 1], h) && LeavesAlone(Run(t, ops[..|ops| - 1]), ops[|ops| - 1], h))
  }

  lemma StepNeverDescends(t: Tables, op: Op, h: Holder)
    requires Inv(t) && Legal(t, op) && LeavesAlone(t, op, h) && h in t.assignments
    ensures var t' := Next(t, op);
      && h in t'.assignments
      && (t'.assignments[h].definition == t.assignments[h].definition
          || (&& op.Approve?
              && t.assignments[h].definition in t.definitions && t'.assignments[h].definition in t.definitions
              && !Higher(t, t'.assignments[h].definition, t.assignments[h].definition)
              && t.definitions[t.assignments[h].definition].key != "superadmin"
              && t.definitions[t'.assignments[h].definition].key != "superadmin"))
  {
    HoldersRemain(t, op, h);
    if op.Approve? && Outcome(t, op).Ok? {
      var application := t.applications[op.application];
      UpgradeIsRankOrder(t.definitions, application.service, op.listing,
                         t.assignments[(application.account, application.service)].definition, op.target);
    }
  }

  /** Even with ties approvals never lead down in rank, and superadmin is neither entered nor left. */
  lemma {:induction false} ApprovalsNeverDescend(t: Tables, ops: seq<Op>, h: Holder)
    requires Inv(t) && LegalRun(t, ops) && OnlyApproved(t, ops, h) && h in t.assignments
    ensures var t' := Run(t, ops);
      && h in t'.assignments && t'.assignments[h].definition in t'.definitions
      && t.assignments[h].definition in t.definitions && t.assignments[h].definition in t'.definitions
      && (t'.assignments[h].definition == t.assignments[h].definition
          || (&& !Higher(t', t'.assignments[h].definition, t.assignments[h].definition)
              && t'.definitions[t.assignments[h].definition].key != "superadmin"
              && t'.definitions[t'.assignments[h].definition].key != "superadmin"))
  {
    assert AssignmentOk(t, h);
    if ops != [] {
      var before, op := ops[..|ops| - 1], ops[|ops| - 1];
      ApprovalsNeverDescend(t, before, h);
      RunKeepsInv(t, before);
      RunKeepsInv(t, ops);
      var now := Run(t, before);
      var next := Next(now, op);
      StepNeverDescends(now, op, h);
      assert AssignmentOk(next, h);
      var first, held, last := t.assignments[h].definition, now.assignments[h].definition, next.assignments[h].definition;
      StepEvolves(now, op);
      if now.definitions[held].key != "superadmin" { RankIsFixed(now, op, held); }
      if now.definitions[first].key != "superadmin" { RankIsFixed(now, op, first); }
      if last in now.definitions && now.definitions[last].key != "superadmin" { RankIsFixed(now, op, last); }
    }
  }

  /** The account may ask for another permission than the one it holds. */
  ghost predicate MayAsk(t: Tables, h: Holder, current: DefinitionId) {
    && KeysUnique(t)
    && h.0 in t.accounts && t.accounts[h.0].active && h.1 in t.services && t.services[h.1]
    && h in t.assignments && t.assignments[h] == Assignment(current, Active)
    && Comparable(t.definitions, h.1, current) && t.definitions[current].key != "visitor"
    && (forall id :: !IsPending(t, h, id))
  }

  /** Asking and approving moves the holder wherever the check says yes. */
  lemma AskAndApprove(t: Tables, h: Holder, current: DefinitionId, target: DefinitionId, newId: ApplicationId,
                      listing: seq<DefinitionId>)
    requires MayAsk(t, h, current) && newId !in t.applications && IsListing(t.definitions, h.1, listing)
    requires Comparable(t.definitions, h.1, target) && t.definitions[target].key != "visitor"
    requires StrictUpgrade(t.definitions, listing, current, target)
    ensures var ask := Apply(h.0, h.1, t.definitions[current].key, Some(t.definitions[target].key), newId, listing);
      var approve := Approve(newId, target, listing);
      var asked := Next(t, ask);
      var t' := Next(asked, approve);
      && Legal(t, ask) && Legal(asked, approve) && LeavesAlone(t, ask, h) && LeavesAlone(asked, approve, h)
      && MayAsk(t', h, target) && t'.definitions == t.definitions
      && t'.applications.Keys == t.applications.Keys + {newId}
  {
    assert Owned(t, h.1, target);
    var ask := Apply(h.0, h.1, t.definitions[current].key, Some(t.definitions[target].key), newId, listing);
    var asked := Next(t, ask);
    assert FindByKey(t, h.1, t.definitions[target].key) == Some(target);
    assert asked == t.(applications := t.applications[newId := Application(h.0, h.1, Pending, Some(target))]);
    var t' := Next(asked, Approve(newId, target, listing));
    assert t'.assignments == t.assignments[h := Assignment(target, Active)];
    forall id ensures !IsPending(t', h, id) { assert !IsPending(t, h, id); }
  }

  lemma OneMoreOp(t: Tables, ops: seq<Op>, op: Op, h: Holder)
    ensures Run(t, ops + [op]) == Next(Run(t, ops), op)
    ensures LegalRun(t, ops + [op]) <==> LegalRun(t, ops) && Legal(Run(t, ops), op)
    ensures OnlyApproved(t, ops + [op], h) <==> OnlyApproved(t, ops, h) && LeavesAlone(Run(t, ops), op, h)
  {
    assert (ops + [op])[..|ops|] == ops;
  }

  lemma ThenMove(t: Tables, ops: seq<Op>, h: Holder, current: DefinitionId, target: DefinitionId, newId: ApplicationId,
                 listing: seq<DefinitionId>) returns (more: seq<Op>)
    requires LegalRun(t, ops) && OnlyApproved(t, ops, h)
    requires var now := Run(t, ops);
      && MayAsk(now, h, current) && newId !in now.applications && IsListing(now.definitions, h.1, listing)
      && Comparable(now.definitions, h.1, target) && now.definitions[target].key != "visitor"
      && StrictUpgrade(now.definitions, listing, current, target)
    ensures LegalRun(t, more) && OnlyApproved(t, more, h)
    ensures ops <= more && MayAsk(Run(t, more), h, target) && Run(t, more).definitions == Run(t, ops).definitions
    ensures Run(t, more).applications.Keys == Run(t, ops).applications.Keys + {newId}
  {
    var now := Run(t, ops);
    assert current in now.definitions;
    hide Next, Legal, MayAsk;
    AskAndApprove(now, h, current, target, newId, listing);
    var ask := Apply(h.0, h.1, now.definitions[current].key, Some(now.definitions[target].key), newId, listing);
    OneMoreOp(t, ops, ask, h);
    OneMoreOp(t, ops + [ask], Approve(newId, target, listing), h);
    more := ops + [ask] + [Approve(newId, target, listing)];
  }

  /**
   * With a tie a permission can be held twice: a holder of `a` is approved for `b` and then for `a` again, although
   * only approvals change the assignment.
   */
  lemma TiesLetAPermissionReturn(t: Tables, h: Holder, a: DefinitionId, b: DefinitionId, x: ApplicationId, y: ApplicationId)
    returns (left: seq<Op>, later: seq<Op>)
    requires MayAsk(t, h, a) && Comparable(t.definitions, h.1, b) && t.definitions[b].key != "visitor" && a != b
    requires Tied(t.definitions[a], t.definitions[b])
    requires x !in t.applications && y !in t.applications && x != y
    ensures left <= later && LegalRun(t, later) && OnlyApproved(t, later, h)
    ensures h in Run(t, left).assignments && Run(t, left).assignments[h].definition == b
    ensures h in Run(t, later).assignments && Run(t, later).assignments[h].definition == a
  {
    var up, down := TiesGoBothWays(t.definitions, h.1, a, b);
    left := ThenMove(t, [], h, a, b, x, up);
    later := ThenMove(t, left, h, b, a, y, down);
  }
}
