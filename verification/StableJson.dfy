/** Canonical JSON for the idempotency hash: `stableJson` in src/notifications/notification-send.service.ts. */
module StableJson {
  import opened Prelude
  import opened JsonText

  /** The comparison of keys, standing for `localeCompare`. */
  type Collation = (Text, Text) -> int

  ghost predicate Ordering(cmp: Collation) {
    && (forall a :: cmp(a, a) == 0)
    && (forall a, b :: cmp(a, b) > 0 <==> cmp(b, a) < 0)
    && (forall a, b, c :: cmp(a, b) <= 0 && cmp(b, c) <= 0 ==> cmp(a, c) <= 0)
  }

  // ---------------------------------------------------------------- the printer

  function Insert<V>(cmp: Collation, e: Entry<V>, sorted: seq<Entry<V>>): seq<Entry<V>> {
    if sorted == [] || cmp(e.key, sorted[0].key) <= 0 then [e] + sorted
    else [sorted[0]] + Insert(cmp, e, sorted[1..])
  }

  /** A stable sort by key, as `Array.prototype.sort` is. */
  function Sort<V>(cmp: Collation, entries: seq<Entry<V>>): seq<Entry<V>> {
    if entries == [] then [] else Insert(cmp, entries[0], Sort(cmp, entries[1..]))
  }

  function StableJson(cmp: Collation, v: Json): Text
    decreases v
  {
    match v
    case List(items) => [OPEN_LIST] + Join(StableEach(cmp, items)) + [CLOSE_LIST]
    case Object(members) => [OPEN_OBJECT] + Join(Pairs(Sort(cmp, StableMembers(cmp, members)))) + [CLOSE_OBJECT]
    case _ => Print(v)
  }

  function StableEach(cmp: Collation, items: seq<Json>): seq<Text>
    decreases items
  {
    if items == [] then [] else [StableJson(cmp, items[0])] + StableEach(cmp, items[1..])
  }

  function StableSlot(cmp: Collation, slot: Option<Json>): Text
    decreases slot
  {
    if slot.None? then UNDEFINED else StableJson(cmp, slot.value)
  }

  function StableMembers(cmp: Collation, members: seq<Entry<Option<Json>>>): seq<Entry<Text>>
    decreases members
  {
    if members == [] then []
    else [Entry(members[0].key, StableSlot(cmp, members[0].value))] + StableMembers(cmp, members[1..])
  }

  // ---------------------------------------------------------------- equality up to member order

  ghost predicate Same(v: Json, w: Json)
    decreases v
  {
    match v
    case List(items) => w.List? && SameEach(items, w.items)
    case Object(members) => w.Object? && SameMembers(members, w.members)
    case _ => v == w
  }

  ghost predicate SameEach(a: seq<Json>, b: seq<Json>)
    decreases a
  {
    |a| == |b| && (a == [] || (Same(a[0], b[0]) && SameEach(a[1..], b[1..])))
  }

  ghost predicate SameSlot(a: Option<Json>, b: Option<Json>)
    decreases a
  {
    if a.None? then b.None? else b.Some? && Same(a.value, b.value)
  }

  function Without<T>(s: seq<T>, j: nat): (r: seq<T>)
    requires j < |s|
    ensures |r| == |s| - 1
  {
    s[..j] + s[j + 1..]
  }

  /** The members of `b` in some order are the members of `a`. */
  ghost predicate SameMembers(a: seq<Entry<Option<Json>>>, b: seq<Entry<Option<Json>>>)
    decreases a
  {
    if a == [] then b == []
    else exists j :: 0 <= j < |b| && SameMember(a[0], b[j]) && SameMembers(a[1..], Without(b, j))
  }

  ghost predicate SameMember(a: Entry<Option<Json>>, b: Entry<Option<Json>>)
    decreases a
  {
    a.key == b.key && SameSlot(a.value, b.value)
  }

  // ---------------------------------------------------------------- a normal form

  /** Every object with its members sorted. */
  function Normal(cmp: Collation, v: Json): Json
    decreases v
  {
    match v
    case List(items) => List(NormalEach(cmp, items))
    case Object(members) => Object(Sort(cmp, NormalMembers(cmp, members)))
    case _ => v
  }

  function NormalEach(cmp: Collation, items: seq<Json>): seq<Json>
    decreases items
  {
    if items == [] then [] else [Normal(cmp, items[0])] + NormalEach(cmp, items[1..])
  }

  function NormalSlot(cmp: Collation, slot: Option<Json>): Option<Json>
    decreases slot
  {
    if slot.None? then None else Some(Normal(cmp, slot.value))
  }

  function NormalMembers(cmp: Collation, members: seq<Entry<Option<Json>>>): seq<Entry<Option<Json>>>
    decreases members
  {
    if members == [] then []
    else [Entry(members[0].key, NormalSlot(cmp, members[0].value))] + NormalMembers(cmp, members[1..])
  }

  lemma {:induction false} InsertKeeps<V>(cmp: Collation, e: Entry<V>, sorted: seq<Entry<V>>)
    ensures multiset(Insert(cmp, e, sorted)) == multiset{e} + multiset(sorted)
  {
    if sorted != [] && cmp(e.key, sorted[0].key) > 0 {
      InsertKeeps(cmp, e, sorted[1..]);
      assert sorted == [sorted[0]] + sorted[1..];
    }
  }

  lemma {:induction false} SortKeeps<V>(cmp: Collation, entries: seq<Entry<V>>)
    ensures multiset(Sort(cmp, entries)) == multiset(entries)
  {
    if entries != [] {
      SortKeeps(cmp, entries[1..]);
      InsertKeeps(cmp, entries[0], Sort(cmp, entries[1..]));
      assert entries == [entries[0]] + entries[1..];
    }
  }

  // ---------------------------------------------------------------- the printer prints the normal form

  /** The entries rise, by the comparison. */
  ghost predicate Rising<V(!new)>(cmp: Collation, entries: seq<Entry<V>>) {
    forall i, j | 0 <= i < j < |entries| :: cmp(entries[i].key, entries[j].key) <= 0
  }

  /** Nothing comes before a key that is not above the new entry nor any old one. */
  lemma {:induction false} InsertStaysAbove<V>(cmp: Collation, key: Text, e: Entry<V>, sorted: seq<Entry<V>>)
    requires cmp(key, e.key) <= 0 && forall j | 0 <= j < |sorted| :: cmp(key, sorted[j].key) <= 0
    ensures forall j | 0 <= j < |Insert(cmp, e, sorted)| :: cmp(key, Insert(cmp, e, sorted)[j].key) <= 0
  {
    if sorted != [] { InsertStaysAbove(cmp, key, e, sorted[1..]); }
  }

  lemma {:induction false} InsertRises<V(!new)>(cmp: Collation, e: Entry<V>, sorted: seq<Entry<V>>)
    requires Ordering(cmp) && Rising(cmp, sorted)
    ensures Rising(cmp, Insert(cmp, e, sorted))
  {
    if sorted == [] {
    } else if cmp(e.key, sorted[0].key) <= 0 {
      assert forall k | 1 <= k < |sorted| :: cmp(sorted[0].key, sorted[k].key) <= 0;
      HeadRises(cmp, e, sorted);
    } else {
      assert cmp(sorted[0].key, e.key) <= 0;
      InsertRises(cmp, e, sorted[1..]);
      InsertStaysAbove(cmp, sorted[0].key, e, sorted[1..]);
      hide Ordering;
      HeadRises(cmp, sorted[0], Insert(cmp, e, sorted[1..]));
    }
  }

  lemma HeadRises<V(!new)>(cmp: Collation, head: Entry<V>, rest: seq<Entry<V>>)
    requires Rising(cmp, rest) && forall j | 0 <= j < |rest| :: cmp(head.key, rest[j].key) <= 0
    ensures Rising(cmp, [head] + rest)
  {
  }

  /** Keys come out in rising order, and entries already in order stay as they are, those with equal keys too. */
  lemma {:induction false} SortRises<V(!new)>(cmp: Collation, entries: seq<Entry<V>>)
    requires Ordering(cmp)
    ensures Rising(cmp, Sort(cmp, entries))
    ensures Rising(cmp, entries) ==> Sort(cmp, entries) == entries
  {
    if entries != [] {
      SortRises(cmp, entries[1..]);
      InsertRises(cmp, entries[0], Sort(cmp, entries[1..]));
      assert entries == [entries[0]] + entries[1..];
    }
  }

  lemma {:induction false} InsertPrints(cmp: Collation, e: Entry<Option<Json>>, sorted: seq<Entry<Option<Json>>>)
    ensures PrintMembers(Insert(cmp, e, sorted)) == Insert(cmp, Entry(e.key, PrintSlot(e.value)), PrintMembers(sorted))
  {
    if sorted == [] || cmp(e.key, sorted[0].key) <= 0 {
      assert ([e] + sorted)[1..] == sorted;
    } else {
      InsertPrints(cmp, e, sorted[1..]);
      assert ([sorted[0]] + Insert(cmp, e, sorted[1..]))[1..] == Insert(cmp, e, sorted[1..]);
      assert PrintMembers(sorted)[1..] == PrintMembers(sorted[1..]);
    }
  }

  lemma {:induction false} SortPrints(cmp: Collation, members: seq<Entry<Option<Json>>>)
    ensures PrintMembers(Sort(cmp, members)) == Sort(cmp, PrintMembers(members))
  {
    if members != [] {
      SortPrints(cmp, members[1..]);
      InsertPrints(cmp, members[0], Sort(cmp, members[1..]));
      assert PrintMembers(members)[1..] == PrintMembers(members[1..]);
    }
  }

  /** Sorting the printed members at each level prints the value whose members were sorted first. */
  lemma {:induction false} StablePrintsNormal(cmp: Collation, v: Json)
    ensures StableJson(cmp, v) == Print(Normal(cmp, v))
    decreases v
  {
    match v
    case List(items) => StableEachPrintsNormal(cmp, items);
    case Object(members) =>
      StableMembersPrintNormal(cmp, members);
      SortPrints(cmp, NormalMembers(cmp, members));
    case _ =>
  }

  lemma {:induction false} StableEachPrintsNormal(cmp: Collation, items: seq<Json>)
    ensures StableEach(cmp, items) == PrintEach(NormalEach(cmp, items))
    decreases items
  {
    if items != [] {
      StablePrintsNormal(cmp, items[0]);
      StableEachPrintsNormal(cmp, items[1..]);
      assert NormalEach(cmp, items)[1..] == NormalEach(cmp, items[1..]);
    }
  }

  lemma {:induction false} StableMembersPrintNormal(cmp: Collation, members: seq<Entry<Option<Json>>>)
    ensures StableMembers(cmp, members) == PrintMembers(NormalMembers(cmp, members))
    decreases members
  {
    if members != [] {
      if members[0].value.Some? { StablePrintsNormal(cmp, members[0].value.value); }
      StableMembersPrintNormal(cmp, members[1..]);
      assert NormalMembers(cmp, members)[1..] == NormalMembers(cmp, members[1..]);
    }
  }

  // ---------------------------------------------------------------- equal normal forms are the same value

  lemma {:induction false} NormalWellformed(cmp: Collation, v: Json)
    requires Wellformed(v)
    ensures Wellformed(Normal(cmp, v))
    decreases v
  {
    match v
    case List(items) => NormalEachWellformed(cmp, items);
    case Object(members) =>
      NormalMembersWellformed(cmp, members);
      SortKeepsWellformed(cmp, NormalMembers(cmp, members));
    case _ =>
  }

  lemma {:induction false} NormalEachWellformed(cmp: Collation, items: seq<Json>)
    requires forall i | 0 <= i < |items| :: Wellformed(items[i])
    ensures forall i | 0 <= i < |NormalEach(cmp, items)| :: Wellformed(NormalEach(cmp, items)[i])
    decreases items
  {
    if items != [] {
      NormalWellformed(cmp, items[0]);
      NormalEachWellformed(cmp, items[1..]);
    }
  }

  lemma {:induction false} NormalMembersWellformed(cmp: Collation, members: seq<Entry<Option<Json>>>)
    requires MembersWellformed(members)
    ensures MembersWellformed(NormalMembers(cmp, members))
    decreases members
  {
    if members != [] {
      if members[0].value.Some? { NormalWellformed(cmp, members[0].value.value); }
      NormalMembersWellformed(cmp, members[1..]);
    }
  }

  lemma {:induction false} InsertKeepsWellformed(cmp: Collation, e: Entry<Option<Json>>,
                                                 sorted: seq<Entry<Option<Json>>>)
    requires MembersWellformed(sorted) && (e.value.Some? ==> Wellformed(e.value.value))
    ensures MembersWellformed(Insert(cmp, e, sorted))
  {
    if sorted != [] && cmp(e.key, sorted[0].key) > 0 { InsertKeepsWellformed(cmp, e, sorted[1..]); }
  }

  lemma {:induction false} SortKeepsWellformed(cmp: Collation, members: seq<Entry<Option<Json>>>)
    requires MembersWellformed(members)
    ensures MembersWellformed(Sort(cmp, members))
  {
    if members != [] {
      SortKeepsWellformed(cmp, members[1..]);
      InsertKeepsWellformed(cmp, members[0], Sort(cmp, members[1..]));
    }
  }

  lemma {:induction false} EqualNormalsAreSame(cmp: Collation, v: Json, w: Json)
    requires Normal(cmp, v) == Normal(cmp, w)
    ensures Same(v, w)
    decreases v
  {
    match v
    case List(items) => EqualNormalEachAreSame(cmp, items, w.items);
    case Object(members) =>
      SortKeeps(cmp, NormalMembers(cmp, members));
      SortKeeps(cmp, NormalMembers(cmp, w.members));
      EqualNormalMembersAreSame(cmp, members, w.members);
    case _ =>
  }

  lemma {:induction false} EqualNormalEachAreSame(cmp: Collation, a: seq<Json>, b: seq<Json>)
    requires NormalEach(cmp, a) == NormalEach(cmp, b)
    ensures SameEach(a, b)
    decreases a
  {
    if a != [] && b != [] {
      assert NormalEach(cmp, a)[0] == NormalEach(cmp, b)[0];
      EqualNormalsAreSame(cmp, a[0], b[0]);
      assert NormalEach(cmp, a)[1..] == NormalEach(cmp, b)[1..];
      EqualNormalEachAreSame(cmp, a[1..], b[1..]);
    }
  }

  lemma {:induction false} NormalMembersAt(cmp: Collation, members: seq<Entry<Option<Json>>>)
    ensures |NormalMembers(cmp, members)| == |members|
    ensures forall i | 0 <= i < |members| ::
      NormalMembers(cmp, members)[i] == Entry(members[i].key, NormalSlot(cmp, members[i].value))
  {
    if members != [] { NormalMembersAt(cmp, members[1..]); }
  }

  lemma NormalMembersWithout(cmp: Collation, members: seq<Entry<Option<Json>>>, j: nat)
    requires j < |members|
    ensures |NormalMembers(cmp, members)| == |members|
    ensures NormalMembers(cmp, Without(members, j)) == Without(NormalMembers(cmp, members), j)
  {
    NormalMembersAt(cmp, members);
    NormalMembersAt(cmp, Without(members, j));
  }

  lemma WithoutAsMultiset<T>(s: seq<T>, j: nat)
    requires j < |s|
    ensures multiset(Without(s, j)) == multiset(s) - multiset{s[j]}
  {
    assert s == s[..j] + [s[j]] + s[j + 1..];
  }

  lemma FindFirst<T>(x: seq<T>, y: seq<T>) returns (j: nat)
    requires x != [] && multiset(x) == multiset(y)
    ensures j < |y| && y[j] == x[0]
    ensures multiset(x[1..]) == multiset(Without(y, j))
  {
    assert x[0] in multiset(y);
    j :| 0 <= j < |y| && y[j] == x[0];
    WithoutAsMultiset(x, 0);
    WithoutAsMultiset(y, j);
    assert Without(x, 0) == x[1..];
  }

  lemma {:induction false} EqualNormalMembersAreSame(cmp: Collation, a: seq<Entry<Option<Json>>>,
                                                     b: seq<Entry<Option<Json>>>)
    requires multiset(NormalMembers(cmp, a)) == multiset(NormalMembers(cmp, b))
    ensures SameMembers(a, b)
    decreases a
  {
    NormalMembersAt(cmp, a);
    NormalMembersAt(cmp, b);
    if a == [] {
      assert |multiset(NormalMembers(cmp, b))| == |b|;
    } else {
      var j := FindFirst(NormalMembers(cmp, a), NormalMembers(cmp, b));
      EqualSlotsAreSame(cmp, a[0].value, b[j].value);
      NormalMembersWithout(cmp, b, j);
      EqualNormalMembersAreSame(cmp, a[1..], Without(b, j));
      assert SameMember(a[0], b[j]);
    }
  }

  lemma {:induction false} EqualSlotsAreSame(cmp: Collation, a: Option<Json>, b: Option<Json>)
    requires NormalSlot(cmp, a) == NormalSlot(cmp, b)
    ensures SameSlot(a, b)
    decreases a
  {
    if a.Some? { EqualNormalsAreSame(cmp, a.value, b.value); }
  }

  // ---------------------------------------------------------------- the same value has one normal form

  ghost predicate Apart<V>(cmp: Collation, key: Text, entries: seq<Entry<V>>) {
    forall i | 0 <= i < |entries| :: cmp(key, entries[i].key) != 0
  }

  /** No two members of one object have keys that the comparison ties. */
  ghost predicate NoTies(cmp: Collation, v: Json)
    decreases v
  {
    match v
    case List(items) => forall i | 0 <= i < |items| :: NoTies(cmp, items[i])
    case Object(members) => MembersApart(cmp, members)
    case _ => true
  }

  ghost predicate MembersApart(cmp: Collation, members: seq<Entry<Option<Json>>>)
    decreases members
  {
    members == [] || (
      && Apart(cmp, members[0].key, members[1..])
      && (members[0].value.Some? ==> NoTies(cmp, members[0].value.value))
      && MembersApart(cmp, members[1..]))
  }

  lemma {:induction false} InsertsCommute<V>(cmp: Collation, e: Entry<V>, f: Entry<V>, s: seq<Entry<V>>)
    requires Ordering(cmp) && cmp(e.key, f.key) != 0
    ensures Insert(cmp, e, Insert(cmp, f, s)) == Insert(cmp, f, Insert(cmp, e, s))
  {
    if s == [] {
    } else if cmp(e.key, s[0].key) > 0 && cmp(f.key, s[0].key) > 0 {
      InsertsCommute(cmp, e, f, s[1..]);
      assert Insert(cmp, e, s)[1..] == Insert(cmp, e, s[1..]);
      assert Insert(cmp, f, s)[1..] == Insert(cmp, f, s[1..]);
    } else {
      assert ([e] + s)[1..] == s && ([f] + s)[1..] == s;
      assert Insert(cmp, e, s)[1..] == if cmp(e.key, s[0].key) <= 0 then s else Insert(cmp, e, s[1..]);
      assert Insert(cmp, f, s)[1..] == if cmp(f.key, s[0].key) <= 0 then s else Insert(cmp, f, s[1..]);
    }
  }

  /** The place of an entry in the input does not show in the sorted result unless its key ties. */
  lemma {:induction false} SortFinds<V>(cmp: Collation, entries: seq<Entry<V>>, j: nat)
    requires Ordering(cmp) && j < |entries| && Apart(cmp, entries[j].key, Without(entries, j))
    ensures Sort(cmp, entries) == Insert(cmp, entries[j], Sort(cmp, Without(entries, j)))
    decreases j
  {
    var rest := Without(entries, j);
    if j == 0 {
      assert rest == entries[1..];
    } else {
      var tail := entries[1..];
      assert rest[0] == entries[0] && rest[1..] == Without(tail, j - 1);
      assert forall i | 0 <= i < |Without(tail, j - 1)| :: rest[1..][i] == rest[i + 1];
      SortFinds(cmp, tail, j - 1);
      InsertsCommute(cmp, entries[j], entries[0], Sort(cmp, Without(tail, j - 1)));
    }
  }

  lemma {:induction false} SameHaveOneNormal(cmp: Collation, v: Json, w: Json)
    requires Ordering(cmp) && Same(v, w) && NoTies(cmp, v)
    ensures Normal(cmp, v) == Normal(cmp, w)
    decreases v
  {
    match v
    case List(items) => SameEachHaveOneNormal(cmp, items, w.items);
    case Object(members) => SameMembersHaveOneNormal(cmp, members, w.members);
    case _ =>
  }

  lemma {:induction false} SameEachHaveOneNormal(cmp: Collation, a: seq<Json>, b: seq<Json>)
    requires Ordering(cmp) && SameEach(a, b) && forall i | 0 <= i < |a| :: NoTies(cmp, a[i])
    ensures NormalEach(cmp, a) == NormalEach(cmp, b)
    decreases a
  {
    if a != [] {
      SameHaveOneNormal(cmp, a[0], b[0]);
      SameEachHaveOneNormal(cmp, a[1..], b[1..]);
    }
  }

  lemma {:induction false} SameKeys(a: seq<Entry<Option<Json>>>, b: seq<Entry<Option<Json>>>)
    requires SameMembers(a, b)
    ensures forall f | f in b :: exists e :: e in a && e.key == f.key
    decreases a
  {
    if a != [] {
      var j :| 0 <= j < |b| && SameMember(a[0], b[j]) && SameMembers(a[1..], Without(b, j));
      SameKeys(a[1..], Without(b, j));
      forall f | f in b ensures exists e :: e in a && e.key == f.key {
        var k :| 0 <= k < |b| && b[k] == f;
        if k == j {
          assert a[0] in a;
        } else {
          assert f == Without(b, j)[if k < j then k else k - 1];
          var e :| e in a[1..] && e.key == f.key;
          assert e in a;
        }
      }
    }
  }

  lemma ApartFromTheRest(cmp: Collation, a: Entry<Option<Json>>, rest: seq<Entry<Option<Json>>>,
                         others: seq<Entry<Option<Json>>>)
    requires Apart(cmp, a.key, rest) && SameMembers(rest, others)
    ensures Apart(cmp, a.key, NormalMembers(cmp, others))
  {
    SameKeys(rest, others);
    NormalMembersAt(cmp, others);
    forall i | 0 <= i < |others| ensures cmp(a.key, others[i].key) != 0 {
      var e :| e in rest && e.key == others[i].key;
    }
  }

  lemma {:induction false} SameSlotsHaveOneNormal(cmp: Collation, a: Option<Json>, b: Option<Json>)
    requires Ordering(cmp) && SameSlot(a, b) && (a.Some? ==> NoTies(cmp, a.value))
    ensures NormalSlot(cmp, a) == NormalSlot(cmp, b)
    decreases a
  {
    if a.Some? { SameHaveOneNormal(cmp, a.value, b.value); }
  }

  lemma {:induction false} SameMembersHaveOneNormal(cmp: Collation, a: seq<Entry<Option<Json>>>,
                                                    b: seq<Entry<Option<Json>>>)
    requires Ordering(cmp) && SameMembers(a, b) && MembersApart(cmp, a)
    ensures Sort(cmp, NormalMembers(cmp, a)) == Sort(cmp, NormalMembers(cmp, b))
    decreases a
  {
    if a != [] {
      var j :| 0 <= j < |b| && SameMember(a[0], b[j]) && SameMembers(a[1..], Without(b, j));
      SameSlotsHaveOneNormal(cmp, a[0].value, b[j].value);
      SameMembersHaveOneNormal(cmp, a[1..], Without(b, j));
      ApartFromTheRest(cmp, a[0], a[1..], Without(b, j));
      SortNormalFinds(cmp, b, j);
    }
  }

  lemma SortNormalFinds(cmp: Collation, members: seq<Entry<Option<Json>>>, j: nat)
    requires Ordering(cmp) && j < |members| && Apart(cmp, members[j].key, NormalMembers(cmp, Without(members, j)))
    ensures Sort(cmp, NormalMembers(cmp, members))
         == Insert(cmp, Entry(members[j].key, NormalSlot(cmp, members[j].value)), Sort(cmp, NormalMembers(cmp, Without(members, j))))
  {
    NormalMembersAt(cmp, members);
    NormalMembersWithout(cmp, members, j);
    SortFinds(cmp, NormalMembers(cmp, members), j);
  }

  // ---------------------------------------------------------------- the law

  /** Equal texts mean equal values up to the order of members, at every level. */
  lemma EqualTextsAreSame(cmp: Collation, v: Json, w: Json)
    requires Wellformed(v) && Wellformed(w) && StableJson(cmp, v) == StableJson(cmp, w)
    ensures Same(v, w)
  {
    StablePrintsNormal(cmp, v);
    StablePrintsNormal(cmp, w);
    NormalWellformed(cmp, v);
    NormalWellformed(cmp, w);
    PrintInjective(Normal(cmp, v), Normal(cmp, w));
    EqualNormalsAreSame(cmp, v, w);
  }

  /** The text identifies a value exactly up to the order of members, at every level. */
  lemma StableJsonIdentifies(cmp: Collation, v: Json, w: Json)
    requires Ordering(cmp) && Wellformed(v) && Wellformed(w) && NoTies(cmp, v)
    ensures StableJson(cmp, v) == StableJson(cmp, w) <==> Same(v, w)
  {
    if Same(v, w) {
      SameHaveOneNormal(cmp, v, w);
      StablePrintsNormal(cmp, v);
      StablePrintsNormal(cmp, w);
    } else if StableJson(cmp, v) == StableJson(cmp, w) {
      EqualTextsAreSame(cmp, v, w);
    }
  }

  // ---------------------------------------------------------------- ties

  ghost predicate Strict(cmp: Collation) {
    forall a, b :: a != b ==> cmp(a, b) != 0
  }

  /** No object has two members with one key, as no JavaScript object does. */
  ghost predicate KeysDistinct(v: Json)
    decreases v
  {
    match v
    case List(items) => forall i | 0 <= i < |items| :: KeysDistinct(items[i])
    case Object(members) =>
      && (forall i, j | 0 <= i < j < |members| :: members[i].key != members[j].key)
      && (forall i | 0 <= i < |members| :: members[i].value.Some? ==> KeysDistinct(members[i].value.value))
    case _ => true
  }

  lemma {:induction false} StrictMeansNoTies(cmp: Collation, v: Json)
    requires Strict(cmp) && KeysDistinct(v)
    ensures NoTies(cmp, v)
    decreases v
  {
    match v
    case List(items) => forall i | 0 <= i < |items| { StrictMeansNoTies(cmp, items[i]); }
    case Object(members) => StrictMeansMembersApart(cmp, members);
    case _ =>
  }

  lemma {:induction false} StrictMeansMembersApart(cmp: Collation, members: seq<Entry<Option<Json>>>)
    requires Strict(cmp)
    requires forall i, j | 0 <= i < j < |members| :: members[i].key != members[j].key
    requires forall i | 0 <= i < |members| :: members[i].value.Some? ==> KeysDistinct(members[i].value.value)
    ensures MembersApart(cmp, members)
    decreases members
  {
    if members != [] {
      if members[0].value.Some? { StrictMeansNoTies(cmp, members[0].value.value); }
      assert forall i | 0 <= i < |members[1..]| :: members[1..][i] == members[i + 1];
      StrictMeansMembersApart(cmp, members[1..]);
    }
  }

  function TwoNulls(a: Text, b: Text): (v: Json) {
    Object([Entry(a, Some(Null)), Entry(b, Some(Null))])
  }

  lemma TwoNullsAreSame(a: Text, b: Text)
    ensures Same(TwoNulls(a, b), TwoNulls(b, a))
  {
    var x, y := TwoNulls(a, b).members, TwoNulls(b, a).members;
    assert x[1..] == [x[1]] && Without(y, 1) == [y[0]];
    assert Without([y[0]], 0) == [] && [x[1]][1..] == [];
    assert SameMembers([x[1]], [y[0]]) by { assert SameMember(x[1], y[0]); }
    assert SameMember(x[0], y[1]);
  }

  lemma TiedTwoNullsAreNormal(cmp: Collation, a: Text, b: Text)
    requires cmp(a, b) <= 0
    ensures Normal(cmp, TwoNulls(a, b)) == TwoNulls(a, b)
  {
    var x := TwoNulls(a, b).members;
    assert x[1..] == [x[1]];
    assert Sort(cmp, [x[1]]) == [x[1]];
    NormalMembersAt(cmp, x);
    assert NormalMembers(cmp, x) == x;
  }

  /** When the comparison ties two different keys, the order in which a caller wrote them shows in the text. */
  lemma TiedKeysShowTheirOrder(cmp: Collation, a: Text, b: Text)
    requires Ordering(cmp) && a != b && cmp(a, b) == 0
    ensures KeysDistinct(TwoNulls(a, b)) && Same(TwoNulls(a, b), TwoNulls(b, a))
    ensures StableJson(cmp, TwoNulls(a, b)) != StableJson(cmp, TwoNulls(b, a))
  {
    TwoNullsAreSame(a, b);
    assert cmp(b, a) == 0;
    TiedTwoNullsAreNormal(cmp, a, b);
    TiedTwoNullsAreNormal(cmp, b, a);
    StablePrintsNormal(cmp, TwoNulls(a, b));
    StablePrintsNormal(cmp, TwoNulls(b, a));
    if Print(TwoNulls(a, b)) == Print(TwoNulls(b, a)) { PrintInjective(TwoNulls(a, b), TwoNulls(b, a)); }
  }

  lemma StrictHidesOrder(cmp: Collation, v: Json, w: Json)
    requires Ordering(cmp) && Strict(cmp) && Wellformed(v) && Wellformed(w) && KeysDistinct(v) && Same(v, w)
    ensures StableJson(cmp, v) == StableJson(cmp, w)
  {
    StrictMeansNoTies(cmp, v);
    StableJsonIdentifies(cmp, v, w);
  }

  /** However a caller orders the members, the text is the same. */
  ghost predicate HidesOrder(cmp: Collation) {
    forall v, w :: Wellformed(v) && Wellformed(w) && KeysDistinct(v) && Same(v, w) ==> StableJson(cmp, v) == StableJson(cmp, w)
  }

  lemma TiesBreakHiding(cmp: Collation, a: Text, b: Text)
    requires Ordering(cmp) && a != b && cmp(a, b) == 0
    ensures !HidesOrder(cmp)
  {
    TiedKeysShowTheirOrder(cmp, a, b);
    assert Wellformed(TwoNulls(a, b)) && Wellformed(TwoNulls(b, a));
  }

  /** Member order never shows in the text exactly when the comparison tells all different keys apart. */
  lemma OrderIsHiddenIffStrict(cmp: Collation)
    requires Ordering(cmp)
    ensures HidesOrder(cmp) <==> Strict(cmp)
  {
    if Strict(cmp) {
      forall v, w | Wellformed(v) && Wellformed(w) && KeysDistinct(v) && Same(v, w)
        ensures StableJson(cmp, v) == StableJson(cmp, w)
      {
        StrictHidesOrder(cmp, v, w);
      }
    } else {
      var a, b :| a != b && cmp(a, b) == 0;
      TiesBreakHiding(cmp, a, b);
    }
  }
}
