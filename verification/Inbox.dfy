/** Pages of the notification inbox: src/notifications/notification-inbox.service.ts. */
module Inbox {
  import opened Prelude

  type AccountId = nat
  type NotificationId = nat

  /** Microseconds since 1970, the precision of the column. */
  type Micros = nat

  datatype Notification = Notification(account: AccountId, createdAt: Micros, deletedAt: Option<Time>)

  type Table = map<NotificationId, Notification>

  datatype Row = Row(createdAt: Micros, id: NotificationId)

  /** A position in the order; a cursor carries the time a JavaScript date holds, in whole milliseconds. */
  type Cursor = Row

  function CursorOf(row: Row): Cursor {
    Row(row.createdAt / 1000 * 1000, row.id)
  }

  /** (a.created_at, a.id) < (b.created_at, b.id). */
  predicate Below(a: Row, b: Row) {
    a.createdAt < b.createdAt || (a.createdAt == b.createdAt && a.id < b.id)
  }

  ghost predicate Descending(rows: seq<Row>) {
    forall i, j | 0 <= i < j < |rows| :: Below(rows[j], rows[i])
  }

  predicate Listed(t: Table, account: AccountId, id: NotificationId) {
    id in t && t[id].account == account && t[id].deletedAt.None?
  }

  function RowsOf(t: Table, account: AccountId): set<Row> {
    set id | id in t && Listed(t, account, id) :: Row(t[id].createdAt, id)
  }

  // ---------------------------------------------------------------- one page

  function Query(inbox: seq<Row>, cursor: Option<Cursor>): seq<Row> {
    if inbox == [] || cursor.None? then inbox
    else if Below(inbox[0], cursor.value) then [inbox[0]] + Query(inbox[1..], cursor)
    else Query(inbox[1..], cursor)
  }

  /** The first rows of a query, one more than fits on a page. */
  function Taken(rows: seq<Row>, limit: nat): seq<Row> {
    if |rows| > limit + 1 then rows[..limit + 1] else rows
  }

  function Page(rows: seq<Row>, limit: nat): (seq<Row>, Option<Cursor>)
    requires limit >= 1
  {
    if |rows| > limit then (rows[..limit], Some(CursorOf(rows[limit - 1]))) else (rows, None)
  }

  function List(inbox: seq<Row>, limit: nat, cursor: Option<Cursor>): (seq<Row>, Option<Cursor>)
    requires limit >= 1
  {
    Page(Taken(Query(inbox, cursor), limit), limit)
  }

  // ---------------------------------------------------------------- following the cursors

  lemma {:induction false} QueryIsBelow(inbox: seq<Row>, cursor: Option<Cursor>)
    requires Descending(inbox)
    ensures Descending(Query(inbox, cursor)) && |Query(inbox, cursor)| <= |inbox|
    ensures forall row :: row in Query(inbox, cursor) <==> row in inbox && (cursor.Some? ==> Below(row, cursor.value))
  {
    if inbox != [] && cursor.Some? {
      QueryIsBelow(inbox[1..], cursor);
      assert inbox == [inbox[0]] + inbox[1..];
      var rest := Query(inbox[1..], cursor);
      forall j | 0 <= j < |rest| ensures Below(rest[j], inbox[0]) { assert rest[j] in inbox[1..]; }
    }
  }

  /** In a descending list the rows below a cursor are its end. */
  lemma {:induction false} QueryIsSuffix(inbox: seq<Row>, cursor: Cursor)
    requires Descending(inbox)
    ensures |Query(inbox, Some(cursor))| <= |inbox|
    ensures Query(inbox, Some(cursor)) == inbox[|inbox| - |Query(inbox, Some(cursor))|..]
  {
    if inbox != [] {
      QueryIsSuffix(inbox[1..], cursor);
      if Below(inbox[0], cursor) {
        AllBelow(inbox[1..], cursor);
      }
    }
  }

  lemma {:induction false} AllBelow(inbox: seq<Row>, cursor: Cursor)
    requires forall i | 0 <= i < |inbox| :: Below(inbox[i], cursor)
    ensures Query(inbox, Some(cursor)) == inbox
  {
    if inbox != [] { AllBelow(inbox[1..], cursor); }
  }

  lemma {:induction false} NoneBelow(inbox: seq<Row>, cursor: Cursor)
    requires forall i | 0 <= i < |inbox| :: !Below(inbox[i], cursor)
    ensures Query(inbox, Some(cursor)) == []
  {
    if inbox != [] { NoneBelow(inbox[1..], cursor); }
  }

  lemma {:induction false} QueryConcat(a: seq<Row>, b: seq<Row>, cursor: Cursor)
    ensures Query(a + b, Some(cursor)) == Query(a, Some(cursor)) + Query(b, Some(cursor))
  {
    if a == [] {
      assert a + b == b;
    } else {
      QueryConcat(a[1..], b, cursor);
      assert (a + b)[1..] == a[1..] + b;
    }
  }

  lemma PageCut(inbox: seq<Row>, limit: nat, cursor: Option<Cursor>)
    requires limit >= 1 && List(inbox, limit, cursor).1.Some?
    ensures var rest := Query(inbox, cursor);
      |rest| > limit && List(inbox, limit, cursor) == (rest[..limit], Some(CursorOf(rest[limit - 1])))
  {
    var rest := Query(inbox, cursor);
    var taken := Taken(rest, limit);
    assert taken[..limit] == rest[..limit] && taken[limit - 1] == rest[limit - 1];
  }

  /** Of a descending list, nothing up to a row lies below that row's cursor. */
  lemma QueryBehind(inbox: seq<Row>, n: nat)
    requires Descending(inbox) && n < |inbox|
    ensures Query(inbox, Some(CursorOf(inbox[n]))) == Query(inbox[n + 1..], Some(CursorOf(inbox[n])))
  {
    var next := CursorOf(inbox[n]);
    var a, b := inbox[..n + 1], inbox[n + 1..];
    assert Query(a, Some(next)) == [] by {
      forall i | 0 <= i < |a| ensures !Below(a[i], next) { assert a[i] == inbox[i]; }
      NoneBelow(a, next);
    }
    assert inbox == a + b;
    QueryConcat(a, b, next);
    assert [] + Query(b, Some(next)) == Query(b, Some(next));
  }

  /** The next page starts behind the page it follows. */
  lemma NextQueryIsShorter(inbox: seq<Row>, limit: nat, cursor: Option<Cursor>)
    requires Descending(inbox) && limit >= 1 && List(inbox, limit, cursor).1.Some?
    ensures |Query(inbox, List(inbox, limit, cursor).1)| + limit <= |Query(inbox, cursor)|
    ensures var rest := Query(inbox, cursor);
      && |rest| > limit
      && List(inbox, limit, cursor) == (rest[..limit], Some(CursorOf(rest[limit - 1])))
      && Query(inbox, List(inbox, limit, cursor).1) == Query(rest[limit..], Some(CursorOf(rest[limit - 1])))
  {
    var rest := Query(inbox, cursor);
    PageCut(inbox, limit, cursor);
    if cursor.Some? { QueryIsSuffix(inbox, cursor.value); }
    var n := |inbox| - |rest| + limit - 1;
    assert inbox[n] == rest[limit - 1] && inbox[n + 1..] == rest[limit..];
    QueryBehind(inbox, n);
    QueryIsBelow(rest[limit..], Some(CursorOf(rest[limit - 1])));
  }

  /** All pages, from a cursor on, following each page's cursor to the next. */
  ghost function Walk(inbox: seq<Row>, limit: nat, cursor: Option<Cursor>): seq<Row>
    requires Descending(inbox) && limit >= 1
    decreases |Query(inbox, cursor)|
  {
    var page := List(inbox, limit, cursor);
    if page.1.None? then page.0
    else
      NextQueryIsShorter(inbox, limit, cursor);
      page.0 + Walk(inbox, limit, page.1)
  }

  /** The number of requests that following the cursors takes. */
  ghost function Requests(inbox: seq<Row>, limit: nat, cursor: Option<Cursor>): nat
    requires Descending(inbox) && limit >= 1
    decreases |Query(inbox, cursor)|
  {
    var page := List(inbox, limit, cursor);
    if page.1.None? then 1
    else
      NextQueryIsShorter(inbox, limit, cursor);
      1 + Requests(inbox, limit, page.1)
  }

  lemma LastPage(inbox: seq<Row>, limit: nat, cursor: Option<Cursor>)
    requires limit >= 1 && List(inbox, limit, cursor).1.None?
    ensures List(inbox, limit, cursor).0 == Query(inbox, cursor)
  {
  }

  /** Rows come in strictly descending order, none twice, all of them from the inbox and below the cursor. */
  lemma {:induction false} WalkDescends(inbox: seq<Row>, limit: nat, cursor: Option<Cursor>)
    requires Descending(inbox) && limit >= 1
    ensures Descending(Walk(inbox, limit, cursor))
    ensures forall row | row in Walk(inbox, limit, cursor) :: row in Query(inbox, cursor)
    decreases |Query(inbox, cursor)|
  {
    QueryIsBelow(inbox, cursor);
    var page := List(inbox, limit, cursor);
    if page.1.None? {
      LastPage(inbox, limit, cursor);
    } else {
      NextQueryIsShorter(inbox, limit, cursor);
      WalkDescends(inbox, limit, page.1);
      var rest, more := Query(inbox, cursor), Walk(inbox, limit, page.1);
      QueryIsBelow(rest[limit..], page.1);
      forall j | 0 <= j < |more| ensures more[j] in rest[limit..] { assert more[j] in more; }
      forall i, j | 0 <= i < limit && 0 <= j < |more| ensures Below(more[j], rest[i]) {
        var k :| 0 <= k < |rest[limit..]| && rest[limit..][k] == more[j];
        assert rest[limit + k] == more[j];
      }
    }
  }

  /** Following the cursors ends, after at most one request for each `limit` rows and one more. */
  lemma {:induction false} WalkEnds(inbox: seq<Row>, limit: nat, cursor: Option<Cursor>)
    requires Descending(inbox) && limit >= 1
    ensures (Requests(inbox, limit, cursor) - 1) * limit <= |Query(inbox, cursor)|
    decreases |Query(inbox, cursor)|
  {
    var page := List(inbox, limit, cursor);
    if page.1.Some? {
      NextQueryIsShorter(inbox, limit, cursor);
      WalkEnds(inbox, limit, page.1);
      OneMore(Requests(inbox, limit, page.1), limit);
    }
  }

  lemma OneMore(n: int, limit: nat)
    ensures n * limit == (n - 1) * limit + limit
  {
  }

  // ---------------------------------------------------------------- completeness

  /** At every page boundary the row behind it lies below the cursor of the row before it. */
  ghost predicate BoundariesHold(rows: seq<Row>, limit: nat)
    requires limit >= 1
  {
    |rows| > limit ==> Below(rows[limit], CursorOf(rows[limit - 1])) && BoundariesHold(rows[limit..], limit)
  }

  lemma {:induction false} WalkIsCompleteFrom(inbox: seq<Row>, limit: nat, cursor: Option<Cursor>)
    requires Descending(inbox) && limit >= 1
    ensures Walk(inbox, limit, cursor) == Query(inbox, cursor) <==> BoundariesHold(Query(inbox, cursor), limit)
    decreases |Query(inbox, cursor)|
  {
    QueryIsBelow(inbox, cursor);
    var rest := Query(inbox, cursor);
    var page := List(inbox, limit, cursor);
    if page.1.None? {
      LastPage(inbox, limit, cursor);
    } else {
      NextQueryIsShorter(inbox, limit, cursor);
      var next := CursorOf(rest[limit - 1]);
      var tail := rest[limit..];
      assert rest == rest[..limit] + tail;
      assert Walk(inbox, limit, cursor) == rest[..limit] + Walk(inbox, limit, page.1);
      WalkIsCompleteFrom(inbox, limit, page.1);
      if Below(rest[limit], next) {
        forall i | 0 <= i < |tail| ensures Below(tail[i], next) { assert tail[i] == rest[limit + i]; }
        AllBelow(tail, next);
      } else {
        SkippedRow(inbox, limit, page.1, tail, next);
      }
      SamePrefix(rest[..limit], Walk(inbox, limit, page.1), tail);
    }
  }

  lemma SamePrefix(a: seq<Row>, b: seq<Row>, c: seq<Row>)
    ensures a + b == a + c <==> b == c
  {
    assert b == (a + b)[|a|..] && c == (a + c)[|a|..];
  }

  lemma SkippedRow(inbox: seq<Row>, limit: nat, cursor: Option<Cursor>, tail: seq<Row>, next: Cursor)
    requires Descending(inbox) && limit >= 1 && tail != [] && Descending(tail)
    requires Query(inbox, cursor) == Query(tail, Some(next)) && !Below(tail[0], next)
    ensures Walk(inbox, limit, cursor) != tail
  {
    WalkDescends(inbox, limit, cursor);
    QueryIsBelow(tail, Some(next));
    assert tail[0] in tail && tail[0] !in Query(inbox, cursor);
  }

  /** The pages together are exactly the inbox if and only if no row falls between two pages. */
  lemma WalkIsCompleteExactly(inbox: seq<Row>, limit: nat)
    requires Descending(inbox) && limit >= 1
    ensures Walk(inbox, limit, None) == inbox <==> BoundariesHold(inbox, limit)
  {
    WalkIsCompleteFrom(inbox, limit, None);
  }

  lemma {:induction false} WholeMillisecondsHold(inbox: seq<Row>, limit: nat)
    requires Descending(inbox) && limit >= 1
    requires forall i | 0 <= i < |inbox| :: inbox[i].createdAt % 1000 == 0
    ensures BoundariesHold(inbox, limit)
  {
    if |inbox| > limit { WholeMillisecondsHold(inbox[limit..], limit); }
  }

  /** With times in whole milliseconds the pages are the whole inbox, in order. */
  lemma WholeMillisecondsAreComplete(inbox: seq<Row>, limit: nat)
    requires Descending(inbox) && limit >= 1
    requires forall i | 0 <= i < |inbox| :: inbox[i].createdAt % 1000 == 0
    ensures Walk(inbox, limit, None) == inbox
  {
    WholeMillisecondsHold(inbox, limit);
    WalkIsCompleteExactly(inbox, limit);
  }

  /** Two notifications of one millisecond, on pages of one row: the walk shows the later one alone. */
  lemma MicrosecondsLoseRows(ms: nat, a: NotificationId, b: NotificationId)
    ensures var inbox := [Row(1000 * ms + 2, a), Row(1000 * ms + 1, b)];
      Descending(inbox) && Walk(inbox, 1, None) == inbox[..1]
  {
    var inbox := [Row(1000 * ms + 2, a), Row(1000 * ms + 1, b)];
    assert (1000 * ms + 2) / 1000 == ms;
    NextQueryIsShorter(inbox, 1, None);
    assert Query(inbox, Some(CursorOf(inbox[0]))) == [];
  }

  // ---------------------------------------------------------------- the service

  ghost predicate IsInbox(t: Table, account: AccountId, inbox: seq<Row>) {
    Lists(inbox, RowsOf(t, account)) && Descending(inbox)
  }

  lemma {:induction false} Highest(rows: set<Row>) returns (top: Row)
    requires rows != {}
    ensures top in rows && forall row | row in rows :: row == top || Below(row, top)
    decreases rows
  {
    var first :| first in rows;
    top := first;
    if rows != {first} {
      var other := Highest(rows - {first});
      assert forall row | row in rows :: row == first || row in rows - {first};
      if Below(first, other) { top := other; }
    }
  }

  lemma {:induction false} ListingExists(rows: set<Row>)
    ensures exists xs :: Lists(xs, rows) && Descending(xs)
    decreases rows
  {
    if rows == {} {
      assert Lists([], rows) && Descending([]);
    } else {
      var top := Highest(rows);
      ListingExists(rows - {top});
      var xs :| Lists(xs, rows - {top}) && Descending(xs);
      assert forall i | 0 <= i < |xs| :: xs[i] in rows - {top};
      assert Lists([top] + xs, rows) && Descending([top] + xs);
    }
  }

  ghost function InboxOf(t: Table, account: AccountId): (inbox: seq<Row>)
    ensures IsInbox(t, account, inbox)
  {
    ListingExists(RowsOf(t, account));
    var inbox :| Lists(inbox, RowsOf(t, account)) && Descending(inbox);
    inbox
  }

  /** The inbox holds the account's notifications that are not deleted, newest first, among equals by falling identifier. */
  lemma InboxIsNewestFirst(t: Table, account: AccountId, i: nat, j: nat, id: NotificationId)
    ensures var inbox := InboxOf(t, account);
      && ((exists k | 0 <= k < |inbox| :: inbox[k].id == id) <==>
            id in t && t[id].account == account && t[id].deletedAt == None)
      && (i < |inbox| ==> inbox[i].id in t && inbox[i].createdAt == t[inbox[i].id].createdAt)
      && (i < j < |inbox| ==>
            || inbox[i].createdAt > inbox[j].createdAt
            || (inbox[i].createdAt == inbox[j].createdAt && inbox[i].id > inbox[j].id))
  {
    var inbox := InboxOf(t, account);
    if Listed(t, account, id) {
      assert Row(t[id].createdAt, id) in RowsOf(t, account);
      assert Row(t[id].createdAt, id) in inbox;
    }
    assert forall k | 0 <= k < |inbox| :: inbox[k] in inbox && inbox[k] in RowsOf(t, account);
  }

  /**
   * A page holds the first rows behind its cursor, which counts whole milliseconds: all of them if they fit, else as
   * many as the limit with the cursor of the last one.
   */
  lemma PageIsBehindCursor(inbox: seq<Row>, limit: nat, cursor: Option<Cursor>, row: Row)
    requires Descending(inbox) && limit >= 1
    ensures var (items, next) := List(inbox, limit, cursor);
      var rest := Query(inbox, cursor);
      && (row in rest <==>
            && row in inbox
            && (cursor.Some? ==>
                  || row.createdAt < cursor.value.createdAt
                  || (row.createdAt == cursor.value.createdAt && row.id < cursor.value.id)))
      && Descending(rest)
      && (if |rest| <= limit then items == rest && next == None
          else items == rest[..limit]
               && next == Some(Row(rest[limit - 1].createdAt - rest[limit - 1].createdAt % 1000, rest[limit - 1].id)))
  {
    QueryIsBelow(inbox, cursor);
    if List(inbox, limit, cursor).1.Some? { PageCut(inbox, limit, cursor); } else { LastPage(inbox, limit, cursor); }
  }

  predicate Leads(row: Row, rows: set<Row>) {
    row in rows && forall other | other in rows :: other == row || Below(other, row)
  }

  /** What is left of a descending list begins with its highest row. */
  lemma HeadLeads(all: seq<Row>, n: nat, left: set<Row>)
    requires Descending(all) && n <= |all| && left != {} && forall row :: row in left <==> row in all[n..]
    ensures n < |all| && Leads(all[n], left)
    ensures forall row :: Leads(row, left) ==> row == all[n]
    ensures forall row :: row in left - {all[n]} <==> row in all[n + 1..]
  {
    assert n < |all|;
    assert all[n..] == [all[n]] + all[n + 1..];
    assert all[n] in left;
  }

  class NotificationInboxService {
    var notifications: Table

    constructor (notifications: Table)
      ensures this.notifications == notifications
    {
      this.notifications := notifications;
    }

    /** The query: rows below the cursor, highest first, up to a number of them. */
    method GetMany(account: AccountId, cursor: Option<Cursor>, take: nat) returns (rows: seq<Row>)
      ensures var all := Query(InboxOf(notifications, account), cursor);
        rows == if |all| > take then all[..take] else all
    {
      ghost var all := Query(InboxOf(notifications, account), cursor);
      QueryIsBelow(InboxOf(notifications, account), cursor);
      var left := set row | row in RowsOf(notifications, account) && (cursor.None? || Below(row, cursor.value));
      assert forall row :: row in left <==> row in all;
      rows := [];
      while left != {} && |rows| < take
        invariant |rows| <= |all| && |rows| <= take && rows == all[..|rows|]
        invariant forall row :: row in left <==> row in all[|rows|..]
        decreases left
      {
        HeadLeads(all, |rows|, left);
        var row :| row in left && Leads(row, left);
        rows := rows + [row];
        left := left - {row};
      }
      assert |rows| < |all| ==> all[|rows|] in all[|rows|..];
    }

    method ListPage(account: AccountId, limit: nat, cursor: Option<Cursor>) returns (items: seq<Row>,
                    nextCursor: Option<Cursor>)
      requires limit >= 1
      ensures (items, nextCursor) == List(InboxOf(notifications, account), limit, cursor)
    {
      var rows := GetMany(account, cursor, limit + 1);
      var hasMore := |rows| > limit;
      items := if hasMore then rows[..limit] else rows;
      nextCursor := if hasMore && |items| > 0 then Some(CursorOf(items[|items| - 1])) else None;
    }

    method Remove(account: AccountId, id: NotificationId, now: Time) returns (found: bool)
      modifies this
      ensures found <==> Listed(old(notifications), account, id)
      ensures notifications ==
        if found then old(notifications)[id := old(notifications)[id].(deletedAt := Some(now))] else old(notifications)
    {
      if !Listed(notifications, account, id) { return false; }
      notifications := notifications[id := notifications[id].(deletedAt := Some(now))];
      return true;
    }
  }
}
