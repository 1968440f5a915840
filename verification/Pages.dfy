/** The ticket listing: filters, cursors and the rows of a table that changes between requests. */
module Pages {
  import opened Prelude
  import opened Cursor
  import opened Tickets
  import opened Keyset

  type Table = map<Uuid, Ticket>

  /** `search` is the case-insensitive pattern test the database runs on subjects. */
  datatype Filter = Filter(organization: Uuid, status: Option<Status>, priority: Option<Priority>, search: Option<string -> bool>)

  predicate Matches(f: Filter, t: Ticket) {
    t.organization == f.organization
    && (f.status.Some? ==> t.status == f.status.value)
    && (f.priority.Some? ==> t.priority == f.priority.value)
    && (f.search.Some? ==> f.search.value(t.subject))
  }

  function KeyOf(t: Ticket, id: Uuid): Key {
    Key(Instant(t.createdAt), id)
  }

  /** The keys of the rows that match the filter. */
  function View(table: Table, f: Filter): (view: set<Key>)
    ensures forall k :: k in view <==> InView(table, f, k)
  {
    set id | id in table && Matches(f, table[id]) :: KeyOf(table[id], id)
  }

  predicate InView(table: Table, f: Filter, k: Key) {
    k.id < Pow(16, 32) && k.id in table && Matches(f, table[k.id]) && k == KeyOf(table[k.id], k.id)
  }

  // ------------------------------------------------------------------
  // One request
  // ------------------------------------------------------------------

  datatype Page = Page(keys: seq<Key>, next: Option<string>, more: bool)

  /** A missing, empty or unreadable cursor puts no bound on the rows. */
  function CursorBound(cursor: Option<string>): Option<Key> {
    if cursor.None? || cursor.value == "" then None
    else
      match DecodeCursor(cursor.value)
      case Some((t, id)) => Some(Key(Instant(t), id))
      case None => None
  }

  function CursorAfter(table: Table, f: Filter, keys: seq<Key>): string
    requires keys != [] && InView(table, f, keys[|keys| - 1])
  {
    var last := keys[|keys| - 1].id;
    EncodeCursor(table[last].createdAt, last)
  }

  function ListPage(table: Table, f: Filter, cursor: Option<string>, limit: nat): Page {
    var all := Cut(View(table, f), CursorBound(cursor));
    var sorted := SortDesc(all);
    var fetched := if |sorted| > limit + 1 then sorted[..limit + 1] else sorted;
    var more := |fetched| > limit;
    var keys := if more then fetched[..limit] else fetched;
    Sorts(all);
    assert keys != [] ==> keys[|keys| - 1] == sorted[|keys| - 1] && sorted[|keys| - 1] in sorted;
    Page(keys, if more && keys != [] then Some(CursorAfter(table, f, keys)) else None, more)
  }

  // The silent fallback never fires on a cursor the service handed out.
  lemma OwnCursorBounds(t: Stamp, id: Uuid)
    ensures CursorBound(Some(EncodeCursor(t, id))) == Some(Key(Instant(t), id))
  {
    CursorRoundTrip(t, id);
    CursorNonEmpty(t, id);
  }

  lemma NextCursorBounds(table: Table, f: Filter, keys: seq<Key>)
    requires keys != [] && InView(table, f, keys[|keys| - 1])
    ensures CursorBound(Some(CursorAfter(table, f, keys))) == Some(keys[|keys| - 1])
  {
    var id := keys[|keys| - 1].id;
    OwnCursorBounds(table[id].createdAt, id);
  }

  lemma PageKeysAgree(table: Table, f: Filter, cursor: Option<string>, limit: nat)
    ensures var p := ListPage(table, f, cursor, limit); var view := View(table, f); var bound := CursorBound(cursor);
      && p.keys == PageKeys(view, bound, limit)
      && p.more == HasMore(view, bound, limit)
  {
  }

  lemma LastKeyInView(table: Table, f: Filter, cursor: Option<string>, limit: nat)
    ensures var ks := PageKeys(View(table, f), CursorBound(cursor), limit);
      ks != [] ==> InView(table, f, ks[|ks| - 1])
  {
    var ks := PageKeys(View(table, f), CursorBound(cursor), limit);
    PageIsNewestRows(View(table, f), CursorBound(cursor), limit);
    assert ks != [] ==> ks[|ks| - 1] in ks;
  }

  lemma PageIsKeyset(table: Table, f: Filter, cursor: Option<string>, limit: nat)
    ensures var p := ListPage(table, f, cursor, limit); var view := View(table, f); var bound := CursorBound(cursor);
      && p.keys == PageKeys(view, bound, limit)
      && p.more == HasMore(view, bound, limit)
      && (p.next.Some? <==> NextBound(view, bound, limit).Some?)
      && (p.next.Some? ==>
            && p.keys != [] && InView(table, f, p.keys[|p.keys| - 1])
            && p.next.value == CursorAfter(table, f, p.keys)
            && NextBound(view, bound, limit) == Some(p.keys[|p.keys| - 1]))
  {
    PageKeysAgree(table, f, cursor, limit);
    LastKeyInView(table, f, cursor, limit);
  }

  lemma PageRefinesKeyset(table: Table, f: Filter, cursor: Option<string>, limit: nat)
    ensures var p := ListPage(table, f, cursor, limit); var view := View(table, f); var bound := CursorBound(cursor);
      && p.keys == PageKeys(view, bound, limit)
      && p.more == HasMore(view, bound, limit)
      && (p.next.Some? <==> NextBound(view, bound, limit).Some?)
      && (p.next.Some? ==> CursorBound(p.next) == NextBound(view, bound, limit))
  {
    PageIsKeyset(table, f, cursor, limit);
    var p := ListPage(table, f, cursor, limit);
    if p.next.Some? {
      NextCursorBounds(table, f, p.keys);
    }
  }

  // ------------------------------------------------------------------
  // Following next_cursor
  // ------------------------------------------------------------------

  /** The rows returned when request number i sees tables[i]. */
  function Follow(tables: seq<Table>, f: Filter, cursor: Option<string>, limit: nat): seq<Key> {
    if tables == [] then []
    else
      var p := ListPage(tables[0], f, cursor, limit);
      p.keys + if p.next.None? then [] else Follow(tables[1..], f, p.next, limit)
  }

  /** Some request returned no next cursor. */
  predicate ReachesEnd(tables: seq<Table>, f: Filter, cursor: Option<string>, limit: nat) {
    tables != [] &&
    var p := ListPage(tables[0], f, cursor, limit);
    p.next.None? || ReachesEnd(tables[1..], f, p.next, limit)
  }

  function Views(tables: seq<Table>, f: Filter): (views: seq<set<Key>>)
    ensures |views| == |tables|
    ensures forall i :: 0 <= i < |views| ==> views[i] == View(tables[i], f)
  {
    if tables == [] then [] else [View(tables[0], f)] + Views(tables[1..], f)
  }

  lemma {:induction false} FollowRefinesKeyset(tables: seq<Table>, f: Filter, cursor: Option<string>, limit: nat)
    ensures Follow(tables, f, cursor, limit) == Walk(Views(tables, f), CursorBound(cursor), limit)
    ensures ReachesEnd(tables, f, cursor, limit) == Finished(Views(tables, f), CursorBound(cursor), limit)
  {
    if tables != [] {
      PageRefinesKeyset(tables[0], f, cursor, limit);
      FollowRefinesKeyset(tables[1..], f, ListPage(tables[0], f, cursor, limit).next, limit);
    }
  }

  /** created_at is never updated. */
  predicate CreatedOnce(tables: seq<Table>) {
    forall i, j, id :: 0 <= i < |tables| && 0 <= j < |tables| && id in tables[i] && id in tables[j]
      ==> tables[i][id].createdAt == tables[j][id].createdAt
  }

  lemma ReturnedRowMatched(tables: seq<Table>, f: Filter, cursor: Option<string>, limit: nat, k: Key)
    requires k in Follow(tables, f, cursor, limit)
    ensures exists i :: 0 <= i < |tables| && InView(tables[i], f, k)
  {
    var views := Views(tables, f);
    FollowRefinesKeyset(tables, f, cursor, limit);
    WalkReturnsMatchingRows(views, CursorBound(cursor), limit, k);
    var i :| 0 <= i < |views| && k in views[i];
    assert InView(tables[i], f, k);
  }

  // Whatever other writers do between the requests: tickets come newest first, and since created_at
  // is written once no ticket comes back twice.
  lemma EachTicketOnceInOrder(tables: seq<Table>, f: Filter, cursor: Option<string>, limit: nat)
    ensures var w := Follow(tables, f, cursor, limit);
      && (forall i, j :: 0 <= i < j < |w| ==> w[i].at > w[j].at || (w[i].at == w[j].at && w[i].id > w[j].id))
      && (forall k :: k in w ==> exists i :: 0 <= i < |tables| && InView(tables[i], f, k))
      && (CreatedOnce(tables) ==> forall i, j :: 0 <= i < j < |w| ==> w[i].id != w[j].id)
  {
    var w := Follow(tables, f, cursor, limit);
    forall k | k in w
      ensures exists i :: 0 <= i < |tables| && InView(tables[i], f, k)
    {
      ReturnedRowMatched(tables, f, cursor, limit, k);
    }
    FollowRefinesKeyset(tables, f, cursor, limit);
    WalkDescends(Views(tables, f), CursorBound(cursor), limit);
    if CreatedOnce(tables) {
      CreatedOnceIsStable(tables, f);
      NoRowTwice(Views(tables, f), CursorBound(cursor), limit);
    }
  }

  lemma CreatedOnceIsStable(tables: seq<Table>, f: Filter)
    requires CreatedOnce(tables)
    ensures StableKeys(Views(tables, f))
  {
    var views := Views(tables, f);
    forall i, j, k: Key, l: Key | 0 <= i < |views| && 0 <= j < |views| && k in views[i] && l in views[j] && k.id == l.id
      ensures k == l
    {
      assert InView(tables[i], f, k) && InView(tables[j], f, l);
      assert tables[i][k.id].createdAt == tables[j][k.id].createdAt;
    }
  }

  // A ticket that exists and matches at every request is in the result.
  lemma NoTicketMissed(tables: seq<Table>, f: Filter, limit: nat, k: Key)
    requires limit >= 1 && ReachesEnd(tables, f, None, limit)
    requires forall i :: 0 <= i < |tables| ==> InView(tables[i], f, k)
    ensures k in Follow(tables, f, None, limit)
  {
    FollowRefinesKeyset(tables, f, None, limit);
    var views := Views(tables, f);
    forall i | 0 <= i < |views|
      ensures k in views[i]
    {
      assert InView(tables[i], f, k);
    }
    WalkMissesNothing(views, None, limit, k);
  }

  // ------------------------------------------------------------------
  // Listing rewrites priorities itself: the SLA check runs on every returned row
  // ------------------------------------------------------------------

  /** The table after the SLA check of the listed rows; clock(i) is the clock read for row i. */
  function CheckRows(table: Table, ids: seq<Uuid>, clock: nat -> int): (later: Table)
    requires forall id :: id in ids ==> id in table
    ensures later.Keys == table.Keys
  {
    if ids == [] then table
    else
      var n := |ids| - 1;
      var sofar := CheckRows(table, ids[..n], clock);
      sofar[ids[n] := Checked(sofar[ids[n]], clock(n))]
  }

  lemma {:induction false} CheckRowsFrame(table: Table, ids: seq<Uuid>, clock: nat -> int, id: Uuid)
    requires id in table && forall id :: id in ids ==> id in table
    ensures CheckRows(table, ids, clock)[id].createdAt == table[id].createdAt
    ensures id !in ids ==> CheckRows(table, ids, clock)[id] == table[id]
  {
    if ids != [] {
      CheckRowsFrame(table, ids[..|ids| - 1], clock, id);
    }
  }

  function Ids(keys: seq<Key>): (ids: seq<Uuid>)
    requires forall k :: k in keys ==> k.id < Pow(16, 32)
    ensures |ids| == |keys|
    ensures forall i :: 0 <= i < |keys| ==> ids[i] == keys[i].id
  {
    if keys == [] then [] else [keys[0].id] + Ids(keys[1..])
  }

  lemma PageRows(table: Table, f: Filter, cursor: Option<string>, limit: nat)
    ensures forall k :: k in ListPage(table, f, cursor, limit).keys ==> InView(table, f, k)
  {
    PageRefinesKeyset(table, f, cursor, limit);
    PageIsNewestRows(View(table, f), CursorBound(cursor), limit);
  }

  lemma PageIsStored(table: Table, f: Filter, cursor: Option<string>, limit: nat)
    ensures forall k :: k in ListPage(table, f, cursor, limit).keys ==> k.id < Pow(16, 32) && k.id in table
  {
    PageRows(table, f, cursor, limit);
  }

  function PageIds(table: Table, f: Filter, cursor: Option<string>, limit: nat): (ids: seq<Uuid>)
    ensures forall id :: id in ids ==> id in table
  {
    PageIsStored(table, f, cursor, limit);
    Ids(ListPage(table, f, cursor, limit).keys)
  }

  /** A listed id's key comes from the page. */
  lemma ListedKeys(table: Table, f: Filter, cursor: Option<string>, limit: nat, i: nat)
    requires i < |PageIds(table, f, cursor, limit)|
    ensures var keys, id := ListPage(table, f, cursor, limit).keys, PageIds(table, f, cursor, limit)[i];
      |keys| == |PageIds(table, f, cursor, limit)| && keys[i] == KeyOf(table[id], id) && InView(table, f, keys[i])
  {
    PageIsStored(table, f, cursor, limit);
    PageRows(table, f, cursor, limit);
    assert InView(table, f, ListPage(table, f, cursor, limit).keys[i]);
  }

  // One listing by the tickets' own fields: at most `limit`, latest created first and by descending id
  // among tickets created at the same instant.
  lemma ListedInOrder(table: Table, f: Filter, cursor: Option<string>, limit: nat, i: nat, j: nat)
    requires i < j < |PageIds(table, f, cursor, limit)|
    ensures var ids := PageIds(table, f, cursor, limit); var t, u := table[ids[i]], table[ids[j]];
      Instant(t.createdAt) > Instant(u.createdAt) || (Instant(t.createdAt) == Instant(u.createdAt) && ids[i] > ids[j])
    ensures |PageIds(table, f, cursor, limit)| <= limit
  {
    ListedKeys(table, f, cursor, limit, i);
    ListedKeys(table, f, cursor, limit, j);
    PageRefinesKeyset(table, f, cursor, limit);
    PageInOrder(View(table, f), CursorBound(cursor), limit);
  }

  // Each is of the organization, has the status and priority asked for and a subject that matches.
  lemma ListedMatches(table: Table, f: Filter, cursor: Option<string>, limit: nat, id: Uuid)
    requires id in PageIds(table, f, cursor, limit)
    ensures var t := table[id];
      && t.organization == f.organization
      && (f.status.None? || t.status == f.status.value)
      && (f.priority.None? || t.priority == f.priority.value)
      && (f.search.None? || f.search.value(t.subject))
  {
    var i :| 0 <= i < |PageIds(table, f, cursor, limit)| && PageIds(table, f, cursor, limit)[i] == id;
    ListedKeys(table, f, cursor, limit, i);
  }

  // After the cursor of a ticket come only tickets created before it, or at its instant with a smaller id.
  lemma ListedAfterCursor(table: Table, f: Filter, last: Stamp, lastId: Uuid, limit: nat, id: Uuid)
    requires id in PageIds(table, f, Some(EncodeCursor(last, lastId)), limit)
    ensures var t := table[id];
      Instant(t.createdAt) < Instant(last) || (Instant(t.createdAt) == Instant(last) && id < lastId)
  {
    var cursor := Some(EncodeCursor(last, lastId));
    var i :| 0 <= i < |PageIds(table, f, cursor, limit)| && PageIds(table, f, cursor, limit)[i] == id;
    ListedKeys(table, f, cursor, limit, i);
    OwnCursorBounds(last, lastId);
    PageRefinesKeyset(table, f, cursor, limit);
    PageRow(View(table, f), CursorBound(cursor), limit, ListPage(table, f, cursor, limit).keys[i]);
  }

  lemma LeftOutKey(table: Table, f: Filter, cursor: Option<string>, limit: nat, id: Uuid)
    requires id in table && id !in PageIds(table, f, cursor, limit)
    ensures KeyOf(table[id], id) !in ListPage(table, f, cursor, limit).keys
  {
    PageIsStored(table, f, cursor, limit);
  }

  lemma LeftOutOfView(table: Table, f: Filter, cursor: Option<string>, limit: nat, k: Key, x: Key)
    requires var keys := ListPage(table, f, cursor, limit).keys; InView(table, f, k) && k !in keys && x in keys
    requires var bound := CursorBound(cursor);
      bound.Some? ==> k.at < bound.value.at || (k.at == bound.value.at && k.id < bound.value.id)
    ensures var p := ListPage(table, f, cursor, limit);
      |p.keys| == limit && p.more && (x.at > k.at || (x.at == k.at && x.id > k.id))
  {
    PageRefinesKeyset(table, f, cursor, limit);
    PageLeavesOut(View(table, f), CursorBound(cursor), limit, k);
    PageInOrder(View(table, f), CursorBound(cursor), limit);
  }

  /** What is left out although before the bound comes after every row of a full page. */
  lemma LeftOutIsLater(table: Table, f: Filter, cursor: Option<string>, limit: nat, id: Uuid, i: nat)
    requires id in table && Matches(f, table[id]) && id !in PageIds(table, f, cursor, limit) && i < |PageIds(table, f, cursor, limit)|
    requires var k, bound := KeyOf(table[id], id), CursorBound(cursor);
      bound.Some? ==> k.at < bound.value.at || (k.at == bound.value.at && k.id < bound.value.id)
    ensures var ids := PageIds(table, f, cursor, limit); var k, u := KeyOf(table[id], id), KeyOf(table[ids[i]], ids[i]);
      |ids| == limit && ListPage(table, f, cursor, limit).more && (u.at > k.at || (u.at == k.at && u.id > k.id))
  {
    LeftOutKey(table, f, cursor, limit, id);
    ListedKeys(table, f, cursor, limit, i);
    LeftOutOfView(table, f, cursor, limit, KeyOf(table[id], id), ListPage(table, f, cursor, limit).keys[i]);
  }

  // A matching ticket is left out only if it comes after the whole of a full page, or not after the cursor.
  lemma LeftOutComesLater(table: Table, f: Filter, after: Option<(Stamp, Uuid)>, limit: nat, id: Uuid, i: nat)
    requires var cursor := if after.None? then None else Some(EncodeCursor(after.value.0, after.value.1));
      id in table && id !in PageIds(table, f, cursor, limit) && i < |PageIds(table, f, cursor, limit)|
    requires var t := table[id];
      && t.organization == f.organization
      && (f.status.None? || t.status == f.status.value)
      && (f.priority.None? || t.priority == f.priority.value)
      && (f.search.None? || f.search.value(t.subject))
      && (after.None? || Instant(t.createdAt) < Instant(after.value.0)
          || (Instant(t.createdAt) == Instant(after.value.0) && id < after.value.1))
    ensures var cursor := if after.None? then None else Some(EncodeCursor(after.value.0, after.value.1));
      var ids := PageIds(table, f, cursor, limit); var t, u := table[id], table[ids[i]];
      && |ids| == limit && ListPage(table, f, cursor, limit).more
      && (Instant(t.createdAt) < Instant(u.createdAt) || (Instant(t.createdAt) == Instant(u.createdAt) && id < ids[i]))
  {
    var cursor := if after.None? then None else Some(EncodeCursor(after.value.0, after.value.1));
    if after.Some? {
      OwnCursorBounds(after.value.0, after.value.1);
    }
    LeftOutIsLater(table, f, cursor, limit, id, i);
  }

  // The cursor handed out is the last listed ticket's, and only when there is more.
  lemma NextIsOfTheLast(table: Table, f: Filter, cursor: Option<string>, limit: nat)
    ensures var p, ids := ListPage(table, f, cursor, limit), PageIds(table, f, cursor, limit);
      && (p.next.Some? <==> p.more && ids != [])
      && (p.next.Some? ==> var last := ids[|ids| - 1]; p.next.value == EncodeCursor(table[last].createdAt, last))
  {
    PageIsStored(table, f, cursor, limit);
    PageIsKeyset(table, f, cursor, limit);
  }

  // A cursor that is empty or does not decode lists from the start.
  lemma UnreadableCursor(table: Table, f: Filter, cursor: string, limit: nat)
    requires cursor == "" || DecodeCursor(cursor).None?
    ensures ListPage(table, f, Some(cursor), limit) == ListPage(table, f, None, limit)
  {
  }

  /** The table one listing request leaves behind. */
  function AfterListing(table: Table, f: Filter, cursor: Option<string>, limit: nat, clock: nat -> int): Table {
    CheckRows(table, PageIds(table, f, cursor, limit), clock)
  }

  lemma {:induction false} CheckRowsOnce(table: Table, ids: seq<Uuid>, clock: nat -> int, i: nat)
    requires i < |ids| && forall id :: id in ids ==> id in table
    requires forall a, b :: 0 <= a < b < |ids| ==> ids[a] != ids[b]
    ensures CheckRows(table, ids, clock)[ids[i]] == Checked(table[ids[i]], clock(i))
  {
    var n := |ids| - 1;
    if i < n {
      CheckRowsOnce(table, ids[..n], clock, i);
    } else {
      CheckRowsFrame(table, ids[..n], clock, ids[n]);
    }
  }

  // A listing checks each ticket it answers once and leaves every other as it was.
  lemma ListedAreChecked(table: Table, f: Filter, cursor: Option<string>, limit: nat, clock: nat -> int, id: Uuid)
    requires id in table
    ensures var ids, later := PageIds(table, f, cursor, limit), AfterListing(table, f, cursor, limit, clock);
      && (id !in ids ==> later[id] == table[id])
      && (forall i :: 0 <= i < |ids| && ids[i] == id ==> later[id] == Checked(table[id], clock(i)))
  {
    var ids := PageIds(table, f, cursor, limit);
    CheckRowsFrame(table, ids, clock, id);
    forall a, b | 0 <= a < b < |ids|
      ensures ids[a] != ids[b]
    {
      ListedInOrder(table, f, cursor, limit, a, b);
    }
    forall i | 0 <= i < |ids| && ids[i] == id
      ensures AfterListing(table, f, cursor, limit, clock)[id] == Checked(table[id], clock(i))
    {
      CheckRowsOnce(table, ids, clock, i);
    }
  }

  /** The tables successive requests see when nothing but the listing itself changes tickets. */
  function Evolve(table: Table, f: Filter, cursor: Option<string>, limit: nat, clocks: seq<nat -> int>): seq<Table>
    decreases |clocks|
  {
    if clocks == [] then []
    else
      var next := ListPage(table, f, cursor, limit).next;
      [table] + if next.None? then [] else Evolve(AfterListing(table, f, cursor, limit, clocks[0]), f, next, limit, clocks[1..])
  }

  lemma LastIsNotBelow(keys: seq<Key>, i: nat)
    requires Descending(keys) && i < |keys|
    ensures !Below(Some(keys[|keys| - 1]), keys[i])
  {
    assert i < |keys| - 1 ==> Newer(keys[i], keys[|keys| - 1]);
  }

  lemma ListedKey(table: Table, f: Filter, cursor: Option<string>, limit: nat, id: Uuid) returns (i: nat)
    requires id in PageIds(table, f, cursor, limit)
    ensures var keys := ListPage(table, f, cursor, limit).keys; i < |keys| && keys[i] == KeyOf(table[id], id)
  {
    var ids := PageIds(table, f, cursor, limit);
    i :| 0 <= i < |ids| && ids[i] == id;
    ListedKeys(table, f, cursor, limit, i);
  }

  lemma NextIsLast(table: Table, f: Filter, cursor: Option<string>, limit: nat)
    requires ListPage(table, f, cursor, limit).next.Some?
    ensures var p := ListPage(table, f, cursor, limit);
      p.keys != [] && Descending(p.keys) && CursorBound(p.next) == Some(p.keys[|p.keys| - 1])
  {
    PageRefinesKeyset(table, f, cursor, limit);
    PageIsNewestRows(View(table, f), CursorBound(cursor), limit);
  }

  lemma ListedIdsAreAbove(table: Table, f: Filter, cursor: Option<string>, limit: nat, id: Uuid)
    requires ListPage(table, f, cursor, limit).next.Some? && id in PageIds(table, f, cursor, limit)
    ensures !Below(CursorBound(ListPage(table, f, cursor, limit).next), KeyOf(table[id], id))
  {
    NextIsLast(table, f, cursor, limit);
    var i := ListedKey(table, f, cursor, limit, id);
    LastIsNotBelow(ListPage(table, f, cursor, limit).keys, i);
  }

  // Rows the check rewrites do not lie below the next cursor.
  lemma CheckedRowsAreAbove(table: Table, f: Filter, cursor: Option<string>, limit: nat, clock: nat -> int, k: Key)
    requires ListPage(table, f, cursor, limit).next.Some?
    ensures var next := CursorBound(ListPage(table, f, cursor, limit).next);
      k in Cut(View(AfterListing(table, f, cursor, limit, clock), f), next) <==> k in Cut(View(table, f), next)
  {
    var ids := PageIds(table, f, cursor, limit);
    var later := AfterListing(table, f, cursor, limit, clock);
    if k.id < Pow(16, 32) && k.id in table {
      CheckRowsFrame(table, ids, clock, k.id);
      if k.id in ids {
        ListedIdsAreAbove(table, f, cursor, limit, k.id);
      }
    }
    assert k in View(later, f) <==> InView(later, f, k);
    assert k in View(table, f) <==> InView(table, f, k);
  }

  lemma ListingLeavesTheRest(table: Table, f: Filter, cursor: Option<string>, limit: nat, clock: nat -> int)
    requires ListPage(table, f, cursor, limit).next.Some?
    ensures var next := CursorBound(ListPage(table, f, cursor, limit).next);
      Cut(View(AfterListing(table, f, cursor, limit, clock), f), next) == Cut(View(table, f), next)
  {
    forall k
      ensures var next := CursorBound(ListPage(table, f, cursor, limit).next);
        k in Cut(View(AfterListing(table, f, cursor, limit, clock), f), next) <==> k in Cut(View(table, f), next)
    {
      CheckedRowsAreAbove(table, f, cursor, limit, clock, k);
    }
  }

  lemma SettledOneMore(view: set<Key>, rest: seq<set<Key>>, bound: Option<Key>, limit: nat)
    requires var next := NextBound(view, bound, limit);
      rest != [] && next.Some? ==> Cut(rest[0], next) == Cut(view, next) && SettledBelow(rest, next, limit)
    ensures SettledBelow([view] + rest, bound, limit)
  {
    assert ([view] + rest)[1..] == rest;
  }

  lemma ViewsOneMore(table: Table, rest: seq<Table>, f: Filter)
    ensures Views([table] + rest, f) == [View(table, f)] + Views(rest, f)
  {
    assert ([table] + rest)[1..] == rest;
  }

  lemma {:induction false} OwnChecksSettle(table: Table, f: Filter, cursor: Option<string>, limit: nat, clocks: seq<nat -> int>)
    ensures SettledBelow(Views(Evolve(table, f, cursor, limit, clocks), f), CursorBound(cursor), limit)
    decreases |clocks|
  {
    if clocks != [] {
      var next, later := ListPage(table, f, cursor, limit).next, AfterListing(table, f, cursor, limit, clocks[0]);
      var rest := if next.None? then [] else Evolve(later, f, next, limit, clocks[1..]);
      PageRefinesKeyset(table, f, cursor, limit);
      ViewsOneMore(table, rest, f);
      if next.Some? {
        ListingLeavesTheRest(table, f, cursor, limit, clocks[0]);
        OwnChecksSettle(later, f, next, limit, clocks[1..]);
      }
      SettledOneMore(View(table, f), Views(rest, f), CursorBound(cursor), limit);
    }
  }

  lemma Uncut(view: set<Key>)
    ensures Cut(view, None) == view
  {
  }

  lemma WholeWalk(table: Table, f: Filter, limit: nat, clocks: seq<nat -> int>)
    requires limit >= 1 && |clocks| >= PagesNeeded(|View(table, f)|, limit)
    ensures |Evolve(table, f, None, limit, clocks)| == PagesNeeded(|View(table, f)|, limit) >= 1
  {
    Uncut(View(table, f));
    EvolveLength(table, f, None, limit, clocks);
  }

  // With no other writer, following the cursor returns exactly the sorted list of the rows that
  // matched before the first request, although the listing itself escalates rows as it goes, and
  // takes exactly the number of requests that many rows need.
  lemma OwnEscalationsDoNotDisturb(table: Table, f: Filter, limit: nat, clocks: seq<nat -> int>)
    requires limit >= 1 && |clocks| >= PagesNeeded(|View(table, f)|, limit)
    ensures var tables := Evolve(table, f, None, limit, clocks);
      && Follow(tables, f, None, limit) == SortDesc(View(table, f))
      && ReachesEnd(tables, f, None, limit)
      && |tables| == PagesNeeded(|View(table, f)|, limit)
  {
    var tables := Evolve(table, f, None, limit, clocks);
    OwnChecksSettle(table, f, None, limit, clocks);
    FollowRefinesKeyset(tables, f, None, limit);
    Uncut(View(table, f));
    WholeWalk(table, f, limit, clocks);
    SettledWalkIsSortedList(Views(tables, f), None, limit);
  }

  /** How many matching rows are below the cursor. */
  function RowsBelow(table: Table, f: Filter, cursor: Option<string>): nat {
    |Cut(View(table, f), CursorBound(cursor))|
  }

  lemma RowsLeft(table: Table, f: Filter, cursor: Option<string>, limit: nat, clock: nat -> int)
    requires limit >= 1
    ensures var next, rows := ListPage(table, f, cursor, limit).next, RowsBelow(table, f, cursor);
      && (next.Some? <==> rows > limit)
      && (next.Some? ==> RowsBelow(AfterListing(table, f, cursor, limit, clock), f, next) == rows - limit)
  {
    PageRefinesKeyset(table, f, cursor, limit);
    var next := ListPage(table, f, cursor, limit).next;
    if next.Some? {
      ListingLeavesTheRest(table, f, cursor, limit, clock);
      Remainder(View(table, f), CursorBound(cursor), limit);
      assert |SortDesc(Cut(View(table, f), CursorBound(next)))| == |Cut(View(table, f), CursorBound(cursor))| - limit;
    }
  }

  /** Fewer clock functions than requests needed cut the walk short. */
  function Requests(rows: nat, limit: nat, clocks: nat): nat
    requires limit >= 1
  {
    if clocks < PagesNeeded(rows, limit) then clocks else PagesNeeded(rows, limit)
  }

  /** One page, and what the rest of the walk takes. */
  lemma OneMoreRequest(walk: nat, rest: nat, more: bool, rows: nat, left: nat, limit: nat, clocks: nat)
    requires limit >= 1 && clocks >= 1 && (more <==> rows > limit)
    requires walk == 1 + if more then rest else 0
    requires more ==> left == rows - limit && rest == Requests(left, limit, clocks - 1)
    ensures walk == Requests(rows, limit, clocks)
  {
  }

  lemma FirstRequest(table: Table, f: Filter, cursor: Option<string>, limit: nat, clocks: seq<nat -> int>)
    requires clocks != []
    ensures var next := ListPage(table, f, cursor, limit).next;
      |Evolve(table, f, cursor, limit, clocks)| ==
        1 + if next.Some? then |Evolve(AfterListing(table, f, cursor, limit, clocks[0]), f, next, limit, clocks[1..])| else 0
  {
  }

  lemma {:induction false} EvolveLength(table: Table, f: Filter, cursor: Option<string>, limit: nat, clocks: seq<nat -> int>)
    requires limit >= 1
    ensures |Evolve(table, f, cursor, limit, clocks)| == Requests(RowsBelow(table, f, cursor), limit, |clocks|)
    decreases |clocks|
  {
    if clocks == [] {
      assert |Evolve(table, f, cursor, limit, clocks)| == 0;
    } else {
      var next, later := ListPage(table, f, cursor, limit).next, AfterListing(table, f, cursor, limit, clocks[0]);
      EvolveLength(later, f, next, limit, clocks[1..]);
      RowsLeft(table, f, cursor, limit, clocks[0]);
      FirstRequest(table, f, cursor, limit, clocks);
      OneMoreRequest(|Evolve(table, f, cursor, limit, clocks)|, |Evolve(later, f, next, limit, clocks[1..])|, next.Some?,
                     RowsBelow(table, f, cursor), RowsBelow(later, f, next), limit, |clocks|);
    }
  }
}
