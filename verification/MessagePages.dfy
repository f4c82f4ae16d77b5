/** Keyset pagination of chat messages (app/repositories/chat.py, list_messages_paginated): pages of a room in
    descending (timestamp, id) order, continued from the id of the oldest message seen. */
module MessagePages {
  import opened Common

  type RoomId = nat
  type MessageId = nat

  datatype Message = Message(id: MessageId, timestamp: int, room: RoomId)

  /** Ids are primary keys. */
  ghost predicate UniqueIds(table: set<Message>) {
    forall m, n :: m in table && n in table && m.id == n.id ==> m == n
  }

  predicate Older(m: Message, n: Message) {
    m.timestamp < n.timestamp || (m.timestamp == n.timestamp && m.id < n.id)
  }

  ghost predicate HasId(table: set<Message>, id: MessageId) {
    exists m :: m in table && m.id == id
  }

  /** The row the cursor subquery finds. */
  ghost function Row(table: set<Message>, id: MessageId): (m: Message)
    requires HasId(table, id)
    ensures m in table && m.id == id
  {
    var m :| m in table && m.id == id;
    m
  }

  /** The WHERE clause. The cursor is looked up among the messages of all rooms; if it is gone, its timestamp
      is NULL and no row qualifies. */
  ghost function Candidates(table: set<Message>, room: RoomId, before: Option<MessageId>): set<Message> {
    set m | m in table && m.room == room &&
      (before.None? || (HasId(table, before.value) && Older(m, Row(table, before.value))))
  }

  // ----- ORDER BY timestamp DESC, id DESC -----

  ghost predicate IsNewest(s: set<Message>, m: Message) {
    m in s && forall n :: n in s && n != m ==> Older(n, m)
  }

  lemma {:induction false} NewestExists(s: set<Message>)
    requires s != {} && UniqueIds(s)
    ensures exists m :: IsNewest(s, m)
    decreases |s|
  {
    var x :| x in s;
    if s - {x} == {} {
      assert s == {x};
      assert IsNewest(s, x);
    } else {
      NewestExists(s - {x});
      var y :| IsNewest(s - {x}, y);
      if Older(x, y) {
        assert IsNewest(s, y);
      } else {
        assert Older(y, x);
        forall n | n in s && n != x ensures Older(n, x) {
          assert n in s - {x} && (n != y ==> Older(n, y));
        }
        assert IsNewest(s, x);
      }
    }
  }

  ghost function Newest(s: set<Message>): (m: Message)
    requires s != {} && UniqueIds(s)
    ensures IsNewest(s, m)
  {
    NewestExists(s);
    var m :| IsNewest(s, m);
    m
  }

  ghost function Listing(s: set<Message>): (r: seq<Message>)
    requires UniqueIds(s)
    ensures |r| == |s|
    ensures forall m :: m in r <==> m in s
    decreases |s|
  {
    if s == {} then [] else [Newest(s)] + Listing(s - {Newest(s)})
  }

  ghost predicate Descending(r: seq<Message>) {
    forall i, j :: 0 <= i < j < |r| ==> Older(r[j], r[i])
  }

  lemma {:induction false} ListingDescends(s: set<Message>)
    requires UniqueIds(s)
    ensures Descending(Listing(s))
    decreases |s|
  {
    if s != {} {
      var rest := s - {Newest(s)};
      ListingDescends(rest);
      assert forall m :: m in Listing(rest) ==> m in s && m != Newest(s);
    }
  }

  /** A descending sequence is determined by its members. */
  lemma {:induction false} DescendingIsListing(r: seq<Message>, s: set<Message>)
    requires UniqueIds(s) && Descending(r)
    requires forall m :: m in r <==> m in s
    ensures r == Listing(s)
    decreases |r|
  {
    if r == [] {
      assert s == {};
    } else {
      var newest := r[0];
      assert newest in s && IsNewest(s, newest);
      assert Newest(s) == newest;
      DescendingIsListing(r[1..], s - {newest});
    }
  }

  function Take(r: seq<Message>, limit: nat): seq<Message> {
    if |r| <= limit then r else r[..limit]
  }

  /** One page, newest first. The service hands the rows out reversed, so the oldest row is the first a client
      sees and the last here. */
  ghost function Page(table: set<Message>, room: RoomId, before: Option<MessageId>, limit: nat): seq<Message>
    requires UniqueIds(table)
  {
    Take(Listing(Candidates(table, room, before)), limit)
  }

  function Reversed(r: seq<Message>): seq<Message> {
    if r == [] then [] else Reversed(r[1..]) + [r[0]]
  }

  /** list_messages_service for a reader with access: the page, oldest first. */
  ghost function ListMessages(table: set<Message>, room: RoomId, before: Option<MessageId>, limit: nat): seq<Message>
    requires UniqueIds(table)
  {
    Reversed(Page(table, room, before, limit))
  }

  /** The response is the page read backwards. */
  lemma {:induction false} ReversedAt(r: seq<Message>, k: nat)
    requires k < |r|
    ensures |Reversed(r)| == |r| && Reversed(r)[k] == r[|r| - 1 - k]
  {
    if |r| > 1 {
      ReversedAt(r[1..], if k < |r| - 1 then k else 0);
    }
  }

  lemma {:induction false} ReversedEnds(r: seq<Message>)
    ensures |Reversed(r)| == |r|
    ensures r != [] ==> Reversed(r)[0] == r[|r| - 1]
  {
    if |r| > 1 { ReversedEnds(r[1..]); }
  }

  /** The first message of a response is the cursor of the next request: the oldest row of the page. */
  lemma ResponseCursor(table: set<Message>, room: RoomId, before: Option<MessageId>, limit: nat)
    requires UniqueIds(table) && Page(table, room, before, limit) != []
    ensures var page := Page(table, room, before, limit);
      ListMessages(table, room, before, limit)[0] == page[|page| - 1]
  {
    ReversedEnds(Page(table, room, before, limit));
  }

  // ----- a table that does not change -----

  lemma CandidatesNarrow(table: set<Message>, room: RoomId, before: Option<MessageId>, c: Message)
    requires UniqueIds(table) && c in Candidates(table, room, before)
    ensures Candidates(table, room, Some(c.id)) == OlderIn(Candidates(table, room, before), c)
  {
  }

  ghost function OlderIn(s: set<Message>, c: Message): set<Message> {
    set m | m in s && Older(m, c)
  }

  lemma ListingSplits(s: set<Message>, k: nat)
    requires UniqueIds(s) && 1 <= k <= |Listing(s)|
    ensures Listing(OlderIn(s, Listing(s)[k - 1])) == Listing(s)[k..]
  {
    var all := Listing(s);
    ListingDescends(s);
    forall m ensures m in all[k..] <==> m in OlderIn(s, all[k - 1]) {
    }
    DescendingIsListing(all[k..], OlderIn(s, all[k - 1]));
  }

  ghost function Last(page: seq<Message>): Message
    requires page != []
  {
    page[|page| - 1]
  }

  lemma TakeIsPrefix(all: seq<Message>, limit: nat)
    requires limit >= 1
    ensures var page := Take(all, limit);
      && (page == [] <==> all == [])
      && |page| <= |all| && all == page + all[|page|..]
      && (page != [] ==> Last(page) == all[|page| - 1])
  {
  }

  lemma TakeSplits(s: set<Message>, limit: nat)
    requires UniqueIds(s) && limit >= 1
    ensures var all, page := Listing(s), Take(Listing(s), limit);
      && (page == [] <==> all == [])
      && |page| <= |all| && all == page + all[|page|..]
      && (page != [] ==> Last(page) in s && Listing(OlderIn(s, Last(page))) == all[|page|..])
  {
    TakeIsPrefix(Listing(s), limit);
    var k := |Take(Listing(s), limit)|;
    if k > 0 {
      assert Listing(s)[k - 1] in s;
      ListingSplits(s, k);
    }
  }

  /** What remains after a page is exactly what is older than the page's last row. */
  lemma PageSplits(table: set<Message>, room: RoomId, before: Option<MessageId>, limit: nat)
    requires UniqueIds(table) && limit >= 1
    ensures var all, page := Listing(Candidates(table, room, before)), Page(table, room, before, limit);
      && (page == [] <==> all == [])
      && |page| <= |all| && all == page + all[|page|..]
      && (page != [] ==> Listing(Candidates(table, room, Some(Last(page).id))) == all[|page|..])
  {
    TakeSplits(Candidates(table, room, before), limit);
    var page := Page(table, room, before, limit);
    if page != [] { CandidatesNarrow(table, room, before, Last(page)); }
  }

  /** Page after page from a cursor until an empty page. */
  ghost function Walk(table: set<Message>, room: RoomId, before: Option<MessageId>, limit: nat): seq<Message>
    requires UniqueIds(table) && limit >= 1
    decreases |Candidates(table, room, before)|
  {
    PageSplits(table, room, before, limit);
    var page := Page(table, room, before, limit);
    if page == [] then [] else page + Walk(table, room, Some(Last(page).id), limit)
  }

  /** Walking yields every remaining message once, newest first, for every page size, timestamp ties included. */
  lemma {:induction false} WalkIsListing(table: set<Message>, room: RoomId, before: Option<MessageId>, limit: nat)
    requires UniqueIds(table) && limit >= 1
    ensures Walk(table, room, before, limit) == Listing(Candidates(table, room, before))
    decreases |Candidates(table, room, before)|
  {
    PageSplits(table, room, before, limit);
    var page := Page(table, room, before, limit);
    if page != [] { WalkIsListing(table, room, Some(Last(page).id), limit); }
  }

  /** The pages together are the room's whole history, newest first, messages of one time by descending id. */
  lemma WholeHistory(table: set<Message>, room: RoomId, limit: nat)
    requires UniqueIds(table) && limit >= 1
    ensures var walk := Walk(table, room, None, limit);
      && (forall i, j :: 0 <= i < j < |walk| ==>
            walk[j].timestamp < walk[i].timestamp || (walk[j].timestamp == walk[i].timestamp && walk[j].id < walk[i].id))
      && |walk| == |set m | m in table && m.room == room|
      && (forall m :: m in walk <==> m in table && m.room == room)
  {
    WalkIsListing(table, room, None, limit);
    ListingDescends(Candidates(table, room, None));
    assert Candidates(table, room, None) == set m | m in table && m.room == room;
  }

  /** A page from a message that is still there holds the room's `limit` messages just before it, or all if there
      are fewer; the response lists them oldest first. */
  lemma PageIs(table: set<Message>, room: RoomId, c: Message, limit: nat)
    requires UniqueIds(table) && c in table
    ensures var before := set m | m in table && m.room == room
          && (m.timestamp < c.timestamp || (m.timestamp == c.timestamp && m.id < c.id));
      var page := Page(table, room, Some(c.id), limit);
      && |page| == (if |before| < limit then |before| else limit)
      && (forall m :: m in page ==> m in before)
      && (forall m, n :: m in before && n in page && m !in page ==>
            m.timestamp < n.timestamp || (m.timestamp == n.timestamp && m.id < n.id))
      && Descending(page)
  {
    var s := Candidates(table, room, Some(c.id));
    var all, page := Listing(s), Page(table, room, Some(c.id), limit);
    assert s == set m | m in table && m.room == room
      && (m.timestamp < c.timestamp || (m.timestamp == c.timestamp && m.id < c.id));
    ListingDescends(s);
    forall m, n | m in s && n in page && m !in page ensures Older(m, n) {
      AfterPage(all, limit, m, n);
    }
    DescendingPrefix(all, limit);
  }

  lemma AfterPage(all: seq<Message>, limit: nat, m: Message, n: Message)
    requires Descending(all) && m in all && m !in Take(all, limit) && n in Take(all, limit)
    ensures Older(m, n)
  {
    var page := Take(all, limit);
    var rest := all[|page|..];
    assert all == page + rest && m in rest;
    var i :| 0 <= i < |rest| && rest[i] == m;
    var j :| 0 <= j < |page| && page[j] == n;
    assert all[|page| + i] == m && all[j] == n;
  }

  lemma DescendingPrefix(all: seq<Message>, limit: nat)
    requires Descending(all)
    ensures Descending(Take(all, limit)) && forall m :: m in Take(all, limit) ==> m in all
  {
    assert forall i :: 0 <= i < |Take(all, limit)| ==> Take(all, limit)[i] == all[i];
  }

  // ----- a table that changes between pages -----

  ghost function Cursor(pages: seq<seq<Message>>, i: nat): Option<MessageId>
    requires i <= |pages| && (i > 0 ==> pages[i - 1] != [])
  {
    if i == 0 then None else Some(pages[i - 1][|pages[i - 1]| - 1].id)
  }

  /** Page `i` is read from `tables[i]`. Any message may be inserted or deleted between two pages; `ever` holds
      all messages there ever were, which never change and whose ids are never reused. */
  ghost predicate ChangingWalk(ever: set<Message>, tables: seq<set<Message>>, room: RoomId, limit: nat,
                               pages: seq<seq<Message>>)
  {
    && limit >= 1 && |tables| == |pages| >= 1
    && UniqueIds(ever)
    && (forall i :: 0 <= i < |pages| - 1 ==> pages[i] != [])
    && (forall i :: 0 <= i < |pages| ==> ReadAt(ever, tables[i], room, limit, Cursor(pages, i), pages[i]))
  }

  ghost predicate ReadAt(ever: set<Message>, table: set<Message>, room: RoomId, limit: nat, cursor: Option<MessageId>,
                         page: seq<Message>)
  {
    table <= ever && UniqueIds(table) && page == Page(table, room, cursor, limit)
  }

  /** The message each request continues from is still there. */
  ghost predicate CursorsKept(tables: seq<set<Message>>, pages: seq<seq<Message>>)
    requires |tables| == |pages|
  {
    forall i :: 0 < i < |pages| && pages[i - 1] != [] ==> pages[i - 1][|pages[i - 1]| - 1] in tables[i]
  }

  function Concat(pages: seq<seq<Message>>): seq<Message>
    decreases |pages|
  {
    if pages == [] then [] else Concat(pages[..|pages| - 1]) + pages[|pages| - 1]
  }

  /** Whatever a page from cursor `c` holds is older than `c`, whether or not `c` is still there. */
  lemma PageIsOlder(ever: set<Message>, table: set<Message>, room: RoomId, c: Message, limit: nat, m: Message)
    requires UniqueIds(ever) && UniqueIds(table) && table <= ever && c in ever
    requires m in Page(table, room, Some(c.id), limit)
    ensures Older(m, c)
  {
    var s := Candidates(table, room, Some(c.id));
    assert m in Listing(s) && m in s;
    assert HasId(table, c.id) && Row(table, c.id) in ever && Row(table, c.id) == c;
  }

  lemma PageDescends(table: set<Message>, room: RoomId, before: Option<MessageId>, limit: nat)
    requires UniqueIds(table)
    ensures Descending(Page(table, room, before, limit))
    ensures forall m :: m in Page(table, room, before, limit) ==> m in table
  {
    ListingDescends(Candidates(table, room, before));
    forall m | m in Page(table, room, before, limit) ensures m in table {
      assert m in Listing(Candidates(table, room, before));
    }
  }

  lemma DescendingAppend(front: seq<Message>, page: seq<Message>)
    requires Descending(front) && Descending(page)
    requires front != [] ==> forall m :: m in page ==> Older(m, Last(front))
    ensures Descending(front + page)
  {
    var all := front + page;
    forall i, j | 0 <= i < j < |all| ensures Older(all[j], all[i]) {
      if i < |front| <= j {
        assert all[j] == page[j - |front|] && page[j - |front|] in page;
        assert i < |front| - 1 ==> Older(Last(front), front[i]);
      }
    }
  }

  lemma ShorterWalk(ever: set<Message>, tables: seq<set<Message>>, room: RoomId, limit: nat, pages: seq<seq<Message>>)
    requires ChangingWalk(ever, tables, room, limit, pages) && |pages| > 1
    ensures ChangingWalk(ever, tables[..|pages| - 1], room, limit, pages[..|pages| - 1])
  {
  }

  /** No duplicates, whatever is inserted or deleted meanwhile: the pages together still descend. */
  lemma {:induction false} ChangingWalkDescends(ever: set<Message>, tables: seq<set<Message>>, room: RoomId, limit: nat,
                                                pages: seq<seq<Message>>)
    requires ChangingWalk(ever, tables, room, limit, pages)
    ensures Descending(Concat(pages))
    ensures pages[|pages| - 1] != [] ==> Concat(pages) != [] && Last(Concat(pages)) == Last(pages[|pages| - 1])
    decreases |pages|
  {
    var n := |pages| - 1;
    assert ReadAt(ever, tables[n], room, limit, Cursor(pages, n), pages[n]);
    PageDescends(tables[n], room, Cursor(pages, n), limit);
    var front := Concat(pages[..n]);
    assert Concat(pages) == front + pages[n];
    if n == 0 {
      assert front == [];
      DescendingAppend(front, pages[0]);
    } else {
      ShorterWalk(ever, tables, room, limit, pages);
      ChangingWalkDescends(ever, tables[..n], room, limit, pages[..n]);
      var c := Last(pages[n - 1]);
      assert ReadAt(ever, tables[n - 1], room, limit, Cursor(pages, n - 1), pages[n - 1]);
      PageDescends(tables[n - 1], room, Cursor(pages, n - 1), limit);
      assert c in tables[n - 1];
      forall m | m in pages[n] ensures Older(m, c) {
        PageIsOlder(ever, tables[n], room, c, limit, m);
      }
      assert pages[..n][|pages[..n]| - 1] == pages[n - 1];
      assert front != [] && Last(front) == c;
      DescendingAppend(front, pages[n]);
    }
  }

  /** A candidate that is not on the page is older than the page. */
  lemma OffPage(table: set<Message>, room: RoomId, before: Option<MessageId>, limit: nat, m: Message)
    requires UniqueIds(table) && limit >= 1 && m in Candidates(table, room, before)
    requires m !in Page(table, room, before, limit)
    ensures var page := Page(table, room, before, limit); page != [] && Older(m, Last(page))
  {
    var s := Candidates(table, room, before);
    ListingDescends(s);
    var all := Listing(s);
    var k :| 0 <= k < |all| && all[k] == m;
    var page := Page(table, room, before, limit);
    assert forall j :: 0 <= j < |page| ==> page[j] == all[j] && page[j] in page;
    assert Older(all[k], all[limit - 1]);
  }

  ghost predicate SeenBy(pages: seq<seq<Message>>, i: int, m: Message) {
    exists k :: 0 <= k <= i && k < |pages| && m in pages[k]
  }

  /** The next page lists a surviving message or stops short of it. */
  lemma SurvivorStep(table: set<Message>, room: RoomId, before: Option<Message>, limit: nat, m: Message)
    requires UniqueIds(table) && limit >= 1 && m in table && m.room == room
    requires before.Some? ==> before.value in table && Older(m, before.value)
    ensures var page := Page(table, room, if before.None? then None else Some(before.value.id), limit);
      m in page || (page != [] && Older(m, Last(page)))
  {
    var cursor := if before.None? then None else Some(before.value.id);
    assert m in Candidates(table, room, cursor);
    if m !in Page(table, room, cursor, limit) { OffPage(table, room, cursor, limit, m); }
  }

  ghost predicate AheadOf(pages: seq<seq<Message>>, i: int, m: Message)
    requires 0 <= i < |pages|
  {
    pages[i] != [] && Older(m, Last(pages[i]))
  }

  /** Page `i` either lists `m` or stops short of it, if `m` is still ahead of its cursor. */
  ghost predicate Progresses(pages: seq<seq<Message>>, i: int, m: Message)
    requires 0 <= i < |pages|
  {
    (i > 0 ==> AheadOf(pages, i - 1, m)) ==> m in pages[i] || AheadOf(pages, i, m)
  }

  lemma SurvivorAt(ever: set<Message>, tables: seq<set<Message>>, room: RoomId, limit: nat, pages: seq<seq<Message>>,
                   m: Message, i: nat)
    requires ChangingWalk(ever, tables, room, limit, pages) && CursorsKept(tables, pages) && i < |pages|
    requires m.room == room && m in tables[i]
    ensures Progresses(pages, i, m)
  {
    assert ReadAt(ever, tables[i], room, limit, Cursor(pages, i), pages[i]);
    if i == 0 {
      SurvivorStep(tables[0], room, None, limit, m);
    } else if AheadOf(pages, i - 1, m) {
      assert Last(pages[i - 1]) in tables[i];
      SurvivorStep(tables[i], room, Some(Last(pages[i - 1])), limit, m);
    }
  }

  /** Page by page, a message is on one of the pages so far or still ahead. */
  lemma {:induction false} SeenOrAhead(pages: seq<seq<Message>>, m: Message, i: nat)
    requires i < |pages| && forall k :: 0 <= k <= i ==> Progresses(pages, k, m)
    ensures SeenBy(pages, i, m) || AheadOf(pages, i, m)
    decreases i
  {
    assert Progresses(pages, i, m);
    if i > 0 {
      SeenOrAhead(pages, m, i - 1);
    }
  }

  /** Nothing that survives is lost: once a page comes back empty, every message of the room present in all
      the tables read is on some page. Only the cursors have to survive; inserts and other deletes are free. */
  lemma NoSurvivorLost(ever: set<Message>, tables: seq<set<Message>>, room: RoomId, limit: nat,
                       pages: seq<seq<Message>>, m: Message)
    requires ChangingWalk(ever, tables, room, limit, pages) && CursorsKept(tables, pages)
    requires pages[|pages| - 1] == []
    requires m.room == room && forall k :: 0 <= k < |tables| ==> m in tables[k]
    ensures SeenBy(pages, |pages| - 1, m)
  {
    forall k: nat | k < |pages| ensures Progresses(pages, k, m) {
      SurvivorAt(ever, tables, room, limit, pages, m, k);
    }
    SeenOrAhead(pages, m, |pages| - 1);
  }

  /** A walk may stop early only because its cursor was deleted: a page is empty exactly when the cursor is
      gone or nothing older is left in the room. */
  lemma EmptyPage(ever: set<Message>, table: set<Message>, room: RoomId, c: Message, limit: nat)
    requires UniqueIds(ever) && UniqueIds(table) && table <= ever && c in ever && limit >= 1
    ensures Page(table, room, Some(c.id), limit) == [] <==>
      c !in table || forall m :: m in table && m.room == room ==> !Older(m, c)
  {
    var s := Candidates(table, room, Some(c.id));
    assert Page(table, room, Some(c.id), limit) == [] <==> s == {};
    if c in table {
      assert forall m :: m in s <==> m in table && m.room == room && Older(m, c);
      if s != {} {
        var m :| m in s;
        assert m in table && m.room == room && Older(m, c);
      }
    } else {
      assert forall m :: m in table && m.id == c.id ==> m in ever && m == c;
      assert s == {};
    }
  }
}
