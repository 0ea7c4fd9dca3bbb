// The direct-message inbox of a2a_inbox_store.ts: one table, inserts that never overwrite, and
// listing by keyset pagination.
module InboxStore {
  import opened Wrappers

  // handled_at keeps the instant of the first acknowledgement.
  datatype Row = Row(
    env_id: string, recipient: string, from_agent: string, to_agent: string, msg_type: string,
    thread: Option<string>, corr: Option<string>, ts: string, delivered_at: string,
    subject: Option<string>, body: string, attrs_json: Option<string>, raw_envelope: string,
    handled: bool, handled_at: Option<string>)

  // ---- Text order ----

  predicate Less(a: string, b: string) {
    if b == [] then false
    else if a == [] then true
    else a[0] < b[0] || (a[0] == b[0] && Less(a[1..], b[1..]))
  }

  lemma {:induction false} LessIsTotal(a: string, b: string)
    ensures Less(a, b) || a == b || Less(b, a)
    ensures !(Less(a, b) && Less(b, a)) && !Less(a, a)
  {
    if a != [] && b != [] {
      LessIsTotal(a[1..], b[1..]);
      LessIsTotal(a[1..], a[1..]);
      assert a == [a[0]] + a[1..] && b == [b[0]] + b[1..];
    } else if a != [] {
      LessIsTotal(a[1..], a[1..]);
    }
  }

  lemma {:induction false} LessIsTransitive(a: string, b: string, c: string)
    requires Less(a, b) && Less(b, c)
    ensures Less(a, c)
  {
    if a != [] && a[0] == b[0] == c[0] { LessIsTransitive(a[1..], b[1..], c[1..]); }
  }

  // The order of ORDER BY and of the cursor's comparison.
  datatype Key = Key(delivered_at: string, env_id: string)

  function KeyOf(r: Row): Key { Key(r.delivered_at, r.env_id) }

  predicate Precedes(a: Key, b: Key) {
    Less(a.delivered_at, b.delivered_at) || (a.delivered_at == b.delivered_at && Less(a.env_id, b.env_id))
  }

  lemma PrecedesIsTotal(a: Key, b: Key)
    ensures Precedes(a, b) || a == b || Precedes(b, a)
    ensures !(Precedes(a, b) && Precedes(b, a)) && !Precedes(a, a)
  {
    LessIsTotal(a.delivered_at, b.delivered_at);
    LessIsTotal(a.env_id, b.env_id);
    LessIsTotal(a.delivered_at, a.delivered_at);
    LessIsTotal(a.env_id, a.env_id);
  }

  lemma PrecedesIsTransitive(a: Key, b: Key, c: Key)
    requires Precedes(a, b) && Precedes(b, c)
    ensures Precedes(a, c)
  {
    if Less(a.delivered_at, b.delivered_at) && Less(b.delivered_at, c.delivered_at) {
      LessIsTransitive(a.delivered_at, b.delivered_at, c.delivered_at);
    }
    if Less(a.env_id, b.env_id) && Less(b.env_id, c.env_id) { LessIsTransitive(a.env_id, b.env_id, c.env_id); }
  }

  // ---- The query ----

  datatype Clause =
    | RecipientIs(recipient: string) | HandledIs(handled: bool) | FromIs(agent: string) | ThreadIs(thread: string)
    | TsFrom(since: string) | Before(key: Key)

  predicate Holds(c: Clause, r: Row) {
    match c
    case RecipientIs(recipient) => r.recipient == recipient
    case HandledIs(handled) => r.handled == handled
    case FromIs(agent) => r.from_agent == agent
    case ThreadIs(thread) => r.thread == Some(thread)
    case TsFrom(since) => !Less(r.ts, since)
    case Before(key) => Precedes(KeyOf(r), key)
  }

  predicate AllHold(where: seq<Clause>, r: Row) {
    forall c | c in where :: Holds(c, r)
  }

  function Where(rows: seq<Row>, where: seq<Clause>): seq<Row> {
    if rows == [] then []
    else if AllHold(where, rows[0]) then [rows[0]] + Where(rows[1..], where)
    else Where(rows[1..], where)
  }

  function Placed(r: Row, rows: seq<Row>): seq<Row> {
    if rows == [] || Precedes(KeyOf(rows[0]), KeyOf(r)) then [r] + rows else [rows[0]] + Placed(r, rows[1..])
  }

  // ORDER BY delivered_at DESC, env_id DESC
  function Ordered(rows: seq<Row>): seq<Row> {
    if rows == [] then [] else Placed(rows[0], Ordered(rows[1..]))
  }

  function Limited(rows: seq<Row>, n: nat): seq<Row> { rows[..if n < |rows| then n else |rows|] }

  function Select(rows: seq<Row>, where: seq<Clause>, n: nat): seq<Row> { Limited(Ordered(Where(rows, where)), n) }

  // ---- list() ----

  // A cursor is what encodeCursor made of a key, or some other text.
  datatype Cursor = Encoded(key: Key) | Other(text: string)

  datatype Filters = Filters(recipient: string, handled: Option<bool>, from_agent: Option<string>,
                             thread: Option<string>, since: Option<string>, limit: Option<int>)

  const MAX_LIMIT := 200

  function NormalizeLimit(limit: Option<int>): nat {
    var n := if limit.Some? then limit.value else 50;
    if n < 1 then 1 else if n > MAX_LIMIT then MAX_LIMIT else n
  }

  // A null or empty string is no filter.
  predicate Given(s: Option<string>) { s.Some? && s.value != "" }

  function FilterClauses(f: Filters): seq<Clause> {
    var a := [RecipientIs(f.recipient)];
    var b := if f.handled.Some? then a + [HandledIs(f.handled.value)] else a;
    var c := if Given(f.from_agent) then b + [FromIs(f.from_agent.value)] else b;
    var d := if Given(f.thread) then c + [ThreadIs(f.thread.value)] else c;
    if Given(f.since) then d + [TsFrom(f.since.value)] else d
  }

  function CursorClauses(cursor: Option<Cursor>): seq<Clause> {
    if cursor.Some? && cursor.value.Encoded? then [Before(cursor.value.key)] else []
  }

  datatype Page = Page(messages: seq<Row>, nextCursor: Option<Cursor>)

  function PageOf(fetched: seq<Row>, limit: nat): Page
    requires 0 < limit
  {
    var page := Limited(fetched, limit);
    Page(page, if |fetched| > limit then Some(Encoded(KeyOf(page[|page| - 1]))) else None)
  }

  function List(rows: seq<Row>, f: Filters, cursor: Option<Cursor>): Page {
    var limit := NormalizeLimit(f.limit);
    PageOf(Select(rows, FilterClauses(f) + CursorClauses(cursor), limit + 1), limit)
  }

  // ---- Listings are sorted ----

  // PRIMARY KEY (recipient, env_id)
  ghost predicate UniqueKeys(rows: seq<Row>) {
    forall i, j | 0 <= i < j < |rows| :: rows[i].recipient != rows[j].recipient || rows[i].env_id != rows[j].env_id
  }

  ghost predicate Descending(rows: seq<Row>) {
    forall i, j | 0 <= i < j < |rows| :: Precedes(KeyOf(rows[j]), KeyOf(rows[i]))
  }

  // The listing that a walk through the pages is to produce: every row that passes, newest first.
  function Listing(rows: seq<Row>, f: Filters, cursor: Option<Cursor>): seq<Row> {
    Ordered(Where(rows, FilterClauses(f) + CursorClauses(cursor)))
  }

  predicate Past(r: Row, cursor: Option<Cursor>) {
    cursor.Some? && cursor.value.Encoded? ==> Precedes(KeyOf(r), cursor.value.key)
  }

  lemma {:induction false} WhereMeans(rows: seq<Row>, where: seq<Clause>)
    ensures forall r :: r in Where(rows, where) <==> r in rows && AllHold(where, r)
  {
    if rows != [] {
      WhereMeans(rows[1..], where);
      assert rows == [rows[0]] + rows[1..];
    }
  }

  lemma {:induction false} WhereKeepsUnique(rows: seq<Row>, where: seq<Clause>)
    requires UniqueKeys(rows)
    ensures UniqueKeys(Where(rows, where))
  {
    if rows != [] {
      var rest := rows[1..];
      var found := Where(rest, where);
      assert rows == [rows[0]] + rest;
      assert forall i | 0 <= i < |rest| :: rest[i] == rows[i + 1];
      WhereKeepsUnique(rest, where);
      WhereMeans(rest, where);
      forall i | 0 <= i < |found|
        ensures found[i].recipient != rows[0].recipient || found[i].env_id != rows[0].env_id
      {
        assert found[i] in rest;
      }
    }
  }

  lemma {:induction false} PlacedHolds(r: Row, rows: seq<Row>)
    ensures multiset(Placed(r, rows)) == multiset(rows) + multiset{r}
  {
    if rows != [] {
      assert rows == [rows[0]] + rows[1..];
      PlacedHolds(r, rows[1..]);
    }
  }

  lemma {:induction false} PlacedDescends(r: Row, rows: seq<Row>)
    requires Descending(rows) && forall x | x in rows :: KeyOf(x) != KeyOf(r)
    ensures Descending(Placed(r, rows))
  {
    if rows != [] {
      PrecedesIsTotal(KeyOf(rows[0]), KeyOf(r));
      if Precedes(KeyOf(rows[0]), KeyOf(r)) {
        forall i | 0 < i < |rows| ensures Precedes(KeyOf(rows[i]), KeyOf(r)) {
          PrecedesIsTransitive(KeyOf(rows[i]), KeyOf(rows[0]), KeyOf(r));
        }
      } else {
        PlacedDescends(r, rows[1..]);
        PlacedHolds(r, rows[1..]);
        forall x | x in Placed(r, rows[1..]) ensures Precedes(KeyOf(x), KeyOf(rows[0])) {
          assert x in multiset(rows[1..]) + multiset{r};
        }
      }
    }
  }

  // Rows of one recipient, told apart by env_id.
  lemma {:induction false} OrderedMeans(rows: seq<Row>)
    requires UniqueKeys(rows) && forall r | r in rows :: r.recipient == rows[0].recipient
    ensures Descending(Ordered(rows))
    ensures multiset(Ordered(rows)) == multiset(rows)
  {
    if rows != [] {
      var rest := rows[1..];
      RestIsApart(rows);
      hide UniqueKeys, Descending, Placed, Precedes;
      assert rows == [rows[0]] + rest;
      OrderedMeans(rest);
      forall x | x in Ordered(rest) ensures KeyOf(x) != KeyOf(rows[0]) {
        assert x in multiset(Ordered(rest));
        assert x in rest;
      }
      PlacedDescends(rows[0], Ordered(rest));
      PlacedHolds(rows[0], Ordered(rest));
    }
  }

  lemma RestIsApart(rows: seq<Row>)
    requires rows != [] && UniqueKeys(rows) && forall r | r in rows :: r.recipient == rows[0].recipient
    ensures var rest := rows[1..];
            && UniqueKeys(rest) && (forall x | x in rest :: KeyOf(x) != KeyOf(rows[0]))
            && forall r | r in rest :: r.recipient == rest[0].recipient
  {
    var rest := rows[1..];
    assert forall i | 0 <= i < |rest| :: rest[i] == rows[i + 1];
    forall x | x in rest ensures KeyOf(x) != KeyOf(rows[0]) && x.recipient == rows[0].recipient {
      var i :| 0 <= i < |rest| && rest[i] == x;
      assert rows[i + 1] == x && x in rows;
    }
    assert rest != [] ==> rest[0] in rest;
  }

  lemma {:induction false} DescendingIsUnique(a: seq<Row>, b: seq<Row>)
    requires Descending(a) && Descending(b) && forall r :: r in a <==> r in b
    ensures a == b
  {
    if a != [] || b != [] {
      assert a != [] ==> a[0] in b;
      assert b != [] ==> b[0] in a;
      var i :| 0 <= i < |b| && b[i] == a[0];
      var j :| 0 <= j < |a| && a[j] == b[0];
      PrecedesIsTotal(KeyOf(a[0]), KeyOf(b[0]));
      assert a[0] == b[0];
      DescendsPastHead(a);
      DescendsPastHead(b);
      DescendingIsUnique(a[1..], b[1..]);
      assert a == [a[0]] + a[1..] && b == [b[0]] + b[1..];
    }
  }

  lemma DescendsPastHead(a: seq<Row>)
    requires a != [] && Descending(a)
    ensures Descending(a[1..]) && forall r :: r in a[1..] <==> r in a && r != a[0]
  {
    PrecedesIsTotal(KeyOf(a[0]), KeyOf(a[0]));
    assert a == [a[0]] + a[1..];
  }

  // A listing is every row that passes the filters and the cursor, once each, newest first.
  lemma ListingMeans(rows: seq<Row>, f: Filters, cursor: Option<Cursor>)
    requires UniqueKeys(rows)
    ensures Descending(Listing(rows, f, cursor))
    ensures forall r :: r in Listing(rows, f, cursor) <==> r in rows && AllHold(FilterClauses(f), r) && Past(r, cursor)
  {
    var where := FilterClauses(f) + CursorClauses(cursor);
    var found := Where(rows, where);
    WhereMeans(rows, where);
    WhereKeepsUnique(rows, where);
    forall r ensures AllHold(where, r) <==> AllHold(FilterClauses(f), r) && Past(r, cursor) {
      ClausesMean(f, cursor, r);
    }
    assert RecipientIs(f.recipient) in where;
    forall r | r in found ensures r.recipient == f.recipient {
      assert Holds(RecipientIs(f.recipient), r);
    }
    OrderedMeans(found);
    assert forall r :: r in Ordered(found) <==> r in multiset(Ordered(found));
    assert forall r :: r in found <==> r in multiset(found);
  }

  lemma ClausesMean(f: Filters, cursor: Option<Cursor>, r: Row)
    ensures AllHold(FilterClauses(f) + CursorClauses(cursor), r) <==> AllHold(FilterClauses(f), r) && Past(r, cursor)
  {
    hide FilterClauses;
    var a, b := FilterClauses(f), CursorClauses(cursor);
    assert forall c :: c in a + b <==> c in a || c in b;
    if b != [] { assert b[0] in b && forall c :: c in b <==> c == b[0]; }
  }

  // ---- Following nextCursor ----

  lemma PageOpensListing(rows: seq<Row>, f: Filters, cursor: Option<Cursor>)
    requires UniqueKeys(rows)
    ensures var l, limit, page := Listing(rows, f, cursor), NormalizeLimit(f.limit), List(rows, f, cursor);
            if |l| <= limit then page == Page(l, None)
            else
              && page == Page(l[..limit], Some(Encoded(KeyOf(l[limit - 1]))))
              && Listing(rows, f, page.nextCursor) == l[limit..]
  {
    var l, limit, page := Listing(rows, f, cursor), NormalizeLimit(f.limit), List(rows, f, cursor);
    if |l| > limit {
      assert l[..limit + 1][..limit] == l[..limit];
      var last := l[limit - 1];
      ListingMeans(rows, f, cursor);
      ListingMeans(rows, f, page.nextCursor);
      hide Listing, FilterClauses;
      forall r ensures r in l[limit..] <==> r in l && Precedes(KeyOf(r), KeyOf(last)) {
        TailIsPast(l, limit, r);
      }
      forall r | r in rows && Precedes(KeyOf(r), KeyOf(last)) ensures Past(r, cursor) {
        assert last in l && Past(last, cursor);
        if cursor.Some? && cursor.value.Encoded? { PrecedesIsTransitive(KeyOf(r), KeyOf(last), cursor.value.key); }
      }
      DescendingIsUnique(Listing(rows, f, page.nextCursor), l[limit..]);
    }
  }

  lemma TailIsPast(l: seq<Row>, n: nat, r: Row)
    requires Descending(l) && 0 < n < |l|
    ensures r in l[n..] <==> r in l && Precedes(KeyOf(r), KeyOf(l[n - 1]))
  {
    if r in l && Precedes(KeyOf(r), KeyOf(l[n - 1])) {
      var i :| 0 <= i < |l| && l[i] == r;
      PrecedesIsTotal(KeyOf(r), KeyOf(l[n - 1]));
      assert i >= n && l[n..][i - n] == r;
    }
  }

  // The pages of a walk over a table that does not change.
  ghost function Pages(rows: seq<Row>, f: Filters, cursor: Option<Cursor>): seq<seq<Row>>
    requires UniqueKeys(rows)
    decreases |Listing(rows, f, cursor)|
  {
    var page := List(rows, f, cursor);
    if page.nextCursor.None? then [page.messages]
    else
      PageOpensListing(rows, f, cursor);
      [page.messages] + Pages(rows, f, page.nextCursor)
  }

  // The walk ends, and its pages put together are the whole listing, whatever the limit.
  lemma {:induction false} PagesMakeTheListing(rows: seq<Row>, f: Filters, cursor: Option<Cursor>)
    requires UniqueKeys(rows)
    ensures Concat(Pages(rows, f, cursor)) == Listing(rows, f, cursor)
    ensures forall p | p in Pages(rows, f, cursor) :: |p| <= NormalizeLimit(f.limit)
    decreases |Listing(rows, f, cursor)|
  {
    assert NormalizeLimit(f.limit) >= 1;
    hide List, Listing, NormalizeLimit, UniqueKeys;
    var page, l := List(rows, f, cursor), Listing(rows, f, cursor);
    PageOpensListing(rows, f, cursor);
    if page.nextCursor.Some? {
      assert l == l[..NormalizeLimit(f.limit)] + l[NormalizeLimit(f.limit)..];
      var rest := Pages(rows, f, page.nextCursor);
      PagesMakeTheListing(rows, f, page.nextCursor);
      assert ([page.messages] + rest)[1..] == rest;
    } else {
      assert Concat([page.messages]) == page.messages + Concat([]);
    }
  }

  // A walk during which the table changes: tables[i] is what the i-th fetch sees. The flag says
  // whether the last page was reached.
  function Walk(tables: seq<seq<Row>>, f: Filters, cursor: Option<Cursor>): (seq<Row>, bool) {
    if tables == [] then ([], false)
    else
      var page := List(tables[0], f, cursor);
      if page.nextCursor.None? then (page.messages, true)
      else
        var (rest, done) := Walk(tables[1..], f, page.nextCursor);
        (page.messages + rest, done)
  }

  ghost predicate AllUnique(tables: seq<seq<Row>>) { forall t | t in tables :: UniqueKeys(t) }

  // However the table changes between fetches, no row comes twice and the order is kept.
  lemma {:induction false} WalkNeverRepeats(tables: seq<seq<Row>>, f: Filters, cursor: Option<Cursor>)
    requires AllUnique(tables)
    ensures Descending(Walk(tables, f, cursor).0)
    ensures forall r | r in Walk(tables, f, cursor).0 :: Past(r, cursor)
  {
    if tables != [] {
      var page, l, n := List(tables[0], f, cursor), Listing(tables[0], f, cursor), NormalizeLimit(f.limit);
      assert tables[0] in tables;
      ListingMeans(tables[0], f, cursor);
      PageOpensListing(tables[0], f, cursor);
      if page.nextCursor.Some? {
        var rest := Walk(tables[1..], f, page.nextCursor).0;
        WalkNeverRepeats(tables[1..], f, page.nextCursor);
        hide Listing, List, Walk;
        assert l[n - 1] in l && Past(l[n - 1], cursor);
        forall r | r in rest ensures Past(r, cursor) {
          if cursor.Some? && cursor.value.Encoded? {
            PrecedesIsTransitive(KeyOf(r), KeyOf(l[n - 1]), cursor.value.key);
          }
        }
        JoinDescends(l[..n], rest);
      }
    }
  }

  lemma JoinDescends(a: seq<Row>, b: seq<Row>)
    requires a != [] && Descending(a) && Descending(b)
    requires forall r | r in b :: Precedes(KeyOf(r), KeyOf(a[|a| - 1]))
    ensures Descending(a + b)
  {
    forall i, j | 0 <= i < |a| && 0 <= j < |b| ensures Precedes(KeyOf(b[j]), KeyOf(a[i])) {
      assert b[j] in b;
      if i < |a| - 1 { PrecedesIsTransitive(KeyOf(b[j]), KeyOf(a[|a| - 1]), KeyOf(a[i])); }
    }
  }

  ghost predicate HasKey(rows: seq<Row>, k: Key) {
    exists r :: r in rows && KeyOf(r) == k
  }

  ghost predicate Matches(rows: seq<Row>, f: Filters, k: Key) {
    exists r :: r in rows && KeyOf(r) == k && AllHold(FilterClauses(f), r)
  }

  lemma SteadyRowIsNextOrLater(rows: seq<Row>, f: Filters, cursor: Option<Cursor>, k: Key)
    requires UniqueKeys(rows) && Matches(rows, f, k)
    requires cursor.Some? && cursor.value.Encoded? ==> Precedes(k, cursor.value.key)
    ensures var page := List(rows, f, cursor);
            HasKey(page.messages, k) ||
            (page.nextCursor.Some? && page.nextCursor.value.Encoded? && Precedes(k, page.nextCursor.value.key))
  {
    var page, l, n := List(rows, f, cursor), Listing(rows, f, cursor), NormalizeLimit(f.limit);
    ListingMeans(rows, f, cursor);
    PageOpensListing(rows, f, cursor);
    var r :| r in rows && KeyOf(r) == k && AllHold(FilterClauses(f), r);
    assert r in l;
    hide Listing, List, FilterClauses, Precedes, AllHold, Descending;
    if |l| > n { HeadOrPast(l, n, r); }
  }

  lemma HeadOrPast(l: seq<Row>, n: nat, r: Row)
    requires Descending(l) && 0 < n < |l| && r in l
    ensures r in l[..n] || Precedes(KeyOf(r), KeyOf(l[n - 1]))
  {
    TailIsPast(l, n, r);
    assert l == l[..n] + l[n..];
  }

  // ... and a row that passed the filters from the first fetch to the last is among those returned.
  lemma {:induction false} WalkMissesNoSteadyRow(tables: seq<seq<Row>>, f: Filters, cursor: Option<Cursor>, k: Key)
    requires AllUnique(tables) && Walk(tables, f, cursor).1
    requires forall t | t in tables :: Matches(t, f, k)
    requires cursor.Some? && cursor.value.Encoded? ==> Precedes(k, cursor.value.key)
    ensures HasKey(Walk(tables, f, cursor).0, k)
  {
    hide List, Matches, UniqueKeys, Less;
    var page := List(tables[0], f, cursor);
    assert tables[0] in tables && Matches(tables[0], f, k);
    SteadyRowIsNextOrLater(tables[0], f, cursor, k);
    if page.nextCursor.Some? {
      if !HasKey(page.messages, k) { WalkMissesNoSteadyRow(tables[1..], f, page.nextCursor, k); }
      var rest := Walk(tables[1..], f, page.nextCursor).0;
      assert forall r :: r in page.messages || r in rest ==> r in page.messages + rest;
    }
  }

  // ---- store(), read() and ack() ----

  // The row of a key, if there is one.
  function RowAt(rows: seq<Row>, recipient: string, envId: string): (r: Option<Row>)
    ensures r.Some? ==> r.value in rows && r.value.recipient == recipient && r.value.env_id == envId
    ensures r.None? ==> forall x | x in rows :: x.recipient != recipient || x.env_id != envId
  {
    if rows == [] then None
    else if rows[0].recipient == recipient && rows[0].env_id == envId then Some(rows[0])
    else RowAt(rows[1..], recipient, envId)
  }

  // INSERT ... ON CONFLICT(recipient, env_id) DO NOTHING
  function Stored(rows: seq<Row>, r: Row): seq<Row> {
    if RowAt(rows, r.recipient, r.env_id).None? then rows + [r] else rows
  }

  // SET handled = 1, handled_at = COALESCE(handled_at, ?)
  function Handled(r: Row, at: string): Row {
    r.(handled := true, handled_at := if r.handled_at.Some? then r.handled_at else Some(at))
  }

  function Acked(rows: seq<Row>, recipient: string, envId: string, at: string): seq<Row> {
    if rows == [] then []
    else
      [if rows[0].recipient == recipient && rows[0].env_id == envId then Handled(rows[0], at) else rows[0]]
      + Acked(rows[1..], recipient, envId, at)
  }

  lemma {:induction false} AckedMeans(rows: seq<Row>, recipient: string, envId: string, at: string)
    ensures |Acked(rows, recipient, envId, at)| == |rows|
    ensures forall i | 0 <= i < |rows| ::
              Acked(rows, recipient, envId, at)[i] ==
              if rows[i].recipient == recipient && rows[i].env_id == envId then Handled(rows[i], at) else rows[i]
  {
    if rows != [] { AckedMeans(rows[1..], recipient, envId, at); }
  }

  lemma {:induction false} AckedRowAt(rows: seq<Row>, recipient: string, envId: string, at: string)
    ensures var was := RowAt(rows, recipient, envId);
            RowAt(Acked(rows, recipient, envId, at), recipient, envId) ==
            if was.Some? then Some(Handled(was.value, at)) else None
  {
    if rows != [] {
      AckedRowAt(rows[1..], recipient, envId, at);
      assert Acked(rows, recipient, envId, at)[1..] == Acked(rows[1..], recipient, envId, at);
    }
  }

  lemma {:induction false} RowAtIsThe(rows: seq<Row>, i: nat)
    requires UniqueKeys(rows) && i < |rows|
    ensures RowAt(rows, rows[i].recipient, rows[i].env_id) == Some(rows[i])
  {
    if i > 0 {
      assert forall j | 0 <= j < |rows| - 1 :: rows[1..][j] == rows[j + 1];
      RowAtIsThe(rows[1..], i - 1);
    }
  }

  lemma StoredKeepsUnique(rows: seq<Row>, r: Row)
    requires UniqueKeys(rows)
    ensures UniqueKeys(Stored(rows, r)) && rows <= Stored(rows, r)
  {
    if RowAt(rows, r.recipient, r.env_id).None? { assert forall i | 0 <= i < |rows| :: rows[i] in rows; }
  }

  lemma AckedKeepsUnique(rows: seq<Row>, recipient: string, envId: string, at: string)
    requires UniqueKeys(rows)
    ensures UniqueKeys(Acked(rows, recipient, envId, at))
  {
    AckedMeans(rows, recipient, envId, at);
  }

  // The first acknowledgement decides handled_at; nothing else of any row changes, nor any row's
  // place in the listings.
  lemma AckTwiceIsAckOnce(rows: seq<Row>, recipient: string, envId: string, first: string, second: string)
    ensures Acked(Acked(rows, recipient, envId, first), recipient, envId, second) == Acked(rows, recipient, envId, first)
    ensures |Acked(rows, recipient, envId, first)| == |rows|
    ensures forall i | 0 <= i < |rows| ::
              KeyOf(Acked(rows, recipient, envId, first)[i]) == KeyOf(rows[i])
  {
    AckedMeans(rows, recipient, envId, first);
    AckedMeans(Acked(rows, recipient, envId, first), recipient, envId, second);
  }

  // ---- Field by field ----

  // Text order: at the first place where they differ, a has the smaller character or has ended.
  ghost predicate TextBefore(a: string, b: string) {
    exists k | 0 <= k <= |a| && k < |b| :: DiffersAt(a, b, k)
  }

  predicate DiffersAt(a: string, b: string, k: nat)
    requires k <= |a| && k < |b|
  {
    a[..k] == b[..k] && (k == |a| || a[k] < b[k])
  }

  lemma {:induction false} LessIsTextBefore(a: string, b: string)
    ensures Less(a, b) <==> TextBefore(a, b)
  {
    if a != [] && b != [] {
      LessIsTextBefore(a[1..], b[1..]);
      if a[0] < b[0] { assert DiffersAt(a, b, 0); }
      if a[0] == b[0] && TextBefore(a[1..], b[1..]) {
        var k :| 0 <= k <= |a| - 1 && k < |b| - 1 && DiffersAt(a[1..], b[1..], k);
        assert a[..k + 1] == [a[0]] + a[1..][..k] && b[..k + 1] == [b[0]] + b[1..][..k];
        assert DiffersAt(a, b, k + 1);
      }
      if TextBefore(a, b) {
        var k :| 0 <= k <= |a| && k < |b| && DiffersAt(a, b, k);
        if k > 0 {
          assert a[0] == a[..k][0] == b[..k][0] == b[0];
          assert a[1..][..k - 1] == a[..k][1..] && b[1..][..k - 1] == b[..k][1..];
          assert DiffersAt(a[1..], b[1..], k - 1);
        }
      }
    } else if b != [] {
      assert DiffersAt(a, b, 0);
    }
  }

  predicate NoFilter(s: Option<string>) { s == None || s == Some("") }

  // What a caller asks for: each filter given, and nothing else.
  ghost predicate Wanted(f: Filters, r: Row) {
    && r.recipient == f.recipient
    && (f.handled == None || f.handled == Some(r.handled))
    && (NoFilter(f.from_agent) || f.from_agent == Some(r.from_agent))
    && (NoFilter(f.thread) || f.thread == r.thread)
    && (NoFilter(f.since) || f.since == Some(r.ts) || TextBefore(f.since.value, r.ts))
  }

  // Older than the row a cursor was made of; a text that is no cursor is ignored.
  ghost predicate Older(r: Row, cursor: Option<Cursor>) {
    cursor.Some? && cursor.value.Encoded? ==>
      var k := cursor.value.key;
      TextBefore(r.delivered_at, k.delivered_at) || (r.delivered_at == k.delivered_at && TextBefore(r.env_id, k.env_id))
  }

  lemma PastIsOlder(r: Row, cursor: Option<Cursor>)
    ensures Past(r, cursor) <==> Older(r, cursor)
  {
    if cursor.Some? && cursor.value.Encoded? {
      LessIsTextBefore(r.delivered_at, cursor.value.key.delivered_at);
      LessIsTextBefore(r.env_id, cursor.value.key.env_id);
    }
    hide Less, TextBefore;
  }

  lemma ClausesOfFilters(f: Filters, r: Row)
    ensures AllHold(FilterClauses(f), r) <==> Wanted(f, r)
  {
    hide Less, TextBefore;
    if f.since.Some? {
      LessIsTotal(r.ts, f.since.value);
      LessIsTextBefore(f.since.value, r.ts);
    }
    OneMore([], RecipientIs(f.recipient), r);
    var a := [RecipientIs(f.recipient)];
    assert [] + a == a;
    var b := if f.handled.Some? then a + [HandledIs(f.handled.value)] else a;
    if f.handled.Some? { OneMore(a, HandledIs(f.handled.value), r); }
    var c := if Given(f.from_agent) then b + [FromIs(f.from_agent.value)] else b;
    if Given(f.from_agent) { OneMore(b, FromIs(f.from_agent.value), r); }
    var d := if Given(f.thread) then c + [ThreadIs(f.thread.value)] else c;
    if Given(f.thread) { OneMore(c, ThreadIs(f.thread.value), r); }
    if Given(f.since) { OneMore(d, TsFrom(f.since.value), r); }
    hide AllHold;
  }

  lemma OneMore(where: seq<Clause>, c: Clause, r: Row)
    ensures AllHold(where + [c], r) <==> AllHold(where, r) && Holds(c, r)
  {
    hide Holds;
    assert c in where + [c];
    assert forall x | x in where :: x in where + [c];
  }

  // A listing holds exactly the rows wanted, newest first, and a page the first of them: fifty unless
  // a limit from 1 to 200 is given, with a cursor exactly when there are more.
  lemma ListingIsWhatIsWanted(rows: seq<Row>, f: Filters, cursor: Option<Cursor>)
    requires UniqueKeys(rows)
    ensures forall r :: r in Listing(rows, f, cursor) <==> r in rows && Wanted(f, r) && Older(r, cursor)
    ensures forall i, j | 0 <= i < j < |Listing(rows, f, cursor)| ::
              var a, b := Listing(rows, f, cursor)[i], Listing(rows, f, cursor)[j];
              TextBefore(b.delivered_at, a.delivered_at) || (a.delivered_at == b.delivered_at && TextBefore(b.env_id, a.env_id))
  {
    ListingMeans(rows, f, cursor);
    var l := Listing(rows, f, cursor);
    hide Listing, FilterClauses, AllHold, Wanted, Older, Past, Less, TextBefore;
    forall r ensures r in l <==> r in rows && Wanted(f, r) && Older(r, cursor) {
      ClausesOfFilters(f, r);
      PastIsOlder(r, cursor);
    }
    forall i, j | 0 <= i < j < |l|
      ensures var a, b := l[i], l[j];
              TextBefore(b.delivered_at, a.delivered_at) || (a.delivered_at == b.delivered_at && TextBefore(b.env_id, a.env_id))
    {
      LessIsTextBefore(l[j].delivered_at, l[i].delivered_at);
      LessIsTextBefore(l[j].env_id, l[i].env_id);
    }
  }

  lemma PageHasTheSizeAsked(rows: seq<Row>, f: Filters, cursor: Option<Cursor>)
    requires UniqueKeys(rows)
    ensures var page, l := List(rows, f, cursor), Listing(rows, f, cursor);
            var size := if f.limit == None then 50 else if f.limit.value < 1 then 1 else if f.limit.value > 200 then 200 else f.limit.value;
            && page.messages == l[..if size < |l| then size else |l|]
            && (page.nextCursor == if |l| > size then Some(Encoded(Key(l[size - 1].delivered_at, l[size - 1].env_id))) else None)
  {
    PageOpensListing(rows, f, cursor);
    hide Listing;
  }

  // An acknowledged row reads handled, with the instant of its first acknowledgement, and is otherwise
  // as it was; every other row is.
  lemma AckMarksHandled(rows: seq<Row>, recipient: string, envId: string, at: string, i: nat)
    requires i < |rows|
    ensures |Acked(rows, recipient, envId, at)| == |rows|
    ensures var was, now := rows[i], Acked(rows, recipient, envId, at)[i];
            if was.recipient == recipient && was.env_id == envId then
              && now.handled && now.handled_at == (if was.handled_at == None then Some(at) else was.handled_at)
              && now.(handled := was.handled, handled_at := was.handled_at) == was
            else now == was
  {
    AckedMeans(rows, recipient, envId, at);
  }

  // So it leaves the listing of unhandled rows and joins that of handled ones.
  lemma AckMovesBetweenListings(rows: seq<Row>, recipient: string, envId: string, at: string, f: Filters, r: Row)
    requires UniqueKeys(rows) && r in Acked(rows, recipient, envId, at) && r.recipient == recipient && r.env_id == envId
    ensures r !in Listing(Acked(rows, recipient, envId, at), f.(handled := Some(false)), None)
    ensures Wanted(f.(handled := None), r) ==> r in Listing(Acked(rows, recipient, envId, at), f.(handled := Some(true)), None)
  {
    var i :| 0 <= i < |Acked(rows, recipient, envId, at)| && Acked(rows, recipient, envId, at)[i] == r;
    AckedMeans(rows, recipient, envId, at);
    AckMarksHandled(rows, recipient, envId, at, i);
    AckedKeepsUnique(rows, recipient, envId, at);
    ListingIsWhatIsWanted(Acked(rows, recipient, envId, at), f.(handled := Some(false)), None);
    ListingIsWhatIsWanted(Acked(rows, recipient, envId, at), f.(handled := Some(true)), None);
    hide Listing, Acked, TextBefore;
  }

  class A2AInboxStore {
    var rows: seq<Row>

    ghost predicate Valid()
      reads this
    {
      UniqueKeys(rows)
    }

    constructor ()
      ensures Valid() && rows == []
    {
      rows := [];
    }

    method Read(recipient: string, envId: string) returns (r: Option<Row>)
      requires Valid()
      ensures r == RowAt(rows, recipient, envId)
    {
      for i := 0 to |rows|
        invariant RowAt(rows, recipient, envId) == RowAt(rows[i..], recipient, envId)
      {
        if rows[i].recipient == recipient && rows[i].env_id == envId {
          RowAtIsThe(rows, i);
          return Some(rows[i]);
        }
      }
      return None;
    }

    // The row as the statement binds it; handled and handled_at take the table's defaults.
    method Store(row: Row) returns (inserted: bool, message: Row)
      requires Valid() && !row.handled && row.handled_at.None?
      modifies this
      ensures Valid() && rows == Stored(old(rows), row)
      ensures inserted <==> forall r | r in old(rows) :: r.recipient != row.recipient || r.env_id != row.env_id
      ensures message in rows && message.recipient == row.recipient && message.env_id == row.env_id
      ensures if inserted then message == row else rows == old(rows)
    {
      StoredKeepsUnique(rows, row);
      var existing := Read(row.recipient, row.env_id);
      inserted := existing.None?;
      if existing.Some? {
        message := existing.value;
      } else {
        rows := rows + [row];
        message := row;
      }
    }

    method Ack(recipient: string, envId: string, handledAt: string) returns (r: Option<Row>)
      requires Valid()
      modifies this
      ensures Valid() && rows == Acked(old(rows), recipient, envId, handledAt)
      ensures var was := RowAt(old(rows), recipient, envId);
              r == if was.Some? then Some(Handled(was.value, handledAt)) else None
    {
      AckedKeepsUnique(rows, recipient, envId, handledAt);
      AckedRowAt(rows, recipient, envId, handledAt);
      rows := Acked(rows, recipient, envId, handledAt);
      r := Read(recipient, envId);
    }

    // The clauses are pushed one by one, as the statement is put together.
    method ListPage(f: Filters, cursor: Option<Cursor>) returns (page: Page)
      requires Valid()
      ensures page == List(rows, f, cursor)
      ensures |page.messages| <= NormalizeLimit(f.limit) <= MAX_LIMIT
    {
      var limit := NormalizeLimit(f.limit);
      var where := [RecipientIs(f.recipient)];
      if f.handled.Some? { where := where + [HandledIs(f.handled.value)]; }
      if Given(f.from_agent) { where := where + [FromIs(f.from_agent.value)]; }
      if Given(f.thread) { where := where + [ThreadIs(f.thread.value)]; }
      if Given(f.since) { where := where + [TsFrom(f.since.value)]; }
      if cursor.Some? && cursor.value.Encoded? { where := where + [Before(cursor.value.key)]; }
      assert FilterClauses(f) + [] == FilterClauses(f);
      var fetched := Select(rows, where, limit + 1);
      page := PageOf(fetched, limit);
    }
  }
}
