/** The settlement list, newest first, page by page: the in-memory store, the database query, and walks over both. */
module SettlementList {
  import opened Numbers
  import opened Wrappers
  import opened Text
  import opened Cursors

  datatype LifecycleKind = Opened | Settled

  /** One lifecycle event; `details` stands for the columns that neither queries nor upserts look at. */
  datatype Row = Row(
    txDigest: string,
    kind: LifecycleKind,
    tunnelId: string,
    partyA: Option<string>,
    partyB: Option<string>,
    proofUrl: Option<string>,
    walrusBlobId: Option<string>,
    timestampMs: int,
    details: string)

  function KeyOf(r: Row): Key {
    Key(r.timestampMs, r.txDigest, r.tunnelId)
  }

  datatype Query = Query(
    cursor: Option<string>,
    limit: int,
    tunnelId: Option<string>,
    address: Option<string>,
    kind: Option<LifecycleKind>)

  datatype Page = Page(rows: seq<Row>, nextCursor: Option<string>)

  predicate Matches(q: Query, r: Row) {
    && (q.tunnelId.None? || r.tunnelId == q.tunnelId.value)
    && (q.kind.None? || r.kind == q.kind.value)
    && (q.address.None? || r.partyA == q.address || r.partyB == q.address)
  }

  /** A cursor that does not decode is no cursor. */
  function Place(q: Query): Option<Key> {
    if q.cursor.None? then None else DecodeCursor(q.cursor.value)
  }

  predicate Admits(q: Query, r: Row) {
    Matches(q, r) && (Place(q).None? || KeyLess(KeyOf(r), Place(q).value))
  }

  function Limit(q: Query): (n: nat)
    ensures 1 <= n <= 1000
  {
    if q.limit < 1 then 1 else if q.limit > 1000 then 1000 else q.limit
  }

  function Admitted(table: set<Row>, q: Query): set<Row> {
    set r | r in table && Admits(q, r)
  }

  /** A query asks for the rows of a tunnel, of a kind, of an address as either party, each only if it names one, that
      are strictly older than its cursor: by time, then digest, then tunnel. */
  lemma AdmitsExactly(q: Query, r: Row)
    ensures Admits(q, r) <==>
            && (q.tunnelId.Some? ==> r.tunnelId == q.tunnelId.value)
            && (q.kind.Some? ==> r.kind == q.kind.value)
            && (q.address.Some? ==> Some(q.address.value) in {r.partyA, r.partyB})
            && (q.cursor.Some? && DecodeCursor(q.cursor.value).Some? ==>
                  var k := DecodeCursor(q.cursor.value).value;
                  || r.timestampMs < k.ts
                  || (r.timestampMs == k.ts && Less(r.txDigest, k.digest))
                  || (r.timestampMs == k.ts && r.txDigest == k.digest && Less(r.tunnelId, k.tunnel)))
  {
    hide DecodeCursor, Less;
  }

  /** No two rows share a key. */
  ghost predicate KeysDistinct(rows: set<Row>) {
    forall r, s | r in rows && s in rows && KeyOf(r) == KeyOf(s) :: r == s
  }

  // ---- Descending order ----

  ghost predicate Descending(v: seq<Row>) {
    forall i, j | 0 <= i < j < |v| :: KeyLess(KeyOf(v[j]), KeyOf(v[i]))
  }

  /** `v` is the rows, newest first, each once. */
  ghost predicate Lists(v: seq<Row>, rows: set<Row>) {
    Descending(v) && forall r :: r in v <==> r in rows
  }

  lemma {:induction false} ListsOnlyOnce(v: seq<Row>, w: seq<Row>, rows: set<Row>)
    requires Lists(v, rows) && Lists(w, rows)
    ensures v == w
  {
    hide KeyLess;
    assert (v != [] ==> v[0] in rows) && (w != [] ==> w[0] in rows);
    if v != [] && w != [] {
      assert v[0] in w && w[0] in v;
      HeadIsGreatest(v, w[0]);
      HeadIsGreatest(w, v[0]);
      if v[0] != w[0] {
        KeyTransitive(KeyOf(v[0]), KeyOf(w[0]), KeyOf(v[0]));
        KeyIrreflexive(KeyOf(v[0]));
        assert false;
      }
      TailLists(v, rows);
      TailLists(w, rows);
      ListsOnlyOnce(v[1..], w[1..], rows - {v[0]});
      assert v == [v[0]] + v[1..] && w == [w[0]] + w[1..];
    }
  }

  lemma HeadIsGreatest(v: seq<Row>, r: Row)
    requires Descending(v) && r in v
    ensures v != [] && (r == v[0] || KeyLess(KeyOf(r), KeyOf(v[0])))
  {
    var i :| 0 <= i < |v| && v[i] == r;
    assert i == 0 || KeyLess(KeyOf(v[i]), KeyOf(v[0]));
  }

  lemma TailLists(v: seq<Row>, rows: set<Row>)
    requires Lists(v, rows) && v != []
    ensures Lists(v[1..], rows - {v[0]})
  {
    hide KeyLess;
    forall r
      ensures r in v[1..] <==> r in rows - {v[0]}
    {
      assert v == [v[0]] + v[1..];
      if r in v[1..] {
        var i: nat :| i < |v| - 1 && v[1..][i] == r;
        assert KeyLess(KeyOf(v[i + 1]), KeyOf(v[0]));
        KeyIrreflexive(KeyOf(v[0]));
      }
    }
  }

  /** Put a row in its place among newer and older ones. */
  method Insert(v: seq<Row>, r: Row) returns (w: seq<Row>)
    requires Descending(v) && forall s | s in v :: KeyOf(s) != KeyOf(r)
    ensures Descending(w) && forall s :: s in w <==> s in v || s == r
  {
    hide KeyLess;
    var i := 0;
    while i < |v| && KeyLess(KeyOf(r), KeyOf(v[i]))
      invariant 0 <= i <= |v|
      invariant forall j | 0 <= j < i :: KeyLess(KeyOf(r), KeyOf(v[j]))
    {
      i := i + 1;
    }
    w := v[..i] + [r] + v[i..];
    forall j | i <= j < |v|
      ensures KeyLess(KeyOf(v[j]), KeyOf(r))
    {
      KeyTotal(KeyOf(r), KeyOf(v[i]));
      assert v[i] in v;
      if j > i {
        KeyTransitive(KeyOf(v[j]), KeyOf(v[i]), KeyOf(r));
      }
    }
    InsertedDescending(v, r, i);
    assert v == v[..i] + v[i..];
  }

  lemma InsertedDescending(v: seq<Row>, r: Row, i: nat)
    requires Descending(v) && i <= |v|
    requires forall j | 0 <= j < i :: KeyLess(KeyOf(r), KeyOf(v[j]))
    requires forall j | i <= j < |v| :: KeyLess(KeyOf(v[j]), KeyOf(r))
    ensures Descending(v[..i] + [r] + v[i..])
  {
    hide KeyLess;
    var w := v[..i] + [r] + v[i..];
    forall a, b | 0 <= a < b < |w|
      ensures KeyLess(KeyOf(w[b]), KeyOf(w[a]))
    {
      assert w[a] == if a < i then v[a] else if a == i then r else v[a - 1];
      assert w[b] == if b < i then v[b] else if b == i then r else v[b - 1];
    }
  }

  lemma InsertedMembers(v: seq<Row>, r: Row, i: nat)
    requires i <= |v|
    ensures forall s :: s in v[..i] + [r] + v[i..] <==> s in v || s == r
  {
    assert v == v[..i] + v[i..];
  }

  method Sort(rows: set<Row>) returns (v: seq<Row>)
    requires KeysDistinct(rows)
    ensures Lists(v, rows)
  {
    hide KeyLess;
    v := [];
    var rest := rows;
    while rest != {}
      invariant rest <= rows && Lists(v, rows - rest)
      decreases |rest|
    {
      var r :| r in rest;
      v := Insert(v, r);
      rest := rest - {r};
    }
  }

  lemma {:induction false} Sortable(rows: set<Row>)
    requires KeysDistinct(rows)
    ensures exists v :: Lists(v, rows)
    decreases |rows|
  {
    hide KeyLess, Descending;
    if rows == {} {
      EmptyDescends();
      assert Lists([], rows);
    } else {
      var r :| r in rows;
      Sortable(rows - {r});
      var v :| Lists(v, rows - {r});
      var i := SlotFor(v, r, 0);
      InsertedDescending(v, r, i);
      InsertedMembers(v, r, i);
      assert Lists(v[..i] + [r] + v[i..], rows);
    }
  }

  lemma EmptyDescends()
    ensures Descending([])
  {
  }

  lemma SlotFor(v: seq<Row>, r: Row, from: nat) returns (i: nat)
    requires Descending(v) && (forall s | s in v :: KeyOf(s) != KeyOf(r)) && from <= |v|
    requires forall j | 0 <= j < from :: KeyLess(KeyOf(r), KeyOf(v[j]))
    ensures i <= |v|
    ensures forall j | 0 <= j < i :: KeyLess(KeyOf(r), KeyOf(v[j]))
    ensures forall j | i <= j < |v| :: KeyLess(KeyOf(v[j]), KeyOf(r))
    decreases |v| - from
  {
    hide KeyLess;
    if from == |v| {
      i := from;
    } else if KeyLess(KeyOf(r), KeyOf(v[from])) {
      i := SlotFor(v, r, from + 1);
    } else {
      i := from;
      assert v[from] in v;
      KeyTotal(KeyOf(r), KeyOf(v[from]));
      forall j | from < j < |v|
        ensures KeyLess(KeyOf(v[j]), KeyOf(r))
      {
        KeyTransitive(KeyOf(v[j]), KeyOf(v[from]), KeyOf(r));
      }
    }
  }

  /** The rows, newest first. */
  ghost function Sorted(rows: set<Row>): (v: seq<Row>)
    requires KeysDistinct(rows)
    ensures Lists(v, rows)
  {
    Sortable(rows);
    var v :| Lists(v, rows);
    v
  }

  // ---- One page ----

  /** The reference: the first `limit` admitted rows, and a cursor at the last of them if there are more. */
  ghost function PageAt(table: set<Row>, q: Query): Page
    requires KeysDistinct(table)
  {
    var v := Sorted(Admitted(table, q));
    if |v| > Limit(q) then Page(v[..Limit(q)], Some(EncodeCursor(KeyOf(v[Limit(q) - 1])))) else Page(v, None)
  }

  lemma {:induction false} ListsAll(v: seq<Row>, rows: set<Row>)
    requires Lists(v, rows)
    ensures |v| == |rows|
    decreases |v|
  {
    hide Descending;
    if v == [] {
      assert forall r :: r !in rows;
    } else {
      assert v[0] in rows;
      TailLists(v, rows);
      ListsAll(v[1..], rows - {v[0]});
    }
  }

  /** A page has as many rows as were asked for, or all there are if fewer, and a next cursor exactly when there are
      more. Less than one row asked for is one, and more than a thousand is a thousand. */
  lemma PageSize(table: set<Row>, q: Query)
    requires KeysDistinct(table)
    ensures var page, n := PageAt(table, q), |Admitted(table, q)|;
            && (1 <= q.limit <= 1000 ==>
                  |page.rows| == Min(q.limit, n) && (page.nextCursor.Some? <==> q.limit < n))
            && (q.limit < 1 ==> page == PageAt(table, q.(limit := 1)))
            && (q.limit > 1000 ==> page == PageAt(table, q.(limit := 1000)))
  {
    hide KeyLess, EncodeCursor, DecodeCursor, Lists;
    ListsAll(Sorted(Admitted(table, q)), Admitted(table, q));
    forall limit
      ensures Admitted(table, q.(limit := limit)) == Admitted(table, q)
    {
      LimitAdmitsTheSame(table, q, limit);
    }
  }

  lemma LimitAdmitsTheSame(table: set<Row>, q: Query, limit: int)
    ensures Admitted(table, q.(limit := limit)) == Admitted(table, q)
  {
  }

  /** The in-memory list: filter, sort everything, truncate. */
  method ListInMemory(table: set<Row>, q: Query) returns (page: Page)
    requires KeysDistinct(table)
    ensures page == PageAt(table, q)
  {
    hide Admits, KeyLess, EncodeCursor;
    var v := Sort(Admitted(table, q));
    ListsOnlyOnce(v, Sorted(Admitted(table, q)), Admitted(table, q));
    var limit := Limit(q);
    var nextCursor := if |v| > limit then Some(EncodeCursor(KeyOf(v[limit - 1]))) else None;
    if |v| > limit {
      v := v[..limit];
    }
    page := Page(v, nextCursor);
  }

  /** What the database may answer to the ordered query with a row limit: the greatest admitted rows in order, as many
      as there are up to the limit. */
  ghost predicate IsTop(fetched: seq<Row>, rows: set<Row>, limit: nat) {
    && Descending(fetched)
    && (forall r | r in fetched :: r in rows)
    && (|fetched| == limit || (|fetched| < limit && forall r | r in rows :: r in fetched))
    && (forall r, s | r in rows && r !in fetched && s in fetched :: KeyLess(KeyOf(r), KeyOf(s)))
  }

  lemma TopIsPrefix(fetched: seq<Row>, rows: set<Row>, limit: nat)
    requires KeysDistinct(rows) && IsTop(fetched, rows, limit)
    ensures var v := Sorted(rows);
            fetched == v[..if |v| < limit then |v| else limit]
  {
    hide KeyLess;
    var rest := set r | r in rows && r !in fetched;
    var tail := Sorted(rest);
    var w := fetched + tail;
    forall i, j | 0 <= i < j < |w|
      ensures KeyLess(KeyOf(w[j]), KeyOf(w[i]))
    {
      if i < |fetched| <= j {
        assert w[j] == tail[j - |fetched|] && w[j] in tail;
        assert w[i] in fetched;
      } else if |fetched| <= i {
        assert w[i] == tail[i - |fetched|] && w[j] == tail[j - |fetched|];
      }
    }
    assert Lists(w, rows);
    ListsOnlyOnce(w, Sorted(rows), rows);
    assert tail != [] ==> tail[0] in rest;
    assert w[..|fetched|] == fetched;
  }

  /** The database list: one row more than the limit is fetched, and dropped for a cursor. It is the in-memory list. */
  method ListFromDatabase(ghost table: set<Row>, q: Query, fetched: seq<Row>) returns (page: Page)
    requires KeysDistinct(table) && IsTop(fetched, Admitted(table, q), Limit(q) + 1)
    ensures page == PageAt(table, q)
  {
    hide Admits, KeyLess, EncodeCursor, IsTop, Admitted;
    TopIsPrefix(fetched, AdmittedDistinct(table, q), Limit(q) + 1);
    var limit := Limit(q);
    var out := fetched;
    var nextCursor := None;
    if |out| > limit {
      out := out[..limit];
      nextCursor := Some(EncodeCursor(KeyOf(out[|out| - 1])));
    }
    page := Page(out, nextCursor);
  }

  ghost function AdmittedDistinct(table: set<Row>, q: Query): (rows: set<Row>)
    requires KeysDistinct(table)
    ensures rows == Admitted(table, q) && KeysDistinct(rows)
  {
    Admitted(table, q)
  }

  // ---- Walks ----

  /** What the indexer writes: times within 64 bits, digests without a colon. */
  predicate WellFormed(r: Row) {
    I64_MIN <= r.timestampMs <= I64_MAX && ':' !in r.txDigest
  }

  ghost predicate Good(table: set<Row>) {
    KeysDistinct(table) && forall r | r in table :: WellFormed(r)
  }

  predicate Kept(before: Option<string>, after: Option<string>) {
    before.Some? ==> after == before
  }

  /** The same row later: gaps may have been filled, what was there is the same. */
  predicate Evolved(r: Row, later: Row) {
    && later == r.(partyA := later.partyA, partyB := later.partyB, proofUrl := later.proofUrl,
                   walrusBlobId := later.walrusBlobId)
    && Kept(r.partyA, later.partyA) && Kept(r.partyB, later.partyB)
    && Kept(r.proofUrl, later.proofUrl) && Kept(r.walrusBlobId, later.walrusBlobId)
  }

  ghost predicate Lives(r: Row, table: set<Row>) {
    exists later :: later in table && Evolved(r, later)
  }

  /** Between the pages rows are added and gaps filled; none goes away. */
  ghost predicate Growing(tables: seq<set<Row>>) {
    && (forall i | 0 <= i < |tables| :: Good(tables[i]))
    && (forall i, j, r | 0 <= i <= j < |tables| && r in tables[i] :: Lives(r, tables[j]))
  }

  /** A row that is admitted stays admitted as it evolves. */
  lemma EvolvedAdmitted(q: Query, r: Row, later: Row)
    requires Evolved(r, later) && Admits(q, r)
    ensures Admits(q, later) && KeyOf(later) == KeyOf(r)
  {
    hide KeyLess, Place;
  }

  lemma EvolvedTwice(r: Row, s: Row, t: Row)
    requires Evolved(r, s) && Evolved(s, t)
    ensures Evolved(r, t)
  {
  }

  /** A seen row, or what it has become, is among those given. */
  ghost predicate Seen(r: Row, rows: seq<Row>) {
    exists later :: later in rows && Evolved(r, later)
  }

  /** Follow the cursor: page `i` is read from table `i`, until there is no next cursor. */
  ghost function Walk(tables: seq<set<Row>>, q: Query): seq<Page>
    requires Growing(tables)
  {
    if tables == [] then []
    else
      var page := PageAt(tables[0], q);
      if page.nextCursor.None? then [page]
      else [page] + Walk(tables[1..], q.(cursor := page.nextCursor))
  }

  ghost function AllRows(pages: seq<Page>): seq<Row> {
    if pages == [] then [] else pages[0].rows + AllRows(pages[1..])
  }

  ghost predicate Finished(pages: seq<Page>) {
    pages != [] && pages[|pages| - 1].nextCursor.None?
  }

  /** A page splits what the query admits: its own rows, and those admitted from its cursor on. */
  lemma PageSplits(table: set<Row>, q: Query)
    requires Good(table)
    ensures var page := PageAt(table, q);
            && Descending(page.rows)
            && |page.rows| <= Limit(q)
            && (forall r | r in page.rows :: r in Admitted(table, q))
            && (page.nextCursor.None? ==> Lists(page.rows, Admitted(table, q)))
            && (page.nextCursor.Some? ==>
                 && page.rows != []
                 && var last := page.rows[|page.rows| - 1];
                 && Place(q.(cursor := page.nextCursor)) == Some(KeyOf(last))
                 && (forall r | r in Admitted(table, q) && r !in page.rows :: KeyLess(KeyOf(r), KeyOf(last)))
                 && (Place(q).None? || KeyLess(KeyOf(last), Place(q).value)))
  {
    hide KeyLess, EncodeCursor, DecodeCursor;
    var v := Sorted(Admitted(table, q));
    var n := Limit(q);
    if |v| > n {
      var last := v[n - 1];
      assert last in v;
      assert WellFormed(last);
      DecodeInvertsEncode(KeyOf(last));
      assert v[..n][n - 1] == last;
      assert forall i: nat | i < n :: v[i] == v[..n][i];
      forall r | r in Admitted(table, q) && r !in v[..n]
        ensures KeyLess(KeyOf(r), KeyOf(last))
      {
        assert r in v;
        var i: nat :| i < |v| && v[i] == r;
        assert i >= n;
      }
    }
  }

  /** The next page's query admits no more than this one's, and everything of this table that was not on the page. */
  lemma NextAdmits(table: set<Row>, q: Query, r: Row)
    requires Good(table) && PageAt(table, q).nextCursor.Some?
    ensures var page := PageAt(table, q);
            var q' := q.(cursor := page.nextCursor);
            && (Admits(q', r) ==> Admits(q, r))
            && (Admits(q', r) ==> forall s | s in page.rows :: KeyLess(KeyOf(r), KeyOf(s)))
            && (r in table && Admits(q, r) && r !in page.rows ==> Admits(q', r))
  {
    hide KeyLess, PageAt, DecodeCursor;
    PageSplits(table, q);
    var page := PageAt(table, q);
    var q' := q.(cursor := page.nextCursor);
    var last := page.rows[|page.rows| - 1];
    assert Matches(q', r) == Matches(q, r);
    if Admits(q', r) {
      assert KeyLess(KeyOf(r), KeyOf(last));
      if Place(q).Some? {
        KeyTransitive(KeyOf(r), KeyOf(last), Place(q).value);
      }
      forall s | s in page.rows
        ensures KeyLess(KeyOf(r), KeyOf(s))
      {
        var i: nat :| i < |page.rows| && page.rows[i] == s;
        if i < |page.rows| - 1 {
          KeyTransitive(KeyOf(r), KeyOf(last), KeyOf(s));
        }
      }
    }
  }

  /** The rows come in strictly descending order, so none twice; every matching row there was at the start is among
      them, as it was when its page was read; and nothing but rows that match. */
  ghost predicate Visited(first: set<Row>, last: set<Row>, q: Query, seen: seq<Row>) {
    && Descending(seen)
    && (forall r | r in Admitted(first, q) :: Seen(r, seen))
    && (forall r | r in seen :: Admits(q, r) && Lives(r, last))
  }

  lemma LastPageVisits(tables: seq<set<Row>>, q: Query)
    requires Growing(tables) && tables != [] && PageAt(tables[0], q).nextCursor.None?
    ensures Visited(tables[0], tables[|tables| - 1], q, PageAt(tables[0], q).rows)
  {
    hide PageAt, KeyLess, Place, Admits, Evolved, Descending;
    PageSplits(tables[0], q);
    forall r: Row
      ensures Evolved(r, r)
    {
      EvolvedItself(r);
    }
  }

  lemma PageThenRestVisits(tables: seq<set<Row>>, q: Query, rest: seq<Row>)
    requires Growing(tables) && |tables| >= 2 && PageAt(tables[0], q).nextCursor.Some?
    requires Visited(tables[1], tables[|tables| - 1], q.(cursor := PageAt(tables[0], q).nextCursor), rest)
    ensures Visited(tables[0], tables[|tables| - 1], q, PageAt(tables[0], q).rows + rest)
  {
    hide PageAt, KeyLess, Place, Admits, Evolved, Descending, Seen, Lives;
    var page := PageAt(tables[0], q);
    var q' := q.(cursor := page.nextCursor);
    PageSplits(tables[0], q);
    forall r | r in rest
      ensures Admits(q, r) && forall s | s in page.rows :: KeyLess(KeyOf(r), KeyOf(s))
    {
      NextAdmits(tables[0], q, r);
    }
    JoinedDescending(page.rows, rest);
    forall r | r in Admitted(tables[0], q)
      ensures Seen(r, page.rows + rest)
    {
      if r in page.rows {
        SeenItself(r, page.rows + rest);
      } else {
        NextAdmits(tables[0], q, r);
        assert Lives(r, tables[1]);
        SeenLater(q', tables[1], rest, r);
        SeenAfter(r, page.rows, rest);
      }
    }
  }

  lemma SeenItself(r: Row, rows: seq<Row>)
    requires r in rows
    ensures Seen(r, rows)
  {
    EvolvedItself(r);
  }

  lemma SeenAfter(r: Row, rows: seq<Row>, rest: seq<Row>)
    requires Seen(r, rest)
    ensures Seen(r, rows + rest)
  {
    hide Evolved;
    var later :| later in rest && Evolved(r, later);
    assert later in rows + rest;
  }

  /** Every walk that reaches its end has visited all, whatever rows are added and gaps filled between the pages. */
  lemma {:induction false} WalkVisitsAll(tables: seq<set<Row>>, q: Query)
    requires Growing(tables) && Finished(Walk(tables, q))
    ensures Visited(tables[0], tables[|tables| - 1], q, AllRows(Walk(tables, q)))
    decreases |tables|
  {
    hide PageAt, Visited;
    var page := PageAt(tables[0], q);
    if page.nextCursor.None? {
      LastPageVisits(tables, q);
      assert AllRows([page]) == page.rows + AllRows([page][1..]);
      assert AllRows([page]) == page.rows;
    } else {
      var later := Walk(tables[1..], q.(cursor := page.nextCursor));
      assert ([page] + later)[1..] == later;
      assert later != [] && Finished(later) by {
        assert tables[1..] == [] ==> later == [];
      }
      WalkVisitsAll(tables[1..], q.(cursor := page.nextCursor));
      PageThenRestVisits(tables, q, AllRows(later));
    }
  }

  lemma EvolvedItself(r: Row)
    ensures Evolved(r, r)
  {
  }

  /** What an unseen row has become by the next page is seen then or after. */
  lemma SeenLater(q: Query, table: set<Row>, rest: seq<Row>, r: Row)
    requires Lives(r, table) && Admits(q, r) && forall s | s in Admitted(table, q) :: Seen(s, rest)
    ensures Seen(r, rest)
  {
    hide Admits, Evolved;
    var s :| s in table && Evolved(r, s);
    EvolvedAdmitted(q, r, s);
    assert Seen(s, rest);
    var t :| t in rest && Evolved(s, t);
    EvolvedTwice(r, s, t);
  }

  lemma JoinedDescending(v: seq<Row>, w: seq<Row>)
    requires Descending(v) && Descending(w)
    requires forall r, s | r in w && s in v :: KeyLess(KeyOf(r), KeyOf(s))
    ensures Descending(v + w)
  {
    hide KeyLess;
    var x := v + w;
    forall i, j | 0 <= i < j < |x|
      ensures KeyLess(KeyOf(x[j]), KeyOf(x[i]))
    {
      if i < |v| <= j {
        assert x[i] in v && x[j] == w[j - |v|] && x[j] in w;
      }
    }
  }

  /** On a fixed table the walk ends, and has listed exactly the matching rows, newest first. */
  method WalkFixed(table: set<Row>, query: Query) returns (rows: seq<Row>, pages: nat)
    requires Good(table)
    ensures Lists(rows, Admitted(table, query))
    ensures 1 <= pages <= |rows| + 1
  {
    hide PageAt, KeyLess, Place, Admits, Good;
    var q := query;
    rows, pages := [], 0;
    while true
      invariant pages <= |rows|
      invariant Descending(rows) && q == query.(cursor := q.cursor)
      invariant forall r | r in table :: Admits(query, r) <==> r in rows || Admits(q, r)
      invariant forall r, s | r in table && Admits(q, r) && s in rows :: KeyLess(KeyOf(r), KeyOf(s))
      invariant forall r | r in rows :: r in table
      decreases |Admitted(table, q)|
    {
      KeysDistinctIn(table);
      var page := ListInMemory(table, q);
      PageSplits(table, q);
      JoinedDescending(rows, page.rows);
      forall r
        ensures page.nextCursor.Some? ==>
          var q' := q.(cursor := page.nextCursor);
          && (Admits(q', r) ==> Admits(q, r))
          && (Admits(q', r) ==> forall s | s in page.rows :: KeyLess(KeyOf(r), KeyOf(s)))
          && (r in table && Admits(q, r) && r !in page.rows ==> Admits(q', r))
      {
        if page.nextCursor.Some? {
          NextAdmits(table, q, r);
        }
      }
      rows := rows + page.rows;
      pages := pages + 1;
      if page.nextCursor.None? {
        return;
      }
      ghost var before := Admitted(table, q);
      q := q.(cursor := page.nextCursor);
      Fewer(table, before, q, page.rows[0]);
    }
  }

  lemma KeysDistinctIn(table: set<Row>)
    requires Good(table)
    ensures KeysDistinct(table)
  {
  }

  lemma Fewer(table: set<Row>, before: set<Row>, q: Query, r: Row)
    requires r in before && (forall s | s in table && Admits(q, s) :: s in before && KeyLess(KeyOf(s), KeyOf(r)))
    ensures |Admitted(table, q)| < |before|
  {
    hide Admits, KeyLess;
    KeyIrreflexive(KeyOf(r));
    var after := Admitted(table, q);
    assert after <= before - {r};
    Subset(after, before - {r});
  }

  lemma {:induction false} Subset(a: set<Row>, b: set<Row>)
    requires a <= b
    ensures |a| <= |b|
    decreases |a|
  {
    if a != {} {
      var r :| r in a;
      Subset(a - {r}, b - {r});
    }
  }

  // ---- The in-memory store ----

  /** A present field is never replaced. */
  function Upgraded(had: Row, row: Row): Row {
    had.(proofUrl := Coalesce(had.proofUrl, row.proofUrl),
         walrusBlobId := Coalesce(had.walrusBlobId, row.walrusBlobId),
         partyA := Coalesce(had.partyA, row.partyA),
         partyB := Coalesce(had.partyB, row.partyB))
  }

  /** What was there is kept and only gaps are filled, each from the same column of the new row. */
  lemma UpgradeFills(had: Row, row: Row)
    ensures var r := Upgraded(had, row);
            && Evolved(had, r)
            && (had.partyA.None? ==> r.partyA == row.partyA) && (had.partyB.None? ==> r.partyB == row.partyB)
            && (had.proofUrl.None? ==> r.proofUrl == row.proofUrl)
            && (had.walrusBlobId.None? ==> r.walrusBlobId == row.walrusBlobId)
  {
  }

  method Upgrade(had: Row, row: Row) returns (existing: Row)
    ensures existing == Upgraded(had, row)
  {
    existing := had;
    if existing.proofUrl.None? {
      existing := existing.(proofUrl := row.proofUrl);
    }
    if existing.walrusBlobId.None? {
      existing := existing.(walrusBlobId := row.walrusBlobId);
    }
    if existing.partyA.None? {
      existing := existing.(partyA := row.partyA);
    }
    if existing.partyB.None? {
      existing := existing.(partyB := row.partyB);
    }
  }

  ghost function SettledIn(rows: map<string, Row>): set<string> {
    set d | d in rows && rows[d].kind == Settled
  }

  lemma SettledWith(rows: map<string, Row>, d: string, row: Row)
    ensures SettledIn(rows[d := row]) == SettledIn(rows) - {d} + if row.kind == Settled then {d} else {}
    ensures d in SettledIn(rows) <==> d in rows && rows[d].kind == Settled
  {
  }

  lemma KeepsDigest(rows: map<string, Row>, row: Row)
    requires row.txDigest in rows ==> rows[row.txDigest].txDigest == row.txDigest
    ensures row.txDigest in rows ==>
      var upgraded := Upgraded(rows[row.txDigest], row);
      upgraded.txDigest == row.txDigest && upgraded.kind == rows[row.txDigest].kind
  {
  }

  /** A row that stands for one of its own kind changes no count, and a new one counts if it is settled. */
  lemma CountedWith(rows: map<string, Row>, d: string, row: Row)
    requires d in rows ==> rows[d].kind == row.kind
    ensures |SettledIn(rows[d := row])| == |SettledIn(rows)| + if d !in rows && row.kind == Settled then 1 else 0
  {
    SettledWith(rows, d, row);
    hide SettledIn;
    if d in rows {
      assert SettledIn(rows[d := row]) == SettledIn(rows);
    }
  }

  /** Keyed by digest alone, so it holds one row of a transaction that settles many tunnels. */
  class InMemorySettlementStore {
    var rows: map<string, Row>
    var settled: int

    ghost predicate Valid()
      reads this
    {
      (forall d | d in rows :: rows[d].txDigest == d) && settled == |SettledIn(rows)|
    }

    constructor ()
      ensures Valid() && rows == map[]
    {
      rows, settled := map[], 0;
      new;
      assert SettledIn(rows) == {};
    }

    /** A new digest is added and counted if it is a settlement; a known one keeps its row and has its gaps filled. */
    method Upsert(row: Row)
      requires Valid()
      modifies this
      ensures Valid()
      ensures rows == old(rows)[row.txDigest := if row.txDigest in old(rows) then Upgraded(old(rows)[row.txDigest], row)
                                                else row]
      ensures settled == old(settled) + if row.txDigest !in old(rows) && row.kind == Settled then 1 else 0
    {
      hide SettledIn, KeyLess, Upgraded;
      KeepsDigest(rows, row);
      if row.txDigest in rows {
        var existing := Upgrade(rows[row.txDigest], row);
        CountedWith(rows, row.txDigest, existing);
        rows := rows[row.txDigest := existing];
      } else {
        CountedWith(rows, row.txDigest, row);
        if row.kind == Settled {
          settled := settled + 1;
        }
        rows := rows[row.txDigest := row];
      }
    }

    method List(q: Query) returns (page: Page)
      requires Valid()
      ensures KeysDistinct(rows.Values) && page == PageAt(rows.Values, q)
    {
      hide PageAt;
      page := ListInMemory(rows.Values, q);
    }
  }
}
