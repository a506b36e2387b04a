/** The in-memory settlement store beside the database it stands in for: the same upserts, keyed by digest in one and by
    digest and tunnel in the other. */
module SettlementParity {
  import opened Wrappers
  import opened SettlementList

  /** The database's primary key. */
  datatype RowId = RowId(digest: string, tunnel: string)

  function IdOf(r: Row): RowId {
    RowId(r.txDigest, r.tunnelId)
  }

  datatype Memory = Memory(rows: map<string, Row>, settled: nat)

  datatype Database = Database(rows: map<RowId, Row>, settled: nat)

  /** One if the row is newly inserted and settles. */
  function Counted(isNew: bool, r: Row): nat {
    if isNew && r.kind == Settled then 1 else 0
  }

  /** The upsert of `InMemorySettlementStore.Upsert`. */
  function InMemory(m: Memory, r: Row): Memory {
    Memory(m.rows[r.txDigest := if r.txDigest in m.rows then Upgraded(m.rows[r.txDigest], r) else r],
           m.settled + Counted(r.txDigest !in m.rows, r))
  }

  /** INSERT ... ON CONFLICT (tx_digest, tunnel_id) DO UPDATE, with the counting insert trigger. */
  function InDatabase(db: Database, r: Row): Database {
    Database(db.rows[IdOf(r) := if IdOf(r) in db.rows then Upgraded(db.rows[IdOf(r)], r) else r],
             db.settled + Counted(IdOf(r) !in db.rows, r))
  }

  ghost function MemoryAfter(us: seq<Row>): Memory {
    if us == [] then Memory(map[], 0) else InMemory(MemoryAfter(us[..|us| - 1]), us[|us| - 1])
  }

  ghost function DatabaseAfter(us: seq<Row>): Database {
    if us == [] then Database(map[], 0) else InDatabase(DatabaseAfter(us[..|us| - 1]), us[|us| - 1])
  }

  /** The class is the first of the two. */
  method UpsertAll(store: InMemorySettlementStore, us: seq<Row>)
    requires store.Valid() && store.rows == map[] && store.settled == 0
    modifies store
    ensures store.Valid() && store.rows == MemoryAfter(us).rows && store.settled == MemoryAfter(us).settled
  {
    hide Upgraded;
    for i := 0 to |us|
      invariant store.Valid() && store.rows == MemoryAfter(us[..i]).rows
          && store.settled == MemoryAfter(us[..i]).settled
    {
      assert us[..i + 1][..i] == us[..i];
      store.Upsert(us[i]);
    }
    assert us[..|us|] == us;
  }

  // ---- What each holds ----

  ghost predicate DigestSeen(us: seq<Row>, d: string) {
    exists i :: 0 <= i < |us| && us[i].txDigest == d
  }

  ghost predicate IdSeen(us: seq<Row>, id: RowId) {
    exists i :: 0 <= i < |us| && IdOf(us[i]) == id
  }

  lemma SeenMore(us: seq<Row>, d: string, id: RowId)
    requires us != []
    ensures var front, last := us[..|us| - 1], us[|us| - 1];
      && (DigestSeen(us, d) <==> DigestSeen(front, d) || last.txDigest == d)
      && (IdSeen(us, id) <==> IdSeen(front, id) || IdOf(last) == id)
  {
    var front, last := us[..|us| - 1], us[|us| - 1];
    assert forall i | 0 <= i < |front| :: front[i] == us[i];
  }

  /** Memory holds a row for each digest seen, under an id that was seen with it. */
  lemma {:induction false} MemoryHolds(us: seq<Row>, d: string)
    ensures d in MemoryAfter(us).rows <==> DigestSeen(us, d)
    ensures d in MemoryAfter(us).rows ==>
      var r := MemoryAfter(us).rows[d]; r.txDigest == d && IdSeen(us, IdOf(r))
  {
    hide DigestSeen, IdSeen;
    if us != [] {
      var front, last := us[..|us| - 1], us[|us| - 1];
      MemoryHolds(front, d);
      SeenMore(us, d, IdOf(last));
      if d in MemoryAfter(front).rows {
        SeenMore(us, d, IdOf(MemoryAfter(front).rows[d]));
      }
    } else {
      NothingSeen(d, RowId(d, ""));
    }
  }

  lemma NothingSeen(d: string, id: RowId)
    ensures !DigestSeen([], d) && !IdSeen([], id)
  {
  }

  /** The database holds a row for each id seen, under that id. */
  lemma {:induction false} DatabaseHolds(us: seq<Row>, id: RowId)
    ensures id in DatabaseAfter(us).rows <==> IdSeen(us, id)
    ensures id in DatabaseAfter(us).rows ==> IdOf(DatabaseAfter(us).rows[id]) == id
  {
    hide DigestSeen, IdSeen;
    if us != [] {
      DatabaseHolds(us[..|us| - 1], id);
      SeenMore(us, id.digest, id);
    } else {
      NothingSeen(id.digest, id);
    }
  }

  // ---- The rows ----

  /** No transaction's rows name two tunnels. */
  ghost predicate NoSiblings(us: seq<Row>) {
    forall i, j | 0 <= i < |us| && 0 <= j < |us| && us[i].txDigest == us[j].txDigest :: us[i].tunnelId == us[j].tunnelId
  }

  /** Without siblings the two stores hold the same row for each id. */
  lemma {:induction false} SameWithoutSiblings(us: seq<Row>, id: RowId)
    requires NoSiblings(us) && IdSeen(us, id)
    ensures id.digest in MemoryAfter(us).rows && id in DatabaseAfter(us).rows
    ensures MemoryAfter(us).rows[id.digest] == DatabaseAfter(us).rows[id]
  {
    var front, last := us[..|us| - 1], us[|us| - 1];
    assert NoSiblings(front) by {
      assert forall i | 0 <= i < |front| :: front[i] == us[i];
    }
    SeenMore(us, id.digest, id);
    MemoryHolds(front, id.digest);
    DatabaseHolds(front, id);
    DatabaseHolds(front, IdOf(last));
    SiblingIsSame(us, id);
    hide NoSiblings, Upgraded, DigestSeen, IdSeen;
    if IdSeen(front, id) {
      SameWithoutSiblings(front, id);
    }
  }

  /** Without siblings an id seen before the last row has that row's digest only if it is its id. */
  lemma SiblingIsSame(us: seq<Row>, id: RowId)
    requires NoSiblings(us) && us != []
    ensures var front, last := us[..|us| - 1], us[|us| - 1];
      && (IdSeen(front, id) && last.txDigest == id.digest ==> IdOf(last) == id)
      && (DigestSeen(front, id.digest) && IdOf(last) == id ==> IdSeen(front, id))
  {
    var front, last := us[..|us| - 1], us[|us| - 1];
    assert forall i | 0 <= i < |front| :: front[i] == us[i];
    if i :| 0 <= i < |front| && front[i].txDigest == id.digest {
      assert IdOf(last) == id ==> IdOf(front[i]) == id;
    }
  }

  ghost predicate SameRows(m: Memory, db: Database) {
    m.rows.Values == db.rows.Values
  }

  /** The promised parity: after every sequence of upserts the two stores hold the same rows exactly when no two of the
      rows upserted share a digest under different tunnels. */
  lemma RowsAgreeExactly(us: seq<Row>)
    ensures SameRows(MemoryAfter(us), DatabaseAfter(us)) <==> NoSiblings(us)
  {
    var m, db := MemoryAfter(us), DatabaseAfter(us);
    hide MemoryAfter, DatabaseAfter, DigestSeen, NoSiblings;
    if NoSiblings(us) {
      forall r: Row
        ensures r in m.rows.Values <==> r in db.rows.Values
      {
        if d :| d in m.rows && m.rows[d] == r {
          MemoryHolds(us, d);
          SameWithoutSiblings(us, IdOf(r));
        }
        if id :| id in db.rows && db.rows[id] == r {
          DatabaseHolds(us, id);
          SameWithoutSiblings(us, id);
        }
      }
    } else {
      var i, j := Siblings(us);
      var a, b := IdOf(us[i]), IdOf(us[j]);
      DatabaseHolds(us, a);
      DatabaseHolds(us, b);
      assert db.rows[a] in db.rows.Values && db.rows[b] in db.rows.Values;
      if SameRows(m, db) {
        var d :| d in m.rows && m.rows[d] == db.rows[a];
        var e :| e in m.rows && m.rows[e] == db.rows[b];
        MemoryHolds(us, d);
        MemoryHolds(us, e);
        assert false;
      }
    }
  }

  lemma Siblings(us: seq<Row>) returns (i: nat, j: nat)
    requires !NoSiblings(us)
    ensures i < |us| && j < |us| && us[i].txDigest == us[j].txDigest && us[i].tunnelId != us[j].tunnelId
    ensures IdSeen(us, IdOf(us[i])) && IdSeen(us, IdOf(us[j]))
  {
    i, j :| i < |us| && j < |us| && us[i].txDigest == us[j].txDigest && us[i].tunnelId != us[j].tunnelId;
  }

  // ---- The counters ----

  /** Row `i` settles a tunnel for the first time, in a transaction that was seen before under other tunnels only. */
  ghost predicate Uncounted(us: seq<Row>, i: nat)
    requires i < |us|
  {
    us[i].kind == Settled && !IdSeen(us[..i], IdOf(us[i])) && DigestSeen(us[..i], us[i].txDigest)
  }

  /** The counters agree exactly when no row settles a tunnel for the first time in a transaction seen before. */
  lemma {:induction false} CountersAgreeExactly(us: seq<Row>)
    ensures MemoryAfter(us).settled <= DatabaseAfter(us).settled
    ensures MemoryAfter(us).settled == DatabaseAfter(us).settled <==> forall i: nat | i < |us| :: !Uncounted(us, i)
  {
    if us != [] {
      var n := |us| - 1;
      var front, last := us[..n], us[n];
      CountersAgreeExactly(front);
      MemoryHolds(front, last.txDigest);
      DatabaseHolds(front, IdOf(last));
      SeenTogether(front, last);
      forall i: nat | i < n
        ensures Uncounted(us, i) <==> Uncounted(front, i)
      {
        assert front[..i] == us[..i] && front[i] == us[i];
      }
      hide DigestSeen, IdSeen;
      assert Uncounted(us, n) <==>
        last.kind == Settled && !IdSeen(front, IdOf(last)) && DigestSeen(front, last.txDigest);
    }
  }

  lemma SeenTogether(us: seq<Row>, r: Row)
    ensures IdSeen(us, IdOf(r)) ==> DigestSeen(us, r.txDigest)
  {
  }

  /** A transaction that settles two tunnels: the database holds and counts both, memory one. */
  lemma TwoTunnelsCollapse(one: Row, two: Row)
    requires one.kind == two.kind == Settled && one.txDigest == two.txDigest && one.tunnelId != two.tunnelId
    ensures var m, db := MemoryAfter([one, two]), DatabaseAfter([one, two]);
      && m.rows.Keys == {one.txDigest} && m.settled == 1 && m.rows[one.txDigest].tunnelId == one.tunnelId
      && db.rows == map[IdOf(one) := one, IdOf(two) := two] && db.settled == 2
  {
    assert [one, two][..1] == [one] && [one][..0] == [];
    assert DatabaseAfter([one]) == Database(map[IdOf(one) := one], 1);
    assert MemoryAfter([one]) == Memory(map[one.txDigest := one], 1);
  }
}
