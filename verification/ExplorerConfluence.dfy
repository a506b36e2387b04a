/** The read-model converges: once every actor has finished, the tables are one function of the events and
    proof links, whatever the interleaving, repetition and grouping of the statements. */
module ExplorerConfluence {
  import opened Wrappers
  import opened ExplorerMerge

  // The two link columns, treated alike.
  datatype Column = Url | Blob

  ghost function InRow(r: Row, c: Column): Option<string> {
    if c == Url then r.proofUrl else r.walrusBlobId
  }

  ghost function InProof(p: Proof, c: Column): Option<string> {
    if c == Url then p.proofUrl else p.walrusBlobId
  }

  ghost function LinkOf(messages: set<Message>, d: string, c: Column): Option<string> {
    if c == Url then UrlOf(messages, d) else BlobOf(messages, d)
  }

  /** Someone published this link for the transaction. */
  ghost predicate Published(messages: set<Message>, d: string, c: Column, link: string) {
    exists m :: m in messages && m.digest == d && InProof(m.proof, c) == Some(link)
  }

  ghost predicate HasLink(messages: set<Message>, d: string, c: Column) {
    exists m :: m in messages && m.digest == d && InProof(m.proof, c).Some?
  }

  // ---------------------------------------------------------------------------------------------
  // No statement writes anything but what events say and what was published

  ghost predicate RowSound(events: Events, messages: set<Message>, k: Key, r: Row) {
    && k in events
    && r.kind == events[k].kind && r.facts == events[k].facts
    && ((r.partyA, r.partyB) == AddressesOf(events, k) || (r.kind == Settled && r.partyA.None? && r.partyB.None?))
    && forall c: Column :: InRow(r, c).Some? ==> Published(messages, k.digest, c, InRow(r, c).value)
  }

  ghost predicate ProofSound(messages: set<Message>, d: string, p: Proof) {
    && (exists m :: m in messages && m.digest == d)
    && forall c: Column :: InProof(p, c).Some? ==> Published(messages, d, c, InProof(p, c).value)
  }

  ghost function SettledKeys(db: Db): set<Key> {
    set k | k in db.settlement && db.settlement[k].kind == Settled
  }

  ghost predicate Sound(db: Db, events: Events, messages: set<Message>) {
    && (forall k | k in db.settlement :: RowSound(events, messages, k, db.settlement[k]))
    && (forall d | d in db.pending :: ProofSound(messages, d, db.pending[d]))
    && (forall k, l | k in db.settlement && l in events && k.digest == l.digest :: l in db.settlement)
    && db.settledCount == |SettledKeys(db)|
  }

  lemma OpenerAgrees(events: Events, messages: set<Message>, db: Db, o: Key)
    requires Consistent(events, messages) && Sound(db, events, messages)
    requires o in db.settlement && db.settlement[o].kind == Opened
    ensures OpenerIn(db.settlement, o.tunnel) == Some(o) && OpenerOf(events, o.tunnel) == Some(o)
    ensures (db.settlement[o].partyA, db.settlement[o].partyB) == (events[o].partyA, events[o].partyB)
  {
    assert RowSound(events, messages, o, db.settlement[o]);
    var p := OpenerIn(db.settlement, o.tunnel).value;
    assert RowSound(events, messages, p, db.settlement[p]);
  }

  lemma UpsertRowSound(events: Events, messages: set<Message>, k: Key, existing: Option<Row>)
    requires Consistent(events, messages) && k in events
    requires existing.Some? ==> RowSound(events, messages, k, existing.value)
    ensures RowSound(events, messages, k, UpsertRow(existing, events[k]))
    ensures existing.Some? ==> UpsertRow(existing, events[k]) == existing.value
  {
  }

  lemma UpsertCounts(db: Db, values: Events)
    requires forall k | k in values && k in db.settlement :: db.settlement[k].kind == values[k].kind
    requires db.settledCount == |SettledKeys(db)|
    ensures ExecUpsert(db, values).settledCount == |SettledKeys(ExecUpsert(db, values))|
  {
    var t := ExecUpsert(db, values);
    var inserted := set k | k in values && k !in db.settlement && values[k].kind == Settled;
    forall k | k in t.settlement
      ensures t.settlement[k].kind == if k in db.settlement then db.settlement[k].kind else values[k].kind
    {
    }
    hide ExecUpsert, UpsertRow;
    assert t.settlement.Keys == db.settlement.Keys + values.Keys;
    forall k ensures k in SettledKeys(t) <==> k in SettledKeys(db) || k in inserted {
    }
    assert SettledKeys(t) == SettledKeys(db) + inserted;
    assert SettledKeys(db) !! inserted;
  }

  lemma UpsertSound(db: Db, events: Events, messages: set<Message>, ds: set<string>)
    requires Consistent(events, messages) && Sound(db, events, messages)
    ensures Sound(ExecUpsert(db, RowsOf(events, ds)), events, messages)
  {
    var values := RowsOf(events, ds);
    var t := ExecUpsert(db, values);
    forall k | k in t.settlement ensures RowSound(events, messages, k, t.settlement[k]) {
      if k in values {
        UpsertRowSound(events, messages, k, Lookup(db.settlement, k));
      }
    }
    assert forall k | k in values && k in db.settlement :: RowSound(events, messages, k, db.settlement[k]);
    UpsertCounts(db, values);
    hide RowSound, UpsertRow, ProofSound, Consistent, SettledKeys;
  }

  lemma EnrichRowSound(db: Db, events: Events, messages: set<Message>, k: Key)
    requires Consistent(events, messages) && Sound(db, events, messages) && k in db.settlement
    ensures RowSound(events, messages, k, EnrichRow(db.settlement, k, db.settlement[k]))
    ensures OpenerIn(db.settlement, k.tunnel).Some? ==>
      var r := EnrichRow(db.settlement, k, db.settlement[k]); (r.partyA, r.partyB) == AddressesOf(events, k)
  {
    assert RowSound(events, messages, k, db.settlement[k]);
    var r := EnrichRow(db.settlement, k, db.settlement[k]);
    assert forall c: Column :: InRow(r, c) == InRow(db.settlement[k], c);
    var opener := OpenerIn(db.settlement, k.tunnel);
    if opener.Some? {
      OpenerAgrees(events, messages, db, opener.value);
    }
  }

  lemma EnrichSound(db: Db, events: Events, messages: set<Message>, tunnels: set<string>)
    requires Consistent(events, messages) && Sound(db, events, messages)
    ensures Sound(ExecEnrich(db, tunnels), events, messages)
  {
    hide RowSound;
    var t := ExecEnrich(db, tunnels);
    forall k | k in t.settlement ensures RowSound(events, messages, k, t.settlement[k]) {
      EnrichRowSound(db, events, messages, k);
    }
    assert SettledKeys(t) == SettledKeys(db);
  }

  lemma MergeSound(events: Events, messages: set<Message>, k: Key, r: Row, p: Proof)
    requires RowSound(events, messages, k, r) && ProofSound(messages, k.digest, p)
    ensures RowSound(events, messages, k, MergeProof(r, p))
  {
    forall c: Column ensures InRow(MergeProof(r, p), c) == Coalesce(InRow(r, c), InProof(p, c)) {
    }
  }

  lemma DrainSound(db: Db, events: Events, messages: set<Message>, digests: set<string>)
    requires Consistent(events, messages) && Sound(db, events, messages)
    ensures Sound(ExecDrain(db, digests), events, messages)
  {
    hide RowSound, ProofSound, Consistent;
    var t := ExecDrain(db, digests);
    forall k | k in t.settlement ensures RowSound(events, messages, k, t.settlement[k]) {
      if k.digest in digests && k.digest in db.pending {
        MergeSound(events, messages, k, db.settlement[k], db.pending[k.digest]);
      }
    }
    assert SettledKeys(t) == SettledKeys(db);
  }

  lemma RecordSound(db: Db, events: Events, messages: set<Message>, m: Message)
    requires Consistent(events, messages) && Sound(db, events, messages) && m in messages
    ensures Sound(ExecRecord(db, m), events, messages)
  {
    var t := ExecRecord(db, m);
    forall c: Column
      ensures var link := InProof(t.pending[m.digest], c); link.Some? ==> Published(messages, m.digest, c, link.value)
    {
      var waiting := if m.digest in db.pending then InProof(db.pending[m.digest], c) else None;
      assert InProof(t.pending[m.digest], c) == Coalesce(InProof(m.proof, c), waiting);
      if m.digest in db.pending {
        assert ProofSound(messages, m.digest, db.pending[m.digest]);
      }
      if InProof(m.proof, c).Some? {
        assert InProof(m.proof, c) == Some(InProof(m.proof, c).value);
        assert Published(messages, m.digest, c, InProof(m.proof, c).value);
      }
    }
    assert SettledKeys(t) == SettledKeys(db);
  }

  /** Records only carry published messages. */
  ghost predicate Genuine(stmt: Stmt, messages: set<Message>) {
    stmt.Record? ==> stmt.message in messages
  }

  lemma ExecSound(db: Db, events: Events, messages: set<Message>, stmt: Stmt)
    requires Consistent(events, messages) && Sound(db, events, messages) && Genuine(stmt, messages)
    ensures Sound(Exec(db, stmt, events), events, messages)
  {
    hide Sound, Consistent;
    match stmt
    case Upsert(ds) => UpsertSound(db, events, messages, ds);
    case Enrich(ds) => EnrichSound(db, events, messages, TunnelsOf(events, ds));
    case DrainCommit(ds) => DrainSound(db, events, messages, SettledDigests(events, ds));
    case Record(m) => RecordSound(db, events, messages, m);
    case DrainProof(d) => DrainSound(db, events, messages, {d});
  }

  /** All rows of a transaction carry the same links. */
  ghost predicate Uniform(db: Db) {
    forall k, l, c: Column | k in db.settlement && l in db.settlement && k.digest == l.digest ::
      InRow(db.settlement[k], c) == InRow(db.settlement[l], c)
  }

  lemma UpsertUniform(db: Db, events: Events, messages: set<Message>, ds: set<string>)
    requires Sound(db, events, messages) && Uniform(db)
    ensures Uniform(ExecUpsert(db, RowsOf(events, ds)))
  {
    var t := ExecUpsert(db, RowsOf(events, ds));
    forall k | k in t.settlement
      ensures k in events
      ensures forall c: Column ::
          InRow(t.settlement[k], c) == if k in db.settlement then InRow(db.settlement[k], c) else None
    {
      if k in db.settlement {
        assert RowSound(events, messages, k, db.settlement[k]);
      }
    }
    hide ExecUpsert, RowsOf, RowSound, InRow;
  }

  lemma EnrichUniform(db: Db, tunnels: set<string>)
    requires Uniform(db)
    ensures Uniform(ExecEnrich(db, tunnels))
  {
    var t := ExecEnrich(db, tunnels);
    forall k | k in t.settlement
      ensures k in db.settlement && forall c: Column :: InRow(t.settlement[k], c) == InRow(db.settlement[k], c)
    {
    }
    hide ExecEnrich, InRow;
  }

  lemma DrainUniform(db: Db, digests: set<string>)
    requires Uniform(db)
    ensures Uniform(ExecDrain(db, digests))
  {
    var t := ExecDrain(db, digests);
    forall k, c: Column | k in t.settlement
      ensures k in db.settlement
      ensures InRow(t.settlement[k], c) ==
              if k.digest in digests && k.digest in db.pending then
                Coalesce(InRow(db.settlement[k], c), InProof(db.pending[k.digest], c))
              else InRow(db.settlement[k], c)
    {
    }
    hide ExecDrain, InRow, InProof;
  }

  lemma ExecUniform(db: Db, events: Events, messages: set<Message>, stmt: Stmt)
    requires Sound(db, events, messages) && Uniform(db)
    ensures Uniform(Exec(db, stmt, events))
  {
    hide Sound;
    match stmt
    case Upsert(ds) =>
      hide Uniform;
      UpsertUniform(db, events, messages, ds);
    case Enrich(ds) =>
      hide Uniform;
      EnrichUniform(db, TunnelsOf(events, ds));
    case DrainCommit(ds) =>
      hide Uniform;
      DrainUniform(db, SettledDigests(events, ds));
    case DrainProof(d) =>
      hide Uniform;
      DrainUniform(db, {d});
    case Record(m) =>
  }

  // ---------------------------------------------------------------------------------------------
  // What is written stays written

  /** The transaction's rows are all in the table. */
  ghost predicate Present(db: Db, events: Events, d: string) {
    forall k | k in events && k.digest == d :: k in db.settlement
  }

  ghost predicate Addressed(db: Db, events: Events, k: Key) {
    k in events && k in db.settlement && (db.settlement[k].partyA, db.settlement[k].partyB) == AddressesOf(events, k)
  }

  /** Every row of the transaction has a link, and there are rows. */
  ghost predicate Linked(db: Db, events: Events, d: string, c: Column) {
    && HasRows(events, d)
    && forall k | k in events && k.digest == d :: k in db.settlement && InRow(db.settlement[k], c).Some?
  }

  /** A link is on the rows already, or waiting to be merged. */
  ghost predicate Kept(db: Db, events: Events, d: string, c: Column) {
    (d in db.pending && InProof(db.pending[d], c).Some?) || Linked(db, events, d, c)
  }

  lemma ExecKeepsPresent(db: Db, events: Events, stmt: Stmt, d: string)
    requires Present(db, events, d)
    ensures Present(Exec(db, stmt, events), events, d)
  {
  }

  lemma ExecKeepsAddressed(db: Db, events: Events, messages: set<Message>, stmt: Stmt, k: Key)
    requires Consistent(events, messages) && Sound(db, events, messages) && Addressed(db, events, k)
    ensures Addressed(Exec(db, stmt, events), events, k)
  {
    assert RowSound(events, messages, k, db.settlement[k]);
    match stmt
    case Enrich(ds) =>
      hide AddressesOf, OpenerIn, Consistent, RowSound;
      var r := db.settlement[k];
      assert EnrichRow(db.settlement, k, r) == r || (r.partyA.None? && r.partyB.None?);
      EnrichRowSound(db, events, messages, k);
      if OpenerIn(db.settlement, k.tunnel).None? {
        assert EnrichRow(db.settlement, k, r) == r;
      }
    case Upsert(ds) =>
      UpsertRowSound(events, messages, k, Some(db.settlement[k]));
    case _ =>
  }

  /** No statement changes a link column that is set. */
  lemma ExecKeepsLink(db: Db, events: Events, stmt: Stmt, k: Key, c: Column)
    requires k in db.settlement && InRow(db.settlement[k], c).Some?
    ensures k in Exec(db, stmt, events).settlement
    ensures InRow(Exec(db, stmt, events).settlement[k], c) == InRow(db.settlement[k], c)
  {
  }

  lemma ExecKeepsLinked(db: Db, events: Events, stmt: Stmt, d: string, c: Column)
    requires Linked(db, events, d, c)
    ensures Linked(Exec(db, stmt, events), events, d, c)
  {
    var t := Exec(db, stmt, events);
    forall k | k in events && k.digest == d
      ensures k in t.settlement && InRow(t.settlement[k], c).Some?
    {
      ExecKeepsLink(db, events, stmt, k, c);
    }
  }

  /** A drain that finds the rows moves a waiting link onto all of them. */
  lemma DrainLinks(db: Db, events: Events, digests: set<string>, d: string, c: Column)
    requires Kept(db, events, d, c) && d in digests && Present(db, events, d) && HasRows(events, d)
    ensures Linked(ExecDrain(db, digests), events, d, c)
  {
    var t := ExecDrain(db, digests);
    forall k | k in events && k.digest == d ensures InRow(t.settlement[k], c).Some? {
      if d in db.pending {
        assert InRow(t.settlement[k], c) == Coalesce(InRow(db.settlement[k], c), InProof(db.pending[d], c));
      }
    }
  }

  /** A drain that finds no rows keeps what is waiting. */
  lemma DrainKeeps(db: Db, events: Events, messages: set<Message>, digests: set<string>, d: string, c: Column)
    requires Sound(db, events, messages) && Kept(db, events, d, c)
    ensures Kept(ExecDrain(db, digests), events, d, c)
  {
    var t := ExecDrain(db, digests);
    if d in db.pending && d !in t.pending {
      var k :| k in db.settlement && k.digest == d;
      assert RowSound(events, messages, k, db.settlement[k]);
      hide Sound, RowSound;
      DrainLinks(db, events, digests, d, c);
    } else if !(d in db.pending && InProof(db.pending[d], c).Some?) {
      forall k | k in events && k.digest == d ensures InRow(t.settlement[k], c).Some? {
        assert InRow(db.settlement[k], c).Some?;
      }
    }
  }

  lemma RecordKeeps(db: Db, events: Events, m: Message, d: string, c: Column)
    requires Kept(db, events, d, c) || (m.digest == d && InProof(m.proof, c).Some?)
    ensures Kept(ExecRecord(db, m), events, d, c)
  {
  }

  lemma ExecKeepsKept(db: Db, events: Events, messages: set<Message>, stmt: Stmt, d: string, c: Column)
    requires Sound(db, events, messages) && Kept(db, events, d, c)
    ensures Kept(Exec(db, stmt, events), events, d, c)
  {
    match stmt
    case DrainCommit(ds) => DrainKeeps(db, events, messages, SettledDigests(events, ds), d, c);
    case DrainProof(e) => DrainKeeps(db, events, messages, {e}, d, c);
    case Record(m) => RecordKeeps(db, events, m, d, c);
    case _ =>
      hide Sound;
      if Linked(db, events, d, c) {
        ExecKeepsLinked(db, events, stmt, d, c);
      }
  }

  // ---------------------------------------------------------------------------------------------
  // Runs

  /** Every statement is one of the actors'. */
  ghost predicate Plausible(stmts: seq<Stmt>, messages: set<Message>) {
    forall i | 0 <= i < |stmts| :: Genuine(stmts[i], messages)
  }

  /** Transaction `d` went through a whole commit: its rows upserted, then enriched and drained, possibly by
      different attempts. */
  ghost predicate Committed(stmts: seq<Stmt>, d: string) {
    exists i: nat, j: nat, k: nat :: CommittedAt(stmts, d, i, j, k)
  }

  ghost predicate CommittedAt(stmts: seq<Stmt>, d: string, i: nat, j: nat, k: nat) {
    && i < j < |stmts| && i < k < |stmts|
    && stmts[i].Upsert? && d in stmts[i].ds
    && stmts[j].Enrich? && d in stmts[j].ds
    && stmts[k].DrainCommit? && d in stmts[k].ds
  }

  /** Every actor has finished: each transaction is committed, each message is recorded, and no recording is the
      last word on its transaction: a drain follows it. */
  ghost predicate Finished(stmts: seq<Stmt>, events: Events, messages: set<Message>) {
    && Plausible(stmts, messages)
    && (forall k | k in events :: Committed(stmts, k.digest))
    && (forall m | m in messages :: Record(m) in stmts)
    && (forall i | 0 <= i < |stmts| && stmts[i].Record? :: DrainsAfter(stmts, i, stmts[i].message.digest))
  }

  ghost predicate DrainsAfter(stmts: seq<Stmt>, i: nat, d: string) {
    exists j | i < j < |stmts| :: stmts[j] == DrainProof(d)
  }

  lemma AtStep(events: Events, stmts: seq<Stmt>, p: nat)
    requires 0 < p <= |stmts|
    ensures At(events, stmts, p) == Exec(At(events, stmts, p - 1), stmts[p - 1], events)
  {
  }

  lemma {:induction false} AlwaysSound(events: Events, messages: set<Message>, stmts: seq<Stmt>, p: nat)
    requires Consistent(events, messages) && Plausible(stmts, messages) && p <= |stmts|
    ensures Sound(At(events, stmts, p), events, messages)
  {
    if p == 0 {
      assert SettledKeys(At(events, stmts, 0)) == {};
    } else {
      AtStep(events, stmts, p);
      hide Sound, Consistent, At, Exec;
      AlwaysSound(events, messages, stmts, p - 1);
      ExecSound(At(events, stmts, p - 1), events, messages, stmts[p - 1]);
    }
  }

  lemma FreshDb(events: Events, stmts: seq<Stmt>)
    ensures At(events, stmts, 0) == Db(map[], map[], 0)
  {
  }

  lemma NothingIsUniform()
    ensures Uniform(Db(map[], map[], 0))
  {
  }

  lemma {:induction false} AlwaysUniform(events: Events, messages: set<Message>, stmts: seq<Stmt>, p: nat)
    requires Consistent(events, messages) && Plausible(stmts, messages) && p <= |stmts|
    ensures Uniform(At(events, stmts, p))
  {
    hide Sound, Consistent, At, Exec, Uniform;
    if p == 0 {
      FreshDb(events, stmts);
      NothingIsUniform();
    } else {
      AtStep(events, stmts, p);
      AlwaysUniform(events, messages, stmts, p - 1);
      AlwaysSound(events, messages, stmts, p - 1);
      ExecUniform(At(events, stmts, p - 1), events, messages, stmts[p - 1]);
    }
  }

  lemma {:induction false} PresentFrom(events: Events, stmts: seq<Stmt>, d: string, i: nat, p: nat)
    requires i < p <= |stmts| && stmts[i].Upsert? && d in stmts[i].ds
    ensures Present(At(events, stmts, p), events, d)
  {
    AtStep(events, stmts, p);
    if p > i + 1 {
      hide At, Exec, Present;
      PresentFrom(events, stmts, d, i, p - 1);
      ExecKeepsPresent(At(events, stmts, p - 1), events, stmts[p - 1], d);
    }
  }

  lemma {:induction false} AddressedFrom(events: Events, messages: set<Message>, stmts: seq<Stmt>, k: Key, i: nat,
                                         p: nat)
    requires Consistent(events, messages) && Plausible(stmts, messages) && i <= p <= |stmts|
    requires Addressed(At(events, stmts, i), events, k)
    ensures Addressed(At(events, stmts, p), events, k)
  {
    hide Addressed, Sound, Consistent, At, Exec;
    if p > i {
      AtStep(events, stmts, p);
      AddressedFrom(events, messages, stmts, k, i, p - 1);
      AlwaysSound(events, messages, stmts, p - 1);
      ExecKeepsAddressed(At(events, stmts, p - 1), events, messages, stmts[p - 1], k);
    }
  }

  /** An enrichment that finds both rows fills the addresses in. */
  lemma EnrichFills(db: Db, events: Events, messages: set<Message>, ds: set<string>, k: Key, o: Key)
    requires Consistent(events, messages) && Sound(db, events, messages)
    requires k in events && o in events && events[o].kind == Opened && o.tunnel == k.tunnel
    requires k in db.settlement && o in db.settlement && (k.digest in ds || o.digest in ds)
    ensures Addressed(ExecEnrich(db, TunnelsOf(events, ds)), events, k)
  {
    assert RowSound(events, messages, o, db.settlement[o]);
    OpenerAgrees(events, messages, db, o);
    EnrichRowSound(db, events, messages, k);
    assert k.tunnel in TunnelsOf(events, ds);
  }

  lemma AtEnrich(events: Events, stmts: seq<Stmt>, e: nat)
    requires e < |stmts| && stmts[e].Enrich?
    ensures At(events, stmts, e + 1) == ExecEnrich(At(events, stmts, e), TunnelsOf(events, stmts[e].ds))
  {
    AtStep(events, stmts, e + 1);
    hide At;
  }

  lemma EnrichedBoth(events: Events, messages: set<Message>, stmts: seq<Stmt>, k: Key, o: Key, i: nat, oi: nat, e: nat)
    requires Consistent(events, messages) && Plausible(stmts, messages)
    requires k in events && o in events && events[o].kind == Opened && o.tunnel == k.tunnel
    requires i < e < |stmts| && oi < e && stmts[i].Upsert? && stmts[oi].Upsert? && stmts[e].Enrich?
    requires k.digest in stmts[i].ds && o.digest in stmts[oi].ds
    requires k.digest in stmts[e].ds || o.digest in stmts[e].ds
    ensures Addressed(At(events, stmts, |stmts|), events, k)
  {
    hide At, Exec, Consistent, Sound, Addressed, ExecEnrich, TunnelsOf;
    PresentFrom(events, stmts, k.digest, i, e);
    PresentFrom(events, stmts, o.digest, oi, e);
    AlwaysSound(events, messages, stmts, e);
    AtEnrich(events, stmts, e);
    EnrichFills(At(events, stmts, e), events, messages, stmts[e].ds, k, o);
    AddressedFrom(events, messages, stmts, k, e + 1, |stmts|);
  }

  lemma FullyAddressed(events: Events, messages: set<Message>, stmts: seq<Stmt>, k: Key)
    requires Consistent(events, messages) && Finished(stmts, events, messages) && k in events
    ensures Addressed(At(events, stmts, |stmts|), events, k)
  {
    hide At, Exec;
    assert Committed(stmts, k.digest);
    var i: nat, j: nat, l: nat :| CommittedAt(stmts, k.digest, i, j, l);
    var n := |stmts|;
    PresentFrom(events, stmts, k.digest, i, n);
    AlwaysSound(events, messages, stmts, n);
    assert RowSound(events, messages, k, At(events, stmts, n).settlement[k]);
    if events[k].kind == Settled && OpenerOf(events, k.tunnel).Some? {
      var o := OpenerOf(events, k.tunnel).value;
      assert Committed(stmts, o.digest);
      var oi: nat, oj: nat, ol: nat :| CommittedAt(stmts, o.digest, oi, oj, ol);
      hide Finished, RowSound, Sound;
      EnrichedBoth(events, messages, stmts, k, o, i, oi, if i < oi then oj else j);
    }
  }

  lemma {:induction false} KeptFrom(events: Events, messages: set<Message>, stmts: seq<Stmt>, m: Message, c: Column,
                                    i: nat, p: nat)
    requires Consistent(events, messages) && Plausible(stmts, messages) && i < p <= |stmts|
    requires stmts[i] == Record(m) && InProof(m.proof, c).Some?
    ensures Kept(At(events, stmts, p), events, m.digest, c)
  {
    hide Sound, Consistent, Kept, At, ExecRecord, ExecDrain, ExecUpsert, ExecEnrich;
    AtStep(events, stmts, p);
    AlwaysSound(events, messages, stmts, p - 1);
    if p == i + 1 {
      RecordKeeps(At(events, stmts, i), events, m, m.digest, c);
    } else {
      KeptFrom(events, messages, stmts, m, c, i, p - 1);
      ExecKeepsKept(At(events, stmts, p - 1), events, messages, stmts[p - 1], m.digest, c);
    }
  }

  lemma {:induction false} LinkedFrom(events: Events, stmts: seq<Stmt>, d: string, c: Column, i: nat, p: nat)
    requires i <= p <= |stmts| && Linked(At(events, stmts, i), events, d, c)
    ensures Linked(At(events, stmts, p), events, d, c)
  {
    hide Linked, At, Exec;
    if p > i {
      AtStep(events, stmts, p);
      LinkedFrom(events, stmts, d, c, i, p - 1);
      ExecKeepsLinked(At(events, stmts, p - 1), events, stmts[p - 1], d, c);
    }
  }

  /** A link that a row has, it keeps. */
  lemma {:induction false} LinkFrom(events: Events, stmts: seq<Stmt>, k: Key, c: Column, i: nat, p: nat)
    requires i <= p <= |stmts| && k in At(events, stmts, i).settlement
        && InRow(At(events, stmts, i).settlement[k], c).Some?
    ensures k in At(events, stmts, p).settlement
    ensures InRow(At(events, stmts, p).settlement[k], c) == InRow(At(events, stmts, i).settlement[k], c)
  {
    hide At, Exec, InRow;
    if p > i {
      AtStep(events, stmts, p);
      LinkFrom(events, stmts, k, c, i, p - 1);
      ExecKeepsLink(At(events, stmts, p - 1), events, stmts[p - 1], k, c);
    }
  }

  /** Statement `q` drains transaction `d`. */
  ghost predicate Drains(stmt: Stmt, events: Events, d: string) {
    || stmt == DrainProof(d)
    || (stmt.DrainCommit? && d in SettledDigests(events, stmt.ds))
  }

  /** After any recording of a link for a transaction with rows comes a drain that finds the rows. */
  lemma EffectiveDrain(events: Events, messages: set<Message>, stmts: seq<Stmt>, i: nat) returns (q: nat)
    requires Consistent(events, messages) && LinksSettlements(events, messages) && Finished(stmts, events, messages)
    requires i < |stmts| && stmts[i].Record? && HasRows(events, stmts[i].message.digest)
    ensures i < q < |stmts| && Drains(stmts[q], events, stmts[i].message.digest)
    ensures Present(At(events, stmts, q), events, stmts[i].message.digest)
  {
    hide At, Exec;
    var d := stmts[i].message.digest;
    assert Genuine(stmts[i], messages) && HasSettledRow(events, d);
    var k :| k in events && k.digest == d && events[k].kind == Settled;
    assert Committed(stmts, d);
    var ci: nat, cj: nat, ck: nat :| CommittedAt(stmts, d, ci, cj, ck);
    assert DrainsAfter(stmts, i, d);
    var j :| i < j < |stmts| && stmts[j] == DrainProof(d);
    q := if ci < j then j else ck;
    PresentFrom(events, stmts, d, ci, q);
    assert d in SettledDigests(events, stmts[ck].ds);
  }

  lemma DrainStepLinks(events: Events, stmts: seq<Stmt>, q: nat, d: string, c: Column)
    requires q < |stmts| && Drains(stmts[q], events, d) && HasRows(events, d)
    requires Present(At(events, stmts, q), events, d) && Kept(At(events, stmts, q), events, d, c)
    ensures Linked(At(events, stmts, q + 1), events, d, c)
  {
    AtStep(events, stmts, q + 1);
    hide At, Kept, Linked, Present, ExecDrain;
    var db := At(events, stmts, q);
    if stmts[q].DrainProof? {
      DrainLinks(db, events, {d}, d, c);
    } else {
      DrainLinks(db, events, SettledDigests(events, stmts[q].ds), d, c);
    }
  }

  /** Every row of a settling transaction ends with a link, if one was published for the transaction. */
  lemma FullyLinked(events: Events, messages: set<Message>, stmts: seq<Stmt>, d: string, c: Column)
    requires Consistent(events, messages) && LinksSettlements(events, messages) && Finished(stmts, events, messages)
    requires HasRows(events, d) && HasLink(messages, d, c)
    ensures Linked(At(events, stmts, |stmts|), events, d, c)
  {
    hide At, Exec, Consistent;
    var m :| m in messages && m.digest == d && InProof(m.proof, c).Some?;
    var i :| 0 <= i < |stmts| && stmts[i] == Record(m);
    var q := EffectiveDrain(events, messages, stmts, i);
    KeptFrom(events, messages, stmts, m, c, i, q);
    hide Finished, Kept, Linked, Present;
    DrainStepLinks(events, stmts, q, d, c);
    LinkedFrom(events, stmts, d, c, q + 1, |stmts|);
  }

  /** A waiting link was recorded, and no drain has found its rows since. */
  ghost predicate WaitsSince(events: Events, stmts: seq<Stmt>, d: string, i: nat, p: nat) {
    && i < p <= |stmts| && stmts[i].Record? && stmts[i].message.digest == d
    && forall q | i < q < p && Drains(stmts[q], events, d) ::
        !exists k :: k in At(events, stmts, q).settlement && k.digest == d
  }

  lemma {:induction false} WaitingHasReason(events: Events, stmts: seq<Stmt>, d: string, p: nat) returns (i: nat)
    requires p <= |stmts| && d in At(events, stmts, p).pending
    ensures WaitsSince(events, stmts, d, i, p)
  {
    var stmt := stmts[p - 1];
    if stmt.Record? && stmt.message.digest == d {
      i := p - 1;
    } else {
      i := WaitingHasReason(events, stmts, d, p - 1);
    }
  }

  lemma NothingWaits(events: Events, messages: set<Message>, stmts: seq<Stmt>, d: string)
    requires Consistent(events, messages) && LinksSettlements(events, messages) && Finished(stmts, events, messages)
        && HasRows(events, d)
    ensures d !in At(events, stmts, |stmts|).pending
  {
    hide At, Exec, Consistent, Finished;
    if d in At(events, stmts, |stmts|).pending {
      var i := WaitingHasReason(events, stmts, d, |stmts|);
      var q := EffectiveDrain(events, messages, stmts, i);
      assert false;
    }
  }

  /** The links for a transaction without rows wait, one of those published in each column. */
  lemma UnmatchedWaits(events: Events, messages: set<Message>, stmts: seq<Stmt>, m: Message, c: Column)
    requires Consistent(events, messages) && Finished(stmts, events, messages) && m in messages
        && !HasRows(events, m.digest)
    ensures var db := At(events, stmts, |stmts|);
      && m.digest in db.pending && ProofSound(messages, m.digest, db.pending[m.digest])
      && (InProof(db.pending[m.digest], c).Some? <==> HasLink(messages, m.digest, c))
  {
    hide At, Exec, Consistent;
    var n := |stmts|;
    var d := m.digest;
    var i :| 0 <= i < n && stmts[i] == Record(m);
    StillWaiting(events, messages, stmts, m, i, n);
    AlwaysSound(events, messages, stmts, n);
    assert ProofSound(messages, d, At(events, stmts, n).pending[d]);
    if HasLink(messages, d, c) {
      var m' :| m' in messages && m'.digest == d && InProof(m'.proof, c).Some?;
      var i' :| 0 <= i' < n && stmts[i'] == Record(m');
      KeptFrom(events, messages, stmts, m', c, i', n);
    }
  }

  lemma ExecKeepsWaiting(db: Db, events: Events, messages: set<Message>, stmt: Stmt, d: string)
    requires Sound(db, events, messages) && d in db.pending && !HasRows(events, d)
    ensures d in Exec(db, stmt, events).pending
  {
    forall k | k in db.settlement ensures k.digest != d {
      assert RowSound(events, messages, k, db.settlement[k]);
    }
    hide Sound, RowSound;
  }

  lemma {:induction false} StillWaiting(events: Events, messages: set<Message>, stmts: seq<Stmt>, m: Message, i: nat,
                                        p: nat)
    requires Consistent(events, messages) && Plausible(stmts, messages) && i < p <= |stmts| && stmts[i] == Record(m)
    requires !HasRows(events, m.digest)
    ensures m.digest in At(events, stmts, p).pending
  {
    hide At, Consistent, ExecUpsert, ExecEnrich;
    AtStep(events, stmts, p);
    if p > i + 1 {
      StillWaiting(events, messages, stmts, m, i, p - 1);
      AlwaysSound(events, messages, stmts, p - 1);
      ExecKeepsWaiting(At(events, stmts, p - 1), events, messages, stmts[p - 1], m.digest);
    }
  }

  // ---------------------------------------------------------------------------------------------
  // How every finished run ends

  /** The row has everything it should: its event's facts, its tunnel's addresses, and a published link in each column
      that has one. */
  ghost predicate RowComplete(events: Events, messages: set<Message>, k: Key, r: Row) {
    && RowSound(events, messages, k, r) && (r.partyA, r.partyB) == AddressesOf(events, k)
    && forall c: Column :: InRow(r, c).Some? <==> HasLink(messages, k.digest, c)
  }

  /** The database has exactly the rows of the events, each complete, all rows of a transaction with the same links; the
      links of transactions without rows wait; and the counter counts the settled rows. */
  ghost predicate Complete(db: Db, events: Events, messages: set<Message>) {
    && db.settlement.Keys == events.Keys
    && (forall k | k in events :: RowComplete(events, messages, k, db.settlement[k]))
    && Uniform(db)
    && (forall d :: d in db.pending <==> !HasRows(events, d) && exists m :: m in messages && m.digest == d)
    && (forall d | d in db.pending :: ProofComplete(messages, d, db.pending[d]))
    && db.settledCount == |SettledKeys(db)|
  }

  ghost predicate ProofComplete(messages: set<Message>, d: string, p: Proof) {
    ProofSound(messages, d, p) && forall c: Column :: InProof(p, c).Some? <==> HasLink(messages, d, c)
  }

  lemma PublishedHasLink(messages: set<Message>, d: string, c: Column, link: string)
    requires Published(messages, d, c, link)
    ensures HasLink(messages, d, c)
  {
  }

  lemma FinalRow(events: Events, messages: set<Message>, stmts: seq<Stmt>, k: Key)
    requires Consistent(events, messages) && LinksSettlements(events, messages) && Finished(stmts, events, messages)
    requires k in events
    ensures k in At(events, stmts, |stmts|).settlement
    ensures RowComplete(events, messages, k, At(events, stmts, |stmts|).settlement[k])
  {
    hide At, Exec;
    var db := At(events, stmts, |stmts|);
    FullyAddressed(events, messages, stmts, k);
    AlwaysSound(events, messages, stmts, |stmts|);
    assert RowSound(events, messages, k, db.settlement[k]);
    hide Sound, Finished, Consistent;
    forall c: Column ensures InRow(db.settlement[k], c).Some? <==> HasLink(messages, k.digest, c) {
      if HasLink(messages, k.digest, c) {
        FullyLinked(events, messages, stmts, k.digest, c);
      }
      if InRow(db.settlement[k], c).Some? {
        PublishedHasLink(messages, k.digest, c, InRow(db.settlement[k], c).value);
      }
    }
  }

  lemma FinalPending(events: Events, messages: set<Message>, stmts: seq<Stmt>, d: string)
    requires Consistent(events, messages) && LinksSettlements(events, messages) && Finished(stmts, events, messages)
    ensures var pending := At(events, stmts, |stmts|).pending;
      && (d in pending <==> !HasRows(events, d) && exists m :: m in messages && m.digest == d)
      && (d in pending ==> ProofComplete(messages, d, pending[d]))
  {
    assert Plausible(stmts, messages);
    hide At, Exec, Consistent, Finished, RowSound, HasRows;
    var db := At(events, stmts, |stmts|);
    AlwaysSound(events, messages, stmts, |stmts|);
    assert d in db.pending ==> ProofSound(messages, d, db.pending[d]);
    hide Sound;
    if HasRows(events, d) {
      NothingWaits(events, messages, stmts, d);
    } else if m :| m in messages && m.digest == d {
      forall c: Column
        ensures d in db.pending && ProofSound(messages, d, db.pending[d])
        ensures InProof(db.pending[d], c).Some? <==> HasLink(messages, d, c)
      {
        UnmatchedWaits(events, messages, stmts, m, c);
      }
      UnmatchedWaits(events, messages, stmts, m, Url);
    }
  }

  lemma FinalKeys(events: Events, messages: set<Message>, stmts: seq<Stmt>)
    requires Consistent(events, messages) && LinksSettlements(events, messages) && Finished(stmts, events, messages)
    ensures At(events, stmts, |stmts|).settlement.Keys == events.Keys
  {
    assert Plausible(stmts, messages);
    hide At, Exec, Consistent, Finished, RowComplete;
    var db := At(events, stmts, |stmts|);
    AlwaysSound(events, messages, stmts, |stmts|);
    forall k: Key
      ensures k in db.settlement <==> k in events
    {
      assert k in db.settlement ==> RowSound(events, messages, k, db.settlement[k]);
      if k in events {
        FinalRow(events, messages, stmts, k);
      }
    }
  }

  /** How every finished run ends, whatever links were published: with the database complete. */
  lemma FinalTable(events: Events, messages: set<Message>, stmts: seq<Stmt>)
    requires Consistent(events, messages) && LinksSettlements(events, messages) && Finished(stmts, events, messages)
    ensures Complete(At(events, stmts, |stmts|), events, messages)
  {
    assert Plausible(stmts, messages);
    hide At, Consistent, Finished, RowComplete, ProofComplete, Uniform, SettledKeys;
    var db := At(events, stmts, |stmts|);
    FinalKeys(events, messages, stmts);
    forall k | k in events
      ensures RowComplete(events, messages, k, db.settlement[k])
    {
      FinalRow(events, messages, stmts, k);
    }
    AlwaysUniform(events, messages, stmts, |stmts|);
    forall d: string
      ensures d in db.pending <==> !HasRows(events, d) && exists m :: m in messages && m.digest == d
      ensures d in db.pending ==> ProofComplete(messages, d, db.pending[d])
    {
      FinalPending(events, messages, stmts, d);
    }
    AlwaysSound(events, messages, stmts, |stmts|);
    hide RowSound, ProofSound, HasRows;
  }

  /** All rows of a transaction end with the same links. So of the tunnels of one batch for which different links were
      published at most one shows its own: `proofs` says what was published for which row. */
  lemma AtMostOneOwnProof(events: Events, messages: set<Message>, stmts: seq<Stmt>, p: nat, proofs: map<Key, Proof>,
                          k: Key, l: Key, c: Column)
    requires Consistent(events, messages) && Plausible(stmts, messages) && p <= |stmts|
    requires k in proofs && l in proofs && k.digest == l.digest && InProof(proofs[k], c) != InProof(proofs[l], c)
    requires k in At(events, stmts, p).settlement && l in At(events, stmts, p).settlement
    ensures var table := At(events, stmts, p).settlement;
      !(InRow(table[k], c) == InProof(proofs[k], c) && InRow(table[l], c) == InProof(proofs[l], c))
  {
    hide At, Consistent, InRow, InProof;
    AlwaysUniform(events, messages, stmts, p);
  }

  // ---------------------------------------------------------------------------------------------
  // Agreeing links

  lemma PublishedAgrees(messages: set<Message>, d: string, c: Column, link: string)
    requires Agreeing(messages) && Published(messages, d, c, link)
    ensures LinkOf(messages, d, c) == Some(link)
  {
  }

  lemma NoLink(messages: set<Message>, d: string, c: Column)
    ensures LinkOf(messages, d, c).Some? ==> HasLink(messages, d, c)
  {
    if LinkOf(messages, d, c).Some? {
      var m :| m in messages && m.digest == d && InProof(m.proof, c).Some?;
    }
  }

  lemma AgreedRow(events: Events, messages: set<Message>, k: Key, r: Row)
    requires Agreeing(messages) && RowComplete(events, messages, k, r)
    ensures r == DeclaredRow(events, messages, k)
  {
    hide Agreeing, HasLink, Published, UrlOf, BlobOf, AddressesOf;
    forall c: Column
      ensures InRow(r, c) == LinkOf(messages, k.digest, c)
    {
      NoLink(messages, k.digest, c);
      if InRow(r, c).Some? {
        PublishedAgrees(messages, k.digest, c, InRow(r, c).value);
      }
    }
    assert InRow(r, Url) == UrlOf(messages, k.digest) && InRow(r, Blob) == BlobOf(messages, k.digest);
  }

  lemma AgreedProof(messages: set<Message>, d: string, p: Proof)
    requires Agreeing(messages) && ProofComplete(messages, d, p)
    ensures p == Proof(UrlOf(messages, d), BlobOf(messages, d))
  {
    hide Agreeing, HasLink, Published, UrlOf, BlobOf;
    forall c: Column
      ensures InProof(p, c) == LinkOf(messages, d, c)
    {
      NoLink(messages, d, c);
      if InProof(p, c).Some? {
        PublishedAgrees(messages, d, c, InProof(p, c).value);
      }
    }
    assert InProof(p, Url) == UrlOf(messages, d) && InProof(p, Blob) == BlobOf(messages, d);
  }

  lemma CompleteIsDeclared(db: Db, events: Events, messages: set<Message>)
    requires Agreeing(messages) && Complete(db, events, messages)
    ensures db == Declared(events, messages)
  {
    hide Agreeing, RowComplete, ProofComplete, DeclaredRow, UrlOf, BlobOf, HasRows, Uniform;
    var goal := Declared(events, messages);
    forall k | k in events
      ensures db.settlement[k] == DeclaredRow(events, messages, k) && db.settlement[k].kind == events[k].kind
    {
      AgreedRow(events, messages, k, db.settlement[k]);
      KindOfComplete(events, messages, k, db.settlement[k]);
    }
    assert db.settlement == goal.settlement;
    forall d | d in db.pending
      ensures db.pending[d] == Proof(UrlOf(messages, d), BlobOf(messages, d))
    {
      AgreedProof(messages, d, db.pending[d]);
    }
    assert db.pending == goal.pending;
    assert SettledKeys(db) == set k | k in events && events[k].kind == Settled;
  }

  lemma KindOfComplete(events: Events, messages: set<Message>, k: Key, r: Row)
    requires RowComplete(events, messages, k, r)
    ensures r.kind == events[k].kind
  {
  }

  /** Confluence: once every actor has finished, the database is the declared one, whatever the order in which
      commits of any grouping, repeated and abandoned attempts, and proof messages were interleaved. */
  lemma Converges(events: Events, messages: set<Message>, stmts: seq<Stmt>)
    requires Consistent(events, messages) && LinksSettlements(events, messages) && Agreeing(messages)
    requires Finished(stmts, events, messages)
    ensures At(events, stmts, |stmts|) == Declared(events, messages)
  {
    hide At, Consistent, Finished, Declared, LinksSettlements, Agreeing, Complete;
    FinalTable(events, messages, stmts);
    CompleteIsDeclared(At(events, stmts, |stmts|), events, messages);
  }

  // ---------------------------------------------------------------------------------------------
  // The condition is exact

  /** Handle the messages one after the other, in some order. */
  ghost function Subscribe(messages: set<Message>): seq<Stmt> {
    if messages == {} then []
    else
      var m :| m in messages;
      [Record(m), DrainProof(m.digest)] + Subscribe(messages - {m})
  }

  /** Commit every transaction in one batch. */
  function CommitAll(events: Events): seq<Stmt> {
    var ds := set k | k in events :: k.digest;
    [Upsert(ds), Enrich(ds), DrainCommit(ds)]
  }

  lemma {:induction false} SubscribeShape(messages: set<Message>, i: nat)
    requires i < |Subscribe(messages)|
    ensures var stmts := Subscribe(messages);
      && (stmts[i].Record? || stmts[i].DrainProof?)
      && (stmts[i].Record? ==>
            stmts[i].message in messages && i + 1 < |stmts| && stmts[i + 1] == DrainProof(stmts[i].message.digest))
  {
    var m :| m in messages && Subscribe(messages) == [Record(m), DrainProof(m.digest)] + Subscribe(messages - {m});
    if i >= 2 {
      SubscribeShape(messages - {m}, i - 2);
    }
  }

  lemma {:induction false} SubscribeHandles(messages: set<Message>, n: Message)
    requires n in messages
    ensures Record(n) in Subscribe(messages)
  {
    var m :| m in messages && Subscribe(messages) == [Record(m), DrainProof(m.digest)] + Subscribe(messages - {m});
    if n == m {
      assert Subscribe(messages)[0] == Record(m);
    } else {
      SubscribeHandles(messages - {m}, n);
    }
  }

  lemma CommitAllCommits(events: Events, before: seq<Stmt>, after: seq<Stmt>, k: Key)
    requires k in events
    ensures Committed(before + CommitAll(events) + after, k.digest)
  {
    var stmts, n := before + CommitAll(events) + after, |before|;
    assert stmts[n] == CommitAll(events)[0] && stmts[n + 1] == CommitAll(events)[1]
        && stmts[n + 2] == CommitAll(events)[2];
    assert CommittedAt(stmts, k.digest, n, n + 1, n + 2);
  }

  lemma ProofsFirst(events: Events, messages: set<Message>)
    ensures Finished(Subscribe(messages) + CommitAll(events), events, messages)
  {
    var subs := Subscribe(messages);
    var stmts := subs + CommitAll(events);
    forall k | k in events ensures Committed(stmts, k.digest) {
      CommitAllCommits(events, subs, [], k);
      assert stmts == subs + CommitAll(events) + [];
    }
    forall m | m in messages ensures Record(m) in stmts {
      SubscribeHandles(messages, m);
    }
    forall i: nat | i < |stmts| && stmts[i].Record?
      ensures stmts[i].message in messages && DrainsAfter(stmts, i, stmts[i].message.digest)
    {
      SubscribeShape(messages, i);
      assert stmts[i + 1] == subs[i + 1];
    }
    hide Committed, DrainsAfter;
  }

  lemma CommitsFirst(events: Events, messages: set<Message>)
    ensures Finished(CommitAll(events) + Subscribe(messages), events, messages)
  {
    var subs := Subscribe(messages);
    var stmts := CommitAll(events) + subs;
    forall k | k in events ensures Committed(stmts, k.digest) {
      CommitAllCommits(events, [], subs, k);
      assert stmts == [] + CommitAll(events) + subs;
    }
    forall m | m in messages ensures Record(m) in stmts {
      SubscribeHandles(messages, m);
    }
    forall i: nat | i < |stmts| && stmts[i].Record?
      ensures stmts[i].message in messages && DrainsAfter(stmts, i, stmts[i].message.digest)
    {
      SubscribeShape(messages, i - 3);
      assert stmts[i + 1] == subs[i - 2];
    }
    hide Committed, DrainsAfter;
  }

  lemma {:induction false} NothingInserted(events: Events, stmts: seq<Stmt>, p: nat)
    requires p <= |stmts| && forall i | 0 <= i < p :: !stmts[i].Upsert?
    ensures At(events, stmts, p).settlement == map[]
  {
    if p > 0 {
      NothingInserted(events, stmts, p - 1);
      assert At(events, stmts, p).settlement.Keys == {};
    }
  }

  /** A commit that finds the table empty leaves a row of a transaction that settles nothing without links. */
  lemma CommitMisses(events: Events, db: Db, ds: set<string>, k: Key, c: Column)
    requires k in events && k.digest in ds && !HasSettledRow(events, k.digest) && db.settlement == map[]
    ensures var one := ExecUpsert(db, RowsOf(events, ds));
      var two := ExecEnrich(one, TunnelsOf(events, ds));
      var three := ExecDrain(two, SettledDigests(events, ds));
      k in three.settlement && InRow(three.settlement[k], c).None?
  {
    var one := ExecUpsert(db, RowsOf(events, ds));
    assert k in one.settlement && InRow(one.settlement[k], c).None?;
    hide ExecUpsert, UpsertRow;
    var two := ExecEnrich(one, TunnelsOf(events, ds));
    assert k in two.settlement && InRow(two.settlement[k], c).None?;
    hide ExecEnrich, EnrichRow, OpenerIn;
    assert k.digest !in SettledDigests(events, ds);
  }

  /** With the proofs handled first, such a row never gets its link. */
  lemma ProofsFirstMisses(events: Events, messages: set<Message>, k: Key, c: Column)
    requires k in events && !HasSettledRow(events, k.digest)
    ensures var stmts := Subscribe(messages) + CommitAll(events);
      var db := At(events, stmts, |stmts|);
      k in db.settlement && InRow(db.settlement[k], c).None?
  {
    hide At, Subscribe, ExecUpsert, ExecEnrich, ExecDrain;
    var subs := Subscribe(messages);
    var stmts, n := subs + CommitAll(events), |subs|;
    forall i: nat | i < n ensures !stmts[i].Upsert? {
      SubscribeShape(messages, i);
    }
    NothingInserted(events, stmts, n);
    AtStep(events, stmts, n + 1);
    AtStep(events, stmts, n + 2);
    AtStep(events, stmts, n + 3);
    CommitMisses(events, At(events, stmts, n), stmts[n].ds, k, c);
  }

  /** With the commits first, it does. */
  lemma CommitsFirstLinks(events: Events, messages: set<Message>, m: Message, c: Column)
    requires Consistent(events, messages) && m in messages && HasRows(events, m.digest) && InProof(m.proof, c).Some?
    ensures var stmts := CommitAll(events) + Subscribe(messages);
      Linked(At(events, stmts, |stmts|), events, m.digest, c)
  {
    var subs := Subscribe(messages);
    var stmts := CommitAll(events) + subs;
    CommitsFirst(events, messages);
    SubscribeHandles(messages, m);
    var i: nat :| i < |subs| && subs[i] == Record(m);
    SubscribeShape(messages, i);
    assert stmts[i + 3] == Record(m) && stmts[i + 4] == DrainProof(m.digest);
    assert stmts[0].Upsert? && m.digest in stmts[0].ds;
    assert Plausible(stmts, messages);
    hide At, Exec, Consistent, Finished, Subscribe, CommitAll, Kept, Linked, Present;
    PresentFrom(events, stmts, m.digest, 0, i + 4);
    KeptFrom(events, messages, stmts, m, c, i + 3, i + 4);
    DrainStepLinks(events, stmts, i + 4, m.digest, c);
    LinkedFrom(events, stmts, m.digest, c, i + 5, |stmts|);
  }

  /** All finished runs end in the same database. */
  ghost predicate Confluent(events: Events, messages: set<Message>) {
    forall one: seq<Stmt>, two: seq<Stmt> | Finished(one, events, messages) && Finished(two, events, messages) ::
      At(events, one, |one|) == At(events, two, |two|)
  }

  /** A link for a transaction whose rows settle nothing ends differently in two orders. */
  lemma OrderMatters(events: Events, messages: set<Message>, m: Message)
    requires Consistent(events, messages) && m in messages && HasRows(events, m.digest)
        && !HasSettledRow(events, m.digest)
    ensures !Confluent(events, messages)
  {
    hide At, Finished, Subscribe, CommitAll;
    var k :| k in events && k.digest == m.digest;
    var c := if m.proof.proofUrl.Some? then Url else Blob;
    assert InProof(m.proof, c).Some?;
    var one, two := Subscribe(messages) + CommitAll(events), CommitAll(events) + Subscribe(messages);
    ProofsFirst(events, messages);
    CommitsFirst(events, messages);
    ProofsFirstMisses(events, messages, k, c);
    CommitsFirstLinks(events, messages, m, c);
    hide Consistent, InRow, InProof;
    assert At(events, one, |one|) != At(events, two, |two|);
  }

  // ---------------------------------------------------------------------------------------------
  // Contradicting links

  /** One more message handled, in a run that has handled all. */
  function Handle(m: Message): seq<Stmt> {
    [Record(m), DrainProof(m.digest)]
  }

  /** Commit, handle `m`, then all messages; or all messages, then commit, then handle `m` again. */
  ghost function First(events: Events, messages: set<Message>, m: Message): seq<Stmt> {
    CommitAll(events) + Handle(m) + Subscribe(messages)
  }

  ghost function Last(events: Events, messages: set<Message>, m: Message): seq<Stmt> {
    Subscribe(messages) + CommitAll(events) + Handle(m)
  }

  lemma FirstFinished(events: Events, messages: set<Message>, m: Message)
    requires m in messages
    ensures Finished(First(events, messages, m), events, messages)
  {
    var subs, before := Subscribe(messages), CommitAll(events) + Handle(m);
    var stmts := First(events, messages, m);
    forall k | k in events ensures Committed(stmts, k.digest) {
      CommitAllCommits(events, [], Handle(m) + subs, k);
      assert stmts == [] + CommitAll(events) + (Handle(m) + subs);
    }
    forall n | n in messages ensures Record(n) in stmts {
      SubscribeHandles(messages, n);
    }
    forall i: nat | i < |stmts| && stmts[i].Record?
      ensures stmts[i].message in messages && DrainsAfter(stmts, i, stmts[i].message.digest)
    {
      if i < |before| {
        assert i == 3 && stmts[4] == DrainProof(m.digest);
      } else {
        SubscribeShape(messages, i - |before|);
        assert stmts[i + 1] == subs[i + 1 - |before|];
      }
    }
    hide Committed, DrainsAfter;
  }

  lemma LastFinished(events: Events, messages: set<Message>, m: Message)
    requires m in messages
    ensures Finished(Last(events, messages, m), events, messages)
  {
    var subs, before := Subscribe(messages), Subscribe(messages) + CommitAll(events);
    var stmts, n := Last(events, messages, m), |subs|;
    forall k | k in events ensures Committed(stmts, k.digest) {
      CommitAllCommits(events, subs, Handle(m), k);
    }
    forall o | o in messages ensures Record(o) in stmts {
      SubscribeHandles(messages, o);
    }
    forall i: nat | i < |stmts| && stmts[i].Record?
      ensures stmts[i].message in messages && DrainsAfter(stmts, i, stmts[i].message.digest)
    {
      if i < n {
        SubscribeShape(messages, i);
        assert stmts[i + 1] == subs[i + 1];
      } else {
        assert i == n + 3 && stmts[n + 4] == DrainProof(m.digest);
      }
    }
    hide Committed, DrainsAfter;
  }

  /** On rows the first link drained stays. */
  lemma FirstWins(events: Events, messages: set<Message>, m: Message, k: Key, c: Column)
    requires k in events && k.digest == m.digest && InProof(m.proof, c).Some?
    ensures var stmts := First(events, messages, m);
      var table := At(events, stmts, |stmts|).settlement;
      k in table && InRow(table[k], c) == InProof(m.proof, c)
  {
    var stmts := First(events, messages, m);
    var ds := set j | j in events :: j.digest;
    assert stmts[0] == Upsert(ds) && stmts[1] == Enrich(ds) && stmts[2] == DrainCommit(ds);
    assert stmts[3] == Record(m) && stmts[4] == DrainProof(m.digest);
    assert |stmts| >= 5;
    hide First, ExecDrain, ExecRecord, At, Bare, InRow, InProof;
    CommittedBare(events, stmts, ds, k, c);
    AtStep(events, stmts, 4);
    AtStep(events, stmts, 5);
    HandledFresh(At(events, stmts, 3), m, k, c);
    LinkFrom(events, stmts, k, c, 5, |stmts|);
  }

  lemma CommittedBare(events: Events, stmts: seq<Stmt>, ds: set<string>, k: Key, c: Column)
    requires k in events && k.digest in ds && |stmts| >= 3
    requires stmts[0] == Upsert(ds) && stmts[1] == Enrich(ds) && stmts[2] == DrainCommit(ds)
    ensures Bare(At(events, stmts, 3), k, c)
  {
    hide ExecUpsert, ExecEnrich, ExecDrain, At, Bare, RowsOf, TunnelsOf, SettledDigests;
    FreshDb(events, stmts);
    AtStep(events, stmts, 1);
    AtStep(events, stmts, 2);
    AtStep(events, stmts, 3);
    FreshRow(events, ds, k, c);
  }

  /** A first commit leaves rows without links, and nothing waiting. */
  lemma FreshRow(events: Events, ds: set<string>, k: Key, c: Column)
    requires k in events && k.digest in ds
    ensures var one := ExecUpsert(Db(map[], map[], 0), RowsOf(events, ds));
      var two := ExecEnrich(one, TunnelsOf(events, ds));
      var three := ExecDrain(two, SettledDigests(events, ds));
      Bare(three, k, c)
  {
    hide ExecUpsert, ExecEnrich, ExecDrain, RowsOf, TunnelsOf, SettledDigests, InRow;
    var one := ExecUpsert(Db(map[], map[], 0), RowsOf(events, ds));
    InsertedBare(events, ds, k, c);
    var two := ExecEnrich(one, TunnelsOf(events, ds));
    EnrichedBare(one, TunnelsOf(events, ds), k, c);
    DrainedBare(two, SettledDigests(events, ds), k, c);
  }

  /** A row without a link, and nothing waiting. */
  ghost predicate Bare(db: Db, k: Key, c: Column) {
    k in db.settlement && InRow(db.settlement[k], c).None? && db.pending == map[]
  }

  lemma InsertedBare(events: Events, ds: set<string>, k: Key, c: Column)
    requires k in events && k.digest in ds
    ensures Bare(ExecUpsert(Db(map[], map[], 0), RowsOf(events, ds)), k, c)
  {
    assert k in RowsOf(events, ds);
  }

  lemma EnrichedBare(db: Db, tunnels: set<string>, k: Key, c: Column)
    requires Bare(db, k, c)
    ensures Bare(ExecEnrich(db, tunnels), k, c)
  {
    hide OpenerIn;
  }

  lemma DrainedBare(db: Db, digests: set<string>, k: Key, c: Column)
    requires Bare(db, k, c)
    ensures Bare(ExecDrain(db, digests), k, c)
  {
  }

  lemma HandledFresh(db: Db, m: Message, k: Key, c: Column)
    requires Bare(db, k, c) && k.digest == m.digest
    ensures var after := ExecDrain(ExecRecord(db, m), {m.digest});
      k in after.settlement && InRow(after.settlement[k], c) == InProof(m.proof, c)
  {
    var recorded := ExecRecord(db, m);
    assert recorded.pending[m.digest] == m.proof;
  }

  /** Without rows the last link recorded stays. */
  lemma LastWins(events: Events, messages: set<Message>, m: Message, c: Column)
    requires Consistent(events, messages) && m in messages && !HasRows(events, m.digest) && InProof(m.proof, c).Some?
    ensures var stmts := Last(events, messages, m);
      var pending := At(events, stmts, |stmts|).pending;
      m.digest in pending && InProof(pending[m.digest], c) == InProof(m.proof, c)
  {
    var stmts := Last(events, messages, m);
    var n := |stmts| - 2;
    assert stmts[n] == Record(m) && stmts[n + 1] == DrainProof(m.digest);
    LastFinished(events, messages, m);
    assert Plausible(stmts, messages);
    hide At, Last, Finished;
    AtStep(events, stmts, n + 1);
    AtStep(events, stmts, n + 2);
    AlwaysSound(events, messages, stmts, n);
    RecordedWaits(At(events, stmts, n), events, messages, m, c);
  }

  lemma RecordedWaits(db: Db, events: Events, messages: set<Message>, m: Message, c: Column)
    requires Sound(db, events, messages) && !HasRows(events, m.digest) && InProof(m.proof, c).Some?
    ensures var pending := ExecDrain(ExecRecord(db, m), {m.digest}).pending;
      m.digest in pending && InProof(pending[m.digest], c) == InProof(m.proof, c)
  {
    forall k | k in db.settlement ensures k.digest != m.digest {
      assert RowSound(events, messages, k, db.settlement[k]);
    }
    hide Sound, RowSound;
  }

  /** Two links that contradict each other for one transaction: on its rows the first drained stays, and without rows
      the last recorded, so the outcome depends on the order either way. */
  lemma DisagreementMatters(events: Events, messages: set<Message>, m: Message, n: Message, c: Column)
    requires Consistent(events, messages) && m in messages && n in messages && m.digest == n.digest
    requires InProof(m.proof, c).Some? && InProof(n.proof, c).Some? && InProof(m.proof, c) != InProof(n.proof, c)
    ensures !Confluent(events, messages)
  {
    hide At, Finished, First, Last, Consistent, InRow, InProof;
    if HasRows(events, m.digest) {
      var k :| k in events && k.digest == m.digest;
      var one, two := First(events, messages, m), First(events, messages, n);
      FirstFinished(events, messages, m);
      FirstFinished(events, messages, n);
      FirstWins(events, messages, m, k, c);
      FirstWins(events, messages, n, k, c);
      assert At(events, one, |one|) != At(events, two, |two|);
    } else {
      var one, two := Last(events, messages, m), Last(events, messages, n);
      LastFinished(events, messages, m);
      LastFinished(events, messages, n);
      LastWins(events, messages, m, c);
      LastWins(events, messages, n, c);
      assert At(events, one, |one|) != At(events, two, |two|);
    }
  }

  /** The read-model is independent of the order of events and messages exactly when no link is published for a
      transaction whose indexed rows settle nothing, and no two links for one transaction contradict each other. */
  lemma ConfluentExactly(events: Events, messages: set<Message>)
    requires Consistent(events, messages)
    ensures Confluent(events, messages) <==> LinksSettlements(events, messages) && Agreeing(messages)
  {
    hide At, Finished, Consistent, Declared;
    if LinksSettlements(events, messages) && Agreeing(messages) {
      hide Agreeing;
      forall one: seq<Stmt>, two: seq<Stmt> | Finished(one, events, messages) && Finished(two, events, messages)
        ensures At(events, one, |one|) == At(events, two, |two|)
      {
        Converges(events, messages, one);
        Converges(events, messages, two);
      }
    } else if !LinksSettlements(events, messages) {
      var m :| m in messages && HasRows(events, m.digest) && !HasSettledRow(events, m.digest);
      OrderMatters(events, messages, m);
    } else {
      var m, n, c := Disagreement(messages);
      DisagreementMatters(events, messages, m, n, c);
    }
  }

  lemma Disagreement(messages: set<Message>) returns (m: Message, n: Message, c: Column)
    requires !Agreeing(messages)
    ensures m in messages && n in messages && m.digest == n.digest
    ensures InProof(m.proof, c).Some? && InProof(n.proof, c).Some? && InProof(m.proof, c) != InProof(n.proof, c)
  {
    m, n :| m in messages && n in messages && m.digest == n.digest
      && !(&& (m.proof.proofUrl.Some? && n.proof.proofUrl.Some? ==> m.proof.proofUrl == n.proof.proofUrl)
           && (m.proof.walrusBlobId.Some? && n.proof.walrusBlobId.Some?
               ==> m.proof.walrusBlobId == n.proof.walrusBlobId));
    c := if m.proof.proofUrl.Some? && n.proof.proofUrl.Some? && m.proof.proofUrl != n.proof.proofUrl then Url else Blob;
  }

  /** The failing input: a batch that settles two tunnels in one transaction, with an archived body each. */
  lemma OneBatchTwoProofs(digest: string, facts: Facts, one: string, two: string, blob: string, other: string)
    requires one != two && blob != other
    ensures var settled := Event(Settled, None, None, facts);
      var events := map[Key(digest, one) := settled, Key(digest, two) := settled];
      var messages := {Message(digest, Proof(None, Some(blob))), Message(digest, Proof(None, Some(other)))};
      Consistent(events, messages) && LinksSettlements(events, messages) && !Confluent(events, messages)
  {
    var settled := Event(Settled, None, None, facts);
    var events := map[Key(digest, one) := settled, Key(digest, two) := settled];
    var m, n := Message(digest, Proof(None, Some(blob))), Message(digest, Proof(None, Some(other)));
    assert Key(digest, one) in events;
    hide Confluent;
    DisagreementMatters(events, {m, n}, m, n, Blob);
  }
}
