/** The explorer's settlement read-model: decoded chain events and proof links are merged by SQL statements
    that several actors run in any order, any number of times. */
module ExplorerMerge {
  import opened Wrappers

  datatype Kind = Opened | Settled

  /** A row is identified by its transaction and its tunnel: one transaction can touch many tunnels. */
  datatype Key = Key(digest: string, tunnel: string)

  /** The columns that are fixed by the decoded event. */
  datatype Facts = Facts(
    partyABalance: Option<int>,
    partyBBalance: Option<int>,
    finalNonce: Option<int>,
    transcriptRoot: Option<string>,
    checkpoint: int,
    timestampMs: int,
    closedAtMs: Option<int>)

  /** A decoded lifecycle event, ready to be inserted. */
  datatype Event = Event(kind: Kind, partyA: Option<string>, partyB: Option<string>, facts: Facts)

  datatype Row = Row(
    kind: Kind,
    partyA: Option<string>,
    partyB: Option<string>,
    facts: Facts,
    proofUrl: Option<string>,
    walrusBlobId: Option<string>)

  datatype Proof = Proof(proofUrl: Option<string>, walrusBlobId: Option<string>)

  /** A proof link as published: the transaction it is for, and at least one of its two fields. */
  datatype Message = Message(digest: string, proof: Proof)

  datatype Db = Db(settlement: map<Key, Row>, pending: map<string, Proof>, settledCount: nat)

  /** The statements the actors run, each atomic. The indexer's commit of the transactions `ds` is the first
      three in order; the proof subscriber's handling of a message is the last two. */
  datatype Stmt =
    | Upsert(ds: set<string>)
    | Enrich(ds: set<string>)
    | DrainCommit(ds: set<string>)
    | Record(message: Message)
    | DrainProof(digest: string)

  type Events = map<Key, Event>

  // ---------------------------------------------------------------------------------------------
  // The statements

  /** INSERT ... ON CONFLICT (tx_digest, tunnel_id) DO UPDATE, for one row. */
  function UpsertRow(existing: Option<Row>, e: Event): Row {
    match existing
    case None => Row(e.kind, e.partyA, e.partyB, e.facts, None, None)
    case Some(r) => r.(partyA := Coalesce(r.partyA, e.partyA),
                       partyB := Coalesce(r.partyB, e.partyB),
                       proofUrl := Coalesce(r.proofUrl, None),
                       walrusBlobId := Coalesce(r.walrusBlobId, None))
  }

  /** A row that is there keeps what it has; a repeated event only fills addresses it lacks, and never links. */
  lemma UpsertFills(had: Row, e: Event)
    ensures var r := UpsertRow(Some(had), e);
      && r.kind == had.kind && r.facts == had.facts && r.proofUrl == had.proofUrl && r.walrusBlobId == had.walrusBlobId
      && r.partyA == (if had.partyA.Some? then had.partyA else e.partyA)
      && r.partyB == (if had.partyB.Some? then had.partyB else e.partyB)
  {
  }

  function Lookup<K, V>(m: map<K, V>, k: K): Option<V> {
    if k in m then Some(m[k]) else None
  }

  /** The rows of the transactions `ds`: a commit always carries a transaction's rows together. */
  function RowsOf(events: Events, ds: set<string>): Events {
    map k | k in events && k.digest in ds :: events[k]
  }

  /** The batch upsert, with the insert trigger that counts settled rows. */
  function ExecUpsert(db: Db, values: Events): Db {
    Db(map k | k in db.settlement.Keys + values.Keys ::
         if k in values then UpsertRow(Lookup(db.settlement, k), values[k]) else db.settlement[k],
       db.pending,
       db.settledCount + |set k | k in values && k !in db.settlement && values[k].kind == Settled|)
  }

  /** An opened row of the tunnel, if the table has one. */
  ghost function OpenerIn(settlement: map<Key, Row>, tunnel: string): Option<Key> {
    if o: Key :| o in settlement && o.tunnel == tunnel && settlement[o].kind == Opened then Some(o) else None
  }

  ghost function EnrichRow(settlement: map<Key, Row>, k: Key, r: Row): Row {
    var opener := OpenerIn(settlement, k.tunnel);
    if r.kind == Settled && r.partyA.None? && r.partyB.None? && opener.Some? && opener.value in settlement then
      r.(partyA := settlement[opener.value].partyA, partyB := settlement[opener.value].partyB)
    else
      r
  }

  /** Copy addresses from a tunnel's opened row onto its settled rows that have none. */
  ghost function ExecEnrich(db: Db, tunnels: set<string>): Db {
    db.(settlement := map k | k in db.settlement ::
      if k.tunnel in tunnels then EnrichRow(db.settlement, k, db.settlement[k]) else db.settlement[k])
  }

  /** Enrichment touches only settled rows without addresses, of the tunnels it is given, and gives each both addresses
      of an opened row of its own tunnel. */
  lemma EnrichesOnly(db: Db, tunnels: set<string>, k: Key)
    requires k in db.settlement
    ensures var had, r := db.settlement[k], ExecEnrich(db, tunnels).settlement[k];
      && r == had.(partyA := r.partyA, partyB := r.partyB)
      && (r != had ==>
            && k.tunnel in tunnels && had.kind == Settled && had.partyA.None? && had.partyB.None?
            && exists o: Key :: o in db.settlement && o.tunnel == k.tunnel && db.settlement[o].kind == Opened
                                && r.partyA == db.settlement[o].partyA && r.partyB == db.settlement[o].partyB)
  {
  }

  function MergeProof(r: Row, p: Proof): Row {
    r.(proofUrl := Coalesce(r.proofUrl, p.proofUrl), walrusBlobId := Coalesce(r.walrusBlobId, p.walrusBlobId))
  }

  /** Merge pending proofs onto their rows and delete exactly those that were merged. */
  function ExecDrain(db: Db, digests: set<string>): Db {
    db.(settlement := map k | k in db.settlement ::
          if k.digest in digests && k.digest in db.pending then MergeProof(db.settlement[k], db.pending[k.digest])
          else db.settlement[k],
        pending :=
          db.pending - (set k | k in db.settlement && k.digest in digests && k.digest in db.pending :: k.digest))
  }

  /** A drain deletes exactly the links of the digests it is given that found a row, and fills from them only links that
      the rows of those digests lack. */
  lemma DrainsExactly(db: Db, digests: set<string>, k: Key, d: string)
    ensures var after := ExecDrain(db, digests);
      && (d in after.pending <==>
            d in db.pending && !(d in digests && exists l: Key :: l in db.settlement && l.digest == d))
      && (d in after.pending ==> after.pending[d] == db.pending[d])
      && (k in after.settlement <==> k in db.settlement)
      && (k in db.settlement ==>
            var had, r := db.settlement[k], after.settlement[k];
            && r == had.(proofUrl := r.proofUrl, walrusBlobId := r.walrusBlobId)
            && if k.digest in digests && k.digest in db.pending then
                 var p := db.pending[k.digest];
                 && r.proofUrl == (if had.proofUrl.Some? then had.proofUrl else p.proofUrl)
                 && r.walrusBlobId == (if had.walrusBlobId.Some? then had.walrusBlobId else p.walrusBlobId)
               else r == had)
  {
  }

  function ExecRecord(db: Db, m: Message): Db {
    var p := match Lookup(db.pending, m.digest)
             case None => m.proof
             case Some(q) => Proof(Coalesce(m.proof.proofUrl, q.proofUrl),
                 Coalesce(m.proof.walrusBlobId, q.walrusBlobId));
    db.(pending := db.pending[m.digest := p])
  }

  function TunnelsOf(events: Events, ds: set<string>): set<string> {
    set k | k in events && k.digest in ds :: k.tunnel
  }

  function SettledDigests(events: Events, ds: set<string>): set<string> {
    set k | k in events && k.digest in ds && events[k].kind == Settled :: k.digest
  }

  ghost function Exec(db: Db, stmt: Stmt, events: Events): Db {
    match stmt
    case Upsert(ds) => ExecUpsert(db, RowsOf(events, ds))
    case Enrich(ds) => ExecEnrich(db, TunnelsOf(events, ds))
    case DrainCommit(ds) => ExecDrain(db, SettledDigests(events, ds))
    case Record(m) => ExecRecord(db, m)
    case DrainProof(d) => ExecDrain(db, {d})
  }

  /** The database after the first `p` statements. */
  ghost function At(events: Events, stmts: seq<Stmt>, p: nat): Db
    requires p <= |stmts|
  {
    if p == 0 then Db(map[], map[], 0) else Exec(At(events, stmts, p - 1), stmts[p - 1], events)
  }

  // ---------------------------------------------------------------------------------------------
  // What the actors are given

  ghost predicate HasRows(events: Events, d: string) {
    exists k :: k in events && k.digest == d
  }

  ghost predicate HasSettledRow(events: Events, d: string) {
    exists k :: k in events && k.digest == d && events[k].kind == Settled
  }

  /** What the chain and the proof publisher guarantee: opened events carry both addresses and settled ones neither; a
      tunnel is opened once; and a published message has at least one link. */
  ghost predicate Consistent(events: Events, messages: set<Message>) {
    && (forall k | k in events && events[k].kind == Opened :: events[k].partyA.Some? && events[k].partyB.Some?)
    && (forall k | k in events && events[k].kind == Settled :: events[k].partyA.None? && events[k].partyB.None?)
    && (forall k, l | k in events && l in events && events[k].kind == Opened && events[l].kind == Opened ::
          k.tunnel == l.tunnel ==> k == l)
    && (forall m | m in messages :: m.proof.proofUrl.Some? || m.proof.walrusBlobId.Some?)
  }

  /** No two links published for one transaction contradict each other. A worker publishes one message per close of a
      batch, all under the batch's digest, so this is not guaranteed. */
  ghost predicate Agreeing(messages: set<Message>) {
    forall m, n | m in messages && n in messages && m.digest == n.digest ::
      && (m.proof.proofUrl.Some? && n.proof.proofUrl.Some? ==> m.proof.proofUrl == n.proof.proofUrl)
      && (m.proof.walrusBlobId.Some? && n.proof.walrusBlobId.Some? ==> m.proof.walrusBlobId == n.proof.walrusBlobId)
  }

  /** A link is only published for a transaction that settles something, or that has no indexed rows at all. */
  ghost predicate LinksSettlements(events: Events, messages: set<Message>) {
    forall m | m in messages && HasRows(events, m.digest) :: HasSettledRow(events, m.digest)
  }

  // ---------------------------------------------------------------------------------------------
  // The declared outcome

  ghost function UrlOf(messages: set<Message>, d: string): Option<string> {
    if m :| m in messages && m.digest == d && m.proof.proofUrl.Some? then m.proof.proofUrl else None
  }

  ghost function BlobOf(messages: set<Message>, d: string): Option<string> {
    if m :| m in messages && m.digest == d && m.proof.walrusBlobId.Some? then m.proof.walrusBlobId else None
  }

  ghost function OpenerOf(events: Events, tunnel: string): Option<Key> {
    if o: Key :| o in events && o.tunnel == tunnel && events[o].kind == Opened then Some(o) else None
  }

  ghost function AddressesOf(events: Events, k: Key): (Option<string>, Option<string>)
    requires k in events
  {
    if events[k].kind == Opened then (events[k].partyA, events[k].partyB)
    else match OpenerOf(events, k.tunnel)
      case None => (None, None)
      case Some(o) => if o in events then (events[o].partyA, events[o].partyB) else (None, None)
  }

  /** Each row once, with its own facts, its tunnel's addresses, and whatever links were published for its transaction,
      if they agree. */
  ghost function DeclaredRow(events: Events, messages: set<Message>, k: Key): Row
    requires k in events
  {
    var (a, b) := AddressesOf(events, k);
    Row(events[k].kind, a, b, events[k].facts, UrlOf(messages, k.digest), BlobOf(messages, k.digest))
  }

  ghost function Declared(events: Events, messages: set<Message>): Db {
    Db(map k | k in events :: DeclaredRow(events, messages, k),
       map d | d in (set m | m in messages :: m.digest) && !HasRows(events, d) ::
         Proof(UrlOf(messages, d), BlobOf(messages, d)),
       |set k | k in events && events[k].kind == Settled|)
  }
}
