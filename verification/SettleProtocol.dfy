/** The settlement pipeline as a state machine: request handlers that enqueue settlements and any number
    of workers that claim, submit, record and acknowledge them, interleaved one shared access at a time. */
module SettleProtocol {
  import opened Wrappers
  import opened Settlement
  import opened SettleHeader

  /** One queued settlement. The queue renders the id as m-<number>; the number is what identifies it. */
  datatype Entry = Entry(id: nat, tunnelId: string, header: Bytes)

  /** An entry with the close parsed from its header. */
  datatype Work = Work(entry: Entry, close: CloseArgs)

  /** Where a worker stands in one claim-submit-record cycle. */
  datatype Worker =
    | Idle
    | Sorting(claimed: seq<Entry>, seen: set<string>, work: seq<Work>)
    | Recording(todo: seq<Work>, results: seq<Outcome>, toAck: seq<Entry>)
    | Requeueing(todo: seq<Work>, results: seq<Outcome>, toAck: seq<Entry>, again: Entry)
  {
    /** The entries whose fate this worker still has to settle. */
    function Unresolved(): seq<Entry> {
      match this
      case Idle => []
      case Sorting(claimed, _, work) => claimed + Entries(work)
      case Recording(todo, _, _) => Entries(todo)
      case Requeueing(todo, _, _, again) => Entries(todo) + [again]
    }

    /** The entries claimed by this worker and not acknowledged yet, plus one it is putting back. */
    function Held(): seq<Entry> {
      match this
      case Idle => []
      case Sorting(_, _, _) => Unresolved()
      case Recording(_, _, toAck) => Unresolved() + toAck
      case Requeueing(_, _, toAck, _) => Unresolved() + toAck
    }
  }

  datatype TunnelStatus = Created | Active | Closed

  /** The shared state, the workers, and histories. `publishing` holds the entries of handlers that stored the body
      and have not pushed the entry yet. `closed` is what the registry shows as closed now: workers add to it, and the
      event indexer adds and removes as it replays the chain. The histories are every tunnel a worker ever recorded as
      closed, every tunnel the indexer ever saw closed, every tunnel announced as failed, and every body accepted. */
  datatype State = State(
    pending: seq<Entry>,
    bodies: map<nat, Bytes>,
    counter: nat,
    publishing: seq<Entry>,
    closed: set<string>,
    settled: set<string>,
    observed: set<string>,
    dead: set<string>,
    workers: seq<Worker>,
    accepted: set<Bytes>)

  datatype Action =
    | Accept(path: string, body: Bytes)
    | Publish(k: nat)
    | Claim(w: nat, max: nat)
    | Sort(w: nat)
    | Submit(w: nat, outcomes: seq<Outcome>)
    | Record(w: nat)
    | Push(w: nat)
    | Ack(w: nat)
    | Observe(id: string, status: TunnelStatus)

  /** A step that one of the workers takes. */
  predicate OfWorker(a: Action) {
    !a.Accept? && !a.Publish? && !a.Observe?
  }

  function Entries(work: seq<Work>): (es: seq<Entry>)
    ensures |es| == |work|
  {
    seq(|work|, k requires 0 <= k < |work| => work[k].entry)
  }

  function Ids(es: seq<Entry>): (ids: seq<nat>)
    ensures |ids| == |es|
  {
    seq(|es|, k requires 0 <= k < |es| => es[k].id)
  }

  /** The tunnel a header names, as every later stage spells it. */
  function Tunnel(header: Bytes): string
    requires CloseArgsFromHeader(header).Ok?
  {
    CloseArgsFromHeader(header).value.tunnelId
  }

  /** The spelling of a tunnel's id by the chain and by the header parser: 0x and 64 lowercase hex digits. */
  ghost predicate Canonical(id: string) {
    exists tunnel: Bytes :: |tunnel| == 32 && id == "0x" + HexEncode(tunnel)
  }

  /** The tunnels that were ever shown closed, by a worker or by the indexer. */
  function EverClosed(s: State): set<string> {
    s.settled + s.observed
  }

  datatype Reply = Accepted | BadSettlement | TunnelMismatch | AlreadySettled

  /** The guards of the settle route, in their order, against the registry it read. */
  function SettleReply(path: string, body: Bytes, closed: set<string>): Reply {
    match ParseSettleBody(body)
    case Err(_) => BadSettlement
    case Ok(p) =>
      if NormalizeTunnelId(p.TunnelId()) != NormalizeTunnelId(path) then TunnelMismatch
      else if path in closed then AlreadySettled
      else Accepted
  }

  // ---------------------------------------------------------------------------------------------
  // Steps

  ghost predicate Enabled(s: State, a: Action) {
    match a
    // The handler read the registry at some earlier point, when it may have shown anything.
    case Accept(path, body) => exists seen: set<string> :: SettleReply(path, body, seen) == Accepted
    case Publish(k) => k < |s.publishing|
    case Claim(w, max) => w < |s.workers| && s.workers[w].Idle? && s.pending != [] && max > 0
    case Sort(w) => w < |s.workers| && s.workers[w].Sorting? && s.workers[w].claimed != []
    case Submit(w, outcomes) =>
      w < |s.workers| && s.workers[w].Sorting? && s.workers[w].claimed == [] && |outcomes| == |s.workers[w].work|
    case Record(w) =>
      w < |s.workers| && s.workers[w].Recording? && s.workers[w].todo != [] && s.workers[w].results != []
    case Push(w) =>
      w < |s.workers| && s.workers[w].Requeueing? && s.workers[w].todo != [] && s.workers[w].results != []
    case Ack(w) => w < |s.workers| && s.workers[w].Recording? && s.workers[w].todo == []
    case Observe(id, _) => Canonical(id)
  }

  function SetWorker(s: State, w: nat, x: Worker): State
    requires w < |s.workers|
  {
    s.(workers := s.workers[w := x])
  }

  ghost function Next(s: State, a: Action): State
    requires Enabled(s, a)
  {
    match a
    case Accept(path, body) => AcceptStep(s, path, body)
    case Publish(k) =>
      s.(pending := s.pending + [s.publishing[k]], publishing := s.publishing[..k] + s.publishing[k + 1..])
    case Claim(w, max) =>
      var n := if max < |s.pending| then max else |s.pending|;
      SetWorker(s, w, Sorting(s.pending[..n], {}, [])).(pending := s.pending[n..])
    case Sort(w) => SortStep(s, w)
    case Submit(w, outcomes) =>
      var work := s.workers[w].work;
      SetWorker(s, w, if work == [] then Idle else Recording(work, outcomes, []))
    case Record(w) => RecordStep(s, w)
    case Push(w) =>
      var x := s.workers[w];
      SetWorker(s, w, Recording(x.todo[1..], x.results[1..], x.toAck + [x.todo[0].entry]))
      .(pending := s.pending + [x.again])
    case Ack(w) =>
      var x := s.workers[w];
      SetWorker(s, w, Idle).(bodies := s.bodies - IdSet(x.toAck))
    case Observe(id, status) => ObserveStep(s, id, status)
  }

  /** The event indexer overwrites the registry with what an event says, however late. */
  function ObserveStep(s: State, id: string, status: TunnelStatus): State {
    if status == Closed then s.(closed := s.closed + {id}, observed := s.observed + {id})
    else s.(closed := s.closed - {id})
  }

  function IdSet(es: seq<Entry>): set<nat> {
    set e | e in es :: e.id
  }

  /** A handler takes an id and stores the body; the entry is pushed by a later step. */
  function AcceptStep(s: State, path: string, body: Bytes): State
    requires |body| >= SETTLE_BODY_HEADER_LEN
  {
    var e := Entry(s.counter, path, body[..SETTLE_BODY_HEADER_LEN]);
    s.(bodies := s.bodies[s.counter := body], counter := s.counter + 1, publishing := s.publishing + [e],
       accepted := s.accepted + {body})
  }

  /** Drop a duplicate or an already closed tunnel, dead-letter what cannot be parsed, keep the rest. */
  function SortStep(s: State, w: nat): State
    requires w < |s.workers| && s.workers[w].Sorting? && s.workers[w].claimed != []
  {
    var x := s.workers[w];
    var q := x.claimed[0];
    var rest := Sorting(x.claimed[1..], x.seen + {q.tunnelId}, x.work);
    if q.tunnelId in x.seen || q.tunnelId in s.closed then
      SetWorker(s, w, rest).(bodies := s.bodies - {q.id})
    else match CloseArgsFromHeader(q.header)
      case Ok(close) => SetWorker(s, w, rest.(work := x.work + [Work(q, close)]))
      case Err(_) => SetWorker(s, w, rest).(bodies := s.bodies - {q.id}, dead := s.dead + {q.tunnelId})
  }

  /** Close, dead-letter, or begin to put back the next entry of the batch. */
  function RecordStep(s: State, w: nat): State
    requires w < |s.workers| && s.workers[w].Recording? && s.workers[w].todo != [] && s.workers[w].results != []
  {
    var x := s.workers[w];
    var Work(q, close) := x.todo[0];
    var onward := Recording(x.todo[1..], x.results[1..], x.toAck + [q]);
    match x.results[0]
    case Settled(_) =>
      SetWorker(s, w, onward).(closed := s.closed + {close.tunnelId}, settled := s.settled + {close.tunnelId})
    case Rejected(_) => SetWorker(s, w, onward).(dead := s.dead + {close.tunnelId})
    case Transient(_, _) =>
      var body := if q.id in s.bodies then s.bodies[q.id] else [];
      SetWorker(s, w, Requeueing(x.todo, x.results, x.toAck, Entry(s.counter, close.tunnelId, q.header)))
        .(bodies := s.bodies[s.counter := body], counter := s.counter + 1)
  }

  /** A run: consecutive states are related by an enabled step. */
  ghost predicate IsRun(run: seq<State>) {
    run != [] && forall i | 0 <= i < |run| - 1 :: StepTo(run[i], run[i + 1])
  }

  ghost predicate StepTo(s: State, t: State) {
    exists a: Action :: Enabled(s, a) && t == Next(s, a)
  }

  ghost predicate Initial(s: State) {
    && s.pending == [] && s.bodies == map[] && s.publishing == [] && s.closed == {}
    && s.settled == {} && s.observed == {} && s.dead == {}
    && (forall w | 0 <= w < |s.workers| :: s.workers[w].Idle?) && s.accepted == {}
  }

  // ---------------------------------------------------------------------------------------------
  // What every run keeps

  ghost function Sum(parts: seq<multiset<nat>>): multiset<nat> {
    if parts == [] then multiset{} else parts[0] + Sum(parts[1..])
  }

  /** The ids a worker holds, with multiplicity. */
  ghost function HeldIds(x: Worker): multiset<nat> {
    multiset(Ids(x.Held()))
  }

  ghost function HeldBy(workers: seq<Worker>): multiset<nat> {
    Sum(seq(|workers|, w requires 0 <= w < |workers| => HeldIds(workers[w])))
  }

  /** Every id held anywhere, with multiplicity. */
  ghost function Located(s: State): multiset<nat> {
    multiset(Ids(s.pending)) + multiset(Ids(s.publishing)) + HeldBy(s.workers)
  }

  /** Stored bodies are exactly those of the ids held somewhere, and no id is held twice. */
  ghost predicate BodiesExact(s: State) {
    && Located(s) == multiset(s.bodies.Keys)
    && forall id | id in s.bodies :: id < s.counter
  }

  /** A queued entry still names an accepted settlement: its body is stored unchanged, its header is that
      body's header, and the id it is queued under normalizes to the tunnel in the header. */
  ghost predicate Genuine(s: State, e: Entry) {
    && e.id in s.bodies
    && s.bodies[e.id] in s.accepted
    && CloseArgsFromHeader(e.header).Ok?
    && |s.bodies[e.id]| >= SETTLE_BODY_HEADER_LEN
    && e.header == s.bodies[e.id][..SETTLE_BODY_HEADER_LEN]
    && NormalizeTunnelId(e.tunnelId) == NormalizeTunnelId(Tunnel(e.header))
  }

  ghost predicate HeldAt(s: State, e: Entry) {
    e in s.pending || e in s.publishing || exists w | 0 <= w < |s.workers| :: e in s.workers[w].Held()
  }

  ghost predicate Live(s: State, e: Entry) {
    e in s.pending || e in s.publishing || exists w | 0 <= w < |s.workers| :: e in s.workers[w].Unresolved()
  }

  ghost predicate EntriesGenuine(s: State) {
    forall e: Entry | HeldAt(s, e) :: Genuine(s, e)
  }

  /** A worker's own bookkeeping: work carries the close of its header, results match the work left, and a
      tunnel id already seen was closed or is still among the work. */
  ghost predicate WorkerSound(s: State, x: Worker) {
    match x
    case Idle => true
    case Sorting(_, seen, work) =>
      && (forall k | 0 <= k < |work| :: Parsed(work[k]))
      && (forall id | id in seen :: id in EverClosed(s) || exists k | 0 <= k < |work| :: work[k].entry.tunnelId == id)
    case Recording(todo, results, _) =>
      |results| == |todo| && forall k | 0 <= k < |todo| :: Parsed(todo[k])
    case Requeueing(todo, results, _, again) =>
      && |results| == |todo| && todo != [] && (forall k | 0 <= k < |todo| :: Parsed(todo[k]))
      && again.header == todo[0].entry.header
      && (again.id in s.bodies && todo[0].entry.id in s.bodies ==> s.bodies[again.id] == s.bodies[todo[0].entry.id])
  }

  ghost predicate Parsed(work: Work) {
    CloseArgsFromHeader(work.entry.header) == Ok(work.close)
  }

  ghost predicate WorkersSound(s: State) {
    forall w | 0 <= w < |s.workers| :: WorkerSound(s, s.workers[w])
  }

  ghost predicate TunnelOf(body: Bytes, id: string) {
    CloseArgsFromHeader(body) .Ok? && Tunnel(body) == id
  }

  /** Workers close and announce as failed only accepted settlements; the registry shows closed only what a worker or
      the chain closed, under the chain's spelling. */
  ghost predicate NothingInvented(s: State) {
    && s.closed <= EverClosed(s)
    && (forall id | id in s.observed :: Canonical(id))
    && (forall id | id in s.settled :: exists b | b in s.accepted :: TunnelOf(b, id))
    && (forall id | id in s.dead :: exists b | b in s.accepted :: TunnelOf(b, id))
  }

  /** The tunnel was closed, announced as failed, or some live entry still asks for its settlement. */
  ghost predicate Accounted(s: State, id: string) {
    id in EverClosed(s) || id in s.dead
    || exists e: Entry :: Live(s, e) && CloseArgsFromHeader(e.header).Ok? && Tunnel(e.header) == id
  }

  ghost predicate NothingLost(s: State) {
    forall b | b in s.accepted :: CloseArgsFromHeader(b).Ok? && Accounted(s, Tunnel(b))
  }

  ghost predicate Inv(s: State) {
    BodiesExact(s) && EntriesGenuine(s) && WorkersSound(s) && NothingInvented(s) && NothingLost(s)
  }
}
