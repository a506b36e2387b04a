/** The settle queue, the batched submission and one worker's drain cycle, as the code runs them, proved to
    be runs of the pipeline's state machine. */
module SettleWorker {
  import opened Numbers
  import opened Wrappers
  import opened Settlement
  import opened SettleHeader
  import opened SettleBatch
  import opened SettleProtocol

  const MAX_SETTLE_SPLIT_DEPTH: nat := 7

  // ---------------------------------------------------------------------------------------------
  // Batched submission

  /** Why a read before the first submission failed. */
  datatype Fault = Busy(msg: string, retryAfter: Option<nat>) | Refused(reason: string) {
    function AsOutcome(): Outcome {
      match this
      case Busy(m, r) => Transient(m, r)
      case Refused(m) => Rejected(m)
    }
  }

  /** The full node as three oracles, each told how many calls came before: resolving the tunnels' object
      references, reading the epoch and gas price, and submitting a batch. */
  datatype Node = Node(
    resolve: (nat, seq<string>) -> Option<Fault>,
    epoch: nat -> Option<Fault>,
    submit: Chain)

  function TunnelIds(closes: seq<CloseArgs>): seq<string> {
    seq(|closes|, k requires 0 <= k < |closes| => closes[k].tunnelId)
  }

  function Everyone(n: nat, outcome: Outcome): seq<Outcome> {
    seq(n, k => outcome)
  }

  /** What a batch comes to: one verdict per close, and the number of node calls made. A read that fails
      before the first submission fails every close alike. */
  ghost function BatchOutcome(closes: seq<CloseArgs>, node: Node, tick: nat): (r: (seq<Outcome>, nat))
    ensures |r.0| == |closes|
  {
    if closes == [] then ([], 0)
    else
      var unresolved := node.resolve(tick, TunnelIds(closes));
      if unresolved.Some? then (Everyone(|closes|, unresolved.value.AsOutcome()), 1)
      else
        var noEpoch := node.epoch(tick + 1);
        if noEpoch.Some? then (Everyone(|closes|, noEpoch.value.AsOutcome()), 2)
        else
          var r := Isolate(closes, Positions(|closes|), MAX_SETTLE_SPLIT_DEPTH, node.submit, tick + 2);
          (r.results, 2 + |r.log|)
  }

  method SubmitCloseBatch(closes: seq<CloseArgs>, node: Node, tick: nat) returns (results: seq<Outcome>, used: nat)
    ensures (results, used) == BatchOutcome(closes, node, tick)
    ensures |results| == |closes| && (used == 0 <==> closes == [])
  {
    if closes == [] {
      return [], 0;
    }
    var unresolved := node.resolve(tick, TunnelIds(closes));
    if unresolved.Some? {
      return Everyone(|closes|, unresolved.value.AsOutcome()), 1;
    }
    var noEpoch := node.epoch(tick + 1);
    if noEpoch.Some? {
      return Everyone(|closes|, noEpoch.value.AsOutcome()), 2;
    }
    var calls;
    results, calls := SplitSubmit(closes, MAX_SETTLE_SPLIT_DEPTH, node.submit, tick + 2);
    used := 2 + calls;
  }

  /** The ids are the tunnels of the closes, one by one. */
  ghost predicate Names(ids: seq<string>, closes: seq<CloseArgs>) {
    |ids| == |closes| && forall k | 0 <= k < |closes| :: ids[k] == closes[k].tunnelId
  }

  /** Every close has this verdict. */
  ghost predicate AllGet(results: seq<Outcome>, closes: seq<CloseArgs>, outcome: Outcome) {
    |results| == |closes| && forall k | 0 <= k < |closes| :: results[k] == outcome
  }

  /** The first call resolves the tunnels of all closes, the second reads the epoch, and only then is anything
      submitted: a fault of either is every close's verdict, transient when the node was busy and a rejection when it
      refused. */
  lemma ReadsDecideFirst(closes: seq<CloseArgs>, ids: seq<string>, node: Node, tick: nat)
    requires closes != [] && Names(ids, closes)
    ensures var (results, used) := BatchOutcome(closes, node, tick);
      match node.resolve(tick, ids)
      case Some(Busy(msg, retryAfter)) => used == 1 && AllGet(results, closes, Transient(msg, retryAfter))
      case Some(Refused(reason)) => used == 1 && AllGet(results, closes, Rejected(reason))
      case None =>
        match node.epoch(tick + 1)
        case Some(Busy(msg, retryAfter)) => used == 2 && AllGet(results, closes, Transient(msg, retryAfter))
        case Some(Refused(reason)) => used == 2 && AllGet(results, closes, Rejected(reason))
        case None =>
          var isolated := Isolate(closes, Positions(|closes|), 7, node.submit, tick + 2);
          results == isolated.results && used == 2 + |isolated.log| > 2
  {
    hide Isolate;
    assert ids == TunnelIds(closes);
  }

  /** A verdict handed to a close was given by the node in one of the calls the batch made. */
  lemma VerdictCameFromTheNode(closes: seq<CloseArgs>, node: Node, tick: nat, k: nat) returns (at: nat)
    requires k < |closes|
    ensures var (results, used) := BatchOutcome(closes, node, tick);
      && tick <= at < tick + used
      && (|| (exists ids :: Names(ids, closes) && node.resolve(at, ids).Some?
                           && results[k] == node.resolve(at, ids).value.AsOutcome())
          || (node.epoch(at).Some? && results[k] == node.epoch(at).value.AsOutcome())
          || (exists sub: seq<CloseArgs> :: closes[k] in sub && results[k] == node.submit(at, sub)))
  {
    hide Isolate;
    assert Names(TunnelIds(closes), closes);
    if node.resolve(tick, TunnelIds(closes)).Some? {
      at := tick;
    } else if node.epoch(tick + 1).Some? {
      at := tick + 1;
    } else {
      at := VerdictFromSubmit(closes, node.submit, tick + 2, k);
    }
  }

  /** Each close's verdict is what the chain said to a sub-batch that held it. */
  lemma VerdictFromSubmit(closes: seq<CloseArgs>, chain: Chain, tick: nat, k: nat) returns (at: nat)
    requires k < |closes|
    ensures var r := Isolate(closes, Positions(|closes|), MAX_SETTLE_SPLIT_DEPTH, chain, tick);
      && tick <= at < tick + |r.log|
      && k < |r.results|
      && exists sub: seq<CloseArgs> :: closes[k] in sub && r.results[k] == chain(at, sub)
  {
    hide Isolate;
    var idxs := Positions(|closes|);
    var p := DecidedOnce(closes, idxs, MAX_SETTLE_SPLIT_DEPTH, chain, tick, k);
    LogIsWhatTheChainSaw(closes, idxs, MAX_SETTLE_SPLIT_DEPTH, chain, tick, p);
    at := tick + p;
    var a := Isolate(closes, idxs, MAX_SETTLE_SPLIT_DEPTH, chain, tick).log[p];
    var j :| 0 <= j < |a.idxs| && a.idxs[j] == k;
    assert SubBatch(closes, a.idxs)[j] == closes[k];
  }

  /** From call `from` on the node is never busy. */
  ghost predicate NeverBusyFrom(node: Node, from: nat) {
    && (forall t: nat, ids | t >= from && node.resolve(t, ids).Some? :: node.resolve(t, ids).value.Refused?)
    && (forall t: nat | t >= from && node.epoch(t).Some? :: node.epoch(t).value.Refused?)
    && (forall t: nat, sub | t >= from :: !node.submit(t, sub).Transient?)
  }

  /** The node resolves every tunnel and always reports the epoch, unless it is busy. */
  ghost predicate NeverRefuses(node: Node) {
    && (forall t: nat, ids | node.resolve(t, ids).Some? :: node.resolve(t, ids).value.Busy?)
    && (forall t: nat | node.epoch(t).Some? :: node.epoch(t).value.Busy?)
  }

  lemma QuietNodeGivesNoTransient(closes: seq<CloseArgs>, node: Node, tick: nat, from: nat, k: nat)
    requires NeverBusyFrom(node, from) && tick >= from && k < |closes|
    ensures !BatchOutcome(closes, node, tick).0[k].Transient?
  {
    hide BatchOutcome;
    var at := VerdictCameFromTheNode(closes, node, tick, k);
  }

  lemma SubmittedVerdictsDeserved(closes: seq<CloseArgs>, chain: Chain, tick: nat, poison: CloseArgs -> bool, k: nat)
    requires Poisons(chain, poison) && k < |closes| <= 128
    ensures var outcome := Isolate(closes, Positions(|closes|), MAX_SETTLE_SPLIT_DEPTH, chain, tick).results[k];
      && (outcome.Rejected? ==> poison(closes[k]))
      && (outcome.Settled? ==> !poison(closes[k]))
  {
    hide Isolate;
    assert Pow2(7) == 128 by {
      assert Pow2(3) == 8;
      assert Pow2(5) == 32;
    }
    PoisonIsolated(closes, Positions(|closes|), MAX_SETTLE_SPLIT_DEPTH, chain, tick, poison, k);
  }

  /** No good close is rejected and no poison close is settled. */
  ghost predicate BatchDeserved(closes: seq<CloseArgs>, node: Node, tick: nat, poison: CloseArgs -> bool) {
    forall k | 0 <= k < |closes| ::
      var outcome := BatchOutcome(closes, node, tick).0[k];
      && (outcome.Rejected? ==> poison(closes[k]))
      && (outcome.Settled? ==> !poison(closes[k]))
  }

  /** The node refuses to resolve the batch's tunnels, or resolves them and refuses to report the epoch. */
  ghost predicate RefusedBeforeSubmission(ids: seq<string>, node: Node, tick: nat) {
    var unresolved, noEpoch := node.resolve(tick, ids), node.epoch(tick + 1);
    if unresolved.Some? then unresolved.value.Refused? else noEpoch.Some? && noEpoch.value.Refused?
  }

  /** Isolation of a whole batch, within the split limit and with a good close in it: every close gets a verdict it
      deserves exactly when neither the resolution nor the epoch read is refused, since those fail the whole batch
      before isolation starts. Without a good close every verdict is deserved. */
  lemma BatchIsolatedExactly(closes: seq<CloseArgs>, ids: seq<string>, node: Node, tick: nat, poison: CloseArgs -> bool)
    requires Poisons(node.submit, poison) && |closes| <= 128 && Names(ids, closes)
    ensures BatchDeserved(closes, node, tick, poison) <==>
            !RefusedBeforeSubmission(ids, node, tick) || forall k | 0 <= k < |closes| :: poison(closes[k])
  {
    hide Isolate;
    assert ids == TunnelIds(closes);
    if closes == [] {
    } else if node.resolve(tick, TunnelIds(closes)).None? && node.epoch(tick + 1).None? {
      forall k: nat | k < |closes|
        ensures var outcome := BatchOutcome(closes, node, tick).0[k];
          && (outcome.Rejected? ==> poison(closes[k]))
          && (outcome.Settled? ==> !poison(closes[k]))
      {
        SubmittedVerdictsDeserved(closes, node.submit, tick + 2, poison, k);
      }
    } else {
      assert forall k | 0 <= k < |closes| ::
        BatchOutcome(closes, node, tick).0[k].Rejected? <==> RefusedBeforeSubmission(ids, node, tick);
      assert forall k | 0 <= k < |closes| :: !BatchOutcome(closes, node, tick).0[k].Settled?;
    }
  }

  // ---------------------------------------------------------------------------------------------
  // The shared objects

  /** The in-memory settle queue. */
  class InMemorySettleQueue {
    var pending: seq<Entry>
    var bodies: map<nat, Bytes>
    var counter: nat

    constructor ()
      ensures pending == [] && bodies == map[] && counter == 0
    {
      pending, bodies, counter := [], map[], 0;
    }

    method Enqueue(tunnelId: string, header: Bytes, body: Bytes) returns (id: nat)
      modifies this
      ensures id == old(counter) && counter == old(counter) + 1
      ensures bodies == old(bodies)[id := body]
      ensures pending == old(pending) + [Entry(id, tunnelId, header)]
    {
      id := counter;
      counter := counter + 1;
      bodies := bodies[id := body];
      pending := pending + [Entry(id, tunnelId, header)];
    }

    /** Take up to `max` entries off the front. */
    method Claim(max: nat) returns (claimed: seq<Entry>)
      modifies this`pending
      ensures claimed + pending == old(pending)
      ensures |claimed| == if max < |old(pending)| then max else |old(pending)|
    {
      var n := if max < |pending| then max else |pending|;
      claimed := pending[..n];
      pending := pending[n..];
    }

    method Body(id: nat) returns (body: Option<Bytes>)
      ensures body == if id in bodies then Some(bodies[id]) else None
    {
      body := if id in bodies then Some(bodies[id]) else None;
    }

    /** Drop the bodies of entries that are done with. */
    method Ack(done: seq<Entry>)
      modifies this`bodies
      ensures bodies == old(bodies) - IdSet(done)
    {
      for k := 0 to |done|
        invariant bodies == old(bodies) - IdSet(done[..k])
      {
        bodies := bodies - {done[k].id};
        assert done[..k + 1] == done[..k] + [done[k]];
        assert IdSet(done[..k + 1]) == IdSet(done[..k]) + {done[k].id};
      }
      assert done[..|done|] == done;
    }
  }

  /** The tunnel registry. Its ghost fields remember which tunnels a worker and which the indexer ever set to closed. */
  class ControlStore {
    var tunnels: map<string, TunnelStatus>
    ghost var settled: set<string>
    ghost var observed: set<string>

    ghost function ClosedIds(): set<string>
      reads this
    {
      set id | id in tunnels && tunnels[id] == Closed
    }

    method SetTunnelStatus(id: string, status: TunnelStatus, ghost byWorker: bool)
      modifies this
      ensures tunnels == old(tunnels)[id := status]
      ensures ClosedIds() == if status == Closed then old(ClosedIds()) + {id} else old(ClosedIds()) - {id}
      ensures settled == if status == Closed && byWorker then old(settled) + {id} else old(settled)
      ensures observed == if status == Closed && !byWorker then old(observed) + {id} else old(observed)
    {
      tunnels := tunnels[id := status];
      if status == Closed {
        if byWorker {
          settled := settled + {id};
        } else {
          observed := observed + {id};
        }
      }
    }

    method IsClosed(id: string) returns (closed: bool)
      ensures closed == (id in ClosedIds())
    {
      closed := id in tunnels && tunnels[id] == Closed;
    }
  }

  /** The bus, as far as failed settlements go: the tunnels announced on settle:failed, with the reason. */
  class Bus {
    var failed: seq<(string, string)>

    ghost function FailedIds(): set<string>
      reads this
    {
      set m | m in failed :: m.0
    }

    method DeadLetter(id: string, reason: string)
      modifies this
      ensures failed == old(failed) + [(id, reason)] && FailedIds() == old(FailedIds()) + {id}
    {
      failed := failed + [(id, reason)];
      assert forall m | m in failed :: m in old(failed) || m == (id, reason);
      assert (id, reason) in failed;
      assert forall m | m in old(failed) :: m in failed;
    }
  }

  // ---------------------------------------------------------------------------------------------
  // One drain cycle as machine steps of a single worker

  ghost predicate Alone(s: State) {
    |s.workers| == 1
  }

  /** Sort through all that was claimed. */
  ghost function SortAll(s: State): (t: State)
    requires Alone(s) && s.workers[0].Sorting?
    ensures Alone(t) && t.workers[0].Sorting? && t.workers[0].claimed == []
    decreases |s.workers[0].claimed|
  {
    if s.workers[0].claimed == [] then s else SortAll(SortStep(s, 0))
  }

  /** Record one verdict, and push the entry that is put back, if one is. */
  ghost function RecordOne(s: State): (t: State)
    requires Alone(s) && s.workers[0].Recording? && s.workers[0].todo != []
        && |s.workers[0].results| == |s.workers[0].todo|
    ensures Alone(t) && t.workers[0].Recording?
    ensures t.workers[0].todo == s.workers[0].todo[1..] && t.workers[0].results == s.workers[0].results[1..]
    ensures t.workers[0].toAck == s.workers[0].toAck + [s.workers[0].todo[0].entry]
  {
    var t := RecordStep(s, 0);
    if t.workers[0].Requeueing? then Next(t, Push(0)) else t
  }

  ghost function RecordAll(s: State): (t: State)
    requires Alone(s) && s.workers[0].Recording? && |s.workers[0].results| == |s.workers[0].todo|
    ensures Alone(t) && t.workers[0].Recording? && t.workers[0].todo == []
    decreases |s.workers[0].todo|
  {
    if s.workers[0].todo == [] then s else RecordAll(RecordOne(s))
  }

  function Closes(work: seq<Work>): (closes: seq<CloseArgs>)
    ensures |closes| == |work|
  {
    seq(|work|, k requires 0 <= k < |work| => work[k].close)
  }

  /** The state after one drain, the number of closes submitted, and the number of node calls made. */
  ghost function Drain(s: State, max: nat, node: Node, tick: nat): (r: (State, nat, nat))
    requires Alone(s) && s.workers[0].Idle?
    ensures Alone(r.0) && r.0.workers[0].Idle?
  {
    if s.pending == [] || max == 0 then (s, 0, 0)
    else
      var sorted := SortAll(Next(s, Claim(0, max)));
      var work := sorted.workers[0].work;
      if work == [] then (SetWorker(sorted, 0, Idle), 0, 0)
      else
        var (results, used) := BatchOutcome(Closes(work), node, tick);
        var recorded := RecordAll(SetWorker(sorted, 0, Recording(work, results, [])));
        (Next(recorded, Ack(0)), |work|, used)
  }

  ghost function View(queue: InMemorySettleQueue, control: ControlStore, bus: Bus, worker: Worker,
                      accepted: set<Bytes>): State
    reads queue, control, bus
  {
    State(queue.pending, queue.bodies, queue.counter, [], control.ClosedIds(), control.settled, control.observed,
          bus.FailedIds(), [worker], accepted)
  }

  /** Sort the claimed entries: drop duplicates and closed tunnels, dead-letter what cannot be parsed. */
  method SortClaim(queue: InMemorySettleQueue, control: ControlStore, bus: Bus, claimed: seq<Entry>,
                   ghost accepted: set<Bytes>)
    returns (work: seq<Work>, ghost seen: set<string>)
    modifies queue, bus
    ensures View(queue, control, bus, Sorting([], seen, work), accepted)
         == SortAll(old(View(queue, control, bus, Sorting(claimed, {}, []), accepted)))
  {
    work := [];
    var seenIds: set<string> := {};
    ghost var goal := SortAll(View(queue, control, bus, Sorting(claimed, {}, []), accepted));
    assert claimed[0..] == claimed;
    for k := 0 to |claimed|
      invariant SortAll(View(queue, control, bus, Sorting(claimed[k..], seenIds, work), accepted)) == goal
      invariant unchanged(control)
    {
      var q := claimed[k];
      ghost var before := View(queue, control, bus, Sorting(claimed[k..], seenIds, work), accepted);
      assert claimed[k..][1..] == claimed[k + 1..];
      var dup := q.tunnelId in seenIds;
      var closed := control.IsClosed(q.tunnelId);
      seenIds := seenIds + {q.tunnelId};
      if dup || closed {
        queue.Ack([q]);
        assert IdSet([q]) == {q.id};
      } else {
        match CloseArgsFromHeader(q.header)
        case Ok(close) =>
          work := work + [Work(q, close)];
        case Err(e) =>
          bus.DeadLetter(q.tunnelId, e);
          queue.Ack([q]);
          assert IdSet([q]) == {q.id};
      }
      assert View(queue, control, bus, Sorting(claimed[k + 1..], seenIds, work), accepted) == SortStep(before, 0);
    }
    seen := seenIds;
  }

  /** Record one verdict: close, dead-letter or put back the entry. */
  method RecordVerdict(queue: InMemorySettleQueue, control: ControlStore, bus: Bus, q: Entry, close: CloseArgs,
                       outcome: Outcome)
    modifies queue, control, bus
    ensures outcome.Settled? ==>
      && control.tunnels == old(control.tunnels)[close.tunnelId := Closed] && bus.failed == old(bus.failed)
      && queue.pending == old(queue.pending) && queue.bodies == old(queue.bodies) && queue.counter == old(queue.counter)
      && bus.FailedIds() == old(bus.FailedIds()) && control.ClosedIds() == old(control.ClosedIds()) + {close.tunnelId}
      && control.settled == old(control.settled) + {close.tunnelId} && control.observed == old(control.observed)
    ensures outcome.Rejected? ==>
      && bus.failed == old(bus.failed) + [(close.tunnelId, outcome.reason)]
      && queue.pending == old(queue.pending) && queue.bodies == old(queue.bodies) && queue.counter == old(queue.counter)
      && bus.FailedIds() == old(bus.FailedIds()) + {close.tunnelId} && unchanged(control)
    ensures outcome.Transient? ==>
      && queue.pending == old(queue.pending) + [Entry(old(queue.counter), close.tunnelId, q.header)]
      && queue.bodies
         == old(queue.bodies)[old(queue.counter) := if q.id in old(queue.bodies) then old(queue.bodies)[q.id] else []]
      && queue.counter == old(queue.counter) + 1
      && unchanged(bus) && bus.FailedIds() == old(bus.FailedIds()) && unchanged(control)
  {
    match outcome
    case Settled(digest) =>
      control.SetTunnelStatus(close.tunnelId, Closed, true);
    case Rejected(reason) =>
      bus.DeadLetter(close.tunnelId, reason);
    case Transient(_, _) =>
      var stored := queue.Body(q.id);
      var body := if stored.Some? then stored.value else [];
      var _ := queue.Enqueue(close.tunnelId, q.header, body);
  }

  /** Record the verdicts in turn and collect what to acknowledge. */
  method RecordVerdicts(queue: InMemorySettleQueue, control: ControlStore, bus: Bus, work: seq<Work>,
                        results: seq<Outcome>, ghost accepted: set<Bytes>) returns (toAck: seq<Entry>)
    requires |results| == |work|
    modifies queue, control, bus
    ensures View(queue, control, bus, Recording([], [], toAck), accepted)
         == RecordAll(old(View(queue, control, bus, Recording(work, results, []), accepted)))
  {
    toAck := [];
    ghost var goal := RecordAll(View(queue, control, bus, Recording(work, results, []), accepted));
    assert work[0..] == work && results[0..] == results;
    for k := 0 to |work|
      invariant RecordAll(View(queue, control, bus, Recording(work[k..], results[k..], toAck), accepted)) == goal
    {
      ghost var before := View(queue, control, bus, Recording(work[k..], results[k..], toAck), accepted);
      assert work[k..][1..] == work[k + 1..] && results[k..][1..] == results[k + 1..];
      RecordVerdict(queue, control, bus, work[k].entry, work[k].close, results[k]);
      toAck := toAck + [work[k].entry];
      ghost var after := View(queue, control, bus, Recording(work[k + 1..], results[k + 1..], toAck), accepted);
      assert before.workers[0].todo[0] == work[k] && before.workers[0].results[0] == results[k];
      assert after == RecordOne(before) by {
        hide RecordAll;
      }
    }
  }

  /** One claim, submit, record cycle. It is exactly the run of machine steps `Drain` describes. */
  method DrainOnce(queue: InMemorySettleQueue, control: ControlStore, bus: Bus, batchMax: nat, node: Node, tick: nat,
                   ghost accepted: set<Bytes>) returns (n: nat, used: nat)
    modifies queue, control, bus
    ensures (View(queue, control, bus, Idle, accepted), n, used)
         == Drain(old(View(queue, control, bus, Idle, accepted)), batchMax, node, tick)
  {
    hide SortAll, RecordAll, BatchOutcome;
    var claimed := queue.Claim(batchMax);
    if claimed == [] {
      assert queue.pending == old(queue.pending);
      return 0, 0;
    }
    ghost var s0 := old(View(queue, control, bus, Idle, accepted));
    assert s0.pending == claimed + queue.pending;
    assert View(queue, control, bus, Sorting(claimed, {}, []), accepted) == Next(s0, SettleProtocol.Claim(0, batchMax));
    var work, seen := SortClaim(queue, control, bus, claimed, accepted);
    ghost var sorted := View(queue, control, bus, Sorting([], seen, work), accepted);
    if work == [] {
      assert sorted.workers[0 := Idle] == [Idle];
      return 0, 0;
    }
    var results;
    results, used := SubmitCloseBatch(Closes(work), node, tick);
    assert sorted.workers[0 := Recording(work, results, [])] == [Recording(work, results, [])];
    assert View(queue, control, bus, Recording(work, results, []), accepted)
        == SetWorker(sorted, 0, Recording(work, results, []));
    var toAck := RecordVerdicts(queue, control, bus, work, results, accepted);
    ghost var recorded := View(queue, control, bus, Recording([], [], toAck), accepted);
    queue.Ack(toAck);
    n := |work|;
    assert recorded.workers[0 := Idle] == [Idle];
    assert View(queue, control, bus, Idle, accepted) == Next(recorded, Ack(0));
  }

  // ---------------------------------------------------------------------------------------------
  // The event indexer

  datatype TunnelEvent = TunnelEvent(tunnelId: string, kind: string)

  /** The status an event of the tunnel module stands for, if any. */
  function StatusOf(kind: string): Option<TunnelStatus> {
    if kind == "TunnelCreated" then Some(Created)
    else if kind == "TunnelActivated" then Some(Active)
    else if kind == "TunnelClosed" || kind == "TunnelClosedWithRoot" then Some(Closed)
    else None
  }

  /** The indexer's steps for a page of events. */
  ghost function ObserveAll(s: State, events: seq<TunnelEvent>): State
    decreases |events|
  {
    if events == [] then s
    else
      var status := StatusOf(events[0].kind);
      ObserveAll(if status.Some? then ObserveStep(s, events[0].tunnelId, status.value) else s, events[1..])
  }

  const CLOSING_KINDS: set<string> := { "TunnelClosed", "TunnelClosedWithRoot" }
  const TUNNEL_KINDS: set<string> := { "TunnelCreated", "TunnelActivated" } + CLOSING_KINDS

  /** Event `i` is the last of the page that says something about the tunnel's status. */
  ghost predicate LastAbout(events: seq<TunnelEvent>, i: int, id: string) {
    && 0 <= i < |events| && events[i].tunnelId == id && events[i].kind in TUNNEL_KINDS
    && forall j | i < j < |events| && events[j].tunnelId == id :: events[j].kind !in TUNNEL_KINDS
  }

  ghost predicate SilentAbout(events: seq<TunnelEvent>, id: string) {
    forall i | 0 <= i < |events| && events[i].tunnelId == id :: events[i].kind !in TUNNEL_KINDS
  }

  /** The registry after a page: each tunnel as its last event says, and as before if none says anything. */
  ghost predicate Folded(before: map<string, TunnelStatus>, events: seq<TunnelEvent>,
                         after: map<string, TunnelStatus>)
  {
    && (forall id | SilentAbout(events, id) ::
          (id in after <==> id in before) && (id in before ==> after[id] == before[id]))
    && (forall id, i | LastAbout(events, i, id) ::
          && id in after
          && (after[id] == Closed <==> events[i].kind in CLOSING_KINDS)
          && (after[id] == Created <==> events[i].kind == "TunnelCreated"))
  }

  lemma FoldedMore(before: map<string, TunnelStatus>, events: seq<TunnelEvent>, e: TunnelEvent,
                   after: map<string, TunnelStatus>)
    requires Folded(before, events, after)
    ensures var status := StatusOf(e.kind);
      Folded(before, events + [e], if status.Some? then after[e.tunnelId := status.value] else after)
  {
    var more := events + [e];
    forall id | SilentAbout(more, id)
      ensures SilentAbout(events, id) && (id == e.tunnelId ==> StatusOf(e.kind).None?)
    {
      assert forall i | 0 <= i < |events| :: more[i] == events[i];
      assert more[|events|] == e;
    }
    forall id, i | LastAbout(more, i, id)
      ensures if i == |events| then e.tunnelId == id && StatusOf(e.kind).Some?
              else LastAbout(events, i, id) && (e.tunnelId == id ==> StatusOf(e.kind).None?)
    {
      assert forall j | 0 <= j < |events| :: more[j] == events[j];
      assert more[|events|] == e;
    }
  }

  /** Fold a page of events into the registry: exactly the observations of the state machine, one per event, which
      leaves each tunnel as the last event about it says. */
  method FoldEvents(queue: InMemorySettleQueue, control: ControlStore, bus: Bus, events: seq<TunnelEvent>,
                    ghost worker: Worker, ghost accepted: set<Bytes>)
    modifies control
    ensures View(queue, control, bus, worker, accepted)
        == ObserveAll(old(View(queue, control, bus, worker, accepted)), events)
    ensures Folded(old(control.tunnels), events, control.tunnels)
  {
    hide Folded;
    NothingFolded(control.tunnels);
    assert events[0..] == events && events[..0] == [];
    for k := 0 to |events|
      invariant Folded(old(control.tunnels), events[..k], control.tunnels)
      invariant ObserveAll(View(queue, control, bus, worker, accepted), events[k..])
             == ObserveAll(old(View(queue, control, bus, worker, accepted)), events)
    {
      assert events[k..][1..] == events[k + 1..] && events[..k + 1] == events[..k] + [events[k]];
      FoldedMore(old(control.tunnels), events[..k], events[k], control.tunnels);
      var status := StatusOf(events[k].kind);
      if status.Some? {
        control.SetTunnelStatus(events[k].tunnelId, status.value, false);
      }
    }
    assert events[..|events|] == events;
  }

  lemma NothingFolded(tunnels: map<string, TunnelStatus>)
    ensures Folded(tunnels, [], tunnels)
  {
  }
}
