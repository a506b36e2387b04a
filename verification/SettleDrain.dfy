/** What draining the queue achieves: a drain is a run of the state machine, repeated drains empty the queue,
    and with a poisoned chain every settlement meets the fate it deserves. */
module SettleDrain {
  import opened Wrappers
  import opened Settlement
  import opened SettleHeader
  import opened SettleBatch
  import opened SettleProtocol
  import opened SettleProtocolProofs
  import opened SettleProtocolSafety
  import opened SettleWorker

  // ---------------------------------------------------------------------------------------------
  // A drain is a run

  /** `run` leads from one state to another by machine steps. */
  ghost predicate Leads(run: seq<State>, s: State, t: State) {
    IsRun(run) && run[0] == s && run[|run| - 1] == t
  }

  ghost predicate Reaches(s: State, t: State) {
    exists run: seq<State> :: Leads(run, s, t)
  }

  lemma ReachesItself(s: State)
    ensures Reaches(s, s)
  {
    assert Leads([s], s, s);
  }

  lemma ReachesFurther(s: State, t: State, a: Action)
    requires Reaches(s, t) && Enabled(t, a)
    ensures Reaches(s, Next(t, a))
  {
    var run: seq<State> :| Leads(run, s, t);
    var longer := run + [Next(t, a)];
    forall i | 0 <= i < |longer| - 1 ensures StepTo(longer[i], longer[i + 1]) {
      if i < |run| - 1 {
        assert StepTo(run[i], run[i + 1]);
      }
    }
    assert Leads(longer, s, Next(t, a));
  }

  lemma {:induction false} SortingReaches(s: State, t: State)
    requires Alone(t) && t.workers[0].Sorting? && Reaches(s, t)
    ensures Reaches(s, SortAll(t))
    decreases |t.workers[0].claimed|
  {
    hide Reaches;
    if t.workers[0].claimed != [] {
      ReachesFurther(s, t, Sort(0));
      SortingReaches(s, SortStep(t, 0));
    }
  }

  lemma RecordingOneReaches(s: State, t: State)
    requires Alone(t) && t.workers[0].Recording? && t.workers[0].todo != []
        && |t.workers[0].results| == |t.workers[0].todo|
    requires Reaches(s, t)
    ensures Reaches(s, RecordOne(t))
  {
    hide Reaches;
    ReachesFurther(s, t, Record(0));
    var u := RecordStep(t, 0);
    if u.workers[0].Requeueing? {
      ReachesFurther(s, u, Push(0));
    }
  }

  lemma {:induction false} RecordingReaches(s: State, t: State)
    requires Alone(t) && t.workers[0].Recording? && |t.workers[0].results| == |t.workers[0].todo| && Reaches(s, t)
    ensures Reaches(s, RecordAll(t))
    decreases |t.workers[0].todo|
  {
    hide Reaches;
    if t.workers[0].todo != [] {
      RecordingOneReaches(s, t);
      RecordingReaches(s, RecordOne(t));
    }
  }

  /** A drain cycle of one worker is a run of the state machine. */
  lemma DrainIsARun(s: State, max: nat, node: Node, tick: nat)
    requires Alone(s) && s.workers[0].Idle?
    ensures Reaches(s, Drain(s, max, node, tick).0)
  {
    hide Reaches, BatchOutcome, SortAll, RecordAll;
    ReachesItself(s);
    if s.pending != [] && max > 0 {
      var claimed := Next(s, Claim(0, max));
      ReachesFurther(s, s, Claim(0, max));
      SortingReaches(s, claimed);
      var sorted := SortAll(claimed);
      var work := sorted.workers[0].work;
      var results := BatchOutcome(Closes(work), node, tick).0;
      ReachesFurther(s, sorted, Submit(0, results));
      if work != [] {
        var submitted := SetWorker(sorted, 0, Recording(work, results, []));
        RecordingReaches(s, submitted);
        ReachesFurther(s, RecordAll(submitted), Ack(0));
      }
    }
  }

  /** A drain reports how many closes it put into its batch, and makes node calls only for a batch that is not empty;
      with nothing to claim it does nothing. */
  lemma DrainReports(s: State, max: nat, node: Node, tick: nat)
    requires Alone(s) && s.workers[0].Idle?
    ensures var (t, n, used) := Drain(s, max, node, tick);
      if s.pending == [] || max == 0 then t == s && n == used == 0
      else n == |SortAll(Next(s, Claim(0, max))).workers[0].work| && (used == 0 <==> n == 0)
  {
    hide SortAll, RecordAll, Isolate;
  }

  lemma {:induction false} RunKeepsInv(run: seq<State>, i: nat)
    requires IsRun(run) && Inv(run[0]) && i < |run|
    ensures Inv(run[i])
  {
    hide Inv;
    if i > 0 {
      RunKeepsInv(run, i - 1);
      assert StepTo(run[i - 1], run[i]);
      var a: Action :| Enabled(run[i - 1], a) && run[i] == Next(run[i - 1], a);
      StepKeepsInv(run[i - 1], a);
    }
  }

  lemma DrainKeepsInv(s: State, max: nat, node: Node, tick: nat)
    requires Alone(s) && s.workers[0].Idle? && Inv(s)
    ensures Inv(Drain(s, max, node, tick).0)
  {
    hide Inv, Drain;
    DrainIsARun(s, max, node, tick);
    var run: seq<State> :| Leads(run, s, Drain(s, max, node, tick).0);
    RunKeepsInv(run, |run| - 1);
  }

  /** Everything a drain submits pays out an accepted body: whatever transaction the chain sees, each close in it has
      the tunnel, balances, signatures, time and root of one. */
  lemma ChainSeesAccepted(s: State, max: nat, node: Node, tick: nat, j: nat, m: nat)
    returns (sub: seq<CloseArgs>, p: SettleBody, entries: Bytes)
    requires Alone(s) && s.workers[0].Idle? && Inv(s) && s.pending != [] && max > 0
    requires var closes := Closes(SortAll(Next(s, Claim(0, max))).workers[0].work);
      var log := Isolate(closes, Positions(|closes|), MAX_SETTLE_SPLIT_DEPTH, node.submit, tick + 2).log;
      j < |log| && m < |log[j].idxs|
    ensures var closes := Closes(SortAll(Next(s, Claim(0, max))).workers[0].work);
      var log := Isolate(closes, Positions(|closes|), MAX_SETTLE_SPLIT_DEPTH, node.submit, tick + 2).log;
      |sub| == |log[j].idxs| && log[j].outcome == node.submit(tick + 2 + j, sub)
    ensures m < |sub| && p.Fits() && EncodeHeader(p) + entries in s.accepted && PaysOut(sub[m], p)
  {
    hide Isolate, Inv, PaysOut, EncodeHeader, SortAll;
    var claimed := Next(s, Claim(0, max));
    ReachesItself(s);
    ReachesFurther(s, s, Claim(0, max));
    SortingReaches(s, claimed);
    SortingAcceptsNothing(claimed);
    var sorted := SortAll(claimed);
    var run: seq<State> :| Leads(run, s, sorted);
    RunKeepsInv(run, |run| - 1);
    var work := sorted.workers[0].work;
    var closes := Closes(work);
    LogIsWhatTheChainSaw(closes, Positions(|closes|), MAX_SETTLE_SPLIT_DEPTH, node.submit, tick + 2, j);
    var idxs := Isolate(closes, Positions(|closes|), MAX_SETTLE_SPLIT_DEPTH, node.submit, tick + 2).log[j].idxs;
    sub := SubBatch(closes, idxs);
    p, entries := InvPaysOut(sorted, 0, idxs[m]);
  }

  lemma InvPaysOut(s: State, w: nat, k: nat) returns (p: SettleBody, entries: Bytes)
    requires Inv(s) && w < |s.workers| && k < |WorkOf(s.workers[w])|
    ensures p.Fits() && EncodeHeader(p) + entries in s.accepted && PaysOut(WorkOf(s.workers[w])[k].close, p)
  {
    hide EntriesGenuine, WorkersSound, PaysOut, EncodeHeader, WorkOf;
    p, entries := WorkPaysOut(s, w, k);
  }

  lemma {:induction false} SortingAcceptsNothing(s: State)
    requires Alone(s) && s.workers[0].Sorting?
    ensures SortAll(s).accepted == s.accepted
    decreases |s.workers[0].claimed|
  {
    hide CloseArgsFromHeader;
    if s.workers[0].claimed != [] {
      SortingAcceptsNothing(SortStep(s, 0));
    }
  }

  // ---------------------------------------------------------------------------------------------
  // Repeated drains empty the queue

  lemma {:induction false} SortingLeavesTheRest(s: State)
    requires Alone(s) && s.workers[0].Sorting?
    ensures var t := SortAll(s);
      && t.pending == s.pending && t.settled == s.settled && t.observed == s.observed && t.accepted == s.accepted
      && |t.workers[0].work| <= |s.workers[0].work| + |s.workers[0].claimed|
    decreases |s.workers[0].claimed|
  {
    hide CloseArgsFromHeader;
    if s.workers[0].claimed != [] {
      SortingLeavesTheRest(SortStep(s, 0));
    }
  }

  ghost predicate NoneTransient(results: seq<Outcome>) {
    forall k | 0 <= k < |results| :: !results[k].Transient?
  }

  lemma {:induction false} RecordingPutsNothingBack(s: State)
    requires Alone(s) && s.workers[0].Recording? && |s.workers[0].results| == |s.workers[0].todo|
    requires NoneTransient(s.workers[0].results)
    ensures RecordAll(s).pending == s.pending
    decreases |s.workers[0].todo|
  {
    if s.workers[0].todo != [] {
      assert !s.workers[0].results[0].Transient?;
      RecordingPutsNothingBack(RecordOne(s));
    }
  }

  /** A drain of a waiting queue either calls the node or leaves fewer entries waiting; and once the node is no
      longer busy it always leaves fewer. */
  lemma DrainProgresses(s: State, max: nat, node: Node, tick: nat, from: nat)
    requires Alone(s) && s.workers[0].Idle? && s.pending != [] && max > 0 && NeverBusyFrom(node, from)
    ensures var (t, n, used) := Drain(s, max, node, tick);
      && (used > 0 || |t.pending| < |s.pending|)
      && (tick >= from ==> |t.pending| < |s.pending|)
  {
    hide SortAll, RecordAll;
    var claimed := Next(s, Claim(0, max));
    assert |claimed.pending| < |s.pending|;
    SortingLeavesTheRest(claimed);
    var sorted := SortAll(claimed);
    var work := sorted.workers[0].work;
    if work != [] && tick >= from {
      var closes := Closes(work);
      var results := BatchOutcome(closes, node, tick).0;
      forall k | 0 <= k < |results| ensures !results[k].Transient? {
        QuietNodeGivesNoTransient(closes, node, tick, from, k);
      }
      hide BatchOutcome;
      RecordingPutsNothingBack(SetWorker(sorted, 0, Recording(work, results, [])));
    }
  }

  // ---------------------------------------------------------------------------------------------
  // Every settlement meets the fate it deserves

  /** No bad tunnel is closed and only bad ones are announced as failed. */
  ghost predicate Deserved(s: State, bad: set<string>) {
    && (forall id | id in EverClosed(s) :: id !in bad)
    && (forall id | id in s.dead :: id in bad)
  }

  ghost function About(bad: set<string>): CloseArgs -> bool {
    (c: CloseArgs) => c.tunnelId in bad
  }

  ghost predicate VerdictsDeserved(work: seq<Work>, results: seq<Outcome>, bad: set<string>) {
    && |results| == |work|
    && forall k | 0 <= k < |work| ::
         && (results[k].Settled? ==> work[k].close.tunnelId !in bad)
         && (results[k].Rejected? ==> work[k].close.tunnelId in bad)
  }

  /** Sorting announces no failure: whatever was accepted can be parsed. */
  lemma {:induction false} SortingAnnouncesNothing(s: State)
    requires Alone(s) && s.workers[0].Sorting? && Inv(s)
    ensures SortAll(s).dead == s.dead
    decreases |s.workers[0].claimed|
  {
    if s.workers[0].claimed != [] {
      var q := s.workers[0].claimed[0];
      assert q in s.workers[0].Held() && HeldAt(s, q) && Genuine(s, q);
      hide Inv, CloseArgsFromHeader, Genuine, NormalizeTunnelId;
      StepKeepsInv(s, Sort(0));
      SortingAnnouncesNothing(SortStep(s, 0));
    }
  }

  lemma {:induction false} RecordingDeserved(s: State, bad: set<string>)
    requires Alone(s) && s.workers[0].Recording? && VerdictsDeserved(s.workers[0].todo, s.workers[0].results, bad)
    requires Deserved(s, bad)
    ensures Deserved(RecordAll(s), bad)
    decreases |s.workers[0].todo|
  {
    if s.workers[0].todo != [] {
      var x := s.workers[0];
      var t := RecordOne(s);
      assert Deserved(t, bad);
      assert VerdictsDeserved(x.todo[1..], x.results[1..], bad);
      hide RecordOne;
      RecordingDeserved(t, bad);
    }
  }

  lemma DrainDeserved(s: State, max: nat, node: Node, tick: nat, bad: set<string>)
    requires Alone(s) && s.workers[0].Idle? && Inv(s) && Deserved(s, bad)
    requires max <= 128 && NeverRefuses(node) && Poisons(node.submit, About(bad))
    ensures Deserved(Drain(s, max, node, tick).0, bad)
  {
    hide SortAll, RecordAll, Inv, BatchOutcome;
    if s.pending != [] && max > 0 {
      var claimed := Next(s, Claim(0, max));
      StepKeepsInv(s, Claim(0, max));
      SortingLeavesTheRest(claimed);
      SortingAnnouncesNothing(claimed);
      var sorted := SortAll(claimed);
      var work := sorted.workers[0].work;
      if work != [] {
        var closes := Closes(work);
        var results := BatchOutcome(closes, node, tick).0;
        forall k | 0 <= k < |work|
          ensures results[k].Settled? ==> work[k].close.tunnelId !in bad
          ensures results[k].Rejected? ==> work[k].close.tunnelId in bad
        {
          BatchIsolatedExactly(closes, TunnelIds(closes), node, tick, About(bad));
          assert !RefusedBeforeSubmission(TunnelIds(closes), node, tick);
        }
        RecordingDeserved(SetWorker(sorted, 0, Recording(work, results, [])), bad);
      }
    }
  }

  /** Drain until nothing waits. The node may be busy any finite number of times, may fail any batch, and may reject at
      will, and still the queue empties with every accepted settlement closed, by a worker or as seen on the chain, or
      announced as failed, and no body left behind. If moreover it rejects exactly the transactions that hold a bad
      tunnel, and batches stay within 128, then every accepted tunnel is closed if it is good and announced as failed if
      it is bad. */
  method DrainAll(queue: InMemorySettleQueue, control: ControlStore, bus: Bus, batchMax: nat, node: Node,
                  ghost from: nat, ghost accepted: set<Bytes>, ghost bad: set<string>)
    requires batchMax > 0 && NeverBusyFrom(node, from)
    requires Inv(View(queue, control, bus, Idle, accepted))
    modifies queue, control, bus
    ensures queue.pending == [] && queue.bodies == map[]
    ensures forall b | b in accepted ::
      && CloseArgsFromHeader(b).Ok?
      && (Tunnel(b) in control.settled + control.observed || Tunnel(b) in bus.FailedIds())
    ensures
      && batchMax <= 128 && NeverRefuses(node) && Poisons(node.submit, About(bad))
      && old(Deserved(View(queue, control, bus, Idle, accepted), bad))
      ==> forall b | b in accepted ::
            if Tunnel(b) in bad then Tunnel(b) in bus.FailedIds() && Tunnel(b) !in control.settled + control.observed
            else Tunnel(b) in control.settled + control.observed && Tunnel(b) !in bus.FailedIds()
  {
    hide Inv, Drain, Poisons;
    var tick := 0;
    ghost var fair := batchMax <= 128 && NeverRefuses(node) && Poisons(node.submit, About(bad))
                      && Deserved(View(queue, control, bus, Idle, accepted), bad);
    while queue.pending != []
      invariant Inv(View(queue, control, bus, Idle, accepted))
      invariant fair ==> batchMax <= 128 && NeverRefuses(node) && Poisons(node.submit, About(bad))
                         && Deserved(View(queue, control, bus, Idle, accepted), bad)
      decreases if tick < from then from - tick else 0, |queue.pending|
    {
      ghost var s := View(queue, control, bus, Idle, accepted);
      DrainProgresses(s, batchMax, node, tick, from);
      DrainKeepsInv(s, batchMax, node, tick);
      if fair {
        DrainDeserved(s, batchMax, node, tick, bad);
      }
      var n, used := DrainOnce(queue, control, bus, batchMax, node, tick, accepted);
      tick := tick + used;
    }
    QuietMeansDecided(View(queue, control, bus, Idle, accepted));
  }

  // ---------------------------------------------------------------------------------------------
  // When a batch can hold a tunnel twice

  ghost predicate NoTunnelTwice(work: seq<Work>) {
    forall j, k | 0 <= j < k < |work| :: work[j].close.tunnelId != work[k].close.tunnelId
  }

  /** Two claimed entries about one open tunnel, queued under different spellings of its id. */
  ghost predicate Aliased(s: State, es: seq<Entry>) {
    exists j, k | 0 <= j < k < |es| ::
      && es[j].tunnelId != es[k].tunnelId
      && es[j].tunnelId !in s.closed && es[k].tunnelId !in s.closed
      && CloseArgsFromHeader(es[j].header).Ok? && CloseArgsFromHeader(es[k].header).Ok?
      && Tunnel(es[j].header) == Tunnel(es[k].header)
  }

  /** The ids of the work are among those seen, and no two of them are equal. */
  ghost predicate WorkByDistinctIds(x: Worker)
    requires x.Sorting?
  {
    && (forall k | 0 <= k < |x.work| :: x.work[k].entry.tunnelId in x.seen)
    && (forall j, k | 0 <= j < k < |x.work| :: x.work[j].entry.tunnelId != x.work[k].entry.tunnelId)
  }

  /** Everything sorting keeps was claimed, can be parsed, and was not closed. */
  ghost predicate WorkFrom(s: State, es: seq<Entry>, work: seq<Work>) {
    forall k | 0 <= k < |work| :: work[k].entry in es && Parsed(work[k]) && work[k].entry.tunnelId !in s.closed
  }

  /** Every id that is claimed, parsed and open is represented in the work. */
  ghost predicate Represented(s: State, e: Entry, work: seq<Work>) {
    e.tunnelId !in s.closed && CloseArgsFromHeader(e.header).Ok? ==>
      exists k | 0 <= k < |work| :: work[k].entry.tunnelId == e.tunnelId
  }

  /** Every open id seen is that of an entry sorted so far. */
  ghost predicate SeenFrom(s: State, es: seq<Entry>, done: nat, seen: set<string>)
    requires done <= |es|
  {
    forall id | id in seen && id !in s.closed :: exists i :: 0 <= i < done && es[i].tunnelId == id
  }

  /** Sorting an entry that can be parsed. */
  lemma SortStepEffect(s: State)
    requires Alone(s) && s.workers[0].Sorting? && s.workers[0].claimed != []
    requires CloseArgsFromHeader(s.workers[0].claimed[0].header).Ok?
    ensures var t := SortStep(s, 0);
      var x, q := s.workers[0], s.workers[0].claimed[0];
      && t.closed == s.closed && Alone(t)
      && t.workers[0] == Sorting(x.claimed[1..], x.seen + {q.tunnelId},
                                 if q.tunnelId in x.seen || q.tunnelId in s.closed then x.work
                                 else x.work + [Work(q, CloseArgsFromHeader(q.header).value)])
  {
    hide CloseArgsFromHeader;
  }

  lemma SortStepKeepsBooks(s: State, es: seq<Entry>, done: nat)
    requires Alone(s) && s.workers[0].Sorting? && done < |es| && s.workers[0].claimed == es[done..]
    requires WorkByDistinctIds(s.workers[0]) && WorkFrom(s, es, s.workers[0].work)
    requires forall i | 0 <= i < done :: Represented(s, es[i], s.workers[0].work)
    requires SeenFrom(s, es, done, s.workers[0].seen)
    requires forall i | 0 <= i < |es| :: CloseArgsFromHeader(es[i].header).Ok?
    ensures var t := SortStep(s, 0);
      && t.workers[0].claimed == es[done + 1..] && t.closed == s.closed
      && WorkByDistinctIds(t.workers[0]) && WorkFrom(t, es, t.workers[0].work)
      && (forall i | 0 <= i < done + 1 :: Represented(t, es[i], t.workers[0].work))
      && SeenFrom(t, es, done + 1, t.workers[0].seen)
  {
    hide CloseArgsFromHeader, SortStep;
    assert s.workers[0].claimed[0] == es[done] && s.workers[0].claimed[1..] == es[done + 1..];
    SortStepEffect(s);
    var t := SortStep(s, 0);
    SortStepWork(s, t, es, es[done]);
    SortStepRepresents(s, t, es, done);
    SortStepSeen(s, t, es, done);
  }

  /** The worker after sorting `q`, which can be parsed. */
  ghost predicate Sorted(s: State, t: State, q: Entry) {
    && Alone(s) && Alone(t) && s.workers[0].Sorting? && t.workers[0].Sorting? && t.closed == s.closed
    && CloseArgsFromHeader(q.header).Ok?
    && t.workers[0].seen == s.workers[0].seen + {q.tunnelId}
    && t.workers[0].work == if q.tunnelId in s.workers[0].seen || q.tunnelId in s.closed then s.workers[0].work
                            else s.workers[0].work + [Work(q, CloseArgsFromHeader(q.header).value)]
  }

  lemma SortStepWork(s: State, t: State, es: seq<Entry>, q: Entry)
    requires Sorted(s, t, q) && q in es && WorkByDistinctIds(s.workers[0]) && WorkFrom(s, es, s.workers[0].work)
    ensures WorkByDistinctIds(t.workers[0]) && WorkFrom(t, es, t.workers[0].work)
  {
    hide CloseArgsFromHeader;
  }

  lemma SortStepRepresents(s: State, t: State, es: seq<Entry>, done: nat)
    requires done < |es| && Sorted(s, t, es[done]) && SeenFrom(s, es, done, s.workers[0].seen)
    requires forall i | 0 <= i < |es| :: CloseArgsFromHeader(es[i].header).Ok?
    requires forall i | 0 <= i < done :: Represented(s, es[i], s.workers[0].work)
    ensures forall i | 0 <= i < done + 1 :: Represented(t, es[i], t.workers[0].work)
  {
    hide CloseArgsFromHeader;
    var q, before, after := es[done], s.workers[0].work, t.workers[0].work;
    assert forall k | 0 <= k < |before| :: after[k] == before[k];
    forall i | 0 <= i < done + 1 ensures Represented(t, es[i], after) {
      if i < done {
        assert Represented(s, es[i], before);
      } else if q.tunnelId in s.workers[0].seen && q.tunnelId !in s.closed {
        var j :| 0 <= j < done && es[j].tunnelId == q.tunnelId;
        assert Represented(s, es[j], before);
      } else if q.tunnelId !in s.closed {
        assert after[|before|].entry == q;
      }
    }
  }

  lemma SortStepSeen(s: State, t: State, es: seq<Entry>, done: nat)
    requires done < |es| && Sorted(s, t, es[done]) && SeenFrom(s, es, done, s.workers[0].seen)
    ensures SeenFrom(t, es, done + 1, t.workers[0].seen)
  {
    hide CloseArgsFromHeader;
    forall id | id in t.workers[0].seen && id !in t.closed
      ensures exists i :: 0 <= i < done + 1 && es[i].tunnelId == id
    {
      if id in s.workers[0].seen {
        var i :| 0 <= i < done && es[i].tunnelId == id;
      } else {
        assert es[done].tunnelId == id;
      }
    }
  }

  lemma {:induction false} SortingKeepsBooks(s: State, es: seq<Entry>, done: nat)
    requires Alone(s) && s.workers[0].Sorting? && done <= |es| && s.workers[0].claimed == es[done..]
    requires WorkByDistinctIds(s.workers[0]) && WorkFrom(s, es, s.workers[0].work)
    requires forall i | 0 <= i < done :: Represented(s, es[i], s.workers[0].work)
    requires SeenFrom(s, es, done, s.workers[0].seen)
    requires forall i | 0 <= i < |es| :: CloseArgsFromHeader(es[i].header).Ok?
    ensures var t := SortAll(s);
      && t.closed == s.closed && WorkByDistinctIds(t.workers[0]) && WorkFrom(t, es, t.workers[0].work)
      && (forall i | 0 <= i < |es| :: Represented(t, es[i], t.workers[0].work))
    decreases |es| - done
  {
    if done < |es| {
      SortStepKeepsBooks(s, es, done);
      hide Represented, WorkFrom, WorkByDistinctIds, CloseArgsFromHeader;
      assert SortAll(s) == SortAll(SortStep(s, 0));
      SortingKeepsBooks(SortStep(s, 0), es, done + 1);
    }
  }

  /** Entries queued under ids that normalize to their own tunnel. */
  ghost predicate NamedForTheirTunnel(es: seq<Entry>) {
    forall i | 0 <= i < |es| ::
      CloseArgsFromHeader(es[i].header).Ok?
          && NormalizeTunnelId(es[i].tunnelId) == NormalizeTunnelId(Tunnel(es[i].header))
  }

  /** A batch built from a claim holds some tunnel twice exactly when the claim holds that open tunnel under two
      spellings of its id. */
  lemma TunnelTwiceExactlyWhenAliased(s: State, es: seq<Entry>)
    requires Alone(s) && s.workers[0] == Sorting(es, {}, []) && NamedForTheirTunnel(es)
    ensures NoTunnelTwice(SortAll(s).workers[0].work) <==> !Aliased(s, es)
  {
    hide SortAll, CloseArgsFromHeader, NormalizeTunnelId, Represented;
    assert es[0..] == es;
    SortingKeepsBooks(s, es, 0);
    var t := SortAll(s);
    var work := t.workers[0].work;
    assert WorkFrom(s, es, work);
    hide WorkFrom;
    if !NoTunnelTwice(work) {
      var j, k :| 0 <= j < k < |work| && work[j].close.tunnelId == work[k].close.tunnelId;
      AliasFound(s, es, work, j, k);
    }
    if Aliased(s, es) {
      var j, k :| 0 <= j < k < |es| && es[j].tunnelId != es[k].tunnelId
        && es[j].tunnelId !in s.closed && es[k].tunnelId !in s.closed && Tunnel(es[j].header) == Tunnel(es[k].header);
      AliasSubmitted(t, es, work, j, k);
    }
  }

  lemma AliasFound(s: State, es: seq<Entry>, work: seq<Work>, j: nat, k: nat)
    requires WorkFrom(s, es, work) && j < k < |work| && work[j].close.tunnelId == work[k].close.tunnelId
    requires work[j].entry.tunnelId != work[k].entry.tunnelId
    ensures Aliased(s, es)
  {
    hide CloseArgsFromHeader;
    var a: nat :| a < |es| && es[a] == work[j].entry;
    var b: nat :| b < |es| && es[b] == work[k].entry;
    assert Tunnel(es[a].header) == Tunnel(es[b].header);
    if a < b {
      assert Aliased(s, es);
    } else {
      assert es[b].tunnelId != es[a].tunnelId;
    }
  }

  lemma AliasSubmitted(s: State, es: seq<Entry>, work: seq<Work>, j: nat, k: nat)
    requires NamedForTheirTunnel(es) && WorkFrom(s, es, work) && j < k < |es|
    requires Represented(s, es[j], work) && Represented(s, es[k], work)
    requires es[j].tunnelId != es[k].tunnelId && es[j].tunnelId !in s.closed && es[k].tunnelId !in s.closed
    requires Tunnel(es[j].header) == Tunnel(es[k].header)
    ensures !NoTunnelTwice(work)
  {
    hide CloseArgsFromHeader, NormalizeTunnelId;
    var a :| 0 <= a < |work| && work[a].entry.tunnelId == es[j].tunnelId;
    var b :| 0 <= b < |work| && work[b].entry.tunnelId == es[k].tunnelId;
    OneTunnel(work[a].entry.header, es[j].header);
    OneTunnel(work[b].entry.header, es[k].header);
    assert work[a].close.tunnelId == work[b].close.tunnelId;
    if a < b {
      assert !NoTunnelTwice(work);
    } else {
      assert work[b].close.tunnelId == work[a].close.tunnelId;
    }
  }

  /** The handler accepts a body under the id in it, and under the same id without its prefix. */
  lemma TwoSpellingsAccepted(body: Bytes)
    requires CloseArgsFromHeader(body).Ok?
    ensures var id := Tunnel(body);
      && |id| >= 2 && id != id[2..]
      && SettleReply(id, body, {}) == Accepted && SettleReply(id[2..], body, {}) == Accepted
  {
    hide NormalizeTunnelId, HexEncode, FromBigEndian;
    var tunnel := body[1..33];
    var id := Tunnel(body);
    assert id == "0x" + HexEncode(tunnel);
    assert id[2..] == HexEncode(tunnel);
    NormalizeCanonical(tunnel);
  }

  /** One body sent twice, under both spellings of its tunnel's id, once nothing else is going on. */
  ghost function BothAccepted(s: State, body: Bytes): State
    requires |body| >= SETTLE_BODY_HEADER_LEN && CloseArgsFromHeader(body).Ok? && |Tunnel(body)| >= 2
  {
    AcceptStep(AcceptStep(s, Tunnel(body), body), Tunnel(body)[2..], body)
  }

  lemma BothAcceptedReached(s: State, body: Bytes)
    requires |body| >= SETTLE_BODY_HEADER_LEN && CloseArgsFromHeader(body).Ok? && |Tunnel(body)| >= 2
    ensures Reaches(s, BothAccepted(s, body))
  {
    hide Reaches, CloseArgsFromHeader;
    var id := Tunnel(body);
    TwoSpellingsAccepted(body);
    ReachesItself(s);
    assert SettleReply(id, body, {}) == Accepted && SettleReply(id[2..], body, {}) == Accepted;
    ReachesFurther(s, s, Accept(id, body));
    ReachesFurther(s, AcceptStep(s, id, body), Accept(id[2..], body));
  }

  /** Both entries pushed, and then claimed. */
  ghost function BothQueued(s: State, body: Bytes): State
    requires |body| >= SETTLE_BODY_HEADER_LEN && CloseArgsFromHeader(body).Ok? && |Tunnel(body)| >= 2
  {
    var id, header := Tunnel(body), body[..SETTLE_BODY_HEADER_LEN];
    var pending := [Entry(s.counter, id, header), Entry(s.counter + 1, id[2..], header)];
    BothAccepted(s, body).(publishing := [], pending := pending)
  }

  ghost function BothClaimed(s: State, body: Bytes): State
    requires Alone(s) && |body| >= SETTLE_BODY_HEADER_LEN && CloseArgsFromHeader(body).Ok? && |Tunnel(body)| >= 2
  {
    var x := BothQueued(s, body);
    x.(pending := [], workers := [Sorting(x.pending, {}, [])])
  }

  lemma BothQueuedReached(s: State, body: Bytes)
    requires Initial(s) && Alone(s)
    requires |body| >= SETTLE_BODY_HEADER_LEN && CloseArgsFromHeader(body).Ok? && |Tunnel(body)| >= 2
    ensures Reaches(s, BothQueued(s, body)) && Alone(BothQueued(s, body)) && BothQueued(s, body).workers[0].Idle?
    ensures Next(BothQueued(s, body), Claim(0, 2)) == BothClaimed(s, body)
    ensures Reaches(s, BothClaimed(s, body))
  {
    BothAcceptedReached(s, body);
    hide Reaches, CloseArgsFromHeader;
    var id, header := Tunnel(body), body[..SETTLE_BODY_HEADER_LEN];
    var one, two := Entry(s.counter, id, header), Entry(s.counter + 1, id[2..], header);
    var u := BothAccepted(s, body);
    assert u.publishing == [one, two];
    ReachesFurther(s, u, Publish(0));
    var v := u.(publishing := [two], pending := [one]);
    assert Next(u, Publish(0)) == v;
    ReachesFurther(s, v, Publish(0));
    var x := u.(publishing := [], pending := [one, two]);
    assert Next(v, Publish(0)) == x;
    ReachesFurther(s, x, Claim(0, 2));
    assert x.pending[..2] == [one, two] && x.pending[2..] == [];
    assert x.workers[0 := Sorting([one, two], {}, [])] == [Sorting([one, two], {}, [])];
  }

  /** The failing input: from any quiet start, a body sent under its tunnel's id with and without the prefix is claimed
      and sorted into a batch that holds the tunnel twice. */
  lemma AliasedBatchReached(s: State, body: Bytes) returns (t: State)
    requires Initial(s) && Alone(s) && CloseArgsFromHeader(body).Ok?
    ensures Reaches(s, t) && Alone(t) && t.workers[0].Sorting? && t.workers[0].claimed == []
    ensures |t.workers[0].work| == 2
    ensures t.workers[0].work[0].close.tunnelId == t.workers[0].work[1].close.tunnelId == Tunnel(body)
  {
    BodyAndHeaderAgree(body);
    TwoSpellingsAccepted(body);
    BothQueuedReached(s, body);
    hide Reaches, CloseArgsFromHeader, SettleReply;
    var u := BothClaimed(s, body);
    var one, two := u.workers[0].claimed[0], u.workers[0].claimed[1];
    assert u.workers[0] == Sorting([one, two], {}, []);
    t := TwoSorted(s, u, one, two);
  }

  lemma TwoSorted(s: State, u: State, one: Entry, two: Entry) returns (t: State)
    requires Reaches(s, u) && Alone(u) && u.workers[0] == Sorting([one, two], {}, []) && u.closed == {}
    requires one.tunnelId != two.tunnelId && CloseArgsFromHeader(one.header).Ok? && CloseArgsFromHeader(two.header).Ok?
    ensures Reaches(s, t) && Alone(t) && t.workers[0].Sorting? && t.workers[0].claimed == []
    ensures t.workers[0].work == [Work(one, CloseArgsFromHeader(one.header).value),
        Work(two, CloseArgsFromHeader(two.header).value)]
  {
    hide Reaches, CloseArgsFromHeader, SortStep;
    ReachesFurther(s, u, Sort(0));
    SortStepEffect(u);
    var v := SortStep(u, 0);
    assert [one, two][1..] == [two];
    ReachesFurther(s, v, Sort(0));
    SortStepEffect(v);
    t := SortStep(v, 0);
  }
}
