/** A batch on a chain with state, where a tunnel closes once: which closes settle, and when a tunnel ends both closed
    and announced as failed. */
module SettleStateful {
  import opened Numbers
  import opened Wrappers
  import opened Settlement
  import opened SettleHeader
  import opened SettleBatch
  import opened SettleProtocol
  import opened SettleProtocolSafety
  import opened SettleWorker
  import opened SettleDrain

  /** Submission `p` holds position `i`, which is about the tunnel. */
  ghost predicate Carries(closes: seq<CloseArgs>, log: seq<Attempt>, p: nat, i: nat, id: string) {
    p < |log| && i in log[p].idxs && i < |closes| && closes[i].tunnelId == id
  }

  ghost predicate SettledBefore(closes: seq<CloseArgs>, log: seq<Attempt>, p: nat, id: string) {
    exists q: nat, i: nat :: q < p && Carries(closes, log, q, i, id) && log[q].outcome.Settled?
  }

  /** Every tunnel of the submission can close now, and none is in it twice. */
  ghost predicate Closable(closes: seq<CloseArgs>, log: seq<Attempt>, p: nat, bad: set<string>)
    requires p < |log|
  {
    && (forall i: nat, id | Carries(closes, log, p, i, id) :: id !in bad && !SettledBefore(closes, log, p, id))
    && (forall i: nat, j: nat, id | Carries(closes, log, p, i, id) && Carries(closes, log, p, j, id) :: i == j)
  }

  /** A chain that is never busy and settles a submission exactly when its tunnels are good, distinct, and not closed by
      an earlier submission. */
  ghost predicate ClosesOnce(closes: seq<CloseArgs>, log: seq<Attempt>, bad: set<string>) {
    forall p: nat | p < |log| ::
      !log[p].outcome.Transient? && (log[p].outcome.Settled? <==> Closable(closes, log, p, bad))
  }

  /** Within the split limit a rejected close was rejected in a submission of its own. */
  lemma {:induction false} RejectedAlone(closes: seq<CloseArgs>, idxs: seq<nat>, levels: nat, chain: Chain, tick: nat,
                                         k: nat)
    returns (p: nat)
    requires Within(closes, idxs) && k < |idxs| <= Pow2(levels)
    requires Isolate(closes, idxs, levels, chain, tick).results[k].Rejected?
    ensures var log := Isolate(closes, idxs, levels, chain, tick).log;
      p < |log| && log[p].idxs == [idxs[k]] && log[p].outcome.Rejected?
    decreases |idxs|
  {
    hide Isolate;
    if chain(tick, SubBatch(closes, idxs)).Rejected? && |idxs| != 1 && levels > 0 {
      var mid := |idxs| / 2;
      var right, left := IsolateSplits(closes, idxs, levels, chain, tick);
      if k < mid {
        var q := RejectedAlone(closes, idxs[..mid], levels - 1, chain, tick + 1 + |right.log|, k);
        p := 1 + |right.log| + q;
      } else {
        var q := RejectedAlone(closes, idxs[mid..], levels - 1, chain, tick + 1, k - mid);
        p := 1 + q;
      }
    } else {
      IsolateStops(closes, idxs, levels, chain, tick);
      p := 0;
    }
  }

  /** The isolation of a whole batch. */
  ghost function Whole(closes: seq<CloseArgs>, levels: nat, chain: Chain, tick: nat): Isolation {
    Isolate(closes, Positions(|closes|), levels, chain, tick)
  }

  /** Each close is decided by one submission that carries it; every other that does was rejected before. */
  lemma Decided(closes: seq<CloseArgs>, levels: nat, chain: Chain, tick: nat, k: nat) returns (p: nat)
    requires k < |closes|
    ensures var r := Whole(closes, levels, chain, tick);
      Decides(r.log, p, k) && k < |r.results| && r.results[k] == r.log[p].outcome
  {
    hide Isolate;
    p := DecidedOnce(closes, Positions(|closes|), levels, chain, tick, k);
  }

  lemma AloneClosable(closes: seq<CloseArgs>, log: seq<Attempt>, p: nat, bad: set<string>, k: nat)
    requires p < |log| && log[p].idxs == [k] && k < |closes| && closes[k].tunnelId !in bad
    ensures Closable(closes, log, p, bad) <==> !SettledBefore(closes, log, p, closes[k].tunnelId)
  {
    hide SettledBefore;
    assert Carries(closes, log, p, k, closes[k].tunnelId);
  }

  /** A close whose tunnel can close is settled, or another close of its tunnel is. */
  lemma GoodIsSettled(closes: seq<CloseArgs>, levels: nat, chain: Chain, tick: nat, bad: set<string>, k: nat)
    returns (j: nat)
    requires k < |closes| <= Pow2(levels) && closes[k].tunnelId !in bad
    requires ClosesOnce(closes, Whole(closes, levels, chain, tick).log, bad)
    ensures j < |closes| && closes[j].tunnelId == closes[k].tunnelId
    ensures j < |Whole(closes, levels, chain, tick).results| && Whole(closes, levels, chain, tick).results[j].Settled?
  {
    hide Isolate;
    var r, id := Whole(closes, levels, chain, tick), closes[k].tunnelId;
    var p := Decided(closes, levels, chain, tick, k);
    j := k;
    if !r.results[k].Settled? {
      var q := RejectedAlone(closes, Positions(|closes|), levels, chain, tick, k);
      AloneClosable(closes, r.log, q, bad, k);
      var o: nat, i: nat :| o < q && Carries(closes, r.log, o, i, id) && r.log[o].outcome.Settled?;
      var at := Decided(closes, levels, chain, tick, i);
      j := i;
    }
  }

  /** No tunnel is settled twice. */
  lemma SettledOnlyOnce(closes: seq<CloseArgs>, levels: nat, chain: Chain, tick: nat, bad: set<string>, j: nat, k: nat)
    requires j < |closes| && k < |closes| && closes[j].tunnelId == closes[k].tunnelId
    requires var r := Whole(closes, levels, chain, tick);
      && ClosesOnce(closes, r.log, bad)
      && j < |r.results| && k < |r.results| && r.results[j].Settled? && r.results[k].Settled?
    ensures j == k && closes[k].tunnelId !in bad
  {
    hide Isolate;
    var r, id := Whole(closes, levels, chain, tick), closes[k].tunnelId;
    var p := Decided(closes, levels, chain, tick, j);
    var q := Decided(closes, levels, chain, tick, k);
    assert Carries(closes, r.log, p, j, id) && Carries(closes, r.log, q, k, id);
    assert Closable(closes, r.log, p, bad) && Closable(closes, r.log, q, bad);
    assert p < q ==> SettledBefore(closes, r.log, q, id);
    assert q < p ==> SettledBefore(closes, r.log, p, id);
  }

  ghost predicate HasVerdict(closes: seq<CloseArgs>, results: seq<Outcome>, id: string, settled: bool) {
    exists k :: 0 <= k < |closes| && k < |results| && closes[k].tunnelId == id
                && if settled then results[k].Settled? else results[k].Rejected?
  }

  ghost predicate HeldTwice(closes: seq<CloseArgs>, id: string) {
    exists j, k :: 0 <= j < k < |closes| && closes[j].tunnelId == closes[k].tunnelId == id
  }

  /** Within the split limit, on a chain that closes each tunnel once: a good tunnel of the batch is settled by exactly
      one of its closes, and rejected by the others; so it gets both verdicts exactly when the batch holds it twice. */
  lemma BothVerdictsExactly(closes: seq<CloseArgs>, levels: nat, chain: Chain, tick: nat, bad: set<string>, k: nat)
    requires k < |closes| <= Pow2(levels) && closes[k].tunnelId !in bad
    requires ClosesOnce(closes, Whole(closes, levels, chain, tick).log, bad)
    ensures var results, id := Whole(closes, levels, chain, tick).results, closes[k].tunnelId;
      && HasVerdict(closes, results, id, true)
      && (HasVerdict(closes, results, id, false) <==> HeldTwice(closes, id))
  {
    hide ClosesOnce, Whole, Isolate;
    var r, id := Whole(closes, levels, chain, tick), closes[k].tunnelId;
    var j := GoodIsSettled(closes, levels, chain, tick, bad, k);
    if i :| 0 <= i < |closes| && i < |r.results| && closes[i].tunnelId == id && r.results[i].Rejected? {
      assert i != j;
      if i < j {
        assert closes[i].tunnelId == closes[j].tunnelId == id;
      } else {
        assert closes[j].tunnelId == closes[i].tunnelId == id;
      }
    }
    if HeldTwice(closes, id) {
      var a: nat, b: nat :| a < b < |closes| && closes[a].tunnelId == closes[b].tunnelId == id;
      var other := if a == j then b else a;
      NeverTransient(closes, levels, chain, tick, bad, other);
      if r.results[other].Settled? {
        SettledOnlyOnce(closes, levels, chain, tick, bad, j, other);
      }
    }
  }

  lemma NeverTransient(closes: seq<CloseArgs>, levels: nat, chain: Chain, tick: nat, bad: set<string>, k: nat)
    requires k < |closes| && ClosesOnce(closes, Whole(closes, levels, chain, tick).log, bad)
    ensures var results := Whole(closes, levels, chain, tick).results; k < |results| && !results[k].Transient?
  {
    hide Isolate;
    var p := Decided(closes, levels, chain, tick, k);
  }

  // ---- One drain ----

  /** Recording adds to the histories exactly what the verdicts say. */
  lemma {:induction false} RecordingAnnounces(s: State, id: string)
    requires Alone(s) && s.workers[0].Recording? && |s.workers[0].results| == |s.workers[0].todo|
    ensures var t, x := RecordAll(s), s.workers[0];
      && (id in t.settled <==> id in s.settled || HasVerdict(Closes(x.todo), x.results, id, true))
      && (id in t.dead <==> id in s.dead || HasVerdict(Closes(x.todo), x.results, id, false))
    decreases |s.workers[0].todo|
  {
    var x := s.workers[0];
    if x.todo != [] {
      var t := RecordOne(s);
      FirstVerdict(x.todo, x.results, id, true);
      FirstVerdict(x.todo, x.results, id, false);
      hide HasVerdict;
      RecordingAnnounces(t, id);
    }
  }

  lemma FirstVerdict(todo: seq<Work>, results: seq<Outcome>, id: string, settled: bool)
    requires todo != [] && |results| == |todo|
    ensures HasVerdict(Closes(todo), results, id, settled) <==>
      || (todo[0].close.tunnelId == id && if settled then results[0].Settled? else results[0].Rejected?)
      || HasVerdict(Closes(todo[1..]), results[1..], id, settled)
  {
    var all, rest := Closes(todo), Closes(todo[1..]);
    assert forall k | 0 <= k < |rest| :: rest[k] == all[k + 1] && results[1..][k] == results[k + 1];
    assert all[0] == todo[0].close;
    if HasVerdict(rest, results[1..], id, settled) {
      var k :| 0 <= k < |rest| && k < |results[1..]| && rest[k].tunnelId == id
               && if settled then results[1..][k].Settled? else results[1..][k].Rejected?;
      assert all[k + 1].tunnelId == id;
    }
    if HasVerdict(all, results, id, settled) {
      var k :| 0 <= k < |all| && k < |results| && all[k].tunnelId == id
               && if settled then results[k].Settled? else results[k].Rejected?;
      assert k > 0 ==> rest[k - 1].tunnelId == id;
    }
  }

  /** The batch a drain builds from its claim. */
  ghost function BatchOf(s: State, max: nat): seq<CloseArgs>
    requires Alone(s) && s.workers[0].Idle? && s.pending != [] && max > 0
  {
    Closes(SortAll(Next(s, Claim(0, max))).workers[0].work)
  }

  /** One drain of at most 128 closes, with nothing refused, on a chain that closes each tunnel once: a good tunnel of
      its batch, without a verdict before, ends closed, and ends announced as failed too exactly when the batch holds it
      twice. */
  lemma ClosedAndFailedExactly(s: State, max: nat, node: Node, tick: nat, bad: set<string>, id: string)
    requires Alone(s) && s.workers[0].Idle? && Inv(s) && s.pending != [] && 0 < max <= 128
    requires id !in bad && id !in s.settled && id !in s.dead
    requires var closes := BatchOf(s, max);
      && node.resolve(tick, TunnelIds(closes)).None? && node.epoch(tick + 1).None?
      && ClosesOnce(closes, Whole(closes, MAX_SETTLE_SPLIT_DEPTH, node.submit, tick + 2).log, bad)
      && exists k :: 0 <= k < |closes| && closes[k].tunnelId == id
    ensures var t := Drain(s, max, node, tick).0;
      id in t.settled && (id in t.dead <==> HeldTwice(BatchOf(s, max), id))
  {
    hide SortAll, RecordAll, Inv, ClosesOnce, Isolate, HasVerdict, HeldTwice;
    var claimed := Next(s, Claim(0, max));
    StepKeepsInv(s, Claim(0, max));
    SortingLeavesTheRest(claimed);
    SortingAnnouncesNothing(claimed);
    var sorted := SortAll(claimed);
    var work := sorted.workers[0].work;
    var closes := Closes(work);
    var results := BatchOutcome(closes, node, tick).0;
    assert results == Whole(closes, MAX_SETTLE_SPLIT_DEPTH, node.submit, tick + 2).results;
    assert |work| <= 128;
    DepthCovers();
    var k: nat :| k < |closes| && closes[k].tunnelId == id;
    BothVerdictsExactly(closes, MAX_SETTLE_SPLIT_DEPTH, node.submit, tick + 2, bad, k);
    RecordingAnnounces(SetWorker(sorted, 0, Recording(work, results, [])), id);
  }

  lemma DepthCovers()
    ensures Pow2(MAX_SETTLE_SPLIT_DEPTH) == 128
  {
    assert Pow2(3) == 8;
    assert Pow2(5) == 32;
  }

  // ---- The failing input ----

  lemma ReachesThrough(s: State, t: State, u: State)
    requires Reaches(s, t) && Reaches(t, u)
    ensures Reaches(s, u)
  {
    var one: seq<State> :| Leads(one, s, t);
    var two: seq<State> :| Leads(two, t, u);
    var run := one + two[1..];
    forall i | 0 <= i < |run| - 1
      ensures StepTo(run[i], run[i + 1])
    {
      if i < |one| - 1 {
        assert StepTo(one[i], one[i + 1]);
      } else {
        assert StepTo(two[i + 1 - |one|], two[i + 2 - |one|]);
      }
    }
    assert Leads(run, s, u);
  }

  /** A node that settles its fourth call and rejects the submissions before and after. */
  const FOURTH_SETTLES: Node :=
    Node((t: nat, ids: seq<string>) => None, (t: nat) => None,
         (t: nat, sub: seq<CloseArgs>) => if t == 3 then Settled("digest") else Rejected("closed"))

  /** On two closes of one tunnel that is a chain that closes it once: the pair is rejected, the right one settles, the
      left one is rejected. */
  lemma PairClosesOnce(closes: seq<CloseArgs>)
    requires |closes| == 2 && closes[0].tunnelId == closes[1].tunnelId
    ensures ClosesOnce(closes, Whole(closes, MAX_SETTLE_SPLIT_DEPTH, FOURTH_SETTLES.submit, 2).log, {})
  {
    var chain := FOURTH_SETTLES.submit;
    var log := Whole(closes, MAX_SETTLE_SPLIT_DEPTH, chain, 2).log;
    PairLog(closes);
    hide Isolate, Whole;
    var id := closes[0].tunnelId;
    assert Carries(closes, log, 0, 0, id) && Carries(closes, log, 0, 1, id);
    assert Carries(closes, log, 1, 1, id) && Carries(closes, log, 2, 0, id);
    assert SettledBefore(closes, log, 2, id);
    assert !Closable(closes, log, 0, {}) && !Closable(closes, log, 2, {});
    assert Closable(closes, log, 1, {});
  }

  lemma PairLog(closes: seq<CloseArgs>)
    requires |closes| == 2
    ensures Whole(closes, MAX_SETTLE_SPLIT_DEPTH, FOURTH_SETTLES.submit, 2).log
      == [Attempt([0, 1], Rejected("closed")), Attempt([1], Settled("digest")), Attempt([0], Rejected("closed"))]
  {
    hide Isolate;
    var chain, all := FOURTH_SETTLES.submit, Positions(2);
    var right, left := IsolateSplits(closes, all, MAX_SETTLE_SPLIT_DEPTH, chain, 2);
    assert all == [0, 1] && all[1..] == [1] && all[..1] == [0];
    IsolateStops(closes, [1], MAX_SETTLE_SPLIT_DEPTH - 1, chain, 3);
    IsolateStops(closes, [0], MAX_SETTLE_SPLIT_DEPTH - 1, chain, 4);
  }

  /** From every quiet start: a body sent under both spellings of its tunnel's id, drained on such a chain, ends with
      its tunnel both closed and announced as failed. */
  lemma ClosedAndFailedReached(s: State, body: Bytes) returns (t: State)
    requires Initial(s) && Alone(s) && CloseArgsFromHeader(body).Ok?
    ensures Reaches(s, t) && Tunnel(body) in t.settled && Tunnel(body) in t.dead
  {
    BodyAndHeaderAgree(body);
    TwoSpellingsAccepted(body);
    BothQueuedReached(s, body);
    PairBatched(s, body);
    hide *;
    var x := BothQueued(s, body);
    QuietIsInv(s, x);
    t := PairDrained(x, Tunnel(body));
    ReachesThrough(s, x, t);
  }

  lemma PairDrained(x: State, id: string) returns (t: State)
    requires Alone(x) && x.workers[0].Idle? && Inv(x) && x.pending != [] && id !in x.settled && id !in x.dead
    requires var closes := BatchOf(x, 2); |closes| == 2 && closes[0].tunnelId == closes[1].tunnelId == id
    ensures Reaches(x, t) && id in t.settled && id in t.dead
  {
    hide Inv, BatchOf, Drain, ClosesOnce, Reaches, Whole;
    var closes := BatchOf(x, 2);
    PairClosesOnce(closes);
    ClosedAndFailedExactly(x, 2, FOURTH_SETTLES, 0, {}, id);
    assert HeldTwice(closes, id);
    t := Drain(x, 2, FOURTH_SETTLES, 0).0;
    DrainIsARun(x, 2, FOURTH_SETTLES, 0);
  }

  lemma QuietIsInv(s: State, x: State)
    requires Initial(s) && Reaches(s, x)
    ensures Inv(x)
  {
    hide Inv;
    var run: seq<State> :| Leads(run, s, x);
    EveryRunIsSafe(run, |run| - 1);
  }

  lemma PairBatched(s: State, body: Bytes)
    requires Initial(s) && Alone(s) && |body| >= SETTLE_BODY_HEADER_LEN
    requires CloseArgsFromHeader(body).Ok?
        && CloseArgsFromHeader(body[..SETTLE_BODY_HEADER_LEN]) == CloseArgsFromHeader(body)
    requires |Tunnel(body)| >= 2 && Tunnel(body) != Tunnel(body)[2..]
    ensures var x := BothQueued(s, body);
      && Alone(x) && x.workers[0].Idle? && x.pending != []
      && |BatchOf(x, 2)| == 2
      && BatchOf(x, 2)[0].tunnelId == BatchOf(x, 2)[1].tunnelId == Tunnel(body)
  {
    BothQueuedReached(s, body);
    hide CloseArgsFromHeader, SortStep, Reaches;
    var u := BothClaimed(s, body);
    var one, two := u.workers[0].claimed[0], u.workers[0].claimed[1];
    assert u.workers[0] == Sorting([one, two], {}, []);
    ReachesItself(u);
    SortedPair(u, one, two);
  }

  lemma SortedPair(u: State, one: Entry, two: Entry)
    requires Alone(u) && u.workers[0] == Sorting([one, two], {}, []) && u.closed == {}
    requires one.tunnelId != two.tunnelId && CloseArgsFromHeader(one.header).Ok? && CloseArgsFromHeader(two.header).Ok?
    ensures SortAll(u).workers[0].work
      == [Work(one, CloseArgsFromHeader(one.header).value), Work(two, CloseArgsFromHeader(two.header).value)]
  {
    hide CloseArgsFromHeader, SortStep;
    SortStepEffect(u);
    var v := SortStep(u, 0);
    assert [one, two][1..] == [two];
    SortStepEffect(v);
    var w := SortStep(v, 0);
    assert SortAll(u) == SortAll(v) && SortAll(v) == SortAll(w) && SortAll(w) == w;
  }
}
