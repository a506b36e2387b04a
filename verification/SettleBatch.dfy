/** One settlement to close on chain, and what the chain says about it. */
module Settlement {
  import opened Wrappers

  type Byte = b: int | 0 <= b < 256
  type Bytes = seq<Byte>

  /** The arguments of one `close_cooperative_with_root` call. */
  datatype CloseArgs = CloseArgs(
    tunnelId: string,
    partyABalance: nat,
    partyBBalance: nat,
    sigA: Bytes,
    sigB: Bytes,
    timestamp: nat,
    transcriptRoot: Bytes)

  /** The verdict on one close: settled under a transaction digest, refused by a busy node, or
      rejected for good. */
  datatype Outcome =
    | Settled(digest: string)
    | Transient(msg: string, retryAfter: Option<nat>)
    | Rejected(reason: string)
}

/** Retry-by-split: a batch of closes goes out as one transaction; a rejected batch is halved to
    find the close that poisons it, down to single closes or a depth cap. */
module SettleBatch {
  import opened Numbers
  import opened Wrappers
  import opened Settlement

  /** The chain as an arbitrary oracle. The first argument numbers the submission, so a fixed chain
      stands for any behaviour whatsoever, including one that depends on everything before. */
  type Chain = (nat, seq<CloseArgs>) -> Outcome

  /** A work item: the positions of a sub-batch and how many splits led to it. */
  datatype Item = Item(idxs: seq<nat>, depth: nat)

  /** One submission: the positions of the closes it carried and the verdict it got. */
  datatype Attempt = Attempt(idxs: seq<nat>, outcome: Outcome)

  /** What isolating a batch yields: a verdict for each position, and every submission made, in order. */
  datatype Isolation = Isolation(results: seq<Outcome>, log: seq<Attempt>)

  function Positions(n: nat): seq<nat> {
    seq(n, i requires 0 <= i < n => i)
  }

  ghost predicate Within(closes: seq<CloseArgs>, idxs: seq<nat>) {
    forall k | 0 <= k < |idxs| :: idxs[k] < |closes|
  }

  ghost predicate Distinct<T>(s: seq<T>) {
    forall j, k | 0 <= j < k < |s| :: s[j] != s[k]
  }

  function SubBatch(closes: seq<CloseArgs>, idxs: seq<nat>): seq<CloseArgs>
    requires Within(closes, idxs)
  {
    seq(|idxs|, k requires 0 <= k < |idxs| => closes[idxs[k]])
  }

  /** The recursive meaning of the work stack: submit; on a rejection that can still be split, isolate
      the right half and then the left half, one level deeper. */
  ghost function Isolate(closes: seq<CloseArgs>, idxs: seq<nat>, levels: nat, chain: Chain, tick: nat): (r: Isolation)
    requires Within(closes, idxs)
    ensures |r.results| == |idxs|
    ensures idxs != [] <==> r.log != []
    decreases |idxs|
  {
    if idxs == [] then
      Isolation([], [])
    else
      var outcome := chain(tick, SubBatch(closes, idxs));
      if outcome.Rejected? && |idxs| != 1 && levels > 0 then
        var mid := |idxs| / 2;
        var right := Isolate(closes, idxs[mid..], levels - 1, chain, tick + 1);
        var left := Isolate(closes, idxs[..mid], levels - 1, chain, tick + 1 + |right.log|);
        Isolation(left.results + right.results, [Attempt(idxs, outcome)] + right.log + left.log)
      else
        Isolation(seq(|idxs|, k => outcome), [Attempt(idxs, outcome)])
  }

  // ---------------------------------------------------------------------------------------------
  // The work-stack loop computes exactly this isolation.

  /** Isolating `idxs` from submission `tick` on is a part of `whole`, a run begun at `start`. */
  ghost predicate PartOf(closes: seq<CloseArgs>, idxs: seq<nat>, levels: nat, chain: Chain,
                         tick: nat, start: nat, whole: Isolation)
  {
    && Within(closes, idxs)
    && |whole.results| == |closes|
    && var r := Isolate(closes, idxs, levels, chain, tick);
    && start <= tick
    && tick - start + |r.log| <= |whole.log|
    && (forall k | 0 <= k < |idxs| :: r.results[k] == whole.results[idxs[k]])
    && (forall k | 0 <= k < |r.log| :: r.log[k] == whole.log[tick - start + k])
  }

  /** A rejected batch that can still be split resolves as its two halves do, the right one first. */
  lemma IsolateSplits(closes: seq<CloseArgs>, idxs: seq<nat>, levels: nat, chain: Chain, tick: nat)
    returns (right: Isolation, left: Isolation)
    requires Within(closes, idxs) && |idxs| > 1 && levels > 0
    requires chain(tick, SubBatch(closes, idxs)).Rejected?
    ensures var mid := |idxs| / 2;
      var r := Isolate(closes, idxs, levels, chain, tick);
      && right == Isolate(closes, idxs[mid..], levels - 1, chain, tick + 1)
      && left == Isolate(closes, idxs[..mid], levels - 1, chain, tick + 1 + |right.log|)
      && r.results == left.results + right.results
      && r.log == [Attempt(idxs, chain(tick, SubBatch(closes, idxs)))] + right.log + left.log
  {
    right := Isolate(closes, idxs[|idxs| / 2..], levels - 1, chain, tick + 1);
    left := Isolate(closes, idxs[..|idxs| / 2], levels - 1, chain, tick + 1 + |right.log|);
  }

  /** Any other batch takes one submission, and every close in it that verdict. */
  lemma IsolateStops(closes: seq<CloseArgs>, idxs: seq<nat>, levels: nat, chain: Chain, tick: nat)
    requires Within(closes, idxs) && idxs != []
    requires !chain(tick, SubBatch(closes, idxs)).Rejected? || |idxs| == 1 || levels == 0
    ensures var r := Isolate(closes, idxs, levels, chain, tick);
      var outcome := chain(tick, SubBatch(closes, idxs));
      && |r.results| == |idxs| && (forall k | 0 <= k < |idxs| :: r.results[k] == outcome)
      && r.log == [Attempt(idxs, outcome)]
  {
  }

  lemma HalvesArePartOf(closes: seq<CloseArgs>, idxs: seq<nat>, levels: nat, chain: Chain,
                        tick: nat, start: nat, whole: Isolation) returns (right: Isolation, left: Isolation)
    requires PartOf(closes, idxs, levels, chain, tick, start, whole)
    requires |idxs| > 1 && levels > 0 && chain(tick, SubBatch(closes, idxs)).Rejected?
    ensures var mid := |idxs| / 2;
      && right == Isolate(closes, idxs[mid..], levels - 1, chain, tick + 1)
      && left == Isolate(closes, idxs[..mid], levels - 1, chain, tick + 1 + |right.log|)
      && PartOf(closes, idxs[mid..], levels - 1, chain, tick + 1, start, whole)
      && PartOf(closes, idxs[..mid], levels - 1, chain, tick + 1 + |right.log|, start, whole)
      && |Isolate(closes, idxs, levels, chain, tick).log| == 1 + |right.log| + |left.log|
  {
    hide Isolate;
    var mid := |idxs| / 2;
    right, left := IsolateSplits(closes, idxs, levels, chain, tick);
    var r := Isolate(closes, idxs, levels, chain, tick);
    var at := tick - start;
    PartFits(r.results, left.results, right.results, idxs, mid, whole.results);
    LogFits(r.log, right.log, left.log, whole.log, at);
  }

  /** Verdicts that agree with the whole agree half by half. */
  lemma PartFits(results: seq<Outcome>, left: seq<Outcome>, right: seq<Outcome>, idxs: seq<nat>, mid: nat,
                 whole: seq<Outcome>)
    requires results == left + right && |left| == mid <= |idxs| == |results|
    requires forall k | 0 <= k < |idxs| :: idxs[k] < |whole| && results[k] == whole[idxs[k]]
    ensures forall k | 0 <= k < mid :: left[k] == whole[idxs[..mid][k]]
    ensures forall k | 0 <= k < |idxs| - mid :: right[k] == whole[idxs[mid..][k]]
  {
    assert forall k | 0 <= k < |idxs| - mid :: right[k] == results[mid + k] && idxs[mid..][k] == idxs[mid + k];
  }

  lemma LogFits(log: seq<Attempt>, right: seq<Attempt>, left: seq<Attempt>, whole: seq<Attempt>, at: nat)
    requires |log| == 1 + |right| + |left| && log[1..] == right + left && at + |log| <= |whole|
    requires forall k | 0 <= k < |log| :: log[k] == whole[at + k]
    ensures forall k | 0 <= k < |right| :: right[k] == whole[at + 1 + k]
    ensures forall k | 0 <= k < |left| :: left[k] == whole[at + 1 + |right| + k]
  {
    assert forall k | 0 <= k < |right| :: right[k] == log[1..][k] == log[1 + k];
    assert forall k | 0 <= k < |left| :: left[k] == log[1..][|right| + k] == log[1 + |right| + k];
  }

  /** The stack, popped from its end from submission `tick` on, produces what is left of `whole`. */
  ghost predicate Remaining(closes: seq<CloseArgs>, stack: seq<Item>, maxDepth: nat, chain: Chain,
                            tick: nat, start: nat, whole: Isolation)
  {
    if stack == [] then
      tick == start + |whole.log|
    else
      var Item(idxs, depth) := stack[|stack| - 1];
      && depth <= maxDepth
      && PartOf(closes, idxs, maxDepth - depth, chain, tick, start, whole)
      && Remaining(closes, stack[..|stack| - 1], maxDepth, chain,
                   tick + |Isolate(closes, idxs, maxDepth - depth, chain, tick).log|, start, whole)
  }

  /** Splitting the popped item and pushing its halves leaves the remaining work unchanged. */
  lemma SplitKeepsRemaining(closes: seq<CloseArgs>, below: seq<Item>, idxs: seq<nat>, depth: nat,
                            maxDepth: nat, chain: Chain, tick: nat, start: nat, whole: Isolation)
    requires Remaining(closes, below + [Item(idxs, depth)], maxDepth, chain, tick, start, whole)
    requires Within(closes, idxs) && |idxs| > 1 && depth < maxDepth
    requires chain(tick, SubBatch(closes, idxs)).Rejected?
    ensures var mid := |idxs| / 2;
      Remaining(closes, below + [Item(idxs[..mid], depth + 1)] + [Item(idxs[mid..], depth + 1)],
                maxDepth, chain, tick + 1, start, whole)
  {
    hide Isolate, PartOf;
    var mid := |idxs| / 2;
    assert (below + [Item(idxs, depth)])[..|below|] == below;
    var right, left := HalvesArePartOf(closes, idxs, maxDepth - depth, chain, tick, start, whole);
    var one := below + [Item(idxs[..mid], depth + 1)];
    assert one[..|below|] == below;
    assert (one + [Item(idxs[mid..], depth + 1)])[..|one|] == one;
  }

  /** A popped item that is not split takes one submission, or none when it is empty. */
  lemma PopKeepsRemaining(closes: seq<CloseArgs>, stack: seq<Item>, maxDepth: nat, chain: Chain,
                          tick: nat, start: nat, whole: Isolation)
    requires stack != [] && Remaining(closes, stack, maxDepth, chain, tick, start, whole)
    ensures var Item(idxs, depth) := stack[|stack| - 1];
      var below := stack[..|stack| - 1];
      && Within(closes, idxs) && depth <= maxDepth && |whole.results| == |closes|
      && (idxs == [] ==> Remaining(closes, below, maxDepth, chain, tick, start, whole))
      && (idxs != [] ==>
            var outcome := chain(tick, SubBatch(closes, idxs));
            && start <= tick < start + |whole.log|
            && (!outcome.Rejected? || |idxs| == 1 || depth == maxDepth ==>
                  && Remaining(closes, below, maxDepth, chain, tick + 1, start, whole)
                  && forall k | 0 <= k < |idxs| :: whole.results[idxs[k]] == outcome))
  {
  }

  ghost predicate Covered(i: nat, stack: seq<Item>) {
    exists j | 0 <= j < |stack| :: i in stack[j].idxs
  }

  /** Every position not yet resolved is still on the stack, and every resolved one has its final verdict. */
  ghost predicate Progress(out: seq<Option<Outcome>>, stack: seq<Item>, whole: Isolation) {
    && |out| == |whole.results|
    && (forall i: nat | i < |out| :: out[i].Some? || Covered(i, stack))
    && (forall i: nat | i < |out| && out[i].Some? :: out[i].value == whole.results[i])
  }

  /** Give every position of `idxs` the same verdict. */
  method Resolve(out: array<Option<Outcome>>, idxs: seq<nat>, outcome: Outcome)
    requires forall k | 0 <= k < |idxs| :: idxs[k] < out.Length
    modifies out
    ensures forall i: nat | i < out.Length :: out[i] == if i in idxs then Some(outcome) else old(out[i])
  {
    for k := 0 to |idxs|
      invariant forall i: nat | i < out.Length :: out[i] == if i in idxs[..k] then Some(outcome) else old(out[i])
    {
      out[idxs[k]] := Some(outcome);
      assert idxs[..k + 1] == idxs[..k] + [idxs[k]];
    }
    assert idxs[..|idxs|] == idxs;
  }

  /** Submit `closes` as one transaction, isolating poison settlements by binary split: one result per
      close, in input order, and the number of submissions made. */
  method SplitSubmit(closes: seq<CloseArgs>, maxDepth: nat, chain: Chain, tick: nat)
    returns (results: seq<Outcome>, calls: nat)
    ensures var whole := Isolate(closes, Positions(|closes|), maxDepth, chain, tick);
      results == whole.results && calls == |whole.log|
  {
    hide Remaining, Isolate, Progress;
    var n := |closes|;
    ghost var whole := Isolate(closes, Positions(n), maxDepth, chain, tick);
    var out: array<Option<Outcome>> := new Option<Outcome>[n](i => None);
    var stack: seq<Item> := [Item(Positions(n), 0)];
    calls := 0;
    Start(closes, maxDepth, chain, tick, out[..]);
    while stack != []
      invariant fresh(out) && out.Length == n
      invariant Remaining(closes, stack, maxDepth, chain, tick + calls, tick, whole)
      invariant calls <= |whole.log|
      invariant Progress(out[..], stack, whole)
      decreases |whole.log| - calls, |stack|
    {
      var Item(idxs, depth) := stack[|stack| - 1];
      var below := stack[..|stack| - 1];
      assert stack == below + [Item(idxs, depth)];
      PopKeepsRemaining(closes, stack, maxDepth, chain, tick + calls, tick, whole);
      if idxs == [] {
        SkipKeepsProgress(out[..], stack, whole);
        stack := below;
      } else {
        var outcome := chain(tick + calls, SubBatch(closes, idxs));
        if outcome.Rejected? && |idxs| != 1 && depth < maxDepth {
          var mid := |idxs| / 2;
          SplitKeepsRemaining(closes, below, idxs, depth, maxDepth, chain, tick + calls, tick, whole);
          SplitKeepsProgress(out[..], below, idxs, depth, mid, whole);
          stack := below + [Item(idxs[..mid], depth + 1)] + [Item(idxs[mid..], depth + 1)];
        } else {
          ghost var before := out[..];
          Resolve(out, idxs, outcome);
          ResolveKeepsProgress(before, out[..], stack, outcome, whole);
          stack := below;
        }
        calls := calls + 1;
      }
    }
    Finish(closes, maxDepth, chain, tick + calls, tick, out[..], whole);
    results := seq(n, i requires 0 <= i < n && out[i].Some? reads out => out[i].value);
  }

  lemma Start(closes: seq<CloseArgs>, maxDepth: nat, chain: Chain, tick: nat, out: seq<Option<Outcome>>)
    requires |out| == |closes| && forall i | 0 <= i < |out| :: out[i] == None
    ensures var whole := Isolate(closes, Positions(|closes|), maxDepth, chain, tick);
      && Remaining(closes, [Item(Positions(|closes|), 0)], maxDepth, chain, tick, tick, whole)
      && Progress(out, [Item(Positions(|closes|), 0)], whole)
  {
    var stack := [Item(Positions(|closes|), 0)];
    assert stack[..0] == [];
    forall i: nat | i < |closes| ensures Covered(i, stack) {
      assert i == stack[0].idxs[i];
    }
  }

  lemma Finish(closes: seq<CloseArgs>, maxDepth: nat, chain: Chain, tick: nat, start: nat,
               out: seq<Option<Outcome>>, whole: Isolation)
    requires Remaining(closes, [], maxDepth, chain, tick, start, whole) && Progress(out, [], whole)
    ensures tick == start + |whole.log| && |out| == |whole.results|
    ensures forall i: nat | i < |out| :: out[i] == Some(whole.results[i])
  {
    assert forall i: nat :: !Covered(i, []);
  }

  lemma SkipKeepsProgress(out: seq<Option<Outcome>>, stack: seq<Item>, whole: Isolation)
    requires Progress(out, stack, whole) && stack != [] && stack[|stack| - 1].idxs == []
    ensures Progress(out, stack[..|stack| - 1], whole)
  {
    forall i: nat | i < |out| && out[i].None? ensures Covered(i, stack[..|stack| - 1]) {
      PoppedElsewhere(i, stack);
    }
  }

  lemma SplitKeepsProgress(out: seq<Option<Outcome>>, below: seq<Item>, idxs: seq<nat>, depth: nat,
                           mid: nat, whole: Isolation)
    requires Progress(out, below + [Item(idxs, depth)], whole) && mid <= |idxs|
    ensures Progress(out, below + [Item(idxs[..mid], depth + 1)] + [Item(idxs[mid..], depth + 1)], whole)
  {
    forall i: nat | i < |out| && out[i].None?
      ensures Covered(i, below + [Item(idxs[..mid], depth + 1)] + [Item(idxs[mid..], depth + 1)])
    {
      SplitCovers(i, below, idxs, depth, mid);
    }
  }

  lemma ResolveKeepsProgress(before: seq<Option<Outcome>>, after: seq<Option<Outcome>>, stack: seq<Item>,
                             outcome: Outcome, whole: Isolation)
    requires Progress(before, stack, whole) && stack != [] && |after| == |before|
    requires var idxs := stack[|stack| - 1].idxs;
      && (forall k | 0 <= k < |idxs| :: idxs[k] < |before| && whole.results[idxs[k]] == outcome)
      && (forall i: nat | i < |after| :: after[i] == if i in idxs then Some(outcome) else before[i])
    ensures Progress(after, stack[..|stack| - 1], whole)
  {
    forall i: nat | i < |after| && after[i].None? ensures Covered(i, stack[..|stack| - 1]) {
      PoppedElsewhere(i, stack);
    }
  }

  lemma PoppedElsewhere(i: nat, stack: seq<Item>)
    requires stack != [] && Covered(i, stack) && i !in stack[|stack| - 1].idxs
    ensures Covered(i, stack[..|stack| - 1])
  {
    var j :| 0 <= j < |stack| && i in stack[j].idxs;
    assert stack[..|stack| - 1][j] == stack[j];
  }

  lemma SplitCovers(i: nat, below: seq<Item>, idxs: seq<nat>, depth: nat, mid: nat)
    requires mid <= |idxs| && Covered(i, below + [Item(idxs, depth)])
    ensures Covered(i, below + [Item(idxs[..mid], depth + 1)] + [Item(idxs[mid..], depth + 1)])
  {
    var stack := below + [Item(idxs, depth)];
    var both := below + [Item(idxs[..mid], depth + 1)] + [Item(idxs[mid..], depth + 1)];
    var j :| 0 <= j < |stack| && i in stack[j].idxs;
    if j < |below| {
      assert i in both[j].idxs;
    } else {
      assert idxs == idxs[..mid] + idxs[mid..];
      assert i in both[|below|].idxs || i in both[|below| + 1].idxs;
    }
  }

  // ---------------------------------------------------------------------------------------------
  // Every close is decided exactly once.

  /** Every submission was put to the chain under its own number, with closes of this batch only. */
  lemma {:induction false} LogIsWhatTheChainSaw(closes: seq<CloseArgs>, idxs: seq<nat>, levels: nat, chain: Chain,
                                                tick: nat, j: nat)
    requires Within(closes, idxs)
    requires j < |Isolate(closes, idxs, levels, chain, tick).log|
    ensures var a := Isolate(closes, idxs, levels, chain, tick).log[j];
      && a.idxs != [] && (forall k | 0 <= k < |a.idxs| :: a.idxs[k] in idxs)
      && Within(closes, a.idxs) && a.outcome == chain(tick + j, SubBatch(closes, a.idxs))
      && |SubBatch(closes, a.idxs)| == |a.idxs|
      && (forall k | 0 <= k < |a.idxs| :: SubBatch(closes, a.idxs)[k] == closes[a.idxs[k]])
    decreases |idxs|
  {
    hide Isolate;
    if chain(tick, SubBatch(closes, idxs)).Rejected? && |idxs| != 1 && levels > 0 {
      var mid := |idxs| / 2;
      var right, left := IsolateSplits(closes, idxs, levels, chain, tick);
      if 1 <= j <= |right.log| {
        LogIsWhatTheChainSaw(closes, idxs[mid..], levels - 1, chain, tick + 1, j - 1);
      } else if j > |right.log| {
        LogIsWhatTheChainSaw(closes, idxs[..mid], levels - 1, chain, tick + 1 + |right.log|, j - 1 - |right.log|);
      }
    } else {
      IsolateStops(closes, idxs, levels, chain, tick);
    }
  }

  /** Submission `p` is the last to carry position `i`; every earlier one that did was rejected. */
  ghost predicate Decides(log: seq<Attempt>, p: nat, i: nat) {
    && p < |log| && i in log[p].idxs
    && forall q | 0 <= q < |log| && q != p && i in log[q].idxs :: q < p && log[q].outcome.Rejected?
  }

  /** No close is submitted again after it settled or met a busy node: the verdict reported for it is
      that of the last submission that carried it, and every earlier one was rejected as a whole. */
  lemma {:induction false} DecidedOnce(closes: seq<CloseArgs>, idxs: seq<nat>, levels: nat, chain: Chain, tick: nat,
                                       k: nat)
    returns (p: nat)
    requires Within(closes, idxs) && Distinct(idxs) && k < |idxs|
    ensures var r := Isolate(closes, idxs, levels, chain, tick);
      Decides(r.log, p, idxs[k]) && r.results[k] == r.log[p].outcome
    decreases |idxs|
  {
    hide Isolate;
    p := 0;
    if chain(tick, SubBatch(closes, idxs)).Rejected? && |idxs| != 1 && levels > 0 {
      var mid := |idxs| / 2;
      var right, left := IsolateSplits(closes, idxs, levels, chain, tick);
      forall j: nat | j < |right.log| ensures forall i | i in right.log[j].idxs :: i in idxs[mid..] {
        LogIsWhatTheChainSaw(closes, idxs[mid..], levels - 1, chain, tick + 1, j);
      }
      forall j: nat | j < |left.log| ensures forall i | i in left.log[j].idxs :: i in idxs[..mid] {
        LogIsWhatTheChainSaw(closes, idxs[..mid], levels - 1, chain, tick + 1 + |right.log|, j);
      }
      if k < mid {
        var at := DecidedOnce(closes, idxs[..mid], levels - 1, chain, tick + 1 + |right.log|, k);
        assert idxs[k] !in idxs[mid..];
        p := 1 + |right.log| + at;
      } else {
        var at := DecidedOnce(closes, idxs[mid..], levels - 1, chain, tick + 1, k - mid);
        assert idxs[k] !in idxs[..mid];
        p := 1 + at;
      }
    } else {
      IsolateStops(closes, idxs, levels, chain, tick);
    }
  }

  // ---------------------------------------------------------------------------------------------
  // How many submissions a batch can cost.

  /** A batch of n closes costs at least one submission and at most min(2n - 1, 2^(levels + 1) - 1). */
  lemma {:induction false} SubmissionBound(closes: seq<CloseArgs>, idxs: seq<nat>, levels: nat, chain: Chain, tick: nat)
    requires Within(closes, idxs) && idxs != []
    ensures var calls := |Isolate(closes, idxs, levels, chain, tick).log|;
      1 <= calls <= 2 * |idxs| - 1 && calls <= Pow2(levels + 1) - 1
    decreases |idxs|
  {
    hide Isolate;
    if chain(tick, SubBatch(closes, idxs)).Rejected? && |idxs| != 1 && levels > 0 {
      var mid := |idxs| / 2;
      var right, left := IsolateSplits(closes, idxs, levels, chain, tick);
      SubmissionBound(closes, idxs[mid..], levels - 1, chain, tick + 1);
      SubmissionBound(closes, idxs[..mid], levels - 1, chain, tick + 1 + |right.log|);
    } else {
      IsolateStops(closes, idxs, levels, chain, tick);
    }
  }

  /** The depth bound is reached: a chain that rejects everything costs a batch of 2^levels closes or more
      exactly 2^(levels + 1) - 1 submissions. */
  lemma {:induction false} SubmissionBoundReached(closes: seq<CloseArgs>, idxs: seq<nat>, levels: nat, chain: Chain,
                                                  tick: nat)
    requires Within(closes, idxs) && |idxs| >= Pow2(levels)
    requires RejectsAll(chain)
    ensures |Isolate(closes, idxs, levels, chain, tick).log| == Pow2(levels + 1) - 1
    decreases |idxs|
  {
    hide Isolate;
    if levels > 0 {
      var mid := |idxs| / 2;
      assert |idxs| >= 2 * Pow2(levels - 1) >= 2;
      var right, left := IsolateSplits(closes, idxs, levels, chain, tick);
      SubmissionBoundReached(closes, idxs[mid..], levels - 1, chain, tick + 1);
      SubmissionBoundReached(closes, idxs[..mid], levels - 1, chain, tick + 1 + |right.log|);
    } else {
      IsolateStops(closes, idxs, levels, chain, tick);
    }
  }

  ghost predicate RejectsAll(chain: Chain) {
    forall t: nat, sub: seq<CloseArgs> :: chain(t, sub).Rejected?
  }

  /** From 2^(levels - 1) closes on, a chain that rejects everything costs at least 2^levels - 1 submissions. */
  lemma {:induction false} CostsAlmost(closes: seq<CloseArgs>, idxs: seq<nat>, levels: nat, chain: Chain, tick: nat)
    requires Within(closes, idxs) && RejectsAll(chain) && idxs != [] && (levels == 0 || |idxs| >= Pow2(levels - 1))
    ensures |Isolate(closes, idxs, levels, chain, tick).log| >= Pow2(levels) - 1
    decreases |idxs|
  {
    hide Isolate;
    if levels > 0 && |idxs| > 1 {
      var mid := |idxs| / 2;
      var right, left := IsolateSplits(closes, idxs, levels, chain, tick);
      CostsAlmost(closes, idxs[mid..], levels - 1, chain, tick + 1);
      CostsAlmost(closes, idxs[..mid], levels - 1, chain, tick + 1 + |right.log|);
    } else {
      IsolateStops(closes, idxs, levels, chain, tick);
    }
  }

  /** And with one close more, at least 2^levels + 1. */
  lemma {:induction false} CostsMore(closes: seq<CloseArgs>, idxs: seq<nat>, levels: nat, chain: Chain, tick: nat)
    requires Within(closes, idxs) && RejectsAll(chain) && levels > 0 && |idxs| > Pow2(levels - 1)
    ensures |Isolate(closes, idxs, levels, chain, tick).log| >= Pow2(levels) + 1
    decreases |idxs|
  {
    hide Isolate;
    var mid := |idxs| / 2;
    var right, left := IsolateSplits(closes, idxs, levels, chain, tick);
    if levels > 1 {
      CostsMore(closes, idxs[mid..], levels - 1, chain, tick + 1);
      CostsAlmost(closes, idxs[..mid], levels - 1, chain, tick + 1 + |right.log|);
    }
  }

  /** The documented figure, at most 2^levels - 1 retries after the first submission, holds for every chain exactly for
      batches of at most half of 2^levels closes. */
  lemma DocumentedBoundHoldsExactly(closes: seq<CloseArgs>, idxs: seq<nat>, levels: nat, tick: nat)
    requires Within(closes, idxs) && idxs != []
    ensures (forall chain: Chain :: |Isolate(closes, idxs, levels, chain, tick).log| - 1 <= Pow2(levels) - 1)
            <==> levels == 0 || |idxs| <= Pow2(levels - 1)
  {
    hide Isolate;
    if levels == 0 || |idxs| <= Pow2(levels - 1) {
      forall chain: Chain
        ensures |Isolate(closes, idxs, levels, chain, tick).log| - 1 <= Pow2(levels) - 1
      {
        SubmissionBound(closes, idxs, levels, chain, tick);
      }
    } else {
      var reject: Chain := (t: nat, sub: seq<CloseArgs>) => Rejected("");
      CostsMore(closes, idxs, levels, reject, tick);
      assert |Isolate(closes, idxs, levels, reject, tick).log| > Pow2(levels);
    }
  }

  // ---------------------------------------------------------------------------------------------
  // Poison is isolated exactly when the batch fits the depth.

  /** The chain never settles a batch that holds a poison close, and never rejects one that holds none.
      It may be busy at any time. */
  ghost predicate Poisons(chain: Chain, poison: CloseArgs -> bool) {
    forall t: nat, sub: seq<CloseArgs> ::
      && (chain(t, sub).Settled? ==> forall c | c in sub :: !poison(c))
      && (chain(t, sub).Rejected? ==> exists c :: c in sub && poison(c))
  }

  /** In a batch of at most 2^levels closes only poison is rejected, and only the rest is settled. */
  lemma {:induction false} PoisonIsolated(closes: seq<CloseArgs>, idxs: seq<nat>, levels: nat, chain: Chain, tick: nat,
                                          poison: CloseArgs -> bool, k: nat)
    requires Within(closes, idxs) && k < |idxs| <= Pow2(levels) && Poisons(chain, poison)
    ensures var outcome := Isolate(closes, idxs, levels, chain, tick).results[k];
      && (outcome.Rejected? ==> poison(closes[idxs[k]]))
      && (outcome.Settled? ==> !poison(closes[idxs[k]]))
    decreases |idxs|
  {
    hide Isolate;
    var sub := SubBatch(closes, idxs);
    assert sub[k] == closes[idxs[k]];
    if chain(tick, sub).Rejected? && |idxs| != 1 && levels > 0 {
      var mid := |idxs| / 2;
      var right, left := IsolateSplits(closes, idxs, levels, chain, tick);
      if k < mid {
        PoisonIsolated(closes, idxs[..mid], levels - 1, chain, tick + 1 + |right.log|, poison, k);
      } else {
        PoisonIsolated(closes, idxs[mid..], levels - 1, chain, tick + 1, poison, k - mid);
      }
    } else {
      IsolateStops(closes, idxs, levels, chain, tick);
      assert |idxs| == 1 ==> forall c | c in sub :: c == sub[k];
    }
  }

  function PoisonCount(closes: seq<CloseArgs>, idxs: seq<nat>, poison: CloseArgs -> bool): nat
    requires Within(closes, idxs)
  {
    if idxs == [] then 0
    else (if poison(closes[idxs[0]]) then 1 else 0) + PoisonCount(closes, idxs[1..], poison)
  }

  ghost function PoisonAt(closes: seq<CloseArgs>, idxs: seq<nat>, poison: CloseArgs -> bool): set<nat> {
    set k | k in idxs && k < |closes| && poison(closes[k])
  }

  lemma PoisonAtFirst(closes: seq<CloseArgs>, idxs: seq<nat>, poison: CloseArgs -> bool)
    requires Within(closes, idxs) && Distinct(idxs) && idxs != []
    ensures var first, rest := idxs[0], PoisonAt(closes, idxs[1..], poison);
      && first !in rest
      && PoisonAt(closes, idxs, poison) == if poison(closes[first]) then rest + {first} else rest
  {
    forall k: nat
      ensures k in idxs <==> k == idxs[0] || k in idxs[1..]
    {
      assert idxs == [idxs[0]] + idxs[1..];
    }
  }

  /** It counts the poison closes, each once. */
  lemma {:induction false} PoisonCounted(closes: seq<CloseArgs>, idxs: seq<nat>, poison: CloseArgs -> bool)
    requires Within(closes, idxs) && Distinct(idxs)
    ensures PoisonCount(closes, idxs, poison) == |PoisonAt(closes, idxs, poison)|
  {
    if idxs != [] {
      var first, rest := idxs[0], PoisonAt(closes, idxs[1..], poison);
      PoisonCounted(closes, idxs[1..], poison);
      PoisonAtFirst(closes, idxs, poison);
      hide PoisonAt;
      assert first !in rest;
    }
  }

  lemma {:induction false} PoisonCountSplits(closes: seq<CloseArgs>, idxs: seq<nat>, poison: CloseArgs -> bool,
                                             mid: nat)
    requires Within(closes, idxs) && mid <= |idxs|
    ensures PoisonCount(closes, idxs, poison)
         == PoisonCount(closes, idxs[..mid], poison) + PoisonCount(closes, idxs[mid..], poison)
  {
    if mid == 0 {
      assert idxs[mid..] == idxs;
    } else {
      assert idxs[..mid][1..] == idxs[1..][..mid - 1];
      PoisonCountSplits(closes, idxs[1..], poison, mid - 1);
    }
  }

  lemma {:induction false} PoisonIsCounted(closes: seq<CloseArgs>, idxs: seq<nat>, poison: CloseArgs -> bool, k: nat)
    requires Within(closes, idxs) && k < |idxs| && poison(closes[idxs[k]])
    ensures PoisonCount(closes, idxs, poison) >= 1
  {
    if k > 0 {
      PoisonIsCounted(closes, idxs[1..], poison, k - 1);
    }
  }

  lemma RejectedIsCounted(closes: seq<CloseArgs>, idxs: seq<nat>, chain: Chain, tick: nat, poison: CloseArgs -> bool)
    requires Within(closes, idxs) && Poisons(chain, poison) && chain(tick, SubBatch(closes, idxs)).Rejected?
    ensures PoisonCount(closes, idxs, poison) >= 1
  {
    var sub := SubBatch(closes, idxs);
    var c :| c in sub && poison(c);
    var k: nat :| k < |sub| && sub[k] == c;
    PoisonIsCounted(closes, idxs, poison, k);
  }

  /** The price of isolation: a healthy batch costs one submission, and each poison close adds at most two
      per level. */
  lemma {:induction false} PoisonPrice(closes: seq<CloseArgs>, idxs: seq<nat>, levels: nat, chain: Chain, tick: nat,
                                       poison: CloseArgs -> bool)
    requires Within(closes, idxs) && Poisons(chain, poison)
    ensures |Isolate(closes, idxs, levels, chain, tick).log| <= 1 + 2 * levels * PoisonCount(closes, idxs, poison)
    decreases |idxs|
  {
    hide Isolate, PoisonCount;
    if idxs == [] {
      return;
    }
    if chain(tick, SubBatch(closes, idxs)).Rejected? && |idxs| != 1 && levels > 0 {
      var mid := |idxs| / 2;
      RejectedIsCounted(closes, idxs, chain, tick, poison);
      var right, left := IsolateSplits(closes, idxs, levels, chain, tick);
      PoisonPrice(closes, idxs[mid..], levels - 1, chain, tick + 1, poison);
      PoisonPrice(closes, idxs[..mid], levels - 1, chain, tick + 1 + |right.log|, poison);
      PoisonCountSplits(closes, idxs, poison, mid);
      PriceAdds(levels, PoisonCount(closes, idxs[..mid], poison), PoisonCount(closes, idxs[mid..], poison));
    } else {
      IsolateStops(closes, idxs, levels, chain, tick);
      assert 2 * levels * PoisonCount(closes, idxs, poison) >= 0;
    }
  }

  lemma PriceAdds(levels: nat, left: nat, right: nat)
    requires levels > 0 && left + right >= 1
    ensures 1 + (1 + 2 * (levels - 1) * right) + (1 + 2 * (levels - 1) * left) <= 1 + 2 * levels * (left + right)
  {
    assert 2 * (levels - 1) * right + 2 * (levels - 1) * left == 2 * (levels - 1) * (left + right);
    assert 2 * levels * (left + right) == 2 * (levels - 1) * (left + right) + 2 * (left + right);
  }

  /** A chain that rejects exactly the batches holding a poison close, and settles all others. */
  ghost function RejectsOnly(poison: CloseArgs -> bool): (chain: Chain)
    ensures Poisons(chain, poison)
  {
    (tick: nat, sub: seq<CloseArgs>) =>
      if exists c :: c in sub && poison(c) then Rejected("abort") else Settled("digest")
  }

  /** Whatever is poison, every close gets the verdict it deserves. */
  ghost predicate Isolates(closes: seq<CloseArgs>, levels: nat) {
    forall poison: CloseArgs -> bool ::
      var results := Isolate(closes, Positions(|closes|), levels, RejectsOnly(poison), 0).results;
      forall k | 0 <= k < |closes| :: results[k].Rejected? <==> poison(closes[k])
  }

  /** The last of more than 2^levels closes, if poison, takes its neighbour down with it. */
  lemma {:induction false} NeighbourBlamed(closes: seq<CloseArgs>, idxs: seq<nat>, levels: nat,
                                           poison: CloseArgs -> bool, tick: nat)
    requires Within(closes, idxs) && |idxs| > Pow2(levels)
    requires poison(closes[idxs[|idxs| - 1]])
    ensures Isolate(closes, idxs, levels, RejectsOnly(poison), tick).results[|idxs| - 2].Rejected?
    decreases |idxs|
  {
    hide Isolate;
    var sub := SubBatch(closes, idxs);
    assert sub[|idxs| - 1] in sub && poison(sub[|idxs| - 1]);
    assert RejectsOnly(poison)(tick, sub).Rejected?;
    if levels > 0 {
      var mid := |idxs| / 2;
      var right, left := IsolateSplits(closes, idxs, levels, RejectsOnly(poison), tick);
      NeighbourBlamed(closes, idxs[mid..], levels - 1, poison, tick + 1);
    } else {
      IsolateStops(closes, idxs, levels, RejectsOnly(poison), tick);
    }
  }

  /** Isolation works for a batch of distinct closes if and only if it has at most 2^levels of them. */
  lemma IsolationExactly(closes: seq<CloseArgs>, levels: nat)
    requires Distinct(closes)
    ensures Isolates(closes, levels) <==> |closes| <= Pow2(levels)
  {
    hide Isolate;
    if |closes| <= Pow2(levels) {
      forall poison: CloseArgs -> bool, k: nat | k < |closes|
        ensures Isolate(closes, Positions(|closes|), levels, RejectsOnly(poison), 0).results[k].Rejected?
            <==> poison(closes[k])
      {
        PoisonIsolated(closes, Positions(|closes|), levels, RejectsOnly(poison), 0, poison, k);
        NeverBusy(closes, Positions(|closes|), levels, poison, 0, k);
      }
    } else {
      var n := |closes|;
      var poison: CloseArgs -> bool := c => c == closes[n - 1];
      NeighbourBlamed(closes, Positions(n), levels, poison, 0);
      assert !poison(closes[n - 2]);
    }
  }

  lemma {:induction false} NeverBusy(closes: seq<CloseArgs>, idxs: seq<nat>, levels: nat, poison: CloseArgs -> bool,
                                     tick: nat, k: nat)
    requires Within(closes, idxs) && k < |idxs|
    ensures !Isolate(closes, idxs, levels, RejectsOnly(poison), tick).results[k].Transient?
    decreases |idxs|
  {
    hide Isolate;
    if RejectsOnly(poison)(tick, SubBatch(closes, idxs)).Rejected? && |idxs| != 1 && levels > 0 {
      var mid := |idxs| / 2;
      var right, left := IsolateSplits(closes, idxs, levels, RejectsOnly(poison), tick);
      if k < mid {
        NeverBusy(closes, idxs[..mid], levels - 1, poison, tick + 1 + |right.log|, k);
      } else {
        NeverBusy(closes, idxs[mid..], levels - 1, poison, tick + 1, k - mid);
      }
    } else {
      IsolateStops(closes, idxs, levels, RejectsOnly(poison), tick);
    }
  }
}
