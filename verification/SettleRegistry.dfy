/** What the tunnel registry shows over a run, with workers and the event indexer writing to it, and when a settled
    tunnel is submitted again. */
module SettleRegistry {
  import opened Wrappers
  import opened Settlement
  import opened SettleHeader
  import opened SettleProtocol
  import opened SettleProtocolSafety
  import opened SettleWorker
  import opened SettleDrain

  /** A run with the action taken at each step. */
  ghost predicate Traced(run: seq<State>, actions: seq<Action>) {
    && |run| == |actions| + 1
    && forall i | 0 <= i < |actions| :: Enabled(run[i], actions[i]) && run[i + 1] == Next(run[i], actions[i])
  }

  datatype Write = Write(id: string, status: TunnelStatus)

  /** What a step writes to the registry: a worker records a close, the indexer whatever an event says. */
  ghost function WriteOf(s: State, a: Action): Option<Write>
    requires Enabled(s, a)
  {
    match a
    case Record(w) =>
      if s.workers[w].results[0].Settled? then Some(Write(s.workers[w].todo[0].close.tunnelId, Closed)) else None
    case Observe(id, status) => Some(Write(id, status))
    case _ => None
  }

  ghost predicate About(write: Option<Write>, id: string) {
    write.Some? && write.value.id == id
  }

  /** The latest write about the tunnel among the first `n` steps, step `i`. */
  ghost predicate LatestAt(run: seq<State>, actions: seq<Action>, n: nat, id: string, i: nat)
    requires Traced(run, actions) && n <= |actions|
  {
    && i < n && About(WriteOf(run[i], actions[i]), id)
    && forall j | i < j < n :: !About(WriteOf(run[j], actions[j]), id)
  }

  /** There is a latest write, and it is or is not a close. */
  ghost predicate Latest(run: seq<State>, actions: seq<Action>, n: nat, id: string, closing: bool)
    requires Traced(run, actions) && n <= |actions|
  {
    exists i: nat ::
      LatestAt(run, actions, n, id, i) && (WriteOf(run[i], actions[i]).value.status == Closed) == closing
  }

  /** What one step does to the registry and to the history of closes. */
  lemma StepWrites(s: State, a: Action, id: string)
    requires Enabled(s, a)
    ensures var t, write := Next(s, a), WriteOf(s, a);
      && (id in t.closed <==> if About(write, id) then write.value.status == Closed else id in s.closed)
      && (id in EverClosed(t) <==> id in EverClosed(s) || write == Some(Write(id, Closed)))
  {
    hide CloseArgsFromHeader, Canonical;
  }

  lemma LatestStep(run: seq<State>, actions: seq<Action>, n: nat, id: string, closing: bool)
    requires Traced(run, actions) && n < |actions|
    ensures var write := WriteOf(run[n], actions[n]);
      Latest(run, actions, n + 1, id, closing) <==>
      if About(write, id) then (write.value.status == Closed) == closing else Latest(run, actions, n, id, closing)
  {
    hide WriteOf, Enabled, Next;
    var m := n + 1;
    if About(WriteOf(run[n], actions[n]), id) {
      assert LatestAt(run, actions, m, id, n);
      forall i: nat
        ensures LatestAt(run, actions, m, id, i) ==> i == n
      {
      }
    } else {
      forall i: nat
        ensures LatestAt(run, actions, m, id, i) <==> LatestAt(run, actions, n, id, i)
      {
      }
    }
  }

  /** Over every run the registry shows a tunnel closed exactly when the latest write about it closed it, and the tunnel
      was ever closed only if there is a write about it. */
  lemma {:induction false} ShowsLatestWrite(run: seq<State>, actions: seq<Action>, n: nat, id: string)
    requires Traced(run, actions) && Initial(run[0]) && n <= |actions|
    ensures id in run[n].closed <==> Latest(run, actions, n, id, true)
    ensures id in EverClosed(run[n]) ==> Latest(run, actions, n, id, true) || Latest(run, actions, n, id, false)
  {
    hide Enabled, Next, WriteOf, Latest;
    if n == 0 {
      NoneLatest(run, actions, id);
    } else {
      ShowsLatestWrite(run, actions, n - 1, id);
      StepWrites(run[n - 1], actions[n - 1], id);
      LatestStep(run, actions, n - 1, id, true);
      LatestStep(run, actions, n - 1, id, false);
    }
  }

  lemma NoneLatest(run: seq<State>, actions: seq<Action>, id: string)
    requires Traced(run, actions)
    ensures !Latest(run, actions, 0, id, true) && !Latest(run, actions, 0, id, false)
  {
  }

  lemma OnlyOneLatest(run: seq<State>, actions: seq<Action>, n: nat, id: string)
    requires Traced(run, actions) && n <= |actions|
    ensures !(Latest(run, actions, n, id, true) && Latest(run, actions, n, id, false))
  {
    hide WriteOf, Enabled, Next;
  }

  /** A tunnel that was closed shows as open again exactly when the latest event about it, after its last close, says
      something else. */
  lemma ReopenedExactly(run: seq<State>, actions: seq<Action>, n: nat, id: string)
    requires Traced(run, actions) && Initial(run[0]) && n <= |actions| && id in EverClosed(run[n])
    ensures id !in run[n].closed <==> Latest(run, actions, n, id, false)
  {
    hide Enabled, Next, WriteOf, Latest;
    ShowsLatestWrite(run, actions, n, id);
    OnlyOneLatest(run, actions, n, id);
  }

  lemma TracedIsRun(run: seq<State>, actions: seq<Action>)
    requires Traced(run, actions)
    ensures IsRun(run)
  {
    hide Enabled, Next;
    forall i | 0 <= i < |run| - 1
      ensures StepTo(run[i], run[i + 1])
    {
      assert Enabled(run[i], actions[i]) && run[i + 1] == Next(run[i], actions[i]);
    }
  }

  /** The worker keeps the entry it sorts for submission. */
  ghost predicate KeptForSubmission(s: State, w: nat)
    requires Enabled(s, Sort(w))
  {
    |SortStep(s, w).workers[w].work| > |s.workers[w].work|
  }

  lemma SortKeeps(s: State, w: nat)
    requires Enabled(s, Sort(w)) && CloseArgsFromHeader(s.workers[w].claimed[0].header).Ok?
    ensures var x, q := s.workers[w], s.workers[w].claimed[0];
      KeptForSubmission(s, w) <==> q.tunnelId !in x.seen && q.tunnelId !in s.closed
  {
    hide CloseArgsFromHeader;
  }

  /** An entry of a tunnel that was closed before, new in its claim, is submitted again exactly when it is queued under
      another spelling of the tunnel's id, or the tunnel shows as open again. */
  lemma ResubmittedExactly(run: seq<State>, actions: seq<Action>, n: nat, w: nat)
    requires Traced(run, actions) && Initial(run[0]) && n <= |actions| && Enabled(run[n], Sort(w))
    requires run[n].workers[w].claimed[0].tunnelId !in run[n].workers[w].seen
    ensures var q := run[n].workers[w].claimed[0];
      && CloseArgsFromHeader(q.header).Ok?
      && (Tunnel(q.header) in EverClosed(run[n]) ==>
            (KeptForSubmission(run[n], w) <==>
             q.tunnelId != Tunnel(q.header) || Latest(run, actions, n, Tunnel(q.header), false)))
  {
    hide CloseArgsFromHeader, NormalizeTunnelId, Latest, Next, Traced, Initial, KeptForSubmission;
    TraceLength(run, actions);
    var s := run[n];
    var x, q := s.workers[w], s.workers[w].claimed[0];
    TracedIsRun(run, actions);
    EveryRunIsSafe(run, n);
    assert q in x.Held() && HeldAt(s, q) && Genuine(s, q);
    assert s.closed <= EverClosed(s);
    SortKeeps(s, w);
    if q.tunnelId in EverClosed(s) {
      ClosedIdIsTheTunnel(s, q);
    }
    if Tunnel(q.header) in EverClosed(s) {
      ReopenedExactly(run, actions, n, Tunnel(q.header));
    }
  }

  lemma TraceLength(run: seq<State>, actions: seq<Action>)
    requires Traced(run, actions)
    ensures |run| == |actions| + 1
  {
  }

  // ---- The failing input ----

  /** One settlement through a whole cycle of a worker on a quiet start: accepted, claimed, settled and acknowledged. */
  lemma SettledOnce(s: State, body: Bytes) returns (t: State)
    requires Initial(s) && Alone(s) && CloseArgsFromHeader(body).Ok?
    ensures Reaches(s, t) && Alone(t) && t.workers[0].Idle? && t.pending == [] && t.publishing == []
    ensures t.closed == t.settled == {Tunnel(body)}
  {
    hide Reaches, CloseArgsFromHeader;
    ReachesItself(s);
    var u := OneSorted(s, s, body);
    var id := Tunnel(body);
    ReachesFurther(s, u, Submit(0, [Settled("digest")]));
    var submitted := Next(u, Submit(0, [Settled("digest")]));
    ReachesFurther(s, submitted, Record(0));
    var recorded := RecordStep(submitted, 0);
    assert recorded.workers[0].todo == [] && recorded.settled == {id};
    ReachesFurther(s, recorded, Ack(0));
    t := Next(recorded, Ack(0));
  }

  /** A body accepted, claimed alone and sorted into a batch, when the registry does not show its tunnel closed. */
  lemma OneSorted(s: State, t: State, body: Bytes) returns (u: State)
    requires Reaches(s, t) && Alone(t) && t.workers[0].Idle? && t.pending == [] && t.publishing == []
    requires CloseArgsFromHeader(body).Ok? && Tunnel(body) !in t.closed
    ensures Reaches(s, u) && Alone(u) && u.pending == [] && u.publishing == []
    ensures u.closed == t.closed && u.settled == t.settled && u.observed == t.observed
    ensures u.workers[0].Sorting? && u.workers[0].claimed == [] && |u.workers[0].work| == 1
    ensures u.workers[0].work[0].close.tunnelId == Tunnel(body)
  {
    TwoSpellingsAccepted(body);
    BodyAndHeaderAgree(body);
    assert |body| >= SETTLE_BODY_HEADER_LEN;
    hide Reaches, CloseArgsFromHeader, SettleReply;
    var id, header := Tunnel(body), body[..SETTLE_BODY_HEADER_LEN];
    var e := Entry(t.counter, id, header);
    assert SettleReply(id, body, {}) == Accepted;
    ReachesFurther(s, t, Accept(id, body));
    var accepted := AcceptStep(t, id, body);
    assert accepted.publishing == [e];
    ReachesFurther(s, accepted, Publish(0));
    var published := accepted.(publishing := [], pending := [e]);
    assert Next(accepted, Publish(0)) == published;
    ReachesFurther(s, published, Claim(0, 1));
    var claimed := published.(pending := [], workers := [Sorting([e], {}, [])]);
    assert published.pending[..1] == [e] && published.pending[1..] == [];
    assert published.workers[0 := Sorting([e], {}, [])] == [Sorting([e], {}, [])];
    assert Next(published, Claim(0, 1)) == claimed;
    u := OneMoreSorted(s, claimed, e);
  }

  lemma OneMoreSorted(s: State, t: State, e: Entry) returns (u: State)
    requires Reaches(s, t) && Alone(t) && t.workers[0] == Sorting([e], {}, []) && e.tunnelId !in t.closed
    requires CloseArgsFromHeader(e.header).Ok?
    ensures Reaches(s, u) && Alone(u) && u.pending == t.pending && u.publishing == t.publishing
    ensures u.closed == t.closed && u.settled == t.settled && u.observed == t.observed
    ensures u.workers[0] == Sorting([], {e.tunnelId}, [Work(e, CloseArgsFromHeader(e.header).value)])
  {
    hide Reaches, CloseArgsFromHeader;
    ReachesFurther(s, t, Sort(0));
    SortStepEffect(t);
    u := SortStep(t, 0);
    assert [e][1..] == [];
  }

  /** From every quiet start: a tunnel is settled, a late event says it is active, and the same body sent again is put
      into a batch again, though the tunnel is settled. */
  lemma SettledIsSubmittedAgain(s: State, body: Bytes) returns (reopened: State, again: State)
    requires Initial(s) && Alone(s) && CloseArgsFromHeader(body).Ok?
    ensures Reaches(s, reopened) && Tunnel(body) in reopened.settled && Tunnel(body) !in reopened.closed
    ensures Reaches(s, again) && Alone(again) && again.workers[0].Sorting? && again.workers[0].claimed == []
    ensures Tunnel(body) in again.settled && |again.workers[0].work| == 1
    ensures again.workers[0].work[0].close.tunnelId == Tunnel(body)
  {
    hide Reaches, CloseArgsFromHeader, Canonical;
    var t := SettledOnce(s, body);
    var id := Tunnel(body);
    ParsedIsCanonical(body);
    ReachesFurther(s, t, Observe(id, Active));
    reopened := ObserveStep(t, id, Active);
    again := OneSorted(s, reopened, body);
  }
}
