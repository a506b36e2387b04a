/** What every run of the settlement pipeline keeps: no accepted settlement is lost, none is invented,
    and a stored body is the body that was accepted. */
module SettleProtocolSafety {
  import opened Wrappers
  import opened Settlement
  import opened SettleHeader
  import opened SettleProtocol
  import opened SettleProtocolProofs

  // ---------------------------------------------------------------------------------------------
  // Names of one tunnel

  lemma BodyAndHeaderAgree(body: Bytes)
    requires |body| >= SETTLE_BODY_HEADER_LEN
    ensures CloseArgsFromHeader(body[..SETTLE_BODY_HEADER_LEN]) == CloseArgsFromHeader(body)
  {
    hide ParseSettleBody;
    HeaderIsAllThatCounts(body);
  }

  /** What the route answers: a body without a good header is bad; one whose tunnel is not the path's, up to spelling,
      is a mismatch; one whose path the registry shows closed is settled already; every other one is accepted. */
  lemma RepliesExactly(path: string, body: Bytes, closed: set<string>)
    ensures var reply, good := SettleReply(path, body, closed), |body| >= 229 && body[0] == 1;
      && (reply == BadSettlement <==> !good)
      && (reply == TunnelMismatch <==> good && NormalizeTunnelId(path) != HexEncode(body[1..33]))
      && (reply == Accepted <==> good && NormalizeTunnelId(path) == HexEncode(body[1..33]) && path !in closed)
  {
    if |body| >= 229 {
      NormalizeCanonical(body[1..33]);
    }
    hide NormalizeTunnelId, HexEncode;
  }

  /** What sorting does with an entry: a repeated or closed id is dropped with its body; a header that does not parse is
      announced as failed and dropped; any other close is kept, with its body, behind those before it. */
  lemma SortDecides(s: State, w: nat)
    requires Enabled(s, Sort(w))
    ensures var x, y, t := s.workers[w], SortStep(s, w).workers[w], SortStep(s, w);
      var q := x.claimed[0];
      var drop, close := q.tunnelId in x.seen || q.tunnelId in s.closed, CloseArgsFromHeader(q.header);
      && y.Sorting? && y.claimed == x.claimed[1..] && y.seen == x.seen + {q.tunnelId}
      && (y.work == x.work || (!drop && close.Ok? && y.work == x.work + [Work(q, close.value)]))
      && (y.work == x.work <==> drop || close.Err?)
      && (t.bodies == if y.work == x.work then s.bodies - {q.id} else s.bodies)
      && t.dead == s.dead + (if !drop && close.Err? then {q.tunnelId} else {})
  {
    hide CloseArgsFromHeader;
  }

  /** The closes a worker has parsed and not yet recorded. */
  function WorkOf(x: Worker): seq<Work> {
    match x
    case Idle => []
    case Sorting(_, _, work) => work
    case Recording(todo, _, _) => todo
    case Requeueing(todo, _, _, _) => todo
  }

  /** Each close a worker holds pays out an accepted settlement. */
  lemma WorkPaysOut(s: State, w: nat, k: nat) returns (p: SettleBody, entries: Bytes)
    requires EntriesGenuine(s) && WorkersSound(s) && w < |s.workers| && k < |WorkOf(s.workers[w])|
    ensures p.Fits() && EncodeHeader(p) + entries in s.accepted && PaysOut(WorkOf(s.workers[w])[k].close, p)
  {
    var x, work := s.workers[w], WorkOf(s.workers[w])[k];
    assert Entries(WorkOf(x))[k] == work.entry;
    assert work.entry in x.Held();
    assert WorkerSound(s, x) && Parsed(work);
    assert Genuine(s, work.entry) by {
      assert HeldAt(s, work.entry);
    }
    hide EncodeHeader, ParseSettleBody, HexEncode, NormalizeTunnelId, PaysOut;
    var body := s.bodies[work.entry.id];
    p, entries := ParseSettleBody(work.entry.header).value, body[SETTLE_BODY_HEADER_LEN..];
    EncodeInvertsParse(work.entry.header);
    assert EncodeHeader(p) + entries == body;
    ClosePaysOut(p, []);
    assert EncodeHeader(p) + [] == work.entry.header;
  }

  /** Tunnels whose ids normalize alike are one tunnel. */
  lemma OneTunnel(a: Bytes, b: Bytes)
    requires CloseArgsFromHeader(a).Ok? && CloseArgsFromHeader(b).Ok?
    requires NormalizeTunnelId(Tunnel(a)) == NormalizeTunnelId(Tunnel(b))
    ensures Tunnel(a) == Tunnel(b)
  {
    NormalizedIdsNameOneTunnel(a[1..33], b[1..33]);
  }

  /** What a header names is spelled as the chain spells it. */
  lemma ParsedIsCanonical(header: Bytes)
    requires CloseArgsFromHeader(header).Ok?
    ensures Canonical(Tunnel(header))
  {
    assert |header[1..33]| == 32 && Tunnel(header) == "0x" + HexEncode(header[1..33]);
  }

  /** Whatever was ever shown closed is spelled as the chain spells it. */
  lemma ClosedIsCanonical(s: State, id: string)
    requires NothingInvented(s) && id in EverClosed(s)
    ensures Canonical(id)
  {
    hide CloseArgsFromHeader, Canonical;
    if id in s.settled {
      var b :| b in s.accepted && TunnelOf(b, id);
      ParsedIsCanonical(b);
    }
  }

  /** A closed id that an entry is queued under is the very tunnel the entry is about, whoever closed it. */
  lemma ClosedIdIsTheTunnel(s: State, e: Entry)
    requires NothingInvented(s) && Genuine(s, e) && e.tunnelId in EverClosed(s)
    ensures Tunnel(e.header) == e.tunnelId
  {
    hide NormalizeTunnelId, HexEncode, NothingInvented;
    ClosedIsCanonical(s, e.tunnelId);
    ParsedIsCanonical(e.header);
    var a: Bytes :| |a| == 32 && e.tunnelId == "0x" + HexEncode(a);
    var b: Bytes :| |b| == 32 && Tunnel(e.header) == "0x" + HexEncode(b);
    NormalizedIdsNameOneTunnel(a, b);
  }

  // ---------------------------------------------------------------------------------------------
  // Where entries come from

  /** The entry a step brings into the system, if it brings one. */
  ghost predicate Brings(s: State, a: Action, e: Entry)
    requires Enabled(s, a)
  {
    match a
    case Accept(path, body) => |body| >= SETTLE_BODY_HEADER_LEN
        && e == Entry(s.counter, path, body[..SETTLE_BODY_HEADER_LEN])
    case Record(w) =>
      var x := s.workers[w];
      x.results[0].Transient? && e == Entry(s.counter, x.todo[0].close.tunnelId, x.todo[0].entry.header)
    case _ => false
  }

  lemma HeldElsewhere(s: State, t: State, w: nat, e: Entry)
    requires w < |s.workers| == |t.workers| && t.workers == s.workers[w := t.workers[w]]
    requires HeldAt(t, e) && e !in t.pending && e !in t.publishing && e !in t.workers[w].Held()
    ensures HeldAt(s, e)
  {
    var v :| 0 <= v < |t.workers| && e in t.workers[v].Held();
    assert e in s.workers[v].Held();
  }

  lemma MembersOfEntries(work: seq<Work>, e: Entry)
    ensures e in Entries(work) <==> exists k | 0 <= k < |work| :: work[k].entry == e
  {
    if k :| 0 <= k < |work| && work[k].entry == e {
      assert Entries(work)[k] == e;
    }
  }

  lemma RestOfEntries(work: seq<Work>)
    requires work != []
    ensures Entries(work) == [work[0].entry] + Entries(work[1..])
  {
  }

  lemma SorterHolds(s: State, w: nat, e: Entry)
    requires Enabled(s, Sort(w)) && e in SortStep(s, w).workers[w].Held()
    ensures e in s.workers[w].Held()
  {
    hide CloseArgsFromHeader;
    var x, y := s.workers[w], SortStep(s, w).workers[w];
    assert x.claimed == [x.claimed[0]] + x.claimed[1..];
    if y.work != x.work {
      EntriesConcat(x.work, [y.work[|x.work|]]);
      assert Entries([y.work[|x.work|]]) == [x.claimed[0]];
    }
  }

  lemma RecorderHolds(s: State, w: nat, e: Entry)
    requires Enabled(s, Record(w)) && e in RecordStep(s, w).workers[w].Held()
    ensures e in s.workers[w].Held() || Brings(s, Record(w), e)
  {
    RestOfEntries(s.workers[w].todo);
  }

  /** The worker a step moves holds nothing it did not hold, take from the queue, or bring. */
  lemma WorkerHolds(s: State, a: Action, w: nat, e: Entry)
    requires Enabled(s, a) && OfWorker(a) && a.w == w
    requires e in Next(s, a).workers[w].Held()
    ensures e in s.workers[w].Held() || e in s.pending || Brings(s, a, e)
  {
    match a
    case Claim(_, max) =>
    case Sort(_) =>
      hide SortStep;
      SorterHolds(s, w, e);
    case Submit(_, outcomes) =>
    case Record(_) =>
      hide RecordStep;
      RecorderHolds(s, w, e);
    case Push(_) => RestOfEntries(s.workers[w].todo);
    case Ack(_) =>
  }

  lemma HeldFrom(s: State, a: Action, e: Entry)
    requires Enabled(s, a) && HeldAt(Next(s, a), e)
    ensures HeldAt(s, e) || Brings(s, a, e)
  {
    var t := Next(s, a);
    if OfWorker(a) {
      if e in t.workers[a.w].Held() {
        WorkerHolds(s, a, a.w, e);
      } else if e in t.pending {
        if a.Push? && e == s.workers[a.w].again {
          assert e in s.workers[a.w].Held();
        }
      } else if e !in t.publishing {
        HeldElsewhere(s, t, a.w, e);
      }
    }
  }

  // ---------------------------------------------------------------------------------------------
  // Entries stay genuine

  lemma AcceptBringsGenuine(s: State, path: string, body: Bytes, e: Entry)
    requires Enabled(s, Accept(path, body)) && Brings(s, Accept(path, body), e)
    ensures Genuine(Next(s, Accept(path, body)), e)
  {
    hide NormalizeTunnelId;
    BodyAndHeaderAgree(body);
  }

  lemma RecordBringsGenuine(s: State, w: nat, e: Entry)
    requires EntriesGenuine(s) && WorkersSound(s) && BodiesExact(s)
    requires Enabled(s, Record(w)) && Brings(s, Record(w), e)
    ensures Genuine(Next(s, Record(w)), e)
  {
    hide NormalizeTunnelId, CloseArgsFromHeader, BodiesExact;
    var x := s.workers[w];
    assert WorkerSound(s, x) && Parsed(x.todo[0]);
    RestOfEntries(x.todo);
    var q := x.todo[0].entry;
    assert q in x.Held();
    assert HeldAt(s, q);
    HeldIsStored(s, q);
  }

  /** No stored body is ever overwritten. */
  lemma BodiesUnchanged(s: State, a: Action, id: nat)
    requires BodiesExact(s) && Enabled(s, a) && id in s.bodies && id in Next(s, a).bodies
    ensures Next(s, a).bodies[id] == s.bodies[id]
  {
  }

  /** Histories only grow, and bodies are accepted by handlers only. */
  lemma HistoriesGrow(s: State, a: Action)
    requires Enabled(s, a)
    ensures var t := Next(s, a);
      && EverClosed(s) <= EverClosed(t) && s.dead <= t.dead
      && s.accepted <= t.accepted <= s.accepted + if a.Accept? then {a.body} else {}
  {
    hide CloseArgsFromHeader, Canonical;
  }

  lemma StepKeepsGenuine(s: State, a: Action)
    requires EntriesGenuine(s) && WorkersSound(s) && BodiesExact(s) && Enabled(s, a)
    ensures EntriesGenuine(Next(s, a))
  {
    hide BodiesExact, CloseArgsFromHeader, NormalizeTunnelId, WorkersSound, Next, HeldAt;
    var t := Next(s, a);
    StepKeepsBodies(s, a);
    HistoriesGrow(s, a);
    forall e: Entry | HeldAt(t, e) ensures Genuine(t, e) {
      HeldFrom(s, a, e);
      if Brings(s, a, e) {
        match a
        case Accept(path, body) => AcceptBringsGenuine(s, path, body, e);
        case Record(w) => RecordBringsGenuine(s, w, e);
        case _ =>
      } else {
        HeldIsStored(t, e);
        BodiesUnchanged(s, a, e.id);
      }
    }
  }

  // ---------------------------------------------------------------------------------------------
  // Workers keep their books

  /** A worker the step does not move stays sound. */
  lemma OtherWorkerStaysSound(s: State, a: Action, v: nat)
    requires WorkersSound(s) && BodiesExact(s) && Enabled(s, a) && v < |s.workers|
    requires !OfWorker(a) || a.w != v
    ensures WorkerSound(Next(s, a), s.workers[v])
  {
    hide Next, BodiesExact, CloseArgsFromHeader;
    var t, x := Next(s, a), s.workers[v];
    HistoriesGrow(s, a);
    assert WorkerSound(s, x);
    hide WorkersSound;
    if x.Requeueing? {
      RestOfEntries(x.todo);
      assert x.again in x.Held() && x.todo[0].entry in x.Held();
      HeldIsStored(s, x.again);
      HeldIsStored(s, x.todo[0].entry);
      if x.again.id in t.bodies && x.todo[0].entry.id in t.bodies {
        BodiesUnchanged(s, a, x.again.id);
        BodiesUnchanged(s, a, x.todo[0].entry.id);
      }
    }
  }

  lemma SorterStaysSound(s: State, w: nat)
    requires WorkersSound(s) && Enabled(s, Sort(w)) && EntriesGenuine(s) && s.closed <= EverClosed(s)
    ensures WorkerSound(SortStep(s, w), SortStep(s, w).workers[w])
  {
    hide CloseArgsFromHeader, NormalizeTunnelId;
    var t := SortStep(s, w);
    var x, y := s.workers[w], t.workers[w];
    var q := x.claimed[0];
    assert WorkerSound(s, x);
    assert q in x.Held() && HeldAt(s, q) && Genuine(s, q);
    forall id | id in y.seen
      ensures id in EverClosed(t) || exists k | 0 <= k < |y.work| :: y.work[k].entry.tunnelId == id
    {
      if id in x.seen {
        if id !in EverClosed(s) {
          var k :| 0 <= k < |x.work| && x.work[k].entry.tunnelId == id;
          assert y.work[k] == x.work[k];
        }
      } else if id !in EverClosed(s) {
        assert y.work[|x.work|].entry.tunnelId == id;
      }
    }
  }

  lemma RecorderStaysSound(s: State, w: nat)
    requires WorkersSound(s) && Enabled(s, Record(w)) && BodiesExact(s)
    ensures WorkerSound(RecordStep(s, w), RecordStep(s, w).workers[w])
  {
    hide CloseArgsFromHeader, BodiesExact;
    var x := s.workers[w];
    assert WorkerSound(s, x);
    RestOfEntries(x.todo);
    assert x.todo[0].entry in x.Held();
    HeldIsStored(s, x.todo[0].entry);
  }

  lemma MovedWorkerStaysSound(s: State, a: Action)
    requires WorkersSound(s) && BodiesExact(s) && EntriesGenuine(s) && s.closed <= EverClosed(s) && Enabled(s, a)
        && OfWorker(a)
    ensures WorkerSound(Next(s, a), Next(s, a).workers[a.w])
  {
    hide CloseArgsFromHeader, BodiesExact, EntriesGenuine;
    assert WorkerSound(s, s.workers[a.w]);
    match a
    case Sort(w) => SorterStaysSound(s, w);
    case Record(w) => RecorderStaysSound(s, w);
    case _ =>
  }

  lemma StepKeepsWorkers(s: State, a: Action)
    requires WorkersSound(s) && BodiesExact(s) && EntriesGenuine(s) && s.closed <= EverClosed(s) && Enabled(s, a)
    ensures WorkersSound(Next(s, a))
  {
    var t := Next(s, a);
    forall v: nat | v < |t.workers| ensures WorkerSound(t, t.workers[v]) {
      if !OfWorker(a) || a.w != v {
        OtherWorkerStaysSound(s, a, v);
        hide WorkerSound;
        assert t.workers[v] == s.workers[v];
      } else {
        MovedWorkerStaysSound(s, a);
      }
    }
  }

  // ---------------------------------------------------------------------------------------------
  // Nothing is invented

  /** A held entry leads back to an accepted body about its tunnel. */
  lemma EntryHasBody(s: State, e: Entry)
    requires Genuine(s, e)
    ensures exists b | b in s.accepted :: TunnelOf(b, Tunnel(e.header))
  {
    hide NormalizeTunnelId;
    var b := s.bodies[e.id];
    BodyAndHeaderAgree(b);
    assert TunnelOf(b, Tunnel(e.header));
  }

  /** The entry at the front of a worker's record comes from an accepted body. */
  lemma FrontWasAccepted(s: State, w: nat)
    requires EntriesGenuine(s) && WorkersSound(s) && Enabled(s, Record(w))
    ensures exists b | b in s.accepted :: TunnelOf(b, s.workers[w].todo[0].close.tunnelId)
  {
    hide CloseArgsFromHeader, Genuine, TunnelOf;
    var x := s.workers[w];
    assert WorkerSound(s, x) && Parsed(x.todo[0]);
    RestOfEntries(x.todo);
    var q := x.todo[0].entry;
    assert q in x.Held() && HeldAt(s, q);
    EntryHasBody(s, q);
  }

  lemma RecordInventsNothing(s: State, w: nat)
    requires NothingInvented(s) && EntriesGenuine(s) && WorkersSound(s) && Enabled(s, Record(w))
    ensures NothingInvented(RecordStep(s, w))
  {
    hide EntriesGenuine, WorkersSound, RecordStep, TunnelOf;
    FrontWasAccepted(s, w);
    RecordAnnounces(s, w);
  }

  /** Recording closes or dead-letters at most the tunnel of the entry at the front. */
  lemma RecordAnnounces(s: State, w: nat)
    requires Enabled(s, Record(w))
    ensures var t, id := RecordStep(s, w), s.workers[w].todo[0].close.tunnelId;
      && t.closed <= s.closed + t.settled && s.settled <= t.settled <= s.settled + {id}
      && t.observed == s.observed && t.dead <= s.dead + {id} && t.accepted == s.accepted
  {
  }

  lemma StepInventsNothing(s: State, a: Action)
    requires NothingInvented(s) && EntriesGenuine(s) && WorkersSound(s) && Enabled(s, a)
    ensures NothingInvented(Next(s, a))
  {
    if a.Record? {
      hide NothingInvented, EntriesGenuine, WorkersSound;
      RecordInventsNothing(s, a.w);
    } else {
      if a.Sort? {
        var q := s.workers[a.w].claimed[0];
        assert q in s.workers[a.w].Held() && HeldAt(s, q) && Genuine(s, q);
      }
      QuietStepAnnounces(s, a);
      hide EntriesGenuine, WorkersSound, Next, TunnelOf, Canonical;
    }
  }

  /** Other steps close and announce nothing; the indexer may add to what the registry shows. */
  lemma QuietStepAnnounces(s: State, a: Action)
    requires Enabled(s, a) && !a.Record?
    requires a.Sort? ==> CloseArgsFromHeader(s.workers[a.w].claimed[0].header).Ok?
    ensures var t := Next(s, a);
      && t.settled == s.settled && t.dead == s.dead && s.accepted <= t.accepted
      && t.closed <= s.closed + t.observed
      && s.observed <= t.observed
      && (forall id | id in t.observed :: id in s.observed || Canonical(id))
  {
    hide CloseArgsFromHeader, Canonical;
  }

  // ---------------------------------------------------------------------------------------------
  // Nothing is lost

  lemma LiveElsewhere(s: State, t: State, w: nat, e: Entry)
    requires w < |s.workers| == |t.workers| && t.workers == s.workers[w := t.workers[w]]
    requires t.publishing == s.publishing
    requires Live(s, e) && e !in s.pending && e !in s.workers[w].Unresolved()
    ensures Live(t, e)
  {
    if e !in s.publishing {
      var v :| 0 <= v < |s.workers| && e in s.workers[v].Unresolved();
      assert e in t.workers[v].Unresolved();
    }
  }

  lemma LiveIsHeld(s: State, e: Entry)
    requires Live(s, e)
    ensures HeldAt(s, e)
  {
    if e !in s.pending && e !in s.publishing {
      var v :| 0 <= v < |s.workers| && e in s.workers[v].Unresolved();
      assert e in s.workers[v].Held();
    }
  }

  ghost predicate StillWanted(s: State, e: Entry) {
    CloseArgsFromHeader(e.header).Ok? && Accounted(s, Tunnel(e.header))
  }

  lemma LiveIsWanted(s: State, e: Entry)
    requires Live(s, e) && CloseArgsFromHeader(e.header).Ok?
    ensures StillWanted(s, e)
  {
  }

  lemma UnresolvedIsLive(s: State, w: nat, e: Entry)
    requires w < |s.workers| && e in s.workers[w].Unresolved()
    ensures Live(s, e)
  {
  }

  /** A duplicate or closed entry may go: the tunnel is closed, or the entry it duplicates is kept. */
  lemma DroppedIsWanted(s: State, w: nat)
    requires Enabled(s, Sort(w)) && EntriesGenuine(s) && WorkersSound(s) && NothingInvented(s)
    requires var x := s.workers[w]; x.claimed[0].tunnelId in x.seen || x.claimed[0].tunnelId in s.closed
    ensures StillWanted(SortStep(s, w), s.workers[w].claimed[0])
  {
    hide CloseArgsFromHeader, NormalizeTunnelId;
    var t := SortStep(s, w);
    var x := s.workers[w];
    var q := x.claimed[0];
    assert q in x.Held() && HeldAt(s, q) && Genuine(s, q);
    assert WorkerSound(s, x);
    assert s.closed <= EverClosed(s);
    hide NothingInvented;
    if q.tunnelId in EverClosed(s) {
      ClosedIdIsTheTunnel(s, q);
    } else {
      var k :| 0 <= k < |x.work| && x.work[k].entry.tunnelId == q.tunnelId;
      var e := x.work[k].entry;
      MembersOfEntries(x.work, e);
      assert e in x.Held() && HeldAt(s, e) && Genuine(s, e);
      OneTunnel(e.header, q.header);
      assert e in t.workers[w].Unresolved();
      UnresolvedIsLive(t, w, e);
    }
  }

  lemma SortLosesNothing(s: State, w: nat, e: Entry)
    requires Enabled(s, Sort(w)) && EntriesGenuine(s) && WorkersSound(s) && NothingInvented(s)
    requires e in s.workers[w].Unresolved()
    ensures StillWanted(SortStep(s, w), e)
  {
    var t := SortStep(s, w);
    var x := s.workers[w];
    var q := x.claimed[0];
    assert e in x.Held() && HeldAt(s, e) && Genuine(s, e);
    assert HeldAt(s, q) && Genuine(s, q);
    hide EntriesGenuine, Genuine;
    if e == q && (q.tunnelId in x.seen || q.tunnelId in s.closed) {
      DroppedIsWanted(s, w);
    } else {
      hide CloseArgsFromHeader, WorkersSound, NothingInvented;
      var y := t.workers[w];
      assert x.claimed == [q] + x.claimed[1..];
      if y.work != x.work {
        EntriesConcat(x.work, [y.work[|x.work|]]);
        assert Entries([y.work[|x.work|]]) == [q];
      }
      assert e in y.Unresolved();
      UnresolvedIsLive(t, w, e);
      LiveIsWanted(t, e);
    }
  }

  lemma RecordLosesNothing(s: State, w: nat, e: Entry)
    requires Enabled(s, Record(w)) && WorkersSound(s) && CloseArgsFromHeader(e.header).Ok?
    requires e in s.workers[w].Unresolved()
    ensures StillWanted(RecordStep(s, w), e)
  {
    hide CloseArgsFromHeader, RecordStep, Live;
    var t, x := RecordStep(s, w), s.workers[w];
    assert WorkerSound(s, x) && Parsed(x.todo[0]);
    hide WorkersSound, WorkerSound;
    RecordResolves(s, w, e);
    if e in t.workers[w].Unresolved() {
      UnresolvedIsLive(t, w, e);
      LiveIsWanted(t, e);
    } else {
      assert Tunnel(e.header) == x.todo[0].close.tunnelId;
    }
  }

  /** The entry at the front gets its verdict, or is put back; the others wait. */
  lemma RecordResolves(s: State, w: nat, e: Entry)
    requires Enabled(s, Record(w)) && e in s.workers[w].Unresolved()
    ensures var t, x := RecordStep(s, w), s.workers[w];
      && w < |t.workers|
      && (|| e in t.workers[w].Unresolved()
          || (e == x.todo[0].entry && (x.todo[0].close.tunnelId in t.settled || x.todo[0].close.tunnelId in t.dead)))
  {
    RestOfEntries(s.workers[w].todo);
  }

  lemma PushLosesNothing(s: State, w: nat, e: Entry)
    requires Enabled(s, Push(w)) && WorkersSound(s) && CloseArgsFromHeader(e.header).Ok?
    requires e in s.workers[w].Unresolved()
    ensures StillWanted(Next(s, Push(w)), e)
  {
    hide CloseArgsFromHeader;
    var t, x := Next(s, Push(w)), s.workers[w];
    assert WorkerSound(s, x);
    RestOfEntries(x.todo);
    assert x.again in t.pending && Live(t, x.again);
    if e in t.workers[w].Unresolved() {
      UnresolvedIsLive(t, w, e);
      LiveIsWanted(t, e);
    } else {
      assert e.header == x.again.header;
    }
  }

  lemma ClaimLosesNothing(s: State, w: nat, max: nat, e: Entry)
    requires Enabled(s, Claim(w, max)) && e in s.pending
    ensures Live(Next(s, Claim(w, max)), e)
  {
    var t := Next(s, Claim(w, max));
    var n := if max < |s.pending| then max else |s.pending|;
    assert s.pending == s.pending[..n] + s.pending[n..];
    if e !in t.pending {
      assert e in t.workers[w].Unresolved();
    }
  }

  lemma HandlerLosesNothing(s: State, a: Action, e: Entry)
    requires Enabled(s, a) && !OfWorker(a) && Live(s, e)
    ensures Live(Next(s, a), e)
  {
    var t := Next(s, a);
    assert t.workers == s.workers;
    if a.Publish? && e in s.publishing && e != s.publishing[a.k] {
      var j :| 0 <= j < |s.publishing| && s.publishing[j] == e;
      assert e in s.publishing[..a.k] || e in s.publishing[a.k + 1..];
    }
  }

  /** Whatever was wanted by a live entry is still wanted after the step. */
  lemma StepKeepsWanted(s: State, a: Action, e: Entry)
    requires EntriesGenuine(s) && WorkersSound(s) && NothingInvented(s) && Enabled(s, a) && Live(s, e)
    ensures StillWanted(Next(s, a), e)
  {
    LiveIsHeld(s, e);
    assert Genuine(s, e);
    hide EntriesGenuine, WorkersSound, NothingInvented, Genuine, CloseArgsFromHeader, StillWanted, Next, Live;
    if !OfWorker(a) {
      HandlerLosesNothing(s, a, e);
      LiveIsWanted(Next(s, a), e);
    } else if e in s.workers[a.w].Unresolved() {
      WorkerLosesNothing(s, a, e);
    } else {
      ElsewhereLosesNothing(s, a, e);
      LiveIsWanted(Next(s, a), e);
    }
  }

  /** A worker's step keeps live what lives outside it. */
  lemma ElsewhereLosesNothing(s: State, a: Action, e: Entry)
    requires Enabled(s, a) && OfWorker(a) && Live(s, e) && e !in s.workers[a.w].Unresolved()
    ensures Live(Next(s, a), e)
  {
    hide CloseArgsFromHeader;
    if a.Claim? && e in s.pending {
      ClaimLosesNothing(s, a.w, a.max, e);
    } else if e !in s.pending {
      LiveElsewhere(s, Next(s, a), a.w, e);
    }
  }

  lemma WorkerLosesNothing(s: State, a: Action, e: Entry)
    requires EntriesGenuine(s) && WorkersSound(s) && NothingInvented(s) && Enabled(s, a) && OfWorker(a)
    requires CloseArgsFromHeader(e.header).Ok? && e in s.workers[a.w].Unresolved()
    ensures StillWanted(Next(s, a), e)
  {
    hide EntriesGenuine, WorkersSound, NothingInvented, CloseArgsFromHeader, Accounted;
    match a
    case Sort(w) => SortLosesNothing(s, w, e);
    case Record(w) => RecordLosesNothing(s, w, e);
    case Push(w) => PushLosesNothing(s, w, e);
    case Submit(w, _) =>
      var t := Next(s, a);
      assert e in t.workers[w].Unresolved();
      UnresolvedIsLive(t, w, e);
      LiveIsWanted(t, e);
    case _ =>
  }

  lemma AcceptedIsWanted(s: State, path: string, body: Bytes)
    requires Enabled(s, Accept(path, body))
    ensures CloseArgsFromHeader(body).Ok? && Accounted(Next(s, Accept(path, body)), Tunnel(body))
  {
    var t := AcceptStep(s, path, body);
    var e := t.publishing[|s.publishing|];
    BodyAndHeaderAgree(body);
    assert Live(t, e);
  }

  lemma StepLosesNothing(s: State, a: Action)
    requires EntriesGenuine(s) && WorkersSound(s) && NothingInvented(s) && NothingLost(s) && Enabled(s, a)
    ensures NothingLost(Next(s, a))
  {
    hide Next, CloseArgsFromHeader, EntriesGenuine, WorkersSound, NothingInvented, Live;
    var t := Next(s, a);
    HistoriesGrow(s, a);
    forall b | b in t.accepted ensures CloseArgsFromHeader(b).Ok? && Accounted(t, Tunnel(b)) {
      if b in s.accepted {
        var id := Tunnel(b);
        if id !in EverClosed(s) && id !in s.dead {
          var e: Entry :| Live(s, e) && CloseArgsFromHeader(e.header).Ok? && Tunnel(e.header) == id;
          StepKeepsWanted(s, a, e);
        }
      } else {
        AcceptedIsWanted(s, a.path, a.body);
      }
    }
  }

  // ---------------------------------------------------------------------------------------------
  // Runs

  lemma StepKeepsInv(s: State, a: Action)
    requires Inv(s) && Enabled(s, a)
    ensures Inv(Next(s, a))
  {
    assert s.closed <= EverClosed(s);
    hide BodiesExact, EntriesGenuine, WorkersSound, NothingInvented, NothingLost;
    StepKeepsBodies(s, a);
    StepKeepsGenuine(s, a);
    StepKeepsWorkers(s, a);
    StepInventsNothing(s, a);
    StepLosesNothing(s, a);
  }

  lemma {:induction false} NoneHeld(workers: seq<Worker>)
    requires forall w | 0 <= w < |workers| :: workers[w].Idle?
    ensures HeldBy(workers) == multiset{}
  {
    var parts := seq(|workers|, w requires 0 <= w < |workers| => HeldIds(workers[w]));
    assert forall w | 0 <= w < |parts| :: parts[w] == multiset{};
    SumOfNothing(parts);
  }

  lemma {:induction false} SumOfNothing(parts: seq<multiset<nat>>)
    requires forall w | 0 <= w < |parts| :: parts[w] == multiset{}
    ensures Sum(parts) == multiset{}
  {
    if parts != [] {
      SumOfNothing(parts[1..]);
    }
  }

  lemma InitialIsInv(s: State)
    requires Initial(s)
    ensures Inv(s)
  {
    NoneHeld(s.workers);
    assert multiset(s.bodies.Keys) == multiset{};
    assert forall e: Entry :: !HeldAt(s, e);
  }

  /** In every run, with any number of workers, handlers and the event indexer interleaved in any way, any verdicts from
      the chain and any events, however late: each accepted settlement's tunnel was closed, was announced as failed, or
      is still asked for by an entry that is queued, being queued or unresolved at a worker; the stored bodies are
      exactly those of the entries held, each the body that was accepted; and workers close and announce nothing that
      was not accepted. */
  lemma {:induction false} EveryRunIsSafe(run: seq<State>, i: nat)
    requires IsRun(run) && Initial(run[0]) && i < |run|
    ensures Inv(run[i])
  {
    if i == 0 {
      InitialIsInv(run[0]);
    } else {
      EveryRunIsSafe(run, i - 1);
      assert StepTo(run[i - 1], run[i]);
      var a: Action :| Enabled(run[i - 1], a) && run[i] == Next(run[i - 1], a);
      StepKeepsInv(run[i - 1], a);
    }
  }

  /** In every run, each close a worker is about to submit or record pays out an accepted body, field by field. */
  lemma EveryCloseWasAccepted(run: seq<State>, i: nat, w: nat, k: nat) returns (p: SettleBody, entries: Bytes)
    requires IsRun(run) && Initial(run[0]) && i < |run| && w < |run[i].workers| && k < |WorkOf(run[i].workers[w])|
    ensures p.Fits() && EncodeHeader(p) + entries in run[i].accepted
    ensures PaysOut(WorkOf(run[i].workers[w])[k].close, p)
  {
    hide EntriesGenuine, WorkersSound, PaysOut, EncodeHeader;
    EveryRunIsSafe(run, i);
    p, entries := WorkPaysOut(run[i], w, k);
  }

  ghost predicate SamePayload(s: State, a: Entry, b: Entry) {
    && a.header == b.header
    && a.id in s.bodies && b.id in s.bodies && s.bodies[a.id] == s.bodies[b.id]
  }

  /** What a busy node costs: the entry put back in the queue carries the header and the body of the one it
      replaces, which is acknowledged in its stead. */
  lemma RequeuedIntact(s: State, w: nat)
    requires WorkersSound(s) && BodiesExact(s) && Enabled(s, Push(w))
    ensures var t, x := Next(s, Push(w)), s.workers[w];
      && t.pending == s.pending + [x.again]
      && t.workers[w].toAck == x.toAck + [x.todo[0].entry]
      && SamePayload(t, x.again, x.todo[0].entry)
  {
    hide BodiesExact, CloseArgsFromHeader;
    var x := s.workers[w];
    assert WorkerSound(s, x);
    RestOfEntries(x.todo);
    assert x.todo[0].entry in x.Held() && x.again in x.Held();
    HeldIsStored(s, x.todo[0].entry);
    HeldIsStored(s, x.again);
  }

  /** Once nothing is queued, being queued or claimed, every accepted tunnel was closed or announced as failed,
      and no body is left behind. */
  lemma QuietMeansDecided(s: State)
    requires Inv(s) && s.pending == [] && s.publishing == [] && forall w | 0 <= w < |s.workers| :: s.workers[w].Idle?
    ensures forall b | b in s.accepted ::
        CloseArgsFromHeader(b).Ok? && (Tunnel(b) in EverClosed(s) || Tunnel(b) in s.dead)
    ensures s.bodies == map[]
  {
    assert forall e: Entry :: !Live(s, e);
    NoneHeld(s.workers);
    assert Located(s) == multiset{};
    forall id: nat
      ensures id !in s.bodies
    {
      assert multiset(s.bodies.Keys)[id] == 0;
    }
  }
}
