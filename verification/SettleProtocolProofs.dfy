/** Every step of the settlement pipeline keeps its invariant, so every run does. */
module SettleProtocolProofs {
  import opened Wrappers
  import opened Settlement
  import opened SettleHeader
  import opened SettleProtocol

  // ---------------------------------------------------------------------------------------------
  // Counting ids

  lemma IdsConcat(a: seq<Entry>, b: seq<Entry>)
    ensures Ids(a + b) == Ids(a) + Ids(b)
    ensures multiset(Ids(a + b)) == multiset(Ids(a)) + multiset(Ids(b))
  {
    assert Ids(a + b) == Ids(a) + Ids(b);
  }

  lemma IdsSplit(a: seq<Entry>, k: nat)
    requires k <= |a|
    ensures multiset(Ids(a)) == multiset(Ids(a[..k])) + multiset(Ids(a[k..]))
  {
    assert a == a[..k] + a[k..];
    IdsConcat(a[..k], a[k..]);
  }

  lemma IdsOne(e: Entry)
    ensures Ids([e]) == [e.id] && multiset(Ids([e])) == multiset{e.id}
  {
    assert Ids([e]) == [e.id];
  }

  lemma EntriesConcat(a: seq<Work>, b: seq<Work>)
    ensures Entries(a + b) == Entries(a) + Entries(b)
  {
  }

  lemma {:induction false} SumUpdate(parts: seq<multiset<nat>>, w: nat, x: multiset<nat>)
    requires w < |parts|
    ensures Sum(parts[w := x]) + parts[w] == Sum(parts) + x
    ensures parts[w] <= Sum(parts)
  {
    if w == 0 {
      assert parts[w := x][1..] == parts[1..];
    } else {
      SumUpdate(parts[1..], w - 1, x);
      assert parts[w := x][1..] == parts[1..][w - 1 := x];
      var rest, rest' := Sum(parts[1..]), Sum(parts[1..][w - 1 := x]);
      assert rest' + parts[w] == rest + x;
      assert (parts[0] + rest') + parts[w] == parts[0] + (rest' + parts[w]) == parts[0] + (rest + x)
          == (parts[0] + rest) + x;
    }
  }

  lemma HeldByUpdate(workers: seq<Worker>, w: nat, x: Worker)
    requires w < |workers|
    ensures HeldBy(workers[w := x]) + HeldIds(workers[w]) == HeldBy(workers) + HeldIds(x)
    ensures HeldIds(workers[w]) <= HeldBy(workers)
  {
    hide HeldIds, Sum;
    var parts := seq(|workers|, v requires 0 <= v < |workers| => HeldIds(workers[v]));
    var after := workers[w := x];
    assert seq(|after|, v requires 0 <= v < |after| => HeldIds(after[v])) == parts[w := HeldIds(x)];
    SumUpdate(parts, w, HeldIds(x));
  }

  lemma HeldByCounts(workers: seq<Worker>, w: nat)
    requires w < |workers|
    ensures HeldIds(workers[w]) <= HeldBy(workers)
  {
    HeldByUpdate(workers, w, Idle);
  }

  /** Only worker `w` and the queue change; the rest of what is located stays put. */
  ghost predicate OnlyWorker(s: State, t: State, w: nat) {
    && w < |s.workers| == |t.workers| && t.workers == s.workers[w := t.workers[w]]
    && t.publishing == s.publishing
  }

  ghost function QueueAnd(s: State, w: nat): multiset<nat>
    requires w < |s.workers|
  {
    multiset(Ids(s.pending)) + HeldIds(s.workers[w])
  }

  lemma LocatedUpdate(s: State, t: State, w: nat)
    requires OnlyWorker(s, t, w)
    ensures Located(t) + QueueAnd(s, w) == Located(s) + QueueAnd(t, w)
    ensures QueueAnd(s, w) <= Located(s)
  {
    HeldByUpdate(s.workers, w, t.workers[w]);
    hide HeldBy, HeldIds, Ids;
    Balance(multiset(Ids(s.pending)), multiset(Ids(t.pending)), HeldIds(s.workers[w]), HeldIds(t.workers[w]),
            HeldBy(s.workers), HeldBy(t.workers), multiset(Ids(s.publishing)));
  }

  lemma Balance(p: multiset<nat>, p': multiset<nat>, h: multiset<nat>, h': multiset<nat>,
                all: multiset<nat>, all': multiset<nat>, rest: multiset<nat>)
    requires all' + h == all + h'
    ensures (p' + rest + all') + (p + h) == (p + rest + all) + (p' + h')
  {
    forall id ensures ((p' + rest + all') + (p + h))[id] == ((p + rest + all) + (p' + h'))[id] {
      assert (all' + h)[id] == (all + h')[id];
    }
  }

  lemma QueueAndPlus(s: State, t: State, w: nat, ids: multiset<nat>)
    requires w < |s.workers| && w < |t.workers| && t.pending == s.pending
    requires HeldIds(t.workers[w]) == HeldIds(s.workers[w]) + ids
    ensures QueueAnd(t, w) == QueueAnd(s, w) + ids
  {
    hide HeldIds, Ids;
  }

  /** Ids only moved between the queue and worker `w`. */
  lemma Moved(s: State, t: State, w: nat)
    requires BodiesExact(s) && OnlyWorker(s, t, w) && QueueAnd(t, w) == QueueAnd(s, w)
    requires t.bodies == s.bodies && t.counter == s.counter
    ensures BodiesExact(t)
  {
    LocatedUpdate(s, t, w);
    hide Located, QueueAnd, OnlyWorker;
    Cancel(Located(s), Located(t), QueueAnd(s, w));
  }

  lemma Cancel(a: multiset<nat>, b: multiset<nat>, c: multiset<nat>)
    requires b + c == a + c
    ensures a == b
  {
    forall id ensures a[id] == b[id] {
      assert (b + c)[id] == (a + c)[id];
    }
  }

  lemma DropCancels(all: multiset<nat>, all': multiset<nat>, part: multiset<nat>, part': multiset<nat>,
                    ids: multiset<nat>)
    requires all' + part == all + part'
    requires part' + ids == part
    ensures all' + ids == all
  {
    forall id ensures (all' + ids)[id] == all[id] {
      assert (all' + part)[id] == (all + part')[id];
      assert (part' + ids)[id] == part[id];
    }
  }

  /** Worker `w` let go of ids that were stored, and their bodies are gone. */
  lemma Dropped(s: State, t: State, w: nat, es: seq<Entry>)
    requires BodiesExact(s) && OnlyWorker(s, t, w) && QueueAnd(t, w) + multiset(Ids(es)) == QueueAnd(s, w)
    requires t.bodies == s.bodies - IdSet(es) && t.counter == s.counter
    ensures BodiesExact(t)
  {
    LocatedUpdate(s, t, w);
    hide QueueAnd, OnlyWorker, Located, Ids;
    var ids := multiset(Ids(es));
    assert ids <= QueueAnd(s, w) <= Located(s);
    DropMany(s.bodies.Keys, es);
    assert t.bodies.Keys == s.bodies.Keys - IdSet(es);
    DropCancels(Located(s), Located(t), QueueAnd(s, w), QueueAnd(t, w), ids);
    Cancel(Located(t), multiset(t.bodies.Keys), ids);
  }

  /** A fresh id was stored and is held by worker `w`. */
  lemma Stored(s: State, t: State, w: nat, body: Bytes)
    requires BodiesExact(s) && OnlyWorker(s, t, w) && QueueAnd(t, w) == QueueAnd(s, w) + multiset{s.counter}
    requires t.bodies == s.bodies[s.counter := body] && t.counter == s.counter + 1
    ensures BodiesExact(t)
  {
    LocatedUpdate(s, t, w);
    hide QueueAnd, OnlyWorker, Located, Ids;
    AddOne(s.bodies.Keys, s.counter);
    assert t.bodies.Keys == s.bodies.Keys + {s.counter};
    DropCancels(Located(t), Located(s), QueueAnd(t, w), QueueAnd(s, w), multiset{s.counter});
  }

  lemma MemberIsCounted(es: seq<Entry>, e: Entry)
    requires e in es
    ensures e.id in multiset(Ids(es))
  {
    var k :| 0 <= k < |es| && es[k] == e;
    assert Ids(es)[k] == e.id;
  }

  /** Whatever is held is stored. */
  lemma HeldIsStored(s: State, e: Entry)
    requires BodiesExact(s) && HeldAt(s, e)
    ensures e.id in s.bodies && e.id < s.counter
  {
    if e in s.pending {
      MemberIsCounted(s.pending, e);
    } else if e in s.publishing {
      MemberIsCounted(s.publishing, e);
    } else {
      var w :| 0 <= w < |s.workers| && e in s.workers[w].Held();
      MemberIsCounted(s.workers[w].Held(), e);
      HeldByCounts(s.workers, w);
    }
    assert e.id in Located(s);
  }

  lemma AddOne(ids: set<nat>, id: nat)
    requires id !in ids
    ensures multiset(ids + {id}) == multiset(ids) + multiset{id}
  {
  }

  /** Removing a batch of ids held once each. */
  lemma DropMany(ids: set<nat>, es: seq<Entry>)
    requires multiset(Ids(es)) <= multiset(ids)
    ensures multiset(ids - IdSet(es)) + multiset(Ids(es)) == multiset(ids)
  {
    forall id ensures id in IdSet(es) <==> id in multiset(Ids(es)) {
      if id in IdSet(es) {
        var e :| e in es && e.id == id;
        MemberIsCounted(es, e);
      }
    }
  }

  // ---------------------------------------------------------------------------------------------
  // Stored bodies are exactly those of the entries held

  /** Ids moved between places, none added or dropped. */
  lemma SameLocated(s: State, t: State)
    requires BodiesExact(s) && t.bodies == s.bodies && t.counter == s.counter && Located(t) == Located(s)
    ensures BodiesExact(t)
  {
  }

  lemma AcceptKeepsBodies(s: State, path: string, body: Bytes)
    requires BodiesExact(s) && |body| >= SETTLE_BODY_HEADER_LEN
    ensures BodiesExact(AcceptStep(s, path, body))
  {
    var t := AcceptStep(s, path, body);
    var e := t.publishing[|s.publishing|];
    IdsConcat(s.publishing, [e]);
    IdsOne(e);
    AddOne(s.bodies.Keys, s.counter);
    assert t.bodies.Keys == s.bodies.Keys + {s.counter};
  }

  lemma PublishKeepsBodies(s: State, k: nat)
    requires BodiesExact(s) && Enabled(s, Publish(k))
    ensures BodiesExact(Next(s, Publish(k)))
  {
    var t := Next(s, Publish(k));
    var p := s.publishing;
    IdsSplit(p, k);
    IdsSplit(p[k..], 1);
    assert p[k..][..1] == [p[k]] && p[k..][1..] == p[k + 1..];
    IdsConcat(p[..k], p[k + 1..]);
    IdsConcat(s.pending, [p[k]]);
    SameLocated(s, t);
  }

  lemma ClaimKeepsBodies(s: State, w: nat, max: nat)
    requires BodiesExact(s) && Enabled(s, Claim(w, max))
    ensures BodiesExact(Next(s, Claim(w, max)))
  {
    hide BodiesExact;
    var t := Next(s, Claim(w, max));
    var n := if max < |s.pending| then max else |s.pending|;
    IdsSplit(s.pending, n);
    assert Entries([]) == [] && t.workers[w].Held() == s.pending[..n];
    Moved(s, t, w);
  }

  lemma SortedOut(claimed: seq<Entry>, work: seq<Entry>)
    requires claimed != []
    ensures multiset(Ids(claimed + work)) == multiset(Ids(claimed[1..] + work)) + multiset(Ids([claimed[0]]))
    ensures multiset(Ids(claimed + work)) == multiset(Ids(claimed[1..] + (work + [claimed[0]])))
  {
    var q := claimed[0];
    assert claimed + work == [q] + (claimed[1..] + work);
    IdsConcat([q], claimed[1..] + work);
    assert claimed[1..] + (work + [q]) == (claimed[1..] + work) + [q];
    IdsConcat(claimed[1..] + work, [q]);
  }

  lemma DropKeepsBodies(s: State, t: State, w: nat)
    requires BodiesExact(s) && OnlyWorker(s, t, w) && t.pending == s.pending && t.counter == s.counter
    requires s.workers[w].Sorting? && t.workers[w].Sorting? && s.workers[w].claimed != []
    requires t.workers[w].claimed == s.workers[w].claimed[1..] && t.workers[w].work == s.workers[w].work
    requires t.bodies == s.bodies - {s.workers[w].claimed[0].id}
    ensures BodiesExact(t)
  {
    hide BodiesExact, Ids;
    var x := s.workers[w];
    var q := x.claimed[0];
    SortedOut(x.claimed, Entries(x.work));
    assert HeldIds(x) == HeldIds(t.workers[w]) + multiset(Ids([q]));
    assert IdSet([q]) == {q.id};
    hide HeldIds, IdSet;
    QueueAndPlus(t, s, w, multiset(Ids([q])));
    hide QueueAnd;
    Dropped(s, t, w, [q]);
  }

  lemma KeepKeepsBodies(s: State, t: State, w: nat)
    requires BodiesExact(s) && OnlyWorker(s, t, w) && t.pending == s.pending && t.counter == s.counter
    requires s.workers[w].Sorting? && t.workers[w].Sorting? && s.workers[w].claimed != []
    requires t.workers[w].claimed == s.workers[w].claimed[1..]
    requires exists close :: t.workers[w].work == s.workers[w].work + [Work(s.workers[w].claimed[0], close)]
    requires t.bodies == s.bodies
    ensures BodiesExact(t)
  {
    hide BodiesExact, Ids;
    var x, y := s.workers[w], t.workers[w];
    SortedOut(x.claimed, Entries(x.work));
    EntriesConcat(x.work, [y.work[|x.work|]]);
    assert Entries([y.work[|x.work|]]) == [x.claimed[0]];
    assert HeldIds(x) == HeldIds(y);
    hide HeldIds;
    Moved(s, t, w);
  }

  lemma SortKeepsBodies(s: State, w: nat)
    requires BodiesExact(s) && Enabled(s, Sort(w))
    ensures BodiesExact(SortStep(s, w))
  {
    hide BodiesExact, CloseArgsFromHeader;
    var x := s.workers[w];
    var q := x.claimed[0];
    if q.tunnelId in x.seen || q.tunnelId in s.closed || CloseArgsFromHeader(q.header).Err? {
      DropKeepsBodies(s, SortStep(s, w), w);
    } else {
      assert SortStep(s, w).workers[w].work == x.work + [Work(q, CloseArgsFromHeader(q.header).value)];
      KeepKeepsBodies(s, SortStep(s, w), w);
    }
  }

  lemma SubmitKeepsBodies(s: State, w: nat, outcomes: seq<Outcome>)
    requires BodiesExact(s) && Enabled(s, Submit(w, outcomes))
    ensures BodiesExact(Next(s, Submit(w, outcomes)))
  {
    hide BodiesExact;
    var t := Next(s, Submit(w, outcomes));
    assert t.workers[w].Held() == s.workers[w].Held();
    assert HeldIds(t.workers[w]) == HeldIds(s.workers[w]);
    hide HeldIds;
    Moved(s, t, w);
  }

  /** Handing the first entry of the work left over to the acknowledgements. */
  lemma FirstDone(todo: seq<Work>, toAck: seq<Entry>)
    requires todo != []
    ensures multiset(Ids(Entries(todo[1..]) + (toAck + [todo[0].entry]))) == multiset(Ids(Entries(todo) + toAck))
  {
    var q := todo[0].entry;
    assert Entries(todo) == [q] + Entries(todo[1..]);
    IdsConcat([q], Entries(todo[1..]));
    IdsConcat(Entries(todo), toAck);
    IdsConcat(toAck, [q]);
    IdsConcat(Entries(todo[1..]), toAck + [q]);
  }

  lemma WithAgain(todo: seq<Entry>, again: Entry, toAck: seq<Entry>)
    ensures multiset(Ids(todo + [again] + toAck)) == multiset(Ids(todo + toAck)) + multiset(Ids([again]))
  {
    IdsConcat(todo, toAck);
    IdsConcat(todo, [again]);
    IdsConcat(todo + [again], toAck);
  }

  lemma RecordDoneKeepsBodies(s: State, w: nat)
    requires BodiesExact(s) && Enabled(s, Record(w)) && !s.workers[w].results[0].Transient?
    ensures BodiesExact(RecordStep(s, w))
  {
    hide BodiesExact, Ids;
    var t := RecordStep(s, w);
    var x := s.workers[w];
    FirstDone(x.todo, x.toAck);
    assert HeldIds(t.workers[w]) == HeldIds(x);
    hide HeldIds;
    Moved(s, t, w);
  }

  lemma RecordAgainKeepsBodies(s: State, w: nat)
    requires BodiesExact(s) && Enabled(s, Record(w)) && s.workers[w].results[0].Transient?
    ensures BodiesExact(RecordStep(s, w))
  {
    hide BodiesExact, Ids;
    var t := RecordStep(s, w);
    var x, y := s.workers[w], t.workers[w];
    WithAgain(Entries(x.todo), y.again, x.toAck);
    IdsOne(y.again);
    assert HeldIds(y) == HeldIds(x) + multiset{s.counter};
    hide HeldIds;
    QueueAndPlus(s, t, w, multiset{s.counter});
    hide QueueAnd, Entries;
    Stored(s, t, w, t.bodies[s.counter]);
  }

  lemma RecordKeepsBodies(s: State, w: nat)
    requires BodiesExact(s) && Enabled(s, Record(w))
    ensures BodiesExact(RecordStep(s, w))
  {
    hide BodiesExact, RecordStep;
    if s.workers[w].results[0].Transient? {
      RecordAgainKeepsBodies(s, w);
    } else {
      RecordDoneKeepsBodies(s, w);
    }
  }

  lemma PushKeepsBodies(s: State, w: nat)
    requires BodiesExact(s) && Enabled(s, Push(w))
    ensures BodiesExact(Next(s, Push(w)))
  {
    hide BodiesExact;
    var t := Next(s, Push(w));
    var x, y := s.workers[w], t.workers[w];
    FirstDone(x.todo, x.toAck);
    WithAgain(Entries(x.todo), x.again, x.toAck);
    IdsConcat(s.pending, [x.again]);
    assert HeldIds(x) == HeldIds(y) + multiset(Ids([x.again]));
    hide HeldIds, Ids;
    Moved(s, t, w);
  }

  lemma AckKeepsBodies(s: State, w: nat)
    requires BodiesExact(s) && Enabled(s, Ack(w))
    ensures BodiesExact(Next(s, Ack(w)))
  {
    hide BodiesExact;
    var t := Next(s, Ack(w));
    var x := s.workers[w];
    assert x.Held() == x.toAck && t.workers[w].Held() == [];
    assert HeldIds(x) == multiset(Ids(x.toAck)) && HeldIds(t.workers[w]) == multiset{};
    hide HeldIds, Ids;
    QueueAndPlus(t, s, w, multiset(Ids(x.toAck)));
    hide QueueAnd;
    Dropped(s, t, w, x.toAck);
  }

  lemma ObserveKeepsBodies(s: State, id: string, status: TunnelStatus)
    requires BodiesExact(s)
    ensures BodiesExact(ObserveStep(s, id, status))
  {
    assert Located(ObserveStep(s, id, status)) == Located(s);
  }

  lemma StepKeepsBodies(s: State, a: Action)
    requires BodiesExact(s) && Enabled(s, a)
    ensures BodiesExact(Next(s, a))
  {
    hide BodiesExact;
    match a
    case Accept(path, body) => AcceptKeepsBodies(s, path, body);
    case Publish(k) => PublishKeepsBodies(s, k);
    case Claim(w, max) => ClaimKeepsBodies(s, w, max);
    case Sort(w) => SortKeepsBodies(s, w);
    case Submit(w, outcomes) => SubmitKeepsBodies(s, w, outcomes);
    case Record(w) => RecordKeepsBodies(s, w);
    case Push(w) => PushKeepsBodies(s, w);
    case Ack(w) => AckKeepsBodies(s, w);
    case Observe(id, status) => ObserveKeepsBodies(s, id, status);
  }
}
