/** What the steps of the recorders and the uploader achieve: every entry is recorded, a match can always be finished
    and sealed, and the uploader can always store what it was given. */
module TranscriptProgress {
  import opened Wrappers
  import opened Settlement
  import opened SettleEntries
  import opened TranscriptStore
  import opened TranscriptStream
  import opened TranscriptRoll

  // ---- What a step does to what was recorded ----

  /** Everything a recorder was given, in order. */
  ghost function RecordedIn(s: Sessions, t: string): seq<SettleEntry>
    requires t in s.recorders
  {
    Flatten(s.recorders[t].groups) + s.recorders[t].current
  }

  /** The entry a step gives to the recorder of `t`, if any. */
  function Given(a: Action, t: string): seq<SettleEntry> {
    match a
    case InSession(Buffer(u, e)) => if u == t then [e] else []
    case InSession(BufferAndCut(u, e)) => if u == t then [e] else []
    case _ => []
  }

  /** Every step keeps what each recorder was given, in order, and adds what it gives; recorders appear only by being
      opened, empty, and none goes away. */
  lemma StepRecords(s: State, a: Action, t: string)
    requires Enabled(s, a)
    ensures var before, after := s.sessions, Next(s, a).sessions;
      && (t in after.recorders <==> t in before.recorders || a == InSession(Open(t)))
      && (t in before.recorders ==> RecordedIn(after, t) == RecordedIn(before, t) + Given(a, t))
      && (t !in before.recorders && t in after.recorders ==> RecordedIn(after, t) == [])
  {
    hide Flatten, EncodeAll, TotalLength;
    if a.InSession? && t in s.sessions.recorders {
      var r := s.sessions.recorders[t];
      FlattenMore(r.groups, r.current);
      FlattenMore(r.groups, r.current + Given(a, t));
      assert RecordedIn(s.sessions, t) + [] == RecordedIn(s.sessions, t);
      JoinGiven(Flatten(r.groups), r.current, Given(a, t));
    }
    FlattenNothing();
  }

  lemma JoinGiven(front: seq<SettleEntry>, current: seq<SettleEntry>, given: seq<SettleEntry>)
    ensures front + (current + given) == front + current + given
    ensures front + current + [] == front + current && current + [] == current
    ensures (front + (current + given)) + [] == front + current + given
  {
  }

  /** A put that lands stores its chunk under its own number and nothing else, one that does not changes no object; a
      put without an error is remembered as stored, one with an error as failed. Other steps change no object. */
  lemma ReturnsTell(s: State, a: Action)
    requires Enabled(s, a)
    ensures var t := Next(s, a);
      match a
      case InUploader(PutReturns(k, landed, ok)) =>
        var u := s.uploader.puts[k];
        && t.bucket == (if landed then s.bucket[Slot(u.tunnelId, u.n) := u.bytes] else s.bucket)
        && t.uploader.stored == s.uploader.stored + (if ok then [u] else [])
        && t.uploader.failed == s.uploader.failed + (if ok then [] else [u])
      case InSession(TailReturns(k, landed, ok)) =>
        var u := s.sessions.tails[k];
        && t.bucket == (if landed then s.bucket[Slot(u.tunnelId, u.n) := u.bytes] else s.bucket)
        && t.sessions.kept == s.sessions.kept + (if ok then [u] else [])
        && t.sessions.missed == s.sessions.missed + (if ok then [] else [u])
      case _ => t.bucket == s.bucket
  {
  }

  /** A manifest changes only when its seal returns and has landed, and is then the one that was counted. */
  lemma SealsTell(s: State, a: Action, t: string)
    requires Enabled(s, a)
    ensures var before, after := s.sessions, Next(s, a).sessions;
      if a == InSession(SealReturns(t, true)) then
        t in after.manifests && after.manifests[t] == before.finishing[t].manifest
      else (t in after.manifests <==> t in before.manifests)
           && (t in before.manifests ==> after.manifests[t] == before.manifests[t])
  {
  }

  // ---- Reaching ----

  ghost predicate CanRun(s: State, actions: seq<Action>)
    decreases |actions|
  {
    actions == [] || (Enabled(s, actions[0]) && CanRun(Next(s, actions[0]), actions[1..]))
  }

  ghost function Run(s: State, actions: seq<Action>): State
    requires CanRun(s, actions)
    decreases |actions|
  {
    if actions == [] then s else Run(Next(s, actions[0]), actions[1..])
  }

  ghost predicate Reaches(s: State, t: State) {
    exists actions: seq<Action> :: CanRun(s, actions) && Run(s, actions) == t
  }

  lemma ReachesItself(s: State)
    ensures Reaches(s, s)
  {
    assert CanRun(s, []) && Run(s, []) == s;
  }

  /** One step first. */
  lemma ReachesAfter(s: State, a: Action, t: State)
    requires Enabled(s, a) && Reaches(Next(s, a), t)
    ensures Reaches(s, t)
  {
    var actions: seq<Action> :| CanRun(Next(s, a), actions) && Run(Next(s, a), actions) == t;
    var all := [a] + actions;
    assert all[1..] == actions;
    assert CanRun(s, all) && Run(s, all) == t;
  }

  // ---- A match can be finished ----

  /** From wherever a match stands: if its tail, its count and its seal go through, it ends sealed with all that was
      recorded, and can be finished again. */
  lemma CanBeSealed(s: State, t: string, root: string) returns (u: State)
    requires t in s.sessions.recorders && t !in s.sessions.finishing && RecordedIn(s.sessions, t) != []
    ensures Reaches(s, u) && t in u.sessions.manifests && t !in u.sessions.finishing && t in u.sessions.recorders
    ensures var groups := u.sessions.recorders[t].groups;
      && Flatten(groups) == RecordedIn(s.sessions, t) && u.sessions.recorders[t].current == []
      && u.sessions.manifests[t] == Manifest(|groups|, TotalLength(Chunks(groups)), root, SETTLE_VERSION)
  {
    hide Reaches, Flatten, TotalLength, Chunks, EncodeAll;
    var r := s.sessions.recorders[t];
    FlattenMore(r.groups, r.current);
    FlattenNothing();
    var start := InSession(StartFinish(t));
    var begun := Next(s, start);
    if r.current == [] {
      assert Flatten(r.groups) + [] == Flatten(r.groups);
      u := CountAndSeal(begun, t, root);
    } else {
      var k := |s.sessions.tails|;
      var back := InSession(TailReturns(k, true, true));
      assert begun.sessions.tails[k].tunnelId == t;
      var returned := Next(begun, back);
      u := CountAndSeal(returned, t, root);
      ReachesAfter(begun, back, u);
    }
    ReachesAfter(s, start, u);
  }

  lemma CountAndSeal(s: State, t: string, root: string) returns (u: State)
    requires t in s.sessions.recorders && t in s.sessions.finishing && s.sessions.finishing[t] == Counting
    requires s.sessions.recorders[t].groups != []
    ensures Reaches(s, u) && t in u.sessions.manifests && t !in u.sessions.finishing
    ensures u.sessions.recorders == s.sessions.recorders
    ensures var groups := s.sessions.recorders[t].groups;
      u.sessions.manifests[t] == Manifest(|groups|, TotalLength(Chunks(groups)), root, SETTLE_VERSION)
  {
    hide Reaches, TotalLength, Chunks;
    var count, seal := InSession(Count(t, Some(root))), InSession(SealReturns(t, true));
    var counted := Next(s, count);
    u := Next(counted, seal);
    ReachesItself(u);
    ReachesAfter(counted, seal, u);
    ReachesAfter(s, count, u);
  }

  /** Without a chunk or without a root a finish ends there: nothing is sealed, and it can be called again. */
  lemma NothingToSeal(s: State, t: string, root: Option<string>)
    requires Enabled(s, InSession(Count(t, root)))
    requires s.sessions.recorders[t].groups == [] || root.None?
    ensures var u := Next(s, InSession(Count(t, root)));
      && u == s.(sessions := s.sessions.(finishing := u.sessions.finishing))
      && u.sessions.finishing.Keys == s.sessions.finishing.Keys - {t}
      && Enabled(u, InSession(StartFinish(t)))
  {
  }

  // ---- The uploader can store what it was given ----

  function Rank(p: Phase): nat {
    match p
    case Looping => 3
    case Draining => 2
    case Waiting => 1
    case Done => 0
  }

  function Outstanding(s: Uploader): nat {
    4 * |s.outbox| + 3 * |s.queue| + 2 * |s.hand| + |s.puts| + Rank(s.phase)
  }

  /** `u` has stored, without a failure, what `s` had and these. */
  ghost predicate Stores(s: Uploader, u: Uploader, chunks: seq<ChunkUpload>) {
    && u.failed == s.failed
    && (forall c | c in s.stored || c in chunks :: c in u.stored)
  }

  /** The step a dispatcher takes after the signal, when every put goes through. */
  function Onward(s: Uploader): UploadAction {
    if s.puts != [] then PutReturns(0, true, true)
    else if s.hand != [] then Launch
    else if s.phase.Looping? then EnterDrain
    else if s.phase.Draining? then (if s.queue != [] then TryReceive else QueueEmpty)
    else AllReturned
  }

  /** What is still to be dropped when the dispatcher ends. */
  function ToDrop(s: Uploader): seq<ChunkUpload> {
    if s.phase.Waiting? then s.queue else []
  }

  function ToStore(s: Uploader): seq<ChunkUpload> {
    s.puts + s.hand + if s.phase.Looping? || s.phase.Draining? then s.queue else []
  }

  lemma OnwardStores(s: Uploader)
    requires s.signalled && Bounded(s) && s.phase != Done
    ensures UploadEnabled(s, Onward(s))
    ensures var t := UploadNext(s, Onward(s));
      && t.signalled && Bounded(t) && Outstanding(t) < Outstanding(s)
      && t.failed == s.failed && t.lost + ToDrop(t) == s.lost + ToDrop(s)
      && forall c | c in s.stored || c in ToStore(s) :: c in t.stored || c in ToStore(t)
  {
    assert s.lost + [] == s.lost;
  }

  /** After the signal the dispatcher can always end, and with no put failing it has then stored the puts under way, the
      chunk in hand, and the whole queue; only what was queued while it waited for the last puts is dropped. */
  lemma {:induction false} CanDrain(s: State) returns (t: State)
    requires s.uploader.signalled && Bounded(s.uploader)
    ensures Reaches(s, t) && t.uploader.phase == Done && t.sessions == s.sessions
    ensures Stores(s.uploader, t.uploader, ToStore(s.uploader))
    ensures t.uploader.lost == s.uploader.lost + ToDrop(s.uploader)
    decreases Outstanding(s.uploader)
  {
    hide Reaches;
    var x := s.uploader;
    if x.phase == Done {
      t := s;
      ReachesItself(s);
    } else {
      OnwardStores(x);
      hide Onward, UploadNext, UploadEnabled, Bounded, ToStore, ToDrop, Outstanding;
      var a := InUploader(Onward(x));
      t := CanDrain(Next(s, a));
      ReachesAfter(s, a, t);
    }
  }

  /** Before the signal it can always store everything it was given, the producers' blocked chunks included, and goes on
      pulling work. */
  lemma {:induction false} CanStoreAll(s: State) returns (t: State)
    requires !s.uploader.signalled && Bounded(s.uploader)
    ensures Reaches(s, t) && t.sessions == s.sessions && t.uploader.phase == Looping && !t.uploader.signalled
    ensures t.uploader.outbox == t.uploader.queue == t.uploader.hand == t.uploader.puts == []
    ensures Stores(s.uploader, t.uploader, s.uploader.outbox + s.uploader.queue + s.uploader.hand + s.uploader.puts)
    ensures t.uploader.lost == s.uploader.lost
    decreases Outstanding(s.uploader)
  {
    hide Reaches;
    var x := s.uploader;
    if x.puts == [] && x.hand == [] && x.queue == [] && x.outbox == [] {
      t := s;
      ReachesItself(s);
    } else {
      var a := InUploader(
        if x.puts != [] then PutReturns(0, true, true)
        else if x.hand != [] then Launch
        else if x.queue != [] then Receive
        else Send(0));
      t := CanStoreAll(Next(s, a));
      ReachesAfter(s, a, t);
    }
  }

  /** The signal is always possible once, stops new work from being pulled, and remembers what the uploader had taken
      on. */
  lemma SignalStops(s: State)
    requires !s.uploader.signalled
    ensures var t := Next(s, InUploader(Signal));
      && t.uploader.signalled && !UploadEnabled(t.uploader, Receive)
      && forall u :: u in t.uploader.roll <==>
           || u in s.uploader.queue || u in s.uploader.hand || u in s.uploader.puts
           || u in s.uploader.stored || u in s.uploader.failed
  {
  }
}
