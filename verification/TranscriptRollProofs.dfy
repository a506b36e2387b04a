/** Every step of the recorders and the uploader keeps the invariant. */
module TranscriptRollProofs {
  import opened Wrappers
  import opened Settlement
  import opened SettleEntries
  import opened TranscriptStore
  import opened TranscriptStream
  import opened TranscriptRoll

  function One(u: ChunkUpload, v: ChunkUpload): nat {
    if u == v then 1 else 0
  }

  lemma Removed(s: seq<ChunkUpload>, k: nat)
    requires k < |s|
    ensures forall u :: Copies(s, u) == Copies(RemoveAt(s, k), u) + One(u, s[k])
    ensures forall u | u in s :: u == s[k] || u in RemoveAt(s, k)
  {
    assert s == s[..k] + [s[k]] + s[k + 1..];
    forall u | u in s
      ensures u == s[k] || u in RemoveAt(s, k)
    {
      var i: nat :| i < |s| && s[i] == u;
      if i < k {
        assert RemoveAt(s, k)[i] == u;
      } else if i > k {
        assert RemoveAt(s, k)[i - 1] == u;
      }
    }
  }

  lemma HeadRemoved(s: seq<ChunkUpload>)
    requires s != []
    ensures forall u :: Copies(s, u) == Copies(s[1..], u) + One(u, s[0])
    ensures forall u | u in s :: u == s[0] || u in s[1..]
  {
    assert s == [s[0]] + s[1..];
  }

  lemma Appended(s: seq<ChunkUpload>, u: ChunkUpload)
    ensures forall v :: Copies(s + [u], v) == Copies(s, v) + One(v, u)
  {
  }

  lemma Joined(s: seq<ChunkUpload>, s': seq<ChunkUpload>)
    ensures forall v :: Copies(s + s', v) == Copies(s, v) + Copies(s', v)
  {
  }

  lemma Few(u: ChunkUpload)
    ensures forall v :: Copies([u], v) == One(v, u)
    ensures forall v :: Copies([], v) == 0
  {
  }

  // ---- Conservation ----

  lemma UploadConserves(s: Uploader, a: UploadAction, u: ChunkUpload)
    requires UploadEnabled(s, a)
    ensures WithUploader(UploadNext(s, a), u) == WithUploader(s, u)
  {
    hide Copies, One, RemoveAt;
    Few(u);
    match a
    case Send(k) =>
      Removed(s.outbox, k);
      Appended(s.queue, s.outbox[k]);
      Appended(s.lost, s.outbox[k]);
    case Receive =>
      HeadRemoved(s.queue);
      Few(s.queue[0]);
    case TryReceive =>
      HeadRemoved(s.queue);
      Few(s.queue[0]);
    case Launch =>
      HeadRemoved(s.hand);
      Appended(s.puts, s.hand[0]);
    case PutReturns(k, _, _) =>
      Removed(s.puts, k);
      Appended(s.stored, s.puts[k]);
      Appended(s.failed, s.puts[k]);
    case AllReturned =>
      Joined(s.lost, s.queue);
    case _ =>
  }

  /** A chunk that a session step cuts is held by the session, or on its way to the uploader. */
  lemma SessionConserves(s: Sessions, a: SessionAction, u: ChunkUpload)
    requires SessionEnabled(s, a)
    ensures var s' := SessionNext(s, a);
            Copies(s'.cut, u) + WithSessions(s, u)
            == Copies(s.cut, u) + WithSessions(s', u) + (if a.BufferAndCut? then One(u, s'.cut[|s.cut|]) else 0)
  {
    hide EncodeAll, Chunks, TotalLength, Copies, One, RemoveAt;
    if a.TailReturns? {
      Removed(s.tails, a.k);
      Appended(s.kept, s.tails[a.k]);
      Appended(s.missed, s.tails[a.k]);
    } else if a.BufferAndCut? || (a.StartFinish? && s.recorders[a.t].current != []) {
      var c := SessionNext(s, a).cut[|s.cut|];
      Appended(s.cut, c);
      Appended(s.tails, c);
    }
  }

  lemma StepConserves(s: State, a: Action)
    requires Conserved(s) && Enabled(s, a)
    ensures Conserved(Next(s, a))
  {
    hide UploadNext, SessionNext, WithSessions, UploadEnabled, SessionEnabled, Landed, Copies, One, WithUploader;
    var s' := Next(s, a);
    forall u
      ensures Copies(s'.sessions.cut, u) == WithSessions(s'.sessions, u) + WithUploader(s'.uploader, u)
    {
      match a
      case InSession(b) =>
        SessionConserves(s.sessions, b, u);
        if b.BufferAndCut? {
          OutboxGains(s.uploader, SessionNext(s.sessions, b).cut[|s.sessions.cut|], u);
        }
      case InUploader(b) =>
        UploadConserves(s.uploader, b, u);
    }
  }

  lemma OutboxGains(s: Uploader, c: ChunkUpload, u: ChunkUpload)
    ensures WithUploader(s.(outbox := s.outbox + [c]), u) == WithUploader(s, u) + One(u, c)
  {
    hide Copies, One;
    Appended(s.outbox, c);
  }

  // ---- The cuts ----

  lemma CutExact(s: Sessions, t: string, entries: seq<SettleEntry>)
    requires CutsExact(s) && t in s.recorders
    ensures CutsExact(Cut(s, t, entries))
  {
    hide EncodeAll;
    var s' := Cut(s, t, entries);
    assert s'.cut == s.cut + [s'.cut[|s.cut|]];
    forall v | v in s'.cut
      ensures IsChunkOf(s'.recorders, v.tunnelId, v.n, v.bytes)
    {
      if v in s.cut {
        assert IsChunkOf(s.recorders, v.tunnelId, v.n, v.bytes);
      }
    }
    forall t', n: nat | t' in s'.recorders && n < |s'.recorders[t'].groups|
      ensures ChunkUpload(t', n, EncodeAll(s'.recorders[t'].groups[n])) in s'.cut
    {
      if t' != t || n < |s.recorders[t].groups| {
        assert ChunkUpload(t', n, EncodeAll(s.recorders[t'].groups[n])) in s.cut;
      }
    }
    assert s'.cut[|s.cut|] !in s.cut;
  }

  /** The groups are the same; recorders may be new and empty. */
  ghost predicate SameGroups(before: map<string, Recorder>, after: map<string, Recorder>) {
    && (forall t | t in before :: t in after && after[t].groups == before[t].groups)
    && (forall t | t in after :: t in before || after[t].groups == [])
  }

  lemma SameCuts(s: Sessions, s': Sessions)
    requires CutsExact(s) && s'.cut == s.cut && SameGroups(s.recorders, s'.recorders)
    ensures CutsExact(s')
  {
    hide EncodeAll;
    forall u | u in s'.cut
      ensures IsChunkOf(s'.recorders, u.tunnelId, u.n, u.bytes)
    {
      assert IsChunkOf(s.recorders, u.tunnelId, u.n, u.bytes);
    }
  }

  lemma StepKeepsCuts(s: Sessions, a: SessionAction)
    requires CutsExact(s) && SessionEnabled(s, a)
    ensures CutsExact(SessionNext(s, a))
  {
    hide EncodeAll, CutsExact, Chunks, TotalLength, Cut, RemoveAt;
    var s' := SessionNext(s, a);
    if a.BufferAndCut? {
      CutExact(s, a.t, s.recorders[a.t].current + [a.e]);
    } else if a.StartFinish? && s.recorders[a.t].current != [] {
      var closed := Cut(s, a.t, s.recorders[a.t].current);
      CutExact(s, a.t, s.recorders[a.t].current);
      SameCuts(closed, s');
    } else {
      SameCuts(s, s');
    }
  }

  // ---- Growth ----

  lemma SessionGrows(s: Sessions, a: SessionAction)
    requires SessionEnabled(s, a)
    ensures GroupsGrow(s.recorders, SessionNext(s, a).recorders)
  {
    hide EncodeAll, Chunks, TotalLength, RemoveAt;
  }

  lemma UploadGrows(s: Uploader, a: UploadAction)
    requires UploadEnabled(s, a)
    ensures UploaderGrows(s, UploadNext(s, a))
  {
    hide RemoveAt;
  }

  lemma StepGrows(s: State, a: Action)
    requires Enabled(s, a)
    ensures Grows(s, Next(s, a))
  {
    hide SessionNext, UploadNext, GroupsGrow, SessionEnabled, UploadEnabled;
    match a
    case InSession(b) =>
      SessionGrows(s.sessions, b);
    case InUploader(b) =>
      NoChangeGrows(s.sessions.recorders);
      UploadGrows(s.uploader, b);
  }

  lemma NoChangeGrows(r: map<string, Recorder>)
    ensures GroupsGrow(r, r)
  {
  }

  lemma GrowsOn(a: State, b: State, c: State)
    requires Grows(a, b) && Grows(b, c)
    ensures Grows(a, c)
  {
  }

  // ---- The bucket ----

  lemma StillGenuine(bucket: Bucket, before: map<string, Recorder>, after: map<string, Recorder>)
    requires Genuine(bucket, before) && GroupsGrow(before, after)
    ensures Genuine(bucket, after)
  {
    hide EncodeAll;
    forall k | k in bucket
      ensures IsChunkOf(after, k.tunnelId, k.n, bucket[k])
    {
      assert IsChunkOf(before, k.tunnelId, k.n, bucket[k]);
      assert before[k.tunnelId].groups <= after[k.tunnelId].groups;
    }
  }

  lemma LandedGenuine(bucket: Bucket, recorders: map<string, Recorder>, u: ChunkUpload, landed: bool)
    requires Genuine(bucket, recorders) && IsChunkOf(recorders, u.tunnelId, u.n, u.bytes)
    ensures Genuine(Landed(bucket, u, landed), recorders)
  {
    hide IsChunkOf;
  }

  lemma LandedHolds(bucket: Bucket, us: seq<ChunkUpload>, u: ChunkUpload, landed: bool)
    requires Holds(bucket, us)
    ensures Holds(Landed(bucket, u, landed), us)
    ensures landed ==> Holds(Landed(bucket, u, landed), us + [u])
  {
  }

  lemma UnderWayIsCut(s: State, u: ChunkUpload)
    requires Conserved(s) && (u in s.uploader.puts || u in s.sessions.tails)
    ensures u in s.sessions.cut
  {
    assert Copies(s.uploader.puts, u) > 0 || Copies(s.sessions.tails, u) > 0;
    assert Copies(s.sessions.cut, u) > 0;
  }

  lemma SessionKeepsBucket(s: State, b: SessionAction)
    requires BucketExact(s) && Conserved(s) && CutsExact(s.sessions) && SessionEnabled(s.sessions, b)
    ensures BucketExact(Next(s, InSession(b)))
  {
    hide EncodeAll, Chunks, TotalLength, RemoveAt, IsChunkOf, Conserved, Landed, Genuine, Holds, Cut, GroupsGrow;
    var s' := Next(s, InSession(b));
    SessionGrows(s.sessions, b);
    StillGenuine(s.bucket, s.sessions.recorders, s'.sessions.recorders);
    if b.TailReturns? {
      var u := s.sessions.tails[b.k];
      UnderWayIsCut(s, u);
      LandedGenuine(s.bucket, s.sessions.recorders, u, b.landed);
      LandedHolds(s.bucket, s.sessions.kept, u, b.landed);
      LandedHolds(s.bucket, s.uploader.stored, u, b.landed);
    } else {
      CutKeepsTheRest(s.sessions, b);
    }
  }

  lemma CutKeepsTheRest(s: Sessions, b: SessionAction)
    requires SessionEnabled(s, b) && !b.TailReturns?
    ensures SessionNext(s, b).kept == s.kept
  {
    hide EncodeAll, Chunks, TotalLength;
  }

  lemma UploadKeepsBucket(s: State, b: UploadAction)
    requires BucketExact(s) && Conserved(s) && CutsExact(s.sessions) && UploadEnabled(s.uploader, b)
    ensures BucketExact(Next(s, InUploader(b)))
  {
    hide RemoveAt, IsChunkOf, Conserved, Landed, Genuine, Holds;
    if b.PutReturns? {
      var u := s.uploader.puts[b.k];
      UnderWayIsCut(s, u);
      LandedGenuine(s.bucket, s.sessions.recorders, u, b.landed);
      LandedHolds(s.bucket, s.sessions.kept, u, b.landed);
      LandedHolds(s.bucket, s.uploader.stored, u, b.landed);
    }
  }

  // ---- The manifests ----

  lemma StillDescribes(m: Manifest, before: map<string, Recorder>, after: map<string, Recorder>, t: string)
    requires GroupsGrow(before, after) && Describes(m, before, t)
    ensures Describes(m, after, t)
  {
    hide Chunks, TotalLength;
    assert before[t].groups <= after[t].groups;
    assert after[t].groups[..m.chunkCount] == before[t].groups[..m.chunkCount];
  }

  lemma FreshlyCounted(s: Sessions, t: string, root: string)
    requires t in s.recorders && s.recorders[t].groups != []
    ensures var groups := s.recorders[t].groups;
            Describes(Manifest(|groups|, TotalLength(Chunks(groups)), root, SETTLE_VERSION), s.recorders, t)
  {
    hide Chunks, TotalLength;
    var groups := s.recorders[t].groups;
    assert groups[..|groups|] == groups;
  }

  lemma StillExact(s: Sessions, recorders: map<string, Recorder>)
    requires ManifestsExact(s) && GroupsGrow(s.recorders, recorders)
    ensures ManifestsExact(s.(recorders := recorders))
  {
    hide Describes, GroupsGrow;
    forall t | t in s.manifests
      ensures Describes(s.manifests[t], recorders, t)
    {
      StillDescribes(s.manifests[t], s.recorders, recorders, t);
    }
    forall t | t in s.finishing && s.finishing[t].Sealing?
      ensures Describes(s.finishing[t].manifest, recorders, t)
    {
      StillDescribes(s.finishing[t].manifest, s.recorders, recorders, t);
    }
  }

  lemma StepKeepsManifests(s: Sessions, a: SessionAction)
    requires ManifestsExact(s) && SessionEnabled(s, a)
    ensures ManifestsExact(SessionNext(s, a))
  {
    hide EncodeAll, Chunks, TotalLength, RemoveAt, Describes, GroupsGrow;
    var s' := SessionNext(s, a);
    SessionGrows(s, a);
    if a.Count? && s.recorders[a.t].groups != [] && a.root.Some? {
      FreshlyCounted(s, a.t, a.root.value);
    }
    StillExact(s, s'.recorders);
  }

  lemma TailGone(tails: seq<ChunkUpload>, k: nat)
    requires k < |tails| && forall i, j | 0 <= i < j < |tails| :: tails[i].tunnelId != tails[j].tunnelId
    ensures forall u | u in RemoveAt(tails, k) :: u in tails && u.tunnelId != tails[k].tunnelId
    ensures forall i, j | 0 <= i < j < |tails| - 1 ::
              RemoveAt(tails, k)[i].tunnelId != RemoveAt(tails, k)[j].tunnelId
  {
    forall i | 0 <= i < |tails| - 1
      ensures RemoveAt(tails, k)[i] == tails[if i < k then i else i + 1]
    {
    }
  }

  lemma StepKeepsTails(s: Sessions, a: SessionAction)
    requires TailsOwned(s) && SessionEnabled(s, a)
    ensures TailsOwned(SessionNext(s, a))
  {
    if a.TailReturns? {
      TailGone(s.tails, a.k);
      assert |RemoveAt(s.tails, a.k)| == |s.tails| - 1;
    }
    hide EncodeAll, Chunks, TotalLength, RemoveAt;
  }

  // ---- The uploader ----

  lemma StepStaysBounded(s: Uploader, a: UploadAction)
    requires Bounded(s) && UploadEnabled(s, a)
    ensures Bounded(UploadNext(s, a))
  {
  }

  lemma StepKeepsRoll(s: Uploader, a: UploadAction)
    requires RollKept(s) && Bounded(s) && UploadEnabled(s, a)
    ensures RollKept(UploadNext(s, a))
  {
    hide RemoveAt;
    match a
    case PutReturns(k, _, _) =>
      Removed(s.puts, k);
    case Receive =>
      HeadRemoved(s.queue);
    case TryReceive =>
      HeadRemoved(s.queue);
    case Launch =>
      HeadRemoved(s.hand);
    case _ =>
  }

  lemma StepKeepsInv(s: State, a: Action)
    requires Inv(s) && Enabled(s, a)
    ensures Inv(Next(s, a))
  {
    hide SessionNext, UploadNext, SessionEnabled, UploadEnabled, Landed, Conserved, CutsExact, BucketExact,
         ManifestsExact, Bounded, RollKept, TailsOwned;
    StepConserves(s, a);
    match a
    case InSession(b) =>
      StepKeepsCuts(s.sessions, b);
      SessionKeepsBucket(s, b);
      StepKeepsManifests(s.sessions, b);
      StepKeepsTails(s.sessions, b);
      if b.BufferAndCut? {
        MoreInOutbox(s.uploader, SessionNext(s.sessions, b).cut[|s.sessions.cut|]);
      }
    case InUploader(b) =>
      UploadKeepsBucket(s, b);
      StepStaysBounded(s.uploader, b);
      StepKeepsRoll(s.uploader, b);
  }

  lemma MoreInOutbox(s: Uploader, u: ChunkUpload)
    requires Bounded(s) && RollKept(s)
    ensures Bounded(s.(outbox := s.outbox + [u])) && RollKept(s.(outbox := s.outbox + [u]))
  {
  }
}
