/** What a reader of the bucket gets, over every run of the recorders and the uploader. */
module TranscriptRollSafety {
  import opened Wrappers
  import opened Settlement
  import opened SettleEntries
  import opened TranscriptStore
  import opened TranscriptStream
  import opened TranscriptRoll
  import opened TranscriptRollProofs

  lemma InitiallyInv()
    ensures Inv(INITIAL)
  {
  }

  /** Every reachable state satisfies the invariant. */
  lemma {:induction false} EveryRunKeepsInv(run: seq<State>, i: nat)
    requires IsRun(run) && i < |run|
    ensures Inv(run[i])
  {
    hide Inv, Enabled, Next;
    if i == 0 {
      InitiallyInv();
    } else {
      EveryRunKeepsInv(run, i - 1);
      assert Steps(run[i - 1], run[i]);
      var a :| Enabled(run[i - 1], a) && Next(run[i - 1], a) == run[i];
      StepKeepsInv(run[i - 1], a);
    }
  }

  lemma {:induction false} LaterGrows(run: seq<State>, i: nat, j: nat)
    requires IsRun(run) && i <= j < |run|
    ensures Grows(run[i], run[j])
    decreases j
  {
    hide Grows, Enabled, Next;
    if i == j {
      GrowsItself(run[i]);
    } else {
      LaterGrows(run, i, j - 1);
      assert Steps(run[j - 1], run[j]);
      var a :| Enabled(run[j - 1], a) && Next(run[j - 1], a) == run[j];
      StepGrows(run[j - 1], a);
      GrowsOn(run[i], run[j - 1], run[j]);
    }
  }

  lemma GrowsItself(s: State)
    ensures Grows(s, s)
  {
  }

  /** Conservation, chunk by chunk: every group a recorder has cut is in exactly one place, and nothing else is
      anywhere. */
  lemma EveryChunkOnce(run: seq<State>, i: nat, u: ChunkUpload)
    requires IsRun(run) && i < |run|
    ensures WithSessions(run[i].sessions, u) + WithUploader(run[i].uploader, u)
            == if IsChunkOf(run[i].sessions.recorders, u.tunnelId, u.n, u.bytes) then 1 else 0
  {
    hide EncodeAll, BucketExact, ManifestsExact, TailsOwned, Bounded, RollKept, WithSessions, WithUploader;
    EveryRunKeepsInv(run, i);
    var cut := run[i].sessions.cut;
    assert Copies(cut, u) == WithSessions(run[i].sessions, u) + WithUploader(run[i].uploader, u);
    DistinctCount(cut, u);
  }

  lemma {:induction false} DistinctCount(us: seq<ChunkUpload>, u: ChunkUpload)
    requires forall i, j | 0 <= i < j < |us| :: us[i] != us[j]
    ensures Copies(us, u) == if u in us then 1 else 0
  {
    if us != [] {
      var front, last := us[..|us| - 1], us[|us| - 1];
      assert us == front + [last];
      DistinctCount(front, u);
      assert last !in front;
    }
  }

  // ---- Reading ----

  function Fetch(bucket: Bucket, t: string, n: nat): Option<Bytes> {
    var k := Slot(t, n);
    if k in bucket then Some(bucket[k]) else None
  }

  /** What a reader fetches of one transcript, each chunk at its own time. */
  function Fetched(run: seq<State>, t: string, times: seq<nat>): (gets: seq<Option<Bytes>>)
    requires forall k | 0 <= k < |times| :: times[k] < |run|
    ensures |gets| == |times|
  {
    seq(|times|, k requires 0 <= k < |times| => Fetch(run[times[k]].bucket, t, k))
  }

  /** A chunk once fetched is the recorder's group of that number, whenever it is fetched. */
  lemma FetchIsGenuine(run: seq<State>, i: nat, j: nat, t: string, n: nat)
    requires IsRun(run) && i < |run| && j < |run|
    requires t in run[j].sessions.recorders && n < |run[j].sessions.recorders[t].groups|
    ensures var got := Fetch(run[i].bucket, t, n);
            got.None? || got.value == EncodeAll(run[j].sessions.recorders[t].groups[n])
  {
    hide EncodeAll, Conserved, CutsExact, ManifestsExact, TailsOwned, Bounded, RollKept, UploaderGrows, GroupsGrow,
         BucketGrows, IsRun;
    EveryRunKeepsInv(run, i);
    if Slot(t, n) in run[i].bucket {
      assert IsChunkOf(run[i].sessions.recorders, t, n, run[i].bucket[Slot(t, n)]);
      if i <= j {
        LaterGrows(run, i, j);
        SameGroup(run[i].sessions.recorders, run[j].sessions.recorders, t, n, run[i].bucket[Slot(t, n)]);
      } else {
        LaterGrows(run, j, i);
        SameGroup(run[j].sessions.recorders, run[i].sessions.recorders, t, n, run[i].bucket[Slot(t, n)]);
      }
    }
  }

  lemma SameGroup(before: map<string, Recorder>, after: map<string, Recorder>, t: string, n: nat, bytes: Bytes)
    requires GroupsGrow(before, after) && t in before && n < |before[t].groups|
    requires IsChunkOf(before, t, n, bytes) || IsChunkOf(after, t, n, bytes)
    ensures IsChunkOf(before, t, n, bytes) && IsChunkOf(after, t, n, bytes)
  {
    hide EncodeAll;
    assert before[t].groups <= after[t].groups;
  }

  /** Reading is exact or refused, in every run: with the manifest of `t` read at one time and each chunk fetched at a
      time of its own, before or after, the reader gets exactly the bytes of the entries recorded up to the sealed
      count, which decode to those entries, if every chunk was there, and `Incomplete` otherwise. */
  lemma ReadExactOrIncomplete(run: seq<State>, at: nat, t: string, times: seq<nat>)
    requires IsRun(run) && at < |run| && t in run[at].sessions.manifests
    requires |times| == run[at].sessions.manifests[t].chunkCount
    requires forall k | 0 <= k < |times| :: times[k] < |run|
    ensures t in run[at].sessions.recorders && |times| <= |run[at].sessions.recorders[t].groups|
    ensures var m := run[at].sessions.manifests[t];
            var entries := Flatten(run[at].sessions.recorders[t].groups[..m.chunkCount]);
            var read := Assembled(m, Fetched(run, t, times));
            if forall k | 0 <= k < |times| :: Slot(t, k) in run[times[k]].bucket then
              && read == Ok(EncodeAll(entries))
              && ((forall i | 0 <= i < |entries| :: entries[i].Fits()) ==> Decoded(EncodeAll(entries)) == Ok(entries))
            else
              read.Err? && read.error.Incomplete?
  {
    hide EncodeAll, Flatten, Decoded, Assembled, Concat, TotalLength, Inv, IsRun;
    EveryRunKeepsInv(run, at);
    SealedDescribes(run[at], t);
    var m := run[at].sessions.manifests[t];
    var all := run[at].sessions.recorders[t].groups;
    var groups := all[..m.chunkCount];
    var gets := Fetched(run, t, times);
    forall k: nat | k < |gets|
      ensures gets[k].None? || gets[k].value == Chunks(groups)[k]
    {
      FetchIsGenuine(run, times[k], at, t, k);
    }
    AssembledExactOrIncomplete(m, gets, Chunks(groups));
    ConcatIsEncoding(groups);
    if forall i | 0 <= i < |Flatten(groups)| :: Flatten(groups)[i].Fits() {
      DecodeInvertsEncode(Flatten(groups));
    }
    if forall k | 0 <= k < |times| :: Slot(t, k) in run[times[k]].bucket {
      assert forall k | 0 <= k < |gets| :: gets[k].Some?;
    } else {
      var k :| 0 <= k < |times| && Slot(t, k) !in run[times[k]].bucket;
      assert gets[k].None?;
    }
  }

  lemma SealedDescribes(s: State, t: string)
    requires Inv(s) && t in s.sessions.manifests
    ensures Describes(s.sessions.manifests[t], s.sessions.recorders, t)
  {
    hide Conserved, CutsExact, BucketExact, TailsOwned, Bounded, RollKept, Describes;
  }

  /** A recorder whose `finish` starts with nothing more recorded until the count seals everything recorded. */
  lemma CountCoversAll(s: Sessions, t: string, root: Option<string>)
    requires SessionEnabled(s, Count(t, root)) && s.recorders[t].current == []
    requires s.recorders[t].groups != [] && root.Some?
    ensures var s' := SessionNext(s, Count(t, root));
            var r := s.recorders[t];
            && s'.finishing[t].Sealing?
            && Flatten(r.groups[..s'.finishing[t].manifest.chunkCount]) == Flatten(r.groups) + r.current
  {
    hide Flatten, Chunks, TotalLength;
    var groups := s.recorders[t].groups;
    assert groups[..|groups|] == groups;
  }

  // ---- The roll ----

  /** The match had ended when the signal came: sealed, no `finish` under way, no producer waiting to send. */
  ghost predicate Settled(s: State, t: string) {
    && t in s.sessions.manifests
    && t !in s.sessions.finishing
    && forall u | u in s.uploader.outbox :: u.tunnelId != t
  }

  lemma CutIsSomewhere(s: State, u: ChunkUpload)
    requires Conserved(s) && u in s.sessions.cut
    ensures || u in s.sessions.tails || u in s.sessions.kept || u in s.sessions.missed
            || u in s.uploader.outbox || u in s.uploader.queue || u in s.uploader.hand || u in s.uploader.puts
            || u in s.uploader.stored || u in s.uploader.failed || u in s.uploader.lost
  {
    assert Copies(s.sessions.cut, u) > 0;
  }

  /** At the signal, each chunk of a settled match was either its tail, put by then, or accepted by the uploader. */
  lemma AcceptedAtSignal(s: State, t: string, n: nat)
    requires Inv(s) && Settled(s, t) && !s.uploader.signalled
    requires t in s.sessions.recorders && n < |s.sessions.recorders[t].groups|
    ensures var u := ChunkUpload(t, n, EncodeAll(s.sessions.recorders[t].groups[n]));
            || u in s.sessions.kept || u in s.sessions.missed
            || u in UploadNext(s.uploader, Signal).roll
  {
    hide EncodeAll, Conserved, BucketExact, ManifestsExact, RollKept;
    var u := ChunkUpload(t, n, EncodeAll(s.sessions.recorders[t].groups[n]));
    assert u in s.sessions.cut;
    CutIsSomewhere(s, u);
  }

  /** The barrier: once the dispatcher has ended, everything accepted at the signal has been put. */
  lemma Barrier(s: State, u: ChunkUpload)
    requires Inv(s) && s.uploader.phase == Done && u in s.uploader.roll
    ensures u in s.uploader.stored || u in s.uploader.failed
  {
    hide Conserved, CutsExact, BucketExact, ManifestsExact, TailsOwned, Bounded;
    assert OnItsWay(s.uploader, u);
  }

  /** A match settled before a roll survives it: if the signal comes at step `at` and the dispatcher has ended at
      step `end`, then a reader from then on gets the whole sealed transcript, unless one of its own puts failed. */
  lemma SettledSurvivesTheRoll(run: seq<State>, at: nat, end: nat, t: string, times: seq<nat>)
    requires IsRun(run) && at < end < |run| && Settled(run[at], t)
    requires UploadEnabled(run[at].uploader, Signal) && run[at + 1] == Next(run[at], InUploader(Signal))
    requires run[end].uploader.phase == Done
    requires forall u | u in run[end].uploader.failed || u in run[at].sessions.missed :: u.tunnelId != t
    requires |times| == run[at].sessions.manifests[t].chunkCount
    requires forall k | 0 <= k < |times| :: end <= times[k] < |run|
    ensures t in run[at].sessions.recorders && |times| <= |run[at].sessions.recorders[t].groups|
    ensures Assembled(run[at].sessions.manifests[t], Fetched(run, t, times))
            == Ok(EncodeAll(Flatten(run[at].sessions.recorders[t].groups[..|times|])))
  {
    hide EncodeAll, Flatten, Decoded, Assembled, Fetched, Inv, IsRun, Next, Settled, UploadEnabled;
    assert t in run[at].sessions.manifests && !run[at].uploader.signalled by {
      Unfold(run[at], t);
    }
    ReadExactOrIncomplete(run, at, t, times);
    forall k: nat | k < |times|
      ensures Slot(t, k) in run[times[k]].bucket
    {
      StoredAtEnd(run, at, end, t, k);
      LaterGrows(run, end, times[k]);
    }
  }

  lemma Unfold(s: State, t: string)
    requires Settled(s, t) && UploadEnabled(s.uploader, Signal)
    ensures t in s.sessions.manifests && !s.uploader.signalled
  {
  }

  lemma StoredAtEnd(run: seq<State>, at: nat, end: nat, t: string, n: nat)
    requires IsRun(run) && at < end < |run| && Settled(run[at], t)
    requires UploadEnabled(run[at].uploader, Signal) && run[at + 1] == Next(run[at], InUploader(Signal))
    requires run[end].uploader.phase == Done
    requires forall u | u in run[end].uploader.failed || u in run[at].sessions.missed :: u.tunnelId != t
    requires t in run[at].sessions.recorders && n < |run[at].sessions.recorders[t].groups|
    ensures Slot(t, n) in run[end].bucket
  {
    hide EncodeAll, Inv, IsRun, Settled, GroupsGrow, UploadNext;
    EveryRunKeepsInv(run, at);
    EveryRunKeepsInv(run, end);
    AcceptedAtSignal(run[at], t, n);
    LaterGrows(run, at, end);
    LaterGrows(run, at + 1, end);
    var u := ChunkUpload(t, n, EncodeAll(run[at].sessions.recorders[t].groups[n]));
    if u in run[at].sessions.kept {
      PutIsHeld(run[at], u);
    } else {
      assert run[at + 1].uploader == UploadNext(run[at].uploader, Signal);
      SignalSignals(run[at].uploader);
      Barrier(run[end], u);
      PutIsHeld(run[end], u);
    }
  }

  lemma SignalSignals(s: Uploader)
    requires UploadEnabled(s, Signal)
    ensures UploadNext(s, Signal).signalled
  {
  }

  lemma PutIsHeld(s: State, u: ChunkUpload)
    requires Inv(s) && (u in s.sessions.kept || u in s.uploader.stored)
    ensures Slot(u.tunnelId, u.n) in s.bucket
  {
    hide Conserved, CutsExact, ManifestsExact, TailsOwned, Bounded, RollKept, Genuine;
  }
}
