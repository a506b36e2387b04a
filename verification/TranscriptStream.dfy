/** The streaming recorder of one match: entries gather in a buffer that is cut into chunks on the way. */
module TranscriptStream {
  import opened Wrappers
  import opened Settlement
  import opened SettleEntries
  import opened Text
  import opened ChunkKeys
  import opened TranscriptStore

  const CHUNK_TARGET: nat := 1024 * 1024
  const FLUSH_INTERVAL_MS: nat := 5000
  const SETTLE_VERSION: nat := 1

  /** One chunk handed to the uploader. */
  datatype ChunkUpload = ChunkUpload(tunnelId: string, n: nat, bytes: Bytes)

  /** The chunks that hold these groups of entries. */
  function Chunks(groups: seq<seq<SettleEntry>>): (chunks: seq<Bytes>)
    ensures |chunks| == |groups|
  {
    seq(|groups|, i requires 0 <= i < |groups| => EncodeAll(groups[i]))
  }

  function Flatten(groups: seq<seq<SettleEntry>>): seq<SettleEntry> {
    if groups == [] then [] else Flatten(groups[..|groups| - 1]) + groups[|groups| - 1]
  }

  lemma FlattenMore(groups: seq<seq<SettleEntry>>, g: seq<SettleEntry>)
    ensures Flatten(groups + [g]) == Flatten(groups) + g
  {
    assert (groups + [g])[..|groups|] == groups;
  }

  lemma ChunksMore(groups: seq<seq<SettleEntry>>, g: seq<SettleEntry>)
    ensures Chunks(groups + [g]) == Chunks(groups) + [EncodeAll(g)]
    ensures TotalLength(Chunks(groups + [g])) == TotalLength(Chunks(groups)) + |EncodeAll(g)|
  {
    hide EncodeAll;
    assert Chunks(groups + [g]) == Chunks(groups) + [EncodeAll(g)];
    assert (Chunks(groups) + [EncodeAll(g)])[..|groups|] == Chunks(groups);
  }

  /** Joining the chunks gives the encoding of all their entries: every chunk is whole entries. */
  lemma {:induction false} ConcatIsEncoding(groups: seq<seq<SettleEntry>>)
    ensures Concat(Chunks(groups)) == EncodeAll(Flatten(groups))
  {
    hide EncodeAll;
    if groups == [] {
      EncodeNothing();
    } else {
      var front, last := groups[..|groups| - 1], groups[|groups| - 1];
      assert groups == front + [last];
      ChunksMore(front, last);
      assert Chunks(groups)[..|front|] == Chunks(front);
      ConcatIsEncoding(front);
      EncodeAllConcat(Flatten(front), last);
    }
  }

  lemma EncodeNothing()
    ensures EncodeAll([]) == []
  {
  }

  lemma EncodeMore(es: seq<SettleEntry>, e: SettleEntry)
    ensures EncodeAll(es + [e]) == EncodeAll(es) + EncodeEntry(e)
    ensures EncodeAll(es + [e]) != []
  {
    assert (es + [e])[..|es|] == es;
  }

  lemma JoinMore(before: seq<SettleEntry>, es: seq<SettleEntry>, e: SettleEntry)
    ensures before + (es + [e]) == before + es + [e]
  {
  }

  /** A recorder's state: the groups of entries it has cut into chunks, and the entries it still buffers. */
  datatype Recorder = Recorder(groups: seq<seq<SettleEntry>>, current: seq<SettleEntry>)

  function Buffered(r: Recorder, e: SettleEntry): Recorder {
    r.(current := r.current + [e])
  }

  /** The buffer becomes a chunk. */
  function CutOff(r: Recorder): Recorder {
    Recorder(r.groups + [r.current], [])
  }

  function ChunkOf(tunnelId: string, r: Recorder): ChunkUpload {
    ChunkUpload(tunnelId, |r.groups|, EncodeAll(r.current))
  }

  class S3StreamingRecorder {
    const tunnelId: string
    /** Whether chunks go out during play, and whether the tail and the manifest are written at the end. */
    const streaming: bool
    const writing: bool

    var bytes: Bytes
    var seqNo: nat
    var totalBytes: nat
    var bufferingSince: Option<nat>

    ghost var groups: seq<seq<SettleEntry>>
    ghost var current: seq<SettleEntry>

    /** The buffer holds the entries since the last chunk; the counters describe the chunks cut so far. */
    ghost predicate Valid()
      reads this
    {
      && PlainTunnel(tunnelId)
      && bytes == EncodeAll(current)
      && (bytes == [] <==> current == [])
      && (bufferingSince.None? <==> bytes == [])
      && seqNo == |groups|
      && totalBytes == TotalLength(Chunks(groups))
    }

    ghost function View(): Recorder
      reads this
    {
      Recorder(groups, current)
    }

    /** Everything recorded so far, in order. */
    ghost function Recorded(): seq<SettleEntry>
      reads this
    {
      Flatten(groups) + current
    }

    constructor (tunnelId: string, streaming: bool, writing: bool)
      requires PlainTunnel(tunnelId)
      ensures Valid() && Recorded() == [] && groups == [] && this.streaming == streaming && this.writing == writing
      ensures this.tunnelId == tunnelId
    {
      this.tunnelId, this.streaming, this.writing := tunnelId, streaming, writing;
      bytes, seqNo, totalBytes, bufferingSince := [], 0, 0, None;
      groups, current := [], [];
    }

    /** Cut the buffer into a chunk. */
    method Cut() returns (chunk: ChunkUpload)
      requires Valid() && bytes != []
      modifies this
      ensures Valid() && View() == CutOff(old(View())) && chunk == ChunkOf(tunnelId, old(View()))
      ensures Recorded() == old(Recorded())
    {
      hide EncodeAll, Flatten, TotalLength;
      chunk := ChunkUpload(tunnelId, seqNo, bytes);
      ChunksMore(groups, current);
      FlattenMore(groups, current);
      EncodeNothing();
      seqNo := seqNo + 1;
      totalBytes := totalBytes + |bytes|;
      bufferingSince := None;
      bytes := [];
      groups, current := groups + [current], [];
    }

    /** Add an entry to the buffer, and note the time of the first. */
    method Append(e: SettleEntry, now: nat)
      requires Valid()
      modifies this
      ensures Valid() && View() == Buffered(old(View()), e) && Recorded() == old(Recorded()) + [e] && bytes != []
      ensures bufferingSince == Some(if old(bufferingSince).Some? then old(bufferingSince).value else now)
    {
      hide EncodeAll, EncodeEntry, Flatten, Chunks, TotalLength;
      EncodeMore(current, e);
      JoinMore(Flatten(groups), current, e);
      bytes := bytes + EncodeEntry(e);
      current := current + [e];
      if bufferingSince.None? {
        bufferingSince := Some(now);
      }
    }

    /** Append one entry; cut a chunk when the buffer is large or old and there is an uploader to take it. The
        root recorder may refuse the entry, in which case nothing happens. */
    method Record(e: SettleEntry, now: nat, admitted: bool) returns (ok: bool, chunk: Option<ChunkUpload>)
      requires Valid() && forall since | bufferingSince == Some(since) :: since <= now
      modifies this
      ensures Valid() && ok == admitted
      ensures Recorded() == if admitted && (streaming || writing) then old(Recorded()) + [e] else old(Recorded())
      ensures View() == if !admitted || (!streaming && !writing) then old(View())
                        else if chunk.None? then Buffered(old(View()), e)
                        else CutOff(Buffered(old(View()), e))
      ensures chunk.Some? ==> streaming && admitted && chunk.value == ChunkOf(tunnelId, Buffered(old(View()), e))
      ensures bufferingSince.Some? ==> bufferingSince.value <= now
      ensures streaming && admitted ==>
        (chunk.Some? <==> || |EncodeAll(old(current) + [e])| >= CHUNK_TARGET
                          || (old(bufferingSince).Some? && now - old(bufferingSince).value >= FLUSH_INTERVAL_MS))
    {
      if !admitted || (!streaming && !writing) {
        return admitted, None;
      }
      hide EncodeAll, Flatten, Chunks, TotalLength, Recorded;
      Append(e, now);
      var full := |bytes| >= CHUNK_TARGET;
      var stale := now - bufferingSince.value >= FLUSH_INTERVAL_MS;
      chunk := None;
      if streaming && (full || stale) {
        var c := Cut();
        chunk := Some(c);
      }
      ok := true;
    }

    /** Store the tail as the last chunk, then seal. A failed write is logged and the rest goes on; a transcript
        without chunks is not sealed, nor one whose root is not available. */
    method Finish(store: S3TranscriptStore, tailOk: bool, root: Option<string>, sealOk: bool)
      requires Valid()
      modifies this, store
      ensures Valid() && Recorded() == old(Recorded())
      ensures !writing ==> store.objects == old(store.objects) && groups == old(groups)
      ensures writing ==> View() == if old(current) == [] then old(View()) else CutOff(old(View()))
      ensures old(store.WellKept()) && |groups| <= Pow10(SEQ_DIGITS) ==> store.WellKept()
      ensures writing && old(current) != [] && tailOk
          ==> store.ChunkAt(tunnelId, |old(groups)|) == Some(EncodeAll(old(current)))
      ensures forall t, i: nat | PlainTunnel(t) && !(t == tunnelId && i == |old(groups)| && old(current) != []) ::
        store.ChunkAt(t, i) == old(store.ChunkAt(t, i))
      ensures writing && groups != [] && root.Some? && sealOk ==>
        store.ManifestAt(tunnelId) == Some(Manifest(|groups|, TotalLength(Chunks(groups)), root.value, SETTLE_VERSION))
      ensures !writing || groups == [] || root.None? ==> store.ManifestAt(tunnelId) == old(store.ManifestAt(tunnelId))
      ensures forall t | PlainTunnel(t) && t != tunnelId :: store.ManifestAt(t) == old(store.ManifestAt(t))
      // A second finish finds nothing to store and seals the same manifest.
      ensures writing && old(current) == [] && root.Some?
              && old(store.ManifestAt(tunnelId))
                  == Some(Manifest(|groups|, TotalLength(Chunks(groups)), root.value, SETTLE_VERSION))
              ==> store.objects == old(store.objects)
    {
      hide EncodeAll, Flatten, TotalLength;
      if !writing {
        return;
      }
      if bytes != [] {
        var tail := Cut();
        if tailOk {
          store.PutChunk(tunnelId, tail.n, tail.bytes);
        }
      }
      if seqNo == 0 || root.None? || !sealOk {
        return;
      }
      store.Seal(tunnelId, Manifest(seqNo, totalBytes, root.value, SETTLE_VERSION));
    }
  }

  /** With every chunk in the store, a sealed transcript reads back as the encoding of the
      recorded entries, and decodes to them. */
  lemma RoundTrip(groups: seq<seq<SettleEntry>>, m: Manifest, gets: seq<Option<Bytes>>)
    requires |gets| == m.chunkCount == |groups| && m.totalBytes == TotalLength(Chunks(groups))
    requires forall i | 0 <= i < |gets| :: gets[i] == Some(EncodeAll(groups[i]))
    requires forall i | 0 <= i < |Flatten(groups)| :: Flatten(groups)[i].Fits()
    ensures Assembled(m, gets) == Ok(EncodeAll(Flatten(groups)))
    ensures Decoded(EncodeAll(Flatten(groups))) == Ok(Flatten(groups))
  {
    hide EncodeAll, Flatten, Decoded, TotalLength;
    AssembledExactOrIncomplete(m, gets, Chunks(groups));
    ConcatIsEncoding(groups);
    DecodeInvertsEncode(Flatten(groups));
  }

  /** Every chunk a recorder has cut is in the store. */
  ghost predicate AllStored(store: S3TranscriptStore, tunnelId: string, groups: seq<seq<SettleEntry>>)
    reads store
  {
    forall i: nat | i < |groups| :: store.ChunkAt(tunnelId, i) == Some(EncodeAll(groups[i]))
  }

  lemma NothingStored(store: S3TranscriptStore, tunnelId: string)
    ensures AllStored(store, tunnelId, [])
  {
  }

  /** Finish, then read: exactly what was recorded comes back. */
  method FinishThenRead(recorder: S3StreamingRecorder, store: S3TranscriptStore, root: string)
    returns (r: Result<Option<Bytes>, ReadError>)
    requires recorder.Valid() && recorder.writing && AllStored(store, recorder.tunnelId, recorder.groups)
    requires recorder.Recorded() != []
    modifies recorder, store
    ensures r == Ok(Some(EncodeAll(old(recorder.Recorded()))))
  {
    hide EncodeAll, Flatten, TotalLength, Assembled;
    ghost var recorded := recorder.Recorded();
    recorder.Finish(store, true, Some(root), true);
    ghost var groups := recorder.groups;
    FlattenNothing();
    assert groups != [];
    r := store.ReadSealed(recorder.tunnelId);
    ghost var m := Manifest(|groups|, TotalLength(Chunks(groups)), root, SETTLE_VERSION);
    ghost var gets := store.Gets(recorder.tunnelId, |groups|);
    AssembledExactOrIncomplete(m, gets, Chunks(groups));
    ConcatIsEncoding(groups);
    assert Flatten(groups) + [] == Flatten(groups);
  }

  lemma FlattenNothing()
    ensures Flatten([]) == []
  {
  }

  /** Record an entry, and put the chunk that it completes. */
  method RecordAndPut(recorder: S3StreamingRecorder, store: S3TranscriptStore, e: SettleEntry, now: nat)
    requires recorder.Valid() && recorder.streaming && AllStored(store, recorder.tunnelId, recorder.groups)
    requires recorder.bufferingSince.Some? ==> recorder.bufferingSince.value <= now
    modifies recorder, store
    ensures recorder.Valid() && AllStored(store, recorder.tunnelId, recorder.groups)
    ensures recorder.Recorded() == old(recorder.Recorded()) + [e]
    ensures recorder.bufferingSince.Some? ==> recorder.bufferingSince.value <= now
  {
    hide EncodeAll, Flatten, TotalLength;
    var _, chunk := recorder.Record(e, now, true);
    if chunk.Some? {
      store.PutChunk(chunk.value.tunnelId, chunk.value.n, chunk.value.bytes);
    }
  }

  /** A whole match: every entry recorded, every chunk put as it is cut, the recorder finished and the transcript read.
      It reads back as the encoding of the entries, and decodes to them. */
  method RecordThenRead(tunnelId: string, entries: seq<SettleEntry>, clock: nat -> nat, store: S3TranscriptStore,
                        root: string)
    returns (r: Result<Option<Bytes>, ReadError>)
    requires PlainTunnel(tunnelId) && entries != [] && forall i | 0 <= i < |entries| :: entries[i].Fits()
    requires forall i: nat, j: nat | i <= j :: clock(i) <= clock(j)
    modifies store
    ensures r == Ok(Some(EncodeAll(entries))) && Decoded(EncodeAll(entries)) == Ok(entries)
  {
    hide EncodeAll, Flatten, TotalLength, Decoded, AllStored;
    var recorder := new S3StreamingRecorder(tunnelId, true, true);
    NothingStored(store, tunnelId);
    for i := 0 to |entries|
      invariant recorder.Valid() && recorder.tunnelId == tunnelId && recorder.streaming && recorder.writing
      invariant recorder.Recorded() == entries[..i] && AllStored(store, tunnelId, recorder.groups)
      invariant recorder.bufferingSince.Some? ==> i > 0 && recorder.bufferingSince.value <= clock(i - 1)
    {
      RecordAndPut(recorder, store, entries[i], clock(i));
      assert entries[..i + 1] == entries[..i] + [entries[i]];
    }
    assert entries[..|entries|] == entries;
    r := FinishThenRead(recorder, store, root);
    DecodeInvertsEncode(entries);
  }
}
