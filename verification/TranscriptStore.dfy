/** One co-signed transcript entry on the wire: a 16-bit length, the message and two 64-byte signatures. */
module SettleEntries {
  import opened Wrappers
  import opened Settlement
  import opened SettleHeader

  datatype SettleEntry = SettleEntry(message: Bytes, sigA: Bytes, sigB: Bytes) {
    ghost predicate Fits() {
      |message| < 65536 && |sigA| == 64 && |sigB| == 64
    }
  }

  function EncodeEntry(e: SettleEntry): (b: Bytes)
    ensures |b| >= 2
  {
    ToBigEndian(|e.message|, 2) + e.message + e.sigA + e.sigB
  }

  /** The entries one after the other, as the on-chain root commits to them. */
  function EncodeAll(es: seq<SettleEntry>): Bytes {
    if es == [] then [] else EncodeAll(es[..|es| - 1]) + EncodeEntry(es[|es| - 1])
  }

  lemma {:induction false} EncodeAllConcat(a: seq<SettleEntry>, b: seq<SettleEntry>)
    ensures EncodeAll(a + b) == EncodeAll(a) + EncodeAll(b)
  {
    if b == [] {
      assert a + b == a && EncodeAll(a) + [] == EncodeAll(a);
    } else {
      assert (a + b)[..|a + b| - 1] == a + b[..|b| - 1];
      EncodeAllConcat(a, b[..|b| - 1]);
    }
  }

  /** Read entries off the front until nothing is left; refuse bytes that do not end on a whole entry. */
  function Decoded(b: Bytes): Result<seq<SettleEntry>, string>
    decreases |b|
  {
    if b == [] then Ok([])
    else if |b| < 2 then Err("truncated entry length prefix")
    else
      var n := FromBigEndian(b[..2]);
      if 2 + n + 128 > |b| then Err("truncated entry body")
      else
        var e := SettleEntry(b[2..2 + n], b[2 + n..66 + n], b[66 + n..130 + n]);
        match Decoded(b[130 + n..])
        case Ok(rest) => Ok([e] + rest)
        case Err(m) => Err(m)
  }

  ghost function Prepend(es: seq<SettleEntry>, r: Result<seq<SettleEntry>, string>): Result<seq<SettleEntry>, string> {
    match r
    case Ok(rest) => Ok(es + rest)
    case Err(m) => Err(m)
  }

  lemma PrependTwice(es: seq<SettleEntry>, e: SettleEntry, r: Result<seq<SettleEntry>, string>)
    ensures Prepend(es, Prepend([e], r)) == Prepend(es + [e], r)
    ensures Prepend([], r) == r
  {
    if r.Ok? {
      assert es + ([e] + r.value) == (es + [e]) + r.value;
      assert [] + r.value == r.value;
    }
  }

  lemma DecodedStep(b: Bytes, off: nat, n: nat, e: SettleEntry)
    requires off + 130 + n <= |b| && n == FromBigEndian(b[off..off + 2])
    requires e == SettleEntry(b[off + 2..off + 2 + n], b[off + 2 + n..off + 66 + n], b[off + 66 + n..off + 130 + n])
    ensures Decoded(b[off..]) == Prepend([e], Decoded(b[off + 130 + n..]))
  {
    hide FromBigEndian;
    var rest := b[off..];
    assert rest[..2] == b[off..off + 2];
    assert e == SettleEntry(rest[2..2 + n], rest[2 + n..66 + n], rest[66 + n..130 + n]);
    assert rest[130 + n..] == b[off + 130 + n..];
  }

  lemma DecodedStops(b: Bytes, off: nat)
    requires off < |b|
    ensures off + 2 > |b| ==> Decoded(b[off..]) == Err("truncated entry length prefix")
    ensures off + 2 <= |b| && off + 130 + FromBigEndian(b[off..off + 2]) > |b|
        ==> Decoded(b[off..]) == Err("truncated entry body")
  {
    hide FromBigEndian;
    if off + 2 <= |b| {
      assert b[off..][..2] == b[off..off + 2];
    }
  }

  /** The client's decoder of a header-less run of entries. */
  method DecodeEntries(b: Bytes) returns (r: Result<seq<SettleEntry>, string>)
    ensures r == Decoded(b)
  {
    hide Decoded, FromBigEndian;
    var entries: seq<SettleEntry> := [];
    var off := 0;
    assert b[0..] == b;
    assert Prepend([], Decoded(b)) == Decoded(b) by {
      if Decoded(b).Ok? {
        assert [] + Decoded(b).value == Decoded(b).value;
      }
    }
    while off < |b|
      invariant 0 <= off <= |b|
      invariant Decoded(b) == Prepend(entries, Decoded(b[off..]))
    {
      DecodedStops(b, off);
      if off + 2 > |b| {
        return Err("truncated entry length prefix");
      }
      var n := FromBigEndian(b[off..off + 2]);
      if off + 2 + n + 128 > |b| {
        return Err("truncated entry body");
      }
      var e := SettleEntry(b[off + 2..off + 2 + n], b[off + 2 + n..off + 66 + n], b[off + 66 + n..off + 130 + n]);
      DecodedStep(b, off, n, e);
      PrependTwice(entries, e, Decoded(b[off + 130 + n..]));
      entries := entries + [e];
      off := off + 130 + n;
    }
    DecodedNothing();
    assert b[off..] == [];
    assert entries + [] == entries;
    return Ok(entries);
  }

  lemma DecodedNothing()
    ensures Decoded([]) == Ok([])
  {
  }

  lemma DecodeOne(e: SettleEntry, rest: Bytes)
    requires e.Fits()
    ensures Decoded(EncodeEntry(e) + rest) == Prepend([e], Decoded(rest))
  {
    var n := |e.message|;
    var len := ToBigEndian(n, 2);
    assert Pow256(2) == 65536 by {
      assert Pow256(1) == 256;
    }
    BigEndianRoundTrip(n, 2);
    hide ToBigEndian, FromBigEndian, Pow256;
    var b := EncodeEntry(e) + rest;
    assert b == len + (e.message + (e.sigA + (e.sigB + rest)));
    assert b[..2] == len && b[2..2 + n] == e.message && b[2 + n..66 + n] == e.sigA;
    assert b[66 + n..130 + n] == e.sigB && b[130 + n..] == rest;
  }

  /** Decoding inverts encoding. */
  lemma {:induction false} DecodeInvertsEncode(es: seq<SettleEntry>)
    requires forall k | 0 <= k < |es| :: es[k].Fits()
    ensures Decoded(EncodeAll(es)) == Ok(es)
  {
    if es != [] {
      assert es == [es[0]] + es[1..];
      EncodeAllConcat([es[0]], es[1..]);
      assert EncodeAll([es[0]]) == EncodeEntry(es[0]) by {
        assert [es[0]][..0] == [];
        assert EncodeAll([es[0]]) == [] + EncodeEntry(es[0]);
      }
      hide EncodeAll, EncodeEntry;
      DecodeInvertsEncode(es[1..]);
      DecodeOne(es[0], EncodeAll(es[1..]));
    }
  }
}

/** The bucket that holds streamed transcripts, and how one is put together again. */
module TranscriptStore {
  import opened Wrappers
  import opened Settlement
  import opened ChunkKeys
  import opened Text

  datatype Manifest = Manifest(chunkCount: nat, totalBytes: nat, transcriptRoot: string, settleVersion: nat)

  /** What an object holds. */
  datatype Object = Chunk(bytes: Bytes) | Sealed(manifest: Manifest)

  datatype ReadError = Incomplete(detail: string)

  function Concat(chunks: seq<Bytes>): Bytes {
    if chunks == [] then [] else Concat(chunks[..|chunks| - 1]) + chunks[|chunks| - 1]
  }

  function TotalLength(chunks: seq<Bytes>): nat {
    if chunks == [] then 0 else TotalLength(chunks[..|chunks| - 1]) + |chunks[|chunks| - 1]|
  }

  lemma {:induction false} TotalIsLength(chunks: seq<Bytes>)
    ensures TotalLength(chunks) == |Concat(chunks)|
  {
    if chunks != [] {
      TotalIsLength(chunks[..|chunks| - 1]);
    }
  }

  /** What the reader makes of the manifest and of what each chunk fetch returned: every chunk present and the
      lengths adding up, or an error. */
  function Assembled(m: Manifest, gets: seq<Option<Bytes>>): Result<Bytes, ReadError>
    requires |gets| == m.chunkCount
  {
    if exists i | 0 <= i < |gets| :: gets[i].None? then Err(Incomplete("chunk missing"))
    else
      var chunks := seq(|gets|, i requires 0 <= i < |gets| && gets[i].Some? => gets[i].value);
      if TotalLength(chunks) != m.totalBytes then Err(Incomplete("length mismatch"))
      else Ok(Concat(chunks))
  }

  /** The reader's loops: collect the chunks in order, add up their lengths, join them. */
  method Assemble(m: Manifest, gets: seq<Option<Bytes>>) returns (r: Result<Bytes, ReadError>)
    requires |gets| == m.chunkCount
    ensures r == Assembled(m, gets)
  {
    var chunks: seq<Bytes> := [];
    for i := 0 to |gets|
      invariant |chunks| == i && forall j | 0 <= j < i :: gets[j] == Some(chunks[j])
    {
      if gets[i].None? {
        return Err(Incomplete("chunk missing"));
      }
      chunks := chunks + [gets[i].value];
    }
    assert chunks == seq(|gets|, i requires 0 <= i < |gets| && gets[i].Some? => gets[i].value);
    var total := 0;
    for i := 0 to |chunks|
      invariant total == TotalLength(chunks[..i])
    {
      total := total + |chunks[i]|;
      assert chunks[..i + 1][..i] == chunks[..i];
    }
    assert chunks[..|chunks|] == chunks;
    if total != m.totalBytes {
      return Err(Incomplete("length mismatch"));
    }
    var transcript: Bytes := [];
    for i := 0 to |chunks|
      invariant transcript == Concat(chunks[..i])
    {
      transcript := transcript + chunks[i];
      assert chunks[..i + 1][..i] == chunks[..i];
    }
    return Ok(transcript);
  }

  /** A transcript assembles exactly when every chunk is there and together they are as long as the manifest says, and
      is then the chunks in order; otherwise it is incomplete, never something else. */
  lemma AssembledExactly(m: Manifest, gets: seq<Option<Bytes>>, bytes: Bytes)
    requires |gets| == m.chunkCount
    ensures Assembled(m, gets) == Ok(bytes) <==>
            && |bytes| == m.totalBytes
            && exists chunks: seq<Bytes> :: |chunks| == |gets| && bytes == Concat(chunks)
                 && forall i | 0 <= i < |gets| :: gets[i] == Some(chunks[i])
    ensures Assembled(m, gets).Err? ==> Assembled(m, gets).error.Incomplete?
  {
    if exists chunks: seq<Bytes> :: |chunks| == |gets| && bytes == Concat(chunks)
         && forall i | 0 <= i < |gets| :: gets[i] == Some(chunks[i]) {
      var chunks: seq<Bytes> :| |chunks| == |gets| && bytes == Concat(chunks)
        && forall i | 0 <= i < |gets| :: gets[i] == Some(chunks[i]);
      TotalIsLength(chunks);
      assert seq(|gets|, i requires 0 <= i < |gets| && gets[i].Some? => gets[i].value) == chunks;
    }
    if Assembled(m, gets) == Ok(bytes) {
      var chunks := seq(|gets|, i requires 0 <= i < |gets| && gets[i].Some? => gets[i].value);
      TotalIsLength(chunks);
      assert forall i | 0 <= i < |gets| :: gets[i] == Some(chunks[i]);
    }
  }

  /** Never a partial or reordered transcript: if every chunk that was fetched is the chunk recorded under its
      number and the manifest counts the bytes of the recorded ones, the read is the recorded transcript whole,
      and it succeeds exactly when no chunk is missing. */
  lemma AssembledExactOrIncomplete(m: Manifest, gets: seq<Option<Bytes>>, recorded: seq<Bytes>)
    requires |gets| == m.chunkCount == |recorded| && m.totalBytes == TotalLength(recorded)
    requires forall i | 0 <= i < |gets| && gets[i].Some? :: gets[i].value == recorded[i]
    ensures Assembled(m, gets) == if exists i | 0 <= i < |gets| :: gets[i].None? then Err(Incomplete("chunk missing"))
                                  else Ok(Concat(recorded))
  {
    if !exists i | 0 <= i < |gets| :: gets[i].None? {
      assert seq(|gets|, i requires 0 <= i < |gets| && gets[i].Some? => gets[i].value) == recorded;
    }
  }

  // ---------------------------------------------------------------------------------------------
  // Sorting keys

  method Least(keys: set<string>) returns (least: string)
    requires keys != {}
    ensures least in keys && forall k | k in keys && k != least :: Less(least, k)
  {
    hide Less;
    least :| least in keys;
    var rest := keys - {least};
    while rest != {}
      invariant rest <= keys && least in keys && least !in rest
      invariant forall k | k in keys - rest && k != least :: Less(least, k)
      decreases |rest|
    {
      var k :| k in rest;
      LessTotal(k, least);
      if Less(k, least) {
        forall j | j in keys - rest && j != least ensures Less(k, j) {
          LessTransitive(k, least, j);
        }
        least := k;
      }
      rest := rest - {k};
    }
  }

  method SortKeys(keys: set<string>) returns (sorted: seq<string>)
    ensures forall k :: k in sorted <==> k in keys
    ensures forall i, j | 0 <= i < j < |sorted| :: Less(sorted[i], sorted[j])
  {
    hide Less;
    sorted := [];
    var rest := keys;
    while rest != {}
      invariant rest <= keys && forall k :: k in sorted <==> k in keys - rest
      invariant forall i, j | 0 <= i < j < |sorted| :: Less(sorted[i], sorted[j])
      invariant forall i, k | 0 <= i < |sorted| && k in rest :: Less(sorted[i], k)
      decreases |rest|
    {
      var k := Least(rest);
      sorted := sorted + [k];
      rest := rest - {k};
    }
  }

  // ---------------------------------------------------------------------------------------------
  // The bucket

  /** An object under the key of a chunk with at most eight digits, of a manifest, or of an archived body. */
  ghost predicate Kept(prefix: string, key: string, stored: Object) {
    || (exists t, n: nat :: PlainTunnel(t) && n < Pow10(SEQ_DIGITS) && key == ChunkKey(prefix, t, n) && stored.Chunk?)
    || (exists t :: PlainTunnel(t) && key == ManifestKey(prefix, t))
    || (exists t, d :: PlainTunnel(t) && PlainDigest(d) && key == TranscriptKey(prefix, t, d))
  }

  class S3TranscriptStore {
    const prefix: string
    var objects: map<string, Object>

    constructor (prefix: string)
      ensures this.prefix == prefix && objects == map[] && WellKept()
    {
      this.prefix := prefix;
      objects := map[];
    }

    /** The chunk stored for a tunnel under a number. */
    function ChunkAt(tunnel: string, n: nat): Option<Bytes>
      reads this
    {
      var key := ChunkKey(prefix, tunnel, n);
      if key in objects && objects[key].Chunk? then Some(objects[key].bytes) else None
    }

    function ManifestAt(tunnel: string): Option<Manifest>
      reads this
    {
      var key := ManifestKey(prefix, tunnel);
      if key in objects && objects[key].Sealed? then Some(objects[key].manifest) else None
    }

    /** Storing a chunk touches no other chunk and no manifest, of any tunnel. */
    method PutChunk(tunnel: string, n: nat, bytes: Bytes)
      requires PlainTunnel(tunnel)
      modifies this
      ensures ChunkAt(tunnel, n) == Some(bytes)
      ensures forall t, i: nat | PlainTunnel(t) && (t, i) != (tunnel, n) :: ChunkAt(t, i) == old(ChunkAt(t, i))
      ensures forall t | PlainTunnel(t) :: ManifestAt(t) == old(ManifestAt(t))
      ensures objects == old(objects)[ChunkKey(prefix, tunnel, n) := Chunk(bytes)]
      ensures old(WellKept()) && n < Pow10(SEQ_DIGITS) ==> WellKept()
    {
      assert n < Pow10(SEQ_DIGITS) ==> Kept(prefix, ChunkKey(prefix, tunnel, n), Chunk(bytes));
      hide Kept, Pow10;
      objects := objects[ChunkKey(prefix, tunnel, n) := Chunk(bytes)];
      hide ChunkKey, ManifestKey;
      forall t, i: nat | PlainTunnel(t) && (t, i) != (tunnel, n)
        ensures ChunkKey(prefix, t, i) != ChunkKey(prefix, tunnel, n)
      {
        if ChunkKey(prefix, t, i) == ChunkKey(prefix, tunnel, n) {
          ChunkKeyInjective(prefix, t, tunnel, i, n);
        }
      }
      forall t | PlainTunnel(t) ensures ManifestKey(prefix, t) != ChunkKey(prefix, tunnel, n) {
        ChunkIsNoManifest(prefix, tunnel, t, n);
      }
    }

    /** Sealing touches no chunk and no other tunnel's manifest. */
    method Seal(tunnel: string, manifest: Manifest)
      requires PlainTunnel(tunnel)
      modifies this
      ensures ManifestAt(tunnel) == Some(manifest)
      ensures forall t, i: nat | PlainTunnel(t) :: ChunkAt(t, i) == old(ChunkAt(t, i))
      ensures forall t | PlainTunnel(t) && t != tunnel :: ManifestAt(t) == old(ManifestAt(t))
      ensures objects == old(objects)[ManifestKey(prefix, tunnel) := Sealed(manifest)]
      ensures old(WellKept()) ==> WellKept()
    {
      assert Kept(prefix, ManifestKey(prefix, tunnel), Sealed(manifest));
      hide Kept, Pow10;
      objects := objects[ManifestKey(prefix, tunnel) := Sealed(manifest)];
      hide ChunkKey, ManifestKey;
      forall t, i: nat | PlainTunnel(t) ensures ChunkKey(prefix, t, i) != ManifestKey(prefix, tunnel) {
        ChunkIsNoManifest(prefix, t, tunnel, i);
      }
      forall t | PlainTunnel(t) && t != tunnel ensures ManifestKey(prefix, t) != ManifestKey(prefix, tunnel) {
        if ManifestKey(prefix, t) == ManifestKey(prefix, tunnel) {
          ManifestKeyInjective(prefix, t, tunnel);
        }
      }
    }

    ghost function Gets(tunnel: string, count: nat): seq<Option<Bytes>>
      reads this
    {
      seq(count, i requires 0 <= i < count reads this => ChunkAt(tunnel, i))
    }

    /** A sealed transcript, fetched by the manifest's exact count. */
    method ReadSealed(tunnel: string) returns (r: Result<Option<Bytes>, ReadError>)
      ensures ManifestAt(tunnel).None? ==> r == Ok(None)
      ensures ManifestAt(tunnel).Some? ==>
        var m := ManifestAt(tunnel).value;
        r == match Assembled(m, Gets(tunnel, m.chunkCount))
             case Ok(b) => Ok(Some(b))
             case Err(e) => Err(e)
    {
      var m := ManifestAt(tunnel);
      if m.None? {
        return Ok(None);
      }
      var gets: seq<Option<Bytes>> := [];
      for i := 0 to m.value.chunkCount
        invariant |gets| == i && forall j | 0 <= j < i :: gets[j] == ChunkAt(tunnel, j)
      {
        gets := gets + [ChunkAt(tunnel, i)];
      }
      assert gets == Gets(tunnel, m.value.chunkCount);
      var b := Assemble(m.value, gets);
      match b
      case Ok(bytes) => r := Ok(Some(bytes));
      case Err(e) => r := Err(e);
    }

    /** Every key in the bucket belongs to some tunnel, and no transcript has more than 10^8 chunks. */
    ghost predicate WellKept()
      reads this
    {
      forall key | key in objects :: Kept(prefix, key, objects[key])
    }

    /** `n` is the number under which the listed key stores a chunk of the tunnel. */
    ghost predicate Names(tunnel: string, key: string, n: nat)
      reads this
    {
      n < Pow10(SEQ_DIGITS) && key == ChunkKey(prefix, tunnel, n) && ChunkAt(tunnel, n).Some?
    }

    lemma ListedIsChunk(tunnel: string, key: string) returns (n: nat)
      requires WellKept() && PlainTunnel(tunnel) && key in objects && StartsWith(key, ChunkListPrefix(prefix, tunnel))
      ensures Names(tunnel, key, n)
    {
      hide ChunkKey, ManifestKey, TranscriptKey, ChunkListPrefix, StartsWith, Pow10;
      assert Kept(prefix, key, objects[key]);
      if t, m: nat :| PlainTunnel(t) && m < Pow10(SEQ_DIGITS) && key == ChunkKey(prefix, t, m) && objects[key].Chunk? {
        ListSelectsTheTunnel(prefix, t, tunnel, m, "");
        n := m;
      } else if t :| PlainTunnel(t) && key == ManifestKey(prefix, t) {
        ListSelectsTheTunnel(prefix, t, tunnel, 0, "");
        assert false;
      } else {
        var t, d :| PlainTunnel(t) && PlainDigest(d) && key == TranscriptKey(prefix, t, d);
        ListSelectsTheTunnel(prefix, t, tunnel, 0, d);
        assert false;
      }
    }

    /** An unsealed transcript: whatever chunks are there, in recording order. The numbers of the chunks read are
        reported: they are exactly those stored, increasing. */
    method ReadListed(tunnel: string) returns (r: Option<Bytes>, ghost nums: seq<nat>)
      requires PlainTunnel(tunnel) && WellKept()
      ensures forall i, j | 0 <= i < j < |nums| :: nums[i] < nums[j]
      ensures forall n: nat | n < Pow10(SEQ_DIGITS) :: n in nums <==> ChunkAt(tunnel, n).Some?
      ensures forall i | 0 <= i < |nums| :: ChunkAt(tunnel, nums[i]).Some?
      ensures r == if nums == [] then None
                   else Some(Concat(seq(|nums|,
                       i requires 0 <= i < |nums| && ChunkAt(tunnel, nums[i]).Some? reads this =>
                         ChunkAt(tunnel, nums[i]).value)))
    {
      hide ChunkKey, ManifestKey, TranscriptKey, ChunkListPrefix, StartsWith, Pow10, Less, WellKept;
      nums := [];
      var list := ChunkListPrefix(prefix, tunnel);
      var keys := SortKeys(set k | k in objects && StartsWith(k, list));
      var parts: seq<Bytes> := [];
      var transcript: Bytes := [];
      for i := 0 to |keys|
        invariant |nums| == |parts| == i
        invariant forall j | 0 <= j < i :: Names(tunnel, keys[j], nums[j]) && parts[j] == ChunkAt(tunnel, nums[j]).value
        invariant forall j, k | 0 <= j < k < i :: nums[j] < nums[k]
        invariant transcript == Concat(parts)
      {
        assert keys[i] in keys;
        ghost var n := ListedIsChunk(tunnel, keys[i]);
        var bytes := objects[keys[i]].bytes;
        forall j | 0 <= j < i ensures nums[j] < n {
          assert Names(tunnel, keys[j], nums[j]);
          assert Less(keys[j], keys[i]);
          ChunkOrder(prefix, tunnel, nums[j], n);
        }
        assert (parts + [bytes])[..i] == parts;
        nums := nums + [n];
        parts := parts + [bytes];
        transcript := transcript + bytes;
      }
      AllListed(tunnel, keys, nums);
      assert parts == seq(|nums|, i requires 0 <= i < |nums| && ChunkAt(tunnel, nums[i]).Some? reads this =>
                            ChunkAt(tunnel, nums[i]).value);
      r := if keys == [] then None else Some(transcript);
    }

    lemma AllListed(tunnel: string, keys: seq<string>, nums: seq<nat>)
      requires PlainTunnel(tunnel) && |nums| == |keys|
      requires forall k | k in objects && StartsWith(k, ChunkListPrefix(prefix, tunnel)) :: k in keys
      requires forall j | 0 <= j < |keys| :: Names(tunnel, keys[j], nums[j])
      ensures forall n: nat | n < Pow10(SEQ_DIGITS) :: n in nums <==> ChunkAt(tunnel, n).Some?
    {
      hide ChunkKey, ManifestKey, TranscriptKey, ChunkListPrefix, StartsWith, Pow10;
      forall n: nat | n < Pow10(SEQ_DIGITS) ensures n in nums <==> ChunkAt(tunnel, n).Some? {
        if n in nums {
          var j :| 0 <= j < |nums| && nums[j] == n;
          assert Names(tunnel, keys[j], nums[j]);
        } else if ChunkAt(tunnel, n).Some? {
          var key := ChunkKey(prefix, tunnel, n);
          ListSelectsTheTunnel(prefix, tunnel, tunnel, n, "");
          var j :| 0 <= j < |keys| && keys[j] == key;
          assert Names(tunnel, keys[j], nums[j]);
          ChunkKeyInjective(prefix, tunnel, tunnel, nums[j], n);
          assert false;
        }
      }
    }
  }
}
