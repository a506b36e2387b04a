/** Where one tunnel's transcript lives in the bucket: the keys of its chunks, its manifest, and the archived body. */
module ChunkKeys {
  import opened Text

  const SEQ_DIGITS: nat := 8

  function TrimSlashes(p: string): string {
    if p != [] && p[|p| - 1] == '/' then TrimSlashes(p[..|p| - 1]) else p
  }

  function Root(prefix: string): string {
    var p := TrimSlashes(prefix);
    if p == [] then "transcripts/" else p + "/transcripts/"
  }

  /** The directory of one tunnel. */
  function ChunkDir(prefix: string, tunnel: string): string {
    Root(prefix) + (tunnel + "/")
  }

  function ChunkKey(prefix: string, tunnel: string, n: nat): string {
    ChunkDir(prefix, tunnel) + ("chunk-" + (Padded(n, SEQ_DIGITS) + ".bin"))
  }

  function ManifestKey(prefix: string, tunnel: string): string {
    ChunkDir(prefix, tunnel) + "manifest.json"
  }

  /** The key of the one-object archive of a settle body. */
  function TranscriptKey(prefix: string, tunnel: string, digest: string): string {
    ChunkDir(prefix, tunnel) + (digest + ".bin")
  }

  function ChunkListPrefix(prefix: string, tunnel: string): string {
    ChunkDir(prefix, tunnel) + "chunk-"
  }

  // ---------------------------------------------------------------------------------------------
  // The layout

  function Slashes(n: nat): string {
    seq(n, _ => '/')
  }

  lemma {:induction false} TrimsAll(p: string, n: nat)
    requires p == [] || p[|p| - 1] != '/'
    ensures TrimSlashes(p + Slashes(n)) == p
  {
    if n == 0 {
      assert p + Slashes(0) == p;
    } else {
      var q := p + Slashes(n);
      assert q[..|q| - 1] == p + Slashes(n - 1);
      TrimsAll(p, n - 1);
    }
  }

  /** What a prefix stands for: itself and a slash, or nothing if it is empty. */
  function Parent(p: string): string {
    if p == [] then "" else p + "/"
  }

  /** The documented keys, however many slashes the configured prefix ends in. */
  lemma KeysByName(p: string, n: nat, tunnel: string, seqNo: nat, digest: string)
    requires p == [] || p[|p| - 1] != '/'
    ensures var prefix, dir := p + Slashes(n), Parent(p) + "transcripts/" + tunnel + "/";
      && ChunkKey(prefix, tunnel, seqNo) == dir + "chunk-" + Padded(seqNo, 8) + ".bin"
      && ChunkListPrefix(prefix, tunnel) == dir + "chunk-"
      && ManifestKey(prefix, tunnel) == dir + "manifest.json"
      && TranscriptKey(prefix, tunnel, digest) == dir + digest + ".bin"
  {
    DirByName(p, n, tunnel);
    hide Padded, ChunkDir, Parent, Slashes;
    var dir := ChunkDir(p + Slashes(n), tunnel);
    Regroup(dir, "chunk-", Padded(seqNo, 8), ".bin");
    Regroup(dir, digest, ".bin", "");
  }

  lemma DirByName(p: string, n: nat, tunnel: string)
    requires p == [] || p[|p| - 1] != '/'
    ensures ChunkDir(p + Slashes(n), tunnel) == Parent(p) + "transcripts/" + tunnel + "/"
  {
    TrimsAll(p, n);
    hide TrimSlashes, Slashes;
    if p == [] {
      Regroup("", "transcripts/", tunnel, "/");
    } else {
      Regroup(p, "/", "transcripts/", tunnel + "/");
      Regroup(p + "/", "transcripts/", tunnel, "/");
      assert "/" + "transcripts/" == "/transcripts/";
    }
  }

  lemma Regroup(a: string, b: string, c: string, d: string)
    ensures a + (b + (c + d)) == a + b + c + d
    ensures a + (b + c) == a + b + c && (a + (b + c)) + d == a + b + (c + d)
  {
  }

  /** Tunnel ids are hex and digests base58: neither has a slash, and base58 has no dash. */
  ghost predicate PlainTunnel(tunnel: string) {
    '/' !in tunnel
  }

  ghost predicate PlainDigest(digest: string) {
    '/' !in digest && '-' !in digest
  }

  // ---------------------------------------------------------------------------------------------
  // Order of the chunks

  lemma KeyOrder(prefix: string, tunnel: string, a: nat, b: nat)
    ensures Less(ChunkKey(prefix, tunnel, a), ChunkKey(prefix, tunnel, b))
       <==> Less(Padded(a, SEQ_DIGITS) + ".bin", Padded(b, SEQ_DIGITS) + ".bin")
  {
    hide Less, Padded;
    LessAfterPrefix(ChunkDir(prefix, tunnel), "chunk-" + (Padded(a, SEQ_DIGITS) + ".bin"),
        "chunk-" + (Padded(b, SEQ_DIGITS) + ".bin"));
    LessAfterPrefix("chunk-", Padded(a, SEQ_DIGITS) + ".bin", Padded(b, SEQ_DIGITS) + ".bin");
  }

  /** Below 10^8 chunks, listing order is recording order. */
  lemma ChunkOrder(prefix: string, tunnel: string, a: nat, b: nat)
    requires a < Pow10(SEQ_DIGITS) && b < Pow10(SEQ_DIGITS)
    ensures Less(ChunkKey(prefix, tunnel, a), ChunkKey(prefix, tunnel, b)) <==> a < b
  {
    KeyOrder(prefix, tunnel, a, b);
    PaddedFits(a, SEQ_DIGITS);
    PaddedFits(b, SEQ_DIGITS);
    FixedOrder(a, b, SEQ_DIGITS);
    hide Padded, FixedDigits;
    LessBeforeSuffix(Padded(a, SEQ_DIGITS), Padded(b, SEQ_DIGITS), ".bin", ".bin");
    LessIrreflexive(".bin");
  }

  lemma {:induction false} DecimalOfPower(n: nat)
    ensures Decimal(Pow10(n)) == "1" + Zeros(n)
  {
    if n == 0 {
      assert "1" + Zeros(0) == "1";
    } else {
      DecimalOfPower(n - 1);
      assert Pow10(n) / 10 == Pow10(n - 1) && Pow10(n) % 10 == 0;
      assert "1" + Zeros(n) == ("1" + Zeros(n - 1)) + "0";
    }
  }

  /** The ninth digit breaks the order: chunk 10^8 is listed before chunk 10^8 - 1. */
  lemma OrderBreaks(prefix: string, tunnel: string)
    ensures Less(ChunkKey(prefix, tunnel, Pow10(8)), ChunkKey(prefix, tunnel, Pow10(8) - 1))
  {
    DecimalOfPower(8);
    var a, b := Padded(Pow10(8), SEQ_DIGITS), Padded(Pow10(8) - 1, SEQ_DIGITS);
    assert a[0] == '1';
    PaddedFits(Pow10(8) - 1, SEQ_DIGITS);
    assert b[0] == '9' by {
      assert Pow10(2) == 100 && Pow10(5) == 100000;
      assert Pow10(8) == 100000000;
      TopDigit(99999999, 8, 9);
    }
    hide Padded, Pow10;
    assert (a + ".bin")[0] == '1' && (b + ".bin")[0] == '9';
    KeyOrder(prefix, tunnel, Pow10(8), Pow10(8) - 1);
  }

  lemma {:induction false} TopDigit(n: nat, width: nat, d: nat)
    requires width > 0 && d < 10 && d * Pow10(width - 1) <= n < (d + 1) * Pow10(width - 1)
    ensures FixedDigits(n, width)[0] == Digit(d)
  {
    if width > 1 {
      assert Pow10(width - 1) == 10 * Pow10(width - 2);
      assert d * Pow10(width - 1) == 10 * (d * Pow10(width - 2));
      assert (d + 1) * Pow10(width - 1) == 10 * ((d + 1) * Pow10(width - 2));
      TopDigit(n / 10, width - 1, d);
    } else {
      assert FixedDigits(n, 1) == [Digit(n % 10)];
    }
  }

  ghost predicate ListedInOrder(prefix: string, tunnel: string, count: nat) {
    forall a: nat, b: nat | a < b < count :: Less(ChunkKey(prefix, tunnel, a), ChunkKey(prefix, tunnel, b))
  }

  /** Listing a transcript of `count` chunks yields them in order exactly when there are at most 10^8. */
  lemma ListedInOrderExactly(prefix: string, tunnel: string, count: nat)
    ensures ListedInOrder(prefix, tunnel, count) <==> count <= Pow10(8)
  {
    hide ChunkKey, Less, Pow10;
    if count <= Pow10(8) {
      forall a: nat, b: nat | a < b < count ensures Less(ChunkKey(prefix, tunnel, a), ChunkKey(prefix, tunnel, b)) {
        ChunkOrder(prefix, tunnel, a, b);
      }
    } else {
      OrderBreaks(prefix, tunnel);
      var a, b := ChunkKey(prefix, tunnel, Pow10(8) - 1), ChunkKey(prefix, tunnel, Pow10(8));
      if Less(a, b) {
        LessTransitive(a, b, a);
        LessIrreflexive(a);
      }
    }
  }

  // ---------------------------------------------------------------------------------------------
  // Keys do not collide

  lemma DirInjective(prefix: string, s: string, t: string, x: string, y: string)
    requires PlainTunnel(s) && PlainTunnel(t) && ChunkDir(prefix, s) + x == ChunkDir(prefix, t) + y
    ensures s == t && x == y
  {
    hide Root;
    var root := Root(prefix);
    assert ChunkDir(prefix, s) + x == root + (s + "/" + x);
    assert ChunkDir(prefix, t) + y == root + (t + "/" + y);
    CancelPrefix(root, s + "/" + x, t + "/" + y);
    CutAtMark(s, t, '/', x, y);
  }

  /** One key, one chunk, for every sequence number. */
  lemma ChunkKeyInjective(prefix: string, s: string, t: string, a: nat, b: nat)
    requires PlainTunnel(s) && PlainTunnel(t) && ChunkKey(prefix, s, a) == ChunkKey(prefix, t, b)
    ensures s == t && a == b
  {
    hide Padded, ChunkDir;
    var x, y := Padded(a, SEQ_DIGITS), Padded(b, SEQ_DIGITS);
    DirInjective(prefix, s, t, "chunk-" + (x + ".bin"), "chunk-" + (y + ".bin"));
    CancelPrefix("chunk-", x + ".bin", y + ".bin");
    assert '.' !in x && '.' !in y;
    assert x + ".bin" == x + ['.'] + "bin" && y + ".bin" == y + ['.'] + "bin";
    CutAtMark(x, y, '.', "bin", "bin");
    PaddedInjective(a, b, SEQ_DIGITS);
  }

  lemma ManifestKeyInjective(prefix: string, s: string, t: string)
    requires PlainTunnel(s) && PlainTunnel(t) && ManifestKey(prefix, s) == ManifestKey(prefix, t)
    ensures s == t
  {
    DirInjective(prefix, s, t, "manifest.json", "manifest.json");
  }

  lemma ChunkIsNoManifest(prefix: string, s: string, t: string, n: nat)
    requires PlainTunnel(s) && PlainTunnel(t)
    ensures ChunkKey(prefix, s, n) != ManifestKey(prefix, t)
  {
    hide Padded, ChunkDir;
    var x := "chunk-" + (Padded(n, SEQ_DIGITS) + ".bin");
    assert x[0] == 'c' && "manifest.json"[0] == 'm';
    if ChunkKey(prefix, s, n) == ManifestKey(prefix, t) {
      DirInjective(prefix, s, t, x, "manifest.json");
      assert false;
    }
  }

  /** The archived body never lands on a chunk or on the manifest. */
  lemma ArchiveKeyApart(prefix: string, s: string, t: string, digest: string, n: nat)
    requires PlainTunnel(s) && PlainTunnel(t) && PlainDigest(digest)
    ensures TranscriptKey(prefix, s, digest) != ChunkKey(prefix, t, n)
    ensures TranscriptKey(prefix, s, digest) != ManifestKey(prefix, t)
  {
    hide Padded, ChunkDir;
    var x, d := "chunk-" + (Padded(n, SEQ_DIGITS) + ".bin"), digest + ".bin";
    assert x[..6] == "chunk-" && x[5] == '-';
    assert d[|digest|] == '.' && (|digest| > 5 ==> d[5] == digest[5]);
    if TranscriptKey(prefix, s, digest) == ChunkKey(prefix, t, n) {
      DirInjective(prefix, s, t, d, x);
      assert false;
    }
    if TranscriptKey(prefix, s, digest) == ManifestKey(prefix, t) {
      DirInjective(prefix, s, t, d, "manifest.json");
      assert false;
    }
  }

  lemma StartsWithAfter(p: string, s: string, q: string)
    ensures StartsWith(p + s, p + q) <==> StartsWith(s, q)
  {
    if |q| <= |s| {
      assert (p + s)[..|p + q|] == p + s[..|q|];
      if (p + s)[..|p + q|] == p + q {
        CancelPrefix(p, s[..|q|], q);
      }
    }
  }

  /** A key of some tunnel's directory that begins with a tunnel's list prefix is in that tunnel's directory. */
  lemma PrefixNamesTunnel(prefix: string, s: string, t: string, x: string)
    requires PlainTunnel(s) && PlainTunnel(t)
    ensures StartsWith(ChunkDir(prefix, s) + x, ChunkListPrefix(prefix, t)) <==> s == t && StartsWith(x, "chunk-")
  {
    hide Root;
    var key, list := ChunkDir(prefix, s) + x, ChunkListPrefix(prefix, t);
    if StartsWith(key, list) {
      var rest := key[|list|..];
      assert key == list + rest == ChunkDir(prefix, t) + ("chunk-" + rest);
      DirInjective(prefix, s, t, x, "chunk-" + rest);
    }
    if s == t {
      StartsWithAfter(ChunkDir(prefix, t), x, "chunk-");
    }
  }

  /** What a listing for tunnel t returns: exactly the keys of t's chunks, never a manifest, an archived body
      or anything of another tunnel. */
  lemma ListSelectsTheTunnel(prefix: string, s: string, t: string, n: nat, digest: string)
    requires PlainTunnel(s) && PlainTunnel(t) && PlainDigest(digest)
    ensures StartsWith(ChunkKey(prefix, s, n), ChunkListPrefix(prefix, t)) <==> s == t
    ensures !StartsWith(ManifestKey(prefix, s), ChunkListPrefix(prefix, t))
    ensures !StartsWith(TranscriptKey(prefix, s, digest), ChunkListPrefix(prefix, t))
  {
    hide Padded, ChunkDir;
    var x := "chunk-" + (Padded(n, SEQ_DIGITS) + ".bin");
    PrefixNamesTunnel(prefix, s, t, x);
    assert x[..6] == "chunk-";
    PrefixNamesTunnel(prefix, s, t, "manifest.json");
    assert "manifest.json"[..6][0] == 'm';
    PrefixNamesTunnel(prefix, s, t, digest + ".bin");
    var d := digest + ".bin";
    assert d[|digest|] == '.' && (|digest| > 5 ==> d[5] == digest[5]);
    assert !StartsWith(d, "chunk-");
  }
}
