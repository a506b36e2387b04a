/** The fixed 229-byte header of a settle body, and tunnel ids as strings. */
module SettleHeader {
  import opened Wrappers
  import opened Settlement
  import opened Text

  const SETTLE_BODY_VERSION: Byte := 0x01
  const SETTLE_BODY_HEADER_LEN: nat := 229

  datatype SettleBody = SettleBody(
    tunnel: Bytes,
    partyABalance: nat,
    partyBBalance: nat,
    finalNonce: nat,
    timestamp: nat,
    transcriptRoot: Bytes,
    sigA: Bytes,
    sigB: Bytes,
    updateCount: nat)
  {
    /** The id as the parser renders it: 0x and 64 lowercase hex digits. */
    function TunnelId(): string {
      "0x" + HexEncode(tunnel)
    }

    /** The field widths the wire format fixes. */
    ghost predicate Fits() {
      && |tunnel| == 32 && |transcriptRoot| == 32 && |sigA| == 64 && |sigB| == 64
      && partyABalance < Pow256(8) && partyBBalance < Pow256(8)
      && finalNonce < Pow256(8) && timestamp < Pow256(8) && updateCount < Pow256(4)
    }
  }

  function Pow256(n: nat): (p: nat)
    ensures p >= 1
  {
    if n == 0 then 1 else 256 * Pow256(n - 1)
  }

  /** The number a big-endian byte string stands for. */
  function FromBigEndian(b: Bytes): nat {
    if b == [] then 0 else 256 * FromBigEndian(b[..|b| - 1]) + b[|b| - 1]
  }

  function ToBigEndian(n: nat, width: nat): (b: Bytes)
    ensures |b| == width
  {
    if width == 0 then [] else ToBigEndian(n / 256, width - 1) + [n % 256]
  }

  function HexDigit(n: int): char
    requires 0 <= n < 16
  {
    if n < 10 then '0' + n as char else 'a' + (n - 10) as char
  }

  function HexEncode(b: Bytes): (s: string)
    ensures |s| == 2 * |b|
  {
    if b == [] then "" else [HexDigit(b[0] / 16), HexDigit(b[0] % 16)] + HexEncode(b[1..])
  }

  // ---------------------------------------------------------------------------------------------
  // Parsing

  /** Parse the header of a settle body; whatever follows the header is not looked at. */
  function ParseSettleBody(b: Bytes): Result<SettleBody, string> {
    if |b| < SETTLE_BODY_HEADER_LEN then
      Err("body too short")
    else if b[0] != SETTLE_BODY_VERSION then
      Err("unexpected settle version")
    else
      Ok(SettleBody(b[1..33],
                    FromBigEndian(b[33..41]),
                    FromBigEndian(b[41..49]),
                    FromBigEndian(b[49..57]),
                    FromBigEndian(b[57..65]),
                    b[65..97],
                    b[97..161],
                    b[161..225],
                    FromBigEndian(b[225..229])))
  }

  /** The close a worker rebuilds from a header it took off the queue. */
  function CloseArgsFromHeader(header: Bytes): Result<CloseArgs, string> {
    match ParseSettleBody(header)
    case Err(e) => Err(e)
    case Ok(p) => Ok(CloseArgs(p.TunnelId(), p.partyABalance, p.partyBBalance,
                               p.sigA, p.sigB, p.timestamp, p.transcriptRoot))
  }

  /** The header the clients' codec writes in front of the entries. */
  function EncodeHeader(p: SettleBody): Bytes {
    [SETTLE_BODY_VERSION] + p.tunnel
    + ToBigEndian(p.partyABalance, 8) + ToBigEndian(p.partyBBalance, 8)
    + ToBigEndian(p.finalNonce, 8) + ToBigEndian(p.timestamp, 8)
    + p.transcriptRoot + p.sigA + p.sigB + ToBigEndian(p.updateCount, 4)
  }

  lemma {:induction false} BigEndianRoundTrip(n: nat, width: nat)
    requires n < Pow256(width)
    ensures FromBigEndian(ToBigEndian(n, width)) == n
  {
    if width > 0 {
      var b := ToBigEndian(n, width);
      assert b[..width - 1] == ToBigEndian(n / 256, width - 1);
      BigEndianRoundTrip(n / 256, width - 1);
    }
  }

  /** The most significant byte comes first. */
  lemma {:induction false} BigEndianLeads(x: Byte, rest: Bytes)
    ensures FromBigEndian([x] + rest) == x * Pow256(|rest|) + FromBigEndian(rest)
  {
    var b := [x] + rest;
    if rest == [] {
      assert b[..0] == [];
    } else {
      var n := |rest| - 1;
      assert b[..|b| - 1] == [x] + rest[..n];
      BigEndianLeads(x, rest[..n]);
      assert 256 * (x * Pow256(n)) == x * Pow256(n + 1);
    }
  }

  lemma {:induction false} BytesRoundTrip(b: Bytes)
    ensures FromBigEndian(b) < Pow256(|b|)
    ensures ToBigEndian(FromBigEndian(b), |b|) == b
  {
    if b != [] {
      BytesRoundTrip(b[..|b| - 1]);
      assert b == b[..|b| - 1] + [b[|b| - 1]];
    }
  }

  lemma Slices(parts: seq<Bytes>, whole: Bytes)
    requires |parts| == 10
    requires whole == parts[0] + parts[1] + parts[2] + parts[3] + parts[4] + parts[5] + parts[6] + parts[7] + parts[8]
        + parts[9]
    requires |parts[0]| == 1 && |parts[1]| == 32 && |parts[2]| == 8 && |parts[3]| == 8 && |parts[4]| == 8
    requires |parts[5]| == 8 && |parts[6]| == 32 && |parts[7]| == 64 && |parts[8]| == 64 && |parts[9]| == 4
    ensures |whole| == 229 && whole[0] == parts[0][0]
    ensures whole[1..33] == parts[1] && whole[33..41] == parts[2] && whole[41..49] == parts[3]
    ensures whole[49..57] == parts[4] && whole[57..65] == parts[5] && whole[65..97] == parts[6]
    ensures whole[97..161] == parts[7] && whole[161..225] == parts[8] && whole[225..229] == parts[9]
  {
  }

  /** Parsing inverts encoding, whatever entries follow the header. */
  lemma ParseInvertsEncode(p: SettleBody, entries: Bytes)
    requires p.Fits()
    ensures |EncodeHeader(p)| == SETTLE_BODY_HEADER_LEN
    ensures ParseSettleBody(EncodeHeader(p) + entries) == Ok(p)
  {
    var parts := [[SETTLE_BODY_VERSION], p.tunnel,
                  ToBigEndian(p.partyABalance, 8), ToBigEndian(p.partyBBalance, 8),
                  ToBigEndian(p.finalNonce, 8), ToBigEndian(p.timestamp, 8),
                  p.transcriptRoot, p.sigA, p.sigB, ToBigEndian(p.updateCount, 4)];
    Slices(parts, EncodeHeader(p));
    BigEndianRoundTrip(p.partyABalance, 8);
    BigEndianRoundTrip(p.partyBBalance, 8);
    BigEndianRoundTrip(p.finalNonce, 8);
    BigEndianRoundTrip(p.timestamp, 8);
    BigEndianRoundTrip(p.updateCount, 4);
    hide ToBigEndian, FromBigEndian;
    HeaderIsAllThatCounts(EncodeHeader(p) + entries);
    assert (EncodeHeader(p) + entries)[..SETTLE_BODY_HEADER_LEN] == EncodeHeader(p);
  }

  /** A close that pays out a settlement: its tunnel, each party's own balance and signature, its time and root. */
  ghost predicate PaysOut(close: CloseArgs, p: SettleBody) {
    && close.tunnelId == "0x" + HexEncode(p.tunnel)
    && close.partyABalance == p.partyABalance && close.partyBBalance == p.partyBBalance
    && close.sigA == p.sigA && close.sigB == p.sigB
    && close.timestamp == p.timestamp && close.transcriptRoot == p.transcriptRoot
  }

  /** The close rebuilt from the encoding of a settlement pays out that settlement, whatever entries follow. */
  lemma ClosePaysOut(p: SettleBody, entries: Bytes)
    requires p.Fits()
    ensures var r := CloseArgsFromHeader(EncodeHeader(p) + entries); r.Ok? && PaysOut(r.value, p)
  {
    hide EncodeHeader, ParseSettleBody;
    ParseInvertsEncode(p, entries);
  }

  /** Bodies are refused exactly when they are too short for a header or of another version. */
  lemma RefusedExactly(b: Bytes)
    ensures CloseArgsFromHeader(b).Err? <==> |b| < 229 || b[0] != 1
    ensures CloseArgsFromHeader(b).Ok? <==> ParseSettleBody(b).Ok?
  {
  }

  /** Only the first 229 bytes matter: the header cut off an accepted body yields the same settlement. */
  lemma HeaderIsAllThatCounts(body: Bytes)
    requires |body| >= SETTLE_BODY_HEADER_LEN
    ensures ParseSettleBody(body[..SETTLE_BODY_HEADER_LEN]) == ParseSettleBody(body)
  {
    hide FromBigEndian;
    var h := body[..SETTLE_BODY_HEADER_LEN];
    assert h[1..33] == body[1..33] && h[33..41] == body[33..41] && h[41..49] == body[41..49];
    assert h[49..57] == body[49..57] && h[57..65] == body[57..65] && h[65..97] == body[65..97];
    assert h[97..161] == body[97..161] && h[161..225] == body[161..225] && h[225..229] == body[225..229];
  }

  /** A header says nothing beyond what is parsed from it: encoding inverts parsing. */
  lemma EncodeInvertsParse(header: Bytes)
    requires |header| == SETTLE_BODY_HEADER_LEN && ParseSettleBody(header).Ok?
    ensures ParseSettleBody(header).value.Fits()
    ensures EncodeHeader(ParseSettleBody(header).value) == header
  {
    BytesRoundTrip(header[33..41]);
    BytesRoundTrip(header[41..49]);
    BytesRoundTrip(header[49..57]);
    BytesRoundTrip(header[57..65]);
    BytesRoundTrip(header[225..229]);
    hide ToBigEndian, FromBigEndian, Pow256;
    var p := ParseSettleBody(header).value;
    var parts := [[SETTLE_BODY_VERSION], p.tunnel,
                  ToBigEndian(p.partyABalance, 8), ToBigEndian(p.partyBBalance, 8),
                  ToBigEndian(p.finalNonce, 8), ToBigEndian(p.timestamp, 8),
                  p.transcriptRoot, p.sigA, p.sigB, ToBigEndian(p.updateCount, 4)];
    Slices(parts, EncodeHeader(p));
    Reassemble(header, EncodeHeader(p));
  }

  lemma Reassemble(a: Bytes, b: Bytes)
    requires |a| == |b| == 229 && a[0] == b[0]
    requires a[1..33] == b[1..33] && a[33..41] == b[33..41] && a[41..49] == b[41..49]
    requires a[49..57] == b[49..57] && a[57..65] == b[57..65] && a[65..97] == b[65..97]
    requires a[97..161] == b[97..161] && a[161..225] == b[161..225] && a[225..229] == b[225..229]
    ensures a == b
  {
    assert a == a[..1] + a[1..33] + a[33..41] + a[41..49] + a[49..57] + a[57..65] + a[65..97] + a[97..161] + a[161..225]
        + a[225..229];
    assert b == b[..1] + b[1..33] + b[33..41] + b[41..49] + b[49..57] + b[57..65] + b[65..97] + b[97..161] + b[161..225]
        + b[225..229];
    assert a[..1] == b[..1];
  }

  // ---------------------------------------------------------------------------------------------
  // Tunnel ids

  function TrimHexPrefix(s: string): string {
    if |s| >= 2 && s[0] == '0' && s[1] == 'x' then TrimHexPrefix(s[2..]) else s
  }

  function ToLower(s: string): string {
    seq(|s|, i requires 0 <= i < |s| => if 'A' <= s[i] <= 'Z' then s[i] - 'A' + 'a' else s[i])
  }

  /** An id for comparison: every leading 0x dropped, lowercase, padded with zeros to 64 digits. */
  function NormalizeTunnelId(id: string): string {
    var h := ToLower(TrimHexPrefix(id));
    if |h| < 64 then Zeros(64 - |h|) + h else h
  }

  ghost predicate HexChar(c: char) {
    '0' <= c <= '9' || 'a' <= c <= 'f'
  }

  lemma {:induction false} HexEncodeIsHex(b: Bytes, i: nat)
    requires i < 2 * |b|
    ensures HexChar(HexEncode(b)[i])
  {
    if i >= 2 {
      HexEncodeIsHex(b[1..], i - 2);
    }
  }

  /** What a hex digit stands for. */
  function HexValue(c: char): int {
    if '0' <= c <= '9' then (c - '0') as int else if 'a' <= c <= 'f' then (c - 'a') as int + 10 else -1
  }

  /** Two digits a byte, in order, the high one first. */
  lemma {:induction false} HexEncodeReads(b: Bytes, i: nat)
    requires i < |b|
    ensures var hex := HexEncode(b); 0 <= HexValue(hex[2 * i]) < 16 && 0 <= HexValue(hex[2 * i + 1]) < 16
    ensures b[i] == 16 * HexValue(HexEncode(b)[2 * i]) + HexValue(HexEncode(b)[2 * i + 1])
  {
    if i == 0 {
      HexDigitReads(b[0] / 16);
      HexDigitReads(b[0] % 16);
    } else {
      HexEncodeReads(b[1..], i - 1);
    }
  }

  lemma HexDigitReads(n: int)
    requires 0 <= n < 16
    ensures HexValue(HexDigit(n)) == n
  {
  }

  lemma {:induction false} HexEncodeInjective(a: Bytes, b: Bytes)
    requires HexEncode(a) == HexEncode(b)
    ensures a == b
  {
    if a != [] && b != [] {
      var x, y := HexEncode(a), HexEncode(b);
      assert x[0] == y[0] && x[1] == y[1];
      assert a[0] == b[0];
      assert x[2..] == HexEncode(a[1..]) && y[2..] == HexEncode(b[1..]);
      HexEncodeInjective(a[1..], b[1..]);
      assert a == [a[0]] + a[1..] && b == [b[0]] + b[1..];
    }
  }

  /** A parsed id is already canonical: normalizing only drops its prefix, and leaves the bare digits as they are. */
  lemma NormalizeCanonical(tunnel: Bytes)
    requires |tunnel| == 32
    ensures NormalizeTunnelId("0x" + HexEncode(tunnel)) == HexEncode(tunnel)
    ensures NormalizeTunnelId(HexEncode(tunnel)) == HexEncode(tunnel)
  {
    var hex := HexEncode(tunnel);
    forall i: nat | i < |hex| ensures HexChar(hex[i]) {
      HexEncodeIsHex(tunnel, i);
    }
    var id := "0x" + hex;
    assert id[2..] == hex;
    assert hex[1] != 'x';
    assert TrimHexPrefix(hex) == hex;
    assert ToLower(hex) == hex;
  }

  function Prefixes(n: nat): string {
    if n == 0 then "" else "0x" + Prefixes(n - 1)
  }

  lemma {:induction false} TrimsPrefixes(n: nat, h: string)
    requires |h| < 2 || h[..2] != "0x"
    ensures TrimHexPrefix(Prefixes(n) + h) == h
  {
    if n == 0 {
      assert Prefixes(0) + h == h;
      assert |h| >= 2 ==> h[..2] == [h[0], h[1]];
    } else {
      var s := Prefixes(n) + h;
      assert s[2..] == Prefixes(n - 1) + h;
      TrimsPrefixes(n - 1, h);
    }
  }

  /** The spellings that compare equal: any number of 0x in front, leading zeros left out, letters of either case. */
  lemma NormalizesSpellings(n: nat, h: string, i: nat)
    requires (|h| < 2 || h[..2] != "0x") && |h| <= 64 && i < 64
    ensures var r, pad := NormalizeTunnelId(Prefixes(n) + h), 64 - |h|;
      && |r| == 64
      && (i < pad ==> r[i] == '0')
      && (i >= pad ==> var c := h[i - pad]; r[i] == if 'A' <= c <= 'Z' then c - 'A' + 'a' else c)
  {
    TrimsPrefixes(n, h);
  }

  /** Two headers whose ids normalize alike name the same tunnel. */
  lemma NormalizedIdsNameOneTunnel(a: Bytes, b: Bytes)
    requires |a| == 32 && |b| == 32
    requires NormalizeTunnelId("0x" + HexEncode(a)) == NormalizeTunnelId("0x" + HexEncode(b))
    ensures a == b
  {
    NormalizeCanonical(a);
    NormalizeCanonical(b);
    HexEncodeInjective(a, b);
  }
}
