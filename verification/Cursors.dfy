/** The order of the settlement list and the cursor that marks a place in it. */
module Cursors {
  import opened Wrappers
  import opened Text

  const I64_MAX: int := 0x7FFF_FFFF_FFFF_FFFF
  const I64_MIN: int := -I64_MAX - 1

  /** A row's place: rows of one transaction share time and digest. */
  datatype Key = Key(ts: int, digest: string, tunnel: string)

  predicate KeyLess(a: Key, b: Key) {
    || a.ts < b.ts
    || (a.ts == b.ts && Less(a.digest, b.digest))
    || (a.ts == b.ts && a.digest == b.digest && Less(a.tunnel, b.tunnel))
  }

  lemma KeyIrreflexive(a: Key)
    ensures !KeyLess(a, a)
  {
    LessIrreflexive(a.digest);
    LessIrreflexive(a.tunnel);
  }

  lemma KeyTransitive(a: Key, b: Key, c: Key)
    requires KeyLess(a, b) && KeyLess(b, c)
    ensures KeyLess(a, c)
  {
    hide Less;
    if Less(a.digest, b.digest) && Less(b.digest, c.digest) {
      LessTransitive(a.digest, b.digest, c.digest);
    }
    if Less(a.tunnel, b.tunnel) && Less(b.tunnel, c.tunnel) {
      LessTransitive(a.tunnel, b.tunnel, c.tunnel);
    }
  }

  lemma KeyTotal(a: Key, b: Key)
    ensures a == b || KeyLess(a, b) || KeyLess(b, a)
  {
    LessTotal(a.digest, b.digest);
    LessTotal(a.tunnel, b.tunnel);
  }

  // ---- Numbers ----

  function Signed(n: int): string {
    if n < 0 then "-" + Decimal(-n) else Decimal(n)
  }

  predicate AllDigits(s: string) {
    s != [] && forall i | 0 <= i < |s| :: IsDigit(s[i])
  }

  /** A 64-bit number: an optional sign, at least one digit, within range. */
  function ParseI64(s: string): Option<int> {
    var digits := if s != [] && (s[0] == '-' || s[0] == '+') then s[1..] else s;
    if !AllDigits(digits) then None
    else
      var value: int := Value(digits);
      var n := if s[0] == '-' then -value else value;
      if I64_MIN <= n <= I64_MAX then Some(n) else None
  }

  lemma ParseInvertsSigned(n: int)
    requires I64_MIN <= n <= I64_MAX
    ensures ParseI64(Signed(n)) == Some(n) && ':' !in Signed(n)
  {
    hide Value, Decimal;
    var d := Decimal(if n < 0 then -n else n);
    ValueOfDecimal(if n < 0 then -n else n);
    assert IsDigit(d[0]);
    if n < 0 {
      assert Signed(n)[1..] == d;
    }
  }

  /** `s` is an optional sign and digits, and stands for `n`. */
  ghost predicate Reads(s: string, digits: string, n: int) {
    && AllDigits(digits)
    && ((s == digits && n == Value(digits)) || (s == "+" + digits && n == Value(digits))
        || (s == "-" + digits && -n == Value(digits)))
  }

  /** Exactly the numbers within 64 bits, with or without a sign, parse. */
  lemma ParsesExactly(s: string, n: int)
    ensures ParseI64(s) == Some(n) <==> I64_MIN <= n <= I64_MAX && exists digits :: Reads(s, digits, n)
  {
    hide Value;
    if digits :| Reads(s, digits, n) {
      assert IsDigit(digits[0]);
      if s != digits {
        assert s[1..] == digits;
      }
    }
    if ParseI64(s) == Some(n) {
      var digits := if s[0] == '-' || s[0] == '+' then s[1..] else s;
      assert s == digits || s == [s[0]] + digits;
      assert Reads(s, digits, n);
    }
  }

  // ---- Cursors ----

  /** The text before the first colon, and what follows it if there is one. */
  function SplitColon(s: string): (string, Option<string>) {
    if s == [] then ([], None)
    else if s[0] == ':' then ([], Some(s[1..]))
    else
      var (head, rest) := SplitColon(s[1..]);
      ([s[0]] + head, rest)
  }

  lemma {:induction false} SplitAtColon(a: string, b: string)
    requires ':' !in a
    ensures SplitColon(a + ":" + b) == (a, Some(b)) && SplitColon(a) == (a, None)
  {
    if a == [] {
      var s := a + ":" + b;
      assert s[0] == ':' && s[1..] == b;
      assert a == "" && SplitColon(s) == ("", Some(b));
    } else {
      var s := a + ":" + b;
      assert s[0] == a[0] && s[1..] == a[1..] + ":" + b;
      SplitAtColon(a[1..], b);
      assert a == [a[0]] + a[1..];
    }
  }

  function EncodeCursor(k: Key): string {
    Signed(k.ts) + ":" + k.digest + ":" + k.tunnel
  }

  /** What clients hold from before the tunnel was part of the cursor. */
  function LegacyCursor(ts: int, digest: string): string {
    Signed(ts) + ":" + digest
  }

  /** At most three parts, the second required, the third empty when missing. */
  function DecodeCursor(token: string): Option<Key> {
    var (first, rest) := SplitColon(token);
    var ts := ParseI64(first);
    if ts.None? || rest.None? then None
    else
      var (digest, tunnel) := SplitColon(rest.value);
      Some(Key(ts.value, digest, if tunnel.Some? then tunnel.value else ""))
  }

  /** A token decodes exactly when it has a number before its first colon; the digest runs to the next colon. */
  lemma DecodesExactly(token: string)
    ensures DecodeCursor(token).Some? <==>
            exists head, rest :: ':' !in head && token == head + ":" + rest && ParseI64(head).Some?
  {
    hide ParseI64;
    SplitParts(token);
    if head, rest :| ':' !in head && token == head + ":" + rest && ParseI64(head).Some? {
      SplitAtColon(head, rest);
    }
    if DecodeCursor(token).Some? {
      var (head, rest) := SplitColon(token);
      assert token == head + ":" + rest.value;
    }
  }

  lemma {:induction false} SplitParts(s: string)
    ensures var (head, rest) := SplitColon(s);
      ':' !in head && s == if rest.Some? then head + ":" + rest.value else head
  {
    if s != [] {
      assert s == [s[0]] + s[1..];
      if s[0] == ':' {
        assert [] + ":" + s[1..] == s;
      } else {
        SplitParts(s[1..]);
        var (head, rest) := SplitColon(s[1..]);
        if rest.Some? {
          assert ([s[0]] + head) + ":" + rest.value == [s[0]] + (head + ":" + rest.value);
        }
      }
    }
  }

  lemma {:induction false} SplitHeadHasNoColon(s: string)
    ensures ':' !in SplitColon(s).0
  {
    if s != [] && s[0] != ':' {
      SplitHeadHasNoColon(s[1..]);
    }
  }

  /** Decoding a cursor gives back the key it was made from exactly when the digest has no colon. */
  lemma DecodeInvertsEncode(k: Key)
    requires I64_MIN <= k.ts <= I64_MAX
    ensures DecodeCursor(EncodeCursor(k)).Some?
    ensures DecodeCursor(EncodeCursor(k)) == Some(k) <==> ':' !in k.digest
  {
    hide ParseI64, Signed, SplitColon;
    ParseInvertsSigned(k.ts);
    var rest := k.digest + ":" + k.tunnel;
    assert EncodeCursor(k) == Signed(k.ts) + ":" + rest;
    SplitAtColon(Signed(k.ts), rest);
    SplitHeadHasNoColon(rest);
    if ':' !in k.digest {
      SplitAtColon(k.digest, k.tunnel);
    }
  }

  /** A legacy cursor admits only rows of an earlier time, or of the same time and a smaller digest: never one of the
      transaction it names, nor anything above it. */
  lemma LegacyNeverReemits(ts: int, digest: string, row: Key)
    requires I64_MIN <= ts <= I64_MAX && ':' !in digest
    ensures DecodeCursor(LegacyCursor(ts, digest)) == Some(Key(ts, digest, ""))
    ensures KeyLess(row, Key(ts, digest, "")) <==> row.ts < ts || (row.ts == ts && Less(row.digest, digest))
  {
    ParseInvertsSigned(ts);
    SplitAtColon(Signed(ts), digest);
    SplitAtColon(digest, "");
    assert LegacyCursor(ts, digest) == Signed(ts) + ":" + digest;
  }
}
