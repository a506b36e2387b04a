/** Strings as the backends compare and render them: lexicographic order and decimal numbers. */
module Text {

  // ---------------------------------------------------------------------------------------------
  // Order

  /** Strict lexicographic order by character code. */
  predicate Less(a: string, b: string) {
    && b != []
    && (a == [] || a[0] < b[0] || (a[0] == b[0] && Less(a[1..], b[1..])))
  }

  lemma {:induction false} LessIrreflexive(a: string)
    ensures !Less(a, a)
  {
    if a != [] {
      LessIrreflexive(a[1..]);
    }
  }

  lemma {:induction false} LessTransitive(a: string, b: string, c: string)
    requires Less(a, b) && Less(b, c)
    ensures Less(a, c)
  {
    if a != [] && a[0] == b[0] && b[0] == c[0] {
      LessTransitive(a[1..], b[1..], c[1..]);
    }
  }

  lemma {:induction false} LessTotal(a: string, b: string)
    ensures a == b || Less(a, b) || Less(b, a)
  {
    if a != [] && b != [] && a[0] == b[0] {
      LessTotal(a[1..], b[1..]);
      assert a == [a[0]] + a[1..] && b == [b[0]] + b[1..];
    }
  }

  /** A common front does not matter. */
  lemma {:induction false} LessAfterPrefix(p: string, a: string, b: string)
    ensures Less(p + a, p + b) <==> Less(a, b)
  {
    if p == [] {
      assert p + a == a && p + b == b;
    } else {
      assert (p + a)[1..] == p[1..] + a && (p + b)[1..] == p[1..] + b;
      LessAfterPrefix(p[1..], a, b);
    }
  }

  /** Between strings of one length, the first difference decides, whatever follows. */
  lemma {:induction false} LessBeforeSuffix(a: string, b: string, x: string, y: string)
    requires |a| == |b|
    ensures Less(a + x, b + y) <==> Less(a, b) || (a == b && Less(x, y))
  {
    if a == [] {
      assert a + x == x && b + y == y;
    } else {
      assert (a + x)[1..] == a[1..] + x && (b + y)[1..] == b[1..] + y;
      LessBeforeSuffix(a[1..], b[1..], x, y);
      assert a == b <==> a[0] == b[0] && a[1..] == b[1..] by {
        assert a == [a[0]] + a[1..] && b == [b[0]] + b[1..];
      }
    }
  }

  predicate StartsWith(s: string, p: string) {
    |p| <= |s| && s[..|p|] == p
  }

  lemma CancelPrefix(p: string, a: string, b: string)
    requires p + a == p + b
    ensures a == b
  {
    assert (p + a)[|p|..] == a && (p + b)[|p|..] == b;
  }

  /** Two strings cut at their first occurrence of a mark agree on both sides of it. */
  lemma CutAtMark(a: string, b: string, mark: char, x: string, y: string)
    requires mark !in a && mark !in b && a + [mark] + x == b + [mark] + y
    ensures a == b && x == y
  {
    var l, r := a + [mark] + x, b + [mark] + y;
    assert l[|a|] == mark && r[|b|] == mark;
    assert forall i | 0 <= i < |a| :: l[i] == a[i];
    assert forall i | 0 <= i < |b| :: r[i] == b[i];
    assert |a| == |b|;
    assert a == l[..|a|] && b == r[..|b|];
    assert x == l[|a| + 1..] && y == r[|b| + 1..];
  }

  // ---------------------------------------------------------------------------------------------
  // Decimal numbers

  function Pow10(n: nat): (p: nat)
    ensures p >= 1
  {
    if n == 0 then 1 else 10 * Pow10(n - 1)
  }

  function Digit(n: int): char
    requires 0 <= n < 10
  {
    '0' + n as char
  }

  predicate IsDigit(c: char) {
    '0' <= c <= '9'
  }

  function Decimal(n: nat): (s: string)
    ensures s != [] && forall i | 0 <= i < |s| :: IsDigit(s[i])
  {
    if n < 10 then [Digit(n)] else Decimal(n / 10) + [Digit(n % 10)]
  }

  /** The number a string of digits stands for. */
  function Value(s: string): nat
    requires forall i | 0 <= i < |s| :: IsDigit(s[i])
  {
    if s == [] then 0
    else
      assert IsDigit(s[|s| - 1]);
      10 * Value(s[..|s| - 1]) + (s[|s| - 1] as int - '0' as int)
  }

  lemma {:induction false} ValueOfDecimal(n: nat)
    ensures Value(Decimal(n)) == n
  {
    if n >= 10 {
      var s := Decimal(n);
      assert s[..|s| - 1] == Decimal(n / 10);
      ValueOfDecimal(n / 10);
    } else {
      assert Decimal(n)[..0] == [];
    }
  }

  /** Exactly `width` digits, the lowest ones of n. */
  function FixedDigits(n: nat, width: nat): (s: string)
    ensures |s| == width && forall i | 0 <= i < |s| :: IsDigit(s[i])
  {
    if width == 0 then [] else FixedDigits(n / 10, width - 1) + [Digit(n % 10)]
  }

  function Zeros(n: nat): (s: string)
    ensures |s| == n && forall i | 0 <= i < |s| :: s[i] == '0'
  {
    seq(n, i => '0')
  }

  /** Decimal, padded with zeros on the left to at least `width` digits; longer numbers are not cut. */
  function Padded(n: nat, width: nat): (s: string)
    ensures |s| >= width && forall i | 0 <= i < |s| :: IsDigit(s[i])
  {
    var d := Decimal(n);
    if |d| < width then Zeros(width - |d|) + d else d
  }

  lemma {:induction false} FixedZero(width: nat)
    ensures FixedDigits(0, width) == Zeros(width)
  {
    if width > 0 {
      FixedZero(width - 1);
    }
  }

  /** Numbers that fit the width are rendered with exactly that many digits. */
  lemma {:induction false} PaddedFits(n: nat, width: nat)
    requires n < Pow10(width) && width > 0
    ensures Padded(n, width) == FixedDigits(n, width)
  {
    if n < 10 {
      FixedZero(width - 1);
      assert FixedDigits(n, width) == Zeros(width - 1) + [Digit(n)];
      if width == 1 {
        assert Zeros(0) + [Digit(n)] == [Digit(n)];
      }
    } else {
      assert n / 10 < Pow10(width - 1);
      PaddedFits(n / 10, width - 1);
      var d, e := Decimal(n), Decimal(n / 10);
      assert d == e + [Digit(n % 10)];
      if |e| < width - 1 {
        assert Zeros(width - |d|) + d == (Zeros(width - 1 - |e|) + e) + [Digit(n % 10)];
      }
    }
  }

  /** Between numbers of one width, digit order is numeric order. */
  lemma {:induction false} FixedOrder(a: nat, b: nat, width: nat)
    requires a < Pow10(width) && b < Pow10(width)
    ensures Less(FixedDigits(a, width), FixedDigits(b, width)) <==> a < b
    ensures FixedDigits(a, width) == FixedDigits(b, width) <==> a == b
  {
    if width > 0 {
      FixedOrder(a / 10, b / 10, width - 1);
      var x, y := FixedDigits(a / 10, width - 1), FixedDigits(b / 10, width - 1);
      var p, q := [Digit(a % 10)], [Digit(b % 10)];
      LessBeforeSuffix(x, y, p, q);
      assert Less(p, q) <==> a % 10 < b % 10;
      assert x + p == y + q <==> x == y && p == q by {
        assert (x + p)[..width - 1] == x && (y + q)[..width - 1] == y;
        assert (x + p)[width - 1] == p[0] && (y + q)[width - 1] == q[0];
      }
    }
  }

  lemma {:induction false} ValueOfZeros(n: nat, s: string)
    requires forall i | 0 <= i < |s| :: IsDigit(s[i])
    ensures Value(Zeros(n) + s) == Value(s)
  {
    if s == [] {
      if n > 0 {
        assert (Zeros(n) + s)[..n - 1] == Zeros(n - 1) + s;
        ValueOfZeros(n - 1, s);
      } else {
        assert Zeros(n) + s == s;
      }
    } else {
      assert (Zeros(n) + s)[..n + |s| - 1] == Zeros(n) + s[..|s| - 1];
      ValueOfZeros(n, s[..|s| - 1]);
    }
  }

  lemma PaddedInjective(a: nat, b: nat, width: nat)
    requires Padded(a, width) == Padded(b, width)
    ensures a == b
  {
    ValueOfDecimal(a);
    ValueOfDecimal(b);
    if |Decimal(a)| < width {
      ValueOfZeros(width - |Decimal(a)|, Decimal(a));
    }
    if |Decimal(b)| < width {
      ValueOfZeros(width - |Decimal(b)|, Decimal(b));
    }
  }
}
