/** Throughput history: rates from a cumulative counter, rolled up to the peak of each display bucket. */
module TpsHistory {
  import opened Numbers

  /** The counter at a time, in seconds. */
  datatype Sample = Sample(t: int, total: int)

  datatype Point = Point(t: int, rate: real)

  /** Integer division that rounds toward zero. */
  function TruncDiv(a: int, b: int): int
    requires b > 0
  {
    if a >= 0 then a / b else -((-a) / b)
  }

  lemma DivGrows(a: nat, b: nat, d: nat)
    requires a <= b && d > 0
    ensures a / d <= b / d
  {
    var p, q := a / d, b / d;
    assert a == d * p + a % d && b == d * q + b % d;
    if p > q {
      TimesGrows(d, q + 1, p);
      assert false;
    }
  }

  lemma TruncDivGrows(a: int, b: int, d: int)
    requires a <= b && d > 0
    ensures TruncDiv(a, d) <= TruncDiv(b, d)
  {
    DivGrows(0, if a < 0 then -a else a, d);
    DivGrows(0, if b < 0 then -b else b, d);
    if a >= 0 {
      DivGrows(a, b, d);
    } else if b < 0 {
      DivGrows(-b, -a, d);
    }
  }

  // ---- The rollup ----

  /** Two neighbouring samples give a rate when time advanced, and by no more than the gap. */
  predicate Eligible(s: seq<Sample>, i: int, gap: int) {
    0 <= i < |s| - 1 && 0 < s[i + 1].t - s[i].t <= gap
  }

  /** The rate over the interval that ends at sample i + 1; a counter that went back gives none. */
  function RateAt(s: seq<Sample>, i: int): real
    requires 0 <= i < |s| - 1 && 0 < s[i + 1].t - s[i].t
  {
    var rise := s[i + 1].total - s[i].total;
    (if rise < 0 then 0 else rise) as real / (s[i + 1].t - s[i].t) as real
  }

  /** The rate times the time is the rise, and zero for a counter that went back. */
  lemma RateIsRise(s: seq<Sample>, i: int)
    requires 0 <= i < |s| - 1 && 0 < s[i + 1].t - s[i].t
    ensures var rise, dt := s[i + 1].total - s[i].total, s[i + 1].t - s[i].t;
      && (rise >= 0 ==> RateAt(s, i) * dt as real == rise as real)
      && (rise < 0 ==> RateAt(s, i) == 0.0)
  {
    var rise, dt := s[i + 1].total - s[i].total, (s[i + 1].t - s[i].t) as real;
    assert (rise as real / dt) * dt == rise as real;
    assert 0.0 / dt == 0.0;
  }

  function PointAt(s: seq<Sample>, i: int): Point
    requires 0 <= i < |s| - 1 && 0 < s[i + 1].t - s[i].t
  {
    Point(s[i + 1].t, RateAt(s, i))
  }

  function BucketOf(p: Point, stride: int): int
    requires stride > 0
  {
    TruncDiv(p.t, stride)
  }

  /** Interval `i`, among the first `n`, is the first of its bucket to reach the bucket's greatest rate. */
  ghost predicate PeaksAt(s: seq<Sample>, stride: int, gap: int, n: int, i: int)
    requires stride > 0
  {
    && Eligible(s, i, gap) && i < n
    && (forall j | Eligible(s, j, gap) && j < n && BucketOf(PointAt(s, j), stride) == BucketOf(PointAt(s, i), stride) ::
          RateAt(s, j) <= RateAt(s, i) && (j < i ==> RateAt(s, j) < RateAt(s, i)))
  }

  ghost predicate IsPeak(s: seq<Sample>, stride: int, gap: int, n: int, p: Point)
    requires stride > 0
  {
    exists i :: PeaksAt(s, stride, gap, n, i) && p == PointAt(s, i)
  }

  ghost predicate Ascending(points: seq<Point>, stride: int)
    requires stride > 0
  {
    forall j, k | 0 <= j < k < |points| :: BucketOf(points[j], stride) < BucketOf(points[k], stride)
  }

  ghost predicate IsValue(buckets: map<int, Point>, p: Point) {
    exists b :: b in buckets && buckets[b] == p
  }

  /** The rollup, said without buckets being filled: the peak of each bucket that has a rate, in bucket order. */
  ghost predicate IsRollup(s: seq<Sample>, stride: int, gap: int, points: seq<Point>)
    requires stride > 0
  {
    && Ascending(points, stride)
    && (forall k | 0 <= k < |points| :: IsPeak(s, stride, gap, |s|, points[k]))
    && (forall i | Eligible(s, i, gap) :: HasBucket(points, stride, BucketOf(PointAt(s, i), stride)))
  }

  ghost predicate HasBucket(points: seq<Point>, stride: int, b: int)
    requires stride > 0
  {
    exists k :: 0 <= k < |points| && BucketOf(points[k], stride) == b
  }

  /** The buckets after the first `n` samples. */
  ghost predicate Filled(s: seq<Sample>, stride: int, gap: int, n: int, buckets: map<int, Point>)
    requires stride > 0
  {
    && (forall b | b in buckets :: BucketOf(buckets[b], stride) == b && IsPeak(s, stride, gap, n, buckets[b]))
    && (forall i | Eligible(s, i, gap) && i < n :: BucketOf(PointAt(s, i), stride) in buckets)
  }

  /** The next interval yields no rate. */
  lemma FilledSkip(s: seq<Sample>, stride: int, gap: int, n: int, buckets: map<int, Point>)
    requires stride > 0 && Filled(s, stride, gap, n, buckets) && !Eligible(s, n, gap)
    ensures Filled(s, stride, gap, n + 1, buckets)
  {
    hide BucketOf, RateAt, PointAt;
    forall b | b in buckets
      ensures IsPeak(s, stride, gap, n + 1, buckets[b])
    {
      var i :| PeaksAt(s, stride, gap, n, i) && buckets[b] == PointAt(s, i);
      PeakUndisturbed(s, stride, gap, n, i);
    }
    assert forall i | Eligible(s, i, gap) && i < n + 1 :: i < n;
  }

  lemma PeakUndisturbed(s: seq<Sample>, stride: int, gap: int, n: int, i: int)
    requires stride > 0 && PeaksAt(s, stride, gap, n, i) && !Eligible(s, n, gap)
    ensures PeaksAt(s, stride, gap, n + 1, i)
  {
    hide BucketOf, RateAt, PointAt;
  }

  /** A peak of another bucket, or one not exceeded, stays. */
  lemma PeakStays(s: seq<Sample>, stride: int, gap: int, n: int, i: int)
    requires stride > 0 && PeaksAt(s, stride, gap, n, i) && Eligible(s, n, gap)
    requires BucketOf(PointAt(s, i), stride) == BucketOf(PointAt(s, n), stride) ==> RateAt(s, n) <= RateAt(s, i)
    ensures PeaksAt(s, stride, gap, n + 1, i)
  {
    hide BucketOf, RateAt, PointAt;
  }

  /** A rate greater than the bucket's peak is the new peak. */
  lemma PeakMoves(s: seq<Sample>, stride: int, gap: int, n: int, i: int)
    requires stride > 0 && PeaksAt(s, stride, gap, n, i) && Eligible(s, n, gap)
    requires BucketOf(PointAt(s, i), stride) == BucketOf(PointAt(s, n), stride) && RateAt(s, n) > RateAt(s, i)
    ensures PeaksAt(s, stride, gap, n + 1, n)
  {
    hide BucketOf, RateAt, PointAt;
  }

  function Entered(buckets: map<int, Point>, b: int, p: Point): map<int, Point> {
    var entry := if b in buckets then buckets[b] else p;
    buckets[b := if p.rate > entry.rate then p else entry]
  }

  lemma FilledEnter(s: seq<Sample>, stride: int, gap: int, n: int, buckets: map<int, Point>)
    requires stride > 0 && Filled(s, stride, gap, n, buckets) && Eligible(s, n, gap)
    ensures Filled(s, stride, gap, n + 1, Entered(buckets, BucketOf(PointAt(s, n), stride), PointAt(s, n)))
  {
    var p, b := PointAt(s, n), BucketOf(PointAt(s, n), stride);
    var after := Entered(buckets, b, p);
    assert forall i | Eligible(s, i, gap) :: PointAt(s, i).rate == RateAt(s, i);
    hide BucketOf, RateAt, PointAt;
    forall c | c in after
      ensures BucketOf(after[c], stride) == c && IsPeak(s, stride, gap, n + 1, after[c])
    {
      if c in buckets {
        var i :| PeaksAt(s, stride, gap, n, i) && buckets[c] == PointAt(s, i);
        if c == b && RateAt(s, n) > RateAt(s, i) {
          PeakMoves(s, stride, gap, n, i);
        } else {
          PeakStays(s, stride, gap, n, i);
        }
      } else {
        assert PeaksAt(s, stride, gap, n + 1, n);
      }
    }
  }

  lemma SomeMember(keys: set<int>)
    ensures keys == {} || exists k :: k in keys
  {
    if !exists k :: k in keys {
      assert keys == {};
    }
  }

  method Smallest(keys: set<int>) returns (least: int)
    requires keys != {}
    ensures least in keys && forall k | k in keys :: least <= k
  {
    SomeMember(keys);
    least :| least in keys;
    var rest := keys - {least};
    while rest != {}
      invariant rest <= keys && least in keys
      invariant forall k | k in keys && k !in rest :: least <= k
      decreases |rest|
    {
      SomeMember(rest);
      var k :| k in rest;
      rest := rest - {k};
      if k < least {
        least := k;
      }
    }
  }

  /** The points in bucket order. */
  method InOrder(buckets: map<int, Point>, stride: int) returns (points: seq<Point>)
    requires stride > 0 && forall b | b in buckets :: BucketOf(buckets[b], stride) == b
    ensures Ascending(points, stride)
    ensures forall p :: p in points <==> IsValue(buckets, p)
  {
    hide BucketOf, TakenFrom;
    NothingTaken(buckets);
    points := [];
    var rest := buckets.Keys;
    while rest != {}
      invariant rest <= buckets.Keys
      invariant Ascending(points, stride)
      invariant forall p :: p in points <==> TakenFrom(buckets, rest, p)
      invariant forall p, b | p in points && b in rest :: BucketOf(p, stride) < b
      decreases |rest|
    {
      var b := Smallest(rest);
      TakesOne(buckets, rest, b);
      points := points + [buckets[b]];
      rest := rest - {b};
    }
    AllTaken(buckets);
  }

  /** The point is in a bucket that is no longer among the rest. */
  ghost predicate TakenFrom(buckets: map<int, Point>, rest: set<int>, p: Point) {
    exists b :: b in buckets && b !in rest && buckets[b] == p
  }

  lemma NothingTaken(buckets: map<int, Point>)
    ensures forall p :: !TakenFrom(buckets, buckets.Keys, p)
  {
  }

  lemma TakesOne(buckets: map<int, Point>, rest: set<int>, b: int)
    requires b in buckets && b in rest
    ensures forall p :: TakenFrom(buckets, rest - {b}, p) <==> TakenFrom(buckets, rest, p) || p == buckets[b]
  {
    forall p
      ensures TakenFrom(buckets, rest - {b}, p) <==> TakenFrom(buckets, rest, p) || p == buckets[b]
    {
      if TakenFrom(buckets, rest, p) {
        var c :| c in buckets && c !in rest && buckets[c] == p;
        assert c !in rest - {b};
      }
    }
  }

  lemma AllTaken(buckets: map<int, Point>)
    ensures forall p :: TakenFrom(buckets, {}, p) <==> IsValue(buckets, p)
  {
  }

  method PeakTpsPoints(cumulative: seq<Sample>, displayStride: int, gapMax: int) returns (points: seq<Point>)
    ensures displayStride >= 1 ==> IsRollup(cumulative, displayStride, gapMax, points)
    ensures displayStride < 1 ==> IsRollup(cumulative, 1, gapMax, points)
  {
    hide BucketOf, IsPeak;
    var stride := if displayStride < 1 then 1 else displayStride;
    var buckets: map<int, Point> := map[];
    var n := 0;
    while n + 1 < |cumulative|
      invariant n <= |cumulative|
      invariant Filled(cumulative, stride, gapMax, n, buckets)
    {
      var dt := cumulative[n + 1].t - cumulative[n].t;
      if dt <= 0 || dt > gapMax {
        FilledSkip(cumulative, stride, gapMax, n, buckets);
      } else {
        FilledEnter(cumulative, stride, gapMax, n, buckets);
        var rise := cumulative[n + 1].total - cumulative[n].total;
        var rate := (if rise < 0 then 0 else rise) as real / dt as real;
        var p := Point(cumulative[n + 1].t, rate);
        var entry := if BucketOf(p, stride) in buckets then buckets[BucketOf(p, stride)] else p;
        if rate > entry.rate {
          entry := p;
        }
        buckets := buckets[BucketOf(p, stride) := entry];
      }
      n := n + 1;
    }
    points := InOrder(buckets, stride);
    RolledUp(cumulative, stride, gapMax, n, buckets, points);
  }

  lemma RolledUp(s: seq<Sample>, stride: int, gap: int, n: int, buckets: map<int, Point>, points: seq<Point>)
    requires stride > 0 && |s| - 1 <= n <= |s| && Filled(s, stride, gap, n, buckets)
    requires Ascending(points, stride)
    requires forall p :: p in points <==> IsValue(buckets, p)
    ensures IsRollup(s, stride, gap, points)
  {
    hide BucketOf, PointAt, RateAt;
    forall k | 0 <= k < |points|
      ensures IsPeak(s, stride, gap, |s|, points[k])
    {
      assert IsValue(buckets, points[k]);
      var b :| b in buckets && buckets[b] == points[k];
      var i :| PeaksAt(s, stride, gap, n, i) && buckets[b] == PointAt(s, i);
      assert PeaksAt(s, stride, gap, |s|, i);
    }
    forall i | Eligible(s, i, gap)
      ensures HasBucket(points, stride, BucketOf(PointAt(s, i), stride))
    {
      var b := BucketOf(PointAt(s, i), stride);
      assert IsValue(buckets, buckets[b]);
      var k :| 0 <= k < |points| && points[k] == buckets[b];
      assert BucketOf(points[k], stride) == b;
    }
  }

  /** Points come in strictly increasing time, whatever the order of the samples. */
  lemma TimesIncrease(s: seq<Sample>, stride: int, gap: int, points: seq<Point>, j: int, k: int)
    requires stride > 0 && IsRollup(s, stride, gap, points) && 0 <= j < k < |points|
    ensures points[j].t < points[k].t
  {
    if points[k].t <= points[j].t {
      TruncDivGrows(points[k].t, points[j].t, stride);
    }
  }

  /** Some interval has this rate, at this time. */
  ghost predicate Occurs(s: seq<Sample>, gap: int, p: Point) {
    exists i :: Eligible(s, i, gap) && p == PointAt(s, i)
  }

  ghost predicate Reaches(points: seq<Point>, rate: real) {
    exists k :: 0 <= k < |points| && rate <= points[k].rate
  }

  /** No rate rises above the points. */
  lemma NothingHidden(s: seq<Sample>, stride: int, gap: int, points: seq<Point>, i: int)
    requires stride > 0 && IsRollup(s, stride, gap, points) && Eligible(s, i, gap)
    ensures Reaches(points, RateAt(s, i))
  {
    hide BucketOf, RateAt;
    assert HasBucket(points, stride, BucketOf(PointAt(s, i), stride));
    var k :| 0 <= k < |points| && BucketOf(points[k], stride) == BucketOf(PointAt(s, i), stride);
    assert IsPeak(s, stride, gap, |s|, points[k]);
    var top :| PeaksAt(s, stride, gap, |s|, top) && points[k] == PointAt(s, top);
    assert RateAt(s, i) <= points[k].rate;
  }

  /** Every point is a rate that was there. */
  lemma NothingMadeUp(s: seq<Sample>, stride: int, gap: int, points: seq<Point>, k: int)
    requires stride > 0 && IsRollup(s, stride, gap, points) && 0 <= k < |points|
    ensures Occurs(s, gap, points[k])
  {
    hide BucketOf, RateAt, PointAt;
    assert IsPeak(s, stride, gap, |s|, points[k]);
    var i :| PeaksAt(s, stride, gap, |s|, i) && points[k] == PointAt(s, i);
    assert Eligible(s, i, gap);
  }

  /** There is one rollup. */
  lemma RollupUnique(s: seq<Sample>, stride: int, gap: int, points: seq<Point>, other: seq<Point>)
    requires stride > 0 && IsRollup(s, stride, gap, points) && IsRollup(s, stride, gap, other)
    ensures points == other
  {
    hide IsRollup;
    if |points| > |other| {
      SamePoint(s, stride, gap, points, other, |other|);
    } else if |other| > |points| {
      SamePoint(s, stride, gap, other, points, |points|);
    } else {
      forall j: nat | j < |points|
        ensures other[j] == points[j]
      {
        SamePoint(s, stride, gap, points, other, j);
      }
    }
  }

  lemma {:induction false} SamePoint(s: seq<Sample>, stride: int, gap: int, points: seq<Point>, other: seq<Point>,
                                     j: nat)
    requires stride > 0 && IsRollup(s, stride, gap, points) && IsRollup(s, stride, gap, other) && j < |points|
    ensures j < |other| && other[j] == points[j]
    decreases j
  {
    assert Ascending(points, stride) && Ascending(other, stride);
    hide IsRollup, BucketOf;
    var k := BucketIn(s, stride, gap, points, other, j);
    forall m: nat | m < j
      ensures m < |other| && other[m] == points[m]
    {
      SamePoint(s, stride, gap, points, other, m);
    }
    assert k >= j;
    if k > j {
      var back := BucketIn(s, stride, gap, other, points, j);
      assert false;
    }
  }

  /** The bucket of a point of one rollup is in the other, with the same point. */
  lemma BucketIn(s: seq<Sample>, stride: int, gap: int, points: seq<Point>, other: seq<Point>, j: nat) returns (k: nat)
    requires stride > 0 && IsRollup(s, stride, gap, points) && IsRollup(s, stride, gap, other) && j < |points|
    ensures k < |other| && other[k] == points[j]
  {
    hide RateAt, BucketOf;
    assert IsPeak(s, stride, gap, |s|, points[j]);
    var i :| PeaksAt(s, stride, gap, |s|, i) && points[j] == PointAt(s, i);
    k :| 0 <= k < |other| && BucketOf(other[k], stride) == BucketOf(points[j], stride);
    assert IsPeak(s, stride, gap, |s|, other[k]);
    var i' :| PeaksAt(s, stride, gap, |s|, i') && other[k] == PointAt(s, i');
    assert i == i';
  }
}
