/** The history query: its bounds, the samples it fetches, and how many points it can return. */
module TpsQuery {
  import opened Numbers
  import opened Wrappers
  import opened TpsHistory

  const HISTORY_RETENTION_SECS: int := 30 * 24 * 3600
  const HISTORY_TARGET_POINTS: int := 1000
  const MAX_FETCH_SAMPLES: int := 100_000
  const GAP_MIN_SECS: int := 10

  datatype HistoryParams = HistoryParams(window: Option<int>, from: Option<int>, to: Option<int>)

  datatype Bounds = Bounds(from: int, to: int, stride: int)

  function HistoryQueryBounds(p: HistoryParams, now: int): Bounds {
    var earliest := now - HISTORY_RETENTION_SECS;
    var absolute := p.from.Some? && p.to.Some?;
    var window := Clamp(if p.window.Some? then p.window.value else 3600, 1, HISTORY_RETENTION_SECS);
    var rawFrom := if absolute then p.from.value else now - window;
    var rawTo := if absolute then p.to.value else now;
    var to := Clamp(rawTo, earliest, now);
    var from := Clamp(rawFrom, earliest, to);
    var span := Max(to - from, 1);
    Bounds(from, to, Max((span + HISTORY_TARGET_POINTS - 1) / HISTORY_TARGET_POINTS, 1))
  }

  function FetchStride(span: int): int {
    Max((span + MAX_FETCH_SAMPLES - 1) / MAX_FETCH_SAMPLES, 1)
  }

  /** Three missed fetches, and never less than ten seconds. */
  function GapMax(fetchStride: int): (gap: int)
    ensures fetchStride <= 3 ==> gap == 10
    ensures fetchStride >= 4 ==> gap == fetchStride + fetchStride + fetchStride
  {
    Max(fetchStride * 3, GAP_MIN_SECS)
  }

  /** A range that is asked for and retained is used as it is; any range is cut to what is retained. The display stride
      is the least that divides the range into at most the target number of steps, and the fetch is never coarser. */
  lemma BoundsAreTight(p: HistoryParams, now: int)
    ensures var b := HistoryQueryBounds(p, now);
            && now - HISTORY_RETENTION_SECS <= b.from <= b.to <= now
            && (p.from.Some? && p.to.Some? && now - HISTORY_RETENTION_SECS <= p.from.value <= p.to.value <= now ==>
                  b.from == p.from.value && b.to == p.to.value)
            && 1 <= b.stride
            && b.to - b.from <= HISTORY_TARGET_POINTS * b.stride
            && (b.stride > 1 ==> b.to - b.from > HISTORY_TARGET_POINTS * (b.stride - 1))
            && 1 <= FetchStride(Max(b.to - b.from, 1)) <= b.stride
            && (FetchStride(Max(b.to - b.from, 1)) == 1 <==> b.to - b.from <= MAX_FETCH_SAMPLES)
  {
  }

  /** A query without both ends covers the trailing window: the one asked for, at least a second and at most what is
      retained, or an hour. One with both ends is cut to what is retained at each end. */
  lemma BoundsCover(p: HistoryParams, now: int)
    ensures var b, earliest := HistoryQueryBounds(p, now), now - HISTORY_RETENTION_SECS;
            if p.from.None? || p.to.None? then
              && b.to == now
              && match p.window
                 case None => b.from == now - 3600
                 case Some(w) =>
                   && (1 <= w <= HISTORY_RETENTION_SECS ==> b.from == now - w)
                   && (w < 1 ==> b.from == now - 1)
                   && (w > HISTORY_RETENTION_SECS ==> b.from == earliest)
            else
              && (earliest <= p.to.value <= now ==> b.to == p.to.value)
              && (p.to.value > now ==> b.to == now)
              && (p.to.value < earliest ==> b.to == earliest)
              && (p.from.value < earliest ==> b.from == earliest)
              && (p.from.value > b.to ==> b.from == b.to)
              && (earliest <= p.from.value <= b.to ==> b.from == p.from.value)
  {
  }

  // ---- How many points ----

  /** The buckets that end points of intervals within [from, to] can fall in. */
  function BucketSpan(from: int, to: int, stride: int): int
    requires stride > 0
  {
    if from < to then TruncDiv(to, stride) - TruncDiv(from + 1, stride) + 1 else 0
  }

  ghost predicate Within(s: seq<Sample>, from: int, to: int) {
    forall i | 0 <= i < |s| :: from <= s[i].t <= to
  }

  lemma {:induction false} AscendingSpread(points: seq<Point>, stride: int, k: nat)
    requires stride > 0 && Ascending(points, stride) && k < |points|
    ensures BucketOf(points[k], stride) >= BucketOf(points[0], stride) + k
  {
    hide BucketOf;
    if k > 0 {
      AscendingSpread(points, stride, k - 1);
    }
  }

  lemma PointsBound(s: seq<Sample>, from: int, to: int, stride: int, gap: int, points: seq<Point>)
    requires stride > 0 && Within(s, from, to) && IsRollup(s, stride, gap, points)
    ensures |points| <= Max(BucketSpan(from, to, stride), 0)
  {
    hide TruncDiv;
    if |points| > 0 {
      var first, last := points[0], points[|points| - 1];
      NothingMadeUp(s, stride, gap, points, 0);
      NothingMadeUp(s, stride, gap, points, |points| - 1);
      TruncDivGrows(from + 1, first.t, stride);
      TruncDivGrows(last.t, to, stride);
      AscendingSpread(points, stride, |points| - 1);
    }
  }

  lemma StepsByOne(x: int, stride: int)
    requires stride > 0
    ensures TruncDiv(x + 1, stride) <= TruncDiv(x, stride) + 1
    ensures TruncDiv(x + stride, stride) <= TruncDiv(x, stride) + 1
  {
    if x >= 0 {
      DivStep(x, stride);
    } else if x + stride <= 0 {
      DivStep(-x - stride, stride);
      if stride > 1 || x + 1 <= 0 {
        DivGrows(-x - 1, -x, stride);
        DivGrows(-x - stride, -x - 1, stride);
      }
    } else {
      Small(-x, stride);
      Small(x + stride, stride);
      Small(if x + 1 <= 0 then -x - 1 else 0, stride);
    }
  }

  lemma DivStep(x: nat, d: nat)
    requires d > 0
    ensures (x + d) / d == x / d + 1 && (x + 1) / d <= x / d + 1
  {
    var q := x / d;
    assert x + d == d * (q + 1) + x % d;
    Quotient(x + d, d, q + 1, x % d);
    DivGrows(x + 1, x + d, d);
  }

  lemma Small(x: nat, d: nat)
    requires x < d
    ensures x / d == 0
  {
  }

  /** Every bucket between two times has a time between them. */
  lemma {:induction false} Hit(low: int, high: int, b: int, stride: int) returns (t: int)
    requires stride > 0 && low <= high && TruncDiv(low, stride) <= b <= TruncDiv(high, stride)
    ensures low <= t <= high && TruncDiv(t, stride) == b
    decreases high - low
  {
    hide TruncDiv;
    if TruncDiv(low, stride) == b {
      t := low;
    } else {
      StepsByOne(low, stride);
      t := Hit(low + 1, high, b, stride);
    }
  }

  /** One sample a second, nothing happening. */
  function Dense(from: int, to: int): seq<Sample>
    requires from <= to
  {
    seq(to - from + 1, i => Sample(from + i, 0))
  }

  lemma {:induction false} CoverCount(points: seq<Point>, stride: int, low: int, b: int) returns (k: nat)
    requires stride > 0 && Ascending(points, stride) && low <= b
    requires forall c | low <= c <= b :: HasBucket(points, stride, c)
    ensures k < |points| && BucketOf(points[k], stride) == b && k >= b - low
    decreases b - low
  {
    hide BucketOf;
    assert HasBucket(points, stride, b);
    k :| k < |points| && BucketOf(points[k], stride) == b;
    if b > low {
      var j := CoverCount(points, stride, low, b - 1);
      assert j < k;
    }
  }

  lemma DenseReaches(from: int, to: int, stride: int, gap: int, points: seq<Point>)
    requires from < to && stride > 0 && gap >= 1 && IsRollup(Dense(from, to), stride, gap, points)
    ensures |points| >= BucketSpan(from, to, stride)
  {
    hide TruncDiv;
    var s := Dense(from, to);
    var low, high := TruncDiv(from + 1, stride), TruncDiv(to, stride);
    TruncDivGrows(from + 1, to, stride);
    forall b | low <= b <= high
      ensures HasBucket(points, stride, b)
    {
      var t := Hit(from + 1, to, b, stride);
      var i := t - from - 1;
      assert Eligible(s, i, gap) && PointAt(s, i).t == t;
    }
    var k := CoverCount(points, stride, low, high);
  }

  /** Queries return at most the target number of points, for every series in the range, exactly when at most that many
      buckets meet the range. */
  lemma AtMostTargetExactly(from: int, to: int, stride: int, gap: int)
    requires from < to && stride > 0 && gap >= 1
    ensures (forall s, points | Within(s, from, to) && IsRollup(s, stride, gap, points) ::
               |points| <= HISTORY_TARGET_POINTS)
            <==> BucketSpan(from, to, stride) <= HISTORY_TARGET_POINTS
  {
    hide IsRollup, TruncDiv, BucketSpan;
    if BucketSpan(from, to, stride) <= HISTORY_TARGET_POINTS {
      forall s, points | Within(s, from, to) && IsRollup(s, stride, gap, points)
        ensures |points| <= HISTORY_TARGET_POINTS
      {
        PointsBound(s, from, to, stride, gap, points);
      }
    } else {
      var points := RollupExists(Dense(from, to), stride, gap);
      DenseReaches(from, to, stride, gap, points);
      assert Within(Dense(from, to), from, to);
    }
  }

  lemma {:induction false} SpreadAtMost(x: int, y: int, stride: int, k: nat)
    requires stride > 0 && x <= y <= x + k * stride
    ensures TruncDiv(y, stride) <= TruncDiv(x, stride) + k
    decreases k
  {
    hide TruncDiv;
    if k > 0 {
      assert k * stride == (k - 1) * stride + stride;
      StepsByOne(x, stride);
      if x + stride <= y {
        SpreadAtMost(x + stride, y, stride, k - 1);
      } else {
        TruncDivGrows(y, x + stride, stride);
      }
    } else {
      assert x == y;
    }
  }

  /** Every query returns at most one point more than the target. */
  lemma AtMostOneMore(p: HistoryParams, now: int, s: seq<Sample>, gap: int, points: seq<Point>)
    requires var b := HistoryQueryBounds(p, now);
             Within(s, b.from, b.to) && IsRollup(s, b.stride, gap, points)
    ensures |points| <= HISTORY_TARGET_POINTS + 1
  {
    var b := HistoryQueryBounds(p, now);
    BoundsAreTight(p, now);
    hide IsRollup, TruncDiv, HistoryQueryBounds;
    PointsBound(s, b.from, b.to, b.stride, gap, points);
    if b.from < b.to {
      SpreadAtMost(b.from + 1, b.to, b.stride, HISTORY_TARGET_POINTS);
    }
  }

  // ---- A rollup exists ----

  lemma GreatestKey(keys: set<int>) returns (m: int)
    requires keys != {}
    ensures m in keys && forall k | k in keys :: k <= m
    decreases |keys|
  {
    SomeMember(keys);
    m :| m in keys;
    var rest := keys - {m};
    assert forall k | k in keys :: k == m || k in rest;
    if rest != {} {
      var n := GreatestKey(rest);
      m := if n > m then n else m;
    }
  }

  lemma WithOneMore(buckets: map<int, Point>, m: int, p: Point)
    requires m in buckets
    ensures IsValue(buckets, p) <==> IsValue(buckets - {m}, p) || p == buckets[m]
  {
    var rest := buckets - {m};
    if IsValue(buckets, p) {
      var b :| b in buckets && buckets[b] == p;
      assert b == m || (b in rest && rest[b] == p);
    }
    if IsValue(rest, p) {
      var b :| b in rest && rest[b] == p;
      assert b in buckets && buckets[b] == p;
    }
    assert p == buckets[m] ==> IsValue(buckets, p);
  }

  lemma {:induction false} OrderExists(buckets: map<int, Point>, stride: int) returns (points: seq<Point>)
    requires stride > 0 && forall b | b in buckets :: BucketOf(buckets[b], stride) == b
    ensures Ascending(points, stride) && forall p :: p in points <==> IsValue(buckets, p)
    decreases |buckets|
  {
    hide BucketOf;
    if buckets == map[] {
      points := [];
    } else {
      var m := GreatestKey(buckets.Keys);
      var rest := buckets - {m};
      assert rest.Keys == buckets.Keys - {m};
      var front := OrderExists(rest, stride);
      points := front + [buckets[m]];
      forall p
        ensures p in points <==> IsValue(buckets, p)
      {
        WithOneMore(buckets, m, p);
      }
      forall j | 0 <= j < |front|
        ensures BucketOf(front[j], stride) < m
      {
        assert IsValue(rest, front[j]);
      }
    }
  }

  lemma {:induction false} FilledExists(s: seq<Sample>, stride: int, gap: int, n: nat)
    returns (buckets: map<int, Point>)
    requires stride > 0
    ensures Filled(s, stride, gap, n, buckets)
  {
    hide BucketOf;
    if n == 0 {
      buckets := map[];
    } else {
      buckets := FilledExists(s, stride, gap, n - 1);
      if Eligible(s, n - 1, gap) {
        FilledEnter(s, stride, gap, n - 1, buckets);
        buckets := Entered(buckets, BucketOf(PointAt(s, n - 1), stride), PointAt(s, n - 1));
      } else {
        FilledSkip(s, stride, gap, n - 1, buckets);
      }
    }
  }

  lemma RollupExists(s: seq<Sample>, stride: int, gap: int) returns (points: seq<Point>)
    requires stride > 0
    ensures IsRollup(s, stride, gap, points)
  {
    hide BucketOf, IsPeak, IsRollup;
    var buckets := FilledExists(s, stride, gap, |s|);
    points := OrderExists(buckets, stride);
    RolledUp(s, stride, gap, |s|, buckets, points);
  }
}
