/** From the stored counter to the chart: the fetch, the server rollup and the client's decimation together. */
module TpsChart {
  import opened Numbers
  import opened Wrappers
  import opened TpsHistory
  import opened TpsQuery

  // ---- The fetch ----

  /** One stored sample a second. */
  ghost predicate OneASecond(table: set<Sample>) {
    forall r, s | r in table && s in table && r.t == s.t :: r == s
  }

  predicate InRange(r: Sample, from: int, to: int) {
    from <= r.t <= to
  }

  /** `o` is its group's last time and greatest total. */
  ghost predicate GroupEnd(table: set<Sample>, from: int, to: int, stride: int, o: Sample)
    requires stride > 0
  {
    && (exists r :: r in table && InRange(r, from, to) && r.t == o.t)
    && (exists r ::
          r in table && InRange(r, from, to) && TruncDiv(r.t, stride) == TruncDiv(o.t, stride) && r.total == o.total)
    && (forall r | r in table && InRange(r, from, to) && TruncDiv(r.t, stride) == TruncDiv(o.t, stride) ::
          r.t <= o.t && r.total <= o.total)
  }

  ghost predicate HasGroup(out: seq<Sample>, stride: int, g: int)
    requires stride > 0
  {
    exists k :: 0 <= k < |out| && TruncDiv(out[k].t, stride) == g
  }

  /** What the grouped query answers: the end of each group in the range, in time order. */
  ghost predicate IsHistory(table: set<Sample>, from: int, to: int, stride: int, out: seq<Sample>)
    requires stride > 0
  {
    && (forall j, k | 0 <= j < k < |out| :: out[j].t < out[k].t)
    && (forall k | 0 <= k < |out| :: GroupEnd(table, from, to, stride, out[k]))
    && (forall r | r in table && InRange(r, from, to) :: HasGroup(out, stride, TruncDiv(r.t, stride)))
  }

  /** At one second a group the answer is the stored samples of the range themselves. */
  lemma FullResolution(table: set<Sample>, from: int, to: int, out: seq<Sample>, r: Sample)
    requires OneASecond(table) && IsHistory(table, from, to, 1, out)
    ensures r in out <==> r in table && InRange(r, from, to)
  {
    ByOne();
    hide TruncDiv;
    if r in out {
      var k :| 0 <= k < |out| && out[k] == r;
      assert GroupEnd(table, from, to, 1, out[k]);
    }
    if r in table && InRange(r, from, to) {
      assert HasGroup(out, 1, TruncDiv(r.t, 1));
      var k :| 0 <= k < |out| && TruncDiv(out[k].t, 1) == TruncDiv(r.t, 1);
      assert GroupEnd(table, from, to, 1, out[k]);
    }
  }

  lemma ByOne()
    ensures forall t :: TruncDiv(t, 1) == t
  {
  }

  /** For a counter that never goes back, each answer is a stored sample: the last of its group. */
  lemma GroupEndIsStored(table: set<Sample>, from: int, to: int, stride: int, out: seq<Sample>, k: nat)
    requires stride > 0 && IsHistory(table, from, to, stride, out) && k < |out|
    requires forall r, s | r in table && s in table && r.t <= s.t :: r.total <= s.total
    ensures out[k] in table && InRange(out[k], from, to)
  {
    hide TruncDiv;
    var o := out[k];
    assert GroupEnd(table, from, to, stride, o);
    var last :| last in table && InRange(last, from, to) && last.t == o.t;
    var most :| most in table && InRange(most, from, to) && TruncDiv(most.t, stride) == TruncDiv(o.t, stride)
        && most.total == o.total;
    assert most.t <= last.t;
    assert last == o;
  }

  // ---- The client's decimation ----

  lemma LeastCover(n: nat, target: nat)
    ensures target > 0 && n > 0 ==>
      var b := (n + target - 1) / target; b > 0 && (b - 1) * target < n <= b * target
  {
    if target > 0 && n > 0 {
      var x := n + target - 1;
      var b := x / target;
      assert x == target * b + x % target;
      assert (b - 1) * target == target * b - target;
      if b == 0 {
        assert false;
      }
    }
  }

  /** The least run length with which `target` runs are enough; all points in one run if none are wanted. */
  function BucketSize(n: nat, target: nat): (b: nat)
    ensures n > 0 ==> b > 0
    ensures n <= target ==> b == 1
    ensures 0 == target < n ==> b == n
    ensures 0 < target < n ==> (b - 1) * target < n <= b * target
  {
    LeastCover(n, target);
    if n <= target then 1 else if target == 0 then n else (n + target - 1) / target
  }

  function End(k: nat, b: nat, n: nat): nat {
    if (k + 1) * b < n then (k + 1) * b else n
  }

  /** `i` is the first of the greatest rates in [from, to). */
  ghost predicate FirstPeak(points: seq<Point>, from: nat, to: nat, i: nat) {
    && from <= i < to <= |points|
    && forall j | from <= j < to :: points[j].rate <= points[i].rate && (j < i ==> points[j].rate < points[i].rate)
  }

  /** `out` holds the first peak of each run of `b` points; `at` says where it was. */
  ghost predicate Decimated(points: seq<Point>, b: nat, out: seq<Point>, at: seq<nat>) {
    && |out| == |at|
    && (|out| - 1) * b < |points| <= |out| * b
    && forall k: nat | k < |out| ::
         FirstPeak(points, k * b, End(k, b, |points|), at[k]) && out[k] == points[at[k]]
  }

  lemma NextRun(k: nat, b: nat)
    ensures (k + 1) * b == k * b + b
  {
  }

  /** The inner loop: a later point replaces the peak only if it is higher. */
  method PeakIn(points: seq<Point>, from: nat, to: nat) returns (peak: nat)
    requires from < to <= |points|
    ensures FirstPeak(points, from, to, peak)
  {
    peak := from;
    var j := from + 1;
    while j < to
      invariant from < j <= to && FirstPeak(points, from, j, peak)
    {
      if points[j].rate > points[peak].rate {
        peak := j;
      }
      j := j + 1;
    }
  }

  /** The runs so far. */
  ghost predicate RunsDone(points: seq<Point>, b: nat, out: seq<Point>, at: seq<nat>) {
    && |out| == |at|
    && forall k: nat | k < |out| ::
         FirstPeak(points, k * b, End(k, b, |points|), at[k]) && out[k] == points[at[k]]
  }

  lemma OneMoreRun(points: seq<Point>, b: nat, out: seq<Point>, at: seq<nat>, peak: nat)
    requires RunsDone(points, b, out, at) && FirstPeak(points, |out| * b, End(|out|, b, |points|), peak)
    ensures RunsDone(points, b, out + [points[peak]], at + [peak])
  {
    hide FirstPeak, End;
  }

  lemma OnlyOne(points: seq<Point>, k: nat)
    requires k < |points|
    ensures FirstPeak(points, k * 1, End(k, 1, |points|), k)
  {
    EndOf(k, 1, |points|);
    hide End;
    assert k * 1 == k;
  }

  lemma AllKept(points: seq<Point>, at: seq<nat>)
    requires |at| == |points| && forall k: nat | k < |at| :: at[k] == k
    ensures Decimated(points, 1, points, at)
  {
    hide FirstPeak, End;
    forall k: nat | k < |points|
      ensures FirstPeak(points, k * 1, End(k, 1, |points|), at[k])
    {
      OnlyOne(points, k);
    }
  }

  method Downsample(points: seq<Point>, target: nat) returns (out: seq<Point>, ghost at: seq<nat>)
    ensures points == [] ==> out == []
    ensures points != [] ==> Decimated(points, BucketSize(|points|, target), out, at)
    ensures |points| <= target ==> out == points
  {
    if |points| <= target {
      at := seq(|points|, i => i);
      AllKept(points, at);
      return points, at;
    }
    var b := BucketSize(|points|, target);
    assert b > 0;
    hide RunsDone, End, BucketSize;
    out, at := [], [];
    NoRuns(points, b);
    var i := 0;
    while i < |points|
      invariant i == |out| * b && i - b < |points| && RunsDone(points, b, out, at)
      invariant |out| > 0 || i == 0
      decreases |points| - i
    {
      NextRun(|out|, b);
      EndOf(|out|, b, |points|);
      var peak := PeakIn(points, i, if i + b < |points| then i + b else |points|);
      OneMoreRun(points, b, out, at, peak);
      out := out + [points[peak]];
      at := at + [peak];
      i := i + b;
    }
    Complete(points, b, out, at);
  }

  lemma NoRuns(points: seq<Point>, b: nat)
    ensures RunsDone(points, b, [], [])
  {
  }

  lemma EndOf(k: nat, b: nat, n: nat)
    ensures End(k, b, n) == if k * b + b < n then k * b + b else n
  {
    NextRun(k, b);
  }

  lemma Complete(points: seq<Point>, b: nat, out: seq<Point>, at: seq<nat>)
    requires RunsDone(points, b, out, at) && |out| * b - b < |points| <= |out| * b
    ensures Decimated(points, b, out, at)
  {
    assert (|out| - 1) * b == |out| * b - b;
    hide FirstPeak, End;
  }

  /** At most `target` points, for a positive target; a target of zero leaves one. */
  lemma AtMostTarget(points: seq<Point>, target: nat, out: seq<Point>, at: seq<nat>)
    requires points != [] && Decimated(points, BucketSize(|points|, target), out, at)
    ensures |out| <= if target == 0 then 1 else target
  {
    var n, b := |points|, BucketSize(|points|, target);
    var m := |out| - 1;
    if n <= target {
      assert m * b == m;
    } else if target == 0 {
      if m >= 1 {
        TimesGrows(b, 1, m);
      }
    } else {
      if m >= target {
        TimesGrows(b, target, m);
      }
    }
  }

  /** The points keep their order. */
  lemma OrderKept(points: seq<Point>, b: nat, out: seq<Point>, at: seq<nat>, j: nat, k: nat)
    requires Decimated(points, b, out, at) && j < k < |out|
    ensures at[j] < at[k] < |points|
  {
    TimesGrows(b, j + 1, k);
    assert FirstPeak(points, j * b, End(j, b, |points|), at[j]);
    assert FirstPeak(points, k * b, End(k, b, |points|), at[k]);
  }

  /** Nothing rises above the chart. */
  lemma PeakKept(points: seq<Point>, b: nat, out: seq<Point>, at: seq<nat>, j: nat)
    requires b > 0 && Decimated(points, b, out, at) && j < |points|
    ensures Reaches(out, points[j].rate)
  {
    var k := j / b;
    assert j == b * k + j % b;
    NextRun(k, b);
    if k >= |out| {
      TimesGrows(b, |out|, k);
    }
    assert FirstPeak(points, k * b, End(k, b, |points|), at[k]);
    assert points[j].rate <= out[k].rate;
  }

  // ---- End to end ----

  /** Two samples of the range with none between them. */
  ghost predicate Neighbours(table: set<Sample>, from: int, to: int, r: Sample, s: Sample) {
    && r in table && s in table && InRange(r, from, to) && InRange(s, from, to) && r.t < s.t
    && forall x | x in table :: x.t <= r.t || s.t <= x.t
  }

  lemma NeighboursAdjacent(table: set<Sample>, from: int, to: int, out: seq<Sample>, r: Sample, s: Sample)
    returns (i: nat)
    requires OneASecond(table) && IsHistory(table, from, to, 1, out) && Neighbours(table, from, to, r, s)
    ensures i < |out| - 1 && out[i] == r && out[i + 1] == s
  {
    hide GroupEnd, HasGroup, InRange;
    FullResolution(table, from, to, out, r);
    FullResolution(table, from, to, out, s);
    i :| i < |out| && out[i] == r;
    var j: nat :| j < |out| && out[j] == s;
    FullResolution(table, from, to, out, out[i + if i < |out| - 1 then 1 else 0]);
  }

  function RateBetween(r: Sample, s: Sample): real
    requires r.t < s.t
  {
    RateAt([r, s], 0)
  }

  /** Everything between the stored counter and the chart: the fetch, the rollup and the client's decimation. */
  ghost predicate Charted(table: set<Sample>, q: Bounds, fetchStride: int, fetched: seq<Sample>, points: seq<Point>,
                          target: nat, chart: seq<Point>, at: seq<nat>)
    requires q.stride > 0 && fetchStride > 0
  {
    && OneASecond(table)
    && IsHistory(table, q.from, q.to, fetchStride, fetched)
    && IsRollup(fetched, q.stride, GapMax(fetchStride), points)
    && (if points == [] then chart == [] else Decimated(points, BucketSize(|points|, target), chart, at))
  }

  /** For every range: no rate of the fetched series is lost on the way to the chart. */
  lemma FetchedPeaksReachTheChart(table: set<Sample>, q: Bounds, fetchStride: int, fetched: seq<Sample>,
                                  points: seq<Point>, target: nat, chart: seq<Point>, at: seq<nat>, i: int)
    requires q.stride > 0 && fetchStride > 0 && Charted(table, q, fetchStride, fetched, points, target, chart, at)
    requires Eligible(fetched, i, GapMax(fetchStride))
    ensures Reaches(chart, RateAt(fetched, i))
  {
    hide IsHistory, IsRollup, Decimated, BucketSize, OneASecond, GapMax;
    var rate := RateAt(fetched, i);
    NothingHidden(fetched, q.stride, GapMax(fetchStride), points, i);
    hide RateAt;
    var k: nat :| k < |points| && rate <= points[k].rate;
    PeakKept(points, BucketSize(|points|, target), chart, at, k);
    var m :| 0 <= m < |chart| && points[k].rate <= chart[m].rate;
    assert rate <= chart[m].rate;
  }

  /** And the chart shows nothing that was not there. */
  lemma ChartIsGenuine(fetched: seq<Sample>, stride: int, gap: int, points: seq<Point>, b: nat, chart: seq<Point>,
                       at: seq<nat>, k: nat)
    requires stride > 0 && IsRollup(fetched, stride, gap, points) && Decimated(points, b, chart, at) && k < |chart|
    ensures Occurs(fetched, gap, chart[k])
  {
    assert FirstPeak(points, k * b, End(k, b, |points|), at[k]);
    hide IsRollup, FirstPeak, Occurs;
    NothingMadeUp(fetched, stride, gap, points, at[k]);
  }

  /** The chart's times increase. */
  lemma ChartInOrder(fetched: seq<Sample>, stride: int, gap: int, points: seq<Point>, b: nat, chart: seq<Point>,
                     at: seq<nat>, j: nat, k: nat)
    requires stride > 0 && IsRollup(fetched, stride, gap, points) && Decimated(points, b, chart, at) && j < k < |chart|
    ensures chart[j].t < chart[k].t
  {
    OrderKept(points, b, chart, at, j, k);
    hide IsRollup, FirstPeak;
    TimesIncrease(fetched, stride, gap, points, at[j], at[k]);
  }

  // ---- When every stored peak survives ----

  /** Whatever rate there was between two neighbouring stored samples that are not a gap apart, the chart has a point at
      least as high: for every table and every answer of the store. */
  ghost predicate PeaksSurvive(q: Bounds, fetchStride: int)
    requires q.stride > 0 && fetchStride > 0
  {
    forall table, fetched, points, target, chart, at, r, s ::
      && Charted(table, q, fetchStride, fetched, points, target, chart, at)
      && Neighbours(table, q.from, q.to, r, s) && s.t - r.t <= GapMax(fetchStride)
      ==> Reaches(chart, RateBetween(r, s))
  }

  lemma SecondBySecondSurvives(q: Bounds)
    requires q.stride > 0
    ensures PeaksSurvive(q, 1)
  {
    hide Charted, GapMax, Reaches;
    forall table, fetched, points, target, chart, at, r, s |
      && Charted(table, q, 1, fetched, points, target, chart, at)
      && Neighbours(table, q.from, q.to, r, s) && s.t - r.t <= GapMax(1)
      ensures Reaches(chart, RateBetween(r, s))
    {
      NeighbourReaches(table, q, fetched, points, target, chart, at, r, s);
    }
  }

  lemma NeighbourReaches(table: set<Sample>, q: Bounds, fetched: seq<Sample>, points: seq<Point>, target: nat,
                         chart: seq<Point>, at: seq<nat>, r: Sample, s: Sample)
    requires q.stride > 0 && Charted(table, q, 1, fetched, points, target, chart, at)
    requires Neighbours(table, q.from, q.to, r, s) && s.t - r.t <= GapMax(1)
    ensures Reaches(chart, RateBetween(r, s))
  {
    hide IsHistory, IsRollup, Decimated, BucketSize, OneASecond, GapMax, Reaches;
    var i := NeighboursAdjacent(table, q.from, q.to, fetched, r, s);
    assert Eligible(fetched, i, GapMax(1)) && RateAt(fetched, i) == RateBetween(r, s);
    FetchedPeaksReachTheChart(table, q, 1, fetched, points, target, chart, at, i);
  }

  /** One stored sample a second, and a burst of a thousand in the second after `t`. */
  function Burst(from: int, to: int, t: int): set<Sample> {
    set x | from <= x <= to :: BurstAt(t, x)
  }

  function BurstAt(t: int, x: int): Sample {
    Sample(x, if x <= t then 0 else 1000)
  }

  lemma InBurst(from: int, to: int, t: int, r: Sample)
    ensures r in Burst(from, to, t) <==> from <= r.t <= to && r.total == if r.t <= t then 0 else 1000
  {
    if from <= r.t <= to && r.total == (if r.t <= t then 0 else 1000) {
      assert r == BurstAt(t, r.t);
    }
  }

  /** When the burst falls within a group of the fetch, no two fetched samples show more than half its rate. */
  lemma FetchedRateIsHalved(from: int, to: int, stride: int, t: int, fetched: seq<Sample>, gap: int, i: int)
    requires stride > 0 && from <= t < to && TruncDiv(t, stride) == TruncDiv(t + 1, stride)
    requires IsHistory(Burst(from, to, t), from, to, stride, fetched) && Eligible(fetched, i, gap)
    ensures RateAt(fetched, i) <= 500.0
  {
    hide TruncDiv, Burst;
    var a, b := fetched[i], fetched[i + 1];
    if b.total > a.total {
      BurstEnd(from, to, stride, t, a);
      BurstEnd(from, to, stride, t, b);
      AtMostHalf(b.total - a.total, b.t - a.t);
    } else {
      assert 0.0 / (b.t - a.t) as real == 0.0;
    }
  }

  lemma QuotientAtMost(x: real, d: real, m: real)
    requires d > 0.0 && x <= m * d
    ensures x / d <= m
  {
    var q := x / d;
    assert q * d == x;
    assert (m - q) * d >= 0.0;
  }

  lemma AtMostHalf(rise: int, dt: int)
    requires rise <= 1000 && dt >= 2
    ensures rise as real / dt as real <= 500.0
  {
    QuotientAtMost(rise as real, dt as real, 500.0);
  }

  /** A group's end is before the burst's group with nothing, or after the burst with all of it. */
  lemma BurstEnd(from: int, to: int, stride: int, t: int, o: Sample)
    requires stride > 0 && from <= t < to && TruncDiv(t, stride) == TruncDiv(t + 1, stride)
    requires GroupEnd(Burst(from, to, t), from, to, stride, o)
    ensures (o.total == 0 && o.t <= t - 1) || (o.total == 1000 && o.t >= t + 1)
  {
    hide TruncDiv, Burst;
    var table := Burst(from, to, t);
    var last :| last in table && InRange(last, from, to) && last.t == o.t;
    var most :| most in table && InRange(most, from, to) && TruncDiv(most.t, stride) == TruncDiv(o.t, stride)
        && most.total == o.total;
    InBurst(from, to, t, last);
    InBurst(from, to, t, most);
    InBurst(from, to, t, Sample(t + 1, 1000));
  }

  /** Then no point of the chart reaches the burst's rate. */
  lemma BurstIsLost(q: Bounds, stride: int, t: int, fetched: seq<Sample>, points: seq<Point>, target: nat,
                    chart: seq<Point>, at: seq<nat>)
    requires q.stride > 0 && stride > 0 && q.from <= t < q.to && TruncDiv(t, stride) == TruncDiv(t + 1, stride)
    requires Charted(Burst(q.from, q.to, t), q, stride, fetched, points, target, chart, at)
    ensures Neighbours(Burst(q.from, q.to, t), q.from, q.to, Sample(t, 0), Sample(t + 1, 1000))
    ensures RateBetween(Sample(t, 0), Sample(t + 1, 1000)) == 1000.0 && !Reaches(chart, 1000.0)
  {
    hide TruncDiv, Burst, IsHistory, IsRollup, Decimated, BucketSize, GapMax;
    forall r: Sample
      ensures r in Burst(q.from, q.to, t) <==> q.from <= r.t <= q.to && r.total == if r.t <= t then 0 else 1000
    {
      InBurst(q.from, q.to, t, r);
    }
    forall k: nat | k < |chart|
      ensures chart[k].rate <= 500.0
    {
      ChartIsGenuine(fetched, q.stride, GapMax(stride), points, BucketSize(|points|, target), chart, at, k);
      var i :| Eligible(fetched, i, GapMax(stride)) && chart[k] == PointAt(fetched, i);
      FetchedRateIsHalved(q.from, q.to, stride, t, fetched, GapMax(stride), i);
    }
  }

  /** The failing input, at any time: a retained range of two hundred thousand seconds from an even second on is fetched
      two seconds at a time, and a burst of a thousand within one second in its middle shows as five hundred at most. */
  lemma BurstIsHalved(now: int, from: int, fetched: seq<Sample>, points: seq<Point>, target: nat, chart: seq<Point>,
                      at: seq<nat>)
    requires 0 <= from && from % 2 == 0 && now - HISTORY_RETENTION_SECS <= from && from + 200_000 <= now
    requires Charted(Burst(from, from + 200_000, from + 100_000), Bounds(from, from + 200_000, 200), 2, fetched, points,
        target, chart, at)
    ensures HistoryQueryBounds(HistoryParams(None, Some(from), Some(from + 200_000)), now)
        == Bounds(from, from + 200_000, 200)
    ensures FetchStride(200_000) == 2
    ensures !Reaches(chart, RateBetween(Sample(from + 100_000, 0), Sample(from + 100_001, 1000)))
  {
    hide Charted, Burst, Reaches;
    var t := from + 100_000;
    assert TruncDiv(t, 2) == TruncDiv(t + 1, 2);
    BurstIsLost(Bounds(from, from + 200_000, 200), 2, t, fetched, points, target, chart, at);
  }

  /** Of three seconds in a row two fall in one group, when groups are longer than a second. */
  lemma TwoInOneGroup(from: int, stride: int) returns (t: int)
    requires stride >= 2
    ensures from <= t <= from + 1 && TruncDiv(t, stride) == TruncDiv(t + 1, stride)
  {
    hide TruncDiv;
    StepsByOne(from, stride);
    TruncDivGrows(from, from + 1, stride);
    TruncDivGrows(from + 1, from + 2, stride);
    TruncDivGrows(from + 2, from + stride, stride);
    t := if TruncDiv(from, stride) == TruncDiv(from + 1, stride) then from else from + 1;
  }

  /** Two samples in one group: the fetch returns one, and the chart is empty. */
  lemma PairIsLost(q: Bounds, stride: int, t: int)
    requires q.stride > 0 && stride > 0 && q.from <= t < q.to && TruncDiv(t, stride) == TruncDiv(t + 1, stride)
    ensures !PeaksSurvive(q, stride)
  {
    hide TruncDiv, BucketOf;
    var r, s := Sample(t, 0), Sample(t + 1, 1000);
    var table, fetched := {r, s}, [s];
    assert TruncDiv(fetched[0].t, stride) == TruncDiv(s.t, stride);
    assert HasGroup(fetched, stride, TruncDiv(s.t, stride));
    assert GroupEnd(table, q.from, q.to, stride, s) by {
      assert s in table && InRange(s, q.from, q.to);
    }
    assert IsHistory(table, q.from, q.to, stride, fetched);
    assert IsRollup(fetched, q.stride, GapMax(stride), []);
    assert Charted(table, q, stride, fetched, [], 0, [], []);
    assert Neighbours(table, q.from, q.to, r, s);
    assert !Reaches([], RateBetween(r, s));
  }

  /** Peaks survive end to end, for every table, exactly when the range is fetched second by second: at most 100000
      seconds. */
  lemma PeaksSurviveExactly(p: HistoryParams, now: int, q: Bounds)
    requires q == HistoryQueryBounds(p, now)
    ensures q.stride > 0 && FetchStride(Max(q.to - q.from, 1)) > 0
    ensures PeaksSurvive(q, FetchStride(Max(q.to - q.from, 1))) <==> q.to - q.from <= MAX_FETCH_SAMPLES
  {
    hide PeaksSurvive;
    BoundsAreTight(p, now);
    var stride := FetchStride(Max(q.to - q.from, 1));
    if q.to - q.from <= MAX_FETCH_SAMPLES {
      SecondBySecondSurvives(q);
    } else {
      var t := TwoInOneGroup(q.from, stride);
      PairIsLost(q, stride, t);
    }
  }
}
