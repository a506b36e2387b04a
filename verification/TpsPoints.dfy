/** How many points a history query can answer with, over every table of samples: the fetch and the rollup together. */
module TpsPoints {
  import opened Numbers
  import opened Wrappers
  import opened TpsHistory
  import opened TpsQuery
  import opened TpsChart

  // ---- Fetch groups ----

  /** The first second of a fetch group. Division rounds toward zero, so group 0 is the longer one. */
  function GroupStart(g: int, fetch: int): int
    requires fetch > 0
  {
    if g > 0 then g * fetch else (g - 1) * fetch + 1
  }

  lemma GroupBounds(t: int, fetch: int)
    requires fetch > 0
    ensures GroupStart(TruncDiv(t, fetch), fetch) <= t < GroupStart(TruncDiv(t, fetch) + 1, fetch)
  {
    if t >= 0 {
      assert t == fetch * (t / fetch) + t % fetch;
    } else {
      assert -t == fetch * (-t / fetch) + -t % fetch;
    }
  }

  lemma GroupLength(g: int, fetch: int)
    requires fetch > 0
    ensures 0 < GroupStart(g + 1, fetch) - GroupStart(g, fetch) <= 2 * fetch - 1
    ensures g != 0 ==> GroupStart(g + 1, fetch) - GroupStart(g, fetch) == fetch
  {
  }

  lemma {:induction false} GroupsInOrder(g: int, h: int, fetch: int)
    requires fetch > 0 && g <= h
    ensures GroupStart(g, fetch) <= GroupStart(h, fetch)
    decreases h - g
  {
    hide GroupStart;
    if g < h {
      GroupLength(g, fetch);
      GroupsInOrder(g + 1, h, fetch);
    }
  }

  lemma StartOfGroup(g: int, fetch: int)
    requires fetch > 0
    ensures TruncDiv(GroupStart(g, fetch), fetch) == g
  {
    var t := GroupStart(g, fetch);
    GroupBounds(t, fetch);
    var h := TruncDiv(t, fetch);
    hide GroupStart, TruncDiv;
    GroupLength(g, fetch);
    if h < g {
      GroupsInOrder(h + 1, g, fetch);
    } else if h > g {
      GroupsInOrder(g + 1, h, fetch);
    }
  }

  // ---- At most so many points ----

  /** The buckets that points can fall in: from the first second past the fetch group of `from`. */
  function PointSpan(from: int, to: int, fetch: int, stride: int): int
    requires fetch > 0 && stride > 0
  {
    var low := GroupStart(TruncDiv(from, fetch) + 1, fetch);
    if low <= to then TruncDiv(to, stride) - TruncDiv(low, stride) + 1 else 0
  }

  /** A point ends an interval, so it comes after the first group. */
  lemma PointPastFirstGroup(table: set<Sample>, from: int, to: int, fetch: int, out: seq<Sample>, gap: int, p: Point)
    requires fetch > 0 && IsHistory(table, from, to, fetch, out) && Occurs(out, gap, p)
    ensures GroupStart(TruncDiv(from, fetch) + 1, fetch) <= p.t <= to
  {
    hide TruncDiv, GroupStart;
    var i :| Eligible(out, i, gap) && p == PointAt(out, i);
    var r, s := out[i], out[i + 1];
    assert GroupEnd(table, from, to, fetch, r) && GroupEnd(table, from, to, fetch, s);
    TruncDivGrows(from, r.t, fetch);
    TruncDivGrows(r.t, s.t, fetch);
    assert TruncDiv(r.t, fetch) != TruncDiv(s.t, fetch);
    GroupBounds(s.t, fetch);
    GroupsInOrder(TruncDiv(from, fetch) + 1, TruncDiv(s.t, fetch), fetch);
  }

  lemma AtMostPointSpan(table: set<Sample>, from: int, to: int, fetch: int, out: seq<Sample>, stride: int, gap: int,
                        points: seq<Point>)
    requires fetch > 0 && stride > 0 && IsHistory(table, from, to, fetch, out) && IsRollup(out, stride, gap, points)
    ensures |points| <= PointSpan(from, to, fetch, stride)
  {
    hide TruncDiv, GroupStart, IsHistory;
    var low := GroupStart(TruncDiv(from, fetch) + 1, fetch);
    if |points| > 0 {
      var first, last := points[0], points[|points| - 1];
      NothingMadeUp(out, stride, gap, points, 0);
      NothingMadeUp(out, stride, gap, points, |points| - 1);
      PointPastFirstGroup(table, from, to, fetch, out, gap, first);
      PointPastFirstGroup(table, from, to, fetch, out, gap, last);
      TruncDivGrows(low, first.t, stride);
      TruncDivGrows(last.t, to, stride);
      AscendingSpread(points, stride, |points| - 1);
    } else if low <= to {
      TruncDivGrows(low, to, stride);
    }
  }

  // ---- And as many ----

  /** The first second of each fetch group, but `from` in the first and `to` in the last. */
  function Tick(from: int, to: int, fetch: int, j: int): int
    requires fetch > 0
  {
    var first, last := TruncDiv(from, fetch), TruncDiv(to, fetch);
    if j == 0 then from else if j == last - first then to else GroupStart(first + j, fetch)
  }

  function Ticks(from: int, to: int, fetch: int): seq<Sample>
    requires fetch > 0 && TruncDiv(from, fetch) <= TruncDiv(to, fetch)
  {
    seq(TruncDiv(to, fetch) - TruncDiv(from, fetch) + 1, j => Sample(Tick(from, to, fetch, j), 0))
  }

  lemma TickInGroup(from: int, to: int, fetch: int, j: int)
    requires fetch > 0 && from <= to && 0 <= j <= TruncDiv(to, fetch) - TruncDiv(from, fetch)
    ensures TruncDiv(Tick(from, to, fetch, j), fetch) == TruncDiv(from, fetch) + j
    ensures from <= Tick(from, to, fetch, j) <= to
  {
    hide TruncDiv, GroupStart;
    var first, last := TruncDiv(from, fetch), TruncDiv(to, fetch);
    StartOfGroup(first + j, fetch);
    if 0 < j < last - first {
      GroupBounds(from, fetch);
      GroupBounds(to, fetch);
      GroupsInOrder(first + 1, first + j, fetch);
      GroupsInOrder(first + j, last, fetch);
    }
  }

  lemma TickStep(from: int, to: int, fetch: int, j: int)
    requires fetch > 0 && from <= to && 0 <= j < TruncDiv(to, fetch) - TruncDiv(from, fetch)
    ensures 0 < Tick(from, to, fetch, j + 1) - Tick(from, to, fetch, j) <= 3 * fetch
    ensures fetch == 1 ==> Tick(from, to, fetch, j + 1) - Tick(from, to, fetch, j) == 1
  {
    var first, last := TruncDiv(from, fetch), TruncDiv(to, fetch);
    GroupBounds(from, fetch);
    GroupBounds(to, fetch);
    hide TruncDiv, GroupStart;
    GroupLength(first + j, fetch);
    GroupLength(first + j + 1, fetch);
  }

  /** One second of each group from the first on, and nothing happening. */
  ghost predicate OnePerGroup(s: seq<Sample>, from: int, to: int, fetch: int, first: int)
    requires fetch > 0
  {
    forall j | 0 <= j < |s| :: TruncDiv(s[j].t, fetch) == first + j && InRange(s[j], from, to) && s[j].total == 0
  }

  lemma TicksOnePerGroup(from: int, to: int, fetch: int)
    requires fetch > 0 && from <= to && TruncDiv(from, fetch) <= TruncDiv(to, fetch)
    ensures OnePerGroup(Ticks(from, to, fetch), from, to, fetch, TruncDiv(from, fetch))
  {
    hide TruncDiv, Tick;
    var s := Ticks(from, to, fetch);
    forall j | 0 <= j < |s|
      ensures TruncDiv(s[j].t, fetch) == TruncDiv(from, fetch) + j && InRange(s[j], from, to)
    {
      TickInGroup(from, to, fetch, j);
    }
  }

  ghost function Table(s: seq<Sample>): set<Sample> {
    set k | 0 <= k < |s| :: s[k]
  }

  lemma InTable(s: seq<Sample>, r: Sample) returns (k: int)
    requires r in Table(s)
    ensures 0 <= k < |s| && s[k] == r
  {
    k :| 0 <= k < |s| && s[k] == r;
  }

  lemma EndsItsGroup(s: seq<Sample>, from: int, to: int, fetch: int, first: int, k: nat)
    requires fetch > 0 && OnePerGroup(s, from, to, fetch, first) && k < |s|
    ensures GroupEnd(Table(s), from, to, fetch, s[k])
  {
    hide TruncDiv;
    assert s[k] in Table(s) && InRange(s[k], from, to);
    hide Table;
    forall r | r in Table(s) && TruncDiv(r.t, fetch) == TruncDiv(s[k].t, fetch)
      ensures r == s[k]
    {
      var i := InTable(s, r);
    }
  }

  /** A table of such seconds is fetched as it is. */
  lemma OnePerGroupIsFetched(s: seq<Sample>, from: int, to: int, fetch: int, first: int)
    requires fetch > 0 && OnePerGroup(s, from, to, fetch, first)
    ensures OneASecond(Table(s)) && IsHistory(Table(s), from, to, fetch, s)
  {
    hide TruncDiv, GroupEnd, Table;
    forall j, k | 0 <= j < k < |s|
      ensures s[j].t < s[k].t
    {
      if s[k].t <= s[j].t {
        TruncDivGrows(s[k].t, s[j].t, fetch);
      }
    }
    forall r | r in Table(s)
      ensures HasGroup(s, fetch, TruncDiv(r.t, fetch)) && r.total == 0
    {
      var k := InTable(s, r);
    }
    forall k | 0 <= k < |s|
      ensures GroupEnd(Table(s), from, to, fetch, s[k])
    {
      EndsItsGroup(s, from, to, fetch, first, k);
    }
  }

  /** Times that advance by at most a stride meet every bucket on their way. */
  lemma {:induction false} MeetsBucket(s: seq<Sample>, stride: int, j: nat, b: int) returns (k: nat)
    requires stride > 0 && j < |s| && TruncDiv(s[j].t, stride) <= b <= TruncDiv(s[|s| - 1].t, stride)
    requires forall i | 0 <= i < |s| - 1 :: 0 < s[i + 1].t - s[i].t <= stride
    ensures j <= k < |s| && TruncDiv(s[k].t, stride) == b
    decreases |s| - j
  {
    hide TruncDiv;
    if TruncDiv(s[j].t, stride) == b {
      k := j;
    } else {
      StepsByOne(s[j].t, stride);
      TruncDivGrows(s[j + 1].t, s[j].t + stride, stride);
      k := MeetsBucket(s, stride, j + 1, b);
    }
  }

  lemma TicksReach(from: int, to: int, fetch: int, stride: int, gap: int, points: seq<Point>)
    requires fetch > 0 && from < to && (fetch == 1 || 3 * fetch <= stride) && stride > 0 && 3 * fetch <= gap
    requires TruncDiv(from, fetch) + 2 <= TruncDiv(to, fetch)
    requires IsRollup(Ticks(from, to, fetch), stride, gap, points)
    ensures |points| >= PointSpan(from, to, fetch, stride)
  {
    hide TruncDiv, GroupStart, Tick;
    var s := Ticks(from, to, fetch);
    forall i | 0 <= i < |s| - 1
      ensures 0 < s[i + 1].t - s[i].t <= 3 * fetch && (fetch == 1 ==> s[i + 1].t - s[i].t == 1)
    {
      TickStep(from, to, fetch, i);
    }
    TicksEnds(from, to, fetch);
    var low, high := TruncDiv(s[1].t, stride), TruncDiv(to, stride);
    TruncDivGrows(s[1].t, to, stride);
    forall b | low <= b <= high
      ensures HasBucket(points, stride, b)
    {
      var k := MeetsBucket(s, stride, 1, b);
      assert Eligible(s, k - 1, gap) && BucketOf(PointAt(s, k - 1), stride) == b;
    }
    var k := CoverCount(points, stride, low, high);
  }

  lemma TicksEnds(from: int, to: int, fetch: int)
    requires fetch > 0 && from < to && TruncDiv(from, fetch) + 2 <= TruncDiv(to, fetch)
    ensures var s := Ticks(from, to, fetch);
            s[1].t == GroupStart(TruncDiv(from, fetch) + 1, fetch) <= to && s[|s| - 1].t == to
  {
    hide TruncDiv, GroupStart;
    GroupBounds(to, fetch);
    GroupsInOrder(TruncDiv(from, fetch) + 1, TruncDiv(to, fetch), fetch);
  }

  /** Some table is answered with exactly so many points. */
  lemma PointSpanReached(from: int, to: int, fetch: int, stride: int, gap: int)
    returns (table: set<Sample>, out: seq<Sample>, points: seq<Point>)
    requires fetch > 0 && from < to && (fetch == 1 || 3 * fetch <= stride) && stride > 0 && 3 * fetch <= gap
    requires TruncDiv(from, fetch) + 2 <= TruncDiv(to, fetch)
    ensures OneASecond(table) && IsHistory(table, from, to, fetch, out) && IsRollup(out, stride, gap, points)
    ensures |points| == PointSpan(from, to, fetch, stride)
  {
    hide TruncDiv, IsHistory, IsRollup, PointSpan, OneASecond, Ticks, OnePerGroup;
    out := Ticks(from, to, fetch);
    TicksOnePerGroup(from, to, fetch);
    OnePerGroupIsFetched(out, from, to, fetch, TruncDiv(from, fetch));
    table := Table(out);
    points := RollupExists(out, stride, gap);
    TicksReach(from, to, fetch, stride, gap, points);
    AtMostPointSpan(table, from, to, fetch, out, stride, gap, points);
  }

  // ---- The query ----

  /** What the query answers from a table. */
  ghost predicate Answers(table: set<Sample>, b: Bounds, out: seq<Sample>, points: seq<Point>)
    requires b.stride > 0
  {
    var fetch := FetchStride(Max(b.to - b.from, 1));
    OneASecond(table) && IsHistory(table, b.from, b.to, fetch, out) && IsRollup(out, b.stride, GapMax(fetch), points)
  }

  lemma FetchIsFine(p: HistoryParams, now: int)
    ensures var b := HistoryQueryBounds(p, now);
            var fetch := FetchStride(Max(b.to - b.from, 1));
            b.stride > 0 && fetch > 0 && 3 * fetch <= GapMax(fetch) && (fetch == 1 || 3 * fetch <= b.stride)
  {
  }

  /** More points than two take more than two fetch groups. */
  lemma ManyGroups(from: int, to: int, fetch: int, stride: int)
    requires fetch > 0 && stride > 0 && (fetch == 1 || 3 * fetch <= stride) && from < to
    requires PointSpan(from, to, fetch, stride) > 2
    ensures TruncDiv(from, fetch) + 2 <= TruncDiv(to, fetch)
  {
    hide TruncDiv, GroupStart;
    var first, last := TruncDiv(from, fetch), TruncDiv(to, fetch);
    var low := GroupStart(first + 1, fetch);
    if last < first + 2 {
      GroupBounds(to, fetch);
      GroupsInOrder(last + 1, first + 2, fetch);
      GroupLength(first + 1, fetch);
      StepsByOne(low, stride);
      TruncDivGrows(to, low + stride, stride);
    }
  }

  /** For every query: it answers every table with at most the target number of points exactly when at most that many
      buckets meet the range past its first fetch group. */
  lemma QueryAtMostTargetExactly(p: HistoryParams, now: int)
    requires HistoryQueryBounds(p, now).from < HistoryQueryBounds(p, now).to
    ensures var b := HistoryQueryBounds(p, now);
            && b.stride > 0
            && ((forall table, out, points | Answers(table, b, out, points) :: |points| <= HISTORY_TARGET_POINTS)
                <==> PointSpan(b.from, b.to, FetchStride(b.to - b.from), b.stride) <= HISTORY_TARGET_POINTS)
  {
    var b := HistoryQueryBounds(p, now);
    var fetch := FetchStride(Max(b.to - b.from, 1));
    FetchIsFine(p, now);
    hide HistoryQueryBounds, FetchStride, GapMax, IsHistory, IsRollup, OneASecond, PointSpan, TruncDiv;
    if PointSpan(b.from, b.to, fetch, b.stride) <= HISTORY_TARGET_POINTS {
      forall table, out, points | Answers(table, b, out, points)
        ensures |points| <= HISTORY_TARGET_POINTS
      {
        AtMostPointSpan(table, b.from, b.to, fetch, out, b.stride, GapMax(fetch), points);
      }
    } else {
      ManyGroups(b.from, b.to, fetch, b.stride);
      var table, out, points := PointSpanReached(b.from, b.to, fetch, b.stride, GapMax(fetch));
      assert Answers(table, b, out, points);
    }
  }

  /** One point more than the target is answered at any time: to every retained range of two thousand seconds from an
      even second on, which is divided into strides of two. */
  lemma OneMoreIsReached(now: int, from: int) returns (table: set<Sample>, out: seq<Sample>, points: seq<Point>)
    requires 0 <= from && from % 2 == 0 && now - HISTORY_RETENTION_SECS <= from && from + 2000 <= now
    ensures HistoryQueryBounds(HistoryParams(None, Some(from), Some(from + 2000)), now) == Bounds(from, from + 2000, 2)
    ensures Answers(table, Bounds(from, from + 2000, 2), out, points) && |points| == HISTORY_TARGET_POINTS + 1
  {
    ByOne();
    assert PointSpan(from, from + 2000, 1, 2) == HISTORY_TARGET_POINTS + 1;
    hide IsHistory, IsRollup, OneASecond, PointSpan;
    table, out, points := PointSpanReached(from, from + 2000, 1, 2, GapMax(1));
  }

  /** A coarser fetch can spare that point: from second 198 to 200198 in strides of 200, fetched by twos, 1001 buckets
      meet the range and no answer has more than 1000 points. */
  lemma CoarseFetchSparesOne(now: int, table: set<Sample>, out: seq<Sample>, points: seq<Point>)
    requires 200_198 <= now <= 198 + HISTORY_RETENTION_SECS
    requires Answers(table, HistoryQueryBounds(HistoryParams(None, Some(198), Some(200_198)), now), out, points)
    ensures BucketSpan(198, 200_198, 200) == HISTORY_TARGET_POINTS + 1 && |points| <= HISTORY_TARGET_POINTS
  {
    assert HistoryQueryBounds(HistoryParams(None, Some(198), Some(200_198)), now) == Bounds(198, 200_198, 200);
    assert PointSpan(198, 200_198, 2, 200) == HISTORY_TARGET_POINTS;
    hide IsHistory, IsRollup, OneASecond, PointSpan, HistoryQueryBounds;
    AtMostPointSpan(table, 198, 200_198, 2, out, 200, GapMax(2), points);
  }
}
