/** Smoothed actions per second over a trailing window of counter readings. */
module RateWindow {

  /** The counter at a time, in seconds. */
  datatype Reading = Reading(at: real, total: nat)

  /** The readings of a history that are at most `window` old at `now`. */
  function Recent(history: seq<Reading>, now: real, window: real): seq<Reading> {
    if history == [] then []
    else
      var rest := Recent(history[..|history| - 1], now, window);
      var r := history[|history| - 1];
      if now - r.at > window then rest else rest + [r]
  }

  predicate InOrder(history: seq<Reading>) {
    forall i, j | 0 <= i <= j < |history| :: history[i].at <= history[j].at
  }

  /** In a history in order, the recent readings are the ones from the first recent one on. */
  lemma {:induction false} RecentIsSuffix(history: seq<Reading>, now: real, window: real, k: nat)
    requires InOrder(history) && k <= |history|
    requires forall i | 0 <= i < k :: now - history[i].at > window
    requires k < |history| ==> now - history[k].at <= window
    ensures Recent(history, now, window) == history[k..]
  {
    if history != [] {
      var n := |history| - 1;
      var front := history[..n];
      if k <= n {
        assert history[k].at <= history[n].at;
        RecentIsSuffix(front, now, window, k);
        assert history[k..] == front[k..] + [history[n]];
      } else {
        RecentIsSuffix(front, now, window, n);
        assert history[k..] == [];
      }
    }
  }

  function Quotient(x: real, d: real): (q: real)
    requires x >= 0.0 && d > 0.0
    ensures q >= 0.0 && q * d == x
  {
    QuotientNotNegative(x, d);
    x / d
  }

  lemma QuotientNotNegative(x: real, d: real)
    requires x >= 0.0 && d > 0.0
    ensures x / d >= 0.0 && x / d * d == x
  {
    var q := x / d;
    assert q * d == x;
  }

  /** A rise over a time is a rate; without either, as for one reading or a counter that went back, the rate is zero. */
  function Rate(samples: seq<Reading>): (rate: real)
    ensures rate >= 0.0
    ensures Rises(samples) ==>
      var first, last := samples[0], samples[|samples| - 1];
      rate > 0.0 && rate * (last.at - first.at) == (last.total - first.total) as real
    ensures !Rises(samples) ==> rate == 0.0
  {
    if samples == [] then 0.0
    else
      var first, last := samples[0], samples[|samples| - 1];
      if last.at - first.at <= 0.0 then 0.0
      else Quotient((if last.total > first.total then last.total - first.total else 0) as real, last.at - first.at)
  }

  /** The last reading is later and higher than the first. */
  predicate Rises(samples: seq<Reading>) {
    && samples != []
    && samples[0].at < samples[|samples| - 1].at && samples[0].total < samples[|samples| - 1].total
  }

  class RateWindow {
    const window: real
    var samples: seq<Reading>
    ghost var history: seq<Reading>

    /** The deque is the history filtered to the window, as of the last reading. */
    ghost predicate Valid()
      reads this
    {
      && window >= 0.0
      && InOrder(history)
      && (if history == [] then samples == []
          else samples == Recent(history, history[|history| - 1].at, window))
    }

    constructor (window: real)
      requires window >= 0.0
      ensures Valid() && history == [] && this.window == window
    {
      this.window, samples, history := window, [], [];
    }

    /** Time does not run backwards between readings. */
    method Observe(now: real, total: nat) returns (rate: real)
      requires Valid() && (history != [] ==> history[|history| - 1].at <= now)
      modifies this
      ensures Valid()
      ensures history == old(history) + [Reading(now, total)]
      ensures samples == Recent(history, now, window) && samples != []
      ensures rate == Rate(samples)
    {
      hide InOrder, Recent, Rate;
      ghost var before := history;
      ghost var was := if before == [] then now else before[|before| - 1].at;
      OrderExtends(before, Reading(now, total));
      RecentKeepsOrder(before, was, window);
      RecentAgain(before, was, now, window, Reading(now, total));
      OrderExtends(samples, Reading(now, total));
      history := history + [Reading(now, total)];
      samples := DropOld(samples + [Reading(now, total)], now, window);
      rate := Measure(samples);
    }
  }

  /** The eviction loop: old readings leave at the front, the newest never does. */
  method DropOld(readings: seq<Reading>, now: real, window: real) returns (samples: seq<Reading>)
    requires readings != [] && InOrder(readings) && now - readings[|readings| - 1].at <= window
    ensures samples == Recent(readings, now, window) && samples != []
  {
    hide Recent;
    samples := readings;
    ghost var k := 0;
    while |samples| > 1
      invariant k < |readings| && samples == readings[k..]
      invariant forall i | 0 <= i < k :: now - readings[i].at > window
      decreases |samples|
    {
      var t := samples[0].at;
      if now - t > window {
        samples := samples[1..];
        k := k + 1;
      } else {
        break;
      }
    }
    RecentIsSuffix(readings, now, window, k);
  }

  method Measure(samples: seq<Reading>) returns (rate: real)
    requires samples != []
    ensures rate == Rate(samples)
  {
    var first, last := samples[0], samples[|samples| - 1];
    var dt := last.at - first.at;
    if dt <= 0.0 {
      return 0.0;
    }
    rate := (if last.total > first.total then last.total - first.total else 0) as real / dt;
  }

  lemma OrderExtends(history: seq<Reading>, r: Reading)
    requires InOrder(history) && (history != [] ==> history[|history| - 1].at <= r.at)
    ensures InOrder(history + [r])
  {
  }

  lemma {:induction false} RecentKeepsOrder(history: seq<Reading>, now: real, window: real)
    requires InOrder(history)
    ensures var s := Recent(history, now, window);
            InOrder(s) && (s != [] ==> history != [] && s[|s| - 1].at <= history[|history| - 1].at)
  {
    if history != [] {
      RecentKeepsOrder(history[..|history| - 1], now, window);
      hide Recent;
    }
  }

  /** What was dropped before would be dropped now. */
  lemma {:induction false} RecentAgain(history: seq<Reading>, was: real, now: real, window: real, r: Reading)
    requires was <= now
    ensures Recent(Recent(history, was, window) + [r], now, window) == Recent(history + [r], now, window)
  {
    Dropped(history, was, now, window);
    assert (history + [r])[..|history|] == history;
    var s := Recent(history, was, window);
    assert (s + [r])[..|s|] == s;
  }

  lemma {:induction false} Dropped(history: seq<Reading>, was: real, now: real, window: real)
    requires was <= now
    ensures Recent(Recent(history, was, window), now, window) == Recent(history, now, window)
  {
    if history != [] {
      var front, r := history[..|history| - 1], history[|history| - 1];
      Dropped(front, was, now, window);
      var s := Recent(front, was, window);
      assert (s + [r])[..|s|] == s;
    }
  }

  // ---- The rate is a mean of the interval rates ----

  ghost predicate Advancing(samples: seq<Reading>) {
    forall i, j | 0 <= i < j < |samples| :: samples[i].at < samples[j].at && samples[i].total <= samples[j].total
  }

  ghost function IntervalRate(samples: seq<Reading>, i: nat): real
    requires i < |samples| - 1
  {
    Rate(samples[i..i + 2])
  }

  lemma Between(x: real, p: real, y: real, q: real)
    requires p > 0.0 && q > 0.0
    ensures x / p <= (x + y) / (p + q) || y / q <= (x + y) / (p + q)
    ensures x / p >= (x + y) / (p + q) || y / q >= (x + y) / (p + q)
  {
    var m := (x + y) / (p + q);
    assert m * (p + q) == x + y;
    Scaled(x, p, m);
    Scaled(y, q, m);
    assert m * p + m * q == x + y;
  }

  lemma Scaled(x: real, p: real, m: real)
    requires p > 0.0
    ensures x / p <= m <==> x <= m * p
    ensures x / p >= m <==> x >= m * p
  {
    var r := x / p;
    assert r * p == x;
    if r <= m {
      assert r * p <= m * p;
    } else {
      assert r * p > m * p;
    }
    if r >= m {
      assert r * p >= m * p;
    }
  }

  /** For a counter that never goes back, read at increasing times, the window's rate lies between the least and the
      greatest rate of its intervals: one is no higher, and one no lower. */
  lemma {:induction false} RateIsBetween(samples: seq<Reading>) returns (low: nat, high: nat)
    requires Advancing(samples) && |samples| >= 2
    ensures low < |samples| - 1 && high < |samples| - 1
    ensures IntervalRate(samples, low) <= Rate(samples) <= IntervalRate(samples, high)
  {
    hide Rate, Advancing, IntervalRate;
    var n := |samples| - 1;
    if n == 1 {
      WholeInterval(samples);
      low, high := 0, 0;
    } else {
      LastInterval(samples);
      low, high := RateIsBetween(samples[..n]);
      SameInterval(samples, low);
      SameInterval(samples, high);
      if IntervalRate(samples, low) > Rate(samples) {
        low := n - 1;
      }
      if IntervalRate(samples, high) < Rate(samples) {
        high := n - 1;
      }
    }
  }

  lemma WholeInterval(samples: seq<Reading>)
    requires |samples| == 2
    ensures IntervalRate(samples, 0) == Rate(samples)
  {
    assert samples[0..2] == samples;
  }

  lemma SameInterval(samples: seq<Reading>, i: nat)
    requires i + 2 < |samples|
    ensures IntervalRate(samples, i) == IntervalRate(samples[..|samples| - 1], i)
  {
    assert samples[..|samples| - 1][i..i + 2] == samples[i..i + 2];
  }

  /** The rate lies between that of all intervals but the last and that of the last. */
  lemma LastInterval(samples: seq<Reading>)
    requires Advancing(samples) && |samples| >= 3
    ensures var n := |samples| - 1;
            && Advancing(samples[..n])
            && (Rate(samples[..n]) <= Rate(samples) || IntervalRate(samples, n - 1) <= Rate(samples))
            && (Rate(samples[..n]) >= Rate(samples) || IntervalRate(samples, n - 1) >= Rate(samples))
  {
    var n := |samples| - 1;
    var x, p := (samples[n - 1].total - samples[0].total) as real, samples[n - 1].at - samples[0].at;
    var y, q := (samples[n].total - samples[n - 1].total) as real, samples[n].at - samples[n - 1].at;
    PlainRate(samples);
    PlainRate(samples[..n]);
    PlainRate(samples[n - 1..n + 1]);
    hide Rate, Advancing;
    Between(x, p, y, q);
  }

  lemma PlainRate(samples: seq<Reading>)
    requires Advancing(samples) && |samples| >= 2
    ensures var first, last := samples[0], samples[|samples| - 1];
            last.at > first.at && Rate(samples) == (last.total - first.total) as real / (last.at - first.at)
  {
    assert samples[0].at < samples[|samples| - 1].at;
    if samples[|samples| - 1].total == samples[0].total {
      assert 0.0 == 0.0 / (samples[|samples| - 1].at - samples[0].at);
    }
  }
}
