/** Smart-reminder habit analysis (SettingsView.mostCommonTimeInterval and
    SettingsView.analyzeUserHabit): reminder times are grouped into
    ten-minute buckets, the fullest bucket is picked, and a suggestion is
    raised when enough logged times lie near it. */
module Habit {

  /** Width of one bucket, in seconds. */
  const BucketSeconds: int := 600
  /** A logged time counts as "near" the picked time within this many seconds. */
  const NearSeconds: int := 600
  /** How many near times raise the suggestion. */
  const SuggestThreshold: nat := 3

  function Abs(x: int): nat {
    if x < 0 then -x else x
  }

  /** Swift's `truncatingRemainder(dividingBy:)`: the remainder takes the
      sign of the dividend, unlike Dafny's Euclidean `%`. */
  function TruncRem(t: int, d: int): (r: int)
    requires 0 < d
    ensures 0 <= t ==> 0 <= r < d
    ensures t < 0 ==> -d < r <= 0
    ensures exists q :: t - r == q * d
  {
    if 0 <= t then
      assert t - t % d == (t / d) * d;
      t % d
    else
      assert t + (-t) % d == -((-t) / d) * d;
      -((-t) % d)
  }

  /** The bucket a time falls into: the time with its remainder modulo the
      bucket width removed, so rounded toward zero to a multiple of 600. */
  function BucketKey(t: int): (k: int)
    ensures k % BucketSeconds == 0
    ensures 0 <= t ==> 0 <= k <= t && t - k < BucketSeconds
    ensures t < 0 ==> t <= k <= 0 && k - t < BucketSeconds
  {
    if 0 <= t then t - t % BucketSeconds
    else
      assert -t == ((-t) / BucketSeconds) * BucketSeconds + (-t) % BucketSeconds;
      t - TruncRem(t, BucketSeconds)
  }

  /** A bucket's count, with the dictionary's `default: 0` for absent keys. */
  function CountOf(counts: map<int, nat>, k: int): nat {
    if k in counts then counts[k] else 0
  }

  /** `counts[key, default: 0] += 1`. */
  function Bump(counts: map<int, nat>, k: int): (r: map<int, nat>)
    ensures r.Keys == counts.Keys + {k}
  {
    counts[k := CountOf(counts, k) + 1]
  }

  /** Reference count: how many of the first `n` times fall into bucket `k`. */
  function CountInFirst(xs: seq<int>, n: nat, k: int): (c: nat)
    requires n <= |xs|
    ensures c <= n
    ensures 0 < c ==> exists i :: 0 <= i < n && BucketKey(xs[i]) == k
  {
    if n == 0 then 0
    else CountInFirst(xs, n - 1, k) + (if BucketKey(xs[n - 1]) == k then 1 else 0)
  }

  /** How many of `xs` fall into bucket `k`. */
  function InBucket(xs: seq<int>, k: int): (n: nat)
    ensures n <= |xs|
    ensures 0 < n ==> exists i :: 0 <= i < |xs| && BucketKey(xs[i]) == k
  {
    CountInFirst(xs, |xs|, k)
  }

  /** The `reduce(into:)` fold over the first `n` times: each time adds one
      to its own bucket. */
  function HistogramOfFirst(xs: seq<int>, n: nat): (counts: map<int, nat>)
    requires n <= |xs|
    ensures forall k :: k in counts <==> 0 < CountInFirst(xs, n, k)
    ensures forall k :: CountOf(counts, k) == CountInFirst(xs, n, k)
  {
    if n == 0 then map[]
    else Bump(HistogramOfFirst(xs, n - 1), BucketKey(xs[n - 1]))
  }

  /** The dictionary built from all of `xs`. Its keys are exactly the
      occupied buckets and each holds its bucket's count. */
  function Histogram(xs: seq<int>): (counts: map<int, nat>)
    ensures forall k :: k in counts <==> 0 < InBucket(xs, k)
    ensures forall k :: CountOf(counts, k) == InBucket(xs, k)
  {
    HistogramOfFirst(xs, |xs|)
  }

  /** The first `n` counts depend only on the first `n` times. */
  lemma {:induction false} CountInFirstAgrees(xs: seq<int>, ys: seq<int>, n: nat, k: int)
    requires n <= |xs| && n <= |ys|
    requires forall i :: 0 <= i < n ==> xs[i] == ys[i]
    ensures CountInFirst(xs, n, k) == CountInFirst(ys, n, k)
    decreases n
  {
    if n > 0 {
      CountInFirstAgrees(xs, ys, n - 1, k);
    }
  }

  /** Appending a time adds one to its own bucket's count and nothing to
      any other. */
  lemma InBucketSnoc(xs: seq<int>, x: int, k: int)
    ensures InBucket(xs + [x], k) == InBucket(xs, k) + (if BucketKey(x) == k then 1 else 0)
  {
    CountInFirstAgrees(xs + [x], xs, |xs|, k);
  }

  /** `InBucketSnoc` for a non-empty sequence split at its last time. */
  lemma InBucketOfInit(xs: seq<int>, k: int)
    requires 0 < |xs|
    ensures InBucket(xs, k) == InBucket(xs[..|xs| - 1], k) + (if BucketKey(xs[|xs| - 1]) == k then 1 else 0)
  {
    assert xs == xs[..|xs| - 1] + [xs[|xs| - 1]];
    InBucketSnoc(xs[..|xs| - 1], xs[|xs| - 1], k);
  }

  /** `order` lists the keys of `counts`, each at least once: the
      iteration order of the Swift dictionary, which lists each key once
      (`Distinct`), is one such order. */
  predicate Enumerates(order: seq<int>, counts: map<int, nat>) {
    && (forall i :: 0 <= i < |order| ==> order[i] in counts)
    && (forall k :: k in counts ==> k in order)
  }

  /** `max(by: { $0.value < $1.value })` over the keys in iteration order.
      Swift's scan replaces the running result by each element that is not
      smaller (`!areInIncreasingOrder(e, result)`), so an equal count also
      replaces it and the last maximum in `order` wins. */
  function MaxKey(counts: map<int, nat>, order: seq<int>): (r: int)
    requires 0 < |order|
    requires forall i :: 0 <= i < |order| ==> order[i] in counts
    ensures r in counts && r in order
    ensures forall i :: 0 <= i < |order| ==> counts[order[i]] <= counts[r]
    decreases |order|
  {
    if |order| == 1 then order[0]
    else
      var best := MaxKey(counts, order[..|order| - 1]);
      var next := order[|order| - 1];
      if counts[next] < counts[best] then best else next
  }

  /** `mostCommonTimeInterval(in:)`: the fullest bucket's key, or `fallback`
      (the stored `selectedTimeInterval`) when there are no times. */
  function MostCommonTimeInterval(xs: seq<int>, order: seq<int>, fallback: int): (r: int)
    requires Enumerates(order, Histogram(xs))
    ensures |xs| == 0 ==> r == fallback
    ensures 0 < |xs| ==> r in Histogram(xs) && r % BucketSeconds == 0
    ensures 0 < |xs| ==> forall k :: InBucket(xs, k) <= InBucket(xs, r)
  {
    var counts := Histogram(xs);
    if |xs| == 0 then fallback
    else
      assert BucketKey(xs[|xs| - 1]) in counts;
      assert 0 < |order|;
      MaxKeyOverAllKeys(counts, order);
      MaxKey(counts, order)
  }

  /** The scan keeps the last maximum: every key listed after the
      returned one has a strictly smaller count. */
  lemma {:induction false} MaxKeyIsLastMaximum(counts: map<int, nat>, order: seq<int>)
    requires 0 < |order|
    requires forall i :: 0 <= i < |order| ==> order[i] in counts
    ensures exists j :: 0 <= j < |order| && order[j] == MaxKey(counts, order) &&
              forall i :: j < i < |order| ==> counts[order[i]] < counts[MaxKey(counts, order)]
    decreases |order|
  {
    var r := MaxKey(counts, order);
    if |order| == 1 {
      assert order[0] == r;
    } else {
      var init, last := order[..|order| - 1], |order| - 1;
      MaxKeyIsLastMaximum(counts, init);
      var best := MaxKey(counts, init);
      var j :| 0 <= j < |init| && init[j] == best &&
               forall i :: j < i < |init| ==> counts[init[i]] < counts[best];
      if counts[order[last]] < counts[best] {
        assert order[j] == r;
        forall i | j < i < |order| ensures counts[order[i]] < counts[r] {
          if i < last {
            assert order[i] == init[i];
          }
        }
      } else {
        assert order[last] == r;
      }
    }
  }

  /** An enumeration visits every key, so the scan's maximum beats every key. */
  lemma MaxKeyOverAllKeys(counts: map<int, nat>, order: seq<int>)
    requires Enumerates(order, counts) && 0 < |order|
    ensures forall k :: k in counts ==> counts[k] <= counts[MaxKey(counts, order)]
  {
    forall k | k in counts
      ensures counts[k] <= counts[MaxKey(counts, order)]
    {
      var i :| 0 <= i < |order| && order[i] == k;
    }
  }

  /** The indices that `filter { abs($0 - c) < 600 }` keeps. */
  ghost function NearIndices(xs: seq<int>, c: int): set<int> {
    set i | 0 <= i < |xs| && Abs(xs[i] - c) < NearSeconds
  }

  /** The last time of `xs` joins the kept indices exactly when it is near. */
  lemma NearIndicesOfInit(xs: seq<int>, c: int)
    requires 0 < |xs|
    ensures var last := |xs| - 1;
            NearIndices(xs, c) == NearIndices(xs[..last], c) + (if Abs(xs[last] - c) < NearSeconds then {last} else {})
    ensures |xs| - 1 !in NearIndices(xs[..|xs| - 1], c)
  {
    var init, last := xs[..|xs| - 1], |xs| - 1;
    forall i
      ensures i in NearIndices(xs, c) <==>
              i in NearIndices(init, c) + (if Abs(xs[last] - c) < NearSeconds then {last} else {})
    {
      if 0 <= i < last {
        assert xs[i] == init[i];
      }
    }
  }

  /** How many of `xs` lie strictly within `NearSeconds` of `c`: the
      length of the filtered array, one per kept index. */
  function CountNear(xs: seq<int>, c: int): (n: nat)
    ensures n <= |xs|
    ensures n == |NearIndices(xs, c)|
    decreases |xs|
  {
    if |xs| == 0 then 0
    else
      NearIndicesOfInit(xs, c);
      CountNear(xs[..|xs| - 1], c) + (if Abs(xs[|xs| - 1] - c) < NearSeconds then 1 else 0)
  }

  /** `analyzeUserHabit` on the parsed log: the new value of
      `showingSmartReminderSuggestion`. It only ever switches the flag on. */
  function AnalyzeUserHabit(xs: seq<int>, order: seq<int>, fallback: int, showing: bool): (r: bool)
    requires Enumerates(order, Histogram(xs))
    ensures showing ==> r
    ensures r != showing ==> SuggestThreshold <= |xs|
  {
    var mode := MostCommonTimeInterval(xs, order, fallback);
    if SuggestThreshold <= CountNear(xs, mode) then true else showing
  }

  // ---- count conservation ----

  predicate Distinct(ks: seq<int>) {
    forall i, j :: 0 <= i < j < |ks| ==> ks[i] != ks[j]
  }

  /** The dictionary's counts added up in iteration order. */
  function SumCounts(counts: map<int, nat>, order: seq<int>): nat
    requires forall i :: 0 <= i < |order| ==> order[i] in counts
    decreases |order|
  {
    if |order| == 0 then 0 else counts[order[0]] + SumCounts(counts, order[1..])
  }

  /** Reference sum: the bucket counts of `xs` for the keys `ks`. */
  function SumInBuckets(xs: seq<int>, ks: seq<int>): nat
    decreases |ks|
  {
    if |ks| == 0 then 0 else InBucket(xs, ks[0]) + SumInBuckets(xs, ks[1..])
  }

  function Occurrences(ks: seq<int>, b: int): nat
    decreases |ks|
  {
    if |ks| == 0 then 0 else (if ks[0] == b then 1 else 0) + Occurrences(ks[1..], b)
  }

  lemma {:induction false} OccurrencesOfDistinct(ks: seq<int>, b: int)
    requires Distinct(ks)
    ensures Occurrences(ks, b) == (if b in ks then 1 else 0)
    decreases |ks|
  {
    if |ks| > 0 {
      OccurrencesOfDistinct(ks[1..], b);
      if ks[0] == b {
        assert b !in ks[1..] by {
          forall i | 0 <= i < |ks[1..]| ensures ks[1..][i] != b {
            assert ks[1..][i] == ks[i + 1];
          }
        }
      } else {
        assert b in ks <==> b in ks[1..] by {
          assert ks == [ks[0]] + ks[1..];
        }
      }
    }
  }

  lemma {:induction false} SumInBucketsEmpty(ks: seq<int>)
    ensures SumInBuckets([], ks) == 0
    decreases |ks|
  {
    if |ks| > 0 {
      SumInBucketsEmpty(ks[1..]);
    }
  }

  /** Appending `x` adds one to the sum once for every listing of `x`'s bucket. */
  lemma {:induction false} SumInBucketsAppend(xs: seq<int>, x: int, ks: seq<int>)
    ensures SumInBuckets(xs + [x], ks) == SumInBuckets(xs, ks) + Occurrences(ks, BucketKey(x))
    decreases |ks|
  {
    if |ks| > 0 {
      InBucketSnoc(xs, x, ks[0]);
      SumInBucketsAppend(xs, x, ks[1..]);
    }
  }

  /** When `ks` lists every occupied bucket once, the bucket counts add up
      to the number of times. */
  lemma {:induction false} BucketsPartitionTimes(xs: seq<int>, ks: seq<int>)
    requires Distinct(ks)
    requires forall i :: 0 <= i < |xs| ==> BucketKey(xs[i]) in ks
    ensures SumInBuckets(xs, ks) == |xs|
    decreases |xs|
  {
    if |xs| == 0 {
      SumInBucketsEmpty(ks);
    } else {
      var init, x := xs[..|xs| - 1], xs[|xs| - 1];
      assert xs == init + [x];
      BucketsPartitionTimes(init, ks);
      SumInBucketsAppend(init, x, ks);
      OccurrencesOfDistinct(ks, BucketKey(x));
    }
  }

  lemma {:induction false} SumCountsIsSumInBuckets(xs: seq<int>, order: seq<int>)
    requires forall i :: 0 <= i < |order| ==> order[i] in Histogram(xs)
    ensures SumCounts(Histogram(xs), order) == SumInBuckets(xs, order)
    decreases |order|
  {
    if |order| > 0 {
      assert CountOf(Histogram(xs), order[0]) == InBucket(xs, order[0]);
      SumCountsIsSumInBuckets(xs, order[1..]);
    }
  }

  /** Count conservation: the dictionary's counts, summed over its keys,
      equal the number of times folded in; no time is lost or counted twice. */
  lemma HistogramConservesCount(xs: seq<int>, order: seq<int>)
    requires Enumerates(order, Histogram(xs)) && Distinct(order)
    ensures SumCounts(Histogram(xs), order) == |xs|
  {
    var h := Histogram(xs);
    forall i | 0 <= i < |xs| ensures BucketKey(xs[i]) in order {
      InBucketOfMember(xs, i);
      assert BucketKey(xs[i]) in h;
    }
    SumCountsIsSumInBuckets(xs, order);
    BucketsPartitionTimes(xs, order);
  }

  lemma {:induction false} InBucketOfMember(xs: seq<int>, i: nat)
    requires i < |xs|
    ensures 0 < InBucket(xs, BucketKey(xs[i]))
    decreases |xs|
  {
    InBucketOfInit(xs, BucketKey(xs[i]));
    if i < |xs| - 1 {
      InBucketOfMember(xs[..|xs| - 1], i);
    }
  }

  /** Appending a time increments its own bucket by one and no other. */
  lemma HistogramAppend(xs: seq<int>, x: int)
    ensures CountOf(Histogram(xs + [x]), BucketKey(x)) == CountOf(Histogram(xs), BucketKey(x)) + 1
    ensures forall k :: k != BucketKey(x) ==> CountOf(Histogram(xs + [x]), k) == CountOf(Histogram(xs), k)
  {
    forall k ensures InBucket(xs + [x], k) == InBucket(xs, k) + (if BucketKey(x) == k then 1 else 0) {
      InBucketSnoc(xs, x, k);
    }
  }

  // ---- threshold and bucket width ----

  /** Every time in bucket `k` lies within `NearSeconds` of `k`. */
  lemma {:induction false} BucketInsideNearWindow(xs: seq<int>, k: int)
    ensures InBucket(xs, k) <= CountNear(xs, k)
    decreases |xs|
  {
    if |xs| > 0 {
      InBucketOfInit(xs, k);
      BucketInsideNearWindow(xs[..|xs| - 1], k);
    }
  }

  /** If the picked bucket itself holds three or more times, the
      suggestion is raised. */
  lemma ModalBucketRaisesSuggestion(xs: seq<int>, order: seq<int>, fallback: int, showing: bool)
    requires Enumerates(order, Histogram(xs))
    requires SuggestThreshold <= InBucket(xs, MostCommonTimeInterval(xs, order, fallback))
    ensures AnalyzeUserHabit(xs, order, fallback, showing)
  {
    BucketInsideNearWindow(xs, MostCommonTimeInterval(xs, order, fallback));
  }

  /** The flag is raised exactly when it was already set or the filter at
      SettingView.swift:115 keeps at least three logged times. */
  lemma SuggestionIff(xs: seq<int>, order: seq<int>, fallback: int, showing: bool)
    requires Enumerates(order, Histogram(xs))
    ensures AnalyzeUserHabit(xs, order, fallback, showing) <==>
              showing || SuggestThreshold <= |NearIndices(xs, MostCommonTimeInterval(xs, order, fallback))|
  {
  }

  predicate AllNonNegative(xs: seq<int>) {
    forall i :: 0 <= i < |xs| ==> 0 <= xs[i]
  }

  /** A non-negative time within `NearSeconds` of a bucket key `k >= 0`
      lies in bucket `k` or in the one just below it. */
  lemma NearTimeBucket(x: int, k: int)
    requires 0 <= x && 0 <= k && k % BucketSeconds == 0
    requires Abs(x - k) < NearSeconds
    ensures BucketKey(x) == k || BucketKey(x) == k - BucketSeconds
  {
    var q := k / BucketSeconds;
    assert k == q * BucketSeconds;
    if x < k {
      assert x % BucketSeconds == x - (q - 1) * BucketSeconds;
    } else {
      assert x % BucketSeconds == x - q * BucketSeconds;
    }
  }

  /** For non-negative times and a bucket key `k >= 0`, a time near `k`
      falls in bucket `k` or in the one just below it. */
  lemma {:induction false} NearWindowSpansTwoBuckets(xs: seq<int>, k: int)
    requires AllNonNegative(xs)
    requires 0 <= k && k % BucketSeconds == 0
    ensures CountNear(xs, k) <= InBucket(xs, k) + InBucket(xs, k - BucketSeconds)
    decreases |xs|
  {
    if |xs| > 0 {
      var init, x := xs[..|xs| - 1], xs[|xs| - 1];
      assert CountNear(xs, k) == CountNear(init, k) + (if Abs(x - k) < NearSeconds then 1 else 0);
      InBucketOfInit(xs, k);
      InBucketOfInit(xs, k - BucketSeconds);
      NearWindowSpansTwoBuckets(init, k);
      if Abs(x - k) < NearSeconds {
        NearTimeBucket(x, k);
      }
    }
  }

  /** With non-negative times, a raised suggestion means at least two
      times share the picked bucket: one bucket alone never triggers it
      from a single entry. */
  lemma SuggestionNeedsTwoInModalBucket(xs: seq<int>, order: seq<int>, fallback: int)
    requires AllNonNegative(xs)
    requires Enumerates(order, Histogram(xs))
    requires AnalyzeUserHabit(xs, order, fallback, false)
    ensures 2 <= InBucket(xs, MostCommonTimeInterval(xs, order, fallback))
  {
    var mode := MostCommonTimeInterval(xs, order, fallback);
    assert 0 < |xs|;
    assert 0 <= mode by {
      assert mode in Histogram(xs);
      assert 0 < InBucket(xs, mode);
      BucketOfNonNegative(xs, mode);
    }
    NearWindowSpansTwoBuckets(xs, mode);
  }

  /** Only non-negative keys are occupied by non-negative times. */
  lemma BucketOfNonNegative(xs: seq<int>, k: int)
    requires AllNonNegative(xs)
    requires 0 < InBucket(xs, k)
    ensures 0 <= k
  {
    var i :| 0 <= i < |xs| && BucketKey(xs[i]) == k;
  }

  // ---- the worked example ----

  lemma HistogramSnoc(xs: seq<int>, x: int)
    ensures Histogram(xs + [x]) == Bump(Histogram(xs), BucketKey(x))
  {
    var after, before := Histogram(xs + [x]), Bump(Histogram(xs), BucketKey(x));
    forall k ensures (k in after <==> k in before) && (k in after ==> after[k] == before[k]) {
      InBucketSnoc(xs, x, k);
      assert CountOf(after, k) == CountOf(before, k);
    }
    assert after.Keys == before.Keys;
  }

  lemma ExamplePrefix2()
    ensures Histogram([0, 100]) == map[0 := 2]
  {
    calc {
      Histogram([0, 100]);
      { assert [0, 100] == ([] + [0]) + [100]; }
      Histogram(([] + [0]) + [100]);
      { HistogramSnoc([] + [0], 100); HistogramSnoc([], 0); }
      Bump(Bump(Histogram([]), BucketKey(0)), BucketKey(100));
      { assert BucketKey(0) == 0 && BucketKey(100) == 0; }
      Bump(Bump(map[], 0), 0);
      map[0 := 2];
    }
  }

  lemma ExamplePrefix3()
    ensures Histogram([0, 100, 605]) == map[0 := 2, 600 := 1]
  {
    calc {
      Histogram([0, 100, 605]);
      { assert [0, 100, 605] == [0, 100] + [605]; }
      Histogram([0, 100] + [605]);
      { HistogramSnoc([0, 100], 605); }
      Bump(Histogram([0, 100]), BucketKey(605));
      { ExamplePrefix2(); assert BucketKey(605) == 600; }
      Bump(map[0 := 2], 600);
      map[0 := 2, 600 := 1];
    }
  }

  lemma ExamplePrefix4()
    ensures Histogram([0, 100, 605, 1205]) == map[0 := 2, 600 := 1, 1200 := 1]
  {
    calc {
      Histogram([0, 100, 605, 1205]);
      { assert [0, 100, 605, 1205] == [0, 100, 605] + [1205]; }
      Histogram([0, 100, 605] + [1205]);
      { HistogramSnoc([0, 100, 605], 1205); }
      Bump(Histogram([0, 100, 605]), BucketKey(1205));
      { ExamplePrefix3(); assert BucketKey(1205) == 1200; }
      Bump(map[0 := 2, 600 := 1], 1200);
      map[0 := 2, 600 := 1, 1200 := 1];
    }
  }

  /** Times 0, 100, 605, 1205 and 1210 fill buckets 0, 600 and 1200 with
      two, one and two entries. */
  lemma ExampleHistogram()
    ensures Histogram([0, 100, 605, 1205, 1210]) == map[0 := 2, 600 := 1, 1200 := 2]
  {
    calc {
      Histogram([0, 100, 605, 1205, 1210]);
      { assert [0, 100, 605, 1205, 1210] == [0, 100, 605, 1205] + [1210]; }
      Histogram([0, 100, 605, 1205] + [1210]);
      { HistogramSnoc([0, 100, 605, 1205], 1210); }
      Bump(Histogram([0, 100, 605, 1205]), BucketKey(1210));
      { ExamplePrefix4(); assert BucketKey(1210) == 1200; }
      Bump(map[0 := 2, 600 := 1, 1200 := 1], 1200);
      map[0 := 2, 600 := 1, 1200 := 2];
    }
  }

  /** The tie between buckets 0 and 1200 is settled by dictionary order
      alone: whatever the order, one of the two is returned. */
  lemma ExampleTieDependsOnOrder(order: seq<int>)
    requires Enumerates(order, Histogram([0, 100, 605, 1205, 1210]))
    ensures MostCommonTimeInterval([0, 100, 605, 1205, 1210], order, 7) in {0, 1200}
  {
    ExampleHistogram();
    var xs := [0, 100, 605, 1205, 1210];
    var h := Histogram(xs);
    var m := MostCommonTimeInterval(xs, order, 7);
    assert InBucket(xs, 0) <= InBucket(xs, m);
    assert CountOf(h, 0) == 2;
  }

  /** The scan returns `order[j]` exactly when no listed key has a larger
      count and every key listed after `order[j]` has a smaller one: ties go
      to whichever key the dictionary lists last. */
  lemma LastListedMaximumWins(counts: map<int, nat>, order: seq<int>, j: nat)
    requires j < |order|
    requires forall i :: 0 <= i < |order| ==> order[i] in counts
    requires forall i :: 0 <= i < |order| ==> counts[order[i]] <= counts[order[j]]
    requires forall i :: j < i < |order| ==> counts[order[i]] < counts[order[j]]
    ensures MaxKey(counts, order) == order[j]
  {
    var r := MaxKey(counts, order);
    MaxKeyIsLastMaximum(counts, order);
    var j' :| 0 <= j' < |order| && order[j'] == r &&
              forall i :: j' < i < |order| ==> counts[order[i]] < counts[r];
  }

  /** Listing the buckets in ascending order returns 1200, the later of
      the two tied buckets. */
  lemma ExampleAscendingOrder()
    ensures Enumerates([0, 600, 1200], Histogram([0, 100, 605, 1205, 1210]))
    ensures MostCommonTimeInterval([0, 100, 605, 1205, 1210], [0, 600, 1200], 7) == 1200
  {
    ExampleHistogram();
    LastListedMaximumWins(map[0 := 2, 600 := 1, 1200 := 2], [0, 600, 1200], 2);
  }

  /** Listing bucket 1200 first returns 0, the tied bucket listed after it. */
  lemma ExampleTwelveHundredFirst()
    ensures Enumerates([1200, 0, 600], Histogram([0, 100, 605, 1205, 1210]))
    ensures MostCommonTimeInterval([0, 100, 605, 1205, 1210], [1200, 0, 600], 7) == 0
  {
    ExampleHistogram();
    LastListedMaximumWins(map[0 := 2, 600 := 1, 1200 := 2], [1200, 0, 600], 1);
  }
}
