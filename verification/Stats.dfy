/** The statistics one learner keeps, and what they mean for the samples it was fed. */
module Stats {
  import opened Int64

  datatype Stats = Stats(last: int64, cumul: int64, weight: nat, min: int64, max: int64, everCompleted: bool)

  /** A zeroed learner, as Go's `new` makes it. */
  const FRESH := Stats(0, 0, 0, 0, 0, false)

  /** `latencyLearner.after2`. */
  function After2(s: Stats, dur: int64): Stats {
    Stats(
      dur,
      Wrap(s.cumul + dur),
      s.weight + 1,
      if s.everCompleted then (if dur < s.min then dur else s.min) else dur,
      if s.everCompleted then (if dur > s.max then dur else s.max) else dur,
      true)
  }

  /** A learner after the samples durs, in that order. */
  function StatsOf(durs: seq<int64>): Stats {
    if durs == [] then FRESH else After2(StatsOf(durs[..|durs| - 1]), durs[|durs| - 1])
  }

  /** `latencyLearner.mean`: -1 stands for "no samples". */
  function Mean(s: Stats): int64 {
    if s.weight > 0 then TruncDivShrinks(s.cumul, s.weight); TruncDiv(s.cumul, s.weight) else -1
  }

  function Sum(durs: seq<int64>): int {
    if durs == [] then 0 else Sum(durs[..|durs| - 1]) + durs[|durs| - 1]
  }

  ghost predicate IsMin(m: int64, durs: seq<int64>) {
    m in durs && forall i :: 0 <= i < |durs| ==> m <= durs[i]
  }

  ghost predicate IsMax(m: int64, durs: seq<int64>) {
    m in durs && forall i :: 0 <= i < |durs| ==> durs[i] <= m
  }

  /** What the running fields mean: no history but the samples themselves appears on the right. */
  lemma {:induction false} StatsMeaning(durs: seq<int64>)
    ensures var s := StatsOf(durs);
            && s.weight == |durs|
            && (s.everCompleted <==> durs != [])
            && s.cumul == Wrap(Sum(durs))
            && (durs != [] ==> s.last == durs[|durs| - 1] && IsMin(s.min, durs) && IsMax(s.max, durs))
  {
    if durs != [] {
      var n := |durs| - 1;
      StatsMeaning(durs[..n]);
      WrapAbsorbs(Sum(durs[..n]), durs[n]);
      ExtremeStep(durs, StatsOf(durs[..n]));
    }
  }

  lemma ExtremeStep(durs: seq<int64>, s: Stats)
    requires durs != []
    requires var h := durs[..|durs| - 1];
             (s.everCompleted <==> h != []) && (h != [] ==> IsMin(s.min, h) && IsMax(s.max, h))
    ensures IsMin(After2(s, durs[|durs| - 1]).min, durs) && IsMax(After2(s, durs[|durs| - 1]).max, durs)
  {
  }

  /** Overflow on the way is harmless: the kept sum is exact exactly when the true sum is an int64. */
  lemma {:induction false} CumulExact(durs: seq<int64>)
    ensures (Sum(durs) - StatsOf(durs).cumul) % TWO_64 == 0
    ensures StatsOf(durs).cumul == Sum(durs) <==> Fits(Sum(durs))
  {
    WrapCongruent(Sum(durs));
    StatsMeaning(durs);
  }

  lemma {:induction false} SumBounds(durs: seq<int64>, lo: int, hi: int)
    requires forall i :: 0 <= i < |durs| ==> lo <= durs[i] <= hi
    ensures |durs| * lo <= Sum(durs) <= |durs| * hi
  {
    if durs != [] {
      var n := |durs| - 1;
      SumBounds(durs[..n], lo, hi);
      assert |durs| * lo == n * lo + lo && |durs| * hi == n * hi + hi;
    }
  }

  /** The order of the five figures of a learner, for samples of any sign. */
  lemma StatsOrdered(durs: seq<int64>)
    requires Fits(Sum(durs))
    ensures var s := StatsOf(durs);
            && (s.everCompleted <==> s.weight > 0)
            && (s.everCompleted ==>
              && s.min <= s.last <= s.max
              && s.weight * s.min <= s.cumul <= s.weight * s.max
              && s.min <= Mean(s) <= s.max)
  {
    StatsMeaning(durs);
    var s := StatsOf(durs);
    if durs != [] {
      SumBounds(durs, s.min, s.max);
      TruncDivBounds(s.cumul, s.weight, s.min, s.max);
    }
  }

  /** When the mean stays within the range of its samples, whatever their sum: the sum that is stored, wrapped, lies
      between weight times the minimum and weight times the maximum, give or take the truncation. */
  lemma MeanInRange(durs: seq<int64>)
    requires durs != []
    ensures var s, n, sum := StatsOf(durs), |durs|, Wrap(Sum(durs));
            && (s.min <= Mean(s) <==> if s.min > 0 then n * s.min <= sum else n * (s.min - 1) < sum)
            && (Mean(s) <= s.max <==> if s.max < 0 then sum <= n * s.max else sum < n * (s.max + 1))
  {
    StatsMeaning(durs);
    var s := StatsOf(durs);
    TruncDivExact(s.cumul, s.weight, s.min);
    TruncDivExact(s.cumul, s.weight, s.max);
  }

  /** Overflow can take the mean out of that range; but not every overflow does. */
  lemma MeanOutOfRange()
    ensures var s := StatsOf([MAX_INT64, MAX_INT64]); Mean(s) < s.min
    ensures var durs := [MAX_INT64, MAX_INT64, -5]; var s := StatsOf(durs);
            !Fits(Sum(durs)) && s.min <= Mean(s) <= s.max
  {
    var one: seq<int64>, two: seq<int64> := [MAX_INT64], [MAX_INT64, MAX_INT64];
    var three: seq<int64> := [MAX_INT64, MAX_INT64, -5];
    assert one[..0] == [] && two[..1] == one && three[..2] == two;
    assert StatsOf(one) == After2(FRESH, MAX_INT64) && Sum(one) == MAX_INT64;
    assert StatsOf(two) == After2(StatsOf(one), MAX_INT64) && Sum(two) == MAX_INT64 + MAX_INT64;
    assert StatsOf(three) == After2(StatsOf(two), -5) && Sum(three) == MAX_INT64 + MAX_INT64 - 5;
    assert StatsOf(two).cumul == -2;
    assert StatsOf(three).cumul == -7;
  }

  /** Everything except `last` depends on the samples as a bag. */
  lemma {:induction false} SumOfBag(a: seq<int64>, b: seq<int64>)
    requires multiset(a) == multiset(b)
    ensures Sum(a) == Sum(b)
  {
    if a == [] {
      assert |multiset(b)| == 0;
    } else {
      var x := a[|a| - 1];
      assert x in multiset(b);
      var i :| 0 <= i < |b| && b[i] == x;
      var rest := b[..i] + b[i + 1..];
      assert a == a[..|a| - 1] + [x];
      assert b == b[..i] + [x] + b[i + 1..];
      assert multiset(a[..|a| - 1]) == multiset(a) - multiset{x};
      assert multiset(rest) == multiset(b) - multiset{x};
      SumOfBag(a[..|a| - 1], rest);
      SumTake(b, i);
    }
  }

  lemma {:induction false} SumConcat(a: seq<int64>, b: seq<int64>)
    ensures Sum(a + b) == Sum(a) + Sum(b)
  {
    if b == [] {
      assert a + b == a;
    } else {
      SumConcat(a, b[..|b| - 1]);
      assert (a + b)[..|a + b| - 1] == a + b[..|b| - 1];
    }
  }

  lemma SumTake(b: seq<int64>, i: nat)
    requires i < |b|
    ensures Sum(b) == Sum(b[..i] + b[i + 1..]) + b[i]
  {
    SumConcat(b[..i + 1], b[i + 1..]);
    assert b[..i + 1] + b[i + 1..] == b;
    assert b[..i + 1][..i] == b[..i];
    SumConcat(b[..i], b[i + 1..]);
  }

  /** The figures of a learner that do not depend on the order of its samples. */
  predicate SameFigures(s: Stats, t: Stats) {
    && s.everCompleted == t.everCompleted
    && s.weight == t.weight
    && s.cumul == t.cumul
    && s.min == t.min
    && s.max == t.max
    && Mean(s) == Mean(t)
  }

  lemma {:induction false} OrderIrrelevant(a: seq<int64>, b: seq<int64>)
    requires multiset(a) == multiset(b)
    ensures SameFigures(StatsOf(a), StatsOf(b))
  {
    StatsMeaning(a);
    StatsMeaning(b);
    SumOfBag(a, b);
    assert |multiset(a)| == |a| && |multiset(b)| == |b|;
    if a == [] {
    } else {
      var s, t := StatsOf(a), StatsOf(b);
      assert s.min in multiset(b) && s.max in multiset(b);
      assert t.min in multiset(a) && t.max in multiset(a);
    }
  }
}
