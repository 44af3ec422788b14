/** What the server answers and writes: the reply to a values request and the rows of a report. */
module Reports {
  import opened Int64
  import opened Options
  import opened Stats
  import opened Aggregate
  import opened Builtins

  // ---- Replies ----

  /** `ReplyMsg`, without its constant type tag. */
  datatype Reply = Reply(
    name: string, everCompleted: bool, min: int64, last: int64, max: int64, mean: int64, cumul: int64, weight: int)

  function FiguresOf(name: string, s: Stats): Reply {
    Reply(name, s.everCompleted, s.min, s.last, s.max, Mean(s), s.cumul, s.weight)
  }

  /** `handle_msg_values`: -1 in every field when there is no such entry. */
  function Answer(st: State, key: string): Reply {
    if key in st.learners then FiguresOf(key, st.learners[key].stats)
    else Reply(key, false, -1, -1, -1, -1, -1, -1)
  }

  // ---- Rows ----

  /** The two exported switches that a report reads. */
  datatype Mode = Mode(subtract: bool, builtins: bool)

  datatype Cells = NoData | Cells(min: int64, last: int64, max: int64, mean: Option<int64>, weight: nat)

  datatype Row = Row(name: string, cells: Cells)

  /** `measure_overhead_estimate`, with -1 for "no estimate". */
  function OverheadEstimate(st: State): int64 {
    if OVERHEAD_SPAN in st.learners && st.learners[OVERHEAD_SPAN].stats.everCompleted
    then st.learners[OVERHEAD_SPAN].stats.min
    else -1
  }

  function OverheadFor(st: State, mode: Mode): int64 {
    if mode.subtract then OverheadEstimate(st) else -1
  }

  /** `overhead_comp`, including the wrap-around of the subtraction. */
  function OverheadComp(metric: int64, overhead: int64, subtract: bool): int64 {
    if subtract then
      var m := Wrap(metric - overhead);
      if m < 0 then 0 else m
    else
      metric
  }

  /** `latencyLearner.report`, as figures. */
  function RowOf(name: string, s: Stats, overhead: int64, subtract: bool): Row {
    Row(name,
        if !s.everCompleted then NoData
        else Cells(
          if overhead != -1 && name != OVERHEAD_SPAN then OverheadComp(s.min, overhead, subtract) else s.min,
          OverheadComp(s.last, overhead, subtract),
          OverheadComp(s.max, overhead, subtract),
          if s.weight > 0 then Some(OverheadComp(Mean(s), overhead, subtract)) else None,
          s.weight))
  }

  predicate Skipped(span: string, mode: Mode) {
    !mode.builtins && "LL." <= span
  }

  /** The rows that the report loop has written after visiting the first n tracked spans. */
  function RowsUpTo(st: State, mode: Mode, n: nat): seq<Row>
    requires n <= |st.tracked|
  {
    if n == 0 then []
    else
      var span := st.tracked[n - 1];
      RowsUpTo(st, mode, n - 1) +
      if Skipped(span, mode) then [] else [RowOf(span, StatsAt(st, span), OverheadFor(st, mode), mode.subtract)]
  }

  function RowsOf(st: State, mode: Mode): seq<Row> {
    RowsUpTo(st, mode, |st.tracked|)
  }

  /** The keys that do not carry the prefix of the built-in spans, in their order. */
  function Unreserved(keys: seq<string>): (r: seq<string>)
    ensures forall k :: k in r <==> k in keys && !("LL." <= k)
  {
    if keys == [] then []
    else
      var n := |keys| - 1;
      Unreserved(keys[..n]) + if "LL." <= keys[n] then [] else [keys[n]]
  }

  /** The spans that a report lists: with built-ins all that are tracked, and else those of the application. */
  function Listed(tracked: seq<string>, mode: Mode): seq<string> {
    if mode.builtins then tracked else Unreserved(tracked)
  }

  /** The row of span k in a report on state st. */
  function RowFor(st: State, k: string, mode: Mode): Row {
    RowOf(k, StatsAt(st, k), OverheadFor(st, mode), mode.subtract)
  }

  /** The loop writes one row for each listed span, in index order, and no others. */
  lemma {:induction false} RowsListed(st: State, mode: Mode, n: nat)
    requires n <= |st.tracked|
    ensures var rows, keys := RowsUpTo(st, mode, n), Listed(st.tracked[..n], mode);
            |rows| == |keys| && forall i :: 0 <= i < |keys| ==> rows[i] == RowFor(st, keys[i], mode)
  {
    if n > 0 {
      RowsListed(st, mode, n - 1);
      assert st.tracked[..n] == st.tracked[..n - 1] + [st.tracked[n - 1]];
    }
  }

  /** A report has, with built-ins, one row for each tracked span; without them, one for each tracked span that does not
      begin with "LL."; in index order, each the row of its span. */
  lemma RowsPlaced(st: State, mode: Mode)
    ensures mode.builtins ==>
              && |RowsOf(st, mode)| == |st.tracked|
              && forall i :: 0 <= i < |st.tracked| ==> RowsOf(st, mode)[i] == RowFor(st, st.tracked[i], mode)
    ensures !mode.builtins ==>
              var rows, keys := RowsOf(st, mode), Unreserved(st.tracked);
              |rows| == |keys| && forall i :: 0 <= i < |keys| ==> rows[i] == RowFor(st, keys[i], mode)
  {
    RowsListed(st, mode, |st.tracked|);
    assert st.tracked[..|st.tracked|] == st.tracked;
  }

  // ---- Order within a row ----

  predicate InOrder(c: Cells) {
    c.Cells? && c.mean.Some? && c.min <= c.last <= c.max && c.min <= c.mean.value <= c.max
  }

  /** The subtraction leaves int64. */
  predicate Overflows(x: int64, o: int64) {
    !Fits(x - o)
  }

  /** The compensated figure is 0, by the clamp or, for a negative overhead, by overflow into the negatives. */
  predicate Vanishes(x: int64, o: int64) {
    x <= o || x - o > MAX_INT64
  }

  /** Compensated, x is not above y: told by the figures as they were before. */
  predicate StaysBelow(x: int64, y: int64, o: int64) {
    if o < 0 then Vanishes(x, o) || (!Overflows(y, o) && x <= y)
    else if Overflows(x, o) then Overflows(y, o) && x <= y
    else Overflows(y, o) || x <= o || x <= y
  }

  /** The same where x is a minimum: the sentinel -1 leaves it alone, and shifts y by one. */
  predicate MinStaysBelow(x: int64, y: int64, o: int64) {
    if o == -1 then x <= 0 || (y != MAX_INT64 && x <= y + 1) else StaysBelow(x, y, o)
  }

  lemma WrapDifference(x: int64, o: int64)
    ensures Wrap(x - o) ==
            if x - o < MIN_INT64 then x - o + TWO_64 else if x - o > MAX_INT64 then x - o - TWO_64 else x - o
  {
    assert Fits(x) && Fits(o);
  }

  /** When does compensation put two figures in order? */
  lemma PairOrder(x: int64, y: int64, o: int64)
    ensures OverheadComp(x, o, true) <= OverheadComp(y, o, true) <==> StaysBelow(x, y, o)
    ensures o == -1 ==> (x <= OverheadComp(y, o, true) <==> MinStaysBelow(x, y, o))
  {
    assert Fits(x) && Fits(y) && Fits(o);
    WrapDifference(x, o);
    WrapDifference(y, o);
  }

  // ---- When a row is in order ----

  /** An overhead keeps a row of n samples in order: all figures are so low that the subtraction wraps around; or none
      is, and each pair stays in order or is clamped to zero. */
  predicate KeptByOverhead(s: Stats, n: nat, sum: int64, o: int64) {
    var bottom := MIN_INT64 + o;
    if s.max < bottom then QuotientAtLeast(sum, n, s.min) && QuotientAtMost(sum, n, s.max)
    else
      && s.min >= bottom && QuotientAtLeast(sum, n, bottom)
      && (s.min <= o || QuotientAtLeast(sum, n, s.min))
      && QuotientAtMost(sum, n, if s.max <= o then o else s.max)
  }

  /** A negative overhead, other than the sentinel, does: no sample overflows when it is added; or one does, and all
      other figures are written as 0. */
  predicate KeptByNegative(s: Stats, n: nat, sum: int64, o: int64) {
    var top := MAX_INT64 + o;
    if s.max > top then
      && Vanishes(s.min, o) && Vanishes(s.last, o)
      && (QuotientAtMost(sum, n, o) || QuotientAtLeast(sum, n, top + 1))
    else
      && (s.min <= o || (QuotientAtLeast(sum, n, s.min) && QuotientAtMost(sum, n, top)))
      && (QuotientAtMost(sum, n, if s.max <= o then o else s.max) || QuotientAtLeast(sum, n, top + 1))
  }

  /** The sentinel -1 does, which leaves the minimum alone and shifts the other figures up by one. */
  predicate KeptBySentinel(s: Stats, n: nat, sum: int64) {
    if s.max == MAX_INT64 then
      && s.min <= 0 && Vanishes(s.last, -1)
      && (QuotientAtMost(sum, n, -1) || QuotientAtLeast(sum, n, MAX_INT64))
    else
      && (s.min <= 0 || (QuotientAtLeast(sum, n, s.min - 1) && QuotientAtMost(sum, n, MAX_INT64 - 1)))
      && (QuotientAtMost(sum, n, if s.max <= -1 then -1 else s.max) || QuotientAtLeast(sum, n, MAX_INT64))
  }

  /** When is a row in order? Any samples, any overhead: by their extremes, the last of them and the stored sum. */
  lemma RowOrderExact(name: string, durs: seq<int64>, o: int64, subtract: bool)
    requires name != OVERHEAD_SPAN && durs != []
    ensures var s, n, sum := StatsOf(durs), |durs|, Wrap(Sum(durs));
            InOrder(RowOf(name, s, o, subtract).cells) <==>
            if !subtract then QuotientAtLeast(sum, n, s.min) && QuotientAtMost(sum, n, s.max)
            else if o >= 0 then KeptByOverhead(s, n, sum, o)
            else if o == -1 then KeptBySentinel(s, n, sum)
            else KeptByNegative(s, n, sum, o)
  {
    var s := StatsOf(durs);
    StatsMeaning(durs);
    if !subtract {
      MeanInRange(durs);
    } else {
      PairOrder(s.min, s.last, o);
      PairOrder(s.last, s.max, o);
      PairOrder(s.min, Mean(s), o);
      PairOrder(Mean(s), s.max, o);
      if o >= 0 {
        OverheadOrder(s, o);
      } else if o == -1 {
        SentinelOrder(s);
      } else {
        NegativeOrder(s, o);
      }
    }
  }

  /** All four pairs of a row stay in order. */
  predicate PairsStay(s: Stats, o: int64) {
    && MinStaysBelow(s.min, s.last, o) && StaysBelow(s.last, s.max, o)
    && MinStaysBelow(s.min, Mean(s), o) && StaysBelow(Mean(s), s.max, o)
  }

  lemma OverheadOrder(s: Stats, o: int64)
    requires s.weight > 0 && s.min <= s.last <= s.max && o >= 0
    ensures PairsStay(s, o) <==> KeptByOverhead(s, s.weight, s.cumul, o)
  {
    TruncDivExact(s.cumul, s.weight, s.min);
    TruncDivExact(s.cumul, s.weight, s.max);
    TruncDivExact(s.cumul, s.weight, MIN_INT64 + o);
    TruncDivExact(s.cumul, s.weight, o);
    OverheadPairs(s, o, Mean(s));
  }

  lemma OverheadPairs(s: Stats, o: int64, mean: int64)
    requires s.min <= s.last <= s.max && o >= 0 && mean == Mean(s)
    ensures PairsStay(s, o) <==>
            var bottom := MIN_INT64 + o;
            if s.max < bottom then s.min <= mean <= s.max
            else
              && s.min >= bottom && mean >= bottom && (s.min <= o || s.min <= mean)
              && mean <= if s.max <= o then o else s.max
  {
    assert Fits(s.min) && Fits(s.last) && Fits(s.max) && Fits(mean) && Fits(o);
  }

  lemma NegativeOrder(s: Stats, o: int64)
    requires s.weight > 0 && s.min <= s.last <= s.max && o < -1
    ensures PairsStay(s, o) <==> KeptByNegative(s, s.weight, s.cumul, o)
  {
    TruncDivExact(s.cumul, s.weight, s.min);
    TruncDivExact(s.cumul, s.weight, s.max);
    TruncDivExact(s.cumul, s.weight, MAX_INT64 + o);
    TruncDivExact(s.cumul, s.weight, MAX_INT64 + o + 1);
    TruncDivExact(s.cumul, s.weight, o);
    NegativePairs(s, o, Mean(s));
  }

  lemma NegativePairs(s: Stats, o: int64, mean: int64)
    requires s.min <= s.last <= s.max && o < -1 && mean == Mean(s)
    ensures PairsStay(s, o) <==>
            var top := MAX_INT64 + o;
            if s.max > top then Vanishes(s.min, o) && Vanishes(s.last, o) && (mean <= o || mean >= top + 1)
            else
              && (s.min <= o || s.min <= mean <= top)
              && (mean <= (if s.max <= o then o else s.max) || mean >= top + 1)
  {
    assert Fits(s.min) && Fits(s.last) && Fits(s.max) && Fits(mean) && Fits(o);
  }

  lemma SentinelOrder(s: Stats)
    requires s.weight > 0 && s.min <= s.last <= s.max
    ensures PairsStay(s, -1) <==> KeptBySentinel(s, s.weight, s.cumul)
  {
    TruncDivExact(s.cumul, s.weight, s.min - 1);
    TruncDivExact(s.cumul, s.weight, s.max);
    TruncDivExact(s.cumul, s.weight, MAX_INT64 - 1);
    TruncDivExact(s.cumul, s.weight, MAX_INT64);
    TruncDivExact(s.cumul, s.weight, -1);
    SentinelPairs(s, Mean(s));
  }

  lemma SentinelPairs(s: Stats, mean: int64)
    requires s.min <= s.last <= s.max && mean == Mean(s)
    ensures PairsStay(s, -1) <==>
            if s.max == MAX_INT64 then s.min <= 0 && Vanishes(s.last, -1) && (mean <= -1 || mean >= MAX_INT64)
            else
              && (s.min <= 0 || s.min - 1 <= mean <= MAX_INT64 - 1)
              && (mean <= (if s.max <= -1 then -1 else s.max) || mean >= MAX_INT64)
  {
    assert Fits(s.min) && Fits(s.last) && Fits(s.max) && Fits(mean);
  }

  /** For clock readings that never run backwards little is left, whatever their sum: the mean must not have been taken
      too far down by overflow, and the sentinel must not meet the largest int64. */
  lemma RowOrderForDurations(name: string, durs: seq<int64>, o: int64, subtract: bool)
    requires name != OVERHEAD_SPAN && durs != [] && o >= -1 && NonNegative(durs)
    ensures var s, n, sum := StatsOf(durs), |durs|, Wrap(Sum(durs));
            InOrder(RowOf(name, s, o, subtract).cells) <==>
            if !subtract then QuotientAtLeast(sum, n, s.min)
            else if o >= 0 then
              QuotientAtLeast(sum, n, MIN_INT64 + o) && (s.min <= o || QuotientAtLeast(sum, n, s.min))
            else if MAX_INT64 in durs then s.last == MAX_INT64 && s.min == 0 && sum + n <= 0
            else s.min == 0 || QuotientAtLeast(sum, n, s.min - 1)
  {
    var s := StatsOf(durs);
    StatsMeaning(durs);
    RowOrderExact(name, durs, o, subtract);
    MeanBelowMax(durs);
    MaxIsLargest(durs, s.max);
    if subtract && o == -1 {
      SentinelForDurations(s, |durs|);
    } else {
      OverheadForDurations(s, |durs|, o);
    }
  }

  /** When besides the true sum fits, one corner is left: the sentinel against the largest int64. */
  lemma RowOrderWhenSumFits(name: string, durs: seq<int64>, o: int64, subtract: bool)
    requires name != OVERHEAD_SPAN && durs != [] && o >= -1 && NonNegative(durs) && Fits(Sum(durs))
    ensures InOrder(RowOf(name, StatsOf(durs), o, subtract).cells) <==> !(subtract && o == -1 && MAX_INT64 in durs)
  {
    var s := StatsOf(durs);
    StatsMeaning(durs);
    StatsOrdered(durs);
    SumBounds(durs, s.min, s.max);
    MulNonNegative(|durs|, s.min);
    RowOrderForDurations(name, durs, o, subtract);
    TruncDivExact(s.cumul, s.weight, s.min);
    TruncDivExact(s.cumul, s.weight, s.min - 1);
    TruncDivExact(s.cumul, s.weight, MIN_INT64 + o);
    assert Fits(o);
  }

  lemma OverheadForDurations(s: Stats, n: nat, o: int64)
    requires s.weight == n > 0 && 0 <= s.min <= s.max && Mean(s) <= s.max
    ensures QuotientAtMost(s.cumul, n, s.max)
    ensures o >= 0 ==>
            (KeptByOverhead(s, n, s.cumul, o) <==>
             QuotientAtLeast(s.cumul, n, MIN_INT64 + o) && (s.min <= o || QuotientAtLeast(s.cumul, n, s.min)))
  {
    TruncDivExact(s.cumul, n, s.max);
    TruncDivExact(s.cumul, n, o);
    assert Fits(s.min) && Fits(s.max) && Fits(o);
  }

  lemma SentinelForDurations(s: Stats, n: nat)
    requires s.weight == n > 0 && 0 <= s.min <= s.last <= s.max
    requires Mean(s) <= s.max && (n > 1 ==> Mean(s) < MAX_INT64) && (n == 1 ==> s.min == s.max)
    ensures KeptBySentinel(s, n, s.cumul) <==>
            if s.max == MAX_INT64 then s.last == MAX_INT64 && s.min == 0 && s.cumul + n <= 0
            else s.min == 0 || QuotientAtLeast(s.cumul, n, s.min - 1)
  {
    TruncDivExact(s.cumul, n, s.max);
    TruncDivExact(s.cumul, n, MAX_INT64 - 1);
    TruncDivExact(s.cumul, n, MAX_INT64);
    TruncDivExact(s.cumul, n, s.min - 1);
    assert Fits(s.min) && Fits(s.last) && Fits(s.max);
  }

  /** Overflow can only lower the mean of non-negative samples; so it never exceeds their maximum. */
  lemma MeanBelowMax(durs: seq<int64>)
    requires durs != [] && NonNegative(durs)
    ensures Mean(StatsOf(durs)) <= StatsOf(durs).max
    ensures |durs| > 1 ==> Mean(StatsOf(durs)) < MAX_INT64
    ensures |durs| == 1 ==> StatsOf(durs).min == StatsOf(durs).max
  {
    var s, n := StatsOf(durs), |durs|;
    StatsMeaning(durs);
    StoredSumBelow(durs, s.max);
    QuotientBelow(s.cumul, n, s.max);
    HalfAtMost(s.cumul, n);
  }

  lemma StoredSumBelow(durs: seq<int64>, m: int64)
    requires NonNegative(durs) && IsMax(m, durs)
    ensures Wrap(Sum(durs)) <= |durs| * m
  {
    SumBounds(durs, 0, m);
    assert |durs| * 0 == 0;
    WrapLoses(0, Sum(durs));
  }

  lemma QuotientBelow(a: int, n: nat, m: int)
    requires n > 0 && m >= 0 && a <= n * m
    ensures TruncDiv(a, n) <= m
  {
    TruncDivExact(a, n, m);
    assert n * (m + 1) == n * m + n;
  }

  /** A quotient by two or more lies in the middle half of int64. */
  lemma HalfAtMost(a: int64, n: nat)
    requires n > 0
    ensures n > 1 ==> MIN_INT64 <= 2 * TruncDiv(a, n) <= MAX_INT64
  {
    if n > 1 {
      var k := MAX_INT64 / 2;
      TruncDivExact(a, n, k);
      TruncDivExact(a, n, -k - 1);
      assert Fits(a);
      MulNonNegative(n - 2, k + 1);
      assert n * (k + 1) == 2 * (k + 1) + (n - 2) * (k + 1);
      assert n * (-k - 2) == -(n * (k + 2)) && n * (k + 2) == n * (k + 1) + n;
    }
  }

  lemma MaxIsLargest(durs: seq<int64>, m: int64)
    requires IsMax(m, durs)
    ensures MAX_INT64 in durs <==> m == MAX_INT64
  {
    if MAX_INT64 in durs {
      var i :| 0 <= i < |durs| && durs[i] == MAX_INT64;
      assert Fits(m);
    }
  }

  // ---- What a row says ----

  /** Without subtraction a row shows the figures as they are; without samples it shows none, in any mode. */
  lemma PlainRow(name: string, durs: seq<int64>, o: int64, subtract: bool)
    ensures var row := RowOf(name, StatsOf(durs), o, subtract);
            && row.name == name && (row.cells.NoData? <==> durs == [])
            && (durs != [] ==> row.cells.weight == |durs|)
            && (durs != [] && !subtract ==>
                && IsMin(row.cells.min, durs) && IsMax(row.cells.max, durs) && row.cells.last == durs[|durs| - 1]
                && row.cells.mean == Some(TruncDiv(Wrap(Sum(durs)), |durs|)))
  {
    StatsMeaning(durs);
  }

  // ---- What compensation means ----

  /** A duration with the overhead taken out, never below zero. */
  function Clamped(d: int64, o: int64): int64
    requires o >= 0 && d >= 0
  {
    assert Fits(d);
    if d < o then 0 else d - o
  }

  predicate NonNegative(durs: seq<int64>) {
    forall i :: 0 <= i < |durs| ==> durs[i] >= 0
  }

  function Fed(durs: seq<int64>, o: int64): (fed: seq<int64>)
    requires o >= 0 && NonNegative(durs)
    ensures |fed| == |durs|
    ensures forall i :: 0 <= i < |durs| ==> fed[i] == Clamped(durs[i], o)
  {
    if durs == [] then [] else Fed(durs[..|durs| - 1], o) + [Clamped(durs[|durs| - 1], o)]
  }

  lemma ClampedIs(d: int64, o: int64)
    requires o >= 0 && d >= 0
    ensures OverheadComp(d, o, true) == Clamped(d, o)
  {
    assert Fits(d) && Fits(o);
    WrapDifference(d, o);
  }

  lemma {:induction false} FedSum(durs: seq<int64>, o: int64)
    requires o >= 0 && NonNegative(durs)
    ensures 0 <= Sum(Fed(durs, o)) <= Sum(durs)
    ensures Sum(Fed(durs, o)) >= Sum(durs) - |durs| * o
    ensures (forall i :: 0 <= i < |durs| ==> durs[i] >= o) ==> Sum(Fed(durs, o)) == Sum(durs) - |durs| * o
  {
    if durs != [] {
      var n := |durs| - 1;
      FedSum(durs[..n], o);
      SumLast(Fed(durs[..n], o), Clamped(durs[n], o));
      AddOne(n, o);
    }
  }

  lemma AddOne(n: nat, o: int)
    ensures (n + 1) * o == n * o + o
  {
  }

  lemma SumLast(durs: seq<int64>, d: int64)
    ensures Sum(durs + [d]) == Sum(durs) + d
  {
  }

  lemma FedMin(durs: seq<int64>, o: int64, m: int64, f: int64)
    requires o >= 0 && NonNegative(durs) && IsMin(m, durs) && IsMin(f, Fed(durs, o))
    ensures f == OverheadComp(m, o, true)
  {
    var fed := Fed(durs, o);
    var i :| 0 <= i < |durs| && durs[i] == m;
    var j :| 0 <= j < |fed| && fed[j] == f;
    assert f <= fed[i] && m <= durs[j];
    ClampedIs(m, o);
  }

  lemma FedMax(durs: seq<int64>, o: int64, m: int64, f: int64)
    requires o >= 0 && NonNegative(durs) && IsMax(m, durs) && IsMax(f, Fed(durs, o))
    ensures f == OverheadComp(m, o, true)
  {
    var fed := Fed(durs, o);
    var i :| 0 <= i < |durs| && durs[i] == m;
    var j :| 0 <= j < |fed| && fed[j] == f;
    assert f >= fed[i] && m >= durs[j];
    ClampedIs(m, o);
  }

  /** A compensated row shows the minimum, last and maximum of a learner that had been fed samples without the
      overhead in them. While the true sum fits, its mean never exceeds that learner's, and equals it when no sample was
      below the overhead. */
  lemma CompensationMeaning(name: string, durs: seq<int64>, o: int64)
    requires name != OVERHEAD_SPAN && durs != [] && o >= 0 && NonNegative(durs)
    ensures var c, f := RowOf(name, StatsOf(durs), o, true).cells, StatsOf(Fed(durs, o));
            && c.Cells? && c.mean.Some?
            && c.min == f.min && c.last == f.last && c.max == f.max && c.weight == f.weight
            && (Fits(Sum(durs)) ==> c.mean.value <= Mean(f))
            && (Fits(Sum(durs)) && (forall i :: 0 <= i < |durs| ==> durs[i] >= o) ==> c.mean.value == Mean(f))
  {
    var fed, s, f := Fed(durs, o), StatsOf(durs), StatsOf(Fed(durs, o));
    StatsMeaning(durs);
    StatsMeaning(fed);
    FedMin(durs, o, s.min, f.min);
    FedMax(durs, o, s.max, f.max);
    ClampedIs(durs[|durs| - 1], o);
    if Fits(Sum(durs)) {
      FedSum(durs, o);
      CompensatedMean(Sum(durs), Sum(fed), |durs|, Mean(s), o);
    }
  }

  /** The quotient of the stored sum is so far below zero that subtracting the overhead wraps around. */
  predicate Underflows(sum: int64, n: nat, o: int64) {
    QuotientAtMost(sum, n, MIN_INT64 + o - 1)
  }

  /** The two means compared for any sums: the row's mean never exceeds that of the learner fed without the overhead,
      unless that learner's sum has wrapped to a negative mean, or the subtraction itself wraps around. And they are
      equal just when, besides, what clamping and wrapping add to the sum is lost in the division. */
  lemma CompensatedMeanExact(name: string, durs: seq<int64>, o: int64)
    requires name != OVERHEAD_SPAN && durs != [] && o >= 0 && NonNegative(durs)
    ensures var c, n := RowOf(name, StatsOf(durs), o, true).cells, |durs|;
            var mean, sum, fedSum := Mean(StatsOf(Fed(durs, o))), Wrap(Sum(durs)), Wrap(Sum(Fed(durs, o)));
            && c.Cells? && c.mean.Some?
            && (c.mean.value <= mean <==> fedSum + n > 0 && !Underflows(sum, n, o))
            && (c.mean.value == mean <==>
                && fedSum + n > 0 && !Underflows(sum, n, o)
                && (fedSum < n || fedSum + n * o - sum <= fedSum % n))
  {
    MeanTells(durs);
    MeanTells(Fed(durs, o));
    FedWrapped(durs, o);
    ComparedMeans(Wrap(Sum(durs)), Wrap(Sum(Fed(durs, o))), |durs|, o, Mean(StatsOf(durs)));
  }

  /** Wrapped or not, the samples have at most n times the overhead more than what is left of them. */
  lemma FedWrapped(durs: seq<int64>, o: int64)
    requires durs != [] && o >= 0 && NonNegative(durs)
    ensures Wrap(Sum(durs)) <= Wrap(Sum(Fed(durs, o))) + |durs| * o
    ensures |durs| == 1 ==> Wrap(Sum(durs)) >= 0
  {
    FedSum(durs, o);
    WrapLoses(Sum(Fed(durs, o)), Sum(durs));
    if |durs| == 1 {
      assert Sum(durs) == durs[0] by {
        assert durs[..0] == [];
      }
    }
  }

  lemma MeanTells(durs: seq<int64>)
    requires durs != []
    ensures StatsOf(durs).everCompleted && StatsOf(durs).weight == |durs|
    ensures Mean(StatsOf(durs)) == TruncDiv(Wrap(Sum(durs)), |durs|)
  {
    StatsMeaning(durs);
  }

  lemma ComparedMeans(sum: int64, fedSum: int64, n: nat, o: int64, mean: int64)
    requires n > 0 && o >= 0 && mean == TruncDiv(sum, n)
    requires sum <= fedSum + n * o && (n == 1 ==> sum >= 0)
    ensures var shown, fed, fits := OverheadComp(mean, o, true), TruncDiv(fedSum, n),
                                    fedSum + n > 0 && !Underflows(sum, n, o);
            && (shown <= fed <==> fits)
            && (shown == fed <==> fits && (fedSum < n || fedSum + n * o - sum <= fedSum % n))
  {
    var fed := TruncDiv(fedSum, n);
    TruncDivExact(sum, n, MIN_INT64 + o - 1);
    TruncDivExact(fedSum, n, 0);
    WrapDifference(mean, o);
    HalfAtMost(sum, n);
    HalfAtMost(fedSum, n);
    assert Fits(mean) && Fits(fedSum) && Fits(o);
    if fedSum + n > 0 && !Underflows(sum, n, o) {
      QuotientsApart(sum, fedSum, n, o);
    }
  }

  /** The division loses less than one overhead more on either side. */
  lemma QuotientsApart(sum: int64, fedSum: int64, n: nat, o: int64)
    requires n > 0 && o >= 0 && fedSum + n > 0 && sum <= fedSum + n * o
    ensures 0 <= TruncDiv(fedSum, n) && TruncDiv(sum, n) <= TruncDiv(fedSum, n) + o
    ensures fedSum < n <==> TruncDiv(fedSum, n) == 0
    ensures fedSum >= n ==> (TruncDiv(sum, n) == TruncDiv(fedSum, n) + o <==> fedSum + n * o - sum <= fedSum % n)
  {
    var fed := TruncDiv(fedSum, n);
    TruncDivExact(fedSum, n, 0);
    TruncDivExact(fedSum, n, fed);
    TruncDivExact(sum, n, fed + o);
    assert n * (fed + o + 1) == n * (fed + 1) + n * o;
    assert n * (fed + o) == n * fed + n * o;
    if fedSum >= n {
      assert fedSum == n * fed + fedSum % n;
    }
  }

  /** Such sums exist: four samples of 2^62 with an overhead of 1 show a mean of 0, and fed without it they have -1. */
  lemma CompensatedMeanCanExceed(name: string)
    requires name != OVERHEAD_SPAN
    ensures var q: int64 := 0x4000_0000_0000_0000;
            var c := RowOf(name, StatsOf([q, q, q, q]), 1, true).cells;
            c.Cells? && c.mean == Some(0) && Mean(StatsOf(Fed([q, q, q, q], 1))) == -1
  {
    var q: int64 := 0x4000_0000_0000_0000;
    var r: int64 := q - 1;
    var durs, fed := [q, q, q, q], [r, r, r, r];
    FourMean(q);
    FourMean(r);
    assert Fed(durs, 1) == fed;
    MeanTells(durs);
    assert Wrap(4 * q) == 0 && Wrap(4 * r) == -4;
    assert OverheadComp(0, 1, true) == 0;
  }

  lemma FourMean(q: int64)
    ensures Mean(StatsOf([q, q, q, q])) == TruncDiv(Wrap(4 * q), 4)
  {
    FourSum(q);
    MeanTells([q, q, q, q]);
  }

  lemma FourSum(q: int64)
    ensures Sum([q, q, q, q]) == 4 * q
  {
    assert [q, q, q, q] == [q] + [q] + [q] + [q] && [q][..0] == [];
    SumLast([q] + [q] + [q], q);
    SumLast([q] + [q], q);
    SumLast([q], q);
  }

  lemma CompensatedMean(sum: int, fedSum: int, n: nat, mean: int64, o: int64)
    requires n > 0 && o >= 0 && 0 <= fedSum <= sum && fedSum >= sum - n * o
    requires mean == TruncDiv(sum, n)
    ensures OverheadComp(mean, o, true) <= TruncDiv(fedSum, n)
    ensures fedSum == sum - n * o ==> OverheadComp(mean, o, true) == TruncDiv(fedSum, n)
  {
    TruncDivShrinks(sum, n);
    TruncDivShrinks(fedSum, n);
    ClampedIs(mean, o);
    if sum - n * o >= 0 {
      TruncDivShift(sum, n, o);
      TruncDivMonotone(sum - n * o, fedSum, n);
    } else {
      TruncDivBelow(sum, n, o);
    }
  }

  lemma TruncDivBelow(a: int, n: int, k: int)
    requires n > 0 && 0 <= a < n * k
    ensures TruncDiv(a, n) < k
  {
  }

  // ---- The row of the overhead span itself ----

  /** The estimate is the smallest accepted sample of LL.no-op, or the sentinel. */
  lemma OverheadTells(spans: seq<string>, hist: seq<Sample>)
    ensures var durs := Contributions(spans, hist, OVERHEAD_SPAN);
            OverheadEstimate(After(spans, hist)) == if durs == [] then -1 else StatsOf(durs).min
  {
    StatsAfter(spans, hist, OVERHEAD_SPAN);
    StatsMeaning(Contributions(spans, hist, OVERHEAD_SPAN));
  }

  /** The row of LL.no-op: its minimum is written as it is, and the clamp never touches its last and its maximum, nor
      its mean unless an overflow took that below the minimum. So the row is in order exactly when neither last nor mean
      is below twice the minimum, and the mean not above the maximum; or a negative mean meets a minimum of zero. */
  lemma OverheadRow(spans: seq<string>, hist: seq<Sample>, mode: Mode)
    requires mode.subtract
    requires var durs := Contributions(spans, hist, OVERHEAD_SPAN); durs != [] && StatsOf(durs).min >= 0
    ensures var st, s := After(spans, hist), StatsOf(Contributions(spans, hist, OVERHEAD_SPAN));
            var c := RowOf(OVERHEAD_SPAN, StatsAt(st, OVERHEAD_SPAN), OverheadFor(st, mode), true).cells;
            && c.Cells? && c.mean.Some? && c.weight == s.weight
            && c.min == s.min && c.last == s.last - s.min && c.max == s.max - s.min
            && (c.mean.value == Mean(s) - s.min <==> Mean(s) >= s.min)
            && (InOrder(c) <==>
                2 * s.min <= s.last && (2 * s.min <= Mean(s) <= s.max || (s.min == 0 && Mean(s) < 0)))
  {
    var durs := Contributions(spans, hist, OVERHEAD_SPAN);
    var s := StatsOf(durs);
    OverheadTells(spans, hist);
    StatsAfter(spans, hist, OVERHEAD_SPAN);
    StatsMeaning(durs);
    assert Fits(s.min) && Fits(s.last) && Fits(s.max) && Fits(Mean(s));
    WrapDifference(s.last, s.min);
    WrapDifference(s.max, s.min);
    WrapDifference(Mean(s), s.min);
  }

  /** A single sample of LL.no-op puts its row out of order. */
  lemma OverheadRowCanInvert(app: seq<string>)
    ensures var st := After(app + BuiltinSpans(), [Sample(OVERHEAD_SPAN, "", 5)]);
            var c := RowOf(OVERHEAD_SPAN, StatsAt(st, OVERHEAD_SPAN), OverheadFor(st, Mode(true, true)), true).cells;
            c.Cells? && c.last == 0 && c.min == 5
  {
  }
}
