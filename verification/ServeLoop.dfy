/** The handlers of the `serve` goroutine and its loop, working in place on the learner objects. */
module ServeLoop {
  import opened Int64
  import opened Options
  import opened Aggregate
  import opened Builtins
  import opened TrackedSpans
  import opened Learners
  import opened Reports
  import opened Protocol
  import opened Invariants

  // ---- What handling one message means ----

  function Fold<S, X>(f: (S, X) -> S, st: S, xs: seq<X>): S {
    if xs == [] then st else f(Fold(f, st, xs[..|xs| - 1]), xs[|xs| - 1])
  }

  lemma {:induction false} FoldConcat<S, X>(f: (S, X) -> S, st: S, a: seq<X>, b: seq<X>)
    ensures Fold(f, st, a + b) == Fold(f, Fold(f, st, a), b)
  {
    if b == [] {
      assert a + b == a;
    } else {
      FoldConcat(f, st, a, b[..|b| - 1]);
      assert (a + b)[..|a + b| - 1] == a + b[..|b| - 1];
    }
  }

  function Handling(): (State, Sample) -> State {
    (st: State, s: Sample) => st.Handle(s)
  }

  /** The aggregator after some more samples. */
  function Apply(st: State, hist: seq<Sample>): State {
    Fold(Handling(), st, hist)
  }

  /** What the outside decides while one message is handled. */
  datatype Env = Env(choice: Choice, reportDur: int64)

  /** The samples that a message adds. */
  function EffectOf(m: Msg, env: Env): seq<Sample> {
    match m
    case A(sample) => [sample]
    case Report(_) => if env.choice.created then [Sample(REPORT_SPAN, "", env.reportDur)] else []
    case Benchmarks(_) => env.choice.bench
    case _ => []
  }

  /** What goes to the reply channel of a message. */
  function ReplyTo(st: State, m: Msg): Option<ReplyMsg> {
    match m
    case Values(span, _) => Some(Figures(Answer(st, span)))
    case Report(_) => Some(Done)
    case Benchmarks(_) => Some(Done)
    case _ => None
  }

  /** The rows of the report file that a message leaves behind. */
  function FileOf(st: State, m: Msg, env: Env): Option<seq<Row>> {
    if m.Report? && env.choice.created then Some(RowsOf(st, env.choice.mode)) else None
  }

  function Effects(queue: seq<Msg>, envs: seq<Env>): (r: seq<seq<Sample>>)
    requires |queue| == |envs|
    ensures |r| == |queue|
    ensures forall i :: 0 <= i < |r| ==> r[i] == EffectOf(queue[i], envs[i])
  {
    seq(|queue|, i requires 0 <= i < |queue| && |queue| == |envs| => EffectOf(queue[i], envs[i]))
  }

  /** The state in which message n of the queue finds the aggregator. */
  function StateBefore(st: State, queue: seq<Msg>, envs: seq<Env>, n: nat): State
    requires |queue| == |envs| && n <= |queue|
  {
    Apply(st, Flatten(Effects(queue[..n], envs[..n])))
  }

  lemma ApplyOne(st: State, x: Sample)
    ensures Apply(st, [x]) == st.Handle(x) && Apply(st, []) == st
  {
    assert [x][..0] == [];
    assert Fold(Handling(), st, [x]) == Handling()(Fold(Handling(), st, []), x);
  }

  lemma ApplyConcat(st: State, a: seq<Sample>, b: seq<Sample>)
    ensures Apply(st, a + b) == Apply(Apply(st, a), b)
  {
    FoldConcat(Handling(), st, a, b);
  }

  /** Started by Init, the loop's state is the fold over the history. */
  lemma {:induction false} ApplyIsAfter(spans: seq<string>, hist: seq<Sample>)
    ensures Apply(InitState(spans), hist) == After(spans, hist)
  {
    if hist != [] {
      ApplyIsAfter(spans, hist[..|hist| - 1]);
    }
  }

  lemma StateStep(st: State, queue: seq<Msg>, envs: seq<Env>, n: nat)
    requires |queue| == |envs| && n < |queue|
    ensures StateBefore(st, queue, envs, n + 1) ==
            Apply(StateBefore(st, queue, envs, n), EffectOf(queue[n], envs[n]))
  {
    var next := Effects(queue[..n + 1], envs[..n + 1]);
    assert next[..n] == Effects(queue[..n], envs[..n]);
    ApplyConcat(st, Flatten(next[..n]), next[n]);
  }

  // ---- The handlers ----

  /** Between messages the index lists exactly the keys of the map. */
  ghost predicate Settled(agg: Aggregator)
    reads agg, agg.Repr
  {
    agg.Valid() && IndexAgrees(agg.Abs())
  }

  /** `handle_msg_values`. */
  method HandleMsgValues(agg: Aggregator, span: string) returns (reply: Reply)
    requires agg.Valid()
    ensures reply == Answer(agg.Abs(), span)
  {
    if span !in agg.learners {
      return Reply(span, false, -1, -1, -1, -1, -1, -1);
    }
    var ll := agg.learners[span].GetLL();
    var mean, weight := ll.Mean();
    reply := Reply(ll.name, ll.pairEverCompleted, ll.min, ll.last, ll.max, mean, ll.cumul, weight);
  }

  /** `measure_overhead_estimate`, with its -1 for "no estimate". */
  method MeasureOverheadEstimate(agg: Aggregator) returns (overhead: int64)
    requires agg.Valid()
    ensures overhead == OverheadEstimate(agg.Abs())
  {
    if OVERHEAD_SPAN !in agg.learners { return -1; }
    var ll := agg.learners[OVERHEAD_SPAN].GetLL();
    if !ll.pairEverCompleted { return -1; }
    return ll.min;
  }

  /** `latencyLearner.report`, as figures. */
  method ReportRow(ll: LatencyLearner, overhead: int64, subtract: bool) returns (row: Row)
    ensures row == RowOf(ll.name, ll.Figures(), overhead, subtract)
  {
    if !ll.pairEverCompleted { return Row(ll.name, NoData); }
    var min := ll.min;
    if overhead != -1 && ll.name != OVERHEAD_SPAN {
      min := OverheadComp(ll.min, overhead, subtract);
    }
    var last := OverheadComp(ll.last, overhead, subtract);
    var max := OverheadComp(ll.max, overhead, subtract);
    var mean := None;
    if ll.weight > 0 {
      var latMean, _ := ll.Mean();
      mean := Some(OverheadComp(latMean, overhead, subtract));
    }
    return Row(ll.name, Cells(min, last, max, mean, ll.weight));
  }

  /** `learners[span].report(...)`. */
  method WriteRow(agg: Aggregator, span: string, overhead: int64, subtract: bool) returns (row: Row)
    requires agg.Valid() && span in agg.learners
    ensures row == RowOf(span, StatsAt(agg.Abs(), span), overhead, subtract)
  {
    row := ReportRow(agg.learners[span].GetLL(), overhead, subtract);
  }

  /** The row loop of `report_inner`. The map lookup needs no guard, because the state is settled. */
  method WriteRows(agg: Aggregator, mode: Mode) returns (rows: seq<Row>)
    requires Settled(agg)
    ensures rows == RowsOf(agg.Abs(), mode)
    ensures mode.builtins ==>
              |rows| == |agg.trackedSpans| && forall i :: 0 <= i < |rows| ==> rows[i].name == agg.trackedSpans[i]
    ensures !mode.builtins ==>
              var keys := Unreserved(agg.trackedSpans);
              |rows| == |keys| && forall i :: 0 <= i < |rows| ==> rows[i].name == keys[i]
  {
    ghost var st := agg.Abs();
    var overhead := -1;
    if mode.subtract { overhead := MeasureOverheadEstimate(agg); }
    rows := [];
    var i := 0;
    while i < |agg.trackedSpans|
      invariant i <= |agg.trackedSpans|
      invariant Settled(agg) && agg.Abs() == st
      invariant rows == RowsUpTo(st, mode, i)
    {
      var span := agg.trackedSpans[i];
      assert span in st.tracked && span in st.learners;
      if mode.builtins || !("LL." <= span) {
        var row := WriteRow(agg, span, overhead, mode.subtract);
        rows := rows + [row];
      }
      i := i + 1;
    }
    RowsPlaced(st, mode);
  }

  /** `after_and_update`: a sample that the server takes itself goes straight to the learners. */
  method AfterAndUpdate(agg: Aggregator, sample: Sample)
    requires Settled(agg)
    modifies agg, agg.Repr
    ensures Settled(agg) && fresh(agg.Repr - old(agg.Repr))
    ensures agg.Abs() == Apply(old(agg.Abs()), [sample])
  {
    SampleKeepsIndex(agg.Abs(), sample);
    var _ := agg.HandleSsuA(sample.name, sample.variant, sample.dur);
  }

  lemma SampleKeepsIndex(st: State, sample: Sample)
    requires IndexAgrees(st)
    ensures IndexAgrees(st.Handle(sample)) && Apply(st, [sample]) == st.Handle(sample)
  {
    ApplyOne(st, sample);
    assert st.tracked[|st.tracked|..] == [];
    HandleKeepsIndex(st, sample, st.tracked);
  }

  /** `report_inner`, once the file is there: all rows first, then the report's own sample. */
  method ReportInner(agg: Aggregator, mode: Mode, dur: int64) returns (rows: seq<Row>)
    requires Settled(agg)
    modifies agg, agg.Repr
    ensures Settled(agg) && fresh(agg.Repr - old(agg.Repr))
    ensures rows == RowsOf(old(agg.Abs()), mode)
    ensures agg.Abs() == Apply(old(agg.Abs()), [Sample(REPORT_SPAN, "", dur)])
  {
    rows := WriteRows(agg, mode);
    AfterAndUpdate(agg, Sample(REPORT_SPAN, "", dur));
  }

  /** `benchmarks_inner`, as the samples it takes. */
  method BenchmarksInner(agg: Aggregator, samples: seq<Sample>)
    requires Settled(agg)
    modifies agg, agg.Repr
    ensures Settled(agg) && fresh(agg.Repr - old(agg.Repr))
    ensures agg.Abs() == Apply(old(agg.Abs()), samples)
  {
    ghost var st := agg.Abs();
    var i := 0;
    while i < |samples|
      invariant i <= |samples|
      invariant Settled(agg) && fresh(agg.Repr - old(agg.Repr))
      invariant agg.Abs() == Apply(st, samples[..i])
    {
      ApplyConcat(st, samples[..i], [samples[i]]);
      assert samples[..i + 1] == samples[..i] + [samples[i]];
      AfterAndUpdate(agg, samples[i]);
      i := i + 1;
    }
    assert samples[..i] == samples;
  }

  /** `handle_comm_msg`. */
  method HandleCommMsg(agg: Aggregator, m: Msg, env: Env)
      returns (stop: bool, reply: Option<ReplyMsg>, file: Option<seq<Row>>)
    requires Settled(agg)
    modifies agg, agg.Repr
    ensures Settled(agg) && fresh(agg.Repr - old(agg.Repr))
    ensures agg.Abs() == Apply(old(agg.Abs()), EffectOf(m, env))
    ensures stop == (m == Stop)
    ensures reply == ReplyTo(old(agg.Abs()), m) && file == FileOf(old(agg.Abs()), m, env)
    ensures m.A? ==> agg.Abs() == Apply(old(agg.Abs()), [m.sample]) && reply == None
    ensures m.Benchmarks? ==> agg.Abs() == Apply(old(agg.Abs()), env.choice.bench) && reply == Some(Done)
    ensures m.Report? ==> reply == Some(Done) && (file.Some? <==> env.choice.created)
    ensures file.Some? ==>
              && m.Report? && file.value == RowsOf(old(agg.Abs()), env.choice.mode)
              && agg.Abs() == Apply(old(agg.Abs()), [Sample("LL.lat-report", "", env.reportDur)])
    ensures file == None && !m.A? && !m.Benchmarks? ==> agg.Abs() == old(agg.Abs())
  {
    stop, reply, file := false, None, None;
    match m
    case A(sample) => AfterAndUpdate(agg, sample);
    case Values(span, _) =>
      var figures := HandleMsgValues(agg, span);
      reply := Some(Figures(figures));
    case Benchmarks(_) =>
      BenchmarksInner(agg, env.choice.bench);
      reply := Some(Done);
    case Report(_) =>
      if env.choice.created {
        var rows := ReportInner(agg, env.choice.mode, env.reportDur);
        file := Some(rows);
      }
      reply := Some(Done);
    case Stop => stop := true;
  }

  /** What a message leaves behind: at most one reply and at most one file. */
  datatype Handled = Handled(reply: Option<ReplyMsg>, file: Option<seq<Row>>)

  /** Message i is handled in the state made by the messages before it. */
  function HandledAt(st: State, queue: seq<Msg>, envs: seq<Env>, i: nat): Handled
    requires |queue| == |envs| && i < |queue|
  {
    var before := StateBefore(st, queue, envs, i);
    Handled(ReplyTo(before, queue[i]), FileOf(before, queue[i], envs[i]))
  }

  function AllHandled(st: State, queue: seq<Msg>, envs: seq<Env>, n: nat): (r: seq<Handled>)
    requires |queue| == |envs| && n <= |queue|
    ensures |r| == n && forall i :: 0 <= i < n ==> r[i] == HandledAt(st, queue, envs, i)
  {
    if n == 0 then [] else AllHandled(st, queue, envs, n - 1) + [HandledAt(st, queue, envs, n - 1)]
  }

  /** The number of messages up to and including the first stop. */
  function UpToStop(queue: seq<Msg>): (n: nat)
    ensures n <= |queue|
    ensures Stop in queue ==> 0 < n && queue[n - 1] == Stop && Stop !in queue[..n - 1]
    ensures Stop !in queue ==> n == |queue|
  {
    if queue == [] then 0
    else if queue[0] == Stop then 1
    else
      var n := UpToStop(queue[1..]);
      assert Stop in queue ==> queue[..n] == [queue[0]] + queue[1..][..n - 1];
      1 + n
  }

  lemma UpToStopStep(queue: seq<Msg>, i: nat)
    requires i < |queue|
    ensures UpToStop(queue[i..]) == if queue[i] == Stop then 1 else 1 + UpToStop(queue[i + 1..])
    ensures Stop in queue[i..] <==> queue[i] == Stop || Stop in queue[i + 1..]
  {
  }

  /** The loop has handled the first i messages. */
  ghost predicate ServedTo(st: State, queue: seq<Msg>, envs: seq<Env>, i: nat, now: State, handled: seq<Handled>)
    requires |queue| == |envs| && i <= |queue|
  {
    now == StateBefore(st, queue, envs, i) && handled == AllHandled(st, queue, envs, i)
  }

  lemma ServedStep(st: State, queue: seq<Msg>, envs: seq<Env>, i: nat, now: State, handled: seq<Handled>, next: State)
    requires |queue| == |envs| && i < |queue|
    requires ServedTo(st, queue, envs, i, now, handled) && next == Apply(now, EffectOf(queue[i], envs[i]))
    ensures ServedTo(st, queue, envs, i + 1, next,
                     handled + [Handled(ReplyTo(now, queue[i]), FileOf(now, queue[i], envs[i]))])
  {
    StateStep(st, queue, envs, i);
  }

  /** `serve`, on a queue of given messages: it handles them in order, up to and including the first stop. Every reply
      and every file is that of the state made by the messages before it. */
  method Serve(agg: Aggregator, queue: seq<Msg>, envs: seq<Env>) returns (finished: bool, handled: seq<Handled>)
    requires Settled(agg) && |queue| == |envs|
    modifies agg, agg.Repr
    ensures Settled(agg) && fresh(agg.Repr - old(agg.Repr))
    ensures finished == (Stop in queue)
    ensures ServedTo(old(agg.Abs()), queue, envs, UpToStop(queue), agg.Abs(), handled)
  {
    handled := [];
    ghost var st := agg.Abs();
    var i := 0;
    while i < |queue|
      invariant i <= |queue| && i + UpToStop(queue[i..]) == UpToStop(queue) && (Stop in queue <==> Stop in queue[i..])
      invariant Settled(agg) && fresh(agg.Repr - old(agg.Repr))
      invariant ServedTo(st, queue, envs, i, agg.Abs(), handled)
    {
      ghost var now := agg.Abs();
      UpToStopStep(queue, i);
      var stop, reply, file := HandleCommMsg(agg, queue[i], envs[i]);
      ServedStep(st, queue, envs, i, now, handled, agg.Abs());
      handled := handled + [Handled(reply, file)];
      i := i + 1;
      if stop { return true, handled; }
    }
    finished := false;
  }

  /** Init and serve together: the aggregator ends as the fold of all samples over the Init list. */
  method InitAndServe(app: seq<string>, queue: seq<Msg>, envs: seq<Env>)
      returns (agg: Aggregator, finished: bool, handled: seq<Handled>)
    requires |queue| == |envs|
    ensures fresh(agg) && Settled(agg) && finished == (Stop in queue)
    ensures var n := UpToStop(queue);
            agg.Abs() == After(app + BuiltinSpans(), Flatten(Effects(queue[..n], envs[..n])))
    ensures handled == AllHandled(InitState(app + BuiltinSpans()), queue, envs, UpToStop(queue))
  {
    agg := new Aggregator();
    agg.Init(app);
    IndexAfter(app + BuiltinSpans(), []);
    finished, handled := Serve(agg, queue, envs);
    ghost var n := UpToStop(queue);
    ApplyIsAfter(app + BuiltinSpans(), Flatten(Effects(queue[..n], envs[..n])));
  }
}
