/** Report files: which requests leave one, and what its rows tell. */
module ReportFiles {
  import opened Int64
  import opened Options
  import opened Stats
  import opened Aggregate
  import opened Builtins
  import opened Reports
  import opened Protocol
  import opened Invariants
  import opened Calls
  import opened Linearizability

  // ---- One file for each report that was written ----

  ghost predicate HasFile(reports: seq<Written>, p: nat) {
    exists r :: 0 <= r < |reports| && reports[r].pos == p
  }

  /** A report request has left a file if and only if it has added the report's own sample. */
  ghost predicate FiledOk(s: Sys) {
    && |s.effects| <= |s.sent|
    && forall p :: 0 <= p < |s.effects| && s.sent[p].msg.Report? ==> (|s.effects[p]| == 1 <==> HasFile(s.reports, p))
  }

  lemma SameServerFiled(s: Sys, t: Sys)
    requires FiledOk(s) && SameServer(s, t) && s.sent <= t.sent
    ensures FiledOk(t)
  {
  }

  /** A step that only moves the server on leaves messages, effects and files alone. */
  predicate SameFiles(s: Sys, t: Sys) {
    t.sent == s.sent && t.effects == s.effects && t.reports == s.reports
  }

  lemma MovesFiled(s: Sys, act: ServerAct)
    requires ServerCan(s, act)
    requires act.Start? || act.WriteRow? || act.BenchDone? || act.Deliver? || act.Finish?
    ensures SameFiles(s, ServerStep(s, act))
  {
  }

  /** A new message starts without a file. */
  lemma ReceiveFiled(s: Sys, ch: Choice)
    requires Core(s) && FiledOk(s) && ServerCan(s, Receive(ch))
    ensures FiledOk(ServerStep(s, Receive(ch)))
  {
    var t, n := ServerStep(s, Receive(ch)), |s.effects|;
    ReceivedEffects(s, ch);
    forall r | 0 <= r < |s.reports| ensures s.reports[r].pos < n {
      assert ReportOk(s, s.reports[r]);
    }
    assert forall p :: 0 <= p < n ==> t.effects[p] == s.effects[p];
  }

  lemma ReceivedEffects(s: Sys, ch: Choice)
    requires QueueOk(s) && ServerCan(s, Receive(ch))
    ensures var t, n := ServerStep(s, Receive(ch)), |s.effects|;
            && t.sent == s.sent && t.reports == s.reports && n < |s.sent| && |t.effects| == n + 1
            && (forall p :: 0 <= p < n ==> t.effects[p] == s.effects[p])
            && (!s.sent[n].msg.A? ==> t.effects[n] == [])
  {
  }

  lemma FinishFiled(s: Sys, dur: int64)
    requires Core(s) && FiledOk(s) && ServerCan(s, FinishReport(dur))
    ensures FiledOk(ServerStep(s, FinishReport(dur)))
  {
    var t, n := ServerStep(s, FinishReport(dur)), |s.effects| - 1;
    var w := Written(n, s.server.mode, s.server.rows);
    AddedPrefix(s, t, Sample(REPORT_SPAN, "", dur));
    FinishedFiles(s.reports, w);
    assert t.reports == s.reports + [w] && s.effects[n] == [] && |t.effects[n]| == 1;
  }

  lemma FinishedFiles(reports: seq<Written>, w: Written)
    ensures forall p: nat :: HasFile(reports + [w], p) <==> HasFile(reports, p) || p == w.pos
  {
    forall p: nat ensures HasFile(reports + [w], p) <==> HasFile(reports, p) || p == w.pos {
      var all := reports + [w];
      if HasFile(reports, p) {
        var r :| 0 <= r < |reports| && reports[r].pos == p;
        assert all[r].pos == p;
      }
      assert all[|reports|] == w;
    }
  }

  lemma BenchFiled(s: Sys)
    requires Core(s) && FiledOk(s) && ServerCan(s, BenchStep)
    ensures FiledOk(ServerStep(s, BenchStep))
  {
  }

  lemma StepKeepsFiled(s: Sys, step: Step)
    requires Sound(s) && FiledOk(s) && Can(s, step)
    ensures FiledOk(Next(s, step))
  {
    match step
    case Init(_, _) =>
    case ByClient(c, act) =>
      ClientFacts(s, c, act);
      SameServerFiled(s, ClientStep(s, c, act));
    case ByServer(act) =>
      match act {
        case Receive(ch) => ReceiveFiled(s, ch);
        case ReceiveInner(_) =>
        case FinishReport(dur) => FinishFiled(s, dur);
        case BenchStep => BenchFiled(s);
        case _ => MovesFiled(s, act);
      }
  }

  lemma {:induction false} RunKeepsFiled(s: Sys, schedule: seq<Step>, t: Sys)
    requires Sound(s) && FiledOk(s) && Runs(s, schedule, t)
    ensures FiledOk(t)
    decreases |schedule|
  {
    if schedule != [] {
      StepKeepsFiled(s, schedule[0]);
      StepKeepsSound(s, schedule[0]);
      RunKeepsFiled(Next(s, schedule[0]), schedule[1..], t);
    }
  }

  lemma ReachableIsFiled(s: Sys)
    requires Reachable(s)
    ensures FiledOk(s)
  {
    var s0, schedule :| Initial(s0) && Runs(s0, schedule, s);
    RunKeepsFiled(s0, schedule, s);
  }

  /** A report call that was answered has left exactly one file and the report's own sample, or neither; and no other
      answered call has left a file. */
  lemma AnsweredReportIsFiled(s: Sys, l: nat)
    requires Reachable(s) && l < |s.log| && s.log[l].Answered?
    ensures var p := s.log[l].pos;
            p < |s.effects| &&
            match s.log[l].act {
              case AskReport =>
                if |s.effects[p]| == 1 then exists r :: OnlyFile(s.reports, p, r)
                else s.effects[p] == [] && !HasFile(s.reports, p)
              case AskValues(_) => s.effects[p] == [] && !HasFile(s.reports, p)
              case AskBenchmarks => !HasFile(s.reports, p)
              case _ => false
            }
  {
    ReachableIsSound(s);
    ReachableIsFiled(s);
    var p := s.log[l].pos;
    if HasFile(s.reports, p) {
      var r :| 0 <= r < |s.reports| && s.reports[r].pos == p;
      assert ReportOk(s, s.reports[r]) && OnlyFile(s.reports, p, r);
    }
  }

  ghost predicate OnlyFile(reports: seq<Written>, p: nat, r: int) {
    && 0 <= r < |reports| && reports[r].pos == p
    && forall q :: 0 <= q < |reports| && reports[q].pos == p ==> q == r
  }

  // ---- What the rows of a file tell ----

  /** The overhead that a report subtracts: the smallest accepted sample of LL.no-op. */
  predicate IsOverhead(o: int64, noops: seq<int64>) {
    if noops == [] then o == -1 else o in noops && forall i :: 0 <= i < |noops| ==> o <= noops[i]
  }

  /** What the row of span k tells, if durs are the accepted samples meant for k and o is the overhead: the samples as
      they are; or without the overhead; or, for LL.no-op itself, all but the minimum less the overhead; or, if there is
      no overhead to subtract, all but the minimum shifted by one. */
  ghost predicate RowTells(row: Row, k: string, durs: seq<int64>, o: int64, subtract: bool) {
    && row.name == k && (row.cells.NoData? <==> durs == [])
    && (durs != [] ==>
        && row.cells.weight == |durs|
        && (!subtract ==> PlainCells(row.cells, durs))
        && (subtract && o == -1 ==> ShiftedCells(row.cells, durs))
        && (subtract && o >= 0 && k == OVERHEAD_SPAN && IsMin(o, durs) ==> NoOpCells(row.cells, durs))
        && (subtract && o >= 0 && k != OVERHEAD_SPAN && NonNegative(durs) ==> FedCells(row.cells, durs, o)))
  }

  /** The figures of the samples as they are. */
  ghost predicate PlainCells(c: Cells, durs: seq<int64>)
    requires c.Cells? && durs != []
  {
    && IsMin(c.min, durs) && IsMax(c.max, durs) && c.last == durs[|durs| - 1]
    && c.mean == Some(TruncDiv(Wrap(Sum(durs)), |durs|))
  }

  /** One more, but never negative; and 0 where that overflows. */
  function Shifted(x: int64): int64 {
    if x < -1 || x == MAX_INT64 then 0 else assert Fits(x); x + 1
  }

  /** The sentinel taken for an overhead: the minimum as it is, the other figures shifted. */
  ghost predicate ShiftedCells(c: Cells, durs: seq<int64>)
    requires c.Cells? && durs != []
  {
    var s := StatsOf(durs);
    && IsMin(c.min, durs) && c.last == Shifted(durs[|durs| - 1])
    && IsMax(s.max, durs) && c.max == Shifted(s.max)
    && c.mean == Some(Shifted(Mean(s)))
  }

  /** LL.no-op, whose own minimum is the overhead: the minimum as it is, the others less the minimum. */
  ghost predicate NoOpCells(c: Cells, durs: seq<int64>)
    requires c.Cells? && durs != []
  {
    var s := StatsOf(durs);
    && IsMin(c.min, durs) && c.last == durs[|durs| - 1] - c.min
    && IsMax(s.max, durs) && c.max == s.max - c.min
    && c.mean.Some? && (Mean(s) >= c.min ==> c.mean.value == Mean(s) - c.min)
  }

  /** The figures of the samples without the overhead in them. */
  ghost predicate FedCells(c: Cells, durs: seq<int64>, o: int64)
    requires c.Cells? && durs != [] && o >= 0 && NonNegative(durs)
  {
    var fed := Fed(durs, o);
    && IsMin(c.min, fed) && IsMax(c.max, fed) && c.last == fed[|fed| - 1] && c.mean.Some?
    && (Fits(Sum(durs)) ==> c.mean.value <= TruncDiv(Sum(fed), |fed|))
    && (Fits(Sum(durs)) && (forall i :: 0 <= i < |durs| ==> durs[i] >= o) ==> c.mean.value == TruncDiv(Sum(fed), |fed|))
  }

  lemma RowOfTells(k: string, durs: seq<int64>, o: int64, subtract: bool)
    ensures RowTells(RowOf(k, StatsOf(durs), o, subtract), k, durs, o, subtract)
  {
    PlainRow(k, durs, o, subtract);
    if durs != [] && subtract {
      StatsMeaning(durs);
      if o == -1 {
        ShiftedRow(k, StatsOf(durs));
      } else if o >= 0 && k == OVERHEAD_SPAN && IsMin(o, durs) {
        NoOpRow(durs, o);
      } else if o >= 0 && k != OVERHEAD_SPAN && NonNegative(durs) {
        FedRow(k, durs, o);
      }
    }
  }

  lemma ShiftedRow(k: string, s: Stats)
    requires s.everCompleted && s.weight > 0
    ensures RowOf(k, s, -1, true).cells ==
            Cells(s.min, Shifted(s.last), Shifted(s.max), Some(Shifted(Mean(s))), s.weight)
  {
    ShiftedIs(s.last);
    ShiftedIs(s.max);
    ShiftedIs(Mean(s));
  }

  lemma ShiftedIs(x: int64)
    ensures OverheadComp(x, -1, true) == Shifted(x)
  {
    assert Fits(x);
    WrapDifference(x, -1);
  }

  lemma NoOpRow(durs: seq<int64>, o: int64)
    requires durs != [] && o >= 0 && IsMin(o, durs)
    ensures var c := RowOf(OVERHEAD_SPAN, StatsOf(durs), o, true).cells; c.Cells? && NoOpCells(c, durs)
  {
    var s := StatsOf(durs);
    StatsMeaning(durs);
    assert s.min == o;
    assert Fits(s.last) && Fits(s.max) && Fits(Mean(s));
    WrapDifference(s.last, o);
    WrapDifference(s.max, o);
    WrapDifference(Mean(s), o);
  }

  lemma FedRow(k: string, durs: seq<int64>, o: int64)
    requires durs != [] && o >= 0 && k != OVERHEAD_SPAN && NonNegative(durs)
    ensures var c := RowOf(k, StatsOf(durs), o, true).cells; c.Cells? && FedCells(c, durs, o)
  {
    CompensationMeaning(k, durs, o);
    StatsMeaning(Fed(durs, o));
    FedSum(durs, o);
    MeanTells(Fed(durs, o));
  }

  /** In every run each file lists, with built-ins, the spans that were tracked before its request, and without them
      those of them that do not begin with "LL."; one row for each, in index order. */
  lemma FileRowsListed(s: Sys, r: nat)
    requires Reachable(s) && r < |s.reports| && s.reports[r].pos <= |s.effects|
    ensures var w := s.reports[r];
            var tracked := After(s.initSpans, Before(s, w.pos)).tracked;
            if w.mode.builtins
            then |w.rows| == |tracked| && forall i :: 0 <= i < |tracked| ==> w.rows[i].name == tracked[i]
            else
              && |w.rows| == |Unreserved(tracked)|
              && forall i :: 0 <= i < |w.rows| ==> w.rows[i].name == Unreserved(tracked)[i]
  {
    ReportIsSnapshot(s, r);
    RowsPlaced(After(s.initSpans, Before(s, s.reports[r].pos)), s.reports[r].mode);
  }

  /** In every run each row of a file tells the accepted samples of its span, less the smallest accepted sample of
      LL.no-op if the report subtracts overhead. */
  lemma FileRowsTell(s: Sys, r: nat, i: nat) returns (o: int64)
    requires Reachable(s) && r < |s.reports| && s.reports[r].pos <= |s.effects| && i < |s.reports[r].rows|
    ensures var w := s.reports[r];
            var hist := Before(s, w.pos);
            var k := w.rows[i].name;
            && (w.mode.subtract ==> IsOverhead(o, Contributions(s.initSpans, hist, OVERHEAD_SPAN)))
            && RowTells(w.rows[i], k, Contributions(s.initSpans, hist, k), o, w.mode.subtract)
  {
    var w := s.reports[r];
    var hist := Before(s, w.pos);
    var st := After(s.initSpans, hist);
    ReportIsSnapshot(s, r);
    RowsPlaced(st, w.mode);
    RowsMeaning(s.initSpans, hist, w.mode, i);
    o := OverheadFor(st, w.mode);
    OverheadTells(s.initSpans, hist);
    StatsMeaning(Contributions(s.initSpans, hist, OVERHEAD_SPAN));
    RowOfTells(w.rows[i].name, Contributions(s.initSpans, hist, w.rows[i].name), o, w.mode.subtract);
  }
}
