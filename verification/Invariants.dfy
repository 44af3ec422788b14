/** What every step of the protocol keeps. */
module Invariants {
  import opened Int64
  import opened Aggregate
  import opened Builtins
  import opened Reports
  import opened Protocol

  // ---- The sequential aggregator ----

  function Flatten(effects: seq<seq<Sample>>): seq<Sample> {
    if effects == [] then [] else Flatten(effects[..|effects| - 1]) + effects[|effects| - 1]
  }

  /** A purely sequential aggregator, given the samples that each message adds. */
  function Sequential(spans: seq<string>, effects: seq<seq<Sample>>): State {
    After(spans, Flatten(effects))
  }

  lemma AfterSnoc(spans: seq<string>, hist: seq<Sample>, s: Sample)
    ensures After(spans, hist + [s]) == After(spans, hist).Handle(s)
  {
  }

  lemma SequentialGrows(spans: seq<string>, effects: seq<seq<Sample>>, s: Sample)
    requires effects != []
    ensures var n := |effects| - 1;
            Sequential(spans, effects[..n] + [effects[n] + [s]]) == Sequential(spans, effects).Handle(s)
  {
    var n := |effects| - 1;
    var grown := effects[..n] + [effects[n] + [s]];
    assert grown[..n] == effects[..n];
    AfterSnoc(spans, Flatten(effects), s);
    assert Flatten(effects[..n]) + (effects[n] + [s]) == Flatten(effects[..n]) + effects[n] + [s];
  }

  lemma SequentialOpens(spans: seq<string>, effects: seq<seq<Sample>>)
    ensures Sequential(spans, effects + [[]]) == Sequential(spans, effects)
  {
    assert (effects + [[]])[..|effects|] == effects;
    assert Flatten(effects) + [] == Flatten(effects);
  }

  // ---- The core: queue, server and aggregator ----

  predicate QueueOk(s: Sys) {
    && s.inner == []
    && |s.outer| <= s.cap
    && |s.sent| == |s.effects| + |s.outer|
    && (forall i :: 0 <= i < |s.outer| ==> s.outer[i] == s.sent[|s.effects| + i].msg)
    && (!s.initDone ==> s.server.NotStarted? && s.sent == [] && s.reports == [])
    && (s.initDone ==> s.cap >= 100)
    && (s.server.NotStarted? ==> s.effects == [])
    && (s.serveFinished <==> s.server.Finished?)
  }

  ghost predicate StateOk(s: Sys) {
    s.initDone ==> s.agg == Sequential(s.initSpans, s.effects)
  }

  /** The samples a message adds: its own, the one of a report, or those of a benchmark run. */
  predicate EffectOk(m: Msg, effect: seq<Sample>) {
    match m
    case A(sample) => effect == [sample]
    case Values(_, _) => effect == []
    case Stop => effect == []
    case Report(_) => |effect| <= 1 && forall x :: x in effect ==> x.name == REPORT_SPAN && x.variant == ""
    case Benchmarks(_) => forall x :: x in effect ==> BenchSample(x)
  }

  predicate EffectsOk(s: Sys) {
    |s.effects| <= |s.sent| && forall i :: 0 <= i < |s.effects| ==> EffectOk(s.sent[i].msg, s.effects[i])
  }

  /** A stop is the last message ever received, and stops the server. */
  predicate StopOk(s: Sys) {
    && |s.effects| <= |s.sent|
    && (forall i :: 0 <= i < |s.effects| - 1 ==> s.sent[i].msg != Stop)
    && (s.effects != [] ==> (s.sent[|s.effects| - 1].msg == Stop <==> s.server.Stopped()))
    && (s.effects == [] ==> !s.server.Stopped())
  }

  /** The request in hand, and the work done on it so far. */
  predicate WorkOk(s: Sys) {
    s.server.Busy() ==>
      && 0 < |s.effects| <= |s.sent|
      && InHandOk(s, s.sent[|s.effects| - 1].msg, s.effects[|s.effects| - 1])
  }

  predicate InHandOk(s: Sys, m: Msg, effect: seq<Sample>) {
    match s.server
    case Writing(c, mode, overhead, rows, next) =>
      && m == Report(c) && effect == []
      && overhead == OverheadFor(s.agg, mode)
      && next <= |s.agg.tracked| && rows == RowsUpTo(s.agg, mode, next)
    case Benching(c, todo) => m == Benchmarks(c) && forall b :: b in todo ==> BenchSample(b)
    case Replying(c, reply) =>
      || (m.Values? && m.client == c && reply == Figures(Answer(s.agg, m.span)))
      || ((m == Report(c) || m == Benchmarks(c)) && reply == Done)
    case _ => true
  }

  /** Every report file holds the rows of the state just before its request, and its own sample came after them. */
  ghost predicate ReportsOk(s: Sys) {
    && |s.effects| <= |s.sent|
    && (forall r :: 0 <= r < |s.reports| ==> ReportOk(s, s.reports[r]))
    && (forall r, q :: 0 <= r < q < |s.reports| ==> s.reports[r].pos < s.reports[q].pos)
    && (s.server.Writing? ==> forall r :: 0 <= r < |s.reports| ==> s.reports[r].pos < |s.effects| - 1)
  }

  ghost predicate ReportOk(s: Sys, w: Written)
    requires |s.effects| <= |s.sent|
  {
    && w.pos < |s.effects|
    && s.sent[w.pos].msg.Report?
    && |s.effects[w.pos]| == 1
    && w.rows == RowsOf(Sequential(s.initSpans, s.effects[..w.pos]), w.mode)
  }

  ghost predicate Core(s: Sys) {
    QueueOk(s) && StateOk(s) && EffectsOk(s) && StopOk(s) && WorkOk(s) && ReportsOk(s)
  }

  // ---- Client steps keep the core ----

  /** The steps that touch neither the queue nor anything of the server's. */
  predicate SameCore(s: Sys, t: Sys) {
    && t.cap == s.cap && t.initDone == s.initDone && t.serveFinished == s.serveFinished
    && t.outer == s.outer && t.inner == s.inner && t.sent == s.sent && SameServer(s, t)
  }

  predicate SameServer(s: Sys, t: Sys) {
    && t.server == s.server && t.agg == s.agg
    && t.initSpans == s.initSpans && t.effects == s.effects && t.reports == s.reports
  }

  /** One message more on the queue. */
  predicate SentOne(s: Sys, t: Sys, e: Sent) {
    && t.cap == s.cap && t.initDone == s.initDone && t.serveFinished == s.serveFinished
    && t.outer == s.outer + [e.msg] && t.inner == s.inner && t.sent == s.sent + [e] && SameServer(s, t)
    && |s.outer| < s.cap
  }

  function SentBy(w: Client): Sent
    requires w.Sending? || w.SamplingSend?
  {
    if w.Sending? then Sent(w.msg, w.origin)
    else Sent(A(Sample(OVERHEAD_SPAN, "", w.dur)), FromSelfSampling(w.call))
  }

  lemma ClientFacts(s: Sys, c: nat, act: ClientAct)
    requires ClientCan(s, c, act)
    ensures var t := ClientStep(s, c, act);
            if act.Send? then SentOne(s, t, SentBy(s.clients[c])) else SameCore(s, t)
  {
    match act
    case Send => SendFacts(s, c);
    case EndSpan(id, ending, dur) => assert SameCore(s, EndStep(s, c, id, ending, dur));
    case SelfSample(n) => assert SameCore(s, SelfSampleStep(s, c, n));
    case SelfIterate(dur) => assert SameCore(s, SelfIterateStep(s, c, dur));
    case AskValues(span) => assert SameCore(s, Begin(s, c, act, Values(span, c)));
    case AskReport => assert SameCore(s, Begin(s, c, act, Report(c)));
    case AskBenchmarks => assert SameCore(s, Begin(s, c, act, Benchmarks(c)));
    case AskStop => assert SameCore(s, Begin(s, c, act, Stop));
    case OpenSpan(_, _) =>
    case TakeReply =>
  }

  lemma SendFacts(s: Sys, c: nat)
    requires ClientCan(s, c, Send)
    ensures SentOne(s, SendStep(s, c), SentBy(s.clients[c]))
  {
  }

  lemma SameCoreKeeps(s: Sys, t: Sys)
    requires Core(s) && SameCore(s, t)
    ensures Core(t)
  {
    assert ReportsOk(t) by {
      SameReports(s, t);
    }
  }

  /** Reports are not affected by what is sent later. */
  lemma SameReports(s: Sys, t: Sys)
    requires ReportsOk(s) && SameServer(s, t) && s.sent <= t.sent
    ensures ReportsOk(t)
  {
  }

  lemma SentOneKeeps(s: Sys, t: Sys, e: Sent)
    requires Core(s) && s.initDone && SentOne(s, t, e)
    ensures Core(t)
  {
    SentOneQueue(s, t, e);
    SentOneWork(s, t, e);
    SameReports(s, t);
  }

  lemma SentOneQueue(s: Sys, t: Sys, e: Sent)
    requires QueueOk(s) && s.initDone && SentOne(s, t, e)
    ensures QueueOk(t)
  {
  }

  lemma SentOneWork(s: Sys, t: Sys, e: Sent)
    requires EffectsOk(s) && StopOk(s) && WorkOk(s) && SentOne(s, t, e)
    ensures EffectsOk(t) && StopOk(t) && WorkOk(t)
  {
  }

  // ---- Server steps keep the core ----

  /** Reports are not affected by effects at or after other places. */
  lemma KeepReports(s: Sys, t: Sys)
    requires ReportsOk(s) && |t.effects| <= |t.sent|
    requires t.reports == s.reports && t.initSpans == s.initSpans && t.sent == s.sent
    requires |t.effects| >= |s.effects|
    requires forall r :: 0 <= r < |s.reports| ==>
      var p := s.reports[r].pos; p < |s.effects| && t.effects[..p + 1] == s.effects[..p + 1]
    requires t.server.Writing? ==> s.server.Writing? || |t.effects| > |s.effects|
    ensures ReportsOk(t)
  {
    forall r | 0 <= r < |t.reports| ensures ReportOk(t, t.reports[r]) {
      var p := s.reports[r].pos;
      assert ReportOk(s, s.reports[r]);
      assert t.effects[..p + 1][p] == s.effects[..p + 1][p];
      assert t.effects[..p] == t.effects[..p + 1][..p] == s.effects[..p + 1][..p] == s.effects[..p];
    }
    if t.server.Writing? {
      forall r | 0 <= r < |t.reports| ensures t.reports[r].pos < |t.effects| - 1 {
        assert ReportOk(s, s.reports[r]);
      }
    }
  }

  /** What a step of the server that adds sample x for the message in hand changes. */
  predicate Added(s: Sys, t: Sys, x: Sample) {
    && s.effects != []
    && t.cap == s.cap && t.initDone == s.initDone && t.serveFinished == s.serveFinished
    && t.outer == s.outer && t.inner == s.inner && t.sent == s.sent && t.initSpans == s.initSpans
    && t.agg == s.agg.Handle(x)
    && var n := |s.effects| - 1; t.effects == s.effects[..n] + [s.effects[n] + [x]]
  }

  lemma AddedPrefix(s: Sys, t: Sys, x: Sample)
    requires Added(s, t, x)
    ensures var n := |s.effects| - 1;
            && |t.effects| == |s.effects| && t.effects[n] == s.effects[n] + [x]
            && (forall p :: 0 <= p < n ==> t.effects[p] == s.effects[p])
            && (forall p :: 0 <= p <= n ==> t.effects[..p] == s.effects[..p])
  {
  }

  lemma AddedState(s: Sys, t: Sys, x: Sample)
    requires QueueOk(s) && StateOk(s) && Added(s, t, x)
    requires t.server != NotStarted && (t.server.Finished? <==> s.server.Finished?)
    ensures QueueOk(t) && StateOk(t)
  {
    AddedQueue(s, t, x);
    if s.initDone {
      SequentialGrows(s.initSpans, s.effects, x);
    }
  }

  lemma AddedQueue(s: Sys, t: Sys, x: Sample)
    requires QueueOk(s) && Added(s, t, x)
    requires t.server != NotStarted && (t.server.Finished? <==> s.server.Finished?)
    ensures QueueOk(t)
  {
  }

  lemma AddedEffects(s: Sys, t: Sys, x: Sample)
    requires EffectsOk(s) && StopOk(s) && Added(s, t, x)
    requires var n := |s.effects| - 1; EffectOk(s.sent[n].msg, s.effects[n] + [x])
    requires t.server.Stopped() <==> s.server.Stopped()
    ensures EffectsOk(t) && StopOk(t)
  {
  }

  /** A message taken from the queue, before it is handled. */
  predicate Taken(s: Sys, t: Sys) {
    && s.server.Ready? && s.outer != []
    && t == s.(outer := s.outer[1..], effects := s.effects + [[]])
  }

  /** The core facts that hold between taking a message and deciding what to do with it. */
  ghost predicate Between(s: Sys, m: Msg) {
    && QueueOk(s) && StateOk(s) && s.server.Ready?
    && 0 < |s.effects| <= |s.sent|
    && s.sent[|s.effects| - 1].msg == m && s.effects[|s.effects| - 1] == []
    && (forall i :: 0 <= i < |s.effects| - 1 ==> s.sent[i].msg != Stop && EffectOk(s.sent[i].msg, s.effects[i]))
    && ReportsOk(s) && forall r :: 0 <= r < |s.reports| ==> s.reports[r].pos < |s.effects| - 1
  }

  lemma TakenBetween(s: Sys, t: Sys)
    requires Core(s) && Taken(s, t)
    ensures Between(t, s.outer[0])
  {
    assert forall i :: 0 <= i < |s.effects| ==> t.effects[i] == s.effects[i];
    SequentialOpens(s.initSpans, s.effects);
    TakenReports(s, t);
    TakenQueue(s, t);
  }

  lemma TakenReports(s: Sys, t: Sys)
    requires QueueOk(s) && ReportsOk(s) && Taken(s, t)
    ensures ReportsOk(t) && forall r :: 0 <= r < |t.reports| ==> t.reports[r].pos < |s.effects|
  {
    forall r | 0 <= r < |s.reports|
      ensures var p := s.reports[r].pos; p < |s.effects| && t.effects[..p + 1] == s.effects[..p + 1]
    {
      assert ReportOk(s, s.reports[r]);
    }
    KeepReports(s, t);
  }

  lemma TakenQueue(s: Sys, t: Sys)
    requires QueueOk(s) && Taken(s, t)
    ensures QueueOk(t) && t.sent[|t.effects| - 1].msg == s.outer[0]
  {
  }

  lemma HandleKeepsCore(s: Sys, m: Msg, ch: Choice)
    requires Between(s, m) && s.initDone && forall b :: b in ch.bench ==> BenchSample(b)
    ensures Core(Protocol.Handle(s, m, ch))
  {
    var t := Protocol.Handle(s, m, ch);
    if m.A? {
      HandleAKeepsCore(s, m.sample, t);
    } else {
      forall r | 0 <= r < |s.reports|
        ensures var p := s.reports[r].pos; p < |s.effects| && t.effects[..p + 1] == s.effects[..p + 1]
      {
        assert ReportOk(s, s.reports[r]);
      }
      HandleOtherKeeps(s, m, t);
      HandleWork(s, m, ch);
    }
  }

  lemma HandleAKeepsCore(s: Sys, x: Sample, t: Sys)
    requires Between(s, A(x)) && t == s.AddEffect(x)
    ensures Core(t)
  {
    AddedState(s, t, x);
    HandleAEffects(s, x, t);
    HandleAReports(s, x, t);
  }

  lemma HandleAEffects(s: Sys, x: Sample, t: Sys)
    requires Between(s, A(x)) && t == s.AddEffect(x)
    ensures EffectsOk(t) && StopOk(t) && WorkOk(t)
  {
    AddedPrefix(s, t, x);
    assert [] + [x] == [x];
  }

  lemma HandleAReports(s: Sys, x: Sample, t: Sys)
    requires Between(s, A(x)) && t == s.AddEffect(x)
    ensures ReportsOk(t)
  {
    AddedPrefix(s, t, x);
    forall r | 0 <= r < |t.reports| ensures ReportOk(t, t.reports[r]) {
      assert ReportOk(s, s.reports[r]);
    }
  }

  lemma HandleOtherKeeps(s: Sys, m: Msg, t: Sys)
    requires Between(s, m) && !m.A?
    requires t == s.(server := t.server)
    requires t.server.Busy() || t.server.StopReceived?
    requires t.server.Stopped() <==> m == Stop
    ensures QueueOk(t) && StateOk(t) && EffectsOk(t) && StopOk(t) && ReportsOk(t)
  {
  }

  lemma HandleWork(s: Sys, m: Msg, ch: Choice)
    requires Between(s, m) && !m.A? && forall b :: b in ch.bench ==> BenchSample(b)
    ensures WorkOk(Protocol.Handle(s, m, ch))
  {
  }

  /** A step of the server that only moves the server on. */
  predicate MovedOn(s: Sys, t: Sys) {
    t == s.(server := t.server)
  }

  lemma MovedOnKeeps(s: Sys, t: Sys)
    requires Core(s) && MovedOn(s, t) && s.initDone
    requires t.server != NotStarted && !t.server.Finished? && !s.server.Finished?
    requires t.server.Stopped() <==> s.server.Stopped()
    requires WorkOk(t) && (t.server.Writing? ==> s.server.Writing?)
    ensures Core(t)
  {
  }

  lemma WriteRowKeeps(s: Sys)
    requires Core(s) && ServerCan(s, WriteRow)
    ensures Core(WriteRowStep(s))
  {
    WriteRowWork(s);
    MovedOnKeeps(s, WriteRowStep(s));
  }

  lemma WriteRowWork(s: Sys)
    requires WorkOk(s) && ServerCan(s, WriteRow)
    ensures WorkOk(WriteRowStep(s))
  {
  }

  lemma FinishReportKeeps(s: Sys, dur: int64)
    requires Core(s) && ServerCan(s, FinishReport(dur))
    ensures Core(ServerStep(s, FinishReport(dur)))
  {
    var t := ServerStep(s, FinishReport(dur));
    var x, n := Sample(REPORT_SPAN, "", dur), |s.effects| - 1;
    AddedState(s, t, x);
    AddedEffects(s, t, x);
    assert s.sent[n].msg == Report(s.server.client) && s.effects[n] == [];
    FinishReportReports(s, t, x);
  }

  lemma FinishReportReports(s: Sys, t: Sys, x: Sample)
    requires s.initDone && StateOk(s) && WorkOk(s) && ReportsOk(s)
    requires s.server.Writing? && s.server.next >= |s.agg.tracked| && Added(s, t, x)
    requires t.reports == s.reports + [Written(|s.effects| - 1, s.server.mode, s.server.rows)] && !t.server.Writing?
    ensures ReportsOk(t)
  {
    var w := Written(|s.effects| - 1, s.server.mode, s.server.rows);
    EarlierReports(s, t, x);
    FinishedRows(s, t, x);
    ReportAppended(s, t, w);
  }

  lemma EarlierReports(s: Sys, t: Sys, x: Sample)
    requires ReportsOk(s) && s.server.Writing? && Added(s, t, x)
    ensures |t.effects| == |s.effects|
    ensures forall r :: 0 <= r < |s.reports| ==> ReportOk(t, s.reports[r]) && s.reports[r].pos < |s.effects| - 1
  {
    AddedPrefix(s, t, x);
    forall r | 0 <= r < |s.reports| ensures ReportOk(t, s.reports[r]) && s.reports[r].pos < |s.effects| - 1 {
      assert ReportOk(s, s.reports[r]);
    }
  }

  lemma ReportAppended(s: Sys, t: Sys, w: Written)
    requires ReportsOk(s) && |t.effects| <= |t.sent| && t.reports == s.reports + [w] && !t.server.Writing?
    requires forall r :: 0 <= r < |s.reports| ==> ReportOk(t, s.reports[r]) && s.reports[r].pos < w.pos
    requires ReportOk(t, w)
    ensures ReportsOk(t)
  {
    forall r | 0 <= r < |t.reports| ensures ReportOk(t, t.reports[r]) {
      assert r < |s.reports| ==> t.reports[r] == s.reports[r];
    }
  }

  lemma FinishedRows(s: Sys, t: Sys, x: Sample)
    requires |s.effects| <= |s.sent| && s.initDone && StateOk(s) && WorkOk(s)
    requires s.server.Writing? && s.server.next >= |s.agg.tracked| && Added(s, t, x)
    ensures ReportOk(t, Written(|s.effects| - 1, s.server.mode, s.server.rows))
  {
    AddedPrefix(s, t, x);
    assert s.agg == Sequential(s.initSpans, s.effects[..|s.effects| - 1]) by {
      EmptyEffect(s.initSpans, s.effects);
    }
  }

  lemma EmptyEffect(spans: seq<string>, effects: seq<seq<Sample>>)
    requires effects != [] && effects[|effects| - 1] == []
    ensures Sequential(spans, effects) == Sequential(spans, effects[..|effects| - 1])
  {
    assert Flatten(effects[..|effects| - 1]) + [] == Flatten(effects[..|effects| - 1]);
  }

  lemma BenchStepKeeps(s: Sys)
    requires Core(s) && ServerCan(s, BenchStep)
    ensures Core(ServerStep(s, BenchStep))
  {
    var t, x := ServerStep(s, BenchStep), s.server.todo[0];
    AddedState(s, t, x);
    BenchStepEffects(s, t, x);
    BenchStepReports(s, t, x);
  }

  lemma BenchStepEffects(s: Sys, t: Sys, x: Sample)
    requires EffectsOk(s) && StopOk(s) && WorkOk(s) && Added(s, t, x)
    requires s.server.Benching? && s.server.todo != [] && x == s.server.todo[0]
    requires t.server == Benching(s.server.client, s.server.todo[1..])
    ensures EffectsOk(t) && StopOk(t) && WorkOk(t)
  {
    AddedPrefix(s, t, x);
    AddedEffects(s, t, x);
  }

  lemma BenchStepReports(s: Sys, t: Sys, x: Sample)
    requires WorkOk(s) && ReportsOk(s)
    requires s.server.Benching? && Added(s, t, x) && t.reports == s.reports && t.server.Benching?
    ensures ReportsOk(t)
  {
    var n := |s.effects| - 1;
    forall r | 0 <= r < |s.reports|
      ensures var p := s.reports[r].pos; p < |s.effects| && t.effects[..p + 1] == s.effects[..p + 1]
    {
      assert ReportOk(s, s.reports[r]) && s.reports[r].pos != n;
    }
    KeepReports(s, t);
  }

  lemma ReplyFacts(s: Sys)
    requires ServerCan(s, Deliver)
    ensures var t := ServerStep(s, Deliver);
            t == s.(clients := t.clients, server := Ready)
  {
  }

  lemma ReplyKeeps(s: Sys)
    requires Core(s) && ServerCan(s, Deliver)
    ensures Core(ServerStep(s, Deliver))
  {
    var t := ServerStep(s, Deliver);
    ReplyFacts(s);
    var u := s.(server := Ready);
    MovedOnKeeps(s, u);
    SameCoreKeeps(u, t);
  }

  lemma FinishKeeps(s: Sys)
    requires Core(s) && ServerCan(s, Finish)
    ensures Core(ServerStep(s, Finish))
  {
  }

  lemma ServerKeepsCore(s: Sys, act: ServerAct)
    requires Core(s) && ServerCan(s, act)
    ensures Core(ServerStep(s, act))
  {
    match act
    case Start => MovedOnKeeps(s, s.(server := Ready));
    case Receive(ch) =>
      var u := s.(outer := s.outer[1..], effects := s.effects + [[]]);
      TakenBetween(s, u);
      HandleKeepsCore(u, s.outer[0], ch);
    case ReceiveInner(ch) =>
    case WriteRow => WriteRowKeeps(s);
    case FinishReport(dur) => FinishReportKeeps(s, dur);
    case BenchStep => BenchStepKeeps(s);
    case BenchDone => MovedOnKeeps(s, s.(server := Replying(s.server.client, Done)));
    case Deliver => ReplyKeeps(s);
    case Finish => FinishKeeps(s);
  }

  lemma InitKeepsCore(s: Sys, app: seq<string>, capacity: int)
    requires Core(s) && !s.initDone
    ensures Core(Next(s, Step.Init(app, capacity)))
  {
  }
}
