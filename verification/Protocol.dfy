/** The queue-and-server protocol as a transition system: any number of client goroutines, one bounded queue, one
    `serve` goroutine. Every step is what one goroutine does between two points where others may interfere. */
module Protocol {
  import opened Int64
  import opened Options
  import opened Aggregate
  import opened Builtins
  import opened Reports
  import opened SpanSamples

  /** `comm_msg`. A request carries the client whose reply channel it holds. */
  datatype Msg =
    | A(sample: Sample)
    | Values(span: string, client: nat)
    | Report(client: nat)
    | Benchmarks(client: nat)
    | Stop
  {
    predicate IsRequest() {
      Values? || Report? || Benchmarks?
    }
  }

  /** Which call put a message on the queue. */
  datatype Origin = FromSpan(id: nat) | FromSelfSampling(call: nat) | FromCall

  datatype Sent = Sent(msg: Msg, origin: Origin)

  /** What a reply channel carries. */
  datatype ReplyMsg = Figures(figures: Reply) | Done

  /** Where a client goroutine is, and in which call. `pos` is the place of its request among all messages ever sent,
      `begun` the number of messages sent when the call began. A reply channel holds at most one reply. */
  datatype Client =
    | Idle
    | Sending(act: ClientAct, msg: Msg, origin: Origin, begun: nat)
    | Waiting(act: ClientAct, pos: nat, begun: nat, reply: Option<ReplyMsg>)
    | Sampling(call: nat, asked: int, i: nat)
    | SamplingSend(call: nat, asked: int, i: nat, dur: int64)
  {
    predicate InSelfSampling() {
      Sampling? || SamplingSend?
    }
  }

  /** Where the serve goroutine is. */
  datatype Server =
    | NotStarted
    | Ready
    | Writing(client: nat, mode: Mode, overhead: int64, rows: seq<Row>, next: nat)
    | Benching(client: nat, todo: seq<Sample>)
    | Replying(client: nat, reply: ReplyMsg)
    | StopReceived
    | Finished
  {
    predicate Busy() {
      Writing? || Benching? || Replying?
    }

    predicate Stopped() {
      StopReceived? || Finished?
    }
  }

  /** A report file: the place of its request, and its rows. */
  datatype Written = Written(pos: nat, mode: Mode, rows: seq<Row>)

  /** What a finished call was, and what it returned. `ended` is the number of messages sent when it returned. */
  datatype Outcome =
    | Refused(client: nat, act: ClientAct)
    | Queued(client: nat, act: ClientAct, pos: nat, begun: nat, ended: nat)
    | Answered(client: nat, act: ClientAct, pos: nat, begun: nat, ended: nat, reply: ReplyMsg)
    | SelfSampled(client: nat, call: nat, asked: int, ok: bool, flags: SampleFlags)

  /** The exported `Overhead_samples_*` variables. */
  datatype SampleFlags = SampleFlags(started: bool, finished: bool, aborted: bool)

  datatype Sys = Sys(
    cap: nat,
    initDone: bool,
    serveFinished: bool,
    outer: seq<Msg>,
    inner: seq<Msg>,
    server: Server,
    agg: State,
    clients: seq<Client>,
    spans: seq<Span>,
    flags: SampleFlags,
    // what follows only records the past
    initSpans: seq<string>,
    sent: seq<Sent>,
    effects: seq<seq<Sample>>,
    reports: seq<Written>,
    log: seq<Outcome>,
    selfCalls: nat)
  {
    predicate Open() {
      initDone && !serveFinished
    }

    function At(c: nat, pc: Client): Sys
      requires c < |clients|
    {
      this.(clients := clients[c := pc])
    }

    function Return(c: nat, o: Outcome): Sys
      requires c < |clients|
    {
      this.(clients := clients[c := Idle], log := log + [o])
    }

    /** The samples that the messages received so far have added, message by message. */
    function AddEffect(s: Sample): Sys
      requires effects != []
    {
      var n := |effects| - 1;
      this.(agg := agg.Handle(s), effects := effects[..n] + [effects[n] + [s]])
    }
  }

  /** Before Init, with any number of clients and spans still to come. */
  predicate Initial(s: Sys) {
    && !s.initDone && !s.serveFinished
    && s.outer == [] && s.inner == [] && s.server == NotStarted
    && s.agg == State(map[], []) && s.initSpans == []
    && (forall c :: 0 <= c < |s.clients| ==> s.clients[c] == Idle)
    && s.spans == [] && s.flags == SampleFlags(false, false, false)
    && s.sent == [] && s.effects == [] && s.reports == [] && s.log == [] && s.selfCalls == 0
  }

  // ---- Steps of the clients ----

  datatype ClientAct =
    | OpenSpan(name: string, variant: string)
    | EndSpan(id: nat, ending: string, dur: int64)
    | AskValues(span: string)
    | AskReport
    | AskBenchmarks
    | AskStop
    | SelfSample(n: int)
    | SelfIterate(dur: int64)
    | Send
    | TakeReply
  {
    /** A call that may have to wait, or be refused. */
    predicate IsCall() {
      EndSpan? || AskValues? || AskReport? || AskBenchmarks? || AskStop? || SelfSample?
    }
  }

  predicate ClientCan(s: Sys, c: nat, act: ClientAct) {
    c < |s.clients| &&
    match act
    case OpenSpan(_, _) | AskValues(_) | AskReport | AskBenchmarks | AskStop | SelfSample(_) => s.clients[c].Idle?
    case EndSpan(id, _, _) => s.clients[c].Idle? && id < |s.spans| && s.spans[id].owner == c
    case SelfIterate(_) => s.clients[c].Sampling?
    case Send => (s.clients[c].Sending? || s.clients[c].SamplingSend?) && |s.outer| < s.cap
    case TakeReply => s.clients[c].Waiting? && s.clients[c].reply.Some?
  }

  /** The check of `init_completed` and `Serve_finished` at the start of a call. */
  function Begin(s: Sys, c: nat, act: ClientAct, msg: Msg): Sys
    requires c < |s.clients|
  {
    if !s.Open() then s.Return(c, Refused(c, act)) else s.At(c, Sending(act, msg, FromCall, |s.sent|))
  }

  function ClientStep(s: Sys, c: nat, act: ClientAct): Sys
    requires ClientCan(s, c, act)
  {
    match act
    case OpenSpan(name, variant) => s.(spans := s.spans + [Span(c, name, variant, None)])
    case EndSpan(id, ending, dur) => EndStep(s, c, id, ending, dur)
    case AskValues(span) => Begin(s, c, act, Values(span, c))
    case AskReport => Begin(s, c, act, Report(c))
    case AskBenchmarks => Begin(s, c, act, Benchmarks(c))
    case AskStop => Begin(s, c, act, Stop)
    case SelfSample(n) => SelfSampleStep(s, c, n)
    case SelfIterate(dur) => SelfIterateStep(s, c, dur)
    case Send => SendStep(s, c)
    case TakeReply =>
      var w := s.clients[c];
      s.Return(c, Answered(c, w.act, w.pos, w.begun, |s.sent|, w.reply.value))
  }

  /** `A` and `A2`: mark the span ended, then check, then go on to send. */
  function EndStep(s: Sys, c: nat, id: nat, ending: string, dur: int64): Sys
    requires c < |s.clients| && id < |s.spans|
  {
    var span := s.spans[id];
    var call := Ending(ending, dur, s.Open());
    var marked := s.(spans := s.spans[id := span.End(call)]);
    var message := span.Message(call);
    if message.None? then marked.Return(c, Refused(c, EndSpan(id, ending, dur)))
    else marked.At(c, Sending(EndSpan(id, ending, dur), A(message.value), FromSpan(id), |s.sent|))
  }

  /** The start of `Latency_measure_self_sample`. */
  function SelfSampleStep(s: Sys, c: nat, n: int): Sys
    requires c < |s.clients|
  {
    if !s.initDone then s.Return(c, Refused(c, SelfSample(n)))
    else
      s.At(c, Sampling(s.selfCalls, n, 0)).(
        flags := SampleFlags(true, false, false),
        selfCalls := s.selfCalls + 1)
  }

  /** How many samples the loop takes: a negative argument asks for the default. */
  function Target(asked: int): nat {
    if asked < 0 then 1_000_000 else asked
  }

  /** One turn of its loop, up to the send; or its end. */
  function SelfIterateStep(s: Sys, c: nat, dur: int64): Sys
    requires c < |s.clients| && s.clients[c].Sampling?
  {
    var w := s.clients[c];
    if w.i >= Target(w.asked) then
      var flags := s.flags.(finished := true);
      s.(flags := flags).Return(c, SelfSampled(c, w.call, w.asked, true, flags))
    else if !s.Open() then
      var flags := s.flags.(finished := true, aborted := true);
      s.(flags := flags).Return(c, SelfSampled(c, w.call, w.asked, false, flags))
    else
      s.At(c, SamplingSend(w.call, w.asked, w.i, dur))
  }

  /** `comm_outer <- msg`, possible while the queue has room. */
  function SendStep(s: Sys, c: nat): Sys
    requires c < |s.clients| && (s.clients[c].Sending? || s.clients[c].SamplingSend?)
  {
    var w := s.clients[c];
    if w.SamplingSend? then
      Put(s, A(Sample(OVERHEAD_SPAN, "", w.dur)), FromSelfSampling(w.call)).At(c, Sampling(w.call, w.asked, w.i + 1))
    else if w.msg.IsRequest() then
      Put(s, w.msg, w.origin).At(c, Waiting(w.act, |s.sent|, w.begun, None))
    else
      Put(s, w.msg, w.origin).Return(c, Queued(c, w.act, |s.sent|, w.begun, |s.sent| + 1))
  }

  function Put(s: Sys, msg: Msg, origin: Origin): Sys {
    s.(outer := s.outer + [msg], sent := s.sent + [Sent(msg, origin)])
  }

  // ---- Steps of the server ----

  /** What is not determined by the state: whether the file of a report could be created, the switches it reads, and the
      samples that a benchmark run takes. */
  datatype Choice = Choice(created: bool, mode: Mode, bench: seq<Sample>)

  datatype ServerAct =
    | Start
    | Receive(choice: Choice)
    | ReceiveInner(choice: Choice)
    | WriteRow
    | FinishReport(dur: int64)
    | BenchStep
    | BenchDone
    | Deliver
    | Finish

  predicate ServerCan(s: Sys, act: ServerAct) {
    match act
    case Start => s.initDone && s.server.NotStarted?
    case Receive(ch) => s.server.Ready? && s.outer != [] && forall b :: b in ch.bench ==> BenchSample(b)
    case ReceiveInner(ch) => s.server.Ready? && s.inner != [] && forall b :: b in ch.bench ==> BenchSample(b)
    case WriteRow => s.server.Writing? && s.server.next < |s.agg.tracked|
    case FinishReport(_) => s.server.Writing? && s.server.next >= |s.agg.tracked| && s.effects != []
    case BenchStep => s.server.Benching? && s.server.todo != [] && s.effects != []
    case BenchDone => s.server.Benching? && s.server.todo == []
    case Deliver => s.server.Replying? && HasRoom(s, s.server.client)
    case Finish => s.server.StopReceived?
  }

  /** The reply channel of the request in hand has room. */
  predicate HasRoom(s: Sys, c: nat) {
    c < |s.clients| && s.clients[c].Waiting? && s.clients[c].pos + 1 == |s.effects| && s.clients[c].reply.None?
  }

  function ServerStep(s: Sys, act: ServerAct): Sys
    requires ServerCan(s, act)
  {
    match act
    case Start => s.(server := Ready)
    case Receive(ch) => Handle(s.(outer := s.outer[1..], effects := s.effects + [[]]), s.outer[0], ch)
    case ReceiveInner(ch) => Handle(s.(inner := s.inner[1..], effects := s.effects + [[]]), s.inner[0], ch)
    case WriteRow => WriteRowStep(s)
    case FinishReport(dur) =>
      var w := s.server;
      s.AddEffect(Sample(REPORT_SPAN, "", dur)).(
        reports := s.reports + [Written(|s.effects| - 1, w.mode, w.rows)],
        server := Replying(w.client, Done))
    case BenchStep => s.AddEffect(s.server.todo[0]).(server := Benching(s.server.client, s.server.todo[1..]))
    case BenchDone => s.(server := Replying(s.server.client, Done))
    case Deliver =>
      var c := s.server.client;
      s.At(c, s.clients[c].(reply := Some(s.server.reply))).(server := Ready)
    case Finish => s.(server := Finished, serveFinished := true)
  }

  /** `handle_comm_msg`, up to the first point where others may interfere. */
  function Handle(s: Sys, m: Msg, ch: Choice): Sys
    requires s.effects != []
  {
    match m
    case A(sample) => s.AddEffect(sample)
    case Values(span, c) => s.(server := Replying(c, Figures(Answer(s.agg, span))))
    case Benchmarks(c) => s.(server := Benching(c, ch.bench))
    case Report(c) =>
      if ch.created then s.(server := Writing(c, ch.mode, OverheadFor(s.agg, ch.mode), [], 0))
      else s.(server := Replying(c, Done))
    case Stop => s.(server := StopReceived)
  }

  /** One turn of the row loop of `report_inner`. */
  function WriteRowStep(s: Sys): Sys
    requires s.server.Writing? && s.server.next < |s.agg.tracked|
  {
    var w := s.server;
    var span := s.agg.tracked[w.next];
    var row := RowOf(span, StatsAt(s.agg, span), w.overhead, w.mode.subtract);
    s.(server := w.(next := w.next + 1, rows := w.rows + if Skipped(span, w.mode) then [] else [row]))
  }

  // ---- Runs ----

  datatype Step = Init(app: seq<string>, capacity: int) | ByClient(c: nat, act: ClientAct) | ByServer(sact: ServerAct)

  predicate Can(s: Sys, step: Step) {
    match step
    case Init(_, _) => !s.initDone
    case ByClient(c, act) => ClientCan(s, c, act)
    case ByServer(act) => ServerCan(s, act)
  }

  function Next(s: Sys, step: Step): Sys
    requires Can(s, step)
  {
    match step
    case Init(app, capacity) =>
      s.(cap := if capacity < 100 then 100 else capacity,
         initDone := true,
         initSpans := app + BuiltinSpans(),
         agg := InitState(app + BuiltinSpans()))
    case ByClient(c, act) => ClientStep(s, c, act)
    case ByServer(act) => ServerStep(s, act)
  }

  /** From s, the schedule leads to t. */
  ghost predicate Runs(s: Sys, schedule: seq<Step>, t: Sys)
    decreases |schedule|
  {
    if schedule == [] then s == t
    else Can(s, schedule[0]) && Runs(Next(s, schedule[0]), schedule[1..], t)
  }

  ghost predicate Reachable(t: Sys) {
    exists s, schedule :: Initial(s) && Runs(s, schedule, t)
  }
}
