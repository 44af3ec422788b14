/** What the steps of a schedule ask for is what happens: Init's arguments, the calls of each client and the message of
    each call. */
module Schedules {
  import opened Int64
  import opened Aggregate
  import opened Builtins
  import opened SpanSamples
  import opened Protocol
  import opened Invariants
  import opened OnceOnly
  import opened Progress

  // ---- Init ----

  predicate Settled(s: Sys, t: Sys) {
    t.initDone && t.cap == s.cap && t.initSpans == s.initSpans
  }

  lemma StepSettles(s: Sys, step: Step)
    requires s.initDone && Can(s, step)
    ensures Settled(s, Next(s, step))
  {
    match step
    case ByClient(c, act) => ClientSettles(s, c, act);
    case ByServer(act) => ServerSettles(s, act);
  }

  lemma ClientSettles(s: Sys, c: nat, act: ClientAct)
    requires s.initDone && ClientCan(s, c, act)
    ensures Settled(s, ClientStep(s, c, act))
  {
    ClientFacts(s, c, act);
  }

  lemma ServerSettles(s: Sys, act: ServerAct)
    requires s.initDone && ServerCan(s, act)
    ensures Settled(s, ServerStep(s, act))
  {
  }

  lemma {:induction false} RunSettles(s: Sys, schedule: seq<Step>, t: Sys)
    requires s.initDone && Runs(s, schedule, t)
    ensures Settled(s, t) && forall i :: 0 <= i < |schedule| ==> !schedule[i].Init?
    decreases |schedule|
  {
    if schedule != [] {
      StepSettles(s, schedule[0]);
      RunSettles(Next(s, schedule[0]), schedule[1..], t);
    }
  }

  /** Init takes effect once, whoever runs beside it: in the end the queue has the capacity that it asked for, or 100 if
      it asked for less, and the Init list is its own followed by the built-in spans. */
  lemma {:induction false} InitSettles(s: Sys, schedule: seq<Step>, t: Sys, i: nat)
    requires Runs(s, schedule, t) && i < |schedule| && schedule[i].Init?
    ensures t.initDone && t.initSpans == schedule[i].app + BuiltinSpans()
    ensures t.cap == if schedule[i].capacity < 100 then 100 else schedule[i].capacity
    ensures forall j :: 0 <= j < |schedule| && schedule[j].Init? ==> j == i
    decreases |schedule|
  {
    var rest := schedule[1..];
    if i == 0 {
      RunSettles(Next(s, schedule[0]), rest, t);
    } else {
      InitSettles(Next(s, schedule[0]), rest, t, i - 1);
      if schedule[0].Init? {
        RunSettles(Next(s, schedule[0]), rest, t);
      }
    }
  }

  // ---- The calls of a client ----

  /** The calls that client c makes in a schedule, in order. */
  function Made(schedule: seq<Step>, c: nat): seq<ClientAct>
    decreases |schedule|
  {
    if schedule == [] then [] else CallIn(schedule[0], c) + Made(schedule[1..], c)
  }

  function CallIn(step: Step, c: nat): seq<ClientAct> {
    if step.ByClient? && step.c == c && step.act.IsCall() then [step.act] else []
  }

  /** The calls that client c has returned from, in order. */
  function ReturnedFrom(log: seq<Outcome>, c: nat): seq<ClientAct> {
    if log == [] then []
    else
      var n := |log| - 1;
      ReturnedFrom(log[..n], c) + if log[n].client == c then [CallOf(log[n])] else []
  }

  function CallOf(o: Outcome): ClientAct {
    if o.SelfSampled? then SelfSample(o.asked) else o.act
  }

  /** The call that a client is in. */
  function UnderWay(w: Client): seq<ClientAct> {
    match w
    case Idle => []
    case Sending(act, _, _, _) => [act]
    case Waiting(act, _, _, _) => [act]
    case Sampling(_, asked, _) => [SelfSample(asked)]
    case SamplingSend(_, asked, _, _) => [SelfSample(asked)]
  }

  function CallsSoFar(s: Sys, c: nat): seq<ClientAct>
    requires c < |s.clients|
  {
    ReturnedFrom(s.log, c) + UnderWay(s.clients[c])
  }

  /** How a step can change what is known of the calls of c: not at all; by a new call; or by a return from the call
      that c was in. */
  ghost predicate CallMove(s: Sys, t: Sys, c: nat, made: seq<ClientAct>) {
    && c < |s.clients| == |t.clients|
    && (|| (t.log == s.log && UnderWay(t.clients[c]) == UnderWay(s.clients[c]) + made)
        || (exists o: Outcome :: t.log == s.log + [o] &&
              if o.client == c then t.clients[c].Idle? && [CallOf(o)] == UnderWay(s.clients[c]) + made
              else t.clients[c] == s.clients[c] && made == []))
  }

  lemma Regroup<T>(a: seq<T>, b: seq<T>, c: seq<T>)
    ensures a + b + c == a + (b + c) && a + [] == a
  {
  }

  lemma CallMoveTells(s: Sys, t: Sys, c: nat, made: seq<ClientAct>)
    requires CallMove(s, t, c, made)
    ensures CallsSoFar(t, c) == CallsSoFar(s, c) + made
  {
    Regroup(ReturnedFrom(s.log, c), UnderWay(s.clients[c]), made);
    assert t.log != s.log ==> t.log[..|t.log| - 1] == s.log;
  }

  lemma BeginCalls(s: Sys, c: nat, act: ClientAct, msg: Msg)
    requires c < |s.clients| && s.clients[c].Idle?
    ensures CallMove(s, Begin(s, c, act, msg), c, [act])
  {
  }

  lemma EndCalls(s: Sys, c: nat, id: nat, ending: string, dur: int64)
    requires ClientCan(s, c, EndSpan(id, ending, dur))
    ensures CallMove(s, EndStep(s, c, id, ending, dur), c, [EndSpan(id, ending, dur)])
  {
  }

  lemma SelfCalls(s: Sys, c: nat, act: ClientAct)
    requires ClientCan(s, c, act) && (act.SelfSample? || act.SelfIterate?)
    ensures CallMove(s, ClientStep(s, c, act), c, if act.SelfSample? then [act] else [])
  {
  }

  lemma SendCalls(s: Sys, c: nat)
    requires ClientCan(s, c, Send)
    ensures CallMove(s, SendStep(s, c), c, [])
  {
  }

  lemma ClientCalls(s: Sys, c: nat, act: ClientAct)
    requires ClientCan(s, c, act)
    ensures CallMove(s, ClientStep(s, c, act), c, if act.IsCall() then [act] else [])
  {
    match act
    case OpenSpan(_, _) =>
    case EndSpan(id, ending, dur) => EndCalls(s, c, id, ending, dur);
    case AskValues(span) => BeginCalls(s, c, act, Values(span, c));
    case AskReport => BeginCalls(s, c, act, Report(c));
    case AskBenchmarks => BeginCalls(s, c, act, Benchmarks(c));
    case AskStop => BeginCalls(s, c, act, Stop);
    case SelfSample(_) => SelfCalls(s, c, act);
    case SelfIterate(_) => SelfCalls(s, c, act);
    case Send => SendCalls(s, c);
    case TakeReply =>
  }

  lemma OthersCalls(s: Sys, d: nat, act: ClientAct, c: nat)
    requires ClientCan(s, d, act) && c < |s.clients| && c != d
    ensures CallMove(s, ClientStep(s, d, act), c, [])
  {
  }

  lemma ServerCalls(s: Sys, act: ServerAct, c: nat)
    requires ServerCan(s, act) && c < |s.clients|
    ensures CallMove(s, ServerStep(s, act), c, [])
  {
  }

  lemma StepCalls(s: Sys, step: Step, c: nat)
    requires Can(s, step) && c < |s.clients|
    ensures CallMove(s, Next(s, step), c, CallIn(step, c))
  {
    match step
    case Init(_, _) =>
    case ByClient(d, act) =>
      if d == c {
        ClientCalls(s, c, act);
      } else {
        OthersCalls(s, d, act, c);
      }
    case ByServer(act) => ServerCalls(s, act, c);
  }

  lemma {:induction false} RunCalls(s: Sys, schedule: seq<Step>, t: Sys, c: nat)
    requires Runs(s, schedule, t) && c < |s.clients|
    ensures c < |t.clients| && CallsSoFar(t, c) == CallsSoFar(s, c) + Made(schedule, c)
    decreases |schedule|
  {
    if schedule == [] {
      Regroup(CallsSoFar(s, c), [], []);
    } else {
      var u := Next(s, schedule[0]);
      StepCalls(s, schedule[0], c);
      CallMoveTells(s, u, c, CallIn(schedule[0], c));
      RunCalls(u, schedule[1..], t, c);
      Regroup(CallsSoFar(s, c), CallIn(schedule[0], c), Made(schedule[1..], c));
    }
  }

  /** Each client returns from its calls in the order it made them, from each of them once, with what it asked on
      record; and what is missing is the call it is in. */
  lemma CallsReturnInOrder(s: Sys, schedule: seq<Step>, t: Sys, c: nat)
    requires Initial(s) && Runs(s, schedule, t) && c < |s.clients|
    ensures c < |t.clients| && Made(schedule, c) == ReturnedFrom(t.log, c) + UnderWay(t.clients[c])
  {
    RunCalls(s, schedule, t, c);
  }

  // ---- What is on record of a call ----

  /** Client c makes no call in this schedule. */
  predicate NoCallBy(schedule: seq<Step>, c: nat) {
    forall i :: 0 <= i < |schedule| ==> CallIn(schedule[i], c) == []
  }

  /** A call is refused before Init and once serve has finished, self-sampling before Init only; and a span is ended
      once. */
  predicate Refusing(s: Sys, act: ClientAct) {
    match act
    case SelfSample(_) => !s.initDone
    case EndSpan(id, _, _) => !s.initDone || s.serveFinished || (id < |s.spans| && s.spans[id].ended.Some?)
    case _ => !s.initDone || s.serveFinished
  }

  /** The outcome is one of this call, begun when so many messages had been sent. */
  predicate OutcomeOf(o: Outcome, act: ClientAct, begun: nat, refused: bool) {
    CallOf(o) == act && (o.Refused? <==> refused) && (o.Queued? || o.Answered? ==> o.begun == begun)
  }

  /** What client c has been doing since the log was that long: it is in this call, or has returned from it. */
  predicate SinceCall(s: Sys, c: nat, from: nat, act: ClientAct, begun: nat, refused: bool) {
    && c < |s.clients| && from <= |s.log|
    && (UnderWay(s.clients[c]) == [] || (UnderWay(s.clients[c]) == [act] && !refused))
    && (s.clients[c].Sending? || s.clients[c].Waiting? ==> s.clients[c].begun == begun)
    && (forall l :: from <= l < |s.log| && s.log[l].client == c ==> OutcomeOf(s.log[l], act, begun, refused))
  }

  lemma CallStarts(s: Sys, c: nat, act: ClientAct)
    requires ClientCan(s, c, act) && act.IsCall()
    ensures SinceCall(ClientStep(s, c, act), c, |s.log|, act, |s.sent|, Refusing(s, act))
  {
  }

  lemma CallGoesOn(s: Sys, c: nat, act: ClientAct, from: nat, call: ClientAct, begun: nat, refused: bool)
    requires SinceCall(s, c, from, call, begun, refused) && ClientCan(s, c, act) && !act.IsCall()
    ensures SinceCall(ClientStep(s, c, act), c, from, call, begun, refused)
  {
  }

  lemma OtherClientLogs(s: Sys, d: nat, act: ClientAct, c: nat)
    requires ClientCan(s, d, act) && c != d
    ensures var t := ClientStep(s, d, act);
            s.log <= t.log && forall l :: |s.log| <= l < |t.log| ==> t.log[l].client != c
  {
  }

  lemma ServerKeepsCall(s: Sys, act: ServerAct, c: nat)
    requires ServerCan(s, act) && c < |s.clients|
    ensures var t := ServerStep(s, act);
            && t.log == s.log && |t.clients| == |s.clients|
            && (t.clients[c] == s.clients[c]
                || (s.clients[c].Waiting? && t.clients[c] == s.clients[c].(reply := t.clients[c].reply)))
  {
    ServerKeepsSpans(s, act);
  }

  lemma OthersGoOn(s: Sys, step: Step, c: nat, from: nat, call: ClientAct, begun: nat, refused: bool)
    requires SinceCall(s, c, from, call, begun, refused) && Can(s, step) && !(step.ByClient? && step.c == c)
    ensures SinceCall(Next(s, step), c, from, call, begun, refused)
  {
    match step
    case Init(_, _) =>
    case ByClient(d, act) =>
      OneMoves(s, d, act);
      OtherClientLogs(s, d, act, c);
    case ByServer(act) => ServerKeepsCall(s, act, c);
  }

  lemma {:induction false} RunGoesOn(
      s: Sys, schedule: seq<Step>, t: Sys, c: nat, from: nat, call: ClientAct, begun: nat, refused: bool)
    requires SinceCall(s, c, from, call, begun, refused) && Runs(s, schedule, t) && NoCallBy(schedule, c)
    ensures SinceCall(t, c, from, call, begun, refused)
    decreases |schedule|
  {
    if schedule != [] {
      var step := schedule[0];
      if step.ByClient? && step.c == c {
        CallGoesOn(s, c, step.act, from, call, begun, refused);
      } else {
        OthersGoOn(s, step, c, from, call, begun, refused);
      }
      RunGoesOn(Next(s, step), schedule[1..], t, c, from, call, begun, refused);
    }
  }

  /** Until a client makes another call, all that it has logged since its last is the outcome of that one, begun when as
      many messages had been sent as had been when it was made; and it was refused just when the state it was made in
      says so. */
  lemma OutcomeTells(s: Sys, c: nat, act: ClientAct, schedule: seq<Step>, t: Sys, l: nat)
    requires ClientCan(s, c, act) && act.IsCall() && Runs(ClientStep(s, c, act), schedule, t) && NoCallBy(schedule, c)
    requires |s.log| <= l < |t.log| && t.log[l].client == c
    ensures CallOf(t.log[l]) == act && (t.log[l].Refused? <==> Refusing(s, act))
    ensures t.log[l].Queued? || t.log[l].Answered? ==> t.log[l].begun == |s.sent|
  {
    CallStarts(s, c, act);
    RunGoesOn(ClientStep(s, c, act), schedule, t, c, |s.log|, act, |s.sent|, Refusing(s, act));
  }

  // ---- The message of a call ----

  predicate NoneBy(schedule: seq<Step>, c: nat) {
    forall i :: 0 <= i < |schedule| ==> !(schedule[i].ByClient? && schedule[i].c == c)
  }

  lemma OthersLeave(s: Sys, step: Step, c: nat)
    requires Can(s, step) && c < |s.clients| && !(step.ByClient? && step.c == c)
    ensures c < |Next(s, step).clients|
    ensures s.clients[c].Waiting? || Next(s, step).clients[c] == s.clients[c]
    ensures s.clients[c].Waiting? ==> Next(s, step).clients[c].Waiting?
  {
    match step
    case Init(_, _) =>
    case ByClient(d, act) => OneMoves(s, d, act);
    case ByServer(act) => ServerKeepsSpans(s, act);
  }

  lemma {:induction false} RunLeaves(s: Sys, schedule: seq<Step>, t: Sys, c: nat)
    requires Runs(s, schedule, t) && c < |s.clients| && NoneBy(schedule, c)
    ensures c < |t.clients|
    ensures s.clients[c].Waiting? || t.clients[c] == s.clients[c]
    ensures s.clients[c].Waiting? ==> t.clients[c].Waiting?
    decreases |schedule|
  {
    if schedule != [] {
      OthersLeave(s, schedule[0], c);
      RunLeaves(Next(s, schedule[0]), schedule[1..], t, c);
    }
  }

  /** What a client puts on the queue next after this act. */
  predicate IsMessageOf(s: Sys, c: nat, act: ClientAct, m: Msg) {
    match act
    case EndSpan(id, ending, dur) =>
      id < |s.spans| && m == A(Sample(s.spans[id].name, Combined(s.spans[id].begunAs, ending), dur))
    case AskValues(span) => m == Values(span, c)
    case AskReport => m == Report(c)
    case AskBenchmarks => m == Benchmarks(c)
    case AskStop => m == Stop
    case SelfIterate(dur) => m == A(Sample("LL.no-op", "", dur))
    case _ => false
  }

  lemma ActLeadsToSend(s: Sys, c: nat, act: ClientAct)
    requires ClientCan(s, c, act) && !act.Send?
    ensures var w := ClientStep(s, c, act).clients[c];
            w.Sending? || w.SamplingSend? ==> IsMessageOf(s, c, act, SentBy(w).msg)
  {
  }

  /** If the next thing that a client does after some act is to send, then it sends the message of that act, whatever
      the others do in between. */
  lemma NextSend(s: Sys, c: nat, act: ClientAct, schedule: seq<Step>, t: Sys)
    requires ClientCan(s, c, act) && !act.Send?
    requires Runs(ClientStep(s, c, act), schedule, t) && NoneBy(schedule, c) && ClientCan(t, c, Send)
    ensures |SendStep(t, c).sent| == |t.sent| + 1 && SendStep(t, c).sent[..|t.sent|] == t.sent
    ensures IsMessageOf(s, c, act, SendStep(t, c).sent[|t.sent|].msg)
  {
    ActLeadsToSend(s, c, act);
    RunLeaves(ClientStep(s, c, act), schedule, t, c);
    SendFacts(t, c);
  }
}
