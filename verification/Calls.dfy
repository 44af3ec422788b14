/** What every call gets: the reply to each request, in the sense of the sequential aggregator. */
module Calls {
  import opened Int64
  import opened Reports
  import opened Protocol
  import opened Invariants

  /** The request at this place has not been answered yet. */
  predicate Unanswered(s: Sys, pos: nat) {
    pos >= |s.effects| || (pos + 1 == |s.effects| && s.server.Busy())
  }

  /** r is what the sequential aggregator answers after exactly the messages sent before place pos. */
  ghost predicate RightReply(s: Sys, pos: nat, r: ReplyMsg)
    requires pos < |s.effects| <= |s.sent|
  {
    match s.sent[pos].msg
    case Values(span, _) => r == Figures(Answer(Sequential(s.initSpans, s.effects[..pos]), span))
    case _ => r == Done
  }

  /** The message that a call of client c puts on the queue. */
  predicate Carries(act: ClientAct, c: nat, msg: Msg) {
    match act
    case EndSpan(_, _, dur) => msg.A? && msg.sample.dur == dur
    case AskValues(span) => msg == Values(span, c)
    case AskReport => msg == Report(c)
    case AskBenchmarks => msg == Benchmarks(c)
    case AskStop => msg == Stop
    case _ => false
  }

  /** Client c waits for the reply to its own request, which sits at the place it remembers. */
  ghost predicate WaitingOk(s: Sys, c: nat)
    requires c < |s.clients| && s.clients[c].Waiting? && |s.effects| <= |s.sent|
  {
    var w := s.clients[c];
    && w.begun <= w.pos < |s.sent|
    && s.sent[w.pos].msg.IsRequest() && s.sent[w.pos].msg.client == c && Carries(w.act, c, s.sent[w.pos].msg)
    && (w.reply.None? <==> Unanswered(s, w.pos))
    && (w.reply.Some? ==> RightReply(s, w.pos, w.reply.value))
  }

  /** What holds of a single client. */
  ghost predicate ClientOk(s: Sys, c: nat, w: Client)
    requires c < |s.clients| && s.clients[c] == w && |s.effects| <= |s.sent|
  {
    && (w.Waiting? ==> WaitingOk(s, c))
    && (w.Sending? ==> w.begun <= |s.sent|)
    && (w.Sending? ==> Carries(w.act, c, w.msg))
    && (!s.initDone ==> w.Idle?)
  }

  ghost predicate ClientsOk(s: Sys) {
    |s.effects| <= |s.sent| && forall c :: 0 <= c < |s.clients| ==> ClientOk(s, c, s.clients[c])
  }

  /** Whoever has an unanswered request on the queue is waiting for it. */
  predicate RequestsOk(s: Sys) {
    forall i :: 0 <= i < |s.sent| && s.sent[i].msg.IsRequest() && Unanswered(s, i) ==> AwaitedAt(s, i)
  }

  predicate AwaitedAt(s: Sys, i: nat)
    requires i < |s.sent| && s.sent[i].msg.IsRequest()
  {
    var c := s.sent[i].msg.client;
    c < |s.clients| && s.clients[c].Waiting? && s.clients[c].pos == i
  }

  ghost predicate OutcomeOk(s: Sys, o: Outcome)
    requires |s.effects| <= |s.sent|
  {
    match o
    case Answered(c, act, pos, begun, ended, reply) =>
      && begun <= pos < ended <= |s.sent| && pos < |s.effects| && !Unanswered(s, pos)
      && s.sent[pos].msg.IsRequest() && s.sent[pos].msg.client == c && Carries(act, c, s.sent[pos].msg)
      && RightReply(s, pos, reply)
    case Queued(c, act, pos, begun, ended) =>
      && begun <= pos && pos + 1 == ended <= |s.sent|
      && !s.sent[pos].msg.IsRequest() && Carries(act, c, s.sent[pos].msg)
    case _ => true
  }

  ghost predicate LogOk(s: Sys) {
    |s.effects| <= |s.sent| && forall l :: 0 <= l < |s.log| ==> OutcomeOk(s, s.log[l])
  }

  ghost predicate CallsOk(s: Sys) {
    ClientsOk(s) && RequestsOk(s) && LogOk(s)
  }

  // ---- Steps that leave queue and server alone ----

  /** Client c moves on; no other client does. */
  predicate OnlyClient(s: Sys, t: Sys, c: nat) {
    && |t.clients| == |s.clients|
    && forall d :: 0 <= d < |s.clients| && d != c ==> t.clients[d] == s.clients[d]
  }

  lemma OthersKeep(s: Sys, t: Sys, c: nat)
    requires ClientsOk(s) && OnlyClient(s, t, c) && SameCore(s, t)
    requires |t.effects| <= |t.sent| && (c < |t.clients| ==> ClientOk(t, c, t.clients[c]))
    ensures ClientsOk(t)
  {
  }

  /** What a client may become without touching the queue, and what it may log. */
  ghost predicate QuietMove(s: Sys, t: Sys, c: nat) {
    && OnlyClient(s, t, c) && SameCore(s, t) && c < |s.clients|
    && |t.effects| <= |t.sent| && ClientOk(t, c, t.clients[c])
    && (s.clients[c].Waiting? ==> t.clients[c] == s.clients[c] || !Unanswered(s, s.clients[c].pos))
    && s.log <= t.log
    && forall l :: |s.log| <= l < |t.log| ==> OutcomeOk(s, t.log[l])
  }

  lemma QuietMoveKeeps(s: Sys, t: Sys, c: nat)
    requires CallsOk(s) && QuietMove(s, t, c)
    ensures CallsOk(t)
  {
    OthersKeep(s, t, c);
    forall i | 0 <= i < |t.sent| && t.sent[i].msg.IsRequest() && Unanswered(t, i) ensures AwaitedAt(t, i) {
      assert AwaitedAt(s, i);
    }
    forall l | 0 <= l < |t.log| ensures OutcomeOk(t, t.log[l]) {
      assert OutcomeOk(s, t.log[l]);
    }
  }

  lemma BeginMoves(s: Sys, c: nat, act: ClientAct, msg: Msg)
    requires CallsOk(s) && c < |s.clients| && s.clients[c].Idle? && Carries(act, c, msg)
    ensures QuietMove(s, Begin(s, c, act, msg), c)
  {
  }

  lemma TakeReplyMoves(s: Sys, c: nat)
    requires CallsOk(s) && ClientCan(s, c, TakeReply)
    ensures QuietMove(s, ClientStep(s, c, TakeReply), c)
  {
  }

  lemma EndMoves(s: Sys, c: nat, id: nat, ending: string, dur: int64)
    requires CallsOk(s) && ClientCan(s, c, EndSpan(id, ending, dur))
    ensures QuietMove(s, EndStep(s, c, id, ending, dur), c)
  {
  }

  lemma SelfSampleMoves(s: Sys, c: nat, n: int)
    requires CallsOk(s) && ClientCan(s, c, SelfSample(n))
    ensures QuietMove(s, SelfSampleStep(s, c, n), c)
  {
  }

  lemma SelfIterateMoves(s: Sys, c: nat, dur: int64)
    requires CallsOk(s) && ClientCan(s, c, SelfIterate(dur))
    ensures QuietMove(s, SelfIterateStep(s, c, dur), c)
  {
  }

  lemma QuietKeepsCalls(s: Sys, c: nat, act: ClientAct)
    requires CallsOk(s) && ClientCan(s, c, act) && !act.Send?
    ensures CallsOk(ClientStep(s, c, act))
  {
    match act
    case OpenSpan(name, variant) => OpenSpanKeeps(s, c, name, variant);
    case EndSpan(id, ending, dur) =>
      EndMoves(s, c, id, ending, dur);
      QuietMoveKeeps(s, ClientStep(s, c, act), c);
    case SelfSample(n) =>
      SelfSampleMoves(s, c, n);
      QuietMoveKeeps(s, ClientStep(s, c, act), c);
    case SelfIterate(dur) =>
      SelfIterateMoves(s, c, dur);
      QuietMoveKeeps(s, ClientStep(s, c, act), c);
    case AskValues(span) =>
      BeginMoves(s, c, act, Values(span, c));
      QuietMoveKeeps(s, ClientStep(s, c, act), c);
    case AskReport =>
      BeginMoves(s, c, act, Report(c));
      QuietMoveKeeps(s, ClientStep(s, c, act), c);
    case AskBenchmarks =>
      BeginMoves(s, c, act, Benchmarks(c));
      QuietMoveKeeps(s, ClientStep(s, c, act), c);
    case AskStop =>
      BeginMoves(s, c, act, Stop);
      QuietMoveKeeps(s, ClientStep(s, c, act), c);
    case TakeReply =>
      TakeReplyMoves(s, c);
      QuietMoveKeeps(s, ClientStep(s, c, act), c);
  }

  lemma OpenSpanKeeps(s: Sys, c: nat, name: string, variant: string)
    requires CallsOk(s) && ClientCan(s, c, OpenSpan(name, variant))
    ensures CallsOk(ClientStep(s, c, OpenSpan(name, variant)))
  {
  }

  // ---- Sending ----

  lemma SendKeepsCalls(s: Sys, c: nat)
    requires Core(s) && CallsOk(s) && ClientCan(s, c, Send)
    ensures CallsOk(SendStep(s, c))
  {
    var t := SendStep(s, c);
    SendFacts(s, c);
    SendClients(s, c);
    SendRequests(s, c);
    forall l | 0 <= l < |t.log| ensures OutcomeOk(t, t.log[l]) {
      if l < |s.log| {
        assert t.log[l] == s.log[l];
        OutcomeLasts(s, t, s.log[l]);
      }
    }
  }

  lemma OutcomeLasts(s: Sys, t: Sys, o: Outcome)
    requires |s.effects| <= |s.sent| && OutcomeOk(s, o)
    requires s.sent <= t.sent && SameServer(s, t)
    ensures OutcomeOk(t, o)
  {
  }

  lemma SendClients(s: Sys, c: nat)
    requires ClientsOk(s) && ClientCan(s, c, Send)
    ensures ClientsOk(SendStep(s, c))
  {
    var t := SendStep(s, c);
    forall d | 0 <= d < |t.clients| ensures ClientOk(t, d, t.clients[d]) {
      assert ClientOk(s, d, s.clients[d]);
    }
  }

  lemma SendRequests(s: Sys, c: nat)
    requires RequestsOk(s) && ClientCan(s, c, Send)
    requires s.clients[c].Sending? && s.clients[c].msg.IsRequest() ==> s.clients[c].msg.client == c
    ensures RequestsOk(SendStep(s, c))
  {
  }

  // ---- The server ----

  /** A step of the server that answers no request. */
  ghost predicate NoAnswer(s: Sys, t: Sys) {
    && t.clients == s.clients && t.log == s.log && t.sent == s.sent && t.initSpans == s.initSpans
    && (s.initDone ==> t.initDone)
    && |s.effects| <= |t.effects| <= |t.sent|
    && (forall p :: 0 <= p < |s.effects| ==> t.effects[..p] == s.effects[..p])
    && (forall i :: 0 <= i < |s.sent| && s.sent[i].msg.IsRequest() ==> Unanswered(t, i) == Unanswered(s, i))
  }

  lemma NoAnswerKeeps(s: Sys, t: Sys)
    requires CallsOk(s) && NoAnswer(s, t)
    ensures CallsOk(t)
  {
  }

  lemma ReceiveAnswersNothing(s: Sys, ch: Choice)
    requires QueueOk(s) && ServerCan(s, Receive(ch))
    ensures NoAnswer(s, ServerStep(s, Receive(ch)))
  {
  }

  lemma WorkAnswersNothing(s: Sys, act: ServerAct)
    requires |s.effects| <= |s.sent| && ServerCan(s, act)
    requires act.WriteRow? || act.FinishReport? || act.BenchStep? || act.BenchDone?
    ensures NoAnswer(s, ServerStep(s, act))
  {
  }

  lemma ReplyIsRight(s: Sys)
    requires Core(s) && s.initDone && s.server.Replying?
    ensures RightReply(s, |s.effects| - 1, s.server.reply)
  {
    var n := |s.effects| - 1;
    if s.sent[n].msg.Values? {
      assert EffectOk(s.sent[n].msg, s.effects[n]);
      EmptyEffect(s.initSpans, s.effects);
    }
  }

  lemma ReplyKeepsCalls(s: Sys)
    requires Core(s) && CallsOk(s) && ServerCan(s, Deliver)
    ensures CallsOk(ServerStep(s, Deliver))
  {
    var t := ServerStep(s, Deliver);
    ReplyIsRight(s);
    ReplyClients(s, t);
    forall i | 0 <= i < |t.sent| && t.sent[i].msg.IsRequest() && Unanswered(t, i) ensures AwaitedAt(t, i) {
      assert AwaitedAt(s, i);
    }
    forall l | 0 <= l < |t.log| ensures OutcomeOk(t, t.log[l]) {
      assert OutcomeOk(s, s.log[l]);
    }
  }

  lemma ReplyClients(s: Sys, t: Sys)
    requires ClientsOk(s) && ServerCan(s, Deliver) && t == ServerStep(s, Deliver)
    requires 0 < |s.effects| && RightReply(s, |s.effects| - 1, s.server.reply)
    ensures ClientsOk(t)
  {
    forall d | 0 <= d < |t.clients| && t.clients[d].Waiting? ensures WaitingOk(t, d) {
      assert WaitingOk(s, d) && WaitingOk(s, s.server.client);
    }
  }

  /** The server is never blocked on a reply channel: it is empty, and its owner waits at it. */
  lemma ReplyChannelHasRoom(s: Sys)
    requires Core(s) && CallsOk(s) && s.server.Replying?
    ensures HasRoom(s, s.server.client)
  {
  }

  lemma ServerKeepsCalls(s: Sys, act: ServerAct)
    requires Core(s) && CallsOk(s) && ServerCan(s, act)
    ensures CallsOk(ServerStep(s, act))
  {
    match act
    case Start => NoAnswerKeeps(s, s.(server := Ready));
    case Receive(ch) =>
      ReceiveAnswersNothing(s, ch);
      NoAnswerKeeps(s, ServerStep(s, act));
    case ReceiveInner(ch) =>
    case Deliver => ReplyKeepsCalls(s);
    case Finish => NoAnswerKeeps(s, s.(server := Finished, serveFinished := true));
    case WriteRow =>
      WorkAnswersNothing(s, act);
      NoAnswerKeeps(s, ServerStep(s, act));
    case FinishReport(_) =>
      WorkAnswersNothing(s, act);
      NoAnswerKeeps(s, ServerStep(s, act));
    case BenchStep =>
      WorkAnswersNothing(s, act);
      NoAnswerKeeps(s, ServerStep(s, act));
    case BenchDone =>
      WorkAnswersNothing(s, act);
      NoAnswerKeeps(s, ServerStep(s, act));
  }

  // ---- All steps, all runs ----

  ghost predicate Sound(s: Sys) {
    Core(s) && CallsOk(s)
  }

  lemma InitKeepsCalls(s: Sys, app: seq<string>, capacity: int)
    requires Sound(s) && !s.initDone
    ensures CallsOk(Next(s, Step.Init(app, capacity)))
  {
  }

  lemma StepKeepsSound(s: Sys, step: Step)
    requires Sound(s) && Can(s, step)
    ensures Sound(Next(s, step))
  {
    match step
    case Init(app, capacity) =>
      InitKeepsCore(s, app, capacity);
      InitKeepsCalls(s, app, capacity);
    case ByClient(c, act) =>
      ClientFacts(s, c, act);
      if act.Send? {
        SentOneKeeps(s, SendStep(s, c), SentBy(s.clients[c]));
        SendKeepsCalls(s, c);
      } else {
        SameCoreKeeps(s, ClientStep(s, c, act));
        QuietKeepsCalls(s, c, act);
      }
    case ByServer(act) =>
      ServerKeepsCore(s, act);
      ServerKeepsCalls(s, act);
  }

  lemma {:induction false} RunKeepsSound(s: Sys, schedule: seq<Step>, t: Sys)
    requires Sound(s) && Runs(s, schedule, t)
    ensures Sound(t)
    decreases |schedule|
  {
    if schedule != [] {
      StepKeepsSound(s, schedule[0]);
      RunKeepsSound(Next(s, schedule[0]), schedule[1..], t);
    }
  }

  lemma ReachableIsSound(t: Sys)
    requires Reachable(t)
    ensures Sound(t)
  {
    var s, schedule :| Initial(s) && Runs(s, schedule, t);
    RunKeepsSound(s, schedule, t);
  }
}
