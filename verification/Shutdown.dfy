/** Stop: what was handled, what is frozen, and who waits for ever. */
module Shutdown {
  import opened Options
  import opened Protocol
  import opened Invariants
  import opened Calls
  import opened Progress

  /** The place of the stop message that the server received. */
  function StopAt(s: Sys): int {
    |s.effects| - 1
  }

  /** The messages handled are exactly those queued ahead of the first stop. */
  lemma HandledAheadOfStop(s: Sys)
    requires Reachable(s) && s.server.Stopped()
    ensures 0 <= StopAt(s) < |s.sent| && s.sent[StopAt(s)].msg == Stop
    ensures forall i :: 0 <= i < StopAt(s) ==> s.sent[i].msg != Stop
    ensures s.agg == Sequential(s.initSpans, s.effects[..StopAt(s)])
    ensures forall i :: 0 <= i < StopAt(s) ==> EffectOk(s.sent[i].msg, s.effects[i])
  {
    ReachableIsSound(s);
    StopAddsNothing(s);
  }

  lemma StopAddsNothing(s: Sys)
    requires StateOk(s) && EffectsOk(s) && StopOk(s) && s.initDone && s.server.Stopped()
    ensures s.agg == Sequential(s.initSpans, s.effects[..StopAt(s)])
  {
    assert EffectOk(s.sent[StopAt(s)].msg, s.effects[StopAt(s)]);
    EmptyEffect(s.initSpans, s.effects);
  }

  /** s has stopped, and t is a later state: statistics, rows and reports are those of s. */
  predicate Frozen(s: Sys, t: Sys) {
    && t.server.Stopped() && t.agg == s.agg && t.effects == s.effects && t.reports == s.reports
    && t.initSpans == s.initSpans && s.sent <= t.sent && |t.clients| == |s.clients|
  }

  lemma StepFreezes(s: Sys, step: Step)
    requires Sound(s) && s.server.Stopped() && Can(s, step)
    ensures Frozen(s, Next(s, step))
  {
    if step.ByClient? {
      ClientFacts(s, step.c, step.act);
      ClientCount(s, step.c, step.act);
    }
  }

  lemma ClientCount(s: Sys, c: nat, act: ClientAct)
    requires ClientCan(s, c, act)
    ensures |ClientStep(s, c, act).clients| == |s.clients|
  {
  }

  /** From the moment serve receives a stop, nothing that a run does changes a statistic, a row or a report. */
  lemma {:induction false} StoppedForGood(s: Sys, schedule: seq<Step>, t: Sys)
    requires Sound(s) && s.server.Stopped() && Runs(s, schedule, t)
    ensures Sound(t) && Frozen(s, t)
    decreases |schedule|
  {
    if schedule != [] {
      StepKeepsSound(s, schedule[0]);
      StepFreezes(s, schedule[0]);
      StoppedForGood(Next(s, schedule[0]), schedule[1..], t);
    }
  }

  /** Every request that was answered was queued ahead of the stop. */
  lemma AnsweredAheadOfStop(s: Sys, l: nat)
    requires Reachable(s) && s.server.Stopped() && l < |s.log| && s.log[l].Answered?
    ensures s.log[l].pos < StopAt(s)
  {
    ReachableIsSound(s);
    AheadOfStop(s, s.log[l]);
  }

  lemma AheadOfStop(s: Sys, o: Outcome)
    requires StopOk(s) && s.server.Stopped() && o.Answered? && OutcomeOk(s, o)
    ensures o.pos < StopAt(s)
  {
  }

  /** The client waits for a request that sits behind the stop. */
  predicate Stranded(s: Sys, c: nat) {
    c < |s.clients| && exists i :: StopAt(s) < i < |s.sent| && s.sent[i].msg.IsRequest() && s.sent[i].msg.client == c
  }

  /** After the stop, the callers that wait with no reply are exactly those whose request is behind it. */
  lemma StrandedExactly(s: Sys, c: nat)
    requires Reachable(s) && s.server.Stopped() && c < |s.clients|
    ensures s.clients[c].Waiting? && s.clients[c].reply.None? <==> Stranded(s, c)
  {
    ReachableIsSound(s);
    if s.clients[c].Waiting? && s.clients[c].reply.None? {
      assert ClientOk(s, c, s.clients[c]);
      assert s.sent[s.clients[c].pos].msg.IsRequest();
    }
    if Stranded(s, c) {
      var i :| StopAt(s) < i < |s.sent| && s.sent[i].msg.IsRequest() && s.sent[i].msg.client == c;
      assert AwaitedAt(s, i);
      assert ClientOk(s, c, s.clients[c]);
    }
  }

  /** They stay where they are in every continuation. */
  lemma StrandedForGood(s: Sys, schedule: seq<Step>, t: Sys, c: nat)
    requires Reachable(s) && s.server.Stopped() && Runs(s, schedule, t) && Stranded(s, c)
    ensures c < |t.clients| && t.clients[c].Waiting? && t.clients[c].reply.None?
  {
    ReachableIsSound(s);
    StoppedForGood(s, schedule, t);
    var i :| StopAt(s) < i < |s.sent| && s.sent[i].msg.IsRequest() && s.sent[i].msg.client == c;
    assert t.sent[i] == s.sent[i] && Unanswered(t, i);
    assert AwaitedAt(t, i);
    assert ClientOk(t, c, t.clients[c]);
  }

  /** No call that is under way can move, and the server is done. */
  predicate AtRest(s: Sys) {
    && s.server.Finished?
    && forall c :: 0 <= c < |s.clients| ==>
         !ClientCan(s, c, Send) && !ClientCan(s, c, TakeReply) && !ClientCan(s, c, SelfIterate(0))
  }

  /** At the end every client is back from its calls, except those stranded behind the stop and those blocked at a
      queue that nobody empties any more. */
  lemma WhoNeverReturns(s: Sys, c: nat)
    requires Reachable(s) && AtRest(s) && c < |s.clients|
    ensures match s.clients[c] {
              case Idle => !Stranded(s, c)
              case Waiting(_, pos, _, reply) => reply.None? && pos > StopAt(s) && Stranded(s, c)
              case Sending(_, _, _, _) => |s.outer| == s.cap && !Stranded(s, c)
              case SamplingSend(_, _, _, _) => |s.outer| == s.cap && !Stranded(s, c)
              case Sampling(_, _, _) => false
            }
  {
    ReachableIsSound(s);
    StrandedExactly(s, c);
    Resting(s, c);
    if s.clients[c].Waiting? {
      BehindStop(s, c);
    }
  }

  lemma Resting(s: Sys, c: nat)
    requires QueueOk(s) && AtRest(s) && c < |s.clients|
    ensures !s.clients[c].Sampling? && (s.clients[c].Waiting? ==> s.clients[c].reply.None?)
    ensures s.clients[c].Sending? || s.clients[c].SamplingSend? ==> |s.outer| == s.cap
  {
    assert !ClientCan(s, c, Send) && !ClientCan(s, c, TakeReply) && !ClientCan(s, c, SelfIterate(0));
  }

  lemma BehindStop(s: Sys, c: nat)
    requires StopOk(s) && ClientsOk(s) && s.server.Stopped()
    requires c < |s.clients| && s.clients[c].Waiting? && s.clients[c].reply.None?
    ensures s.clients[c].pos > StopAt(s)
  {
    assert ClientOk(s, c, s.clients[c]);
  }

  /** New calls are refused once serve has finished. */
  lemma ClosedAfterFinish(s: Sys, c: nat, act: ClientAct)
    requires Reachable(s) && s.server.Finished? && ClientCan(s, c, act)
    requires act.AskValues? || act.AskReport? || act.AskBenchmarks? || act.AskStop? || act.EndSpan?
    ensures var t := ClientStep(s, c, act);
            t.clients == s.clients && t.outer == s.outer && t.sent == s.sent && t.log == s.log + [Refused(c, act)]
  {
    ReachableIsSound(s);
    assert s.clients[c := Idle] == s.clients;
  }

  /** A request that goes out after the stop was received strands its caller, even though the call passed the check of
      `Serve_finished` at its start. */
  lemma LateSendStrands(s: Sys, c: nat)
    requires Reachable(s) && s.server.Stopped() && ClientCan(s, c, Send)
    requires s.clients[c].Sending? && s.clients[c].msg.IsRequest()
    ensures Stranded(SendStep(s, c), c)
  {
    ReachableIsSound(s);
    assert ClientOk(s, c, s.clients[c]);
    var t := SendStep(s, c);
    assert t.sent[|s.sent|].msg == s.clients[c].msg;
  }

  lemma {:induction false} Onward(s: Sys, schedule: seq<Step>, t: Sys, step: Step)
    requires Runs(s, schedule, t) && Can(t, step)
    ensures Runs(s, schedule + [step], Next(t, step))
    decreases |schedule|
  {
    if schedule == [] {
      assert [] + [step] == [step] && [step][1..] == [];
    } else {
      Onward(Next(s, schedule[0]), schedule[1..], t, step);
      assert (schedule + [step])[1..] == schedule[1..] + [step];
    }
  }

  /** Client d is about to send a values request, and everything is as in s but for a stop that may be queued. */
  predicate Lurking(s: Sys, t: Sys, d: nat, span: string) {
    && t.initDone && |t.clients| == |s.clients| && d < |t.clients| && t.cap == s.cap && t.effects == s.effects
    && t.clients[d] == Sending(AskValues(span), Values(span, d), FromCall, |s.sent|)
  }

  lemma AskAndStop(s: Sys, c: nat, d: nat, span: string) returns (t: Sys)
    requires s.Open() && c != d && c < |s.clients| && s.clients[c].Idle? && d < |s.clients| && s.clients[d].Idle?
    ensures ClientCan(s, d, AskValues(span)) && ClientCan(ClientStep(s, d, AskValues(span)), c, AskStop)
    ensures t == ClientStep(ClientStep(s, d, AskValues(span)), c, AskStop)
    ensures Lurking(s, t, d, span) && t.clients[c] == Sending(AskStop, Stop, FromCall, |s.sent|)
    ensures t.server == s.server && t.outer == s.outer && t.sent == s.sent
  {
    t := ClientStep(ClientStep(s, d, AskValues(span)), c, AskStop);
  }

  lemma SendStop(s: Sys, t: Sys, c: nat, d: nat, span: string) returns (u: Sys)
    requires Lurking(s, t, d, span) && c != d
    requires c < |t.clients| && t.clients[c] == Sending(AskStop, Stop, FromCall, |s.sent|)
    requires t.outer == [] && t.cap > 0 && t.sent == s.sent
    ensures ClientCan(t, c, Send) && u == ClientStep(t, c, Send)
    ensures Lurking(s, u, d, span) && u.server == t.server && u.outer == [Stop] && |u.sent| == |s.sent| + 1
  {
    u := SendStep(t, c);
  }

  lemma StopAndFinish(s: Sys, t: Sys, d: nat, span: string) returns (u: Sys)
    requires Lurking(s, t, d, span) && t.server.Ready? && t.outer == [Stop]
    ensures ServerCan(t, Receive(NO_CHOICE)) && ServerCan(ServerStep(t, Receive(NO_CHOICE)), Finish)
    ensures u == ServerStep(ServerStep(t, Receive(NO_CHOICE)), Finish)
    ensures u.server.Finished? && u.outer == [] && u.sent == t.sent && |u.effects| == |s.effects| + 1
    ensures u.cap == t.cap && |u.clients| == |t.clients| && u.clients[d] == t.clients[d]
  {
    u := ServerStep(ServerStep(t, Receive(NO_CHOICE)), Finish);
  }

  lemma SendLate(t: Sys, d: nat, span: string, begun: nat) returns (u: Sys)
    requires d < |t.clients| && t.clients[d] == Sending(AskValues(span), Values(span, d), FromCall, begun)
    requires t.server.Finished? && t.outer == [] && t.cap > 0 && |t.sent| == |t.effects|
    ensures ClientCan(t, d, Send) && u == ClientStep(t, d, Send)
    ensures u.server.Finished? && Stranded(u, d) && u.clients[d] == Waiting(AskValues(span), |t.sent|, begun, None)
  {
    u := SendStep(t, d);
    assert u.sent[|t.sent|].msg == Values(span, d);
  }

  /** Such calls do occur: from every open state with an empty queue and two idle clients, one of them can stop the
      server while the other, past its check, has yet to send. */
  lemma LateCallCanHang(s: Sys, c: nat, d: nat, span: string) returns (t: Sys)
    requires Reachable(s) && s.Open() && s.server.Ready? && s.outer == [] && c != d
    requires c < |s.clients| && s.clients[c].Idle? && d < |s.clients| && s.clients[d].Idle?
    ensures Reachable(t) && t.server.Finished? && Stranded(t, d)
    ensures t.clients[d] == Waiting(AskValues(span), |s.sent| + 1, |s.sent|, None)
  {
    RoomInQueue(s);
    var s2 := AskAndStop(s, c, d, span);
    Reaches(s, ByClient(d, AskValues(span)));
    Reaches(ClientStep(s, d, AskValues(span)), ByClient(c, AskStop));
    var s3 := SendStop(s, s2, c, d, span);
    Reaches(s2, ByClient(c, Send));
    t := FinishThenSend(s, s3, d, span);
  }

  lemma RoomInQueue(s: Sys)
    requires Reachable(s) && s.initDone
    ensures s.cap > 0 && |s.sent| == |s.effects| + |s.outer|
  {
    ReachableIsSound(s);
  }

  lemma FinishThenSend(s: Sys, s3: Sys, d: nat, span: string) returns (t: Sys)
    requires Reachable(s3) && Lurking(s, s3, d, span) && s3.server.Ready? && s3.outer == [Stop]
    requires |s3.sent| == |s.sent| + 1 == |s.effects| + 1 && s3.cap > 0
    ensures Reachable(t) && t.server.Finished? && Stranded(t, d)
    ensures t.clients[d] == Waiting(AskValues(span), |s.sent| + 1, |s.sent|, None)
  {
    var s5 := StopAndFinish(s, s3, d, span);
    Reaches(s3, ByServer(Receive(NO_CHOICE)));
    Reaches(ServerStep(s3, Receive(NO_CHOICE)), ByServer(Finish));
    t := SendLate(s5, d, span, |s.sent|);
    Reaches(s5, ByClient(d, Send));
  }

  lemma Reaches(s: Sys, step: Step)
    requires Reachable(s) && Can(s, step)
    ensures Reachable(Next(s, step))
  {
    var s0, schedule :| Initial(s0) && Runs(s0, schedule, s);
    Onward(s0, schedule, s, step);
  }
}
