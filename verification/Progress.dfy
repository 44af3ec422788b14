/** Nobody blocks anybody for good before a stop: the server always has a step to take, and each of its steps brings
    every waiting client nearer to its reply. */
module Progress {
  import opened Reports
  import opened Protocol
  import opened Invariants
  import opened Calls

  const NO_CHOICE := Choice(false, Mode(false, false), [])

  /** The outer queue never outgrows its capacity and holds, in order, the messages sent and not yet received; the
      inner queue is always empty. */
  lemma QueueIsBoundedFifo(s: Sys)
    requires Reachable(s)
    ensures |s.outer| <= s.cap && s.inner == [] && (s.initDone ==> s.cap >= 100)
    ensures |s.sent| == |s.effects| + |s.outer|
    ensures forall i :: 0 <= i < |s.outer| ==> s.outer[i] == s.sent[|s.effects| + i].msg
  {
    ReachableIsSound(s);
  }

  /** The server has something to do: to start, to go on with its work, to take a message, or to finish. */
  predicate ServerHasWork(s: Sys) {
    && s.initDone
    && (s.server.NotStarted? || s.server.Busy() || s.server.StopReceived? || (s.server.Ready? && s.outer != []))
  }

  /** Its next step, when the choices left open are made in the plainest way. */
  function NextAct(s: Sys): ServerAct {
    match s.server
    case NotStarted => Start
    case Ready => Receive(NO_CHOICE)
    case Writing(_, _, _, _, next) => if next < |s.agg.tracked| then WriteRow else FinishReport(0)
    case Benching(_, todo) => if todo != [] then BenchStep else BenchDone
    case Replying(_, _) => Deliver
    case StopReceived => Finish
    case Finished => Finish
  }

  /** The server is never blocked: not by a reply channel, and not by its own queue. */
  lemma ServerNeverBlocks(s: Sys)
    requires Sound(s) && ServerHasWork(s)
    ensures ServerCan(s, NextAct(s))
  {
    if s.server.Replying? {
      ReplyChannelHasRoom(s);
    }
  }

  /** A client in the middle of a call. */
  predicate InCall(s: Sys, c: nat) {
    c < |s.clients| && !s.clients[c].Idle?
  }

  predicate ClientCanGoOn(s: Sys, c: nat) {
    ClientCan(s, c, Send) || ClientCan(s, c, TakeReply) || ClientCan(s, c, SelfIterate(0))
  }

  /** Before a stop is received, no client in the middle of a call is stuck: it can move, or the server can. */
  lemma NoDeadlock(s: Sys, c: nat)
    requires Reachable(s) && !s.server.Stopped() && InCall(s, c)
    ensures ClientCanGoOn(s, c) || (ServerHasWork(s) && ServerCan(s, NextAct(s)))
  {
    ReachableIsSound(s);
    if !ClientCanGoOn(s, c) {
      StuckMeansWork(s, c);
      ServerNeverBlocks(s);
    }
  }

  lemma StuckMeansWork(s: Sys, c: nat)
    requires QueueOk(s) && ClientsOk(s) && !s.server.Stopped() && InCall(s, c) && !ClientCanGoOn(s, c)
    ensures ServerHasWork(s)
  {
  }

  // ---- Each server step brings a waiting client nearer to its reply ----

  /** Client c waits for a reply it has not got. */
  predicate Awaits(s: Sys, c: nat) {
    c < |s.clients| && s.clients[c].Waiting? && s.clients[c].reply.None?
  }

  /** No stop is queued ahead of the request of c. */
  predicate NoStopAhead(s: Sys, c: nat)
    requires Awaits(s, c)
  {
    !s.server.Stopped() && forall i :: |s.effects| <= i < s.clients[c].pos && i < |s.sent| ==> s.sent[i].msg != Stop
  }

  /** Messages still to be received up to and including the request of c. */
  function Ahead(s: Sys, c: nat): nat
    requires Awaits(s, c)
  {
    if s.clients[c].pos < |s.effects| then 0 else s.clients[c].pos + 1 - |s.effects|
  }

  /** Steps left for the message in hand. */
  function Work(s: Sys): nat {
    match s.server
    case NotStarted => 1
    case Writing(_, _, _, _, next) => if next < |s.agg.tracked| then |s.agg.tracked| - next + 2 else 2
    case Benching(_, todo) => |todo| + 2
    case Replying(_, _) => 1
    case _ => 0
  }

  predicate Nearer(ahead': nat, work': nat, ahead: nat, work: nat) {
    ahead' < ahead || (ahead' == ahead && work' < work)
  }

  /** From s to t, the request of c has got its reply or has come nearer to it. */
  predicate Closer(s: Sys, t: Sys, c: nat)
    requires Awaits(s, c)
  {
    || AnsweredAt(t, c, s.clients[c].pos)
    || (Awaits(t, c) && t.clients[c].pos == s.clients[c].pos && NoStopAhead(t, c)
        && Nearer(Ahead(t, c), Work(t), Ahead(s, c), Work(s)))
  }

  /** Whatever step the server takes, the request of c gets its reply or comes nearer to it. */
  lemma ServerStepBringsNearer(s: Sys, act: ServerAct, c: nat)
    requires Sound(s) && Awaits(s, c) && NoStopAhead(s, c) && ServerCan(s, act)
    ensures Closer(s, ServerStep(s, act), c)
  {
    assert WaitingOk(s, c);
    match act
    case Receive(ch) => ReceiveBringsNearer(s, ch, c);
    case Deliver => DeliverBringsNearer(s, c);
    case ReceiveInner(_) =>
    case _ => WorkBringsNearer(s, act, c);
  }

  lemma DeliverBringsNearer(s: Sys, c: nat)
    requires Awaits(s, c) && NoStopAhead(s, c) && ServerCan(s, Deliver)
    ensures Closer(s, ServerStep(s, Deliver), c)
  {
  }

  lemma WorkBringsNearer(s: Sys, act: ServerAct, c: nat)
    requires Awaits(s, c) && NoStopAhead(s, c) && ServerCan(s, act)
    requires !act.Receive? && !act.ReceiveInner? && !act.Deliver?
    ensures Closer(s, ServerStep(s, act), c)
  {
  }

  lemma ReceiveBringsNearer(s: Sys, ch: Choice, c: nat)
    requires QueueOk(s) && |s.effects| <= |s.sent|
    requires Awaits(s, c) && NoStopAhead(s, c) && ServerCan(s, Receive(ch))
    requires WaitingOk(s, c)
    ensures var t := ServerStep(s, Receive(ch));
            Awaits(t, c) && t.clients[c] == s.clients[c] && NoStopAhead(t, c) && Ahead(t, c) < Ahead(s, c)
  {
  }

  /** Other goroutines cannot push it back: no client step changes how near the reply is. */
  lemma ClientStepKeepsNear(s: Sys, d: nat, act: ClientAct, c: nat)
    requires Sound(s) && Awaits(s, c) && NoStopAhead(s, c) && ClientCan(s, d, act)
    ensures var t := ClientStep(s, d, act);
            && Awaits(t, c) && t.clients[c] == s.clients[c] && NoStopAhead(t, c)
            && Ahead(t, c) == Ahead(s, c) && Work(t) == Work(s)
  {
    assert WaitingOk(s, c);
    ClientFacts(s, d, act);
    WaitersWait(s, d, act, c);
  }

  lemma WaitersWait(s: Sys, d: nat, act: ClientAct, c: nat)
    requires Awaits(s, c) && ClientCan(s, d, act)
    ensures c < |ClientStep(s, d, act).clients| && ClientStep(s, d, act).clients[c] == s.clients[c]
  {
    OneMoves(s, d, act);
    assert d != c;
  }

  lemma OneMoves(s: Sys, d: nat, act: ClientAct)
    requires ClientCan(s, d, act)
    ensures OnlyClient(s, ClientStep(s, d, act), d)
  {
  }

  // ---- The server alone answers ----

  predicate AnsweredAt(t: Sys, c: nat, pos: nat) {
    c < |t.clients| && t.clients[c].Waiting? && t.clients[c].pos == pos && t.clients[c].reply.Some?
  }

  lemma RunsCons(s: Sys, step: Step, rest: seq<Step>, t: Sys)
    requires Can(s, step) && Runs(Next(s, step), rest, t)
    ensures Runs(s, [step] + rest, t)
  {
  }

  lemma OneStepNearer(s: Sys, c: nat) returns (step: Step, s1: Sys)
    requires Sound(s) && Awaits(s, c) && NoStopAhead(s, c)
    ensures step.ByServer? && Can(s, step) && s1 == Next(s, step) && Sound(s1)
    ensures Closer(s, s1, c)
  {
    WaitingMeansWork(s, c);
    ServerNeverBlocks(s);
    step, s1 := ByServer(NextAct(s)), ServerStep(s, NextAct(s));
    ServerStepBringsNearer(s, NextAct(s), c);
    StepKeepsSound(s, step);
  }

  /** Left to itself, the server answers every request that no stop stands before, in finitely many steps. */
  lemma {:induction false} ServerAnswers(s: Sys, c: nat) returns (schedule: seq<Step>, t: Sys)
    requires Sound(s) && Awaits(s, c) && NoStopAhead(s, c)
    ensures Runs(s, schedule, t) && Sound(t)
    ensures forall i :: 0 <= i < |schedule| ==> schedule[i].ByServer?
    ensures AnsweredAt(t, c, s.clients[c].pos)
    decreases Ahead(s, c), Work(s)
  {
    var step, s1 := OneStepNearer(s, c);
    var rest := [];
    t := s1;
    if !AnsweredAt(s1, c, s.clients[c].pos) {
      rest, t := ServerAnswers(s1, c);
    }
    RunsCons(s, step, rest, t);
    schedule := [step] + rest;
  }

  lemma WaitingMeansWork(s: Sys, c: nat)
    requires Sound(s) && Awaits(s, c) && NoStopAhead(s, c)
    ensures ServerHasWork(s)
  {
  }
}
