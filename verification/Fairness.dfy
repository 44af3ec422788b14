/** Whole infinite runs: if the server is scheduled fairly, every request is answered that no stop stands before,
    whatever the other goroutines do in between. */
module Fairness {
  import opened Protocol
  import opened Invariants
  import opened Calls
  import opened OnceOnly
  import opened Progress

  predicate StepAt(run: nat -> Sys, steps: nat -> Step, i: nat) {
    Can(run(i), steps(i)) && run(i + 1) == Next(run(i), steps(i))
  }

  ghost predicate InfiniteRun(run: nat -> Sys, steps: nat -> Step) {
    forall i: nat :: StepAt(run, steps, i)
  }

  /** The server takes a step, or has none to take. */
  ghost predicate ServerMoves(run: nat -> Sys, steps: nat -> Step, j: nat) {
    steps(j).ByServer? || !ServerHasWork(run(j))
  }

  /** Weak fairness: the server is not kept for ever from a step that it has. */
  ghost predicate Fair(run: nat -> Sys, steps: nat -> Step) {
    forall i: nat :: MovesAgain(run, steps, i)
  }

  ghost predicate MovesAgain(run: nat -> Sys, steps: nat -> Step, i: nat) {
    exists j: nat :: i <= j && ServerMoves(run, steps, j)
  }

  lemma {:induction false} AlwaysSound(run: nat -> Sys, steps: nat -> Step, i: nat)
    requires InfiniteRun(run, steps) && Reachable(run(0))
    ensures Sound(run(i))
  {
    if i == 0 {
      ReachableIsSound(run(0));
    } else {
      AlwaysSound(run, steps, i - 1);
      assert StepAt(run, steps, i - 1);
      StepKeepsSound(run(i - 1), steps(i - 1));
    }
  }

  /** Client c waits, and no stop stands before its request. */
  predicate Expects(s: Sys, c: nat) {
    Awaits(s, c) && NoStopAhead(s, c)
  }

  /** How far a request is from its reply. */
  datatype Far = Far(pos: nat, ahead: nat, work: nat)

  function FarOf(s: Sys, c: nat): Far
    requires Awaits(s, c)
  {
    Far(s.clients[c].pos, Ahead(s, c), Work(s))
  }

  /** The request that was far from its reply is answered in t, or nearer to it. */
  predicate NotSoFar(far: Far, t: Sys, c: nat) {
    || AnsweredAt(t, c, far.pos)
    || (Expects(t, c) && t.clients[c].pos == far.pos && Nearer(Ahead(t, c), Work(t), far.ahead, far.work))
  }

  /** A step of anybody else loses nothing. */
  lemma OtherStepKeepsFar(s: Sys, step: Step, c: nat)
    requires Sound(s) && Expects(s, c) && Can(s, step) && !step.ByServer?
    ensures var t := Next(s, step);
            Sound(t) && Expects(t, c) && FarOf(t, c) == FarOf(s, c)
  {
    assert WaitingOk(s, c);
    assert step.ByClient?;
    ClientStepKeepsNear(s, step.c, step.act, c);
    StepKeepsSound(s, step);
  }

  /** The server's own step answers or brings nearer. */
  lemma ServerStepCounts(s: Sys, act: ServerAct, c: nat)
    requires Sound(s) && Expects(s, c) && ServerCan(s, act)
    ensures var t := ServerStep(s, act);
            Sound(t) && NotSoFar(FarOf(s, c), t, c)
  {
    ServerStepBringsNearer(s, act, c);
    StepKeepsSound(s, ByServer(act));
  }

  lemma NextKeepsFar(run: nat -> Sys, steps: nat -> Step, i: nat, c: nat)
    requires InfiniteRun(run, steps) && Sound(run(i)) && Expects(run(i), c)
    ensures Sound(run(i + 1))
    ensures if steps(i).ByServer? then NotSoFar(FarOf(run(i), c), run(i + 1), c)
            else Expects(run(i + 1), c) && FarOf(run(i + 1), c) == FarOf(run(i), c)
  {
    assert StepAt(run, steps, i);
    if steps(i).ByServer? {
      ServerStepCounts(run(i), steps(i).sact, c);
    } else {
      OtherStepKeepsFar(run(i), steps(i), c);
    }
  }

  lemma ServerHasToMove(run: nat -> Sys, steps: nat -> Step, l: nat, c: nat)
    requires Sound(run(l)) && Expects(run(l), c) && ServerMoves(run, steps, l)
    ensures steps(l).ByServer?
  {
    WaitingMeansWork(run(l), c);
  }

  /** So the next step of the server, whenever it comes, brings nearer. */
  lemma {:induction false} NearerBy(run: nat -> Sys, steps: nat -> Step, i: nat, l: nat, c: nat, far: Far)
      returns (j: nat)
    requires InfiniteRun(run, steps) && Sound(run(i)) && Expects(run(i), c) && FarOf(run(i), c) == far
    requires i <= l && ServerMoves(run, steps, l)
    ensures i < j && Sound(run(j)) && NotSoFar(far, run(j), c)
    decreases l - i
  {
    NextKeepsFar(run, steps, i, c);
    j := i + 1;
    if !steps(i).ByServer? {
      if i == l {
        ServerHasToMove(run, steps, i, c);
      }
      j := NearerBy(run, steps, i + 1, l, c, far);
    }
  }

  lemma {:induction false} AnsweredInTime(run: nat -> Sys, steps: nat -> Step, i: nat, c: nat, far: Far)
      returns (j: nat)
    requires InfiniteRun(run, steps) && Fair(run, steps)
    requires Sound(run(i)) && Expects(run(i), c) && FarOf(run(i), c) == far
    ensures i <= j && AnsweredAt(run(j), c, far.pos)
    decreases far.ahead, far.work
  {
    assert MovesAgain(run, steps, i);
    var l: nat :| i <= l && ServerMoves(run, steps, l);
    j := NearerBy(run, steps, i, l, c, far);
    if !AnsweredAt(run(j), c, far.pos) {
      j := AnsweredInTime(run, steps, j, c, FarOf(run(j), c));
    }
  }

  /** In every fair run every request gets its reply, unless a stop stands before it. */
  lemma EveryRequestIsAnswered(run: nat -> Sys, steps: nat -> Step, i: nat, c: nat) returns (j: nat)
    requires InfiniteRun(run, steps) && Fair(run, steps) && Reachable(run(0))
    requires Awaits(run(i), c) && NoStopAhead(run(i), c)
    ensures i <= j && AnsweredAt(run(j), c, run(i).clients[c].pos)
  {
    AlwaysSound(run, steps, i);
    j := AnsweredInTime(run, steps, i, c, FarOf(run(i), c));
  }

  // ---- Getting onto the queue ----

  /** The server never receives a stop. */
  ghost predicate NeverStopped(run: nat -> Sys) {
    forall i: nat :: !run(i).server.Stopped()
  }

  predicate HasRoomFor(s: Sys) {
    |s.outer| < s.cap
  }

  /** While the queue is full no other step changes it, or what the server has to do. */
  lemma OtherKeepsFull(s: Sys, step: Step)
    requires Sound(s) && s.initDone && !HasRoomFor(s) && Can(s, step) && !step.ByServer?
    ensures var t := Next(s, step);
            Sound(t) && t.initDone && !HasRoomFor(t) && Work(t) == Work(s)
  {
    StepKeepsSound(s, step);
    ClientFacts(s, step.c, step.act);
  }

  /** Any step of the server makes room, or leaves it less to do before it does. */
  lemma ServerMakesRoom(s: Sys, act: ServerAct)
    requires Sound(s) && s.initDone && !s.server.Stopped() && ServerCan(s, act)
    ensures var t := ServerStep(s, act);
            Sound(t) && t.initDone && (HasRoomFor(t) || Work(t) < Work(s))
  {
    StepKeepsSound(s, ByServer(act));
    ServerWorksOn(s, act);
  }

  lemma ServerWorksOn(s: Sys, act: ServerAct)
    requires QueueOk(s) && s.initDone && !s.server.Stopped() && ServerCan(s, act)
    ensures var t := ServerStep(s, act);
            t.initDone && (HasRoomFor(t) || Work(t) < Work(s))
  {
  }

  lemma NextMakesRoom(run: nat -> Sys, steps: nat -> Step, i: nat)
    requires InfiniteRun(run, steps) && NeverStopped(run) && Sound(run(i)) && run(i).initDone && !HasRoomFor(run(i))
    ensures Sound(run(i + 1)) && run(i + 1).initDone
    ensures if steps(i).ByServer? then HasRoomFor(run(i + 1)) || Work(run(i + 1)) < Work(run(i))
            else !HasRoomFor(run(i + 1)) && Work(run(i + 1)) == Work(run(i))
  {
    assert StepAt(run, steps, i) && !run(i).server.Stopped();
    if steps(i).ByServer? {
      ServerMakesRoom(run(i), steps(i).sact);
    } else {
      OtherKeepsFull(run(i), steps(i));
    }
  }

  /** A full queue leaves the server no rest, and in the end has room again. */
  lemma {:induction false} RoomBy(run: nat -> Sys, steps: nat -> Step, i: nat, l: nat) returns (j: nat)
    requires InfiniteRun(run, steps) && NeverStopped(run) && Sound(run(i)) && run(i).initDone && !HasRoomFor(run(i))
    requires i <= l && ServerMoves(run, steps, l)
    ensures i < j && Sound(run(j)) && run(j).initDone
    ensures HasRoomFor(run(j)) || Work(run(j)) < Work(run(i))
    decreases l - i
  {
    NextMakesRoom(run, steps, i);
    j := i + 1;
    if !steps(i).ByServer? {
      assert !run(i).server.Stopped();
      FullMeansWork(run(i));
      j := RoomBy(run, steps, i + 1, l);
    }
  }

  lemma FullMeansWork(s: Sys)
    requires Sound(s) && s.initDone && !HasRoomFor(s) && !s.server.Stopped()
    ensures ServerHasWork(s)
  {
  }

  lemma {:induction false} RoomAgain(run: nat -> Sys, steps: nat -> Step, i: nat) returns (j: nat)
    requires InfiniteRun(run, steps) && Fair(run, steps) && NeverStopped(run) && Sound(run(i)) && run(i).initDone
    ensures i <= j && HasRoomFor(run(j))
    decreases Work(run(i))
  {
    j := i;
    if !HasRoomFor(run(i)) {
      assert MovesAgain(run, steps, i);
      var l: nat :| i <= l && ServerMoves(run, steps, l);
      j := RoomBy(run, steps, i, l);
      if !HasRoomFor(run(j)) {
        j := RoomAgain(run, steps, j);
      }
    }
  }

  /** Client c is about to put a message on the queue. */
  predicate Sends(s: Sys, c: nat) {
    c < |s.clients| && (s.clients[c].Sending? || s.clients[c].SamplingSend?)
  }

  predicate SendsAt(steps: nat -> Step, c: nat, j: nat) {
    steps(j) == ByClient(c, Send)
  }

  ghost predicate SendsAfter(steps: nat -> Step, c: nat, i: nat) {
    exists j: nat :: i <= j && SendsAt(steps, c, j)
  }

  ghost predicate CanSendAfter(run: nat -> Sys, c: nat, i: nat) {
    exists j: nat :: i <= j && ClientCan(run(j), c, Send)
  }

  /** Strong fairness: if c could send again and again from some time on, it does. */
  ghost predicate FairToSender(run: nat -> Sys, steps: nat -> Step, c: nat) {
    forall i: nat :: (forall l: nat :: i <= l ==> CanSendAfter(run, c, l)) ==> SendsAfter(steps, c, i)
  }

  lemma SenderStays(s: Sys, step: Step, c: nat)
    requires Sends(s, c) && Can(s, step) && step != ByClient(c, Send)
    ensures Sends(Next(s, step), c) && Next(s, step).clients[c] == s.clients[c]
  {
    match step
    case Init(_, _) =>
    case ByClient(d, act) => OneMoves(s, d, act);
    case ByServer(act) => ServerKeepsSpans(s, act);
  }

  lemma {:induction false} SenderStaysUntil(run: nat -> Sys, steps: nat -> Step, i: nat, l: nat, c: nat)
    requires InfiniteRun(run, steps) && Sends(run(i), c) && i <= l
    requires forall j: nat :: i <= j < l ==> !SendsAt(steps, c, j)
    ensures Sends(run(l), c) && run(l).clients[c] == run(i).clients[c]
    decreases l - i
  {
    if i < l {
      assert StepAt(run, steps, i) && !SendsAt(steps, c, i);
      SenderStays(run(i), steps(i), c);
      SenderStaysUntil(run, steps, i + 1, l, c);
    }
  }

  lemma {:induction false} FirstSend(steps: nat -> Step, c: nat, i: nat, l: nat) returns (j: nat)
    requires i <= l && SendsAt(steps, c, l)
    ensures i <= j <= l && SendsAt(steps, c, j) && forall m: nat :: i <= m < j ==> !SendsAt(steps, c, m)
    decreases l - i
  {
    j := i;
    if !SendsAt(steps, c, i) {
      j := FirstSend(steps, c, i + 1, l);
    }
  }

  lemma SenderIsInitialised(s: Sys, c: nat)
    requires Sound(s) && Sends(s, c)
    ensures s.initDone
  {
    assert ClientOk(s, c, s.clients[c]);
  }

  /** If c does not send, it could again and again. */
  lemma CouldSend(run: nat -> Sys, steps: nat -> Step, i: nat, l: nat, c: nat)
    requires InfiniteRun(run, steps) && Fair(run, steps) && NeverStopped(run) && Reachable(run(0))
    requires Sends(run(i), c) && i <= l && !SendsAfter(steps, c, i)
    ensures CanSendAfter(run, c, l)
  {
    AlwaysSound(run, steps, l);
    SenderStaysUntil(run, steps, i, l, c);
    SenderIsInitialised(run(l), c);
    var j := RoomAgain(run, steps, l);
    SenderStaysUntil(run, steps, i, j, c);
    assert ClientCan(run(j), c, Send);
  }

  /** As long as no stop is received, a client that is about to send, even at a full queue, in the end does. */
  lemma EverySendGoesOut(run: nat -> Sys, steps: nat -> Step, i: nat, c: nat) returns (j: nat)
    requires InfiniteRun(run, steps) && Fair(run, steps) && FairToSender(run, steps, c)
    requires NeverStopped(run) && Reachable(run(0)) && Sends(run(i), c)
    ensures i <= j && steps(j) == ByClient(c, Send)
    ensures Sends(run(j), c) && run(j).clients[c] == run(i).clients[c]
  {
    if !SendsAfter(steps, c, i) {
      forall l: nat | i <= l ensures CanSendAfter(run, c, l) {
        CouldSend(run, steps, i, l, c);
      }
    }
    assert SendsAfter(steps, c, i);
    var l: nat :| i <= l && SendsAt(steps, c, l);
    j := FirstSend(steps, c, i, l);
    SenderStaysUntil(run, steps, i, j, c);
  }

  // ---- A whole call ----

  /** Nobody ever sends a stop. */
  ghost predicate NoStopSent(run: nat -> Sys) {
    forall i: nat :: NoStopIn(run(i))
  }

  predicate NoStopIn(s: Sys) {
    forall m :: 0 <= m < |s.sent| ==> s.sent[m].msg != Stop
  }

  lemma NoStopSentNeverStopped(run: nat -> Sys, steps: nat -> Step)
    requires InfiniteRun(run, steps) && Reachable(run(0)) && NoStopSent(run)
    ensures NeverStopped(run)
  {
    forall i: nat ensures !run(i).server.Stopped() {
      AlwaysSound(run, steps, i);
      assert NoStopIn(run(i));
    }
  }

  lemma RequestGoesOut(s: Sys, c: nat)
    requires Sound(s) && ClientCan(s, c, Send) && s.clients[c].Sending? && s.clients[c].msg.IsRequest() && NoStopIn(s)
    requires NoStopIn(SendStep(s, c)) && !s.server.Stopped()
    ensures Expects(SendStep(s, c), c) && SendStep(s, c).clients[c].pos == |s.sent|
  {
  }

  /** Where nobody stops the server, every request whose call has passed its check gets onto the queue and is answered,
      on runs that are fair to the server and to the caller. */
  lemma EveryCallReturns(run: nat -> Sys, steps: nat -> Step, i: nat, c: nat) returns (j: nat, l: nat)
    requires InfiniteRun(run, steps) && Fair(run, steps) && FairToSender(run, steps, c)
    requires Reachable(run(0)) && NoStopSent(run)
    requires Sends(run(i), c) && run(i).clients[c].Sending? && run(i).clients[c].msg.IsRequest()
    ensures i <= j < l && steps(j) == ByClient(c, Send) && AnsweredAt(run(l), c, |run(j).sent|)
  {
    NoStopSentNeverStopped(run, steps);
    j := EverySendGoesOut(run, steps, i, c);
    AlwaysSound(run, steps, j);
    assert StepAt(run, steps, j) && NoStopIn(run(j)) && NoStopIn(run(j + 1));
    RequestGoesOut(run(j), c);
    l := EveryRequestIsAnswered(run, steps, j + 1, c);
  }
}
