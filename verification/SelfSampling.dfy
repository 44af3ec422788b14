/** `Latency_measure_self_sample` under any interleaving. */
module SelfSampling {
  import opened Int64
  import opened Builtins
  import opened Protocol
  import opened Invariants
  import opened Calls
  import opened OnceOnly

  /** How many messages a self-sampling call has put on the queue. */
  function SentFor(sent: seq<Sent>, call: nat): nat {
    if sent == [] then 0
    else SentFor(sent[..|sent| - 1], call) + if sent[|sent| - 1].origin == FromSelfSampling(call) then 1 else 0
  }

  lemma SentForSnoc(sent: seq<Sent>, e: Sent, call: nat)
    ensures SentFor(sent + [e], call) == SentFor(sent, call) + if e.origin == FromSelfSampling(call) then 1 else 0
  {
  }

  /** A client in the loop has sent one message for each finished turn. */
  predicate LoopOk(s: Sys, c: nat)
    requires c < |s.clients| && s.clients[c].InSelfSampling()
  {
    var w := s.clients[c];
    && s.initDone && w.call < s.selfCalls && SentFor(s.sent, w.call) == w.i
    && (if w.SamplingSend? then w.i < Target(w.asked) else w.i <= Target(w.asked))
  }

  predicate SameCall(s: Sys, c: nat, d: nat)
    requires c < |s.clients| && d < |s.clients|
  {
    s.clients[c].InSelfSampling() && s.clients[d].InSelfSampling() && s.clients[c].call == s.clients[d].call
  }

  predicate CallOver(s: Sys, call: nat) {
    && call < s.selfCalls
    && forall c :: 0 <= c < |s.clients| && s.clients[c].InSelfSampling() ==> s.clients[c].call != call
  }

  predicate ResultOk(s: Sys, o: Outcome) {
    o.SelfSampled? ==>
      && CallOver(s, o.call) && (o.ok || s.serveFinished)
      && (if o.ok then SentFor(s.sent, o.call) == Target(o.asked) else SentFor(s.sent, o.call) < Target(o.asked))
  }

  ghost predicate LoopsOk(s: Sys) {
    && (forall c :: 0 <= c < |s.clients| && s.clients[c].InSelfSampling() ==> LoopOk(s, c))
    && (forall c, d :: 0 <= c < |s.clients| && 0 <= d < |s.clients| && c != d ==> !SameCall(s, c, d))
    && (forall call :: call >= s.selfCalls ==> SentFor(s.sent, call) == 0)
    && (forall c :: 0 <= c < |s.clients| && s.clients[c].Sending? ==> !s.clients[c].origin.FromSelfSampling?)
    && (forall l :: 0 <= l < |s.log| ==> ResultOk(s, s.log[l]))
    && (forall i :: 0 <= i < |s.sent| && s.sent[i].origin.FromSelfSampling? ==> IsNoOp(s.sent[i].msg))
  }

  predicate IsNoOp(m: Msg) {
    m.A? && m.sample.name == OVERHEAD_SPAN && m.sample.variant == ""
  }

  /** The flags say that a call is in its loop, if one is; and every call that is over read, on return, the flags that
      tell its result. */
  predicate FlagsOk(s: Sys) {
    && (forall c :: 0 <= c < |s.clients| && s.clients[c].InSelfSampling() ==>
          s.flags == SampleFlags(true, false, false))
    && (forall l :: 0 <= l < |s.log| && s.log[l].SelfSampled? ==>
          s.log[l].flags == SampleFlags(true, true, !s.log[l].ok))
  }

  /** At most one client is in a self-sampling call. */
  predicate Alone(s: Sys) {
    forall c, d :: 0 <= c < |s.clients| && 0 <= d < |s.clients| && c != d ==>
      !(s.clients[c].InSelfSampling() && s.clients[d].InSelfSampling())
  }

  /** No two self-sampling calls overlap on the way. */
  ghost predicate NoOverlap(s: Sys, schedule: seq<Step>)
    decreases |schedule|
  {
    Alone(s) &&
    (schedule != [] && Can(s, schedule[0]) ==> NoOverlap(Next(s, schedule[0]), schedule[1..]))
  }

  predicate NoReopening(s: Sys, t: Sys) {
    (s.initDone ==> t.initDone) && (s.serveFinished ==> t.serveFinished)
  }

  /** A step after which clients, messages and log say the same about self-sampling calls. */
  predicate Unrelated(s: Sys, t: Sys) {
    && t.sent == s.sent && t.selfCalls == s.selfCalls && t.flags == s.flags && NoReopening(s, t)
    && |t.clients| == |s.clients|
    && (forall c :: 0 <= c < |s.clients| ==>
        || t.clients[c] == s.clients[c]
        || (!s.clients[c].InSelfSampling() && !t.clients[c].InSelfSampling()
            && (t.clients[c].Sending? ==> !t.clients[c].origin.FromSelfSampling?)))
    && s.log <= t.log && forall l :: |s.log| <= l < |t.log| ==> !t.log[l].SelfSampled?
  }

  lemma UnrelatedFlags(s: Sys, t: Sys)
    requires FlagsOk(s) && Unrelated(s, t)
    ensures FlagsOk(t)
  {
  }

  lemma UnrelatedLoops(s: Sys, t: Sys)
    requires LoopsOk(s) && Unrelated(s, t)
    ensures LoopsOk(t)
  {
    forall c | 0 <= c < |t.clients| && t.clients[c].InSelfSampling() ensures LoopOk(t, c) {
      assert LoopOk(s, c);
    }
    forall c, d | 0 <= c < |t.clients| && 0 <= d < |t.clients| && c != d ensures !SameCall(t, c, d) {
      assert !SameCall(s, c, d);
    }
    forall l | 0 <= l < |t.log| ensures ResultOk(t, t.log[l]) {
      if l < |s.log| {
        assert ResultOk(s, s.log[l]);
      }
    }
  }

  lemma QuietUnrelated(s: Sys, c: nat, act: ClientAct)
    requires ClientCan(s, c, act) && !act.Send? && !act.SelfSample? && !act.SelfIterate?
    ensures Unrelated(s, ClientStep(s, c, act))
  {
  }

  lemma ServerUnrelated(s: Sys, act: ServerAct)
    requires ServerCan(s, act)
    ensures Unrelated(s, ServerStep(s, act))
  {
    ServerKeepsSpans(s, act);
  }

  // ---- The start of a call ----

  lemma StartLoops(s: Sys, c: nat, n: int, t: Sys)
    requires LoopsOk(s) && ClientCan(s, c, SelfSample(n)) && s.initDone && t == SelfSampleStep(s, c, n)
    ensures LoopsOk(t)
  {
    forall d | 0 <= d < |t.clients| && t.clients[d].InSelfSampling() ensures LoopOk(t, d) {
      if d != c {
        assert LoopOk(s, d);
      }
    }
    forall d, e | 0 <= d < |t.clients| && 0 <= e < |t.clients| && d != e ensures !SameCall(t, d, e) {
      if d != c && e != c {
        assert !SameCall(s, d, e);
      } else {
        var o := if d == c then e else d;
        if s.clients[o].InSelfSampling() {
          assert LoopOk(s, o);
        }
      }
    }
    forall l | 0 <= l < |t.log| ensures ResultOk(t, t.log[l]) {
      assert ResultOk(s, s.log[l]);
    }
  }

  lemma StartFlags(s: Sys, c: nat, n: int)
    requires FlagsOk(s) && ClientCan(s, c, SelfSample(n))
    ensures FlagsOk(SelfSampleStep(s, c, n))
  {
  }

  // ---- A turn of the loop, and its end ----

  lemma IterateLoops(s: Sys, c: nat, dur: int64)
    requires LoopsOk(s) && ClientCan(s, c, SelfIterate(dur))
    ensures LoopsOk(SelfIterateStep(s, c, dur))
  {
    var t := SelfIterateStep(s, c, dur);
    assert LoopOk(s, c);
    forall d | 0 <= d < |t.clients| && t.clients[d].InSelfSampling() ensures LoopOk(t, d) {
      assert LoopOk(s, d);
    }
    forall d, e | 0 <= d < |t.clients| && 0 <= e < |t.clients| && d != e ensures !SameCall(t, d, e) {
      assert !SameCall(s, d, e);
    }
    IterateResults(s, c, dur, t);
  }

  lemma IterateResults(s: Sys, c: nat, dur: int64, t: Sys)
    requires LoopsOk(s) && ClientCan(s, c, SelfIterate(dur)) && t == SelfIterateStep(s, c, dur)
    ensures forall l :: 0 <= l < |t.log| ==> ResultOk(t, t.log[l])
  {
    assert LoopOk(s, c);
    forall l | 0 <= l < |t.log| ensures ResultOk(t, t.log[l]) {
      if l < |s.log| {
        assert t.log[l] == s.log[l];
        ResultLasts(s, t, s.log[l]);
      } else {
        forall d | 0 <= d < |t.clients| && t.clients[d].InSelfSampling()
          ensures t.clients[d].call != s.clients[c].call
        {
          assert !SameCall(s, c, d);
        }
      }
    }
  }

  /** A result stays right while its call stays over and sends nothing. */
  lemma ResultLasts(s: Sys, t: Sys, o: Outcome)
    requires ResultOk(s, o) && |t.clients| == |s.clients| && t.selfCalls >= s.selfCalls && NoReopening(s, t)
    requires o.SelfSampled? ==> SentFor(t.sent, o.call) == SentFor(s.sent, o.call)
    requires o.SelfSampled? ==> forall c :: 0 <= c < |s.clients| && t.clients[c].InSelfSampling() ==>
               s.clients[c].InSelfSampling() && s.clients[c].call == t.clients[c].call
    ensures ResultOk(t, o)
  {
  }

  lemma IterateFlags(s: Sys, c: nat, dur: int64)
    requires FlagsOk(s) && Alone(s) && ClientCan(s, c, SelfIterate(dur))
    ensures FlagsOk(SelfIterateStep(s, c, dur))
  {
  }

  // ---- Sending ----

  lemma SendKeepsLoops(s: Sys, c: nat)
    requires LoopsOk(s) && ClientCan(s, c, Send)
    ensures LoopsOk(SendStep(s, c))
  {
    var t, e := SendStep(s, c), SentBy(s.clients[c]);
    SendFacts(s, c);
    forall call: nat ensures SentFor(t.sent, call) ==
                             SentFor(s.sent, call) + if e.origin == FromSelfSampling(call) then 1 else 0 {
      SentForSnoc(s.sent, e, call);
    }
    SendMovesLoop(s, c, t);
    SendLoops(s, c, t);
    SendApart(s, c, t);
    SendOrigins(s, c, t);
    SendResults(s, c, t);
  }

  ghost predicate Counted(s: Sys, t: Sys, e: Sent) {
    t.sent == s.sent + [e] &&
    forall call: nat ::
      SentFor(t.sent, call) == SentFor(s.sent, call) + if e.origin == FromSelfSampling(call) then 1 else 0
  }

  /** What a send changes for the self-sampling calls: the sender, if it is in one, is back at the top of its loop. */
  ghost predicate LoopMove(s: Sys, t: Sys, c: nat) {
    && c < |s.clients| && (s.clients[c].Sending? || s.clients[c].SamplingSend?)
    && Counted(s, t, SentBy(s.clients[c]))
    && t.selfCalls == s.selfCalls && t.flags == s.flags && NoReopening(s, t)
    && OnlyClient(s, t, c)
    && (var w := s.clients[c];
        if w.SamplingSend? then t.clients[c] == Sampling(w.call, w.asked, w.i + 1) && t.log == s.log
        else t.clients[c].Idle? || t.clients[c].Waiting?)
    && s.log <= t.log && forall l :: |s.log| <= l < |t.log| ==> !t.log[l].SelfSampled?
  }

  lemma SendMovesLoop(s: Sys, c: nat, t: Sys)
    requires ClientCan(s, c, Send) && t == SendStep(s, c) && Counted(s, t, SentBy(s.clients[c]))
    ensures LoopMove(s, t, c)
  {
  }

  lemma SendLoops(s: Sys, c: nat, t: Sys)
    requires LoopsOk(s) && LoopMove(s, t, c)
    ensures forall d :: 0 <= d < |t.clients| && t.clients[d].InSelfSampling() ==> LoopOk(t, d)
  {
    forall d | 0 <= d < |t.clients| && t.clients[d].InSelfSampling() ensures LoopOk(t, d) {
      assert LoopOk(s, d);
      assert d != c ==> !SameCall(s, c, d);
    }
  }

  lemma SendApart(s: Sys, c: nat, t: Sys)
    requires LoopsOk(s) && LoopMove(s, t, c)
    ensures forall d, e :: 0 <= d < |t.clients| && 0 <= e < |t.clients| && d != e ==> !SameCall(t, d, e)
    ensures forall call: nat :: call >= t.selfCalls ==> SentFor(t.sent, call) == 0
  {
    if s.clients[c].InSelfSampling() {
      assert LoopOk(s, c);
    }
    forall d, e | 0 <= d < |t.clients| && 0 <= e < |t.clients| && d != e ensures !SameCall(t, d, e) {
      assert !SameCall(s, d, e);
    }
  }

  lemma SendResults(s: Sys, c: nat, t: Sys)
    requires LoopsOk(s) && LoopMove(s, t, c)
    ensures forall l :: 0 <= l < |t.log| ==> ResultOk(t, t.log[l])
  {
  }

  lemma SendOrigins(s: Sys, c: nat, t: Sys)
    requires LoopsOk(s) && LoopMove(s, t, c)
    ensures forall i :: 0 <= i < |t.sent| && t.sent[i].origin.FromSelfSampling? ==> IsNoOp(t.sent[i].msg)
    ensures forall d :: 0 <= d < |t.clients| && t.clients[d].Sending? ==> !t.clients[d].origin.FromSelfSampling?
  {
  }

  lemma SendFlags(s: Sys, c: nat)
    requires FlagsOk(s) && ClientCan(s, c, Send)
    ensures FlagsOk(SendStep(s, c))
  {
  }

  // ---- All runs ----

  lemma StepKeepsLoops(s: Sys, step: Step)
    requires LoopsOk(s) && Can(s, step)
    ensures LoopsOk(Next(s, step))
  {
    match step
    case Init(_, _) => UnrelatedLoops(s, Next(s, step));
    case ByServer(act) =>
      ServerUnrelated(s, act);
      UnrelatedLoops(s, ServerStep(s, act));
    case ByClient(c, act) =>
      match act {
        case Send => SendKeepsLoops(s, c);
        case SelfSample(n) => StartKeepsLoops(s, c, n);
        case SelfIterate(dur) => IterateLoops(s, c, dur);
        case _ =>
          QuietUnrelated(s, c, act);
          UnrelatedLoops(s, ClientStep(s, c, act));
      }
  }

  lemma StartKeepsLoops(s: Sys, c: nat, n: int)
    requires LoopsOk(s) && ClientCan(s, c, SelfSample(n))
    ensures LoopsOk(SelfSampleStep(s, c, n))
  {
    if s.initDone {
      StartLoops(s, c, n, SelfSampleStep(s, c, n));
    } else {
      UnrelatedLoops(s, SelfSampleStep(s, c, n));
    }
  }

  lemma StepKeepsFlags(s: Sys, step: Step)
    requires FlagsOk(s) && Alone(s) && Can(s, step)
    ensures FlagsOk(Next(s, step))
  {
    match step
    case Init(_, _) =>
    case ByServer(act) =>
      ServerUnrelated(s, act);
      UnrelatedFlags(s, ServerStep(s, act));
    case ByClient(c, act) =>
      match act {
        case Send => SendFlags(s, c);
        case SelfSample(n) => StartFlags(s, c, n);
        case SelfIterate(dur) => IterateFlags(s, c, dur);
        case _ =>
          QuietUnrelated(s, c, act);
          UnrelatedFlags(s, ClientStep(s, c, act));
      }
  }

  lemma {:induction false} RunKeepsLoops(s: Sys, schedule: seq<Step>, t: Sys)
    requires LoopsOk(s) && Runs(s, schedule, t)
    ensures LoopsOk(t)
    decreases |schedule|
  {
    if schedule != [] {
      StepKeepsLoops(s, schedule[0]);
      RunKeepsLoops(Next(s, schedule[0]), schedule[1..], t);
    }
  }

  lemma {:induction false} RunKeepsFlags(s: Sys, schedule: seq<Step>, t: Sys)
    requires FlagsOk(s) && NoOverlap(s, schedule) && Runs(s, schedule, t)
    ensures FlagsOk(t)
    decreases |schedule|
  {
    if schedule != [] {
      StepKeepsFlags(s, schedule[0]);
      RunKeepsFlags(Next(s, schedule[0]), schedule[1..], t);
    }
  }

  /** A call that returns true has put exactly the asked number of LL.no-op samples on the queue; one that returns false
      after starting a strict part of them, because serve had finished. A negative number asks for a million. */
  lemma SelfSampleResult(s: Sys, l: nat)
    requires Reachable(s) && l < |s.log| && s.log[l].SelfSampled?
    ensures var o := s.log[l];
            && (o.ok && o.asked >= 0 ==> SentFor(s.sent, o.call) == o.asked)
            && (o.ok && o.asked < 0 ==> SentFor(s.sent, o.call) == 1_000_000)
            && (!o.ok && o.asked >= 0 ==> SentFor(s.sent, o.call) < o.asked)
            && (!o.ok && o.asked < 0 ==> SentFor(s.sent, o.call) < 1_000_000)
            && (!o.ok ==> s.server.Finished?)
            && forall i :: 0 <= i < |s.sent| && s.sent[i].origin == FromSelfSampling(o.call) ==> IsNoOp(s.sent[i].msg)
  {
    var s0, schedule :| Initial(s0) && Runs(s0, schedule, s);
    RunKeepsLoops(s0, schedule, s);
    ReachableIsSound(s);
    assert ResultOk(s, s.log[l]);
  }

  /** In a run in which no two calls overlap, the flags that a call leaves on return are started, finished, and aborted
      just when its result is false; and while a call is under way they are started alone. */
  lemma FlagsTell(s0: Sys, schedule: seq<Step>, s: Sys)
    requires Initial(s0) && Runs(s0, schedule, s) && NoOverlap(s0, schedule)
    ensures forall l :: 0 <= l < |s.log| && s.log[l].SelfSampled? ==>
              s.log[l].flags == SampleFlags(true, true, !s.log[l].ok)
    ensures forall c :: 0 <= c < |s.clients| && s.clients[c].InSelfSampling() ==>
              s.flags == SampleFlags(true, false, false)
  {
    RunKeepsFlags(s0, schedule, s);
  }
}
