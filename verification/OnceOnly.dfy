/** Each span sample reaches the queue at most once, with the variant of its first ending call; and handling it moves
    all of its statistics or none. */
module OnceOnly {
  import opened Int64
  import opened Stats
  import opened Aggregate
  import opened SpanSamples
  import opened Protocol
  import opened Invariants
  import opened Calls
  import opened Progress

  /** e is the message of span id, as its first ending call formed it. */
  predicate FromEndedSpan(s: Sys, e: Sent, id: nat) {
    && id < |s.spans| && s.spans[id].ended.Some?
    && s.spans[id].ended.value.open
    && e.msg == A(Sample(s.spans[id].name, s.spans[id].Variant(), s.spans[id].ended.value.dur))
  }

  predicate SentOk(s: Sys) {
    && (forall i :: 0 <= i < |s.sent| && s.sent[i].origin.FromSpan? ==>
          FromEndedSpan(s, s.sent[i], s.sent[i].origin.id))
    && forall i, j :: 0 <= i < j < |s.sent| && s.sent[i].origin.FromSpan? ==> s.sent[i].origin != s.sent[j].origin
  }

  /** A client about to send for a span is its owner, and the span has nothing on the queue. */
  predicate SenderOk(s: Sys, c: nat)
    requires c < |s.clients| && s.clients[c].Sending? && s.clients[c].origin.FromSpan?
  {
    var id := s.clients[c].origin.id;
    && FromEndedSpan(s, Sent(s.clients[c].msg, s.clients[c].origin), id)
    && s.spans[id].owner == c
    && forall i :: 0 <= i < |s.sent| ==> s.sent[i].origin != s.clients[c].origin
  }

  /** A span that is not ended has nothing on the queue. */
  predicate OnceOk(s: Sys) {
    && SentOk(s)
    && (forall c :: 0 <= c < |s.clients| && s.clients[c].Sending? && s.clients[c].origin.FromSpan? ==> SenderOk(s, c))
  }

  /** A client step that sends nothing and, if it ends a span, ends one that was not ended. */
  predicate SpansGrow(s: Sys, t: Sys) {
    && |s.spans| <= |t.spans|
    && forall id :: 0 <= id < |s.spans| ==>
      && t.spans[id].owner == s.spans[id].owner && t.spans[id].name == s.spans[id].name
      && (s.spans[id].ended.Some? ==> t.spans[id] == s.spans[id])
  }

  lemma GrowKeeps(s: Sys, t: Sys, c: nat)
    requires OnceOk(s) && SpansGrow(s, t) && t.sent == s.sent && OnlyClient(s, t, c)
    requires c < |t.clients| && t.clients[c].Sending? && t.clients[c].origin.FromSpan? ==> SenderOk(t, c)
    ensures OnceOk(t)
  {
    forall i | 0 <= i < |t.sent| && t.sent[i].origin.FromSpan?
      ensures FromEndedSpan(t, t.sent[i], t.sent[i].origin.id)
    {
      assert FromEndedSpan(s, s.sent[i], s.sent[i].origin.id);
    }
    forall d | 0 <= d < |t.clients| && t.clients[d].Sending? && t.clients[d].origin.FromSpan?
      ensures SenderOk(t, d)
    {
      if d != c {
        assert SenderOk(s, d);
      }
    }
  }

  lemma EndKeepsOnce(s: Sys, c: nat, id: nat, ending: string, dur: int64)
    requires OnceOk(s) && ClientCan(s, c, EndSpan(id, ending, dur))
    ensures OnceOk(EndStep(s, c, id, ending, dur))
  {
    var t := EndStep(s, c, id, ending, dur);
    assert SpansGrow(s, t);
    if t.clients[c].Sending? {
      assert s.spans[id].ended.None?;
      forall i | 0 <= i < |s.sent| ensures s.sent[i].origin != FromSpan(id) {
        if s.sent[i].origin.FromSpan? {
          assert FromEndedSpan(s, s.sent[i], s.sent[i].origin.id);
        }
      }
      assert SenderOk(t, c);
    }
    GrowKeeps(s, t, c);
  }

  lemma SendKeepsOnce(s: Sys, c: nat)
    requires OnceOk(s) && ClientCan(s, c, Send)
    ensures OnceOk(SendStep(s, c))
  {
    var t := SendStep(s, c);
    SendFacts(s, c);
    OneMoves(s, c, Send);
    SendKeepsSent(s, c, t);
    forall d | 0 <= d < |t.clients| && t.clients[d].Sending? && t.clients[d].origin.FromSpan?
      ensures SenderOk(t, d)
    {
      assert d != c;
      assert SenderOk(s, d);
      if s.clients[c].Sending? && s.clients[c].origin.FromSpan? {
        assert SenderOk(s, c);
      }
    }
  }

  lemma SendKeepsSent(s: Sys, c: nat, t: Sys)
    requires OnceOk(s) && ClientCan(s, c, Send) && t == SendStep(s, c)
    ensures SentOk(t)
  {
    var e := SentBy(s.clients[c]);
    assert t.sent == s.sent + [e] && t.spans == s.spans;
    if e.origin.FromSpan? {
      assert SenderOk(s, c);
    }
    forall i | 0 <= i < |t.sent| && t.sent[i].origin.FromSpan?
      ensures FromEndedSpan(t, t.sent[i], t.sent[i].origin.id)
    {
      if i < |s.sent| {
        assert FromEndedSpan(s, s.sent[i], s.sent[i].origin.id);
      }
    }
  }

  lemma ClientKeepsOnce(s: Sys, c: nat, act: ClientAct)
    requires OnceOk(s) && ClientCan(s, c, act)
    ensures OnceOk(ClientStep(s, c, act))
  {
    match act
    case Send => SendKeepsOnce(s, c);
    case EndSpan(id, ending, dur) => EndKeepsOnce(s, c, id, ending, dur);
    case _ =>
      ClientFacts(s, c, act);
      OneMoves(s, c, act);
      OtherActs(s, c, act);
      GrowKeeps(s, ClientStep(s, c, act), c);
  }

  lemma OtherActs(s: Sys, c: nat, act: ClientAct)
    requires ClientCan(s, c, act) && !act.Send? && !act.EndSpan?
    ensures var t := ClientStep(s, c, act);
            SpansGrow(s, t) && (t.clients[c].Sending? ==> !t.clients[c].origin.FromSpan?)
  {
  }

  /** What no step of the server touches: clients only by a reply to one who waits. */
  predicate ServerLeaves(s: Sys, t: Sys) {
    && t.spans == s.spans && t.sent == s.sent && t.selfCalls == s.selfCalls && t.flags == s.flags
    && t.log == s.log
    && |t.clients| == |s.clients|
    && forall c :: 0 <= c < |s.clients| ==>
         t.clients[c] == s.clients[c] || (s.clients[c].Waiting? && t.clients[c].Waiting?)
  }

  lemma HandleLeaves(s: Sys, m: Msg, ch: Choice)
    requires s.effects != []
    ensures ServerLeaves(s, Protocol.Handle(s, m, ch))
  {
  }

  lemma ServerKeepsSpans(s: Sys, act: ServerAct)
    requires ServerCan(s, act)
    ensures ServerLeaves(s, ServerStep(s, act))
  {
    match act
    case Receive(ch) => HandleLeaves(s.(outer := s.outer[1..], effects := s.effects + [[]]), s.outer[0], ch);
    case ReceiveInner(ch) => HandleLeaves(s.(inner := s.inner[1..], effects := s.effects + [[]]), s.inner[0], ch);
    case WriteRow => assert ServerLeaves(s, WriteRowStep(s));
    case _ =>
  }

  lemma ServerKeepsOnce(s: Sys, act: ServerAct)
    requires OnceOk(s) && ServerCan(s, act)
    ensures OnceOk(ServerStep(s, act))
  {
    var t := ServerStep(s, act);
    ServerKeepsSpans(s, act);
    forall i | 0 <= i < |t.sent| && t.sent[i].origin.FromSpan?
      ensures FromEndedSpan(t, t.sent[i], t.sent[i].origin.id)
    {
      assert FromEndedSpan(s, s.sent[i], s.sent[i].origin.id);
    }
    forall d | 0 <= d < |t.clients| && t.clients[d].Sending? && t.clients[d].origin.FromSpan?
      ensures SenderOk(t, d)
    {
      assert SenderOk(s, d);
    }
  }

  lemma {:induction false} RunKeepsOnce(s: Sys, schedule: seq<Step>, t: Sys)
    requires OnceOk(s) && Runs(s, schedule, t)
    ensures OnceOk(t)
    decreases |schedule|
  {
    if schedule != [] {
      StepKeepsOnce(s, schedule[0]);
      RunKeepsOnce(Next(s, schedule[0]), schedule[1..], t);
    }
  }

  lemma StepKeepsOnce(s: Sys, step: Step)
    requires OnceOk(s) && Can(s, step)
    ensures OnceOk(Next(s, step))
  {
    match step
    case Init(_, _) => GrowKeeps(s, Next(s, step), |s.clients|);
    case ByClient(c, act) => ClientKeepsOnce(s, c, act);
    case ByServer(act) => ServerKeepsOnce(s, act);
  }

  /** Under any sequence of ending calls by its owner, in any interleaving, a span sample puts at most one message on
      the queue, and that message carries the variant formed by the first ending call. */
  lemma AtMostOnce(s: Sys, i: nat, j: nat)
    requires Reachable(s) && i < |s.sent| && j < |s.sent|
    requires s.sent[i].origin.FromSpan? && s.sent[i].origin == s.sent[j].origin
    ensures i == j
    ensures var id := s.sent[i].origin.id;
            && id < |s.spans| && s.spans[id].ended.Some?
            && var span, first := s.spans[id], s.spans[id].ended.value;
               first.open && s.sent[i].msg == A(Sample(span.name, Combined(span.begunAs, first.variant), first.dur))
  {
    var s0, schedule :| Initial(s0) && Runs(s0, schedule, s);
    RunKeepsOnce(s0, schedule, s);
    assert FromEndedSpan(s, s.sent[i], s.sent[i].origin.id);
  }

  // ---- Nothing is lost on the way ----

  ghost predicate IsSent(s: Sys, id: nat) {
    exists i :: 0 <= i < |s.sent| && s.sent[i].origin == FromSpan(id)
  }

  /** The owner of a span is about to send its message. */
  predicate AboutToSend(s: Sys, id: nat)
    requires id < |s.spans|
  {
    var c := s.spans[id].owner;
    c < |s.clients| && s.clients[c].Sending? && s.clients[c].origin == FromSpan(id)
  }

  /** A span that ended in an open library is on the queue or about to be. */
  ghost predicate NotLost(s: Sys, id: nat)
    requires id < |s.spans|
  {
    s.spans[id].ended.Some? && s.spans[id].ended.value.open ==> IsSent(s, id) || AboutToSend(s, id)
  }

  ghost predicate NoneLost(s: Sys) {
    forall id :: 0 <= id < |s.spans| ==> NotLost(s, id)
  }

  /** A client about to send goes on to do so, or has just done it. */
  predicate SendersKeep(s: Sys, t: Sys) {
    && |t.clients| == |s.clients| && s.sent <= t.sent
    && forall d :: 0 <= d < |s.clients| && s.clients[d].Sending? ==>
         || t.clients[d] == s.clients[d]
         || (|s.sent| < |t.sent| && t.sent[|s.sent|].origin == s.clients[d].origin)
  }

  lemma StepKeepsSenders(s: Sys, step: Step)
    requires Can(s, step)
    ensures SendersKeep(s, Next(s, step))
  {
    match step
    case Init(_, _) =>
    case ByClient(c, act) => OneMoves(s, c, act);
    case ByServer(act) => ServerKeepsSpans(s, act);
  }

  /** Spans stay as they are, or have not ended, or have ended in vain, or are about to be sent. */
  predicate SpansMove(s: Sys, t: Sys) {
    forall id :: 0 <= id < |t.spans| ==>
      || (id < |s.spans| && t.spans[id] == s.spans[id])
      || t.spans[id].ended.None? || !t.spans[id].ended.value.open || AboutToSend(t, id)
  }

  lemma StepMovesSpans(s: Sys, step: Step)
    requires Can(s, step)
    ensures SpansMove(s, Next(s, step))
  {
    match step
    case Init(_, _) =>
    case ByClient(c, act) => ClientMovesSpans(s, c, act);
    case ByServer(act) => ServerKeepsSpans(s, act);
  }

  lemma ClientMovesSpans(s: Sys, c: nat, act: ClientAct)
    requires ClientCan(s, c, act)
    ensures SpansMove(s, ClientStep(s, c, act))
  {
  }

  lemma MoveLosesNone(s: Sys, t: Sys)
    requires NoneLost(s) && SendersKeep(s, t) && SpansMove(s, t)
    ensures NoneLost(t)
  {
    forall id | 0 <= id < |t.spans| ensures NotLost(t, id) {
      if id < |s.spans| && t.spans[id] == s.spans[id] {
        assert NotLost(s, id);
        if IsSent(s, id) {
          var i :| 0 <= i < |s.sent| && s.sent[i].origin == FromSpan(id);
          assert t.sent[i] == s.sent[i];
        }
      }
    }
  }

  lemma {:induction false} RunLosesNone(s: Sys, schedule: seq<Step>, t: Sys)
    requires NoneLost(s) && Runs(s, schedule, t)
    ensures NoneLost(t)
    decreases |schedule|
  {
    if schedule != [] {
      StepKeepsSenders(s, schedule[0]);
      StepMovesSpans(s, schedule[0]);
      MoveLosesNone(s, Next(s, schedule[0]));
      RunLosesNone(Next(s, schedule[0]), schedule[1..], t);
    }
  }

  /** A span reaches the queue, or its owner is just about to put it there, exactly when its first ending call found the
      library open; and never both. */
  lemma SentExactly(s: Sys, id: nat)
    requires Reachable(s) && id < |s.spans|
    ensures IsSent(s, id) || AboutToSend(s, id) <==> s.spans[id].ended.Some? && s.spans[id].ended.value.open
    ensures !(IsSent(s, id) && AboutToSend(s, id))
  {
    var s0, schedule :| Initial(s0) && Runs(s0, schedule, s);
    RunKeepsOnce(s0, schedule, s);
    RunLosesNone(s0, schedule, s);
    assert NotLost(s, id);
    assert AboutToSend(s, id) ==> SenderOk(s, s.spans[id].owner);
  }

  /** Handling a sample feeds the learners of all its keys, or changes no statistic at all. */
  lemma AllOrNothing(st: State, x: Sample)
    ensures || (forall k :: StatsAt(st.Handle(x), k) ==
                            if x.Touches(k) then After2(StatsAt(st, k), x.dur) else StatsAt(st, k))
            || (x.variant != "" && forall k :: StatsAt(st.Handle(x), k) == StatsAt(st, k))
  {
  }
}
