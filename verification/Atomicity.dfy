/** The many small steps in which the server handles a message add up to one atomic handling; and so a whole queue is
    served as the sequential loop over it says. */
module Atomicity {
  import opened Options
  import opened Aggregate
  import opened Builtins
  import opened Reports
  import opened Protocol
  import opened Invariants
  import opened Calls
  import opened Progress
  import opened ServeLoop

  lemma {:induction false} RunsConcat(s: Sys, a: seq<Step>, t: Sys, b: seq<Step>, u: Sys)
    requires Runs(s, a, t) && Runs(t, b, u)
    ensures Runs(s, a + b, u)
    decreases |a|
  {
    if a == [] {
      assert a + b == b;
    } else {
      RunsConcat(Next(s, a[0]), a[1..], t, b, u);
      assert (a + b)[1..] == a[1..] + b;
    }
  }

  /** From s the server alone gets to t, and t is sound again. */
  ghost predicate ServerRuns(s: Sys, t: Sys) {
    Sound(t) && exists schedule :: Runs(s, schedule, t) && ByServerOnly(schedule)
  }

  predicate ByServerOnly(schedule: seq<Step>) {
    forall i :: 0 <= i < |schedule| ==> schedule[i].ByServer?
  }

  lemma NoStep(s: Sys)
    requires Sound(s)
    ensures ServerRuns(s, s)
  {
    assert Runs(s, [], s) && ByServerOnly([]);
  }

  lemma OneStep(s: Sys, act: ServerAct)
    requires Sound(s) && ServerCan(s, act)
    ensures ServerRuns(s, ServerStep(s, act))
  {
    var t := ServerStep(s, act);
    StepKeepsSound(s, ByServer(act));
    assert Next(s, ByServer(act)) == t && Runs(t, [], t);
    RunsCons(s, ByServer(act), [], t);
    assert ByServerOnly([ByServer(act)] + []);
  }

  lemma RunOn(s: Sys, t: Sys, u: Sys)
    requires ServerRuns(s, t) && ServerRuns(t, u)
    ensures ServerRuns(s, u)
  {
    var a :| Runs(s, a, t) && ByServerOnly(a);
    var b :| Runs(t, b, u) && ByServerOnly(b);
    RunsConcat(s, a, t, b, u);
    assert ByServerOnly(a + b);
  }

  // ---- The loops within one message ----

  function RowsDone(s: Sys): Sys
    requires s.server.Writing?
  {
    s.(server := s.server.(next := |s.agg.tracked|, rows := RowsOf(s.agg, s.server.mode)))
  }

  /** All rows get written, and nothing else moves. */
  lemma {:induction false} WriteAll(s: Sys)
    requires Sound(s) && s.server.Writing?
    ensures ServerRuns(s, RowsDone(s))
    decreases |s.agg.tracked| - s.server.next
  {
    if s.server.next < |s.agg.tracked| {
      OneStep(s, WriteRow);
      WriteAll(ServerStep(s, WriteRow));
      RunOn(s, ServerStep(s, WriteRow), RowsDone(s));
    } else {
      AllWritten(s);
      NoStep(s);
    }
  }

  lemma AllWritten(s: Sys)
    requires WorkOk(s) && s.server.Writing? && s.server.next >= |s.agg.tracked|
    ensures RowsDone(s) == s
  {
  }

  function Benched(s: Sys): Sys
    requires s.server.Benching? && s.effects != []
  {
    var n := |s.effects| - 1;
    s.(server := s.server.(todo := []),
       agg := Apply(s.agg, s.server.todo),
       effects := s.effects[..n] + [s.effects[n] + s.server.todo])
  }

  /** All benchmark samples get handled. */
  lemma {:induction false} BenchAll(s: Sys)
    requires Sound(s) && s.server.Benching?
    ensures s.effects != [] && ServerRuns(s, Benched(s))
    decreases |s.server.todo|
  {
    if s.server.todo == [] {
      BenchedNothing(s);
      NoStep(s);
    } else {
      OneStep(s, BenchStep);
      var t := ServerStep(s, BenchStep);
      BenchedStep(s);
      BenchAll(t);
      RunOn(s, t, Benched(s));
    }
  }

  lemma BenchedNothing(s: Sys)
    requires s.server.Benching? && s.effects != [] && s.server.todo == []
    ensures Benched(s) == s
  {
    var n := |s.effects| - 1;
    assert s.effects[n] + [] == s.effects[n];
    assert s.effects == s.effects[..n] + [s.effects[n]];
  }

  lemma BenchedStep(s: Sys)
    requires ServerCan(s, BenchStep)
    ensures var t := ServerStep(s, BenchStep);
            t.server.Benching? && t.effects != [] && |t.server.todo| < |s.server.todo| && Benched(t) == Benched(s)
  {
    var t, n, todo := ServerStep(s, BenchStep), |s.effects| - 1, s.server.todo;
    assert todo == [todo[0]] + todo[1..];
    ApplyConcat(s.agg, [todo[0]], todo[1..]);
    ApplyOne(s.agg, todo[0]);
    assert s.effects[n] + [todo[0]] + todo[1..] == s.effects[n] + todo;
    assert t.effects[..n] == s.effects[..n];
  }

  // ---- One message ----

  predicate EnvOk(env: Env) {
    forall b :: b in env.choice.bench ==> BenchSample(b)
  }

  /** The reply of a message has reached the client that waits for it. */
  predicate Delivered(clients: seq<Client>, m: Msg, reply: Option<ReplyMsg>) {
    reply.Some? ==>
      m.IsRequest() && m.client < |clients| && clients[m.client].Waiting? && clients[m.client].reply == reply
  }

  /** Replies that have been delivered stay. */
  predicate RepliesStay(before: seq<Client>, clients: seq<Client>) {
    && |clients| == |before|
    && forall c :: 0 <= c < |before| && before[c].Waiting? && before[c].reply.Some? ==> clients[c] == before[c]
  }

  /** t is s after its first queued message was handled in one piece. */
  predicate TookMessage(s: Sys, t: Sys, env: Env)
    requires s.outer != []
  {
    var m := s.outer[0];
    && t.outer == s.outer[1..] && t.sent == s.sent
    && t.agg == Apply(s.agg, EffectOf(m, env))
    && t.effects == s.effects + [EffectOf(m, env)]
    && t.server == (if m == Stop then StopReceived else Ready)
    && t.reports == s.reports + FileAt(|s.effects|, FileOf(s.agg, m, env), env)
    && Delivered(t.clients, m, ReplyTo(s.agg, m)) && RepliesStay(s.clients, t.clients)
  }

  function FileAt(pos: nat, file: Option<seq<Row>>, env: Env): seq<Written> {
    if file.None? then [] else [Written(pos, env.choice.mode, file.value)]
  }

  function Received(s: Sys, env: Env): Sys
    requires s.outer != []
  {
    Protocol.Handle(s.(outer := s.outer[1..], effects := s.effects + [[]]), s.outer[0], env.choice)
  }

  /** The server's steps for one message add up to handling it atomically. */
  lemma MessageIsAtomic(s: Sys, env: Env) returns (t: Sys)
    requires Sound(s) && s.server.Ready? && s.outer != [] && EnvOk(env)
    ensures ServerRuns(s, t) && TookMessage(s, t, env)
  {
    Receives(s, env);
    t := Received(s, env);
    match s.outer[0]
    case A(_) => TookSample(s, env);
    case Stop => TookStop(s, env);
    case Values(_, _) => t := ReplyAtOnce(s, env);
    case Report(_) => t := ReportIsAtomic(s, env);
    case Benchmarks(_) => t := BenchmarksIsAtomic(s, env);
  }

  lemma Receives(s: Sys, env: Env)
    requires Sound(s) && s.server.Ready? && s.outer != [] && EnvOk(env)
    ensures ServerRuns(s, Received(s, env))
  {
    OneStep(s, Receive(env.choice));
  }

  lemma ReplyAtOnce(s: Sys, env: Env) returns (t: Sys)
    requires s.outer != [] && (s.outer[0].Values? || (s.outer[0].Report? && !env.choice.created))
    requires ServerRuns(s, Received(s, env))
    ensures ServerRuns(s, t) && TookMessage(s, t, env)
  {
    t := ReplyGoesOut(s, Received(s, env), env);
  }

  lemma ReportIsAtomic(s: Sys, env: Env) returns (t: Sys)
    requires s.outer != [] && s.outer[0].Report? && s.server.Ready? && ServerRuns(s, Received(s, env))
    ensures ServerRuns(s, t) && TookMessage(s, t, env)
  {
    if env.choice.created {
      var v := ReportAll(s, env);
      t := ReplyGoesOut(s, v, env);
    } else {
      t := ReplyAtOnce(s, env);
    }
  }

  lemma BenchmarksIsAtomic(s: Sys, env: Env) returns (t: Sys)
    requires s.outer != [] && s.outer[0].Benchmarks? && s.server.Ready? && ServerRuns(s, Received(s, env))
    ensures ServerRuns(s, t) && TookMessage(s, t, env)
  {
    var v := BenchmarksAll(s, env);
    t := ReplyGoesOut(s, v, env);
  }

  lemma TookStop(s: Sys, env: Env)
    requires s.outer != [] && s.outer[0] == Stop
    ensures TookMessage(s, Received(s, env), env)
  {
  }

  lemma TookSample(s: Sys, env: Env)
    requires s.outer != [] && s.outer[0].A? && s.server.Ready?
    ensures TookMessage(s, Received(s, env), env)
  {
    var x := s.outer[0].sample;
    ApplyOne(s.agg, x);
    assert [] + [x] == [x];
    assert (s.effects + [[]])[..|s.effects|] == s.effects;
  }

  /** Everything about the message is done but the reply. */
  predicate Worked(s: Sys, v: Sys, env: Env)
    requires s.outer != []
  {
    var m := s.outer[0];
    && m.IsRequest() && ReplyTo(s.agg, m).Some?
    && v.outer == s.outer[1..] && v.sent == s.sent && v.clients == s.clients
    && v.agg == Apply(s.agg, EffectOf(m, env))
    && v.effects == s.effects + [EffectOf(m, env)]
    && v.server == Replying(m.client, ReplyTo(s.agg, m).value)
    && v.reports == s.reports + FileAt(|s.effects|, FileOf(s.agg, m, env), env)
  }

  lemma ReplyGoesOut(s: Sys, v: Sys, env: Env) returns (t: Sys)
    requires s.outer != [] && ServerRuns(s, v) && Worked(s, v, env)
    ensures ServerRuns(s, t) && TookMessage(s, t, env)
  {
    ReplyChannelHasRoom(v);
    OneStep(v, Deliver);
    t := ServerStep(v, Deliver);
    RunOn(s, v, t);
  }

  lemma ReportAll(s: Sys, env: Env) returns (v: Sys)
    requires s.outer != [] && s.outer[0].Report? && env.choice.created && s.server.Ready?
    requires ServerRuns(s, Received(s, env))
    ensures ServerRuns(s, v) && Worked(s, v, env)
  {
    var u := Received(s, env);
    WriteAll(u);
    var w := RowsDone(u);
    RunOn(s, u, w);
    OneStep(w, FinishReport(env.reportDur));
    v := ServerStep(w, FinishReport(env.reportDur));
    RunOn(s, w, v);
    ReportWorked(s, w, env);
  }

  lemma ReportWorked(s: Sys, w: Sys, env: Env)
    requires s.outer != [] && s.outer[0].Report? && env.choice.created && s.server.Ready?
    requires var c, mode := s.outer[0].client, env.choice.mode;
             w == s.(outer := s.outer[1..], effects := s.effects + [[]],
                     server := Writing(c, mode, OverheadFor(s.agg, mode), RowsOf(s.agg, mode), |s.agg.tracked|))
    ensures ServerCan(w, FinishReport(env.reportDur)) && Worked(s, ServerStep(w, FinishReport(env.reportDur)), env)
  {
    var x := Sample(REPORT_SPAN, "", env.reportDur);
    ApplyOne(s.agg, x);
    assert [] + [x] == [x];
    assert (s.effects + [[]])[..|s.effects|] == s.effects;
  }

  lemma BenchmarksAll(s: Sys, env: Env) returns (v: Sys)
    requires s.outer != [] && s.outer[0].Benchmarks? && s.server.Ready?
    requires ServerRuns(s, Received(s, env))
    ensures ServerRuns(s, v) && Worked(s, v, env)
  {
    var u := Received(s, env);
    BenchAll(u);
    RunOn(s, u, Benched(u));
    OneStep(Benched(u), BenchDone);
    v := ServerStep(Benched(u), BenchDone);
    RunOn(s, Benched(u), v);
    BenchmarksWorked(s, u, env);
  }

  lemma BenchmarksWorked(s: Sys, u: Sys, env: Env)
    requires s.outer != [] && s.outer[0].Benchmarks? && s.server.Ready? && u == Received(s, env)
    ensures ServerCan(Benched(u), BenchDone) && Worked(s, ServerStep(Benched(u), BenchDone), env)
  {
    assert (s.effects + [[]])[..|s.effects|] == s.effects;
    assert [] + env.choice.bench == env.choice.bench;
  }

  // ---- A whole queue ----

  /** The report files among what the handled messages left, at their places. */
  function FilesOf(base: nat, handled: seq<Handled>, envs: seq<Env>): seq<Written>
    requires |handled| <= |envs|
  {
    if handled == [] then []
    else
      var n := |handled| - 1;
      FilesOf(base, handled[..n], envs) + FileAt(base + n, handled[n].file, envs[n])
  }

  /** t is s after its first n queued messages were handled as the sequential loop handles them. */
  predicate ServedQueue(s: Sys, t: Sys, envs: seq<Env>, n: nat)
    requires |s.outer| == |envs| && n <= |s.outer|
  {
    && ServedState(s, t, envs, n)
    && t.server == (if n > 0 && s.outer[n - 1] == Stop then StopReceived else Ready)
    && t.reports == s.reports + FilesOf(|s.effects|, AllHandled(s.agg, s.outer, envs, n), envs)
    && |t.clients| == |s.clients| && AllDelivered(t.clients, s.agg, s.outer, envs, n)
  }

  predicate ServedState(s: Sys, t: Sys, envs: seq<Env>, n: nat)
    requires |s.outer| == |envs| && n <= |s.outer|
  {
    && t.outer == s.outer[n..] && t.sent == s.sent
    && t.agg == StateBefore(s.agg, s.outer, envs, n)
    && t.effects == s.effects + Effects(s.outer[..n], envs[..n])
  }

  predicate AllDelivered(clients: seq<Client>, st: State, queue: seq<Msg>, envs: seq<Env>, n: nat)
    requires |queue| == |envs| && n <= |queue|
  {
    forall i :: 0 <= i < n ==> Delivered(clients, queue[i], HandledAt(st, queue, envs, i).reply)
  }

  lemma ServedStart(s: Sys, envs: seq<Env>)
    requires |s.outer| == |envs| && s.server.Ready?
    ensures ServedQueue(s, s, envs, 0)
  {
  }

  lemma ServedOne(s: Sys, t: Sys, envs: seq<Env>, n: nat, u: Sys)
    requires |s.outer| == |envs| && n < |s.outer|
    requires ServedQueue(s, t, envs, n) && TookMessage(t, u, envs[n])
    ensures ServedQueue(s, u, envs, n + 1)
  {
    ServedOneState(s, t, envs, n, u);
    FilesOn(s.reports, |s.effects|, AllHandled(s.agg, s.outer, envs, n), HandledAt(s.agg, s.outer, envs, n),
            AllHandled(s.agg, s.outer, envs, n + 1), envs,
            t.reports, |t.effects|, FileOf(t.agg, t.outer[0], envs[n]), u.reports);
    DeliveredOn(t.clients, u.clients, s.agg, s.outer, envs, n);
  }

  lemma ServedOneState(s: Sys, t: Sys, envs: seq<Env>, n: nat, u: Sys)
    requires |s.outer| == |envs| && n < |s.outer|
    requires ServedState(s, t, envs, n) && t.outer != [] && u.outer == t.outer[1..] && u.sent == t.sent
    requires var effect := EffectOf(t.outer[0], envs[n]);
             u.agg == Apply(t.agg, effect) && u.effects == t.effects + [effect]
    ensures ServedState(s, u, envs, n + 1) && t.outer[0] == s.outer[n] && |t.effects| == |s.effects| + n
  {
    DropOne(s.outer, n);
    StateStep(s.agg, s.outer, envs, n);
    EffectsOn(s.effects, t.effects, u.effects, s.outer, envs, n);
  }

  lemma DropOne<T>(q: seq<T>, n: nat)
    requires n < |q|
    ensures q[n..][1..] == q[n + 1..] && q[n..][0] == q[n]
  {
  }

  lemma EffectsOn(base: seq<seq<Sample>>, e: seq<seq<Sample>>, e': seq<seq<Sample>>,
                  queue: seq<Msg>, envs: seq<Env>, n: nat)
    requires |queue| == |envs| && n < |queue|
    requires e == base + Effects(queue[..n], envs[..n]) && e' == e + [EffectOf(queue[n], envs[n])]
    ensures e' == base + Effects(queue[..n + 1], envs[..n + 1])
    ensures |e| == |base| + n
  {
  }

  lemma FilesOn(base: seq<Written>, pos: nat, handled: seq<Handled>, h: Handled, handled': seq<Handled>, envs: seq<Env>,
                r: seq<Written>, at: nat, file: Option<seq<Row>>, r': seq<Written>)
    requires |handled| < |envs| && handled' == handled + [h]
    requires r == base + FilesOf(pos, handled, envs)
    requires at == pos + |handled| && file == h.file && r' == r + FileAt(at, file, envs[|handled|])
    ensures r' == base + FilesOf(pos, handled', envs)
  {
  }

  lemma DeliveredOn(before: seq<Client>, clients: seq<Client>, st: State, queue: seq<Msg>, envs: seq<Env>, n: nat)
    requires |queue| == |envs| && n < |queue|
    requires AllDelivered(before, st, queue, envs, n) && RepliesStay(before, clients)
    requires Delivered(clients, queue[n], HandledAt(st, queue, envs, n).reply)
    ensures AllDelivered(clients, st, queue, envs, n + 1)
  {
  }

  /** Whatever the queue holds, the granular server can get to just the state, replies and files that the sequential
      loop computes for it, and stops where that loop stops. */
  lemma {:induction false} QueueIsServed(s: Sys, envs: seq<Env>, n: nat) returns (t: Sys)
    requires Sound(s) && s.server.Ready? && |s.outer| == |envs| && n <= UpToStop(s.outer)
    requires forall i :: 0 <= i < |envs| ==> EnvOk(envs[i])
    ensures ServerRuns(s, t) && ServedQueue(s, t, envs, n)
  {
    if n == 0 {
      t := s;
      NoStep(s);
      ServedStart(s, envs);
    } else {
      var u := QueueIsServed(s, envs, n - 1);
      NoStopSoFar(s.outer, n - 1);
      t := MessageIsAtomic(u, envs[n - 1]);
      RunOn(s, u, t);
      ServedOne(s, u, envs, n - 1, t);
    }
  }

  lemma NoStopSoFar(queue: seq<Msg>, n: nat)
    requires n < UpToStop(queue)
    ensures forall i :: 0 <= i < n ==> queue[i] != Stop
  {
  }
}
