/** Samples that clients put on the queue: how often each is counted, and that nothing else decides what the spans of an
    application show. */
module Submissions {
  import opened Int64
  import opened Stats
  import opened Aggregate
  import opened Builtins
  import opened Confluence
  import opened Families
  import opened Protocol
  import opened Invariants
  import opened Calls
  import opened OnceOnly
  import opened Linearizability

  /** The sample that a message carries. */
  function Carried(m: Msg): seq<Sample> {
    if m.A? then [m.sample] else []
  }

  /** The samples among the first n messages. */
  function Submitted(sent: seq<Sent>, n: nat): seq<Sample>
    requires n <= |sent|
  {
    if n == 0 then []
    else Submitted(sent, n - 1) + Carried(sent[n - 1].msg)
  }

  /** The first n messages have added what they may add. */
  predicate EffectsFit(sent: seq<Sent>, effects: seq<seq<Sample>>, n: nat) {
    n <= |effects| <= |sent| && forall i :: 0 <= i < n ==> EffectOk(sent[i].msg, effects[i])
  }

  lemma FlattenStep(effects: seq<seq<Sample>>, n: nat)
    requires n < |effects|
    ensures Flatten(effects[..n + 1]) == Flatten(effects[..n]) + effects[n]
  {
    assert effects[..n + 1][..n] == effects[..n];
  }

  // ---- Multiplicity ----

  lemma {:induction false} ChosenConcat(a: seq<Sample>, b: seq<Sample>, p: Sample -> bool)
    ensures Chosen(a + b, p) == Chosen(a, p) + Chosen(b, p)
  {
    if b == [] {
      assert a + b == a;
    } else {
      var m := |b| - 1;
      ChosenConcat(a, b[..m], p);
      ChosenSnoc(a + b[..m], b[m], p);
      assert a + b == a + b[..m] + [b[m]];
    }
  }

  predicate Hits(e: Sent, p: Sample -> bool) {
    e.msg.A? && p(e.msg.sample)
  }

  lemma SubmittedStep(sent: seq<Sent>, n: nat, p: Sample -> bool)
    requires n < |sent|
    ensures |Chosen(Submitted(sent, n + 1), p)| == |Chosen(Submitted(sent, n), p)| + One(Hits(sent[n], p))
  {
    if sent[n].msg.A? {
      ChosenSnoc(Submitted(sent, n), sent[n].msg.sample, p);
    } else {
      assert Submitted(sent, n + 1) == Submitted(sent, n);
    }
  }

  /** Whatever is tested for: the history holds at least as many such samples as were submitted, from any earlier
      place on the queue. */
  lemma {:induction false} HistoryHoldsSubmitted(
      sent: seq<Sent>, effects: seq<seq<Sample>>, m: nat, n: nat, p: Sample -> bool)
    requires m <= n && EffectsFit(sent, effects, n)
    ensures |Chosen(Submitted(sent, m), p)| <= |Chosen(Flatten(effects[..n]), p)|
  {
    if n > 0 {
      FlattenStep(effects, n - 1);
      ChosenConcat(Flatten(effects[..n - 1]), effects[n - 1], p);
      if m < n {
        HistoryHoldsSubmitted(sent, effects, m, n - 1, p);
      } else {
        HistoryHoldsSubmitted(sent, effects, m - 1, n - 1, p);
        if sent[n - 1].msg.A? {
          assert effects[n - 1] == [] + [sent[n - 1].msg.sample];
          ChosenSnoc([], sent[n - 1].msg.sample, p);
        }
        SubmittedStep(sent, n - 1, p);
      }
    }
  }

  /** The places below n of submitted samples that pass the test. */
  ghost function Places(sent: seq<Sent>, n: nat, p: Sample -> bool): set<nat>
    requires n <= |sent|
  {
    set i: nat | i < n && sent[i].msg.A? && p(sent[i].msg.sample)
  }

  lemma PlacesStep(sent: seq<Sent>, n: nat, p: Sample -> bool)
    requires n < |sent|
    ensures |Places(sent, n + 1, p)| == |Places(sent, n, p)| + One(Hits(sent[n], p))
  {
    assert Places(sent, n + 1, p) == Places(sent, n, p) + if Hits(sent[n], p) then {n} else {};
  }

  lemma {:induction false} PlacesCount(sent: seq<Sent>, n: nat, p: Sample -> bool)
    requires n <= |sent|
    ensures |Places(sent, n, p)| == |Chosen(Submitted(sent, n), p)|
  {
    if n == 0 {
      NoPlaces(sent, p);
    } else {
      PlacesCount(sent, n - 1, p);
      PlacesStep(sent, n - 1, p);
      SubmittedStep(sent, n - 1, p);
    }
  }

  lemma NoPlaces(sent: seq<Sent>, p: Sample -> bool)
    ensures |Places(sent, 0, p)| == |Chosen(Submitted(sent, 0), p)|
  {
    assert Places(sent, 0, p) == {};
  }

  // ---- Calls that returned ----

  /** Calls that returned from putting something on the queue did so at different places, in the order they returned. */
  predicate QueuedApart(log: seq<Outcome>) {
    forall a, b :: 0 <= a < b < |log| && log[a].Queued? && log[b].Queued? ==> log[a].pos < log[b].pos
  }

  predicate QueuedInPast(s: Sys) {
    forall a :: 0 <= a < |s.log| && s.log[a].Queued? ==> s.log[a].pos < |s.sent|
  }

  /** A step leaves the log alone, or returns from something else, or returns from a send just made. */
  predicate LogMove(s: Sys, t: Sys) {
    && |s.sent| <= |t.sent| && s.log <= t.log && |t.log| <= |s.log| + 1
    && (|t.log| > |s.log| && t.log[|s.log|].Queued? ==> t.log[|s.log|].pos == |s.sent| < |t.sent|)
  }

  lemma ClientLogs(s: Sys, c: nat, act: ClientAct)
    requires ClientCan(s, c, act)
    ensures LogMove(s, ClientStep(s, c, act))
  {
    ClientFacts(s, c, act);
  }

  lemma ServerLogs(s: Sys, act: ServerAct)
    requires ServerCan(s, act)
    ensures ServerStep(s, act).log == s.log && ServerStep(s, act).sent == s.sent
  {
    ServerKeepsSpans(s, act);
  }

  lemma StepLogs(s: Sys, step: Step)
    requires Can(s, step)
    ensures LogMove(s, Next(s, step))
  {
    match step
    case Init(_, _) =>
    case ByClient(c, act) => ClientLogs(s, c, act);
    case ByServer(act) => ServerLogs(s, act);
  }

  lemma MoveKeepsApart(s: Sys, t: Sys)
    requires QueuedApart(s.log) && QueuedInPast(s) && LogMove(s, t)
    ensures QueuedApart(t.log) && QueuedInPast(t)
  {
  }

  lemma {:induction false} RunKeepsApart(s: Sys, schedule: seq<Step>, t: Sys)
    requires QueuedApart(s.log) && QueuedInPast(s) && Runs(s, schedule, t)
    ensures QueuedApart(t.log) && QueuedInPast(t)
    decreases |schedule|
  {
    if schedule != [] {
      StepLogs(s, schedule[0]);
      MoveKeepsApart(s, Next(s, schedule[0]));
      RunKeepsApart(Next(s, schedule[0]), schedule[1..], t);
    }
  }

  lemma ReachableApart(s: Sys)
    requires Reachable(s)
    ensures QueuedApart(s.log)
  {
    var s0, schedule :| Initial(s0) && Runs(s0, schedule, s);
    RunKeepsApart(s0, schedule, s);
  }

  /** Call a put a sample that passes the test on the queue, and returned before `begun` messages had been sent. */
  predicate ReturnedBefore(s: Sys, begun: nat, p: Sample -> bool, a: nat) {
    && a < |s.log| && s.log[a].Queued? && s.log[a].ended <= begun && s.log[a].pos < |s.sent|
    && s.sent[s.log[a].pos].msg.A? && p(s.sent[s.log[a].pos].msg.sample)
  }

  ghost function Returned(s: Sys, begun: nat, p: Sample -> bool): set<nat> {
    set a: nat | a < |s.log| && ReturnedBefore(s, begun, p, a)
  }

  /** A set whose members have different places in a second set is no larger. */
  lemma {:induction false} NoLarger(log: seq<Outcome>, calls: set<nat>, places: set<nat>)
    requires QueuedApart(log)
    requires forall a :: a in calls ==> a < |log| && log[a].Queued? && log[a].pos in places
    ensures |calls| <= |places|
  {
    if calls != {} {
      var a :| a in calls;
      var rest, free := calls - {a}, places - {log[a].pos};
      forall b | b in rest ensures log[b].pos in free {
        assert a != b && (a < b || b < a);
      }
      NoLarger(log, rest, free);
      assert calls == rest + {a} && places == free + {log[a].pos};
    }
  }

  /** Whatever is tested for: the history behind an answer holds at least as many such samples as calls had submitted
      and returned from before the asking call began. */
  lemma SubmittedIsSeen(s: Sys, v: nat, p: Sample -> bool)
    requires Reachable(s) && v < |s.log| && s.log[v].Answered?
    ensures var o := s.log[v];
            o.pos < |s.effects| && |Returned(s, o.begun, p)| <= |Chosen(Before(s, o.pos), p)|
  {
    ReachableIsSound(s);
    ReachableApart(s);
    assert OutcomeOk(s, s.log[v]);
    var begun, pos := s.log[v].begun, s.log[v].pos;
    var calls := Returned(s, begun, p);
    forall a | a in calls ensures s.log[a].pos in Places(s.sent, begun, p) {
      assert OutcomeOk(s, s.log[a]);
    }
    NoLarger(s.log, calls, Places(s.sent, begun, p));
    PlacesCount(s.sent, begun, p);
    HistoryHoldsSubmitted(s.sent, s.effects, begun, pos, p);
  }

  function Touching(k: string): Sample -> bool { (s: Sample) => s.Touches(k) }

  lemma AllTouchingHeld(spans: seq<string>, hist: seq<Sample>, k: string)
    requires Disciplined(spans, hist)
    ensures Contributions(spans, hist, k) == Chosen(hist, Touching(k))
  {
    forall i | 0 <= i < |hist| ensures Touching(k)(hist[i]) <==> AcceptedAt(spans, hist, i) && hist[i].Touches(k) {
      DropFree(spans, hist, i);
    }
    ContributionsChosen(spans, hist, k, Touching(k));
  }

  /** In a disciplined run an answer counts every sample submitted for its span, as name or as variant, by a call that
      returned before the asking call began; and each of them lies within its extremes. */
  lemma SubmittedIsCounted(s: Sys, app: seq<string>, v: nat)
    requires Reachable(s) && ClientsDisciplined(s, app)
    requires v < |s.log| && s.log[v].Answered? && s.log[v].act.AskValues?
    ensures s.log[v].reply.Figures?
    ensures var o, span := s.log[v], s.log[v].act.span;
            var calls, figures := Returned(s, o.begun, Touching(span)), o.reply.figures;
            && (calls != {} ==> figures.everCompleted && figures.weight >= |calls|)
            && forall a :: a in calls ==> figures.min <= s.sent[s.log[a].pos].msg.sample.dur <= figures.max
  {
    var o, span := s.log[v], s.log[v].act.span;
    var hist := (ReachableIsSound(s); assert OutcomeOk(s, o); Before(s, o.pos));
    SubmittedIsSeen(s, v, Touching(span));
    ValuesFigures(s, v);
    EffectsWellNamed(s, app, o.pos);
    AllTouchingHeld(s.initSpans, hist, span);
    var calls := Returned(s, o.begun, Touching(span));
    if calls != {} {
      StatsTold(s.initSpans, hist, span);
      forall a | a in calls ensures s.sent[s.log[a].pos].msg.sample.dur in Contributions(s.initSpans, hist, span) {
        SubmittedIsIn(s, v, a, Touching(span));
        ChosenHas(hist, Touching(span), s.sent[s.log[a].pos].msg.sample);
      }
    }
  }

  lemma StatsTold(spans: seq<string>, hist: seq<Sample>, k: string)
    requires Contributions(spans, hist, k) != []
    ensures Mentioned(spans, hist, k)
  {
    KindsAfter(spans, hist, k);
    StatsAfter(spans, hist, k);
    StatsMeaning(Contributions(spans, hist, k));
  }

  lemma SubmittedIsIn(s: Sys, v: nat, a: nat, p: Sample -> bool)
    requires Sound(s) && v < |s.log| && s.log[v].Answered? && a in Returned(s, s.log[v].begun, p)
    ensures s.log[v].pos < |s.effects| && s.sent[s.log[a].pos].msg.sample in Before(s, s.log[v].pos)
  {
    assert OutcomeOk(s, s.log[a]) && OutcomeOk(s, s.log[v]);
    var i, q := s.log[a].pos, s.log[v].pos;
    assert EffectOk(s.sent[i].msg, s.effects[i]);
    assert s.effects[..q][i] == [s.sent[i].msg.sample];
    FlattenHas(s.effects[..q], i, s.sent[i].msg.sample);
  }

  lemma {:induction false} FlattenHas(effects: seq<seq<Sample>>, i: nat, x: Sample)
    requires i < |effects| && x in effects[i]
    ensures x in Flatten(effects)
  {
    if i < |effects| - 1 {
      FlattenHas(effects[..|effects| - 1], i, x);
    }
  }

  lemma {:induction false} ChosenHas(hist: seq<Sample>, p: Sample -> bool, s: Sample)
    requires s in hist && p(s)
    ensures s.dur in Chosen(hist, p)
  {
    var n := |hist| - 1;
    if s != hist[n] {
      ChosenHas(hist[..n], p, s);
    }
  }

  // ---- Runs with the same client samples ----

  /** The client samples that the server has received, those of built-in spans aside. */
  function ClientSamples(s: Sys): seq<Sample> {
    Only(Submitted(s.sent, if |s.effects| <= |s.sent| then |s.effects| else |s.sent|), NotBuiltin())
  }

  lemma {:induction false} OnlyConcat(a: seq<Sample>, b: seq<Sample>, p: Sample -> bool)
    ensures Only(a + b, p) == Only(a, p) + Only(b, p)
  {
    if b == [] {
      assert a + b == a;
    } else {
      var m := |b| - 1;
      OnlyConcat(a, b[..m], p);
      assert (a + b)[..|a + b| - 1] == a + b[..m];
    }
  }

  lemma {:induction false} OnlyNothing(hist: seq<Sample>)
    requires forall x :: x in hist ==> BuiltinSample(x)
    ensures Only(hist, NotBuiltin()) == []
  {
    if hist != [] {
      OnlyNothing(hist[..|hist| - 1]);
      assert BuiltinSample(hist[|hist| - 1]);
    }
  }

  /** What the server adds on its own account is all of built-in spans. */
  lemma OwnEffectAside(m: Msg, effect: seq<Sample>)
    requires EffectOk(m, effect)
    ensures Only(effect, NotBuiltin()) == Only(Carried(m), NotBuiltin())
  {
    if !m.A? {
      BuiltinsFacts();
      OnlyNothing(effect);
    }
  }

  lemma {:induction false} OwnSamplesAside(sent: seq<Sent>, effects: seq<seq<Sample>>, n: nat)
    requires EffectsFit(sent, effects, n)
    ensures Only(Flatten(effects[..n]), NotBuiltin()) == Only(Submitted(sent, n), NotBuiltin())
  {
    if n > 0 {
      OwnSamplesAside(sent, effects, n - 1);
      FlattenStep(effects, n - 1);
      OnlyConcat(Flatten(effects[..n - 1]), effects[n - 1], NotBuiltin());
      OnlyConcat(Submitted(sent, n - 1), Carried(sent[n - 1].msg), NotBuiltin());
      OwnEffectAside(sent[n - 1].msg, effects[n - 1]);
    }
  }

  /** Two disciplined runs that have received the same bag of client samples, in whatever order and with whatever
      reports and benchmarks between them, agree on the keys and, at every span that is not built in, on all figures
      but `last`. */
  lemma RunsAreConfluent(s: Sys, t: Sys, app: seq<string>, k: string)
    requires Reachable(s) && s.initDone && ClientsDisciplined(s, app)
    requires Reachable(t) && t.initDone && ClientsDisciplined(t, app)
    requires multiset(ClientSamples(s)) == multiset(ClientSamples(t))
    ensures k in s.agg.learners <==> k in t.agg.learners
    ensures k !in BuiltinSpans() ==> SameFigures(StatsAt(s.agg, k), StatsAt(t.agg, k))
  {
    RunHistory(s, app);
    RunHistory(t, app);
    BuiltinsAside(app, Before(s, |s.effects|), Before(t, |t.effects|), k);
  }

  lemma RunHistory(s: Sys, app: seq<string>)
    requires Reachable(s) && s.initDone && ClientsDisciplined(s, app)
    ensures var hist := Before(s, |s.effects|);
            && s.agg == After(app + BuiltinSpans(), hist)
            && (forall x :: x in hist ==> WellNamed(x))
            && Only(hist, NotBuiltin()) == ClientSamples(s)
  {
    ReachableIsSound(s);
    assert s.effects[..|s.effects|] == s.effects;
    EffectsWellNamed(s, app, |s.effects|);
    OwnSamplesAside(s.sent, s.effects, |s.effects|);
  }

  // ---- A single span ----

  /** The durations of the client samples that the server has received for a span, as name or as variant. */
  function ClientDurations(s: Sys, k: string): seq<int64> {
    Chosen(Submitted(s.sent, if |s.effects| <= |s.sent| then |s.effects| else |s.sent|), Touching(k))
  }

  lemma {:induction false} ChosenNothing(hist: seq<Sample>, p: Sample -> bool)
    requires forall x :: x in hist ==> !p(x)
    ensures Chosen(hist, p) == []
  {
    if hist != [] {
      ChosenNothing(hist[..|hist| - 1], p);
      assert hist[|hist| - 1] in hist;
    }
  }

  /** A message adds just what it carries of the samples tested for. */
  predicate AddsCarried(m: Msg, effect: seq<Sample>, p: Sample -> bool) {
    Chosen(effect, p) == Chosen(Carried(m), p)
  }

  /** What a message adds for a span that the server does not feed is what the message carries for it. */
  lemma OwnEffectElsewhere(m: Msg, effect: seq<Sample>, k: string)
    requires EffectOk(m, effect) && !FedByServer(k)
    ensures AddsCarried(m, effect, Touching(k))
  {
    if !m.A? {
      BuiltinsFacts();
      ChosenNothing(effect, Touching(k));
    }
  }

  lemma ChosenAlong(sent: seq<Sent>, effects: seq<seq<Sample>>, n: nat, p: Sample -> bool)
    requires n < |effects| <= |sent|
    ensures Chosen(Flatten(effects[..n + 1]), p) == Chosen(Flatten(effects[..n]), p) + Chosen(effects[n], p)
    ensures Chosen(Submitted(sent, n + 1), p) == Chosen(Submitted(sent, n), p) + Chosen(Carried(sent[n].msg), p)
  {
    FlattenStep(effects, n);
    ChosenConcat(Flatten(effects[..n]), effects[n], p);
    ChosenConcat(Submitted(sent, n), Carried(sent[n].msg), p);
  }

  ghost predicate StaysEqual(f: nat -> seq<int64>, g: nat -> seq<int64>, i: nat) {
    f(i) == g(i) ==> f(i + 1) == g(i + 1)
  }

  lemma {:induction false} EqualAllAlong(f: nat -> seq<int64>, g: nat -> seq<int64>, n: nat)
    requires f(0) == g(0) && forall i: nat :: i < n ==> StaysEqual(f, g, i)
    ensures f(n) == g(n)
  {
    if n > 0 {
      EqualAllAlong(f, g, n - 1);
      assert StaysEqual(f, g, n - 1);
    }
  }

  function Held(effects: seq<seq<Sample>>, p: Sample -> bool): nat -> seq<int64> {
    (i: nat) => if i <= |effects| then Chosen(Flatten(effects[..i]), p) else []
  }

  function Brought(sent: seq<Sent>, p: Sample -> bool): nat -> seq<int64> {
    (i: nat) => if i <= |sent| then Chosen(Submitted(sent, i), p) else []
  }

  lemma AddingStaysEqual(sent: seq<Sent>, effects: seq<seq<Sample>>, i: nat, p: Sample -> bool)
    requires i < |effects| <= |sent| && AddsCarried(sent[i].msg, effects[i], p)
    ensures StaysEqual(Held(effects, p), Brought(sent, p), i)
  {
    ChosenAlong(sent, effects, i, p);
  }

  /** If that goes for each message, it goes for all of them. */
  lemma ChosenAllAlong(sent: seq<Sent>, effects: seq<seq<Sample>>, n: nat, p: Sample -> bool)
    requires n <= |effects| <= |sent| && forall i :: 0 <= i < n ==> AddsCarried(sent[i].msg, effects[i], p)
    ensures Held(effects, p)(n) == Brought(sent, p)(n)
  {
    forall i: nat | i < n ensures StaysEqual(Held(effects, p), Brought(sent, p), i) {
      AddingStaysEqual(sent, effects, i, p);
    }
    assert effects[..0] == [];
    EqualAllAlong(Held(effects, p), Brought(sent, p), n);
  }

  lemma OwnSamplesElsewhere(sent: seq<Sent>, effects: seq<seq<Sample>>, n: nat, k: string)
    requires EffectsFit(sent, effects, n) && !FedByServer(k)
    ensures Chosen(Flatten(effects[..n]), Touching(k)) == Chosen(Submitted(sent, n), Touching(k))
  {
    forall i | 0 <= i < n ensures AddsCarried(sent[i].msg, effects[i], Touching(k)) {
      OwnEffectElsewhere(sent[i].msg, effects[i], k);
    }
    ChosenAllAlong(sent, effects, n, Touching(k));
  }

  /** In a disciplined run a span that the server does not feed, LL.no-op among them, holds just the durations of its
      client samples. */
  lemma HoldsClientDurations(s: Sys, app: seq<string>, k: string)
    requires Reachable(s) && s.initDone && ClientsDisciplined(s, app) && !FedByServer(k)
    ensures StatsAt(s.agg, k) == StatsOf(ClientDurations(s, k))
  {
    RunHistory(s, app);
    ReachableIsSound(s);
    EffectsWellNamed(s, app, |s.effects|);
    AllTouchingHeld(s.initSpans, Before(s, |s.effects|), k);
    StatsAfter(s.initSpans, Before(s, |s.effects|), k);
    OwnSamplesElsewhere(s.sent, s.effects, |s.effects|, k);
  }

  /** So two such runs agree, on all figures but `last`, at every such span for which they have received the same bag of
      durations. */
  lemma RunsAgreeAt(s: Sys, t: Sys, app: seq<string>, k: string)
    requires Reachable(s) && s.initDone && ClientsDisciplined(s, app)
    requires Reachable(t) && t.initDone && ClientsDisciplined(t, app)
    requires !FedByServer(k) && multiset(ClientDurations(s, k)) == multiset(ClientDurations(t, k))
    ensures SameFigures(StatsAt(s.agg, k), StatsAt(t.agg, k))
  {
    HoldsClientDurations(s, app, k);
    HoldsClientDurations(t, app, k);
    OrderIrrelevant(ClientDurations(s, k), ClientDurations(t, k));
  }
}
