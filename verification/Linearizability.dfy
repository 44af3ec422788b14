/** Whole runs: every answer and every report is what a sequential aggregator says at the place where the request was
    put on the queue. */
module Linearizability {
  import opened Int64
  import opened SpanKeys
  import opened Stats
  import opened Aggregate
  import opened Builtins
  import opened TrackedSpans
  import opened Confluence
  import opened Families
  import opened Reports
  import opened Protocol
  import opened Invariants
  import opened Calls

  /** What the messages sent before place pos have added, each of them at its own place. */
  function Before(s: Sys, pos: nat): seq<Sample>
    requires pos <= |s.effects|
  {
    Flatten(s.effects[..pos])
  }

  /** In every interleaving, an answered call has put its own kind of request on the queue, between its start and its
      end; and a values reply is the answer of the sequential aggregator, for the span that was asked for, to
      exactly the messages sent before the request. */
  lemma ValuesLinearizable(s: Sys, l: nat)
    requires Reachable(s) && l < |s.log| && s.log[l].Answered?
    ensures var o := s.log[l];
            && o.begun <= o.pos < o.ended <= |s.sent| && o.pos < |s.effects| <= |s.sent|
            && (forall i :: 0 <= i <= o.pos ==> EffectOk(s.sent[i].msg, s.effects[i]))
            && match o.act {
                 case AskValues(span) =>
                   && s.sent[o.pos].msg == Values(span, o.client)
                   && o.reply == Figures(Answer(After(s.initSpans, Before(s, o.pos)), span))
                 case AskReport => s.sent[o.pos].msg == Report(o.client) && o.reply == Done
                 case AskBenchmarks => s.sent[o.pos].msg == Benchmarks(o.client) && o.reply == Done
                 case _ => false
               }
  {
    ReachableIsSound(s);
    assert OutcomeOk(s, s.log[l]);
  }

  /** What a reply to a request for key says, if durs are the accepted samples meant for it. */
  ghost predicate Tells(r: Reply, key: string, durs: seq<int64>) {
    && r.name == key && r.weight == |durs| && r.cumul == Wrap(Sum(durs))
    && (r.everCompleted <==> durs != [])
    && if durs == [] then r.min == r.last == r.max == 0 && r.mean == -1
       else
         && r.last == durs[|durs| - 1] && IsMin(r.min, durs) && IsMax(r.max, durs)
         && r.mean == TruncDiv(r.cumul, |durs|)
  }

  lemma AnswerTells(spans: seq<string>, hist: seq<Sample>, key: string)
    ensures var r := Answer(After(spans, hist), key);
            if Mentioned(spans, hist, key) then Tells(r, key, Contributions(spans, hist, key))
            else r == Reply(key, false, -1, -1, -1, -1, -1, -1)
  {
    KindsAfter(spans, hist, key);
    StatsAfter(spans, hist, key);
    StatsMeaning(Contributions(spans, hist, key));
  }

  /** The reply, told by the samples alone. */
  lemma ValuesFigures(s: Sys, l: nat)
    requires Reachable(s) && l < |s.log| && s.log[l].Answered? && s.log[l].act.AskValues?
    ensures var o := s.log[l];
            o.pos < |s.effects| && o.reply.Figures? &&
            var span, hist := o.act.span, Before(s, o.pos);
            if Mentioned(s.initSpans, hist, span)
            then Tells(o.reply.figures, span, Contributions(s.initSpans, hist, span))
            else o.reply.figures == Reply(span, false, -1, -1, -1, -1, -1, -1)
  {
    ValuesLinearizable(s, l);
    AnswerTells(s.initSpans, Before(s, s.log[l].pos), s.log[l].act.span);
  }

  lemma {:induction false} ContributionsGrow(spans: seq<string>, hist: seq<Sample>, m: nat, k: string)
    requires m <= |hist|
    ensures Contributions(spans, hist[..m], k) <= Contributions(spans, hist, k)
  {
    if m == |hist| {
      assert hist[..m] == hist;
    } else {
      var n := |hist| - 1;
      ContributionsGrow(spans, hist[..n], m, k);
      assert hist[..n][..m] == hist[..m];
    }
  }

  lemma {:induction false} FlattenGrows(effects: seq<seq<Sample>>, m: nat)
    requires m <= |effects|
    ensures Flatten(effects[..m]) <= Flatten(effects)
  {
    if m == |effects| {
      assert effects[..m] == effects;
    } else {
      var n := |effects| - 1;
      FlattenGrows(effects[..n], m);
      assert effects[..n][..m] == effects[..m];
    }
  }

  lemma MentionsGrow(spans: seq<string>, hist: seq<Sample>, m: nat, k: string)
    requires m <= |hist| && Mentioned(spans, hist[..m], k)
    ensures Mentioned(spans, hist, k)
  {
    MentionedIff(spans, hist[..m], k);
    MentionedIff(spans, hist, k);
    assert forall x :: x in hist[..m] ==> x in hist;
  }

  /** Later figures for the same span: no fewer samples, and extremes no closer. */
  predicate Grown(r: Reply, q: Reply) {
    && r.weight <= q.weight && (r.everCompleted ==> q.everCompleted && q.min <= r.min && r.max <= q.max)
  }

  lemma AnswersGrow(spans: seq<string>, hist: seq<Sample>, m: nat, k: string)
    requires m <= |hist|
    ensures Grown(Answer(After(spans, hist[..m]), k), Answer(After(spans, hist), k))
  {
    AnswerTells(spans, hist[..m], k);
    AnswerTells(spans, hist, k);
    ContributionsGrow(spans, hist, m, k);
    if Mentioned(spans, hist[..m], k) {
      MentionsGrow(spans, hist, m, k);
      ExtremesGrow(Contributions(spans, hist[..m], k), Contributions(spans, hist, k));
    }
  }

  lemma ExtremesGrow(a: seq<int64>, b: seq<int64>)
    requires a <= b
    ensures forall x: int64, y: int64 :: IsMin(x, a) && IsMin(y, b) ==> y <= x
    ensures forall x: int64, y: int64 :: IsMax(x, a) && IsMax(y, b) ==> x <= y
  {
    assert forall i :: 0 <= i < |a| ==> a[i] == b[i];
  }

  lemma LaterAnswersGrow(spans: seq<string>, effects: seq<seq<Sample>>, p: nat, q: nat, k: string)
    requires p <= q <= |effects|
    ensures Grown(Answer(After(spans, Flatten(effects[..p])), k), Answer(After(spans, Flatten(effects[..q])), k))
  {
    var before, hist := Flatten(effects[..p]), Flatten(effects[..q]);
    FlattenGrows(effects[..q], p);
    assert effects[..q][..p] == effects[..p];
    assert before == hist[..|before|];
    AnswersGrow(spans, hist, |before|, k);
  }

  /** Two answers for one span, the second asked for after the first had come: the weight never falls, the minimum never
      rises and the maximum never falls. */
  lemma AnswersOnlyGrow(s: Sys, v: nat, w: nat)
    requires Reachable(s) && v < |s.log| && w < |s.log| && s.log[v].Answered? && s.log[w].Answered?
    requires s.log[v].act.AskValues? && s.log[w].act == s.log[v].act && s.log[v].ended <= s.log[w].begun
    ensures s.log[v].reply.Figures? && s.log[w].reply.Figures?
    ensures Grown(s.log[v].reply.figures, s.log[w].reply.figures)
  {
    ValuesLinearizable(s, v);
    ValuesLinearizable(s, w);
    LaterAnswersGrow(s.initSpans, s.effects, s.log[v].pos, s.log[w].pos, s.log[v].act.span);
  }

  lemma {:induction false} FlattenFrom(effects: seq<seq<Sample>>, x: Sample)
    requires x in Flatten(effects)
    ensures exists i :: 0 <= i < |effects| && x in effects[i]
  {
    var n := |effects| - 1;
    if x !in effects[n] {
      FlattenFrom(effects[..n], x);
    }
  }

  // ---- Reports ----

  /** Every report file shows one state: the one made by the messages sent before its request. The sample that times
      the report itself is not in it, but right behind. */
  lemma ReportIsSnapshot(s: Sys, r: nat)
    requires Reachable(s) && r < |s.reports|
    ensures var w := s.reports[r];
            && w.pos < |s.effects| <= |s.sent|
            && s.sent[w.pos].msg.Report?
            && w.rows == RowsOf(After(s.initSpans, Before(s, w.pos)), w.mode)
            && |s.effects[w.pos]| == 1
            && s.effects[w.pos][0].name == REPORT_SPAN && s.effects[w.pos][0].variant == ""
            && forall q :: 0 <= q < r ==> s.reports[q].pos < w.pos
  {
    ReachableIsSound(s);
    var w := s.reports[r];
    assert ReportOk(s, w);
    assert EffectOk(s.sent[w.pos].msg, s.effects[w.pos]);
    assert s.effects[w.pos][0] in s.effects[w.pos];
  }

  /** While a report is being written the state stands still, whatever the clients do, and no other report begins. */
  lemma ReportUndisturbed(s: Sys, step: Step)
    requires Reachable(s) && s.server.Writing? && Can(s, step) && step != ByServer(WriteRow)
    requires !(step.ByServer? && step.sact.FinishReport?)
    ensures var t := Next(s, step);
            t.server == s.server && t.agg == s.agg && t.effects == s.effects && t.reports == s.reports
  {
    ReachableIsSound(s);
    if step.ByClient? {
      ClientFacts(s, step.c, step.act);
    }
  }

  /** A report times itself: when it is done, its duration is fed to LL.lat-report and nothing else is. */
  lemma ReportTimesItself(s: Sys, dur: int64, k: string)
    requires Reachable(s) && ServerCan(s, FinishReport(dur))
    ensures StatsAt(ServerStep(s, FinishReport(dur)).agg, k) ==
            if k == "LL.lat-report" then After2(StatsAt(s.agg, k), dur) else StatsAt(s.agg, k)
  {
  }

  /** Each row of a state tells its span by the samples alone. */
  lemma RowsMeaning(spans: seq<string>, hist: seq<Sample>, mode: Mode, i: nat)
    requires i < |Listed(After(spans, hist).tracked, mode)|
    ensures var st := After(spans, hist);
            var rows, k := RowsOf(st, mode), Listed(st.tracked, mode)[i];
            && |rows| == |Listed(st.tracked, mode)| && k in st.learners
            && rows[i] == RowOf(k, StatsOf(Contributions(spans, hist, k)), OverheadFor(st, mode), mode.subtract)
  {
    var st := After(spans, hist);
    var k := Listed(st.tracked, mode)[i];
    RowsPlaced(st, mode);
    IndexAfter(spans, hist);
    StatsAfter(spans, hist, k);
  }

  // ---- What the naming discipline buys in every run ----

  /** Clients follow the naming discipline. */
  predicate ClientsDisciplined(s: Sys, app: seq<string>) {
    && s.initSpans == app + BuiltinSpans()
    && (forall k :: k in app ==> AppName(k))
    && forall i :: 0 <= i < |s.sent| && s.sent[i].msg.A? ==> WellNamed(s.sent[i].msg.sample)
  }

  lemma EffectsWellNamed(s: Sys, app: seq<string>, pos: nat)
    requires Reachable(s) && ClientsDisciplined(s, app) && pos <= |s.effects|
    ensures Disciplined(s.initSpans, Before(s, pos))
  {
    ReachableIsSound(s);
    ReservedNames(app);
    forall x | x in Before(s, pos) ensures WellNamed(x) {
      FlattenFrom(s.effects[..pos], x);
      var i :| 0 <= i < pos && x in s.effects[..pos][i];
      EffectWellNamed(s.sent[i].msg, s.effects[i], x);
    }
  }

  lemma ReservedNames(app: seq<string>)
    requires forall k :: k in app ==> AppName(k)
    ensures WellNamedSpans(app + BuiltinSpans())
  {
    BuiltinsFacts();
  }

  lemma EffectWellNamed(m: Msg, effect: seq<Sample>, x: Sample)
    requires EffectOk(m, effect) && x in effect && (m.A? ==> WellNamed(m.sample))
    ensures WellNamed(x)
  {
    BuiltinsFacts();
  }

  /** In a disciplined run no sample is ever dropped. */
  lemma RunsDropNothing(s: Sys, app: seq<string>, i: nat)
    requires Reachable(s) && ClientsDisciplined(s, app) && i < |Before(s, |s.effects|)|
    ensures var hist := Before(s, |s.effects|); After(s.initSpans, hist[..i]).Accepts(hist[i])
  {
    EffectsWellNamed(s, app, |s.effects|);
    NothingDropped(s.initSpans, Before(s, |s.effects|), i);
  }

  /** In every reachable state, a family that no stranger feeds is conserved. */
  lemma RunsConserveFamilies(s: Sys, n: string)
    requires Reachable(s) && s.initDone && Apart(s.initSpans, Before(s, |s.effects|), n)
    ensures Conserved(s.agg, Before(s, |s.effects|), n)
  {
    ReachableIsSound(s);
    assert s.effects[..|s.effects|] == s.effects;
    FamilyConserved(s.initSpans, Before(s, |s.effects|), n);
  }

  /** In a disciplined run that is every span but the variants. */
  lemma DisciplinedFamilies(s: Sys, app: seq<string>, n: string)
    requires Reachable(s) && s.initDone && ClientsDisciplined(s, app)
    requires n in s.agg.learners ==> s.agg.learners[n].kind == Plain
    ensures Conserved(s.agg, Before(s, |s.effects|), n)
  {
    var hist := Before(s, |s.effects|);
    ReachableIsSound(s);
    assert s.effects[..|s.effects|] == s.effects;
    EffectsWellNamed(s, app, |s.effects|);
    PlainIsApart(s.initSpans, hist, n);
    RunsConserveFamilies(s, n);
  }
}
