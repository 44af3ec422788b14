/** The sequential aggregator as a function: what the state of the server is after a history of samples,
    and an independent account of what that state means. */
module Aggregate {
  import opened Int64
  import opened Options
  import opened SpanKeys
  import opened Stats

  /** Which of the two learner types an entry of the map holds. */
  datatype Kind = Plain | Variant

  /** An entry of the learners map. `parent` is the key of the learner a variant points to. */
  datatype Slot = Slot(kind: Kind, stats: Stats, parent: Option<string>)

  datatype Sample = Sample(name: string, variant: string, dur: int64) {
    function Key(): string {
      SpanKeyForm(name, variant)
    }

    predicate MentionsAsVariant(k: string) {
      variant != "" && Key() == k
    }

    /** The keys whose statistics this sample is meant for. */
    predicate Touches(k: string) {
      name == k || MentionsAsVariant(k)
    }
  }

  /** The learners map and the ordered index over its keys. */
  datatype State = State(learners: map<string, Slot>, tracked: seq<string>) {
    /** `latency_learner` / `variant_latency_learner` plus the append to `tracked_spans` at the call site. */
    function Ensure(k: string, kind: Kind): State {
      if k in learners then this
      else State(learners[k := Slot(kind, FRESH, None)], tracked + [k])
    }

    /** The branch in which `getVLL` yields nil and the sample is dropped. */
    predicate Accepts(s: Sample) {
      s.variant != "" && s.Key() in learners ==> learners[s.Key()].kind != Plain
    }

    function Record(k: string, dur: int64): State
      requires k in learners
    {
      this.(learners := learners[k := learners[k].(stats := After2(learners[k].stats, dur))])
    }

    function SetParent(k: string, p: string): State
      requires k in learners
    {
      this.(learners := learners[k := learners[k].(parent := Some(p))])
    }

    /** `handle_ssu_A`, once the learner of the bare name is at hand: the variant half. */
    function HandleVariant(s: Sample): State
      requires s.variant != "" && s.name in learners
    {
      if !Accepts(s) then this
      else Ensure(s.Key(), Variant).SetParent(s.Key(), s.name).Record(s.name, s.dur).Record(s.Key(), s.dur)
    }

    /** `handle_ssu_A`. */
    function Handle(s: Sample): State {
      var withName := Ensure(s.name, Plain);
      if s.variant == "" then withName.Record(s.name, s.dur) else withName.HandleVariant(s)
    }
  }

  /** `init_inner`: every span of the list gets a plain, empty learner. */
  function InitState(spans: seq<string>): State {
    State(map k | k in spans :: Slot(Plain, FRESH, None), spans)
  }

  /** The aggregator after a history of samples, oldest first. */
  function After(spans: seq<string>, hist: seq<Sample>): State {
    if hist == [] then InitState(spans)
    else After(spans, hist[..|hist| - 1]).Handle(hist[|hist| - 1])
  }

  // ---- The independent account: first mentions and accepted samples ----

  /** Sample i is the first mention of k in hist, and names it as a span. */
  predicate NamesFirst(hist: seq<Sample>, i: int, k: string) {
    0 <= i < |hist| && hist[i].name == k && forall j :: 0 <= j < i ==> !hist[j].Touches(k)
  }

  /** Sample i is the first mention of k in hist, and forms it as the key of a variant. */
  predicate FormsFirst(hist: seq<Sample>, i: int, k: string) {
    0 <= i < |hist| && hist[i].MentionsAsVariant(k) && forall j :: 0 <= j < i ==> !hist[j].Touches(k)
  }

  /** k was first mentioned as a bare span name, by the Init list or by a sample. */
  ghost predicate PlainFirst(spans: seq<string>, hist: seq<Sample>, k: string) {
    k in spans || exists i :: NamesFirst(hist, i, k)
  }

  /** k was first mentioned as the key of a variant. */
  ghost predicate VariantFirst(spans: seq<string>, hist: seq<Sample>, k: string) {
    k !in spans && exists i :: FormsFirst(hist, i, k)
  }

  /** Sample i is dropped exactly when it carries a variant whose key was first mentioned as a bare name. */
  ghost predicate AcceptedAt(spans: seq<string>, hist: seq<Sample>, i: nat)
    requires i < |hist|
  {
    hist[i].variant != "" ==> !PlainFirst(spans, hist[..i], hist[i].Key())
  }

  /** The durations of the accepted samples meant for k, in order. */
  ghost function Contributions(spans: seq<string>, hist: seq<Sample>, k: string): seq<int64> {
    if hist == [] then []
    else
      var n := |hist| - 1;
      Contributions(spans, hist[..n], k) +
      if AcceptedAt(spans, hist, n) && hist[n].Touches(k) then [hist[n].dur] else []
  }

  /** The entry of k exists, and is of the kind, that the first mention of k says. */
  ghost predicate KindExplained(st: State, spans: seq<string>, hist: seq<Sample>, k: string) {
    && (k in st.learners <==> Mentioned(spans, hist, k))
    && (k in st.learners ==>
      && (st.learners[k].kind == Plain <==> PlainFirst(spans, hist, k))
      && (st.learners[k].kind == Variant <==> VariantFirst(spans, hist, k)))
  }

  ghost predicate Mentioned(spans: seq<string>, hist: seq<Sample>, k: string) {
    PlainFirst(spans, hist, k) || VariantFirst(spans, hist, k)
  }

  function StatsAt(st: State, k: string): Stats {
    if k in st.learners then st.learners[k].stats else FRESH
  }

  lemma FirstInPrefix(hist: seq<Sample>, n: nat, k: string)
    requires n <= |hist|
    ensures forall i :: i < n ==> NamesFirst(hist, i, k) == NamesFirst(hist[..n], i, k)
    ensures forall i :: i < n ==> FormsFirst(hist, i, k) == FormsFirst(hist[..n], i, k)
  {
  }

  /** Without a first mention there is no mention at all. */
  lemma {:induction false} Unmentioned(spans: seq<string>, hist: seq<Sample>, k: string)
    requires !PlainFirst(spans, hist, k) && !VariantFirst(spans, hist, k)
    ensures k !in spans
    ensures forall i :: 0 <= i < |hist| ==> !hist[i].Touches(k)
  {
    if hist != [] {
      var n := |hist| - 1;
      FirstInPrefix(hist, n, k);
      Unmentioned(spans, hist[..n], k);
      assert !NamesFirst(hist, n, k) && !FormsFirst(hist, n, k);
      assert forall i :: 0 <= i < n ==> hist[..n][i] == hist[i];
    }
  }

  /** One more sample settles the kind of a key only when no earlier sample mentioned it. */
  lemma MentionStep(spans: seq<string>, hist: seq<Sample>, k: string)
    requires hist != []
    ensures var n := |hist| - 1;
            var known := Mentioned(spans, hist[..n], k);
            && (PlainFirst(spans, hist, k) <==> PlainFirst(spans, hist[..n], k) || (!known && hist[n].name == k))
            && (VariantFirst(spans, hist, k) <==>
                VariantFirst(spans, hist[..n], k) || (!known && hist[n].MentionsAsVariant(k)))
  {
    var n := |hist| - 1;
    FirstInPrefix(hist, n, k);
    assert forall i :: 0 <= i < n ==> hist[..n][i] == hist[i];
    if Mentioned(spans, hist[..n], k) {
      if k !in spans {
        var i :| NamesFirst(hist, i, k) || FormsFirst(hist, i, k);
        assert !NamesFirst(hist, n, k) && !FormsFirst(hist, n, k);
      }
    } else {
      Unmentioned(spans, hist[..n], k);
      assert NamesFirst(hist, n, k) <==> hist[n].name == k;
      assert FormsFirst(hist, n, k) <==> hist[n].MentionsAsVariant(k);
    }
  }

  lemma KindsExclusive(spans: seq<string>, hist: seq<Sample>, k: string)
    ensures !(PlainFirst(spans, hist, k) && VariantFirst(spans, hist, k))
  {
  }

  // ---- Handle meets the account ----

  /** The entry of k after one more sample: an existing entry keeps its kind for ever. */
  predicate KindHandled(st: State, st': State, s: Sample, k: string) {
    && (k in st'.learners <==> k in st.learners || s.Touches(k))
    && (k in st.learners ==> st'.learners[k].kind == st.learners[k].kind)
    && (k !in st.learners && s.name == k ==> st'.learners[k].kind == Plain)
    && (k !in st.learners && s.MentionsAsVariant(k) ==> st'.learners[k].kind == Variant)
  }

  /** One sample, seen from one key: an accepted sample feeds the learners of both its keys, a dropped one feeds
      none, though it may still create the parent's. */
  lemma HandleAt(st: State, s: Sample, k: string)
    ensures KindHandled(st, st.Handle(s), s, k)
    ensures StatsHandled(st, st.Handle(s), s, k)
  {
  }

  predicate StatsHandled(st: State, st': State, s: Sample, k: string) {
    StatsAt(st', k) == if st.Accepts(s) && s.Touches(k) then After2(StatsAt(st, k), s.dur) else StatsAt(st, k)
  }

  /** The entries of the map after any history are the mentioned keys, each of the kind of its first mention. */
  lemma {:induction false} KindsAfter(spans: seq<string>, hist: seq<Sample>, k: string)
    ensures KindExplained(After(spans, hist), spans, hist, k)
  {
    if hist != [] {
      var n := |hist| - 1;
      var st := After(spans, hist[..n]);
      KindsAfter(spans, hist[..n], k);
      HandleAt(st, hist[n], k);
      KindStep(spans, hist, st, st.Handle(hist[n]), k);
    }
  }

  lemma KindStep(spans: seq<string>, hist: seq<Sample>, st: State, st': State, k: string)
    requires hist != []
    requires KindExplained(st, spans, hist[..|hist| - 1], k)
    requires KindHandled(st, st', hist[|hist| - 1], k)
    ensures KindExplained(st', spans, hist, k)
  {
    MentionStep(spans, hist, k);
    KindsExclusive(spans, hist, k);
    KindsExclusive(spans, hist[..|hist| - 1], k);
  }

  /** The drop test of the running aggregator is the drop rule of the account. */
  lemma AcceptsIsAcceptedAt(spans: seq<string>, hist: seq<Sample>, i: nat)
    requires i < |hist|
    ensures After(spans, hist[..i]).Accepts(hist[i]) <==> AcceptedAt(spans, hist, i)
  {
    KindsAfter(spans, hist[..i], hist[i].Key());
  }

  lemma ContributionsStep(spans: seq<string>, hist: seq<Sample>, k: string)
    requires hist != []
    ensures var n := |hist| - 1;
            Contributions(spans, hist, k) == Contributions(spans, hist[..n], k) +
            if After(spans, hist[..n]).Accepts(hist[n]) && hist[n].Touches(k) then [hist[n].dur] else []
  {
    AcceptsIsAcceptedAt(spans, hist, |hist| - 1);
  }

  /** The learner of every key holds the `after2` fold of the accepted samples meant for that key. */
  lemma {:induction false} StatsAfter(spans: seq<string>, hist: seq<Sample>, k: string)
    ensures StatsAt(After(spans, hist), k) == StatsOf(Contributions(spans, hist, k))
  {
    if hist != [] {
      var n := |hist| - 1;
      var st := After(spans, hist[..n]);
      StatsAfter(spans, hist[..n], k);
      ContributionsStep(spans, hist, k);
      HandleAt(st, hist[n], k);
      StatsStep(st, After(spans, hist), hist[n], k, Contributions(spans, hist[..n], k));
    }
  }

  lemma StatsStep(st: State, st': State, s: Sample, k: string, durs: seq<int64>)
    requires StatsAt(st, k) == StatsOf(durs)
    requires StatsHandled(st, st', s, k)
    ensures StatsAt(st', k) == StatsOf(durs + if st.Accepts(s) && s.Touches(k) then [s.dur] else [])
  {
    StatsOfAppend(durs, s.dur);
    assert durs + [] == durs;
  }

  lemma StatsOfAppend(durs: seq<int64>, d: int64)
    ensures StatsOf(durs + [d]) == After2(StatsOf(durs), d)
  {
  }
}
