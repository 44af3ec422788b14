/** When does the order in which samples are handled not matter? Exactly when no key outside the Init list is used
    both as a bare name and as the key of a variant. */
module Confluence {
  import opened Int64
  import opened SpanKeys
  import opened Stats
  import opened Aggregate
  import opened Builtins

  /** The two states hold the same keys, and the same figures (all but `last`) at every key. */
  predicate SameSummary(a: State, b: State) {
    && a.learners.Keys == b.learners.Keys
    && forall k :: k in a.learners ==> SameFigures(a.learners[k].stats, b.learners[k].stats)
  }

  /** Every order of the same bag of samples ends with the same summary. */
  ghost predicate Confluent(spans: seq<string>, hist: seq<Sample>) {
    forall h :: multiset(h) == multiset(hist) ==> SameSummary(After(spans, hist), After(spans, h))
  }

  /** Sample t forms, as a variant, a key outside the Init list that sample s uses as its name. */
  predicate Clash(spans: seq<string>, s: Sample, t: Sample) {
    t.MentionsAsVariant(s.name) && s.name !in spans
  }

  ghost predicate Consistent(spans: seq<string>, hist: seq<Sample>) {
    forall s, t :: s in hist && t in hist ==> !Clash(spans, s, t)
  }

  /** The drop rule when nothing clashes: it looks at the sample and the Init list only. */
  predicate KeptAlways(spans: seq<string>, s: Sample) {
    s.variant != "" ==> s.Key() !in spans
  }

  function KeptAndTouching(spans: seq<string>, k: string): Sample -> bool {
    (s: Sample) => KeptAlways(spans, s) && s.Touches(k)
  }

  // ---- Choosing samples by a test on the sample alone ----

  function Chosen(hist: seq<Sample>, p: Sample -> bool): seq<int64> {
    if hist == [] then []
    else
      var n := |hist| - 1;
      Chosen(hist[..n], p) + if p(hist[n]) then [hist[n].dur] else []
  }

  function Hit(s: Sample, p: Sample -> bool, d: int64): nat {
    if p(s) && s.dur == d then 1 else 0
  }

  /** How often the duration d is chosen. */
  function Times(hist: seq<Sample>, p: Sample -> bool, d: int64): nat {
    if hist == [] then 0
    else Times(hist[..|hist| - 1], p, d) + Hit(hist[|hist| - 1], p, d)
  }

  lemma {:induction false} ChosenTimes(hist: seq<Sample>, p: Sample -> bool, d: int64)
    ensures multiset(Chosen(hist, p))[d] == Times(hist, p, d)
  {
    if hist != [] {
      ChosenTimes(hist[..|hist| - 1], p, d);
    }
  }

  function Without(hist: seq<Sample>, i: nat): seq<Sample>
    requires i < |hist|
  {
    hist[..i] + hist[i + 1..]
  }

  lemma {:induction false} TimesConcat(a: seq<Sample>, b: seq<Sample>, p: Sample -> bool, d: int64)
    ensures Times(a + b, p, d) == Times(a, p, d) + Times(b, p, d)
  {
    if b == [] {
      assert a + b == a;
    } else {
      TimesConcat(a, b[..|b| - 1], p, d);
      assert (a + b)[..|a + b| - 1] == a + b[..|b| - 1];
    }
  }

  lemma TimesTake(hist: seq<Sample>, p: Sample -> bool, d: int64, i: nat)
    requires i < |hist|
    ensures Times(hist, p, d) == Times(Without(hist, i), p, d) + Hit(hist[i], p, d)
  {
    TimesConcat(hist[..i + 1], hist[i + 1..], p, d);
    assert hist[..i + 1] + hist[i + 1..] == hist;
    assert hist[..i + 1][..i] == hist[..i];
    TimesConcat(hist[..i], hist[i + 1..], p, d);
  }

  lemma {:induction false} TimesOfBag(a: seq<Sample>, b: seq<Sample>, p: Sample -> bool, d: int64)
    requires multiset(a) == multiset(b)
    ensures Times(a, p, d) == Times(b, p, d)
  {
    if a == [] {
      assert |multiset(b)| == 0;
    } else {
      var n := |a| - 1;
      assert a[n] in multiset(b);
      var i :| 0 <= i < |b| && b[i] == a[n];
      RestOfBag(a, b, i);
      TimesOfBag(a[..n], Without(b, i), p, d);
      TimesTake(b, p, d, i);
    }
  }

  lemma RestOfBag(a: seq<Sample>, b: seq<Sample>, i: nat)
    requires multiset(a) == multiset(b) && a != [] && i < |b| && b[i] == a[|a| - 1]
    ensures multiset(a[..|a| - 1]) == multiset(Without(b, i))
  {
    var n := |a| - 1;
    assert a == a[..n] + [a[n]];
    assert b == b[..i] + [a[n]] + b[i + 1..];
    assert multiset(a[..n]) == multiset(a) - multiset{a[n]};
    assert multiset(Without(b, i)) == multiset(b) - multiset{a[n]};
  }

  /** The durations chosen from two orders of one bag are two orders of one bag. */
  lemma ChosenOfBag(a: seq<Sample>, b: seq<Sample>, p: Sample -> bool)
    requires multiset(a) == multiset(b)
    ensures multiset(Chosen(a, p)) == multiset(Chosen(b, p))
    ensures |Chosen(a, p)| == |Chosen(b, p)|
  {
    forall d ensures multiset(Chosen(a, p))[d] == multiset(Chosen(b, p))[d] {
      ChosenTimes(a, p, d);
      ChosenTimes(b, p, d);
      TimesOfBag(a, b, p, d);
    }
    assert multiset(Chosen(a, p)) == multiset(Chosen(b, p));
    assert |multiset(Chosen(a, p))| == |Chosen(a, p)| && |multiset(Chosen(b, p))| == |Chosen(b, p)|;
  }

  /** A test that every chosen sample passes, and one more, chooses more. */
  lemma {:induction false} ChosenMore(hist: seq<Sample>, p: Sample -> bool, q: Sample -> bool)
    requires forall s :: s in hist && p(s) ==> q(s)
    ensures |Chosen(hist, p)| <= |Chosen(hist, q)|
    ensures (exists s :: s in hist && q(s) && !p(s)) ==> |Chosen(hist, p)| < |Chosen(hist, q)|
  {
    if hist != [] {
      var n := |hist| - 1;
      ChosenMore(hist[..n], p, q);
      assert forall s :: s in hist ==> s in hist[..n] || s == hist[n];
    }
  }

  ghost predicate DecidedBy(spans: seq<string>, hist: seq<Sample>, k: string, p: Sample -> bool) {
    forall i :: 0 <= i < |hist| ==> (p(hist[i]) <==> AcceptedAt(spans, hist, i) && hist[i].Touches(k))
  }

  /** If a test on the sample alone decides what reaches k, the learner of k holds just the chosen samples. */
  lemma {:induction false} ContributionsChosen(spans: seq<string>, hist: seq<Sample>, k: string, p: Sample -> bool)
    requires DecidedBy(spans, hist, k, p)
    ensures Contributions(spans, hist, k) == Chosen(hist, p)
  {
    if hist != [] {
      var n := |hist| - 1;
      var h := hist[..n];
      forall i | 0 <= i < n ensures AcceptedAt(spans, h, i) == AcceptedAt(spans, hist, i) {
        assert h[..i] == hist[..i];
      }
      ContributionsChosen(spans, h, k, p);
      assert p(hist[n]) <==> AcceptedAt(spans, hist, n) && hist[n].Touches(k);
    }
  }

  // ---- Without a clash the order is irrelevant ----

  lemma MentionedIff(spans: seq<string>, hist: seq<Sample>, k: string)
    ensures Mentioned(spans, hist, k) <==> k in spans || exists s :: s in hist && s.Touches(k)
  {
    if !Mentioned(spans, hist, k) {
      Unmentioned(spans, hist, k);
    } else if k !in spans && PlainFirst(spans, hist, k) {
      var i :| NamesFirst(hist, i, k);
      assert hist[i] in hist && hist[i].Touches(k);
    } else if k !in spans {
      var i :| FormsFirst(hist, i, k);
      assert hist[i] in hist && hist[i].Touches(k);
    }
  }

  /** A key that nobody uses as a name is never taken by a plain learner. */
  lemma UnnamedIsFree(spans: seq<string>, hist: seq<Sample>, i: nat, k: string)
    requires i <= |hist|
    requires k !in spans && forall s :: s in hist ==> s.name != k
    ensures !PlainFirst(spans, hist[..i], k)
  {
  }

  lemma ConsistentDecides(spans: seq<string>, hist: seq<Sample>, k: string)
    requires Consistent(spans, hist)
    ensures DecidedBy(spans, hist, k, KeptAndTouching(spans, k))
  {
    forall i | 0 <= i < |hist| ensures AcceptedAt(spans, hist, i) <==> KeptAlways(spans, hist[i]) {
      var t := hist[i];
      if t.variant != "" && t.Key() !in spans {
        forall s | s in hist ensures s.name != t.Key() {
          assert !Clash(spans, s, t);
        }
        UnnamedIsFree(spans, hist, i, t.Key());
      }
    }
  }

  lemma SameAt(spans: seq<string>, a: seq<Sample>, b: seq<Sample>, k: string)
    requires Consistent(spans, a) && multiset(a) == multiset(b)
    ensures k in After(spans, a).learners <==> k in After(spans, b).learners
    ensures SameFigures(StatsAt(After(spans, a), k), StatsAt(After(spans, b), k))
  {
    assert forall s :: s in a <==> s in multiset(a);
    assert forall s :: s in b <==> s in multiset(b);
    var p := KeptAndTouching(spans, k);
    ConsistentDecides(spans, a, k);
    ConsistentDecides(spans, b, k);
    ContributionsChosen(spans, a, k, p);
    ContributionsChosen(spans, b, k, p);
    ChosenOfBag(a, b, p);
    OrderIrrelevant(Chosen(a, p), Chosen(b, p));
    StatsAfter(spans, a, k);
    StatsAfter(spans, b, k);
    KindsAfter(spans, a, k);
    KindsAfter(spans, b, k);
    MentionedIff(spans, a, k);
    MentionedIff(spans, b, k);
  }

  lemma ConsistentIsConfluent(spans: seq<string>, hist: seq<Sample>)
    requires Consistent(spans, hist)
    ensures Confluent(spans, hist)
  {
    forall h | multiset(h) == multiset(hist) ensures SameSummary(After(spans, hist), After(spans, h)) {
      forall k ensures k in After(spans, hist).learners <==> k in After(spans, h).learners
               ensures SameFigures(StatsAt(After(spans, hist), k), StatsAt(After(spans, h), k)) {
        SameAt(spans, hist, h, k);
      }
    }
  }

  // ---- A clash always shows ----

  ghost predicate ClashesOn(spans: seq<string>, hist: seq<Sample>, k: string) {
    exists s, t :: s in hist && t in hist && s.name == k && Clash(spans, s, t)
  }

  function TotalNames(hist: seq<Sample>): nat {
    if hist == [] then 0 else TotalNames(hist[..|hist| - 1]) + |hist[|hist| - 1].name|
  }

  lemma {:induction false} NameInTotal(hist: seq<Sample>, s: Sample)
    requires s in hist
    ensures |s.name| <= TotalNames(hist)
  {
    var n := |hist| - 1;
    if s != hist[n] {
      NameInTotal(hist[..n], s);
    }
  }

  ghost predicate LongestClash(spans: seq<string>, hist: seq<Sample>, k: string) {
    ClashesOn(spans, hist, k) && forall l :: ClashesOn(spans, hist, l) ==> |l| <= |k|
  }

  lemma {:induction false} FindLongestClash(spans: seq<string>, hist: seq<Sample>, k: string) returns (l: string)
    requires ClashesOn(spans, hist, k)
    ensures LongestClash(spans, hist, l)
    decreases TotalNames(hist) - |k|
  {
    l := k;
    if !LongestClash(spans, hist, k) {
      var m :| ClashesOn(spans, hist, m) && |m| > |k|;
      var s, t :| s in hist && t in hist && s.name == m && Clash(spans, s, t);
      NameInTotal(hist, s);
      l := FindLongestClash(spans, hist, m);
    }
  }

  function Only(hist: seq<Sample>, p: Sample -> bool): seq<Sample> {
    if hist == [] then []
    else
      var n := |hist| - 1;
      Only(hist[..n], p) + if p(hist[n]) then [hist[n]] else []
  }

  lemma {:induction false} OnlyHas(hist: seq<Sample>, p: Sample -> bool, s: Sample)
    ensures s in Only(hist, p) <==> s in hist && p(s)
  {
    if hist != [] {
      OnlyHas(hist[..|hist| - 1], p, s);
    }
  }

  lemma OnlyStep(hist: seq<Sample>, p: Sample -> bool)
    requires hist != []
    ensures var n := |hist| - 1;
            multiset(Only(hist, p)) ==
            multiset(Only(hist[..n], p)) + if p(hist[n]) then multiset{hist[n]} else multiset{}
  {
  }

  lemma {:induction false} OnlySplits(hist: seq<Sample>, p: Sample -> bool, q: Sample -> bool)
    requires forall s :: q(s) == !p(s)
    ensures multiset(Only(hist, p)) + multiset(Only(hist, q)) == multiset(hist)
  {
    if hist != [] {
      var n := |hist| - 1;
      OnlySplits(hist[..n], p, q);
      OnlyStep(hist, p);
      OnlyStep(hist, q);
      BagStep(hist);
    }
  }

  lemma BagStep(hist: seq<Sample>)
    requires hist != []
    ensures multiset(hist) == multiset(hist[..|hist| - 1]) + multiset{hist[|hist| - 1]}
  {
    assert hist == hist[..|hist| - 1] + [hist[|hist| - 1]];
  }

  function Forms(k: string): Sample -> bool { (s: Sample) => s.MentionsAsVariant(k) }

  function FormsNot(k: string): Sample -> bool { (s: Sample) => !s.MentionsAsVariant(k) }

  function Namers(spans: seq<string>, k: string): Sample -> bool {
    (s: Sample) => s.name == k && KeptAlways(spans, s)
  }

  function FormersAndNamers(spans: seq<string>, k: string): Sample -> bool {
    (s: Sample) => s.MentionsAsVariant(k) || (s.name == k && KeptAlways(spans, s))
  }

  /** All variants of k first: each of them is accepted, because k is not a name yet. */
  function FormersFirst(hist: seq<Sample>, k: string): seq<Sample> {
    Only(hist, Forms(k)) + Only(hist, FormsNot(k))
  }

  /** A sample named k first: every variant that forms k is dropped from then on. */
  function NamerFirst(hist: seq<Sample>, i: nat): seq<Sample>
    requires i < |hist|
  {
    [hist[i]] + hist[..i] + hist[i + 1..]
  }

  /** A sample named by the longest clashing key is accepted or dropped whatever the order. */
  lemma NamersSettled(spans: seq<string>, hist: seq<Sample>, h: seq<Sample>, k: string, i: nat)
    requires LongestClash(spans, hist, k) && multiset(h) == multiset(hist)
    requires i < |h| && h[i].name == k
    ensures AcceptedAt(spans, h, i) <==> KeptAlways(spans, h[i])
  {
    var t := h[i];
    assert t in multiset(h) && t in hist;
    if t.variant != "" && t.Key() !in spans {
      forall s | s in h ensures s.name != t.Key() {
        assert s in multiset(h) && s in hist;
        if s.name == t.Key() {
          assert Clash(spans, s, t);
          assert ClashesOn(spans, hist, t.Key());
        }
      }
      UnnamedIsFree(spans, h, i, t.Key());
    }
  }

  lemma FormersFirstDecides(spans: seq<string>, hist: seq<Sample>, k: string)
    requires LongestClash(spans, hist, k)
    ensures var h := FormersFirst(hist, k);
            && multiset(h) == multiset(hist)
            && DecidedBy(spans, h, k, FormersAndNamers(spans, k))
  {
    OnlySplits(hist, Forms(k), FormsNot(k));
    var h, formers := FormersFirst(hist, k), Only(hist, Forms(k));
    var t :| t in hist && Forms(k)(t);
    OnlyHas(hist, Forms(k), t);
    OnlyHas(hist, Forms(k), formers[0]);
    assert h[0] == formers[0] && h[0] in formers;
    forall i | 0 <= i < |h|
      ensures h[i].MentionsAsVariant(k) || (h[i].name == k && KeptAlways(spans, h[i])) <==>
              AcceptedAt(spans, h, i) && h[i].Touches(k)
    {
      if h[i].MentionsAsVariant(k) {
        assert forall j :: !NamesFirst(h[..i], j, k) by {
          assert i > 0 ==> h[..i][0] == h[0];
        }
      } else if h[i].name == k {
        NamersSettled(spans, hist, h, k, i);
      }
    }
  }

  lemma NamerFirstDecides(spans: seq<string>, hist: seq<Sample>, k: string, n: nat)
    requires LongestClash(spans, hist, k)
    requires n < |hist| && hist[n].name == k
    ensures var h := NamerFirst(hist, n);
            && multiset(h) == multiset(hist)
            && DecidedBy(spans, h, k, Namers(spans, k))
  {
    var h := NamerFirst(hist, n);
    assert hist == hist[..n] + [hist[n]] + hist[n + 1..];
    assert multiset(h) == multiset(hist);
    assert h[0] == hist[n];
    forall i | 0 <= i < |h|
      ensures (h[i].name == k && KeptAlways(spans, h[i])) <==> AcceptedAt(spans, h, i) && h[i].Touches(k)
    {
      if h[i].name == k {
        NamersSettled(spans, hist, h, k, i);
      } else if h[i].MentionsAsVariant(k) {
        assert h[..i][0] == h[0];
        assert NamesFirst(h[..i], 0, k);
      }
    }
  }

  /** Two orders of a bag with a clash leave different weights at the longest clashing key. */
  lemma ClashShows(spans: seq<string>, hist: seq<Sample>) returns (k: string, a: seq<Sample>, b: seq<Sample>)
    requires !Consistent(spans, hist)
    ensures LongestClash(spans, hist, k) && multiset(a) == multiset(b) == multiset(hist)
    ensures StatsAt(After(spans, a), k).weight > StatsAt(After(spans, b), k).weight
  {
    var s0, t0 :| s0 in hist && t0 in hist && Clash(spans, s0, t0);
    assert ClashesOn(spans, hist, s0.name);
    k := FindLongestClash(spans, hist, s0.name);
    var s, t :| s in hist && t in hist && s.name == k && Clash(spans, s, t);
    var n :| 0 <= n < |hist| && hist[n] == s;
    a, b := FormersFirst(hist, k), NamerFirst(hist, n);
    FormersFirstDecides(spans, hist, k);
    NamerFirstDecides(spans, hist, k, n);
    var p, q := FormersAndNamers(spans, k), Namers(spans, k);
    assert p(t) && !q(t);
    WeightChosen(spans, hist, a, k, p);
    WeightChosen(spans, hist, b, k, q);
    ChosenMore(hist, q, p);
  }

  /** So no summary can agree with both. */
  lemma ClashIsNotConfluent(spans: seq<string>, hist: seq<Sample>)
    requires !Consistent(spans, hist)
    ensures !Confluent(spans, hist)
  {
    var k, a, b := ClashShows(spans, hist);
    KindsAfter(spans, hist, k);
    MentionedIff(spans, hist, k);
    assert !(SameSummary(After(spans, hist), After(spans, a)) && SameSummary(After(spans, hist), After(spans, b)));
  }

  lemma WeightChosen(spans: seq<string>, hist: seq<Sample>, h: seq<Sample>, k: string, p: Sample -> bool)
    requires multiset(h) == multiset(hist) && DecidedBy(spans, h, k, p)
    ensures StatsAt(After(spans, h), k).weight == |Chosen(hist, p)|
  {
    ContributionsChosen(spans, h, k, p);
    ChosenOfBag(h, hist, p);
    StatsAfter(spans, h, k);
    StatsMeaning(Contributions(spans, h, k));
  }

  /** Handling order is irrelevant to every figure but `last` exactly for the bags of samples without a clash. */
  lemma ConfluenceExact(spans: seq<string>, hist: seq<Sample>)
    ensures Confluent(spans, hist) <==> Consistent(spans, hist)
  {
    if Consistent(spans, hist) {
      ConsistentIsConfluent(spans, hist);
    } else {
      ClashIsNotConfluent(spans, hist);
    }
  }

  // ---- The naming discipline that rules clashes out ----

  /** An application's sample, or a plain sample of a span with the reserved prefix. */
  predicate WellNamed(s: Sample) {
    AppName(s.name) || (s.variant == "" && "LL." <= s.name)
  }

  predicate WellNamedSpans(spans: seq<string>) {
    forall k :: k in spans ==> AppName(k) || "LL." <= k
  }

  lemma WellNamedIsConsistent(spans: seq<string>, hist: seq<Sample>)
    requires WellNamedSpans(spans)
    requires forall s :: s in hist ==> WellNamed(s)
    ensures Consistent(spans, hist)
    ensures forall s :: s in hist ==> KeptAlways(spans, s)
  {
    forall t | t in hist && t.variant != ""
      ensures t.Key() !in spans
      ensures forall s :: s in hist ==> s.name != t.Key()
    {
      AppVariantKey(t.name, t.variant);
    }
  }

  /** Under the naming discipline no sample is ever dropped. */
  lemma NothingDropped(spans: seq<string>, hist: seq<Sample>, i: nat)
    requires WellNamedSpans(spans)
    requires forall s :: s in hist ==> WellNamed(s)
    requires i < |hist|
    ensures After(spans, hist[..i]).Accepts(hist[i])
  {
    WellNamedIsConsistent(spans, hist);
    AcceptsIsAcceptedAt(spans, hist, i);
    if hist[i].variant != "" {
      assert KeptAlways(spans, hist[i]) by {
        assert hist[i] in hist;
      }
      forall s | s in hist ensures s.name != hist[i].Key() {
        assert !Clash(spans, s, hist[i]);
      }
      UnnamedIsFree(spans, hist, i, hist[i].Key());
    }
  }

  /** With span names free of '(' and of the reserved prefix, handling order is irrelevant. */
  lemma AppSamplesConfluent(app: seq<string>, hist: seq<Sample>)
    requires forall k :: k in app ==> AppName(k)
    requires forall s :: s in hist ==> WellNamed(s)
    ensures Confluent(app + BuiltinSpans(), hist)
  {
    BuiltinsFacts();
    WellNamedIsConsistent(app + BuiltinSpans(), hist);
    ConfluenceExact(app + BuiltinSpans(), hist);
  }

  // ---- The server's own samples aside ----

  function NotBuiltin(): Sample -> bool { (s: Sample) => !BuiltinSample(s) }

  lemma {:induction false} ChosenOfOnly(hist: seq<Sample>, p: Sample -> bool, q: Sample -> bool)
    requires forall s :: p(s) ==> q(s)
    ensures Chosen(Only(hist, q), p) == Chosen(hist, p)
  {
    if hist != [] {
      var n := |hist| - 1;
      ChosenOfOnly(hist[..n], p, q);
      if q(hist[n]) {
        ChosenSnoc(Only(hist[..n], q), hist[n], p);
      } else {
        assert !p(hist[n]) && Only(hist, q) == Only(hist[..n], q);
      }
    }
  }

  lemma ChosenSnoc(hist: seq<Sample>, s: Sample, p: Sample -> bool)
    ensures Chosen(hist + [s], p) == Chosen(hist, p) + if p(s) then [s.dur] else []
  {
  }

  /** Under the naming rule, what a span other than the built-in ones holds depends on the bag of the other samples. */
  lemma BuiltinsAside(app: seq<string>, a: seq<Sample>, b: seq<Sample>, k: string)
    requires forall x :: x in app ==> AppName(x)
    requires (forall s :: s in a ==> WellNamed(s)) && forall s :: s in b ==> WellNamed(s)
    requires multiset(Only(a, NotBuiltin())) == multiset(Only(b, NotBuiltin()))
    ensures var s, t := After(app + BuiltinSpans(), a), After(app + BuiltinSpans(), b);
            && (k in s.learners <==> k in t.learners)
            && (k !in BuiltinSpans() ==> SameFigures(StatsAt(s, k), StatsAt(t, k)))
  {
    var spans := app + BuiltinSpans();
    KeysAside(spans, a, b, k);
    if k !in BuiltinSpans() {
      var p := KeptAndTouching(spans, k);
      ChosenAside(app, a, k);
      ChosenAside(app, b, k);
      ChosenOfOnly(a, p, NotBuiltin());
      ChosenOfOnly(b, p, NotBuiltin());
      ChosenOfBag(Only(a, NotBuiltin()), Only(b, NotBuiltin()), p);
      OrderIrrelevant(Chosen(a, p), Chosen(b, p));
    }
  }

  /** The learner of any key holds what the sample alone decides. */
  lemma ChosenAside(app: seq<string>, hist: seq<Sample>, k: string)
    requires forall x :: x in app ==> AppName(x)
    requires forall s :: s in hist ==> WellNamed(s)
    ensures var spans := app + BuiltinSpans();
            StatsAt(After(spans, hist), k) == StatsOf(Chosen(hist, KeptAndTouching(spans, k)))
  {
    var spans := app + BuiltinSpans();
    BuiltinsFacts();
    WellNamedIsConsistent(spans, hist);
    ConsistentDecides(spans, hist, k);
    ContributionsChosen(spans, hist, k, KeptAndTouching(spans, k));
    StatsAfter(spans, hist, k);
  }

  lemma KeysAside(spans: seq<string>, a: seq<Sample>, b: seq<Sample>, k: string)
    requires forall x :: x in BuiltinSpans() ==> x in spans
    requires multiset(Only(a, NotBuiltin())) == multiset(Only(b, NotBuiltin()))
    ensures k in After(spans, a).learners <==> k in After(spans, b).learners
  {
    KindsAfter(spans, a, k);
    KindsAfter(spans, b, k);
    MentionedIff(spans, a, k);
    MentionedIff(spans, b, k);
    if k !in spans {
      forall s: Sample | s.Touches(k) ensures s in a <==> s in b {
        OnlyHas(a, NotBuiltin(), s);
        OnlyHas(b, NotBuiltin(), s);
        assert s in Only(a, NotBuiltin()) <==> s in multiset(Only(a, NotBuiltin()));
        assert s in Only(b, NotBuiltin()) <==> s in multiset(Only(b, NotBuiltin()));
      }
    }
  }

  /** After Init2(app), a plain sample and a variant that forms its name: their order decides whether the variant is
      counted, unless the key is on the list already. */
  lemma OrderCanMatter(app: seq<string>, p: Sample, v: Sample)
    requires v.variant != "" && p.variant == "" && p.name == v.Key() && p.name !in app + BuiltinSpans()
    ensures var spans := app + BuiltinSpans();
            && StatsAt(After(spans, [p, v]), v.name).weight == 0
            && StatsAt(After(spans, [v, p]), v.name).weight == 1
  {
    var spans := app + BuiltinSpans();
    assert [p, v][..1] == [p] && [v, p][..1] == [v];
    OneSample(spans, p);
    OneSample(spans, v);
    HandleAt(After(spans, [p]), v, v.name);
    HandleAt(After(spans, [v]), p, v.name);
  }

  lemma OneSample(spans: seq<string>, s: Sample)
    requires s.variant != "" ==> s.Key() !in spans
    ensures var st := After(spans, [s]);
            && st == InitState(spans).Handle(s)
            && s.name in st.learners && (s.variant == "" ==> st.learners[s.name].kind == Plain)
            && forall k :: StatsAt(st, k) == if s.Touches(k) then After2(FRESH, s.dur) else FRESH
  {
    assert [s][..0] == [];
    forall k ensures StatsAt(After(spans, [s]), k) == if s.Touches(k) then After2(FRESH, s.dur) else FRESH {
      HandleAt(InitState(spans), s, k);
    }
  }
}
