/** Span families: what a parent's row says about the rows of its variants. */
module Families {
  import opened Int64
  import opened Options
  import opened SpanKeys
  import opened Stats
  import opened Aggregate
  import opened Builtins
  import opened TrackedSpans
  import opened Confluence

  /** The keys whose entry is a variant that points to the learner of n. */
  function Members(st: State, keys: seq<string>, n: string): (r: seq<string>)
    ensures forall k :: k in r <==> k in keys && IsMember(st, k, n)
  {
    if keys == [] then []
    else
      var m := |keys| - 1;
      assert forall k :: k in keys <==> k in keys[..m] || k == keys[m];
      Members(st, keys[..m], n) + if IsMember(st, keys[m], n) then [keys[m]] else []
  }

  predicate IsMember(st: State, k: string, n: string) {
    ParentAt(st, k) == Some(n)
  }

  /** The name of the learner that the entry of k points to, if that is a variant. */
  function ParentAt(st: State, k: string): Option<string> {
    if k in st.learners && st.learners[k].kind == Variant then st.learners[k].parent else None
  }

  function Family(st: State, n: string): seq<string> {
    Members(st, st.tracked, n)
  }

  function TotalWeight(st: State, keys: seq<string>): nat {
    if keys == [] then 0 else TotalWeight(st, keys[..|keys| - 1]) + StatsAt(st, keys[|keys| - 1]).weight
  }

  function TotalCumul(st: State, keys: seq<string>): int {
    if keys == [] then 0 else TotalCumul(st, keys[..|keys| - 1]) + StatsAt(st, keys[|keys| - 1]).cumul
  }

  /** The samples that ended a span on its default path. */
  function DefaultSamples(hist: seq<Sample>, n: string): seq<int64> {
    Chosen(hist, Defaults(n))
  }

  function Defaults(n: string): Sample -> bool { (s: Sample) => s.name == n && s.variant == "" }

  /** A parent's weight and sum are those of its default path plus those of its variants, and its extremes are the
      extremes of the same parts. */
  ghost predicate Conserved(st: State, hist: seq<Sample>, n: string) {
    SumsConserved(st, hist, n) && ExtremesConserved(st, hist, n)
  }

  ghost predicate SumsConserved(st: State, hist: seq<Sample>, n: string) {
    var parent, own, keys := StatsAt(st, n), DefaultSamples(hist, n), Family(st, n);
    && parent.weight == |own| + TotalWeight(st, keys)
    && parent.cumul == Wrap(Sum(own) + TotalCumul(st, keys))
  }

  ghost predicate ExtremesConserved(st: State, hist: seq<Sample>, n: string) {
    var parent, own, keys := StatsAt(st, n), DefaultSamples(hist, n), Family(st, n);
    && (forall i :: 0 <= i < |own| ==> parent.min <= own[i] <= parent.max)
    && (forall k :: k in keys ==> parent.min <= StatsAt(st, k).min && StatsAt(st, k).max <= parent.max)
    && (parent.everCompleted ==>
      && (parent.min in own || exists k :: k in keys && StatsAt(st, k).min == parent.min)
      && (parent.max in own || exists k :: k in keys && StatsAt(st, k).max == parent.max))
  }

  // ---- Where the parent of an entry comes from ----

  /** Sample i is accepted and feeds the learner of k. */
  ghost predicate Feeds(spans: seq<string>, hist: seq<Sample>, i: int, k: string) {
    0 <= i < |hist| && AcceptedAt(spans, hist, i) && hist[i].Touches(k)
  }

  /** Sample i is accepted and forms k as the key of a variant. */
  ghost predicate FormsAt(spans: seq<string>, hist: seq<Sample>, i: int, k: string) {
    0 <= i < |hist| && AcceptedAt(spans, hist, i) && hist[i].MentionsAsVariant(k)
  }

  ghost predicate LastForms(spans: seq<string>, hist: seq<Sample>, i: int, k: string) {
    FormsAt(spans, hist, i, k) && forall j :: i < j ==> !FormsAt(spans, hist, j, k)
  }

  ghost predicate FirstForms(spans: seq<string>, hist: seq<Sample>, i: int, k: string) {
    FormsAt(spans, hist, i, k) && forall j :: j < i ==> !FormsAt(spans, hist, j, k)
  }

  lemma AcceptedInPrefix(spans: seq<string>, hist: seq<Sample>, m: nat, i: nat)
    requires i < m <= |hist|
    ensures AcceptedAt(spans, hist[..m], i) == AcceptedAt(spans, hist, i) && hist[..m][i] == hist[i]
  {
    assert hist[..m][..i] == hist[..i];
  }

  lemma FormsInPrefix(spans: seq<string>, hist: seq<Sample>, m: nat, k: string)
    requires m <= |hist|
    ensures forall i :: i < m ==> FormsAt(spans, hist[..m], i, k) == FormsAt(spans, hist, i, k)
  {
    forall i | 0 <= i < m ensures FormsAt(spans, hist[..m], i, k) == FormsAt(spans, hist, i, k) {
      AcceptedInPrefix(spans, hist, m, i);
    }
  }

  lemma ParentStep(st: State, s: Sample, k: string)
    ensures ParentAt(st.Handle(s), k) ==
            if s.MentionsAsVariant(k) && st.Accepts(s) then Some(s.name) else ParentAt(st, k)
  {
  }

  /** In every history, the parent of a variant is the name of the last accepted sample that formed its key. */
  lemma {:induction false} ParentAfter(spans: seq<string>, hist: seq<Sample>, k: string)
    ensures var p := ParentAt(After(spans, hist), k);
            if p.None? then forall i :: !FormsAt(spans, hist, i, k)
            else exists i :: LastForms(spans, hist, i, k) && hist[i].name == p.value
  {
    if hist != [] {
      var n := |hist| - 1;
      var st := After(spans, hist[..n]);
      ParentAfter(spans, hist[..n], k);
      FormsInPrefix(spans, hist, n, k);
      AcceptsIsAcceptedAt(spans, hist, n);
      ParentStep(st, hist[n], k);
      if FormsAt(spans, hist, n, k) {
        assert LastForms(spans, hist, n, k);
      } else if ParentAt(st, k).Some? {
        var i :| LastForms(spans, hist[..n], i, k) && hist[..n][i].name == ParentAt(st, k).value;
        assert LastForms(spans, hist, i, k);
      }
    }
  }

  /** The family of n is the set of keys whose last accepted former is named n. */
  lemma FamilyExplained(spans: seq<string>, hist: seq<Sample>, n: string, k: string)
    ensures k in Family(After(spans, hist), n) <==> exists i :: LastForms(spans, hist, i, k) && hist[i].name == n
  {
    var st := After(spans, hist);
    ParentAfter(spans, hist, k);
    IndexAfter(spans, hist);
    if exists i :: LastForms(spans, hist, i, k) && hist[i].name == n {
      var i :| LastForms(spans, hist, i, k) && hist[i].name == n;
      assert forall j :: LastForms(spans, hist, j, k) ==> j == i;
    }
  }

  ghost predicate Precedes(tracked: seq<string>, p: string, k: string) {
    exists i, j :: 0 <= i < j < |tracked| && tracked[i] == p && tracked[j] == k
  }

  lemma StillPrecedes(tracked: seq<string>, longer: seq<string>, p: string, k: string)
    requires Precedes(tracked, p, k) && tracked <= longer
    ensures Precedes(longer, p, k)
  {
  }

  /** A new variant key goes to the end of the index, behind its parent. */
  lemma NewVariantLast(st: State, s: Sample)
    requires IndexAgrees(st) && s.variant != "" && s.Key() !in st.learners
    ensures Precedes(st.Handle(s).tracked, s.name, s.Key())
  {
    var withName, t := st.Ensure(s.name, Plain).tracked, st.Handle(s).tracked;
    assert s.name != s.Key() && t == withName + [s.Key()];
    assert s.name in withName by {
      assert s.name !in st.learners ==> withName[|withName| - 1] == s.name;
    }
    var i :| 0 <= i < |withName| && withName[i] == s.name;
    assert t[i] == s.name && t[|withName|] == s.Key();
  }

  /** In the index, and so in a report, a variant comes after the span that first formed its key. */
  lemma FormersPrecede(spans: seq<string>, hist: seq<Sample>, i: nat, k: string)
    requires FirstForms(spans, hist, i, k)
    ensures Precedes(After(spans, hist).tracked, hist[i].name, k)
  {
    var st := After(spans, hist[..i]);
    if k in st.learners {
      EarlierFormer(spans, hist, i, k);
    } else {
      IndexAfter(spans, hist[..i]);
      NewVariantLast(st, hist[i]);
      assert hist[..i + 1][..i] == hist[..i];
      IndexOnlyGrows(spans, hist, i + 1);
      StillPrecedes(st.Handle(hist[i]).tracked, After(spans, hist).tracked, hist[i].name, k);
    }
  }

  lemma EarlierFormer(spans: seq<string>, hist: seq<Sample>, i: nat, k: string)
    requires FormsAt(spans, hist, i, k) && k in After(spans, hist[..i]).learners
    ensures exists j :: j < i && FormsAt(spans, hist, j, k)
  {
    KindsAfter(spans, hist[..i], k);
    var j :| FormsFirst(hist[..i], j, k);
    FirstMeansAccepted(spans, hist[..i], j, k);
    FormsInPrefix(spans, hist, i, k);
    assert FormsAt(spans, hist[..i], j, k);
  }

  lemma {:induction false} FirstFormer(spans: seq<string>, hist: seq<Sample>, i: nat, k: string) returns (j: nat)
    requires FormsAt(spans, hist, i, k)
    ensures FirstForms(spans, hist, j, k)
  {
    j := i;
    if exists l :: l < i && FormsAt(spans, hist, l, k) {
      var l :| l < i && FormsAt(spans, hist, l, k);
      j := FirstFormer(spans, hist, l, k);
    }
  }

  lemma FirstMeansAccepted(spans: seq<string>, hist: seq<Sample>, j: nat, k: string)
    requires k !in spans && FormsFirst(hist, j, k)
    ensures AcceptedAt(spans, hist, j)
  {
  }

  // ---- When is a family conserved? ----

  /** Sample i is accepted, and a variant of n. */
  ghost predicate VariantAt(spans: seq<string>, hist: seq<Sample>, i: int, n: string) {
    0 <= i < |hist| && AcceptedAt(spans, hist, i) && hist[i].name == n && hist[i].variant != ""
  }

  /** No stranger feeds n or a key of its variants. */
  ghost predicate Apart(spans: seq<string>, hist: seq<Sample>, n: string) {
    && (forall j :: Feeds(spans, hist, j, n) ==> hist[j].name == n)
    && forall i, j :: VariantAt(spans, hist, i, n) && Feeds(spans, hist, j, hist[i].Key()) ==> hist[j].name == n
  }

  /** Such a parent comes before all of its family. */
  lemma ParentsPrecede(spans: seq<string>, hist: seq<Sample>, n: string, k: string)
    requires Apart(spans, hist, n) && k in Family(After(spans, hist), n)
    ensures Precedes(After(spans, hist).tracked, n, k)
  {
    FamilyExplained(spans, hist, n, k);
    var i :| LastForms(spans, hist, i, k) && hist[i].name == n;
    var j := FirstFormer(spans, hist, i, k);
    assert VariantAt(spans, hist, i, n) && Feeds(spans, hist, j, k);
    FormersPrecede(spans, hist, j, k);
  }

  function One(b: bool): nat { if b then 1 else 0 }

  /** How many learners with the given keys an accepted sample feeds. */
  function KeyShare(s: Sample, keys: seq<string>): nat {
    One(s.name in keys) + One(s.variant != "" && s.Key() in keys)
  }

  /** Sample i, if accepted, counts for n as often as for the default path and the learners of keys together. */
  ghost predicate BalancedWith(spans: seq<string>, hist: seq<Sample>, i: nat, n: string, keys: seq<string>)
    requires i < |hist|
  {
    AcceptedAt(spans, hist, i) ==>
      One(hist[i].Touches(n)) == One(Defaults(n)(hist[i])) + KeyShare(hist[i], keys)
  }

  ghost predicate BalancedAt(spans: seq<string>, hist: seq<Sample>, i: nat, n: string)
    requires i < |hist|
  {
    BalancedWith(spans, hist, i, n, Family(After(spans, hist), n))
  }

  /** Every key of the family of n is longer than n. */
  lemma FamilyIsLonger(spans: seq<string>, hist: seq<Sample>, n: string, k: string)
    ensures k in Family(After(spans, hist), n) ==> |k| > |n|
  {
    FamilyExplained(spans, hist, n, k);
  }

  lemma ApartBalances(spans: seq<string>, hist: seq<Sample>, n: string, i: nat)
    requires Apart(spans, hist, n) && i < |hist|
    ensures BalancedAt(spans, hist, i, n)
  {
    if AcceptedAt(spans, hist, i) {
      var s, keys := hist[i], Family(After(spans, hist), n);
      assert Feeds(spans, hist, i, s.name);
      if s.name == n {
        FamilyIsLonger(spans, hist, n, n);
        if s.variant != "" {
          OwnKeyIsFamily(spans, hist, n, i);
        }
      } else {
        StrangersStayOut(spans, hist, n, i, s.name);
        if s.variant != "" {
          StrangersStayOut(spans, hist, n, i, s.Key());
        }
        assert !Feeds(spans, hist, i, n);
      }
    }
  }

  lemma OwnKeyIsFamily(spans: seq<string>, hist: seq<Sample>, n: string, i: nat)
    requires Apart(spans, hist, n) && VariantAt(spans, hist, i, n)
    ensures hist[i].Key() in Family(After(spans, hist), n)
  {
    var k := hist[i].Key();
    FamilyExplained(spans, hist, n, k);
    ParentAfter(spans, hist, k);
    assert FormsAt(spans, hist, i, k);
    var j :| LastForms(spans, hist, j, k);
    assert Feeds(spans, hist, j, k);
  }

  lemma StrangersStayOut(spans: seq<string>, hist: seq<Sample>, n: string, i: nat, k: string)
    requires Apart(spans, hist, n) && Feeds(spans, hist, i, k) && hist[i].name != n
    ensures k !in Family(After(spans, hist), n)
  {
    FamilyExplained(spans, hist, n, k);
    assert forall j :: LastForms(spans, hist, j, k) && hist[j].name == n ==> VariantAt(spans, hist, j, n);
  }

  lemma KeyIsLonger(s: Sample, k: string)
    ensures s.MentionsAsVariant(k) ==> |s.name| < |k|
  {
  }

  lemma BalanceMeansApart(spans: seq<string>, hist: seq<Sample>, n: string)
    requires forall i :: 0 <= i < |hist| ==> BalancedAt(spans, hist, i, n)
    ensures Apart(spans, hist, n)
  {
    FamilyIsLonger(spans, hist, n, n);
    forall j | Feeds(spans, hist, j, n) ensures hist[j].name == n {
      KeyIsLonger(hist[j], n);
      FamilyIsLonger(spans, hist, n, hist[j].name);
      assert BalancedAt(spans, hist, j, n);
    }
    forall i, j | VariantAt(spans, hist, i, n) && Feeds(spans, hist, j, hist[i].Key()) ensures hist[j].name == n {
      assert BalancedAt(spans, hist, i, n) && BalancedAt(spans, hist, j, n);
      assert hist[j].Touches(n) ==> Feeds(spans, hist, j, n);
    }
  }

  // ---- Counting, for any relation of samples to keys ----

  /** How many of the first m samples feed k and took d. */
  function Tally(fed: (nat, string) -> bool, hist: seq<Sample>, m: nat, k: string, d: int64): nat
    requires m <= |hist|
  {
    if m == 0 then 0 else Tally(fed, hist, m - 1, k, d) + One(fed(m - 1, k) && hist[m - 1].dur == d)
  }

  /** Their durations. */
  function Feeding(fed: (nat, string) -> bool, hist: seq<Sample>, m: nat, k: string): seq<int64>
    requires m <= |hist|
  {
    if m == 0 then [] else Feeding(fed, hist, m - 1, k) + if fed(m - 1, k) then [hist[m - 1].dur] else []
  }

  lemma {:induction false} FeedingTally(fed: (nat, string) -> bool, hist: seq<Sample>, m: nat, k: string, d: int64)
    requires m <= |hist|
    ensures multiset(Feeding(fed, hist, m, k))[d] == Tally(fed, hist, m, k, d)
  {
    if m > 0 {
      FeedingTally(fed, hist, m - 1, k, d);
    }
  }

  function TallyAll(fed: (nat, string) -> bool, hist: seq<Sample>, m: nat, keys: seq<string>, d: int64): nat
    requires m <= |hist|
  {
    if keys == [] then 0
    else TallyAll(fed, hist, m, keys[..|keys| - 1], d) + Tally(fed, hist, m, keys[|keys| - 1], d)
  }

  /** How many of the keys sample i feeds. */
  function KeyCount(fed: (nat, string) -> bool, i: nat, keys: seq<string>): nat {
    if keys == [] then 0 else KeyCount(fed, i, keys[..|keys| - 1]) + One(fed(i, keys[|keys| - 1]))
  }

  lemma {:induction false} TallyAllNothing(fed: (nat, string) -> bool, hist: seq<Sample>, keys: seq<string>, d: int64)
    ensures TallyAll(fed, hist, 0, keys, d) == 0
  {
    if keys != [] {
      TallyAllNothing(fed, hist, keys[..|keys| - 1], d);
    }
  }

  lemma {:induction false} TallyAllStep(
      fed: (nat, string) -> bool, hist: seq<Sample>, m: nat, keys: seq<string>, d: int64)
    requires m < |hist|
    ensures TallyAll(fed, hist, m + 1, keys, d) ==
            TallyAll(fed, hist, m, keys, d) + if hist[m].dur == d then KeyCount(fed, m, keys) else 0
  {
    if keys != [] {
      TallyAllStep(fed, hist, m, keys[..|keys| - 1], d);
    }
  }

  lemma TimesStep(hist: seq<Sample>, m: nat, p: Sample -> bool, d: int64)
    requires m < |hist|
    ensures Times(hist[..m + 1], p, d) == Times(hist[..m], p, d) + Hit(hist[m], p, d)
  {
    assert hist[..m + 1][..m] == hist[..m];
  }

  /** If every sample counts for n as often as for p and the keys together, so do the tallies. */
  lemma {:induction false} TalliesBalance(
      fed: (nat, string) -> bool, hist: seq<Sample>, p: Sample -> bool, n: string, keys: seq<string>, m: nat, d: int64)
    requires m <= |hist|
    requires forall i :: 0 <= i < |hist| ==> One(fed(i, n)) == One(p(hist[i])) + KeyCount(fed, i, keys)
    ensures Tally(fed, hist, m, n, d) == Times(hist[..m], p, d) + TallyAll(fed, hist, m, keys, d)
  {
    if m == 0 {
      TallyAllNothing(fed, hist, keys, d);
    } else {
      TalliesBalance(fed, hist, p, n, keys, m - 1, d);
      TallyAllStep(fed, hist, m - 1, keys, d);
      TimesStep(hist, m - 1, p, d);
    }
  }

  /** All durations that c gives to keys, one key after the other. */
  function Held(c: string -> seq<int64>, keys: seq<string>): seq<int64> {
    if keys == [] then [] else Held(c, keys[..|keys| - 1]) + c(keys[|keys| - 1])
  }

  lemma {:induction false} HeldTally(
      c: string -> seq<int64>, fed: (nat, string) -> bool, hist: seq<Sample>, keys: seq<string>, d: int64)
    requires forall k :: multiset(c(k))[d] == Tally(fed, hist, |hist|, k, d)
    ensures multiset(Held(c, keys))[d] == TallyAll(fed, hist, |hist|, keys, d)
  {
    if keys != [] {
      HeldTally(c, fed, hist, keys[..|keys| - 1], d);
    }
  }

  lemma {:induction false} HeldWhere(c: string -> seq<int64>, keys: seq<string>, d: int64)
    ensures d in Held(c, keys) <==> exists k :: k in keys && d in c(k)
  {
    if keys != [] {
      var m := |keys| - 1;
      HeldWhere(c, keys[..m], d);
      assert forall k :: k in keys <==> k in keys[..m] || k == keys[m];
    }
  }

  // ---- What the learners hold ----

  ghost function FedBy(spans: seq<string>, hist: seq<Sample>): (nat, string) -> bool {
    (i: nat, k: string) => Feeds(spans, hist, i, k)
  }

  ghost function Theirs(spans: seq<string>, hist: seq<Sample>): string -> seq<int64> {
    (k: string) => Contributions(spans, hist, k)
  }

  lemma OneMore(spans: seq<string>, hist: seq<Sample>, m: nat, k: string)
    requires m < |hist|
    ensures Contributions(spans, hist[..m + 1], k) ==
            Contributions(spans, hist[..m], k) + if Feeds(spans, hist, m, k) then [hist[m].dur] else []
  {
    assert hist[..m + 1][..m] == hist[..m];
    AcceptedInPrefix(spans, hist, m + 1, m);
  }

  /** The learner of k holds the durations of the samples that feed it, in order. */
  lemma {:induction false} TheirsAre(spans: seq<string>, hist: seq<Sample>, m: nat, k: string)
    requires m <= |hist|
    ensures Contributions(spans, hist[..m], k) == Feeding(FedBy(spans, hist), hist, m, k)
  {
    if m == 0 {
      assert hist[..0] == [];
    } else {
      TheirsAre(spans, hist, m - 1, k);
      OneMore(spans, hist, m - 1, k);
    }
  }

  lemma {:induction false} CountOf(spans: seq<string>, hist: seq<Sample>, i: nat, keys: seq<string>)
    requires i < |hist| && NoDuplicates(keys)
    ensures KeyCount(FedBy(spans, hist), i, keys) == if AcceptedAt(spans, hist, i) then KeyShare(hist[i], keys) else 0
  {
    if keys != [] {
      CountOf(spans, hist, i, keys[..|keys| - 1]);
      KeyShareStep(hist[i], keys);
    }
  }

  lemma KeyShareStep(s: Sample, keys: seq<string>)
    requires keys != [] && NoDuplicates(keys)
    ensures var l := |keys| - 1; KeyShare(s, keys) == KeyShare(s, keys[..l]) + One(s.Touches(keys[l]))
  {
  }

  lemma BagOfParts(all: seq<int64>, own: seq<int64>, held: seq<int64>)
    requires multiset(all) == multiset(own) + multiset(held)
    ensures |all| == |own| + |held| && Sum(all) == Sum(own) + Sum(held)
    ensures forall d :: d in all <==> d in own || d in held
  {
    assert multiset(own + held) == multiset(own) + multiset(held);
    SumOfBag(all, own + held);
    SumConcat(own, held);
    assert |all| == |multiset(all)| == |multiset(own + held)| == |own + held|;
    assert forall d :: d in all <==> d in multiset(all);
    assert forall d :: d in own + held <==> d in multiset(own + held);
  }

  /** What a parent holds, in numbers: the default path and the learners of keys. */
  ghost predicate PartsFit(c: string -> seq<int64>, own: seq<int64>, n: string, keys: seq<string>) {
    var held := Held(c, keys);
    && |c(n)| == |own| + |held| && Sum(c(n)) == Sum(own) + Sum(held)
    && forall d :: d in c(n) <==> d in own || d in held
  }

  /** The samples that a parent holds are those of its default path and those its family holds. */
  lemma PartsOfParent(spans: seq<string>, hist: seq<Sample>, n: string, keys: seq<string>)
    requires NoDuplicates(keys) && forall i :: 0 <= i < |hist| ==> BalancedWith(spans, hist, i, n, keys)
    ensures PartsFit(Theirs(spans, hist), DefaultSamples(hist, n), n, keys)
  {
    var c, fed, own := Theirs(spans, hist), FedBy(spans, hist), DefaultSamples(hist, n);
    forall i | 0 <= i < |hist| ensures One(fed(i, n)) == One(Defaults(n)(hist[i])) + KeyCount(fed, i, keys) {
      assert BalancedWith(spans, hist, i, n, keys);
      CountOf(spans, hist, i, keys);
    }
    forall d ensures multiset(c(n))[d] == multiset(own)[d] + multiset(Held(c, keys))[d] {
      assert hist[..|hist|] == hist;
      forall k ensures multiset(c(k))[d] == Tally(fed, hist, |hist|, k, d) {
        TheirsAre(spans, hist, |hist|, k);
        FeedingTally(fed, hist, |hist|, k, d);
      }
      TalliesBalance(fed, hist, Defaults(n), n, keys, |hist|, d);
      HeldTally(c, fed, hist, keys, d);
      ChosenTimes(hist, Defaults(n), d);
    }
    assert multiset(c(n)) == multiset(own) + multiset(Held(c, keys));
    BagOfParts(c(n), own, Held(c, keys));
  }

  lemma {:induction false} MembersDistinct(st: State, keys: seq<string>, n: string)
    requires forall i, j :: 0 <= i < j < |keys| && keys[i] == keys[j] ==> !IsMember(st, keys[i], n)
    ensures NoDuplicates(Members(st, keys, n))
  {
    if keys != [] {
      var m := |keys| - 1;
      MembersDistinct(st, keys[..m], n);
      if IsMember(st, keys[m], n) {
        assert keys[m] !in keys[..m];
      }
    }
  }

  lemma FamilyDistinct(spans: seq<string>, hist: seq<Sample>, n: string)
    ensures NoDuplicates(Family(After(spans, hist), n))
  {
    var st := After(spans, hist);
    IndexAfter(spans, hist);
    forall i, j | 0 <= i < j < |st.tracked| && st.tracked[i] == st.tracked[j]
      ensures !IsMember(st, st.tracked[i], n)
    {
      KindsAfter(spans, hist, st.tracked[i]);
      KindsExclusive(spans, hist, st.tracked[i]);
      assert i < |spans| ==> st.tracked[i] == spans[i];
      var adHoc := st.tracked[|spans|..];
      assert forall m :: |spans| <= m < |st.tracked| ==> st.tracked[m] == adHoc[m - |spans|];
    }
    MembersDistinct(st, st.tracked, n);
  }

  // ---- The figures of the parts ----

  /** Every learner keeps the statistics of what c gives to its key. */
  ghost predicate HoldTheirs(st: State, c: string -> seq<int64>) {
    forall k :: StatsAt(st, k) == StatsOf(c(k))
  }

  lemma AllHoldTheirs(spans: seq<string>, hist: seq<Sample>)
    ensures HoldTheirs(After(spans, hist), Theirs(spans, hist))
  {
    forall k ensures StatsAt(After(spans, hist), k) == StatsOf(Theirs(spans, hist)(k)) {
      StatsAfter(spans, hist, k);
    }
  }

  lemma {:induction false} HeldWeight(st: State, c: string -> seq<int64>, keys: seq<string>)
    requires HoldTheirs(st, c)
    ensures |Held(c, keys)| == TotalWeight(st, keys)
  {
    if keys != [] {
      HeldWeight(st, c, keys[..|keys| - 1]);
      StatsMeaning(c(keys[|keys| - 1]));
    }
  }

  function Plus(xs: seq<int>): int {
    if xs == [] then 0 else Plus(xs[..|xs| - 1]) + xs[|xs| - 1]
  }

  function PlusWrapped(xs: seq<int>): int {
    if xs == [] then 0 else PlusWrapped(xs[..|xs| - 1]) + Wrap(xs[|xs| - 1])
  }

  /** Wrapping each summand changes nothing that the final wrap would have kept. */
  lemma {:induction false} PlusWraps(xs: seq<int>, a: int)
    ensures Wrap(a + Plus(xs)) == Wrap(a + PlusWrapped(xs))
  {
    if xs != [] {
      var m := |xs| - 1;
      PlusWraps(xs[..m], a + xs[m]);
      WrapAbsorbs(xs[m], a + PlusWrapped(xs[..m]));
      assert Wrap(xs[m]) + (a + PlusWrapped(xs[..m])) == a + PlusWrapped(xs);
      assert xs[m] + (a + PlusWrapped(xs[..m])) == (a + xs[m]) + PlusWrapped(xs[..m]);
      assert (a + xs[m]) + Plus(xs[..m]) == a + Plus(xs);
    }
  }

  /** The true sums of what c gives to keys. */
  function HeldSums(c: string -> seq<int64>, keys: seq<string>): (r: seq<int>)
    ensures |r| == |keys|
  {
    if keys == [] then [] else HeldSums(c, keys[..|keys| - 1]) + [Sum(c(keys[|keys| - 1]))]
  }

  lemma {:induction false} HeldSum(c: string -> seq<int64>, keys: seq<string>)
    ensures Plus(HeldSums(c, keys)) == Sum(Held(c, keys))
  {
    if keys != [] {
      var m := |keys| - 1;
      HeldSum(c, keys[..m]);
      assert HeldSums(c, keys)[..m] == HeldSums(c, keys[..m]);
      SumConcat(Held(c, keys[..m]), c(keys[m]));
    }
  }

  lemma {:induction false} HeldCumul(st: State, c: string -> seq<int64>, keys: seq<string>)
    requires HoldTheirs(st, c)
    ensures PlusWrapped(HeldSums(c, keys)) == TotalCumul(st, keys)
  {
    if keys != [] {
      var m := |keys| - 1;
      HeldCumul(st, c, keys[..m]);
      assert HeldSums(c, keys)[..m] == HeldSums(c, keys[..m]);
      StatsMeaning(c(keys[m]));
    }
  }

  lemma FamilyWeight(st: State, c: string -> seq<int64>, own: seq<int64>, n: string, keys: seq<string>)
    requires HoldTheirs(st, c) && |c(n)| == |own| + |Held(c, keys)|
    ensures StatsAt(st, n).weight == |own| + TotalWeight(st, keys)
  {
    StatsMeaning(c(n));
    HeldWeight(st, c, keys);
  }

  lemma FamilyCumul(st: State, c: string -> seq<int64>, own: int, n: string, keys: seq<string>)
    requires HoldTheirs(st, c) && Sum(c(n)) == own + Sum(Held(c, keys))
    ensures StatsAt(st, n).cumul == Wrap(own + TotalCumul(st, keys))
  {
    StatsMeaning(c(n));
    HeldSum(c, keys);
    HeldCumul(st, c, keys);
    PlusWraps(HeldSums(c, keys), own);
    AddInts(StatsAt(st, n).cumul, Sum(c(n)), own, Sum(Held(c, keys)), TotalCumul(st, keys));
  }

  lemma AddInts(cumul: int64, all: int, own: int, held: int, total: int)
    requires cumul == Wrap(all) && all == own + held && Wrap(own + held) == Wrap(own + total)
    ensures cumul == Wrap(own + total)
  {
  }

  lemma {:induction false} ContributionsHas(spans: seq<string>, hist: seq<Sample>, k: string, i: nat)
    requires Feeds(spans, hist, i, k)
    ensures hist[i].dur in Contributions(spans, hist, k)
  {
    var n := |hist| - 1;
    if i < n {
      AcceptedInPrefix(spans, hist, n, i);
      ContributionsHas(spans, hist[..n], k, i);
    }
  }

  /** No member of a family is without samples. */
  lemma FamilyHasSamples(spans: seq<string>, hist: seq<Sample>, n: string, k: string)
    requires k in Family(After(spans, hist), n)
    ensures Contributions(spans, hist, k) != []
  {
    FamilyExplained(spans, hist, n, k);
    var i :| LastForms(spans, hist, i, k);
    ContributionsHas(spans, hist, k, i);
  }

  lemma FamilyExtremes(st: State, c: string -> seq<int64>, hist: seq<Sample>, n: string)
    requires HoldTheirs(st, c) && PartsFit(c, DefaultSamples(hist, n), n, Family(st, n))
    requires forall k :: k in Family(st, n) ==> c(k) != []
    ensures ExtremesConserved(st, hist, n)
  {
    var parent, own, keys := StatsAt(st, n), DefaultSamples(hist, n), Family(st, n);
    StatsMeaning(c(n));
    forall d ensures d in Held(c, keys) <==> exists k :: k in keys && d in c(k) {
      HeldWhere(c, keys, d);
    }
    forall i | 0 <= i < |own| ensures parent.min <= own[i] <= parent.max {
      assert own[i] in c(n);
    }
    forall k | k in keys ensures IsMin(StatsAt(st, k).min, c(k)) && IsMax(StatsAt(st, k).max, c(k)) {
      StatsMeaning(c(k));
    }
    forall k | k in keys ensures parent.min <= StatsAt(st, k).min && StatsAt(st, k).max <= parent.max {
      assert StatsAt(st, k).min in Held(c, keys) && StatsAt(st, k).max in Held(c, keys);
    }
  }

  /** A family that no stranger feeds is conserved. */
  lemma FamilyConserved(spans: seq<string>, hist: seq<Sample>, n: string)
    requires Apart(spans, hist, n)
    ensures Conserved(After(spans, hist), hist, n)
  {
    var c, keys := Theirs(spans, hist), Family(After(spans, hist), n);
    forall i | 0 <= i < |hist| ensures BalancedWith(spans, hist, i, n, keys) {
      ApartBalances(spans, hist, n, i);
    }
    FamilyDistinct(spans, hist, n);
    PartsOfParent(spans, hist, n, keys);
    forall k | k in keys ensures c(k) != [] {
      FamilyHasSamples(spans, hist, n, k);
    }
    AllHoldTheirs(spans, hist);
    PartsConserved(After(spans, hist), c, hist, n);
  }

  lemma PartsConserved(st: State, c: string -> seq<int64>, hist: seq<Sample>, n: string)
    requires HoldTheirs(st, c) && PartsFit(c, DefaultSamples(hist, n), n, Family(st, n))
    requires forall k :: k in Family(st, n) ==> c(k) != []
    ensures Conserved(st, hist, n)
  {
    FamilyWeight(st, c, DefaultSamples(hist, n), n, Family(st, n));
    FamilyCumul(st, c, Sum(DefaultSamples(hist, n)), n, Family(st, n));
    FamilyExtremes(st, c, hist, n);
  }

  // ---- And only then ----

  /** The two histories differ in durations at most. */
  predicate SameSpans(a: seq<Sample>, b: seq<Sample>) {
    |a| == |b| && forall i :: 0 <= i < |a| ==> a[i].name == b[i].name && a[i].variant == b[i].variant
  }

  lemma SameAccepted(spans: seq<string>, a: seq<Sample>, b: seq<Sample>, i: nat)
    requires SameSpans(a, b) && i < |a|
    ensures AcceptedAt(spans, a, i) == AcceptedAt(spans, b, i) && forall k :: a[i].Touches(k) == b[i].Touches(k)
  {
    var k := a[i].Key();
    assert forall j :: 0 <= j < i ==> a[..i][j] == a[j] && b[..i][j] == b[j];
    assert forall j, l :: 0 <= j < i ==> a[j].Touches(l) == b[j].Touches(l);
    forall j ensures NamesFirst(a[..i], j, k) == NamesFirst(b[..i], j, k) {
    }
  }

  lemma SameForms(spans: seq<string>, a: seq<Sample>, b: seq<Sample>, k: string)
    requires SameSpans(a, b)
    ensures forall i ::
              Feeds(spans, a, i, k) == Feeds(spans, b, i, k) && FormsAt(spans, a, i, k) == FormsAt(spans, b, i, k)
  {
    forall i | 0 <= i < |a|
      ensures Feeds(spans, a, i, k) == Feeds(spans, b, i, k) && FormsAt(spans, a, i, k) == FormsAt(spans, b, i, k)
    {
      SameAccepted(spans, a, b, i);
    }
  }

  /** Durations do not decide who belongs to a family. */
  lemma SameFamily(spans: seq<string>, a: seq<Sample>, b: seq<Sample>, n: string, k: string)
    requires SameSpans(a, b)
    ensures k in Family(After(spans, a), n) <==> k in Family(After(spans, b), n)
  {
    SameForms(spans, a, b, k);
    FamilyExplained(spans, a, n, k);
    FamilyExplained(spans, b, n, k);
    assert forall i :: LastForms(spans, a, i, k) == LastForms(spans, b, i, k);
  }

  lemma SameApart(spans: seq<string>, a: seq<Sample>, b: seq<Sample>, n: string)
    requires SameSpans(a, b) && Apart(spans, a, n)
    ensures Apart(spans, b, n)
  {
    SameForms(spans, a, b, n);
    forall i, j | VariantAt(spans, b, i, n) && Feeds(spans, b, j, b[i].Key()) ensures b[j].name == n {
      SameForms(spans, a, b, a[i].Key());
      SameAccepted(spans, a, b, i);
      assert VariantAt(spans, a, i, n) && Feeds(spans, a, j, a[i].Key());
    }
  }

  /** The history with 1 as the duration of sample i, and 0 as all others. */
  function Pulse(hist: seq<Sample>, i: nat): (h: seq<Sample>)
    ensures SameSpans(hist, h) && forall j :: 0 <= j < |h| ==> h[j].dur == One(j == i)
  {
    seq(|hist|, j requires 0 <= j < |hist| => hist[j].(dur := One(j == i)))
  }

  /** h pulses at i: the pulse reaches k just when sample i feeds it. */
  lemma {:induction false} PulseSum(fed: (nat, string) -> bool, h: seq<Sample>, i: nat, m: nat, k: string)
    requires m <= |h| && forall j :: 0 <= j < |h| ==> h[j].dur == One(j == i)
    ensures Sum(Feeding(fed, h, m, k)) == One(i < m && fed(i, k))
  {
    if m > 0 {
      PulseSum(fed, h, i, m - 1, k);
      SumConcat(Feeding(fed, h, m - 1, k), if fed(m - 1, k) then [h[m - 1].dur] else []);
      SumOne(h[m - 1].dur);
    }
  }

  lemma PulseOf(spans: seq<string>, h: seq<Sample>, i: nat, k: string)
    requires i < |h| && forall j :: 0 <= j < |h| ==> h[j].dur == One(j == i)
    ensures Sum(Contributions(spans, h, k)) == One(Feeds(spans, h, i, k))
  {
    assert h[..|h|] == h;
    TheirsAre(spans, h, |h|, k);
    PulseSum(FedBy(spans, h), h, i, |h|, k);
  }

  lemma SumOne(d: int64)
    ensures Sum([d]) == d
  {
  }

  lemma {:induction false} PulseDefault(h: seq<Sample>, i: nat, m: nat, n: string)
    requires m <= |h| && forall j :: 0 <= j < |h| ==> h[j].dur == One(j == i)
    ensures Sum(DefaultSamples(h[..m], n)) == One(i < m && Defaults(n)(h[i]))
  {
    if m > 0 {
      var p := h[..m];
      PulseDefault(h, i, m - 1, n);
      assert p[..m - 1] == h[..m - 1];
      SumConcat(DefaultSamples(p[..m - 1], n), if Defaults(n)(p[m - 1]) then [p[m - 1].dur] else []);
      SumOne(p[m - 1].dur);
    }
  }

  /** The pulse shows in as many learners of keys as sample i feeds. */
  lemma {:induction false} PulseTotal(st: State, spans: seq<string>, h: seq<Sample>, i: nat, keys: seq<string>)
    requires i < |h| && forall j :: 0 <= j < |h| ==> h[j].dur == One(j == i)
    requires HoldTheirs(st, Theirs(spans, h)) && NoDuplicates(keys) && AcceptedAt(spans, h, i)
    ensures TotalCumul(st, keys) == KeyShare(h[i], keys)
  {
    if keys != [] {
      var k := keys[|keys| - 1];
      PulseTotal(st, spans, h, i, keys[..|keys| - 1]);
      KeyShareStep(h[i], keys);
      StatsMeaning(Theirs(spans, h)(k));
      PulseOf(spans, h, i, k);
    }
  }

  /** An unbalanced sample shows: the sums differ when it takes 1 and all others 0. */
  lemma UnbalancedShows(spans: seq<string>, hist: seq<Sample>, i: nat, n: string)
    requires i < |hist| && !BalancedAt(spans, hist, i, n)
    ensures !Conserved(After(spans, Pulse(hist, i)), Pulse(hist, i), n)
  {
    var h := Pulse(hist, i);
    var st := After(spans, h);
    SameAccepted(spans, hist, h, i);
    SameShare(spans, hist, h, i, n);
    AllHoldTheirs(spans, h);
    FamilyDistinct(spans, h, n);
    PulseTotal(st, spans, h, i, Family(st, n));
    PulseOf(spans, h, i, n);
    PulseDefault(h, i, |h|, n);
    assert h[..|h|] == h;
    StatsMeaning(Contributions(spans, h, n));
  }

  lemma SameShare(spans: seq<string>, a: seq<Sample>, b: seq<Sample>, i: nat, n: string)
    requires SameSpans(a, b) && i < |a|
    ensures KeyShare(a[i], Family(After(spans, a), n)) == KeyShare(b[i], Family(After(spans, b), n))
  {
    SameFamily(spans, a, b, n, a[i].name);
    SameFamily(spans, a, b, n, a[i].Key());
  }

  /** A family is conserved, whatever the samples take, exactly when no stranger feeds the parent or a key of its
      variants. */
  lemma FamilyExact(spans: seq<string>, hist: seq<Sample>, n: string)
    ensures (forall h :: SameSpans(hist, h) ==> Conserved(After(spans, h), h, n)) <==> Apart(spans, hist, n)
  {
    if Apart(spans, hist, n) {
      forall h | SameSpans(hist, h) ensures Conserved(After(spans, h), h, n) {
        SameApart(spans, hist, h, n);
        FamilyConserved(spans, h, n);
      }
    } else {
      if forall i :: 0 <= i < |hist| ==> BalancedAt(spans, hist, i, n) {
        BalanceMeansApart(spans, hist, n);
      }
      var i :| 0 <= i < |hist| && !BalancedAt(spans, hist, i, n);
      UnbalancedShows(spans, hist, i, n);
    }
  }

  // ---- Families under the naming rule ----

  ghost predicate Disciplined(spans: seq<string>, hist: seq<Sample>) {
    WellNamedSpans(spans) && forall s :: s in hist ==> WellNamed(s)
  }

  lemma FormersShareName(s: Sample, t: Sample, k: string)
    requires WellNamed(s) && WellNamed(t) && s.MentionsAsVariant(k) && t.MentionsAsVariant(k)
    ensures s == t.(dur := s.dur)
  {
    KeysDistinct(s.name, s.variant, t.name, t.variant);
  }

  lemma NeverPlain(spans: seq<string>, hist: seq<Sample>, t: Sample)
    requires Disciplined(spans, hist) && t in hist && t.variant != ""
    ensures !PlainFirst(spans, hist, t.Key())
    ensures t.Key() !in spans && forall s :: s in hist ==> s.name != t.Key()
  {
    WellNamedIsConsistent(spans, hist);
    forall s | s in hist ensures s.name != t.Key() {
      assert !Clash(spans, s, t);
    }
    UnnamedIsFree(spans, hist, |hist|, t.Key());
    assert hist[..|hist|] == hist;
  }

  lemma DropFree(spans: seq<string>, hist: seq<Sample>, i: nat)
    requires Disciplined(spans, hist) && i < |hist|
    ensures AcceptedAt(spans, hist, i)
  {
    NothingDropped(spans, hist, i);
    AcceptsIsAcceptedAt(spans, hist, i);
  }

  /** Under the naming rule every family is on its own, except that a key of a variant is no parent. */
  lemma DisciplinedApart(spans: seq<string>, hist: seq<Sample>, n: string)
    requires Disciplined(spans, hist)
    ensures Apart(spans, hist, n) <==> forall s :: s in hist ==> !s.MentionsAsVariant(n)
  {
    if forall s :: s in hist ==> !s.MentionsAsVariant(n) {
      forall j | Feeds(spans, hist, j, n) ensures hist[j].name == n {
        assert hist[j] in hist;
      }
      forall i, j | VariantAt(spans, hist, i, n) && Feeds(spans, hist, j, hist[i].Key()) ensures hist[j].name == n {
        assert hist[i] in hist && hist[j] in hist;
        NeverPlain(spans, hist, hist[i]);
        FormersShareName(hist[i], hist[j], hist[i].Key());
      }
    } else {
      var s :| s in hist && s.MentionsAsVariant(n);
      var j :| 0 <= j < |hist| && hist[j] == s;
      DropFree(spans, hist, j);
      KeyIsLonger(s, n);
      assert Feeds(spans, hist, j, n);
    }
  }

  /** That is, for every name whose entry is not a variant. */
  lemma PlainIsApart(spans: seq<string>, hist: seq<Sample>, n: string)
    requires Disciplined(spans, hist) && ParentAt(After(spans, hist), n).None?
    ensures Apart(spans, hist, n)
  {
    ParentAfter(spans, hist, n);
    forall x | x in hist ensures !x.MentionsAsVariant(n) {
      var i :| 0 <= i < |hist| && hist[i] == x;
      DropFree(spans, hist, i);
      assert !FormsAt(spans, hist, i, n);
    }
    DisciplinedApart(spans, hist, n);
  }

  /** Outside that rule a family can lose a member: after Init2(app), two variants of different spans that form the same
      key leave the first span's family without it. */
  lemma FamilyCanLeak(app: seq<string>, s: Sample, t: Sample)
    requires s.variant != "" && t.variant != "" && s.name != t.name && s.Key() == t.Key()
    requires s.Key() !in app + BuiltinSpans()
    ensures !Conserved(After(app + BuiltinSpans(), [s, t]), [s, t], s.name)
  {
    var spans := app + BuiltinSpans();
    LeakedMember(spans, s, t);
    LeakedWeight(spans, s, t);
  }

  lemma LeakedMember(spans: seq<string>, s: Sample, t: Sample)
    requires s.variant != "" && t.variant != "" && s.name != t.name && s.Key() == t.Key() && s.Key() !in spans
    ensures Family(After(spans, [s, t]), s.name) == []
  {
    var hist, st := [s, t], After(spans, [s, t]);
    KeyIsLonger(s, s.Key());
    KeyIsLonger(t, s.Key());
    assert hist[..1] == [s];
    assert FormsAt(spans, hist, 1, s.Key());
    forall l ensures !IsMember(st, l, s.name) {
      ParentAfter(spans, hist, l);
      assert forall i :: LastForms(spans, hist, i, l) ==> i == 1;
    }
    NoMembers(st, st.tracked, s.name);
  }

  lemma LeakedWeight(spans: seq<string>, s: Sample, t: Sample)
    requires s.variant != "" && t.variant != "" && s.name != t.name && s.Key() == t.Key() && s.Key() !in spans
    ensures StatsAt(After(spans, [s, t]), s.name).weight == 1 && DefaultSamples([s, t], s.name) == []
  {
    assert [s, t][..1] == [s];
    KeyIsLonger(s, s.Key());
    OneSample(spans, s);
    HandleAt(After(spans, [s]), t, s.name);
    NoDefaults([s, t], s.name);
  }

  lemma {:induction false} NoDefaults(hist: seq<Sample>, n: string)
    requires forall s :: s in hist ==> s.variant != ""
    ensures DefaultSamples(hist, n) == []
  {
    if hist != [] {
      NoDefaults(hist[..|hist| - 1], n);
    }
  }

  lemma {:induction false} NoMembers(st: State, keys: seq<string>, n: string)
    requires forall k :: !IsMember(st, k, n)
    ensures Members(st, keys, n) == []
  {
    if keys != [] {
      NoMembers(st, keys[..|keys| - 1], n);
    }
  }

}
