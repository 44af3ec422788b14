/** `tracked_spans`, the ordered index over the learners map. */
module TrackedSpans {
  import opened Aggregate

  ghost predicate NoDuplicates(s: seq<string>) {
    forall i, j :: 0 <= i < j < |s| ==> s[i] != s[j]
  }

  /** The index lists the keys of the map, no more and no fewer. */
  ghost predicate IndexAgrees(st: State) {
    forall k :: k in st.tracked <==> k in st.learners
  }

  /** The index is base followed by keys that are new and all different. */
  ghost predicate ExtendsFreshly(base: seq<string>, tracked: seq<string>) {
    && base <= tracked
    && NoDuplicates(tracked[|base|..])
    && forall i :: |base| <= i < |tracked| ==> tracked[i] !in base
  }

  lemma EnsureKeepsIndex(st: State, k: string, kind: Kind, base: seq<string>)
    requires IndexAgrees(st) && ExtendsFreshly(base, st.tracked)
    ensures IndexAgrees(st.Ensure(k, kind)) && ExtendsFreshly(base, st.Ensure(k, kind).tracked)
    ensures st.tracked <= st.Ensure(k, kind).tracked
  {
  }

  lemma HandleKeepsIndex(st: State, s: Sample, base: seq<string>)
    requires IndexAgrees(st) && ExtendsFreshly(base, st.tracked)
    ensures IndexAgrees(st.Handle(s)) && ExtendsFreshly(base, st.Handle(s).tracked)
    ensures st.tracked <= st.Handle(s).tracked
  {
    var withName := st.Ensure(s.name, Plain);
    EnsureKeepsIndex(st, s.name, Plain, base);
    if s.variant != "" && st.Accepts(s) {
      var both := withName.Ensure(s.Key(), Variant);
      EnsureKeepsIndex(withName, s.Key(), Variant, base);
      assert st.Handle(s).learners.Keys == both.learners.Keys;
      assert st.Handle(s).tracked == both.tracked;
    } else {
      assert st.Handle(s).learners.Keys == withName.learners.Keys;
      assert st.Handle(s).tracked == withName.tracked;
    }
  }

  /** The index agrees with the map after every history, and starts with the Init list. So the unguarded map lookup
      of the report loop always finds an entry. */
  lemma {:induction false} IndexAfter(spans: seq<string>, hist: seq<Sample>)
    ensures var st := After(spans, hist); IndexAgrees(st) && ExtendsFreshly(spans, st.tracked)
  {
    if hist == [] {
      assert spans[|spans|..] == [];
    } else {
      IndexAfter(spans, hist[..|hist| - 1]);
      HandleKeepsIndex(After(spans, hist[..|hist| - 1]), hist[|hist| - 1], spans);
    }
  }

  /** Rows never move: an earlier index is a prefix of any later one. */
  lemma {:induction false} IndexOnlyGrows(spans: seq<string>, hist: seq<Sample>, n: nat)
    requires n <= |hist|
    ensures After(spans, hist[..n]).tracked <= After(spans, hist).tracked
  {
    if n == |hist| {
      assert hist[..n] == hist;
    } else {
      var m := |hist| - 1;
      IndexOnlyGrows(spans, hist[..m], n);
      assert hist[..m][..n] == hist[..n];
      IndexAfter(spans, hist[..m]);
      HandleKeepsIndex(After(spans, hist[..m]), hist[m], spans);
    }
  }

  /** A report repeats a row exactly when the Init list did. */
  lemma IndexDuplicates(spans: seq<string>, hist: seq<Sample>)
    ensures NoDuplicates(After(spans, hist).tracked) <==> NoDuplicates(spans)
  {
    IndexAfter(spans, hist);
    var t := After(spans, hist).tracked;
    assert forall i :: 0 <= i < |spans| ==> t[i] == spans[i];
    assert forall i :: |spans| <= i < |t| ==> t[i] == t[|spans|..][i - |spans|];
  }
}
