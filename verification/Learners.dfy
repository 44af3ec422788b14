/** The learner objects that the server mutates in place, and the map that owns them. */
module Learners {
  import opened Int64
  import opened Options
  import opened SpanKeys
  import S = Stats
  import opened Aggregate
  import opened Builtins

  class LatencyLearner {
    const name: string
    var last: int64
    var cumul: int64
    var weight: nat
    var min: int64
    var max: int64
    var pairEverCompleted: bool

    constructor (span: string)
      ensures name == span && Figures() == S.FRESH
    {
      name := span;
      last, cumul, weight, min, max, pairEverCompleted := 0, 0, 0, 0, 0, false;
    }

    function Figures(): S.Stats
      reads this
    {
      S.Stats(last, cumul, weight, min, max, pairEverCompleted)
    }

    method After2(dur: int64)
      modifies this
      ensures Figures() == S.After2(old(Figures()), dur)
    {
      last := dur;
      cumul := Wrap(cumul + dur);
      weight := weight + 1;
      if pairEverCompleted {
        if dur < min { min := dur; }
        if dur > max { max := dur; }
      } else {
        min := dur;
        max := dur;
      }
      pairEverCompleted := true;
    }

    method Mean() returns (meanLatency: int64, samples: nat)
      ensures meanLatency == S.Mean(Figures()) && samples == weight
    {
      meanLatency := -1;
      samples := weight;
      if samples > 0 {
        TruncDivShrinks(cumul, samples);
        meanLatency := TruncDiv(cumul, samples);
      }
    }
  }

  class VariantLatencyLearner {
    const ll: LatencyLearner
    var parent: LatencyLearner?

    constructor (learner: LatencyLearner)
      ensures ll == learner && parent == null
    {
      ll := learner;
      parent := null;
    }
  }

  /** A value of the `latencyLearnerI` interface. */
  datatype Entry = PlainEntry(plain: LatencyLearner) | VariantEntry(vll: VariantLatencyLearner) {
    function GetLL(): LatencyLearner {
      match this
      case PlainEntry(ll) => ll
      case VariantEntry(v) => v.ll
    }

    function GetVLL(): VariantLatencyLearner? {
      match this
      case PlainEntry(_) => null
      case VariantEntry(v) => v
    }

    ghost function Objects(): set<object> {
      match this
      case PlainEntry(ll) => {ll}
      case VariantEntry(v) => {v, v.ll}
    }

    ghost function Abs(): Slot
      reads Objects()
    {
      match this
      case PlainEntry(ll) => Slot(Plain, ll.Figures(), None)
      case VariantEntry(v) =>
        Slot(Variant, v.ll.Figures(), if v.parent == null then None else Some(v.parent.name))
    }
  }

  class Aggregator {
    var learners: map<string, Entry>
    var trackedSpans: seq<string>
    ghost var Repr: set<object>

    /** Every learner is the learner of the key it is named after, so no two keys share an object; and the parent
        of a variant is the learner that the map holds under the parent's name. */
    ghost predicate Valid()
      reads this`learners, this`Repr, Repr
    {
      this !in Repr &&
      forall k :: k in learners ==>
        && learners[k].Objects() <= Repr
        && learners[k].GetLL().name == k
        && (learners[k].VariantEntry? && learners[k].vll.parent != null ==>
          var p := learners[k].vll.parent; p.name in learners && learners[p.name].GetLL() == p)
    }

    ghost function Abs(): State
      requires Valid()
      reads this, Repr
    {
      State(Slots(), trackedSpans)
    }

    ghost function Slots(): map<string, Slot>
      requires Valid()
      reads this`learners, this`Repr, Repr
    {
      map k | k in learners :: learners[k].Abs()
    }

    /** An aggregator before Init. */
    constructor ()
      ensures Valid() && Abs() == State(map[], []) && Repr == {}
    {
      learners := map[];
      trackedSpans := [];
      Repr := {};
    }

    /** Put a new entry under a new key. */
    method Insert(span: string, e: Entry)
      requires Valid() && span !in learners
      requires e.GetLL().name == span && (e.VariantEntry? ==> e.vll.parent == null)
      modifies this
      ensures Valid() && Repr == old(Repr) + e.Objects()
      ensures learners == old(learners)[span := e] && trackedSpans == old(trackedSpans)
      ensures Slots() == old(Slots())[span := e.Abs()]
    {
      learners := learners[span := e];
      Repr := Repr + e.Objects();
    }

    /** `latency_learner`. */
    method LearnerOf(span: string) returns (ll: LatencyLearner, found: bool)
      requires Valid()
      modifies this
      ensures Valid() && fresh(Repr - old(Repr)) && old(Repr) <= Repr
      ensures found == (span in old(learners))
      ensures span in learners && learners[span].GetLL() == ll
      ensures trackedSpans == old(trackedSpans)
      ensures Slots() == if found then old(Slots()) else old(Slots())[span := Slot(Plain, S.FRESH, None)]
    {
      found := span in learners;
      if !found {
        ll := new LatencyLearner(span);
        Insert(span, PlainEntry(ll));
      } else {
        ll := learners[span].GetLL();
      }
    }

    /** `variant_latency_learner`: nil when the key is held by a plain learner. */
    method VariantLearnerOf(span: string) returns (vll: VariantLatencyLearner?, found: bool)
      requires Valid()
      modifies this
      ensures Valid() && fresh(Repr - old(Repr)) && old(Repr) <= Repr
      ensures found == (span in old(learners))
      ensures span in learners && learners[span].GetVLL() == vll
      ensures forall k :: k in old(learners) ==> k in learners && learners[k] == old(learners[k])
      ensures trackedSpans == old(trackedSpans)
      ensures Slots() == if found then old(Slots()) else old(Slots())[span := Slot(Variant, S.FRESH, None)]
    {
      found := span in learners;
      if !found {
        var ll := new LatencyLearner(span);
        vll := new VariantLatencyLearner(ll);
        Insert(span, VariantEntry(vll));
      } else {
        vll := learners[span].GetVLL();
      }
    }

    /** Replace the index; the map does not move. */
    method Reindex(keys: seq<string>)
      requires Valid()
      modifies this`trackedSpans
      ensures Valid() && Abs() == old(Abs()).(tracked := keys)
    {
      trackedSpans := keys;
    }

    /** Feed one learner: nothing else in the map moves, because no other key has the same object. */
    method Feed(k: string, ll: LatencyLearner, dur: int64)
      requires Valid() && k in learners && learners[k].GetLL() == ll
      modifies ll
      ensures Valid() && Abs() == old(Abs()).Record(k, dur)
    {
      assert forall j :: j in learners && j != k ==> ll !in learners[j].Objects();
      ll.After2(dur);
    }

    /** Point a variant at its parent. */
    method Adopt(k: string, vll: VariantLatencyLearner, p: string, pll: LatencyLearner)
      requires Valid() && k in learners && learners[k].GetVLL() == vll
      requires p in learners && learners[p].GetLL() == pll
      modifies vll
      ensures Valid() && Abs() == old(Abs()).SetParent(k, p)
    {
      assert forall j :: j in learners && j != k ==> vll !in learners[j].Objects();
      vll.parent := pll;
    }

    /** The variant half of `handle_ssu_A`. */
    method HandleVariant(name: string, variant: string, pll: LatencyLearner, dur: int64) returns (ok: bool)
      requires Valid() && variant != "" && name in learners && learners[name].GetLL() == pll
      modifies this, Repr
      ensures Valid() && fresh(Repr - old(Repr))
      ensures Abs() == old(Abs()).HandleVariant(Sample(name, variant, dur))
      ensures ok == old(Abs()).Accepts(Sample(name, variant, dur))
    {
      var key := SpanKeyForm(name, variant);
      var vll, found := VariantLearnerOf(key);
      if vll == null { return false; }
      if !found { Reindex(trackedSpans + [key]); }
      assert Abs() == old(Abs()).Ensure(key, Variant);
      Adopt(key, vll, name, pll);
      Feed(name, pll, dur);
      Feed(key, vll.ll, dur);
      return true;
    }

    /** `handle_ssu_A`. */
    method HandleSsuA(name: string, variant: string, dur: int64) returns (ok: bool)
      requires Valid()
      modifies this, Repr
      ensures Valid() && fresh(Repr - old(Repr))
      ensures Abs() == old(Abs()).Handle(Sample(name, variant, dur))
      ensures ok == old(Abs()).Accepts(Sample(name, variant, dur))
    {
      var pll, found := LearnerOf(name);
      if !found { Reindex(trackedSpans + [name]); }
      assert Abs() == old(Abs()).Ensure(name, Plain);
      if variant != "" {
        ok := HandleVariant(name, variant, pll, dur);
      } else {
        Feed(name, pll, dur);
        ok := true;
      }
    }

    /** `init_inner`, as far as it fills the map and the index. */
    method Init(app: seq<string>)
      requires Valid() && learners == map[]
      modifies this
      ensures Valid() && fresh(Repr - old(Repr))
      ensures Abs() == InitState(app + BuiltinSpans())
    {
      Register(app + BuiltinSpans());
    }

    /** Its loop over the spans, duplicates included. */
    method Register(spans: seq<string>)
      requires Valid() && learners == map[]
      modifies this
      ensures Valid() && fresh(Repr - old(Repr))
      ensures Abs() == InitState(spans)
    {
      var i := 0;
      while i < |spans|
        invariant i <= |spans|
        invariant Valid() && fresh(Repr - old(Repr)) && old(Repr) <= Repr
        invariant Slots() == InitState(spans[..i]).learners
      {
        var _, _ := LearnerOf(spans[i]);
        assert spans[..i + 1] == spans[..i] + [spans[i]];
        i := i + 1;
      }
      assert spans[..i] == spans;
      Reindex(spans);
    }
  }
}
