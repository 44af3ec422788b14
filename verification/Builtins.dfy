/** The spans LatLearn registers for itself during Init. */
module Builtins {
  import opened Aggregate
  import opened TrackedSpans

  const OVERHEAD_SPAN := "LL.no-op"
  const REPORT_SPAN := "LL.lat-report"

  function CodeSpans(): seq<string> {
    [ OVERHEAD_SPAN, "LL.fn-call-return",
      "LL.for-iters(n=1000)", "LL.accum-ints(n=1000)", "LL.add-int-literals(n=2)",
      "LL.add-str-literals(n=2)", "LL.map-str-int-set",
      "LL.map-str-int-get(k=100,key0)", "LL.map-str-int-get(k=100,key49)",
      "LL.map-str-int-get(k=100,key99)",
      "LL.span-map-lookup", "LL.sort-strs(n=10)", "LL.log-hellos(n=10)",
      "LL.byte-array-make(n=1)", "LL.byte-array-make(n=1k)", "LL.byte-array-make(n=100k)" ]
  }

  function ExecSpans(): seq<string> {
    [ "LL.exec-command(mac,sysctl)",
      "LL.exec-command(mac,pwd)",
      "LL.exec-command(mac,date)",
      "LL.exec-command(mac,host)",
      "LL.exec-command(mac,hostname)",
      "LL.exec-command(mac,uname)",
      "LL.exec-command(mac,ls)",
      "LL.exec-command(mac,df)",
      "LL.exec-command(mac,kill)",
      "LL.exec-command(mac,sleep=0.01s)",
      "LL.exec-command(mac,sleep=0.001s)",
      "LL.exec-command(mac,sleep=0.0001s)",
      "LL.exec-command(mac,sh-version)" ]
  }

  function SelfSpans(): seq<string> {
    [ "LL.benchmarks-total", REPORT_SPAN ]
  }

  /** `spans_latlearn_builtin`, in its order. */
  function BuiltinSpans(): seq<string> {
    CodeSpans() + ExecSpans() + SelfSpans()
  }

  /** A sample on the default path of a built-in span. */
  predicate BuiltinSample(s: Sample) {
    s.variant == "" && s.name in BuiltinSpans()
  }

  /** A sample that a benchmark run takes: of any built-in span but the two that have another source. */
  predicate BenchSample(s: Sample) {
    BuiltinSample(s) && s.name != OVERHEAD_SPAN && s.name != REPORT_SPAN
  }

  /** The spans that the server feeds on its own account. */
  predicate FedByServer(k: string) {
    k in BuiltinSpans() && k != OVERHEAD_SPAN
  }

  lemma CodeSpansFacts()
    ensures forall k :: k in CodeSpans() ==> "LL." <= k
    ensures OVERHEAD_SPAN in CodeSpans()
    ensures NoDuplicates(CodeSpans())
  {
    assert CodeSpans()[0] == OVERHEAD_SPAN;
  }

  lemma ExecSpansFacts()
    ensures forall k :: k in ExecSpans() ==> "LL." <= k
    ensures NoDuplicates(ExecSpans())
  {
  }

  lemma ExecSpansApart()
    ensures forall k :: k in ExecSpans() ==> k !in CodeSpans()
  {
  }

  lemma SelfSpansApart()
    ensures forall k :: k in SelfSpans() ==> k !in CodeSpans() && k !in ExecSpans()
    ensures NoDuplicates(SelfSpans())
  {
  }

  /** The 31 built-in spans differ from one another and all carry the reserved prefix. */
  lemma BuiltinsFacts()
    ensures |BuiltinSpans()| == 31
    ensures NoDuplicates(BuiltinSpans())
    ensures forall k :: k in BuiltinSpans() ==> "LL." <= k
    ensures OVERHEAD_SPAN in BuiltinSpans() && REPORT_SPAN in BuiltinSpans()
  {
    CodeSpansFacts();
    ExecSpansFacts();
    ExecSpansApart();
    SelfSpansApart();
    assert SelfSpans()[1] == REPORT_SPAN;
    ConcatDistinct(CodeSpans(), ExecSpans());
    ConcatDistinct(CodeSpans() + ExecSpans(), SelfSpans());
  }

  lemma ConcatDistinct(a: seq<string>, b: seq<string>)
    ensures NoDuplicates(a + b) <==> NoDuplicates(a) && NoDuplicates(b) && forall k :: k in a ==> k !in b
  {
    var c := a + b;
    assert forall i :: 0 <= i < |a| ==> c[i] == a[i];
    assert forall j :: |a| <= j < |c| ==> c[j] == b[j - |a|];
    if NoDuplicates(c) {
      forall k | k in a ensures k !in b {
        var i :| 0 <= i < |a| && c[i] == k;
        assert forall j :: 0 <= j < |b| ==> b[j] == c[|a| + j] != k;
      }
      forall i, j | 0 <= i < j < |b| ensures b[i] != b[j] {
        assert c[|a| + i] != c[|a| + j];
      }
      forall i, j | 0 <= i < j < |a| ensures a[i] != a[j] {
        assert c[i] != c[j];
      }
    }
    if NoDuplicates(a) && NoDuplicates(b) && forall k :: k in a ==> k !in b {
      forall i, j | 0 <= i < j < |c| ensures c[i] != c[j] {
        if i < |a| <= j {
          assert a[i] in a && b[j - |a|] in b;
        }
      }
    }
  }

  /** After Init2(app) and any samples, no span has two rows exactly when the Init2 list repeats nothing and names no
      built-in span. */
  lemma RowsDistinct(app: seq<string>, hist: seq<Sample>)
    ensures NoDuplicates(After(app + BuiltinSpans(), hist).tracked) <==>
            NoDuplicates(app) && forall k :: k in app ==> k !in BuiltinSpans()
  {
    IndexDuplicates(app + BuiltinSpans(), hist);
    BuiltinsFacts();
    ConcatDistinct(app, BuiltinSpans());
  }
}
