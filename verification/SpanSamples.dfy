/** A span sample underway: opened by B or B2, ended by the first call of A or A2. */
module SpanSamples {
  import opened Int64
  import opened Options
  import opened SpanKeys
  import opened Aggregate

  /** `time.Time.Sub`, on instants that are nanosecond counts: exact when the difference is an int64, and otherwise the
      nearer end of int64. */
  function Sub(t2: int, t1: int): (d: int64)
    ensures t1 + d == t2 <==> Fits(t2 - t1)
    ensures t1 <= t2 <==> d >= 0
    ensures t2 - t1 > MAX_INT64 ==> d == MAX_INT64
    ensures t2 - t1 < MIN_INT64 ==> d == MIN_INT64
  {
    if t2 - t1 > MAX_INT64 then MAX_INT64 else if t2 - t1 < MIN_INT64 then MIN_INT64 else t2 - t1
  }

  /** The variant of a sample begun as one variant and ended as another; either may be empty. */
  function Combined(begun: string, ending: string): string {
    if begun != "" && ending != "" then begun + "," + ending else begun + ending
  }

  /** The inverse reading: split at the first comma. */
  function ParseVariant(variant: string): (string, string) {
    var i := FirstOf(',', variant);
    if i == |variant| then (variant, "") else (variant[..i], variant[i + 1..])
  }

  /** Splitting a combined variant gives its two parts back exactly when the first holds no comma and is not missing
      before a second one; and a part that is missing leaves no trace. */
  lemma VariantRoundTrip(begun: string, ending: string)
    ensures ParseVariant(Combined(begun, ending)) == (begun, ending) <==>
            ',' !in begun && (begun != "" || ending == "")
    ensures Combined(begun, "") == begun && Combined("", ending) == ending
  {
    var v := Combined(begun, ending);
    var i := FirstOf(',', v);
    assert v[..|begun|] == begun;
    if ',' !in begun && begun != "" {
      assert if ending == "" then v == begun else v[|begun|] == ',' && i == |begun|;
    }
  }

  /** An ending call: its argument ("" for A), the time from begin to end, and whether it found the library open, that
      is, initialised and not known to be finished. */
  datatype Ending = Ending(variant: string, dur: int64, open: bool)

  /** A sample as its owner sees it. `ended` keeps the first ending call. */
  datatype Span = Span(owner: nat, name: string, begunAs: string, ended: Option<Ending>) {
    function Variant(): string {
      if ended.None? then begunAs else Combined(begunAs, ended.value.variant)
    }

    /** The first ending call settles the sample; any later one changes nothing. */
    function End(call: Ending): Span {
      if ended.Some? then this else this.(ended := Some(call))
    }

    /** The message of an ending call, if it makes one. */
    function Message(call: Ending): Option<Sample> {
      if ended.None? && call.open then Some(Sample(name, Combined(begunAs, call.variant), call.dur)) else None
    }
  }

  /** The messages of any sequence of ending calls on one sample. */
  function Messages(span: Span, calls: seq<Ending>): seq<Sample>
    decreases |calls|
  {
    if calls == [] then []
    else
      var m := span.Message(calls[0]);
      (if m.Some? then [m.value] else []) + Messages(span.End(calls[0]), calls[1..])
  }

  lemma {:induction false} EndedIsSilent(span: Span, calls: seq<Ending>)
    requires span.ended.Some?
    ensures Messages(span, calls) == []
    decreases |calls|
  {
    if calls != [] {
      EndedIsSilent(span, calls[1..]);
    }
  }

  /** However often a sample is ended, only the first ending counts: it is sent if it found the library open, with the
      variant and the time of that first call, and otherwise the sample is lost for good. */
  lemma AtMostOneMessage(span: Span, calls: seq<Ending>)
    requires span.ended.None? && calls != []
    ensures Messages(span, calls) ==
            if calls[0].open then [Sample(span.name, Combined(span.begunAs, calls[0].variant), calls[0].dur)] else []
  {
    EndedIsSilent(span.End(calls[0]), calls[1..]);
  }

  /** The end time after a call of `after` at time now: one that is already set is kept. */
  function EndTime(t2: Option<int>, now: int): int {
    if t2.Some? then t2.value else now
  }

  class SpanSampleUnderway {
    const name: string
    var variant: string
    var t1: int
    var t2: Option<int>  // None is the zero time
    var ended: bool
    ghost var model: Span

    ghost predicate Valid()
      reads this
    {
      name == model.name && variant == model.Variant() && ended == model.ended.Some?
    }

    /** `ssu_before`, for B (variant "") and B2. */
    constructor Before(span: string, begunAs: string, now: int, ghost owner: nat)
      ensures Valid() && model == Span(owner, span, begunAs, None)
      ensures t1 == now && t2 == None
    {
      name := span;
      variant := begunAs;
      t1 := now;
      t2 := None;
      ended := false;
      model := Span(owner, span, begunAs, None);
    }

    /** `after`: an end time that is already set is kept. */
    method After(now: int) returns (end: int)
      modifies this`t2
      ensures end == (if old(t2).Some? then old(t2).value else now) && t2 == Some(end)
    {
      if t2.None? { t2 := Some(now); }
      end := t2.value;
    }

    /** `after_and_submit`, up to the channel send: the message to send, if the call gets that far. */
    method AfterAndSubmit(initCompleted: bool, serveFinished: bool, now: int) returns (message: Option<Sample>)
      modifies this`t2
      ensures message.Some? <==> initCompleted && !serveFinished
      ensures var end := EndTime(old(t2), now);
              if message.None? then t2 == old(t2)
              else
                && message.value == Sample(name, variant, Sub(end, t1)) && t2 == Some(end)
                && (Fits(end - t1) ==> t1 + message.value.dur == end)
    {
      if !initCompleted || serveFinished { return None; }
      var end := After(now);
      return Some(Sample(name, variant, Sub(end, t1)));
    }

    /** `A`. */
    method A(initCompleted: bool, serveFinished: bool, now: int) returns (message: Option<Sample>)
      requires Valid()
      modifies this
      ensures var end := EndTime(old(t2), now);
              var call := Ending("", Sub(end, t1), initCompleted && !serveFinished);
              && Valid() && model == old(model).End(call) && t1 == old(t1)
              && message == old(model).Message(call)
              && (message.Some? ==> message.value.variant == old(variant))
              && (message.Some? && Fits(end - t1) ==> t1 + message.value.dur == end)
    {
      if ended { return None; }
      ended := true;
      VariantRoundTrip(model.begunAs, "");
      model := model.End(Ending("", Sub(EndTime(t2, now), t1), initCompleted && !serveFinished));
      message := AfterAndSubmit(initCompleted, serveFinished, now);
    }

    /** `A2`. */
    method A2(ending: string, initCompleted: bool, serveFinished: bool, now: int) returns (message: Option<Sample>)
      requires Valid()
      modifies this
      ensures var end := EndTime(old(t2), now);
              var call := Ending(ending, Sub(end, t1), initCompleted && !serveFinished);
              && Valid() && model == old(model).End(call) && t1 == old(t1)
              && message == old(model).Message(call)
              && (message.Some? && Fits(end - t1) ==> t1 + message.value.dur == end)
      ensures message.Some? && old(variant) != "" && ending != "" ==>
                message.value.variant == old(variant) + "," + ending
      ensures message.Some? && ending == "" ==> message.value.variant == old(variant)
      ensures message.Some? && old(variant) == "" ==> message.value.variant == ending
    {
      if ended { return None; }
      ended := true;
      model := model.End(Ending(ending, Sub(EndTime(t2, now), t1), initCompleted && !serveFinished));
      VariantRoundTrip(variant, ending);
      if variant != "" && ending != "" {
        variant := variant + ",";
      }
      variant := variant + ending;
      message := AfterAndSubmit(initCompleted, serveFinished, now);
    }
  }
}
