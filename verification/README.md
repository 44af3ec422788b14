# LatLearn: a verified model

LatLearn is a Go library that learns the latency of code spans. Client goroutines open a span with `B` and end it with
`A` or `A2`; the finished sample goes down a bounded channel to one goroutine, `serve`, which owns every statistic. The
same channel carries the requests for values, for a report, for benchmarks, and the request to stop. Everything cited
below is in `latlearn/latlearn.go`.

The model has four layers over one vocabulary of samples, statistics and keys.

**The sequential aggregator** (`Stats`, `SpanKeys`, `Aggregate`, `TrackedSpans`, `Builtins`, `Confluence`, `Families`).
One learner is a fold of `after2` over int64 durations, with the wrap-around of Go's addition and its truncating
division written out. The map of learners and the index `tracked_spans` are a fold of `handle_ssu_A` over a history of
samples. An independent account of that fold looks at the samples only: which key was first mentioned as a name or as
the key of a variant, which samples are therefore accepted, and what each learner holds. From it follow the exact
conditions under which handling order does not matter and under which span families are conserved.

**The heap** (`Learners`, `ServeLoop`, `SpanSamples`, `NumberGrouping`). Learners are objects that are updated in place,
a variant embeds one and points at its parent's, and the map owns them. Every handler, the report's row loop and the
`serve` loop are methods over that heap, each proved to compute the function of the first layer. The proof needs, and
keeps, that no two keys share an object and that a variant's parent is the learner held under the parent's name.

**The protocol** (`Protocol`, `Invariants`, `Calls`). Any number of clients and the server are a transition system.
A call is split into its check of `init_completed` and `Serve_finished`, its send (which blocks while the queue is
full) and its wait for the reply. A report is written row by row, benchmark samples are taken one by one, and a stop is
received in one step and `Serve_finished` set in a later one. Any interleaving is a run.

**Whole runs** (`Schedules`, `Linearizability`, `Submissions`, `ReportFiles`, `Atomicity`, `Serialization`, `Shutdown`,
`Progress`, `Fairness`, `OnceOnly`, `SelfSampling`). For every run: each call puts its own message on the queue and
returns once, in order, with what it asked on record; answers are those of the sequential aggregator at the place of
their request on the queue; submitted samples are counted as often as they were submitted; a report shows one state,
and its rows are told by the samples; what happens around a stop; who can be left waiting; that the server never blocks
and, scheduled fairly, answers every request with no stop before it and lets every sender through; that a span is sent
at most once; and what self-sampling has sent when it returns. `Serialization.EveryRunIsSerial` and
`Atomicity.QueueIsServed` tie the granular server, in both directions, to the state, replies and files that
`ServeLoop.Serve` computes over the heap.

## Where the code differs from what one would expect

Each of these is a lemma that gives the exact condition, or a concrete input.

- A name that holds a `(` can collide with the key of a variant. A sample is dropped exactly when its variant is not
  empty and its key was first mentioned as a bare name (`Aggregate.AcceptsIsAcceptedAt`); then the order of messages
  decides what is counted (`Confluence.ConfluenceExact`, `Confluence.OrderCanMatter`) and a family can lose a member
  (`Families.FamilyCanLeak`; `Families.FamilyExact` says when it cannot). Which names can collide at all is
  `SpanKeys.KeysCollide`. Names without `(` and without the prefix `LL.` never meet this.
- When the true sum of a span leaves int64, the mean can leave the range of the samples (`Stats.MeanOutOfRange`), and
  does exactly when the stored sum says so (`Stats.MeanInRange`). The stored sum is right again as soon as the true sum
  fits (`Stats.CumulExact`). The mean of a compensated row can then exceed what it should show
  (`Reports.CompensatedMeanExact`, `Reports.CompensatedMeanCanExceed`).
- With overhead subtraction on and no estimate, the sentinel -1 shifts last, max and mean by +1 and leaves min. For
  non-negative samples whose sum fits, the order of a row survives unless the largest int64 is among them
  (`Reports.RowOrderWhenSumFits`; `Reports.RowOrderForDurations` for any sum, `Reports.RowOrderExact` for samples and
  overheads of any size). The row of `LL.no-op` writes min raw beside compensated figures, so its last can be below its
  min (`Reports.OverheadRow` gives the condition, `Reports.OverheadRowCanInvert` an input).
- `number_grouped` counts a minus sign as a digit (-123 becomes `-,123`: `NumberGrouping.GroupedNegative`) and writes a
  separator of several characters in reverse (`NumberGrouping.NumberGrouped`; `NumberGrouping.GroupedReversed` says when
  that shows).
- A call that passes its check and sends after `serve` has received a stop never returns
  (`Shutdown.LateSendStrands`, `Shutdown.LateCallCanHang`).
- `Report` returns true even when the report file could not be created; the reply says no more than that the message was
  handled (`ServeLoop.HandleCommMsg`).

## Model

| member | source | states |
|---|---|---|
| Int64.WrapAbsorbs | latlearn/latlearn.go:452 | a chain of wrapped additions loses nothing that one wrap of the true sum would keep |
| Int64.TruncDivBounds | latlearn/latlearn.go:738 | Go's truncating division by a positive weight keeps a quotient between bounds that hold for the dividend, negative or not |
| Int64.TruncDivExact | latlearn/latlearn.go:738 | exactly when the truncated quotient is at least, or at most, a given number, said without the division |
| Stats.StatsMeaning | latlearn/latlearn.go:444-465 | after any samples: weight is their number, cumul their wrapped sum, last the last one, min and max attained bounds, completed exactly when there is one |
| Stats.CumulExact | latlearn/latlearn.go:452 | the stored sum is congruent to the true one modulo 2^64, and equal exactly when the true one is an int64 |
| Stats.StatsOrdered | latlearn/latlearn.go:444-465 | while the sum fits: min <= last <= max, weight*min <= cumul <= weight*max, min <= mean <= max, for samples of any sign |
| Stats.MeanInRange | latlearn/latlearn.go:733-741 | for any samples, overflow or not: the mean is at least the minimum, and at most the maximum, exactly when the stored sum keeps a bound given by weight and extreme |
| Stats.MeanOutOfRange | latlearn/latlearn.go:733-741 | two samples whose sum overflows have a mean below both; a third can bring the mean back into range although the sum still overflows |
| Stats.OrderIrrelevant | latlearn/latlearn.go:444-465 | every figure but last depends on the bag of samples only |
| SpanKeys.KeyRoundTrip | latlearn/latlearn.go:178-183 | splitting at the first `(`, with a `)` required at the end, inverts the key printer exactly for names without `(` |
| SpanKeys.KeysDistinct | latlearn/latlearn.go:178-183 | distinct (name, variant) pairs have distinct keys when no name holds a `(` |
| SpanKeys.KeysCollide | latlearn/latlearn.go:178-183 | two names form the same key for some different (name, variant) pairs exactly when one of them begins with the other and a `(` |
| SpanSamples.Sub | latlearn/latlearn.go:189 | the duration of a sample: added to the begin time it gives the end time exactly when the difference is an int64, else it is the nearer end of int64; it is negative exactly when the clock ran backwards |
| SpanSamples.VariantRoundTrip | latlearn/latlearn.go:515-518 | splitting a combined variant at its first comma gives its two parts back exactly when the first holds no comma and is not missing before a second one; a missing part leaves no comma |
| Aggregate.HandleAt | latlearn/latlearn.go:186-215 | one sample seen from one key: who is created as what, an existing kind never changes, and exactly the keys of an accepted sample are fed |
| Aggregate.KindsAfter | latlearn/latlearn.go:151-176 | after any history the entries are the mentioned keys, each of the kind of its first mention |
| Aggregate.AcceptsIsAcceptedAt | latlearn/latlearn.go:197-199 | the running drop test is: variant not empty and its key first mentioned as a bare name |
| Aggregate.StatsAfter | latlearn/latlearn.go:186-215 | the learner at every key is the `after2` fold, in order, of the accepted samples meant for that key |
| TrackedSpans.IndexAfter | latlearn/latlearn.go:189-211 | after any history the index lists exactly the keys of the map, begins with the Init list, and goes on with new, distinct keys |
| TrackedSpans.IndexOnlyGrows | latlearn/latlearn.go:195-211 | an earlier index is a prefix of every later one |
| TrackedSpans.IndexDuplicates | latlearn/latlearn.go:384-388 | the index repeats a key exactly when the Init list did |
| Builtins.BuiltinsFacts | latlearn/latlearn.go:349-370 | the 31 built-in spans are distinct and carry the reserved prefix |
| Builtins.RowsDistinct | latlearn/latlearn.go:372-388 | after Init2 and any samples the index repeats nothing exactly when the Init2 list is duplicate-free and names no built-in span |
| Confluence.ConfluenceExact | latlearn/latlearn.go:186-215 | every order of a bag of samples ends with the same keys and figures (last aside) if and only if no key outside the Init list is used both as a name and as the key of a variant |
| Confluence.ClashShows | latlearn/latlearn.go:186-215 | a clash always shows: two orders of the same samples leave different weights at the longest clashing key |
| Confluence.NothingDropped | latlearn/latlearn.go:186-215 | under the naming rule (no `(`, no `LL.` prefix) no sample of any history is dropped |
| Confluence.AppSamplesConfluent | latlearn/latlearn.go:186-215 | under the naming rule handling order is irrelevant |
| Confluence.OrderCanMatter | latlearn/latlearn.go:197-199 | after Init2, a plain sample and a variant that forms its name: their order decides whether the variant is counted |
| Confluence.BuiltinsAside | latlearn/latlearn.go:186-215 | under the naming rule keys, and figures at spans that are not built in, depend only on the bag of the samples that are not of built-in spans |
| Families.ParentAfter | latlearn/latlearn.go:202 | in every history the parent of a variant is the name of the last accepted sample that formed its key |
| Families.FamilyExplained | latlearn/latlearn.go:191-205 | in every history the entries pointing at a parent are the keys whose last accepted former has its name |
| Families.FamilyConserved | latlearn/latlearn.go:186-213 | when no accepted sample of another name feeds the parent or a key of its variants: its weight and sum are its default-path samples plus the sums over its variants, its min and max the extremes of the same parts |
| Families.FamilyExact | latlearn/latlearn.go:186-213 | that condition is exact: conservation holds for all durations of the same samples if and only if it does |
| Families.DisciplinedApart | latlearn/latlearn.go:186-213 | under the naming rule it holds for every name that is not itself the key of a variant |
| Families.FormersPrecede | latlearn/latlearn.go:189-205 | in every history a variant comes after the span that first formed its key, in the index and so in a report |
| Families.ParentsPrecede | latlearn/latlearn.go:189-205 | a parent that no stranger interferes with comes before all of its family |
| Families.FamilyCanLeak | latlearn/latlearn.go:202 | after Init2, two variants of different spans that form the same key leave the first span's family without it |
| Learners.LatencyLearner.After2 | latlearn/latlearn.go:444-465 | the in-place update is the step of the statistics fold |
| Learners.LatencyLearner.Mean | latlearn/latlearn.go:733-741 | the truncated mean, or -1 without samples |
| Learners.Aggregator.LearnerOf | latlearn/latlearn.go:151-161 | finds or creates the learner of a key; no other entry moves |
| Learners.Aggregator.VariantLearnerOf | latlearn/latlearn.go:164-176 | finds or creates the variant learner of a key; nil exactly when the key is held as plain |
| Learners.Aggregator.HandleVariant | latlearn/latlearn.go:191-206 | the variant half updates parent and variant, or nothing, exactly as the specification says |
| Learners.Aggregator.HandleSsuA | latlearn/latlearn.go:186-215 | the heap after a sample is the specification's state; the result says whether the sample was accepted; no two keys come to share an object |
| Learners.Aggregator.Init | latlearn/latlearn.go:345-388 | Init leaves a plain empty learner for each listed and built-in span, and the index in list order |
| SpanSamples.AtMostOneMessage | latlearn/latlearn.go:501-520 | of any sequence of ending calls only the first can send, and only if it finds the library open; the message has the variant and the time of that call |
| SpanSamples.SpanSampleUnderway.A | latlearn/latlearn.go:501-506 | ends the sample on its default path: the message, if any, keeps the variant of the beginning, and its duration leads from the begin time to the end time whenever the difference is an int64 |
| SpanSamples.SpanSampleUnderway.A2 | latlearn/latlearn.go:508-520 | ends the sample as a variant: joined by a comma to that of the beginning, or alone if there was none; the duration as for A |
| SpanSamples.SpanSampleUnderway.AfterAndSubmit | latlearn/latlearn.go:487-499 | a message exactly when initialised and not finished, with the duration from begin to end time; an end time that is set is kept |
| Reports.PlainRow | latlearn/latlearn.go:803-853 | a row is empty exactly without samples; without subtraction it shows the attained min and max, the last, the truncated mean and the number of samples |
| Reports.RowOrderExact | latlearn/latlearn.go:803-842 | for any samples and overhead, in all modes: exactly when the written row is in order, by the extremes and the last of the samples and the stored sum |
| Reports.RowOrderForDurations | latlearn/latlearn.go:803-842 | the same for non-negative samples, whatever their sum, and an estimate or the sentinel: only an overflow that takes the mean too far down, or the sentinel against the largest int64, can put the row out of order |
| Reports.RowOrderWhenSumFits | latlearn/latlearn.go:803-842 | when besides the true sum fits int64, only the sentinel against the largest int64 can |
| Reports.CompensationMeaning | latlearn/latlearn.go:792-842 | for any non-negative samples a compensated row shows min, last, max and weight of a learner fed max(0, d-o); while the true sum fits, its mean never exceeds that learner's and equals it when no sample is below o |
| Reports.CompensatedMeanExact | latlearn/latlearn.go:824-829 | for any sums: the row's mean never exceeds the fed learner's exactly unless that learner's stored sum has wrapped to a negative mean or the subtraction underflows; and exactly when the two are equal |
| Reports.CompensatedMeanCanExceed | latlearn/latlearn.go:824-829 | four samples of 2^62 with an overhead of 1: the row shows 0, the learner fed without it has -1 |
| Reports.OverheadTells | latlearn/latlearn.go:555-571 | the estimate is the smallest accepted sample of `LL.no-op`, or -1 |
| Reports.OverheadRow | latlearn/latlearn.go:803-842 | the row of `LL.no-op` after any history: min raw, last and max less the estimate and never clamped, the mean clamped only when overflow took it below min; and exactly when that row is in order |
| Reports.OverheadRowCanInvert | latlearn/latlearn.go:808-816 | after any Init2, a single sample of `LL.no-op` writes a last below its min |
| NumberGrouping.ReverseStringArray | latlearn/latlearn.go:749-758 | the loop reverses its input |
| NumberGrouping.InsertSeparators | latlearn/latlearn.go:775-782 | the insertion loop over reversed characters builds the reversed grouped text |
| NumberGrouping.NumberGrouped | latlearn/latlearn.go:762-789 | split, reverse, insert, reverse and join give the decimal text with a separator before every full group of three from the right |
| NumberGrouping.GroupedIsBaseThousand | latlearn/latlearn.go:762-789 | that text is base-1000 notation: g(v/1000), separator, three padded digits |
| NumberGrouping.GroupedNumber | latlearn/latlearn.go:762-789 | for v >= 0: stripping the separator and parsing gives v back, the length is d + (d-1)/3, and it fits 15 characters exactly below 10^12 |
| NumberGrouping.GroupedNegative | latlearn/latlearn.go:769-782 | below zero the sign counts as a digit |
| NumberGrouping.GroupedReversed | latlearn/latlearn.go:784-786 | for v >= 0 the text is base-1000 notation with the separator as given exactly when v is below 1000 or the separator reads the same backwards |
| ServeLoop.HandleMsgValues | latlearn/latlearn.go:223-277 | the reply built from the learner object is the answer of the aggregator's state; -1 in every figure without an entry |
| ServeLoop.MeasureOverheadEstimate | latlearn/latlearn.go:555-571 | the estimate is the minimum of `LL.no-op`, or -1 |
| ServeLoop.ReportRow | latlearn/latlearn.go:803-853 | one row of figures, as the row function says |
| ServeLoop.WriteRows | latlearn/latlearn.go:1018-1026 | the loop writes, in index order, one row for every tracked span, or without built-ins for every one that does not begin with `LL.`; its unguarded lookup always finds an entry |
| ServeLoop.ReportInner | latlearn/latlearn.go:905-1029 | all rows show the state before the report; its own sample is added after them |
| ServeLoop.HandleCommMsg | latlearn/latlearn.go:302-313 | state, reply, file and stop flag of each kind of message |
| ServeLoop.Serve | latlearn/latlearn.go:316-328 | the loop handles a queue in order up to the first stop, every reply and file being that of the state made by the messages before it |
| ServeLoop.InitAndServe | latlearn/latlearn.go:339-407 | started by Init, the heap ends as the fold of all samples over the Init list |
| Calls.StepKeepsSound | latlearn/latlearn.go:316-328 | every step of client or server keeps the invariants on queue, state, requests, replies and reports |
| Calls.ReplyChannelHasRoom | latlearn/latlearn.go:1071-1079 | when the server has a reply, its one-place channel is empty and its owner waits at it |
| Schedules.InitSettles | latlearn/latlearn.go:390-398 | whatever runs beside it, Init takes effect once: the queue ends with the capacity asked for, or 100 if that is less, and the Init list is the given one followed by the built-in spans |
| Schedules.CallsReturnInOrder | latlearn/latlearn.go:1032-1110 | in every run each client returns from its calls in the order it made them, from each once, with what it asked on record; what is missing is the call it is in |
| Schedules.OutcomeTells | latlearn/latlearn.go:487-520 | what a client logs after a call is the outcome of that call, begun when it was made; and it was refused exactly when made before Init, after `Serve_finished` (self-sampling aside), or to end a span that had ended |
| Schedules.NextSend | latlearn/latlearn.go:1032-1110 | what a client puts on the queue next after a call, or a turn of self-sampling, is the message of it: the request it made, or the sample with name, variant and duration of the ending |
| Linearizability.ValuesLinearizable | latlearn/latlearn.go:1065-1084 | in every interleaving the message behind an answered `Report`, `Benchmarks` or `Values` call is that request, and lies between begin and end of the call; a values reply is the sequential answer, for the span asked for, after exactly the messages sent before it |
| Linearizability.AnswerTells | latlearn/latlearn.go:223-277 | an answer told by samples alone: weight, wrapped sum, last, attained min and max and truncated mean of the accepted samples meant for the key, or -1 everywhere for a key never mentioned |
| Linearizability.ValuesFigures | latlearn/latlearn.go:1065-1084 | every reply to a `Values` call in every run tells just that of the samples put on the queue before its request |
| Linearizability.AnswersOnlyGrow | latlearn/latlearn.go:1065-1084 | of two answers for one span whose calls do not overlap the later has no smaller weight, no larger min and no smaller max |
| Submissions.SubmittedIsSeen | latlearn/latlearn.go:487-499 | for any test on samples: the history behind an answer holds at least as many that pass as calls had submitted and returned from before the asking call began |
| Linearizability.ReportIsSnapshot | latlearn/latlearn.go:899-1030 | every report file shows the one state made by the messages before its request, and its own sample lands right after |
| ReportFiles.AnsweredReportIsFiled | latlearn/latlearn.go:1032-1060 | an answered `Report` call has left exactly one file and the report's own sample, or neither; an answered `Values` or `Benchmarks` call no file |
| ReportFiles.FileRowsListed | latlearn/latlearn.go:1023-1026 | in every run the rows of a file are those of the spans tracked before its request, in index order: all of them when built-ins are reported, else those that do not begin with `LL.` |
| ReportFiles.FileRowsTell | latlearn/latlearn.go:1018-1026 | in every run each row of a file tells the accepted samples of its span before the request: as they are; with subtraction, non-negative ones as a learner fed without the overhead, which is the smallest accepted sample of `LL.no-op`; the row of `LL.no-op` itself with all but min less min; and without an estimate with all but min shifted by one |
| Linearizability.ReportUndisturbed | latlearn/latlearn.go:280-288 | while rows are written no step of anybody else changes state, index, row position or reports, and no other report begins |
| Linearizability.ReportTimesItself | latlearn/latlearn.go:1028 | when a report is done its duration is fed to `LL.lat-report`, and no other span changes |
| Reports.RowsPlaced | latlearn/latlearn.go:1023-1026 | the rows of a state: one for each tracked span, or without built-ins for each that does not begin with `LL.`, in index order and with the figures of its span |
| Linearizability.RowsMeaning | latlearn/latlearn.go:1023-1026 | after any history each of those rows tells the fold of the accepted samples meant for its span |
| Linearizability.RunsDropNothing | latlearn/latlearn.go:186-215 | in a run under the naming rule no sample is dropped, those the server takes itself included |
| Linearizability.RunsConserveFamilies | latlearn/latlearn.go:186-213 | in every reachable state a family that no stranger feeds is conserved |
| Linearizability.DisciplinedFamilies | latlearn/latlearn.go:186-213 | in a run under the naming rule that is every span but the variants |
| Submissions.RunsAreConfluent | latlearn/latlearn.go:186-215 | two such runs that received the same bag of client samples, whatever reports and benchmarks came between, agree on the keys and on all figures but last of every span that is not built in |
| Submissions.RunsAgreeAt | latlearn/latlearn.go:186-215 | they agree at any single span that the server does not feed itself, `LL.no-op` among them, for which they received the same bag of durations |
| Submissions.SubmittedIsCounted | latlearn/latlearn.go:487-499 | under the naming rule an answer's weight is at least the number of samples submitted for its span by calls that had returned, and each of them lies between its min and max |
| Atomicity.MessageIsAtomic | latlearn/latlearn.go:302-313 | the server's small steps for one message add up to handling it in one piece |
| Atomicity.QueueIsServed | latlearn/latlearn.go:316-328 | the granular server can serve any queue to just the state, replies and files of the sequential loop |
| Serialization.EveryRunIsSerial | latlearn/latlearn.go:316-328 | in every run, whatever clients interleave, whenever the server is between messages its state, all files and all replies are what the sequential loop computes for the messages received |
| Shutdown.HandledAheadOfStop | latlearn/latlearn.go:302-328 | the messages handled are exactly those queued ahead of the first stop |
| Shutdown.StoppedForGood | latlearn/latlearn.go:316-328 | once a stop is received no continuation changes a statistic, the index or a report |
| Shutdown.AnsweredAheadOfStop | latlearn/latlearn.go:1032-1084 | every request that was answered was queued ahead of the stop |
| Shutdown.StrandedExactly | latlearn/latlearn.go:1032-1084 | after the stop the callers waiting without a reply are exactly those whose request is behind it |
| Shutdown.StrandedForGood | latlearn/latlearn.go:1071-1079 | they wait for ever, in every continuation |
| Shutdown.WhoNeverReturns | latlearn/latlearn.go:1102-1110 | when nothing under way can move any more, every client is idle, stranded behind the stop, or blocked at a full queue |
| Shutdown.ClosedAfterFinish | latlearn/latlearn.go:1065-1110 | calls begun after `Serve_finished` are refused and send nothing |
| Shutdown.LateSendStrands | latlearn/latlearn.go:1069-1079 | a request sent after the stop was received strands its caller, whatever its check had found |
| Shutdown.LateCallCanHang | latlearn/latlearn.go:1069-1079 | such a run exists from every open state with an empty queue and two idle clients |
| Progress.QueueIsBoundedFifo | latlearn/latlearn.go:390-398 | the outer queue stays within its capacity and holds in order what was sent and not received; the inner queue is always empty |
| Progress.ServerNeverBlocks | latlearn/latlearn.go:316-328 | whenever the server has work its next step is enabled |
| Progress.NoDeadlock | latlearn/latlearn.go:316-328 | before a stop is received, a client in a call can move or the server can |
| Progress.ServerStepBringsNearer | latlearn/latlearn.go:316-328 | every server step answers a waiting client or brings it strictly nearer to its reply |
| Progress.ClientStepKeepsNear | latlearn/latlearn.go:1071-1079 | no step of a client pushes another one back |
| Progress.ServerAnswers | latlearn/latlearn.go:316-328 | left to itself the server answers every request with no stop ahead of it in finitely many steps |
| Fairness.EveryRequestIsAnswered | latlearn/latlearn.go:316-328 | in every infinite run in which the server is scheduled fairly, every request with no stop ahead of it gets its reply, whatever the other goroutines do |
| Fairness.EverySendGoesOut | latlearn/latlearn.go:492-497 | in such a run, as long as no stop is received, a client blocked at a full queue sends, if it is not passed over for ever while it could |
| Fairness.EveryCallReturns | latlearn/latlearn.go:1071-1079 | so where nobody sends a stop every request whose call has passed its check gets onto the queue and is answered |
| OnceOnly.AtMostOnce | latlearn/latlearn.go:501-520 | in every run a span instance has at most one message on the queue's history, with the variant and the duration of its first ending call |
| OnceOnly.SentExactly | latlearn/latlearn.go:487-520 | a span is on that history, or its owner is just about to put it there, exactly when its first ending call found the library open |
| OnceOnly.AllOrNothing | latlearn/latlearn.go:186-215 | handling a sample feeds the learners of all its keys or changes no statistic |
| SelfSampling.SelfSampleResult | latlearn/latlearn.go:522-552 | true means exactly n (1,000,000 for a negative n) `LL.no-op` messages were sent by the call; false a strict part of them, and that serve had finished |
| SelfSampling.FlagsTell | latlearn/latlearn.go:537-549 | in a run without overlapping calls the flags on return are started, finished, and aborted just when the result is false |

## Left out

- File creation and writing, header lines, environment and runtime queries, the mac host lines and context parameters: a
  report is a sequence of rows of figures, and whether its file could be created is left open.
- The time fraction of a row (floating point), the column widths (with the loop that finds the longest name) and other
  `fmt` formatting; `number_grouped` is modelled as text, the rows as figures.
- The clock: durations are arbitrary int64 values, instants arbitrary integers with the saturating `time.Sub`.
- What the benchmarks do: a benchmark run is any finite list of plain samples of built-in spans. The flags around it and
  `Serve_started` are not part of the state.
- `Weight` is unbounded: it would take 2^63 samples to overflow it.
- Go's memory model: shared flags are sequentially consistent, a span instance has one owner, and the exported settings
  hold still for the length of a report.
- `pair_underway`, which is only ever written false.
- `Init` is one step, its `sync.Once` being the condition that it happens once. `Overhead` is `Values` of `LL.no-op`,
  `Report2` is `Report` with parameters.
- Requests with a nil reply channel, which no exported function sends.
- The three self-sampling flags are set in one step at the start of the call, and together with the return at its end.
- Text is a sequence of characters; bytes and their encoding are not modelled, so the width of non-ASCII separators
  is not either.
- ServeLoop.Serve: takes a finite queue and ends when it is empty, where the source blocks for more; waiting for later
  messages is in the protocol.
- ServeLoop.InitAndServe: takes the same finite queue.
- ReportFiles.FileRowsTell: of a subtracting report, rows with negative samples, and rows under a negative estimate
  other than -1, are told by name and weight only; the subtraction is made for clocks that do not run backwards.
