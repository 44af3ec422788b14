/** Every run, seen from its end: between two messages the state of the server is what the sequential loop computes for
    the messages received so far, and so are all replies and all files, whatever the clients did in between. */
module Serialization {
  import opened Options
  import opened Aggregate
  import opened Reports
  import opened Protocol
  import opened Invariants
  import opened Calls
  import opened Progress
  import opened ServeLoop
  import opened Atomicity
  import opened ReportFiles

  /** The first n messages. */
  function Queue(sent: seq<Sent>, n: nat): (q: seq<Msg>)
    requires n <= |sent|
    ensures |q| == n && forall i :: 0 <= i < n ==> q[i] == sent[i].msg
  {
    seq(n, i requires 0 <= i < n && n <= |sent| => sent[i].msg)
  }

  /** What the outside decided while message p was handled, read off what the run left behind. */
  ghost function EnvAt(s: Sys, p: nat): Env
    requires p < |s.effects| <= |s.sent|
  {
    match s.sent[p].msg
    case Report(_) =>
      if HasFile(s.reports, p) && s.effects[p] != [] then
        var r :| 0 <= r < |s.reports| && s.reports[r].pos == p;
        Env(Choice(true, s.reports[r].mode, []), s.effects[p][0].dur)
      else
        Env(NO_CHOICE, 0)
    case Benchmarks(_) => Env(Choice(false, Mode(false, false), s.effects[p]), 0)
    case _ => Env(NO_CHOICE, 0)
  }

  ghost function EnvsOf(s: Sys, n: nat): (envs: seq<Env>)
    requires n <= |s.effects| <= |s.sent|
    ensures |envs| == n && forall i :: 0 <= i < n ==> envs[i] == EnvAt(s, i)
  {
    if n == 0 then [] else EnvsOf(s, n - 1) + [EnvAt(s, n - 1)]
  }

  lemma EffectIsOf(s: Sys, p: nat)
    requires EffectsOk(s) && FiledOk(s) && p < |s.effects|
    ensures EffectOf(s.sent[p].msg, EnvAt(s, p)) == s.effects[p] && EnvOk(EnvAt(s, p))
  {
  }

  lemma EffectsAreOf(s: Sys, n: nat)
    requires EffectsOk(s) && FiledOk(s) && n <= |s.effects|
    ensures Effects(Queue(s.sent, n), EnvsOf(s, n)) == s.effects[..n]
    ensures forall i :: 0 <= i < n ==> EnvOk(EnvsOf(s, n)[i])
  {
    forall i | 0 <= i < n
      ensures EffectOf(Queue(s.sent, n)[i], EnvsOf(s, n)[i]) == s.effects[i] && EnvOk(EnvsOf(s, n)[i])
    {
      EffectIsOf(s, i);
    }
  }

  lemma PrefixesOf(s: Sys, m: nat, n: nat)
    requires m <= n <= |s.effects| <= |s.sent|
    ensures Queue(s.sent, n)[..m] == Queue(s.sent, m) && EnvsOf(s, n)[..m] == EnvsOf(s, m)
  {
  }

  /** The state in which message m was received. */
  lemma StateBeforeIs(s: Sys, m: nat, n: nat)
    requires EffectsOk(s) && FiledOk(s) && m <= n <= |s.effects|
    ensures StateBefore(InitState(s.initSpans), Queue(s.sent, n), EnvsOf(s, n), m) ==
            Sequential(s.initSpans, s.effects[..m])
  {
    PrefixesOf(s, m, n);
    EffectsAreOf(s, m);
    ApplyIsAfter(s.initSpans, Flatten(s.effects[..m]));
  }

  /** What the sequential loop leaves for the messages received. */
  ghost function Serial(s: Sys): (h: seq<Handled>)
    requires |s.effects| <= |s.sent|
    ensures |h| == |s.effects|
  {
    var n := |s.effects|;
    AllHandled(InitState(s.initSpans), Queue(s.sent, n), EnvsOf(s, n), n)
  }

  lemma SerialAt(s: Sys, p: nat)
    requires EffectsOk(s) && FiledOk(s) && p < |s.effects|
    ensures var before := Sequential(s.initSpans, s.effects[..p]);
            Serial(s)[p] == Handled(ReplyTo(before, s.sent[p].msg), FileOf(before, s.sent[p].msg, EnvAt(s, p)))
  {
    StateBeforeIs(s, p, |s.effects|);
  }

  // ---- Files ----

  /** What message p has left is its file among reports, if it has one there. */
  ghost predicate LeftAt(reports: seq<Written>, p: nat, left: seq<Written>) {
    && (forall r :: 0 <= r < |reports| && reports[r].pos == p ==> left == [reports[r]])
    && (!HasFile(reports, p) ==> left == [])
  }

  /** All that the first m messages have left. */
  function Left(left: nat -> seq<Written>, m: nat): seq<Written> {
    if m == 0 then [] else Left(left, m - 1) + left(m - 1)
  }

  ghost predicate Increasing(reports: seq<Written>) {
    forall r, q :: 0 <= r < q < |reports| ==> reports[r].pos < reports[q].pos
  }

  /** The first k files are those of the first m messages. */
  ghost predicate FirstFiles(reports: seq<Written>, m: nat, k: nat) {
    && k <= |reports| && k <= m
    && (forall r :: 0 <= r < k ==> reports[r].pos < m)
    && (forall r :: k <= r < |reports| ==> reports[r].pos >= m)
  }

  lemma {:induction false} PlaceAtLeast(reports: seq<Written>, r: nat)
    requires Increasing(reports) && r < |reports|
    ensures reports[r].pos >= r
  {
    if r > 0 {
      PlaceAtLeast(reports, r - 1);
    }
  }

  lemma OneMessageBack(reports: seq<Written>, m: nat, k: nat)
    requires Increasing(reports) && FirstFiles(reports, m + 1, k)
    ensures if k > 0 && reports[k - 1].pos == m then FirstFiles(reports, m, k - 1)
            else FirstFiles(reports, m, k) && !HasFile(reports, m)
  {
    if k > 0 {
      PlaceAtLeast(reports, k - 1);
    }
  }

  /** What the first m messages have left is their files. */
  lemma {:induction false} FilesUpTo(left: nat -> seq<Written>, reports: seq<Written>, n: nat, m: nat, k: nat)
    requires m <= n && Increasing(reports) && FirstFiles(reports, m, k)
    requires forall p :: 0 <= p < n ==> LeftAt(reports, p, left(p))
    ensures Left(left, m) == reports[..k]
  {
    if m > 0 {
      OneMessageBack(reports, m - 1, k);
      assert LeftAt(reports, m - 1, left(m - 1));
      if k > 0 && reports[k - 1].pos == m - 1 {
        FilesUpTo(left, reports, n, m - 1, k - 1);
        assert reports[..k] == reports[..k - 1] + [reports[k - 1]];
      } else {
        FilesUpTo(left, reports, n, m - 1, k);
      }
    }
  }

  /** What the messages of a run have left. */
  ghost function LeftBy(s: Sys): nat -> seq<Written>
    requires |s.effects| <= |s.sent|
  {
    var handled, envs := Serial(s), EnvsOf(s, |s.effects|);
    (p: nat) => if p < |handled| then FileAt(p, handled[p].file, envs[p]) else []
  }

  lemma {:induction false} FilesAreLeft(handled: seq<Handled>, envs: seq<Env>, left: nat -> seq<Written>, m: nat)
    requires m <= |handled| <= |envs|
    requires forall p :: 0 <= p < |handled| ==> left(p) == FileAt(p, handled[p].file, envs[p])
    ensures FilesOf(0, handled[..m], envs) == Left(left, m)
  {
    if m == 0 {
      assert handled[..0] == [];
    } else {
      FilesAreLeft(handled, envs, left, m - 1);
      assert handled[..m][..m - 1] == handled[..m - 1];
    }
  }

  lemma FileIsLeft(s: Sys, p: nat)
    requires EffectsOk(s) && ReportsOk(s) && FiledOk(s) && p < |s.effects|
    ensures LeftAt(s.reports, p, LeftBy(s)(p))
  {
    SerialAt(s, p);
    forall r | 0 <= r < |s.reports| && s.reports[r].pos == p ensures LeftBy(s)(p) == [s.reports[r]] {
      FileThere(s, p, r);
    }
  }

  lemma FileThere(s: Sys, p: nat, r: nat)
    requires ReportsOk(s) && FiledOk(s) && r < |s.reports| && s.reports[r].pos == p < |s.effects|
    ensures var before := Sequential(s.initSpans, s.effects[..p]);
            FileAt(p, FileOf(before, s.sent[p].msg, EnvAt(s, p)), EnvAt(s, p)) == [s.reports[r]]
  {
    assert ReportOk(s, s.reports[r]);
    EnvOfFile(s, p, r);
  }

  lemma EnvOfFile(s: Sys, p: nat, r: nat)
    requires ReportsOk(s) && r < |s.reports| && s.reports[r].pos == p < |s.effects|
    requires s.sent[p].msg.Report? && |s.effects[p]| == 1
    ensures EnvAt(s, p) == Env(Choice(true, s.reports[r].mode, []), s.effects[p][0].dur)
  {
  }

  // ---- The theorem ----

  /** Outcome o is, if it is an answer, the reply of the sequential loop. */
  ghost predicate SerialAnswer(s: Sys, o: Outcome)
    requires |s.effects| <= |s.sent|
  {
    o.Answered? ==> o.pos < |s.effects| && Serial(s)[o.pos].reply == Some(o.reply)
  }

  /** So is a reply that its client has yet to take. */
  ghost predicate SerialReply(s: Sys, w: Client)
    requires |s.effects| <= |s.sent|
  {
    w.Waiting? && w.reply.Some? ==> w.pos < |s.effects| && Serial(s)[w.pos].reply == w.reply
  }

  lemma RightIsSerial(s: Sys, p: nat, r: ReplyMsg)
    requires EffectsOk(s) && FiledOk(s) && p < |s.effects| && s.sent[p].msg.IsRequest() && RightReply(s, p, r)
    ensures Serial(s)[p].reply == Some(r)
  {
    SerialAt(s, p);
  }

  lemma AnswersAreSerial(s: Sys, l: nat)
    requires Sound(s) && FiledOk(s) && l < |s.log|
    ensures SerialAnswer(s, s.log[l])
  {
    assert OutcomeOk(s, s.log[l]);
    if s.log[l].Answered? {
      RightIsSerial(s, s.log[l].pos, s.log[l].reply);
    }
  }

  lemma RepliesAreSerial(s: Sys, c: nat)
    requires Sound(s) && FiledOk(s) && c < |s.clients|
    ensures SerialReply(s, s.clients[c])
  {
    if s.clients[c].Waiting? && s.clients[c].reply.Some? {
      assert WaitingOk(s, c);
      RightIsSerial(s, s.clients[c].pos, s.clients[c].reply.value);
    }
  }

  /** In every reachable state in which the server is between two messages: its aggregator, what each message added, all
      files and all replies are what the sequential loop computes for the messages received, in their order. */
  lemma EveryRunIsSerial(s: Sys)
    requires Reachable(s) && s.initDone && !s.server.Busy()
    ensures |s.effects| <= |s.sent|
    ensures var n := |s.effects|;
            var queue, envs := Queue(s.sent, n), EnvsOf(s, n);
            && s.agg == StateBefore(InitState(s.initSpans), queue, envs, n)
            && (forall i :: 0 <= i < n ==> EnvOk(envs[i])) && s.effects == Effects(queue, envs)
            && s.reports == FilesOf(0, Serial(s), envs)
    ensures forall l :: 0 <= l < |s.log| ==> SerialAnswer(s, s.log[l])
    ensures forall c :: 0 <= c < |s.clients| ==> SerialReply(s, s.clients[c])
  {
    ReachableIsSound(s);
    ReachableIsFiled(s);
    SerialState(s);
    forall l | 0 <= l < |s.log| ensures SerialAnswer(s, s.log[l]) {
      AnswersAreSerial(s, l);
    }
    forall c | 0 <= c < |s.clients| ensures SerialReply(s, s.clients[c]) {
      RepliesAreSerial(s, c);
    }
  }

  lemma SerialState(s: Sys)
    requires StateOk(s) && EffectsOk(s) && ReportsOk(s) && FiledOk(s) && s.initDone
    ensures var n := |s.effects|;
            var queue, envs := Queue(s.sent, n), EnvsOf(s, n);
            && s.agg == StateBefore(InitState(s.initSpans), queue, envs, n)
            && (forall i :: 0 <= i < n ==> EnvOk(envs[i])) && s.effects == Effects(queue, envs)
            && s.reports == FilesOf(0, Serial(s), envs)
  {
    var n := |s.effects|;
    assert s.effects[..n] == s.effects;
    StateBeforeIs(s, n, n);
    EffectsAreOf(s, n);
    SerialFiles(s);
  }

  lemma SerialFiles(s: Sys)
    requires EffectsOk(s) && ReportsOk(s) && FiledOk(s)
    ensures s.reports == FilesOf(0, Serial(s), EnvsOf(s, |s.effects|))
  {
    var n := |s.effects|;
    assert s.reports[..|s.reports|] == s.reports && Serial(s)[..n] == Serial(s);
    forall p | 0 <= p < n ensures LeftAt(s.reports, p, LeftBy(s)(p)) {
      FileIsLeft(s, p);
    }
    forall r | 0 <= r < |s.reports| ensures s.reports[r].pos < n {
      assert ReportOk(s, s.reports[r]);
    }
    if s.reports != [] {
      PlaceAtLeast(s.reports, |s.reports| - 1);
    }
    FilesUpTo(LeftBy(s), s.reports, n, n, |s.reports|);
    FilesAreLeft(Serial(s), EnvsOf(s, n), LeftBy(s), n);
  }
}
