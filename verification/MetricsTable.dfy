/** What the metrics hold, against the list of what was recorded. */
module MetricsTable {
  import opened Wrappers
  import opened RollingMetrics

  // ---------------------------------------------------------------- timings

  /** The durations recorded for a key, in order. */
  function Durations(ops: seq<Op>, key: string): seq<real> {
    if ops == [] then [] else Durations(ops[..|ops| - 1], key) + DurationOf(ops[|ops| - 1], key)
  }

  function Total(ds: seq<real>): real {
    if ds == [] then 0.0 else Total(ds[..|ds| - 1]) + ds[|ds| - 1]
  }

  /** A timing that describes durations: their number, their sum, and the longest of them. */
  ghost predicate Describes(t: Timing, ds: seq<real>) {
    && t.count == |ds| && t.totalMs == Total(ds)
    && t.maxMs in ds && forall d | d in ds :: d <= t.maxMs
  }

  /** The same where there may be nothing to describe. */
  ghost predicate Sums(t: Option<Timing>, ds: seq<real>) {
    if ds == [] then t == None else t.Some? && Describes(t.value, ds)
  }

  lemma BothSum(a: Option<Timing>, b: Option<Timing>, ds: seq<real>, es: seq<real>)
    requires Sums(a, ds) && Sums(b, es)
    ensures Sums(Plus(a, b), ds + es)
  {
    hide Describes;
    assert ds + [] == ds && [] + es == es;
    if ds != [] && es != [] {
      BothDescribe(a.value, b.value, ds, es);
    }
  }

  lemma BothDescribe(a: Timing, b: Timing, ds: seq<real>, es: seq<real>)
    requires Describes(a, ds) && Describes(b, es)
    ensures Describes(Combine(a, b), ds + es)
  {
    TotalAppend(ds, es);
    hide Total;
  }

  lemma {:induction false} TotalAppend(ds: seq<real>, es: seq<real>)
    ensures Total(ds + es) == Total(ds) + Total(es)
    decreases |es|
  {
    if es == [] {
      assert ds + es == ds;
    } else {
      assert (ds + es)[..|ds + es| - 1] == ds + es[..|es| - 1];
      TotalAppend(ds, es[..|es| - 1]);
    }
  }

  function DurationOf(op: Op, key: string): seq<real> {
    match op
    case Message(kind, _, handlerMs) => if key == kind then [handlerMs] else []
    case BinaryFrame(kind, _, handlerMs) => if key == "binary:" + kind then [handlerMs] else []
    case _ => []
  }

  lemma DurationSums(op: Op, key: string)
    ensures Sums(Duration(op, key), DurationOf(op, key))
  {
    if DurationOf(op, key) != [] {
      assert DurationOf(op, key)[..0] == [];
    }
  }

  lemma {:induction false} RecordedDurations(ops: seq<Op>, key: string)
    ensures Sums(RecordedTiming(ops, key), Durations(ops, key))
    decreases |ops|
  {
    hide Sums, Plus, DurationOf, Duration;
    if ops == [] {
      NothingSums();
    } else {
      var n := |ops| - 1;
      RecordedDurations(ops[..n], key);
      DurationSums(ops[n], key);
      BothSum(RecordedTiming(ops[..n], key), Duration(ops[n], key), Durations(ops[..n], key), DurationOf(ops[n], key));
    }
  }

  lemma NothingSums()
    ensures Sums(None, [])
  {}

  /** Over every run: the timings held, kept and pruned together describe the durations recorded. */
  lemma TimingsDescribe(startedAt: int, windowMs: Option<int>, ops: seq<Op>, key: string)
    ensures var m := Run(NewMetrics(startedAt, windowMs), ops);
      Sums(Plus(Plus(TimingIn(m.pruned, key), TimingIn(m.retained, key)), GetTiming(m.live.timings, key)),
           Durations(ops, key))
  {
    TimingConservation(startedAt, windowMs, ops, key);
    RecordedDurations(ops, key);
    hide *;
  }

  /** The durations of several buckets, end to end. */
  function Concat(parts: seq<seq<real>>): seq<real> {
    if parts == [] then [] else Concat(parts[..|parts| - 1]) + parts[|parts| - 1]
  }

  /** The timing of each bucket describes its durations; without any there is no timing. */
  ghost predicate EachSums(buckets: seq<Bucket>, key: string, parts: seq<seq<real>>) {
    |parts| == |buckets| &&
    forall i | 0 <= i < |buckets| :: Sums(GetTiming(buckets[i].counters.timings, key), parts[i])
  }

  /** The aggregate describes the durations of all its buckets. */
  lemma AggregateSums(buckets: seq<Bucket>, key: string, parts: seq<seq<real>>)
    requires EachSums(buckets, key, parts)
    ensures Sums(GetTiming(Aggregate(buckets).timings, key), Concat(parts))
  {
    AggregateIsSum(buckets, MessageCounts, key);
    BucketsSum(buckets, key, parts);
    hide *;
  }

  lemma {:induction false} BucketsSum(buckets: seq<Bucket>, key: string, parts: seq<seq<real>>)
    requires EachSums(buckets, key, parts)
    ensures Sums(TimingIn(buckets, key), Concat(parts))
    decreases |buckets|
  {
    hide Sums, Plus, GetTiming;
    if buckets == [] {
      NothingSums();
    } else {
      var n := |buckets| - 1;
      BucketsSum(buckets[..n], key, parts[..n]);
      BothSum(TimingIn(buckets[..n], key), GetTiming(buckets[n].counters.timings, key), Concat(parts[..n]), parts[n]);
    }
  }

  // ---------------------------------------------------------------- counts

  function Added(op: Op, f: Field, key: string): int {
    match f
    case MessageCounts => if op.Message? && op.kind == key then 1 else 0
    case FrameCounts => if op.BinaryFrame? && op.kind == key then 1 else 0
    case AgentCounts => if op.AgentStream? && op.agentId == key then 1 else 0
    case StreamCounts =>
      if !op.AgentStream? then 0
      else if op.event.Timeline? then (if key == "timeline:" + op.event.item then 1 else 0)
      else if key == op.event.kind then 1 else 0
    case MessageBytes =>
      if op.Message? && op.kind == key then op.bytes
      else if op.BinaryFrame? && "binary:" + op.kind == key then op.bytes else 0
  }

  function Sum(ops: seq<Op>, f: Field, key: string): int {
    if ops == [] then 0 else Sum(ops[..|ops| - 1], f, key) + Added(ops[|ops| - 1], f, key)
  }

  lemma {:induction false} RecordedIsSum(ops: seq<Op>, f: Field, key: string)
    ensures Recorded(ops, f, key) == Sum(ops, f, key)
    decreases |ops|
  {
    if ops != [] {
      RecordedIsSum(ops[..|ops| - 1], f, key);
    }
  }

  // ---------------------------------------------------------------- buckets and reports

  /** A message or a frame has been recorded since the last flush. */
  predicate SomethingSince(ops: seq<Op>) {
    ops != [] &&
    match ops[|ops| - 1]
    case Message(_, _, _) => true
    case BinaryFrame(_, _, _) => true
    case AgentStream(_, _) => SomethingSince(ops[..|ops| - 1])
    case Flush(_, _) => false
  }

  lemma {:induction false} ActiveIffSomething(startedAt: int, windowMs: Option<int>, ops: seq<Op>)
    ensures HasActivity(Run(NewMetrics(startedAt, windowMs), ops).live) <==> SomethingSince(ops)
    decreases |ops|
  {
    if ops != [] {
      var n := |ops| - 1;
      ActiveIffSomething(startedAt, windowMs, ops[..n]);
      ActiveStep(Run(NewMetrics(startedAt, windowMs), ops[..n]), ops[n]);
    }
  }

  lemma ActiveStep(m: Metrics, op: Op)
    ensures HasActivity(Step(m, op).live) <==>
              op.Message? || op.BinaryFrame? || (op.AgentStream? && HasActivity(m.live))
  {
    match op
    case Message(kind, bytes, handlerMs) => assert kind in Step(m, op).live.messages;
    case BinaryFrame(kind, bytes, handlerMs) => assert kind in Step(m, op).live.frames;
    case AgentStream(_, _) =>
    case Flush(now, final) => FlushMoves(m, now, final);
  }

  /** Over every run: a flush makes a bucket exactly when a message or a frame came since the flush before. */
  lemma BucketIffSomething(startedAt: int, windowMs: Option<int>, ops: seq<Op>, now: int, final: bool)
    ensures var m := Run(NewMetrics(startedAt, windowMs), ops);
      var t := Step(m, Flush(now, final));
      t.pruned + t.retained ==
        m.pruned + m.retained + if SomethingSince(ops) then [Bucket(m.live, now)] else []
  {
    ActiveIffSomething(startedAt, windowMs, ops);
    FlushMoves(Run(NewMetrics(startedAt, windowMs), ops), now, final);
    hide FlushMetrics, Run, HasActivity;
  }

  lemma {:induction false} SettingsStay(m: Metrics, ops: seq<Op>)
    ensures Run(m, ops).windowMs == m.windowMs && Run(m, ops).startedAt == m.startedAt
    decreases |ops|
  {
    if ops != [] {
      var before, op := Run(m, ops[..|ops| - 1]), ops[|ops| - 1];
      SettingsStay(m, ops[..|ops| - 1]);
      if op.Flush? {
        PruneMoves(Consume(before, op.now), op.now - before.windowMs);
      }
    }
  }

  /** The window: the given one when it is positive, else a minute. */
  function Window(windowMs: Option<int>): int {
    if windowMs.Some? && windowMs.value > 0 then windowMs.value else 60000
  }

  function Least(a: int, b: int): int {
    if a <= b then a else b
  }

  /** Over every run: what a flush reports, field by field. */
  lemma ReportIs(startedAt: int, windowMs: Option<int>, ops: seq<Op>, now: int, final: bool)
    ensures var m := Run(NewMetrics(startedAt, windowMs), ops);
      var t := Step(m, Flush(now, final));
      if t.retained == [] && !final then t.reports == m.reports
      else
        && |t.reports| == |m.reports| + 1 && t.reports[..|m.reports|] == m.reports
        && var r := t.reports[|m.reports|];
           && r.final == final && r.bucketCount == |t.retained| && r.aggregate == Aggregate(t.retained)
           && r.windowMs == if now <= startedAt then 0 else Least(Window(windowMs), now - startedAt)
  {
    var m0 := NewMetrics(startedAt, windowMs);
    var m := Run(m0, ops);
    SettingsStay(m0, ops);
    ReportsIff(startedAt, windowMs, ops, now, final);
    FlushReport(m, now, final);
    hide Run, FlushMetrics;
  }

  lemma FlushReport(m: Metrics, now: int, final: bool)
    ensures var t := FlushMetrics(m, now, final);
      t.reports != m.reports ==>
        t.reports == m.reports + [Report(ReportWindow(m, now), |t.retained|, final, Aggregate(t.retained))]
  {
    PruneMoves(Consume(m, now), now - m.windowMs);
    hide Prune, Aggregate, HasActivity;
    assert m.reports + [] == m.reports;
  }
}
