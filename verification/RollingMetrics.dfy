/** The rolling metrics window on values: live counters, the buckets kept, and those pruned. */
module RollingMetrics {
  import opened Wrappers

  datatype Timing = Timing(count: nat, totalMs: real, maxMs: real)

  datatype Counters = Counters(
    messages: map<string, int>, bytes: map<string, int>, timings: map<string, Timing>,
    streams: map<string, int>, agents: map<string, int>, frames: map<string, int>)

  datatype Bucket = Bucket(counters: Counters, endedAt: int)

  datatype Report = Report(windowMs: int, bucketCount: nat, final: bool, aggregate: Counters)

  /** `pruned` remembers the buckets that were dropped. */
  datatype Metrics = Metrics(
    live: Counters, retained: seq<Bucket>, pruned: seq<Bucket>, windowMs: int, startedAt: int, reports: seq<Report>)

  const NOTHING := Counters(map[], map[], map[], map[], map[], map[])
  const DEFAULT_ROLLING_WINDOW_MS := 60000

  datatype StreamEvent = Timeline(item: string) | Other(kind: string)

  datatype Op =
    | Message(kind: string, bytes: int, handlerMs: real)
    | AgentStream(agentId: string, event: StreamEvent)
    | BinaryFrame(kind: string, bytes: int, handlerMs: real)
    | Flush(now: int, final: bool)

  function Get(m: map<string, int>, key: string): int {
    if key in m then m[key] else 0
  }

  function GetTiming(m: map<string, Timing>, key: string): Option<Timing> {
    if key in m then Some(m[key]) else None
  }

  function Max(a: real, b: real): real {
    if a >= b then a else b
  }

  function Combine(a: Timing, b: Timing): Timing {
    Timing(a.count + b.count, a.totalMs + b.totalMs, Max(a.maxMs, b.maxMs))
  }

  /** Timings add up, with None as the timing of nothing. */
  function Plus(a: Option<Timing>, b: Option<Timing>): Option<Timing> {
    if a.None? then b else if b.None? then a else Some(Combine(a.value, b.value))
  }

  function Single(handlerMs: real): Timing {
    Timing(1, handlerMs, handlerMs)
  }

  function Increment(m: map<string, int>, key: string, amount: int): map<string, int> {
    m[key := Get(m, key) + amount]
  }

  function IncrementTiming(m: map<string, Timing>, key: string, handlerMs: real): map<string, Timing> {
    m[key := if key in m then Combine(m[key], Single(handlerMs)) else Single(handlerMs)]
  }

  function MergeCounts(target: map<string, int>, source: map<string, int>): map<string, int> {
    map key | key in target.Keys + source.Keys :: Get(target, key) + Get(source, key)
  }

  function MergeTimings(target: map<string, Timing>, source: map<string, Timing>): map<string, Timing> {
    map key | key in target.Keys + source.Keys :: Plus(GetTiming(target, key), GetTiming(source, key)).value
  }

  function Merge(a: Counters, b: Counters): Counters {
    Counters(MergeCounts(a.messages, b.messages), MergeCounts(a.bytes, b.bytes), MergeTimings(a.timings, b.timings),
             MergeCounts(a.streams, b.streams), MergeCounts(a.agents, b.agents), MergeCounts(a.frames, b.frames))
  }

  function NewMetrics(startedAt: int, windowMs: Option<int>): Metrics {
    Metrics(NOTHING, [], [],
            if windowMs.Some? && windowMs.value > 0 then windowMs.value else DEFAULT_ROLLING_WINDOW_MS, startedAt, [])
  }

  function EventType(e: StreamEvent): string {
    match e
    case Timeline(item) => "timeline:" + item
    case Other(kind) => kind
  }

  function RecordMessage(c: Counters, kind: string, bytes: int, handlerMs: real): Counters {
    c.(messages := Increment(c.messages, kind, 1), bytes := Increment(c.bytes, kind, bytes),
       timings := IncrementTiming(c.timings, kind, handlerMs))
  }

  function RecordAgentStream(c: Counters, agentId: string, event: StreamEvent): Counters {
    c.(streams := Increment(c.streams, EventType(event), 1), agents := Increment(c.agents, agentId, 1))
  }

  function RecordBinaryFrame(c: Counters, kind: string, bytes: int, handlerMs: real): Counters {
    c.(frames := Increment(c.frames, kind, 1), bytes := Increment(c.bytes, "binary:" + kind, bytes),
       timings := IncrementTiming(c.timings, "binary:" + kind, handlerMs))
  }

  predicate HasActivity(c: Counters) {
    c.messages != map[] || c.frames != map[]
  }

  function Consume(m: Metrics, now: int): Metrics {
    if HasActivity(m.live) then m.(live := NOTHING, retained := m.retained + [Bucket(m.live, now)]) else m
  }

  function Prune(m: Metrics, cutoff: int): Metrics
    decreases |m.retained|
  {
    if m.retained != [] && m.retained[0].endedAt < cutoff then
      Prune(m.(retained := m.retained[1..], pruned := m.pruned + [m.retained[0]]), cutoff)
    else m
  }

  function Aggregate(buckets: seq<Bucket>): Counters {
    if buckets == [] then NOTHING
    else Merge(Aggregate(buckets[..|buckets| - 1]), buckets[|buckets| - 1].counters)
  }

  function ReportWindow(m: Metrics, now: int): int {
    var age := if now - m.startedAt > 0 then now - m.startedAt else 0;
    if m.windowMs < age then m.windowMs else age
  }

  /** What a flush reports: nothing, when no bucket is left and it is not the final one. */
  function Reported(m: Metrics, now: int, final: bool, aggregate: Counters): seq<Report> {
    if HasActivity(aggregate) || final then [Report(ReportWindow(m, now), |m.retained|, final, aggregate)] else []
  }

  function FlushMetrics(m: Metrics, now: int, final: bool): Metrics {
    var t := Prune(Consume(m, now), now - m.windowMs);
    t.(reports := t.reports + Reported(t, now, final, Aggregate(t.retained)))
  }

  function Step(m: Metrics, op: Op): Metrics {
    match op
    case Message(kind, bytes, handlerMs) => m.(live := RecordMessage(m.live, kind, bytes, handlerMs))
    case AgentStream(agentId, event) => m.(live := RecordAgentStream(m.live, agentId, event))
    case BinaryFrame(kind, bytes, handlerMs) => m.(live := RecordBinaryFrame(m.live, kind, bytes, handlerMs))
    case Flush(now, final) => FlushMetrics(m, now, final)
  }

  function Run(m: Metrics, ops: seq<Op>): Metrics {
    if ops == [] then m else Step(Run(m, ops[..|ops| - 1]), ops[|ops| - 1])
  }

  // ---------------------------------------------------------------- counting by key

  datatype Field = MessageCounts | MessageBytes | StreamCounts | AgentCounts | FrameCounts

  function Count(c: Counters, f: Field, key: string): int {
    match f
    case MessageCounts => Get(c.messages, key)
    case MessageBytes => Get(c.bytes, key)
    case StreamCounts => Get(c.streams, key)
    case AgentCounts => Get(c.agents, key)
    case FrameCounts => Get(c.frames, key)
  }

  function CountIn(buckets: seq<Bucket>, f: Field, key: string): int {
    if buckets == [] then 0
    else CountIn(buckets[..|buckets| - 1], f, key) + Count(buckets[|buckets| - 1].counters, f, key)
  }

  function TimingIn(buckets: seq<Bucket>, key: string): Option<Timing> {
    if buckets == [] then None
    else Plus(TimingIn(buckets[..|buckets| - 1], key), GetTiming(buckets[|buckets| - 1].counters.timings, key))
  }

  /** The reference: what one call adds to a counter. */
  function Amount(op: Op, f: Field, key: string): int {
    match op
    case Message(kind, bytes, _) =>
      if key != kind then 0 else if f == MessageCounts then 1 else if f == MessageBytes then bytes else 0
    case AgentStream(agentId, event) =>
      if (f == StreamCounts && key == EventType(event)) || (f == AgentCounts && key == agentId) then 1 else 0
    case BinaryFrame(kind, bytes, _) =>
      if f == FrameCounts && key == kind then 1
      else if f == MessageBytes && key == "binary:" + kind then bytes else 0
    case Flush(_, _) => 0
  }

  function Recorded(ops: seq<Op>, f: Field, key: string): int {
    if ops == [] then 0 else Recorded(ops[..|ops| - 1], f, key) + Amount(ops[|ops| - 1], f, key)
  }

  function Duration(op: Op, key: string): Option<Timing> {
    match op
    case Message(kind, _, handlerMs) => if key == kind then Some(Single(handlerMs)) else None
    case BinaryFrame(kind, _, handlerMs) => if key == "binary:" + kind then Some(Single(handlerMs)) else None
    case _ => None
  }

  function RecordedTiming(ops: seq<Op>, key: string): Option<Timing> {
    if ops == [] then None else Plus(RecordedTiming(ops[..|ops| - 1], key), Duration(ops[|ops| - 1], key))
  }

  lemma PlusAssociative(a: Option<Timing>, b: Option<Timing>, c: Option<Timing>)
    ensures Plus(Plus(a, b), c) == Plus(a, Plus(b, c))
  {}

  lemma {:induction false} InAppend(a: seq<Bucket>, b: seq<Bucket>, f: Field, key: string)
    ensures CountIn(a + b, f, key) == CountIn(a, f, key) + CountIn(b, f, key)
    ensures TimingIn(a + b, key) == Plus(TimingIn(a, key), TimingIn(b, key))
    decreases |b|
  {
    if b == [] {
      assert a + b == a;
    } else {
      assert (a + b)[..|a + b| - 1] == a + b[..|b| - 1];
      InAppend(a, b[..|b| - 1], f, key);
      PlusAssociative(TimingIn(a, key), TimingIn(b[..|b| - 1], key), GetTiming(b[|b| - 1].counters.timings, key));
      hide Plus, Count;
    }
  }

  // ---------------------------------------------------------------- conservation

  /** Every bucket there ever was, oldest first. */
  function All(m: Metrics): seq<Bucket> {
    m.pruned + m.retained
  }

  lemma {:induction false} PruneMoves(m: Metrics, cutoff: int)
    ensures var t := Prune(m, cutoff);
            && All(t) == All(m) && m.pruned <= t.pruned && t.live == m.live
            && t.windowMs == m.windowMs && t.startedAt == m.startedAt && t.reports == m.reports
            && (t.retained != [] ==> t.retained[0].endedAt >= cutoff)
            && (forall i | |m.pruned| <= i < |t.pruned| :: t.pruned[i].endedAt < cutoff)
    decreases |m.retained|
  {
    if m.retained != [] && m.retained[0].endedAt < cutoff {
      var m' := m.(retained := m.retained[1..], pruned := m.pruned + [m.retained[0]]);
      PruneMoves(m', cutoff);
      assert All(m') == All(m);
    }
  }

  /** A flush only moves counts: out of the live counters into a new bucket, and buckets out of the window. */
  lemma FlushMoves(m: Metrics, now: int, final: bool)
    ensures var t := FlushMetrics(m, now, final);
            && All(t) == All(Consume(m, now)) && t.live == Consume(m, now).live && t.windowMs == m.windowMs
            && All(t) == All(m) + (if HasActivity(m.live) then [Bucket(m.live, now)] else [])
            && t.live == (if HasActivity(m.live) then NOTHING else m.live)
  {
    PruneMoves(Consume(m, now), now - m.windowMs);
    hide Prune, Aggregate, HasActivity;
    assert m.pruned + (m.retained + [Bucket(m.live, now)]) == All(m) + [Bucket(m.live, now)];
    assert All(m) + [] == All(m);
  }

  lemma StepCounts(m: Metrics, op: Op, f: Field, key: string)
    ensures CountIn(All(Step(m, op)), f, key) + Count(Step(m, op).live, f, key) ==
              CountIn(All(m), f, key) + Count(m.live, f, key) + Amount(op, f, key)
  {
    if op.Flush? {
      FlushMoves(m, op.now, op.final);
      InAppend(All(m), [Bucket(m.live, op.now)], f, key);
      CountOfOne(m.live, op.now, f, key);
      assert All(m) + [] == All(m);
      hide FlushMetrics, CountIn, Count, HasActivity;
    } else {
      hide All, CountIn, EventType;
    }
  }

  lemma CountOfOne(c: Counters, now: int, f: Field, key: string)
    ensures CountIn([Bucket(c, now)], f, key) == Count(c, f, key) && Count(NOTHING, f, key) == 0
  {
    assert [Bucket(c, now)][..0] == [];
  }

  lemma StepTimings(m: Metrics, op: Op, key: string)
    ensures Plus(TimingIn(All(Step(m, op)), key), GetTiming(Step(m, op).live.timings, key)) ==
              Plus(Plus(TimingIn(All(m), key), GetTiming(m.live.timings, key)), Duration(op, key))
  {
    var before, live := TimingIn(All(m), key), GetTiming(m.live.timings, key);
    PlusAssociative(before, live, Duration(op, key));
    if op.Flush? {
      FlushMoves(m, op.now, op.final);
      InAppend(All(m), [Bucket(m.live, op.now)], MessageCounts, key);
      assert TimingIn([Bucket(m.live, op.now)], key) == Plus(TimingIn([], key), live) by {
        assert [Bucket(m.live, op.now)][..0] == [];
      }
      assert All(m) + [] == All(m);
      hide FlushMetrics, TimingIn;
    } else {
      assert GetTiming(Step(m, op).live.timings, key) == Plus(live, Duration(op, key));
      hide Plus, TimingIn;
    }
  }

  /** Conservation: for every key, live, kept and pruned counts together are what was recorded. */
  lemma {:induction false} Conservation(startedAt: int, windowMs: Option<int>, ops: seq<Op>, f: Field, key: string)
    ensures var m := Run(NewMetrics(startedAt, windowMs), ops);
            Count(m.live, f, key) + CountIn(m.retained, f, key) + CountIn(m.pruned, f, key) == Recorded(ops, f, key)
    decreases |ops|
  {
    var m := Run(NewMetrics(startedAt, windowMs), ops);
    if ops != [] {
      var front := ops[..|ops| - 1];
      var before := Run(NewMetrics(startedAt, windowMs), front);
      Conservation(startedAt, windowMs, front, f, key);
      StepCounts(before, ops[|ops| - 1], f, key);
      InAppend(before.pruned, before.retained, f, key);
    }
    InAppend(m.pruned, m.retained, f, key);
    hide Step, Count, Amount;
  }

  /** The same for handler timings: number, total and maximum. */
  lemma {:induction false} TimingConservation(startedAt: int, windowMs: Option<int>, ops: seq<Op>, key: string)
    ensures var m := Run(NewMetrics(startedAt, windowMs), ops);
            Plus(Plus(TimingIn(m.pruned, key), TimingIn(m.retained, key)), GetTiming(m.live.timings, key)) ==
              RecordedTiming(ops, key)
    decreases |ops|
  {
    var m := Run(NewMetrics(startedAt, windowMs), ops);
    if ops != [] {
      var front := ops[..|ops| - 1];
      var before := Run(NewMetrics(startedAt, windowMs), front);
      TimingConservation(startedAt, windowMs, front, key);
      StepTimings(before, ops[|ops| - 1], key);
      InAppend(before.pruned, before.retained, MessageCounts, key);
    }
    InAppend(m.pruned, m.retained, MessageCounts, key);
    hide Step, Duration;
  }

  lemma Recording(m: Metrics, kind: string, bytes: int, handlerMs: real)
    ensures HasActivity(RecordMessage(m.live, kind, bytes, handlerMs))
  {
    assert kind in RecordMessage(m.live, kind, bytes, handlerMs).messages;
  }

  lemma RunSnoc(m: Metrics, ops: seq<Op>, op: Op)
    ensures Run(m, ops + [op]) == Step(Run(m, ops), op)
  {
    assert (ops + [op])[..|ops|] == ops;
  }

  // ---------------------------------------------------------------- the aggregate

  lemma MergeCountsBy(a: Counters, b: Counters, f: Field, key: string)
    ensures Count(Merge(a, b), f, key) == Count(a, f, key) + Count(b, f, key)
    ensures GetTiming(Merge(a, b).timings, key) == Plus(GetTiming(a.timings, key), GetTiming(b.timings, key))
  {}

  /** The aggregate is, by key, the sum and the maximum over the buckets. */
  lemma {:induction false} AggregateIsSum(buckets: seq<Bucket>, f: Field, key: string)
    ensures Count(Aggregate(buckets), f, key) == CountIn(buckets, f, key)
    ensures GetTiming(Aggregate(buckets).timings, key) == TimingIn(buckets, key)
    decreases |buckets|
  {
    if buckets != [] {
      AggregateIsSum(buckets[..|buckets| - 1], f, key);
      MergeCountsBy(Aggregate(buckets[..|buckets| - 1]), buckets[|buckets| - 1].counters, f, key);
      hide Merge, Count, Plus;
    }
  }

  lemma {:induction false} ActivityOfAggregate(buckets: seq<Bucket>)
    ensures HasActivity(Aggregate(buckets)) <==> exists i :: 0 <= i < |buckets| && HasActivity(buckets[i].counters)
    decreases |buckets|
  {
    if buckets != [] {
      var front, last := buckets[..|buckets| - 1], buckets[|buckets| - 1];
      ActivityOfAggregate(front);
      ActivityOfMerge(Aggregate(front), last.counters);
      assert Aggregate(buckets) == Merge(Aggregate(front), last.counters);
      hide HasActivity, Merge, Aggregate;
      if HasActivity(Merge(Aggregate(front), last.counters)) {
        if HasActivity(last.counters) {
          assert HasActivity(buckets[|buckets| - 1].counters);
        } else {
          var i :| 0 <= i < |front| && HasActivity(front[i].counters);
          assert HasActivity(buckets[i].counters);
        }
      }
    }
  }

  lemma EmptyMerge(a: map<string, int>, b: map<string, int>)
    ensures MergeCounts(a, b) == map[] <==> a == map[] && b == map[]
  {
    assert forall key :: key in MergeCounts(a, b) <==> key in a || key in b;
    if a != map[] {
      var key :| key in a;
      assert key in MergeCounts(a, b);
    }
    if b != map[] {
      var key :| key in b;
      assert key in MergeCounts(a, b);
    }
  }

  lemma ActivityOfMerge(a: Counters, b: Counters)
    ensures HasActivity(Merge(a, b)) <==> HasActivity(a) || HasActivity(b)
  {
    EmptyMerge(a.messages, b.messages);
    EmptyMerge(a.frames, b.frames);
    hide MergeCounts;
  }

  lemma {:induction false} BucketsAreActive(m: Metrics, ops: seq<Op>)
    requires m.retained == [] == m.pruned
    ensures forall i | 0 <= i < |All(Run(m, ops))| :: HasActivity(All(Run(m, ops))[i].counters)
    decreases |ops|
  {
    if ops != [] {
      var before, op := Run(m, ops[..|ops| - 1]), ops[|ops| - 1];
      BucketsAreActive(m, ops[..|ops| - 1]);
      if op.Flush? {
        FlushMoves(before, op.now, op.final);
      }
      hide FlushMetrics, RecordMessage, RecordAgentStream, RecordBinaryFrame, HasActivity;
      var all := All(Step(before, op));
      assert all == All(before) ||
             (op.Flush? && HasActivity(before.live) && all == All(before) + [Bucket(before.live, op.now)]);
      forall i | 0 <= i < |all|
        ensures HasActivity(all[i].counters)
      {
        if i < |All(before)| {
          assert all[i] == All(before)[i];
        }
      }
    }
  }

  /** In every run a flush reports exactly when it is the final one or a bucket is in the window. */
  lemma ReportsIff(startedAt: int, windowMs: Option<int>, ops: seq<Op>, now: int, final: bool)
    ensures var m := Run(NewMetrics(startedAt, windowMs), ops);
            var t := FlushMetrics(m, now, final);
            && (t.reports == m.reports <==> !final && t.retained == [])
            && (t.reports != m.reports ==>
                  |t.reports| == |m.reports| + 1 && t.reports[|m.reports|].aggregate == Aggregate(t.retained))
  {
    var m0 := NewMetrics(startedAt, windowMs);
    var m := Run(m0, ops);
    var t := FlushMetrics(m, now, final);
    BucketsAreActive(m0, ops + [Flush(now, final)]);
    RunSnoc(m0, ops, Flush(now, final));
    assert forall i | 0 <= i < |t.retained| :: t.retained[i] == All(t)[|t.pruned| + i];
    hide Run, HasActivity;
    if t.retained != [] {
      assert HasActivity(t.retained[0].counters);
    }
    FlushReports(m, now, final);
    hide FlushMetrics;
  }

  lemma FlushReports(m: Metrics, now: int, final: bool)
    ensures var t := FlushMetrics(m, now, final);
            && (t.reports == m.reports <==>
                  !final && forall i | 0 <= i < |t.retained| :: !HasActivity(t.retained[i].counters))
            && (t.reports != m.reports ==>
                  |t.reports| == |m.reports| + 1 && t.reports[|m.reports|].aggregate == Aggregate(t.retained))
  {
    var t := Prune(Consume(m, now), now - m.windowMs);
    PruneMoves(Consume(m, now), now - m.windowMs);
    ActivityOfAggregate(t.retained);
    hide Prune, Aggregate, HasActivity;
    assert forall r: Report :: |t.reports + [r]| == |t.reports| + 1;
  }

  /** Agent streams alone are no activity: a flush empties the live counters unless there is nothing else in them. */
  lemma StreamsWait(m: Metrics, now: int, final: bool)
    ensures FlushMetrics(m, now, final).live == NOTHING <==> HasActivity(m.live) || m.live == NOTHING
  {
    FlushMoves(m, now, final);
    hide FlushMetrics, HasActivity;
  }
}
