/**
 The metrics class: counters, timing objects and the bucket list are changed in place. Each
 method is proved to be one step of RollingMetrics, with every timing object owned by one map.
 */
module RuntimeMetrics {
  import opened Wrappers
  import opened RollingMetrics
  import Spec = RollingMetrics

  class HandlerTiming {
    var count: nat
    var totalMs: real
    var maxMs: real

    constructor (count: nat, totalMs: real, maxMs: real)
      ensures Value() == Timing(count, totalMs, maxMs)
    {
      this.count, this.totalMs, this.maxMs := count, totalMs, maxMs;
    }

    ghost function Value(): Timing
      reads this
    {
      Timing(count, totalMs, maxMs)
    }

    method Add(count: nat, totalMs: real, maxMs: real)
      modifies this
      ensures Value() == Combine(old(Value()), Timing(count, totalMs, maxMs))
    {
      this.count := this.count + count;
      this.totalMs := this.totalMs + totalMs;
      this.maxMs := Max(this.maxMs, maxMs);
    }
  }

  type TimingMap = map<string, HandlerTiming>

  ghost function Timings(m: TimingMap): (r: map<string, Timing>)
    reads m.Values
    ensures r.Keys == m.Keys
  {
    map key | key in m :: m[key].Value()
  }

  /** No two keys share a timing object. */
  ghost predicate Separate(m: TimingMap) {
    forall j, k | j in m && k in m && j != k :: m[j] != m[k]
  }

  lemma SetTiming(m: TimingMap, key: string, timing: HandlerTiming)
    requires Separate(m) && timing !in m.Values && key !in m
    ensures Separate(m[key := timing]) && Timings(m[key := timing]) == Timings(m)[key := timing.Value()]
  {
    assert forall k | k in m :: m[k] != timing;
  }

  /** The existing object is changed in place, a missing one is made. */
  method AddTiming(m: TimingMap, key: string, t: Timing) returns (r: TimingMap)
    requires Separate(m)
    modifies m.Values
    ensures Separate(r) && forall k | k in r :: r[k] in m.Values || fresh(r[k])
    ensures Timings(r) == old(Timings(m))[key := if key in m then Combine(old(m[key].Value()), t) else t]
  {
    if key in m {
      assert forall k | k in m && k != key :: m[k] != m[key];
      m[key].Add(t.count, t.totalMs, t.maxMs);
      r := m;
    } else {
      var timing := new HandlerTiming(t.count, t.totalMs, t.maxMs);
      SetTiming(m, key, timing);
      r := m[key := timing];
    }
  }

  method IncrementHandlerTiming(m: TimingMap, key: string, handlerMs: real) returns (r: TimingMap)
    requires Separate(m)
    modifies m.Values
    ensures Separate(r) && forall k | k in r :: r[k] in m.Values || fresh(r[k])
    ensures Timings(r) == IncrementTiming(old(Timings(m)), key, handlerMs)
  {
    hide Separate, Combine;
    r := AddTiming(m, key, Single(handlerMs));
  }

  /** The copy has objects of its own. */
  method CloneHandlerTimingMap(m: TimingMap) returns (r: TimingMap)
    ensures Separate(r) && Timings(r) == Timings(m) && forall k | k in r :: fresh(r[k])
  {
    hide Separate;
    r := map[];
    NothingShared();
    var rest := m.Keys;
    while rest != {}
      invariant rest <= m.Keys && r.Keys == m.Keys - rest
      invariant Separate(r) && forall k | k in r :: fresh(r[k])
      invariant forall k | k in r :: Timings(r)[k] == Timings(m)[k]
      invariant Timings(m) == old(Timings(m))
      decreases |rest|
    {
      var key :| key in rest;
      var timing := new HandlerTiming(m[key].count, m[key].totalMs, m[key].maxMs);
      SetTiming(r, key, timing);
      r := r[key := timing];
      rest := rest - {key};
    }
  }

  lemma NothingShared()
    ensures Separate(map[])
  {}

  lemma NoKeyDone(keys: set<string>)
    ensures keys - keys == {}
  {}

  lemma OneKeyDone(keys: set<string>, rest: set<string>, key: string)
    requires key in rest && rest <= keys
    ensures keys - (rest - {key}) == keys - rest + {key}
  {}

  lemma AllKeysDone(keys: set<string>)
    ensures keys - {} == keys
  {}

  /** The merge of some of the source's keys into the target. */
  ghost function MergedTimings(target: map<string, Timing>, source: map<string, Timing>, done: set<string>):
      map<string, Timing>
    requires done <= source.Keys
  {
    map key | key in target.Keys + done ::
      if key !in done then target[key]
      else if key in target then Combine(target[key], source[key]) else source[key]
  }

  lemma MergeOneTiming(target: map<string, Timing>, source: map<string, Timing>, done: set<string>, key: string)
    requires done <= source.Keys && key in source && key !in done
    ensures var m := MergedTimings(target, source, done);
            m[key := if key in m then Combine(m[key], source[key]) else source[key]] ==
              MergedTimings(target, source, done + {key})
  {}

  lemma MergedAllTimings(target: map<string, Timing>, source: map<string, Timing>)
    ensures MergedTimings(target, source, {}) == target
    ensures MergedTimings(target, source, source.Keys) == MergeTimings(target, source)
  {}

  /** One entry of the source: added to the target's object, or copied into a new one. */
  method MergeEntry(m: TimingMap, source: TimingMap, key: string) returns (r: TimingMap)
    requires Separate(m) && key in source && m.Values !! source.Values
    modifies m.Values
    ensures Separate(r) && r.Values !! source.Values && Timings(source) == old(Timings(source))
    ensures forall k | k in r :: r[k] in m.Values || fresh(r[k])
    ensures var before, value := old(Timings(m)), old(Timings(source))[key];
            Timings(r) == before[key := if key in before then Combine(before[key], value) else value]
  {
    hide Separate, Combine;
    ghost var theirs := source.Values;
    var value := source[key];
    r := AddTiming(m, key, Timing(value.count, value.totalMs, value.maxMs));
    assert forall k | k in r :: r[k] !in theirs;
  }

  method MergeHandlerTimingMap(target: TimingMap, source: TimingMap) returns (r: TimingMap)
    requires Separate(target) && target.Values !! source.Values
    modifies target.Values
    ensures Separate(r) && forall k | k in r :: r[k] in target.Values || fresh(r[k])
    ensures Timings(r) == MergeTimings(old(Timings(target)), old(Timings(source)))
  {
    hide *;
    r := target;
    ghost var before, from := Timings(target), Timings(source);
    MergedAllTimings(before, from);
    var rest := source.Keys;
    NoKeyDone(rest);
    while rest != {}
      invariant rest <= source.Keys && r.Values !! source.Values
      invariant Separate(r) && forall k | k in r :: r[k] in target.Values || fresh(r[k])
      invariant Timings(source) == from
      invariant Timings(r) == MergedTimings(before, from, source.Keys - rest)
      decreases |rest|
    {
      var key :| key in rest;
      MergeOneTiming(before, from, source.Keys - rest, key);
      r := MergeEntry(r, source, key);
      OneKeyDone(source.Keys, rest, key);
      rest := rest - {key};
    }
    AllKeysDone(source.Keys);
  }

  /** The merge of some of the source's keys into the target. */
  ghost function MergedCounts(target: map<string, int>, source: map<string, int>, done: set<string>): map<string, int> {
    map key | key in target.Keys + done :: Get(target, key) + if key in done then Get(source, key) else 0
  }

  lemma MergeOneCount(target: map<string, int>, source: map<string, int>, done: set<string>, key: string)
    requires key in source && key !in done
    ensures Increment(MergedCounts(target, source, done), key, source[key]) ==
              MergedCounts(target, source, done + {key})
  {}

  lemma MergedAllCounts(target: map<string, int>, source: map<string, int>)
    ensures MergedCounts(target, source, {}) == target
    ensures MergedCounts(target, source, source.Keys) == MergeCounts(target, source)
  {}

  method MergeCountMap(target: map<string, int>, source: map<string, int>) returns (r: map<string, int>)
    ensures r == MergeCounts(target, source)
  {
    hide MergedCounts, MergeCounts, Increment;
    r := target;
    MergedAllCounts(target, source);
    var rest := source.Keys;
    NoKeyDone(rest);
    while rest != {}
      invariant rest <= source.Keys && r == MergedCounts(target, source, source.Keys - rest)
      decreases |rest|
    {
      var key :| key in rest;
      MergeOneCount(target, source, source.Keys - rest, key);
      OneKeyDone(source.Keys, rest, key);
      r := Increment(r, key, source[key]);
      rest := rest - {key};
    }
    AllKeysDone(source.Keys);
  }

  /** A bucket as the class keeps it: the timings are references. */
  datatype HeapBucket = HeapBucket(
    messages: map<string, int>, bytes: map<string, int>, timings: TimingMap,
    streams: map<string, int>, agents: map<string, int>, frames: map<string, int>, endedAt: int)

  ghost function CountersOf(b: HeapBucket): Counters
    reads b.timings.Values
  {
    Counters(b.messages, b.bytes, Timings(b.timings), b.streams, b.agents, b.frames)
  }

  ghost function ObjectsOf(buckets: seq<HeapBucket>): (r: set<HandlerTiming>)
    ensures forall i | 0 <= i < |buckets| :: buckets[i].timings.Values <= r
  {
    if buckets == [] then {} else buckets[0].timings.Values + ObjectsOf(buckets[1..])
  }

  lemma {:induction false} ObjectsExist(buckets: seq<HeapBucket>)
    ensures forall o | o in ObjectsOf(buckets) :: allocated(o)
    decreases |buckets|
  {
    if buckets != [] {
      ObjectsExist(buckets[1..]);
    }
  }

  ghost function BucketsOf(buckets: seq<HeapBucket>): (r: seq<Bucket>)
    reads ObjectsOf(buckets)
    ensures |r| == |buckets|
    ensures forall i | 0 <= i < |r| :: r[i] == Bucket(CountersOf(buckets[i]), buckets[i].endedAt)
  {
    if buckets == [] then [] else [Bucket(CountersOf(buckets[0]), buckets[0].endedAt)] + BucketsOf(buckets[1..])
  }

  lemma ShiftFirst(buckets: seq<HeapBucket>)
    requires buckets != []
    ensures BucketsOf(buckets)[1..] == BucketsOf(buckets[1..]) && ObjectsOf(buckets[1..]) <= ObjectsOf(buckets)
  {}

  lemma {:induction false} PushLast(buckets: seq<HeapBucket>, b: HeapBucket)
    ensures BucketsOf(buckets + [b]) == BucketsOf(buckets) + [Bucket(CountersOf(b), b.endedAt)]
    ensures ObjectsOf(buckets + [b]) == ObjectsOf(buckets) + b.timings.Values
    decreases |buckets|
  {
    if buckets == [] {
      assert [] + [b] == [b];
    } else {
      assert (buckets + [b])[1..] == buckets[1..] + [b];
      PushLast(buckets[1..], b);
    }
  }

  method MergeBucket(a: HeapBucket, b: HeapBucket) returns (r: HeapBucket)
    requires Separate(a.timings) && a.timings.Values !! b.timings.Values
    modifies a.timings.Values
    ensures Separate(r.timings) && forall k | k in r.timings :: r.timings[k] in a.timings.Values || fresh(r.timings[k])
    ensures CountersOf(r) == Merge(old(CountersOf(a)), old(CountersOf(b)))
  {
    hide Separate, MergeCounts, MergeTimings, Timings;
    var messages := MergeCountMap(a.messages, b.messages);
    var bytes := MergeCountMap(a.bytes, b.bytes);
    var timings := MergeHandlerTimingMap(a.timings, b.timings);
    var streams := MergeCountMap(a.streams, b.streams);
    var agents := MergeCountMap(a.agents, b.agents);
    var frames := MergeCountMap(a.frames, b.frames);
    r := HeapBucket(messages, bytes, timings, streams, agents, frames, a.endedAt);
  }

  class DaemonClientRuntimeMetrics {
    const startedAt: int
    const windowMs: int
    var buckets: seq<HeapBucket>
    var inboundMessageCounts: map<string, int>
    var inboundMessageBytes: map<string, int>
    var inboundMessageHandlerMs: TimingMap
    var inboundAgentStreamCounts: map<string, int>
    var inboundAgentStreamByAgentCounts: map<string, int>
    var inboundBinaryFrameCounts: map<string, int>
    var reports: seq<Report>
    ghost var pruned: seq<Bucket>

    /** The live timing objects belong to one key each, and to no bucket. */
    ghost predicate Valid()
      reads this
    {
      Separate(inboundMessageHandlerMs) && inboundMessageHandlerMs.Values !! ObjectsOf(buckets)
    }

    ghost function Live(): Counters
      reads this`inboundMessageCounts, this`inboundMessageBytes, this`inboundMessageHandlerMs,
            this`inboundAgentStreamCounts, this`inboundAgentStreamByAgentCounts, this`inboundBinaryFrameCounts
      reads inboundMessageHandlerMs.Values
    {
      Counters(inboundMessageCounts, inboundMessageBytes, Timings(inboundMessageHandlerMs),
               inboundAgentStreamCounts, inboundAgentStreamByAgentCounts, inboundBinaryFrameCounts)
    }

    ghost function Value(): Metrics
      reads this, inboundMessageHandlerMs.Values, ObjectsOf(buckets)
    {
      Metrics(Live(), BucketsOf(buckets), pruned, windowMs, startedAt, reports)
    }

    constructor (startedAt: int, windowMs: Option<int>)
      ensures Valid() && Value() == NewMetrics(startedAt, windowMs)
    {
      this.startedAt := startedAt;
      this.windowMs := if windowMs.Some? && windowMs.value > 0 then windowMs.value else DEFAULT_ROLLING_WINDOW_MS;
      buckets, reports, pruned := [], [], [];
      inboundMessageCounts, inboundMessageBytes, inboundMessageHandlerMs := map[], map[], map[];
      inboundAgentStreamCounts, inboundAgentStreamByAgentCounts, inboundBinaryFrameCounts := map[], map[], map[];
    }

    /** Changes the live timings and nothing that a bucket holds. */
    method IncrementTimings(key: string, handlerMs: real)
      requires Valid()
      modifies this`inboundMessageHandlerMs, inboundMessageHandlerMs.Values
      ensures Valid() && BucketsOf(buckets) == old(BucketsOf(buckets))
      ensures Timings(inboundMessageHandlerMs) == IncrementTiming(old(Timings(inboundMessageHandlerMs)), key, handlerMs)
    {
      hide Separate, IncrementTiming, Timings, BucketsOf, ObjectsOf;
      ghost var kept := ObjectsOf(buckets);
      ObjectsExist(buckets);
      var timings := IncrementHandlerTiming(inboundMessageHandlerMs, key, handlerMs);
      assert forall k | k in timings :: timings[k] !in kept;
      inboundMessageHandlerMs := timings;
    }

    method RecordMessage(kind: string, bytes: int, handlerMs: real)
      requires Valid()
      modifies this, inboundMessageHandlerMs.Values
      ensures Valid() && Value() == Step(old(Value()), Message(kind, bytes, handlerMs))
    {
      hide Separate, IncrementTiming, Increment, BucketsOf, ObjectsOf, Timings;
      inboundMessageCounts := Increment(inboundMessageCounts, kind, 1);
      inboundMessageBytes := Increment(inboundMessageBytes, kind, bytes);
      IncrementTimings(kind, handlerMs);
    }

    method RecordAgentStream(agentId: string, event: StreamEvent)
      requires Valid()
      modifies this
      ensures Valid() && Value() == Step(old(Value()), AgentStream(agentId, event))
    {
      hide Separate, Increment, BucketsOf, ObjectsOf, Timings;
      var eventType := EventType(event);
      inboundAgentStreamCounts := Increment(inboundAgentStreamCounts, eventType, 1);
      inboundAgentStreamByAgentCounts := Increment(inboundAgentStreamByAgentCounts, agentId, 1);
    }

    method RecordBinaryFrame(kind: string, bytes: int, handlerMs: real)
      requires Valid()
      modifies this, inboundMessageHandlerMs.Values
      ensures Valid() && Value() == Step(old(Value()), BinaryFrame(kind, bytes, handlerMs))
    {
      hide Separate, IncrementTiming, Increment, BucketsOf, ObjectsOf, Timings;
      inboundBinaryFrameCounts := Increment(inboundBinaryFrameCounts, kind, 1);
      inboundMessageBytes := Increment(inboundMessageBytes, "binary:" + kind, bytes);
      IncrementTimings("binary:" + kind, handlerMs);
    }

    method ClearLive()
      modifies this`inboundMessageCounts, this`inboundMessageBytes, this`inboundMessageHandlerMs,
               this`inboundAgentStreamCounts, this`inboundAgentStreamByAgentCounts, this`inboundBinaryFrameCounts
      ensures Live() == NOTHING && inboundMessageHandlerMs == map[]
    {
      inboundMessageCounts, inboundMessageBytes, inboundMessageHandlerMs := map[], map[], map[];
      inboundAgentStreamCounts, inboundAgentStreamByAgentCounts, inboundBinaryFrameCounts := map[], map[], map[];
    }

    method ConsumeCurrentBucket(now: int) returns (bucket: Option<HeapBucket>)
      requires Valid()
      modifies this`inboundMessageCounts, this`inboundMessageBytes, this`inboundMessageHandlerMs,
               this`inboundAgentStreamCounts, this`inboundAgentStreamByAgentCounts, this`inboundBinaryFrameCounts
      ensures Valid() && BucketsOf(buckets) == old(BucketsOf(buckets))
      ensures bucket.Some? <==> HasActivity(old(Live()))
      ensures Live() == if bucket.Some? then NOTHING else old(Live())
      ensures bucket.Some? ==> inboundMessageHandlerMs == map[] && bucket.value.endedAt == now
      ensures bucket.Some? ==> CountersOf(bucket.value) == old(Live())
    {
      hide Separate, BucketsOf, ObjectsOf, Timings;
      if inboundMessageCounts == map[] && inboundBinaryFrameCounts == map[] {
        return None;
      }
      var taken := CopyLive(now);
      bucket := Some(taken);
      ClearLive();
      NothingShared();
    }

    method CopyLive(now: int) returns (bucket: HeapBucket)
      ensures CountersOf(bucket) == Live() && bucket.endedAt == now
      ensures forall k | k in bucket.timings :: fresh(bucket.timings[k])
      ensures Live() == old(Live()) && BucketsOf(buckets) == old(BucketsOf(buckets))
    {
      hide Separate, BucketsOf, ObjectsOf, Timings;
      var timings := CloneHandlerTimingMap(inboundMessageHandlerMs);
      bucket := HeapBucket(inboundMessageCounts, inboundMessageBytes, timings, inboundAgentStreamCounts,
                           inboundAgentStreamByAgentCounts, inboundBinaryFrameCounts, now);
    }

    /** The first half of `flush`. */
    method TakeBucket(now: int)
      requires Valid()
      modifies this
      ensures Valid() && Value() == Consume(old(Value()), now)
    {
      hide Separate, BucketsOf, ObjectsOf, Timings, HasActivity;
      var bucket := ConsumeCurrentBucket(now);
      if bucket.Some? {
        PushLast(buckets, bucket.value);
        buckets := buckets + [bucket.value];
        NothingShared();
      }
    }

    method ShiftBucket()
      requires Valid() && |buckets| > 0
      modifies this`buckets, this`pruned
      ensures Valid() && |buckets| == |old(buckets)| - 1
      ensures Value() == old(Value()).(retained := old(Value()).retained[1..],
                                       pruned := old(pruned) + [old(Value()).retained[0]])
    {
      hide Separate, Timings, BucketsOf, ObjectsOf, CountersOf;
      ShiftFirst(buckets);
      pruned := pruned + [Bucket(CountersOf(buckets[0]), buckets[0].endedAt)];
      buckets := buckets[1..];
    }

    method PruneBuckets(now: int)
      requires Valid()
      modifies this`buckets, this`pruned
      ensures Valid() && Value() == Prune(old(Value()), now - windowMs)
    {
      hide Separate, Timings, BucketsOf, ObjectsOf;
      var cutoff := now - windowMs;
      while |buckets| > 0 && buckets[0].endedAt < cutoff
        invariant Valid() && Prune(Value(), cutoff) == Prune(old(Value()), cutoff)
        decreases |buckets|
      {
        ShiftBucket();
      }
    }

    /** Merging one bucket changes the aggregate's own objects, and none of a bucket or of the live counters. */
    method MergeNext(aggregate: HeapBucket, i: nat) returns (r: HeapBucket)
      requires Valid() && i < |buckets| && Separate(aggregate.timings)
      requires aggregate.timings.Values !! ObjectsOf(buckets) + inboundMessageHandlerMs.Values
      modifies aggregate.timings.Values
      ensures Separate(r.timings) && r.timings.Values !! ObjectsOf(buckets) + inboundMessageHandlerMs.Values
      ensures forall k | k in r.timings :: r.timings[k] in aggregate.timings.Values || fresh(r.timings[k])
      ensures CountersOf(r) == Merge(old(CountersOf(aggregate)), old(BucketsOf(buckets)[i].counters))
      ensures BucketsOf(buckets) == old(BucketsOf(buckets)) && Live() == old(Live())
    {
      hide Timings, Separate, BucketsOf, Merge, CountersOf;
      ghost var theirs := ObjectsOf(buckets) + inboundMessageHandlerMs.Values;
      ObjectsExist(buckets);
      assert BucketsOf(buckets)[i].counters == CountersOf(buckets[i]);
      r := MergeBucket(aggregate, buckets[i]);
      assert forall k | k in r.timings :: r.timings[k] !in theirs;
    }

    /** Builds on objects of its own: no bucket's timing is touched. */
    method AggregateBuckets() returns (aggregate: HeapBucket)
      requires Valid()
      ensures forall k | k in aggregate.timings :: fresh(aggregate.timings[k])
      ensures CountersOf(aggregate) == Aggregate(BucketsOf(buckets))
      ensures BucketsOf(buckets) == old(BucketsOf(buckets)) && Live() == old(Live())
    {
      hide Timings, Separate, BucketsOf, ObjectsOf, Merge, CountersOf, Live;
      ghost var all := BucketsOf(buckets);
      aggregate := HeapBucket(map[], map[], map[], map[], map[], map[], 0);
      NothingShared();
      NothingCounted(aggregate);
      assert all[..0] == [];
      for i := 0 to |buckets|
        invariant Separate(aggregate.timings)
        invariant aggregate.timings.Values !! ObjectsOf(buckets) + inboundMessageHandlerMs.Values
        invariant forall k | k in aggregate.timings :: fresh(aggregate.timings[k])
        invariant BucketsOf(buckets) == all && Live() == old(Live())
        invariant CountersOf(aggregate) == Aggregate(all[..i])
      {
        assert all[..i + 1][..i] == all[..i];
        aggregate := MergeNext(aggregate, i);
      }
      assert all[..|buckets|] == all;
    }

    /** The values of the timing objects, as the report lists them. */
    method TimingRows(m: TimingMap) returns (rows: map<string, Timing>)
      ensures rows == Timings(m)
    {
      rows := map key | key in m :: Timing(m[key].count, m[key].totalMs, m[key].maxMs);
    }

    /** The second half of `flush`. */
    method Publish(now: int, final: bool, aggregate: HeapBucket)
      modifies this`reports
      ensures Live() == old(Live()) && BucketsOf(buckets) == old(BucketsOf(buckets))
      ensures reports == old(reports) + Reported(old(Value()), now, final, old(CountersOf(aggregate)))
    {
      hide Timings, BucketsOf, ObjectsOf;
      if aggregate.messages == map[] && aggregate.frames == map[] && !final {
        return;
      }
      var rows := TimingRows(aggregate.timings);
      var age := if now - startedAt > 0 then now - startedAt else 0;
      reports := reports + [
        Report(if windowMs < age then windowMs else age, |buckets|, final,
               Counters(aggregate.messages, aggregate.bytes, rows, aggregate.streams, aggregate.agents,
                        aggregate.frames))
      ];
    }

    method FlushNow(now: int, final: bool)
      requires Valid()
      modifies this
      ensures Valid() && Value() == Step(old(Value()), Flush(now, final))
    {
      hide Prune, Consume, Aggregate, Reported, Separate, BucketsOf, ObjectsOf, Timings, CountersOf;
      TakeBucket(now);
      PruneBuckets(now);
      ghost var t := Value();
      var aggregate := AggregateBuckets();
      Publish(now, final, aggregate);
      FlushIs(old(Value()), now, final, t, reports);
    }
  }

  lemma FlushIs(m: Metrics, now: int, final: bool, t: Metrics, reports: seq<Report>)
    requires t == Prune(Consume(m, now), now - m.windowMs)
    requires reports == t.reports + Reported(t, now, final, Aggregate(t.retained))
    ensures Step(m, Flush(now, final)) == t.(reports := reports)
  {
    hide Prune, Aggregate, Reported;
  }

  lemma NothingCounted(b: HeapBucket)
    requires b.messages == b.bytes == b.streams == b.agents == b.frames == map[] && b.timings == map[]
    ensures CountersOf(b) == NOTHING
  {}
}
