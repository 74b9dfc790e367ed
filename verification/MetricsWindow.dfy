/** Which buckets the rolling window keeps, by the readings of the clock. */
module MetricsWindow {
  import opened Wrappers
  import opened RollingMetrics

  // ---------------------------------------------------------------- the readings

  /** Whether a message or a frame was recorded since the last flush; `busy` says so for the start. */
  predicate Busy(busy: bool, ops: seq<Op>) {
    if ops == [] then busy
    else
      match ops[|ops| - 1]
      case Flush(_, _) => false
      case AgentStream(_, _) => Busy(busy, ops[..|ops| - 1])
      case _ => true
  }

  /** The readings at which buckets ended, oldest first: a function of the operations alone. */
  function Endings(busy: bool, ops: seq<Op>): seq<int> {
    if ops == [] then []
    else
      var front, op := ops[..|ops| - 1], ops[|ops| - 1];
      Endings(busy, front) + if op.Flush? && Busy(busy, front) then [op.now] else []
  }

  /** The buckets that there were ended at these readings. */
  ghost predicate EndedAt(buckets: seq<Bucket>, times: seq<int>) {
    |buckets| == |times| && forall i | 0 <= i < |times| :: buckets[i].endedAt == times[i]
  }

  lemma ActivityAfter(c: Counters, op: Op)
    ensures op.Message? ==> HasActivity(RecordMessage(c, op.kind, op.bytes, op.handlerMs))
    ensures op.BinaryFrame? ==> HasActivity(RecordBinaryFrame(c, op.kind, op.bytes, op.handlerMs))
    ensures op.AgentStream? ==> (HasActivity(RecordAgentStream(c, op.agentId, op.event)) <==> HasActivity(c))
  {
    if op.Message? {
      assert op.kind in RecordMessage(c, op.kind, op.bytes, op.handlerMs).messages;
    } else if op.BinaryFrame? {
      assert op.kind in RecordBinaryFrame(c, op.kind, op.bytes, op.handlerMs).frames;
    }
  }

  lemma NothingIsInactive()
    ensures !HasActivity(NOTHING)
  {}

  lemma StepEnds(m: Metrics, op: Op)
    ensures var t := Step(m, op);
            && (HasActivity(t.live) <==> if op.Flush? then false else !op.AgentStream? || HasActivity(m.live))
            && t.windowMs == m.windowMs
            && All(t) == All(m) + (if op.Flush? && HasActivity(m.live) then [Bucket(m.live, op.now)] else [])
  {
    ActivityAfter(m.live, op);
    NothingIsInactive();
    if op.Flush? {
      FlushMoves(m, op.now, op.final);
    } else {
      assert All(m) + [] == All(m);
    }
    hide FlushMetrics, RecordMessage, RecordAgentStream, RecordBinaryFrame, HasActivity;
  }

  lemma {:induction false} EndingsAre(m: Metrics, ops: seq<Op>)
    requires m.retained == [] == m.pruned
    ensures var t, busy := Run(m, ops), HasActivity(m.live);
            && (HasActivity(t.live) <==> Busy(busy, ops)) && t.windowMs == m.windowMs
            && EndedAt(All(t), Endings(busy, ops))
    decreases |ops|
  {
    hide Step, HasActivity;
    if ops != [] {
      EndingsAre(m, ops[..|ops| - 1]);
      StepEnds(Run(m, ops[..|ops| - 1]), ops[|ops| - 1]);
      hide All;
    }
  }

  lemma {:induction false} EndingsGrow(busy: bool, ops: seq<Op>, k: nat)
    requires k <= |ops|
    ensures Endings(busy, ops[..k]) <= Endings(busy, ops)
    decreases |ops|
  {
    hide Busy;
    if k == |ops| {
      assert ops[..k] == ops;
    } else {
      assert ops[..|ops| - 1][..k] == ops[..k];
      EndingsGrow(busy, ops[..|ops| - 1], k);
    }
  }

  // ---------------------------------------------------------------- what was pruned

  lemma StepPrunes(m: Metrics, op: Op)
    ensures var t := Step(m, op);
            && m.pruned <= t.pruned
            && (t.retained != [] && op.Flush? ==> t.retained[0].endedAt >= op.now - m.windowMs)
            && (|t.pruned| > |m.pruned| ==> op.Flush?)
            && forall i | |m.pruned| <= i < |t.pruned| :: t.pruned[i].endedAt < op.now - m.windowMs
  {
    if op.Flush? {
      PruneMoves(Consume(m, op.now), op.now - m.windowMs);
    }
    hide Prune, Aggregate, HasActivity, RecordMessage, RecordAgentStream, RecordBinaryFrame;
  }

  lemma {:induction false} PrunedGrows(m: Metrics, ops: seq<Op>, k: nat)
    requires k <= |ops|
    ensures Run(m, ops[..k]).pruned <= Run(m, ops).pruned
    decreases |ops|
  {
    hide Step;
    if k == |ops| {
      assert ops[..k] == ops;
    } else {
      assert ops[..|ops| - 1][..k] == ops[..k];
      PrunedGrows(m, ops[..|ops| - 1], k);
      StepPrunes(Run(m, ops[..|ops| - 1]), ops[|ops| - 1]);
    }
  }

  /** A flush after which a bucket was gone, and for which it had ended too early. */
  predicate Outdated(busy: bool, ops: seq<Op>, windowMs: int, i: nat, k: nat) {
    && k < |ops| && ops[k].Flush? && i < |Endings(busy, ops[..k + 1])|
    && Endings(busy, ops[..k + 1])[i] < ops[k].now - windowMs
  }

  /** Every pruned bucket was outside the window of some flush. */
  lemma {:induction false} PrunedBy(m: Metrics, ops: seq<Op>, i: nat) returns (k: nat)
    requires m.retained == [] == m.pruned && i < |Run(m, ops).pruned|
    ensures Outdated(HasActivity(m.live), ops, m.windowMs, i, k)
    decreases |ops|
  {
    hide Step, Endings, Busy, HasActivity;
    var front, last := ops[..|ops| - 1], |ops| - 1;
    var before := Run(m, front);
    if i < |before.pruned| {
      k := PrunedBy(m, front, i);
      assert front[..k + 1] == ops[..k + 1];
    } else {
      EndingsAre(m, front);
      EndingsAre(m, ops);
      StepPrunes(before, ops[last]);
      k := last;
      assert ops[..k + 1] == ops;
      assert All(Run(m, ops))[i] == Run(m, ops).pruned[i];
    }
  }

  // ---------------------------------------------------------------- exactly the buckets in the window

  /** Of all the buckets there ever were, those kept are the ones that ended inside the window. */
  predicate ExactAt(t: Metrics, now: int) {
    forall i | 0 <= i < |All(t)| :: i >= |t.pruned| <==> All(t)[i].endedAt >= now - t.windowMs
  }

  predicate AlwaysExact(m: Metrics, ops: seq<Op>) {
    forall k | 0 <= k < |ops| && ops[k].Flush? :: ExactAt(Run(m, ops[..k + 1]), ops[k].now)
  }

  /** No bucket that ended before the cutoff comes after one that did not. */
  predicate InOrder(times: seq<int>, cutoff: int) {
    forall i, j | 0 <= i < j < |times| && times[i] >= cutoff :: times[j] >= cutoff
  }

  /** What ended before the earlier cutoff also ended before the later one. */
  predicate StaysOut(times: seq<int>, earlier: int, cutoff: int) {
    forall i | 0 <= i < |times| && times[i] < earlier :: times[i] < cutoff
  }

  /** The readings of flush `k` beside those of the buckets and of the flushes before it. */
  predicate KeepsOrderAt(busy: bool, ops: seq<Op>, windowMs: int, k: nat)
    requires k < |ops| && ops[k].Flush?
  {
    && InOrder(Endings(busy, ops[..k + 1]), ops[k].now - windowMs)
    && forall j | 0 <= j < k && ops[j].Flush? ::
         StaysOut(Endings(busy, ops[..j + 1]), ops[j].now - windowMs, ops[k].now - windowMs)
  }

  /** A condition on the clock readings alone: at no flush is the order of inside and outside turned round. */
  predicate ClockKeepsOrder(busy: bool, ops: seq<Op>, windowMs: int) {
    forall k | 0 <= k < |ops| && ops[k].Flush? :: KeepsOrderAt(busy, ops, windowMs, k)
  }

  lemma ExactGivesOrder(m: Metrics, ops: seq<Op>, k: nat)
    requires m.retained == [] == m.pruned && AlwaysExact(m, ops) && k < |ops| && ops[k].Flush?
    ensures KeepsOrderAt(HasActivity(m.live), ops, m.windowMs, k)
  {
    hide Run, Endings, Busy, HasActivity, All;
    var busy := HasActivity(m.live);
    EndingsAre(m, ops[..k + 1]);
    forall j | 0 <= j < k && ops[j].Flush?
      ensures StaysOut(Endings(busy, ops[..j + 1]), ops[j].now - m.windowMs, ops[k].now - m.windowMs)
    {
      EndingsAre(m, ops[..j + 1]);
      assert ops[..k + 1][..j + 1] == ops[..j + 1];
      EndingsGrow(busy, ops[..k + 1], j + 1);
      PrunedGrows(m, ops[..k + 1], j + 1);
      assert ExactAt(Run(m, ops[..j + 1]), ops[j].now);
    }
  }

  lemma OrderGivesExact(m: Metrics, ops: seq<Op>, k: nat)
    requires m.retained == [] == m.pruned && k < |ops| && ops[k].Flush?
    requires KeepsOrderAt(HasActivity(m.live), ops, m.windowMs, k)
    ensures ExactAt(Run(m, ops[..k + 1]), ops[k].now)
  {
    hide Run, Endings, Busy, HasActivity;
    var part, cutoff, busy := ops[..k + 1], ops[k].now - m.windowMs, HasActivity(m.live);
    var t := Run(m, part);
    EndingsAre(m, part);
    assert part[..k] + [ops[k]] == part;
    RunSnoc(m, part[..k], ops[k]);
    EndingsAre(m, part[..k]);
    StepPrunes(Run(m, part[..k]), ops[k]);
    hide Step;
    var times := Endings(busy, part);
    assert t.retained != [] ==> All(t)[|t.pruned|] == t.retained[0];
    forall i | 0 <= i < |t.pruned|
      ensures times[i] < cutoff
    {
      var j := PrunedBy(m, part, i);
      assert part[..j + 1] == ops[..j + 1];
      EndingsGrow(busy, part, j + 1);
    }
  }

  /**
   In every run, whatever the clock did, the buckets kept after each flush are exactly those that
   ended inside the window if and only if the readings keep their order about the cutoffs.
   */
  lemma WindowExactIff(m: Metrics, ops: seq<Op>)
    requires m.retained == [] == m.pruned
    ensures AlwaysExact(m, ops) <==> ClockKeepsOrder(HasActivity(m.live), ops, m.windowMs)
  {
    hide ExactAt, KeepsOrderAt, HasActivity, Run;
    if AlwaysExact(m, ops) {
      forall k | 0 <= k < |ops| && ops[k].Flush?
        ensures KeepsOrderAt(HasActivity(m.live), ops, m.windowMs, k)
      {
        ExactGivesOrder(m, ops, k);
      }
    }
    if ClockKeepsOrder(HasActivity(m.live), ops, m.windowMs) {
      forall k | 0 <= k < |ops| && ops[k].Flush?
        ensures ExactAt(Run(m, ops[..k + 1]), ops[k].now)
      {
        OrderGivesExact(m, ops, k);
      }
    }
  }

  // ---------------------------------------------------------------- a clock that never runs back

  predicate ClockForward(ops: seq<Op>) {
    forall i, j | 0 <= i <= j < |ops| :: ops[i].Flush? && ops[j].Flush? ==> ops[i].now <= ops[j].now
  }

  lemma {:induction false} EndingsBelow(busy: bool, ops: seq<Op>, bound: int)
    requires forall k | 0 <= k < |ops| && ops[k].Flush? :: ops[k].now <= bound
    ensures forall i | 0 <= i < |Endings(busy, ops)| :: Endings(busy, ops)[i] <= bound
    decreases |ops|
  {
    hide Busy;
    if ops != [] {
      EndingsBelow(busy, ops[..|ops| - 1], bound);
    }
  }

  predicate Ascending(times: seq<int>) {
    forall i, j | 0 <= i < j < |times| :: times[i] <= times[j]
  }

  lemma {:induction false} EndingsForward(busy: bool, ops: seq<Op>)
    requires ClockForward(ops)
    ensures Ascending(Endings(busy, ops))
    decreases |ops|
  {
    hide Busy;
    if ops != [] {
      var front, op := ops[..|ops| - 1], ops[|ops| - 1];
      EndingsForward(busy, front);
      if op.Flush? {
        assert forall k | 0 <= k < |front| && front[k].Flush? :: ops[k].now <= ops[|ops| - 1].now;
        EndingsBelow(busy, front, op.now);
      }
    }
  }

  lemma ForwardKeepsOrder(busy: bool, ops: seq<Op>, windowMs: int)
    requires ClockForward(ops)
    ensures ClockKeepsOrder(busy, ops, windowMs)
  {
    hide Endings;
    forall k | 0 <= k < |ops| && ops[k].Flush?
      ensures KeepsOrderAt(busy, ops, windowMs, k)
    {
      EndingsForward(busy, ops[..k + 1]);
    }
  }

  /** With a clock that never runs back the window is exact after every flush. */
  lemma WindowExact(m: Metrics, ops: seq<Op>, now: int, final: bool)
    requires m.retained == [] == m.pruned && ClockForward(ops + [Flush(now, final)])
    ensures var t := Run(m, ops + [Flush(now, final)]);
            forall i | 0 <= i < |All(t)| :: i >= |t.pruned| <==> All(t)[i].endedAt >= now - m.windowMs
  {
    var whole := ops + [Flush(now, final)];
    ForwardKeepsOrder(HasActivity(m.live), whole, m.windowMs);
    WindowExactIff(m, whole);
    EndingsAre(m, whole);
    hide Run, ClockKeepsOrder, HasActivity, Endings, Busy;
    assert whole[..|ops| + 1] == whole && whole[|ops|] == Flush(now, final);
    assert ExactAt(Run(m, whole), now);
  }

  /**
   Whatever the clock did: pruning keeps exactly the buckets inside the window if and only if no
   bucket outside it stands behind one that is inside.
   */
  lemma PruneExactIff(m: Metrics, cutoff: int)
    ensures var kept := Prune(m, cutoff).retained;
            var gone := |m.retained| - |kept|;
            && gone >= 0 && kept == m.retained[gone..]
            && ((forall i | 0 <= i < |m.retained| :: i >= gone <==> m.retained[i].endedAt >= cutoff) <==>
                forall i, j | 0 <= i < j < |m.retained| && m.retained[i].endedAt >= cutoff ::
                  m.retained[j].endedAt >= cutoff)
  {
    PruneMoves(m, cutoff);
    hide Prune;
    var t := Prune(m, cutoff);
    assert |All(t)| == |All(m)| && |m.pruned| <= |t.pruned|;
    var gone := |m.retained| - |t.retained|;
    assert All(t)[|t.pruned|..] == t.retained && All(m)[|t.pruned|..] == m.retained[gone..];
    assert forall i | 0 <= i < gone :: m.retained[i] == All(m)[|m.pruned| + i] == t.pruned[|m.pruned| + i];
    assert t.retained != [] ==> m.retained[gone] == t.retained[0];
  }

  /** With a clock that runs back it fails: a later bucket in front keeps one that is outside the window. */
  lemma ClockBackwards()
    ensures var m := NewMetrics(0, Some(10));
            var t := Run(m, [Message("a", 1, 0.0), Flush(100, false), Message("a", 1, 0.0), Flush(50, false),
                             Flush(105, false)]);
            exists i :: 0 <= i < |t.retained| && t.retained[i].endedAt < 105 - t.windowMs
  {
    var m := NewMetrics(0, Some(10));
    var message := Message("a", 1, 0.0);
    var t2 := Step(Step(m, message), Flush(100, false));
    var t4 := Step(Step(t2, message), Flush(50, false));
    RunOfFive(m, message, Flush(100, false), message, Flush(50, false), Flush(105, false));
    assert m.retained == [] && m.windowMs == 10 && m.live == NOTHING;
    hide *;
    BucketAdded(m, 100);
    BucketAdded(t2, 50);
    BucketsKept(t4, 105);
    assert t4.retained[1].endedAt == 50;
  }

  lemma RunOfFive(m: Metrics, a: Op, b: Op, c: Op, d: Op, e: Op)
    ensures Run(m, [a, b, c, d, e]) == Step(Step(Step(Step(Step(m, a), b), c), d), e)
  {
    RunOfTwo(m, a, b);
    assert [a, b, c, d] == [a, b, c] + [d] && [a, b, c, d, e] == [a, b, c, d] + [e] && [a, b, c] == [a, b] + [c];
    hide *;
    RunSnoc(m, [a, b], c);
    RunSnoc(m, [a, b, c], d);
    RunSnoc(m, [a, b, c, d], e);
  }

  lemma RunOfTwo(m: Metrics, a: Op, b: Op)
    ensures Run(m, [a, b]) == Step(Step(m, a), b)
  {
    RunSnoc(m, [], a);
    RunSnoc(m, [a], b);
    assert Run(m, []) == m && [] + [a] == [a] && [a] + [b] == [a, b];
    hide *;
  }

  /** A message and a flush add one bucket when nothing is pruned. */
  lemma BucketAdded(m: Metrics, now: int)
    requires m.retained == [] || m.retained[0].endedAt >= now - m.windowMs
    requires m.windowMs >= 0 && m.live == NOTHING
    ensures var t := Step(Step(m, Message("a", 1, 0.0)), Flush(now, false));
            && t.retained == m.retained + [Bucket(RecordMessage(NOTHING, "a", 1, 0.0), now)]
            && t.windowMs == m.windowMs && t.live == NOTHING
  {
    Recording(m, "a", 1, 0.0);
    hide RecordMessage, HasActivity;
    FlushKeepsAll(Step(m, Message("a", 1, 0.0)), now, false);
    hide FlushMetrics;
  }

  lemma BucketsKept(m: Metrics, now: int)
    requires m.retained != [] && m.retained[0].endedAt >= now - m.windowMs && m.live == NOTHING
    ensures Step(m, Flush(now, false)).retained == m.retained && Step(m, Flush(now, false)).windowMs == m.windowMs
  {
    FlushKeepsAll(m, now, false);
    hide FlushMetrics;
  }

  /** Nothing is pruned while the first bucket is inside the window. */
  lemma FlushKeepsAll(m: Metrics, now: int, final: bool)
    requires Consume(m, now).retained != [] && Consume(m, now).retained[0].endedAt >= now - m.windowMs
    ensures var t := FlushMetrics(m, now, final);
            t.retained == Consume(m, now).retained && t.windowMs == m.windowMs && t.live == Consume(m, now).live
  {
    hide Aggregate, HasActivity;
  }
}
