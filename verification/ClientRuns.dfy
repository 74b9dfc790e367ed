/** What holds of the daemon client in every run: requests, queued messages, connect promises. */
module ClientRuns {
  import opened Wrappers
  import opened ClientState

  // ---------------------------------------------------------------- requests

  /** A request has a waiter exactly while it has not ended; only waiters have timeouts armed. */
  ghost predicate Settled(w: Waits, calls: nat) {
    && (forall id :: id in w.waiters ==> id !in w.endings)
    && (forall id :: id in w.waiters ==> id < calls)
    && (forall id :: id in w.endings ==> id < calls)
    && (forall id: nat | id < calls :: id in w.waiters || id in w.endings)
    && w.timers <= w.waiters.Keys
  }

  lemma EndKeeps(w: Waits, ids: set<nat>, ending: Ending, calls: nat)
    requires Settled(w, calls) && forall id | id in ids :: id < calls
    ensures Settled(End(w, ids, ending), calls)
    ensures forall id | id in ids && id in w.waiters ::
              id in End(w, ids, ending).endings && End(w, ids, ending).endings[id] == ending
    ensures forall id | id in w.endings ::
              id in End(w, ids, ending).endings && End(w, ids, ending).endings[id] == w.endings[id]
  {}

  // ---------------------------------------------------------------- messages

  function Ids(ts: seq<Transmission>): seq<nat> {
    if ts == [] then [] else Ids(ts[..|ts| - 1]) + [ts[|ts| - 1].id]
  }

  /** The transmitted messages that had waited in the queue, in order of transmission. */
  function QueuedIds(ts: seq<Transmission>): seq<nat> {
    if ts == [] then []
    else QueuedIds(ts[..|ts| - 1]) + if ts[|ts| - 1].queued then [ts[|ts| - 1].id] else []
  }

  /** How often a message is waiting, was transmitted, or was refused. */
  function Fates(q: Sends, id: nat): nat {
    multiset(q.queue)[id] + multiset(Ids(q.sent))[id] + multiset(q.failed)[id]
  }

  predicate Increasing(s: seq<nat>) {
    forall i, j | 0 <= i < j < |s| :: s[i] < s[j]
  }

  /** Every message has exactly one fate, and the queue leaves in the order it was filled. */
  ghost predicate Accounted(q: Sends, calls: nat) {
    && (forall id: nat :: Fates(q, id) == if id < calls then 1 else 0)
    && Increasing(QueuedIds(q.sent) + q.queue)
    && (forall i | 0 <= i < |QueuedIds(q.sent) + q.queue| :: (QueuedIds(q.sent) + q.queue)[i] < calls)
  }

  lemma SentSnoc(ts: seq<Transmission>, t: Transmission)
    ensures Ids(ts + [t]) == Ids(ts) + [t.id]
    ensures QueuedIds(ts + [t]) == QueuedIds(ts) + if t.queued then [t.id] else []
  {
    assert (ts + [t])[..|ts|] == ts;
  }

  lemma RejectKeeps(q: Sends, calls: nat)
    requires Accounted(q, calls)
    ensures Accounted(RejectQueue(q), calls)
  {
    hide Ids, QueuedIds;
    assert QueuedIds(q.sent) + [] == (QueuedIds(q.sent) + q.queue)[..|QueuedIds(q.sent)|];
    forall id: nat
      ensures Fates(RejectQueue(q), id) == Fates(q, id)
    {}
  }

  lemma QueueTimeoutKeeps(q: Sends, position: nat, calls: nat)
    requires Accounted(q, calls)
    ensures Accounted(QueueTimesOut(q, position), calls)
  {
    hide Ids, QueuedIds;
    if position < |q.queue| {
      var front, x, back := q.queue[..position], q.queue[position], q.queue[position + 1..];
      assert q.queue == front + [x] + back;
      var sentIds := QueuedIds(q.sent);
      var all := sentIds + q.queue;
      var left := sentIds + (front + back);
      forall i | 0 <= i < |left|
        ensures left[i] == all[if i < |sentIds| + position then i else i + 1]
      {}
      forall id: nat
        ensures Fates(QueueTimesOut(q, position), id) == Fates(q, id)
      {}
    }
  }

  lemma SendKeeps(q: Sends, link: Link, throws: bool, calls: nat)
    requires Accounted(q, calls)
    ensures Accounted(SendOrQueue(q, link, calls, throws), calls + 1)
  {
    hide Ids, QueuedIds;
    var t := SendOrQueue(q, link, calls, throws);
    SentSnoc(q.sent, Transmission(calls, false));
    assert QueuedIds(q.sent) + [] == QueuedIds(q.sent);
    assert QueuedIds(t.sent) + t.queue == QueuedIds(q.sent) + q.queue ||
           QueuedIds(t.sent) + t.queue == QueuedIds(q.sent) + q.queue + [calls];
    forall id: nat
      ensures Fates(t, id) == if id < calls + 1 then 1 else 0
    {
      assert Fates(t, id) == Fates(q, id) + if id == calls then 1 else 0;
    }
  }

  /** What the flush loop over `ids` did: nothing lost, nothing twice, and in order. */
  lemma {:induction false} FlushOverKeeps(q: Sends, ids: seq<nat>, throwing: set<nat>)
    requires q.queue == [] && Increasing(QueuedIds(q.sent) + ids)
    ensures var t := FlushOver(q, ids, throwing);
            && t.queue == []
            && (forall id: nat :: Fates(t, id) == Fates(q, id) + multiset(ids)[id])
            && Increasing(QueuedIds(t.sent))
            && (forall i | 0 <= i < |QueuedIds(t.sent)| :: QueuedIds(t.sent)[i] in QueuedIds(q.sent) + ids)
    decreases |ids|
  {
    hide Ids, QueuedIds;
    if ids == [] {
      assert QueuedIds(q.sent) + [] == QueuedIds(q.sent);
    } else {
      var front, id := ids[..|ids| - 1], ids[|ids| - 1];
      var all := QueuedIds(q.sent) + ids;
      assert QueuedIds(q.sent) + front == all[..|all| - 1];
      FlushOverKeeps(q, front, throwing);
      var before := FlushOver(q, front, throwing);
      FlushOneKeeps(before, id, throwing);
      SentSnoc(before.sent, Transmission(id, true));
      assert ids == front + [id];
      SnocIncreasing(QueuedIds(before.sent), QueuedIds(q.sent) + front, id, all);
      assert FlushOver(q, ids, throwing) == if id in throwing then Refuse(before, id) else Transmit(before, id, true);
      hide FlushOver, Fates, Increasing;
    }
  }

  /** A selection of an increasing list stays increasing when both get the same last element. */
  lemma SnocIncreasing(part: seq<nat>, front: seq<nat>, id: nat, all: seq<nat>)
    requires Increasing(part) && Increasing(all) && all == front + [id]
    requires forall i | 0 <= i < |part| :: part[i] in front
    ensures Increasing(part + [id])
    ensures forall i | 0 <= i < |part + [id]| :: (part + [id])[i] in all
    ensures forall i | 0 <= i < |part| :: part[i] in all
  {
    forall i | 0 <= i < |part|
      ensures part[i] < id && part[i] in all
    {
      var k :| 0 <= k < |front| && front[k] == part[i];
      assert all[k] == front[k] && all[|front|] == id;
    }
    assert all[|front|] == id;
  }

  lemma FlushOneKeeps(before: Sends, id: nat, throwing: set<nat>)
    ensures var t := if id in throwing then Refuse(before, id) else Transmit(before, id, true);
            forall x: nat :: Fates(t, x) == Fates(before, x) + multiset([id])[x]
  {
    hide Ids;
    SentSnoc(before.sent, Transmission(id, true));
  }

  lemma FlushKeeps(q: Sends, throwing: set<nat>, calls: nat)
    requires Accounted(q, calls)
    ensures Accounted(Flush(q, throwing), calls) && Flush(q, throwing).queue == []
  {
    hide Ids, QueuedIds, FlushOver;
    var emptied := q.(queue := []);
    FlushOverKeeps(emptied, q.queue, throwing);
    var t := Flush(q, throwing);
    forall id: nat
      ensures Fates(t, id) == Fates(q, id)
    {}
    assert QueuedIds(t.sent) + [] == QueuedIds(t.sent);
    forall i | 0 <= i < |QueuedIds(t.sent)|
      ensures QueuedIds(t.sent)[i] < calls
    {
      assert QueuedIds(t.sent)[i] in QueuedIds(q.sent) + q.queue;
    }
  }

  // ---------------------------------------------------------------- connect promises

  /** Every connect promise is held with its handlers, has ended, or was dropped by `close`. */
  ghost predicate PromisesKept(l: Link) {
    && (l.connectHandlers.Some? ==>
          && l.connectPromise == l.connectHandlers && l.connectHandlers.value < l.connects
          && l.connectHandlers.value !in l.connectEndings && l.connectHandlers.value !in l.dropped)
    && (forall id :: id in l.connectEndings ==> id < l.connects && id !in l.dropped)
    && (forall id :: id in l.dropped ==> id < l.connects)
    && (forall id: nat | id < l.connects ::
          id in l.connectEndings || id in l.dropped || l.connectHandlers == Some(id))
    && (l.connectPromise.Some? && l.connectHandlers.None? ==> l.connectPromise.value in l.connectEndings)
  }

  // ---------------------------------------------------------------- the invariant

  ghost predicate Inv(s: Client) {
    Settled(s.waits, s.calls) && Accounted(s.sends, s.calls) && PromisesKept(s.link)
  }

  lemma ClearKeeps(s: Client)
    requires Settled(s.waits, s.calls) && Accounted(s.sends, s.calls)
    ensures var t := ClearAll(s);
            && Settled(t.waits, t.calls) && Accounted(t.sends, t.calls)
            && t.waits.waiters == map[] && t.waits.timers == {} && t.sends.queue == []
  {
    EndKeeps(s.waits, s.waits.waiters.Keys, ConnectionLost, s.calls);
    RejectKeeps(s.sends, s.calls);
    hide Accounted, RejectQueue;
    assert s.waits.waiters - s.waits.waiters.Keys == map[];
    RejectEmpties(s.sends);
  }

  lemma RejectEmpties(q: Sends)
    ensures RejectQueue(q).queue == []
  {}

  lemma EndConnectKeeps(l: Link, ending: ConnectEnding)
    requires PromisesKept(l)
    ensures PromisesKept(EndConnect(l, ending))
  {
    var t := EndConnect(l, ending);
    assert forall id: nat | id < l.connects ::
        id in l.connectEndings || id in l.dropped || l.connectHandlers == Some(id);
    assert forall id :: id in t.connectEndings <==> id in l.connectEndings || l.connectHandlers == Some(id);
  }

  lemma DropKeeps(l: Link)
    requires PromisesKept(l)
    ensures PromisesKept(CloseLink(l))
  {
    var t := CloseLink(l);
    assert forall id :: id in t.dropped <==> id in l.dropped || l.connectHandlers == Some(id);
  }

  /** Only the promise fields matter. */
  predicate SamePromises(l: Link, t: Link) {
    && t.connectHandlers == l.connectHandlers && t.connectPromise == l.connectPromise
    && t.connects == l.connects && t.connectEndings == l.connectEndings && t.dropped == l.dropped
  }

  lemma SameKeeps(l: Link, t: Link)
    requires PromisesKept(l) && SamePromises(l, t)
    ensures PromisesKept(t)
  {}

  lemma LinkKeeps(l: Link)
    requires PromisesKept(l)
    ensures PromisesKept(LoseLink(l)) && PromisesKept(CloseLink(l)) && PromisesKept(DisposeTransport(l))
    ensures PromisesKept(EndConnect(l, Opened)) && PromisesKept(EndConnect(l, Refused))
  {
    EndConnectKeeps(l, Opened);
    EndConnectKeeps(l, Refused);
    DropKeeps(l);
    SameKeeps(l, DisposeTransport(l));
    if l.status == Disposed || !l.shouldReconnect || !l.reconnectEnabled {
      SameKeeps(EndConnect(l, Refused), LoseLink(l));
    } else {
      SameKeeps(l, LoseLink(l));
    }
    hide PromisesKept;
  }

  lemma LossKeeps(s: Client, l: Link)
    requires Inv(s) && PromisesKept(l)
    ensures Inv(ScheduleReconnect(s.(link := l)))
  {
    ClearKeeps(s);
    LinkKeeps(l);
    hide Settled, Accounted, PromisesKept, LoseLink, ClearWaiters, RejectQueue;
  }

  lemma AttemptKeeps(s: Client, fails: bool)
    requires Inv(s)
    ensures Inv(AttemptConnect(s, fails))
  {
    LinkKeeps(s.link);
    LinkKeeps(DisposeTransport(s.link));
    LinkKeeps(LoseLink(DisposeTransport(s.link)));
    ClearKeeps(s);
    hide Settled, Accounted, PromisesKept, LoseLink, EndConnect, ClearAll, DisposeTransport;
    SameKeepsAttempt(DisposeTransport(s.link));
  }

  lemma SameKeepsAttempt(l: Link)
    ensures PromisesKept(l) ==> PromisesKept(l.(attached := true, status := Connecting, connectTimer := true))
  {
    if PromisesKept(l) {
      SameKeeps(l, l.(attached := true, status := Connecting, connectTimer := true));
    }
  }

  /** An attempt whose promise was just handed out: remembering it afterwards restores the invariant. */
  lemma NewPromiseKeeps(s: Client, fails: bool)
    requires Inv(s) && s.link.connectPromise.None?
    requires s.link.status != Disposed && s.link.status != Connected
    ensures PromisesKept(Connect(s, fails).link)
  {
    var l := s.link.(connects := s.link.connects + 1, connectHandlers := Some(s.link.connects));
    var held := l.(connectPromise := l.connectHandlers);
    var t := Connect(s, fails).link;
    NewPromiseLink(s, fails);
    PromiseMade(s.link, held);
    EndConnectKeeps(held, Refused);
    RefusalEnds(held);
    hide PromisesKept, Connect, EndConnect, Settled, Accounted;
    if SamePromises(held, t) {
      SameKeeps(held, t);
    } else {
      RememberedKeeps(EndConnect(held, Refused), t);
    }
  }

  lemma RefusalEnds(l: Link)
    requires l.connectHandlers.Some?
    ensures EndConnect(l, Refused).connectHandlers.None?
    ensures l.connectHandlers.value in EndConnect(l, Refused).connectEndings
  {}

  /** Whatever `connect` does, the requests and messages are left alone or all cleared. */
  lemma ConnectClears(s: Client, fails: bool)
    ensures var t := Connect(s, fails);
            (t.waits == s.waits && t.sends == s.sends && t.calls == s.calls) ||
            (t.waits == ClearAll(s).waits && t.sends == ClearAll(s).sends && t.calls == s.calls)
  {
    hide ClearWaiters, RejectQueue, LoseLink, EndConnect;
  }

  lemma PromiseMade(l: Link, held: Link)
    requires PromisesKept(l) && l.connectPromise.None?
    requires held.connects == l.connects + 1 && held.connectHandlers == Some(l.connects) == held.connectPromise
    requires held.connectEndings == l.connectEndings && held.dropped == l.dropped
    ensures PromisesKept(held)
  {}

  lemma RememberedKeeps(l: Link, t: Link)
    requires PromisesKept(l) && l.connectHandlers.None?
    requires t.connectPromise.Some? && t.connectPromise.value in l.connectEndings
    requires SamePromises(l.(connectPromise := t.connectPromise), t)
    ensures PromisesKept(t)
  {}

  /** The promises after a first attempt: held, or ended and still remembered. */
  lemma NewPromiseLink(s: Client, fails: bool)
    requires Inv(s) && s.link.connectPromise.None?
    requires s.link.status != Disposed && s.link.status != Connected
    ensures var l := s.link.(connects := s.link.connects + 1, connectHandlers := Some(s.link.connects));
            var held := l.(connectPromise := l.connectHandlers);
            var t := Connect(s, fails).link;
            || SamePromises(held, t)
            || SamePromises(EndConnect(held, Refused).(connectPromise := held.connectPromise), t)
  {
    assert s.link.connects !in s.link.connectEndings;
    hide Settled, Accounted, PromisesKept, ClearAll;
  }

  /** A promise returned already settled. */
  lemma SettledPromiseKeeps(l: Link, ending: ConnectEnding)
    requires PromisesKept(l)
    ensures PromisesKept(l.(connects := l.connects + 1, connectEndings := l.connectEndings[l.connects := ending]))
  {}

  lemma ConnectKeeps(s: Client, fails: bool)
    requires Inv(s)
    ensures Inv(Connect(s, fails))
  {
    ConnectLinkKeeps(s, fails);
    ConnectClears(s, fails);
    ClearKeeps(s);
    hide Settled, Accounted, PromisesKept, Connect, ClearAll;
    ClearAllFrame(s);
  }

  lemma ConnectLinkKeeps(s: Client, fails: bool)
    requires Inv(s)
    ensures PromisesKept(Connect(s, fails).link)
  {
    SettledPromiseKeeps(s.link, Opened);
    SettledPromiseKeeps(s.link, Refused);
    if s.link.connectPromise.None? && s.link.status != Disposed && s.link.status != Connected {
      NewPromiseKeeps(s, fails);
    } else {
      hide Settled, Accounted, PromisesKept, AttemptConnect;
    }
  }

  lemma RequestKeeps(s: Client, c: Call)
    requires Inv(s)
    ensures Inv(Request(s, c))
  {
    SendKeeps(s.sends, s.link, c.sendThrows, s.calls);
    hide Accounted, SendOrQueue, PromisesKept;
  }

  lemma {:induction false} RequestsKeep(s: Client, cs: seq<Call>)
    requires Inv(s)
    ensures Inv(Requests(s, cs)) && Requests(s, cs).link == s.link
    decreases |cs|
  {
    hide Inv;
    if cs != [] {
      RequestsKeep(s, cs[..|cs| - 1]);
      RequestKeeps(Requests(s, cs[..|cs| - 1]), cs[|cs| - 1]);
    }
  }

  lemma InfoKeeps(s: Client, listeners: seq<Call>, resubscribeThrows: bool, throwing: set<nat>)
    requires Inv(s)
    ensures Inv(ServerInfo(s, listeners, resubscribeThrows, throwing))
  {
    hide Settled, Accounted, Requests, Flush, EndConnect;
    var t := s.(link := s.link.(connectTimer := false, status := Connected));
    RequestsKeep(t, listeners);
    FlushKeeps(Requests(t, listeners).sends, throwing, Requests(t, listeners).calls);
    LinkKeeps(t.link);
  }

  lemma WaitsStepKeeps(s: Client, e: Event)
    requires Inv(s) && (e.CancelRuns? || e.WaiterTimer? || e.Message?)
    ensures Inv(Step(s, e))
  {
    hide Accounted, PromisesKept, End;
    match e
    case CancelRuns(id) =>
      if id in s.sends.failed && id !in s.waits.endings {
        FailedIsCalled(s, id);
        EndKeeps(s.waits, {id}, SendFailed, s.calls);
      }
    case WaiterTimer(id) =>
      if id in s.waits.timers {
        EndKeeps(s.waits, {id}, TimedOut, s.calls);
      }
    case Message(r) => EndKeeps(s.waits, AnsweredBy(s.waits.waiters, r), EndingOf(r), s.calls);
  }

  lemma FailedIsCalled(s: Client, id: nat)
    requires Inv(s) && id in s.sends.failed
    ensures id < s.calls
  {
    hide Ids, QueuedIds;
    assert Fates(s.sends, id) > 0;
  }

  predicate InUse(l: Link) {
    l.status == Connecting || l.status == Connected
  }

  /** The timers and transport events that may cost the connection. */
  predicate IsLoss(e: Event) {
    e.ConnectTimer? || e.ErrorTimer? || e.Liveness? || e.Opens? || e.Closes? || e.Fails?
  }

  /** What such an event comes to: some handlers or timers stop, and then the connection is lost or not. */
  lemma LossForm(s: Client, e: Event) returns (l: Link, lost: bool)
    requires IsLoss(e)
    ensures Step(s, e) == if lost then ScheduleReconnect(s.(link := l)) else s.(link := l)
    ensures l == s.link.(attached := l.attached, connectTimer := l.connectTimer, errorTimer := l.errorTimer)
    ensures l.attached == s.link.attached || (lost && !l.attached && !l.connectTimer && !l.errorTimer)
    ensures (l.connectTimer ==> s.link.connectTimer) && (l.errorTimer ==> s.link.errorTimer || l.attached)
  {
    hide ScheduleReconnect;
    l, lost := s.link, false;
    match e
    case ConnectTimer =>
      if l.connectTimer {
        lost := l.status == Connecting;
        l := if lost then DisposeTransport(l) else l.(connectTimer := false);
      }
    case ErrorTimer =>
      if l.errorTimer {
        lost := InUse(l);
        l := l.(errorTimer := false);
      }
    case Liveness => l, lost := DisposeTransport(l), true;
    case Opens(helloThrows) =>
      if l.attached {
        l, lost := l.(errorTimer := false), helloThrows;
      }
    case Closes =>
      if l.attached {
        l, lost := l.(connectTimer := false, errorTimer := false), true;
      }
    case Fails(generic) =>
      if l.attached {
        l, lost := l.(connectTimer := false, errorTimer := generic), !generic;
      }
  }

  lemma LossStepKeeps(s: Client, e: Event)
    requires Inv(s)
    requires IsLoss(e)
    ensures Inv(Step(s, e))
  {
    var l, lost := LossForm(s, e);
    SameKeeps(s.link, l);
    hide Settled, Accounted, PromisesKept, ScheduleReconnect, Step;
    if lost {
      LossKeeps(s, l);
    }
  }

  lemma StepKeeps(s: Client, e: Event)
    requires Inv(s)
    ensures Inv(Step(s, e))
  {
    hide Settled, Accounted, AttemptConnect, Connect, ScheduleReconnect, ClearAll;
    match e
    case ConnectCalled(fails) => ConnectKeeps(s, fails);
    case EnsureCalled(fails) => ConnectKeeps(s.(link := s.link.(shouldReconnect := true)), fails);
    case CloseCalled =>
      ClearKeeps(s);
      LinkKeeps(s.link);
      ClearAllFrame(s);
    case ReconnectSet(_) =>
    case RequestMade(call) => RequestKeeps(s, call);
    case QueueTimer(position) => QueueTimeoutKeeps(s.sends, position, s.calls);
    case ReconnectTimer(fails) => AttemptKeeps(s.(link := s.link.(reconnectTimer := false)), fails);
    case Info(listeners, resubscribeThrows, throwing) => InfoKeeps(s, listeners, resubscribeThrows, throwing);
    case CancelRuns(_) => WaitsStepKeeps(s, e);
    case WaiterTimer(_) => WaitsStepKeeps(s, e);
    case Message(_) => WaitsStepKeeps(s, e);
    case _ => LossStepKeeps(s, e);
  }

  lemma ClearAllFrame(s: Client)
    ensures ClearAll(s).calls == s.calls
  {}

  lemma {:induction false} RunKeeps(reconnectEnabled: bool, es: seq<Event>)
    ensures Inv(Run(NewClient(reconnectEnabled), es))
    decreases |es|
  {
    hide Inv, Step;
    if es == [] {
      NewClientInv(reconnectEnabled);
    } else {
      RunKeeps(reconnectEnabled, es[..|es| - 1]);
      StepKeeps(Run(NewClient(reconnectEnabled), es[..|es| - 1]), es[|es| - 1]);
    }
  }

  lemma NewClientInv(reconnectEnabled: bool)
    ensures Inv(NewClient(reconnectEnabled))
  {}

  // ---------------------------------------------------------------- request settlement

  /**
   Over every interleaving of replies, errors, timeouts, cancels, reconnects and close: a
   request has a waiter exactly while it has not ended.
   */
  lemma RequestSettlement(reconnectEnabled: bool, es: seq<Event>, id: nat)
    ensures var s := Run(NewClient(reconnectEnabled), es);
            && (id in s.waits.waiters <==> id < s.calls && id !in s.waits.endings)
            && (id in s.waits.endings ==> id < s.calls)
            && (id in s.waits.timers ==> id in s.waits.waiters)
  {
    hide Accounted, PromisesKept, Step, Run;
    RunKeeps(reconnectEnabled, es);
  }

  /** What one step does to the endings: none changes, and new ones were outstanding requests. */
  ghost predicate OnlyOutstandingEnd(w: Waits, calls: nat, t: Waits) {
    && (forall id :: id in w.endings ==> id in t.endings && t.endings[id] == w.endings[id])
    && (forall id :: id in t.endings && id !in w.endings ==> id in w.waiters || calls <= id)
  }

  lemma RequestsOnlyAddWaiters(s: Client, cs: seq<Call>)
    ensures Requests(s, cs).waits.endings == s.waits.endings
    decreases |cs|
  {
    hide SendOrQueue;
    if cs != [] {
      RequestsOnlyAddWaiters(s, cs[..|cs| - 1]);
    }
  }

  lemma ClearEnds(s: Client)
    requires Settled(s.waits, s.calls)
    ensures OnlyOutstandingEnd(s.waits, s.calls, ClearAll(s).waits)
  {}

  /** A loss, an attempt and `close` either leave the requests alone or clear them all. */
  lemma WaitsForm(s: Client, e: Event)
    requires IsLoss(e) || IsAttempt(e) || e.CloseCalled?
    ensures Step(s, e).waits == s.waits || Step(s, e).waits == ClearAll(s).waits
  {
    ClearAllWaits(s);
    if IsLoss(e) {
      var l, lost := LossForm(s, e);
      hide Step, ClearAll;
    } else if e.ConnectCalled? {
      ConnectClears(s, e.fails);
    } else if e.EnsureCalled? {
      ConnectClears(s.(link := s.link.(shouldReconnect := true)), e.fails);
      hide Connect, ClearAll;
    } else {
      hide ClearAll, LoseLink, EndConnect, CloseLink;
    }
  }

  lemma StepEndsOutstanding(s: Client, e: Event)
    requires Inv(s)
    ensures OnlyOutstandingEnd(s.waits, s.calls, Step(s, e).waits)
  {
    if IsLoss(e) || IsAttempt(e) || e.CloseCalled? {
      WaitsForm(s, e);
      ClearEnds(s);
      hide Step, ClearAll;
    } else {
      hide Accounted, PromisesKept, EndConnect, SendOrQueue, Flush;
      if e.Info? {
        RequestsOnlyAddWaiters(s.(link := s.link.(connectTimer := false, status := Connected)), e.listeners);
        hide Requests;
      } else if e.CancelRuns? && e.id in s.sends.failed {
        FailedIsCalled(s, e.id);
      }
    }
  }

  /** Clearing looks only at waiters and queue, not at the connection. */
  lemma ClearAllWaits(s: Client)
    ensures forall l: Link :: ClearAll(s.(link := l)).waits == ClearAll(s).waits
  {}

  /** Each request ends at most once: an ending, once there, is never replaced. */
  lemma {:induction false} EndsOnce(reconnectEnabled: bool, es: seq<Event>, more: seq<Event>, id: nat)
    requires id in Run(NewClient(reconnectEnabled), es).waits.endings
    ensures var s := Run(NewClient(reconnectEnabled), es);
            var t := Run(NewClient(reconnectEnabled), es + more);
            id in t.waits.endings && t.waits.endings[id] == s.waits.endings[id] && id !in t.waits.waiters
    decreases |more|
  {
    hide Step, Inv;
    if more == [] {
      assert es + more == es;
      RequestSettlement(reconnectEnabled, es, id);
    } else {
      var front := es + more[..|more| - 1];
      EndsOnce(reconnectEnabled, es, more[..|more| - 1], id);
      assert (es + more)[..|es + more| - 1] == front;
      RunKeeps(reconnectEnabled, front);
      StepEndsOutstanding(Run(NewClient(reconnectEnabled), front), more[|more| - 1]);
      RequestSettlement(reconnectEnabled, es + more, id);
    }
  }

  /** With distinct request ids a reply settles its own request and leaves every other as it was. */
  lemma ReplySettlesItsOwn(s: Client, r: Reply, id: nat)
    requires Inv(s) && s.link.attached && id in s.waits.waiters
    requires forall x, y :: x in s.waits.waiters && y in s.waits.waiters && x != y ==>
                              s.waits.waiters[x].requestId != s.waits.waiters[y].requestId
    ensures var t := Step(s, Message(r));
            && (Matches(s.waits.waiters[id], r) ==>
                  && id in t.waits.endings && t.waits.endings[id] == EndingOf(r)
                  && t.waits.waiters == s.waits.waiters - {id})
            && (!Matches(s.waits.waiters[id], r) ==>
                  && id in t.waits.waiters && t.waits.waiters[id] == s.waits.waiters[id]
                  && (id in t.waits.timers <==> id in s.waits.timers))
  {
    hide Accounted, PromisesKept;
    if Matches(s.waits.waiters[id], r) {
      assert AnsweredBy(s.waits.waiters, r) == {id};
    }
  }

  /** A lost connection and a closed client leave no request outstanding and no message queued. */
  lemma LossLeavesNothing(s: Client)
    requires Inv(s) && s.link.status != Disposed
    ensures forall t | t == ScheduleReconnect(s) || t == Close(s) ::
              && t.waits.waiters == map[] && t.waits.timers == {} && t.sends.queue == []
              && (forall id: nat | id < s.calls :: id in t.waits.endings)
              && (forall id | id in s.waits.waiters :: t.waits.endings[id] == ConnectionLost)
  {
    ClearKeeps(s);
    EndKeeps(s.waits, s.waits.waiters.Keys, ConnectionLost, s.calls);
    hide Accounted, PromisesKept, RejectQueue, LoseLink, CloseLink;
  }

  // ---------------------------------------------------------------- the send queue

  /**
   Conservation: every message ever handed in is, at any time, exactly one of waiting,
   transmitted once, or refused once; and those that waited go out in the order of their calls.
   */
  lemma SendConservation(reconnectEnabled: bool, es: seq<Event>)
    ensures var s := Run(NewClient(reconnectEnabled), es);
            && (forall id: nat :: Fates(s.sends, id) == if id < s.calls then 1 else 0)
            && Increasing(QueuedIds(s.sends.sent) + s.sends.queue)
  {
    RunKeeps(reconnectEnabled, es);
    hide Settled, PromisesKept, Step, Run;
  }

  predicate NoResubscribeFailure(es: seq<Event>) {
    forall i | 0 <= i < |es| :: es[i].Info? ==> !es[i].resubscribeThrows
  }

  predicate QueueOnlyConnecting(s: Client) {
    s.sends.queue != [] ==> s.link.status == Connecting
  }

  lemma RequestsQueueNothing(s: Client, cs: seq<Call>)
    requires s.link.attached && s.link.status == Connected
    ensures Requests(s, cs).sends.queue == s.sends.queue && Requests(s, cs).link == s.link
    decreases |cs|
  {
    if cs != [] {
      RequestsQueueNothing(s, cs[..|cs| - 1]);
    }
  }

  lemma {:induction false} FlushOverEmpties(q: Sends, ids: seq<nat>, throwing: set<nat>)
    requires q.queue == []
    ensures FlushOver(q, ids, throwing).queue == []
    decreases |ids|
  {
    if ids != [] {
      FlushOverEmpties(q, ids[..|ids| - 1], throwing);
    }
  }

  /** Becoming connected empties the queue exactly when re-subscribing does not throw. */
  lemma InfoFlushes(s: Client, listeners: seq<Call>, resubscribeThrows: bool, throwing: set<nat>)
    requires s.link.attached && s.link.status == Connecting
    ensures var t := ServerInfo(s, listeners, resubscribeThrows, throwing);
            && t.link.status == Connected
            && (QueueOnlyConnecting(t) <==> !(resubscribeThrows && s.sends.queue != []))
  {
    var t := s.(link := s.link.(connectTimer := false, status := Connected));
    RequestsQueueNothing(t, listeners);
    FlushOverEmpties(Requests(t, listeners).sends.(queue := []), Requests(t, listeners).sends.queue, throwing);
    hide Requests, FlushOver;
  }

  /** Such a run: connected, with a message left in the queue. */
  lemma QueueLeftConnected(call: Call)
    ensures var s := Run(NewClient(true), [ConnectCalled(false), RequestMade(call), Info([], true, {})]);
            s.link.status == Connected && s.sends.queue == [0]
  {
    var s0 := NewClient(true);
    var e1 := [ConnectCalled(false)];
    var e2 := e1 + [RequestMade(call)];
    RunSnoc(s0, [], ConnectCalled(false));
    RunSnoc(s0, e1, RequestMade(call));
    RunSnoc(s0, e2, Info([], true, {}));
    assert Run(s0, []) == s0;
    hide Run;
    assert [] + e1 == e1;
    assert e2 + [Info([], true, {})] == [ConnectCalled(false), RequestMade(call), Info([], true, {})];
    var s1, s2 := Run(s0, e1), Run(s0, e2);
    assert s1.link.status == Connecting && s1.link.attached && s1.sends.queue == [] && s1.calls == 0;
    assert s2.link == s1.link && s2.sends.queue == [0];
  }

  lemma QueueStep(s: Client, e: Event)
    requires QueueOnlyConnecting(s) && (e.Info? ==> !e.resubscribeThrows)
    ensures QueueOnlyConnecting(Step(s, e))
  {
    hide Requests, ClearWaiters, ResolveWaiters, End;
    if e.Info? && s.link.attached && s.link.status == Connecting {
      InfoFlushes(s, e.listeners, e.resubscribeThrows, e.throwing);
    }
  }

  /** Between events, messages wait only while a connection is being made. */
  lemma {:induction false} QueueOnlyWhileConnecting(reconnectEnabled: bool, es: seq<Event>)
    requires NoResubscribeFailure(es)
    ensures QueueOnlyConnecting(Run(NewClient(reconnectEnabled), es))
    decreases |es|
  {
    hide Step;
    if es != [] {
      QueueOnlyWhileConnecting(reconnectEnabled, es[..|es| - 1]);
      QueueStep(Run(NewClient(reconnectEnabled), es[..|es| - 1]), es[|es| - 1]);
    }
  }

  // ---------------------------------------------------------------- connect promises

  /** In every run a connect promise is held, or has ended, or was dropped by `close`: one of the three. */
  lemma ConnectPromises(reconnectEnabled: bool, es: seq<Event>, id: nat)
    ensures var l := Run(NewClient(reconnectEnabled), es).link;
            id < l.connects ==>
              && (id in l.connectEndings || id in l.dropped || l.connectHandlers == Some(id))
              && !(id in l.connectEndings && id in l.dropped)
              && !(l.connectHandlers == Some(id) && (id in l.connectEndings || id in l.dropped))
  {
    RunKeeps(reconnectEnabled, es);
    hide Settled, Accounted, Step, Run;
  }

  /** `close` settles a connect promise exactly when none was being held: a held one is forgotten. */
  lemma CloseDropsPromise(s: Client)
    requires Inv(s) && s.link.status != Disposed
    ensures var t := Close(s);
            t.link.dropped == s.link.dropped <==> s.link.connectHandlers.None?
    ensures Close(s).link.connectEndings == s.link.connectEndings
  {
    hide Settled, Accounted, ClearAll;
  }

  /**
   A first attempt that fails at once, and no other, leaves a refused promise remembered:
   `connect` then keeps returning it without trying again.
   */
  lemma RefusalIsRemembered(s: Client, fails: bool, failsAgain: bool)
    requires Inv(s) && s.link.connectPromise.None?
    requires s.link.status != Disposed && s.link.status != Connected
    ensures var t := Connect(s, fails);
            && t.link.connectPromise == Some(s.link.connects)
            && (s.link.connects in t.link.connectEndings <==> fails && s.link.status != Connecting)
            && Connect(t, failsAgain) == t
  {
    hide Settled, Accounted, ClearAll;
  }

  // ---------------------------------------------------------------- the connection

  /**
   A connection in use has its handlers attached; a closed client has nothing that could still fire,
   and only a closed one has given up reconnecting.
   */
  predicate LinkSound(l: Link) {
    && (InUse(l) ==> l.attached) && (l.status != Disposed ==> l.shouldReconnect)
    && (l.status == Disposed ==> !l.attached && !l.shouldReconnect &&
                                 !l.reconnectTimer && !l.connectTimer && !l.errorTimer)
    && (l.connectTimer || l.errorTimer ==> l.attached)
  }

  lemma RequestsLeaveLink(s: Client, cs: seq<Call>)
    ensures Requests(s, cs).link == s.link
    decreases |cs|
  {
    hide SendOrQueue;
    if cs != [] {
      RequestsLeaveLink(s, cs[..|cs| - 1]);
    }
  }

  lemma LossSound(s: Client, e: Event)
    requires LinkSound(s.link) && IsLoss(e)
    ensures LinkSound(Step(s, e).link)
    ensures Step(s, e).link.status == Disposed ==> s.link.status == Disposed
  {
    var l, lost := LossForm(s, e);
    hide Step, ClearAll;
  }

  predicate IsAttempt(e: Event) {
    e.ConnectCalled? || e.EnsureCalled? || e.ReconnectTimer?
  }

  /** Every other event that does not become connected or close leaves the connection alone. */
  lemma LinkUntouched(s: Client, e: Event)
    requires !IsLoss(e) && !IsAttempt(e) && !e.Info? && !e.CloseCalled? && !e.ReconnectSet?
    ensures Step(s, e).link == s.link
  {
    hide ResolveWaiters, QueueTimesOut, WaiterTimesOut, Cancel, AddWaiter, SendOrQueue;
  }

  lemma InfoLink(s: Client, e: Event)
    requires e.Info?
    ensures var connected := s.link.(connectTimer := false, status := Connected);
            Step(s, e).link ==
              if !s.link.attached || s.link.status != Connecting then s.link
              else if e.resubscribeThrows then connected
              else EndConnect(connected, Opened)
  {
    RequestsLeaveLink(s.(link := s.link.(connectTimer := false, status := Connected)), e.listeners);
    hide Requests, Flush, EndConnect;
  }

  lemma OneAttemptSound(s: Client, fails: bool)
    requires LinkSound(s.link)
    ensures var l := AttemptConnect(s, fails).link;
            LinkSound(l) && (l.status == Disposed <==> s.link.status == Disposed)
  {
    hide ClearAll;
  }

  lemma ConnectSound(s: Client, fails: bool)
    requires LinkSound(s.link)
    ensures var l := Connect(s, fails).link; LinkSound(l) && (l.status == Disposed <==> s.link.status == Disposed)
  {
    hide AttemptConnect;
    var l := s.link;
    if l.status != Disposed && l.status != Connected && l.connectPromise.None? {
      var made := l.(connects := l.connects + 1, shouldReconnect := true, connectHandlers := Some(l.connects));
      OneAttemptSound(s.(link := made), fails);
      var attempted := AttemptConnect(s.(link := made), fails).link;
      assert Connect(s, fails).link == attempted.(connectPromise := Some(l.connects));
    }
  }

  lemma AttemptSound(s: Client, e: Event)
    requires LinkSound(s.link) && IsAttempt(e)
    ensures LinkSound(Step(s, e).link)
    ensures Step(s, e).link.status == Disposed ==> s.link.status == Disposed
  {
    if e.ReconnectTimer? {
      OneAttemptSound(s.(link := s.link.(reconnectTimer := false)), e.fails);
      hide AttemptConnect;
    } else if e.ConnectCalled? {
      ConnectSound(s, e.fails);
      hide Connect;
    } else if s.link.status != Disposed {
      ConnectSound(s.(link := s.link.(shouldReconnect := true)), e.fails);
      hide Connect;
    }
  }

  lemma SoundStep(s: Client, e: Event)
    requires LinkSound(s.link)
    ensures LinkSound(Step(s, e).link)
  {
    if IsLoss(e) {
      LossSound(s, e);
    } else if IsAttempt(e) {
      AttemptSound(s, e);
    } else if e.Info? {
      InfoLink(s, e);
      hide Step;
    } else if !e.CloseCalled? && !e.ReconnectSet? {
      LinkUntouched(s, e);
    } else {
      hide ClearAll;
    }
  }

  lemma ClosedStep(s: Client, e: Event)
    requires LinkSound(s.link) && s.link.status == Disposed && s.sends.queue == []
    ensures var t := Step(s, e);
            t.link.status == Disposed && t.sends.queue == [] && t.sends.sent == s.sends.sent
  {
    hide ClearWaiters, ResolveWaiters, WaiterTimesOut, Cancel, End, AddWaiter, ServerInfo, AttemptConnect;
    InertWhenClosed(s, e);
  }

  /** Steps that need a transport or a timer do nothing to a closed client, and no attempt is made. */
  lemma InertWhenClosed(s: Client, e: Event)
    requires LinkSound(s.link) && s.link.status == Disposed
    ensures e.Info? ==> Step(s, e) == s
    ensures e.ReconnectTimer? || e.EnsureCalled? ==> Step(s, e) == s
  {
    hide Requests, AttemptConnect;
  }

  /** In every run: see LinkSound. */
  lemma {:induction false} ConnectionSound(reconnectEnabled: bool, es: seq<Event>)
    ensures LinkSound(Run(NewClient(reconnectEnabled), es).link)
    decreases |es|
  {
    hide Step;
    if es != [] {
      ConnectionSound(reconnectEnabled, es[..|es| - 1]);
      SoundStep(Run(NewClient(reconnectEnabled), es[..|es| - 1]), es[|es| - 1]);
    }
  }

  /** Closing is final: whatever happens afterwards, nothing is connected, queued or transmitted any more. */
  lemma ClosingIsFinal(reconnectEnabled: bool, es: seq<Event>, more: seq<Event>)
    ensures var s := Close(Run(NewClient(reconnectEnabled), es));
            var t := Run(s, more);
            && t.link.status == Disposed && !t.link.attached && !t.link.reconnectTimer
            && t.sends.queue == [] && t.sends.sent == s.sends.sent
  {
    var s := Close(Run(NewClient(reconnectEnabled), es));
    ConnectionSound(reconnectEnabled, es + [CloseCalled]);
    RunSnoc(NewClient(reconnectEnabled), es, CloseCalled);
    QueueAfterClose(reconnectEnabled, es);
    SoundRun(s, more);
  }

  lemma {:induction false} SoundRun(s: Client, more: seq<Event>)
    requires LinkSound(s.link) && s.link.status == Disposed && s.sends.queue == []
    ensures var t := Run(s, more);
            && LinkSound(t.link) && t.link.status == Disposed
            && t.sends.queue == [] && t.sends.sent == s.sends.sent
    decreases |more|
  {
    hide Step;
    if more != [] {
      SoundRun(s, more[..|more| - 1]);
      SoundStep(Run(s, more[..|more| - 1]), more[|more| - 1]);
      ClosedStep(Run(s, more[..|more| - 1]), more[|more| - 1]);
    }
  }

  /** A closed client has no queue, also when it had been closed before. */
  lemma {:induction false} QueueAfterClose(reconnectEnabled: bool, es: seq<Event>)
    ensures var s := Run(NewClient(reconnectEnabled), es);
            (s.link.status == Disposed ==> s.sends.queue == []) && Close(s).sends.queue == []
    decreases |es|
  {
    hide Step;
    if es != [] {
      var front := es[..|es| - 1];
      var s := Run(NewClient(reconnectEnabled), front);
      QueueAfterClose(reconnectEnabled, front);
      ConnectionSound(reconnectEnabled, front);
      if s.link.status == Disposed {
        ClosedStep(s, es[|es| - 1]);
      } else if Step(s, es[|es| - 1]).link.status == Disposed {
        ClosedByClosing(s, es[|es| - 1]);
      }
      ClosingEmpties(Step(s, es[|es| - 1]));
    }
  }

  lemma ClosingEmpties(s: Client)
    ensures s.link.status != Disposed ==> Close(s).sends.queue == []
    ensures s.link.status == Disposed ==> Close(s) == s
  {}

  /** Only `close` closes. */
  lemma ClosedByClosing(s: Client, e: Event)
    requires LinkSound(s.link) && s.link.status != Disposed && Step(s, e).link.status == Disposed
    ensures e == CloseCalled && Step(s, e).sends.queue == []
  {
    if IsLoss(e) {
      LossSound(s, e);
    } else if IsAttempt(e) {
      AttemptSound(s, e);
    } else if e.Info? {
      InfoLink(s, e);
      hide Step;
    } else if !e.CloseCalled? && !e.ReconnectSet? {
      LinkUntouched(s, e);
    } else {
      hide ClearWaiters;
    }
  }

  /**
   While reconnecting is on, losing the connection neither ends nor forgets a held connect promise,
   and the next attempt that gets through opens it.
   */
  lemma HeldPromiseSurvivesLoss(s: Client, id: nat, throwing: set<nat>)
    requires Inv(s) && s.link.connectHandlers == Some(id)
    requires s.link.status != Disposed && s.link.reconnectEnabled && s.link.shouldReconnect
    ensures var lost := ScheduleReconnect(s);
            var retried := ReconnectTimerFires(lost, false);
            var connected := ServerInfo(retried, [], false, throwing);
            && lost.link.connectHandlers == Some(id) && id !in lost.link.connectEndings
            && retried.link.status == Connecting && retried.link.connectHandlers == Some(id)
            && connected.link.status == Connected
            && connected.link.connectEndings == s.link.connectEndings[id := Opened]
  {
    hide Settled, Accounted, ClearWaiters, RejectQueue, Flush;
  }

  // ---------------------------------------------------------------- an old reconnect timer

  /** The reconnect timer is armed only while there is no connection to replace. */
  predicate TimerApart(l: Link) {
    InUse(l) ==> !l.reconnectTimer
  }

  /** A call that starts an attempt during the back-off: the timer is armed and no promise is remembered. */
  predicate Overlaps(s: Client, e: Event) {
    && (e == ConnectCalled(false) || e == EnsureCalled(false))
    && s.link.reconnectTimer && s.link.connectPromise.None?
  }

  lemma LossApart(s: Client, e: Event)
    requires TimerApart(s.link) && IsLoss(e)
    ensures TimerApart(Step(s, e).link)
  {
    var l, lost := LossForm(s, e);
    hide Step, ClearAll;
  }

  lemma AttemptApart(s: Client, e: Event)
    requires LinkSound(s.link) && TimerApart(s.link) && IsAttempt(e)
    ensures TimerApart(Step(s, e).link) <==> !Overlaps(s, e)
    ensures Overlaps(s, e) ==> Step(s, e).link.status == Connecting && Step(s, e).link.reconnectTimer
  {
    hide ClearAll;
  }

  /** Exactly such a call puts an armed timer beside a connection in use. */
  lemma TimerStep(s: Client, e: Event)
    requires LinkSound(s.link) && TimerApart(s.link)
    ensures TimerApart(Step(s, e).link) <==> !Overlaps(s, e)
    ensures Overlaps(s, e) ==> Step(s, e).link.status == Connecting && Step(s, e).link.reconnectTimer
  {
    if IsLoss(e) {
      LossApart(s, e);
    } else if IsAttempt(e) {
      AttemptApart(s, e);
    } else if e.Info? {
      InfoLink(s, e);
      hide Step;
    } else if !e.CloseCalled? && !e.ReconnectSet? {
      LinkUntouched(s, e);
    } else {
      hide ClearAll;
    }
  }

  predicate AlwaysApart(s: Client, es: seq<Event>) {
    forall k | 0 <= k <= |es| :: TimerApart(Run(s, es[..k]).link)
  }

  predicate NeverOverlaps(s: Client, es: seq<Event>) {
    forall k | 0 <= k < |es| :: !Overlaps(Run(s, es[..k]), es[k])
  }

  /**
   Over whole runs: a connection in use is at all times safe from the reconnect timer if and only if
   `connect` and `ensureConnected` never start an attempt while the timer of an earlier loss is armed.
   */
  lemma {:induction false} TimerApartIff(reconnectEnabled: bool, es: seq<Event>)
    ensures AlwaysApart(NewClient(reconnectEnabled), es) <==> NeverOverlaps(NewClient(reconnectEnabled), es)
    decreases |es|
  {
    hide Step, Overlaps, TimerApart;
    var s0 := NewClient(reconnectEnabled);
    if es == [] {
      assert es[..0] == [];
      NewClientApart(reconnectEnabled);
    } else {
      var front, e := es[..|es| - 1], es[|es| - 1];
      TimerApartIff(reconnectEnabled, front);
      assert es[..|es|] == es;
      assert forall k | 0 <= k <= |front| :: front[..k] == es[..k];
      if AlwaysApart(s0, front) {
        assert front[..|front|] == front;
        ConnectionSound(reconnectEnabled, front);
        TimerStep(Run(s0, front), e);
      }
      LongerRun(s0, front, e, es);
    }
  }

  lemma NewClientApart(reconnectEnabled: bool)
    ensures TimerApart(Run(NewClient(reconnectEnabled), []).link)
  {}

  lemma LongerRun(s: Client, front: seq<Event>, e: Event, es: seq<Event>)
    requires es == front + [e]
    ensures AlwaysApart(s, es) <==> AlwaysApart(s, front) && TimerApart(Run(s, es).link)
    ensures NeverOverlaps(s, es) <==> NeverOverlaps(s, front) && !Overlaps(Run(s, front), e)
  {
    hide Run, Overlaps, TimerApart;
    assert forall k | 0 <= k <= |front| :: front[..k] == es[..k];
    assert es[..|es|] == es && front[..|front|] == front && es[..|front|] == front;
  }

  /**
   What the timer does to a live connection, in every run: nothing if it is not armed, and otherwise
   it takes the connection down for a new attempt, with the requests still waiting for their replies.
   */
  lemma OldTimerReplacesConnection(reconnectEnabled: bool, es: seq<Event>, fails: bool)
    requires Run(NewClient(reconnectEnabled), es).link.status == Connected
    ensures var s := Run(NewClient(reconnectEnabled), es);
            var t := Step(s, ReconnectTimer(fails));
            if !s.link.reconnectTimer then t == s
            else
              && t.link.status == (if fails then Disconnected else Connecting)
              && t.waits == if fails then ClearWaiters(s.waits) else s.waits
  {
    ConnectionSound(reconnectEnabled, es);
    hide Run, ClearWaiters, RejectQueue;
  }

  /** A run with such a call: `connect` does not stop the timer, and it is armed on the live connection. */
  lemma OldTimerCanBeArmed()
    ensures var s := Run(NewClient(true), [ConnectCalled(false), Info([], false, {}), Closes,
                                           ConnectCalled(false), Info([], false, {})]);
            s.link.status == Connected && s.link.reconnectTimer && s.link.shouldReconnect
  {
    var s0 := NewClient(true);
    var connect, info := ConnectCalled(false), Info([], false, {});
    RunOfFive(s0, connect, info, Closes, connect, info);
    hide Run;
    ConnectAndOpen(s0);
    var s2 := Step(Step(s0, connect), info);
    var s3 := Step(s2, Closes);
    assert s3.link.status == Disconnected && s3.link.reconnectTimer && s3.link.connectPromise.None?;
    ConnectAndOpen(s3);
  }

  /** A call and a server info connect a client that is not connected; the reconnect timer stays as it is. */
  lemma ConnectAndOpen(s: Client)
    requires (s.link.status == Idle || s.link.status == Disconnected) && s.link.connectPromise.None?
    requires s.link.shouldReconnect
    ensures var l := Step(Step(s, ConnectCalled(false)), Info([], false, {})).link;
            && l.status == Connected && l.attached && l.shouldReconnect && l.connectPromise.None?
            && l.reconnectEnabled == s.link.reconnectEnabled && l.reconnectTimer == s.link.reconnectTimer
  {
    InfoLink(Step(s, ConnectCalled(false)), Info([], false, {}));
    hide ServerInfo, ClearAll;
  }

  lemma RunOfFive(s: Client, a: Event, b: Event, c: Event, d: Event, e: Event)
    ensures Run(s, [a, b, c, d, e]) == Step(Step(Step(Step(Step(s, a), b), c), d), e)
  {
    assert Run(s, []) == s && [] + [a] == [a] && [a] + [b] == [a, b] && [a, b] + [c] == [a, b, c];
    assert [a, b, c] + [d] == [a, b, c, d] && [a, b, c, d] + [e] == [a, b, c, d, e];
    hide *;
    RunSnoc(s, [], a);
    RunSnoc(s, [a], b);
    RunSnoc(s, [a, b], c);
    RunSnoc(s, [a, b, c], d);
    RunSnoc(s, [a, b, c, d], e);
  }

  lemma RunSnoc(s: Client, es: seq<Event>, e: Event)
    ensures Run(s, es + [e]) == Step(Run(s, es), e)
  {
    assert (es + [e])[..|es|] == es;
  }
}
