/**
 What each event does to the client's messages and requests, by cases on the state before it and
 in the state's own fields, and over whole runs: which messages go out, which are given up, and
 how each request ends.
 */
module ClientFates {
  import opened Wrappers
  import opened ClientState

  // ---------------------------------------------------------------- the table

  predicate Live(l: Link) {
    l.attached && l.status == Connected
  }

  /** A `connect` here makes a new attempt. */
  predicate Free(l: Link) {
    (l.status == Idle || l.status == Disconnected) && l.connectPromise == None
  }

  /** The server-info message that completes an attempt. */
  predicate Completes(l: Link, e: Event) {
    e.Info? && l.attached && l.status == Connecting
  }

  /** The event takes the connection down, or a new attempt at one fails at once. */
  predicate Loses(l: Link, e: Event) {
    match e
    case ConnectCalled(fails) => fails && Free(l)
    case EnsureCalled(fails) => fails && Free(l)
    case CloseCalled => l.status != Disposed
    case ReconnectTimer(fails) =>
      l.reconnectTimer && l.shouldReconnect && fails && l.status != Disposed && l.status != Connecting
    case ConnectTimer => l.connectTimer && l.status == Connecting
    case ErrorTimer => l.errorTimer && (l.status == Connected || l.status == Connecting)
    case Liveness => true
    case Opens(helloThrows) => l.attached && helloThrows
    case Closes => l.attached
    case Fails(generic) => l.attached && !generic
    case _ => false
  }

  /** The calls made during the event, in order. */
  function CallsOf(l: Link, e: Event): seq<Call> {
    if e.RequestMade? then [e.call] else if Completes(l, e) then e.listeners else []
  }

  /** The numbers of those calls, counted from `first`, whose transport send throws, or does not. */
  function Numbers(cs: seq<Call>, first: nat, throwing: bool): seq<nat> {
    if cs == [] then []
    else
      var n := |cs| - 1;
      Numbers(cs[..n], first, throwing) + if cs[n].sendThrows == throwing then [first + n] else []
  }

  /** The queued messages inside `throwing`, or outside it. */
  function Chosen(queue: seq<nat>, throwing: set<nat>, inside: bool): seq<nat> {
    if queue == [] then []
    else
      var n := |queue| - 1;
      Chosen(queue[..n], throwing, inside) + if (queue[n] in throwing) == inside then [queue[n]] else []
  }

  function AsSent(ids: seq<nat>, queued: bool): (r: seq<Transmission>)
    ensures |r| == |ids|
    ensures forall k | 0 <= k < |ids| :: r[k] == Transmission(ids[k], queued)
  {
    if ids == [] then [] else AsSent(ids[..|ids| - 1], queued) + [Transmission(ids[|ids| - 1], queued)]
  }

  // ---------------------------------------------------------------- messages

  /** A request: on the wire at once, queued, or refused, by the state of the connection alone. */
  lemma RequestFate(s: Client, c: Call)
    ensures var t, q, w := Step(s, RequestMade(c)), s.sends, s.waits;
      t.link == s.link && t.calls == s.calls + 1 &&
      t.sends == (if Live(s.link) && !c.sendThrows
                  then Sends(q.queue, q.sent + [Transmission(s.calls, false)], q.failed)
                  else if s.link.status == Connecting then Sends(q.queue + [s.calls], q.sent, q.failed)
                  else Sends(q.queue, q.sent, q.failed + [s.calls])) &&
      t.waits == Waits(w.waiters[s.calls := Waiter(c.requestId, c.responseKind)],
                       if c.timed then w.timers + {s.calls} else w.timers, w.endings)
  {}

  lemma {:induction false} RequestsFate(s: Client, cs: seq<Call>)
    requires Live(s.link)
    ensures var t, q := Requests(s, cs), s.sends;
      t.link == s.link && t.calls == s.calls + |cs| &&
      t.sends == Sends(q.queue, q.sent + AsSent(Numbers(cs, s.calls, false), false),
                       q.failed + Numbers(cs, s.calls, true))
  {
    if cs != [] {
      var n := |cs| - 1;
      RequestsFate(s, cs[..n]);
      RequestFate(Requests(s, cs[..n]), cs[n]);
      var good := Numbers(cs[..n], s.calls, false);
      if !cs[n].sendThrows {
        assert (good + [s.calls + n])[..|good|] == good;
      }
    }
  }

  lemma {:induction false} FlushFate(q: Sends, ids: seq<nat>, throwing: set<nat>)
    ensures FlushOver(q, ids, throwing) ==
      Sends(q.queue, q.sent + AsSent(Chosen(ids, throwing, false), true), q.failed + Chosen(ids, throwing, true))
  {
    if ids != [] {
      var n := |ids| - 1;
      FlushFate(q, ids[..n], throwing);
      var good := Chosen(ids[..n], throwing, false);
      if ids[n] !in throwing {
        assert (good + [ids[n]])[..|good|] == good;
      }
    }
  }

  /** The server-info message: the listeners' requests first, then the queue, each in order. */
  lemma InfoFate(s: Client, e: Event)
    requires Completes(s.link, e)
    ensures var t, q := Step(s, e), s.sends;
      var flushed := if e.resubscribeThrows then [] else q.queue;
      t.calls == s.calls + |e.listeners| &&
      t.sends.queue == (if e.resubscribeThrows then q.queue else []) &&
      t.sends.sent == q.sent + AsSent(Numbers(e.listeners, s.calls, false), false)
                             + AsSent(Chosen(flushed, e.throwing, false), true) &&
      t.sends.failed == q.failed + Numbers(e.listeners, s.calls, true) + Chosen(flushed, e.throwing, true)
  {
    var u := s.(link := s.link.(connectTimer := false, status := Connected));
    RequestsFate(u, e.listeners);
    var t := Requests(u, e.listeners);
    FlushFate(t.sends.(queue := []), t.sends.queue, e.throwing);
  }

  /** No other event transmits; it gives up the whole queue, one message that has waited too long, or none. */
  lemma OtherFate(s: Client, e: Event)
    requires !e.RequestMade? && !Completes(s.link, e)
    ensures var t, q := Step(s, e), s.sends;
      t.calls == s.calls && t.sends.sent == q.sent &&
      (Loses(s.link, e) ==> t.sends.queue == [] && t.sends.failed == q.failed + q.queue) &&
      (!Loses(s.link, e) ==>
         if e.QueueTimer? && e.position < |q.queue|
         then t.sends.queue == q.queue[..e.position] + q.queue[e.position + 1..] &&
              t.sends.failed == q.failed + [q.queue[e.position]]
         else t.sends == q)
  {}

  // ---------------------------------------------------------------- messages over runs

  lemma {:induction false} NumbersAre(cs: seq<Call>, first: nat, throwing: bool, id: nat)
    ensures id in Numbers(cs, first, throwing) <==>
              first <= id < first + |cs| && cs[id - first].sendThrows == throwing
  {
    if cs != [] {
      NumbersAre(cs[..|cs| - 1], first, throwing, id);
    }
  }

  lemma {:induction false} ChosenAre(queue: seq<nat>, throwing: set<nat>, inside: bool, id: nat)
    ensures id in Chosen(queue, throwing, inside) <==> id in queue && (id in throwing) == inside
  {
    if queue != [] {
      ChosenAre(queue[..|queue| - 1], throwing, inside, id);
      assert queue == queue[..|queue| - 1] + [queue[|queue| - 1]];
    }
  }

  lemma AsSentAre(ids: seq<nat>, queued: bool, id: nat, q: bool)
    ensures Transmission(id, q) in AsSent(ids, queued) <==> q == queued && id in ids
  {
    if id in ids && q == queued {
      var k :| 0 <= k < |ids| && ids[k] == id;
      assert AsSent(ids, queued)[k] == Transmission(id, q);
    }
  }

  /** Message `id` goes out during the event: as its call is made, or from the queue. */
  predicate GoesOut(s: Client, e: Event, id: nat, queued: bool) {
    if queued
    then Completes(s.link, e) && !e.resubscribeThrows && id in s.sends.queue && id !in e.throwing
    else (Completes(s.link, e) || (e.RequestMade? && Live(s.link))) &&
         s.calls <= id < s.calls + |CallsOf(s.link, e)| && !CallsOf(s.link, e)[id - s.calls].sendThrows
  }

  /** Message `id` is given up during the event. */
  predicate GivenUp(s: Client, e: Event, id: nat) {
    || (e.RequestMade? && id == s.calls && s.link.status != Connecting && (!Live(s.link) || e.call.sendThrows))
    || (Completes(s.link, e) && s.calls <= id < s.calls + |e.listeners| && e.listeners[id - s.calls].sendThrows)
    || (Completes(s.link, e) && !e.resubscribeThrows && id in s.sends.queue && id in e.throwing)
    || (e.QueueTimer? && e.position < |s.sends.queue| && id == s.sends.queue[e.position])
    || (Loses(s.link, e) && id in s.sends.queue)
  }

  lemma InThree<T>(a: seq<T>, b: seq<T>, c: seq<T>, x: T)
    ensures x in a + b + c <==> x in a || x in b || x in c
  {}

  lemma InfoSends(s: Client, e: Event, id: nat, queued: bool)
    requires Completes(s.link, e)
    ensures Transmission(id, queued) in Step(s, e).sends.sent <==>
              Transmission(id, queued) in s.sends.sent || GoesOut(s, e, id, queued)
  {
    hide Step, Numbers, Chosen, AsSent;
    InfoFate(s, e);
    var flushed := if e.resubscribeThrows then [] else s.sends.queue;
    var direct, late := Numbers(e.listeners, s.calls, false), Chosen(flushed, e.throwing, false);
    InThree(s.sends.sent, AsSent(direct, false), AsSent(late, true), Transmission(id, queued));
    AsSentAre(direct, false, id, queued);
    AsSentAre(late, true, id, queued);
    NumbersAre(e.listeners, s.calls, false, id);
    ChosenAre(flushed, e.throwing, false, id);
  }

  lemma InfoRefuses(s: Client, e: Event, id: nat)
    requires Completes(s.link, e)
    ensures id in Step(s, e).sends.failed <==> id in s.sends.failed || GivenUp(s, e, id)
  {
    hide Step, Numbers, Chosen, AsSent;
    InfoFate(s, e);
    var flushed := if e.resubscribeThrows then [] else s.sends.queue;
    var direct, late := Numbers(e.listeners, s.calls, true), Chosen(flushed, e.throwing, true);
    InThree(s.sends.failed, direct, late, id);
    NumbersAre(e.listeners, s.calls, true, id);
    ChosenAre(flushed, e.throwing, true, id);
  }

  lemma StepSends(s: Client, e: Event, id: nat, queued: bool)
    ensures Transmission(id, queued) in Step(s, e).sends.sent <==>
              Transmission(id, queued) in s.sends.sent || GoesOut(s, e, id, queued)
    ensures id in Step(s, e).sends.failed <==> id in s.sends.failed || GivenUp(s, e, id)
  {
    hide Step;
    if Completes(s.link, e) {
      InfoSends(s, e, id, queued);
      InfoRefuses(s, e, id);
    } else if e.RequestMade? {
      RequestFate(s, e.call);
    } else {
      OtherFate(s, e);
    }
  }

  ghost predicate OnceGoesOut(s: Client, es: seq<Event>, id: nat, queued: bool) {
    exists k | 0 <= k < |es| :: GoesOut(Run(s, es[..k]), es[k], id, queued)
  }

  ghost predicate OnceGivenUp(s: Client, es: seq<Event>, id: nat) {
    exists k | 0 <= k < |es| :: GivenUp(Run(s, es[..k]), es[k], id)
  }

  lemma OnceGoesOutSplits(s: Client, es: seq<Event>, id: nat, queued: bool)
    requires es != []
    ensures var n := |es| - 1;
      OnceGoesOut(s, es, id, queued) <==>
        OnceGoesOut(s, es[..n], id, queued) || GoesOut(Run(s, es[..n]), es[n], id, queued)
  {
    hide GoesOut, Run;
    var n := |es| - 1;
    assert forall k | 0 <= k < n :: es[..n][..k] == es[..k];
    if k :| 0 <= k < n && GoesOut(Run(s, es[..n][..k]), es[..n][k], id, queued) {
      assert GoesOut(Run(s, es[..k]), es[k], id, queued);
    }
  }

  lemma OnceGivenUpSplits(s: Client, es: seq<Event>, id: nat)
    requires es != []
    ensures var n := |es| - 1;
      OnceGivenUp(s, es, id) <==> OnceGivenUp(s, es[..n], id) || GivenUp(Run(s, es[..n]), es[n], id)
  {
    hide GivenUp, Run;
    var n := |es| - 1;
    assert forall k | 0 <= k < n :: es[..n][..k] == es[..k];
    if k :| 0 <= k < n && GivenUp(Run(s, es[..n][..k]), es[..n][k], id) {
      assert GivenUp(Run(s, es[..k]), es[k], id);
    }
  }

  /** Over every run: the messages transmitted and those refused are exactly those of the events that say so. */
  lemma {:induction false} FatesOfRun(s: Client, es: seq<Event>, id: nat, queued: bool)
    ensures Transmission(id, queued) in Run(s, es).sends.sent <==>
              Transmission(id, queued) in s.sends.sent || OnceGoesOut(s, es, id, queued)
    ensures id in Run(s, es).sends.failed <==> id in s.sends.failed || OnceGivenUp(s, es, id)
  {
    hide GoesOut, GivenUp, Step;
    if es != [] {
      var n := |es| - 1;
      FatesOfRun(s, es[..n], id, queued);
      StepSends(Run(s, es[..n]), es[n], id, queued);
      OnceGoesOutSplits(s, es, id, queued);
      OnceGivenUpSplits(s, es, id);
      hide OnceGoesOut, OnceGivenUp;
    }
  }

  // ---------------------------------------------------------------- requests

  /** How the event ends the request `id`, if it does. */
  function EndedBy(s: Client, e: Event, id: nat): Option<Ending> {
    var w := s.waits;
    match e
    case WaiterTimer(i) => if i == id && id in w.timers then Some(TimedOut) else None
    case CancelRuns(i) => if i == id && id in s.sends.failed && id !in w.endings then Some(SendFailed) else None
    case Message(reply) =>
      if !s.link.attached || id !in w.waiters then None
      else
        (match reply
         case RpcError(requestId) => if requestId == w.waiters[id].requestId then Some(RpcFailed) else None
         case Response(kind, requestId) =>
           if requestId == w.waiters[id].requestId && kind == w.waiters[id].responseKind
           then Some(Answered) else None
         case Unrelated => None)
    case _ => if Loses(s.link, e) && id in w.waiters then Some(ConnectionLost) else None
  }

  /** How a request stands: its waiter, its timer and its ending are the same in both. */
  predicate SameRequest(w: Waits, v: Waits, id: nat) {
    && (id in v.waiters <==> id in w.waiters) && (id in w.waiters ==> v.waiters[id] == w.waiters[id])
    && (id in v.timers <==> id in w.timers)
    && (id in v.endings <==> id in w.endings) && (id in w.endings ==> v.endings[id] == w.endings[id])
  }

  /** It has ended, by `x` if it had not ended before. */
  predicate EndedRequest(w: Waits, v: Waits, id: nat, x: Ending) {
    && id !in v.waiters && id !in v.timers
    && id in v.endings && v.endings[id] == if id in w.endings then w.endings[id] else x
  }

  lemma LossEnds(s: Client, e: Event, id: nat)
    requires Loses(s.link, e)
    ensures Step(s, e).waits.waiters == map[] && Step(s, e).waits.timers == s.waits.timers - s.waits.waiters.Keys
    ensures id in s.waits.waiters ==> EndedRequest(s.waits, Step(s, e).waits, id, ConnectionLost)
    ensures id !in s.waits.waiters ==> SameRequest(s.waits, Step(s, e).waits, id)
  {
    LossClears(s, e);
  }

  lemma LossClears(s: Client, e: Event)
    requires Loses(s.link, e)
    ensures Step(s, e).waits == ClearWaiters(s.waits)
  {}

  lemma InfoWaits(s: Client, e: Event, id: nat)
    requires Completes(s.link, e) && id < s.calls
    ensures SameRequest(s.waits, Step(s, e).waits, id)
  {
    RequestsWait(s.(link := s.link.(connectTimer := false, status := Connected)), e.listeners, id);
  }

  lemma {:induction false} RequestsWait(s: Client, cs: seq<Call>, id: nat)
    requires id < s.calls
    ensures Requests(s, cs).calls == s.calls + |cs|
    ensures SameRequest(s.waits, Requests(s, cs).waits, id)
  {
    if cs != [] {
      RequestsWait(s, cs[..|cs| - 1], id);
    }
  }

  /** A request a listener makes has its waiter afterwards, with its id, its kind and its timer. */
  lemma ListenersWait(s: Client, e: Event, k: nat)
    requires Completes(s.link, e) && k < |e.listeners|
    ensures var id, v := s.calls + k, Step(s, e).waits;
      id in v.waiters && v.waiters[id] == Waiter(e.listeners[k].requestId, e.listeners[k].responseKind) &&
      (id in v.timers <==> e.listeners[k].timed || id in s.waits.timers)
  {
    RequestsMakeWaiters(s.(link := s.link.(connectTimer := false, status := Connected)), e.listeners, k);
  }

  lemma {:induction false} RequestsMakeWaiters(s: Client, cs: seq<Call>, k: nat)
    requires k < |cs|
    ensures var id, v := s.calls + k, Requests(s, cs).waits;
      id in v.waiters && v.waiters[id] == Waiter(cs[k].requestId, cs[k].responseKind) &&
      (id in v.timers <==> cs[k].timed || id in s.waits.timers)
    decreases |cs|
  {
    var n := |cs| - 1;
    RequestsCalls(s, cs[..n]);
    if k < n {
      RequestsMakeWaiters(s, cs[..n], k);
    } else {
      NotYetTimed(s, cs[..n], s.calls + k);
    }
  }

  lemma {:induction false} RequestsCalls(s: Client, cs: seq<Call>)
    ensures Requests(s, cs).calls == s.calls + |cs|
  {
    if cs != [] {
      RequestsCalls(s, cs[..|cs| - 1]);
    }
  }

  lemma {:induction false} NotYetTimed(s: Client, cs: seq<Call>, id: nat)
    requires id >= s.calls + |cs|
    ensures id in Requests(s, cs).waits.timers <==> id in s.waits.timers
  {
    if cs != [] {
      NotYetTimed(s, cs[..|cs| - 1], id);
      RequestsCalls(s, cs[..|cs| - 1]);
    }
  }

  /** A request made before the event ends by it as the table says, or stays as it was. */
  lemma RequestEnds(s: Client, e: Event, id: nat)
    requires id < s.calls
    ensures EndedBy(s, e, id) == None ==> SameRequest(s.waits, Step(s, e).waits, id)
    ensures EndedBy(s, e, id).Some? ==> EndedRequest(s.waits, Step(s, e).waits, id, EndedBy(s, e, id).value)
  {
    if Completes(s.link, e) {
      InfoWaits(s, e, id);
    } else if Loses(s.link, e) {
      LossEnds(s, e, id);
    } else {
      QuietOrSettling(s, e, id);
    }
  }

  lemma QuietOrSettling(s: Client, e: Event, id: nat)
    requires id < s.calls && !Completes(s.link, e) && !Loses(s.link, e)
    ensures EndedBy(s, e, id) == None ==> SameRequest(s.waits, Step(s, e).waits, id)
    ensures EndedBy(s, e, id).Some? ==> EndedRequest(s.waits, Step(s, e).waits, id, EndedBy(s, e, id).value)
  {
    if !(e.WaiterTimer? || e.CancelRuns? || e.Message? || e.RequestMade?) {
      QuietWaits(s, e);
    }
  }

  lemma QuietWaits(s: Client, e: Event)
    requires !Completes(s.link, e) && !Loses(s.link, e)
    requires !(e.WaiterTimer? || e.CancelRuns? || e.Message? || e.RequestMade?)
    ensures Step(s, e).waits == s.waits
  {}

  /** The event is the first to end the request, by `x`. */
  predicate FirstEnds(s: Client, e: Event, id: nat, x: Ending) {
    id !in s.waits.endings && EndedBy(s, e, id) == Some(x)
  }

  ghost predicate OnceEnds(s: Client, es: seq<Event>, id: nat, x: Ending) {
    exists k | 0 <= k < |es| :: FirstEnds(Run(s, es[..k]), es[k], id, x)
  }

  lemma OnceEndsSplits(s: Client, es: seq<Event>, id: nat, x: Ending)
    requires es != []
    ensures var n := |es| - 1;
      OnceEnds(s, es, id, x) <==> OnceEnds(s, es[..n], id, x) || FirstEnds(Run(s, es[..n]), es[n], id, x)
  {
    hide FirstEnds, Run;
    var n := |es| - 1;
    assert forall k | 0 <= k < n :: es[..n][..k] == es[..k];
    if k :| 0 <= k < n && FirstEnds(Run(s, es[..n][..k]), es[..n][k], id, x) {
      assert FirstEnds(Run(s, es[..k]), es[k], id, x);
    }
  }

  predicate HasEnding(w: Waits, id: nat, x: Ending) {
    id in w.endings && w.endings[id] == x
  }

  /** Over every run: a request has ended one way exactly when the first event to end it says so. */
  lemma {:induction false} EndingOfRun(s: Client, es: seq<Event>, id: nat, x: Ending)
    requires id < s.calls && id !in s.waits.endings
    ensures s.calls <= Run(s, es).calls
    ensures HasEnding(Run(s, es).waits, id, x) <==> OnceEnds(s, es, id, x)
  {
    hide EndedBy, Step;
    if es != [] {
      var n := |es| - 1;
      EndingOfRun(s, es[..n], id, x);
      CallsGrow(Run(s, es[..n]), es[n]);
      RequestEnds(Run(s, es[..n]), es[n], id);
      OnceEndsSplits(s, es, id, x);
      hide OnceEnds;
    }
  }

  lemma CallsGrow(s: Client, e: Event)
    ensures s.calls <= Step(s, e).calls
  {
    if e.RequestMade? {
      RequestFate(s, e.call);
    } else if Completes(s.link, e) {
      InfoFate(s, e);
    } else {
      OtherFate(s, e);
    }
  }
}
