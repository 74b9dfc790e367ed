/**
 The daemon client's connection and request core, one function per entry point.

 A request is named by the number of its call; the same number names its waiter and its
 message. Timers are flags that a step may fire; a transport event can only arrive while
 the transport's handlers are attached. What a promise did is recorded where it settles.
 */
module ClientState {
  import opened Wrappers

  datatype Status = Idle | Connecting | Connected | Disconnected | Disposed

  datatype Reply =
    | RpcError(requestId: string)
    | Response(kind: string, requestId: string)
    | Unrelated

  datatype Waiter = Waiter(requestId: string, responseKind: string)

  /** How a request's promise ended. */
  datatype Ending = Answered | RpcFailed | TimedOut | ConnectionLost | SendFailed

  /** How a connect promise ended. */
  datatype ConnectEnding = Opened | Refused

  datatype Call = Call(requestId: string, responseKind: string, timed: bool, sendThrows: bool)

  /** A message on the wire, and whether it had to wait in the queue. */
  datatype Transmission = Transmission(id: nat, queued: bool)

  /** The connection: its status, timers and connect promises. `dropped` are promises forgotten by `close`. */
  datatype Link = Link(
    status: Status, attached: bool,
    reconnectTimer: bool, connectTimer: bool, errorTimer: bool,
    shouldReconnect: bool, reconnectEnabled: bool,
    connectPromise: Option<nat>, connectHandlers: Option<nat>, connects: nat,
    connectEndings: map<nat, ConnectEnding>, dropped: set<nat>)

  /** The waiters, the ones with a timeout armed, and the requests that have ended. */
  datatype Waits = Waits(waiters: map<nat, Waiter>, timers: set<nat>, endings: map<nat, Ending>)

  /** The messages waiting for a connection, those transmitted and those refused. */
  datatype Sends = Sends(queue: seq<nat>, sent: seq<Transmission>, failed: seq<nat>)

  datatype Client = Client(link: Link, waits: Waits, sends: Sends, calls: nat)

  function NewClient(reconnectEnabled: bool): Client {
    Client(Link(Idle, false, false, false, false, true, reconnectEnabled, None, None, 0, map[], {}),
           Waits(map[], {}, map[]), Sends([], [], []), 0)
  }

  // ---------------------------------------------------------------- waiters

  predicate Matches(w: Waiter, r: Reply) {
    match r
    case RpcError(requestId) => requestId == w.requestId
    case Response(kind, requestId) => kind == w.responseKind && requestId == w.requestId
    case Unrelated => false
  }

  function EndingOf(r: Reply): Ending {
    if r.RpcError? then RpcFailed else Answered
  }

  function AnsweredBy(ws: map<nat, Waiter>, r: Reply): set<nat> {
    set id | id in ws && Matches(ws[id], r)
  }

  /** Settling a promise a second time has no effect: the first ending stays. */
  function Mark(endings: map<nat, Ending>, ids: set<nat>, ending: Ending): map<nat, Ending> {
    (map id: nat {:trigger id in ids} | id in ids :: ending) + endings
  }

  /** The waiters are taken out, their timers stopped, their promises settled. */
  function End(w: Waits, ids: set<nat>, ending: Ending): Waits {
    Waits(w.waiters - ids, w.timers - ids, Mark(w.endings, ids, ending))
  }

  function ResolveWaiters(w: Waits, r: Reply): Waits {
    End(w, AnsweredBy(w.waiters, r), EndingOf(r))
  }

  function ClearWaiters(w: Waits): Waits {
    End(w, w.waiters.Keys, ConnectionLost)
  }

  function WaiterTimesOut(w: Waits, id: nat): Waits {
    if id in w.timers then End(w, {id}, TimedOut) else w
  }

  /** `cancel`, called by a request whose send failed. */
  function Cancel(w: Waits, id: nat): Waits {
    if id in w.endings then w else End(w, {id}, SendFailed)
  }

  function AddWaiter(w: Waits, id: nat, c: Call): Waits {
    w.(waiters := w.waiters[id := Waiter(c.requestId, c.responseKind)],
       timers := if c.timed then w.timers + {id} else w.timers)
  }

  // ---------------------------------------------------------------- sending

  function RejectQueue(q: Sends): Sends {
    Sends([], q.sent, q.failed + q.queue)
  }

  function QueueTimesOut(q: Sends, position: nat): Sends {
    if position >= |q.queue| then q
    else Sends(q.queue[..position] + q.queue[position + 1..], q.sent, q.failed + [q.queue[position]])
  }

  function Transmit(q: Sends, id: nat, queued: bool): Sends {
    q.(sent := q.sent + [Transmission(id, queued)])
  }

  function Refuse(q: Sends, id: nat): Sends {
    q.(failed := q.failed + [id])
  }

  /** `sendSessionMessageOrThrow`. */
  function SendOrQueue(q: Sends, link: Link, id: nat, throws: bool): Sends {
    if link.attached && link.status == Connected then
      if throws then Refuse(q, id) else Transmit(q, id, false)
    else if link.status == Connecting then q.(queue := q.queue + [id])
    else Refuse(q, id)
  }

  /** The flush loop over the messages `ids`; `throwing` are the ones whose transport send throws. */
  function FlushOver(q: Sends, ids: seq<nat>, throwing: set<nat>): Sends {
    if ids == [] then q
    else
      var before := FlushOver(q, ids[..|ids| - 1], throwing);
      var id := ids[|ids| - 1];
      if id in throwing then Refuse(before, id) else Transmit(before, id, true)
  }

  function Flush(q: Sends, throwing: set<nat>): Sends {
    FlushOver(q.(queue := []), q.queue, throwing)
  }

  function Request(s: Client, c: Call): Client {
    s.(calls := s.calls + 1,
       waits := AddWaiter(s.waits, s.calls, c),
       sends := SendOrQueue(s.sends, s.link, s.calls, c.sendThrows))
  }

  function Requests(s: Client, cs: seq<Call>): Client {
    if cs == [] then s else Request(Requests(s, cs[..|cs| - 1]), cs[|cs| - 1])
  }

  // ---------------------------------------------------------------- connecting

  function EndConnect(l: Link, ending: ConnectEnding): Link {
    l.(connectPromise := None, connectHandlers := None,
       connectEndings :=
         if l.connectHandlers.Some? && l.connectHandlers.value !in l.connectEndings
         then l.connectEndings[l.connectHandlers.value := ending] else l.connectEndings)
  }

  function DisposeTransport(l: Link): Link {
    l.(attached := false, connectTimer := false, errorTimer := false)
  }

  /** What `scheduleReconnect` does to the connection itself. */
  function LoseLink(l: Link): Link {
    if l.status == Disposed then EndConnect(l.(reconnectTimer := false), Refused)
    else if !l.shouldReconnect || !l.reconnectEnabled then
      EndConnect(l.(reconnectTimer := false, status := Disconnected), Refused)
    else l.(reconnectTimer := true, status := Disconnected)
  }

  function ClearAll(s: Client): Client {
    s.(waits := ClearWaiters(s.waits), sends := RejectQueue(s.sends))
  }

  function ScheduleReconnect(s: Client): Client {
    ClearAll(s).(link := LoseLink(s.link))
  }

  /** `attemptConnect`; `fails` says whether building the transport throws. */
  function AttemptConnect(s: Client, fails: bool): Client {
    if s.link.status == Disposed || !s.link.shouldReconnect then s.(link := EndConnect(s.link, Refused))
    else if s.link.status == Connecting then s
    else
      var l := DisposeTransport(s.link);
      if fails then ClearAll(s).(link := EndConnect(LoseLink(l), Refused))
      else s.(link := l.(attached := true, status := Connecting, connectTimer := true))
  }

  /**
   `connect`. The new promise is remembered only after its executor has run, so an attempt
   that fails at once leaves its rejected promise remembered without its handlers.
   */
  function Connect(s: Client, fails: bool): Client {
    var l := s.link;
    if l.status == Disposed then
      s.(link := l.(connects := l.connects + 1, connectEndings := l.connectEndings[l.connects := Refused]))
    else if l.status == Connected then
      s.(link := l.(connects := l.connects + 1, connectEndings := l.connectEndings[l.connects := Opened]))
    else if l.connectPromise.Some? then s
    else
      var t := AttemptConnect(
        s.(link := l.(connects := l.connects + 1, shouldReconnect := true,
                       connectHandlers := Some(l.connects))), fails);
      t.(link := t.link.(connectPromise := Some(l.connects)))
  }

  function EnsureConnected(s: Client, fails: bool): Client {
    if s.link.status == Disposed then s
    else
      var t := s.(link := s.link.(shouldReconnect := true));
      if s.link.status == Connected || s.link.status == Connecting then t else Connect(t, fails)
  }

  /** What `close` does to the connection itself. */
  function CloseLink(l: Link): Link {
    DisposeTransport(l).(
      status := Disposed, shouldReconnect := false, reconnectTimer := false,
      connectPromise := None, connectHandlers := None,
      dropped := if l.connectHandlers.Some? then l.dropped + {l.connectHandlers.value} else l.dropped)
  }

  function Close(s: Client): Client {
    if s.link.status == Disposed then s else ClearAll(s).(link := CloseLink(s.link))
  }

  function ReconnectTimerFires(s: Client, fails: bool): Client {
    if !s.link.reconnectTimer then s
    else
      var t := s.(link := s.link.(reconnectTimer := false));
      if !s.link.shouldReconnect then t else AttemptConnect(t, fails)
  }

  function ConnectTimerFires(s: Client): Client {
    if !s.link.connectTimer then s
    else
      var t := s.(link := s.link.(connectTimer := false));
      if s.link.status != Connecting then t else ScheduleReconnect(t.(link := DisposeTransport(t.link)))
  }

  function TransportOpens(s: Client, helloThrows: bool): Client {
    if !s.link.attached then s
    else
      var t := s.(link := s.link.(errorTimer := false));
      if helloThrows then ScheduleReconnect(t) else t
  }

  function TransportCloses(s: Client): Client {
    if !s.link.attached then s
    else ScheduleReconnect(s.(link := s.link.(connectTimer := false, errorTimer := false)))
  }

  function TransportFails(s: Client, generic: bool): Client {
    if !s.link.attached then s
    else if generic then s.(link := s.link.(connectTimer := false, errorTimer := true))
    else ScheduleReconnect(s.(link := s.link.(connectTimer := false, errorTimer := false)))
  }

  function ErrorTimerFires(s: Client): Client {
    if !s.link.errorTimer then s
    else
      var t := s.(link := s.link.(errorTimer := false));
      if s.link.status == Connected || s.link.status == Connecting then ScheduleReconnect(t) else t
  }

  /** The liveness check gave up on the connection. */
  function LivenessLost(s: Client): Client {
    ScheduleReconnect(s.(link := DisposeTransport(s.link)))
  }

  /**
   The server-info message. Status listeners may issue requests at once; re-subscribing
   may throw, and then neither the queue is flushed nor the connect promise resolved.
   */
  function ServerInfo(s: Client, listeners: seq<Call>, resubscribeThrows: bool, throwing: set<nat>): Client {
    if !s.link.attached || s.link.status != Connecting then s
    else
      var t := Requests(s.(link := s.link.(connectTimer := false, status := Connected)), listeners);
      if resubscribeThrows then t
      else t.(sends := Flush(t.sends, throwing), link := EndConnect(t.link, Opened))
  }

  function Receive(s: Client, r: Reply): Client {
    if !s.link.attached then s else s.(waits := ResolveWaiters(s.waits, r))
  }

  function CancelRequest(s: Client, id: nat): Client {
    if id in s.sends.failed then s.(waits := Cancel(s.waits, id)) else s
  }

  // ---------------------------------------------------------------- runs

  datatype Event =
    | ConnectCalled(fails: bool) | EnsureCalled(fails: bool) | CloseCalled | ReconnectSet(enabled: bool)
    | RequestMade(call: Call) | CancelRuns(id: nat)
    | WaiterTimer(id: nat) | QueueTimer(position: nat)
    | ReconnectTimer(fails: bool) | ConnectTimer | ErrorTimer | Liveness
    | Opens(helloThrows: bool) | Closes | Fails(generic: bool)
    | Info(listeners: seq<Call>, resubscribeThrows: bool, throwing: set<nat>)
    | Message(reply: Reply)

  function Step(s: Client, e: Event): Client {
    match e
    case ConnectCalled(fails) => Connect(s, fails)
    case EnsureCalled(fails) => EnsureConnected(s, fails)
    case CloseCalled => Close(s)
    case ReconnectSet(enabled) => s.(link := s.link.(reconnectEnabled := enabled))
    case RequestMade(call) => Request(s, call)
    case CancelRuns(id) => CancelRequest(s, id)
    case WaiterTimer(id) => s.(waits := WaiterTimesOut(s.waits, id))
    case QueueTimer(position) => s.(sends := QueueTimesOut(s.sends, position))
    case ReconnectTimer(fails) => ReconnectTimerFires(s, fails)
    case ConnectTimer => ConnectTimerFires(s)
    case ErrorTimer => ErrorTimerFires(s)
    case Liveness => LivenessLost(s)
    case Opens(helloThrows) => TransportOpens(s, helloThrows)
    case Closes => TransportCloses(s)
    case Fails(generic) => TransportFails(s, generic)
    case Info(listeners, resubscribeThrows, throwing) => ServerInfo(s, listeners, resubscribeThrows, throwing)
    case Message(reply) => Receive(s, reply)
  }

  function Run(s: Client, es: seq<Event>): Client {
    if es == [] then s else Step(Run(s, es[..|es| - 1]), es[|es| - 1])
  }
}
