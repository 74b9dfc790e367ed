/** What each event does to the client's connection, by cases on the connection before it and in its own fields. */
module ClientTable {
  import opened Wrappers
  import opened ClientState
  import opened ClientFates

  /** The endings once the promise whose handlers are held has ended by `x`; its first ending stays. */
  function Ended(l: Link, x: ConnectEnding): map<nat, ConnectEnding> {
    if l.connectHandlers == None then l.connectEndings
    else map[l.connectHandlers.value := x] + l.connectEndings
  }

  predicate Connects(e: Event) {
    e.ConnectCalled? || e.EnsureCalled?
  }

  /** A lost connection is tried again. */
  predicate Retries(l: Link, e: Event) {
    l.status != Disposed && l.reconnectEnabled && (l.shouldReconnect || Connects(e))
  }

  /** The connection as the event leaves it before it counts as lost. */
  function BeforeLoss(l: Link, e: Event): Link {
    if Connects(e) then
      l.(connects := l.connects + 1, shouldReconnect := true, connectHandlers := Some(l.connects),
         attached := false, connectTimer := false, errorTimer := false)
    else if e.ReconnectTimer? then
      l.(reconnectTimer := false, attached := false, connectTimer := false, errorTimer := false)
    else if e.ConnectTimer? || e.Liveness? then
      l.(attached := false, connectTimer := false, errorTimer := false)
    else if e.Opens? || e.ErrorTimer? then l.(errorTimer := false)
    else l.(connectTimer := false, errorTimer := false)
  }

  lemma LossIsLoseLink(s: Client, e: Event)
    requires Loses(s.link, e) && e != CloseCalled && !Connects(e) && !e.ReconnectTimer?
    ensures Step(s, e).link == LoseLink(BeforeLoss(s.link, e))
  {
    hide LoseLink, ClearAll;
  }

  lemma FailureIsLoseLink(s: Client, e: Event)
    requires Loses(s.link, e) && (Connects(e) || e.ReconnectTimer?)
    ensures var t := EndConnect(LoseLink(BeforeLoss(s.link, e)), Refused);
      Step(s, e).link == if Connects(e) then t.(connectPromise := Some(s.link.connects)) else t
  {
    hide LoseLink, ClearAll, EndConnect;
    if Connects(e) {
      ConnectFails(s, e);
    }
  }

  lemma ConnectFails(s: Client, e: Event)
    requires Connects(e) && e.fails && Free(s.link)
    ensures var t := EndConnect(LoseLink(BeforeLoss(s.link, e)), Refused);
      Step(s, e).link == t.(connectPromise := Some(s.link.connects))
  {
    hide *;
    FreeConnects(s, e);
    FreeBeforeLoss(s.link, e);
    AttemptFails(s.(link := Made(s.link)));
  }

  /** The connection with a new promise, before the attempt. */
  function Made(l: Link): Link {
    l.(connects := l.connects + 1, shouldReconnect := true, connectHandlers := Some(l.connects))
  }

  lemma FreeBeforeLoss(l: Link, e: Event)
    requires Connects(e) && Free(l)
    ensures BeforeLoss(l, e) == DisposeTransport(Made(l))
    ensures Made(l).status != Disposed && Made(l).status != Connecting && Made(l).shouldReconnect
  {}

  lemma AttemptFails(s: Client)
    requires s.link.status != Disposed && s.link.status != Connecting && s.link.shouldReconnect
    ensures AttemptConnect(s, true).link == EndConnect(LoseLink(DisposeTransport(s.link)), Refused)
  {
    hide LoseLink, ClearAll, EndConnect, DisposeTransport;
  }

  /** From rest, `connect` and `ensureConnected` are one attempt for a new promise. */
  lemma FreeConnects(s: Client, e: Event)
    requires Connects(e) && Free(s.link)
    ensures var t := AttemptConnect(s.(link := Made(s.link)), e.fails);
      Step(s, e) == t.(link := t.link.(connectPromise := Some(s.link.connects)))
  {
    hide AttemptConnect;
  }

  /** A loss: the client is disconnected, or stays disposed, and tries again exactly when it is meant to. */
  lemma LostStatus(s: Client, e: Event)
    requires Loses(s.link, e) && e != CloseCalled
    ensures var l, t := s.link, Step(s, e).link;
      && t.status == (if l.status == Disposed then Disposed else Disconnected)
      && t.reconnectTimer == Retries(l, e)
      && t.shouldReconnect == (l.shouldReconnect || Connects(e))
      && t.reconnectEnabled == l.reconnectEnabled && t.dropped == l.dropped
  {
    hide Step;
    if Connects(e) || e.ReconnectTimer? {
      FailureIsLoseLink(s, e);
    } else {
      LossIsLoseLink(s, e);
    }
  }

  /** The transport is let go by a time-out, a failed attempt and the liveness check; the timers that do not stop. */
  lemma LostTransport(s: Client, e: Event)
    requires Loses(s.link, e) && e != CloseCalled
    ensures var l, t := s.link, Step(s, e).link;
      && t.attached == (l.attached && (e.Opens? || e.Closes? || e.Fails? || e.ErrorTimer?))
      && t.connectTimer == (l.connectTimer && (e.Opens? || e.ErrorTimer?))
      && !t.errorTimer
  {
    hide Step;
    if Connects(e) || e.ReconnectTimer? {
      FailureIsLoseLink(s, e);
    } else {
      LossIsLoseLink(s, e);
    }
  }

  /** A loss keeps a held promise for the next attempt, and refuses it when there is none. */
  lemma LostPromise(s: Client, e: Event)
    requires Loses(s.link, e) && e != CloseCalled && !Connects(e) && !e.ReconnectTimer?
    ensures var l, t := s.link, Step(s, e).link;
      && t.connects == l.connects
      && (Retries(l, e) ==>
            t.connectPromise == l.connectPromise && t.connectHandlers == l.connectHandlers &&
            t.connectEndings == l.connectEndings)
      && (!Retries(l, e) ==>
            t.connectPromise == None && t.connectHandlers == None && t.connectEndings == Ended(l, Refused))
  {
    hide Step;
    LossIsLoseLink(s, e);
  }

  /** An attempt that fails at once refuses its promise; the one of a `connect` is remembered all the same. */
  lemma FailedPromise(s: Client, e: Event)
    requires Loses(s.link, e) && (Connects(e) || e.ReconnectTimer?)
    ensures var l, t := s.link, Step(s, e).link;
      && t.connectHandlers == None
      && t.connects == (if Connects(e) then l.connects + 1 else l.connects)
      && t.connectPromise == (if Connects(e) then Some(l.connects) else None)
      && t.connectEndings == (if Connects(e) then map[l.connects := Refused] + l.connectEndings else Ended(l, Refused))
  {
    hide Step;
    FailureIsLoseLink(s, e);
  }

  /** `close`: nothing of the connection is left, and a held promise is dropped. */
  lemma ClosedLink(s: Client)
    ensures var l := s.link;
      Step(s, CloseCalled).link ==
        if l.status == Disposed then l
        else Link(Disposed, false, false, false, false, false, l.reconnectEnabled, None, None, l.connects,
                  l.connectEndings, l.dropped + if l.connectHandlers == None then {} else {l.connectHandlers.value})
  {}

  /** A successful attempt, by `connect` or `ensureConnected` from rest. */
  lemma AttemptedLink(s: Client, e: Event)
    requires Connects(e) && !e.fails && Free(s.link)
    ensures var l := s.link;
      Step(s, e).link == Link(Connecting, true, l.reconnectTimer, true, false, true, l.reconnectEnabled,
                              Some(l.connects), Some(l.connects), l.connects + 1, l.connectEndings, l.dropped) &&
      Step(s, e).waits == s.waits && Step(s, e).sends == s.sends
  {
    FreeConnects(s, e);
    FreeBeforeLoss(s.link, e);
    hide Step, BeforeLoss, Free, LoseLink, ClearAll, EndConnect;
  }

  /** A `connect` or `ensureConnected` that makes no attempt. */
  lemma UnattemptedLink(s: Client, e: Event)
    requires Connects(e) && !Free(s.link)
    ensures var l, t := s.link, Step(s, e).link;
      && (e.ConnectCalled? && l.status == Disposed ==>
            t == l.(connects := l.connects + 1, connectEndings := l.connectEndings + map[l.connects := Refused]))
      && (e.ConnectCalled? && l.status == Connected ==>
            t == l.(connects := l.connects + 1, connectEndings := l.connectEndings + map[l.connects := Opened]))
      && (e.EnsureCalled? && l.status == Disposed ==> t == l)
      && (e.EnsureCalled? && l.status != Disposed ==> t == l.(shouldReconnect := true))
  {}

  /** The same for a `connect` while a connection is being made or a promise is held. */
  lemma UnattemptedConnect(s: Client, e: Event)
    requires e.ConnectCalled? && !Free(s.link)
    ensures var l, t := s.link, Step(s, e).link;
      && (l.status == Connecting && l.connectPromise == None ==>
            t == l.(connects := l.connects + 1, shouldReconnect := true,
                    connectPromise := Some(l.connects), connectHandlers := Some(l.connects)))
      && (l.status != Disposed && l.status != Connected && l.connectPromise.Some? ==> t == l)
  {}

  /** The reconnect timer, when no attempt fails at once: it stops, and makes an attempt unless that is pointless. */
  lemma ReconnectedLink(s: Client, e: Event)
    requires e.ReconnectTimer? && !Loses(s.link, e)
    ensures var l, t := s.link, Step(s, e).link;
      && (!l.reconnectTimer || !l.shouldReconnect || l.status == Connecting ==>
            t == l.(reconnectTimer := false))
      && (l.reconnectTimer && l.shouldReconnect && l.status == Disposed ==>
            t == l.(reconnectTimer := false, connectPromise := None, connectHandlers := None,
                    connectEndings := Ended(l, Refused)))
      && (l.reconnectTimer && l.shouldReconnect && l.status != Disposed && l.status != Connecting ==>
            t == l.(reconnectTimer := false, attached := true, status := Connecting,
                    connectTimer := true, errorTimer := false))
  {}

  lemma {:induction false} RequestsLink(s: Client, cs: seq<Call>)
    ensures Requests(s, cs).link == s.link
  {
    if cs != [] {
      RequestsLink(s, cs[..|cs| - 1]);
    }
  }

  /** The server-info message opens the connection; the promise opens with it unless re-subscribing throws. */
  lemma InfoLink(s: Client, e: Event)
    requires e.Info?
    ensures var l, t := s.link, Step(s, e).link;
      && (!Completes(l, e) ==> t == l)
      && (Completes(l, e) && e.resubscribeThrows ==> t == l.(status := Connected, connectTimer := false))
      && (Completes(l, e) && !e.resubscribeThrows ==>
            t == l.(status := Connected, connectTimer := false, connectPromise := None, connectHandlers := None,
                    connectEndings := Ended(l, Opened)))
  {
    if Completes(s.link, e) {
      RequestsLink(s.(link := s.link.(connectTimer := false, status := Connected)), e.listeners);
    }
  }

  /** Timers and transport events that take nothing down, and the events that do not concern the connection. */
  lemma QuietLink(s: Client, e: Event)
    requires !Loses(s.link, e) && !Connects(e) && !e.ReconnectTimer? && !e.Info?
    ensures var l, t := s.link, Step(s, e).link;
      && (e.ReconnectSet? ==> t == l.(reconnectEnabled := e.enabled))
      && (e.ConnectTimer? ==> t == l.(connectTimer := false))
      && (e.ErrorTimer? ==> t == l.(errorTimer := false))
      && (e.Opens? ==> t == if l.attached then l.(errorTimer := false) else l)
      && (e.Fails? ==> t == if l.attached then l.(connectTimer := false, errorTimer := true) else l)
      && (!e.ReconnectSet? && !e.ConnectTimer? && !e.ErrorTimer? && !e.Opens? && !e.Fails? ==> t == l)
  {}

  /** A new client. */
  lemma NewLink(reconnectEnabled: bool)
    ensures var s := NewClient(reconnectEnabled);
      && s.link.status == Idle && !s.link.attached && s.link.shouldReconnect
      && !s.link.reconnectTimer && !s.link.connectTimer && !s.link.errorTimer
      && s.link.reconnectEnabled == reconnectEnabled && s.link.connectPromise == None
      && s.link.connectHandlers == None && s.link.connects == 0 && s.link.connectEndings == map[]
      && s.link.dropped == {} && s.calls == 0
      && s.waits.waiters == map[] && s.waits.timers == {} && s.waits.endings == map[]
      && s.sends.queue == [] && s.sends.sent == [] && s.sends.failed == []
  {}
}
