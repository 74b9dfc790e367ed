/** The class: its fields are updated in place by the methods, each proved to be one step of ClientState. */
module DaemonClient {
  import opened Wrappers
  import opened ClientState
  import Spec = ClientState

  lemma MarkMore(endings: map<nat, Ending>, done: set<nat>, id: nat, ending: Ending)
    ensures Mark(Mark(endings, done, ending), {id}, ending) == Mark(endings, done + {id}, ending)
  {}

  class DaemonClient {
    var status: Status
    var attached: bool
    var reconnectTimer: bool
    var connectTimer: bool
    var errorTimer: bool
    var shouldReconnect: bool
    var reconnectEnabled: bool
    var connectPromise: Option<nat>
    var connectHandlers: Option<nat>
    var connects: nat
    var connectEndings: map<nat, ConnectEnding>
    var dropped: set<nat>
    var waiters: map<nat, Waiter>
    var waiterTimers: set<nat>
    var endings: map<nat, Ending>
    var pendingSendQueue: seq<nat>
    var sent: seq<Transmission>
    var failed: seq<nat>
    var calls: nat

    ghost function TheLink(): Link
      reads this`status, this`attached, this`reconnectTimer, this`connectTimer, this`errorTimer,
            this`shouldReconnect, this`reconnectEnabled, this`connectPromise, this`connectHandlers,
            this`connects, this`connectEndings, this`dropped
    {
      Link(status, attached, reconnectTimer, connectTimer, errorTimer, shouldReconnect, reconnectEnabled,
           connectPromise, connectHandlers, connects, connectEndings, dropped)
    }

    ghost function TheWaits(): Waits
      reads this`waiters, this`waiterTimers, this`endings
    {
      Waits(waiters, waiterTimers, endings)
    }

    ghost function TheSends(): Sends
      reads this`pendingSendQueue, this`sent, this`failed
    {
      Sends(pendingSendQueue, sent, failed)
    }

    ghost function Value(): Client
      reads this
    {
      Client(TheLink(), TheWaits(), TheSends(), calls)
    }

    /** Waiters are numbered by the calls that made them. */
    ghost predicate Valid()
      reads this`waiters, this`calls
    {
      forall id | id in waiters :: id < calls
    }

    constructor (reconnectEnabled: bool)
      ensures Valid() && Value() == NewClient(reconnectEnabled)
    {
      status, attached := Idle, false;
      reconnectTimer, connectTimer, errorTimer := false, false, false;
      shouldReconnect, this.reconnectEnabled := true, reconnectEnabled;
      connectPromise, connectHandlers, connects := None, None, 0;
      connectEndings, dropped := map[], {};
      waiters, waiterTimers, endings := map[], {}, map[];
      pendingSendQueue, sent, failed, calls := [], [], [], 0;
    }

    // -------------------------------------------------------------- waiters

    /** A promise's resolve or reject: only the first call has an effect. */
    method Settle(id: nat, ending: Ending)
      modifies this`endings
      ensures endings == Mark(old(endings), {id}, ending)
    {
      if id in endings {
        assert Mark(endings, {id}, ending) == endings;
        return;
      }
      endings := endings[id := ending];
      assert endings == Mark(old(endings), {id}, ending);
    }

    /** Offers the message to every waiter that was there when it arrived. */
    method ResolveWaiters(r: Reply)
      requires Valid()
      modifies this`waiters, this`waiterTimers, this`endings
      ensures Valid() && TheWaits() == Spec.ResolveWaiters(old(TheWaits()), r)
    {
      hide Mark;
      var snapshot := waiters;
      ghost var done: set<nat> := {};
      MarkNone(endings, EndingOf(r));
      for id := 0 to calls
        invariant done == set i | i in snapshot && Matches(snapshot[i], r) && i < id
        invariant waiters == snapshot - done && waiterTimers == old(waiterTimers) - done
        invariant endings == Mark(old(endings), done, EndingOf(r))
      {
        if id in snapshot && Matches(snapshot[id], r) {
          waiters := waiters - {id};
          waiterTimers := waiterTimers - {id};
          Settle(id, EndingOf(r));
          MarkMore(old(endings), done, id, EndingOf(r));
          done := done + {id};
        }
      }
      assert done == AnsweredBy(snapshot, r);
    }

    lemma MarkNone(endings: map<nat, Ending>, ending: Ending)
      ensures Mark(endings, {}, ending) == endings
    {}

    method ClearWaiters()
      requires Valid()
      modifies this`waiters, this`waiterTimers, this`endings
      ensures Valid() && TheWaits() == Spec.ClearWaiters(old(TheWaits()))
    {
      hide Mark;
      ghost var done: set<nat> := {};
      MarkNone(endings, ConnectionLost);
      for id := 0 to calls
        invariant waiters == old(waiters)
        invariant done == set i | i in waiters && i < id
        invariant waiterTimers == old(waiterTimers) - done
        invariant endings == Mark(old(endings), done, ConnectionLost)
      {
        if id in waiters {
          waiterTimers := waiterTimers - {id};
          Settle(id, ConnectionLost);
          MarkMore(old(endings), done, id, ConnectionLost);
          done := done + {id};
        }
      }
      assert done == waiters.Keys;
      waiters := map[];
      assert old(waiters) - old(waiters).Keys == map[];
    }

    method WaiterTimesOut(id: nat)
      requires Valid() && id in waiterTimers
      modifies this`waiters, this`waiterTimers, this`endings
      ensures Valid() && TheWaits() == Spec.WaiterTimesOut(old(TheWaits()), id)
    {
      waiters := waiters - {id};
      waiterTimers := waiterTimers - {id};
      Settle(id, TimedOut);
    }

    method Cancel(id: nat)
      requires Valid()
      modifies this`waiters, this`waiterTimers, this`endings
      ensures Valid() && TheWaits() == Spec.Cancel(old(TheWaits()), id)
    {
      if id in endings {
        return;
      }
      waiters := waiters - {id};
      waiterTimers := waiterTimers - {id};
      Settle(id, SendFailed);
    }

    // -------------------------------------------------------------- sending

    method RejectPendingSendQueue()
      modifies this`pendingSendQueue, this`failed
      ensures TheSends() == RejectQueue(old(TheSends()))
    {
      var queue := pendingSendQueue;
      pendingSendQueue := [];
      for i := 0 to |queue|
        invariant pendingSendQueue == []
        invariant failed == old(failed) + queue[..i]
      {
        failed := failed + [queue[i]];
      }
    }

    /** On a connection that is gone every message is refused, as if its send threw. */
    method FlushPendingSendQueue(throwing: set<nat>)
      modifies this`pendingSendQueue, this`failed, this`sent
      ensures var refused := if attached && status == Connected then throwing else set id | id in old(pendingSendQueue);
              TheSends() == Flush(old(TheSends()), refused)
    {
      var queue := pendingSendQueue;
      pendingSendQueue := [];
      ghost var before := TheSends();
      ghost var refused := if attached && status == Connected then throwing else set id | id in queue;
      for i := 0 to |queue|
        invariant TheSends() == FlushOver(before, queue[..i], refused)
      {
        assert queue[..i + 1][..i] == queue[..i];
        if attached && status == Connected && queue[i] !in throwing {
          sent := sent + [Transmission(queue[i], true)];
        } else {
          failed := failed + [queue[i]];
        }
      }
      assert queue[..|queue|] == queue;
    }

    method QueueTimesOut(position: nat)
      requires position < |pendingSendQueue|
      modifies this`pendingSendQueue, this`failed
      ensures TheSends() == Spec.QueueTimesOut(old(TheSends()), position)
    {
      failed := failed + [pendingSendQueue[position]];
      pendingSendQueue := pendingSendQueue[..position] + pendingSendQueue[position + 1..];
    }

    method SendSessionMessageOrThrow(id: nat, throws: bool)
      modifies this`sent, this`pendingSendQueue, this`failed
      ensures TheSends() == SendOrQueue(old(TheSends()), TheLink(), id, throws)
    {
      if attached && status == Connected {
        if throws {
          failed := failed + [id];
        } else {
          sent := sent + [Transmission(id, false)];
        }
        return;
      }
      if status == Connecting {
        pendingSendQueue := pendingSendQueue + [id];
        return;
      }
      failed := failed + [id];
    }

    method SendRequest(call: Call) returns (id: nat)
      requires Valid()
      modifies this`calls, this`waiters, this`waiterTimers, this`sent, this`pendingSendQueue, this`failed
      ensures Valid() && id == old(calls)
      ensures Value() == Request(old(Value()), call)
    {
      hide SendOrQueue, AddWaiter, TheLink, TheWaits, TheSends;
      id := calls;
      WaitFor(id, call);
      SendSessionMessageOrThrow(id, call.sendThrows);
    }

    /** `waitForWithCancel`: the waiter and its timeout. */
    method WaitFor(id: nat, call: Call)
      requires Valid() && id == calls
      modifies this`calls, this`waiters, this`waiterTimers
      ensures Valid() && calls == id + 1 && TheWaits() == AddWaiter(old(TheWaits()), id, call)
    {
      calls := calls + 1;
      waiters := waiters[id := Waiter(call.requestId, call.responseKind)];
      if call.timed {
        waiterTimers := waiterTimers + {id};
      }
    }

    // -------------------------------------------------------------- connecting

    method SettleConnect(ending: ConnectEnding)
      modifies this`connectPromise, this`connectHandlers, this`connectEndings
      ensures TheLink() == EndConnect(old(TheLink()), ending)
    {
      if connectHandlers.Some? && connectHandlers.value !in connectEndings {
        connectEndings := connectEndings[connectHandlers.value := ending];
      }
      connectPromise := None;
      connectHandlers := None;
    }

    method ResetTransport()
      modifies this`attached, this`connectTimer, this`errorTimer
      ensures TheLink() == DisposeTransport(old(TheLink()))
    {
      connectTimer := false;
      errorTimer := false;
      attached := false;
    }

    /** Waiters and queued messages of a connection that is gone. */
    method ClearEverything()
      requires Valid()
      modifies this`waiters, this`waiterTimers, this`endings, this`pendingSendQueue, this`failed
      ensures Valid() && Value() == ClearAll(old(Value()))
    {
      hide Spec.ClearWaiters, RejectQueue;
      ClearWaiters();
      RejectPendingSendQueue();
    }

    /** The status, the connect promise and the reconnect timer of a lost connection. */
    method LoseConnection()
      modifies this`status, this`reconnectTimer, this`connectPromise, this`connectHandlers, this`connectEndings
      ensures TheLink() == LoseLink(old(TheLink()))
    {
      hide EndConnect;
      reconnectTimer := false;
      if status == Disposed {
        SettleConnect(Refused);
        return;
      }
      status := Disconnected;
      if !shouldReconnect || !reconnectEnabled {
        SettleConnect(Refused);
        return;
      }
      reconnectTimer := true;
    }

    method ScheduleReconnect()
      requires Valid()
      modifies this
      ensures Valid() && Value() == Spec.ScheduleReconnect(old(Value()))
    {
      hide Spec.ClearWaiters, RejectQueue, LoseLink;
      ClearEverything();
      LoseConnection();
    }

    method AttemptConnect(fails: bool)
      requires Valid()
      modifies this
      ensures Valid() && Value() == Spec.AttemptConnect(old(Value()), fails)
    {
      hide Spec.ClearWaiters, RejectQueue, LoseLink, EndConnect;
      if status == Disposed {
        SettleConnect(Refused);
        return;
      }
      if !shouldReconnect {
        SettleConnect(Refused);
        return;
      }
      if status == Connecting {
        return;
      }
      ResetTransport();
      if fails {
        connectTimer := false;
        FailAttempt();
        return;
      }
      StartConnecting();
    }

    method StartConnecting()
      modifies this`attached, this`status, this`connectTimer
      ensures TheLink() == old(TheLink()).(attached := true, status := Connecting, connectTimer := true)
    {
      attached := true;
      status := Connecting;
      connectTimer := true;
    }

    /** The catch block of `attemptConnect`. */
    method FailAttempt()
      requires Valid()
      modifies this
      ensures Valid()
      ensures Value() == ClearAll(old(Value())).(link := EndConnect(LoseLink(old(TheLink())), Refused))
    {
      hide LoseLink, EndConnect, Spec.ClearWaiters, RejectQueue;
      ScheduleReconnect();
      SettleConnect(Refused);
    }

    /** A promise that `connect` returns already settled. */
    method SettledPromise(ending: ConnectEnding)
      modifies this`connects, this`connectEndings
      ensures TheLink() == old(TheLink()).(connects := old(connects) + 1,
                                           connectEndings := old(connectEndings)[old(connects) := ending])
    {
      connectEndings := connectEndings[connects := ending];
      connects := connects + 1;
    }

    /** The executor of a new connect promise hands out its handlers before the attempt starts. */
    method NewPromise() returns (id: nat)
      modifies this`shouldReconnect, this`connects, this`connectHandlers
      ensures id == old(connects)
      ensures TheLink() == old(TheLink()).(connects := id + 1, shouldReconnect := true, connectHandlers := Some(id))
    {
      shouldReconnect := true;
      id := connects;
      connects := connects + 1;
      connectHandlers := Some(id);
    }

    method Connect(fails: bool)
      requires Valid()
      modifies this
      ensures Valid() && Value() == Spec.Connect(old(Value()), fails)
    {
      hide Spec.AttemptConnect;
      if status == Disposed {
        SettledPromise(Refused);
        return;
      }
      if status == Connected {
        SettledPromise(Opened);
        return;
      }
      if connectPromise.Some? {
        return;
      }
      StartPromise(fails);
    }

    /** The new promise is remembered after its executor has run. */
    method StartPromise(fails: bool)
      requires Valid()
      modifies this
      ensures Valid()
      ensures var l := old(TheLink());
              var t := Spec.AttemptConnect(
                old(Value()).(link := l.(connects := l.connects + 1, shouldReconnect := true,
                                         connectHandlers := Some(l.connects))), fails);
              Value() == t.(link := t.link.(connectPromise := Some(l.connects)))
    {
      hide Spec.AttemptConnect;
      var id := NewPromise();
      AttemptConnect(fails);
      RememberPromise(id);
    }

    method RememberPromise(id: nat)
      modifies this`connectPromise
      ensures TheLink() == old(TheLink()).(connectPromise := Some(id))
    {
      connectPromise := Some(id);
    }

    method EnsureConnected(fails: bool)
      requires Valid()
      modifies this
      ensures Valid() && Value() == Spec.EnsureConnected(old(Value()), fails)
    {
      hide Spec.Connect;
      if status == Disposed {
        return;
      }
      if !shouldReconnect {
        shouldReconnect := true;
      }
      if status == Connected || status == Connecting {
        return;
      }
      Connect(fails);
    }

    method ForgetConnection()
      modifies this`shouldReconnect, this`connectPromise, this`connectHandlers, this`reconnectTimer, this`dropped,
               this`attached, this`connectTimer, this`errorTimer
      ensures TheLink().(status := Disposed) == CloseLink(old(TheLink()))
    {
      shouldReconnect := false;
      if connectHandlers.Some? {
        dropped := dropped + {connectHandlers.value};
      }
      connectPromise := None;
      connectHandlers := None;
      reconnectTimer := false;
      ResetTransport();
    }

    method Close()
      requires Valid()
      modifies this
      ensures Valid() && Value() == Spec.Close(old(Value()))
    {
      if status == Disposed {
        return;
      }
      hide Spec.ClearWaiters, RejectQueue, CloseLink;
      DisposeAll();
    }

    method DisposeAll()
      requires Valid()
      modifies this
      ensures Valid() && calls == old(calls)
      ensures TheLink() == CloseLink(old(TheLink()))
      ensures TheWaits() == Spec.ClearWaiters(old(TheWaits())) && TheSends() == RejectQueue(old(TheSends()))
    {
      hide Spec.ClearWaiters, RejectQueue, CloseLink, TheLink, TheWaits, TheSends;
      ForgetConnection();
      ClearWaiters();
      RejectPendingSendQueue();
      MarkDisposed(old(TheLink()));
    }

    method MarkDisposed(ghost before: Link)
      requires TheLink().(status := Disposed) == CloseLink(before)
      modifies this`status
      ensures TheLink() == CloseLink(before)
    {
      hide CloseLink;
      status := Disposed;
    }

    method ReconnectTimerFires(fails: bool)
      requires Valid() && reconnectTimer
      modifies this
      ensures Valid() && Value() == Spec.ReconnectTimerFires(old(Value()), fails)
    {
      hide Spec.AttemptConnect;
      reconnectTimer := false;
      if !shouldReconnect {
        return;
      }
      AttemptConnect(fails);
    }

    method ConnectTimerFires()
      requires Valid() && connectTimer
      modifies this
      ensures Valid() && Value() == Spec.ConnectTimerFires(old(Value()))
    {
      hide Spec.ScheduleReconnect;
      connectTimer := false;
      if status != Connecting {
        return;
      }
      ResetTransport();
      ScheduleReconnect();
    }

    method ErrorTimerFires()
      requires Valid() && errorTimer
      modifies this
      ensures Valid() && Value() == Spec.ErrorTimerFires(old(Value()))
    {
      hide Spec.ScheduleReconnect;
      errorTimer := false;
      if status == Connected || status == Connecting {
        ScheduleReconnect();
      }
    }

    method LivenessLost()
      requires Valid()
      modifies this
      ensures Valid() && Value() == Spec.LivenessLost(old(Value()))
    {
      hide Spec.ScheduleReconnect;
      ResetTransport();
      ScheduleReconnect();
    }

    method TransportOpens(helloThrows: bool)
      requires Valid() && attached
      modifies this
      ensures Valid() && Value() == Spec.TransportOpens(old(Value()), helloThrows)
    {
      hide Spec.ScheduleReconnect;
      errorTimer := false;
      if helloThrows {
        ScheduleReconnect();
      }
    }

    method TransportCloses()
      requires Valid() && attached
      modifies this
      ensures Valid() && Value() == Spec.TransportCloses(old(Value()))
    {
      hide Spec.ScheduleReconnect;
      connectTimer := false;
      errorTimer := false;
      ScheduleReconnect();
    }

    method TransportFails(generic: bool)
      requires Valid() && attached
      modifies this
      ensures Valid() && Value() == Spec.TransportFails(old(Value()), generic)
    {
      hide Spec.ScheduleReconnect;
      connectTimer := false;
      if generic {
        if !errorTimer {
          errorTimer := true;
        }
        return;
      }
      errorTimer := false;
      ScheduleReconnect();
    }

    method BecomeConnected()
      modifies this`connectTimer, this`status
      ensures TheLink() == old(TheLink()).(connectTimer := false, status := Connected)
    {
      connectTimer := false;
      status := Connected;
    }

    method RunListeners(listeners: seq<Call>)
      requires Valid()
      modifies this`calls, this`waiters, this`waiterTimers, this`sent, this`pendingSendQueue, this`failed
      ensures Valid() && Value() == Requests(old(Value()), listeners)
    {
      hide Request;
      for i := 0 to |listeners|
        invariant Valid() && Value() == Requests(old(Value()), listeners[..i])
      {
        assert listeners[..i + 1][..i] == listeners[..i];
        var id := SendRequest(listeners[i]);
      }
      assert listeners[..|listeners|] == listeners;
    }

    /** The server-info message; `listeners` are the requests that status listeners issue at once. */
    method HandleServerInfo(listeners: seq<Call>, resubscribeThrows: bool, throwing: set<nat>)
      requires Valid() && attached
      modifies this
      ensures Valid() && Value() == ServerInfo(old(Value()), listeners, resubscribeThrows, throwing)
    {
      hide Flush, Requests, EndConnect;
      if status != Connecting {
        return;
      }
      BecomeConnected();
      AfterConnect(listeners, resubscribeThrows, throwing);
    }

    /** What follows on the status change, unless re-subscribing throws. */
    method AfterConnect(listeners: seq<Call>, resubscribeThrows: bool, throwing: set<nat>)
      requires Valid() && attached && status == Connected
      modifies this
      ensures var t := Requests(old(Value()), listeners);
              Valid() && Value() == if resubscribeThrows then t
                                    else t.(sends := Flush(t.sends, throwing), link := EndConnect(t.link, Opened))
    {
      hide Flush, Requests, EndConnect, TheLink, TheWaits, TheSends;
      RunListeners(listeners);
      if resubscribeThrows {
        return;
      }
      FinishConnect(throwing);
    }

    method FinishConnect(throwing: set<nat>)
      requires attached && status == Connected
      modifies this`pendingSendQueue, this`failed, this`sent,
               this`connectPromise, this`connectHandlers, this`connectEndings
      ensures TheSends() == Flush(old(TheSends()), throwing)
      ensures TheLink() == EndConnect(old(TheLink()), Opened)
    {
      hide Flush, EndConnect;
      FlushPendingSendQueue(throwing);
      SettleConnect(Opened);
    }
  }
}
