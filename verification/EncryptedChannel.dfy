/**
 One end of the end-to-end encrypted channel. Cryptography is symbolic: a shared key is
 whatever `derive` gives for a secret and a public key, and a sealed frame can be base
 with the key it was sealed under and with no other.
 */
module EncryptedChannel {
  import opened Wrappers

  type Key = seq<bv8>
  type Message = string
  type SecretKey = int

  /** The public key of the principal whose secret is `owner`. */
  datatype PublicKey = PublicKey(owner: SecretKey)

  type Derive = (SecretKey, PublicKey) -> Key

  /** Both sides of an exchange derive the same key. */
  ghost predicate Commutes(derive: Derive) {
    forall a, b :: derive(a, PublicKey(b)) == derive(b, PublicKey(a))
  }

  /** The key field of a hello: importing it either works or throws. */
  datatype HelloKey = Imported(key: PublicKey) | Malformed

  /** What a received text is, once looked at. Base64 text never looks like JSON. */
  datatype Frame =
    | Hello(offer: HelloKey)
    | Ready
    | OtherJson
    | Sealed(key: Key, message: Message)
    | Garbage

  datatype ChannelState = Handshaking | Open | Closed

  const MAX_PENDING_SENDS: nat := 200
  const KEY_MISMATCH_CLOSE_CODE: nat := 1008
  const PROTOCOL_ERROR_CLOSE_CODE: nat := 1011

  /**
   The visible state of an end. `pending` waits for the channel to open; `flushing` has
   been taken from it by the flush loop and is sent one message per turn.
   */
  datatype Endpoint = Endpoint(
    key: Key, daemonSecret: Option<SecretKey>, state: ChannelState,
    pending: seq<Message>, flushing: seq<Message>, delivered: seq<Message>)

  /** The new state, the frames sent, and the code the transport was closed with, if it was. */
  datatype Outcome = Outcome(endpoint: Endpoint, frames: seq<Frame>, closed: Option<nat>)

  function Quiet(e: Endpoint): Outcome {
    Outcome(e, [], None)
  }

  function NewEndpoint(key: Key, daemonSecret: Option<SecretKey>): Endpoint {
    Endpoint(key, daemonSecret, Handshaking, [], [], [])
  }

  /** A hello on an open daemon channel: the same key is acknowledged again, another one is fatal. */
  function OnRehello(derive: Derive, e: Endpoint, secret: SecretKey, key: HelloKey): Outcome {
    match key
    case Malformed => Outcome(e, [], Some(PROTOCOL_ERROR_CLOSE_CODE))
    case Imported(public) =>
      if derive(secret, public) == e.key then Outcome(e, [Ready], None)
      else Outcome(e.(state := Closed), [], Some(KEY_MISMATCH_CLOSE_CODE))
  }

  function OnFrame(derive: Derive, e: Endpoint, f: Frame): Outcome {
    match e.state
    case Closed => Quiet(e)
    case Handshaking =>
      if f.Ready? then Quiet(e.(state := Open, pending := [], flushing := e.pending)) else Quiet(e)
    case Open =>
      match f
      case Ready => Quiet(e)
      case Hello(key) =>
        if e.daemonSecret.None? then Quiet(e) else OnRehello(derive, e, e.daemonSecret.value, key)
      case Sealed(key, message) =>
        if key == e.key then Quiet(e.(delivered := e.delivered + [message]))
        else Outcome(e, [], Some(PROTOCOL_ERROR_CLOSE_CODE))
      case OtherJson => Outcome(e, [], Some(PROTOCOL_ERROR_CLOSE_CODE))
      case Garbage => Outcome(e, [], Some(PROTOCOL_ERROR_CLOSE_CODE))
  }

  /** Queueing before the channel is open: the oldest message gives way. */
  function Enqueue(pending: seq<Message>, m: Message): seq<Message> {
    (if |pending| >= MAX_PENDING_SENDS then pending[1..] else pending) + [m]
  }

  /** `send`: nothing is returned when the channel is closed and the call throws. */
  function OnSend(e: Endpoint, m: Message): Option<Outcome> {
    match e.state
    case Handshaking => Some(Quiet(e.(pending := Enqueue(e.pending, m))))
    case Open => Some(Outcome(e, [Sealed(e.key, m)], None))
    case Closed => None
  }

  /** One turn of the flush loop; a channel that closed meanwhile makes it throw and drop the rest. */
  function OnFlush(e: Endpoint): Outcome {
    if e.flushing == [] then Quiet(e)
    else if e.state == Open then
      Outcome(e.(flushing := e.flushing[1..]), [Sealed(e.key, e.flushing[0])], None)
    else Quiet(e.(flushing := []))
  }

  function OnClose(e: Endpoint): Endpoint {
    e.(state := Closed)
  }

  /** All turns of the flush loop with nothing in between. */
  function FlushFrames(key: Key, ms: seq<Message>): seq<Frame> {
    if ms == [] then [] else FlushFrames(key, ms[..|ms| - 1]) + [Sealed(key, ms[|ms| - 1])]
  }

  // ---------------------------------------------------------------- the class

  /** Compares without leaving early: the differences of all bytes are collected. */
  method KeysEqual(a: Key, b: Key) returns (equal: bool)
    ensures equal <==> a == b
  {
    if |a| != |b| {
      return false;
    }
    var difference: bv8 := 0;
    for i := 0 to |a|
      invariant difference == 0 <==> a[..i] == b[..i]
    {
      XorIsZero(a[i], b[i]);
      OrIsZero(difference, a[i] ^ b[i]);
      assert a[..i + 1] == a[..i] + [a[i]] && b[..i + 1] == b[..i] + [b[i]];
      difference := difference | (a[i] ^ b[i]);
    }
    assert a[..|a|] == a && b[..|a|] == b;
    return difference == 0;
  }

  lemma XorIsZero(x: bv8, y: bv8)
    ensures x ^ y == 0 <==> x == y
  {}

  lemma OrIsZero(x: bv8, y: bv8)
    ensures x | y == 0 <==> x == 0 && y == 0
  {}

  /** The transport as the channel sees it: what was sent, and the codes it was closed with. */
  class Transport {
    var sent: seq<Frame>
    var closeCodes: seq<nat>

    constructor ()
      ensures sent == [] && closeCodes == []
    {
      sent, closeCodes := [], [];
    }

    method Send(f: Frame)
      modifies this`sent
      ensures sent == old(sent) + [f]
    {
      sent := sent + [f];
    }

    method Close(code: nat)
      modifies this`closeCodes
      ensures closeCodes == old(closeCodes) + [code]
    {
      closeCodes := closeCodes + [code];
    }
  }

  function CodesOf(closed: Option<nat>): seq<nat> {
    if closed.Some? then [closed.value] else []
  }

  class Channel {
    const transport: Transport
    const derive: Derive
    const sharedKey: Key
    const daemonSecret: Option<SecretKey>
    var state: ChannelState
    var pendingSends: seq<Message>
    var flushing: seq<Message>
    var received: seq<Message>

    ghost function Value(): Endpoint
      reads this
    {
      Endpoint(sharedKey, daemonSecret, state, pendingSends, flushing, received)
    }

    /** The state, the transport's log and its close codes moved by one outcome. */
    ghost predicate Moved(sent: seq<Frame>, codes: seq<nat>, o: Outcome)
      reads this, transport
    {
      Value() == o.endpoint && transport.sent == sent + o.frames &&
      transport.closeCodes == codes + CodesOf(o.closed)
    }

    constructor (transport: Transport, derive: Derive, sharedKey: Key, daemonSecret: Option<SecretKey>)
      ensures Value() == NewEndpoint(sharedKey, daemonSecret)
      ensures this.transport == transport && this.derive == derive
    {
      this.transport := transport;
      this.derive := derive;
      this.sharedKey := sharedKey;
      this.daemonSecret := daemonSecret;
      state := Handshaking;
      pendingSends, flushing, received := [], [], [];
    }

    /** `handleMessage`, up to the start of the flush loop. */
    method HandleMessage(f: Frame)
      modifies this, transport
      ensures Moved(old(transport.sent), old(transport.closeCodes), OnFrame(derive, old(Value()), f))
    {
      if state == Handshaking {
        if f.Ready? {
          state := Open;
          flushing := pendingSends;
          pendingSends := [];
        }
        return;
      }
      if state != Open {
        return;
      }
      match f {
        case Hello(key) =>
          if daemonSecret.Some? {
            HandleDaemonRehello(daemonSecret.value, key);
          }
        case Ready =>
        case OtherJson => transport.Close(PROTOCOL_ERROR_CLOSE_CODE);
        case Sealed(key, message) =>
          var ours := KeysEqual(key, sharedKey);
          if ours {
            received := received + [message];
          } else {
            transport.Close(PROTOCOL_ERROR_CLOSE_CODE);
          }
        case Garbage => transport.Close(PROTOCOL_ERROR_CLOSE_CODE);
      }
    }

    method HandleDaemonRehello(secret: SecretKey, key: HelloKey)
      requires state == Open
      modifies this`state, transport
      ensures Moved(old(transport.sent), old(transport.closeCodes), OnRehello(derive, old(Value()), secret, key))
    {
      if key.Malformed? {
        transport.Close(PROTOCOL_ERROR_CLOSE_CODE);
        return;
      }
      var nextSharedKey := derive(secret, key.key);
      var same := KeysEqual(nextSharedKey, sharedKey);
      if same {
        transport.Send(Ready);
        return;
      }
      state := Closed;
      transport.Close(KEY_MISMATCH_CLOSE_CODE);
    }

    method Send(m: Message) returns (accepted: bool)
      modifies this`pendingSends, transport
      ensures accepted <==> OnSend(old(Value()), m).Some?
      ensures accepted ==> Moved(old(transport.sent), old(transport.closeCodes), OnSend(old(Value()), m).value)
      ensures !accepted ==> Moved(old(transport.sent), old(transport.closeCodes), Quiet(old(Value())))
    {
      if state == Handshaking {
        if |pendingSends| >= MAX_PENDING_SENDS {
          pendingSends := pendingSends[1..];
        }
        pendingSends := pendingSends + [m];
        return true;
      }
      if state != Open {
        return false;
      }
      transport.Send(Sealed(sharedKey, m));
      return true;
    }

    /** The flush loop when no other send comes between its turns. */
    method FlushPendingSends()
      requires state == Open
      modifies this`flushing, this`pendingSends, transport
      ensures Value() == old(Value()).(flushing := [])
      ensures transport.sent == old(transport.sent) + FlushFrames(sharedKey, old(flushing))
      ensures transport.closeCodes == old(transport.closeCodes)
    {
      var items := flushing;
      flushing := [];
      for i := 0 to |items|
        invariant Value() == old(Value()).(flushing := [])
        invariant transport.sent == old(transport.sent) + FlushFrames(sharedKey, items[..i])
        invariant transport.closeCodes == old(transport.closeCodes)
      {
        var accepted := Send(items[i]);
        assert accepted;
        assert items[..i + 1][..i] == items[..i];
      }
      assert items[..|items|] == items;
    }

    method Close(code: nat)
      modifies this`state, transport
      ensures Moved(old(transport.sent), old(transport.closeCodes), Outcome(OnClose(old(Value())), [], Some(code)))
    {
      state := Closed;
      transport.Close(code);
    }

    method OnTransportClosed()
      modifies this`state
      ensures Value() == OnClose(old(Value()))
    {
      state := Closed;
    }
  }

  // ---------------------------------------------------------------- the pre-open window

  function SendAll(e: Endpoint, ms: seq<Message>): (after: Endpoint)
    requires e.state == Handshaking
    ensures after.state == Handshaking
  {
    if ms == [] then e
    else OnSend(SendAll(e, ms[..|ms| - 1]), ms[|ms| - 1]).value.endpoint
  }

  function LastOf(ms: seq<Message>): seq<Message> {
    if |ms| <= MAX_PENDING_SENDS then ms else ms[|ms| - MAX_PENDING_SENDS..]
  }

  lemma LastOfNothing()
    ensures LastOf([]) == []
  {}

  lemma EnqueueKeepsLast(front: seq<Message>, last: Message)
    ensures Enqueue(LastOf(front), last) == LastOf(front + [last])
  {
    if |front| >= MAX_PENDING_SENDS {
      assert LastOf(front)[1..] == front[|front| - MAX_PENDING_SENDS + 1..];
    }
  }

  /** After any sends before the channel opens, the queue is the last 200 of them, in order. */
  lemma {:induction false} PreOpenWindow(e: Endpoint, ms: seq<Message>)
    requires e.state == Handshaking && e.pending == []
    ensures SendAll(e, ms) == e.(pending := LastOf(ms))
    decreases |ms|
  {
    hide Enqueue, LastOf;
    if ms == [] {
      LastOfNothing();
    } else {
      var front, last := ms[..|ms| - 1], ms[|ms| - 1];
      PreOpenWindow(e, front);
      assert ms == front + [last];
      EnqueueKeepsLast(front, last);
    }
  }

  // ---------------------------------------------------------------- flushing with other traffic in between

  datatype Event = Received(frame: Frame) | SendCall(message: Message) | FlushTurn | CloseCall

  /** One sealed frame in the order of transmission; `queued` tells the flush loop from direct sends. */
  datatype Entry = Entry(message: Message, queued: bool)

  datatype Trace = Trace(endpoint: Endpoint, log: seq<Entry>, accepted: seq<Message>)

  function Advance(derive: Derive, t: Trace, ev: Event): Trace {
    var e := t.endpoint;
    match ev
    case Received(f) => t.(endpoint := OnFrame(derive, e, f).endpoint)
    case CloseCall => t.(endpoint := OnClose(e))
    case FlushTurn =>
      var o := OnFlush(e);
      Trace(o.endpoint, t.log + if o.frames == [] then [] else [Entry(o.frames[0].message, true)], t.accepted)
    case SendCall(m) =>
      if e.state != Open then t
      else Trace(e, t.log + [Entry(m, false)], t.accepted + [m])
  }

  function AdvanceAll(derive: Derive, t: Trace, evs: seq<Event>): Trace {
    if evs == [] then t else Advance(derive, AdvanceAll(derive, t, evs[..|evs| - 1]), evs[|evs| - 1])
  }

  /** The messages of one origin, in order. */
  function Pick(log: seq<Entry>, queued: bool): seq<Message> {
    if log == [] then []
    else
      Pick(log[..|log| - 1], queued) +
      if log[|log| - 1].queued == queued then [log[|log| - 1].message] else []
  }

  lemma PickSnoc(log: seq<Entry>, x: Entry, queued: bool)
    ensures Pick(log + [x], queued) == Pick(log, queued) + if x.queued == queued then [x.message] else []
  {
    assert (log + [x])[..|log|] == log;
  }

  /** `window` was pending when the channel opened; the log accounts for it and for all accepted sends. */
  predicate Faithful(t: Trace, window: seq<Message>) {
    && t.endpoint.state != Handshaking
    && Pick(t.log, false) == t.accepted
    && Pick(t.log, true) <= window
    && (t.endpoint.state == Open || t.endpoint.flushing != [] ==>
          Pick(t.log, true) + t.endpoint.flushing == window)
  }

  lemma FaithfulStep(derive: Derive, t: Trace, ev: Event, window: seq<Message>)
    requires Faithful(t, window)
    ensures Faithful(Advance(derive, t, ev), window)
  {
    hide Pick;
    var e := t.endpoint;
    match ev
    case SendCall(m) =>
      PickSnoc(t.log, Entry(m, false), true);
      PickSnoc(t.log, Entry(m, false), false);
      assert Pick(t.log, true) + [] == Pick(t.log, true);
    case FlushTurn =>
      if e.flushing != [] && e.state == Open {
        var x := Entry(e.flushing[0], true);
        PickSnoc(t.log, x, true);
        PickSnoc(t.log, x, false);
        assert Pick(t.log, false) + [] == Pick(t.log, false);
        assert [e.flushing[0]] + e.flushing[1..] == e.flushing;
        assert Pick(t.log, true) + e.flushing == (Pick(t.log, true) + [x.message]) + e.flushing[1..];
      } else {
        assert t.log + [] == t.log;
      }
    case _ =>
  }

  /**
   Whatever is sent, received or closed between the turns of the flush loop: the queued
   messages go out in their order, none twice and none lost while the channel is open, and
   the direct sends go out in theirs, possibly overtaking.
   */
  lemma {:induction false} FlushIsFaithful(derive: Derive, base: Endpoint, evs: seq<Event>)
    requires base.state == Open
    ensures Faithful(AdvanceAll(derive, Trace(base, [], []), evs), base.flushing)
    decreases |evs|
  {
    if evs == [] {
      assert [] + base.flushing == base.flushing;
    } else {
      hide Faithful, Advance;
      var front := evs[..|evs| - 1];
      FlushIsFaithful(derive, base, front);
      FaithfulStep(derive, AdvanceAll(derive, Trace(base, [], []), front), evs[|evs| - 1], base.flushing);
    }
  }

  /**
   From the first send to the end of the flush: of the messages sent while handshaking, the last 200
   are transmitted, in their order and none twice, whatever happens in between, and all of them once
   the flush has ended with the channel open.
   */
  lemma WindowGoesOut(derive: Derive, key: Key, daemonSecret: Option<SecretKey>, ms: seq<Message>, evs: seq<Event>)
    ensures var opening := OnFrame(derive, SendAll(NewEndpoint(key, daemonSecret), ms), Ready).endpoint;
            var t := AdvanceAll(derive, Trace(opening, [], []), evs);
            && Pick(t.log, true) <= LastOf(ms) && Pick(t.log, false) == t.accepted
            && (t.endpoint.state == Open && t.endpoint.flushing == [] ==> Pick(t.log, true) == LastOf(ms))
  {
    var e := NewEndpoint(key, daemonSecret);
    PreOpenWindow(e, ms);
    var opening := OnFrame(derive, SendAll(e, ms), Ready).endpoint;
    FlushIsFaithful(derive, opening, evs);
    var t := AdvanceAll(derive, Trace(opening, [], []), evs);
    hide AdvanceAll, SendAll, Pick, LastOf;
    assert Pick(t.log, true) + [] == Pick(t.log, true);
  }
}
