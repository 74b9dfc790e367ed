/** What each frame, send and handshake message does to an end of the channel, written out case by case. */
module ChannelTable {
  import opened Wrappers
  import opened EncryptedChannel
  import opened ChannelProtocol

  // ---------------------------------------------------------------- frames

  /** While handshaking only a ready counts: it opens the channel and hands the waiting messages to the flush. */
  lemma HandshakingHears(derive: Derive, e: Endpoint, f: Frame)
    requires e.state == Handshaking
    ensures var o := OnFrame(derive, e, f);
            && o.frames == [] && o.closed.None?
            && o.endpoint.key == e.key && o.endpoint.daemonSecret == e.daemonSecret
            && o.endpoint.delivered == e.delivered
            && if f == Ready then
                 o.endpoint.state == Open && o.endpoint.pending == [] && o.endpoint.flushing == e.pending
               else
                 o.endpoint.state == Handshaking && o.endpoint.pending == e.pending && o.endpoint.flushing == e.flushing
  {}

  lemma ClosedHears(derive: Derive, e: Endpoint, f: Frame)
    requires e.state == Closed
    ensures OnFrame(derive, e, f) == Outcome(e, [], None)
  {}

  /**
   An open channel: a message under its key is delivered; one under another key, plain text and an unusable
   hello close the transport with 1011; a ready is ignored, and so is a hello by a client; a hello to a
   daemon is answered when it leads to the key in use, and otherwise closes the channel with 1008.
   */
  lemma OpenHears(derive: Derive, e: Endpoint, f: Frame)
    requires e.state == Open
    ensures var o := OnFrame(derive, e, f);
            match f
            case Ready => o == Outcome(e, [], None)
            case OtherJson => o == Outcome(e, [], Some(1011))
            case Garbage => o == Outcome(e, [], Some(1011))
            case Sealed(key, message) =>
              if key != e.key then o == Outcome(e, [], Some(1011))
              else o.frames == [] && o.closed.None? && o.endpoint == e.(delivered := e.delivered + [message])
            case Hello(offer) =>
              if e.daemonSecret.None? then o == Outcome(e, [], None)
              else if offer.Malformed? then o == Outcome(e, [], Some(1011))
              else if derive(e.daemonSecret.value, offer.key) == e.key then o == Outcome(e, [Ready], None)
              else o == Outcome(e.(state := Closed), [], Some(1008))
  {}

  // ---------------------------------------------------------------- sends

  /** A send waits while handshaking, the oldest of 200 giving way; it goes out sealed when open; else it is refused. */
  lemma SendTable(e: Endpoint, m: Message)
    requires |e.pending| <= 200
    ensures match e.state
            case Handshaking =>
              OnSend(e, m) ==
                Some(Outcome(e.(pending := (if |e.pending| == 200 then e.pending[1..] else e.pending) + [m]), [], None))
            case Open => OnSend(e, m) == Some(Outcome(e, [Sealed(e.key, m)], None))
            case Closed => OnSend(e, m) == None
    ensures OnClose(e) == e.(state := Closed)
  {}

  /** The window that PreOpenWindow speaks of: the last messages, 200 at most. */
  lemma WindowIsLast200(ms: seq<Message>)
    ensures var n := if |ms| <= 200 then |ms| else 200; LastOf(ms) == ms[|ms| - n..]
  {}

  // ---------------------------------------------------------------- the flush

  lemma {:induction false} FlushFramesAre(key: Key, ms: seq<Message>)
    ensures |FlushFrames(key, ms)| == |ms|
    ensures forall i | 0 <= i < |ms| :: FlushFrames(key, ms)[i] == Sealed(key, ms[i])
    decreases |ms|
  {
    if ms != [] {
      FlushFramesAre(key, ms[..|ms| - 1]);
    }
  }

  /** Turns of the flush loop one after the other, with the frames they send. */
  function Turns(e: Endpoint, n: nat): Outcome {
    if n == 0 then Outcome(e, [], None)
    else
      var before := Turns(e, n - 1);
      var turn := OnFlush(before.endpoint);
      Outcome(turn.endpoint, before.frames + turn.frames, turn.closed)
  }

  lemma {:induction false} SomeTurns(e: Endpoint, n: nat)
    requires e.state == Open && n <= |e.flushing|
    ensures Turns(e, n) == Outcome(e.(flushing := e.flushing[n..]), FlushFrames(e.key, e.flushing[..n]), None)
  {
    if n > 0 {
      SomeTurns(e, n - 1);
      assert e.flushing[..n][..n - 1] == e.flushing[..n - 1];
      assert e.flushing[n - 1..][1..] == e.flushing[n..] && e.flushing[n - 1..][0] == e.flushing[n - 1];
      assert e.flushing[..n][n - 1] == e.flushing[n - 1];
      hide Turns;
    } else {
      assert e.flushing[0..] == e.flushing;
    }
  }

  /**
   As many turns as messages, on an open channel, do what the loop without anything in between does: every
   message goes out once, sealed, in its order, and none is left.
   */
  lemma AllTurns(e: Endpoint)
    requires e.state == Open
    ensures var n := |e.flushing|;
            var o := Turns(e, n);
            && o.endpoint == e.(flushing := []) && o.closed.None?
            && o.frames == FlushFrames(e.key, e.flushing)
            && |o.frames| == n && forall i | 0 <= i < n :: o.frames[i] == Sealed(e.key, e.flushing[i])
  {
    SomeTurns(e, |e.flushing|);
    FlushFramesAre(e.key, e.flushing);
    assert e.flushing[..|e.flushing|] == e.flushing && e.flushing[|e.flushing|..] == [];
    hide Turns, FlushFrames;
  }

  /** A turn on a channel that closed meanwhile sends nothing and drops what is left. */
  lemma TurnAfterClose(e: Endpoint)
    requires e.state != Open
    ensures OnFlush(e) == Outcome(e.(flushing := []), [], None)
  {}

  // ---------------------------------------------------------------- the handshake

  /** The two ends before anything is heard. */
  lemma HandshakeStarts(c: Config, sent: bool)
    ensures var s := Init(c, sent);
            && s.client.state == Handshaking && s.client.key == c.derive(c.clientSecret, PublicKey(c.daemonSecret))
            && s.client.daemonSecret.None? && s.client.pending == [] && s.client.flushing == []
            && s.client.delivered == [] && s.daemon == Waiting(false) && s.toClient == []
            && s.toDaemon == if sent then [Hello(Imported(PublicKey(c.clientSecret)))] else []
  {}

  /**
   The waiting daemon: the first usable hello opens its channel under the key it leads to and is answered;
   an unusable one leaves it deaf; anything else only rejects the caller's promise.
   */
  lemma WaitingDaemonHears(c: Config, rejected: bool, f: Frame)
    ensures var (d, answer) := DaemonHears(c, Waiting(rejected), f);
            if f.Hello? && f.offer.Imported? then
              && d == Running(Endpoint(c.derive(c.daemonSecret, f.offer.key), Some(c.daemonSecret), Open, [], [], []))
              && answer == [Ready]
            else if f.Hello? then d == Stuck && answer == []
            else d == Waiting(true) && answer == []
    ensures DaemonHears(c, Stuck, f).0 == Stuck && DaemonHears(c, Stuck, f).1 == []
  {}

  /** The retry timer repeats the client's own hello while it is handshaking, and does nothing any more afterwards. */
  lemma RetryRepeatsHello(c: Config, s: Net)
    ensures var t := Step(c, s, Retry);
            if s.client.state == Handshaking then
              t == s.(toDaemon := s.toDaemon + [Hello(Imported(PublicKey(c.clientSecret)))], helloSent := true)
            else t == s
  {}

  // ---------------------------------------------------------------- the actions

  /** A send of the client: kept while handshaking, on the wire sealed when open, refused when closed. */
  lemma ClientSends(c: Config, s: Net, m: Message)
    requires |s.client.pending| <= 200
    ensures var t, e := Step(c, s, ClientSend(m)), s.client;
            match e.state
            case Handshaking =>
              t == s.(client := e.(pending := (if |e.pending| == 200 then e.pending[1..] else e.pending) + [m]))
            case Open => t == s.(toDaemon := s.toDaemon + [Sealed(e.key, m)], sealedByClient := s.sealedByClient + [m])
            case Closed => t == s
  {
    SendTable(s.client, m);
    hide OnSend;
    var f := Sealed(s.client.key, m);
    assert [f][1..] == [] && Payloads([f]) == [m] + Payloads([f][1..]);
    assert s.toDaemon + [] == s.toDaemon && s.sealedByClient + [] == s.sealedByClient;
  }

  /** A send of the daemon, which has no channel to send on before a hello. */
  lemma DaemonSends(c: Config, s: Net, m: Message)
    ensures var t := Step(c, s, DaemonSend(m));
            && (s.daemon.Running? && s.daemon.end.state == Open ==>
                  t == s.(toClient := s.toClient + [Sealed(s.daemon.end.key, m)],
                          sealedByDaemon := s.sealedByDaemon + [m]))
            && (!s.daemon.Running? || s.daemon.end.state == Closed ==> t == s)
  {
    if s.daemon.Running? {
      var f := Sealed(s.daemon.end.key, m);
      assert [f][1..] == [] && Payloads([f]) == [m] + Payloads([f][1..]);
    }
  }

  /** A turn of the client's flush loop: the next waiting message goes out, unless the channel has closed. */
  lemma ClientFlushes(c: Config, s: Net)
    ensures var t, e := Step(c, s, ClientFlush), s.client;
            if e.state == Open && e.flushing != [] then
              t == s.(client := e.(flushing := e.flushing[1..]),
                      toDaemon := s.toDaemon + [Sealed(e.key, e.flushing[0])],
                      sealedByClient := s.sealedByClient + [e.flushing[0]])
            else t == s.(client := e.(flushing := []))
  {
    var e := s.client;
    if e.flushing != [] {
      var f := Sealed(e.key, e.flushing[0]);
      assert [f][1..] == [] && Payloads([f]) == [e.flushing[0]] + Payloads([f][1..]);
    }
    assert s.toDaemon + [] == s.toDaemon && s.sealedByClient + [] == s.sealedByClient;
  }

  /** Frames are heard in the order of their queue, and answers join the other queue at its end. */
  lemma Deliveries(c: Config, s: Net)
    ensures s.toClient == [] ==> Step(c, s, DeliverToClient) == s
    ensures s.toDaemon == [] ==> Step(c, s, DeliverToDaemon) == s
    ensures s.toClient != [] ==>
              var o := OnFrame(c.derive, s.client, s.toClient[0]);
              Step(c, s, DeliverToClient) ==
                s.(client := o.endpoint, toClient := s.toClient[1..], toDaemon := s.toDaemon + o.frames)
    ensures s.toDaemon != [] ==>
              var (d, answer) := DaemonHears(c, s.daemon, s.toDaemon[0]);
              Step(c, s, DeliverToDaemon) ==
                s.(daemon := d, toDaemon := s.toDaemon[1..], toClient := s.toClient + answer)
  {}

  /** Once running, the daemon's channel hears frames as any other end. */
  lemma RunningDaemonHears(c: Config, e: Endpoint, f: Frame)
    ensures var (d, answer), o := DaemonHears(c, Running(e), f), OnFrame(c.derive, e, f);
            d == Running(o.endpoint) && answer == o.frames
  {}

  /** Closing either end, and stray frames: unsealed, anywhere in the queue; the client's key only after its hello. */
  lemma ClosesAndStrays(c: Config, s: Net, f: Frame, position: nat)
    ensures Step(c, s, ClientCloses) == s.(client := s.client.(state := Closed))
    ensures Step(c, s, DaemonCloses) ==
              if s.daemon.Running? then s.(daemon := Running(s.daemon.end.(state := Closed))) else s
    ensures var own := f.Hello? && f.offer.Imported? &&
                       c.derive(c.daemonSecret, f.offer.key) == c.derive(c.clientSecret, PublicKey(c.daemonSecret));
            var t := Step(c, s, StrayToDaemon(f, position));
            if f.Sealed? || (own && !s.helloSent) || position > |s.toDaemon| then t == s
            else t == s.(toDaemon := s.toDaemon[..position] + [f] + s.toDaemon[position..])
    ensures var t := Step(c, s, StrayToClient(f, position));
            if f.Sealed? || position > |s.toClient| then t == s
            else t == s.(toClient := s.toClient[..position] + [f] + s.toClient[position..])
  {}

  // ---------------------------------------------------------------- the log of a flush

  /** The log of the flush law records exactly the frames that turns and sends put on the wire, in order. */
  lemma LogIsWhatIsSent(derive: Derive, t: Trace, m: Message)
    ensures var e, u := t.endpoint, Advance(derive, t, FlushTurn);
            u.accepted == t.accepted && u.endpoint == OnFlush(e).endpoint &&
            if e.state == Open && e.flushing != [] then
              OnFlush(e).frames == [Sealed(e.key, e.flushing[0])] && u.log == t.log + [Entry(e.flushing[0], true)]
            else OnFlush(e).frames == [] && u.log == t.log
    ensures var e, u := t.endpoint, Advance(derive, t, SendCall(m));
            if e.state == Open then
              OnSend(e, m) == Some(Outcome(e, [Sealed(e.key, m)], None)) &&
              u == Trace(e, t.log + [Entry(m, false)], t.accepted + [m])
            else u == t
    ensures Advance(derive, t, CloseCall) == t.(endpoint := t.endpoint.(state := Closed))
  {
    assert t.log + [] == t.log;
  }
}
