/**
 Client, daemon and the two FIFO queues between them. Stray frames -- handshake frames and
 garbage, but nothing sealed -- may turn up anywhere in either queue; what is in flight is not
 reordered, dropped or repeated while the transports are up. The client's key pair is made for
 this channel alone, so until the client has sent a hello no other hello leads to its key.
 */
module ChannelProtocol {
  import opened Wrappers
  import opened EncryptedChannel

  datatype Config = Config(derive: Derive, clientSecret: SecretKey, daemonSecret: SecretKey)
  {
    /** The client derives from the daemon's public key, which it knows beforehand. */
    function ClientKey(): Key {
      derive(clientSecret, PublicKey(daemonSecret))
    }

    function ClientHello(): Frame {
      Hello(Imported(PublicKey(clientSecret)))
    }
  }

  /**
   The daemon before and after its handshake. A hello whose key cannot be imported leaves
   a handler behind that only buffers, so nothing is ever answered again. `rejected` says
   whether the caller's promise was rejected while waiting.
   */
  datatype Daemon = Waiting(rejected: bool) | Stuck | Running(end: Endpoint)

  /** `helloSent` says whether the client has put a hello on its transport. */
  datatype Net = Net(
    client: Endpoint, daemon: Daemon, helloSent: bool,
    toDaemon: seq<Frame>, toClient: seq<Frame>,
    sealedByClient: seq<Message>, sealedByDaemon: seq<Message>)

  datatype Action =
    | Retry
    | DeliverToDaemon | DeliverToClient
    | ClientSend(message: Message) | DaemonSend(message: Message)
    | ClientFlush
    | ClientCloses | DaemonCloses
    | StrayToDaemon(frame: Frame, position: nat) | StrayToClient(frame: Frame, position: nat)

  /** The client's channel exists and the daemon waits; `sent` says whether the first hello could be sent. */
  function Init(c: Config, sent: bool): Net {
    Net(NewEndpoint(c.ClientKey(), None), Waiting(false), sent, if sent then [c.ClientHello()] else [], [], [], [])
  }

  /** The messages of the sealed frames, in order. */
  function Payloads(frames: seq<Frame>): seq<Message> {
    if frames == [] then []
    else (if frames[0].Sealed? then [frames[0].message] else []) + Payloads(frames[1..])
  }

  /** The first hello that can be used opens the daemon's channel; anything else rejects the promise. */
  function DaemonHears(c: Config, d: Daemon, f: Frame): (Daemon, seq<Frame>) {
    match d
    case Stuck => (Stuck, [])
    case Running(end) =>
      var o := OnFrame(c.derive, end, f);
      (Running(o.endpoint), o.frames)
    case Waiting(_) =>
      match f
      case Hello(Imported(public)) =>
        (Running(NewEndpoint(c.derive(c.daemonSecret, public), Some(c.daemonSecret)).(state := Open)), [Ready])
      case Hello(Malformed) => (Stuck, [])
      case _ => (Waiting(true), [])
  }

  /** Sealing takes a key, so a stray frame is not sealed. */
  predicate IsStray(f: Frame) {
    !f.Sealed?
  }

  /** A hello that makes the daemon derive the client's key. */
  predicate LeadsToClient(c: Config, f: Frame) {
    f.Hello? && f.offer.Imported? && c.derive(c.daemonSecret, f.offer.key) == c.ClientKey()
  }

  function Insert(frames: seq<Frame>, position: nat, f: Frame): seq<Frame> {
    if position <= |frames| then frames[..position] + [f] + frames[position..] else frames
  }

  function Step(c: Config, s: Net, a: Action): Net {
    match a
    case Retry =>
      // The interval timer: it stops for good once the channel is open or closed.
      if s.client.state == Handshaking then
        s.(toDaemon := s.toDaemon + [c.ClientHello()], helloSent := true)
      else s
    case DeliverToDaemon =>
      if s.toDaemon == [] then s
      else
        var (d, answer) := DaemonHears(c, s.daemon, s.toDaemon[0]);
        s.(daemon := d, toDaemon := s.toDaemon[1..], toClient := s.toClient + answer)
    case DeliverToClient =>
      if s.toClient == [] then s
      else
        var o := OnFrame(c.derive, s.client, s.toClient[0]);
        s.(client := o.endpoint, toClient := s.toClient[1..], toDaemon := s.toDaemon + o.frames)
    case ClientSend(m) =>
      (match OnSend(s.client, m)
       case None => s
       case Some(o) =>
         s.(client := o.endpoint, toDaemon := s.toDaemon + o.frames,
            sealedByClient := s.sealedByClient + Payloads(o.frames)))
    case DaemonSend(m) =>
      if !s.daemon.Running? then s
      else
        (match OnSend(s.daemon.end, m)
         case None => s
         case Some(o) =>
           s.(daemon := Running(o.endpoint), toClient := s.toClient + o.frames,
              sealedByDaemon := s.sealedByDaemon + Payloads(o.frames)))
    case ClientFlush =>
      var o := OnFlush(s.client);
      s.(client := o.endpoint, toDaemon := s.toDaemon + o.frames,
         sealedByClient := s.sealedByClient + Payloads(o.frames))
    case ClientCloses => s.(client := OnClose(s.client))
    case DaemonCloses => if s.daemon.Running? then s.(daemon := Running(OnClose(s.daemon.end))) else s
    case StrayToDaemon(f, position) =>
      if IsStray(f) && (s.helloSent || !LeadsToClient(c, f)) then
        s.(toDaemon := Insert(s.toDaemon, position, f))
      else s
    case StrayToClient(f, position) =>
      if IsStray(f) then s.(toClient := Insert(s.toClient, position, f)) else s
  }

  function Run(c: Config, s: Net, acts: seq<Action>): Net {
    if acts == [] then s else Step(c, Run(c, s, acts[..|acts| - 1]), acts[|acts| - 1])
  }

  lemma RunSnoc(c: Config, s: Net, acts: seq<Action>, a: Action)
    ensures Run(c, s, acts + [a]) == Step(c, Run(c, s, acts), a)
  {
    assert (acts + [a])[..|acts|] == acts;
  }

  // ---------------------------------------------------------------- queues

  predicate SealedUnder(frames: seq<Frame>, key: Key) {
    forall i | 0 <= i < |frames| && frames[i].Sealed? :: frames[i].key == key
  }

  lemma {:induction false} PayloadsAppend(a: seq<Frame>, b: seq<Frame>)
    ensures Payloads(a + b) == Payloads(a) + Payloads(b)
    decreases |a|
  {
    if a == [] {
      assert a + b == b;
    } else {
      assert (a + b)[1..] == a[1..] + b && (a + b)[0] == a[0];
      PayloadsAppend(a[1..], b);
      var head := if a[0].Sealed? then [a[0].message] else [];
      assert head + (Payloads(a[1..]) + Payloads(b)) == (head + Payloads(a[1..])) + Payloads(b);
    }
  }

  lemma PayloadsOne(f: Frame)
    ensures Payloads([f]) == if f.Sealed? then [f.message] else []
    ensures Payloads([]) == []
  {
    assert [f][1..] == [];
  }

  lemma PayloadsInsert(frames: seq<Frame>, position: nat, f: Frame)
    requires IsStray(f)
    ensures Payloads(Insert(frames, position, f)) == Payloads(frames)
  {
    if position <= |frames| {
      PayloadsOne(f);
      PayloadsAppend(frames[..position], [f]);
      PayloadsAppend(frames[..position] + [f], frames[position..]);
      PayloadsAppend(frames[..position], frames[position..]);
      assert frames[..position] + frames[position..] == frames;
    }
  }

  /** `first` is in the queue, with no sealed frame before it. */
  predicate Holds(first: Frame, frames: seq<Frame>) {
    frames != [] && (frames[0] == first || (!frames[0].Sealed? && Holds(first, frames[1..])))
  }

  lemma {:induction false} HoldsAppend(first: Frame, a: seq<Frame>, b: seq<Frame>)
    ensures Holds(first, a) ==> Holds(first, a + b)
    ensures Payloads(a) == [] && Holds(first, b) ==> Holds(first, a + b)
    decreases |a|
  {
    if a == [] {
      assert a + b == b;
    } else {
      assert (a + b)[1..] == a[1..] + b;
      HoldsAppend(first, a[1..], b);
    }
  }

  lemma {:induction false} HoldsInsert(first: Frame, frames: seq<Frame>, position: nat, f: Frame)
    requires Holds(first, frames) && IsStray(f)
    ensures Holds(first, Insert(frames, position, f))
    decreases |frames|
  {
    var after := Insert(frames, position, f);
    if 0 < position <= |frames| {
      assert after[0] == frames[0];
      if frames[0] != first {
        assert after[1..] == Insert(frames[1..], position - 1, f);
        HoldsInsert(first, frames[1..], position - 1, f);
      }
    } else if position == 0 {
      assert after[1..] == frames;
    }
  }

  // ---------------------------------------------------------------- the invariant of all runs

  predicate ClientShape(c: Config, s: Net) {
    && s.client.key == c.ClientKey() && s.client.daemonSecret.None?
    && SealedUnder(s.toDaemon, c.ClientKey())
    && (s.client.state == Handshaking ==> s.client.delivered == [] && s.client.flushing == [])
  }

  /** Nothing sealed has come from the daemon. */
  predicate DaemonSilent(s: Net) {
    Payloads(s.toClient) == [] && s.sealedByDaemon == [] && s.client.delivered == []
  }

  /** What one direction delivered, what it still carries, and what was sealed into it. */
  predicate Conserved(ours: bool, dropping: bool, delivered: seq<Message>, inFlight: seq<Frame>, sealed: seq<Message>) {
    if !ours then delivered == []
    else delivered <= sealed && (!dropping ==> delivered + Payloads(inFlight) == sealed)
  }

  predicate DaemonShape(c: Config, s: Net, e: Endpoint) {
    && e.daemonSecret == Some(c.daemonSecret) && e.state != Handshaking && e.pending == [] && e.flushing == []
    && SealedUnder(s.toClient, e.key)
    && (s.client.state == Handshaking ==> Holds(Ready, s.toClient))
  }

  predicate BothDirections(c: Config, s: Net, e: Endpoint) {
    var ours := e.key == c.ClientKey();
    && Conserved(ours, e.state == Closed, e.delivered, s.toDaemon, s.sealedByClient)
    && Conserved(ours, s.client.state == Closed, s.client.delivered, s.toClient, s.sealedByDaemon)
  }

  /** Nothing in the queue makes the daemon derive the client's key. */
  predicate NoneLeads(c: Config, frames: seq<Frame>) {
    forall i | 0 <= i < |frames| :: !LeadsToClient(c, frames[i])
  }

  /**
   What the daemon will hear first. After a hello of the client's it comes before everything sealed;
   without one, a daemon that starts takes another key, and a handshaking client has sealed nothing.
   */
  predicate Awaited(c: Config, s: Net) {
    if s.helloSent then Holds(c.ClientHello(), s.toDaemon) && Payloads(s.toDaemon) == s.sealedByClient
    else
      && NoneLeads(c, s.toDaemon)
      && (s.client.state == Handshaking ==> Payloads(s.toDaemon) == [] && s.sealedByClient == [])
  }

  predicate Safe(c: Config, s: Net) {
    ClientShape(c, s) &&
    match s.daemon
    case Waiting(_) => Awaited(c, s) && DaemonSilent(s)
    case Stuck => DaemonSilent(s)
    case Running(e) => DaemonShape(c, s, e) && BothDirections(c, s, e)
  }
}
