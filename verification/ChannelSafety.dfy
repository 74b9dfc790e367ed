/** What holds in every run of the channel, whatever stray frames turn up. */
module ChannelSafety {
  import opened Wrappers
  import opened EncryptedChannel
  import opened ChannelProtocol

  lemma SafeInit(c: Config, sent: bool)
    ensures Safe(c, Init(c, sent))
  {
    PayloadsOne(c.ClientHello());
  }

  lemma PopPayload(frames: seq<Frame>)
    requires frames != []
    ensures Payloads(frames) == (if frames[0].Sealed? then [frames[0].message] else []) + Payloads(frames[1..])
    ensures forall key :: SealedUnder(frames, key) ==> SealedUnder(frames[1..], key)
  {}

  lemma SafeDeliverToDaemon(c: Config, s: Net)
    requires Safe(c, s) && s.toDaemon != []
    ensures Safe(c, Step(c, s, DeliverToDaemon))
  {
    var f := s.toDaemon[0];
    var (d, answer) := DaemonHears(c, s.daemon, f);
    match s.daemon
    case Stuck =>
      PopPayload(s.toDaemon);
      assert s.toClient + answer == s.toClient;
    case Waiting(_) => WaitingHears(c, s);
    case Running(e) => RunningHears(c, s, e);
  }

  lemma NothingSealed(frames: seq<Frame>, key: Key)
    requires Payloads(frames) == []
    ensures SealedUnder(frames, key)
    decreases |frames|
  {
    if frames != [] {
      NothingSealed(frames[1..], key);
    }
  }

  lemma WaitingHears(c: Config, s: Net)
    requires Safe(c, s) && s.daemon.Waiting? && s.toDaemon != []
    ensures Safe(c, Step(c, s, DeliverToDaemon))
  {
    var f := s.toDaemon[0];
    var (d, answer) := DaemonHears(c, s.daemon, f);
    PopPayload(s.toDaemon);
    PayloadsOne(Ready);
    PayloadsAppend(s.toClient, answer);
    HoldsAppend(Ready, s.toClient, [Ready]);
    if d.Running? {
      NothingSealed(s.toClient + answer, d.end.key);
      assert [] + Payloads(s.toDaemon[1..]) == Payloads(s.toDaemon[1..]);
      assert !s.helloSent ==> d.end.key != c.ClientKey();
    } else {
      assert s.toClient + answer == s.toClient;
    }
  }

  /** All that a frame can do to a channel past its handshake. */
  lemma FrameEffect(derive: Derive, e: Endpoint, f: Frame)
    requires e.state != Handshaking
    ensures var o := OnFrame(derive, e, f);
            && (o.frames == [] || o.frames == [Ready])
            && o.endpoint == e.(state := o.endpoint.state, delivered := o.endpoint.delivered)
            && o.endpoint.state != Handshaking && (e.state == Closed ==> o.endpoint.state == Closed)
            && o.endpoint.delivered ==
               if e.state == Open && f.Sealed? && f.key == e.key then e.delivered + [f.message] else e.delivered
  {}

  lemma ConservedEmits(ours: bool, dropping: bool, delivered: seq<Message>, q: seq<Frame>, frames: seq<Frame>,
                       sealed: seq<Message>)
    requires Conserved(ours, dropping, delivered, q, sealed)
    ensures Conserved(ours, dropping, delivered, q + frames, sealed + Payloads(frames))
    ensures Payloads(frames) == [] ==> Conserved(ours, dropping, delivered, q + frames, sealed)
  {
    hide Payloads;
    PayloadsAppend(q, frames);
    assert delivered + (Payloads(q) + Payloads(frames)) == (delivered + Payloads(q)) + Payloads(frames);
    assert Payloads(q) + [] == Payloads(q);
  }

  /** The head of the queue is delivered when it can be opened, or dropped by a closed end. */
  lemma ConservedPops(ours: bool, dropping: bool, delivered: seq<Message>, q: seq<Frame>, sealed: seq<Message>)
    requires q != [] && Conserved(ours, dropping, delivered, q, sealed)
    ensures dropping || !q[0].Sealed? || !ours ==> Conserved(ours, dropping, delivered, q[1..], sealed)
    ensures ours && !dropping && q[0].Sealed? ==>
              Conserved(ours, dropping, delivered + [q[0].message], q[1..], sealed)
  {
    PopPayload(q);
    hide Payloads;
    if q[0].Sealed? {
      assert delivered + ([q[0].message] + Payloads(q[1..])) == (delivered + [q[0].message]) + Payloads(q[1..]);
    } else {
      assert [] + Payloads(q[1..]) == Payloads(q[1..]);
    }
  }

  lemma ConservedDrops(ours: bool, dropping: bool, delivered: seq<Message>, q: seq<Frame>, sealed: seq<Message>)
    requires Conserved(ours, dropping, delivered, q, sealed)
    ensures Conserved(ours, true, delivered, q, sealed)
  {}

  lemma RunningHears(c: Config, s: Net, e: Endpoint)
    requires Safe(c, s) && s.daemon == Running(e) && s.toDaemon != []
    ensures Safe(c, Step(c, s, DeliverToDaemon))
  {
    var f, ours := s.toDaemon[0], e.key == c.ClientKey();
    FrameEffect(c.derive, e, f);
    PopPayload(s.toDaemon);
    PayloadsOne(Ready);
    ConservedPops(ours, e.state == Closed, e.delivered, s.toDaemon, s.sealedByClient);
    hide OnFrame, Payloads, Holds, Conserved;
    var o := OnFrame(c.derive, e, f);
    ConservedDrops(ours, e.state == Closed, o.endpoint.delivered, s.toDaemon[1..], s.sealedByClient);
    ConservedEmits(ours, s.client.state == Closed, s.client.delivered, s.toClient, o.frames, s.sealedByDaemon);
    HoldsAppend(Ready, s.toClient, o.frames);
  }

  /** All that a frame can do to the client; `s.client.daemonSecret` is absent. */
  lemma ClientFrameEffect(derive: Derive, e: Endpoint, f: Frame)
    requires e.daemonSecret.None?
    ensures var o := OnFrame(derive, e, f);
            && o.frames == [] && o.endpoint.key == e.key && o.endpoint.daemonSecret == e.daemonSecret
            && o.endpoint.state == (if e.state == Handshaking && f.Ready? then Open else e.state)
            && o.endpoint.delivered ==
               (if e.state == Open && f.Sealed? && f.key == e.key then e.delivered + [f.message] else e.delivered)
            && (o.endpoint.state == Handshaking ==> o.endpoint.flushing == e.flushing)
  {}

  lemma SafeDeliverToClient(c: Config, s: Net)
    requires Safe(c, s) && s.toClient != []
    ensures Safe(c, Step(c, s, DeliverToClient))
  {
    var f := s.toClient[0];
    ClientFrameEffect(c.derive, s.client, f);
    PopPayload(s.toClient);
    if s.daemon.Running? {
      ConservedPops(s.daemon.end.key == c.ClientKey(), s.client.state == Closed, s.client.delivered,
                    s.toClient, s.sealedByDaemon);
    }
    hide OnFrame, Payloads, Conserved;
    var o := OnFrame(c.derive, s.client, f);
    assert s.toDaemon + o.frames == s.toDaemon;
  }

  /** The client puts sealed frames into its queue, once it is past its handshake. */
  lemma SafeClientEmits(c: Config, s: Net, e: Endpoint, frames: seq<Frame>)
    requires Safe(c, s)
    requires e == s.client.(pending := e.pending, flushing := e.flushing)
    requires e.state == Handshaking ==> e.flushing == [] && frames == []
    requires SealedUnder(frames, c.ClientKey()) && forall i | 0 <= i < |frames| :: frames[i].Sealed?
    ensures Safe(c, s.(client := e, toDaemon := s.toDaemon + frames,
                            sealedByClient := s.sealedByClient + Payloads(frames)))
  {
    hide Payloads, Holds, Conserved;
    PayloadsAppend(s.toDaemon, frames);
    HoldsAppend(c.ClientHello(), s.toDaemon, frames);
    if e.state == Handshaking {
      assert s.toDaemon + frames == s.toDaemon && Payloads(frames) == [] by {
        NoPayload();
      }
    }
    if s.daemon.Running? {
      var d := s.daemon.end;
      ConservedEmits(d.key == c.ClientKey(), d.state == Closed, d.delivered, s.toDaemon, frames, s.sealedByClient);
    }
  }

  lemma NoPayload()
    ensures Payloads([]) == []
  {}

  /** A further hello from a client that is still handshaking: nothing sealed is before it. */
  lemma SafeRetry(c: Config, s: Net)
    requires Safe(c, s)
    ensures Safe(c, Step(c, s, Retry))
  {
    if s.client.state == Handshaking {
      var hello := c.ClientHello();
      PayloadsOne(hello);
      hide Payloads, Holds, Conserved;
      PayloadsAppend(s.toDaemon, [hello]);
      assert Payloads(s.toDaemon) + [] == Payloads(s.toDaemon) && s.sealedByClient + [] == s.sealedByClient;
      HoldsOne(hello);
      HoldsAppend(hello, s.toDaemon, [hello]);
      if s.daemon.Running? {
        var d := s.daemon.end;
        ConservedEmits(d.key == c.ClientKey(), d.state == Closed, d.delivered, s.toDaemon, [hello], s.sealedByClient);
      }
    }
  }

  lemma HoldsOne(f: Frame)
    ensures Holds(f, [f])
  {}

  lemma SafeDaemonSends(c: Config, s: Net, m: Message)
    requires Safe(c, s)
    ensures Safe(c, Step(c, s, DaemonSend(m)))
  {
    if s.daemon.Running? && s.daemon.end.state == Open {
      var e := s.daemon.end;
      var frames := [Sealed(e.key, m)];
      hide Payloads, Holds, Conserved;
      ConservedEmits(e.key == c.ClientKey(), s.client.state == Closed, s.client.delivered, s.toClient, frames,
                     s.sealedByDaemon);
      HoldsAppend(Ready, s.toClient, frames);
    }
  }

  lemma StrayToDaemonKeeps(c: Config, s: Net, f: Frame, position: nat)
    requires Safe(c, s) && IsStray(f)
    ensures Safe(c, Step(c, s, StrayToDaemon(f, position)))
  {
    hide Payloads, Holds, Conserved;
    PayloadsInsert(s.toDaemon, position, f);
    if Holds(c.ClientHello(), s.toDaemon) {
      HoldsInsert(c.ClientHello(), s.toDaemon, position, f);
    }
    InsertKeeps(c, s.toDaemon, position, f);
    hide IsStray, Insert, LeadsToClient, NoneLeads, SealedUnder;
    EqualPayloadsConserve(s.toDaemon, Insert(s.toDaemon, position, f));
  }

  lemma StrayToClientKeeps(c: Config, s: Net, f: Frame, position: nat)
    requires Safe(c, s) && IsStray(f)
    ensures Safe(c, Step(c, s, StrayToClient(f, position)))
  {
    hide Payloads, Holds, Conserved;
    PayloadsInsert(s.toClient, position, f);
    if Holds(Ready, s.toClient) {
      HoldsInsert(Ready, s.toClient, position, f);
    }
    InsertKeeps(c, s.toClient, position, f);
    hide IsStray, Insert, SealedUnder;
    EqualPayloadsConserve(s.toClient, Insert(s.toClient, position, f));
  }

  lemma InsertKeeps(c: Config, frames: seq<Frame>, position: nat, f: Frame)
    requires IsStray(f)
    ensures forall key :: SealedUnder(frames, key) ==> SealedUnder(Insert(frames, position, f), key)
    ensures !LeadsToClient(c, f) && NoneLeads(c, frames) ==> NoneLeads(c, Insert(frames, position, f))
  {
    hide LeadsToClient;
  }

  lemma EqualPayloadsConserve(a: seq<Frame>, b: seq<Frame>)
    requires Payloads(a) == Payloads(b)
    ensures forall ours, dropping, delivered, sealed ::
              Conserved(ours, dropping, delivered, a, sealed) ==> Conserved(ours, dropping, delivered, b, sealed)
  {
    hide Payloads;
  }

  lemma SafeStep(c: Config, s: Net, a: Action)
    requires Safe(c, s)
    ensures Safe(c, Step(c, s, a))
  {
    hide Safe;
    match a
    case Retry => SafeRetry(c, s);
    case DeliverToDaemon => if s.toDaemon != [] { SafeDeliverToDaemon(c, s); }
    case DeliverToClient => if s.toClient != [] { SafeDeliverToClient(c, s); }
    case ClientSend(_) => SafeClientStep(c, s, a);
    case DaemonSend(m) => SafeDaemonSends(c, s, m);
    case ClientFlush => SafeClientStep(c, s, a);
    case ClientCloses => SafeClose(c, s);
    case DaemonCloses => SafeClose(c, s);
    case StrayToDaemon(f, position) => if IsStray(f) { StrayToDaemonKeeps(c, s, f, position); }
    case StrayToClient(f, position) => if IsStray(f) { StrayToClientKeeps(c, s, f, position); }
  }

  lemma SafeClose(c: Config, s: Net)
    requires Safe(c, s)
    ensures Safe(c, Step(c, s, ClientCloses)) && Safe(c, Step(c, s, DaemonCloses))
  {}

  lemma SafeClientStep(c: Config, s: Net, a: Action)
    requires Safe(c, s) && (a.Retry? || a.ClientSend? || a.ClientFlush?)
    ensures Safe(c, Step(c, s, a))
  {
    match a
    case Retry => SafeRetry(c, s);
    case ClientSend(m) =>
      if s.client.state != Closed {
        var o := OnSend(s.client, m).value;
        SafeClientEmits(c, s, o.endpoint, o.frames);
      }
    case ClientFlush =>
      var o := OnFlush(s.client);
      SafeClientEmits(c, s, o.endpoint, o.frames);
  }

  lemma {:induction false} SafeRun(c: Config, sent: bool, acts: seq<Action>)
    ensures Safe(c, Run(c, Init(c, sent), acts))
    decreases |acts|
  {
    hide Safe, Step;
    if acts == [] {
      SafeInit(c, sent);
    } else {
      SafeRun(c, sent, acts[..|acts| - 1]);
      SafeStep(c, Run(c, Init(c, sent), acts[..|acts| - 1]), acts[|acts| - 1]);
    }
  }

  function DeliveredToDaemon(s: Net): seq<Message> {
    if s.daemon.Running? then s.daemon.end.delivered else []
  }

  /**
   Faithful delivery. In every run, whether or not the first hello could be sent, each side has
   received a prefix of what the other side sealed, whatever stray handshake frames and garbage
   turn up in between. No stray frame is delivered as data, and everything an endpoint sends with
   a message in it is sealed under its own key.
   */
  lemma FaithfulDelivery(c: Config, sent: bool, acts: seq<Action>)
    ensures var s := Run(c, Init(c, sent), acts);
            && DeliveredToDaemon(s) <= s.sealedByClient
            && s.client.delivered <= s.sealedByDaemon
            && SealedUnder(s.toDaemon, s.client.key)
            && (s.daemon.Running? ==> SealedUnder(s.toClient, s.daemon.end.key))
  {
    SafeRun(c, sent, acts);
  }

  // ---------------------------------------------------------------- the daemon's key

  lemma KeyStep(c: Config, s: Net, a: Action)
    requires s.daemon.Running?
    ensures var t := Step(c, s, a);
            && t.daemon.Running? && t.daemon.end.key == s.daemon.end.key
            && (s.daemon.end.state == Closed ==> t.daemon.end.state == Closed)
  {
    hide Payloads;
  }

  /** Once derived, the daemon's key never changes, and a closed daemon channel never opens again. */
  lemma {:induction false} KeyIsStable(c: Config, s: Net, acts: seq<Action>)
    requires s.daemon.Running?
    ensures var t := Run(c, s, acts);
            && t.daemon.Running? && t.daemon.end.key == s.daemon.end.key
            && (s.daemon.end.state == Closed ==> t.daemon.end.state == Closed)
    decreases |acts|
  {
    hide Step;
    if acts != [] {
      KeyIsStable(c, s, acts[..|acts| - 1]);
      KeyStep(c, Run(c, s, acts[..|acts| - 1]), acts[|acts| - 1]);
    }
  }

  /**
   A further usable hello on an open daemon channel: with the key in use it changes nothing
   but answers ready once more; with any other key it closes the channel, answers nothing,
   and from then on nothing is delivered and no key is taken.
   */
  lemma RepeatedHello(c: Config, s: Net, public: PublicKey, acts: seq<Action>)
    requires s.daemon.Running? && s.daemon.end.state == Open && s.daemon.end.daemonSecret == Some(c.daemonSecret)
    requires s.toDaemon != [] && s.toDaemon[0] == Hello(Imported(public))
    ensures var t := Step(c, s, DeliverToDaemon);
            if c.derive(c.daemonSecret, public) == s.daemon.end.key
            then t == s.(toDaemon := s.toDaemon[1..], toClient := s.toClient + [Ready])
            else
              && t.toClient == s.toClient
              && var u := Run(c, t, acts);
                 u.daemon.Running? && u.daemon.end == s.daemon.end.(state := Closed)
  {
    var t := Step(c, s, DeliverToDaemon);
    if c.derive(c.daemonSecret, public) != s.daemon.end.key {
      assert s.toClient + [] == s.toClient;
      ClosedDaemonIsInert(c, t, acts);
    }
  }

  lemma {:induction false} ClosedDaemonIsInert(c: Config, s: Net, acts: seq<Action>)
    requires s.daemon.Running? && s.daemon.end.state == Closed
    ensures Run(c, s, acts).daemon == s.daemon
    decreases |acts|
  {
    if acts != [] {
      hide Payloads;
      ClosedDaemonIsInert(c, s, acts[..|acts| - 1]);
    }
  }
}
