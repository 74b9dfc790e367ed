/** What holds when no stray frames turn up: the keys agree, and the handshake gets through. */
module ChannelProgress {
  import opened Wrappers
  import opened EncryptedChannel
  import opened ChannelProtocol
  import opened ChannelSafety

  /** An action of the two ends and their timers, not a stray frame. */
  predicate Honest(a: Action) {
    !a.StrayToDaemon? && !a.StrayToClient?
  }

  predicate AllHonest(acts: seq<Action>) {
    forall i | 0 <= i < |acts| :: Honest(acts[i])
  }

  predicate OnlyHellos(c: Config, frames: seq<Frame>) {
    forall i | 0 <= i < |frames| :: frames[i] == c.ClientHello()
  }

  predicate ClientTraffic(c: Config, frames: seq<Frame>) {
    forall i | 0 <= i < |frames| :: frames[i] == c.ClientHello() || frames[i].Sealed?
  }

  predicate DaemonTraffic(frames: seq<Frame>) {
    forall i | 0 <= i < |frames| :: frames[i] == Ready || frames[i].Sealed?
  }

  /** The invariant of honest runs: before the daemon has heard a hello there is nothing but hellos. */
  predicate Agreeing(c: Config, s: Net) {
    ClientShape(c, s) &&
    match s.daemon
    case Waiting(rejected) =>
      && !rejected && s.client.state != Open && s.client.flushing == []
      && OnlyHellos(c, s.toDaemon) && s.toClient == [] && s.sealedByClient == [] && s.sealedByDaemon == []
      && s.client.delivered == []
    case Stuck => false
    case Running(e) =>
      && e.key == c.ClientKey() && DaemonShape(c, s, e) && BothDirections(c, s, e)
      && ClientTraffic(c, s.toDaemon) && DaemonTraffic(s.toClient)
  }

  lemma OnlyHellosCarryNothing(c: Config, frames: seq<Frame>)
    requires OnlyHellos(c, frames)
    ensures Payloads(frames) == []
    decreases |frames|
  {
    if frames != [] {
      OnlyHellosCarryNothing(c, frames[1..]);
    }
  }

  lemma AgreeInit(c: Config, sent: bool)
    ensures Agreeing(c, Init(c, sent))
  {}

  lemma AgreeDeliverToDaemon(c: Config, s: Net)
    requires Commutes(c.derive) && Agreeing(c, s) && s.toDaemon != []
    ensures Agreeing(c, Step(c, s, DeliverToDaemon))
    ensures s.daemon.Running? ==> Step(c, s, DeliverToDaemon).daemon.end.state == s.daemon.end.state
    ensures s.daemon.Waiting? ==> Step(c, s, DeliverToDaemon).daemon.Running? &&
                                  Step(c, s, DeliverToDaemon).daemon.end.state == Open
  {
    assert c.derive(c.daemonSecret, PublicKey(c.clientSecret)) == c.ClientKey();
    match s.daemon
    case Waiting(_) =>
      var t := Step(c, s, DeliverToDaemon);
      assert s.toDaemon[0] == c.ClientHello();
      assert s.toClient + [Ready] == [Ready];
      OnlyHellosCarryNothing(c, s.toDaemon[1..]);
      PayloadsOne(Ready);
      assert t.toClient == [Ready];
    case Running(e) =>
      WellKeyedDaemonHears(c, s, e);
  }

  lemma WellKeyedDaemonHears(c: Config, s: Net, e: Endpoint)
    requires c.derive(c.daemonSecret, PublicKey(c.clientSecret)) == c.ClientKey()
    requires Agreeing(c, s) && s.daemon == Running(e) && s.toDaemon != []
    ensures Agreeing(c, Step(c, s, DeliverToDaemon))
    ensures Step(c, s, DeliverToDaemon).daemon.end.state == e.state
  {
    var o := OnFrame(c.derive, e, s.toDaemon[0]);
    assert o.endpoint.state == e.state && (o.frames == [] || o.frames == [Ready]);
    RunningHears(c, s, e);
  }

  lemma AgreeDeliverToClient(c: Config, s: Net)
    requires Agreeing(c, s) && s.toClient != []
    ensures Agreeing(c, Step(c, s, DeliverToClient))
    ensures s.client.state == Closed <==> Step(c, s, DeliverToClient).client.state == Closed
  {
    ClientFrameEffect(c.derive, s.client, s.toClient[0]);
    SafeDeliverToClient(c, s);
    hide OnFrame, Payloads;
    assert s.toDaemon + [] == s.toDaemon;
  }

  lemma AgreeClientStep(c: Config, s: Net, a: Action)
    requires Agreeing(c, s) && (a.Retry? || a.ClientSend? || a.ClientFlush?)
    ensures Agreeing(c, Step(c, s, a))
    ensures Step(c, s, a).client.state == s.client.state && Step(c, s, a).daemon == s.daemon
  {
    PayloadsOne(c.ClientHello());
    if s.daemon.Running? {
      SafeClientStep(c, s, a);
    } else {
      assert s.sealedByClient + [] == s.sealedByClient && s.toDaemon + [] == s.toDaemon;
    }
  }

  lemma AgreeDaemonSends(c: Config, s: Net, m: Message)
    requires Agreeing(c, s)
    ensures Agreeing(c, Step(c, s, DaemonSend(m)))
    ensures Step(c, s, DaemonSend(m)).client == s.client
    ensures s.daemon.Running? ==> Step(c, s, DaemonSend(m)).daemon == s.daemon
  {
    if s.daemon.Running? {
      SafeDaemonSends(c, s, m);
    }
  }

  lemma AgreeStep(c: Config, s: Net, a: Action)
    requires Commutes(c.derive) && Agreeing(c, s) && Honest(a)
    ensures Agreeing(c, Step(c, s, a))
  {
    match a
    case DeliverToDaemon => if s.toDaemon != [] { AgreeDeliverToDaemon(c, s); }
    case DeliverToClient => if s.toClient != [] { AgreeDeliverToClient(c, s); }
    case Retry => AgreeClientStep(c, s, a);
    case ClientSend(_) => AgreeClientStep(c, s, a);
    case ClientFlush => AgreeClientStep(c, s, a);
    case DaemonSend(m) => AgreeDaemonSends(c, s, m);
    case ClientCloses =>
    case DaemonCloses =>
  }

  lemma {:induction false} AgreeRun(c: Config, s: Net, acts: seq<Action>)
    requires Commutes(c.derive) && Agreeing(c, s) && AllHonest(acts)
    ensures Agreeing(c, Run(c, s, acts))
    decreases |acts|
  {
    hide Agreeing, Step;
    if acts != [] {
      AgreeRun(c, s, acts[..|acts| - 1]);
      AgreeStep(c, Run(c, s, acts[..|acts| - 1]), acts[|acts| - 1]);
    }
  }

  /**
   Key agreement: whenever the client is open, so was the daemon, under the same key; and
   while neither end is closed, what was sealed is what was delivered and what is in flight.
   */
  lemma KeyAgreement(c: Config, sent: bool, acts: seq<Action>)
    requires Commutes(c.derive) && AllHonest(acts)
    ensures var s := Run(c, Init(c, sent), acts);
            && (s.client.state == Open ==> s.daemon.Running?)
            && (s.daemon.Running? ==>
                  && s.daemon.end.key == s.client.key
                  && (s.daemon.end.state == Open ==>
                        s.daemon.end.delivered + Payloads(s.toDaemon) == s.sealedByClient)
                  && (s.client.state != Closed ==>
                        s.client.delivered + Payloads(s.toClient) == s.sealedByDaemon))
  {
    AgreeInit(c, sent);
    AgreeRun(c, Init(c, sent), acts);
  }

  // ---------------------------------------------------------------- draining

  /** What happens by itself: deliveries and turns of the flush loop. */
  predicate Internal(a: Action) {
    a.DeliverToDaemon? || a.DeliverToClient? || a.ClientFlush?
  }

  predicate Enabled(s: Net, a: Action) {
    match a
    case DeliverToDaemon => s.toDaemon != []
    case DeliverToClient => s.toClient != []
    case ClientFlush => s.client.flushing != []
    case _ => false
  }

  /** Every step of the run is internal and had something to do. */
  predicate Draining(c: Config, s: Net, acts: seq<Action>) {
    if acts == [] then true
    else Draining(c, s, acts[..|acts| - 1]) && Enabled(Run(c, s, acts[..|acts| - 1]), acts[|acts| - 1])
  }

  predicate Quiescent(s: Net) {
    s.toDaemon == [] && s.toClient == [] && s.client.flushing == []
  }

  predicate NeitherClosed(s: Net) {
    s.client.state != Closed && (s.daemon.Running? ==> s.daemon.end.state != Closed)
  }

  /** A hello in flight can still become a ready, a queued message a sealed frame. */
  function Measure(s: Net): nat {
    2 * |s.toDaemon| + |s.toClient| + 3 * (|s.client.pending| + |s.client.flushing|)
  }

  lemma InternalStep(c: Config, s: Net, a: Action)
    requires Commutes(c.derive) && Agreeing(c, s) && NeitherClosed(s) && Enabled(s, a)
    ensures var t := Step(c, s, a);
            && Agreeing(c, t) && NeitherClosed(t)
            && Measure(t) < Measure(s)
            && (s.daemon.Running? || s.toDaemon != [] ==> t.daemon.Running? || t.toDaemon != [])
  {
    match a
    case DeliverToDaemon =>
      AgreeDeliverToDaemon(c, s);
      AnswerIsShort(c, s.daemon, s.toDaemon[0]);
      hide DaemonHears;
    case DeliverToClient =>
      AgreeDeliverToClient(c, s);
      ClientFrameEffect(c.derive, s.client, s.toClient[0]);
    case ClientFlush => AgreeClientStep(c, s, a);
  }

  lemma AnswerIsShort(c: Config, d: Daemon, f: Frame)
    ensures |DaemonHears(c, d, f).1| <= 1
  {}

  lemma {:induction false} DrainTerminates(c: Config, s: Net, acts: seq<Action>)
    requires Commutes(c.derive) && Agreeing(c, s) && NeitherClosed(s) && Draining(c, s, acts)
    ensures var t := Run(c, s, acts);
            && Agreeing(c, t) && NeitherClosed(t)
            && |acts| + Measure(t) <= Measure(s)
            && (s.daemon.Running? || s.toDaemon != [] ==> t.daemon.Running? || t.toDaemon != [])
    decreases |acts|
  {
    hide Agreeing, Step, Measure, NeitherClosed;
    if acts != [] {
      DrainTerminates(c, s, acts[..|acts| - 1]);
      InternalStep(c, Run(c, s, acts[..|acts| - 1]), acts[|acts| - 1]);
    }
  }

  lemma QuietMeansOpen(c: Config, s: Net)
    requires Agreeing(c, s) && NeitherClosed(s) && Quiescent(s) && s.daemon.Running?
    ensures s.client.state == Open && s.daemon.end.state == Open && s.daemon.end.key == s.client.key
    ensures s.daemon.end.delivered == s.sealedByClient && s.client.delivered == s.sealedByDaemon
  {
    PayloadsOne(Ready);
  }

  /**
   Handshake progress. From every state that an honest run reaches with neither end closed,
   let the client's timer fire once more and then let deliveries and flush turns happen in
   any order: they come to an end, and when nothing is left to do both ends are open under
   equal keys and everything sealed has been delivered.
   */
  lemma HandshakeProgress(c: Config, sent: bool, acts: seq<Action>, drain: seq<Action>)
    requires Commutes(c.derive) && AllHonest(acts)
    requires NeitherClosed(Run(c, Init(c, sent), acts))
    requires Draining(c, Step(c, Run(c, Init(c, sent), acts), Retry), drain)
    ensures var s := Step(c, Run(c, Init(c, sent), acts), Retry);
            var t := Run(c, s, drain);
            && |drain| <= Measure(s)
            && (Quiescent(t) ==>
                  && t.client.state == Open && t.daemon.Running? && t.daemon.end.state == Open
                  && t.daemon.end.key == t.client.key
                  && t.daemon.end.delivered == t.sealedByClient && t.client.delivered == t.sealedByDaemon)
  {
    var s0 := Run(c, Init(c, sent), acts);
    AgreeInit(c, sent);
    AgreeRun(c, Init(c, sent), acts);
    AgreeClientStep(c, s0, Retry);
    assert s0.daemon.Waiting? ==> s0.client.state == Handshaking;
    var s := Step(c, s0, Retry);
    DrainTerminates(c, s, drain);
    var t := Run(c, s, drain);
    if Quiescent(t) {
      QuietMeansOpen(c, t);
    }
  }

  /** While something is left to do, draining can go on; so the end is always reached. */
  lemma DrainGoesOn(c: Config, s: Net, drain: seq<Action>)
    requires Draining(c, s, drain) && !Quiescent(Run(c, s, drain))
    ensures exists a :: Internal(a) && Draining(c, s, drain + [a])
  {
    var t := Run(c, s, drain);
    var a := if t.toDaemon != [] then DeliverToDaemon else if t.toClient != [] then DeliverToClient else ClientFlush;
    assert (drain + [a])[..|drain|] == drain;
    assert Internal(a) && Draining(c, s, drain + [a]);
  }

  /** Any drain can be completed to a quiescent state. */
  lemma {:induction false} DrainCompletes(c: Config, s: Net, drain: seq<Action>)
    requires Commutes(c.derive) && Agreeing(c, s) && NeitherClosed(s) && Draining(c, s, drain)
    ensures exists full :: drain <= full && Draining(c, s, full) && Quiescent(Run(c, s, full))
    decreases Measure(s) - |drain|
  {
    hide Agreeing, NeitherClosed, Step;
    DrainTerminates(c, s, drain);
    if Quiescent(Run(c, s, drain)) {
      assert drain <= drain;
    } else {
      DrainGoesOn(c, s, drain);
      var a :| Internal(a) && Draining(c, s, drain + [a]);
      DrainTerminates(c, s, drain + [a]);
      DrainCompletes(c, s, drain + [a]);
    }
  }
}
