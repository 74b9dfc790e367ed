/** Which terminal a binary frame belongs to: two maps that should be one partial injection. */
module StreamRouter {
  import opened Wrappers
  import opened BinaryFrames

  datatype Router = Router(slots: map<string, int>, terminals: map<int, string>)

  const NO_SLOTS := Router(map[], map[])

  datatype TerminalEvent =
    | OutputEvent(terminalId: string, data: seq<Byte>)
    | RestoreEvent(terminalId: string, data: seq<Byte>)
    | SnapshotEvent(terminalId: string, data: seq<Byte>)

  datatype Message = InputMessage(data: seq<Byte>) | ResizeMessage(payload: seq<Byte>) | OtherMessage

  datatype Op = SetSlot(terminalId: string, slot: int) | RemoveTerminal(terminalId: string) | ClearSlots

  /** The displaced terminal is looked up by truth value, so one with the empty id is not displaced. */
  function Set(r: Router, terminalId: string, slot: int): Router {
    var slots :=
      if slot in r.terminals && r.terminals[slot] != "" && r.terminals[slot] != terminalId
      then r.slots - {r.terminals[slot]} else r.slots;
    var terminals :=
      if terminalId in slots && slots[terminalId] != slot then r.terminals - {slots[terminalId]} else r.terminals;
    Router(slots[terminalId := slot], terminals[slot := terminalId])
  }

  function Remove(r: Router, terminalId: string): Router {
    if terminalId !in r.slots then r
    else
      var slot := r.slots[terminalId];
      Router(r.slots - {terminalId},
             if slot in r.terminals && r.terminals[slot] == terminalId then r.terminals - {slot} else r.terminals)
  }

  function Step(r: Router, op: Op): Router {
    match op
    case SetSlot(terminalId, slot) => Set(r, terminalId, slot)
    case RemoveTerminal(terminalId) => Remove(r, terminalId)
    case ClearSlots => NO_SLOTS
  }

  function Run(r: Router, ops: seq<Op>): Router {
    if ops == [] then r else Step(Run(r, ops[..|ops| - 1]), ops[|ops| - 1])
  }

  /** The terminal whose listeners a frame for the slot reaches. */
  function Route(r: Router, slot: int): Option<string> {
    if slot in r.terminals && r.terminals[slot] != "" then Some(r.terminals[slot]) else None
  }

  /** The event a frame becomes; `parses` says which snapshot payloads are valid. */
  function EventOf(r: Router, frame: TerminalFrame, parses: seq<Byte> -> bool): Option<TerminalEvent> {
    match Route(r, frame.slot)
    case None => None
    case Some(terminalId) =>
      match frame.opcode
      case Output => Some(OutputEvent(terminalId, frame.payload))
      case Restore => Some(RestoreEvent(terminalId, frame.payload))
      case Snapshot => if parses(frame.payload) then Some(SnapshotEvent(terminalId, frame.payload)) else None
      case _ => None
  }

  function InputFrame(r: Router, terminalId: string, message: Message): Option<seq<Byte>> {
    if terminalId !in r.slots then None
    else
      match message
      case InputMessage(data) => Some(EncodeTerminalFrame(TerminalFrame(Input, r.slots[terminalId], data)))
      case ResizeMessage(payload) => Some(EncodeTerminalFrame(TerminalFrame(Resize, r.slots[terminalId], payload)))
      case OtherMessage => None
  }

  /** An event handed to each listener, in the order they registered. */
  function CallsOf(listeners: seq<nat>, event: Option<TerminalEvent>): (calls: seq<(nat, TerminalEvent)>)
    ensures event.Some? ==>
              |calls| == |listeners| && forall i | 0 <= i < |calls| :: calls[i] == (listeners[i], event.value)
    ensures event.None? ==> calls == []
  {
    if event.None? || listeners == [] then []
    else CallsOf(listeners[..|listeners| - 1], event) + [(listeners[|listeners| - 1], event.value)]
  }

  // ---------------------------------------------------------------- the class

  class TerminalStreamRouter {
    var terminalSlots: map<string, int>
    var slotTerminals: map<int, string>
    var listeners: seq<nat>
    var calls: seq<(nat, TerminalEvent)>

    ghost function Value(): Router
      reads this`terminalSlots, this`slotTerminals
    {
      Router(terminalSlots, slotTerminals)
    }

    constructor ()
      ensures Value() == NO_SLOTS && listeners == [] && calls == []
    {
      terminalSlots, slotTerminals := map[], map[];
      listeners, calls := [], [];
    }

    method OnEvent(handler: nat)
      modifies this`listeners
      ensures listeners == if handler in old(listeners) then old(listeners) else old(listeners) + [handler]
    {
      if handler !in listeners {
        listeners := listeners + [handler];
      }
    }

    method BindSlot(terminalId: string, slot: int)
      modifies this`terminalSlots, this`slotTerminals
      ensures Value() == Step(old(Value()), SetSlot(terminalId, slot))
    {
      if slot in slotTerminals && slotTerminals[slot] != "" && slotTerminals[slot] != terminalId {
        terminalSlots := terminalSlots - {slotTerminals[slot]};
      }
      if terminalId in terminalSlots && terminalSlots[terminalId] != slot {
        slotTerminals := slotTerminals - {terminalSlots[terminalId]};
      }
      terminalSlots := terminalSlots[terminalId := slot];
      slotTerminals := slotTerminals[slot := terminalId];
    }

    method DropTerminal(terminalId: string)
      modifies this`terminalSlots, this`slotTerminals
      ensures Value() == Step(old(Value()), RemoveTerminal(terminalId))
    {
      if terminalId !in terminalSlots {
        return;
      }
      var slot := terminalSlots[terminalId];
      terminalSlots := terminalSlots - {terminalId};
      if slot in slotTerminals && slotTerminals[slot] == terminalId {
        slotTerminals := slotTerminals - {slot};
      }
    }

    method DropAll()
      modifies this`terminalSlots, this`slotTerminals
      ensures Value() == Step(old(Value()), Op.ClearSlots)
    {
      terminalSlots := map[];
      slotTerminals := map[];
    }

    method EncodeInput(terminalId: string, message: Message) returns (bytes: Option<seq<Byte>>)
      ensures bytes == InputFrame(Value(), terminalId, message)
    {
      if terminalId !in terminalSlots {
        return None;
      }
      var slot := terminalSlots[terminalId];
      if message.InputMessage? {
        return Some(EncodeTerminalFrame(TerminalFrame(Input, slot, message.data)));
      }
      if message.ResizeMessage? {
        return Some(EncodeTerminalFrame(TerminalFrame(Resize, slot, message.payload)));
      }
      return None;
    }

    /** Every listener is called once, in order of registration; what one of them throws stops no other. */
    method Emit(event: TerminalEvent)
      modifies this`calls
      ensures calls == old(calls) + CallsOf(listeners, Some(event))
    {
      for k := 0 to |listeners|
        invariant calls == old(calls) + CallsOf(listeners[..k], Some(event))
      {
        assert listeners[..k + 1][..k] == listeners[..k];
        calls := calls + [(listeners[k], event)];
      }
      assert listeners[..|listeners|] == listeners;
    }

    /** What this one frame made of the calls is exactly the event of its slot's terminal, if there is one. */
    method HandleFrame(frame: TerminalFrame, parses: seq<Byte> -> bool)
      modifies this`calls
      ensures calls == old(calls) + CallsOf(listeners, EventOf(Value(), frame, parses))
    {
      if frame.slot !in slotTerminals || slotTerminals[frame.slot] == "" {
        return;
      }
      var terminalId := slotTerminals[frame.slot];
      if frame.opcode == Output {
        Emit(OutputEvent(terminalId, frame.payload));
        return;
      }
      if frame.opcode == Restore {
        Emit(RestoreEvent(terminalId, frame.payload));
        return;
      }
      if frame.opcode == Snapshot {
        if !parses(frame.payload) {
          return;
        }
        Emit(SnapshotEvent(terminalId, frame.payload));
      }
    }
  }

  // ---------------------------------------------------------------- a partial injection

  ghost predicate Inverse(r: Router) {
    && (forall t :: t in r.slots ==> r.slots[t] in r.terminals && r.terminals[r.slots[t]] == t)
    && (forall s :: s in r.terminals ==> r.terminals[s] in r.slots && r.slots[r.terminals[s]] == s)
  }

  /** The reference: a set of bindings in which no terminal and no slot occurs twice. */
  function Bind(pairs: set<(string, int)>, op: Op): set<(string, int)> {
    match op
    case SetSlot(t, s) => (set p | p in pairs && p.0 != t && p.1 != s) + {(t, s)}
    case RemoveTerminal(t) => set p | p in pairs && p.0 != t
    case ClearSlots => {}
  }

  function Bindings(ops: seq<Op>): set<(string, int)> {
    if ops == [] then {} else Bind(Bindings(ops[..|ops| - 1]), ops[|ops| - 1])
  }

  /**
   One step keeps the maps inverse exactly when it does not put a named terminal on a slot held
   by the terminal with the empty id.
   */
  lemma StepInverse(r: Router, op: Op)
    requires Inverse(r)
    ensures Inverse(Step(r, op)) <==>
              !(op.SetSlot? && op.slot in r.terminals && r.terminals[op.slot] == "" && op.terminalId != "")
  {
    var t := Step(r, op);
    if op.SetSlot? && op.slot in r.terminals && r.terminals[op.slot] == "" && op.terminalId != "" {
      assert "" in r.slots && r.slots[""] == op.slot;
      assert "" in t.slots && t.slots[""] == op.slot && t.terminals[op.slot] == op.terminalId;
    }
  }

  ghost predicate Represents(r: Router, pairs: set<(string, int)>) {
    forall t, s :: (t, s) in pairs <==> t in r.slots && r.slots[t] == s
  }

  lemma StepRefines(r: Router, pairs: set<(string, int)>, op: Op)
    requires Inverse(r) && Represents(r, pairs)
    requires op.SetSlot? ==> op.terminalId != ""
    requires "" !in r.slots
    ensures Inverse(Step(r, op)) && Represents(Step(r, op), Bind(pairs, op)) && "" !in Step(r, op).slots
  {
    StepInverse(r, op);
    assert forall s :: s in r.terminals ==> r.terminals[s] in r.slots;
  }

  predicate Named(ops: seq<Op>) {
    forall i | 0 <= i < |ops| :: ops[i].SetSlot? ==> ops[i].terminalId != ""
  }

  /** For named terminals the two maps are, after any run, inverse to each other and equal to the reference. */
  lemma {:induction false} RunRefines(ops: seq<Op>)
    requires Named(ops)
    ensures Inverse(Run(NO_SLOTS, ops)) && Represents(Run(NO_SLOTS, ops), Bindings(ops))
    ensures "" !in Run(NO_SLOTS, ops).slots
    decreases |ops|
  {
    hide Inverse, Represents, Step, Bind;
    if ops == [] {
      NothingBound();
    } else {
      var front := ops[..|ops| - 1];
      RunRefines(front);
      StepRefines(Run(NO_SLOTS, front), Bindings(front), ops[|ops| - 1]);
    }
  }

  lemma NothingBound()
    ensures Inverse(NO_SLOTS) && Represents(NO_SLOTS, {})
  {}

  /** A frame reaches terminal `t` exactly when the reference binds its slot to `t`, and else none. */
  lemma RoutesByBindings(ops: seq<Op>, slot: int, t: string)
    requires Named(ops)
    ensures Route(Run(NO_SLOTS, ops), slot) == Some(t) <==> (t, slot) in Bindings(ops)
  {
    RunRefines(ops);
    hide Run, Bindings;
  }

  predicate Undoes(op: Op, t: string, s: int) {
    match op
    case SetSlot(t', s') => t' == t || s' == s
    case RemoveTerminal(t') => t' == t
    case ClearSlots => true
  }

  ghost predicate BoundAt(ops: seq<Op>, k: int, t: string, s: int) {
    && 0 <= k < |ops| && ops[k] == SetSlot(t, s)
    && forall j | k < j < |ops| :: !Undoes(ops[j], t, s)
  }

  lemma {:induction false} BindingsByHistory(ops: seq<Op>, t: string, s: int)
    ensures (t, s) in Bindings(ops) <==> exists k :: BoundAt(ops, k, t, s)
    decreases |ops|
  {
    if ops != [] {
      var front, last := ops[..|ops| - 1], |ops| - 1;
      BindingsByHistory(front, t, s);
      if ops[last] == SetSlot(t, s) {
        assert BoundAt(ops, last, t, s);
      } else if Undoes(ops[last], t, s) {
        assert forall k :: !BoundAt(ops, k, t, s);
      } else {
        assert forall k :: BoundAt(ops, k, t, s) <==> BoundAt(front, k, t, s);
      }
    }
  }

  /** The same by history: `t` has the slot exactly when some `setSlot` gave it and nothing since took it away. */
  lemma RoutesByHistory(ops: seq<Op>, slot: int, t: string)
    requires Named(ops)
    ensures Route(Run(NO_SLOTS, ops), slot) == Some(t) <==> exists k :: BoundAt(ops, k, t, slot)
  {
    hide Run, Bindings, BoundAt, Named;
    RoutesByBindings(ops, slot, t);
    BindingsByHistory(ops, t, slot);
  }

  /** The frame that a message to a slot should arrive as. */
  function Expected(slot: int, message: Message): TerminalFrame
    requires !message.OtherMessage?
  {
    match message
    case InputMessage(data) => TerminalFrame(Input, slot % 256, data)
    case ResizeMessage(payload) => TerminalFrame(Resize, slot % 256, payload)
  }

  /**
   Input and resize messages are sent exactly for bound terminals, and arrive with their payload on
   the terminal's own slot: one that routes back to the same terminal, if it fits the frame's one byte.
   */
  lemma InputCarriesOwnSlot(ops: seq<Op>, t: string, message: Message)
    requires Named(ops) && !message.OtherMessage?
    ensures var r := Run(NO_SLOTS, ops);
            var bytes := InputFrame(r, t, message);
            && (bytes.Some? <==> exists slot :: (t, slot) in Bindings(ops))
            && (bytes.Some? ==>
                  && DecodeTerminalFrame(bytes.value) == Some(Expected(r.slots[t], message))
                  && (0 <= r.slots[t] < 256 ==> Route(r, DecodeTerminalFrame(bytes.value).value.slot) == Some(t)))
  {
    RunRefines(ops);
    var r := Run(NO_SLOTS, ops);
    if t in r.slots {
      assert (t, r.slots[t]) in Bindings(ops);
      TerminalFrameRoundTrip(TerminalFrame(if message.InputMessage? then Input else Resize, r.slots[t],
                                           if message.InputMessage? then message.data else message.payload));
    }
    hide Run, Bindings, EncodeTerminalFrame, DecodeTerminalFrame;
  }

  /** With an empty id the maps part: a later move of the empty id takes away another terminal's slot. */
  lemma EmptyIdStealsSlot()
    ensures var ops := [SetSlot("", 1), SetSlot("a", 1), SetSlot("", 2)];
            && Route(Run(NO_SLOTS, ops), 1) == None
            && ("a", 1) in Bindings(ops)
  {
    var first, second := [SetSlot("", 1)], [SetSlot("", 1), SetSlot("a", 1)];
    var ops := second + [SetSlot("", 2)];
    assert first[..0] == [] && second[..1] == first && ops[..2] == second;
    assert ops == [SetSlot("", 1), SetSlot("a", 1), SetSlot("", 2)];
    assert Run(NO_SLOTS, first) == Set(NO_SLOTS, "", 1);
    assert Bindings(second) == Bind(Bindings(first), SetSlot("a", 1));
  }
}
