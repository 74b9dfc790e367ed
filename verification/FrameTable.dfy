/** Binary frames and their routing, byte by byte and entry by entry. */
module FrameTable {
  import opened Wrappers
  import opened BinaryFrames
  import opened StreamRouter

  // ---------------------------------------------------------------- bytes

  /** An id behind its length, from the second byte on. */
  predicate HasId(b: seq<Byte>, id: seq<Byte>) {
    |b| >= 2 + |id| && b[1] == |id| && b[2..2 + |id|] == id
  }

  function BigEndian(high: int, low: int): int {
    256 * high + low
  }

  /** The bytes of a file frame: its opcode, the length of its id, the id, and for a begin the metadata's length. */
  lemma FileFrameBytes(c: Codec, f: FileFrame)
    requires EncodeFileFrame(c, f).Some?
    ensures var b, n := EncodeFileFrame(c, f).value, |f.requestId|;
      && HasId(b, f.requestId) && b[0] == (if f.FileBegin? then 16 else if f.FileChunk? then 17 else 18)
      && (f.FileEnd? ==> |b| == 2 + n)
      && (f.FileChunk? ==> b[2 + n..] == f.payload)
      && (f.FileBegin? ==>
            var json := c.encode(f.metadata);
            |b| == 4 + n + |json| && b[4 + n..] == json && BigEndian(b[2 + n], b[3 + n]) == |json|)
  {}

  /** Bytes are a chunk, an end or a begin exactly when they are laid out as one. */
  lemma FileFrameRead(c: Codec, b: seq<Byte>, id: seq<Byte>, payload: seq<Byte>, metadata: Metadata)
    ensures DecodeFileFrame(c, b) == Some(FileChunk(id, payload)) <==>
              HasId(b, id) && id != [] && b[0] == 17 && payload == b[2 + |id|..]
    ensures DecodeFileFrame(c, b) == Some(FileEnd(id)) <==>
              HasId(b, id) && id != [] && b[0] == 18 && |b| == 2 + |id|
    ensures DecodeFileFrame(c, b) == Some(FileBegin(id, metadata)) <==>
              && HasId(b, id) && id != [] && b[0] == 16 && |b| >= 4 + |id|
              && BigEndian(b[2 + |id|], b[3 + |id|]) == |b| - 4 - |id|
              && c.decode(b[4 + |id|..]) == Some(metadata)
  {
    if |b| >= 4 + |id| {
      assert b[2 + |id|..][2..] == b[4 + |id|..];
    }
  }

  /** The numbers 1 to 5 of the terminal opcodes. */
  predicate Numbered(opcode: TerminalOpcode, n: int) {
    match n
    case 1 => opcode == Output
    case 2 => opcode == Input
    case 3 => opcode == Resize
    case 4 => opcode == Snapshot
    case 5 => opcode == Restore
    case _ => false
  }

  lemma TerminalFrameBytes(f: TerminalFrame)
    ensures var b := EncodeTerminalFrame(f);
      |b| == 2 + |f.payload| && Numbered(f.opcode, b[0]) && b[2..] == f.payload && (f.slot - b[1]) % 256 == 0
  {}

  lemma TerminalFrameRead(b: seq<Byte>, f: TerminalFrame)
    ensures DecodeTerminalFrame(b) == Some(f) <==>
              |b| >= 2 && Numbered(f.opcode, b[0]) && f.slot == b[1] && f.payload == b[2..]
  {}

  // ---------------------------------------------------------------- routing

  /** A frame becomes the event of its opcode for the terminal that holds its slot, and nothing without one. */
  lemma EventTable(r: Router, f: TerminalFrame, parses: seq<Byte> -> bool)
    ensures var event := EventOf(r, f, parses);
      if f.slot in r.terminals && r.terminals[f.slot] != "" then
        var id := r.terminals[f.slot];
        && (f.opcode == Output ==> event == Some(OutputEvent(id, f.payload)))
        && (f.opcode == Restore ==> event == Some(RestoreEvent(id, f.payload)))
        && (f.opcode == Snapshot && parses(f.payload) ==> event == Some(SnapshotEvent(id, f.payload)))
        && (f.opcode == Snapshot && !parses(f.payload) ==> event == None)
        && (f.opcode == Input || f.opcode == Resize ==> event == None)
      else event == None
  {}

  /** Over every run for named terminals: which event a frame becomes, by the last `setSlot` of its slot. */
  lemma EventByHistory(ops: seq<Op>, f: TerminalFrame, parses: seq<Byte> -> bool, id: string)
    requires Named(ops)
    ensures var event := EventOf(Run(NO_SLOTS, ops), f, parses);
      && (event == Some(OutputEvent(id, f.payload)) <==>
            f.opcode == Output && exists k :: BoundAt(ops, k, id, f.slot))
      && (event == Some(RestoreEvent(id, f.payload)) <==>
            f.opcode == Restore && exists k :: BoundAt(ops, k, id, f.slot))
      && (event == Some(SnapshotEvent(id, f.payload)) <==>
            f.opcode == Snapshot && parses(f.payload) && exists k :: BoundAt(ops, k, id, f.slot))
  {
    RoutesByHistory(ops, f.slot, id);
    hide Run, BoundAt, Named;
  }

  /** Whatever the maps hold: `setSlot` binds the pair, and takes the slot's and the terminal's old bindings away. */
  lemma SetEntry(r: Router, id: string, slot: int, otherId: string, otherSlot: int)
    ensures var t := Step(r, SetSlot(id, slot));
      && id in t.slots && t.slots[id] == slot && slot in t.terminals && t.terminals[slot] == id
      && (otherId != id ==>
            && (otherId in t.slots <==>
                  otherId in r.slots && (otherId == "" || slot !in r.terminals || r.terminals[slot] != otherId))
            && (otherId in t.slots ==> t.slots[otherId] == r.slots[otherId]))
      && (otherSlot != slot ==>
            && (otherSlot in t.terminals <==>
                  otherSlot in r.terminals && (id !in r.slots || r.slots[id] != otherSlot))
            && (otherSlot in t.terminals ==> t.terminals[otherSlot] == r.terminals[otherSlot]))
  {}

  /** `removeTerminal` takes the terminal away, and its slot when that is still the terminal's own. */
  lemma RemoveEntry(r: Router, id: string, otherId: string, otherSlot: int)
    ensures var t := Step(r, RemoveTerminal(id));
      && id !in t.slots
      && (otherId != id ==>
            && (otherId in t.slots <==> otherId in r.slots)
            && (otherId in t.slots ==> t.slots[otherId] == r.slots[otherId]))
      && (otherSlot in t.terminals <==>
            otherSlot in r.terminals && !(id in r.slots && r.slots[id] == otherSlot && r.terminals[otherSlot] == id))
      && (otherSlot in t.terminals ==> t.terminals[otherSlot] == r.terminals[otherSlot])
    ensures Step(r, Op.ClearSlots).slots == map[] && Step(r, Op.ClearSlots).terminals == map[]
  {}

  /** The bytes of what a bound terminal sends: opcode 2 for input, 3 for a resize, then its slot and the payload. */
  lemma InputBytes(r: Router, id: string, message: Message)
    ensures var b := InputFrame(r, id, message);
      if id in r.slots && message.InputMessage? then
        b == Some([2, r.slots[id] % 256] + message.data)
      else if id in r.slots && message.ResizeMessage? then
        b == Some([3, r.slots[id] % 256] + message.payload)
      else b == None
  {}
}
