/**
 The two binary frame formats of one connection: file transfers and terminal streams.

 Request ids are given by their UTF-8 bytes. JSON metadata is printed and parsed by the two
 functions of a codec, of which only that parsing undoes printing is used.
 */
module BinaryFrames {
  import opened Wrappers

  type Byte = x: int | 0 <= x < 256

  datatype Metadata = Metadata(mime: string, size: nat, encoding: string, modifiedAt: string)

  datatype FileFrame =
    | FileBegin(requestId: seq<Byte>, metadata: Metadata)
    | FileChunk(requestId: seq<Byte>, payload: seq<Byte>)
    | FileEnd(requestId: seq<Byte>)

  datatype Codec = Codec(encode: Metadata -> seq<Byte>, decode: seq<Byte> -> Option<Metadata>)

  ghost predicate Faithful(c: Codec) {
    forall m :: c.decode(c.encode(m)) == Some(m)
  }

  const FILE_BEGIN: Byte := 0x10
  const FILE_CHUNK: Byte := 0x11
  const FILE_END: Byte := 0x12

  /** `setUint16` and `getUint16`: most significant byte first. */
  function Uint16(n: nat): seq<Byte>
    requires n <= 0xffff
  {
    [n / 256, n % 256]
  }

  function ReadUint16(b: seq<Byte>): nat
    requires |b| >= 2
  {
    var high: int, low: int := b[0], b[1];
    high * 256 + low
  }

  /** None where the source throws a RangeError. */
  function EncodeFileFrame(c: Codec, f: FileFrame): Option<seq<Byte>> {
    var id := f.requestId;
    if id == [] || |id| > 0xff then None
    else
      match f
      case FileBegin(_, metadata) =>
        var json := c.encode(metadata);
        if |json| > 0xffff then None
        else Some([FILE_BEGIN, |id|] + id + Uint16(|json|) + json)
      case FileChunk(_, payload) => Some([FILE_CHUNK, |id|] + id + payload)
      case FileEnd(_) => Some([FILE_END, |id|] + id)
  }

  function DecodeFileFrame(c: Codec, bytes: seq<Byte>): Option<FileFrame> {
    if |bytes| < 2 || bytes[0] !in {FILE_BEGIN, FILE_CHUNK, FILE_END} then None
    else if bytes[1] == 0 || bytes[1] > |bytes| - 2 then None
    else
      var id := bytes[2..2 + bytes[1]];
      var body := bytes[2 + bytes[1]..];
      if bytes[0] == FILE_BEGIN then
        if |body| < 2 || ReadUint16(body) != |body| - 2 then None
        else
          match c.decode(body[2..])
          case Some(metadata) => Some(FileBegin(id, metadata))
          case None => None
      else if bytes[0] == FILE_CHUNK then Some(FileChunk(id, body))
      else if |body| != 0 then None
      else Some(FileEnd(id))
  }

  datatype TerminalOpcode = Output | Input | Resize | Snapshot | Restore

  datatype TerminalFrame = TerminalFrame(opcode: TerminalOpcode, slot: int, payload: seq<Byte>)

  function OpcodeByte(o: TerminalOpcode): Byte {
    match o
    case Output => 1
    case Input => 2
    case Resize => 3
    case Snapshot => 4
    case Restore => 5
  }

  function EncodeTerminalFrame(f: TerminalFrame): seq<Byte> {
    [OpcodeByte(f.opcode), f.slot % 256] + f.payload
  }

  function DecodeTerminalFrame(bytes: seq<Byte>): Option<TerminalFrame> {
    if |bytes| < 2 then None
    else
      match bytes[0]
      case 1 => Some(TerminalFrame(Output, bytes[1], bytes[2..]))
      case 2 => Some(TerminalFrame(Input, bytes[1], bytes[2..]))
      case 3 => Some(TerminalFrame(Resize, bytes[1], bytes[2..]))
      case 4 => Some(TerminalFrame(Snapshot, bytes[1], bytes[2..]))
      case 5 => Some(TerminalFrame(Restore, bytes[1], bytes[2..]))
      case _ => None
  }

  /** A file frame can be encoded exactly when its id and metadata fit, and then decodes to itself. */
  lemma FileFrameRoundTrip(c: Codec, f: FileFrame)
    requires Faithful(c)
    ensures EncodeFileFrame(c, f).Some? <==>
              1 <= |f.requestId| <= 255 && (f.FileBegin? ==> |c.encode(f.metadata)| <= 65535)
    ensures EncodeFileFrame(c, f).Some? ==> DecodeFileFrame(c, EncodeFileFrame(c, f).value) == Some(f)
  {
    if EncodeFileFrame(c, f).Some? {
      var id, bytes := f.requestId, EncodeFileFrame(c, f).value;
      assert bytes[2..2 + |id|] == id;
      match f
      case FileBegin(_, metadata) =>
        var json := c.encode(metadata);
        assert bytes[2 + |id|..] == Uint16(|json|) + json;
        assert bytes[2 + |id|..][2..] == json;
      case FileChunk(_, payload) => assert bytes[2 + |id|..] == payload;
      case FileEnd(_) => assert bytes[2 + |id|..] == [];
    }
  }

  /** Chunk and end frames have one spelling: encoding what was decoded gives back the same bytes. */
  lemma FileFrameCanonical(c: Codec, bytes: seq<Byte>)
    requires DecodeFileFrame(c, bytes).Some? && !DecodeFileFrame(c, bytes).value.FileBegin?
    ensures EncodeFileFrame(c, DecodeFileFrame(c, bytes).value) == Some(bytes)
  {
    var n := bytes[1];
    assert bytes == [bytes[0], n] + bytes[2..2 + n] + bytes[2 + n..];
    if bytes[0] == FILE_END {
      assert bytes == [bytes[0], n] + bytes[2..2 + n];
    }
  }

  /** A terminal frame survives the wire exactly when its slot fits one byte. */
  lemma TerminalFrameRoundTrip(f: TerminalFrame)
    ensures DecodeTerminalFrame(EncodeTerminalFrame(f)) == Some(f.(slot := f.slot % 256))
    ensures DecodeTerminalFrame(EncodeTerminalFrame(f)) == Some(f) <==> 0 <= f.slot < 256
  {
    assert EncodeTerminalFrame(f)[2..] == f.payload;
  }

  /** No bytes are both a file frame and a terminal frame, so trying files first hides no terminal frame. */
  lemma FormatsDisjoint(c: Codec, bytes: seq<Byte>)
    ensures DecodeFileFrame(c, bytes).None? || DecodeTerminalFrame(bytes).None?
  {}
}
