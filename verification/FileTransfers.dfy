/** Reassembly of the files a daemon sends in binary frames, many of them interleaved. */
module FileTransfers {
  import opened Wrappers
  import opened BinaryFrames

  type RequestId = seq<Byte>

  datatype FileKind = Text | Image | Binary

  datatype PendingRead = PendingRead(cwd: string, path: string)

  datatype Transfer = Transfer(cwd: string, path: string, metadata: Metadata, chunks: seq<seq<Byte>>)

  datatype FileRead = FileRead(
    bytes: seq<Byte>, mime: string, size: nat, path: string, kind: FileKind, modifiedAt: string)

  /** What a frame or a finished read caused outside the maps. */
  datatype Effect =
    | Notified(cwd: string, path: string)
    | Threw
    | Returned(file: FileRead)

  datatype Entry = Entry(requestId: RequestId, effect: Effect)

  datatype Transfers = Transfers(
    pending: map<RequestId, PendingRead>,
    active: map<RequestId, Transfer>,
    completed: map<RequestId, FileRead>,
    log: seq<Entry>)

  const NO_TRANSFERS := Transfers(map[], map[], map[], [])

  datatype Event =
    | Started(requestId: RequestId, cwd: string, path: string)
    | Arrived(frame: FileFrame)
    | Finished(requestId: RequestId, ok: bool)

  predicate StartsWith(s: string, prefix: string) {
    prefix <= s
  }

  function KindOf(mime: string, encoding: string): FileKind {
    if StartsWith(mime, "image/") then Image
    else if encoding == "utf-8" || StartsWith(mime, "text/") || mime == "application/json" then Text
    else Binary
  }

  function Join(chunks: seq<seq<Byte>>): seq<Byte> {
    if chunks == [] then [] else Join(chunks[..|chunks| - 1]) + chunks[|chunks| - 1]
  }

  function Zeros(n: nat): seq<Byte> {
    seq(n, _ => 0)
  }

  /** The chunks one after the other in a zero-filled buffer; None where they do not fit and the source throws. */
  function Filled(chunks: seq<seq<Byte>>, size: nat): Option<seq<Byte>> {
    var bytes := Join(chunks);
    if |bytes| <= size then Some(bytes + Zeros(size - |bytes|)) else None
  }

  lemma JoinGrows(chunks: seq<seq<Byte>>, k: nat)
    requires k <= |chunks|
    ensures |Join(chunks[..k])| <= |Join(chunks)|
    decreases |chunks|
  {
    if k == |chunks| {
      assert chunks[..k] == chunks;
    } else {
      assert chunks[..|chunks| - 1][..k] == chunks[..k];
      JoinGrows(chunks[..|chunks| - 1], k);
    }
  }

  method ConcatByteChunks(chunks: seq<seq<Byte>>, size: nat) returns (result: Option<seq<Byte>>)
    ensures result == Filled(chunks, size)
  {
    var bytes := new Byte[size](_ => 0);
    var offset := 0;
    for k := 0 to |chunks|
      invariant offset == |Join(chunks[..k])| <= size
      invariant bytes[..offset] == Join(chunks[..k])
      invariant forall i | offset <= i < size :: bytes[i] == 0
    {
      var chunk := chunks[k];
      assert chunks[..k + 1][..k] == chunks[..k];
      JoinGrows(chunks, k + 1);
      if offset + |chunk| > size {
        return None;
      }
      forall i | 0 <= i < |chunk| {
        bytes[offset + i] := chunk[i];
      }
      assert bytes[..offset + |chunk|] == bytes[..offset] + chunk;
      offset := offset + |chunk|;
    }
    assert chunks[..|chunks|] == chunks;
    assert bytes[..] == bytes[..offset] + Zeros(size - offset);
    return Some(bytes[..]);
  }

  function Complete(t: Transfer, bytes: seq<Byte>): FileRead {
    FileRead(bytes, t.metadata.mime, t.metadata.size, t.path,
             KindOf(t.metadata.mime, t.metadata.encoding), t.metadata.modifiedAt)
  }

  function Note(s: Transfers, id: RequestId, effect: Effect): Transfers {
    s.(log := s.log + [Entry(id, effect)])
  }

  function Handle(s: Transfers, frame: FileFrame): Transfers {
    var id := frame.requestId;
    if frame.FileBegin? then
      if id !in s.pending then s
      else s.(active := s.active[id := Transfer(s.pending[id].cwd, s.pending[id].path, frame.metadata, [])])
    else if id !in s.active then s
    else
      var t := s.active[id];
      if frame.FileChunk? then s.(active := s.active[id := t.(chunks := t.chunks + [frame.payload])])
      else
        match Filled(t.chunks, t.metadata.size)
        case None => Note(s, id, Threw)
        case Some(bytes) =>
          Note(s.(active := s.active - {id}, completed := s.completed[id := Complete(t, bytes)]),
               id, Notified(t.cwd, t.path))
  }

  /** The end of `readFile`: `ok` when its response came and carried no error. */
  function Finish(s: Transfers, id: RequestId, ok: bool): Transfers {
    var cleared := s.(pending := s.pending - {id}, active := s.active - {id});
    if ok && id in s.completed then
      Note(cleared.(completed := s.completed - {id}), id, Returned(s.completed[id]))
    else cleared
  }

  function Step(s: Transfers, e: Event): Transfers {
    match e
    case Started(id, cwd, path) => s.(pending := s.pending[id := PendingRead(cwd, path)])
    case Arrived(frame) => Handle(s, frame)
    case Finished(id, ok) => Finish(s, id, ok)
  }

  function Run(s: Transfers, es: seq<Event>): Transfers {
    if es == [] then s else Step(Run(s, es[..|es| - 1]), es[|es| - 1])
  }

  // ---------------------------------------------------------------- the class

  class FileTransfers {
    var pendingBinaryFileReads: map<RequestId, PendingRead>
    var activeBinaryFileTransfers: map<RequestId, Transfer>
    var completedBinaryFileReads: map<RequestId, FileRead>
    var log: seq<Entry>

    ghost function Value(): Transfers
      reads this
    {
      Transfers(pendingBinaryFileReads, activeBinaryFileTransfers, completedBinaryFileReads, log)
    }

    constructor ()
      ensures Value() == NO_TRANSFERS
    {
      pendingBinaryFileReads, activeBinaryFileTransfers, completedBinaryFileReads := map[], map[], map[];
      log := [];
    }

    method StartRead(id: RequestId, cwd: string, path: string)
      modifies this
      ensures Value() == Step(old(Value()), Started(id, cwd, path))
    {
      pendingBinaryFileReads := pendingBinaryFileReads[id := PendingRead(cwd, path)];
    }

    method HandleFileTransferFrame(frame: FileFrame)
      modifies this
      ensures Value() == Step(old(Value()), Arrived(frame))
    {
      var id := frame.requestId;
      if frame.FileBegin? {
        if id !in pendingBinaryFileReads {
          return;
        }
        var pending := pendingBinaryFileReads[id];
        activeBinaryFileTransfers :=
          activeBinaryFileTransfers[id := Transfer(pending.cwd, pending.path, frame.metadata, [])];
        return;
      }
      if id !in activeBinaryFileTransfers {
        return;
      }
      var transfer := activeBinaryFileTransfers[id];
      if frame.FileChunk? {
        activeBinaryFileTransfers :=
          activeBinaryFileTransfers[id := transfer.(chunks := transfer.chunks + [frame.payload])];
        return;
      }
      var bytes := ConcatByteChunks(transfer.chunks, transfer.metadata.size);
      if bytes.None? {
        log := log + [Entry(id, Threw)];
        return;
      }
      activeBinaryFileTransfers := activeBinaryFileTransfers - {id};
      completedBinaryFileReads := completedBinaryFileReads[id := Complete(transfer, bytes.value)];
      log := log + [Entry(id, Notified(transfer.cwd, transfer.path))];
    }

    method FinishRead(id: RequestId, ok: bool) returns (result: Option<FileRead>)
      modifies this
      ensures Value() == Step(old(Value()), Finished(id, ok))
      ensures result == if ok && id in old(completedBinaryFileReads)
                        then Some(old(completedBinaryFileReads)[id]) else None
    {
      result := None;
      if ok && id in completedBinaryFileReads {
        result := Some(completedBinaryFileReads[id]);
        completedBinaryFileReads := completedBinaryFileReads - {id};
        log := log + [Entry(id, Returned(result.value))];
      }
      pendingBinaryFileReads := pendingBinaryFileReads - {id};
      activeBinaryFileTransfers := activeBinaryFileTransfers - {id};
    }
  }

  // ---------------------------------------------------------------- isolation

  function IdOf(e: Event): RequestId {
    match e
    case Started(id, _, _) => id
    case Arrived(frame) => frame.requestId
    case Finished(id, _) => id
  }

  function Only(es: seq<Event>, id: RequestId): seq<Event> {
    if es == [] then []
    else Only(es[..|es| - 1], id) + if IdOf(es[|es| - 1]) == id then [es[|es| - 1]] else []
  }

  function EffectsOf(log: seq<Entry>, id: RequestId): seq<Effect> {
    if log == [] then []
    else EffectsOf(log[..|log| - 1], id) + if log[|log| - 1].requestId == id then [log[|log| - 1].effect] else []
  }

  /** Everything that concerns one request. */
  datatype View = View(
    pending: Option<PendingRead>, active: Option<Transfer>, completed: Option<FileRead>, effects: seq<Effect>)

  function Lookup<K, V>(m: map<K, V>, k: K): Option<V> {
    if k in m then Some(m[k]) else None
  }

  function ViewOf(s: Transfers, id: RequestId): View {
    View(Lookup(s.pending, id), Lookup(s.active, id), Lookup(s.completed, id), EffectsOf(s.log, id))
  }

  lemma NoteView(s: Transfers, noted: RequestId, effect: Effect, id: RequestId)
    ensures ViewOf(Note(s, noted, effect), id) ==
              ViewOf(s, id).(effects := EffectsOf(s.log, id) + if noted == id then [effect] else [])
  {
    assert (s.log + [Entry(noted, effect)])[..|s.log|] == s.log;
  }

  lemma OthersUntouched(s: Transfers, e: Event, id: RequestId)
    requires IdOf(e) != id
    ensures ViewOf(Step(s, e), id) == ViewOf(s, id)
  {
    forall t: Transfers, effect
      ensures ViewOf(Note(t, IdOf(e), effect), id) == ViewOf(t, id)
    {
      NoteView(t, IdOf(e), effect, id);
    }
    hide EffectsOf, Note, Join;
  }

  /** What a step does to its own request depends on that request's view alone. */
  lemma OwnStep(s: Transfers, t: Transfers, e: Event, id: RequestId)
    requires ViewOf(s, id) == ViewOf(t, id) && IdOf(e) == id
    ensures ViewOf(Step(s, e), id) == ViewOf(Step(t, e), id)
  {
    if e.Arrived? {
      OwnFrame(s, t, e.frame);
    } else if e.Finished? {
      OwnFinish(s, t, id, e.ok);
    }
    hide EffectsOf, Handle, Finish;
  }

  lemma OwnFrame(s: Transfers, t: Transfers, frame: FileFrame)
    requires ViewOf(s, frame.requestId) == ViewOf(t, frame.requestId)
    ensures ViewOf(Handle(s, frame), frame.requestId) == ViewOf(Handle(t, frame), frame.requestId)
  {
    OwnNotes(frame.requestId);
    hide EffectsOf, Note, Join, Filled, Complete;
  }

  lemma OwnFinish(s: Transfers, t: Transfers, id: RequestId, ok: bool)
    requires ViewOf(s, id) == ViewOf(t, id)
    ensures ViewOf(Finish(s, id, ok), id) == ViewOf(Finish(t, id, ok), id)
  {
    OwnNotes(id);
    hide EffectsOf, Note;
  }

  lemma OwnNotes(id: RequestId)
    ensures forall u: Transfers, effect ::
              ViewOf(Note(u, id, effect), id) == ViewOf(u, id).(effects := EffectsOf(u.log, id) + [effect])
  {
    forall u: Transfers, effect
      ensures ViewOf(Note(u, id, effect), id) == ViewOf(u, id).(effects := EffectsOf(u.log, id) + [effect])
    {
      NoteView(u, id, effect, id);
    }
  }

  /** Isolation: frames and reads of other requests have no effect on a request, however they interleave. */
  lemma {:induction false} Isolation(es: seq<Event>, id: RequestId)
    ensures ViewOf(Run(NO_TRANSFERS, es), id) == ViewOf(Run(NO_TRANSFERS, Only(es, id)), id)
    decreases |es|
  {
    hide Step, ViewOf;
    if es != [] {
      var front, e := es[..|es| - 1], es[|es| - 1];
      Isolation(front, id);
      if IdOf(e) == id {
        OwnStep(Run(NO_TRANSFERS, front), Run(NO_TRANSFERS, Only(front, id)), e, id);
        assert (Only(front, id) + [e])[..|Only(front, id)|] == Only(front, id);
      } else {
        OthersUntouched(Run(NO_TRANSFERS, front), e, id);
        assert Only(front, id) + [] == Only(front, id);
      }
    }
  }

  // ---------------------------------------------------------------- content

  function Chunks(id: RequestId, chunks: seq<seq<Byte>>): seq<Event> {
    seq(|chunks|, i requires 0 <= i < |chunks| => Arrived(FileChunk(id, chunks[i])))
  }

  lemma RunSnoc(s: Transfers, es: seq<Event>, e: Event)
    ensures Run(s, es + [e]) == Step(Run(s, es), e)
  {
    assert (es + [e])[..|es|] == es;
  }

  lemma {:induction false} OnlyAppend(a: seq<Event>, b: seq<Event>, id: RequestId)
    ensures Only(a + b, id) == Only(a, id) + Only(b, id)
    decreases |b|
  {
    if b == [] {
      assert a + b == a && Only(a, id) + [] == Only(a, id);
    } else {
      assert (a + b)[..|a + b| - 1] == a + b[..|b| - 1];
      OnlyAppend(a, b[..|b| - 1], id);
    }
  }

  lemma {:induction false} ChunksCollected(s: Transfers, id: RequestId, chunks: seq<seq<Byte>>)
    requires id in s.active && s.active[id].chunks == []
    ensures ViewOf(Run(s, Chunks(id, chunks)), id) ==
              ViewOf(s, id).(active := Some(s.active[id].(chunks := chunks)))
    decreases |chunks|
  {
    hide EffectsOf;
    if chunks == [] {
      assert s.active[id].(chunks := []) == s.active[id];
    } else {
      var front, last := chunks[..|chunks| - 1], chunks[|chunks| - 1];
      ChunksCollected(s, id, front);
      assert Chunks(id, chunks) == Chunks(id, front) + [Arrived(FileChunk(id, last))];
      RunSnoc(s, Chunks(id, front), Arrived(FileChunk(id, last)));
      assert front + [last] == chunks;
    }
  }

  /** What becomes of a request when its end frame arrives after `chunks`. */
  function Ended(v: View, transfer: Transfer): View {
    var bytes := Join(transfer.chunks);
    var size := transfer.metadata.size;
    if |bytes| <= size then
      v.(active := None,
         completed := Some(Complete(transfer, bytes + Zeros(size - |bytes|))),
         effects := v.effects + [Notified(transfer.cwd, transfer.path)])
    else v.(active := Some(transfer), effects := v.effects + [Threw])
  }

  lemma EndOfTransfer(s: Transfers, id: RequestId)
    requires id in s.active
    ensures ViewOf(Step(s, Arrived(FileEnd(id))), id) == Ended(ViewOf(s, id), s.active[id])
  {
    OwnNotes(id);
    hide EffectsOf, Note, Join, Zeros, Complete;
  }

  lemma BeginOfTransfer(s: Transfers, id: RequestId, metadata: Metadata)
    requires id in s.pending
    ensures var t := Step(s, Arrived(FileBegin(id, metadata)));
            && id in t.active && t.active[id] == Transfer(s.pending[id].cwd, s.pending[id].path, metadata, [])
            && ViewOf(t, id) == ViewOf(s, id).(active := Some(t.active[id]))
  {}

  lemma WholeTransfer(s: Transfers, id: RequestId, metadata: Metadata, chunks: seq<seq<Byte>>)
    requires id in s.pending
    ensures var t := Run(Run(Step(s, Arrived(FileBegin(id, metadata))), Chunks(id, chunks)), [Arrived(FileEnd(id))]);
            ViewOf(t, id) ==
              Ended(ViewOf(s, id), Transfer(s.pending[id].cwd, s.pending[id].path, metadata, chunks))
  {
    BeginOfTransfer(s, id, metadata);
    var s1 := Step(s, Arrived(FileBegin(id, metadata)));
    ChunksCollected(s1, id, chunks);
    var s2 := Run(s1, Chunks(id, chunks));
    assert id in s2.active && s2.active[id] == s1.active[id].(chunks := chunks) by {
      assert ViewOf(s2, id).active == Some(s1.active[id].(chunks := chunks));
    }
    EndOfTransfer(s2, id);
    RunSnoc(s2, [], Arrived(FileEnd(id)));
    assert [] + [Arrived(FileEnd(id))] == [Arrived(FileEnd(id))];
    hide Step, EffectsOf, Join, Zeros, Complete;
  }

  /**
   Content: whatever came before, and whatever other requests do meanwhile, a transfer begun for
   a pending read and then given `chunks` completes with exactly those bytes, zero-filled to the
   declared size, and announces it once. When the chunks do not fit, the end frame throws instead:
   nothing is completed or announced, and the transfer stays as it was.
   */
  lemma FileArrives(before: seq<Event>, during: seq<Event>, id: RequestId, metadata: Metadata, chunks: seq<seq<Byte>>)
    requires Only(during, id) == Chunks(id, chunks)
    requires id in Run(NO_TRANSFERS, before).pending
    ensures var s := ViewOf(Run(NO_TRANSFERS, before), id);
            var es := before + [Arrived(FileBegin(id, metadata))] + during + [Arrived(FileEnd(id))];
            var t := ViewOf(Run(NO_TRANSFERS, es), id);
            t == Ended(s, Transfer(s.pending.value.cwd, s.pending.value.path, metadata, chunks))
  {
    var begin, end := Arrived(FileBegin(id, metadata)), Arrived(FileEnd(id));
    var mine := Only(before, id);
    OnlyMine(before, begin, during, end, id);
    Isolation(before + [begin] + during + [end], id);
    Isolation(before, id);
    RunAppend(NO_TRANSFERS, mine + [begin] + Chunks(id, chunks), [end]);
    RunAppend(NO_TRANSFERS, mine + [begin], Chunks(id, chunks));
    RunSnoc(NO_TRANSFERS, mine, begin);
    PendingSeen(Run(NO_TRANSFERS, before), Run(NO_TRANSFERS, mine), id);
    WholeTransfer(Run(NO_TRANSFERS, mine), id, metadata, chunks);
    hide Run, Step, Only, ViewOf, Ended, Chunks;
  }

  lemma PendingSeen(s: Transfers, t: Transfers, id: RequestId)
    requires ViewOf(s, id) == ViewOf(t, id) && id in s.pending
    ensures id in t.pending && t.pending[id] == s.pending[id] && ViewOf(s, id).pending == Some(s.pending[id])
  {}

  lemma OnlyMine(before: seq<Event>, begin: Event, during: seq<Event>, end: Event, id: RequestId)
    requires IdOf(begin) == id && IdOf(end) == id
    ensures Only(before + [begin] + during + [end], id) == Only(before, id) + [begin] + Only(during, id) + [end]
  {
    OnlyAppend(before + [begin] + during, [end], id);
    OnlyAppend(before + [begin], during, id);
    OnlyAppend(before, [begin], id);
    assert Only([begin], id) == [begin] && Only([end], id) == [end];
  }

  lemma {:induction false} RunAppend(s: Transfers, a: seq<Event>, b: seq<Event>)
    ensures Run(s, a + b) == Run(Run(s, a), b)
    decreases |b|
  {
    hide Step;
    if b == [] {
      assert a + b == a;
    } else {
      assert (a + b)[..|a + b| - 1] == a + b[..|b| - 1];
      RunAppend(s, a, b[..|b| - 1]);
    }
  }

  /** Nothing is pending, active or complete at first. */
  lemma NewTransfers()
    ensures NO_TRANSFERS.pending == map[] && NO_TRANSFERS.active == map[]
    ensures NO_TRANSFERS.completed == map[] && NO_TRANSFERS.log == []
  {}

  /** Without a pending read nothing is begun: the frames of the request change nothing at all. */
  lemma {:induction false} NothingPending(s: Transfers, frames: seq<FileFrame>)
    requires forall i | 0 <= i < |frames| :: frames[i].requestId !in s.pending && frames[i].requestId !in s.active
    ensures Run(s, seq(|frames|, i requires 0 <= i < |frames| => Arrived(frames[i]))) == s
    decreases |frames|
  {
    hide Handle;
    if frames != [] {
      var front := frames[..|frames| - 1];
      NothingPending(s, front);
      var es := seq(|frames|, i requires 0 <= i < |frames| => Arrived(frames[i]));
      assert es[..|es| - 1] == seq(|front|, i requires 0 <= i < |front| => Arrived(front[i]));
      Unmoved(s, frames[|frames| - 1]);
    }
  }

  lemma Unmoved(s: Transfers, frame: FileFrame)
    requires frame.requestId !in s.pending && frame.requestId !in s.active
    ensures Handle(s, frame) == s
  {}

  /**
   A finished read leaves nothing behind exactly when its result was taken or none was complete:
   a read that fails after its file arrived leaves the completed bytes in the map.
   */
  lemma FinishClears(s: Transfers, id: RequestId, ok: bool)
    ensures var t := ViewOf(Step(s, Finished(id, ok)), id);
            && t.pending.None? && t.active.None?
            && (t.completed.None? <==> ok || id !in s.completed)
            && (ok && id in s.completed ==> t.effects == EffectsOf(s.log, id) + [Returned(s.completed[id])])
  {
    hide EffectsOf;
    if ok && id in s.completed {
      var cleared := s.(pending := s.pending - {id}, active := s.active - {id}, completed := s.completed - {id});
      NoteView(cleared, id, Returned(s.completed[id]), id);
    }
  }

  /** Such a run: the file arrives, the read fails all the same, and the bytes stay in the map. */
  lemma BytesLeftBehind(id: RequestId)
    ensures var es := [Started(id, "/", "a.txt"), Arrived(FileBegin(id, Metadata("text/plain", 0, "utf-8", ""))),
                       Arrived(FileEnd(id)), Finished(id, false)];
            var s := Run(NO_TRANSFERS, es);
            id in s.completed && id !in s.pending && id !in s.active
  {
    var metadata := Metadata("text/plain", 0, "utf-8", "");
    var begun := [Started(id, "/", "a.txt")];
    var es := begun + [Arrived(FileBegin(id, metadata))] + [] + [Arrived(FileEnd(id))];
    RunSnoc(NO_TRANSFERS, [], Started(id, "/", "a.txt"));
    assert [] + begun == begun && Run(NO_TRANSFERS, []) == NO_TRANSFERS;
    FileArrives(begun, [], id, metadata, []);
    RunSnoc(NO_TRANSFERS, es, Finished(id, false));
    var s := Run(NO_TRANSFERS, es);
    assert ViewOf(s, id).completed.Some?;
    hide Run;
    assert es + [Finished(id, false)] ==
           [Started(id, "/", "a.txt"), Arrived(FileBegin(id, metadata)), Arrived(FileEnd(id)), Finished(id, false)];
  }

  // ---------------------------------------------------------------- the delivered file

  /** How many bytes come before chunk `k`. */
  function Offset(chunks: seq<seq<Byte>>, k: nat): nat
    requires k <= |chunks|
  {
    if k == 0 then 0 else Offset(chunks, k - 1) + |chunks[k - 1]|
  }

  lemma {:induction false} OffsetFront(chunks: seq<seq<Byte>>, k: nat)
    requires k < |chunks|
    ensures Offset(chunks[..|chunks| - 1], k) == Offset(chunks, k)
  {
    if k > 0 {
      OffsetFront(chunks, k - 1);
    }
  }

  lemma {:induction false} JoinAt(chunks: seq<seq<Byte>>, k: nat, i: nat)
    requires k < |chunks| && i < |chunks[k]|
    ensures |Join(chunks)| == Offset(chunks, |chunks|)
    ensures Offset(chunks, k) + i < |Join(chunks)| && Join(chunks)[Offset(chunks, k) + i] == chunks[k][i]
    decreases |chunks|
  {
    var front, last := chunks[..|chunks| - 1], |chunks| - 1;
    JoinLength(chunks);
    JoinLength(front);
    OffsetFront(chunks, last);
    OffsetFront(chunks, k);
    if k < last {
      JoinAt(front, k, i);
    }
  }

  lemma {:induction false} JoinLength(chunks: seq<seq<Byte>>)
    ensures |Join(chunks)| == Offset(chunks, |chunks|)
    decreases |chunks|
  {
    if chunks != [] {
      JoinLength(chunks[..|chunks| - 1]);
      OffsetFront(chunks, |chunks| - 1);
    }
  }

  /** The bytes of every chunk at their places. */
  ghost predicate InPlace(bytes: seq<Byte>, chunks: seq<seq<Byte>>) {
    forall k, i | 0 <= k < |chunks| && 0 <= i < |chunks[k]| ::
      Offset(chunks, k) + i < |bytes| && bytes[Offset(chunks, k) + i] == chunks[k][i]
  }

  /** The chunks in place, and zeros behind them up to the size. */
  ghost predicate Holds(bytes: seq<Byte>, chunks: seq<seq<Byte>>, size: nat) {
    && |bytes| == size && Offset(chunks, |chunks|) <= size && InPlace(bytes, chunks)
    && forall j | Offset(chunks, |chunks|) <= j < size :: bytes[j] == 0
  }

  lemma JoinInPlace(chunks: seq<seq<Byte>>)
    ensures InPlace(Join(chunks), chunks)
  {
    forall k, i | 0 <= k < |chunks| && 0 <= i < |chunks[k]|
      ensures Offset(chunks, k) + i < |Join(chunks)| && Join(chunks)[Offset(chunks, k) + i] == chunks[k][i]
    {
      JoinAt(chunks, k, i);
    }
  }

  lemma StaysInPlace(bytes: seq<Byte>, n: nat, chunks: seq<seq<Byte>>)
    requires InPlace(bytes, chunks)
    ensures InPlace(bytes + Zeros(n), chunks)
  {}

  lemma ZerosBehind(bytes: seq<Byte>, n: nat)
    ensures |bytes + Zeros(n)| == |bytes| + n
    ensures forall j | |bytes| <= j < |bytes| + n :: (bytes + Zeros(n))[j] == 0
  {}

  lemma FilledHolds(chunks: seq<seq<Byte>>, size: nat)
    ensures Filled(chunks, size).Some? <==> Offset(chunks, |chunks|) <= size
    ensures Filled(chunks, size).Some? ==> Holds(Filled(chunks, size).value, chunks, size)
  {
    hide Join, InPlace, Zeros, Offset;
    JoinLength(chunks);
    if Offset(chunks, |chunks|) <= size {
      var bytes, n := Join(chunks), size - Offset(chunks, |chunks|);
      JoinInPlace(chunks);
      StaysInPlace(bytes, n, chunks);
      ZerosBehind(bytes, n);
    }
  }

  predicate Begins(s: string, prefix: string) {
    |s| >= |prefix| && s[..|prefix|] == prefix
  }

  /** What the caller of a read is given: the content, and the descriptions that came with it. */
  ghost predicate IsFile(file: FileRead, metadata: Metadata, path: string, chunks: seq<seq<Byte>>) {
    && Holds(file.bytes, chunks, metadata.size)
    && file.mime == metadata.mime && file.size == metadata.size && file.modifiedAt == metadata.modifiedAt
    && file.path == path
    && (file.kind.Image? <==> Begins(metadata.mime, "image/"))
    && (file.kind.Text? <==>
          && !Begins(metadata.mime, "image/")
          && (metadata.encoding == "utf-8" || Begins(metadata.mime, "text/") || metadata.mime == "application/json"))
  }

  lemma CompleteIsFile(t: Transfer)
    requires Offset(t.chunks, |t.chunks|) <= t.metadata.size
    ensures Filled(t.chunks, t.metadata.size).Some?
    ensures IsFile(Complete(t, Filled(t.chunks, t.metadata.size).value), t.metadata, t.path, t.chunks)
  {
    FilledHolds(t.chunks, t.metadata.size);
    hide Filled, Holds;
  }

  /**
   The content of a completed file, byte by byte, under the same interleavings as FileArrives: chunk after
   chunk from the first byte on, zeros behind. Chunks that do not fit complete nothing.
   */
  lemma FileHoldsChunks(before: seq<Event>, during: seq<Event>, id: RequestId, metadata: Metadata,
                        chunks: seq<seq<Byte>>)
    requires Only(during, id) == Chunks(id, chunks)
    requires id in Run(NO_TRANSFERS, before).pending
    ensures var s := Run(NO_TRANSFERS, before);
            var es := before + [Arrived(FileBegin(id, metadata))] + during + [Arrived(FileEnd(id))];
            var t := Run(NO_TRANSFERS, es);
            && t.pending.Keys >= {id} && t.pending[id] == s.pending[id]
            && if Offset(chunks, |chunks|) <= metadata.size then
                 && id !in t.active && id in t.completed
                 && IsFile(t.completed[id], metadata, s.pending[id].path, chunks)
                 && EffectsOf(t.log, id) == EffectsOf(s.log, id) + [Notified(s.pending[id].cwd, s.pending[id].path)]
               else
                 && id in t.active && t.active[id] == Transfer(s.pending[id].cwd, s.pending[id].path, metadata, chunks)
                 && Lookup(t.completed, id) == Lookup(s.completed, id)
                 && EffectsOf(t.log, id) == EffectsOf(s.log, id) + [Threw]
  {
    var s := Run(NO_TRANSFERS, before);
    var transfer := Transfer(s.pending[id].cwd, s.pending[id].path, metadata, chunks);
    FileArrives(before, during, id, metadata, chunks);
    JoinLength(chunks);
    if Offset(chunks, |chunks|) <= metadata.size {
      CompleteIsFile(transfer);
    }
    var es := before + [Arrived(FileBegin(id, metadata))] + during + [Arrived(FileEnd(id))];
    var t := Run(NO_TRANSFERS, es);
    assert ViewOf(t, id) == Ended(ViewOf(s, id), transfer);
    hide Run, Only, Chunks, EffectsOf, Join, Zeros, Complete, IsFile;
  }

  lemma {:induction false} ViewStays(s: Transfers, others: seq<Event>, id: RequestId)
    requires Only(others, id) == []
    ensures ViewOf(Run(s, others), id) == ViewOf(s, id)
    decreases |others|
  {
    if others != [] {
      var front, e := others[..|others| - 1], others[|others| - 1];
      ViewStays(s, front, id);
      OthersUntouched(Run(s, front), e, id);
      hide Step, ViewOf;
    }
  }

  /** A read is registered under its id with what it asked for; nothing else changes. */
  lemma ReadIsPending(s: Transfers, id: RequestId, cwd: string, path: string)
    ensures var t := Step(s, Started(id, cwd, path));
            && t.active == s.active && t.completed == s.completed && t.log == s.log
            && id in t.pending && t.pending[id].cwd == cwd && t.pending[id].path == path
            && forall other | other != id :: Lookup(t.pending, other) == Lookup(s.pending, other)
  {}

  /**
   A whole read: started, answered by a transfer that fits, and finished without an error, with anything
   of other requests in between. The caller is told of its file and given it, and nothing of the read stays.
   */
  lemma ReadReturnsFile(before: seq<Event>, waiting: seq<Event>, during: seq<Event>, after: seq<Event>,
                        id: RequestId, cwd: string, path: string, metadata: Metadata, chunks: seq<seq<Byte>>)
    requires Only(waiting, id) == [] && Only(after, id) == []
    requires Only(during, id) == Chunks(id, chunks) && Offset(chunks, |chunks|) <= metadata.size
    ensures var s := Run(NO_TRANSFERS, before);
            var asked := before + [Started(id, cwd, path)] + waiting;
            var es := asked + [Arrived(FileBegin(id, metadata))] + during + [Arrived(FileEnd(id))];
            var t := Run(NO_TRANSFERS, es + after + [Finished(id, true)]);
            && id !in t.pending && id !in t.active && id !in t.completed
            && exists file ::
                 && IsFile(file, metadata, path, chunks)
                 && EffectsOf(t.log, id) == EffectsOf(s.log, id) + [Notified(cwd, path)] + [Returned(file)]
  {
    var s := Run(NO_TRANSFERS, before);
    var asked := before + [Started(id, cwd, path)] + waiting;
    RunAppend(NO_TRANSFERS, before + [Started(id, cwd, path)], waiting);
    RunSnoc(NO_TRANSFERS, before, Started(id, cwd, path));
    var pending := Step(s, Started(id, cwd, path));
    ReadIsPending(s, id, cwd, path);
    ViewStays(pending, waiting, id);
    var u := Run(NO_TRANSFERS, asked);
    SameView(pending, u, id);
    FileHoldsChunks(asked, during, id, metadata, chunks);
    var es := asked + [Arrived(FileBegin(id, metadata))] + during + [Arrived(FileEnd(id))];
    var v := Run(NO_TRANSFERS, es);
    RunAppend(NO_TRANSFERS, es, after);
    ViewStays(v, after, id);
    var w := Run(NO_TRANSFERS, es + after);
    SameView(v, w, id);
    RunSnoc(NO_TRANSFERS, es + after, Finished(id, true));
    FinishClears(w, id, true);
    FinishView(w, id);
    assert IsFile(w.completed[id], metadata, path, chunks);
    hide Run, Step, Only, Chunks, ViewOf, EffectsOf, IsFile;
  }

  lemma SameView(s: Transfers, t: Transfers, id: RequestId)
    requires ViewOf(s, id) == ViewOf(t, id)
    ensures (id in s.pending <==> id in t.pending) && (id in s.pending ==> s.pending[id] == t.pending[id])
    ensures (id in s.completed <==> id in t.completed) && (id in s.completed ==> s.completed[id] == t.completed[id])
    ensures EffectsOf(s.log, id) == EffectsOf(t.log, id)
  {
    hide EffectsOf;
    assert Lookup(s.pending, id) == Lookup(t.pending, id) && Lookup(s.completed, id) == Lookup(t.completed, id);
  }

  lemma FinishView(s: Transfers, id: RequestId)
    requires id in s.completed
    ensures var t := Step(s, Finished(id, true));
            && id !in t.pending && id !in t.active && id !in t.completed
            && EffectsOf(t.log, id) == EffectsOf(s.log, id) + [Returned(s.completed[id])]
  {
    FinishClears(s, id, true);
    hide EffectsOf;
  }
}
