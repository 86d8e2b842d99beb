/**
 Moving an archive into a sandbox and a report out of it, in chunks, over a session with a peer that
 may answer anything.
 */
module ToolTransfer {
  import opened Wrappers
  import Base64

  const CHUNK_BYTES: nat := 16 * 1024
  const MAX_TRANSFER_BYTES: nat := 4 * 1024 * 1024

  // ----- the wire -----

  /** A request; chunk data travels as base64. */
  datatype Operation =
    | Hello
    | LoadChunk(offset: nat, data: string, final: bool)
    | Finalize
    | ExportChunk(start: nat, limit: nat)

  datatype Frame = Frame(id: nat, op: Operation)

  /** What a well-formed success response can carry; `Odd` is any other object. */
  datatype Payload = Nothing | Exported(data: string, eof: bool) | Odd

  /** A reply that came back in time and parsed: anything but `Success` with the request's id is refused. */
  datatype Reply = Success(id: int, payload: Payload) | RemoteError | Unusable

  /** What the load requests among `frames` carried, in order. */
  function Loaded(frames: seq<Frame>): string {
    if frames == [] then ""
    else
      var last := frames[|frames| - 1].op;
      var data := if last.LoadChunk? then Base64.Decode(last.data) else None;
      Loaded(frames[..|frames| - 1]) + if data.Some? then data.value else ""
  }

  /** What a guest holds that puts every chunk at its offset, and whether it has been told that this is all. */
  datatype Staged = Staged(bytes: string, whole: bool)

  /** None once a chunk is undecodable, comes after the final one, or does not lie right behind what is there. */
  function Staging(frames: seq<Frame>): Option<Staged> {
    if frames == [] then Some(Staged("", false))
    else
      var last, before := frames[|frames| - 1].op, Staging(frames[..|frames| - 1]);
      if before.None? || !last.LoadChunk? then before
      else if before.value.whole || last.offset != |before.value.bytes| || Base64.Decode(last.data).None? then None
      else Some(Staged(before.value.bytes + Base64.Decode(last.data).value, last.final))
  }

  lemma StagedSnoc(frames: seq<Frame>, id: nat, data: Base64.Bytes, final: bool)
    requires Staging(frames).Some? && !Staging(frames).value.whole
    ensures var bytes := Staging(frames).value.bytes;
      Staging(frames + [Frame(id, LoadChunk(|bytes|, Base64.Encode(data), final))]) == Some(Staged(bytes + data, final))
  {
    var f := Frame(id, LoadChunk(|Staging(frames).value.bytes|, Base64.Encode(data), final));
    assert (frames + [f])[..|frames|] == frames;
    Base64.DecodeOfEncode(data);
  }

  /** Request ids go up from frame to frame. */
  predicate Increasing(frames: seq<Frame>) {
    forall i, j :: 0 <= i < j < |frames| ==> frames[i].id < frames[j].id
  }

  lemma LoadedSnoc(frames: seq<Frame>, id: nat, offset: nat, data: Base64.Bytes, final: bool)
    ensures Loaded(frames + [Frame(id, LoadChunk(offset, Base64.Encode(data), final))]) == Loaded(frames) + data
  {
    var f := Frame(id, LoadChunk(offset, Base64.Encode(data), final));
    assert (frames + [f])[..|frames|] == frames;
    Base64.DecodeOfEncode(data);
  }

  lemma NothingLoaded(frames: seq<Frame>, f: Frame)
    requires !f.op.LoadChunk?
    ensures Loaded(frames + [f]) == Loaded(frames) && Staging(frames + [f]) == Staging(frames)
  {
    assert (frames + [f])[..|frames|] == frames;
  }

  lemma NothingSent()
    ensures Loaded([]) == "" && Staging([]) == Some(Staged("", false)) && Increasing([])
  {
  }

  lemma HelloSent(f: Frame)
    requires f.op.Hello?
    ensures Loaded([f]) == "" && Staging([f]) == Some(Staged("", false)) && Increasing([f])
  {
    NothingSent();
    NothingLoaded([], f);
    assert [] + [f] == [f];
  }

  lemma IncreasingSnoc(frames: seq<Frame>, f: Frame)
    requires Increasing(frames) && forall k :: 0 <= k < |frames| ==> frames[k].id < f.id
    ensures Increasing(frames + [f])
  {
  }

  // ----- the peer -----

  /** The transport and the guest behind it.  An honest guest keeps what is loaded and returns its report. */
  class Peer {
    const honest: bool
    const report: Base64.Bytes
    var closed: bool
    ghost var sent: seq<Frame>

    constructor (honest: bool, report: Base64.Bytes)
      ensures this.honest == honest && this.report == report && !closed && sent == []
    {
      this.honest, this.report, closed, sent := honest, report, false, [];
    }

    /** Send one request and wait for its reply; none when either fails or time runs out. */
    method Exchange(f: Frame) returns (r: Option<Reply>)
      requires !closed
      modifies this`sent
      ensures sent == old(sent) + [f]
      ensures honest && r.Some? ==> Honestly(f, r.value)
    {
      sent := sent + [f];
      r := *;
      if honest && r.Some? && !Honestly(f, r.value) {
        r := None;
      }
    }

    /** How an honest guest may answer: with any non-empty part of what is left, or the end of it. */
    predicate Honestly(f: Frame, r: Reply) {
      match f.op
      case ExportChunk(start, limit) =>
        start <= |report| ==>
          && r.Success? && r.id == f.id && r.payload.Exported?
          && exists n :: 0 <= n <= limit && start + n <= |report| && Answers(start, n, r.payload)
      case _ => r == Success(f.id, Nothing)
    }

    predicate Answers(start: nat, n: nat, p: Payload)
      requires start + n <= |report| && p.Exported?
    {
      && p.data == Base64.Encode(report[start..start + n])
      && p.eof == (start + n == |report|) && (n > 0 || p.eof)
    }

    /** Decoding an honest part gives back the bytes of the report themselves. */
    lemma HonestPart(f: Frame, p: Payload, data: Base64.Bytes)
      requires f.op.ExportChunk? && f.op.start <= |report| && Honestly(f, Success(f.id, p))
      requires p.Exported? && Base64.Decode(p.data) == Some(data)
      ensures f.op.start + |data| <= |report| && data == report[f.op.start..f.op.start + |data|]
      ensures p.eof == (f.op.start + |data| == |report|)
    {
      hide Base64.Encode, Base64.Decode;
      var n :| 0 <= n <= f.op.limit && f.op.start + n <= |report| && Answers(f.op.start, n, p);
      Base64.DecodeOfEncode(report[f.op.start..f.op.start + n]);
    }

    method Close()
      modifies this`closed
      ensures closed
    {
      closed := true;
    }
  }

  // ----- the session -----

  datatype Phase = New | Loading | Ready | Exporting | Done

  datatype Failure = BadArgument | WrongPhase | PeerFailed | BadReply | ReportTooLarge

  class SandboxToolSession {
    const peer: Peer
    const maxChunk: nat
    const maxTransfer: nat
    var phase: Phase
    var nextId: nat
    var loadOffset: nat
    var exportOffset: nat

    /** Request ids go up. */
    ghost predicate Sequenced()
      reads this`nextId, peer`sent
    {
      nextId > 0 && Increasing(peer.sent) && forall k :: 0 <= k < |peer.sent| ==> peer.sent[k].id < nextId
    }

    /** While the session is open, the guest has been sent what has been loaded, each chunk in its place. */
    ghost predicate Loads()
      reads this`phase, this`loadOffset, peer
    {
      && (phase.New? ==> loadOffset == 0 && (!peer.closed ==> peer.sent == []))
      && (!peer.closed && !phase.New? ==> Staging(peer.sent) == Some(Staged(Loaded(peer.sent), !phase.Loading?)))
      && (!peer.closed && phase.Loading? ==> loadOffset == |Loaded(peer.sent)|)
    }

    ghost predicate Valid()
      reads this, peer
    {
      && Sequenced() && Loads()
      && exportOffset <= maxTransfer && (phase in {New, Loading, Ready} ==> exportOffset == 0)
    }

    constructor (peer: Peer, maxChunk: nat, maxTransfer: nat)
      requires peer.sent == []
      ensures Valid() && this.peer == peer && this.maxChunk == maxChunk && this.maxTransfer == maxTransfer
      ensures phase.New? && loadOffset == 0 && exportOffset == 0
    {
      this.peer, this.maxChunk, this.maxTransfer := peer, maxChunk, maxTransfer;
      phase, nextId, loadOffset, exportOffset := New, 1, 0, 0;
    }

    /**
     One request and its reply, in one phase.  Whatever goes wrong closes the session, and nothing is
     ever sent on a closed one.
     */
    method Exchange(expected: Phase, op: Operation) returns (r: Result<Payload, Failure>)
      requires Valid() && !expected.New?
      modifies this`nextId, peer
      ensures r.Err? || !op.LoadChunk? ==> Valid()
      ensures Sequenced()
      ensures r.Ok? ==> old(phase) == expected && !old(peer.closed) && !peer.closed
      ensures r.Ok? ==> peer.sent == old(peer.sent) + [Frame(old(nextId), op)]
      ensures r.Ok? && peer.honest ==> peer.Honestly(Frame(old(nextId), op), Success(old(nextId), r.value))
      ensures r.Err? ==> r.error != BadArgument && peer.closed && (peer.sent == old(peer.sent) || peer.sent == old(peer.sent) + [Frame(old(nextId), op)])
      ensures old(peer.closed) ==> peer.sent == old(peer.sent)
    {
      if peer.closed || phase != expected {
        peer.Close();
        return Err(WrongPhase);
      }
      hide Increasing, Loaded, Staging;
      var frame := Frame(nextId, op);
      if !op.LoadChunk? {
        NothingLoaded(peer.sent, frame);
      }
      var reply := Send(frame);
      if reply.None? || !reply.value.Success? || reply.value.id != frame.id {
        peer.Close();
        return Err(if reply.None? then PeerFailed else BadReply);
      }
      r := Ok(reply.value.payload);
    }

    method Send(frame: Frame) returns (reply: Option<Reply>)
      requires Sequenced() && frame.id == nextId && !peer.closed
      modifies this`nextId, peer`sent
      ensures Sequenced() && peer.sent == old(peer.sent) + [frame]
      ensures peer.honest && reply.Some? ==> peer.Honestly(frame, reply.value)
    {
      hide Increasing;
      IncreasingSnoc(peer.sent, frame);
      nextId := nextId + 1;
      reply := peer.Exchange(frame);
    }

    method Start() returns (r: Result<(), Failure>)
      requires Valid()
      modifies this`phase, peer
      ensures Valid()
      ensures r.Ok? ==> old(phase).New? && phase.Loading? && !peer.closed && Loaded(peer.sent) == ""
      ensures r.Err? ==> peer.closed && phase == old(phase)
    {
      if peer.closed || !phase.New? {
        peer.Close();
        return Err(WrongPhase);
      }
      hide Loaded, Increasing, Staging;
      var hello := Frame(0, Hello);
      HelloSent(hello);
      assert peer.sent + [hello] == [hello];
      var reply := peer.Exchange(hello);
      if reply != Some(Success(0, Nothing)) {
        peer.Close();
        return Err(BadReply);
      }
      phase := Loading;
      r := Ok(());
    }

    method LoadChunk(data: Base64.Bytes, offset: nat, final: bool) returns (r: Result<(), Failure>)
      requires Valid()
      modifies this`phase, this`nextId, this`loadOffset, peer
      ensures Valid()
      ensures r.Ok? ==> old(phase).Loading? && offset == old(loadOffset) && loadOffset == offset + |data| && !peer.closed
      ensures r.Ok? ==> phase == (if final then Ready else Loading) && Loaded(peer.sent) == old(Loaded(peer.sent)) + data
      ensures r.Err? ==> phase == old(phase) && loadOffset == old(loadOffset)
      ensures r.Err? && r.error != BadArgument ==> peer.closed
      ensures r == Err(BadArgument) ==> unchanged(this) && unchanged(peer)
    {
      hide Loaded, Increasing, Staging;
      if |data| > maxChunk || (data == "" && !final) || offset != loadOffset || offset + |data| > maxTransfer {
        return Err(BadArgument);
      }
      LoadedSnoc(peer.sent, nextId, offset, data, final);
      if phase.Loading? && !peer.closed {
        StagedSnoc(peer.sent, nextId, data, final);
      }
      var reply := Exchange(Loading, Operation.LoadChunk(offset, Base64.Encode(data), final));
      if reply.Err? {
        return Err(reply.error);
      }
      if reply.value != Nothing {
        peer.Close();
        return Err(BadReply);
      }
      loadOffset := loadOffset + |data|;
      if final {
        phase := Ready;
      }
      r := Ok(());
    }

    method Finalize() returns (r: Result<(), Failure>)
      requires Valid()
      modifies this`phase, this`nextId, peer
      ensures Valid()
      ensures r.Ok? ==> old(phase).Ready? && phase.Exporting? && Loaded(peer.sent) == old(Loaded(peer.sent)) && !peer.closed
      ensures r.Err? ==> peer.closed && phase == old(phase)
    {
      hide Loaded, Increasing, Staging;
      NothingLoaded(peer.sent, Frame(nextId, Operation.Finalize));
      var reply := Exchange(Ready, Operation.Finalize);
      if reply.Err? {
        return Err(reply.error);
      }
      if reply.value != Nothing {
        peer.Close();
        return Err(BadReply);
      }
      phase := Exporting;
      r := Ok(());
    }

    /** The next part of the report: never more than asked, never empty before the end. */
    method ExportChunk(offset: nat, limit: nat) returns (r: Result<(Base64.Bytes, bool), Failure>)
      requires Valid()
      modifies this`phase, this`nextId, this`exportOffset, peer
      ensures Valid()
      ensures r.Ok? ==> old(phase).Exporting? && offset == old(exportOffset) && exportOffset == offset + |r.value.0|
      ensures r.Ok? ==> |r.value.0| <= limit && (r.value.0 != "" || r.value.1) && phase == (if r.value.1 then Done else Exporting)
      ensures r.Ok? ==> Loaded(peer.sent) == old(Loaded(peer.sent)) && !peer.closed
      ensures r.Ok? && peer.honest && offset <= |peer.report| ==>
        && exportOffset <= |peer.report| && r.value.0 == peer.report[offset..exportOffset]
        && r.value.1 == (exportOffset == |peer.report|)
      ensures r.Err? ==> phase == old(phase) && exportOffset == old(exportOffset)
      ensures r.Err? && r.error != BadArgument ==> peer.closed
    {
      hide Loaded, Increasing, Staging;
      if offset != exportOffset || !(1 <= limit <= maxChunk) || offset + limit > maxTransfer {
        return Err(BadArgument);
      }
      NothingLoaded(peer.sent, Frame(nextId, Operation.ExportChunk(offset, limit)));
      var reply := Exchange(Exporting, Operation.ExportChunk(offset, limit));
      if reply.Err? {
        return Err(reply.error);
      }
      if !reply.value.Exported? {
        peer.Close();
        return Err(BadReply);
      }
      var data := Base64.Decode(reply.value.data);
      if data.None? || |data.value| > limit || (data.value == "" && !reply.value.eof) {
        peer.Close();
        return Err(BadReply);
      }
      if peer.honest && offset <= |peer.report| {
        peer.HonestPart(Frame(old(nextId), Operation.ExportChunk(offset, limit)), reply.value, data.value);
      }
      exportOffset := exportOffset + |data.value|;
      if reply.value.eof {
        phase := Done;
      }
      r := Ok((data.value, reply.value.eof));
    }

    method Close()
      requires Valid()
      modifies peer
      ensures Valid() && peer.closed && peer.sent == old(peer.sent)
    {
      peer.Close();
    }
  }

  /**
   Load the whole archive and take out the whole report.  On success the requests carried exactly the
   archive, in order, and what came back from an honest guest is exactly its report; the session ends closed
   either way, and against any guest at all the report stays within its bound.
   */
  method TransferFixture(session: SandboxToolSession, archive: Base64.Bytes) returns (r: Result<string, Failure>)
    requires session.Valid()
    modifies session, session.peer
    ensures session.Valid() && session.peer.closed
    ensures r.Ok? ==> Loaded(session.peer.sent) == archive != "" && |r.value| <= MAX_TRANSFER_BYTES
    ensures r.Ok? ==> session.phase.Done? && session.loadOffset == |archive|
    ensures r.Ok? ==> Staging(session.peer.sent) == Some(Staged(archive, true))
    ensures r.Ok? && session.peer.honest ==> r.value == session.peer.report
  {
    r := Transfer(session, archive);
    session.Close();
  }

  method Transfer(session: SandboxToolSession, archive: Base64.Bytes) returns (r: Result<string, Failure>)
    requires session.Valid()
    modifies session, session.peer
    ensures session.Valid()
    ensures r.Ok? ==> Loaded(session.peer.sent) == archive != "" && |r.value| <= MAX_TRANSFER_BYTES
    ensures r.Ok? ==> session.phase.Done? && session.loadOffset == |archive|
    ensures r.Ok? ==> Staging(session.peer.sent) == Some(Staged(archive, true))
    ensures r.Ok? && session.peer.honest ==> r.value == session.peer.report
  {
    hide Loaded, Increasing, Staging;
    var started := session.Start();
    if started.Err? {
      return Err(started.error);
    }
    var sent := Load(session, archive);
    if sent.Err? {
      return Err(sent.error);
    }
    var finalized := session.Finalize();
    if finalized.Err? {
      return Err(finalized.error);
    }
    r := Export(session);
  }

  method Load(session: SandboxToolSession, archive: Base64.Bytes) returns (r: Result<(), Failure>)
    requires session.Valid() && session.phase.Loading? && Loaded(session.peer.sent) == ""
    modifies session`phase, session`nextId, session`loadOffset, session.peer
    ensures session.Valid()
    ensures r.Ok? && session.phase.Ready? ==>
      Loaded(session.peer.sent) == archive != "" && session.loadOffset == |archive|
    ensures session.exportOffset == old(session.exportOffset)
  {
    hide Loaded, Increasing, Staging;
    var offset := 0;
    while offset < |archive|
      invariant offset <= |archive| && session.Valid()
      invariant session.phase == (if offset < |archive| || archive == "" then Loading else Ready)
      invariant Loaded(session.peer.sent) == archive[..offset]
      invariant offset > 0 ==> session.loadOffset == offset
    {
      var end := if offset + CHUNK_BYTES < |archive| then offset + CHUNK_BYTES else |archive|;
      var chunk := archive[offset..end];
      var loaded := session.LoadChunk(chunk, offset, end == |archive|);
      if loaded.Err? {
        return Err(loaded.error);
      }
      assert archive[..end] == archive[..offset] + chunk;
      offset := end;
    }
    assert archive[..|archive|] == archive;
    r := Ok(());
  }

  method Export(session: SandboxToolSession) returns (r: Result<string, Failure>)
    requires session.Valid() && session.phase.Exporting?
    modifies session`phase, session`nextId, session`exportOffset, session.peer
    ensures session.Valid() && (r.Ok? ==> session.phase.Done? && !session.peer.closed)
    ensures r.Ok? ==> Loaded(session.peer.sent) == old(Loaded(session.peer.sent)) && |r.value| <= MAX_TRANSFER_BYTES
    ensures r.Ok? && session.peer.honest ==> r.value == session.peer.report
  {
    hide Loaded, Increasing, Staging;
    var peer := session.peer;
    var result := "";
    while true
      invariant session.Valid() && session.phase.Exporting?
      invariant Loaded(peer.sent) == old(Loaded(peer.sent)) && |result| <= MAX_TRANSFER_BYTES
      invariant result != "" ==> session.exportOffset == |result|
      invariant peer.honest ==> result <= peer.report
      decreases MAX_TRANSFER_BYTES - |result|
    {
      if |result| >= MAX_TRANSFER_BYTES {
        return Err(ReportTooLarge);
      }
      var limit := if CHUNK_BYTES < MAX_TRANSFER_BYTES - |result| then CHUNK_BYTES else MAX_TRANSFER_BYTES - |result|;
      var part := session.ExportChunk(|result|, limit);
      if part.Err? {
        return Err(part.error);
      }
      var (chunk, eof) := part.value;
      if peer.honest {
        NextPart(result, chunk, peer.report);
      }
      result := result + chunk;
      if eof {
        return Ok(result);
      }
    }
  }

  lemma NextPart(result: string, chunk: string, report: string)
    requires result <= report && |result| + |chunk| <= |report|
    requires chunk == report[|result|..|result| + |chunk|]
    ensures result + chunk <= report && (|result + chunk| == |report| ==> result + chunk == report)
  {
  }
}
