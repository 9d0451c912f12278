/** One download session: the decisions of client and server from the request to the end of the
    file, as functions of the messages and of the client's file (brft/client.go, brft/server.go). */
module Transfer {
  import opened Prelude
  import opened Messages
  import opened BrftFiles
  import opened ChunkLoop

  const STATUS_OK: byte := 1
  const STATUS_UNSUPPORTED_HEADER: byte := 3
  const STATUS_UNEXPECTED_HEADER: byte := 4

  const GZIP: byte := 1
  const GZIP_MIN_FILE_SIZE: nat := 65536

  const COMPRESSION_OK: byte := 1
  const COMPRESSION_UNKNOWN_ALGORITHM: byte := 3
  const COMPRESSION_FILE_TOO_SMALL: byte := 4

  const NO_CHECKSUM: bytes := Zeros(32)

  /** Sizes and offsets travel as 64-bit numbers. */
  function ToUint64(n: nat): uint64
  {
    n % 0x1_0000_0000_0000_0000
  }

  // ------------------------------------------------- optional headers

  function Precedence(status: byte): nat
  {
    match status
    case 1 => 1
    case 2 => 4
    case 3 => 2
    case 4 => 3
    case _ => 0
  }

  datatype Negotiation = Negotiation(answers: seq<OptionalHeader>, status: byte, compress: bool, chunkSize: nat)

  /** The server's reaction to one optional header of a request for a file of `size` bytes. */
  function NegotiateOne(n: Negotiation, h: OptionalHeader, size: nat): Negotiation
  {
    match h
    case CompressionReq(_, algorithm, multiplier) =>
      if algorithm != GZIP then
        n.(answers := n.answers + [CompressionResp(2, COMPRESSION_UNKNOWN_ALGORITHM)])
      else if size < GZIP_MIN_FILE_SIZE then
        n.(answers := n.answers + [CompressionResp(2, COMPRESSION_FILE_TOO_SMALL)], compress := false)
      else
        n.(answers := n.answers + [CompressionResp(2, COMPRESSION_OK)], compress := true,
           chunkSize := ComputeChunkSize(multiplier))
    case CompressionResp(_, _) =>
      if Precedence(STATUS_UNEXPECTED_HEADER) > Precedence(n.status)
      then n.(status := STATUS_UNEXPECTED_HEADER) else n
    case UnknownHeader(_, _, _) =>
      if Precedence(STATUS_UNSUPPORTED_HEADER) > Precedence(n.status)
      then n.(status := STATUS_UNSUPPORTED_HEADER) else n
  }

  function Negotiate(headers: seq<OptionalHeader>, size: nat, defaultChunk: nat): Negotiation
    decreases |headers|
  {
    if headers == [] then Negotiation([], STATUS_OK, false, defaultChunk)
    else NegotiateOne(Negotiate(headers[..|headers| - 1], size, defaultChunk), headers[|headers| - 1], size)
  }

  method NegotiateHeaders(headers: seq<OptionalHeader>, size: nat, defaultChunk: nat) returns (n: Negotiation)
    ensures n == Negotiate(headers, size, defaultChunk)
  {
    n := Negotiation([], STATUS_OK, false, defaultChunk);
    var i := 0;
    while i < |headers|
      invariant 0 <= i <= |headers|
      invariant n == Negotiate(headers[..i], size, defaultChunk)
    {
      assert headers[..i + 1][..i] == headers[..i];
      n := NegotiateOne(n, headers[i], size);
      i := i + 1;
    }
    assert headers[..|headers|] == headers;
  }

  /** The client compresses exactly when some answer says so; headers that no response may carry
      make it close the stream. */
  function ClientHeaders(answers: seq<OptionalHeader>): Result<bool, byte>
    decreases |answers|
  {
    if answers == [] then Ok(false) else
      match answers[0]
      case CompressionReq(_, _, _) => Err(CLOSE_UNEXPECTED_HEADER)
      case UnknownHeader(_, _, _) => Err(CLOSE_UNSUPPORTED_HEADER)
      case CompressionResp(_, status) =>
        match ClientHeaders(answers[1..])
        case Err(e) => Err(e)
        case Ok(more) => Ok(status == COMPRESSION_OK || more)
  }

  lemma {:induction false} ClientHeadersSnoc(answers: seq<OptionalHeader>, status: byte)
    requires ClientHeaders(answers).Ok?
    ensures ClientHeaders(answers + [CompressionResp(2, status)])
         == Ok(ClientHeaders(answers).value || status == COMPRESSION_OK)
    decreases |answers|
  {
    var last := CompressionResp(2, status);
    if answers == [] {
      assert [last][1..] == [];
    } else {
      assert (answers + [last])[1..] == answers[1..] + [last];
      ClientHeadersSnoc(answers[1..], status);
    }
  }

  /** Whatever headers a request carries, both sides agree on whether chunks are compressed. */
  lemma {:induction false} CompressionAgreed(headers: seq<OptionalHeader>, size: nat, defaultChunk: nat)
    ensures var n := Negotiate(headers, size, defaultChunk);
            && ClientHeaders(n.answers) == Ok(n.compress)
            && (size < GZIP_MIN_FILE_SIZE ==> !n.compress)
            && |n.answers| <= |headers|
            && (defaultChunk > 0 ==> n.chunkSize > 0)
    decreases |headers|
  {
    if headers == [] {
    } else {
      var last := |headers| - 1;
      CompressionAgreed(headers[..last], size, defaultChunk);
      var n := Negotiate(headers[..last], size, defaultChunk);
      if headers[last].CompressionReq? {
        ClientHeadersSnoc(n.answers, COMPRESSION_UNKNOWN_ALGORITHM);
        ClientHeadersSnoc(n.answers, COMPRESSION_FILE_TOO_SMALL);
        ClientHeadersSnoc(n.answers, COMPRESSION_OK);
      }
    }
  }

  /** The requests for compression among the headers, in order. */
  function Requests(headers: seq<OptionalHeader>): seq<OptionalHeader>
    decreases |headers|
  {
    if headers == [] then []
    else
      var last := headers[|headers| - 1];
      Requests(headers[..|headers| - 1]) + if last.CompressionReq? then [last] else []
  }

  /** The server compresses for a request of the algorithm gzip, for a file of at least 64 KiB. */
  predicate Granted(h: OptionalHeader, size: nat)
  {
    h.CompressionReq? && h.algorithm == 1 && size >= 65536
  }

  /** What the answer to a request says: 1 is granted, 3 an unknown algorithm, 4 a file that is too small. */
  ghost predicate RightAnswer(answer: OptionalHeader, request: OptionalHeader, size: nat)
  {
    && answer.CompressionResp? && answer.length == 2 && request.CompressionReq?
    && (answer.status == 1 <==> Granted(request, size))
    && (answer.status == 3 <==> request.algorithm != 1)
    && (answer.status == 4 <==> request.algorithm == 1 && size < 65536)
  }

  ghost predicate Answered(answers: seq<OptionalHeader>, requests: seq<OptionalHeader>, size: nat)
  {
    |answers| == |requests| && forall i | 0 <= i < |answers| :: RightAnswer(answers[i], requests[i], size)
  }

  /** The multiplier of the last request that is granted. */
  function LastGranted(headers: seq<OptionalHeader>, size: nat): (m: Option<byte>)
    ensures m.None? <==> forall i | 0 <= i < |headers| :: !Granted(headers[i], size)
    decreases |headers|
  {
    if headers == [] then None
    else if Granted(headers[|headers| - 1], size) then Some(headers[|headers| - 1].multiplier)
    else LastGranted(headers[..|headers| - 1], size)
  }

  lemma {:induction false} LastGrantedAt(headers: seq<OptionalHeader>, size: nat, i: nat)
    requires i < |headers| && Granted(headers[i], size)
    requires forall j | i < j < |headers| :: !Granted(headers[j], size)
    ensures LastGranted(headers, size) == Some(headers[i].multiplier)
    decreases |headers|
  {
    if i == |headers| - 1 {
    } else {
      LastGrantedAt(headers[..|headers| - 1], size, i);
    }
  }

  /** Some header is of the kind that no request may carry, or of an unknown one. */
  ghost predicate HasUnexpected(headers: seq<OptionalHeader>)
  {
    exists i :: 0 <= i < |headers| && headers[i].CompressionResp?
  }

  ghost predicate HasUnknown(headers: seq<OptionalHeader>)
  {
    exists i :: 0 <= i < |headers| && headers[i].UnknownHeader?
  }

  ghost predicate HasGranted(headers: seq<OptionalHeader>, size: nat)
  {
    exists i :: 0 <= i < |headers| && Granted(headers[i], size)
  }

  lemma HasLast(headers: seq<OptionalHeader>, size: nat)
    requires headers != []
    ensures var (before, h) := (headers[..|headers| - 1], headers[|headers| - 1]);
            && (HasUnexpected(headers) <==> HasUnexpected(before) || h.CompressionResp?)
            && (HasUnknown(headers) <==> HasUnknown(before) || h.UnknownHeader?)
            && (HasGranted(headers, size) <==> HasGranted(before, size) || Granted(h, size))
  {
    hide Granted;
    assert forall i | 0 <= i < |headers| - 1 :: headers[..|headers| - 1][i] == headers[i];
  }

  lemma {:induction false} AnswersRight(headers: seq<OptionalHeader>, size: nat, defaultChunk: nat)
    ensures Answered(Negotiate(headers, size, defaultChunk).answers, Requests(headers), size)
    decreases |headers|
  {
    if headers == [] {
    } else {
      var before, h := headers[..|headers| - 1], headers[|headers| - 1];
      AnswersRight(before, size, defaultChunk);
      var n := Negotiate(before, size, defaultChunk);
      var n' := NegotiateOne(n, h, size);
      assert h.CompressionReq? ==> |n'.answers| == |n.answers| + 1 && RightAnswer(n'.answers[|n.answers|], h, size);
      assert !h.CompressionReq? ==> n'.answers == n.answers;
    }
  }

  /** The outcome of the negotiation for any headers: one answer for each request, in order; compression
      if and only if some request is granted, with the chunk size of the last one that is, and otherwise
      the default one; and a status that reports an unexpected header before an unknown one. */
  lemma {:induction false} NegotiatesExactly(headers: seq<OptionalHeader>, size: nat, defaultChunk: nat)
    ensures var n := Negotiate(headers, size, defaultChunk);
            && Answered(n.answers, Requests(headers), size)
            && (n.compress <==> HasGranted(headers, size))
            && n.chunkSize == (match LastGranted(headers, size) case None => defaultChunk case Some(m) => (m + 1) * 65536)
            && n.status == (if HasUnexpected(headers) then 4 else if HasUnknown(headers) then 3 else 1)
    decreases |headers|
  {
    AnswersRight(headers, size, defaultChunk);
    hide Answered, HasUnexpected, HasUnknown, HasGranted, Requests;
    if headers == [] {
      NoHeaders(size);
    } else {
      HasLast(headers, size);
      GrantedSize(headers[..|headers| - 1], size);
      NegotiatesExactly(headers[..|headers| - 1], size, defaultChunk);
    }
  }

  lemma GrantedSize(headers: seq<OptionalHeader>, size: nat)
    ensures HasGranted(headers, size) ==> size >= 65536
  {
  }

  lemma NoHeaders(size: nat)
    ensures !HasUnexpected([]) && !HasUnknown([]) && !HasGranted([], size)
  {
  }

  // ------------------------------------------------------------- the server

  datatype Reply = Refuse(reason: byte) | Offer(response: Message, compress: bool, chunkSize: nat)

  /** The reply to a FileReq for a file that may be missing. */
  function ReplyTo(req: Message, content: Option<bytes>, hash: Hash, defaultChunk: nat): Reply
    requires req.FileReq?
  {
    if !ValidName(req.fileName) then Refuse(CLOSE_UNDEFINED)
    else if content.None? then Refuse(CLOSE_FILE_NOT_FOUND)
    else
      var x := content.value;
      if req.flags != [] && req.checksum == NO_CHECKSUM then Refuse(CLOSE_RESUME_NO_CHECKSUM)
      else if req.checksum != NO_CHECKSUM && req.checksum != hash(x) then Refuse(CLOSE_CHECKSUM_INVALID)
      else
        var n := Negotiate(req.headers, |x|, defaultChunk);
        Offer(FileResp(n.status, n.answers, req.streamId, ToUint64(|x|), hash(x)), n.compress, n.chunkSize)
  }

  /** Why a StartTransmission is refused: another file, or nothing left from the offset on. */
  function StartRefusal(start: Message, content: bytes, hash: Hash): Option<byte>
    requires start.StartTransmission?
  {
    if start.startChecksum != hash(content) then Some(CLOSE_CHECKSUM_INVALID)
    else if start.offset >= |content| then Some(CLOSE_INVALID_OFFSET)
    else None
  }

  /** Opens the requested file, checks the request against it, and answers. */
  method HandleFileReq(req: Message, entry: Entry, hash: Hash, defaultChunk: nat)
    returns (reply: Reply, source: Result<File, FileError>)
    requires req.FileReq?
    ensures reply == ReplyTo(req, entry.file, hash, defaultChunk)
    ensures reply.Offer? ==> source.Ok? && fresh(source.value) && source.value.Valid()
    ensures reply.Offer? ==> source.value.entry == entry && source.value.checksum == hash(entry.file.value)
    ensures reply.Offer? ==> !source.value.isClientFile
  {
    source := File.OpenFile(entry, req.fileName, hash);
    if source.Err? {
      return Refuse(if source.error == NotExist then CLOSE_FILE_NOT_FOUND else CLOSE_UNDEFINED), source;
    }
    var f := source.value;
    var size := f.Size();
    var isResumption := false;
    if req.flags != [] {
      if req.checksum == NO_CHECKSUM {
        return Refuse(CLOSE_RESUME_NO_CHECKSUM), source;
      }
      isResumption := true;
    }
    if req.checksum != NO_CHECKSUM && req.checksum != f.checksum {
      return Refuse(CLOSE_CHECKSUM_INVALID), source;
    }
    var n := NegotiateHeaders(req.headers, size, defaultChunk);
    reply := Offer(FileResp(n.status, n.answers, req.streamId, ToUint64(size), f.checksum), n.compress, n.chunkSize);
  }

  /** Everything the server sends after a StartTransmission. */
  function AfterStart(start: Message, content: bytes, hash: Hash, chunk: nat, pack: Packing): seq<Message>
    requires start.StartTransmission? && chunk > 0
  {
    match StartRefusal(start, content, hash)
    case Some(reason) => [Close(start.startId, reason)]
    case None => FileMessages(start.startId, content[start.offset..], chunk, pack)
  }

  /** The dispatcher and then the stream check the message; the stream seeks and runs the loop. */
  method HandleStart(start: Message, f: File, hash: Hash, chunk: nat, pack: Packing) returns (out: seq<Message>)
    requires start.StartTransmission? && chunk > 0 && f.Valid() && !f.isClientFile
    requires f.checksum == hash(f.entry.file.value)
    modifies f
    ensures out == AfterStart(start, f.entry.file.value, hash, chunk, pack)
  {
    hide FileMessages;
    var size := f.Size();
    if f.checksum != start.startChecksum {
      return [Close(start.startId, CLOSE_CHECKSUM_INVALID)];
    }
    if start.offset != 0 && start.offset >= size {
      return [Close(start.startId, CLOSE_INVALID_OFFSET)];
    }
    if start.offset >= size {
      return [Close(start.startId, CLOSE_INVALID_OFFSET)];
    }
    var sought := f.SeekOffset(start.offset);
    out := SendChunks(f, start.startId, chunk, pack);
  }

  // ------------------------------------------------------------- the client

  datatype Outcome =
    | Interrupted            // messages stopped coming
    | Complete               // checksum checked and stripped
    | Removed                // complete but with a wrong checksum
    | Closed(reason: byte)   // the server closed the stream for another reason
    | Failed                 // the client closed the stream, or did not open it
    | Crashed                // the client's process ended

  /** The client's part in what follows its StartTransmission: append, check, strip. */
  function Receive(file: bytes, sum: bytes, ms: seq<Message>, unpack: Unpacking, hash: Hash): (Option<bytes>, Outcome)
    requires |file| >= HEADER_SIZE
    decreases |ms|
  {
    if ms == [] then (Some(file), Interrupted)
    else if ms[0].Data? then
      match unpack(ms[0].data)
      case None => (Some(file), Failed)
      case Some(x) => Receive(file + x, sum, ms[1..], unpack, hash)
    else if ms[0].Close? then
      if ms[0].reason != CLOSE_TRANSFER_COMPLETE then (Some(file), Closed(ms[0].reason))
      else if hash(file[HEADER_SIZE..]) != sum then (None, Removed)
      else (Some(file[HEADER_SIZE..]), Complete)
    else (Some(file), Failed)
  }

  /** The receiving loop of a client stream; `total` counts decoded payload bytes. */
  method ReceiveLoop(f: File, inbox: seq<Message>, unpack: Unpacking, hash: Hash, already: nat)
    returns (outcome: Outcome, total: nat)
    requires f.Valid() && f.isClientFile && f.pos == |f.entry.file.value|
    requires already == |f.entry.file.value| - HEADER_SIZE
    modifies f, f.entry
    ensures (f.entry.file, outcome) == Receive(old(f.entry.file).value, f.checksum, inbox, unpack, hash)
    ensures outcome.Complete? ==> f.entry.file.Some? && total == |f.entry.file.value|
    ensures outcome.Interrupted? ==> f.entry.file.Some? && total == |f.entry.file.value| - HEADER_SIZE
  {
    total := already;
    var i := 0;
    while i < |inbox|
      invariant 0 <= i <= |inbox|
      invariant f.Valid() && f.pos == |f.entry.file.value| && total == |f.entry.file.value| - HEADER_SIZE
      invariant Receive(f.entry.file.value, f.checksum, inbox[i..], unpack, hash)
             == Receive(old(f.entry.file).value, f.checksum, inbox, unpack, hash)
    {
      assert inbox[i..][1..] == inbox[i + 1..];
      var m := inbox[i];
      if m.Data? {
        var data := unpack(m.data);
        if data.None? {
          return Failed, total;
        }
        ghost var before := f.entry.file.value;
        f.Write(data.value);
        AppendKeepsChecksum(before, data.value);
        assert f.entry.file.value == before + data.value;
        total := total + |data.value|;
      } else if m.Close? {
        if m.reason != CLOSE_TRANSFER_COMPLETE {
          return Closed(m.reason), total;
        }
        var correct := f.CheckChecksum(hash);
        if !correct.value {
          f.Remove();
          return Removed, total;
        }
        var stripped := f.StripChecksum();
        return Complete, total;
      } else {
        return Failed, total;
      }
      i := i + 1;
    }
    return Interrupted, total;
  }

  lemma AppendKeepsChecksum(file: bytes, x: bytes)
    ensures RecordedChecksum(file).Some? ==> RecordedChecksum(file + x) == RecordedChecksum(file)
  {
    if |file| >= HEADER_SIZE {
      assert (file + x)[..5] == file[..5] && (file + x)[5..HEADER_SIZE] == file[5..HEADER_SIZE];
    }
  }

  /** What DownloadFile found: the request, and where the file under way ends. */
  datatype Request = Request(req: Message, offset: uint64, isResumption: bool)

  /** The request for a file: resuming when a client file exists, refusing when any other does. */
  function RequestFor(file: Option<bytes>, id: StreamID, name: bytes, wanted: bytes,
                      headers: seq<OptionalHeader>): Result<Request, FileError>
  {
    match file
    case None => Ok(Request(FileReq(id, [], headers, name, wanted), 0, false))
    case Some(f) =>
      match RecordedChecksum(f)
      case None => Err(InvalidChecksum)
      case Some(sum) => Ok(Request(FileReq(id, [Resumption], headers, name, sum), ToUint64(|f| - HEADER_SIZE), true))
  }

  /** What a download asks for: the wanted checksum and nothing else when there is no file; the content
      that the file's header names, from where the file ends, when the file is one of an unfinished
      download; and nothing at all when it is any other file. */
  lemma RequestsExactly(id: StreamID, name: bytes, wanted: bytes, headers: seq<OptionalHeader>, file: bytes,
                        sum: bytes, content: bytes)
    requires |sum| == 32 && |content| < 0x1_0000_0000_0000_0000
    ensures RequestFor(None, id, name, wanted, headers) == Ok(Request(FileReq(id, [], headers, name, wanted), 0, false))
    ensures RequestFor(Some([42, 52, 46, 54, 31] + sum + content), id, name, wanted, headers)
         == Ok(Request(FileReq(id, [Resumption], headers, name, sum), |content|, true))
    ensures |file| < 37 || file[..5] != [42, 52, 46, 54, 31] ==>
              RequestFor(Some(file), id, name, wanted, headers) == Err(InvalidChecksum)
  {
    var pending := [42, 52, 46, 54, 31] + sum + content;
    assert pending[..5] == [42, 52, 46, 54, 31] && pending[5..37] == sum;
    SignatureExactly(pending);
    SignatureExactly(file);
    hide RecordedChecksum;
  }

  method DownloadFile(entry: Entry, id: StreamID, name: bytes, wanted: bytes, headers: seq<OptionalHeader>)
    returns (r: Result<Request, FileError>)
    modifies entry
    ensures entry.file == old(entry.file)
    ensures r == RequestFor(entry.file, id, name, wanted, headers)
  {
    var clientFile := File.NewFile(entry, None);
    if clientFile.Err? && clientFile.error == InvalidChecksum {
      return Err(InvalidChecksum);
    }
    var req := FileReq(id, [], headers, name, wanted);
    if clientFile.Ok? {
      var size := clientFile.value.Size();
      req := req.(flags := req.flags + [Resumption], checksum := clientFile.value.checksum);
      assert req.flags == [Resumption];
      return Ok(Request(req, ToUint64(size), true));
    }
    return Ok(Request(req, 0, false));
  }

  /** A client that reports a wrong checksum reads the checksum of a file that it has not opened yet,
      which ends the process. */
  datatype Reaction = Panic | GiveUp | Start(msg: Message, decompress: bool)

  /** The client's reaction to a FileResp, and its file afterwards. */
  function StartAfter(file: Option<bytes>, wanted: bytes, r: Request, resp: Message)
    : (result: (Option<bytes>, Reaction))
    requires resp.FileResp?
    ensures result.1.Start? ==> result.1.msg.StartTransmission? && result.1.msg.startId == resp.respId
  {
    if wanted != NO_CHECKSUM && wanted != resp.respChecksum then (file, Panic)
    else
      match ClientHeaders(resp.respHeaders)
      case Err(_) => (file, GiveUp)
      case Ok(compress) =>
        var offset: uint64 := if r.isResumption then r.offset else 0;
        var start := Start(StartTransmission(resp.respId, resp.respChecksum, offset), compress);
        match file
        case Some(f) => (file, if RecordedChecksum(f).Some? then start else GiveUp)
        case None =>
          if |resp.respChecksum| == CHECKSUM_SIZE then (Some(Pending(resp.respChecksum, [])), start)
          else (Some([]), GiveUp)
  }

  /** The client checks the response, creates or reopens its file, and asks for the content. */
  method HandleFileResp(entry: Entry, wanted: bytes, r: Request, resp: Message)
    returns (reaction: Reaction, f: Result<File, FileError>)
    requires resp.FileResp?
    modifies entry
    ensures (entry.file, reaction) == StartAfter(old(entry.file), wanted, r, resp)
    ensures reaction.Start? ==> f.Ok? && f.value.Valid() && f.value.entry == entry && f.value.isClientFile
    ensures reaction.Start? ==> f.value.pos == |entry.file.value|
  {
    f := Err(NotExist);
    if wanted != NO_CHECKSUM && wanted != resp.respChecksum {
      return Panic, f;
    }
    var compress := false;
    var i := 0;
    while i < |resp.respHeaders|
      invariant 0 <= i <= |resp.respHeaders|
      invariant entry.file == old(entry.file) && f == Err(NotExist)
      invariant var all, rest := ClientHeaders(resp.respHeaders), ClientHeaders(resp.respHeaders[i..]);
                if rest.Ok? then all == Ok(compress || rest.value) else all == rest
    {
      assert resp.respHeaders[i..][1..] == resp.respHeaders[i + 1..];
      match resp.respHeaders[i] {
        case CompressionReq(_, _, _) => return GiveUp, f;
        case UnknownHeader(_, _, _) => return GiveUp, f;
        case CompressionResp(_, status) =>
          if status == COMPRESSION_OK {
            compress := true;
          }
      }
      i := i + 1;
    }
    f := File.NewFile(entry, Some(resp.respChecksum));
    if f.Err? {
      return GiveUp, f;
    }
    var offset: uint64 := 0;
    if r.isResumption {
      offset := r.offset;
    }
    reaction := Start(StartTransmission(resp.respId, resp.respChecksum, offset), compress);
  }

  // ------------------------------------------------------ what each side answers

  /** A client refuses an answer with headers that no answer may carry, and names the kind of the first
      of them: 9 for a request for compression, 8 for an unknown header. */
  lemma {:induction false} ClientRefusesExactly(answers: seq<OptionalHeader>)
    ensures ClientHeaders(answers).Ok? <==> forall i | 0 <= i < |answers| :: answers[i].CompressionResp?
    ensures ClientHeaders(answers).Ok? ==>
              (ClientHeaders(answers).value <==>
                 exists i :: 0 <= i < |answers| && answers[i] == CompressionResp(answers[i].length, 1))
    ensures forall i | 0 <= i < |answers| && !answers[i].CompressionResp?
                       && (forall j | 0 <= j < i :: answers[j].CompressionResp?) ::
              ClientHeaders(answers) == Err(if answers[i].CompressionReq? then 9 else 8)
    decreases |answers|
  {
    if answers == [] {
    } else {
      var rest := answers[1..];
      ClientRefusesExactly(rest);
      assert forall i | 0 < i < |answers| :: answers[i] == rest[i - 1];
      assert forall i | 0 <= i < |rest| :: rest[i] == answers[i + 1];
    }
  }

  /** The server's replies to a request, with the number that each refusal carries. */
  lemma RepliesExactly(req: Message, content: Option<bytes>, hash: Hash, defaultChunk: nat)
    requires req.FileReq? && ValidHash(hash)
    ensures var reply := ReplyTo(req, content, hash, defaultChunk);
            && (reply.Offer? <==>
                  && ValidName(req.fileName) && content.Some?
                  && (req.checksum == hash(content.value) || (req.checksum == Zeros(32) && req.flags == []))
                  && (req.flags != [] ==> req.checksum != Zeros(32)))
            && (reply == Refuse(0) <==> !ValidName(req.fileName))
            && (reply == Refuse(7) <==> ValidName(req.fileName) && content.None?)
            && (reply == Refuse(6) <==>
                  ValidName(req.fileName) && content.Some? && req.flags != [] && req.checksum == Zeros(32))
            && (reply == Refuse(2) <==>
                  ValidName(req.fileName) && content.Some? && req.checksum !in {Zeros(32), hash(content.value)})
    ensures var reply := ReplyTo(req, content, hash, defaultChunk);
            reply.Offer? ==>
              && reply.response.FileResp? && reply.response.respId == req.streamId
              && reply.response.respChecksum == hash(content.value)
              && reply.response.fileSize == |content.value| % 0x1_0000_0000_0000_0000
  {
    hide Negotiate, ValidName;
  }

  /** What a StartTransmission leads to: a refusal for another file, or for an offset at or beyond the
      end, and otherwise the file from the offset on. */
  lemma StartsExactly(start: Message, content: bytes, hash: Hash, chunk: nat, pack: Packing)
    requires start.StartTransmission? && chunk > 0
    ensures var out := AfterStart(start, content, hash, chunk, pack);
            && (start.startChecksum != hash(content) ==> out == [Close(start.startId, 2)])
            && (start.startChecksum == hash(content) && start.offset >= |content| ==> out == [Close(start.startId, 3)])
            && (start.startChecksum == hash(content) && start.offset < |content| ==>
                  out == FileMessages(start.startId, content[start.offset..], chunk, pack))
  {
    hide FileMessages;
  }

  /** How a client takes an answer: another checksum than the one wanted ends its process; wrong headers end
      the stream; otherwise it starts at the end of what it has, with the server's checksum, and its file
      is the one it had or a new one with nothing but its header. */
  lemma ReactsExactly(file: Option<bytes>, wanted: bytes, r: Request, resp: Message)
    requires resp.FileResp? && |resp.respChecksum| == 32
    ensures var (file', reaction) := StartAfter(file, wanted, r, resp);
            && (reaction.Panic? <==> wanted !in {Zeros(32), resp.respChecksum})
            && (reaction.GiveUp? <==>
                  && wanted in {Zeros(32), resp.respChecksum}
                  && (ClientHeaders(resp.respHeaders).Err? || (file.Some? && RecordedChecksum(file.value).None?)))
            && (reaction.Start? ==>
                  && reaction.decompress == ClientHeaders(resp.respHeaders).value
                  && reaction.msg
                     == StartTransmission(resp.respId, resp.respChecksum, if r.isResumption then r.offset else 0))
            && file' == (if reaction.Start? && file.None? then Some([42, 52, 46, 54, 31] + resp.respChecksum) else file)
  {
    hide ClientHeaders;
    if file.None? {
      assert Pending(resp.respChecksum, []) == [42, 52, 46, 54, 31] + resp.respChecksum;
    }
  }

  /** What chunks that can be decompressed hold together. */
  function Unpacked(ms: seq<Message>, unpack: Unpacking): bytes
    requires forall i | 0 <= i < |ms| :: ms[i].Data? && unpack(ms[i].data).Some?
  {
    if ms == [] then [] else unpack(ms[0].data).value + Unpacked(ms[1..], unpack)
  }

  /** How a transfer goes on after any number of good chunks: another chunk is appended, a damaged one and
      a message of another kind end the stream, a Close ends it as its reason says, and TransferComplete
      leaves the bare content, or nothing if that has not the recorded checksum. */
  lemma {:induction false} ReceivesExactly(file: bytes, sum: bytes, ms: seq<Message>, m: Message,
                                           unpack: Unpacking, hash: Hash)
    requires |file| >= HEADER_SIZE
    requires forall i | 0 <= i < |ms| :: ms[i].Data? && unpack(ms[i].data).Some?
    ensures var all := file + Unpacked(ms, unpack);
            Receive(file, sum, ms + [m], unpack, hash) ==
              if m.Data? then
                (if unpack(m.data).None? then (Some(all), Failed) else (Some(all + unpack(m.data).value), Interrupted))
              else if !m.Close? then (Some(all), Failed)
              else if m.reason != 1 then (Some(all), Closed(m.reason))
              else if hash(all[37..]) == sum then (Some(all[37..]), Complete)
              else (None, Removed)
    decreases |ms|
  {
    if ms == [] {
      assert ms + [m] == [m] && [m][1..] == [] && file + [] == file;
    } else {
      var x := unpack(ms[0].data).value;
      assert (ms + [m])[0] == ms[0] && (ms + [m])[1..] == ms[1..] + [m];
      ReceivesExactly(file + x, sum, ms[1..], m, unpack, hash);
      assert (file + x) + Unpacked(ms[1..], unpack) == file + (x + Unpacked(ms[1..], unpack));
    }
  }
}
