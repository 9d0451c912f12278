/** Every run of interrupted and resumed sessions, with a server whose file may change in between. */
module Resumption {
  import opened Prelude
  import opened Messages
  import opened BrftFiles
  import opened ChunkLoop
  import opened Transfer
  import ByteStream
  import PacketNumbers

  /** What stays the same over the sessions of a download. */
  datatype Setup = Setup(hash: Hash, pack: Packing, unpack: Unpacking, id: StreamID, name: bytes,
                         headers: seq<OptionalHeader>, defaultChunk: nat)

  /** One session: the server's file, the checksum the user asked for, and the number of messages of
      the server that reach the client before the connection is lost. */
  datatype Session = Session(content: Option<bytes>, wanted: bytes, cut: nat)

  ghost predicate ValidSetup(s: Setup)
  {
    ValidHash(s.hash) && Inverse(s.pack, s.unpack) && s.defaultChunk > 0
  }

  /** Contents have 64-bit sizes. */
  predicate Sized(content: bytes)
  {
    |content| < 0x1_0000_0000_0000_0000
  }

  function Packer(s: Setup, compress: bool): Packing
  {
    if compress then s.pack else x => x
  }

  function Unpacker(s: Setup, compress: bool): Unpacking
  {
    if compress then s.unpack else x => Some(x)
  }

  lemma PackersInverse(s: Setup, compress: bool)
    requires ValidSetup(s)
    ensures Inverse(Packer(s, compress), Unpacker(s, compress))
  {
  }

  /** The chunk size both sides use for a file. */
  function ChunkOf(s: Setup, content: bytes): (n: nat)
    requires s.defaultChunk > 0
    ensures n > 0
  {
    CompressionAgreed(s.headers, |content|, s.defaultChunk);
    Negotiate(s.headers, |content|, s.defaultChunk).chunkSize
  }

  function Compressed(s: Setup, content: bytes): bool
  {
    Negotiate(s.headers, |content|, s.defaultChunk).compress
  }

  /** The part of a session after the client's StartTransmission. */
  function Receiving(s: Setup, file: Option<bytes>, start: Message, decompress: bool, content: bytes, cut: nat)
    : (Option<bytes>, Outcome)
    requires s.defaultChunk > 0 && start.StartTransmission?
  {
    if file.None? || RecordedChecksum(file.value).None? then (file, Failed) else
      var ms := AfterStart(start, content, s.hash, ChunkOf(s, content), Packer(s, Compressed(s, content)));
      Receive(file.value, RecordedChecksum(file.value).value, if cut <= |ms| then ms[..cut] else ms,
              Unpacker(s, decompress), s.hash)
  }

  /** The client's file and the outcome after a session that began with `file`. */
  function RunSession(s: Setup, file: Option<bytes>, i: Session): (Option<bytes>, Outcome)
    requires s.defaultChunk > 0
  {
    match RequestFor(file, s.id, s.name, i.wanted, s.headers)
    case Err(_) => (file, Failed)
    case Ok(r) =>
      match ReplyTo(r.req, i.content, s.hash, s.defaultChunk)
      case Refuse(reason) => (file, if i.cut == 0 then Interrupted else Closed(reason))
      case Offer(resp, _, _) =>
        if i.cut == 0 then (file, Interrupted)
        else
          match StartAfter(file, i.wanted, r, resp)
          case (file', Panic) => (file', Crashed)
          case (file', GiveUp) => (file', Failed)
          case (file', Start(start, decompress)) =>
            Receiving(s, file', start, decompress, i.content.value, i.cut - 1)
  }

  // ---------------------------------------------------- receiving a cut stream

  /** The client's file and the outcome after the first `n` of `total` messages that carry `left`. */
  function CutOutcome(file: bytes, sum: bytes, left: bytes, chunk: nat, hash: Hash, total: nat, n: nat)
    : (Option<bytes>, Outcome)
    requires |file| >= HEADER_SIZE && chunk > 0
  {
    if n < total then (Some(file + left[..Received(|left|, chunk, n)]), Interrupted)
    else if |left| % chunk == 0 then (Some(file + left), Closed(CLOSE_UNDEFINED))
    else if hash((file + left)[HEADER_SIZE..]) == sum then (Some((file + left)[HEADER_SIZE..]), Complete)
    else (None, Removed)
  }

  /** Receiving the first `n` messages appends the payload they carry; the whole stream ends as the
      chunk loop ended, and with TransferComplete only a right checksum leaves the content. */
  lemma {:induction false} ReceiveCut(file: bytes, sum: bytes, id: StreamID, left: bytes, chunk: nat,
                                      pack: Packing, unpack: Unpacking, hash: Hash, n: nat)
    requires |file| >= HEADER_SIZE && chunk > 0 && Inverse(pack, unpack)
    requires n <= |FileMessages(id, left, chunk, pack)|
    ensures var ms := FileMessages(id, left, chunk, pack);
            Receive(file, sum, ms[..n], unpack, hash) == CutOutcome(file, sum, left, chunk, hash, |ms|, n)
    decreases |left|
  {
    if n == 0 {
      assert FileMessages(id, left, chunk, pack)[..0] == [] && file + left[..0] == file;
    } else if |left| < chunk {
      ReceiveLast(file, sum, id, left, chunk, pack, unpack, hash, n);
    } else {
      var head, tail := left[..chunk], left[chunk..];
      var d, rest := Data(id, pack(head)), FileMessages(id, tail, chunk, pack);
      assert FileMessages(id, left, chunk, pack) == [d] + rest;
      hide FileMessages, Receive, CutOutcome;
      ReceiveCut(file + head, sum, id, tail, chunk, pack, unpack, hash, n - 1);
      assert unpack(d.data) == Some(head);
      ReceiveData(file, sum, d, head, rest[..n - 1], unpack, hash);
      assert ([d] + rest)[..n] == [d] + rest[..n - 1];
      CutOutcomeStep(file, sum, left, chunk, hash, |rest|, n - 1);
    }
  }

  lemma CutOutcomeStep(file: bytes, sum: bytes, left: bytes, chunk: nat, hash: Hash, total: nat, n: nat)
    requires |file| >= HEADER_SIZE && 0 < chunk <= |left|
    ensures CutOutcome(file, sum, left, chunk, hash, total + 1, n + 1)
         == CutOutcome(file + left[..chunk], sum, left[chunk..], chunk, hash, total, n)
  {
    var k := Received(|left[chunk..]|, chunk, n);
    assert Received(|left|, chunk, n + 1) == chunk + k;
    hide Received;
    assert (file + left[..chunk]) + left[chunk..] == file + left;
    assert (file + left[..chunk]) + left[chunk..][..k] == file + left[..chunk + k];
    ByteStream.DivStep(|left|, chunk);
  }

  lemma ReceiveData(file: bytes, sum: bytes, d: Message, x: bytes, ms: seq<Message>, unpack: Unpacking, hash: Hash)
    requires |file| >= HEADER_SIZE && d.Data? && unpack(d.data) == Some(x)
    ensures Receive(file, sum, [d] + ms, unpack, hash) == Receive(file + x, sum, ms, unpack, hash)
  {
    assert ([d] + ms)[1..] == ms;
  }

  lemma ReceiveLast(file: bytes, sum: bytes, id: StreamID, left: bytes, chunk: nat,
                    pack: Packing, unpack: Unpacking, hash: Hash, n: nat)
    requires |file| >= HEADER_SIZE && Inverse(pack, unpack) && |left| < chunk
    requires 0 < n <= |FileMessages(id, left, chunk, pack)|
    ensures var ms := FileMessages(id, left, chunk, pack);
            Receive(file, sum, ms[..n], unpack, hash) == CutOutcome(file, sum, left, chunk, hash, |ms|, n)
  {
    var ms := FileMessages(id, left, chunk, pack);
    PacketNumbers.DivModUnique(|left|, chunk, 0, |left|);
    assert left[..|left|] == left;
    if left == [] {
      assert file + left == file && ms[..n] == ms;
    } else {
      assert unpack(pack(left)) == Some(left);
      assert ms[..n][1..] == ms[1..][..n - 1];
      assert ms[1..][1..] == [];
      if n == 2 {
        assert ms[1..][..1] == [Close(id, CLOSE_TRANSFER_COMPLETE)];
      } else {
        assert ms[1..][..0] == [];
      }
    }
  }

  // ------------------------------------------- sessions on one content

  /** The client's file while `content` is under way, with its first `k` bytes. */
  function UnderWay(s: Setup, content: bytes, k: nat): bytes
    requires k <= |content|
  {
    Pending(s.hash(content), content[..k])
  }

  /** The file of a client that has not started, or has the first `k` bytes. */
  function FileAt(s: Setup, content: bytes, started: bool, k: nat): Option<bytes>
    requires k <= |content|
  {
    if started then Some(UnderWay(s, content, k)) else None
  }

  /** Both ends accept the session: the file has a name that is handed out, exists unchanged, is the one
      the user wants, and a resumption can name a checksum. */
  predicate Accepted(s: Setup, content: bytes, started: bool, i: Session)
  {
    && ValidName(s.name)
    && i.content == Some(content)
    && (i.wanted == NO_CHECKSUM || i.wanted == s.hash(content))
    && (started ==> s.hash(content) != NO_CHECKSUM)
  }

  /** The length of the server's answer to a StartTransmission at offset `k`. */
  function AnswerLength(s: Setup, content: bytes, k: nat): nat
    requires s.defaultChunk > 0 && k <= |content| && Sized(content)
  {
    |AfterStart(StartTransmission(s.id, s.hash(content), k), content, s.hash, ChunkOf(s, content),
                Packer(s, Compressed(s, content)))|
  }

  /** How a session ends that both ends accept and that delivers `cut` messages. */
  function AcceptedResult(s: Setup, content: bytes, started: bool, k: nat, cut: nat): (Option<bytes>, Outcome)
    requires s.defaultChunk > 0 && k <= |content| && Sized(content)
  {
    var chunk := ChunkOf(s, content);
    if cut == 0 then (FileAt(s, content, started, k), Interrupted)
    else if cut - 1 < AnswerLength(s, content, k) then
      (Some(UnderWay(s, content, k + Received(|content| - k, chunk, cut - 1))), Interrupted)
    else if k == |content| then (Some(UnderWay(s, content, k)), Closed(CLOSE_INVALID_OFFSET))
    else if (|content| - k) % chunk == 0 then (Some(UnderWay(s, content, |content|)), Closed(CLOSE_UNDEFINED))
    else (Some(content), Complete)
  }

  lemma RequestAt(s: Setup, content: bytes, started: bool, k: nat, wanted: bytes)
    requires ValidSetup(s) && k <= |content| && (!started ==> k == 0)
    requires Sized(content)
    ensures RequestFor(FileAt(s, content, started, k), s.id, s.name, wanted, s.headers)
         == Ok(Request(FileReq(s.id, if started then [Resumption] else [], s.headers, s.name,
                               if started then s.hash(content) else wanted), k, started))
  {
    PendingRecords(s.hash(content), content[..k]);
  }

  lemma StartAt(s: Setup, content: bytes, started: bool, k: nat, i: Session, r: Request)
    requires ValidSetup(s) && k <= |content| && (!started ==> k == 0) && Accepted(s, content, started, i)
    requires Sized(content)
    requires RequestFor(FileAt(s, content, started, k), s.id, s.name, i.wanted, s.headers) == Ok(r)
    ensures var n := Negotiate(s.headers, |content|, s.defaultChunk);
            var resp := FileResp(n.status, n.answers, s.id, ToUint64(|content|), s.hash(content));
            && ReplyTo(r.req, i.content, s.hash, s.defaultChunk) == Offer(resp, n.compress, n.chunkSize)
            && StartAfter(FileAt(s, content, started, k), i.wanted, r, resp)
               == (Some(UnderWay(s, content, k)), Start(StartTransmission(s.id, s.hash(content), k), n.compress))
  {
    hide Negotiate, ClientHeaders;
    RequestAt(s, content, started, k, i.wanted);
    CompressionAgreed(s.headers, |content|, s.defaultChunk);
    PendingRecords(s.hash(content), content[..k]);
    assert content[..0] == [];
  }

  /** A complete file under way gets no further: its offset is refused. */
  lemma ReceivingNothing(s: Setup, content: bytes, cut: nat)
    requires ValidSetup(s) && Sized(content)
    ensures Receiving(s, Some(UnderWay(s, content, |content|)), StartTransmission(s.id, s.hash(content), |content|),
                      Compressed(s, content), content, cut)
         == AcceptedResult(s, content, true, |content|, cut + 1)
  {
    hide FileMessages, Negotiate;
    var ms := [Close(s.id, CLOSE_INVALID_OFFSET)];
    PendingRecords(s.hash(content), content[..|content|]);
    assert ms[..0] == [] && ms[..1] == ms;
    assert AnswerLength(s, content, |content|) == 1;
  }

  lemma ReceivingRest(s: Setup, content: bytes, k: nat, cut: nat)
    requires ValidSetup(s) && k < |content| && Sized(content)
    ensures Receiving(s, Some(UnderWay(s, content, k)), StartTransmission(s.id, s.hash(content), k),
                      Compressed(s, content), content, cut)
         == AcceptedResult(s, content, true, k, cut + 1)
  {
    hide FileMessages, Negotiate, Receive, CutOutcome, AcceptedResult, Packer, Unpacker, Pending;
    var file, sum, left, chunk := UnderWay(s, content, k), s.hash(content), content[k..], ChunkOf(s, content);
    var pack, unpack := Packer(s, Compressed(s, content)), Unpacker(s, Compressed(s, content));
    var ms := FileMessages(s.id, left, chunk, pack);
    PendingRecords(sum, content[..k]);
    PackersInverse(s, Compressed(s, content));
    var n := if cut <= |ms| then cut else |ms|;
    assert ms[..|ms|] == ms;
    ReceiveCut(file, sum, s.id, left, chunk, pack, unpack, s.hash, n);
    CutUnderWay(s, content, k, |ms|, cut);
  }

  lemma CutUnderWay(s: Setup, content: bytes, k: nat, total: nat, cut: nat)
    requires ValidSetup(s) && k < |content| && Sized(content) && AnswerLength(s, content, k) == total
    ensures CutOutcome(UnderWay(s, content, k), s.hash(content), content[k..], ChunkOf(s, content), s.hash, total,
                       if cut <= total then cut else total)
         == AcceptedResult(s, content, true, k, cut + 1)
  {
    hide FileMessages, Negotiate, Received, Pending, AnswerLength;
    var left, chunk := content[k..], ChunkOf(s, content);
    MoreUnderWay(s, content, k, Received(|left|, chunk, if cut <= total then cut else total));
    MoreUnderWay(s, content, k, |left|);
    assert left[..|left|] == left && content[..|content|] == content;
    PendingRecords(s.hash(content), content);
  }

  lemma MoreUnderWay(s: Setup, content: bytes, k: nat, more: nat)
    requires k + more <= |content|
    ensures UnderWay(s, content, k) + content[k..][..more] == UnderWay(s, content, k + more)
  {
    assert content[..k] + content[k..][..more] == content[..k + more];
  }

  lemma ReceivingAt(s: Setup, content: bytes, k: nat, cut: nat)
    requires ValidSetup(s) && k <= |content| && Sized(content)
    ensures Receiving(s, Some(UnderWay(s, content, k)), StartTransmission(s.id, s.hash(content), k),
                      Compressed(s, content), content, cut)
         == AcceptedResult(s, content, true, k, cut + 1)
  {
    hide Receiving, AcceptedResult;
    if k == |content| {
      ReceivingNothing(s, content, cut);
    } else {
      ReceivingRest(s, content, k, cut);
    }
  }

  /** The exact result of a session that both ends accept. */
  lemma AcceptedSession(s: Setup, content: bytes, started: bool, k: nat, i: Session)
    requires ValidSetup(s) && k <= |content| && (!started ==> k == 0) && Accepted(s, content, started, i)
    requires Sized(content)
    ensures RunSession(s, FileAt(s, content, started, k), i) == AcceptedResult(s, content, started, k, i.cut)
  {
    hide RequestFor, ReplyTo, StartAfter, Receiving, AcceptedResult, Negotiate, UnderWay;
    RequestAt(s, content, started, k, i.wanted);
    var r := RequestFor(FileAt(s, content, started, k), s.id, s.name, i.wanted, s.headers).value;
    StartAt(s, content, started, k, i, r);
    if i.cut == 0 {
      ZeroCut(s, content, started, k);
    } else {
      ReceivingAt(s, content, k, i.cut - 1);
      StartedIrrelevant(s, content, started, k, i.cut);
    }
  }

  lemma ZeroCut(s: Setup, content: bytes, started: bool, k: nat)
    requires s.defaultChunk > 0 && k <= |content| && Sized(content)
    ensures AcceptedResult(s, content, started, k, 0) == (FileAt(s, content, started, k), Interrupted)
  {
  }

  lemma StartedIrrelevant(s: Setup, content: bytes, started: bool, k: nat, cut: nat)
    requires s.defaultChunk > 0 && k <= |content| && Sized(content) && cut > 0
    ensures AcceptedResult(s, content, started, k, cut) == AcceptedResult(s, content, true, k, cut)
  {
  }

  // ------------------------------------------------------- refused sessions

  /** A session whose file is missing or other than before, or is not the one the user wants,
      leaves the client's file alone. */
  lemma RefusedSession(s: Setup, content: bytes, started: bool, k: nat, i: Session)
    requires ValidSetup(s) && k <= |content| && Sized(content) && (!started ==> k == 0)
    requires started ==> i.content.Some? ==> i.content == Some(content) || s.hash(i.content.value) != s.hash(content)
    requires !started && i.content.Some? ==> i.content == Some(content)
    requires !Accepted(s, content, started, i)
    ensures RunSession(s, FileAt(s, content, started, k), i).0 == FileAt(s, content, started, k)
    ensures var o := RunSession(s, FileAt(s, content, started, k), i).1; o.Interrupted? || o.Closed? || o.Crashed?
  {
    hide Negotiate, Receiving, ClientHeaders;
    RequestAt(s, content, started, k, i.wanted);
    PendingRecords(s.hash(content), content[..k]);
  }

  /** How a refused session ends when the server's answer arrives, by number: a name that is not handed
      out, a missing file, a resumption that can name no checksum, or another file than wanted. */
  lemma RefusedReason(s: Setup, content: bytes, started: bool, k: nat, i: Session)
    requires ValidSetup(s) && k <= |content| && Sized(content) && (!started ==> k == 0) && i.cut > 0
    requires started ==> i.content.Some? ==> i.content == Some(content) || s.hash(i.content.value) != s.hash(content)
    requires !started && i.content.Some? ==> i.content == Some(content)
    ensures var o := RunSession(s, FileAt(s, content, started, k), i).1;
            && (!ValidName(s.name) ==> o == Closed(0))
            && (ValidName(s.name) && i.content.None? ==> o == Closed(7))
            && (ValidName(s.name) && i.content.Some? && started && s.hash(content) == Zeros(32) ==> o == Closed(6))
            && (ValidName(s.name) && i.content.Some? && i.content != Some(content) && s.hash(content) != Zeros(32) ==>
                  o == Closed(2))
            && (ValidName(s.name) && i.content.Some? && !started && i.wanted !in {Zeros(32), s.hash(content)} ==>
                  o == Closed(2))
  {
    hide Negotiate, Receiving, ClientHeaders, ValidName;
    RequestAt(s, content, started, k, i.wanted);
    PendingRecords(s.hash(content), content[..k]);
  }

  /** A file that is there but records no checksum is never touched, and no session is opened for it. */
  lemma ForeignFileStays(s: Setup, file: bytes, i: Session)
    requires s.defaultChunk > 0 && RecordedChecksum(file).None?
    ensures RunSession(s, Some(file), i) == (Some(file), Failed)
  {
  }

  /** A client's process ends exactly when it resumes a file that is still the server's, although the
      user wants another one, and the server's answer reaches it. */
  lemma CrashesExactly(s: Setup, content: bytes, started: bool, k: nat, i: Session)
    requires ValidSetup(s) && k <= |content| && Sized(content) && (!started ==> k == 0)
    requires started ==> i.content.Some? ==> i.content == Some(content) || s.hash(i.content.value) != s.hash(content)
    requires !started && i.content.Some? ==> i.content == Some(content)
    ensures RunSession(s, FileAt(s, content, started, k), i).1.Crashed? <==>
              && started && ValidName(s.name) && i.content == Some(content) && s.hash(content) != NO_CHECKSUM
              && i.wanted != NO_CHECKSUM && i.wanted != s.hash(content) && i.cut > 0
  {
    if Accepted(s, content, started, i) {
      AcceptedKeeps(s, content, started, k, i);
    } else {
      hide Negotiate, Receiving, ClientHeaders;
      RequestAt(s, content, started, k, i.wanted);
      PendingRecords(s.hash(content), content[..k]);
    }
  }

  // -------------------------------------------------- safety over all runs

  ghost predicate CollisionFree(hash: Hash, offers: set<bytes>)
  {
    forall x, y | x in offers && y in offers && hash(x) == hash(y) :: x == y
  }

  /** The client's file is missing, or holds the checksum and a prefix of a content once offered. */
  ghost predicate FileOk(s: Setup, offers: set<bytes>, file: Option<bytes>)
  {
    file == None || exists x, k: nat :: x in offers && k <= |x| && file == Some(UnderWay(s, x, k))
  }

  ghost predicate OffersOk(s: Setup, offers: set<bytes>)
  {
    CollisionFree(s.hash, offers) && forall x | x in offers :: Sized(x)
  }

  /** A file under way that has grown, by whole chunks or to its end. */
  ghost predicate Grown(s: Setup, content: bytes, k: nat, file: Option<bytes>)
    requires s.defaultChunk > 0 && k <= |content|
  {
    exists k': nat :: GrownTo(s, content, k, file, k')
  }

  ghost predicate GrownTo(s: Setup, content: bytes, k: nat, file: Option<bytes>, k': nat)
    requires s.defaultChunk > 0 && k <= |content|
  {
    && k <= k' <= |content| && file == Some(UnderWay(s, content, k'))
    && (k' == |content| || (|content| - k') % ChunkOf(s, content) == (|content| - k) % ChunkOf(s, content))
  }

  lemma AcceptedKeeps(s: Setup, content: bytes, started: bool, k: nat, i: Session)
    requires ValidSetup(s) && k <= |content| && (!started ==> k == 0) && Accepted(s, content, started, i)
    requires Sized(content)
    ensures var (file', o) := RunSession(s, FileAt(s, content, started, k), i);
            && !o.Removed? && !o.Failed? && !o.Crashed?
            && (if o.Complete? then file' == Some(content)
                else file' == FileAt(s, content, started, k) || Grown(s, content, k, file'))
  {
    hide RunSession, AcceptedResult, FileAt, Grown;
    AcceptedSession(s, content, started, k, i);
    ResultKeeps(s, content, started, k, i.cut);
  }

  lemma ResultKeeps(s: Setup, content: bytes, started: bool, k: nat, cut: nat)
    requires s.defaultChunk > 0 && k <= |content| && Sized(content)
    ensures var (file', o) := AcceptedResult(s, content, started, k, cut);
            && !o.Removed? && !o.Failed? && !o.Crashed?
            && (if o.Complete? then file' == Some(content)
                else file' == FileAt(s, content, started, k) || Grown(s, content, k, file'))
  {
    var chunk, total := ChunkOf(s, content), |content|;
    hide UnderWay, Received, AnswerLength, ChunkOf, Grown, FileAt;
    if cut > 0 {
      var got := Received(total - k, chunk, cut - 1);
      GrownBy(s, content, k, cut - 1);
      GrownAll(s, content, k);
    }
  }

  lemma GrownBy(s: Setup, content: bytes, k: nat, cut: nat)
    requires s.defaultChunk > 0 && k <= |content|
    ensures Grown(s, content, k, Some(UnderWay(s, content, k + Received(|content| - k, ChunkOf(s, content), cut))))
  {
    var chunk := ChunkOf(s, content);
    hide UnderWay, Received, ChunkOf;
    CutRemainder(|content| - k, chunk, cut);
    var k' := k + Received(|content| - k, chunk, cut);
    assert GrownTo(s, content, k, Some(UnderWay(s, content, k')), k');
  }

  lemma GrownAll(s: Setup, content: bytes, k: nat)
    requires s.defaultChunk > 0 && k <= |content|
    ensures Grown(s, content, k, Some(UnderWay(s, content, |content|)))
  {
    hide UnderWay, ChunkOf;
    assert GrownTo(s, content, k, Some(UnderWay(s, content, |content|)), |content|);
  }

  /** One session keeps the client's file in order; TransferComplete never finds a wrong checksum,
      and leaves exactly the content that the server offered. */
  lemma SessionKeeps(s: Setup, offers: set<bytes>, file: Option<bytes>, i: Session)
    requires ValidSetup(s) && OffersOk(s, offers) && FileOk(s, offers, file)
    requires i.content.Some? ==> i.content.value in offers
    ensures var (file', o) := RunSession(s, file, i);
            && !o.Removed?
            && (if o.Complete? then i.content.Some? && file' == i.content else FileOk(s, offers, file'))
  {
    hide RunSession, UnderWay, Accepted;
    if file == None {
      var content := if i.content.Some? then i.content.value else [];
      if Accepted(s, content, false, i) {
        AcceptedKeeps(s, content, false, 0, i);
        assert i.content == Some(content) by { AcceptedContent(s, content, false, i); }
      } else {
        RefusedSession(s, content, false, 0, i);
      }
    } else {
      var x, k: nat :| x in offers && k <= |x| && file == Some(UnderWay(s, x, k));
      assert FileAt(s, x, true, k) == file;
      if Accepted(s, x, true, i) {
        AcceptedKeeps(s, x, true, k, i);
        AcceptedContent(s, x, true, i);
      } else {
        RefusedSession(s, x, true, k, i);
      }
    }
  }

  lemma AcceptedContent(s: Setup, content: bytes, started: bool, i: Session)
    requires Accepted(s, content, started, i)
    ensures i.content == Some(content)
  {
  }

  /** Sessions one after another, until one completes: the file, and the completed content. */
  function RunSessions(s: Setup, file: Option<bytes>, sessions: seq<Session>): (Option<bytes>, bool)
    requires s.defaultChunk > 0
    decreases |sessions|
  {
    if sessions == [] then (file, false)
    else
      var (file', o) := RunSession(s, file, sessions[0]);
      if o.Complete? then (file', true) else RunSessions(s, file', sessions[1..])
  }

  /** Over any run of interrupted and resumed sessions the client's file is signature, checksum and a
      prefix of a content the server offered, or, once complete, exactly such a content. */
  lemma {:induction false} RunsKeep(s: Setup, offers: set<bytes>, file: Option<bytes>, sessions: seq<Session>)
    requires ValidSetup(s) && OffersOk(s, offers) && FileOk(s, offers, file)
    requires forall i | 0 <= i < |sessions| && sessions[i].content.Some? :: sessions[i].content.value in offers
    ensures var (file', complete) := RunSessions(s, file, sessions);
            if complete then file'.Some? && file'.value in offers else FileOk(s, offers, file')
    decreases |sessions|
  {
    hide RunSession, FileOk, OffersOk;
    if sessions == [] {
    } else {
      SessionKeeps(s, offers, file, sessions[0]);
      var (file', o) := RunSession(s, file, sessions[0]);
      if !o.Complete? {
        RunsKeep(s, offers, file', sessions[1..]);
      }
    }
  }

  // ------------------------------------------ which downloads ever complete

  /** A run in which nobody refuses: the same content, wanted by the user. */
  ghost predicate Steady(s: Setup, content: bytes, sessions: seq<Session>)
  {
    forall i | 0 <= i < |sessions| :: Accepted(s, content, true, sessions[i])
  }

  /** The progress of a steady run: nothing, or `k` bytes that leave a rest with the same remainder
      by the chunk size as the whole, or everything. */
  ghost predicate Progress(s: Setup, content: bytes, file: Option<bytes>, started: bool, k: nat)
    requires s.defaultChunk > 0
  {
    && k <= |content| && (!started ==> k == 0) && file == FileAt(s, content, started, k)
    && ((started && k == |content|) || (|content| - k) % ChunkOf(s, content) == |content| % ChunkOf(s, content))
  }

  lemma {:induction false} SteadyProgress(s: Setup, content: bytes, file: Option<bytes>, started: bool, k: nat,
                                          sessions: seq<Session>)
    returns (started': bool, k': nat)
    requires ValidSetup(s) && Sized(content) && Steady(s, content, sessions) && Progress(s, content, file, started, k)
    ensures var (file', complete) := RunSessions(s, file, sessions);
            && (!complete ==> Progress(s, content, file', started', k') && k <= k')
            && (complete ==> file' == Some(content) && |content| % ChunkOf(s, content) != 0 && k < |content|)
    decreases |sessions|
  {
    hide UnderWay, ChunkOf, RunSession;
    started', k' := started, k;
    if sessions == [] {
    } else {
      assert Accepted(s, content, started, sessions[0]);
      AcceptedKeeps(s, content, started, k, sessions[0]);
      CompletesExactly(s, content, started, k, sessions[0]);
      var (file1, o) := RunSession(s, file, sessions[0]);
      if !o.Complete? {
        if file1 != file {
          k' :| GrownTo(s, content, k, file1, k');
          started' := true;
        }
        started', k' := SteadyProgress(s, content, file1, started', k', sessions[1..]);
      }
    }
  }

  /** An accepted session completes exactly when all messages get through, something is left to send,
      and what is left is no multiple of the chunk size. */
  lemma CompletesExactly(s: Setup, content: bytes, started: bool, k: nat, i: Session)
    requires ValidSetup(s) && k <= |content| && (!started ==> k == 0) && Accepted(s, content, started, i)
    requires Sized(content)
    ensures RunSession(s, FileAt(s, content, started, k), i).1.Complete? <==>
              i.cut > AnswerLength(s, content, k) && k < |content| && (|content| - k) % ChunkOf(s, content) != 0
  {
    hide RunSession, AcceptedResult, FileAt, AnswerLength, ChunkOf;
    AcceptedSession(s, content, started, k, i);
    ResultCompletes(s, content, started, k, i.cut);
  }

  lemma ResultCompletes(s: Setup, content: bytes, started: bool, k: nat, cut: nat)
    requires s.defaultChunk > 0 && k <= |content| && Sized(content)
    ensures AcceptedResult(s, content, started, k, cut).1.Complete? <==>
              cut > AnswerLength(s, content, k) && k < |content| && (|content| - k) % ChunkOf(s, content) != 0
  {
    hide UnderWay, Received, AnswerLength, ChunkOf, FileAt;
  }

  /** After any steady run from scratch, the next session that is not cut completes exactly when the
      size is no multiple of the chunk size and the file is not yet complete but for its Close. */
  lemma NextSessionCompletes(s: Setup, content: bytes, sessions: seq<Session>, next: Session)
    requires ValidSetup(s) && Sized(content) && Steady(s, content, sessions + [next])
    requires !RunSessions(s, None, sessions).1
    requires forall k | 0 <= k <= |content| :: next.cut > AnswerLength(s, content, k)
    ensures RunSession(s, RunSessions(s, None, sessions).0, next).1.Complete? <==>
              |content| % ChunkOf(s, content) != 0
              && RunSessions(s, None, sessions).0 != Some(UnderWay(s, content, |content|))
  {
    hide ChunkOf, RunSession, RunSessions, AnswerLength;
    assert forall i | 0 <= i < |sessions| :: (sessions + [next])[i] == sessions[i];
    assert (sessions + [next])[|sessions|] == next;
    var started, k := SteadyProgress(s, content, None, false, 0, sessions);
    var file := RunSessions(s, None, sessions).0;
    CompletesExactly(s, content, started, k, next);
    UnderWayLength(s, content, k);
    UnderWayLength(s, content, |content|);
  }

  lemma UnderWayLength(s: Setup, content: bytes, k: nat)
    requires ValidSetup(s) && k <= |content|
    ensures |UnderWay(s, content, k)| == HEADER_SIZE + k
  {
    PendingRecords(s.hash(content), content[..k]);
  }

  /** A file whose size is a multiple of the chunk size is never completed, however often the
      download is resumed; nor is one whose content is all there without the final Close. */
  lemma NeverCompletes(s: Setup, content: bytes, started: bool, k: nat, sessions: seq<Session>)
    requires ValidSetup(s) && Sized(content) && Steady(s, content, sessions)
    requires k <= |content| && (!started ==> k == 0)
    requires || (|content| % ChunkOf(s, content) == 0 && (|content| - k) % ChunkOf(s, content) == 0)
             || (started && k == |content|)
    ensures !RunSessions(s, FileAt(s, content, started, k), sessions).1
  {
    hide ChunkOf, RunSession, RunSessions;
    var started', k' := SteadyProgress(s, content, FileAt(s, content, started, k), started, k, sessions);
  }
}
