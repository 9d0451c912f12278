/** BRFT messages and their bytes: what the encoders write and what the decoders accept
    (brft/messages). Numbers are big-endian; strings are byte sequences. */
module Messages {
  import opened Prelude

  type uint16 = n: nat | n < 0x1_0000

  type uint64 = n: nat | n < 0x1_0000_0000_0000_0000

  type StreamID = uint16

  const HEADER_TYPE_COMPRESSION_REQ: byte := 1
  const HEADER_TYPE_COMPRESSION_RESP: byte := 2

  /** `length` is the value of the length field, which does not count itself. */
  datatype OptionalHeader =
    | CompressionReq(length: byte, algorithm: byte, multiplier: byte)
    | CompressionResp(length: byte, status: byte)
    | UnknownHeader(length: byte, headerType: byte, content: bytes)

  datatype FileReqFlag = Resumption

  datatype MetaItem = MetaItem(fileName: bytes, fileSize: Option<uint64>, checksum: bytes)

  datatype Message =
    | FileReq(streamId: StreamID, flags: seq<FileReqFlag>, headers: seq<OptionalHeader>,
              fileName: bytes, checksum: bytes)
    | FileResp(status: byte, respHeaders: seq<OptionalHeader>, respId: StreamID, fileSize: uint64,
               respChecksum: bytes)
    | Data(dataId: StreamID, data: bytes)
    | StartTransmission(startId: StreamID, startChecksum: bytes, offset: uint64)
    | Close(closeId: StreamID, reason: byte)
    | MetaReq(metaName: bytes)
    | MetaResp(items: seq<MetaItem>, extended: bool)

  const VERSION_BRFT_V0: byte := 32

  const CLOSE_UNDEFINED: byte := 0
  const CLOSE_TRANSFER_COMPLETE: byte := 1
  const CLOSE_CHECKSUM_INVALID: byte := 2
  const CLOSE_INVALID_OFFSET: byte := 3
  const CLOSE_RESUME_NO_CHECKSUM: byte := 6
  const CLOSE_FILE_NOT_FOUND: byte := 7
  const CLOSE_UNSUPPORTED_HEADER: byte := 8
  const CLOSE_UNEXPECTED_HEADER: byte := 9

  function TypeOf(m: Message): (t: byte)
    ensures 1 <= t <= 7
  {
    match m
    case FileReq(_, _, _, _, _) => 1
    case FileResp(_, _, _, _, _) => 2
    case Data(_, _) => 3
    case StartTransmission(_, _, _) => 4
    case Close(_, _) => 5
    case MetaReq(_) => 6
    case MetaResp(_, _) => 7
  }

  // ---------------------------------------------------------------- numbers

  function Power256(k: nat): (p: nat)
    ensures p > 0
  {
    if k == 0 then 1 else 256 * Power256(k - 1)
  }

  /** The `k` low-order bytes of `n`, most significant first. */
  function BigEndian(n: nat, k: nat): (r: bytes)
    ensures |r| == k
    decreases k
  {
    if k == 0 then [] else BigEndian(n / 256, k - 1) + [n % 256]
  }

  function FromBigEndian(b: bytes): (n: nat)
    ensures n < Power256(|b|)
  {
    if b == [] then 0 else 256 * FromBigEndian(b[..|b| - 1]) + b[|b| - 1]
  }

  lemma {:induction false} BigEndianRoundTrip(n: nat, k: nat)
    requires n < Power256(k)
    ensures FromBigEndian(BigEndian(n, k)) == n
    decreases k
  {
    if k == 0 {
    } else {
      var high := BigEndian(n / 256, k - 1);
      assert BigEndian(n, k)[..k - 1] == high;
      BigEndianRoundTrip(n / 256, k - 1);
    }
  }

  lemma Powers()
    ensures Power256(1) == 0x100 && Power256(2) == 0x1_0000 && Power256(3) == 0x100_0000
    ensures Power256(8) == 0x1_0000_0000_0000_0000
  {
    assert Power256(4) == 256 * Power256(3);
    assert Power256(6) == 256 * Power256(5);
  }

  // --------------------------------------------------------------- encoding

  datatype EncodeError = InvalidChecksumLength | InvalidFileName | TooMany | BufferExceeded | InconsistentItem

  function Prefixed(b: bytes): bytes
    requires |b| < 256
  {
    [|b|] + b
  }

  /** A header is written into a buffer of 1 + length bytes (computed in 8 bits). */
  function EncodeHeader(h: OptionalHeader): Result<bytes, EncodeError>
  {
    var content :=
      match h
      case CompressionReq(_, algorithm, multiplier) => [HEADER_TYPE_COMPRESSION_REQ, algorithm, multiplier]
      case CompressionResp(_, status) => [HEADER_TYPE_COMPRESSION_RESP, status]
      case UnknownHeader(_, t, c) => [t] + c;
    if 1 + |content| > (1 + h.length) % 256 then Err(BufferExceeded) else Ok([h.length] + content)
  }

  function EncodeHeaderList(hs: seq<OptionalHeader>): Result<bytes, EncodeError>
  {
    if hs == [] then Ok([]) else
      var last := |hs| - 1;
      match EncodeHeaderList(hs[..last])
      case Err(e) => Err(e)
      case Ok(before) =>
        match EncodeHeader(hs[last])
        case Err(e) => Err(e)
        case Ok(b) => Ok(before + b)
  }

  /** The number of headers followed by the headers. */
  function EncodeHeaders(hs: seq<OptionalHeader>): Result<bytes, EncodeError>
  {
    if |hs| > 255 then Err(TooMany) else
      match EncodeHeaderList(hs)
      case Err(e) => Err(e)
      case Ok(b) => Ok([|hs|] + b)
  }

  function EncodeItem(i: MetaItem): Result<bytes, EncodeError>
  {
    if |i.fileName| > 255 || |i.fileName| == 0 then Err(InvalidFileName)
    else if i.fileSize.None? != (|i.checksum| == 0) then Err(InconsistentItem)
    else if i.fileSize.None? then Ok(Prefixed(i.fileName))
    else if |i.checksum| != CHECKSUM_SIZE then Err(InvalidChecksumLength)
    else Ok(Prefixed(i.fileName) + BigEndian(i.fileSize.value, 8) + i.checksum)
  }

  function EncodeItems(items: seq<MetaItem>): Result<bytes, EncodeError>
  {
    if items == [] then Ok([]) else
      var last := |items| - 1;
      match EncodeItems(items[..last])
      case Err(e) => Err(e)
      case Ok(before) =>
        match EncodeItem(items[last])
        case Err(e) => Err(e)
        case Ok(b) => Ok(before + b)
  }

  function Zeros(n: nat): (r: bytes)
    ensures |r| == n
  {
    seq(n, _ => 0)
  }

  /** What the bytes of a message say about flags: the disjunction of all that are set. */
  function FlagByte(flags: seq<FileReqFlag>): byte
  {
    if flags == [] then 0 else 1
  }

  function Header(m: Message): bytes
  {
    [VERSION_BRFT_V0 + TypeOf(m)]
  }

  function Encode(m: Message): Result<bytes, EncodeError>
  {
    match m
    case FileReq(id, flags, headers, name, checksum) =>
      var sum := if checksum == [] then Zeros(CHECKSUM_SIZE) else checksum;
      if |sum| != CHECKSUM_SIZE then Err(InvalidChecksumLength)
      else if |name| > 255 then Err(InvalidFileName)
      else (match EncodeHeaders(headers)
            case Err(e) => Err(e)
            case Ok(hs) => Ok(Header(m) + BigEndian(id, 2) + [FlagByte(flags)] + hs + Prefixed(name) + sum))
    case FileResp(status, headers, id, size, sum) =>
      if |sum| != CHECKSUM_SIZE then Err(InvalidChecksumLength)
      else (match EncodeHeaders(headers)
            case Err(e) => Err(e)
            case Ok(hs) => Ok(Header(m) + [status] + hs + BigEndian(id, 2) + BigEndian(size, 8) + sum))
    case Data(id, data) =>
      Ok(Header(m) + BigEndian(id, 2) + BigEndian(|data|, 3) + data)
    case StartTransmission(id, sum, offset) =>
      if |sum| > CHECKSUM_SIZE then Err(BufferExceeded)
      else Ok(Header(m) + BigEndian(id, 2) + sum + BigEndian(offset, 8))
    case Close(id, reason) => Ok(Header(m) + BigEndian(id, 2) + [reason])
    case MetaReq(name) =>
      if |name| > 255 then Err(InvalidFileName) else Ok(Header(m) + Prefixed(name))
    case MetaResp(items, extended) =>
      if |items| > 255 then Err(TooMany)
      else (match EncodeItems(items)
            case Err(e) => Err(e)
            case Ok(b) => Ok(Header(m) + [|items|] + [if extended then 1 else 0] + b))
  }

  // --------------------------------------------------------------- decoding

  /** A parse that is done, that lacks bytes, or that meets bytes no message has. */
  datatype Parsed<+T> = Done(value: T, rest: bytes) | Short | Invalid
  {
    predicate IsFailure() { !Done? }

    function PropagateFailure<U>(): Parsed<U>
      requires !Done?
    {
      if Short? then Short else Invalid
    }

    function Extract(): (T, bytes)
      requires Done?
    {
      (value, rest)
    }
  }

  function Read(s: bytes, n: nat): (p: Parsed<bytes>)
    ensures p.Done? ==> |p.rest| <= |s|
  {
    if |s| < n then Short else Done(s[..n], s[n..])
  }

  function ReadUint(s: bytes, n: nat): (p: Parsed<nat>)
    ensures p.Done? ==> p.value < Power256(n) && |p.rest| <= |s|
  {
    var (b, r) :- Read(s, n);
    Done(FromBigEndian(b), r)
  }

  function ReadByte(s: bytes): (p: Parsed<byte>)
    ensures p.Done? ==> |p.rest| < |s|
  {
    var (b, r) :- Read(s, 1);
    Done(b[0], r)
  }

  function ReadUint16(s: bytes): (p: Parsed<uint16>)
    ensures p.Done? ==> |p.rest| <= |s|
  {
    var (b, r) :- Read(s, 2);
    var high: nat, low: nat := b[0], b[1];
    Done(256 * high + low, r)
  }

  function ReadUint64(s: bytes): (p: Parsed<uint64>)
    ensures p.Done? ==> |p.rest| <= |s|
  {
    var (n, r) :- ReadUint(s, 8);
    Powers();
    Done(n, r)
  }

  /** A value preceded by its length in one byte. */
  function ReadPrefixed(s: bytes): (p: Parsed<bytes>)
    ensures p.Done? ==> |p.rest| <= |s|
  {
    var (n, r) :- ReadByte(s);
    Read(r, n)
  }

  /** The compression headers are read without looking at the length; an unknown one has
      `length` bytes after its type. */
  function ReadContent(s: bytes, length: byte, t: byte): (p: Parsed<OptionalHeader>)
    ensures p.Done? ==> |p.rest| <= |s|
  {
    if t == 0 then Invalid
    else if t == HEADER_TYPE_COMPRESSION_REQ then
      var (algorithm, r) :- ReadByte(s);
      var (multiplier, r) :- ReadByte(r);
      Done(CompressionReq(length, algorithm, multiplier), r)
    else if t == HEADER_TYPE_COMPRESSION_RESP then
      var (status, r) :- ReadByte(s);
      Done(CompressionResp(length, status), r)
    else
      var (c, r) :- Read(s, length);
      Done(UnknownHeader(length, t, c), r)
  }

  function ReadHeader(s: bytes): (p: Parsed<OptionalHeader>)
    ensures p.Done? ==> |p.rest| <= |s|
  {
    var (length, r) :- ReadByte(s);
    var (t, r) :- ReadByte(r);
    ReadContent(r, length, t)
  }

  function ReadHeaderList(s: bytes, n: nat): (p: Parsed<seq<OptionalHeader>>)
    ensures p.Done? ==> |p.rest| <= |s|
    decreases n
  {
    if n == 0 then Done([], s) else
      var (h, r) :- ReadHeader(s);
      var (hs, r) :- ReadHeaderList(r, n - 1);
      Done([h] + hs, r)
  }

  function ReadHeaders(s: bytes): (p: Parsed<seq<OptionalHeader>>)
    ensures p.Done? ==> |p.rest| <= |s|
  {
    var (n, r) :- ReadByte(s);
    ReadHeaderList(r, n)
  }

  function ReadItem(s: bytes, extended: bool): (p: Parsed<MetaItem>)
    ensures p.Done? ==> |p.rest| <= |s|
  {
    var (name, r) :- ReadPrefixed(s);
    if !extended then Done(MetaItem(name, None, []), r) else
      var (size, r) :- ReadUint64(r);
      var (sum, r) :- Read(r, CHECKSUM_SIZE);
      Done(MetaItem(name, Some(size), sum), r)
  }

  function ReadItems(s: bytes, n: nat, extended: bool): (p: Parsed<seq<MetaItem>>)
    ensures p.Done? ==> |p.rest| <= |s|
    decreases n
  {
    if n == 0 then Done([], s) else
      var (i, r) :- ReadItem(s, extended);
      var (others, r) :- ReadItems(r, n - 1, extended);
      Done([i] + others, r)
  }

  /** Known flags are split off; any other bit is an error. */
  function SplitFlags(b: byte): Option<seq<FileReqFlag>>
  {
    var rest := b - b % 2;
    if rest > 0 then None else Some(if b % 2 == 1 then [Resumption] else [])
  }

  function ReadFileReq(s: bytes): (p: Parsed<Message>)
    ensures p.Done? ==> |p.rest| <= |s|
  {
    var (id, r) :- ReadUint16(s);
    var (joined, r) :- ReadByte(r);
    if SplitFlags(joined).None? then Invalid else
      var (headers, r) :- ReadHeaders(r);
      var (name, r) :- ReadPrefixed(r);
      var (sum, r) :- Read(r, CHECKSUM_SIZE);
      Done(FileReq(id, SplitFlags(joined).value, headers, name, sum), r)
  }

  function ReadFileResp(s: bytes): (p: Parsed<Message>)
    ensures p.Done? ==> |p.rest| <= |s|
  {
    var (status, r) :- ReadByte(s);
    var (headers, r) :- ReadHeaders(r);
    var (id, r) :- ReadUint16(r);
    var (size, r) :- ReadUint64(r);
    var (sum, r) :- Read(r, CHECKSUM_SIZE);
    Done(FileResp(status, headers, id, size, sum), r)
  }

  function ReadData(s: bytes): (p: Parsed<Message>)
    ensures p.Done? ==> |p.rest| <= |s|
  {
    var (id, r) :- ReadUint16(s);
    var (n, r) :- ReadUint(r, 3);
    var (data, r) :- Read(r, n);
    Done(Data(id, data), r)
  }

  function ReadStart(s: bytes): (p: Parsed<Message>)
    ensures p.Done? ==> |p.rest| <= |s|
  {
    var (id, r) :- ReadUint16(s);
    var (sum, r) :- Read(r, CHECKSUM_SIZE);
    var (offset, r) :- ReadUint64(r);
    Done(StartTransmission(id, sum, offset), r)
  }

  function ReadClose(s: bytes): (p: Parsed<Message>)
    ensures p.Done? ==> |p.rest| <= |s|
  {
    var (id, r) :- ReadUint16(s);
    var (reason, r) :- ReadByte(r);
    Done(Close(id, reason), r)
  }

  function ReadMetaReq(s: bytes): (p: Parsed<Message>)
    ensures p.Done? ==> |p.rest| <= |s|
  {
    var (name, r) :- ReadPrefixed(s);
    Done(MetaReq(name), r)
  }

  function ReadMetaResp(s: bytes): (p: Parsed<Message>)
    ensures p.Done? ==> |p.rest| <= |s|
  {
    var (n, r) :- ReadByte(s);
    var (e, r) :- ReadByte(r);
    var (items, r) :- ReadItems(r, n, e % 2 == 1);
    Done(MetaResp(items, e % 2 == 1), r)
  }

  function ReadBody(t: byte, s: bytes): (p: Parsed<Message>)
    ensures p.Done? ==> |p.rest| <= |s|
  {
    match t
    case 1 => ReadFileReq(s)
    case 2 => ReadFileResp(s)
    case 3 => ReadData(s)
    case 4 => ReadStart(s)
    case 5 => ReadClose(s)
    case 6 => ReadMetaReq(s)
    case 7 => ReadMetaResp(s)
    case _ => Invalid
  }

  /** The low five bits of the first byte are the type; an unsupported version is only logged. */
  function ReadMessage(s: bytes): (p: Parsed<Message>)
    ensures p.Done? ==> |p.rest| < |s|
  {
    var (b, r) :- ReadByte(s);
    ReadBody(b % 32, r)
  }
}
