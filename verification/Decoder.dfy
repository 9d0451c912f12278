/** The decoders as they run: a reader that advances over the incoming bytes, and message fields
    that are filled one after another (cyberbyte/string.go, brft/messages, brft/conn.go). */
module Decoder {
  import opened Prelude
  import opened Messages

  /** Too few bytes, or bytes that no message has. */
  datatype DecodeError = ShortRead | BadBytes

  /** What a decoder returned and left, compared with the parse of what it was given. */
  ghost predicate Decodes<T>(r: Result<T, DecodeError>, rest: bytes, p: Parsed<T>)
  {
    match r
    case Ok(v) => p == Done(v, rest)
    case Err(ShortRead) => p.Short?
    case Err(BadBytes) => p.Invalid?
  }

  class ByteReader {
    var rest: bytes

    constructor (input: bytes)
      ensures rest == input
    {
      rest := input;
    }

    /** Reads exactly `n` bytes or none. */
    method Take(n: nat) returns (r: Result<bytes, DecodeError>)
      modifies this
      ensures Decodes(r, rest, Read(old(rest), n))
      ensures r.Err? ==> rest == old(rest)
    {
      if |rest| < n {
        return Err(ShortRead);
      }
      r := Ok(rest[..n]);
      rest := rest[n..];
    }

    /** A big-endian number of `n` bytes. */
    method TakeUint(n: nat) returns (r: Result<nat, DecodeError>)
      modifies this
      ensures Decodes(r, rest, ReadUint(old(rest), n))
    {
      var b := Take(n);
      if b.Err? {
        return Err(b.error);
      }
      var number: nat := 0;
      var i := 0;
      while i < n
        invariant 0 <= i <= n
        invariant number == FromBigEndian(b.value[..i])
      {
        assert b.value[..i + 1][..i] == b.value[..i];
        number := 256 * number + b.value[i];
        i := i + 1;
      }
      assert b.value[..n] == b.value;
      return Ok(number);
    }

    method TakeByte() returns (r: Result<byte, DecodeError>)
      modifies this
      ensures Decodes(r, rest, ReadByte(old(rest)))
    {
      var b := Take(1);
      r := if b.Ok? then Ok(b.value[0]) else Err(b.error);
    }

    method TakeUint16() returns (r: Result<uint16, DecodeError>)
      modifies this
      ensures Decodes(r, rest, ReadUint16(old(rest)))
    {
      var b := Take(2);
      if b.Err? {
        return Err(b.error);
      }
      var high: nat, low: nat := b.value[0], b.value[1];
      return Ok(256 * high + low);
    }

    method TakeUint64() returns (r: Result<uint64, DecodeError>)
      modifies this
      ensures Decodes(r, rest, ReadUint64(old(rest)))
    {
      var n := TakeUint(8);
      if n.Err? {
        return Err(n.error);
      }
      Powers();
      return Ok(n.value);
    }

    method TakePrefixed() returns (r: Result<bytes, DecodeError>)
      modifies this
      ensures Decodes(r, rest, ReadPrefixed(old(rest)))
    {
      var n := TakeByte();
      if n.Err? {
        return Err(n.error);
      }
      r := Take(n.value);
    }
  }

  method DecodeContent(s: ByteReader, length: byte, t: byte) returns (r: Result<OptionalHeader, DecodeError>)
    modifies s
    ensures Decodes(r, s.rest, ReadContent(old(s.rest), length, t))
  {
    if t == 0 {
      return Err(BadBytes);
    } else if t == HEADER_TYPE_COMPRESSION_REQ {
      var algorithm := s.TakeByte();
      if algorithm.Err? {
        return Err(algorithm.error);
      }
      var multiplier := s.TakeByte();
      if multiplier.Err? {
        return Err(multiplier.error);
      }
      return Ok(CompressionReq(length, algorithm.value, multiplier.value));
    } else if t == HEADER_TYPE_COMPRESSION_RESP {
      var status := s.TakeByte();
      if status.Err? {
        return Err(status.error);
      }
      return Ok(CompressionResp(length, status.value));
    }
    var c := s.Take(length);
    if c.Err? {
      return Err(c.error);
    }
    return Ok(UnknownHeader(length, t, c.value));
  }

  method DecodeHeader(s: ByteReader) returns (r: Result<OptionalHeader, DecodeError>)
    modifies s
    ensures Decodes(r, s.rest, ReadHeader(old(s.rest)))
  {
    hide ReadByte, ReadContent;
    var length := s.TakeByte();
    if length.Err? {
      return Err(length.error);
    }
    var t := s.TakeByte();
    if t.Err? {
      return Err(t.error);
    }
    r := DecodeContent(s, length.value, t.value);
  }

  /** Appending what is read to a list reads the whole list. */
  ghost predicate ListSoFar<T>(start: Parsed<seq<T>>, done: seq<T>, now: Parsed<seq<T>>)
  {
    && (now.Done? ==> start == Done(done + now.value, now.rest))
    && (now.Short? ==> start.Short?)
    && (now.Invalid? ==> start.Invalid?)
  }

  lemma ListStart<T>(p: Parsed<seq<T>>)
    ensures ListSoFar(p, [], p)
  {
    if p.Done? {
      assert [] + p.value == p.value;
    }
  }

  /** The list parse `now` puts `x` before what the parse `more` of the remaining input yields. */
  lemma ListStep<T>(start: Parsed<seq<T>>, done: seq<T>, now: Parsed<seq<T>>, x: T, more: Parsed<seq<T>>)
    requires ListSoFar(start, done, now)
    requires now == match more case Done(v, rest) => Done([x] + v, rest) case Short => Short case Invalid => Invalid
    ensures ListSoFar(start, done + [x], more)
  {
    if more.Done? {
      assert done + ([x] + more.value) == (done + [x]) + more.value;
    }
  }

  method DecodeHeaders(s: ByteReader) returns (r: Result<seq<OptionalHeader>, DecodeError>)
    modifies s
    ensures Decodes(r, s.rest, ReadHeaders(old(s.rest)))
  {
    hide ReadByte, ReadHeader;
    var numHeaders := s.TakeByte();
    if numHeaders.Err? {
      return Err(numHeaders.error);
    }
    ghost var all := ReadHeaderList(s.rest, numHeaders.value);
    var headers: seq<OptionalHeader> := [];
    var n := 0;
    ListStart(all);
    while n < numHeaders.value
      invariant 0 <= n <= numHeaders.value
      invariant ListSoFar(all, headers, ReadHeaderList(s.rest, numHeaders.value - n))
    {
      ghost var now := ReadHeaderList(s.rest, numHeaders.value - n);
      var h := DecodeHeader(s);
      if h.Err? {
        return Err(h.error);
      }
      ListStep(all, headers, now, h.value, ReadHeaderList(s.rest, numHeaders.value - n - 1));
      headers := headers + [h.value];
      n := n + 1;
    }
    assert headers + [] == headers;
    return Ok(headers);
  }

  method DecodeItem(s: ByteReader, extended: bool) returns (r: Result<MetaItem, DecodeError>)
    modifies s
    ensures Decodes(r, s.rest, ReadItem(old(s.rest), extended))
  {
    hide ReadPrefixed, ReadUint64;
    var name := s.TakePrefixed();
    if name.Err? {
      return Err(name.error);
    }
    if !extended {
      return Ok(MetaItem(name.value, None, []));
    }
    var size := s.TakeUint64();
    if size.Err? {
      return Err(size.error);
    }
    var sum := s.Take(CHECKSUM_SIZE);
    if sum.Err? {
      return Err(sum.error);
    }
    return Ok(MetaItem(name.value, Some(size.value), sum.value));
  }

  method DecodeFileReq(s: ByteReader) returns (r: Result<Message, DecodeError>)
    modifies s
    ensures Decodes(r, s.rest, ReadFileReq(old(s.rest)))
  {
    hide ReadByte, ReadUint16, ReadHeaders, ReadPrefixed, Read;
    var id := s.TakeUint16();
    if id.Err? {
      return Err(id.error);
    }
    var joined := s.TakeByte();
    if joined.Err? {
      return Err(joined.error);
    }
    var flags: seq<FileReqFlag>, unknown := [], joined.value;
    if unknown % 2 == 1 {
      flags := flags + [Resumption];
      unknown := unknown - 1;
    }
    assert flags == if joined.value % 2 == 1 then [Resumption] else [];
    if unknown > 0 {
      return Err(BadBytes);
    }
    var headers := DecodeHeaders(s);
    if headers.Err? {
      return Err(headers.error);
    }
    var name := s.TakePrefixed();
    if name.Err? {
      return Err(name.error);
    }
    var sum := s.Take(CHECKSUM_SIZE);
    if sum.Err? {
      return Err(sum.error);
    }
    return Ok(FileReq(id.value, flags, headers.value, name.value, sum.value));
  }

  method DecodeFileResp(s: ByteReader) returns (r: Result<Message, DecodeError>)
    modifies s
    ensures Decodes(r, s.rest, ReadFileResp(old(s.rest)))
  {
    hide ReadByte, ReadUint16, ReadUint64, ReadHeaders, Read;
    var status := s.TakeByte();
    if status.Err? {
      return Err(status.error);
    }
    var headers := DecodeHeaders(s);
    if headers.Err? {
      return Err(headers.error);
    }
    var id := s.TakeUint16();
    if id.Err? {
      return Err(id.error);
    }
    var size := s.TakeUint64();
    if size.Err? {
      return Err(size.error);
    }
    var sum := s.Take(CHECKSUM_SIZE);
    if sum.Err? {
      return Err(sum.error);
    }
    return Ok(FileResp(status.value, headers.value, id.value, size.value, sum.value));
  }

  method DecodeData(s: ByteReader) returns (r: Result<Message, DecodeError>)
    modifies s
    ensures Decodes(r, s.rest, ReadData(old(s.rest)))
  {
    hide ReadUint16, ReadUint, Read;
    var id := s.TakeUint16();
    if id.Err? {
      return Err(id.error);
    }
    var length := s.TakeUint(3);
    if length.Err? {
      return Err(length.error);
    }
    var data := s.Take(length.value);
    if data.Err? {
      return Err(data.error);
    }
    return Ok(Data(id.value, data.value));
  }

  method DecodeStart(s: ByteReader) returns (r: Result<Message, DecodeError>)
    modifies s
    ensures Decodes(r, s.rest, ReadStart(old(s.rest)))
  {
    hide ReadUint16, ReadUint64, Read;
    var id := s.TakeUint16();
    if id.Err? {
      return Err(id.error);
    }
    var sum := s.Take(CHECKSUM_SIZE);
    if sum.Err? {
      return Err(sum.error);
    }
    var offset := s.TakeUint64();
    if offset.Err? {
      return Err(offset.error);
    }
    return Ok(StartTransmission(id.value, sum.value, offset.value));
  }

  method DecodeClose(s: ByteReader) returns (r: Result<Message, DecodeError>)
    modifies s
    ensures Decodes(r, s.rest, ReadClose(old(s.rest)))
  {
    hide ReadUint16, ReadByte;
    var id := s.TakeUint16();
    if id.Err? {
      return Err(id.error);
    }
    var reason := s.TakeByte();
    if reason.Err? {
      return Err(reason.error);
    }
    return Ok(Close(id.value, reason.value));
  }

  method DecodeMetaReq(s: ByteReader) returns (r: Result<Message, DecodeError>)
    modifies s
    ensures Decodes(r, s.rest, ReadMetaReq(old(s.rest)))
  {
    hide ReadPrefixed;
    var name := s.TakePrefixed();
    if name.Err? {
      return Err(name.error);
    }
    return Ok(MetaReq(name.value));
  }

  method DecodeMetaResp(s: ByteReader) returns (r: Result<Message, DecodeError>)
    modifies s
    ensures Decodes(r, s.rest, ReadMetaResp(old(s.rest)))
  {
    hide ReadByte, ReadItem;
    var numItems := s.TakeByte();
    if numItems.Err? {
      return Err(numItems.error);
    }
    var extendedByte := s.TakeByte();
    if extendedByte.Err? {
      return Err(extendedByte.error);
    }
    var extended := extendedByte.value % 2 == 1;
    ghost var all := ReadItems(s.rest, numItems.value, extended);
    var items: seq<MetaItem> := [];
    var i := 0;
    ListStart(all);
    while i < numItems.value
      invariant 0 <= i <= numItems.value
      invariant ListSoFar(all, items, ReadItems(s.rest, numItems.value - i, extended))
    {
      ghost var now := ReadItems(s.rest, numItems.value - i, extended);
      var item := DecodeItem(s, extended);
      if item.Err? {
        return Err(item.error);
      }
      ListStep(all, items, now, item.value, ReadItems(s.rest, numItems.value - i - 1, extended));
      items := items + [item.value];
      i := i + 1;
    }
    assert items + [] == items;
    return Ok(MetaResp(items, extended));
  }

  /** Reads the first byte, picks the decoder by its type bits, and decodes the rest. */
  method ReadMsg(s: ByteReader) returns (r: Result<Message, DecodeError>)
    modifies s
    ensures Decodes(r, s.rest, ReadMessage(old(s.rest)))
  {
    hide ReadByte, ReadFileReq, ReadFileResp, ReadData, ReadStart, ReadClose, ReadMetaReq, ReadMetaResp;
    var b := s.TakeByte();
    if b.Err? {
      return Err(b.error);
    }
    match b.value % 32 {
      case 1 => r := DecodeFileReq(s);
      case 2 => r := DecodeFileResp(s);
      case 3 => r := DecodeData(s);
      case 4 => r := DecodeStart(s);
      case 5 => r := DecodeClose(s);
      case 6 => r := DecodeMetaReq(s);
      case 7 => r := DecodeMetaResp(s);
      case _ => r := Err(BadBytes);
    }
  }
}
