/** The encoders and decoders as they run: a builder of fixed capacity that is appended to, and a
    reader that advances over the byte stream (brft/messages, cyberbyte/string.go). */
module Codec {
  import opened Prelude
  import opened Messages

  /** A buffer whose capacity was computed beforehand; exceeding it makes the result an error. */
  class FixedBuilder {
    var buf: bytes
    const capacity: nat
    var exceeded: bool

    constructor (capacity: nat)
      ensures this.capacity == capacity && buf == [] && !exceeded
    {
      this.capacity := capacity;
      buf, exceeded := [], false;
    }

    /** Appends, unless the capacity does not suffice or did not suffice before. */
    method AddBytes(b: bytes)
      modifies this
      ensures exceeded == (old(exceeded) || |old(buf)| + |b| > capacity)
      ensures buf == if exceeded then old(buf) else old(buf) + b
    {
      if !exceeded {
        if |buf| + |b| > capacity {
          exceeded := true;
        } else {
          buf := buf + b;
        }
      }
    }

    /** Appends the `k` low-order bytes of `n`, most significant first. */
    method AddUint(n: nat, k: nat)
      modifies this
      ensures exceeded == (old(exceeded) || |old(buf)| + k > capacity)
      ensures buf == if exceeded then old(buf) else old(buf) + BigEndian(n, k)
    {
      var digits: bytes := [];
      var rest, left := n, k;
      while left > 0
        invariant 0 <= left <= k
        invariant BigEndian(rest, left) + digits == BigEndian(n, k)
        decreases left
      {
        assert BigEndian(rest, left) == BigEndian(rest / 256, left - 1) + [rest % 256];
        assert BigEndian(rest / 256, left - 1) + ([rest % 256] + digits) == BigEndian(rest, left) + digits;
        digits := [rest % 256] + digits;
        rest, left := rest / 256, left - 1;
      }
      AddBytes(digits);
    }

    method Bytes() returns (r: Result<bytes, EncodeError>)
      ensures r == if exceeded then Err(BufferExceeded) else Ok(buf)
    {
      r := if exceeded then Err(BufferExceeded) else Ok(buf);
    }
  }

  /** The fixed part of a message's size, without the first byte. */
  function BaseSize(m: Message): nat
  {
    match m
    case FileReq(_, _, _, name, _) => 2 + 1 + 1 + |name| + CHECKSUM_SIZE
    case FileResp(_, _, _, _, _) => 1 + 2 + 8 + CHECKSUM_SIZE
    case Data(_, data) => 2 + 3 + |data|
    case StartTransmission(_, _, _) => 2 + CHECKSUM_SIZE + 8
    case Close(_, _) => 2 + 1
    case MetaReq(name) => |name|
    case MetaResp(_, _) => 2
  }

  method NewMessageBuilder(m: Message, extra: nat) returns (b: FixedBuilder)
    ensures fresh(b) && b.capacity == 1 + BaseSize(m) + extra
    ensures b.buf == Header(m) && !b.exceeded
  {
    b := new FixedBuilder(1 + BaseSize(m) + extra);
    b.AddBytes([VERSION_BRFT_V0 + TypeOf(m)]);
  }

  method EncodeHeaderBytes(h: OptionalHeader) returns (r: Result<bytes, EncodeError>)
    ensures r == EncodeHeader(h)
  {
    var b := new FixedBuilder((1 + h.length) % 256);
    b.AddBytes([h.length]);
    match h {
      case CompressionReq(_, algorithm, multiplier) =>
        b.AddBytes([HEADER_TYPE_COMPRESSION_REQ]);
        b.AddBytes([algorithm]);
        b.AddBytes([multiplier]);
        assert !b.exceeded ==> b.buf == [h.length] + [HEADER_TYPE_COMPRESSION_REQ, algorithm, multiplier];
      case CompressionResp(_, status) =>
        b.AddBytes([HEADER_TYPE_COMPRESSION_RESP]);
        b.AddBytes([status]);
        assert !b.exceeded ==> b.buf == [h.length] + [HEADER_TYPE_COMPRESSION_RESP, status];
      case UnknownHeader(_, t, c) =>
        b.AddBytes([t]);
        b.AddBytes(c);
        assert !b.exceeded ==> b.buf == [h.length] + ([t] + c);
    }
    r := b.Bytes();
  }

  method MarshalOptionalHeaders(hs: seq<OptionalHeader>) returns (r: Result<bytes, EncodeError>)
    ensures r == EncodeHeaders(hs)
  {
    if |hs| > 255 {
      return Err(TooMany);
    }
    var b: bytes := [|hs|];
    ghost var list: bytes := [];
    var i := 0;
    while i < |hs|
      invariant 0 <= i <= |hs|
      invariant EncodeHeaderList(hs[..i]) == Ok(list) && b == [|hs|] + list
    {
      var hb := EncodeHeaderBytes(hs[i]);
      assert hs[..i + 1][..i] == hs[..i];
      if hb.Err? {
        HeaderErrorStays(hs, i + 1);
        return Err(hb.error);
      }
      b := b + hb.value;
      list := list + hb.value;
      i := i + 1;
    }
    assert hs[..|hs|] == hs;
    return Ok(b);
  }

  /** The first header that fails decides the error. */
  lemma {:induction false} HeaderErrorStays(hs: seq<OptionalHeader>, i: nat)
    requires i <= |hs| && EncodeHeaderList(hs[..i]).Err?
    ensures EncodeHeaderList(hs) == EncodeHeaderList(hs[..i])
    decreases |hs|
  {
    if i < |hs| {
      assert hs[..|hs| - 1][..i] == hs[..i];
      HeaderErrorStays(hs[..|hs| - 1], i);
    } else {
      assert hs[..i] == hs;
    }
  }

  method EncodeMetaItem(m: MetaItem) returns (r: Result<bytes, EncodeError>)
    ensures r == EncodeItem(m)
  {
    if |m.fileName| > 255 {
      return Err(InvalidFileName);
    } else if |m.fileName| == 0 {
      return Err(InvalidFileName);
    }
    var outLen := 1 + |m.fileName|;
    var extended := false;
    if m.fileSize.Some? && |m.checksum| != 0 {
      extended := true;
      outLen := outLen + 8 + CHECKSUM_SIZE;
    }
    if m.fileSize.None? != (|m.checksum| == 0) {
      return Err(InconsistentItem);
    }
    var b := new FixedBuilder(outLen);
    b.AddBytes(Prefixed(m.fileName));
    assert b.buf == Prefixed(m.fileName);
    if !extended {
      r := b.Bytes();
      return;
    }
    b.AddUint(m.fileSize.value, 8);
    if |m.checksum| != CHECKSUM_SIZE {
      return Err(InvalidChecksumLength);
    }
    b.AddBytes(m.checksum);
    r := b.Bytes();
  }

  lemma {:induction false} ItemErrorStays(items: seq<MetaItem>, i: nat)
    requires i <= |items| && EncodeItems(items[..i]).Err?
    ensures EncodeItems(items) == EncodeItems(items[..i])
    decreases |items|
  {
    if i < |items| {
      assert items[..|items| - 1][..i] == items[..i];
      ItemErrorStays(items[..|items| - 1], i);
    } else {
      assert items[..i] == items;
    }
  }

  method EncodeMetaItems(items: seq<MetaItem>) returns (r: Result<bytes, EncodeError>)
    ensures r == EncodeItems(items)
  {
    var all: bytes := [];
    var i := 0;
    while i < |items|
      invariant 0 <= i <= |items|
      invariant EncodeItems(items[..i]) == Ok(all)
    {
      var b := EncodeMetaItem(items[i]);
      assert items[..i + 1][..i] == items[..i];
      if b.Err? {
        ItemErrorStays(items, i + 1);
        return Err(b.error);
      }
      all := all + b.value;
      i := i + 1;
    }
    assert items[..|items|] == items;
    return Ok(all);
  }

  method EncodeFileReq(m: Message) returns (r: Result<bytes, EncodeError>)
    requires m.FileReq?
    ensures r == Encode(m)
  {
    hide EncodeHeaders, BigEndian;
    var checksum := m.checksum;
    if |checksum| == 0 {
      checksum := Zeros(CHECKSUM_SIZE);
    }
    if |checksum| != CHECKSUM_SIZE {
      return Err(InvalidChecksumLength);
    }
    if |m.fileName| > 255 {
      return Err(InvalidFileName);
    }
    var hs := MarshalOptionalHeaders(m.headers);
    if hs.Err? {
      return Err(hs.error);
    }
    var flags: byte := 0;
    var i := 0;
    while i < |m.flags|
      invariant 0 <= i <= |m.flags|
      invariant flags == if i == 0 then 0 else 1
    {
      flags := if flags % 2 == 1 then flags else flags + 1;
      i := i + 1;
    }
    var b := NewMessageBuilder(m, |hs.value|);
    b.AddUint(m.streamId, 2);
    b.AddBytes([flags]);
    b.AddBytes(hs.value);
    b.AddBytes(Prefixed(m.fileName));
    b.AddBytes(checksum);
    r := b.Bytes();
  }

  method EncodeFileResp(m: Message) returns (r: Result<bytes, EncodeError>)
    requires m.FileResp?
    ensures r == Encode(m)
  {
    hide EncodeHeaders, BigEndian;
    if |m.respChecksum| != CHECKSUM_SIZE {
      return Err(InvalidChecksumLength);
    }
    var hs := MarshalOptionalHeaders(m.respHeaders);
    if hs.Err? {
      return Err(hs.error);
    }
    var b := NewMessageBuilder(m, |hs.value|);
    b.AddBytes([m.status]);
    b.AddBytes(hs.value);
    b.AddUint(m.respId, 2);
    b.AddUint(m.fileSize, 8);
    b.AddBytes(m.respChecksum);
    r := b.Bytes();
  }

  method EncodeMetaResp(m: Message) returns (r: Result<bytes, EncodeError>)
    requires m.MetaResp?
    ensures r == Encode(m)
  {
    hide EncodeItems;
    if |m.items| > 255 {
      return Err(TooMany);
    }
    var items := EncodeMetaItems(m.items);
    if items.Err? {
      return Err(items.error);
    }
    var b := NewMessageBuilder(m, |items.value|);
    b.AddBytes([|m.items|]);
    b.AddBytes([if m.extended then 1 else 0]);
    b.AddBytes(items.value);
    r := b.Bytes();
  }

  /** Every encoder writes exactly the bytes of the specification, and none of them exceeds the
      capacity it reserved except for a StartTransmission with too long a checksum. */
  method EncodeMessage(m: Message) returns (r: Result<bytes, EncodeError>)
    ensures r == Encode(m)
  {
    hide EncodeHeaders, EncodeItems, BigEndian;
    match m
    case FileReq(_, _, _, _, _) =>
      r := EncodeFileReq(m);
    case FileResp(_, _, _, _, _) =>
      r := EncodeFileResp(m);
    case Data(id, data) =>
      var b := NewMessageBuilder(m, 0);
      b.AddUint(id, 2);
      b.AddUint(|data|, 3);
      b.AddBytes(data);
      r := b.Bytes();
    case StartTransmission(id, sum, offset) =>
      var b := NewMessageBuilder(m, 0);
      b.AddUint(id, 2);
      b.AddBytes(sum);
      b.AddUint(offset, 8);
      r := b.Bytes();
    case Close(id, reason) =>
      var b := NewMessageBuilder(m, 0);
      b.AddUint(id, 2);
      b.AddBytes([reason]);
      r := b.Bytes();
    case MetaReq(name) =>
      if |name| > 255 {
        return Err(InvalidFileName);
      }
      var b := NewMessageBuilder(m, |name| + 1);
      b.AddBytes(Prefixed(name));
      r := b.Bytes();
    case MetaResp(_, _) =>
      r := EncodeMetaResp(m);
  }
}
