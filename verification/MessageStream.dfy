/** The message stream delimits itself: encoded messages parse back one after another, whatever
    follows them, and a stream cut anywhere yields exactly the messages it holds completely. */
module MessageStream {
  import opened Prelude
  import opened Messages

  // ------------------------------------------------------------ well-formed

  /** The headers that the implementation knows, with a length field that has room for them. */
  predicate CanonicalHeader(h: OptionalHeader)
  {
    match h
    case CompressionReq(length, _, _) => 3 <= length < 255
    case CompressionResp(length, _) => 2 <= length < 255
    case UnknownHeader(_, _, _) => false
  }

  predicate CanonicalHeaders(hs: seq<OptionalHeader>)
  {
    |hs| <= 255 && forall i | 0 <= i < |hs| :: CanonicalHeader(hs[i])
  }

  predicate GoodItem(i: MetaItem, extended: bool)
  {
    && 0 < |i.fileName| <= 255
    && (if extended then i.fileSize.Some? && |i.checksum| == CHECKSUM_SIZE
        else i.fileSize.None? && i.checksum == [])
  }

  /** Messages whose encoding carries everything they say. */
  predicate WellFormed(m: Message)
  {
    match m
    case FileReq(_, _, headers, name, sum) =>
      CanonicalHeaders(headers) && |name| <= 255 && (sum == [] || |sum| == CHECKSUM_SIZE)
    case FileResp(_, headers, _, _, sum) => CanonicalHeaders(headers) && |sum| == CHECKSUM_SIZE
    case Data(_, data) => |data| < 0x100_0000
    case StartTransmission(_, sum, _) => |sum| == CHECKSUM_SIZE
    case Close(_, _) => true
    case MetaReq(name) => |name| <= 255
    case MetaResp(items, extended) =>
      |items| <= 255 && forall i | 0 <= i < |items| :: GoodItem(items[i], extended)
  }

  /** What arrives for a message: repeated flags are merged, a missing checksum is zeroed. */
  function Received(m: Message): Message
  {
    if m.FileReq? then
      m.(flags := if m.flags == [] then [] else [Resumption],
         checksum := if m.checksum == [] then Zeros(CHECKSUM_SIZE) else m.checksum)
    else m
  }

  // ------------------------------------------------------------- round trip

  lemma ReadExact(b: bytes, n: nat, rest: bytes)
    requires |b| == n
    ensures Read(b + rest, n) == Done(b, rest)
  {
    assert (b + rest)[..n] == b && (b + rest)[n..] == rest;
  }

  lemma ByteBack(b: byte, rest: bytes)
    ensures ReadByte([b] + rest) == Done(b, rest)
  {
    ReadExact([b], 1, rest);
  }

  lemma UintBack(n: nat, k: nat, rest: bytes)
    requires n < Power256(k)
    ensures ReadUint(BigEndian(n, k) + rest, k) == Done(n, rest)
  {
    ReadExact(BigEndian(n, k), k, rest);
    BigEndianRoundTrip(n, k);
  }

  lemma Uint16Back(n: uint16, rest: bytes)
    ensures ReadUint16(BigEndian(n, 2) + rest) == Done(n, rest)
  {
    var b := BigEndian(n, 2);
    ReadExact(b, 2, rest);
    assert b == BigEndian(n / 256, 1) + [n % 256];
    assert BigEndian(n / 256, 1) == BigEndian(n / 256 / 256, 0) + [n / 256 % 256];
    assert b[0] == n / 256 && b[1] == n % 256;
  }

  lemma Uint64Back(n: uint64, rest: bytes)
    ensures ReadUint64(BigEndian(n, 8) + rest) == Done(n, rest)
  {
    Powers();
    UintBack(n, 8, rest);
  }

  lemma PrefixedBack(b: bytes, rest: bytes)
    requires |b| < 256
    ensures ReadPrefixed(Prefixed(b) + rest) == Done(b, rest)
  {
    assert Prefixed(b) + rest == [|b|] + (b + rest);
    ByteBack(|b|, b + rest);
    ReadExact(b, |b|, rest);
  }

  lemma HeaderBack(h: OptionalHeader, rest: bytes)
    requires CanonicalHeader(h)
    ensures EncodeHeader(h).Ok?
    ensures ReadHeader(EncodeHeader(h).value + rest) == Done(h, rest)
  {
    var b := EncodeHeader(h).value;
    match h
    case CompressionReq(length, algorithm, multiplier) =>
      assert b + rest == [length] + ([1] + ([algorithm] + ([multiplier] + rest)));
      ByteBack(length, [1] + ([algorithm] + ([multiplier] + rest)));
      ByteBack(1, [algorithm] + ([multiplier] + rest));
      ByteBack(algorithm, [multiplier] + rest);
      ByteBack(multiplier, rest);
    case CompressionResp(length, status) =>
      assert b + rest == [length] + ([2] + ([status] + rest));
      ByteBack(length, [2] + ([status] + rest));
      ByteBack(2, [status] + rest);
      ByteBack(status, rest);
  }

  /** Encoding appends at the end, decoding takes from the front: the two meet. */
  lemma {:induction false} HeaderListCons(h: OptionalHeader, hs: seq<OptionalHeader>)
    requires EncodeHeader(h).Ok? && EncodeHeaderList(hs).Ok?
    ensures EncodeHeaderList([h] + hs) == Ok(EncodeHeader(h).value + EncodeHeaderList(hs).value)
    decreases |hs|
  {
    var all, last := [h] + hs, |hs| - 1;
    if hs == [] {
      assert all[..0] == [];
      assert [] + EncodeHeader(h).value == EncodeHeader(h).value + [];
    } else {
      assert all[..|hs|] == [h] + hs[..last];
      HeaderListCons(h, hs[..last]);
      var x, y, z := EncodeHeader(h).value, EncodeHeaderList(hs[..last]).value, EncodeHeader(hs[last]).value;
      assert (x + y) + z == x + (y + z);
    }
  }

  lemma {:induction false} HeaderListBack(hs: seq<OptionalHeader>, rest: bytes)
    requires forall i | 0 <= i < |hs| :: CanonicalHeader(hs[i])
    ensures EncodeHeaderList(hs).Ok?
    ensures ReadHeaderList(EncodeHeaderList(hs).value + rest, |hs|) == Done(hs, rest)
    decreases |hs|
  {
    hide CanonicalHeader, EncodeHeader, ReadHeader;
    if hs == [] {
      assert [] + rest == rest;
    } else {
      HeaderListBack(hs[1..], rest);
      var b := EncodeHeaderList(hs[1..]).value;
      HeaderBack(hs[0], b + rest);
      HeaderListCons(hs[0], hs[1..]);
      assert hs == [hs[0]] + hs[1..];
      assert EncodeHeader(hs[0]).value + b + rest == EncodeHeader(hs[0]).value + (b + rest);
    }
  }

  lemma HeadersBack(hs: seq<OptionalHeader>, rest: bytes)
    requires CanonicalHeaders(hs)
    ensures EncodeHeaders(hs).Ok?
    ensures ReadHeaders(EncodeHeaders(hs).value + rest) == Done(hs, rest)
  {
    HeaderListBack(hs, rest);
    var b := EncodeHeaderList(hs).value;
    assert EncodeHeaders(hs).value + rest == [|hs|] + (b + rest);
    ByteBack(|hs|, b + rest);
  }

  lemma ItemBack(i: MetaItem, extended: bool, rest: bytes)
    requires GoodItem(i, extended)
    ensures EncodeItem(i).Ok?
    ensures ReadItem(EncodeItem(i).value + rest, extended) == Done(i, rest)
  {
    if extended {
      ExtendedItemBack(i, rest);
    } else {
      hide Prefixed, ReadPrefixed;
      PrefixedBack(i.fileName, rest);
    }
  }

  lemma ExtendedItemBack(i: MetaItem, rest: bytes)
    requires GoodItem(i, true)
    ensures EncodeItem(i).Ok?
    ensures ReadItem(EncodeItem(i).value + rest, true) == Done(i, rest)
  {
    hide BigEndian, Prefixed, ReadPrefixed, ReadUint64, Read;
    var name, size := Prefixed(i.fileName), BigEndian(i.fileSize.value, 8);
    assert EncodeItem(i).value + rest == name + (size + (i.checksum + rest));
    PrefixedBack(i.fileName, size + (i.checksum + rest));
    Uint64Back(i.fileSize.value, i.checksum + rest);
    ReadExact(i.checksum, CHECKSUM_SIZE, rest);
  }

  lemma {:induction false} ItemsCons(i: MetaItem, items: seq<MetaItem>)
    requires EncodeItem(i).Ok? && EncodeItems(items).Ok?
    ensures EncodeItems([i] + items) == Ok(EncodeItem(i).value + EncodeItems(items).value)
    decreases |items|
  {
    hide EncodeItem;
    var all, last := [i] + items, |items| - 1;
    if items == [] {
      assert all[..0] == [];
      assert [] + EncodeItem(i).value == EncodeItem(i).value + [];
    } else {
      assert all[..|items|] == [i] + items[..last];
      ItemsCons(i, items[..last]);
      var x, y, z := EncodeItem(i).value, EncodeItems(items[..last]).value, EncodeItem(items[last]).value;
      assert (x + y) + z == x + (y + z);
    }
  }

  lemma {:induction false} ItemsBack(items: seq<MetaItem>, extended: bool, rest: bytes)
    requires forall i | 0 <= i < |items| :: GoodItem(items[i], extended)
    ensures EncodeItems(items).Ok?
    ensures ReadItems(EncodeItems(items).value + rest, |items|, extended) == Done(items, rest)
    decreases |items|
  {
    hide GoodItem, EncodeItem, ReadItem;
    if items == [] {
      assert [] + rest == rest;
    } else {
      ItemsBack(items[1..], extended, rest);
      var b := EncodeItems(items[1..]).value;
      ItemBack(items[0], extended, b + rest);
      ItemsCons(items[0], items[1..]);
      assert items == [items[0]] + items[1..];
      assert EncodeItem(items[0]).value + b + rest == EncodeItem(items[0]).value + (b + rest);
    }
  }

  lemma FileReqBack(m: Message, rest: bytes)
    requires m.FileReq? && WellFormed(m)
    ensures Encode(m).Ok?
    ensures ReadFileReq(Encode(m).value[1..] + rest) == Done(Received(m), rest)
  {
    hide ReadHeaders, EncodeHeaders, ReadPrefixed, Prefixed, BigEndian, ReadUint16, ReadByte, CanonicalHeaders;
    var sum := if m.checksum == [] then Zeros(CHECKSUM_SIZE) else m.checksum;
    HeadersBack(m.headers, Prefixed(m.fileName) + (sum + rest));
    var hs := EncodeHeaders(m.headers).value;
    var r3 := sum + rest;
    var r2 := hs + (Prefixed(m.fileName) + r3);
    var r1 := [FlagByte(m.flags)] + r2;
    assert Encode(m).value[1..] + rest == BigEndian(m.streamId, 2) + r1;
    Uint16Back(m.streamId, r1);
    ByteBack(FlagByte(m.flags), r2);
    PrefixedBack(m.fileName, r3);
    ReadExact(sum, CHECKSUM_SIZE, rest);
  }

  lemma FileRespBack(m: Message, rest: bytes)
    requires m.FileResp? && WellFormed(m)
    ensures Encode(m).Ok?
    ensures ReadFileResp(Encode(m).value[1..] + rest) == Done(m, rest)
  {
    hide ReadHeaders, EncodeHeaders, BigEndian, ReadUint16, ReadUint64, ReadByte, CanonicalHeaders;
    var r4 := m.respChecksum + rest;
    var r3 := BigEndian(m.fileSize, 8) + r4;
    var r2 := BigEndian(m.respId, 2) + r3;
    HeadersBack(m.respHeaders, r2);
    var r1 := EncodeHeaders(m.respHeaders).value + r2;
    assert Encode(m).value[1..] + rest == [m.status] + r1;
    ByteBack(m.status, r1);
    Uint16Back(m.respId, r3);
    Uint64Back(m.fileSize, r4);
    ReadExact(m.respChecksum, CHECKSUM_SIZE, rest);
  }

  lemma DataBack(m: Message, rest: bytes)
    requires m.Data? && WellFormed(m)
    ensures ReadData(Encode(m).value[1..] + rest) == Done(m, rest)
  {
    hide BigEndian, ReadUint16, ReadUint;
    var r2 := m.data + rest;
    var r1 := BigEndian(|m.data|, 3) + r2;
    assert Encode(m).value[1..] + rest == BigEndian(m.dataId, 2) + r1;
    Uint16Back(m.dataId, r1);
    Powers();
    UintBack(|m.data|, 3, r2);
    ReadExact(m.data, |m.data|, rest);
  }

  lemma StartBack(m: Message, rest: bytes)
    requires m.StartTransmission? && WellFormed(m)
    ensures ReadStart(Encode(m).value[1..] + rest) == Done(m, rest)
  {
    hide BigEndian, ReadUint16, ReadUint64;
    var r2 := BigEndian(m.offset, 8) + rest;
    var r1 := m.startChecksum + r2;
    assert Encode(m).value[1..] + rest == BigEndian(m.startId, 2) + r1;
    Uint16Back(m.startId, r1);
    ReadExact(m.startChecksum, CHECKSUM_SIZE, r2);
    Uint64Back(m.offset, rest);
  }

  lemma MetaRespBack(m: Message, rest: bytes)
    requires m.MetaResp? && WellFormed(m)
    ensures Encode(m).Ok?
    ensures ReadMetaResp(Encode(m).value[1..] + rest) == Done(m, rest)
  {
    hide EncodeItems, ReadItems, ReadByte, GoodItem;
    ItemsBack(m.items, m.extended, rest);
    var r2 := EncodeItems(m.items).value + rest;
    var flag: byte := if m.extended then 1 else 0;
    assert Encode(m).value[1..] + rest == [|m.items|] + ([flag] + r2);
    ByteBack(|m.items|, [flag] + r2);
    ByteBack(flag, r2);
  }

  /** The first byte carries the version in its high three bits and the type in the low five. */
  lemma FirstByte(m: Message)
    requires Encode(m).Ok?
    ensures Encode(m).value != []
    ensures Encode(m).value[0] % 32 == TypeOf(m)
    ensures Encode(m).value[0] - Encode(m).value[0] % 32 == VERSION_BRFT_V0
  {
    hide EncodeHeaders, EncodeItems, BigEndian, Prefixed;
    assert Encode(m).value[0] == VERSION_BRFT_V0 + TypeOf(m);
  }

  lemma BodyBack(m: Message, rest: bytes)
    requires WellFormed(m)
    ensures Encode(m).Ok? && Encode(m).value != []
    ensures ReadBody(TypeOf(m), Encode(m).value[1..] + rest) == Done(Received(m), rest)
  {
    hide EncodeHeaders, EncodeItems, BigEndian, Prefixed, ReadFileReq, ReadFileResp, ReadData, ReadStart, ReadMetaResp;
    match m
    case FileReq(_, _, _, _, _) => FileReqBack(m, rest);
    case FileResp(_, _, _, _, _) => FileRespBack(m, rest);
    case Data(_, _) => DataBack(m, rest);
    case StartTransmission(_, _, _) => StartBack(m, rest);
    case Close(id, reason) =>
      assert Encode(m).value[1..] + rest == BigEndian(id, 2) + ([reason] + rest);
      Uint16Back(id, [reason] + rest);
      ByteBack(reason, rest);
    case MetaReq(name) =>
      assert Encode(m).value[1..] + rest == Prefixed(name) + rest;
      PrefixedBack(name, rest);
    case MetaResp(_, _) => MetaRespBack(m, rest);
  }

  /** Reading an encoded message gives it back and consumes exactly its bytes. */
  lemma RoundTrip(m: Message, rest: bytes)
    requires WellFormed(m)
    ensures Encode(m).Ok?
    ensures ReadMessage(Encode(m).value + rest) == Done(Received(m), rest)
  {
    hide WellFormed, Encode, ReadBody, Received;
    BodyBack(m, rest);
    FirstByte(m);
    var b := Encode(m).value;
    assert b + rest == [b[0]] + (b[1..] + rest);
    ByteBack(b[0], b[1..] + rest);
  }

  // ----------------------------------------------- more bytes never change a parse

  /** `q`, the parse of the input followed by `y`, agrees with what `p` already decided. */
  ghost predicate Agrees<T>(p: Parsed<T>, q: Parsed<T>, y: bytes)
  {
    && (p.Done? ==> q == Done(p.value, p.rest + y))
    && (p.Invalid? ==> q.Invalid?)
  }

  lemma ReadExtends(s: bytes, n: nat, y: bytes)
    ensures Agrees(Read(s, n), Read(s + y, n), y)
  {
    if n <= |s| {
      assert (s + y)[..n] == s[..n] && (s + y)[n..] == s[n..] + y;
    }
  }

  lemma ByteExtends(s: bytes, y: bytes)
    ensures Agrees(ReadByte(s), ReadByte(s + y), y)
  {
    hide Read;
    ReadExtends(s, 1, y);
  }

  lemma Uint16Extends(s: bytes, y: bytes)
    ensures Agrees(ReadUint16(s), ReadUint16(s + y), y)
  {
    hide Read;
    ReadExtends(s, 2, y);
  }

  lemma UintExtends(s: bytes, n: nat, y: bytes)
    ensures Agrees(ReadUint(s, n), ReadUint(s + y, n), y)
  {
    hide Read;
    ReadExtends(s, n, y);
  }

  lemma Uint64Extends(s: bytes, y: bytes)
    ensures Agrees(ReadUint64(s), ReadUint64(s + y), y)
  {
    hide ReadUint;
    UintExtends(s, 8, y);
  }

  lemma PrefixedExtends(s: bytes, y: bytes)
    ensures Agrees(ReadPrefixed(s), ReadPrefixed(s + y), y)
  {
    hide Read, ReadByte;
    ByteExtends(s, y);
    if ReadByte(s).Done? {
      ReadExtends(ReadByte(s).rest, ReadByte(s).value, y);
    }
  }

  lemma ContentExtends(s: bytes, length: byte, t: byte, y: bytes)
    ensures Agrees(ReadContent(s, length, t), ReadContent(s + y, length, t), y)
  {
    hide Read, ReadByte;
    ByteExtends(s, y);
    ReadExtends(s, length, y);
    if ReadByte(s).Done? {
      ByteExtends(ReadByte(s).rest, y);
    }
  }

  lemma HeaderExtends(s: bytes, y: bytes)
    ensures Agrees(ReadHeader(s), ReadHeader(s + y), y)
  {
    hide Read, ReadByte, ReadContent;
    ByteExtends(s, y);
    if ReadByte(s).Done? {
      var r1 := ReadByte(s).rest;
      ByteExtends(r1, y);
      if ReadByte(r1).Done? {
        ContentExtends(ReadByte(r1).rest, ReadByte(s).value, ReadByte(r1).value, y);
      }
    }
  }

  lemma {:induction false} HeaderListExtends(s: bytes, n: nat, y: bytes)
    ensures Agrees(ReadHeaderList(s, n), ReadHeaderList(s + y, n), y)
    decreases n
  {
    hide ReadHeader;
    if n == 0 {
    } else {
      HeaderExtends(s, y);
      if ReadHeader(s).Done? {
        HeaderListExtends(ReadHeader(s).rest, n - 1, y);
      }
    }
  }

  lemma HeadersExtend(s: bytes, y: bytes)
    ensures Agrees(ReadHeaders(s), ReadHeaders(s + y), y)
  {
    hide ReadByte, ReadHeaderList;
    ByteExtends(s, y);
    if ReadByte(s).Done? {
      HeaderListExtends(ReadByte(s).rest, ReadByte(s).value, y);
    }
  }

  lemma ItemExtends(s: bytes, extended: bool, y: bytes)
    ensures Agrees(ReadItem(s, extended), ReadItem(s + y, extended), y)
  {
    hide Read, ReadPrefixed, ReadUint64;
    PrefixedExtends(s, y);
    if ReadPrefixed(s).Done? {
      var r1 := ReadPrefixed(s).rest;
      Uint64Extends(r1, y);
      if ReadUint64(r1).Done? {
        ReadExtends(ReadUint64(r1).rest, CHECKSUM_SIZE, y);
      }
    }
  }

  lemma {:induction false} ItemsExtend(s: bytes, n: nat, extended: bool, y: bytes)
    ensures Agrees(ReadItems(s, n, extended), ReadItems(s + y, n, extended), y)
    decreases n
  {
    hide ReadItem;
    if n == 0 {
    } else {
      ItemExtends(s, extended, y);
      if ReadItem(s, extended).Done? {
        ItemsExtend(ReadItem(s, extended).rest, n - 1, extended, y);
      }
    }
  }

  lemma FileReqExtends(s: bytes, y: bytes)
    ensures Agrees(ReadFileReq(s), ReadFileReq(s + y), y)
  {
    hide Read, ReadByte, ReadUint16, ReadHeaders, ReadPrefixed, SplitFlags;
    Uint16Extends(s, y);
    if ReadUint16(s).Done? {
      var r1 := ReadUint16(s).rest;
      ByteExtends(r1, y);
      if ReadByte(r1).Done? {
        var r2 := ReadByte(r1).rest;
        HeadersExtend(r2, y);
        if ReadHeaders(r2).Done? {
          var r3 := ReadHeaders(r2).rest;
          PrefixedExtends(r3, y);
          if ReadPrefixed(r3).Done? {
            ReadExtends(ReadPrefixed(r3).rest, CHECKSUM_SIZE, y);
          }
        }
      }
    }
  }

  lemma FileRespExtends(s: bytes, y: bytes)
    ensures Agrees(ReadFileResp(s), ReadFileResp(s + y), y)
  {
    hide Read, ReadByte, ReadUint16, ReadUint64, ReadHeaders;
    ByteExtends(s, y);
    if ReadByte(s).Done? {
      var r1 := ReadByte(s).rest;
      HeadersExtend(r1, y);
      if ReadHeaders(r1).Done? {
        var r2 := ReadHeaders(r1).rest;
        Uint16Extends(r2, y);
        if ReadUint16(r2).Done? {
          var r3 := ReadUint16(r2).rest;
          Uint64Extends(r3, y);
          if ReadUint64(r3).Done? {
            ReadExtends(ReadUint64(r3).rest, CHECKSUM_SIZE, y);
          }
        }
      }
    }
  }

  lemma DataExtends(s: bytes, y: bytes)
    ensures Agrees(ReadData(s), ReadData(s + y), y)
  {
    hide Read, ReadUint16, ReadUint, Power256;
    Uint16Extends(s, y);
    if ReadUint16(s).Done? {
      var r1 := ReadUint16(s).rest;
      UintExtends(r1, 3, y);
      if ReadUint(r1, 3).Done? {
        ReadExtends(ReadUint(r1, 3).rest, ReadUint(r1, 3).value, y);
      }
    }
  }

  lemma StartExtends(s: bytes, y: bytes)
    ensures Agrees(ReadStart(s), ReadStart(s + y), y)
  {
    hide Read, ReadUint16, ReadUint64;
    Uint16Extends(s, y);
    if ReadUint16(s).Done? {
      var r1 := ReadUint16(s).rest;
      ReadExtends(r1, CHECKSUM_SIZE, y);
      if Read(r1, CHECKSUM_SIZE).Done? {
        Uint64Extends(Read(r1, CHECKSUM_SIZE).rest, y);
      }
    }
  }

  lemma CloseExtends(s: bytes, y: bytes)
    ensures Agrees(ReadClose(s), ReadClose(s + y), y)
  {
    hide Read, ReadUint16, ReadByte;
    Uint16Extends(s, y);
    if ReadUint16(s).Done? {
      ByteExtends(ReadUint16(s).rest, y);
    }
  }

  lemma MetaReqExtends(s: bytes, y: bytes)
    ensures Agrees(ReadMetaReq(s), ReadMetaReq(s + y), y)
  {
    hide ReadPrefixed;
    PrefixedExtends(s, y);
  }

  lemma MetaRespExtends(s: bytes, y: bytes)
    ensures Agrees(ReadMetaResp(s), ReadMetaResp(s + y), y)
  {
    hide ReadByte, ReadItems;
    ByteExtends(s, y);
    if ReadByte(s).Done? {
      var r1 := ReadByte(s).rest;
      ByteExtends(r1, y);
      if ReadByte(r1).Done? {
        ItemsExtend(ReadByte(r1).rest, ReadByte(s).value, ReadByte(r1).value % 2 == 1, y);
      }
    }
  }

  lemma BodyExtends(t: byte, s: bytes, y: bytes)
    ensures Agrees(ReadBody(t, s), ReadBody(t, s + y), y)
  {
    hide ReadFileReq, ReadFileResp, ReadData, ReadStart, ReadClose, ReadMetaReq, ReadMetaResp;
    match t
    case 1 => FileReqExtends(s, y);
    case 2 => FileRespExtends(s, y);
    case 3 => DataExtends(s, y);
    case 4 => StartExtends(s, y);
    case 5 => CloseExtends(s, y);
    case 6 => MetaReqExtends(s, y);
    case 7 => MetaRespExtends(s, y);
    case _ =>
  }

  /** A message once read, or once found invalid, is not affected by the bytes that follow. */
  lemma MessageExtends(s: bytes, y: bytes)
    ensures Agrees(ReadMessage(s), ReadMessage(s + y), y)
  {
    hide ReadByte, ReadBody;
    ByteExtends(s, y);
    if ReadByte(s).Done? {
      BodyExtends(ReadByte(s).value % 32, ReadByte(s).rest, y);
    }
  }

  /** A strict prefix of an encoded message is neither a message nor an error: the reader waits. */
  lemma CutMessageWaits(m: Message, cut: bytes)
    requires WellFormed(m) && Encode(m).Ok? && cut <= Encode(m).value && cut != Encode(m).value
    ensures ReadMessage(cut).Short?
  {
    hide WellFormed, Encode, ReadMessage;
    var b := Encode(m).value;
    var tail := b[|cut|..];
    assert cut + tail == b && b + [] == b;
    RoundTrip(m, []);
    MessageExtends(cut, tail);
  }

  // ------------------------------------------------ exactly what parses back

  /** What the decoders can return: a header that is not known has as many bytes as its length says,
      checksums are whole, and items are alike. */
  ghost predicate Readable(m: Message)
  {
    match m
    case FileReq(_, _, headers, name, sum) => ReadableHeaders(headers) && |name| <= 255 && |sum| == CHECKSUM_SIZE
    case FileResp(_, headers, _, _, sum) => ReadableHeaders(headers) && |sum| == CHECKSUM_SIZE
    case Data(_, data) => |data| < 0x100_0000
    case StartTransmission(_, sum, _) => |sum| == CHECKSUM_SIZE
    case Close(_, _) => true
    case MetaReq(name) => |name| <= 255
    case MetaResp(items, extended) => |items| <= 255 && ReadableItems(items, extended)
  }

  ghost predicate ReadableHeaders(hs: seq<OptionalHeader>)
  {
    |hs| <= 255 && forall i | 0 <= i < |hs| :: ReadableHeader(hs[i])
  }

  ghost predicate ReadableItems(items: seq<MetaItem>, extended: bool)
  {
    forall i | 0 <= i < |items| :: ReadableItem(items[i], extended)
  }

  predicate ReadableItem(i: MetaItem, extended: bool)
  {
    if extended then i.fileSize.Some? && |i.checksum| == CHECKSUM_SIZE else i.fileSize.None? && i.checksum == []
  }

  predicate ReadableHeader(h: OptionalHeader)
  {
    h.UnknownHeader? ==> |h.content| == h.length
  }

  lemma HeaderReadable(s: bytes)
    ensures ReadHeader(s).Done? ==> ReadableHeader(ReadHeader(s).value)
  {
  }

  lemma {:induction false} HeaderListReadable(s: bytes, n: byte)
    ensures ReadHeaderList(s, n).Done? ==>
              |ReadHeaderList(s, n).value| == n && ReadableHeaders(ReadHeaderList(s, n).value)
    decreases n
  {
    hide ReadHeader, ReadableHeader;
    var p := ReadHeader(s);
    if n > 0 && p.Done? {
      HeaderReadable(s);
      HeaderListReadable(p.rest, n - 1);
      var q := ReadHeaderList(p.rest, n - 1);
      assert q.Done? ==> ReadHeaderList(s, n) == Done([p.value] + q.value, q.rest);
    }
  }

  lemma HeadersReadable(s: bytes)
    ensures ReadHeaders(s).Done? ==> ReadableHeaders(ReadHeaders(s).value)
  {
    if ReadByte(s).Done? {
      HeaderListReadable(ReadByte(s).rest, ReadByte(s).value);
    }
  }

  lemma ItemReadable(s: bytes, extended: bool)
    ensures ReadItem(s, extended).Done? ==> ReadableItem(ReadItem(s, extended).value, extended)
  {
  }

  lemma {:induction false} ItemsReadable(s: bytes, n: nat, extended: bool)
    ensures ReadItems(s, n, extended).Done? ==>
              |ReadItems(s, n, extended).value| == n && ReadableItems(ReadItems(s, n, extended).value, extended)
    decreases n
  {
    hide ReadItem, ReadableItem;
    var p := ReadItem(s, extended);
    if n > 0 && p.Done? {
      ItemReadable(s, extended);
      ItemsReadable(p.rest, n - 1, extended);
      var q := ReadItems(p.rest, n - 1, extended);
      assert q.Done? ==> ReadItems(s, n, extended) == Done([p.value] + q.value, q.rest);
    }
  }

  lemma FileReqReadable(s: bytes)
    ensures ReadFileReq(s).Done? ==> Readable(ReadFileReq(s).value)
  {
    var p := ReadFileReq(s);
    if p.Done? {
      var r := ReadByte(ReadUint16(s).rest).rest;
      HeadersReadable(r);
    }
  }

  lemma FileRespReadable(s: bytes)
    ensures ReadFileResp(s).Done? ==> Readable(ReadFileResp(s).value)
  {
    if ReadByte(s).Done? {
      HeadersReadable(ReadByte(s).rest);
    }
  }

  lemma DataReadable(s: bytes)
    ensures ReadData(s).Done? ==> Readable(ReadData(s).value)
  {
    Powers();
  }

  lemma MetaRespReadable(s: bytes)
    ensures ReadMetaResp(s).Done? ==> Readable(ReadMetaResp(s).value)
  {
    if ReadByte(s).Done? && ReadByte(ReadByte(s).rest).Done? {
      var n, e := ReadByte(s).value, ReadByte(ReadByte(s).rest);
      ItemsReadable(e.rest, n, e.value % 2 == 1);
    }
  }

  lemma ShortBodiesReadable(s: bytes)
    ensures ReadStart(s).Done? ==> Readable(ReadStart(s).value)
    ensures ReadClose(s).Done? ==> Readable(ReadClose(s).value)
    ensures ReadMetaReq(s).Done? ==> Readable(ReadMetaReq(s).value)
  {
  }

  /** Whatever bytes arrive, a message that is read is readable. */
  lemma ReadGivesReadable(s: bytes)
    ensures ReadMessage(s).Done? ==> Readable(ReadMessage(s).value)
  {
    hide ReadFileReq, ReadFileResp, ReadData, ReadStart, ReadClose, ReadMetaReq, ReadMetaResp, Readable;
    if ReadByte(s).Done? {
      var r := ReadByte(s).rest;
      FileReqReadable(r);
      FileRespReadable(r);
      DataReadable(r);
      ShortBodiesReadable(r);
      MetaRespReadable(r);
    }
  }

  lemma {:induction false} HeadersEncodable(hs: seq<OptionalHeader>)
    requires EncodeHeaderList(hs).Ok?
    ensures forall i | 0 <= i < |hs| :: EncodeHeader(hs[i]).Ok?
  {
    hide EncodeHeader;
    if hs == [] {
    } else {
      var last := |hs| - 1;
      HeadersEncodable(hs[..last]);
      assert forall i | 0 <= i < last :: hs[..last][i] == hs[i];
    }
  }

  lemma {:induction false} ItemsEncodable(items: seq<MetaItem>)
    requires EncodeItems(items).Ok?
    ensures forall i | 0 <= i < |items| :: EncodeItem(items[i]).Ok?
  {
    hide EncodeItem;
    if items == [] {
    } else {
      var last := |items| - 1;
      ItemsEncodable(items[..last]);
      assert forall i | 0 <= i < last :: items[..last][i] == items[i];
    }
  }

  lemma KnownHeaders(hs: seq<OptionalHeader>)
    requires EncodeHeaders(hs).Ok? && ReadableHeaders(hs)
    ensures CanonicalHeaders(hs)
  {
    HeadersEncodable(hs);
  }

  lemma MatchingItems(items: seq<MetaItem>, extended: bool)
    requires EncodeItems(items).Ok? && ReadableItems(items, extended)
    ensures forall i | 0 <= i < |items| :: GoodItem(items[i], extended)
  {
    ItemsEncodable(items);
  }

  lemma EncodableReadable(m: Message)
    requires Encode(m).Ok? && Readable(Received(m))
    ensures WellFormed(m)
  {
    hide EncodeHeaders, EncodeItems, ReadableHeaders, ReadableItems, CanonicalHeaders, GoodItem, BigEndian, Prefixed,
         FlagByte;
    match m
    case FileReq(_, _, headers, _, _) => KnownHeaders(headers);
    case FileResp(_, headers, _, _, _) => KnownHeaders(headers);
    case MetaResp(items, extended) => MatchingItems(items, extended);
    case _ =>
  }

  /** Exactly the well-formed messages parse back from what the encoder makes of them: a header that
      is not known, a chunk of 2^24 bytes, a checksum that is cut short, or an item that does not
      match the flag of its message is encoded without an error and read as something else. */
  lemma RoundTripExactly(m: Message, rest: bytes)
    requires Encode(m).Ok?
    ensures ReadMessage(Encode(m).value + rest) == Done(Received(m), rest) <==> WellFormed(m)
  {
    hide Encode, ReadMessage, WellFormed, Readable, Received;
    if WellFormed(m) {
      RoundTrip(m, rest);
    } else {
      ReadGivesReadable(Encode(m).value + rest);
      if Readable(Received(m)) {
        EncodableReadable(m);
      }
    }
  }

  // ------------------------------------------------------------- whole streams

  /** The bytes of a list of messages, each written as a whole. */
  function EncodeAll(ms: seq<Message>): bytes
  {
    if ms == [] then [] else
      (if Encode(ms[0]).Ok? then Encode(ms[0]).value else []) + EncodeAll(ms[1..])
  }

  ghost predicate AllWellFormed(ms: seq<Message>)
  {
    forall i | 0 <= i < |ms| :: WellFormed(ms[i])
  }

  function ReceivedAll(ms: seq<Message>): (r: seq<Message>)
    ensures |r| == |ms|
  {
    seq(|ms|, i requires 0 <= i < |ms| => Received(ms[i]))
  }

  /** Repeated readMsg: the messages that are complete, and the bytes that are left. */
  function ReadAll(s: bytes): (seq<Message>, bytes)
    decreases |s|
  {
    var p := ReadMessage(s);
    if !p.Done? then ([], s) else
      var (more, rest) := ReadAll(p.rest);
      ([p.value] + more, rest)
  }

  /** `count` messages read one after another. */
  function ReadMany(s: bytes, count: nat): Parsed<seq<Message>>
    decreases count
  {
    if count == 0 then Done([], s) else
      var (m, r) :- ReadMessage(s);
      var (ms, r) :- ReadMany(r, count - 1);
      Done([m] + ms, r)
  }

  /** Concatenated encodings followed by any bytes parse back to the messages and leave these bytes. */
  lemma {:induction false} StreamRoundTrip(ms: seq<Message>, rest: bytes)
    requires AllWellFormed(ms)
    ensures ReadMany(EncodeAll(ms) + rest, |ms|) == Done(ReceivedAll(ms), rest)
    decreases |ms|
  {
    hide WellFormed, Encode, ReadMessage, Received;
    if ms == [] {
      assert [] + rest == rest;
    } else {
      var b, more := EncodeAll(ms[1..]), ms[1..];
      StreamRoundTrip(more, rest);
      RoundTrip(ms[0], b + rest);
      assert EncodeAll(ms) + rest == Encode(ms[0]).value + (b + rest);
      assert ReceivedAll(ms) == [Received(ms[0])] + ReceivedAll(more);
    }
  }

  lemma EncodeAllCons(m: Message, ms: seq<Message>)
    requires Encode(m).Ok?
    ensures EncodeAll([m] + ms) == Encode(m).value + EncodeAll(ms)
    ensures ReceivedAll([m] + ms) == [Received(m)] + ReceivedAll(ms)
  {
    hide Encode, Received;
    assert ([m] + ms)[1..] == ms;
  }

  lemma ReadAllCons(m: Message, rest: bytes)
    requires WellFormed(m) && Encode(m).Ok?
    ensures ReadAll(Encode(m).value + rest) == ([Received(m)] + ReadAll(rest).0, ReadAll(rest).1)
  {
    hide WellFormed, Encode, ReadMessage, Received;
    RoundTrip(m, rest);
  }

  /** However the stream is cut, the reader has the first messages, complete and unchanged, and waits
      with the bytes of the next one. */
  lemma {:induction false} CutStream(ms: seq<Message>, got: bytes) returns (n: nat)
    requires AllWellFormed(ms) && got <= EncodeAll(ms)
    ensures n <= |ms| && ReadAll(got).0 == ReceivedAll(ms[..n])
    ensures got == EncodeAll(ms[..n]) + ReadAll(got).1
    ensures got == EncodeAll(ms) ==> n == |ms|
    ensures !ReadMessage(ReadAll(got).1).Invalid?
    decreases |ms|
  {
    hide WellFormed, Encode, ReadMessage, Received;
    n := 0;
    assert ms[..0] == [] && EncodeAll([]) == [] && [] + got == got;
    if ms == [] {
      EmptyWaits();
    } else {
      RoundTrip(ms[0], []);
      assert ms == [ms[0]] + ms[1..];
      EncodeAllCons(ms[0], ms[1..]);
      var b := Encode(ms[0]).value;
      if |got| < |b| {
        assert got == b[..|got|];
        CutMessageWaits(ms[0], got);
      } else {
        n := CutRest(ms, got);
      }
    }
  }

  lemma {:induction false} CutRest(ms: seq<Message>, got: bytes) returns (n: nat)
    requires ms != [] && AllWellFormed(ms) && got <= EncodeAll(ms)
    requires Encode(ms[0]).Ok? && |got| >= |Encode(ms[0]).value|
    ensures n <= |ms| && ReadAll(got).0 == ReceivedAll(ms[..n])
    ensures got == EncodeAll(ms[..n]) + ReadAll(got).1
    ensures got == EncodeAll(ms) ==> n == |ms|
    ensures !ReadMessage(ReadAll(got).1).Invalid?
    decreases |ms|, 0
  {
    hide WellFormed, Encode, ReadMessage, Received, ReceivedAll, EncodeAll, ReadAll;
    var b, more := Encode(ms[0]).value, ms[1..];
    assert ms == [ms[0]] + more;
    EncodeAllCons(ms[0], more);
    var rest := got[|b|..];
    assert got == b + rest by { assert got[..|b|] == b; }
    assert rest <= EncodeAll(more);
    ReadAllCons(ms[0], rest);
    var k := CutStream(more, rest);
    n := k + 1;
    assert ms[..n] == [ms[0]] + more[..k];
    EncodeAllCons(ms[0], more[..k]);
    assert b + (EncodeAll(more[..k]) + ReadAll(rest).1) == (b + EncodeAll(more[..k])) + ReadAll(rest).1;
  }

  lemma EmptyWaits()
    ensures ReadMessage([]).Short?
  {
  }
}
