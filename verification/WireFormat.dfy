/** Where every field of a message stands in its bytes, and what the decoders make of bytes that no
    encoder writes: the encoders and decoders agree not only with each other but with this. */
module WireFormat {
  import opened Prelude
  import opened Messages
  import PacketNumbers

  // --------------------------------------------------------------- numbers

  lemma {:induction false} PowerSum(a: nat, b: nat)
    ensures Power256(a + b) == Power256(a) * Power256(b)
    decreases b
  {
    if b == 0 {
    } else {
      PowerSum(a, b - 1);
      assert Power256(a + b) == 256 * Power256(a + (b - 1));
      assert Power256(a) * (256 * Power256(b - 1)) == 256 * (Power256(a) * Power256(b - 1));
    }
  }

  lemma NestedDivision(n: nat, d: nat)
    requires d > 0
    ensures n / 256 / d == n / (256 * d)
  {
    var q, r := n / 256, n % 256;
    var q', r' := q / d, q % d;
    assert n == 256 * q + r && q == q' * d + r';
    assert n == q' * (256 * d) + (256 * r' + r);
    PacketNumbers.DivModUnique(n, 256 * d, q', 256 * r' + r);
  }

  /** Byte `i` of a number of `k` bytes has the weight 256^(k - 1 - i): the most significant comes first. */
  lemma {:induction false} Digits(n: nat, k: nat, i: nat)
    requires i < k
    ensures BigEndian(n, k)[i] == n / Power256(k - 1 - i) % 256
    decreases k
  {
    if i == k - 1 {
      assert Power256(0) == 1;
    } else {
      Digits(n / 256, k - 1, i);
      assert BigEndian(n, k)[i] == BigEndian(n / 256, k - 1)[i];
      assert Power256(k - 1 - i) == 256 * Power256(k - 2 - i);
      NestedDivision(n, Power256(k - 2 - i));
    }
  }

  lemma TwoBytes(n: uint16)
    ensures var b := BigEndian(n, 2); 256 * (b[0] as int) + b[1] as int == n
  {
    assert BigEndian(n, 2) == BigEndian(n / 256, 1) + [n % 256];
    assert BigEndian(n / 256, 1) == BigEndian(n / 256 / 256, 0) + [n / 256 % 256];
  }

  lemma ThreeBytes(n: nat)
    requires n < 0x100_0000
    ensures var b := BigEndian(n, 3); 65536 * (b[0] as int) + 256 * (b[1] as int) + b[2] as int == n
  {
    assert BigEndian(n, 3) == BigEndian(n / 256, 2) + [n % 256];
    assert n / 256 < 0x1_0000;
    TwoBytes(n / 256);
  }

  // ---------------------------------------------------------------- fields

  /** The 16-bit number at position `i`. */
  predicate NumberAt(b: bytes, i: nat, n: uint16)
  {
    i + 2 <= |b| && 256 * (b[i] as int) + b[i + 1] as int == n
  }

  /** The eight digits of a number to the base 256, the most significant first. */
  ghost predicate LongDigits(part: bytes, n: nat)
  {
    |part| == 8 && forall j | 0 <= j < 8 :: part[j] == n / Power256(7 - j) % 256
  }

  lemma EightBytes(n: nat)
    ensures LongDigits(BigEndian(n, 8), n)
  {
    forall j | 0 <= j < 8 ensures BigEndian(n, 8)[j] == n / Power256(7 - j) % 256 {
      Digits(n, 8, j);
    }
  }

  /** Close: type 5 of version 1, the stream, the reason. */
  lemma CloseLayout(id: StreamID, reason: byte)
    ensures Encode(Close(id, reason)).Ok?
    ensures var b := Encode(Close(id, reason)).value;
            |b| == 4 && b[0] == 0x25 && NumberAt(b, 1, id) && b[3] == reason
  {
    TwoBytes(id);
    hide BigEndian;
  }

  /** Data: type 3, the stream, the length in three bytes, the bytes. */
  lemma DataLayout(id: StreamID, data: bytes)
    requires |data| < 0x100_0000
    ensures Encode(Data(id, data)).Ok?
    ensures var b := Encode(Data(id, data)).value;
            && |b| == 6 + |data| && b[0] == 0x23 && NumberAt(b, 1, id)
            && 65536 * (b[3] as int) + 256 * (b[4] as int) + b[5] as int == |data| && b[6..] == data
  {
    TwoBytes(id);
    ThreeBytes(|data|);
    hide BigEndian;
  }

  /** StartTransmission: type 4, the stream, the checksum, the offset in eight bytes. */
  lemma StartLayout(id: StreamID, sum: bytes, offset: uint64)
    requires |sum| == 32
    ensures Encode(StartTransmission(id, sum, offset)).Ok?
    ensures var b := Encode(StartTransmission(id, sum, offset)).value;
            && |b| == 43 && b[0] == 0x24 && NumberAt(b, 1, id) && b[3..35] == sum
            && LongDigits(b[35..], offset)
  {
    TwoBytes(id);
    EightBytes(offset);
    hide BigEndian, LongDigits;
    var b := Encode(StartTransmission(id, sum, offset)).value;
    assert b == Header(StartTransmission(id, sum, offset)) + BigEndian(id, 2) + sum + BigEndian(offset, 8);
    assert b[35..] == BigEndian(offset, 8);
  }

  /** MetaReq: type 6, the length of the name, the name. */
  lemma MetaReqLayout(name: bytes)
    requires |name| <= 255
    ensures Encode(MetaReq(name)) == Ok([0x26, |name|] + name)
  {
    assert [0x26] + ([|name|] + name) == [0x26, |name|] + name;
  }

  /** FileReq: type 1, the stream, the flags, the number of headers and the headers, and at the end the
      length of the name, the name and the checksum, or zeros if there is none. */
  lemma FileReqLayout(m: Message)
    requires m.FileReq? && Encode(m).Ok?
    ensures var (b, n) := (Encode(m).value, |Encode(m).value|);
            && n >= 38 + |m.fileName| && b[0] == 0x21 && NumberAt(b, 1, m.streamId)
            && b[3] == (if Resumption in m.flags then 1 else 0) && b[4] == |m.headers|
            && b[n - 33 - |m.fileName|] == |m.fileName|
            && b[n - 32 - |m.fileName|..n - 32] == m.fileName
            && (m.checksum != [] ==> b[n - 32..] == m.checksum)
            && (m.checksum == [] ==> forall i | n - 32 <= i < n :: b[i] == 0)
  {
    TwoBytes(m.streamId);
    assert m.flags != [] ==> m.flags[0] == Resumption;
    var sum := if m.checksum == [] then Zeros(32) else m.checksum;
    assert forall i | 0 <= i < 32 && m.checksum == [] :: sum[i] == 0;
    var hs := EncodeHeaders(m.headers).value;
    assert hs[0] == |m.headers|;
    hide BigEndian, EncodeHeaders;
    var b, name := Encode(m).value, m.fileName;
    assert b == Header(m) + BigEndian(m.streamId, 2) + [FlagByte(m.flags)] + hs + ([|name|] + name) + sum;
    assert |b| == 4 + |hs| + 1 + |name| + 32;
    assert b[|b| - 32..] == sum;
    assert forall i | |b| - 32 <= i < |b| :: b[i] == sum[i - (|b| - 32)];
  }

  /** FileResp: type 2, the status, the number of headers and the headers, and at the end the stream, the
      size in eight bytes and the checksum. */
  lemma FileRespLayout(m: Message)
    requires m.FileResp? && Encode(m).Ok?
    ensures var (b, n) := (Encode(m).value, |Encode(m).value|);
            && n >= 45 && b[0] == 0x22 && b[1] == m.status && b[2] == |m.respHeaders|
            && NumberAt(b, n - 42, m.respId) && b[n - 32..] == m.respChecksum
            && LongDigits(b[n - 40..n - 32], m.fileSize)
  {
    EightBytes(m.fileSize);
    TwoBytes(m.respId);
    var hs, id, size := EncodeHeaders(m.respHeaders).value, BigEndian(m.respId, 2), BigEndian(m.fileSize, 8);
    assert hs[0] == |m.respHeaders|;
    hide BigEndian, EncodeHeaders, LongDigits;
    assert Encode(m).value == [0x22] + [m.status] + hs + id + size + m.respChecksum;
    FileRespFields(m.status, hs, id, size, m.respChecksum);
  }

  lemma FileRespFields(status: byte, hs: bytes, id: bytes, size: bytes, sum: bytes)
    requires |hs| > 0 && |id| == 2 && |size| == 8 && |sum| == 32
    ensures var b := [0x22] + [status] + hs + id + size + sum;
            var n := |b|;
            && n >= 45 && b[0] == 0x22 && b[1] == status && b[2] == hs[0]
            && b[n - 42] == id[0] && b[n - 41] == id[1] && b[n - 40..n - 32] == size && b[n - 32..] == sum
  {
    var before := [0x22] + [status] + hs;
    assert before[2] == hs[0];
  }

  /** MetaResp: type 7, the number of items, whether they are extended, the items. */
  lemma MetaRespLayout(items: seq<MetaItem>, extended: bool)
    requires Encode(MetaResp(items, extended)).Ok?
    ensures var b := Encode(MetaResp(items, extended)).value;
            && |b| >= 3 && b[0] == 0x27 && b[1] == |items| && b[2] == (if extended then 1 else 0)
            && EncodeItems(items) == Ok(b[3..])
  {
    hide EncodeItems;
  }

  /** An item: the length of the name and the name, and for a file its size in eight bytes and the
      checksum. */
  lemma ItemLayout(i: MetaItem)
    requires EncodeItem(i).Ok?
    ensures var b, n := EncodeItem(i).value, |i.fileName|;
            && |b| == 1 + n + (if i.fileSize.Some? then 40 else 0) && b[0] == n && b[1..1 + n] == i.fileName
            && (i.fileSize.Some? ==>
                  && b[|b| - 32..] == i.checksum
                  && LongDigits(b[1 + n..9 + n], i.fileSize.value))
  {
    if i.fileSize.Some? {
      EightBytes(i.fileSize.value);
      var b, n, size := EncodeItem(i).value, |i.fileName|, BigEndian(i.fileSize.value, 8);
      hide BigEndian, LongDigits;
      assert b == ([n] + i.fileName) + size + i.checksum;
      assert b[1 + n..9 + n] == size;
    }
  }

  /** A header: a length, the kind, and the parameters; an error exactly when the length is less than what
      follows it, or 255, which the 8 bits of the buffer's size turn into none. */
  lemma HeaderLayout(h: OptionalHeader)
    ensures match h
            case CompressionReq(n, algorithm, multiplier) =>
              EncodeHeader(h) == if 3 <= n < 255 then Ok([n, 1, algorithm, multiplier]) else Err(BufferExceeded)
            case CompressionResp(n, status) =>
              EncodeHeader(h) == if 2 <= n < 255 then Ok([n, 2, status]) else Err(BufferExceeded)
            case UnknownHeader(n, kind, content) =>
              EncodeHeader(h) == if 1 + |content| <= n < 255 then Ok([n, kind] + content) else Err(BufferExceeded)
  {
    match h
    case CompressionReq(n, algorithm, multiplier) =>
      assert [n] + [1, algorithm, multiplier] == [n, 1, algorithm, multiplier];
    case CompressionResp(n, status) =>
      assert [n] + [2, status] == [n, 2, status];
    case UnknownHeader(n, kind, content) =>
      assert [n] + ([kind] + content) == [n, kind] + content;
  }

  // --------------------------------------------------- what cannot be written

  predicate Writable(h: OptionalHeader)
  {
    EncodeHeader(h).Ok?
  }

  lemma {:induction false} HeaderListErrs(hs: seq<OptionalHeader>)
    ensures EncodeHeaderList(hs).Ok? <==> forall i | 0 <= i < |hs| :: Writable(hs[i])
    ensures EncodeHeaderList(hs).Err? ==> EncodeHeaderList(hs) == Err(BufferExceeded)
    decreases |hs|
  {
    if hs == [] {
    } else {
      var before := hs[..|hs| - 1];
      HeaderListErrs(before);
      HeaderLayout(hs[|hs| - 1]);
      hide EncodeHeader;
      assert forall i | 0 <= i < |before| :: before[i] == hs[i];
    }
  }

  /** Which items a page can carry: a name of 1 to 255 bytes, and a size with a checksum of 32 bytes, or
      neither. */
  predicate Listable(i: MetaItem)
  {
    1 <= |i.fileName| <= 255 && |i.checksum| == (if i.fileSize.Some? then 32 else 0)
  }

  lemma ItemErr(i: MetaItem)
    ensures EncodeItem(i).Ok? <==> Listable(i)
  {
    hide BigEndian;
  }

  lemma {:induction false} ItemsErr(items: seq<MetaItem>)
    ensures EncodeItems(items).Ok? <==> forall i | 0 <= i < |items| :: Listable(items[i])
    decreases |items|
  {
    hide EncodeItem, Listable;
    if items == [] {
    } else {
      var before := items[..|items| - 1];
      ItemsErr(before);
      ItemErr(items[|items| - 1]);
      assert forall i | 0 <= i < |before| :: before[i] == items[i];
    }
  }

  /** What makes the encoder of each type fail, and with which error. */
  lemma EncodesExactly(m: Message)
    ensures match m
            case FileReq(_, _, headers, name, sum) =>
              && (Encode(m) == Err(InvalidChecksumLength) <==> |sum| !in {0, 32})
              && (Encode(m) == Err(InvalidFileName) <==> |sum| in {0, 32} && |name| > 255)
              && (Encode(m) == Err(TooMany) <==> |sum| in {0, 32} && |name| <= 255 && |headers| > 255)
              && (Encode(m).Ok? <==>
                    && |sum| in {0, 32} && |name| <= 255 && |headers| <= 255
                    && forall i | 0 <= i < |headers| :: Writable(headers[i]))
            case FileResp(_, headers, _, _, sum) =>
              && (Encode(m) == Err(InvalidChecksumLength) <==> |sum| != 32)
              && (Encode(m) == Err(TooMany) <==> |sum| == 32 && |headers| > 255)
              && (Encode(m).Ok? <==>
                    |sum| == 32 && |headers| <= 255 && forall i | 0 <= i < |headers| :: Writable(headers[i]))
            case StartTransmission(_, sum, _) => Encode(m).Ok? <==> |sum| <= 32
            case MetaReq(name) => Encode(m).Ok? <==> |name| <= 255
            case MetaResp(items, _) =>
              && (Encode(m) == Err(TooMany) <==> |items| > 255)
              && (Encode(m).Ok? <==> |items| <= 255 && forall i | 0 <= i < |items| :: Listable(items[i]))
            case Data(_, _) => Encode(m).Ok?
            case Close(_, _) => Encode(m).Ok?
  {
    hide BigEndian, Writable, Listable, EncodeHeaderList, EncodeItems;
    match m
    case FileReq(_, _, headers, _, _) => HeaderListErrs(headers);
    case FileResp(_, headers, _, _, _) => HeaderListErrs(headers);
    case MetaResp(items, _) =>
      ItemsErr(items);
      ItemsErrors(items);
    case _ =>
  }

  lemma {:induction false} ItemsErrors(items: seq<MetaItem>)
    ensures EncodeItems(items) != Err(TooMany)
    decreases |items|
  {
    if items != [] {
      ItemsErrors(items[..|items| - 1]);
    }
  }

  // -------------------------------------------------------- foreign bytes

  /** Only the low five bits of the first byte matter: the version is not looked at, and a type that is
      not one of the seven is an error. */
  lemma FirstByteDecides(b: byte, c: byte, rest: bytes)
    ensures b % 32 == c % 32 ==> ReadMessage([b] + rest) == ReadMessage([c] + rest)
    ensures !(1 <= b % 32 <= 7) ==> ReadMessage([b] + rest) == Invalid
  {
    hide ReadFileReq, ReadFileResp, ReadData, ReadStart, ReadClose, ReadMetaReq, ReadMetaResp;
    assert ([b] + rest)[1..] == rest && ([c] + rest)[1..] == rest;
    assert ([b] + rest)[..1] == [b] && ([c] + rest)[..1] == [c];
  }

  /** A request is refused at its flags if and only if a bit other than the first is set; a FileReq asks
      for a resumption if and only if the first bit is. */
  lemma FlagsDecide(b: byte)
    ensures SplitFlags(b).None? <==> b >= 2
    ensures SplitFlags(b).Some? ==> (SplitFlags(b).value == [Resumption] <==> b == 1)
    ensures SplitFlags(b).Some? ==> (SplitFlags(b).value == [] <==> b == 0)
  {
  }

  /** Of the byte that says whether items are extended, only the last bit matters. */
  lemma ExtendedBit(n: byte, e: byte, rest: bytes)
    ensures ReadMetaResp([n, e] + rest)
         == match ReadItems(rest, n, e % 2 == 1)
            case Done(items, left) => Done(MetaResp(items, e % 2 == 1), left)
            case Short => Short
            case Invalid => Invalid
  {
    hide ReadItems;
    var s := [n, e] + rest;
    assert s[1..][1..] == rest;
  }

  /** A header of kind 0 is an error, whatever follows; one of a kind that is not known has as many bytes
      after its kind as its length says. */
  lemma HeaderKinds(length: byte, kind: byte, rest: bytes)
    ensures kind == 0 ==> ReadHeader([length, kind] + rest) == Invalid
    ensures kind > 2 ==>
              ReadHeader([length, kind] + rest)
              == if |rest| < length then Short
                 else Done(UnknownHeader(length, kind, rest[..length]), rest[length..])
  {
    var s := [length, kind] + rest;
    assert s[1..][1..] == rest;
  }
}
