/** How the server cuts the rest of a file into Data messages and closes the stream
    (brft/server.go, the loop of handleServerStream). */
module ChunkLoop {
  import opened Prelude
  import opened Messages
  import opened BrftFiles
  import ByteStream
  import PacketNumbers

  type Packing = bytes -> bytes
  type Unpacking = bytes -> Option<bytes>

  /** Decompression undoes compression. */
  ghost predicate Inverse(pack: Packing, unpack: Unpacking)
  {
    forall x :: unpack(pack(x)) == Some(x)
  }

  function ComputeChunkSize(multiplier: byte): (n: nat)
    ensures n > 0
  {
    (multiplier + 1) * 64 * 1024
  }

  /** The messages of one stream for the bytes that are left: full chunks, and then either a short
      chunk and TransferComplete or, when nothing is left to read, Undefined. */
  function FileMessages(id: StreamID, left: bytes, chunk: nat, pack: Packing): seq<Message>
    requires chunk > 0
    decreases |left|
  {
    if left == [] then [Close(id, CLOSE_UNDEFINED)]
    else if |left| < chunk then [Data(id, pack(left)), Close(id, CLOSE_TRANSFER_COMPLETE)]
    else [Data(id, pack(left[..chunk]))] + FileMessages(id, left[chunk..], chunk, pack)
  }

  lemma FullChunk(before: seq<Message>, id: StreamID, left: bytes, chunk: nat, pack: Packing)
    requires 0 < chunk <= |left|
    ensures before + FileMessages(id, left, chunk, pack)
         == before + [Data(id, pack(left[..chunk]))] + FileMessages(id, left[chunk..], chunk, pack)
  {
  }

  lemma LastChunk(before: seq<Message>, id: StreamID, left: bytes, chunk: nat, pack: Packing)
    requires |left| < chunk
    ensures before + FileMessages(id, left, chunk, pack)
         == if left == [] then before + [Close(id, CLOSE_UNDEFINED)]
            else before + [Data(id, pack(left))] + [Close(id, CLOSE_TRANSFER_COMPLETE)]
  {
  }

  /** The chunk loop over an open file, message by message. */
  method SendChunks(f: File, id: StreamID, chunk: nat, pack: Packing) returns (out: seq<Message>)
    requires chunk > 0 && f.entry.file.Some? && f.pos <= |f.entry.file.value|
    modifies f
    ensures out == FileMessages(id, f.entry.file.value[old(f.pos)..], chunk, pack)
  {
    hide FileMessages;
    ghost var content := f.entry.file.value;
    ghost var all := FileMessages(id, content[f.pos..], chunk, pack);
    out := [];
    while true
      invariant f.pos <= |content|
      invariant out + FileMessages(id, content[f.pos..], chunk, pack) == all
      decreases |content| - f.pos
    {
      ghost var left := content[f.pos..];
      var read := f.Read(chunk);
      if read.Err? {
        LastChunk(out, id, left, chunk, pack);
        out := out + [Close(id, CLOSE_UNDEFINED)];
        return;
      }
      var n := |read.value|;
      if n < chunk {
        assert read.value == left;
        LastChunk(out, id, left, chunk, pack);
        out := out + [Data(id, pack(read.value))];
        out := out + [Close(id, CLOSE_TRANSFER_COMPLETE)];
        return;
      }
      assert read.value == left[..chunk] && content[f.pos..] == left[chunk..];
      FullChunk(out, id, left, chunk, pack);
      out := out + [Data(id, pack(read.value))];
    }
  }

  // ------------------------------------------------------------ what is sent

  /** The decompressed payloads of the Data messages of a stream, joined; None when one is damaged. */
  function Payload(ms: seq<Message>, id: StreamID, unpack: Unpacking): Option<bytes>
  {
    if ms == [] then Some([])
    else if ms[0].Data? && ms[0].dataId == id then
      match unpack(ms[0].data)
      case None => None
      case Some(x) =>
        (match Payload(ms[1..], id, unpack)
         case None => None
         case Some(rest) => Some(x + rest))
    else Payload(ms[1..], id, unpack)
  }

  /** Every chunk but the last is full, and the single Close comes last. */
  ghost predicate WellShaped(ms: seq<Message>, id: StreamID, chunk: nat, unpack: Unpacking)
  {
    && ms != [] && ms[|ms| - 1].Close? && ms[|ms| - 1].closeId == id
    && (forall i | 0 <= i < |ms| - 1 :: ms[i].Data? && ms[i].dataId == id && unpack(ms[i].data).Some?)
    && (forall i | 0 <= i < |ms| - 2 :: |unpack(ms[i].data).value| == chunk)
  }

  lemma PayloadCons(m: Message, ms: seq<Message>, id: StreamID, unpack: Unpacking, x: bytes, y: bytes)
    requires m.Data? && m.dataId == id && unpack(m.data) == Some(x) && Payload(ms, id, unpack) == Some(y)
    ensures Payload([m] + ms, id, unpack) == Some(x + y)
  {
    assert ([m] + ms)[1..] == ms;
  }

  lemma ClosePayload(id: StreamID, reason: byte, other: StreamID, unpack: Unpacking)
    ensures Payload([Close(id, reason)], other, unpack) == Some([])
  {
    assert [Close(id, reason)][1..] == [];
  }

  /** The exact outcome of the chunk loop: the chunks join to what was left, and the stream closes
      with TransferComplete exactly when the rest is no multiple of the chunk size. */
  lemma {:induction false} ChunkLoopOutcome(id: StreamID, left: bytes, chunk: nat, pack: Packing, unpack: Unpacking)
    requires chunk > 0 && Inverse(pack, unpack)
    ensures var ms := FileMessages(id, left, chunk, pack);
            && WellShaped(ms, id, chunk, unpack)
            && Payload(ms, id, unpack) == Some(left)
            && |ms| == |left| / chunk + (if |left| % chunk == 0 then 1 else 2)
            && ms[|ms| - 1].reason == (if |left| % chunk == 0 then CLOSE_UNDEFINED else CLOSE_TRANSFER_COMPLETE)
    decreases |left|
  {
    hide Payload;
    if |left| < chunk {
      PacketNumbers.DivModUnique(|left|, chunk, 0, |left|);
      assert unpack(pack(left)) == Some(left);
      if left == [] {
        ClosePayload(id, CLOSE_UNDEFINED, id, unpack);
      } else {
        ClosePayload(id, CLOSE_TRANSFER_COMPLETE, id, unpack);
        PayloadCons(Data(id, pack(left)), [Close(id, CLOSE_TRANSFER_COMPLETE)], id, unpack, left, []);
        assert left + [] == left;
        assert FileMessages(id, left, chunk, pack) == [Data(id, pack(left))] + [Close(id, CLOSE_TRANSFER_COMPLETE)];
      }
    } else {
      FullChunkOutcome(id, left, chunk, pack, unpack);
    }
  }

  lemma {:induction false} FullChunkOutcome(id: StreamID, left: bytes, chunk: nat, pack: Packing, unpack: Unpacking)
    requires 0 < chunk <= |left| && Inverse(pack, unpack)
    ensures var ms := FileMessages(id, left, chunk, pack);
            && WellShaped(ms, id, chunk, unpack)
            && Payload(ms, id, unpack) == Some(left)
            && |ms| == |left| / chunk + (if |left| % chunk == 0 then 1 else 2)
            && ms[|ms| - 1].reason == (if |left| % chunk == 0 then CLOSE_UNDEFINED else CLOSE_TRANSFER_COMPLETE)
    decreases |left|, 0
  {
    var head, tail := left[..chunk], left[chunk..];
    var rest := FileMessages(id, tail, chunk, pack);
    var ms := [Data(id, pack(head))] + rest;
    assert FileMessages(id, left, chunk, pack) == ms;
    hide FileMessages, Payload;
    ChunkLoopOutcome(id, tail, chunk, pack, unpack);
    ByteStream.DivStep(|left|, chunk);
    assert unpack(pack(head)) == Some(head) && left == head + tail;
    assert ms[1..] == rest;
    PayloadCons(Data(id, pack(head)), rest, id, unpack, head, tail);
    ShapeCons(ms, id, chunk, unpack);
  }

  lemma ShapeCons(ms: seq<Message>, id: StreamID, chunk: nat, unpack: Unpacking)
    requires ms != [] && WellShaped(ms[1..], id, chunk, unpack)
    requires ms[0].Data? && ms[0].dataId == id && unpack(ms[0].data).Some? && |unpack(ms[0].data).value| == chunk
    ensures WellShaped(ms, id, chunk, unpack)
  {
    forall i | 0 < i < |ms| ensures ms[i] == ms[1..][i - 1] {
    }
  }

  // ------------------------------------------------- a stream that is cut off

  /** The number of payload bytes in the first `n` messages. */
  function Received(left: nat, chunk: nat, n: nat): (r: nat)
    requires chunk > 0
    ensures r <= left
    decreases n
  {
    if n == 0 then 0
    else if left < chunk then left
    else chunk + Received(left - chunk, chunk, n - 1)
  }

  /** Messages that reach the client before a cut carry a prefix of what was left, in whole chunks;
      without the Close it is complete only if nothing but the Close is missing. */
  lemma {:induction false} CutPayload(id: StreamID, left: bytes, chunk: nat, pack: Packing, unpack: Unpacking, n: nat)
    requires chunk > 0 && Inverse(pack, unpack) && n <= |FileMessages(id, left, chunk, pack)|
    ensures Payload(FileMessages(id, left, chunk, pack)[..n], id, unpack) == Some(left[..Received(|left|, chunk, n)])
    ensures n >= |FileMessages(id, left, chunk, pack)| - 1 ==> Received(|left|, chunk, n) == |left|
    decreases |left|
  {
    if n == 0 {
      assert FileMessages(id, left, chunk, pack)[..0] == [] && left[..0] == [];
    } else if |left| < chunk {
      CutLast(id, left, chunk, pack, unpack, n);
    } else {
      var head, tail := left[..chunk], left[chunk..];
      var rest, k := FileMessages(id, tail, chunk, pack), Received(|tail|, chunk, n - 1);
      assert FileMessages(id, left, chunk, pack) == [Data(id, pack(head))] + rest;
      assert Received(|left|, chunk, n) == chunk + k;
      CutPayload(id, tail, chunk, pack, unpack, n - 1);
      hide FileMessages, Payload, Received;
      assert unpack(pack(head)) == Some(head);
      CutStep(Data(id, pack(head)), rest, id, unpack, n, left, chunk, k);
    }
  }

  lemma CutStep(d: Message, rest: seq<Message>, id: StreamID, unpack: Unpacking, n: nat, left: bytes, chunk: nat, k: nat)
    requires 0 < n <= 1 + |rest| && chunk + k <= |left|
    requires d.Data? && d.dataId == id && unpack(d.data) == Some(left[..chunk])
    requires Payload(rest[..n - 1], id, unpack) == Some(left[chunk..][..k])
    ensures Payload(([d] + rest)[..n], id, unpack) == Some(left[..chunk + k])
  {
    hide Payload;
    PayloadCons(d, rest[..n - 1], id, unpack, left[..chunk], left[chunk..][..k]);
    assert ([d] + rest)[..n] == [d] + rest[..n - 1];
    assert left[..chunk] + left[chunk..][..k] == left[..chunk + k];
  }

  lemma CutLast(id: StreamID, left: bytes, chunk: nat, pack: Packing, unpack: Unpacking, n: nat)
    requires |left| < chunk && Inverse(pack, unpack) && 0 < n <= |FileMessages(id, left, chunk, pack)|
    ensures Payload(FileMessages(id, left, chunk, pack)[..n], id, unpack) == Some(left)
  {
    var ms := FileMessages(id, left, chunk, pack);
    if n == |ms| {
      ChunkLoopOutcome(id, left, chunk, pack, unpack);
      assert ms[..n] == ms;
    } else {
      assert unpack(pack(left)) == Some(left) && left + [] == left;
      assert ms[..n] == [Data(id, pack(left))] + [];
      PayloadCons(Data(id, pack(left)), [], id, unpack, left, []);
    }
  }

  /** A cut leaves a rest that has the same remainder by the chunk size, or leaves nothing. */
  lemma {:induction false} CutRemainder(left: nat, chunk: nat, n: nat)
    requires chunk > 0
    ensures var rest := left - Received(left, chunk, n); rest == 0 || rest % chunk == left % chunk
    decreases n
  {
    if n > 0 && left >= chunk {
      CutRemainder(left - chunk, chunk, n - 1);
      ByteStream.DivStep(left, chunk);
    }
  }
}
