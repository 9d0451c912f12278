/** How a connection cuts written bytes into packet payloads (btp/conn.go, Write). */
module ByteStream {
  import opened Prelude
  import opened DataReader
  import PacketNumbers

  /** Full payloads of `max` bytes followed by one strictly shorter payload, which may be empty. */
  function Packetize(b: bytes, max: nat): (r: seq<bytes>)
    requires max > 0
    decreases |b|
  {
    if |b| < max then [b] else [b[..max]] + Packetize(b[max..], max)
  }

  /** What Write queues: nothing for an empty argument. */
  function Queued(b: bytes, max: nat): seq<bytes>
    requires max > 0
  {
    if b == [] then [] else Packetize(b, max)
  }

  /** Cutting loses nothing. */
  lemma {:induction false} PacketizeFlatten(b: bytes, max: nat)
    requires max > 0
    ensures Flatten(Packetize(b, max)) == b
    decreases |b|
  {
    if |b| < max {
      assert Flatten([b]) == b + Flatten([]);
    } else {
      PacketizeFlatten(b[max..], max);
      assert b == b[..max] + b[max..];
    }
  }

  /** Writing needs |b| / max + 1 packets, all of them full but the last, which holds the remainder. */
  lemma {:induction false} PacketizeSizes(b: bytes, max: nat)
    requires max > 0
    ensures |Packetize(b, max)| == |b| / max + 1
    ensures forall i | 0 <= i < |Packetize(b, max)| ::
              |Packetize(b, max)[i]| == if i < |Packetize(b, max)| - 1 then max else |b| % max
    decreases |b|
  {
    if |b| < max {
      PacketNumbers.DivModUnique(|b|, max, 0, |b|);
    } else {
      var all, rest := Packetize(b, max), Packetize(b[max..], max);
      PacketizeSizes(b[max..], max);
      DivStep(|b|, max);
      assert all == [b[..max]] + rest;
      forall i | 0 <= i < |all|
        ensures |all[i]| == if i < |all| - 1 then max else |b| % max
      {
        if i > 0 { assert all[i] == rest[i - 1]; }
      }
    }
  }

  /** What Write queues for a non-empty argument: |b| / max + 1 payloads, of which every one but the last
      has exactly `max` bytes, and the last has the remainder. */
  lemma QueuedSizes(b: bytes, max: nat)
    requires max > 0 && b != []
    ensures |Queued(b, max)| == |b| / max + 1
    ensures forall i | 0 <= i < |Queued(b, max)| :: |Queued(b, max)[i]| == if i < |b| / max then max else |b| % max
  {
    PacketizeSizes(b, max);
  }

  lemma PacketizeStep(before: seq<bytes>, b: bytes, max: nat)
    requires 0 < max <= |b|
    ensures before + [b[..max]] + Packetize(b[max..], max) == before + Packetize(b, max)
  {
  }

  lemma DivStep(n: nat, d: nat)
    requires 0 < d <= n
    ensures n / d == (n - d) / d + 1 && n % d == (n - d) % d
  {
    var q, r := (n - d) / d, (n - d) % d;
    assert n == (q + 1) * d + r;
    PacketNumbers.DivModUnique(n, d, q + 1, r);
  }

  lemma QueuedSound(b: bytes, max: nat)
    requires max > 0
    ensures Flatten(Queued(b, max)) == b
  {
    if b != [] {
      PacketizeFlatten(b, max);
    }
  }

  lemma QueuedAppend(queued: seq<bytes>, b: bytes, max: nat)
    requires max > 0
    ensures Flatten(queued + Queued(b, max)) == Flatten(queued) + b
  {
    QueuedSound(b, max);
    FlattenConcat(queued, Queued(b, max));
  }

  function Payloads(packets: seq<Packet>): (r: seq<bytes>)
    ensures |r| == |packets|
    ensures forall i | 0 <= i < |r| :: r[i] == packets[i].payload
  {
    seq(|packets|, i requires 0 <= i < |packets| => packets[i].payload)
  }

  /** The bytes that a sequence of packets carries. */
  function Carried(packets: seq<Packet>): bytes
  {
    Flatten(Payloads(packets))
  }

  lemma CarriedNone(b: bytes)
    ensures b + Carried([]) == b
  {
    assert Payloads([]) == [];
  }

  lemma CarriedSnoc(packets: seq<Packet>, p: Packet)
    ensures Carried(packets + [p]) == Carried(packets) + p.payload
  {
    assert Payloads(packets + [p]) == Payloads(packets) + [p.payload];
    FlattenSnoc(Payloads(packets), p.payload);
  }

  lemma CarriedPrefix(a: seq<Packet>, b: seq<Packet>)
    requires a <= b
    ensures Carried(a) <= Carried(b)
  {
    assert Payloads(a) == Payloads(b)[..|a|];
    FlattenPrefix(Payloads(a), Payloads(b));
  }
}
