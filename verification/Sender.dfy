/** The sending half of a connection as a value: number generator, unacknowledged packets, window. */
module Sender {
  import opened Prelude
  import opened PacketNumbers
  import opened DataReader
  import Congestion

  /** A packet that awaits its acknowledgement, and how often it has been sent again. */
  datatype Inflight = Inflight(packet: Packet, retransmits: nat)

  datatype State = State(gen: PacketNumber, inflight: map<PacketNumber, Inflight>, window: Congestion.Window)

  /** `num` is the unbounded number of the packet; the code knows only `gen`. */
  function Transmit(s: State, num: nat, payload: bytes): State
  {
    State(Succ(s.gen),
          s.inflight[s.gen := Inflight(Packet(num, payload), 0)],
          Congestion.Sent(s.window, 1))
  }

  /** The packet is watched and counted before it is written; when writing fails the number stays. */
  function FailedTransmit(s: State, num: nat, payload: bytes): State
  {
    Transmit(s, num, payload).(gen := s.gen)
  }

  /** After a failed write the next packet takes the same number: the first payload is forgotten, while
      the window counts both. */
  lemma FailedWriteForgets(s: State, num: nat, lost: bytes, payload: bytes)
    requires s.gen !in s.inflight && s.window.pipe == |s.inflight|
    ensures var t := Transmit(FailedTransmit(s, num, lost), num, payload);
            && t.inflight == s.inflight[s.gen := Inflight(Packet(num, payload), 0)]
            && t.window.pipe == |t.inflight| + 1
  {
    var t := Transmit(FailedTransmit(s, num, lost), num, payload);
    assert t.inflight == s.inflight[s.gen := Inflight(Packet(num, payload), 0)];
    assert t.inflight.Keys == s.inflight.Keys + {s.gen};
    assert |t.inflight| == |t.inflight.Keys|;
  }

  function Retransmit(s: State, k: PacketNumber): State
    requires k in s.inflight
  {
    s.(inflight := s.inflight[k := s.inflight[k].(retransmits := s.inflight[k].retransmits + 1)],
       window := Congestion.React(s.window, Congestion.Loss))
  }

  function ProcessAck(s: State, k: PacketNumber, srtt: int): State
  {
    if k in s.inflight then
      var w := Congestion.Acked(s.window, 1);
      s.(inflight := s.inflight - {k},
         window := if s.inflight[k].retransmits == 0 then Congestion.Measured(w, srtt) else w)
    else
      s.(window := Congestion.React(s.window, Congestion.Duplicate))
  }

  /** A packet that is sent is watched under the number in use, sent once so far, and takes one place. */
  lemma TransmitLaws(s: State, num: nat, payload: bytes)
    ensures var t := Transmit(s, num, payload);
            && t.gen == (if s.gen == 65535 then 0 else s.gen + 1)
            && s.gen in t.inflight && t.inflight[s.gen].packet == Packet(num, payload)
            && t.inflight[s.gen].retransmits == 0
            && (forall j | j != s.gen :: j in t.inflight <==> j in s.inflight)
            && (forall j | j in s.inflight && j != s.gen :: t.inflight[j] == s.inflight[j])
            && t.window.pipe == s.window.pipe + 1 && t.window.cwnd == s.window.cwnd
  {
  }

  /** An acknowledgement of a watched packet frees one place in the window and leaves its width; it
      measures the round-trip time only of a packet that was sent once. One that names no watched packet
      narrows the window by three tenths and changes nothing else that matters for sending. */
  lemma AckLaws(s: State, k: PacketNumber, srtt: int)
    ensures var t := ProcessAck(s, k, srtt);
            && t.gen == s.gen && k !in t.inflight
            && (forall j | j != k :: j in t.inflight <==> j in s.inflight)
            && (forall j | j in t.inflight :: t.inflight[j] == s.inflight[j])
    ensures k in s.inflight && s.window.pipe > 0 ==>
              var t := ProcessAck(s, k, srtt);
              && t.window.cwnd == s.window.cwnd && t.window.pipe == s.window.pipe - 1
              && t.window.rttCurr == if s.inflight[k].retransmits == 0 then srtt + 1 else s.window.rttCurr
    ensures k !in s.inflight ==>
              var t := ProcessAck(s, k, srtt);
              && t.inflight == s.inflight && t.window.pipe == s.window.pipe && t.window.rttCurr == s.window.rttCurr
              && -5 < 10 * t.window.cwnd - 7 * s.window.cwnd <= 5
  {
  }

  /** A retransmission counts for its packet alone, and narrows the window by three tenths. */
  lemma RetransmitLaws(s: State, k: PacketNumber)
    requires k in s.inflight
    ensures var t := Retransmit(s, k);
            && t.gen == s.gen && t.inflight.Keys == s.inflight.Keys
            && t.inflight[k].packet == s.inflight[k].packet
            && t.inflight[k].retransmits == s.inflight[k].retransmits + 1
            && (forall j | j in s.inflight && j != k :: t.inflight[j] == s.inflight[j])
            && t.window.pipe == s.window.pipe && -5 < 10 * t.window.cwnd - 7 * s.window.cwnd <= 5
  {
  }

  /** One pass over expired packets, in some order. */
  function RetransmitAll(s: State, order: seq<PacketNumber>): (t: State)
    requires forall k | k in order :: k in s.inflight
    ensures t.inflight.Keys == s.inflight.Keys
    decreases |order|
  {
    if order == [] then s else
      var last := |order| - 1;
      Retransmit(RetransmitAll(s, order[..last]), order[last])
  }

  /** A pass leaves the packets that it does not visit alone. */
  lemma {:induction false} RetransmitAllOther(s: State, order: seq<PacketNumber>, k: PacketNumber)
    requires forall k | k in order :: k in s.inflight
    requires k in s.inflight && k !in order
    ensures RetransmitAll(s, order).inflight[k] == s.inflight[k]
    decreases |order|
  {
    if order == [] {
    } else {
      RetransmitAllOther(s, order[..|order| - 1], k);
    }
  }
}
