/** The reader that puts data packets back into order (btp/data_reader.go).

    A packet carries its unbounded number `num` as history; the reader itself only ever looks at
    the 16-bit number `SeqNr()`. */
module DataReader {
  import opened Prelude
  import opened PacketNumbers

  datatype Packet = Packet(num: nat, payload: bytes) {
    function SeqNr(): PacketNumber { Wire(num) }
  }

  /** Ring, next 16-bit number, and whether a call of Next is suspended on the empty channel. */
  datatype Reader = Reader(ring: seq<Option<Packet>>, next: PacketNumber, waiting: bool)

  function FreshReader(capacity: nat, next: PacketNumber): Reader
  {
    Reader(seq(capacity, _ => None), next, false)
  }

  /** The start of a call: hand out whatever sits in the slot of the next number. */
  function Begin(r: Reader): (Reader, Option<Packet>)
    requires |r.ring| > 0 && !r.waiting
  {
    var i := r.next % |r.ring|;
    if r.ring[i].Some? then
      (r.(ring := r.ring[i := None], next := Succ(r.next)), r.ring[i])
    else
      (r.(waiting := true), None)
  }

  /** One packet taken from the channel by the waiting call: hand it out or store it. */
  function Accept(r: Reader, p: Packet): (Reader, Option<Packet>)
    requires |r.ring| > 0 && r.waiting
  {
    if r.next == p.SeqNr() then
      (r.(next := Succ(r.next), waiting := false), Some(p))
    else
      (r.(ring := r.ring[p.SeqNr() % |r.ring| := Some(p)]), None)
  }

  datatype Outcome = Got(packet: Packet) | Eof | Blocked

  /** The waiting call works through the channel until it can return or the channel is empty. */
  function Drain(r: Reader, chan: seq<Option<Packet>>, closed: bool)
    : (result: (Reader, seq<Option<Packet>>, Outcome))
    requires |r.ring| > 0 && r.waiting
    ensures |result.0.ring| == |r.ring|
    ensures result.0.waiting <==> result.2.Blocked?
    decreases |chan|
  {
    if chan == [] then
      if closed then (r.(waiting := false), chan, Eof) else (r, chan, Blocked)
    else if chan[0].None? then
      Drain(r, chan[1..], closed)
    else
      var (r', out) := Accept(r, chan[0].value);
      if out.Some? then (r', chan[1..], Got(out.value)) else Drain(r', chan[1..], closed)
  }

  /** A call of Next, or the resumption of the call that is waiting. */
  function NextCall(r: Reader, chan: seq<Option<Packet>>, closed: bool)
    : (result: (Reader, seq<Option<Packet>>, Outcome))
    requires |r.ring| > 0
    ensures |result.0.ring| == |r.ring|
    ensures result.0.waiting <==> result.2.Blocked?
  {
    if r.waiting then Drain(r, chan, closed)
    else
      var (r', out) := Begin(r);
      if out.Some? then (r', chan, Got(out.value)) else Drain(r', chan, closed)
  }

  /** The slot of the next number holds a packet with that number. */
  predicate HoldsNext(r: Reader)
    requires |r.ring| > 0
  {
    var item := r.ring[r.next % |r.ring|];
    item.Some? && item.value.SeqNr() == r.next
  }

  /** A call waits only when it found no next packet. */
  predicate Honest(r: Reader)
    requires |r.ring| > 0
  {
    r.waiting ==> !HoldsNext(r)
  }

  lemma {:induction false} DrainStarves(r: Reader, chan: seq<Option<Packet>>, closed: bool)
    requires |r.ring| > 0 && r.waiting && Honest(r)
    ensures var (r', chan', out) := Drain(r, chan, closed);
            && Honest(r')
            && (!out.Got? ==> chan' == [] && !HoldsNext(r') && (out.Eof? <==> closed))
            && (out.Got? <==> exists i :: 0 <= i < |chan| && chan[i].Some? && chan[i].value.SeqNr() == r.next)
    decreases |chan|
  {
    if chan == [] {
    } else {
      assert forall i | 0 < i < |chan| :: chan[i] == chan[1..][i - 1];
      if chan[0].None? {
        DrainStarves(r, chan[1..], closed);
      } else if Accept(r, chan[0].value).1.None? {
        DrainStarves(Accept(r, chan[0].value).0, chan[1..], closed);
      }
      assert forall i | 0 <= i < |chan[1..]| :: chan[1..][i] == chan[i + 1];
    }
  }

  /** A call that starts with an empty slot returns a packet if and only if one with the next number is
      queued; otherwise it uses up the queue, and it ends only when the stream is closed. */
  lemma NextStarves(r: Reader, chan: seq<Option<Packet>>, closed: bool)
    requires |r.ring| > 0 && Honest(r)
    ensures var (r', chan', out) := NextCall(r, chan, closed);
            && Honest(r')
            && (!out.Got? ==> chan' == [] && !HoldsNext(r') && (out.Eof? <==> closed))
            && (out.Got? <==> || (!r.waiting && r.ring[r.next % |r.ring|].Some?)
                              || exists i :: 0 <= i < |chan| && chan[i].Some? && chan[i].value.SeqNr() == r.next)
  {
    if r.waiting {
      DrainStarves(r, chan, closed);
    } else if Begin(r).1.None? {
      DrainStarves(Begin(r).0, chan, closed);
    }
  }

  /** No packet is stored. */
  predicate Empty(r: Reader)
  {
    forall i | 0 <= i < |r.ring| :: r.ring[i].None?
  }

  lemma NextOnEmpty(r: Reader, closed: bool)
    requires |r.ring| > 0 && Empty(r)
    ensures Empty(NextCall(r, [], closed).0) && NextCall(r, [], closed).1 == []
  {
  }

  class SequentialDataReader {
    var dataChan: seq<Option<Packet>>
    var closed: bool
    var nextSeqNr: PacketNumber
    var waiting: bool
    const buf: array<Option<Packet>>
    // everything handed out so far, oldest first
    ghost var handedOut: seq<Packet>

    ghost predicate Valid()
      reads this, buf
    {
      buf.Length > 0 && Honest(State())
    }

    ghost function State(): Reader
      reads this, buf
    {
      Reader(buf[..], nextSeqNr, waiting)
    }

    constructor (bufCapacity: nat, next: PacketNumber)
      requires bufCapacity > 0
      ensures Valid() && fresh(buf)
      ensures State() == FreshReader(bufCapacity, next)
      ensures dataChan == [] && !closed && handedOut == []
    {
      dataChan, closed, nextSeqNr, waiting := [], false, next, false;
      handedOut := [];
      buf := new Option<Packet>[bufCapacity](_ => None);
    }

    /** Queues a packet behind the ones that wait to be taken. */
    method Push(data: Option<Packet>)
      requires !closed
      modifies this`dataChan
      ensures dataChan == old(dataChan) + [data]
    {
      dataChan := dataChan + [data];
    }

    method Close()
      modifies this`closed
      ensures closed
    {
      closed := true;
    }

    /** Returns the next packet; Blocked means that the call waits for more packets. */
    method Next() returns (out: Outcome)
      requires Valid()
      modifies this`dataChan, this`nextSeqNr, this`waiting, this`handedOut, buf
      ensures Valid()
      ensures (State(), dataChan, out) == NextCall(old(State()), old(dataChan), closed)
      ensures handedOut == old(handedOut) + (if out.Got? then [out.packet] else [])
    {
      NextStarves(State(), dataChan, closed);
      if !waiting {
        var nextIdx := nextSeqNr % buf.Length;
        if buf[nextIdx].Some? {
          out := Got(buf[nextIdx].value);
          buf[nextIdx] := None;
          nextSeqNr := Succ(nextSeqNr);
          handedOut := handedOut + [out.packet];
          return;
        }
        waiting := true;
      }
      ghost var start := State();
      while dataChan != []
        invariant waiting && handedOut == old(handedOut)
        invariant Drain(State(), dataChan, closed) == Drain(start, old(dataChan), closed)
        decreases |dataChan|
      {
        ghost var r := State();
        var newData := dataChan[0];
        dataChan := dataChan[1..];
        if newData.None? {
          continue;
        }
        if nextSeqNr == newData.value.SeqNr() {
          nextSeqNr := Succ(nextSeqNr);
          waiting := false;
          out := Got(newData.value);
          handedOut := handedOut + [out.packet];
          return;
        }
        buf[newData.value.SeqNr() % buf.Length] := newData;
        assert State() == Accept(r, newData.value).0;
      }
      if closed {
        waiting := false;
        out := Eof;
      } else {
        out := Blocked;
      }
    }
  }

  // ------------------------------------------------- the unbounded reference

  /** The reader one would write without wrap-around: a map from number to packet. */
  datatype Ideal = Ideal(pending: map<nat, Packet>, next: nat, waiting: bool)

  function IdealBegin(a: Ideal): (Ideal, Option<Packet>)
    requires !a.waiting
  {
    if a.next in a.pending then
      (a.(pending := a.pending - {a.next}, next := a.next + 1), Some(a.pending[a.next]))
    else
      (a.(waiting := true), None)
  }

  function IdealAccept(a: Ideal, p: Packet): (Ideal, Option<Packet>)
    requires a.waiting
  {
    if p.num == a.next then
      (a.(next := a.next + 1, waiting := false), Some(p))
    else
      (a.(pending := a.pending[p.num := p]), None)
  }

  /** The first number that the ring may hold. */
  function Base(a: Ideal): nat
  {
    if a.waiting then a.next + 1 else a.next
  }

  /** The ring holds exactly the pending packets, each in its own slot. */
  ghost predicate Represents(r: Reader, a: Ideal)
  {
    && |r.ring| > 0
    && r.next == Wire(a.next)
    && r.waiting == a.waiting
    && (forall m | m in a.pending ::
          && Base(a) <= m < Base(a) + SafeWindow(|r.ring|)
          && a.pending[m].num == m
          && r.ring[Slot(m, |r.ring|)] == Some(a.pending[m]))
    && (forall i | 0 <= i < |r.ring| && r.ring[i].Some? ::
          && r.ring[i].value.num in a.pending
          && a.pending[r.ring[i].value.num] == r.ring[i].value
          && Slot(r.ring[i].value.num, |r.ring|) == i)
  }

  /** The packets the waiting reader may be given: not yet delivered, and within the window. */
  predicate Timely(next: nat, p: Packet, capacity: nat)
    requires capacity > 0
  {
    next <= p.num <= next + SafeWindow(capacity) && p.num < next + CIRCLE
  }

  lemma FreshRepresents(capacity: nat, first: nat)
    requires capacity > 0
    ensures Represents(FreshReader(capacity, Wire(first)), Ideal(map[], first, false))
  {
  }

  /** Pending numbers that share a slot are one number. */
  lemma PendingSlots(r: Reader, a: Ideal, m: nat, n: nat)
    requires |r.ring| > 0
    requires Base(a) <= m < Base(a) + SafeWindow(|r.ring|)
    requires Base(a) <= n < Base(a) + SafeWindow(|r.ring|)
    requires Slot(m, |r.ring|) == Slot(n, |r.ring|)
    ensures m == n
  {
    if m < n {
      SlotsDistinctInside(m, n, |r.ring|);
    } else if n < m {
      SlotsDistinctInside(n, m, |r.ring|);
    }
  }

  lemma BeginRefines(r: Reader, a: Ideal)
    requires Represents(r, a) && !a.waiting
    ensures Begin(r).1 == IdealBegin(a).1
    ensures Represents(Begin(r).0, IdealBegin(a).0)
  {
    var i := Slot(a.next, |r.ring|);
    assert i == r.next % |r.ring|;
    WireSucc(a.next);
    if r.ring[i].Some? {
      PendingSlots(r, a, r.ring[i].value.num, a.next);
      var a' := IdealBegin(a).0;
      forall m | m in a'.pending ensures Slot(m, |r.ring|) != i {
        if Slot(m, |r.ring|) == i { PendingSlots(r, a, m, a.next); }
      }
    }
  }

  lemma AcceptRefines(r: Reader, a: Ideal, p: Packet)
    requires Represents(r, a) && a.waiting && Timely(a.next, p, |r.ring|)
    ensures Accept(r, p).1 == IdealAccept(a, p).1
    ensures Represents(Accept(r, p).0, IdealAccept(a, p).0)
  {
    WireSucc(a.next);
    if p.SeqNr() == r.next {
      WireInjective(p.num, a.next);
    } else {
      var i := Slot(p.num, |r.ring|);
      forall m | m in a.pending && m != p.num ensures Slot(m, |r.ring|) != i {
        if Slot(m, |r.ring|) == i { PendingSlots(r, a, m, p.num); }
      }
    }
  }
}
