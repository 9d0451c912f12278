/** A connection: Write and Read towards the user, transmit, retransmit and message handling
    towards the network (btp/conn.go). Writes to the socket append to `wire`. */
module Connection {
  import opened Prelude
  import opened PacketNumbers
  import opened DataReader
  import opened ByteStream
  import Congestion
  import Handshake
  import Sender

  datatype Datagram = DataGram(packet: Packet) | AckGram(seqNr: PacketNumber)

  datatype ConnError = NotReady | EndOfStream | WouldBlock | InvalidSeqNr | InvalidHandshakeOption | SocketError

  // ------------------------------------------------ Next always makes progress

  /** The number of occupied ring slots. */
  function Stored(ring: seq<Option<Packet>>): nat
  {
    if ring == [] then 0 else Stored(ring[1..]) + if ring[0].Some? then 1 else 0
  }

  lemma {:induction false} StoredUpdate(ring: seq<Option<Packet>>, i: nat, item: Option<Packet>)
    requires i < |ring|
    ensures Stored(ring[i := item])
         == Stored(ring) - (if ring[i].Some? then 1 else 0) + (if item.Some? then 1 else 0)
  {
    if i > 0 {
      assert ring[i := item][1..] == ring[1..][i - 1 := item];
      StoredUpdate(ring[1..], i - 1, item);
    } else {
      assert ring[i := item][1..] == ring[1..];
    }
  }

  lemma {:induction false} DrainConsumes(r: Reader, chan: seq<Option<Packet>>, closed: bool)
    requires |r.ring| > 0 && r.waiting
    ensures var (r', chan', out) := Drain(r, chan, closed);
            Stored(r'.ring) + |chan'| + (if out.Got? then 1 else 0) <= Stored(r.ring) + |chan|
    decreases |chan|
  {
    if chan == [] {
    } else {
      if chan[0].None? {
        DrainConsumes(r, chan[1..], closed);
      } else if !Accept(r, chan[0].value).1.Some? {
        StoredUpdate(r.ring, chan[0].value.SeqNr() % |r.ring|, chan[0]);
        DrainConsumes(Accept(r, chan[0].value).0, chan[1..], closed);
      }
    }
  }

  /** Every packet that Next returns was buffered or queued before and is so no more. */
  lemma NextConsumes(r: Reader, chan: seq<Option<Packet>>, closed: bool)
    requires |r.ring| > 0
    ensures var (r', chan', out) := NextCall(r, chan, closed);
            Stored(r'.ring) + |chan'| + (if out.Got? then 1 else 0) <= Stored(r.ring) + |chan|
  {
    if r.waiting {
      DrainConsumes(r, chan, closed);
    } else if Begin(r).1.Some? {
      StoredUpdate(r.ring, r.next % |r.ring|, None);
    } else {
      DrainConsumes(Begin(r).0, chan, closed);
    }
  }

  /** Calls Next until `n` bytes are there, with `have` bytes at hand: the packets taken, and why no more
      could be taken. */
  function Fill(r: Reader, chan: seq<Option<Packet>>, closed: bool, have: nat, n: nat)
    : (Reader, seq<Option<Packet>>, seq<Packet>, Option<ConnError>)
    requires |r.ring| > 0
    decreases Stored(r.ring) + |chan|
  {
    if have >= n then (r, chan, [], None)
    else
      NextConsumes(r, chan, closed);
      var (r', chan', out) := NextCall(r, chan, closed);
      match out
      case Eof => (r', chan', [], Some(EndOfStream))
      case Blocked => (r', chan', [], Some(WouldBlock))
      case Got(p) =>
        var (r2, chan2, more, error) := Fill(r', chan', closed, have + |p.payload|, n);
        (r2, chan2, [p] + more, error)
  }

  /** No packet is taken that is not needed: without the last one taken there are too few bytes, and there
      are enough exactly when there is no error. */
  lemma {:induction false} FillMinimal(r: Reader, chan: seq<Option<Packet>>, closed: bool, have: nat, n: nat)
    requires |r.ring| > 0
    ensures var (_, _, taken, error) := Fill(r, chan, closed, have, n);
            && (error.None? <==> have + |Carried(taken)| >= n)
            && (taken != [] ==> have + |Carried(taken[..|taken| - 1])| < n)
    decreases Stored(r.ring) + |chan|
  {
    hide NextCall, Stored, Carried;
    NoBytes();
    if have < n {
      NextConsumes(r, chan, closed);
      var (r', chan', out) := NextCall(r, chan, closed);
      if out.Got? {
        FillMinimal(r', chan', closed, have + |out.packet.payload|, n);
        var more := Fill(r', chan', closed, have + |out.packet.payload|, n).2;
        CarriedCons(out.packet, more);
        if more == [] {
          assert ([out.packet] + more)[..|more|] == [];
        } else {
          assert ([out.packet] + more)[..|more|] == [out.packet] + more[..|more| - 1];
          CarriedCons(out.packet, more[..|more| - 1]);
        }
      }
    }
  }

  lemma NoBytes()
    ensures Carried([]) == []
  {
    assert Payloads([]) == [];
  }

  lemma CarriedCons(p: Packet, more: seq<Packet>)
    ensures |Carried([p] + more)| == |p.payload| + |Carried(more)|
  {
    assert Payloads([p] + more) == [p.payload] + Payloads(more);
    assert ([p.payload] + Payloads(more))[1..] == Payloads(more);
  }

  type Filled = (Reader, seq<Option<Packet>>, seq<Packet>, Option<ConnError>)

  /** `all` is what `now` comes to, after the packets already taken. */
  predicate FilledSoFar(all: Filled, taken: seq<Packet>, now: Filled)
  {
    all == (now.0, now.1, taken + now.2, now.3)
  }

  lemma FillStart(all: Filled)
    ensures FilledSoFar(all, [], all)
  {
    assert [] + all.2 == all.2;
  }

  lemma FillNext(r: Reader, chan: seq<Option<Packet>>, closed: bool, have: nat, n: nat, all: Filled, taken: seq<Packet>)
    requires |r.ring| > 0 && FilledSoFar(all, taken, Fill(r, chan, closed, have, n))
    ensures have >= n ==> all == (r, chan, taken, None)
    ensures have < n ==>
              var (r', chan', out) := NextCall(r, chan, closed);
              match out
              case Eof => all == (r', chan', taken, Some(EndOfStream))
              case Blocked => all == (r', chan', taken, Some(WouldBlock))
              case Got(p) => FilledSoFar(all, taken + [p], Fill(r', chan', closed, have + |p.payload|, n))
  {
    hide NextCall, Stored;
    assert taken + [] == taken;
    if have < n {
      var (r', chan', out) := NextCall(r, chan, closed);
      if out.Got? {
        var more := Fill(r', chan', closed, have + |out.packet.payload|, n).2;
        assert taken + ([out.packet] + more) == (taken + [out.packet]) + more;
      }
    }
  }

  // ------------------------------------------------------ retransmission passes

  /** `order` visits elements of `todo` once each, and all of them unless the pass broke off. */
  ghost predicate PassOver(order: seq<PacketNumber>, todo: set<PacketNumber>, broken: bool)
  {
    && (forall i, j | 0 <= i < j < |order| :: order[i] != order[j])
    && (forall k | k in order :: k in todo)
    && (!broken ==> forall k | k in todo :: k in order)
  }

  /** What a pass in the given order writes to the socket. */
  ghost function Resent(inflight: map<PacketNumber, Sender.Inflight>, order: seq<PacketNumber>): seq<Datagram>
    requires forall k | k in order :: k in inflight
  {
    seq(|order|, i requires 0 <= i < |order| => DataGram(inflight[order[i]].packet))
  }

  lemma PassExtends(order: seq<PacketNumber>, all: set<PacketNumber>,
                    inflight: map<PacketNumber, Sender.Inflight>, k: PacketNumber)
    requires PassOver(order, all, true) && all <= inflight.Keys && k in all && k !in order
    ensures PassOver(order + [k], all, true)
    ensures (order + [k])[..|order|] == order && (order + [k])[|order|] == k
    ensures Resent(inflight, order + [k]) == Resent(inflight, order) + [DataGram(inflight[k].packet)]
  {
  }

  // -------------------------------------------------------------- the object

  class Conn {
    var isConnOpen: bool
    var isServerConnection: bool
    var initCwndSize: nat
    var maxCwndSize: nat
    var maxPacketSize: nat
    var maxRetransmits: nat
    var remotePort: nat

    const gen: NumberGenerator
    const cc: Congestion.ElasticTcpAlgorithm
    const reader: SequentialDataReader

    var txChan: seq<bytes>
    var txPrioChan: seq<PacketNumber>
    var inflight: map<PacketNumber, Sender.Inflight>
    var readBuf: bytes
    var wire: seq<Datagram>

    // history: the unbounded number of the next packet, which only labels packets
    var nextNum: nat
    // history: all payloads queued, and all bytes that Write and Read have moved
    ghost var queued: seq<bytes>
    ghost var written: bytes
    ghost var given: bytes

    /** Both byte streams are intact: queued payloads carry the written bytes, and what was read
        together with the read buffer is what the delivered packets carry. */
    ghost predicate Valid()
      reads this, gen, reader, reader.buf
    {
      && gen.next == Wire(nextNum)
      && reader.Valid()
      && (!isConnOpen ==> reader.dataChan == [] && Empty(reader.State()))
      && Flatten(queued) == written
      && given + readBuf == Carried(reader.handedOut)
    }

    ghost function State(): Sender.State
      reads this, gen, cc
    {
      Sender.State(gen.next, inflight, cc.State())
    }

    /** The connection as the handshake sees it. */
    ghost function Opening(): Handshake.Client
      reads this, gen, reader
    {
      Handshake.Client(gen.next, reader.nextSeqNr,
                       Handshake.Options(initCwndSize, maxCwndSize, maxPacketSize), isConnOpen, remotePort)
    }

    /** A server connection as the handshake sees it. */
    ghost function HalfOpen(): Handshake.Server
      reads this, gen, reader
    {
      Handshake.Server(gen.next, reader.nextSeqNr,
                       Handshake.Options(initCwndSize, maxCwndSize, maxPacketSize), isConnOpen)
    }

    constructor (seed: PacketNumber, options: Handshake.Options, retransmits: nat, server: bool, next: PacketNumber)
      ensures Valid() && fresh(gen) && fresh(cc) && fresh(reader) && fresh(reader.buf)
      ensures State() == Sender.State(seed, map[], Congestion.NewWindow(options.initCwndSize, options.maxCwndSize))
      ensures Opening() == Handshake.Client(seed, next, options, false, 0)
      ensures reader.State() == FreshReader(50, next) && reader.dataChan == [] && reader.handedOut == []
      ensures !reader.closed && isServerConnection == server && maxRetransmits == retransmits
      ensures txChan == [] && txPrioChan == [] && readBuf == [] && wire == []
      ensures nextNum == seed && queued == [] && written == [] && given == []
    {
      isConnOpen, isServerConnection, maxRetransmits, remotePort := false, server, retransmits, 0;
      initCwndSize, maxCwndSize, maxPacketSize :=
        options.initCwndSize, options.maxCwndSize, options.maxPacketSize;
      gen := new NumberGenerator(seed);
      cc := new Congestion.ElasticTcpAlgorithm(options.initCwndSize, options.maxCwndSize);
      reader := new SequentialDataReader(50, next);
      txChan, txPrioChan, inflight, readBuf, wire := [], [], map[], [], [];
      nextNum, queued, written, given := seed, [], [], [];
    }

    /** The listener's answer to a Conn message: a half-open connection, and the ConnAck that is sent
        three times from the listening port. */
    static method DoServerHandshake(req: Handshake.ConnMsg, seed: PacketNumber, port: nat,
                                    own: Handshake.Options, retransmits: nat)
      returns (c: Conn, resp: Handshake.ConnAck)
      ensures fresh(c) && c.Valid() && c.isServerConnection
      ensures var s := Handshake.NewServer(seed, req, own);
              && c.gen.next == s.gen && c.reader.nextSeqNr == s.next && c.isConnOpen == s.isOpen
              && Handshake.Options(c.initCwndSize, c.maxCwndSize, c.maxPacketSize) == s.options
      ensures resp == Handshake.Respond(seed, req, port, own)
    {
      c := new Conn(seed, own, retransmits, true, Succ(req.seqNr));
      var actual := req.options;
      if req.options.initCwndSize > own.initCwndSize {
        actual := actual.(initCwndSize := own.initCwndSize);
      }
      if req.options.maxCwndSize > own.maxCwndSize {
        actual := actual.(maxCwndSize := own.maxCwndSize);
      }
      if req.options.maxPacketSize > own.maxPacketSize {
        actual := actual.(maxPacketSize := own.maxPacketSize);
      }
      var serverSeqNr := c.gen.Peek();
      resp := Handshake.ConnAck(req.seqNr, serverSeqNr, port, actual);
    }

    /** A ConnAck opens a client connection that is not open yet; it also counts as an
        acknowledgement of the Conn message, even when its options are refused. */
    method OnConnAck(resp: Handshake.ConnAck, srtt: int) returns (r: Result<bool, ConnError>)
      requires Valid()
      modifies this`inflight, this`txPrioChan, this`isConnOpen, this`remotePort,
               this`initCwndSize, this`maxCwndSize, this`maxPacketSize, cc, reader`nextSeqNr
      ensures Valid()
      ensures var ignored := isServerConnection || old(isConnOpen);
              && Opening() == (if ignored then old(Opening()) else Handshake.OnConnAck(old(Opening()), resp))
              && State() == (if ignored then old(State()) else Sender.ProcessAck(old(State()), resp.seqNr, srtt))
              && txPrioChan == old(txPrioChan) + (if isConnOpen && !old(isConnOpen) then [resp.serverSeqNr] else [])
              && (r.Err? <==> !ignored && !isConnOpen)
    {
      if isServerConnection || isConnOpen {
        return Ok(false);
      }
      hide Flatten, Carried, Sender.ProcessAck, Wire;
      ProcessAck(resp.seqNr, srtt);
      r := CompleteClientHandshake(resp);
      if r.Ok? {
        reader.nextSeqNr := resp.serverSeqNr;
        isConnOpen := true;
      }
    }

    /** Adopts the options and the port of the server and acknowledges its first number. */
    method CompleteClientHandshake(resp: Handshake.ConnAck) returns (r: Result<bool, ConnError>)
      modifies this`txPrioChan, this`remotePort, this`initCwndSize, this`maxCwndSize, this`maxPacketSize
      ensures r.Ok? <==> Handshake.Acceptable(old(Opening()), resp)
      ensures r.Ok? ==> Handshake.Options(initCwndSize, maxCwndSize, maxPacketSize) == resp.actual
      ensures r.Ok? ==> remotePort == resp.port && txPrioChan == old(txPrioChan) + [resp.serverSeqNr]
      ensures r.Err? ==> Opening() == old(Opening()) && txPrioChan == old(txPrioChan)
    {
      if resp.actual.initCwndSize > initCwndSize || resp.actual.maxCwndSize > maxCwndSize {
        return Err(InvalidHandshakeOption);
      }
      initCwndSize, maxCwndSize, maxPacketSize :=
        resp.actual.initCwndSize, resp.actual.maxCwndSize, resp.actual.maxPacketSize;
      remotePort := resp.port;
      txPrioChan := txPrioChan + [resp.serverSeqNr];
      return Ok(true);
    }

    /** Queues `b` cut into payloads. With a packet size of zero the source never comes to an end, unless
        the connection is not open or there is nothing to write. */
    method Write(b: bytes) returns (r: Result<nat, ConnError>)
      requires Valid() && (maxPacketSize > 0 || !isConnOpen || b == [])
      modifies this`txChan, this`queued, this`written
      ensures Valid()
      ensures r.Err? <==> !isConnOpen
      ensures r.Err? ==> r.error == NotReady && txChan == old(txChan) && written == old(written)
      ensures r.Ok? && b == [] ==> txChan == old(txChan) && queued == old(queued)
      ensures r.Ok? && b != [] ==> txChan == old(txChan) + Queued(b, maxPacketSize)
      ensures r.Ok? && b != [] ==> queued == old(queued) + Queued(b, maxPacketSize)
      ensures r.Ok? ==> written == old(written) + b
      ensures r.Ok? && b != [] ==>
                && |txChan| == |old(txChan)| + |b| / maxPacketSize + 1
                && forall i | |old(txChan)| <= i < |txChan| ::
                     |txChan[i]| == if i < |txChan| - 1 then maxPacketSize else |b| % maxPacketSize
    {
      if !isConnOpen {
        return Err(NotReady);
      }
      if b == [] {
        return Ok(0);
      }
      var payload := b;
      while |payload| >= maxPacketSize
        invariant txChan + Packetize(payload, maxPacketSize) == old(txChan) + Packetize(b, maxPacketSize)
        modifies this`txChan
        decreases |payload|
      {
        PacketizeStep(txChan, payload, maxPacketSize);
        txChan := txChan + [payload[..maxPacketSize]];
        payload := payload[maxPacketSize..];
      }
      txChan := txChan + [payload];
      QueuedAppend(queued, b, maxPacketSize);
      QueuedSizes(b, maxPacketSize);
      queued, written := queued + Queued(b, maxPacketSize), written + b;
      return Ok(|payload|);
    }

    /** Fills exactly `n` bytes or returns an error; an error keeps every byte for the next Read. It is
        an error only when everything queued has been looked at and the next packet is not there. */
    method Read(n: nat) returns (r: Result<bytes, ConnError>)
      requires Valid()
      modifies this`readBuf, this`given,
               reader`dataChan, reader`nextSeqNr, reader`waiting, reader`handedOut, reader.buf
      ensures Valid()
      ensures var (rd, chan, packets, error) :=
                Fill(old(reader.State()), old(reader.dataChan), reader.closed, old(|readBuf|), n);
              && reader.State() == rd && reader.dataChan == chan && reader.handedOut == old(reader.handedOut) + packets
              && (if error.Some? then r == Err(error.value) && readBuf == old(readBuf) + Carried(packets)
                  else r.Ok? && r.value + readBuf == old(readBuf) + Carried(packets))
      ensures r.Ok? ==> |r.value| == n && given == old(given) + r.value
      ensures r.Err? ==> given == old(given) && |readBuf| < n
      ensures r.Err? ==> reader.dataChan == [] && !HoldsNext(reader.State())
      ensures r.Err? ==> r.error == if reader.closed then EndOfStream else WouldBlock
    {
      hide Flatten, Carried, NextCall, HoldsNext, Honest, Empty, Stored, Fill, FilledSoFar;
      ghost var all := Fill(reader.State(), reader.dataChan, reader.closed, |readBuf|, n);
      ghost var taken: seq<Packet> := [];
      CarriedNone(readBuf);
      FillStart(all);
      while |readBuf| < n
        invariant Valid() && given == old(given)
        invariant reader.handedOut == old(reader.handedOut) + taken && readBuf == old(readBuf) + Carried(taken)
        invariant FilledSoFar(all, taken, Fill(reader.State(), reader.dataChan, reader.closed, |readBuf|, n))
        decreases Stored(reader.State().ring) + |reader.dataChan|
      {
        NextConsumes(reader.State(), reader.dataChan, reader.closed);
        NextStarves(reader.State(), reader.dataChan, reader.closed);
        FillNext(reader.State(), reader.dataChan, reader.closed, |readBuf|, n, all, taken);
        if !isConnOpen {
          NextOnEmpty(reader.State(), reader.closed);
        }
        ghost var before := reader.handedOut;
        var out := reader.Next();
        match out
        case Eof =>
          assert reader.handedOut == before;
          return Err(EndOfStream);
        case Blocked =>
          assert reader.handedOut == before;
          return Err(WouldBlock);
        case Got(inPacket) =>
          CarriedSnoc(before, inPacket);
          CarriedSnoc(taken, inPacket);
          taken := taken + [inPacket];
          readBuf := readBuf + inPacket.payload;
      }
      FillNext(reader.State(), reader.dataChan, reader.closed, |readBuf|, n, all, taken);
      var b := readBuf[..n];
      readBuf, given := readBuf[n..], given + b;
      return Ok(b);
    }

    /** Sends a payload under the next number and starts watching it. When the socket refuses, the
        packet is watched and counted all the same, but its number is used again. */
    method Transmit(payload: bytes, writes: bool) returns (r: Result<bool, ConnError>)
      requires Valid()
      modifies this`inflight, this`wire, this`nextNum, gen, cc
      ensures Valid() && r.Ok? == writes
      ensures nextNum == old(nextNum) + (if writes then 1 else 0)
      ensures State() == if writes then Sender.Transmit(old(State()), old(nextNum), payload)
                         else Sender.FailedTransmit(old(State()), old(nextNum), payload)
      ensures wire == old(wire) + (if writes then [DataGram(Packet(old(nextNum), payload))] else [])
    {
      var seqNr := gen.Peek();
      var p := Packet(nextNum, payload);
      inflight := inflight[seqNr := Sender.Inflight(p, 0)];
      cc.SentMessages(1);
      if !writes {
        return Err(SocketError);
      }
      wire := wire + [DataGram(p)];
      var n := gen.Next();
      WireSucc(nextNum);
      nextNum := nextNum + 1;
      return Ok(true);
    }

    method Retransmit(k: PacketNumber)
      requires Valid() && k in inflight
      modifies this`inflight, this`wire, cc
      ensures Valid()
      ensures State() == Sender.Retransmit(old(State()), k)
      ensures wire == old(wire) + [DataGram(old(inflight[k].packet))]
    {
      cc.HandleEvent(Congestion.Loss);
      var p := inflight[k];
      wire := wire + [DataGram(p.packet)];
      inflight := inflight[k := p.(retransmits := p.retransmits + 1)];
    }

    /** Retransmits expired packets in the order of the map, and gives up at the first one that
        exceeds the limit. `order` is the order that was taken. */
    method ProcessRetransmission(expired: set<PacketNumber>) returns (broken: bool, ghost order: seq<PacketNumber>)
      requires Valid()
      modifies this`inflight, this`wire, cc
      ensures Valid()
      ensures PassOver(order, expired * old(inflight.Keys), broken) && (broken ==> order != [])
      ensures State() == Sender.RetransmitAll(old(State()), order)
      ensures wire == old(wire) + Resent(old(inflight), order)
      ensures forall i | 0 <= i < |order| ::
                old(inflight)[order[i]].retransmits + 1 > maxRetransmits <==> broken && i == |order| - 1
    {
      hide Flatten, Carried, Congestion.React, Represents;
      var todo := expired * inflight.Keys;
      order, broken := [], false;
      ghost var all := todo;
      while todo != {}
        invariant Valid() && !broken
        invariant PassOver(order, all, true)
        invariant todo <= all && forall k | k in all :: k in todo <==> k !in order
        invariant State() == Sender.RetransmitAll(old(State()), order)
        invariant wire == old(wire) + Resent(old(inflight), order)
        invariant forall k | k in order :: old(inflight)[k].retransmits + 1 <= maxRetransmits
      {
        var k :| k in todo;
        Sender.RetransmitAllOther(old(State()), order, k);
        PassExtends(order, all, old(inflight), k);
        Retransmit(k);
        todo := todo - {k};
        order := order + [k];
        if inflight[k].retransmits > maxRetransmits {
          broken := true;
          return;
        }
      }
    }

    /** Removes the acknowledged packet, or narrows the window for an unexpected acknowledgement. */
    method ProcessAck(seqNr: PacketNumber, srtt: int)
      requires Valid()
      modifies this`inflight, cc
      ensures Valid()
      ensures State() == Sender.ProcessAck(old(State()), seqNr, srtt)
    {
      if seqNr in inflight {
        var p := inflight[seqNr];
        inflight := inflight - {seqNr};
        cc.ReceivedAcks(1);
        if p.retransmits == 0 {
          cc.UpdateRTT(srtt);
        }
      } else {
        cc.HandleEvent(Congestion.Duplicate);
      }
    }

    /** The last message of a server handshake, or an acknowledgement on an open connection. */
    method OnAck(seqNr: PacketNumber, srtt: int) returns (r: Result<bool, ConnError>)
      requires Valid()
      modifies this`inflight, this`isConnOpen, cc
      ensures Valid()
      ensures var opening := isServerConnection && !old(isConnOpen);
              && (r.Err? <==> opening && seqNr != gen.next)
              && isConnOpen == (old(isConnOpen) || (opening && seqNr == gen.next))
              && HalfOpen() == (if opening then Handshake.OnHandshakeAck(old(HalfOpen()), seqNr) else old(HalfOpen()))
              && State() == if opening then old(State()) else Sender.ProcessAck(old(State()), seqNr, srtt)
    {
      if isServerConnection && !isConnOpen {
        var expected := gen.Peek();
        if seqNr != expected {
          return Err(InvalidSeqNr);
        }
        isConnOpen := true;
        return Ok(true);
      }
      ProcessAck(seqNr, srtt);
      return Ok(true);
    }

    /** Acknowledges a data packet, in any order and however often it arrives, and queues it. */
    method OnData(p: Packet) returns (r: Result<bool, ConnError>)
      requires Valid() && !reader.closed
      modifies this`txPrioChan, reader`dataChan
      ensures Valid()
      ensures r.Err? <==> !isConnOpen
      ensures r.Err? ==> txPrioChan == old(txPrioChan) && reader.dataChan == old(reader.dataChan)
      ensures r.Ok? ==> txPrioChan == old(txPrioChan) + [p.SeqNr()]
      ensures r.Ok? ==> reader.dataChan == old(reader.dataChan) + [Some(p)]
    {
      if !isConnOpen {
        return Err(NotReady);
      }
      txPrioChan := txPrioChan + [p.SeqNr()];
      reader.Push(Some(p));
      return Ok(true);
    }

    /** What one round puts on the wire. */
    ghost function RoundWire(ack: bool, data: bool): seq<Datagram>
      reads this
      requires (ack ==> txPrioChan != []) && (data ==> txChan != [])
    {
      (if ack then [AckGram(txPrioChan[0])] else [])
      + (if data then [DataGram(Packet(nextNum, txChan[0]))] else [])
    }

    /** One round of the run loop: an acknowledgement first, then at most one data packet, and that
        only while the window has room. What the socket refuses is logged and given up. */
    method SendRound(ackWrites: bool, dataWrites: bool)
      requires Valid()
      modifies this`txPrioChan, this`txChan, this`inflight, this`wire, this`nextNum, gen, cc
      ensures Valid()
      ensures txPrioChan == if old(txPrioChan) == [] then [] else old(txPrioChan)[1..]
      ensures var room := old(txChan) != [] && old(cc.pipe) < old(cc.cwnd);
              && txChan == (if room then old(txChan)[1..] else old(txChan))
              && State() == (if !room then old(State())
                             else if dataWrites then Sender.Transmit(old(State()), old(nextNum), old(txChan)[0])
                             else Sender.FailedTransmit(old(State()), old(nextNum), old(txChan)[0]))
              && nextNum == old(nextNum) + (if room && dataWrites then 1 else 0)
              && wire == old(wire) + old(RoundWire(ackWrites && txPrioChan != [],
                                                   dataWrites && txChan != [] && cc.pipe < cc.cwnd))
    {
      hide Flatten, Carried, Sender.Transmit, Sender.FailedTransmit;
      if txPrioChan != [] {
        if ackWrites {
          wire := wire + [AckGram(txPrioChan[0])];
        }
        txPrioChan := txPrioChan[1..];
      }
      var free := cc.NumFreeSend();
      if free > 0 {
        if txChan != [] {
          var msg := txChan[0];
          txChan := txChan[1..];
          var r := Transmit(msg, dataWrites);
        }
      }
    }
  }
}
