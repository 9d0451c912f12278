/** Two connections and the network between them as a step system: the bytes written on one side,
    a network that loses, reorders and repeats datagrams, and the bytes read on the other side.

    `Enabled` carries the premises on the environment: datagrams in the network and unacknowledged
    packets are younger than one circle of numbers when the next packet is sent, and the waiting
    reader takes only packets that are not yet delivered and at most SafeWindow numbers ahead. */
module Transport {
  import opened Prelude
  import opened PacketNumbers
  import opened DataReader
  import opened ByteStream
  import Congestion
  import Sender

  /** One direction: `first` is the number of the first data packet, `initCwnd` the window that the
      sender's congestion object was made with. */
  datatype Config = Config(first: nat, capacity: nat, maxPacketSize: nat, maxRetransmits: nat, initCwnd: nat)

  ghost predicate ValidConfig(c: Config)
  {
    c.capacity > 0 && c.maxPacketSize > 0 && c.initCwnd > 0
  }

  datatype State = State(
    // the sender: bytes written, payloads queued, packets sent so far, whether the run loop lives
    written: bytes, txChan: seq<bytes>, sent: seq<Packet>, snd: Sender.State, alive: bool,
    // how often each packet was put on the wire
    puts: seq<nat>,
    // the network: data packets and acknowledgements that may still arrive, any number of times
    data: set<Packet>, acks: set<nat>,
    // the receiver: numbers acknowledged, packets on their way to the reader, the reader, its
    // unbounded reference, packets handed out, read buffer, bytes read
    arrived: set<nat>, bag: multiset<Packet>, rd: Reader, ideal: Ideal, delivered: seq<Packet>,
    readBuf: bytes, got: bytes)

  datatype Action =
    | Write(b: bytes)
    | SendNext
    | Timeout(k: PacketNumber)
    | LoseData(lost: Packet)
    | LoseAck(lostAck: nat)
    | ArriveData(p: Packet)
    | ArriveAck(n: nat, srtt: int)
    | Call
    | Take(q: Packet)
    | Read(count: nat)

  /** A connection that has just opened. The handshake may have narrowed the window already. */
  ghost predicate Init(c: Config, s: State)
  {
    && ValidConfig(c)
    && s.written == [] && s.txChan == [] && s.sent == [] && s.puts == [] && s.alive
    && s.snd.gen == Wire(c.first) && s.snd.inflight == map[]
    && s.snd.window.pipe == 0 && 1 <= s.snd.window.cwnd <= c.initCwnd
    && s.data == {} && s.acks == {} && s.arrived == {} && s.bag == multiset{}
    && s.rd == FreshReader(c.capacity, Wire(c.first))
    && s.ideal == Ideal(map[], c.first, false)
    && s.delivered == [] && s.readBuf == [] && s.got == []
  }

  /** The unbounded number of the next packet. */
  function End(c: Config, s: State): nat
  {
    c.first + |s.sent|
  }

  /** No datagram in the network and no unacknowledged packet is a whole circle old. */
  ghost predicate Young(c: Config, s: State)
  {
    && (forall p | p in s.data :: p.num + CIRCLE > End(c, s))
    && (forall n | n in s.acks :: n + CIRCLE > End(c, s))
    && (forall k | k in s.snd.inflight :: s.snd.inflight[k].packet.num + CIRCLE > End(c, s))
  }

  ghost predicate Enabled(c: Config, s: State, a: Action)
  {
    match a
    case Write(_) => true
    case SendNext => s.alive && s.txChan != [] && Congestion.FreeSend(s.snd.window) > 0 && Young(c, s)
    case Timeout(k) => s.alive && k in s.snd.inflight
    case LoseData(p) => p in s.data
    case LoseAck(n) => n in s.acks
    case ArriveData(p) => p in s.data
    case ArriveAck(n, _) => n in s.acks
    case Call => |s.rd.ring| > 0 && !s.rd.waiting && !s.ideal.waiting
    case Take(p) => |s.rd.ring| > 0 && s.rd.waiting && s.ideal.waiting && p in s.bag
                    && Timely(s.ideal.next, p, |s.rd.ring|)
    case Read(n) => n <= |s.readBuf|
  }

  /** Hands a packet to the read buffer if there is one. */
  function Deliver(s: State, out: Option<Packet>): State
  {
    match out
    case None => s
    case Some(p) => s.(delivered := s.delivered + [p], readBuf := s.readBuf + p.payload)
  }

  ghost function Step(c: Config, s: State, a: Action): State
    requires ValidConfig(c) && Enabled(c, s, a)
  {
    match a
    case Write(b) =>
      s.(written := s.written + b, txChan := s.txChan + Queued(b, c.maxPacketSize))
    case SendNext =>
      var p := Packet(End(c, s), s.txChan[0]);
      s.(txChan := s.txChan[1..], sent := s.sent + [p], puts := s.puts + [1],
         snd := Sender.Transmit(s.snd, p.num, p.payload), data := s.data + {p})
    case Timeout(k) =>
      var p := s.snd.inflight[k].packet;
      var snd := Sender.Retransmit(s.snd, k);
      var i := p.num - c.first;
      s.(snd := snd, data := s.data + {p},
         puts := if 0 <= i < |s.puts| then s.puts[i := s.puts[i] + 1] else s.puts,
         alive := snd.inflight[k].retransmits <= c.maxRetransmits)
    case LoseData(p) => s.(data := s.data - {p})
    case LoseAck(n) => s.(acks := s.acks - {n})
    case ArriveData(p) =>
      s.(acks := s.acks + {p.num}, arrived := s.arrived + {p.num}, bag := s.bag + multiset{p})
    case ArriveAck(n, srtt) => s.(snd := Sender.ProcessAck(s.snd, Wire(n), srtt))
    case Call =>
      var (rd, out) := Begin(s.rd);
      Deliver(s.(rd := rd, ideal := IdealBegin(s.ideal).0), out)
    case Take(p) =>
      var (rd, out) := Accept(s.rd, p);
      Deliver(s.(rd := rd, ideal := IdealAccept(s.ideal, p).0, bag := s.bag - multiset{p}), out)
    case Read(n) =>
      s.(got := s.got + s.readBuf[..n], readBuf := s.readBuf[n..])
  }

  ghost predicate Run(c: Config, s: State, acts: seq<Action>)
    requires ValidConfig(c)
    decreases |acts|
  {
    acts == [] || (Enabled(c, s, acts[0]) && Run(c, Step(c, s, acts[0]), acts[1..]))
  }

  ghost function Exec(c: Config, s: State, acts: seq<Action>): State
    requires ValidConfig(c) && Run(c, s, acts)
    decreases |acts|
  {
    if acts == [] then s else Exec(c, Step(c, s, acts[0]), acts[1..])
  }

  // --------------------------------------------------------------- invariant
  //
  // Each part names the components that it speaks of, so that a step keeps the parts whose
  // components it does not touch.

  type Watchlist = map<PacketNumber, Sender.Inflight>

  /** `p` is the packet that was sent under its number. */
  ghost predicate Genuine(first: nat, sent: seq<Packet>, p: Packet)
  {
    first <= p.num < first + |sent| && sent[p.num - first] == p
  }

  ghost predicate Numbered(first: nat, sent: seq<Packet>, gen: PacketNumber)
  {
    && (forall i | 0 <= i < |sent| :: sent[i].num == first + i)
    && gen == Wire(first + |sent|)
  }

  ghost predicate DataOk(first: nat, sent: seq<Packet>, data: set<Packet>, bag: multiset<Packet>)
  {
    && (forall p | p in data :: Genuine(first, sent, p) && p.num + CIRCLE >= first + |sent|)
    && (forall p | p in bag :: Genuine(first, sent, p))
  }

  /** Acknowledgements are of packets that arrived, and lie within the last circle of numbers. */
  ghost predicate AcksOk(first: nat, sent: seq<Packet>, arrived: set<nat>, acks: set<nat>)
  {
    && (forall n | n in arrived :: first <= n < first + |sent|)
    && (forall n | n in acks :: n in arrived && n + CIRCLE >= first + |sent|)
  }

  /** Unacknowledged packets lie within the last circle of numbers, under their own 16-bit number. */
  ghost predicate WatchOk(first: nat, sent: seq<Packet>, inflight: Watchlist)
  {
    forall k | k in inflight ::
      && k == inflight[k].packet.SeqNr()
      && Genuine(first, sent, inflight[k].packet)
      && inflight[k].packet.num + CIRCLE >= first + |sent|
  }

  predicate Watched(inflight: Watchlist, n: nat)
  {
    Wire(n) in inflight && inflight[Wire(n)].packet.num == n
  }

  /** Every packet sent has arrived or is still watched by the sender. */
  ghost predicate Remembered(first: nat, end: nat, arrived: set<nat>, inflight: Watchlist)
  {
    forall n | first <= n < end :: n in arrived || Watched(inflight, n)
  }

  /** The packets handed out are exactly the first ones sent. */
  ghost predicate ReaderOk(c: Config, sent: seq<Packet>, rd: Reader, ideal: Ideal, delivered: seq<Packet>)
  {
    && Represents(rd, ideal) && |rd.ring| == c.capacity
    && ideal.next == c.first + |delivered|
    && delivered <= sent
    && (forall m | m in ideal.pending :: Genuine(c.first, sent, ideal.pending[m]))
  }

  ghost predicate InBag(bag: multiset<Packet>, n: nat)
  {
    exists p :: p in bag && p.num == n
  }

  /** What has arrived is delivered, or buffered in the ring, or still queued for the reader. */
  ghost predicate Conserved(first: nat, arrived: set<nat>, ideal: Ideal, bag: multiset<Packet>)
  {
    forall n: nat :: n in arrived <==> first <= n < ideal.next || n in ideal.pending || InBag(bag, n)
  }

  ghost predicate WindowOk(initCwnd: nat, inflight: Watchlist, window: Congestion.Window)
  {
    && window.pipe == |inflight| <= initCwnd
    && 1 <= window.cwnd <= initCwnd
  }

  /** A packet is put on the wire once, and once more for each of at most maxRetransmits + 1 timeouts. */
  ghost predicate RetriesOk(c: Config, puts: seq<nat>, inflight: Watchlist, alive: bool)
  {
    && (forall i | 0 <= i < |puts| :: 1 <= puts[i] <= c.maxRetransmits + 2)
    && (forall k | k in inflight ::
          && inflight[k].retransmits <= c.maxRetransmits + (if alive then 0 else 1)
          && c.first <= inflight[k].packet.num < c.first + |puts|
          && puts[inflight[k].packet.num - c.first] == inflight[k].retransmits + 1)
  }

  ghost predicate SentBytesOk(sent: seq<Packet>, txChan: seq<bytes>, written: bytes)
  {
    Carried(sent) + Flatten(txChan) == written
  }

  ghost predicate ReadBytesOk(delivered: seq<Packet>, readBuf: bytes, got: bytes)
  {
    got + readBuf == Carried(delivered)
  }

  ghost predicate Inv(c: Config, s: State)
  {
    && Numbered(c.first, s.sent, s.snd.gen)
    && DataOk(c.first, s.sent, s.data, s.bag)
    && AcksOk(c.first, s.sent, s.arrived, s.acks)
    && WatchOk(c.first, s.sent, s.snd.inflight)
    && Remembered(c.first, End(c, s), s.arrived, s.snd.inflight)
    && ReaderOk(c, s.sent, s.rd, s.ideal, s.delivered)
    && Conserved(c.first, s.arrived, s.ideal, s.bag)
    && WindowOk(c.initCwnd, s.snd.inflight, s.snd.window)
    && RetriesOk(c, s.puts, s.snd.inflight, s.alive)
    && |s.puts| == |s.sent|
    && SentBytesOk(s.sent, s.txChan, s.written)
    && ReadBytesOk(s.delivered, s.readBuf, s.got)
  }

  lemma InitInv(c: Config, s: State)
    requires Init(c, s)
    ensures Inv(c, s)
  {
    hide Represents;
    FreshRepresents(c.capacity, c.first);
    assert Payloads(s.sent) == [];
  }

  // ------------------------------------------------------------- sender steps

  lemma WriteKeeps(c: Config, s: State, b: bytes)
    requires ValidConfig(c) && Inv(c, s)
    ensures Inv(c, Step(c, s, Write(b)))
  {
    hide Numbered, DataOk, AcksOk, WatchOk, Remembered, ReaderOk, Conserved, WindowOk, RetriesOk;
    QueuedAppend(s.txChan, b, c.maxPacketSize);
    assert Carried(s.sent) + (Flatten(s.txChan) + b) == s.written + b;
  }

  lemma SendNumbers(first: nat, sent: seq<Packet>, gen: PacketNumber, payload: bytes)
    requires Numbered(first, sent, gen)
    ensures Numbered(first, sent + [Packet(first + |sent|, payload)], Succ(gen))
    ensures forall p :: Genuine(first, sent, p) ==> Genuine(first, sent + [Packet(first + |sent|, payload)], p)
  {
    WireSucc(first + |sent|);
  }

  /** The slot that the next packet takes among the unacknowledged ones is free. */
  lemma SendSlotFree(end: nat, inflight: Watchlist)
    requires forall k | k in inflight :: k == inflight[k].packet.SeqNr() && inflight[k].packet.num < end
    requires forall k | k in inflight :: inflight[k].packet.num + CIRCLE > end
    ensures Wire(end) !in inflight
  {
    if Wire(end) in inflight {
      WireInjective(inflight[Wire(end)].packet.num, end);
    }
  }

  lemma SendWatches(first: nat, sent: seq<Packet>, arrived: set<nat>, snd: Sender.State, payload: bytes)
    requires Numbered(first, sent, snd.gen) && WatchOk(first, sent, snd.inflight)
    requires Remembered(first, first + |sent|, arrived, snd.inflight)
    requires forall k | k in snd.inflight :: snd.inflight[k].packet.num + CIRCLE > first + |sent|
    ensures var end := first + |sent|;
            var snd' := Sender.Transmit(snd, end, payload);
            && WatchOk(first, sent + [Packet(end, payload)], snd'.inflight)
            && Remembered(first, end + 1, arrived, snd'.inflight)
            && |snd'.inflight| == |snd.inflight| + 1
  {
    var end := first + |sent|;
    var snd' := Sender.Transmit(snd, end, payload);
    SendSlotFree(end, snd.inflight);
    hide Congestion.Sent;
    assert snd'.inflight.Keys == snd.inflight.Keys + {snd.gen};
    forall n | first <= n < end + 1 ensures n in arrived || Watched(snd'.inflight, n) {
      if n < end && n !in arrived {
        assert Watched(snd.inflight, n);
      }
    }
  }

  lemma SendRetries(c: Config, puts: seq<nat>, snd: Sender.State, payload: bytes)
    requires RetriesOk(c, puts, snd.inflight, true)
    ensures RetriesOk(c, puts + [1], Sender.Transmit(snd, c.first + |puts|, payload).inflight, true)
  {
  }

  lemma SendBytes(sent: seq<Packet>, txChan: seq<bytes>, written: bytes, num: nat)
    requires SentBytesOk(sent, txChan, written) && txChan != []
    ensures SentBytesOk(sent + [Packet(num, txChan[0])], txChan[1..], written)
  {
    CarriedSnoc(sent, Packet(num, txChan[0]));
    assert Carried(sent) + (txChan[0] + Flatten(txChan[1..])) == written;
  }

  lemma SendKeeps(c: Config, s: State)
    requires ValidConfig(c) && Inv(c, s) && Enabled(c, s, SendNext)
    ensures Inv(c, Step(c, s, SendNext))
  {
    hide Numbered, WatchOk, Remembered, Conserved, RetriesOk, SentBytesOk, ReadBytesOk, Represents, Genuine;
    var p := Packet(End(c, s), s.txChan[0]);
    SendNumbers(c.first, s.sent, s.snd.gen, p.payload);
    SendWatches(c.first, s.sent, s.arrived, s.snd, p.payload);
    SendRetries(c, s.puts, s.snd, p.payload);
    SendBytes(s.sent, s.txChan, s.written, End(c, s));
    assert Genuine(c.first, s.sent + [p], p) by { NewestGenuine(c.first, s.sent, p); }
  }

  lemma NewestGenuine(first: nat, sent: seq<Packet>, p: Packet)
    requires p.num == first + |sent|
    ensures Genuine(first, sent + [p], p)
  {
  }

  lemma TimeoutWatches(first: nat, sent: seq<Packet>, arrived: set<nat>, snd: Sender.State, k: PacketNumber)
    requires WatchOk(first, sent, snd.inflight) && k in snd.inflight
    requires Remembered(first, first + |sent|, arrived, snd.inflight)
    ensures var snd' := Sender.Retransmit(snd, k);
            && WatchOk(first, sent, snd'.inflight)
            && Remembered(first, first + |sent|, arrived, snd'.inflight)
            && |snd'.inflight| == |snd.inflight|
  {
    var snd' := Sender.Retransmit(snd, k);
    assert snd'.inflight.Keys == snd.inflight.Keys;
    assert forall n: nat :: Watched(snd'.inflight, n) <==> Watched(snd.inflight, n);
  }

  lemma TimeoutRetries(c: Config, sent: seq<Packet>, puts: seq<nat>, snd: Sender.State, k: PacketNumber)
    requires WatchOk(c.first, sent, snd.inflight) && k in snd.inflight && |puts| == |sent|
    requires RetriesOk(c, puts, snd.inflight, true)
    ensures var snd', i := Sender.Retransmit(snd, k), snd.inflight[k].packet.num - c.first;
            && 0 <= i < |puts|
            && RetriesOk(c, puts[i := puts[i] + 1], snd'.inflight, snd'.inflight[k].retransmits <= c.maxRetransmits)
  {
    hide Congestion.React;
    var snd', i := Sender.Retransmit(snd, k), snd.inflight[k].packet.num - c.first;
    forall j | j in snd'.inflight && j != k
      ensures snd'.inflight[j] == snd.inflight[j] && snd.inflight[j].packet.num - c.first != i
    {
      assert j == snd.inflight[j].packet.SeqNr();
    }
  }

  lemma TimeoutKeeps(c: Config, s: State, k: PacketNumber)
    requires ValidConfig(c) && Inv(c, s) && Enabled(c, s, Timeout(k))
    ensures Inv(c, Step(c, s, Timeout(k)))
  {
    hide Numbered, Remembered, ReaderOk, Conserved, RetriesOk, SentBytesOk, ReadBytesOk, Genuine, Congestion.Decreased;
    TimeoutWatches(c.first, s.sent, s.arrived, s.snd, k);
    TimeoutRetries(c, s.sent, s.puts, s.snd, k);
    Congestion.DecreaseBounds(s.snd.window.cwnd);
  }

  /** A 16-bit acknowledgement removes no other packet than the one it acknowledges. */
  lemma AckRemovesOnlyItsPacket(first: nat, sent: seq<Packet>, snd: Sender.State, n: nat, srtt: int)
    requires WatchOk(first, sent, snd.inflight)
    requires first <= n < first + |sent| && n + CIRCLE >= first + |sent|
    ensures forall m | first <= m < first + |sent| && m != n ::
              Watched(Sender.ProcessAck(snd, Wire(n), srtt).inflight, m) <==> Watched(snd.inflight, m)
    ensures Wire(n) in snd.inflight <==> Watched(snd.inflight, n)
    ensures !Watched(Sender.ProcessAck(snd, Wire(n), srtt).inflight, n)
  {
    if Wire(n) in snd.inflight {
      WireInjective(snd.inflight[Wire(n)].packet.num, n);
    }
  }

  lemma AckKeepsWatching(first: nat, sent: seq<Packet>, arrived: set<nat>, snd: Sender.State, n: nat, srtt: int)
    requires WatchOk(first, sent, snd.inflight)
    requires Remembered(first, first + |sent|, arrived, snd.inflight)
    requires n in arrived && first <= n < first + |sent| && n + CIRCLE >= first + |sent|
    ensures var snd' := Sender.ProcessAck(snd, Wire(n), srtt);
            && WatchOk(first, sent, snd'.inflight)
            && Remembered(first, first + |sent|, arrived, snd'.inflight)
  {
    AckRemovesOnlyItsPacket(first, sent, snd, n, srtt);
    hide Genuine, Watched, Congestion.React, Congestion.Acked, Congestion.Measured;
  }

  lemma AckKeepsWindow(c: Config, puts: seq<nat>, snd: Sender.State, alive: bool, k: PacketNumber, srtt: int)
    requires RetriesOk(c, puts, snd.inflight, alive) && WindowOk(c.initCwnd, snd.inflight, snd.window)
    ensures var snd' := Sender.ProcessAck(snd, k, srtt);
            && RetriesOk(c, puts, snd'.inflight, alive)
            && WindowOk(c.initCwnd, snd'.inflight, snd'.window)
  {
    hide Congestion.Decreased;
    var snd' := Sender.ProcessAck(snd, k, srtt);
    if k in snd.inflight {
      assert snd'.inflight.Keys == snd.inflight.Keys - {k};
    } else {
      Congestion.DecreaseBounds(snd.window.cwnd);
    }
  }

  lemma ArriveAckKeeps(c: Config, s: State, n: nat, srtt: int)
    requires ValidConfig(c) && Inv(c, s) && Enabled(c, s, ArriveAck(n, srtt))
    ensures Inv(c, Step(c, s, ArriveAck(n, srtt)))
  {
    hide Numbered, WatchOk, Remembered, ReaderOk, Conserved, RetriesOk, SentBytesOk, ReadBytesOk, Genuine, WindowOk;
    AckKeepsWatching(c.first, s.sent, s.arrived, s.snd, n, srtt);
    AckKeepsWindow(c, s.puts, s.snd, s.alive, Wire(n), srtt);
  }

  // ----------------------------------------------------------- network steps

  lemma LossKeeps(c: Config, s: State, a: Action)
    requires ValidConfig(c) && Inv(c, s) && Enabled(c, s, a) && (a.LoseData? || a.LoseAck?)
    ensures Inv(c, Step(c, s, a))
  {
    hide Numbered, WatchOk, Remembered, ReaderOk, Conserved, RetriesOk, SentBytesOk, ReadBytesOk, Genuine, WindowOk;
  }

  lemma ArrivalConserved(first: nat, arrived: set<nat>, ideal: Ideal, bag: multiset<Packet>, p: Packet)
    requires Conserved(first, arrived, ideal, bag)
    ensures Conserved(first, arrived + {p.num}, ideal, bag + multiset{p})
  {
    var bag' := bag + multiset{p};
    assert p in bag';
    forall n: nat ensures InBag(bag', n) <==> InBag(bag, n) || n == p.num {
      if InBag(bag, n) {
        var q :| q in bag && q.num == n;
        assert q in bag';
      }
    }
  }

  lemma ArriveDataKeeps(c: Config, s: State, p: Packet)
    requires ValidConfig(c) && Inv(c, s) && Enabled(c, s, ArriveData(p))
    ensures Inv(c, Step(c, s, ArriveData(p)))
  {
    hide Numbered, WatchOk, ReaderOk, Conserved, RetriesOk, SentBytesOk, ReadBytesOk, WindowOk, Watched;
    ArrivalConserved(c.first, s.arrived, s.ideal, s.bag, p);
  }

  // ------------------------------------------------------------ reader steps

  /** The packet that the reader hands out is the next one sent. */
  lemma DeliverNext(c: Config, sent: seq<Packet>, delivered: seq<Packet>, p: Packet)
    requires delivered <= sent && Genuine(c.first, sent, p) && p.num == c.first + |delivered|
    ensures delivered + [p] <= sent
  {
    assert sent[|delivered|] == p;
  }

  lemma DeliverBytes(delivered: seq<Packet>, readBuf: bytes, got: bytes, p: Packet)
    requires ReadBytesOk(delivered, readBuf, got)
    ensures ReadBytesOk(delivered + [p], readBuf + p.payload, got)
  {
    CarriedSnoc(delivered, p);
    assert got + (readBuf + p.payload) == (got + readBuf) + p.payload;
  }

  lemma CallReader(c: Config, sent: seq<Packet>, rd: Reader, ideal: Ideal, delivered: seq<Packet>)
    requires ReaderOk(c, sent, rd, ideal, delivered) && |rd.ring| > 0 && !rd.waiting
    ensures !ideal.waiting && Begin(rd).1 == IdealBegin(ideal).1
    ensures var out := Begin(rd).1;
            ReaderOk(c, sent, Begin(rd).0, IdealBegin(ideal).0, if out.Some? then delivered + [out.value] else delivered)
  {
    assert ideal.waiting == rd.waiting && |Begin(rd).0.ring| == |rd.ring|;
    BeginRefines(rd, ideal);
    hide Represents, Genuine, Begin;
    if ideal.next in ideal.pending {
      PendingNumber(rd, ideal, ideal.next);
      DeliverNext(c, sent, delivered, ideal.pending[ideal.next]);
    }
  }

  lemma PendingNumber(rd: Reader, ideal: Ideal, m: nat)
    requires Represents(rd, ideal) && m in ideal.pending
    ensures ideal.pending[m].num == m
  {
  }

  lemma CallConserved(first: nat, arrived: set<nat>, ideal: Ideal, bag: multiset<Packet>)
    requires Conserved(first, arrived, ideal, bag) && !ideal.waiting && first <= ideal.next
    ensures Conserved(first, arrived, IdealBegin(ideal).0, bag)
  {
  }

  lemma CallKeeps(c: Config, s: State)
    requires ValidConfig(c) && Inv(c, s) && Enabled(c, s, Call)
    ensures Inv(c, Step(c, s, Call))
  {
    hide Numbered, DataOk, AcksOk, WatchOk, Remembered, ReaderOk, Conserved, RetriesOk, SentBytesOk, ReadBytesOk,
         WindowOk, Begin, IdealBegin;
    CallReader(c, s.sent, s.rd, s.ideal, s.delivered);
    ReaderFacts(c, s.sent, s.rd, s.ideal, s.delivered);
    CallConserved(c.first, s.arrived, s.ideal, s.bag);
    var out := Begin(s.rd).1;
    if out.Some? {
      DeliverBytes(s.delivered, s.readBuf, s.got, out.value);
    }
  }

  lemma ReaderFacts(c: Config, sent: seq<Packet>, rd: Reader, ideal: Ideal, delivered: seq<Packet>)
    requires ReaderOk(c, sent, rd, ideal, delivered)
    ensures ideal.waiting == rd.waiting && c.first <= ideal.next && |rd.ring| == c.capacity
  {
    hide Slot, SafeWindow;
  }

  lemma BagShrinks(first: nat, sent: seq<Packet>, data: set<Packet>, bag: multiset<Packet>, p: Packet)
    requires DataOk(first, sent, data, bag) && p in bag
    ensures DataOk(first, sent, data, bag - multiset{p}) && Genuine(first, sent, p)
  {
    hide Genuine;
  }

  lemma TakeReader(c: Config, sent: seq<Packet>, rd: Reader, ideal: Ideal, delivered: seq<Packet>, p: Packet)
    requires ReaderOk(c, sent, rd, ideal, delivered) && |rd.ring| > 0 && rd.waiting
    requires Timely(ideal.next, p, |rd.ring|) && Genuine(c.first, sent, p)
    ensures ideal.waiting && Accept(rd, p).1 == IdealAccept(ideal, p).1
    ensures var out := Accept(rd, p).1;
            ReaderOk(c, sent, Accept(rd, p).0, IdealAccept(ideal, p).0,
                     if out.Some? then delivered + [out.value] else delivered)
  {
    assert ideal.waiting == rd.waiting && |Accept(rd, p).0.ring| == |rd.ring|;
    AcceptRefines(rd, ideal, p);
    hide Represents, Genuine, Accept;
    if p.num == ideal.next {
      DeliverNext(c, sent, delivered, p);
    }
  }

  lemma TakeConserved(c: Config, sent: seq<Packet>, arrived: set<nat>, ideal: Ideal, bag: multiset<Packet>, p: Packet)
    requires Conserved(c.first, arrived, ideal, bag) && ideal.waiting && c.first <= ideal.next
    requires p in bag && p.num >= ideal.next
    ensures Conserved(c.first, arrived, IdealAccept(ideal, p).0, bag - multiset{p})
  {
    var bag' := bag - multiset{p};
    forall n: nat ensures n != p.num ==> (InBag(bag', n) <==> InBag(bag, n))
                  ensures InBag(bag', n) ==> InBag(bag, n)
    {
      if InBag(bag, n) && n != p.num {
        var q :| q in bag && q.num == n;
        assert q in bag';
      }
    }
    assert InBag(bag, p.num);
  }

  lemma TakeKeeps(c: Config, s: State, p: Packet)
    requires ValidConfig(c) && Inv(c, s) && Enabled(c, s, Take(p))
    ensures Inv(c, Step(c, s, Take(p)))
  {
    hide Numbered, DataOk, AcksOk, WatchOk, Remembered, ReaderOk, Conserved, RetriesOk, SentBytesOk, ReadBytesOk,
         WindowOk, Accept, IdealAccept, Genuine, SafeWindow;
    BagShrinks(c.first, s.sent, s.data, s.bag, p);
    TakeReader(c, s.sent, s.rd, s.ideal, s.delivered, p);
    ReaderFacts(c, s.sent, s.rd, s.ideal, s.delivered);
    TakeConserved(c, s.sent, s.arrived, s.ideal, s.bag, p);
    var out := Accept(s.rd, p).1;
    if out.Some? {
      DeliverBytes(s.delivered, s.readBuf, s.got, out.value);
    }
  }

  lemma ReadKeeps(c: Config, s: State, n: nat)
    requires ValidConfig(c) && Inv(c, s) && Enabled(c, s, Read(n))
    ensures Inv(c, Step(c, s, Read(n)))
  {
    hide Numbered, DataOk, AcksOk, WatchOk, Remembered, ReaderOk, Conserved, RetriesOk, SentBytesOk, WindowOk;
    assert s.got + s.readBuf[..n] + s.readBuf[n..] == s.got + s.readBuf;
  }

  lemma StepKeeps(c: Config, s: State, a: Action)
    requires ValidConfig(c) && Inv(c, s) && Enabled(c, s, a)
    ensures Inv(c, Step(c, s, a))
  {
    hide Inv, Step;
    match a
    case Write(b) => WriteKeeps(c, s, b);
    case SendNext => SendKeeps(c, s);
    case Timeout(k) => TimeoutKeeps(c, s, k);
    case LoseData(p) => LossKeeps(c, s, a);
    case LoseAck(n) => LossKeeps(c, s, a);
    case ArriveData(p) => ArriveDataKeeps(c, s, p);
    case ArriveAck(n, srtt) => ArriveAckKeeps(c, s, n, srtt);
    case Call => CallKeeps(c, s);
    case Take(p) => TakeKeeps(c, s, p);
    case Read(n) => ReadKeeps(c, s, n);
  }

  lemma {:induction false} RunKeeps(c: Config, s: State, acts: seq<Action>)
    requires ValidConfig(c) && Inv(c, s) && Run(c, s, acts)
    ensures Inv(c, Exec(c, s, acts))
    decreases |acts|
  {
    hide Inv, Step, Enabled;
    if acts == [] {
    } else {
      StepKeeps(c, s, acts[0]);
      RunKeeps(c, Step(c, s, acts[0]), acts[1..]);
    }
  }
}
