/** Every method of a connection is a run of the transport: the sending half of one connection and the
    receiving half of another move together with the step system. */
module Simulation {
  import opened Prelude
  import opened PacketNumbers
  import opened DataReader
  import opened ByteStream
  import opened Connection
  import opened Transport
  import Congestion
  import Delivery
  import ReaderRuns
  import Sender
  import TransportSafety

  // --------------------------------------------------------- the two halves

  /** The connection is open and its sending half is the sender of `s`. */
  ghost predicate Sends(c: Config, s: State, conn: Conn)
    reads conn, conn.gen, conn.cc, conn.reader, conn.reader.buf
  {
    && conn.Valid() && conn.isConnOpen
    && conn.maxPacketSize == c.maxPacketSize && conn.maxRetransmits == c.maxRetransmits
    && conn.txChan == s.txChan && conn.State() == s.snd && conn.nextNum == End(c, s) && conn.written == s.written
  }

  /** The connection is open and its receiving half is the receiver of `s`. */
  ghost predicate Receives(s: State, conn: Conn)
    reads conn, conn.gen, conn.reader, conn.reader.buf
  {
    && conn.Valid() && conn.isConnOpen && !conn.reader.closed
    && conn.reader.State() == s.rd && s.bag == Bagged(conn.reader.dataChan)
    && conn.reader.handedOut == s.delivered && conn.readBuf == s.readBuf && conn.given == s.got
  }

  /** Two connections that have just opened to each other are the halves of a start of the step system. */
  lemma HalvesStart(c: Config, s: State, sender: Conn, receiver: Conn)
    requires Init(c, s)
    requires sender.Valid() && sender.isConnOpen && sender.State() == s.snd && sender.nextNum == c.first
    requires sender.maxPacketSize == c.maxPacketSize && sender.maxRetransmits == c.maxRetransmits
    requires sender.txChan == [] && sender.written == []
    requires receiver.Valid() && receiver.isConnOpen && !receiver.reader.closed
    requires receiver.reader.State() == FreshReader(c.capacity, Wire(c.first)) && receiver.reader.dataChan == []
    requires receiver.reader.handedOut == [] && receiver.readBuf == [] && receiver.given == []
    ensures Sends(c, s, sender) && Receives(s, receiver)
  {
  }

  /** The packets in a channel. */
  function Bagged(chan: seq<Option<Packet>>): multiset<Packet>
  {
    if chan == [] then multiset{}
    else Bagged(chan[1..]) + if chan[0].Some? then multiset{chan[0].value} else multiset{}
  }

  lemma {:induction false} BaggedSnoc(chan: seq<Option<Packet>>, p: Packet)
    ensures Bagged(chan + [Some(p)]) == Bagged(chan) + multiset{p}
    decreases |chan|
  {
    if chan == [] {
      assert [Some(p)][1..] == [];
    } else {
      BaggedSnoc(chan[1..], p);
      assert (chan + [Some(p)])[1..] == chan[1..] + [Some(p)];
    }
  }

  // ------------------------------------------------------------ the sender

  method Write(c: Config, ghost s: State, conn: Conn, b: bytes) returns (r: Result<nat, ConnError>)
    requires ValidConfig(c) && Sends(c, s, conn)
    modifies conn`txChan, conn`queued, conn`written
    ensures r.Ok? && Enabled(c, s, Action.Write(b)) && Sends(c, Step(c, s, Action.Write(b)), conn)
  {
    hide Flatten, Carried, Packetize;
    r := conn.Write(b);
    if b == [] {
      assert s.txChan + [] == s.txChan && s.written + [] == s.written;
    }
  }

  /** A round of the run loop is a transmission when the window has room, and no step otherwise. */
  method SendRound(c: Config, ghost s: State, conn: Conn, ackWrites: bool)
    requires ValidConfig(c) && Sends(c, s, conn) && s.alive && Young(c, s)
    modifies conn`txPrioChan, conn`txChan, conn`inflight, conn`wire, conn`nextNum, conn.gen, conn.cc
    ensures Sends(c, if Enabled(c, s, SendNext) then Step(c, s, SendNext) else s, conn)
  {
    hide Flatten, Carried, Sender.Transmit, Sender.FailedTransmit;
    conn.SendRound(ackWrites, true);
  }

  method ProcessAck(c: Config, ghost s: State, conn: Conn, n: nat, srtt: int)
    requires ValidConfig(c) && Sends(c, s, conn) && n in s.acks
    modifies conn`inflight, conn`isConnOpen, conn.cc
    ensures Enabled(c, s, ArriveAck(n, srtt)) && Sends(c, Step(c, s, ArriveAck(n, srtt)), conn)
  {
    hide Flatten, Carried, Sender.ProcessAck;
    var r := conn.OnAck(Wire(n), srtt);
  }

  function Timeouts(order: seq<PacketNumber>): (acts: seq<Action>)
    ensures |acts| == |order|
  {
    seq(|order|, i requires 0 <= i < |order| => Timeout(order[i]))
  }

  /** A pass over expired packets is a run of timeouts, which ends the run loop exactly when the last of
      them exceeds the limit. */
  lemma {:induction false} PassIsRun(c: Config, s: State, order: seq<PacketNumber>, broken: bool)
    requires ValidConfig(c) && s.alive
    requires forall i, j | 0 <= i < j < |order| :: order[i] != order[j]
    requires forall k | k in order :: k in s.snd.inflight
    requires forall i | 0 <= i < |order| ::
               s.snd.inflight[order[i]].retransmits + 1 > c.maxRetransmits <==> broken && i == |order| - 1
    requires broken ==> order != []
    ensures Run(c, s, Timeouts(order))
    ensures var t := Exec(c, s, Timeouts(order));
            && t.snd == Sender.RetransmitAll(s.snd, order) && t.alive == !broken
            && t == s.(snd := t.snd, data := t.data, puts := t.puts, alive := t.alive)
            && |t.puts| == |s.puts|
    decreases |order|
  {
    hide Congestion.React;
    if order == [] {
      TransportSafety.RunNil(c, s);
    } else {
      var last := |order| - 1;
      var before, k := order[..last], order[last];
      assert forall i | 0 <= i < last :: before[i] == order[i];
      Sender.RetransmitAllOther(s.snd, before, k);
      PassIsRun(c, s, before, false);
      var t := Exec(c, s, Timeouts(before));
      assert k !in before;
      TransportSafety.RunNil(c, Step(c, t, Timeout(k)));
      TransportSafety.RunCons(c, t, Timeout(k), []);
      Delivery.RunJoin(c, s, Timeouts(before), [Timeout(k)] + []);
      assert Timeouts(order) == Timeouts(before) + ([Timeout(k)] + []);
    }
  }

  method ProcessRetransmission(c: Config, ghost s: State, conn: Conn, expired: set<PacketNumber>)
    returns (broken: bool, ghost order: seq<PacketNumber>)
    requires ValidConfig(c) && Sends(c, s, conn) && s.alive
    modifies conn`inflight, conn`wire, conn.cc
    ensures Run(c, s, Timeouts(order)) && Sends(c, Exec(c, s, Timeouts(order)), conn)
    ensures Exec(c, s, Timeouts(order)).alive == !broken
    ensures PassOver(order, expired * s.snd.inflight.Keys, broken)
  {
    hide Flatten, Carried, Run, Exec, Sender.RetransmitAll;
    broken, order := conn.ProcessRetransmission(expired);
    PassIsRun(c, s, order, broken);
  }

  // ---------------------------------------------------------- the receiver

  method OnData(c: Config, ghost s: State, conn: Conn, p: Packet) returns (r: Result<bool, ConnError>)
    requires ValidConfig(c) && Receives(s, conn) && p in s.data
    modifies conn`txPrioChan, conn.reader`dataChan
    ensures r.Ok? && Enabled(c, s, ArriveData(p)) && Receives(Step(c, s, ArriveData(p)), conn)
    ensures conn.txPrioChan == old(conn.txPrioChan) + [Wire(p.num)] && p.num in Step(c, s, ArriveData(p)).acks
  {
    hide Flatten, Carried;
    BaggedSnoc(conn.reader.dataChan, p);
    r := conn.OnData(p);
  }

  /** The reader and the unbounded reference agree, and the queue is what waits to be taken. */
  ghost predicate Joined(c: Config, s: State, chan: seq<Option<Packet>>)
  {
    Represents(s.rd, s.ideal) && |s.rd.ring| == c.capacity && s.bag == Bagged(chan)
  }

  /** What a call changes. */
  ghost predicate Called(s: State, t: State, rd: Reader, taken: seq<Packet>)
  {
    t == s.(rd := rd, ideal := t.ideal, bag := t.bag, delivered := s.delivered + taken,
            readBuf := s.readBuf + Carried(taken))
  }

  function Out(out: Option<Packet>): seq<Packet>
  {
    if out.Some? then [out.value] else []
  }

  lemma CarriedOne(b: bytes, p: Packet)
    ensures b + Carried([p]) == b + p.payload
  {
    assert Payloads([p]) == [p.payload] && Flatten([p.payload]) == p.payload + Flatten([]);
  }

  lemma TakeOne(c: Config, s: State, chan: seq<Option<Packet>>) returns (t: State)
    requires ValidConfig(c) && Joined(c, s, chan) && s.rd.waiting
    requires chan != [] && chan[0].Some? && Timely(s.ideal.next, chan[0].value, c.capacity)
    ensures Enabled(c, s, Take(chan[0].value)) && t == Step(c, s, Take(chan[0].value))
    ensures Joined(c, t, chan[1..]) && t.ideal == IdealAccept(s.ideal, chan[0].value).0
    ensures Called(s, t, Accept(s.rd, chan[0].value).0, Out(Accept(s.rd, chan[0].value).1))
  {
    var p := chan[0].value;
    AcceptRefines(s.rd, s.ideal, p);
    assert s.ideal.waiting;
    hide Represents, Carried, SafeWindow;
    t := Step(c, s, Take(p));
    assert t.bag == Bagged(chan[1..]);
    CarriedOne(s.readBuf, p);
    CarriedNone(s.readBuf);
    assert s.delivered + [] == s.delivered;
  }

  lemma CalledNone(s: State)
    ensures Called(s, s, s.rd, [])
  {
    CarriedNone(s.readBuf);
    assert s.delivered + [] == s.delivered;
  }

  lemma CalledTwice(s: State, t: State, u: State, x: seq<Packet>, y: seq<Packet>)
    requires Called(s, t, t.rd, x) && Called(t, u, u.rd, y)
    ensures Called(s, u, u.rd, x + y)
  {
    CarriedJoin(x, y);
    assert s.delivered + x + y == s.delivered + (x + y);
    assert (s.readBuf + Carried(x)) + Carried(y) == s.readBuf + (Carried(x) + Carried(y));
  }

  lemma CarriedJoin(x: seq<Packet>, y: seq<Packet>)
    ensures Carried(x + y) == Carried(x) + Carried(y)
  {
    assert Payloads(x + y) == Payloads(x) + Payloads(y);
    FlattenConcat(Payloads(x), Payloads(y));
  }

  lemma CalledReader(s: State, t: State, rd: Reader, taken: seq<Packet>)
    requires Called(s, t, rd, taken)
    ensures t.rd == rd && Called(s, t, t.rd, taken)
  {
  }

  lemma SkipNil(c: Config, s: State, chan: seq<Option<Packet>>)
    requires Joined(c, s, chan) && chan != [] && chan[0].None?
    ensures Joined(c, s, chan[1..])
  {
  }

  lemma JoinedAgree(c: Config, s: State, chan: seq<Option<Packet>>)
    requires Joined(c, s, chan)
    ensures s.rd.waiting == s.ideal.waiting && |s.rd.ring| == c.capacity
  {
  }

  /** A waiting call that works through its channel is a run in which it takes packets. */
  lemma {:induction false} DrainIsRun(c: Config, s: State, chan: seq<Option<Packet>>) returns (acts: seq<Action>)
    requires ValidConfig(c) && Joined(c, s, chan) && |s.rd.ring| > 0 && s.rd.waiting && s.ideal.waiting
    requires ReaderRuns.TimelyDrain(s.ideal, chan, c.capacity)
    ensures Run(c, s, acts)
    ensures var (t, (rd, rest, out)) := (Exec(c, s, acts), Drain(s.rd, chan, false));
            && Joined(c, t, rest) && t.rd == rd && Called(s, t, rd, Out(ReaderRuns.Returned(out)))
            && t.ideal == ReaderRuns.IdealDrain(s.ideal, chan).0
    decreases |chan|
  {
    hide Joined, Called, Enabled, Step, Run, Exec;
    if chan == [] {
      acts := [];
      TransportSafety.RunNil(c, s);
      CalledNone(s);
    } else if chan[0].None? {
      SkipNil(c, s, chan);
      acts := DrainIsRun(c, s, chan[1..]);
    } else {
      var p := chan[0].value;
      var t := TakeOne(c, s, chan);
      JoinedAgree(c, s, chan);
      JoinedAgree(c, t, chan[1..]);
      var (rd, out) := Accept(s.rd, p);
      CalledReader(s, t, rd, Out(out));
      if out.Some? {
        TransportSafety.RunNil(c, t);
        TransportSafety.RunCons(c, s, Take(p), []);
        acts := [Take(p)] + [];
      } else {
        var more := DrainIsRun(c, t, chan[1..]);
        var taken := Out(ReaderRuns.Returned(Drain(t.rd, chan[1..], false).2));
        var u := Exec(c, t, more);
        CalledTwice(s, t, u, [], taken);
        assert [] + taken == taken;
        TransportSafety.RunCons(c, s, Take(p), more);
        acts := [Take(p)] + more;
      }
    }
  }

  lemma CallStarts(c: Config, s: State, chan: seq<Option<Packet>>) returns (t: State)
    requires ValidConfig(c) && Joined(c, s, chan) && |s.rd.ring| > 0 && !s.rd.waiting
    ensures Enabled(c, s, Call) && t == Step(c, s, Call)
    ensures Joined(c, t, chan) && !s.ideal.waiting && t.ideal == IdealBegin(s.ideal).0
    ensures Begin(s.rd).1 == IdealBegin(s.ideal).1
    ensures t.rd == Begin(s.rd).0 && Called(s, t, t.rd, Out(Begin(s.rd).1))
  {
    BeginRefines(s.rd, s.ideal);
    assert !s.ideal.waiting;
    hide Represents;
    t := Step(c, s, Call);
    CarriedNone(s.readBuf);
    if Begin(s.rd).1.Some? {
      CarriedOne(s.readBuf, Begin(s.rd).1.value);
    }
    assert s.delivered + [] == s.delivered;
  }

  /** A call of Next is a run: its start, unless it was waiting, and the packets that it takes. */
  lemma CallIsRun(c: Config, s: State, chan: seq<Option<Packet>>) returns (acts: seq<Action>)
    requires ValidConfig(c) && Joined(c, s, chan) && |s.rd.ring| > 0
    requires ReaderRuns.TimelyCall(s.ideal, chan, c.capacity)
    ensures Run(c, s, acts)
    ensures var (t, (rd, rest, out)) := (Exec(c, s, acts), NextCall(s.rd, chan, false));
            && Joined(c, t, rest) && t.rd == rd && Called(s, t, rd, Out(ReaderRuns.Returned(out)))
            && t.ideal == ReaderRuns.IdealCall(s.ideal, chan).0
  {
    hide Joined, Called, Enabled, Step, Run, Exec, Begin, IdealBegin, Drain, ReaderRuns.TimelyDrain,
         ReaderRuns.IdealDrain;
    JoinedAgree(c, s, chan);
    if s.rd.waiting {
      acts := DrainIsRun(c, s, chan);
    } else {
      var t := CallStarts(c, s, chan);
      if Begin(s.rd).1.Some? {
        TransportSafety.RunNil(c, t);
        TransportSafety.RunCons(c, s, Call, []);
        acts := [Call] + [];
      } else {
        BeginWaits(s.rd, s.ideal);
        JoinedAgree(c, t, chan);
        var more := DrainIsRun(c, t, chan);
        var taken := Out(ReaderRuns.Returned(Drain(t.rd, chan, false).2));
        CalledTwice(s, t, Exec(c, t, more), [], taken);
        assert [] + taken == taken;
        TransportSafety.RunCons(c, s, Call, more);
        acts := [Call] + more;
      }
    }
  }

  lemma BeginWaits(r: Reader, a: Ideal)
    requires |r.ring| > 0 && !r.waiting && !a.waiting && Begin(r).1 == IdealBegin(a).1 == None
    ensures Begin(r).0.waiting && IdealBegin(a).0.waiting && a.next !in a.pending
    ensures |Begin(r).0.ring| == |r.ring|
  {
  }

  /** Every packet that a Read takes is timely when it is taken. */
  ghost predicate TimelyFill(r: Reader, a: Ideal, chan: seq<Option<Packet>>, have: nat, n: nat)
    requires |r.ring| > 0
    decreases Stored(r.ring) + |chan|
  {
    NextConsumes(r, chan, false);
    have >= n ||
    (&& ReaderRuns.TimelyCall(a, chan, |r.ring|)
     && var (r', chan', out) := NextCall(r, chan, false);
        out.Got? ==> TimelyFill(r', ReaderRuns.IdealCall(a, chan).0, chan', have + |out.packet.payload|, n))
  }

  /** All the calls of a Read are a run. */
  lemma {:induction false} FillIsRun(c: Config, s: State, chan: seq<Option<Packet>>, have: nat, n: nat)
    returns (acts: seq<Action>)
    requires ValidConfig(c) && Joined(c, s, chan) && |s.rd.ring| > 0
    requires TimelyFill(s.rd, s.ideal, chan, have, n)
    ensures Run(c, s, acts)
    ensures var (t, (rd, rest, taken, error)) := (Exec(c, s, acts), Fill(s.rd, chan, false, have, n));
            Joined(c, t, rest) && t.rd == rd && Called(s, t, rd, taken)
    decreases Stored(s.rd.ring) + |chan|
  {
    hide Joined, Called, Enabled, Step, Run, Exec, NextCall, ReaderRuns.TimelyCall, ReaderRuns.IdealCall, Stored;
    if have >= n {
      acts := [];
      TransportSafety.RunNil(c, s);
      CalledNone(s);
    } else {
      JoinedAgree(c, s, chan);
      var first := CallIsRun(c, s, chan);
      var t := Exec(c, s, first);
      NextConsumes(s.rd, chan, false);
      var (rd, rest, out) := NextCall(s.rd, chan, false);
      if out.Got? {
        var have' := have + |out.packet.payload|;
        var more := FillIsRun(c, t, rest, have', n);
        Delivery.RunJoin(c, s, first, more);
        acts := first + more;
        CalledTwice(s, t, Exec(c, t, more), [out.packet], Fill(t.rd, rest, false, have', n).2);
      } else {
        acts := first;
      }
    }
  }

  /** Read is a run of calls and packets taken, and then, when enough bytes are there, of a Read. */
  method Read(c: Config, ghost s: State, conn: Conn, n: nat)
    returns (r: Result<bytes, ConnError>, ghost acts: seq<Action>)
    requires ValidConfig(c) && Receives(s, conn) && Represents(s.rd, s.ideal) && |s.rd.ring| == c.capacity
    requires TimelyFill(s.rd, s.ideal, conn.reader.dataChan, |s.readBuf|, n)
    modifies conn`readBuf, conn`given, conn.reader`dataChan, conn.reader`nextSeqNr, conn.reader`waiting,
             conn.reader`handedOut, conn.reader.buf
    ensures Run(c, s, acts) && Receives(Exec(c, s, acts), conn)
    ensures r.Ok? ==> Exec(c, s, acts).got == s.got + r.value
  {
    ghost var chan := conn.reader.dataChan;
    assert Joined(c, s, chan);
    acts := FillIsRun(c, s, chan, |s.readBuf|, n);
    hide Joined, Enabled, Run, Exec, Flatten, Carried, Fill, TimelyFill, Represents;
    ghost var t := Exec(c, s, acts);
    r := conn.Read(n);
    assert t.bag == Bagged(conn.reader.dataChan) by {
      JoinedBag(c, t, conn.reader.dataChan);
    }
    if r.Ok? {
      assert t.readBuf == r.value + conn.readBuf;
      assert (r.value + conn.readBuf)[..n] == r.value && (r.value + conn.readBuf)[n..] == conn.readBuf;
      ReadEnabled(c, t, n);
      TransportSafety.RunNil(c, Step(c, t, Action.Read(n)));
      TransportSafety.RunCons(c, t, Action.Read(n), []);
      Delivery.RunJoin(c, s, acts, [Action.Read(n)] + []);
      acts := acts + ([Action.Read(n)] + []);
    }
  }

  lemma JoinedBag(c: Config, s: State, chan: seq<Option<Packet>>)
    requires Joined(c, s, chan)
    ensures s.bag == Bagged(chan)
  {
  }

  lemma ReadEnabled(c: Config, s: State, n: nat)
    requires n <= |s.readBuf|
    ensures Enabled(c, s, Action.Read(n))
  {
  }
}
