/** Exactly when the transport keeps its promise. Here the waiting reader takes whatever is queued: no
    packet need be timely, and only freshness on the 16-bit circle is assumed. */
module TransportOrder {
  import opened Prelude
  import opened PacketNumbers
  import opened DataReader
  import opened ByteStream
  import opened Transport
  import ReaderRuns
  import Sender

  ghost predicate LooseEnabled(c: Config, s: State, a: Action)
  {
    match a
    case Call => |s.rd.ring| > 0 && !s.rd.waiting
    case Take(p) => |s.rd.ring| > 0 && s.rd.waiting && p in s.bag
    case _ => Enabled(c, s, a)
  }

  /** The step of the transport, without the unbounded reference reader. */
  ghost function LooseStep(c: Config, s: State, a: Action): State
    requires ValidConfig(c) && LooseEnabled(c, s, a)
  {
    match a
    case Call =>
      var (rd, out) := Begin(s.rd);
      Deliver(s.(rd := rd), out)
    case Take(p) =>
      var (rd, out) := Accept(s.rd, p);
      Deliver(s.(rd := rd, bag := s.bag - multiset{p}), out)
    case _ => Step(c, s, a)
  }

  ghost predicate LooseRun(c: Config, s: State, acts: seq<Action>)
    requires ValidConfig(c)
    decreases |acts|
  {
    acts == [] || (LooseEnabled(c, s, acts[0]) && LooseRun(c, LooseStep(c, s, acts[0]), acts[1..]))
  }

  ghost function LooseExec(c: Config, s: State, acts: seq<Action>): State
    requires ValidConfig(c) && LooseRun(c, s, acts)
    decreases |acts|
  {
    if acts == [] then s else LooseExec(c, LooseStep(c, s, acts[0]), acts[1..])
  }

  /** What a step means to the reader. */
  function ReaderEvent(a: Action): seq<ReaderRuns.Event>
  {
    match a
    case Call => [ReaderRuns.Call]
    case Take(p) => [ReaderRuns.Arrive(p)]
    case _ => []
  }

  function ReaderEvents(acts: seq<Action>): seq<ReaderRuns.Event>
  {
    if acts == [] then [] else ReaderEvent(acts[0]) + ReaderEvents(acts[1..])
  }

  /** Every packet anywhere is one that was sent, under its own number. */
  ghost predicate AllGenuine(first: nat, sent: seq<Packet>, inflight: Watchlist, data: set<Packet>,
                             bag: multiset<Packet>, ring: seq<Option<Packet>>, delivered: seq<Packet>)
  {
    && (forall k | k in inflight :: Genuine(first, sent, inflight[k].packet))
    && (forall p | p in data :: Genuine(first, sent, p))
    && (forall p | p in bag :: Genuine(first, sent, p))
    && (forall i | 0 <= i < |ring| && ring[i].Some? :: Genuine(first, sent, ring[i].value))
    && (forall i | 0 <= i < |delivered| :: Genuine(first, sent, delivered[i]))
  }

  ghost predicate LooseInv(c: Config, s: State)
  {
    && (forall i | 0 <= i < |s.sent| :: s.sent[i].num == c.first + i)
    && AllGenuine(c.first, s.sent, s.snd.inflight, s.data, s.bag, s.rd.ring, s.delivered)
    && SentBytesOk(s.sent, s.txChan, s.written)
    && ReadBytesOk(s.delivered, s.readBuf, s.got)
  }

  lemma LooseInit(c: Config, s: State)
    requires Init(c, s)
    ensures LooseInv(c, s) && s.delivered == [] && s.rd == FreshReader(c.capacity, Wire(c.first))
  {
    assert Payloads(s.sent) == [];
  }

  lemma SendStays(first: nat, s: State, p: Packet)
    requires AllGenuine(first, s.sent, s.snd.inflight, s.data, s.bag, s.rd.ring, s.delivered)
    requires p.num == first + |s.sent|
    ensures AllGenuine(first, s.sent + [p], Sender.Transmit(s.snd, p.num, p.payload).inflight, s.data + {p}, s.bag,
                       s.rd.ring, s.delivered)
  {
    NewestGenuine(first, s.sent, p);
    assert forall q | Genuine(first, s.sent, q) :: Genuine(first, s.sent + [p], q);
    assert Packet(p.num, p.payload) == p;
  }

  lemma SenderStepKeeps(c: Config, s: State, a: Action)
    requires ValidConfig(c) && LooseInv(c, s) && LooseEnabled(c, s, a) && !a.Call? && !a.Take?
    ensures LooseInv(c, LooseStep(c, s, a))
  {
    hide SentBytesOk, ReadBytesOk, Genuine;
    match a {
      case Write(b) => WriteBytes(c, s, b);
      case SendNext =>
        var p := Packet(End(c, s), s.txChan[0]);
        SendStays(c.first, s, p);
        SendBytes(s.sent, s.txChan, s.written, p.num);
      case Read(n) => ReadSome(s.delivered, s.readBuf, s.got, n);
      case _ =>
    }
  }

  lemma WriteBytes(c: Config, s: State, b: bytes)
    requires ValidConfig(c) && SentBytesOk(s.sent, s.txChan, s.written)
    ensures SentBytesOk(s.sent, s.txChan + Queued(b, c.maxPacketSize), s.written + b)
  {
    QueuedAppend(s.txChan, b, c.maxPacketSize);
    assert Carried(s.sent) + (Flatten(s.txChan) + b) == (Carried(s.sent) + Flatten(s.txChan)) + b;
  }

  lemma ReadSome(delivered: seq<Packet>, readBuf: bytes, got: bytes, n: nat)
    requires ReadBytesOk(delivered, readBuf, got) && n <= |readBuf|
    ensures ReadBytesOk(delivered, readBuf[n..], got + readBuf[..n])
  {
    assert got + readBuf[..n] + readBuf[n..] == got + readBuf;
  }

  lemma CallKeeps(c: Config, s: State)
    requires ValidConfig(c) && LooseInv(c, s) && LooseEnabled(c, s, Call)
    ensures LooseInv(c, LooseStep(c, s, Call))
  {
    hide SentBytesOk, ReadBytesOk, Genuine;
    var i := s.rd.next % |s.rd.ring|;
    if s.rd.ring[i].Some? {
      DeliverBytes(s.delivered, s.readBuf, s.got, s.rd.ring[i].value);
      DeliveredStays(c.first, s, s.rd.ring[i].value, s.rd.ring[i := None], s.bag);
    }
  }

  lemma TakeKeeps(c: Config, s: State, p: Packet)
    requires ValidConfig(c) && LooseInv(c, s) && LooseEnabled(c, s, Take(p))
    ensures LooseInv(c, LooseStep(c, s, Take(p)))
  {
    hide SentBytesOk, ReadBytesOk, Genuine;
    if s.rd.next == p.SeqNr() {
      DeliverBytes(s.delivered, s.readBuf, s.got, p);
      DeliveredStays(c.first, s, p, s.rd.ring, s.bag - multiset{p});
    } else {
      var i := p.SeqNr() % |s.rd.ring|;
      var ring := s.rd.ring[i := Some(p)];
      assert forall j | 0 <= j < |ring| :: ring[j] == if j == i then Some(p) else s.rd.ring[j];
    }
  }

  lemma DeliveredStays(first: nat, s: State, p: Packet, ring: seq<Option<Packet>>, bag: multiset<Packet>)
    requires AllGenuine(first, s.sent, s.snd.inflight, s.data, s.bag, s.rd.ring, s.delivered)
    requires Genuine(first, s.sent, p) && |ring| == |s.rd.ring| && bag <= s.bag
    requires forall i | 0 <= i < |ring| && ring[i].Some? :: ring[i] == s.rd.ring[i]
    ensures AllGenuine(first, s.sent, s.snd.inflight, s.data, bag, ring, s.delivered + [p])
  {
    hide Genuine;
  }

  /** A run is a run of the reader, and what it delivers is what the reader hands out. */
  lemma {:induction false} RunOfReader(c: Config, s: State, acts: seq<Action>)
    requires ValidConfig(c) && LooseInv(c, s) && LooseRun(c, s, acts) && |s.rd.ring| > 0
    ensures LooseInv(c, LooseExec(c, s, acts))
    ensures ReaderRuns.PossibleRun(s.rd, ReaderEvents(acts))
    ensures LooseExec(c, s, acts).delivered == s.delivered + ReaderRuns.Outputs(s.rd, ReaderEvents(acts))
    decreases |acts|
  {
    hide LooseInv, LooseStep, LooseEnabled, ReaderRuns.React, ReaderRuns.Possible, ReaderRuns.Outputs,
         ReaderRuns.PossibleRun, Handed, ReaderEvent;
    if acts == [] {
      NoOutputs(s.rd);
      assert s.delivered + [] == s.delivered;
    } else {
      var a, t, rest := acts[0], LooseStep(c, s, acts[0]), ReaderEvents(acts[1..]);
      StepOfReader(c, s, a);
      RunOfReader(c, t, acts[1..]);
      if a.Call? || a.Take? {
        OutputsCons(s.rd, ReaderEvent(a)[0], rest);
        assert s.delivered + (Handed(s.rd, ReaderEvent(a)[0]) + ReaderRuns.Outputs(t.rd, rest))
            == (s.delivered + Handed(s.rd, ReaderEvent(a)[0])) + ReaderRuns.Outputs(t.rd, rest);
      } else {
        assert ReaderEvents(acts) == [] + rest == rest;
      }
    }
  }

  lemma NoOutputs(r: Reader)
    ensures ReaderRuns.PossibleRun(r, []) && ReaderRuns.Outputs(r, []) == []
  {
  }

  lemma OutputsCons(r: Reader, e: ReaderRuns.Event, rest: seq<ReaderRuns.Event>)
    requires ReaderRuns.Possible(r, e) && ReaderRuns.PossibleRun(ReaderRuns.React(r, e).0, rest)
    ensures ReaderRuns.PossibleRun(r, [e] + rest)
    ensures ReaderRuns.Outputs(r, [e] + rest) == Handed(r, e) + ReaderRuns.Outputs(ReaderRuns.React(r, e).0, rest)
  {
    hide ReaderRuns.React, ReaderRuns.Possible;
    assert ([e] + rest)[1..] == rest;
  }

  function Handed(r: Reader, e: ReaderRuns.Event): seq<Packet>
    requires ReaderRuns.Possible(r, e)
  {
    if ReaderRuns.React(r, e).1.Some? then [ReaderRuns.React(r, e).1.value] else []
  }

  lemma StepOfReader(c: Config, s: State, a: Action)
    requires ValidConfig(c) && LooseInv(c, s) && LooseEnabled(c, s, a) && |s.rd.ring| > 0
    ensures var t := LooseStep(c, s, a);
            && LooseInv(c, t) && |t.rd.ring| == |s.rd.ring|
            && (if a.Call? || a.Take? then
                  var e := ReaderEvent(a)[0];
                  && ReaderEvent(a) == [e] && ReaderRuns.Possible(s.rd, e)
                  && t.rd == ReaderRuns.React(s.rd, e).0 && t.delivered == s.delivered + Handed(s.rd, e)
                else ReaderEvent(a) == [] && t.rd == s.rd && t.delivered == s.delivered)
  {
    hide LooseInv;
    match a {
      case Call => CallKeeps(c, s);
      case Take(p) => TakeKeeps(c, s, p);
      case _ => SenderStepKeeps(c, s, a);
    }
    assert s.delivered + [] == s.delivered;
  }

  lemma PrefixInOrder(first: nat, sent: seq<Packet>, delivered: seq<Packet>)
    requires forall i | 0 <= i < |sent| :: sent[i].num == first + i
    requires forall i | 0 <= i < |delivered| :: Genuine(first, sent, delivered[i])
    ensures delivered <= sent <==> ReaderRuns.InOrder(delivered, first)
  {
    if ReaderRuns.InOrder(delivered, first) {
      forall i | 0 <= i < |delivered| ensures i < |sent| && delivered[i] == sent[i] {
        assert Genuine(first, sent, delivered[i]) && delivered[i].num == first + i;
      }
      assert |delivered| <= |sent| by {
        assert |delivered| > 0 ==> Genuine(first, sent, delivered[|delivered| - 1]);
      }
      assert delivered == sent[..|delivered|];
    }
  }

  /** As long as packets are compared less than one circle of numbers away from the next one, the
      packets delivered are the first ones sent, in order and exactly once, if and only if no call finds
      a packet with another 16-bit number in the slot of the next one; and then the bytes read, with
      the read buffer, are a prefix of the bytes written. */
  lemma InOrderExactly(c: Config, s0: State, acts: seq<Action>)
    requires Init(c, s0) && LooseRun(c, s0, acts)
    requires ReaderRuns.PossibleRun(s0.rd, ReaderEvents(acts))
    requires ReaderRuns.Recent(s0.rd, c.first, ReaderEvents(acts))
    ensures var s, inOrder := LooseExec(c, s0, acts), ReaderRuns.NoForeignPacket(s0.rd, ReaderEvents(acts));
            && (s.delivered <= s.sent <==> inOrder)
            && (inOrder ==> s.got + s.readBuf <= s.written)
  {
    LooseInit(c, s0);
    RunOfReader(c, s0, acts);
    ReaderRuns.InOrderExactly(s0.rd, c.first, ReaderEvents(acts));
    var s := LooseExec(c, s0, acts);
    hide Init, LooseRun, LooseExec, ReaderRuns.Recent, ReaderRuns.PossibleRun, ReaderRuns.Outputs, ReaderEvents,
         ReaderRuns.NoForeignPacket, FreshReader, Genuine, ReaderRuns.InOrder;
    assert [] + ReaderRuns.Outputs(s0.rd, ReaderEvents(acts)) == ReaderRuns.Outputs(s0.rd, ReaderEvents(acts));
    PrefixInOrder(c.first, s.sent, s.delivered);
    if s.delivered <= s.sent {
      CarriedPrefix(s.delivered, s.sent);
    }
  }

  /** The steps of the transport are among these steps: only the premise on the packets that the reader
      takes is gone. */
  lemma {:induction false} EveryRunIsLoose(c: Config, s: State, t: State, acts: seq<Action>)
    requires ValidConfig(c) && Run(c, s, acts) && t == s.(ideal := t.ideal)
    ensures LooseRun(c, t, acts)
    ensures LooseExec(c, t, acts) == Exec(c, s, acts).(ideal := LooseExec(c, t, acts).ideal)
    decreases |acts|
  {
    if acts == [] {
    } else {
      LooseSame(c, s, t, acts[0]);
      hide Enabled, Step, LooseEnabled, LooseStep;
      EveryRunIsLoose(c, Step(c, s, acts[0]), LooseStep(c, t, acts[0]), acts[1..]);
    }
  }

  lemma LooseSame(c: Config, s: State, t: State, a: Action)
    requires ValidConfig(c) && Enabled(c, s, a) && t == s.(ideal := t.ideal)
    ensures LooseEnabled(c, t, a)
    ensures LooseStep(c, t, a) == Step(c, s, a).(ideal := LooseStep(c, t, a).ideal)
  {
    assert Young(c, s) ==> Young(c, t);
    hide Young, Sender.Transmit, Sender.Retransmit, Sender.ProcessAck, Begin, Accept, IdealBegin, IdealAccept;
  }

  /** In a fresh run, what the reader can do is always possible: the condition above can be asked of
      every run. */
  lemma AlwaysPossible(c: Config, s0: State, acts: seq<Action>)
    requires Init(c, s0) && LooseRun(c, s0, acts)
    ensures ReaderRuns.PossibleRun(s0.rd, ReaderEvents(acts))
  {
    LooseInit(c, s0);
    RunOfReader(c, s0, acts);
  }
}
