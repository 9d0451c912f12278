/** What every run of the transport guarantees. */
module TransportSafety {
  import opened Prelude
  import opened PacketNumbers
  import opened DataReader
  import opened ByteStream
  import opened Transport
  import Congestion
  import Sender

  lemma ReachableInv(c: Config, s0: State, acts: seq<Action>)
    requires Init(c, s0) && Run(c, s0, acts)
    ensures Inv(c, Exec(c, s0, acts))
  {
    InitInv(c, s0);
    RunKeeps(c, s0, acts);
  }

  /** Packets come out in order and exactly once, as a prefix of the packets sent, over any number
      of wrap-arounds of the 16-bit numbers. */
  lemma InOrderExactlyOnce(c: Config, s0: State, acts: seq<Action>)
    requires Init(c, s0) && Run(c, s0, acts)
    ensures var s := Exec(c, s0, acts);
            && s.delivered <= s.sent
            && forall i | 0 <= i < |s.delivered| :: s.delivered[i].num == c.first + i
  {
    ReachableInv(c, s0, acts);
    hide Represents;
  }

  /** The bytes read are always a prefix of the bytes written. */
  lemma BytesArePrefix(c: Config, s0: State, acts: seq<Action>)
    requires Init(c, s0) && Run(c, s0, acts)
    ensures var s := Exec(c, s0, acts); s.got <= s.written && s.got + s.readBuf <= s.written
  {
    ReachableInv(c, s0, acts);
    hide Represents, Conserved, Numbered, Remembered, RetriesOk;
    var s := Exec(c, s0, acts);
    CarriedPrefix(s.delivered, s.sent);
    assert s.got <= Carried(s.delivered) <= Carried(s.sent) <= s.written;
  }

  lemma PendingLocated(rd: Reader, ideal: Ideal, n: nat)
    requires Represents(rd, ideal) && n in ideal.pending
    ensures ideal.pending[n].num == n && rd.ring[Slot(n, |rd.ring|)] == Some(ideal.pending[n])
  {
  }

  /** A packet that arrived was delivered, or waits in the ring, or waits in the queue. */
  lemma ArrivedLocated(c: Config, s: State, n: nat)
    requires Inv(c, s) && n in s.arrived
    ensures |s.rd.ring| == c.capacity > 0
    ensures c.first <= n < End(c, s)
    ensures var p := s.sent[n - c.first];
            || (n - c.first < |s.delivered| && s.delivered[n - c.first] == p)
            || s.rd.ring[Slot(n, c.capacity)] == Some(p)
            || p in s.bag
  {
    hide Slot, SafeWindow, WindowOk, RetriesOk, SentBytesOk, ReadBytesOk, Remembered, WatchOk;
    if n in s.ideal.pending {
      PendingLocated(s.rd, s.ideal, n);
      assert Genuine(c.first, s.sent, s.ideal.pending[n]);
    } else if InBag(s.bag, n) {
      var q :| q in s.bag && q.num == n;
      assert Genuine(c.first, s.sent, q);
    }
  }

  /** The packet with number `n` is watched by the sender, delivered, in the ring, or queued. */
  ghost predicate Accounted(c: Config, s: State, n: nat)
    requires c.first <= n < End(c, s)
  {
    var p := s.sent[n - c.first];
    || (Wire(n) in s.snd.inflight && s.snd.inflight[Wire(n)].packet == p)
    || (n - c.first < |s.delivered| && s.delivered[n - c.first] == p)
    || (|s.rd.ring| > 0 && s.rd.ring[Slot(n, |s.rd.ring|)] == Some(p))
    || p in s.bag
  }

  lemma SentAccounted(c: Config, s: State, n: nat)
    requires Inv(c, s) && c.first <= n < End(c, s)
    ensures Accounted(c, s, n)
  {
    hide Represents, Conserved, Numbered, WindowOk, RetriesOk, SentBytesOk, ReadBytesOk, ReaderOk, DataOk, Slot;
    if n in s.arrived {
      ArrivedLocated(c, s, n);
    } else {
      assert Watched(s.snd.inflight, n);
    }
  }

  /** Every packet sent is still watched by the sender, or it was delivered, or it waits in the ring
      in its own slot, or in the queue of the reader. */
  lemma NothingForgotten(c: Config, s0: State, acts: seq<Action>, n: nat)
    requires Init(c, s0) && Run(c, s0, acts)
    requires c.first <= n < End(c, Exec(c, s0, acts))
    ensures Accounted(c, Exec(c, s0, acts), n)
  {
    hide Inv, Accounted;
    ReachableInv(c, s0, acts);
    SentAccounted(c, Exec(c, s0, acts), n);
  }

  lemma WaitingBeyondPending(c: Config, sent: seq<Packet>, rd: Reader, ideal: Ideal, delivered: seq<Packet>)
    requires ReaderOk(c, sent, rd, ideal, delivered) && rd.waiting
    ensures ideal.next !in ideal.pending
  {
    hide Slot, SafeWindow;
  }

  lemma AllDelivered(first: nat, end: nat, arrived: set<nat>, ideal: Ideal, bag: multiset<Packet>)
    requires Conserved(first, arrived, ideal, bag) && bag == multiset{} && first <= ideal.next
    requires forall n | first <= n < end :: n in arrived
    requires ideal.next !in ideal.pending
    ensures ideal.next >= end
  {
    assert !InBag(bag, ideal.next);
    assert ideal.next !in arrived;
  }

  /** When nothing is left to send, to acknowledge or to take, everything written is readable. */
  lemma QuiescentComplete(c: Config, s0: State, acts: seq<Action>)
    requires Init(c, s0) && Run(c, s0, acts)
    ensures var s := Exec(c, s0, acts);
            s.txChan == [] && s.snd.inflight == map[] && s.bag == multiset{} && s.rd.waiting
            ==> s.delivered == s.sent && s.got + s.readBuf == s.written
  {
    ReachableInv(c, s0, acts);
    hide Represents, Conserved, Numbered, WindowOk, RetriesOk, WatchOk;
    var s := Exec(c, s0, acts);
    if s.txChan == [] && s.snd.inflight == map[] && s.bag == multiset{} && s.rd.waiting {
      WaitingBeyondPending(c, s.sent, s.rd, s.ideal, s.delivered);
      forall n | c.first <= n < End(c, s) ensures n in s.arrived {
        assert !Watched(s.snd.inflight, n);
      }
      AllDelivered(c.first, End(c, s), s.arrived, s.ideal, s.bag);
      assert Flatten(s.txChan) == [];
    }
  }

  /** The number of unacknowledged packets is `pipe`, and stays within the initial window; the
      window itself stays between one and its initial value. */
  lemma WindowAccounting(c: Config, s0: State, acts: seq<Action>)
    requires Init(c, s0) && Run(c, s0, acts)
    ensures var s := Exec(c, s0, acts);
            && s.snd.window.pipe == |s.snd.inflight| <= c.initCwnd
            && 1 <= s.snd.window.cwnd <= c.initCwnd
  {
    ReachableInv(c, s0, acts);
    hide Represents, Conserved, Numbered, Remembered, RetriesOk, ReaderOk;
  }

  // ------------------------------------------------------- the network

  function Arrivals(ps: seq<Packet>): (acts: seq<Action>)
    ensures |acts| == |ps|
  {
    seq(|ps|, i requires 0 <= i < |ps| => ArriveData(ps[i]))
  }

  /** The network may deliver the packets that it holds in any order, each of them any number of times or
      not at all, and each one that arrives is acknowledged. */
  lemma {:induction false} AnyArrivals(c: Config, s: State, ps: seq<Packet>)
    requires ValidConfig(c) && forall p | p in ps :: p in s.data
    ensures Run(c, s, Arrivals(ps))
    ensures var t := Exec(c, s, Arrivals(ps));
            && t.bag == s.bag + multiset(ps) && t.data == s.data && t.snd == s.snd && t.rd == s.rd
            && t.acks == s.acks + Numbers(ps)
    decreases |ps|
  {
    hide Step, Enabled, Run, Exec, Numbers;
    NumbersOf(ps);
    if ps == [] {
      assert Arrivals(ps) == [];
      RunNil(c, s);
    } else {
      ArriveOne(c, s, ps[0]);
      AnyArrivals(c, Step(c, s, ArriveData(ps[0])), ps[1..]);
      assert Arrivals(ps) == [ArriveData(ps[0])] + Arrivals(ps[1..]);
      assert ps == [ps[0]] + ps[1..];
      RunCons(c, s, ArriveData(ps[0]), Arrivals(ps[1..]));
    }
  }

  function Numbers(ps: seq<Packet>): set<nat>
  {
    set p | p in ps :: p.num
  }

  lemma NumbersOf(ps: seq<Packet>)
    ensures Numbers(ps) == if ps == [] then {} else {ps[0].num} + Numbers(ps[1..])
  {
    assert ps != [] ==> forall p | p in ps :: p == ps[0] || p in ps[1..];
  }

  lemma ArriveOne(c: Config, s: State, p: Packet)
    requires ValidConfig(c) && p in s.data
    ensures Enabled(c, s, ArriveData(p))
    ensures var t := Step(c, s, ArriveData(p));
            && t.bag == s.bag + multiset{p} && t.data == s.data && t.snd == s.snd && t.rd == s.rd
            && t.acks == s.acks + {p.num}
  {
  }

  /** So may acknowledgements, and anything in the network may be lost. */
  lemma AnythingHappens(c: Config, s: State, n: nat, srtt: int, p: Packet, k: PacketNumber)
    requires ValidConfig(c)
    ensures n in s.acks ==>
              && Enabled(c, s, ArriveAck(n, srtt)) && Enabled(c, Step(c, s, ArriveAck(n, srtt)), ArriveAck(n, srtt))
              && Enabled(c, s, LoseAck(n)) && Step(c, s, LoseAck(n)) == s.(acks := s.acks - {n})
    ensures p in s.data ==> Enabled(c, s, LoseData(p)) && Step(c, s, LoseData(p)) == s.(data := s.data - {p})
    ensures s.alive && k in s.snd.inflight ==>
              && Enabled(c, s, Timeout(k)) && s.snd.inflight[k].packet in Step(c, s, Timeout(k)).data
              && (Step(c, s, Timeout(k)).alive <==> s.snd.inflight[k].retransmits < c.maxRetransmits)
  {
  }

  /** A packet can be sent exactly when one is queued and fewer are unacknowledged than the window is
      wide, in every reachable state in which the connection lives and nothing is too old. */
  lemma SendsExactly(c: Config, s0: State, acts: seq<Action>)
    requires Init(c, s0) && Run(c, s0, acts)
    ensures var s := Exec(c, s0, acts);
            s.alive && Young(c, s) && s.txChan != [] ==>
              (Enabled(c, s, SendNext) <==> |s.snd.inflight| < s.snd.window.cwnd)
  {
    hide Young;
    WindowAccounting(c, s0, acts);
  }

  /** How many steps of a run narrow the window: timeouts, and acknowledgements of nothing watched. */
  ghost function Narrowings(c: Config, s: State, acts: seq<Action>): nat
    requires ValidConfig(c) && Run(c, s, acts)
    decreases |acts|
  {
    if acts == [] then 0
    else
      (if acts[0].Timeout? || (acts[0].ArriveAck? && Wire(acts[0].n) !in s.snd.inflight) then 1 else 0)
      + Narrowings(c, Step(c, s, acts[0]), acts[1..])
  }

  /** In every run the width of the window is exactly what these steps have made of the initial one. */
  lemma {:induction false} WindowExactly(c: Config, s: State, acts: seq<Action>)
    requires ValidConfig(c) && Run(c, s, acts)
    ensures Exec(c, s, acts).snd.window.cwnd == Congestion.Iterated(s.snd.window.cwnd, Narrowings(c, s, acts))
    decreases |acts|
  {
    if acts == [] {
    } else {
      var t := Step(c, s, acts[0]);
      WindowStep(c, s, acts[0]);
      hide Step, Enabled;
      WindowExactly(c, t, acts[1..]);
    }
  }

  lemma WindowStep(c: Config, s: State, a: Action)
    requires ValidConfig(c) && Enabled(c, s, a)
    ensures Step(c, s, a).snd.window.cwnd
         == if a.Timeout? || (a.ArriveAck? && Wire(a.n) !in s.snd.inflight) then Congestion.Decreased(s.snd.window.cwnd)
            else s.snd.window.cwnd
  {
  }

  /** With the default initial window of one, a packet is sent only after all before it arrived. */
  lemma StopAndWait(c: Config, s0: State, acts: seq<Action>)
    requires Init(c, s0) && Run(c, s0, acts) && c.initCwnd == 1
    requires Enabled(c, Exec(c, s0, acts), SendNext)
    ensures var s := Exec(c, s0, acts); forall n | c.first <= n < End(c, s) :: n in s.arrived
  {
    ReachableInv(c, s0, acts);
    var s := Exec(c, s0, acts);
    hide Represents, Conserved, Numbered, RetriesOk, ReaderOk;
    assert |s.snd.inflight| == 0;
    assert s.snd.inflight == map[];
    forall n | c.first <= n < End(c, s) ensures n in s.arrived {
      assert !Watched(s.snd.inflight, n);
    }
  }

  /** No packet is put on the wire more than maxRetransmits + 2 times, and while the run loop lives
      no unacknowledged packet was retransmitted more than maxRetransmits times. */
  lemma RetransmissionBound(c: Config, s0: State, acts: seq<Action>)
    requires Init(c, s0) && Run(c, s0, acts)
    ensures var s := Exec(c, s0, acts);
            && |s.puts| == |s.sent|
            && (forall i | 0 <= i < |s.puts| :: 1 <= s.puts[i] <= c.maxRetransmits + 2)
            && (s.alive ==> forall k | k in s.snd.inflight :: s.snd.inflight[k].retransmits <= c.maxRetransmits)
  {
    ReachableInv(c, s0, acts);
    hide Represents, Conserved, Numbered, Remembered, ReaderOk;
  }

  ghost predicate GaveUp(c: Config, s: State)
  {
    exists i :: 0 <= i < |s.puts| && s.puts[i] == c.maxRetransmits + 2
  }

  lemma GivesUpStep(c: Config, s: State, a: Action)
    requires ValidConfig(c) && Inv(c, s) && Enabled(c, s, a) && (s.alive <==> !GaveUp(c, s))
    ensures var t := Step(c, s, a); t.alive <==> !GaveUp(c, t)
  {
    hide Represents, Conserved, Numbered, Remembered, ReaderOk, SentBytesOk, ReadBytesOk, WindowOk, DataOk, AcksOk,
         Congestion.React;
    var t := Step(c, s, a);
    match a {
      case Timeout(k) =>
        var i := s.snd.inflight[k].packet.num - c.first;
        assert 0 <= i < |s.puts| && s.puts[i] == s.snd.inflight[k].retransmits + 1;
        assert t.puts == s.puts[i := s.puts[i] + 1];
        assert s.puts[i] + 1 == t.puts[i];
        assert forall j | 0 <= j < |s.puts| && j != i :: t.puts[j] == s.puts[j];
      case SendNext =>
        assert forall j | 0 <= j < |s.puts| :: t.puts[j] == s.puts[j];
      case _ =>
    }
  }

  lemma {:induction false} GivesUpInRun(c: Config, s: State, acts: seq<Action>)
    requires ValidConfig(c) && Inv(c, s) && Run(c, s, acts) && (s.alive <==> !GaveUp(c, s))
    ensures var t := Exec(c, s, acts); t.alive <==> !GaveUp(c, t)
    decreases |acts|
  {
    if acts == [] {
    } else {
      GivesUpStep(c, s, acts[0]);
      StepKeeps(c, s, acts[0]);
      hide Step, Enabled, Inv, GaveUp;
      GivesUpInRun(c, Step(c, s, acts[0]), acts[1..]);
    }
  }

  /** The connection ends exactly with a packet that is put on the wire for the last time allowed. */
  lemma GivesUpExactly(c: Config, s0: State, acts: seq<Action>)
    requires Init(c, s0) && Run(c, s0, acts)
    ensures var s := Exec(c, s0, acts); s.alive <==> !GaveUp(c, s)
  {
    ReachableInv(c, s0, []);
    hide Inv, Run, Exec;
    GivesUpInRun(c, s0, acts);
  }

  // ------------------------------------------------- transfers end

  /** Transmissions that packet `first + i` may still cause, and its acknowledgement. */
  function Cost(c: Config, inflight: Watchlist, i: nat): int
  {
    var n := c.first + i;
    if Watched(inflight, n) then c.maxRetransmits + 2 - inflight[Wire(n)].retransmits else 0
  }

  function Total(c: Config, inflight: Watchlist, count: nat): int
  {
    if count == 0 then 0 else Total(c, inflight, count - 1) + Cost(c, inflight, count - 1)
  }

  function Potential(c: Config, s: State): int
  {
    |s.txChan| * (c.maxRetransmits + 3) + Total(c, s.snd.inflight, |s.sent|)
  }

  /** Sending, a retransmission, and an acknowledgement that removes a packet. */
  predicate Effective(s: State, a: Action)
  {
    a.SendNext? || a.Timeout? || (a.ArriveAck? && Wire(a.n) in s.snd.inflight)
  }

  function PacketsOf(c: Config, a: Action): nat
    requires c.maxPacketSize > 0
  {
    if a.Write? then |Queued(a.b, c.maxPacketSize)| else 0
  }

  lemma {:induction false} TotalDiff(c: Config, w: Watchlist, w': Watchlist, count: nat, i: nat)
    requires forall j: nat | j < count && j != i :: Cost(c, w', j) == Cost(c, w, j)
    ensures Total(c, w', count) - Total(c, w, count) == if i < count then Cost(c, w', i) - Cost(c, w, i) else 0
    decreases count
  {
    hide Cost;
    if count == 0 {
    } else {
      TotalDiff(c, w, w', count - 1, i);
    }
  }

  lemma {:induction false} TotalNonNegative(c: Config, w: Watchlist, count: nat)
    requires forall k | k in w :: w[k].retransmits <= c.maxRetransmits + 1
    ensures Total(c, w, count) >= 0
    decreases count
  {
    if count == 0 {
    } else {
      TotalNonNegative(c, w, count - 1);
    }
  }

  lemma SendCosts(c: Config, sent: seq<Packet>, snd: Sender.State, payload: bytes)
    requires Numbered(c.first, sent, snd.gen) && WatchOk(c.first, sent, snd.inflight)
    requires forall k | k in snd.inflight :: snd.inflight[k].packet.num + CIRCLE > c.first + |sent|
    ensures Total(c, Sender.Transmit(snd, c.first + |sent|, payload).inflight, |sent| + 1)
         == Total(c, snd.inflight, |sent|) + c.maxRetransmits + 2
  {
    var w, w', i := snd.inflight, Sender.Transmit(snd, c.first + |sent|, payload).inflight, |sent|;
    SendSlotFree(c.first + i, w);
    forall j: nat | j < i ensures Cost(c, w', j) == Cost(c, w, j) {
      assert Watched(w', c.first + j) <==> Watched(w, c.first + j);
    }
    TotalDiff(c, w, w', i, i);
  }

  lemma TimeoutCosts(c: Config, sent: seq<Packet>, snd: Sender.State, k: PacketNumber)
    requires WatchOk(c.first, sent, snd.inflight) && k in snd.inflight
    ensures Total(c, Sender.Retransmit(snd, k).inflight, |sent|) == Total(c, snd.inflight, |sent|) - 1
  {
    hide Congestion.React;
    var w, w', i := snd.inflight, Sender.Retransmit(snd, k).inflight, snd.inflight[k].packet.num - c.first;
    forall j: nat | j < |sent| && j != i ensures Cost(c, w', j) == Cost(c, w, j) {
      assert Watched(w', c.first + j) <==> Watched(w, c.first + j);
    }
    TotalDiff(c, w, w', |sent|, i);
  }

  lemma AckCosts(c: Config, sent: seq<Packet>, snd: Sender.State, n: nat, srtt: int)
    requires WatchOk(c.first, sent, snd.inflight)
    requires c.first <= n < c.first + |sent| && n + CIRCLE >= c.first + |sent|
    requires forall k | k in snd.inflight :: snd.inflight[k].retransmits <= c.maxRetransmits + 1
    ensures Total(c, Sender.ProcessAck(snd, Wire(n), srtt).inflight, |sent|)
         <= Total(c, snd.inflight, |sent|) - if Wire(n) in snd.inflight then 1 else 0
  {
    hide Congestion.React, Congestion.Acked, Congestion.Measured;
    var w, w', i := snd.inflight, Sender.ProcessAck(snd, Wire(n), srtt).inflight, n - c.first;
    AckRemovesOnlyItsPacket(c.first, sent, snd, n, srtt);
    forall j: nat | j < |sent| && j != i ensures Cost(c, w', j) == Cost(c, w, j) {
      assert Watched(w', c.first + j) <==> Watched(w, c.first + j);
    }
    TotalDiff(c, w, w', |sent|, i);
  }

  lemma PotentialOfSends(c: Config, s: State, a: Action)
    requires ValidConfig(c) && Inv(c, s) && Enabled(c, s, a) && (a.Write? || a.SendNext?)
    ensures Potential(c, Step(c, s, a)) + (if Effective(s, a) then 1 else 0)
         <= Potential(c, s) + PacketsOf(c, a) * (c.maxRetransmits + 3)
  {
    hide Represents, Conserved, Remembered, ReaderOk, WindowOk, Total, Numbered, WatchOk, SentBytesOk, ReadBytesOk,
         Sender.Transmit, Queued, Genuine;
    var m := c.maxRetransmits + 3;
    if a.Write? {
      var q := Queued(a.b, c.maxPacketSize);
      assert (|s.txChan| + |q|) * m == |s.txChan| * m + |q| * m;
    } else {
      SendCosts(c, s.sent, s.snd, s.txChan[0]);
      assert |s.txChan| * m == (|s.txChan| - 1) * m + m;
    }
  }

  lemma PotentialDrops(c: Config, s: State, a: Action)
    requires ValidConfig(c) && Inv(c, s) && Enabled(c, s, a)
    ensures Potential(c, Step(c, s, a)) + (if Effective(s, a) then 1 else 0)
         <= Potential(c, s) + PacketsOf(c, a) * (c.maxRetransmits + 3)
  {
    hide Represents, Conserved, Remembered, ReaderOk, WindowOk, Total, Timely, Begin, Accept, IdealBegin, IdealAccept,
         Numbered, WatchOk, SentBytesOk, ReadBytesOk, Sender.Transmit, Sender.Retransmit, Sender.ProcessAck, Queued,
         Genuine;
    if a.Write? || a.SendNext? {
      PotentialOfSends(c, s, a);
    } else {
      assert PacketsOf(c, a) == 0;
      if a.Timeout? {
        TimeoutCosts(c, s.sent, s.snd, a.k);
      } else if a.ArriveAck? {
        AckCosts(c, s.sent, s.snd, a.n, a.srtt);
      }
    }
  }

  ghost function EffectiveSteps(c: Config, s: State, acts: seq<Action>): nat
    requires ValidConfig(c) && Run(c, s, acts)
    decreases |acts|
  {
    if acts == [] then 0
    else (if Effective(s, acts[0]) then 1 else 0) + EffectiveSteps(c, Step(c, s, acts[0]), acts[1..])
  }

  function PacketsQueued(c: Config, acts: seq<Action>): nat
    requires c.maxPacketSize > 0
  {
    if acts == [] then 0 else PacketsOf(c, acts[0]) + PacketsQueued(c, acts[1..])
  }

  lemma PotentialNonNegative(c: Config, s: State)
    requires Inv(c, s)
    ensures Potential(c, s) >= 0
  {
    hide Represents, Conserved, Numbered, WindowOk, WatchOk, ReaderOk, Remembered, Total;
    TotalNonNegative(c, s.snd.inflight, |s.sent|);
    assert |s.txChan| * (c.maxRetransmits + 3) >= 0;
  }

  lemma {:induction false} PotentialBoundsSteps(c: Config, s: State, acts: seq<Action>)
    requires ValidConfig(c) && Inv(c, s) && Run(c, s, acts)
    ensures EffectiveSteps(c, s, acts) <= Potential(c, s) + PacketsQueued(c, acts) * (c.maxRetransmits + 3)
    decreases |acts|
  {
    hide Inv, Step, Enabled, Potential, Effective, PacketsOf;
    if acts == [] {
      PotentialNonNegative(c, s);
    } else {
      StepKeeps(c, s, acts[0]);
      PotentialDrops(c, s, acts[0]);
      var s', m := Step(c, s, acts[0]), c.maxRetransmits + 3;
      PotentialBoundsSteps(c, s', acts[1..]);
      var x, y := PacketsOf(c, acts[0]), PacketsQueued(c, acts[1..]);
      assert (x + y) * m == x * m + y * m;
    }
  }

  /** A transfer of N packets takes at most N * (maxRetransmits + 3) transmissions, retransmissions
      and effective acknowledgements, whatever the network does. */
  lemma TransfersEnd(c: Config, s0: State, acts: seq<Action>)
    requires Init(c, s0) && Run(c, s0, acts)
    ensures EffectiveSteps(c, s0, acts) <= PacketsQueued(c, acts) * (c.maxRetransmits + 3)
  {
    InitInv(c, s0);
    PotentialBoundsSteps(c, s0, acts);
  }

  // ------------------------------------- a premise that cannot be dropped

  /** A second copy of the handshake acknowledgement, which carries the number of the first data
      packet, makes the sender forget that packet although it is lost. */
  lemma StrayHandshakeAck(c: Config, s: State, b: bytes)
    requires Init(c, s.(acks := {})) && s.acks == {c.first}
    requires 0 < |b| < c.maxPacketSize
    ensures var p := Packet(c.first, b);
            var acts := [Write(b)] + ([SendNext] + ([ArriveAck(c.first, 0)] + ([LoseData(p)] + [])));
            && Run(c, s, acts)
            && var t := Exec(c, s, acts);
            && t.sent == [p] && t.data == {} && t.snd.inflight == map[] && t.arrived == {} && t.txChan == []
  {
    hide Represents, Run, Exec;
    var p := Packet(c.first, b);
    assert Packetize(b, c.maxPacketSize) == [b];
    var s1 := Step(c, s, Write(b));
    assert s1.txChan == [b];
    var s2 := Step(c, s1, SendNext);
    assert s2.snd.inflight == map[Wire(c.first) := Sender.Inflight(p, 0)];
    var s3 := Step(c, s2, ArriveAck(c.first, 0));
    assert s3.snd.inflight == map[];
    var s4 := Step(c, s3, LoseData(p));
    RunNil(c, s4);
    RunCons(c, s3, LoseData(p), []);
    RunCons(c, s2, ArriveAck(c.first, 0), [LoseData(p)] + []);
    RunCons(c, s1, SendNext, [ArriveAck(c.first, 0)] + ([LoseData(p)] + []));
    RunCons(c, s, Write(b), [SendNext] + ([ArriveAck(c.first, 0)] + ([LoseData(p)] + [])));
  }

  lemma RunNil(c: Config, s: State)
    requires ValidConfig(c)
    ensures Run(c, s, []) && Exec(c, s, []) == s
  {
  }

  lemma RunCons(c: Config, s: State, a: Action, rest: seq<Action>)
    requires ValidConfig(c) && Enabled(c, s, a) && Run(c, Step(c, s, a), rest)
    ensures Run(c, s, [a] + rest)
    ensures Exec(c, s, [a] + rest) == Exec(c, Step(c, s, a), rest)
  {
    hide Enabled, Step;
    assert ([a] + rest)[1..] == rest;
  }
}
