/** Delivery stays possible: from every reachable state in which the connection can recover there is a run
    in which everything written is read; and the window can be filled. */
module Delivery {
  import opened Prelude
  import opened PacketNumbers
  import opened DataReader
  import opened ByteStream
  import opened Transport
  import Congestion
  import Sender
  import TransportSafety

  lemma {:induction false} RunJoin(c: Config, s: State, a: seq<Action>, b: seq<Action>)
    requires ValidConfig(c) && Run(c, s, a) && Run(c, Exec(c, s, a), b)
    ensures Run(c, s, a + b) && Exec(c, s, a + b) == Exec(c, Exec(c, s, a), b)
    decreases |a|
  {
    hide Enabled, Step;
    if a == [] {
      assert a + b == b;
    } else {
      RunJoin(c, Step(c, s, a[0]), a[1..], b);
      assert (a + b)[1..] == a[1..] + b && (a + b)[0] == a[0];
    }
  }

  // ------------------------------------------------------------- recovery

  /** The connection lives, and every packet that is watched is still in the network or may be sent again
      without reaching the limit of retransmissions. */
  ghost predicate Recoverable(c: Config, s: State)
  {
    s.alive && forall k | k in s.snd.inflight ::
      s.snd.inflight[k].packet in s.data || s.snd.inflight[k].retransmits < c.maxRetransmits
  }

  /** Nothing changes at the reader, and nothing new is sent. */
  ghost predicate SameStreams(s: State, t: State)
  {
    && t.written == s.written && t.txChan == s.txChan && t.sent == s.sent && t.rd == s.rd && t.ideal == s.ideal
    && t.delivered == s.delivered && t.readBuf == s.readBuf && t.got == s.got
  }

  /** A watched packet arrives, after a retransmission if it was lost, and its acknowledgement comes back. */
  lemma RepairOne(c: Config, s: State, k: PacketNumber) returns (acts: seq<Action>)
    requires ValidConfig(c) && Inv(c, s) && Recoverable(c, s) && k in s.snd.inflight
    ensures Run(c, s, acts)
    ensures var t := Exec(c, s, acts);
            && SameStreams(s, t) && t.snd.inflight == s.snd.inflight - {k}
            && Recoverable(c, t)
  {
    var p := s.snd.inflight[k].packet;
    assert k == Wire(p.num);
    hide Inv, Sender.ProcessAck, Sender.Retransmit;
    if p in s.data {
      acts := ArriveAndAcknowledge(c, s, k);
    } else {
      var s1 := Resend(c, s, k);
      hide Step, Enabled, Run, Exec;
      var more := ArriveAndAcknowledge(c, s1, k);
      TransportSafety.RunCons(c, s, Timeout(k), more);
      acts := [Timeout(k)] + more;
      Remaining(s.snd.inflight, s1.snd.inflight, k);
    }
  }

  lemma Remaining(w: Watchlist, w': Watchlist, k: PacketNumber)
    requires k in w && w'.Keys == w.Keys && forall j | j in w && j != k :: w'[j] == w[j]
    ensures w' - {k} == w - {k}
  {
  }

  lemma Resend(c: Config, s: State, k: PacketNumber) returns (t: State)
    requires ValidConfig(c) && s.alive && k in s.snd.inflight && s.snd.inflight[k].retransmits < c.maxRetransmits
    ensures Enabled(c, s, Timeout(k)) && t == Step(c, s, Timeout(k))
    ensures SameStreams(s, t) && t.alive && t.data == s.data + {s.snd.inflight[k].packet}
    ensures t.snd.inflight.Keys == s.snd.inflight.Keys && t.snd.inflight[k].packet == s.snd.inflight[k].packet
    ensures forall j | j in s.snd.inflight && j != k :: t.snd.inflight[j] == s.snd.inflight[j]
  {
    Sender.RetransmitLaws(s.snd, k);
    t := Step(c, s, Timeout(k));
  }

  lemma ArriveAndAcknowledge(c: Config, s: State, k: PacketNumber) returns (acts: seq<Action>)
    requires ValidConfig(c) && k in s.snd.inflight && s.alive
    requires s.snd.inflight[k].packet in s.data && k == Wire(s.snd.inflight[k].packet.num)
    requires forall j | j in s.snd.inflight && j != k ::
               s.snd.inflight[j].packet in s.data || s.snd.inflight[j].retransmits < c.maxRetransmits
    ensures Run(c, s, acts)
    ensures var t := Exec(c, s, acts);
            SameStreams(s, t) && t.snd.inflight == s.snd.inflight - {k} && Recoverable(c, t)
  {
    var p := s.snd.inflight[k].packet;
    var s1 := Step(c, s, ArriveData(p));
    Sender.AckLaws(s1.snd, k, 0);
    var s2 := Step(c, s1, ArriveAck(p.num, 0));
    assert s2.snd.inflight == s.snd.inflight - {k};
    assert Enabled(c, s, ArriveData(p)) && Enabled(c, s1, ArriveAck(p.num, 0));
    assert SameStreams(s, s2) && s2.data == s.data && s2.alive;
    hide Step, Enabled, Run, Exec;
    TransportSafety.RunNil(c, s2);
    TransportSafety.RunCons(c, s1, ArriveAck(p.num, 0), []);
    TransportSafety.RunCons(c, s, ArriveData(p), [ArriveAck(p.num, 0)] + []);
    acts := [ArriveData(p)] + ([ArriveAck(p.num, 0)] + []);
  }

  /** Every watched packet arrives and is acknowledged. */
  lemma {:induction false} Repair(c: Config, s: State) returns (acts: seq<Action>)
    requires ValidConfig(c) && Inv(c, s) && Recoverable(c, s)
    ensures Run(c, s, acts) && Inv(c, Exec(c, s, acts))
    ensures var t := Exec(c, s, acts); SameStreams(s, t) && t.snd.inflight == map[] && t.alive
    decreases |s.snd.inflight|
  {
    if s.snd.inflight == map[] {
      acts := [];
    } else {
      var k :| k in s.snd.inflight;
      var first := RepairOne(c, s, k);
      RunKeeps(c, s, first);
      hide Inv, Run, Exec, Enabled, Step;
      var t := Exec(c, s, first);
      assert |t.snd.inflight| < |s.snd.inflight| by {
        Fewer(s.snd.inflight, k);
      }
      var more := Repair(c, t);
      RunJoin(c, s, first, more);
      acts := first + more;
    }
  }

  lemma Fewer(w: Watchlist, k: PacketNumber)
    requires k in w
    ensures |w - {k}| < |w|
  {
    assert (w - {k}).Keys == w.Keys - {k};
    assert |w.Keys - {k}| == |w.Keys| - 1;
    assert |w| == |w.Keys| && |w - {k}| == |(w - {k}).Keys|;
  }

  /** What is left in the network is lost. */
  lemma {:induction false} Clear(c: Config, s: State) returns (acts: seq<Action>)
    requires ValidConfig(c)
    ensures Run(c, s, acts)
    ensures var t := Exec(c, s, acts);
            t == s.(data := {}, acks := {})
    decreases |s.data| + |s.acks|
  {
    if s.data != {} {
      var p :| p in s.data;
      acts := LoseOne(c, s, LoseData(p));
    } else if s.acks != {} {
      var n :| n in s.acks;
      acts := LoseOne(c, s, LoseAck(n));
    } else {
      acts := [];
    }
  }

  lemma LoseOne(c: Config, s: State, a: Action) returns (acts: seq<Action>)
    requires ValidConfig(c) && Enabled(c, s, a) && (a.LoseData? || a.LoseAck?)
    ensures Run(c, s, acts) && Exec(c, s, acts) == s.(data := {}, acks := {})
    decreases |s.data| + |s.acks|, 0
  {
    var t := Step(c, s, a);
    assert |t.data| + |t.acks| < |s.data| + |s.acks|;
    assert t == s.(data := t.data, acks := t.acks);
    hide Step, Enabled, Run, Exec;
    var more := Clear(c, t);
    TransportSafety.RunCons(c, s, a, more);
    acts := [a] + more;
  }

  // ------------------------------------------------- the reader catches up

  /** Everything sent has arrived, and the next packet is handed out: from the ring, or from the queue. */
  lemma DeliverOne(c: Config, s: State) returns (acts: seq<Action>)
    requires ValidConfig(c) && Inv(c, s) && s.snd.inflight == map[] && s.ideal.next < End(c, s)
    ensures Run(c, s, acts)
    ensures var t := Exec(c, s, acts);
            && t.ideal.next == s.ideal.next + 1 && Kept(s, t)
  {
    var next := s.ideal.next;
    ReaderFacts(c, s.sent, s.rd, s.ideal, s.delivered);
    assert !Watched(s.snd.inflight, next);
    assert next in s.arrived;
    if s.rd.waiting {
      TransportSafety.WaitingBeyondPending(c, s.sent, s.rd, s.ideal, s.delivered);
      acts := TakeNext(c, s);
    } else {
      var t := StartCall(c, s);
      hide Inv, Step, Enabled, Run, Exec;
      if next in s.ideal.pending {
        TransportSafety.RunNil(c, t);
        TransportSafety.RunCons(c, s, Call, []);
        acts := [Call] + [];
      } else {
        var more := TakeNext(c, t);
        TransportSafety.RunCons(c, s, Call, more);
        acts := [Call] + more;
      }
    }
  }

  /** The sender and the network are left alone. */
  ghost predicate Kept(s: State, t: State)
  {
    && t.written == s.written && t.txChan == s.txChan && t.sent == s.sent && t.snd == s.snd && t.alive == s.alive
    && t.data == s.data && t.acks == s.acks && t.arrived == s.arrived && t.got == s.got
  }

  lemma StartCall(c: Config, s: State) returns (t: State)
    requires ValidConfig(c) && Inv(c, s) && !s.rd.waiting && s.ideal.next in s.arrived
    ensures |s.rd.ring| > 0 && !s.ideal.waiting && Enabled(c, s, Call) && t == Step(c, s, Call) && Kept(s, t)
    ensures s.ideal.next in s.ideal.pending ==> t.ideal.next == s.ideal.next + 1
    ensures s.ideal.next !in s.ideal.pending ==>
              && t.ideal == s.ideal.(waiting := true) && t.rd.waiting && |t.rd.ring| == |s.rd.ring| == c.capacity
              && t.rd.next == Wire(t.ideal.next) && InBag(t.bag, t.ideal.next)
  {
    hide Numbered, DataOk, AcksOk, WatchOk, Remembered, WindowOk, RetriesOk, SentBytesOk, ReadBytesOk;
    NotYetDelivered(c, s);
    BeginFacts(s.rd, s.ideal);
    hide Represents, ReaderOk, Conserved, Begin;
    t := Step(c, s, Call);
  }

  lemma NotYetDelivered(c: Config, s: State)
    requires Inv(c, s) && s.ideal.next in s.arrived
    ensures Represents(s.rd, s.ideal) && |s.rd.ring| == c.capacity
    ensures s.ideal.next in s.ideal.pending || InBag(s.bag, s.ideal.next)
  {
    hide Represents, Numbered, DataOk, AcksOk, WatchOk, Remembered, WindowOk, RetriesOk, SentBytesOk, ReadBytesOk;
  }

  lemma BeginFacts(r: Reader, a: Ideal)
    requires Represents(r, a) && !r.waiting
    ensures |r.ring| > 0 && !a.waiting && r.next == Wire(a.next)
    ensures Begin(r).1 == IdealBegin(a).1
    ensures a.next !in a.pending ==> Begin(r).0 == r.(waiting := true)
  {
    BeginRefines(r, a);
  }

  lemma TakeNext(c: Config, s: State) returns (acts: seq<Action>)
    requires ValidConfig(c) && s.rd.waiting && s.ideal.waiting && |s.rd.ring| == c.capacity
    requires s.rd.next == Wire(s.ideal.next) && InBag(s.bag, s.ideal.next)
    ensures Run(c, s, acts)
    ensures var t := Exec(c, s, acts); t.ideal.next == s.ideal.next + 1 && Kept(s, t)
  {
    var p :| p in s.bag && p.num == s.ideal.next;
    assert Timely(s.ideal.next, p, |s.rd.ring|);
    var t := Step(c, s, Take(p));
    TransportSafety.RunNil(c, t);
    TransportSafety.RunCons(c, s, Take(p), []);
    acts := [Take(p)] + [];
  }

  lemma {:induction false} DeliverAll(c: Config, s: State) returns (acts: seq<Action>)
    requires ValidConfig(c) && Inv(c, s) && s.snd.inflight == map[]
    ensures Run(c, s, acts) && Inv(c, Exec(c, s, acts))
    ensures var t := Exec(c, s, acts); Kept(s, t) && t.delivered == t.sent
    decreases End(c, s) - s.ideal.next
  {
    if s.ideal.next >= End(c, s) {
      acts := [];
      AllHandedOut(c, s);
    } else {
      var first := DeliverOne(c, s);
      RunKeeps(c, s, first);
      hide Inv, Run, Exec, Enabled, Step;
      var t := Exec(c, s, first);
      var more := DeliverAll(c, t);
      RunJoin(c, s, first, more);
      acts := first + more;
    }
  }

  lemma AllHandedOut(c: Config, s: State)
    requires Inv(c, s) && s.ideal.next >= End(c, s)
    ensures s.delivered == s.sent
  {
    hide Represents, Numbered, DataOk, AcksOk, WatchOk, Remembered, WindowOk, RetriesOk, SentBytesOk, ReadBytesOk;
  }

  // ------------------------------------------------------- everything at last

  /** What is watched, what has arrived, and what is queued, all of it gets through. */
  lemma {:induction false} Recover(c: Config, s: State) returns (acts: seq<Action>)
    requires ValidConfig(c) && Inv(c, s) && Recoverable(c, s)
    ensures Run(c, s, acts) && Inv(c, Exec(c, s, acts))
    ensures var t := Exec(c, s, acts);
            t.written == s.written && t.got == s.got && t.txChan == [] && t.delivered == t.sent
    decreases |s.txChan|
  {
    hide Inv, Run, Exec, Enabled, Step, Recoverable;
    var repair := Repair(c, s);
    var s1 := Exec(c, s, repair);
    var clear := Clear(c, s1);
    RunKeeps(c, s1, clear);
    var s2 := Exec(c, s1, clear);
    var deliver := DeliverAll(c, s2);
    var s3 := Exec(c, s2, deliver);
    RunJoin(c, s, repair, clear);
    RunJoin(c, s, repair + clear, deliver);
    acts := repair + clear + deliver;
    if s3.txChan != [] {
      var s4 := SendFirst(c, s3);
      var more := Recover(c, s4);
      TransportSafety.RunCons(c, s3, SendNext, more);
      RunJoin(c, s, acts, [SendNext] + more);
      acts := acts + ([SendNext] + more);
    }
  }

  lemma SendFirst(c: Config, s: State) returns (t: State)
    requires ValidConfig(c) && Inv(c, s) && s.alive && s.txChan != []
    requires s.snd.inflight == map[] && s.data == {} && s.acks == {}
    ensures Enabled(c, s, SendNext) && t == Step(c, s, SendNext) && Inv(c, t) && Recoverable(c, t)
    ensures t.txChan == s.txChan[1..] && t.written == s.written && t.got == s.got
  {
    assert |s.snd.inflight| == 0;
    assert Enabled(c, s, SendNext);
    SendKeeps(c, s);
    hide Inv;
    t := Step(c, s, SendNext);
  }

  /** From every reachable state in which the connection can recover, and whatever was lost or reordered
      before, there is a run after which all that was written has been read. */
  lemma EverythingCanStillArrive(c: Config, s0: State, acts: seq<Action>) returns (more: seq<Action>)
    requires Init(c, s0) && Run(c, s0, acts) && Recoverable(c, Exec(c, s0, acts))
    ensures var s := Exec(c, s0, acts);
            && Run(c, s, more)
            && Exec(c, s, more).written == s.written && Exec(c, s, more).got == s.written
  {
    assert ValidConfig(c);
    TransportSafety.ReachableInv(c, s0, acts);
    var s := Exec(c, s0, acts);
    hide Init, Inv, Run, Exec, Recoverable;
    var recover := Recover(c, s);
    var t := Exec(c, s, recover);
    ReadRest(c, t);
    RunJoin(c, s, recover, [Read(|t.readBuf|)]);
    more := recover + [Read(|t.readBuf|)];
  }

  lemma ReadRest(c: Config, s: State)
    requires ValidConfig(c) && Inv(c, s) && s.txChan == [] && s.delivered == s.sent
    ensures Run(c, s, [Read(|s.readBuf|)])
    ensures var t := Exec(c, s, [Read(|s.readBuf|)]); t.written == s.written && t.got == s.written
  {
    assert s.got + s.readBuf == Carried(s.delivered) && Carried(s.sent) + Flatten(s.txChan) == s.written;
    hide Inv, Carried;
    assert Carried(s.sent) + [] == Carried(s.sent);
    var n := |s.readBuf|;
    assert s.readBuf[..n] == s.readBuf;
    TransportSafety.RunNil(c, Step(c, s, Read(n)));
    TransportSafety.RunCons(c, s, Read(n), []);
    assert [Read(n)] == [Read(n)] + [];
  }

  /** In particular, from the start of a connection and for any bytes there is a run in which exactly these
      are written and exactly these are read. */
  lemma EverythingCanArrive(c: Config, s0: State, b: bytes) returns (acts: seq<Action>)
    requires Init(c, s0)
    ensures Run(c, s0, acts) && Exec(c, s0, acts).written == b && Exec(c, s0, acts).got == b
  {
    var write := [Write(b)] + [];
    TransportSafety.RunNil(c, Step(c, s0, Write(b)));
    TransportSafety.RunCons(c, s0, Write(b), []);
    assert [] + b == b;
    assert Recoverable(c, Exec(c, s0, write));
    var more := EverythingCanStillArrive(c, s0, write);
    RunJoin(c, s0, write, more);
    acts := write + more;
  }

  // ------------------------------------------------------ the window is used

  /** Packets sent one after another without an acknowledgement. */
  function Sends(n: nat): (acts: seq<Action>)
    ensures |acts| == n
  {
    seq(n, _ => SendNext)
  }

  /** Nothing has come back yet, and nothing is a whole circle old. */
  ghost predicate Filling(c: Config, s: State, n: nat)
  {
    && Inv(c, s) && s.alive && s.acks == {} && |s.sent| + n <= CIRCLE
    && |s.txChan| >= n && |s.snd.inflight| + n <= s.snd.window.cwnd
    && (forall p | p in s.data :: p.num >= c.first)
  }

  lemma OneMore(c: Config, s: State, n: nat)
    requires ValidConfig(c) && Filling(c, s, n) && n > 0
    ensures Enabled(c, s, SendNext)
    ensures var t := Step(c, s, SendNext);
            && Filling(c, t, n - 1) && |t.snd.inflight| == |s.snd.inflight| + 1 && t.arrived == s.arrived
            && t.snd.window.cwnd == s.snd.window.cwnd && |t.sent| == |s.sent| + 1
  {
    hide Represents, Conserved, Remembered, RetriesOk, SentBytesOk, ReadBytesOk, ReaderOk;
    assert Young(c, s) by {
      forall k | k in s.snd.inflight ensures s.snd.inflight[k].packet.num >= c.first {
        assert Genuine(c.first, s.sent, s.snd.inflight[k].packet);
      }
    }
    SendWatches(c.first, s.sent, s.arrived, s.snd, s.txChan[0]);
    SendKeeps(c, s);
  }

  lemma {:induction false} FillWindow(c: Config, s: State, n: nat)
    requires ValidConfig(c) && Filling(c, s, n)
    ensures Run(c, s, Sends(n))
    ensures var t := Exec(c, s, Sends(n));
            |t.snd.inflight| == |s.snd.inflight| + n && t.snd.window.cwnd == s.snd.window.cwnd
            && |t.sent| == |s.sent| + n && t.arrived == s.arrived
    decreases n
  {
    hide Filling, Enabled, Step, Run, Exec;
    if n == 0 {
      TransportSafety.RunNil(c, s);
      assert Sends(n) == [];
    } else {
      OneMore(c, s, n);
      FillWindow(c, Step(c, s, SendNext), n - 1);
      TransportSafety.RunCons(c, s, SendNext, Sends(n - 1));
      assert Sends(n) == [SendNext] + Sends(n - 1);
    }
  }

  /** A connection is not held to one packet at a time: from every start, with enough to send, there is a
      run that leaves as many packets unacknowledged at once as the window is wide. */
  lemma WindowCanFill(c: Config, s0: State, b: bytes) returns (acts: seq<Action>)
    requires Init(c, s0) && s0.snd.window.cwnd <= CIRCLE
    requires |Queued(b, c.maxPacketSize)| >= s0.snd.window.cwnd
    ensures Run(c, s0, acts)
    ensures var s := Exec(c, s0, acts);
            |s.snd.inflight| == s.snd.window.cwnd == s0.snd.window.cwnd == |s.sent| && s.arrived == {}
  {
    assert ValidConfig(c);
    var w := s0.snd.window.cwnd;
    TransportSafety.RunNil(c, Step(c, s0, Action.Write(b)));
    TransportSafety.RunCons(c, s0, Action.Write(b), []);
    assert [Action.Write(b)] == [Action.Write(b)] + [];
    var s1 := Exec(c, s0, [Action.Write(b)]);
    TransportSafety.ReachableInv(c, s0, [Action.Write(b)]);
    assert [] + Queued(b, c.maxPacketSize) == Queued(b, c.maxPacketSize);
    assert s1 == Step(c, s0, Action.Write(b));
    assert Filling(c, s1, w);
    hide Init, Inv, Filling, Step, Enabled, Run, Exec;
    FillWindow(c, s1, w);
    RunJoin(c, s0, [Action.Write(b)], Sends(w));
    acts := [Action.Write(b)] + Sends(w);
  }
}
