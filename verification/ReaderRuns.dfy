/** What whole runs of the reader deliver: without blocking, and in order exactly when no call
    finds a foreign packet in the slot of the next number. */
module ReaderRuns {
  import opened Prelude
  import opened PacketNumbers
  import opened DataReader

  // ------------------------------------------------------------ no blocking

  ghost predicate Queued(chan: seq<Option<Packet>>, n: nat)
  {
    exists i :: 0 <= i < |chan| && chan[i].Some? && chan[i].value.num == n
  }

  ghost predicate Available(a: Ideal, chan: seq<Option<Packet>>, n: nat)
  {
    n in a.pending || Queued(chan, n)
  }

  /** The waiting call of the unbounded reader works through the channel. */
  function IdealDrain(a: Ideal, chan: seq<Option<Packet>>): (Ideal, seq<Option<Packet>>, Option<Packet>)
    requires a.waiting
    decreases |chan|
  {
    if chan == [] then (a, chan, None)
    else if chan[0].None? then IdealDrain(a, chan[1..])
    else
      var (a', out) := IdealAccept(a, chan[0].value);
      if out.Some? then (a', chan[1..], out) else IdealDrain(a', chan[1..])
  }

  function IdealCall(a: Ideal, chan: seq<Option<Packet>>): (Ideal, seq<Option<Packet>>, Option<Packet>)
  {
    if a.waiting then IdealDrain(a, chan)
    else
      var (a', out) := IdealBegin(a);
      if out.Some? then (a', chan, out) else IdealDrain(a', chan)
  }

  /** Every packet is timely at the moment when the waiting call takes it. */
  ghost predicate TimelyDrain(a: Ideal, chan: seq<Option<Packet>>, capacity: nat)
    requires a.waiting && capacity > 0
    decreases |chan|
  {
    chan == [] ||
    (if chan[0].None? then TimelyDrain(a, chan[1..], capacity)
     else
       && Timely(a.next, chan[0].value, capacity)
       && (chan[0].value.num == a.next || TimelyDrain(IdealAccept(a, chan[0].value).0, chan[1..], capacity)))
  }

  ghost predicate TimelyCall(a: Ideal, chan: seq<Option<Packet>>, capacity: nat)
    requires capacity > 0
  {
    if a.waiting then TimelyDrain(a, chan, capacity)
    else a.next in a.pending || TimelyDrain(IdealBegin(a).0, chan, capacity)
  }

  /** The same for the next `k` calls, one after another. */
  ghost predicate TimelyCalls(a: Ideal, chan: seq<Option<Packet>>, capacity: nat, k: nat)
    requires capacity > 0
    decreases k
  {
    k == 0 ||
    (&& TimelyCall(a, chan, capacity)
     && var (a', chan', out) := IdealCall(a, chan);
        out.Some? ==> TimelyCalls(a', chan', capacity, k - 1))
  }

  /** The outputs of `k` calls of Next, or None when one of them blocks or ends. */
  function Calls(r: Reader, chan: seq<Option<Packet>>, k: nat): Option<seq<Packet>>
    requires |r.ring| > 0
    decreases k
  {
    if k == 0 then Some([])
    else
      var (r', chan', out) := NextCall(r, chan, false);
      if !out.Got? then None
      else
        match Calls(r', chan', k - 1)
        case None => None
        case Some(rest) => Some([out.packet] + rest)
  }

  /** What a call returned, as the unbounded reader sees it. */
  function Returned(out: Outcome): Option<Packet>
  {
    if out.Got? then Some(out.packet) else None
  }

  lemma {:induction false} DrainRefines(r: Reader, a: Ideal, chan: seq<Option<Packet>>)
    requires Represents(r, a) && a.waiting && TimelyDrain(a, chan, |r.ring|)
    ensures var ((r', chan', out), (a', ideal', packet)) := (Drain(r, chan, false), IdealDrain(a, chan));
            Represents(r', a') && |r'.ring| == |r.ring| && chan' == ideal' && Returned(out) == packet
    decreases |chan|
  {
    if chan == [] {
    } else if chan[0].None? {
      DrainRefines(r, a, chan[1..]);
    } else {
      AcceptRefines(r, a, chan[0].value);
      hide Represents;
      if IdealAccept(a, chan[0].value).1.None? {
        DrainRefines(Accept(r, chan[0].value).0, IdealAccept(a, chan[0].value).0, chan[1..]);
      }
    }
  }

  /** A whole call of Next refines the call of the unbounded reader, whatever is queued, as long as
      each packet is timely when it is taken: second copies and nil entries may be among them. */
  lemma NextCallRefines(r: Reader, a: Ideal, chan: seq<Option<Packet>>)
    requires Represents(r, a) && TimelyCall(a, chan, |r.ring|)
    ensures var ((r', chan', out), (a', ideal', packet)) := (NextCall(r, chan, false), IdealCall(a, chan));
            Represents(r', a') && |r'.ring| == |r.ring| && chan' == ideal' && Returned(out) == packet
  {
    assert r.waiting == a.waiting && |r.ring| > 0;
    if a.waiting {
      DrainRefines(r, a, chan);
    } else {
      BeginRefines(r, a);
      hide Represents;
      if IdealBegin(a).1.None? {
        DrainRefines(Begin(r).0, IdealBegin(a).0, chan);
      }
    }
  }

  lemma {:induction false} DrainFinds(a: Ideal, chan: seq<Option<Packet>>)
    requires a.waiting && Queued(chan, a.next)
    ensures var (a', chan', out) := IdealDrain(a, chan);
            && out.Some? && out.value.num == a.next && !a'.waiting && a'.next == a.next + 1
            && forall n | n > a.next && Available(a, chan, n) :: Available(a', chan', n)
    decreases |chan|
  {
    var rest := chan[1..];
    assert forall i | 0 < i < |chan| :: rest[i - 1] == chan[i];
    forall n | Queued(chan, n) && (chan[0].None? || chan[0].value.num != n) ensures Queued(rest, n) {
      var i :| 0 <= i < |chan| && chan[i].Some? && chan[i].value.num == n;
      assert rest[i - 1] == chan[i];
    }
    if chan[0].None? {
      DrainFinds(a, rest);
      assert forall n | Available(a, chan, n) :: Available(a, rest, n);
    } else if chan[0].value.num != a.next {
      var a1 := IdealAccept(a, chan[0].value).0;
      assert forall n | Available(a, chan, n) :: Available(a1, rest, n);
      DrainFinds(a1, rest);
    }
  }

  /** A call returns the next packet when it is available, and everything later stays available. */
  lemma CallFinds(a: Ideal, chan: seq<Option<Packet>>)
    requires Available(a, chan, a.next) && (a.waiting ==> a.next !in a.pending)
    requires forall n | n in a.pending :: a.pending[n].num == n
    ensures var (a', chan', out) := IdealCall(a, chan);
            && out.Some? && out.value.num == a.next && !a'.waiting && a'.next == a.next + 1
            && forall n | n > a.next && Available(a, chan, n) :: Available(a', chan', n)
  {
    if a.waiting {
      DrainFinds(a, chan);
    } else if a.next !in a.pending {
      var a1 := IdealBegin(a).0;
      assert forall n | Available(a, chan, n) :: Available(a1, chan, n);
      DrainFinds(a1, chan);
    }
  }

  /** Once the next `k` packets have arrived, in the ring or in the channel, in whatever order and
      however often, `k` calls return exactly these, in order, without blocking. */
  lemma {:induction false} CallsDoNotBlock(r: Reader, a: Ideal, chan: seq<Option<Packet>>, k: nat)
    requires Represents(r, a) && TimelyCalls(a, chan, |r.ring|, k)
    requires forall n | a.next <= n < a.next + k :: Available(a, chan, n)
    ensures Calls(r, chan, k).Some?
    ensures var out := Calls(r, chan, k).value;
            |out| == k && forall j | 0 <= j < k :: out[j].num == a.next + j
    decreases k
  {
    if k == 0 {
    } else {
      assert Available(a, chan, a.next);
      NextCallRefines(r, a, chan);
      CallFinds(a, chan);
      var ((r', chan', out), (a', ideal', packet)) := (NextCall(r, chan, false), IdealCall(a, chan));
      hide Represents, NextCall, IdealCall, Available;
      CallsDoNotBlock(r', a', chan', k - 1);
    }
  }

  // --------------------------------------------- exactly when order is kept

  /** What happens to a reader: a call starts, or the waiting call takes a packet. */
  datatype Event = Call | Arrive(packet: Packet)

  predicate Possible(r: Reader, e: Event)
  {
    |r.ring| > 0 && (e.Call? <==> !r.waiting)
  }

  function React(r: Reader, e: Event): (Reader, Option<Packet>)
    requires Possible(r, e)
  {
    match e
    case Call => Begin(r)
    case Arrive(p) => Accept(r, p)
  }

  predicate PossibleRun(r: Reader, events: seq<Event>)
    decreases |events|
  {
    events == [] || (Possible(r, events[0]) && PossibleRun(React(r, events[0]).0, events[1..]))
  }

  /** The packets handed out over a run. */
  function Outputs(r: Reader, events: seq<Event>): seq<Packet>
    requires PossibleRun(r, events)
    decreases |events|
  {
    if events == [] then [] else
      var (r', out) := React(r, events[0]);
      (if out.Some? then [out.value] else []) + Outputs(r', events[1..])
  }

  /** Packets are less than one circle away from the next number when the reader compares them. */
  ghost predicate Recent(r: Reader, next: nat, events: seq<Event>)
    requires PossibleRun(r, events)
    decreases |events|
  {
    events == [] ||
    var (r', out) := React(r, events[0]);
    && (forall i | 0 <= i < |r.ring| && r.ring[i].Some? ::
          r.ring[i].value.num < next + CIRCLE && next < r.ring[i].value.num + CIRCLE)
    && (events[0].Arrive? ==> events[0].packet.num < next + CIRCLE && next < events[0].packet.num + CIRCLE)
    && Recent(r', if out.Some? then next + 1 else next, events[1..])
  }

  /** The check that Next omits: a call finds its slot empty or filled with the next 16-bit number. */
  predicate NoForeignPacket(r: Reader, events: seq<Event>)
    requires PossibleRun(r, events)
    decreases |events|
  {
    events == [] ||
    (&& (events[0].Call? ==>
           var item := r.ring[r.next % |r.ring|];
           item.None? || item.value.SeqNr() == r.next)
     && NoForeignPacket(React(r, events[0]).0, events[1..]))
  }

  predicate InOrder(packets: seq<Packet>, first: nat)
  {
    forall i | 0 <= i < |packets| :: packets[i].num == first + i
  }

  /** A run delivers consecutive packets exactly when no call finds a foreign packet. */
  lemma {:induction false} InOrderExactly(r: Reader, next: nat, events: seq<Event>)
    requires PossibleRun(r, events) && r.next == Wire(next) && Recent(r, next, events)
    ensures InOrder(Outputs(r, events), next) <==> NoForeignPacket(r, events)
    decreases |events|
  {
    if events == [] {
    } else {
      var (r', out) := React(r, events[0]);
      var rest := Outputs(r', events[1..]);
      WireSucc(next);
      if out.Some? {
        InOrderExactly(r', next + 1, events[1..]);
        assert Outputs(r, events) == [out.value] + rest;
        assert InOrder([out.value] + rest, next) <==> out.value.num == next && InOrder(rest, next + 1) by {
          InOrderCons(out.value, rest, next);
        }
        if out.value.SeqNr() == r.next { WireInjective(out.value.num, next); }
      } else {
        InOrderExactly(r', next, events[1..]);
        assert Outputs(r, events) == rest;
      }
    }
  }

  lemma InOrderCons(p: Packet, rest: seq<Packet>, first: nat)
    ensures InOrder([p] + rest, first) <==> p.num == first && InOrder(rest, first + 1)
  {
    var all := [p] + rest;
    assert all[0] == p && all[1..] == rest;
    if InOrder(all, first) {
      forall i | 0 <= i < |rest| ensures rest[i].num == first + 1 + i {
        assert all[i + 1] == rest[i];
      }
    }
  }

  /** The packets that a stretch of the queue offers to the reader. */
  function Offers(chan: seq<Option<Packet>>): seq<Event>
  {
    if chan == [] then []
    else (if chan[0].Some? then [Arrive(chan[0].value)] else []) + Offers(chan[1..])
  }

  /** Working through the queue is the run in which the packets taken arrive one after another. */
  lemma {:induction false} DrainIsRun(r: Reader, chan: seq<Option<Packet>>) returns (taken: nat)
    requires |r.ring| > 0 && r.waiting
    ensures var (r', chan', out) := Drain(r, chan, false);
            && taken <= |chan| && chan' == chan[taken..]
            && PossibleRun(r, Offers(chan[..taken]))
            && After(r, Offers(chan[..taken])) == r'
            && Outputs(r, Offers(chan[..taken])) == (if out.Got? then [out.packet] else [])
    decreases |chan|
  {
    taken := 0;
    assert Offers([]) == [];
    if chan == [] {
      assert chan[..0] == [];
    } else {
      hide Accept;
      var r1 := if chan[0].Some? then Accept(r, chan[0].value).0 else r;
      var more := 0;
      if chan[0].None? || Accept(r, chan[0].value).1.None? {
        assert r1.waiting && |r1.ring| > 0 by { AcceptKeepsWaiting(r, chan[0]); }
        more := DrainIsRun(r1, chan[1..]);
      }
      taken := 1 + more;
      OffersCons(chan[0], chan[1..][..more]);
      assert chan[..taken] == [chan[0]] + chan[1..][..more];
      if chan[0].Some? {
        assert more == 0 ==> chan[1..][..more] == [];
        OneArrival(r, chan[0].value, Offers(chan[1..][..more]));
      } else {
        assert [] + Offers(chan[1..][..more]) == Offers(chan[1..][..more]);
      }
    }
  }

  lemma OffersCons(item: Option<Packet>, rest: seq<Option<Packet>>)
    ensures Offers([item] + rest) == (if item.Some? then [Arrive(item.value)] else []) + Offers(rest)
  {
    assert ([item] + rest)[1..] == rest;
  }

  lemma AcceptKeepsWaiting(r: Reader, item: Option<Packet>)
    requires |r.ring| > 0 && r.waiting
    ensures item.Some? && Accept(r, item.value).1.None? ==>
              Accept(r, item.value).0.waiting && |Accept(r, item.value).0.ring| == |r.ring|
  {
  }

  /** A call of Next is a run: its start, unless it was waiting, and the arrivals it takes. */
  lemma NextCallIsRun(r: Reader, chan: seq<Option<Packet>>) returns (taken: nat)
    requires |r.ring| > 0
    ensures var (r', chan', out) := NextCall(r, chan, false);
            && taken <= |chan| && chan' == chan[taken..]
            && var events := (if r.waiting then [] else [Call]) + Offers(chan[..taken]);
            && PossibleRun(r, events)
            && After(r, events) == r'
            && Outputs(r, events) == (if out.Got? then [out.packet] else [])
  {
    if r.waiting {
      taken := DrainIsRun(r, chan);
      assert [] + Offers(chan[..taken]) == Offers(chan[..taken]);
    } else {
      var (r1, out) := Begin(r);
      taken := 0;
      if out.None? {
        taken := DrainIsRun(r1, chan);
      }
      hide Drain, Begin;
      var offers := Offers(chan[..taken]);
      assert ([Call] + offers)[1..] == offers;
    }
  }

  lemma OneArrival(r: Reader, p: Packet, rest: seq<Event>)
    requires |r.ring| > 0 && r.waiting && PossibleRun(Accept(r, p).0, rest)
    ensures PossibleRun(r, [Arrive(p)] + rest)
    ensures After(r, [Arrive(p)] + rest) == After(Accept(r, p).0, rest)
    ensures Outputs(r, [Arrive(p)] + rest)
         == (if Accept(r, p).1.Some? then [Accept(r, p).1.value] else []) + Outputs(Accept(r, p).0, rest)
  {
    assert ([Arrive(p)] + rest)[1..] == rest;
  }

  // ------------------------------------------------- runs that lose the order

  /** A packet 37 numbers ahead, taken across the wrap, comes out 36 numbers too early. */
  lemma WindowIsTight(a: bytes, b: bytes)
    ensures var r := FreshReader(50, Wire(65499));
            var events := [Call, Arrive(Packet(65499 + 37, a)), Arrive(Packet(65499, b)), Call];
            && PossibleRun(r, events)
            && Outputs(r, events) == [Packet(65499, b), Packet(65536, a)]
  {
    var r := FreshReader(50, Wire(65499));
    var early, next := Packet(65536, a), Packet(65499, b);
    var events := [Call, Arrive(early), Arrive(next), Call];
    var r1 := React(r, events[0]).0;
    var r2 := React(r1, events[1]).0;
    var r3 := React(r2, events[2]).0;
    var r4 := React(r3, events[3]).0;
    assert events[1..] == [Arrive(early), Arrive(next), Call];
    assert events[1..][1..] == [Arrive(next), Call];
    assert events[1..][1..][1..] == [Call];
    assert events[1..][1..][1..][1..] == [];
    assert Outputs(r3, [Call]) == [early] + Outputs(r4, []);
    assert Outputs(r2, [Arrive(next), Call]) == [next] + Outputs(r3, [Call]);
    assert Outputs(r1, events[1..]) == [] + Outputs(r2, events[1..][1..]);
    assert Outputs(r, events) == [] + Outputs(r1, events[1..]);
  }

  /** `count` packets from `n` on, each arriving while its own call waits. */
  function OneByOne(n: nat, count: nat): seq<Event>
    decreases count
  {
    if count == 0 then [] else [Call, Arrive(Packet(n, []))] + OneByOne(n + 1, count - 1)
  }

  lemma {:induction false} OneByOneRun(r: Reader, n: nat, count: nat)
    requires |r.ring| > 0 && !r.waiting && r.next == Wire(n)
    requires forall i | n <= i < n + count :: r.ring[Slot(i, |r.ring|)] == None
    ensures PossibleRun(r, OneByOne(n, count))
    ensures After(r, OneByOne(n, count)) == r.(next := Wire(n + count))
    ensures |Outputs(r, OneByOne(n, count))| == count
    decreases count
  {
    if count == 0 {
    } else {
      var p, more := Packet(n, []), OneByOne(n + 1, count - 1);
      WireSucc(n);
      assert r.ring[Slot(n, |r.ring|)] == None && Slot(n, |r.ring|) == r.next % |r.ring|;
      var r2 := r.(next := Wire(n + 1));
      assert OneByOne(n, count) == [Call, Arrive(p)] + more;
      hide Slot, OneByOne, PossibleRun, Outputs, After, Possible, React;
      OneByOneRun(r2, n + 1, count - 1);
      CallThenArrive(r, p);
      RunConcat(r, [Call, Arrive(p)], more);
    }
  }

  /** A waiting call that is given the next packet returns it and leaves the ring alone. */
  lemma CallThenArrive(r: Reader, p: Packet)
    requires |r.ring| > 0 && !r.waiting && p.SeqNr() == r.next && r.ring[r.next % |r.ring|] == None
    ensures PossibleRun(r, [Call, Arrive(p)])
    ensures After(r, [Call, Arrive(p)]) == r.(next := Succ(r.next))
    ensures Outputs(r, [Call, Arrive(p)]) == [p]
  {
    var r1 := r.(waiting := true);
    assert [Call, Arrive(p)][1..] == [Arrive(p)];
    assert [Arrive(p)][1..] == [];
    assert PossibleRun(r1, [Arrive(p)]);
    assert Outputs(r1, [Arrive(p)]) == [p] + Outputs(r.(next := Succ(r.next)), []);
    assert After(r1, [Arrive(p)]) == After(r.(next := Succ(r.next)), []);
  }

  function After(r: Reader, events: seq<Event>): Reader
    requires PossibleRun(r, events)
    decreases |events|
  {
    if events == [] then r else After(React(r, events[0]).0, events[1..])
  }

  lemma {:induction false} RunConcat(r: Reader, xs: seq<Event>, ys: seq<Event>)
    requires PossibleRun(r, xs) && PossibleRun(After(r, xs), ys)
    ensures PossibleRun(r, xs + ys)
    ensures Outputs(r, xs + ys) == Outputs(r, xs) + Outputs(After(r, xs), ys)
    ensures After(r, xs + ys) == After(After(r, xs), ys)
    decreases |xs|
  {
    hide Begin, Accept, React;
    if xs == [] {
      assert xs + ys == ys;
    } else {
      assert (xs + ys)[1..] == xs[1..] + ys;
      RunConcat(React(r, xs[0]).0, xs[1..], ys);
    }
  }

  function StaleStart(): seq<Event>
  {
    var copy := Arrive(Packet(0, []));
    [Call, copy, Call, copy, Arrive(Packet(1, []))]
  }

  /** A second copy of packet 0, taken after its delivery, comes out in place of packet `capacity`. */
  lemma StaleCopy(capacity: nat)
    requires 2 <= capacity < CIRCLE
    ensures var events := StaleStart() + OneByOne(2, capacity - 2) + [Call];
            && PossibleRun(FreshReader(capacity, 0), events)
            && |Outputs(FreshReader(capacity, 0), events)| == capacity + 1
            && Outputs(FreshReader(capacity, 0), events)[capacity].num == 0
  {
    hide StaleStart, OneByOne, PossibleRun, Outputs, After;
    var r := FreshReader(capacity, 0);
    var r5 := r.(next := 2, ring := r.ring[0 := Some(Packet(0, []))]);
    StaleStartRun(capacity);
    SlotsAfterZero(capacity);
    OneByOneRun(r5, 2, capacity - 2);
    RunConcat(r, StaleStart(), OneByOne(2, capacity - 2));
    CallHandsOut(r5.(next := Wire(capacity)), Packet(0, []));
    RunConcat(r, StaleStart() + OneByOne(2, capacity - 2), [Call]);
  }

  lemma SlotsAfterZero(capacity: nat)
    requires 2 <= capacity < CIRCLE
    ensures forall i | 2 <= i < capacity :: Slot(i, capacity) == i
    ensures Slot(capacity, capacity) == 0
  {
    forall i: nat | i < capacity ensures i % capacity == i {
      DivModUnique(i, capacity, 0, i);
    }
    DivModUnique(capacity, capacity, 1, 0);
  }

  lemma CallHandsOut(r: Reader, p: Packet)
    requires |r.ring| > 0 && !r.waiting && r.ring[r.next % |r.ring|] == Some(p)
    ensures PossibleRun(r, [Call]) && Outputs(r, [Call]) == [p]
  {
    assert [Call][1..] == [];
    assert Outputs(r, [Call]) == [p] + Outputs(Begin(r).0, []);
  }

  lemma StaleStartRun(capacity: nat)
    requires 2 <= capacity < CIRCLE
    ensures var r := FreshReader(capacity, 0);
            && PossibleRun(r, StaleStart())
            && After(r, StaleStart()) == r.(next := 2, ring := r.ring[0 := Some(Packet(0, []))])
            && |Outputs(r, StaleStart())| == 2
  {
    var r := FreshReader(capacity, 0);
    var p0, p1 := Packet(0, []), Packet(1, []);
    CallThenArrive(r, p0);
    LateCopy(r.(next := 1), p0, p1);
    RunConcat(r, [Call, Arrive(p0)], [Call, Arrive(p0), Arrive(p1)]);
    assert [Call, Arrive(p0)] + [Call, Arrive(p0), Arrive(p1)] == StaleStart();
  }

  /** A stale packet taken by the waiting call is stored before the next packet is returned. */
  lemma LateCopy(r: Reader, stale: Packet, p: Packet)
    requires |r.ring| > 0 && !r.waiting && p.SeqNr() == r.next && stale.SeqNr() != r.next
    requires r.ring[r.next % |r.ring|] == None
    ensures PossibleRun(r, [Call, Arrive(stale), Arrive(p)])
    ensures After(r, [Call, Arrive(stale), Arrive(p)])
         == r.(next := Succ(r.next), ring := r.ring[stale.SeqNr() % |r.ring| := Some(stale)])
    ensures Outputs(r, [Call, Arrive(stale), Arrive(p)]) == [p]
  {
    var r1 := r.(waiting := true);
    var r2 := r1.(ring := r.ring[stale.SeqNr() % |r.ring| := Some(stale)]);
    var r3 := r2.(next := Succ(r.next), waiting := false);
    var events := [Call, Arrive(stale), Arrive(p)];
    assert events[1..] == [Arrive(stale), Arrive(p)];
    assert events[1..][1..] == [Arrive(p)];
    assert [Arrive(p)][1..] == [];
    assert Outputs(r2, [Arrive(p)]) == [p] + Outputs(r3, []);
    assert Outputs(r1, events[1..]) == [] + Outputs(r2, [Arrive(p)]);
    assert Outputs(r, events) == [] + Outputs(r1, events[1..]);
    assert After(r1, events[1..]) == After(r2, [Arrive(p)]) == r3;
  }
}
