/** The window of unacknowledged packets (btp/congestioncontrol/elastic.go). */
module Congestion {

  datatype Window = Window(cwnd: int, maxCwnd: int, pipe: int, ssthresh: int, rttMax: int, rttCurr: int)

  datatype CaEvent = Loss | Duplicate

  function NewWindow(initialCwnd: nat, maxCwnd: nat): Window
  {
    Window(initialCwnd, maxCwnd, 0, initialCwnd / 2, 0, 0)
  }

  function Sent(w: Window, i: nat): Window
  {
    w.(pipe := w.pipe + i)
  }

  function Acked(w: Window, i: nat): Window
  {
    w.(pipe := if w.pipe - i < 0 then 0 else w.pipe - i)
  }

  function FreeSend(w: Window): int
  {
    w.cwnd - w.pipe
  }

  /** Seven tenths, rounded to the nearest integer and halves upwards. */
  function Decreased(cwnd: int): int
  {
    (7 * cwnd + 5) / 10
  }

  function React(w: Window, event: CaEvent): Window
  {
    w.(rttMax := 0, cwnd := Decreased(w.cwnd), ssthresh := if w.pipe / 2 < 2 then 2 else w.pipe / 2)
  }

  function Measured(w: Window, rtt: int): Window
  {
    w.(rttMax := if rtt + 1 > w.rttMax || w.rttMax == 0 then 0 else w.rttMax, rttCurr := rtt + 1)
  }

  /** The algorithm object that a connection owns. */
  class ElasticTcpAlgorithm {
    var cwnd: int
    var maxCwnd: int
    var pipe: int
    var ssthresh: int
    var rttMax: int
    var rttCurr: int

    function State(): Window
      reads this
    {
      Window(cwnd, maxCwnd, pipe, ssthresh, rttMax, rttCurr)
    }

    constructor (initialCwnd: nat, maxCwndSize: nat)
      ensures State() == NewWindow(initialCwnd, maxCwndSize)
    {
      cwnd, maxCwnd, pipe, ssthresh := initialCwnd, maxCwndSize, 0, initialCwnd / 2;
      rttMax, rttCurr := 0, 0;
    }

    method SentMessages(i: nat)
      modifies this
      ensures State() == Sent(old(State()), i)
    {
      pipe := pipe + i;
    }

    method ReceivedAcks(i: nat)
      modifies this
      ensures State() == Acked(old(State()), i)
    {
      pipe := pipe - i;
      if pipe < 0 {
        pipe := 0;
      }
    }

    method NumFreeSend() returns (n: int)
      ensures n == FreeSend(State()) == cwnd - pipe
    {
      n := cwnd - pipe;
    }

    method UpdateRTT(rtt: int)
      modifies this
      ensures State() == Measured(old(State()), rtt)
    {
      var r := rtt + 1;
      if r > rttMax || rttMax == 0 {
        rttMax := 0;
      }
      rttCurr := r;
    }

    method HandleEvent(event: CaEvent)
      modifies this
      ensures State() == React(old(State()), event)
    {
      rttMax := 0;
      cwnd := (7 * cwnd + 5) / 10;
      ssthresh := if pipe / 2 < 2 then 2 else pipe / 2;
    }
  }

  /** The window never closes, and every loss or duplicate strictly narrows it while it is above one. */
  lemma DecreaseBounds(cwnd: int)
    requires cwnd >= 1
    ensures 1 <= Decreased(cwnd) <= cwnd
    ensures cwnd > 1 ==> Decreased(cwnd) < cwnd
  {
  }

  /** A connection starts with nothing unacknowledged, the given window, and half of it as the threshold. */
  lemma NewWindowFacts(initialCwnd: nat, maxCwnd: nat)
    ensures var w := NewWindow(initialCwnd, maxCwnd);
            && w.pipe == 0 && w.cwnd == initialCwnd && w.maxCwnd == maxCwnd && FreeSend(w) == initialCwnd
            && 2 * w.ssthresh <= initialCwnd <= 2 * w.ssthresh + 1
  {
  }

  /** The time of the last measured packet is kept, one more than it was; the largest one, which starts
      at zero, never leaves zero, whatever is measured and lost. */
  lemma LargestStaysZero(w: Window, rtt: int, event: CaEvent)
    ensures Measured(w, rtt).rttCurr == rtt + 1 && React(w, event).rttCurr == w.rttCurr
    ensures Measured(w, rtt).cwnd == w.cwnd && Measured(w, rtt).pipe == w.pipe && Measured(w, rtt).ssthresh == w.ssthresh
    ensures w.rttMax == 0 ==> Measured(w, rtt).rttMax == 0 && React(w, event).rttMax == 0
    ensures w.rttMax != 0 ==> Measured(w, rtt).rttMax == if rtt + 1 > w.rttMax then 0 else w.rttMax
  {
  }

  /** The cut is by three tenths, to the nearest integer. */
  lemma DecreaseFactor(cwnd: int)
    ensures -5 < 10 * Decreased(cwnd) - 7 * cwnd <= 5
  {
  }

  /** What a loss or a duplicate does besides: the threshold becomes half of what is unacknowledged, but
      at least two, and the count of unacknowledged packets stays. */
  lemma ReactThreshold(w: Window, event: CaEvent)
    requires w.pipe >= 0
    ensures var t := React(w, event);
            && t.pipe == w.pipe && t.maxCwnd == w.maxCwnd && t.ssthresh >= 2
            && w.pipe - 1 <= 2 * t.ssthresh && (t.ssthresh > 2 ==> 2 * t.ssthresh <= w.pipe)
  {
  }

  /** The room for further packets: with that many more the window is exactly full. */
  lemma RoomExactly(w: Window, i: nat)
    ensures FreeSend(Sent(w, i)) == FreeSend(w) - i
    ensures FreeSend(w) > 0 <==> w.pipe < w.cwnd
    ensures i <= w.pipe ==> FreeSend(Acked(w, i)) == FreeSend(w) + i
    ensures i > w.pipe ==> FreeSend(Acked(w, i)) == w.cwnd
  {
  }

  function Iterated(cwnd: int, events: nat): int
    decreases events
  {
    if events == 0 then cwnd else Iterated(Decreased(cwnd), events - 1)
  }

  lemma {:induction false} IteratedNext(cwnd: int, events: nat)
    ensures Iterated(cwnd, events + 1) == Decreased(Iterated(cwnd, events))
    decreases events
  {
    if events == 0 {
      assert Iterated(cwnd, 1) == Iterated(Decreased(cwnd), 0);
    } else {
      IteratedNext(Decreased(cwnd), events - 1);
    }
  }

  /** Losses and duplicates leave the window between one and where it started, strictly below from the
      first one on if it was above one. */
  lemma {:induction false} IteratedBounds(cwnd: int, events: nat)
    requires cwnd >= 1
    ensures 1 <= Iterated(cwnd, events) <= cwnd
    ensures cwnd > 1 && events > 0 ==> Iterated(cwnd, events) < cwnd
    decreases events
  {
    if events == 0 {
    } else {
      DecreaseBounds(cwnd);
      IteratedBounds(Decreased(cwnd), events - 1);
    }
  }

  /** After `cwnd - 1` losses or duplicates at the latest, the connection is stop-and-wait for good. */
  lemma {:induction false} DecreaseToOne(cwnd: int, events: nat)
    requires cwnd >= 1 && events >= cwnd - 1
    ensures Iterated(cwnd, events) == 1
    decreases events
  {
    if events == 0 {
    } else {
      DecreaseToOne(Decreased(cwnd), events - 1);
    }
  }
}
