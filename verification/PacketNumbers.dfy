/** The 16-bit packet number circle, its generator, and the slots a ring buffer gives to numbers. */
module PacketNumbers {

  const CIRCLE: nat := 65536

  type PacketNumber = n: nat | n < CIRCLE

  /** The number that an unbounded packet number `n` has on the wire. */
  function Wire(n: nat): PacketNumber
  {
    n % CIRCLE
  }

  /** The wrapping increment of a 16-bit number. */
  function Succ(n: PacketNumber): PacketNumber
  {
    (n + 1) % CIRCLE
  }

  lemma WireSucc(n: nat)
    ensures Wire(n + 1) == Succ(Wire(n))
  {
  }

  /** Two numbers with the same wire form that lie within one circle of each other are equal. */
  lemma WireInjective(m: nat, n: nat)
    requires Wire(m) == Wire(n)
    requires m < n + CIRCLE && n < m + CIRCLE
    ensures m == n
  {
  }

  /** The generator of outgoing numbers. */
  class NumberGenerator {
    var next: PacketNumber

    constructor (seed: PacketNumber)
      ensures next == seed
    {
      next := seed;
    }

    method Next() returns (n: PacketNumber)
      modifies this
      ensures n == old(next)
      ensures next == Succ(old(next))
    {
      n := next;
      next := if next == CIRCLE - 1 then 0 else next + 1;
    }

    method Peek() returns (n: PacketNumber)
      ensures n == next
    {
      n := next;
    }
  }

  // ---------------------------------------------------------------- ring slots

  /** The slot that a ring of `length` entries gives to packet `n`. */
  function Slot(n: nat, length: nat): (s: nat)
    requires length > 0
    ensures s < length
  {
    Wire(n) % length
  }

  /** No two of any `width` consecutive packet numbers share a slot. */
  ghost predicate SlotsDistinct(length: nat, width: nat)
    requires length > 0
  {
    forall m: nat, n: nat | m < n < m + width :: Slot(m, length) != Slot(n, length)
  }

  /** The widest window on which slots are distinct. */
  function SafeWindow(length: nat): (w: nat)
    requires length > 0
    ensures 0 < w <= length
  {
    if CIRCLE % length == 0 then length else CIRCLE % length
  }

  /** The only multiple of `d` strictly between `-d` and `d` is zero. */
  lemma NoSmallMultiple(k: int, d: int)
    requires d > 0
    ensures -d < k * d < d ==> k == 0
  {
    if k >= 1 {
      assert k * d == (k - 1) * d + d;
    } else if k <= -1 {
      assert k * d == (k + 1) * d - d;
    }
  }

  /** Quotient and remainder are determined by the division equation. */
  lemma DivModUnique(x: int, d: nat, q: int, r: nat)
    requires d > 0 && r < d && x == q * d + r
    ensures x / d == q && x % d == r
  {
    assert x == (x / d) * d + x % d;
    assert (q - x / d) * d == x % d - r;
    NoSmallMultiple(q - x / d, d);
  }

  /** Numbers with the same remainder differ by a multiple of the divisor. */
  lemma SameRemainder(x: nat, y: nat, d: nat) returns (k: int)
    requires d > 0 && x % d == y % d
    ensures y - x == k * d
  {
    k := y / d - x / d;
    assert x == (x / d) * d + x % d;
    assert y == (y / d) * d + y % d;
    assert y - x == (y / d) * d - (x / d) * d == k * d;
  }

  lemma WrapOnce(m: nat, n: nat)
    requires m < n < m + CIRCLE
    ensures Wire(n) - Wire(m) == n - m || Wire(n) - Wire(m) == n - m - CIRCLE
  {
  }

  lemma SafeWindowInCircle(length: nat)
    requires length > 0
    ensures SafeWindow(length) <= CIRCLE
  {
    if length > CIRCLE {
      DivModUnique(CIRCLE, length, 0, CIRCLE);
    }
  }

  /** A distance that wraps around the circle is no multiple of the ring length either. */
  lemma WrappedDistance(d: nat, length: nat, k: int)
    requires length > 0 && 0 < d < SafeWindow(length)
    ensures d - CIRCLE != k * length
  {
    var q, r := CIRCLE / length, CIRCLE % length;
    assert CIRCLE == q * length + r;
    if d - CIRCLE == k * length {
      assert (k + q) * length == k * length + q * length == d - r;
      NoSmallMultiple(k + q, length);
    }
  }

  lemma SlotsDistinctInside(m: nat, n: nat, length: nat)
    requires length > 0 && m < n < m + SafeWindow(length)
    ensures Slot(m, length) != Slot(n, length)
  {
    if Slot(m, length) == Slot(n, length) {
      var k := SameRemainder(Wire(m), Wire(n), length);
      SafeWindowInCircle(length);
      WrapOnce(m, n);
      NoSmallMultiple(k, length);
      WrappedDistance(n - m, length, k);
    }
  }

  /** Two numbers sharing a slot, `SafeWindow(length)` apart. */
  lemma SlotCollision(length: nat) returns (m: nat, n: nat)
    requires length > 0
    ensures n == m + SafeWindow(length) && Slot(m, length) == Slot(n, length)
  {
    var r := CIRCLE % length;
    SafeWindowInCircle(length);
    if r == 0 {
      m, n := 0, length;
      DivModUnique(length, length, 1, 0);
    } else {
      m, n := CIRCLE - r, CIRCLE;
      assert CIRCLE == (CIRCLE / length) * length + r;
      DivModUnique(m, length, CIRCLE / length, 0);
    }
    DivModUnique(0, length, 0, 0);
  }

  /** The slot map of a ring is injective on `width` consecutive numbers exactly up to SafeWindow. */
  lemma SlotsDistinctExactly(length: nat, width: nat)
    requires length > 0
    ensures SlotsDistinct(length, width) <==> width <= SafeWindow(length)
  {
    if width <= SafeWindow(length) {
      forall m: nat, n: nat | m < n < m + width
        ensures Slot(m, length) != Slot(n, length)
      {
        SlotsDistinctInside(m, n, length);
      }
    } else {
      var m, n := SlotCollision(length);
      assert m < n < m + width;
    }
  }

  /** The ring of 50 entries that a connection creates is safe for 36 numbers. */
  lemma ConnectionRing()
    ensures SafeWindow(50) == 36
    ensures forall width: nat :: SlotsDistinct(50, width) <==> width <= 36
  {
    forall width: nat ensures SlotsDistinct(50, width) <==> width <= 36 {
      SlotsDistinctExactly(50, width);
    }
  }
}
