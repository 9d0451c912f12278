/** The round-trip estimator (btp/rtt.go), after section 2 of RFC 6298, in nanoseconds and with
    results truncated to whole nanoseconds. */
module Rtt {

  const MILLISECOND: int := 1_000_000
  const MIN_RTO: int := 400 * MILLISECOND
  const INITIAL_RTO: int := 1000 * MILLISECOND

  datatype Estimate = Estimate(min: int, latest: int, srtt: int, rttvar: int, hasSample: bool)

  const FRESH: Estimate := Estimate(0, 0, 0, 0, false)

  function Abs(x: int): int
  {
    if x < 0 then -x else x
  }

  function Max(x: int, y: int): int
  {
    if x < y then y else x
  }

  /** An acknowledgement `delta` after its packet; one from the past is ignored. */
  function Updated(e: Estimate, delta: int): Estimate
  {
    if delta < 0 then e else
      Estimate(if e.min > delta then delta else e.min, delta,
               if e.hasSample then (7 * e.srtt + delta) / 8 else delta,
               if e.hasSample then (3 * e.rttvar + Abs(e.srtt - delta)) / 4 else delta / 2,
               true)
  }

  function TimeoutOf(e: Estimate): int
  {
    if !e.hasSample then INITIAL_RTO else Max(MIN_RTO, e.srtt + 4 * e.rttvar)
  }

  class RTTMeasurement {
    var min: int
    var latest: int
    var srtt: int
    var rttvar: int
    var hasSample: bool

    ghost function State(): Estimate
      reads this
    {
      Estimate(min, latest, srtt, rttvar, hasSample)
    }

    constructor ()
      ensures State() == FRESH
    {
      min, latest, srtt, rttvar, hasSample := 0, 0, 0, 0, false;
    }

    method Update(sendTimestamp: int, ackTimestamp: int)
      modifies this
      ensures State() == Updated(old(State()), ackTimestamp - sendTimestamp)
    {
      var delta := ackTimestamp - sendTimestamp;
      if delta < 0 {
        return;
      }
      if !hasSample {
        hasSample := true;
        srtt := delta;
        rttvar := delta / 2;
      } else {
        rttvar := (3 * rttvar + Abs(srtt - delta)) / 4;
        srtt := (7 * srtt + delta) / 8;
      }
      latest := delta;
      if min > delta {
        min := delta;
      }
    }

    method RTO() returns (rto: int)
      ensures rto == TimeoutOf(State())
    {
      if !hasSample {
        return 2 * 500 * MILLISECOND;
      }
      rto := srtt + 4 * rttvar;
      if rto < 400 * MILLISECOND {
        rto := 400 * MILLISECOND;
      }
    }
  }

  /** The estimate after a list of samples. */
  function After(samples: seq<int>): Estimate
  {
    if samples == [] then FRESH else Updated(After(samples[..|samples| - 1]), samples[|samples| - 1])
  }

  ghost predicate Within(samples: seq<int>, m: int, M: int)
  {
    forall i | 0 <= i < |samples| && samples[i] >= 0 :: m <= samples[i] <= M
  }

  /** Some sample is not ignored. */
  ghost predicate Sampled(samples: seq<int>)
  {
    exists i :: 0 <= i < |samples| && samples[i] >= 0
  }

  lemma {:induction false} Bounds(samples: seq<int>, m: int, M: int)
    requires 0 <= m && Within(samples, m, M)
    ensures After(samples).hasSample <==> Sampled(samples)
    ensures var e := After(samples);
            && e.min == 0
            && (e.hasSample ==> m <= e.srtt <= M && 0 <= e.rttvar <= Max(M / 2, M - m))
  {
    if samples == [] {
    } else {
      var before, d := samples[..|samples| - 1], samples[|samples| - 1];
      Bounds(before, m, M);
      if i :| 0 <= i < |before| && before[i] >= 0 {
        assert samples[i] >= 0;
      }
      if d >= 0 {
        assert m <= d <= M;
      }
    }
  }

  /** For any samples between m and M the smoothed time stays between them, its variation and the
      timeout stay bounded, and the recorded minimum never leaves zero. */
  lemma EstimatorBounds(samples: seq<int>, m: int, M: int)
    requires 0 <= m && Within(samples, m, M) && Sampled(samples)
    ensures var e := After(samples);
            && m <= e.srtt <= M
            && 0 <= e.rttvar <= Max(M / 2, M - m)
            && MIN_RTO <= TimeoutOf(e) <= Max(MIN_RTO, 5 * M)
            && e.min == 0
  {
    Bounds(samples, m, M);
  }

  /** Samples are smoothed: the estimate moves an eighth of the way to a later sample, and the variation
      a quarter of the way to the distance of the sample, both cut to whole nanoseconds. The first sample
      is taken as it is, with half of it as the variation, and one from the past changes nothing. */
  lemma Smoothing(e: Estimate, d: int)
    requires e.srtt >= 0 && e.rttvar >= 0
    ensures d < 0 ==> Updated(e, d) == e
    ensures d >= 0 ==> Updated(e, d).latest == d && Updated(e, d).hasSample
    ensures d >= 0 && !e.hasSample ==>
              Updated(e, d).srtt == d && 2 * Updated(e, d).rttvar <= d <= 2 * Updated(e, d).rttvar + 1
    ensures d >= 0 && e.hasSample ==> d - e.srtt - 7 <= 8 * (Updated(e, d).srtt - e.srtt) <= d - e.srtt
    ensures d >= 0 && e.hasSample ==>
              var distance := if d < e.srtt then e.srtt - d else d - e.srtt;
              distance - e.rttvar - 3 <= 4 * (Updated(e, d).rttvar - e.rttvar) <= distance - e.rttvar
  {
  }

  /** After equal samples one outlier moves the estimate by an eighth of its distance at most, give or
      take a nanosecond. */
  lemma OutlierDamped(r: nat, k: nat, outlier: nat)
    ensures var e := After(Steady(r, k + 1) + [outlier]);
            var distance := if outlier < r then r - outlier else outlier - r;
            && r - distance / 8 - 1 <= e.srtt <= r + distance / 8 + 1
            && e.latest == outlier
  {
    SteadyEstimate(r, k);
    var samples := Steady(r, k + 1) + [outlier];
    assert samples[..|samples| - 1] == Steady(r, k + 1);
    Smoothing(After(Steady(r, k + 1)), outlier);
  }

  /** A sample within four variations of the estimate. */
  predicate Expected(e: Estimate, d: int)
  {
    e.srtt - 4 * e.rttvar <= d <= e.srtt + 4 * e.rttvar
  }

  /** The timeout is the least time that is no shorter than 400ms and covers every sample within four
      variations of the estimate; without a sample it is a second. */
  lemma TimeoutCovers(e: Estimate, t: int)
    requires e.rttvar >= 0
    ensures !e.hasSample ==> TimeoutOf(e) == 1_000_000_000
    ensures e.hasSample ==>
              (TimeoutOf(e) <= t <==> 400_000_000 <= t && forall d: int | Expected(e, d) :: d <= t)
  {
    assert Expected(e, e.srtt + 4 * e.rttvar);
  }

  function Power(b: nat, k: nat): nat
  {
    if k == 0 then 1 else b * Power(b, k - 1)
  }

  function Steady(r: nat, k: nat): (s: seq<int>)
    ensures |s| == k
  {
    seq(k, _ => r)
  }

  lemma SteadyStep(r: nat, k: nat)
    requires k > 0
    ensures Steady(r, k)[..k - 1] == Steady(r, k - 1) && Steady(r, k)[k - 1] == r
    ensures After(Steady(r, k)) == Updated(After(Steady(r, k - 1)), r)
  {
    assert Steady(r, k)[..k - 1] == Steady(r, k - 1);
  }

  lemma {:induction false} SteadyEstimate(r: nat, k: nat)
    ensures var e := After(Steady(r, k + 1)); e.hasSample && e.srtt == r && e.rttvar >= 0
    ensures k == 0 ==> After(Steady(r, k + 1)).rttvar == r / 2
    ensures k > 0 ==> After(Steady(r, k + 1)).rttvar == 3 * After(Steady(r, k)).rttvar / 4
    decreases k
  {
    SteadyStep(r, k + 1);
    if k == 0 {
      assert Steady(r, k) == [];
    } else {
      SteadyEstimate(r, k - 1);
    }
  }

  lemma PowerStep(b: nat, k: nat)
    requires k > 0
    ensures Power(b, k) == b * Power(b, k - 1)
  {
  }

  /** With equal samples the smoothed time is exact and its variation falls by a quarter each time. */
  lemma {:induction false} Converges(r: nat, k: nat)
    ensures var e := After(Steady(r, k + 1));
            && e.hasSample && e.srtt == r
            && 0 <= Power(4, k) * (2 * e.rttvar) <= Power(3, k) * r
    decreases k
  {
    SteadyEstimate(r, k);
    hide After, Steady;
    if k == 0 {
    } else {
      Converges(r, k - 1);
      SteadyEstimate(r, k - 1);
      PowerStep(4, k);
      PowerStep(3, k);
      hide Power;
      Quarter(Power(4, k - 1), Power(3, k - 1), r, After(Steady(r, k)).rttvar, After(Steady(r, k + 1)).rttvar);
    }
  }

  lemma Quarter(p: nat, q: nat, r: nat, v: int, w: int)
    requires 0 <= p * (2 * v) <= q * r && 0 <= 4 * w <= 3 * v
    ensures 0 <= (4 * p) * (2 * w) <= (3 * q) * r
  {
    assert p * (2 * (4 * w)) <= p * (2 * (3 * v)) == 3 * (p * (2 * v));
    assert (4 * p) * (2 * w) == p * (2 * (4 * w));
    assert (3 * q) * r == 3 * (q * r);
  }

  /** After enough equal samples the timeout is the sample itself, or the least timeout. */
  lemma {:induction false} Settles(r: nat, k: nat)
    ensures After(Steady(r, k + 1)).rttvar <= Max(0, r / 2 - k)
    ensures k >= r / 2 ==> TimeoutOf(After(Steady(r, k + 1))) == Max(MIN_RTO, r)
    decreases k
  {
    SteadyEstimate(r, k);
    hide After, Steady;
    if k == 0 {
    } else {
      Settles(r, k - 1);
      SteadyEstimate(r, k - 1);
    }
  }
}
