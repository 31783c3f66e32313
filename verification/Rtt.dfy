/**
 Round-trip time and the retransmission timeout derived from it. Durations are nanoseconds;
 floating point is modelled over the reals.
 */
module Rtt {
  datatype Estimate = Estimate(initialized: bool, lastRtt: real, average: real, variance: real)

  const UNKNOWN := Estimate(false, 0.0, 0.0, 0.0)

  function Abs(x: real): real {
    if x < 0.0 then -x else x
  }

  /** The variance moves towards its distance from the sample, not towards the average's. */
  function Adjusted(e: Estimate, next: real): Estimate {
    if e.initialized then
      e.(variance := 0.75 * e.variance + 0.25 * Abs(e.variance - next), average := 0.875 * e.average + 0.125 * next)
    else Estimate(true, next, next + 4.0 * (next / 2.0), next / 2.0)
  }

  function After(samples: seq<real>): Estimate {
    if samples == [] then UNKNOWN else Adjusted(After(samples[..|samples| - 1]), samples[|samples| - 1])
  }

  class RTT {
    var lastRtt: real
    var average: real
    var variance: real
    var initialized: bool

    ghost function State(): Estimate
      reads this
    {
      Estimate(initialized, lastRtt, average, variance)
    }

    constructor ()
      ensures State() == UNKNOWN
    {
      lastRtt, average, variance, initialized := 0.0, 0.0, 0.0, false;
    }

    method Adjust(next: real)
      modifies this
      ensures State() == Adjusted(old(State()), next)
    {
      if initialized {
        variance := 0.75 * variance + 0.25 * Abs(variance - next);
        average := 0.875 * average + 0.125 * next;
      } else {
        lastRtt := next;
        variance := next / 2.0;
        average := next + 4.0 * variance;
        initialized := true;
      }
    }
  }

  /** The average lies between any bounds on three times the first sample and the later samples. */
  lemma {:induction false} AverageStaysBetween(samples: seq<real>, lo: real, hi: real)
    requires samples != [] && lo <= 3.0 * samples[0] <= hi
    requires forall i | 1 <= i < |samples| :: lo <= samples[i] <= hi
    ensures After(samples).initialized && lo <= After(samples).average <= hi
  {
    var init := samples[..|samples| - 1];
    if init != [] {
      AverageStaysBetween(init, lo, hi);
    } else {
      assert After(init) == UNKNOWN;
    }
  }

  /** The variance never goes below zero or above the greatest sample. */
  lemma {:induction false} VarianceStaysBetween(samples: seq<real>, hi: real)
    requires samples != [] && forall i | 0 <= i < |samples| :: 0.0 <= samples[i] <= hi
    ensures 0.0 <= After(samples).variance <= hi
  {
    var init := samples[..|samples| - 1];
    if init != [] {
      VarianceStaysBetween(init, hi);
    } else {
      assert After(init) == UNKNOWN;
    }
  }

  /** Every later sample moves the average by an eighth, and the variance by a quarter, of the way to where they go. */
  lemma LaterSamplesMove(samples: seq<real>, next: real)
    requires samples != []
    ensures var e, e' := After(samples), After(samples + [next]);
            && 8.0 * (e'.average - e.average) == next - e.average
            && 4.0 * (e'.variance - e.variance) == (if next < e.variance then e.variance - next else next - e.variance) - e.variance
            && e'.lastRtt == e.lastRtt == samples[0]
  {
    FirstIsKept(samples);
    assert (samples + [next])[..|samples|] == samples;
  }

  lemma {:induction false} FirstIsKept(samples: seq<real>)
    requires samples != []
    ensures After(samples).initialized && After(samples).lastRtt == samples[0]
  {
    var init := samples[..|samples| - 1];
    if init != [] {
      FirstIsKept(init);
    } else {
      assert After(init) == UNKNOWN;
    }
  }

  /** The first sample fixes all: three times it for the average, half of it for the variance. */
  lemma FirstSample(r: real)
    ensures var e := After([r]); e.initialized && e.lastRtt == r && e.average == 3.0 * r && e.variance == r / 2.0
  {
    assert [r][..0] == [];
    assert After([]) == UNKNOWN;
  }

  // ---------- beside section 2 of RFC 6298 ----------

  /** Sections 2.2 and 2.3 of RFC 6298: the first sample is the average, and the variance follows the average. */
  function Standard(e: Estimate, next: real): Estimate {
    if e.initialized then
      e.(variance := 0.75 * e.variance + 0.25 * Abs(e.average - next), average := 0.875 * e.average + 0.125 * next)
    else Estimate(true, next, next, next / 2.0)
  }

  /** One update agrees with the standard's exactly when the sample is as far from the variance as from the average. */
  lemma UpdateIsStandardIff(e: Estimate, next: real)
    requires e.initialized
    ensures Adjusted(e, next) == Standard(e, next) <==> Abs(e.variance - next) == Abs(e.average - next)
  {
    var x, y := Abs(e.variance - next), Abs(e.average - next);
    assert 0.25 * x == 0.25 * y <==> x == y;
  }

  /** The first update agrees only with a sample of zero: the average starts at three times the sample. */
  lemma FirstUpdateIsStandardIff(next: real)
    ensures Adjusted(UNKNOWN, next) == Standard(UNKNOWN, next) <==> next == 0.0
  {
  }

  function Same(n: nat, r: real): seq<real> {
    seq(n, _ => r)
  }

  function StandardAfter(samples: seq<real>): Estimate {
    if samples == [] then UNKNOWN else Standard(StandardAfter(samples[..|samples| - 1]), samples[|samples| - 1])
  }

  /** `x` taken to three quarters of itself `n` times. */
  function Decayed(x: real, n: nat): real {
    if n == 0 then x else 0.75 * Decayed(x, n - 1)
  }

  /** However long the round trip stays the same, the variance stays at half of it. */
  lemma {:induction false} VarianceNeverDecays(n: nat, r: real)
    requires n >= 1 && r >= 0.0
    ensures After(Same(n, r)).initialized && After(Same(n, r)).variance == r / 2.0
  {
    var init := Same(n, r)[..n - 1];
    assert init == Same(n - 1, r);
    if n > 1 {
      VarianceNeverDecays(n - 1, r);
    } else {
      assert After(init) == UNKNOWN;
    }
  }

  /** The standard's falls by a quarter each time. */
  lemma {:induction false} StandardVarianceDecays(n: nat, r: real)
    requires n >= 1
    ensures var e := StandardAfter(Same(n, r)); e.initialized && e.average == r && e.variance == Decayed(r / 2.0, n - 1)
  {
    var init := Same(n, r)[..n - 1];
    assert init == Same(n - 1, r);
    if n > 1 {
      StandardVarianceDecays(n - 1, r);
    } else {
      assert StandardAfter(init) == UNKNOWN;
    }
  }

  // ---------- the retransmission timeout, in milliseconds ----------

  const INITIAL_RTT := 0x2EE
  const SYN_INITIAL_RTT := 0xFA
  const EXTRA_TRIGGER := 0x32

  function TimeBase(isSyn: bool, e: Estimate): nat
    requires e.average >= 0.0
  {
    if isSyn then SYN_INITIAL_RTT
    else if e.initialized then e.average.Floor / 1_000_000 / 8
    else INITIAL_RTT
  }

  /** The default retransmission timeout of a packet that has been sent `sendCount` times. */
  function RetransmitTimeout(isSyn: bool, e: Estimate, sendCount: nat): int
    requires e.average >= 0.0
  {
    var product := TimeBase(isSyn, e) * sendCount;
    (product as real * (if sendCount < EXTRA_TRIGGER then 1.25 else 1.0)).Floor
  }

  /** Below the trigger, every further transmission waits at least as long as the one before. */
  lemma TimeoutNeverShrinks(isSyn: bool, e: Estimate, m: nat, n: nat)
    requires e.average >= 0.0 && m <= n < EXTRA_TRIGGER
    ensures RetransmitTimeout(isSyn, e, m) <= RetransmitTimeout(isSyn, e, n)
  {
    var base := TimeBase(isSyn, e);
    assert base * m <= base * n;
    assert (base * m) as real * 1.25 <= (base * n) as real * 1.25;
  }

  /** At the trigger the multiplier falls, and with it the timeout: 20 transmissions never get there. */
  lemma TimeoutFallsAtTrigger(isSyn: bool, e: Estimate)
    requires e.average >= 0.0
    ensures RetransmitTimeout(isSyn, e, EXTRA_TRIGGER) < RetransmitTimeout(isSyn, e, EXTRA_TRIGGER - 1) <==>
            TimeBase(isSyn, e) >= 1
  {
    var base := TimeBase(isSyn, e);
    assert (base * 49) as real * 1.25 == (base * 61) as real + base as real * 0.25;
    assert ((base * 49) as real * 1.25).Floor >= base * 61;
  }

  /** A packet waits at all exactly when no round trip was measured, or their average is 8 ms or more. */
  lemma TimeoutIsPositiveIff(e: Estimate, sendCount: nat)
    requires e.average >= 0.0 && 1 <= sendCount
    ensures RetransmitTimeout(false, e, sendCount) > 0 <==> !e.initialized || e.average >= 8_000_000.0
  {
    var base := TimeBase(false, e);
    var factor := if sendCount < EXTRA_TRIGGER then 1.25 else 1.0;
    if base >= 1 {
      assert base * sendCount >= 1;
      assert (base * sendCount) as real * factor >= 1.0;
    } else {
      assert base * sendCount == 0;
    }
  }

  /** After any round trips of at least 8 ms, every retransmission waits. */
  lemma SlowRoundTripsAlwaysWait(samples: seq<real>, sendCount: nat)
    requires samples != [] && (forall i | 0 <= i < |samples| :: samples[i] >= 8_000_000.0) && sendCount >= 1
    ensures After(samples).average >= 0.0 && RetransmitTimeout(false, After(samples), sendCount) > 0
  {
    var hi := Greatest(samples);
    AverageStaysBetween(samples, 8_000_000.0, 3.0 * hi);
    TimeoutIsPositiveIff(After(samples), sendCount);
  }

  function Greatest(samples: seq<real>): (g: real)
    requires samples != []
    ensures forall i | 0 <= i < |samples| :: samples[i] <= g
  {
    if |samples| == 1 then samples[0]
    else
      var rest := Greatest(samples[1..]);
      assert forall i | 1 <= i < |samples| :: samples[i] == samples[1..][i - 1];
      if samples[0] < rest then rest else samples[0]
  }

  /** Without a measurement the timeouts are 937.5 ms times the number of transmissions, rounded down; for SYN packets 312.5 ms. */
  lemma TimeoutWithoutMeasurement(sendCount: nat)
    requires sendCount < 50
    ensures RetransmitTimeout(false, UNKNOWN, sendCount) == 1875 * sendCount / 2
    ensures RetransmitTimeout(true, UNKNOWN, sendCount) == 625 * sendCount / 2
  {
    HalvesRoundDown(1875 * sendCount, (750 * sendCount) as real * 1.25);
    HalvesRoundDown(625 * sendCount, (250 * sendCount) as real * 1.25);
  }

  lemma HalvesRoundDown(n: nat, x: real)
    requires 2.0 * x == n as real
    ensures x.Floor == n / 2
  {
    assert x - 0.5 <= (n / 2) as real <= x;
  }

  /** The first timeout is 937 ms, or 312 ms for a SYN packet, and 37 ms after one round trip of 80 ms. */
  lemma FirstTimeouts()
    ensures RetransmitTimeout(false, UNKNOWN, 1) == 937 && RetransmitTimeout(true, UNKNOWN, 1) == 312
    ensures After([80_000_000.0]).average == 240_000_000.0 && RetransmitTimeout(false, After([80_000_000.0]), 1) == 37
  {
    TimeoutWithoutMeasurement(1);
    FirstSample(80_000_000.0);
    assert 240_000_000.0.Floor == 240_000_000;
    var x := 30 as real * 1.25;
    assert x == 37.5 && x.Floor == 37;
  }

  /** From 50 transmissions on the timeout is the plain product. */
  lemma TimeoutFromTrigger(isSyn: bool, e: Estimate, sendCount: nat)
    requires e.average >= 0.0
    ensures sendCount >= 50 ==> RetransmitTimeout(isSyn, e, sendCount) == TimeBase(isSyn, e) * sendCount
    ensures sendCount < 50 ==> RetransmitTimeout(isSyn, e, sendCount) == 5 * (TimeBase(isSyn, e) * sendCount) / 4
  {
    var product := TimeBase(isSyn, e) * sendCount;
    assert product >= 0;
    if sendCount < 50 {
      QuartersRoundDown(5 * product, product as real * 1.25);
    } else {
      assert product as real * 1.0 == product as real;
    }
  }

  lemma QuartersRoundDown(n: nat, x: real)
    requires 4.0 * x == n as real
    ensures x.Floor == n / 4
  {
    assert x - 0.75 <= (n / 4) as real <= x;
  }
}
