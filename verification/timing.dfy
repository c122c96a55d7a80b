/** Pulse-width classification of the FS20 / WS300 receiver (the tick-window
    macros of fs20.h). Every window is expressed in timer-0 ticks as a
    function of the CPU clock, exactly as FS20_US2T computes it. */
module Timing {

  /** Timer 0 runs with prescaler 256. */
  const Prescaler: nat := 256

  /** The smallest clock at which one microsecond is at least one tick of
      F_CPU/1000000; below it every window collapses to the single tick 0. */
  const MinClock: nat := 1000000

  /** A reading of the 8-bit timer 0 (TCNT0), and every variable that holds
      one. */
  type Ticks = t: nat | t < 256

  /** One symbol of the on-air code. */
  datatype Symbol = Zero | One

  /** Result of classifying an interval (or a pair of intervals): a symbol,
      or "first half of a wave, or noise". */
  datatype Class = Valid(sym: Symbol) | Invalid

  /** FS20_US2T: microseconds to ticks. F_CPU/1000000 is an integer division
      that happens before the multiplication. */
  function US2T(fcpu: nat, us: nat): nat {
    (fcpu / 1000000) * us / Prescaler
  }

  /** FS20_BETWEEN(x, a, b) */
  predicate Between(fcpu: nat, x: int, a: nat, b: nat) {
    US2T(fcpu, a) <= x <= US2T(fcpu, b)
  }

  /** FS20_SYMM(x, y, r): both differences are taken at int width. */
  predicate Symm(fcpu: nat, x: int, y: int, r: nat) {
    x - y <= US2T(fcpu, r) && y - x <= US2T(fcpu, r)
  }

  /** FS20_PULSE_ZERO: 300us to 500us. */
  predicate PulseZero(fcpu: nat, x: int) { Between(fcpu, x, 300, 500) }

  /** FS20_PULSE_ONE: 500us to 700us. */
  predicate PulseOne(fcpu: nat, x: int) { Between(fcpu, x, 500, 700) }

  /** FS20_PULSE_DIFFERENCE: at most 100us apart. */
  predicate PulseDifference(fcpu: nat, x: int, y: int) { Symm(fcpu, x, y, 100) }

  /** WS300_PULSE_ONE(x, y): a short interval followed by a long one. */
  predicate Ws300One(fcpu: nat, x: int, y: int) {
    Between(fcpu, x, 244, 488) && Between(fcpu, y, 732, 976)
  }

  /** WS300_PULSE_ZERO(x, y): a long interval followed by a short one. */
  predicate Ws300Zero(fcpu: nat, x: int, y: int) {
    Between(fcpu, x, 732, 976) && Between(fcpu, y, 244, 488)
  }

  lemma US2TMonotone(fcpu: nat, a: nat, b: nat)
    requires a <= b
    ensures US2T(fcpu, a) <= US2T(fcpu, b)
  {
    var k := fcpu / 1000000;
    assert k * a <= k * b by {
      assert k * b - k * a == k * (b - a);
    }
  }

  /** At a clock of at least 1 MHz the FS20 windows start above tick 0, so
      a zero interval (the discarded first edge, or a cleared time_old) is
      never a valid FS20 pulse. */
  lemma ZeroTickIsNoPulse(fcpu: nat)
    requires fcpu >= MinClock
    ensures US2T(fcpu, 300) >= 1
    ensures !PulseZero(fcpu, 0) && !PulseOne(fcpu, 0)
  {
    var k := fcpu / 1000000;
    assert k * 300 >= 300;
    US2TMonotone(fcpu, 300, 500);
  }

  /** The short WS300 window starts at 244us, which is tick 0 at 1 MHz: it
      takes a 2 MHz clock before a zero interval is no WS300 half-wave. */
  lemma Ws300ZeroTickIsNoPulse(fcpu: nat)
    requires fcpu >= 2 * MinClock
    ensures US2T(fcpu, 244) >= 1
    ensures forall y :: !Ws300One(fcpu, 0, y) && !Ws300Zero(fcpu, 0, y)
  {
    var k := fcpu / 1000000;
    assert k * 244 >= 488;
    US2TMonotone(fcpu, 244, 732);
  }

  /** At exactly 1 MHz the short WS300 window does contain tick 0. */
  lemma Ws300ZeroTickAtOneMHz()
    ensures Ws300One(MinClock, 0, 2)
  {
  }

  /** The ZERO and ONE windows share exactly one tick, US2T(500). */
  lemma PulseWindowsShareOneTick(fcpu: nat, x: int)
    ensures PulseZero(fcpu, x) && PulseOne(fcpu, x) <==> x == US2T(fcpu, 500)
  {
    US2TMonotone(fcpu, 300, 500);
    US2TMonotone(fcpu, 500, 700);
  }

  /** FS20_PULSE_DIFFERENCE is the absolute-difference test, hence symmetric. */
  lemma PulseDifferenceIsDistance(fcpu: nat, x: int, y: int)
    ensures PulseDifference(fcpu, x, y) <==> (if x >= y then x - y else y - x) <= US2T(fcpu, 100)
    ensures PulseDifference(fcpu, x, y) <==> PulseDifference(fcpu, y, x)
  {
  }

  /** The short and long WS300 windows are disjoint once the clock is at
      least 1 MHz, so no interval pair is both a WS300 ONE and a ZERO. */
  lemma Ws300WindowsDisjoint(fcpu: nat, x: int, y: int)
    requires fcpu >= MinClock
    ensures US2T(fcpu, 488) < US2T(fcpu, 732)
    ensures !(Ws300One(fcpu, x, y) && Ws300Zero(fcpu, x, y))
  {
    var k := fcpu / 1000000;
    assert k >= 1;
    if k == 1 {
      assert US2T(fcpu, 488) == 1 && US2T(fcpu, 732) == 2;
    } else {
      assert k * 732 == k * 488 + k * 244;
      assert k * 244 >= 488;
    }
  }

  /** Below 1 MHz every window is the tick 0, and the WS300 test becomes
      ambiguous: the clock bound above is needed. */
  lemma Ws300WindowsCollapseBelowOneMHz()
    ensures Ws300One(999999, 0, 0) && Ws300Zero(999999, 0, 0)
  {
  }

  /** The FS20 classifier of the edge interrupt: the pair (time_old, time)
      is a ZERO when both are in the ZERO window and close, a ONE when both
      are in the ONE window and close; ZERO is tested first. */
  function Fs20Classify(fcpu: nat, time: int, timeOld: int): (c: Class)
    ensures c.Valid? ==> PulseDifference(fcpu, time, timeOld)
    ensures c == Valid(Zero) ==> time <= US2T(fcpu, 500) && timeOld <= US2T(fcpu, 500)
    ensures c == Valid(One) ==> US2T(fcpu, 500) <= time && US2T(fcpu, 500) <= timeOld
    ensures c == Valid(One) ==> time != US2T(fcpu, 500) || timeOld != US2T(fcpu, 500)
    ensures c == Invalid <==>
              !(PulseZero(fcpu, time) && PulseZero(fcpu, timeOld) && PulseDifference(fcpu, time, timeOld))
              && !(PulseOne(fcpu, time) && PulseOne(fcpu, timeOld) && PulseDifference(fcpu, time, timeOld))
  {
    US2TMonotone(fcpu, 300, 500);
    if PulseZero(fcpu, time) && PulseZero(fcpu, timeOld) && PulseDifference(fcpu, time, timeOld) then
      Valid(Zero)
    else if PulseOne(fcpu, time) && PulseOne(fcpu, timeOld) && PulseDifference(fcpu, time, timeOld) then
      Valid(One)
    else
      Invalid
  }

  /** The WS300 classifier: ZERO is (long, short), ONE is (short, long),
      where the first interval is the cached time_old. */
  function Ws300Classify(fcpu: nat, timeOld: int, time: int): (c: Class)
    ensures c == Valid(Zero) ==> US2T(fcpu, 244) <= time <= US2T(fcpu, 488)
    ensures c == Valid(One) ==> US2T(fcpu, 732) <= time <= US2T(fcpu, 976)
    ensures fcpu >= MinClock ==>
              (c == Valid(One) <==> Ws300One(fcpu, timeOld, time))
    ensures c == Invalid <==> !Ws300Zero(fcpu, timeOld, time) && !Ws300One(fcpu, timeOld, time)
  {
    assert fcpu >= MinClock ==> !(Ws300One(fcpu, timeOld, time) && Ws300Zero(fcpu, timeOld, time)) by {
      if fcpu >= MinClock {
        Ws300WindowsDisjoint(fcpu, timeOld, time);
      }
    }
    if Ws300Zero(fcpu, timeOld, time) then Valid(Zero)
    else if Ws300One(fcpu, timeOld, time) then Valid(One)
    else Invalid
  }

  /** For every clock from 1 MHz up to the largest at which the 1500us
      silence compare value still fits timer 0's 8-bit counter, the nominal
      400us and 600us intervals fit in 8 bits and classify unambiguously:
      the 600us tick is outside the ZERO window. */
  lemma NominalIntervalsClassify(fcpu: nat)
    requires MinClock <= fcpu
    requires US2T(fcpu, 1500) < 256
    ensures US2T(fcpu, 600) < 256
    ensures PulseZero(fcpu, US2T(fcpu, 400))
    ensures PulseOne(fcpu, US2T(fcpu, 600)) && !PulseZero(fcpu, US2T(fcpu, 600))
  {
    var k := fcpu / 1000000;
    assert k >= 1;
    US2TMonotone(fcpu, 300, 400);
    US2TMonotone(fcpu, 400, 500);
    US2TMonotone(fcpu, 500, 600);
    US2TMonotone(fcpu, 600, 700);
    US2TMonotone(fcpu, 600, 1500);
    if k <= 2 {
      assert k == 1 || k == 2;
    } else {
      assert k * 600 == k * 500 + k * 100;
      assert k * 100 >= 300;
    }
  }
}
