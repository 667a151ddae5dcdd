/**
 Program clock references: a counter of 27 MHz ticks that wraps at 2^33 * 300 (section 2.4.3.5 of
 ISO/IEC 13818-1), its wrap-aware comparison, and its relation to wall-clock milliseconds.

 An "unwrapped" PCR is an unbounded count of ticks; what a packet carries is that count modulo
 PCR_UPPER_BOUND, and the quotient is its wrap epoch.
 */
module Pcr {
  const PCR_UPPER_BOUND: int := 0x2_0000_0000 * 300
  const MAX_PCR: int := PCR_UPPER_BOUND - 1
  const TICKS_PER_MS: int := 27_000
  const TICKS_PER_SEC: int := 27_000_000

  predicate ValidPcr(pcr: int) {
    0 <= pcr <= MAX_PCR
  }

  function Abs(x: int): int {
    if x < 0 then -x else x
  }

  function Sign(x: int): int {
    if x < 0 then -1 else if x == 0 then 0 else 1
  }

  /** Integer division that truncates toward zero. */
  function TruncDiv(a: int, b: int): int
    requires b > 0
  {
    if a >= 0 then a / b else -((-a) / b)
  }

  /** Remainder of the truncating division: it takes the sign of the dividend. */
  function TruncMod(a: int, b: int): int
    requires b > 0
  {
    if a >= 0 then a % b else -((-a) % b)
  }

  /** The wrap-aware comparison: only the right operand is ever moved to the next epoch. */
  function ComparePcr(lhs: int, rhs: int): int
    requires ValidPcr(lhs) && ValidPcr(rhs)
  {
    var a := lhs - rhs;
    var b := lhs - (PCR_UPPER_BOUND + rhs);
    if Abs(a) < Abs(b) then a else b
  }

  function Wrap(x: int): (pcr: int)
    ensures ValidPcr(pcr)
  {
    x % PCR_UPPER_BOUND
  }

  function Epoch(x: int): int {
    x / PCR_UPPER_BOUND
  }

  lemma Unwrapped(x: int)
    ensures x == Epoch(x) * PCR_UPPER_BOUND + Wrap(x)
  {
  }

  /** Positions less than half a period apart are at most one epoch apart. */
  lemma NearbyEpochs(x: int, y: int)
    requires -PCR_UPPER_BOUND < 2 * (x - y) < PCR_UPPER_BOUND
    ensures -1 <= Epoch(x) - Epoch(y) <= 1
  {
    Unwrapped(x);
    Unwrapped(y);
  }

  /**
   The comparison of two PCRs less than half a period apart agrees with the order of the unwrapped
   positions exactly when the left one is not in a later epoch than the right one.
   */
  lemma CompareAgreesIff(x: int, y: int)
    requires -PCR_UPPER_BOUND < 2 * (x - y) < PCR_UPPER_BOUND
    ensures Sign(ComparePcr(Wrap(x), Wrap(y))) == Sign(x - y) <==> Epoch(x) <= Epoch(y)
  {
    NearbyEpochs(x, y);
    Unwrapped(x);
    Unwrapped(y);
  }

  /** One tick across the wrap is enough to misorder: the later position compares as the smaller. */
  lemma CompareMisorders()
    ensures
      var x, y := PCR_UPPER_BOUND, PCR_UPPER_BOUND - 1;
      x > y && ComparePcr(Wrap(x), Wrap(y)) < 0
  {
    assert Wrap(PCR_UPPER_BOUND) == 0;
  }

  /** Position `x` is at or past `y`, and has not wrapped since. */
  predicate Reached(x: int, y: int) {
    x >= y && Epoch(x) <= Epoch(y)
  }

  /** The comparison says "at or past" exactly for positions that are, and have not wrapped since. */
  lemma ComparesReachedIff(x: int, y: int)
    requires -PCR_UPPER_BOUND < 2 * (x - y) < PCR_UPPER_BOUND
    ensures ComparePcr(Wrap(x), Wrap(y)) >= 0 <==> Reached(x, y)
  {
    NearbyEpochs(x, y);
    Unwrapped(x);
    Unwrapped(y);
  }

  /** Whatever the two positions, the result is their distance up to whole periods. */
  lemma CompareIsCongruent(x: int, y: int)
    ensures Wrap(ComparePcr(Wrap(x), Wrap(y))) == Wrap(x - y)
  {
    Unwrapped(x);
    Unwrapped(y);
    var c := ComparePcr(Wrap(x), Wrap(y));
    var k := Epoch(y) - Epoch(x) - (if c == Wrap(x) - Wrap(y) then 0 else 1);
    assert c == (x - y) + k * PCR_UPPER_BOUND;
    WrapIgnoresPeriods(x - y, k);
  }

  lemma WrapIgnoresPeriods(x: int, k: int)
    ensures Wrap(x + k * PCR_UPPER_BOUND) == Wrap(x)
    ensures Epoch(x + k * PCR_UPPER_BOUND) == Epoch(x) + k
  {
  }

  /** The PCR the clock shows at `time`, given that it showed `basePcr` at `baseTime`. */
  function PcrAt(basePcr: int, baseTime: int, time: int): (pcr: int)
    ensures ValidPcr(pcr)
  {
    Wrap(basePcr + (time - baseTime) * TICKS_PER_MS)
  }

  /** How many whole periods `PcrAt` leaves out; negative for times long before the baseline. */
  function PeriodsAt(basePcr: int, baseTime: int, time: int): int {
    Epoch(basePcr + (time - baseTime) * TICKS_PER_MS)
  }

  function TimeAt(basePcr: int, baseTime: int, pcr: int): int {
    baseTime + TruncDiv(pcr - basePcr, TICKS_PER_MS)
  }

  /** Converting a time to a PCR and back is exact once the removed periods are put back. */
  lemma TimeRoundTrip(basePcr: int, baseTime: int, time: int)
    ensures TimeAt(basePcr, baseTime,
                   PcrAt(basePcr, baseTime, time)
                   + PeriodsAt(basePcr, baseTime, time) * PCR_UPPER_BOUND) == time
  {
    Unwrapped(basePcr + (time - baseTime) * TICKS_PER_MS);
  }
}
