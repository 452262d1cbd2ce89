/**
 * The C library time hooks of src/os/time.dolphin.c: `__get_clock`, `__get_time` and
 * `__to_gm_time`. The time base (`OSGetTime()`) and the word at 0x800000F8 (the bus clock)
 * are parameters.
 */
module OSTime {

  const TwoTo32: int := 0x1_0000_0000
  const TwoTo63: int := 0x8000_0000_0000_0000

  /** C `unsigned long` (32 bits here). */
  type u32 = x: int | 0 <= x < TwoTo32

  /** C `long long`. */
  type s64 = x: int | -TwoTo63 <= x < TwoTo63

  /** The number of seconds from 1900-01-01 to 2000-01-01: 100 years of which 24 are leap years. */
  const SecondsFrom1900To2000: int := (100 * 365 + 24) * 24 * 60 * 60

  /** The constant that `__get_time` subtracts. */
  const EpochConstant: int := 0x43E8_3E00

  /** C's `/` on signed operands: the quotient truncated toward zero. */
  function TruncDiv(a: int, d: int): (q: int)
    requires d > 0
    ensures a >= 0 ==> 0 <= q * d <= a < q * d + d
    ensures a < 0 ==> q * d - d < a <= q * d <= 0
  {
    var b := if a >= 0 then a else -a;
    var m := b / d;
    DivBounds(b, d);
    if a >= 0 then m else NegBounds(m, d); -m
  }

  lemma DivBounds(b: nat, d: int)
    requires d > 0
    ensures 0 <= (b / d) * d <= b < (b / d) * d + d
  {
    assert b == (b / d) * d + b % d;
  }

  lemma NegBounds(m: int, d: int)
    ensures (-m) * d == -(m * d)
  {
  }

  /** `__get_clock`: always -1, C's "processor time not available". */
  function GetClock(): (r: s64)
    ensures r == -1
  {
    -1
  }

  /** `__to_gm_time`: always 0. */
  function ToGmTime(): (r: int)
    ensures r == 0
  {
    0
  }

  /**
   * `__get_time`: the time base divided by a quarter of the bus clock (a signed 64-bit division,
   * truncating), cut to 32 bits, minus 0x43E83E00 modulo 2^32. The source divides without a
   * check, so the quarter clock must not be zero.
   */
  function GetTime(time: s64, busClock: u32): (r: u32)
    requires busClock / 4 != 0
    ensures r == (TruncDiv(time, busClock / 4) + SecondsFrom1900To2000) % TwoTo32
  {
    var ticksPerSecond := busClock / 4;
    var seconds := TruncDiv(time, ticksPerSecond) % TwoTo32;
    EpochShift(TruncDiv(time, ticksPerSecond));
    (seconds - EpochConstant) % TwoTo32
  }

  /** Subtracting the constant modulo 2^32 adds the seconds from 1900 to 2000: a 2000-based count becomes a 1900-based one. */
  lemma EpochShift(q: int)
    ensures (q % TwoTo32 - EpochConstant) % TwoTo32 == (q + SecondsFrom1900To2000) % TwoTo32
  {
    assert SecondsFrom1900To2000 == TwoTo32 - EpochConstant;
    var m := q % TwoTo32;
    assert q == (q / TwoTo32) * TwoTo32 + m;
    assert (m - EpochConstant) % TwoTo32 == (m + SecondsFrom1900To2000) % TwoTo32 by {
      assert m + SecondsFrom1900To2000 == (m - EpochConstant) + TwoTo32;
    }
    ModShift(q / TwoTo32, m + SecondsFrom1900To2000);
  }

  lemma ModShift(k: int, x: int)
    ensures (k * TwoTo32 + x) % TwoTo32 == x % TwoTo32
  {
  }

  /** Over one second of time-base ticks the result advances by exactly one, wrapping at 2^32. */
  lemma GetTimeTicksBySecond(time: s64, busClock: u32)
    requires busClock / 4 != 0 && 0 <= time && time + busClock / 4 < TwoTo63
    ensures GetTime(time + busClock / 4, busClock) == (GetTime(time, busClock) + 1) % TwoTo32
  {
    var d := busClock / 4;
    var q := TruncDiv(time, d);
    QuotientStep(time, d, q, TruncDiv(time + d, d));
    ModSucc(q + SecondsFrom1900To2000);
  }

  /** Adding the divisor to a non-negative dividend adds one to the truncated quotient. */
  lemma QuotientStep(a: int, d: int, q: int, q': int)
    requires d > 0 && 0 <= q * d <= a < q * d + d
    requires 0 <= q' * d <= a + d < q' * d + d
    ensures q' == q + 1
  {
    assert (q + 1) * d == q * d + d;
    if q' <= q {
      MulMono(q', q, d);
    } else if q' >= q + 2 {
      assert (q + 2) * d == q * d + d + d;
      MulMono(q + 2, q', d);
    }
  }

  lemma ModSucc(x: int)
    ensures (x + 1) % TwoTo32 == (x % TwoTo32 + 1) % TwoTo32
  {
    ModShift(x / TwoTo32, x % TwoTo32 + 1);
  }

  lemma MulMono(x: int, y: int, d: int)
    requires x <= y && d > 0
    ensures x * d <= y * d
  {
    assert y * d - x * d == (y - x) * d;
  }
}
