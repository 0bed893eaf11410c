/**
  Retry and circuit-breaker delays, in nanoseconds, with the machine arithmetic of 64-bit durations.
 */
module Backoff {
  import opened Options

  const SECOND := 1_000_000_000
  const MINUTE := 60_000_000_000
  const DAY := 86_400_000_000_000
  const TWO_63 := 0x8000_0000_0000_0000
  const TWO_64 := 0x1_0000_0000_0000_0000

  predicate IsDuration(d: int) {
    -TWO_63 <= d < TWO_63
  }

  /** The value an overflowing 64-bit result wraps round to. */
  function Wrap(x: int): (r: int)
    ensures IsDuration(r)
    ensures IsDuration(x) ==> r == x
  {
    (x + TWO_63) % TWO_64 - TWO_63
  }

  /** Division truncates towards zero. */
  function Trunc(x: int, d: int): int
    requires d > 0
  {
    if x < 0 then -((-x) / d) else x / d
  }

  function Pow2(e: nat): int {
    if e == 0 then 1 else 2 * Pow2(e - 1)
  }

  function Exponent(attempt: int, cap: nat): nat {
    var e := (if attempt <= 1 then 1 else attempt) - 1;
    if e > cap then cap else e
  }

  /** The delay before jitter. */
  function RawDelay(attempt: int, base: int, max: int): int {
    var delay := Wrap((if base <= 0 then SECOND else base) * Pow2(Exponent(attempt, 30)));
    if delay > max then max else delay
  }

  /** The delay after drawing j as jitter: a quarter less up to a quarter more. */
  function Jittered(raw: int, j: int): int {
    Wrap(raw + (j - Trunc(raw, 4)))
  }

  ghost predicate IsJittered(raw: int, d: int) {
    exists j :: 0 <= j < Trunc(raw, 2) && d == Jittered(raw, j)
  }

  /** `roll` stands for the random source; drawing from an empty range aborts the program. */
  function BackoffDelay(attempt: int, base: int, max: int, roll: nat): (r: Option<int>)
    ensures r.None? <==> Trunc(RawDelay(attempt, base, max), 2) <= 0
    ensures r.Some? ==> IsJittered(RawDelay(attempt, base, max), r.value)
  {
    var delay := RawDelay(attempt, base, max);
    var n := Trunc(delay, 2);
    if n <= 0 then None
    else
      assert 0 <= roll % n < n;
      Some(Jittered(delay, roll % n))
  }

  lemma PowersOfTwo()
    ensures Pow2(0) == 1 && Pow2(1) == 2 && Pow2(2) == 4 && Pow2(3) == 8 && Pow2(4) == 16 && Pow2(5) == 32
    ensures Pow2(27) == 0x800_0000 && Pow2(28) == 0x1000_0000 && Pow2(29) == 0x2000_0000 && Pow2(30) == 0x4000_0000
  {
    PowAdds(5, 5);
    PowAdds(10, 10);
    PowAdds(20, 5);
  }

  lemma {:induction false} PowAdds(m: nat, n: nat)
    ensures Pow2(m + n) == Pow2(m) * Pow2(n)
  {
    if m > 0 {
      PowAdds(m - 1, n);
      assert Pow2(m - 1) * 2 * Pow2(n) == 2 * (Pow2(m - 1) * Pow2(n));
    }
  }

  lemma {:induction false} PowGrows(m: nat, n: nat)
    requires m <= n
    ensures 1 <= Pow2(m) <= Pow2(n)
    decreases n
  {
    if m < n {
      PowGrows(m, n - 1);
    } else if m > 0 {
      PowGrows(m - 1, m - 1);
    }
  }

  /** The job queue's schedule, one minute doubling up to thirty, as a number of minutes. */
  function Minutes(attempt: int): int {
    var e := Exponent(attempt, 30);
    if e >= 5 then 30 else Pow2(e)
  }

  /** The multiplication overflows from exponent 28 on; only 28 and 29 leave a negative delay. */
  lemma QueueDelay(attempt: int)
    ensures attempt != 29 && attempt != 30 ==> RawDelay(attempt, MINUTE, 30 * MINUTE) == Minutes(attempt) * MINUTE
    ensures attempt == 29 || attempt == 30 ==> RawDelay(attempt, MINUTE, 30 * MINUTE) < 0
  {
    var e := Exponent(attempt, 30);
    PowersOfTwo();
    if e <= 27 {
      PowGrows(e, 27);
      if e >= 5 {
        PowGrows(5, e);
      }
    }
  }

  /** With the queue's parameters the delay aborts on exactly two attempt numbers, which the cap of 30 lets through. */
  lemma QueueDelayAborts(attempt: int, roll: nat)
    ensures BackoffDelay(attempt, MINUTE, 30 * MINUTE, roll).None? <==> attempt == 29 || attempt == 30
  {
    QueueDelay(attempt);
    PowersOfTwo();
    PowGrows(0, Exponent(attempt, 30));
  }

  /** A delay the queue may draw for an attempt number. */
  ghost predicate IsQueueDelay(attempt: int, d: int) {
    IsJittered(RawDelay(attempt, MINUTE, 30 * MINUTE), d)
  }

  lemma JitterRange(minutes: int, j: int)
    requires 1 <= minutes <= 30 && 0 <= j < Trunc(minutes * MINUTE, 2)
    ensures minutes * 45 * SECOND <= Jittered(minutes * MINUTE, j) < minutes * 75 * SECOND
  {
    assert Trunc(minutes * MINUTE, 4) == minutes * 15 * SECOND;
    assert Trunc(minutes * MINUTE, 2) == minutes * 30 * SECOND;
  }

  /** Within a quarter of the scheduled delay, and without overflow, for every attempt the queue reaches. */
  lemma QueueDelayRange(attempt: int, d: int)
    requires attempt <= 28 && IsQueueDelay(attempt, d)
    ensures Minutes(attempt) * 45 * SECOND <= d < Minutes(attempt) * 75 * SECOND
  {
    var e := Exponent(attempt, 30);
    PowersOfTwo();
    if e < 5 {
      PowGrows(e, 4);
    }
    QueueDelay(attempt);
    var raw := RawDelay(attempt, MINUTE, 30 * MINUTE);
    var j :| 0 <= j < Trunc(raw, 2) && d == Jittered(raw, j);
    JitterRange(Minutes(attempt), j);
  }

  /**
    The delay in full for every attempt the queue reaches: three quarters of the scheduled minutes and what is drawn
    below half of them. So every such delay can be drawn.
   */
  lemma QueueDelayDrawn(attempt: int, roll: nat)
    requires attempt <= 28
    ensures var minutes := if attempt >= 6 then 30 else if attempt == 5 then 16 else if attempt == 4 then 8
                           else if attempt == 3 then 4 else if attempt == 2 then 2 else 1;
            BackoffDelay(attempt, MINUTE, 30 * MINUTE, roll) ==
            Some(minutes * 45 * SECOND + roll % (minutes * 30 * SECOND))
  {
    PowersOfTwo();
    QueueDelay(attempt);
    var minutes := Minutes(attempt);
    hide Pow2, RawDelay;
    DrawnInFull(minutes, roll);
  }

  lemma DrawnInFull(minutes: int, roll: nat)
    requires 1 <= minutes <= 30
    ensures Trunc(minutes * MINUTE, 2) > 0
    ensures Jittered(minutes * MINUTE, roll % Trunc(minutes * MINUTE, 2)) ==
            minutes * 45 * SECOND + roll % (minutes * 30 * SECOND)
  {
    assert Trunc(minutes * MINUTE, 4) == minutes * 15 * SECOND;
    assert Trunc(minutes * MINUTE, 2) == minutes * 30 * SECOND;
    RemainderBelow(roll, minutes * 30 * SECOND);
  }

  lemma RemainderBelow(x: nat, n: int)
    requires n > 0
    ensures 0 <= x % n < n
  {
  }

  // ----- Circuit breaker

  /** A negative shift count aborts the program; counts of recorded failures are positive. */
  function CircuitCooldown(poll: int, failures: int): int
    requires failures >= 1
  {
    var base := if poll < MINUTE then MINUTE else poll;
    var e := if failures - 1 > 5 then 5 else failures - 1;
    var d := Wrap(base * Pow2(e));
    if d > DAY then DAY else d
  }

  /** Twice as long per failure up to 32 times, never under a minute or over a day, unless the product overflows. */
  lemma CooldownLaw(poll: int, failures: int)
    requires failures >= 1 && poll * 32 < TWO_63
    ensures var full := (if poll < MINUTE then MINUTE else poll) * Pow2(if failures > 6 then 5 else failures - 1);
            CircuitCooldown(poll, failures) == (if full > DAY then DAY else full)
    ensures MINUTE <= CircuitCooldown(poll, failures) <= DAY
    ensures CircuitCooldown(poll, failures) <= CircuitCooldown(poll, failures + 1)
  {
    PowersOfTwo();
    var base := if poll < MINUTE then MINUTE else poll;
    CooldownCase(base, failures);
    CooldownCase(base, failures + 1);
  }

  lemma CooldownCase(base: int, failures: int)
    requires failures >= 1 && MINUTE <= base && base * 32 < TWO_63
    ensures var e := if failures > 6 then 5 else failures - 1;
            Wrap(base * Pow2(e)) == base * Pow2(e) && MINUTE <= base * Pow2(e)
    ensures failures <= 5 ==> base * Pow2(failures) == 2 * (base * Pow2(failures - 1))
  {
    PowersOfTwo();
    var e := if failures > 6 then 5 else failures - 1;
    assert e == 0 || e == 1 || e == 2 || e == 3 || e == 4 || e == 5;
  }
}
