/** The deadline arithmetic of pthread_cond_timedwait. Times are normalised. */
module Deadline {
  /** C's division: the quotient is truncated toward zero. */
  function TruncDiv(a: int, b: int): int
    requires b > 0
  {
    if a >= 0 then a / b else -((-a) / b)
  }

  /** A 32-bit long. */
  function Wrap(x: int): int
  {
    (x + 0x8000_0000) % 0x1_0000_0000 - 0x8000_0000
  }

  predicate Fits(x: int)
  {
    -0x8000_0000 <= x < 0x8000_0000
  }

  datatype Timespec = Timespec(sec: int, nsec: int)
  datatype Timeval = Timeval(sec: int, usec: int)

  /** The fields are longs, and the clock gives less than a second of microseconds. */
  predicate Longs(deadline: Timespec, now: Timeval)
  {
    && Fits(deadline.sec) && Fits(deadline.nsec) && Fits(now.sec) && 0 <= now.usec < 1_000_000
  }

  predicate Normalised(deadline: Timespec, now: Timeval)
  {
    Longs(deadline, now) && 0 <= deadline.nsec < 1_000_000_000
  }

  /** timeout as the expression reads, before clamping, on unbounded integers. */
  function RawTimeout(deadline: Timespec, now: Timeval): int
  {
    (deadline.sec - now.sec) * 1000 + TruncDiv(TruncDiv(deadline.nsec, 1000) - now.usec, 1000)
  }

  /** The same in 32-bit arithmetic. */
  function Timeout32(deadline: Timespec, now: Timeval): int
  {
    Wrap(Wrap(Wrap(deadline.sec - now.sec) * 1000) + TruncDiv(TruncDiv(deadline.nsec, 1000) - now.usec, 1000))
  }

  function Clamp(t: int): int
  {
    if t < 0 then 0 else t
  }

  /** The true gap, in nanoseconds. */
  function Gap(deadline: Timespec, now: Timeval): int
  {
    (deadline.sec - now.sec) * 1_000_000_000 + deadline.nsec - now.usec * 1000
  }

  /** The timeout is strictly less than a millisecond off the true gap, either way:
      never late when the sub-second parts are in order, and less than a microsecond
      early when they are not. */
  lemma TimeoutIsWithinOneMillisecond(deadline: Timespec, now: Timeval)
    requires Longs(deadline, now)
    ensures -1_000_000 < RawTimeout(deadline, now) * 1_000_000 - Gap(deadline, now) < 1_000_000
    ensures deadline.nsec / 1000 >= now.usec ==> RawTimeout(deadline, now) * 1_000_000 <= Gap(deadline, now)
    ensures deadline.nsec / 1000 < now.usec ==> RawTimeout(deadline, now) * 1_000_000 > Gap(deadline, now) - 1000
  {
  }

  /** What the wait is given: the 32-bit value, or 0 if that is negative. */
  function Timeout(deadline: Timespec, now: Timeval): int
  {
    Clamp(Timeout32(deadline, now))
  }

  /** A value whose 32-bit remainder reads as negative, or is 0. */
  predicate ReadsAsPast(x: int)
  {
    x % 0x1_0000_0000 == 0 || x % 0x1_0000_0000 >= 0x8000_0000
  }

  lemma WrapShift(x: int, k: int)
    ensures Wrap(x + k * 0x1_0000_0000) == Wrap(x)
  {
  }

  lemma WrapFacts(x: int)
    ensures Fits(Wrap(x)) && (x - Wrap(x)) % 0x1_0000_0000 == 0
    ensures Wrap(x) == x <==> Fits(x)
    ensures Wrap(x) <= 0 <==> ReadsAsPast(x)
  {
  }

  /** Wrapping at every operation comes to wrapping once. */
  lemma TimeoutWrapsOnce(deadline: Timespec, now: Timeval)
    ensures Timeout32(deadline, now) == Wrap(RawTimeout(deadline, now))
  {
    var d, m := deadline.sec - now.sec, TruncDiv(TruncDiv(deadline.nsec, 1000) - now.usec, 1000);
    var k := (d - Wrap(d)) / 0x1_0000_0000;
    var l := (Wrap(d) * 1000 - Wrap(Wrap(d) * 1000)) / 0x1_0000_0000;
    WrapFacts(d);
    WrapFacts(Wrap(d) * 1000);
    WrapShift(Wrap(Wrap(d) * 1000) + m, k * 1000 + l);
  }

  /** The 32-bit value before clamping is the exact one if and only if that fits. */
  lemma NoOverflowExactlyWhenItFits(deadline: Timespec, now: Timeval)
    ensures Timeout32(deadline, now) == RawTimeout(deadline, now) <==> Fits(RawTimeout(deadline, now))
  {
    TimeoutWrapsOnce(deadline, now);
    WrapFacts(RawTimeout(deadline, now));
  }

  /** The timeout used is the exact one if and only if that fits in 32 bits, or lies so far
      in the past that its remainder reads as past as well. */
  lemma TimeoutIsExactExactlyWhen(deadline: Timespec, now: Timeval)
    ensures var raw := RawTimeout(deadline, now);
            Timeout(deadline, now) == Clamp(raw) <==> Fits(raw) || (raw < 0 && ReadsAsPast(raw))
  {
    TimeoutWrapsOnce(deadline, now);
    WrapFacts(RawTimeout(deadline, now));
  }

  /** Every deadline from 2^31 to 2^32 milliseconds ahead (about 25 to 50 days) is taken
      for one in the past: the wait does not wait. */
  lemma FarDeadlinesTimeOutAtOnce(deadline: Timespec, now: Timeval)
    requires Longs(deadline, now) && 0x8000_0000 <= RawTimeout(deadline, now) < 0x1_0000_0000
    ensures Timeout(deadline, now) == 0 && Gap(deadline, now) > 0
  {
    TimeoutIsWithinOneMillisecond(deadline, now);
    TimeoutWrapsOnce(deadline, now);
  }

  /** Every deadline that passed from 2^31 to 2^32 milliseconds ago is taken for one in the
      future: the wait is up to 25 days long. */
  lemma LongPastDeadlinesWait(deadline: Timespec, now: Timeval)
    requires Longs(deadline, now) && -0x1_0000_0000 < RawTimeout(deadline, now) < -0x8000_0000
    ensures Gap(deadline, now) < 0
    ensures Timeout(deadline, now) == RawTimeout(deadline, now) + 0x1_0000_0000 > 0
  {
    TimeoutIsWithinOneMillisecond(deadline, now);
    TimeoutWrapsOnce(deadline, now);
  }

  predicate NotLater(a: Timespec, b: Timespec)
  {
    a.sec < b.sec || (a.sec == b.sec && a.nsec <= b.nsec)
  }

  lemma RawTimeoutIsMonotone(a: Timespec, b: Timespec, now: Timeval)
    requires Normalised(a, now) && Normalised(b, now) && NotLater(a, b)
    ensures RawTimeout(a, now) <= RawTimeout(b, now)
  {
  }

  /** The largest timeout there is. */
  const LONGEST: int := 0x7fff_ffff

  /** Some deadline no later than b whose timeout fits gives a longer wait than b. */
  ghost predicate Overtaken(b: Timespec, now: Timeval)
  {
    exists a :: Normalised(a, now) && NotLater(a, b) && Fits(RawTimeout(a, now)) && Timeout(a, now) > Timeout(b, now)
  }

  /** The deadline LONGEST milliseconds after now. */
  function Furthest(now: Timeval): Timespec
  {
    if now.usec < 353_000 then Timespec(now.sec + 2_147_483, (now.usec + 647_000) * 1000)
    else Timespec(now.sec + 2_147_484, (now.usec - 353_000) * 1000)
  }

  /** A deadline never waits shorter than an earlier one if and only if its timeout is
      below 2^31 milliseconds (or wraps to the largest there is): up to there the timeout
      used is monotone in the deadline, beyond it is not. */
  lemma OvertakenExactlyBeyondRange(b: Timespec, now: Timeval)
    requires Normalised(b, now)
    ensures Overtaken(b, now) <==> RawTimeout(b, now) > LONGEST && Timeout(b, now) != LONGEST
  {
    if RawTimeout(b, now) > LONGEST {
      var a := Furthest(now);
      FurthestIsLongest(now, b);
      assert Timeout(b, now) <= LONGEST;
      assert Normalised(a, now) && NotLater(a, b) && Timeout(a, now) == LONGEST;
    } else {
      forall a | Normalised(a, now) && NotLater(a, b) && Fits(RawTimeout(a, now))
        ensures Timeout(a, now) <= Timeout(b, now) {
        RawTimeoutIsMonotone(a, b, now);
        TimeoutIsExactExactlyWhen(a, now);
        TimeoutIsExactExactlyWhen(b, now);
      }
    }
  }

  lemma FurthestIsLongest(now: Timeval, b: Timespec)
    requires Normalised(b, now) && RawTimeout(b, now) > LONGEST
    ensures var a := Furthest(now);
            && Normalised(a, now) && NotLater(a, b)
            && RawTimeout(a, now) == LONGEST && Timeout(a, now) == LONGEST
  {
    var a := Furthest(now);
    if !NotLater(a, b) { RawTimeoutIsMonotone(b, a, now); }
  }

  lemma TimeoutIsCongruent(deadline: Timespec, now: Timeval)
    ensures var t := Timeout(deadline, now);
            && 0 <= t <= LONGEST && (t == 0 <==> ReadsAsPast(RawTimeout(deadline, now)))
            && (t != 0 ==> (RawTimeout(deadline, now) - t) % 0x1_0000_0000 == 0)
  {
    TimeoutWrapsOnce(deadline, now);
    WrapFacts(RawTimeout(deadline, now));
  }

  lemma TimeoutIsCloseWhenItFits(deadline: Timespec, now: Timeval)
    requires Longs(deadline, now) && Fits(RawTimeout(deadline, now))
    ensures var t, gap := Timeout(deadline, now), Gap(deadline, now);
            && (gap > -1000 ==> -1_000_000 < t * 1_000_000 - gap < 1_000_000)
            && (gap <= -1_000_000 ==> t == 0)
  {
    TimeoutIsWithinOneMillisecond(deadline, now);
    TimeoutIsExactExactlyWhen(deadline, now);
  }

  /** A deadline that passed 2147484 seconds ago waits for almost 25 days. */
  lemma ExpiredDeadlineWaits()
    ensures Gap(Timespec(0, 0), Timeval(2_147_484, 0)) < 0
    ensures Timeout(Timespec(0, 0), Timeval(2_147_484, 0)) == 2_147_483_296
  {
    LongPastDeadlinesWait(Timespec(0, 0), Timeval(2_147_484, 0));
  }

  /** One 2147485 seconds ahead does not wait at all, where one 1000 seconds ahead does. */
  lemma LaterDeadlineWaitsShorter()
    ensures NotLater(Timespec(1000, 0), Timespec(2_147_485, 0))
    ensures Timeout(Timespec(1000, 0), Timeval(0, 0)) == 1_000_000
    ensures Timeout(Timespec(2_147_485, 0), Timeval(0, 0)) == 0
  {
    TimeoutWrapsOnce(Timespec(1000, 0), Timeval(0, 0));
    FarDeadlinesTimeOutAtOnce(Timespec(2_147_485, 0), Timeval(0, 0));
  }

  /** The timeout that timedwait computes; hasDeadline: one was given. It is in the range
      of a long; it is 0 exactly without a deadline or when the exact value reads as past,
      and otherwise equals that value up to multiples of 2^32; so when that fits it is
      within a millisecond of the gap, or 0 for a deadline that has passed. */
  method TimeoutFor(hasDeadline: bool, deadline: Timespec, now: Timeval) returns (timeout: int)
    requires hasDeadline ==> Longs(deadline, now)
    ensures 0 <= timeout <= LONGEST
    ensures timeout == 0 <==> !hasDeadline || ReadsAsPast(RawTimeout(deadline, now))
    ensures timeout != 0 ==> (RawTimeout(deadline, now) - timeout) % 0x1_0000_0000 == 0
    ensures hasDeadline && Fits(RawTimeout(deadline, now)) && Gap(deadline, now) > -1000 ==>
              -1_000_000 < timeout * 1_000_000 - Gap(deadline, now) < 1_000_000
    ensures hasDeadline && Fits(RawTimeout(deadline, now)) && Gap(deadline, now) <= -1_000_000 ==> timeout == 0
  {
    timeout := 0;
    if hasDeadline {
      TimeoutIsCongruent(deadline, now);
      if Fits(RawTimeout(deadline, now)) { TimeoutIsCloseWhenItFits(deadline, now); }
      var millis := TruncDiv(TruncDiv(deadline.nsec, 1000) - now.usec, 1000);
      timeout := Wrap(Wrap(Wrap(deadline.sec - now.sec) * 1000) + millis);
      if timeout < 0 {
        timeout := 0;
      }
      assert timeout == Timeout(deadline, now);
    }
  }
}
