/** Time arithmetic (src/time.c) on a signed 64-bit count of seconds and an unsigned 32-bit
    count of nanoseconds, and the waits computed with it (src/unix/poll.c:91-104,
    src/unix/epoll.c:52-70). */
module Time {
  import opened FdAccounting

  type Int64 = x: int | -0x8000_0000_0000_0000 <= x < 0x8000_0000_0000_0000
  type UInt32 = x: int | 0 <= x < 0x1_0000_0000

  datatype Time = Time(sec: Int64, nsec: UInt32)

  const BILLION := 1_000_000_000
  const MILLION := 1_000_000

  predicate Fits(x: int) {
    -0x8000_0000_0000_0000 <= x < 0x8000_0000_0000_0000
  }

  /** The time in nanoseconds. */
  function Total(t: Time): int {
    t.sec * BILLION + t.nsec
  }

  predicate Normal(t: Time) {
    t.nsec < BILLION
  }

  // ---- Sums and differences ----

  /** What yo_timeadd promises.  The one carry happens only past a full second, so a sum of
      normal times can be left at exactly a full second of nanoseconds. */
  ghost predicate IsSum(r: Time, a: Time, b: Time) {
    && Total(r) == Total(a) + Total(b)
    && (Normal(a) && Normal(b) ==> r.nsec <= BILLION && (r.nsec == BILLION <==> a.nsec + b.nsec == BILLION))
  }

  /** Nothing overflows on the way. */
  predicate AddFits(a: Time, b: Time) {
    && a.nsec + b.nsec < 0x1_0000_0000
    && Fits(a.sec + b.sec) && (a.nsec + b.nsec > BILLION ==> Fits(a.sec + b.sec + 1))
  }

  /** yo_timeadd */
  method TimeAdd(a: Time, b: Time) returns (res: Time)
    requires AddFits(a, b)
    ensures IsSum(res, a, b)
  {
    var sec: Int64 := a.sec + b.sec;
    var nsec: UInt32 := a.nsec + b.nsec;
    if nsec > BILLION {
      nsec := nsec - BILLION;
      sec := sec + 1;
    }
    return Time(sec, nsec);
  }

  /** What yo_timesub promises, even for a sum that was left at a full second. */
  ghost predicate IsDifference(r: Time, a: Time, b: Time) {
    && Total(r) == Total(a) - Total(b)
    && (a.nsec <= BILLION && Normal(b) ==>
          r.nsec <= BILLION && (r.nsec == BILLION <==> a.nsec == BILLION && b.nsec == 0))
  }

  predicate SubFits(a: Time, b: Time) {
    var borrow := if a.nsec < b.nsec then 1 else 0;
    var nsec := a.nsec + borrow * BILLION - b.nsec;
    && a.nsec + borrow * BILLION < 0x1_0000_0000 && nsec >= 0
    && Fits(a.sec - borrow) && Fits(a.sec - borrow - b.sec)
    && (nsec > BILLION ==> Fits(a.sec - borrow - b.sec + 1))
  }

  /** yo_timesub */
  method TimeSub(minuend: Time, b: Time) returns (res: Time)
    requires SubFits(minuend, b)
    ensures IsDifference(res, minuend, b)
  {
    var a := minuend;
    if a.nsec < b.nsec {
      a := Time(a.sec - 1, a.nsec + BILLION);
    }
    var sec: Int64 := a.sec - b.sec;
    var nsec: UInt32 := a.nsec - b.nsec;
    if nsec > BILLION {
      sec := sec + 1;
      nsec := nsec - BILLION;
    }
    return Time(sec, nsec);
  }

  /** A sum is fixed by its total and by whether it was left at a full second. */
  lemma TotalDetermines(a: Time, b: Time)
    requires Total(a) == Total(b) && a.nsec <= BILLION && b.nsec <= BILLION
    ensures a == b <==> (a.nsec == BILLION <==> b.nsec == BILLION)
  {
  }

  /** Subtracting what was added gives back the time, field for field, even when the sum was
      not normal. */
  lemma SubUndoesAdd(a: Time, b: Time, sum: Time, r: Time)
    requires Normal(a) && Normal(b) && IsSum(sum, a, b) && IsDifference(r, sum, b)
    ensures r == a
  {
    TotalDetermines(r, a);
  }

  /** The other way round it does unless a whole number of seconds had to borrow. */
  lemma AddUndoesSubIff(a: Time, b: Time, diff: Time, r: Time)
    requires Normal(a) && Normal(b) && IsDifference(diff, a, b) && IsSum(r, diff, b)
    ensures r == a <==> !(a.nsec == 0 && b.nsec > 0)
  {
    TotalDetermines(r, a);
    FractionOfDifference(a, b, diff);
  }

  lemma FractionOfDifference(a: Time, b: Time, diff: Time)
    requires Normal(a) && Normal(b) && IsDifference(diff, a, b)
    ensures diff.nsec == if a.nsec < b.nsec then a.nsec - b.nsec + BILLION else a.nsec - b.nsec
  {
  }

  // ---- Comparison ----

  function Sign(x: int): int {
    if x < 0 then -1 else if x > 0 then 1 else 0
  }

  /** One of the two is the other's instant, written with a full second of nanoseconds. */
  predicate SameInstantTwice(a: Time, b: Time) {
    a.nsec == BILLION && b.nsec == 0 && b.sec == a.sec + 1
  }

  /** yo_timecmp orders times by their totals, except that it tells the two ways to write one
      instant apart. */
  method TimeCmp(a: Time, b: Time) returns (r: int)
    ensures a.nsec <= BILLION && b.nsec <= BILLION ==>
      (r == Sign(Total(a) - Total(b)) <==> !SameInstantTwice(a, b) && !SameInstantTwice(b, a))
    ensures SameInstantTwice(a, b) ==> r == -1
    ensures SameInstantTwice(b, a) ==> r == 1
    ensures r == 0 <==> a == b
  {
    if a.nsec <= BILLION && b.nsec <= BILLION {
      CompareSeconds(a, b);
      CompareSeconds(b, a);
    }
    if a.sec != b.sec {
      return if a.sec < b.sec then -1 else 1;
    }
    if a.nsec != b.nsec {
      return if a.nsec < b.nsec then -1 else 1;
    }
    return 0;
  }

  lemma CompareSeconds(a: Time, b: Time)
    requires a.nsec <= BILLION && b.nsec <= BILLION
    ensures a.sec < b.sec ==> Total(a) <= Total(b)
    ensures a.sec < b.sec ==> (Total(a) == Total(b) <==> SameInstantTwice(a, b))
  {
  }

  // ---- Milliseconds ----

  /** `ms` milliseconds are the least whole number of them that reaches `total`. */
  predicate IsCeiling(ms: int, total: int) {
    (ms - 1) * MILLION < total <= ms * MILLION
  }

  /** yo_timems.  The division is of unsigned numbers. */
  method TimeMs(t: Time) returns (ms: Int64)
    requires t.nsec + 999999 < 0x1_0000_0000
    requires Fits(t.sec * 1000) && Fits(t.sec * 1000 + (t.nsec + 999999) / MILLION)
    ensures IsCeiling(ms, Total(t))
  {
    var sum: UInt32 := t.nsec + 999999;
    ms := t.sec * 1000 + sum / MILLION;
  }

  /** The wait of _yoi_poll_wrapper where poll(2) takes milliseconds: it never ends before the
      deadline, and asks for less than a millisecond too much; a deadline that has passed
      is not waited for at all.  The deadline may be a sum left at a full second. */
  method WaitMs(deadline: Time, now: Time) returns (ms: Int64)
    requires deadline.nsec <= BILLION && Normal(now)
    requires SubFits(deadline, now)
    requires Fits((deadline.sec - now.sec - 1) * 1000) && Fits((deadline.sec - now.sec) * 1000 + 1000)
    ensures ms >= 0
    ensures Total(now) + ms * MILLION >= Total(deadline)
    ensures if Total(deadline) > Total(now) then Total(now) + (ms - 1) * MILLION < Total(deadline) else ms == 0
  {
    var diff := TimeSub(deadline, now);
    SecondsOfDifference(deadline, now, diff);
    ms := TimeMs(diff);
    if ms < 0 {
      ms := 0;
    }
  }

  lemma SecondsOfDifference(a: Time, b: Time, diff: Time)
    requires a.nsec <= BILLION && Normal(b) && IsDifference(diff, a, b)
    ensures diff.sec == if a.nsec < b.nsec then a.sec - b.sec - 1 else a.sec - b.sec
  {
  }

  /** The wait for ppoll(2), in full resolution: exactly until the deadline.  The result is
      handed to ppoll, which refuses a full second of nanoseconds: it is a proper one unless
      the deadline was left at a full second and `now` is a whole second not after it. */
  method WaitNs(deadline: Time, now: Time) returns (wait: Time)
    requires deadline.nsec <= BILLION && Normal(now)
    requires SubFits(deadline, now)
    ensures Total(wait) == if Total(deadline) > Total(now) then Total(deadline) - Total(now) else 0
    ensures Normal(wait) <==> !(deadline.nsec == BILLION && now.nsec == 0 && deadline.sec >= now.sec)
  {
    wait := TimeSub(deadline, now);
    SecondsOfDifference(deadline, now, wait);
    if wait.sec < 0 {
      wait := Time(0, 0);
    }
  }

  /** timerfd_settime(2) with an absolute time: an improper time is refused, zero disarms. */
  function TimerAfter(timer: Option<Time>, value: Time): Option<Time> {
    if !Normal(value) || value.sec < 0 then timer
    else if value == Time(0, 0) then None
    else Some(value)
  }

  /** The deadline of the epoll backend.  A deadline that has passed is not waited for; any other
      is handed to the timer as it is, and the timer is set to it if and only if it is a proper
      time.  A sum left at a full second never is: the timer keeps what it had. */
  method ArmTimer(deadline: Time, now: Time, timer: Option<Time>) returns (expired: bool, armed: Option<Time>)
    requires deadline.nsec <= BILLION && Normal(now)
    ensures expired <==> Total(now) > Total(deadline) || SameInstantTwice(deadline, now)
    ensures expired ==> armed == timer
    ensures !expired && timer != Some(deadline) ==>
      (armed == Some(deadline) <==> Normal(deadline) && deadline.sec >= 0 && deadline != Time(0, 0))
    ensures !Normal(deadline) ==> armed == timer
  {
    var order := TimeCmp(now, deadline);
    if order > 0 {
      return true, timer;
    }
    return false, TimerAfter(timer, deadline);
  }
}
